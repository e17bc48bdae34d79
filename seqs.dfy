/** Sequence helpers shared by every page: list comprehensions with an `if`
    clause, `sum(...)` over a generator, and slices `xs[:n]`. */
module Seqs {

  /** `a` can be obtained from `b` by deleting elements, keeping the order of
      the rest. Greedy matching of `a[0]` against the earliest equal element of
      `b` is complete, so this recursion decides the relation. */
  predicate IsSubsequence<T(==)>(a: seq<T>, b: seq<T>)
    decreases |b|
  {
    if a == [] then true
    else if b == [] then false
    else if a[0] == b[0] then IsSubsequence(a[1..], b[1..])
    else IsSubsequence(a, b[1..])
  }

  /** Every sequence is a subsequence of itself. */
  lemma {:induction false} SubsequenceReflexive<T>(s: seq<T>)
    ensures IsSubsequence(s, s)
    decreases |s|
  {
    if s != [] {
      SubsequenceReflexive(s[1..]);
    }
  }

  /** `[x for x in s if p(x)]` */
  function Filter<T(==,!new)>(s: seq<T>, p: T -> bool): (r: seq<T>)
    ensures |r| <= |s|
    ensures forall x :: x in r <==> x in s && p(x)
    ensures IsSubsequence(r, s)
  {
    if s == [] then []
    else if p(s[0]) then
      assert s == [s[0]] + s[1..];
      [s[0]] + Filter(s[1..], p)
    else
      assert s == [s[0]] + s[1..];
      Filter(s[1..], p)
  }

  /** No element occurs twice, as the keys of a dictionary. */
  predicate Distinct<T(==)>(s: seq<T>)
  {
    forall i, j :: 0 <= i < j < |s| ==> s[i] != s[j]
  }

  /** Some element before position `m` has key `k`. */
  predicate OccursBefore<T, K(==)>(s: seq<T>, key: T -> K, k: K, m: int)
  {
    exists l :: 0 <= l < m && l < |s| && key(s[l]) == k
  }

  /** The keys of `s` in order of first appearance, each once: the key order
      of a dictionary filled by a loop over `s`. */
  function FirstAppearances<T, K(==)>(s: seq<T>, key: T -> K): seq<K>
    decreases |s|
  {
    if s == [] then []
    else
      var seen := FirstAppearances(s[..|s| - 1], key);
      if key(s[|s| - 1]) in seen then seen else seen + [key(s[|s| - 1])]
  }

  /** Wherever a later key of `keys` occurs in `s`, an earlier key has occurred before it. */
  predicate KeysInOrder<T, K(==)>(s: seq<T>, key: T -> K, keys: seq<K>)
  {
    forall i, j, m :: 0 <= i < j < |keys| && 0 <= m < |s| && key(s[m]) == keys[j] ==> OccursBefore(s, key, keys[i], m)
  }

  /** Dropping the last element changes no occurrence before it. */
  lemma OccursBeforeInit<T, K>(s: seq<T>, key: T -> K, k: K, m: int)
    requires s != [] && m < |s|
    ensures OccursBefore(s, key, k, m) <==> OccursBefore(s[..|s| - 1], key, k, m)
  {
    if OccursBefore(s, key, k, m) {
      var l :| 0 <= l < m && l < |s| && key(s[l]) == k;
      assert s[..|s| - 1][l] == s[l];
    }
    if OccursBefore(s[..|s| - 1], key, k, m) {
      var l :| 0 <= l < m && l < |s| - 1 && key(s[..|s| - 1][l]) == k;
      assert s[..|s| - 1][l] == s[l];
    }
  }

  /** The first appearances are the keys that occur in `s`, each once. */
  lemma {:induction false} FirstAppearancesMembers<T, K>(s: seq<T>, key: T -> K)
    ensures Distinct(FirstAppearances(s, key))
    ensures forall k :: k in FirstAppearances(s, key) <==> OccursBefore(s, key, k, |s|)
    decreases |s|
  {
    if s != [] {
      var init := s[..|s| - 1];
      FirstAppearancesMembers(init, key);
      forall k ensures k in FirstAppearances(s, key) <==> OccursBefore(s, key, k, |s|) {
        OccursBeforeInit(s, key, k, |s| - 1);
        assert OccursBefore(s, key, k, |s|) <==> OccursBefore(s, key, k, |s| - 1) || key(s[|s| - 1]) == k;
      }
    }
  }

  /** Keys come in order of first appearance: wherever a later key occurs, an
      earlier key has occurred before it. */
  lemma {:induction false} FirstAppearancesOrdered<T, K>(s: seq<T>, key: T -> K)
    ensures KeysInOrder(s, key, FirstAppearances(s, key))
    decreases |s|
  {
    if s != [] {
      var init := s[..|s| - 1];
      var seen := FirstAppearances(init, key);
      var keys := FirstAppearances(s, key);
      FirstAppearancesOrdered(init, key);
      FirstAppearancesMembers(init, key);
      assert seen == keys[..|seen|];
      forall i, j, m | 0 <= i < j < |keys| && 0 <= m < |s| && key(s[m]) == keys[j]
        ensures OccursBefore(s, key, keys[i], m)
      {
        assert keys[i] == seen[i];
        assert keys[i] in seen;
        if j < |seen| {
          assert keys[j] == seen[j];
          var m' := m;
          if m == |init| {
            assert OccursBefore(init, key, seen[j], |init|);
            m' :| 0 <= m' < |init| && m' < |init| && key(init[m']) == seen[j];
          } else {
            assert init[m] == s[m];
            OccursBeforeInit(s, key, keys[i], m);
          }
          assert 0 <= i < j < |seen| && 0 <= m' < |init| && key(init[m']) == seen[j];
          assert OccursBefore(init, key, seen[i], m');
          var l :| 0 <= l < m' && l < |init| && key(init[l]) == keys[i];
          assert s[l] == init[l];
        } else {
          assert keys[j] == key(s[|s| - 1]) && keys[j] !in seen;
          if m < |init| {
            assert init[m] == s[m];
            assert OccursBefore(init, key, keys[j], |init|);
          }
          assert OccursBefore(init, key, seen[i], |init|);
          var l :| 0 <= l < |init| && l < |init| && key(init[l]) == keys[i];
          assert s[l] == init[l];
        }
      }
    }
  }

  /** Without repeats, every element occurs once in the multiset. */
  lemma {:induction false} DistinctOccursOnce<T>(s: seq<T>)
    requires Distinct(s)
    ensures forall x :: multiset(s)[x] <= 1
    decreases |s|
  {
    if s != [] {
      var init := s[..|s| - 1];
      assert Distinct(init) by {
        forall i, j | 0 <= i < j < |init| ensures init[i] != init[j] {
          assert init[i] == s[i] && init[j] == s[j];
        }
      }
      DistinctOccursOnce(init);
      assert s == init + [s[|s| - 1]];
      assert s[|s| - 1] !in init;
    }
  }

  /** An element at two positions occurs twice in the multiset. */
  lemma OccursOnceDistinct<T>(s: seq<T>)
    requires forall x :: multiset(s)[x] <= 1
    ensures Distinct(s)
  {
    forall i, j | 0 <= i < j < |s| ensures s[i] != s[j] {
      assert s == s[..j] + s[j..];
      assert s[i] == s[..j][i];
      assert s[j] == s[j..][0];
      assert multiset(s)[s[j]] == multiset(s[..j])[s[j]] + multiset(s[j..])[s[j]];
    }
  }

  /** Taking some elements of a sequence without repeats, in any order, gives no repeats. */
  lemma DistinctSubMultiset<T>(a: seq<T>, b: seq<T>)
    requires Distinct(b) && multiset(a) <= multiset(b)
    ensures Distinct(a)
  {
    DistinctOccursOnce(b);
    OccursOnceDistinct(a);
  }

  /** `sum(f(x) for x in s)` */
  function Sum<T>(s: seq<T>, f: T -> int): int
  {
    if s == [] then 0 else f(s[0]) + Sum(s[1..], f)
  }

  /** `s[:n]` for a non-negative `n`. */
  function Take<T>(s: seq<T>, n: nat): (r: seq<T>)
    ensures |r| == if |s| < n then |s| else n
    ensures forall i :: 0 <= i < |r| ==> r[i] == s[i]
  {
    if |s| <= n then s else s[..n]
  }

  lemma {:induction false} SubsequenceDropHead<T>(a: seq<T>, b: seq<T>)
    requires a != [] && IsSubsequence(a, b)
    ensures IsSubsequence(a[1..], b)
    decreases |b|, 1
  {
    if a[0] == b[0] {
      SubsequenceDropHead'(a[1..], b);
    } else {
      SubsequenceDropHead(a, b[1..]);
      SubsequenceDropHead'(a[1..], b);
    }
  }

  /** Helper of SubsequenceDropHead: a subsequence of a tail is one of the whole. */
  lemma {:induction false} SubsequenceDropHead'<T>(a: seq<T>, b: seq<T>)
    requires b != [] && IsSubsequence(a, b[1..])
    ensures IsSubsequence(a, b)
    decreases |b|, 0
  {
    if a != [] && a[0] == b[0] {
      SubsequenceDropHead(a, b[1..]);
    }
  }

  /** Applying a second filter to a filtered list yields a subsequence of the original. */
  lemma {:induction false} SubsequenceTransitive<T>(a: seq<T>, b: seq<T>, c: seq<T>)
    requires IsSubsequence(a, b) && IsSubsequence(b, c)
    ensures IsSubsequence(a, c)
    decreases |c|
  {
    if a == [] {
    } else if b == [] {
    } else if b[0] == c[0] {
      if a[0] == b[0] {
        SubsequenceTransitive(a[1..], b[1..], c[1..]);
      } else {
        SubsequenceTransitive(a, b[1..], c[1..]);
      }
    } else {
      SubsequenceTransitive(a, b, c[1..]);
      if a[0] == c[0] {
        SubsequenceDropHead(a, c[1..]);
      }
    }
  }

  /** Filtering a list grown by one element at the end. This is the step of a loop
      that appends the elements passing a test. */
  lemma {:induction false} FilterSnoc<T(!new)>(s: seq<T>, x: T, p: T -> bool)
    ensures Filter(s + [x], p) == Filter(s, p) + (if p(x) then [x] else [])
    decreases |s|
  {
    var tail := if p(x) then [x] else [];
    if s == [] {
      assert s + [x] == [x] && [x][1..] == [];
    } else {
      var t := s + [x];
      assert t[0] == s[0] && t[1..] == s[1..] + [x];
      FilterSnoc(s[1..], x, p);
      if p(s[0]) {
        calc {
          Filter(t, p);
          [s[0]] + Filter(s[1..] + [x], p);
          [s[0]] + (Filter(s[1..], p) + tail);
          ([s[0]] + Filter(s[1..], p)) + tail;
          Filter(s, p) + tail;
        }
      } else {
        calc {
          Filter(t, p);
          Filter(s[1..] + [x], p);
          Filter(s[1..], p) + tail;
          Filter(s, p) + tail;
        }
      }
    }
  }

  lemma {:induction false} FilterAppend<T(!new)>(a: seq<T>, b: seq<T>, p: T -> bool)
    ensures Filter(a + b, p) == Filter(a, p) + Filter(b, p)
    decreases |a|
  {
    if a == [] {
      assert a + b == b;
    } else {
      assert (a + b)[0] == a[0] && (a + b)[1..] == a[1..] + b;
      FilterAppend(a[1..], b, p);
    }
  }

  /** When every element passes, the filter is the identity; when none does, it is empty. */
  lemma {:induction false} FilterAllOrNone<T(!new)>(s: seq<T>, p: T -> bool)
    ensures (forall i :: 0 <= i < |s| ==> p(s[i])) ==> Filter(s, p) == s
    ensures (forall i :: 0 <= i < |s| ==> !p(s[i])) ==> Filter(s, p) == []
    decreases |s|
  {
    if s != [] {
      FilterAllOrNone(s[1..], p);
      assert forall i :: 1 <= i < |s| ==> s[i] == s[1..][i - 1];
      assert s == [s[0]] + s[1..];
    }
  }

  /** Filtering a filtered list by a stronger test is filtering the list by that test. */
  lemma {:induction false} FilterOfFilter<T(!new)>(s: seq<T>, p: T -> bool, q: T -> bool)
    requires forall x :: q(x) ==> p(x)
    ensures Filter(Filter(s, p), q) == Filter(s, q)
    decreases |s|
  {
    if s != [] {
      FilterOfFilter(s[1..], p, q);
    }
  }

  /** When `p` holds exactly when one of two exclusive tests does, its filter is
      as long as theirs together. */
  lemma {:induction false} FilterPartition<T(!new)>(s: seq<T>, p: T -> bool, q1: T -> bool, q2: T -> bool)
    requires forall x :: p(x) <==> q1(x) || q2(x)
    requires forall x :: !(q1(x) && q2(x))
    ensures |Filter(s, p)| == |Filter(s, q1)| + |Filter(s, q2)|
    decreases |s|
  {
    if s != [] {
      FilterPartition(s[1..], p, q1, q2);
    }
  }

  /** A filter keeps every copy of a passing element and no copy of a failing one. */
  lemma {:induction false} FilterMultiset<T(!new)>(s: seq<T>, p: T -> bool)
    ensures forall x :: multiset(Filter(s, p))[x] == if p(x) then multiset(s)[x] else 0
    decreases |s|
  {
    if s != [] {
      FilterMultiset(s[1..], p);
      assert s == [s[0]] + s[1..];
      assert multiset(s) == multiset{s[0]} + multiset(s[1..]);
    }
  }

  /** A filter keeps the whole list exactly when every element passes. */
  lemma {:induction false} FilterKeepsAll<T(!new)>(s: seq<T>, p: T -> bool)
    ensures |Filter(s, p)| == |s| <==> forall i :: 0 <= i < |s| ==> p(s[i])
    decreases |s|
  {
    if s != [] {
      FilterKeepsAll(s[1..], p);
      assert forall i :: 1 <= i < |s| ==> s[i] == s[1..][i - 1];
    }
  }

  lemma {:induction false} SumAppend<T>(a: seq<T>, b: seq<T>, f: T -> int)
    ensures Sum(a + b, f) == Sum(a, f) + Sum(b, f)
    decreases |a|
  {
    if a == [] {
      assert a + b == b;
    } else {
      assert (a + b)[1..] == a[1..] + b;
      SumAppend(a[1..], b, f);
    }
  }

  lemma {:induction false} SumNonNegative<T>(s: seq<T>, f: T -> int)
    requires forall i :: 0 <= i < |s| ==> f(s[i]) >= 0
    ensures Sum(s, f) >= 0
    decreases |s|
  {
    if s != [] {
      SumNonNegative(s[1..], f);
    }
  }
}
