/** The administrator's order pages: the filtered and sorted order list with
    its action buttons, the analytics tab (summary figures, the status
    distribution and the orders per customer) and the bulk actions on
    pending orders. */
module OrderManagement {
  import opened Wrappers
  import opened Seqs
  import opened Sorting
  import opened Models
  import Utils

  // ---------------------------------------------------------------------
  // All orders: filters

  /** The customers offered in the customer filter. */
  function Usernames(orders: seq<Order>): set<string>
  {
    set o | o in orders :: o.username
  }

  function PlacedBy(username: string): Order -> bool
  {
    (o: Order) => o.username == username
  }

  /** The status filter: "All" keeps every order, any other choice the orders with that status. */
  function StatusFilter(orders: seq<Order>, status: string): (r: seq<Order>)
    ensures status == "All" ==> r == orders
    ensures status != "All" ==> forall o :: o in r <==> o in orders && o.status == status
    ensures status != "All" ==> |r| == CountStatus(orders, status)
    ensures forall o :: multiset(r)[o] == if status == "All" || o.status == status then multiset(orders)[o] else 0
  {
    if status == "All" then orders
    else
      CountStatusIsFilterLength(orders, status);
      FilterMultiset(orders, HasStatus(status));
      Filter(orders, HasStatus(status))
  }

  /** The customer filter: "All" keeps every order, any other choice that customer's orders. */
  function CustomerFilter(orders: seq<Order>, username: string): (r: seq<Order>)
    ensures username == "All" ==> r == orders
    ensures username != "All" ==> forall o :: o in r <==> o in orders && o.username == username
    ensures forall o :: multiset(r)[o] == if username == "All" || o.username == username then multiset(orders)[o] else 0
  {
    if username == "All" then orders
    else
      FilterMultiset(orders, PlacedBy(username));
      Filter(orders, PlacedBy(username))
  }

  /** A customer offered in the customer filter has at least one order. */
  lemma OfferedCustomerIsInhabited(orders: seq<Order>, username: string)
    requires username in Usernames(orders) && username != "All"
    ensures CustomerFilter(orders, username) != []
  {
    var o :| o in orders && o.username == username;
    assert o in CustomerFilter(orders, username);
  }

  /** Both filters in turn: a subsequence of the orders, holding exactly the
      orders that pass both. */
  function FilteredOrders(orders: seq<Order>, status: string, username: string): (r: seq<Order>)
    ensures IsSubsequence(r, orders)
    ensures forall o :: o in r <==>
      o in orders && (status == "All" || o.status == status) && (username == "All" || o.username == username)
    ensures forall o :: multiset(r)[o] ==
              (if (status == "All" || o.status == status) && (username == "All" || o.username == username) then multiset(orders)[o] else 0)
  {
    var byStatus := StatusFilter(orders, status);
    var r := CustomerFilter(byStatus, username);
    SubsequenceReflexive(orders);
    SubsequenceReflexive(byStatus);
    assert IsSubsequence(byStatus, orders);
    assert IsSubsequence(r, byStatus);
    SubsequenceTransitive(r, byStatus, orders);
    r
  }

  // ---------------------------------------------------------------------
  // All orders: sorting

  datatype OrderSort = RecentFirst | OldestFirst | AmountHighToLow | AmountLowToHigh

  /** `key=lambda x: x['created_at'], reverse=True`, on ISO timestamps. */
  predicate NewerFirst(a: Order, b: Order) { LexLe(b.createdAt, a.createdAt) }

  predicate OlderFirst(a: Order, b: Order) { LexLe(a.createdAt, b.createdAt) }

  predicate LargerFirst(a: Order, b: Order) { a.totalAmount >= b.totalAmount }

  predicate SmallerFirst(a: Order, b: Order) { a.totalAmount <= b.totalAmount }

  lemma CreatedAtOrdersArePreorders()
    ensures TotalPreorder(NewerFirst) && TotalPreorder(OlderFirst)
  {
    forall a: Order, b: Order ensures OlderFirst(a, b) || OlderFirst(b, a) {
      LexLeTotal(a.createdAt, b.createdAt);
    }
    forall a: Order, b: Order ensures NewerFirst(a, b) || NewerFirst(b, a) {
      LexLeTotal(a.createdAt, b.createdAt);
    }
    forall a: Order, b: Order, c: Order | OlderFirst(a, b) && OlderFirst(b, c)
      ensures OlderFirst(a, c)
    {
      LexLeTransitive(a.createdAt, b.createdAt, c.createdAt);
    }
    forall a: Order, b: Order, c: Order | NewerFirst(a, b) && NewerFirst(b, c)
      ensures NewerFirst(a, c)
    {
      LexLeTransitive(c.createdAt, b.createdAt, a.createdAt);
    }
  }

  function OrderComparator(order: OrderSort): (Order, Order) -> bool
  {
    match order
    case RecentFirst => NewerFirst
    case OldestFirst => OlderFirst
    case AmountHighToLow => LargerFirst
    case AmountLowToHigh => SmallerFirst
  }

  /** The list's sort: a rearrangement of the rows, ordered by the chosen key. */
  function SortOrders(orders: seq<Order>, order: OrderSort): (r: seq<Order>)
    ensures multiset(r) == multiset(orders)
    ensures order == RecentFirst ==> forall i, j :: 0 <= i < j < |r| ==> LexLe(r[j].createdAt, r[i].createdAt)
    ensures order == OldestFirst ==> forall i, j :: 0 <= i < j < |r| ==> LexLe(r[i].createdAt, r[j].createdAt)
    ensures order == AmountHighToLow ==> forall i, j :: 0 <= i < j < |r| ==> r[i].totalAmount >= r[j].totalAmount
    ensures order == AmountLowToHigh ==> forall i, j :: 0 <= i < j < |r| ==> r[i].totalAmount <= r[j].totalAmount
  {
    CreatedAtOrdersArePreorders();
    var le := OrderComparator(order);
    var r := SortBy(orders, le);
    assert Sorted(r, le);
    r
  }

  // ---------------------------------------------------------------------
  // All orders: admin actions

  /** The admin buttons on an order. No button is offered on a delivered or a
      cancelled order; payment only on a placed one, delivery only on a paid
      one, cancellation on either. */
  function AdminActions(status: string): (r: set<OrderAction>)
    ensures status == "delivered" || status == "cancelled" ==> r == {}
    ensures MarkPaid in r <==> status == "placed"
    ensures MarkDelivered in r <==> status == "paid"
    ensures CancelOrder in r <==> status == "placed" || status == "paid"
  {
    if status != "cancelled" && status != "delivered" then
      (if status == "placed" then {MarkPaid} else {})
      + (if status == "paid" then {MarkDelivered} else {})
      + (if status in ["placed", "paid"] then {CancelOrder} else {})
    else {}
  }

  // ---------------------------------------------------------------------
  // Analytics: summary figures

  datatype AnalyticsSummary = AnalyticsSummary(totalOrders: nat, avgOrderValue: real, completionRate: real, totalRevenue: int)

  /** The four figures of the analytics tab, shown for a non-empty order list.
      Unlike the metrics helper, the average is taken over all orders. */
  function OrderAnalytics(orders: seq<Order>): (a: AnalyticsSummary)
    requires orders != []
    ensures a.totalOrders == |orders|
    ensures a.avgOrderValue * (|orders| as real) == Sum(orders, TotalAmount) as real
    ensures a.completionRate == Utils.CalculateOrderMetrics(orders).completionRate
    ensures 0.0 <= a.completionRate <= 100.0
    ensures a.totalRevenue == Utils.CalculateOrderMetrics(orders).totalRevenue
  {
    var delivered := Filter(orders, HasStatus("delivered"));
    AnalyticsSummary(
      |orders|,
      Utils.Average(Sum(orders, TotalAmount), |orders|),
      Utils.Percentage(|delivered|, |orders|),
      Sum(delivered, TotalAmount))
  }

  /** The two averages coincide when every order is delivered. */
  lemma AveragesAgreeWhenAllDelivered(orders: seq<Order>)
    requires orders != []
    requires forall i :: 0 <= i < |orders| ==> orders[i].status == "delivered"
    ensures OrderAnalytics(orders).avgOrderValue == Utils.CalculateOrderMetrics(orders).avgOrderValue
  {
    FilterAllOrNone(orders, HasStatus("delivered"));
  }

  // ---------------------------------------------------------------------
  // Analytics: status distribution

  /** `sum(counts[k] for k in keys)` */
  function SumAt(keys: seq<string>, counts: map<string, nat>): nat
    requires forall k :: k in keys ==> k in counts
  {
    if keys == [] then 0
    else SumAt(keys[..|keys| - 1], counts) + counts[keys[|keys| - 1]]
  }

  /** Changing an entry that is not among the keys leaves their sum alone. */
  lemma {:induction false} SumAtOther(keys: seq<string>, counts: map<string, nat>, s: string, x: nat)
    requires forall k :: k in keys ==> k in counts
    requires s !in keys
    ensures SumAt(keys, counts[s := x]) == SumAt(keys, counts)
    decreases |keys|
  {
    if keys != [] {
      SumAtOther(keys[..|keys| - 1], counts, s, x);
    }
  }

  /** Adding one to the entry of a key that occurs once adds one to the sum. */
  lemma {:induction false} SumAtIncrement(keys: seq<string>, counts: map<string, nat>, s: string)
    requires forall k :: k in keys ==> k in counts
    requires Distinct(keys) && s in keys
    ensures SumAt(keys, counts[s := counts[s] + 1]) == SumAt(keys, counts) + 1
    decreases |keys|
  {
    var init := keys[..|keys| - 1];
    if keys[|keys| - 1] == s {
      assert s !in init;
      SumAtOther(init, counts, s, counts[s] + 1);
    } else {
      assert s in init by {
        var i :| 0 <= i < |keys| && keys[i] == s;
        assert init[i] == s;
      }
      SumAtIncrement(init, counts, s);
    }
  }

  /** `counts` with key order `keys` is the status distribution of `prefix`. */
  ghost predicate Tracks(counts: map<string, nat>, keys: seq<string>, prefix: seq<Order>)
  {
    && keys == FirstAppearances(prefix, StatusOf)
    && Distinct(keys)
    && (forall v :: v in counts <==> v in keys)
    && (forall v :: v in counts ==> counts[v] == CountStatus(prefix, v) > 0)
    && (forall v :: v !in counts ==> CountStatus(prefix, v) == 0)
    && SumAt(keys, counts) == |prefix|
  }

  /** The loop step for a status already counted. */
  lemma TracksIncrement(counts: map<string, nat>, keys: seq<string>, prefix: seq<Order>, o: Order)
    requires Tracks(counts, keys, prefix) && o.status in counts
    ensures Tracks(counts[o.status := counts[o.status] + 1], keys, prefix + [o])
  {
    assert (prefix + [o])[..|prefix|] == prefix;
    SumAtIncrement(keys, counts, o.status);
  }

  /** The loop step for a status seen for the first time. */
  lemma TracksInsert(counts: map<string, nat>, keys: seq<string>, prefix: seq<Order>, o: Order)
    requires Tracks(counts, keys, prefix) && o.status !in counts
    ensures Tracks(counts[o.status := 1], keys + [o.status], prefix + [o])
  {
    assert (prefix + [o])[..|prefix|] == prefix;
    assert (keys + [o.status])[..|keys|] == keys;
    SumAtOther(keys, counts, o.status, 1);
  }

  /** The `status_counts` loop: one entry per status string that occurs, in
      order of first occurrence, holding its number of orders; the entries add
      up to the number of orders. */
  method StatusDistribution(orders: seq<Order>) returns (counts: map<string, nat>, keys: seq<string>)
    ensures keys == FirstAppearances(orders, StatusOf)
    ensures KeysInOrder(orders, StatusOf, keys)
    ensures Distinct(keys)
    ensures forall v :: v in counts <==> v in keys
    ensures forall v :: v in counts <==> CountStatus(orders, v) > 0
    ensures forall v :: v in counts ==> counts[v] == CountStatus(orders, v)
    ensures SumAt(keys, counts) == |orders|
  {
    counts := map[];
    keys := [];
    for i := 0 to |orders|
      invariant Tracks(counts, keys, orders[..i])
    {
      var status := orders[i].status;
      assert orders[..i + 1] == orders[..i] + [orders[i]];
      if status in counts {
        TracksIncrement(counts, keys, orders[..i], orders[i]);
        counts := counts[status := counts[status] + 1];
      } else {
        TracksInsert(counts, keys, orders[..i], orders[i]);
        counts := counts[status := 1];
        keys := keys + [status];
      }
    }
    assert orders[..|orders|] == orders;
    FirstAppearancesOrdered(orders, StatusOf);
  }

  // ---------------------------------------------------------------------
  // Analytics: orders per customer

  /** How many orders `username` placed, counted from the end as the loop grows. */
  function CountBy(orders: seq<Order>, username: string): nat
  {
    if orders == [] then 0
    else CountBy(orders[..|orders| - 1], username) + (if orders[|orders| - 1].username == username then 1 else 0)
  }

  /** The sum of `username`'s order amounts. */
  function SpentBy(orders: seq<Order>, username: string): int
  {
    if orders == [] then 0
    else SpentBy(orders[..|orders| - 1], username) + (if orders[|orders| - 1].username == username then orders[|orders| - 1].totalAmount else 0)
  }

  /** The count is the length of the customer's rows. */
  lemma {:induction false} CountByIsFilterLength(orders: seq<Order>, username: string)
    ensures CountBy(orders, username) == |Filter(orders, PlacedBy(username))|
    decreases |orders|
  {
    if orders != [] {
      var init := orders[..|orders| - 1];
      CountByIsFilterLength(init, username);
      assert orders == init + [orders[|orders| - 1]];
      FilterSnoc(init, orders[|orders| - 1], PlacedBy(username));
    }
  }

  datatype Tally = Tally(count: nat, total: int)

  /** `tallies` with key order `keys` holds the orders per customer of `prefix`. */
  ghost predicate Tallied(tallies: map<string, Tally>, keys: seq<string>, prefix: seq<Order>)
  {
    && keys == FirstAppearances(prefix, UsernameOf)
    && Distinct(keys)
    && (forall u :: u in tallies <==> u in keys)
    && (forall u :: u in tallies ==> tallies[u] == Tally(CountBy(prefix, u), SpentBy(prefix, u)) && tallies[u].count > 0)
    && (forall u :: u !in tallies ==> CountBy(prefix, u) == 0 && SpentBy(prefix, u) == 0)
  }

  /** The loop step: the order's customer gets one more order and its amount,
      entered as a new key when seen for the first time. */
  lemma TalliedStep(tallies: map<string, Tally>, keys: seq<string>, orders: seq<Order>, i: nat)
    requires i < |orders| && Tallied(tallies, keys, orders[..i])
    ensures var u := orders[i].username;
      var t := if u in tallies then tallies[u] else Tally(0, 0);
      var keys' := if u in tallies then keys else keys + [u];
      Tallied(tallies[u := Tally(t.count + 1, t.total + orders[i].totalAmount)], keys', orders[..i + 1])
  {
    assert orders[..i + 1][..i] == orders[..i];
  }

  /** The `customer_orders` loop: one entry per customer, in order of first
      appearance, with their number of orders and the sum of their amounts. */
  method CustomerOrders(orders: seq<Order>) returns (tallies: map<string, Tally>, keys: seq<string>)
    ensures keys == FirstAppearances(orders, UsernameOf)
    ensures KeysInOrder(orders, UsernameOf, keys)
    ensures Distinct(keys)
    ensures forall u :: u in tallies <==> u in keys
    ensures forall u :: u in tallies <==> CountBy(orders, u) > 0
    ensures forall u :: u in tallies ==> tallies[u] == Tally(CountBy(orders, u), SpentBy(orders, u))
  {
    tallies := map[];
    keys := [];
    for i := 0 to |orders|
      invariant Tallied(tallies, keys, orders[..i])
    {
      var customer := orders[i].username;
      TalliedStep(tallies, keys, orders, i);
      var t := Tally(0, 0);
      if customer in tallies {
        t := tallies[customer];
      } else {
        keys := keys + [customer];
      }
      tallies := tallies[customer := Tally(t.count + 1, t.total + orders[i].totalAmount)];
    }
    assert orders[..|orders|] == orders;
    FirstAppearancesOrdered(orders, UsernameOf);
  }

  /** One `(customer, {'count', 'total'})` item of the dictionary. */
  datatype CustomerStat = CustomerStat(username: string, count: nat, total: int)

  /** `customer_orders.items()`, in key order. */
  function Items(tallies: map<string, Tally>, keys: seq<string>): (r: seq<CustomerStat>)
    requires forall u :: u in keys ==> u in tallies
    ensures |r| == |keys|
    ensures forall i :: 0 <= i < |r| ==> r[i] == CustomerStat(keys[i], tallies[keys[i]].count, tallies[keys[i]].total)
  {
    seq(|keys|, i requires 0 <= i < |keys| => CustomerStat(keys[i], tallies[keys[i]].count, tallies[keys[i]].total))
  }

  predicate MoreOrdersFirst(a: CustomerStat, b: CustomerStat) { a.count >= b.count }

  /** The ten customers with the most orders: at most ten entries of `stats`,
      by non-increasing count, and no entry left out has more orders than an
      entry kept. */
  function TopCustomers(stats: seq<CustomerStat>): (r: seq<CustomerStat>)
    ensures |r| == if |stats| < 10 then |stats| else 10
    ensures forall i, j :: 0 <= i < j < |r| ==> r[i].count >= r[j].count
    ensures multiset(r) <= multiset(stats)
    ensures forall s :: s in stats && s !in r ==> forall t :: t in r ==> t.count >= s.count
  {
    var sorted := SortBy(stats, MoreOrdersFirst);
    assert |sorted| == |multiset(sorted)| == |multiset(stats)| == |stats|;
    var r := Take(sorted, 10);
    assert r == sorted[..|r|];
    PrefixOfSortedIsTop(stats, sorted, |r|);
    r
  }

  /** The "Top customers" chart: `sorted(customer_orders.items(), key=count,
      reverse=True)[:10]` after the `customer_orders` loop. At most ten
      distinct customers, each with their own order count and total, by
      non-increasing count, and no customer left out has more orders than one
      shown. */
  method TopCustomersChart(orders: seq<Order>) returns (top: seq<CustomerStat>)
    ensures var n := |FirstAppearances(orders, UsernameOf)|; |top| == if n < 10 then n else 10
    ensures forall t :: t in top ==>
              CountBy(orders, t.username) > 0 && t == CustomerStat(t.username, CountBy(orders, t.username), SpentBy(orders, t.username))
    ensures forall i, j :: 0 <= i < j < |top| ==> top[i].username != top[j].username
    ensures forall i, j :: 0 <= i < j < |top| ==> top[i].count >= top[j].count
    ensures forall u :: CountBy(orders, u) > 0 && (forall t :: t in top ==> t.username != u) ==>
              forall t :: t in top ==> t.count >= CountBy(orders, u)
  {
    var tallies, keys := CustomerOrders(orders);
    var stats := Items(tallies, keys);
    top := TopCustomers(stats);
    TopOfTallies(orders, tallies, keys);
  }

  /** The chart's properties, for the dictionary the loop builds. */
  lemma TopOfTallies(orders: seq<Order>, tallies: map<string, Tally>, keys: seq<string>)
    requires Distinct(keys)
    requires forall u :: u in tallies <==> u in keys
    requires forall u :: u in tallies <==> CountBy(orders, u) > 0
    requires forall u :: u in tallies ==> tallies[u] == Tally(CountBy(orders, u), SpentBy(orders, u))
    ensures var top := TopCustomers(Items(tallies, keys));
      && |top| == (if |keys| < 10 then |keys| else 10)
      && (forall t :: t in top ==>
            CountBy(orders, t.username) > 0 && t == CustomerStat(t.username, CountBy(orders, t.username), SpentBy(orders, t.username)))
      && (forall i, j :: 0 <= i < j < |top| ==> top[i].username != top[j].username)
      && (forall i, j :: 0 <= i < j < |top| ==> top[i].count >= top[j].count)
      && (forall u :: CountBy(orders, u) > 0 && (forall t :: t in top ==> t.username != u) ==>
            forall t :: t in top ==> t.count >= CountBy(orders, u))
  {
    var stats := Items(tallies, keys);
    ItemsAreStats(orders, tallies, keys);
    TopKeepsStats(orders, stats, TopCustomers(stats));
  }

  /** `stats` holds one entry per customer of `orders`, with that customer's
      count and total. */
  ghost predicate StatsOf(orders: seq<Order>, stats: seq<CustomerStat>)
  {
    && Distinct(stats)
    && (forall i, j :: 0 <= i < j < |stats| ==> stats[i].username != stats[j].username)
    && (forall s :: s in stats ==>
          CountBy(orders, s.username) > 0 && s == CustomerStat(s.username, CountBy(orders, s.username), SpentBy(orders, s.username)))
    && (forall u :: CountBy(orders, u) > 0 ==> exists k :: 0 <= k < |stats| && stats[k].username == u)
  }

  /** The items of the `customer_orders` dictionary are one entry per customer. */
  lemma ItemsAreStats(orders: seq<Order>, tallies: map<string, Tally>, keys: seq<string>)
    requires Distinct(keys)
    requires forall u :: u in tallies <==> u in keys
    requires forall u :: u in tallies <==> CountBy(orders, u) > 0
    requires forall u :: u in tallies ==> tallies[u] == Tally(CountBy(orders, u), SpentBy(orders, u))
    ensures StatsOf(orders, Items(tallies, keys))
    ensures |Items(tallies, keys)| == |keys|
  {
    var stats := Items(tallies, keys);
    forall i, j | 0 <= i < j < |stats| ensures stats[i].username != stats[j].username {
      assert stats[i].username == keys[i] && stats[j].username == keys[j];
    }
    forall s | s in stats
      ensures CountBy(orders, s.username) > 0 && s == CustomerStat(s.username, CountBy(orders, s.username), SpentBy(orders, s.username))
    {
      var k :| 0 <= k < |stats| && stats[k] == s;
      assert keys[k] in tallies;
    }
    forall u | CountBy(orders, u) > 0 ensures exists k :: 0 <= k < |stats| && stats[k].username == u {
      var k :| 0 <= k < |keys| && keys[k] == u;
      assert stats[k].username == u;
    }
  }

  /** Some entries of `stats`, rearranged, still belong to distinct customers
      with their own figures; "no entry left out beats one kept" then speaks
      of customers. */
  lemma TopKeepsStats(orders: seq<Order>, stats: seq<CustomerStat>, top: seq<CustomerStat>)
    requires StatsOf(orders, stats)
    requires multiset(top) <= multiset(stats)
    requires forall s :: s in stats && s !in top ==> forall t :: t in top ==> t.count >= s.count
    ensures forall t :: t in top ==>
              CountBy(orders, t.username) > 0 && t == CustomerStat(t.username, CountBy(orders, t.username), SpentBy(orders, t.username))
    ensures forall i, j :: 0 <= i < j < |top| ==> top[i].username != top[j].username
    ensures forall u :: CountBy(orders, u) > 0 && (forall t :: t in top ==> t.username != u) ==>
              forall t :: t in top ==> t.count >= CountBy(orders, u)
  {
    DistinctSubMultiset(top, stats);
    forall t | t in top ensures t in stats {
      assert t in multiset(top);
    }
    forall i, j | 0 <= i < j < |top| ensures top[i].username != top[j].username {
      assert top[i] in stats && top[j] in stats;
    }
    forall u | CountBy(orders, u) > 0 && (forall t :: t in top ==> t.username != u)
      ensures forall t :: t in top ==> t.count >= CountBy(orders, u)
    {
      var k :| 0 <= k < |stats| && stats[k].username == u;
      assert stats[k] in stats && stats[k] !in top;
    }
  }

  /** In a rearrangement of `stats` sorted by non-increasing count, a prefix is
      in that order, and no entry outside it has more orders than one inside. */
  lemma PrefixOfSortedIsTop(stats: seq<CustomerStat>, sorted: seq<CustomerStat>, n: nat)
    requires n <= |sorted|
    requires Sorted(sorted, MoreOrdersFirst) && multiset(sorted) == multiset(stats)
    ensures forall i, j :: 0 <= i < j < n ==> sorted[..n][i].count >= sorted[..n][j].count
    ensures multiset(sorted[..n]) <= multiset(stats)
    ensures forall s :: s in stats && s !in sorted[..n] ==> forall t :: t in sorted[..n] ==> t.count >= s.count
  {
    var top := sorted[..n];
    assert sorted == top + sorted[n..];
    assert multiset(sorted) == multiset(top) + multiset(sorted[n..]);
    forall i, j | 0 <= i < j < n ensures top[i].count >= top[j].count {
      assert MoreOrdersFirst(sorted[i], sorted[j]);
    }
    forall s, t | s in stats && s !in top && t in top
      ensures t.count >= s.count
    {
      assert s in multiset(stats);
      var k :| 0 <= k < |sorted| && sorted[k] == s;
      var j :| 0 <= j < n && top[j] == t;
      assert MoreOrdersFirst(sorted[j], sorted[k]);
    }
  }

  // ---------------------------------------------------------------------
  // Bulk actions: pending orders

  /** `pending_orders`, and the placed and paid lists taken from it. */
  function PendingOrders(orders: seq<Order>): (r: seq<Order>)
    ensures forall o :: o in r <==> o in orders && (o.status == "placed" || o.status == "paid")
    ensures forall o :: multiset(r)[o] == if o.status == "placed" || o.status == "paid" then multiset(orders)[o] else 0
    ensures IsSubsequence(r, orders)
  {
    FilterMultiset(orders, IsPending);
    Filter(orders, IsPending)
  }

  function PlacedOrders(orders: seq<Order>): (r: seq<Order>)
    ensures forall o :: o in r <==> o in orders && o.status == "placed"
    ensures forall o :: multiset(r)[o] == if o.status == "placed" then multiset(orders)[o] else 0
  {
    FilterMultiset(PendingOrders(orders), HasStatus("placed"));
    Filter(PendingOrders(orders), HasStatus("placed"))
  }

  function PaidOrders(orders: seq<Order>): (r: seq<Order>)
    ensures forall o :: o in r <==> o in orders && o.status == "paid"
    ensures forall o :: multiset(r)[o] == if o.status == "paid" then multiset(orders)[o] else 0
  {
    FilterMultiset(PendingOrders(orders), HasStatus("paid"));
    Filter(PendingOrders(orders), HasStatus("paid"))
  }

  /** The placed and the paid lists split the pending orders between them, and
      each is what filtering all orders by its status gives. */
  lemma PendingPartition(orders: seq<Order>)
    ensures |PlacedOrders(orders)| + |PaidOrders(orders)| == |PendingOrders(orders)|
    ensures PlacedOrders(orders) == Filter(orders, HasStatus("placed"))
    ensures PaidOrders(orders) == Filter(orders, HasStatus("paid"))
    ensures forall o :: o in PendingOrders(orders) <==> o in orders && (o.status == "placed" || o.status == "paid")
  {
    FilterOfFilter(orders, IsPending, HasStatus("placed"));
    FilterOfFilter(orders, IsPending, HasStatus("paid"));
    FilterPartition(orders, IsPending, HasStatus("placed"), HasStatus("paid"));
  }
}
