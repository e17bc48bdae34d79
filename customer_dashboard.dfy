/** The customer pages: the shop (search, category filter, sort, add to
    cart), "My Orders" (summary and the actions on a placed order) and the
    cart (totals, stock check and checkout). The store is not modelled:
    what its calls answer is given to each operation as a parameter, and
    checkout returns the sequence of store calls it makes. */
module CustomerDashboard {
  import opened Wrappers
  import opened Seqs
  import opened Sorting
  import opened Models
  import Utils

  // ---------------------------------------------------------------------
  // Shop: search

  /** `str.lower()` on the ASCII letters. */
  function LowerChar(c: char): char
  {
    if 'A' <= c <= 'Z' then (c as int + 32) as char else c
  }

  function Lower(s: string): (r: string)
    ensures |r| == |s|
    ensures forall i :: 0 <= i < |s| ==> r[i] == LowerChar(s[i])
  {
    seq(|s|, i requires 0 <= i < |s| => LowerChar(s[i]))
  }

  /** A lower-cased string has no upper-case letter left, and lowering it again changes nothing. */
  lemma LowerIsIdempotent(s: string)
    ensures forall i :: 0 <= i < |s| ==> !('A' <= Lower(s)[i] <= 'Z')
    ensures Lower(Lower(s)) == Lower(s)
  {
  }

  predicate OccursAt(needle: string, hay: string, i: int)
  {
    0 <= i && i + |needle| <= |hay| && hay[i..i + |needle|] == needle
  }

  /** Python's `needle in hay` on strings. */
  predicate Contains(hay: string, needle: string)
  {
    exists i :: 0 <= i <= |hay| && OccursAt(needle, hay, i)
  }

  /** The empty string occurs in every string; a longer one occurs in no shorter one. */
  lemma ContainsBounds(hay: string, needle: string)
    ensures Contains(hay, [])
    ensures Contains(hay, needle) ==> |needle| <= |hay|
  {
    assert OccursAt([], hay, 0);
  }

  /** The search test: the lower-cased term occurs in the lower-cased name or
      in the lower-cased description, a missing description counting as ''. */
  function MatchesSearch(term: string): Product -> bool
  {
    (p: Product) =>
      Contains(Lower(p.name), Lower(term)) || Contains(Lower(p.description.GetOr("")), Lower(term))
  }

  /** The search filter, skipped for an empty term. Skipping it changes
      nothing: an empty term matches every product. */
  function SearchFilter(products: seq<Product>, term: string): (r: seq<Product>)
    ensures r == Filter(products, MatchesSearch(term))
    ensures forall p :: p in r <==> p in products && MatchesSearch(term)(p)
    ensures term == [] ==> r == products
  {
    if term == [] then
      forall p: Product ensures MatchesSearch(term)(p) {
        ContainsBounds(Lower(p.name), Lower(term));
      }
      FilterAllOrNone(products, MatchesSearch(term));
      products
    else
      Filter(products, MatchesSearch(term))
  }

  // ---------------------------------------------------------------------
  // Shop: categories

  /** The categories offered: every non-empty category of the catalogue. */
  function Categories(products: seq<Product>): (r: set<string>)
    ensures "" !in r
    ensures forall p :: p in products && p.category.Some? && p.category.value != "" ==> p.category.value in r
  {
    set p | p in products && p.category.Some? && p.category.value != "" :: p.category.value
  }

  function InCategory(c: string): Product -> bool
  {
    (p: Product) => p.category == Some(c)
  }

  /** "All" keeps every product; any other choice keeps that category only. */
  function CategoryFilter(products: seq<Product>, selected: string): (r: seq<Product>)
    ensures selected == "All" ==> r == products
    ensures selected != "All" ==> forall p :: p in r <==> p in products && p.category == Some(selected)
    ensures IsSubsequence(r, products)
    ensures forall p :: multiset(r)[p] == if selected == "All" || p.category == Some(selected) then multiset(products)[p] else 0
  {
    if selected == "All" then
      SubsequenceReflexive(products);
      products
    else
      FilterMultiset(products, InCategory(selected));
      Filter(products, InCategory(selected))
  }

  /** Every category on offer other than "All" selects at least one product of the catalogue. */
  lemma OfferedCategoryIsInhabited(products: seq<Product>, c: string)
    requires c in Categories(products) && c != "All"
    ensures CategoryFilter(products, c) != []
  {
    var p :| p in products && p.category == Some(c);
    assert p in CategoryFilter(products, c);
  }

  // ---------------------------------------------------------------------
  // Shop: sorting

  datatype ShopSort = ByName | PriceLowToHigh | PriceHighToLow | ByStock

  /** `key=lambda x: x['name']` */
  predicate NameFirst(a: Product, b: Product) { LexLe(a.name, b.name) }

  /** `key=lambda x: x['price']` */
  predicate CheaperFirst(a: Product, b: Product) { a.price <= b.price }

  /** `key=lambda x: x['price'], reverse=True` */
  predicate DearerFirst(a: Product, b: Product) { a.price >= b.price }

  /** `key=lambda x: x['stock_quantity'], reverse=True` */
  predicate MoreStockFirst(a: Product, b: Product) { a.stockQuantity >= b.stockQuantity }

  lemma NameFirstIsPreorder()
    ensures TotalPreorder(NameFirst)
  {
    forall a: Product, b: Product ensures NameFirst(a, b) || NameFirst(b, a) {
      LexLeTotal(a.name, b.name);
    }
    forall a: Product, b: Product, c: Product | NameFirst(a, b) && NameFirst(b, c)
      ensures NameFirst(a, c)
    {
      LexLeTransitive(a.name, b.name, c.name);
    }
  }

  function ShopComparator(order: ShopSort): (Product, Product) -> bool
  {
    match order
    case ByName => NameFirst
    case PriceLowToHigh => CheaperFirst
    case PriceHighToLow => DearerFirst
    case ByStock => MoreStockFirst
  }

  /** The shop's sort: a rearrangement of the rows, ordered by the chosen key. */
  function SortProducts(products: seq<Product>, order: ShopSort): (r: seq<Product>)
    ensures multiset(r) == multiset(products)
    ensures Sorted(r, ShopComparator(order))
    ensures order == ByName ==> forall i, j :: 0 <= i < j < |r| ==> LexLe(r[i].name, r[j].name)
    ensures order == PriceLowToHigh ==> forall i, j :: 0 <= i < j < |r| ==> r[i].price <= r[j].price
    ensures order == PriceHighToLow ==> forall i, j :: 0 <= i < j < |r| ==> r[i].price >= r[j].price
    ensures order == ByStock ==> forall i, j :: 0 <= i < j < |r| ==> r[i].stockQuantity >= r[j].stockQuantity
  {
    NameFirstIsPreorder();
    var le := ShopComparator(order);
    var r := SortBy(products, le);
    assert Sorted(r, le);
    r
  }

  /** The rows the shop shows: the catalogue rows that match the search and
      the category, each as often as the catalogue holds it, ordered by the
      chosen key. */
  function ShopView(products: seq<Product>, term: string, category: string, order: ShopSort): (r: seq<Product>)
    ensures forall p :: p in r <==> p in products && MatchesSearch(term)(p) && (category == "All" || p.category == Some(category))
    ensures multiset(r) == multiset(CategoryFilter(SearchFilter(products, term), category))
    ensures forall p :: multiset(r)[p] ==
              (if MatchesSearch(term)(p) && (category == "All" || p.category == Some(category)) then multiset(products)[p] else 0)
    ensures Sorted(r, ShopComparator(order))
    ensures |r| <= |products|
  {
    var chosen := CategoryFilter(SearchFilter(products, term), category);
    ShopRows(products, term, category);
    var r := SortProducts(chosen, order);
    forall p ensures p in r <==> p in products && MatchesSearch(term)(p) && (category == "All" || p.category == Some(category)) {
      assert p in r <==> p in multiset(r);
      assert p in products <==> p in multiset(products);
    }
    r
  }

  /** The rows both filters keep, counted with multiplicity, and no more rows
      than the catalogue has. */
  lemma ShopRows(products: seq<Product>, term: string, category: string)
    ensures var chosen := CategoryFilter(SearchFilter(products, term), category);
      && (forall p :: multiset(chosen)[p] ==
            (if MatchesSearch(term)(p) && (category == "All" || p.category == Some(category)) then multiset(products)[p] else 0))
      && |chosen| <= |products|
  {
    FilterMultiset(products, MatchesSearch(term));
  }

  // ---------------------------------------------------------------------
  // Shop: add to cart

  /** The quantity widget's upper bound. */
  function QuantityMax(stock: int): (q: int)
    ensures q >= 1
    ensures AddToCartOffered(stock) ==> q == stock
  {
    if stock > 0 then stock else 1
  }

  /** The "Add to Cart" button is shown only for a product in stock. */
  predicate AddToCartOffered(stock: int)
  {
    stock > 0
  }

  /** When the button is shown, the widget only lets through a quantity the
      stock covers; when it is not, the widget still shows 1. */
  lemma AddToCartWithinStock(stock: int, quantity: int)
    requires 1 <= quantity <= QuantityMax(stock)
    ensures AddToCartOffered(stock) ==> quantity <= stock
    ensures !AddToCartOffered(stock) ==> quantity == 1
  {
  }

  // ---------------------------------------------------------------------
  // My orders

  datatype OrdersSummary = OrdersSummary(totalOrders: nat, deliveredOrders: nat, totalSpent: int)

  /** The three figures above the customer's order list. */
  function MyOrdersSummary(orders: seq<Order>): (s: OrdersSummary)
    ensures s.totalOrders == |orders|
    ensures s.deliveredOrders == |Filter(orders, HasStatus("delivered"))| <= |orders|
    ensures s.totalSpent == Utils.CalculateOrderMetrics(orders).totalRevenue
  {
    var delivered := Filter(orders, HasStatus("delivered"));
    OrdersSummary(|orders|, |delivered|, Sum(delivered, TotalAmount))
  }

  /** The summary counts each status once per delivered order, as the status counter does. */
  lemma DeliveredCountAgrees(orders: seq<Order>)
    ensures MyOrdersSummary(orders).deliveredOrders == CountStatus(orders, "delivered")
    ensures (forall i :: 0 <= i < |orders| ==> orders[i].totalAmount >= 0) ==> MyOrdersSummary(orders).totalSpent >= 0
  {
    CountStatusIsFilterLength(orders, "delivered");
    var delivered := Filter(orders, HasStatus("delivered"));
    if forall i :: 0 <= i < |orders| ==> orders[i].totalAmount >= 0 {
      forall i | 0 <= i < |delivered| ensures TotalAmount(delivered[i]) >= 0 {
        assert delivered[i] in orders;
      }
      SumNonNegative(delivered, TotalAmount);
    }
  }

  /** The buttons on one of the customer's orders: payment and cancellation, on a placed order only. */
  function CustomerActions(status: string): (r: set<OrderAction>)
    ensures r != {} <==> status == "placed"
    ensures MarkDelivered !in r
  {
    if status == "placed" then {MarkPaid, CancelOrder} else {}
  }

  // ---------------------------------------------------------------------
  // Cart: totals

  function LineSubtotal(item: CartItem): int { item.quantity * item.price }

  function LineQuantity(item: CartItem): int { item.quantity }

  /** `total_amount` and `total_items` of the cart summary. */
  function CartTotalAmount(cart: seq<CartItem>): int { Sum(cart, LineSubtotal) }

  function CartTotalItems(cart: seq<CartItem>): int { Sum(cart, LineQuantity) }

  /** Both totals add up line by line. */
  lemma CartTotalsAppend(a: seq<CartItem>, b: seq<CartItem>)
    ensures CartTotalAmount(a + b) == CartTotalAmount(a) + CartTotalAmount(b)
    ensures CartTotalItems(a + b) == CartTotalItems(a) + CartTotalItems(b)
  {
    SumAppend(a, b, LineSubtotal);
    SumAppend(a, b, LineQuantity);
  }

  /** With at least one unit per line and no negative price, the cart holds at
      least as many items as lines and its amount is not negative. */
  lemma {:induction false} CartTotalsBounds(cart: seq<CartItem>)
    requires forall i :: 0 <= i < |cart| ==> cart[i].quantity >= 1 && cart[i].price >= 0
    ensures CartTotalItems(cart) >= |cart|
    ensures CartTotalAmount(cart) >= 0
    decreases |cart|
  {
    if cart != [] {
      CartTotalsBounds(cart[1..]);
      assert LineSubtotal(cart[0]) >= 0;
    }
  }

  // ---------------------------------------------------------------------
  // Cart: stock check

  /** A line asking for more than the product's stock. */
  predicate Overdrawn(item: CartItem)
  {
    item.quantity > item.stockQuantity
  }

  /** One "Want q, Only s available" message, as its three parts. */
  datatype StockIssue = StockIssue(name: string, wanted: int, available: int)

  function IssueOf(item: CartItem): StockIssue
  {
    StockIssue(item.name, item.quantity, item.stockQuantity)
  }

  function IssuesOf(lines: seq<CartItem>): (r: seq<StockIssue>)
    ensures |r| == |lines|
  {
    seq(|lines|, i requires 0 <= i < |lines| => IssueOf(lines[i]))
  }

  lemma IssuesOfSnoc(lines: seq<CartItem>, item: CartItem)
    ensures IssuesOf(lines + [item]) == IssuesOf(lines) + [IssueOf(item)]
  {
  }

  /** There is no issue exactly when every line fits its stock. */
  lemma NoIssuesIffAllFit(cart: seq<CartItem>)
    ensures IssuesOf(Filter(cart, Overdrawn)) == [] <==>
      forall i :: 0 <= i < |cart| ==> cart[i].quantity <= cart[i].stockQuantity
  {
    var over := Filter(cart, Overdrawn);
    if over != [] {
      assert over[0] in cart;
    }
    forall i | 0 <= i < |cart| && cart[i].quantity > cart[i].stockQuantity ensures over != [] {
      assert cart[i] in over;
    }
  }

  /** The `stock_issues` loop: one message per overdrawn line, in cart order.
      Checkout is offered exactly when there is none. */
  method StockIssues(cart: seq<CartItem>) returns (issues: seq<StockIssue>)
    ensures issues == IssuesOf(Filter(cart, Overdrawn))
    ensures issues == [] <==> forall i :: 0 <= i < |cart| ==> cart[i].quantity <= cart[i].stockQuantity
    ensures |issues| <= |cart|
  {
    issues := [];
    for i := 0 to |cart|
      invariant issues == IssuesOf(Filter(cart[..i], Overdrawn))
    {
      assert cart[..i + 1] == cart[..i] + [cart[i]];
      FilterSnoc(cart[..i], cart[i], Overdrawn);
      if cart[i].quantity > cart[i].stockQuantity {
        IssuesOfSnoc(Filter(cart[..i], Overdrawn), cart[i]);
        issues := issues + [IssueOf(cart[i])];
      }
    }
    assert cart[..|cart|] == cart;
    NoIssuesIffAllFit(cart);
  }

  // ---------------------------------------------------------------------
  // Cart: checkout

  /** A call the checkout makes on the store, with its arguments. */
  datatype StoreCall =
    | Reserve(productId: int, username: string, quantity: int)
    | CreateOrder(username: string, items: seq<CartItem>)
    | Release(productId: int, username: string, quantity: int)

  datatype CheckoutOutcome = OrderPlaced(orderId: int) | OrderCreationFailed | ReservationFailed

  function ReserveCalls(username: string, lines: seq<CartItem>): (r: seq<StoreCall>)
    ensures |r| == |lines|
  {
    seq(|lines|, i requires 0 <= i < |lines| => Reserve(lines[i].productId, username, lines[i].quantity))
  }

  function ReleaseCalls(username: string, lines: seq<CartItem>): (r: seq<StoreCall>)
    ensures |r| == |lines|
  {
    seq(|lines|, i requires 0 <= i < |lines| => Release(lines[i].productId, username, lines[i].quantity))
  }

  predicate IsRelease(c: StoreCall) { c.Release? }

  predicate IsReserve(c: StoreCall) { c.Reserve? }

  /** The releases among the calls, in order. */
  function Releases(calls: seq<StoreCall>): seq<StoreCall>
  {
    Filter(calls, IsRelease)
  }

  /** `if order_id:` -- no id and id 0 both count as failure. */
  predicate Truthy(id: Option<int>)
  {
    id.Some? && id.value != 0
  }

  /** How many reservations the store grants before its first refusal. */
  function FirstRefusal(answers: seq<bool>): (k: nat)
    ensures k <= |answers|
    ensures forall i :: 0 <= i < k ==> answers[i]
    ensures k < |answers| ==> !answers[k]
  {
    if answers == [] || !answers[0] then 0 else 1 + FirstRefusal(answers[1..])
  }

  /** How many reservations are asked for: up to and including the first refused one. */
  function Attempted(answers: seq<bool>): nat
  {
    var k := FirstRefusal(answers);
    if k < |answers| then k + 1 else k
  }

  /** The reservation loop: reserves the lines in cart order and stops at the
      first refusal. `answers[i]` is what the store answers to the reservation
      of line `i`, should it be asked. */
  method ReserveInOrder(username: string, cart: seq<CartItem>, answers: seq<bool>)
    returns (canReserve: bool, calls: seq<StoreCall>)
    requires |answers| == |cart|
    ensures canReserve <==> FirstRefusal(answers) == |cart|
    ensures calls == ReserveCalls(username, cart[..Attempted(answers)])
  {
    canReserve := true;
    calls := [];
    var i := 0;
    while i < |cart|
      invariant 0 <= i <= |cart|
      invariant forall j :: 0 <= j < i ==> answers[j]
      invariant calls == ReserveCalls(username, cart[..i])
    {
      calls := calls + [Reserve(cart[i].productId, username, cart[i].quantity)];
      assert calls == ReserveCalls(username, cart[..i + 1]);
      if !answers[i] {
        canReserve := false;
        break;
      }
      i := i + 1;
    }
  }

  /** What "Place Order" does, as the page is written: the outcome and the
      store calls, in order. */
  function CheckoutAsWritten(username: string, cart: seq<CartItem>, answers: seq<bool>, created: Option<int>)
    : (CheckoutOutcome, seq<StoreCall>)
    requires |answers| == |cart|
  {
    var reserves := ReserveCalls(username, cart[..Attempted(answers)]);
    if FirstRefusal(answers) < |cart| then (ReservationFailed, reserves)
    else if Truthy(created) then (OrderPlaced(created.value), reserves + [CreateOrder(username, cart)])
    else (OrderCreationFailed, reserves + [CreateOrder(username, cart)] + ReleaseCalls(username, cart))
  }

  /** The "Place Order" button. `created` is what `create_order` returns, should it be called. */
  method PlaceOrder(username: string, cart: seq<CartItem>, answers: seq<bool>, created: Option<int>)
    returns (outcome: CheckoutOutcome, calls: seq<StoreCall>)
    requires |answers| == |cart|
    ensures (outcome, calls) == CheckoutAsWritten(username, cart, answers, created)
  {
    var canReserve;
    canReserve, calls := ReserveInOrder(username, cart, answers);
    if canReserve {
      assert cart[..|cart|] == cart;
      var after;
      outcome, after := CreateOrReleaseAll(username, cart, created);
      assert !Truthy(created) ==> calls + after == calls + [CreateOrder(username, cart)] + ReleaseCalls(username, cart);
      calls := calls + after;
    } else {
      outcome := ReservationFailed;
    }
  }

  /** Once every line is reserved: `create_order`, and when it returns no id,
      the release loop over the whole cart. */
  method CreateOrReleaseAll(username: string, cart: seq<CartItem>, created: Option<int>)
    returns (outcome: CheckoutOutcome, calls: seq<StoreCall>)
    ensures Truthy(created) ==> outcome == OrderPlaced(created.value) && calls == [CreateOrder(username, cart)]
    ensures !Truthy(created) ==> outcome == OrderCreationFailed && calls == [CreateOrder(username, cart)] + ReleaseCalls(username, cart)
  {
    calls := [CreateOrder(username, cart)];
    if Truthy(created) {
      outcome := OrderPlaced(created.value);
    } else {
      var releases := ReleaseAll(username, cart);
      calls := calls + releases;
      outcome := OrderCreationFailed;
    }
  }

  /** `for item in lines: db.release_reservation(...)` */
  method ReleaseAll(username: string, lines: seq<CartItem>) returns (calls: seq<StoreCall>)
    ensures calls == ReleaseCalls(username, lines)
  {
    calls := [];
    for j := 0 to |lines|
      invariant calls == ReleaseCalls(username, lines[..j])
    {
      calls := calls + [Release(lines[j].productId, username, lines[j].quantity)];
      assert ReleaseCalls(username, lines[..j + 1]) == ReleaseCalls(username, lines[..j]) + [Release(lines[j].productId, username, lines[j].quantity)];
    }
    assert lines[..|lines|] == lines;
  }

  /** The releases of a trace made of reservations, an optional order creation and releases. */
  lemma ReleasesOfTrace(username: string, reserved: seq<CartItem>, middle: seq<StoreCall>, released: seq<CartItem>)
    requires forall i :: 0 <= i < |middle| ==> !middle[i].Release?
    ensures Releases(ReserveCalls(username, reserved) + middle) == []
    ensures Releases(ReserveCalls(username, reserved) + middle + ReleaseCalls(username, released)) == ReleaseCalls(username, released)
  {
    var a := ReserveCalls(username, reserved);
    var b := ReleaseCalls(username, released);
    FilterAllOrNone(a, IsRelease);
    FilterAllOrNone(middle, IsRelease);
    FilterAllOrNone(b, IsRelease);
    FilterAppend(a, middle, IsRelease);
    FilterAppend(a + middle, b, IsRelease);
  }

  /** The order is created exactly when every line was reserved, and placed
      exactly when, besides, the store returned an id. */
  lemma CheckoutCreatesOnlyAfterAllReserved(username: string, cart: seq<CartItem>, answers: seq<bool>, created: Option<int>)
    requires |answers| == |cart|
    ensures var (outcome, calls) := CheckoutAsWritten(username, cart, answers, created);
      && (CreateOrder(username, cart) in calls <==> forall i :: 0 <= i < |cart| ==> answers[i])
      && (outcome.OrderPlaced? <==> (forall i :: 0 <= i < |cart| ==> answers[i]) && Truthy(created))
  {
    var (outcome, calls) := CheckoutAsWritten(username, cart, answers, created);
    var reserves := ReserveCalls(username, cart[..Attempted(answers)]);
    assert CreateOrder(username, cart) !in reserves;
    if FirstRefusal(answers) < |cart| {
      assert !answers[FirstRefusal(answers)];
    }
  }

  /** The lines are reserved in cart order, up to and including the first
      refused one and none after it. */
  lemma CheckoutReservesInCartOrder(username: string, cart: seq<CartItem>, answers: seq<bool>, created: Option<int>)
    requires |answers| == |cart|
    ensures var (outcome, calls) := CheckoutAsWritten(username, cart, answers, created);
      Filter(calls, IsReserve) == ReserveCalls(username, cart[..Attempted(answers)])
  {
    var granted := cart[..Attempted(answers)];
    if FirstRefusal(answers) < |cart| {
      ReservesOfTrace(username, granted, []);
      assert ReserveCalls(username, granted) + [] == ReserveCalls(username, granted);
    } else if Truthy(created) {
      ReservesOfTrace(username, granted, [CreateOrder(username, cart)]);
    } else {
      var tail := [CreateOrder(username, cart)] + ReleaseCalls(username, cart);
      ReservesOfTrace(username, granted, tail);
      assert ReserveCalls(username, granted) + tail
          == ReserveCalls(username, granted) + [CreateOrder(username, cart)] + ReleaseCalls(username, cart);
    }
  }

  /** The reservations of a trace made of reservations followed by other calls. */
  lemma ReservesOfTrace(username: string, reserved: seq<CartItem>, tail: seq<StoreCall>)
    requires forall i :: 0 <= i < |tail| ==> !tail[i].Reserve?
    ensures Filter(ReserveCalls(username, reserved) + tail, IsReserve) == ReserveCalls(username, reserved)
  {
    var a := ReserveCalls(username, reserved);
    FilterAllOrNone(a, IsReserve);
    FilterAllOrNone(tail, IsReserve);
    FilterAppend(a, tail, IsReserve);
    assert a + [] == a;
  }

  /** When the order cannot be created, every line is released exactly once, in
      cart order; on any other outcome nothing is released. */
  lemma CheckoutReleasesOnCreationFailure(username: string, cart: seq<CartItem>, answers: seq<bool>, created: Option<int>)
    requires |answers| == |cart|
    ensures var (outcome, calls) := CheckoutAsWritten(username, cart, answers, created);
      Releases(calls) == if outcome == OrderCreationFailed then ReleaseCalls(username, cart) else []
  {
    var granted := cart[..Attempted(answers)];
    if FirstRefusal(answers) < |cart| {
      ReleasesOfTrace(username, granted, [], []);
      assert ReserveCalls(username, granted) + [] == ReserveCalls(username, granted);
    } else {
      ReleasesOfTrace(username, granted, [CreateOrder(username, cart)], cart);
    }
  }

  /** Every hold the store granted is given back, unless the order was placed. */
  predicate HoldsBalanced(username: string, cart: seq<CartItem>, answers: seq<bool>,
                          outcome: CheckoutOutcome, calls: seq<StoreCall>)
    requires |answers| == |cart|
  {
    outcome.OrderPlaced? || Releases(calls) == ReleaseCalls(username, cart[..FirstRefusal(answers)])
  }

  /** As written, a checkout whose first reservations succeed and a later one
      fails keeps the earlier holds: it releases nothing. That is the only
      case that leaves holds behind. */
  lemma CheckoutAsWrittenStrandsHolds(username: string, cart: seq<CartItem>, answers: seq<bool>, created: Option<int>)
    requires |answers| == |cart|
    ensures var (outcome, calls) := CheckoutAsWritten(username, cart, answers, created);
      HoldsBalanced(username, cart, answers, outcome, calls) <==> !(0 < FirstRefusal(answers) < |cart|)
  {
    var (outcome, calls) := CheckoutAsWritten(username, cart, answers, created);
    CheckoutReleasesOnCreationFailure(username, cart, answers, created);
    assert cart[..|cart|] == cart;
    if 0 < FirstRefusal(answers) < |cart| {
      assert |ReleaseCalls(username, cart[..FirstRefusal(answers)])| > 0;
    }
  }

  /** The smallest instance: two lines, the second refused. */
  lemma StrandedHoldExample(line1: CartItem, line2: CartItem, created: Option<int>)
    ensures var (outcome, calls) := CheckoutAsWritten("alice", [line1, line2], [true, false], created);
      && outcome == ReservationFailed
      && Releases(calls) == []
      && !HoldsBalanced("alice", [line1, line2], [true, false], outcome, calls)
  {
    CheckoutAsWrittenStrandsHolds("alice", [line1, line2], [true, false], created);
    CheckoutReleasesOnCreationFailure("alice", [line1, line2], [true, false], created);
  }

  /** Checkout with the rollback the failure path needs: a refused reservation
      releases, in cart order, the holds granted before it. */
  function CheckoutWithRollback(username: string, cart: seq<CartItem>, answers: seq<bool>, created: Option<int>)
    : (CheckoutOutcome, seq<StoreCall>)
    requires |answers| == |cart|
  {
    var k := FirstRefusal(answers);
    if k < |cart| then (ReservationFailed, ReserveCalls(username, cart[..k + 1]) + ReleaseCalls(username, cart[..k]))
    else CheckoutAsWritten(username, cart, answers, created)
  }

  method PlaceOrderWithRollback(username: string, cart: seq<CartItem>, answers: seq<bool>, created: Option<int>)
    returns (outcome: CheckoutOutcome, calls: seq<StoreCall>)
    requires |answers| == |cart|
    ensures (outcome, calls) == CheckoutWithRollback(username, cart, answers, created)
  {
    var canReserve;
    canReserve, calls := ReserveInOrder(username, cart, answers);
    var after;
    if canReserve {
      assert cart[..|cart|] == cart;
      outcome, after := CreateOrReleaseAll(username, cart, created);
      assert !Truthy(created) ==> calls + after == calls + [CreateOrder(username, cart)] + ReleaseCalls(username, cart);
    } else {
      after := ReleaseAll(username, cart[..FirstRefusal(answers)]);
      outcome := ReservationFailed;
    }
    calls := calls + after;
  }

  /** With the rollback, no outcome but a placed order leaves a hold behind, and
      a placed order releases nothing. */
  lemma RollbackBalancesHolds(username: string, cart: seq<CartItem>, answers: seq<bool>, created: Option<int>)
    requires |answers| == |cart|
    ensures var (outcome, calls) := CheckoutWithRollback(username, cart, answers, created);
      && HoldsBalanced(username, cart, answers, outcome, calls)
      && (outcome.OrderPlaced? ==> Releases(calls) == [])
  {
    var k := FirstRefusal(answers);
    CheckoutReleasesOnCreationFailure(username, cart, answers, created);
    assert cart[..|cart|] == cart;
    if k < |cart| {
      ReleasesOfTrace(username, cart[..k + 1], [], cart[..k]);
      assert ReserveCalls(username, cart[..k + 1]) + [] == ReserveCalls(username, cart[..k + 1]);
    }
  }
}
