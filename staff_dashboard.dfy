/** The staff dashboard: the quick figures (orders to process, awaiting
    payment, ready to ship, low stock), the "all caught up" notice, the
    recent orders and the staff buttons on an order. */
module StaffDashboard {
  import opened Seqs
  import opened Models
  import Utils
  import OrderManagement

  datatype QuickStats = QuickStats(pending: seq<Order>, placed: seq<Order>, paid: seq<Order>, lowStock: seq<Product>)

  /** The four lists behind the quick figures, each taken from all orders or all products. */
  function StaffQuickStats(orders: seq<Order>, products: seq<Product>): (q: QuickStats)
    ensures forall o :: o in q.pending <==> o in orders && (o.status == "placed" || o.status == "paid")
    ensures forall o :: o in q.placed <==> o in orders && o.status == "placed"
    ensures forall o :: o in q.paid <==> o in orders && o.status == "paid"
    ensures forall p :: p in q.lowStock <==> p in products && p.stockQuantity < 10
    ensures q.lowStock == Utils.CheckLowStock(products, 10)
  {
    QuickStats(
      Filter(orders, IsPending),
      Filter(orders, HasStatus("placed")),
      Filter(orders, HasStatus("paid")),
      Filter(products, Utils.BelowThreshold(10)))
  }

  /** "Orders to Process" is "Awaiting Payment" plus "Ready to Ship", and the
      three lists agree with those of the bulk-action tab. */
  lemma PendingIsPlacedPlusPaid(orders: seq<Order>, products: seq<Product>)
    ensures var q := StaffQuickStats(orders, products);
      && |q.pending| == |q.placed| + |q.paid|
      && q.pending == OrderManagement.PendingOrders(orders)
      && q.placed == OrderManagement.PlacedOrders(orders)
      && q.paid == OrderManagement.PaidOrders(orders)
  {
    FilterPartition(orders, IsPending, HasStatus("placed"), HasStatus("paid"));
    OrderManagement.PendingPartition(orders);
  }

  /** The "All caught up!" notice. */
  function AllCaughtUp(q: QuickStats): bool
  {
    q.placed == [] && q.paid == [] && q.lowStock == []
  }

  /** The notice is shown exactly when no order awaits payment or delivery and
      no product is below ten units. */
  lemma AllCaughtUpMeans(orders: seq<Order>, products: seq<Product>)
    ensures AllCaughtUp(StaffQuickStats(orders, products)) <==>
      && (forall i :: 0 <= i < |orders| ==> orders[i].status != "placed" && orders[i].status != "paid")
      && (forall i :: 0 <= i < |products| ==> products[i].stockQuantity >= 10)
  {
    var q := StaffQuickStats(orders, products);
    if q.placed != [] { assert q.placed[0] in q.placed; }
    if q.paid != [] { assert q.paid[0] in q.paid; }
    if q.lowStock != [] { assert q.lowStock[0] in q.lowStock; }
    if exists i :: 0 <= i < |orders| && orders[i].status == "placed" {
      var i :| 0 <= i < |orders| && orders[i].status == "placed";
      assert orders[i] in q.placed;
    }
    if exists i :: 0 <= i < |orders| && orders[i].status == "paid" {
      var i :| 0 <= i < |orders| && orders[i].status == "paid";
      assert orders[i] in q.paid;
    }
    if exists i :: 0 <= i < |products| && products[i].stockQuantity < 10 {
      var i :| 0 <= i < |products| && products[i].stockQuantity < 10;
      assert products[i] in q.lowStock;
    }
  }

  /** The recent activity list: the first fifteen orders, in the store's order. */
  function RecentOrders(orders: seq<Order>): (r: seq<Order>)
    ensures |r| == if |orders| < 15 then |orders| else 15
    ensures r == orders[..|r|]
  {
    Take(orders, 15)
  }

  /** The staff buttons on an order: payment on a placed one, delivery on a
      paid one, nothing else and never cancellation. */
  function StaffActions(status: string): (r: set<OrderAction>)
    ensures MarkPaid in r <==> status == "placed"
    ensures MarkDelivered in r <==> status == "paid"
    ensures CancelOrder !in r
    ensures |r| <= 1
  {
    if status == "placed" then {MarkPaid}
    else if status == "paid" then {MarkDelivered}
    else {}
  }
}
