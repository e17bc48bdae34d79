/** The order life cycle as the pages enforce it. The store does not check
    transitions: a transition exists only because some page offers a button
    for it. A role may move an order from status `s` to `t` when one of the
    buttons its pages show on an `s` order leads to `t`. */
module Lifecycle {
  import opened Wrappers
  import opened Models
  import OrderManagement
  import StaffDashboard
  import CustomerDashboard

  /** The status an order has once a button's call succeeds. */
  function Target(a: OrderAction): OrderStatus
  {
    match a
    case MarkPaid => Paid
    case MarkDelivered => Delivered
    case CancelOrder => Cancelled
  }

  /** The buttons a role's pages show on an order whose status string is `status`. */
  function Offered(role: UserRole, status: string): set<OrderAction>
  {
    match role
    case Admin => OrderManagement.AdminActions(status)
    case Staff => StaffDashboard.StaffActions(status)
    case Customer => CustomerDashboard.CustomerActions(status)
  }

  predicate Step(role: UserRole, s: OrderStatus, t: OrderStatus)
  {
    exists a :: a in Offered(role, StatusValue(s)) && Target(a) == t
  }

  /** The administrator's moves are exactly placed to paid, paid to delivered,
      and placed or paid to cancelled. */
  lemma AdminTransitions(s: OrderStatus, t: OrderStatus)
    ensures Step(Admin, s, t) <==>
      (s, t) in {(Placed, Paid), (Paid, Delivered), (Placed, Cancelled), (Paid, Cancelled)}
  {
    var offered := Offered(Admin, StatusValue(s));
    if (s, t) == (Placed, Paid) {
      assert MarkPaid in offered;
    } else if (s, t) == (Paid, Delivered) {
      assert MarkDelivered in offered;
    } else if (s, t) in {(Placed, Cancelled), (Paid, Cancelled)} {
      assert CancelOrder in offered;
    }
  }

  /** Delivered and cancelled orders are final: no role has a move out of them. */
  lemma TerminalStatuses(role: UserRole, t: OrderStatus)
    ensures !Step(role, Delivered, t)
    ensures !Step(role, Cancelled, t)
  {
  }

  /** Staff can do what an administrator can except cancel, so their moves are
      a strict subset of the administrator's. */
  lemma StaffWithinAdmin(s: OrderStatus, t: OrderStatus)
    ensures Step(Staff, s, t) ==> Step(Admin, s, t)
    ensures Step(Staff, s, t) <==> (s, t) in {(Placed, Paid), (Paid, Delivered)}
    ensures Step(Admin, Placed, Cancelled) && !Step(Staff, Placed, Cancelled)
  {
    AdminTransitions(s, t);
    AdminTransitions(Placed, Cancelled);
    var offered := Offered(Staff, StatusValue(s));
    if (s, t) == (Placed, Paid) {
      assert MarkPaid in offered;
    } else if (s, t) == (Paid, Delivered) {
      assert MarkDelivered in offered;
    }
  }

  /** A customer can pay for or cancel a placed order, and nothing else. */
  lemma CustomerWithinAdmin(s: OrderStatus, t: OrderStatus)
    ensures Step(Customer, s, t) <==> (s, t) in {(Placed, Paid), (Placed, Cancelled)}
    ensures Step(Customer, s, t) ==> Step(Admin, s, t)
  {
    AdminTransitions(s, t);
    var offered := Offered(Customer, StatusValue(s));
    if (s, t) == (Placed, Paid) {
      assert MarkPaid in offered;
    } else if (s, t) == (Placed, Cancelled) {
      assert CancelOrder in offered;
    }
  }

  /** A status string that is no status value, such as the capitalised
      spellings of the orders table, gets no button from any role. */
  lemma UnknownStatusIsStuck(role: UserRole, v: string)
    requires ParseStatus(v) == None
    ensures Offered(role, v) == {}
  {
  }

  /** How far along the life cycle a status is. */
  function Rank(s: OrderStatus): nat
  {
    match s
    case Placed => 0
    case Paid => 1
    case Delivered => 2
    case Cancelled => 3
  }

  /** Every move goes forward, so no order ever returns to an earlier status. */
  lemma StepGoesForward(role: UserRole, s: OrderStatus, t: OrderStatus)
    requires Step(role, s, t)
    ensures Rank(s) < Rank(t)
  {
  }

  /** A run of successive moves by one role. */
  predicate Run(role: UserRole, run: seq<OrderStatus>)
  {
    forall i :: 0 <= i < |run| - 1 ==> Step(role, run[i], run[i + 1])
  }

  /** Along a run the first status is behind the last by at least the number of moves. */
  lemma {:induction false} RunRank(role: UserRole, run: seq<OrderStatus>)
    requires run != [] && Run(role, run)
    ensures Rank(run[0]) + |run| - 1 <= Rank(run[|run| - 1])
    decreases |run|
  {
    if |run| > 1 {
      RunRank(role, run[1..]);
      StepGoesForward(role, run[0], run[1]);
    }
  }

  /** So a run takes at most two moves, since a delivered order cannot be
      cancelled, and an order that reaches "delivered" from "placed" has been
      "paid" on the way. */
  lemma DeliveryPassesThroughPayment(role: UserRole, run: seq<OrderStatus>)
    requires run != [] && Run(role, run)
    ensures |run| <= 3
    ensures run[0] == Placed && run[|run| - 1] == Delivered ==> Paid in run
  {
    RunRank(role, run);
    if |run| > 3 {
      RunRank(role, run[..3]);
      RunRank(role, run[2..]);
      assert run[2] == Delivered;
      assert Step(role, run[2], run[3]);
      TerminalStatuses(role, run[3]);
    }
    if |run| > 1 && run[0] == Placed {
      assert Step(role, run[0], run[1]);
      if run[1] != Paid {
        assert Rank(run[1]) == 3;
        RunRank(role, run[1..]);
      }
    }
  }
}
