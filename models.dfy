/** The records and enumerations of the platform: user roles, order statuses,
    and the product, order and cart rows the pages work on. Money is held in
    integer cents. */
module Models {
  import opened Wrappers
  import opened Seqs

  datatype UserRole = Admin | Staff | Customer

  /** The string each role stands for (`UserRole.X.value`). */
  function RoleValue(r: UserRole): string
  {
    match r
    case Admin => "admin"
    case Staff => "staff"
    case Customer => "customer"
  }

  /** `UserRole(v)`: the role whose value is `v`, if any. */
  function ParseRole(v: string): (r: Option<UserRole>)
    ensures r.Some? <==> v in {"admin", "staff", "customer"}
    ensures r.Some? ==> RoleValue(r.value) == v
  {
    if v == "admin" then Some(Admin)
    else if v == "staff" then Some(Staff)
    else if v == "customer" then Some(Customer)
    else None
  }

  lemma RoleRoundTrip(r: UserRole)
    ensures ParseRole(RoleValue(r)) == Some(r)
  {
  }

  lemma RoleValuesDistinct(r: UserRole, q: UserRole)
    ensures RoleValue(r) == RoleValue(q) <==> r == q
  {
  }

  datatype OrderStatus = Placed | Paid | Delivered | Cancelled

  const AllStatuses: seq<OrderStatus> := [Placed, Paid, Delivered, Cancelled]

  /** The lower-case string each status stands for (`OrderStatus.X.value`). */
  function StatusValue(s: OrderStatus): string
  {
    match s
    case Placed => "placed"
    case Paid => "paid"
    case Delivered => "delivered"
    case Cancelled => "cancelled"
  }

  /** `OrderStatus(v)`: the status whose value is `v`, if any. */
  function ParseStatus(v: string): (r: Option<OrderStatus>)
    ensures r.Some? <==> v in {"placed", "paid", "delivered", "cancelled"}
    ensures r.Some? ==> StatusValue(r.value) == v
  {
    if v == "placed" then Some(Placed)
    else if v == "paid" then Some(Paid)
    else if v == "delivered" then Some(Delivered)
    else if v == "cancelled" then Some(Cancelled)
    else None
  }

  lemma StatusRoundTrip(s: OrderStatus)
    ensures ParseStatus(StatusValue(s)) == Some(s)
  {
  }

  /** Exactly four statuses, with four different values. */
  lemma StatusValuesDistinct(s: OrderStatus, t: OrderStatus)
    ensures StatusValue(s) == StatusValue(t) <==> s == t
    ensures s in AllStatuses && |AllStatuses| == 4
  {
  }

  /** The orders table's CHECK constraint spells the statuses capitalised; none
      of those strings is the value of a status. */
  lemma SchemaStatusesAreNotValues(v: string)
    requires v in {"Placed", "Paid", "Delivered", "Cancelled"}
    ensures ParseStatus(v) == None
  {
  }

  /** Default of the `low_stock_threshold` field of a product. */
  const DefaultLowStockThreshold := 10

  datatype Product = Product(
    id: int,
    name: string,
    description: Option<string>,
    price: int,
    stockQuantity: int,
    category: Option<string>,
    lowStockThreshold: int,
    sku: Option<string>)

  /** The dataclass constructor called without the two defaulted fields. */
  function NewProduct(id: int, name: string, description: Option<string>, price: int,
                      stockQuantity: int, category: Option<string>): (p: Product)
    ensures p.lowStockThreshold == 10 && p.sku == None
    ensures p.id == id && p.name == name && p.description == description
    ensures p.price == price && p.stockQuantity == stockQuantity && p.category == category
  {
    Product(id, name, description, price, stockQuantity, category, DefaultLowStockThreshold, None)
  }

  /** The `is_low_stock` property: at or below the product's own threshold. */
  predicate IsLowStock(p: Product)
  {
    p.stockQuantity <= p.lowStockThreshold
  }

  /** The property is inclusive: a product holding exactly its threshold is low on stock. */
  lemma IsLowStockAtThreshold(p: Product)
    requires p.stockQuantity == p.lowStockThreshold
    ensures IsLowStock(p)
  {
  }

  /** Lowering the stock of a low-stock product keeps it low on stock. */
  lemma LowStockMonotone(p: Product, stock: int)
    requires IsLowStock(p) && stock <= p.stockQuantity
    ensures IsLowStock(p.(stockQuantity := stock))
  {
  }

  /** An order row as the pages read it: the status is the stored string,
      which need not be the value of any `OrderStatus`. */
  datatype Order = Order(id: int, username: string, status: string, totalAmount: int, createdAt: string)

  /** The test `o['status'] == v` of the pages' comprehensions. */
  function HasStatus(v: string): Order -> bool
  {
    (o: Order) => o.status == v
  }

  /** `o['status'] in ['placed', 'paid']`: an order still to be paid or shipped. */
  predicate IsPending(o: Order)
  {
    o.status == "placed" || o.status == "paid"
  }

  /** How many of `orders` have the status string `v`, counted as a loop
      over the list would count them. */
  function CountStatus(orders: seq<Order>, v: string): nat
  {
    if orders == [] then 0
    else CountStatus(orders[..|orders| - 1], v) + (if orders[|orders| - 1].status == v then 1 else 0)
  }

  /** The count is the length of the comprehension `[o for o in orders if o['status'] == v]`. */
  lemma {:induction false} CountStatusIsFilterLength(orders: seq<Order>, v: string)
    ensures CountStatus(orders, v) == |Filter(orders, HasStatus(v))|
    decreases |orders|
  {
    if orders != [] {
      var init := orders[..|orders| - 1];
      CountStatusIsFilterLength(init, v);
      assert orders == init + [orders[|orders| - 1]];
      FilterSnoc(init, orders[|orders| - 1], HasStatus(v));
    }
  }

  /** The dictionary keys of the analytics loops: an order's status string and its customer. */
  function StatusOf(o: Order): string { o.status }

  function UsernameOf(o: Order): string { o.username }

  /** `o['total_amount']`, as a key for sums and sorts. */
  function TotalAmount(o: Order): int
  {
    o.totalAmount
  }

  /** The buttons the pages offer on one order: `update_order_status(id, 'paid')`,
      `update_order_status(id, 'delivered')` and `cancel_order(id)`. */
  datatype OrderAction = MarkPaid | MarkDelivered | CancelOrder

  /** A cart row joined with its product's price and current stock. */
  datatype CartItem = CartItem(productId: int, name: string, price: int, quantity: int, stockQuantity: int)
}
