/** The shared helpers of the pages: low-stock selection, product validation,
    order metrics and counts, the date-range filter and inventory value. */
module Utils {
  import opened Wrappers
  import opened Seqs
  import opened Models

  /** Default `threshold` of `check_low_stock` and `show_low_stock_alert`. */
  const DefaultThreshold := 10

  /** Products strictly below `threshold`, in catalogue order. */
  function CheckLowStock(products: seq<Product>, threshold: int): (r: seq<Product>)
    ensures forall p :: p in r <==> p in products && p.stockQuantity < threshold
    ensures forall p :: multiset(r)[p] == if p.stockQuantity < threshold then multiset(products)[p] else 0
    ensures IsSubsequence(r, products)
  {
    FilterMultiset(products, BelowThreshold(threshold));
    Filter(products, BelowThreshold(threshold))
  }

  function BelowThreshold(threshold: int): Product -> bool
  {
    (p: Product) => p.stockQuantity < threshold
  }

  /** Whether `show_low_stock_alert` shows its warning (and returns True). */
  function ShowLowStockAlert(products: seq<Product>, threshold: int): (shown: bool)
    ensures shown <==> exists i :: 0 <= i < |products| && products[i].stockQuantity < threshold
  {
    var low := CheckLowStock(products, threshold);
    assert low != [] ==> low[0] in products;
    low != []
  }

  /** The helper's test is strict: a product holding exactly `threshold` units is not selected. */
  lemma CheckLowStockExcludesThreshold(products: seq<Product>, p: Product, threshold: int)
    requires p.stockQuantity == threshold
    ensures p !in CheckLowStock(products, threshold)
  {
  }

  /** The two low-stock tests disagree at the boundary: a new product with as
      many units as its default threshold is low on stock by its own property,
      yet the helper at its default threshold leaves it out. */
  lemma LowStockBoundaryDisagrees(products: seq<Product>, id: int, name: string)
    ensures var p := NewProduct(id, name, None, 100, DefaultThreshold, None);
      IsLowStock(p) && p !in CheckLowStock(products, DefaultThreshold)
  {
    var p := NewProduct(id, name, None, 100, DefaultThreshold, None);
    IsLowStockAtThreshold(p);
    CheckLowStockExcludesThreshold(products, p, DefaultThreshold);
  }

  /** Python's `str.isspace`, the characters `str.strip()` removes. */
  predicate IsSpace(c: char)
  {
    || c in {' ', '\t', '\n', '\r', '\U{B}', '\U{C}', '\U{1C}', '\U{1D}', '\U{1E}', '\U{1F}'}
    || c in {'\U{85}', '\U{A0}', '\U{1680}', '\U{2028}', '\U{2029}', '\U{202F}', '\U{205F}', '\U{3000}'}
    || '\U{2000}' <= c <= '\U{200A}'
  }

  function LeadingSpaces(s: string): (n: nat)
    ensures n <= |s|
    ensures forall i :: 0 <= i < n ==> IsSpace(s[i])
    ensures n < |s| ==> !IsSpace(s[n])
  {
    if s == [] || !IsSpace(s[0]) then 0 else 1 + LeadingSpaces(s[1..])
  }

  function TrailingSpaces(s: string): (n: nat)
    ensures n <= |s|
    ensures forall i :: |s| - n <= i < |s| ==> IsSpace(s[i])
    ensures n < |s| ==> !IsSpace(s[|s| - n - 1])
  {
    if s == [] || !IsSpace(s[|s| - 1]) then 0 else 1 + TrailingSpaces(s[..|s| - 1])
  }

  /** `s.strip()`: empty exactly when `s` is all white space; otherwise it
      starts and ends with a non-space character. */
  function Strip(s: string): (r: string)
    ensures |r| <= |s|
    ensures r == [] <==> forall i :: 0 <= i < |s| ==> IsSpace(s[i])
    ensures r != [] ==> !IsSpace(r[0]) && !IsSpace(r[|r| - 1])
  {
    var a := LeadingSpaces(s);
    if a == |s| then []
    else
      var b := |s| - TrailingSpaces(s);
      assert a < b;
      s[a..b]
  }

  datatype ProductError = NameRequired | PriceNotPositive | StockNegative

  function Message(e: ProductError): string
  {
    match e
    case NameRequired => "Product name is required"
    case PriceNotPositive => "Price must be greater than 0"
    case StockNegative => "Stock quantity cannot be negative"
  }

  /** Each error has its own message, so the list of messages shown tells
      exactly which checks failed. */
  lemma MessagesDistinct(e1: ProductError, e2: ProductError)
    ensures Message(e1) == Message(e2) <==> e1 == e2
  {
    if e1 != e2 {
      assert |Message(e1)| != |Message(e2)|;
    }
  }

  /** Position of each check in `validate_product_data`. */
  function Rank(e: ProductError): nat
  {
    match e
    case NameRequired => 0
    case PriceNotPositive => 1
    case StockNegative => 2
  }

  /** No name, or one made of white space only. */
  predicate NameBlank(name: Option<string>)
  {
    name.None? || forall i :: 0 <= i < |name.value| ==> IsSpace(name.value[i])
  }

  /** `validate_product_data(name, price, stock)`; the unused `category`
      argument is left out. Price is in cents. */
  method ValidateProductData(name: Option<string>, price: int, stock: int) returns (errors: seq<ProductError>)
    ensures NameRequired in errors <==> NameBlank(name)
    ensures PriceNotPositive in errors <==> price <= 0
    ensures StockNegative in errors <==> stock < 0
    ensures forall i, j :: 0 <= i < j < |errors| ==> Rank(errors[i]) < Rank(errors[j])
    ensures |errors| <= 3
    ensures errors == [] <==> !NameBlank(name) && price > 0 && stock >= 0
  {
    errors := [];
    if name.None? || |name.value| == 0 || |Strip(name.value)| == 0 {
      errors := errors + [NameRequired];
    }
    if price <= 0 {
      errors := errors + [PriceNotPositive];
    }
    if stock < 0 {
      errors := errors + [StockNegative];
    }
  }

  /** Statuses `get_order_status_counts` reports, as dictionary keys. */
  const StatusKeys: set<string> := {"placed", "paid", "delivered", "cancelled"}

  function HasKnownStatus(o: Order): bool
  {
    o.status in StatusKeys
  }

  /** `get_order_status_counts`: one counter per status value, orders whose
      status is not one of them ignored. */
  method GetOrderStatusCounts(orders: seq<Order>) returns (counts: map<string, nat>)
    ensures counts.Keys == StatusKeys
    ensures forall v :: v in counts ==> counts[v] == CountStatus(orders, v)
    ensures counts["placed"] + counts["paid"] + counts["delivered"] + counts["cancelled"]
            == |Filter(orders, HasKnownStatus)|
  {
    counts := map["placed" := 0, "paid" := 0, "delivered" := 0, "cancelled" := 0];
    for i := 0 to |orders|
      invariant counts.Keys == StatusKeys
      invariant forall v :: v in counts ==> counts[v] == CountStatus(orders[..i], v)
    {
      var status := orders[i].status;
      assert orders[..i + 1][..i] == orders[..i];
      if status in counts {
        counts := counts[status := counts[status] + 1];
      }
    }
    assert orders[..|orders|] == orders;
    KnownStatusesSplit(orders);
  }

  /** Every order with a known status has exactly one of the four statuses. */
  lemma {:induction false} KnownStatusesSplit(orders: seq<Order>)
    ensures CountStatus(orders, "placed") + CountStatus(orders, "paid")
            + CountStatus(orders, "delivered") + CountStatus(orders, "cancelled")
            == |Filter(orders, HasKnownStatus)|
    decreases |orders|
  {
    if orders != [] {
      var init := orders[..|orders| - 1];
      var last := orders[|orders| - 1];
      KnownStatusesSplit(init);
      assert orders == init + [last];
      FilterSnoc(init, last, HasKnownStatus);
      OneKnownStatus(last);
      assert CountStatus(orders, "placed") == CountStatus(init, "placed") + (if last.status == "placed" then 1 else 0);
      assert CountStatus(orders, "paid") == CountStatus(init, "paid") + (if last.status == "paid" then 1 else 0);
      assert CountStatus(orders, "delivered") == CountStatus(init, "delivered") + (if last.status == "delivered" then 1 else 0);
      assert CountStatus(orders, "cancelled") == CountStatus(init, "cancelled") + (if last.status == "cancelled" then 1 else 0);
    }
  }

  lemma OneKnownStatus(o: Order)
    ensures (if o.status == "placed" then 1 else 0) + (if o.status == "paid" then 1 else 0)
            + (if o.status == "delivered" then 1 else 0) + (if o.status == "cancelled" then 1 else 0)
            == if HasKnownStatus(o) then 1 else 0
  {
  }

  /** `calculate_order_metrics`, the ratios as exact reals rather than floats. */
  datatype OrderMetrics = OrderMetrics(totalOrders: nat, totalRevenue: int, avgOrderValue: real, completionRate: real)

  function CalculateOrderMetrics(orders: seq<Order>): (m: OrderMetrics)
    ensures orders == [] ==> m == OrderMetrics(0, 0, 0.0, 0.0)
    ensures m.totalOrders == |orders|
    ensures m.totalRevenue == Sum(Filter(orders, HasStatus("delivered")), TotalAmount)
    ensures 0.0 <= m.completionRate <= 100.0
    ensures m.completionRate == 100.0 <==>
              orders != [] && forall i :: 0 <= i < |orders| ==> orders[i].status == "delivered"
    ensures m.completionRate == 0.0 <==> forall i :: 0 <= i < |orders| ==> orders[i].status != "delivered"
    ensures m.avgOrderValue == Average(m.totalRevenue, |Filter(orders, HasStatus("delivered"))|)
  {
    if orders == [] then OrderMetrics(0, 0, 0.0, 0.0)
    else
      var delivered := Filter(orders, HasStatus("delivered"));
      var revenue := Sum(delivered, TotalAmount);
      CompletionRateBounds(orders);
      OrderMetrics(|orders|, revenue, Average(revenue, |delivered|), Percentage(|delivered|, |orders|))
  }

  /** The completion rate of a non-empty list, at 100 exactly when every order
      is delivered and at 0 exactly when none is. */
  lemma CompletionRateBounds(orders: seq<Order>)
    requires orders != []
    ensures var r := Percentage(|Filter(orders, HasStatus("delivered"))|, |orders|);
      && 0.0 <= r <= 100.0
      && (r == 100.0 <==> forall i :: 0 <= i < |orders| ==> orders[i].status == "delivered")
      && (r == 0.0 <==> forall i :: 0 <= i < |orders| ==> orders[i].status != "delivered")
  {
    DeliveredShare(orders);
  }

  /** The delivered orders are all of the orders, or none of them, exactly
      when every order, or no order, is delivered. */
  lemma DeliveredShare(orders: seq<Order>)
    ensures |Filter(orders, HasStatus("delivered"))| == |orders| <==>
              forall i :: 0 <= i < |orders| ==> orders[i].status == "delivered"
    ensures |Filter(orders, HasStatus("delivered"))| == 0 <==>
              forall i :: 0 <= i < |orders| ==> orders[i].status != "delivered"
  {
    var delivered := Filter(orders, HasStatus("delivered"));
    FilterKeepsAll(orders, HasStatus("delivered"));
    if delivered != [] {
      assert delivered[0] in orders;
    }
    if exists i :: 0 <= i < |orders| && orders[i].status == "delivered" {
      var i :| 0 <= i < |orders| && orders[i].status == "delivered";
      assert orders[i] in delivered;
    }
  }

  /** `total / count`: the share of `total` each of `count` items gets, 0 when there is nothing to share. */
  function Average(total: int, count: nat): (r: real)
    ensures count > 0 ==> r * (count as real) == total as real
    ensures count == 0 ==> r == 0.0
  {
    if count == 0 then 0.0 else (total as real) / (count as real)
  }

  /** `part / whole * 100` for `part <= whole`, in [0, 100] and at either end
      exactly when `part` is. */
  function Percentage(part: nat, whole: nat): (r: real)
    requires 0 < whole && part <= whole
    ensures 0.0 <= r <= 100.0
    ensures r == 100.0 <==> part == whole
    ensures r == 0.0 <==> part == 0
  {
    var q := (part as real) / (whole as real);
    FractionBounds(part as real, whole as real);
    q * 100.0
  }

  /** A fraction `p / w` of a positive `w` with `0 <= p <= w` lies in [0, 1],
      at 1 exactly when `p == w` and at 0 exactly when `p == 0`. */
  lemma FractionBounds(p: real, w: real)
    requires 0.0 < w && 0.0 <= p <= w
    ensures 0.0 <= p / w <= 1.0
    ensures p / w == 1.0 <==> p == w
    ensures p / w == 0.0 <==> p == 0.0
  {
    var q := p / w;
    assert q * w == p;
    assert w - p == (1.0 - q) * w;
  }

  /** `stock_quantity * price` of one product. */
  function StockValue(p: Product): int
  {
    p.stockQuantity * p.price
  }

  /** `calculate_inventory_value`: total value of the catalogue's stock, in cents. */
  function CalculateInventoryValue(products: seq<Product>): (v: int)
    ensures (forall i :: 0 <= i < |products| ==> products[i].stockQuantity >= 0 && products[i].price >= 0) ==> v >= 0
  {
    var v := Sum(products, StockValue);
    assert (forall i :: 0 <= i < |products| ==> products[i].stockQuantity >= 0 && products[i].price >= 0) ==> v >= 0 by {
      if forall i :: 0 <= i < |products| ==> products[i].stockQuantity >= 0 && products[i].price >= 0 {
        forall i | 0 <= i < |products| ensures StockValue(products[i]) >= 0 {
          NonNegativeProduct(products[i].stockQuantity, products[i].price);
        }
        SumNonNegative(products, StockValue);
      }
    }
    v
  }

  lemma NonNegativeProduct(a: int, b: int)
    requires a >= 0 && b >= 0
    ensures a * b >= 0
  {
  }

  /** The value of two catalogues taken together is the sum of their values,
      and the value of one product is its stock times its price. */
  lemma {:induction false} InventoryValueAppend(a: seq<Product>, b: seq<Product>)
    ensures CalculateInventoryValue(a + b) == CalculateInventoryValue(a) + CalculateInventoryValue(b)
    ensures forall p :: CalculateInventoryValue([p]) == p.stockQuantity * p.price
  {
    SumAppend(a, b, StockValue);
    forall p ensures CalculateInventoryValue([p]) == p.stockQuantity * p.price {
      assert [p][1..] == [];
      assert Sum([p], StockValue) == StockValue(p) + Sum([], StockValue);
    }
  }

  /** `get_top_selling_products` is a stub: it returns no rows whatever it is given. */
  function GetTopSellingProducts(orders: seq<Order>, limit: int): (r: seq<Product>)
    ensures r == []
  {
    []
  }

  /** The date test of `filter_orders_by_date_range`; `orderDate` stands for
      `datetime.fromisoformat(created_at).date()`, `None` where it raises. */
  function InDateRange(startDate: int, endDate: int, orderDate: string -> Option<int>): Order -> bool
  {
    (o: Order) => orderDate(o.createdAt).Some? && startDate <= orderDate(o.createdAt).value <= endDate
  }

  method FilterOrdersByDateRange(orders: seq<Order>, startDate: int, endDate: int, orderDate: string -> Option<int>)
    returns (filtered: seq<Order>)
    ensures filtered == Filter(orders, InDateRange(startDate, endDate, orderDate))
    ensures forall o :: o in filtered <==>
              o in orders && orderDate(o.createdAt).Some? && startDate <= orderDate(o.createdAt).value <= endDate
  {
    filtered := [];
    for i := 0 to |orders|
      invariant filtered == Filter(orders[..i], InDateRange(startDate, endDate, orderDate))
    {
      assert orders[..i + 1] == orders[..i] + [orders[i]];
      FilterSnoc(orders[..i], orders[i], InDateRange(startDate, endDate, orderDate));
      var d := orderDate(orders[i].createdAt);
      if d.None? {
        continue;
      }
      if startDate <= d.value <= endDate {
        filtered := filtered + [orders[i]];
      }
    }
    assert orders[..|orders|] == orders;
  }
}
