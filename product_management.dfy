/** The administrator's product pages: the product list with its low-stock
    and category filters, the add-product form and the stock update forms
    with the list of recent stock movements. */
module ProductManagement {
  import opened Wrappers
  import opened Seqs
  import opened Models
  import Utils
  import CustomerDashboard

  /** The page's fixed low-stock cut-off ("< 10"). */
  const LowStockCutoff := 10

  // ---------------------------------------------------------------------
  // Product list

  /** The low-stock checkbox: when ticked, only products with fewer than ten
      units, which is what the low-stock helper gives at that threshold. */
  function LowStockFilter(products: seq<Product>, onlyLow: bool): (r: seq<Product>)
    ensures !onlyLow ==> r == products
    ensures onlyLow ==> r == Utils.CheckLowStock(products, LowStockCutoff)
    ensures onlyLow ==> forall p :: p in r <==> p in products && p.stockQuantity < 10
  {
    if onlyLow then Filter(products, Utils.BelowThreshold(LowStockCutoff)) else products
  }

  /** Both filters in turn: a subsequence of the catalogue holding exactly the
      products that pass both. */
  function ProductsView(products: seq<Product>, onlyLow: bool, category: string): (r: seq<Product>)
    ensures IsSubsequence(r, products)
    ensures forall p :: p in r <==>
      p in products && (!onlyLow || p.stockQuantity < 10) && (category == "All" || p.category == Some(category))
    ensures forall p :: multiset(r)[p] ==
              (if (!onlyLow || p.stockQuantity < 10) && (category == "All" || p.category == Some(category)) then multiset(products)[p] else 0)
  {
    var low := LowStockFilter(products, onlyLow);
    var r := CustomerDashboard.CategoryFilter(low, category);
    SubsequenceReflexive(products);
    assert IsSubsequence(low, products);
    SubsequenceTransitive(r, low, products);
    r
  }

  /** `highlight_low_stock`: a row is shaded when its stock is below ten. */
  predicate HighlightLowStock(p: Product)
  {
    p.stockQuantity < 10
  }

  /** With the checkbox ticked every row shown is shaded. */
  lemma LowStockViewAllHighlighted(products: seq<Product>, category: string)
    ensures forall p :: p in ProductsView(products, true, category) ==> HighlightLowStock(p)
  {
  }

  /** The warning under the list: the number of low-stock rows shown, given
      only when there is one and the checkbox is not ticked. */
  function LowStockWarning(shown: seq<Product>, onlyLow: bool): (w: Option<nat>)
    ensures w.Some? <==> !onlyLow && exists p :: p in shown && p.stockQuantity < 10
    ensures w.Some? ==> w.value == |Utils.CheckLowStock(shown, LowStockCutoff)| && w.value > 0
  {
    var low := Filter(shown, Utils.BelowThreshold(LowStockCutoff));
    assert low != [] ==> low[0] in shown;
    if low != [] && !onlyLow then Some(|low|) else None
  }

  // ---------------------------------------------------------------------
  // Add product

  /** The form's check: a name is given and the price is positive. */
  function AddProductAccepted(name: string, price: int): (ok: bool)
    ensures ok <==> name != [] && price > 0
  {
    !(name == [] || price <= 0)
  }

  /** The form's check is weaker than product-data validation: whatever passes
      validation passes the form, but a name of blanks passes the form and
      fails validation. */
  lemma AddProductGuardIsLaxer(name: string, price: int)
    ensures !Utils.NameBlank(Some(name)) && price > 0 ==> AddProductAccepted(name, price)
    ensures AddProductAccepted("   ", price) <==> price > 0
    ensures Utils.NameBlank(Some("   "))
  {
    var blanks := "   ";
    assert Utils.IsSpace(blanks[0]) && Utils.IsSpace(blanks[1]) && Utils.IsSpace(blanks[2]);
  }

  // ---------------------------------------------------------------------
  // Stock updates

  /** The arguments of one `update_product_stock` call. */
  datatype StockUpdate = StockUpdate(productId: int, newStock: int, transactionType: string, notes: string)

  /** "Add Stock": the new level is the current level plus a quantity of at least one. */
  function Restock(p: Product, addQuantity: int, notes: string): (u: StockUpdate)
    requires addQuantity >= 1
    ensures u.productId == p.id && u.transactionType == "restock" && u.notes == notes
    ensures u.newStock - p.stockQuantity == addQuantity
    ensures u.newStock > p.stockQuantity
  {
    StockUpdate(p.id, p.stockQuantity + addQuantity, "restock", notes)
  }

  /** "Update Stock": the new level is the one entered, which is not negative. */
  function SetStock(p: Product, newStock: int, notes: string): (u: StockUpdate)
    requires newStock >= 0
    ensures u.productId == p.id && u.transactionType == "manual_update" && u.notes == notes
    ensures u.newStock == newStock && u.newStock >= 0
  {
    StockUpdate(p.id, newStock, "manual_update", notes)
  }

  /** Two restocks in a row reach the level one restock of both quantities reaches. */
  lemma RestockComposes(p: Product, a: int, b: int, notes: string)
    requires a >= 1 && b >= 1
    ensures Restock(p.(stockQuantity := Restock(p, a, notes).newStock), b, notes).newStock
            == Restock(p, a + b, notes).newStock
  {
  }

  // ---------------------------------------------------------------------
  // Recent stock movements

  /** One row of `get_inventory_transactions`. */
  datatype InventoryTransaction = InventoryTransaction(transactionType: string, quantityChange: int, notes: string, createdAt: string)

  /** The first ten movements, as the store lists them. */
  function RecentTransactions(transactions: seq<InventoryTransaction>): (r: seq<InventoryTransaction>)
    ensures |r| == if |transactions| < 10 then |transactions| else 10
    ensures r == transactions[..|r|]
  {
    Take(transactions, 10)
  }

  datatype Shade = Addition | Reduction | Neutral

  /** `highlight_transactions`: by the sign of the change, one shade each. */
  function HighlightTransaction(change: int): (s: Shade)
    ensures s == Addition <==> change > 0
    ensures s == Reduction <==> change < 0
    ensures s == Neutral <==> change == 0
  {
    if change > 0 then Addition else if change < 0 then Reduction else Neutral
  }

  /** Read as the change new level minus old level, a restock is always shaded
      as an addition, and a manual update as a reduction exactly when it lowers
      the level. That the store records this difference as `quantity_change`
      is an assumption: the store is not part of this model. */
  lemma StockUpdateShades(p: Product, addQuantity: int, newStock: int, notes: string)
    requires addQuantity >= 1 && newStock >= 0
    ensures HighlightTransaction(Restock(p, addQuantity, notes).newStock - p.stockQuantity) == Addition
    ensures HighlightTransaction(SetStock(p, newStock, notes).newStock - p.stockQuantity) == Reduction
            <==> newStock < p.stockQuantity
  {
  }
}
