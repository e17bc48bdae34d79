# Omnitrack order and inventory pages, modelled in Dafny

Omnitrack is a small shop for three roles (administrator, staff, customer).
Its pages list products and orders and offer buttons that call into a store.
This project models the decisions those pages and their helpers make:

- the enums and the product record of `models.py`, with `is_low_stock`;
- the helpers of `utils.py`: low-stock check, product-data validation,
  per-status counts, order metrics, inventory value, date-range filter and
  top-selling products;
- the customer pages: shop search, category filter and sort, the add-to-cart
  bounds, the "My Orders" summary and buttons, cart totals, stock issues, and
  the reserve / create / release checkout;
- the administrator's order pages: status and customer filters, sort, the
  admin buttons, analytics (averages, status distribution, orders per
  customer, top ten customers) and the pending / placed / paid lists;
- the administrator's product pages: low-stock and category filters, the
  low-stock warning, the add-product guard, restock and set-stock, and the
  movement list with its shading;
- the staff dashboard: quick figures, the "all caught up" notice, recent
  orders and the staff buttons;
- the order life cycle the three roles' buttons allow together.

The store is not modelled. The checkout's store calls (reserve, create,
release) are values in a trace (`StoreCall`), and their answers are inputs
(`answers`, `created`). The status and cancel buttons are `OrderAction`
values, the stock forms give a `StockUpdate`, and "Add to Cart" is reduced to
the bounds it places on the quantity. Money is
integer cents. Ratios are exact `real`s. Order rows keep the status as the
raw string. `ParseStatus` relates that string to the
`OrderStatus` enum, so the model can say what happens to a string that is no
status value.

Files and modules:

- `wrappers.dfy`: `Option`.
- `seqs.dfy`: `Filter` (a list comprehension with a condition), subsequences, `Sum`, `Take` (a slice `s[:n]`).
- `sorting.dfy`: a stable insertion sort over a total preorder, used for `list.sort` and `sorted`, and Python's string order `LexLe`.
- `models.dfy`, `utils.dfy`, `customer_dashboard.dfy`, `order_management.dfy`, `product_management.dfy`, `staff_dashboard.dfy`: one module per source file.
- `lifecycle.dfy`: the transition relation the pages' buttons define.

## Model

| member | source | states |
|---|---|---|
| Models.ParseRole | models.py:7-10 | a string is a role value iff it is "admin", "staff" or "customer", and parsing then gives the role with that value |
| Models.RoleRoundTrip | models.py:7-10 | parsing a role's value gives back that role |
| Models.RoleValuesDistinct | models.py:7-10 | the three role values are pairwise distinct |
| Models.ParseStatus | models.py:12-16 | a string is a status value iff it is one of the four lower-case words, and parsing then gives the status with that value |
| Models.StatusRoundTrip | models.py:12-16 | parsing a status's value gives back that status |
| Models.StatusValuesDistinct | models.py:12-16 | the four status values are pairwise distinct; there are exactly four statuses |
| Models.SchemaStatusesAreNotValues | database.py:82 | the capitalised spellings that the orders table's CHECK constraint allows are no status value |
| Models.NewProduct | models.py:25-34 | a product built without the optional fields has low-stock threshold 10 and no SKU, and keeps every given field |
| Models.IsLowStock | models.py:36-38 | the low-stock test: stock at or below the product's own threshold (its properties are the next two rows) |
| Models.IsLowStockAtThreshold | models.py:36-38 | a product whose stock equals its threshold is low on stock (inclusive test) |
| Models.LowStockMonotone | models.py:36-38 | if a product is low on stock, it stays so at any smaller stock |
| Models.CountStatusIsFilterLength | utils.py:104-113 | the number of orders with a status string equals the length of the orders filtered by it |
| Utils.CheckLowStock | utils.py:27-29 | exactly the products with stock strictly below the threshold, each as often as in the input, in input order |
| Utils.ShowLowStockAlert | utils.py:67-79 | the alert is shown iff some product is below the threshold |
| Utils.CheckLowStockExcludesThreshold | utils.py:29 | a product whose stock equals the threshold is not reported (strict test) |
| Utils.LowStockBoundaryDisagrees | utils.py:29 | a default product with stock 10 is low on stock for `is_low_stock` but not reported by `check_low_stock` at the default threshold |
| Utils.Strip | utils.py:85 | the stripped name is empty iff every character is whitespace; otherwise it starts and ends with non-whitespace |
| Utils.MessagesDistinct | utils.py:85-92 | the three error messages are pairwise distinct, so the messages shown tell which checks failed |
| Utils.ValidateProductData | utils.py:81-94 | each of the three errors is present iff its own condition fails; errors come in the order name, price, stock; at most three; no errors iff the name is not blank, price > 0 and stock >= 0 |
| Utils.GetOrderStatusCounts | utils.py:104-113 | the keys are always the four status values; each count is the number of orders with that status; the counts add up to the number of orders with a known status |
| Utils.KnownStatusesSplit | utils.py:104-113 | the four per-status counts add up to the number of orders whose status is a status value |
| Utils.CalculateOrderMetrics | utils.py:31-51 | all zeros for no orders; total = number of orders; revenue = sum of delivered amounts; average = revenue per delivered order (0 when none); rate in [0, 100], 100 iff every order is delivered, 0 iff none is |
| Utils.CompletionRateBounds | utils.py:44 | for a non-empty list, the delivered share is in [0, 100], 100 iff all orders are delivered and 0 iff none is |
| Utils.Average | utils.py:43 | the average times the count is the total; 0 when the count is 0 |
| Utils.Percentage | utils.py:44 | part/whole*100 is in [0, 100], 100 iff part = whole, 0 iff part = 0 |
| Utils.CalculateInventoryValue | utils.py:129-131 | non-negative when every stock and price is |
| Utils.InventoryValueAppend | utils.py:129-131 | the value of a concatenation is the sum of the values; one product is worth stock times price |
| Utils.GetTopSellingProducts | utils.py:133-139 | the empty list for every input |
| Utils.FilterOrdersByDateRange | utils.py:115-127 | the orders, in order, whose date parses and lies within the bounds; an unparsable date drops the order |
| CustomerDashboard.Lower | pages/customer_dashboard.py:24-27 | same length, each character lower-cased |
| CustomerDashboard.LowerIsIdempotent | pages/customer_dashboard.py:24-27 | a lower-cased string has no upper-case letter, and lower-casing it again changes nothing |
| CustomerDashboard.ContainsBounds | pages/customer_dashboard.py:24-27 | the empty term occurs in every text; a term that occurs is no longer than the text |
| CustomerDashboard.MatchesSearch | pages/customer_dashboard.py:24-27 | the search test: the term, lower-cased, occurs in the lower-cased name or in the lower-cased description, a missing description read as empty |
| CustomerDashboard.SearchFilter | pages/customer_dashboard.py:24-27 | the products, in order, whose lower-cased name or description (a missing one read as empty) contains the lower-cased term; skipping the filter for an empty term changes nothing |
| CustomerDashboard.CategoryFilter | pages/customer_dashboard.py:29-30 | "All" keeps every product; any other choice keeps exactly the products of that category, each as often as in the input; always a subsequence |
| CustomerDashboard.Categories | pages/customer_dashboard.py:14 | the selector's categories: never the empty string, and every product's non-empty category is among them |
| CustomerDashboard.OfferedCategoryIsInhabited | pages/customer_dashboard.py:14 | a category offered in the selector keeps at least one product of the whole catalogue (after a search it may keep none) |
| CustomerDashboard.NameFirstIsPreorder | pages/customer_dashboard.py:33-34 | ordering by name is a total preorder |
| CustomerDashboard.SortProducts | pages/customer_dashboard.py:33-40 | a permutation ordered by name, by price up, by price down or by stock down |
| CustomerDashboard.ShopRows | pages/customer_dashboard.py:24-30 | after search and category, each product appears exactly as often as in the catalogue if it passes both filters and not at all otherwise; never more rows than the catalogue |
| CustomerDashboard.ShopView | pages/customer_dashboard.py:24-40 | after search, category and sort: exactly the products passing both filters, each as often as in the catalogue, the same multiset as the filtered list, ordered by the chosen sort |
| CustomerDashboard.AddToCartOffered | pages/customer_dashboard.py:58-66 | the button is shown iff the stock is positive |
| CustomerDashboard.QuantityMax | pages/customer_dashboard.py:58-66 | the quantity input's upper bound: at least 1, and the stock itself when the button is shown |
| CustomerDashboard.AddToCartWithinStock | pages/customer_dashboard.py:58-66 | a quantity the input allows never exceeds the stock when the button is offered, and is 1 when it is not |
| CustomerDashboard.MyOrdersSummary | pages/customer_dashboard.py:90-98 | total orders; delivered orders, at most the total; total spent equal to the revenue of the order metrics |
| CustomerDashboard.DeliveredCountAgrees | pages/customer_dashboard.py:94-98 | the delivered figure is the per-status count; the amount spent is non-negative when all amounts are |
| CustomerDashboard.CustomerActions | pages/customer_dashboard.py:124-138 | buttons exist iff the order is placed; a customer never marks an order delivered |
| CustomerDashboard.CartTotalAmount | pages/customer_dashboard.py:159 | the cart amount: the sum over lines of quantity times price (additive, see the next rows) |
| CustomerDashboard.CartTotalItems | pages/customer_dashboard.py:160 | the item count: the sum of the line quantities (additive, see the next rows) |
| CustomerDashboard.CartTotalsAppend | pages/customer_dashboard.py:159-160 | the amount and item totals of two carts together are the sums of their totals |
| CustomerDashboard.CartTotalsBounds | pages/customer_dashboard.py:159-160 | with quantities of at least one, there are at least as many items as lines, and the amount is non-negative |
| CustomerDashboard.StockIssues | pages/customer_dashboard.py:202-213 | one issue per line that wants more than the stock, in cart order; none iff every line fits, which is when checkout is offered |
| CustomerDashboard.NoIssuesIffAllFit | pages/customer_dashboard.py:202-207 | there is no stock issue iff every line asks for no more than the stock |
| CustomerDashboard.FirstRefusal | pages/customer_dashboard.py:219-222 | the index of the first refused reservation: every earlier one was granted |
| CustomerDashboard.ReserveInOrder | pages/customer_dashboard.py:218-222 | the loop's flag is true iff every reservation is granted; it reserves the lines in order up to and including the first refused one |
| CustomerDashboard.CheckoutAsWritten | pages/customer_dashboard.py:216-236 | the checkout as written: reservations up to the first refusal; on a refusal nothing else; otherwise `create_order`, and on a falsy id the release of every line in cart order |
| CustomerDashboard.CreateOrReleaseAll | pages/customer_dashboard.py:224-234 | once all lines are reserved: placed with the id and only the create call when it is truthy; otherwise creation failed, with the create call followed by one release per line in cart order |
| CustomerDashboard.ReleaseAll | pages/customer_dashboard.py:232-233 | one release per line, in order, each for that line's product and quantity |
| CustomerDashboard.PlaceOrder | pages/customer_dashboard.py:216-236 | the outcome and the store calls are those of the checkout as written |
| CustomerDashboard.CheckoutCreatesOnlyAfterAllReserved | pages/customer_dashboard.py:224-226 | the order is created iff every reservation is granted, and placed iff also the returned id is truthy |
| CustomerDashboard.CheckoutReservesInCartOrder | pages/customer_dashboard.py:219-222 | the reservations in the trace are the cart lines in order, up to the first refused one and none after it |
| CustomerDashboard.CheckoutReleasesOnCreationFailure | pages/customer_dashboard.py:230-233 | when creation fails every line is released once, in cart order; on any other outcome nothing is released |
| CustomerDashboard.CheckoutAsWrittenStrandsHolds | pages/customer_dashboard.py:219-222 | every granted hold is given back iff the refusal is not after other grants |
| CustomerDashboard.StrandedHoldExample | pages/customer_dashboard.py:219-222 | two lines, the second refused: the checkout fails and releases nothing, so the first hold stays |
| CustomerDashboard.CheckoutWithRollback | pages/customer_dashboard.py:216-236 | the corrected checkout: a refusal releases the lines reserved before it, in order; otherwise as written |
| CustomerDashboard.PlaceOrderWithRollback | pages/customer_dashboard.py:216-236 | the button with the rollback reserves once and gives the outcome and store calls of the corrected checkout |
| CustomerDashboard.RollbackBalancesHolds | pages/customer_dashboard.py:216-236 | with the rollback, every outcome but a placed order gives back every granted hold, and a placed order releases nothing |
| OrderManagement.StatusFilter | page/order_management.py:44-45 | "All" keeps every order; any other status keeps exactly its orders, each as often as in the input, as many as the per-status count |
| OrderManagement.CustomerFilter | page/order_management.py:47-48 | "All" keeps every order; any other user keeps exactly that user's orders, each as often as in the input |
| OrderManagement.OfferedCustomerIsInhabited | page/order_management.py:35-36 | a customer offered in the selector keeps at least one order of the whole order list (after the status filter it may keep none) |
| OrderManagement.FilteredOrders | page/order_management.py:42-48 | both filters give a subsequence of the orders holding exactly those that pass both, each as often as in the input |
| OrderManagement.CreatedAtOrdersArePreorders | page/order_management.py:51-54 | ordering by creation time, either way, is a total preorder |
| OrderManagement.SortOrders | page/order_management.py:50-58 | a permutation ordered newest first, oldest first, amount down or amount up |
| OrderManagement.AdminActions | page/order_management.py:96-118 | no buttons on delivered or cancelled orders; paid iff placed; delivered iff paid; cancel iff placed or paid |
| OrderManagement.OrderAnalytics | page/order_management.py:136-150 | the average times the number of orders is the sum of all amounts; the rate and revenue equal those of the order metrics; the rate is in [0, 100] |
| OrderManagement.AveragesAgreeWhenAllDelivered | page/order_management.py:140 | when every order is delivered, the page's average over all orders equals the helper's average over delivered ones |
| Seqs.FirstAppearancesMembers | page/order_management.py:157-160 | the first-appearance list has no repeats and holds exactly the keys that occur |
| Seqs.FirstAppearancesOrdered | page/order_management.py:157-160 | in the first-appearance list, every key occurs before any occurrence of a later key |
| OrderManagement.StatusDistribution | page/order_management.py:156-160 | the keys are the status strings in order of first appearance (the insertion order of the dictionary); each count is that status's count; the counts add up to the number of orders |
| OrderManagement.CountByIsFilterLength | page/order_management.py:171-177 | a customer's order count is the length of their filtered orders |
| OrderManagement.CustomerOrders | page/order_management.py:171-177 | the keys are the customers in order of first appearance (the insertion order of the dictionary), each with their order count and the sum of their amounts |
| OrderManagement.Items | page/order_management.py:180 | one item per dictionary key, in key order, each holding that key's count and total |
| OrderManagement.TopCustomers | page/order_management.py:180 | min(10, n) customers by non-increasing order count, drawn from the input, and no customer left out has more orders than one kept |
| OrderManagement.TopCustomersChart | page/order_management.py:171-180 | the chart's entries: min(10, number of customers) distinct customers, each with their own order count (positive) and total, by non-increasing count, and no customer left out has more orders than one shown |
| OrderManagement.TopOfTallies | page/order_management.py:180 | the same properties for the top ten of the items of any dictionary that holds each customer's count and total |
| OrderManagement.PrefixOfSortedIsTop | page/order_management.py:180 | a prefix of a list sorted by count, same multiset as the input, holds top entries only |
| OrderManagement.PendingOrders | page/order_management.py:223 | a subsequence of the orders holding exactly those placed or paid, each as often as in the input |
| OrderManagement.PlacedOrders | page/order_management.py:229 | exactly the placed orders, each as often as in the input |
| OrderManagement.PaidOrders | page/order_management.py:245 | exactly the paid orders, each as often as in the input |
| OrderManagement.PendingPartition | page/order_management.py:222-245 | the placed and paid lists split the pending list and equal the direct filters of all orders |
| ProductManagement.LowStockFilter | page/product_management.py:36-37 | ticked: exactly the products with fewer than ten units, which is the helper's result at threshold 10; unticked: every product |
| ProductManagement.ProductsView | page/product_management.py:33-40 | a subsequence of the catalogue holding exactly the products that pass both filters, each as often as in the catalogue |
| ProductManagement.HighlightLowStock | page/product_management.py:51-54 | a row is shaded iff its product has fewer than ten units |
| ProductManagement.LowStockViewAllHighlighted | page/product_management.py:51-54 | with the checkbox ticked every row shown is shaded |
| ProductManagement.LowStockWarning | page/product_management.py:61-64 | the warning appears iff the box is not ticked and some shown product has fewer than ten units; it counts them |
| ProductManagement.AddProductAccepted | page/product_management.py:88-89 | the form accepts iff the name is non-empty and the price positive |
| ProductManagement.AddProductGuardIsLaxer | page/product_management.py:88-89 | whatever passes product-data validation passes the form; a name of blanks passes the form but fails validation |
| ProductManagement.Restock | page/product_management.py:119-124 | the new level is the old plus the quantity, so it strictly increases; the movement type is "restock" |
| ProductManagement.SetStock | page/product_management.py:133-141 | the new level is the one entered, not negative; the movement type is "manual_update" |
| ProductManagement.RestockComposes | page/product_management.py:119-124 | two restocks reach the level of one restock of both quantities |
| ProductManagement.RecentTransactions | page/product_management.py:152 | the first min(10, n) movements, in order |
| ProductManagement.HighlightTransaction | page/product_management.py:159-164 | addition iff the change is positive, reduction iff negative, neutral iff zero |
| ProductManagement.StockUpdateShades | page/product_management.py:119-164 | the difference new level minus old level is shaded as an addition for every restock, and as a reduction for a manual update iff it lowers the level |
| StaffDashboard.StaffQuickStats | page/staff_dashboard.py:14-28 | each list holds exactly the orders or products its figure counts; the low-stock list is the helper's result at threshold 10 |
| StaffDashboard.PendingIsPlacedPlusPaid | page/staff_dashboard.py:14-24 | "Orders to Process" is "Awaiting Payment" plus "Ready to Ship", and the three lists equal those of the bulk-action tab |
| StaffDashboard.AllCaughtUp | page/staff_dashboard.py:45-46 | the notice's condition: no placed order, no paid order and no low-stock product in the quick figures |
| StaffDashboard.AllCaughtUpMeans | page/staff_dashboard.py:45-46 | the notice is shown iff no order is placed or paid and no product has fewer than ten units |
| StaffDashboard.RecentOrders | page/staff_dashboard.py:52 | the first min(15, n) orders, in order |
| StaffDashboard.StaffActions | page/staff_dashboard.py:82-92 | paid iff placed, delivered iff paid, never cancel, at most one button |
| Lifecycle.Step | page/order_management.py:96-118 | a move from one status to another that some button of the role offers on an order of the first status |
| Lifecycle.AdminTransitions | page/order_management.py:96-118 | the administrator's moves are exactly placed to paid, paid to delivered, and placed or paid to cancelled |
| Lifecycle.TerminalStatuses | page/order_management.py:96 | no role has a move out of delivered or cancelled |
| Lifecycle.StaffWithinAdmin | page/staff_dashboard.py:82-92 | staff moves are exactly placed to paid and paid to delivered, a strict subset of the administrator's |
| Lifecycle.CustomerWithinAdmin | pages/customer_dashboard.py:124-138 | customer moves are exactly placed to paid and placed to cancelled, all of them administrator moves |
| Lifecycle.UnknownStatusIsStuck | database.py:82 | an order whose status string is no status value, such as the table's default 'Placed', gets no button from any role |
| Lifecycle.StepGoesForward | page/order_management.py:96-118 | every move goes forward in the life cycle |
| Lifecycle.RunRank | page/order_management.py:96-118 | along a run of moves the rank grows by at least one per move |
| Lifecycle.DeliveryPassesThroughPayment | page/order_management.py:101-110 | a run takes at most two moves (a delivered order cannot be cancelled), and a run from placed to delivered passes through paid |

## Left out

- Streamlit rendering, session state, forms, `st.rerun`, pandas tables and styling, and plotly charts: presentation with nothing to state. The number inputs' bounds are kept as preconditions (`Restock`, `SetStock`) or as `QuantityMax`.
- `database.py`: the connection, SQL schema and statements, secrets lookup, demo data and the `threading.Lock`. These are I/O and concurrency.
- The store operations the pages call (`reserve_inventory`, `create_order`, `release_reservation`, `cancel_order`, `update_order_status`, `add_to_cart`, `update_product_stock` and the order and transaction getters) are not part of this model: their answers are inputs, and the checkout's calls are trace entries. What a reservation, a release or a cancellation does to stock is not modelled.
- Rows from the store are records with the fields the pages read. `database.py:126-130` returns products from `get_all_products` as a pandas DataFrame of id, name, category, price and stock_quantity, with no description, while the pages index it as a list of dictionaries and read `description`; the model follows the pages. `database.py:116` declares `add_product(name, price, stock, category, sku)`, while `page/product_management.py:92` passes `(name, description, price, stock, category)`; the model keeps only the form's guard, not the insert.
- The `User` and order-item records: the pages use a user only through its name and role, and order items only for display, so neither is a datatype here.
- `auth.py`, `app.py` and the `AuthManager` stub: login and session glue with a hard-coded credential check.
- `page/admin_dashboard.py` and `pages/admin_dashboard.py`: their only logic is delivered and pending filters and `is_low_stock`, which the models above cover.
- `pages/order_management.py`: identical to `page/order_management.py`, which is modelled once.
- Floating-point money: amounts are integer cents, and averages and percentages are exact reals, so rounding and the `:.2f` / `:.1f` formatting are not modelled.
- `format_currency`, `format_datetime`, `get_status_color`, `create_summary_metrics` and `export_orders_to_csv`: presentation and file output.
- Date parsing in `filter_orders_by_date_range`: `fromisoformat` becomes the parameter `orderDate`, which returns a day number or nothing, and the `except` branch is the nothing case.
- Creation times are compared as strings with Python's code-point order. The table declares `created_at TIMESTAMP` (`database.py:84`); reading it as an ISO-formatted string, whose string order is its time order, is an assumption of the model.
- `str.lower`: only ASCII letters are folded; Python's full Unicode case mapping is not modelled.
- `list.sort` and `sorted` are modelled as a functional sort on sequences. The order and permutation are proved; stability and the in-place update are not.
- OrderManagement.TopCustomers: ties in the order count are left in any order. Python's stable `sorted` keeps tied customers in the dictionary's key order, which decides who is cut at ten; the model proves the key order (`CustomerOrders`) but not the stability, so `TopCustomersChart` does not say which of several tied customers are shown.
- ProductManagement.StockUpdateShades: the shading is applied to the difference new level minus old level. That the store records this difference as `quantity_change` of the movement is an assumption, since `update_product_stock` and `get_inventory_transactions` are not part of this model.
- `validate_product_data`'s unused `category` parameter is dropped, and a missing name is `None`.
- The item lists inside order cards and the notes of stock movements: displayed, never decided on.
- The status-string casing mismatch: the table's constraint and default use capitalised words, the enums and pages lower-case. The model uses the lower-case values and proves what happens to the others (`SchemaStatusesAreNotValues`, `UnknownStatusIsStuck`).
- CustomerDashboard.PlaceOrder: the store's answers arrive as one boolean per cart line, of which only those up to the first refusal are ever consulted.
- Utils.CalculateOrderMetrics: states the average through `Average` rather than as a product with the delivered count, to keep the proof small.

## Findings

| source | as written | input that shows it | evidently intended | confidence | as-written member | corrected member |
|---|---|---|---|---|---|---|
| pages/customer_dashboard.py:219-222 | a refused reservation ends the loop and the failure branch only shows an error, so the lines reserved before it stay held | a two-line cart whose first reservation is granted and second refused | release every reservation already granted before reporting failure, as the creation-failure branch does | not executed | CustomerDashboard.CheckoutAsWrittenStrandsHolds | CustomerDashboard.RollbackBalancesHolds |
