# Storefront cart model

A Dafny model of the cart logic of a small React storefront. The storefront has three parts:

- a fixed catalog of six products;
- a catalog view with a quantity selector per product;
- a cart view that joins the rows of a remote `cart` table with the catalog and shows line items and a total.

The hosted table is modelled as an in-memory sequence of rows `{id, product_id, quantity}`. The store assigns each inserted row its `id`, because the insert at src/App.js:54 leaves `id` out. The model takes these ids to be positive, unique and increasing (see `CartTable.Table` under "## Left out"). Each remote call gets a `fault` flag that says whether the store reports an error. A failed call leaves the table as it was.

Modules, one per source file plus the table:

- `Catalog` (`catalog.dfy`): the catalog constant, with prices in integer cents, and `Find`, the first-match lookup by id.
- `CartTable` (`cart_table.dfy`): rows, the `.eq`/`.gt` filters, what a select, update or delete means on a row sequence, and the class `Table`.
- `Cart` (`cart.dfy`): the join of rows with products, the total, and the class `CartView` with its fetch, remove and checkout handlers.
- `App` (`app.dfy`): add-to-cart as an upsert keyed by product id, and remove-by-product. Both are on the class `Storefront`.
- `ProductList` (`product_list.dfy`): seeding the quantity map, increase and decrease, and the add-to-cart guard, on the class `ProductListView`.

Each event handler is one sequential step. The views share one `Table` object.

Two points about the table that the model keeps:

- Rows carry a store-assigned `id`. Several rows may share a `product_id`, and add-to-cart updates all of them (src/App.js:41-44).
- Checkout deletes the rows with `id > 0` (src/components/Cart.js:87-90). `HandleCheckout` proves that this empties a table whose ids are all positive.

## Model

| member | source | states |
|---|---|---|
| Catalog.Find | src/components/Cart.js:26 | `products.find`: none exactly when no product has the id; otherwise the product at the first index with that id |
| Catalog.Products | src/App.js:10-17 | the six catalog products with ids 1..6, names Product A..F, prices 19.99..69.99 written as 1999..6999 cents, and their image URLs; its shape is proved by CatalogShape and CatalogLookup |
| Catalog.FindUnique | src/App.js:10-17 | with distinct ids, looking up a product's own id gives back that product |
| Catalog.CatalogShape | src/App.js:10-17 | the catalog has six products with ids 1..6 in order, distinct ids and positive prices |
| Catalog.CatalogLookup | src/App.js:10-17 | a lookup in the catalog succeeds exactly for ids 1..6 and then finds the product at position id-1 |
| CartTable.Selected | src/App.js:27-30 | a select returns exactly the table rows that match the filter, never more rows than the table |
| CartTable.Remaining | src/App.js:70 | after a delete, the table holds exactly the rows that do not match the filter |
| CartTable.Matches | src/components/Cart.js:87-90 | a row passes `.eq(column, v)` when that column equals v and `.gt(column, v)` when it exceeds v (the `.eq` filters are at src/App.js:30, src/App.js:44, src/App.js:70 and src/components/Cart.js:63); `column` is `id` or `product_id` |
| CartTable.Updated | src/App.js:41-44 | an update keeps length and order; matching rows take the new quantity and keep id and product; other rows are untouched |
| CartTable.SelectedAppend | src/App.js:27-30 | select distributes over concatenation, so the table's order is preserved |
| CartTable.RemainingAppend | src/App.js:70 | delete distributes over concatenation, so the surviving rows keep their order |
| CartTable.SelectedRemainingPartition | src/App.js:70 | the rows a filter selects and the rows a delete with it leaves add up to the whole table |
| CartTable.SelectedEmpty | src/App.js:36 | `existingItems.length > 0` holds exactly when some row matches the filter |
| CartTable.UpdatedUnchanged | src/App.js:41-44 | an update to the quantity that every matching row already has changes nothing |
| CartTable.RemainingIdsDistinct | src/components/Cart.js:60-63 | a delete keeps row ids unique |
| CartTable.DeleteAboveZeroEmpties | src/components/Cart.js:87-90 | deleting the rows with `id > 0` empties a table whose ids are all positive |
| CartTable.Table.SelectAll | src/components/ProductList.js:20-26 | the call fails on a store error; otherwise it returns every row in table order |
| CartTable.Table.Select | src/App.js:27-34 | the call fails on a store error; otherwise it returns exactly the matching rows |
| CartTable.Table.Update | src/App.js:41-48 | on success the table becomes the update of the old rows and the id counter does not move; a failure changes nothing; ids stay valid |
| CartTable.Table.Insert | src/App.js:52-58 | on success one row with the next id the store hands out is appended and the counter advances; a failure changes nothing |
| CartTable.Table.Delete | src/components/Cart.js:60-67 | on success the table keeps exactly the rows that do not match the filter; a failure changes nothing |
| Cart.Join | src/components/Cart.js:25-35 | the join succeeds exactly when every row's product is found. It then has one line item per row, in row order, with `cart_id` and `quantity` from the row and `product_id`, `name` and `price` from the first product with that id |
| Cart.Detail | src/components/Cart.js:28-34 | the line item takes `cart_id` and `quantity` from the row and `product_id`, `name` and `price` from the product, so its subtotal is the product price times the row quantity |
| Cart.Without | src/components/Cart.js:70 | the items kept are exactly those whose key field (`cart_id` here, `product_id` in the root component's filter at src/App.js:75) differs from the value |
| Cart.WithCartId | src/components/Cart.js:74 | the items removed are exactly those whose `cart_id` equals the removed id |
| Cart.Total | src/components/Cart.js:40-43 | left fold of price × quantity over the items, 0 for no items, and never negative when no price or quantity is |
| Cart.TotalExcept | src/components/Cart.js:73-76 | the removal's reduce, where an item with the removed `cart_id` counts 0; when no item has that id it equals `Total` (TotalExceptIsRemainingTotal relates it to `Total` of the filtered list in general) |
| Cart.TotalAppend | src/components/Cart.js:40-43 | the reduce total of a concatenation is the sum of the totals |
| Cart.WithoutAppend | src/components/Cart.js:70 | the filter distributes over concatenation, so it keeps the original order |
| Cart.TotalExceptIsRemainingTotal | src/components/Cart.js:73-76 | the removal's own reduce, where a removed item counts 0, equals the total of the remaining items |
| Cart.TotalSplit | src/components/Cart.js:73-76 | the total is the total of the remaining items plus the total of the removed ones |
| Cart.WithoutAbsent | src/components/Cart.js:70 | filtering out a value that no item has leaves the list unchanged |
| Cart.CartView.constructor | src/components/Cart.js:8-10 | no items, total 0, loading |
| Cart.CartView.FetchCartItems | src/components/Cart.js:13-51 | on success with a complete join, items are the joined rows and total equals their sum; a store error or an unknown product leaves items and total unchanged; loading becomes false either way |
| Cart.CartView.RemoveFromCart | src/components/Cart.js:57-82 | on success the row with that id is deleted and the items with that `cart_id` go, in order. The total drops by exactly their price × quantity and still equals the sum of the remaining items. An error changes nothing. The store's id counter never moves |
| Cart.CartView.HandleCheckout | src/components/Cart.js:84-106 | on success the table is empty, items are empty and total is 0; on an error nothing changes; the store's id counter never moves |
| App.UpsertInsertsWhenAbsent | src/App.js:50-54 | when no row has the product, exactly one row `{freshId, product_id, quantity}` is appended and the old rows stay as they were |
| App.Upsert | src/App.js:36-60 | the table after a successful add-to-cart: when the select finds rows of the product, every such row takes the passed quantity; otherwise `Row(freshId, product_id, quantity)` is appended. At most one row is added, existing rows keep their position, id and product, and rows of other products are unchanged |
| App.UpsertReplacesWhenPresent | src/App.js:36-44 | when some row has the product, no row is added; every row of the product takes the passed quantity whatever it held before; all other rows are unchanged |
| App.UpsertKeepsOtherProducts | src/App.js:41-54 | for every other product, its rows are the same before and after, order included |
| App.UpsertEstablishes | src/App.js:36-60 | afterwards at least one row has the product and all its rows hold the passed quantity |
| App.UpsertIdempotent | src/App.js:36-60 | a second add-to-cart with the same arguments leaves the table as the first one left it |
| App.Storefront.constructor | src/App.js:21 | the local cart item list starts empty |
| App.Storefront.AddToCart | src/App.js:23-65 | succeeds exactly when neither the lookup nor the write fails, and the table then becomes the upsert of the old table; a failed lookup stops before any write; a failed write leaves the table unchanged. The store's id counter advances by one only when a new row is inserted |
| App.Storefront.RemoveFromCart | src/App.js:69-77 | on success the product's rows are deleted and the local items are filtered to other products, in order; on an error neither changes; the store's id counter never moves |
| ProductList.ZeroQuantities | src/components/ProductList.js:16-19 | the keys are exactly the product ids, and every counter is 0 |
| ProductList.Overlay | src/components/ProductList.js:29-33 | applying the cart rows never adds or drops a key; rows of unknown products are ignored |
| ProductList.InitialQuantities | src/components/ProductList.js:16-33 | the two `forEach` loops as one map: the zeroed catalog counters overlaid with the cart rows in fetch order; its keys are exactly the catalog ids |
| ProductList.OverlayUntouched | src/components/ProductList.js:29-33 | a counter that no row names keeps its value |
| ProductList.OverlayLastWins | src/components/ProductList.js:29-33 | among rows that share a product id, the last one in fetch order sets that product's counter |
| ProductList.InitialQuantitiesSpec | src/components/ProductList.js:16-33 | after seeding, the keys are exactly the catalog's ids. A product that no row names has 0; otherwise it has the quantity of its last row |
| ProductList.Increased | src/components/ProductList.js:48-53 | the counter goes up by exactly 1; keys and all other counters are unchanged |
| ProductList.Decreased | src/components/ProductList.js:55-60 | the counter becomes max(old − 1, 0) and is never negative; keys and all other counters are unchanged |
| ProductList.DecreaseAtZero | src/components/ProductList.js:58 | decreasing a counter that is at 0 is a no-op |
| ProductList.DecreaseUndoesIncrease | src/components/ProductList.js:48-60 | decrease is the inverse of increase on a non-negative counter |
| ProductList.Step | src/components/ProductList.js:48-60 | one button click keeps the key set |
| ProductList.Replay | src/components/ProductList.js:48-60 | any sequence of clicks keeps the key set |
| ProductList.ReplayKeepsNonNegative | src/components/ProductList.js:58 | starting from non-negative counters, no sequence of increases and decreases makes a counter negative |
| ProductList.ProductListView.constructor | src/components/ProductList.js:9-10 | no counters yet, loading |
| ProductList.ProductListView.FetchProductsAndCart | src/components/ProductList.js:13-41 | on success the counters are the seeded map from the catalog and all cart rows, and loading ends; on a store error the counters are not set and the view stays loading |
| ProductList.ProductListView.HandleIncrease | src/components/ProductList.js:48-53 | the counters become the increased map; nothing else changes |
| ProductList.ProductListView.HandleDecrease | src/components/ProductList.js:55-60 | the counters become the decreased map; nothing else changes |
| ProductList.ProductListView.HandleAddToCart | src/components/ProductList.js:62-70 | add-to-cart is requested exactly when the product has a positive counter, and then the table becomes the upsert with that counter; otherwise the table and the id counter are untouched. On a successful request the id counter advances by one exactly when a new row is inserted |

## Left out

- Rendering is not modelled: JSX, antd components, routing, the menu, layout and image fallbacks.
- Messages are not modelled: success and warning toasts, `alert`, `console.error`. The loading spinner is modelled only as the `loading` flag.
- The database client is not modelled. The hosted table is an in-memory row sequence, and each call's network outcome is the boolean `fault` parameter. A failed write is taken to change nothing.
- Asynchrony is not modelled. Each handler is one sequential step, so React's batched state updates and stale closures are not captured. In `RemoveFromCart` the total is computed from the items as they were when the handler started, which is the same list the filter starts from.
- Prices are integer cents, not floating-point numbers, and `toFixed` display formatting is not modelled.
- The root component's empty `checkout` stub is not modelled because it does nothing.
- The cart view's unused `cartItems`, `removeFromCart` and `checkout` props are not modelled, nor is the catalog view's unused `cart` prop. The root component's `cartItems` is kept as a field, but nothing in the source ever fills it.
- CartTable.Table: the source has no schema for the `cart` table. The model assumes that the store gives every row an `id` that is positive, unique and below the next id it will hand out, and `Table.Valid()` states this. `HandleCheckout`'s promise that the table ends up empty depends on this assumption. In the source, a row with `id <= 0` would survive checkout. The model cannot represent such a row.
- ProductList.ProductListView.HandleIncrease: requires the product to have a counter. In the source the buttons exist only for catalog products, and only after loading has seeded a counter for each of them. Increasing a missing key would give `NaN`, and the model does not represent that.
- ProductList.ProductListView.HandleDecrease: requires the product to have a counter, for the same reason as HandleIncrease.
- ProductList.ProductListView.HandleAddToCart: the result of the add-to-cart it starts is not reported back. The source does not wait for that call either.
