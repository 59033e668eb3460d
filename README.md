# GrocerDesk core in Dafny

GrocerDesk is a grocery back office with a point-of-sale page. This project
models its business rules: the Express controllers for products, categories,
customers (users), staff and sales; the inventory routes; and the cart of the
POS page.

The database is the class `Store.Db`. It has one field per table:
- products, categories, users and staff are maps keyed by uuid;
- sales is a map keyed by uuid;
- sale_items is a sequence of rows in insertion order.

`Db.Valid()` states the consistency rules that the handlers' guards keep:
- category names are distinct;
- customer emails that are set are distinct;
- staff emails are distinct;
- every product's category exists;
- every sale line refers to an existing sale and an existing product;
- every sale line is priced as quantity × captured price;
- every sale's total is the sum of its lines' subtotals.

Each request handler is a method that `modifies db`. It returns
`Response<T>`: either `Ok(value)` or `Err(status, reason)`, where the reason
is one case per message the handler sends. Every contract states the
following:
- exactly when each error is answered;
- that an error leaves the database untouched (`unchanged(db)`), which is how
  the rollback of a transaction appears here;
- the full new state of every table on success;
- that `Valid()` is preserved.

Money is integer cents. Identifiers that the handlers generate with uuidv4 are
parameters that must not already be in use. bcrypt is abstract: a computed hash
arrives as a parameter, and `bcrypt.compare` is a function parameter. The
preconditions are what the express-validator chains on the routes guarantee:
- backend/routes/sales.js:34-36;
- backend/routes/products.js:35-38;
- backend/routes/users.js:30-33;
- backend/routes/staff.js:27-30;
- backend/routes/categories.js:30.

Query results are modelled in two steps:
- A scan of a whole table (`Store.ScanTable`) returns rows in an order the store
  chooses.
- `WHERE` is a filter (`Listing.Where`) and `ORDER BY` is a sort by a total
  preorder (`Sorting.Sort`).

Listings are specified order-independently by `Listing.RowsWhere`: each entry
that matches is listed exactly once. Counts are the sizes of key sets
(`Listing.KeysWhere`).

Each step of the checkout and the refund is its own method:
- the checkout's validation pass (`SaleController.CheckLines`);
- the checkout's write loop (`SaleController.WriteLines` and
  `SaleController.WriteLine`);
- the refund's restock loop (`SaleController.RestoreStock`).

Each is proved against specification functions: `LinesTotal`, `SaleLines`,
`Withdrawals`, `Restocks`, and `ShiftAll` over `StockDelta` runs.

The inventory bulk update works the same way. Its loop (`Inventory.ApplyEntries`)
is proved equal to the fold `Inventory.Run` of the per-entry step
`Inventory.Step`.

The POS page keeps its cart and selected customer in React state. Each handler
builds a replacement value from `map`, `filter` and spread, so here each
handler is a function from one `Pos.PosState` to the next. `Pos.CartValid` is
the page's invariant:
- at most one line per product;
- every line's product is in the fetched catalog;
- every line's quantity is between 1 and that product's stock;
- every line carries that product's price.

## Model

| member | source | states |
|---|---|---|
| Stock.ParseOp | backend/controllers/productController.js:218-229 | exactly the names add, subtract and set are accepted; any other operation is refused |
| Stock.OpName | backend/controllers/productController.js:218-229 | every operation's name parses back to that operation |
| Stock.NewStock | backend/controllers/productController.js:218-227 | subtract never yields a negative stock and is exactly `current - n` whenever the result is positive; subtract never exceeds the old stock when both are non-negative; add of a non-negative amount never lowers the stock |
| Stock.AddExact | backend/controllers/productController.js:219-220 | add raises the stock by exactly the amount |
| Stock.SubtractExact | backend/controllers/productController.js:223 | the floor at zero applies exactly when `current - n` is negative |
| Stock.SubtractUndoesAdd | backend/controllers/productController.js:219-224 | subtracting what was just added restores a non-negative stock |
| Stock.SetOverrides | backend/controllers/productController.js:225-226 | set discards whatever level came before |
| Stock.ShiftAllAt | backend/controllers/saleController.js:183-186 | a run of `stock = stock + ?` updates moves each product's stock by the net amount aimed at it, in any order, and changes nothing else about the product |
| Stock.ShiftAllCancels | backend/controllers/saleController.js:230-234 | two runs whose net amounts cancel for every product restore every stock |
| Stock.ShiftAllKeepsReferences | backend/controllers/saleController.js:183-186 | stock updates keep every category reference and every sale-line product reference valid |
| Store.ItemsOfMembers | backend/controllers/saleController.js:224-227 | selecting a sale's lines yields exactly the stored lines of that sale |
| Store.ItemsNotOfMembers | backend/controllers/saleController.js:238 | deleting a sale's lines leaves exactly the lines of other sales |
| Store.ItemsOfUnmentioned | backend/controllers/saleController.js:224-238 | a sale id no line mentions selects nothing and deletes nothing |
| Store.ScanTable | backend/routes/inventory.js:27-29 | a full scan lists every entry of the table exactly once |
| Sorting.Sort | backend/controllers/productController.js:262 | `ORDER BY` returns a permutation of its input, sorted by the key, and without duplicates when the input had none |
| Listing.Where | backend/routes/inventory.js:49-50 | a filter never lists more rows than its input |
| Listing.WhereMembers | backend/routes/inventory.js:49-50 | a filter keeps exactly the rows that match: everything it lists is an input row that matches, and every input row that matches is listed |
| Listing.WhereLists | backend/controllers/productController.js:261 | filtering a full scan lists each matching entry of the table exactly once |
| Listing.SortKeepsListing | backend/controllers/productController.js:261-262 | ordering a listing keeps it a listing of the same entries |
| Listing.SortKeepsRows | backend/routes/inventory.js:13-24 | ordering a full scan keeps it a full scan |
| Listing.ListingCount | backend/routes/inventory.js:125-126 | a listing's length is the number of matching entries, whatever order its rows come in |
| Listing.ScanCount | backend/routes/inventory.js:47 | a full scan has as many rows as the table has entries |
| Listing.WhereMonotone | backend/routes/inventory.js:49-50 | a stricter condition never lists more rows |
| Listing.WhereDisjoint | backend/routes/inventory.js:102-117 | conditions that never hold together list disjoint rows |
| CatalogStats.Threshold | backend/controllers/productController.js:249 | the threshold is the query parameter, or 10 when it is absent |
| CatalogStats.StatsOrdered | backend/routes/inventory.js:47-50 | out-of-stock count ≤ low-stock count ≤ product count |
| CatalogStats.StatsCountTable | backend/routes/inventory.js:47-50 | the overview counts are the table size and the numbers of products with stock ≤ 10 and with stock = 0 |
| CatalogStats.CountWhere | backend/routes/inventory.js:49-50 | filtering a full scan yields as many rows as the table has matching entries |
| CatalogStats.CategoryStatCounts | backend/routes/inventory.js:54-63 | a category's product count is the number of products carrying its id; a category without products has total stock 0; its members are exactly those products |
| ProductController.Patched | backend/controllers/productController.js:118-120 | the update's new row, a function without its own contract: EmptyPatchKeepsProduct, PatchIdempotent and PatchKeepsCategorySet state what it promises |
| ProductController.EmptyPatchKeepsProduct | backend/controllers/productController.js:118-120 | an update that supplies no field leaves the product as it was |
| ProductController.PatchIdempotent | backend/controllers/productController.js:118-120 | repeating an update changes nothing more |
| ProductController.PatchKeepsCategorySet | backend/controllers/productController.js:118-120 | an update can move a product to another category but never detach it |
| ProductController.CreateProduct | backend/controllers/productController.js:56-90 | an unknown category gives BadRequest with nothing changed; otherwise exactly one product is added, with stock 0 when none is supplied |
| ProductController.UpdateProduct | backend/controllers/productController.js:93-128 | a missing product gives NotFound and an unknown category gives BadRequest, both with nothing changed; otherwise only that product changes, with omitted fields kept |
| ProductController.DeleteProduct | backend/controllers/productController.js:131-157 | a missing product gives NotFound; a product with sales history is kept (BadRequest); otherwise only that product is removed |
| ProductController.UpdateStock | backend/controllers/productController.js:199-244 | a missing product gives NotFound and an unknown operation gives BadRequest, both with nothing changed; otherwise only that product's stock becomes `NewStock`, and the old and new stock are reported |
| ProductController.GetLowStockProducts | backend/controllers/productController.js:247-270 | lists exactly the products with stock ≤ threshold, each once, by ascending stock |
| SaleController.LineFailure | backend/controllers/saleController.js:148-154 | a missing product gives the not-found error carrying the requested id; a present product gives the insufficient-stock error carrying that product's name and its stock, which is below the requested quantity |
| SaleController.FirstUnavailable | backend/controllers/saleController.js:142-155 | the validation pass stops at an unavailable line, and every line before it is available |
| SaleController.CheckLines | backend/controllers/saleController.js:142-158 | the first pass succeeds exactly when every line is available, with total Σ price × quantity; otherwise it reports the first failing line |
| SaleController.LinesTotal | backend/controllers/saleController.js:142-158 | the first pass's total, a function without its own contract: CheckLines and SaleLinesConserve state what it promises |
| SaleController.Withdrawals | backend/controllers/saleController.js:183-186 | one decrement per request line; WithdrawalsNet states its net effect on each product |
| SaleController.SaleLines | backend/controllers/saleController.js:167-180 | one stored row per request line; SaleLinesAt and SaleLinesConserve state each row and their sum |
| SaleController.Restocks | backend/controllers/saleController.js:230-234 | one increment per stored line; RestocksCancelWithdrawals states that it undoes the checkout's decrements |
| SaleController.WithdrawalsNet | backend/controllers/saleController.js:183-186 | the decrements take from each product exactly the total quantity the request asks of it |
| SaleController.SaleLinesAt | backend/controllers/saleController.js:167-180 | the k-th inserted row records the k-th request line at the captured price |
| SaleController.SaleLinesConserve | backend/controllers/saleController.js:156-179 | the sum of the stored subtotals equals the total computed by the first pass |
| SaleController.RestocksCancelWithdrawals | backend/controllers/saleController.js:230-234 | refunding a checkout's stored lines gives each product back exactly what the checkout took |
| SaleController.CheckoutKeepsStockNonNegative | backend/controllers/saleController.js:142-186 | with distinct product ids, a successful checkout keeps every non-negative stock non-negative |
| SaleController.OversellWhenProductRepeats | backend/controllers/saleController.js:152-186 | a product on two lines, each within stock, passes the check and ends below zero |
| SaleController.CheckoutKeepsConsistent | backend/controllers/saleController.js:161-187 | a checkout keeps the whole store consistent |
| SaleController.CheckoutLinesWellFormed | backend/controllers/saleController.js:173-180 | the new lines refer to the new sale and to existing products, and are priced |
| SaleController.CheckoutBalances | backend/controllers/saleController.js:161-180 | after a checkout every sale, the new one included, totals its lines |
| SaleController.NewSaleSelectsItsLines | backend/controllers/saleController.js:177-180 | selecting the new sale's id afterwards yields exactly the lines just inserted |
| SaleController.OtherSaleKeepsItsLines | backend/controllers/saleController.js:177-180 | inserting a sale's lines leaves every other sale's lines as they were |
| SaleController.ItemsOfAfterRemoval | backend/controllers/saleController.js:238 | deleting a sale's lines leaves every other sale's lines as they were |
| SaleController.RefundKeepsConsistent | backend/controllers/saleController.js:224-241 | a refund keeps the whole store consistent |
| SaleController.RefundLinesWellFormed | backend/controllers/saleController.js:238-241 | the remaining lines refer to remaining sales and existing products, and are priced |
| SaleController.RefundUndoesCheckout | backend/controllers/saleController.js:161-241 | refunding a sale just checked out restores the products, sales and sale_items tables exactly |
| SaleController.CreateSale | backend/controllers/saleController.js:111-206 | no items gives BadRequest; an unknown customer gives BadRequest; an unavailable line gives an error for the first such line; every error leaves all tables unchanged; on success the sale and one line per item are added, and each stock drops by the run of decrements |
| SaleController.WriteLines | backend/controllers/saleController.js:167-187 | the write loop appends exactly `SaleLines` and applies exactly `Withdrawals` |
| SaleController.WriteLine | backend/controllers/saleController.js:168-186 | one line is inserted at the product's current price, and that stock drops by the quantity |
| SaleController.DeleteSale | backend/controllers/saleController.js:209-256 | an unknown sale gives NotFound with nothing changed; otherwise each of its lines is restocked and the lines and the sale are removed |
| SaleController.RestoreStock | backend/controllers/saleController.js:230-235 | the refund loop adds each line's quantity back to its product, in order |
| SaleController.CheckoutThenRefund | backend/controllers/saleController.js:111-256 | a checkout followed by a refund of its sale leaves the tables as before; a second refund is NotFound |
| SaleController.PageCount | backend/controllers/saleController.js:53 | the page count is the fewest pages of `limit` rows that hold all rows |
| SaleController.PageInRange | backend/controllers/saleController.js:9 | a page number is at most the page count exactly when its offset `(page-1)*limit` falls inside the rows |
| Inventory.EntryOp | backend/routes/inventory.js:186-212 | a missing or unrecognised operation acts as set; add and subtract act as named |
| Inventory.Step | backend/routes/inventory.js:193-215 | an iteration adds or removes no product |
| Inventory.Run | backend/routes/inventory.js:185-223 | the loop adds or removes no product |
| Inventory.Applying | backend/routes/inventory.js:188-196 | the applied entries are exactly those with a product id, a stock value and an existing product |
| Inventory.RunAppend | backend/routes/inventory.js:185-223 | running two batches in a row is running their concatenation |
| Inventory.RunKeepsShape | backend/routes/inventory.js:214-215 | the loop changes nothing about a product but its stock |
| Inventory.RunCount | backend/routes/inventory.js:217-227 | one result per applied entry, appended in order |
| Inventory.RunResultsMatch | backend/routes/inventory.js:214-221 | the k-th new result reports the k-th applied entry: its product id, its operation name (set when none is given), and a new stock that is that operation applied to the result's old stock and the entry's amount |
| Inventory.RunUntouched | backend/routes/inventory.js:188-196 | a product that no entry names keeps its stock |
| Inventory.RunLogsChanges | backend/routes/inventory.js:198-222 | replaying the results rebuilds the final table, and each result's old stock is what the earlier entries left |
| Inventory.EntriesForOneProductAccumulate | backend/routes/inventory.js:198-215 | two add entries for one product accumulate: 5 + 3 + 4 = 12 |
| Inventory.ApplyEntries | backend/routes/inventory.js:185-223 | the loop's table and results are those of `Run` |
| Inventory.BulkUpdate | backend/routes/inventory.js:175-234 | a missing or empty `updates` gives BadRequest with nothing changed; otherwise the table is `Run`'s, and `updated` counts the applied entries |
| Inventory.ProductsByName | backend/routes/inventory.js:13-24 | the products query lists every product exactly once, ordered by name |
| Inventory.CategoriesByName | backend/routes/inventory.js:27-29 | the categories query lists every category exactly once, ordered by name |
| Inventory.CategoryFigures | backend/routes/inventory.js:54-66 | the k-th figure carries the k-th listed category's id and name, the number of products carrying that id, and the sum of their stock |
| Inventory.Overview | backend/routes/inventory.js:10-84 | products and categories are each listed once by name; the low-stock list holds exactly the products with stock ≤ 10, by stock; the statistics are the counts and stock sum with outOfStock ≤ lowStock ≤ totalProducts; each category's figures cover exactly its products |
| Inventory.Alerts | backend/routes/inventory.js:87-133 | low-stock holds exactly the products with 0 < stock ≤ threshold, by stock; out-of-stock holds exactly those with stock 0, by name; the counts are the list lengths; no product is in both |
| CategoryController.CreateCategory | backend/controllers/categoryController.js:39-71 | an existing name gives BadRequest with nothing changed; otherwise exactly one category is added |
| CategoryController.UpdateCategory | backend/controllers/categoryController.js:74-107 | a missing id gives NotFound; another category's name gives BadRequest; keeping the same name succeeds; otherwise only the name changes |
| CategoryController.DeleteCategory | backend/controllers/categoryController.js:110-136 | a missing id gives NotFound; a category that products refer to is kept (BadRequest); otherwise only it is removed |
| CategoryController.StatOfScanDescribes | backend/controllers/categoryController.js:141-150 | the figures from a scan of the products are the category's count and stock sum |
| CategoryController.GroupByCategory | backend/controllers/categoryController.js:141-150 | the grouped join yields one row per category, each describing it |
| CategoryController.GetCategoryStats | backend/controllers/categoryController.js:139-158 | one row per category, each with its name, product count and summed stock (0 without products), by descending product count |
| UserController.Merged | backend/controllers/userController.js:103-107 | the update's new row, a function without its own contract: MergeNeverClears states what it promises |
| UserController.MergeNeverClears | backend/controllers/userController.js:103-107 | an update never clears an email, phone or address that is set |
| UserController.CreateUser | backend/controllers/userController.js:39-73 | a given email already in use gives BadRequest with nothing changed; without an email there is no check; otherwise exactly one user is added |
| UserController.UpdateUser | backend/controllers/userController.js:76-114 | a missing user gives NotFound; another user's email gives BadRequest; keeping one's own email succeeds; otherwise omitted fields are kept |
| UserController.DeleteUser | backend/controllers/userController.js:117-135 | a missing user gives NotFound; otherwise only that user is removed |
| UserController.ContainsPrefix | backend/controllers/userController.js:149-151 | a string containing a longer query contains its prefix |
| UserController.SearchNarrows | backend/controllers/userController.js:149-151 | typing more of the query never finds more customers |
| UserController.SearchUsers | backend/controllers/userController.js:138-159 | an empty query gives BadRequest; otherwise exactly the users whose name, email or phone contains the query, each once, by name |
| StaffController.RoleOrDefault | backend/controllers/staffController.js:61 | the role defaults to cashier |
| StaffController.Amended | backend/controllers/staffController.js:107-111 | the update's new row, a function without its own contract: AmendKeepsPassword states what it promises |
| StaffController.AmendKeepsPassword | backend/controllers/staffController.js:107-111 | an update never touches the password hash, and an empty update changes nothing |
| StaffController.CreateStaff | backend/controllers/staffController.js:40-77 | an email in use gives BadRequest with nothing changed; otherwise one member is added with the given hash and the role defaulted to cashier |
| StaffController.UpdateStaff | backend/controllers/staffController.js:80-118 | a missing id gives NotFound; another member's email gives BadRequest; keeping one's own email succeeds; otherwise omitted fields are kept |
| StaffController.DeleteStaff | backend/controllers/staffController.js:121-139 | a missing id gives NotFound; otherwise only that member is removed |
| StaffController.ChangePassword | backend/controllers/staffController.js:142-176 | a missing id gives NotFound; a wrong current password gives BadRequest with the hash unchanged; otherwise only that member's hash is replaced |
| Pos.FindProduct | frontend/src/pages/POS.jsx:127 | the lookup finds a product with that id, or none exists |
| Pos.FindLine | frontend/src/pages/POS.jsx:94 | the lookup finds a cart line with that id, or none exists |
| Pos.FindProductOf | frontend/src/pages/POS.jsx:127 | in a catalog without repeated ids, the lookup finds the product itself |
| Pos.FindLineAt | frontend/src/pages/POS.jsx:94 | in a cart without repeated products, the lookup finds the line itself |
| Pos.AddToCart | frontend/src/pages/POS.jsx:93-119 | the add handler, a function without its own contract: AddToCartEffect, AddExisting, AddNew and AddToCartKeepsValid state what it does |
| Pos.UpdateQuantity | frontend/src/pages/POS.jsx:121-138 | the quantity handler, a function without its own contract: UpdateQuantityEffect and UpdateQuantityKeepsValid state what it does |
| Pos.RemoveFromCart | frontend/src/pages/POS.jsx:140-142 | the remove handler, a function without its own contract: RemoveFromCartEffect states what it does |
| Pos.GetTotal | frontend/src/pages/POS.jsx:149-151 | the displayed total, a function without its own contract: TotalNonNegative, OneMoreTotal and CheckoutTotalAgrees state what it promises |
| Pos.AfterCheckout | frontend/src/pages/POS.jsx:169-171 | the state after the server answers, a function without its own contract: CheckoutNotRepeated states what it does |
| Pos.AddToCartKeepsValid | frontend/src/pages/POS.jsx:93-119 | adding a catalog product keeps one line per product, each within stock |
| Pos.OneMoreKeepsValid | frontend/src/pages/POS.jsx:96-105 | one more unit on a line below its stock keeps the cart valid |
| Pos.AddToCartEffect | frontend/src/pages/POS.jsx:93-119 | the product's quantity rises by 1 exactly when it is below the stock; the total rises by its price; no other product changes |
| Pos.AddExisting | frontend/src/pages/POS.jsx:94-105 | for a product already in the cart: +1 unless its quantity has reached the stock, otherwise nothing changes |
| Pos.AddNew | frontend/src/pages/POS.jsx:106-117 | for a product not in the cart: a line of quantity 1 when stock > 0, otherwise nothing changes |
| Pos.OneMoreEffect | frontend/src/pages/POS.jsx:101-105 | `quantity + 1` on one line raises its product's quantity by 1, the total by its price, and touches no other product |
| Pos.OneMoreTotal | frontend/src/pages/POS.jsx:149-151 | one more unit on a line raises the total by that line's price |
| Pos.BumpOther | frontend/src/pages/POS.jsx:133-137 | changing one product's line keeps every other product's quantity |
| Pos.UpdateQuantityKeepsValid | frontend/src/pages/POS.jsx:121-138 | setting a quantity keeps the cart valid |
| Pos.UpdateQuantityEffect | frontend/src/pages/POS.jsx:121-138 | ≤ 0 removes the product; above its stock changes nothing; otherwise its line takes the quantity; other products never change |
| Pos.SetToEffect | frontend/src/pages/POS.jsx:133-137 | the product's line takes the new quantity, and the other products stay |
| Pos.SetToAt | frontend/src/pages/POS.jsx:133-137 | the changed line holds exactly the new quantity |
| Pos.WithoutMembers | frontend/src/pages/POS.jsx:141 | removal keeps exactly the lines of other products |
| Pos.WithoutOther | frontend/src/pages/POS.jsx:141 | removal keeps every other product's quantity |
| Pos.WithoutAt | frontend/src/pages/POS.jsx:141 | with one line per product, removal cuts out exactly that line and keeps the order |
| Pos.WithoutAbsent | frontend/src/pages/POS.jsx:141 | removing a product not in the cart changes nothing |
| Pos.WithoutKeepsDistinct | frontend/src/pages/POS.jsx:141 | removal keeps one line per product |
| Pos.RemoveFromCartEffect | frontend/src/pages/POS.jsx:140-142 | no line of the product is left, the other lines stay in order, and the cart stays valid |
| Pos.ClearCart | frontend/src/pages/POS.jsx:144-147 | the cart is empty, totals 0, is valid, and the customer is walk-in |
| Pos.TotalNonNegative | frontend/src/pages/POS.jsx:149-151 | the total of a cart of positive quantities is never negative |
| Pos.Payload | frontend/src/pages/POS.jsx:163-166 | one posted item per cart line |
| Pos.PayloadAt | frontend/src/pages/POS.jsx:163-166 | the i-th posted item is the i-th line's product id and quantity |
| Pos.CheckoutRequest | frontend/src/pages/POS.jsx:153-167 | nothing is posted for an empty cart; otherwise one item per line, with a null customer exactly for a walk-in sale |
| Pos.CheckoutPayloadSafe | frontend/src/pages/POS.jsx:161-167 | a valid cart posts distinct products with quantities ≥ 1, so the server's oversell cannot come from this page |
| Pos.CheckoutPassesStockCheck | frontend/src/pages/POS.jsx:161-169 | when the server's stock matches the fetched one, every posted line passes the server's stock check |
| Pos.CheckoutTotalAgrees | frontend/src/pages/POS.jsx:149-169 | when the server's prices match the cart's, the server charges exactly the total the page shows |
| Pos.CheckoutNotRepeated | frontend/src/pages/POS.jsx:169-171 | after an accepted sale the cart is cleared and nothing is posted again; a refused sale keeps the cart |

## Left out

- SQL text, the database driver and Express request/response handling are replaced by map and sequence operations and the `Response` datatype.
- Server errors other than the checkout's line failures (a driver exception answered with status 500) are not modelled.
- Transactions are modelled as atomicity: a failed checkout or refund leaves every table unchanged. Concurrent requests and isolation are left out.
- Timestamps and everything that depends on them are left out: the sales analytics, the recent-sales listing, the date filter of the sales listing, and the inventory movements route. They rely on the database's clock and date arithmetic.
- Read-only handlers that are not part of the rules here are left out: getAll*/get*ById, searchProducts, getSaleById and getRecentSales.
- Floating-point money is left out: `totalValue` in the inventory overview, `avg_price` in the category statistics, and price formatting. Prices are integer cents.
- MySQL string semantics are left out. Name and email equality are exact, without the case-insensitive collation. `ORDER BY name` is character-wise lexicographic. `%` and `_` in a search query match themselves, not as LIKE wildcards.
- The joined `category_name` column of the product listings is not modelled.
- SaleController.CreateSale: the generated sale-item ids are not required to be fresh or distinct. No consistency rule depends on them.
- Inventory.BulkEntry: a `stock` value that is not a number is left out. JavaScript would concatenate or coerce it; here `stock` is an integer.
- ProductController.UpdateStock: the amount is a non-negative integer. The route's `isInt({ min: 0 })` check also lets a numeric string such as "5" through, and then `currentStock + stock` in backend/controllers/productController.js:220 concatenates strings; that case is left out.
- Inventory.OperationName: an explicit `"operation": null` is not distinguished from a missing key. The source applies set to it but reports `operation: null` in the result, while the model reports "set".
- Stock.NewStock: "subtract never exceeds the old stock" is stated only for a non-negative old stock. An oversold product can have a negative stock, and then `max(0, …)` exceeds it.
- SaleController.PageCount: page and limit are taken as integers with limit ≥ 1. Query-string parsing, a limit of 0 and non-numeric values are left out.
- The driver's treatment of `undefined` in the product and staff updates is not modelled; an omitted field keeps its value.
- Pos.UpdateQuantity: when the product is not in the fetched catalog, the page throws before it sets the cart. The model therefore leaves the state unchanged.
- The POS page's snackbars, loading flag, product search box and customer list are not modelled. Fetching products over HTTP is not modelled: the catalog is part of the state.
- Authentication, JWT and signup are left out. Hashing with bcrypt is a parameter.
