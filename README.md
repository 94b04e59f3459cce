# Point-of-sale core, modelled in Dafny

This project models the core of a single-screen point-of-sale web app: a
catalogue of products with stock, an open cart, and a history of completed
sales. It covers the following parts of the app:

- Cart transitions: add a product, add or remove one unit, drop a line, clear
  the cart, quick-add by SKU or id.
- Order totals: item count, subtotal, capped discount, tax, net.
- Checkout: stock is taken out and a sale record is written.
- CSV export of the sales history.
- The payments history view: filtering by payment mode and time window, and
  pagination.
- The analytics figures: revenue per payment mode and per day, a three-day
  moving average, and the seven best-selling item names.
- Low-stock and out-of-stock alert lists.

All of this lives in `src/App.jsx`.

The app keeps three collections as state. The model keeps them in the
`PosState.Store` class, whose fields are `products`, `cart` and `sales`. Each
button of the screen is a method on that class. Each method is proved against
a pure function on sequences: the updater that the app hands to its state
setter. Every transition preserves the cart invariant `Valid()`:

- every line has a positive quantity;
- there is at most one line per product id;
- no product is reserved beyond its stock.

The derived figures are pure functions. Lemmas beside them relate each one to
an independent definition: a sum taken sale by sale, a reader for the CSV
output, a partition of the revenue, and the sorted-and-permuted order of the
ranking.

Modules, one file each:

- `Seqs` (`seqs.dfy`): the JavaScript array operations used throughout, namely `findIndex`, `filter` and `slice`, plus order-preserving subsequences.
- `PosTypes` (`pos_types.dfy`): products, cart lines, sale items and sales; a sale's value is `net ?? amount ?? 0`.
- `Cart` (`cart.dfy`): reserved quantities, `remainingStock`, `cartQtyById`, the cart updaters and the stock-alert lists.
- `Pricing` (`pricing.dfy`): `totals`.
- `CheckoutRules` (`checkout.dfy`): the stock update and the sale record written at checkout.
- `PosState` (`store.dfy`): the `Store` class and its transitions, and `String.prototype.trim`.
- `Csv` (`csv.dfy`): `buildCSVString`, and a reader used to prove that the export loses nothing.
- `History` (`history.dfy`): `filteredSales`, `totalPages` and `pageSales`.
- `Analytics` (`analytics.dfy`): `payModeAgg`, `salesByDay` and `movingAvg`.
- `ProductStats` (`product_stats.dfy`): `productAggMap` and `topProducts`.

Money is modelled as `real`. The value a sale contributes is `net`, else
`amount`, else 0.

The app parses and formats dates and numbers itself. The model takes these
conversions as parameters:

- `instant` parses a stored time stamp to milliseconds, or `None` when the
  text does not parse.
- `dayKey` maps a time stamp to its calendar day.
- `num` converts a number to text.

The discount is capped only from above, by `Math.min(discount, subTotal)` at
`src/App.jsx:106`. A negative discount is not clamped: it is counted as a
negative `disc`, so the taxable amount becomes larger than the subtotal, and
so does the net. `Pricing.ComputeTotals` states this behaviour.

## Model

| member | source | states |
|---|---|---|
| Seqs.FindIndex | src/App.jsx:124 | `findIndex`: the result is the first index whose element satisfies the predicate; `None` (the -1 of JavaScript) exactly when no element does |
| Seqs.Filter | src/App.jsx:127 | `filter`: the result keeps exactly the elements that satisfy the predicate, and is no longer than the input |
| Seqs.FilterCount | src/App.jsx:127 | `filter` keeps each element that satisfies the predicate as many times as it occurs in the input, and no occurrence of any other |
| Seqs.FilterIsSubsequence | src/App.jsx:232 | a filtered list is an order-preserving subsequence of its input |
| Seqs.Slice | src/App.jsx:241 | `slice(start, end)`: at most `end - start` elements; for `0 <= start`, the element at position k is the element at `start + k`; it is exactly `s[start..end]` when both bounds are in range, and for `0 <= start <= end` it is the slice between the two bounds clamped to the length |
| Cart.CartQtyById | src/App.jsx:89 | the map built line by line has a key for exactly the ids that have a line, and each id maps to the sum of that id's line quantities (absent ids count as 0) |
| Cart.RemainingStock | src/App.jsx:90 | the result is never negative; it is positive exactly when the cart reserves less than the stock of the first catalogue product with that id; in that case reserved plus remaining equals stock |
| Cart.UnknownProductHasNoStock | src/App.jsx:90 | an id missing from the catalogue has no remaining stock (`p?.stock \|\| 0`) |
| Cart.AddLine | src/App.jsx:124 | for a product already in the cart, ids, names and captured prices are unchanged; otherwise a line of one unit at the current price is appended; positive quantities and one line per id are kept |
| Cart.AddLineQuantity | src/App.jsx:124 | adding raises the product's reserved quantity and the item count by one, and leaves every other product's reservation alone |
| Cart.AddLineKeepsOthers | src/App.jsx:124 | adding leaves the lines of the other products as they were, in order |
| Cart.CartAfterAdd | src/App.jsx:124 | `addToCart` leaves the cart unchanged when nothing of the product is left, and otherwise adds one unit; it preserves the cart invariant, so the cart never reserves beyond stock |
| Cart.IncLines | src/App.jsx:125 | every line for the id gains one unit; all other lines are unchanged |
| Cart.IncLinesQuantity | src/App.jsx:125 | with one line per id, `inc` raises that id's reserved quantity and the item count by one when the id has a line, and changes nothing else |
| Cart.IncLinesAbsent | src/App.jsx:125 | `inc` of an id without a line leaves the cart unchanged |
| Cart.IncLinesKeepsOthers | src/App.jsx:125 | `inc` leaves the lines of the other products as they were |
| Cart.CartAfterInc | src/App.jsx:125 | `inc` leaves the cart unchanged when nothing is left to sell or there is no line; otherwise every line for the id gains one unit; the cart invariant is preserved |
| Cart.DecLines | src/App.jsx:126 | `dec` never makes the cart longer |
| Cart.DecLinesAt | src/App.jsx:126 | with one line per id, `dec` changes only the line for the id, in its place: it keeps its name and captured price and loses one unit when it had at least 2, and is removed otherwise |
| Cart.DecLinesSplit | src/App.jsx:126 | with one line per id, `dec` copies every line before and after the one for the id |
| Cart.DecLinesAbsent | src/App.jsx:126 | `dec` of an id without a line leaves the cart unchanged |
| Cart.DecLinesKeepsOthers | src/App.jsx:126 | `dec` leaves the lines of the other products as they were |
| Cart.DecLinesShape | src/App.jsx:126 | after `dec` every line still has a positive quantity and belongs to a product that had a line before; one line per id is kept |
| Cart.DecLinesQuantity | src/App.jsx:126 | with positive quantities and one line per id, `dec` lowers the id's reserved quantity and the item count by exactly one when the id has a line, and changes nothing else |
| Cart.DecLinesPreservesInvariant | src/App.jsx:126 | `dec` preserves the cart invariant |
| Cart.DecLinesDropsEmptied | src/App.jsx:126 | the line for the id is still there after `dec` exactly when its quantity was at least 2 |
| Cart.RemoveLines | src/App.jsx:127 | after `removeLine` no line for the id is left |
| Cart.RemoveLinesQuantity | src/App.jsx:127 | `removeLine` sets the id's reserved quantity to 0 and keeps every other product's |
| Cart.RemoveLinesPreservesInvariant | src/App.jsx:127 | `removeLine` preserves the cart invariant |
| Cart.OutOfStockItems | src/App.jsx:121 | exactly the catalogue products with no remaining stock, in catalogue order |
| Cart.LowStockItems | src/App.jsx:120 | exactly the catalogue products whose remaining stock is positive and at most the threshold, in catalogue order |
| Cart.StockAlertsPartition | src/App.jsx:120-121 | no product is on both alert lists; a product on neither has more than the threshold left |
| Pricing.ComputeTotals | src/App.jsx:103-110 | items and subtotal are the cart's sums; the discount is the given one when it does not exceed the subtotal, else the subtotal; tax is the rate times the discounted subtotal; net is the discounted subtotal plus tax, and is at least the discounted subtotal, which is at least zero, for a non-negative rate |
| Pricing.TotalsExample | src/App.jsx:103-110 | two units at 50 with no discount and 5% tax give subtotal 100, tax 5 and net 105 |
| CheckoutRules.Restock | src/App.jsx:206 | checkout changes only the stock; products without a line are untouched; with one line per id, a product's stock drops by its reserved quantity, floored at zero |
| CheckoutRules.RestockExact | src/App.jsx:206 | under the cart invariant and distinct product ids, each stock drops by exactly its reserved quantity: the floor at zero never applies |
| CheckoutRules.SaleItemsAddUp | src/App.jsx:207 | the items copied into a sale add up to the cart's item count and subtotal |
| CheckoutRules.MakeSale | src/App.jsx:207 | the sale carries the given id, time and mode and a copy of every cart line; its value is the net total, which it also records as `amount` |
| CheckoutRules.SaleRecordConsistent | src/App.jsx:207 | a recorded sale's items reproduce its subtotal and item count; its discount is the requested one capped at the subtotal; it records the tax rate, and its tax is that rate applied to subtotal minus discount; its net, also recorded as `amount`, is subtotal minus discount plus tax, and it is not negative for a non-negative tax rate |
| PosState.Trim | src/App.jsx:144 | `trim` gives the empty string exactly when the code is all white space; otherwise it neither starts nor ends with white space; it is one stretch of the code with only white space before and after it |
| PosState.TrimmedStretch | src/App.jsx:144 | dropping the white space at the front and then at the back leaves one contiguous stretch of the code, preceded and followed only by white space |
| PosState.Store.constructor | src/App.jsx:56-58 | the store starts from the given catalogue and history with an empty cart, which satisfies the invariant |
| PosState.Store.AddToCart | src/App.jsx:124 | the cart becomes `CartAfterAdd` of the old state, the catalogue and history are unchanged, and the invariant is kept |
| PosState.Store.Inc | src/App.jsx:125 | the cart becomes `CartAfterInc` of the old state, the catalogue and history are unchanged, and the invariant is kept |
| PosState.Store.Dec | src/App.jsx:126 | the cart becomes `DecLines` of the old cart, the catalogue and history are unchanged, and the invariant is kept |
| PosState.Store.RemoveLine | src/App.jsx:127 | the cart becomes `RemoveLines` of the old cart, the catalogue and history are unchanged, and the invariant is kept |
| PosState.Store.ClearCart | src/App.jsx:128 | the cart becomes empty; the catalogue and history are unchanged |
| PosState.Store.QuickAdd | src/App.jsx:144 | a blank code, or one that matches no product's SKU or id, leaves the cart unchanged; otherwise the first matching product is added as `addToCart` adds it; the invariant is kept |
| PosState.Store.Checkout | src/App.jsx:201-208 | with an empty cart or a checkout in progress nothing changes and no sale is made; otherwise stock is taken out, the sale record is put at the head of the history, the cart is emptied, and the invariant is kept |
| Csv.SaleFields | src/App.jsx:185-186 | a sale exports nine values in header order: its id, time and mode; the text of its subtotal, discount, tax rate and tax, each empty when absent; the text of `net`, else of `amount`, else empty; and the items summary |
| Csv.BuildCsvString | src/App.jsx:181-190 | the lines collected one sale at a time, joined by line feeds, form the header line followed by one quoted record per sale |
| Csv.ReadQuotedEscape | src/App.jsx:187 | un-doubling a field whose quotes were doubled recovers the original text, and stops at its closing quote |
| Csv.ReadFieldsRecord | src/App.jsx:187 | a record of quoted fields joined by commas reads back as exactly those fields |
| Csv.ReadRecordsJoin | src/App.jsx:189 | records joined by line feeds read back as exactly those records, in order |
| Csv.CsvRoundTrip | src/App.jsx:181-190 | the export is the fixed header alone when there are no sales; otherwise the header, a line feed, and a body from which each sale's nine fields read back verbatim, in order |
| History.FilteredSales | src/App.jsx:232-238 | `filteredSales` is an order-preserving subsequence of the sales; it keeps exactly the sales that pass the mode filter and the inclusive time window; every kept sale has the chosen mode (unless the filter is ALL); every kept sale whose time parses lies inside the window, and a sale whose time does not parse is not excluded by the window |
| History.TotalPages | src/App.jsx:240 | at least one page, and exactly one when there are no sales; enough pages to hold every sale, and not one page more than needed |
| History.PageSales | src/App.jsx:241 | a page holds at most `pageSize` sales; its k-th sale is sale `(page-1)*pageSize + k`; every page that lies inside the list is full |
| History.PageSalesClamped | src/App.jsx:241 | page `page` is the part of the list between `(page-1)*pageSize` and `page*pageSize`, each capped at the length, so the last page may be partial and a page past the end is empty |
| History.PagesCoverAll | src/App.jsx:240-241 | pages 1 to `totalPages`, one after the other, give back the filtered list exactly |
| Analytics.FilterTotal | src/App.jsx:247 | summing the filtered sales equals the sale-by-sale total of the sales the filter keeps |
| Analytics.GroupTotalsAt | src/App.jsx:247-249 | each group figure equals the sale-by-sale total of the sales with that key |
| Analytics.GroupTotalsPartition | src/App.jsx:247-249 | with distinct keys, the group figures plus the total of the sales with no listed key make up all revenue |
| Analytics.PayModeAgg | src/App.jsx:249 | four entries, CASH, UPI, CARD and CREDIT in that order; each entry's value is the total of the sales paid that way |
| Analytics.PayModeAggPartition | src/App.jsx:249 | the four mode figures plus the sales paid any other way add up to all revenue |
| Analytics.PayModeAggCoversAll | src/App.jsx:249 | when every sale uses one of the four modes, the four figures alone add up to all revenue |
| Analytics.SalesByDay | src/App.jsx:247 | one figure per day of the range; each is the total of the sales on that day |
| Analytics.SalesByDayPartition | src/App.jsx:247 | over distinct days, the daily figures plus the sales outside the range make up all revenue |
| Analytics.MovingAvg | src/App.jsx:248 | one average per day |
| Analytics.MovingAvgWindow | src/App.jsx:248 | the first average is the first day's figure; the second averages the first two days; each later one averages that day and the two days before it |
| Analytics.MovingAvgBounds | src/App.jsx:248 | every average lies between the smallest and the largest daily figure |
| ProductStats.AggInsert | src/App.jsx:250 | `m.set(name, (m.get(name) \|\| 0) + qty)`: an existing key keeps its place and every other entry is unchanged; a new key is appended with the given quantity |
| ProductStats.AggInsertQty | src/App.jsx:250 | one insertion adds `qty` to that name's total and to no other name's |
| ProductStats.AggInsertNames | src/App.jsx:250 | one insertion adds the name to the keys and nothing else, and keeps every key unique |
| ProductStats.AggSalesQty | src/App.jsx:250 | folding in the sales adds to each name's total exactly the quantity sold under it |
| ProductStats.AggSalesNames | src/App.jsx:250 | folding in the sales adds exactly the sold item names to the keys, and keeps every key unique |
| ProductStats.ProductTotalsCorrect | src/App.jsx:250 | `productAggMap` holds each sold item name once and nothing else, each with the total quantity sold under that name over all sales |
| ProductStats.ProductAggMap | src/App.jsx:250 | the nested `forEach` loops produce exactly the entries of the fold, in insertion order |
| ProductStats.InsertByQty | src/App.jsx:251 | insertion adds exactly the one entry |
| ProductStats.InsertByQtySorted | src/App.jsx:251 | inserting into a list sorted by descending quantity keeps it sorted |
| ProductStats.SortByQty | src/App.jsx:251 | the sort gives a permutation of the entries, with quantities in non-increasing order |
| ProductStats.InsertByQtyDistinct | src/App.jsx:251 | inserting an entry under a new name keeps the names distinct |
| ProductStats.SortByQtyDistinct | src/App.jsx:251 | sorting the map's entries keeps their names distinct |
| ProductStats.TopProducts | src/App.jsx:251 | seven entries, or all of them when there are fewer (the very entries of the map, each once); no name twice; in non-increasing order of quantity; each is an entry of the map whose quantity is the total sold under its name |
| ProductStats.TopProductsAreTop | src/App.jsx:251 | no entry missing from the top list sold more than any entry on it |

## Left out

- Rendering, routing and the React hooks (`useMemo`, `useState`, `useRef`, `useEffect`) are not modelled; the state they hold is the `Store` class.
- Persistence of the state in browser storage is not modelled. The code for it is not part of this model.
- `printReceipt` is not modelled: HTML generation, the print window, and a currency formatter that is not part of this model. Only its recomputed subtotal appears, as `CheckoutRules.ItemsAmount`.
- `exportCSV` is not modelled: the file download through a Blob URL. `buildCSVString` is modelled.
- The 500 ms delay at checkout, the toast message and the random sale id are not modelled. The id and the ISO time stamp are parameters of `PosState.Store.Checkout`.
- PosState.Store.Checkout: the loading flag is the `busy` parameter. The asynchronous interleaving of two checkouts is not modelled.
- Keyboard and touch handlers are not modelled. Neither is the focus and cart-drawer bookkeeping inside `addToCart`, `inc`, `dec`, `removeLine` and `clearCart`.
- PosState.Store.QuickAdd: the reset of the SKU input field after a quick add is not modelled, because it is UI state.
- Calendar logic is not modelled: `toDateString`, `setHours`, `applyQuickRange` and `lastNDays`. The window bounds become `SalesFilter.from` and `SalesFilter.toEnd`. The range of days becomes the `days` parameter of `Analytics.SalesByDay`, and `dayKey` is a parameter.
- Analytics.SalesByDay: the `d/m` date label of each day is not produced; only the totals are.
- Analytics.MovingAvg: it takes the daily totals without their labels.
- `todaySales` is not modelled: it is the same filter-and-sum as one day of `Analytics.SalesByDay`, against the host clock.
- The product search and category filter of `filteredProducts`, and the category list, are not modelled. They are text search used only for display.
- Floating-point arithmetic is not modelled. Money, tax and the moving average are exact `real` values.
- The `Number(x || 0)` coercions of form inputs are not modelled. The discount, tax rate and threshold are taken as numbers.
- The number-to-text conversion `String(v)` is the `num` parameter of the CSV functions. Its output is not constrained.
- History.TotalPages: it requires `pageSize >= 1`. With a page size of 0 the code divides by zero, and the resulting `Infinity` or `NaN` page count is not modelled.
- History.PageSales: it requires `pageSize >= 0`. A negative page size is not modelled.
- A sale always carries an items list. The `|| []` fallback for a missing list in `buildCSVString` (src/App.jsx:185) and the `TypeError` that `productAggMap` raises on one (src/App.jsx:250) are not modelled.
- ProductStats.SortByQty: `Array.prototype.sort` is stable, and the model's insertion sort keeps equal quantities in map order too. That stability is not stated as a proved property.
