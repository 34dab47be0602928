# Inventory tracker: a verified model of its domain engine

This project models the domain engine of a single-page inventory tracker. Its
parts are:

- **The state reducer.** Products are added, edited, deleted and restocked,
  and every stock movement is written to a ledger.
- **The read-side views** the pages compute from the state:
  - the searchable, filterable and sortable product list;
  - the reports page with its date window, category breakdown and top ten;
  - the low-stock alert widget;
  - the recent-activity feed;
  - the per-category chart;
  - the dashboard counters;
  - the data-management part of the settings page.
- **The two dialogs** that check user input before they dispatch an action.

The modules follow the source files:

| module | file | content |
|---|---|---|
| `Inventory` | `inventory.dfy` | The `State` and `Action` datatypes, the status rule `StatusOf`, and the reducer `Apply(s, a, freshId, now)`. The id `Date.now()` and the clock are parameters of `Apply`. |
| `Products` | `products.dfy` | The filter predicate and the list view. `FilteredProducts` copies the filtered list into a fresh array and sorts that array in place. |
| `Reports` | `reports.dfy` | The date window, the movement totals, the overview and the category breakdown. The breakdown is a method that fills a map step by step. Also the top-ten list. |
| `InventoryChart` | `inventory_chart.dfy` | The per-category rows. `ChartData` is a loop over the products that updates a map of rows in place. |
| `LowStockAlert`, `RecentActivity`, `Dashboard`, `Settings` | one file each | Functions over the state. |
| `StockUpdateModal`, `ProductModal` | one file each | The dialogs' validators and submit handlers, written as methods. |
| `Collections`, `Text`, `Sorting`, `Aggregates` | one file each | Shared building blocks. |

The shared building blocks cover:

- the JavaScript library semantics the views rely on: `filter`, `slice`, `[...new Set(...)]`, `trim`, `toLowerCase`, `includes`, `<` on strings, and whole numbers below 10^21 inside template literals;
- `Array.prototype.sort`, which the specification requires to be stable, with the views' comparators;
- the sums and per-category groups the dashboard, reports, chart and settings pages share.

Each `Array.prototype.sort` call is a method that does an insertion sort on an
`array`. It is proved against `SortedBy`, a specification function. The
properties of `SortedBy` are proved as lemmas: it is ordered, stable, a
permutation and idempotent.

Modelling choices:

- Quantities are integers.
- Prices are integer cents.
- Timestamps are integers.
- The `Date.now()` ids, the clock and the report cutoff are inputs.

## Model

| member | source | states |
|---|---|---|
| Inventory.StatusOf | src/context/InventoryContext.jsx:93-94 | In stock exactly when the quantity exceeds the minimum; low exactly when 0 < quantity <= minimum; out of stock exactly when the quantity is 0 or less and not above the minimum |
| Inventory.StatusOfNonNegative | src/context/InventoryContext.jsx:93-94 | For non-negative quantities the last case of the rule is quantity 0 |
| Inventory.AddAppends | src/context/InventoryContext.jsx:88-99 | `ADD_PRODUCT` appends one product at the end and keeps the earlier ones. The new product carries every field of the form, the fresh id, `lastUpdated == now` and the rule's status. Ledger, categories and suppliers are untouched |
| Inventory.UpdateReplacesMatching | src/context/InventoryContext.jsx:101-114 | `UPDATE_PRODUCT` keeps length, order and ids. It replaces exactly the products carrying the payload's id with the payload, a fresh timestamp and the rule's status. It changes no product when no id matches |
| Inventory.RemoveByIdAppend | src/context/InventoryContext.jsx:119 | The delete filter distributes over concatenation, so the rest keeps its relative order |
| Inventory.RemoveByIdKeeps | src/context/InventoryContext.jsx:119 | The delete filter keeps exactly the products without the id, never more often than they were there. It changes nothing when no product has the id |
| Inventory.DeleteRemoves | src/context/InventoryContext.jsx:116-120 | `DELETE_PRODUCT` removes every product with the id and keeps every other one. Ledger, categories and suppliers are untouched |
| Inventory.UpdateStockEffect | src/context/InventoryContext.jsx:122-150 | `UPDATE_STOCK`: for the matching products, adds for stock-in, or subtracts for stock-out and clamps at 0. The status comes from the unclamped quantity, `lastUpdated` is `now`, and every other field is kept. Other products are unchanged and the product count stays the same. It always prepends exactly one ledger entry with the payload, the fresh id and `now`, even when no product matches |
| Inventory.ClampedStatusAgrees | src/context/InventoryContext.jsx:127-134 | With a non-negative minimum, the status computed from the unclamped quantity equals the rule applied to the stored, clamped quantity |
| Inventory.ClampedStatusNegativeMinimum | src/context/InventoryContext.jsx:127-134 | With minimum -5, removing 10 from 0 stores 0 and reports out of stock, while the rule on 0 says in stock |
| Inventory.LoadAndUnknown | src/context/InventoryContext.jsx:152-156 | `LOAD_DATA` returns its payload verbatim, and an unknown action returns the state |
| Inventory.LedgerPrependOnly | src/context/InventoryContext.jsx:86-157 | Every action but `LOAD_DATA` keeps the old ledger as a suffix of the new one; only `UPDATE_STOCK` adds an entry |
| Inventory.AddThenUpdateKeepsId | src/context/InventoryContext.jsx:88-114 | A product added and then updated under its id stays at the end with its id and the updated quantity |
| Inventory.ApplyKeepsConsistent | src/context/InventoryContext.jsx:86-157 | Admissible actions keep every product's stored quantity and minimum non-negative and its status equal to the rule. Admissible means: non-negative counts in an added or updated product, or a consistent snapshot. Every stock adjustment, every delete and every unknown action is admissible |
| Inventory.InitialStateConsistent | src/context/InventoryContext.jsx:5-84 | The seed state is consistent |
| Inventory.SeedAdjustments | src/context/InventoryContext.jsx:125-134 | On the seed state, adding 20 to product 1 gives 65, in stock; removing 50 from product 2, which holds 8, gives 0, out of stock |
| Collections.Filter | src/pages/Dashboard.jsx:18-19 | `filter` keeps exactly the elements passing the test, never more elements than it got |
| Collections.FilterAppend | src/pages/Reports.jsx:27-29 | `filter` distributes over concatenation, so it keeps relative order |
| Collections.FilterUnion | src/pages/Settings.jsx:161 | Two disjoint filters that together pass what a third one passes split its count |
| Collections.Take | src/components/LowStockAlert.jsx:21 | `slice(0, n)` is the first `min(n, length)` elements |
| Collections.DistinctSpec | src/pages/Products.jsx:88 | `[...new Set(xs)]` has no duplicates and the same members as `xs`, in order of first occurrence |
| Text.Trim | src/components/ProductModal.jsx:49 | `trim` gives a string that neither starts nor ends with whitespace |
| Text.TrimIsCore | src/components/ProductModal.jsx:49 | `trim` gives the slice of the string between leading and trailing whitespace, which is all it removes |
| Text.BlankIff | src/components/ProductModal.jsx:49-50 | `!s.trim()` holds exactly when every character is whitespace |
| Text.TrimIdempotent | src/components/StockUpdateModal.jsx:52 | Trimming twice trims nothing more |
| Text.LowerIdempotent | src/pages/Products.jsx:29-30 | Lower-casing twice changes nothing more |
| Text.ContainsIff | src/pages/Products.jsx:29-30 | `includes` holds exactly when the needle occurs at some position |
| Text.LexLessTotal | src/pages/Products.jsx:47-49 | Two different strings are ordered one way round by `<` |
| Text.LexLessTransitive | src/pages/Products.jsx:47-49 | `<` on strings is transitive |
| Text.IntTextRoundTrip | src/components/StockUpdateModal.jsx:52 | The text of a number in a template literal reads back as that number |
| Sorting.CompareProperties | src/pages/Products.jsx:46-50 | The comparators are antisymmetric and return 0 exactly for equal keys |
| Sorting.SortedByOrdered | src/pages/Products.jsx:37-51 | The sort's result is in comparator order |
| Sorting.SortedByStable | src/pages/Products.jsx:47-49 | For every key, the elements with that key come out in the order they went in |
| Sorting.SortedByIdempotent | src/pages/Products.jsx:37-51 | Sorting a sorted sequence changes nothing |
| Sorting.InsertInPlace | src/pages/Products.jsx:37 | One pass of the in-place sort moves the next element into the sorted prefix |
| Sorting.StableSort | src/pages/Products.jsx:37-51 | Sorting the array in place leaves in it exactly `SortedBy` of its old contents |
| Aggregates.SumNonNegative | src/pages/Dashboard.jsx:20 | A sum of a measure that is never negative is not negative |
| Aggregates.PartitionByCategories | src/pages/Reports.jsx:46-58 | The sums over the groups of the distinct categories add up to the sum over all products |
| Products.Filtered | src/pages/Products.jsx:28-35 | The filtered list holds exactly the products that match search, category and status |
| Products.MatchesSearchIff | src/pages/Products.jsx:29-30 | A product matches the search exactly when the lower-cased term occurs in the lower-cased name or SKU |
| Products.FilterFields | src/pages/Products.jsx:31-32 | An empty category filter or an empty status filter imposes nothing; a set one keeps only exact matches |
| Products.FilteredProducts | src/pages/Products.jsx:27-54 | Filtering into a fresh array and sorting it in place yields the view: the matching products in stable comparator order |
| Products.ViewContents | src/pages/Products.jsx:28-35 | The view is a permutation of the filtered products and a sub-multiset of the state's, holding exactly the matching products |
| Products.NoFiltersKeepsAll | src/pages/Products.jsx:28-35 | With an empty search and no filters every product is listed |
| Products.ViewOrdered | src/pages/Products.jsx:37-51 | The view is ordered by the chosen field and direction. String fields are compared lower-cased |
| Products.ViewStable | src/pages/Products.jsx:47-49 | Products with equal sort keys keep their relative order |
| Products.ViewIdempotent | src/pages/Products.jsx:27-54 | Filtering and sorting the view again with the same settings gives the view |
| Products.CategoryOptions | src/pages/Products.jsx:88 | The category options are the distinct categories of the products, each once, in order of first occurrence |
| Reports.WindowExact | src/pages/Reports.jsx:23-30 | The window holds exactly the ledger entries dated at or after the cutoff |
| Reports.WindowInLedgerOrder | src/pages/Reports.jsx:27-29 | The window keeps ledger order |
| Reports.WindowAfterStockUpdate | src/pages/Reports.jsx:27-29 | After `UPDATE_STOCK`, the new entry heads the window exactly when it is dated at or after the cutoff, and the rest of the window is unchanged |
| Reports.MovementSplits | src/pages/Reports.jsx:38-44 | `stockIn` and `stockOut` share out the window's total quantity |
| Reports.QuantitySumNonNegative | src/pages/Reports.jsx:38-44 | With no negative quantity in the window the totals are not negative |
| Reports.MovementAfterStockUpdate | src/pages/Reports.jsx:38-44 | A stock adjustment inside the window raises its own total by its quantity and leaves the other alone |
| Reports.OverviewMeaning | src/pages/Reports.jsx:33-44 | The overview has the dashboard's four counters, `netMovement = stockIn - stockOut`, and `stockIn + stockOut` equals the windowed quantity |
| Reports.ShownInStockCountsEmptyTwice | src/pages/Reports.jsx:244 | One empty product with minimum 5 makes the "In Stock" figure -1, while no product is in stock |
| Reports.InStockSummary | src/pages/Reports.jsx:244 | The in-stock count is the total minus the low-stock counter, and the figure as written is that count minus the out-of-stock counter |
| Reports.Breakdown | src/pages/Reports.jsx:46-58 | One entry per distinct category, in order of first occurrence. Each entry holds that category's count, stock value and quantity |
| Reports.CategoryBreakdown | src/pages/Reports.jsx:46-58 | The reduce fills a map step by step, creating an entry on first sight and counting it up. `Object.entries` of the result is `Breakdown` |
| Reports.BreakdownTotals | src/pages/Reports.jsx:34 | The counts add up to the number of products, the values to `totalValue`, and the quantities to the total quantity. Every entry is named after its category |
| Reports.BreakdownCategories | src/pages/Reports.jsx:46-58 | Every category of the list has an entry. Every entry has a positive count and a category some product has. No products give no entries |
| Reports.ComparatorAgrees | src/pages/Reports.jsx:61 | The descending key order gives the comparator's sign in all three cases |
| Reports.TopProductsAsWritten | src/pages/Reports.jsx:60-62 | Sorts the state's own product array in place, then takes its first ten |
| Reports.SortReordersState | src/pages/Reports.jsx:60-61 | Two products listed cheaper first come out in the other order, so the state's list changes |
| Reports.TopProductsOfCopy | src/pages/Reports.jsx:60-62 | Sorting a fresh copy in place and taking the first ten gives `TopProducts`, leaving the list alone |
| Reports.TopProductsFromList | src/pages/Reports.jsx:60-62 | The top list has at most ten products, all drawn from the list |
| Reports.TopProductsByValue | src/pages/Reports.jsx:60-62 | The top list is non-increasing in stock value, and no product left out is worth more than one listed |
| LowStockAlert.LowStockItems | src/components/LowStockAlert.jsx:13-15 | Exactly the products with 0 < quantity <= minimum |
| LowStockAlert.OutOfStockItems | src/components/LowStockAlert.jsx:17-19 | Exactly the products with quantity 0 |
| LowStockAlert.AlertItems | src/components/LowStockAlert.jsx:21 | The first eight of the empty products followed by the low ones |
| LowStockAlert.AlertItemsFromState | src/components/LowStockAlert.jsx:13-21 | The list is a sub-multiset of the products. It has no duplicates when the products have none. Empty products come before low ones |
| LowStockAlert.OverflowNoticeNeverShown | src/components/LowStockAlert.jsx:91 | The notice's condition `alertItems.length > 8` never holds |
| LowStockAlert.NineEmptyProducts | src/components/LowStockAlert.jsx:21-94 | Nine empty products: nine need attention, eight are listed, and the notice stays hidden |
| LowStockAlert.HiddenCount | src/components/LowStockAlert.jsx:94 | The number of products needing attention that the list leaves out |
| LowStockAlert.OverflowNoticeShownIff | src/components/LowStockAlert.jsx:91-94 | The intended notice shows exactly when more than eight products need attention, and then eight are listed |
| RecentActivity.FindById | src/components/RecentActivity.jsx:17 | `find` gives the first product with the id, or nothing exactly when no product has it |
| RecentActivity.JoinKeepsMatched | src/components/RecentActivity.jsx:16-20 | The join keeps, in ledger order, exactly the entries whose product exists |
| RecentActivity.JoinPairsFirstMatch | src/components/RecentActivity.jsx:17 | Every joined entry carries the first product with its product id |
| RecentActivity.RecentShape | src/components/RecentActivity.jsx:14-20 | At most ten entries, all from the first ten ledger entries in ledger order, each with its first matching product |
| RecentActivity.DroppedIffProductGone | src/components/RecentActivity.jsx:17-20 | One of the first ten entries is dropped exactly when no product has its product id |
| RecentActivity.DeletedProductLeavesFeed | src/components/RecentActivity.jsx:17-20 | After a product is deleted, no feed entry refers to it |
| InventoryChart.ChartData | src/components/InventoryChart.jsx:13-41 | The loop builds an accumulator map in place, creating rows on first sight and incrementing them. `Object.values` of the accumulator is `Chart` |
| InventoryChart.CountProduct | src/components/InventoryChart.jsx:26-35 | The increments one product applies to its row |
| InventoryChart.ReduceAccumulated | src/components/InventoryChart.jsx:14-38 | The reduce's map holds, for every category seen and no other key, that category's row |
| InventoryChart.BucketsSplit | src/components/InventoryChart.jsx:29-35 | The three status branches split every group |
| InventoryChart.RowsBalanced | src/components/InventoryChart.jsx:26-35 | Per row, in stock + low + out = total items. The total value is the category's stock value, and the total items is the category's size |
| InventoryChart.ChartCategories | src/components/InventoryChart.jsx:14-40 | One row per distinct category, in order of first occurrence; no products give no rows |
| InventoryChart.ChartTotals | src/components/InventoryChart.jsx:14-40 | The rows' items add up to the number of products and their values to the total stock value |
| InventoryChart.BucketIsStatus | src/components/InventoryChart.jsx:29-35 | For non-negative quantity and minimum the chart's classification is the reducer's status rule, and so the stored status of a consistent product |
| InventoryChart.BucketDiffersForNegativeMinimum | src/components/InventoryChart.jsx:29-35 | With a negative minimum, an empty product is out of stock in the chart but in stock by the rule |
| Dashboard.CountersOf | src/pages/Dashboard.jsx:17-19 | The product count is the list's length, and both stock counters are at most that |
| Dashboard.OutWithinLow | src/pages/Dashboard.jsx:18-19 | With non-negative minimums the out-of-stock counter is at most the low-stock counter |
| Dashboard.OutNotWithinLowForNegativeMinimum | src/pages/Dashboard.jsx:18-19 | With a negative minimum an empty product is out of stock but not low |
| Dashboard.TotalValueBounds | src/pages/Dashboard.jsx:20 | The stock value is 0 for no products and not negative for non-negative quantities and prices |
| StockUpdateModal.ValidateStock | src/components/StockUpdateModal.jsx:26-39 | The form passes exactly when the quantity is positive and a stock-out takes no more than the product holds; it passes exactly when no error is recorded; the only key is `quantity`, holding the too-many message when that check fails and the not-positive message otherwise |
| StockUpdateModal.SubmitStock | src/components/StockUpdateModal.jsx:41-57 | Nothing is dispatched for a failing form or without a product; otherwise one `UPDATE_STOCK` for the product, with the trimmed note or the default note |
| StockUpdateModal.DefaultNoteShape | src/components/StockUpdateModal.jsx:52 | The default note is "Added" or "Removed", the quantity, then " units"; the quantity reads back from it |
| StockUpdateModal.NoteNeverBlank | src/components/StockUpdateModal.jsx:52 | The recorded note is the trimmed notes when they are not blank, the default note otherwise, and never blank |
| StockUpdateModal.SubmittedKeepsConsistent | src/components/StockUpdateModal.jsx:46-54 | What the dialog dispatches keeps a consistent state consistent. Its ledger entry records the product, direction, quantity and a note that is never blank |
| StockUpdateModal.PreviewNonNegative | src/components/StockUpdateModal.jsx:70-72 | A stock-out preview is never negative, and neither is the preview of a passing form on a non-negative quantity |
| StockUpdateModal.PreviewMatchesReducer | src/components/StockUpdateModal.jsx:70-72 | For a passing form the reducer stores exactly the previewed quantity, and its status is the previewed label from the three-way rule at lines 177-178 |
| StockUpdateModal.ValidStockOutIsExact | src/components/StockUpdateModal.jsx:33-35 | A passing stock-out leaves exactly old - q, which is not negative: the reducer's clamp is never active |
| StockUpdateModal.PreviewOutsideTheForm | src/components/StockUpdateModal.jsx:70-72 | Concrete cases outside the form: removing 8 from 3 previews 0 and stores 0; adding -4, which the form refuses, would preview -1 |
| ProductModal.ValidateProduct | src/components/ProductModal.jsx:46-61 | The errors are exactly the failing fields, each under its own key with its own message. The form passes exactly when no error is recorded, and exactly when every check passes |
| ProductModal.CheckField | src/components/ProductModal.jsx:49-57 | One of the nine conditional assignments: a failing field gets its message, and nothing else changes |
| ProductModal.FormValidIff | src/components/ProductModal.jsx:49-57 | A form passes exactly when no field check fails. A passing form has non-negative counts, a maximum not below its minimum, and a positive price |
| ProductModal.EmptyFormRejected | src/components/ProductModal.jsx:13-23 | The empty form the dialog opens with for a new product does not pass |
| ProductModal.FormRoundTrip | src/components/ProductModal.jsx:28-29 | Saving an opened product untouched sends it back unchanged. The form of an edited product is the edited form. id, timestamp and status come along |
| ProductModal.SubmitProduct | src/components/ProductModal.jsx:63-75 | Nothing is dispatched for a failing form. Otherwise `UPDATE_PRODUCT` is dispatched with the edited product, under its id, when a product is being edited, and `ADD_PRODUCT` with the form when adding |
| ProductModal.SubmitKeepsConsistent | src/components/ProductModal.jsx:63-72 | What a passing form dispatches is admissible and keeps a consistent state consistent |
| ProductModal.AddedProductShape | src/components/ProductModal.jsx:70-71 | Adding a passing form appends one consistent product with the form's fields, the fresh id, `lastUpdated == now`, a maximum not below its minimum, and a positive price |
| ProductModal.EditedProductShape | src/components/ProductModal.jsx:68-69 | Saving an edit rewrites in place every product with the edited id, giving it the form's fields, `now` and a consistent status. No other product changes |
| Settings.Export | src/pages/Settings.jsx:19-26 | The backup's `exportedAt` is the given export time. That it holds the state's four collections verbatim is stated by `Settings.ExportImportRoundTrip` |
| Settings.Decoded | src/pages/Settings.jsx:20-26 | A decoded backup's `products` field is an array |
| Settings.ImportAction | src/pages/Settings.jsx:50-51 | A `LOAD_DATA` is dispatched exactly when the `products` field is an array, and it carries the file's collections |
| Settings.ImportOutcomes | src/pages/Settings.jsx:42-62 | An import succeeds exactly for a parsed value whose `products` field is an array, and then the state is the file's collections. The invalid-format alert is exactly any other parsed value. A parse error is exactly text that does not parse or that parses to `null`, whose `.products` throws. Every failed import leaves the state unchanged |
| Settings.ExportImportRoundTrip | src/pages/Settings.jsx:19-51 | Importing an exported backup into any state restores the four collections, with the ledger in its order |
| Settings.ImportKeepsConsistent | src/pages/Settings.jsx:50-51 | An accepted file with consistent products gives a consistent state |
| Settings.ClearResets | src/pages/Settings.jsx:64-75 | Clearing gives no products and no ledger, and the five default categories and suppliers of the first start. The result is consistent |
| Settings.ClearIdempotent | src/pages/Settings.jsx:64-75 | Clearing twice is clearing once |
| Settings.CountersSplit | src/pages/Settings.jsx:161-173 | The restock counter leaves out empty products, so restock + out <= total. With no negative quantity or minimum, they add up to the dashboard's low-stock counter |
| Settings.CountersMissNegativeQuantity | src/pages/Settings.jsx:161-173 | A product with quantity -2 is counted by neither settings counter, but it is low on the dashboard |

## Left out

- **Presentation.** Rendering, styling, animation, icons, routing, navigation and the hard-coded trend numbers of the dashboard cards are not modelled.
- **I/O.**
  - Not modelled: `localStorage` loading and saving, `JSON.parse` and `JSON.stringify`, `FileReader`, the `Blob` download and `alert`.
  - An import is modelled on a file that is already parsed. `Settings.Parsed` distinguishes text that does not parse, `null`, and a value whose `products` field can be read. A number, string, boolean or array is a value without a `products` field.
  - The JSON round trip of a backup is written out as `Settings.Decoded`.
- **Clocks and ids.** `Date.now()` ids and all timestamps are parameters. The source does not keep ids distinct, and the model claims nothing about that.
- **The date window.** The report's cutoff, `startOfDay(subDays(new Date(), days))`, is an integer input, and dates are integers. Time zones and the `date-fns` calls are not modelled.
- **Money.**
  - Prices are integer cents, so floating-point rounding of `quantity * price` is not modelled.
  - `toLocaleString` and `toFixed` are not modelled.
  - The percentage bars of the reports page, which divide by zero when there are no products, are not modelled.
  - The chart's `Math.max` over no rows, which is `-Infinity`, is not modelled.
- **Number width.** Quantities, minimums, prices and ids are unbounded integers, but JavaScript numbers are 64-bit floats.
  - The reducer's `product.quantity + quantity` and `product.quantity - quantity` (src/context/InventoryContext.jsx:127) are exact in `Inventory.Apply`. In JavaScript they are exact only while the values stay below 2^53; above that they round.
- IntTextRoundTrip (`Text.IntTextRoundTrip`): `Text.IntText` writes every integer as plain digits. A template literal writes a number as plain digits only when its absolute value is below 10^21; from 10^21 up it uses exponent form, such as `1e+21`. The lemma is therefore the JavaScript round trip only below 10^21, and exponent form is not modelled.
- DefaultNoteShape (`StockUpdateModal.DefaultNoteShape`): `StockUpdateModal.DefaultNote` (src/components/StockUpdateModal.jsx:52) has the JavaScript text only for quantities below 10^21. The dialog accepts any positive quantity; for 10^21 it writes "Added 1e+21 units", while the model writes 22 digits.
- **Parsing form input.** `parseFloat(value) || 0` in the product dialog's `handleChange` and `parseInt(...) || 0` in the stock dialog are not modelled. Form values are already whole numbers.
  - `StockUpdateModal.DefaultNoteShape`: its inverse `ParseInt` is a reference reader of the model's own number text. It is not JavaScript's `parseInt`.
- **`Text.Lower`** maps only the ASCII letters. Unicode case mapping is not modelled.
- **`Text.LexLess`** compares characters by code point. JavaScript compares UTF-16 code units. The two differ only outside the Basic Multilingual Plane.
- **Object key order and inherited keys.** `Object.entries` and `Object.values` are modelled in insertion order. JavaScript lists integer-like keys first; the model does not.
  - A category named after an inherited `Object.prototype` member is not modelled. Such names include `constructor`, `toString`, `hasOwnProperty`, `valueOf` and `__proto__`.
  - For such a name, `acc[category]` on `{}` at src/pages/Reports.jsx:47 and src/components/InventoryChart.jsx:15 is already truthy. The category never becomes an own entry, so it is missing from the breakdown and from the chart. The model gives it a row like any other name.
- **The category filter** is the exact string the drop-down offers.
- **Status values and the status filter.** The status filter is an `Option<Status>`. The reducer's three status strings are the `Status` datatype.
- **`Settings.Import`** does not model type errors. A decoded file with a well-typed `products` array is assumed to have well-typed transactions, categories and suppliers. The `exportedAt` field, which `LOAD_DATA` would carry into the state, is not kept.
- **Seed timestamps.** The seed state's timestamps are one input, `now`.
- **`ProductModal.ValidateProduct`** models the nine conditional assignments of `validateForm` as nine calls of `CheckField`, in the same order. Clearing one error while typing (`handleChange`) is not modelled.
- **`StockUpdateModal.PreviewNonNegative`**: a stock-in preview of a negative quantity can be negative. The form refuses such input, and `PreviewOutsideTheForm` shows the case.
- **Sorting.StableSort** is an insertion sort. The engine's own algorithm is not modelled. Any stable sort gives the same result, which is `SortedBy`.

## Findings

| source | as written | input that shows it | evidently intended | confidence | as-written member | corrected member |
|---|---|---|---|---|---|---|
| src/pages/Reports.jsx:244 | "In Stock" is `totalProducts - lowStockItems - outOfStockItems`, but `lowStockItems` already counts the products with quantity 0 | one product with quantity 0 and minimum 5: the figure is -1 | the products above their minimum: `totalProducts - lowStockItems` | high, not executed | Reports.ShownInStockCountsEmptyTwice | Reports.InStockSummary |
| src/components/LowStockAlert.jsx:91 | the "+N more items" notice tests `alertItems.length > 8` on the list that `slice(0, 8)` already cut | nine products with quantity 0: nine need attention and the notice stays hidden | show the notice, with the number left out, when more than eight products need attention | high, not executed | LowStockAlert.NineEmptyProducts | LowStockAlert.OverflowNoticeShownIff |
| src/pages/Reports.jsx:60-61 | `products.sort(...)` sorts the state's own product array in place while the report renders | two products with values 1.00 and 2.00 in that order: the state's list comes out reversed | sort a copy and leave the state's list alone | medium, not executed | Reports.SortReordersState | Reports.TopProductsOfCopy |
