# msbulk storefront core in Dafny

msbulk is a community bulk-food storefront. Members order products out of a
shared stock, request products the store does not carry yet, and support each
other's requests; administrators create products and manage requests. This
project models the parts of it that are business rules rather than layout:

- **Stock ledger and orders** (`orders.dfy`, `products.dfy`, `ledger.dfy`,
  `database.dfy`, over the records of `schema.dfy`). The database is one value
  `Db`: products keyed by id (with their creation order), orders, stock
  movements and product requests. Each writing route is a function from the
  store before to its result and the store after (`Orders.PlaceOrder`,
  `Products.CreateProduct`, `Requests.CreateRequest`), and the class
  `Database.Store` holds the same tables as fields and performs each route's
  writes one after another, proved to end in exactly the store the function
  describes. The central property is the ledger: for every product the
  `stock_added` movements minus the `stock_removed` and `purchase` movements
  equal its current stock, kept by every order placement and every product
  creation whose movement insert succeeds, along any history
  (`Ledger.LedgerHoldsAlongHistory`). Product creation makes two separate
  writes, and when the second one fails the ledger breaks
  (`Ledger.PartialCreateBreaksLedger`).
- **Requests and their progress** (`requests.dfy`, `admin_page.dfy`). The
  requests listing derives the demanded amount, a progress percentage and the
  amount still needed; the admin panel shows a second, supporter-count based
  progress (label, bar colour, bar width), summary counts, the goal form's
  defaults and the status badge.
- **Catalogue** (`catalog.dfy`, `inventory_service.dfy`, `inventory_data.dfy`,
  `inventory_page.dfy`). The conversion of an API product into a catalogue
  item; the front end's module-level item list with its helpers (the three
  read-only filters are functions of the list's current contents, the three
  helpers that change the list are methods of the class `InventoryData.Inventory`);
  and the inventory page's filter-then-sort pipeline, detail toggles and star
  rating. Sorting is a stable insertion sort driven by the page's three
  comparators.

The session is an explicit optional `Session(userId, role)` argument. Database
failures are boolean arguments (`txFails`, `productInsertFails`,
`movementInsertFails`, `insertFails`) and errors are the values `Unauthorized`,
`NotFound`, `InsufficientStock` and `Unexpected` instead of HTTP status codes.
Prices and amounts are Dafny `real`s. JavaScript's falsy fallbacks (`x || 0`,
`x || 'unit'`) and optional chaining appear as `Option` values with their
defaults.

The model follows the code as written: product creation makes two separate
writes, so it is not atomic; the order route does not check that the quantity
is positive; and the order listing compares the role with `"ADMIN"` while
product creation compares it with `"admin"`, so an administrator sees only
their own orders. The store's class invariant is only the referential
integrity the database itself enforces; the ledger balance is stated across
each call (kept when it held before), so the store keeps serving requests
after a partial product creation has broken the balance.

## Model

| member | source | states |
|---|---|---|
| Orders.PlaceOrder | src/app/api/orders/route.ts:45-109 | Unauthorized without a session, NotFound for an unknown product, InsufficientStock when stock < quantity, each leaving the store unchanged; succeeds exactly when all guards pass and the transaction does not fail; on success exactly one confirmed order with the caller, product, quantity, unit price snapshot and total = price × quantity, the product's stock lowered by exactly the quantity, one purchase movement for the same product, quantity and user, and nothing else changed; on a failed transaction none of the three writes |
| Orders.PlaceOrderKeepsWellFormed | src/app/api/orders/route.ts:81-109 | placing an order keeps the store well formed (orders and movements reference existing products, ids unchanged) |
| Orders.OrderKeepsStockNonNegative | src/app/api/orders/route.ts:71-99 | with a non-negative quantity, a non-negative stock stays non-negative after any order |
| Orders.NegativeQuantityRaisesStock | src/app/api/orders/route.ts:71-99 | there is no positivity check: a negative quantity passes the stock guard, succeeds and raises the stock |
| Orders.ListOrders | src/app/api/orders/route.ts:6-34 | Unauthorized exactly without a session; role exactly "ADMIN" sees every order, every other role (including "admin") exactly its own; both lists newest first |
| Basics.NewestFirst | src/app/api/orders/route.ts:24 | `orderBy createdAt desc` returns the same rows (same multiset and length) |
| Basics.NewestFirstAt | src/app/api/products/route.ts:8-10 | the i-th newest row is the i-th counted from the end of the insertion order |
| Basics.Filter | frontend/src/data/inventoryData.js:47 | `Array.prototype.filter`: every element satisfying the predicate keeps all its copies, every other element none |
| Basics.FilterAppend | frontend/src/data/inventoryData.js:47 | filtering keeps the list order: the filter of a concatenation is the concatenation of the filters |
| Database.Store.PlaceOrder | src/app/api/orders/route.ts:45-111 | the in-place writes leave exactly the store and result of `Orders.PlaceOrder`; referential integrity is kept from any store, the ledger balance whenever it held before |
| Products.InitialStock | src/app/api/products/route.ts:40 | parseInt of the body's stock or 0: the parsed integer, 0 when parsing fails |
| Products.CreateProduct | src/app/api/products/route.ts:20-61 | without an "admin" session Unauthorized and no change; a failed product insert changes nothing; otherwise a product with a fresh id, the body's fields and the parsed stock, appended to the creation order; exactly one stock_added movement for it, by the actor, for its initial stock, unless that second insert fails, in which case the product stays and the result is Unexpected; orders and requests untouched |
| Products.CreateProductKeepsWellFormed | src/app/api/products/route.ts:34-53 | creating a product keeps the store well formed |
| Products.ListProductsNewestFirst | src/app/api/products/route.ts:6-11 | the listing `Products.ListProducts` (GET /api/products) holds every product once, the most recently created first |
| Database.Store.CreateProduct | src/app/api/products/route.ts:20-61 | the two successive inserts leave exactly the store and result of `Products.CreateProduct`; referential integrity is kept from any store, a partial creation included; the ledger balance is kept whenever it held before and the movement insert succeeds |
| Ledger.PlaceOrderKeepsLedger | src/app/api/orders/route.ts:92-108 | the purchase movement matches the stock decrement, so every product's movements still sum to its stock |
| Ledger.CreateProductKeepsLedger | src/app/api/products/route.ts:34-53 | a product created with its stock_added movement keeps every product's movements summing to its stock |
| Ledger.NewProductBalanced | src/app/api/products/route.ts:34-53 | a fresh product whose one movement adds its whole stock leaves every product's balance equal to its stock |
| Ledger.PartialCreateBreaksLedger | src/app/api/products/route.ts:34-61 | when the movement insert fails after the product insert, the request fails but the product with non-zero stock stays, unaccounted for by any movement |
| Ledger.CreateRequestKeepsLedger | src/app/api/requests/route.ts:63-72 | creating a request touches neither stock nor movements |
| Ledger.LedgerHoldsAlongHistory | src/app/api/orders/route.ts:81-109 | any sequence of order placements, product creations whose movement insert succeeds and request creations preserves the ledger invariant |
| Ledger.LedgerHoldsFromEmpty | src/app/api/products/route.ts:40-53 | from the empty store, stock_added minus purchase quantities equal current stock after any history of order placements, request creations and product creations whose movement insert succeeds |
| Requests.TotalRequested | src/app/api/requests/route.ts:23-29 | total = (amountWanted or 0) × (1 + supporters); 0 without an amount whatever the supporters |
| Requests.ProgressPercentage | src/app/api/requests/route.ts:34 | 0 without a goal (null or 0); with a positive goal at most 100, at least 0 for a non-negative total, exactly 100 when the total reaches the goal, and total / goal × 100 below it |
| Requests.RemainingNeeded | src/app/api/requests/route.ts:35 | never negative; 0 without a goal; goal − total below the goal and 0 at or above it |
| Requests.WithProgress | src/app/api/requests/route.ts:21-37 | the row kept whole, its total = amount × (1 + supporters), and that total's percentage and remaining amount against the row's own goal (both 0 without a goal) |
| Requests.AllWithProgress | src/app/api/requests/route.ts:21-37 | one entry per stored request, in the same order, each the request with its three derived values |
| Requests.ListRequests | src/app/api/requests/route.ts:6-37 | the i-th entry is the i-th newest request with its three derived values |
| Requests.WorkedExample | src/app/api/requests/route.ts:23-35 | 2 units with 3 supporters against a goal of 10: 8 requested, 80 percent, 2 remaining |
| Requests.AddingSupporterNeverLowersProgress | src/app/api/requests/route.ts:27-34 | with a non-negative amount and a non-negative goal, one more supporter never lowers the total or the percentage |
| Requests.CreateRequest | src/app/api/requests/route.ts:49-80 | Unauthorized and no change without a session; a failed insert changes nothing; otherwise exactly one request by the caller with the body's fields, status "pending", no goal and no supporters, and nothing else changed |
| Requests.CreateRequestKeepsWellFormed | src/app/api/requests/route.ts:63-72 | creating a request keeps the store well formed |
| Database.Store.CreateRequest | src/app/api/requests/route.ts:49-74 | the insert leaves exactly the store and result of `Requests.CreateRequest`; referential integrity is kept from any store, the ledger balance whenever it held before |
| InventoryService.OrZero | src/lib/inventoryService.ts:76 | a missing number read as 0: the value, or 0 when missing |
| InventoryService.Popularity | src/lib/inventoryService.ts:92 | always in [50, 95]; 95 for at most 2 units sold, 50 from 25 on, 100 − 2·sold in between |
| InventoryService.PopularityNonIncreasing | src/lib/inventoryService.ts:92 | selling more never raises the popularity |
| InventoryService.CategoryOf | src/lib/inventoryService.ts:81 | the category is always one of the eleven keys: a key is kept, anything else becomes "pantry" |
| InventoryService.ImageOf | src/lib/inventoryService.ts:84 | the category's emoji, or the amphora fallback for an unknown category |
| InventoryService.ConvertProductToInventoryItem | src/lib/inventoryService.ts:47-95 | id, name, description and price copied; category one of the eleven lower-case keys, the product's own when it is a key and "pantry" otherwise; the category's emoji or the fallback; unit size or "unit"; stock = total − sold with missing counters read as 0; in stock exactly when stock > 0; popularity from units sold; tags exactly [category, "bulk", "community"] |
| InventoryService.CapitalisedCategoryFallsBack | src/lib/inventoryService.ts:81-84 | the lookup is case-sensitive: "Fruits" becomes pantry with the pantry emoji |
| Catalog.SortBy | src/app/inventory/page.tsx:84 | sorting a copy returns a permutation of it |
| Catalog.InsertSorted | src/app/inventory/page.tsx:84-94 | inserting into a sorted list keeps it sorted |
| Catalog.SortBySorted | src/app/inventory/page.tsx:84-94 | the result is in comparator order |
| InventoryData.ItemsByCategory | frontend/src/data/inventoryData.js:45-48 | "all" gives the whole list; any other id exactly the items of that category, in list order |
| InventoryData.InStockItems | frontend/src/data/inventoryData.js:56-58 | exactly the items flagged in stock, in list order |
| InventoryData.SearchItems | frontend/src/data/inventoryData.js:60-67 | exactly the items whose lower-cased name, description or a tag contains the lower-cased term, in list order |
| InventoryData.EmptySearchKeepsAll | frontend/src/data/inventoryData.js:60-67 | the empty term keeps every item |
| InventoryData.SliceEnd | frontend/src/data/inventoryData.js:53 | `slice(0, limit)` keeps min(limit, length) items, counting a negative limit from the back |
| InventoryData.MaxId | frontend/src/data/inventoryData.js:71 | the largest id of a non-empty list: no id exceeds it and some item has it |
| InventoryData.FirstIndex | frontend/src/data/inventoryData.js:83 | `find` by id: none exactly when no item has the id, otherwise the first position that has it |
| InventoryData.StockUpdated | frontend/src/data/inventoryData.js:82-89 | the first item with the id gets the new quantity and an in-stock flag equal to quantity > 0; every other item, and the whole list when the id is absent, unchanged |
| InventoryData.StockUpdateIdempotent | frontend/src/data/inventoryData.js:82-89 | two identical stock updates give the same list as one |
| InventoryData.SortKeepsUniqueIds | frontend/src/data/inventoryData.js:50-54 | sorting keeps ids unique |
| InventoryData.Inventory.constructor | frontend/src/data/inventoryData.js:19-42 | the list starts as the one organic-bananas item, with unique ids |
| InventoryData.Inventory.GetPopularItems | frontend/src/data/inventoryData.js:50-54 | sorts the shared list in place into non-increasing popularity, keeping the same items, and returns its first `limit` items, at most six when no limit is passed |
| InventoryData.Inventory.AddNewItem | frontend/src/data/inventoryData.js:70-79 | appends exactly one item after the untouched earlier ones, with id = largest id + 1 (so above every existing id), popularity 50 and the given tags or none; returns the list |
| InventoryData.Inventory.UpdateStock | frontend/src/data/inventoryData.js:82-89 | the list becomes `StockUpdated` of the old one; returns the updated item exactly when some item has the id |
| InventoryPage.SortKeyOf | src/app/inventory/page.tsx:85-93 | "price" and "name" choose those orders; any other value sorts by popularity |
| InventoryPage.Selected | src/app/inventory/page.tsx:66-81 | exactly the items of the selected category (unless "all") that match the search term (unless empty) |
| InventoryPage.GetFilteredItems | src/app/inventory/page.tsx:65-97 | a reordering of the selected items, hence no longer than the input; every result in the selected category and matching a non-empty term; price ascending for "price", name order for "name", popularity non-increasing otherwise |
| InventoryPage.SortKeyOnlyReorders | src/app/inventory/page.tsx:84-96 | the items shown do not depend on the sort key |
| InventoryPage.NoFilterShowsEverything | src/app/inventory/page.tsx:66-81 | with "all" and an empty term every item is shown |
| InventoryPage.ToggleDetails | src/app/inventory/page.tsx:58-63 | flips that id's flag (missing counts as off), adds only that key and leaves every other entry unchanged |
| InventoryPage.ToggleTwiceRestores | src/app/inventory/page.tsx:58-63 | toggling an id twice shows the same details as before |
| InventoryPage.StarCount | src/app/inventory/page.tsx:107 | `Math.round(popularity / 20)`: within half a star of popularity / 20, halves rounded up; 0..5 for popularity in [0, 100] |
| InventoryPage.StarRow | src/app/inventory/page.tsx:110-113 | five stars are drawn |
| InventoryPage.FilledBelow | src/app/inventory/page.tsx:113 | a star is filled exactly when its position is below the count |
| InventoryPage.CountFilledBelow | src/app/inventory/page.tsx:110-113 | the filled stars are the first `count` ones, clipped to 0..5 |
| InventoryPage.FilledStarsMatchCount | src/app/inventory/page.tsx:106-115 | for popularity in [0, 100] exactly the rounded number of stars is filled |
| AdminPage.SupportCount | src/app/admin/page.tsx:519 | optional supporter list length: the list's length, 0 without a list |
| AdminPage.Label | src/app/admin/page.tsx:522-525 | "N more needed" exactly when supporters < goal, with N the positive shortfall; "Goal reached" otherwise |
| AdminPage.Colour | src/app/admin/page.tsx:530-536 | green exactly when supporters ≥ goal, yellow exactly when 0.7·goal ≤ supporters < goal, blue exactly when supporters < 0.7·goal |
| AdminPage.GreenIffGoalReached | src/app/admin/page.tsx:522-535 | the bar is green exactly when the label says the goal is reached |
| AdminPage.BarWidth | src/app/admin/page.tsx:538 | with a positive goal a percentage in [0, 100], 100 exactly when the goal is reached, supporters/goal·100 below it; a zero goal gives 100 with supporters and NaN without |
| AdminPage.FullBarIffGreen | src/app/admin/page.tsx:530-538 | with a positive goal the bar is full exactly when it is green |
| AdminPage.CountStatus | src/app/admin/page.tsx:461 | a status count never exceeds the number of requests |
| AdminPage.CountStatusIsFilterLength | src/app/admin/page.tsx:461-467 | the count is the length of `requests.filter(r => r.status === status)`: exactly the requests with that status, each once |
| AdminPage.StatusCountsDisjoint | src/app/admin/page.tsx:456-468 | counts of two different statuses add up to at most the number of requests |
| AdminPage.PendingPlusApprovedAtMostTotal | src/app/admin/page.tsx:453-469 | pending plus approved is at most the total shown |
| AdminPage.TotalSupportersAppend | src/app/admin/page.tsx:473 | the supporter total `AdminPage.TotalSupporters` (the `reduce`) is additive over the list: every request counts its own supporters once |
| AdminPage.MissingListCountsZero | src/app/admin/page.tsx:473 | a request without a supporter list adds nothing |
| AdminPage.GoalFormFor | src/app/admin/page.tsx:206-213 | the form shows the existing goal (0 included) in a form that parseInt reads back as the same goal, and "10" only when there is no goal; the notes or "" |
| Basics.ParseIntToString | src/app/admin/page.tsx:209-228 | parseInt reads back every integer toString writes, so submitting the form unchanged sends the same goal |
| AdminPage.StatusBadge | src/app/admin/page.tsx:566-571 | approved, rejected and fulfilled each get their own colour; every other status, pending included, the yellow one |

## Left out

- Authentication: the session lookup is replaced by an optional `Session` argument; how it is obtained is not modelled.
- Prisma, JSON bodies and HTTP responses: the store is an in-memory value and a class over it; order and movement row ids and `createdAt` timestamps are not stored (insertion order stands for `createdAt`, so ties between equal timestamps are not modelled).
- The race between the order route's stock check and its transaction: the transaction is one atomic step.
- Floating point: prices and amounts are exact reals, so `toNumber`, `toFixed`, rounding and the 0.7 threshold are exact.
- Parsing of request bodies: `parseInt(currentStock)` arrives as `Option<int>`, `parseFloat(amountWanted)` as `Option<real>` and the API product's string price as a real; only the goal form's `parseInt` round trip is modelled, and leading white space is not.
- Unicode: lower-casing covers ASCII letters only, and `localeCompare` is code-point lexicographic order.
- `convertProductToInventoryItem`: a category equal to an inherited object key (such as "constructor") is not modelled; such keys count as unknown.
- `getItemsByCategory('all')` returns the shared array itself, so later in-place sorts are visible through it; the model returns a value and does not capture that aliasing.
- `addNewItem`: an input carrying its own `id` would override the computed one through the object spread; `NewItem` has no id field.
- Requests.AddingSupporterNeverLowersProgress: stated only for a non-negative goal, because a negative goal, which nothing rejects, makes more support lower the percentage.
- Orders.OrderKeepsStockNonNegative: needs a non-negative quantity, because the route never checks it.
- InventoryPage.StarCount: integer popularity only; the page would also round non-integer values.
- The support add/remove endpoints, request PATCH/DELETE and product PUT/DELETE are not part of this model, and neither are the `stock_removed` movements they might write (the ledger counts them but no modelled route writes one).
- The fetch handlers, alerts and rendering of the admin, inventory and requests pages, the network wrappers of the inventory service, the mock front-end pages and the database seed script.
