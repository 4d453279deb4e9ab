# Warehouses: stock ledger and order fulfilment, in Dafny

This project models the stock bookkeeping of a small Laravel inventory
backend. Two services hold the logic:

- `StockService` makes stock corrections. It validates the adjustment type,
  first-or-creates the (product, warehouse) row, increments the row or checks
  and decrements it, and records an unsigned movement.
- `OrderService` creates orders, replaces their items and changes their
  status. It does this through a per-item `deductStock`, which checks the
  count, logs a signed `decrease` movement holding the previous stock, then
  decrements. It also uses a `restoreStock` loop that writes no movement.

The shared database is the class `Model.Database`. It holds the stock table as
a `map<Key, int>` with `Key = (product, warehouse)`, the movement log as a
`seq<Movement>` that only grows, and the orders (with their items) as a
`map<OrderId, Order>`. The service operations are methods that change these
fields. Each `DB::transaction` closure becomes a method that takes a snapshot
of the fields and puts it back on every error path. Each operation is also
given as a function on values (`DeductItems`, `RestoreItems`, `Adjusted`).
The methods are proved equal to these functions, and the properties are
lemmas about the functions.

Choices the model makes about the source:

- **One counter per row.** `OrderService` reads and decrements the row as
  `quantity` (app/Services/OrderService.php:120, :138). It increments the row
  as `stock` (app/Services/OrderService.php:153), and `StockService` and the
  `Stock` model also use `stock`. The model keeps a single count per row for
  both names.
- **Null counts.** In `deductStock`, `value('quantity')` gives null when no row
  exists. A row that `adjustStock` has just created has a null `stock`
  attribute. PHP 8 compares `null < q` as two booleans, so the test holds
  exactly when `q != 0` (`Ledger.Insufficient`). For `q >= 0` this is the same
  as counting a missing row as 0 (`Ledger.InsufficientAgainstCount`).
- **Missing rows.** `decrement` and `increment` on a missing row match no row
  and change nothing (`Decremented`, `Incremented`). `firstOrCreate` makes a
  row at 0; this assumes the column defaults to 0.
- **Status changes.** `changeStatus('active')` restores the order's items and
  does not re-deduct them. The `canceled → active` re-deduction sits inside
  the `completed`/`canceled` branch, where it can never run. The model keeps
  that guard with `assert false` inside, so the verifier checks that it is
  unreachable. `changeStatus` has no transaction. Nothing can fail after its
  validation, so no rollback is needed.
- **Movement quantities.** `adjustStock` logs the unsigned quantity with no
  previous stock. `deductStock` logs the negated quantity with the count it
  read.
- **The store path.** `OrderController::store` runs `createOrder` and then
  `processOrderMovements` on the same items. Items are therefore deducted
  twice, and the second pass can fail after the order is committed
  (`OrderController.Store`, `StoreDeductsTwice`, `StoreSecondPassFails`).

Three more consequences of the code:

- Restoring stock writes no movement.
- A reactivated order is never re-deducted.
- No invariant keeps a count non-negative: an `increase` by a negative
  quantity can push it below 0. The lemmas therefore state non-negativity as
  something an operation preserves.

## Model

| member | source | states |
|---|---|---|
| `Ledger.Lookup` | app/Services/OrderService.php:118-120 | the value read is present exactly when the row exists, and then it is the stored count |
| `Ledger.InsufficientAgainstCount` | app/Services/OrderService.php:122 | for a non-negative request, the null-aware `<` check is the same as comparing with the count, a missing row counting as 0 |
| `Ledger.SufficientKeepsNonNegative` | app/Services/OrderService.php:122-138 | a request that passes the check leaves the row at or above 0, whatever it held; a missing row passes only a zero request |
| `Ledger.Insufficient` | app/Services/OrderService.php:122 | PHP 8's `$current < $q` with a nullable current count: a stored count is compared numerically, and null is below `q` exactly when `q` is non-zero (the same test guards `decrease` at app/Services/StockService.php:43) |
| `StockService.AdjustmentTypeOf` | app/Services/StockService.php:28-30 | only "increase" and "decrease" are accepted, each to its own type; every other string is rejected |
| `StockService.Adjusted` | app/Services/StockService.php:34-47 | the stock table after a committed adjustment: the row is created at 0 if absent, then raised by `q` for an increase or lowered by `q` for a decrease; `None` when a decrease fails the null-aware check and the transaction rolls back |
| `StockService.AdjustedChangesOnlyKey` | app/Services/StockService.php:34-47 | an adjustment fails exactly for an insufficient decrease; otherwise it creates the row if absent, moves its count by exactly the quantity in the type's direction, and leaves every other row unchanged |
| `StockService.AdjustedKeepsNonNegative` | app/Services/StockService.php:42-47 | a committed decrease, or an increase by a non-negative quantity, keeps all counts non-negative |
| `StockService.IncreaseThenDecrease` | app/Services/StockService.php:40-47 | an increase always commits; a decrease of the same quantity then commits exactly when the original count was non-negative, and restores the original counts |
| `StockService.RecordMovement` | app/Services/StockService.php:63-71 | appends exactly one movement holding the unsigned quantity and the type, with no previous stock |
| `StockService.AdjustStock` | app/Services/StockService.php:25-52 | an invalid type fails before any change; an insufficient decrease fails and rolls back, so no row is created and nothing is logged; a committed adjustment gives the table `Adjusted(...)` plus one movement; orders are untouched |
| `StockService.GetStock` | app/Services/StockService.php:81-89 | returns the stored count when the row exists and 0 otherwise, and changes nothing |
| `OrderService.StatusOf` | app/Services/OrderService.php:90-100 | accepts exactly "active", "completed" and "canceled", each to its own status |
| `OrderService.Decremented` | app/Services/OrderService.php:136-138 | `decrement('quantity', q)` on the rows matching the key: the row's count minus `q`, and no change when no row matches |
| `OrderService.Incremented` | app/Services/OrderService.php:151-153 | `increment('stock', q)` on the rows matching the key: the row's count plus `q`, and no change when no row matches |
| `OrderService.DeductItems` | app/Services/OrderService.php:37-39 | the foreach over `deductStock` (app/Services/OrderService.php:115-139): item by item, the null-aware check against the current table, one decrease movement with the count read, then the decrement; `None` at the first item that fails the check |
| `OrderService.RestoreItems` | app/Services/OrderService.php:150-154 | the foreach of `restoreStock`: item by item, the increment of that item's row at the order's warehouse |
| `OrderService.FirstShortItem` | app/Services/OrderService.php:122-123 | the item a run of deductions throws at: every earlier item passes, and this one fails the null-aware check against the table they leave |
| `OrderService.FirstShortItemUnique` | app/Services/OrderService.php:122-123 | at most one item is the first that fails the check, so a failed run's error and its deducted prefix are determined by the inputs |
| `OrderService.DecrementedWhenSufficient` | app/Services/OrderService.php:122-138 | after a passed check the count of that row drops by exactly the request and stays at or above 0, and no other row or key changes |
| `OrderService.DeductPrefixFails` | app/Services/OrderService.php:37-39 | once some prefix of the items fails to deduct, the whole run fails |
| `OrderService.DeductItemsEffect` | app/Services/OrderService.php:37-39 | a successful run creates no row; it lowers each product at the warehouse by its total over the items and leaves other warehouses unchanged; it logs one decrease movement per item, in item order, with the negated count |
| `OrderService.DeductItemsKeepsNonNegative` | app/Services/OrderService.php:122-138 | a successful run keeps a non-negative table non-negative |
| `OrderService.DeductItemsSucceedsIff` | app/Services/OrderService.php:37-39 | with positive counts, a run succeeds if and only if every ordered product's stock at the warehouse covers the total ordered of it |
| `OrderService.RestoreItemsEffect` | app/Services/OrderService.php:147-155 | restoring raises each existing row at the warehouse by that product's total; missing rows stay missing and other warehouses are unchanged |
| `OrderService.RestoreThenDeductIsNoOp` | app/Services/OrderService.php:63-75 | restoring items and deducting the same items again succeeds and gives back the original table, when each item's row exists, its count is non-negative and every count is positive |
| `OrderService.UpdateNetEffect` | app/Services/OrderService.php:62-76 | after a successful item update, each existing row at the warehouse equals its old count plus the old items' total minus the new items' total; nothing else changes |
| `OrderService.DeductStock` | app/Services/OrderService.php:115-139 | an insufficient row throws with the product and changes nothing; otherwise exactly one movement (product, warehouse, −q, decrease, previous count) is appended and only that row is decremented by q |
| `OrderService.DeductEach` | app/Services/OrderService.php:37-39 | the state after deducting the items is `DeductItems` of some prefix; it succeeds exactly when the whole run does; a failure names the first item that finds too little stock, and the items before it stay deducted |
| `OrderService.RestoreStock` | app/Services/OrderService.php:147-155 | the table becomes `RestoreItems` of the old table; no movement is written and no order changes |
| `OrderService.CreateOrder` | app/Services/OrderService.php:23-43 | on success a new order id receives an active order with exactly the given items, the stock becomes the deducted table and the items' movements are appended; on insufficiency no order, movement or stock change remains, and the error names the product of the first item that fails the check |
| `OrderService.UpdateOrder` | app/Services/OrderService.php:53-78 | without items, only the customer changes, and only when one is given; with items, the stock is the new items deducted from the restored table and the items are replaced; on insufficiency (judged against the restored table) the customer change, the restores and the item replacement are all rolled back, and the error names the product of the first new item that fails the check |
| `OrderService.DeductStockForOrder` | app/Services/OrderService.php:164-170 | deducts the order's own items at its warehouse with no rollback: a failure stops at the first item k that fails the check, keeps the items before k deducted and logged, and names item k's product |
| `OrderService.ChangeStatus` | app/Services/OrderService.php:88-104 | an unknown status throws with no stock or order change; "active" restores the items with no movement; "completed" and "canceled" leave stock unchanged; the status is then stored |
| `OrderService.ProcessOrderMovements` | app/Services/OrderService.php:175-205 | deducts at the order's warehouse with no transaction: a failure stops at the first item k that fails the check, names item k's product, and leaves the deductions and movements of the items before k in place |
| `OrderController.Store` | app/Http/Controllers/OrderController.php:36-46 | a creation failure changes nothing, the order-id counter included, and names the first short item's product; otherwise the order persists under the next id, the counter advances by one, and one full deduction is followed by a second pass over the same items that may stop partway, at the first item that fails the check against the once-deducted table, failing with that item's product |
| `OrderController.StoreDeductsTwice` | app/Http/Controllers/OrderController.php:39-42 | when both passes succeed, each product has lost twice its ordered total, and each pass logs one decrease movement per item, in item order, with that item's product and negated count |
| `OrderController.StoreSecondPassFails` | app/Http/Controllers/OrderController.php:39-42 | with positive counts, an order that takes more than half of some product's stock passes creation and then fails the second pass |
| `OrderService.CreateRejectsShortItem` | app/Services/OrderService.php:25-42 | items [p1 × 5, p2 × 3] against stock {p1: 10, p2: 2} fail as a whole |
| `OrderService.DeductionStopsAtSecondItem` | app/Services/OrderService.php:183-189 | items [p1 × 5, p2 × 3] against {p1: 10, p2: 2} pass the first item and stop at the second, with p1 left at 5 |
| `OrderService.UpdateReplacesDeduction` | app/Services/OrderService.php:62-76 | stock 10 with an order of 5 becomes 5; updating that order to 2 makes it 8 |

## Left out

- Concurrency, row locking and lost-update races: each transaction is one single-threaded all-or-nothing step.
- Controllers, routes, request validation and JSON resources are thin wrappers and are not modelled, except the `store` composition. Product, warehouse and order existence checks belong to those layers, so an order id is a precondition.
- The movement listing filter and pagination (app/Http/Controllers/MovementController.php:21-36): this is a query-builder wrapper.
- Eloquent model declarations, seeders (they use `rand`) and migrations: these are schema and data only.
- Timestamps (`created_at`, `completed_at`) and movement row ids: the core never computes on them.
- Exception messages: each error is a constructor in `Model.Error`, and only the product id is kept.
- `processOrderMovements` names the class `Movement`, but only `Movements` is imported, so at run time the call would fail on class resolution. The model appends the movement that is evidently intended.
- The order-id counter is rolled back with the rest of a failed transaction. Gaps in auto-increment ids are not modelled.
- PHP's 64-bit integer range: counts are unbounded integers.
