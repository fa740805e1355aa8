# Order lifecycle, stock ledger and services, modelled in Dafny

This project models the in-memory back end of a small Python shop service.
Every service keeps its state in module-level dicts and lists.

- Products sit in a table with a SKU index. `update_stock` is the only stock
  mutator: it either commits `stock + delta` or refuses and changes nothing.
- Orders sit in a table with a per-user index. A fixed status transition
  table governs them.
- The order service composes the two:
  - creating an order validates it, stores it and reserves stock item by item;
  - cancelling or refunding an order releases the stock;
  - submitting an order moves it from "created" to "pending".
- The inventory service reserves, releases, syncs and audits stock. Its
  low-stock reorder check queues an alert in the notification queue.
- The secondary services are:
  - the priority-sorted notification queue and its batch processing;
  - the payment ledger and its status rules, plus the card checks;
  - the user table, its audit log, and registration, login and deactivation;
  - the analytics event log with per-user session counters;
  - the report table;
  - the middleware helpers: token extraction, roles, header masking and
    parsing, the sliding-window rate limiter, CORS and compression;
  - the string, record and validation helpers of `utils.py`,
    `formatters.py` and `validators.py`.

Each Python module becomes one Dafny module. A module whose globals are
mutated also gets one class that holds those globals:

- `ProductStore`, `OrderStore`, `UserStore`;
- `NotificationCenter`, `PaymentLedger`, `EventLog`, `ReportStore`;
- `RateLimiter`.

The methods of these classes carry `modifies` clauses. Service functions
that work on several stores are module-level methods that take the stores as
parameters.

Data representation:

- An insertion-ordered dict is a `Tables.Table`: a map plus the key order.
  The key order matters wherever the code iterates over `.values()`.
- Records the code treats as free-form dicts (users, report data, metadata)
  are maps from strings to a small JSON value type.
- Records of a fixed shape (products, orders, items, notifications,
  payments) are datatypes. A key that may be absent is an `Option`.
- Money is integer cents.
- Python slicing, `str.split`, `str.replace`, `.strip()`, `.lower()` and
  `.upper()` are written out with their Python semantics. Character
  classes are ASCII.

Helper modules:

- `Common`: options, string helpers, Python slices, filters.
- `Json`: JSON values.
- `Tables`: ordered dicts.
- `Sorting`: Python's stable `sorted` by an integer key.
- `Counting`: dict counters kept in first-seen order.

The model keeps these behaviours of the code as written:

- `validate_amount` accepts amounts from 0.01 up.
- `update_inventory` reports the new quantity even when it is refused.
- `sync_single_product` answers True even when the update is refused.
- `reserve_order_stock` never rolls back.
- Checks are tested in the order in which the code tests them.

## Model

| member | source | states |
|---|---|---|
| `ProductRepository.ProductStore.FindById` | product_repository.py:7-8 | Some exactly for a stored id, and then that product |
| `ProductRepository.ProductStore.FindBySku` | product_repository.py:11-15 | Some exactly when the sku is indexed to a non-empty id of a stored product, and then that product; an unindexed sku gives None |
| `ProductRepository.ProductStore.Create` | product_repository.py:18-23 | the product is stored under its id and its sku indexed to it; find by id, and by sku for a non-empty id, then return it |
| `ProductRepository.ApplyUpdate` | product_repository.py:30-32 | one assignment of the update loop: the id is never overwritten, the named field holds the new value, every other field is kept |
| `ProductRepository.ApplyUpdatesEffect` | product_repository.py:26-33 | after all updates the id is unchanged, unnamed fields are kept, and every named field holds its given value |
| `ProductRepository.ProductStore.Update` | product_repository.py:26-33 | None and no change for an unknown id; otherwise the stored product becomes the result of applying the updates, and the sku index is not touched |
| `ProductRepository.ProductStore.Delete` | product_repository.py:36-43 | True exactly when the id existed; then the product and its sku entry are gone; otherwise nothing changes |
| `ProductRepository.ProductStore.ListProducts` | product_repository.py:46-50 | a prefix of the table's values in key order (only the active ones when `active_only`) of length min(limit, count) for limit ≥ 0, or count + limit (at least 0) for a negative limit; with limit ≥ the table size every listable product is in it |
| `ProductRepository.FilterActiveProducts` | product_repository.py:53-54 | no longer than the input; exactly the products whose `active` flag is true or absent |
| `ProductRepository.Adjusted` | product_repository.py:80-88 | the effect of update_stock: stock + delta for an existing product when that is ≥ 0; an unknown id or a negative result changes nothing; no other product changes |
| `ProductRepository.ProductStore.UpdateStock` | product_repository.py:80-88 | returns the new stock (≥ 0) or None as `StockResult` says, the table becomes `Adjusted`, key order and sku index unchanged |
| `ProductRepository.ApplyAll` | product_repository.py:80-88 | a sequence of update_stock calls keeps the set of product ids |
| `ProductRepository.ApplyAllNonNegative` | product_repository.py:80-88 | from non-negative stocks, every sequence of update_stock calls keeps every stock ≥ 0 |
| `ProductRepository.CommittedShift` | product_repository.py:84-88 | when every call commits, each product's stock moves by the sum of its deltas |
| `ProductRepository.TouchedNonNegative` | product_repository.py:84-88 | a product touched by committed calls exists and ends with stock ≥ 0 |
| `ProductRepository.PositiveCommit` | product_repository.py:84-88 | positive deltas on existing products with non-negative stock always commit |
| `ProductRepository.NetNonNegative` | product_repository.py:84-88 | the net delta of positive calls is non-negative |
| `ProductRepository.UndoRestores` | product_repository.py:80-88 | after committed decrements, the matching increments all commit and restore the table exactly |
| `ProductRepository.NetUndo` | product_repository.py:80-88 | negated calls cancel the net delta of every product |
| `ProductRepository.SelectLowStock` | product_repository.py:92-96 | the loop keeps exactly the products whose stock is at most the threshold, in their order |
| `ProductRepository.ProductStore.GetLowStock` | product_repository.py:91-100 | exactly the listed active products with stock ≤ threshold, in table order (a missing `active` counts as active) |
| `OrderRepository.TransitionFacts` | order_repository.py:37-45 | every allowed transition raises the status rank; nothing leads to "created"; "cancelled" and "returned" have no successor |
| `OrderRepository.ChainIncreases` | order_repository.py:27-45 | along any chain of accepted status updates no status recurs, "created" never comes back, and a chain has at most seven statuses |
| `OrderRepository.RankSpread` | order_repository.py:37-45 | a strictly rising chain spans at least its length in rank |
| `OrderRepository.OrderStore.Find` | order_repository.py:6-7 | Some exactly for a stored id, and then that order |
| `OrderRepository.OrderStore.CreateRecord` | order_repository.py:10-24 | the order is stored and findable under its id, and its id is appended to its owner's index list |
| `OrderRepository.OrderStore.UpdateStatus` | order_repository.py:27-34 | None and no change for an unknown id or an illegal transition; otherwise only the status changes and the updated order is returned |
| `OrderRepository.OrderStore.Delete` | order_repository.py:48-52 | True exactly when the id existed; the record is removed and the user index keeps the id |
| `OrderRepository.Resolve` | order_repository.py:55-62 | an index list resolves to stored orders only, no more than there are ids |
| `OrderRepository.ResolveAfterDelete` | order_repository.py:48-62 | deleting a record drops exactly that id's entries from what an index list resolves to |
| `OrderRepository.OrderStore.ListOrdersByUser` | order_repository.py:55-66 | the user's stored orders in index order, deleted ones skipped, at most `limit` |
| `OrderRepository.OrderStore.GetOrderItems` | order_repository.py:80-84 | the order's items, or [] for an unknown order |
| `OrderRepository.OrderStore.CalculateOrderTotal` | order_repository.py:87-89 | the sum of the item subtotals, 0 for an unknown order |
| `OrderRepository.SummarizeOrder` | order_repository.py:97-103 | id, status and total copied, item count = number of items |
| `Models.CreateOrderItem` | models.py:28-36 | defaults quantity 1, price 0, product id ""; subtotal = quantity × price |
| `Models.CreateOrderItems` | models.py:20 | one item per input item, in order |
| `Models.CreateOrderModel` | models.py:15-25 | items in input order and count, status "created", total = sum of subtotals = Σ quantity × price |
| `Models.CreatedTotal` | models.py:19-24 | when each subtotal is quantity × price, the total is Σ quantity × price |
| `Models.OrderTotalAppend` | models.py:24 | the total of concatenated item lists is the sum of the totals |
| `Models.OrderTotalNonNegative` | models.py:24 | non-negative subtotals give a non-negative total |
| `Models.CreateProductModel` | models.py:39-47 | active, sku set, sanitised name, stock defaulting to 0 |
| `Models.CreateNotificationModel` | models.py:71-79 | sanitised subject and body, unread, no recipient yet |
| `Models.CreatePaymentModel` | models.py:50-57 | a new payment is pending with the given order, amount and method |
| `Models.CreateUserModel` | models.py:5-12 | exactly the keys id, name, email, role, active; active true, name sanitised |
| `Models.StripNoneValues` | models.py:88-89 | removes exactly the keys mapped to None and keeps the other values |
| `Models.ValidateModel` | models.py:98-102 | true iff every required field is present and not None |
| `Models.CloneModel` | models.py:105-110 | all fields copied, a new id, overrides applied last; the source is a value and stays unchanged |
| `OrderService.ItemFailure` | order_service.py:36-43 | an item passes iff its quantity is valid, then its price, then its product exists; the first failing check names the reason |
| `OrderService.ItemsVerdict` | order_service.py:34-44 | an empty list is refused; otherwise None iff every item passes, else the first failing item's reason |
| `OrderService.CheckProductExists` | order_service.py:47-48 | true iff the product is stored |
| `OrderService.ValidateOrderItems` | order_service.py:34-44 | the early-return loop computes `ItemsVerdict` |
| `OrderService.ValidatedItems` | order_service.py:34-44 | every item of an accepted list has an explicit quantity in 1..10000, a valid price and a stored product |
| `OrderService.Reservations` | order_service.py:51-53 | one update_stock call per item, minus its quantity, in order |
| `OrderService.Releases` | order_service.py:69-71 | one update_stock call per item, plus its quantity, in order |
| `OrderService.RunStockChanges` | order_service.py:51-53 | the loop applies every change in order, ignoring each result |
| `OrderService.ReserveOrderStock` | order_service.py:51-53 | stock becomes the result of all the decrements; refused ones are skipped, nothing is rolled back |
| `OrderService.ReleaseOrderStock` | order_service.py:69-71 | stock becomes the result of all the increments |
| `OrderService.NoRollbackExample` | order_service.py:51-53 | example: with 5 in stock, reserving 3 and then 3 more leaves 2: the second decrement is skipped and the first stands |
| `OrderService.RefusedSkipped` | order_service.py:51-53 | a refused decrement leaves the table unchanged, so earlier decrements stand |
| `OrderService.ReleaseUndoesReservation` | order_service.py:51-71 | when every decrement committed and all quantities are positive, releasing restores the stock exactly |
| `OrderService.CreateOrder` | order_service.py:15-31 | USER_NOT_FOUND, USER_INACTIVE, BAD_CURRENCY, INVALID_ITEMS in that order, changing nothing; on success the order model is stored and indexed, its decrements are applied, product key order and the sku index are kept, and success is returned regardless; it succeeds exactly when none of the four checks fails |
| `OrderService.CancelOrder` | order_service.py:56-71 | NOT_FOUND, FORBIDDEN, INVALID_STATE in that order, changing nothing; it succeeds exactly for the caller's own order in created, pending or processing, which becomes cancelled with its quantities added back, product key order and the sku index kept |
| `OrderService.ProcessRefund` | order_service.py:97-106 | NOT_FOUND, or INVALID_STATE unless delivered, changing nothing; it succeeds exactly for a delivered order, which becomes "returned" with its quantities added back (product key order and sku index kept) and a refund of the sum of subtotals |
| `OrderService.ValidateOrder` | order_service.py:144-151 | None iff the order exists and has items; otherwise "Order not found" or "No items" |
| `OrderService.SubmitOrder` | order_service.py:154-161 | succeeds exactly for an existing order with items in status "created", which becomes "pending"; any failure changes nothing |
| `OrderService.LookupDiscount` | order_service.py:139-141 | SAVE10 → 10 and SAVE20 → 20, ignoring case; anything else None |
| `OrderService.DiscountIgnoresCase` | order_service.py:139-141 | for every code, its upper-case and lower-case spellings find the same percentage as the code itself |
| `OrderService.DiscountCaseInsensitive` | order_service.py:139-141 | examples: "save10" and "Save10" find 10, "save20" finds 20, "save30" finds none |
| `InventoryService.ClassifyStockLevel` | inventory_service.py:62-69 | ≤ 0 out_of_stock, 1..10 low, 11..50 medium, > 50 high |
| `InventoryService.ClassifyMonotone` | inventory_service.py:62-69 | more stock never gives a lower level |
| `InventoryService.CheckAvailability` | inventory_service.py:12-21 | NOT_FOUND for an unknown product; otherwise available iff stock ≥ quantity; reads the store only |
| `InventoryService.ReorderAlert` | inventory_service.py:82-86 | the alert is an unread system e-mail notification |
| `InventoryService.ReorderEntry` | inventory_service.py:87-88 | the alert is queued with priority 1 |
| `InventoryService.TriggerReorderAlert` | inventory_service.py:82-88 | the queue becomes the stable sort of the old queue plus the priority-1 alert |
| `InventoryService.CheckReorderNeeded` | inventory_service.py:72-79 | true iff the product exists with stock ≤ 10, and exactly then one alert is queued |
| `InventoryService.ReserveStock` | inventory_service.py:24-32 | OUT_OF_STOCK with nothing changed iff the product is missing or short; otherwise remaining = stock − quantity, and an alert is queued iff remaining ≤ 10 |
| `InventoryService.ReleaseStock` | inventory_service.py:35-39 | the stock becomes `Adjusted`; RELEASE_FAILED when update_stock refuses, otherwise the new stock |
| `InventoryService.UpdateInventory` | inventory_service.py:42-48 | NOT_FOUND for an unknown product; a target ≥ 0 becomes the stock; a negative target leaves the stock unchanged, yet the target is still reported |
| `InventoryService.SyncTarget` | inventory_service.py:146-152 | a sync item resolves only to a stored product |
| `InventoryService.SyncStep` | inventory_service.py:146-156 | a sync step keeps the set of products |
| `InventoryService.SyncSetsStock` | inventory_service.py:146-156 | a resolved item sets that product's stock to the external quantity when it is ≥ 0; a negative quantity changes nothing |
| `InventoryService.SyncAll` | inventory_service.py:134-143 | syncing a list keeps the set of products |
| `InventoryService.SyncSingleProduct` | inventory_service.py:146-156 | False with no change for a missing, empty or unknown sku; otherwise True, and the stock is set through update_stock |
| `InventoryService.SyncInventory` | inventory_service.py:134-143 | synced + errors = number of items, synced = number of resolvable items, and the table is the in-order sync of all items |
| `InventoryService.Discrepancies` | inventory_service.py:159-176 | at most one discrepancy per product checked, in product order |
| `InventoryService.DiscrepanciesSound` | inventory_service.py:159-176 | every listed discrepancy comes from a mismatched product and has diff = actual − expected ≠ 0 |
| `InventoryService.DiscrepanciesComplete` | inventory_service.py:159-176 | every product whose expected stock differs from its stock is listed |
| `InventoryService.AuditInventory` | inventory_service.py:159-176 | checks every listed product and reports its discrepancies and how many there are |
| `NotificationService.TruncateSms` | notification_service.py:36-39 | messages of ≤ 160 characters are unchanged; longer ones become the first 157 plus "...", exactly 160 long |
| `NotificationService.DispatchNotification` | notification_service.py:114-124 | succeeds iff the channel is email, sms, push or webhook |
| `NotificationService.Dispatched` | notification_service.py:101-107 | only the entry's status changes, and it is "sent" iff the notification dispatches |
| `NotificationService.MarkBatch` | notification_service.py:101-107 | each batch entry is marked in place, in order |
| `NotificationService.KeptFailures` | notification_service.py:101-110 | the kept batch entries are exactly the failed ones, each marked failed |
| `NotificationService.AfterBatchSorted` | notification_service.py:98-111 | a priority-sorted queue stays sorted after processing; the failed entries come first, then the untouched tail |
| `NotificationService.AfterBatchShape` | notification_service.py:98-111 | the failed entries, each marked failed, are followed by the entries beyond the batch; the queue shrinks by the number sent |
| `NotificationService.NotificationCenter.QueueNotification` | notification_service.py:82-95 | the entry is inserted into the queue by a stable sort: after every entry of equal or lower priority, before every higher one; the queue grows by exactly that entry |
| `NotificationService.DispatchBatch` | notification_service.py:100-107 | each batch entry is marked "sent" exactly when it dispatches, otherwise "failed"; processed counts the dispatched entries and processed + errors is the batch length |
| `NotificationService.NotificationCenter.ProcessQueue` | notification_service.py:98-111 | processed + errors = min(batch, queue length); new length = old length − processed; failed entries are kept ahead of the untouched tail |
| `Sorting.SortBySorted` | notification_service.py:94-95 | the queue sort yields a list sorted by priority |
| `Sorting.SortByPermutation` | notification_service.py:94-95 | the queue sort only reorders: same multiset of entries |
| `Sorting.SortSortedIsIdentity` | notification_service.py:94-95 | sorting an already sorted queue changes nothing, so equal priorities keep their order |
| `Sorting.AppendThenSort` | notification_service.py:89-90 | appending to a sorted queue and sorting is one stable insertion |
| `Sorting.InsertBySplit` | notification_service.py:89-90 | that insertion puts the entry after every key ≤ its own and before every key above it, and keeps the queue sorted |
| `NotificationService.NotificationCenter.SendEmail` | notification_service.py:15-22 | BAD_EMAIL stores and tracks nothing; otherwise the notification with its recipient is stored and one event is tracked |
| `NotificationService.NotificationCenter.SendSms` | notification_service.py:25-33 | BAD_PHONE stores and tracks nothing; otherwise the notification carries the number and the message cut to 160 characters |
| `NotificationService.NotificationCenter.MarkRead` | notification_service.py:134-139 | NOT_FOUND for an unknown id; otherwise that notification becomes read in place |
| `NotificationService.NotificationCenter.ListNotifications` | notification_service.py:142-149 | exactly the user's notifications, without the read ones when unread_only, in table order |
| `NotificationService.NotificationCenter.GetUnreadCount` | notification_service.py:180-185 | equals the count of list_notifications(u, unread_only=True) |
| `NotificationService.FilterCountUpdate` | notification_service.py:134-139 | replacing a passing element by a failing one lowers the filtered count by one |
| `NotificationService.MarkReadLowersUnread` | notification_service.py:134-139 | mark_read on an unread notification lowers its user's unread count by one |
| `NotificationService.ReplaceAbsent` | notification_service.py:173-177 | `str.replace` of an absent pattern leaves the text unchanged |
| `NotificationService.Placeholder` | notification_service.py:175-176 | a placeholder starts with "{{" |
| `NotificationService.NoPlaceholder` | notification_service.py:173-177 | text without "{{" contains no placeholder |
| `NotificationService.SubstituteVariables` | notification_service.py:173-177 | replaces each placeholder in dict order; text without "{{" is returned unchanged |
| `PaymentService.ExecutePayment` | payment_service.py:37-38 | the retry succeeds, so the payment executes as completed |
| `PaymentService.CreateRefund` | payment_service.py:52-59 | a processed refund of the whole payment amount for that payment |
| `PaymentService.FilterByOrder` | payment_service.py:92-93 | exactly the payments of that order |
| `PaymentService.PaymentLedger.constructor` | payment_service.py:8 | an empty ledger with no failed payment |
| `PaymentService.PaymentLedger.GetPaymentById` | payment_service.py:62-63 | Some exactly for a stored id, and then that payment |
| `PaymentService.PaymentLedger.ProcessPayment` | payment_service.py:11-26 | BAD_AMOUNT, BAD_CURRENCY, BAD_METHOD in that order, storing nothing; otherwise the payment is stored as completed; a ledger with no failed payment keeps none |
| `PaymentService.PaymentLedger.RefundPayment` | payment_service.py:41-59 | NOT_FOUND or INVALID_STATE with no change; succeeds iff the payment is completed, which becomes refunded; the refund amount equals the payment amount |
| `PaymentService.PaymentLedger.RetryFailedPayment` | payment_service.py:152-161 | NOT_FOUND or INVALID_STATE for a payment that has not failed, unchanged; a failed one completes; a ledger with no failed payment always refuses |
| `PaymentService.PaymentLedger.ListPayments` | payment_service.py:85-89 | count = size of the filtered list (the requested order's payments, or all); the payments are a prefix of that list in table order, of Python's `[:limit]` length for every limit, including a negative one, all of the requested order |
| `PaymentService.NoFailedPaymentsScenario` | payment_service.py:11-38 | example: after process_payment and refund_payment on a ledger with no failed payment, retry_failed_payment refuses |
| `PaymentService.WithoutMember` | payment_service.py:119 | `replace(c, "")` keeps every character other than c and removes c |
| `PaymentService.WithoutAppend` | payment_service.py:119 | removing a character distributes over concatenation |
| `PaymentService.CardDigitsOnly` | payment_service.py:118-120 | after removing spaces and hyphens only digits remain iff the number has only digits, spaces and hyphens |
| `PaymentService.CardDigitsAreDigits` | payment_service.py:118-120 | for such a number the remaining characters are exactly its digits |
| `PaymentService.CheckCardNumberMeans` | payment_service.py:118-120 | true iff the number has only digits, spaces and hyphens and 13 to 19 digits |
| `PaymentService.CardNumberSeparator` | payment_service.py:118-120 | a space or hyphen anywhere does not change the verdict |
| `PaymentService.ExpiryShape` | payment_service.py:123-125 | an accepted expiry is two non-empty digit runs around one "/" |
| `PaymentService.ExpiryAccepts` | payment_service.py:123-125 | any two non-empty digit runs around "/" are accepted |
| `PaymentService.DetectCardType` | payment_service.py:128-134 | with spaces removed, a leading 4 is visa, a leading 5 mastercard, anything else unknown |
| `PaymentService.DetectIgnoresSpaces` | payment_service.py:128-134 | leading spaces do not change the card type |
| `PaymentService.ValidateCard` | payment_service.py:108-115 | valid iff the number and expiry pass and the cvv has 3 or 4 characters; the type is detect_card_type's: visa iff the number without spaces starts with 4, mastercard iff it starts with 5, otherwise unknown |
| `UserRepository.NormalizeEmail` | user_repository.py:18-19 | the result has no upper-case letter and no surrounding whitespace |
| `UserRepository.NormalizeIdempotent` | user_repository.py:18-19 | normalising twice is normalising once |
| `UserRepository.FirstByEmail` | user_repository.py:10-15 | the first user in table order whose normalised email matches, None iff there is none |
| `UserRepository.UserStore.FindByEmail` | user_repository.py:10-15 | the loop returns `FirstByEmail` of the normalised argument |
| `UserRepository.UserStore.UserExists` | user_repository.py:83-84 | true iff some stored user's normalised email matches |
| `UserRepository.UserStore.FindById` | user_repository.py:6-7 | Some exactly for a stored id, and then that user |
| `UserRepository.UserStore.Create` | user_repository.py:22-26 | the user is stored under its id and exactly one "created" entry is logged |
| `UserRepository.OverlayFacts` | user_repository.py:33-35 | the update loop never overwrites the id, sets every other given key and keeps the rest |
| `UserRepository.AssignExceptId` | user_repository.py:33-35 | the assignment loop computes that overlay |
| `UserRepository.UserStore.Update` | user_repository.py:29-37 | None and nothing logged for an unknown or empty user; otherwise the overlay is stored and one "updated" entry is logged |
| `UserRepository.UserStore.Delete` | user_repository.py:40-45 | True and "deleted" logged exactly when the user existed; otherwise no change |
| `UserRepository.UserStore.ListUsers` | user_repository.py:48-52 | a prefix of the table's values in key order (only the active ones when `active_only`) of length min(limit, count) for limit ≥ 0, or count + limit (at least 0) for a negative limit; with limit ≥ the table size every listable user is in it |
| `UserRepository.FilterActive` | user_repository.py:55-56 | no longer than the input; exactly the users whose `active` flag is true or absent |
| `UserRepository.ExtractRoles` | user_repository.py:94-98 | ["admin", "user"] for admin, [role] otherwise, ["user"] by default |
| `UserRepository.UserStore.GetAuditLog` | user_repository.py:108-109 | exactly the entity's entries of the log, in logged order (the order-preserving filter that AuditAppend extends) |
| `UserRepository.AuditAppend` | user_repository.py:104-109 | an entity's log grows by exactly the entries appended for it, in append order |
| `UserService.SanitizeUserOutput` | user_service.py:28-30 | every key except "password_hash", with its value |
| `UserService.SanitizeOutputIdempotent` | user_service.py:28-30 | sanitising twice is sanitising once |
| `UserService.SanitizeUpdates` | user_service.py:61-63 | only the name, email, phone and address keys, values rendered and sanitised |
| `UserService.ProfileUpdateKeepsProtected` | user_service.py:52-63 | a profile update never changes a key outside the four profile keys |
| `UserService.RegisteredUser` | user_service.py:18-23 | the stored user is active, carries the hash and has exactly the model's keys plus the hash |
| `UserService.RegisterUser` | user_service.py:12-25 | INVALID_NAME, INVALID_EMAIL, WEAK_PASSWORD, EMAIL_EXISTS in that order, storing nothing; otherwise stores and audits the user and returns it without its hash |
| `UserService.AuthenticateUser` | user_service.py:33-44 | INVALID_EMAIL, NOT_FOUND, INACTIVE, BAD_PASSWORD in that order; otherwise the token and the sanitised user |
| `UserService.UpdateProfile` | user_service.py:52-58 | NOT_FOUND for a missing user; otherwise only sanitised profile keys are written and the user is returned without its hash |
| `UserService.DeactivateAccount` | user_service.py:78-83 | NOT_FOUND for a missing user; otherwise "active" becomes false and every other key stays |
| `UserService.DeactivatedRecord` | user_service.py:78-83 | the deactivated record is still found, is inactive and keeps every other key |
| `UserService.DeactivatedFirst` | user_service.py:78-83 | the e-mail that found the user before deactivation finds the deactivated record after it |
| `UserService.DeactivationKeepsEmail` | user_service.py:78-83 | deactivation does not change the e-mail |
| `UserService.DeactivationBlocksAccess` | user_service.py:39-40 | after deactivate_account, login answers INACTIVE and create_order answers USER_INACTIVE |
| `UserService.SanitizeAll` | user_service.py:127 | each listed user sanitised, in order |
| `UserService.PageFacts` | user_service.py:125-128 | a page of at most page_size sanitised active users with no password hash |
| `UserService.ListActiveUsers` | user_service.py:125-128 | total is the number of users list_users(True, page_size * page) fetched; the page holds, in order, the sanitised fetched users from Python's slice offset (page - 1) * page_size on; for page ≥ 1 at most page_size users; none with a password hash, each the sanitised form of a stored active user |
| `Analytics.CreateEventEntry` | analytics.py:18-24 | the event name is sanitised, metadata and user id kept |
| `Analytics.CreateSession` | analytics.py:35-41 | a new session has counted nothing |
| `Analytics.Names` | analytics.py:71-73 | the event names in log order |
| `Analytics.UsersOf` | analytics.py:77-83 | at most one user per event, none empty |
| `Analytics.UsersOfMember` | analytics.py:77-83 | a user id is counted iff some event carries it and it is non-empty |
| `Analytics.EventLog.UpdateSession` | analytics.py:27-32 | creates the session on first use, counts one more event and records its name |
| `Analytics.EventLog.TrackEvent` | analytics.py:10-15 | appends exactly one entry; a tracked user's counter grows by one and stays equal to the number of that user's events |
| `Analytics.EventLog.CountByType` | analytics.py:69-74 | one counter per event name in first-seen order; the counts sum to the number of events |
| `Analytics.EventLog.CountUniqueUsers` | analytics.py:77-83 | the number of distinct non-empty user ids, at most the number of events |
| `Analytics.EventLog.GetTopEvents` | analytics.py:98-101 | at most `limit` counters in non-increasing count order |
| `Analytics.EventLog.ClearEvents` | analytics.py:120-124 | returns the previous event count and empties events and sessions |
| `Reporting.ReportStore.GetReport` | reporting.py:71-72 | Some exactly for a stored id, and then that report |
| `Reporting.ReportStore.CreateReport` | reporting.py:10-19 | stores a draft with a sanitised title, which get_report then returns |
| `Reporting.ReportStore.ListReports` | reporting.py:75-79 | with a non-empty type the reports of that type in table order, each once (the order-preserving filter); otherwise all, in table order |
| `Reporting.ReportStore.PublishReport` | reporting.py:82-87 | a known report becomes published in place; an unknown id changes nothing |
| `Reporting.ReportStore.DeleteReport` | reporting.py:90-94 | True iff the id existed, after which get_report finds nothing |
| `Reporting.Resolved` | reporting.py:116-119 | the ids resolve to stored reports, no more than there are ids |
| `Reporting.ReportStore.AggregateReports` | reporting.py:114-124 | count = number of ids that resolve; types are exactly those of the found reports |
| `Reporting.Statuses` | reporting.py:42 | each order's status, "unknown" when absent |
| `Reporting.BreakdownByStatus` | reporting.py:39-44 | one counter per status; the counts sum to the number of orders and equal each status's occurrences |
| `Reporting.MissingStatusIsUnknown` | reporting.py:39-44 | every order without a status is counted under "unknown" |
| `Reporting.InventorySummary` | reporting.py:97-105 | total_products is the number of products, total_stock the sum of stock, the value the sum of price × stock, low_stock_count the number of products with stock < 10 (at most total_products) |
| `Reporting.SummaryLowExactly` | reporting.py:100 | a product is among those the low count counts exactly when it is in the list with stock below 10 |
| `Reporting.SummaryOfOne` | reporting.py:97-105 | one product's summary: count 1, its stock, price × stock, and low count 1 exactly when stock < 10 |
| `Reporting.SummaryOfAppend` | reporting.py:97-105 | the summary of two concatenated lists adds up the two summaries field by field |
| `Reporting.SummaryData` | reporting.py:102-108 | the data dict holds exactly total_products (the product count), total_stock (the stock sum) and low_stock_count (the summary's low count) |
| `Reporting.ReportStore.GenerateInventorySummary` | reporting.py:97-111 | stores the summary data as a draft "inventory" report titled "Inventory Summary" through create_report, which get_report then returns |
| `Reporting.SummaryStricterThanLowStock` | reporting.py:100 | summary-low implies low for get_low_stock(10); stock 10 is low only for get_low_stock |
| `Reporting.TenIsLowOnlyForRepository` | reporting.py:97-111 | for any product list, a product with stock 10 is low for get_low_stock(10) but never among the summary's low products, and appending it leaves low_stock_count unchanged |
| `Middleware.ExtractToken` | middleware.py:21-25 | Some iff the Authorization header starts with "Bearer ", and then the rest of it |
| `Middleware.ExtractSentToken` | middleware.py:21-25 | a token sent as "Bearer token" is extracted unchanged |
| `Middleware.RoleLevel` | middleware.py:35-37 | unknown roles rank 0, no role ranks above admin |
| `Middleware.RoleHierarchyFacts` | middleware.py:34-38 | reflexive and transitive; every role satisfies "guest"; admin satisfies everything; unknown roles rank like a guest |
| `Middleware.SanitizeHeaders` | middleware.py:69-71 | the same keys; Authorization, Cookie and X-API-Key masked as "***"; other values unchanged |
| `Middleware.SanitizeHeadersIdempotent` | middleware.py:69-71 | masking twice is masking once, and no bearer token survives |
| `Middleware.ParsedKeys` | middleware.py:90-94 | a parsed name is present iff some raw key lowers to it |
| `Middleware.ParsedLastWins` | middleware.py:90-94 | the last raw key that lowers to a name supplies its sanitised value |
| `Middleware.ParseHeaders` | middleware.py:90-94 | the loop builds the dict that later keys overwrite |
| `Middleware.RateLimiter.constructor` | middleware.py:8 | no client has a window yet |
| `Middleware.RateLimiter.RateLimitCheck` | middleware.py:41-53 | allowed iff fewer than 60 timestamps fall in the last 60 s; only allowed requests are recorded; no window exceeds 60; remaining ≥ 0 |
| `Middleware.HandleCors` | middleware.py:97-105 | the three CORS headers for an allowed origin, none otherwise |
| `Middleware.CorsOnlyConfigured` | middleware.py:97-105 | with debug mode off only the configured origin gets CORS headers |
| `Middleware.EstimateCompressedSize` | middleware.py:115-118 | non-negative; a tenth of the length for data with at most 25 distinct characters |
| `Middleware.CompressResponse` | middleware.py:108-112 | data shorter than min_size comes back unchanged, otherwise the original size is reported |
| `Utils.RemoveHtmlTags` | utils.py:12-22 | the in_tag loop computes `StripTags` |
| `Utils.StripTagsClean` | utils.py:12-22 | no '<' or '>' in the output, which is no longer than the input |
| `Utils.StripTagsPlain` | utils.py:12-22 | text without angle brackets is unchanged |
| `Utils.StripTagsIdempotent` | utils.py:12-22 | removing tags twice is removing them once |
| `Utils.StripTagsDropsTag` | utils.py:12-22 | a tag is dropped whole and the text around it kept in order |
| `Utils.Sanitized` | utils.py:6-9 | no angle brackets and no longer than the input |
| `Utils.SanitizeString` | utils.py:6-9 | strips, then removes tags |
| `Utils.ChunkList` | utils.py:75-79 | no chunks for a negative size; otherwise the windows of chunk_size items |
| `Utils.ChunksFlatten` | utils.py:75-79 | the chunks concatenate to the input |
| `Utils.ChunksSizes` | utils.py:75-79 | every chunk is non-empty and all but the last have exactly chunk_size items |
| `Utils.ChunksCount` | utils.py:75-79 | there are ceil(len / chunk_size) chunks |
| `Utils.ChunkAt` | utils.py:75-79 | the k-th chunk is items[k·n : (k+1)·n] |
| `Utils.Paginate` | utils.py:111-115 | total_pages = ceil(len / page_size); no items outside 1..total_pages, otherwise the page-th chunk |
| `Utils.PageWindow` | utils.py:111-115 | the page-th chunk is the page-th window of page_size items |
| `Utils.DeepCopy` | utils.py:92-97 | the copy equals the original |
| `Utils.MergeInto` | utils.py:84-88 | the merge loop's keys are the union; keys only in the base keep their values |
| `Utils.MergeDicts` | utils.py:82-89 | the union of keys; base-only keys keep their values; the base is a value and stays unchanged |
| `Utils.MergeIntoOverride` | utils.py:84-88 | an override key holds the override value, unless both values are dicts, which merge recursively |
| `Utils.UpdateWith` | utils.py:106 | `items.update` keeps a dict free of dict values |
| `Utils.FlattenInto` | utils.py:102-107 | the flattening loop adds no dict values |
| `Utils.FlattenDict` | utils.py:100-108 | the output holds no dict values |
| `Utils.FlattenNested` | utils.py:100-108 | example: {a: {b: v}} flattens to {"a.b": v} |
| `Utils.PathKeySnoc` | utils.py:103 | the flattened key of a path one key longer applies the new_key rule once more |
| `Utils.PathKeyDotted` | utils.py:103 | when the first key is non-empty, a path's flattened key is its keys joined with "." |
| `Utils.PathKeyInjective` | utils.py:103 | over non-empty keys without ".", different key paths have different flattened keys |
| `Utils.FlattenIntoAtPaths` | utils.py:101-108 | the loop over a nested dict's fields adds only fields whose value sits at a key path whose flattened key is the field's key |
| `Utils.FlattenDictFromPaths` | utils.py:100-108 | for a dict without repeated keys, every field of the result holds the value found at some key path, under that path's flattened key |
| `Utils.FlattenIntoHasLeaf` | utils.py:101-108 | every non-dict value below a field of the loop's input gets its flattened key in the result |
| `Utils.FlattenDictHasLeaf` | utils.py:100-108 | every non-dict value at a key path gets that path's flattened key in the result |
| `Utils.FlattenDictLeafValue` | utils.py:100-108 | when no key is empty or holds ".", the result maps the "."-joined path of every non-dict value to that value |
| `Utils.ReachSnoc` | utils.py:120-125 | one more key extends the walk by one dict lookup |
| `Utils.SafeGet` | utils.py:118-126 | the nested value along the dotted path, or the default once a key is missing or a non-dict is reached |
| `Utils.ReachStuck` | utils.py:120-125 | once the walk stops, later keys do not restart it |
| `Utils.SimulateAttempt` | utils.py:71-72 | an attempt succeeds iff its number is ≥ 0 |
| `Utils.RetryWith` | utils.py:63-68 | the loop returns the first successful attempt below max_retries, or gives up |
| `Utils.RetryOperation` | utils.py:63-72 | with max_retries ≥ 1 attempt 0 succeeds; with max_retries ≤ 0 it gives up with attempts = max_retries |
| `Utils.Clamp` | utils.py:129-130 | the result lies in [lo, hi] when lo ≤ hi, and equals the value inside that range |
| `Formatters.GetCurrencySymbol` | formatters.py:10-12 | the symbol of the upper-cased code when known, otherwise the code plus " " |
| `Formatters.CurrencySymbolIgnoresCase` | formatters.py:10-12 | for every known code all spellings give the same symbol; for an unknown code the upper- and lower-case spellings each fall back to themselves plus " " |
| `Formatters.CurrencySymbolCases` | formatters.py:10-12 | examples: "usd" and "USD" give "$", "pLn" gives "zł", "cad" falls back to "cad " |
| `Formatters.FormatDateParts` | formatters.py:15-21 | "y-m-d" becomes "m/d/y" for the us style and "d.m.y" otherwise |
| `Formatters.FormatDateUnchanged` | formatters.py:15-21 | a string that does not split into three parts is returned unchanged |
| `Formatters.ExtractDigits` | formatters.py:31-32 | only digits come out; an all-digit input comes out unchanged |
| `Formatters.ExtractDigitsSkipsNonDigits` | formatters.py:31-32 | a non-digit anywhere is dropped and a digit kept in place |
| `Formatters.FormatPhone` | formatters.py:24-28 | ten US digits become 14 characters with "(", ")", " " and "-" at positions 0, 4, 5 and 9 and digits elsewhere, i.e. "(ddd) ddd-dddd"; anything else is unchanged; the digits are always kept, in order |
| `Formatters.NonBlank` | formatters.py:40-41 | the kept parts are non-blank parts of the input |
| `Formatters.JoinNonEmptySkipsBlank` | formatters.py:40-41 | a blank part anywhere does not change the result |
| `Formatters.JoinNonEmptyKeepsAll` | formatters.py:40-41 | non-blank parts are all joined with the separator |
| `Formatters.JoinNonEmptyAllBlank` | formatters.py:40-41 | only blank parts join to "" |
| `Formatters.CapitalizeFirst` | formatters.py:52-55 | the length and every character after the first are kept; the empty string is unchanged |
| `Formatters.TruncateString` | formatters.py:62-65 | values of length ≤ max_len are unchanged; for max_len ≥ 3 a longer value becomes exactly max_len long, ending "..." |
| `Formatters.FormatError` | formatters.py:58-59 | the code is kept and the message is cut to 500 characters |
| `Formatters.Fail` | formatters.py:58-69 | an error response carrying the code and message |
| `Validators.ValidateEmailIff` | validators.py:5-17 | true iff there is exactly one '@' and the text after it contains '.' and has length ≥ 3 |
| `Validators.PhoneIgnoresFormatting` | validators.py:20-26 | non-digit characters anywhere do not change the verdict, which depends on 10..15 digits |
| `Validators.ZipOfDigits` | validators.py:45-47 | an all-digit zip is valid iff it has 5 or 9 digits |
| `Validators.ContainsSpecialChars` | validators.py:35-36 | true iff some character is one of < > & ' " \ |
| `Validators.ValidateName` | validators.py:29-32 | true iff length ≥ 2 and no special character |
| `Validators.ValidateSku` | validators.py:91-94 | true iff length ≥ 3 and no special character |
| `Validators.CurrencyCaseInsensitive` | validators.py:59-65 | case does not change the verdict |
| `Validators.CurrencyCodeLength` | validators.py:59-65 | every accepted code has three letters |
| `Validators.AnyOfClass` | validators.py:100-102 | `any` over a character class holds iff some character is in it |
| `Validators.ValidatePassword` | validators.py:97-103 | true iff length ≥ 8 with an upper-case letter, a lower-case letter and a digit |
| `Validators.ValidDateShape` | validators.py:80-84 | an accepted date has exactly two '-' and otherwise only digits |

`Validators.ValidateQuantity` (0 < q ≤ 10000), `Validators.ValidateZip`,
`Validators.ValidatePhone`, `Validators.ValidateCurrency`,
`Validators.ValidateDate`, `Middleware.CheckRoleHierarchy`,
`PaymentService.CheckCardNumber`, `PaymentService.CheckExpiry` and
`PaymentService.ValidatePaymentMethod` are predicates. The rows above that
name them carry their properties.

## Left out

- Utils.ChunkList: requires a non-zero size. chunk_list(items, 0) raises ValueError in Python (range with step 0); that error is not modelled.
- Utils.Paginate: requires a non-zero page size for the same reason, since it calls chunk_list.
- Reporting.SummaryData: holds no total_value or low_stock_pct entry. Both are formatted floats (format_currency, format_percentage).
- Utils.FlattenDictLeafValue: the value of a leaf is stated only for keys that are non-empty and hold no ".". Otherwise two paths can share a flattened key, and the later one overwrites the earlier.
- Floating-point arithmetic and float formatting are not modelled. This covers `format_currency`, `format_percentage`, `format_file_size`, `format_duration`, `calculate_tax`, `sum_payments`, `get_stock_value`, `calculate_shipping`, `compute_item_weight`, `compute_shipping_cost`, the new total of `apply_discount` and the averages of `generate_sales_report`, `get_conversion_rate`, `get_session_stats` and `get_metrics_summary`. Money is integer cents instead.
- Middleware.EstimateCompressedSize: computed on exact rationals, so it can differ from Python's float product in the last unit.
- `validate_amount` and `validate_decimal_places` format floats as strings. In cents every amount has at most two decimals, so only the range test 1..99999999 cents remains.
- `sort_by_date` is the identity. No order built by `create_order_model` has `created_at`, so the stable sort on a constant key keeps index order.
- `isdigit`, `isupper`, `islower`, `lower` and `upper` are ASCII only.
- Python's dynamic typing is not modelled. Products, orders, items, notifications and payments have typed fields. `isinstance` in `validate_quantity` always holds. A non-string email reads as "".
- `str()` of a JSON value renders lists and dicts as "".
- `update_product_record` may change the `sku` field without touching the sku index. The model keeps this quirk, so the index can point at a product whose sku has changed.
- The RESERVE_FAILED branch of `reserve_stock` cannot be reached: the stock test before it guarantees that the decrement commits.
- `dispatch_notification` is modelled as its success flag; its "reason" text is not.
- `hash_password`, `generate_salt`, `compute_hash`, `encode_token`, `decode_token` and `generate_id` are not modelled. Ids, password hashes and tokens are parameters, and checking a password is the `verify_password` stub.
- `time.time()` in `rate_limit_check` is a parameter of integer seconds.
- `is_debug_mode` is False, so `get_cors_origins` gives the one production origin.
- These thin wrappers over modelled operations are not modelled:
  - orders: `update_order`, `get_order_details`, `list_user_orders`, `count_orders`, `get_recent_orders`, `get_order_history`, `apply_discount`;
  - payments: `verify_payment`, `check_payment_with_provider` (a stub), `get_payment_status`, `create_invoice`, `get_payment_history`;
  - users: `change_password`, `get_user_profile`, `build_profile`, `verify_email_address`, `reset_password`, `generate_reset_token`, `search_user_accounts`, `generate_auth_token`, `count_users`, `search_users`, `match_user_fields`, `get_user_roles`;
  - products: `search_products`, `matches_product`, `get_product_categories`;
  - inventory: `get_stock_level`, `reorder_check`, `process_reorder`, `create_reorder_record`, `get_inventory_report`;
  - reports: `generate_user_activity_report`, `generate_conversion_report`, `export_report`, `format_as_json`, `format_as_text`;
  - analytics: `get_all_events`, `filter_events_by_name`, `get_user_events`, `compute_summary`, `generate_report`, `export_events`;
  - middleware: `authenticate_request`, `authorize_request`, `log_request`, `log_response`, `validate_content_type`, `track_metric`, `create_request_context`;
  - formatters: `format_address`, `format_name`, `format_list`, `format_order_summary`, `build_meta`, `format_response`;
  - models: `create_address_model`;
  - validators: `validate_address`, `validate_country`;
  - utils: `lerp`, `inverse_lerp`.
- `send_push`, the webhook functions and the notification templates are outside the modelled core.
- `serialize_model` and `deserialize_model` (JSON text) are not modelled.
- `main.py` is request plumbing and `services.py` holds stubs. `config.py` holds constants, which are inlined: the rate limit of 60 per minute, the CORS origin and the debug flag.
- There is no concurrency in the code. Each operation is one sequential step on the stores.
