# Loyalty redemption portal — a Dafny model of its core

The portal lets account managers of client companies spend their company's
loyalty points on a catalogue of physical and virtual products. The core
modelled here is:

- the inventory record (available and reserved quantities with guarded
  moves between them), its repository's guarded bulk `UPDATE`s and queries,
  and the inventory service that reserves, releases, confirms and restocks;
- the loyalty transaction journal: the transaction entity's status machine,
  the repository queries, the service that records debits and refunds and
  the scheduled job that processes PENDING rows and retries FAILED ones,
  and the ledger's response DTO with its case-insensitive status tests;
- orders and their lines, with their status guards;
- the redemption use cases: validating and creating an order (reserving
  physical stock line by line), processing it (debiting the ledger, then
  fulfilling), and cancelling it (refunding and releasing);
- the fulfilment workflow: the physical and virtual passes, the
  notifications sent, the virtual provider's callbacks, shipping,
  delivery and order completion;
- the three mock services (ledger, virtual fulfilment and notifications)
  whose behaviour the workflow depends on;
- the front-end store's shopping cart and product filter;
- the separate single-file back end (`backend-simple`) with its own
  order-creation, multi-level approval and user-registration flows.

Each Java service becomes a Dafny module of pure functions over an
immutable state value. An operation that can fail returns a `Result` or an
`Outcome` that carries the error message the Java code would throw. A
use case that fails midway keeps the effects made before the failure, as
the code does once its transaction is not rolled back. Clocks, generated
ids and the answers of remote services are parameters. The answers of
remote services are the ledger's reply and the virtual provider's failure
per line.

Files: `wrappers.dfy` (Option, Result), `text.dfy` (ASCII case folding,
substring search, decimal printing), `seqs.dfy` (filter, count, sum,
insertion sort), `domain.dfy` (enumerations, products, companies),
`inventory.dfy`, `inventory_repository.dfy`, `inventory_service.dfy`,
`transaction.dfy`, `transaction_repository.dfy`,
`transaction_response.dfy`, `transaction_service.dfy`, `orders.dfy`,
`notifications.dfy`, `ledger_mock.dfy`, `fulfillment_mock.dfy`,
`portal.dfy` (the whole back-end state), `workflow.dfy`,
`redemption.dfy`, `cart.dfy`, `simple_portal.dfy`.

Where the system's design intent and its code part ways, the model
follows the code:

- CANCELLED is meant to be terminal (the order screen offers cancel only
  for PENDING and PROCESSING orders,
  frontend/src/pages/orders/OrderManagement.jsx:81), but `cancelOrder`
  refuses only COMPLETED orders
  (backend/src/main/java/com/loyaltyportal/entity/RedemptionOrder.java:131-137),
  so cancelled and failed orders can be cancelled again (see Findings).
- Validation and inventory errors are meant to leave no partial state
  (the service class is `@Transactional`,
  backend/src/main/java/com/loyaltyportal/service/RedemptionService.java:22),
  but order creation saves the order and its earlier lines before a
  reservation fails; the model has no rollback (see Findings).
- Cancelling a PROCESSING order is meant to return its stock (the release
  call is documented for cancellation,
  backend/src/main/java/com/loyaltyportal/service/InventoryService.java:83-85),
  but fulfilment has already confirmed the reservations, so the release is
  refused after the refund has been recorded
  (`Redemption.ProcessingCancelAfterConfirmFails`).
- In the model, a virtual-fulfilment callback that arrives after the
  order was cancelled marks the line FULFILLED; once every line is done,
  the completion check refuses the CANCELLED order with its guard error,
  and no delivery notice is sent. The Java callback acts on the order
  object captured when fulfilment began; see
  `Workflow.HandleVirtualFulfillmentSuccess` under Left out.

## Model

| member | source | states |
|---|---|---|
| InventoryEntity.NewInventory | backend/src/main/java/com/loyaltyportal/entity/Inventory.java:54-58 | a new record holds the given available quantity, nothing reserved and no reorder point, so it is not low on stock |
| InventoryEntity.Reserve | backend/src/main/java/com/loyaltyportal/entity/Inventory.java:69-80 | succeeds exactly for a positive quantity not above the available one; then it moves that quantity from available to reserved and keeps the total; otherwise it fails with the "Cannot reserve" message |
| InventoryEntity.Release | backend/src/main/java/com/loyaltyportal/entity/Inventory.java:82-89 | succeeds exactly when the quantity does not exceed the reserved one, even for a negative quantity; then it moves the quantity back to available; otherwise it fails with the "Cannot release" message |
| InventoryEntity.Confirm | backend/src/main/java/com/loyaltyportal/entity/Inventory.java:91-97 | succeeds exactly when the quantity does not exceed the reserved one; then the reservation shrinks, available is untouched and the total drops by the quantity |
| InventoryEntity.AddStock | backend/src/main/java/com/loyaltyportal/entity/Inventory.java:99-105 | succeeds exactly for a positive quantity, which is added to available; a non-positive one fails with "Quantity to add must be positive" |
| InventoryEntity.ReserveThenRelease | backend/src/main/java/com/loyaltyportal/entity/Inventory.java:69-89 | releasing what was just reserved restores the record exactly |
| InventoryEntity.ReleaseThenReserve | backend/src/main/java/com/loyaltyportal/entity/Inventory.java:69-89 | reserving a positive quantity that was just released restores the record exactly |
| InventoryEntity.OperationsPreserveValid | backend/src/main/java/com/loyaltyportal/entity/Inventory.java:25-33 | with a non-negative quantity, every successful operation keeps both quantities non-negative, as the `@Min(0)` constraints demand |
| InventoryEntity.NegativeQuantityBreaksValid | backend/src/main/java/com/loyaltyportal/entity/Inventory.java:82-97 | a negative release is accepted and drives available below zero, and a negative confirm grows the reservation |
| InventoryEntity.ReleaseAfterConfirmFails | backend/src/main/java/com/loyaltyportal/entity/Inventory.java:82-97 | once a reservation is confirmed, releasing the same quantity is refused |
| InventoryRepository.UpdateWhere | backend/src/main/java/com/loyaltyportal/repository/InventoryRepository.java:34-49 | a bulk `UPDATE` changes exactly the rows its `WHERE` selects and reports their number |
| InventoryRepository.ReserveQuantity | backend/src/main/java/com/loyaltyportal/repository/InventoryRepository.java:34-38 | only the product's row with enough available moves the quantity to reserved; every other row is unchanged; the count is the number of matching rows |
| InventoryRepository.ReleaseReservation | backend/src/main/java/com/loyaltyportal/repository/InventoryRepository.java:40-44 | only the product's row with enough reserved moves the quantity back; every other row is unchanged |
| InventoryRepository.ConfirmReservation | backend/src/main/java/com/loyaltyportal/repository/InventoryRepository.java:46-49 | only the product's row with enough reserved has its reservation reduced; available is never touched |
| InventoryRepository.UniqueUpdateCountAtMostOne | backend/src/main/java/com/loyaltyportal/repository/InventoryRepository.java:34-49 | with unique product rows, an `UPDATE` keyed on the product changes at most one row |
| InventoryRepository.ReserveQuantityAgreesWithEntity | backend/src/main/java/com/loyaltyportal/repository/InventoryRepository.java:34-38 | for a positive quantity the `UPDATE` does to the product's row what the entity's reserve does, and leaves the row alone where the entity refuses |
| InventoryRepository.ReleaseAndConfirmAgreeWithEntity | backend/src/main/java/com/loyaltyportal/repository/InventoryRepository.java:40-49 | the release and confirm `UPDATE`s agree with the entity's release and confirm for every quantity |
| InventoryRepository.ReserveQuantityAcceptsZero | backend/src/main/java/com/loyaltyportal/repository/InventoryRepository.java:34-38 | unlike the entity, the `UPDATE` accepts a zero quantity and reports one changed row while moving nothing |
| InventoryRepository.FindAllInStock | backend/src/main/java/com/loyaltyportal/repository/InventoryRepository.java:22-23 | returns exactly the rows with something available |
| InventoryRepository.FindLowStockItems | backend/src/main/java/com/loyaltyportal/repository/InventoryRepository.java:25-26 | returns exactly the rows with a reorder point that available has reached |
| InventoryRepository.FindAllWithReservations | backend/src/main/java/com/loyaltyportal/repository/InventoryRepository.java:28-29 | returns exactly the rows with a positive reservation |
| InventoryRepository.FindAvailableForQuantity | backend/src/main/java/com/loyaltyportal/repository/InventoryRepository.java:31-32 | returns exactly the rows with at least the quantity available; for a positive quantity every returned row could reserve it |
| InventoryRepository.GetTotalInventoryValue | backend/src/main/java/com/loyaltyportal/repository/InventoryRepository.java:54-55 | is NULL exactly on an empty table; otherwise it is the sum of the rows' totals, which is non-negative when all rows are valid |
| InventoryRepository.CountOutOfStockItems | backend/src/main/java/com/loyaltyportal/repository/InventoryRepository.java:57-58 | is the number of rows with nothing available: zero exactly when no row has zero available, never more than the number of rows |
| InventoryRepository.CountOutOfStockAppend | backend/src/main/java/com/loyaltyportal/repository/InventoryRepository.java:57-58 | the out-of-stock count of no rows is zero, and a new row raises it by one exactly when it has nothing available |
| InventoryRepository.ReleaseKeepsRowsInStock | backend/src/main/java/com/loyaltyportal/repository/InventoryRepository.java:40-44 | a positive release never lowers any row's available quantity, so an in-stock row stays in stock |
| InventoryService.Perform | backend/src/main/java/com/loyaltyportal/service/InventoryService.java:57-146 | an unknown product fails with "No inventory record found for product: …"; otherwise the operation succeeds exactly when the entity accepts it, storing only the entity's new record, and a refusal carries the service's prefix before the entity's message |
| InventoryService.CheckAvailability | backend/src/main/java/com/loyaltyportal/service/InventoryService.java:35-52 | is false for a product without a record and otherwise agrees with the entity's reserve guard |
| InventoryService.ReserveInventory | backend/src/main/java/com/loyaltyportal/service/InventoryService.java:57-80 | succeeds exactly when the product has a record with at least the positive quantity available; then only that record changes, by moving the quantity to reserved |
| InventoryService.ReleaseReservation | backend/src/main/java/com/loyaltyportal/service/InventoryService.java:85-102 | succeeds exactly when the product has a record with at least the quantity reserved; then only that record changes, by moving the quantity back to available |
| InventoryService.ConfirmReservation | backend/src/main/java/com/loyaltyportal/service/InventoryService.java:107-124 | succeeds exactly when the product has a record with at least the quantity reserved; then only that record's reservation shrinks |
| InventoryService.AddStockTo | backend/src/main/java/com/loyaltyportal/service/InventoryService.java:129-146 | succeeds exactly for a known product and a positive quantity, adding it to available; a non-positive quantity fails with "Cannot add stock: Quantity to add must be positive" |
| InventoryService.CheckAvailabilityMatchesReserve | backend/src/main/java/com/loyaltyportal/service/InventoryService.java:35-80 | the availability check answers yes exactly when the reservation it guards would succeed |
| InventoryService.ReserveThenReleaseRestores | backend/src/main/java/com/loyaltyportal/service/InventoryService.java:57-102 | releasing a reservation just made restores the whole stock exactly |
| InventoryService.PerformPreservesInvariants | backend/src/main/java/com/loyaltyportal/service/InventoryService.java:57-146 | every successful operation keeps each record filed under its own product and, for a non-negative quantity, keeps every record valid |
| InventoryService.InitializeInventory | backend/src/main/java/com/loyaltyportal/service/InventoryService.java:175-195 | an unknown product and an existing record fail with their messages; otherwise exactly one record is added, holding the initial quantity, nothing reserved and the given reorder point, and every other record is unchanged |
| InventoryService.InitializeTwiceFails | backend/src/main/java/com/loyaltyportal/service/InventoryService.java:181-184 | initialising the same product a second time always fails |
| InventoryService.UpdateReorderPoint | backend/src/main/java/com/loyaltyportal/service/InventoryService.java:200-210 | for a known product only that record's reorder point changes, and its low-stock status follows the new point |
| InventoryService.SetInventoryLevel | backend/src/main/java/com/loyaltyportal/service/InventoryService.java:248-254 | for a known product only that record's available quantity changes, to the given level, with no check of its sign |
| InventoryService.BatchStep | backend/src/main/java/com/loyaltyportal/service/InventoryService.java:233-245 | an ADD of a positive quantity to a known product adds it to that product's available count, a SET on a known product sets it, and an unknown product or a non-positive ADD leaves the inventory as it was; nothing but that product's available quantity changes |
| InventoryService.BatchUpdate | backend/src/main/java/com/loyaltyportal/service/InventoryService.java:229-246 | the batch changes only available quantities, and only those of products some entry names; what each entry does is stated by `SingleEntryBatchApplies` and how entries compose by `BatchUpdateAppend` |
| InventoryService.BatchUpdateAppend | backend/src/main/java/com/loyaltyportal/service/InventoryService.java:233-245 | a batch is the sequential composition of its parts |
| InventoryService.SingleEntryBatchApplies | backend/src/main/java/com/loyaltyportal/service/InventoryService.java:229-254 | a one-entry batch adds a positive ADD to the named product's available count, sets it for a SET, and leaves the inventory unchanged for an unknown product or a non-positive ADD |
| InventoryService.FailingEntryIsSkipped | backend/src/main/java/com/loyaltyportal/service/InventoryService.java:240-244 | a failing entry neither stops nor undoes the others: the batch ends as if the entry were absent |
| InventoryService.UnknownProductEntryFails | backend/src/main/java/com/loyaltyportal/service/InventoryService.java:248-250 | an entry for a product with no record fails with the no-record message |
| InventoryService.GetLowStockProducts | backend/src/main/java/com/loyaltyportal/service/InventoryService.java:158-160 | returns exactly the low-stock rows |
| InventoryService.GetOutOfStockProducts | backend/src/main/java/com/loyaltyportal/service/InventoryService.java:165-170 | as written, returns only rows with nothing available, taken from the rows that are in stock |
| InventoryService.GetOutOfStockProductsIsAlwaysEmpty | backend/src/main/java/com/loyaltyportal/service/InventoryService.java:165-170 | as written, the out-of-stock list is always empty |
| InventoryService.OutOfStockListDisagreesWithCount | backend/src/main/java/com/loyaltyportal/service/InventoryService.java:165-170 | a table with one row at zero available counts one out-of-stock row, yet the list is empty |
| InventoryService.OutOfStockProducts | backend/src/main/java/com/loyaltyportal/service/InventoryService.java:162-170 | the intended list: exactly the rows with nothing available |
| InventoryService.OutOfStockProductsMatchesCount | backend/src/main/java/com/loyaltyportal/service/InventoryService.java:215-224 | the intended list has as many rows as the out-of-stock count |
| TransactionEntity.NewTransaction | backend/src/main/java/com/loyaltyportal/entity/LoyaltyTransaction.java:143-149 | a new transaction is PENDING with no attempts, no ledger id, no error and no processing time, and keeps the given order, company, amount and type |
| TransactionEntity.MarkAsProcessing | backend/src/main/java/com/loyaltyportal/entity/LoyaltyTransaction.java:100-105 | succeeds exactly from PENDING, changing only the status; otherwise it fails with the entity's message |
| TransactionEntity.MarkAsCompleted | backend/src/main/java/com/loyaltyportal/entity/LoyaltyTransaction.java:107-115 | succeeds exactly from PROCESSING; then the transaction is COMPLETED with the ledger id and the time recorded and any earlier error cleared, every other field unchanged |
| TransactionEntity.MarkAsFailed | backend/src/main/java/com/loyaltyportal/entity/LoyaltyTransaction.java:117-121 | from any status the transaction becomes FAILED with the message and the time recorded, and nothing else changes |
| TransactionEntity.MarkAsRefunded | backend/src/main/java/com/loyaltyportal/entity/LoyaltyTransaction.java:123-130 | succeeds exactly from COMPLETED; then the transaction is REFUNDED with the new ledger id and the time recorded, every other field, the error message included, unchanged |
| TransactionEntity.IncrementRetryCount | backend/src/main/java/com/loyaltyportal/entity/LoyaltyTransaction.java:132-134 | adds one attempt and changes nothing else |
| TransactionEntity.TransitionsFollowGuard | backend/src/main/java/com/loyaltyportal/entity/LoyaltyTransaction.java:100-121 | the processing and completion transitions go through exactly when the status relation admits them, and failure is always admitted |
| TransactionEntity.RefundFollowsGuard | backend/src/main/java/com/loyaltyportal/entity/LoyaltyTransaction.java:123-130 | a refund goes through exactly when the status relation admits REFUNDED |
| TransactionEntity.RetriesAreBounded | backend/src/main/java/com/loyaltyportal/entity/LoyaltyTransaction.java:132-138 | after at least three increments no transaction can be retried |
| TransactionEntity.IncrementTimesCount | backend/src/main/java/com/loyaltyportal/entity/LoyaltyTransaction.java:132-134 | n increments add exactly n attempts and keep the status |
| TransactionEntity.TransitionsKeepRetryCount | backend/src/main/java/com/loyaltyportal/entity/LoyaltyTransaction.java:100-121 | the status transitions never change the attempt count |
| TransactionRepository.FindRetryableTransactions | backend/src/main/java/com/loyaltyportal/repository/LoyaltyTransactionRepository.java:49-50 | returns exactly the transactions with the given status and fewer than three attempts |
| TransactionRepository.FindFailedTransactionsForRetry | backend/src/main/java/com/loyaltyportal/repository/LoyaltyTransactionRepository.java:52-53 | returns exactly the transactions the entity says can be retried |
| TransactionRepository.SelectToProcess | backend/src/main/java/com/loyaltyportal/repository/LoyaltyTransactionRepository.java:67-68 | lists, in journal order and without repeats, exactly the ids from a position on whose rows are PENDING or FAILED with fewer than three attempts |
| TransactionRepository.FindTransactionsToProcess | backend/src/main/java/com/loyaltyportal/repository/LoyaltyTransactionRepository.java:67-68 | lists each PENDING or FAILED transaction with fewer than three attempts exactly once, and nothing else, oldest first |
| TransactionRepository.SortedIdsKeepSelection | backend/src/main/java/com/loyaltyportal/repository/LoyaltyTransactionRepository.java:67-68 | reordering a strictly increasing selection of ids keeps exactly those ids, each once |
| TransactionRepository.SumPointsByCompanyAndType | backend/src/main/java/com/loyaltyportal/repository/LoyaltyTransactionRepository.java:55-56 | is NULL exactly when no COMPLETED transaction of that company and type exists; otherwise it is the sum of their amounts |
| TransactionRepository.CountByCompanyAndStatus | backend/src/main/java/com/loyaltyportal/repository/LoyaltyTransactionRepository.java:58-59 | is the number of the company's transactions in that status: zero exactly when there is none |
| TransactionRepository.CountByCompanyAndStatusAppend | backend/src/main/java/com/loyaltyportal/repository/LoyaltyTransactionRepository.java:58-59 | a new transaction raises the count by one exactly when it belongs to the company and is in the status |
| TransactionRepository.CountByStatus | backend/src/main/java/com/loyaltyportal/repository/LoyaltyTransactionRepository.java:61-62 | is zero exactly when no transaction has the status, and the journal's length exactly when all do |
| TransactionRepository.CountByStatusAppend | backend/src/main/java/com/loyaltyportal/repository/LoyaltyTransactionRepository.java:61-62 | appending a transaction raises the count of its own status by one and leaves every other count |
| TransactionRepository.StatusCountsSumToTotal | backend/src/main/java/com/loyaltyportal/service/LoyaltyTransactionService.java:179-189 | the five per-status counts of the statistics add up to the number of transactions |
| TransactionService.RecordTransaction | backend/src/main/java/com/loyaltyportal/service/LoyaltyTransactionService.java:35-55 | appends exactly one transaction, keeping the journal before it, with the given type, amount, ledger id and status, no attempts and no error; it has a processing time exactly when it is COMPLETED |
| TransactionService.RecordFailedTransaction | backend/src/main/java/com/loyaltyportal/service/LoyaltyTransactionService.java:60-74 | appends exactly one FAILED transaction carrying the error message and no ledger id, keeping the journal before it |
| TransactionService.ReferenceDistinguishesAttempts | backend/src/main/java/com/loyaltyportal/service/LoyaltyTransactionService.java:238-244 | the reference is the bare `TYPE-orderNumber` exactly on the first attempt, and two attempt counts of one transaction never give the same reference |
| TransactionService.RetryCall | backend/src/main/java/com/loyaltyportal/service/LoyaltyTransactionService.java:192-214 | a retry debits for a DEBIT transaction and credits otherwise, always for the transaction's own amount and account and under its reference |
| TransactionService.ApplyRetryReply | backend/src/main/java/com/loyaltyportal/service/LoyaltyTransactionService.java:200-236 | any reply completes the transaction with the reply's ledger id; an error signal fails it with "Retry failed: …"; neither changes the attempt count |
| TransactionService.RetryTransaction | backend/src/main/java/com/loyaltyportal/service/LoyaltyTransactionService.java:107-137 | an unknown id and a transaction that cannot be retried fail with their messages and change nothing; otherwise only that row changes: one more attempt, one ledger call for its amount under the new reference, and the row ends COMPLETED on a reply, or FAILED with "Retry failed: …" on an error or a throw, and only the throw is raised |
| TransactionService.FailedReplyStillCompletesRetry | backend/src/main/java/com/loyaltyportal/service/LoyaltyTransactionService.java:200-229 | a reply that reports failure still completes the retried transaction, because the success callback never looks at the status |
| TransactionService.RetriesRunOut | backend/src/main/java/com/loyaltyportal/service/LoyaltyTransactionService.java:107-137 | a transaction on its third attempt can never be retried again |
| TransactionService.OnProcessingException | backend/src/main/java/com/loyaltyportal/service/LoyaltyTransactionService.java:151-157 | the job's handler counts one more attempt and marks the row FAILED with "Max retries exceeded: …" once three are reached, changing nothing else before that |
| TransactionService.ProcessOne | backend/src/main/java/com/loyaltyportal/service/LoyaltyTransactionService.java:148-158 | a FAILED row is refused by the processing guard, so it gets no ledger call and only one more attempt; a PENDING row gets exactly one ledger call and ends COMPLETED on a reply, FAILED on an error signal, and on a throw has one more attempt, staying PROCESSING below the cap |
| TransactionService.ProcessIds | backend/src/main/java/com/loyaltyportal/service/LoyaltyTransactionService.java:148-159 | the loop keeps the journal's length, raises nothing, and makes at most one ledger call per selected row |
| TransactionService.ProcessIdsLeavesOthers | backend/src/main/java/com/loyaltyportal/service/LoyaltyTransactionService.java:148-159 | the loop leaves every row it was not given unchanged |
| TransactionService.ProcessIdsAppliesOnce | backend/src/main/java/com/loyaltyportal/service/LoyaltyTransactionService.java:148-159 | with distinct ids, each selected row ends as one attempt on the row as it was |
| TransactionService.ProcessPendingTransactions | backend/src/main/java/com/loyaltyportal/service/LoyaltyTransactionService.java:142-160 | every PENDING or FAILED row under the cap gets exactly one attempt, and every other row is left alone |
| TransactionService.FailedRowsOnlyCountUp | backend/src/main/java/com/loyaltyportal/service/LoyaltyTransactionService.java:142-160 | a FAILED row stays FAILED through a run of the job, and only its attempt count rises, and only while under the cap |
| TransactionService.ThrowingCallStrandsRow | backend/src/main/java/com/loyaltyportal/service/LoyaltyTransactionService.java:148-158 | a PENDING row whose ledger call throws, with attempts left, is parked in PROCESSING, where the job's query no longer finds it |
| TransactionService.RunJob | backend/src/main/java/com/loyaltyportal/service/LoyaltyTransactionService.java:142-160 | any number of runs keeps the journal's length |
| TransactionService.FailedStaysFailed | backend/src/main/java/com/loyaltyportal/service/LoyaltyTransactionService.java:142-160 | however many times the job runs, whatever the ledger answers, a FAILED transaction stays FAILED |
| TransactionService.GetTotalPointsUsed | backend/src/main/java/com/loyaltyportal/service/LoyaltyTransactionService.java:165-167 | is absent exactly when the company has no COMPLETED DEBIT transaction, and otherwise the sum of the points of those transactions |
| TransactionService.GetTotalPointsRefunded | backend/src/main/java/com/loyaltyportal/service/LoyaltyTransactionService.java:172-174 | is absent exactly when the company has no COMPLETED REFUND transaction, and otherwise the sum of the points of those transactions |
| TransactionService.GetTransactionStatistics | backend/src/main/java/com/loyaltyportal/service/LoyaltyTransactionService.java:179-189 | each per-status field is the number of transactions in that status, the total is the journal's length, and the per-status counts add up to it |
| TransactionResponses.EqualsIgnoreCaseCanonical | backend/src/main/java/com/loyaltyportal/dto/TransactionResponse.java:142-148 | against a spelling with no lower-case letters, a case-insensitive comparison holds exactly when the upper-cased status equals it |
| TransactionResponses.StatusPredicatesByUpperCase | backend/src/main/java/com/loyaltyportal/dto/TransactionResponse.java:142-148 | a reply is successful exactly when its upper-cased status is SUCCESS or COMPLETED, and failed exactly when it is FAILED or ERROR; a missing status is neither |
| TransactionResponses.SuccessfulAndFailedAreExclusive | backend/src/main/java/com/loyaltyportal/dto/TransactionResponse.java:142-148 | no reply is both successful and failed |
| TransactionResponses.PendingIsNeither | backend/src/main/java/com/loyaltyportal/dto/TransactionResponse.java:142-148 | a missing status, "pending" and "PENDING" are neither successful nor failed |
| TransactionResponses.LowerCaseSuccessCounts | backend/src/main/java/com/loyaltyportal/dto/TransactionResponse.java:142-144 | case does not matter: "success" is successful and not failed |
| OrderEntities.NewItem | backend/src/main/java/com/loyaltyportal/entity/OrderItem.java:119-125 | a new line is PENDING with the given product, quantity and unit price, and no reference, tracking number or delivery time; with both numbers at least one it satisfies its constraints |
| OrderEntities.ItemTypesExclusive | backend/src/main/java/com/loyaltyportal/entity/OrderItem.java:82-88 | a line is never both physical and virtual, is neither without a product, and is exactly one of them with one |
| OrderEntities.ItemTotalBounds | backend/src/main/java/com/loyaltyportal/entity/OrderItem.java:37-45 | a line that satisfies its `@Min(1)` constraints is worth at least its quantity and at least its unit price |
| OrderEntities.MarkItemFulfilled | backend/src/main/java/com/loyaltyportal/entity/OrderItem.java:90-93 | the line becomes FULFILLED with the reference stored, from any status, and nothing else changes |
| OrderEntities.MarkItemShipped | backend/src/main/java/com/loyaltyportal/entity/OrderItem.java:95-101 | succeeds exactly for a physical line, whatever its status, making it SHIPPED with the tracking number; otherwise it fails with "Only physical products can be shipped" |
| OrderEntities.MarkItemDelivered | backend/src/main/java/com/loyaltyportal/entity/OrderItem.java:103-109 | succeeds exactly for a SHIPPED line, making it DELIVERED with the time recorded; otherwise it fails with the entity's message |
| OrderEntities.MarkItemFailed | backend/src/main/java/com/loyaltyportal/entity/OrderItem.java:111-114 | the line becomes FAILED with the reason stored as its reference, from any status, and nothing else changes |
| OrderEntities.ItemTransitionsFollowGuard | backend/src/main/java/com/loyaltyportal/entity/OrderItem.java:90-114 | every line transition moves along the status relation, delivery goes through exactly when it admits DELIVERED, and a physical line can always be shipped and then delivered |
| OrderEntities.OrderNumberAt | backend/src/main/java/com/loyaltyportal/entity/RedemptionOrder.java:95-97 | an order number is `LRP-` followed by the creation instant in milliseconds |
| OrderEntities.OrderNumberInjective | backend/src/main/java/com/loyaltyportal/entity/RedemptionOrder.java:95-97 | distinct instants give distinct order numbers |
| OrderEntities.NewOrder | backend/src/main/java/com/loyaltyportal/entity/RedemptionOrder.java:153-158 | a new order is PENDING with no lines, the given company, manager and total, a number from its creation instant, and no completion or cancellation |
| OrderEntities.OrderStatusTestsExclusive | backend/src/main/java/com/loyaltyportal/entity/RedemptionOrder.java:100-114 | at most one status test holds, and none holds exactly for a FAILED order |
| OrderEntities.PhysicalItems | backend/src/main/java/com/loyaltyportal/entity/RedemptionOrder.java:140-143 | the physical lines are exactly the lines with a physical product, and there are some exactly when the order has physical items |
| OrderEntities.VirtualItems | backend/src/main/java/com/loyaltyportal/entity/RedemptionOrder.java:145-148 | the virtual lines are exactly the lines with a virtual product, and there are some exactly when the order has virtual items |
| OrderEntities.NonEmptyOrderHasSomeKind | backend/src/main/java/com/loyaltyportal/entity/RedemptionOrder.java:140-148 | an order with at least one line, all with products, has physical or virtual items |
| OrderEntities.MarkOrderProcessing | backend/src/main/java/com/loyaltyportal/entity/RedemptionOrder.java:116-121 | succeeds exactly for a PENDING order, changing only its status; otherwise it fails with the entity's message |
| OrderEntities.MarkOrderCompleted | backend/src/main/java/com/loyaltyportal/entity/RedemptionOrder.java:123-129 | succeeds exactly for a PROCESSING order, which becomes COMPLETED with the time recorded |
| OrderEntities.MarkOrderCancelled | backend/src/main/java/com/loyaltyportal/entity/RedemptionOrder.java:131-138 | succeeds for every order that is not COMPLETED, including one already CANCELLED or FAILED, recording time and reason; a COMPLETED order fails with "Cannot cancel a completed order" |
| OrderEntities.OrderTransitionsFollowGuard | backend/src/main/java/com/loyaltyportal/entity/RedemptionOrder.java:116-138 | each order transition goes through exactly when the status relation admits it, and COMPLETED admits nothing |
| OrderEntities.CancelIsRepeatable | backend/src/main/java/com/loyaltyportal/entity/RedemptionOrder.java:131-138 | cancelling a cancelled order succeeds again and keeps the second reason |
| OrderEntities.ItemsTotalAtLeastCount | backend/src/main/java/com/loyaltyportal/entity/OrderItem.java:37-45 | lines that satisfy their constraints add up to at least one point each |
| Notifications.EmptyLogConsistent | backend/src/main/java/com/loyaltyportal/service/mock/MockNotificationService.java:25-26 | the empty list and empty index agree |
| Notifications.RecordSentEmail | backend/src/main/java/com/loyaltyportal/service/mock/MockNotificationService.java:183-190 | the record goes at the end of the list and at the end of its recipient's entry, every other recipient's entry is unchanged, and a consistent index stays consistent |
| Notifications.RecordKeepsIndex | backend/src/main/java/com/loyaltyportal/service/mock/MockNotificationService.java:183-190 | appending the same record to the list and to its recipient's entry keeps the index equal to the per-recipient filter of the list |
| Notifications.SendOrderConfirmation | backend/src/main/java/com/loyaltyportal/service/mock/MockNotificationService.java:33-47 | appends exactly one ORDER_CONFIRMATION to the account manager with subject "Order Confirmation - " and the order number |
| Notifications.SendPhysicalFulfillmentNotification | backend/src/main/java/com/loyaltyportal/service/mock/MockNotificationService.java:49-62 | appends exactly one PHYSICAL_FULFILLMENT to the fulfilment team's address with the order number in the subject |
| Notifications.SendVirtualFulfillmentNotification | backend/src/main/java/com/loyaltyportal/service/mock/MockNotificationService.java:64-77 | appends exactly one VIRTUAL_FULFILLMENT to the account manager |
| Notifications.SendFulfillmentFailureNotification | backend/src/main/java/com/loyaltyportal/service/mock/MockNotificationService.java:79-96 | appends two records under one subject, first to the account manager, then to operations |
| Notifications.SendShippingNotification | backend/src/main/java/com/loyaltyportal/service/mock/MockNotificationService.java:98-112 | appends exactly one SHIPPING_NOTIFICATION to the account manager |
| Notifications.SendDeliveryNotification | backend/src/main/java/com/loyaltyportal/service/mock/MockNotificationService.java:114-127 | appends exactly one DELIVERY_NOTIFICATION to the account manager |
| Notifications.SendOrderCompletionNotification | backend/src/main/java/com/loyaltyportal/service/mock/MockNotificationService.java:129-142 | appends exactly one ORDER_COMPLETION to the account manager |
| Notifications.GetEmailsByType | backend/src/main/java/com/loyaltyportal/service/mock/MockNotificationService.java:153-157 | returns exactly the e-mails of the type |
| Notifications.GetEmailCountByType | backend/src/main/java/com/loyaltyportal/service/mock/MockNotificationService.java:163-167 | is the length of the list of that type, never more than the number sent |
| Notifications.CountAfterRecord | backend/src/main/java/com/loyaltyportal/service/mock/MockNotificationService.java:163-190 | sending raises the count of its own type by one and leaves every other count |
| Notifications.TypeCountsSumToTotal | backend/src/main/java/com/loyaltyportal/service/mock/MockNotificationService.java:159-167 | the eight per-type counts add up to the number of e-mails sent |
| Notifications.GetStatistics | backend/src/main/java/com/loyaltyportal/service/mock/MockNotificationService.java:175-181 | the total is the number sent; a type appears exactly when it was sent at least once, with its count |
| Notifications.StatisticsSumToTotal | backend/src/main/java/com/loyaltyportal/service/mock/MockNotificationService.java:175-181 | the statistics' per-type counts add up to the total |
| Notifications.ClearEmailHistory | backend/src/main/java/com/loyaltyportal/service/mock/MockNotificationService.java:169-173 | both the list and the index are emptied, every count is zero and the index is consistent |
| LedgerMock.Seed | backend/src/main/java/com/loyaltyportal/service/mock/MockLoyaltyApiClient.java:33-46 | ACME001 holds 150000 at GOLD, GLOBAL002 75000 at SILVER, TECH003 200000 at PLATINUM and STARTUP004 25000 at BRONZE, put over whatever the maps hold; every other account keeps its balance and tier |
| LedgerMock.InitialLedger | backend/src/main/java/com/loyaltyportal/service/mock/MockLoyaltyApiClient.java:28-31 | the new ledger stores exactly the four seed accounts with their seed balances and tiers |
| LedgerMock.GetBalance | backend/src/main/java/com/loyaltyportal/service/mock/MockLoyaltyApiClient.java:48-75 | reports the stored balance or the 50000 default, holds 1000 back as pending so that available plus pending is the balance, and reports the stored tier or SILVER |
| LedgerMock.Refusal | backend/src/main/java/com/loyaltyportal/service/mock/MockLoyaltyApiClient.java:86-115 | a refusal has no transaction id, the FAILED status and the given code and message |
| LedgerMock.Acceptance | backend/src/main/java/com/loyaltyportal/service/mock/MockLoyaltyApiClient.java:128-136 | an acceptance has a `TXN-` id, the SUCCESS status and the balances before and after |
| LedgerMock.DebitPoints | backend/src/main/java/com/loyaltyportal/service/mock/MockLoyaltyApiClient.java:77-143 | more points than the balance are refused as INSUFFICIENT_BALANCE; otherwise a drawn system error refuses as SYSTEM_ERROR; otherwise the balance drops by exactly the points and is stored; a refusal leaves the ledger unchanged |
| LedgerMock.CreditPoints | backend/src/main/java/com/loyaltyportal/service/mock/MockLoyaltyApiClient.java:145-195 | a drawn system error refuses the call; otherwise the balance rises by exactly the points with no bound or sign check |
| LedgerMock.Answer | backend/src/main/java/com/loyaltyportal/service/mock/MockLoyaltyApiClient.java:77-195 | a debit call is answered by the debit and a credit call by the credit |
| LedgerMock.MockStatusesAreRecognised | backend/src/main/java/com/loyaltyportal/service/mock/MockLoyaltyApiClient.java:92-185 | the mock's SUCCESS and FAILED spellings are read by the services' status tests as success and failure |
| LedgerMock.DebitSucceedsIffCovered | backend/src/main/java/com/loyaltyportal/service/mock/MockLoyaltyApiClient.java:77-143 | a debit is answered as successful exactly when it fits the balance and no error is drawn, as failed otherwise, and the balance moves only on success |
| LedgerMock.DebitThenCreditRestoresBalance | backend/src/main/java/com/loyaltyportal/service/mock/MockLoyaltyApiClient.java:77-195 | a successful debit followed by a successful credit of the same points restores the balance, with the account stored from then on |
| LedgerMock.GetCurrentBalance | backend/src/main/java/com/loyaltyportal/service/mock/MockLoyaltyApiClient.java:214-216 | is present exactly for a stored account, with its balance |
| LedgerMock.UnstoredAccountReadsDiffer | backend/src/main/java/com/loyaltyportal/service/mock/MockLoyaltyApiClient.java:48-216 | an account never stored reads as 50000 in the balance query but as absent in `getCurrentBalance` |
| LedgerMock.SetAccountBalance | backend/src/main/java/com/loyaltyportal/service/mock/MockLoyaltyApiClient.java:204-207 | stores the balance of that account only and keeps the tiers |
| LedgerMock.SetAccountTier | backend/src/main/java/com/loyaltyportal/service/mock/MockLoyaltyApiClient.java:209-212 | changes the tier of that account only and keeps the balances |
| LedgerMock.ResetMockData | backend/src/main/java/com/loyaltyportal/service/mock/MockLoyaltyApiClient.java:218-221 | the seed accounts get their seed balances back and every other account reads as before |
| LedgerMock.ResetKeepsDebitedAccount | backend/src/main/java/com/loyaltyportal/service/mock/MockLoyaltyApiClient.java:218-221 | a reset does not undo a debit on an account outside the seeds |
| LedgerMock.DebitThenCreditScenario | backend/src/test/java/com/loyaltyportal/integration/MockServicesIntegrationTest.java:199-223 | an unseen account starts at 50000; debiting 5000 leaves 45000 and crediting 2000 then leaves 47000, both answered as successful |
| FulfillmentMock.DetectProductType | backend/src/main/java/com/loyaltyportal/service/mock/MockVirtualFulfillmentService.java:127-133 | a SKU is SOFTWARE exactly when it contains SOFTWARE or LICENSE, COURSE exactly when it contains COURSE or TRAINING and no earlier keyword, and so on down to GENERIC when it contains none of the eight keywords |
| FulfillmentMock.KeywordAnywhereClassifies | backend/src/main/java/com/loyaltyportal/service/mock/MockVirtualFulfillmentService.java:127-128 | a SKU with LICENSE anywhere in it is classified as SOFTWARE, whatever surrounds it |
| FulfillmentMock.FulfillmentIdFor | backend/src/main/java/com/loyaltyportal/service/mock/MockVirtualFulfillmentService.java:111-113 | an id is `VF-` followed by the upper-cased token, three characters longer than the token |
| FulfillmentMock.FulfillVirtualProduct | backend/src/main/java/com/loyaltyportal/service/mock/MockVirtualFulfillmentService.java:25-69 | a drawn failure stores nothing and answers FAILED with no id; otherwise exactly one SUCCESS record carrying the request's fields is stored under the new id, every other record is kept and the answer carries that id |
| FulfillmentMock.GetFulfillmentStatus | backend/src/main/java/com/loyaltyportal/service/mock/MockVirtualFulfillmentService.java:74-76 | present exactly for a stored id, with its record |
| FulfillmentMock.GetFulfillmentsByCustomer | backend/src/main/java/com/loyaltyportal/service/mock/MockVirtualFulfillmentService.java:81-87 | keeps exactly the records whose customer e-mail matches, unchanged |
| FulfillmentMock.ResetMockData | backend/src/main/java/com/loyaltyportal/service/mock/MockVirtualFulfillmentService.java:92-95 | no record is left, so every status lookup is absent |
| FulfillmentMock.FulfillKeepsAllSuccessful | backend/src/main/java/com/loyaltyportal/service/mock/MockVirtualFulfillmentService.java:36-63 | since a failure stores nothing, every stored record is SUCCESS after any fulfilment that started from such a store |
| FulfillmentMock.GetStatistics | backend/src/main/java/com/loyaltyportal/service/mock/MockVirtualFulfillmentService.java:100-108 | the total is the number of records, the successful count is the number of SUCCESS records, and the failed count is their difference, never negative |
| FulfillmentMock.FailedIsAlwaysZero | backend/src/main/java/com/loyaltyportal/service/mock/MockVirtualFulfillmentService.java:36-108 | on a store of SUCCESS records only, the failed count is zero and the successful count is the total |
| Portal.FindItem | backend/src/main/java/com/loyaltyportal/service/OrderWorkflowService.java:199-200 | finds the first line with the id, and reports none exactly when no line of the order has it |
| Portal.SaveItem | backend/src/main/java/com/loyaltyportal/service/OrderWorkflowService.java:206-207 | replaces that one line of that order and leaves every other order and line as it was |
| Workflow.PhysicalStep | backend/src/main/java/com/loyaltyportal/service/OrderWorkflowService.java:81-102 | a physical line moves to PROCESSING exactly when its product has a stock record holding at least its quantity as reserved, with that reservation confirmed and no other inventory field moved; otherwise it is marked failed with `Failed to initiate fulfillment: ` followed by the confirmation's own error, and the stock is untouched |
| Workflow.PhysicalPass | backend/src/main/java/com/loyaltyportal/service/OrderWorkflowService.java:78-103 | every line keeps its identity; non-physical lines are untouched and each physical line is either in PROCESSING or marked failed with the initiation reason; when the stock holds every physical quantity as reserved, every physical line ends in PROCESSING and each product's reserved count drops by exactly the lines' quantity |
| Workflow.PhysicalPassConfirmsReservations | backend/src/main/java/com/loyaltyportal/service/OrderWorkflowService.java:81-88 | after the physical pass each product's reserved count has dropped by exactly the quantity of the lines that reached PROCESSING for it, and nothing else in the record changed |
| Workflow.HeldStep | backend/src/main/java/com/loyaltyportal/service/OrderWorkflowService.java:81-88 | when the stock holds every physical quantity as reserved, the first physical line reaches PROCESSING and the remaining lines' quantities stay held |
| Workflow.RequestFor | backend/src/main/java/com/loyaltyportal/service/OrderWorkflowService.java:141-148 | the request carries the order number and line id as reference, the SKU, the quantity, the account manager's e-mail and the company name |
| Workflow.ReferenceIdsIdentifyLines | backend/src/main/java/com/loyaltyportal/service/OrderWorkflowService.java:141-142 | two lines of one order get the same reference id only when they are the same line |
| Workflow.VirtualStep | backend/src/main/java/com/loyaltyportal/service/OrderWorkflowService.java:115-130 | a virtual line is either dispatched in PROCESSING or, when posting it fails, marked failed with a `Failed to fulfill virtually: ` reason; other lines are untouched |
| Workflow.VirtualPass | backend/src/main/java/com/loyaltyportal/service/OrderWorkflowService.java:112-132 | every line goes through the virtual step independently |
| Workflow.DispatchedRequests | backend/src/main/java/com/loyaltyportal/service/OrderWorkflowService.java:112-159 | exactly one request is posted per dispatched virtual line |
| Workflow.DispatchedLinesArePosted | backend/src/main/java/com/loyaltyportal/service/OrderWorkflowService.java:115-122 | every dispatched virtual line has its request posted |
| Workflow.PostedRequestsAreDispatched | backend/src/main/java/com/loyaltyportal/service/OrderWorkflowService.java:137-159 | every posted request belongs to a dispatched virtual line |
| Workflow.PhysicalPhase | backend/src/main/java/com/loyaltyportal/service/OrderWorkflowService.java:53-60 | physical lines are all decided (PROCESSING or FAILED), other lines are untouched, and without physical lines the stock is unchanged; when the stock holds the order's physical quantities as reserved, every physical line is PROCESSING and exactly those reservations are consumed |
| Workflow.VirtualPhase | backend/src/main/java/com/loyaltyportal/service/OrderWorkflowService.java:62-69 | virtual lines are all decided, other lines are untouched |
| Workflow.FulfillLines | backend/src/main/java/com/loyaltyportal/service/OrderWorkflowService.java:50-70 | every physical or virtual line ends decided, without physical lines the stock is unchanged and without virtual lines nothing is posted; when the stock holds the order's physical quantities as reserved, every physical line is PROCESSING and exactly those reservations are consumed |
| Workflow.InitiationMail | backend/src/main/java/com/loyaltyportal/service/OrderWorkflowService.java:58-72 | a physical-fulfilment notice to the fulfilment team when the order has physical lines, then the confirmation to the account manager, appended in that order |
| Workflow.InitiateOrderFulfillment | backend/src/main/java/com/loyaltyportal/service/OrderWorkflowService.java:50-73 | only that order's lines change, every physical or virtual line ends decided, the mail gets the notices of the initiation and the catalogue and journal are untouched; the stock keeps its products, and when it holds the order's physical quantities as reserved every physical line is PROCESSING and exactly those reservations are consumed |
| Workflow.CheckOrderCompletion | backend/src/main/java/com/loyaltyportal/service/OrderWorkflowService.java:243-259 | an order whose lines are all DELIVERED or FULFILLED and which is PROCESSING becomes COMPLETED with a completion e-mail; if any line is open or it is already complete nothing happens; otherwise the order's own guard refuses |
| Workflow.CompletionIsIdempotent | backend/src/main/java/com/loyaltyportal/service/OrderWorkflowService.java:250 | a second completion check after a successful one changes nothing |
| Workflow.CompletionExactlyFromProcessing | backend/src/main/java/com/loyaltyportal/service/OrderWorkflowService.java:246-252 | an order not yet complete ends COMPLETED exactly when all its lines are done and it was PROCESSING; a cancelled order with all lines done is refused |
| Workflow.ItemNotFound | backend/src/main/java/com/loyaltyportal/service/OrderWorkflowService.java:199-200 | the error for an unknown line starts with `Order item not found: ` |
| Workflow.HandleVirtualFulfillmentSuccess | backend/src/main/java/com/loyaltyportal/service/OrderWorkflowService.java:164-177 | only the called-back line changes: it becomes FULFILLED with the answer's id and a delivery time, and every other line and order, the stock and the journal stay as they were; when that leaves every line done and the order PROCESSING, the order is COMPLETED and the completion notice precedes the virtual-delivery notice; with lines outstanding only the delivery notice is sent; a finished order that is not PROCESSING is refused with the guard's error and no mail (order taken as stored; see Left out) |
| Workflow.HandleVirtualFulfillmentError | backend/src/main/java/com/loyaltyportal/service/OrderWorkflowService.java:182-191 | the line is marked failed with a `Virtual fulfillment failed: ` reason and two e-mails go out, to the account manager then operations |
| Workflow.MarkItemAsShipped | backend/src/main/java/com/loyaltyportal/service/OrderWorkflowService.java:196-213 | an unknown line is refused as not found, a virtual line is refused, and any physical line, whatever its status, becomes SHIPPED with the tracking number and a shipping e-mail |
| Workflow.MarkItemAsDelivered | backend/src/main/java/com/loyaltyportal/service/OrderWorkflowService.java:218-235 | an unknown line is refused as not found and a line not SHIPPED is refused, nothing changed; a shipped line becomes DELIVERED at the given time, every other line and order, the stock and the journal stay as they were; when that leaves every line done and the order PROCESSING, the order is COMPLETED and the completion notice precedes the delivery notice; with lines outstanding or the order already COMPLETED only the delivery notice is sent; a finished order that is neither is refused with the guard's error and no mail |
| Workflow.DeliverShippedLine | backend/src/main/java/com/loyaltyportal/service/OrderWorkflowService.java:228-235 | the accepted half of delivery: the same three completion cases, stated for line `k` |
| Workflow.SaveLineAndCheck | backend/src/main/java/com/loyaltyportal/service/OrderWorkflowService.java:243-259 | storing a line and then checking completion completes a PROCESSING order whose lines are all done (with the completion notice), refuses a finished order that is neither PROCESSING nor COMPLETED, and otherwise leaves the order as stored; nothing else changes |
| Workflow.ShippingIgnoresStatus | backend/src/main/java/com/loyaltyportal/service/OrderWorkflowService.java:202-207 | any physical line can be shipped, even a FAILED or DELIVERED one |
| Workflow.ShipThenDeliverCompletes | backend/src/main/java/com/loyaltyportal/service/OrderWorkflowService.java:196-259 | shipping and then delivering the one physical line of a PROCESSING order completes the order at the delivery time |
| Workflow.FailedResponseStillFulfills | backend/src/main/java/com/loyaltyportal/service/OrderWorkflowService.java:164-170 | an answer with the FAILED status and no id still marks the line FULFILLED, with no reference |
| Workflow.LastVirtualLineCompletes | backend/src/main/java/com/loyaltyportal/service/OrderWorkflowService.java:164-177 | the success callback for the only line of a PROCESSING order completes the order at the callback's time and sends the completion notice, then the delivery notice |
| Workflow.PendingPhysicalItems | backend/src/main/java/com/loyaltyportal/repository/OrderItemRepository.java:39-40 | returns exactly the physical lines still PENDING |
| Workflow.FailedItems | backend/src/main/java/com/loyaltyportal/repository/OrderItemRepository.java:22 | returns exactly the FAILED lines |
| Redemption.LineError | backend/src/main/java/com/loyaltyportal/service/RedemptionService.java:148-158 | an unknown product is reported as not found with its id; a known one is reported as inactive or as short of inventory |
| Redemption.FirstBadLine | backend/src/main/java/com/loyaltyportal/service/RedemptionService.java:147-166 | every line before the reported position passes the line checks and the line at it, if any, does not |
| Redemption.ValidateLines | backend/src/main/java/com/loyaltyportal/service/RedemptionService.java:147-166 | succeeds exactly when every line names an active product and every physical line's quantity is available, with one prepared line per request line carrying the product's current cost; otherwise fails with the error of the first bad line |
| Redemption.ValidateAndPrepareOrder | backend/src/main/java/com/loyaltyportal/service/RedemptionService.java:118-170 | refuses an unknown, inactive or account-less company, then an unknown, inactive or foreign account manager, then the first bad line, in that order; succeeds exactly when all checks pass, with the total the sum of cost times quantity over the lines |
| Redemption.ForeignManagerRefused | backend/src/main/java/com/loyaltyportal/service/RedemptionService.java:139-141 | a manager of another company is refused even when everything else is valid |
| Workflow.PhysicalQuantityAppend | backend/src/main/java/com/loyaltyportal/service/RedemptionService.java:186-193 | the physical quantity a list of lines holds on a product is additive over concatenation |
| Redemption.LineItem | backend/src/main/java/com/loyaltyportal/service/RedemptionService.java:186-187 | a saved line carries the product, quantity and cost per item and starts PENDING |
| Redemption.CreateLines | backend/src/main/java/com/loyaltyportal/service/RedemptionService.java:186-194 | never saves more lines than requested, saves all of them when no reservation fails and at least the failing one otherwise, and keeps the set of inventory records |
| Redemption.CreateLinesSavesInOrder | backend/src/main/java/com/loyaltyportal/service/RedemptionService.java:186-188 | the saved lines are the requested lines in order with consecutive ids |
| Redemption.CreateLinesStopsAtPhysical | backend/src/main/java/com/loyaltyportal/service/RedemptionService.java:188-193 | when the loop stops on an error, the last saved line is a physical one whose reservation failed |
| Redemption.CreateLinesReserves | backend/src/main/java/com/loyaltyportal/service/RedemptionService.java:190-193 | the stock moves by exactly the physical quantity of the lines whose reservation went through: reserved rises and available falls by it, per product |
| Redemption.CreatedItemsFollowRequest | backend/src/main/java/com/loyaltyportal/service/RedemptionService.java:144-188 | the saved lines follow the request line by line with the catalogue's products |
| Redemption.CreateOrder | backend/src/main/java/com/loyaltyportal/service/RedemptionService.java:83-91 | a validation failure leaves the state unchanged and reports that error; otherwise a PENDING order with the manager, company, order number and computed total is saved first, its lines follow the request, the journal and mail are untouched, and a reservation failure leaves the order and the lines saved so far in place |
| Redemption.StoreOrder | backend/src/main/java/com/loyaltyportal/service/RedemptionService.java:172-200 | the order is saved under a fresh id before its lines, with the stored order matching the validated data |
| Redemption.CreatedOrderTotal | backend/src/main/java/com/loyaltyportal/service/RedemptionService.java:145-178 | a created order's total equals the sum of its lines' points |
| Redemption.CreateOrderStoresLoop | backend/src/main/java/com/loyaltyportal/service/RedemptionService.java:182-196 | the created order's lines, the stock and the error are exactly those of the line loop |
| Redemption.CreatedOrderReserves | backend/src/main/java/com/loyaltyportal/service/RedemptionService.java:184-194 | after creation the stock holds exactly the physical quantities of the saved lines as new reservations, and on success every line is held |
| Redemption.LineTotalsMatch | backend/src/main/java/com/loyaltyportal/service/RedemptionService.java:162-165 | the validated total equals the sum of the saved lines' totals |
| Redemption.SplitDemandLoopFails | backend/src/main/java/com/loyaltyportal/service/RedemptionService.java:186-193 | two lines of one physical product that each fit but together exceed the available stock save both lines, reserve only the first and stop with an error |
| Redemption.SplitDemandPassesValidationThenFails | backend/src/main/java/com/loyaltyportal/service/RedemptionService.java:155-193 | such a request passes validation, and creation then leaves a PENDING order with two lines and a partial reservation behind |
| Redemption.Uncovered | backend/src/main/java/com/loyaltyportal/service/RedemptionService.java:155-160 | finds a physical line whose product's total demand over the order exceeds its availability, and none exactly when all demand is covered |
| Redemption.ValidateWithDemand | backend/src/main/java/com/loyaltyportal/service/RedemptionService.java:155-160 | agrees with the per-line validation except that it also refuses an order whose summed demand per product is not available |
| Redemption.DemandNonNegative | backend/src/main/java/com/loyaltyportal/service/RedemptionService.java:155-160 | with positive quantities the demand on a product is never negative |
| Redemption.CoveredCreationCompletes | backend/src/main/java/com/loyaltyportal/service/RedemptionService.java:186-193 | when every product's summed demand is available, the line loop saves every line without error |
| Redemption.CreateOrderWithDemand | backend/src/main/java/com/loyaltyportal/service/RedemptionService.java:83-200 | a refused order leaves the state unchanged; an accepted one is created exactly as before |
| Redemption.CreateOrderErrorIsLoopError | backend/src/main/java/com/loyaltyportal/service/RedemptionService.java:186-193 | after a successful validation, creation reports exactly the error of the line loop |
| Redemption.ReleaseLines | backend/src/main/java/com/loyaltyportal/service/RedemptionService.java:262-267 | touches no stock when the order has no physical lines and keeps the set of inventory records |
| Redemption.ReleaseLinesReleases | backend/src/main/java/com/loyaltyportal/service/RedemptionService.java:262-267 | a release that goes through returns exactly each product's physical quantity from reserved to available |
| Redemption.ReleasedCompose | backend/src/main/java/com/loyaltyportal/service/RedemptionService.java:263-266 | releasing one line and then the rest is releasing all of them |
| Workflow.PhysicalQuantityNonNegative | backend/src/main/java/com/loyaltyportal/service/RedemptionService.java:263-266 | with positive quantities the physical quantity held on a product is never negative |
| Redemption.ReleaseLinesSucceedsWhenHeld | backend/src/main/java/com/loyaltyportal/service/RedemptionService.java:263-266 | releasing lines whose quantities are all still reserved never fails |
| Redemption.DebitCall | backend/src/main/java/com/loyaltyportal/service/RedemptionService.java:215-219 | the debit asks for the order's total under the reference `ORDER-` plus the order number |
| Redemption.RefundCall | backend/src/main/java/com/loyaltyportal/service/RedemptionService.java:290-294 | the refund credits the order's total under the reference `REFUND-` plus the order number |
| Redemption.FailOrderProcessing | backend/src/main/java/com/loyaltyportal/service/RedemptionService.java:253-274 | records a failed debit with the message, releases the physical reservations, and sets the order FAILED unless a release failed, in which case no order changes |
| Redemption.FailureBypassesGuards | backend/src/main/java/com/loyaltyportal/service/RedemptionService.java:270 | a failed processing run leaves the order FAILED although no guarded transition admits FAILED |
| Redemption.CompleteOrderProcessing | backend/src/main/java/com/loyaltyportal/service/RedemptionService.java:233-251 | records the completed debit with the ledger's id, moves the order to PROCESSING and keeps its other fields, with one line per line before |
| Redemption.ProcessOrder | backend/src/main/java/com/loyaltyportal/service/RedemptionService.java:96-103 | an unknown or non-PENDING order is refused without a ledger call; otherwise exactly one debit is asked for; a thrown call leaves the state unchanged; the order ends PROCESSING exactly when the debit succeeded, with one completed debit in the journal; an error signal is one failure of the order with the signal's message; a refused debit is one failure with the ledger's message, followed, when that failure raises, by a second one carrying the raised error |
| Redemption.CompleteCancellation | backend/src/main/java/com/loyaltyportal/service/RedemptionService.java:307-331 | a successful refund is recorded as a completed refund, the physical reservations are released, and the order becomes CANCELLED with the reason and time unless a release failed |
| Redemption.CancelOrder | backend/src/main/java/com/loyaltyportal/service/RedemptionService.java:108-115 | an unknown or COMPLETED order is refused; a PROCESSING order asks for exactly one refund, and a refused or thrown refund changes nothing; any other order is cancelled without a ledger call; a cancellation that goes ahead releases the reservations and marks the order CANCELLED with the reason |
| Redemption.CreateLinesHeldReservable | backend/src/main/java/com/loyaltyportal/service/RedemptionService.java:186-193 | every held physical line names a stocked product with a positive quantity |
| Redemption.HeldCons | backend/src/main/java/com/loyaltyportal/service/RedemptionService.java:186-193 | the held lines of a loop that saved one more line in front are that line and the rest's held lines |
| Redemption.ReservableCons | backend/src/main/java/com/loyaltyportal/service/RedemptionService.java:186-193 | a reservable line in front of reservable lines keeps the whole list reservable |
| Redemption.ReleaseUndoesCreation | backend/src/main/java/com/loyaltyportal/service/RedemptionService.java:184-193 | releasing the held lines of a creation restores the stock it started from |
| Redemption.CreateThenCancelRestoresStock | backend/src/main/java/com/loyaltyportal/service/RedemptionService.java:108-331 | cancelling a freshly created order makes no ledger call and restores the stock and journal exactly |
| Redemption.CreateThenRefusedDebitRestoresStock | backend/src/main/java/com/loyaltyportal/service/RedemptionService.java:213-274 | a refused or failed debit on a freshly created order restores the stock, marks it FAILED and adds one failed record |
| Redemption.OnlyLastForRecipient | backend/src/main/java/com/loyaltyportal/service/OrderWorkflowService.java:72 | in a consistent log where only the last e-mail goes to a recipient, that recipient's list is that e-mail alone |
| Redemption.InitiationConfirmsOnce | backend/src/main/java/com/loyaltyportal/service/OrderWorkflowService.java:50-73 | initiation sends the account manager exactly one e-mail, the order confirmation |
| Redemption.SuccessfulDebitInitiatesFulfillment | backend/src/main/java/com/loyaltyportal/service/RedemptionService.java:233-251 | a successful debit records the transaction, marks the order PROCESSING and then runs fulfilment initiation on it |
| Redemption.SuccessfulDebitConfirmsHeldLines | backend/src/main/java/com/loyaltyportal/service/RedemptionService.java:233-251 | a successful debit of a PENDING order whose physical quantities the stock holds as reserved puts every physical line in PROCESSING and consumes exactly those reservations |
| Redemption.CreatedLinesHeld | backend/src/main/java/com/loyaltyportal/service/RedemptionService.java:172-196 | a creation that went through leaves a PENDING order whose physical quantities the stock holds as reserved, on top of the stock it started from |
| Redemption.CreateThenDebitConfirmsLines | backend/src/main/java/com/loyaltyportal/service/RedemptionService.java:172-251 | creating an order and then debiting it successfully puts every physical line in PROCESSING |
| Redemption.CreateThenDebitConsumesStock | backend/src/main/java/com/loyaltyportal/service/RedemptionService.java:172-251 | creating an order and then debiting it successfully leaves each product's reserved count as it was and its available count lower by the order's physical quantity |
| Redemption.DebitConsumesReserved | backend/src/main/java/com/loyaltyportal/service/RedemptionService.java:233-251 | a successful debit brings the reservations of an order reserved on top of a stock back to that stock's |
| Redemption.RefusedDebitReleasesAndFails | backend/src/main/java/com/loyaltyportal/service/RedemptionService.java:213-274 | a refused or errored debit records one FAILED debit, moves every physical line's quantity back from reserved to available and leaves the order FAILED; when that release raises, an error signal keeps the order and the stock reached, while a refusal records a second FAILED debit with the release's error and releases again |
| Redemption.ProcessingSendsOneConfirmation | backend/src/main/java/com/loyaltyportal/service/RedemptionService.java:233-251 | after a successful debit the account manager has received exactly one e-mail, the confirmation, and the order is PROCESSING |
| Redemption.ReCancelReleasesAgain | backend/src/main/java/com/loyaltyportal/service/RedemptionService.java:276-324 | a CANCELLED or FAILED order can be cancelled again, without a ledger call, and its reservations are released once more |
| Redemption.CancelTwiceReleasesTwice | backend/src/main/java/com/loyaltyportal/service/RedemptionService.java:276-324 | cancelling a fresh order twice releases its physical quantities twice over the original stock |
| Redemption.ProcessingCancelAfterConfirmFails | backend/src/main/java/com/loyaltyportal/service/RedemptionService.java:287-324 | when fulfilment has already confirmed the reservation of a PROCESSING order, cancelling it records the refund but then fails on the release, leaving the order and stock as they were |
| Redemption.CancelOrderCorrected | backend/src/main/java/com/loyaltyportal/service/RedemptionService.java:276-285 | refuses an order that is already CANCELLED or FAILED and otherwise cancels as before |
| Redemption.CorrectedCancelTakesEffectOnce | backend/src/main/java/com/loyaltyportal/service/RedemptionService.java:276-285 | after a corrected cancellation succeeds, a second one changes nothing and makes no ledger call |
| Redemption.CorrectedCancelTwiceRestoresStock | backend/src/main/java/com/loyaltyportal/service/RedemptionService.java:276-324 | cancelling a fresh order twice with the correction restores the original stock |
| Cart.UpdateTotals | frontend/src/store/useStore.js:99-104 | the totals become the sum of the quantities and the sum of cost times quantity over the lines, which are kept |
| Cart.Relabel | frontend/src/store/useStore.js:57-61 | a line with the id is rewritten and every other line is kept in place |
| Cart.AddItem | frontend/src/store/useStore.js:51-70 | if a line with the product's id exists, every such line gains the quantity and the others are kept; otherwise the product is appended with that quantity; the totals agree with the lines afterwards |
| Cart.RemoveItem | frontend/src/store/useStore.js:72-77 | exactly the lines with other ids remain, in order, and the totals agree with them |
| Cart.UpdateQuantity | frontend/src/store/useStore.js:79-93 | a quantity of zero or less removes the product; otherwise every line with the id gets that quantity, the others are kept and the totals agree |
| Cart.ClearCart | frontend/src/store/useStore.js:95-97 | the cart is empty with both totals zero |
| Cart.AddItemKeepsUniqueIds | frontend/src/store/useStore.js:51-67 | adding keeps the line ids distinct |
| Cart.AddTwiceAddsQuantities | frontend/src/store/useStore.js:51-67 | adding a product twice gives the same lines as adding the summed quantity once |
| Cart.RelabelKeepsCount | frontend/src/store/useStore.js:57-61 | rewriting lines without changing their ids keeps the number of lines with the id |
| Cart.RelabelTwice | frontend/src/store/useStore.js:57-61 | raising the quantity twice is raising it once by the sum |
| Cart.RelabelAppended | frontend/src/store/useStore.js:57-65 | raising a just-appended product's quantity gives the appended line with the summed quantity |
| Cart.AddThenRemove | frontend/src/store/useStore.js:51-77 | removing a product after adding it leaves the lines as removing it from the start would |
| Cart.RelabelFilter | frontend/src/store/useStore.js:57-74 | removal ignores any rewrite of the removed lines that keeps their ids |
| Cart.AddItemTotals | frontend/src/store/useStore.js:51-104 | adding a new product raises the item total by the quantity and the points total by cost times quantity; adding to an existing id raises the item total by the quantity once per line with that id |
| Cart.BumpSum | frontend/src/store/useStore.js:57-61 | raising the lines with an id changes the quantity sum by the quantity times the number of such lines |
| Cart.AddExistingRaisesTotalByQuantity | frontend/src/store/useStore.js:51-104 | in a cart with distinct ids, adding more of a product already present raises the item total by exactly that quantity |
| Cart.UniqueCountIsOne | frontend/src/store/useStore.js:53 | with distinct ids a present id occurs exactly once |
| Cart.DigitPrefix | frontend/src/store/useStore.js:203-207 | the longest run of leading decimal digits |
| Cart.TrimStart | frontend/src/store/useStore.js:203-207 | the result is a suffix of the input, everything dropped in front of it is white space, and it does not itself start with white space |
| Cart.ParseInt | frontend/src/store/useStore.js:203-207 | a bound parses to a number exactly when, after leading blanks and an optional sign, it starts with a digit |
| Cart.ParsePrintedNat | frontend/src/store/useStore.js:203-207 | a printed natural number parses back to itself |
| Cart.ParsePrintedInt | frontend/src/store/useStore.js:203-207 | leading blanks, an optional `+` or `-`, a printed number and any text that does not continue with a digit parse to the number, negated after `-` |
| Cart.AllDigitsPrefix | frontend/src/store/useStore.js:203-207 | a string of digits is its own digit prefix |
| Cart.GetFilteredProducts | frontend/src/store/useStore.js:176-213 | keeps, in order, exactly the products that pass every set filter: a case-insensitive search in name or description, an equal category, brand and type, and points within the parsed bounds |
| Cart.NoFiltersKeepAll | frontend/src/store/useStore.js:165-174 | with the filters cleared every product is kept |
| Cart.UnparsableBoundIgnored | frontend/src/store/useStore.js:203-209 | a points bound that does not parse as a number excludes nothing |
| Cart.MinimumKeepsCostlyProducts | frontend/src/store/useStore.js:203-205 | a printed minimum keeps exactly the products costing at least that much |
| SimplePortal.Validate | backend-simple/src/main/java/com/loyaltyportal/LoyaltyPortalApplication.java:602-613 | accepts exactly a request that is present, has positive total points, a non-empty item list and both ids, and reports the first missing piece otherwise |
| SimplePortal.CreateOrder | backend-simple/src/main/java/com/loyaltyportal/LoyaltyPortalApplication.java:599-653 | an order is saved exactly when the request is complete and both ids are known; it is PENDING at LEVEL_1 with the request's total points and its number of items, under a fresh id, and every earlier order is kept; a refusal changes nothing |
| SimplePortal.CreateOrderPreservesValid | backend-simple/src/main/java/com/loyaltyportal/LoyaltyPortalApplication.java:614-640 | creation keeps every stored order's status and stage among the known values |
| SimplePortal.ProcessApproved | backend-simple/src/main/java/com/loyaltyportal/LoyaltyPortalApplication.java:825-837 | a VIRTUAL order becomes DELIVERED and any other becomes APPROVED_FINAL, nothing else changing |
| SimplePortal.ApproveOrder | backend-simple/src/main/java/com/loyaltyportal/LoyaltyPortalApplication.java:686-724 | an unknown order is not found; at LEVEL_1 the order becomes APPROVED_LEVEL_1 at LEVEL_2 with an approval recorded; at LEVEL_2 it becomes COMPLETED and processed by type with a second approval; at any other stage nothing changes; other orders are untouched |
| SimplePortal.RejectOrder | backend-simple/src/main/java/com/loyaltyportal/LoyaltyPortalApplication.java:727-740 | an unknown order is not found; otherwise only that order changes, to REJECTED with the given reason, from any status |
| SimplePortal.MarkAsShipped | backend-simple/src/main/java/com/loyaltyportal/LoyaltyPortalApplication.java:743-756 | an unknown order is not found; otherwise only that order changes, to SHIPPED with the time, from any status |
| SimplePortal.ApprovalAdvancesStage | backend-simple/src/main/java/com/loyaltyportal/LoyaltyPortalApplication.java:694-713 | approval moves the stage one step forward from LEVEL_1 or LEVEL_2 and leaves COMPLETED where it is |
| SimplePortal.TwoApprovalsComplete | backend-simple/src/main/java/com/loyaltyportal/LoyaltyPortalApplication.java:694-713 | two approvals of a LEVEL_1 order complete it, as DELIVERED when it is VIRTUAL and APPROVED_FINAL otherwise, with both approvals recorded in turn |
| SimplePortal.ApprovalBranchesOnStageOnly | backend-simple/src/main/java/com/loyaltyportal/LoyaltyPortalApplication.java:689-713 | the result of approval does not depend on the order's status, only on its stage |
| SimplePortal.CreatedOrdersAreNeverDelivered | backend-simple/src/main/java/com/loyaltyportal/LoyaltyPortalApplication.java:614-637 | since creation never sets an order type, an order created and approved twice ends APPROVED_FINAL, never DELIVERED |
| SimplePortal.RejectTwiceKeepsLastReason | backend-simple/src/main/java/com/loyaltyportal/LoyaltyPortalApplication.java:727-740 | rejecting twice is rejecting once with the second reason |
| SimplePortal.ShipTwiceIsShipOnce | backend-simple/src/main/java/com/loyaltyportal/LoyaltyPortalApplication.java:743-756 | shipping twice is shipping once at the later time |
| SimplePortal.RejectAndShipOverrideEachOther | backend-simple/src/main/java/com/loyaltyportal/LoyaltyPortalApplication.java:727-756 | whichever of reject and ship runs last decides the status, and neither touches the stage |
| SimplePortal.ApprovalPreservesValid | backend-simple/src/main/java/com/loyaltyportal/LoyaltyPortalApplication.java:686-724 | approval keeps every status and stage among the known values |
| SimplePortal.RejectAndShipPreserveValid | backend-simple/src/main/java/com/loyaltyportal/LoyaltyPortalApplication.java:727-756 | rejecting and shipping keep every status and stage among the known values |
| SimplePortal.RegisterUser | backend-simple/src/main/java/com/loyaltyportal/LoyaltyPortalApplication.java:862-885 | refuses an e-mail already registered; then refuses, as the save's bean validation does, a blank or malformed e-mail and a null or blank role, an explicit null role included; otherwise adds one active user under a fresh id with that e-mail, the given role or USER when the entry is absent, and a company exactly when a known company id was given, keeping every earlier user |
| SimplePortal.RegisterTwiceFails | backend-simple/src/main/java/com/loyaltyportal/LoyaltyPortalApplication.java:865-867 | once an e-mail is registered, registering it again is refused and changes nothing; a first attempt refused by validation leaves the state as it was |
| SimplePortal.RegisterKeepsEmailsUnique | backend-simple/src/main/java/com/loyaltyportal/LoyaltyPortalApplication.java:862-885 | registration keeps e-mails unique among users |
| SimplePortal.RegisteredUserIsNotBlank | backend-simple/src/main/java/com/loyaltyportal/LoyaltyPortalApplication.java:293-305 | every user registration stores has a non-blank e-mail and a non-blank role, as the entity's constraints demand |

## Left out

- The ledger client's network layer (HTTP client, time-out, retry with back-off, health check): each debit or credit is an answer passed in, either a reply, an error signal or an exception thrown while building the call.
- Reactive plumbing (`Mono`, `flatMap`, `onErrorResume`, `subscribe`): each use case is one sequential step; the virtual provider's answer is a separate callback applied later.
- Transaction rollback and concurrency: a use case that fails midway keeps whatever it saved before the failure, and no two requests interleave.
- Workflow.HandleVirtualFulfillmentSuccess: works on the order as currently stored, not on the objects the Java callback captured when fulfilment began (backend/src/main/java/com/loyaltyportal/service/RedemptionService.java:244-248, OrderWorkflowService.java:155-156 and 173). Java therefore still sees the captured PROCESSING order after a cancellation: `markAsCompleted` passes, the save writes COMPLETED over the CANCELLED row, and the completion and virtual-delivery notices are sent. Had the completion guard thrown inside the success consumer, the error consumer (OrderWorkflowService.java:182-191) would have marked the line FAILED. The model instead keeps the line FULFILLED, returns the guard error and sends no mail; a second copy of every order, as captured per callback, would be needed to follow Java here.
- Order lines are addressed by order id and line id together; the Java repositories find a line by its own UUID.
- Random draws, delays, generated UUIDs and the clock (`Math.random`, `Thread.sleep`, `UUID.randomUUID`, `LocalDateTime.now`, `System.currentTimeMillis`) are parameters: a failure flag, a token and a time.
- `RedemptionService.checkBalance` is a company lookup followed by a plain pass-through to the ledger client; it has no logic beyond the two refusals the order validation already models.
- Simple getters and list delegations (`getTransactionsByCompany`, `getTransactionsByOrder`, `getTransactionsByStatus`, `getInventoryStatus`, `getTotalInventoryCount`) return repository query results unchanged.
- Floating-point rates (`getSuccessRate`, `getCompletionRate`) are not modelled.
- E-mail bodies and `JavaMailSender` are not modelled: a sent e-mail is kept as its recipient, subject, type and time.
- Case folding (`equalsIgnoreCase`, `toUpperCase`, `toLowerCase`) is modelled for ASCII letters only; Java's Unicode tables are not.
- Integers are unbounded: Java's 32-bit overflow of points, quantities and totals is not modelled.
- JavaScript numbers in the cart and filter are modelled as unbounded integers: fractional quantities and point costs, floating-point rounding of the totals and `NaN` arithmetic are not represented.
- Cart.ParseInt: JavaScript's `parseInt` is modelled for decimal input only; hexadecimal prefixes, `Infinity` and Unicode white space are not handled.
- The authentication, UI and order stores of the front end are not modelled, nor are its pages, API hooks and React Query wiring.
- In the single-file back end, the statistics and listing endpoints, product administration, BCrypt hashing and login are not modelled; a non-integer `totalPoints` (a `ClassCastException` in Java) is not representable, and a registration's e-mail is never null.
- SimplePortal.RegisterUser: the `@Email` check is the parameter `isEmail`, since Hibernate's e-mail pattern is not modelled; the refusal's text is the stand-in `ValidationFailed`, not the constraint-violation message Java reports; a null password, which makes the encoder throw, is not representable.
- `hasPhysicalItems` and `hasVirtualItems` throw on a line without a product; such a line is neither physical nor virtual here.
- REST controllers, `DataInitializer` and the open product-type registry are not modelled; product types form a closed datatype.
- Redemption.CancelOrderCorrected: the refusal message for an order already cancelled or failed is the model's own; the Java code has no such refusal.

## Findings

| source | as written | input that shows it | evidently intended | confidence | as-written member | corrected member |
|---|---|---|---|---|---|---|
| backend/src/main/java/com/loyaltyportal/service/InventoryService.java:165-170 | `getOutOfStockProducts` filters the rows that are in stock for those with nothing available, so it always returns an empty list | one inventory row with zero available: `getOutOfStockCount` reports 1 and the list is empty | the list holds exactly the rows with nothing available, as many as the out-of-stock count | high; not executed | InventoryService.OutOfStockListDisagreesWithCount | InventoryService.OutOfStockProductsMatchesCount |
| backend/src/main/java/com/loyaltyportal/service/RedemptionService.java:155-193 | availability is checked per request line, so two lines of one physical product that each fit but together exceed the stock pass validation, after which creation fails mid-loop and leaves a PENDING order with a partial reservation | a product with 5 available and a request for 3 and then 3 of it | the summed demand per product is checked before anything is saved, so creation either refuses the order or reserves every line | high; not executed | Redemption.SplitDemandPassesValidationThenFails | Redemption.CoveredCreationCompletes |
| backend/src/main/java/com/loyaltyportal/service/RedemptionService.java:276-285 | only COMPLETED orders are refused, so a CANCELLED or FAILED order can be cancelled again and its reservations are released once more | another order holds 2 reserved of a physical product; a new order for 2 of it, cancelled twice, releases 4 and so also frees the other order's reservation | cancelling takes effect once: an order already cancelled or failed is refused | medium; not executed | Redemption.CancelTwiceReleasesTwice | Redemption.CorrectedCancelTwiceRestoresStock |
