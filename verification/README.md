# Order and stock saga: a verified model

This project models a small marketplace of cooperating services and proves what their
combination guarantees. An order service stores orders and announces them; an inventory
service reserves stock for each announced order, or refuses it, and announces that; the order
service then confirms or cancels the order and announces that too; a notification service
tells the customer once for each kind of event. The services share nothing but Kafka topics,
each message of which may be delivered any number of times, in any order, or never. What keeps
them consistent is spread over transaction boundaries, row locks, a version compare-and-swap,
a status machine and two primary keys.

Three neighbouring mechanisms are modelled as well: the gateway's token-bucket limiter, the
keyset pagination of a customer's orders with its cursor text, and the gateway's cached GET.

## How it is built

The imperative layer has a class for each thing the services update in place, with their
branches and loops, and store failures free to happen at every statement. In the retry loop of
`UpdateOrderStatus` and in both `processBatch` methods the other processes' steps are free to
happen between statements too; `ReserveAll` runs alone there, and its interleaving is the
subject of `InventoryProtocol`. The protocol layer is a state machine for each service and one for all of
them together, whose transactions are proved to be those of the imperative layer; invariants
proved for every step give the theorems about every run.

| file | content |
|---|---|
| `Outbox.dfy` | the outbox table: polling query, workers, delivery accounting |
| `Reservation.dfy` | the stock row and the two loops that reserve an order, against per-SKU sums |
| `InventoryRepo.dfy` | the inventory service, one call at a time |
| `InventoryProtocol.dfy` | its transactions interleaved statement by statement: ledger, verdicts |
| `OrderService.dfy` | the order service's store, status machine, retry loop and outbox worker |
| `OrderProtocol.dfy` | all its writers interleaved: status machine, outbox, causality, retries |
| `Notification.dfy` | the notification inbox |
| `Saga.dfy` | the three services together: agreement, final verdicts, notifications |
| `Runs.dfy` | transition systems, their runs and induction over them |
| `Drain.dfy` | how soon one polling worker reaches a given row |
| `TokenBucket.dfy` | the rate limiter |
| `Base64Url.dfy`, `Timestamp.dfy`, `Cursor.dfy` | the cursor text, byte by byte |
| `Pagination.dfy` | listing a customer's orders while orders arrive |
| `CacheAside.dfy` | the cached GET |

## Assumptions

- Postgres runs at READ COMMITTED with row locks: a transaction sees its own writes and what
  others have committed, and a statement that waited for a row sees the row as committed by
  then. An aborted transaction changes nothing. The protocols apply a batch's UPDATE of
  an order at commit; `OrderService.OrderRepository.ProcessBatch`, which makes it when the code
  does and holds the row from then on, is proved to come to the same. A connection that breaks while the rows
  of a batch are read fails the transaction's later statements.
- Nothing raises `available_qty`: `Stock.Release` has no caller, and no file inserts stock.
- `Config.serial` says that ReserveStock calls for the same order do not overlap. It follows
  from keyed partitions (order-service/internal/outbox/publisher.go:21-24) and the sequential
  consumer (inventory-service/internal/consumer/order_created_consumer.go:46-48, 62-87). Only
  one thing needs it: that an order once refused, and so a CANCELLED one, was never reserved.
  All else holds of every run, and `Saga.CancelledThoughDeducted` is a run without it that ends
  with an order CANCELLED and its items deducted.
- Order ids are naturals, outbox rows are numbered in commit order instead of having UUIDs,
  and the text of a failure's reason is the kind of error it reports.
- Any statement sent to a store, and any exchange with Kafka, Redis or another service, may
  fail at any time. Ghost counters count the failures, so that a contract can say that an error
  has a cause: without a failure the answer is determined. The other processes are the methods
  `Interference`, which promise only `Rely`, and, to a transaction, that the rows it holds stand
  still. That every step of every process keeps those promises is
  `OrderProtocol.EveryStepIsReliedOn` and the two lemmas named `OpenBatchIsUndisturbed`.
- `Drain` is about one worker, and rows inserted after the one in question carry a later
  `created_at`, also those inserted while a batch is open.
- An order's items are written with the order and never again.
- The limiter computes over the reals, and the gateway's clock is also the one by which Redis
  expires keys.

## Model

| member | source | states |
|---|---|---|
| Reservation.Stock.Reserve | inventory-service/internal/domain/stock.go:20-31 | Succeeds exactly for a positive quantity that is available, moves it from available to reserved, and otherwise changes nothing and tells the two errors apart |
| Reservation.Stock.Release | inventory-service/internal/domain/stock.go:35-46 | Succeeds exactly for a positive quantity that is reserved and moves it back, the total unchanged |
| Reservation.ApplySpec | inventory-service/internal/repository/postgres/stock_repo.go:87-104 | The updating loop succeeds iff all quantities are positive and each SKU's sum fits; it then deducts exactly the sums |
| Reservation.DecideMeetsSpec | inventory-service/internal/repository/postgres/stock_repo.go:74-104 | Check loop on undiminished rows followed by the updating loop, duplicate SKUs included: succeeds iff all quantities are positive, all SKUs exist and every per-SKU sum is available; then deducts those sums |
| Reservation.RejectionHasFault | inventory-service/internal/repository/postgres/stock_repo.go:77-94 | A reservation that fails reports the first line at fault: in the check loop a missing SKU or too little stock for the line, in the updating loop a line that is not positive or a sum so far that is not in stock |
| Reservation.SuccessIgnoresItemOrder | inventory-service/internal/repository/postgres/stock_repo.go:74-104 | Reordering the items changes neither success nor the resulting stock |
| Reservation.RefusalIsFinal | inventory-service/internal/usecase/inventory_usecase.go:31-39 | An order refused at some stock is refused at every lower stock |
| Reservation.DecideFrame | inventory-service/internal/repository/postgres/stock_repo.go:42-72 | Deciding on the rows selected by SKU and writing them back is deciding on the whole table |
| InventoryRepo.StockRepository.SelectForUpdate | inventory-service/internal/repository/postgres/stock_repo.go:50-72 | Unless a statement fails, gives fresh row objects for exactly the SKUs asked for that exist, equal to the table's rows |
| InventoryRepo.StockRepository.CheckItems | inventory-service/internal/repository/postgres/stock_repo.go:77-85 | Passes iff every item exists and is available on its own; else reports the first item in order that is missing or insufficient, and which of the two it is |
| InventoryRepo.StockRepository.ApplyItems | inventory-service/internal/repository/postgres/stock_repo.go:87-104 | Mutating the row objects item by item and writing each back gives the table of the specification, or its error |
| InventoryRepo.StockRepository.ReserveAll | inventory-service/internal/repository/postgres/stock_repo.go:23-129 | All or nothing: a processed order is a duplicate; a new one is reserved iff its lines are positive, its SKUs exist and their sums are in stock, and then exactly those sums move, row by row, with one stock.reserved row and one processed row; else the error is that of the first line at fault; a store error only if a statement failed |
| InventoryRepo.StockRepository.RecordFailure | inventory-service/internal/repository/postgres/stock_repo.go:131-148 | Adds one stock.failed row with the reason and time, or, if its statement failed, none |
| InventoryRepo.StockRepository.ReserveStock | inventory-service/internal/usecase/inventory_usecase.go:20-43 | A missing SKU or too little stock is reported only with its failure row stored; duplicates, store errors and non-positive quantities leave the tables alone; a store error only if a statement failed |
| InventoryRepo.StockRepository.HandleMessage | inventory-service/internal/consumer/order_created_consumer.go:90-142 | A committed offset means a malformed message, an order already reserved, one reserved now because it fits the specification, or a recorded refusal of the first line at fault with stock unchanged; it is not committed only if a statement failed or a new order has a line that is not positive, and then nothing changed |
| InventoryRepo.StockRepository.ProcessBatch | inventory-service/internal/outbox/worker.go:48-106 | With the other processes running between its statements: the batch is the oldest pending unlocked rows; a prefix of it is published in order; over the tables as they are when it ends, its rows become SENT all together or nothing changes, the latter only if one statement or publish failed |
| InventoryProtocol.StepKeepsInv | inventory-service/internal/repository/postgres/stock_repo.go:23-148 | Every statement of every transaction and worker, in any interleaving, keeps the service's invariant |
| InventoryProtocol.CommitIsReserveAll | inventory-service/internal/repository/postgres/stock_repo.go:30-128 | Serializability: a transaction interleaved statement by statement does at its commit exactly what ReserveAll run alone at that moment would, and that succeeds |
| InventoryProtocol.CommitKeepsReads | inventory-service/internal/repository/postgres/stock_repo.go:50-55 | A commit changes no row that another open transaction has locked and read |
| InventoryProtocol.LedgerHolds | inventory-service/migrations/000001_init.up.sql:1-14 | In every run, overlapping calls for one order included: each order is processed at most once, available and reserved are the initial amounts less and plus the processed orders' sums, and neither is negative |
| InventoryProtocol.LedgerIsSum | inventory-service/internal/repository/postgres/stock_repo.go:87-126 | Deducting orders one after another adds up to one sum per SKU |
| InventoryProtocol.ColumnsFit | inventory-service/migrations/000001_init.up.sql:3-4 | If the initial totals fit the INT columns, every later value does |
| InventoryProtocol.LateDuplicateAborts | inventory-service/internal/repository/postgres/stock_repo.go:120-126 | A transaction that passed the EXISTS check before another one committed the same order has not claimed it and ends without commit at its INSERT |
| InventoryProtocol.StepKeepsVerdicts | inventory-service/internal/usecase/inventory_usecase.go:20-43 | Whatever overlaps, every step keeps: an order whose refusal is recorded, or about to be, has been reserved by another call or would be refused again |
| InventoryProtocol.NoCommitAfterRefusal | inventory-service/internal/repository/postgres/stock_repo.go:74-128 | Whatever overlaps, no reservation commits for an order whose refusal is recorded |
| InventoryProtocol.StepKeepsSeparate | inventory-service/internal/consumer/order_created_consumer.go:62-87 | If calls for one order do not overlap, every step keeps: an order with a call under way, or with a recorded refusal, is not processed |
| InventoryProtocol.OverlapCanGiveBothVerdicts | inventory-service/internal/usecase/inventory_usecase.go:20-43 | Step by step, two overlapping calls for one order that record both stock.reserved and stock.failed for it |
| InventoryProtocol.DeliveryAccounting | inventory-service/internal/outbox/worker.go:48-106 | Open batches are disjoint, SENT rows were published, only stored rows are published, and a row exactly once by each of its batches that published it and did not commit, and once more if it is SENT or published by an open batch |
| InventoryProtocol.OpenBatchIsUndisturbed | inventory-service/internal/outbox/worker.go:77-84 | While a batch is open no step but its own commit touches its rows, processed orders stay and stock only goes down |
| Outbox.Oldest | inventory-service/internal/outbox/worker.go:78-83 | Finds the oldest pending row that is neither locked nor taken, if there is one |
| Outbox.FetchPending | order-service/internal/outbox/worker.go:117-141 | Selects distinct pending unlocked rows, oldest first, and leaves one out only when the limit is reached and all chosen are at least as old |
| Outbox.Publisher.Publish | order-service/internal/outbox/publisher.go:28-39 | An acknowledged message is in the log once more; after an error it may be there or not |
| Outbox.PublishKeepsInv | order-service/internal/outbox/worker.go:76-89 | Publishing keeps the exact count of each row's publications |
| Outbox.CommitKeepsInv | order-service/internal/outbox/worker.go:105-107 | So does committing a batch, whose rows have all been published |
| Outbox.AbortKeepsInv | order-service/internal/outbox/worker.go:69-89 | So does rolling a batch back at any point |
| Drain.BatchTakesAhead | order-service/internal/outbox/worker.go:117-125 | A batch selected without a pending row takes batchSize rows from ahead of it |
| Drain.CommitNeedsOneLess | order-service/internal/outbox/worker.go:91-107 | A commit sends the row unless the batch was fetched without it, and then lowers by one the number of commits it may still have to wait for |
| Drain.BoundedDrain | order-service/internal/outbox/worker.go:64-125 | With one worker, rows inserted at any time and batches failing at any point: k commits are sure to have sent a pending row if and only if k is at least Need, the full batches of the backlog that no open batch will send, plus one, plus one if an open batch leaves the row out |
| Drain.NeedIsBounded | order-service/internal/outbox/worker.go:64-125 | With p rows ahead, Need is p / batchSize + 1 unless an open batch leaves the row out, and then that or one more |
| Drain.OpenBatchCostsOneMore | order-service/internal/outbox/worker.go:71-105 | A run from the empty table in which a row inserted between a fetch and its commit has p / batchSize + 1 equal to 1, and the first commit does not send it |
| OrderService.Order.TransitionTo | order-service/internal/domain/order.go:127-137 | Takes exactly the four declared transitions and otherwise leaves the status |
| OrderService.OrderRepository.SaveWithEvent | order-service/internal/repository/postgres/order_repo.go:26-75 | Stores a new order as CREATED in version 1 and its event, PENDING with the current time, together; or neither, which happens only if a statement failed or the id exists |
| OrderService.OrderRepository.CreateOrder | order-service/internal/usecase/order_usecase.go:26-53 | Refuses exactly an empty order; otherwise order and timed event are stored together, or nothing is, only if a statement failed or the id exists |
| OrderService.OrderRepository.GetByID | order-service/internal/repository/postgres/order_repo.go:76-109 | Gives the committed status and version, and a prefix of the items, all of them unless reading them failed unnoticed; not found exactly for a missing order, unless a statement failed |
| OrderService.OrderRepository.UpdateStatusWithEvent | order-service/internal/repository/postgres/order_repo.go:111-141 | Commits status, next version and timed event together exactly when the row still has the version read; reports a lost race exactly for another version, and a store error only if a statement failed |
| OrderService.OrderRepository.Attempt | order-service/internal/usecase/order_usecase.go:81-108 | One round under interference between any two statements: its reply is that of one atomic transition at some moment in between; a lost race means the order has ended; a store error means that a statement failed |
| OrderService.OrderRepository.UpdateOrderStatus | order-service/internal/usecase/order_usecase.go:78-134 | The call is one atomic transition at a moment of its own, never exhausts its retries, looks up at most twice, and returns nil exactly when it itself committed status and timed event, which then stand; it returns a store error only if a statement failed, so a lost race is retried and ends as an invalid transition |
| OrderService.OrderRepository.HandleStockResult | order-service/internal/consumer/stock_result_consumer.go:120-158 | The offset is committed unless a statement failed or the order is missing; if the order was AWAITING_STOCK at its moment the transition is made with its timed event, else this call changed nothing |
| OrderService.OrderRepository.ProcessBatch | order-service/internal/outbox/worker.go:64-165 | With the other processes running between its statements: a prefix of the oldest pending rows is published; if all went through, then over the tables as they are at commit its rows become SENT and exactly its created orders that are CREATED become AWAITING_STOCK one version on, together, else it has changed nothing, only if one statement or publish failed |
| OrderService.WritesStand | order-service/internal/outbox/worker.go:158-165 | Whatever the others do after an UPDATE of the batch, what it wrote is still what awaiting the announced orders asks for |
| OrderService.EndingStands | order-service/internal/domain/order.go:21-27 | Whatever other writers do, a committed terminal status and its event remain |
| OrderProtocol.StepKeepsInv | order-service/internal/outbox/worker.go:64-165 | Every step of any number of workers and status calls keeps the order service's invariant |
| OrderProtocol.AwaitHitsOneRow | order-service/internal/outbox/worker.go:158-165 | The worker's update finds the order it announces still CREATED, always |
| OrderProtocol.EveryChangeIsATransition | order-service/internal/domain/order.go:21-27 | Every committed change of a row is a declared transition from its status at commit, one version on; version 1 is CREATED, 2 AWAITING_STOCK, 3 CONFIRMED or CANCELLED; COMPLETED is not reached |
| OrderProtocol.EveryStepIsReliedOn | order-service/internal/usecase/order_usecase.go:78-117 | Every step of every writer is one that the retry loop's interference allows |
| OrderProtocol.TablesAreSound | order-service/internal/repository/postgres/order_repo.go:60-74 | In every run each row has the version of its status and every announced order is stored |
| OrderProtocol.OpenBatchIsUndisturbed | order-service/internal/outbox/worker.go:64-113 | While a batch is open no step but its own commit touches its rows or the orders they announce |
| OrderProtocol.RetriesNeverExhausted | order-service/internal/usecase/order_usecase.go:78-117 | In every run a call loses its compare-and-swap at most once, only to a terminal status, and its next read ends it |
| OrderProtocol.OutboxMirrorsStatus | order-service/internal/outbox/worker.go:91-105 | Each order has one order.created row, PENDING iff CREATED; one order.confirmed row iff CONFIRMED; one order.cancelled row iff CANCELLED |
| OrderProtocol.PublicationIsCausal | order-service/internal/outbox/worker.go:76-125 | However workers overtake each other, an order's end is never published before its creation |
| OrderProtocol.DeliveryAccounting | order-service/internal/outbox/worker.go:64-151 | As for the inventory's outbox, with any number of workers |
| Notification.InboxRepository.MarkProcessedAndNotify | notification-service/internal/repository/postgres/inbox_repo.go:24-51 | Stores and notifies once for each (order, event type); a duplicate does neither; a store error means that a statement failed, leaves the inbox as it was and at most this one notification out |
| Notification.InboxRepository.HandleMessage | notification-service/internal/consumer/order-events-consumer.go:88-113 | The offset is committed iff no statement failed; then a new message has just been stored and notified, and a duplicate has changed nothing |
| Saga.StepKeepsInv | order-service/internal/consumer/stock_result_consumer.go:120-158 | Every step of all services, with every delivery schedule and every overlap, keeps the joint invariant: each order's status is backed by inventory's verdict, and every verdict stands |
| Saga.TakenOnce | inventory-service/internal/repository/postgres/stock_repo.go:120-126 | What is taken for an order is its demand once if it is processed and nothing if it is not |
| Saga.Agreement | order-service/internal/consumer/stock_result_consumer.go:120-158 | In every run: a CONFIRMED order is processed with its items deducted exactly once; a CANCELLED one has its refusal recorded and, unless it was reserved before that, nothing deducted; it was not, if calls for one order do not overlap; stock is the initial stock less what was taken |
| Saga.VerdictIsFinal | inventory-service/internal/usecase/inventory_usecase.go:26-39 | In every run, once a refusal is recorded it stays and the order stays processed or unprocessed as it was; unprocessed, it is refused on every redelivery, has no stock.reserved row and is not CONFIRMED; unprocessed it is, if calls for one order do not overlap |
| Saga.BothVerdictsExactly | inventory-service/internal/usecase/inventory_usecase.go:26-39 | A step of any run gives an order its second verdict if and only if it records the failure of a call for an order that is already processed |
| Saga.CancelledThoughDeducted | inventory-service/internal/usecase/inventory_usecase.go:26-39 | A run with overlapping calls that ends with an order CANCELLED, processed and its unit deducted |
| Saga.NotificationsAreConsistent | notification-service/migrations/000001_init.up.sql:5 | In every run: at most one inbox row per order and type, never both endings of one order, and a terminal row only for an order in that status |
| TokenBucket.Script | api-gateway/internal/ratelimit/limiter.go:11-40 | The balance is the refilled tokens, at most the capacity, and the capacity for a fresh key; a request passes iff it is at least one token, and takes one |
| TokenBucket.TokenBucketLimiter.Allow | api-gateway/internal/ratelimit/limiter.go:53-69 | Each key's stored balance is that of its own requests so far, a key unused for 3600 seconds counting as fresh; the answer is their decision, the key expires 3600 seconds on, and other keys are untouched |
| TokenBucket.BalanceIsLeastAllowance | api-gateway/internal/ratelimit/limiter.go:21-37 | With and without expiry, whatever the clock: before each decision the balance equals the minimum of capacity + rate * elapsed - admissions over the windows that start no earlier than the last request that found no key |
| TokenBucket.DecisionIsExact | api-gateway/internal/ratelimit/limiter.go:21-37 | With and without expiry: a request is admitted iff admitting it breaks the bound of no window ending at it since the key was last created |
| TokenBucket.WindowBound | api-gateway/internal/ratelimit/limiter.go:21-37 | With and without expiry: in every window that ends at an admitted request and in which the key did not expire, admissions are at most capacity + rate * elapsed |
| TokenBucket.WindowBoundIff | api-gateway/internal/ratelimit/limiter.go:21-37 | With a clock that does not go back, the expiring key keeps that bound in every window, across expiries too, iff an hour's refill fills the bucket |
| TokenBucket.BalanceInRange | api-gateway/internal/ratelimit/limiter.go:26-36 | With a clock that does not go back the balance stays within 0 and capacity |
| TokenBucket.ExpiryInvisibleIff | api-gateway/internal/ratelimit/limiter.go:36-37 | The hour's expiry changes no decision on any request sequence iff an hour's refill fills the bucket |
| TokenBucket.ConfiguredLimiter | api-gateway/cmd/gateway/main.go:58 | With 10 tokens at 2 per second and the expiring key, a request is admitted iff no window of its own admissions would exceed 10 + 2 * elapsed |
| Base64Url.RoundTrip | order-service/internal/repository/postgres/order_repo.go:197-201 | Padded base64 over any 64-symbol alphabet decodes to the bytes encoded |
| Base64Url.KnownEncodings | order-service/internal/repository/postgres/order_repo.go:197 | Test vectors of section 10 of RFC 4648, and the two symbols of the URL-safe alphabet |
| Timestamp.CivilRoundTrip | order-service/internal/repository/postgres/order_repo.go:196 | Calendar date and time of an instant are valid and give the instant back |
| Timestamp.GregorianDays | order-service/internal/repository/postgres/order_repo.go:196 | The days before a year are 365 for each year before it and the Gregorian leap days |
| Timestamp.Epoch | order-service/internal/repository/postgres/order_repo.go:196 | The Unix epoch is where it belongs |
| Timestamp.FormatRoundTrip | order-service/internal/repository/postgres/order_repo.go:196-209 | Timestamp text with trimmed fraction and zone parses back to the same reading and offset |
| Timestamp.KnownFormat | order-service/internal/repository/postgres/order_repo.go:196 | A time with a fraction and an offset is written as section 5.6 of RFC 3339 has it |
| Cursor.RoundTrip | order-service/internal/repository/postgres/order_repo.go:195-214 | Decoding an encoded cursor gives the same instant and id, whatever the zone and whatever bytes the id has, bars included |
| Cursor.CursorText | order-service/internal/repository/postgres/order_repo.go:195-198 | A cursor decodes to the time's text, a bar and the id |
| Cursor.Injective | order-service/internal/repository/postgres/order_repo.go:195-198 | Equal cursors come from equal keys |
| Pagination.OrderLists.Query | order-service/internal/repository/postgres/order_repo.go:150-167 | The page holds the greatest keys in descending order, up to the limit |
| Pagination.BeforeIsLexicographic | order-service/internal/repository/postgres/order_repo.go:164-165 | Ids are compared byte by byte |
| Pagination.PageShows | order-service/internal/repository/postgres/order_repo.go:149-168 | The page of the query, or a prefix of it, shows exactly the customer's orders not passed, newest first, as far as there is room or reading got |
| Pagination.OrderLists.ListByCustomer | order-service/internal/repository/postgres/order_repo.go:143-192 | A cursor error is reported exactly for an unreadable cursor, a store error only after a failure; the answer shows only the customer's stored orders that the cursor has not passed, newest first, at most `limit`, and leaves out none but for lack of room or because reading broke off; it has a cursor iff it is full, and that decodes to its last order; the last order is always there to encode |
| Pagination.OrderLists.ListOrders | order-service/internal/usecase/order_usecase.go:65-76 | The same for any limit, those outside 1 to 100 being taken as 20 |
| Pagination.TraversalProgress | order-service/internal/repository/postgres/order_repo.go:149-189 | After n pages: descending, nothing invented, and every order of the first table is seen or still below the cursor |
| Pagination.TraversalIsComplete | order-service/internal/repository/postgres/order_repo.go:143-192 | Following the cursors to the end through pages read whole, with orders inserted and statuses changed between pages, gives a strictly descending list with every order present at the start exactly once |
| Pagination.TraversalIsExact | order-service/internal/repository/postgres/order_repo.go:174-191 | Whether or not reading the last page broke off: the list is strictly descending, nothing is invented, of the orders present at the start exactly those not below the last one seen are in it, each once, and it is complete iff none lies below that one |
| Pagination.OrderCanBeLost | order-service/internal/repository/postgres/order_repo.go:174-191 | A client that sees the list of a single order end empty, its only page having broken off |
| Pagination.TraversalEnds | order-service/internal/repository/postgres/order_repo.go:185-189 | A traversal has at most one page more than the customer has orders |
| CacheAside.StepKeepsInv | api-gateway/internal/delivery/http/order_handler.go:154-186 | Every step of interleaved readers, writers, expiry and eviction keeps each entry's and each reader's value tied to the row it was read of and the time at which that row was current |
| CacheAside.AnswersAreFresh | api-gateway/internal/delivery/http/order_handler.go:154-186 | Every answer has status and version of a committed snapshot; one that missed the cache is no older than its reader's delay, and a hit is strictly less old than the time to live plus the readers' own delays, also when a slow reader overwrites a newer entry; its items are a prefix of that snapshot's, and all of them iff the fetch behind it was read whole |
| CacheAside.BoundIsReached | api-gateway/internal/cache/redis_cache.go:39-49 | For every choice of delays a run answers, one tick before that bound, with a status superseded at tick 0 and without the order's item: the bound is exact |
| CacheAside.OrderHandler.GetOrder | api-gateway/internal/delivery/http/order_handler.go:154-186 | The order service is asked exactly when there is no entry younger than the time to live, unless Redis fails; a hit answers from that entry alone; otherwise the answer is the order's row, perhaps without its last items, and only that is cached; unless something fails, it is whole and cached |
| CacheAside.OrderHandler.CacheGet | api-gateway/internal/cache/redis_cache.go:24-37 | Finds an entry exactly while its time to live lasts, unless Redis fails |
| CacheAside.HandlerIsReader | api-gateway/internal/delivery/http/order_handler.go:154-186 | Whatever GetOrder's contract allows is a run of one reader of the machine, with the same answer and the same cache entry, so the staleness bound is that of the handler's answers |

## Left out

- Liveness: an order need not end. The worker publishes before it commits AWAITING_STOCK, so a
  fast reply is rejected as an invalid transition and its offset committed
  (order-service/internal/outbox/worker.go:79-105,
  order-service/internal/consumer/stock_result_consumer.go:129-131). Being reserved therefore
  does not imply being CONFIRMED, and only safety is claimed.
- An order with a non-positive quantity is neither reserved nor refused: the error is not one
  of the two that are recorded, and its offset is not committed
  (inventory-service/internal/usecase/inventory_usecase.go:41-42). The model follows the code.
- Guaranteed redelivery after a handler error: the loops go on to the next message and a later
  commit may cover the failed one, so messages are taken as losable.
- Order between notifications of different kinds, and monotone versions across cached reads.
- The timeout job described only in a comment (order-service/internal/domain/order.go:29-32),
  `Stock.Release` as part of the saga, and any way to COMPLETED.
- The expectations of order-service/internal/usecase/order_usecase_test.go:123-143 and 181-213
  about COMPLETED and AWAITING_STOCK: they disagree with `buildStatusEvent`, which the model
  follows.
- Order totals and currency, customer fields other than the id, and timestamps that nothing
  branches on.
- JSON, gRPC, HTTP, the Postgres, Kafka and Redis clients, metrics and logs. A message is
  either malformed or has its fields. The endless fetch and ticker loops are the machines'
  freedom to take the next step.
- The gateway's fail-open branch on limiter errors
  (api-gateway/internal/delivery/http/middleware/rate_limit.go:18-23): rate bounds are for runs
  without Redis errors.
- Deadlock detection and ambiguous commit results. An aborted transaction changes nothing and
  a commit has a definite outcome.
- Rounding of the limiter's doubles, and a gateway clock that differs from Redis's.
- Cursor.RoundTrip: does not model zone offsets with seconds, which the layout cannot show, nor
  years after 9999. Decoding follows the strict RFC 3339 grammar; texts that only the library's
  lenient fallback accepts are not modelled.
- Pagination.TraversalIsComplete: takes pages that were read whole. The code does not ask the
  result rows for an error, so reading that breaks off gives a short page with no next cursor;
  Pagination.TraversalIsExact says what a client has then.
- CacheAside.OrderHandler.GetOrder: takes the order service as one value at one moment; delays
  and interleaving are the subject of the machine beside it.
