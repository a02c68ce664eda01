# Verified model of the smart-queue platform

This project models the parts of the ticket-queue platform whose correctness rests on SQL-encoded state,
transactions and concurrent protocols, and proves what they are for. Tables are maps of rows, each SQL
statement is one atomic step, and a transaction is a sequence of steps that commits or is undone. Where the
original changes state in place, a class has the same fields and its methods are proved against functions on
values; the theorems are about those functions, over every input, every run or every interleaving.

`dafny verify dfyconfig.toml` checks everything.

| module | what it models |
|---|---|
| `WaitingOrder`, `QueueEntries`, `QueueRefinement` | waiting rows ordered by priority and ticket, the guarded status updates, the deferral by "minus five", and their refinement of a plain line |
| `Positions` | the four queries that say how many tickets are ahead, and the estimates |
| `EntryLifecycle` | the state machine of one ticket and its archive |
| `TicketCounter`, `TicketFormat` | the daily counter against the reset job, and the printed codes |
| `Transactions`, `SwallowedErrors` | `withTransaction` and `withSavepoint` over PostgreSQL's savepoint stack; callbacks that catch database errors |
| `Inventory`, `InventoryProtocol` | reservations, stock and event ledger; their statements interleaved under row locks |
| `CacheAside`, `MemoryCache`, `PendingFetches` | the Redis read-through cache as a protocol, the in-memory cache with lazy deletion and its pending fetches |
| `AuthSession` | the browser's shared token refresh, its termination, and the response interceptor |
| `Scheduler` | the per-process overlap guard and the cross-process advisory lock |
| `CartSignature`, `BookingRecords` | cart signatures and the merging of booking records |
| `AccountLifecycle` | one-time account links against the suspension of organizations |
| `CatalogCodes`, `QueueAssignments` | product codes from the migrations on, and the products of each queue |
| `Options`, `Sets`, `Sums` | shared helpers |

## Findings

- Savepoints: the block names need to differ only between a block and the blocks *directly* inside it; that
  condition is necessary and sufficient. Otherwise the outer rollback stops at the savepoint that a failed inner
  block left behind.
- A callback that catches a database error and returns can make `withTransaction` commit nothing and still
  succeed. That takes a callback that ends in such attempts, one of which makes a statement that is outside every
  block and not the callback's first;
  any other shape commits what it ran whenever it returns (`SwallowedErrors.CommitsWhatItRanExactlyWhen`).
- `reserve` called for a product that the order holds at another branch moves stock from one branch's total to
  the other's, because the extension keeps the row's first branch. This concerns the repository function's own
  contract: the order service sends one branch per order.
- Waiting rows of an earlier business date are overtaken by today's tickets.
- A refresh that is on the wire at a login can replace that login's token; without one the token is safe until
  the next login (`AuthSession.LoginIsKeptExactlyWhenNoRefreshOnWire`).
- A logout after the session has ended runs the termination listeners again.
- A cache invalidation stops older values exactly when neither a load nor a write of one is under way when Redis
  deletes the key (`CacheAside.InvalidationHoldsExactlyWhenNoneUnderWay`). With `getOrSet` of the memory cache it
  does so exactly when no fetch of the key is pending
  (`PendingFetches.InvalidationHoldsExactlyWhenNoFetchPending`).
- Tickets repeat exactly when the local date of a queue returns to a date that had a join
  (`TicketCounter.RepeatsExactlyWhenDateReturns`).
- Losing the database session of a running job, and no other loss, lets the job start a second time
  (`Scheduler.LossHarmsExactlyWhenInside`).
- The record-level `subtotal` of a booking record is that of the newest append. It is the sum of the items only
  as long as the earlier appends of the entry sum to 0 (`BookingRecords.ListedAddsUpExactlyWhen`).
- `cartSignature` is canonical for product ids without '|', whether or not they contain ':'. An id such as
  `a:1|b` can imitate two items.
- Seeding the code counters would miss a code whose row has changed type; the numbering migration leaves none.

## Model

Tables and statements are cited where they are written; a lemma about runs cites the code whose steps it ranges over.

| member | source | states |
|---|---|---|
| `QueueRefinement.RunRefinesLine` | apps/api/src/db/repositories/queue-entries.repository.ts:92-312 | Main result of the queue: within one business date, any run of joins, head calls, other status changes, deferrals and counter resets, guarded or failing, leaves each queue's table standing for exactly the plain line that appends, pops, removes and inserts at min(slots, n); the invariant on dates and tickets holds throughout. |
| `QueueRefinement.ApplyRefines` | apps/api/src/db/repositories/queue-entries.repository.ts:161-312 | One operation on the table is one operation on the line, for the operation's own queue and for every other queue. |
| `QueueRefinement.ApplyKeepsInv` | apps/api/src/db/repositories/queues.repository.ts:328-360 | Every operation keeps: whoever waits or is called joined today, today's tickets are distinct and at or below the counter. |
| `QueueRefinement.JoinSucceeds` | apps/api/src/db/repositories/queues.repository.ts:328-360 | In such a state a join never hits the daily ticket constraint, because the counter's next number is nobody's. |
| `QueueRefinement.KeysStayDistinct` | apps/api/src/db/repositories/queue-entries.repository.ts:100-105 | In every state a run reaches no two waiting rows of a queue share a sort key, so SQL's order is the only possible one. |
| `QueueRefinement.CallNextRefines` | apps/api/src/modules/queue/queue-auto-call.service.ts:28-31 | Calling the head of `listWaiting` pops the front of the line and puts that ticket among the called ones. |
| `QueueRefinement.AbsentRefines` | apps/api/src/db/repositories/queue-entries.repository.ts:276-312 | A deferral moves a called ticket into its line at the slot; with slots below 1 or without a called row nothing changes in the line. |
| `QueueEntries.DeferInsertsAtSlot` | apps/api/src/db/repositories/queue-entries.repository.ts:276-312 | After renumbering in tens and "minus five" the deferred ticket stands at index min(slots, n); everyone else keeps their order, in every queue. |
| `QueueEntries.RenumberKeepsLines` | apps/api/src/db/repositories/queue-entries.repository.ts:282-296 | Renumbering gives the i-th of n waiting rows priority (n - i) * 10 and leaves every line as it was. |
| `QueueEntries.MinusFiveIsNextPlace` | apps/api/src/db/repositories/queue-entries.repository.ts:297-299 | Between rows spaced by tens, five less than the row at slots - 1 (or 0 past the end) is the place right behind it. |
| `QueueEntries.DeferNeverRaisesAheadCount` | apps/api/src/db/repositories/queue-entries.repository.ts:276-312 | Where each other waiting ticket stands after a deferral: unmoved if before the slot, one further back otherwise, so counting the called ticket as ahead no count rises. |
| `QueueEntries.DeferKeepsOtherColumns` | apps/api/src/db/repositories/queue-entries.repository.ts:291-309 | A deferral changes nothing but priorities of that queue's waiting rows and the deferred row's own status, priority, call time and absences. |
| `QueueEntries.JoinAppendsExactlyWhenLast` | apps/api/src/db/repositories/queue-entries.repository.ts:161-182 | A default-priority join with an unused ticket lands at the tail if and only if every waiting row has a positive priority or a lower ticket. |
| `QueueEntries.CarriedOverRowIsOvertaken` | apps/api/src/db/repositories/queue-entries.repository.ts:100-105 | Witness that one business date is needed: a row left over from yesterday is overtaken by today's ticket 1. |
| `QueueEntries.ChangeLeavesLine` | apps/api/src/db/repositories/queue-entries.repository.ts:192-250 | Every status change but a deferral takes the row out of its line in place. |
| `QueueEntries.Repository.ListWaiting` | apps/api/src/db/repositories/queue-entries.repository.ts:92-109 | Returns the queue's waiting rows in sort order, cut at the limit if one is given. |
| `QueueEntries.Repository.Create` | apps/api/src/db/repositories/queue-entries.repository.ts:161-182 | Inserts the row unless its id or its queue, date and ticket are taken; then it fails and changes nothing. |
| `QueueEntries.Repository.MarkCalled` | apps/api/src/db/repositories/queue-entries.repository.ts:192-199 | Succeeds exactly on a waiting row, stamps the call, and takes the row out of its line; otherwise nothing changes. |
| `QueueEntries.Repository.MarkServing` | apps/api/src/db/repositories/queue-entries.repository.ts:201-208 | Succeeds exactly on a called row; otherwise nothing changes. |
| `QueueEntries.Repository.MarkServed` | apps/api/src/db/repositories/queue-entries.repository.ts:211-218 | Succeeds exactly on a serving row; otherwise nothing changes. |
| `QueueEntries.Repository.MarkSkipped` | apps/api/src/db/repositories/queue-entries.repository.ts:220-227 | Succeeds exactly on a called row; otherwise nothing changes. |
| `QueueEntries.Repository.MarkCancelled` | apps/api/src/db/repositories/queue-entries.repository.ts:229-236 | Succeeds exactly on a waiting or called row and removes it from its line in place. |
| `QueueEntries.Repository.MarkNoShow` | apps/api/src/db/repositories/queue-entries.repository.ts:238-250 | Succeeds exactly on a called row and counts an absence when asked to. |
| `QueueEntries.Repository.BulkUpdateEta` | apps/api/src/db/repositories/queue-entries.repository.ts:353-367 | Brings every stale estimate to index times average, returns exactly the rows whose estimate changed, touches no other row. |
| `QueueEntries.Repository.DeferCalledBySlots` | apps/api/src/db/repositories/queue-entries.repository.ts:276-312 | Succeeds exactly for slots of at least 1 and a called row of the queue, and then inserts it at min(slots, n) of the line it found; a failing call leaves every line as it was. |
| `QueueEntries.Repository.SlotPriority` | apps/api/src/db/repositories/queue-entries.repository.ts:297-299 | Computes the priority the deferral writes. |
| `Positions.PositionsAgreeExactlyWhenDistinct` | apps/api/src/db/repositories/queues.repository.ts:374-388 | The COUNT of strictly smaller keys equals the index in `listWaiting` on all rows of a queue if and only if no two of its waiting rows share a key. |
| `Positions.PositionAtMostIndex` | apps/api/src/db/repositories/queues.repository.ts:379-387 | For one row: the COUNT never exceeds the index, and equals it exactly when the row ties with no row that the order puts before it. |
| `Positions.AheadCountAtMostIndex` | apps/api/src/db/repositories/queue-entries.repository.ts:423-437 | The near-threshold ahead count never exceeds the index, and equals it when every waiting row has a LINE user. |
| `Positions.NearThresholdRows` | apps/api/src/db/repositories/queue-entries.repository.ts:423-437 | The near-threshold query finds only LINE users' rows that someone is ahead of, and finds exactly the places 1 to the threshold when every waiting row has a LINE user. |
| `Positions.IndexCountsPredecessors` | apps/api/src/db/repositories/queue-entries.repository.ts:355-358 | ROW_NUMBER less one is the number of listed rows ordered before the row. |
| `Positions.DashboardTotal` | apps/api/src/db/repositories/orders.repository.ts:865-886 | The COUNTs times the service time that the dashboard adds up for a queue with n waiting rows come to at most n(n-1)/2 service times, and to exactly that if and only if the keys are distinct. |
| `Positions.EtaIsPositionTimesAverage` | apps/api/src/db/repositories/queue-entries.repository.ts:353-367 | With distinct keys the stored estimate of each waiting row becomes its position, as `getWaitingPosition` counts it, times the average. |
| `Positions.EtaUpdateSettles` | apps/api/src/db/repositories/queue-entries.repository.ts:353-367 | Run a second time with the same average, the update changes no row. |
| `EntryLifecycle.ChangesFollowAbsences` | apps/api/src/db/repositories/queue-entries.repository.ts:192-312 | After any attempts at any transitions, the number of status changes a ticket has had is determined by its status and its absences, up to the noted two-way cases. |
| `EntryLifecycle.ChangesAreBounded` | apps/api/src/db/repositories/queue-entries.repository.ts:192-312 | With k recorded absences there are at most 2k + 3 status changes, and exactly that many if and only if the ticket was served. |
| `EntryLifecycle.TerminalIsFinal` | apps/api/src/db/repositories/queue-entries.repository.ts:192-250 | Served, skipped, cancelled and no-show are absorbing: no later run of attempts changes the row. |
| `EntryLifecycle.TimesFollowStatus` | apps/api/src/db/repositories/queue-entries.repository.ts:192-218 | With a clock that does not go back, the timestamps match the status: none called while waiting, and created <= called <= serving <= served as far as the ticket got. |
| `EntryLifecycle.ArchiveClampsNeverBind` | apps/api/src/db/repositories/queue-entries.repository.ts:380-393 | The max(0, ...) of the archive never changes a duration, and each duration is stored for exactly the statuses that have both ends. |
| `TicketCounter.NumbersAreConsecutive` | apps/api/src/db/repositories/queues.repository.ts:328-360 | Under any interleaving of joins and reset runs whose local date does not go back, the numbers issued for each date are consecutive in the order they were issued, from 1 on a fresh queue. |
| `TicketCounter.TicketsNeverRepeat` | apps/api/src/db/repositories/queues.repository.ts:328-360 | No (date, number) pair is issued twice, and within a date no printed code repeats under one prefix. |
| `TicketCounter.RepeatsExactlyWhenDateReturns` | apps/api/src/db/repositories/queues.repository.ts:334-339 | With arbitrary local dates: a fresh queue issues some ticket twice if and only if two joins fall on one date and between them a join or an active reset falls on another. |
| `TicketCounter.ClockGoingBackRepeatsTickets` | apps/api/src/db/repositories/queues.repository.ts:334-339 | Witness that the date must not go back: then the same ticket is issued twice. |
| `TicketCounter.QueueCounters.IncrementAndGetCounter` | apps/api/src/db/repositories/queues.repository.ts:328-360 | Issues the next number of the local date, restarting at 1 on a new one; an unknown queue is an error and changes nothing. |
| `TicketCounter.QueueCounters.RunCounterReset` | apps/api/src/jobs/counterReset.job.ts:17-27 | Moves exactly the active queues that are not on their local date to 0 and that date. |
| `TicketFormat.FormattedNumberReadsBack` | packages/shared/src/utils/format.ts:7-12 | The padded number parses back to itself at every magnitude and has at least three digits. |
| `TicketFormat.CodesAreInjective` | packages/shared/src/utils/format.ts:19-21 | Under one prefix, equal ticket codes come from equal numbers. |
| `TicketFormat.PrefixesCanCollide` | packages/shared/src/utils/format.ts:19-21 | Under two prefixes the same code can arise, once numbers outgrow the padding. |
| `Transactions.BigStepExactlyWhenSafe` | apps/api/src/db/transaction.ts:23-67 | A nesting of block names gives the big-step meaning for every callback and every start state if and only if no block sits directly inside a block of its own name; siblings and more distant blocks may share names. |
| `Transactions.SafeNamesGiveBigStep` | apps/api/src/db/transaction.ts:23-67 | Under that condition a transaction commits what its callback means, a failed block contributing nothing, and throws exactly when the callback does. |
| `SwallowedErrors.CommitsWhatItRanExactlyWhen` | apps/api/src/db/transaction.ts:23-36 | A callback shape commits what its session held whenever it returns, for every choice of what its statements do, if and only if it does not end in caught attempts of which one makes a statement outside every block that is not the callback's first. |
| `SwallowedErrors.ReturnedWorkIsKept` | apps/api/src/db/transaction.ts:26-29 | For any database and any block names: a callback that returns with a changed but aborted session has such a shape. |
| `SwallowedErrors.SwallowedErrorLosesWork` | apps/api/src/db/transaction.ts:26-29 | Witness: one added, then a database error caught; the transaction succeeds and commits nothing. |
| `SwallowedErrors.HarmlessAttempts` | apps/api/src/db/transaction.ts:53-67 | The same caught error loses nothing when a block encloses the statement or the attempt, or when a statement follows the attempt. |
| `Transactions.ExecMatchesMeaning` | apps/api/src/db/transaction.ts:53-67 | Inside a transaction: command-by-command execution yields the state, the aborted flag and the error of the meaning, with only the callback's own top-level names left on the savepoint stack. |
| `Transactions.UnsafeNamesBreakBigStep` | apps/api/src/db/transaction.ts:63-65 | For every unsafe nesting, a callback with exactly those blocks commits something other than it means. |
| `Transactions.FailingLeavesSavepoint` | apps/api/src/db/transaction.ts:63-65 | ROLLBACK TO leaves the savepoint of the failed block on the stack. |
| `Transactions.Client.WithSavepoint` | apps/api/src/db/transaction.ts:53-67 | The imperative block does what the command semantics say, and under the name condition what the block means; the committed state is untouched. |
| `Transactions.Client.WithTransaction` | apps/api/src/db/transaction.ts:23-36 | Commits the meaning or leaves the start state; an aborted transaction whose callback returns commits nothing and yet does not throw. |
| `InventoryProtocol.StockIsConserved` | apps/api/src/db/repositories/inventory-reservations.repository.ts:25-170 | Main result of the stock: for every interleaving of statements of any number of transactions, with rollbacks at any point, finite stock plus reserved plus consumed quantities stay what they were and no stock is negative, each order booking a product on one branch. |
| `InventoryProtocol.ClosedRowsStay` | apps/api/src/db/repositories/inventory-reservations.repository.ts:119-129 | A reservation leaves 'reserved' at most once: a committed closed row never changes again, so its stock is returned at most once. |
| `InventoryProtocol.LedgerRebuildsReservations` | apps/api/src/db/repositories/inventory-reservations.repository.ts:172-198 | In every reachable state the ledger rebuilds the table: reserved events of a row sum to its quantity, there is at most one final event and it carries that sum, and the expiry is the latest ever supplied. |
| `InventoryProtocol.StepKeeps` | apps/api/src/db/repositories/inventory-reservations.repository.ts:25-170 | Every statement of every transaction keeps the system's invariant, and what is committed before it stays committed. |
| `InventoryProtocol.CommitKeeps` | apps/api/src/db/transaction.ts:26-29 | A commit of locked rows preserves totals, closed rows and ledger, and disturbs no other running transaction. |
| `InventoryProtocol.PublishSparesOthers` | apps/api/src/db/repositories/inventory-reservations.repository.ts:88-97 | Transactions with disjoint row locks do not see each other's commits in what they hold. |
| `InventoryProtocol.TakeKeeps` | apps/api/src/db/repositories/inventory-reservations.repository.ts:37-48 | The guarded stock UPDATE keeps the running transaction in balance, the quantity being in flight. |
| `InventoryProtocol.BookKeeps` | apps/api/src/db/repositories/inventory-reservations.repository.ts:50-86 | The upsert and its event take the quantity out of flight and keep the transaction's ledger. |
| `InventoryProtocol.LockOrderKeeps` | apps/api/src/db/repositories/inventory-reservations.repository.ts:88-97 | Reading an order's rows FOR UPDATE keeps balance and ledger, and the rows read are the rows that are locked. |
| `InventoryProtocol.MarkKeeps` | apps/api/src/db/repositories/inventory-reservations.repository.ts:112-129 | The guarded status UPDATE always matches a reserved row that was read under lock, and puts its quantity in flight. |
| `InventoryProtocol.FinishKeeps` | apps/api/src/db/repositories/inventory-reservations.repository.ts:131-147 | Returning the stock and recording the event take it out of flight and cannot fail. |
| `Inventory.ReserveConservesExactlyOnOneBranch` | apps/api/src/db/repositories/inventory-reservations.repository.ts:50-64 | A reservation conserves the stock it takes from if and only if the order holds no reservation of the product at another branch, because an extension keeps the first branch. |
| `Inventory.ExtensionAtSecondBranchMovesTotal` | apps/api/src/db/repositories/inventory-reservations.repository.ts:50-64 | Witness for the function's own contract: reserved at one branch and extended at another, both units are booked at the first and the second branch's total falls by one. |
| `Inventory.BookingMovesQuantity` | apps/api/src/db/repositories/inventory-reservations.repository.ts:50-86 | Booking adds the quantity to the total of the row's own branch and to no other. |
| `Inventory.CloseConserves` | apps/api/src/db/repositories/inventory-reservations.repository.ts:119-138 | Closing a row leaves every finite total as it was. |
| `Inventory.ReplayedLedger` | apps/api/src/db/repositories/inventory-reservations.repository.ts:172-198 | What a replayable ledger says in plain sums: the reserved quantities of a row, and at most one final event, for exactly that sum. |
| `Inventory.LatestOfferIsMaximum` | apps/api/src/db/repositories/inventory-reservations.repository.ts:57-61 | The kept expiry is NULL if none was ever supplied and otherwise the greatest supplied. |
| `Inventory.Repository.Reserve` | apps/api/src/db/repositories/inventory-reservations.repository.ts:25-86 | Succeeds exactly when finite stock, an open or absent row and a positive quantity allow it, and then takes, books and records. |
| `Inventory.Repository.FindByOrderForUpdate` | apps/api/src/db/repositories/inventory-reservations.repository.ts:88-97 | Returns the order's rows, each once. |
| `Inventory.Repository.TransitionOrder` | apps/api/src/db/repositories/inventory-reservations.repository.ts:99-150 | Returns the number of the order's reserved rows, closes exactly these, changes stock as conservation demands, appends one event each, keeps the ledger, and changes nothing when it returns 0. |
| `Inventory.Repository.TransitionTwice` | apps/api/src/db/repositories/inventory-reservations.repository.ts:99-150 | A second transition returns 0 and leaves stock, rows and ledger as the first left them, which is one transition: rows closed, totals conserved, one event per row. |
| `CacheAside.HitsAreBoundedlyStale` | apps/api/src/infrastructure/redis/redis-json.cache.ts:62-112 | In every interleaving with failures, late and lost commands, evictions and invalidations, a hit whose key Redis read at H returns a value that a load of that key, begun at B, produced at L and Redis stored at S with B <= L <= S <= H < S + ttl. |
| `CacheAside.LoadsOncePerMiss` | apps/api/src/infrastructure/redis/redis-json.cache.ts:97-111 | A finished call that did not hit loaded exactly once and returns that load, having sent exactly one write if the cache is on and its read did not fail and none otherwise; a hit neither loads nor writes. |
| `CacheAside.NextKeepsInv` | apps/api/src/infrastructure/redis/redis-json.cache.ts:62-135 | Each step between two awaits keeps the invariant behind both. |
| `CacheAside.InvalidationHoldsExactlyWhenNoneUnderWay` | apps/api/src/infrastructure/redis/redis-json.cache.ts:114-135 | From the moment Redis carries out a delete, no continuation serves a reader of the key a value whose load had begun earlier if and only if neither a write nor a load of such a value is under way at that moment. |
| `CacheAside.InvalidationCanBeOvertaken` | apps/api/src/infrastructure/redis/redis-json.cache.ts:99-120 | Witness that an invalidation is no barrier: the write of an earlier load can arrive after it and be served. |
| `MemoryCache.Cache.Get` | apps/api/src/utils/cache.ts:46-56 | Returns what the history of writes shows at that time, and forgets nothing that is still visible. |
| `MemoryCache.VisibleIsLastSet` | apps/api/src/utils/cache.ts:46-60 | A value is visible if and only if some set of it is the last word on its key and it has not passed its expiry. |
| `MemoryCache.Cache.SetValue` | apps/api/src/utils/cache.ts:58-60 | Adds a set, with the default time to live if none is given, to the history. |
| `MemoryCache.Cache.Invalidate` | apps/api/src/utils/cache.ts:66-68 | Adds the removal of one key to the history. |
| `MemoryCache.Cache.InvalidateByPrefix` | apps/api/src/utils/cache.ts:74-78 | Adds the removal of all keys with the prefix to the history, whichever expired entries the store still holds. |
| `MemoryCache.Cache.InvalidateAll` | apps/api/src/utils/cache.ts:83-85 | Adds the removal of all keys to the history. |
| `MemoryCache.Cache.Size` | apps/api/src/utils/cache.ts:91-97 | Counts exactly the keys that a reader would find. |
| `MemoryCache.Cache.GetOrSetBegins` | apps/api/src/utils/cache.ts:115-116 | Up to the fetch: the visible value, which ends the call, without a write. |
| `MemoryCache.Cache.GetOrSetEnds` | apps/api/src/utils/cache.ts:118-120 | After the fetch, whatever other calls came in between: the fetched value is returned, set at that time, and shown. |
| `PendingFetches.InvalidationHoldsExactlyWhenNoFetchPending` | apps/api/src/utils/cache.ts:66-121 | In every reachable state of pending fetches: after an invalidation of a key, by key, prefix or all, no reader is ever given a value fetched or set before it, in any continuation, if and only if no fetch for the key was pending. |
| `MemoryCache.FetchOutlivesInvalidation` | apps/api/src/utils/cache.ts:115-120 | The fetched value is shown as long as it lasts and nothing touches the key afterwards, also when the key was invalidated during the fetch. |
| `AuthSession.OneRefreshOutstanding` | apps/web/src/store/authSession.ts:91-109 | In every interleaving at most one refresh request is on the wire, and it is the shared promise. |
| `AuthSession.SentAtMostTwice` | apps/web/src/services/apiClient.ts:49-79 | Every request is sent at least once and at most twice. |
| `AuthSession.TokenStaysNullUntilLogin` | apps/web/src/store/authSession.ts:91-148 | From any terminated state until the next login the access token stays null and the session stays terminated, whatever refreshes were in flight. |
| `AuthSession.ListenerRounds` | apps/web/src/store/authSession.ts:111-148 | Between logins the listeners run once per logout and once more if something else ended the session first; so at most once if and only if no logout follows an earlier ending. |
| `AuthSession.UnauthorizedTwiceEndsSession` | apps/web/src/services/apiClient.ts:57-78 | In every reachable state, a request answered 401 after its replay, or one whose refresh failed, ends the session and is rejected; a waiting request has a refresh to wait for and is sent a second time when that succeeds. |
| `AuthSession.NextKeepsInv` | apps/web/src/services/apiClient.ts:47-101 | Every step of the store and of the interceptor keeps the session's and the requests' invariants. |
| `AuthSession.LoginIsKeptExactlyWhenNoRefreshOnWire` | apps/web/src/store/authSession.ts:91-109 | At any login: until the next login the token stays none, the login's, or one that a refresh begun since has brought, in every continuation, if and only if no refresh is on the wire at the login. |
| `AuthSession.LateRefreshReplacesLogin` | apps/web/src/store/authSession.ts:95-103 | Witness from the start state: a refresh that outlives a logout and the next login replaces the new token when it answers. |
| `AuthSession.Store.RefreshAuthSession` | apps/web/src/store/authSession.ts:91-109 | Joins the refresh under way or starts one. |
| `AuthSession.Store.TerminateAuthSession` | apps/web/src/store/authSession.ts:111-132 | Ends the session, and runs the listeners if and only if it had not ended. |
| `AuthSession.Store.OnAnswer` | apps/web/src/store/authSession.ts:95-103 | A successful answer becomes the token unless the session has ended. |
| `AuthSession.Store.EstablishAuthSession` | apps/web/src/store/authSession.ts:40-45 | A login sets the token and opens a new episode. |
| `AuthSession.Store.RevokeAuthSession` | apps/web/src/store/authSession.ts:134-142 | A logout ends the session, clears the token and runs the listeners, whatever the server answers. |
| `Scheduler.AtMostOneInside` | apps/api/src/jobs/scheduler-lock.ts:14-67 | In every reachable state at most one call per job is inside `run`, over all processes, also when unlocks fail, sessions return to the pool holding locks, and sessions are lost that no running job is on; meanwhile the job's row names its process and says running. |
| `Scheduler.HoldersAreAlone` | apps/api/src/jobs/scheduler-lock.ts:21-29 | At most one call holds a given lock, even between two jobs whose names hash alike. |
| `Scheduler.NextKeepsInv` | apps/api/src/jobs/scheduler-lock.ts:18-66 | Each statement keeps: sessions are used by one call, lock counts are leaks plus holders, locks are exclusive, job rows match. |
| `Scheduler.LeakedLockShutsOthersOut` | apps/api/src/jobs/scheduler-lock.ts:59-65 | After a failed unlock no other session can take that lock until the holder's session is closed. |
| `Scheduler.LossHarmsExactlyWhenInside` | apps/api/src/jobs/scheduler-lock.ts:40-49 | In every reachable state, losing a database session can let two calls of one job inside, in a continuation that loses no other session in the middle of a job, if and only if a call on it is inside its job. |
| `Scheduler.LostSessionLetsSecondIn` | apps/api/src/jobs/scheduler-lock.ts:21-41 | From every state with a call inside: once its session is lost, a new call on any free session gets inside beside it. |
| `Scheduler.JobRunner.Tick` | apps/api/src/jobs/jobRunner.ts:54-60 | A cycle starts if and only if none of that job is in flight, from whichever timer and across stop and restart. |
| `Scheduler.JobRunner.CycleEnds` | apps/api/src/jobs/jobRunner.ts:63-70 | Ends the one cycle of the job and clears its guard. |
| `Scheduler.JobRunner.Stop` | apps/api/src/jobs/jobRunner.ts:84-90 | Clears the timers and keeps the guards of cycles in flight. |
| `CartSignature.SignatureIsCanonical` | apps/web/src/utils/checkoutSession.ts:222-228 | Two carts with distinct '|'-free product ids have the same signature if and only if they hold the same positive quantities of the same products, in whatever order. |
| `CartSignature.PrintIsInjective` | apps/web/src/utils/checkoutSession.ts:226-226 | An item reads back from its text even if its id contains ':'. |
| `CartSignature.JoinIsInjective` | apps/web/src/utils/checkoutSession.ts:227-227 | The joined text determines its '|'-free parts. |
| `CartSignature.AscendingIsUnique` | apps/web/src/utils/checkoutSession.ts:225-225 | A set of items with distinct ids has one arrangement by id, so the order of the input does not matter. |
| `CartSignature.SeparatorInIdCollides` | apps/web/src/utils/checkoutSession.ts:222-228 | Witness that '|' must be excluded: an id that contains it imitates two items. |
| `BookingRecords.ListsMostRecentEntries` | apps/web/src/utils/checkoutSession.ts:207-215 | After any history of appends the group lists the up to twenty most recently appended entries, newest first, each once. |
| `BookingRecords.RecordsHoldTheirSums` | apps/web/src/utils/checkoutSession.ts:179-206 | Each listed record holds, product by product, the quantities and item subtotals of all appends since its entry last entered the list, the creation time of the first of them, and the order and subtotal of the last. |
| `BookingRecords.ListedAddsUpExactlyWhen` | apps/web/src/utils/checkoutSession.ts:200-206 | If every append of an entry adds up, the listed record's subtotal is the sum of its items' if and only if the subtotals of all appends since it entered the list, but the last, sum to 0. |
| `BookingRecords.StoredAddsUpExactlyWhen` | apps/web/src/utils/checkoutSession.ts:200-206 | For one append that adds up: the stored record adds up if and only if there was no earlier record or its items sum to 0. |
| `BookingRecords.SecondBookingDoesNotAddUp` | apps/web/src/utils/checkoutSession.ts:179-206 | Witness: the same booking twice leaves items worth 200 under a subtotal of 100. |
| `BookingRecords.MergeAllAddsUp` | apps/web/src/utils/checkoutSession.ts:183-198 | Merging items by product preserves each product's quantity and subtotal. |
| `BookingRecords.TruncationCommutes` | apps/web/src/utils/checkoutSession.ts:212-215 | Cutting the list to twenty before an append or after it leaves the same list. |
| `BookingRecords.BookingStorage.AppendBookingRecord` | apps/web/src/utils/checkoutSession.ts:165-220 | Stores and returns the group with the new record merged and put in front; other groups are unchanged. |
| `AccountLifecycle.SuspensionIsFinal` | apps/api/src/modules/admin/admin.service.ts:28-123 | Once a suspension commits, no further run of issue, revoke, activate, reset, suspend, invite and approve transactions opens the organization again or changes the account row, password included, of anyone who was its member. |
| `AccountLifecycle.OpensExactlyForInvitedOwner` | apps/api/src/modules/account-lifecycle/account-lifecycle.repository.ts:127-136 | From any state, account links alone can make an organization active if and only if it is active or has an invited owner with no other owner active. |
| `AccountLifecycle.LinksWorkOnce` | apps/api/src/modules/account-lifecycle/account-lifecycle.repository.ts:80-92 | In any run each link completes at most one action, of either kind. |
| `AccountLifecycle.SpentStaysSpent` | apps/api/src/modules/account-lifecycle/account-lifecycle.repository.ts:174-181 | A used or revoked link stays so and is refused as invalid ever after. |
| `AccountLifecycle.LatestLinkOnly` | apps/api/src/modules/account-lifecycle/account-lifecycle.service.ts:65-75 | Issuing revokes the earlier open link, so a user never has two open links for one purpose, transactions being atomic. |
| `AccountLifecycle.ActivationEnables` | apps/api/src/modules/account-lifecycle/account-lifecycle.repository.ts:94-148 | What an activation changes: the account, the memberships it was joined to, the organization exactly if the account owns it, and its one link; everything else stays. |
| `AccountLifecycle.ResetChangesPassword` | apps/api/src/modules/account-lifecycle/account-lifecycle.repository.ts:150-172 | What a reset changes: one active account's password and its one link; everything else stays. |
| `AccountLifecycle.OwnersStayUnique` | db/migrations/node-pg-migrate/000015_account_lifecycle_and_branches.js:57-59 | Over every run an organization keeps at most one active owner, the activation that would make a second being refused. |
| `AccountLifecycle.StepKeepsClosed` | apps/api/src/modules/admin/admin.service.ts:46-100 | Every transaction keeps an organization closed that a suspension closed. |
| `AccountLifecycle.OpensOnlyByOwner` | apps/api/src/modules/account-lifecycle/account-lifecycle.service.ts:127-145 | A transaction on a link opens an organization only for an invited owner of it. |
| `AccountLifecycle.Database.IssueAccountAction` | apps/api/src/modules/account-lifecycle/account-lifecycle.service.ts:60-91 | Revokes the open links and inserts the new one, or refuses and leaves the tables as they were. |
| `AccountLifecycle.Database.RevokeActiveTokens` | apps/api/src/modules/account-lifecycle/account-lifecycle.repository.ts:32-46 | Revokes exactly the open links of the user and purpose. |
| `AccountLifecycle.Database.CreateToken` | apps/api/src/modules/account-lifecycle/account-lifecycle.repository.ts:48-67 | Inserts an open link unless its hash is taken, its user unknown or its expiry past. |
| `AccountLifecycle.Database.ActivateAccount` | apps/api/src/modules/account-lifecycle/account-lifecycle.repository.ts:94-148 | Activates user and memberships, opens the organization for its owner, and spends the link; fails where a second active owner would arise. |
| `AccountLifecycle.Database.ActivateByLink` | apps/api/src/modules/account-lifecycle/account-lifecycle.service.ts:127-145 | Refuses an invalid link, one for another purpose, or an account that is not invited, in that order; otherwise activates. A refusal changes nothing. |
| `AccountLifecycle.Database.ResetByLink` | apps/api/src/modules/account-lifecycle/account-lifecycle.service.ts:186-206 | Refuses an invalid link, one for another purpose, or an inactive account; otherwise sets the password and spends the link. |
| `AccountLifecycle.Database.SuspendOrganization` | apps/api/src/modules/admin/admin.service.ts:28-123 | Refuses an unknown or inactive organization; otherwise suspends it, and disables its memberships and all its members' accounts. |
| `CatalogCodes.CodesNeverCollide` | apps/api/src/db/repositories/products.repository.ts:221-243 | Whatever products the migrations found, after them and after every run of creations, type changes (also stale ones) and orders, every code's number is below its counter and no two products of an organization share a code. |
| `CatalogCodes.StreamsHaveNoGaps` | apps/api/src/db/repositories/products.repository.ts:228-241 | Orders, product codes and service codes each hand out consecutive numbers from the shared counter row, however they are interleaved. |
| `CatalogCodes.NextCodeIsNew` | apps/api/src/db/repositories/products.repository.ts:221-243 | The next code belongs to no product of the organization. |
| `CatalogCodes.StepKeeps` | apps/api/src/modules/products/products.service.ts:98-167 | Each transaction keeps codes bounded by their counters and unique, including a type update based on a stale read that leaves the old code in place. |
| `CatalogCodes.NumberingIsUnique` | db/migrations/node-pg-migrate/000020_organization_product_catalog.js:13-28 | The generated codes of an organization are all different, each with its type's prefix and row number. |
| `CatalogCodes.RowNumbersGrow` | db/migrations/node-pg-migrate/000020_organization_product_catalog.js:19-22 | Row numbers start at 1 and follow creation time, then id, within organization and type. |
| `CatalogCodes.CodeReadsBack` | db/migrations/node-pg-migrate/000020_organization_product_catalog.js:15-22 | A generated code parses to its number under its own prefix and under no other. |
| `CatalogCodes.SeedingBoundsExactlyWhenCovered` | db/migrations/node-pg-migrate/000024_normalize_core_schema.js:16-46 | Seeding puts every counter above all existing codes if and only if the highest number under each prefix is on a row of that prefix's own type. |
| `CatalogCodes.SeededAfterNumbering` | db/migrations/node-pg-migrate/000024_normalize_core_schema.js:25-34 | After both migrations a counter is the number of products of its type plus one. |
| `CatalogCodes.StrayCodeIsMissed` | db/migrations/node-pg-migrate/000024_normalize_core_schema.js:26-34 | Witness: a product code on a row of type service escapes the seeding. |
| `CatalogCodes.Catalog.NumberProducts` | db/migrations/node-pg-migrate/000020_organization_product_catalog.js:13-28 | Numbers every product by the window. |
| `CatalogCodes.Catalog.NextCatalogCode` | apps/api/src/db/repositories/products.repository.ts:221-243 | Returns the code of the stream's next number and advances that column by one, creating the row when there is none. |
| `CatalogCodes.Catalog.NextOrderNumber` | apps/api/src/db/repositories/orders.repository.ts:125-136 | Returns the next order number and advances that column by one, creating the row when there is none. |
| `CatalogCodes.Catalog.CreateProduct` | apps/api/src/modules/products/products.service.ts:98-120 | The new product's code was in no row of the organization before. |
| `CatalogCodes.Catalog.UpdateKind` | apps/api/src/modules/products/products.service.ts:154-167 | Takes a new code when the requested type differs from the one that was read, however stale, keeps the code otherwise, and changes nothing without a requested type; codes stay bounded and unique. |
| `QueueAssignments.AssignmentRoundTrip` | apps/api/src/db/repositories/products.repository.ts:345-393 | For an active queue, whatever was assigned before, reading back an assignment gives the first occurrences of its ids in order, and each assigned product has an inventory row in the branch. |
| `QueueAssignments.SyncTouchesOneQueue` | apps/api/src/db/repositories/products.repository.ts:365-391 | An assignment changes no other queue's list and no existing inventory row; the rows it adds are of its branch and ids and unlimited. |
| `QueueAssignments.SoftDeleteTakesOut` | apps/api/src/db/repositories/products.repository.ts:415-430 | Deleting a product turns every queue's list into the same list without it. |
| `QueueAssignments.DedupKeepsFirstOccurrences` | apps/api/src/db/repositories/products.repository.ts:352-352 | The deduplicated ids are in the order of their first occurrences. |
| `QueueAssignments.DedupElements` | apps/api/src/db/repositories/products.repository.ts:352-352 | The deduplicated ids are the given ids, each once. |
| `QueueAssignments.SortedIsUnique` | apps/api/src/db/repositories/products.repository.ts:339-339 | The two-column order leaves one possible list. |
| `QueueAssignments.Repository.SyncProductsForQueue` | apps/api/src/db/repositories/products.repository.ts:345-393 | Throws exactly when an id is outside the organization's active catalogue, changing nothing; otherwise replaces the queue's list. |
| `QueueAssignments.Repository.SoftDelete` | apps/api/src/db/repositories/products.repository.ts:415-430 | Switches off the product and all its assignments. |
| `EntryLifecycle.ChangesAreTheArrows` | apps/api/src/db/repositories/queue-entries.repository.ts:192-312 | The guarded updates make exactly the status changes of the diagram, none beyond it and each one of it. |
| `EntryLifecycle.ChangesStampTheirTime` | apps/api/src/db/repositories/queue-entries.repository.ts:192-312 | Each change stamps its own column with its own time, a deferral clears the call, absences grow by exactly what was recorded, and no other column changes. |
| `EntryLifecycle.AbsencesAreCounted` | apps/api/src/db/repositories/queue-entries.repository.ts:238-250 | A no-show is one more absence exactly when it is to be counted, a deferral always is one; so a no-show has made 2k changes if counted and 2k + 2 if not. |
| `EntryLifecycle.CancellationsByStage` | apps/api/src/db/repositories/queue-entries.repository.ts:229-236 | A cancelled ticket with k absences has made 2k + 1 changes if it was waiting and 2k + 2 if it had been called. |
| `EntryLifecycle.RoundsToNearest` | apps/api/src/db/repositories/queue-entries.repository.ts:380-393 | Durations are stored to the nearest second. |
| `QueueRefinement.ResetMovesCounters` | apps/api/src/jobs/counterReset.job.ts:17-27 | A reset moves exactly the active queues' counters that are not on the date, to 0 on it, and no ticket. |
| `Positions.AheadCountsLineUsers` | apps/api/src/db/repositories/queue-entries.repository.ts:423-437 | The ahead count is the number of LINE users' rows before the row in the line, also when others wait between them. |
| `Positions.NearThresholdIsByAheadCount` | apps/api/src/db/repositories/queue-entries.repository.ts:423-437 | The near-threshold query returns exactly the LINE users' rows with 1 to the threshold LINE users' rows ahead. |
| `TicketFormat.PaddedToThree` | packages/shared/src/utils/format.ts:7-21 | Numbers are padded to three digits and not at all from 100 on, with the prefix in front. |
| `Transactions.RecentSavepoint` | apps/api/src/db/transaction.ts:58-65 | ROLLBACK TO restores the most recent savepoint of its name and keeps it, RELEASE drops it with all above and keeps the data. |
| `Transactions.UnknownSavepoint` | apps/api/src/db/transaction.ts:58-65 | Both commands fail on a name that is not on the stack and abort the transaction. |
| `InventoryProtocol.ReservationCommits` | apps/api/src/db/repositories/inventory-reservations.repository.ts:25-86 | A reservation from BEGIN to COMMIT, whatever transactions are open on other rows, commits exactly what its statements do in sequence: the quantity leaves the stock and is in the row. |
| `InventoryProtocol.TransitionCommits` | apps/api/src/db/repositories/inventory-reservations.repository.ts:99-150 | A lone transition from BEGIN to COMMIT leaves every reserved row of the order in the target status, all other rows as they were, and gives finite stock back what they held unless they were consumed. |
| `InventoryProtocol.CommitPublishes` | apps/api/src/db/transaction.ts:26-29 | After a commit every locked row reads as its transaction left it, every other row as before, and its events are appended. |
| `InventoryProtocol.OnlyCommitsPublish` | apps/api/src/db/transaction.ts:26-33 | Nothing but a commit changes the committed tables; a rollback and a statement that throws only end their transaction. |
| `InventoryProtocol.ClaimsOnlyDue` | apps/api/src/db/repositories/inventory-reservations.repository.ts:152-170 | A claim locks rows that are reserved and whose expiry has passed, and no others. |
| `InventoryProtocol.DueRowsCanBeClaimed` | apps/api/src/db/repositories/inventory-reservations.repository.ts:152-170 | A due row that nobody else holds can be claimed. |
| `Inventory.ReservesExactlyWhenStocked` | apps/api/src/db/repositories/inventory-reservations.repository.ts:37-75 | A reservation succeeds if and only if its quantity is positive, the organization's stock is finite and holds it, down to the last unit, and the order's row is absent or still reserved; what it then changes, and that nothing else does. |
| `Inventory.ExpiryIsExtended` | apps/api/src/db/repositories/inventory-reservations.repository.ts:57-61 | After an extension the expiry is the later of the kept and the supplied one, a missing one counting for nothing. |
| `Inventory.ClosingReleases` | apps/api/src/db/repositories/inventory-reservations.repository.ts:131-138 | Releasing or expiring an order frees what its open rows held of a stock, consuming it frees nothing. |
| `CacheAside.InvalidateThenDelete` | apps/api/src/infrastructure/redis/redis-json.cache.ts:114-135 | From any state: after `invalidate` and the delete it sends, Redis holds nothing under the key, and no older value is served again if and only if none was being loaded or written. |
| `CacheAside.InvalidateSendsDelete` | apps/api/src/infrastructure/redis/redis-json.cache.ts:118-127 | An enabled invalidation puts one delete of its keys under way, where it stays until it is carried out or lost. |
| `CacheAside.NothingToInvalidate` | apps/api/src/infrastructure/redis/redis-json.cache.ts:118-118 | A cache that is off and an empty list of keys send nothing. |
| `CacheAside.CommandsTouchTheirKeys` | apps/api/src/infrastructure/redis/redis-json.cache.ts:103-127 | A command that Redis carries out touches no key but its own. |
| `CacheAside.ReadDecides` | apps/api/src/infrastructure/redis/redis-json.cache.ts:70-89 | A read is a hit exactly on a live envelope of this version that the parser accepts; other text is deleted and a miss loads. |
| `CacheAside.EveryMissLoads` | apps/api/src/infrastructure/redis/redis-json.cache.ts:62-99 | A cache that is off, a failed read, an empty key and an unreadable text all lead to a load. |
| `CacheAside.LoadedCallReturnsIt` | apps/api/src/infrastructure/redis/redis-json.cache.ts:99-111 | A call returns what its load brought, having sent it to Redis if it may write. |
| `CacheAside.OnlyLoadsFail` | apps/api/src/infrastructure/redis/redis-json.cache.ts:90-110 | Nothing but a failing load makes a call fail. |
| `CacheAside.StoredForItsTtl` | apps/api/src/infrastructure/redis/redis-json.cache.ts:103-103 | What Redis stores is alive for exactly its time to live. |
| `MemoryCache.ForgetsExactly` | apps/api/src/utils/cache.ts:66-85 | What each invalidation removes: one key, exactly the keys that begin with the prefix, or all. |
| `PendingFetches.EndedFetchLasts` | apps/api/src/utils/cache.ts:115-120 | A fetch that ends is pending no longer, and its value lasts for its time to live from then on. |
| `PendingFetches.OtherSteps` | apps/api/src/utils/cache.ts:58-121 | A fetch begins exactly when nothing is cached, a direct set is shown at once, a failed fetch leaves nothing. |
| `AuthSession.FirstUnauthorizedWaits` | apps/web/src/services/apiClient.ts:68-73 | In every reachable state, a first 401 with a token held leaves token and session as they are; the request waits for the shared refresh, which is begun if none is under way. |
| `AuthSession.RefreshedRequestSucceeds` | apps/web/src/services/apiClient.ts:68-73 | The whole path: the refresh brings a token, the request is sent a second time and succeeds, and the new token is held. |
| `AuthSession.OtherAnswers` | apps/web/src/services/apiClient.ts:57-99 | A success, another error, a skipped 401 and a 401 without a token end their request and nothing else; a 401 that requires a session or comes after its end terminates. |
| `AuthSession.TokenlessSteps` | apps/web/src/store/authSession.ts:47-53 | Clearing forgets the token and nothing else; a failed refresh brings none. |
| `Scheduler.FreeLockIsTaken` | apps/api/src/jobs/scheduler-lock.ts:21-38 | A free lock is taken and the job entered, or left again if its row cannot be written. |
| `Scheduler.JobRecordsAndUnlocks` | apps/api/src/jobs/scheduler-lock.ts:40-65 | A call records success or failure under its process's name and gives its lock back. |
| `Scheduler.FailedUnlockLeaks` | apps/api/src/jobs/scheduler-lock.ts:59-65 | An unlock that fails goes unnoticed and its session goes on holding the lock. |
| `BookingRecords.MergeTakesNewer` | apps/web/src/utils/checkoutSession.ts:184-197 | A merged item keeps its place, adds up, and takes name and unit price from the newer one; others are untouched. |
| `BookingRecords.ListsUpToTwenty` | apps/web/src/utils/checkoutSession.ts:212-215 | The group lists as many records as entries were appended, up to twenty. |
| `AccountLifecycle.BadLinksAreRefused` | apps/api/src/modules/account-lifecycle/account-lifecycle.repository.ts:80-92 | A link that is unknown, used, revoked, expired or for the other purpose is refused as invalid and changes nothing. |
| `AccountLifecycle.WrongAccountsAreRefused` | apps/api/src/modules/account-lifecycle/account-lifecycle.service.ts:139-200 | Activation takes invited accounts only and a reset active ones only; a refusal changes nothing. |
| `AccountLifecycle.IssuesExactly` | apps/api/src/modules/account-lifecycle/account-lifecycle.repository.ts:48-67 | A link is issued if and only if the user is known, the hash new and the expiry in the future. |
| `AccountLifecycle.IssuedLinkWorks` | apps/api/src/modules/account-lifecycle/account-lifecycle.service.ts:60-91 | An issued link is accepted until it expires and closes exactly the user's earlier links for the purpose. |
| `AccountLifecycle.RevocationCloses` | apps/api/src/modules/account-lifecycle/account-lifecycle.repository.ts:32-46 | A revocation closes exactly the user's open links for the purpose and changes nothing else. |
| `AccountLifecycle.SuspendsExactlyOpen` | apps/api/src/modules/admin/admin.service.ts:41-44 | Only an operating, active organization can be suspended. |
| `AccountLifecycle.OthersStayAsTheyWere` | apps/api/src/modules/admin/admin.service.ts:53-100 | A suspension touches its organization, that organization's memberships and its members, and no one else. |
| `AccountLifecycle.EnrolledAreInvited` | apps/api/src/modules/organization-applications/organization-applications.service.ts:280-300 | An approval creates a pending organization that awaits its invited owner; an invitation adds an invited account that owns nothing. |
| `AccountLifecycle.EnrolmentAddsOnly` | apps/api/src/db/repositories/organizations.repository.ts:193-217 | An enrolment changes no row there was. |
| `CatalogCodes.EarlierHasLowerNumber` | db/migrations/node-pg-migrate/000020_organization_product_catalog.js:19-22 | Within an organization and type the earlier product has the lower number, of two at one time the lower id. |
| `CatalogCodes.NewCodesFitTheirType` | apps/api/src/modules/products/products.service.ts:98-167 | A created or retyped product carries its type's prefix with the stream's next number; all other products stay as they are. |
| `CatalogCodes.SeedingKeepsOrders` | db/migrations/node-pg-migrate/000024_normalize_core_schema.js:16-46 | Seeding leaves order numbers as they were; a row it adds starts them at 1. |
| `QueueAssignments.SyncsExactlyOwnActive` | apps/api/src/db/repositories/products.repository.ts:353-364 | An assignment is accepted if and only if all its products are active ones of the organization. |
| `QueueAssignments.DeletedStaysOut` | apps/api/src/db/repositories/products.repository.ts:415-430 | A deleted product cannot be assigned again and its assignments are off; all else stays as it was. |

## Left out

- Integer widths: PostgreSQL's INT, BIGINT and the `::int` casts are unbounded here.
- Rows with equal sort keys: SQL may return them in any order, the model lets the id decide; the refinement shows that no two keys are equal within one date.
- `deprioritize` and joins with an explicit priority are not operations of the refinement, because they reorder by design; `Positions` allows any priorities.
- `resetDailyCounter` zeroes the counter without moving its date and is not a step of the ticket runs.
- `getEntryIdsAhead` counts called and serving tickets too and is not one of the positions compared.
- `countWaiting` and the other counting and finding queries of the queue repositories only read.
- History rows other than their durations, and notifications, are not modelled.
- Clocks: `NOW()` and `Date.now()` are parameters that do not go back where a theorem says so; time zones appear as the local date of each queue.
- QueueRefinement.RunRefinesLine: one business date per run, because tickets are unique per date only; `QueueEntries.CarriedOverRowIsOvertaken` shows why.
- QueueEntries.Repository.Create: the ticket-code constraint, which follows from the ticket constraint under one prefix, the order column, and the foreign keys to queue, user and order are not modelled.
- Positions.DashboardTotal: the average over all queues of an organization is not formed, only each queue's sum of estimates.
- Transactions: a failing BEGIN, COMMIT or ROLLBACK of a lost connection, and the pool, are not modelled; a statement's effect is any function on the database.
- Inventory: `updateBranchStock` overwrites stock by hand and starts a new ledger; it is not a step. Timestamps, reasons and actors of reservations are not modelled.
- Inventory.Repository.Reserve: on failure it says only that the call throws, the caller's transaction being rolled back; `InventoryProtocol` models that rollback.
- InventoryProtocol.StockIsConserved: an order books a product on one branch; `Inventory.ReserveConservesExactlyOnOneBranch` gives the exact condition for one reservation.
- InventoryProtocol: a statement takes all its row locks at once, deadlocks end as rollbacks, and `claimExpiredOrderIds` may claim any due rows, whatever the status of their order and the limit.
- CacheAside: JSON text is an envelope or unreadable; metrics and logs are left out; `timed` is a write or delete that may fail for its caller and still arrive; a read is answered with what Redis held when it read the key. Loads begun in the same instant as a delete count as newer.
- MemoryCache.Cache.Get: a stored null, which the original cannot tell from a miss, is not modelled.
- AuthSession: storage keys, the redirect, the server's logout request, the refresh listener and direct calls of `setAuthToken` by other modules are left out; what a promise resolves to is a token or a failure.
- Scheduler: `runWithRetry` and its delays; a cycle is one span from start to `finally`.
- Scheduler.AtMostOneInside: a database session is not lost while a call on it is inside its job; `Scheduler.LossHarmsExactlyWhenInside` shows that this is all it takes.
- CartSignature: that the caller's array is not reordered is not stated; sequences are values here, and in the original `filter` makes the copy that is sorted.
- CartSignature: `localeCompare` is any total order on ids. Ids that are different but collate as equal are not covered.
- BookingRecords.BookingStorage.AppendBookingRecord: group id, token, device key and update time of a booking group, and unreadable stored text.
- AccountLifecycle: password hashing, token hashing, mail, audit rows, and the request that finds a user by mail.
- AccountLifecycle.Database.ActivateAccount: branch memberships are not modelled; what a failing call leaves is rolled back by its caller and not specified.
- AccountLifecycle.Database.SuspendOrganization: branches, queues, products and branch memberships of the organization are not modelled.
- AccountLifecycle: statements of concurrent account transactions are not interleaved; each transaction is one step.
- AccountLifecycle.LatestLinkOnly: concurrent issues for one user are not serialized by the original, so this holds for transactions run one after another.
- AccountLifecycle.SuspensionIsFinal: new users and organizations have new ids, and invitations do not make owners of an existing organization, as all callers of `addMember` in the repository do.
- CatalogCodes: transactions that roll back give their number back with the row lock held, so only committed ones are steps; codes are compared as they are, because all are upper case.
- QueueAssignments.Repository.SyncProductsForQueue: the organization and branch columns of an assignment and their foreign keys are not modelled.
- QueueAssignments: the query's sort is the unique ordered list rather than a loop.
- Rate limiting, idempotency keys, pagination, LIFF, payments, notifications and the mail outbox would add only small members or depend on code outside this model.
