# Order processing: a verified model

This project models how the Orderly service processes an order and proves what it
promises, in Dafny 4.11. It has four concurrent or crash-prone protocols and
three smaller parts:

- **Inventory** (`Inventory`, `Sorting`, `Contention`, `ContentionTheorems`,
  `Discipline`, `JournalLedger`, `InventoryService`, `AdvisoryLock`). N callers reserve and release
  stock at once, each locking its SKUs in sorted order with try-locks. The
  interleavings are a step system (`Contention`); the service itself is a class
  whose methods let any other callers act at every `await`. The two are joined by
  a journal of lock and row events: `CallersFollowTheRules` shows that the
  interleaved callers keep its rules, and the class relies on nothing else.
- **Saga** (`Order`, `Saga`, `SagaTheorems`, `SagaLog`, `SagaStock`,
  `SagaRuns`, `SagaOrchestrator`). One saga with every persisted write and every external effect
  as one step, a stop possible between any two, and compensations started by the
  admin route. The orchestrator is a class whose methods are proved to take only
  these steps. It calls the inventory service class itself, so what a saga does to
  stock is stated on the real rows, among the writes of all other callers.
  `SagaRuns` builds the runs in which a promise is not kept.
- **Outbox** (`Outbox`, `OutboxTheorems`, `OutboxDrain`, `OutboxProcessor`). Creators
  and N pollers with stale snapshots, lost replies and crashes; and one processor as a
  class, every statement of which may reject.
- **Idempotent creation** (`Idempotency`, `IdempotencyTheorems`, `OrderApi`).
  Requests under a key, with a cache that may lose, hide or refuse anything in
  front of a UNIQUE column; and the request handler as a class.
- **Signing** (`Json`, `JsonReader`, `Canonical`, `Signature`). Recursive key
  sorting and JSON printing (RFC 8259) as the text of an HMAC (RFC 2104).
- **Money** (`Decimal`, `Money`). Two-decimal texts over 28-digit half-up arithmetic.
- **Rate limit** (`RateLimiter`). The per-window request counter.

`Runs` holds what all step systems share: `Exec(next, s, acts)` is the state after
a run, `Invariant` the induction over it. A theorem about "every run" quantifies
over all `acts` with `Exec(Next, start, acts) == Some(s)`. In classes, what the
environment does with each awaited call is an input that no method can choose:
`fate(i)` says whether the i-th call succeeds, rejects without effect, or rejects after
its effect, and the gateway's answers, the queue's and the cache's are constants or
parameters. What other callers do at an `await` is arbitrary (`*`).

## What was found

Where the code does less than its documentation or comments say, the model
follows the code:

- docs/ADRs/001-saga-over-2pc.md:47 promises that compensation restores the
  previous state. It does, at every point where a saga can stop, exactly when the
  release wrote as many items as the reservation (`SagaStock.RestoredIff`). After a
  failed reservation it releases items that were never reserved, so available stock
  grows (`SagaStock.ReservationFailureInflatesStock` has the amounts,
  `SagaRuns.StockFromNothing` a run that ends with stock nobody had).
- docs/ADRs/001-saga-over-2pc.md:62 promises that a completed payment is always
  refunded. That holds for a compensation that reaches its end
  (`SagaTheorems.RefundedExactly`). A compensation that is interrupted is never taken
  up again (`SagaTheorems.InterruptedCompensationIsFinal`), and has lost the refund
  exactly when it stopped before asking for it (`SagaTheorems.InterruptedExactly`), as
  in `SagaRuns.RefundNeverAsked`. A charge is also kept when its step was not yet
  marked completed, or when the gateway gave no transaction id
  (`SagaTheorems.ChargeKeptIff`, `SagaRuns.ChargeLost`, `SagaRuns.ChargeWithoutIdKept`).
- docs/ADRs/001-saga-over-2pc.md:63 promises that a completed reservation is always
  released. A FAILED saga has asked for it once (`SagaTheorems.ReleaseAttempted`), and
  its items are restored exactly when that call returned true (`SagaStock.ReleasedIff`).
  When another caller holds the lock it returns false, the order is cancelled all the
  same, and nothing asks again (`SagaRuns.StockNeverReleased`). An interrupted
  compensation has not asked exactly when it stopped before
  (`SagaTheorems.InterruptedExactly`).
- docs/ADRs/001-saga-over-2pc.md:64 promises that the order is always cancelled. The
  cancelling transaction may fail, which is only logged: a FAILED saga's order is
  CANCELLED exactly when it did not (`SagaTheorems.CancelledIff`), and may be left
  PENDING (`SagaRuns.OrderLeftPending`). An interrupted compensation has cancelled the
  order exactly when it stopped after that transaction
  (`SagaTheorems.InterruptedExactly`).
- src/domain/services/order-service.ts:115-116 promises that a failed enqueue is
  recovered. An order has a job exactly when its own request enqueued one
  (`IdempotencyTheorems.JobIffEnqueued`), so without it there is none in any further
  run (`IdempotencyTheorems.LostEnqueueIsFinal`, `IdempotencyTheorems.CreatedWithoutJob`).
- The comment at src/domain/repositories/outbox-repository.ts:75-76 relies on row
  locks, but the query runs outside a transaction, so pollers share snapshots. The
  retry count passes outboxMaxRetries by up to N - 1, and that bound is reached
  (`OutboxTheorems.RetriesAreBounded`, `OutboxTheorems.RetryBoundIsReached`).
- PUBLISHED is not terminal. With one processor a row that is no longer PENDING
  changes exactly when it is the event being reset (`OutboxTheorems.ReopenedIff`),
  which a lost reply to `markPublished` brings about
  (`OutboxTheorems.LostMarkReopens`); two processors reopen an event without any lost
  reply (`OutboxTheorems.StaleSnapshotReopens`). FAILED is terminal with one processor.
- The timer of an advisory lock does not set `released`, so a release that comes
  after it can free the lock of whoever has taken it since. The lock table is sound
  exactly until the first such release (`AdvisoryLock.SoundIffNoTheft`), which can be
  followed by two unexpired grants of one key (`AdvisoryLock.LateReleaseBreaksExclusion`).
- A retry whose cached record is gone is answered with an error, not replayed
  (`IdempotencyTheorems.RetryIsReplayedIff`, `IdempotencyTheorems.LateRequestCreatesNothing`).
- Cancelling a paid order is not in the table of transitions, though it lies in its
  transitive closure. It is the only such change (`SagaTheorems.StatusChangesAreLawful`),
  and it happens (`SagaRuns.PaidOrderCancelled`).
- The comment at src/infrastructure/redis/rate-limiter.ts:11-12 speaks of a sliding
  window. It is a fixed one: an interval of one window's length keeps the limit
  exactly when it is aligned (`RateLimiter.LimitHoldsIffAligned`), and every other one
  admits twice the limit in some run (`RateLimiter.TwiceIsReached`). A request that is
  counted after its window's key has expired is counted anew
  (`RateLimiter.LateRequestsAdmitTwice`).

## Model

| member | source | states |
|---|---|---|
| `ContentionTheorems.SortedLockingMakesProgress` | src/domain/services/inventory-service.ts:42-78 | Any complete interleaving of concurrent calls with distinct SKUs and stock for all demands, in which no port call rejects and no lock is taken away, has a call that returned true |
| `ContentionTheorems.NotEverybodyContended` | src/domain/services/inventory-service.ts:42-53 | Not all callers can have given up on a lock: whoever took the greatest contended SKU would have had to give up on a greater one |
| `ContentionTheorems.MutualExclusion` | src/domain/ports/lock-manager.ts:10-16 | In every reachable state two callers that hold the lock of one SKU are the same caller |
| `ContentionTheorems.CheckThenActIsSound` | src/domain/services/inventory-service.ts:55-68 | When a caller is about to run its reserving UPDATE, the row is still the one it checked and the UPDATE matches: "affected 0 rows" is unreachable |
| `ContentionTheorems.OthersLeaveLockedRowsAlone` | src/domain/services/inventory-service.ts:47-70 | While a caller holds the lock of a SKU, no step of another changes the row or the holder |
| `ContentionTheorems.NoOverselling` | src/domain/repositories/inventory-repository.ts:24-49 | Whatever happens to the lock table, stock is exactly initial stock less granted plus given back, so grants never exceed initial stock plus what came back |
| `ContentionTheorems.VerdictIsExact` | src/domain/services/inventory-service.ts:42-78 | A call that returned holds no lock; true means the UPDATEs of all items committed, false that those of a strict prefix did |
| `ContentionTheorems.SuccessMeansDistinct` | src/domain/services/inventory-service.ts:48-53 | Only a list of pairwise different SKUs can succeed, because a second acquire of a held lock answers null |
| `ContentionTheorems.NobodyIsStuck` | src/domain/services/inventory-service.ts:47-78 | A caller that has not returned can always take a step, whoever holds which lock |
| `ContentionTheorems.RunsAreBounded` | src/domain/services/inventory-service.ts:47-78 | Every interleaving has at most as many steps as the callers' lists allow |
| `Discipline.CallersFollowTheRules` | src/domain/services/inventory-service.ts:47-113 | Every step of the interleaved callers is one event of the journal's rules (take only a free lock, give back only one's own, write only under the lock), or changes neither table |
| `Discipline.OthersDoNotDisturb` | src/domain/ports/lock-manager.ts:10-16 | An event within the rules never changes the locks or locked rows of another caller |
| `InventoryService.InventoryService.ReserveInventory` | src/domain/services/inventory-service.ts:35-79 | With others acting at every await: the writes of this call are exactly a prefix of the sorted items, all of them on true and only for distinct SKUs, a strict prefix on false; false means that at some moment of the call the next item's lock was taken or its row too low, and it throws exactly when one of its port calls rejected; every unlock was of its own lock, and the only locks it leaves taken are those whose unlock failed |
| `InventoryService.InventoryService.ReserveLoop` | src/domain/services/inventory-service.ts:46-74 | The locks to give back are exactly those held, whichever way the loop is left |
| `InventoryService.InventoryService.ReserveOne` | src/domain/services/inventory-service.ts:47-69 | One pass: lock, check, UPDATE; an item is contended only if its lock is taken, refused only if the UPDATE would match no row, and then it has not been written |
| `InventoryService.InventoryService.UnlockAll` | src/domain/services/inventory-service.ts:75-78 | `finally`, with the unlocks in any order and others acting between them: exactly the locks whose unlock failed stay taken, and no row is written |
| `InventoryService.InventoryService.ReleaseInventory` | src/domain/services/inventory-service.ts:84-114 | The same for giving stock back: exact writes, a reason for false, no lock left but those whose unlock failed |
| `InventoryService.InventoryRepository.FindBySku` | src/domain/repositories/inventory-repository.ts:12-18 | The row of the SKU, or null |
| `InventoryService.InventoryRepository.Reserve` | src/domain/repositories/inventory-repository.ts:24-36 | The guarded UPDATE; a rejected reply may hide a committed one |
| `InventoryService.InventoryRepository.Release` | src/domain/repositories/inventory-repository.ts:38-49 | The clamped UPDATE; a rejected reply may hide a committed one |
| `Inventory.ReflectedLedger` | src/domain/repositories/inventory-repository.ts:24-49 | After any calls, available follows the net change exactly, and the two counters sum to what they were plus how far below zero the reserved ledger ever went |
| `Inventory.SumConstantIff` | src/domain/repositories/inventory-repository.ts:38-49 | The sum never falls, and is constant exactly when no release exceeded what was reserved at that moment |
| `Inventory.VersionCountsWrites` | src/domain/repositories/inventory-repository.ts:26-48 | A row's version counts the UPDATE statements that matched it |
| `Sorting.SortIsPermutation` | src/domain/services/inventory-service.ts:43 | The sorted list is sorted, a permutation, and asks for the same quantity of each SKU |
| `AdvisoryLock.LiveGrantsExclude` | src/infrastructure/locking/postgres-advisory-lock.ts:16-52 | In every run without a theft so far, timers, late releases and failed unlocks included, an unexpired grant owns its lock and two of one key are the same |
| `AdvisoryLock.SoundIffNoTheft` | src/infrastructure/locking/postgres-advisory-lock.ts:34-52 | Over every run, the lock table is sound at all times exactly when no release was a theft: one that comes after its own timer when another unexpired grant holds the key |
| `AdvisoryLock.SoundUnlessTheft` | src/infrastructure/locking/postgres-advisory-lock.ts:34-52 | A step from a sound lock table keeps it sound exactly when it is no theft |
| `AdvisoryLock.AcquireExcludes` | src/infrastructure/locking/postgres-advisory-lock.ts:23-32 | In every run without a theft so far, acquire answers null and changes nothing while an unexpired grant of the key is out |
| `AdvisoryLock.StealsIffLate` | src/infrastructure/locking/postgres-advisory-lock.ts:36-52 | In every run without a theft so far, a timer or a release frees the lock of another unexpired grant exactly when it is a release after its own timer, the key has been taken again, and the unlock succeeds |
| `AdvisoryLock.LateReleaseBreaksExclusion` | src/infrastructure/locking/postgres-advisory-lock.ts:36-51 | A run of five steps ends with two unexpired grants of one key |
| `AdvisoryLock.PostgresAdvisoryLock.TryAcquire` | src/infrastructure/locking/postgres-advisory-lock.ts:16-34 | None and no change on a taken key; otherwise the key belongs to a new grant, neither released nor timed out |
| `AdvisoryLock.PostgresAdvisoryLock.TimerFires` | src/infrastructure/locking/postgres-advisory-lock.ts:37-45 | Unless it was released, the lock becomes free if the unlock succeeds, every other key stays as it was, and so does the `released` flag |
| `AdvisoryLock.PostgresAdvisoryLock.ReleaseGrant` | src/infrastructure/locking/postgres-advisory-lock.ts:47-65 | The first call sets `released` and frees the key if the unlock succeeds, every other key stays as it was; a later call changes nothing |
| `AdvisoryLock.ReleasedCanBeTaken` | src/infrastructure/locking/postgres-advisory-lock.ts:36-52 | Over every run, after the first release of a grant or the firing of its timer the key can be taken again at once |
| `SagaTheorems.EveryStopIsConsistent` | src/domain/services/saga-orchestrator.ts:64-135 | At every point where a saga can stop: the log is a numbered prefix of the four steps, completed steps have had their effect, later steps exist only after completed reservation and payment, effects are at most one step ahead, and order and outbox agree |
| `SagaTheorems.RefundedExactly` | src/domain/services/saga-orchestrator.ts:144-184 | Over any crashes and compensations at most one refund is requested; a failed saga requested one exactly when its payment step is persisted as COMPLETED with a non-empty transaction id |
| `SagaTheorems.ChargedAtMostOnce` | src/domain/services/saga-orchestrator.ts:84-96 | A charge is requested only if none was before, after a completed reservation |
| `SagaTheorems.ChargeKeptIff` | src/domain/services/saga-orchestrator.ts:86-96 | A failed saga with an accepted charge requested no refund exactly when it stopped between the charge and the write that completes its step, or the charge came without a non-empty transaction id |
| `SagaRuns.ChargeLost` | src/domain/services/saga-orchestrator.ts:153-166 | A failed saga, a charge with an id, no refund: a run of the first case |
| `SagaRuns.ChargeWithoutIdKept` | src/domain/services/saga-orchestrator.ts:158-166 | A failed saga, a charge without an id, its step COMPLETED, no refund: a run of the second case |
| `SagaTheorems.InterruptedCompensationIsFinal` | src/api/routes/admin/sagas.ts:133-144 | A stopped saga can be taken up again exactly when it is RUNNING: one that stopped while COMPENSATING takes no step in any further run |
| `SagaTheorems.InterruptedExactly` | src/domain/services/saga-orchestrator.ts:149-223 | Wherever a compensation is interrupted, for good: a due refund was not asked for exactly when it stopped before asking, the release likewise, and the order is CANCELLED exactly when it stopped after a cancelling transaction that did not fail |
| `SagaRuns.RefundNeverAsked` | src/domain/services/saga-orchestrator.ts:149-184 | Such a run exists: it ends COMPENSATING with the payment step COMPLETED under a transaction id, no refund asked for, and no further run |
| `SagaTheorems.ReleaseAttempted` | src/domain/services/saga-orchestrator.ts:186-190 | Over every run, a FAILED saga has asked for the release and was told true exactly when every item was written; no saga asks for it twice |
| `SagaTheorems.CancelledIff` | src/domain/services/saga-orchestrator.ts:199-223 | Over every run, a FAILED saga's order is CANCELLED exactly when its cancelling transaction did not fail (for interrupted compensations, see `InterruptedExactly`) |
| `SagaRuns.OrderLeftPending` | src/domain/services/saga-orchestrator.ts:218-223 | A run that ends FAILED with the order PENDING |
| `SagaTheorems.StatusAndOutboxAgree` | src/domain/services/saga-orchestrator.ts:104-130 | A COMPLETED saga has a PAID order, one order.paid and nothing else; CANCELLED holds exactly when there is one order.failed; PENDING exactly when there is no event |
| `SagaTheorems.StatusChangesAreLawful` | src/domain/services/saga-orchestrator.ts:199-220 | Over every run, a change of an order's status lies in the closure of the transition table; it is outside the table itself exactly when it cancels an order whose order.paid event is out |
| `SagaRuns.PaidOrderCancelled` | src/domain/services/saga-orchestrator.ts:104-123 | A run in which a paid order is cancelled |
| `SagaTheorems.RefundableIs` | src/domain/services/saga-orchestrator.ts:153-163 | In a consistent log the transaction id found is that of the charge, once its step is completed |
| `SagaLog.UndoingIsRecorded` | src/domain/services/saga-orchestrator.ts:171-196 | Over every run, a FAILED saga's log has the compensation status of step 0 COMPLETED or FAILED as the release returned true or not, and of step 1 COMPLETED, FAILED or PENDING as the refund was accepted, refused or never asked for |
| `SagaLog.CompletedLog` | src/domain/entities/saga.ts:95-132 | Over every run, no step is marked before a compensation, and a COMPLETED saga's log is, in full, the four completed steps with their outputs |
| `SagaLog.FailedStepIsLast` | src/domain/services/saga-orchestrator.ts:77-95 | Over every run, a step is FAILED only by the answer of the service it asked, has no output, and is the last |
| `SagaLog.EndedStepsAreSettled` | src/domain/services/saga-orchestrator.ts:247-254 | In a run that nobody stops, every step of a saga that has ended is COMPLETED or FAILED |
| `SagaLog.SagaStatusIsLawful` | src/domain/entities/saga.ts:58-91 | Over every run, the saga status moves from PENDING to RUNNING, to COMPLETED or COMPENSATING, to FAILED, and no other way |
| `SagaLog.GuardsAreExact` | src/domain/entities/saga.ts:58-91 | Each transition of the saga entity is thrown out of every status but its own |
| `Order.ReachesExactly` | src/domain/entities/order.ts:29-36 | The transitive closure of the transition table, with SHIPPED and CANCELLED as its sinks |
| `Order.TableIs` | src/domain/entities/order.ts:29-36 | The transition table, pair by pair |
| `Order.ChainsLoseRank` | src/domain/entities/order.ts:29-36 | Every chain of transitions strictly loses rank, so no status comes back |
| `JournalLedger.NetAvailable` | src/domain/services/inventory-service.ts:47-107 | Whatever other callers write to the row meanwhile: its available stock is the initial stock plus what the others added, less the first r of a caller's sorted items that it reserved, plus the first m that it released |
| `JournalLedger.NetReservedIff` | src/domain/repositories/inventory-repository.ts:38-49 | Reserved stock mirrors that exactly when no release on the row, by anyone, exceeded what was reserved at that moment |
| `JournalLedger.RowIsReplay` | src/domain/repositories/inventory-repository.ts:24-49 | Every row is what its own UPDATE statements made of it, whoever ran them |
| `JournalLedger.QuietReserved` | src/domain/repositories/inventory-repository.ts:42-43 | On a row that nobody else writes, reserved stock after the r reserves and m releases is clamped at zero once |
| `SagaStock.NetEffect` | src/domain/services/saga-orchestrator.ts:76-187 | At every point where a saga can stop, the available stock of every row is what the other callers alone would have left, less the items that the reservation wrote, plus those that the release wrote |
| `SagaStock.CompletionMovesStock` | src/domain/services/saga-orchestrator.ts:74-81 | A completed saga has taken each quantity out of available stock, on contended rows too; and put it into reserved exactly when nobody over-released the row |
| `SagaStock.PaymentFailureRestoresStock` | src/domain/services/saga-orchestrator.ts:92-95 | A saga that failed after the reservation and released successfully leaves available stock as if it had never been, on contended rows too; and reserved stock exactly when nobody over-released the row |
| `SagaStock.ReservationFailureInflatesStock` | src/domain/services/saga-orchestrator.ts:77-80 | A reservation that stopped at index k and a successful release restore the items before k; from k on they add what was never reserved to available, and on a row that nobody else writes take it from reserved, not below zero |
| `SagaStock.RestoredIff` | src/domain/services/saga-orchestrator.ts:186-197 | At every point where a saga can stop, whatever its release answered: the available stock of all items is what the other callers alone would have left, exactly when the release wrote as many items as the reservation |
| `SagaStock.ReleasedIff` | src/domain/services/saga-orchestrator.ts:186-223 | A FAILED saga whose reservation step is COMPLETED has restored all items exactly when its one release returned true |
| `SagaRuns.StockNeverReleased` | src/domain/services/inventory-service.ts:94-98 | A run of the failing case: payment declined, another caller holds the lock, the release returns false, the order is cancelled, and the reserved piece is given back in no further run |
| `SagaRuns.StockFromNothing` | src/domain/services/saga-orchestrator.ts:77-80 | A run that restores nothing: the row was empty, and after the failed saga there is stock to sell |
| `SagaOrchestrator.SagaOrchestrator.StartSaga` | src/domain/services/saga-orchestrator.ts:64-135 | Whatever rejects or loses its reply, the rows and effects are a run of the saga system and every exit is a consistent stop; it answers nothing only if some call rejected. Otherwise it answers the persisted status: COMPLETED exactly when the reservation and the charge were both answered with success, with the order PAID, one order.paid, no refund and every row less the order's quantity; else FAILED, and CANCELLED with one order.failed when nothing rejected |
| `SagaOrchestrator.SagaOrchestrator.CallReserve` | src/domain/services/saga-orchestrator.ts:76 | The reservation asked of the inventory service: what it is recorded to have done is what it wrote |
| `SagaOrchestrator.SagaOrchestrator.CallRelease` | src/domain/services/saga-orchestrator.ts:187-190 | The same for the release |
| `SagaOrchestrator.SagaOrchestrator.ReleasedStock` | src/domain/services/saga-orchestrator.ts:186-197 | At any time the real rows of all items are restored exactly when the release wrote as many items as the reservation; after FAILED with a completed reservation, exactly when the release returned true |
| `SagaOrchestrator.SagaOrchestrator.ReserveStep` | src/domain/services/saga-orchestrator.ts:74-81 | Step 0 takes the system's steps and ends in payment, compensation or a stop |
| `SagaOrchestrator.SagaOrchestrator.PaymentStep` | src/domain/services/saga-orchestrator.ts:84-96 | Step 1 takes the system's steps and ends in confirmation, compensation or a stop |
| `SagaOrchestrator.SagaOrchestrator.ConfirmSteps` | src/domain/services/saga-orchestrator.ts:101-126 | Steps 2 and 3 around the one transaction |
| `SagaOrchestrator.SagaOrchestrator.Compensate` | src/domain/services/saga-orchestrator.ts:144-228 | Compensation takes the system's steps; it answers nothing only if some call rejected, else FAILED is persisted; when nothing rejected, the order is CANCELLED with one more order.failed |
| `SagaOrchestrator.SagaOrchestrator.AdminCompensateRoute` | src/api/routes/admin/sagas.ts:133-175 | 409 and no change unless RUNNING; otherwise a consistent stop, with at most one refund over all calls; when nothing rejects the saga ends FAILED and the order CANCELLED |
| `SagaOrchestrator.MarkingKeepsFind` | src/domain/services/saga-orchestrator.ts:171-191 | Marking the refund leaves the inventory step that the earlier read found where it was |
| `OutboxTheorems.NoEventIsLost` | src/events/outbox/outbox-processor.ts:83-120 | Over every interleaving: an order exists exactly when its order.created event does, once; every event is PENDING, or PUBLISHED with its job under its own id, or FAILED with its retries used up |
| `OutboxTheorems.RetriesAreBounded` | src/domain/repositories/outbox-repository.ts:73-120 | With N pollers on stale snapshots no event is retried more than outboxMaxRetries + N - 1 times |
| `OutboxTheorems.RetryBoundIsReached` | src/events/outbox/outbox-processor.ts:84-118 | For every N and every maximum of at least 1 some run reaches that bound |
| `OutboxTheorems.ReopenedIff` | src/events/outbox/outbox-processor.ts:38-44 | Over every run with one processor, a step changes a PUBLISHED or FAILED row exactly when it is the effective reset of the event that the processor is at; a FAILED row never changes |
| `OutboxTheorems.LostMarkReopens` | src/events/outbox/outbox-processor.ts:112-117 | A run with one processor in which the reply to markPublished is lost and the published event goes back to PENDING |
| `OutboxTheorems.StaleSnapshotReopens` | src/domain/repositories/outbox-repository.ts:73-85 | A run with two processors, no reply lost, in which a published event goes back to PENDING |
| `OutboxDrain.BoundedDrain` | src/events/outbox/outbox-processor.ts:76-120 | n events pending now are all PUBLISHED or FAILED after (outboxMaxRetries + 1) * ceil(n / 100) polls, whatever arrives and whichever enqueues fail |
| `OutboxDrain.BlockDrains` | src/domain/repositories/outbox-repository.ts:77-83 | The oldest hundred pending events settle within outboxMaxRetries + 1 polls |
| `OutboxDrain.FirstPendingIsTaken` | src/domain/repositories/outbox-repository.ts:77-83 | The snapshot of a poll holds exactly the hundred oldest pending rows, oldest first |
| `OutboxDrain.FirstPendingIsBatch` | src/domain/repositories/outbox-repository.ts:77-83 | So it is a batch that the interleaved system allows |
| `OutboxProcessor.OutboxProcessor.GetPending` | src/domain/repositories/outbox-repository.ts:73-85 | The scan finds that snapshot, or the query rejects |
| `OutboxProcessor.OutboxProcessor.ProcessBatch` | src/events/outbox/outbox-processor.ts:76-121 | Whatever rejects, before or after its effect, one poll is a run of the outbox system, and unless a statement outside the try block rejects, every event of the batch with a retry left was given to the queue; if no statement rejects, it handles the hundred oldest pending events and touches no other row, publishing those accepted and keeping those refused with one more retry |
| `OutboxProcessor.OutboxProcessor.HandleOne` | src/events/outbox/outbox-processor.ts:84-119 | One event, whatever rejects: only its own row changes, by steps of the outbox system; if no statement rejects it is given up when its retries are used up, published if the queue accepts it, else kept with one more retry |
| `OutboxProcessor.OutboxProcessor.NothingIsLost` | src/events/outbox/outbox-processor.ts:83-120 | At any time, an event of the processor that is not PENDING has its job in the queue or its retries used up |
| `IdempotencyTheorems.OneOrderPerKey` | src/api/middleware/idempotency.ts:41-74 | Any two successful replies under one key name the same order and answer the same body, however the cache behaves |
| `IdempotencyTheorems.OneJobPerKey` | src/domain/services/order-service.ts:105-118 | At most one saga job is ever enqueued for a key |
| `IdempotencyTheorems.OrdersStay` | migrations/1716400000001_init.sql:30 | An order placed under a key stays the order of that key |
| `IdempotencyTheorems.CacheNeverChangesItsMind` | src/infrastructure/redis/idempotency-store.ts:24-52 | A cached record is never replaced by one for another order or body, even after eviction |
| `IdempotencyTheorems.RetryIsReplayedIff` | src/api/middleware/idempotency.ts:44-63 | A retry after the order exists is replayed exactly when the record can still be read and the body is the same |
| `IdempotencyTheorems.LateRequestCreatesNothing` | src/domain/services/order-service.ts:77-118 | Over every run, a request that arrives when its key has an order creates none and enqueues nothing; its only success is the replay of that order |
| `IdempotencyTheorems.JobIffEnqueued` | src/domain/services/order-service.ts:105-118 | Over every run, an order has a saga job exactly when its own request enqueued it |
| `IdempotencyTheorems.LostEnqueueIsFinal` | src/domain/services/order-service.ts:114-118 | An order whose own enqueue failed has no job in any further run |
| `IdempotencyTheorems.CreatedWithoutJob` | src/domain/services/order-service.ts:114-120 | Such a run: answered 201, the order stands, no job ever |
| `OrderApi.OrderApi.PostOrder` | src/domain/services/order-service.ts:66-121 | With other requests and evictions at every await: Created names the one order of its key and its body, has its job exactly when the queue accepted it, and its record when the cache could be written; with a valid body, a key free until the insert and no transaction failing the reply is Created; every other reply says what stood in the way, and a key that had an order gets no new one |
| `OrderApi.OrderApi.IdempotencyMiddleware` | src/api/middleware/idempotency.ts:41-75 | Nothing cached, or Redis down: the request is tagged; cached for the same body: that order is replayed; for another body: 409 |
| `OrderApi.OrderApi.CreateOrder` | src/domain/services/order-service.ts:77-100 | It creates exactly under a free key when the transaction commits, and changes no other order |
| `OrderApi.OrderApi.EnqueueSaga` | src/domain/services/order-service.ts:105-118 | The job is added exactly when the queue accepts it |
| `OrderApi.OrderApi.OnSend` | src/api/server.ts:98-117 | The response is cached under its client, key and body hash, and nothing changes when Redis is down |
| `Canonical.SignedTextUnambiguous` | src/events/webhooks/signature.ts:7-24 | Two JSON values are signed as the same text exactly when they are equal up to key order at every depth |
| `Canonical.CanonicalKeepsMeaning` | src/events/webhooks/signature.ts:7-15 | Sorting keys at every depth keeps the value's meaning |
| `Canonical.MeaningDeterminesCanonical` | src/events/webhooks/signature.ts:7-15 | Values that mean the same have one canonical form |
| `Canonical.CanonicalIdempotent` | src/events/webhooks/signature.ts:7-15 | Canonicalizing twice is canonicalizing once |
| `Canonical.Canonicalize` | src/events/webhooks/signature.ts:7-15 | The recursive loop that fills the new object computes the canonical form, its keys ascending at every depth |
| `Canonical.SortKeysSorts` | src/events/webhooks/signature.ts:11 | Keys come out in ascending lexicographic order of their UTF-16 code units, none added or lost |
| `Canonical.LessIsPrecedes` | src/events/webhooks/signature.ts:11 | The comparison is that order: equal up to some place, where the first text ends or has the smaller code unit |
| `Canonical.CanonicalAscends` | src/events/webhooks/signature.ts:7-15 | In a canonical value the keys of every object, at every depth, ascend |
| `JsonReader.PrintInjective` | src/events/webhooks/signature.ts:22 | Printed JSON determines the value |
| `JsonReader.LiteralUnambiguous` | src/events/webhooks/signature.ts:22 | A string literal, escapes and lone surrogates included, can be read off any text that goes on after it |
| `JsonReader.ValueUnambiguous` | src/events/webhooks/signature.ts:22 | So can every value before a delimiter |
| `JsonReader.PrintReadsBack` | src/events/webhooks/signature.ts:22 | A reader of JSON text (RFC 8259) reads every printed value back, the whole text and nothing more |
| `JsonReader.EscapesAre` | src/events/webhooks/signature.ts:22 | The text of each code unit of a string: seven short escapes, `u00xx` escapes in lower case for other controls and lone surrogates, all else as it stands |
| `Signature.HexRoundTrip` | src/events/webhooks/signature.ts:23-37 | Hexadecimal digest and `Buffer.from` are inverse |
| `Signature.HexIsLowerCase` | src/events/webhooks/signature.ts:23 | The digest is written as two lower-case digits a byte, high half first |
| `Signature.FromHexAt` | src/events/webhooks/signature.ts:36-37 | Decoding takes pairs of hexadecimal characters |
| `Signature.FromHexStops` | src/events/webhooks/signature.ts:36-37 | and stops exactly at the first pair that is none |
| `Signature.VerifyIsExact` | src/events/webhooks/signature.ts:30-43 | A signature is accepted exactly when it decodes to the payload's HMAC |
| `Signature.VerifyUpToKeyOrder` | src/events/webhooks/signature.ts:17-43 | A signature is accepted for every key-reordered copy of its payload, and for another value only if two different texts have one HMAC |
| `Money.ChargedExactly` | src/domain/services/saga-orchestrator.ts:86-90 | Within the request schema and below 2 * 10^23 cents a unit, the stored total, its JSON form read back and the minor units charged, or refunded with the same context, are all the integer sum of quantity times unit cents |
| `Money.TotalExact` | src/domain/entities/order.ts:47-50 | The fold of multiply and add is that sum whenever it has at most 28 digits |
| `Money.MinorUnitsExact` | src/infrastructure/payment/stripe-adapter.ts:42 | Times 100 and toFixed(0) give the cents, also for products of thirty digits |
| `Money.AddExactIff` | src/domain/value-objects/money.ts:38-42 | A sum of amounts is exact exactly when 28 digits hold it |
| `Money.MultiplyExactIff` | src/domain/value-objects/money.ts:44-50 | A whole multiple of an amount is exact exactly when 28 digits hold it |
| `Money.PriceIsCents` | src/api/schemas/order.schema.ts:14-16 | A price text of the schema is constructed as exactly its cents |
| `Money.NewIff` | src/domain/value-objects/money.ts:19-32 | The constructor accepts exactly a three-letter currency with a plain non-negative number, and stores its cents, exact or to the nearest, halves up |
| `Money.OrderTotalRefuses` | src/domain/entities/order.ts:45-50 | An order without lines, with a quantity that is not positive, or with a price that is no plain number has no total |
| `Money.OneCurrency` | src/domain/value-objects/money.ts:38-42 | Amounts in different currencies are not added |
| `Money.UpperIs` | src/domain/value-objects/money.ts:31 | The currency's lower-case letters become the capitals |
| `Money.LineExact` | src/domain/entities/order-item.ts:16-34 | A line's price is quantity times unit cents while that has at most 28 digits |
| `Money.CentLostBeyondBound` | src/domain/value-objects/money.ts:44-50 | One cent beyond 10^28 is lost even on a single item |
| `Decimal.FixedRoundTrip` | src/domain/value-objects/money.ts:19-32 | What toFixed(2) wrote is parsed as the same number of cents |
| `Decimal.RoundSigExactIff` | src/domain/value-objects/money.ts:3 | Rounding to 28 digits changes nothing exactly when nothing but zeros is cut off |
| `RateLimiter.WindowAdmitsMin` | src/infrastructure/redis/rate-limiter.ts:21-40 | Every aligned window admits exactly the smaller of its arrivals and the limit, when no request is counted after its window's key has expired |
| `RateLimiter.IntervalAdmitsTwice` | src/infrastructure/redis/rate-limiter.ts:21-24 | Under the same condition any interval of one window's length admits at most twice the limit |
| `RateLimiter.TwiceIsReached` | src/infrastructure/redis/rate-limiter.ts:21-24 | Every interval that is not aligned admits twice the limit in some run |
| `RateLimiter.LimitHoldsIffAligned` | src/infrastructure/redis/rate-limiter.ts:21-24 | An interval of one window's length never admits more than the limit exactly when it is aligned |
| `RateLimiter.LateRequestsAdmitTwice` | src/infrastructure/redis/rate-limiter.ts:28-33 | Without the condition even an aligned window admits twice the limit in some run |
| `RateLimiter.RateLimiter.Expire` | src/infrastructure/redis/rate-limiter.ts:30-33 | Redis drops the key of a window: its count starts again |
| `RateLimiter.RateLimiter.IsAllowed` | src/infrastructure/redis/rate-limiter.ts:16-45 | The stored counters always equal the requests counted since their keys last expired; allowed and remaining are those of the request's own window, and a Redis error lets the request pass |

## Left out

- HTTP routing, the 400 for missing headers, health probes, metrics, tracing and logging: display and plumbing.
- Stripe, webhook delivery, BullMQ, ioredis and postgres.js internals: ports that succeed, reject or lose their reply. Charge and refund always return a result, as `PaymentService` makes them; the circuit breaker and retry policy around them are not part of this model.
- SHA-256 and HMAC are any functions; body hashes in `Idempotency` are numbers, equal exactly when the bodies are.
- The 64-bit lock key and the pinning of advisory locks to a database session: keys are one-to-one with SKUs, a lock is not reentrant, and an unlock that succeeds frees the key whichever connection sends it. In `Contention` every loss of a lock is the action `Tamper`; only `NoOverselling`, `VerdictIsExact` and the other results that do not ask for `Untampered` hold in its presence.
- A SKU is its rank in the collation that sorts the items. Quantities are natural numbers, as the request schema requires; an INT overflow is a statement that rejects.
- `seedInventory` and manual resets of stock: they void the ledger on purpose.
- Re-execution of a whole saga by its queue job, which creates a fresh saga, and compensations that overlap each other or a `startSaga` still executing: the results hold for one saga instance.
- `SagaOrchestrator.SagaOrchestrator.AdminCompensateRoute`: does not model a call while the saga's own `startSaga` is still executing, which the RUNNING guard lets through, nor the context that the route rebuilds from metadata; it compensates a stopped saga with the saga's own context. The route answers before the compensation ends; the model waits for it.
- An acquire whose query rejects after the lock was taken: a rejected acquire has taken nothing.
- `Contention`: an unlock there always succeeds; `InventoryService` and `AdvisoryLock` have the failing one.
- Columns of saga, step, order and event that no decision reads (times, messages, inputs, headers). `failSaga` is never called.
- `OutboxDrain.BoundedDrain`: does not model polls in which a statement rejects, nor two events created at one instant; events stand in the order of their creation times.
- The polling timer, shutdown, and the removal of finished jobs by the queue: a job, once enqueued, is remembered.
- JavaScript's special object keys (integer-like keys that enumerate first, `__proto__`), `undefined`, functions and `toJSON` in signed payloads: values are JSON values, and a number is its printed text. Also the two-step rejection in `verifyPayload` of inputs that make `Buffer.from` throw.
- Money inputs in exponent, signed-plus or radix notation, upper-casing of non-ASCII currency letters, fractional factors in orders, `isGreaterThan` and `equals`: requests carry prices of the schema's form and whole quantities. The NUMERIC(12,2) column is not part of this model.
- The clock by which Redis expires a window's key: `RateLimiter` lets a key expire at any time.
