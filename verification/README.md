# TrackFlow: a verified model of the order lifecycle and its surroundings

TrackFlow is a set of Go services around one Postgres database and one Redis. The order service creates and assigns
orders, the tracking service moves them along a status lifecycle and serves their timelines, the notification service
sends each status change once, and a worker pushes carrier statuses into the tracking service. This project models the
parts that have to agree with each other and proves what every run of them keeps. `dafny verify dfyconfig.toml` checks
all of it.

| file | what it models |
|---|---|
| `Lifecycle.dfy` | the transition table and its string checks |
| `CreateInput.dfy` | the checks on a new order |
| `Store.dfy` | the database rows, the meaning of the three writing transactions, the invariants of committed states |
| `Columns.dfy` | which call leaves what in which column, and when it answers what |
| `Concurrency.dfy` | any number of calls, one SQL statement at a time, with row locks, unique keys, faults and lost acknowledgements |
| `Guarantees.dfy` | what every interleaving keeps: serializability, lifecycle, idempotency, at-most-once effects |
| `Progress.dfy` | locks never block for good, and every schedule ends |
| `Timelines.dfy` | the timeline query and when its order is the order of the commits |
| `LateCommits.dfy` | runs in which that order differs |
| `Repositories.dfy` | the two repositories as imperative transactions with rollback, proved against `Store` |
| `Services.dfy` | the two services over the shared Redis, and when each call leaves cache entries stale |
| `Coherence.dfy` | whole runs of the services: when cached answers are exact |
| `Staleness.dfy` | the caches under interleaving: how stale an answer can be, and that the bound is met |
| `Interleavings.dfy` | both together: caches over the statement-level machine |
| `Dedup.dfy`, `DedupLog.dfy`, `DedupSends.dfy` | notification deduplication: keys and the service, the self-pruning map against the full log, concurrent sends |
| `Worker.dfy`, `LastKnown.dfy`, `MockCarrier.dfy` | backoff, retry, cycles; the last-known fallback; the mock carrier's stream |
| `StatusMapper.dfy` | the normaliser of carrier statuses |
| `Metrics.dfy` | request metrics and their sorted report |
| `Outcomes.dfy`, `Text.dfy`, `Numbers.dfy` | optional values, results; trimming and lower-casing; minimum and maximum |

How the state machines are built: a run is any sequence of events, and an event that is not enabled (a statement that
waits for a lock, for example) leaves the state alone, so a statement about all sequences is one about all
interleavings. What the program cannot control is a parameter: driver faults (`faultAt` picks the statement that
fails), failing cache commands, generated ids (which do not repeat), transaction start times, clock samples, random
numbers, and the couriers table's answer (`active`).
`Staleness` lets the database change by whole transactions; module `Interleavings` carries its bound over to the
statement-level machine.

Places where the code does not do what one might expect. Each has an exact condition and an input that violates it:

- `AssignOrder` leaves a cached timeline of its order stale (`TimelinesCoherentAfterAssignIff`, `AssignedRowIsMissed`).
- The timeline is sure to be in commit order only if the order's transactions started in that order
  (`TimelineIsCommitOrderIff`, `TimelineCanDisagree`).
- `backoffDelay` adds the jitter in 64 bits: a sum past the largest duration becomes a delay of zero
  (`JitterStaysInRangeIff`, `JitterOverflows`). The retry fields have no setter and the constructor fixes 200 ms, 3 s
  and 0.2, so only code inside the package can reach this (`DefaultDelays`).
- `normalizeStatus` is not idempotent when a tab or line break is left at the end of its text by the removal of
  separators (`IdempotentIff`, `TabIsLostOnTheSecondPass`).
- A bar in an order id can make two events share a deduplication key (`EqualKeysIdentifyIff`, `BarsCollide`).
- A clock sample taken before the lock can be late and slip past the deduplication (`DecisionMatchesLogIff`,
  `LateClockSampleIsAccepted`, `LateStartBreaksSpacing`).
- A failing send releases whatever reservation its key has, also another send's (`SpacingSurvivesIff`,
  `SpacedFuturesIff`, `SlowSendBreaksSpacing`).

## Model

| member | source | states |
|---|---|---|
| Guarantees.Serializable | services/order-service/internal/repository/postgres/order_repository.go:213-299 | the rows after any interleaving of the three transactions, with faults anywhere, are those of the committed ones executed alone in commit order, and each of these succeeds |
| Concurrency.CommitExecutes | services/tracking-service/internal/repository/postgres/tracking_repository.go:161-194 | under its row or key lock, a transaction's separate statements amount to one atomic execution of the operation |
| Concurrency.StepPreserves | services/order-service/internal/repository/postgres/order_repository.go:319-373 | every statement, commit, rollback, fault and notification keeps the database invariants, the locks' meaning and the recorded outcomes |
| Concurrency.RunPreserves | services/tracking-service/internal/repository/postgres/tracking_repository.go:151-194 | the same for runs of any length and any number of calls |
| Guarantees.HistoryIsALifecycle | services/tracking-service/internal/service/state_machine.go:27-41 | in every reachable state `created` followed by an order's history is a path of allowed transitions ending at the order's status, with at most three rows, none of them `created` and no status twice |
| Guarantees.NothingIsTakenBack | services/tracking-service/internal/service/state_machine.go:59-76 | orders and assignments stay, histories only grow at the end, statuses strictly advance with each row, and delivered or cancelled orders change no more |
| Guarantees.AssignOrderSucceedsOnce | services/order-service/internal/repository/postgres/order_repository.go:213-299 | of any number of concurrent assignments of one order at most one succeeds |
| Guarantees.AssignmentConflictIsUnreachable | services/order-service/internal/repository/postgres/order_repository.go:255-268 | an order in `created` has no assignment row, so an approved insert never meets the unique constraint; each assignment row has a manager's `assigned` history row for the same courier |
| Guarantees.CreateOrderIsIdempotent | services/order-service/internal/service/service.go:151-194 | all concurrent calls with one key that get an answer get the same stored order, and at most one is told that it created it |
| Guarantees.SecondLookupFinds | services/order-service/internal/service/service.go:182-193 | after a duplicate-key error there is a row for the second lookup, and finding it is the call's answer |
| Guarantees.CreateOrderFailsOnlyOnFaults | services/order-service/internal/service/service.go:172-189 | the only error a call with valid input returns is one of the database or the connection, never a duplicate or a missing order |
| Guarantees.NoOrphans | services/order-service/internal/repository/postgres/order_repository.go:333-341 | there are exactly two addresses per order; every address belongs to one order, so rolled-back attempts leave none behind |
| Guarantees.AtMostOnceEffect | services/carrier-sync-service/internal/worker/worker.go:201-257 | however often a status is pushed, also after commits whose acknowledgement was lost, an order gets one history row and at most one notification for it |
| Guarantees.SameChangeSameCall | services/tracking-service/internal/service/service.go:180-194 | two calls that both reported the same status change of the same order are one call |
| Guarantees.RefusalsAreJustified | services/order-service/internal/repository/postgres/order_repository.go:227-253 | a refused assignment or update was refused rightly: at some moment while the call ran, executing it on the committed rows fails with its very error |
| Concurrency.RefusalIsJustified | services/tracking-service/internal/repository/postgres/tracking_repository.go:165-177 | that moment is the statement that refuses; a duplicate key that leads to the second lookup is justified in the same way |
| Progress.EveryScheduleEnds | services/order-service/internal/repository/postgres/order_repository.go:51-56 | no deadlock and no livelock: from every reachable state, whatever the scheduler does, runs without faults and new calls take at most six effective steps per call, and nothing can step any more if and only if every call has returned |
| Progress.EveryCallCanFinish | services/order-service/internal/repository/postgres/order_repository.go:51-56 | from every reachable state each pending call can be brought to its answer by statements and commits alone |
| Progress.HolderFinishes | services/tracking-service/internal/repository/postgres/tracking_repository.go:165-193 | a call past its lock runs to its answer by its own steps, taking no further lock and disturbing no other call |
| Progress.StepKeepsLocks | services/order-service/internal/repository/postgres/order_repository.go:223-225 | a lock is always held by a live call on that row or key, and is gone when the call returns |
| Store.AfterPreserves | migrations/postgres/schema-v1.sql:56-110 | each transaction keeps histories on the lifecycle, assignments recorded, keys unique and two own addresses per order |
| Store.AfterAdvances | services/tracking-service/internal/service/state_machine.go:27-41 | one transaction takes nothing back: rows grow, statuses climb exactly when a row is added |
| Store.HistoryIsShortAndSimple | services/tracking-service/internal/service/state_machine.go:27-41 | the history of an order on the lifecycle has at most three rows with different statuses |
| Store.OneRowPerStatus | services/tracking-service/internal/repository/postgres/tracking_repository.go:183-187 | no two rows of the table record the same status for the same order |
| Columns.UpdateOutcome | services/tracking-service/internal/repository/postgres/tracking_repository.go:165-177 | an update of an order succeeds exactly if it cancels a created or assigned order or takes the next step; otherwise the transition is refused, or the order is not found |
| Columns.UpdateStores | services/tracking-service/internal/repository/postgres/tracking_repository.go:42-72 | a successful update changes the status and update time of this order and appends one history row, each of whose columns is named; nothing else changes |
| Columns.AssignOutcome | services/order-service/internal/repository/postgres/order_repository.go:227-268 | when an assignment succeeds and exactly when it fails with which error |
| Columns.AssignStores | services/order-service/internal/repository/postgres/order_repository.go:66-109 | a successful assignment stores courier, assigner and comment in their own columns, empty texts as NULL, and a manager's history row; nothing else changes |
| Columns.CreateOutcome | services/order-service/internal/repository/postgres/order_repository.go:333-362 | when a creation succeeds and exactly when it fails with which error |
| Columns.CreateStores | services/order-service/internal/repository/postgres/order_repository.go:111-141 | a successful creation stores an order and two addresses with every column from the input; nothing else changes |
| Columns.EveryRowHasItsCall | services/order-service/internal/repository/postgres/order_repository.go:213-373 | in every reachable state of the interleaved machine every history row, assignment, order and address has the columns of a committed call |
| Lifecycle.ValidateDecidesTable | services/tracking-service/internal/service/state_machine.go:59-76 | on the database's spellings the string check accepts exactly the pairs of the table and otherwise reports a forbidden transition |
| Lifecycle.CanMoveIff | services/tracking-service/internal/service/state_machine.go:27-41 | the allowed moves: an order can be cancelled while it is created or assigned, and otherwise goes forward one step at a time |
| Lifecycle.TerminalIff | services/tracking-service/internal/service/state_machine.go:39-40 | delivered and cancelled are the end states |
| Lifecycle.ValidateOutcome | services/tracking-service/internal/service/state_machine.go:59-76 | on any two texts: an unknown name is an invalid status, then the table decides |
| Lifecycle.NormalizeStatusAccepts | services/tracking-service/internal/service/state_machine.go:50-57 | a text is accepted as a status if and only if it is its name up to case and outer whitespace |
| Lifecycle.NormalizeStatusNames | services/tracking-service/internal/service/state_machine.go:50-57 | the five names that are accepted, each for its status, and no others |
| Lifecycle.NormalizeStatusSourceNames | services/tracking-service/internal/service/state_machine.go:78-85 | the four source names that are accepted, each for its source, and no others |
| Lifecycle.PathIsShortAndSimple | services/tracking-service/internal/service/state_machine.go:27-41 | the table is acyclic: a path has at most four statuses and none twice |
| Timelines.TimelineIsCommitOrderIff | services/tracking-service/internal/repository/postgres/tracking_repository.go:12-25 | the timeline query is sure to answer in commit order if and only if the transactions behind the order's rows started in that order |
| LateCommits.TimelineCanDisagree | services/tracking-service/internal/repository/postgres/tracking_repository.go:161-194 | a run from the empty database after which the timeline differs from the commit order |
| LateCommits.LateCommitIsListedFirst | services/tracking-service/internal/repository/postgres/tracking_repository.go:35-47 | in any state, two updates of an unlocked created order can interleave so that the one that starts first waits and commits last, and `in_transit` is listed before `assigned` |
| Timelines.SortIsAnswer | services/tracking-service/internal/repository/postgres/tracking_repository.go:12-25 | the modelled answer is a permutation of the rows sorted by `created_at` |
| Timelines.AnswerUnique | services/tracking-service/internal/repository/postgres/tracking_repository.go:12-25 | rows with increasing times have one possible answer, themselves |
| Timelines.RowsAreThoseOf | services/tracking-service/internal/repository/postgres/tracking_repository.go:21-22 | the rows of an order are those of the table with its id |
| Timelines.TimelineIsAnswer | services/tracking-service/internal/repository/postgres/tracking_repository.go:12-25 | the timeline is all history rows of the order, earliest first |
| Repositories.TrackingRepository.GetOrderTimeline | services/tracking-service/internal/repository/postgres/tracking_repository.go:92-149 | answers the first rows by time, or that the order does not exist when there are no rows and no order |
| Repositories.TrackingRepository.UpdateOrderStatus | services/tracking-service/internal/repository/postgres/tracking_repository.go:151-194 | succeeds with exactly the atomic update, or fails with its error or a driver fault and leaves every row as it was |
| Repositories.OrderRepository.GetOrderByID | services/order-service/internal/repository/postgres/order_repository.go:195-211 | answers the row, or that there is none |
| Repositories.OrderRepository.GetOrderByIdempotencyKey | services/order-service/internal/repository/postgres/order_repository.go:301-317 | answers an order with the key, and reports a missing one only if no order has it |
| Repositories.OrderRepository.AssignOrder | services/order-service/internal/repository/postgres/order_repository.go:213-299 | succeeds with exactly the atomic assignment and the new row, or fails with its error or a driver fault and leaves every row as it was |
| Repositories.OrderRepository.CreateOrder | services/order-service/internal/repository/postgres/order_repository.go:319-373 | succeeds with exactly the atomic creation and the new row, or fails with its error or a driver fault and leaves every row as it was |
| Services.TrackingService.GetOrderTimeline | services/tracking-service/internal/service/service.go:114-147 | answer and entries are those of a read through the `timeline:` cache; an invalid id touches nothing |
| Services.TrackingService.UpdateOrderStatus | services/tracking-service/internal/service/service.go:149-195 | a success is the atomic update of the normalised input, notified once, with both entries deleted as far as the deletes work; a failure changes nothing anywhere |
| Services.TrackingService.ChangeStatus | services/tracking-service/internal/service/service.go:180-194 | the part after the input checks |
| Services.OrderService.GetOrderByID | services/order-service/internal/service/service.go:89-120 | answer and entries are those of a read through the `order:` cache; an invalid id touches nothing |
| Services.OrderService.AssignOrder | services/order-service/internal/service/service.go:122-149 | a success is the atomic assignment and caches the new row; a failure changes nothing anywhere |
| Services.OrderService.CreateOrder | services/order-service/internal/service/service.go:151-194 | input that fails the checks changes nothing; otherwise the answer is the stored order with the trimmed key, created by this call from the normalised input exactly if no order had the key before or after other clients' commits; it is cached; only database faults and repeated generated ids make it fail, and the database's invariants hold afterwards |
| Services.OrderService.CreateChecked | services/order-service/internal/service/service.go:166-193 | the part after the input checks |
| CreateInput.AcceptedIff | services/order-service/internal/service/service.go:219-310 | which raw input passes the checks |
| CreateInput.NormalizedFields | services/order-service/internal/service/service.go:219-286 | what normalising does to each field |
| CreateInput.NormalizeTwice | services/order-service/internal/service/service.go:219-286 | accepted input passes the checks again unchanged |
| Services.OrderService.CacheOrder | services/order-service/internal/service/service.go:196-205 | the row is cached under the database's spelling unless its id is empty or the set fails |
| Services.OrderReadFillsCacheIff | services/order-service/internal/cache/redis/order_cache.go:30-67 | after a miss that stores its row, later reads in the same spelling are answered from the cache, even without the database, if and only if that is the database's spelling |
| Services.TimelineReadFillsCache | services/tracking-service/internal/cache/redis/timeline_cache.go:31-72 | after a miss that stores the timeline, later reads with any limit get the repository's answer without the database |
| Services.Redis.Set | services/tracking-service/internal/cache/redis/timeline_cache.go:57-72 | stores under this key only, and nothing when the command fails |
| Services.Redis.Del | services/tracking-service/internal/cache/redis/order_cache_invalidator.go:23-29 | removes this key only, and nothing when the command fails |
| Services.KeysDistinct | services/tracking-service/internal/cache/redis/timeline_cache.go:82-84 | the two services' keys never collide, and a key determines its id |
| Services.NormalizeLimit | services/tracking-service/internal/service/service.go:197-207 | the requested limit if it lies between 1 and 200, 50 if there is none, 200 if it is larger |
| Services.TimelineAnswerOutcome | services/tracking-service/internal/service/service.go:139-146 | the answer is the first rows by time up to that limit; a missing limit or one of at least three brings the whole timeline of an order |
| Services.TimelineReadOutcome | services/tracking-service/internal/service/service.go:128-146 | a timeline read in terms of rows and entries: what a hit, a miss, a missing order and a failing database or cache answer and store |
| Services.OrderReadOutcome | services/order-service/internal/service/service.go:103-119 | an order read in terms of rows and entries, each column of the answer named |
| Services.DeletesOutcome | services/tracking-service/internal/service/service.go:220-240 | an update takes away these two entries, as far as the deletes work, and no other |
| Services.SameOrderKey | services/tracking-service/internal/cache/redis/order_cache_invalidator.go:9-28 | the tracking service deletes the very entry that the order service stores |
| Services.SourceOutcome | services/tracking-service/internal/service/service.go:168-176 | a blank source means the system, any other is read by its name |
| Services.SliceOfFetch | services/tracking-service/internal/service/service.go:139-146 | fetching 200 rows and slicing gives what querying with the limit gives, for every history and every requested limit |
| Services.OrderReadIsExact | services/order-service/internal/service/service.go:103-119 | with coherent entries a read answers what the repository would, on a hit and on a miss, and leaves the entries coherent |
| Services.TimelineReadIsExact | services/tracking-service/internal/service/service.go:130-146 | the same for timelines of any limit |
| Services.MoveCoherence | services/tracking-service/internal/service/service.go:180-186 | a status change leaves coherent exactly the caches that have no entry of its order |
| Services.CreateCoherence | services/order-service/internal/service/service.go:176-180 | creating an order makes no entry of either cache stale |
| Services.OrdersCoherentAfterUpdateIff | services/tracking-service/internal/service/service.go:185-186 | after an update the order cache is coherent if and only if the call used the database's spelling and the delete worked, or there was no entry |
| Services.TimelinesCoherentAfterUpdateIff | services/tracking-service/internal/service/service.go:185-186 | after an update the timeline cache is coherent if and only if the order had no entry but the one deleted |
| Services.OrdersCoherentAfterAssignIff | services/order-service/internal/service/service.go:141-148 | after an assignment the order cache is coherent if and only if the set worked or there was no entry |
| Services.TimelinesCoherentAfterAssignIff | services/order-service/internal/service/service.go:141-148 | after an assignment the timeline cache is coherent if and only if the order had no entry, in any spelling |
| Coherence.Backend.Serve | services/order-service/internal/service/service.go:89-194 | a call to the service objects with checked arguments has exactly the effect on rows and entries that the run theorems below are about |
| Coherence.Backend.ServeAll | services/tracking-service/internal/service/service.go:114-195 | the same for runs of calls |
| Coherence.OrdersStayCoherentIff | services/order-service/internal/service/service.go:89-194 | along a sequential run the order cache stays coherent if and only if every status change that finds an `order:` entry deletes or replaces it |
| Coherence.TimelinesStayCoherentIff | services/tracking-service/internal/service/service.go:114-195 | along a sequential run the timeline cache stays coherent if and only if every update deletes the order's only `timeline:` entry and every assignment finds none |
| Coherence.PlainRunsMeetGuards | services/tracking-service/internal/service/service.go:149-186 | runs with canonical ids and working cache commands after writes meet the first condition, and without assignments the second |
| Coherence.OrderReadsAreExact | services/order-service/internal/service/service.go:89-194 | at the end of every run that meets the condition, reading an order in any spelling gives the repository's answer |
| Coherence.TimelineReadsAreExact | services/tracking-service/internal/service/service.go:114-195 | at the end of every run that meets the condition, reading a timeline in any spelling with any limit gives the repository's answer |
| Coherence.AssignedRowIsMissed | services/order-service/internal/service/service.go:141-148 | whenever an order with a cached timeline is assigned, in whatever spellings, reads with any limit go on answering from the old entry; if that was coherent they are empty although the `assigned` row is stored |
| Staleness.BoundedStaleness | services/tracking-service/internal/service/service.go:128-146 | a cached answer is what the database held at some instant less than the entry's time to live plus the longest query-to-set gap ago, whatever is written, deleted or lost in between and in whatever spelling the entry was cached |
| Staleness.StalenessBoundIsTight | services/tracking-service/internal/service/service.go:139-144 | for every time to live and gap some run serves an answer that was last true as long ago as the bound allows |
| Staleness.ServedSliceWasTheAnswer | services/tracking-service/internal/service/service.go:242-248 | a cached timeline cut to the requested limit is what the repository answered for that limit at such an instant |
| Staleness.ServedTimelineIsPrefix | services/tracking-service/internal/service/service.go:130-136 | a stale timeline is a prefix of the current history when the order's transactions started in commit order |
| Staleness.ServedOrderIsEarlierStage | services/order-service/internal/service/service.go:103-110 | a stale order row differs from the current one only in an earlier status and its update time |
| Interleavings.CachedAnswerWasCommitted | services/tracking-service/internal/service/service.go:128-146 | in every interleaving of statements, commits, faults and cache commands, a cached answer is what the committed rows of that run held at a moment less than the time to live plus the gap ago |
| Interleavings.VersionWasCommitted | services/tracking-service/internal/repository/postgres/tracking_repository.go:151-194 | every version in the caches' log was, at every time it was current, the committed rows of the interleaved run |
| Dedup.EqualKeysIdentifyIff | services/notification-service/internal/service/service.go:182-189 | two accepted events with equal keys agree in order, status, channel and recipient, up to case and outer whitespace, if and only if their order ids and statuses have equally many bars; holds for all texts |
| Dedup.DedupKeyIdentifiesEvent | services/notification-service/internal/service/service.go:182-189 | without a bar in order id and status, keys are equal if and only if those four fields are, even with bars in the recipient |
| Dedup.BarsCollide | services/notification-service/internal/service/service.go:182-189 | an input where the condition of `EqualKeysIdentifyIff` fails: events of two different orders, one id being the other followed by a bar and more, with one key |
| Dedup.PartOfNormalized | services/notification-service/internal/service/service.go:84-102 | the key does not depend on whether the channel was normalised first |
| Dedup.NotificationService.CleanupExpiredDedup | services/notification-service/internal/service/service.go:170-180 | keeps exactly the entries younger than the window, in any order of the map |
| Dedup.NotificationService.ReserveDedupKey | services/notification-service/internal/service/service.go:135-158 | the new map and the decision are those of the reservation function that the run lemmas are about |
| Dedup.NotificationService.ReleaseDedupKey | services/notification-service/internal/service/service.go:160-168 | forgets this key only |
| Dedup.NotificationService.Send | services/notification-service/internal/service/service.go:67-115 | an invalid event is refused for its first invalid field and changes nothing; a valid one is sent, with its normalised channel, exactly if its key is free, and holds the reservation exactly if the send succeeds |
| Dedup.SendableIff | services/notification-service/internal/service/service.go:72-96 | an event is valid exactly if nothing is blank and its channel is e-mail or Telegram up to case and outer whitespace |
| Dedup.ChannelOutcome | services/notification-service/internal/service/service.go:117-125 | which channels are accepted and under which name |
| Dedup.KeyOutcome | services/notification-service/internal/service/service.go:182-189 | the key is order, status, channel and recipient in this order, each in lower case without outer whitespace |
| Dedup.ReserveOutcome | services/notification-service/internal/service/service.go:135-180 | a key is accepted exactly if it has no entry younger than the window; then it gets one, and of the others the young ones stay |
| DedupLog.PrunedMapRefinesLog | services/notification-service/internal/service/service.go:135-180 | after any run, late clock samples included, a reserve whose own sample is not late leaves in the map exactly the unreleased reservations younger than the window |
| DedupLog.EveryDecisionMatchesLog | services/notification-service/internal/service/service.go:148-157 | each accept or suppress decision whose sample is not older than the latest so far is the one that scanning the whole unpruned log would give, however late earlier samples were |
| DedupLog.DecisionMatchesLogIff | services/notification-service/internal/service/service.go:103-157 | in every reachable state and for every clock sample, the decision is the whole log's if and only if the sample is not older than the latest so far, or the map has the key younger than the window, or the log has no reservation of the key so young |
| DedupLog.LateClockSampleIsAccepted | services/notification-service/internal/service/service.go:103-104 | an input where that condition fails: a late sample is accepted although the log suppresses it |
| DedupSends.SendIsStartAndFinish | services/notification-service/internal/service/service.go:102-114 | a send left alone is a start and, if accepted, a finish of the concurrent model, with the same map and the same calls of the sender |
| DedupSends.FailedSendKeepsMapIff | services/notification-service/internal/service/service.go:108-111 | after a failed send the map still has every held reservation if and only if no other unreleased attempt of the key is younger than the window |
| DedupSends.SuccessfulSendsAreSpaced | services/notification-service/internal/service/service.go:102-168 | two successful sends of a key were reserved at least a window apart if no failing send releases another attempt's reservation and no late clock sample overlooks one; sends may take as long as they like |
| DedupSends.ForeignReleaseBreaksSpacing | services/notification-service/internal/service/service.go:160-168 | if a failing send meets such an attempt, the next send of the key is let through at once, and two sends of the key can succeed within a window |
| DedupSends.LateStartBreaksSpacing | services/notification-service/internal/service/service.go:103-108 | a late sample that overlooks an attempt is accepted, and two sends of the key can succeed within a window |
| DedupSends.SpacingSurvivesIff | services/notification-service/internal/service/service.go:102-168 | an event leaves successes spaced in all its harmless futures if and only if it is harmless: a condition on the map and the unreleased attempts before it |
| DedupSends.SpacedFuturesIff | services/notification-service/internal/service/service.go:102-168 | after any run whatever, successes stay spaced in all harmless futures if and only if the unreleased attempts of each key are spaced and the map has the young ones |
| DedupSends.TimelySendsAreSpacedAndAlone | services/notification-service/internal/service/service.go:102-168 | with sends shorter than the window, successes are spaced and one send per key is in flight at a time, whatever fails in between |
| DedupSends.SlowSendBreaksSpacing | services/notification-service/internal/service/service.go:108-111 | a run that breaks spacing from the start: a failing send longer than its window releases its successor's reservation |
| Worker.BackoffFormula | services/carrier-sync-service/internal/worker/worker.go:259-286 | for every attempt and setting: the smaller of base times a power of two and the cap, where no base means 200 ms and the cap is at least the base, except that from the second attempt on one below the cap becomes the cap |
| Worker.ExponentialDelay | services/carrier-sync-service/internal/worker/worker.go:274-286 | the doubling loop computes that delay for every attempt and every 64-bit setting, within 64 bits |
| Worker.DoublingStaysBelowCap | services/carrier-sync-service/internal/worker/worker.go:276-285 | whenever the loop doubles, the result does not overflow and stays below the cap, so the second cap never applies |
| Worker.ExponentialGrows | services/carrier-sync-service/internal/worker/worker.go:259-286 | the delay before jitter starts at the base, never falls from attempt to attempt and never passes the cap |
| Worker.BackoffDelay | services/carrier-sync-service/internal/worker/worker.go:259-322 | computes the delay with jitter that `JitterIsBounded` is about, within 64 bits |
| Worker.AddJitter | services/carrier-sync-service/internal/worker/worker.go:300-321 | the jittered sum in 64 bits, never negative |
| Worker.JitterIsBounded | services/carrier-sync-service/internal/worker/worker.go:300-321 | for all settings and draws the delay lies between zero and twice the plain delay; for one draw it lies within the jitter range if and only if the sum does not overflow or the range covers everything |
| Worker.JitterStaysInRangeIff | services/carrier-sync-service/internal/worker/worker.go:300-321 | every draw stays within the jitter range if and only if the plain delay plus the range fits 64 bits or the range is the whole delay |
| Worker.DelayFormula | services/carrier-sync-service/internal/worker/worker.go:288-321 | the jittered delay in closed form for every setting, attempt and draw |
| Worker.DrawsMoveDelay | services/carrier-sync-service/internal/worker/worker.go:305-316 | the lowest draw takes off the whole range, the middle one nothing, the highest adds the whole range |
| Worker.JitterOverflows | services/carrier-sync-service/internal/worker/worker.go:316-321 | settings and a draw for which the sum overflows and the delay is zero |
| Worker.DefaultDelays | services/carrier-sync-service/internal/worker/worker.go:64-67 | with the constructor's settings every wait lies between 160 ms and 480 ms |
| Worker.WithRetry | services/carrier-sync-service/internal/worker/worker.go:210-257 | at most max(1, configured attempts) calls, and a success within them is reached if nothing cancels or breaks the sleep before; nil if and only if the last call succeeded, and no call follows a success; between calls it sleeps exactly the delays of attempts 1, 2, ...; otherwise the error is the one that ended the retries |
| Worker.SucceedsIff | services/carrier-sync-service/internal/worker/worker.go:215-256 | retries succeed if and only if some call within the configured attempts does and nothing ends them before |
| Worker.FetchUpdatesWithRetry | services/carrier-sync-service/internal/worker/worker.go:167-199 | a successful fetch is handed on and remembered; a failed one is answered by the last known updates, or by the retries' own error if there are none |
| Worker.PushAll | services/carrier-sync-service/internal/worker/worker.go:145-162 | synced is the number of updates whose retries end in success, synced and failed add up to the updates, pushes stay within the attempts |
| Worker.MaxPushesIsProduct | services/carrier-sync-service/internal/worker/worker.go:148-162 | that limit is updates times max(1, configured attempts) |
| Worker.DeliveredCounts | services/carrier-sync-service/internal/worker/worker.go:148-162 | the synced updates are those whose retries end in success, each counted once |
| Worker.RunOnce | services/carrier-sync-service/internal/worker/worker.go:133-165 | a cycle counts each fetched update once, and a cycle with a failed fetch, with or without fallback, pushes nothing |
| LastKnown.CloneStatusUpdates | services/carrier-sync-service/internal/service/service.go:131-140 | nil for nothing, else a fresh array with the same contents |
| LastKnown.NormalizeBatchSize | services/carrier-sync-service/internal/service/service.go:119-129 | the requested batch size if it lies between 1 and 50, 5 if there is none, 50 if it is larger |
| LastKnown.LatestIs | services/carrier-sync-service/internal/service/service.go:58-116 | the latest non-empty fetch is the one after which every fetch failed or was empty |
| LastKnown.PrefixIs | services/carrier-sync-service/internal/service/service.go:90-103 | the fallback is the first updates up to the batch size |
| LastKnown.SyncService.StoreLastKnown | services/carrier-sync-service/internal/service/service.go:106-117 | an empty fetch is not stored, any other is stored as a fresh copy |
| LastKnown.SyncService.SyncOnce | services/carrier-sync-service/internal/service/service.go:48-61 | asks for the normalised batch size and returns a copy of the fetch; the stored slice stays the most recent non-empty successful one and is shared with no answer |
| LastKnown.SyncService.LastKnownStatuses | services/carrier-sync-service/internal/service/service.go:85-104 | a fresh copy of the prefix of the latest non-empty fetch, as long as the batch size allows |
| LastKnown.SyncService.SyncOnceWithFallback | services/carrier-sync-service/internal/service/service.go:63-83 | the fetch if it succeeds, else that prefix if there is one, else the error |
| LastKnown.MutationIsHarmless | services/carrier-sync-service/internal/service/service.go:99-103 | a caller that overwrites an answer changes no later answer |
| MockCarrier.MockClient.FetchStatusUpdates | services/carrier-sync-service/internal/client/mock.go:36-71 | yields the next 1 to 20 updates of the stream over five orders and four statuses and advances the cursor by as many; a cancelled call advances nothing |
| MockCarrier.UpdateIs | services/carrier-sync-service/internal/client/mock.go:57-65 | which order, status and date an update has |
| MockCarrier.ClampLimit | services/carrier-sync-service/internal/client/mock.go:37-43 | at least one update, at most twenty, otherwise as many as requested |
| MockCarrier.ThirtyUpdatesFinishEveryOrder | services/carrier-sync-service/internal/client/mock.go:57-68 | any 30 or more consecutive updates pushed to tracking leave each existing order of the stream delivered or cancelled, from any statuses and with any other transactions in between |
| MockCarrier.TwentyNineAreNotEnough | services/carrier-sync-service/internal/client/mock.go:57-68 | without other transactions there is a cursor from which 29 updates leave an order in transit |
| MockCarrier.FindVisit | services/carrier-sync-service/internal/client/mock.go:58-59 | from any cursor each order is offered `assigned` within 20 updates, and the next two statuses five and ten updates later |
| StatusMapper.NormalizeStatus | services/carrier-sync-service/internal/mapping/status_mapper.go:71-81 | the result is the words of the trimmed lower-case text joined by single underscores, after exactly as many passes as halving the longest run of separators takes |
| StatusMapper.NormalizedIsClean | services/carrier-sync-service/internal/mapping/status_mapper.go:71-81 | the result is lower-case, has no space or hyphen, underscores only one at a time between other characters, and all other characters of the text in their order |
| StatusMapper.CeilLog2Is | services/carrier-sync-service/internal/mapping/status_mapper.go:76-78 | the number of passes is the binary logarithm of the longest run, rounded up |
| StatusMapper.LongestRunIs | services/carrier-sync-service/internal/mapping/status_mapper.go:76-78 | the longest run is what it says: that many underscores in a row occur, and no more |
| StatusMapper.PassKeepsWords | services/carrier-sync-service/internal/mapping/status_mapper.go:76-78 | a pass changes no word |
| StatusMapper.PassHalvesRuns | services/carrier-sync-service/internal/mapping/status_mapper.go:76-78 | a pass turns a run of k underscores into one of k/2 rounded up |
| StatusMapper.WordsOfJoin | services/carrier-sync-service/internal/mapping/status_mapper.go:71-81 | splitting undoes joining |
| StatusMapper.NormalizedOfPlainText | services/carrier-sync-service/internal/mapping/status_mapper.go:71-81 | when the space is the only whitespace, the untrimmed text is split all the same, and normalising is idempotent |
| StatusMapper.IdempotentIff | services/carrier-sync-service/internal/mapping/status_mapper.go:71-81 | normalising is idempotent if and only if what separators enclose neither begins nor ends with other whitespace |
| StatusMapper.TabIsLostOnTheSecondPass | services/carrier-sync-service/internal/mapping/status_mapper.go:71-81 | a text for which normalising twice differs from normalising once |
| Metrics.HTTPMetrics.Observe | services/api-gateway/internal/gateway/metrics.go:104-124 | totals and every key's count, latency sum and maximum stay the fold of all observations, wrapped to 64 bits |
| Metrics.HTTPMetrics.CollectRoutes | services/api-gateway/internal/gateway/metrics.go:134-144 | one entry per key in any order of the map, with true counts and latency sums that add up |
| Metrics.SortRoutes | services/api-gateway/internal/gateway/metrics.go:146-154 | a strictly increasing permutation by route, method and status |
| Metrics.HTTPMetrics.TakeSnapshot | services/api-gateway/internal/gateway/metrics.go:126-162 | lists each observed key once, in order, with its wrapped fold; the true counts and latency sums of the keys add up to the true totals, the shown counts to the shown total modulo 2^64, and to the true total if and only if no key was observed 2^64 times |
| Metrics.ReportIsUnique | services/api-gateway/internal/gateway/metrics.go:135-154 | the map's iteration order cannot show: an increasing list is determined by its elements |
| Metrics.LessIsOrder | services/api-gateway/internal/gateway/metrics.go:146-154 | the comparison is irreflexive, total and transitive |
| Metrics.LessIff | services/api-gateway/internal/gateway/metrics.go:146-154 | the route decides, then the method, then the status |
| Metrics.StringLessIff | services/api-gateway/internal/gateway/metrics.go:147-151 | texts compare character by character, a proper prefix first |
| Metrics.MetricIs | services/api-gateway/internal/gateway/metrics.go:136-143 | what each number of a row is: the count, the mean and the maximum of the stored aggregate |
| Metrics.LatencyMsIs | services/api-gateway/internal/gateway/metrics.go:184-186 | milliseconds with whole microseconds, the rest dropped |
| Metrics.AggregateIs | services/api-gateway/internal/gateway/metrics.go:114-119 | the count is the number of observations with the key, the maximum bounds their latencies and is one of them or zero |
| Metrics.AggregateSum | services/api-gateway/internal/gateway/metrics.go:116-123 | the latency sums get each observation once |
| Metrics.WrapIs | services/api-gateway/internal/gateway/metrics.go:19-23 | 64-bit numbers: the same remainder in the unsigned and the signed range |

## Left out

- HTTP handlers, the gateway's proxy and middleware, JSON, configuration, logging and wiring: plumbing.
- `ListOrders` and the contents of the external-status table: lookups.
- Seed data: runs start from an empty database; seeded `created` history rows do not occur.
- NUMERIC rounding, CHECK constraints and `last_status_at`: an insert that violates a CHECK is one of the driver faults.
- Text outside ASCII: `strings.TrimSpace` and `strings.ToLower` are modelled on ASCII.
- Generated ids are draws that do not repeat in `Concurrency`; in `Repositories` a repeated draw is a driver error.
- Ties of `created_at`: the modelled query keeps them in commit order; `TimelineIsCommitOrderIff` speaks about every answer that SQL allows.
- Lost acknowledgements of commits are part of `Concurrency` only; in `Repositories` a failed commit has not committed.
- Entry lifetimes are part of `Staleness` only; in `Services` and `Coherence` an entry may expire at any moment.
- The couriers table is the answer `active`; couriers do not change while an assignment runs.
- Nil receivers and services without a repository, sender or cache.
- The worker's ticker loop, its setters and timeouts; a cancelled context is part of the retry script.
- Averages and jitter are computed over reals, without the rounding of floats; a jitter factor that is not a number is not modelled.
- MockCarrier.MockClient.FetchStatusUpdates: does not model an overflow of the cursor; cancellation happens before the lock as in the code.
- Worker.FetchUpdatesWithRetry: the effects of the retried calls on the last-known slice are applied call by call after the retry's trace is known, because the outcomes are a parameter.
- Concurrent access to the last-known slice, the metrics and the mock cursor: each is guarded by one mutex in the code, so its operations are modelled one at a time.
