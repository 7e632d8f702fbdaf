# Event booking platform: verified model

This project models the booking saga of the event booking platform in Dafny and proves its guarantees for every run, with
crashes at every await, repeated deliveries, reordering, lost acknowledgements and competing workers.

`dafny verify dfyconfig.toml` checks everything.

## What is modelled

| file | part of the system |
|---|---|
| `Common`, `Messages`, `Sums` | identifiers and time, the message contracts, sums over sets of bookings |
| `Bookings`, `Inventory`, `Notifications` | each transaction of the three databases as a function on its tables |
| `Saga`, `SagaInvariant`, `SagaTheorems`, `SagaExample` | the three services as one state machine; its inductive invariant; what follows for the tables; one run all the way round |
| `Outbox`, `OutboxInvariant`, `OutboxTheorems`, `OutboxLifetime`, `OutboxAge` | the outbox protocol: workers, row locks, claim timeout, attempts, backoff, direct publisher, broker log; what can still become of a row, with exact conditions; which rows are due and which go first |
| `System`, `SystemProgress`, `SystemCopies` | the saga with both outboxes and their logs; it refines the saga and two copies of the outbox protocol; exactly when a PENDING booking can still be decided, and when a cancelled one can still give its seats back; how far the copies of a message agree |
| `Dispatcher`, `Repositories`, `Services` | the outbox statements, dispatchers, repositories and services as classes that update state in place |
| `Deduplication` | deliveries with repeats against deliveries without |
| `RateLimiter`, `RateLimiterTheorems`, `RateLimiterSwitching` | the in-memory limiter and the Redis script; the window of one key as their common reference; runs that change between the two |
| `EventCache`, `CachedEvents` | cache-aside event reads with interleaved readers and writers; the service class over its repository and the cache |
| `Fingerprint` | the request fingerprint and the string of its migration |

A transaction is one atomic step, because it commits or leaves nothing behind. Service methods are split at their awaits:
`createBooking` into lookup, transaction and conflict resolution, `cancelBooking` into read and transaction, the
reservation handler into commit, publish and mark, the dispatcher into lock, commit, publish, mark and failure record.
A process can disappear between any two of these. A consumer may be handed any message of the log any number of times and
in any order. Statements can be lost, or carried out while the caller sees an error; a publish can be acknowledged,
rejected, or carried out without an acknowledgement. Identifiers drawn with `randomUUID` hit nothing that exists. Clocks,
draws and the outcome of every call are inputs of the steps.

Each class method is proved against a function of the old state, or against a run of a protocol while other processes
take their turns. `Repositories` ties the tables to the functions the saga is built from, `Dispatcher` and `Services` tie
the loops and handlers to the outbox protocol, and `System` ties all of it together.

## Where code and documentation differ

The model follows the code.

- `README.md:101` and `docs/architecture.md:102` of the platform send FAILED outbox rows to a dead-letter queue. No code
  does. A FAILED row stays FAILED exactly as long as no acknowledged direct publisher marks it; that mark does not ask for
  the status and makes the row PUBLISHED (`FailedIsFinalExactly`, `LateMarkPublishes`). Whether that can still happen shows
  beforehand: exactly when a direct publisher has the row in hand (`FailedCanLeaveExactly`). booking-service has no direct
  publisher, so there FAILED is final (`BookingFailedIsFinal`).
- `docs/architecture.md:98` says that SKIP LOCKED leaves each row to a single worker. A row that one worker has in its batch
  can be claimed by another one at that moment exactly when no claim statement holds the row, it has attempts left, it is
  due after a recorded failure or its claim is more than 60 s old, and fewer claimable rows are older than one claim takes,
  which is 25 (`SharedExactly`); and at some later moment exactly when it is neither PUBLISHED, nor FAILED, nor at its eighth
  claim (`SharedLaterExactly`). `SlowWorkersShare` is such a run.
  Workers that resolve every row within 60 s of its claim never share one (`PromptWorkersDoNotShare`).
- The failure message that `reserveSeats` publishes itself is built a second time. Two copies that differ reach the log in
  some run exactly when the seats were refused and the two were built at different times (`CopiesDifferExactly`). They
  differ in the timestamp alone (`CopiesAgree`), and every other message is published as it is stored (`CopiesAreExact`).
- An empty idempotency key is tested for truthiness in the code, so it is neither recorded nor looked up, yet it is stored
  under a unique index. The second booking with an empty key fails (`EmptyKeyWorksOnce`; `SecondEmptyKeyFails` is a run).
- The fallback limiter gives a key the answers of the Redis script, over a whole run of requests, exactly when windows last
  at least a second and no request for the key follows its eviction from a full store before the evicted window would
  have ended (`FallbackRefinesScript`; `NoWindowNoRefinement` and `EvictionForgets` are inputs on which it fails).
- A fixed window lets fewer than twice the maximum through in any interval of its length: at most 2 × maximum − 1, which is
  reached (`BoundIsReached`). Each eviction of the key within the interval can add the maximum once more, unless it is harmless
  (`FixedWindowBound`). With Redis there are no evictions (`ScriptBound`); while Redis comes and goes, the two bounds add
  up (`SwitchingBound`), and the sum is reached (`SwitchingBoundIsReached`).
- A cache hit is the newest version exactly when no write follows the load behind the SET it reads (`HitIsNewestExactly`).
  If no read overlaps a write and every delete arrives, it is the current row (`CalmHitIsCurrent`); `OverlapServesStale` and
  `LostDeleteServesStale` are runs where it is not.
- Colons inside ids make two fingerprints collide (`ColonsCollide`); `FingerprintIsExact` therefore asks for colon-free ids, which UUIDs are.

## Model

| member | source | states |
|---|---|---|
| SagaInvariant.StepKeepsInv | services/event-service/src/modules/inventory/inventory.repository.ts:130-294 | every step of every service keeps bookings, rows, seat ledger, idempotency records, pending cancellations and notifications consistent |
| SagaInvariant.ReachableInv | services/booking-service/src/modules/bookings/booking.repository.ts:144-460 | the saga invariant holds after any run from empty databases |
| SagaTheorems.SeatLedger | services/event-service/src/modules/inventory/inventory.repository.ts:130-294 | in every reachable state total − available of an event is the sum of the quantities of bookings that took seats and did not give them back; 0 for a missing event |
| SagaTheorems.ReleaseIsNeverRefused | services/event-service/src/modules/inventory/inventory.repository.ts:233-294 | the first delivery of any cancellation releases its seats, the later ones are duplicates, whatever resizes and deletes ran in between |
| SagaTheorems.NoOverselling | services/booking-service/src/modules/bookings/booking.repository.ts:335-346 | confirmed quantity ≤ total − available ≤ total for every event, always |
| SagaTheorems.Conservation | tests/load/booking-load.js:148-149 | with nothing of an event in flight, confirmed quantity plus available seats is the capacity |
| SagaTheorems.OneReply | services/event-service/src/modules/inventory/inventory.repository.ts:148-229 | a reserve message has exactly one reply row once processed and none before; success and failure exclude each other; the booking counts as having taken seats exactly with a success (the seats themselves are in SeatLedger and ReplyReportsTheSeats) |
| SagaTheorems.ReplyReportsTheSeats | services/event-service/src/modules/inventory/inventory.repository.ts:148-229 | deciding a reserve message takes the seats exactly when they are there and adds exactly the row that says so, field by field; a refusal says INSUFFICIENT_SEATS if the event was seen and EVENT_NOT_FOUND if not |
| SagaTheorems.ReplyDecidesBooking | services/booking-service/src/modules/bookings/booking.repository.ts:309-460 | a reply is unprocessed exactly while its booking is PENDING; its first delivery makes the booking CONFIRMED or FAILED as the reply says |
| SagaTheorems.PendingHasAMessage | services/booking-service/src/infrastructure/messaging/consumers/seats-reserved.consumer.ts:22-134 | a PENDING booking waits for exactly one unprocessed message: its reserve message, or else its one reply |
| SagaTheorems.RowsTellStatus | services/booking-service/src/modules/bookings/booking.repository.ts:144-460 | one RESERVE_SEATS row per booking, and one confirmed, failed or cancelled row exactly when the booking has reached that status |
| SagaTheorems.RowsCarryTheirBooking | services/booking-service/src/modules/bookings/booking.repository.ts:161-199 | every row of both outboxes names an existing booking and carries its event, user and quantity |
| SagaTheorems.MalformedIsRefused | packages/contracts/src/index.ts:80-123 | no handler sees a message of another topic, with another payload, or without a positive number of seats |
| SagaTheorems.RowsSayWhatHappened | services/booking-service/src/modules/bookings/booking.service.ts:44-127 | a step of booking-service that changes a booking adds one row, and the row is the message about that step, field by field |
| SagaTheorems.StepMovesBooking | services/booking-service/src/modules/bookings/booking.repository.ts:267-306 | a step leaves a booking alone or moves it along one edge of its life; its terms never change |
| SagaTheorems.HistoryOfBooking | services/booking-service/src/modules/bookings/booking.repository.ts:320-459 | over any run the status follows PENDING→CONFIRMED→CANCELLED or PENDING→FAILED, and rows, records, processed ids and notifications are never lost or changed |
| SagaTheorems.CallsGoOnExactly | services/booking-service/src/modules/bookings/booking.service.ts:28-75 | what a create call is told at the lookup and what becomes of it in the transaction, case by case |
| SagaTheorems.CreatesLinearise | services/booking-service/src/modules/bookings/booking.service.ts:28-75 | every ended call with a key got the one stored response, or was rejected because its fingerprint differs |
| SagaTheorems.OneBookingPerKey | services/booking-service/src/modules/bookings/booking.repository.ts:160-217 | a used key belongs to one booking with one RESERVE_SEATS row, and the stored response describes that booking |
| SagaTheorems.RecordsAreComplete | services/booking-service/src/modules/bookings/booking.repository.ts:201-213 | a booking with a non-empty key always has its record, so the last-resort lookup never finds one without |
| SagaTheorems.ConflictsAreAnswered | services/booking-service/src/modules/bookings/booking.repository.ts:200-217 | resolving a unique violation of a key answers from the record and writes nothing |
| SagaTheorems.ConflictsEndExactly | services/booking-service/src/modules/bookings/booking.repository.ts:200-217 | for any tables, a conflict ends with the record of the key, else with a booking of that key, else with the error |
| SagaTheorems.UsedKeyWritesNothing | services/booking-service/src/modules/bookings/booking.repository.ts:160-217 | a transaction that finds its key used leaves both databases unchanged |
| SagaTheorems.EmptyKeyWorksOnce | services/booking-service/src/modules/bookings/booking.service.ts:29-30 | a second booking with an empty key fails and changes nothing |
| SagaTheorems.NotificationsAreTrue | services/notification-service/src/modules/notifications/notification-consumer.ts:22-105 | a stored notification implies its booking reached that status, carries the booking's event, and for a failure the very reason of event-service's reply |
| SagaTheorems.NotificationsAreUnique | services/notification-service/src/infrastructure/notifications/notification.repository.ts:14-39 | at most one notification of each type per booking, never both confirmed and failed |
| SagaExample.SeatsGoThereAndBack | services/event-service/src/modules/inventory/inventory.repository.ts:130-294 | a reachable state in which a booking was confirmed, cancelled and released, and its event has all seats again |
| SagaExample.SecondEmptyKeyFails | services/booking-service/src/modules/bookings/booking.service.ts:29-30 | a reachable state with a booking under the empty key, in which the next request with it passes the lookup and errors in its transaction |
| Bookings.CreateIsExact | services/booking-service/src/modules/bookings/booking.repository.ts:144-218 | a request is refused exactly for its quantity or a unique index; otherwise booking, record and row are stored, and the answer is the booking as stored |
| Bookings.ReplyIsExact | services/booking-service/src/modules/bookings/booking.repository.ts:309-460 | what each answer to a reply leaves in the tables; an applied one is answered with the booking as stored, in its new status on the old terms |
| Bookings.RefusalIsExact | services/booking-service/src/modules/bookings/booking.repository.ts:92-117 | the reported refusal of a reply is the first condition of the guard that fails |
| Bookings.CancelIsExact | services/booking-service/src/modules/bookings/booking.repository.ts:259-307 | only a CONFIRMED booking is cancelled, with its row, and answered as stored then: CANCELLED, on the old terms; the other answers change nothing and tell why |
| Inventory.ReserveIsExact | services/event-service/src/modules/inventory/inventory.repository.ts:130-231 | each answer to a reserve message, its cause and what it leaves; the event answered is the one stored, the reason tells whether the event was seen |
| Inventory.ReleaseUndoesReserve | services/event-service/src/modules/inventory/inventory.repository.ts:130-294 | releasing a reservation restores the event row exactly |
| Inventory.ReleaseIsExact | services/event-service/src/modules/inventory/inventory.repository.ts:256-292 | each answer to a release, its cause and what it leaves; the event answered is the one stored |
| Inventory.ResizeIsExact | services/event-service/src/modules/events/event.repository.ts:69-99 | a resize succeeds exactly when the reserved seats fit, keeps them, and is undone by resizing back; a capacity below them is answered as such |
| Inventory.AdministrationIsExact | services/event-service/src/modules/events/event.repository.ts:35-109 | each answer to a create, resize or delete has one cause, and only a success changes the table |
| Notifications.AppendsCommute | services/notification-service/src/infrastructure/notifications/notification.repository.ts:14-39 | a repeated message changes nothing, and different messages can arrive in either order |
| OutboxInvariant.StepKeepsInv | services/booking-service/src/modules/bookings/booking.repository.ts:514-610 | every step of the outbox protocol keeps rows, attempts history, locks, batches and log consistent |
| OutboxLifetime.RecordedFailureIsCurrent | services/booking-service/src/modules/bookings/booking.repository.ts:598-608 | in every reachable state a failure that takes effect is that of the row's current claim: same attempt number, same claim time, backoff of that attempt, FAILED exactly at the eighth |
| OutboxInvariant.StepKeepsContent | services/booking-service/src/modules/bookings/booking.repository.ts:549-557 | an insert adds its row and message; no other step changes which rows and messages the table holds |
| OutboxAge.NewRowIsClaimable | services/booking-service/src/modules/bookings/booking.repository.ts:538-542 | a row inserted in any reachable state can be claimed at that moment |
| OutboxAge.UnclaimedIsClaimable | services/booking-service/src/modules/bookings/booking.repository.ts:538-542 | in every reachable state a PENDING row without attempts is due |
| OutboxAge.EarlierInsertsGoFirst | services/event-service/src/modules/inventory/inventory.repository.ts:311-312 | over any run, a claim that takes a row takes every claimable row inserted earlier |
| OutboxAge.EarlierInsertsLeadTheBatch | services/booking-service/src/modules/bookings/booking.repository.ts:545-546 | in a batch that goes by age the row inserted earlier comes earlier |
| OutboxAge.ClaimTakesTheOldest | services/booking-service/src/modules/bookings/booking.repository.ts:537-548 | a claim statement can take a set of rows exactly when they are claimable, as many as the limit allows, and none left behind is older |
| OutboxAge.AnythingCanFail | services/booking-service/src/modules/bookings/booking-outbox.dispatcher.ts:65-98 | at any moment a process can disappear, a send be rejected or stored unacknowledged, a statement be lost |
| OutboxAge.CrashIsForGood | services/booking-service/src/modules/bookings/booking-outbox.dispatcher.ts:44-63 | a crashed worker takes no step in any run |
| OutboxAge.PublisherEndsForGood | services/event-service/src/modules/inventory/inventory.service.ts:105-135 | a direct publisher whose send or mark threw, that has marked or crashed takes no further step in any run |
| OutboxTheorems.PublishedIsTruthful | services/event-service/src/modules/inventory/inventory.repository.ts:341-353 | a row marked PUBLISHED has its message in the log, even with stale workers and the unowned mark |
| OutboxTheorems.PublishedIsFinal | services/event-service/src/modules/inventory/inventory.repository.ts:341-374 | PUBLISHED never changes again in any run, and the log only grows |
| OutboxLifetime.FailedIsFinalExactly | services/event-service/src/modules/inventory/inventory.repository.ts:341-375 | over any run a FAILED row stays FAILED exactly when no direct publisher's mark takes effect on it, and otherwise ends PUBLISHED |
| OutboxLifetime.LateMarkPublishes | services/event-service/src/modules/inventory/inventory.repository.ts:350-351 | any acknowledged direct publisher can still mark a FAILED row PUBLISHED |
| OutboxLifetime.FailedCanLeaveExactly | services/event-service/src/modules/inventory/inventory.repository.ts:341-353 | in a reachable state some run takes a FAILED row out of FAILED exactly when a direct publisher has it in hand, acknowledged or not |
| OutboxTheorems.CopiesAgree | services/event-service/src/modules/inventory/inventory.service.ts:35-67 | all published copies of one message id agree on topic, correlation id and payload and come from one row |
| OutboxTheorems.PublishedAtMostAttempts | services/booking-service/src/modules/bookings/booking-outbox.dispatcher.ts:65-98 | dispatchers publish a row at most `attempts` times, and attempts ≤ 8 |
| OutboxTheorems.RetryGap | services/booking-service/src/modules/bookings/booking-outbox.dispatcher.ts:93-94 | the gap after the k-th claim is at least min(2^(k−1), 60) s: the full backoff after a recorded failure, more than 60 s without one |
| OutboxTheorems.BackoffDoubles | services/booking-service/src/modules/bookings/booking-outbox.dispatcher.ts:93-93 | over the eight attempts the delay doubles from 1 s to 128 s, so the cap of 300 s is never reached |
| OutboxTheorems.HistoryIsCurrent | services/booking-service/src/modules/bookings/booking.repository.ts:536-557 | a row's attempts number is the number of its claims, and a claimed row's claim time is that of the last |
| OutboxTheorems.EighthClaimIsLate | services/booking-service/src/modules/bookings/booking-outbox.dispatcher.ts:44-63 | the eighth claim of any row is at least 123 s after the first |
| OutboxTheorems.FailedAfterEightClaims | services/booking-service/src/modules/bookings/booking.repository.ts:591-610 | a row whose every attempt failed and was recorded is FAILED exactly after eight claims, at least 127 s after the first |
| OutboxTheorems.DispatcherSpendsWork | services/booking-service/src/modules/bookings/booking.repository.ts:536-610 | each claim or bookkeeping step of a dispatcher uses up work for every row it changes |
| OutboxTheorems.DispatchersTerminate | services/booking-service/src/modules/bookings/booking-outbox.dispatcher.ts:44-98 | over any run, dispatchers change rows at most sixteen times per inserted row |
| OutboxTheorems.Quiescence | services/booking-service/src/modules/bookings/booking.repository.ts:538-547 | as a row stands, no wait makes it claimable exactly when it is PUBLISHED, FAILED, or PROCESSING at its eighth attempt |
| OutboxLifetime.SettledForever | services/booking-service/src/modules/bookings/booking.repository.ts:536-610 | such a row stays such a row, with the same attempts, in every run |
| OutboxLifetime.SettledExactly | services/booking-service/src/modules/bookings/booking.repository.ts:536-557 | no run ever claims a row again exactly when it is such a row; any other row is claimed again by some run of claims of 25 |
| OutboxLifetime.DeliverableExactly | services/booking-service/src/modules/bookings/booking-outbox.dispatcher.ts:44-98 | some run brings a row's message to the broker exactly when it is there, the row can still be claimed, or a worker or direct publisher has it in hand unsent; claims of 25 suffice |
| OutboxTheorems.ConcurrentClaimsAreDisjoint | services/booking-service/src/modules/bookings/booking.repository.ts:537-548 | two claims under way hold disjoint rows |
| OutboxTheorems.SharedRowIsStale | services/booking-service/src/modules/bookings/booking.repository.ts:543-544 | a row in two workers' batches was claimed twice, more than 60 s apart |
| OutboxTheorems.PromptWorkersDoNotShare | services/booking-service/src/modules/bookings/booking-outbox.dispatcher.ts:51-59 | if every batched record is at most 60 s old, no row is in two batches |
| OutboxLifetime.SharedExactly | services/booking-service/src/modules/bookings/booking.repository.ts:537-548 | a claim of `limit` rows by an idle worker can take the row of another worker's batch exactly when no claim holds it, attempts < 8, it is due or its claim is more than 60 s old, and fewer than `limit` claimable rows are older |
| OutboxLifetime.SharedLaterExactly | docs/architecture.md:98 | however slow a worker is, some other worker can get its row into a batch exactly when the row is not PUBLISHED, FAILED or at its eighth claim; claims of 25 suffice |
| OutboxTheorems.SlowWorkersShare | docs/architecture.md:98 | a reachable state in which two workers hold and have published the same row |
| Dispatcher.OutboxTable.ClaimOutboxMessages | services/booking-service/src/modules/bookings/booking.repository.ts:514-575 | takes at most `limit` claimable unlocked rows, none younger than a claimable row left behind, and updates exactly those; the batch goes by age (ages are times of insertion by OutboxAge.EarlierInsertsGoFirst) |
| Dispatcher.OutboxTable.MarkOutboxPublished | services/event-service/src/modules/inventory/inventory.repository.ts:341-353 | the mark, owned or unowned, on the table in place |
| Dispatcher.OutboxTable.RecordOutboxFailure | services/event-service/src/modules/inventory/inventory.repository.ts:355-375 | the failure record on the table in place |
| Dispatcher.OutboxDispatcher.PublishRecord | services/booking-service/src/modules/bookings/booking-outbox.dispatcher.ts:65-98 | hands exactly its record to the broker and moves to the next; each of its steps is the one due as its awaits turn out: a mark after an acknowledged send, a failure record when the send or the mark threw, no effect while a claim has the row locked |
| Dispatcher.OutboxDispatcher.Claim | services/booking-service/src/modules/bookings/booking-outbox.dispatcher.ts:51-56 | locks the oldest claimable rows up to the limit, commits them or is rolled back, and hands over a record of each new claim, oldest first, if it returns |
| Dispatcher.OutboxDispatcher.DispatchPending | services/event-service/src/modules/events/event-outbox.dispatcher.ts:44-63 | does nothing while draining; otherwise starts with that claim and hands exactly its records to the broker, each once, in order, every later step being the one due as the awaits of its record turn out |
| Dispatcher.ArrivesExactly | services/booking-service/src/modules/bookings/booking-outbox.dispatcher.ts:59-98 | whatever others do, a call's claimed record is on the log afterwards exactly when the broker did not reject its send |
| Dispatcher.UndisturbedCallIsExact | services/booking-service/src/modules/bookings/booking-outbox.dispatcher.ts:44-98 | a call that nobody disturbs leaves each claimed row PUBLISHED, PENDING, FAILED or PROCESSING exactly as its awaits turned out, and every other row as it was |
| Repositories.BookingRepository.CreateBooking | services/booking-service/src/modules/bookings/booking.repository.ts:144-218 | the create transaction on the tables, and the answer a unique violation of a key leads to |
| Repositories.BookingRepository.Cancel | services/booking-service/src/modules/bookings/booking.repository.ts:259-307 | the cancel transaction on the tables, answered with the booking as stored |
| Repositories.BookingRepository.Reply | services/booking-service/src/modules/bookings/booking.repository.ts:309-460 | inbox, guarded update and outbox row in one commit, for both kinds of reply |
| Repositories.EventRepository.Reserve | services/event-service/src/modules/inventory/inventory.repository.ts:130-231 | the reserve transaction on the tables, with the reply row it adds, field by field; a refusal says INSUFFICIENT_SEATS exactly for an existing event |
| Repositories.EventRepository.Release | services/event-service/src/modules/inventory/inventory.repository.ts:233-294 | one event has that many seats fewer taken or nothing changes; every other event, the checks and the outbox stay; the message is processed |
| Repositories.EventRepository.Create | services/event-service/src/modules/events/event.repository.ts:35-53 | a new event has no seats taken; what is taken of other events stays; refused exactly for an existing id or no seats |
| Repositories.EventRepository.Update | services/event-service/src/modules/events/event.repository.ts:69-99 | never changes what is taken of any event; done exactly when the taken seats fit the new capacity, which it then has; each refusal has its cause |
| Repositories.EventRepository.Delete | services/event-service/src/modules/events/event.repository.ts:101-109 | done exactly for an event with no seats taken, which then is gone; what is taken of others stays |
| Repositories.NotificationRepository.Append | services/notification-service/src/infrastructure/notifications/notification.repository.ts:14-39 | each processed message keeps exactly one notification, that of its first delivery |
| Services.NotificationConsumer.Handle | services/notification-service/src/modules/notifications/notification-consumer.ts:22-105 | afterwards the message has its notification, the one of its first delivery, and no other has changed |
| Services.BookingsService.CreateBooking | services/booking-service/src/modules/bookings/booking.service.ts:22-93 | with any rivals committing between lookup and transaction, a keyed request is answered as its key's record says in the end, and writes only if the lookup found nothing |
| Services.BookingsService.CancelBooking | services/booking-service/src/modules/bookings/booking.service.ts:110-158 | with any rivals between read and transaction, the guarded transaction runs on what they left, a cancellation carries the booking's own event and quantity, and the answer is the booking as stored in the end |
| Services.InventoryService.ReserveSeats | services/event-service/src/modules/inventory/inventory.service.ts:32-137 | commit, publish and mark in this order, racing the dispatchers and cut off at any await, are a run of the outbox protocol; each ends as its call does, the mark without effect while a claim has the row locked; no mark without an acknowledged publish; stored reply and published copy are given field by field |
| Services.MarkPublishesForGood | services/event-service/src/modules/inventory/inventory.service.ts:105-130 | a mark of the handler that takes effect leaves its row PUBLISHED in every later run |
| Services.InventoryService.ReleaseSeats | services/event-service/src/modules/inventory/inventory.service.ts:139-192 | an invalid quantity is an error before anything is written; otherwise the release transaction, and the message is processed |
| System.SystemRefines | services/event-service/src/modules/inventory/inventory.service.ts:32-137 | every reachable system state projects to reachable states of the saga and of both outbox protocols, and the tables agree |
| System.EveryTransactionRuns | packages/contracts/src/index.ts:80-123 | no delivery off the logs is refused by its schema and no transaction by a unique index of an outbox |
| System.LogsAreTruthful | services/booking-service/src/modules/bookings/booking-outbox.dispatcher.ts:65-67 | whatever a log holds is a copy of an outbox row |
| System.RepliesDoNotConflict | services/event-service/src/modules/inventory/inventory.service.ts:93-127 | no booking ever has both a success and a failure reply in the log |
| SystemProgress.BookingEntriesCanBeDelivered | services/event-service/src/infrastructure/messaging/consumers/reserve-seats.consumer.ts:1-10 | every entry of booking-service's log can be received at any time by each of its consumers |
| SystemProgress.EventEntriesCanBeDelivered | services/booking-service/src/infrastructure/messaging/consumers/seats-reserved.consumer.ts:22-134 | every entry of event-service's log can be received at any time by booking-service |
| SystemProgress.DeliveredNotesAreStored | services/notification-service/src/modules/notifications/notification-consumer.ts:22-105 | a delivered confirmation, failure or cancellation is stored as its notification, field by field, unless it was before |
| System.CancellationsAreCarriedOut | services/event-service/src/modules/inventory/inventory.repository.ts:263-292 | a cancellation read off the log gives its seats back or did so before |
| SystemProgress.ReachableSound | services/event-service/src/modules/inventory/inventory.repository.ts:131-146 | none of the three consumers has processed a message that its producer's log does not hold |
| SystemProgress.BookingFailedIsFinal | services/booking-service/src/modules/bookings/booking-outbox.dispatcher.ts:93-97 | over any run of the system a FAILED row of booking-service stays FAILED |
| SystemProgress.PendingCanBeDecidedExactly | services/booking-service/src/modules/bookings/booking-outbox.dispatcher.ts:65-98 | a PENDING booking can be decided by some run exactly when the one message it waits for is in its log or can still be published; claims of 25 suffice |
| SystemProgress.SeatsCanComeBackExactly | services/booking-service/src/modules/bookings/booking-outbox.dispatcher.ts:65-98 | a cancelled booking can give its seats back in some run exactly when its cancellation is in the log or can still be published; otherwise they count as taken after every run |
| SystemCopies.CopiesAreExact | services/event-service/src/modules/inventory/inventory.service.ts:35-47 | every message on either log is the stored one, timestamp included, unless it reports a refused reservation |
| SystemCopies.CopiesDifferExactly | services/event-service/src/modules/inventory/inventory.service.ts:82-107 | after a reserve message is answered, two different copies of the answer reach the log in some run exactly when the seats were refused and the handler's envelope has another time than the stored one |
| Deduplication.ExactlyOnce | services/event-service/src/modules/inventory/inventory.repository.ts:131-146 | over any trace the three databases end up as after the same trace without rolled-back deliveries and without later repeats of a message |
| Deduplication.FirstOnlyHasNoRepeats | services/booking-service/src/modules/bookings/booking.repository.ts:323-333 | the trace without repeats delivers each message at most once to each consumer |
| RateLimiter.Limiter.DeleteExpired | services/event-service/src/middleware/rate-limiter.ts:27-31 | deleting while iterating leaves exactly the live entries in order |
| RateLimiter.Limiter.ConsumeFallback | services/event-service/src/middleware/rate-limiter.ts:26-43 | the in-place store and the answer are those of the specification |
| RateLimiter.Limiter.Handle | services/event-service/src/middleware/rate-limiter.ts:63-88 | a Redis reply is used when there is one, header by header, and leaves the store alone; otherwise the fallback answers |
| RateLimiter.FallbackIsBounded | services/event-service/src/middleware/rate-limiter.ts:33-40 | over any requests, in any order of time, the store has distinct keys and at most max(1, maxFallbackEntries) of them; requests in order of time leave it in order of expiry |
| RateLimiter.EmptyKeyIsNotEvicted | services/event-service/src/middleware/rate-limiter.ts:33-37 | an oldest entry under an empty key is never pushed out, and the store grows past its bound instead |
| RateLimiter.EvictedExpiresFirst | services/event-service/src/middleware/rate-limiter.ts:34-37 | an entry is pushed out only from a full store, and none in it would expire sooner |
| RateLimiterTheorems.FallbackIsAWindow | services/event-service/src/middleware/rate-limiter.ts:26-43 | over any requests a key is answered by its own requests and evictions alone |
| RateLimiterTheorems.RedisIsAWindow | services/event-service/src/middleware/rate-limiter.ts:12-18 | INCR, EXPIRE and TTL answer each key by the same window |
| RateLimiterTheorems.FallbackRefinesScript | services/event-service/src/middleware/rate-limiter.ts:70-80 | over any requests in order of time, count, ttl and reset time of a key equal those of the Redis script exactly when it has no requests, or windows last a second or more and no request follows an eviction before the evicted reset time |
| RateLimiterTheorems.EvictionForgets | services/event-service/src/middleware/rate-limiter.ts:34-37 | with room for one key, a key's second request counts 1 in the store and 2 in Redis |
| RateLimiterTheorems.NoWindowNoRefinement | services/event-service/src/middleware/rate-limiter.ts:42-76 | without a positive window they differ at the first request, in the ttl alone |
| RateLimiterTheorems.FixedWindowBound | services/event-service/src/middleware/rate-limiter.ts:26-49 | any interval as long as the window lets at most 2 × maxRequests − 1 requests of a key through, and maxRequests more for each eviction of the key in it; none more when its evictions are harmless |
| RateLimiterTheorems.BoundIsReached | services/event-service/src/middleware/rate-limiter.ts:26-49 | for every maximum and every window of two seconds or more some requests to the limiter reach that bound |
| RateLimiterTheorems.WindowLetsMaximumThrough | services/event-service/src/middleware/rate-limiter.ts:49-49 | for windows of at least a second, one window lets at most maxRequests through, and maxRequests more for each eviction in the second that opened it |
| RateLimiterSwitching.ScriptBound | services/event-service/src/middleware/rate-limiter.ts:12-18 | through the script, any interval as long as the window lets at most 2 × maxRequests − 1 requests of a key through |
| RateLimiterSwitching.ScriptLetsMaximumThrough | services/event-service/src/middleware/rate-limiter.ts:12-18 | through the script, one window of at least a second lets at most maxRequests through |
| RateLimiterSwitching.MixedPasses | services/event-service/src/middleware/rate-limiter.ts:70-83 | when Redis comes and goes, what passes is what the script and the store let through of their own requests; less if failed calls were counted by the script |
| RateLimiterSwitching.SwitchingBound | services/event-service/src/middleware/rate-limiter.ts:70-83 | then any interval as long as the window lets at most 2 × (2 × maxRequests − 1) through, and maxRequests more for each eviction of the key in it |
| RateLimiterSwitching.SwitchingBoundIsReached | services/event-service/src/middleware/rate-limiter.ts:70-83 | for every maximum and every window of two seconds or more some requests answered in turns reach that bound |
| RateLimiterTheorems.RemainingIsTruthful | services/event-service/src/middleware/rate-limiter.ts:45-49 | of any further requests before the reset time, exactly as many pass as the remaining header says |
| RateLimiterTheorems.RetryAfterIsExact | services/event-service/src/middleware/rate-limiter.ts:49-57 | a rejected client that waits the announced seconds finds a new window, and not a second sooner; the headers name the maximum and the reset time |
| EventCache.AnswersAreTruthful | services/event-service/src/modules/events/event.service.ts:17-73 | in any interleaving and with any cache failures, every answer was the committed row, read during the call or less than the TTL plus its reader's delay ago |
| EventCache.CalmHitIsCurrent | services/event-service/src/modules/events/event.service.ts:60-105 | if no read overlaps a write and every delete arrives, a hit is the current row |
| EventCache.HitIsNewestExactly | services/event-service/src/modules/events/event.service.ts:60-105 | in any run a live cached copy is the newest version exactly when no write follows the load behind the SET that stored it |
| EventCache.AnyCallCanFail | services/event-service/src/modules/events/event.service.ts:17-45 | in any state a cache call can fail, with or without its command on the way, and a reader can disappear |
| EventCache.CopiesExpire | services/event-service/src/modules/events/event.service.ts:66-72 | time passes, and no cached copy outlives its time to live |
| EventCache.OverlapServesStale | services/event-service/src/modules/events/event.service.ts:66-72 | a run in which a cache write that overlaps an update leaves the old row to be hit |
| EventCache.LostDeleteServesStale | services/event-service/src/modules/events/event.service.ts:38-45 | a run in which a failed delete alone leaves the old row to be hit |
| CachedEvents.EventsService.GetEventById | services/event-service/src/modules/events/event.service.ts:60-73 | a run of the cache protocol that answers a committed row within the staleness bound, or nothing when the row is gone; a live hit leaves the cache, after a miss an answered SET leaves the row read in it |
| CachedEvents.EventsService.InvalidateCached | services/event-service/src/modules/events/event.service.ts:38-45 | a delete that arrives empties the cache, one that fails changes nothing |
| CachedEvents.EventsService.CreateEvent | services/event-service/src/modules/events/event.service.ts:47-54 | a new version with all seats available, and an untouched cache |
| CachedEvents.EventsService.UpdateEvent | services/event-service/src/modules/events/event.service.ts:75-93 | commits the capacity change, then invalidates; a refusal names its cause and changes neither row nor cache |
| CachedEvents.EventsService.DeleteEvent | services/event-service/src/modules/events/event.service.ts:95-105 | commits the deletion, then invalidates; a refusal names its cause and changes neither row nor cache |
| Fingerprint.FingerprintIsExact | services/booking-service/src/modules/idempotency/request-fingerprint.ts:7-14 | for colon-free ids, fingerprints are equal exactly when quantities are, and the ids but for the case of letters and white space around them |
| Fingerprint.FingerprintLayout | services/booking-service/src/modules/idempotency/request-fingerprint.ts:7-14 | the string: version, both ids in lower case without the space around them, quantity, joined by colons |
| Fingerprint.LowerIsExact | services/booking-service/src/modules/idempotency/request-fingerprint.ts:10-11 | lower case has no capital left, keeps every other character and the letters |
| Fingerprint.DecimalIsExact | services/booking-service/src/modules/idempotency/request-fingerprint.ts:12-12 | the digits stand for the quantity, without a leading zero |
| Fingerprint.ColonsCollide | services/booking-service/src/modules/idempotency/request-fingerprint.ts:7-14 | two different requests with colons in their ids and the same fingerprint |
| Fingerprint.BackfillAgrees | services/booking-service/prisma/migrations/20260817010000_add_idempotency_fingerprint_and_constraints/migration.sql:4-14 | the migration stored the very string the code computes |
| Fingerprint.TrimIdempotent | services/booking-service/src/modules/idempotency/request-fingerprint.ts:10-11 | trimming twice is trimming once, so trimmed ids meet the condition of the backfill |

## Left out

- Controllers, routers, logging, metrics, health checks, deployment files: no algorithmic content.
- Kafka and Redis clients, consumer retry loops and offsets: the network is a growing log from which anything is delivered any number of times; that every message is delivered at all is not claimed.
- `markConfirmed`, `markFailed` and `updateStatus`: they set a status without a guard, and no service calls them.
- Direct `reserveSeats`, `releaseSeats` and `markMessageProcessed` of the inventory repository, `storeIdempotencyKey`: not wired in.
- Titles, dates and row timestamps other than the claim, backoff and cache clocks; `lastError` and `publishedAt`.
- Clock skew: each database has one clock that never runs backwards; integers are unbounded.
- Textual forms of UUIDs: identifiers are canonical values that can only be compared.
- A statement whose client gave up while it waited for a row lock: it can take effect later; here a call takes effect when it is made or never.
- Isolation below a statement: a transaction is atomic, and the follow-up read of a refused reservation may see either outcome.
- Dispatcher.OutboxDispatcher.Claim: runs its claim statement without interruption; the protocol itself splits it into lock and commit.
- Dispatcher.OutboxTable.ClaimOutboxMessages: returns the rows by creation time; the protocol allows any order, as RETURNING does.
- Services.BookingsService.CreateBooking: does not wake the dispatcher, which is a separate call; drawn ids are unused.
- Services.InventoryService.ReserveSeats: the cache delete between commit and publish is in the cache model, not here; other handlers' transactions on the same database are rivals in the saga, not in this method.
- RateLimiterTheorems.FallbackRefinesScript: a key expires at its second, without Redis's millisecond edge; requests carry whole seconds in order.
- RateLimiterSwitching.SwitchingBound: requests come in order of time, as in all bounds on what passes.
- RateLimiter.FallbackIsBounded: keys are not empty, as the middleware builds them from a prefix; `EmptyKeyIsNotEvicted` shows what an empty one would do.
- Fingerprint.FingerprintIsExact: white space and letters are those of ASCII.
- Pagination, users, environment parsing and DTO mapping: they would only add easy members.
