# inspect-service: a verified model of its asynchronous protocol

The service creates one inspection per scheduled request, lets inspectors edit and
complete it, and announces each completion on Kafka. Four parts share Postgres,
Redis and Kafka and interleave freely: service calls (read, decide, write), the
completing transaction with its outbox insert, any number of polling outbox
relays, and the inbound consumer with its expiring dedup marks.

`InspectService` is one state machine over all of them. An action is one SQL
statement or transaction boundary, one Redis or Kafka command, the local code
between two of them, or a fault: a crash, a failed statement, a statement that was
applied although its reply was lost, the expiry of a mark, a late copy of a failed
publish. A `Trace` is a list of scheduled actions and `End` the state it leads to;
every theorem is about all traces.

`World.Services` holds the same state in mutable fields. Each of its methods is one
statement; before it takes effect, `Interfere` lets everybody else do anything the
state machine allows. The classes `PostgresRepository`, `Deduplicator`,
`InspectionService`, `Relay` and `Consumer` follow the code statement by statement
on top of it, and `Valid()` keeps the fields equal to the end of the recorded trace,
so each theorem about traces holds of them under any interference.

| file | content |
|---|---|
| Domain | rows, patches, events, storage resolution |
| Lifecycle, LifecycleInvariant | tables and calls in flight; what every action keeps |
| OutboxRelay, RelayInvariant | the relays; the query; publish order as an invariant |
| InboundConsumer, ConsumerInvariant | the consumer; marks and orphans |
| InspectService | the whole service, traces, reachability |
| CallHistory, Completion, Updates, Stamps, Staleness, Photos | theorems on calls and tables |
| Schedules | how any run can go on by one call or the reader alone |
| Delivery, PublishOrder, Drain | theorems on Kafka output |
| Dedup | loss, and the consumer without a cache |
| Refinement | the abstract machine per request |
| CounterRuns | concrete runs for what the service does not promise |
| World, Repository, Service, Loops | the mutable services and the code on top of them |

## Assumptions

- A UUID is fresh when drawn. Clock readings are arbitrary; `collided` records that
  one was drawn twice for one inspection at the column's microsecond resolution. What
  the optimistic lock needs is less (`NoStampReused`), and only `UpdatesAreSerial`, the
  contract of `InspectionService.Update` and `EventInspectorIsStaleExactlyWhen` need
  that. `StampGoesBackExactlyWhen` assumes a clock that rises.
- An inbound event id determines what its message asks for.
- A successful publish left at least one copy in the log, a failed one any number, and
  after either more may arrive later. The log is the order in which the brokers accepted copies.
- One partition of request.events with one active reader.
- Each Redis command is sent once. A client that sent SET NX again after a lost reply
  would be told of a duplicate without any fault that the model counts.
- A transaction holds its row from its guarded update to its end; a statement that
  matches a held row waits, or its call fails. No statement deletes a row.

## What the service does not promise

The comment at internal/service/inspection.go:142 calls a completed inspection frozen,
and the one at migrations/000002_create_outbox_table.up.sql:3 says that rows can be
published in insertion order. The code keeps neither in general; the other points below
are not promised anywhere. Each comes with the exact condition, for all runs except where
a bullet says otherwise.

- Photos: a completed inspection's photos are frozen exactly when no AddPhoto call
  still holds a scheduled snapshot of it (`Photos.FrozenExactlyWhen`); otherwise the
  bound of `LatePhotosAreBounded` is reached in some run.
- Updates: any patch can still be applied to any completed inspection
  (`Updates.CompletedStillUpdates`).
- Order: rows are published in id order exactly when their commits did not overtake
  each other (`PublishOrder.OrderIsCommitOrder`).
- The optimistic lock: it proves that nobody wrote in between exactly when no write in
  between stored the same stamp again (`Updates.LockHoldsExactlyWhen`).
- Schedules: a step puts an event at risk of being consumed without effect exactly when
  it orphans its mark (`Dedup.RiskOpensExactlyWhen`), which one of three faults does
  (`Dedup.OrphanedExactlyWhen`).
- updated_at: in runs whose clock rises, it goes back exactly when a completion commits
  that a later stamped update has overtaken (`Staleness.StampGoesBackExactlyWhen`).
- The event's inspector: in runs in which no passing update met a stamp stored again, it
  is not the row's exactly when the updates that passed since the read name another one
  (`Staleness.EventInspectorIsStaleExactlyWhen`).
- The event's photo count is stale exactly when a photo was inserted after the second
  query of the completing call (`Photos.EventCountIsStaleExactlyWhen`).

## Model

| member | source | states |
|---|---|---|
| Refinement.StepRefines | internal/service/inspection.go:24-167 | every step of any interleaving of calls, consumer and relays, with all faults, leaves all requests where they are or moves exactly one request to its next stage (unknown, scheduled, completed, announced) |
| Refinement.StagesInOrder | internal/repository/postgres.go:25-159 | between any two states of a run a request's stage does not fall, and passes through every stage in between |
| InspectService.Reachable | internal/kafka/consumer.go:66-131 | the joint invariant of tables, calls, relays, marks and orphans holds after every run |
| InspectService.ExtendsIsLater | internal/repository/postgres.go:92-167 | no continuation takes back a row's identity, a completion, an outbox row, a photo, a log entry or the result of a call |
| LifecycleInvariant.StepKeepsInv | internal/repository/postgres.go:94-167 | every statement and transaction keeps requests unique, events tied to completed rows, pending outbox ids and event ids apart, and at most one transaction per row |
| Completion.Atomicity | internal/repository/postgres.go:112-159 | an inspection is completed iff exactly one outbox row carries it and scheduled iff none does; each row has the topic, type and event id of its payload and is addressed by its inspection's request; no two rows share a request |
| Completion.Stability | internal/repository/postgres.go:119-125 | once completed, id, request, status and completion time are the same in every continuation, and the same outbox row speaks for the inspection there |
| Completion.CompletedIsSpokenFor | internal/domain/events.go:43-61 | a completed inspection has a queued row whose payload agrees with the stored completion time up to storage rounding, and every copy in the log carries that payload |
| Completion.WinnerIsUnique | internal/service/inspection.go:97-132 | at most one Complete call on an inspection is told it succeeded |
| Completion.WinnerCommitted | internal/repository/postgres.go:140-143 | a call that was told Success performed the commit |
| Completion.LoserWroteNothing | internal/repository/postgres.go:119-138 | no step of a Complete call that ends with NotFound, InvalidStatus or Conflict changes inspections, outbox or photos |
| Completion.ConflictWasOvertaken | internal/repository/postgres.go:129-138 | every call told Conflict read a scheduled row, and between that read and its guarded write another call committed a completion of the same inspection |
| Completion.ReadIsNeverNotFound | internal/repository/postgres.go:213-224 | after a successful read no call ever reports NotFound |
| CallHistory.FindRead | internal/service/inspection.go:59-167 | every call that is past its read did read an existing row at some point of the run |
| CallHistory.KeepsOrigin | internal/repository/postgres.go:43-67 | until it ends, a call acts on the very row it read, whatever happens to the table meanwhile |
| Updates.UpdatesAreSerial | internal/service/inspection.go:59-95 | in every reachable state in which no passing update had met a stamp stored again since its read, a row's three columns are the fold, in commit order, of the patches of exactly the updates that passed the guard |
| Updates.ColumnsAreLastGiven | internal/service/inspection.go:68-77 | under the same condition inspector, notes and property data are each what the last passed update that gave it gave, and empty if none did |
| Updates.PassesMatchReplies | internal/repository/postgres.go:94-110 | an update told Success passed the guard once, one told NotFound or Conflict never did, and none twice |
| Updates.LockHoldsExactlyWhen | internal/repository/postgres.go:95-102 | with any clocks: nobody wrote the row between an update's read and its passing write iff no write in between stored the stamp again that it read; then it overwrites the very row it read |
| Stamps.DistinctStampsSuffice | internal/service/inspection.go:79-82 | if no stamp was drawn twice for an inspection, no passing update ever met a stamp stored again |
| Updates.ConflictWasOverwritten | internal/repository/postgres.go:211-224 | every update told Conflict read the row, and another call wrote it after that read |
| Updates.CompletedStillUpdates | internal/repository/postgres.go:92-99 | in every state with a completed inspection, any patch can still be applied to it by a call that is told Success |
| Staleness.StampGoesBackExactlyWhen | internal/service/inspection.go:112-118 | with a rising clock, a step takes updated_at back iff it commits a completion that was overtaken by an update stamped after it |
| Staleness.EventInspectorIsStaleExactlyWhen | internal/service/inspection.go:116 | a commit queues an event with another inspector than its row iff, of the patches that passed since the call's read, the last one to name an inspector names another than the one read |
| Photos.EventCountsPhotos | internal/service/inspection.go:97-118 | every outbox row of every reachable state comes from one call's read, photo query, event and commit, in this order: its inspector is the one read, its photo count the one of the query, its id and its two times those drawn when the event was built |
| Photos.PhotoCountIsBracketed | internal/domain/events.go:43-61 | that count lies between the counts at the read and at the commit |
| Photos.EventCountIsStaleExactlyWhen | internal/repository/postgres.go:69-90 | it differs from the count at the commit iff a photo of the inspection was inserted since the photo query |
| Photos.PhotosAreDistinct | internal/repository/postgres.go:161-167 | in every reachable state photos have pairwise distinct, drawn ids and belong to existing inspections |
| Photos.BudgetNeverGrows | internal/service/inspection.go:134-167 | after completion, photos plus AddPhoto calls that hold a scheduled snapshot never increase |
| Photos.LatePhotosAreBounded | internal/repository/postgres.go:161-167 | photos added after completion never exceed the AddPhoto calls that held a scheduled snapshot then |
| Photos.AllLatePhotosMayArrive | internal/service/inspection.go:142-163 | from every state there is a run in which all these calls add their photos, so the bound is exact |
| Photos.FrozenExactlyWhen | internal/service/inspection.go:142-146 | a completed inspection's photo count is the same in all continuations iff no AddPhoto call holds a scheduled snapshot of it |
| RelayInvariant.PendingIs | internal/outbox/relay.go:51-57 | the relay's query returns exactly the unpublished rows, strictly ordered by id |
| RelayInvariant.BatchIs | internal/outbox/relay.go:12-13 | a batch is the unpublished rows with the lowest ids, in id order, 100 of them or all |
| RelayInvariant.StepKeepsInv | internal/outbox/relay.go:50-89 | any number of relays, with crashes, errors and duplicates, keep every log entry tied to a committed row, every mark behind a publish, and every batch in order behind the log |
| RelayInvariant.CommitKeepsInv | internal/repository/postgres.go:149-159 | a commit that becomes visible late, with whatever id, keeps that invariant |
| Delivery.LowerIdsGoFirst | internal/outbox/relay.go:78-87 | a lower id that is visible wherever q is has its first copy in the log before the first copy of q |
| PublishOrder.OrderIsCommitOrder | migrations/000002_create_outbox_table.up.sql:1-13 | of two committed rows the lower id is certain to be published first iff it was committed in every state in which the other one was |
| Delivery.LogAgrees | internal/outbox/relay.go:70-83 | every message is an inspect.completed event of version 1 on inspect.events, of a completed inspection and keyed by its request; two messages with the same request or event id are equal |
| Delivery.MarkedIsInLog | internal/outbox/relay.go:80-87 | a row with published_at set has its message in the log |
| Delivery.DrainedLogIsComplete | internal/outbox/relay.go:15-16 | when no row is unpublished, event ids in the log and completed inspections are in bijection |
| Drain.DrainBound | internal/outbox/relay.go:50-88 | from n unpublished rows and without new ones, ceil(n/100) completed ticks of one relay leave none, whatever fails and whatever other relays do |
| Drain.CleanDrainIsExact | internal/outbox/relay.go:78-88 | a drain by one relay in which nothing of it fails appends exactly the unpublished rows, in id order, each once, whatever calls and the consumer do meanwhile, as long as no row is added |
| Drain.CanDrain | internal/outbox/relay.go:27-41 | from every reachable state one relay can publish all that is committed |
| Drain.DuplicatesAreBounded | internal/outbox/relay.go:80-87 | with one relay and one copy per publish, the log is at most marked rows plus failed ticks plus the copy in flight, and a row has at most 1 + failed ticks copies |
| Drain.PublishedMayStraggle | internal/outbox/relay.go:80-83 | a row whose publish was acknowledged is one of those of which further copies may arrive |
| ConsumerInvariant.StepKeepsInv | internal/kafka/consumer.go:91-131 | a mark stands for an inspection, for processing under way or for an orphan; every message let go was irrelevant, answered or orphaned |
| Dedup.OrphanedExactlyWhen | internal/dedup/redis.go:27-43 | an event is orphaned for the first time iff the process stops after its claim, its undo is not applied, or its claim is applied without a reply, while it is marked and has no inspection |
| Dedup.LossNeedsAnOrphan | internal/kafka/consumer.go:79-86 | every relevant message below the committed offset has its inspection unless its event was orphaned |
| Dedup.LossIsBoundedByFaults | internal/kafka/consumer.go:114-130 | the lost events are orphaned ones, and no more of them than orphaning faults |
| Dedup.NoFaultNoLoss | internal/kafka/consumer.go:114-121 | a run without such a fault loses nothing |
| Dedup.OrphanCanBeLost | internal/kafka/consumer.go:114-121 | whatever the run, an orphaned event is lost in some continuation without a further fault: redelivered, taken for a duplicate, committed |
| Dedup.RiskNeedsAnOrphan | internal/kafka/consumer.go:114-130 | in no run an event is at risk of such a loss that was not orphaned before |
| Dedup.RiskOpensExactlyWhen | internal/kafka/consumer.go:114-130 | a step puts an event at risk of such a loss iff it orphans it |
| Dedup.CacheIsTransparent | internal/dedup/redis.go:13-15 | without orphans, for any inbound sequence and any expiry, the run is step by step one of a consumer without a cache, with the same inspections and offsets |
| Dedup.MarksMayExpire | internal/dedup/redis.go:27-34 | in every state any mark may expire, and nothing else changes |
| Dedup.CreatedIsWanted | internal/kafka/consumer.go:91-112 | only requests of messages of type request.status_changed with a non-nil event id and the new status inspection_scheduled have inspections; without orphans all such messages below the committed offset have theirs, and once all is committed exactly those |
| CounterRuns.CommitsMayOvertake | internal/repository/postgres.go:140-143 | a run with two committed rows of which the one with the higher id was visible first |
| CounterRuns.StampIsNotMonotone | internal/service/inspection.go:112-118 | a run in which updated_at goes back |
| CounterRuns.EventInspectorMayBeStale | internal/service/inspection.go:116 | a run in which the event names another inspector than the row |
| CounterRuns.PhotoAfterCompletion | internal/service/inspection.go:142-146 | a run in which a photo is added after completion |
| CounterRuns.CollidingStampsLoseAnUpdate | internal/service/inspection.go:79-82 | two stamps equal at stored resolution let a successful update vanish |
| CounterRuns.EachFaultLosesASchedule | internal/kafka/consumer.go:114-130 | for each of the three faults a run in which it alone loses a schedule |
| World.CollectPhotos | internal/repository/postgres.go:81-89 | the row loop collects exactly the photos of the inspection, in table order |
| World.Services.Interfere | internal/service/inspection.go:59-167 | others may have done anything that is not this call's, relay's or reader's own action, and left its position alone |
| World.Services.UpdateRow | internal/repository/postgres.go:94-105 | the guarded update: 1 row with exactly these columns and stamp, 0 rows, or an error after which either may hold |
| World.Services.CommitTx | internal/repository/postgres.go:121-143 | on success the row is completed at the given time and the last outbox row carries the event |
| World.Services.InsertInspection | internal/repository/postgres.go:25-41 | without an error the request has an inspection: one row if it had none right before, and this very row is stored; zero rows if it had one |
| Repository.PostgresRepository.GetByID | internal/repository/postgres.go:43-67 | the row as it was in the table at one point, the photos as they were at a later one, NotFound only if there was no row, or a database error |
| Repository.PostgresRepository.Update | internal/repository/postgres.go:94-110 | Success means exactly these columns are stored; NotFound and Conflict mean that the guard did not match when tried, and Conflict that the row exists |
| Repository.PostgresRepository.Complete | internal/repository/postgres.go:112-144 | Success means the row is completed and its event is the newest outbox row; NotFound and Conflict mean that the row was not scheduled when tried, and Conflict that it exists |
| Repository.Deduplicator.Seen | internal/dedup/redis.go:27-34 | exactly one claim is sent; a reply says duplicate iff the event was marked right before, and it is marked now |
| Repository.Deduplicator.Forget | internal/dedup/redis.go:38-43 | without an error the mark is gone |
| Service.InspectionService.CreateFromRequest | internal/service/inspection.go:24-45 | one insert is sent; without an error the request has an inspection, and created is told iff it had none right before; then the row is scheduled, empty and stamped throughout with one reading of the clock |
| Service.InspectionService.Update | internal/service/inspection.go:59-95 | on success every field the patch names is stored and returned, every other one is that of the row read, identity and stamp agree with the table, and, as long as no passing update met a stamp stored again, the columns are the fold of all updates that passed; NotFound means that there was no row when the call looked, Conflict that it was written after the call's read, a database error that a statement of the call failed |
| Service.InspectionService.Complete | internal/service/inspection.go:97-132 | Success, InvalidStatus and Conflict mean the inspection is completed with exactly one outbox row; on Success the answer is the row read with status, completion time and stamp set from one clock reading, that time is stored, and the newest outbox row carries it and a later reading; NotFound, InvalidStatus and the others tell what the call's read found; a database error means that a statement of the call failed |
| Service.InspectionService.AddPhoto | internal/service/inspection.go:134-167 | on success the table has the returned photo, with its id and inspection and its time, a fresh clock reading, at storage resolution; the inspection was scheduled when the call read it; NotFound and InvalidStatus mean that it was not there or completed then; never Conflict; a database error means that a statement or the signing failed |
| Loops.Relay.PublishBatch | internal/outbox/relay.go:50-89 | a tick without an error published and marked every row of the batch it had read |
| Loops.Relay.Run | internal/outbox/relay.go:28-41 | every tick makes one failed tick in the run or is one of the clean ones, which are exactly the ticks the relay completed; if no row was added meanwhile, ceil(n/100) clean ticks leave nothing unpublished, under any interference |
| Loops.Consumer.Process | internal/kafka/consumer.go:91-131 | exactly these commands are sent: none for an irrelevant message, else the claim, if it was the first the insert, and if that failed the undo; the message itself is not committed yet; without an error it asked for nothing, has its inspection, or was orphaned; with one the reader stops |
| Loops.Consumer.Run | internal/kafka/consumer.go:66-86 | the reader joins, never gives up by itself, and acknowledges exactly the handled messages; it stops early only after a failed fetch, claim, insert or commit; the offset ends behind the handled messages (one further if the last commit lost its reply), and every committed message was answered or orphaned |

## Left out

- HTTP routing, request decoding, validation, authentication and roles, Swagger: the model starts from authorised service calls.
- JSON encoding: an inbound message is a decoded value or malformed; the outbound payload is the event value itself.
- Object keys and presigned URLs: string formatting; a failed presign is a failed call.
- List endpoints and pagination: plain reads without a guard.
- The order of photos by uploaded_at: only their number is used.
- Several partitions of request.events sharing one Redis: the model has one partition.
- Liveness: that ticks keep coming or that a stopped consumer is restarted; `CanDrain` states possibility only.
- A wait for a row lock that never ends: the model lets such a call fail instead.
- Loops.Relay.Run: the ticker and the cancelled context are a number of ticks.
- Loops.Consumer.Run: the cancelled context is a number of messages.
