/** The Postgres tables and the service calls in flight over them, as a state
    machine: one action is one SQL statement, one transaction boundary, or the
    local code between two statements. Any number of calls interleave. */
module Lifecycle {
  import opened Domain

  type CallId = nat

  datatype Op = Update(patch: Patch) | Complete | AddPhoto

  datatype Result = Success | ErrNotFound | ErrInvalidStatus | ErrConflict | ErrDatabase

  /** Where a call stands, with the values its local variables hold there. */
  datatype Pc =
    | Begin
    | HasRow(row: Inspection)                                // GetByID: first query done
    | Loaded(row: Inspection, photos: seq<Photo>)            // GetByID: second query done
    | Writing(insp: Inspection, prev: Time)                  // Update: patched, not yet written
    | Completing(at: Time, event: Event)                     // Complete: event built, no transaction yet
    | Locked(at: Time, event: Event)                         // Complete: the CAS matched, row lock held
    | Drawn(at: Time, event: Event, outboxId: nat)           // Complete: outbox id drawn, not yet committed
    | Adding(photo: Photo)                                   // AddPhoto: past the status check
    | Missed                                                 // a guarded statement matched no row
    | Done(result: Result)

  datatype Call = Call(op: Op, id: Uuid, pc: Pc)

  /** The tables, the identity sequence of the outbox, and the calls. `outbox` lists
      the committed rows in commit order. `stamps` are the values drawn so far for the
      updated_at of each inspection, at stored resolution; `collided` tells that one was
      drawn twice for the same inspection.
      `uuids` are the UUIDs drawn so far. */
  datatype Db = Db(
    inspections: map<Uuid, Inspection>,
    photos: seq<Photo>,
    outbox: seq<OutboxRow>,
    nextOutboxId: nat,
    calls: map<CallId, Call>,
    stamps: set<(Uuid, Time)>,
    collided: bool,
    uuids: set<Uuid>)

  const EMPTY_DB := Db(map[], [], [], 1, map[], {}, false, {NIL_UUID})

  datatype Action =
    | Create(id: Uuid, requestId: Uuid, now: Time)
    | Invoke(c: CallId, op: Op, id: Uuid)
    | ReadRow(c: CallId)
    | ReadPhotos(c: CallId)
    | Prepare(c: CallId, now: Time, occurredAt: Time, uuid: Uuid)
    | UpdateWrite(c: CallId, replied: bool)
    | CompleteCas(c: CallId)
    | CompleteInsert(c: CallId)
    | CompleteCommit(c: CallId, replied: bool)
    | CheckExists(c: CallId)
    | PhotoInsert(c: CallId, replied: bool)
    | Fail(c: CallId)

  /** The photos of one inspection, in table order. */
  function PhotosOf(photos: seq<Photo>, id: Uuid): seq<Photo> {
    if photos == [] then []
    else
      var last := photos[|photos| - 1];
      PhotosOf(photos[..|photos| - 1], id) + if last.inspectionId == id then [last] else []
  }

  function PhotoCount(db: Db, id: Uuid): nat {
    |PhotosOf(db.photos, id)|
  }

  predicate HasRequest(db: Db, requestId: Uuid) {
    exists id :: id in db.inspections && db.inspections[id].requestId == requestId
  }

  predicate InTransaction(pc: Pc) {
    pc.Locked? || pc.Drawn?
  }

  predicate HoldsEvent(pc: Pc) {
    pc.Completing? || pc.Locked? || pc.Drawn?
  }

  /** A transaction holds the row of `id` from its CAS to its commit or rollback. */
  predicate RowLocked(db: Db, id: Uuid) {
    exists c :: c in db.calls && db.calls[c].id == id && InTransaction(db.calls[c].pc)
  }

  predicate GuardMatches(db: Db, id: Uuid, prev: Time) {
    id in db.inspections && db.inspections[id].updatedAt == prev
  }

  predicate IsScheduled(db: Db, id: Uuid) {
    id in db.inspections && db.inspections[id].status == Scheduled
  }

  predicate IsCompleted(db: Db, id: Uuid) {
    id in db.inspections && db.inspections[id].status == Completed
  }

  /** When an action can happen. A statement whose WHERE clause matches a row that
      another transaction holds waits, so it is not enabled. UUIDs are fresh when drawn.
      A commit finds its row because no statement deletes one. */
  predicate Enabled(db: Db, a: Action) {
    match a
    case Create(id, _, _) => id !in db.uuids
    case Invoke(c, _, _) => c !in db.calls
    case ReadRow(c) => c in db.calls && db.calls[c].pc.Begin?
    case ReadPhotos(c) => c in db.calls && db.calls[c].pc.HasRow?
    case Prepare(c, _, _, uuid) => c in db.calls && db.calls[c].pc.Loaded? && uuid !in db.uuids
    case UpdateWrite(c, _) =>
      c in db.calls && db.calls[c].pc.Writing? &&
      !(GuardMatches(db, db.calls[c].id, db.calls[c].pc.prev) && RowLocked(db, db.calls[c].id))
    case CompleteCas(c) =>
      c in db.calls && db.calls[c].pc.Completing? &&
      !(IsScheduled(db, db.calls[c].id) && RowLocked(db, db.calls[c].id))
    case CompleteInsert(c) => c in db.calls && db.calls[c].pc.Locked?
    case CompleteCommit(c, _) => c in db.calls && db.calls[c].pc.Drawn? && db.calls[c].id in db.inspections
    case CheckExists(c) => c in db.calls && db.calls[c].pc.Missed?
    case PhotoInsert(c, _) => c in db.calls && db.calls[c].pc.Adding?
    case Fail(c) => c in db.calls && !db.calls[c].pc.Done?
  }

  function SetPc(db: Db, c: CallId, pc: Pc): Db
    requires c in db.calls
  {
    db.(calls := db.calls[c := db.calls[c].(pc := pc)])
  }

  /** Reading the clock for the updated_at of an inspection. */
  function DrawStamp(db: Db, id: Uuid, now: Time): Db {
    db.(stamps := db.stamps + {(id, Stored(now))}, collided := db.collided || (id, Stored(now)) in db.stamps)
  }

  function DrawUuid(db: Db, u: Uuid): Db {
    db.(uuids := db.uuids + {u})
  }

  /** INSERT ... ON CONFLICT (request_id) DO NOTHING. */
  function CreateRow(db: Db, id: Uuid, requestId: Uuid, now: Time): Db {
    var drawn := DrawUuid(DrawStamp(db, id, now), id);
    if HasRequest(db, requestId) then drawn
    else drawn.(inspections := drawn.inspections[id := NewInspection(id, requestId, now)])
  }

  function Reply(replied: bool): Pc {
    Done(if replied then Success else ErrDatabase)
  }

  /** The local code between GetByID and the call's own statement. */
  function PrepareCall(db: Db, c: CallId, now: Time, occurredAt: Time, uuid: Uuid): Db
    requires c in db.calls && db.calls[c].pc.Loaded?
  {
    var row, id := db.calls[c].pc.row, db.calls[c].id;
    match db.calls[c].op
    case Update(patch) =>
      SetPc(DrawStamp(db, id, now), c, Writing(Patched(row, patch).(updatedAt := now), row.updatedAt))
    case Complete =>
      if row.status != Scheduled then SetPc(db, c, Done(ErrInvalidStatus))
      else
        var insp := row.(status := Completed, completedAt := Some(now), updatedAt := now);
        var event := NewInspectCompletedEvent(insp, |db.calls[c].pc.photos|, uuid, occurredAt);
        SetPc(DrawUuid(DrawStamp(db, id, now), uuid), c, Completing(now, event))
    case AddPhoto =>
      if row.status != Scheduled then SetPc(db, c, Done(ErrInvalidStatus))
      else SetPc(DrawUuid(db, uuid), c, Adding(Photo(uuid, id, now)))
  }

  /** The row an UPDATE of the three columns leaves behind. */
  function UpdatedRow(cur: Inspection, insp: Inspection): Inspection {
    cur.(inspectorId := insp.inspectorId, notes := insp.notes, propertyData := insp.propertyData,
         updatedAt := Stored(insp.updatedAt))
  }

  /** The row a completing UPDATE leaves behind. */
  function CompletedRow(cur: Inspection, at: Time): Inspection {
    cur.(status := Completed, completedAt := Some(Stored(at)), updatedAt := Stored(at))
  }

  function Step(db: Db, a: Action): Db
    requires Enabled(db, a)
  {
    match a
    case Create(id, requestId, now) => CreateRow(db, id, requestId, now)
    case Invoke(c, op, id) => db.(calls := db.calls[c := Call(op, id, Begin)])
    case ReadRow(c) =>
      var id := db.calls[c].id;
      SetPc(db, c, if id in db.inspections then HasRow(db.inspections[id]) else Done(ErrNotFound))
    case ReadPhotos(c) => SetPc(db, c, Loaded(db.calls[c].pc.row, PhotosOf(db.photos, db.calls[c].id)))
    case Prepare(c, now, occurredAt, uuid) => PrepareCall(db, c, now, occurredAt, uuid)
    case UpdateWrite(c, replied) =>
      var Call(_, id, Writing(insp, prev)) := db.calls[c];
      if GuardMatches(db, id, prev)
      then SetPc(db.(inspections := db.inspections[id := UpdatedRow(db.inspections[id], insp)]), c, Reply(replied))
      else SetPc(db, c, Missed)
    case CompleteCas(c) =>
      var Call(_, id, Completing(at, event)) := db.calls[c];
      SetPc(db, c, if IsScheduled(db, id) then Locked(at, event) else Missed)
    case CompleteInsert(c) =>
      var Locked(at, event) := db.calls[c].pc;
      SetPc(db.(nextOutboxId := db.nextOutboxId + 1), c, Drawn(at, event, db.nextOutboxId))
    case CompleteCommit(c, replied) =>
      var Call(_, id, Drawn(at, event, outboxId)) := db.calls[c];
      SetPc(db.(inspections := db.inspections[id := CompletedRow(db.inspections[id], at)],
                outbox := db.outbox + [NewOutboxRow(outboxId, event)]), c, Reply(replied))
    case CheckExists(c) =>
      SetPc(db, c, Done(if db.calls[c].id in db.inspections then ErrConflict else ErrNotFound))
    case PhotoInsert(c, replied) =>
      SetPc(db.(photos := db.photos + [StoredPhoto(db.calls[c].pc.photo)]), c, Reply(replied))
    case Fail(c) => SetPc(db, c, Done(ErrDatabase))
  }
}
