/** Runs that show what the service does not promise. Each is a concrete schedule,
    built from lemmas that extend a run. */
module CounterRuns {
  import opened Domain
  import opened Lifecycle
  import C = InboundConsumer
  import opened InspectService
  import opened Schedules
  import opened Dedup
  import opened Delivery

  const REQUEST: Uuid := 7
  const FIRST: Uuid := 1
  const SECOND: Uuid := 2

  // ----- preparing the scene -----

  /** The consumer's insert succeeds. */
  lemma ConsumeCreate(t: Trace, id: Uuid, now: Time) returns (u: Trace)
    requires End(t).consumer.pc.Creating? && id !in End(t).db.uuids
    ensures Extends(t, u)
    ensures var c := End(t).consumer;
      End(u) == End(t).(db := CreateRow(End(t).db, id, c.pc.job.requestId, now),
        consumer := c.(pc := C.Handled(c.pc.pos)))
  {
    u := After(t, Act.Consumer(C.Create(id, now, true, true)));
    assert Extends(t, t);
  }

  function Scheduling(event: Uuid, request: Uuid): C.Message {
    C.Envelope(event, C.EVENT_TYPE_REQUEST_STATUS_CHANGED, request, C.StatusChanged(C.STATUS_INSPECTION_SCHEDULED))
  }

  /** The consumer has decoded its first message. */
  lemma Decoded() returns (t: Trace)
    ensures End(t) == INITIAL.(consumer :=
      C.ConsumerState([Scheduling(101, REQUEST)], 0, {}, C.Checking(0, C.Job(101, REQUEST))))
  {
    assert C.Consistent([] + [Scheduling(101, REQUEST)]);
    t := Consume1(Start, C.Produce(Scheduling(101, REQUEST)));
    t := Consume1(t, C.Start);
    t := Consume1(t, C.Fetch);
  }

  /** The consumer has claimed it. */
  lemma Claimed() returns (t: Trace)
    ensures End(t) == INITIAL.(consumer :=
      C.ConsumerState([Scheduling(101, REQUEST)], 0, {101}, C.Creating(0, C.Job(101, REQUEST))))
  {
    t := Decoded();
    t := Consume1(t, C.Seen(true, true));
    assert {} + {101 as Uuid} == {101};
  }

  /** One scheduled inspection and no call in flight. */
  ghost predicate JustOne(db: Db) {
    && db.inspections == map[FIRST := NewInspection(FIRST, REQUEST, 5000)]
    && db.photos == [] && db.outbox == [] && db.nextOutboxId == 1 && db.calls == map[]
    && forall u :: u in db.uuids ==> u <= 2
  }

  lemma OneScheduled() returns (t: Trace)
    ensures JustOne(End(t).db) && SECOND !in End(t).db.uuids
    ensures End(t).consumer == C.ConsumerState([Scheduling(101, REQUEST)], 0, {101}, C.Handled(0))
  {
    t := Claimed();
    t := ConsumeCreate(t, FIRST, 5000);
    assert !HasRequest(EMPTY_DB, REQUEST);
  }

  // ----- the runs -----

  /** updated_at may go back: Complete stores the older reading of the clock. */
  ghost predicate StampWentBack(t: Trace, u: Trace, id: Uuid) {
    && Extends(t, u)
    && id in End(t).db.inspections && id in End(u).db.inspections
    && End(u).db.inspections[id].updatedAt < End(t).db.inspections[id].updatedAt
  }

  ghost predicate EventIsStale(t: Trace) {
    && End(t).db.outbox != [] && FIRST in End(t).db.inspections
    && End(t).db.outbox[0].payload.data.inspectionId == FIRST
    && End(t).db.outbox[0].payload.data.inspectorId != End(t).db.inspections[FIRST].inspectorId
  }

  /** A Complete call waits to commit, and an update has passed meanwhile. */
  ghost predicate UpdatedMeanwhile(db: Db, patch: Patch) {
    && FIRST in db.inspections && 1 in db.calls
    && db.inspections[FIRST].updatedAt == 9000 && db.inspections[FIRST].status == Scheduled
    && ColumnsOf(db.inspections[FIRST]) == ApplyPatch(Columns(None, None, None), patch)
    && db.calls[1].id == FIRST && db.calls[1].pc.Completing? && db.calls[1].pc.at == 7000
    && db.calls[1].pc.event.data.inspectorId == None && db.calls[1].pc.event.data.inspectionId == FIRST
    && db.outbox == [] && !RowLocked(db, FIRST)
  }

  lemma UpdatedWhilePrepared(patch: Patch) returns (t: Trace)
    ensures UpdatedMeanwhile(End(t).db, patch)
  {
    var t0 := OneScheduled();
    var t1 := Prepared(t0, 1, FIRST, 7000, 50);
    t := UpdateAtOnce(t1, 2, FIRST, patch, 9000, 51);
  }

  /** A Complete call prepared at 7000 commits after an Update stamped 9000. */
  ghost predicate CommitsAfterUpdate(db: Db, db': Db, patch: Patch) {
    && FIRST in db.inspections && db.inspections[FIRST].updatedAt == 9000
    && IsCompleted(db', FIRST) && db'.inspections[FIRST].updatedAt == 7000
    && ColumnsOf(db'.inspections[FIRST]) == ApplyPatch(Columns(None, None, None), patch)
    && |db'.outbox| == 1
    && db'.outbox[0].payload.data.inspectorId == None && db'.outbox[0].payload.data.inspectionId == FIRST
  }

  lemma UpdateDuringComplete(patch: Patch) returns (t: Trace, u: Trace)
    ensures Extends(t, u) && CommitsAfterUpdate(End(t).db, End(u).db, patch)
  {
    t := UpdatedWhilePrepared(patch);
    u := Finish(t, 1);
  }

  lemma StampIsNotMonotone()
    ensures exists t, u :: StampWentBack(t, u, FIRST)
  {
    var t, u := UpdateDuringComplete(Patch(None, None, None));
    assert StampWentBack(t, u, FIRST);
  }

  /** The event may name another inspector than the row it was committed with. */
  lemma EventInspectorMayBeStale()
    ensures exists t :: EventIsStale(t)
  {
    var t, u := UpdateDuringComplete(Patch(Some(77), None, None));
    assert ColumnsOf(End(u).db.inspections[FIRST]).inspectorId == Some(77);
    assert EventIsStale(u);
  }

  ghost predicate PhotoIsLate(t: Trace, u: Trace) {
    Extends(t, u) && IsCompleted(End(t).db, FIRST) && PhotoCount(End(t).db, FIRST) < PhotoCount(End(u).db, FIRST)
  }

  /** A photo may be added after the completion was committed. */
  lemma PhotoAfterCompletion()
    ensures exists t, u :: PhotoIsLate(t, u)
  {
    var t0 := OneScheduled();
    var t1 := Prepared(t0, 1, FIRST, 7000, 50);
    var t2 := Read(t1, 2, AddPhoto, FIRST);
    var t3 := Serve1(t2, Prepare(2, 9000, 9000, 51));
    assert End(t3).db.calls[2].pc == Adding(Photo(51, FIRST, 9000));
    var t := Finish(t3, 1);
    var u := Serve1(t, PhotoInsert(2, true));
    LI.PhotosAppend(End(t).db.photos, Photo(51, FIRST, 9000), FIRST);
    assert PhotoIsLate(t, u);
  }

  ghost predicate NotesAreLost(t: Trace) {
    && FIRST in End(t).db.inspections && 1 in End(t).db.calls && 2 in End(t).db.calls
    && End(t).db.calls[1] == Call(Update(Patch(None, Some("a"), None)), FIRST, Done(Success))
    && End(t).db.calls[2] == Call(Update(Patch(Some(77), None, None)), FIRST, Done(Success))
    && End(t).db.inspections[FIRST].notes == None
  }

  /** Two stamps that agree at stored resolution defeat the optimistic lock: both updates are
      told Success and the first one's notes are gone. */
  lemma CollidingStampsLoseAnUpdate()
    ensures exists t :: NotesAreLost(t)
  {
    var p, q := Patch(None, Some("a"), None), Patch(Some(77), None, None);
    var t0 := OneScheduled();
    var t1 := Read(t0, 2, Update(q), FIRST);
    var t2 := UpdateAtOnce(t1, 1, FIRST, p, 5999, 50);
    var uuid := FreshUuid(End(t2).db.uuids);
    var t3 := Stamped(t2, 2, 8000, uuid);
    assert End(t3).db.inspections[FIRST].updatedAt == 5000;
    assert !RowLocked(End(t3).db, FIRST);
    var t4 := Serve1(t3, UpdateWrite(2, true));
    assert ColumnsOf(Patched(NewInspection(FIRST, REQUEST, 5000), q)).notes == None;
    assert NotesAreLost(t4);
  }

  // ----- orphaned marks -----

  datatype Fault = CrashAfterClaim | UndoFails | ClaimWithoutReply

  predicate IsFault(a: Act, fault: Fault) {
    a == Act.Consumer(match fault
                      case CrashAfterClaim => C.Crash
                      case UndoFails => C.Forget(false, false)
                      case ClaimWithoutReply => C.Seen(true, false))
  }

  /** The only message is spoilt by one fault. */
  lemma Spoilt(fault: Fault) returns (t: Trace)
    ensures End(t) == INITIAL.(consumer := C.ConsumerState([Scheduling(101, REQUEST)], 0, {101}, C.Stopped))
    ensures OrphaningFault(t) && IsFault(t.act, fault)
  {
    match fault
    case CrashAfterClaim =>
      var t0 := Claimed();
      t := After(t0, Act.Consumer(C.Crash));
    case UndoFails =>
      var t0 := Claimed();
      var t1 := After(t0, Act.Consumer(C.Create(FIRST, 5000, false, false)));
      t := After(t1, Act.Consumer(C.Forget(false, false)));
    case ClaimWithoutReply =>
      var t0 := Decoded();
      t := After(t0, Act.Consumer(C.Seen(true, false)));
      assert {} + {101 as Uuid} == {101};
  }

  ghost predicate LosesSchedule(t: Trace, u: Trace, fault: Fault) {
    Extends(t, u) && OrphaningFault(t) && IsFault(t.act, fault) && End(u).consumer.committed == 1 &&
      LostEvents(End(u)) == {101}
  }

  /** Each of the three faults alone loses a schedule: after a restart the message is taken for a
      duplicate and committed, and no inspection exists. */
  lemma EachFaultLosesASchedule(fault: Fault)
    ensures exists t, u :: LosesSchedule(t, u, fault)
  {
    var t := Spoilt(fault);
    var u := SkippedAsDuplicate(t, C.Job(101, REQUEST));
    var s := End(u);
    assert C.Decode(s.consumer.inbound[0]) == Some(C.Job(101, REQUEST));
    assert Requests(s.db) == {};
    assert LostEvents(s) == {101};
    assert LosesSchedule(t, u, fault);
  }

  // ----- ids that overtake each other -----

  /** A second scheduled inspection, for another request. */
  ghost predicate JustTwo(db: Db) {
    && db.inspections == map[FIRST := NewInspection(FIRST, REQUEST, 5000), SECOND := NewInspection(SECOND, 8, 6000)]
    && db.outbox == [] && db.nextOutboxId == 1 && db.calls == map[]
    && forall u :: u in db.uuids ==> u <= 2
  }

  /** The consumer goes on to claim a second message. */
  lemma ClaimedSecond(t: Trace) returns (u: Trace)
    requires End(t).consumer == C.ConsumerState([Scheduling(101, REQUEST)], 0, {101}, C.Handled(0))
    ensures End(u).db == End(t).db && End(u).consumer.pc == C.Creating(1, C.Job(102, 8))
  {
    var t1 := Consume1(t, C.Commit(true, true));
    var inbound := [Scheduling(101, REQUEST)] + [Scheduling(102, 8)];
    assert C.Consistent(inbound);
    var t2 := Consume1(t1, C.Produce(Scheduling(102, 8)));
    var t3 := Consume1(t2, C.Fetch);
    assert End(t3).consumer.pc == C.Checking(1, C.Job(102, 8));
    u := Consume1(t3, C.Seen(true, true));
  }

  lemma TwoScheduled() returns (t: Trace)
    ensures JustTwo(End(t).db)
  {
    var t0 := OneScheduled();
    var t1 := ClaimedSecond(t0);
    assert SECOND !in End(t1).db.uuids;
    assert !HasRequest(End(t1).db, 8);
    t := ConsumeCreate(t1, SECOND, 6000);
  }

  /** Both rows are committed, and q was before p although its id is the higher one. */
  ghost predicate Overtaken(t: Trace, p: OutboxRow, q: OutboxRow) {
    && p in End(t).db.outbox && q in End(t).db.outbox && p.id < q.id
    && !VisibleWith(t, p, q)
  }

  /** A commit may overtake another: a row is visible while one with a lower id is still on its way. */
  lemma CommitsMayOvertake()
    ensures exists t, p, q :: Overtaken(t, p, q)
  {
    var t5 := SecondOvertakesFirst();
    var t6 := Serve1(t5, CompleteCommit(1, true));
    var p, q := End(t6).db.outbox[1], End(t6).db.outbox[0];
    assert q in End(t5).db.outbox && p !in End(t5).db.outbox;
    assert Overtaken(t6, p, q);
  }

  /** The second call has committed with id 2, the first holds id 1. */
  ghost predicate FirstIsLate(db: Db) {
    && |db.outbox| == 1 && db.outbox[0].id == 2
    && 1 in db.calls && db.calls[1].pc.Drawn? && db.calls[1].pc.outboxId == 1 && db.calls[1].id in db.inspections
  }

  lemma SecondOvertakesFirst() returns (t5: Trace)
    ensures FirstIsLate(End(t5).db)
  {
    var t0 := TwoScheduled();
    var t1 := Prepared(t0, 1, FIRST, 7000, 50);
    var t2 := Prepared(t1, 2, SECOND, 7000, 51);
    var t3 := Serve1(t2, CompleteCas(1));
    var t4 := Serve1(t3, CompleteInsert(1));
    assert End(t4).db.calls[1].pc.Drawn? && End(t4).db.calls[1].pc.outboxId == 1;
    t5 := Finish(t4, 2);
  }
}
