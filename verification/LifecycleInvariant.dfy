/** What every action on the tables keeps, and how a later state of the tables
    relates to an earlier one. */
module LifecycleInvariant {
  import opened Domain
  import opened Lifecycle

  ghost predicate HasEvent(outbox: seq<OutboxRow>, id: Uuid) {
    exists k :: 0 <= k < |outbox| && outbox[k].payload.data.inspectionId == id
  }

  ghost predicate RowOk(db: Db, id: Uuid) {
    id in db.inspections &&
    var row := db.inspections[id];
    && row.id == id
    && id in db.uuids
    && (row.status == Completed <==> row.completedAt.Some?)
    && (row.status == Completed ==> HasEvent(db.outbox, id))
  }

  ghost predicate RequestsUnique(db: Db) {
    forall i, j :: i in db.inspections && j in db.inspections && i != j ==>
      db.inspections[i].requestId != db.inspections[j].requestId
  }

  /** An event speaks of an existing inspection and of no more photos than it has. */
  ghost predicate EventOk(db: Db, id: Uuid, e: Event) {
    && id in db.inspections
    && e.eventType == EVENT_TYPE_INSPECT_COMPLETED
    && e.version == EVENT_VERSION
    && e.eventId in db.uuids
    && e.requestId == db.inspections[id].requestId
    && e.data.inspectionId == id
    && e.data.photoCount <= PhotoCount(db, id)
  }

  ghost predicate OutboxRowOk(db: Db, r: OutboxRow) {
    && r == NewOutboxRow(r.id, r.payload)
    && r.id < db.nextOutboxId
    && EventOk(db, r.payload.data.inspectionId, r.payload)
    && db.inspections[r.payload.data.inspectionId].completedAt == Some(Stored(r.payload.data.completedAt))
  }

  ghost predicate OutboxDistinct(outbox: seq<OutboxRow>) {
    forall j, k :: 0 <= j < k < |outbox| ==>
      && outbox[j].id != outbox[k].id
      && outbox[j].eventId != outbox[k].eventId
      && outbox[j].payload.data.inspectionId != outbox[k].payload.data.inspectionId
  }

  /** A row read earlier: same identity as the row now, and not ahead of it. */
  ghost predicate SnapshotOk(db: Db, id: Uuid, row: Inspection) {
    && id in db.inspections
    && row.id == id
    && row.requestId == db.inspections[id].requestId
    && (row.status == Completed ==> IsCompleted(db, id))
  }

  ghost predicate CallOk(db: Db, call: Call) {
    match call.pc
    case Begin => true
    case HasRow(row) => SnapshotOk(db, call.id, row)
    case Loaded(row, photos) => SnapshotOk(db, call.id, row) && |photos| <= PhotoCount(db, call.id)
    case Writing(insp, prev) => call.op.Update? && call.id in db.inspections
    case Completing(at, event) =>
      call.op.Complete? && EventOk(db, call.id, event) && event.data.completedAt == at
    case Locked(at, event) =>
      call.op.Complete? && EventOk(db, call.id, event) && event.data.completedAt == at && IsScheduled(db, call.id)
    case Drawn(at, event, outboxId) =>
      && call.op.Complete? && EventOk(db, call.id, event) && event.data.completedAt == at
      && IsScheduled(db, call.id) && outboxId < db.nextOutboxId
    case Adding(photo) => call.op.AddPhoto? && call.id in db.inspections && photo.inspectionId == call.id
    case Missed => call.id in db.inspections && (call.op.Complete? ==> IsCompleted(db, call.id))
    case Done(result) => call.op.Complete? && result in {Success, ErrConflict, ErrInvalidStatus} ==>
      IsCompleted(db, call.id)
  }

  /** What two calls in flight may not share. */
  ghost predicate Apart(p: Call, q: Call) {
    && (HoldsEvent(p.pc) && HoldsEvent(q.pc) ==> p.pc.event.eventId != q.pc.event.eventId)
    && (p.pc.Drawn? && q.pc.Drawn? ==> p.pc.outboxId != q.pc.outboxId)
    && (InTransaction(p.pc) && InTransaction(q.pc) ==> p.id != q.id)
  }

  /** What a call in flight does not share with a committed outbox row. */
  ghost predicate NotYetIn(call: Call, r: OutboxRow) {
    && (HoldsEvent(call.pc) ==> call.pc.event.eventId != r.eventId)
    && (call.pc.Drawn? ==> call.pc.outboxId != r.id)
  }

  ghost predicate TablesOk(db: Db) {
    && (forall id :: id in db.inspections ==> RowOk(db, id))
    && RequestsUnique(db)
    && (forall k :: 0 <= k < |db.outbox| ==> OutboxRowOk(db, db.outbox[k]))
    && OutboxDistinct(db.outbox)
  }

  ghost predicate CallsOk(db: Db) {
    && (forall c :: c in db.calls ==> CallOk(db, db.calls[c]))
    && (forall c, d :: c in db.calls && d in db.calls && c != d ==> Apart(db.calls[c], db.calls[d]))
    && (forall c, k :: c in db.calls && 0 <= k < |db.outbox| ==> NotYetIn(db.calls[c], db.outbox[k]))
  }

  ghost predicate Inv(db: Db) {
    TablesOk(db) && CallsOk(db)
  }

  /** db' may be reached from db: nothing that was recorded is taken back. */
  ghost predicate Later(db: Db, db': Db) {
    && db.outbox <= db'.outbox
    && db.uuids <= db'.uuids
    && db.nextOutboxId <= db'.nextOutboxId
    && db.stamps <= db'.stamps
    && (db.collided ==> db'.collided)
    && (forall id :: PhotoCount(db, id) <= PhotoCount(db', id))
    && (forall id :: id in db.inspections ==> RowLater(db.inspections[id], db', id))
    && (forall c :: c in db.calls ==> CallLater(db.calls[c], db', c))
  }

  /** Identity is fixed; completion and its time, once set, stay. */
  ghost predicate RowLater(row: Inspection, db': Db, id: Uuid) {
    id in db'.inspections &&
    var row' := db'.inspections[id];
    && row'.id == row.id
    && row'.requestId == row.requestId
    && row'.createdAt == row.createdAt
    && row'.scheduledAt == row.scheduledAt
    && (row.status == Completed ==> row'.status == Completed && row'.completedAt == row.completedAt)
  }

  ghost predicate CallLater(call: Call, db': Db, c: CallId) {
    c in db'.calls &&
    var call' := db'.calls[c];
    && call'.op == call.op
    && call'.id == call.id
    && (call.pc.Done? ==> call' == call)
  }

  lemma LaterTransitive(a: Db, b: Db, c: Db)
    requires Later(a, b) && Later(b, c)
    ensures Later(a, c)
  {
    forall id ensures PhotoCount(a, id) <= PhotoCount(c, id) {
      assert PhotoCount(a, id) <= PhotoCount(b, id) <= PhotoCount(c, id);
    }
    forall id | id in a.inspections ensures RowLater(a.inspections[id], c, id) {
      assert RowLater(a.inspections[id], b, id) && RowLater(b.inspections[id], c, id);
    }
    forall k | k in a.calls ensures CallLater(a.calls[k], c, k) {
      assert CallLater(a.calls[k], b, k) && CallLater(b.calls[k], c, k);
    }
  }

  lemma PhotosAppend(photos: seq<Photo>, p: Photo, id: Uuid)
    ensures PhotosOf(photos + [p], id) == PhotosOf(photos, id) + if p.inspectionId == id then [p] else []
  {
    assert (photos + [p])[..|photos|] == photos;
  }

  /** Actions that leave the four tables alone. */
  predicate OffTables(a: Action) {
    !a.Create? && !a.UpdateWrite? && !a.CompleteCommit? && !a.PhotoInsert?
  }

  /** Such an action moves one call, which keeps its kind and its inspection. */
  lemma OffTablesShape(db: Db, a: Action)
    requires Enabled(db, a) && OffTables(a)
    ensures var db' := Step(db, a);
      && db'.inspections == db.inspections && db'.outbox == db.outbox && db'.photos == db.photos
      && db.uuids <= db'.uuids && db.nextOutboxId <= db'.nextOutboxId && db.stamps <= db'.stamps
      && (db.collided ==> db'.collided)
      && a.c in db'.calls && db'.calls == db.calls[a.c := db'.calls[a.c]]
      && (a.c in db.calls ==>
            !db.calls[a.c].pc.Done? && db'.calls[a.c].op == db.calls[a.c].op && db'.calls[a.c].id == db.calls[a.c].id)
  {
  }

  lemma OffTablesIsLater(db: Db, a: Action)
    requires Enabled(db, a) && OffTables(a)
    ensures Later(db, Step(db, a))
  {
    OffTablesShape(db, a);
    OneCallIsLater(db, Step(db, a), a.c);
  }

  lemma OneCallIsLater(db: Db, db': Db, c: CallId)
    requires db'.inspections == db.inspections && db'.outbox == db.outbox && db'.photos == db.photos
    requires db.uuids <= db'.uuids && db.nextOutboxId <= db'.nextOutboxId && db.stamps <= db'.stamps
    requires db.collided ==> db'.collided
    requires c in db'.calls && db'.calls == db.calls[c := db'.calls[c]]
    requires c in db.calls ==>
      !db.calls[c].pc.Done? && db'.calls[c].op == db.calls[c].op && db'.calls[c].id == db.calls[c].id
    ensures Later(db, db')
  {
  }

  lemma CreateIsLater(db: Db, a: Action)
    requires Inv(db) && Enabled(db, a) && a.Create?
    ensures Later(db, Step(db, a))
  {
    assert a.id in db.inspections ==> RowOk(db, a.id);
  }

  lemma UpdateIsLater(db: Db, a: Action)
    requires Enabled(db, a) && a.UpdateWrite?
    ensures Later(db, Step(db, a))
  {
  }

  lemma CommitIsLater(db: Db, a: Action)
    requires Inv(db) && Enabled(db, a) && a.CompleteCommit?
    ensures Later(db, Step(db, a))
  {
    assert CallOk(db, db.calls[a.c]);
  }

  lemma PhotoIsLater(db: Db, a: Action)
    requires Enabled(db, a) && a.PhotoInsert?
    ensures Later(db, Step(db, a))
  {
    forall id ensures PhotoCount(db, id) <= PhotoCount(Step(db, a), id) {
      PhotosAppend(db.photos, StoredPhoto(db.calls[a.c].pc.photo), id);
    }
  }

  lemma StepIsLater(db: Db, a: Action)
    requires Inv(db) && Enabled(db, a)
    ensures Later(db, Step(db, a))
  {
    match a
    case Create(_, _, _) => CreateIsLater(db, a);
    case UpdateWrite(_, _) => UpdateIsLater(db, a);
    case CompleteCommit(_, _) => CommitIsLater(db, a);
    case PhotoInsert(_, _) => PhotoIsLater(db, a);
    case _ => OffTablesIsLater(db, a);
  }

  /** A call's facts survive any later state in which its transaction still owns its row. */
  lemma CallOkLater(db: Db, db': Db, call: Call)
    requires CallOk(db, call) && Later(db, db')
    requires InTransaction(call.pc) ==> IsScheduled(db', call.id)
    ensures CallOk(db', call)
  {
    if call.id in db.inspections {
      assert RowLater(db.inspections[call.id], db', call.id);
    }
    assert PhotoCount(db, call.id) <= PhotoCount(db', call.id);
  }

  /** The tables stay in order in a later state with the same rows. */
  lemma TablesOkLater(db: Db, db': Db)
    requires TablesOk(db) && Later(db, db')
    requires db'.inspections == db.inspections && db'.outbox == db.outbox
    ensures TablesOk(db')
  {
    forall k | 0 <= k < |db'.outbox| ensures OutboxRowOk(db', db'.outbox[k]) {
      assert OutboxRowOk(db, db.outbox[k]);
      var id := db.outbox[k].payload.data.inspectionId;
      assert PhotoCount(db, id) <= PhotoCount(db', id);
    }
    forall id | id in db'.inspections ensures RowOk(db', id) {
      assert RowOk(db, id);
    }
  }

  /** Where one call moved on, only its own facts need a fresh look. */
  lemma CallsOkLater(db: Db, db': Db, c: CallId)
    requires CallsOk(db) && Later(db, db') && db'.outbox == db.outbox
    requires c in db'.calls && db'.calls == db.calls[c := db'.calls[c]]
    requires CallOk(db', db'.calls[c])
    requires forall d :: d in db.calls && d != c ==>
      Apart(db'.calls[c], db.calls[d]) && Apart(db.calls[d], db'.calls[c])
    requires forall k :: 0 <= k < |db.outbox| ==> NotYetIn(db'.calls[c], db.outbox[k])
    requires forall d :: d in db.calls && d != c && InTransaction(db.calls[d].pc) ==> IsScheduled(db', db.calls[d].id)
    ensures CallsOk(db')
  {
    forall d | d in db'.calls ensures CallOk(db', db'.calls[d]) {
      if d != c {
        assert CallOk(db, db.calls[d]);
        CallOkLater(db, db', db.calls[d]);
      }
    }
  }

  /** The new facts of a call after a local step or an off-table statement. */
  lemma OffTablesCall(db: Db, a: Action)
    requires Enabled(db, a) && OffTables(a)
    requires forall id :: id in db.inspections ==> RowOk(db, id)
    requires a.c in db.calls ==> CallOk(db, db.calls[a.c])
    ensures CallOk(Step(db, a), Step(db, a).calls[a.c])
  {
  }

  lemma OffTablesNotYetIn(db: Db, a: Action, r: OutboxRow)
    requires Enabled(db, a) && OffTables(a)
    requires a.c in db.calls ==> NotYetIn(db.calls[a.c], r)
    requires r.eventId in db.uuids && r.id < db.nextOutboxId
    ensures NotYetIn(Step(db, a).calls[a.c], r)
  {
  }

  lemma OffTablesApart(db: Db, a: Action, d: CallId)
    requires Enabled(db, a) && OffTables(a) && d in db.calls && d != a.c && CallOk(db, db.calls[d])
    requires a.c in db.calls ==> Apart(db.calls[a.c], db.calls[d])
    ensures Apart(Step(db, a).calls[a.c], db.calls[d]) && Apart(db.calls[d], Step(db, a).calls[a.c])
  {
  }

  lemma OffTablesKeepsCalls(db: Db, a: Action)
    requires Inv(db) && Enabled(db, a) && OffTables(a)
    ensures CallsOk(Step(db, a))
  {
    var db' := Step(db, a);
    OffTablesShape(db, a);
    OffTablesIsLater(db, a);
    OffTablesCall(db, a);
    forall d | d in db.calls && d != a.c
      ensures Apart(db'.calls[a.c], db.calls[d]) && Apart(db.calls[d], db'.calls[a.c])
    {
      OffTablesApart(db, a, d);
    }
    forall k | 0 <= k < |db.outbox| ensures NotYetIn(db'.calls[a.c], db.outbox[k]) {
      assert OutboxRowOk(db, db.outbox[k]);
      OffTablesNotYetIn(db, a, db.outbox[k]);
    }
    forall d | d in db.calls && d != a.c && InTransaction(db.calls[d].pc) ensures IsScheduled(db', db.calls[d].id) {
      assert CallOk(db, db.calls[d]);
    }
    CallsOkLater(db, db', a.c);
  }

  lemma OffTablesKeepsInv(db: Db, a: Action)
    requires Inv(db) && Enabled(db, a) && OffTables(a)
    ensures Inv(Step(db, a))
  {
    OffTablesShape(db, a);
    OffTablesIsLater(db, a);
    TablesOkLater(db, Step(db, a));
    OffTablesKeepsCalls(db, a);
  }

  lemma CreateKeepsTables(db: Db, a: Action)
    requires TablesOk(db) && Enabled(db, a) && a.Create?
    ensures TablesOk(Step(db, a))
  {
    var db' := Step(db, a);
    assert a.id in db.inspections ==> RowOk(db, a.id);
    forall id | id in db'.inspections ensures RowOk(db', id) {
      if id in db.inspections { assert RowOk(db, id); }
    }
    forall k | 0 <= k < |db'.outbox| ensures OutboxRowOk(db', db'.outbox[k]) {
      assert OutboxRowOk(db, db.outbox[k]);
    }
  }

  lemma CreateKeepsInv(db: Db, a: Action)
    requires Inv(db) && Enabled(db, a) && a.Create?
    ensures Inv(Step(db, a))
  {
    var db' := Step(db, a);
    CreateIsLater(db, a);
    CreateKeepsTables(db, a);
    forall d | d in db'.calls ensures CallOk(db', db'.calls[d]) {
      assert CallOk(db, db.calls[d]);
      CallOkLater(db, db', db.calls[d]);
    }
  }

  /** An update touches one row, and neither its identity nor its status. */
  lemma UpdateShape(db: Db, a: Action)
    requires Enabled(db, a) && a.UpdateWrite? && CallOk(db, db.calls[a.c])
    ensures var db' := Step(db, a);
      && db'.outbox == db.outbox && db'.photos == db.photos && db'.uuids == db.uuids
      && db'.nextOutboxId == db.nextOutboxId
      && db'.inspections.Keys == db.inspections.Keys
      && (forall id :: id in db.inspections ==>
            var row, row' := db.inspections[id], db'.inspections[id];
            row'.id == row.id && row'.requestId == row.requestId && row'.status == row.status &&
              row'.completedAt == row.completedAt)
      && db'.calls == db.calls[a.c := db'.calls[a.c]] && CallOk(db', db'.calls[a.c])
      && (db'.calls[a.c].pc.Done? || db'.calls[a.c].pc.Missed?)
  {
  }

  lemma TablesWithSameRows(db: Db, db': Db)
    requires TablesOk(db) && Later(db, db') && db'.outbox == db.outbox
    requires db'.inspections.Keys == db.inspections.Keys
    requires forall id :: id in db.inspections ==>
      && db'.inspections[id].requestId == db.inspections[id].requestId
      && db'.inspections[id].status == db.inspections[id].status
      && db'.inspections[id].id == db.inspections[id].id
      && db'.inspections[id].completedAt == db.inspections[id].completedAt
    ensures TablesOk(db')
  {
    forall id | id in db'.inspections ensures RowOk(db', id) {
      assert RowOk(db, id);
    }
    forall k | 0 <= k < |db'.outbox| ensures OutboxRowOk(db', db'.outbox[k]) {
      assert OutboxRowOk(db, db.outbox[k]);
      var id := db.outbox[k].payload.data.inspectionId;
      assert PhotoCount(db, id) <= PhotoCount(db', id);
    }
  }

  lemma UpdateKeepsInv(db: Db, a: Action)
    requires Inv(db) && Enabled(db, a) && a.UpdateWrite?
    ensures Inv(Step(db, a))
  {
    var db' := Step(db, a);
    assert CallOk(db, db.calls[a.c]);
    UpdateIsLater(db, a);
    UpdateShape(db, a);
    TablesWithSameRows(db, db');
    StillScheduled(db, db');
    CallsOkLater(db, db', a.c);
  }

  /** Where statuses stay, the rows under transaction stay scheduled. */
  lemma StillScheduled(db: Db, db': Db)
    requires forall d :: d in db.calls ==> CallOk(db, db.calls[d])
    requires forall id :: id in db.inspections ==>
      id in db'.inspections && db'.inspections[id].status == db.inspections[id].status
    ensures forall d :: d in db.calls && InTransaction(db.calls[d].pc) ==> IsScheduled(db', db.calls[d].id)
  {
    forall d | d in db.calls && InTransaction(db.calls[d].pc) ensures IsScheduled(db', db.calls[d].id) {
      assert CallOk(db, db.calls[d]);
    }
  }

  lemma PhotoKeepsInv(db: Db, a: Action)
    requires Inv(db) && Enabled(db, a) && a.PhotoInsert?
    ensures Inv(Step(db, a))
  {
    var db' := Step(db, a);
    PhotoIsLater(db, a);
    assert CallOk(db, db.calls[a.c]);
    TablesOkLater(db, db');
    forall d | d in db.calls && d != a.c && InTransaction(db.calls[d].pc) ensures IsScheduled(db', db.calls[d].id) {
      assert CallOk(db, db.calls[d]);
    }
    CallsOkLater(db, db', a.c);
  }

  lemma CommitRow(db: Db, a: Action, id: Uuid)
    requires Enabled(db, a) && a.CompleteCommit? && id in Step(db, a).inspections
    requires CallOk(db, db.calls[a.c]) && RowOk(db, id)
    ensures RowOk(Step(db, a), id)
  {
    var db' := Step(db, a);
    assert db'.outbox[|db.outbox|].payload.data.inspectionId == db.calls[a.c].id;
    if HasEvent(db.outbox, id) {
      var k :| 0 <= k < |db.outbox| && db.outbox[k].payload.data.inspectionId == id;
      assert db'.outbox[k] == db.outbox[k];
    }
  }

  /** An outbox row speaks of a completed inspection, so not of the one being committed. */
  lemma CommitOldRow(db: Db, a: Action, r: OutboxRow)
    requires Enabled(db, a) && a.CompleteCommit? && CallOk(db, db.calls[a.c]) && OutboxRowOk(db, r)
    requires RowOk(db, r.payload.data.inspectionId)
    ensures OutboxRowOk(Step(db, a), r) && r.payload.data.inspectionId != db.calls[a.c].id
  {
  }

  lemma CommitNewRow(db: Db, a: Action)
    requires Enabled(db, a) && a.CompleteCommit? && CallOk(db, db.calls[a.c])
    ensures var db' := Step(db, a);
      && db'.outbox == db.outbox + [NewOutboxRow(db.calls[a.c].pc.outboxId, db.calls[a.c].pc.event)]
      && OutboxRowOk(db', db'.outbox[|db.outbox|])
      && db'.outbox[|db.outbox|].payload.data.inspectionId == db.calls[a.c].id
      && db'.inspections.Keys == db.inspections.Keys
      && (forall id :: id in db.inspections ==> db'.inspections[id].requestId == db.inspections[id].requestId)
  {
  }

  lemma DistinctAppend(outbox: seq<OutboxRow>, r: OutboxRow)
    requires OutboxDistinct(outbox)
    requires forall k :: 0 <= k < |outbox| ==>
      outbox[k].id != r.id && outbox[k].eventId != r.eventId &&
      outbox[k].payload.data.inspectionId != r.payload.data.inspectionId
    ensures OutboxDistinct(outbox + [r])
  {
  }

  lemma SameRequestsUnique(db: Db, db': Db)
    requires RequestsUnique(db) && db'.inspections.Keys == db.inspections.Keys
    requires forall i :: i in db.inspections ==> db'.inspections[i].requestId == db.inspections[i].requestId
    ensures RequestsUnique(db')
  {
  }

  /** The committing transaction was the only one on its row, and the row had no event yet. */
  lemma CommitTables(db: Db, a: Action)
    requires Inv(db) && Enabled(db, a) && a.CompleteCommit?
    ensures TablesOk(Step(db, a))
  {
    var db', call, n := Step(db, a), db.calls[a.c], |db.outbox|;
    assert CallOk(db, call);
    CommitNewRow(db, a);
    forall id | id in db'.inspections ensures RowOk(db', id) {
      CommitRow(db, a, id);
    }
    SameRequestsUnique(db, db');
    forall k | 0 <= k < n
      ensures OutboxRowOk(db', db'.outbox[k]) && NotYetIn(call, db.outbox[k]) &&
        db.outbox[k].payload.data.inspectionId != call.id
    {
      assert OutboxRowOk(db, db.outbox[k]) && RowOk(db, db.outbox[k].payload.data.inspectionId);
      CommitOldRow(db, a, db.outbox[k]);
      assert NotYetIn(call, db.outbox[k]);
    }
    DistinctAppend(db.outbox, db'.outbox[n]);
  }

  /** Another call after a commit: its transaction, if any, is on another row. */
  lemma CommitOtherCall(db: Db, a: Action, d: CallId)
    requires Enabled(db, a) && a.CompleteCommit? && d in db.calls && d != a.c && Later(db, Step(db, a))
    requires CallOk(db, db.calls[d]) && Apart(db.calls[a.c], db.calls[d])
    ensures Step(db, a).calls[d] == db.calls[d] && CallOk(Step(db, a), db.calls[d])
    ensures NotYetIn(db.calls[d], Step(db, a).outbox[|db.outbox|])
  {
    CallOkLater(db, Step(db, a), db.calls[d]);
  }

  lemma CommitOwnCall(db: Db, a: Action)
    requires Enabled(db, a) && a.CompleteCommit?
    ensures Step(db, a).calls == db.calls[a.c := db.calls[a.c].(pc := Reply(a.replied))]
    ensures CallOk(Step(db, a), Step(db, a).calls[a.c])
    ensures |Step(db, a).outbox| == |db.outbox| + 1 && db.outbox <= Step(db, a).outbox
  {
  }

  /** An ended call shares nothing with anybody; the others keep apart. */
  lemma CallsWithOneDone(db: Db, db': Db, c: CallId)
    requires CallsOk(db) && c in db.calls && c in db'.calls && db'.calls[c].pc.Done?
    requires db'.calls == db.calls[c := db'.calls[c]]
    requires |db'.outbox| == |db.outbox| + 1 && db.outbox <= db'.outbox
    requires forall d :: d in db'.calls ==> CallOk(db', db'.calls[d])
    requires forall d :: d in db.calls && d != c ==> NotYetIn(db.calls[d], db'.outbox[|db.outbox|])
    ensures CallsOk(db')
  {
    forall d, k | d in db'.calls && 0 <= k < |db'.outbox| ensures NotYetIn(db'.calls[d], db'.outbox[k]) {
      if d != c && k < |db.outbox| {
        assert NotYetIn(db.calls[d], db.outbox[k]);
      }
    }
  }

  lemma CommitCalls(db: Db, a: Action)
    requires Inv(db) && Enabled(db, a) && a.CompleteCommit?
    ensures CallsOk(Step(db, a))
  {
    CommitIsLater(db, a);
    CommitOwnCall(db, a);
    forall d | d in db.calls && d != a.c
      ensures CallOk(Step(db, a), db.calls[d]) && NotYetIn(db.calls[d], Step(db, a).outbox[|db.outbox|])
    {
      assert CallOk(db, db.calls[d]) && Apart(db.calls[a.c], db.calls[d]);
      CommitOtherCall(db, a, d);
    }
    CallsWithOneDone(db, Step(db, a), a.c);
  }

  lemma StepKeepsInv(db: Db, a: Action)
    requires Inv(db) && Enabled(db, a)
    ensures Inv(Step(db, a))
  {
    match a
    case Create(_, _, _) => CreateKeepsInv(db, a);
    case UpdateWrite(_, _) => UpdateKeepsInv(db, a);
    case CompleteCommit(_, _) => CommitTables(db, a); CommitCalls(db, a);
    case PhotoInsert(_, _) => PhotoKeepsInv(db, a);
    case _ => OffTablesKeepsInv(db, a);
  }
}
