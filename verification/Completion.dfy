/** Completion: one event per completed inspection, one winner per inspection, and
    nothing taken back afterwards. */
module Completion {
  import opened Domain
  import opened Lifecycle
  import LI = LifecycleInvariant
  import R = OutboxRelay
  import RI = RelayInvariant
  import opened InspectService
  import opened CallHistory

  /** The outbox rows that carry the event of one inspection, by position. */
  function RowsFor(outbox: seq<OutboxRow>, id: Uuid): set<nat> {
    set k: nat | k < |outbox| && outbox[k].payload.data.inspectionId == id
  }

  lemma RowsForIsSingle(outbox: seq<OutboxRow>, id: Uuid)
    requires LI.OutboxDistinct(outbox)
    ensures |RowsFor(outbox, id)| == if LI.HasEvent(outbox, id) then 1 else 0
  {
    var ks := RowsFor(outbox, id);
    if LI.HasEvent(outbox, id) {
      var k: nat :| k < |outbox| && outbox[k].payload.data.inspectionId == id;
      forall j | j in ks ensures j == k {
      }
      assert ks == {k};
    } else {
      assert ks == {};
    }
  }

  /** In every reachable state an inspection is completed exactly when one outbox row
      carries it; that row is addressed by its request; and no two rows share a request. */
  lemma Atomicity(t: Trace)
    ensures var db := End(t).db;
      && (forall id :: id in db.inspections ==>
            (IsCompleted(db, id) <==> |RowsFor(db.outbox, id)| == 1) &&
            (IsScheduled(db, id) <==> |RowsFor(db.outbox, id)| == 0))
      && (forall k :: 0 <= k < |db.outbox| ==>
            var r := db.outbox[k];
            && r.payload.data.inspectionId in db.inspections
            && r.eventId == r.payload.eventId && r.topic == "inspect.events" && r.eventType == "inspect.completed"
            && r.aggregateId == r.payload.requestId == db.inspections[r.payload.data.inspectionId].requestId)
      && (forall j, k :: 0 <= j < k < |db.outbox| ==> db.outbox[j].aggregateId != db.outbox[k].aggregateId)
  {
    Reachable(t);
    var db := End(t).db;
    forall k | 0 <= k < |db.outbox|
      ensures var r := db.outbox[k];
        && r.payload.data.inspectionId in db.inspections
        && IsCompleted(db, r.payload.data.inspectionId)
        && r.aggregateId == r.payload.requestId == db.inspections[r.payload.data.inspectionId].requestId
    {
      assert LI.OutboxRowOk(db, db.outbox[k]);
      assert LI.RowOk(db, db.outbox[k].payload.data.inspectionId);
    }
    forall id | id in db.inspections
      ensures IsCompleted(db, id) <==> |RowsFor(db.outbox, id)| == 1
      ensures IsScheduled(db, id) <==> |RowsFor(db.outbox, id)| == 0
    {
      assert LI.RowOk(db, id);
      RowsForIsSingle(db.outbox, id);
    }
  }

  /** A queued row speaks of the inspection as it is stored, up to storage rounding, and
      every copy of an event of that inspection in the log carries this row's payload. */
  ghost predicate SpeaksFor(s: State, row: OutboxRow, id: Uuid) {
    && row in s.db.outbox
    && id in s.db.inspections
    && row.payload.data.inspectionId == id
    && row.payload.requestId == s.db.inspections[id].requestId
    && s.db.inspections[id].completedAt == Some(Stored(row.payload.data.completedAt))
    && (forall n :: 0 <= n < |s.relay.log| && s.relay.log[n].value.data.inspectionId == id ==>
          s.relay.log[n].value == row.payload)
  }

  lemma CompletedIsSpokenFor(t: Trace, id: Uuid)
    requires IsCompleted(End(t).db, id)
    ensures exists row :: SpeaksFor(End(t), row, id)
  {
    Reachable(t);
    var s := End(t);
    assert LI.RowOk(s.db, id);
    var k :| 0 <= k < |s.db.outbox| && s.db.outbox[k].payload.data.inspectionId == id;
    assert LI.OutboxRowOk(s.db, s.db.outbox[k]);
    forall n | 0 <= n < |s.relay.log| && s.relay.log[n].value.data.inspectionId == id
      ensures s.relay.log[n].value == s.db.outbox[k].payload
    {
      assert RI.FromRows(s.db.outbox, s.relay.log[n]);
      var j :| 0 <= j < |s.db.outbox| && R.RecordOf(s.db.outbox[j]) == s.relay.log[n];
      assert j == k;
    }
    assert SpeaksFor(s, s.db.outbox[k], id);
  }

  /** Once completed, the identity, status and completion time of an inspection are the same
      in every continuation, and the outbox row that speaks for it is the same one there. */
  lemma Stability(t: Trace, u: Trace, id: Uuid, row: OutboxRow)
    requires Extends(t, u) && IsCompleted(End(t).db, id) && SpeaksFor(End(t), row, id)
    ensures id in End(u).db.inspections
    ensures var now, later := End(t).db.inspections[id], End(u).db.inspections[id];
      && later.id == now.id && later.requestId == now.requestId
      && later.status == Completed && later.completedAt == now.completedAt
    ensures SpeaksFor(End(u), row, id)
  {
    ExtendsIsLater(t, u);
    assert LI.RowLater(End(t).db.inspections[id], End(u).db, id);
    CompletedIsSpokenFor(u, id);
    var row' :| SpeaksFor(End(u), row', id);
    var j :| 0 <= j < |End(u).db.outbox| && End(u).db.outbox[j] == row';
    var k :| 0 <= k < |End(t).db.outbox| && End(t).db.outbox[k] == row;
    Reachable(u);
    assert End(u).db.outbox[k] == row;
    assert j == k;
  }

  // ----- one winner -----

  predicate CompletedBy(db: Db, c: CallId, id: Uuid, result: Result) {
    c in db.calls && db.calls[c].op.Complete? && db.calls[c].id == id && db.calls[c].pc == Done(result)
  }

  /** A new success is a commit on a scheduled row. */
  lemma SuccessIsACommit(db: Db, a: Action, c: CallId, id: Uuid)
    requires Enabled(db, a) && (c in db.calls ==> LI.CallOk(db, db.calls[c]))
    requires CompletedBy(Step(db, a), c, id, Success) && !CompletedBy(db, c, id, Success)
    ensures a.CompleteCommit? && a.c == c && IsScheduled(db, id)
  {
  }

  lemma NoSuccessWhileScheduled(db: Db, id: Uuid, c: CallId)
    requires LI.Inv(db) && IsScheduled(db, id)
    ensures !CompletedBy(db, c, id, Success)
  {
    assert c in db.calls ==> LI.CallOk(db, db.calls[c]);
  }

  /** A success that is new at the end of a run is its commit, and the first one. */
  lemma NewSuccess(t: Trace, c: CallId, id: Uuid)
    requires t.After? && CompletedBy(End(t).db, c, id, Success) && !CompletedBy(End(t.prev).db, c, id, Success)
    ensures Commits(t, c) && forall d :: !CompletedBy(End(t.prev).db, d, id, Success)
  {
    var s := End(t.prev);
    Reachable(t.prev);
    DbMoves(s, t.act);
    SuccessIsACommit(s.db, DbAction(s, t.act).value, c, id);
    forall d ensures !CompletedBy(s.db, d, id, Success) {
      NoSuccessWhileScheduled(s.db, id, d);
    }
  }

  /** Of all Complete calls on one inspection at most one is told it succeeded. */
  lemma {:induction false} WinnerIsUnique(t: Trace, id: Uuid, c: CallId, d: CallId)
    requires CompletedBy(End(t).db, c, id, Success) && CompletedBy(End(t).db, d, id, Success)
    ensures c == d
  {
    var db := End(t.prev).db;
    if CompletedBy(db, c, id, Success) && CompletedBy(db, d, id, Success) {
      WinnerIsUnique(t.prev, id, c, d);
    } else {
      NewSuccess(t, if CompletedBy(db, c, id, Success) then d else c, id);
      if c != d {
        NewSuccess(t, c, id);
        NewSuccess(t, d, id);
      }
    }
  }

  /** A run that ends with a step of call c. */
  predicate StepOf(t: Trace, c: CallId) {
    Moved(t) && t.act.Serve? && t.act.call.c == c
  }

  /** A Complete call's step that changes a table ends the call, with Success or a database error. */
  lemma TableStepsEndTheCall(db: Db, a: Action)
    requires Enabled(db, a) && !a.Create? && Step(db, a).calls[a.c].op.Complete?
    requires a.c in db.calls ==> LI.CallOk(db, db.calls[a.c])
    requires Step(db, a).outbox != db.outbox || Step(db, a).inspections != db.inspections ||
      Step(db, a).photos != db.photos
    ensures Step(db, a).calls[a.c].pc in {Done(Success), Done(ErrDatabase)}
  {
  }

  /** A Complete call that ended with NotFound, InvalidStatus or Conflict never changed a table. */
  lemma LoserWroteNothing(u: Trace, t: Trace, c: CallId, id: Uuid, result: Result)
    requires Extends(u, t) && StepOf(u, c)
    requires result in {ErrNotFound, ErrInvalidStatus, ErrConflict} && CompletedBy(End(t).db, c, id, result)
    ensures End(u).db.outbox == End(u.prev).db.outbox
    ensures End(u).db.inspections == End(u.prev).db.inspections
    ensures End(u).db.photos == End(u.prev).db.photos
  {
    var db := End(u.prev).db;
    if c in db.calls { CallIsOk(u.prev, c); }
    DbMoves(End(u.prev), u.act);
    CallPersists(u, t, c);
    if End(u).db.outbox != db.outbox || End(u).db.inspections != db.inspections || End(u).db.photos != db.photos {
      TableStepsEndTheCall(db, u.act.call);
    }
  }

  /** A call that was told Success did commit. */
  lemma {:induction false} WinnerCommitted(t: Trace, c: CallId, id: Uuid)
    requires CompletedBy(End(t).db, c, id, Success)
    ensures exists u :: Extends(u, t) && Commits(u, c)
  {
    if CompletedBy(End(t.prev).db, c, id, Success) {
      WinnerCommitted(t.prev, c, id);
      var u :| Extends(u, t.prev) && Commits(u, c);
      assert Extends(u, t);
    } else {
      NewSuccess(t, c, id);
      assert Extends(t, t) && Commits(t, c);
    }
  }

  lemma FlipIsACommit(db: Db, a: Action, id: Uuid)
    requires Enabled(db, a) && id in db.inspections && id in db.uuids
    requires !IsCompleted(db, id) && IsCompleted(Step(db, a), id)
    ensures a.CompleteCommit? && db.calls[a.c].id == id
  {
  }

  lemma RowIdIsDrawn(t: Trace, id: Uuid)
    requires id in End(t).db.inspections
    ensures id in End(t).db.uuids
  {
    Reachable(t);
    assert LI.RowOk(End(t).db, id);
  }

  /** A status flips only at a commit. */
  lemma {:induction false} FlipHasCommit(u: Trace, t: Trace, id: Uuid) returns (v: Trace)
    requires Extends(u, t) && IsScheduled(End(u).db, id) && IsCompleted(End(t).db, id)
    ensures Extends(u, v) && Extends(v, t) && v != u && Moved(v) && v.act.Serve? && v.act.call.CompleteCommit?
    ensures v.act.call.c in End(v.prev).db.calls && CallAt(v.prev, v.act.call.c).id == id
  {
    var s := End(t.prev);
    if IsCompleted(s.db, id) {
      v := FlipHasCommit(u, t.prev, id);
    } else {
      RowPersists(u, t.prev, id);
      RowIdIsDrawn(t.prev, id);
      DbMoves(s, t.act);
      FlipIsACommit(s.db, DbAction(s, t.act).value, id);
      v := t;
    }
  }

  predicate MissedComplete(db: Db, c: CallId) {
    c in db.calls && db.calls[c].op.Complete? && db.calls[c].pc in {Missed, Done(ErrConflict)}
  }

  lemma MissIsACas(db: Db, a: Action, c: CallId)
    requires Enabled(db, a) && MissedComplete(Step(db, a), c) && !MissedComplete(db, c)
    requires c in db.calls ==> LI.CallOk(db, db.calls[c])
    ensures a == CompleteCas(c) && Step(db, a).calls[c].pc == Missed
  {
  }

  /** Where a Complete call missed its guard. */
  lemma {:induction false} FindMiss(u: Trace, t: Trace, c: CallId) returns (w: Trace)
    requires JustRead(u, c) && Extends(u, t) && MissedComplete(End(t).db, c)
    ensures Extends(u, w) && Extends(w, t) && Moved(w) && w.act == Act.Serve(CompleteCas(c))
    ensures c in End(w).db.calls && CallAt(w, c).pc == Missed && CallAt(w, c).op.Complete?
  {
    var s := End(t.prev);
    if MissedComplete(s.db, c) {
      w := FindMiss(u, t.prev, c);
    } else {
      if c in s.db.calls { CallIsOk(t.prev, c); }
      DbMoves(s, t.act);
      MissIsACas(s.db, DbAction(s, t.act).value, c);
      w := t;
    }
  }

  /** Another Complete call committed between the read and the write of this one. */
  ghost predicate OvertakenBetween(u: Trace, w: Trace, c: CallId, id: Uuid) {
    exists v :: Extends(u, v) && Extends(v, w) && Moved(v) && v.act.Serve? && v.act.call.CompleteCommit? &&
      v.act.call.c != c && v.act.call.c in End(v.prev).db.calls && CallAt(v.prev, v.act.call.c).id == id
  }

  /** Between u and t, the run w ends with the call's guarded write. */
  predicate MissedAt(u: Trace, w: Trace, t: Trace, c: CallId) {
    Extends(u, w) && Extends(w, t) && Moved(w) && w.act == Act.Serve(CompleteCas(c))
  }

  /** Call c read a scheduled row at u, missed its guard at w, and was overtaken in between. */
  ghost predicate WasOvertaken(u: Trace, w: Trace, t: Trace, c: CallId, id: Uuid) {
    JustRead(u, c) && IsScheduled(End(u).db, id) && MissedAt(u, w, t, c) && OvertakenBetween(u, w, c, id)
  }

  /** Conflict means that this call read a scheduled row, missed its guard later, and was overtaken in between. */
  lemma ConflictWasOvertaken(t: Trace, c: CallId, id: Uuid)
    requires CompletedBy(End(t).db, c, id, ErrConflict)
    ensures exists u, w :: WasOvertaken(u, w, t, c, id)
  {
    var u := FindRead(t, c);
    var w := MissWasOvertaken(u, t, c, id);
  }

  lemma MissWasOvertaken(u: Trace, t: Trace, c: CallId, id: Uuid) returns (w: Trace)
    requires JustRead(u, c) && Extends(u, t) && CompletedBy(End(t).db, c, id, ErrConflict)
    ensures WasOvertaken(u, w, t, c, id)
  {
    w := FindMiss(u, t, c);
    KeepsOrigin(u, t, c);
    KeepsOrigin(u, w, c);
    Reachable(w);
    assert LI.CallOk(End(w).db, CallAt(w, c));
    ReadsTheRow(u, c);
    var v := FlipHasCommit(u, w, id);
    CommitEndsCall(v);
    ExtendsIsLater(v, w);
    assert LI.CallLater(CallAt(v, v.act.call.c), End(w).db, v.act.call.c);
    assert v.act.call.c != c;
  }

  lemma CommitEndsCall(v: Trace)
    requires Moved(v) && v.act.Serve? && v.act.call.CompleteCommit?
    ensures v.act.call.c in End(v).db.calls && CallAt(v, v.act.call.c).pc.Done?
  {
  }

  /** After a successful read no call reports NotFound. */
  lemma ReadIsNeverNotFound(u: Trace, t: Trace, c: CallId)
    requires JustRead(u, c) && Extends(u, t)
    ensures c in End(t).db.calls && CallAt(t, c).pc != Done(ErrNotFound)
  {
    KeepsOrigin(u, t, c);
  }
}
