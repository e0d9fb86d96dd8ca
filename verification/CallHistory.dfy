/** What a call in flight still remembers of the row it read, over any continuation. */
module CallHistory {
  import opened Domain
  import opened Lifecycle
  import LI = LifecycleInvariant
  import opened InspectService

  function CallAt(t: Trace, c: CallId): Call
    requires c in End(t).db.calls
  {
    End(t).db.calls[c]
  }

  /** The run ends with call c reading an existing row. */
  predicate JustRead(u: Trace, c: CallId) {
    Moved(u) && u.act == Act.Serve(ReadRow(c)) && c in End(u).db.calls && CallAt(u, c).pc.HasRow?
  }

  /** The run ends with the commit of call c. */
  predicate Commits(t: Trace, c: CallId) {
    Moved(t) && t.act.Serve? && t.act.call.CompleteCommit? && t.act.call.c == c
  }

  /** A call that has certainly got past its read of the row. */
  predicate PastRead(pc: Pc) {
    pc != Begin && pc !in {Done(ErrNotFound), Done(ErrDatabase)}
  }

  lemma FirstPastRead(db: Db, a: Action, c: CallId)
    requires Enabled(db, a) && c in Step(db, a).calls && PastRead(Step(db, a).calls[c].pc)
    requires c in db.calls ==> !PastRead(db.calls[c].pc)
    ensures a == ReadRow(c) && Step(db, a).calls[c].pc.HasRow?
  {
  }

  /** Every call that is past its read did read a row at some point of the run. */
  lemma {:induction false} FindRead(t: Trace, c: CallId) returns (u: Trace)
    requires c in End(t).db.calls && PastRead(CallAt(t, c).pc)
    ensures Extends(u, t) && JustRead(u, c)
  {
    var s := End(t.prev);
    if c in s.db.calls && PastRead(s.db.calls[c].pc) {
      u := FindRead(t.prev, c);
    } else {
      DbMoves(s, t.act);
      FirstPastRead(s.db, DbAction(s, t.act).value, c);
      u := t;
    }
  }

  lemma ReadsTheRow(u: Trace, c: CallId)
    requires JustRead(u, c)
    ensures CallAt(u, c).id in End(u).db.inspections && End(u).db.inspections[CallAt(u, c).id] == CallAt(u, c).pc.row
  {
  }

  /** A call that once read `row`, when its inspection had `count` photos. */
  ghost predicate CameFrom(row: Inspection, count: nat, call: Call) {
    match call.pc
    case Begin => false
    case HasRow(r) => r == row
    case Loaded(r, photos) => r == row && count <= |photos|
    case Writing(insp, prev) =>
      call.op.Update? && prev == row.updatedAt && ColumnsOf(insp) == ApplyPatch(ColumnsOf(row), call.op.patch)
    case Completing(_, event) => FromRow(row, count, event)
    case Locked(_, event) => FromRow(row, count, event)
    case Drawn(_, event, _) => FromRow(row, count, event)
    case Adding(_) => row.status == Scheduled
    case Missed => !call.op.Update? ==> row.status == Scheduled
    case Done(result) =>
      && result != ErrNotFound
      && (result == ErrInvalidStatus ==> row.status != Scheduled)
      && (!call.op.Update? && result in {Success, ErrConflict} ==> row.status == Scheduled)
  }

  ghost predicate FromRow(row: Inspection, count: nat, event: Event) {
    && row.status == Scheduled
    && event.requestId == row.requestId
    && event.data.inspectorId == row.inspectorId
    && count <= event.data.photoCount
  }

  lemma PrepareKeepsOrigin(db: Db, a: Action, row: Inspection, count: nat)
    requires Enabled(db, a) && a.Prepare? && CameFrom(row, count, db.calls[a.c])
    ensures CameFrom(row, count, Step(db, a).calls[a.c])
  {
  }

  lemma OwnStepKeepsOrigin(db: Db, a: Action, row: Inspection, count: nat)
    requires !a.Create? && !a.Prepare? && !a.Invoke? && Enabled(db, a) && LI.CallOk(db, db.calls[a.c])
    requires CameFrom(row, count, db.calls[a.c]) && count <= PhotoCount(db, db.calls[a.c].id)
    ensures CameFrom(row, count, Step(db, a).calls[a.c])
  {
  }

  lemma CallKeepsSubject(db: Db, a: Action, c: CallId)
    requires Enabled(db, a) && c in db.calls
    ensures c in Step(db, a).calls
    ensures Step(db, a).calls[c].id == db.calls[c].id && Step(db, a).calls[c].op == db.calls[c].op
    ensures a.Create? || a.c != c ==> Step(db, a).calls[c] == db.calls[c]
  {
  }

  lemma StepKeepsOrigin(db: Db, a: Action, c: CallId, row: Inspection, count: nat)
    requires Enabled(db, a) && c in db.calls && LI.CallOk(db, db.calls[c]) && CameFrom(row, count, db.calls[c])
    requires count <= PhotoCount(db, db.calls[c].id)
    ensures c in Step(db, a).calls && CameFrom(row, count, Step(db, a).calls[c])
    ensures Step(db, a).calls[c].id == db.calls[c].id && Step(db, a).calls[c].op == db.calls[c].op
  {
    CallKeepsSubject(db, a, c);
    if !a.Create? && a.c == c {
      if a.Prepare? {
        PrepareKeepsOrigin(db, a, row, count);
      } else {
        OwnStepKeepsOrigin(db, a, row, count);
      }
    }
  }

  lemma PhotosGrow(t: Trace, u: Trace, id: Uuid)
    requires Extends(t, u)
    ensures PhotoCount(End(t).db, id) <= PhotoCount(End(u).db, id)
  {
    ExtendsIsLater(t, u);
  }

  lemma {:induction false} KeepsOrigin(u: Trace, t: Trace, c: CallId)
    requires JustRead(u, c) && Extends(u, t)
    ensures c in End(t).db.calls
    ensures CameFrom(CallAt(u, c).pc.row, PhotoCount(End(u).db, CallAt(u, c).id), CallAt(t, c))
    ensures CallAt(t, c).id == CallAt(u, c).id && CallAt(t, c).op == CallAt(u, c).op
  {
    if u != t {
      KeepsOrigin(u, t.prev, c);
      CallIsOk(t.prev, c);
      PhotosGrow(u, t.prev, CallAt(u, c).id);
      var s := End(t.prev);
      if CanAct(s, t.act) {
        DbMoves(s, t.act);
        match DbAction(s, t.act)
        case Some(x) => StepKeepsOrigin(s.db, x, c, CallAt(u, c).pc.row, PhotoCount(End(u).db, CallAt(u, c).id));
        case None =>
      }
    }
  }
}
