/** What is older than it looks: a stamp that a completion stores late, and the inspector
    that an event names. Both with the exact interleaving that makes it so. */
module Staleness {
  import opened Domain
  import opened Lifecycle
  import opened InspectService
  import opened CallHistory
  import opened Updates
  import opened Stamps

  // ----- a clock that only rises -----

  /** Each reading of the clock for an inspection is later, as stored, than all before it. */
  ghost predicate ClockRises(t: Trace) {
    t.After? ==>
      && ClockRises(t.prev)
      && !End(t).db.collided
      && RisesOver(End(t.prev).db.stamps, End(t).db.stamps)
  }

  ghost predicate RisesOver(old': set<(Uuid, Time)>, new': set<(Uuid, Time)>) {
    forall p, q :: p in new' && p !in old' && q in old' && q.0 == p.0 ==> q.1 < p.1
  }

  /** The run ends with the local step in which call c draws its stamp. */
  predicate DrawsStamp(t: Trace, c: CallId) {
    Moved(t) && t.act.Serve? && t.act.call.Prepare? && t.act.call.c == c && c in End(t).db.calls &&
      NewStamp(CallAt(t, c)).Some?
  }

  /** The stamp that call c draws there. */
  function DrawnStamp(p: Trace, c: CallId): Time
    requires DrawsStamp(p, c)
  {
    NewStamp(CallAt(p, c)).value
  }

  lemma StampIsKept(db: Db, a: Action, c: CallId)
    requires Enabled(db, a) && c in Step(db, a).calls && NewStamp(Step(db, a).calls[c]).Some?
    ensures c in db.calls && db.calls[c].id == Step(db, a).calls[c].id && db.calls[c].op == Step(db, a).calls[c].op
    ensures (a.Prepare? && a.c == c) || NewStamp(db.calls[c]) == NewStamp(Step(db, a).calls[c])
  {
    if c in db.calls {
      CallKeepsSubject(db, a, c);
    }
  }

  /** Every call that holds a stamp drew it at some point of the run. */
  lemma {:induction false} FindDraw(t: Trace, c: CallId) returns (p: Trace)
    requires c in End(t).db.calls && NewStamp(CallAt(t, c)).Some?
    ensures Extends(p, t) && DrawsStamp(p, c) && NewStamp(CallAt(p, c)) == NewStamp(CallAt(t, c))
    ensures CallAt(p, c).id == CallAt(t, c).id && CallAt(p, c).op == CallAt(t, c).op
  {
    if DrawsStamp(t, c) {
      p := t;
    } else {
      var s := End(t.prev);
      if CanAct(s, t.act) {
        DbMoves(s, t.act);
        match DbAction(s, t.act)
        case Some(x) => StampIsKept(s.db, x, c);
        case None =>
      }
      p := FindDraw(t.prev, c);
    }
  }

  /** A stamp is above all that were drawn for its inspection before. */
  lemma DrawIsAbove(p: Trace, c: CallId)
    requires ClockRises(p) && DrawsStamp(p, c)
    ensures forall q :: q in End(p.prev).db.stamps && q.0 == CallAt(p, c).id ==> q.1 < DrawnStamp(p, c)
    ensures (CallAt(p, c).id, DrawnStamp(p, c)) in End(p).db.stamps
    ensures End(p).db.inspections == End(p.prev).db.inspections
    ensures c in End(p.prev).db.calls && CallAt(p, c).op == CallAt(p.prev, c).op
  {
  }

  lemma {:induction false} RisingPrefix(p: Trace, t: Trace)
    requires ClockRises(t) && Extends(p, t)
    ensures ClockRises(p) && !End(p).db.collided
  {
    if p != t {
      RisingPrefix(p, t.prev);
    }
  }

  /** An update that passes its guard only ever raises the stamp of the row. */
  lemma UpdateRaisesStamp(t: Trace, id: Uuid)
    requires ClockRises(t) && Passes(t, id)
    ensures id in End(t.prev).db.inspections && id in End(t).db.inspections
    ensures End(t.prev).db.inspections[id].updatedAt < End(t).db.inspections[id].updatedAt
  {
    var c := t.act.call.c;
    var p := FindDraw(t.prev, c);
    var u := FindRead(t.prev, c);
    KeepsOrigin(u, t.prev, c);
    RisingPrefix(p, t);
    RisingPrefix(u, t);
    DrawIsAbove(p, c);
    DrawFollowsRead(u, p, t.prev, c);
    ReadStampIsDrawn(u, p, c);
  }

  lemma DrawFollowsRead(u: Trace, p: Trace, t: Trace, c: CallId)
    requires JustRead(u, c) && DrawsStamp(p, c) && Extends(u, t) && Extends(p, t)
    ensures Extends(u, p.prev)
  {
    PrefixesCompare(u, p, t);
    if !Extends(u, p.prev) {
      assert Extends(p, u);
      DrawnIsPastBegin(p, u, c);
    }
  }

  lemma DrawnStepsOn(db: Db, a: Action, c: CallId)
    requires Enabled(db, a) && c in db.calls && !db.calls[c].pc.Begin? && !db.calls[c].pc.HasRow? &&
      !db.calls[c].pc.Loaded?
    ensures c in Step(db, a).calls
    ensures var pc := Step(db, a).calls[c].pc; !pc.Begin? && !pc.HasRow? && !pc.Loaded?
  {
    CallKeepsSubject(db, a, c);
  }

  /** After its draw a call never reads its row again. */
  lemma {:induction false} DrawnIsPastBegin(p: Trace, u: Trace, c: CallId)
    requires DrawsStamp(p, c) && Extends(p, u)
    ensures c in End(u).db.calls && !CallAt(u, c).pc.Begin? && !CallAt(u, c).pc.HasRow? && !CallAt(u, c).pc.Loaded?
  {
    if p != u {
      DrawnIsPastBegin(p, u.prev, c);
      var s := End(u.prev);
      if CanAct(s, u.act) {
        DbMoves(s, u.act);
        match DbAction(s, u.act)
        case Some(x) => DrawnStepsOn(s.db, x, c);
        case None =>
      }
    }
  }

  lemma ReadStampIsDrawn(u: Trace, p: Trace, c: CallId)
    requires JustRead(u, c) && DrawsStamp(p, c) && Extends(u, p.prev) && !End(u).db.collided
    ensures (CallAt(u, c).id, CallAt(u, c).pc.row.updatedAt) in End(p.prev).db.stamps
  {
    ReadsTheRow(u, c);
    ReachableIsDistinct(u);
    ExtendsIsLater(u, p.prev);
  }

  /** While a row is scheduled its stamp only rises. */
  lemma {:induction false} ScheduledStampRises(v: Trace, t: Trace, id: Uuid)
    requires ClockRises(t) && Extends(v, t) && id in End(v).db.inspections && IsScheduled(End(t).db, id)
    ensures End(v).db.inspections[id].updatedAt <= End(t).db.inspections[id].updatedAt
  {
    if v != t {
      RowPersists(v, t.prev, id);
      RowPersists(t.prev, t, id);
      assert !CommitsOn(t, id);
      ScheduledStampRises(v, t.prev, id);
      if Passes(t, id) {
        UpdateRaisesStamp(t, id);
      } else {
        LeftAlone(t, id);
      }
    }
  }

  lemma LeftAlone(t: Trace, id: Uuid)
    requires t.After? && id in End(t.prev).db.inspections && !Writes(t, id)
    ensures id in End(t).db.inspections && End(t).db.inspections[id] == End(t.prev).db.inspections[id]
  {
    var s := End(t.prev);
    Reachable(t.prev);
    if CanAct(s, t.act) {
      DbMoves(s, t.act);
      match DbAction(s, t.act)
      case Some(x) => OtherStepsLeaveRow(s.db, x, id);
      case None =>
    }
  }

  /** Call c drew its stamp at p; an update of the same row drew a later one at q and passed its guard at v. */
  ghost predicate OvertookStamp(p: Trace, q: Trace, v: Trace, t: Trace, c: CallId, id: Uuid) {
    && DrawsStamp(p, c) && Extends(p, q)
    && Passes(v, id) && DrawsStamp(q, v.act.call.c) && Extends(q, v) && Extends(v, t)
  }

  lemma CommitStores(t: Trace, id: Uuid)
    requires CommitsOn(t, id)
    ensures IsScheduled(End(t.prev).db, id) && id in End(t).db.inspections
    ensures NewStamp(CallAt(t.prev, t.act.call.c)) == Some(End(t).db.inspections[id].updatedAt)
    ensures CallAt(t.prev, t.act.call.c).op.Complete?
  {
    CallIsOk(t.prev, t.act.call.c);
  }

  /** A commit whose stamp is below the row's was overtaken by an update stamped after it. */
  lemma LowCommitWasOvertaken(t: Trace, id: Uuid) returns (p: Trace, q: Trace, v: Trace)
    requires ClockRises(t) && CommitsOn(t, id) && id in End(t.prev).db.inspections && id in End(t).db.inspections
    requires End(t).db.inspections[id].updatedAt < End(t.prev).db.inspections[id].updatedAt
    ensures OvertookStamp(p, q, v, t.prev, t.act.call.c, id)
  {
    var c := t.act.call.c;
    CommitStores(t, id);
    p := FindDraw(t.prev, c);
    RowAtDraw(p, t, c, id);
    v := LastWrite(p, t.prev, id);
    UpdateIsLastWrite(p, v, t.prev, id);
    var d := v.act.call.c;
    q := FindDraw(v.prev, d);
    WriteStoresNewStamp(v, id);
    assert Extends(q, v);
    ExtendsTransitive(q, v, t.prev);
    LaterStampIsDrawnLater(p, q, t, c, d);
  }

  /** The row that a call is about to complete existed when the call drew its stamp, with a lower one. */
  lemma RowAtDraw(p: Trace, t: Trace, c: CallId, id: Uuid)
    requires ClockRises(t) && DrawsStamp(p, c) && Extends(p, t) && CallAt(p, c).id == id
    ensures id in End(p).db.inspections && End(p).db.inspections[id].updatedAt < DrawnStamp(p, c)
  {
    RisingPrefix(p, t);
    DrawIsAbove(p, c);
    CallIsOk(p, c);
    RisingPrefix(p.prev, p);
    ReachableIsDistinct(p.prev);
  }

  /** As long as the row is scheduled, only updates write it. */
  lemma UpdateIsLastWrite(p: Trace, v: Trace, t: Trace, id: Uuid)
    requires WriteBetween(p, v, t, id) && IsScheduled(End(t).db, id)
    ensures Passes(v, id)
  {
    if CommitsOn(v, id) {
      CommitStores(v, id);
      RowPersists(v, t, id);
    }
  }

  lemma LaterStampIsDrawnLater(p: Trace, q: Trace, t: Trace, c: CallId, d: CallId)
    requires ClockRises(t) && DrawsStamp(p, c) && DrawsStamp(q, d) && Extends(p, t) && Extends(q, t)
    requires CallAt(p, c).id == CallAt(q, d).id && DrawnStamp(p, c) < DrawnStamp(q, d)
    ensures Extends(p, q)
  {
    PrefixesCompare(p, q, t);
    if Extends(q, p) && p != q {
      RisingPrefix(p, t);
      RisingPrefix(q, t);
      DrawIsAbove(p, c);
      DrawIsAbove(q, d);
      ExtendsIsLater(q, p.prev);
    }
  }

  lemma LaterDrawIsAbove(p: Trace, q: Trace, c: CallId, d: CallId)
    requires ClockRises(q) && DrawsStamp(p, c) && DrawsStamp(q, d) && Extends(p, q) && p != q
    requires CallAt(p, c).id == CallAt(q, d).id
    ensures DrawnStamp(p, c) < DrawnStamp(q, d)
  {
    RisingPrefix(p, q);
    DrawIsAbove(p, c);
    DrawIsAbove(q, d);
    ExtendsIsLater(p, q.prev);
    assert (CallAt(p, c).id, DrawnStamp(p, c)) in End(q.prev).db.stamps;
  }

  /** A commit that was overtaken so stores a stamp below the row's. */
  lemma OvertakenCommitIsLow(p: Trace, q: Trace, v: Trace, t: Trace, id: Uuid)
    requires ClockRises(t) && CommitsOn(t, id) && OvertookStamp(p, q, v, t.prev, t.act.call.c, id)
    ensures id in End(t).db.inspections && id in End(t.prev).db.inspections
    ensures End(t).db.inspections[id].updatedAt < End(t.prev).db.inspections[id].updatedAt
  {
    var c, d := t.act.call.c, v.act.call.c;
    CommitStores(t, id);
    ExtendsTransitive(q, v, t.prev);
    ExtendsTransitive(p, q, t.prev);
    DrawnStays(p, t.prev, c);
    DrawnStays(q, v.prev, d);
    RisingPrefix(q, t);
    LaterDrawIsAbove(p, q, c, d);
    WriteStoresNewStamp(v, id);
    ScheduledStampRises(v, t.prev, id);
  }

  /** A call that drew a stamp and still holds one holds that one. */
  lemma DrawnStays(p: Trace, t: Trace, c: CallId)
    requires DrawsStamp(p, c) && Extends(p, t) && c in End(t).db.calls && NewStamp(CallAt(t, c)).Some?
    ensures CallAt(t, c).id == CallAt(p, c).id && NewStamp(CallAt(t, c)) == NewStamp(CallAt(p, c))
    ensures CallAt(t, c).op == CallAt(p, c).op
  {
    var r := FindDraw(t, c);
    PrefixesCompare(p, r, t);
    if r != p {
      if Extends(p, r) {
        DrawnIsPastBegin(p, r.prev, c);
      } else {
        DrawnIsPastBegin(r, p.prev, c);
      }
    }
  }

  /** With a clock that only rises, a step takes updated_at back exactly when it is the commit of a
      completion that an update stamped after it has overtaken. */
  lemma StampGoesBackExactlyWhen(t: Trace, id: Uuid)
    requires ClockRises(t) && t.After? && id in End(t.prev).db.inspections
    ensures id in End(t).db.inspections
    ensures End(t).db.inspections[id].updatedAt < End(t.prev).db.inspections[id].updatedAt <==>
      CommitsOn(t, id) && exists p, q, v :: OvertookStamp(p, q, v, t.prev, t.act.call.c, id)
  {
    RowPersists(t.prev, t, id);
    if Passes(t, id) {
      UpdateRaisesStamp(t, id);
    } else if !CommitsOn(t, id) {
      LeftAlone(t, id);
    } else {
      if End(t).db.inspections[id].updatedAt < End(t.prev).db.inspections[id].updatedAt {
        var p, q, v := LowCommitWasOvertaken(t, id);
      }
      if p, q, v :| OvertookStamp(p, q, v, t.prev, t.act.call.c, id) {
        OvertakenCommitIsLow(p, q, v, t, id);
      }
    }
  }

  // ----- the inspector an event names -----

  /** The last inspector that these patches name, if any does. */
  function LastInspector(patches: seq<Patch>): Option<Uuid> {
    if patches == [] then None
    else if patches[|patches| - 1].inspectorId.Some? then patches[|patches| - 1].inspectorId
    else LastInspector(patches[..|patches| - 1])
  }

  lemma {:induction false} FoldInspector(c: Columns, patches: seq<Patch>)
    ensures FoldPatches(c, patches).inspectorId ==
      if LastInspector(patches).Some? then LastInspector(patches) else c.inspectorId
  {
    if patches != [] {
      FoldInspector(c, patches[..|patches| - 1]);
    }
  }

  lemma {:induction false} FoldAppend(c: Columns, a: seq<Patch>, b: seq<Patch>)
    ensures FoldPatches(c, a + b) == FoldPatches(FoldPatches(c, a), b)
  {
    if b == [] {
      assert a + b == a;
    } else {
      var n := |b| - 1;
      FoldAppend(c, a, b[..n]);
      assert (a + b)[..|a + b| - 1] == a + b[..n];
    }
  }

  lemma {:induction false} PatchesGrow(u: Trace, t: Trace, id: Uuid)
    requires Extends(u, t)
    ensures PatchesOf(u, id) <= PatchesOf(t, id)
  {
    if u != t {
      PatchesGrow(u, t.prev, id);
    }
  }

  /** The patches of the updates that passed their guard after u. */
  function PatchesSince(u: Trace, t: Trace, id: Uuid): seq<Patch>
    requires PatchesOf(u, id) <= PatchesOf(t, id)
  {
    PatchesOf(t, id)[|PatchesOf(u, id)|..]
  }

  /** A commit leaves the columns of its row alone, and queues what its call had prepared. */
  lemma CommitKeepsColumns(v: Trace, c: CallId)
    requires Commits(v, c)
    ensures var id := CallAt(v.prev, c).id;
      && id in End(v.prev).db.inspections && id in End(v).db.inspections
      && ColumnsOf(End(v).db.inspections[id]) == ColumnsOf(End(v.prev).db.inspections[id])
      && End(v).db.outbox != [] && End(v).db.outbox[|End(v).db.outbox| - 1].payload == CallAt(v.prev, c).pc.event
  {
  }

  /** Between a call's read and its commit the row went through the patches that passed, and the
      event did not. */
  lemma ColumnsAtCommit(u: Trace, v: Trace, c: CallId)
    requires Commits(v, c) && JustRead(u, c) && Extends(u, v.prev) && NoStampReused(v.prev, CallAt(u, c).id)
    ensures var id := CallAt(u, c).id;
      && id in End(v.prev).db.inspections && PatchesOf(u, id) <= PatchesOf(v.prev, id)
      && ColumnsOf(End(v.prev).db.inspections[id]) ==
           FoldPatches(ColumnsOf(CallAt(u, c).pc.row), PatchesSince(u, v.prev, id))
  {
    var id := CallAt(u, c).id;
    ReadsTheRow(u, c);
    RowPersists(u, v.prev, id);
    PatchesGrow(u, v.prev, id);
    UpdatesAreSerial(v.prev, id);
    NoReuseBefore(u, v.prev, id);
    UpdatesAreSerial(u, id);
    FoldAppend(NO_COLUMNS, PatchesOf(u, id), PatchesSince(u, v.prev, id));
    assert PatchesOf(u, id) + PatchesSince(u, v.prev, id) == PatchesOf(v.prev, id);
  }

  /** A completion that read at u and commits at v queues an event that names another inspector than
      the row exactly when, of the updates that passed in between, the last one to name an inspector
      named another than the one read. */
  lemma EventInspectorIsStaleExactlyWhen(u: Trace, v: Trace, c: CallId)
    requires Commits(v, c) && JustRead(u, c) && Extends(u, v.prev) && NoStampReused(v.prev, CallAt(u, c).id)
    ensures var id, read, outbox := CallAt(u, c).id, CallAt(u, c).pc.row.inspectorId, End(v).db.outbox;
      && id in End(v).db.inspections && PatchesOf(u, id) <= PatchesOf(v.prev, id) && outbox != []
      && (outbox[|outbox| - 1].payload.data.inspectorId != End(v).db.inspections[id].inspectorId <==>
            LastInspector(PatchesSince(u, v.prev, id)).Some? && LastInspector(PatchesSince(u, v.prev, id)) != read)
  {
    var id := CallAt(u, c).id;
    KeepsOrigin(u, v.prev, c);
    CommitKeepsColumns(v, c);
    ColumnsAtCommit(u, v, c);
    FoldInspector(ColumnsOf(CallAt(u, c).pc.row), PatchesSince(u, v.prev, id));
  }

  lemma NoReuseBefore(u: Trace, t: Trace, id: Uuid)
    requires Extends(u, t) && NoStampReused(t, id)
    ensures NoStampReused(u, id)
  {
    forall r, v, p | Extends(p, u) && Passes(p, id) && Extends(r, p.prev) && JustRead(r, p.act.call.c)
      ensures !StoresAgain(r, v, p.prev, id)
    {
      ExtendsTransitive(p, u, t);
    }
  }
}
