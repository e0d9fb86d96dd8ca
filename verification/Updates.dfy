/** Optimistic locking: although every update writes all three columns from a row
    it may have read long ago, no patch that passed the guard is lost, as long as no
    write stores the stamp again that the update has read. */
module Updates {
  import opened Domain
  import opened Lifecycle
  import LI = LifecycleInvariant
  import opened InspectService
  import opened CallHistory
  import opened Schedules

  // ----- writes of a row -----

  /** This step is the write of an update that passed its guard on row `id`. */
  predicate PassesGuard(db: Db, a: Action, id: Uuid) {
    a.UpdateWrite? && Enabled(db, a) && db.calls[a.c].id == id && db.calls[a.c].op.Update? &&
    GuardMatches(db, id, db.calls[a.c].pc.prev)
  }

  predicate Passes(t: Trace, id: Uuid) {
    Moved(t) && t.act.Serve? && PassesGuard(End(t.prev).db, t.act.call, id)
  }

  /** The run ends with the commit of a completion of row `id`. */
  predicate CommitsOn(t: Trace, id: Uuid) {
    Moved(t) && t.act.Serve? && t.act.call.CompleteCommit? && CallAt(t.prev, t.act.call.c).id == id
  }

  /** The run ends with a statement that writes row `id`. */
  predicate Writes(t: Trace, id: Uuid) {
    Passes(t, id) || CommitsOn(t, id)
  }

  /** v is a write of row `id` after u and not after t. */
  predicate WriteBetween(u: Trace, v: Trace, t: Trace, id: Uuid) {
    v.After? && Extends(u, v.prev) && Extends(v, t) && Writes(v, id)
  }

  /** v is such a write, and it stores the very stamp the row had at u. */
  predicate StoresAgain(u: Trace, v: Trace, t: Trace, id: Uuid) {
    && WriteBetween(u, v, t, id)
    && id in End(u).db.inspections && id in End(v).db.inspections
    && End(v).db.inspections[id].updatedAt == End(u).db.inspections[id].updatedAt
  }

  lemma OtherStepsLeaveRow(db: Db, a: Action, id: Uuid)
    requires LI.Inv(db) && Enabled(db, a) && id in db.inspections
    requires !PassesGuard(db, a, id) && !(a.CompleteCommit? && db.calls[a.c].id == id)
    ensures id in Step(db, a).inspections && Step(db, a).inspections[id] == db.inspections[id]
  {
    assert LI.RowOk(db, id);
    if a.UpdateWrite? {
      assert LI.CallOk(db, db.calls[a.c]);
    }
  }

  /** The state that left a row as it is: the start of the stretch, or the last write in it. */
  lemma {:induction false} LastWrite(u: Trace, t: Trace, id: Uuid) returns (w: Trace)
    requires Extends(u, t) && id in End(u).db.inspections
    ensures w == u || WriteBetween(u, w, t, id)
    ensures id in End(w).db.inspections && id in End(t).db.inspections
    ensures End(t).db.inspections[id] == End(w).db.inspections[id]
  {
    if u == t || Writes(t, id) {
      w := t;
      RowPersists(u, t, id);
      assert Extends(t, t);
    } else {
      w := LastWrite(u, t.prev, id);
      var s := End(t.prev);
      Reachable(t.prev);
      if CanAct(s, t.act) {
        DbMoves(s, t.act);
        match DbAction(s, t.act)
        case Some(x) => OtherStepsLeaveRow(s.db, x, id);
        case None =>
      }
    }
  }

  // ----- the lock -----

  /** Whatever the clocks do: of an update that read at u and passes its guard at t, it is certain that
      nobody wrote the row in between exactly when no write in between stored the stamp again that it read.
      Then the row it overwrites is still the very row that it read. */
  lemma LockHoldsExactlyWhen(u: Trace, t: Trace, c: CallId, id: Uuid)
    requires JustRead(u, c) && Extends(u, t) && PassesGuard(End(t).db, UpdateWrite(c, true), id)
    ensures (exists v :: WriteBetween(u, v, t, id)) <==> (exists v :: StoresAgain(u, v, t, id))
    ensures (forall v :: !StoresAgain(u, v, t, id)) ==>
      id in End(t).db.inspections && End(t).db.inspections[id] == CallAt(u, c).pc.row
  {
    KeepsOrigin(u, t, c);
    ReadsTheRow(u, c);
    var w := LastWrite(u, t, id);
    if v :| WriteBetween(u, v, t, id) {
      var x := LastWriteAfter(u, v, t, id);
      assert StoresAgain(u, x, t, id);
    }
    assert w != u ==> StoresAgain(u, w, t, id);
  }

  /** If the row was written at all, its last write left it as it is. */
  lemma LastWriteAfter(u: Trace, v: Trace, t: Trace, id: Uuid) returns (w: Trace)
    requires id in End(u).db.inspections && WriteBetween(u, v, t, id)
    ensures WriteBetween(u, w, t, id) && id in End(w).db.inspections && id in End(t).db.inspections
    ensures End(t).db.inspections[id] == End(w).db.inspections[id]
  {
    assert Extends(u, v);
    RowPersists(u, v, id);
    w := LastWrite(v, t, id);
    if w != v {
      ExtendsTransitive(u, v, w.prev);
    }
  }

  predicate MissedUpdate(db: Db, c: CallId) {
    c in db.calls && db.calls[c].op.Update? && db.calls[c].pc in {Missed, Done(ErrConflict)}
  }

  lemma MissIsAWrite(db: Db, a: Action, c: CallId)
    requires Enabled(db, a) && MissedUpdate(Step(db, a), c) && !MissedUpdate(db, c)
    requires c in db.calls ==> LI.CallOk(db, db.calls[c])
    ensures a.UpdateWrite? && a.c == c && !GuardMatches(db, db.calls[c].id, db.calls[c].pc.prev)
  {
    if c in db.calls {
      CallKeepsSubject(db, a, c);
    }
  }

  /** Where an Update call missed its guard. */
  lemma {:induction false} FindMissedUpdate(u: Trace, t: Trace, c: CallId) returns (w: Trace)
    requires JustRead(u, c) && Extends(u, t) && MissedUpdate(End(t).db, c)
    ensures w.After? && Extends(u, w.prev) && Extends(w, t) && c in End(w.prev).db.calls
    ensures CallAt(w.prev, c).pc.Writing? &&
      !GuardMatches(End(w.prev).db, CallAt(w.prev, c).id, CallAt(w.prev, c).pc.prev)
  {
    var s := End(t.prev);
    if MissedUpdate(s.db, c) {
      w := FindMissedUpdate(u, t.prev, c);
    } else {
      if c in s.db.calls { CallIsOk(t.prev, c); }
      DbMoves(s, t.act);
      MissIsAWrite(s.db, DbAction(s, t.act).value, c);
      w := t;
    }
  }

  /** The promise of the lock to the losers: an update that read at u and missed its guard was overtaken
      by a write of the row in between. */
  lemma MissWasOverwritten(u: Trace, t: Trace, c: CallId, id: Uuid)
    requires JustRead(u, c) && Extends(u, t) && MissedUpdate(End(t).db, c) && CallAt(t, c).id == id
    ensures exists v :: WriteBetween(u, v, t, id)
  {
    var w := FindMissedUpdate(u, t, c);
    KeepsOrigin(u, t, c);
    KeepsOrigin(u, w.prev, c);
    ReadsTheRow(u, c);
    var v := LastWrite(u, w.prev, id);
    ExtendsTransitive(w.prev, w, t);
    if v != u {
      ExtendsTransitive(v, w.prev, t);
      assert WriteBetween(u, v, t, id);
    }
  }

  /** Call c read the row at u, and somebody else wrote it at v. */
  ghost predicate WasOverwritten(u: Trace, v: Trace, t: Trace, c: CallId, id: Uuid) {
    JustRead(u, c) && WriteBetween(u, v, t, id) && v.act.call.c != c
  }

  /** Every update told Conflict was overtaken: another call wrote the row after its read. */
  lemma ConflictWasOverwritten(t: Trace, c: CallId, id: Uuid)
    requires MissedUpdate(End(t).db, c) && CallAt(t, c).id == id
    ensures exists u, v :: WasOverwritten(u, v, t, c, id)
  {
    var u := FindRead(t, c);
    MissWasOverwritten(u, t, c, id);
    var v :| WriteBetween(u, v, t, id);
    WriterIsDone(v, id);
    CallPersists(v, t, v.act.call.c);
    assert WasOverwritten(u, v, t, c, id);
  }

  /** A write ends its call with Success or a database error. */
  lemma WriterIsDone(v: Trace, id: Uuid)
    requires Writes(v, id)
    ensures v.act.call.c in End(v).db.calls && CallAt(v, v.act.call.c).pc in {Done(Success), Done(ErrDatabase)}
  {
  }

  /** No update of the row that passed its guard met a stamp that had been stored again since its read. */
  ghost predicate NoStampReused(t: Trace, id: Uuid) {
    forall u, v, p :: Extends(p, t) && Passes(p, id) && Extends(u, p.prev) && JustRead(u, p.act.call.c) ==>
      !StoresAgain(u, v, p.prev, id)
  }

  // ----- serialisability -----

  /** The patches of exactly the updates of `id` that passed the guard, in commit order. */
  function PatchesOf(t: Trace, id: Uuid): seq<Patch> {
    match t
    case Start => []
    case After(prev, act) =>
      PatchesOf(prev, id) + if Passes(t, id) then [End(prev).db.calls[act.call.c].op.patch] else []
  }

  const NO_COLUMNS := Columns(None, None, None)

  /** An update that passes over the row it read applies its patch to it. */
  lemma PassAppliesPatch(t: Trace, id: Uuid)
    requires Passes(t, id) && NoStampReused(t, id)
    ensures id in End(t.prev).db.inspections && id in End(t).db.inspections
    ensures ColumnsOf(End(t).db.inspections[id]) ==
      ApplyPatch(ColumnsOf(End(t.prev).db.inspections[id]), CallAt(t.prev, t.act.call.c).op.patch)
  {
    var c := t.act.call.c;
    var u := FindRead(t.prev, c);
    KeepsOrigin(u, t.prev, c);
    forall v ensures !StoresAgain(u, v, t.prev, id) {
      assert Extends(t, t);
    }
    assert PassesGuard(End(t.prev).db, UpdateWrite(c, true), id);
    LockHoldsExactlyWhen(u, t.prev, c, id);
  }

  lemma OtherStepsLeaveColumns(db: Db, a: Action, id: Uuid)
    requires LI.Inv(db) && Enabled(db, a) && id in Step(db, a).inspections && !PassesGuard(db, a, id)
    ensures ColumnsOf(Step(db, a).inspections[id]) ==
      if id in db.inspections then ColumnsOf(db.inspections[id]) else NO_COLUMNS
  {
    if id in db.inspections {
      assert LI.RowOk(db, id);
    }
    if a.UpdateWrite? {
      assert LI.CallOk(db, db.calls[a.c]);
    }
  }

  lemma {:induction false} NoRowNoPatches(t: Trace, id: Uuid)
    requires id !in End(t).db.inspections
    ensures PatchesOf(t, id) == []
  {
    if t.After? {
      ExtendsIsLater(t.prev, t);
      var db := End(t.prev).db;
      assert id in db.inspections ==> LI.RowLater(db.inspections[id], End(t).db, id);
      NoRowNoPatches(t.prev, id);
    }
  }

  /** In every reachable state the three columns of a row are what the patches that passed
      the guard, applied in commit order to an empty row, make of them. */
  lemma {:induction false} UpdatesAreSerial(t: Trace, id: Uuid)
    requires NoStampReused(t, id) && id in End(t).db.inspections
    ensures ColumnsOf(End(t).db.inspections[id]) == FoldPatches(NO_COLUMNS, PatchesOf(t, id))
  {
    var s := End(t.prev);
    var before := PatchesOf(t.prev, id);
    if id in s.db.inspections {
      UpdatesAreSerial(t.prev, id);
    } else {
      NoRowNoPatches(t.prev, id);
    }
    if Passes(t, id) {
      PassAppliesPatch(t, id);
      assert PatchesOf(t, id)[..|before|] == before;
    } else {
      assert PatchesOf(t, id) == before;
      Reachable(t.prev);
      if CanAct(s, t.act) {
        DbMoves(s, t.act);
        match DbAction(s, t.act)
        case Some(x) => OtherStepsLeaveColumns(s.db, x, id);
        case None =>
      }
    }
  }

  // ----- the same, column by column -----

  /** v is the last value given, or nothing if none was. */
  ghost predicate LastGiven<T>(given: seq<Option<T>>, v: Option<T>) {
    if v.None? then forall i :: 0 <= i < |given| ==> given[i].None?
    else exists i :: 0 <= i < |given| && given[i] == v && forall j :: i < j < |given| ==> given[j].None?
  }

  lemma LastGivenNext<T>(given: seq<Option<T>>, v: Option<T>, next: Option<T>)
    requires LastGiven(given, v)
    ensures LastGiven(given + [next], if next.Some? then next else v)
  {
    var all := given + [next];
    if next.Some? {
      assert all[|given|] == next;
    } else if v.Some? {
      var i :| 0 <= i < |given| && given[i] == v && forall j :: i < j < |given| ==> given[j].None?;
      assert all[i] == v;
    }
  }

  function Inspectors(patches: seq<Patch>): seq<Option<Uuid>> {
    seq(|patches|, i requires 0 <= i < |patches| => patches[i].inspectorId)
  }

  function NotesGiven(patches: seq<Patch>): seq<Option<string>> {
    seq(|patches|, i requires 0 <= i < |patches| => patches[i].notes)
  }

  function DataGiven(patches: seq<Patch>): seq<Option<string>> {
    seq(|patches|, i requires 0 <= i < |patches| => patches[i].propertyData)
  }

  lemma {:induction false} FoldIsLastGiven(patches: seq<Patch>)
    ensures var c := FoldPatches(NO_COLUMNS, patches);
      && LastGiven(Inspectors(patches), c.inspectorId)
      && LastGiven(NotesGiven(patches), c.notes)
      && LastGiven(DataGiven(patches), c.propertyData)
  {
    if patches != [] {
      var n := |patches| - 1;
      var c := FoldPatches(NO_COLUMNS, patches[..n]);
      FoldIsLastGiven(patches[..n]);
      LastGivenNext(Inspectors(patches[..n]), c.inspectorId, patches[n].inspectorId);
      LastGivenNext(NotesGiven(patches[..n]), c.notes, patches[n].notes);
      LastGivenNext(DataGiven(patches[..n]), c.propertyData, patches[n].propertyData);
      assert Inspectors(patches) == Inspectors(patches[..n]) + [patches[n].inspectorId];
      assert NotesGiven(patches) == NotesGiven(patches[..n]) + [patches[n].notes];
      assert DataGiven(patches) == DataGiven(patches[..n]) + [patches[n].propertyData];
    }
  }

  /** Each of the three columns holds what the last update that passed and named it gave, and is empty
      if none did. */
  lemma ColumnsAreLastGiven(t: Trace, id: Uuid)
    requires NoStampReused(t, id) && id in End(t).db.inspections
    ensures var row, patches := End(t).db.inspections[id], PatchesOf(t, id);
      && LastGiven(Inspectors(patches), row.inspectorId)
      && LastGiven(NotesGiven(patches), row.notes)
      && LastGiven(DataGiven(patches), row.propertyData)
  {
    UpdatesAreSerial(t, id);
    FoldIsLastGiven(PatchesOf(t, id));
  }

  // ----- updates of completed inspections -----

  /** From t to u a new call applied this patch to row `id` and was told Success. */
  ghost predicate PatchedBy(t: Trace, u: Trace, c: CallId, id: Uuid, patch: Patch) {
    && Extends(t, u) && c !in End(t).db.calls
    && c in End(u).db.calls && CallAt(u, c) == Call(Op.Update(patch), id, Done(Success))
    && id in End(t).db.inspections && id in End(u).db.inspections
    && End(u).db.inspections[id].status == End(t).db.inspections[id].status
    && ColumnsOf(End(u).db.inspections[id]) == ApplyPatch(ColumnsOf(End(t).db.inspections[id]), patch)
  }

  /** No transaction holds a completed row. */
  lemma CompletedIsUnlocked(t: Trace, id: Uuid)
    requires IsCompleted(End(t).db, id)
    ensures !RowLocked(End(t).db, id)
  {
    Reachable(t);
    forall c | c in End(t).db.calls && CallAt(t, c).id == id ensures !InTransaction(CallAt(t, c).pc) {
      assert LI.CallOk(End(t).db, CallAt(t, c));
    }
  }

  /** Completion does not stop updates: in every state with a completed inspection, any patch can
      still be applied to it. */
  lemma CompletedStillUpdates(t: Trace, id: Uuid, patch: Patch)
    requires IsCompleted(End(t).db, id)
    ensures exists u, c :: PatchedBy(t, u, c, id, patch)
  {
    CompletedIsUnlocked(t, id);
    var c := FreshUuid(End(t).db.calls.Keys);
    var uuid := FreshUuid(End(t).db.uuids);
    var u := UpdateAtOnce(t, c, id, patch, 0, uuid);
    assert PatchedBy(t, u, c, id, patch);
  }

  // ----- what callers are told -----

  /** How often call c passed the guard. */
  function PassesBy(t: Trace, c: CallId): nat {
    match t
    case Start => 0
    case After(prev, act) =>
      PassesBy(prev, c) + if Moved(t) && act.Serve? && act.call.UpdateWrite? && act.call.c == c &&
        Passes(t, End(prev).db.calls[c].id) then 1 else 0
  }

  /** An update still under way, or told anything but Success or a database error, passed
      the guard never; one told Success passed it once; a database error leaves both open. */
  lemma {:induction false} PassesMatchReplies(t: Trace, c: CallId)
    requires c in End(t).db.calls ==> End(t).db.calls[c].op.Update?
    ensures PassesBy(t, c) <= 1
    ensures c !in End(t).db.calls || CallAt(t, c).pc !in {Done(Success), Done(ErrDatabase)} ==> PassesBy(t, c) == 0
    ensures c in End(t).db.calls && CallAt(t, c).pc == Done(Success) ==> PassesBy(t, c) == 1
  {
    if t.After? {
      var s := End(t.prev);
      ExtendsIsLater(t.prev, t);
      if c in s.db.calls {
        assert LI.CallLater(s.db.calls[c], End(t).db, c);
      }
      PassesMatchReplies(t.prev, c);
      if CanAct(s, t.act) && c in End(t).db.calls {
        DbMoves(s, t.act);
        if c in s.db.calls { CallIsOk(t.prev, c); }
        match DbAction(s, t.act)
        case Some(x) => UpdateReplies(s.db, x, c);
        case None =>
      }
    }
  }

  lemma UpdateReplies(db: Db, a: Action, c: CallId)
    requires Enabled(db, a) && c in Step(db, a).calls && Step(db, a).calls[c].op.Update?
    requires c in db.calls ==> LI.CallOk(db, db.calls[c])
    ensures c in db.calls && PassesGuard(db, a, db.calls[c].id) && a.c == c ==>
      !db.calls[c].pc.Done? && Step(db, a).calls[c].pc in {Done(Success), Done(ErrDatabase)}
    ensures Step(db, a).calls[c].pc == Done(Success) ==>
      c in db.calls && (db.calls[c].pc == Done(Success) || (PassesGuard(db, a, db.calls[c].id) && a.c == c))
  {
    if c in db.calls {
      CallKeepsSubject(db, a, c);
    }
  }
}
