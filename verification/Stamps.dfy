/** The stamps behind the optimistic lock: drawn once each, they never reuse one that was read. */
module Stamps {
  import opened Domain
  import opened Lifecycle
  import LI = LifecycleInvariant
  import opened InspectService
  import opened CallHistory
  import opened Updates

  /** The stamp a call is about to store. */
  function NewStamp(call: Call): Option<Time> {
    match call.pc
    case Writing(insp, _) => Some(Stored(insp.updatedAt))
    case Completing(at, _) => Some(Stored(at))
    case Locked(at, _) => Some(Stored(at))
    case Drawn(at, _, _) => Some(Stored(at))
    case _ => None
  }

  /** The stamp of the row a call has read. */
  function ReadStamp(call: Call): Option<Time> {
    match call.pc
    case HasRow(row) => Some(row.updatedAt)
    case Loaded(row, _) => Some(row.updatedAt)
    case Writing(_, prev) => Some(prev)
    case _ => None
  }

  /** A stamp about to be stored was never stored or read. */
  ghost predicate NewStampOk(db: Db, call: Call) {
    NewStamp(call).Some? ==>
      && (call.id, NewStamp(call).value) in db.stamps
      && (call.id in db.inspections ==> db.inspections[call.id].updatedAt != NewStamp(call).value)
  }

  ghost predicate StampsApart(p: Call, q: Call) {
    p.id == q.id && NewStamp(p).Some? ==> NewStamp(p) != NewStamp(q)
  }

  ghost predicate NotRead(p: Call, q: Call) {
    p.id == q.id && NewStamp(p).Some? ==> NewStamp(p) != ReadStamp(q)
  }

  ghost predicate Distinct(db: Db) {
    && (forall id :: id in db.inspections ==> (id, db.inspections[id].updatedAt) in db.stamps)
    && (forall c :: c in db.calls && ReadStamp(db.calls[c]).Some? ==>
          (db.calls[c].id, ReadStamp(db.calls[c]).value) in db.stamps)
    && (forall c :: c in db.calls ==> NewStampOk(db, db.calls[c]))
    && (forall c, d :: c in db.calls && d in db.calls ==> NotRead(db.calls[c], db.calls[d]))
    && (forall c, d :: c in db.calls && d in db.calls && c != d ==> StampsApart(db.calls[c], db.calls[d]))
  }

  /** The facts of one call that do not involve other calls. */
  ghost predicate AloneOk(db: Db, call: Call) {
    && (ReadStamp(call).Some? ==> (call.id, ReadStamp(call).value) in db.stamps)
    && NewStampOk(db, call)
    && NotRead(call, call)
  }

  ghost predicate PairOk(p: Call, q: Call) {
    NotRead(p, q) && NotRead(q, p) && StampsApart(p, q) && StampsApart(q, p)
  }

  /** Where one call moved on over unchanged rows, only its own facts need a fresh look. */
  lemma OneCallKeepsDistinct(db: Db, db': Db, c: CallId)
    requires Distinct(db) && db'.inspections == db.inspections && db.stamps <= db'.stamps
    requires c in db'.calls && db'.calls == db.calls[c := db'.calls[c]]
    requires AloneOk(db', db'.calls[c])
    requires forall d :: d in db.calls && d != c ==> PairOk(db'.calls[c], db.calls[d])
    ensures Distinct(db')
  {
  }

  lemma MovedCallAlone(db: Db, a: Action)
    requires Enabled(db, a) && LI.OffTables(a) && !Step(db, a).collided
    requires forall id :: id in db.inspections ==> (id, db.inspections[id].updatedAt) in db.stamps
    requires a.c in db.calls ==> AloneOk(db, db.calls[a.c])
    ensures AloneOk(Step(db, a), Step(db, a).calls[a.c])
  {
  }

  lemma MovedCallPair(db: Db, a: Action, d: CallId)
    requires Enabled(db, a) && LI.OffTables(a) && !Step(db, a).collided
    requires d in db.calls && d != a.c && AloneOk(db, db.calls[d])
    requires a.c in db.calls ==> PairOk(db.calls[a.c], db.calls[d])
    ensures PairOk(Step(db, a).calls[a.c], db.calls[d])
  {
  }

  lemma CallStepKeepsDistinct(db: Db, a: Action)
    requires Distinct(db) && Enabled(db, a) && LI.OffTables(a) && !Step(db, a).collided
    ensures Distinct(Step(db, a))
  {
    LI.OffTablesShape(db, a);
    MovedCallAlone(db, a);
    forall d | d in db.calls && d != a.c ensures PairOk(Step(db, a).calls[a.c], db.calls[d]) {
      MovedCallPair(db, a, d);
    }
    OneCallKeepsDistinct(db, Step(db, a), a.c);
  }

  lemma PhotoKeepsDistinct(db: Db, a: Action)
    requires Distinct(db) && Enabled(db, a) && a.PhotoInsert?
    ensures Distinct(Step(db, a))
  {
    OneCallKeepsDistinct(db, Step(db, a), a.c);
  }

  lemma CreateKeepsDistinct(db: Db, a: Action)
    requires LI.Inv(db) && Distinct(db) && Enabled(db, a) && a.Create? && !Step(db, a).collided
    ensures Distinct(Step(db, a))
  {
    var db' := Step(db, a);
    assert a.id in db.inspections ==> LI.RowOk(db, a.id);
    forall c | c in db.calls ensures NewStampOk(db', db.calls[c]) {
      assert LI.CallOk(db, db.calls[c]);
    }
  }

  /** Storing a stamp that no other call is about to store or has read. */
  lemma OtherCallAfterWrite(db: Db, a: Action, c: CallId)
    requires LI.Inv(db) && Distinct(db) && Enabled(db, a) && (a.UpdateWrite? || a.CompleteCommit?)
    requires c in db.calls && c != a.c
    ensures NewStampOk(Step(db, a), db.calls[c])
  {
    assert LI.CallOk(db, db.calls[a.c]);
    assert StampsApart(db.calls[a.c], db.calls[c]) && NotRead(db.calls[a.c], db.calls[c]);
    assert NewStampOk(db, db.calls[c]);
  }

  /** The writing call is over, and its row carries the stamp it had drawn. */
  lemma OwnCallAfterWrite(db: Db, a: Action)
    requires Enabled(db, a) && (a.UpdateWrite? || a.CompleteCommit?)
    requires NewStampOk(db, db.calls[a.c]) && forall id :: id in db.inspections ==>
      (id, db.inspections[id].updatedAt) in db.stamps
    ensures Step(db, a).calls == db.calls[a.c := Step(db, a).calls[a.c]]
    ensures Step(db, a).stamps == db.stamps
    ensures NewStamp(Step(db, a).calls[a.c]) == None && ReadStamp(Step(db, a).calls[a.c]) == None
    ensures forall id :: id in Step(db, a).inspections ==> (id, Step(db, a).inspections[id].updatedAt) in db.stamps
  {
  }

  lemma WriteKeepsDistinct(db: Db, a: Action)
    requires LI.Inv(db) && Distinct(db) && Enabled(db, a) && (a.UpdateWrite? || a.CompleteCommit?)
    ensures Distinct(Step(db, a))
  {
    var db' := Step(db, a);
    OwnCallAfterWrite(db, a);
    forall c | c in db'.calls ensures NewStampOk(db', db'.calls[c]) {
      if c != a.c {
        OtherCallAfterWrite(db, a, c);
      }
    }
    DistinctFromParts(db, db', a.c);
  }

  lemma DistinctFromParts(db: Db, db': Db, c: CallId)
    requires Distinct(db) && db'.stamps == db.stamps && c in db'.calls && db'.calls == db.calls[c := db'.calls[c]]
    requires NewStamp(db'.calls[c]) == None && ReadStamp(db'.calls[c]) == None
    requires forall id :: id in db'.inspections ==> (id, db'.inspections[id].updatedAt) in db'.stamps
    requires forall d :: d in db'.calls ==> NewStampOk(db', db'.calls[d])
    ensures Distinct(db')
  {
  }

  lemma StepKeepsDistinct(db: Db, a: Action)
    requires LI.Inv(db) && Distinct(db) && Enabled(db, a) && !Step(db, a).collided
    ensures Distinct(Step(db, a))
  {
    match a
    case Create(_, _, _) => CreateKeepsDistinct(db, a);
    case UpdateWrite(_, _) => WriteKeepsDistinct(db, a);
    case CompleteCommit(_, _) => WriteKeepsDistinct(db, a);
    case PhotoInsert(_, _) => PhotoKeepsDistinct(db, a);
    case _ => CallStepKeepsDistinct(db, a);
  }

  lemma {:induction false} ReachableIsDistinct(t: Trace)
    requires !End(t).db.collided
    ensures Distinct(End(t).db)
  {
    if t.After? {
      var s := End(t.prev);
      Reachable(t.prev);
      if CanAct(s, t.act) {
        StepIsLater(s, t.act);
        ReachableIsDistinct(t.prev);
        DbMoves(s, t.act);
        match DbAction(s, t.act)
        case Some(x) => StepKeepsDistinct(s.db, x);
        case None =>
      } else {
        ReachableIsDistinct(t.prev);
      }
    }
  }

  // ----- what this gives the lock -----

  lemma StillReading(db: Db, a: Action, c: CallId)
    requires Enabled(db, a) && c in db.calls && c in Step(db, a).calls && ReadStamp(Step(db, a).calls[c]).Some?
    requires db.calls[c].pc != Begin
    ensures ReadStamp(db.calls[c]).Some?
  {
  }

  /** A call that still remembers its stamp at t has remembered it since it read the row. */
  lemma {:induction false} RemembersSince(u: Trace, v: Trace, t: Trace, c: CallId)
    requires JustRead(u, c) && Extends(u, v) && Extends(v, t)
    requires c in End(t).db.calls && ReadStamp(CallAt(t, c)).Some?
    ensures c in End(v).db.calls && CallAt(v, c).id == CallAt(u, c).id
    ensures ReadStamp(CallAt(v, c)) == Some(CallAt(u, c).pc.row.updatedAt)
  {
    if v == t {
      KeepsOrigin(u, v, c);
    } else {
      ExtendsTransitive(u, v, t.prev);
      KeepsOrigin(u, t.prev, c);
      var s := End(t.prev);
      if CanAct(s, t.act) {
        DbMoves(s, t.act);
        match DbAction(s, t.act)
        case Some(x) => StillReading(s.db, x, c);
        case None =>
      }
      RemembersSince(u, v, t.prev, c);
    }
  }

  /** A write stores the stamp its call had drawn. */
  lemma WriteStoresNewStamp(v: Trace, id: Uuid)
    requires Writes(v, id)
    ensures v.act.call.c in End(v.prev).db.calls && CallAt(v.prev, v.act.call.c).id == id
    ensures id in End(v).db.inspections
    ensures NewStamp(CallAt(v.prev, v.act.call.c)) == Some(End(v).db.inspections[id].updatedAt)
  {
  }

  /** If no stamp was drawn twice, no write stores a stamp that a call in flight has read. */
  lemma ReadStampIsNotStored(u: Trace, v: Trace, t: Trace, c: CallId, id: Uuid)
    requires JustRead(u, c) && WriteBetween(u, v, t, id) && !End(t).db.collided && CallAt(u, c).id == id
    requires c in End(t).db.calls && ReadStamp(CallAt(t, c)).Some?
    ensures !StoresAgain(u, v, t, id)
  {
    ExtendsTransitive(v.prev, v, t);
    RemembersSince(u, v.prev, t, c);
    ExtendsIsLater(v.prev, t);
    ReachableIsDistinct(v.prev);
    WriteStoresNewStamp(v, id);
    ReadsTheRow(u, c);
    assert NotRead(CallAt(v.prev, v.act.call.c), CallAt(v.prev, c));
  }

  /** Distinct stamps are enough for the lock. */
  lemma DistinctStampsSuffice(t: Trace, id: Uuid)
    requires !End(t).db.collided
    ensures NoStampReused(t, id)
  {
    forall u, v, p | Extends(p, t) && Passes(p, id) && Extends(u, p.prev) && JustRead(u, p.act.call.c)
      ensures !StoresAgain(u, v, p.prev, id)
    {
      if StoresAgain(u, v, p.prev, id) {
        ExtendsIsLater(p, t);
        ExtendsIsLater(p.prev, p);
        KeepsOrigin(u, p.prev, p.act.call.c);
        ReadStampIsNotStored(u, v, p.prev, p.act.call.c, id);
      }
    }
  }
}
