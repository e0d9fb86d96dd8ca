/** Photos race with completion: what the event's count can say, and how many
    photos can still arrive afterwards. */
module Photos {
  import opened Domain
  import opened Lifecycle
  import LI = LifecycleInvariant
  import opened InspectService
  import opened CallHistory
  import opened Schedules

  /** The photo count a call remembers from its second query. */
  function CountOf(call: Call): Option<nat> {
    if call.pc.Loaded? then Some(|call.pc.photos|)
    else if HoldsEvent(call.pc) then Some(call.pc.event.data.photoCount)
    else None
  }

  /** The run ends with the second query of call c. */
  predicate JustListed(w: Trace, c: CallId) {
    Moved(w) && w.act == Act.Serve(ReadPhotos(c))
  }

  lemma CountIsKept(db: Db, a: Action, c: CallId)
    requires Enabled(db, a) && c in Step(db, a).calls && CountOf(Step(db, a).calls[c]).Some?
    ensures c in db.calls
    ensures if a == ReadPhotos(c) then CountOf(Step(db, a).calls[c]) == Some(PhotoCount(db, db.calls[c].id))
            else CountOf(Step(db, a).calls[c]) == CountOf(db.calls[c])
  {
    if c in db.calls {
      CallKeepsSubject(db, a, c);
    }
  }

  /** A remembered count is the count of photos there were at the call's second query. */
  lemma {:induction false} FindListed(t: Trace, c: CallId) returns (w: Trace)
    requires c in End(t).db.calls && CountOf(CallAt(t, c)).Some?
    ensures Extends(w, t) && JustListed(w, c) && CountOf(CallAt(t, c)) == Some(PhotoCount(End(w).db, CallAt(t, c).id))
    ensures c in End(w.prev).db.calls && CallAt(w.prev, c).pc.HasRow?
  {
    if JustListed(t, c) {
      w := t;
      DbMoves(End(t.prev), t.act);
      CountIsKept(End(t.prev).db, t.act.call, c);
    } else {
      var s := End(t.prev);
      if CanAct(s, t.act) {
        DbMoves(s, t.act);
        match DbAction(s, t.act)
        case Some(x) => CountIsKept(s.db, x, c); CallKeepsSubject(s.db, x, c);
        case None =>
      }
      w := FindListed(t.prev, c);
    }
  }

  /** The run ends with the local step in which call c builds what it is going to write. */
  predicate JustPrepared(p: Trace, c: CallId) {
    Moved(p) && p.act.Serve? && p.act.call.Prepare? && p.act.call.c == c
  }

  lemma EventIsKept(db: Db, a: Action, c: CallId)
    requires Enabled(db, a) && c in Step(db, a).calls && HoldsEvent(Step(db, a).calls[c].pc)
    ensures c in db.calls
    ensures var event := Step(db, a).calls[c].pc.event;
      if a.Prepare? && a.c == c then
        db.calls[c].pc.Loaded? && event.eventId == a.uuid && event.occurredAt == a.occurredAt &&
          event.data.completedAt == a.now
      else HoldsEvent(db.calls[c].pc) && db.calls[c].pc.event == event
  {
    if c in db.calls {
      CallKeepsSubject(db, a, c);
    }
  }

  /** An event carries the id and the two clock readings drawn when it was built. */
  lemma {:induction false} FindPrepared(t: Trace, c: CallId) returns (p: Trace)
    requires c in End(t).db.calls && HoldsEvent(CallAt(t, c).pc)
    ensures Extends(p, t) && JustPrepared(p, c) && c in End(p.prev).db.calls && CallAt(p.prev, c).pc.Loaded?
    ensures c in End(p).db.calls && HoldsEvent(CallAt(p, c).pc) && CallAt(p, c).pc.event == CallAt(t, c).pc.event
    ensures var event := CallAt(t, c).pc.event;
      && event.eventId == p.act.call.uuid && event.occurredAt == p.act.call.occurredAt
      && event.data.completedAt == p.act.call.now
  {
    var s := End(t.prev);
    if CanAct(s, t.act) {
      DbMoves(s, t.act);
      match DbAction(s, t.act)
      case Some(x) => EventIsKept(s.db, x, c);
      case None =>
    }
    if JustPrepared(t, c) {
      p := t;
    } else {
      p := FindPrepared(t.prev, c);
    }
  }

  /** A call read its inspection at u, listed its photos at w, built its event at p and committed it with the
      outbox row at v. The event's inspector is the one read at u, its count the one of w, its id and its
      times are those drawn at p. */
  ghost predicate Counted(u: Trace, w: Trace, p: Trace, v: Trace, c: CallId, row: OutboxRow) {
    && JustRead(u, c) && JustListed(w, c) && JustPrepared(p, c) && Commits(v, c)
    && Extends(u, w.prev) && Extends(w, p.prev) && Extends(p, v.prev)
    && row.payload.eventId == p.act.call.uuid && row.payload.occurredAt == p.act.call.occurredAt
    && row.payload.data.completedAt == p.act.call.now
    && End(v).db.outbox == End(v.prev).db.outbox + [row]
    && row.payload.data.inspectionId == CallAt(u, c).id
    && row.payload.data.inspectorId == CallAt(u, c).pc.row.inspectorId
    && row.payload.data.photoCount == PhotoCount(End(w).db, CallAt(u, c).id)
  }

  lemma CommitIsCounted(v: Trace, c: CallId) returns (u: Trace, w: Trace, p: Trace)
    requires Commits(v, c)
    ensures End(v).db.outbox != [] && Counted(u, w, p, v, c, End(v).db.outbox[|End(v).db.outbox| - 1])
  {
    p := FindPrepared(v.prev, c);
    w := FindListed(p.prev, c);
    u := FindRead(w.prev, c);
    CountAtPrepare(p, c);
    ReadBeforeAll(u, w, p, v.prev);
    KeepsOrigin(u, v.prev, c);
    CallKeepsIdentity(p.prev, v.prev, c);
    CallIsOk(v.prev, c);
  }

  lemma CountAtPrepare(p: Trace, c: CallId)
    requires JustPrepared(p, c) && c in End(p).db.calls && HoldsEvent(CallAt(p, c).pc)
    requires c in End(p.prev).db.calls && CallAt(p.prev, c).pc.Loaded?
    ensures CountOf(CallAt(p, c)) == CountOf(CallAt(p.prev, c))
  {
  }

  lemma ReadBeforeAll(u: Trace, w: Trace, p: Trace, t: Trace)
    requires w.After? && p.After? && Extends(u, w.prev) && Extends(w, p.prev) && Extends(p, t)
    ensures Extends(u, t) && Extends(w, t) && Extends(p.prev, t)
  {
    assert Extends(w.prev, w) && Extends(p.prev, p);
    ExtendsTransitive(u, w.prev, w);
    ExtendsTransitive(p.prev, p, t);
    ExtendsTransitive(w, p.prev, t);
    ExtendsTransitive(u, w, t);
  }

  lemma CallKeepsIdentity(t: Trace, u: Trace, c: CallId)
    requires Extends(t, u) && c in End(t).db.calls
    ensures c in End(u).db.calls && CallAt(u, c).id == CallAt(t, c).id
  {
    CallPersists(t, u, c);
  }

  /** Every outbox row of every reachable state was read, counted, built and committed by one call, in this
      order, in every interleaving. */
  lemma EventCountsPhotos(t: Trace, k: nat)
    requires k < |End(t).db.outbox|
    ensures exists u, w, p, v, c :: Extends(v, t) && Counted(u, w, p, v, c, End(t).db.outbox[k])
  {
    var v := FindCommit(t, k);
    var u, w, p := CommitIsCounted(v, v.act.call.c);
    assert End(v).db.outbox[k] == End(t).db.outbox[k];
  }

  /** So the event's photo_count lies between the count when the call read the row and the count when
      it committed, despite the two-query read. */
  lemma PhotoCountIsBracketed(u: Trace, w: Trace, p: Trace, v: Trace, c: CallId, row: OutboxRow)
    requires Counted(u, w, p, v, c, row)
    ensures var id := row.payload.data.inspectionId;
      PhotoCount(End(u).db, id) <= row.payload.data.photoCount <= PhotoCount(End(v).db, id)
  {
    assert Extends(w.prev, w) && Extends(v.prev, v);
    ExtendsTransitive(u, w.prev, w);
    ReadBeforeAll(u, w, p, v.prev);
    ExtendsTransitive(w, v.prev, v);
    PhotosGrow(u, w, CallAt(u, c).id);
    PhotosGrow(w, v, CallAt(u, c).id);
  }

  /** Between w and t a photo of the inspection was inserted. */
  predicate InsertedBetween(w: Trace, x: Trace, t: Trace, id: Uuid) {
    x.After? && Extends(w, x.prev) && Extends(x, t) && Moved(x) && x.act.Serve? && x.act.call.PhotoInsert? &&
    CallAt(x.prev, x.act.call.c).pc.photo.inspectionId == id
  }

  lemma StepCounts(db: Db, a: Action, id: Uuid)
    requires Enabled(db, a)
    ensures PhotoCount(Step(db, a), id) ==
      PhotoCount(db, id) + if a.PhotoInsert? && db.calls[a.c].pc.photo.inspectionId == id then 1 else 0
  {
    if a.PhotoInsert? {
      LI.PhotosAppend(db.photos, StoredPhoto(db.calls[a.c].pc.photo), id);
    }
  }

  lemma InsertCounts(t: Trace, id: Uuid)
    requires t.After?
    ensures PhotoCount(End(t).db, id) ==
      PhotoCount(End(t.prev).db, id) + if InsertedBetween(t.prev, t, t, id) then 1 else 0
  {
    var s := End(t.prev);
    if CanAct(s, t.act) {
      DbMoves(s, t.act);
      match DbAction(s, t.act)
      case Some(x) => StepCounts(s.db, x, id);
      case None =>
    }
    assert Extends(t.prev, t.prev) && Extends(t, t);
  }

  lemma {:induction false} CountGrowsByInserts(w: Trace, t: Trace, id: Uuid)
    requires Extends(w, t)
    ensures PhotoCount(End(w).db, id) <= PhotoCount(End(t).db, id)
    ensures PhotoCount(End(w).db, id) < PhotoCount(End(t).db, id) <==> exists x :: InsertedBetween(w, x, t, id)
  {
    if w != t {
      CountGrowsByInserts(w, t.prev, id);
      InsertCounts(t, id);
      if x :| InsertedBetween(w, x, t.prev, id) {
        assert InsertedBetween(w, x, t, id);
      } else if InsertedBetween(t.prev, t, t, id) {
        assert InsertedBetween(w, t, t, id);
      } else {
        forall x ensures !InsertedBetween(w, x, t, id) {
          assert InsertedBetween(w, x, t, id) ==> x == t || InsertedBetween(w, x, t.prev, id);
        }
      }
    } else {
      forall x: Trace | x.After? ensures !InsertedBetween(w, x, t, id) {
        NotBeforeItself(x, t);
      }
    }
  }

  function Length(t: Trace): nat {
    if t.After? then Length(t.prev) + 1 else 0
  }

  lemma {:induction false} ExtendsIsLonger(t: Trace, u: Trace)
    requires Extends(t, u)
    ensures Length(t) <= Length(u)
  {
    if t != u {
      ExtendsIsLonger(t, u.prev);
    }
  }

  /** Nothing comes both before and after a step. */
  lemma NotBeforeItself(x: Trace, t: Trace)
    requires x.After?
    ensures !(Extends(t, x.prev) && Extends(x, t))
  {
    if Extends(t, x.prev) {
      ExtendsIsLonger(t, x.prev);
    }
    if Extends(x, t) {
      ExtendsIsLonger(x, t);
    }
  }

  /** The event's photo count is stale at its commit exactly when a photo of the inspection was inserted
      since the call's second query. */
  lemma EventCountIsStaleExactlyWhen(u: Trace, w: Trace, p: Trace, v: Trace, c: CallId, row: OutboxRow)
    requires Counted(u, w, p, v, c, row)
    ensures var id := row.payload.data.inspectionId;
      row.payload.data.photoCount != PhotoCount(End(v).db, id) <==> exists x :: InsertedBetween(w, x, v, id)
  {
    assert Extends(v.prev, v);
    ReadBeforeAll(u, w, p, v.prev);
    ExtendsTransitive(w, v.prev, v);
    CountGrowsByInserts(w, v, row.payload.data.inspectionId);
  }

  /** The AddPhoto calls that act on a row they read as scheduled. */
  predicate AddsTo(call: Call, id: Uuid) {
    call.op.AddPhoto? && call.id == id &&
    match call.pc
    case HasRow(row) => row.status == Scheduled
    case Loaded(row, _) => row.status == Scheduled
    case Adding(_) => true
    case _ => false
  }

  function AddersOf(db: Db, id: Uuid): set<CallId> {
    set c | c in db.calls && AddsTo(db.calls[c], id)
  }

  /** Photos there are, plus photos that may still come. */
  function PhotoBudget(db: Db, id: Uuid): nat {
    PhotoCount(db, id) + |AddersOf(db, id)|
  }

  lemma RemovedIsFewer(s: set<CallId>, s': set<CallId>, c: CallId)
    requires s' <= s - {c} && c in s
    ensures |s'| + 1 <= |s|
  {
    SubsetSize(s', s - {c});
  }

  lemma StepKeepsBudget(db: Db, a: Action, id: Uuid)
    requires LI.Inv(db) && Enabled(db, a) && IsCompleted(db, id)
    ensures PhotoBudget(Step(db, a), id) <= PhotoBudget(db, id)
  {
    var db' := Step(db, a);
    if a.PhotoInsert? {
      var photo := StoredPhoto(db.calls[a.c].pc.photo);
      assert LI.CallOk(db, db.calls[a.c]);
      LI.PhotosAppend(db.photos, photo, id);
      if photo.inspectionId == id {
        RemovedIsFewer(AddersOf(db, id), AddersOf(db', id), a.c);
      } else {
        SubsetSize(AddersOf(db', id), AddersOf(db, id));
      }
    } else {
      assert AddersOf(db', id) <= AddersOf(db, id) by {
        NoNewAdders(db, a, id);
      }
      SubsetSize(AddersOf(db', id), AddersOf(db, id));
    }
  }

  lemma AdderWasAdder(db: Db, a: Action, id: Uuid, c: CallId)
    requires Enabled(db, a) && IsCompleted(db, id) && c in Step(db, a).calls && AddsTo(Step(db, a).calls[c], id)
    ensures c in db.calls && AddsTo(db.calls[c], id)
  {
  }

  lemma NoNewAdders(db: Db, a: Action, id: Uuid)
    requires Enabled(db, a) && IsCompleted(db, id)
    ensures AddersOf(Step(db, a), id) <= AddersOf(db, id)
  {
    forall c | c in AddersOf(Step(db, a), id) ensures c in AddersOf(db, id) {
      AdderWasAdder(db, a, id, c);
    }
  }

  /** Once an inspection is completed, its photos plus the AddPhoto calls holding a
      scheduled snapshot of it never increase. */
  lemma {:induction false} BudgetNeverGrows(t: Trace, u: Trace, id: Uuid)
    requires Extends(t, u) && IsCompleted(End(t).db, id)
    ensures PhotoBudget(End(u).db, id) <= PhotoBudget(End(t).db, id)
  {
    if t != u {
      BudgetNeverGrows(t, u.prev, id);
      ExtendsIsLater(t, u.prev);
      assert LI.RowLater(End(t).db.inspections[id], End(u.prev).db, id);
      var s := End(u.prev);
      if CanAct(s, u.act) {
        Reachable(u.prev);
        DbMoves(s, u.act);
        match DbAction(s, u.act)
        case Some(x) => StepKeepsBudget(s.db, x, id);
        case None =>
      }
    }
  }

  /** Photos added after completion never exceed the AddPhoto calls in flight at the commit. */
  lemma LatePhotosAreBounded(t: Trace, u: Trace, id: Uuid)
    requires Extends(t, u) && IsCompleted(End(t).db, id)
    ensures PhotoCount(End(t).db, id) <= PhotoCount(End(u).db, id)
    ensures PhotoCount(End(u).db, id) <= PhotoCount(End(t).db, id) + |AddersOf(End(t).db, id)|
  {
    BudgetNeverGrows(t, u, id);
    ExtendsIsLater(t, u);
    assert PhotoCount(End(t).db, id) <= PhotoCount(End(u).db, id);
  }

  // ----- the bound is exact -----

  /** db' differs from db in what one call does next, and in UUIDs. */
  ghost predicate OnlyCallMoved(db: Db, db': Db, c: CallId) {
    && db'.inspections == db.inspections && db'.photos == db.photos
    && c in db.calls && c in db'.calls && db'.calls == db.calls[c := db'.calls[c]]
    && db'.calls[c].op == db.calls[c].op && db'.calls[c].id == db.calls[c].id
  }

  /** A call that holds a scheduled snapshot goes on to its insert, whatever the row is by now. */
  lemma ToInsert(t: Trace, id: Uuid, c: CallId) returns (u: Trace)
    requires c in AddersOf(End(t).db, id)
    ensures Extends(t, u) && OnlyCallMoved(End(t).db, End(u).db, c)
    ensures CallAt(u, c).pc.Adding? && CallAt(u, c).pc.photo.inspectionId == id
  {
    CallIsOk(t, c);
    match CallAt(t, c).pc
    case HasRow(_) =>
      var t1 := Serve1(t, ReadPhotos(c));
      u := PastTheCheck(t1, id, c);
      ExtendsTransitive(t, t1, u);
    case Loaded(_, _) =>
      u := PastTheCheck(t, id, c);
    case Adding(_) =>
      u := t;
  }

  lemma PastTheCheck(t: Trace, id: Uuid, c: CallId) returns (u: Trace)
    requires c in AddersOf(End(t).db, id) && CallAt(t, c).pc.Loaded?
    ensures Extends(t, u) && OnlyCallMoved(End(t).db, End(u).db, c)
    ensures CallAt(u, c).pc.Adding? && CallAt(u, c).pc.photo.inspectionId == id
  {
    var uuid := FreshUuid(End(t).db.uuids);
    u := Serve1(t, Prepare(c, 0, 0, uuid));
  }

  lemma PhotoArrives(t: Trace, id: Uuid, c: CallId) returns (u: Trace)
    requires c in AddersOf(End(t).db, id)
    ensures Extends(t, u) && PhotoCount(End(u).db, id) == PhotoCount(End(t).db, id) + 1
    ensures AddersOf(End(u).db, id) == AddersOf(End(t).db, id) - {c}
  {
    var t1 := ToInsert(t, id, c);
    u := Serve1(t1, PhotoInsert(c, true));
    ExtendsTransitive(t, t1, u);
    LI.PhotosAppend(End(t).db.photos, StoredPhoto(CallAt(t1, c).pc.photo), id);
  }

  /** The bound is reached: in some continuation every such call adds its photo. */
  lemma {:induction false} AllLatePhotosMayArrive(t: Trace, id: Uuid) returns (u: Trace)
    ensures Extends(t, u) && PhotoCount(End(u).db, id) == PhotoCount(End(t).db, id) + |AddersOf(End(t).db, id)|
    decreases |AddersOf(End(t).db, id)|
  {
    if AddersOf(End(t).db, id) == {} {
      u := t;
    } else {
      var c :| c in AddersOf(End(t).db, id);
      var t1 := PhotoArrives(t, id, c);
      u := AllLatePhotosMayArrive(t1, id);
      ExtendsTransitive(t, t1, u);
    }
  }

  /** No run from t on changes the number of photos. */
  ghost predicate PhotosAreFrozen(t: Trace, id: Uuid) {
    forall u :: Extends(t, u) ==> PhotoCount(End(u).db, id) == PhotoCount(End(t).db, id)
  }

  /** A completed inspection's photos are frozen exactly when no AddPhoto call still holds a
      snapshot of it that says scheduled. */
  lemma FrozenExactlyWhen(t: Trace, id: Uuid)
    requires IsCompleted(End(t).db, id)
    ensures PhotosAreFrozen(t, id) <==> AddersOf(End(t).db, id) == {}
  {
    var u := AllLatePhotosMayArrive(t, id);
    if AddersOf(End(t).db, id) == {} {
      forall v | Extends(t, v) ensures PhotoCount(End(v).db, id) == PhotoCount(End(t).db, id) {
        LatePhotosAreBounded(t, v, id);
      }
    }
  }

  // ----- the photos table -----

  /** A photo about to be inserted has a drawn id that no stored photo has. */
  ghost predicate NewPhotoOk(db: Db, call: Call) {
    call.pc.Adding? ==>
      && call.pc.photo.id in db.uuids
      && forall k :: 0 <= k < |db.photos| ==> db.photos[k].id != call.pc.photo.id
  }

  ghost predicate PhotosApart(p: Call, q: Call) {
    p.pc.Adding? && q.pc.Adding? ==> p.pc.photo.id != q.pc.photo.id
  }

  ghost predicate PhotosOk(db: Db) {
    && (forall j, k :: 0 <= j < k < |db.photos| ==> db.photos[j].id != db.photos[k].id)
    && (forall k :: 0 <= k < |db.photos| ==>
          db.photos[k].id in db.uuids && db.photos[k].inspectionId in db.inspections)
    && (forall c :: c in db.calls ==> NewPhotoOk(db, db.calls[c]))
    && (forall c, d :: c in db.calls && d in db.calls && c != d ==> PhotosApart(db.calls[c], db.calls[d]))
  }

  /** Where the table stays, only the call that moved needs a fresh look. */
  lemma SamePhotosOk(db: Db, db': Db, c: CallId)
    requires PhotosOk(db) && db'.photos == db.photos && db.uuids <= db'.uuids
    requires forall id :: id in db.inspections ==> id in db'.inspections
    requires c in db'.calls && db'.calls == db.calls[c := db'.calls[c]]
    requires NewPhotoOk(db', db'.calls[c])
    requires forall d :: d in db.calls && d != c ==>
      PhotosApart(db'.calls[c], db.calls[d]) && PhotosApart(db.calls[d], db'.calls[c])
    ensures PhotosOk(db')
  {
  }

  /** A call comes to its insert with a fresh id. */
  lemma OnlyPrepareAdds(db: Db, a: Action)
    requires Enabled(db, a) && !a.Create? && Step(db, a).calls[a.c].pc.Adding?
    ensures a.Prepare? && Step(db, a).calls[a.c].pc.photo.id == a.uuid && a.uuid !in db.uuids
    ensures a.uuid in Step(db, a).uuids
  {
  }

  lemma CommitShape(db: Db, a: Action)
    requires Enabled(db, a) && a.CompleteCommit?
    ensures var db' := Step(db, a);
      && db'.photos == db.photos && db.uuids == db'.uuids
      && (forall id :: id in db.inspections ==> id in db'.inspections)
      && a.c in db'.calls && db'.calls == db.calls[a.c := db'.calls[a.c]]
  {
  }

  lemma StepShape(db: Db, a: Action)
    requires LI.Inv(db) && Enabled(db, a) && !a.Create? && !a.PhotoInsert?
    ensures var db' := Step(db, a);
      && db'.photos == db.photos && db.uuids <= db'.uuids
      && (forall id :: id in db.inspections ==> id in db'.inspections)
      && a.c in db'.calls && db'.calls == db.calls[a.c := db'.calls[a.c]]
  {
    match a
    case UpdateWrite(c, _) =>
      assert LI.CallOk(db, db.calls[c]);
      LI.UpdateShape(db, a);
    case CompleteCommit(_, _) => CommitShape(db, a);
    case _ => LI.OffTablesShape(db, a);
  }

  lemma InsertKeepsPhotos(db: Db, a: Action)
    requires PhotosOk(db) && Enabled(db, a) && a.PhotoInsert? && LI.CallOk(db, db.calls[a.c])
    ensures PhotosOk(Step(db, a))
  {
    var db', photo := Step(db, a), StoredPhoto(db.calls[a.c].pc.photo);
    assert NewPhotoOk(db, db.calls[a.c]);
    assert db'.photos == db.photos + [photo] && photo.id == db.calls[a.c].pc.photo.id;
    forall c | c in db'.calls ensures NewPhotoOk(db', db'.calls[c]) {
      if c != a.c {
        assert NewPhotoOk(db, db.calls[c]) && PhotosApart(db.calls[a.c], db.calls[c]);
      }
    }
    forall c, d | c in db'.calls && d in db'.calls && c != d ensures PhotosApart(db'.calls[c], db'.calls[d]) {
      if c != a.c && d != a.c {
        assert PhotosApart(db.calls[c], db.calls[d]);
      }
    }
  }

  lemma CreateKeepsPhotos(db: Db, a: Action)
    requires PhotosOk(db) && Enabled(db, a) && a.Create?
    ensures PhotosOk(Step(db, a))
  {
    forall c | c in db.calls ensures NewPhotoOk(Step(db, a), db.calls[c]) {
      assert NewPhotoOk(db, db.calls[c]);
    }
  }

  lemma CallStepKeepsPhotos(db: Db, a: Action)
    requires LI.Inv(db) && PhotosOk(db) && Enabled(db, a) && !a.Create? && !a.PhotoInsert?
    ensures PhotosOk(Step(db, a))
  {
    var db' := Step(db, a);
    StepShape(db, a);
    if db'.calls[a.c].pc.Adding? {
      OnlyPrepareAdds(db, a);
      forall d | d in db.calls && d != a.c
        ensures PhotosApart(db'.calls[a.c], db.calls[d]) && PhotosApart(db.calls[d], db'.calls[a.c])
      {
        assert NewPhotoOk(db, db.calls[d]);
      }
    }
    SamePhotosOk(db, db', a.c);
  }

  lemma {:induction false} ReachablePhotosOk(t: Trace)
    ensures PhotosOk(End(t).db)
  {
    if t.After? {
      ReachablePhotosOk(t.prev);
      Reachable(t.prev);
      var s := End(t.prev);
      if CanAct(s, t.act) {
        DbMoves(s, t.act);
        match DbAction(s, t.act)
        case Some(x) =>
          if x.Create? {
            CreateKeepsPhotos(s.db, x);
          } else if x.PhotoInsert? {
            assert LI.CallOk(s.db, s.db.calls[x.c]);
            InsertKeepsPhotos(s.db, x);
          } else {
            CallStepKeepsPhotos(s.db, x);
          }
        case None =>
      }
    }
  }

  /** In every reachable state the stored photos have pairwise distinct, drawn ids and existing inspections. */
  lemma PhotosAreDistinct(t: Trace)
    ensures var db := End(t).db;
      && (forall j, k :: 0 <= j < k < |db.photos| ==> db.photos[j].id != db.photos[k].id)
      && (forall k :: 0 <= k < |db.photos| ==>
            db.photos[k].id in db.uuids && db.photos[k].inspectionId in db.inspections)
  {
    ReachablePhotosOk(t);
  }
}
