/** The shared services behind the code: Postgres, Redis and Kafka as one mutable
    object. Each method is one statement or command; before it takes effect, any
    number of steps of everybody else may happen. The `trace` records the run, and
    Valid says that the fields are what the state machine has after that run. */
module World {
  import opened Domain
  import opened Lifecycle
  import LI = LifecycleInvariant
  import R = OutboxRelay
  import C = InboundConsumer
  import opened InspectService
  import opened CallHistory

  /** Who waits while others act. */
  datatype Who = OfCall(c: CallId) | OfRelay(r: R.RelayId) | OfConsumer

  predicate IsBy(a: Act, me: Who) {
    match me
    case OfCall(c) => a.Serve? && !a.call.Create? && a.call.c == c
    case OfRelay(r) => a.Relay? && !a.relay.Straggle? && a.relay.r == r
    case OfConsumer => a.Consumer? && !a.consumer.Produce? && !a.consumer.Expire?
  }

  /** u continues t without an action of `me`. */
  predicate Others(t: Trace, u: Trace, me: Who) {
    t == u || (u.After? && Others(t, u.prev, me) && !IsBy(u.act, me))
  }

  /** What others cannot change for `me`. */
  ghost predicate Untouched(s: State, s': State, me: Who) {
    match me
    case OfCall(c) =>
      (c in s'.db.calls <==> c in s.db.calls) && (c in s.db.calls ==> s'.db.calls[c] == s.db.calls[c])
    case OfRelay(r) => R.PcOf(s'.relay, r) == R.PcOf(s.relay, r)
    case OfConsumer => s'.consumer.pc == s.consumer.pc && s'.consumer.committed == s.consumer.committed
  }

  lemma CreatePerformed(s: State, a: C.Action)
    requires CanAct(s, Act.Consumer(a)) && a.Create? && a.applied
    ensures Perform(s, Act.Consumer(a)) == s.(
      db := CreateRow(s.db, a.id, s.consumer.pc.job.requestId, a.now),
      consumer := C.Step(s.consumer, a))
  {
  }

  /** The local step of a Complete call builds this event. */
  lemma CompletePrepared(db: Db, c: CallId, now: Time, event: Event)
    requires c in db.calls && db.calls[c].pc.Loaded? && db.calls[c].op.Complete? &&
      db.calls[c].pc.row.status == Scheduled
    requires event == NewInspectCompletedEvent(
      db.calls[c].pc.row.(status := Completed, completedAt := Some(now), updatedAt := now),
      |db.calls[c].pc.photos|, event.eventId, event.occurredAt)
    ensures var db' := PrepareCall(db, c, now, event.occurredAt, event.eventId);
      c in db'.calls && db'.calls[c] == db.calls[c].(pc := Completing(now, event))
  {
  }

  lemma CallsOfOthers(db: Db, a: Action, c: CallId)
    requires Enabled(db, a) && (a.Create? || a.c != c)
    ensures c in Step(db, a).calls <==> c in db.calls
    ensures c in db.calls ==> Step(db, a).calls[c] == db.calls[c]
  {
  }

  lemma OtherLeaves(s: State, a: Act, me: Who)
    requires CanAct(s, a) && !IsBy(a, me)
    ensures Untouched(s, Perform(s, a), me)
  {
    DbMoves(s, a);
    if me.OfCall? {
      match DbAction(s, a)
      case Some(x) => CallsOfOthers(s.db, x, me.c);
      case None =>
    }
  }

  lemma {:induction false} OthersLeave(t: Trace, u: Trace, me: Who)
    requires Others(t, u, me)
    ensures Extends(t, u) && Untouched(End(t), End(u), me)
  {
    if t != u {
      OthersLeave(t, u.prev, me);
      if CanAct(End(u.prev), u.act) {
        OtherLeaves(End(u.prev), u.act, me);
      }
    }
  }

  /** Whatever u continues, v continues too; in particular v continues u. */
  ghost predicate Continues(u: Trace, v: Trace) {
    Extends(u, v) && forall t :: Extends(t, u) ==> Extends(t, v)
  }

  lemma ExtendsContinues(u: Trace, v: Trace)
    requires Extends(u, v)
    ensures Continues(u, v)
  {
    forall t | Extends(t, u) ensures Extends(t, v) {
      ExtendsTransitive(t, u, v);
    }
  }

  /** After actions of others, u ends with action a of `me`. */
  predicate Acted(t: Trace, u: Trace, me: Who, a: Act) {
    Moved(u) && u.act == a && Others(t, u.prev, me)
  }

  /** What the reader did in a run, in order. */
  function ReaderActs(t: Trace): seq<C.Action> {
    match t
    case Start => []
    case After(prev, act) => ReaderActs(prev) + if IsBy(act, OfConsumer) then [act.consumer] else []
  }

  lemma {:induction false} OthersDoNotRead(t: Trace, u: Trace)
    requires Others(t, u, OfConsumer)
    ensures ReaderActs(u) == ReaderActs(t)
  {
    if t != u {
      OthersDoNotRead(t, u.prev);
    }
  }

  /** The run ends with a statement of call c that failed, or whose reply was lost. */
  predicate StatementFailed(t: Trace, c: CallId) {
    t.After? && t.act.Serve? &&
    match t.act.call
    case Fail(d) => d == c
    case UpdateWrite(d, replied) => d == c && !replied
    case CompleteCommit(d, replied) => d == c && !replied
    case PhotoInsert(d, replied) => d == c && !replied
    case _ => false
  }

  /** The rows of one inspection, appended one by one. */
  method CollectPhotos(table: seq<Photo>, id: Uuid) returns (found: seq<Photo>)
    ensures found == PhotosOf(table, id)
  {
    found := [];
    for i := 0 to |table|
      invariant found == PhotosOf(table[..i], id)
    {
      LI.PhotosAppend(table[..i], table[i], id);
      assert table[..i + 1] == table[..i] + [table[i]];
      if table[i].inspectionId == id {
        found := found + [table[i]];
      }
    }
    assert table[..|table|] == table;
  }

  class Services {
    // Postgres
    var inspections: map<Uuid, Inspection>
    var photos: seq<Photo>
    var outbox: seq<OutboxRow>
    var nextOutboxId: nat
    var published: set<nat>
    // Redis
    var marks: set<Uuid>
    // Kafka
    var inbound: seq<C.Message>
    var committed: nat
    var log: seq<R.Record>
    // bookkeeping: where everybody stands, what was drawn, and the run so far
    var calls: map<CallId, Call>
    var relays: map<R.RelayId, R.RelayPc>
    var stragglers: set<OutboxRow>
    var reader: C.Pc
    var stamps: set<(Uuid, Time)>
    var collided: bool
    var uuids: set<Uuid>
    var trace: Trace
    // whether the statement at hand fails
    var broken: bool

    function Tables(): Db
      reads this
    {
      Db(inspections, photos, outbox, nextOutboxId, calls, stamps, collided, uuids)
    }

    function Relays(): R.RelayState
      reads this
    {
      R.RelayState(published, log, stragglers, relays)
    }

    function Inbound(): C.ConsumerState
      reads this
    {
      C.ConsumerState(inbound, committed, marks, reader)
    }

    function Current(): State
      reads this
    {
      State(Tables(), Relays(), Inbound())
    }

    predicate Valid()
      reads this
    {
      Current() == End(trace)
    }

    /** The run went on from an earlier state, and the fields with it. */
    twostate predicate GoesOn()
      reads this
    {
      Valid() && Continues(old(trace), trace)
    }

    /** The reader did just this. */
    twostate predicate ReaderDid(a: C.Action)
      reads this
    {
      ReaderActs(trace) == old(ReaderActs(trace)) + [a]
    }

    /** A call that was told of a database error has just seen a statement fail. */
    predicate ErrorIsReal(c: CallId)
      reads this
    {
      c in calls && calls[c].pc == Done(ErrDatabase) ==> StatementFailed(trace, c)
    }

    constructor ()
      ensures Valid() && trace == Start
    {
      inspections, photos, outbox, nextOutboxId, published := map[], [], [], 1, {};
      marks, inbound, committed, log := {}, [], 0, [];
      calls, relays, stragglers, reader := map[], map[], {}, C.Stopped;
      stamps, collided, uuids, trace := {}, false, {NIL_UUID}, Start;
      broken := false;
    }

    method LoadTables(db: Db)
      modifies `inspections, `photos, `outbox, `nextOutboxId, `calls, `stamps, `collided, `uuids
      ensures Tables() == db
    {
      inspections, photos, outbox, nextOutboxId := db.inspections, db.photos, db.outbox, db.nextOutboxId;
      calls, stamps, collided, uuids := db.calls, db.stamps, db.collided, db.uuids;
    }

    method LoadRelays(s: R.RelayState)
      modifies `published, `log, `stragglers, `relays
      ensures Relays() == s
    {
      published, log, stragglers, relays := s.published, s.log, s.stragglers, s.relays;
    }

    method LoadInbound(s: C.ConsumerState)
      modifies `inbound, `committed, `marks, `reader
      ensures Inbound() == s
    {
      inbound, committed, marks, reader := s.inbound, s.committed, s.marks, s.pc;
    }

    method Load(s: State, t: Trace)
      modifies this
      ensures Current() == s && trace == t
    {
      LoadTables(s.db);
      LoadRelays(s.relay);
      LoadInbound(s.consumer);
      trace := t;
    }

    /** Any number of actions of others; and the network decides whether the next statement fails. */
    method Interfere(me: Who)
      requires Valid()
      modifies this
      ensures GoesOn()
      ensures Others(old(trace), trace, me) && Untouched(old(Current()), Current(), me)
      ensures me.OfConsumer? ==> ReaderActs(trace) == old(ReaderActs(trace))
    {
      var env: Trace := *;
      if !Others(trace, env, me) {
        env := trace;
      }
      OthersLeave(trace, env, me);
      ExtendsContinues(trace, env);
      if me.OfConsumer? {
        OthersDoNotRead(trace, env);
      }
      Load(End(env), env);
      broken := *;
    }

    /** Appends an action to the run. */
    method Record(a: Act)
      requires CanAct(End(trace), a) && Current() == Perform(End(trace), a)
      modifies this`trace
      ensures GoesOn() && trace == After(old(trace), a)
    {
      ExtendsContinues(trace, After(trace, a));
      trace := After(trace, a);
    }

    /** Appends an action of a service call. */
    method RecordCall(a: Action)
      requires !a.Create? && Enabled(End(trace).db, a) && Tables() == Step(End(trace).db, a)
      requires Relays() == End(trace).relay && Inbound() == End(trace).consumer
      modifies this`trace
      ensures GoesOn() && trace == After(old(trace), Act.Serve(a))
    {
      Record(Act.Serve(a));
    }

    /** Appends an action of a relay. */
    method RecordRelay(a: R.Action)
      requires R.Enabled(End(trace).relay, a) && Relays() == R.Step(End(trace).db.outbox, End(trace).relay, a)
      requires Tables() == End(trace).db && Inbound() == End(trace).consumer
      modifies this`trace
      ensures GoesOn() && trace == After(old(trace), Act.Relay(a)) && Moved(trace)
    {
      Record(Act.Relay(a));
    }

    /** Appends an action of the reader that is not the insert. */
    method RecordReader(a: C.Action)
      requires IsBy(Act.Consumer(a), OfConsumer)
      requires !a.Create? && C.Enabled(End(trace).consumer, a) && Inbound() == C.Step(End(trace).consumer, a)
      requires Tables() == End(trace).db && Relays() == End(trace).relay
      modifies this`trace
      ensures GoesOn() && ReaderDid(a) && trace == After(old(trace), Act.Consumer(a))
    {
      Record(Act.Consumer(a));
    }

    /** Appends an insert of the reader. */
    method RecordInsert(a: C.Action)
      requires a.Create? && CanAct(End(trace), Act.Consumer(a)) && Current() == Perform(End(trace), Act.Consumer(a))
      modifies this`trace
      ensures GoesOn() && ReaderDid(a) && trace == After(old(trace), Act.Consumer(a))
    {
      Record(Act.Consumer(a));
    }

    // ----- service calls -----

    method BeginCall(c: CallId, op: Op, id: Uuid)
      requires Valid() && c !in calls
      modifies this
      ensures GoesOn()
      ensures c in calls && calls[c] == Call(op, id, Begin)
    {
      Interfere(OfCall(c));
      calls := calls[c := Call(op, id, Begin)];
      RecordCall(Invoke(c, op, id));
    }

    /** The statement at hand failed, and the call is told of a database error; nothing was applied. */
    method FailCall(c: CallId)
      requires Valid() && c in calls && !calls[c].pc.Done? && broken
      modifies this
      ensures GoesOn() && ErrorIsReal(c)
      ensures c in calls && calls[c] == old(calls[c]).(pc := Done(ErrDatabase))
    {
      calls := calls[c := calls[c].(pc := Done(ErrDatabase))];
      broken := false;
      RecordCall(Fail(c));
    }

    /** SELECT ... FROM inspections WHERE id = $1. None is a database error. */
    method SelectRow(c: CallId) returns (row: Option<Option<Inspection>>)
      requires Valid() && c in calls && calls[c].pc == Begin
      modifies this
      ensures GoesOn() && ErrorIsReal(c)
      ensures c in calls && calls[c] == old(calls[c]).(pc :=
        match row
        case None => Done(ErrDatabase)
        case Some(None) => Done(ErrNotFound)
        case Some(Some(r)) => HasRow(r))
      ensures row.Some? ==> row.value == if calls[c].id in inspections then Some(inspections[calls[c].id]) else None
      ensures row.Some? && row.value.Some? ==> JustRead(trace, c)
    {
      Interfere(OfCall(c));
      if broken {
        FailCall(c);
        return None;
      }
      var id := calls[c].id;
      row := Some(if id in inspections then Some(inspections[id]) else None);
      calls := calls[c := calls[c].(pc := if id in inspections then HasRow(inspections[id]) else Done(ErrNotFound))];
      RecordCall(ReadRow(c));
    }

    /** SELECT ... FROM inspection_photos WHERE inspection_id = $1, collected row by row. */
    method SelectPhotos(c: CallId) returns (rows: Option<seq<Photo>>)
      requires Valid() && c in calls && calls[c].pc.HasRow?
      modifies this
      ensures GoesOn() && ErrorIsReal(c)
      ensures c in calls && calls[c] == old(calls[c]).(pc :=
        match rows
        case None => Done(ErrDatabase)
        case Some(ps) => Loaded(old(calls[c].pc.row), ps))
      ensures rows.Some? ==> rows.value == PhotosOf(photos, calls[c].id)
    {
      Interfere(OfCall(c));
      if broken {
        FailCall(c);
        return None;
      }
      var found := CollectPhotos(photos, calls[c].id);
      rows := Some(found);
      calls := calls[c := calls[c].(pc := Loaded(calls[c].pc.row, found))];
      RecordCall(ReadPhotos(c));
    }

    /** A UUID nobody has drawn. */
    method NewUuid() returns (u: Uuid)
      ensures u !in uuids
    {
      u := 0;
      var rest := uuids;
      while rest != {}
        invariant rest <= uuids && forall v :: v in uuids && v !in rest ==> v < u
        decreases |rest|
      {
        var v :| v in rest;
        rest := rest - {v};
        u := if v < u then u else v + 1;
      }
    }

    /** The local step of an Update call. */
    method NoteUpdate(c: CallId, now: Time)
      requires Valid() && c in calls && calls[c].pc.Loaded? && calls[c].op.Update?
      modifies this
      ensures GoesOn()
      ensures c in calls && var row, patch := old(calls[c].pc.row), old(calls[c].op.patch);
        calls[c] == old(calls[c]).(pc := Writing(Patched(row, patch).(updatedAt := now), row.updatedAt))
    {
      var uuid := NewUuid();
      LoadTables(PrepareCall(Tables(), c, now, now, uuid));
      RecordCall(Prepare(c, now, now, uuid));
    }

    /** The local step of a Complete or AddPhoto call on a row that is not scheduled. */
    method NoteRefusal(c: CallId)
      requires Valid() && c in calls && calls[c].pc.Loaded? && !calls[c].op.Update? &&
        calls[c].pc.row.status != Scheduled
      modifies this
      ensures GoesOn()
      ensures c in calls && calls[c] == old(calls[c]).(pc := Done(ErrInvalidStatus))
    {
      var uuid := NewUuid();
      LoadTables(PrepareCall(Tables(), c, 0, 0, uuid));
      RecordCall(Prepare(c, 0, 0, uuid));
    }

    /** The local step of a Complete call: it has built this event. */
    method NoteEvent(c: CallId, now: Time, event: Event)
      requires Valid() && c in calls && calls[c].pc.Loaded? && calls[c].op.Complete? &&
        calls[c].pc.row.status == Scheduled
      requires event.eventId !in uuids
      requires var pc := calls[c].pc;
        event == NewInspectCompletedEvent(pc.row.(status := Completed, completedAt := Some(now), updatedAt := now),
                                          |pc.photos|, event.eventId, event.occurredAt)
      modifies this
      ensures GoesOn()
      ensures c in calls && calls[c] == old(calls[c]).(pc := Completing(now, event))
    {
      CompletePrepared(Tables(), c, now, event);
      LoadTables(PrepareCall(Tables(), c, now, event.occurredAt, event.eventId));
      RecordCall(Prepare(c, now, event.occurredAt, event.eventId));
    }

    /** The local step of an AddPhoto call: it has built this photo. */
    method NotePhoto(c: CallId, photo: Photo)
      requires Valid() && c in calls && calls[c].pc.Loaded? && calls[c].op.AddPhoto? &&
        calls[c].pc.row.status == Scheduled
      requires photo.id !in uuids && photo.inspectionId == calls[c].id
      modifies this
      ensures GoesOn()
      ensures c in calls && calls[c] == old(calls[c]).(pc := Adding(photo))
    {
      LoadTables(PrepareCall(Tables(), c, photo.uploadedAt, photo.uploadedAt, photo.id));
      RecordCall(Prepare(c, photo.uploadedAt, photo.uploadedAt, photo.id));
    }

    /** UPDATE inspections SET ... WHERE id = $5 AND updated_at = $6: the number of rows, or an
        error, which does not tell whether the row was written. */
    method UpdateRow(c: CallId) returns (rows: Option<nat>)
      requires Valid() && c in calls && calls[c].pc.Writing?
      modifies this
      ensures GoesOn() && ErrorIsReal(c)
      ensures c in calls && calls[c] == old(calls[c]).(pc :=
        if rows == None then Done(ErrDatabase) else if rows == Some(0) then Missed else Done(Success))
      ensures rows == Some(0) ==> !GuardMatches(Tables(), calls[c].id, old(calls[c].pc.prev))
      ensures rows.Some? && rows != Some(0) ==>
        var insp := old(calls[c].pc.insp);
        && rows == Some(1) && calls[c].id in inspections
        && ColumnsOf(inspections[calls[c].id]) == ColumnsOf(insp)
        && inspections[calls[c].id].updatedAt == Stored(insp.updatedAt)
    {
      Interfere(OfCall(c));
      var id, insp, prev := calls[c].id, calls[c].pc.insp, calls[c].pc.prev;
      var matched := GuardMatches(Tables(), id, prev);
      broken := broken || (matched && RowLocked(Tables(), id));   // the wait for the row lock is given up
      if broken {
        FailCall(c);
        return None;
      }
      var replied: bool := *;
      ApplyUpdate(c, replied);
      rows := if !matched then Some(0) else if replied then Some(1) else None;
      RecordCall(UpdateWrite(c, replied));
    }

    /** The guarded write itself. */
    method ApplyUpdate(c: CallId, replied: bool)
      requires Enabled(Tables(), UpdateWrite(c, replied))
      modifies `inspections, `calls
      ensures Tables() == Step(old(Tables()), UpdateWrite(c, replied))
      ensures c in calls
      ensures var id, insp, prev := old(calls[c].id), old(calls[c].pc.insp), old(calls[c].pc.prev);
        if old(GuardMatches(Tables(), id, prev)) then
          && calls[c] == old(calls[c]).(pc := Reply(replied)) && id in inspections
          && ColumnsOf(inspections[id]) == ColumnsOf(insp) && inspections[id].updatedAt == Stored(insp.updatedAt)
        else calls[c] == old(calls[c]).(pc := Missed) && inspections == old(inspections)
    {
      var id, insp, prev := calls[c].id, calls[c].pc.insp, calls[c].pc.prev;
      if GuardMatches(Tables(), id, prev) {
        inspections := inspections[id := UpdatedRow(inspections[id], insp)];
        calls := calls[c := calls[c].(pc := Reply(replied))];
      } else {
        calls := calls[c := calls[c].(pc := Missed)];
      }
    }

    /** SELECT EXISTS(...) after a guarded statement that matched nothing. */
    method SelectExists(c: CallId) returns (exists': Option<bool>)
      requires Valid() && c in calls && calls[c].pc == Missed
      modifies this
      ensures GoesOn() && ErrorIsReal(c)
      ensures c in calls && calls[c] == old(calls[c]).(pc := Done(
        if exists' == None then ErrDatabase else if exists' == Some(true) then ErrConflict else ErrNotFound))
      ensures exists'.Some? ==> (exists'.value <==> calls[c].id in inspections)
    {
      Interfere(OfCall(c));
      if broken {
        FailCall(c);
        return None;
      }
      var found := calls[c].id in inspections;
      exists' := Some(found);
      calls := calls[c := calls[c].(pc := Done(if found then ErrConflict else ErrNotFound))];
      RecordCall(CheckExists(c));
    }

    /** BEGIN; UPDATE inspections SET status = 'completed' ... WHERE id = $4 AND status = 'scheduled'. */
    method CasStatus(c: CallId) returns (rows: Option<nat>)
      requires Valid() && c in calls && calls[c].pc.Completing?
      modifies this
      ensures GoesOn() && ErrorIsReal(c)
      ensures c in calls && var pc := old(calls[c].pc);
        calls[c] == old(calls[c]).(pc :=
          if rows == None then Done(ErrDatabase) else if rows == Some(0) then Missed else Locked(pc.at, pc.event))
      ensures rows == Some(0) ==> !IsScheduled(Tables(), calls[c].id)
    {
      Interfere(OfCall(c));
      var id, at, event := calls[c].id, calls[c].pc.at, calls[c].pc.event;
      var matched := IsScheduled(Tables(), id);
      broken := broken || (matched && RowLocked(Tables(), id));
      if broken {
        FailCall(c);
        return None;
      }
      calls := calls[c := calls[c].(pc := if matched then Locked(at, event) else Missed)];
      rows := Some(if matched then 1 else 0);
      RecordCall(CompleteCas(c));
    }

    /** INSERT INTO outbox, inside the transaction: the id is drawn here. */
    method InsertOutbox(c: CallId) returns (ok: bool)
      requires Valid() && c in calls && calls[c].pc.Locked?
      modifies this
      ensures GoesOn() && ErrorIsReal(c)
      ensures c in calls && calls[c].op == old(calls[c].op) && calls[c].id == old(calls[c].id)
      ensures if ok then calls[c].pc.Drawn? && calls[c].pc.at == old(calls[c].pc.at) &&
        calls[c].pc.event == old(calls[c].pc.event)
              else calls[c].pc == Done(ErrDatabase)
    {
      Interfere(OfCall(c));
      if broken {
        FailCall(c);
        return false;
      }
      ok := true;
      calls := calls[c := calls[c].(pc := Drawn(calls[c].pc.at, calls[c].pc.event, nextOutboxId))];
      nextOutboxId := nextOutboxId + 1;
      RecordCall(CompleteInsert(c));
    }

    /** COMMIT: the status flip and the outbox row become visible together. */
    method CommitTx(c: CallId) returns (ok: bool)
      requires Valid() && c in calls && calls[c].pc.Drawn?
      modifies this
      ensures GoesOn() && ErrorIsReal(c)
      ensures c in calls && calls[c] == old(calls[c]).(pc := Done(if ok then Success else ErrDatabase))
      ensures ok ==>
        var at, event := old(calls[c].pc.at), old(calls[c].pc.event);
        && calls[c].id in inspections
        && inspections[calls[c].id].status == Completed
        && inspections[calls[c].id].completedAt == Some(Stored(at))
        && outbox != [] && outbox[|outbox| - 1].payload == event
    {
      Interfere(OfCall(c));
      CallIsOk(trace, c);
      if broken {
        FailCall(c);   // rolled back
        return false;
      }
      ok := *;
      ApplyCommit(c, ok);
      RecordCall(CompleteCommit(c, ok));
    }

    /** Both writes of the transaction at once. */
    method ApplyCommit(c: CallId, replied: bool)
      requires c in calls && calls[c].pc.Drawn? && calls[c].id in inspections
      modifies `inspections, `outbox, `calls
      ensures Tables() == Step(old(Tables()), CompleteCommit(c, replied))
      ensures c in calls && calls[c] == old(calls[c]).(pc := Reply(replied))
      ensures calls[c].id in inspections
      ensures inspections[calls[c].id] == CompletedRow(old(inspections[calls[c].id]), old(calls[c].pc.at))
      ensures outbox == old(outbox) + [NewOutboxRow(old(calls[c].pc.outboxId), old(calls[c].pc.event))]
    {
      var id, at, event, outboxId := calls[c].id, calls[c].pc.at, calls[c].pc.event, calls[c].pc.outboxId;
      inspections := inspections[id := CompletedRow(inspections[id], at)];
      outbox := outbox + [NewOutboxRow(outboxId, event)];
      calls := calls[c := calls[c].(pc := Reply(replied))];
    }

    /** The storage signs an upload, or fails to. */
    method Presign(c: CallId) returns (ok: bool)
      requires Valid() && c in calls && calls[c].pc.Loaded?
      modifies this
      ensures GoesOn() && ErrorIsReal(c)
      ensures c in calls && calls[c] == if ok then old(calls[c]) else old(calls[c]).(pc := Done(ErrDatabase))
    {
      Interfere(OfCall(c));
      if broken {
        FailCall(c);
        return false;
      }
      ok := true;
    }

    /** INSERT INTO inspection_photos, without any guard. */
    method InsertPhoto(c: CallId) returns (ok: bool)
      requires Valid() && c in calls && calls[c].pc.Adding?
      modifies this
      ensures GoesOn() && ErrorIsReal(c)
      ensures c in calls && calls[c] == old(calls[c]).(pc := Done(if ok then Success else ErrDatabase))
      ensures ok ==>
        var photo := old(calls[c].pc.photo);
        Photo(photo.id, photo.inspectionId, Stored(photo.uploadedAt)) in photos
    {
      Interfere(OfCall(c));
      if broken {
        FailCall(c);
        return false;
      }
      ok := *;
      photos := photos + [StoredPhoto(calls[c].pc.photo)];
      calls := calls[c := calls[c].(pc := Reply(ok))];
      RecordCall(PhotoInsert(c, ok));
    }

    // ----- the relay's statements -----

    /** SELECT ... FROM outbox WHERE published_at IS NULL ORDER BY id LIMIT $1. */
    method SelectUnpublished(r: R.RelayId) returns (rows: Option<seq<OutboxRow>>)
      requires Valid() && R.PcOf(Relays(), r).Idle?
      modifies this
      ensures GoesOn()
      ensures R.PcOf(Relays(), r) == if rows.Some? then R.AtRow(rows.value, 0) else R.Idle
      ensures rows.Some? ==> rows.value == R.Limit(R.Pending(outbox, published))
      ensures Acted(old(trace), trace, OfRelay(r), Act.Relay(if rows.Some? then R.Query(r) else R.QueryFails(r)))
    {
      Interfere(OfRelay(r));
      if broken {
        RecordRelay(R.QueryFails(r));
        return None;
      }
      var batch := R.Limit(R.Pending(outbox, published));
      rows := Some(batch);
      relays := relays[r := R.AtRow(batch, 0)];
      RecordRelay(R.Query(r));
    }

    /** WriteMessages: it returns nil only after the brokers took a copy. */
    method Publish(r: R.RelayId, row: OutboxRow) returns (ok: bool)
      requires Valid() && R.PcOf(Relays(), r).Busy? && !R.PcOf(Relays(), r).sent
      requires R.PcOf(Relays(), r).next < |R.PcOf(Relays(), r).batch| &&
        row == R.PcOf(Relays(), r).batch[R.PcOf(Relays(), r).next]
      modifies this
      ensures GoesOn()
      ensures R.PcOf(Relays(), r) == if ok then old(R.PcOf(Relays(), r)).(sent := true) else R.Idle
      ensures ok ==> R.RecordOf(row) in log
      ensures exists copies :: Acted(old(trace), trace, OfRelay(r), Act.Relay(R.Publish(r, copies, ok)))
    {
      Interfere(OfRelay(r));
      ok := *;
      var copies: nat :| ok ==> copies >= 1;
      AppendCopies(r, row, copies, ok);
      RecordRelay(R.Publish(r, copies, ok));
    }

    /** What the brokers took of one publish; more copies of earlier attempts may straggle in. */
    method AppendCopies(r: R.RelayId, row: OutboxRow, copies: nat, ok: bool)
      requires R.Enabled(Relays(), R.Publish(r, copies, ok)) &&
        row == R.PcOf(Relays(), r).batch[R.PcOf(Relays(), r).next]
      modifies `log, `stragglers, `relays
      ensures Relays() == R.Step(outbox, old(Relays()), R.Publish(r, copies, ok))
      ensures R.PcOf(Relays(), r) == if ok then old(R.PcOf(Relays(), r)).(sent := true) else R.Idle
      ensures ok ==> R.RecordOf(row) in log
    {
      var pc := R.PcOf(Relays(), r);
      var more := seq(copies, _ => R.RecordOf(pc.batch[pc.next]));
      assert ok ==> more[0] == R.RecordOf(row);
      log, stragglers := log + more, stragglers + {row};
      relays := relays[r := if ok then pc.(sent := true) else R.Idle];
    }

    /** The guardless statement that sets published_at of one row. */
    method MarkPublished(r: R.RelayId, id: nat) returns (ok: bool)
      requires Valid() && R.PcOf(Relays(), r).Busy? && R.PcOf(Relays(), r).sent
      requires R.PcOf(Relays(), r).next < |R.PcOf(Relays(), r).batch| &&
        id == R.PcOf(Relays(), r).batch[R.PcOf(Relays(), r).next].id
      modifies this
      ensures GoesOn()
      ensures R.PcOf(Relays(), r) ==
        if ok then R.AtRow(old(R.PcOf(Relays(), r)).batch, old(R.PcOf(Relays(), r)).next + 1) else R.Idle
      ensures ok ==> id in published
      ensures exists applied :: Acted(old(trace), trace, OfRelay(r), Act.Relay(R.Mark(r, applied, ok)))
    {
      Interfere(OfRelay(r));
      ok := *;
      var lost: bool := *;
      var applied := ok || !lost;
      var pc := R.PcOf(Relays(), r);
      if applied {
        published := published + {id};
      }
      relays := relays[r := if ok then R.AtRow(pc.batch, pc.next + 1) else R.Idle];
      RecordRelay(R.Mark(r, applied, ok));
    }

    // ----- the consumer's commands -----

    method JoinGroup()
      requires Valid() && reader.Stopped?
      modifies this
      ensures GoesOn() && ReaderDid(C.Start)
      ensures committed == old(committed) && reader == C.Polling(committed)
    {
      Interfere(OfConsumer);
      reader := C.Polling(committed);
      RecordReader(C.Start);
    }

    /** FetchMessage; None is an error or a cancelled context. */
    method Fetch() returns (m: Option<C.Message>)
      requires Valid() && reader.Polling?
      modifies this
      ensures GoesOn() && committed == old(committed)
      ensures ReaderDid(if m.Some? then C.Fetch else C.FetchFails)
      ensures match m
              case None => reader == C.Stopped
              case Some(msg) =>
                var pos := old(reader.pos);
                && pos < |inbound| && msg == inbound[pos]
                && reader == if C.Relevant(msg) then C.Checking(pos, C.Job(msg.eventId, msg.requestId))
                             else C.Handled(pos)
    {
      Interfere(OfConsumer);
      var pos := reader.pos;
      if broken || pos >= |inbound| {
        reader := C.Stopped;
        RecordReader(C.FetchFails);
        return None;
      }
      m := Some(inbound[pos]);
      C.DecodeIsRelevant(inbound[pos]);
      reader := match C.Decode(inbound[pos])
                case None => C.Handled(pos)
                case Some(job) => C.Checking(pos, job);
      RecordReader(C.Fetch);
    }

    /** SET key 1 NX EX ttl: true if the key was set; None is an error, after which it may be set. */
    method SetNx(eventId: Uuid) returns (set': Option<bool>)
      requires Valid() && reader.Checking? && eventId == reader.job.eventId
      modifies this
      ensures GoesOn() && committed == old(committed)
      ensures reader == match set'
                        case None => C.Stopped
                        case Some(true) => C.Creating(old(reader.pos), old(reader.job))
                        case Some(false) => C.Handled(old(reader.pos))
      ensures if set'.Some? then ReaderDid(C.Seen(true, true)) else exists applied :: ReaderDid(C.Seen(applied, false))
      ensures set'.Some? ==> eventId in marks
      ensures set'.Some? ==> trace.After? && (set'.value <==> eventId !in End(trace.prev).consumer.marks)
    {
      Interfere(OfConsumer);
      var ok: bool := *;
      var lost: bool := *;
      var applied := ok || !lost;
      var pos, job, dup := reader.pos, reader.job, eventId in marks;
      if applied {
        marks := marks + {eventId};
      }
      set' := if ok then Some(!dup) else None;
      reader := if !ok then C.Stopped else if dup then C.Handled(pos) else C.Creating(pos, job);
      RecordReader(C.Seen(applied, ok));
    }

    /** DEL key. */
    method Del(eventId: Uuid) returns (ok: bool)
      requires Valid() && reader.Forgetting? && eventId == reader.job.eventId
      modifies this
      ensures GoesOn() && committed == old(committed)
      ensures reader == C.Stopped
      ensures if ok then ReaderDid(C.Forget(true, true)) else exists applied :: ReaderDid(C.Forget(applied, false))
      ensures ok ==> eventId !in marks
    {
      Interfere(OfConsumer);
      ok := *;
      var lost: bool := *;
      var applied := ok || !lost;
      if applied {
        marks := marks - {eventId};
      }
      reader := C.Stopped;
      RecordReader(C.Forget(applied, ok));
    }

    /** The insert fails before it is applied. */
    method RefuseInsert(now: Time)
      requires Valid() && reader.Creating? && broken
      modifies this
      ensures GoesOn() && committed == old(committed)
      ensures reader == C.Forgetting(old(reader.pos), old(reader.job))
      ensures exists id :: ReaderDid(C.Create(id, now, false, false))
    {
      broken := false;
      var unused := NewUuid();
      reader := C.Forgetting(reader.pos, reader.job);
      RecordInsert(C.Create(unused, now, false, false));
    }

    /** The insert itself: a row whose request has an inspection is not written. */
    method ApplyInsert(id: Uuid, requestId: Uuid, now: Time) returns (rows: nat)
      modifies `inspections, `stamps, `collided, `uuids
      ensures Tables() == CreateRow(old(Tables()), id, requestId, now)
      ensures rows == if old(HasRequest(Tables(), requestId)) then 0 else 1
      ensures rows == 1 ==> id in inspections && inspections[id] == NewInspection(id, requestId, now)
      ensures HasRequest(Tables(), requestId)
    {
      collided := collided || (id, Stored(now)) in stamps;
      stamps := stamps + {(id, Stored(now))};
      uuids := uuids + {id};
      if HasRequest(Tables(), requestId) {
        rows := 0;
      } else {
        rows := 1;
        inspections := inspections[id := NewInspection(id, requestId, now)];
        assert inspections[id].requestId == requestId;
      }
    }

    /** INSERT INTO inspections ... ON CONFLICT (request_id) DO NOTHING: the number of rows. */
    method InsertInspection(id: Uuid, requestId: Uuid, now: Time) returns (rows: Option<nat>)
      requires Valid() && reader.Creating? && requestId == reader.job.requestId
      modifies this
      ensures GoesOn() && committed == old(committed)
      ensures reader == if rows.Some? then C.Handled(old(reader.pos))
        else C.Forgetting(old(reader.pos), old(reader.job))
      ensures rows.Some? ==> HasRequest(Tables(), requestId)
      ensures rows.Some? ==> trace.After? && rows.value == if HasRequest(End(trace.prev).db, requestId) then 0 else 1
      ensures rows == Some(1) ==> id in inspections && inspections[id] == NewInspection(id, requestId, now)
      ensures rows.Some? ==> ReaderDid(C.Create(id, now, true, true))
      ensures rows.None? ==> exists i, applied :: ReaderDid(C.Create(i, now, applied, false))
    {
      Interfere(OfConsumer);
      broken := broken || id in uuids;
      if broken {
        RefuseInsert(now);
        return None;
      }
      rows := TakeInsert(id, requestId, now);
    }

    /** The insert is applied; the reply may be lost. */
    method TakeInsert(id: Uuid, requestId: Uuid, now: Time) returns (rows: Option<nat>)
      requires Valid() && reader.Creating? && requestId == reader.job.requestId && id !in uuids
      modifies this
      ensures GoesOn() && committed == old(committed)
      ensures reader == if rows.Some? then C.Handled(old(reader.pos))
        else C.Forgetting(old(reader.pos), old(reader.job))
      ensures rows.Some? ==> HasRequest(Tables(), requestId)
      ensures rows.Some? ==> trace.After? && rows.value == if HasRequest(End(trace.prev).db, requestId) then 0 else 1
      ensures rows == Some(1) ==> id in inspections && inspections[id] == NewInspection(id, requestId, now)
      ensures ReaderDid(C.Create(id, now, true, rows.Some?))
    {
      var ok: bool := *;
      CreatePerformed(Current(), C.Create(id, now, true, ok));
      var n := ApplyInsert(id, requestId, now);
      rows := if ok then Some(n) else None;
      reader := if ok then C.Handled(reader.pos) else C.Forgetting(reader.pos, reader.job);
      RecordInsert(C.Create(id, now, true, ok));
    }

    /** CommitMessages. */
    method CommitOffset() returns (ok: bool)
      requires Valid() && reader.Handled?
      modifies this
      ensures GoesOn()
      ensures reader == if ok then C.Polling(old(reader.pos) + 1) else C.Stopped
      ensures committed == old(reader.pos) + 1 || (!ok && committed == old(committed))
      ensures if ok then ReaderDid(C.Commit(true, true)) else exists applied :: ReaderDid(C.Commit(applied, false))
    {
      Interfere(OfConsumer);
      ok := *;
      var lost: bool := *;
      var applied := ok || !lost;
      var next := reader.pos + 1;
      if applied {
        committed := next;
      }
      reader := if ok then C.Polling(next) else C.Stopped;
      RecordReader(C.Commit(applied, ok));
    }
  }
}
