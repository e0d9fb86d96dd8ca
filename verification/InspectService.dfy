/** The whole service as one state machine: service calls, the consumer and the
    relays take turns in any order, with crashes, failures and expiry among them. */
module InspectService {
  import opened Domain
  import L = Lifecycle
  import LI = LifecycleInvariant
  import R = OutboxRelay
  import RI = RelayInvariant
  import C = InboundConsumer
  import CI = ConsumerInvariant

  datatype State = State(db: L.Db, relay: R.RelayState, consumer: C.ConsumerState)

  /** Create is the consumer's statement, so it only occurs inside a consumer action. */
  datatype Act =
    | Serve(call: L.Action)
    | Relay(relay: R.Action)
    | Consumer(consumer: C.Action)

  const INITIAL := State(L.EMPTY_DB, R.FRESH_RELAYS, C.FRESH_CONSUMER)

  function CreateStatement(s: State, a: C.Action): L.Action
    requires C.Enabled(s.consumer, a) && a.Create?
  {
    L.Create(a.id, s.consumer.pc.job.requestId, a.now)
  }

  predicate CanAct(s: State, a: Act) {
    match a
    case Serve(call) => !call.Create? && L.Enabled(s.db, call)
    case Relay(relay) => R.Enabled(s.relay, relay)
    case Consumer(consumer) =>
      C.Enabled(s.consumer, consumer) && (consumer.Create? ==> L.Enabled(s.db, CreateStatement(s, consumer)))
  }

  function Perform(s: State, a: Act): State
    requires CanAct(s, a)
  {
    match a
    case Serve(call) => s.(db := L.Step(s.db, call))
    case Relay(relay) => s.(relay := R.Step(s.db.outbox, s.relay, relay))
    case Consumer(consumer) =>
      s.(consumer := C.Step(s.consumer, consumer),
         db := if consumer.Create? && consumer.applied then L.Step(s.db, CreateStatement(s, consumer)) else s.db)
  }

  /** The action on the tables that a service action contains, if any. */
  function DbAction(s: State, a: Act): Option<L.Action>
    requires CanAct(s, a)
  {
    match a
    case Serve(call) => Some(call)
    case Relay(_) => None
    case Consumer(consumer) =>
      if consumer.Create? && consumer.applied then Some(CreateStatement(s, consumer)) else None
  }

  lemma DbMoves(s: State, a: Act)
    requires CanAct(s, a)
    ensures match DbAction(s, a)
            case Some(x) => L.Enabled(s.db, x) && Perform(s, a).db == L.Step(s.db, x)
            case None => Perform(s, a).db == s.db
  {
  }

  /** A scheduler that picks an action which cannot happen makes no move. */
  function Next(s: State, a: Act): State {
    if CanAct(s, a) then Perform(s, a) else s
  }

  /** A run, as the list of scheduled actions, latest outermost. */
  datatype Trace = Start | After(prev: Trace, act: Act)

  function End(t: Trace): State {
    match t
    case Start => INITIAL
    case After(prev, act) => Next(End(prev), act)
  }

  /** The last action of a run really happened. */
  predicate Moved(t: Trace) {
    t.After? && CanAct(End(t.prev), t.act)
  }

  /** u continues t. */
  predicate Extends(t: Trace, u: Trace) {
    t == u || (u.After? && Extends(t, u.prev))
  }

  /** The requests that have an inspection. */
  function Requests(db: L.Db): set<Uuid> {
    set id | id in db.inspections :: db.inspections[id].requestId
  }

  /** The events whose processing ended, at some point of the run, with a mark and no inspection. */
  function Orphans(t: Trace): set<Uuid> {
    match t
    case Start => {}
    case After(prev, act) =>
      Orphans(prev) + C.OrphanedBy(End(prev).consumer, End(t).consumer, Requests(End(t).db))
  }

  ghost predicate Inv(s: State, orphans: set<Uuid>) {
    && LI.Inv(s.db)
    && RI.Inv(s.db.outbox, s.relay)
    && CI.Inv(s.consumer, Requests(s.db), orphans)
  }

  /** What a later state of the whole service never takes back. */
  ghost predicate Later(s: State, s': State) {
    && LI.Later(s.db, s'.db)
    && s.relay.log <= s'.relay.log
    && s.relay.published <= s'.relay.published
    && s.consumer.inbound <= s'.consumer.inbound
  }

  lemma OutboxIsDistinct(db: L.Db)
    requires LI.Inv(db)
    ensures RI.DistinctIds(db.outbox) && RI.DistinctEvents(db.outbox)
  {
    forall i, j | 0 <= i < j < |db.outbox| ensures db.outbox[i].payload.eventId != db.outbox[j].payload.eventId {
      assert LI.OutboxRowOk(db, db.outbox[i]) && LI.OutboxRowOk(db, db.outbox[j]);
    }
  }

  /** A service call neither creates nor removes an inspection. */
  lemma CallKeepsRequests(db: L.Db, a: L.Action)
    requires LI.Inv(db) && L.Enabled(db, a) && !a.Create?
    ensures Requests(L.Step(db, a)) == Requests(db)
  {
    var db' := L.Step(db, a);
    LI.StepIsLater(db, a);
    assert db'.inspections.Keys == db.inspections.Keys;
    forall id | id in db.inspections ensures db'.inspections[id].requestId == db.inspections[id].requestId {
      assert LI.RowLater(db.inspections[id], db', id);
    }
    assert forall r :: r in Requests(db') <==> r in Requests(db);
  }

  lemma CreateAddsRequest(db: L.Db, a: L.Action)
    requires LI.Inv(db) && L.Enabled(db, a) && a.Create?
    ensures Requests(L.Step(db, a)) == Requests(db) + {a.requestId}
  {
    var db' := L.Step(db, a);
    assert a.id in db.inspections ==> LI.RowOk(db, a.id);
    forall r ensures r in Requests(db') <==> r in Requests(db) + {a.requestId} {
      if r in Requests(db) {
        var id :| id in db.inspections && db.inspections[id].requestId == r;
        assert id in db'.inspections && db'.inspections[id].requestId == r;
      }
      if !L.HasRequest(db, a.requestId) {
        assert db'.inspections[a.id].requestId == a.requestId;
      }
    }
  }

  lemma StepOutbox(db: L.Db, a: L.Action)
    requires L.Enabled(db, a)
    ensures if a.CompleteCommit? then L.Step(db, a).outbox == db.outbox + [L.Step(db, a).outbox[|db.outbox|]]
            else L.Step(db, a).outbox == db.outbox
  {
  }

  lemma StepIsDistinct(db: L.Db, a: L.Action)
    requires LI.Inv(db) && L.Enabled(db, a)
    ensures RI.DistinctIds(L.Step(db, a).outbox) && RI.DistinctEvents(L.Step(db, a).outbox)
  {
    LI.StepKeepsInv(db, a);
    OutboxIsDistinct(L.Step(db, a));
  }

  lemma CallOutbox(db: L.Db, a: L.Action, s: R.RelayState)
    requires LI.Inv(db) && L.Enabled(db, a) && RI.Inv(db.outbox, s)
    ensures RI.Inv(L.Step(db, a).outbox, s)
  {
    StepOutbox(db, a);
    StepIsDistinct(db, a);
    if a.CompleteCommit? {
      RI.CommitKeepsInv(db.outbox, L.Step(db, a).outbox[|db.outbox|], s);
    }
  }

  lemma StepKeepsInv(s: State, a: Act, orphans: set<Uuid>)
    requires Inv(s, orphans) && CanAct(s, a)
    ensures var s' := Perform(s, a); Inv(s', orphans + C.OrphanedBy(s.consumer, s'.consumer, Requests(s'.db)))
  {
    match a
    case Serve(call) =>
      LI.StepKeepsInv(s.db, call);
      CallOutbox(s.db, call, s.relay);
      CallKeepsRequests(s.db, call);
      assert orphans + {} == orphans;
    case Relay(relay) =>
      OutboxIsDistinct(s.db);
      RI.StepKeepsInv(s.db.outbox, s.relay, relay);
      assert orphans + {} == orphans;
    case Consumer(consumer) =>
      if consumer.Create? && consumer.applied {
        var create := CreateStatement(s, consumer);
        LI.StepKeepsInv(s.db, create);
        CallOutbox(s.db, create, s.relay);
        CreateAddsRequest(s.db, create);
      }
      CI.StepKeepsInv(s.consumer, consumer, Requests(s.db), Requests(Perform(s, a).db), orphans);
  }

  /** The invariant of every reachable state. */
  lemma {:induction false} Reachable(t: Trace)
    ensures Inv(End(t), Orphans(t))
  {
    if t.After? {
      Reachable(t.prev);
      var s := End(t.prev);
      if CanAct(s, t.act) {
        StepKeepsInv(s, t.act, Orphans(t.prev));
      } else {
        assert Orphans(t) == Orphans(t.prev);
      }
    } else {
      assert Requests(INITIAL.db) == {};
    }
  }

  lemma RelayIsLater(rows: seq<OutboxRow>, s: R.RelayState, a: R.Action)
    requires R.Enabled(s, a)
    ensures s.log <= R.Step(rows, s, a).log && s.published <= R.Step(rows, s, a).published
  {
  }

  lemma StepIsLater(s: State, a: Act)
    requires LI.Inv(s.db) && CanAct(s, a)
    ensures Later(s, Perform(s, a))
  {
    match a
    case Serve(call) => LI.StepIsLater(s.db, call);
    case Relay(relay) => RelayIsLater(s.db.outbox, s.relay, relay);
    case Consumer(consumer) =>
      if consumer.Create? && consumer.applied {
        LI.StepIsLater(s.db, CreateStatement(s, consumer));
      }
  }

  /** Everything recorded in a reachable state is still there in every continuation. */
  lemma {:induction false} ExtendsIsLater(t: Trace, u: Trace)
    requires Extends(t, u)
    ensures Later(End(t), End(u))
  {
    if t != u {
      ExtendsIsLater(t, u.prev);
      Reachable(u.prev);
      if CanAct(End(u.prev), u.act) {
        StepIsLater(End(u.prev), u.act);
        LI.LaterTransitive(End(t).db, End(u.prev).db, End(u).db);
      }
    }
  }

  /** The logs of a continuation. */
  lemma LogsGrow(t: Trace, u: Trace)
    requires Extends(t, u)
    ensures End(t).db.outbox <= End(u).db.outbox
    ensures End(t).relay.log <= End(u).relay.log
    ensures End(t).relay.published <= End(u).relay.published
    ensures End(t).consumer.inbound <= End(u).consumer.inbound
  {
    ExtendsIsLater(t, u);
  }

  lemma SubsetSize<T>(a: set<T>, b: set<T>)
    requires a <= b
    ensures |a| <= |b|
  {
    assert b == a + (b - a);
  }

  lemma Between<T>(a: seq<T>, b: seq<T>, c: seq<T>)
    requires a <= b && b <= c && |a| == |c|
    ensures b == a
  {
  }

  lemma OutboxGrowsByOne(t: Trace)
    requires t.After?
    ensures |End(t.prev).db.outbox| <= |End(t).db.outbox| <= |End(t.prev).db.outbox| + 1
    ensures |End(t.prev).db.outbox| < |End(t).db.outbox| ==> Moved(t) && t.act.Serve? && t.act.call.CompleteCommit?
  {
    if CanAct(End(t.prev), t.act) {
      DbMoves(End(t.prev), t.act);
    }
  }

  /** The commit that made the k-th outbox row visible. */
  lemma {:induction false} FindCommit(t: Trace, k: nat) returns (u: Trace)
    requires k < |End(t).db.outbox|
    ensures Extends(u, t) && Moved(u) && u.act.Serve? && u.act.call.CompleteCommit?
    ensures |End(u.prev).db.outbox| == k && End(u).db.outbox == End(t).db.outbox[..k + 1]
  {
    ExtendsIsLater(t.prev, t);
    OutboxGrowsByOne(t);
    if k < |End(t.prev).db.outbox| {
      u := FindCommit(t.prev, k);
    } else {
      u := t;
    }
  }

  /** If no row was added between t and v, none was added by u. */
  lemma OutboxUnchanged(t: Trace, u: Trace, v: Trace)
    requires Extends(t, u) && Extends(u, v) && End(v).db.outbox == End(t).db.outbox
    ensures End(u).db.outbox == End(t).db.outbox
  {
    LogsGrow(t, u);
    LogsGrow(u, v);
    Between(End(t).db.outbox, End(u).db.outbox, End(v).db.outbox);
  }

  /** One call in a continuation. */
  lemma CallPersists(t: Trace, u: Trace, c: L.CallId)
    requires Extends(t, u) && c in End(t).db.calls
    ensures LI.CallLater(End(t).db.calls[c], End(u).db, c)
  {
    ExtendsIsLater(t, u);
  }

  /** One row in a continuation. */
  lemma RowPersists(t: Trace, u: Trace, id: Uuid)
    requires Extends(t, u) && id in End(t).db.inspections
    ensures LI.RowLater(End(t).db.inspections[id], End(u).db, id)
  {
    ExtendsIsLater(t, u);
  }

  /** What a reachable state says of one call. */
  lemma CallIsOk(t: Trace, c: L.CallId)
    requires c in End(t).db.calls
    ensures LI.CallOk(End(t).db, End(t).db.calls[c])
  {
    Reachable(t);
  }

  lemma {:induction false} ExtendsTransitive(t: Trace, u: Trace, v: Trace)
    requires Extends(t, u) && Extends(u, v)
    ensures Extends(t, v)
  {
    if u != v { ExtendsTransitive(t, u, v.prev); }
  }

  /** Of two states of one run one continues the other. */
  lemma {:induction false} PrefixesCompare(u: Trace, w: Trace, v: Trace)
    requires Extends(u, v) && Extends(w, v)
    ensures Extends(u, w) || Extends(w, u)
  {
    if u != v && w != v {
      PrefixesCompare(u, w, v.prev);
    }
  }
}
