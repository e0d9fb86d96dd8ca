/** The dedup cache against the UNIQUE constraint: what the cache may cost, and a
    consumer without any cache that does the same. */
module Dedup {
  import opened Domain
  import opened InboundConsumer
  import CI = ConsumerInvariant
  import opened InspectService
  import opened Schedules

  // ----- nothing is lost but to faults -----

  /** Every relevant message below the committed offset has its inspection, unless its event was orphaned. */
  lemma LossNeedsAnOrphan(t: Trace, k: nat)
    requires k < End(t).consumer.committed
    ensures k < |End(t).consumer.inbound|
    ensures var m := End(t).consumer.inbound[k];
      Relevant(m) ==> m.requestId in Requests(End(t).db) || m.eventId in Orphans(t)
  {
    Reachable(t);
    DecodeIsRelevant(End(t).consumer.inbound[k]);
    assert CI.LetGoOk(End(t).consumer, k, Requests(End(t).db), Orphans(t));
  }

  /** The events that were committed and asked for an inspection which does not exist. */
  function LostEvents(s: State): set<Uuid> {
    set k | 0 <= k < s.consumer.committed && k < |s.consumer.inbound| && Relevant(s.consumer.inbound[k]) &&
            s.consumer.inbound[k].requestId !in Requests(s.db)
      :: s.consumer.inbound[k].eventId
  }

  /** A fault of the three kinds that can leave a mark without an inspection. */
  predicate OrphaningFault(t: Trace) {
    Moved(t) && t.act.Consumer? &&
    match t.act.consumer
    case Crash => End(t.prev).consumer.pc.Creating? || End(t.prev).consumer.pc.Forgetting?
    case Forget(applied, _) => !applied
    case Seen(applied, ok) => applied && !ok
    case _ => false
  }

  function OrphaningFaults(t: Trace): nat {
    match t
    case Start => 0
    case After(prev, _) => OrphaningFaults(prev) + if OrphaningFault(t) then 1 else 0
  }

  lemma NewOrphanIsAFault(t: Trace)
    requires t.After? && !OrphaningFault(t)
    ensures Orphans(t) == Orphans(t.prev)
  {
    var s := End(t.prev);
    Reachable(t.prev);
    if CanAct(s, t.act) && t.act.Consumer? {
      var s' := Perform(s, t.act);
      var found := OrphanedBy(s.consumer, s'.consumer, Requests(s'.db));
      CreatedByStep(s, t.act);
      if !(found <= Orphans(t.prev)) {
        CI.OrphansComeFromFaults(s.consumer, t.act.consumer, Requests(s.db), Requests(s'.db), Orphans(t.prev));
      }
    }
  }

  /** The database part of a consumer step is exactly the request it creates. */
  lemma CreatedByStep(s: State, a: Act)
    requires LI.Inv(s.db) && CanAct(s, a) && a.Consumer?
    ensures CI.CreatedBy(s.consumer, a.consumer, Requests(s.db), Requests(Perform(s, a).db))
  {
    if a.consumer.Create? && a.consumer.applied {
      CreateAddsRequest(s.db, CreateStatement(s, a.consumer));
    }
  }

  lemma {:induction false} OrphansAreFaults(t: Trace)
    ensures |Orphans(t)| <= OrphaningFaults(t)
  {
    if t.After? {
      OrphansAreFaults(t.prev);
      if OrphaningFault(t) {
        var found := OrphanedBy(End(t.prev).consumer, End(t).consumer, Requests(End(t).db));
        assert |found| <= 1;
        UnionSize(Orphans(t.prev), found);
      } else {
        NewOrphanIsAFault(t);
      }
    }
  }

  lemma UnionSize(a: set<Uuid>, b: set<Uuid>)
    ensures |a + b| <= |a| + |b|
  {
    assert a + b == a + (b - a);
    assert b == (b - a) + (b * a);
  }

  /** In every run, with arbitrary crashes, failed undos and claims applied without a reply, what is
      lost was orphaned; so no more events are lost than orphaning faults happened. */
  lemma LossIsBoundedByFaults(t: Trace)
    ensures LostEvents(End(t)) <= Orphans(t)
    ensures |LostEvents(End(t))| <= OrphaningFaults(t)
  {
    var s := End(t);
    forall e | e in LostEvents(s) ensures e in Orphans(t) {
      var k: nat :| k < s.consumer.committed && k < |s.consumer.inbound| && Relevant(s.consumer.inbound[k]) &&
        s.consumer.inbound[k].requestId !in Requests(s.db) && s.consumer.inbound[k].eventId == e;
      LossNeedsAnOrphan(t, k);
    }
    SubsetSize(LostEvents(s), Orphans(t));
    OrphansAreFaults(t);
  }

  /** A run without an orphaning fault loses nothing. */
  lemma NoFaultNoLoss(t: Trace)
    requires OrphaningFaults(t) == 0
    ensures Orphans(t) == {} && LostEvents(End(t)) == {}
  {
    OrphansAreFaults(t);
    LossIsBoundedByFaults(t);
  }

  /** Expiry is not under the consumer's control: in every state any mark may go, and nothing else. */
  lemma MarksMayExpire(t: Trace, e: Uuid) returns (u: Trace)
    requires e in End(t).consumer.marks
    ensures Extends(t, u)
    ensures End(u) == End(t).(consumer := End(t).consumer.(marks := End(t).consumer.marks - {e}))
  {
    u := Consume1(t, Expire(e));
  }

  // ----- and every such fault may lose something -----

  /** The last step of the run ended the processing of e with a mark and no inspection. */
  predicate OrphanedAt(t: Trace, e: Uuid) {
    t.After? && e in OrphanedBy(End(t.prev).consumer, End(t).consumer, Requests(End(t).db))
  }

  /** A fault that hits the processing of e: the process stops between claim and answer, the undo is
      not applied, or the claim is applied without a reply. In the first two cases the mark has not expired,
      and the request has no inspection. */
  predicate FaultOn(t: Trace, e: Uuid) {
    Moved(t) && t.act.Consumer? &&
    var c := End(t.prev).consumer;
    Processing(c.pc) && c.pc.job.eventId == e && c.pc.job.requestId !in Requests(End(t.prev).db) &&
    match t.act.consumer
    case Crash => !c.pc.Checking? && e in c.marks
    case Forget(applied, _) => !applied && e in c.marks
    case Seen(applied, ok) => applied && !ok
    case _ => false
  }

  /** An event is orphaned for the first time exactly by such a fault. */
  lemma OrphanedExactlyWhen(t: Trace, e: Uuid)
    requires t.After? && e !in Orphans(t.prev)
    ensures OrphanedAt(t, e) <==> FaultOn(t, e)
  {
    var s := End(t.prev);
    Reachable(t.prev);
    if CanAct(s, t.act) && t.act.Consumer? {
      CreatedByStep(s, t.act);
      if s.consumer.pc.Checking? && s.consumer.pc.job.eventId in s.consumer.marks {
        CI.DuplicateIsAnswered(s.consumer, Requests(s.db), Orphans(t.prev));
      }
    }
  }

  /** u continues t without orphaning e. */
  predicate UnorphanedSince(t: Trace, u: Trace, e: Uuid) {
    t == u || (u.After? && UnorphanedSince(t, u.prev, e) && !OrphanedAt(u, e))
  }

  /** In some continuation e is lost without being orphaned in it. */
  ghost predicate AtRisk(t: Trace, e: Uuid) {
    exists u :: UnorphanedSince(t, u, e) && e in LostEvents(End(u))
  }

  /** A marked message at the committed offset is taken for a duplicate, and committed. */
  lemma SkippedAsDuplicate(t: Trace, job: Job) returns (u: Trace)
    requires var c := End(t).consumer;
      && c.pc.Stopped? && c.committed < |c.inbound|
      && Decode(c.inbound[c.committed]) == Some(job) && job.eventId in c.marks
    ensures Extends(t, u) && (forall e :: UnorphanedSince(t, u, e))
    ensures var c := End(t).consumer;
      End(u) == End(t).(consumer := c.(committed := c.committed + 1, pc := Polling(c.committed + 1)))
  {
    var t1 := Consume1(t, Action.Start);
    var t2 := Consume1(t1, Fetch);
    var t3 := Consume1(t2, Seen(true, true));
    u := Consume1(t3, Commit(true, true));
    assert End(t).consumer.marks + {job.eventId} == End(t).consumer.marks;
    forall e ensures UnorphanedSince(t, u, e) {
      assert UnorphanedSince(t, t, e);
      assert UnorphanedSince(t, t1, e);
      assert UnorphanedSince(t, t2, e);
      assert UnorphanedSince(t, t3, e);
    }
    ExtendsTransitive(t, t1, t2);
    ExtendsTransitive(t, t2, t3);
    ExtendsTransitive(t, t3, u);
  }

  /** Whatever the run: an event that a step orphans is lost in some continuation that needs no further fault. */
  lemma OrphanCanBeLost(t: Trace, e: Uuid)
    requires OrphanedAt(t, e)
    ensures AtRisk(t, e)
  {
    var c := End(t.prev).consumer;
    Reachable(t.prev);
    OrphanIsNext(t, e);
    var u := SkippedAsDuplicate(t, c.pc.job);
    assert Decode(End(u).consumer.inbound[c.committed]) == Some(c.pc.job);
    DecodeIsRelevant(End(u).consumer.inbound[c.committed]);
    assert e in LostEvents(End(u));
  }

  /** The orphaned message is the first one that is not committed. */
  lemma OrphanIsNext(t: Trace, e: Uuid)
    requires OrphanedAt(t, e) && CI.PcOk(End(t.prev).consumer)
    ensures var c, c' := End(t.prev).consumer, End(t).consumer;
      && c'.pc.Stopped? && c'.committed == c.committed && c.committed < |c'.inbound|
      && Processing(c.pc) && c.pc.job.eventId == e && e in c'.marks && c.pc.job.requestId !in Requests(End(t).db)
      && Decode(c'.inbound[c.committed]) == Some(c.pc.job)
  {
    var s := End(t.prev);
    assert CanAct(s, t.act) && t.act.Consumer?;
    StoppingKeepsOffset(s.consumer, t.act.consumer);
  }

  lemma StoppingKeepsOffset(c: ConsumerState, a: Action)
    requires Enabled(c, a) && Processing(c.pc) && Step(c, a).pc.Stopped?
    ensures Step(c, a).committed == c.committed && Step(c, a).inbound == c.inbound
  {
  }

  lemma {:induction false} WasOrphanedBefore(t: Trace, u: Trace, e: Uuid)
    requires UnorphanedSince(t, u, e) && e in Orphans(u)
    ensures e in Orphans(t)
  {
    if t != u {
      WasOrphanedBefore(t, u.prev, e);
    }
  }

  /** Only an event orphaned before can be lost without being orphaned. */
  lemma RiskNeedsAnOrphan(t: Trace, e: Uuid)
    requires AtRisk(t, e)
    ensures e in Orphans(t)
  {
    var u :| UnorphanedSince(t, u, e) && e in LostEvents(End(u));
    LossIsBoundedByFaults(u);
    WasOrphanedBefore(t, u, e);
  }

  lemma {:induction false} UnorphanedFromBefore(t: Trace, u: Trace, e: Uuid)
    requires t.After? && UnorphanedSince(t, u, e) && !OrphanedAt(t, e)
    ensures UnorphanedSince(t.prev, u, e)
  {
    if t != u {
      UnorphanedFromBefore(t, u.prev, e);
    }
  }

  /** A step puts an event at risk exactly when it orphans it. */
  lemma RiskOpensExactlyWhen(t: Trace, e: Uuid)
    requires t.After? && !AtRisk(t.prev, e)
    ensures AtRisk(t, e) <==> OrphanedAt(t, e)
  {
    if OrphanedAt(t, e) {
      OrphanCanBeLost(t, e);
    } else if AtRisk(t, e) {
      var u :| UnorphanedSince(t, u, e) && e in LostEvents(End(u));
      UnorphanedFromBefore(t, u, e);
    }
  }

  // ----- a consumer without a cache -----

  datatype PlainPc = PlainStopped | PlainPolling(pos: nat) | PlainCreating(pos: nat, job: Job) | PlainHandled(pos: nat)

  /** The consumer without marks, together with the requests that have an inspection. */
  datatype Plain = Plain(inbound: seq<Message>, committed: nat, pc: PlainPc, created: set<Uuid>)

  datatype PlainAction =
    | PlainProduce(m: Message)
    | PlainStart
    | PlainFetch
    | PlainCreate(applied: bool, ok: bool)
    | PlainCommit(applied: bool, ok: bool)
    | PlainCrash

  predicate PlainEnabled(p: Plain, b: PlainAction) {
    match b
    case PlainProduce(m) => true
    case PlainStart => p.pc.PlainStopped?
    case PlainFetch => p.pc.PlainPolling? && p.pc.pos < |p.inbound|
    case PlainCreate(applied, ok) => p.pc.PlainCreating? && (ok ==> applied)
    case PlainCommit(applied, ok) => p.pc.PlainHandled? && (ok ==> applied)
    case PlainCrash => !p.pc.PlainStopped?
  }

  /** INSERT ... ON CONFLICT DO NOTHING is the only protection against duplicates here. */
  function PlainStep(p: Plain, b: PlainAction): Plain
    requires PlainEnabled(p, b)
  {
    match b
    case PlainProduce(m) => p.(inbound := p.inbound + [m])
    case PlainStart => p.(pc := PlainPolling(p.committed))
    case PlainFetch =>
      var pos := p.pc.pos;
      p.(pc := match Decode(p.inbound[pos])
               case None => PlainHandled(pos)
               case Some(job) => PlainCreating(pos, job))
    case PlainCreate(applied, ok) =>
      p.(created := if applied then p.created + {p.pc.job.requestId} else p.created,
         pc := if ok then PlainHandled(p.pc.pos) else PlainStopped)
    case PlainCommit(applied, ok) =>
      var next := p.pc.pos + 1;
      p.(committed := if applied then next else p.committed, pc := if ok then PlainPolling(next) else PlainStopped)
    case PlainCrash => p.(pc := PlainStopped)
  }

  /** A run of the plain consumer; every action in it was enabled. */
  datatype PlainRun = PlainBegin | PlainThen(prev: PlainRun, act: PlainAction)

  function PlainEnd(run: PlainRun): Option<Plain> {
    match run
    case PlainBegin => Some(Plain([], 0, PlainStopped, {}))
    case PlainThen(prev, act) =>
      match PlainEnd(prev)
      case Some(p) => if PlainEnabled(p, act) then Some(PlainStep(p, act)) else None
      case None => None
  }

  /** The consumer with its marks forgotten. */
  function WithoutMarks(s: State): Plain {
    var c := s.consumer;
    Plain(c.inbound, c.committed,
          match c.pc
          case Stopped => PlainStopped
          case Polling(pos) => PlainPolling(pos)
          case Checking(pos, job) => PlainCreating(pos, job)
          case Creating(pos, job) => PlainCreating(pos, job)
          case Forgetting(_, _) => PlainStopped
          case Handled(pos) => PlainHandled(pos),
          Requests(s.db))
  }

  /** What the plain consumer does where the other one acts: a skipped duplicate is an insert
      that meets its conflict; claims, undos and expiry are nothing at all. */
  function PlainActOf(c: ConsumerState, a: Action): Option<PlainAction>
    requires Enabled(c, a)
  {
    match a
    case Produce(m) => Some(PlainProduce(m))
    case Start => Some(PlainStart)
    case Fetch => Some(PlainFetch)
    case FetchFails => Some(PlainCrash)
    case Seen(_, ok) =>
      if !ok then Some(PlainCrash)
      else if c.pc.job.eventId in c.marks then Some(PlainCreate(true, true))
      else None
    case Create(_, _, applied, ok) => Some(PlainCreate(applied, ok))
    case Forget(_, _) => None
    case Commit(applied, ok) => Some(PlainCommit(applied, ok))
    case Expire(_) => None
    case Crash => if c.pc.Forgetting? then None else Some(PlainCrash)
  }

  /** A consumer step, given what it does to the set of requests and what a duplicate implies. */
  lemma ConsumerWithoutMarks(s: State, a: Act)
    requires CanAct(s, a) && a.Consumer?
    requires CI.CreatedBy(s.consumer, a.consumer, Requests(s.db), Requests(Perform(s, a).db))
    requires a.consumer.Seen? && s.consumer.pc.job.eventId in s.consumer.marks ==>
      s.consumer.pc.job.requestId in Requests(s.db)
    ensures match PlainActOf(s.consumer, a.consumer)
            case None => WithoutMarks(Perform(s, a)) == WithoutMarks(s)
            case Some(b) =>
              PlainEnabled(WithoutMarks(s), b) && WithoutMarks(Perform(s, a)) == PlainStep(WithoutMarks(s), b)
  {
    if a.consumer.Seen? && s.consumer.pc.job.eventId in s.consumer.marks {
      assert Requests(s.db) + {s.consumer.pc.job.requestId} == Requests(s.db);
    }
  }

  lemma StepWithoutMarks(s: State, a: Act)
    requires Inv(s, {}) && CanAct(s, a)
    ensures a.Consumer? ==>
      match PlainActOf(s.consumer, a.consumer)
      case None => WithoutMarks(Perform(s, a)) == WithoutMarks(s)
      case Some(b) => PlainEnabled(WithoutMarks(s), b) && WithoutMarks(Perform(s, a)) == PlainStep(WithoutMarks(s), b)
    ensures !a.Consumer? ==> WithoutMarks(Perform(s, a)) == WithoutMarks(s)
  {
    match a
    case Serve(call) => CallKeepsRequests(s.db, call);
    case Relay(_) =>
    case Consumer(consumer) =>
      CreatedByStep(s, a);
      if consumer.Seen? && s.consumer.pc.job.eventId in s.consumer.marks {
        CI.DuplicateIsAnswered(s.consumer, Requests(s.db), {});
      }
      ConsumerWithoutMarks(s, a);
  }

  /** The same run without a cache. */
  function Uncached(t: Trace): PlainRun {
    match t
    case Start => PlainBegin
    case After(prev, act) =>
      if Moved(t) && act.Consumer? && PlainActOf(End(prev).consumer, act.consumer).Some?
      then PlainThen(Uncached(prev), PlainActOf(End(prev).consumer, act.consumer).value)
      else Uncached(prev)
  }

  /** For any inbound sequence and any expiry, and as long as no mark was orphaned, the consumer
      creates inspections for exactly the requests for which the consumer without a cache does,
      with the same offsets: the cache only anticipates what the UNIQUE constraint decides. */
  lemma {:induction false} CacheIsTransparent(t: Trace)
    requires Orphans(t) == {}
    ensures PlainEnd(Uncached(t)) == Some(WithoutMarks(End(t)))
  {
    if t.After? {
      assert Orphans(t.prev) == {};
      CacheIsTransparent(t.prev);
      Reachable(t.prev);
      if CanAct(End(t.prev), t.act) {
        StepWithoutMarks(End(t.prev), t.act);
      }
    } else {
      assert Requests(INITIAL.db) == {};
    }
  }

  /** The requests the inbound messages below an offset ask for. */
  function Wanted(inbound: seq<Message>, n: nat): set<Uuid> {
    set k | 0 <= k < n && k < |inbound| && Relevant(inbound[k]) :: inbound[k].requestId
  }

  /** Without orphans every request asked for below the committed offset has its inspection, no
      other than a requested one exists, and once all is committed the two sets are equal. */
  lemma CreatedIsWanted(t: Trace)
    ensures Requests(End(t).db) <= Wanted(End(t).consumer.inbound, |End(t).consumer.inbound|)
    ensures Orphans(t) == {} ==> Wanted(End(t).consumer.inbound, End(t).consumer.committed) <= Requests(End(t).db)
    ensures Orphans(t) == {} && End(t).consumer.committed == |End(t).consumer.inbound| ==>
      Requests(End(t).db) == Wanted(End(t).consumer.inbound, |End(t).consumer.inbound|)
  {
    var s := End(t);
    Reachable(t);
    forall r | r in Requests(s.db) ensures r in Wanted(s.consumer.inbound, |s.consumer.inbound|) {
      assert CI.CreatedOk(s.consumer, r);
      var k: nat :| k < |s.consumer.inbound| && Decode(s.consumer.inbound[k]).Some? &&
        Decode(s.consumer.inbound[k]).value.requestId == r;
      DecodeIsRelevant(s.consumer.inbound[k]);
    }
    if Orphans(t) == {} {
      forall r | r in Wanted(s.consumer.inbound, s.consumer.committed) ensures r in Requests(s.db) {
        var k: nat :| k < s.consumer.committed && k < |s.consumer.inbound| && Relevant(s.consumer.inbound[k]) &&
          s.consumer.inbound[k].requestId == r;
        LossNeedsAnOrphan(t, k);
      }
    }
  }
}
