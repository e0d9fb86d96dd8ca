/** How fast the relay drains the outbox and how many duplicates it can make. */
module Drain {
  import opened Domain
  import opened OutboxRelay
  import RI = RelayInvariant
  import opened InspectService

  predicate RelayMoved(t: Trace, r: RelayId) {
    Moved(t) && t.act.Relay? && !t.act.relay.Straggle? && t.act.relay.r == r
  }

  /** An action that ends its tick early, with an error or a crash. */
  predicate ActionFails(s: RelayState, a: Action) {
    match a
    case QueryFails(_) => true
    case Publish(_, _, ok) => !ok
    case Mark(_, _, ok) => !ok
    case Crash(r) => PcOf(s, r).Busy?
    case _ => false
  }

  predicate TickFailed(t: Trace, r: RelayId) {
    RelayMoved(t, r) && ActionFails(End(t.prev).relay, t.act.relay)
  }

  /** A tick of relay r ran to its end. */
  predicate TickDone(t: Trace, r: RelayId) {
    RelayMoved(t, r) && PcOf(End(t).relay, r).Idle? &&
    match t.act.relay
    case Query(_) => true
    case Mark(_, _, ok) => ok
    case _ => false
  }

  function FailedTicks(t: Trace, r: RelayId): nat {
    match t
    case Start => 0
    case After(prev, _) => FailedTicks(prev, r) + if TickFailed(t, r) then 1 else 0
  }

  /** The ticks relay r completed in a run. */
  function DoneTicks(t: Trace, r: RelayId): nat {
    match t
    case Start => 0
    case After(prev, _) => DoneTicks(prev, r) + if TickDone(t, r) then 1 else 0
  }

  // ----- draining among others -----

  /** The ticks relay r completed between t and u. */
  function TicksBetween(t: Trace, u: Trace, r: RelayId): nat
    requires Extends(t, u)
  {
    if t == u then 0 else TicksBetween(t, u.prev, r) + if TickDone(u, r) then 1 else 0
  }

  lemma {:induction false} DoneTicksBetween(t: Trace, u: Trace, r: RelayId)
    requires Extends(t, u)
    ensures DoneTicks(u, r) == DoneTicks(t, r) + TicksBetween(t, u, r)
  {
    if t != u {
      DoneTicksBetween(t, u.prev, r);
    }
  }

  function Backlog(s: State): seq<OutboxRow> {
    Pending(s.db.outbox, s.relay.published)
  }

  lemma {:induction false} UnpublishedMore(rows: seq<OutboxRow>, p: set<nat>, p': set<nat>)
    requires p <= p'
    ensures Unpublished(rows, p') == Unpublished(Unpublished(rows, p), p')
    ensures |Unpublished(rows, p')| <= |Unpublished(rows, p)| <= |rows|
  {
    if rows != [] {
      UnpublishedMore(rows[1..], p, p');
      var rest := Unpublished(rows[1..], p);
      if rows[0].id !in p {
        assert ([rows[0]] + rest)[1..] == rest;
      } else {
        assert [] + rest == rest;
      }
    }
  }

  lemma {:induction false} UnpublishedAfter(head: seq<OutboxRow>, rest: seq<OutboxRow>, p: set<nat>)
    requires forall i :: 0 <= i < |head| ==> head[i].id in p
    ensures |Unpublished(head + rest, p)| <= |rest|
  {
    if head == [] {
      assert head + rest == rest;
      UnpublishedMore(rest, {}, p);
      UnpublishedMore(rest, {}, {});
    } else {
      assert (head + rest)[1..] == head[1..] + rest;
      UnpublishedAfter(head[1..], rest, p);
    }
  }

  /** Once all of a batch is marked, by whomever, the backlog is shorter by the batch. */
  lemma BatchTakenOff(rows: seq<OutboxRow>, p: set<nat>, p': set<nat>, batch: seq<OutboxRow>)
    requires p <= p' && batch <= Pending(rows, p)
    requires forall i :: 0 <= i < |batch| ==> batch[i].id in p'
    ensures |Pending(rows, p')| + |batch| <= |Pending(rows, p)|
  {
    var backlog := Pending(rows, p);
    UnpublishedMore(SortById(rows), p, p');
    assert backlog == batch + backlog[|batch|..];
    UnpublishedAfter(batch, backlog[|batch|..], p');
  }

  function Ids(batch: seq<OutboxRow>): set<nat> {
    set i | 0 <= i < |batch| :: batch[i].id
  }

  /** Nothing is left, or k full batches are gone. */
  ghost predicate Bounded(n: nat, k: nat, rows: seq<OutboxRow>, p: set<nat>) {
    Pending(rows, p) == [] || |Pending(rows, p)| + BATCH_SIZE * k <= n
  }

  lemma BoundedMore(n: nat, k: nat, rows: seq<OutboxRow>, p: set<nat>, p': set<nat>)
    requires Bounded(n, k, rows, p) && p <= p'
    ensures Bounded(n, k, rows, p')
  {
    UnpublishedMore(SortById(rows), p, p');
  }

  /** A batch that was read and then marked in full pays for one tick. */
  lemma BatchPays(n: nat, k: nat, rows: seq<OutboxRow>, before: set<nat>, read: set<nat>, after: set<nat>,
            batch: seq<OutboxRow>)
    requires Bounded(n, k, rows, before) && before <= read <= after
    requires batch == Limit(Pending(rows, read)) && forall i :: 0 <= i < |batch| ==> batch[i].id in after
    ensures Bounded(n, k + 1, rows, after)
  {
    RI.LimitIsPrefix(Pending(rows, read));
    BoundedMore(n, k, rows, before, read);
    BatchTakenOff(rows, read, after, batch);
  }

  ghost predicate BoundedAt(n: nat, k: nat, start: Trace, t: Trace) {
    End(t).db.outbox == End(start).db.outbox ==> Bounded(n, k, End(t).db.outbox, End(t).relay.published)
  }

  /** What a batch that was read and marked in full does to the bound, if no row was added since the start. */
  lemma BatchIsPaid(start: Trace, before: Trace, read: Trace, after: Trace, n: nat, k: nat, batch: seq<OutboxRow>)
    requires Extends(start, before) && Extends(before, read) && Extends(read, after) && BoundedAt(n, k, start, before)
    requires batch == Limit(Backlog(End(read))) && forall row :: row in batch ==> row.id in End(after).relay.published
    ensures BoundedAt(n, k + 1, start, after)
  {
    if End(after).db.outbox == End(start).db.outbox {
      ExtendsTransitive(start, before, read);
      OutboxUnchanged(start, read, after);
      OutboxUnchanged(start, before, read);
      LogsGrow(before, read);
      LogsGrow(read, after);
      forall i | 0 <= i < |batch| ensures batch[i].id in End(after).relay.published {
        assert batch[i] in batch;
      }
      BatchPays(n, k, End(start).db.outbox, End(before).relay.published, End(read).relay.published,
                End(after).relay.published, batch);
    }
  }

  lemma FailedTickIsFree(start: Trace, before: Trace, after: Trace, n: nat, k: nat)
    requires Extends(start, before) && Extends(before, after) && BoundedAt(n, k, start, before)
    ensures BoundedAt(n, k, start, after)
  {
    if End(after).db.outbox == End(start).db.outbox {
      OutboxUnchanged(start, before, after);
      LogsGrow(before, after);
      BoundedMore(n, k, End(start).db.outbox, End(before).relay.published, End(after).relay.published);
    }
  }

  /** The completed ticks are paid; the tick in work is paid once its whole batch is marked. */
  ghost predicate Paid(n: nat, ticks: nat, rows: seq<OutboxRow>, s: RelayState, r: RelayId) {
    && Bounded(n, ticks, rows, s.published)
    && match PcOf(s, r)
       case Idle => true
       case Busy(batch, next, _) =>
         && next < |batch|
         && (forall m :: 0 <= m < next ==> batch[m].id in s.published)
         && Bounded(n, ticks + 1, rows, s.published + Ids(batch))
  }

  lemma OthersArePaid(n: nat, ticks: nat, rows: seq<OutboxRow>, s: RelayState, s': RelayState, r: RelayId)
    requires Paid(n, ticks, rows, s, r) && s.published <= s'.published && PcOf(s', r) == PcOf(s, r)
    ensures Paid(n, ticks, rows, s', r)
  {
    BoundedMore(n, ticks, rows, s.published, s'.published);
    match PcOf(s, r)
    case Idle =>
    case Busy(batch, _, _) =>
      BoundedMore(n, ticks + 1, rows, s.published + Ids(batch), s'.published + Ids(batch));
  }

  lemma QueryIsPaid(n: nat, ticks: nat, rows: seq<OutboxRow>, s: RelayState, a: Action)
    requires Enabled(s, a) && a.Query? && Paid(n, ticks, rows, s, a.r)
    ensures Paid(n, ticks + if PcOf(Step(rows, s, a), a.r).Idle? then 1 else 0, rows, Step(rows, s, a), a.r)
  {
    var batch := Limit(Pending(rows, s.published));
    RI.LimitIsPrefix(Pending(rows, s.published));
    BatchTakenOff(rows, s.published, s.published + Ids(batch), batch);
  }

  lemma MarkIsPaid(n: nat, ticks: nat, rows: seq<OutboxRow>, s: RelayState, a: Action)
    requires Enabled(s, a) && a.Mark? && Paid(n, ticks, rows, s, a.r)
    ensures Paid(n, ticks + if a.ok && PcOf(Step(rows, s, a), a.r).Idle? then 1 else 0, rows, Step(rows, s, a), a.r)
  {
    var s' := Step(rows, s, a);
    var Busy(batch, next, _) := PcOf(s, a.r);
    BoundedMore(n, ticks, rows, s.published, s'.published);
    BoundedMore(n, ticks + 1, rows, s.published + Ids(batch), s'.published + Ids(batch));
    if a.ok && next + 1 == |batch| {
      assert s'.published + Ids(batch) == s'.published;
    }
  }

  lemma {:induction false} TicksArePaid(t: Trace, u: Trace, r: RelayId)
    requires Extends(t, u) && PcOf(End(t).relay, r).Idle? && End(u).db.outbox == End(t).db.outbox
    ensures Paid(|Backlog(End(t))|, TicksBetween(t, u, r), End(t).db.outbox, End(u).relay, r)
  {
    if t != u {
      var rows, n, k, s := End(t).db.outbox, |Backlog(End(t))|, TicksBetween(t, u.prev, r), End(u.prev);
      assert Extends(u.prev, u);
      OutboxUnchanged(t, u.prev, u);
      LogsGrow(u.prev, u);
      TicksArePaid(t, u.prev, r);
      if RelayMoved(u, r) && u.act.relay.Query? {
        QueryIsPaid(n, k, rows, s.relay, u.act.relay);
      } else if RelayMoved(u, r) && u.act.relay.Mark? {
        MarkIsPaid(n, k, rows, s.relay, u.act.relay);
      } else if PcOf(End(u).relay, r) == PcOf(s.relay, r) {
        OthersArePaid(n, k, rows, s.relay, End(u).relay, r);
      } else {
        BoundedMore(n, k, rows, s.relay.published, End(u).relay.published);
      }
    }
  }

  /** With n rows unpublished and no new row, ceil(n / 100) completed ticks of one relay leave
      none unpublished: whatever fails or crashes in between, and whatever other relays, calls
      and the consumer do meanwhile. */
  lemma DrainBound(t: Trace, u: Trace, r: RelayId)
    requires Extends(t, u) && PcOf(End(t).relay, r).Idle? && End(u).db.outbox == End(t).db.outbox
    requires 100 * TicksBetween(t, u, r) >= |Backlog(End(t))|
    ensures Backlog(End(u)) == []
    ensures forall row :: row in End(u).db.outbox ==> row.id in End(u).relay.published
  {
    TicksArePaid(t, u, r);
    Reachable(u);
    OutboxIsDistinct(End(u).db);
    RI.PendingIs(End(u).db.outbox, End(u).relay.published);
    forall row | row in End(u).db.outbox ensures row.id in End(u).relay.published {
      assert row.id !in End(u).relay.published ==> row in Backlog(End(u));
    }
  }

  // ----- one relay at work -----

  /** A batch in work is the head of the backlog, and all of it unless it is full. */
  ghost predicate Working(rows: seq<OutboxRow>, s: RelayState, r: RelayId) {
    var pc := PcOf(s, r);
    pc.Busy? ==>
      var backlog := Pending(rows, s.published);
      && pc.next < |pc.batch| <= BATCH_SIZE
      && pc.batch[pc.next..] <= backlog
      && (|pc.batch| < BATCH_SIZE ==> pc.batch[pc.next..] == backlog)
  }

  lemma {:induction false} UnpublishedUnder(rows: seq<OutboxRow>, published: set<nat>, id: nat)
    requires forall i :: 0 <= i < |rows| ==> rows[i].id != id
    ensures Unpublished(rows, published + {id}) == Unpublished(rows, published)
  {
    if rows != [] {
      UnpublishedUnder(rows[1..], published, id);
    }
  }

  lemma {:induction false} UnpublishedDropsHead(rows: seq<OutboxRow>, published: set<nat>)
    requires RI.SortedById(rows) && Unpublished(rows, published) != []
    ensures var u := Unpublished(rows, published);
      Unpublished(rows, published + {u[0].id}) == u[1..]
  {
    var u := Unpublished(rows, published);
    if rows[0].id in published {
      UnpublishedDropsHead(rows[1..], published);
    } else {
      assert u == [rows[0]] + Unpublished(rows[1..], published);
      UnpublishedUnder(rows[1..], published, rows[0].id);
    }
  }

  /** Marking the head of the backlog removes it. */
  lemma MarkDropsHead(rows: seq<OutboxRow>, published: set<nat>)
    requires RI.DistinctIds(rows) && Pending(rows, published) != []
    ensures var p := Pending(rows, published); Pending(rows, published + {p[0].id}) == p[1..]
  {
    RI.SortByIdSorts(rows);
    UnpublishedDropsHead(SortById(rows), published);
  }

  /** One action of the relay: the backlog loses its head or stays, and the tick moves on. */
  lemma WorkStep(rows: seq<OutboxRow>, s: RelayState, a: Action)
    requires RI.DistinctIds(rows) && Enabled(s, a) && !a.Straggle? && Working(rows, s, a.r)
    ensures var s' := Step(rows, s, a);
      && Working(rows, s', a.r)
      && (if a.Mark? && a.applied
          then Pending(rows, s.published) != [] && Pending(rows, s'.published) == Pending(rows, s.published)[1..]
          else s'.published == s.published)
  {
    if a.Mark? {
      var Busy(batch, next, _) := PcOf(s, a.r);
      var backlog := Pending(rows, s.published);
      assert backlog[0] == batch[next..][0] == batch[next];
      if a.applied {
        MarkDropsHead(rows, s.published);
        assert batch[next + 1..] == batch[next..][1..];
      }
    } else if a.Query? {
      var batch := Limit(Pending(rows, s.published));
      assert batch[0..] == batch;
    }
  }

  // ----- the relay can always drain -----

  /** From t on, only relay r is scheduled. */
  predicate OnlyRelay(t: Trace, u: Trace, r: RelayId) {
    t == u || (u.After? && OnlyRelay(t, u.prev, r) && u.act.Relay? && !u.act.relay.Straggle? && u.act.relay.r == r)
  }

  /** One row: the relay starts afresh, queries, publishes and marks the head, and stops there. */
  function SendHead(t: Trace, r: RelayId): Trace {
    After(After(After(After(After(t,
      Act.Relay(Crash(r))), Act.Relay(Query(r))), Act.Relay(Publish(r, 1, true))), Act.Relay(Mark(r, true, true))),
      Act.Relay(Crash(r)))
  }

  lemma QueryAfterCrash(t: Trace, r: RelayId) returns (u: Trace)
    requires Backlog(End(t)) != []
    ensures u == After(After(t, Act.Relay(Crash(r))), Act.Relay(Query(r))) && OnlyRelay(t, u, r)
    ensures End(u).db == End(t).db && End(u).relay.published == End(t).relay.published
    ensures PcOf(End(u).relay, r) == Busy(Limit(Backlog(End(t))), 0, false)
  {
    u := After(After(t, Act.Relay(Crash(r))), Act.Relay(Query(r)));
    assert OnlyRelay(t, u.prev, r);
  }

  lemma SendHeadShrinks(t: Trace, r: RelayId)
    requires Backlog(End(t)) != []
    ensures OnlyRelay(t, SendHead(t, r), r) && End(SendHead(t, r)).db == End(t).db
    ensures Backlog(End(SendHead(t, r))) == Backlog(End(t))[1..]
  {
    var backlog := Backlog(End(t));
    var t2 := QueryAfterCrash(t, r);
    var t3 := After(t2, Act.Relay(Publish(r, 1, true)));
    assert PcOf(End(t3).relay, r) == Busy(Limit(backlog), 0, true) && OnlyRelay(t, t3, r);
    var t4 := After(t3, Act.Relay(Mark(r, true, true)));
    assert End(t4).relay.published == End(t).relay.published + {backlog[0].id} && OnlyRelay(t, t4, r);
    HeadDrops(t);
    assert SendHead(t, r) == After(t4, Act.Relay(Crash(r)));
  }

  lemma HeadDrops(t: Trace)
    requires Backlog(End(t)) != []
    ensures Pending(End(t).db.outbox, End(t).relay.published + {Backlog(End(t))[0].id}) == Backlog(End(t))[1..]
  {
    Reachable(t);
    OutboxIsDistinct(End(t).db);
    MarkDropsHead(End(t).db.outbox, End(t).relay.published);
  }

  lemma {:induction false} OnlyRelayTransitive(t: Trace, u: Trace, v: Trace, r: RelayId)
    requires OnlyRelay(t, u, r) && OnlyRelay(u, v, r)
    ensures OnlyRelay(t, v, r)
  {
    if u != v { OnlyRelayTransitive(t, u, v.prev, r); }
  }

  lemma {:induction false} OnlyRelayExtends(t: Trace, u: Trace, r: RelayId)
    requires OnlyRelay(t, u, r)
    ensures Extends(t, u)
  {
    if t != u { OnlyRelayExtends(t, u.prev, r); }
  }

  /** From every reachable state, whatever was left behind by crashes, some schedule of one
      relay publishes all that is committed. */
  lemma {:induction false} CanDrain(t: Trace, r: RelayId)
    ensures exists u :: OnlyRelay(t, u, r) && Backlog(End(u)) == [] && End(u).db == End(t).db
    decreases |Backlog(End(t))|
  {
    if Backlog(End(t)) == [] {
      assert OnlyRelay(t, t, r);
    } else {
      var t' := SendHead(t, r);
      SendHeadShrinks(t, r);
      CanDrain(t', r);
      var u :| OnlyRelay(t', u, r) && Backlog(End(u)) == [] && End(u).db == End(t').db;
      OnlyRelayTransitive(t, t', u, r);
    }
  }

  // ----- a drain without failures -----

  predicate CleanAction(a: Action) {
    match a
    case Query(_) => true
    case Publish(_, copies, ok) => copies == 1 && ok
    case Mark(_, applied, ok) => ok
    case _ => false
  }

  /** Between t and u relay r is the only one that acts, and nothing of it fails; service calls, the
      consumer and new commits are not restricted. */
  predicate AloneAmongRelays(t: Trace, u: Trace, r: RelayId) {
    t == u ||
    (u.After? && AloneAmongRelays(t, u.prev, r) &&
     (Moved(u) && u.act.Relay? ==> CleanAction(u.act.relay) && u.act.relay.r == r))
  }

  function Records(rows: seq<OutboxRow>): seq<Record> {
    seq(|rows|, i requires 0 <= i < |rows| => RecordOf(rows[i]))
  }

  /** The log got the first rows of the old backlog, one copy each; the rest is the backlog now. */
  ghost predicate CleanlySent(before: State, after: RelayState, r: RelayId) {
    var old', now := Backlog(before), Pending(before.db.outbox, after.published);
    var sent := if PcOf(after, r).Busy? && PcOf(after, r).sent then 1 else 0;
    && |now| <= |old'|
    && now == old'[|old'| - |now|..]
    && sent <= |now|
    && after.log == before.relay.log + Records(old'[..|old'| - |now| + sent])
  }

  /** Publishing the head of what is left sends the next row of the old backlog. */
  lemma CleanPublish(before: State, s: RelayState, a: Action)
    requires Enabled(s, a) && CleanAction(a) && a.Publish?
    requires Working(before.db.outbox, s, a.r) && CleanlySent(before, s, a.r)
    ensures CleanlySent(before, Step(before.db.outbox, s, a), a.r)
  {
    var s' := Step(before.db.outbox, s, a);
    var Busy(batch, next, _) := PcOf(s, a.r);
    var old', now := Backlog(before), Pending(before.db.outbox, s.published);
    var done := |old'| - |now|;
    assert batch[next] == batch[next..][0] == now[0] == old'[done];
    NextRecord(old', done);
    assert s'.log == s.log + [RecordOf(batch[next])];
  }

  lemma NextRecord(rows: seq<OutboxRow>, n: nat)
    requires n < |rows|
    ensures Records(rows[..n + 1]) == Records(rows[..n]) + [RecordOf(rows[n])]
  {
  }

  lemma CleanStep(before: State, s: RelayState, a: Action)
    requires RI.DistinctIds(before.db.outbox) && Enabled(s, a) && CleanAction(a)
    requires Working(before.db.outbox, s, a.r) && CleanlySent(before, s, a.r)
    ensures CleanlySent(before, Step(before.db.outbox, s, a), a.r)
  {
    if a.Publish? {
      CleanPublish(before, s, a);
    } else {
      WorkStep(before.db.outbox, s, a);
    }
  }

  lemma {:induction false} CleanRunSends(t: Trace, u: Trace, r: RelayId)
    requires Extends(t, u) && AloneAmongRelays(t, u, r)
    requires PcOf(End(t).relay, r).Idle? && End(u).db.outbox == End(t).db.outbox
    ensures Working(End(t).db.outbox, End(u).relay, r) && CleanlySent(End(t), End(u).relay, r)
  {
    if t != u {
      OutboxUnchanged(t, u.prev, u);
      CleanRunSends(t, u.prev, r);
      if Moved(u) && u.act.Relay? {
        Reachable(t);
        OutboxIsDistinct(End(t).db);
        WorkStep(End(t).db.outbox, End(u.prev).relay, u.act.relay);
        CleanStep(End(t), End(u.prev).relay, u.act.relay);
      }
    } else {
      assert Records([]) == [];
    }
  }

  /** A drain in which nothing of the relay fails appends exactly the rows of the backlog, in id order,
      each once, whatever service calls and the consumer do meanwhile, as long as no row is added. */
  lemma CleanDrainIsExact(t: Trace, u: Trace, r: RelayId)
    requires Extends(t, u) && AloneAmongRelays(t, u, r)
    requires PcOf(End(t).relay, r).Idle? && End(u).db.outbox == End(t).db.outbox
    requires 100 * TicksBetween(t, u, r) >= |Backlog(End(t))|
    ensures End(u).relay.log == End(t).relay.log + Records(Backlog(End(t)))
    ensures RI.SortedById(Backlog(End(t)))
    ensures forall row :: row in Backlog(End(t)) <==> row in End(t).db.outbox && row.id !in End(t).relay.published
  {
    CleanRunSends(t, u, r);
    DrainBound(t, u, r);
    Reachable(t);
    OutboxIsDistinct(End(t).db);
    RI.PendingIs(End(t).db.outbox, End(t).relay.published);
    assert Backlog(End(t))[..|Backlog(End(t))|] == Backlog(End(t));
  }

  // ----- duplicates -----

  /** A row may have further copies in the log long after it was published. */
  lemma CopiesMayArriveLate(t: Trace, row: OutboxRow) returns (u: Trace)
    requires row in End(t).relay.stragglers
    ensures Extends(t, u) && End(u).relay.log == End(t).relay.log + [RecordOf(row)]
    ensures End(u).db == End(t).db && End(u).relay.published == End(t).relay.published
  {
    u := After(t, Act.Relay(Straggle(row)));
    assert Extends(t, t);
  }

  /** In particular a row whose publish was acknowledged. */
  lemma {:induction false} PublishedMayStraggle(t: Trace, r: RelayId)
    requires PcOf(End(t).relay, r).Busy? && PcOf(End(t).relay, r).sent
    requires PcOf(End(t).relay, r).next < |PcOf(End(t).relay, r).batch|
    ensures PcOf(End(t).relay, r).batch[PcOf(End(t).relay, r).next] in End(t).relay.stragglers
  {
    if !CanAct(End(t.prev), t.act) || PcOf(End(t.prev).relay, r) == PcOf(End(t).relay, r) {
      PublishedMayStraggle(t.prev, r);
    }
  }

  /** Relay r is the only relay, and a publish puts at most one copy into the log. */
  predicate SingleCopies(t: Trace, r: RelayId) {
    t.After? ==>
      && SingleCopies(t.prev, r)
      && (t.act.Relay? ==>
            && !t.act.relay.Straggle?
            && t.act.relay.r == r
            && (t.act.relay.Publish? ==> t.act.relay.copies <= 1))
  }

  function Copies(log: seq<Record>, rec: Record): nat {
    multiset(log)[rec]
  }

  /** The row whose copy is out but not yet marked. */
  predicate InFlight(s: RelayState, r: RelayId, row: OutboxRow) {
    PcOf(s, r).Busy? && PcOf(s, r).sent && PcOf(s, r).next < |PcOf(s, r).batch| &&
      PcOf(s, r).batch[PcOf(s, r).next] == row
  }

  function Sent(s: RelayState, r: RelayId): nat {
    if PcOf(s, r).Busy? && PcOf(s, r).sent then 1 else 0
  }

  /** What is left of the only relay's batch is unpublished. */
  ghost predicate Unmarked(rows: seq<OutboxRow>, s: RelayState, r: RelayId) {
    PcOf(s, r).Busy? ==>
      && PcOf(s, r).next < |PcOf(s, r).batch|
      && RI.SortedById(PcOf(s, r).batch)
      && forall m :: PcOf(s, r).next <= m < |PcOf(s, r).batch| ==>
           PcOf(s, r).batch[m].id !in s.published && PcOf(s, r).batch[m] in rows
  }

  lemma UnmarkedStep(rows: seq<OutboxRow>, s: RelayState, a: Action)
    requires RI.DistinctIds(rows) && Enabled(s, a) && !a.Straggle? && Unmarked(rows, s, a.r)
    ensures Unmarked(rows, Step(rows, s, a), a.r)
  {
    if a.Query? {
      var p := Pending(rows, s.published);
      RI.PendingIs(rows, s.published);
      RI.LimitIsPrefix(p);
      forall m | 0 <= m < |Limit(p)| ensures Limit(p)[m].id !in s.published && Limit(p)[m] in rows {
        assert Limit(p)[m] == p[m] && p[m] in p;
      }
    }
  }

  /** The ledger: copies are paid for by marks, by failed ticks, or are in flight. */
  ghost predicate Ledger(s: RelayState, r: RelayId, failed: nat) {
    |s.log| <= |s.published| + failed + Sent(s, r)
  }

  ghost predicate RowLedger(s: RelayState, r: RelayId, failed: nat, row: OutboxRow) {
    Copies(s.log, RecordOf(row)) <= failed + if row.id in s.published || InFlight(s, r, row) then 1 else 0
  }

  lemma LedgerStep(rows: seq<OutboxRow>, s: RelayState, a: Action, failed: nat)
    requires Enabled(s, a) && !a.Straggle? && (a.Publish? ==> a.copies <= 1)
    requires Unmarked(rows, s, a.r) && Ledger(s, a.r, failed)
    ensures Ledger(Step(rows, s, a), a.r, failed + if ActionFails(s, a) then 1 else 0)
  {
  }

  lemma RowLedgerStep(rows: seq<OutboxRow>, s: RelayState, a: Action, failed: nat, row: OutboxRow)
    requires Enabled(s, a) && !a.Straggle? && (a.Publish? ==> a.copies <= 1)
    requires RI.DistinctIds(rows) && RI.DistinctEvents(rows) && row in rows
    requires Unmarked(rows, s, a.r) && RowLedger(s, a.r, failed, row)
    ensures RowLedger(Step(rows, s, a), a.r, failed + if ActionFails(s, a) then 1 else 0, row)
  {
    if a.Publish? {
      var Busy(batch, next, _) := PcOf(s, a.r);
      var more := seq(a.copies, _ => RecordOf(batch[next]));
      assert multiset(s.log + more)[RecordOf(row)] == multiset(s.log)[RecordOf(row)] + multiset(more)[RecordOf(row)];
      assert more == [] || more == [RecordOf(batch[next])];
      if RecordOf(batch[next]) == RecordOf(row) {
        var i :| 0 <= i < |rows| && rows[i] == batch[next];
        var k :| 0 <= k < |rows| && rows[k] == row;
        RI.RecordsDiffer(rows, i, k);
      }
    }
  }

  lemma OutboxAt(t: Trace)
    ensures RI.DistinctIds(End(t).db.outbox) && RI.DistinctEvents(End(t).db.outbox)
  {
    Reachable(t);
    OutboxIsDistinct(End(t).db);
  }

  lemma UnmarkedMore(rows: seq<OutboxRow>, rows': seq<OutboxRow>, s: RelayState, r: RelayId)
    requires Unmarked(rows, s, r) && rows <= rows'
    ensures Unmarked(rows', s, r)
  {
  }

  lemma {:induction false} SoloRun(t: Trace, r: RelayId)
    requires SingleCopies(t, r)
    ensures Unmarked(End(t).db.outbox, End(t).relay, r) && Ledger(End(t).relay, r, FailedTicks(t, r))
  {
    if t.After? {
      var s := End(t.prev);
      SoloRun(t.prev, r);
      OutboxAt(t.prev);
      if CanAct(s, t.act) && t.act.Relay? {
        UnmarkedStep(s.db.outbox, s.relay, t.act.relay);
        LedgerStep(s.db.outbox, s.relay, t.act.relay, FailedTicks(t.prev, r));
      } else {
        assert Extends(t.prev, t);
        LogsGrow(t.prev, t);
        UnmarkedMore(s.db.outbox, End(t).db.outbox, s.relay, r);
      }
    }
  }

  lemma {:induction false} RowRun(t: Trace, r: RelayId, row: OutboxRow)
    requires SingleCopies(t, r) && row in End(t).db.outbox
    ensures RowLedger(End(t).relay, r, FailedTicks(t, r), row)
  {
    var s := End(t.prev);
    OutboxAt(t.prev);
    if row in s.db.outbox {
      RowRun(t.prev, r, row);
      SoloRun(t.prev, r);
      if CanAct(s, t.act) && t.act.Relay? {
        RowLedgerStep(s.db.outbox, s.relay, t.act.relay, FailedTicks(t.prev, r), row);
      }
    } else {
      NewRowIsNotInLog(t, row);
    }
  }

  lemma LogIsFromRows(t: Trace, n: nat) returns (k: nat)
    requires n < |End(t).relay.log|
    ensures k < |End(t).db.outbox| && RecordOf(End(t).db.outbox[k]) == End(t).relay.log[n]
  {
    Reachable(t);
    assert RI.FromRows(End(t).db.outbox, End(t).relay.log[n]);
    k :| 0 <= k < |End(t).db.outbox| && RecordOf(End(t).db.outbox[k]) == End(t).relay.log[n];
  }

  lemma NewRowIsNotInLog(t: Trace, row: OutboxRow)
    requires t.After? && row in End(t).db.outbox && row !in End(t.prev).db.outbox
    ensures RecordOf(row) !in End(t).relay.log
  {
    var rows, rows' := End(t.prev).db.outbox, End(t).db.outbox;
    assert Extends(t.prev, t);
    LogsGrow(t.prev, t);
    OutboxAt(t);
    DbMoves(End(t.prev), t.act);
    var k :| 0 <= k < |rows'| && rows'[k] == row;
    forall n | 0 <= n < |End(t).relay.log| ensures End(t).relay.log[n] != RecordOf(row) {
      var j := LogIsFromRows(t.prev, n);
      assert rows'[j] == rows[j] && j != k;
    }
  }

  /** With one relay and at most one copy per publish, the log is never longer than the marked
      rows plus the failed ticks plus the one copy that may be in flight; and each row has at
      most one copy more than ticks failed. */
  lemma DuplicatesAreBounded(t: Trace, r: RelayId)
    requires SingleCopies(t, r)
    ensures |End(t).relay.log| <= |End(t).relay.published| + FailedTicks(t, r) + Sent(End(t).relay, r)
    ensures forall row :: row in End(t).db.outbox ==> Copies(End(t).relay.log, RecordOf(row)) <= 1 + FailedTicks(t, r)
  {
    SoloRun(t, r);
    forall row | row in End(t).db.outbox ensures Copies(End(t).relay.log, RecordOf(row)) <= 1 + FailedTicks(t, r) {
      RowRun(t, r, row);
    }
  }
}
