/** The two background loops: the outbox relay and the inbound consumer. */
module Loops {
  import opened Domain
  import R = OutboxRelay
  import C = InboundConsumer
  import CI = ConsumerInvariant
  import opened InspectService
  import opened World
  import opened Repository
  import opened Service
  import Dedup
  import Drain

  lemma {:induction false} OthersTickNothing(t: Trace, u: Trace, r: R.RelayId)
    requires Others(t, u, OfRelay(r))
    ensures Drain.FailedTicks(u, r) == Drain.FailedTicks(t, r) && Drain.DoneTicks(u, r) == Drain.DoneTicks(t, r)
  {
    if t != u {
      OthersTickNothing(t, u.prev, r);
    }
  }

  /** One own action after those of others, and the failed and completed ticks it makes. */
  lemma ActionCounts(t: Trace, u: Trace, r: R.RelayId, a: R.Action)
    requires Acted(t, u, OfRelay(r), Act.Relay(a)) && (a.Query? || a.QueryFails? || a.Publish? || a.Mark?) && a.r == r
    ensures Drain.FailedTicks(u, r) == Drain.FailedTicks(t, r) +
      match a
      case Query(_) => 0
      case QueryFails(_) => 1
      case Publish(_, _, ok) => if ok then 0 else 1
      case Mark(_, _, ok) => if ok then 0 else 1
      case _ => 0
    ensures Drain.DoneTicks(u, r) == Drain.DoneTicks(t, r) +
      if R.PcOf(End(u).relay, r).Idle? && (a.Query? || (a.Mark? && a.ok)) then 1 else 0
  {
    OthersTickNothing(t, u.prev, r);
  }

  class Relay {
    const world: Services
    const r: R.RelayId

    constructor (world: Services, r: R.RelayId)
      ensures this.world == world && this.r == r
    {
      this.world := world;
      this.r := r;
    }

    /** Publish one row and, once the brokers have it, mark it. */
    method PublishAndMark(row: OutboxRow) returns (ok: bool)
      requires world.Valid() && R.PcOf(world.Relays(), r).Busy? && !R.PcOf(world.Relays(), r).sent
      requires R.PcOf(world.Relays(), r).next < |R.PcOf(world.Relays(), r).batch|
      requires row == R.PcOf(world.Relays(), r).batch[R.PcOf(world.Relays(), r).next]
      modifies world
      ensures world.GoesOn()
      ensures R.PcOf(world.Relays(), r) ==
        if ok then R.AtRow(old(R.PcOf(world.Relays(), r)).batch, old(R.PcOf(world.Relays(), r)).next + 1) else R.Idle
      ensures ok ==> row.id in world.published && R.RecordOf(row) in world.log
      ensures Drain.FailedTicks(world.trace, r) == old(Drain.FailedTicks(world.trace, r)) + if ok then 0 else 1
      ensures Drain.DoneTicks(world.trace, r) == old(Drain.DoneTicks(world.trace, r)) +
        if ok && R.PcOf(world.Relays(), r).Idle? then 1 else 0
    {
      ok := world.Publish(r, row);
      ghost var between := world.trace;
      ghost var copies :| Acted(old(world.trace), between, OfRelay(r), Act.Relay(R.Publish(r, copies, ok)));
      ActionCounts(old(world.trace), between, r, R.Publish(r, copies, ok));
      if ok {
        ok := world.MarkPublished(r, row.id);
        ghost var applied :| Acted(between, world.trace, OfRelay(r), Act.Relay(R.Mark(r, applied, ok)));
        ActionCounts(between, world.trace, r, R.Mark(r, applied, ok));
        LogsGrow(between, world.trace);
      }
    }

    /** The rows of a batch, until the first error. */
    method PublishRows(work: seq<OutboxRow>) returns (ok: bool)
      requires world.Valid() && R.PcOf(world.Relays(), r) == R.AtRow(work, 0)
      modifies world
      ensures world.GoesOn() && R.PcOf(world.Relays(), r).Idle?
      ensures Drain.FailedTicks(world.trace, r) == old(Drain.FailedTicks(world.trace, r)) + if ok then 0 else 1
      ensures Drain.DoneTicks(world.trace, r) ==
        old(Drain.DoneTicks(world.trace, r)) + if ok && work != [] then 1 else 0
      ensures work == [] ==> ok
      ensures ok ==> forall row :: row in work ==> row.id in world.published && R.RecordOf(row) in world.log
    {
      ghost var start := old(world.trace);
      assert Continues(start, start);
      for i := 0 to |work|
        invariant world.Valid() && Continues(start, world.trace)
        invariant R.PcOf(world.Relays(), r) == R.AtRow(work, i)
        invariant Drain.FailedTicks(world.trace, r) == Drain.FailedTicks(start, r)
        invariant Drain.DoneTicks(world.trace, r) == Drain.DoneTicks(start, r) + if 0 < i == |work| then 1 else 0
        invariant forall k :: 0 <= k < i ==> work[k].id in world.published && R.RecordOf(work[k]) in world.log
      {
        ghost var before := world.trace;
        ok := PublishAndMark(work[i]);
        if !ok {
          return false;
        }
        LogsGrow(before, world.trace);
      }
      ok := true;
    }

    /** One tick. Without an error every row of the batch was published and then marked. */
    method PublishBatch() returns (failed: bool, ghost batch: seq<OutboxRow>, ghost read: Trace)
      requires world.Valid() && R.PcOf(world.Relays(), r).Idle?
      modifies world
      ensures world.GoesOn() && R.PcOf(world.Relays(), r).Idle?
      ensures Drain.FailedTicks(world.trace, r) == old(Drain.FailedTicks(world.trace, r)) + if failed then 1 else 0
      ensures Drain.DoneTicks(world.trace, r) == old(Drain.DoneTicks(world.trace, r)) + if failed then 0 else 1
      ensures !failed ==>
        && Extends(old(world.trace), read) && Extends(read, world.trace)
        && batch == R.Limit(R.Pending(End(read).db.outbox, End(read).relay.published))
        && forall row :: row in batch ==> row.id in world.published && R.RecordOf(row) in world.log
    {
      batch, read, failed := [], world.trace, false;
      var rows := world.SelectUnpublished(r);
      ActionCounts(old(world.trace), world.trace, r, if rows.Some? then R.Query(r) else R.QueryFails(r));
      if rows.None? {
        return true, batch, read;
      }
      read := world.trace;
      assert Extends(read, read);
      assert R.PcOf(End(read).relay, r) == R.AtRow(rows.value, 0);
      var work := Collect(rows.value);
      batch := work;
      var ok := PublishRows(work);
      failed := !ok;
    }

    /** The tick loop, for as many ticks as the context allows; errors are logged and the loop
        goes on, so each tick is a failed one or one of the clean ones, which ran to their end. If no row
        was added meanwhile, enough clean ticks leave nothing unpublished, whatever everybody else did. */
    method Run(ticks: nat) returns (clean: nat)
      requires world.Valid() && R.PcOf(world.Relays(), r).Idle?
      modifies world
      ensures world.GoesOn() && R.PcOf(world.Relays(), r).Idle?
      ensures Drain.FailedTicks(world.trace, r) + clean == old(Drain.FailedTicks(world.trace, r)) + ticks
      ensures Extends(old(world.trace), world.trace) && clean == Drain.TicksBetween(old(world.trace), world.trace, r)
      ensures
        (world.outbox == old(world.outbox) && 100 * clean >= |old(R.Pending(world.outbox, world.published))|)
        ==> R.Pending(world.outbox, world.published) == []
    {
      ghost var start := world.trace;
      ghost var n := |R.Pending(world.outbox, world.published)|;
      assert Continues(start, start);
      clean := 0;
      for i := 0 to ticks
        invariant world.Valid() && Continues(start, world.trace)
        invariant R.PcOf(world.Relays(), r).Idle?
        invariant Drain.FailedTicks(world.trace, r) + clean == Drain.FailedTicks(start, r) + i
        invariant Drain.DoneTicks(world.trace, r) == Drain.DoneTicks(start, r) + clean
        invariant Drain.BoundedAt(n, clean, start, world.trace)
      {
        ghost var before := world.trace;
        var failed, batch, read := PublishBatch();
        if failed {
          Drain.FailedTickIsFree(start, before, world.trace, n, clean);
        } else {
          Drain.BatchIsPaid(start, before, read, world.trace, n, clean, batch);
          clean := clean + 1;
        }
      }
      Drain.DoneTicksBetween(start, world.trace, r);
    }
  }

  /** Reading the result set row by row. */
  method Collect(rows: seq<OutboxRow>) returns (batch: seq<OutboxRow>)
    ensures batch == rows
  {
    batch := [];
    for i := 0 to |rows|
      invariant batch == rows[..i]
    {
      batch := batch + [rows[i]];
    }
  }

  /** Message k asked for nothing, or its request has an inspection, or its event was orphaned. */
  ghost predicate AnsweredAt(t: Trace, k: nat) {
    k < |End(t).consumer.inbound| &&
    var m := End(t).consumer.inbound[k];
    C.Relevant(m) ==> m.requestId in Requests(End(t).db) || m.eventId in Orphans(t)
  }

  lemma ReaderIsAtCommitted(t: Trace)
    requires !End(t).consumer.pc.Stopped?
    ensures End(t).consumer.pc.pos == End(t).consumer.committed
  {
    Reachable(t);
  }

  /** A message that is about to be committed has its answer. */
  lemma HandledIsAnswered(t: Trace, u: Trace, pos: nat)
    requires Extends(t, u) && pos < |End(t).consumer.inbound| && End(u).consumer.pc == C.Handled(pos)
    ensures AnsweredAt(u, pos)
  {
    LogsGrow(t, u);
    Reachable(u);
    assert CI.LetGoOk(End(u).consumer, pos, Requests(End(u).db), Orphans(u));
    C.DecodeIsRelevant(End(u).consumer.inbound[pos]);
  }

  lemma CommittedAreAnswered(t: Trace)
    ensures forall k: nat :: k < End(t).consumer.committed ==> AnsweredAt(t, k)
  {
    forall k: nat | k < End(t).consumer.committed ensures AnsweredAt(t, k) {
      Dedup.LossNeedsAnOrphan(t, k);
    }
  }

  // ----- what the reader does, command by command -----

  /** The commands for one message: none if it is irrelevant; otherwise the claim, and, if it was the first,
      the insert, and, if that failed, the undo. */
  ghost predicate Handling(acts: seq<C.Action>, relevant: bool, failed: bool) {
    if !relevant then acts == [] && !failed
    else if failed then
      || (|acts| == 1 && acts[0].Seen? && !acts[0].ok)
      || (|acts| == 3 && acts[0] == C.Seen(true, true) && acts[1].Create? && !acts[1].ok && acts[2].Forget?)
    else
      || acts == [C.Seen(true, true)]
      || (|acts| == 2 && acts[0] == C.Seen(true, true) && acts[1].Create? && acts[1].ok)
  }

  function CountAcks(acts: seq<C.Action>): nat {
    if acts == [] then 0
    else CountAcks(acts[..|acts| - 1]) + if acts[|acts| - 1].Commit? && acts[|acts| - 1].ok then 1 else 0
  }

  /** The commands of a loop: it joins, never gives up by itself, and acknowledges this many messages. */
  ghost predicate Looping(acts: seq<C.Action>, handled: nat) {
    && acts != [] && acts[0] == C.Start && CountAcks(acts) == handled
    && forall i :: 0 <= i < |acts| ==> !acts[i].Crash?
  }

  /** A command that ends the loop. */
  predicate EndsLoop(a: C.Action) {
    a.FetchFails? || (a.Seen? && !a.ok) || a.Forget? || (a.Commit? && !a.ok)
  }

  /** One message more: fetched, handled, and acknowledged or not. */
  lemma {:induction false} CountAcksAppend(acts: seq<C.Action>, more: seq<C.Action>)
    requires forall i :: 0 <= i < |more| ==> !more[i].Commit?
    ensures CountAcks(acts + more) == CountAcks(acts)
  {
    if more == [] {
      assert acts + more == acts;
    } else {
      var n := |more| - 1;
      assert (acts + more)[..|acts + more| - 1] == acts + more[..n];
      CountAcksAppend(acts, more[..n]);
    }
  }

  /** The commands for one message, up to the acknowledgement or to the error that ends the loop. */
  ghost predicate Round(acts: seq<C.Action>, acked: bool) {
    && acts != [] && (forall i :: 0 <= i < |acts| ==> !acts[i].Crash?)
    && (forall i :: 0 <= i < |acts| - 1 ==> !acts[i].Commit?)
    && if acked then acts[|acts| - 1] == C.Commit(true, true) else EndsLoop(acts[|acts| - 1])
  }

  lemma RoundOf(handling: seq<C.Action>, commit: C.Action, relevant: bool)
    requires Handling(handling, relevant, false) && commit.Commit? && (commit.ok ==> commit.applied)
    ensures Round([C.Fetch] + handling + [commit], commit.ok)
  {
  }

  lemma FailedRoundOf(handling: seq<C.Action>, relevant: bool)
    requires Handling(handling, relevant, true)
    ensures Round([C.Fetch] + handling, false)
  {
  }

  lemma LoopingGoesOn(acts: seq<C.Action>, round: seq<C.Action>, acked: bool, handled: nat)
    requires Looping(acts, handled) && Round(round, acked)
    ensures Looping(acts + round, handled + if acked then 1 else 0)
    ensures !acked ==> EndsLoop((acts + round)[|acts + round| - 1])
  {
    var n := |round| - 1;
    CountAcksAppend(acts, round[..n]);
    assert (acts + round)[..|acts + round| - 1] == acts + round[..n];
  }

  class Consumer {
    const world: Services
    const dedup: Deduplicator
    const svc: InspectionService

    constructor (world: Services, dedup: Deduplicator, svc: InspectionService)
      requires dedup.world == world && svc.world == world && svc.Wired()
      ensures this.world == world && this.dedup == dedup && this.svc == svc
    {
      this.world := world;
      this.dedup := dedup;
      this.svc := svc;
    }

    predicate Wired() {
      dedup.world == world && svc.world == world && svc.Wired()
    }

    /** Either way the message itself is not committed here. An error stops the reader, so that it never will
        be by this delivery, and comes from the claim, or from an insert that was followed by the undo. Without
        one it may be: it asked for nothing, or its request has an inspection, or its event was orphaned. */
    method Process(m: C.Message, pos: nat) returns (failed: bool, ghost acts: seq<C.Action>)
      requires Wired() && world.Valid() && pos < |world.inbound| && world.inbound[pos] == m
      requires world.reader == if C.Relevant(m) then C.Checking(pos, C.Job(m.eventId, m.requestId)) else C.Handled(pos)
      modifies world, svc.clock
      ensures world.GoesOn()
      ensures world.reader == if failed then C.Stopped else C.Handled(pos)
      ensures world.committed == pos
      ensures !failed ==> AnsweredAt(world.trace, pos)
      ensures ReaderActs(world.trace) == old(ReaderActs(world.trace)) + acts && Handling(acts, C.Relevant(m), failed)
    {
      ReaderIsAtCommitted(world.trace);
      assert Continues(world.trace, world.trace);
      if m.Malformed? {
        return false, [];
      }
      if m.eventType != C.EVENT_TYPE_REQUEST_STATUS_CHANGED {
        return false, [];
      }
      if m.eventId == NIL_UUID {
        return false, [];
      }
      if m.data.Unreadable? {
        return false, [];
      }
      if m.data.newStatus != C.STATUS_INSPECTION_SCHEDULED {
        return false, [];
      }
      failed, acts := ClaimAndCreate(m, pos);
    }

    /** The same for a message that passed the filters. */
    method ClaimAndCreate(m: C.Message, pos: nat) returns (failed: bool, ghost acts: seq<C.Action>)
      requires Wired() && world.Valid() && pos < |world.inbound| && world.inbound[pos] == m && C.Relevant(m)
      requires world.reader == C.Checking(pos, C.Job(m.eventId, m.requestId)) && world.committed == pos
      modifies world, svc.clock
      ensures world.GoesOn()
      ensures world.reader == if failed then C.Stopped else C.Handled(pos)
      ensures world.committed == pos
      ensures !failed ==> AnsweredAt(world.trace, pos)
      ensures ReaderActs(world.trace) == old(ReaderActs(world.trace)) + acts && Handling(acts, true, failed)
    {
      ghost var did;
      var dup;
      dup, did := dedup.Seen(m.eventId);
      acts := [did];
      if dup.None? {
        return true, acts;
      }
      if dup.value {
        HandledIsAnswered(old(world.trace), world.trace, pos);
        return false, acts;
      }
      var created, err;
      created, err, did := svc.CreateFromRequest(m.requestId);
      acts := acts + [did];
      if err {
        var ferr;
        ferr, did := dedup.Forget(m.eventId);
        acts := acts + [did];
        return true, acts;
      }
      HandledIsAnswered(old(world.trace), world.trace, pos);
      failed := false;
    }

    method Acknowledge() returns (ok: bool, ghost commit: C.Action)
      requires world.Valid() && world.reader.Handled? && world.committed == world.reader.pos
      modifies world
      ensures world.GoesOn()
      ensures ReaderActs(world.trace) == old(ReaderActs(world.trace)) + [commit]
      ensures commit.Commit? && commit.ok == ok && (ok ==> commit.applied)
      ensures if ok then world.reader == C.Polling(world.committed) else world.reader.Stopped?
      ensures if ok then world.committed == old(world.committed) + 1
              else old(world.committed) <= world.committed <= old(world.committed) + 1
    {
      ok := world.CommitOffset();
      commit := C.Commit(true, true);
      if !ok {
        ghost var applied :| world.ReaderDid(C.Commit(applied, false));
        commit := C.Commit(applied, false);
      }
    }

    /** Fetch, process, commit: one message, the first that is not committed. */
    method HandleOne() returns (acked: bool, ghost acts: seq<C.Action>)
      requires Wired() && world.Valid() && world.reader.Polling?
      modifies world, svc.clock
      ensures world.GoesOn()
      ensures ReaderActs(world.trace) == old(ReaderActs(world.trace)) + acts && Round(acts, acked)
      ensures if acked then world.reader == C.Polling(world.committed) else world.reader.Stopped?
      ensures if acked then world.committed == old(world.committed) + 1
              else old(world.committed) <= world.committed <= old(world.committed) + 1
    {
      ReaderIsAtCommitted(world.trace);
      var pos := world.reader.pos;
      var m := world.Fetch();
      if m.None? {
        return false, [C.FetchFails];
      }
      var failed, handling := Process(m.value, pos);
      acts := [C.Fetch] + handling;
      if failed {
        FailedRoundOf(handling, C.Relevant(m.value));
        return false, acts;
      }
      ghost var commit;
      acked, commit := Acknowledge();
      RoundOf(handling, commit, C.Relevant(m.value));
      acts := acts + [commit];
    }

    /** Fetch, process, commit, for at most n messages, from the first uncommitted one on. It stops at the
        first error, and only there; then the offset stands behind the messages it handled, or, if the last
        commit was applied without a reply, one further. Every committed message was answered or orphaned. */
    method Run(n: nat) returns (handled: nat, ghost acts: seq<C.Action>)
      requires Wired() && world.Valid() && world.reader.Stopped?
      modifies world, svc.clock
      ensures world.GoesOn() && handled <= n
      ensures ReaderActs(world.trace) == old(ReaderActs(world.trace)) + acts && Looping(acts, handled)
      ensures handled < n ==> world.reader.Stopped? && EndsLoop(acts[|acts| - 1])
      ensures handled == n ==> world.reader == C.Polling(world.committed)
      ensures old(world.committed) + handled <= world.committed <= old(world.committed) + handled + 1
      ensures handled == n ==> world.committed == old(world.committed) + handled
      ensures forall k: nat :: k < world.committed ==> AnsweredAt(world.trace, k)
    {
      world.JoinGroup();
      handled, acts := 0, [C.Start];
      ghost var start := old(world.trace);
      assert CountAcks(acts) == 0;
      while handled < n
        invariant handled <= n
        invariant world.Valid() && Continues(start, world.trace)
        invariant ReaderActs(world.trace) == ReaderActs(start) + acts && Looping(acts, handled)
        invariant world.committed == old(world.committed) + handled && world.reader == C.Polling(world.committed)
      {
        var acked, round := HandleOne();
        LoopingGoesOn(acts, round, acked, handled);
        acts := acts + round;
        if !acked {
          break;
        }
        handled := handled + 1;
      }
      CommittedAreAnswered(world.trace);
    }
  }
}
