/** The whole service, seen per request: none, scheduled, completed, announced, one
    stage at a time and never back. */
module Refinement {
  import opened Domain
  import opened Lifecycle
  import LI = LifecycleInvariant
  import R = OutboxRelay
  import RI = RelayInvariant
  import opened InspectService

  datatype Stage = Unknown | Scheduled | Completed | Announced

  function Rank(stage: Stage): nat {
    match stage
    case Unknown => 0
    case Scheduled => 1
    case Completed => 2
    case Announced => 3
  }

  predicate HasCompleted(db: Db, r: Uuid) {
    exists id :: id in db.inspections && db.inspections[id].requestId == r &&
      db.inspections[id].status == Status.Completed
  }

  predicate IsAnnounced(log: seq<R.Record>, r: Uuid) {
    exists n :: 0 <= n < |log| && log[n].value.requestId == r
  }

  /** What the outside can tell of a request. */
  function StageOf(s: State, r: Uuid): Stage {
    if IsAnnounced(s.relay.log, r) then Announced
    else if HasCompleted(s.db, r) then Stage.Completed
    else if HasRequest(s.db, r) then Stage.Scheduled
    else Unknown
  }

  /** One move of the abstract machine: one request enters its next stage. */
  ghost predicate Advances(s: State, s': State, r: Uuid) {
    && Rank(StageOf(s', r)) == Rank(StageOf(s, r)) + 1
    && forall q :: q != r ==> StageOf(s', q) == StageOf(s, q)
  }

  ghost predicate Stutters(s: State, s': State) {
    forall q :: StageOf(s', q) == StageOf(s, q)
  }

  lemma AnnouncedIsCompleted(s: State, orphans: set<Uuid>, r: Uuid)
    requires Inv(s, orphans) && IsAnnounced(s.relay.log, r)
    ensures HasCompleted(s.db, r)
  {
    var n :| 0 <= n < |s.relay.log| && s.relay.log[n].value.requestId == r;
    assert RI.FromRows(s.db.outbox, s.relay.log[n]);
    var k :| 0 <= k < |s.db.outbox| && R.RecordOf(s.db.outbox[k]) == s.relay.log[n];
    assert LI.OutboxRowOk(s.db, s.db.outbox[k]);
    assert LI.RowOk(s.db, s.db.outbox[k].payload.data.inspectionId);
  }

  // ----- each kind of step -----

  lemma CreateMoves(db: Db, a: Action, r: Uuid)
    requires LI.Inv(db) && Enabled(db, a) && a.Create?
    ensures HasRequest(Step(db, a), r) <==> HasRequest(db, r) || r == a.requestId
    ensures HasCompleted(Step(db, a), r) <==> HasCompleted(db, r)
  {
    var db' := Step(db, a);
    assert a.id in db.inspections ==> LI.RowOk(db, a.id);
    if HasRequest(db, r) {
      var id :| id in db.inspections && db.inspections[id].requestId == r;
      assert id in db'.inspections && db'.inspections[id] == db.inspections[id];
    }
    if HasCompleted(db, r) {
      var id :| id in db.inspections && db.inspections[id].requestId == r &&
        db.inspections[id].status == Status.Completed;
      assert id in db'.inspections && db'.inspections[id] == db.inspections[id];
    }
    if !HasRequest(db, a.requestId) {
      assert a.id in db'.inspections && db'.inspections[a.id].requestId == a.requestId;
    }
  }

  /** Outside commits no request changes its row's status; a commit completes the one of its call. */
  lemma CallMoves(db: Db, a: Action, r: Uuid)
    requires LI.Inv(db) && Enabled(db, a) && !a.Create?
    ensures HasRequest(Step(db, a), r) <==> HasRequest(db, r)
    ensures HasCompleted(Step(db, a), r) <==>
      HasCompleted(db, r) || (a.CompleteCommit? && r == db.inspections[db.calls[a.c].id].requestId)
  {
    var db' := Step(db, a);
    LI.StepIsLater(db, a);
    CallKeepsRequests(db, a);
    assert HasRequest(db', r) <==> r in Requests(db');
    assert HasRequest(db, r) <==> r in Requests(db);
    if HasCompleted(db, r) {
      var id :| id in db.inspections && db.inspections[id].requestId == r &&
        db.inspections[id].status == Status.Completed;
      assert LI.RowLater(db.inspections[id], db', id);
    }
    if HasCompleted(db', r) {
      var id :| id in db'.inspections && db'.inspections[id].requestId == r &&
        db'.inspections[id].status == Status.Completed;
      OneRowMoves(db, a, id);
    }
    if a.CompleteCommit? {
      var id := db.calls[a.c].id;
      assert id in db'.inspections && db'.inspections[id].status == Status.Completed;
    }
  }

  lemma OneRowMoves(db: Db, a: Action, id: Uuid)
    requires Enabled(db, a) && !a.Create? && id in Step(db, a).inspections
    ensures id in db.inspections && db.inspections[id].requestId == Step(db, a).inspections[id].requestId
    ensures db.inspections[id].status == Step(db, a).inspections[id].status ||
      (a.CompleteCommit? && db.calls[a.c].id == id)
  {
  }

  /** A relay action announces at most the request of one row. */
  lemma RelayMoves(rows: seq<OutboxRow>, s: R.RelayState, a: R.Action) returns (row: Option<OutboxRow>)
    requires R.Enabled(s, a) && RI.Inv(rows, s)
    ensures row.Some? ==> row.value in rows
    ensures forall r :: IsAnnounced(R.Step(rows, s, a).log, r) <==>
      IsAnnounced(s.log, r) || (row.Some? && row.value.payload.requestId == r)
  {
    var s' := R.Step(rows, s, a);
    row := match a
           case Publish(r, copies, _) => if copies > 0 then Some(R.PcOf(s, r).batch[R.PcOf(s, r).next]) else None
           case Straggle(straggler) => Some(straggler)
           case _ => None;
    if a.Publish? {
      assert RI.BatchOk(rows, s.log, s.relays[a.r]);
    }
    if row.Some? {
      assert s'.log[|s.log|] == R.RecordOf(row.value);
      assert forall n :: |s.log| <= n < |s'.log| ==> s'.log[n] == R.RecordOf(row.value);
    }
    forall r ensures IsAnnounced(s'.log, r) <==>
      IsAnnounced(s.log, r) || (row.Some? && row.value.payload.requestId == r) {
      if IsAnnounced(s.log, r) {
        var n :| 0 <= n < |s.log| && s.log[n].value.requestId == r;
        assert s'.log[n] == s.log[n];
      }
      if IsAnnounced(s'.log, r) && row.None? {
        assert s'.log == s.log;
      }
    }
  }

  // ----- the refinement -----

  lemma CallRefines(s: State, a: Act, orphans: set<Uuid>)
    requires Inv(s, orphans) && CanAct(s, a) && a.Serve?
    ensures Stutters(s, Perform(s, a)) || exists r :: Advances(s, Perform(s, a), r)
  {
    var s' := Perform(s, a);
    forall q ensures HasRequest(s'.db, q) <==> HasRequest(s.db, q) {
      CallMoves(s.db, a.call, q);
    }
    if a.call.CompleteCommit? {
      var id := s.db.calls[a.call.c].id;
      var r := s.db.inspections[id].requestId;
      assert LI.CallOk(s.db, s.db.calls[a.call.c]);
      OnlyRow(s.db, id);
      if IsAnnounced(s.relay.log, r) { AnnouncedIsCompleted(s, orphans, r); }
      forall q ensures HasCompleted(s'.db, q) <==> HasCompleted(s.db, q) || q == r {
        CallMoves(s.db, a.call, q);
      }
      assert HasRequest(s.db, r);
      assert Advances(s, s', r);
    } else {
      forall q ensures HasCompleted(s'.db, q) <==> HasCompleted(s.db, q) {
        CallMoves(s.db, a.call, q);
      }
    }
  }

  /** A scheduled row is the only row of its request. */
  lemma OnlyRow(db: Db, id: Uuid)
    requires LI.Inv(db) && IsScheduled(db, id)
    ensures !HasCompleted(db, db.inspections[id].requestId)
  {
  }

  lemma CreateRefines(s: State, a: Act, orphans: set<Uuid>)
    requires Inv(s, orphans) && CanAct(s, a) && a.Consumer?
    ensures Stutters(s, Perform(s, a)) || exists r :: Advances(s, Perform(s, a), r)
  {
    var s' := Perform(s, a);
    if a.consumer.Create? && a.consumer.applied {
      var create := CreateStatement(s, a.consumer);
      var r := create.requestId;
      forall q
        ensures HasRequest(s'.db, q) <==> HasRequest(s.db, q) || q == r
        ensures HasCompleted(s'.db, q) <==> HasCompleted(s.db, q)
        ensures HasCompleted(s.db, q) ==> HasRequest(s.db, q)
      {
        CreateMoves(s.db, create, q);
      }
      if IsAnnounced(s.relay.log, r) { AnnouncedIsCompleted(s, orphans, r); }
      assert HasRequest(s.db, r) || Advances(s, s', r);
    }
  }

  lemma RelayRefines(s: State, a: Act, orphans: set<Uuid>)
    requires Inv(s, orphans) && CanAct(s, a) && a.Relay?
    ensures Stutters(s, Perform(s, a)) || exists r :: Advances(s, Perform(s, a), r)
  {
    var s' := Perform(s, a);
    var row := RelayMoves(s.db.outbox, s.relay, a.relay);
    if row.Some? && !IsAnnounced(s.relay.log, row.value.payload.requestId) {
      var r := row.value.payload.requestId;
      CommittedIsCompleted(s.db, row.value);
      assert Advances(s, s', r);
    }
  }

  lemma CommittedIsCompleted(db: Db, row: OutboxRow)
    requires LI.Inv(db) && row in db.outbox
    ensures HasCompleted(db, row.payload.requestId)
  {
    var k :| 0 <= k < |db.outbox| && db.outbox[k] == row;
    assert LI.OutboxRowOk(db, db.outbox[k]);
    assert LI.RowOk(db, row.payload.data.inspectionId);
  }

  /** Every step of the service, whatever interleaving led to it, is a stutter or exactly one
      move of the abstract machine. */
  lemma StepRefines(t: Trace, a: Act)
    ensures Stutters(End(t), Next(End(t), a)) || exists r :: Advances(End(t), Next(End(t), a), r)
  {
    Reachable(t);
    if CanAct(End(t), a) {
      match a
      case Serve(_) => CallRefines(End(t), a, Orphans(t));
      case Relay(_) => RelayRefines(End(t), a, Orphans(t));
      case Consumer(_) => CreateRefines(End(t), a, Orphans(t));
    }
  }

  /** No request skips, repeats or reverses a stage: between two states of a run its rank does
      not fall, and each rank in between was its rank in some state between them. */
  lemma {:induction false} StagesInOrder(t: Trace, u: Trace, r: Uuid, rank: nat)
    requires Extends(t, u)
    ensures Rank(StageOf(End(t), r)) <= Rank(StageOf(End(u), r))
    ensures Rank(StageOf(End(t), r)) <= rank <= Rank(StageOf(End(u), r)) ==>
      exists v :: Extends(t, v) && Extends(v, u) && Rank(StageOf(End(v), r)) == rank
  {
    if t == u {
      assert Extends(t, t);
    } else {
      StagesInOrder(t, u.prev, r, rank);
      StepRefines(u.prev, u.act);
      if Rank(StageOf(End(t), r)) <= rank <= Rank(StageOf(End(u.prev), r)) {
        var v :| Extends(t, v) && Extends(v, u.prev) && Rank(StageOf(End(v), r)) == rank;
        assert Extends(v, u);
      } else if rank <= Rank(StageOf(End(u), r)) {
        assert Extends(u, u);
      }
    }
  }
}
