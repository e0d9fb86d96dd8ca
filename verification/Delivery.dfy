/** What reaches Kafka: in which order, and what it says about the tables. */
module Delivery {
  import opened Domain
  import L = Lifecycle
  import LI = LifecycleInvariant
  import opened OutboxRelay
  import RI = RelayInvariant
  import opened InspectService

  /** The position of the first copy, or the length of the log if there is none. */
  function FirstAt(log: seq<Record>, rec: Record): (n: nat)
    ensures n <= |log| && forall i :: 0 <= i < n ==> log[i] != rec
    ensures n < |log| ==> log[n] == rec
  {
    if log == [] then 0
    else
      var n := FirstAt(log[..|log| - 1], rec);
      if n < |log| - 1 || log[|log| - 1] == rec then n else |log|
  }

  /** p is committed in every state of the run in which q is. */
  ghost predicate VisibleWith(t: Trace, p: OutboxRow, q: OutboxRow) {
    forall u :: Extends(u, t) && q in End(u).db.outbox ==> p in End(u).db.outbox
  }

  lemma FollowerIsLater(log: seq<Record>, p: Record, q: Record)
    requires RI.CopiesFollow(log, p, q) && q in log
    ensures FirstAt(log, p) < FirstAt(log, q) < |log|
  {
    var n := FirstAt(log, q);
    assert p in log[..n];
    var i: nat :| i < n && log[..n][i] == p;
    assert log[i] == p;
  }

  lemma VisibleIsCommittedFirst(t: Trace, p: OutboxRow, q: OutboxRow) returns (j: nat, k: nat)
    requires p.id < q.id && q in End(t).db.outbox && VisibleWith(t, p, q)
    ensures j < k < |End(t).db.outbox| && End(t).db.outbox[j] == p && End(t).db.outbox[k] == q
  {
    var rows := End(t).db.outbox;
    k :| 0 <= k < |rows| && rows[k] == q;
    var u := FindCommit(t, k);
    var upTo := rows[..k + 1];
    assert upTo[k] == q;
    j :| 0 <= j < |upTo| && upTo[j] == p;
  }

  /** With any number of relays, crashes, errors and duplicate sends: a row with a lower id that
      is visible wherever q is reaches Kafka before q does. */
  lemma LowerIdsGoFirst(t: Trace, p: OutboxRow, q: OutboxRow)
    requires p.id < q.id && q in End(t).db.outbox && VisibleWith(t, p, q)
    requires RecordOf(q) in End(t).relay.log
    ensures FirstAt(End(t).relay.log, RecordOf(p)) < FirstAt(End(t).relay.log, RecordOf(q)) < |End(t).relay.log|
  {
    Reachable(t);
    var j, k := VisibleIsCommittedFirst(t, p, q);
    assert RI.InOrder(End(t).relay, End(t).db.outbox[j], End(t).db.outbox[k]);
    FollowerIsLater(End(t).relay.log, RecordOf(p), RecordOf(q));
  }

  // ----- agreement with the tables -----

  function EventIds(log: seq<Record>): set<Uuid> {
    set n | 0 <= n < |log| :: log[n].value.eventId
  }

  function CompletedIds(db: L.Db): set<Uuid> {
    set id | id in db.inspections && db.inspections[id].status == Completed
  }

  lemma LogIsCommitted(t: Trace, n: nat) returns (k: nat)
    requires n < |End(t).relay.log|
    ensures k < |End(t).db.outbox| && End(t).relay.log[n] == RecordOf(End(t).db.outbox[k])
    ensures LI.OutboxRowOk(End(t).db, End(t).db.outbox[k])
    ensures End(t).relay.log[n].value.data.inspectionId in CompletedIds(End(t).db)
  {
    Reachable(t);
    var rows, log := End(t).db.outbox, End(t).relay.log;
    assert RI.FromRows(rows, log[n]);
    k :| 0 <= k < |rows| && RecordOf(rows[k]) == log[n];
    assert LI.OutboxRowOk(End(t).db, rows[k]);
    assert LI.RowOk(End(t).db, rows[k].payload.data.inspectionId);
  }

  predicate SameSubject(a: Event, b: Event) {
    a.requestId == b.requestId || a.eventId == b.eventId
  }

  /** Every message is the event of a completed inspection, keyed by its request, and a
      request or an event id has one message content only. */
  lemma LogAgrees(t: Trace)
    ensures var s := End(t);
      forall n :: 0 <= n < |s.relay.log| ==>
        var rec := s.relay.log[n];
        && rec.topic == "inspect.events"
        && rec.value.eventType == "inspect.completed" && rec.value.version == 1
        && rec.value.data.inspectionId in CompletedIds(s.db)
        && rec.key == rec.value.requestId == s.db.inspections[rec.value.data.inspectionId].requestId
    ensures forall m, n :: 0 <= m < |End(t).relay.log| && 0 <= n < |End(t).relay.log| ==>
      SameSubject(End(t).relay.log[m].value, End(t).relay.log[n].value) ==> End(t).relay.log[m] == End(t).relay.log[n]
  {
    Reachable(t);
    var s := End(t);
    forall n | 0 <= n < |s.relay.log|
      ensures
        var rec := s.relay.log[n];
        && rec.topic == "inspect.events"
        && rec.value.eventType == "inspect.completed" && rec.value.version == 1
        && rec.value.data.inspectionId in CompletedIds(s.db)
        && rec.key == rec.value.requestId == s.db.inspections[rec.value.data.inspectionId].requestId
    {
      var k := LogIsCommitted(t, n);
    }
    forall m, n | 0 <= m < |s.relay.log| && 0 <= n < |s.relay.log| &&
                  SameSubject(s.relay.log[m].value, s.relay.log[n].value)
      ensures s.relay.log[m] == s.relay.log[n]
    {
      var j := LogIsCommitted(t, m);
      var k := LogIsCommitted(t, n);
      SameRequestOrEventIsSameRow(s.db, j, k);
    }
  }

  lemma SameRequestOrEventIsSameRow(db: L.Db, j: nat, k: nat)
    requires LI.Inv(db) && j < |db.outbox| && k < |db.outbox|
    requires db.outbox[j].payload.requestId == db.outbox[k].payload.requestId ||
      db.outbox[j].eventId == db.outbox[k].eventId
    ensures j == k
  {
    assert LI.OutboxRowOk(db, db.outbox[j]) && LI.OutboxRowOk(db, db.outbox[k]);
  }

  /** A set published_at means the row's message is in the log. */
  lemma MarkedIsInLog(t: Trace, k: nat)
    requires k < |End(t).db.outbox| && End(t).db.outbox[k].id in End(t).relay.published
    ensures RecordOf(End(t).db.outbox[k]) in End(t).relay.log
  {
    Reachable(t);
  }

  lemma {:induction false} InjectiveMapSize(m: map<Uuid, Uuid>)
    requires forall i, j :: i in m && j in m && i != j ==> m[i] != m[j]
    ensures |m.Values| == |m.Keys|
  {
    if m.Keys != {} {
      var i :| i in m.Keys;
      var rest := m - {i};
      InjectiveMapSize(rest);
      assert rest.Keys == m.Keys - {i};
      forall v ensures v in m.Values <==> v in rest.Values + {m[i]} {
        if v in m.Values && v != m[i] {
          var j :| j in m && m[j] == v;
          assert j in rest && rest[j] == v;
        }
      }
      assert m.Values == rest.Values + {m[i]};
    } else {
      assert m.Values == {};
    }
  }

  /** The event id queued for an inspection. */
  function EventIdFrom(outbox: seq<OutboxRow>, id: Uuid): Uuid {
    if outbox == [] then NIL_UUID
    else if outbox[|outbox| - 1].payload.data.inspectionId == id then outbox[|outbox| - 1].eventId
    else EventIdFrom(outbox[..|outbox| - 1], id)
  }

  lemma {:induction false} EventIdFromIs(outbox: seq<OutboxRow>, k: nat)
    requires LI.OutboxDistinct(outbox) && k < |outbox|
    ensures EventIdFrom(outbox, outbox[k].payload.data.inspectionId) == outbox[k].eventId
  {
    var n := |outbox| - 1;
    if k < n {
      EventIdFromIs(outbox[..n], k);
    }
  }

  function QueuedIds(db: L.Db): map<Uuid, Uuid> {
    map id | id in CompletedIds(db) :: EventIdFrom(db.outbox, id)
  }

  lemma QueuedIdIs(db: L.Db, id: Uuid) returns (k: nat)
    requires LI.Inv(db) && id in CompletedIds(db)
    ensures k < |db.outbox| && db.outbox[k].payload.data.inspectionId == id
    ensures db.outbox[k].eventId == EventIdFrom(db.outbox, id)
  {
    assert LI.RowOk(db, id);
    k :| 0 <= k < |db.outbox| && db.outbox[k].payload.data.inspectionId == id;
    EventIdFromIs(db.outbox, k);
  }

  lemma QueuedIdsDiffer(t: Trace, i: Uuid, j: Uuid)
    requires i in CompletedIds(End(t).db) && j in CompletedIds(End(t).db) && i != j
    ensures EventIdFrom(End(t).db.outbox, i) != EventIdFrom(End(t).db.outbox, j)
  {
    Reachable(t);
    var k := QueuedIdIs(End(t).db, i);
    var l := QueuedIdIs(End(t).db, j);
    assert k < l || l < k;
  }

  ghost predicate Drained(s: State) {
    forall k :: 0 <= k < |s.db.outbox| ==> s.db.outbox[k].id in s.relay.published
  }

  lemma QueuedIsInLog(t: Trace, id: Uuid)
    requires Drained(End(t)) && id in CompletedIds(End(t).db)
    ensures EventIdFrom(End(t).db.outbox, id) in EventIds(End(t).relay.log)
  {
    var s := End(t);
    Reachable(t);
    var k := QueuedIdIs(s.db, id);
    MarkedIsInLog(t, k);
    assert LI.OutboxRowOk(s.db, s.db.outbox[k]);
    var n :| 0 <= n < |s.relay.log| && s.relay.log[n] == RecordOf(s.db.outbox[k]);
    assert s.relay.log[n].value.eventId == s.db.outbox[k].eventId;
  }

  lemma LoggedIsQueued(t: Trace, n: nat)
    requires n < |End(t).relay.log|
    ensures var event := End(t).relay.log[n].value;
      event.data.inspectionId in CompletedIds(End(t).db) &&
        EventIdFrom(End(t).db.outbox, event.data.inspectionId) == event.eventId
  {
    Reachable(t);
    var k := LogIsCommitted(t, n);
    EventIdFromIs(End(t).db.outbox, k);
  }

  /** Once no outbox row is unpublished, the event ids in the log and the completed inspections
      are in bijection: the map from each completed inspection to its queued event id agrees
      with every message in the log, reaches every event id there, and none of them twice. */
  lemma DrainedLogIsComplete(t: Trace)
    requires Drained(End(t))
    ensures var m, log := QueuedIds(End(t).db), End(t).relay.log;
      && m.Keys == CompletedIds(End(t).db)
      && m.Values == EventIds(log)
      && (forall n :: 0 <= n < |log| ==>
            log[n].value.data.inspectionId in m && m[log[n].value.data.inspectionId] == log[n].value.eventId)
      && (forall i, j :: i in m && j in m && i != j ==> m[i] != m[j])
      && |EventIds(log)| == |CompletedIds(End(t).db)|
  {
    var m, log := QueuedIds(End(t).db), End(t).relay.log;
    forall i, j | i in m && j in m && i != j ensures m[i] != m[j] {
      QueuedIdsDiffer(t, i, j);
    }
    forall n | 0 <= n < |log|
      ensures log[n].value.data.inspectionId in m && m[log[n].value.data.inspectionId] == log[n].value.eventId
    {
      LoggedIsQueued(t, n);
    }
    forall e ensures e in m.Values <==> e in EventIds(log) {
      if e in m.Values {
        var id :| id in m && m[id] == e;
        QueuedIsInLog(t, id);
      }
      if e in EventIds(log) {
        var n :| 0 <= n < |log| && log[n].value.eventId == e;
        assert m[log[n].value.data.inspectionId] == e;
      }
    }
    assert m.Values == EventIds(log);
    InjectiveMapSize(m);
  }
}
