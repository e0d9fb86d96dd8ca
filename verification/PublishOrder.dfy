/** When the relay publishes in id order: exactly for rows whose commits did not
    overtake each other. */
module PublishOrder {
  import opened Domain
  import opened OutboxRelay
  import RI = RelayInvariant
  import opened InspectService
  import opened Delivery
  import opened Drain

  lemma EmptyBacklogIsPublished(t: Trace, q: OutboxRow)
    requires Backlog(End(t)) == [] && q in End(t).db.outbox
    ensures RecordOf(q) in End(t).relay.log
  {
    Reachable(t);
    OutboxIsDistinct(End(t).db);
    RI.PendingIs(End(t).db.outbox, End(t).relay.published);
    assert q.id !in End(t).relay.published ==> q in Backlog(End(t));
    var k :| 0 <= k < |End(t).db.outbox| && End(t).db.outbox[k] == q;
  }

  /** In every run that shares with t a state in which q is committed, p reaches Kafka before q. */
  ghost predicate OrderGuaranteed(t: Trace, p: OutboxRow, q: OutboxRow) {
    forall u, v :: Extends(u, t) && Extends(u, v) && q in End(u).db.outbox && RecordOf(q) in End(v).relay.log ==>
      FirstAt(End(v).relay.log, RecordOf(p)) < FirstAt(End(v).relay.log, RecordOf(q))
  }

  lemma VisibilityCarriesOver(t: Trace, u: Trace, v: Trace, p: OutboxRow, q: OutboxRow)
    requires VisibleWith(t, p, q) && Extends(u, t) && Extends(u, v) && q in End(u).db.outbox
    ensures VisibleWith(v, p, q) && q in End(v).db.outbox
  {
    ExtendsIsLater(u, v);
    forall w | Extends(w, v) && q in End(w).db.outbox ensures p in End(w).db.outbox {
      PrefixesCompare(u, w, v);
      if Extends(u, w) {
        ExtendsIsLater(u, w);
      } else {
        ExtendsTransitive(w, u, t);
      }
    }
  }

  /** A record that comes from some of the rows is not that of another row. */
  lemma NotAmongRecords(rows: seq<OutboxRow>, all: seq<OutboxRow>, p: OutboxRow, rec: Record)
    requires rows <= all && RI.DistinctEvents(all) && p in all && p !in rows && RI.FromRows(rows, rec)
    ensures rec != RecordOf(p)
  {
    var k :| 0 <= k < |rows| && RecordOf(rows[k]) == rec;
    var i :| 0 <= i < |all| && all[i] == p;
    assert all[k] == rows[k];
    assert all[k].payload.eventId != all[i].payload.eventId;
  }

  /** As long as p is not committed, its record is not in the log. */
  lemma OnlyItsOwnRecord(t: Trace, u: Trace, v: Trace, p: OutboxRow)
    requires Extends(u, t) && p in End(t).db.outbox && p !in End(u).db.outbox
    requires Extends(u, v) && End(v).db == End(u).db
    ensures RecordOf(p) !in End(v).relay.log
  {
    LogsGrow(u, t);
    Reachable(t);
    OutboxIsDistinct(End(t).db);
    Reachable(v);
    forall n | 0 <= n < |End(v).relay.log| ensures End(v).relay.log[n] != RecordOf(p) {
      NotAmongRecords(End(v).db.outbox, End(t).db.outbox, p, End(v).relay.log[n]);
    }
  }

  lemma InvisibleCanBeOvertaken(t: Trace, u: Trace, p: OutboxRow, q: OutboxRow)
    requires Extends(u, t) && p in End(t).db.outbox && q in End(u).db.outbox && p !in End(u).db.outbox
    ensures exists v :: Extends(u, v) && RecordOf(q) in End(v).relay.log && RecordOf(p) !in End(v).relay.log
  {
    CanDrain(u, 0);
    var v :| OnlyRelay(u, v, 0) && Backlog(End(v)) == [] && End(v).db == End(u).db;
    OnlyRelayExtends(u, v, 0);
    EmptyBacklogIsPublished(v, q);
    OnlyItsOwnRecord(t, u, v, p);
  }

  lemma AbsentIsNotFirst(log: seq<Record>, p: Record, q: Record)
    requires p !in log
    ensures FirstAt(log, p) >= FirstAt(log, q)
  {
  }

  /** Of two committed rows the one with the lower id is sure to reach Kafka first exactly when
      it was committed in every state in which the other one was. */
  lemma OrderIsCommitOrder(t: Trace, p: OutboxRow, q: OutboxRow)
    requires p in End(t).db.outbox && q in End(t).db.outbox && p.id < q.id
    ensures OrderGuaranteed(t, p, q) <==> VisibleWith(t, p, q)
  {
    if VisibleWith(t, p, q) {
      forall u, v | Extends(u, t) && Extends(u, v) && q in End(u).db.outbox && RecordOf(q) in End(v).relay.log
        ensures FirstAt(End(v).relay.log, RecordOf(p)) < FirstAt(End(v).relay.log, RecordOf(q))
      {
        VisibilityCarriesOver(t, u, v, p, q);
        LowerIdsGoFirst(v, p, q);
      }
    } else {
      var u :| Extends(u, t) && q in End(u).db.outbox && p !in End(u).db.outbox;
      InvisibleCanBeOvertaken(t, u, p, q);
      var v :| Extends(u, v) && RecordOf(q) in End(v).relay.log && RecordOf(p) !in End(v).relay.log;
      AbsentIsNotFirst(End(v).relay.log, RecordOf(p), RecordOf(q));
    }
  }
}
