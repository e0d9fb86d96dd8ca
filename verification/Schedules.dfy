/** Building runs: from any run, one call or the reader goes on by itself. */
module Schedules {
  import opened Domain
  import opened Lifecycle
  import C = InboundConsumer
  import opened InspectService

  /** One more action of a service call. */
  lemma Serve1(t: Trace, x: Action) returns (u: Trace)
    requires !x.Create? && Enabled(End(t).db, x)
    ensures Extends(t, u) && End(u) == End(t).(db := Step(End(t).db, x))
  {
    u := After(t, Act.Serve(x));
    assert Extends(t, t);
  }

  /** One more action of the consumer, off the tables. */
  lemma Consume1(t: Trace, a: C.Action) returns (u: Trace)
    requires C.Enabled(End(t).consumer, a) && !a.Create?
    ensures Extends(t, u) && u == After(t, Act.Consumer(a))
    ensures End(u) == End(t).(consumer := C.Step(End(t).consumer, a))
  {
    u := After(t, Act.Consumer(a));
    assert Extends(t, t);
  }

  /** The tables with call c at pc. */
  function At(db: Db, c: CallId, op: Op, id: Uuid, pc: Pc): Db {
    db.(calls := db.calls[c := Call(op, id, pc)])
  }

  /** A new call reads its row and its photos. */
  lemma Read(t: Trace, c: CallId, op: Op, id: Uuid) returns (u: Trace)
    requires c !in End(t).db.calls && id in End(t).db.inspections
    ensures Extends(t, u)
    ensures End(u).db == At(End(t).db, c, op, id, Loaded(End(t).db.inspections[id], PhotosOf(End(t).db.photos, id)))
  {
    var t1 := Serve1(t, Invoke(c, op, id));
    var t2 := Serve1(t1, ReadRow(c));
    u := Serve1(t2, ReadPhotos(c));
    ExtendsTransitive(t, t1, t2);
    ExtendsTransitive(t, t2, u);
  }

  /** A Complete call reads and builds its event. */
  lemma Prepared(t: Trace, c: CallId, id: Uuid, now: Time, eventId: Uuid) returns (u: Trace)
    requires c !in End(t).db.calls && IsScheduled(End(t).db, id) && eventId !in End(t).db.uuids
    ensures Extends(t, u)
    ensures exists event :: PreparedAt(End(t).db, End(u).db, c, id, now, eventId, event)
  {
    var db := End(t).db;
    var t1 := Read(t, c, Complete, id);
    u := Serve1(t1, Prepare(c, now, now, eventId));
    ExtendsTransitive(t, t1, u);
    assert PreparedAt(db, End(u).db, c, id, now, eventId, End(u).db.calls[c].pc.event);
  }

  ghost predicate PreparedAt(db: Db, db': Db, c: CallId, id: Uuid, now: Time, eventId: Uuid, event: Event) {
    && db'.calls == db.calls[c := Call(Complete, id, Completing(now, event))]
    && db'.inspections == db.inspections && db'.photos == db.photos && db'.outbox == db.outbox
    && db'.nextOutboxId == db.nextOutboxId && db'.uuids == db.uuids + {eventId}
    && id in db.inspections && event.data.inspectorId == db.inspections[id].inspectorId
    && event.data.inspectionId == db.inspections[id].id
  }

  /** What the transaction of a prepared Complete call makes of the tables. */
  ghost predicate Finished(db: Db, db': Db, c: CallId)
    requires c in db.calls && db.calls[c].pc.Completing? && db.calls[c].id in db.inspections
  {
    var call := db.calls[c];
    && db'.inspections == db.inspections[call.id := CompletedRow(db.inspections[call.id], call.pc.at)]
    && db'.outbox == db.outbox + [NewOutboxRow(db.nextOutboxId, call.pc.event)]
    && db'.nextOutboxId == db.nextOutboxId + 1
    && db'.calls == db.calls[c := Call(call.op, call.id, Done(Success))]
    && db'.photos == db.photos && db'.uuids == db.uuids
  }

  /** A prepared Complete call runs its whole transaction. */
  lemma Finish(t: Trace, c: CallId) returns (u: Trace)
    requires c in End(t).db.calls && End(t).db.calls[c].pc.Completing?
    requires IsScheduled(End(t).db, End(t).db.calls[c].id) && !RowLocked(End(t).db, End(t).db.calls[c].id)
    ensures Extends(t, u)
    ensures Finished(End(t).db, End(u).db, c)
  {
    var t1 := Serve1(t, CompleteCas(c));
    var t2 := Serve1(t1, CompleteInsert(c));
    u := Serve1(t2, CompleteCommit(c, true));
    ExtendsTransitive(t, t1, t2);
    ExtendsTransitive(t, t2, u);
    var calls := End(t).db.calls;
    assert End(u).db.calls == calls[c := Call(calls[c].op, calls[c].id, Done(Success))];
  }

  /** What an Update call that nobody disturbs makes of the tables. */
  ghost predicate Updated(db: Db, db': Db, c: CallId, id: Uuid, patch: Patch, now: Time)
    requires id in db.inspections
  {
    && db'.calls == db.calls[c := Call(Update(patch), id, Done(Success))]
    && db'.inspections ==
         db.inspections[id := UpdatedRow(db.inspections[id], Restamped(db.inspections[id], patch, now))]
    && db'.outbox == db.outbox && db'.nextOutboxId == db.nextOutboxId
  }

  function Restamped(row: Inspection, patch: Patch, now: Time): Inspection {
    Patched(row, patch).(updatedAt := now)
  }

  /** A new Update call reads, is stamped and writes, all at once. */
  lemma UpdateAtOnce(t: Trace, c: CallId, id: Uuid, patch: Patch, now: Time, uuid: Uuid) returns (u: Trace)
    requires c !in End(t).db.calls && id in End(t).db.inspections && !RowLocked(End(t).db, id) &&
      uuid !in End(t).db.uuids
    ensures Extends(t, u)
    ensures Updated(End(t).db, End(u).db, c, id, patch, now)
  {
    var db := End(t).db;
    var t1 := Read(t, c, Update(patch), id);
    var t2 := Stamped(t1, c, now, uuid);
    assert !RowLocked(End(t2).db, id) by {
      forall d | d in End(t2).db.calls && End(t2).db.calls[d].id == id ensures !InTransaction(End(t2).db.calls[d].pc) {
      }
    }
    u := Serve1(t2, UpdateWrite(c, true));
    ExtendsTransitive(t, t1, t2);
    ExtendsTransitive(t, t2, u);
    assert End(u).db.calls == db.calls[c := Call(Update(patch), id, Done(Success))];
  }

  function StampedDb(db: Db, c: CallId, now: Time): Db
    requires c in db.calls && db.calls[c].op.Update? && db.calls[c].pc.Loaded?
  {
    var call := db.calls[c];
    At(DrawStamp(db, call.id, now), c, call.op, call.id,
       Writing(Restamped(call.pc.row, call.op.patch, now), call.pc.row.updatedAt))
  }

  /** An Update call that has read is stamped. */
  lemma Stamped(t: Trace, c: CallId, now: Time, uuid: Uuid) returns (u: Trace)
    requires c in End(t).db.calls && End(t).db.calls[c].op.Update? && End(t).db.calls[c].pc.Loaded? &&
      uuid !in End(t).db.uuids
    ensures Extends(t, u)
    ensures End(u).db == StampedDb(End(t).db, c, now)
  {
    u := Serve1(t, Prepare(c, now, now, uuid));
  }

  ghost predicate AllBelow(uuids: set<Uuid>, u: Uuid) {
    forall v :: v in uuids ==> v < u
  }

  /** Some UUID was not drawn yet. */
  lemma {:induction false} FreshUuid(uuids: set<Uuid>) returns (u: Uuid)
    ensures AllBelow(uuids, u) && u !in uuids
  {
    if uuids == {} {
      u := 0;
    } else {
      var v :| v in uuids;
      var w := FreshUuid(uuids - {v});
      u := if v < w then w else v + 1;
      assert forall x :: x in uuids ==> x in uuids - {v} || x == v;
    }
  }
}
