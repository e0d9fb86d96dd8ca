/** The service calls: read, decide, write, with everybody else in between. */
module Service {
  import opened Domain
  import opened Lifecycle
  import LI = LifecycleInvariant
  import C = InboundConsumer
  import opened InspectService
  import opened CallHistory
  import opened World
  import opened Repository
  import Completion
  import Updates

  /** What the answer of a call says about the state `read` in which it looked for its row. */
  ghost predicate AnswersRead(read: Trace, id: Uuid, op: Op, err: Result) {
    && (err == ErrNotFound ==> id !in End(read).db.inspections)
    && (err == ErrInvalidStatus ==> IsCompleted(End(read).db, id))
    && (err in {Success, ErrConflict} ==>
          id in End(read).db.inspections && (op.Update? || IsScheduled(End(read).db, id)))
  }

  lemma ReadDecides(read: Trace, t: Trace, c: CallId)
    requires JustRead(read, c) && Extends(read, t)
    requires c in End(t).db.calls && CallAt(t, c).pc.Done?
    ensures AnswersRead(read, CallAt(t, c).id, CallAt(t, c).op, CallAt(t, c).pc.result)
  {
    KeepsOrigin(read, t, c);
    ReadsTheRow(read, c);
  }

  /** An Update call that is told Conflict was overtaken since it read. */
  lemma ConflictNeedsAWrite(read: Trace, t: Trace, c: CallId)
    requires JustRead(read, c) && Extends(read, t)
    requires c in End(t).db.calls && CallAt(t, c).op.Update? && CallAt(t, c).pc.Done?
    ensures CallAt(t, c).pc.result == ErrConflict ==> exists v :: Updates.WriteBetween(read, v, t, CallAt(t, c).id)
  {
    if CallAt(t, c).pc.result == ErrConflict {
      Updates.MissWasOverwritten(read, t, c, CallAt(t, c).id);
    }
  }

  /** What a successful update answers and stores: each field that the patch names, the other fields as the
      call read them, the identity of the row, and the new stamp at the resolution of its column. */
  predicate Applies(patch: Patch, before: Inspection, stored: Inspection, answer: Inspection) {
    && answer.inspectorId == stored.inspectorId
    && answer.inspectorId == (if patch.inspectorId.Some? then patch.inspectorId else before.inspectorId)
    && answer.notes == stored.notes
    && answer.notes == (if patch.notes.Some? then patch.notes else before.notes)
    && answer.propertyData == stored.propertyData
    && answer.propertyData == (if patch.propertyData.Some? then patch.propertyData else before.propertyData)
    && answer.id == stored.id == before.id
    && answer.requestId == stored.requestId == before.requestId
    && answer.createdAt == stored.createdAt == before.createdAt
    && answer.scheduledAt == stored.scheduledAt == before.scheduledAt
    && answer.status == before.status && answer.completedAt == before.completedAt
    && stored.updatedAt == Stored(answer.updatedAt)
  }

  /** A row is still the one that the call read, as far as its identity goes. */
  lemma RowKeepsIdentity(read: Trace, t: Trace, c: CallId)
    requires JustRead(read, c) && Extends(read, t)
    requires c in End(t).db.calls
    ensures CallAt(t, c).id == CallAt(read, c).id && CallAt(t, c).id in End(t).db.inspections
    ensures var row, now := CallAt(read, c).pc.row, End(t).db.inspections[CallAt(t, c).id];
      && now.id == row.id && now.requestId == row.requestId
      && now.createdAt == row.createdAt && now.scheduledAt == row.scheduledAt
  {
    KeepsOrigin(read, t, c);
    ReadsTheRow(read, c);
    RowPersists(read, t, CallAt(read, c).id);
  }

  /** The clock, and what the code has read from it. */
  class Clock {
    var readings: seq<Time>

    constructor ()
      ensures readings == []
    {
      readings := [];
    }

    method Now() returns (t: Time)
      modifies this
      ensures readings == old(readings) + [t]
    {
      t :| 0 <= t;
      readings := readings + [t];
    }

    /** This is a reading that was not among the first n. */
    predicate ReadSince(n: nat, t: Time)
      reads this
    {
      exists i :: n <= i < |readings| && readings[i] == t
    }

    /** And these are two of them, in this order. */
    predicate BothReadSince(n: nat, t: Time, u: Time)
      reads this
    {
      exists i, j :: n <= i < j < |readings| && readings[i] == t && readings[j] == u
    }
  }

  class InspectionService {
    const world: Services
    const repo: PostgresRepository
    const clock: Clock

    constructor (world: Services, repo: PostgresRepository, clock: Clock)
      requires repo.world == world
      ensures this.world == world && this.repo == repo && this.clock == clock
    {
      this.world := world;
      this.repo := repo;
      this.clock := clock;
    }

    predicate Wired() {
      repo.world == world
    }

    /** This insert wrote a scheduled row for the request, stamped throughout by one reading of the clock. */
    ghost predicate CreatedRow(did: C.Action, requestId: Uuid, since: nat)
      requires did.Create?
      reads world, clock
    {
      && clock.ReadSince(since, did.now) && did.id in world.inspections
      && world.inspections[did.id] ==
           Inspection(did.id, requestId, None, Scheduled, None, None, Stored(did.now), None, Stored(did.now),
                      Stored(did.now))
    }

    method CreateFromRequest(requestId: Uuid) returns (created: bool, failed: bool, ghost did: C.Action)
      requires Wired() && world.Valid() && world.reader.Creating? && requestId == world.reader.job.requestId
      modifies world, clock
      ensures world.GoesOn() && world.committed == old(world.committed)
      ensures world.reader == if failed then C.Forgetting(old(world.reader.pos), old(world.reader.job))
        else C.Handled(old(world.reader.pos))
      ensures !failed ==> requestId in Requests(world.Tables())
      ensures !failed ==> world.trace.After? && (created <==> requestId !in Requests(End(world.trace.prev).db))
      ensures world.ReaderDid(did) && did.Create? && did.ok == !failed
      ensures created ==> !failed && CreatedRow(did, requestId, |old(clock.readings)|)
    {
      var now := clock.Now();
      var id := world.NewUuid();
      created, failed, did := repo.Create(NewInspection(id, requestId, now), now);
      assert clock.readings[|old(clock.readings)|] == now;
    }

    /** On success the stored columns are the returned ones, and, as long as no update met a stamp that was
        stored again, what all updates so far that passed the guard make of them in commit order. NotFound
        means there was no such row; Conflict, that somebody wrote it after this call's read. */
    method Update(c: CallId, id: Uuid, patch: Patch)
      returns (updated: Option<Inspection>, err: Result, ghost read: Trace)
      requires Wired() && world.Valid() && c !in world.calls
      modifies world, clock
      ensures world.GoesOn() && world.ErrorIsReal(c)
      ensures c in world.calls && world.calls[c] == Call(Op.Update(patch), id, Done(err))
      ensures updated.Some? <==> err == Success
      ensures Extends(old(world.trace), read) && Extends(read, world.trace)
      ensures AnswersRead(read, id, Op.Update(patch), err)
      ensures err == Success ==>
        && id in world.inspections
        && Applies(patch, End(read).db.inspections[id], world.inspections[id], updated.value)
        && clock.ReadSince(|old(clock.readings)|, updated.value.updatedAt)
      ensures err == Success && Updates.NoStampReused(world.trace, id) ==>
        ColumnsOf(updated.value) == FoldPatches(Updates.NO_COLUMNS, Updates.PatchesOf(world.trace, id))
      ensures err != ErrInvalidStatus
      ensures err == ErrConflict ==> exists v :: Updates.WriteBetween(read, v, world.trace, id)
    {
      world.BeginCall(c, Op.Update(patch), id);
      ghost var listed;
      var fetched;
      fetched, read, listed := repo.GetByID(c);
      if fetched.NotFetched? {
        return None, fetched.err, read;
      }
      var insp;
      insp, err := Write(c, patch, fetched.row, read);
      updated := if err == Success then Some(insp) else None;
    }

    /** The same, once the row was read. */
    method Write(c: CallId, patch: Patch, row: Inspection, ghost read: Trace) returns (insp: Inspection, err: Result)
      requires Wired() && world.Valid() && c in world.calls && world.calls[c].op == Op.Update(patch)
      requires world.calls[c].pc.Loaded? && world.calls[c].pc.row == row
      requires JustRead(read, c) && Extends(read, world.trace) && CallAt(read, c).pc.row == row
      modifies world, clock
      ensures world.GoesOn() && world.ErrorIsReal(c)
      ensures c in world.calls && world.calls[c] == old(world.calls[c]).(pc := Done(err))
      ensures AnswersRead(read, world.calls[c].id, Op.Update(patch), err)
      ensures err == Success ==>
        var id := world.calls[c].id;
        && id in world.inspections && Applies(patch, row, world.inspections[id], insp)
        && clock.ReadSince(|old(clock.readings)|, insp.updatedAt)
        && (Updates.NoStampReused(world.trace, id) ==>
              ColumnsOf(insp) == FoldPatches(Updates.NO_COLUMNS, Updates.PatchesOf(world.trace, id)))
      ensures err != ErrInvalidStatus
      ensures err == ErrConflict ==> exists v :: Updates.WriteBetween(read, v, world.trace, world.calls[c].id)
    {
      insp := PatchFields(row, patch);
      var prevUpdatedAt := insp.updatedAt;
      var now := clock.Now();
      insp := insp.(updatedAt := now);
      world.NoteUpdate(c, now);
      ghost var tried;
      err, tried := repo.Update(c, insp, prevUpdatedAt);
      ReadDecides(read, world.trace, c);
      ConflictNeedsAWrite(read, world.trace, c);
      if err == Success {
        assert clock.readings[|old(clock.readings)|] == now;
        RowKeepsIdentity(read, world.trace, c);
        SerialUnlessReused(world.trace, world.calls[c].id);
      }
    }

    /** What the answer of a Complete call says about the tables. */
    ghost predicate CompleteMeans(id: Uuid, completed: Option<Inspection>, err: Result)
      reads world, clock
    {
      && (err in {Success, ErrInvalidStatus, ErrConflict} ==>
            IsCompleted(world.Tables(), id) && |Completion.RowsFor(world.outbox, id)| == 1)
      && (err == Success && completed.Some? ==>
            && completed.value.completedAt.Some?
            && world.inspections[id].completedAt == Some(Stored(completed.value.completedAt.value))
            && world.outbox != []
            && world.outbox[|world.outbox| - 1].payload.data.inspectionId == id
            && world.outbox[|world.outbox| - 1].payload.data.completedAt == completed.value.completedAt.value)
    }

    /** What a successful Complete call answers: the row it read, completed and stamped by one reading of the
        clock; a later one is the time of the event. */
    ghost predicate CompletesRow(row: Inspection, answer: Inspection, since: nat)
      reads world, clock
    {
      && answer.status == Completed && answer.completedAt == Some(answer.updatedAt)
      && answer == row.(status := answer.status, completedAt := answer.completedAt, updatedAt := answer.updatedAt)
      && world.outbox != []
      && clock.BothReadSince(since, answer.updatedAt, world.outbox[|world.outbox| - 1].payload.occurredAt)
    }

    /** On success the inspection is completed at the returned time, and one outbox row carries
        it; a refusal means that it was completed when this call read it, a conflict that it has been
        completed by another call since. */
    method Complete(c: CallId, id: Uuid) returns (completed: Option<Inspection>, err: Result, ghost read: Trace)
      requires Wired() && world.Valid() && c !in world.calls
      modifies world, clock
      ensures world.GoesOn() && world.ErrorIsReal(c)
      ensures c in world.calls && world.calls[c] == Call(Op.Complete, id, Done(err))
      ensures (completed.Some? <==> err == Success) && CompleteMeans(id, completed, err)
      ensures Extends(old(world.trace), read) && Extends(read, world.trace) && AnswersRead(read, id, Op.Complete, err)
      ensures err == Success ==>
        CompletesRow(End(read).db.inspections[id], completed.value, |old(clock.readings)|)
    {
      world.BeginCall(c, Op.Complete, id);
      ghost var listed;
      var fetched;
      fetched, read, listed := repo.GetByID(c);
      if fetched.NotFetched? {
        return None, fetched.err, read;
      }
      completed, err := CompleteFetched(c, id, fetched.row, fetched.photos);
      ReadDecides(read, world.trace, c);
    }

    /** The same, once the row and its photos were read. */
    method CompleteFetched(c: CallId, id: Uuid, row: Inspection, photos: seq<Photo>)
      returns (completed: Option<Inspection>, err: Result)
      requires Wired() && world.Valid() && c in world.calls &&
        world.calls[c] == Call(Op.Complete, id, Loaded(row, photos))
      modifies world, clock
      ensures world.GoesOn() && world.ErrorIsReal(c)
      ensures c in world.calls && world.calls[c] == Call(Op.Complete, id, Done(err))
      ensures (completed.Some? <==> err == Success) && CompleteMeans(id, completed, err)
      ensures err == Success ==> CompletesRow(row, completed.value, |old(clock.readings)|)
    {
      var insp := row;
      if insp.status != Scheduled {
        world.NoteRefusal(c);
        OutcomeIsCompleted(world.trace, c, id);
        return None, ErrInvalidStatus;
      }
      var completedAt := clock.Now();
      insp := insp.(status := Completed, completedAt := Some(completedAt), updatedAt := completedAt);
      var eventId := world.NewUuid();
      var occurredAt := clock.Now();
      var event := NewInspectCompletedEvent(insp, |photos|, eventId, occurredAt);
      world.NoteEvent(c, completedAt, event);
      EventIsOfCall(world.trace, c);
      ghost var tried;
      err, tried := repo.Complete(c, completedAt, event);
      if err in {Success, ErrConflict} {
        OutcomeIsCompleted(world.trace, c, id);
      }
      if err != Success {
        return None, err;
      }
      ghost var n := |old(clock.readings)|;
      assert clock.readings[n] == completedAt && clock.readings[n + 1] == occurredAt;
      return Some(insp), Success;
    }

    /** On success the photo is stored, although by then the inspection may be completed: the answer
        speaks of the state in which this call read it. */
    method AddPhoto(c: CallId, id: Uuid) returns (photo: Option<Photo>, err: Result, ghost read: Trace)
      requires Wired() && world.Valid() && c !in world.calls
      modifies world, clock
      ensures world.GoesOn() && world.ErrorIsReal(c)
      ensures c in world.calls && world.calls[c] == Call(Op.AddPhoto, id, Done(err))
      ensures photo.Some? <==> err == Success
      ensures err == Success ==>
        && photo.value.inspectionId == id
        && Photo(photo.value.id, id, Stored(photo.value.uploadedAt)) in world.photos
        && clock.ReadSince(|old(clock.readings)|, photo.value.uploadedAt)
      ensures err != ErrConflict
      ensures Extends(old(world.trace), read) && Extends(read, world.trace) && AnswersRead(read, id, Op.AddPhoto, err)
    {
      world.BeginCall(c, Op.AddPhoto, id);
      ghost var listed;
      var fetched;
      fetched, read, listed := repo.GetByID(c);
      if fetched.NotFetched? {
        return None, fetched.err, read;
      }
      photo, err := Register(c, id, fetched.row, read);
    }

    /** The same, once the row was read. */
    method Register(c: CallId, id: Uuid, row: Inspection, ghost read: Trace)
      returns (photo: Option<Photo>, err: Result)
      requires Wired() && world.Valid() && c in world.calls && world.calls[c].op == Op.AddPhoto
      requires world.calls[c].id == id && world.calls[c].pc.Loaded? && world.calls[c].pc.row == row
      requires JustRead(read, c) && Extends(read, world.trace)
      modifies world, clock
      ensures world.GoesOn() && world.ErrorIsReal(c)
      ensures c in world.calls && world.calls[c] == Call(Op.AddPhoto, id, Done(err))
      ensures photo.Some? <==> err == Success
      ensures err == Success ==>
        && photo.value.inspectionId == id
        && Photo(photo.value.id, id, Stored(photo.value.uploadedAt)) in world.photos
        && clock.ReadSince(|old(clock.readings)|, photo.value.uploadedAt)
      ensures err != ErrConflict
      ensures AnswersRead(read, id, Op.AddPhoto, err)
    {
      if row.status != Scheduled {
        world.NoteRefusal(c);
        ReadDecides(read, world.trace, c);
        return None, ErrInvalidStatus;
      }
      var presigned := world.Presign(c);
      if !presigned {
        return None, ErrDatabase;
      }
      var photoId := world.NewUuid();
      ghost var n := |clock.readings|;
      var now := clock.Now();
      var p := Photo(photoId, id, now);
      world.NotePhoto(c, p);
      err := repo.AddPhoto(c, p);
      ReadDecides(read, world.trace, c);
      if err != Success {
        return None, err;
      }
      assert p.uploadedAt == clock.readings[n];
      photo := Some(p);
    }
  }

  /** The in-memory row, field by field. */
  method PatchFields(row: Inspection, patch: Patch) returns (insp: Inspection)
    ensures insp == Patched(row, patch)
  {
    insp := row;
    if patch.inspectorId.Some? {
      insp := insp.(inspectorId := patch.inspectorId);
    }
    if patch.notes.Some? {
      insp := insp.(notes := patch.notes);
    }
    if patch.propertyData.Some? {
      insp := insp.(propertyData := patch.propertyData);
    }
  }

  lemma SerialUnlessReused(t: Trace, id: Uuid)
    requires id in End(t).db.inspections
    ensures Updates.NoStampReused(t, id) ==>
      ColumnsOf(End(t).db.inspections[id]) == FoldPatches(Updates.NO_COLUMNS, Updates.PatchesOf(t, id))
  {
    if Updates.NoStampReused(t, id) {
      Updates.UpdatesAreSerial(t, id);
    }
  }

  lemma OutcomeIsCompleted(t: Trace, c: CallId, id: Uuid)
    requires c in End(t).db.calls && End(t).db.calls[c].op.Complete? && End(t).db.calls[c].id == id
    requires End(t).db.calls[c].pc in {Done(Success), Done(ErrInvalidStatus), Done(ErrConflict)}
    ensures IsCompleted(End(t).db, id) && |Completion.RowsFor(End(t).db.outbox, id)| == 1
  {
    Reachable(t);
    assert LI.CallOk(End(t).db, End(t).db.calls[c]);
    Completion.Atomicity(t);
  }

  lemma EventIsOfCall(t: Trace, c: CallId)
    requires c in End(t).db.calls && End(t).db.calls[c].pc.Completing?
    ensures End(t).db.calls[c].pc.event.data.inspectionId == End(t).db.calls[c].id
    ensures End(t).db.calls[c].pc.event.data.completedAt == End(t).db.calls[c].pc.at
  {
    Reachable(t);
    assert LI.CallOk(End(t).db, End(t).db.calls[c]);
  }
}
