/** The Postgres repository and the Redis deduplicator, statement by statement. */
module Repository {
  import opened Domain
  import opened Lifecycle
  import C = InboundConsumer
  import opened InspectService
  import opened CallHistory
  import opened World

  /** What GetByID returns: the row with its photos, or an error. */
  datatype Fetched = Found(row: Inspection, photos: seq<Photo>) | NotFetched(err: Result)

  class PostgresRepository {
    const world: Services

    constructor (world: Services)
      ensures this.world == world
    {
      this.world := world;
    }

    /** Without an error, created tells whether this very statement wrote the row: it did exactly if the
        request had no inspection right before. */
    method Create(insp: Inspection, now: Time) returns (created: bool, failed: bool, ghost did: C.Action)
      requires world.Valid() && world.reader.Creating? && insp.requestId == world.reader.job.requestId
      requires insp == NewInspection(insp.id, insp.requestId, now)
      modifies world
      ensures world.GoesOn() && world.committed == old(world.committed)
      ensures world.reader == if failed then C.Forgetting(old(world.reader.pos), old(world.reader.job))
        else C.Handled(old(world.reader.pos))
      ensures !failed ==> HasRequest(world.Tables(), insp.requestId)
      ensures !failed ==> world.trace.After? && (created <==> !HasRequest(End(world.trace.prev).db, insp.requestId))
      ensures created ==> !failed && insp.id in world.inspections && world.inspections[insp.id] == insp
      ensures world.ReaderDid(did) && did.Create? && did.ok == !failed
      ensures !failed ==> did == C.Create(insp.id, now, true, true)
    {
      var rows := world.InsertInspection(insp.id, insp.requestId, now);
      created := rows == Some(1);
      failed := rows.None?;
      did := C.Create(insp.id, now, true, true);
      if failed {
        ghost var i, applied :| world.ReaderDid(C.Create(i, now, applied, false));
        did := C.Create(i, now, applied, false);
      }
    }

    /** Two queries; anything may happen between them. The row is the one of the state after `read`, and
        NotFound means there was none; the photos are those of a later state. */
    method GetByID(c: CallId) returns (f: Fetched, ghost read: Trace, ghost listed: Trace)
      requires world.Valid() && c in world.calls && world.calls[c].pc == Begin
      modifies world
      ensures world.GoesOn() && world.ErrorIsReal(c)
      ensures c in world.calls && world.calls[c] == old(world.calls[c]).(pc :=
        match f
        case Found(row, photos) => Loaded(row, photos)
        case NotFetched(err) => Done(err))
      ensures f.NotFetched? ==> f.err in {ErrNotFound, ErrDatabase}
      ensures Continues(old(world.trace), read) && Continues(read, listed) && Continues(listed, world.trace)
      ensures f == NotFetched(ErrNotFound) ==> world.calls[c].id !in End(read).db.inspections
      ensures f.Found? ==>
        && JustRead(read, c) && CallAt(read, c).id == world.calls[c].id
        && world.calls[c].id in End(read).db.inspections && f.row == End(read).db.inspections[world.calls[c].id]
        && f.photos == PhotosOf(End(listed).db.photos, world.calls[c].id)
    {
      var row := world.SelectRow(c);
      read, listed := world.trace, world.trace;
      assert Extends(read, read);
      match row {
        case None => f := NotFetched(ErrDatabase);
        case Some(None) => f := NotFetched(ErrNotFound);
        case Some(Some(insp)) =>
          var photos := world.SelectPhotos(c);
          listed := world.trace;
          assert Extends(listed, listed);
          match photos {
            case None => f := NotFetched(ErrDatabase);
            case Some(ps) => f := Found(insp, ps);
          }
      }
    }

    method NotFoundOrConflict(c: CallId) returns (err: Result)
      requires world.Valid() && c in world.calls && world.calls[c].pc == Missed
      modifies world
      ensures world.GoesOn() && world.ErrorIsReal(c)
      ensures c in world.calls && world.calls[c] == old(world.calls[c]).(pc := Done(err))
      ensures err in {ErrNotFound, ErrConflict, ErrDatabase}
      ensures err == ErrConflict ==> world.calls[c].id in world.inspections
      ensures err == ErrNotFound ==> world.calls[c].id !in world.inspections
    {
      var found := world.SelectExists(c);
      err := match found
             case None => ErrDatabase
             case Some(b) => if b then ErrConflict else ErrNotFound;
    }

    /** The guarded three-column write. Success means exactly these columns are stored now. NotFound and
        Conflict mean that the guard did not match when it was `tried`, and tell whether there is a row. */
    method Update(c: CallId, insp: Inspection, prev: Time) returns (err: Result, ghost tried: Trace)
      requires world.Valid() && c in world.calls && world.calls[c].pc == Writing(insp, prev)
      modifies world
      ensures world.GoesOn() && world.ErrorIsReal(c)
      ensures c in world.calls && world.calls[c] == old(world.calls[c]).(pc := Done(err))
      ensures err == Success ==>
        var id := world.calls[c].id;
        && id in world.inspections
        && ColumnsOf(world.inspections[id]) == ColumnsOf(insp)
        && world.inspections[id].updatedAt == Stored(insp.updatedAt)
      ensures err != ErrInvalidStatus
      ensures Extends(old(world.trace), tried) && Extends(tried, world.trace)
      ensures err in {ErrNotFound, ErrConflict} ==>
        !GuardMatches(End(tried).db, world.calls[c].id, prev) &&
          (err == ErrConflict <==> world.calls[c].id in world.inspections)
    {
      var rows := world.UpdateRow(c);
      tried := world.trace;
      assert Extends(tried, tried);
      match rows {
        case None => err := ErrDatabase;
        case Some(n) =>
          if n == 0 {
            err := NotFoundOrConflict(c);
          } else {
            err := Success;
          }
      }
    }

    /** The transaction: guarded status flip, outbox insert, commit. Success means both are visible. NotFound
        and Conflict mean that the row was not scheduled when it was `tried`, and tell whether there is one. */
    method Complete(c: CallId, at: Time, event: Event) returns (err: Result, ghost tried: Trace)
      requires world.Valid() && c in world.calls && world.calls[c].pc == Completing(at, event)
      modifies world
      ensures world.GoesOn() && world.ErrorIsReal(c)
      ensures c in world.calls && world.calls[c] == old(world.calls[c]).(pc := Done(err))
      ensures err == Success ==>
        var id := world.calls[c].id;
        && IsCompleted(world.Tables(), id)
        && world.inspections[id].completedAt == Some(Stored(at))
        && world.outbox != [] && world.outbox[|world.outbox| - 1].payload == event
      ensures err != ErrInvalidStatus
      ensures Extends(old(world.trace), tried) && Extends(tried, world.trace)
      ensures err in {ErrNotFound, ErrConflict} ==>
        !IsScheduled(End(tried).db, world.calls[c].id) &&
          (err == ErrConflict <==> world.calls[c].id in world.inspections)
    {
      var rows := world.CasStatus(c);
      tried := world.trace;
      assert Extends(tried, tried);
      match rows {
        case None => err := ErrDatabase;
        case Some(n) =>
          if n == 0 {
            err := NotFoundOrConflict(c);
          } else {
            var inserted := world.InsertOutbox(c);
            if !inserted {
              err := ErrDatabase;
            } else {
              var ok := world.CommitTx(c);
              err := if ok then Success else ErrDatabase;
            }
          }
      }
    }

    method AddPhoto(c: CallId, photo: Photo) returns (err: Result)
      requires world.Valid() && c in world.calls && world.calls[c].pc == Adding(photo)
      modifies world
      ensures world.GoesOn() && world.ErrorIsReal(c)
      ensures c in world.calls && world.calls[c] == old(world.calls[c]).(pc := Done(err))
      ensures err == Success ==> Photo(photo.id, photo.inspectionId, Stored(photo.uploadedAt)) in world.photos
      ensures err in {Success, ErrDatabase}
    {
      var ok := world.InsertPhoto(c);
      err := if ok then Success else ErrDatabase;
    }
  }

  class Deduplicator {
    const world: Services

    constructor (world: Services)
      ensures this.world == world
    {
      this.world := world;
    }

    /** Claims the event; true means exactly that it was claimed before. None is an error. */
    method Seen(eventId: Uuid) returns (dup: Option<bool>, ghost did: C.Action)
      requires world.Valid() && world.reader.Checking? && eventId == world.reader.job.eventId
      modifies world
      ensures world.GoesOn() && world.committed == old(world.committed)
      ensures world.reader == match dup
                              case None => C.Stopped
                              case Some(true) => C.Handled(old(world.reader.pos))
                              case Some(false) => C.Creating(old(world.reader.pos), old(world.reader.job))
      ensures world.ReaderDid(did) && if dup.Some? then did == C.Seen(true, true) else did.Seen? && !did.ok
      ensures dup.Some? ==> eventId in world.marks
      ensures dup.Some? ==> world.trace.After? && (dup.value <==> eventId in End(world.trace.prev).consumer.marks)
    {
      var ok := world.SetNx(eventId);
      dup := match ok
             case None => None
             case Some(b) => Some(!b);
      did := C.Seen(true, true);
      if dup.None? {
        ghost var applied :| world.ReaderDid(C.Seen(applied, false));
        did := C.Seen(applied, false);
      }
    }

    /** Undoes the claim. */
    method Forget(eventId: Uuid) returns (failed: bool, ghost did: C.Action)
      requires world.Valid() && world.reader.Forgetting? && eventId == world.reader.job.eventId
      modifies world
      ensures world.GoesOn() && world.committed == old(world.committed)
      ensures world.reader == C.Stopped
      ensures world.ReaderDid(did) && if failed then did.Forget? && !did.ok else did == C.Forget(true, true)
      ensures !failed ==> eventId !in world.marks
    {
      var ok := world.Del(eventId);
      failed := !ok;
      did := C.Forget(true, true);
      if failed {
        ghost var applied :| world.ReaderDid(C.Forget(applied, false));
        did := C.Forget(applied, false);
      }
    }
  }
}
