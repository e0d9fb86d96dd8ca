/** The values of the inspection domain: rows, patches, photos and the
    completion event. Nothing here holds state. */
module Domain {

  datatype Option<+T> = None | Some(value: T)

  /** A UUID; the number 0 stands for the all-zero UUID. */
  type Uuid = nat
  const NIL_UUID: Uuid := 0

  /** A clock reading in nanoseconds. */
  type Time = nat

  /** What a timestamp column keeps of a clock reading: whole microseconds. */
  function Stored(t: Time): (r: Time)
    ensures r <= t < r + 1000
    ensures r % 1000 == 0
  {
    t - t % 1000
  }

  datatype Status = Scheduled | Completed

  /** A row of the inspections table. */
  datatype Inspection = Inspection(
    id: Uuid,
    requestId: Uuid,
    inspectorId: Option<Uuid>,
    status: Status,
    notes: Option<string>,
    propertyData: Option<string>,
    scheduledAt: Time,
    completedAt: Option<Time>,
    createdAt: Time,
    updatedAt: Time)

  /** A row of the inspection_photos table, without its object key. */
  datatype Photo = Photo(id: Uuid, inspectionId: Uuid, uploadedAt: Time)

  /** What the table keeps of a photo. */
  function StoredPhoto(p: Photo): Photo {
    p.(uploadedAt := Stored(p.uploadedAt))
  }

  /** The fields of an update; None means "leave as is". */
  datatype Patch = Patch(inspectorId: Option<Uuid>, notes: Option<string>, propertyData: Option<string>)

  /** The three columns an update may change. */
  datatype Columns = Columns(inspectorId: Option<Uuid>, notes: Option<string>, propertyData: Option<string>)

  function ColumnsOf(insp: Inspection): Columns {
    Columns(insp.inspectorId, insp.notes, insp.propertyData)
  }

  function ApplyPatch(c: Columns, p: Patch): Columns {
    Columns(
      if p.inspectorId.Some? then p.inspectorId else c.inspectorId,
      if p.notes.Some? then p.notes else c.notes,
      if p.propertyData.Some? then p.propertyData else c.propertyData)
  }

  /** The columns that result from a list of patches, applied first to last. */
  function FoldPatches(c: Columns, patches: seq<Patch>): Columns {
    if patches == [] then c
    else ApplyPatch(FoldPatches(c, patches[..|patches| - 1]), patches[|patches| - 1])
  }

  /** The in-memory inspection after the provided fields were overwritten. */
  function Patched(insp: Inspection, p: Patch): (r: Inspection)
    ensures ColumnsOf(r) == ApplyPatch(ColumnsOf(insp), p)
  {
    var a := if p.inspectorId.Some? then insp.(inspectorId := p.inspectorId) else insp;
    var b := if p.notes.Some? then a.(notes := p.notes) else a;
    if p.propertyData.Some? then b.(propertyData := p.propertyData) else b
  }

  /** The row a freshly scheduled request gets. */
  function NewInspection(id: Uuid, requestId: Uuid, now: Time): Inspection {
    Inspection(id, requestId, None, Scheduled, None, None, Stored(now), None, Stored(now), Stored(now))
  }

  const TOPIC_INSPECT_EVENTS := "inspect.events"
  const EVENT_TYPE_INSPECT_COMPLETED := "inspect.completed"
  const EVENT_VERSION := 1

  datatype CompletedData = CompletedData(
    inspectionId: Uuid,
    inspectorId: Option<Uuid>,
    completedAt: Time,
    photoCount: nat)

  datatype Event = Event(
    eventId: Uuid,
    eventType: string,
    version: nat,
    occurredAt: Time,
    requestId: Uuid,
    data: CompletedData)

  /** The envelope for a finished inspection. The fresh event id and the second
      clock reading are parameters. */
  function NewInspectCompletedEvent(insp: Inspection, photoCount: nat, eventId: Uuid, occurredAt: Time): Event {
    var completedAt := match insp.completedAt
                       case Some(at) => at
                       case None => insp.updatedAt;
    Event(eventId, EVENT_TYPE_INSPECT_COMPLETED, EVENT_VERSION, occurredAt, insp.requestId,
          CompletedData(insp.id, insp.inspectorId, completedAt, photoCount))
  }

  /** The event of a row without a completion time carries the row's stamp instead. */
  lemma EventOfOpenRow(insp: Inspection, photoCount: nat, eventId: Uuid, occurredAt: Time)
    requires insp.completedAt == None
    ensures NewInspectCompletedEvent(insp, photoCount, eventId, occurredAt).data.completedAt == insp.updatedAt
  {
  }

  /** A row of the outbox table without its published_at column, which the relay owns. */
  datatype OutboxRow = OutboxRow(
    id: nat,
    eventId: Uuid,
    topic: string,
    eventType: string,
    aggregateId: Uuid,
    payload: Event)

  function NewOutboxRow(id: nat, event: Event): OutboxRow {
    OutboxRow(id, event.eventId, TOPIC_INSPECT_EVENTS, event.eventType, event.requestId, event)
  }
}
