/** The consumer of request events: one partition, one active reader, a set of
    expiring dedup marks, and a committed offset. */
module InboundConsumer {
  import opened Domain

  const EVENT_TYPE_REQUEST_STATUS_CHANGED := "request.status_changed"
  const STATUS_INSPECTION_SCHEDULED := "inspection_scheduled"

  datatype Data = Unreadable | StatusChanged(newStatus: string)

  /** A decoded inbound message. */
  datatype Message =
    | Malformed
    | Envelope(eventId: Uuid, eventType: string, requestId: Uuid, data: Data)

  /** What a relevant message asks for. */
  datatype Job = Job(eventId: Uuid, requestId: Uuid)

  /** What a message must be to ask for an inspection. */
  predicate Relevant(m: Message) {
    && m.Envelope? && m.eventType == "request.status_changed" && m.eventId != 0
    && m.data == StatusChanged("inspection_scheduled")
  }

  /** The filters in front of the dedup check, in order. */
  function Decode(m: Message): Option<Job> {
    match m
    case Malformed => None
    case Envelope(eventId, eventType, requestId, data) =>
      if eventType != EVENT_TYPE_REQUEST_STATUS_CHANGED then None
      else if eventId == NIL_UUID then None
      else match data
        case Unreadable => None
        case StatusChanged(newStatus) =>
          if newStatus != STATUS_INSPECTION_SCHEDULED then None else Some(Job(eventId, requestId))
  }

  /** The filters let through exactly the relevant messages. */
  lemma DecodeIsRelevant(m: Message)
    ensures if Relevant(m) then Decode(m) == Some(Job(m.eventId, m.requestId)) else Decode(m) == None
  {
  }

  /** Where the reader stands. */
  datatype Pc =
    | Stopped
    | Polling(pos: nat)
    | Checking(pos: nat, job: Job)     // decoded, about to call Seen
    | Creating(pos: nat, job: Job)     // Seen claimed the event
    | Forgetting(pos: nat, job: Job)   // Create failed, about to undo the mark
    | Handled(pos: nat)                // process returned nil, about to commit

  datatype ConsumerState = ConsumerState(inbound: seq<Message>, committed: nat, marks: set<Uuid>, pc: Pc)

  const FRESH_CONSUMER := ConsumerState([], 0, {}, Stopped)

  /** `applied` tells whether the remote side performed the command, `ok` whether
      the caller was told so. */
  datatype Action =
    | Produce(m: Message)
    | Start
    | Fetch
    | FetchFails
    | Seen(applied: bool, ok: bool)
    | Create(id: Uuid, now: Time, applied: bool, ok: bool)
    | Forget(applied: bool, ok: bool)
    | Commit(applied: bool, ok: bool)
    | Expire(eventId: Uuid)
    | Crash

  /** An event id determines what its message asks for. */
  predicate Consistent(inbound: seq<Message>) {
    forall j, k :: 0 <= j < |inbound| && 0 <= k < |inbound| &&
      Decode(inbound[j]).Some? && Decode(inbound[k]).Some? &&
      Decode(inbound[j]).value.eventId == Decode(inbound[k]).value.eventId
      ==> Decode(inbound[j]) == Decode(inbound[k])
  }

  predicate Enabled(s: ConsumerState, a: Action) {
    match a
    case Produce(m) => Consistent(s.inbound + [m])
    case Start => s.pc.Stopped?
    case Fetch => s.pc.Polling? && s.pc.pos < |s.inbound|
    case FetchFails => s.pc.Polling?
    case Seen(applied, ok) => s.pc.Checking? && (ok ==> applied)
    case Create(_, _, applied, ok) => s.pc.Creating? && (ok ==> applied)
    case Forget(applied, ok) => s.pc.Forgetting? && (ok ==> applied)
    case Commit(applied, ok) => s.pc.Handled? && (ok ==> applied)
    case Expire(e) => e in s.marks
    case Crash => !s.pc.Stopped?
  }

  function Step(s: ConsumerState, a: Action): ConsumerState
    requires Enabled(s, a)
  {
    match a
    case Produce(m) => s.(inbound := s.inbound + [m])
    case Start => s.(pc := Polling(s.committed))
    case Fetch =>
      var pos := s.pc.pos;
      s.(pc := match Decode(s.inbound[pos])
               case None => Handled(pos)
               case Some(job) => Checking(pos, job))
    case FetchFails => s.(pc := Stopped)
    case Seen(applied, ok) =>
      var Checking(pos, job) := s.pc;
      var dup := job.eventId in s.marks;
      s.(marks := if applied then s.marks + {job.eventId} else s.marks,
         pc := if !ok then Stopped else if dup then Handled(pos) else Creating(pos, job))
    case Create(_, _, _, ok) =>
      s.(pc := if ok then Handled(s.pc.pos) else Forgetting(s.pc.pos, s.pc.job))
    case Forget(applied, _) =>
      s.(marks := if applied then s.marks - {s.pc.job.eventId} else s.marks, pc := Stopped)
    case Commit(applied, ok) =>
      var next := s.pc.pos + 1;
      s.(committed := if applied then next else s.committed, pc := if ok then Polling(next) else Stopped)
    case Expire(e) => s.(marks := s.marks - {e})
    case Crash => s.(pc := Stopped)
  }

  predicate Processing(pc: Pc) {
    pc.Checking? || pc.Creating? || pc.Forgetting?
  }

  /** The mark a step leaves behind when processing ends although the request has
      no inspection: redelivery will take the event for a duplicate. */
  function OrphanedBy(s: ConsumerState, s': ConsumerState, created': set<Uuid>): set<Uuid> {
    if Processing(s.pc) && s'.pc.Stopped? && s.pc.job.eventId in s'.marks && s.pc.job.requestId !in created'
    then {s.pc.job.eventId} else {}
  }
}
