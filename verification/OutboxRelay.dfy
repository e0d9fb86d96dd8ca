/** The outbox relay: any number of pollers that read the lowest unpublished rows,
    publish each to Kafka and mark it, over the committed outbox rows. */
module OutboxRelay {
  import opened Domain

  const BATCH_SIZE := 100

  type RelayId = nat

  /** A message as Kafka accepted it. */
  datatype Record = Record(topic: string, key: Uuid, value: Event)

  function RecordOf(row: OutboxRow): Record {
    Record(row.topic, row.aggregateId, row.payload)
  }

  /** A relay between ticks, or inside one: its batch, the row it is at, and whether
      that row's publish was acknowledged but not yet marked. */
  datatype RelayPc =
    | Idle
    | Busy(batch: seq<OutboxRow>, next: nat, sent: bool)

  /** `published` holds the ids whose published_at is set. `stragglers` are rows that
      were published before, copies of which may still reach the log. */
  datatype RelayState = RelayState(
    published: set<nat>,
    log: seq<Record>,
    stragglers: set<OutboxRow>,
    relays: map<RelayId, RelayPc>)

  const FRESH_RELAYS := RelayState({}, [], {}, map[])

  /** `copies` is how many copies the brokers took; `ok` is what the caller was told.
      A failed statement may still have been applied. */
  datatype Action =
    | Query(r: RelayId)
    | QueryFails(r: RelayId)
    | Publish(r: RelayId, copies: nat, ok: bool)
    | Mark(r: RelayId, applied: bool, ok: bool)
    | Crash(r: RelayId)
    | Straggle(row: OutboxRow)

  function PcOf(s: RelayState, r: RelayId): RelayPc {
    if r in s.relays then s.relays[r] else Idle
  }

  function InsertById(rows: seq<OutboxRow>, row: OutboxRow): seq<OutboxRow> {
    if rows == [] || rows[|rows| - 1].id <= row.id then rows + [row]
    else InsertById(rows[..|rows| - 1], row) + [rows[|rows| - 1]]
  }

  /** ORDER BY id. */
  function SortById(rows: seq<OutboxRow>): seq<OutboxRow> {
    if rows == [] then [] else InsertById(SortById(rows[..|rows| - 1]), rows[|rows| - 1])
  }

  /** WHERE published_at IS NULL. */
  function Unpublished(rows: seq<OutboxRow>, published: set<nat>): seq<OutboxRow> {
    if rows == [] then []
    else
      (if rows[0].id in published then [] else [rows[0]]) + Unpublished(rows[1..], published)
  }

  /** The unpublished rows, lowest id first. */
  function Pending(rows: seq<OutboxRow>, published: set<nat>): seq<OutboxRow> {
    Unpublished(SortById(rows), published)
  }

  function Limit(rows: seq<OutboxRow>): seq<OutboxRow> {
    if |rows| <= BATCH_SIZE then rows else rows[..BATCH_SIZE]
  }

  predicate Enabled(s: RelayState, a: Action) {
    match a
    case Query(r) => PcOf(s, r).Idle?
    case QueryFails(r) => PcOf(s, r).Idle?
    case Publish(r, copies, ok) =>
      PcOf(s, r).Busy? && !PcOf(s, r).sent && PcOf(s, r).next < |PcOf(s, r).batch| && (ok ==> copies >= 1)
    case Mark(r, applied, ok) =>
      PcOf(s, r).Busy? && PcOf(s, r).sent && PcOf(s, r).next < |PcOf(s, r).batch| && (ok ==> applied)
    case Crash(r) => true
    case Straggle(row) => row in s.stragglers
  }

  function SetPc(s: RelayState, r: RelayId, pc: RelayPc): RelayState {
    s.(relays := s.relays[r := pc])
  }

  /** The relay is at row `next` of its batch, or its tick is over. */
  function AtRow(batch: seq<OutboxRow>, next: nat): RelayPc {
    if next < |batch| then Busy(batch, next, false) else Idle
  }

  function Step(rows: seq<OutboxRow>, s: RelayState, a: Action): RelayState
    requires Enabled(s, a)
  {
    match a
    case Query(r) => SetPc(s, r, AtRow(Limit(Pending(rows, s.published)), 0))
    case QueryFails(r) => s
    case Publish(r, copies, ok) =>
      var Busy(batch, next, _) := PcOf(s, r);
      SetPc(s.(log := s.log + seq(copies, _ => RecordOf(batch[next])), stragglers := s.stragglers + {batch[next]}),
            r, if ok then Busy(batch, next, true) else Idle)
    case Mark(r, applied, ok) =>
      var Busy(batch, next, _) := PcOf(s, r);
      var marked := if applied then s.(published := s.published + {batch[next].id}) else s;
      SetPc(marked, r, if ok then AtRow(batch, next + 1) else Idle)
    case Crash(r) => SetPc(s, r, Idle)
    case Straggle(row) => s.(log := s.log + [RecordOf(row)])
  }
}
