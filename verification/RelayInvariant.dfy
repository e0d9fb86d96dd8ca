/** What the relays keep: everything published comes from a committed row, every
    mark follows a publish, and rows are first published in id order. */
module RelayInvariant {
  import opened Domain
  import opened OutboxRelay

  ghost predicate SortedById(rows: seq<OutboxRow>) {
    forall i, j :: 0 <= i < j < |rows| ==> rows[i].id < rows[j].id
  }

  ghost predicate DistinctIds(rows: seq<OutboxRow>) {
    forall i, j :: 0 <= i < j < |rows| ==> rows[i].id != rows[j].id
  }

  ghost predicate DistinctEvents(rows: seq<OutboxRow>) {
    forall i, j :: 0 <= i < j < |rows| ==> rows[i].payload.eventId != rows[j].payload.eventId
  }

  // ----- the query -----

  lemma {:induction false} InsertByIdSorts(rows: seq<OutboxRow>, row: OutboxRow)
    requires SortedById(rows) && forall r :: r in rows ==> r.id != row.id
    ensures SortedById(InsertById(rows, row))
    ensures forall r :: r in InsertById(rows, row) <==> r in rows || r == row
    ensures |InsertById(rows, row)| == |rows| + 1
  {
    if rows != [] && rows[|rows| - 1].id > row.id {
      var front := rows[..|rows| - 1];
      assert rows == front + [rows[|rows| - 1]];
      InsertByIdSorts(front, row);
      var inner := InsertById(front, row);
      forall i | 0 <= i < |inner| ensures inner[i].id < rows[|rows| - 1].id {
        assert inner[i] in inner;
      }
    }
  }

  lemma {:induction false} SortByIdSorts(rows: seq<OutboxRow>)
    requires DistinctIds(rows)
    ensures SortedById(SortById(rows))
    ensures forall r :: r in SortById(rows) <==> r in rows
    ensures |SortById(rows)| == |rows|
  {
    if rows != [] {
      var n := |rows| - 1;
      assert rows == rows[..n] + [rows[n]];
      SortByIdSorts(rows[..n]);
      InsertByIdSorts(SortById(rows[..n]), rows[n]);
    }
  }

  lemma {:induction false} UnpublishedSelects(rows: seq<OutboxRow>, published: set<nat>)
    requires SortedById(rows)
    ensures SortedById(Unpublished(rows, published))
    ensures forall r :: r in Unpublished(rows, published) <==> r in rows && r.id !in published
  {
    if rows != [] {
      assert rows == [rows[0]] + rows[1..];
      UnpublishedSelects(rows[1..], published);
      var rest := Unpublished(rows[1..], published);
      forall i | 0 <= i < |rest| ensures rows[0].id < rest[i].id {
        assert rest[i] in rows[1..];
      }
    }
  }

  /** The query returns exactly the unpublished rows, strictly ordered by id. */
  lemma PendingIs(rows: seq<OutboxRow>, published: set<nat>)
    requires DistinctIds(rows)
    ensures SortedById(Pending(rows, published))
    ensures forall r :: r in Pending(rows, published) <==> r in rows && r.id !in published
  {
    SortByIdSorts(rows);
    UnpublishedSelects(SortById(rows), published);
  }

  /** A batch is the lowest unpublished rows, at most 100 of them, and all of them if there are fewer. */
  lemma BatchIs(rows: seq<OutboxRow>, published: set<nat>)
    requires DistinctIds(rows)
    ensures var batch := Limit(Pending(rows, published));
      && SortedById(batch) && |batch| <= 100
      && (forall r :: r in batch ==> r in rows && r.id !in published)
      && (forall r :: r in rows && r.id !in published && r !in batch ==>
            |batch| == 100 && forall i :: 0 <= i < |batch| ==> batch[i].id < r.id)
  {
    PendingIs(rows, published);
    var pending, batch := Pending(rows, published), Limit(Pending(rows, published));
    forall r | r in rows && r.id !in published && r !in batch
      ensures |batch| == 100 && forall i :: 0 <= i < |batch| ==> batch[i].id < r.id
    {
      assert r in pending;
      var k :| 0 <= k < |pending| && pending[k] == r;
      assert forall i :: 0 <= i < |batch| ==> batch[i] == pending[i];
    }
  }

  // ----- the invariant -----

  ghost predicate FromRows(rows: seq<OutboxRow>, rec: Record) {
    exists k :: 0 <= k < |rows| && RecordOf(rows[k]) == rec
  }

  ghost predicate HasId(rows: seq<OutboxRow>, id: nat) {
    exists k :: 0 <= k < |rows| && rows[k].id == id
  }

  ghost predicate LogOk(rows: seq<OutboxRow>, s: RelayState) {
    && (forall n :: 0 <= n < |s.log| ==> FromRows(rows, s.log[n]))
    && (forall row :: row in s.stragglers ==> row in rows)
    && (forall id :: id in s.published ==> HasId(rows, id))
    && (forall k :: 0 <= k < |rows| && rows[k].id in s.published ==> RecordOf(rows[k]) in s.log)
  }

  ghost predicate BatchOk(rows: seq<OutboxRow>, log: seq<Record>, pc: RelayPc) {
    pc.Busy? ==>
      && pc.next < |pc.batch| <= BATCH_SIZE
      && SortedById(pc.batch)
      && (forall m :: 0 <= m < |pc.batch| ==> pc.batch[m] in rows)
      && (pc.sent ==> RecordOf(pc.batch[pc.next]) in log)
  }

  ghost predicate RelaysOk(rows: seq<OutboxRow>, s: RelayState) {
    forall r :: r in s.relays ==> BatchOk(rows, s.log, s.relays[r])
  }

  /** Every copy of q has a copy of p before it. */
  ghost predicate CopiesFollow(log: seq<Record>, p: Record, q: Record) {
    forall n :: 0 <= n < |log| && log[n] == q ==> p in log[..n]
  }

  /** A relay that is to publish q has p in the log already, or ahead of q in its batch. */
  ghost predicate BatchFollows(log: seq<Record>, pc: RelayPc, p: OutboxRow, q: OutboxRow) {
    pc.Busy? ==> forall m :: pc.next <= m < |pc.batch| && pc.batch[m] == q ==>
      RecordOf(p) in log || p in pc.batch[pc.next..m]
  }

  /** p goes out before q. */
  ghost predicate InOrder(s: RelayState, p: OutboxRow, q: OutboxRow) {
    && CopiesFollow(s.log, RecordOf(p), RecordOf(q))
    && (q in s.stragglers ==> RecordOf(p) in s.log)
    && (forall r :: r in s.relays ==> BatchFollows(s.log, s.relays[r], p, q))
  }

  ghost predicate OrderOk(rows: seq<OutboxRow>, s: RelayState) {
    forall j, k :: 0 <= j < k < |rows| && rows[j].id < rows[k].id ==> InOrder(s, rows[j], rows[k])
  }

  ghost predicate Inv(rows: seq<OutboxRow>, s: RelayState) {
    && LogOk(rows, s)
    && RelaysOk(rows, s)
    && OrderOk(rows, s)
  }

  // ----- every step keeps it -----

  lemma RecordsDiffer(rows: seq<OutboxRow>, j: nat, k: nat)
    requires DistinctEvents(rows) && j < |rows| && k < |rows| && RecordOf(rows[j]) == RecordOf(rows[k])
    ensures j == k
  {
    assert RecordOf(rows[j]).value.eventId == RecordOf(rows[k]).value.eventId;
  }

  lemma LimitIsPrefix(rows: seq<OutboxRow>)
    ensures Limit(rows) <= rows && |Limit(rows)| <= BATCH_SIZE
  {
  }

  lemma QueryKeepsInv(rows: seq<OutboxRow>, s: RelayState, a: Action)
    requires Inv(rows, s) && DistinctIds(rows) && Enabled(s, a) && a.Query?
    ensures Inv(rows, Step(rows, s, a))
  {
    var s' := Step(rows, s, a);
    var pending := Pending(rows, s.published);
    var batch := Limit(pending);
    PendingIs(rows, s.published);
    LimitIsPrefix(pending);
    forall m | 0 <= m < |batch| ensures batch[m] in rows {
      assert batch[m] == pending[m] && pending[m] in pending;
    }
    forall j, k | 0 <= j < k < |rows| && rows[j].id < rows[k].id ensures InOrder(s', rows[j], rows[k]) {
      assert InOrder(s, rows[j], rows[k]);
      QueryFollows(rows, s, batch, rows[j], rows[k]);
    }
  }

  /** A snapshot that holds q and sees p has p published, or holds p before q. */
  lemma QueryFollows(rows: seq<OutboxRow>, s: RelayState, batch: seq<OutboxRow>, p: OutboxRow, q: OutboxRow)
    requires LogOk(rows, s) && DistinctIds(rows) && batch == Limit(Pending(rows, s.published))
    requires p in rows && q in rows && p.id < q.id
    ensures BatchFollows(s.log, AtRow(batch, 0), p, q)
  {
    var pending := Pending(rows, s.published);
    PendingIs(rows, s.published);
    LimitIsPrefix(pending);
    forall m | 0 <= m < |batch| && batch[m] == q ensures RecordOf(p) in s.log || p in batch[0..m] {
      if p.id !in s.published {
        assert p in pending;
        var l :| 0 <= l < |pending| && pending[l] == p;
        assert pending[m] == q;
        assert l < m;
        assert batch[0..m][l] == p;
      }
    }
  }

  /** Appending copies of a row whose predecessors are all out keeps the order. */
  lemma AppendKeepsCopies(log: seq<Record>, more: seq<Record>, p: Record, q: Record)
    requires CopiesFollow(log, p, q)
    requires q in more ==> p in log
    ensures CopiesFollow(log + more, p, q)
  {
    var log' := log + more;
    forall n | 0 <= n < |log'| && log'[n] == q ensures p in log'[..n] {
      if n < |log| {
        assert log'[..n] == log[..n];
      } else {
        assert more[n - |log|] == q;
        assert log'[..n][..|log|] == log;
      }
    }
  }

  /** The log grows by copies of one row, and nothing else of note changes. */
  lemma AppendKeepsLog(rows: seq<OutboxRow>, s: RelayState, s': RelayState, row: OutboxRow)
    requires LogOk(rows, s) && row in rows
    requires s.log <= s'.log && forall n :: |s.log| <= n < |s'.log| ==> s'.log[n] == RecordOf(row)
    requires s'.stragglers <= s.stragglers + {row} && s'.published == s.published
    ensures LogOk(rows, s')
  {
    forall n | 0 <= n < |s'.log| ensures FromRows(rows, s'.log[n]) {
      if n < |s.log| { assert FromRows(rows, s.log[n]); }
    }
  }

  lemma PublishKeepsInv(rows: seq<OutboxRow>, s: RelayState, a: Action)
    requires Inv(rows, s) && DistinctEvents(rows) && Enabled(s, a) && a.Publish?
    ensures Inv(rows, Step(rows, s, a))
  {
    var s' := Step(rows, s, a);
    var Busy(batch, next, _) := PcOf(s, a.r);
    var row := batch[next];
    var more := seq(a.copies, _ => RecordOf(row));
    assert BatchOk(rows, s.log, s.relays[a.r]);
    AppendKeepsLog(rows, s, s', row);
    assert a.ok ==> s'.log[|s.log|] == RecordOf(row);
    forall j, k | 0 <= j < k < |rows| && rows[j].id < rows[k].id ensures InOrder(s', rows[j], rows[k]) {
      var p, q := rows[j], rows[k];
      assert InOrder(s, p, q);
      assert BatchFollows(s.log, s.relays[a.r], p, q);
      if RecordOf(q) == RecordOf(row) {
        var i :| 0 <= i < |rows| && rows[i] == row;
        RecordsDiffer(rows, i, k);
        assert batch[next..next] == [];
        assert RecordOf(p) in s.log;
      }
      AppendKeepsCopies(s.log, more, RecordOf(p), RecordOf(q));
      forall r | r in s'.relays ensures BatchFollows(s'.log, s'.relays[r], p, q) {
        if r != a.r { assert BatchFollows(s.log, s.relays[r], p, q); }
      }
    }
    forall r | r in s'.relays ensures BatchOk(rows, s'.log, s'.relays[r]) {
      if r != a.r { assert BatchOk(rows, s.log, s.relays[r]); }
    }
  }

  /** Moving past a row that is in the log keeps the rest of the batch in order. */
  lemma AdvanceFollows(log: seq<Record>, batch: seq<OutboxRow>, next: nat, p: OutboxRow, q: OutboxRow)
    requires next < |batch| && RecordOf(batch[next]) in log
    requires BatchFollows(log, Busy(batch, next, true), p, q)
    ensures BatchFollows(log, AtRow(batch, next + 1), p, q)
  {
    forall m | next + 1 <= m < |batch| && batch[m] == q ensures RecordOf(p) in log || p in batch[next + 1..m] {
      assert batch[next..m] == [batch[next]] + batch[next + 1..m];
    }
  }

  /** A mark is only set on a row whose publish was acknowledged. */
  lemma MarkKeepsLog(rows: seq<OutboxRow>, s: RelayState, row: OutboxRow)
    requires LogOk(rows, s) && DistinctIds(rows) && row in rows && RecordOf(row) in s.log
    ensures LogOk(rows, s.(published := s.published + {row.id}))
  {
    var i :| 0 <= i < |rows| && rows[i] == row;
    assert HasId(rows, row.id);
    forall k | 0 <= k < |rows| && rows[k].id in s.published + {row.id} ensures RecordOf(rows[k]) in s.log {
      if rows[k].id == row.id { assert k == i; }
    }
  }

  lemma MarkKeepsOrder(rows: seq<OutboxRow>, s: RelayState, a: Action, p: OutboxRow, q: OutboxRow)
    requires Enabled(s, a) && a.Mark? && BatchOk(rows, s.log, s.relays[a.r]) && InOrder(s, p, q)
    ensures InOrder(Step(rows, s, a), p, q)
  {
    var Busy(batch, next, _) := PcOf(s, a.r);
    assert BatchFollows(s.log, s.relays[a.r], p, q);
    AdvanceFollows(s.log, batch, next, p, q);
  }

  lemma MarkKeepsRelays(rows: seq<OutboxRow>, s: RelayState, a: Action)
    requires Enabled(s, a) && a.Mark? && RelaysOk(rows, s)
    ensures RelaysOk(rows, Step(rows, s, a))
  {
    assert BatchOk(rows, s.log, s.relays[a.r]);
  }

  lemma MarkShape(rows: seq<OutboxRow>, s: RelayState, a: Action)
    requires Enabled(s, a) && a.Mark?
    ensures var s' := Step(rows, s, a);
      && s'.log == s.log && s'.stragglers == s.stragglers
      && s'.published == if a.applied then s.published + {PcOf(s, a.r).batch[PcOf(s, a.r).next].id} else s.published
  {
  }

  lemma MarkKeepsInv(rows: seq<OutboxRow>, s: RelayState, a: Action)
    requires Inv(rows, s) && DistinctIds(rows) && Enabled(s, a) && a.Mark?
    ensures Inv(rows, Step(rows, s, a))
  {
    assert BatchOk(rows, s.log, s.relays[a.r]);
    MarkShape(rows, s, a);
    MarkKeepsLog(rows, s, PcOf(s, a.r).batch[PcOf(s, a.r).next]);
    MarkKeepsRelays(rows, s, a);
    forall j, k | 0 <= j < k < |rows| && rows[j].id < rows[k].id ensures InOrder(Step(rows, s, a), rows[j], rows[k]) {
      assert InOrder(s, rows[j], rows[k]);
      MarkKeepsOrder(rows, s, a, rows[j], rows[k]);
    }
  }

  lemma StraggleKeepsInv(rows: seq<OutboxRow>, s: RelayState, a: Action)
    requires Inv(rows, s) && DistinctEvents(rows) && Enabled(s, a) && a.Straggle?
    ensures Inv(rows, Step(rows, s, a))
  {
    var s' := Step(rows, s, a);
    var row := a.row;
    AppendKeepsLog(rows, s, s', row);
    forall j, k | 0 <= j < k < |rows| && rows[j].id < rows[k].id ensures InOrder(s', rows[j], rows[k]) {
      var p, q := rows[j], rows[k];
      assert InOrder(s, p, q);
      if RecordOf(q) == RecordOf(row) {
        var i :| 0 <= i < |rows| && rows[i] == row;
        RecordsDiffer(rows, i, k);
      }
      AppendKeepsCopies(s.log, [RecordOf(row)], RecordOf(p), RecordOf(q));
      forall r | r in s'.relays ensures BatchFollows(s'.log, s'.relays[r], p, q) {
        assert BatchFollows(s.log, s.relays[r], p, q);
      }
    }
    forall r | r in s'.relays ensures BatchOk(rows, s'.log, s'.relays[r]) {
      assert BatchOk(rows, s.log, s.relays[r]);
    }
  }

  lemma CrashKeepsInv(rows: seq<OutboxRow>, s: RelayState, r: RelayId)
    requires Inv(rows, s)
    ensures Inv(rows, SetPc(s, r, Idle))
  {
    var s' := SetPc(s, r, Idle);
    forall j, k | 0 <= j < k < |rows| && rows[j].id < rows[k].id ensures InOrder(s', rows[j], rows[k]) {
      assert InOrder(s, rows[j], rows[k]);
    }
  }

  lemma StepKeepsInv(rows: seq<OutboxRow>, s: RelayState, a: Action)
    requires Inv(rows, s) && DistinctIds(rows) && DistinctEvents(rows) && Enabled(s, a)
    ensures Inv(rows, Step(rows, s, a))
  {
    match a
    case Query(_) => QueryKeepsInv(rows, s, a);
    case QueryFails(_) =>
    case Publish(_, _, _) => PublishKeepsInv(rows, s, a);
    case Mark(_, _, _) => MarkKeepsInv(rows, s, a);
    case Crash(r) => CrashKeepsInv(rows, s, r);
    case Straggle(_) => StraggleKeepsInv(rows, s, a);
  }

  /** A newly committed row is unknown to the relays and the log, whatever its id. */
  lemma CommitKeepsInv(rows: seq<OutboxRow>, row: OutboxRow, s: RelayState)
    requires Inv(rows, s) && DistinctIds(rows + [row]) && DistinctEvents(rows + [row])
    ensures Inv(rows + [row], s)
  {
    var rows' := rows + [row];
    forall n | 0 <= n < |s.log| ensures FromRows(rows', s.log[n]) && s.log[n] != RecordOf(row) {
      var k :| 0 <= k < |rows| && RecordOf(rows[k]) == s.log[n];
      assert rows'[k].payload.eventId != rows'[|rows|].payload.eventId;
      assert RecordOf(rows'[k]) == s.log[n];
    }
    forall id | id in s.published ensures HasId(rows', id) && id != row.id {
      var k :| 0 <= k < |rows| && rows[k].id == id;
      assert rows'[k] == rows[k] && rows'[|rows|] == row;
    }
    assert row !in rows by {
      forall k | 0 <= k < |rows| ensures rows[k] != row {
        assert rows'[k].id != rows'[|rows|].id;
      }
    }
    forall r | r in s.relays ensures BatchOk(rows', s.log, s.relays[r]) {
      assert BatchOk(rows, s.log, s.relays[r]);
    }
    forall j, k | 0 <= j < k < |rows'| && rows'[j].id < rows'[k].id ensures InOrder(s, rows'[j], rows'[k]) {
      if k < |rows| {
        assert InOrder(s, rows[j], rows[k]);
      }
    }
  }
}
