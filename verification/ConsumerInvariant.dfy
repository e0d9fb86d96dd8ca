/** What the consumer keeps: a mark stands for an inspection, for processing under
    way, or for an orphan; and so does every message that was let go. */
module ConsumerInvariant {
  import opened Domain
  import opened InboundConsumer

  /** The offset below which every message was let go. */
  function Settled(s: ConsumerState): nat {
    match s.pc
    case Stopped => s.committed
    case Polling(pos) => pos
    case Checking(pos, _) => pos
    case Creating(pos, _) => pos
    case Forgetting(pos, _) => pos
    case Handled(pos) => pos + 1
  }

  /** The reader works on the first message that is not committed. */
  ghost predicate PcOk(s: ConsumerState) {
    && Settled(s) <= |s.inbound|
    && (!s.pc.Stopped? ==> s.pc.pos == s.committed)
    && (Processing(s.pc) ==> s.pc.pos < |s.inbound| && Decode(s.inbound[s.pc.pos]) == Some(s.pc.job))
  }

  ghost predicate Answered(job: Job, created: set<Uuid>, orphans: set<Uuid>) {
    job.requestId in created || job.eventId in orphans
  }

  ghost predicate MarkOk(s: ConsumerState, e: Uuid, created: set<Uuid>, orphans: set<Uuid>) {
    exists k :: 0 <= k < |s.inbound| && Decode(s.inbound[k]).Some? &&
      var job := Decode(s.inbound[k]).value;
      job.eventId == e &&
      (Answered(job, created, orphans) || ((s.pc.Creating? || s.pc.Forgetting?) && s.pc.job == job))
  }

  ghost predicate LetGoOk(s: ConsumerState, k: nat, created: set<Uuid>, orphans: set<Uuid>)
    requires k < |s.inbound|
  {
    Decode(s.inbound[k]).Some? ==> Answered(Decode(s.inbound[k]).value, created, orphans)
  }

  ghost predicate CreatedOk(s: ConsumerState, r: Uuid) {
    exists k :: 0 <= k < |s.inbound| && Decode(s.inbound[k]).Some? && Decode(s.inbound[k]).value.requestId == r
  }

  ghost predicate Inv(s: ConsumerState, created: set<Uuid>, orphans: set<Uuid>) {
    && Consistent(s.inbound)
    && PcOk(s)
    && (forall e :: e in s.marks ==> MarkOk(s, e, created, orphans))
    && (forall k :: 0 <= k < Settled(s) ==> LetGoOk(s, k, created, orphans))
    && (forall r :: r in created ==> CreatedOk(s, r))
  }

  /** The set of requests with an inspection after a step. */
  predicate CreatedBy(s: ConsumerState, a: Action, created: set<Uuid>, created': set<Uuid>)
    requires Enabled(s, a)
  {
    created' == if a.Create? && a.applied then created + {s.pc.job.requestId} else created
  }

  lemma MarksKept(s: ConsumerState, a: Action, created: set<Uuid>, created': set<Uuid>, orphans: set<Uuid>, e: Uuid)
    requires Inv(s, created, orphans) && Enabled(s, a) && CreatedBy(s, a, created, created')
    requires e in Step(s, a).marks
    ensures MarkOk(Step(s, a), e, created', orphans + OrphanedBy(s, Step(s, a), created'))
  {
    var s' := Step(s, a);
    var orphans' := orphans + OrphanedBy(s, s', created');
    if Processing(s.pc) && s.pc.job.eventId == e {
      assert Decode(s'.inbound[s.pc.pos]) == Some(s.pc.job);
      if e in s.marks {
        var k :| 0 <= k < |s.inbound| && Decode(s.inbound[k]).Some? && Decode(s.inbound[k]).value.eventId == e &&
          (Answered(Decode(s.inbound[k]).value, created, orphans) ||
            ((s.pc.Creating? || s.pc.Forgetting?) && s.pc.job == Decode(s.inbound[k]).value));
        assert Decode(s.inbound[k]) == Decode(s.inbound[s.pc.pos]);
      }
    } else {
      var k :| 0 <= k < |s.inbound| && Decode(s.inbound[k]).Some? && Decode(s.inbound[k]).value.eventId == e &&
        (Answered(Decode(s.inbound[k]).value, created, orphans) ||
          ((s.pc.Creating? || s.pc.Forgetting?) && s.pc.job == Decode(s.inbound[k]).value));
      assert s'.inbound[k] == s.inbound[k];
    }
  }

  /** A message whose event is marked before its own dedup check has its answer. */
  lemma DuplicateIsAnswered(s: ConsumerState, created: set<Uuid>, orphans: set<Uuid>)
    requires Inv(s, created, orphans) && s.pc.Checking? && s.pc.job.eventId in s.marks
    ensures Answered(s.pc.job, created, orphans)
  {
    var e := s.pc.job.eventId;
    assert MarkOk(s, e, created, orphans);
    var k :| 0 <= k < |s.inbound| && Decode(s.inbound[k]).Some? && Decode(s.inbound[k]).value.eventId == e &&
      Answered(Decode(s.inbound[k]).value, created, orphans);
    assert Decode(s.inbound[k]) == Decode(s.inbound[s.pc.pos]);
  }

  /** The message at hand is let go only with an answer. */
  lemma HandledIsAnswered(s: ConsumerState, a: Action, created: set<Uuid>, created': set<Uuid>, orphans: set<Uuid>)
    requires Inv(s, created, orphans) && Enabled(s, a) && CreatedBy(s, a, created, created')
    requires !s.pc.Handled? && Step(s, a).pc.Handled?
    ensures LetGoOk(s, Step(s, a).pc.pos, created', orphans)
  {
    if a.Seen? {
      DuplicateIsAnswered(s, created, orphans);
    }
  }

  lemma StepKeepsInv(s: ConsumerState, a: Action, created: set<Uuid>, created': set<Uuid>, orphans: set<Uuid>)
    requires Inv(s, created, orphans) && Enabled(s, a) && CreatedBy(s, a, created, created')
    ensures Inv(Step(s, a), created', orphans + OrphanedBy(s, Step(s, a), created'))
  {
    var s' := Step(s, a);
    var orphans' := orphans + OrphanedBy(s, s', created');
    forall e | e in s'.marks ensures MarkOk(s', e, created', orphans') {
      MarksKept(s, a, created, created', orphans, e);
    }
    forall k | 0 <= k < Settled(s') ensures LetGoOk(s', k, created', orphans') {
      if k < Settled(s) {
        assert LetGoOk(s, k, created, orphans);
        assert s'.inbound[k] == s.inbound[k];
      } else {
        HandledIsAnswered(s, a, created, created', orphans);
      }
    }
    forall r | r in created' ensures CreatedOk(s', r) {
      if r in created {
        var k :| 0 <= k < |s.inbound| && Decode(s.inbound[k]).Some? && Decode(s.inbound[k]).value.requestId == r;
        assert s'.inbound[k] == s.inbound[k];
      }
    }
  }

  /** Orphans come from faults only: a crash, an undo that was not applied, or a
      claim that was applied (now or by an earlier fault) without a reply. */
  lemma OrphansComeFromFaults(s: ConsumerState, a: Action, created: set<Uuid>, created': set<Uuid>, orphans: set<Uuid>)
    requires Inv(s, created, orphans) && Enabled(s, a) && CreatedBy(s, a, created, created')
    requires !(OrphanedBy(s, Step(s, a), created') <= orphans)
    ensures (a.Crash? && (s.pc.Creating? || s.pc.Forgetting?)) || (a.Forget? && !a.applied) ||
            (a.Seen? && a.applied && !a.ok)
  {
    if s.pc.Checking? && s.pc.job.eventId in s.marks {
      DuplicateIsAnswered(s, created, orphans);
    }
  }
}
