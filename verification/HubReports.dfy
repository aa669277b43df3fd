/** What each reported fact is taken for and what it leaves, kind by kind, and what a mint means for the rest of a
    run. */
module HubReports {
  import opened Options
  import opened Sorting
  import opened HubModel
  import opened HubInvariants
  import opened HubHistory
  import opened HubCompletions
  import HubFacts

  // ----- which facts are taken

  /** The chunk has ended, or has a fence above the epoch. */
  ghost predicate TooLate(c: Chunk, epoch: int)
  {
    c.status == Done || c.status == Stopped || (c.latestEpoch != 0 && epoch < c.latestEpoch)
  }

  /** The facts a hub rejects, kind by kind. */
  ghost predicate Rejectable(s: HubState, body: FactBody)
  {
    || body == UnknownKind
    || (body.UsageSampled? && body.slug == "") || (body.UsageMissed? && body.slug == "")
    || (body.EscalationRecorded? && body.chunk in s.chunks && TooLate(s.chunks[body.chunk], body.epoch))
    || (body.QuestionAsked? && (body.question == "" || body.chunk == ""))
    || (body.QuestionAsked? && body.chunk in s.chunks && body.question !in s.questions
        && TooLate(s.chunks[body.chunk], body.epoch))
    || (body.AnswerDelivered? &&
        (body.question !in s.questions || s.questions[body.question].chunk != body.chunk
         || !s.questions[body.question].answered))
  }

  /** A push of one fact: at or below the mark it is acknowledged and inert, above it rejected exactly if its kind says
      so, and else applied, which moves the mark to it. */
  lemma OneFactExactly(s: HubState, runner: string, f: Fact)
    requires runner in s.runners
    ensures
      var i := Pushed(s, runner, [f]);
      if f.seqNo <= MarkOf(s, runner) then i == Intake(s, MarkOf(s, runner), [], [f.seqNo], [])
      else if Rejectable(s, f.body) then i == Intake(s, MarkOf(s, runner), [], [], [f.seqNo])
      else i == Intake(FactEffect(s, runner, f.body), f.seqNo, [f.seqNo], [], [])
  {
    HubFacts.OneFactPushed(s, runner, f);
  }

  // ----- what a taken fact leaves

  /** A mint leaves the chunk's fence at the greater of what it was and the epoch, the epoch with its first owner. */
  lemma MintRaisesFence(s: HubState, runner: string, id: string, epoch: int)
    requires id in s.chunks && runner in s.runners
    ensures
      var s', key := FactEffect(s, runner, LeaseMinted(id, epoch)), (s.runners[runner].tenant, id, epoch);
      && id in s'.chunks
      && (if epoch <= s.chunks[id].latestEpoch then s'.chunks[id] == s.chunks[id]
          else s'.chunks[id] == s.chunks[id].(latestEpoch := epoch))
      && key in s'.epochOwners && s'.epochOwners[key] == (if key in s.epochOwners then s.epochOwners[key] else runner)
      && s' == s.(chunks := s.chunks[id := s'.chunks[id]], epochOwners := s'.epochOwners)
      && s'.epochOwners == s.epochOwners[key := s'.epochOwners[key]]
  {
    var s', key := FactEffect(s, runner, LeaseMinted(id, epoch)), (s.runners[runner].tenant, id, epoch);
    assert s'.epochOwners == s.epochOwners[key := s'.epochOwners[key]];
  }

  /** Every other fact leaves all fences and owners; a fact naming an unknown chunk leaves all chunks. */
  lemma OnlyMintsMoveFences(s: HubState, runner: string, body: FactBody, id: string)
    requires id in s.chunks && (!body.LeaseMinted? || body.chunk != id)
    ensures id in FactEffect(s, runner, body).chunks
    ensures FactEffect(s, runner, body).chunks[id].latestEpoch == s.chunks[id].latestEpoch
    ensures !body.LeaseMinted? ==> FactEffect(s, runner, body).epochOwners == s.epochOwners
  {
  }

  /** An escalation puts its epoch on the chunk, a question its open entry in the table, a delivery its flag. */
  lemma ChunkReportsLeave(s: HubState, runner: string, id: string, epoch: int, q: string)
    ensures
      FactEffect(s, runner, EscalationRecorded(id, epoch)) ==
      if id in s.chunks then s.(chunks := s.chunks[id := s.chunks[id].(escalated := Some(epoch))]) else s
    ensures
      FactEffect(s, runner, QuestionAsked(q, id, epoch)) ==
      s.(questions := s.questions[q := Question(id, epoch, runner, false, false)])
    ensures
      q in s.questions ==>
        FactEffect(s, runner, AnswerDelivered(q, id)) ==
        s.(questions := s.questions[q := s.questions[q].(delivered := true)])
  {
  }

  /** The runner-scoped kinds touch the runner's own report only; a usage entry only its own slug. */
  lemma RunnerReportsLeave(s: HubState, runner: string, operator: string, slug: string, text: string)
    ensures
      var before := if runner in s.reported then s.reported[runner] else Reported(false, None, map[], map[]);
      && FactEffect(s, runner, LocallyPaused(operator)) ==
         s.(reported := s.reported[runner := Reported(true, Some(operator), before.usage, before.misses)])
      && FactEffect(s, runner, LocallyResumed) ==
         s.(reported := s.reported[runner := Reported(false, None, before.usage, before.misses)])
      && FactEffect(s, runner, UsageSampled(slug, text)) ==
         s.(reported := s.reported[runner := before.(usage := before.usage[slug := text])])
      && FactEffect(s, runner, UsageMissed(slug, text)) ==
         s.(reported := s.reported[runner := before.(misses := before.misses[slug := text])])
      && FactEffect(s, runner, UsageRecorded) == s && FactEffect(s, runner, EventRecorded) == s
  {
  }

  // ----- what that means for the attempt

  /** An attempt that escalated, or asked, cannot report: an unrecorded completion of it fails, and so does a decision,
      the question's until it is answered. */
  lemma ReportsHoldAttemptBack(s: HubState, runner: string, id: string, epoch: int, q: string, fromNode: string)
    requires id in s.chunks
    ensures !MayReport(FactEffect(s, runner, EscalationRecorded(id, epoch)), id, epoch, fromNode)
    ensures !MayReport(FactEffect(s, runner, QuestionAsked(q, id, epoch)), id, epoch, fromNode)
    ensures MayReport(s, id, epoch, fromNode) ==>
              MayReport(AnswerStep(FactEffect(s, runner, QuestionAsked(q, id, epoch)), q), id, epoch, fromNode)
  {
    var asked := FactEffect(s, runner, QuestionAsked(q, id, epoch));
    assert q in asked.questions && asked.questions[q] == Question(id, epoch, runner, false, false);
    assert AnswerStep(asked, q).questions[q].answered;
  }

  /** An answer marks its question, and leaves the others and the rest of the hub. */
  lemma AnswerLeaves(s: HubState, q: string)
    ensures AnswerStep(s, q) == s.(questions := AnswerStep(s, q).questions)
    ensures AnswerStep(s, q).questions - {q} == s.questions - {q}
    ensures q in AnswerStep(s, q).questions <==> q in s.questions
    ensures q in s.questions ==> AnswerStep(s, q).questions[q] == s.questions[q].(answered := true)
  {
  }

  /** So it lets exactly those attempts report that might but for it. */
  lemma AnswerReleasesExactly(s: HubState, q: string, id: string, epoch: int, fromNode: string)
    requires id in s.chunks
    ensures MayReport(AnswerStep(s, q), id, epoch, fromNode) <==>
            MayReport(s.(questions := s.questions - {q}), id, epoch, fromNode)
  {
    AnswerLeaves(s, q);
    OnlyAnsweredLeft(AnswerStep(s, q).questions, s.questions - {q}, q, id, epoch);
  }

  lemma OnlyAnsweredLeft(asked: map<string, Question>, left: map<string, Question>, q: string, id: string, epoch: int)
    requires left == asked - {q} && (q in asked ==> asked[q].answered)
    ensures NoneOpen(asked, id, epoch) <==> NoneOpen(left, id, epoch)
  {
    assert forall x :: x in left <==> x in asked && x != q;
  }

  // ----- a mint over the rest of a run

  lemma {:induction false} MarkBelow(i: Intake, runner: string, facts: seq<Fact>, n: int)
    requires i.mark < n && forall f :: f in facts ==> f.seqNo < n
    ensures TakeFacts(i, runner, facts).mark < n
  {
    if facts != [] {
      MarkBelow(i, runner, facts[..|facts| - 1], n);
    }
  }

  lemma TakeSplit(i: Intake, runner: string, facts: seq<Fact>, x: nat)
    requires x < |facts|
    ensures TakeFacts(i, runner, facts) ==
            TakeFacts(TakeFact(TakeFacts(i, runner, facts[..x]), runner, facts[x]), runner, facts[x + 1..])
  {
    assert facts == facts[..x + 1] + facts[x + 1..];
    HubFacts.TakeFactsConcat(i, runner, facts[..x + 1], facts[x + 1..]);
    assert facts[..x + 1][..x] == facts[..x];
  }

  /** The batch, sorted, takes the mint at `x` and leaves the fence at least there. */
  lemma SortedBatchFences(i: Intake, runner: string, facts: seq<Fact>, x: nat, id: string, epoch: int)
    requires HubSound(i.hub) && id in i.hub.chunks && x < |facts| && facts[x].body == LeaseMinted(id, epoch)
    requires i.mark < facts[x].seqNo && forall f :: f in facts[..x] ==> f.seqNo < facts[x].seqNo
    ensures id in TakeFacts(i, runner, facts).hub.chunks
    ensures TakeFacts(i, runner, facts).hub.chunks[id].latestEpoch >= epoch
  {
    var before := TakeFacts(i, runner, facts[..x]);
    MarkBelow(i, runner, facts[..x], facts[x].seqNo);
    FactsMoveChunk(i, runner, facts[..x], id);
    FactsKeepSound(i, runner, facts[..x]);
    FactKeepsSound(before.hub, runner, facts[x].body);
    MintTaken(before, runner, facts[x], id, epoch);
    FactsMoveChunk(TakeFact(before, runner, facts[x]), runner, facts[x + 1..], id);
    TakeSplit(i, runner, facts, x);
  }

  lemma MintTaken(i: Intake, runner: string, f: Fact, id: string, epoch: int)
    requires id in i.hub.chunks && f.body == LeaseMinted(id, epoch) && i.mark < f.seqNo
    ensures TakeFact(i, runner, f).hub == FactEffect(i.hub, runner, f.body)
    ensures id in TakeFact(i, runner, f).hub.chunks
    ensures TakeFact(i, runner, f).hub.chunks[id].latestEpoch >= epoch
  {
  }

  /** A push that carries a mint under a seq above the runner's mark, its own in the batch, leaves the chunk's fence at
      the epoch or above. */
  lemma PushedMintFences(s: HubState, runner: string, facts: seq<Fact>, f: Fact, id: string, epoch: int)
    requires HubSound(s) && runner in s.runners && id in s.chunks
    requires f in facts && f.body == LeaseMinted(id, epoch) && MarkOf(s, runner) < f.seqNo
    requires forall g :: g in facts && g.seqNo == f.seqNo ==> g == f
    ensures id in PushStep(s, runner, facts).chunks && PushStep(s, runner, facts).chunks[id].latestEpoch >= epoch
  {
    var sorted := Sort(facts, BY_SEQ);
    HubFacts.BySeqIsPreorder();
    SortSorts(facts, BY_SEQ);
    forall g
      ensures g in sorted <==> g in facts
    {
      SameElements(sorted, facts, g);
    }
    var x := FirstOf(sorted, f);
    forall g | g in sorted[..x]
      ensures g.seqNo < f.seqNo
    {
      var y :| 0 <= y < x && sorted[y] == g;
      assert BY_SEQ(sorted[y], sorted[x]);
    }
    SortedBatchFences(Intake(s, MarkOf(s, runner), [], [], []), runner, sorted, x, id, epoch);
  }

  lemma {:induction false} FirstOf(facts: seq<Fact>, f: Fact) returns (x: nat)
    requires f in facts
    ensures x < |facts| && facts[x] == f && f !in facts[..x]
  {
    var some := facts[..|facts| - 1];
    if f in some {
      x := FirstOf(some, f);
      assert some[..x] == facts[..x];
    } else {
      x := |facts| - 1;
    }
  }

  /** Over runs: from such a push on, at no later point is a completion of an earlier epoch taken or a decision of one
      accepted, whatever node it reports from. */
  lemma MintFencesForGood(s0: HubState, run: seq<Event>, id: string, j: nat, k: nat, f: Fact, mint: int, epoch: int,
                          fromNode: string, choice: string, levers: ApplyLevers)
    requires HubSound(s0) && Reserving(run) && j < k <= |run| && Undisturbed(run, id, j, k)
    requires run[j].PushFacts? && run[j].runner in At(s0, run, j).runners && id in At(s0, run, j).chunks
    requires f in run[j].facts && f.body == LeaseMinted(id, mint) && MarkOf(At(s0, run, j), run[j].runner) < f.seqNo
    requires forall g :: g in run[j].facts && g.seqNo == f.seqNo ==> g == f
    requires epoch < mint
    ensures !Taken(At(s0, run, k), Complete(id, epoch, fromNode, choice, levers), id)
    ensures CompleteStep(At(s0, run, k), id, epoch, fromNode, choice, levers).0 == At(s0, run, k)
    ensures !Parks(At(s0, run, k), Decide(id, epoch, fromNode, levers.graphMissing), id)
  {
    FencedByPush(s0, run, id, j, f, mint);
    FencedEpochIsDead(s0, run, id, j + 1, k, epoch, fromNode, choice, levers);
  }

  lemma FencedByPush(s0: HubState, run: seq<Event>, id: string, j: nat, f: Fact, mint: int)
    requires HubSound(s0) && Reserving(run) && j < |run|
    requires run[j].PushFacts? && run[j].runner in At(s0, run, j).runners && id in At(s0, run, j).chunks
    requires f in run[j].facts && f.body == LeaseMinted(id, mint) && MarkOf(At(s0, run, j), run[j].runner) < f.seqNo
    requires forall g :: g in run[j].facts && g.seqNo == f.seqNo ==> g == f
    ensures id in At(s0, run, j + 1).chunks && At(s0, run, j + 1).chunks[id].latestEpoch >= mint
  {
    RunsAreSound(s0, run, j);
    PushedMintFences(At(s0, run, j), run[j].runner, run[j].facts, f, id, mint);
    assert At(s0, run, j + 1) == PushStep(At(s0, run, j), run[j].runner, run[j].facts);
  }
}
