/** Completions and decisions by their plain conditions: when one is taken, where it leads, and what a mint, an
    escalation or a question has to do with it. */
module HubCompletions {
  import opened Options
  import opened Matching
  import opened HubModel
  import opened HubInvariants
  import opened HubHistory

  // ----- when a report is taken

  /** The attempt may report: at or above the fence, from where the chunk stands if it stands anywhere, not escalated,
      and with none of its questions open. */
  ghost predicate MayReport(s: HubState, id: string, epoch: int, fromNode: string)
    requires id in s.chunks
  {
    var c := s.chunks[id];
    && c.latestEpoch <= epoch && (c.current == None || c.current == Some(fromNode)) && c.escalated != Some(epoch)
    && NoneOpen(s.questions, id, epoch)
  }

  /** Every question the attempt asked is answered. */
  ghost predicate NoneOpen(questions: map<string, Question>, id: string, epoch: int)
  {
    forall q :: q in questions && questions[q].chunk == id && questions[q].epoch == epoch ==> questions[q].answered
  }

  ghost predicate AtRunnerNode(c: Chunk, fromNode: string)
  {
    fromNode in c.graph.nodes && c.graph.nodes[fromNode].executor == RunnerExecuted
  }

  /** Index `i` is the first of the choices that carries the name. */
  ghost predicate FirstNamed(choices: seq<Choice>, name: string, i: int)
  {
    0 <= i < |choices| && choices[i].name == name && forall j :: 0 <= j < i ==> choices[j].name != name
  }

  lemma {:induction false} ResolvesFirst(choices: seq<Choice>, name: string)
    ensures ResolveChoice(choices, name) == None <==> forall i :: 0 <= i < |choices| ==> choices[i].name != name
    ensures forall i :: FirstNamed(choices, name, i) ==> ResolveChoice(choices, name) == Some(choices[i].to)
    ensures ResolveChoice(choices, name).Some? ==> exists i :: FirstNamed(choices, name, i)
  {
    if choices != [] {
      var rest := choices[1..];
      ResolvesFirst(rest, name);
      assert forall i :: 0 < i < |choices| ==> choices[i] == rest[i - 1];
      if choices[0].name == name {
        assert FirstNamed(choices, name, 0);
      } else {
        forall i | FirstNamed(choices, name, i)
          ensures FirstNamed(rest, name, i - 1)
        {
          assert forall j :: 0 <= j < i - 1 ==> rest[j] == choices[j + 1];
        }
        if i :| FirstNamed(rest, name, i) {
          assert FirstNamed(choices, name, i + 1);
        }
      }
    }
  }

  /** Where a completion leads: to the first choice of the node that carries the name. */
  ghost predicate LeadsTo(c: Chunk, fromNode: string, choice: string, to: string)
  {
    && AtRunnerNode(c, fromNode)
    && exists i :: FirstNamed(c.graph.nodes[fromNode].choices, choice, i) && c.graph.nodes[fromNode].choices[i].to == to
  }

  lemma TargetIsWhereItLeads(s: HubState, id: string, epoch: int, fromNode: string, choice: string)
    requires id in s.chunks
    ensures
      match CompletionTarget(s, id, epoch, fromNode, choice)
      case Some(to) => MayReport(s, id, epoch, fromNode) && LeadsTo(s.chunks[id], fromNode, choice, to)
      case None => !MayReport(s, id, epoch, fromNode) || forall to :: !LeadsTo(s.chunks[id], fromNode, choice, to)
    ensures forall to :: MayReport(s, id, epoch, fromNode) && LeadsTo(s.chunks[id], fromNode, choice, to) ==>
              CompletionTarget(s, id, epoch, fromNode, choice) == Some(to)
  {
    if AtRunnerNode(s.chunks[id], fromNode) {
      ResolvesFirst(s.chunks[id].graph.nodes[fromNode].choices, choice);
    }
  }

  /** The chunk after a report that leads to `to`, and what is answered. An end is the marker, or a hub node; anywhere
      else known the chunk runs on. Nowhere known, it stays where it is. */
  ghost predicate LandedAt(id: string, c: Chunk, to: string, c': Chunk, r: Response)
  {
    if to == TERMINAL then
      c'.current == Some(TERMINAL) && c'.status == Done && r == Response(ReachedEnd, None)
    else if to !in c.graph.nodes then
      c'.current == c.current && c'.status == c.status && r == Response(Failure, None)
    else
      && c'.current == Some(to)
      && if c.graph.nodes[to].executor == HubExecuted then c'.status == Done && r == Response(HubNodeTaken, None)
         else c'.status == Running && r == Response(Next, Some(Envelope(id, to, c.latestEpoch)))
  }

  /** An unrecorded completion, no lever armed. If the attempt may not report, or no choice of the node it reports
      from carries the name, it fails and the hub is as it was; and only then. Else it lands where the first choice of
      that name leads, the outcome is on record, and nothing else of the hub changes. */
  lemma CompletionLandsExactly(s: HubState, id: string, epoch: int, fromNode: string, choice: string)
    requires id in s.chunks && CompletionKey(fromNode, epoch) !in s.chunks[id].applied
    ensures
      var c, (s', reply) := s.chunks[id], CompleteStep(s, id, epoch, fromNode, choice, UNLEVERED);
      if MayReport(s, id, epoch, fromNode) && exists to :: LeadsTo(c, fromNode, choice, to) then
        && s' != s && id in s'.chunks && reply.Answered?
        && (forall to :: LeadsTo(c, fromNode, choice, to) ==> LandedAt(id, c, to, s'.chunks[id], reply.response))
        && s'.chunks[id].applied == c.applied[CompletionKey(fromNode, epoch) := reply.response.outcome]
        && s' == s.(chunks := s.chunks[id := s'.chunks[id]])
        && s'.chunks[id] == c.(current := s'.chunks[id].current, status := s'.chunks[id].status,
                               applied := s'.chunks[id].applied, lastResponse := Some(reply.response))
      else (s', reply) == (s, Answered(Response(Failure, None)))
  {
    TargetIsWhereItLeads(s, id, epoch, fromNode, choice);
    var target := CompletionTarget(s, id, epoch, fromNode, choice);
    if target.Some? {
      CompletedLands(s.chunks[id], id, fromNode, epoch, target.value);
    }
  }

  lemma CompletedLands(c: Chunk, id: string, fromNode: string, epoch: int, to: string)
    requires CompletionKey(fromNode, epoch) !in c.applied
    ensures
      var c', r := Completed(c, id, fromNode, epoch, to), Advance(c, id, to).1;
      && LandedAt(id, c, to, c', r) && c'.applied == c.applied[CompletionKey(fromNode, epoch) := r.outcome]
      && c' == c.(current := c'.current, status := c'.status, applied := c'.applied, lastResponse := Some(r))
      && c'.applied != c.applied
  {
    assert CompletionKey(fromNode, epoch) in Completed(c, id, fromNode, epoch, to).applied;
  }

  /** It answers anything but a failure exactly when it may report and the first choice of that name leads to the marker
      or a known node; the chunk then stands there. */
  lemma CompletionMovesExactly(s: HubState, id: string, epoch: int, fromNode: string, choice: string)
    requires id in s.chunks && CompletionKey(fromNode, epoch) !in s.chunks[id].applied
    ensures
      var c, (s', reply) := s.chunks[id], CompleteStep(s, id, epoch, fromNode, choice, UNLEVERED);
      && (reply != Answered(Response(Failure, None)) <==>
          && MayReport(s, id, epoch, fromNode)
          && exists to :: LeadsTo(c, fromNode, choice, to) && (to == TERMINAL || to in c.graph.nodes))
      && (reply != Answered(Response(Failure, None)) ==>
          id in s'.chunks && s'.chunks[id].current.Some?
          && LeadsTo(c, fromNode, choice, s'.chunks[id].current.value))
  {
    CompletionLandsExactly(s, id, epoch, fromNode, choice);
  }

  /** A gate decision is accepted exactly when the attempt may report, and parks the chunk, changing nothing else. */
  lemma DecisionParksExactly(s: HubState, id: string, epoch: int, fromNode: string)
    requires id in s.chunks
    ensures
      DecideStep(s, id, epoch, fromNode, false) ==
      if MayReport(s, id, epoch, fromNode) then
        (s.(chunks := s.chunks[id := s.chunks[id].(status := NeedsHuman)]), Answered(Response(ParkedAtGate, None)))
      else (s, Answered(Response(Failure, None)))
  {
  }

  /** Levers and unknown chunks: nothing changes, and a replay answers the last response. */
  lemma LeveredReportsAreInert(s: HubState, id: string, epoch: int, fromNode: string, choice: string, replay: bool)
    ensures id !in s.chunks ==>
              forall missing :: CompleteStep(s, id, epoch, fromNode, choice, ApplyLevers(missing, replay)) ==
                                (s, ApplyNotFound)
    ensures id in s.chunks ==>
              && CompleteStep(s, id, epoch, fromNode, choice, ApplyLevers(true, replay)) == (s, ApplyGraphMissing)
              && DecideStep(s, id, epoch, fromNode, true) == (s, ApplyGraphMissing)
    ensures id in s.chunks && s.chunks[id].lastResponse.Some? ==>
              CompleteStep(s, id, epoch, fromNode, choice, ApplyLevers(false, true)) ==
              (s, Answered(s.chunks[id].lastResponse.value))
    ensures id in s.chunks && s.chunks[id].lastResponse.None? ==>
              CompleteStep(s, id, epoch, fromNode, choice, ApplyLevers(false, true)) ==
              CompleteStep(s, id, epoch, fromNode, choice, UNLEVERED)
  {
  }
}
