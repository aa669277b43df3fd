/** The mock hub's service: the requests as they update the hub's tables in place. */
module HubService {
  import opened Options
  import opened Numbers
  import opened Matching
  import opened Lexical
  import opened Sorting
  import opened HubModel
  import opened HubInvariants
  import opened HubQueue
  import HubFacts

  class MockHub {
    var order: seq<string>
    var chunks: map<string, Chunk>
    var projects: set<string>
    var runners: map<string, RunnerRow>
    var hosts: map<string, HostRow>
    var questions: map<string, Question>
    var reported: map<string, Reported>
    var epochOwners: map<(string, string, int), string>
    var factMarks: map<string, int>

    ghost function Value(): HubState
      reads this
    {
      HubState(order, chunks, projects, runners, hosts, questions, reported, epochOwners, factMarks)
    }

    /** The reachable-state invariant. Every method keeps it; none needs it to answer as its step does. */
    ghost predicate Valid()
      reads this
    {
      HubSound(Value())
    }

    constructor ()
      ensures Value() == EMPTY_HUB && Valid()
    {
      order, chunks, projects, runners, hosts := [], map[], {}, map[], map[];
      questions, reported, epochOwners, factMarks := map[], map[], map[], map[];
    }

    method SeedChunk(id: string, spec: ChunkSpec) returns (seeded: bool)
      modifies this
      ensures seeded == SeedAdmitted(old(Value()), spec)
      ensures Value() == SeedStep(old(Value()), id, spec)
      ensures old(Valid()) && TERMINAL !in spec.graph.nodes ==> Valid()
    {
      if Valid() && TERMINAL !in spec.graph.nodes {
        SeedKeepsSound(Value(), id, spec);
      }
      if spec.graph.entry !in spec.graph.nodes || spec.project !in projects || spec.status == Running {
        return false;
      }
      if id !in chunks {
        order := order + [id];
      }
      chunks := chunks[id := Seeded(spec)];
      return true;
    }

    // ----- routes

    method Claim(id: string, runner: string, workspace: string, environments: seq<string>, levers: ClaimLevers)
      returns (reply: ClaimReply)
      modifies this
      ensures (Value(), reply) == ClaimStep(old(Value()), id, runner, workspace, environments, levers)
      ensures old(Valid()) ==> Valid() && reply != ClaimNodeMissing
    {
      if Valid() {
        ClaimKeepsSound(Value(), id, runner, workspace, environments, levers);
        ClaimGrantedExactly(Value(), id, runner, workspace, environments, levers);
      }
      if id !in chunks {
        return ClaimChunkUnknown;
      }
      var chunk := chunks[id];
      if levers.graphMissing {
        return ClaimGraphMissing;
      }
      if runner in runners && runners[runner].retired {
        return ClaimRunnerRetired;
      }
      if levers.runnerRefused {
        return ClaimLeverRefused;
      }
      if runner !in runners || !runners[runner].registered {
        return ClaimUnregistered;
      }
      var registration := runners[runner];
      if registration.paused {
        return ClaimRunnerPaused;
      }
      var refusal := ChunkRefusal(chunk);
      if refusal.Some? {
        return refusal.value;
      }
      if levers.dependencyUnmet {
        return ClaimDependencyUnmet;
      }
      if chunk.project !in ServedProjects(registration) {
        return ClaimProjectDenied;
      }
      var nodeId := chunk.WorkNode();
      var ineligible := CapabilityIneligible(chunk.graph, nodeId, registration.capabilities);
      if ineligible {
        return ClaimCapabilityDenied;
      }
      chunk := chunk.(claimed := true);
      chunk := chunk.(holder := Some(runner));
      chunk := chunk.(workspace := Some(workspace));
      chunk := chunk.(environments := environments);
      chunk := chunk.(current := Some(nodeId));
      chunk := chunk.(status := Running);
      chunk := chunk.(routeToken := Some(RouteToken(id, chunk.latestEpoch)));
      chunks := chunks[id := chunk];
      if nodeId !in chunk.graph.nodes {
        return ClaimNodeMissing;
      }
      return ClaimGranted(Envelope(id, nodeId, chunk.latestEpoch), chunk.routeToken.value);
    }

    method Rekey(id: string, runner: string) returns (reply: RekeyReply)
      modifies this
      ensures (Value(), reply) == RekeyStep(old(Value()), id, runner)
      ensures old(Valid()) ==> Valid()
    {
      if Valid() {
        RekeyKeepsSound(Value(), id, runner);
      }
      if id !in chunks || !chunks[id].claimed {
        return RekeyNoRoute;
      }
      var chunk := chunks[id];
      if chunk.holder != Some(runner) {
        return RekeyNotHolder;
      }
      if chunk.Ended() {
        return RekeyTerminal;
      }
      chunk := chunk.(rekeys := chunk.rekeys + 1);
      chunk := chunk.(routeToken := Some(RouteToken(id, chunk.latestEpoch) + "-rekey" + Decimal(chunk.rekeys)));
      chunks := chunks[id := chunk];
      return Rekeyed(chunk.routeToken.value);
    }

    method Release(id: string, runner: string, epoch: int, reason: string, token: Option<string>, enforceToken: bool)
      returns (reply: ReleaseReply)
      modifies this
      ensures (Value(), reply) == ReleaseStep(old(Value()), id, runner, epoch, reason, token, enforceToken)
      ensures old(Valid()) ==> Valid()
    {
      if Valid() {
        ReleaseKeepsSound(Value(), id, runner, epoch, reason, token, enforceToken);
      }
      if id !in chunks {
        return ReleaseChunkUnknown;
      }
      var chunk := chunks[id];
      if enforceToken {
        if !chunk.claimed || chunk.routeToken.None? || token != chunk.routeToken || chunk.holder != Some(runner) {
          return ReleaseNotHolder;
        }
      }
      if chunk.Ended() || !chunk.claimed || chunk.holder != Some(runner) {
        return ReleaseNotHolder;
      }
      if chunk.status != Running {
        return ReleaseNotRunning;
      }
      if epoch != chunk.latestEpoch {
        return ReleaseStale;
      }
      chunk := chunk.(claimed := false, holder := None, workspace := None, environments := []);
      chunk := chunk.(status := Ready);
      chunk := chunk.(releases := chunk.releases + [ReleaseRecord(runner, epoch, reason)]);
      chunk := chunk.(routeToken := None);
      chunks := chunks[id := chunk];
      return ReleaseAccepted(|chunk.releases|);
    }

    /** Retires a hosted runner and frees every route it holds, one chunk at a time. */
    method RetireHosted(host: string, runner: string, force: bool, conflict: Option<bool>) returns (reply: RetireReply)
      modifies this
      ensures (Value(), reply) == RetireStep(old(Value()), host, runner, force, conflict)
      ensures old(Valid()) ==> Valid()
    {
      if Valid() {
        RetireKeepsSound(Value(), host, runner, force, conflict);
      }
      if runner !in runners || runners[runner].host != Some(host) {
        return RetireUnknownRunner;
      }
      var held := HeldIds(order, chunks, runner);
      if held != [] && !force && !runners[runner].retired {
        return RetireHoldsRoutes;
      }
      if conflict == Some(false) {
        return RetireConflict;
      }
      runners := runners[runner := runners[runner].(retired := true)];
      if conflict == Some(true) && held != [] {
        return RetireInterrupted;
      }
      FreeRoutes(held);
      return Retired(held);
    }

    method FreeRoutes(held: seq<string>)
      requires forall id :: id in held ==> id in chunks
      modifies this`chunks
      ensures chunks == FreedAll(old(chunks), held)
    {
      for k := 0 to |held|
        invariant chunks.Keys == old(chunks).Keys
        invariant forall id :: id in chunks ==>
                    chunks[id] == if id in held[..k] then Freed(old(chunks)[id]) else old(chunks)[id]
      {
        var chunk := chunks[held[k]];
        chunk := chunk.(claimed := false, holder := None, workspace := None, environments := []);
        if chunk.status == Running {
          chunk := chunk.(status := Ready);
        }
        assert held[..k + 1] == held[..k] + [held[k]];
        chunks := chunks[held[k] := chunk];
      }
      assert held[..|held|] == held;
    }

    // ----- operator verbs

    method PauseChunk(id: string) returns (paused: bool)
      modifies this
      ensures paused <==> id in old(chunks) && Pausable(old(chunks)[id].status)
      ensures Value() == PauseStep(old(Value()), id)
      ensures old(Valid()) ==> Valid()
    {
      if Valid() {
        PauseKeepsSound(Value(), id);
      }
      if id !in chunks {
        return false;
      }
      var chunk := chunks[id];
      if !Pausable(chunk.status) {
        assert chunks == chunks[id := chunk];
        return false;
      }
      if chunk.status != Paused {
        chunk := chunk.(beforePause := Some(chunk.status));
        chunk := chunk.(status := StatusIfPaused(chunk.status));
      }
      chunks := chunks[id := chunk];
      return true;
    }

    method ResumeChunk(id: string) returns (known: bool)
      modifies this
      ensures known <==> id in old(chunks)
      ensures Value() == ResumeStep(old(Value()), id)
      ensures old(Valid()) ==> Valid()
    {
      if Valid() {
        ResumeKeepsSound(Value(), id);
      }
      if id !in chunks {
        return false;
      }
      var chunk := chunks[id];
      if chunk.status == Paused {
        chunk := chunk.(status := if chunk.beforePause.Some? then chunk.beforePause.value else Ready);
      }
      chunk := chunk.(beforePause := None);
      chunks := chunks[id := chunk];
      return true;
    }

    method StopChunk(id: string) returns (known: bool)
      modifies this
      ensures known <==> id in old(chunks)
      ensures Value() == StopStep(old(Value()), id)
      ensures old(Valid()) ==> Valid()
    {
      if Valid() {
        StopKeepsSound(Value(), id);
      }
      if id !in chunks {
        return false;
      }
      var chunk := chunks[id].(status := Stopped);
      chunk := chunk.(claimed := false);
      chunks := chunks[id := chunk];
      return true;
    }

    // ----- reports

    method ApplyFact(runner: string, body: FactBody) returns (applied: bool)
      requires runner in runners
      modifies this
      ensures applied == FactAdmitted(old(Value()), body)
      ensures Value() == if applied then FactEffect(old(Value()), runner, body) else old(Value())
      ensures old(Valid()) ==> Valid()
    {
      if Valid() {
        FactKeepsSound(Value(), runner, body);
      }
      match body
      case LeaseMinted(id, epoch) =>
        if id in chunks {
          var chunk := chunks[id].(latestEpoch := Max(chunks[id].latestEpoch, epoch));
          var key := (runners[runner].tenant, id, epoch);
          if key !in epochOwners {
            epochOwners := epochOwners[key := runner];
          }
          chunks := chunks[id := chunk];
        }
        return true;
      case EscalationRecorded(id, epoch) =>
        if id in chunks {
          if FenceRefuses(chunks[id], epoch) {
            return false;
          }
          chunks := chunks[id := chunks[id].(escalated := Some(epoch))];
        }
        return true;
      case QuestionAsked(q, id, epoch) =>
        if q == "" || id == "" {
          return false;
        }
        if id in chunks && q !in questions && FenceRefuses(chunks[id], epoch) {
          return false;
        }
        questions := questions[q := Question(id, epoch, runner, false, false)];
        return true;
      case AnswerDelivered(q, id) =>
        if q !in questions || questions[q].chunk != id || !questions[q].answered {
          return false;
        }
        if questions[q].delivered {
          assert questions == questions[q := questions[q].(delivered := true)];
          return true;
        }
        questions := questions[q := questions[q].(delivered := true)];
        return true;
      case LocallyPaused(_) =>
        applied := ApplyReport(runner, body);
      case LocallyResumed =>
        applied := ApplyReport(runner, body);
      case UsageSampled(_, _) =>
        applied := ApplyReport(runner, body);
      case UsageMissed(_, _) =>
        applied := ApplyReport(runner, body);
      case UsageRecorded => return true;
      case EventRecorded => return true;
      case UnknownKind => return false;
    }

    /** The kinds that land on what a runner reported of itself. */
    method ApplyReport(runner: string, body: FactBody) returns (applied: bool)
      requires body.LocallyPaused? || body.LocallyResumed? || body.UsageSampled? || body.UsageMissed?
      modifies this`reported
      ensures applied == FactAdmitted(old(Value()), body)
      ensures Value() == if applied then FactEffect(old(Value()), runner, body) else old(Value())
    {
      var r := if runner in reported then reported[runner] else UNREPORTED;
      match body {
        case LocallyPaused(operator) =>
          r := r.(locallyPaused := true, pausedBy := Some(operator));
        case LocallyResumed =>
          r := r.(locallyPaused := false, pausedBy := None);
        case UsageSampled(slug, sample) =>
          if slug == "" {
            return false;
          }
          r := r.(usage := r.usage[slug := sample]);
        case UsageMissed(slug, miss) =>
          if slug == "" {
            return false;
          }
          r := r.(misses := r.misses[slug := miss]);
      }
      reported := reported[runner := r];
      return true;
    }

    /** A batched push: facts in seq order against the runner's mark, each filed in one list. */
    method IngestFacts(runner: string, facts: seq<Fact>)
      returns (mark: int, applied: seq<int>, already: seq<int>, rejected: seq<int>)
      requires runner in runners
      modifies this
      ensures Value() == PushStep(old(Value()), runner, facts)
      ensures
        var i := Pushed(old(Value()), runner, facts);
        mark == i.mark && applied == i.applied && already == i.already && rejected == i.rejected
      ensures old(Valid()) ==> Valid()
    {
      if Valid() {
        PushKeepsSound(Value(), runner, facts);
      }
      mark := if runner in factMarks then factMarks[runner] else 0;
      applied, already, rejected := [], [], [];
      var batch := Sort(facts, BY_SEQ);
      ghost var start := Intake(Value(), mark, [], [], []);
      ghost var intake := start;
      for k := 0 to |batch|
        invariant runner in runners
        invariant intake == TakeFacts(start, runner, batch[..k])
        invariant intake == Intake(Value(), mark, applied, already, rejected)
      {
        assert batch[..k + 1][..k] == batch[..k];
        var fact := batch[k];
        HubFacts.FactKeepsRunners(intake.hub, runner, fact.body);
        intake := TakeFact(intake, runner, fact);
        if fact.seqNo <= mark {
          already := already + [fact.seqNo];
        } else {
          var ok := ApplyFact(runner, fact.body);
          if ok {
            applied := applied + [fact.seqNo];
            mark := Max(mark, fact.seqNo);
          } else {
            rejected := rejected + [fact.seqNo];
          }
        }
      }
      assert batch[..|batch|] == batch;
      factMarks := factMarks[runner := mark];
    }

    method AttemptIncoherent(id: string, fromNode: string, epoch: int) returns (incoherent: bool)
      requires id in chunks
      ensures incoherent <==> Incoherent(Value(), id, fromNode, epoch)
    {
      var chunk := chunks[id];
      if chunk.current.Some? && fromNode != chunk.current.value {
        return true;
      }
      if chunk.escalated == Some(epoch) {
        return true;
      }
      return exists q :: q in questions && questions[q].chunk == id && questions[q].epoch == epoch
                         && !questions[q].answered;
    }

    method ApplyCompletion(id: string, epoch: int, fromNode: string, choice: string, levers: ApplyLevers)
      returns (reply: ApplyReply)
      modifies this
      ensures (Value(), reply) == CompleteStep(old(Value()), id, epoch, fromNode, choice, levers)
      ensures old(Valid()) ==> Valid()
    {
      if Valid() {
        CompleteKeepsSound(Value(), id, epoch, fromNode, choice, levers);
      }
      if id !in chunks {
        return ApplyNotFound;
      }
      if levers.graphMissing {
        return ApplyGraphMissing;
      }
      var chunk := chunks[id];
      if levers.replay && chunk.lastResponse.Some? {
        return Answered(chunk.lastResponse.value);
      }
      var key := CompletionKey(fromNode, epoch);
      if key in chunk.applied {
        return Rebuild(chunk, id, chunk.applied[key]);
      }
      var target := ResolveCompletion(id, epoch, fromNode, choice);
      if target.None? {
        return FAILED;
      }
      var response := RecordAdvance(id, key, target.value);
      return Answered(response);
    }

    /** The target of a completion, after the fence, the attempt's coherence, the node and its executor. */
    method ResolveCompletion(id: string, epoch: int, fromNode: string, choice: string) returns (target: Option<string>)
      requires id in chunks
      ensures target == CompletionTarget(Value(), id, epoch, fromNode, choice)
    {
      var chunk := chunks[id];
      if epoch < chunk.latestEpoch {
        return None;
      }
      var incoherent := AttemptIncoherent(id, fromNode, epoch);
      if incoherent || fromNode !in chunk.graph.nodes {
        return None;
      }
      var node := chunk.graph.nodes[fromNode];
      if node.executor == HubExecuted {
        return None;
      }
      return ResolveChoice(node.choices, choice);
    }

    /** Moves the chunk to the target and records the outcome under the completion's key. */
    method RecordAdvance(id: string, key: string, target: string) returns (response: Response)
      requires id in chunks
      modifies this`chunks
      ensures
        var (moved, answer) := Advance(old(chunks)[id], id, target);
        var recorded := moved.(applied := moved.applied[key := answer.outcome], lastResponse := Some(answer));
        response == answer && chunks == old(chunks)[id := recorded]
    {
      var chunk;
      chunk, response := AdvanceTo(chunks[id], id, target);
      chunk := chunk.(applied := chunk.applied[key := response.outcome]);
      chunk := chunk.(lastResponse := Some(response));
      chunks := chunks[id := chunk];
    }

    method AdvanceTo(c: Chunk, id: string, target: string) returns (chunk: Chunk, response: Response)
      ensures (chunk, response) == Advance(c, id, target)
    {
      chunk := c;
      if target == TERMINAL {
        chunk := chunk.(status := Done);
        chunk := chunk.(current := Some(TERMINAL));
        return chunk, Response(ReachedEnd, None);
      }
      if target !in chunk.graph.nodes {
        return chunk, Response(Failure, None);
      }
      chunk := chunk.(current := Some(target));
      if chunk.graph.nodes[target].executor == HubExecuted {
        chunk := chunk.(status := Done);
        return chunk, Response(HubNodeTaken, None);
      }
      chunk := chunk.(status := Running);
      return chunk, Response(Next, Some(Envelope(id, target, chunk.latestEpoch)));
    }

    method ApplyDecision(id: string, epoch: int, fromNode: string, graphMissing: bool) returns (reply: ApplyReply)
      modifies this
      ensures (Value(), reply) == DecideStep(old(Value()), id, epoch, fromNode, graphMissing)
      ensures old(Valid()) ==> Valid()
    {
      if Valid() {
        DecideKeepsSound(Value(), id, epoch, fromNode, graphMissing);
      }
      if id !in chunks {
        return ApplyNotFound;
      }
      if graphMissing {
        return ApplyGraphMissing;
      }
      if epoch < chunks[id].latestEpoch {
        return FAILED;
      }
      var incoherent := AttemptIncoherent(id, fromNode, epoch);
      if incoherent {
        return FAILED;
      }
      chunks := chunks[id := chunks[id].(status := NeedsHuman)];
      return Answered(Response(ParkedAtGate, None));
    }

    method HubAdvance(id: string, graphMissing: bool) returns (ran: bool)
      modifies this
      ensures ran <==> id in old(chunks) && !graphMissing && ParkedAtHubNode(old(chunks)[id])
      ensures Value() == HubAdvanceStep(old(Value()), id, graphMissing)
      ensures old(Valid()) ==> Valid()
    {
      if Valid() {
        HubAdvanceKeepsSound(Value(), id, graphMissing);
      }
      if id !in chunks || graphMissing {
        return false;
      }
      if !ParkedAtHubNode(chunks[id]) {
        return false;
      }
      chunks := chunks[id := chunks[id].(status := Done)];
      return true;
    }

    method AnswerQuestion(question: string) returns (known: bool)
      modifies this
      ensures known <==> question in old(questions)
      ensures Value() == AnswerStep(old(Value()), question)
      ensures old(Valid()) ==> Valid()
    {
      if question !in questions {
        return false;
      }
      questions := questions[question := questions[question].(answered := true)];
      return true;
    }

    // ----- the queue

    /** The matched peek's scan: it answers the declarative choice, which is the oldest qualifying chunk, at its index
        in the whole ready order. */
    method PeekMatched(runner: string, q: Query) returns (reply: PeekReply)
      ensures runner !in runners ==> reply == PeekUnknownRunner
      ensures runner in runners ==> IsChoice(Value(), runners[runner], q, reply)
      ensures runner in runners ==> OldestQualifying(Value(), runners[runner], q, reply)
    {
      if runner !in runners {
        return PeekUnknownRunner;
      }
      var row := runners[runner];
      var served := OfferedProjects(hosts, row, q.named);
      var stopped: set<string> := {};
      var ready := ReadyIds(order, chunks);
      ghost var s := Value();
      for k := 0 to |ready|
        invariant Scanned(s, row, q, ready, k, stopped)
      {
        var id := ready[k];
        var chunk := chunks[id];
        if chunk.project !in served || chunk.project in stopped {
          ScanPasses(s, row, q, ready, k, stopped);
          continue;
        }
        var ineligible := CapabilityIneligible(chunk.graph, chunk.WorkNode(), q.caps);
        if id !in q.blocked && !ineligible {
          ScanOffers(s, row, q, ready, k, stopped);
          ChoiceIsOldest(s, row, q, PeekOffer(id, k));
          return PeekOffer(id, k);
        }
        if Holds(q.policy) && q.named.None? {
          ScanHolds(s, row, q, ready, k, stopped);
          ChoiceIsOldest(s, row, q, PeekNothing);
          return PeekNothing;
        }
        ScanStops(s, row, q, ready, k, stopped);
        if Holds(q.policy) {
          stopped := stopped + {chunk.project};
        }
      }
      ChoiceIsOldest(s, row, q, PeekNothing);
      return PeekNothing;
    }
  }
}
