/** Safety over whole runs of the hub: what one event can do to one chunk, and what follows for its fence,
    its outcome table, its holder and the nodes it can come to stand at. */
module HubHistory {
  import opened Options
  import opened Numbers
  import opened Matching
  import opened Lexical
  import opened HubModel
  import opened HubInvariants

  // ----- one event, one chunk

  /** A completion the hub takes: not replayed, not recorded, at or above the fence, coherent, and leading somewhere. */
  ghost predicate Taken(s: HubState, e: Event, id: string)
  {
    && e.Complete? && e.id == id && id in s.chunks && !e.applyLevers.graphMissing
    && !(e.applyLevers.replay && s.chunks[id].lastResponse.Some?)
    && CompletionKey(e.fromNode, e.epoch) !in s.chunks[id].applied
    && CompletionTarget(s, id, e.epoch, e.fromNode, e.choice).Some?
  }

  /** A claim the hub grants. */
  ghost predicate Grants(s: HubState, e: Event, id: string)
  {
    e.Claim? && e.id == id && ClaimRefusal(s, id, e.runner, e.claimLevers).None?
  }

  /** A gate decision the hub accepts. */
  ghost predicate Parks(s: HubState, e: Event, id: string)
  {
    && e.Decide? && e.id == id && id in s.chunks && !e.graphMissing
    && e.epoch >= s.chunks[id].latestEpoch && !Incoherent(s, id, e.fromNode, e.epoch)
  }

  /** The three ways a route ends: the holder's own accepted release, a stop, or its holder's retirement. */
  ghost predicate FreesRoute(s: HubState, e: Event, id: string)
  {
    id in s.chunks && s.chunks[id].claimed &&
    var c := s.chunks[id];
    || (e.Release? && e.id == id && ReleaseRefusal(c, e.runner, e.epoch, e.token, e.enforceToken).None?)
    || (e.StopChunk? && e.id == id)
    || (e.RetireHosted? && c.holder == Some(e.runner)
        && RetireStep(s, e.host, e.runner, e.force, e.conflict).1.Retired?)
  }

  ghost predicate Reseeds(e: Event, id: string)
  {
    e.SeedChunk? && e.id == id
  }

  /** What facts can do to a chunk: raise its fence and set its escalation. */
  ghost predicate OnlyReported(c: Chunk, c': Chunk)
  {
    c' == c.(latestEpoch := c'.latestEpoch, escalated := c'.escalated) && c'.latestEpoch >= c.latestEpoch
  }

  /** All that `e` can do to chunk `c` of hub `s`. */
  ghost predicate ChunkMoved(s: HubState, e: Event, id: string, c': Chunk)
    requires id in s.chunks
  {
    var c := s.chunks[id];
    match e
    case Claim(_, runner, ws, envs, _) => c' == if Grants(s, e, id) then Granted(c, id, runner, ws, envs) else c
    case Rekey(_, _) => c' == c || c' == WithNewToken(c, id)
    case Release(_, runner, epoch, reason, _, _) =>
      c' == if FreesRoute(s, e, id) then GivenBack(c, runner, epoch, reason) else c
    case PauseChunk(x) => c' == if x == id then PausedChunk(c) else c
    case ResumeChunk(x) => c' == if x == id then ResumedChunk(c) else c
    case StopChunk(x) => c' == if x == id then StoppedChunk(c) else c
    case PushFacts(_, _) => OnlyReported(c, c')
    case Complete(_, epoch, fromNode, choice, _) =>
      c' == if Taken(s, e, id) then
              Completed(c, id, fromNode, epoch, CompletionTarget(s, id, epoch, fromNode, choice).value)
            else c
    case Decide(_, _, _, _) => c' == if Parks(s, e, id) then c.(status := NeedsHuman) else c
    case HubAdvance(_, _) => c' == c || (ParkedAtHubNode(c) && c' == c.(status := Done))
    case RetireHosted(_, _, _, _) => c' == if FreesRoute(s, e, id) then Freed(c) else c
    case _ => c' == c
  }

  lemma FactMovesChunk(s: HubState, runner: string, body: FactBody, id: string)
    requires HubSound(s) && id in s.chunks
    ensures id in FactEffect(s, runner, body).chunks
    ensures OnlyReported(s.chunks[id], FactEffect(s, runner, body).chunks[id])
  {
    match body
    case LeaseMinted(x, epoch) =>
      if x in s.chunks {
        WithChunkAt(s, x, s.chunks[x].(latestEpoch := Max(s.chunks[x].latestEpoch, epoch)), id);
      }
    case EscalationRecorded(x, epoch) =>
      if x in s.chunks {
        WithChunkAt(s, x, s.chunks[x].(escalated := Some(epoch)), id);
      }
    case _ =>
  }

  lemma {:induction false} FactsMoveChunk(i: Intake, runner: string, facts: seq<Fact>, id: string)
    requires HubSound(i.hub) && id in i.hub.chunks
    ensures id in TakeFacts(i, runner, facts).hub.chunks
    ensures OnlyReported(i.hub.chunks[id], TakeFacts(i, runner, facts).hub.chunks[id])
  {
    if facts != [] {
      FactsMoveChunk(i, runner, facts[..|facts| - 1], id);
      FactsKeepSound(i, runner, facts[..|facts| - 1]);
      FactMovesChunk(TakeFacts(i, runner, facts[..|facts| - 1]).hub, runner, facts[|facts| - 1].body, id);
    }
  }

  lemma ClaimMovesChunk(s: HubState, x: string, runner: string, ws: string, envs: seq<string>, levers: ClaimLevers,
                        id: string)
    requires id in s.chunks
    ensures
      var after := ClaimStep(s, x, runner, ws, envs, levers).0.chunks;
      id in after &&
      after[id] == if x == id && ClaimRefusal(s, id, runner, levers).None?
                   then Granted(s.chunks[id], id, runner, ws, envs) else s.chunks[id]
  {
    if ClaimRefusal(s, x, runner, levers).None? {
      WithChunkAt(s, x, Granted(s.chunks[x], x, runner, ws, envs), id);
    }
  }

  lemma ReleaseMovesChunk(s: HubState, x: string, runner: string, epoch: int, reason: string, token: Option<string>,
                          enforce: bool, id: string)
    requires id in s.chunks
    ensures
      var after := ReleaseStep(s, x, runner, epoch, reason, token, enforce).0.chunks;
      id in after &&
      after[id] == if x == id && ReleaseRefusal(s.chunks[id], runner, epoch, token, enforce).None?
                   then GivenBack(s.chunks[id], runner, epoch, reason) else s.chunks[id]
  {
    if x in s.chunks {
      WithChunkAt(s, x, GivenBack(s.chunks[x], runner, epoch, reason), id);
    }
  }

  lemma VerbMovesChunk(s: HubState, x: string, id: string)
    requires id in s.chunks
    ensures id in PauseStep(s, x).chunks && id in ResumeStep(s, x).chunks && id in StopStep(s, x).chunks
    ensures PauseStep(s, x).chunks[id] == if x == id then PausedChunk(s.chunks[id]) else s.chunks[id]
    ensures ResumeStep(s, x).chunks[id] == if x == id then ResumedChunk(s.chunks[id]) else s.chunks[id]
    ensures StopStep(s, x).chunks[id] == if x == id then StoppedChunk(s.chunks[id]) else s.chunks[id]
  {
    if x in s.chunks {
      WithChunkAt(s, x, PausedChunk(s.chunks[x]), id);
      WithChunkAt(s, x, ResumedChunk(s.chunks[x]), id);
      WithChunkAt(s, x, StoppedChunk(s.chunks[x]), id);
    }
  }

  lemma CompleteMovesChunk(s: HubState, e: Event, id: string)
    requires id in s.chunks && e.Complete?
    ensures
      var after := CompleteStep(s, e.id, e.epoch, e.fromNode, e.choice, e.applyLevers).0.chunks;
      id in after &&
      after[id] == if Taken(s, e, id)
                   then Completed(s.chunks[id], id, e.fromNode, e.epoch,
                                  CompletionTarget(s, id, e.epoch, e.fromNode, e.choice).value)
                   else s.chunks[id]
  {
    if Taken(s, e, e.id) {
      var target := CompletionTarget(s, e.id, e.epoch, e.fromNode, e.choice).value;
      WithChunkAt(s, e.id, Completed(s.chunks[e.id], e.id, e.fromNode, e.epoch, target), id);
    }
  }

  lemma ParkMovesChunk(s: HubState, e: Event, id: string)
    requires id in s.chunks && e.Decide?
    ensures
      var after := DecideStep(s, e.id, e.epoch, e.fromNode, e.graphMissing).0.chunks;
      id in after && after[id] == if Parks(s, e, id) then s.chunks[id].(status := NeedsHuman) else s.chunks[id]
  {
    if e.id in s.chunks {
      WithChunkAt(s, e.id, s.chunks[e.id].(status := NeedsHuman), id);
    }
  }

  lemma RekeyMovesChunk(s: HubState, x: string, runner: string, id: string)
    requires id in s.chunks
    ensures id in RekeyStep(s, x, runner).0.chunks
    ensures RekeyStep(s, x, runner).0.chunks[id] in {s.chunks[id], WithNewToken(s.chunks[id], id)}
  {
    if x in s.chunks {
      WithChunkAt(s, x, WithNewToken(s.chunks[x], x), id);
    }
  }

  lemma HubAdvanceMovesChunk(s: HubState, x: string, graphMissing: bool, id: string)
    requires id in s.chunks
    ensures
      var after := HubAdvanceStep(s, x, graphMissing).chunks;
      id in after &&
      (after[id] == s.chunks[id] || (ParkedAtHubNode(s.chunks[id]) && after[id] == s.chunks[id].(status := Done)))
  {
    if x in s.chunks {
      WithChunkAt(s, x, s.chunks[x].(status := Done), id);
    }
  }

  lemma SeedMovesNoOther(s: HubState, x: string, spec: ChunkSpec, id: string)
    requires id in s.chunks && x != id
    ensures id in SeedStep(s, x, spec).chunks && SeedStep(s, x, spec).chunks[id] == s.chunks[id]
  {
    WithChunkAt(s, x, Seeded(spec), id);
  }

  lemma RetireMovesChunk(s: HubState, host: string, runner: string, force: bool, conflict: Option<bool>, id: string)
    requires HubSound(s) && id in s.chunks
    ensures
      var (s', reply) := RetireStep(s, host, runner, force, conflict);
      id in s'.chunks &&
      s'.chunks[id] == if reply.Retired? && s.chunks[id].HeldBy(runner) then Freed(s.chunks[id]) else s.chunks[id]
  {
    RetireShape(s, host, runner, force, conflict);
  }

  lemma RouteEventMovesChunk(s: HubState, e: Event, id: string)
    requires HubSound(s) && id in s.chunks && (e.Claim? || e.Rekey? || e.Release? || e.RetireHosted?)
    ensures id in Step(s, e).chunks && ChunkMoved(s, e, id, Step(s, e).chunks[id])
  {
    match e
    case Claim(x, runner, ws, envs, levers) => ClaimMovesChunk(s, x, runner, ws, envs, levers, id);
    case Rekey(x, runner) => RekeyMovesChunk(s, x, runner, id);
    case Release(x, runner, epoch, reason, token, enforce) =>
      ReleaseMovesChunk(s, x, runner, epoch, reason, token, enforce, id);
    case RetireHosted(host, runner, force, conflict) => RetireMovesChunk(s, host, runner, force, conflict, id);
  }

  lemma WorkEventMovesChunk(s: HubState, e: Event, id: string)
    requires HubSound(s) && id in s.chunks && (e.PushFacts? || e.Complete? || e.Decide? || e.HubAdvance?)
    ensures id in Step(s, e).chunks && ChunkMoved(s, e, id, Step(s, e).chunks[id])
  {
    match e
    case PushFacts(runner, facts) =>
      FactsMoveChunk(Intake(s, MarkOf(s, runner), [], [], []), runner, Sorting.Sort(facts, BY_SEQ), id);
    case Complete(_, _, _, _, _) => CompleteMovesChunk(s, e, id);
    case Decide(_, _, _, _) => ParkMovesChunk(s, e, id);
    case HubAdvance(x, graphMissing) => HubAdvanceMovesChunk(s, x, graphMissing, id);
  }

  /** No event but a re-seed of its id does anything else to a chunk. */
  lemma StepMovesChunk(s: HubState, e: Event, id: string)
    requires HubSound(s) && id in s.chunks && !Reseeds(e, id)
    ensures id in Step(s, e).chunks && ChunkMoved(s, e, id, Step(s, e).chunks[id])
  {
    if e.Claim? || e.Rekey? || e.Release? || e.RetireHosted? {
      RouteEventMovesChunk(s, e, id);
    } else if e.PushFacts? || e.Complete? || e.Decide? || e.HubAdvance? {
      WorkEventMovesChunk(s, e, id);
    } else {
      match e
      case SeedChunk(x, spec) => SeedMovesNoOther(s, x, spec, id);
      case PauseChunk(x) => VerbMovesChunk(s, x, id);
      case ResumeChunk(x) => VerbMovesChunk(s, x, id);
      case StopChunk(x) => VerbMovesChunk(s, x, id);
      case _ =>
    }
  }

  /** A stretch of a run in which chunk `id` exists throughout and is not seeded again. */
  ghost predicate Undisturbed(run: seq<Event>, id: string, from: nat, upto: nat)
  {
    from <= upto <= |run| && forall i :: from <= i < upto ==> !Reseeds(run[i], id)
  }

  ghost predicate Reserving(run: seq<Event>)
  {
    forall i :: 0 <= i < |run| ==> ReservesMarker(run[i])
  }

  // ----- fence and outcome table

  /** A later state of the same chunk: the graph stays, the fence never falls, recorded outcomes and releases stay. */
  ghost predicate Evolves(c: Chunk, c': Chunk)
  {
    && c'.graph == c.graph && c'.project == c.project
    && c.latestEpoch <= c'.latestEpoch
    && (forall k :: k in c.applied ==> k in c'.applied && c'.applied[k] == c.applied[k])
    && c.releases <= c'.releases
    && (c.current.Some? ==> c'.current.Some?)
  }

  lemma ChunkOpsEvolve(c: Chunk, id: string, runner: string, ws: string, envs: seq<string>, epoch: int, reason: string)
    ensures Evolves(c, PausedChunk(c)) && Evolves(c, ResumedChunk(c)) && Evolves(c, StoppedChunk(c))
    ensures Evolves(c, Freed(c)) && Evolves(c, WithNewToken(c, id))
    ensures Evolves(c, Granted(c, id, runner, ws, envs)) && Evolves(c, GivenBack(c, runner, epoch, reason))
  {
  }

  lemma CompletedEvolves(c: Chunk, id: string, fromNode: string, epoch: int, target: string)
    requires CompletionKey(fromNode, epoch) !in c.applied
    ensures Evolves(c, Completed(c, id, fromNode, epoch, target))
  {
  }

  lemma RouteMoveEvolves(s: HubState, e: Event, id: string, c': Chunk)
    requires id in s.chunks && ChunkMoved(s, e, id, c') && (e.Claim? || e.Rekey? || e.Release? || e.RetireHosted?)
    ensures Evolves(s.chunks[id], c')
  {
    var c := s.chunks[id];
    match e
    case Claim(_, runner, ws, envs, _) => ChunkOpsEvolve(c, id, runner, ws, envs, 0, "");
    case Release(_, runner, epoch, reason, _, _) => ChunkOpsEvolve(c, id, runner, "", [], epoch, reason);
    case _ => ChunkOpsEvolve(c, id, "", "", [], 0, "");
  }

  lemma CompleteMoveEvolves(s: HubState, e: Event, id: string, c': Chunk)
    requires id in s.chunks && ChunkMoved(s, e, id, c') && e.Complete?
    ensures Evolves(s.chunks[id], c')
  {
    if Taken(s, e, id) {
      CompletedEvolves(s.chunks[id], id, e.fromNode, e.epoch,
                       CompletionTarget(s, id, e.epoch, e.fromNode, e.choice).value);
    }
  }

  lemma MoveEvolves(s: HubState, e: Event, id: string, c': Chunk)
    requires id in s.chunks && ChunkMoved(s, e, id, c')
    ensures Evolves(s.chunks[id], c')
  {
    if e.Claim? || e.Rekey? || e.Release? || e.RetireHosted? {
      RouteMoveEvolves(s, e, id, c');
    } else if e.Complete? {
      CompleteMoveEvolves(s, e, id, c');
    } else {
      ChunkOpsEvolve(s.chunks[id], id, "", "", [], 0, "");
    }
  }

  /** Over every run the fence never falls and a recorded outcome never changes. */
  lemma {:induction false} RunEvolves(s0: HubState, run: seq<Event>, id: string, j: nat, k: nat)
    requires HubSound(s0) && Reserving(run) && Undisturbed(run, id, j, k) && id in At(s0, run, j).chunks
    ensures id in At(s0, run, k).chunks
    ensures Evolves(At(s0, run, j).chunks[id], At(s0, run, k).chunks[id])
    decreases k
  {
    if j < k {
      RunEvolves(s0, run, id, j, k - 1);
      var s := At(s0, run, k - 1);
      RunsAreSound(s0, run, k - 1);
      StepMovesChunk(s, run[k - 1], id);
      MoveEvolves(s, run[k - 1], id, Step(s, run[k - 1]).chunks[id]);
    }
  }

  /** The key under which an outcome is recorded never conflates two (node, epoch) pairs. */
  lemma CompletionKeyInjective(n1: string, e1: int, n2: string, e2: int)
    requires CompletionKey(n1, e1) == CompletionKey(n2, e2)
    ensures n1 == n2 && e1 == e2
  {
    DecimalHasNo(e1, '#');
    DecimalHasNo(e2, '#');
    SplitAtLastMark(n1, n2, Decimal(e1), Decimal(e2), '#');
    DecimalInjective(e1, e2);
  }

  /** The answer a completion is given. */
  ghost function ReplyTo(s: HubState, e: Event): ApplyReply
    requires e.Complete?
  {
    CompleteStep(s, e.id, e.epoch, e.fromNode, e.choice, e.applyLevers).1
  }

  /** Only a taken completion changes the outcome table, and it records exactly the outcome it answers, under its own
      key and as the chunk's last response. */
  lemma OutcomesComeFromTaken(s: HubState, e: Event, id: string)
    requires HubSound(s) && id in s.chunks && !Reseeds(e, id)
    ensures id in Step(s, e).chunks
    ensures
      var before, after := s.chunks[id].applied, Step(s, e).chunks[id].applied;
      if Taken(s, e, id) then
        && ReplyTo(s, e).Answered? && CompletionKey(e.fromNode, e.epoch) !in before
        && after == before[CompletionKey(e.fromNode, e.epoch) := ReplyTo(s, e).response.outcome]
        && (ReplyTo(s, e).response.next.Some? <==> ReplyTo(s, e).response.outcome == Next)
        && Step(s, e).chunks[id].lastResponse == Some(ReplyTo(s, e).response)
      else after == before
  {
    StepMovesChunk(s, e, id);
  }

  /** The outcome a taken completion answers tells where the chunk then stands, and the envelope, answered exactly
      with NEXT, is for that node at the fence. */
  lemma OutcomeTellsPlace(s: HubState, e: Event, id: string)
    requires HubSound(s) && Taken(s, e, id)
    ensures id in Step(s, e).chunks && ReplyTo(s, e).Answered?
    ensures
      var c, c', r := s.chunks[id], Step(s, e).chunks[id], ReplyTo(s, e).response;
      && (r.outcome == ReachedEnd <==> c'.current == Some(TERMINAL))
      && (r.outcome in {ReachedEnd, HubNodeTaken} ==> c'.status == Done)
      && (r.outcome == HubNodeTaken ==> ParkedAtHubNode(c'.(status := Running)))
      && (r.outcome == Next ==>
          && c'.status == Running && c'.current.Some? && c'.current.value in c'.graph.nodes
          && c'.graph.nodes[c'.current.value].executor == RunnerExecuted)
      && r.next == (if r.outcome == Next then Some(Envelope(id, c'.current.value, c'.latestEpoch)) else None)
      && (r.outcome == Failure ==> c'.status == c.status && c'.current == c.current)
      && r.outcome != ParkedAtGate
  {
    StepMovesChunk(s, e, id);
  }

  /** Exactly once: over every run no (node, epoch) is taken twice for one chunk. */
  lemma TakenAtMostOnce(s0: HubState, run: seq<Event>, id: string, i: nat, j: nat)
    requires HubSound(s0) && Reserving(run) && i < j < |run| && Undisturbed(run, id, i, j)
    requires run[i].Complete? && run[j].Complete?
    requires run[i].fromNode == run[j].fromNode && run[i].epoch == run[j].epoch
    ensures !(Taken(At(s0, run, i), run[i], id) && Taken(At(s0, run, j), run[j], id))
  {
    if Taken(At(s0, run, i), run[i], id) {
      TakenIsRecorded(s0, run, id, i);
      RunEvolves(s0, run, id, i + 1, j);
    }
  }

  /** The chunk has on record, under a key, the outcome of a response; only a NEXT response carries an envelope. */
  ghost predicate Records(c: Chunk, key: string, r: Response)
  {
    key in c.applied && c.applied[key] == r.outcome && (r.outcome != Next ==> r.next.None?)
  }

  lemma TakenIsRecorded(s0: HubState, run: seq<Event>, id: string, i: nat)
    requires HubSound(s0) && Reserving(run) && i < |run| && Taken(At(s0, run, i), run[i], id)
    ensures id in At(s0, run, i + 1).chunks && ReplyTo(At(s0, run, i), run[i]).Answered?
    ensures Records(At(s0, run, i + 1).chunks[id], CompletionKey(run[i].fromNode, run[i].epoch),
                    ReplyTo(At(s0, run, i), run[i]).response)
  {
    RunsAreSound(s0, run, i);
    OutcomesComeFromTaken(At(s0, run, i), run[i], id);
    assert At(s0, run, i + 1) == Step(At(s0, run, i), run[i]);
  }

  lemma RecordStays(s0: HubState, run: seq<Event>, id: string, j: nat, k: nat, key: string, r: Response)
    requires HubSound(s0) && Reserving(run) && Undisturbed(run, id, j, k)
    requires id in At(s0, run, j).chunks && Records(At(s0, run, j).chunks[id], key, r)
    ensures id in At(s0, run, k).chunks && Records(At(s0, run, k).chunks[id], key, r)
  {
    RunEvolves(s0, run, id, j, k);
  }

  const UNLEVERED := ApplyLevers(false, false)

  /** At one hub: resubmitting a recorded completion. */
  lemma RecordedAnswers(s: HubState, id: string, epoch: int, fromNode: string, choice: string, recorded: Outcome)
    requires HubSound(s) && id in s.chunks && CompletionKey(fromNode, epoch) in s.chunks[id].applied
    requires s.chunks[id].applied[CompletionKey(fromNode, epoch)] == recorded
    ensures
      var (s', reply) := CompleteStep(s, id, epoch, fromNode, choice, UNLEVERED);
      && s' == s
      && ((reply.Answered? && reply.response.outcome == recorded) <==>
          !(recorded == Next && s.chunks[id].current == Some(TERMINAL)))
      && (recorded != Next ==> reply == Answered(Response(recorded, None)))
      && (recorded == Next && reply.Answered? && s.chunks[id].current.Some? ==>
          reply.response.next == Some(Envelope(id, s.chunks[id].current.value, s.chunks[id].latestEpoch)))
      && (!reply.Answered? ==> reply == ApplyNotFound)
  {
  }

  /** Idempotence over runs: after a completion was taken, at every later point submitting it again, with any choice,
      leaves the hub as it is and answers the outcome first answered, if and only if that was not NEXT with the chunk
      now at the terminal marker; any other outcome is answered by the very response first given, and NEXT with an
      envelope for the node the chunk now stands at. */
  lemma ResubmissionAnswers(s0: HubState, run: seq<Event>, id: string, i: nat, k: nat, choice: string)
    requires HubSound(s0) && Reserving(run) && i < k <= |run| && Undisturbed(run, id, i, k)
    requires Taken(At(s0, run, i), run[i], id)
    ensures id in At(s0, run, k).chunks && ReplyTo(At(s0, run, i), run[i]).Answered?
    ensures
      var s, first := At(s0, run, k), ReplyTo(At(s0, run, i), run[i]).response;
      var (s', reply) := CompleteStep(s, id, run[i].epoch, run[i].fromNode, choice, UNLEVERED);
      && s' == s
      && ((reply.Answered? && reply.response.outcome == first.outcome) <==>
          !(first.outcome == Next && s.chunks[id].current == Some(TERMINAL)))
      && (first.outcome != Next ==> reply == Answered(first))
      && (first.outcome == Next && reply.Answered? && s.chunks[id].current.Some? ==>
          reply.response.next == Some(Envelope(id, s.chunks[id].current.value, s.chunks[id].latestEpoch)))
      && (!reply.Answered? ==> reply == ApplyNotFound)
  {
    var first := ReplyTo(At(s0, run, i), run[i]).response;
    TakenIsRecorded(s0, run, id, i);
    RecordStays(s0, run, id, i + 1, k, CompletionKey(run[i].fromNode, run[i].epoch), first);
    RunsAreSound(s0, run, k);
    RecordedAnswers(At(s0, run, k), id, run[i].epoch, run[i].fromNode, choice, first.outcome);
  }

  /** Below the fence a completion, recorded or not, levers or none, leaves the hub as it is; unrecorded it fails. */
  lemma StaleCompletionFails(s: HubState, id: string, epoch: int, fromNode: string, choice: string, levers: ApplyLevers)
    requires id in s.chunks && epoch < s.chunks[id].latestEpoch
    ensures CompleteStep(s, id, epoch, fromNode, choice, levers).0 == s
    ensures CompletionKey(fromNode, epoch) !in s.chunks[id].applied ==>
              CompleteStep(s, id, epoch, fromNode, choice, UNLEVERED) == (s, FAILED)
  {
  }

  /** Once the fence has passed an epoch, at no later point of any run does a completion of that epoch change anything,
      or is a decision of it accepted, from whatever node. */
  lemma FencedEpochIsDead(s0: HubState, run: seq<Event>, id: string, j: nat, k: nat, epoch: int, fromNode: string,
                          choice: string, levers: ApplyLevers)
    requires HubSound(s0) && Reserving(run) && Undisturbed(run, id, j, k)
    requires id in At(s0, run, j).chunks && epoch < At(s0, run, j).chunks[id].latestEpoch
    ensures !Taken(At(s0, run, k), Complete(id, epoch, fromNode, choice, levers), id)
    ensures CompleteStep(At(s0, run, k), id, epoch, fromNode, choice, levers).0 == At(s0, run, k)
    ensures !Parks(At(s0, run, k), Decide(id, epoch, fromNode, levers.graphMissing), id)
  {
    RunEvolves(s0, run, id, j, k);
    StaleCompletionFails(At(s0, run, k), id, epoch, fromNode, choice, levers);
  }

  // ----- the holder

  /** The holder of a claimed chunk stays unless the route is freed, and a route appears only by a granted claim, for
      the claiming runner. */
  ghost predicate RouteMoved(s: HubState, e: Event, id: string, c': Chunk)
    requires id in s.chunks
  {
    var c := s.chunks[id];
    && (c.claimed ==> (c'.claimed <==> !FreesRoute(s, e, id)))
    && (c.claimed && c'.claimed ==> c'.holder == c.holder)
    && (!c.claimed ==> (c'.claimed <==> Grants(s, e, id)))
    && (!c.claimed && c'.claimed ==> c'.holder == Some(e.runner))
  }

  lemma RouteEventMovesRoute(s: HubState, e: Event, id: string, c': Chunk)
    requires id in s.chunks && ChunkMoved(s, e, id, c') && ActsOnRoutes(e) && !Reseeds(e, id)
    ensures RouteMoved(s, e, id, c')
  {
  }

  /** What one event does to a route. */
  lemma RouteChanges(s: HubState, e: Event, id: string)
    requires HubSound(s) && id in s.chunks && !Reseeds(e, id)
    ensures id in Step(s, e).chunks && RouteMoved(s, e, id, Step(s, e).chunks[id])
  {
    StepMovesChunk(s, e, id);
    if ActsOnRoutes(e) {
      RouteEventMovesRoute(s, e, id, Step(s, e).chunks[id]);
    }
  }

  /** A chunk held by two different runners at two points of a run was freed and then claimed in between. */
  lemma {:induction false} HolderChangesOnlyByFreeing(s0: HubState, run: seq<Event>, id: string, j: nat, k: nat)
    returns (freed: nat, granted: nat)
    requires HubSound(s0) && Reserving(run) && Undisturbed(run, id, j, k)
    requires id in At(s0, run, j).chunks && At(s0, run, j).chunks[id].claimed
    requires id in At(s0, run, k).chunks && At(s0, run, k).chunks[id].claimed
    requires At(s0, run, j).chunks[id].holder != At(s0, run, k).chunks[id].holder
    ensures j <= freed < granted < k
    ensures FreesRoute(At(s0, run, freed), run[freed], id)
    ensures Grants(At(s0, run, granted), run[granted], id)
    ensures Some(run[granted].runner) == At(s0, run, k).chunks[id].holder
    decreases k
  {
    var s := At(s0, run, k - 1);
    RunsAreSound(s0, run, k - 1);
    RunEvolves(s0, run, id, j, k - 1);
    RouteChanges(s, run[k - 1], id);
    if s.chunks[id].claimed {
      freed, granted := HolderChangesOnlyByFreeing(s0, run, id, j, k - 1);
    } else {
      granted := k - 1;
      freed := FreedBefore(s0, run, id, j, k - 1);
    }
  }

  lemma {:induction false} FreedBefore(s0: HubState, run: seq<Event>, id: string, j: nat, k: nat) returns (freed: nat)
    requires HubSound(s0) && Reserving(run) && Undisturbed(run, id, j, k)
    requires id in At(s0, run, j).chunks && At(s0, run, j).chunks[id].claimed
    requires id in At(s0, run, k).chunks && !At(s0, run, k).chunks[id].claimed
    ensures j <= freed < k && FreesRoute(At(s0, run, freed), run[freed], id)
    decreases k
  {
    RunsAreSound(s0, run, k - 1);
    RunEvolves(s0, run, id, j, k - 1);
    RouteChanges(At(s0, run, k - 1), run[k - 1], id);
    if At(s0, run, k - 1).chunks[id].claimed {
      freed := k - 1;
    } else {
      freed := FreedBefore(s0, run, id, j, k - 1);
    }
  }

  // ----- the nodes a tenure can come to

  /** The chunk stands at the terminal marker or at a node reachable from `start`. */
  ghost predicate StandsWithin(c: Chunk, start: string)
  {
    c.current.Some? && (c.current.value == TERMINAL || Reach(c.graph, start, c.current.value))
  }

  /** The capabilities serve the node the chunk stands at, and everything it can still reach from there. */
  ghost predicate Covered(c: Chunk, caps: seq<Capability>)
  {
    && c.current.Some?
    && (c.current.value != TERMINAL ==> Eligible(c.graph, c.current.value, caps))
    && (c.current.value in c.graph.nodes && c.graph.nodes[c.current.value].executor == RunnerExecuted ==>
        LineageSatisfied(c.graph, c.current.value, caps))
  }

  lemma MoveStaysWithin(s: HubState, e: Event, id: string, c': Chunk, start: string)
    requires id in s.chunks && Sound(s.chunks[id])
    requires ChunkMoved(s, e, id, c') && !Grants(s, e, id)
    requires StandsWithin(s.chunks[id], start)
    ensures StandsWithin(c', start)
  {
    if Taken(s, e, id) {
      var c := s.chunks[id];
      var target := CompletionTarget(s, id, e.epoch, e.fromNode, e.choice).value;
      assert e.fromNode == c.current.value;
      if target != TERMINAL {
        assert Edge(c.graph, e.fromNode, target);
        ReachOnward(c.graph, start, e.fromNode, target);
      }
    }
  }

  /** No claim of the chunk is granted in a stretch of a run. */
  ghost predicate NoGrants(s0: HubState, run: seq<Event>, id: string, from: nat, upto: nat)
    requires upto <= |run|
  {
    forall i :: from <= i < upto ==> !GrantsAt(s0, run, id, i)
  }

  ghost predicate GrantsAt(s0: HubState, run: seq<Event>, id: string, i: nat)
    requires i < |run|
  {
    Grants(At(s0, run, i), run[i], id)
  }

  lemma {:induction false} RunStaysWithin(s0: HubState, run: seq<Event>, id: string, j: nat, k: nat, start: string)
    requires HubSound(s0) && Reserving(run) && Undisturbed(run, id, j, k)
    requires NoGrants(s0, run, id, j, k)
    requires id in At(s0, run, j).chunks && StandsWithin(At(s0, run, j).chunks[id], start)
    ensures id in At(s0, run, k).chunks && StandsWithin(At(s0, run, k).chunks[id], start)
    decreases k
  {
    if j < k {
      RunStaysWithin(s0, run, id, j, k - 1, start);
      var s := At(s0, run, k - 1);
      RunsAreSound(s0, run, k - 1);
      StepMovesChunk(s, run[k - 1], id);
      assert !GrantsAt(s0, run, id, k - 1);
      MoveStaysWithin(s, run[k - 1], id, Step(s, run[k - 1]).chunks[id], start);
    }
  }

  lemma TenureStaysCovered(s0: HubState, run: seq<Event>, k: nat, id: string, start: string, caps: seq<Capability>)
    requires HubSound(s0) && Reserving(run) && k <= |run| && Undisturbed(run, id, 0, k)
    requires id in s0.chunks && StandsWithin(s0.chunks[id], start) && Eligible(s0.chunks[id].graph, start, caps)
    requires NoGrants(s0, run, id, 0, k)
    ensures id in At(s0, run, k).chunks && Covered(At(s0, run, k).chunks[id], caps)
  {
    RunStaysWithin(s0, run, id, 0, k, start);
    RunEvolves(s0, run, id, 0, k);
    RunsAreSound(s0, run, k);
    WithinIsCovered(At(s0, run, k).chunks[id], start, caps);
  }

  /** After a granted claim, in every run up to the next grant, whatever else happens, the chunk stands only at
      nodes that the capabilities stored at the claim can work, from there onwards too. */
  lemma ClaimCoversTenure(s: HubState, claim: Event, run: seq<Event>, k: nat, id: string)
    requires HubSound(s) && Grants(s, claim, id)
    requires Reserving(run) && k <= |run| && Undisturbed(run, id, 0, k) && NoGrants(Step(s, claim), run, id, 0, k)
    ensures claim.runner in s.runners
    ensures id in At(Step(s, claim), run, k).chunks
    ensures Covered(At(Step(s, claim), run, k).chunks[id], s.runners[claim.runner].capabilities)
  {
    StepKeepsSound(s, claim);
    GrantStands(s, claim, id);
    TenureStaysCovered(Step(s, claim), run, k, id, s.chunks[id].WorkNode(), s.runners[claim.runner].capabilities);
  }

  lemma GrantStands(s: HubState, e: Event, id: string)
    requires HubSound(s) && Grants(s, e, id)
    ensures id in s.chunks && e.runner in s.runners && id in Step(s, e).chunks
    ensures StandsWithin(Step(s, e).chunks[id], s.chunks[id].WorkNode())
    ensures Eligible(Step(s, e).chunks[id].graph, s.chunks[id].WorkNode(), s.runners[e.runner].capabilities)
  {
    StepMovesChunk(s, e, id);
    ReachSelf(s.chunks[id].graph, s.chunks[id].WorkNode());
  }

  lemma WithinIsCovered(c: Chunk, start: string, caps: seq<Capability>)
    requires Sound(c) && StandsWithin(c, start) && Eligible(c.graph, start, caps)
    ensures Covered(c, caps)
  {
    if c.current.value != TERMINAL {
      EligibilityCarriesOver(c.graph, start, c.current.value, caps);
      ReachSelf(c.graph, c.current.value);
    }
  }

  // ----- where the protocol is weaker than it looks

  /** The target of a taken completion is a runner node. */
  ghost predicate TakenOntoRunnerNode(s: HubState, e: Event, id: string)
  {
    Taken(s, e, id) &&
    var c := s.chunks[id];
    var target := CompletionTarget(s, id, e.epoch, e.fromNode, e.choice).value;
    target in c.graph.nodes && c.graph.nodes[target].executor == RunnerExecuted
  }

  /** An ended chunk stays ended except by an accepted gate decision or a taken completion onto a runner node. */
  lemma EndedIsLeftExactlyBy(s: HubState, e: Event, id: string)
    requires HubSound(s) && id in s.chunks && s.chunks[id].Ended() && !Reseeds(e, id)
    ensures id in Step(s, e).chunks
    ensures
      !Step(s, e).chunks[id].Ended() <==>
        Parks(s, e, id) || TakenOntoRunnerNode(s, e, id)
  {
    StepMovesChunk(s, e, id);
  }

  /** A chunk comes to run without a live route exactly when nobody holds it and either a completion onto a runner
      node is taken, or a pause that found it running is resumed. */
  lemma RunsUnheldExactlyBy(s: HubState, e: Event, id: string)
    requires HubSound(s) && id in s.chunks && !Reseeds(e, id)
    requires s.chunks[id].claimed || s.chunks[id].status != Running
    ensures id in Step(s, e).chunks
    ensures
      var c, c' := s.chunks[id], Step(s, e).chunks[id];
      c'.status == Running && !c'.claimed <==>
        && !c.claimed
        && (TakenOntoRunnerNode(s, e, id)
            || (e.ResumeChunk? && e.id == id && c.status == Paused && c.beforePause == Some(Running)))
  {
    StepMovesChunk(s, e, id);
  }

  /** Resuming undoes a pause, whether the pause took hold, was refused or yielded to a waiting human; only the
      memory of an earlier pause is lost. */
  lemma ResumeUndoesPause(c: Chunk)
    requires c.status != Paused
    ensures ResumedChunk(PausedChunk(c)) == c.(beforePause := None)
  {
  }

  /** Two runner nodes in a row, the second leading to the terminal marker. */
  const TWO_NODES := Graph("a", map["a" := Node(RunnerExecuted, [], [], [Choice("go", "b")]),
                                    "b" := Node(RunnerExecuted, [], [], [Choice("end", TERMINAL)])], [], [])

  const SHORT_RUN: seq<Event> :=
    [PutProject("p"), SeedChunk("c", ChunkSpec(TWO_NODES, "p", Ready)),
     Complete("c", 0, "a", "go", UNLEVERED), Complete("c", 0, "b", "end", UNLEVERED)]

  const SEEDED_HUB: HubState :=
    EMPTY_HUB.(projects := {"p"}, order := ["c"], chunks := map["c" := Seeded(ChunkSpec(TWO_NODES, "p", Ready))])

  ghost const MOVED_CHUNK: Chunk := Completed(Seeded(ChunkSpec(TWO_NODES, "p", Ready)), "c", "a", 0, "b")

  lemma ShortRunSeeds()
    ensures At(EMPTY_HUB, SHORT_RUN, 2) == SEEDED_HUB
  {
    assert At(EMPTY_HUB, SHORT_RUN, 1) == EMPTY_HUB.(projects := {"p"});
  }

  lemma ShortRunMoves()
    ensures At(EMPTY_HUB, SHORT_RUN, 3) == SEEDED_HUB.(chunks := map["c" := MOVED_CHUNK])
  {
    ShortRunSeeds();
    assert CompletionTarget(SEEDED_HUB, "c", 0, "a", "go") == Some("b");
  }

  lemma ShortRunEnds()
    ensures At(EMPTY_HUB, SHORT_RUN, 4) ==
            SEEDED_HUB.(chunks := map["c" := Completed(MOVED_CHUNK, "c", "b", 0, TERMINAL)])
    ensures CompletionKey("a", 0) != CompletionKey("b", 0)
  {
    ShortRunMoves();
    var s3 := SEEDED_HUB.(chunks := map["c" := MOVED_CHUNK]);
    assert CompletionTarget(s3, "c", 0, "b", "end") == Some(TERMINAL);
    assert CompletionKey("a", 0)[0] != CompletionKey("b", 0)[0];
  }

  /** A run shows both weaknesses at once: a completion nobody claimed leaves the chunk running without a holder,
      and once it has ended, resubmitting the first completion finds no node instead of answering NEXT. */
  lemma ReplayAfterTheEndIsLost()
    ensures
      var s := At(EMPTY_HUB, SHORT_RUN, 3);
      "c" in s.chunks && s.chunks["c"].status == Running && !s.chunks["c"].claimed
    ensures
      var s := At(EMPTY_HUB, SHORT_RUN, 4);
      && "c" in s.chunks && CompletionKey("a", 0) in s.chunks["c"].applied
      && s.chunks["c"].applied[CompletionKey("a", 0)] == Next
      && CompleteStep(s, "c", 0, "a", "go", UNLEVERED) == (s, ApplyNotFound)
  {
    ShortRunMoves();
    ShortRunEnds();
  }

  /** And an end can be left: in this run a stopped chunk comes to run again, by a completion. */
  lemma StoppedChunkRunsAgain()
    ensures
      var run := SHORT_RUN[..2] + [StopChunk("c"), Complete("c", 0, "a", "go", UNLEVERED)];
      && "c" in At(EMPTY_HUB, run, 3).chunks && At(EMPTY_HUB, run, 3).chunks["c"].status == Stopped
      && "c" in At(EMPTY_HUB, run, 4).chunks && At(EMPTY_HUB, run, 4).chunks["c"].status == Running
  {
    var run := SHORT_RUN[..2] + [StopChunk("c"), Complete("c", 0, "a", "go", UNLEVERED)];
    ShortRunSeeds();
    SamePrefix(EMPTY_HUB, SHORT_RUN, run, 2);
    var stopped := SEEDED_HUB.(chunks := map["c" := StoppedChunk(SEEDED_HUB.chunks["c"])]);
    assert At(EMPTY_HUB, run, 3) == stopped;
    assert CompletionTarget(stopped, "c", 0, "a", "go") == Some("b");
  }

  /** In this one a chunk that is done is parked at a gate, by a decision from the terminal marker. */
  lemma DoneChunkIsParked()
    ensures
      var run := SHORT_RUN + [Decide("c", 0, TERMINAL, false)];
      && "c" in At(EMPTY_HUB, run, 4).chunks && At(EMPTY_HUB, run, 4).chunks["c"].status == Done
      && "c" in At(EMPTY_HUB, run, 5).chunks && At(EMPTY_HUB, run, 5).chunks["c"].status == NeedsHuman
  {
    var run := SHORT_RUN + [Decide("c", 0, TERMINAL, false)];
    ShortRunEnds();
    SamePrefix(EMPTY_HUB, SHORT_RUN, run, 4);
  }

  /** Runs that agree on their first `k` events are at the same hub there. */
  lemma {:induction false} SamePrefix(s0: HubState, a: seq<Event>, b: seq<Event>, k: nat)
    requires k <= |a| && k <= |b| && a[..k] == b[..k]
    ensures At(s0, a, k) == At(s0, b, k)
  {
    if k > 0 {
      assert a[..k - 1] == a[..k][..k - 1] && b[..k - 1] == b[..k][..k - 1];
      assert a[k - 1] == a[..k][k - 1] && b[k - 1] == b[..k][k - 1];
      SamePrefix(s0, a, b, k - 1);
    }
  }
}
