/** What every run of the hub keeps: the shape of a chunk, its fence, its outcome table and its holder. */
module HubInvariants {
  import opened Options
  import opened Matching
  import opened HubModel

  // ----- the reachable-state invariant

  /** A claimed chunk names a holder and a node and is neither queued nor stopped; the current node is a graph
      node or the terminal marker; at the marker the chunk is done, stopped or waiting for a human. */
  ghost predicate Sound(c: Chunk)
  {
    && c.graph.entry in c.graph.nodes
    && TERMINAL !in c.graph.nodes
    && (c.current.Some? ==> c.current.value in c.graph.nodes || c.current.value == TERMINAL)
    && (c.claimed ==> c.holder.Some? && c.current.Some? && c.status !in {Ready, NotReady, Stopped})
    && (c.claimed && c.status == Paused ==> c.beforePause == Some(Running))
    && (c.current == Some(TERMINAL) ==> c.status in {Done, NeedsHuman, Stopped})
    && c.latestEpoch >= 0
  }

  ghost predicate HubSound(s: HubState)
  {
    && Distinct(s.order)
    && (forall id :: id in s.order <==> id in s.chunks)
    && forall id :: id in s.chunks ==> Sound(s.chunks[id])
  }

  /** Seeded graphs leave the terminal marker's id unused. */
  ghost predicate ReservesMarker(e: Event)
  {
    e.SeedChunk? ==> TERMINAL !in e.spec.graph.nodes
  }

  lemma ChunkMovesKeepSound(c: Chunk)
    requires Sound(c)
    ensures Sound(PausedChunk(c)) && Sound(ResumedChunk(c)) && Sound(StoppedChunk(c)) && Sound(Freed(c))
  {
  }

  lemma GrantKeepsSound(c: Chunk, id: string, runner: string, workspace: string, environments: seq<string>)
    requires Sound(c) && ChunkRefusal(c).None?
    ensures Sound(Granted(c, id, runner, workspace, environments))
    ensures c.WorkNode() in c.graph.nodes
  {
  }

  lemma CompletionKeepsSound(s: HubState, id: string, epoch: int, fromNode: string, choice: string, target: string)
    requires id in s.chunks && Sound(s.chunks[id])
    requires CompletionTarget(s, id, epoch, fromNode, choice) == Some(target)
    ensures Sound(Completed(s.chunks[id], id, fromNode, epoch, target))
  {
  }

  lemma SetSoundChunk(s: HubState, id: string, c: Chunk)
    requires HubSound(s) && id in s.chunks && Sound(c)
    ensures HubSound(WithChunk(s, id, c))
  {
  }

  lemma FactKeepsSound(s: HubState, runner: string, body: FactBody)
    requires HubSound(s)
    ensures HubSound(FactEffect(s, runner, body))
  {
  }

  lemma {:induction false} FactsKeepSound(i: Intake, runner: string, facts: seq<Fact>)
    requires HubSound(i.hub)
    ensures HubSound(TakeFacts(i, runner, facts).hub)
  {
    if facts != [] {
      FactsKeepSound(i, runner, facts[..|facts| - 1]);
      FactKeepsSound(TakeFacts(i, runner, facts[..|facts| - 1]).hub, runner, facts[|facts| - 1].body);
    }
  }

  lemma SeedKeepsSound(s: HubState, id: string, spec: ChunkSpec)
    requires HubSound(s) && TERMINAL !in spec.graph.nodes
    ensures HubSound(SeedStep(s, id, spec))
  {
  }

  lemma ClaimKeepsSound(s: HubState, id: string, runner: string, ws: string, envs: seq<string>, levers: ClaimLevers)
    requires HubSound(s)
    ensures HubSound(ClaimStep(s, id, runner, ws, envs, levers).0)
  {
    if ClaimRefusal(s, id, runner, levers).None? {
      GrantKeepsSound(s.chunks[id], id, runner, ws, envs);
      SetSoundChunk(s, id, Granted(s.chunks[id], id, runner, ws, envs));
    }
  }

  lemma ReleaseKeepsSound(s: HubState, id: string, runner: string, epoch: int, reason: string,
                          token: Option<string>, enforceToken: bool)
    requires HubSound(s)
    ensures HubSound(ReleaseStep(s, id, runner, epoch, reason, token, enforceToken).0)
  {
    if id in s.chunks && ReleaseRefusal(s.chunks[id], runner, epoch, token, enforceToken).None? {
      SetSoundChunk(s, id, GivenBack(s.chunks[id], runner, epoch, reason));
    }
  }

  lemma CompleteKeepsSound(s: HubState, id: string, epoch: int, fromNode: string, choice: string, levers: ApplyLevers)
    requires HubSound(s)
    ensures HubSound(CompleteStep(s, id, epoch, fromNode, choice, levers).0)
  {
    if id in s.chunks {
      var target := CompletionTarget(s, id, epoch, fromNode, choice);
      if target.Some? {
        CompletionKeepsSound(s, id, epoch, fromNode, choice, target.value);
        SetSoundChunk(s, id, Completed(s.chunks[id], id, fromNode, epoch, target.value));
      }
    }
  }

  lemma PauseKeepsSound(s: HubState, id: string)
    requires HubSound(s)
    ensures HubSound(PauseStep(s, id))
  {
    if id in s.chunks {
      ChunkMovesKeepSound(s.chunks[id]);
      SetSoundChunk(s, id, PausedChunk(s.chunks[id]));
    }
  }

  lemma ResumeKeepsSound(s: HubState, id: string)
    requires HubSound(s)
    ensures HubSound(ResumeStep(s, id))
  {
    if id in s.chunks {
      ChunkMovesKeepSound(s.chunks[id]);
      SetSoundChunk(s, id, ResumedChunk(s.chunks[id]));
    }
  }

  lemma StopKeepsSound(s: HubState, id: string)
    requires HubSound(s)
    ensures HubSound(StopStep(s, id))
  {
    if id in s.chunks {
      ChunkMovesKeepSound(s.chunks[id]);
      SetSoundChunk(s, id, StoppedChunk(s.chunks[id]));
    }
  }

  lemma RetireShape(s: HubState, host: string, runner: string, force: bool, conflict: Option<bool>)
    ensures
      var (s', reply) := RetireStep(s, host, runner, force, conflict);
      && s'.order == s.order
      && s'.chunks == if reply.Retired? then FreedAll(s.chunks, HeldIds(s.order, s.chunks, runner)) else s.chunks
  {
  }

  lemma RetireKeepsSound(s: HubState, host: string, runner: string, force: bool, conflict: Option<bool>)
    requires HubSound(s)
    ensures HubSound(RetireStep(s, host, runner, force, conflict).0)
  {
    RetireShape(s, host, runner, force, conflict);
    FreeingKeepsSound(s, HeldIds(s.order, s.chunks, runner));
  }

  lemma FreeingKeepsSound(s: HubState, held: seq<string>)
    requires HubSound(s)
    ensures HubSound(s.(chunks := FreedAll(s.chunks, held)))
  {
    forall id | id in s.chunks {
      ChunkMovesKeepSound(s.chunks[id]);
    }
  }

  lemma RekeyKeepsSound(s: HubState, id: string, runner: string)
    requires HubSound(s)
    ensures HubSound(RekeyStep(s, id, runner).0)
  {
    if id in s.chunks && s.chunks[id].claimed {
      SetSoundChunk(s, id, WithNewToken(s.chunks[id], id));
    }
  }

  lemma DecideKeepsSound(s: HubState, id: string, epoch: int, fromNode: string, graphMissing: bool)
    requires HubSound(s)
    ensures HubSound(DecideStep(s, id, epoch, fromNode, graphMissing).0)
  {
    if id in s.chunks {
      SetSoundChunk(s, id, s.chunks[id].(status := NeedsHuman));
    }
  }

  lemma HubAdvanceKeepsSound(s: HubState, id: string, graphMissing: bool)
    requires HubSound(s)
    ensures HubSound(HubAdvanceStep(s, id, graphMissing))
  {
    if id in s.chunks && ParkedAtHubNode(s.chunks[id]) {
      SetSoundChunk(s, id, s.chunks[id].(status := Done));
    }
  }

  lemma PushKeepsSound(s: HubState, runner: string, facts: seq<Fact>)
    requires HubSound(s)
    ensures HubSound(PushStep(s, runner, facts))
  {
    FactsKeepSound(Intake(s, MarkOf(s, runner), [], [], []), runner, Sorting.Sort(facts, BY_SEQ));
  }

  /** The requests that can change a route or the seeded chunks. */
  predicate ActsOnRoutes(e: Event)
  {
    e.SeedChunk? || e.Claim? || e.Rekey? || e.Release? || e.StopChunk? || e.RetireHosted?
  }

  lemma RouteStepKeepsSound(s: HubState, e: Event)
    requires HubSound(s) && ReservesMarker(e) && ActsOnRoutes(e)
    ensures HubSound(Step(s, e))
  {
    match e
    case SeedChunk(id, spec) => SeedKeepsSound(s, id, spec);
    case Claim(id, runner, ws, envs, levers) => ClaimKeepsSound(s, id, runner, ws, envs, levers);
    case Rekey(id, runner) => RekeyKeepsSound(s, id, runner);
    case Release(id, runner, epoch, reason, token, enforce) =>
      ReleaseKeepsSound(s, id, runner, epoch, reason, token, enforce);
    case StopChunk(id) => StopKeepsSound(s, id);
    case RetireHosted(host, runner, force, conflict) => RetireKeepsSound(s, host, runner, force, conflict);
  }

  lemma WorkStepKeepsSound(s: HubState, e: Event)
    requires HubSound(s) && !ActsOnRoutes(e) && !e.PauseChunk? && !e.ResumeChunk?
    ensures HubSound(Step(s, e))
  {
    match e
    case PushFacts(runner, facts) => PushKeepsSound(s, runner, facts);
    case Complete(id, epoch, fromNode, choice, levers) =>
      CompleteKeepsSound(s, id, epoch, fromNode, choice, levers);
    case Decide(id, epoch, fromNode, graphMissing) => DecideKeepsSound(s, id, epoch, fromNode, graphMissing);
    case HubAdvance(id, graphMissing) => HubAdvanceKeepsSound(s, id, graphMissing);
    case _ =>
  }

  lemma StepKeepsSound(s: HubState, e: Event)
    requires HubSound(s) && ReservesMarker(e)
    ensures HubSound(Step(s, e))
  {
    if ActsOnRoutes(e) {
      RouteStepKeepsSound(s, e);
    } else {
      match e
      case PauseChunk(id) => PauseKeepsSound(s, id);
      case ResumeChunk(id) => ResumeKeepsSound(s, id);
      case _ => WorkStepKeepsSound(s, e);
    }
  }

  /** Every state of every run from a sound hub is sound. */
  lemma {:induction false} RunsAreSound(s0: HubState, run: seq<Event>, k: nat)
    requires HubSound(s0) && k <= |run|
    requires forall i :: 0 <= i < |run| ==> ReservesMarker(run[i])
    ensures HubSound(At(s0, run, k))
  {
    if k > 0 {
      RunsAreSound(s0, run, k - 1);
      StepKeepsSound(At(s0, run, k - 1), run[k - 1]);
    }
  }

  /** A hub starts sound, so every reachable hub is. */
  lemma ReachableHubsAreSound(run: seq<Event>, k: nat)
    requires k <= |run|
    requires forall i :: 0 <= i < |run| ==> ReservesMarker(run[i])
    ensures HubSound(At(EMPTY_HUB, run, k))
  {
    RunsAreSound(EMPTY_HUB, run, k);
  }

  /** A claim is granted exactly under these conditions, and then never fails on its envelope. */
  lemma ClaimGrantedExactly(s: HubState, id: string, runner: string, workspace: string, environments: seq<string>,
                            levers: ClaimLevers)
    requires HubSound(s)
    ensures
      var (s', reply) := ClaimStep(s, id, runner, workspace, environments, levers);
      && reply != ClaimNodeMissing
      && (reply.ClaimGranted? <==>
          && levers == NO_LEVERS
          && id in s.chunks && runner in s.runners
          && s.chunks[id].status == Ready && !s.chunks[id].claimed
          && s.runners[runner].registered && !s.runners[runner].paused && !s.runners[runner].retired
          && s.chunks[id].project in ServedProjects(s.runners[runner])
          && Eligible(s.chunks[id].graph, s.chunks[id].WorkNode(), s.runners[runner].capabilities))
  {
  }
}
