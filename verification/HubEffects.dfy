/** What the hub's requests do, in plain terms: the check a claim fails on, what a grant hands over, what a release or
    a retirement gives back, and what seeding, re-keying, pausing and stopping leave. */
module HubEffects {
  import opened Options
  import opened Sequences
  import opened Matching
  import opened Lexical
  import opened HubModel
  import opened HubInvariants
  import opened HubQueue

  // ----- claims

  /** The checks of a claim in order, each with the refusal it stands for; `true` means refused. */
  ghost function ClaimChecks(s: HubState, id: string, runner: string, levers: ClaimLevers): seq<(bool, ClaimReply)>
    requires id in s.chunks
  {
    var c := s.chunks[id];
    var known := runner in s.runners;
    [(levers.graphMissing, ClaimGraphMissing),
     (known && s.runners[runner].retired, ClaimRunnerRetired),
     (levers.runnerRefused, ClaimLeverRefused),
     (!known || !s.runners[runner].registered, ClaimUnregistered),
     (known && s.runners[runner].paused, ClaimRunnerPaused),
     (c.status == Done || c.status == Stopped, ClaimTerminal),
     (c.claimed, ClaimConflict(if c.holder.Some? && c.holder.value != "" then c.holder.value else "unknown")),
     (c.status != Ready, ClaimNotReady),
     (levers.dependencyUnmet, ClaimDependencyUnmet),
     (known && !Serves(s.runners[runner], c.project), ClaimProjectDenied),
     (known && !Eligible(c.graph, StandsAt(c), s.runners[runner].capabilities), ClaimCapabilityDenied)]
  }

  /** The runner declared an entry that resolved to the project. */
  ghost predicate Serves(row: RunnerRow, project: string)
  {
    exists i :: 0 <= i < |row.projects| && row.projects[i].project == Some(project)
  }

  /** The node a chunk stands at, or would enter at. */
  function StandsAt(c: Chunk): string
  {
    if c.current == None || c.current == Some("") then c.graph.entry else c.current.value
  }

  ghost predicate FirstRefusal(checks: seq<(bool, ClaimReply)>, i: int)
  {
    0 <= i < |checks| && checks[i].0 && forall j :: 0 <= j < i ==> !checks[j].0
  }

  lemma ServedMeansServes(row: RunnerRow, project: string)
    ensures project in ServedProjects(row) <==> Serves(row, project)
  {
  }

  /** The checks of a claim, in order, are those of the step. */
  lemma ChecksDecide(s: HubState, id: string, runner: string, levers: ClaimLevers, i: int)
    requires id in s.chunks
    ensures
      var checks := ClaimChecks(s, id, runner, levers);
      && (FirstRefusal(checks, i) ==> ClaimRefusal(s, id, runner, levers) == Some(checks[i].1))
      && ((forall j :: 0 <= j < |checks| ==> !checks[j].0) ==> ClaimRefusal(s, id, runner, levers) == None)
  {
    var checks := ClaimChecks(s, id, runner, levers);
    if runner in s.runners {
      ServedMeansServes(s.runners[runner], s.chunks[id].project);
    }
    var passed := if FirstRefusal(checks, i) then i else if exists j :: 0 <= j < |checks| && checks[j].0 then 0 else 11;
    assert forall j :: 0 <= j < passed ==> !checks[j].0;
    assert passed > 0 ==> !checks[0].0;
    assert passed > 1 ==> !checks[1].0;
    assert passed > 2 ==> !checks[2].0;
    assert passed > 3 ==> !checks[3].0;
    assert passed > 4 ==> !checks[4].0;
    assert passed > 5 ==> !checks[5].0;
    assert passed > 6 ==> !checks[6].0;
    assert passed > 7 ==> !checks[7].0;
    assert passed > 8 ==> !checks[8].0;
    assert passed > 9 ==> !checks[9].0;
    assert passed > 10 ==> !checks[10].0;
    assert 0 <= i < |checks| ==> i in {0, 1, 2, 3, 4, 5, 6, 7, 8, 9, 10};
  }

  /** A refused claim names the first check that fails and changes nothing; with none failing it is granted. */
  lemma ClaimNamesFirstRefusal(s: HubState, id: string, runner: string, ws: string, envs: seq<string>,
                               levers: ClaimLevers)
    requires HubSound(s)
    ensures id !in s.chunks ==> ClaimStep(s, id, runner, ws, envs, levers) == (s, ClaimChunkUnknown)
    ensures id in s.chunks ==>
              && (forall i :: FirstRefusal(ClaimChecks(s, id, runner, levers), i) ==>
                    ClaimStep(s, id, runner, ws, envs, levers) == (s, ClaimChecks(s, id, runner, levers)[i].1))
              && ((forall i :: !FirstRefusal(ClaimChecks(s, id, runner, levers), i)) <==>
                  ClaimStep(s, id, runner, ws, envs, levers).1.ClaimGranted?)
  {
    if id in s.chunks {
      var checks := ClaimChecks(s, id, runner, levers);
      forall i
        ensures FirstRefusal(checks, i) ==> ClaimRefusal(s, id, runner, levers) == Some(checks[i].1)
      {
        ChecksDecide(s, id, runner, levers, i);
      }
      ClaimGrantedExactly(s, id, runner, ws, envs, levers);
      if j :| 0 <= j < |checks| && checks[j].0 {
        var i := FirstTrue(checks);
      } else {
        ChecksDecide(s, id, runner, levers, 0);
      }
    }
  }

  lemma {:induction false} FirstTrue(checks: seq<(bool, ClaimReply)>) returns (i: nat)
    requires exists j :: 0 <= j < |checks| && checks[j].0
    ensures FirstRefusal(checks, i)
  {
    var some := checks[..|checks| - 1];
    if j :| 0 <= j < |some| && some[j].0 {
      i := FirstTrue(some);
      assert forall j :: 0 <= j < i ==> checks[j] == some[j];
    } else {
      i := |checks| - 1;
      assert forall j :: 0 <= j < i ==> checks[j] == some[j];
    }
  }

  /** What a grant hands over: the envelope is for the node the chunk then stands at, where it stood or its entry, at
      its fence; the route is the claimer's, as asked for, under the answered token; nothing else of the hub changes. */
  lemma GrantHandsOver(s: HubState, id: string, runner: string, ws: string, envs: seq<string>, levers: ClaimLevers)
    requires HubSound(s) && ClaimStep(s, id, runner, ws, envs, levers).1.ClaimGranted?
    ensures id in s.chunks
    ensures
      var c, (s', reply) := s.chunks[id], ClaimStep(s, id, runner, ws, envs, levers);
      && id in s'.chunks && s' == s.(chunks := s.chunks[id := s'.chunks[id]])
      && reply.envelope == Envelope(id, StandsAt(c), c.latestEpoch) && StandsAt(c) in c.graph.nodes
      && reply.token == "mock-route-token-" + id + "-" + Decimal(c.latestEpoch)
      && s'.chunks[id] == c.(claimed := true, holder := Some(runner), workspace := Some(ws), environments := envs,
                             status := Running, current := Some(reply.envelope.node),
                             routeToken := Some(reply.token))
  {
  }

  // ----- re-keys and releases

  /** A re-key is granted exactly to the holder of a live route on a chunk not ended, and replaces the token. */
  lemma RekeyExactly(s: HubState, id: string, runner: string)
    ensures
      var (s', reply) := RekeyStep(s, id, runner);
      if id !in s.chunks || !s.chunks[id].claimed then (s', reply) == (s, RekeyNoRoute)
      else if s.chunks[id].holder != Some(runner) then (s', reply) == (s, RekeyNotHolder)
      else if s.chunks[id].status in {Done, Stopped} then (s', reply) == (s, RekeyTerminal)
      else
        && reply.Rekeyed? && id in s'.chunks && s' == s.(chunks := s.chunks[id := s'.chunks[id]])
        && s'.chunks[id] == s.chunks[id].(rekeys := s.chunks[id].rekeys + 1, routeToken := Some(reply.token))
        && reply.token == "mock-route-token-" + id + "-" + Decimal(s.chunks[id].latestEpoch) + "-rekey"
                          + Decimal(s.chunks[id].rekeys + 1)
  {
  }

  /** A release is accepted exactly from the holder of a running chunk at its fence, with the live token where that is
      enforced. The chunk is then in the queue again at the node it stood at, the release on record under its number. */
  lemma ReleaseExactly(s: HubState, id: string, runner: string, epoch: int, reason: string, token: Option<string>,
                       enforce: bool)
    requires id in s.chunks
    ensures
      var c, (s', reply) := s.chunks[id], ReleaseStep(s, id, runner, epoch, reason, token, enforce);
      var held := c.claimed && c.holder == Some(runner) && (enforce ==> c.routeToken.Some? && token == c.routeToken);
      && (reply.ReleaseAccepted? <==> held && c.status == Running && epoch == c.latestEpoch)
      && (reply == ReleaseNotHolder <==> !held || c.status in {Done, Stopped})
      && (reply == ReleaseStale <==> held && c.status == Running && epoch != c.latestEpoch)
      && (!reply.ReleaseAccepted? ==> s' == s)
      && (reply.ReleaseAccepted? ==>
          && id in s'.chunks && s' == s.(chunks := s.chunks[id := s'.chunks[id]])
          && s'.chunks[id] == c.(claimed := false, holder := None, workspace := None, environments := [],
                                 status := Ready, routeToken := None,
                                 releases := c.releases + [ReleaseRecord(runner, epoch, reason)])
          && reply.id == |s'.chunks[id].releases|)
  {
  }

  /** So any active registered runner that serves the project and can work the chunk from that node on can claim it. */
  lemma ReleasedIsClaimable(s: HubState, id: string, runner: string, epoch: int, reason: string, token: Option<string>,
                            enforce: bool, next: string, ws: string, envs: seq<string>)
    requires HubSound(s) && ReleaseStep(s, id, runner, epoch, reason, token, enforce).1.ReleaseAccepted?
    requires next in s.runners && s.runners[next].registered && !s.runners[next].paused && !s.runners[next].retired
    requires Serves(s.runners[next], s.chunks[id].project)
    requires Eligible(s.chunks[id].graph, StandsAt(s.chunks[id]), s.runners[next].capabilities)
    ensures
      var s' := ReleaseStep(s, id, runner, epoch, reason, token, enforce).0;
      var reply := ClaimStep(s', id, next, ws, envs, NO_LEVERS).1;
      reply.ClaimGranted? && reply.envelope.node == StandsAt(s.chunks[id])
  {
    var s' := ReleaseStep(s, id, runner, epoch, reason, token, enforce).0;
    ReleaseExactly(s, id, runner, epoch, reason, token, enforce);
    ReleaseKeepsSound(s, id, runner, epoch, reason, token, enforce);
    ServedMeansServes(s.runners[next], s.chunks[id].project);
    ClaimGrantedExactly(s', id, next, ws, envs, NO_LEVERS);
    GrantHandsOver(s', id, next, ws, envs, NO_LEVERS);
  }

  // ----- operator verbs

  /** Pausing: an ended or delivering chunk refuses it; one waiting for a human keeps its status; any other is paused,
      what it was is remembered, and until it is resumed no claim of it is granted. */
  lemma PauseExactly(s: HubState, id: string, runner: string, ws: string, envs: seq<string>, levers: ClaimLevers)
    requires id in s.chunks
    ensures
      var c, s' := s.chunks[id], PauseStep(s, id);
      && id in s'.chunks && s' == s.(chunks := s.chunks[id := s'.chunks[id]])
      && (c.status in {Done, Stopped, Delivering, Paused} ==> s'.chunks[id] == c)
      && (c.status == NeedsHuman ==> s'.chunks[id] == c.(beforePause := Some(NeedsHuman)))
      && (c.status in {NotReady, Ready, Running} ==>
          s'.chunks[id] == c.(status := Paused, beforePause := Some(c.status)))
      && !ClaimStep(s', id, runner, ws, envs, levers).1.ClaimGranted?
  {
  }

  /** Resuming restores a paused chunk's remembered status, ready where none is, and forgets it either way. */
  lemma ResumeExactly(s: HubState, id: string)
    requires id in s.chunks
    ensures
      var c, s' := s.chunks[id], ResumeStep(s, id);
      && id in s'.chunks && s' == s.(chunks := s.chunks[id := s'.chunks[id]])
      && s'.chunks[id] == c.(beforePause := None, status := s'.chunks[id].status)
      && (c.status != Paused ==> s'.chunks[id].status == c.status)
      && (c.status == Paused && c.beforePause == None ==> s'.chunks[id].status == Ready)
      && (c.status == Paused && c.beforePause != None ==> Some(s'.chunks[id].status) == c.beforePause)
  {
  }

  /** Stopping ends the chunk and its route in one write: no claim, re-key or release of it is accepted any more. */
  lemma StopExactly(s: HubState, id: string, runner: string, ws: string, envs: seq<string>, levers: ClaimLevers,
                    epoch: int, reason: string, token: Option<string>, enforce: bool)
    requires id in s.chunks
    ensures
      var s' := StopStep(s, id);
      && s' == s.(chunks := s.chunks[id := s.chunks[id].(status := Stopped, claimed := false)])
      && !ClaimStep(s', id, runner, ws, envs, levers).1.ClaimGranted?
      && RekeyStep(s', id, runner).1 == RekeyNoRoute
      && ReleaseStep(s', id, runner, epoch, reason, token, enforce).1 == ReleaseNotHolder
  {
  }

  /** An advance by the hub ends exactly a chunk that stands at a known hub node and is not done. */
  lemma HubAdvanceExactly(s: HubState, id: string)
    ensures
      HubAdvanceStep(s, id, false) ==
      if && id in s.chunks && s.chunks[id].status != Done && s.chunks[id].current != None
         && s.chunks[id].current.value in s.chunks[id].graph.nodes
         && s.chunks[id].graph.nodes[s.chunks[id].current.value].executor != RunnerExecuted
      then s.(chunks := s.chunks[id := s.chunks[id].(status := Done)]) else s
  {
  }

  // ----- seeding

  /** Seeding puts a fresh chunk, with nothing of its past, at the end of the order or, if its id was known, in the
      place it had. */
  lemma SeedExactly(s: HubState, id: string, spec: ChunkSpec)
    ensures
      var s' := SeedStep(s, id, spec);
      if spec.graph.entry !in spec.graph.nodes || spec.project !in s.projects || spec.status == Running then s' == s
      else
        && id in s'.chunks && s' == s.(order := s'.order, chunks := s.chunks[id := s'.chunks[id]])
        && (id in s.chunks ==> s'.order == s.order) && (id !in s.chunks ==> s'.order == s.order + [id])
        && s'.chunks[id] == Chunk(spec.graph, spec.project, None, spec.status, None, 0, false, None, None, [], 0, None,
                                  map[], None, None, [])
  {
  }

  // ----- retirement under a host

  ghost predicate HeldAt(s: HubState, runner: string, i: int)
  {
    && 0 <= i < |s.order| && s.order[i] in s.chunks
    && s.chunks[s.order[i]].claimed && s.chunks[s.order[i]].holder == Some(runner)
  }

  /** How many of the first `n` ids of the order the runner holds. */
  ghost function HeldBefore(s: HubState, runner: string, n: nat): nat
    requires n <= |s.order|
  {
    if n == 0 then 0 else HeldBefore(s, runner, n - 1) + if HeldAt(s, runner, n - 1) then 1 else 0
  }

  lemma {:induction false} HeldBeforeCounts(s: HubState, runner: string, n: nat)
    requires n <= |s.order|
    ensures HeldBefore(s, runner, n) == KeptBefore(s.order, HeldIn(s.chunks, runner), n)
  {
    if n > 0 {
      HeldBeforeCounts(s, runner, n - 1);
    }
  }

  /** The answered list is what the runner held, oldest first. */
  lemma HeldInOrder(s: HubState, runner: string)
    ensures
      var held := HeldIds(s.order, s.chunks, runner);
      && |held| == HeldBefore(s, runner, |s.order|)
      && forall i :: HeldAt(s, runner, i) ==>
           HeldBefore(s, runner, i) < |held| && held[HeldBefore(s, runner, i)] == s.order[i]
  {
    var held := HeldIds(s.order, s.chunks, runner);
    FilterPlaces(s.order, HeldIn(s.chunks, runner));
    HeldBeforeCounts(s, runner, |s.order|);
    forall i | HeldAt(s, runner, i)
      ensures HeldBefore(s, runner, i) < |held| && held[HeldBefore(s, runner, i)] == s.order[i]
    {
      HeldBeforeCounts(s, runner, i);
      assert HeldIn(s.chunks, runner)(s.order[i]);
    }
  }

  ghost predicate HoldsAny(s: HubState, runner: string)
  {
    exists i :: HeldAt(s, runner, i)
  }

  /** Retirement is refused to a runner of another host, and, unless forced, to one not yet retired that holds routes;
      a conflict lever refuses it, or, armed as an interruption, cuts it short of freeing the routes it finds. */
  lemma RetireExactly(s: HubState, host: string, runner: string, force: bool, conflict: Option<bool>)
    ensures
      var (s', reply) := RetireStep(s, host, runner, force, conflict);
      var held := HoldsAny(s, runner);
      if runner !in s.runners || s.runners[runner].host != Some(host) then (s', reply) == (s, RetireUnknownRunner)
      else if held && !force && !s.runners[runner].retired then (s', reply) == (s, RetireHoldsRoutes)
      else if conflict == Some(false) then (s', reply) == (s, RetireConflict)
      else
        && reply == (if conflict == Some(true) && held then RetireInterrupted
                     else Retired(HeldIds(s.order, s.chunks, runner)))
        && s' == s.(runners := s.runners[runner := s.runners[runner].(retired := true)], chunks := s'.chunks)
        && (reply == RetireInterrupted ==> s'.chunks == s.chunks)
  {
    HeldInOrder(s, runner);
    var held := HeldIds(s.order, s.chunks, runner);
    if held != [] {
      assert held[0] in held;
      var i :| 0 <= i < |s.order| && s.order[i] == held[0];
      assert HeldAt(s, runner, i);
    }
  }

  /** A completed retirement leaves the runner nothing and unable to claim; each route it held is free, running work
      back in the queue at its node, and every other chunk is as it was. */
  lemma RetirementFrees(s: HubState, host: string, runner: string, force: bool, conflict: Option<bool>, id: string,
                        ws: string, envs: seq<string>)
    requires HubSound(s) && RetireStep(s, host, runner, force, conflict).1.Retired? && id in s.chunks
    ensures
      var c, s' := s.chunks[id], RetireStep(s, host, runner, force, conflict).0;
      && id in s'.chunks
      && (!(c.claimed && c.holder == Some(runner)) ==> s'.chunks[id] == c)
      && (c.claimed && c.holder == Some(runner) ==>
          s'.chunks[id] == c.(claimed := false, holder := None, workspace := None, environments := [],
                              status := if c.status == Running then Ready else c.status))
      && ClaimStep(s', id, runner, ws, envs, NO_LEVERS) == (s', ClaimRunnerRetired)
  {
    RetireShape(s, host, runner, force, conflict);
    RetireExactly(s, host, runner, force, conflict);
  }
}
