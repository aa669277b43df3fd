/** Route capability tokens: a re-key never hands back a token the chunk has ever had live. */
module RouteTokens {
  import opened Options
  import opened Lexical
  import opened HubModel
  import opened HubInvariants
  import opened HubHistory

  const REKEY: string := "-rekey"

  /** A token a claim could have issued. */
  ghost predicate ClaimToken(id: string, token: string)
  {
    exists epoch :: epoch >= 0 && token == RouteToken(id, epoch)
  }

  /** A token the `n`th re-key could have issued. */
  ghost predicate RekeyToken(id: string, token: string, n: int)
  {
    exists epoch :: token == RouteToken(id, epoch) + REKEY + Decimal(n)
  }

  ghost predicate TokenFits(id: string, token: string, rekeys: int)
  {
    ClaimToken(id, token) || exists n :: 1 <= n <= rekeys && RekeyToken(id, token, n)
  }

  ghost predicate ChunkFits(id: string, c: Chunk)
  {
    c.routeToken.Some? ==> TokenFits(id, c.routeToken.value, c.rekeys)
  }

  // ----- no two issues collide

  lemma EndsInY(p: string, x: string)
    ensures p + REKEY + x == (p + "-reke") + ['y'] + x
  {
    assert REKEY == "-reke" + ['y'];
  }

  lemma StartsWithDash(p: string, x: string)
    ensures p + REKEY + x == p + ['-'] + ("rekey" + x)
  {
    assert REKEY == ['-'] + "rekey";
  }

  /** A re-key's token shows which re-key it was. */
  lemma SameRekey(p: string, q: string, m: int, n: int)
    requires p + REKEY + Decimal(m) == q + REKEY + Decimal(n)
    ensures m == n
  {
    EndsInY(p, Decimal(m));
    EndsInY(q, Decimal(n));
    DecimalHasNo(m, 'y');
    DecimalHasNo(n, 'y');
    SplitAtLastMark(p + "-reke", q + "-reke", Decimal(m), Decimal(n), 'y');
    DecimalInjective(m, n);
  }

  lemma NaturalTail(n: int)
    requires n >= 0
    ensures '-' !in Decimal(n) && '-' !in "rekey" + Decimal(n)
    ensures IsDigits(Decimal(n)) && !IsDigits("rekey" + Decimal(n))
  {
    assert ("rekey" + Decimal(n))[0] == 'r';
  }

  /** A re-key's token does not end in an epoch. */
  lemma RekeyIsNoEpoch(p: string, q: string, m: int, n: int)
    requires m >= 0 && n >= 0
    ensures p + REKEY + Decimal(m) != q + ['-'] + Decimal(n)
  {
    StartsWithDash(p, Decimal(m));
    NaturalTail(m);
    NaturalTail(n);
    if p + ['-'] + ("rekey" + Decimal(m)) == q + ['-'] + Decimal(n) {
      SplitAtLastMark(p, q, "rekey" + Decimal(m), Decimal(n), '-');
    }
  }

  lemma RekeyIsNoClaim(id: string, token: string, n: int)
    requires n >= 0 && RekeyToken(id, token, n)
    ensures !ClaimToken(id, token)
  {
    var a :| token == RouteToken(id, a) + REKEY + Decimal(n);
    forall b | b >= 0
      ensures token != RouteToken(id, b)
    {
      RekeyIsNoEpoch(RouteToken(id, a), "mock-route-token-" + id, n, b);
    }
  }

  lemma RekeysDiffer(id: string, token: string, m: int, n: int)
    requires RekeyToken(id, token, m) && RekeyToken(id, token, n)
    ensures m == n
  {
    var a :| token == RouteToken(id, a) + REKEY + Decimal(m);
    var b :| token == RouteToken(id, b) + REKEY + Decimal(n);
    SameRekey(RouteToken(id, a), RouteToken(id, b), m, n);
  }

  /** The next re-key's token is none of those that fit so far. */
  lemma NextTokenIsNew(id: string, token: string, fits: int, c: Chunk)
    requires TokenFits(id, token, fits) && fits <= c.rekeys
    ensures WithNewToken(c, id).routeToken != Some(token)
  {
    var next := WithNewToken(c, id).routeToken.value;
    assert next == RouteToken(id, c.latestEpoch) + REKEY + Decimal(c.rekeys + 1);
    assert RekeyToken(id, next, c.rekeys + 1);
    RekeyIsNoClaim(id, next, c.rekeys + 1);
    if token == next {
      var n :| 1 <= n <= fits && RekeyToken(id, token, n);
      RekeysDiffer(id, token, n, c.rekeys + 1);
    }
  }

  // ----- what an event does to the tokens

  lemma GrantFits(c: Chunk, id: string, runner: string, ws: string, envs: seq<string>)
    requires c.latestEpoch >= 0
    ensures ChunkFits(id, Granted(c, id, runner, ws, envs))
  {
    assert ClaimToken(id, RouteToken(id, c.latestEpoch));
  }

  lemma RekeyFits(c: Chunk, id: string)
    ensures ChunkFits(id, WithNewToken(c, id))
  {
    var next := WithNewToken(c, id).routeToken.value;
    assert next == RouteToken(id, c.latestEpoch) + REKEY + Decimal(c.rekeys + 1);
    assert RekeyToken(id, next, c.rekeys + 1);
  }

  lemma MoveKeepsFit(s: HubState, e: Event, id: string, c': Chunk)
    requires id in s.chunks && Sound(s.chunks[id]) && ChunkFits(id, s.chunks[id]) && ChunkMoved(s, e, id, c')
    ensures ChunkFits(id, c') && s.chunks[id].rekeys <= c'.rekeys
  {
    var c := s.chunks[id];
    if e.Rekey? {
      RekeyFits(c, id);
    } else if e.Claim? {
      GrantFits(c, id, e.runner, e.ws, e.envs);
    }
  }

  // ----- runs

  lemma FactKeepsOrder(s: HubState, runner: string, body: FactBody)
    ensures FactEffect(s, runner, body).order == s.order
  {
  }

  lemma {:induction false} FactsKeepOrder(i: Intake, runner: string, facts: seq<Fact>)
    ensures TakeFacts(i, runner, facts).hub.order == i.hub.order
  {
    if facts != [] {
      FactsKeepOrder(i, runner, facts[..|facts| - 1]);
      FactKeepsOrder(TakeFacts(i, runner, facts[..|facts| - 1]).hub, runner, facts[|facts| - 1].body);
    }
  }

  lemma ClaimKeepsOrder(s: HubState, e: Event)
    requires e.Claim?
    ensures ClaimStep(s, e.id, e.runner, e.ws, e.envs, e.claimLevers).0.order == s.order
  {
  }

  lemma RouteEventsKeepOrder(s: HubState, e: Event)
    requires ActsOnRoutes(e) && !e.SeedChunk?
    ensures Step(s, e).order == s.order
  {
    if e.Claim? {
      ClaimKeepsOrder(s, e);
    } else if e.RetireHosted? {
      RetireShape(s, e.host, e.runner, e.force, e.conflict);
    }
  }

  lemma PushKeepsOrder(s: HubState, runner: string, facts: seq<Fact>)
    ensures PushStep(s, runner, facts).order == s.order
  {
    FactsKeepOrder(Intake(s, MarkOf(s, runner), [], [], []), runner, Sorting.Sort(facts, BY_SEQ));
  }

  lemma WorkEventsKeepOrder(s: HubState, e: Event)
    requires e.Complete? || e.Decide? || e.HubAdvance?
    ensures Step(s, e).order == s.order
  {
  }

  lemma OnlySeedsAdd(s: HubState, e: Event)
    requires !e.SeedChunk?
    ensures Step(s, e).order == s.order
  {
    if ActsOnRoutes(e) {
      RouteEventsKeepOrder(s, e);
    } else if e.PushFacts? {
      PushKeepsOrder(s, e.runner, e.facts);
    } else if e.Complete? || e.Decide? || e.HubAdvance? {
      WorkEventsKeepOrder(s, e);
    }
  }

  /** A chunk the hub did not hold before has just been seeded, and holds no token. */
  lemma NewChunksHoldNoToken(s: HubState, e: Event, id: string)
    requires HubSound(s) && HubSound(Step(s, e))
    requires id in Step(s, e).chunks && (id !in s.chunks || Reseeds(e, id))
    ensures Step(s, e).chunks[id].routeToken.None? || (id in s.chunks && Step(s, e).chunks[id] == s.chunks[id])
  {
    if !e.SeedChunk? {
      OnlySeedsAdd(s, e);
    }
  }

  ghost predicate TokensFit(s: HubState)
  {
    forall id :: id in s.chunks ==> ChunkFits(id, s.chunks[id])
  }

  lemma StepKeepsTokensFit(s: HubState, e: Event)
    requires HubSound(s) && TokensFit(s) && ReservesMarker(e)
    ensures TokensFit(Step(s, e))
  {
    var s' := Step(s, e);
    StepKeepsSound(s, e);
    forall id | id in s'.chunks
      ensures ChunkFits(id, s'.chunks[id])
    {
      if id !in s.chunks || Reseeds(e, id) {
        NewChunksHoldNoToken(s, e, id);
      } else {
        StepMovesChunk(s, e, id);
        MoveKeepsFit(s, e, id, s'.chunks[id]);
      }
    }
  }

  lemma {:induction false} RunTokensFit(run: seq<Event>, k: nat)
    requires Reserving(run) && k <= |run|
    ensures TokensFit(At(EMPTY_HUB, run, k))
  {
    if k > 0 {
      RunTokensFit(run, k - 1);
      RunsAreSound(EMPTY_HUB, run, k - 1);
      StepKeepsTokensFit(At(EMPTY_HUB, run, k - 1), run[k - 1]);
    }
  }

  lemma {:induction false} RekeysNeverFall(run: seq<Event>, id: string, j: nat, k: nat)
    requires Reserving(run) && Undisturbed(run, id, j, k) && id in At(EMPTY_HUB, run, j).chunks
    ensures id in At(EMPTY_HUB, run, k).chunks
    ensures At(EMPTY_HUB, run, j).chunks[id].rekeys <= At(EMPTY_HUB, run, k).chunks[id].rekeys
    decreases k
  {
    if j < k {
      RekeysNeverFall(run, id, j, k - 1);
      var s := At(EMPTY_HUB, run, k - 1);
      RunsAreSound(EMPTY_HUB, run, k - 1);
      RunTokensFit(run, k - 1);
      StepMovesChunk(s, run[k - 1], id);
      MoveKeepsFit(s, run[k - 1], id, Step(s, run[k - 1]).chunks[id]);
    }
  }

  /** In every run of a hub, a re-key answers a token the chunk has not had live at any earlier point, claims and other
      holders' tenures included. */
  lemma RekeyNeverEchoes(run: seq<Event>, id: string, j: nat, k: nat, runner: string)
    requires Reserving(run) && Undisturbed(run, id, j, k)
    requires id in At(EMPTY_HUB, run, j).chunks && At(EMPTY_HUB, run, j).chunks[id].routeToken.Some?
    requires RekeyStep(At(EMPTY_HUB, run, k), id, runner).1.Rekeyed?
    ensures RekeyStep(At(EMPTY_HUB, run, k), id, runner).1.token != At(EMPTY_HUB, run, j).chunks[id].routeToken.value
  {
    RunTokensFit(run, j);
    RekeysNeverFall(run, id, j, k);
    var was := At(EMPTY_HUB, run, j).chunks[id];
    assert ChunkFits(id, was);
    NextTokenIsNew(id, was.routeToken.value, was.rekeys, At(EMPTY_HUB, run, k).chunks[id]);
  }
}
