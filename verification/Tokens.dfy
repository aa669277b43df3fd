/** The runner registry's bearer tokens: who holds one, what a revoked one still says, and what retirement ends. */
module Tokens {
  import opened Options

  datatype Row = Row(tenant: string, retired: bool)

  /** `tokens` maps a current token to its runner, `revoked` a former one to the runner it was issued to. */
  datatype Registry = Registry(runners: map<string, Row>, tokens: map<string, string>, revoked: map<string, string>)

  const EMPTY_REGISTRY := Registry(map[], map[], map[])

  function HeldBy(tokens: map<string, string>, runner: string): set<string>
  {
    set t | t in tokens && tokens[t] == runner
  }

  /** What a token replacement leaves: the runner's tokens revoked, and the new one, if any, current. */
  ghost function Replaced(s: Registry, runner: string, token: Option<string>): Registry
  {
    var held := HeldBy(s.tokens, runner);
    var kept := s.tokens - held;
    s.(tokens := if token.Some? then kept[token.value := runner] else kept,
       revoked := s.revoked + map t | t in held :: runner)
  }

  datatype Outcome = Done | AlreadyAdded | UnknownRunner | RunnerIsRetired

  datatype Event =
    | Add(runner: string, tenant: string, token: string)
    | Enroll(runner: string, tenant: string, token: string)
    | Revoke(runner: string)
    | Retire(runner: string)

  ghost function Step(s: Registry, e: Event): (Registry, Outcome)
  {
    match e
    case Add(runner, tenant, token) =>
      if runner in s.runners then (s, AlreadyAdded)
      else (s.(runners := s.runners[runner := Row(tenant, false)], tokens := s.tokens[token := runner]), Done)
    case Enroll(runner, tenant, token) =>
      if runner !in s.runners || s.runners[runner].tenant != tenant then (s, UnknownRunner)
      else if s.runners[runner].retired then (s, RunnerIsRetired)
      else (Replaced(s, runner, Some(token)), Done)
    case Revoke(runner) =>
      if runner !in s.runners then (s, UnknownRunner) else (Replaced(s, runner, None), Done)
    case Retire(runner) =>
      if runner !in s.runners then (s, UnknownRunner)
      else if s.runners[runner].retired then (s, Done)
      else (Replaced(s.(runners := s.runners[runner := s.runners[runner].(retired := true)]), runner, None), Done)
  }

  // ----- what a presented token resolves to

  datatype Reason = Missing | Unknown | Revoked | RetiredRunner

  datatype Identity = Known(runner: string) | TokenRefused(reason: Reason, issuedTo: Option<string>)

  /** The current holder's row, when the token is current and its runner is still registered. */
  function RunnerFor(s: Registry, token: string): Option<string>
  {
    if token in s.tokens && s.tokens[token] in s.runners then Some(s.tokens[token]) else None
  }

  function IdentityOf(s: Registry, token: Option<string>): Identity
  {
    if token.None? then TokenRefused(Missing, None)
    else
      match RunnerFor(s, token.value)
      case Some(runner) =>
        if s.runners[runner].retired then TokenRefused(RetiredRunner, Some(runner)) else Known(runner)
      case None =>
        if token.value !in s.revoked || s.revoked[token.value] !in s.runners then TokenRefused(Unknown, None)
        else
          var runner := s.revoked[token.value];
          TokenRefused(if s.runners[runner].retired then RetiredRunner else Revoked, Some(runner))
  }

  /** The principal a fleet call carries. */
  function Principal(s: Registry, token: Option<string>): Option<string>
  {
    if token.None? then None else RunnerFor(s, token.value)
  }

  // ----- the invariant

  /** At most one current token a runner, none for a retired one, and none both current and revoked. */
  ghost predicate Orderly(s: Registry)
  {
    && (forall t :: t in s.tokens ==> s.tokens[t] in s.runners && !s.runners[s.tokens[t]].retired)
    && (forall t, u :: t in s.tokens && u in s.tokens && s.tokens[t] == s.tokens[u] ==> t == u)
    && (forall t :: t in s.revoked ==> t !in s.tokens && s.revoked[t] in s.runners)
  }

  /** A token this registry never issued. */
  ghost predicate Fresh(s: Registry, e: Event)
  {
    e.Add? || e.Enroll? ==> e.token !in s.tokens && e.token !in s.revoked
  }

  ghost function At(run: seq<Event>, k: nat): Registry
    requires k <= |run|
  {
    if k == 0 then EMPTY_REGISTRY else Step(At(run, k - 1), run[k - 1]).0
  }

  /** Every token a run mints is new when it is minted. */
  ghost predicate FreshRun(run: seq<Event>)
  {
    forall i :: 0 <= i < |run| ==> FreshAt(run, i)
  }

  ghost predicate FreshAt(run: seq<Event>, i: nat)
    requires i < |run|
  {
    Fresh(At(run, i), run[i])
  }

  /** Every token issued so far, with the runner it was issued to. */
  ghost function Issued(run: seq<Event>, k: nat): map<string, string>
    requires k <= |run|
  {
    if k == 0 then map[] else IssuedNext(At(run, k - 1), run[k - 1], Issued(run, k - 1))
  }

  ghost function IssuedNext(s: Registry, e: Event, issued: map<string, string>): map<string, string>
  {
    if (e.Add? || e.Enroll?) && Step(s, e).1 == Done then issued[e.token := e.runner] else issued
  }

  /** Every issued token is current or revoked, under the runner it was issued to, and there are no others. */
  ghost predicate Conserved(s: Registry, issued: map<string, string>)
  {
    && (forall t :: t in issued <==> t in s.tokens || t in s.revoked)
    && (forall t :: t in s.tokens ==> t in issued && issued[t] == s.tokens[t])
    && (forall t :: t in s.revoked ==> t in issued && issued[t] == s.revoked[t])
  }

  /** Token by token, what a replacement does. */
  lemma ReplacedAt(s: Registry, runner: string, token: Option<string>, t: string)
    ensures
      var s' := Replaced(s, runner, token);
      && (t in s'.tokens <==> token == Some(t) || (t in s.tokens && s.tokens[t] != runner))
      && (t in s'.tokens ==> s'.tokens[t] == if token == Some(t) then runner else s.tokens[t])
      && (t in s'.revoked <==> t in s.revoked || (t in s.tokens && s.tokens[t] == runner))
      && (t in s'.revoked ==> s'.revoked[t] == if t in s.tokens && s.tokens[t] == runner then runner else s.revoked[t])
  {
  }

  lemma ReplacedConserves(s: Registry, runner: string, token: Option<string>, issued: map<string, string>)
    requires Orderly(s) && Conserved(s, issued)
    requires token.Some? ==> token.value !in s.tokens && token.value !in s.revoked
    ensures Conserved(Replaced(s, runner, token), if token.Some? then issued[token.value := runner] else issued)
  {
    forall t: string
    {
      ReplacedAt(s, runner, token, t);
    }
  }

  lemma ReplacedIsOrderly(s: Registry, runner: string, token: Option<string>)
    requires Orderly(s) && runner in s.runners
    requires token.Some? ==> token.value !in s.tokens && token.value !in s.revoked && !s.runners[runner].retired
    ensures Orderly(Replaced(s, runner, token))
  {
    forall t: string
    {
      ReplacedAt(s, runner, token, t);
    }
  }

  lemma RetireIsOrderly(s: Registry, runner: string)
    requires Orderly(s) && runner in s.runners && !s.runners[runner].retired
    ensures Orderly(Step(s, Retire(runner)).0)
  {
    forall t: string
    {
      ReplacedAt(s, runner, None, t);
    }
    var retiring := s.(runners := s.runners[runner := s.runners[runner].(retired := true)]);
    assert Step(s, Retire(runner)).0 == Replaced(s, runner, None).(runners := retiring.runners);
  }

  lemma RetireConserves(s: Registry, runner: string, issued: map<string, string>)
    requires Orderly(s) && Conserved(s, issued) && runner in s.runners && !s.runners[runner].retired
    ensures Conserved(Step(s, Retire(runner)).0, issued)
  {
    ReplacedConserves(s, runner, None, issued);
    assert Step(s, Retire(runner)).0.tokens == Replaced(s, runner, None).tokens;
  }

  lemma AddKeeps(s: Registry, runner: string, tenant: string, token: string, issued: map<string, string>)
    requires Orderly(s) && Conserved(s, issued) && Fresh(s, Add(runner, tenant, token))
    ensures
      var e := Add(runner, tenant, token);
      Orderly(Step(s, e).0) && Conserved(Step(s, e).0, IssuedNext(s, e, issued))
  {
  }

  lemma StepKeeps(s: Registry, e: Event, issued: map<string, string>)
    requires Orderly(s) && Conserved(s, issued) && Fresh(s, e)
    ensures Orderly(Step(s, e).0) && Conserved(Step(s, e).0, IssuedNext(s, e, issued))
  {
    match e
    case Add(runner, tenant, token) => AddKeeps(s, runner, tenant, token, issued);
    case Enroll(runner, tenant, token) =>
      if Step(s, e).1 == Done {
        ReplacedIsOrderly(s, runner, Some(token));
        ReplacedConserves(s, runner, Some(token), issued);
      }
    case Revoke(runner) =>
      if runner in s.runners {
        ReplacedIsOrderly(s, runner, None);
        ReplacedConserves(s, runner, None, issued);
      }
    case Retire(runner) =>
      if runner in s.runners && !s.runners[runner].retired {
        RetireIsOrderly(s, runner);
        RetireConserves(s, runner, issued);
      }
  }

  /** Over every run with fresh tokens: the registry is orderly and every issued token is accounted for. */
  lemma {:induction false} RunsAreOrderly(run: seq<Event>, k: nat)
    requires k <= |run| && FreshRun(run)
    ensures Orderly(At(run, k)) && Conserved(At(run, k), Issued(run, k))
  {
    if k > 0 {
      RunsAreOrderly(run, k - 1);
      assert FreshAt(run, k - 1);
      StepKeeps(At(run, k - 1), run[k - 1], Issued(run, k - 1));
    }
  }

  lemma StepKeepsRevoked(s: Registry, e: Event, token: string)
    requires Orderly(s) && token in s.revoked
    ensures token in Step(s, e).0.revoked && Step(s, e).0.revoked[token] == s.revoked[token]
  {
    if e.Enroll? {
      ReplacedAt(s, e.runner, Some(e.token), token);
    } else if e.Revoke? || e.Retire? {
      ReplacedAt(s, e.runner, None, token);
    }
  }

  lemma {:induction false} RevokedStays(run: seq<Event>, j: nat, k: nat, token: string)
    requires j <= k <= |run| && FreshRun(run) && token in At(run, j).revoked
    ensures token in At(run, k).revoked && At(run, k).revoked[token] == At(run, j).revoked[token]
    decreases k
  {
    if j < k {
      RevokedStays(run, j, k - 1, token);
      RunsAreOrderly(run, k - 1);
      StepKeepsRevoked(At(run, k - 1), run[k - 1], token);
    }
  }

  /** A revoked token never becomes current again and names no principal. */
  lemma RevocationIsForever(run: seq<Event>, j: nat, k: nat, token: string)
    requires j <= k <= |run| && FreshRun(run) && token in At(run, j).revoked
    ensures token in At(run, k).revoked && At(run, k).revoked[token] == At(run, j).revoked[token]
    ensures token !in At(run, k).tokens && Principal(At(run, k), Some(token)) == None
  {
    RevokedStays(run, j, k, token);
    RunsAreOrderly(run, k);
  }

  lemma {:induction false} RetirementIsForever(run: seq<Event>, j: nat, k: nat, runner: string)
    requires j <= k <= |run| && runner in At(run, j).runners && At(run, j).runners[runner].retired
    ensures runner in At(run, k).runners && At(run, k).runners[runner].retired
    decreases k
  {
    if j < k {
      RetirementIsForever(run, j, k - 1, runner);
    }
  }

  /** After a runner retires, every token it was ever issued, before or since, names no principal and reads
      `retired`. */
  lemma RetiredTokensReadRetired(run: seq<Event>, k: nat, token: string)
    requires k <= |run| && FreshRun(run) && token in Issued(run, k)
    requires Issued(run, k)[token] in At(run, k).runners && At(run, k).runners[Issued(run, k)[token]].retired
    ensures Principal(At(run, k), Some(token)) == None
    ensures IdentityOf(At(run, k), Some(token)) == TokenRefused(RetiredRunner, Some(Issued(run, k)[token]))
  {
    RunsAreOrderly(run, k);
  }

  /** The identity verdict on any token, in terms of what was issued. */
  lemma IdentityTellsIssue(run: seq<Event>, k: nat, token: string)
    requires k <= |run| && FreshRun(run)
    ensures
      var s, issued := At(run, k), Issued(run, k);
      && (IdentityOf(s, Some(token)) == TokenRefused(Unknown, None) <==> token !in issued)
      && (IdentityOf(s, Some(token)).Known? <==> token in s.tokens)
      && (Principal(s, Some(token)).Some? <==> token in s.tokens)
      && (token in s.tokens ==> token in issued && Principal(s, Some(token)) == Some(issued[token]))
      && (token in issued && IdentityOf(s, Some(token)).Known? ==> IdentityOf(s, Some(token)).runner == issued[token])
      && (token in issued && !IdentityOf(s, Some(token)).Known? ==>
          IdentityOf(s, Some(token)).issuedTo == Some(issued[token]))
  {
    RunsAreOrderly(run, k);
  }

  // ----- what each request does

  predicate Names(table: map<string, string>, token: string, runner: string)
  {
    token in table && table[token] == runner
  }

  /** Every other runner's tokens, current and revoked, and every other row are as they were. */
  ghost predicate OthersUntouched(s: Registry, s': Registry, runner: string)
  {
    && s'.runners - {runner} == s.runners - {runner}
    && (forall t, r :: r != runner ==> Names(s'.tokens, t, r) == Names(s.tokens, t, r))
    && (forall t, r :: r != runner ==> Names(s'.revoked, t, r) == Names(s.revoked, t, r))
  }

  /** The runner's only current token is `token`, or it has none; all it had before is revoked. */
  ghost predicate OnlyToken(s: Registry, s': Registry, runner: string, token: Option<string>)
  {
    && (forall t :: Names(s'.tokens, t, runner) <==> token == Some(t))
    && (forall t :: Names(s.tokens, t, runner) ==> Names(s'.revoked, t, runner))
  }

  /** A request is done exactly when it applies, and else changes nothing. */
  lemma RequestIsDoneExactly(s: Registry, e: Event)
    ensures Step(s, e).1 != Done ==> Step(s, e).0 == s
    ensures Step(s, e).1 == Done <==>
              if e.Add? then e.runner !in s.runners
              else if e.Enroll? then
                e.runner in s.runners && s.runners[e.runner].tenant == e.tenant && !s.runners[e.runner].retired
              else e.runner in s.runners
  {
  }

  lemma ReplacementLeaves(s: Registry, runner: string, token: Option<string>)
    requires Orderly(s) && (token.Some? ==> token.value !in s.tokens && token.value !in s.revoked)
    ensures OthersUntouched(s, Replaced(s, runner, token), runner)
    ensures OnlyToken(s, Replaced(s, runner, token), runner, token)
  {
    forall t: string
    {
      ReplacedAt(s, runner, token, t);
    }
  }

  lemma AddLeaves(s: Registry, e: Event)
    requires Orderly(s) && Fresh(s, e) && e.Add? && e.runner !in s.runners
    ensures
      var s' := Step(s, e).0;
      OthersUntouched(s, s', e.runner) && OnlyToken(s, s', e.runner, Some(e.token))
  {
  }

  lemma RetireLeaves(s: Registry, e: Event)
    requires Orderly(s) && e.Retire? && e.runner in s.runners
    ensures
      var s' := Step(s, e).0;
      && OthersUntouched(s, s', e.runner) && OnlyToken(s, s', e.runner, None)
      && e.runner in s'.runners && s'.runners[e.runner].retired
  {
    ReplacementLeaves(s, e.runner, None);
    if !s.runners[e.runner].retired {
      var s' := Step(s, e).0;
      assert s'.tokens == Replaced(s, e.runner, None).tokens && s'.revoked == Replaced(s, e.runner, None).revoked;
    }
  }

  /** What a request that is done leaves the runner with: after adding or enrolling the new token alone, after revoking
      or retiring none, every one it had before revoked; retired only by retiring. */
  lemma RequestLeaves(s: Registry, e: Event)
    requires Orderly(s) && Fresh(s, e) && Step(s, e).1 == Done
    ensures
      var s' := Step(s, e).0;
      && OthersUntouched(s, s', e.runner)
      && OnlyToken(s, s', e.runner, if e.Add? || e.Enroll? then Some(e.token) else None)
      && e.runner in s'.runners
      && s'.runners[e.runner].retired == (e.Retire? || (e.Revoke? && s.runners[e.runner].retired))
  {
    match e
    case Add(_, _, _) => AddLeaves(s, e);
    case Enroll(runner, _, token) => ReplacementLeaves(s, runner, Some(token));
    case Revoke(runner) => ReplacementLeaves(s, runner, None);
    case Retire(_) => RetireLeaves(s, e);
  }

  /** The identity read tells a revoked token's runner apart by whether it has retired since. */
  lemma RevokedReadsRevoked(run: seq<Event>, k: nat, token: string)
    requires k <= |run| && FreshRun(run) && token in At(run, k).revoked
    ensures
      var s := At(run, k);
      && s.revoked[token] in s.runners
      && IdentityOf(s, Some(token)) ==
         TokenRefused(if s.runners[s.revoked[token]].retired then RetiredRunner else Revoked, Some(s.revoked[token]))
      && IdentityOf(s, None) == TokenRefused(Missing, None)
  {
    RunsAreOrderly(run, k);
  }

  // ----- in place

  class Store {
    var runners: map<string, Row>
    var tokens: map<string, string>
    var revoked: map<string, string>

    ghost function Value(): Registry
      reads this
    {
      Registry(runners, tokens, revoked)
    }

    constructor ()
      ensures Value() == EMPTY_REGISTRY
    {
      runners, tokens, revoked := map[], map[], map[];
    }

    /** Moves each token the runner holds to the revoked ones, then makes the new one current. */
    method ReplaceToken(runner: string, token: Option<string>)
      modifies this`tokens, this`revoked
      ensures Value() == Replaced(old(Value()), runner, token)
    {
      var held := HeldBy(tokens, runner);
      ghost var all, before := held, Value();
      while held != {}
        invariant held <= all
        invariant tokens == before.tokens - (all - held)
        invariant revoked == before.revoked + map t | t in all - held :: runner
      {
        var t :| t in held;
        assert all - (held - {t}) == (all - held) + {t};
        tokens := tokens - {t};
        revoked := revoked[t := runner];
        held := held - {t};
      }
      assert all - {} == all;
      if token.Some? {
        tokens := tokens[token.value := runner];
      }
    }

    method AddRunner(runner: string, tenant: string, token: string) returns (outcome: Outcome)
      modifies this
      ensures (Value(), outcome) == Step(old(Value()), Add(runner, tenant, token))
    {
      if runner in runners {
        return AlreadyAdded;
      }
      runners := runners[runner := Row(tenant, false)];
      tokens := tokens[token := runner];
      return Done;
    }

    method EnrollRunner(runner: string, tenant: string, token: string) returns (outcome: Outcome)
      modifies this
      ensures (Value(), outcome) == Step(old(Value()), Enroll(runner, tenant, token))
    {
      if runner !in runners || runners[runner].tenant != tenant {
        return UnknownRunner;
      }
      if runners[runner].retired {
        return RunnerIsRetired;
      }
      ReplaceToken(runner, Some(token));
      return Done;
    }

    method RevokeToken(runner: string) returns (outcome: Outcome)
      modifies this
      ensures (Value(), outcome) == Step(old(Value()), Revoke(runner))
    {
      if runner !in runners {
        return UnknownRunner;
      }
      ReplaceToken(runner, None);
      return Done;
    }

    method RetireRunner(runner: string) returns (outcome: Outcome)
      modifies this
      ensures (Value(), outcome) == Step(old(Value()), Retire(runner))
    {
      if runner !in runners {
        return UnknownRunner;
      }
      if runners[runner].retired {
        return Done;
      }
      runners := runners[runner := runners[runner].(retired := true)];
      ReplaceToken(runner, None);
      return Done;
    }
  }
}
