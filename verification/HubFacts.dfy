/** The fact lane: redelivering a batch whose acknowledgement was lost is harmless, and no fact takes effect twice. */
module HubFacts {
  import opened Numbers
  import opened Sorting
  import opened HubModel
  import opened HubInvariants
  import Transcripts

  ghost predicate SeqSorted(facts: seq<Fact>)
  {
    SortedBy(BY_SEQ, facts)
  }

  lemma BySeqIsPreorder()
    ensures TotalPreorder(BY_SEQ)
  {
  }

  // ----- batches compose

  lemma {:induction false} TakeFactsConcat(i: Intake, runner: string, a: seq<Fact>, b: seq<Fact>)
    ensures TakeFacts(i, runner, a + b) == TakeFacts(TakeFacts(i, runner, a), runner, b)
  {
    if b == [] {
      assert a + b == a;
    } else {
      assert (a + b)[..|a + b| - 1] == a + b[..|b| - 1];
      TakeFactsConcat(i, runner, a, b[..|b| - 1]);
    }
  }

  /** Two intakes that differ only in the stored marks and in what they have acknowledged so far. */
  ghost predicate Alike(i: Intake, j: Intake)
  {
    i.hub == j.hub.(factMarks := i.hub.factMarks) && i.mark == j.mark
  }

  lemma FactsIgnoreMarks(s: HubState, marks: map<string, int>, runner: string, body: FactBody)
    ensures FactAdmitted(s.(factMarks := marks), body) == FactAdmitted(s, body)
    ensures FactEffect(s.(factMarks := marks), runner, body) == FactEffect(s, runner, body).(factMarks := marks)
    ensures FactEffect(s, runner, body).factMarks == s.factMarks
  {
  }

  /** Alike intakes take the same facts in the same way. */
  lemma {:induction false} AlikeTakeAlike(i: Intake, j: Intake, runner: string, facts: seq<Fact>)
    requires Alike(i, j)
    ensures
      var i', j' := TakeFacts(i, runner, facts), TakeFacts(j, runner, facts);
      && Alike(i', j') && i'.hub.factMarks == i.hub.factMarks
      && i.applied <= i'.applied && j.applied <= j'.applied
      && i'.applied[|i.applied|..] == j'.applied[|j.applied|..]
  {
    if facts != [] {
      var some, last := facts[..|facts| - 1], facts[|facts| - 1];
      AlikeTakeAlike(i, j, runner, some);
      var i', j' := TakeFacts(i, runner, some), TakeFacts(j, runner, some);
      FactsIgnoreMarks(j'.hub, i'.hub.factMarks, runner, last.body);
      FactsIgnoreMarks(i'.hub, i'.hub.factMarks, runner, last.body);
    }
  }

  // ----- redelivery

  /** Every fact is either at or below the mark, or one this hub would reject again. */
  ghost predicate Settled(i: Intake, facts: seq<Fact>)
  {
    forall f :: f in facts ==> f.seqNo <= i.mark || !FactAdmitted(i.hub, f.body)
  }

  /** Once a sorted batch has been taken, none of its facts can take effect any more. */
  lemma {:induction false} TakenFactsAreSettled(i: Intake, runner: string, facts: seq<Fact>)
    requires SeqSorted(facts)
    ensures Settled(TakeFacts(i, runner, facts), facts)
  {
    if facts != [] {
      var some, last := facts[..|facts| - 1], facts[|facts| - 1];
      TakenFactsAreSettled(i, runner, some);
      assert forall f :: f in facts ==> f == last || f in some;
      assert forall f :: f in some ==> f.seqNo <= last.seqNo;
    }
  }

  lemma {:induction false} SettledFactsChangeNothing(i: Intake, runner: string, facts: seq<Fact>)
    requires Settled(i, facts)
    ensures
      var i' := TakeFacts(i, runner, facts);
      i'.hub == i.hub && i'.mark == i.mark && i'.applied == i.applied
  {
    if facts != [] {
      SettledFactsChangeNothing(i, runner, facts[..|facts| - 1]);
    }
  }

  lemma SortedHalves(a: seq<Fact>, b: seq<Fact>)
    requires forall f, g :: f in a && g in b ==> f.seqNo <= g.seqNo
    ensures Sort(a + b, BY_SEQ) == Sort(a, BY_SEQ) + Sort(b, BY_SEQ)
    ensures SeqSorted(Sort(a, BY_SEQ))
  {
    BySeqIsPreorder();
    SortSorts(a, BY_SEQ);
    SortOfConcat(a, b, BY_SEQ);
  }

  /** Taking `a` and then, from the hub it left, `a` and `b`, comes out like taking `a` and `b` once. */
  lemma RetakingIsHarmless(start: Intake, again: Intake, runner: string, a: seq<Fact>, b: seq<Fact>)
    requires SeqSorted(a) && start.applied == [] && again.applied == []
    requires Alike(TakeFacts(start, runner, a), again)
    ensures
      var once, twice := TakeFacts(start, runner, a + b), TakeFacts(again, runner, a + b);
      && Alike(once, twice)
      && once.hub.factMarks == start.hub.factMarks && twice.hub.factMarks == again.hub.factMarks
      && TakeFacts(start, runner, a).applied + twice.applied == once.applied
  {
    var afterA, resumed := TakeFacts(start, runner, a), TakeFacts(again, runner, a);
    TakeFactsConcat(start, runner, a, b);
    TakeFactsConcat(again, runner, a, b);
    TakenFactsAreSettled(start, runner, a);
    SettledAgain(afterA, again, a);
    SettledFactsChangeNothing(again, runner, a);
    AlikeTakeAlike(afterA, resumed, runner, b);
    AlikeTakeAlike(start, start, runner, a);
    AlikeTakeAlike(resumed, resumed, runner, b);
  }

  lemma PushUnfolds(s: HubState, runner: string, facts: seq<Fact>)
    requires runner in s.runners
    ensures
      var i := Pushed(s, runner, facts);
      PushStep(s, runner, facts) == i.hub.(factMarks := s.factMarks[runner := i.mark])
    ensures runner in PushStep(s, runner, facts).runners
  {
    var start := Intake(s, MarkOf(s, runner), [], [], []);
    AlikeTakeAlike(start, start, runner, Sort(facts, BY_SEQ));
    PushKeepsRunners(start, runner, Sort(facts, BY_SEQ));
  }

  /** A runner that saw no acknowledgement for `a` and later pushes `a` again with `b` behind it leaves the hub
      exactly as one push of everything would, and between the two pushes the same facts are applied once each. */
  lemma RedeliveryIsHarmless(s: HubState, runner: string, a: seq<Fact>, b: seq<Fact>)
    requires runner in s.runners
    requires forall f, g :: f in a && g in b ==> f.seqNo <= g.seqNo
    ensures
      var first := PushStep(s, runner, a);
      && PushStep(first, runner, a + b) == PushStep(s, runner, a + b)
      && Pushed(s, runner, a).applied + Pushed(first, runner, a + b).applied == Pushed(s, runner, a + b).applied
  {
    var first := PushStep(s, runner, a);
    PushUnfolds(s, runner, a);
    PushUnfolds(s, runner, a + b);
    PushUnfolds(first, runner, a + b);
    SortedHalves(a, b);
    RetakingIsHarmless(Intake(s, MarkOf(s, runner), [], [], []), Intake(first, MarkOf(first, runner), [], [], []),
                       runner, Sort(a, BY_SEQ), Sort(b, BY_SEQ));
    SameButMarks(Pushed(s, runner, a + b).hub, Pushed(first, runner, a + b).hub, s.factMarks, runner,
                 Pushed(s, runner, a).mark, Pushed(s, runner, a + b).mark);
  }

  lemma SameButMarks(once: HubState, twice: HubState, marks: map<string, int>, runner: string, x: int, y: int)
    requires once == twice.(factMarks := once.factMarks)
    ensures twice.(factMarks := marks[runner := x][runner := y]) == once.(factMarks := marks[runner := y])
  {
    assert marks[runner := x][runner := y] == marks[runner := y];
  }

  lemma SettledAgain(i: Intake, j: Intake, facts: seq<Fact>)
    requires Alike(i, j) && Settled(i, facts)
    ensures Settled(j, facts)
  {
    forall f | f in facts
      ensures f.seqNo <= j.mark || !FactAdmitted(j.hub, f.body)
    {
      FactsIgnoreMarks(j.hub, i.hub.factMarks, "", f.body);
    }
  }

  lemma FactKeepsRunners(s: HubState, runner: string, body: FactBody)
    ensures FactEffect(s, runner, body).runners == s.runners
  {
  }

  lemma {:induction false} PushKeepsRunners(i: Intake, runner: string, facts: seq<Fact>)
    ensures TakeFacts(i, runner, facts).hub.runners == i.hub.runners
  {
    if facts != [] {
      PushKeepsRunners(i, runner, facts[..|facts| - 1]);
      FactKeepsRunners(TakeFacts(i, runner, facts[..|facts| - 1]).hub, runner, facts[|facts| - 1].body);
    }
  }

  // ----- what a push acknowledges

  ghost predicate Increasing(s: seq<int>)
  {
    forall i, j :: 0 <= i < j < |s| ==> s[i] < s[j]
  }

  const SEQ_OF: Fact -> int := (f: Fact) => f.seqNo

  /** Strictly increasing, above one mark and up to another. */
  ghost predicate Climbs(seqs: seq<int>, low: int, high: int)
  {
    low <= high && Increasing(seqs) && forall n :: n in seqs ==> low < n <= high
  }

  lemma ClimbsCompose(a: seq<int>, b: seq<int>, low: int, m: int, high: int)
    requires Climbs(a, low, m) && Climbs(b, m, high)
    ensures Climbs(a + b, low, high)
  {
    ClimbTogether(a, b, m);
  }

  /** The mark is the last seq applied, or where it stood. */
  ghost predicate MarkIsLast(i: Intake, start: int)
  {
    i.mark == if i.applied == [] then start else i.applied[|i.applied| - 1]
  }

  lemma TakeFactClimbs(i: Intake, runner: string, f: Fact, start: int)
    requires Climbs(i.applied, start, i.mark) && MarkIsLast(i, start)
    ensures
      var i' := TakeFact(i, runner, f);
      Climbs(i'.applied, start, i'.mark) && MarkIsLast(i', start)
  {
    if f.seqNo > i.mark && FactAdmitted(i.hub, f.body) {
      ClimbsCompose(i.applied, [f.seqNo], start, i.mark, f.seqNo);
    }
  }

  /** The applied seqs climb from the old mark to the new one; a rejected fact never holds the mark back. */
  lemma {:induction false} AppliedClimb(i: Intake, runner: string, facts: seq<Fact>)
    requires i.applied == []
    ensures
      var i' := TakeFacts(i, runner, facts);
      Climbs(i'.applied, i.mark, i'.mark) && MarkIsLast(i', i.mark)
  {
    if facts != [] {
      var some := facts[..|facts| - 1];
      AppliedClimb(i, runner, some);
      TakeFactClimbs(TakeFacts(i, runner, some), runner, facts[|facts| - 1], i.mark);
    }
  }

  ghost function Acknowledged(i: Intake): multiset<int>
  {
    multiset(i.applied) + multiset(i.already) + multiset(i.rejected)
  }

  lemma TakeFactFiles(i: Intake, runner: string, f: Fact)
    ensures Acknowledged(TakeFact(i, runner, f)) == Acknowledged(i) + multiset([f.seqNo])
  {
  }

  /** Each fact of a batch lands in exactly one acknowledgement list. */
  lemma {:induction false} EveryFactIsAcknowledged(i: Intake, runner: string, facts: seq<Fact>)
    ensures Acknowledged(TakeFacts(i, runner, facts)) == Acknowledged(i) + multiset(Each(facts, SEQ_OF))
  {
    if facts == [] {
      assert Each(facts, SEQ_OF) == [];
    } else {
      var some, last := facts[..|facts| - 1], facts[|facts| - 1];
      var taken := TakeFacts(i, runner, some);
      EveryFactIsAcknowledged(i, runner, some);
      TakeFactFiles(taken, runner, last);
      assert Each(facts, SEQ_OF) == Each(some, SEQ_OF) + [last.seqNo];
      assert Acknowledged(TakeFact(taken, runner, last)) == Acknowledged(taken) + multiset([last.seqNo]);
    }
  }

  // ----- runs

  /** What event `e` applies for `runner`, by seq. */
  ghost function AppliedNow(s: HubState, e: Event, runner: string): seq<int>
  {
    if e.PushFacts? && e.runner == runner && runner in s.runners then
      Pushed(s, runner, e.facts).applied
    else []
  }

  /** What each event of a run applies for `runner`. */
  ghost function AppliedIn(s0: HubState, run: seq<Event>, runner: string): seq<seq<int>>
  {
    seq(|run|, i requires 0 <= i < |run| => AppliedNow(At(s0, run, i), run[i], runner))
  }

  /** The runner's mark before each event of a run, and after the last. */
  ghost function MarksIn(s0: HubState, run: seq<Event>, runner: string): seq<int>
  {
    seq(|run| + 1, i requires 0 <= i <= |run| => MarkOf(At(s0, run, i), runner))
  }

  function Joined(lists: seq<seq<int>>, k: nat): seq<int>
    requires k <= |lists|
  {
    if k == 0 then [] else Joined(lists, k - 1) + lists[k - 1]
  }

  /** Every seq the hub has applied for `runner` in the first `k` events of a run, in order. */
  ghost function AppliedOver(s0: HubState, run: seq<Event>, runner: string, k: nat): seq<int>
    requires k <= |run|
  {
    Joined(AppliedIn(s0, run, runner), k)
  }

  lemma RouteEventsKeepLanes(s: HubState, e: Event)
    requires ActsOnRoutes(e)
    ensures Step(s, e).factMarks == s.factMarks && Step(s, e).epochOwners == s.epochOwners
  {
  }

  lemma WorkEventsKeepLanes(s: HubState, e: Event)
    requires e.Complete? || e.Decide? || e.HubAdvance?
    ensures Step(s, e).factMarks == s.factMarks && Step(s, e).epochOwners == s.epochOwners
  {
  }

  lemma OtherEventsKeepLanes(s: HubState, e: Event)
    requires !e.PushFacts?
    ensures Step(s, e).factMarks == s.factMarks && Step(s, e).epochOwners == s.epochOwners
  {
    if ActsOnRoutes(e) {
      RouteEventsKeepLanes(s, e);
    } else if e.Complete? || e.Decide? || e.HubAdvance? {
      WorkEventsKeepLanes(s, e);
    }
  }

  /** From one mark to the next: climbing, and the new mark is the last seq applied or the old one. */
  ghost predicate Advances(applied: seq<int>, mark: int, mark': int)
  {
    Climbs(applied, mark, mark') && mark' == if applied == [] then mark else applied[|applied| - 1]
  }

  lemma MarkAfterStep(s: HubState, e: Event, runner: string)
    ensures Advances(AppliedNow(s, e, runner), MarkOf(s, runner), MarkOf(Step(s, e), runner))
  {
    if e.PushFacts? {
      if e.runner in s.runners {
        PushUnfolds(s, e.runner, e.facts);
        AppliedClimb(Intake(s, MarkOf(s, e.runner), [], [], []), e.runner, Sort(e.facts, BY_SEQ));
      }
    } else {
      OtherEventsKeepLanes(s, e);
    }
  }

  ghost predicate AllAdvance(lists: seq<seq<int>>, marks: seq<int>)
  {
    |marks| == |lists| + 1 && forall i :: 0 <= i < |lists| ==> Advances(lists[i], marks[i], marks[i + 1])
  }

  lemma RunAdvances(s0: HubState, run: seq<Event>, runner: string)
    ensures AllAdvance(AppliedIn(s0, run, runner), MarksIn(s0, run, runner))
  {
    var lists, marks := AppliedIn(s0, run, runner), MarksIn(s0, run, runner);
    forall i | 0 <= i < |lists|
      ensures Advances(lists[i], marks[i], marks[i + 1])
    {
      EventAdvances(s0, run, runner, i);
    }
  }

  lemma EventAdvances(s0: HubState, run: seq<Event>, runner: string, i: nat)
    requires i < |run|
    ensures Advances(AppliedIn(s0, run, runner)[i], MarksIn(s0, run, runner)[i], MarksIn(s0, run, runner)[i + 1])
  {
    MarkAfterStep(At(s0, run, i), run[i], runner);
    assert MarksIn(s0, run, runner)[i + 1] == MarkOf(Step(At(s0, run, i), run[i]), runner);
  }

  lemma {:induction false} JoinedAdvances(lists: seq<seq<int>>, marks: seq<int>, k: nat)
    requires AllAdvance(lists, marks) && k <= |lists|
    ensures Advances(Joined(lists, k), marks[0], marks[k])
  {
    if k > 0 {
      JoinedAdvances(lists, marks, k - 1);
      assert Advances(lists[k - 1], marks[k - 1], marks[k - 1 + 1]);
      ClimbsCompose(Joined(lists, k - 1), lists[k - 1], marks[0], marks[k - 1], marks[k]);
    }
  }

  /** Over every run of the hub, the seqs applied for a runner strictly increase, from its mark at the start to its mark
      now: no fact takes effect twice. */
  lemma AppliedSeqsIncrease(s0: HubState, run: seq<Event>, runner: string, k: nat)
    requires k <= |run|
    ensures Advances(AppliedOver(s0, run, runner, k), MarkOf(s0, runner), MarkOf(At(s0, run, k), runner))
  {
    RunAdvances(s0, run, runner);
    JoinedAdvances(AppliedIn(s0, run, runner), MarksIn(s0, run, runner), k);
    assert At(s0, run, 0) == s0;
  }

  lemma ClimbTogether(a: seq<int>, b: seq<int>, m: int)
    requires Increasing(a) && Increasing(b)
    requires (forall n :: n in a ==> n <= m) && (forall n :: n in b ==> m < n)
    ensures Increasing(a + b)
  {
    forall i, j | 0 <= i < j < |a + b|
      ensures (a + b)[i] < (a + b)[j]
    {
      if i < |a| <= j {
        assert a[i] in a && b[j - |a|] in b;
      }
    }
  }

  // ----- seqs acknowledged without ever being applied

  /** The mark has passed a seq that was never applied. */
  ghost predicate Lost(s0: HubState, run: seq<Event>, runner: string, k: nat, n: int)
    requires k <= |run|
  {
    n <= MarkOf(At(s0, run, k), runner) && n !in AppliedOver(s0, run, runner, k)
  }

  /** A seq not yet applied is lost exactly when it lies at or below the mark the run started from, or a greater one
      has been applied. */
  lemma LostExactlyWhen(s0: HubState, run: seq<Event>, runner: string, k: nat, n: int)
    requires k <= |run|
    ensures
      var applied := AppliedOver(s0, run, runner, k);
      Lost(s0, run, runner, k, n) <==> n !in applied && (n <= MarkOf(s0, runner) || exists g :: g in applied && n < g)
  {
    AppliedSeqsIncrease(s0, run, runner, k);
    PassedExactlyWhen(AppliedOver(s0, run, runner, k), MarkOf(s0, runner), MarkOf(At(s0, run, k), runner), n);
  }

  lemma PassedExactlyWhen(applied: seq<int>, start: int, mark: int, n: int)
    requires Advances(applied, start, mark)
    ensures n !in applied ==> (n <= mark <==> n <= start || exists g :: g in applied && n < g)
  {
    if applied != [] {
      assert applied[|applied| - 1] in applied;
    }
  }

  lemma {:induction false} SettledAlong(lists: seq<seq<int>>, marks: seq<int>, j: nat, k: nat, n: int)
    requires AllAdvance(lists, marks) && j <= k <= |lists| && n <= marks[j]
    ensures n <= marks[k]
    ensures n in Joined(lists, k) <==> n in Joined(lists, j)
    decreases k
  {
    if j < k {
      SettledAlong(lists, marks, j, k - 1, n);
      assert Advances(lists[k - 1], marks[k - 1], marks[k - 1 + 1]);
    }
  }

  /** Whether a seq the mark has passed was applied is settled for good; what is lost stays lost. */
  lemma PassedIsSettled(s0: HubState, run: seq<Event>, runner: string, j: nat, k: nat, n: int)
    requires j <= k <= |run| && n <= MarkOf(At(s0, run, j), runner)
    ensures n <= MarkOf(At(s0, run, k), runner)
    ensures n in AppliedOver(s0, run, runner, k) <==> n in AppliedOver(s0, run, runner, j)
  {
    RunAdvances(s0, run, runner);
    SettledAlong(AppliedIn(s0, run, runner), MarksIn(s0, run, runner), j, k, n);
  }

  lemma {:induction false} AlreadyIsPassed(i: Intake, runner: string, facts: seq<Fact>)
    requires forall n :: n in i.already ==> n <= i.mark
    ensures forall n :: n in TakeFacts(i, runner, facts).already ==> n <= TakeFacts(i, runner, facts).mark
  {
    if facts != [] {
      AlreadyIsPassed(i, runner, facts[..|facts| - 1]);
    }
  }

  lemma PushPassesAlready(s: HubState, runner: string, facts: seq<Fact>, n: int)
    requires runner in s.runners && n in Pushed(s, runner, facts).already
    ensures n <= MarkOf(PushStep(s, runner, facts), runner)
  {
    PushUnfolds(s, runner, facts);
    AlreadyIsPassed(Intake(s, MarkOf(s, runner), [], [], []), runner, Sort(facts, BY_SEQ));
  }

  /** A seq acknowledged as already applied was applied, in this push or before, or is lost: over the rest of every
      run, whatever is pushed, it never takes effect any more. */
  lemma AlreadyMeansAppliedOrLost(s0: HubState, run: seq<Event>, runner: string, k: nat, n: int, m: nat)
    requires k < m <= |run| && run[k].PushFacts? && run[k].runner == runner && runner in At(s0, run, k).runners
    requires n in Pushed(At(s0, run, k), runner, run[k].facts).already
    ensures n in AppliedOver(s0, run, runner, k + 1) || Lost(s0, run, runner, k + 1, n)
    ensures n in AppliedOver(s0, run, runner, m) <==> n in AppliedOver(s0, run, runner, k + 1)
  {
    PushPassesAlready(At(s0, run, k), runner, run[k].facts, n);
    assert At(s0, run, k + 1) == PushStep(At(s0, run, k), runner, run[k].facts);
    PassedIsSettled(s0, run, runner, k + 1, m, n);
  }

  /** A hub that has applied nothing for a runner: a rejected fact is passed by the next one, and redelivered in a form
      the hub would take it is acknowledged as already applied and takes no effect. */
  lemma RejectedFactIsLost(s: HubState, runner: string)
    requires runner in s.runners && MarkOf(s, runner) == 0
    ensures
      var first, again := [Fact(1, UnknownKind), Fact(2, UsageRecorded)], [Fact(1, EventRecorded)];
      var s' := PushStep(s, runner, first);
      && Pushed(s, runner, first).applied == [2] && Pushed(s, runner, first).rejected == [1]
      && runner in s'.runners && FactAdmitted(s', again[0].body)
      && Pushed(s', runner, again).already == [1] && Pushed(s', runner, again).applied == []
      && PushStep(s', runner, again) == s'
  {
    var first, again := [Fact(1, UnknownKind), Fact(2, UsageRecorded)], [Fact(1, EventRecorded)];
    TwoFactsPushed(s, runner, first[0], first[1]);
    PushUnfolds(s, runner, first);
    var s' := PushStep(s, runner, first);
    assert MarkOf(s', runner) == 2;
    OneFactPushed(s', runner, again[0]);
    PushUnfolds(s', runner, again);
    assert s'.factMarks[runner := 2] == s'.factMarks;
  }

  lemma OneFactPushed(s: HubState, runner: string, f: Fact)
    ensures Pushed(s, runner, [f]) == TakeFact(Intake(s, MarkOf(s, runner), [], [], []), runner, f)
  {
    var start, one := Intake(s, MarkOf(s, runner), [], [], []), [f];
    assert one[1..] == [] && Sort(one[1..], BY_SEQ) == [];
    assert Sort(one, BY_SEQ) == one;
    assert one[..0] == [] && TakeFacts(start, runner, one[..0]) == start;
  }

  lemma TwoFactsPushed(s: HubState, runner: string, f: Fact, g: Fact)
    requires f.seqNo <= g.seqNo
    ensures
      Pushed(s, runner, [f, g]) ==
      TakeFact(TakeFact(Intake(s, MarkOf(s, runner), [], [], []), runner, f), runner, g)
  {
    var start, two := Intake(s, MarkOf(s, runner), [], [], []), [f, g];
    SortOfSorted(two, BY_SEQ);
    assert two[..1] == [f] && two[..1][..0] == [];
    assert TakeFacts(start, runner, two[..1]) == TakeFact(start, runner, f);
  }

  // ----- epoch owners, which the transcript lane obeys

  /** Every owner on record stays on record. */
  ghost predicate OwnersKept(s: HubState, s': HubState)
  {
    forall k :: k in s.epochOwners ==> k in s'.epochOwners && s'.epochOwners[k] == s.epochOwners[k]
  }

  lemma FactKeepsOwners(s: HubState, runner: string, body: FactBody)
    ensures OwnersKept(s, FactEffect(s, runner, body))
  {
  }

  lemma {:induction false} FactsKeepOwners(i: Intake, runner: string, facts: seq<Fact>)
    ensures OwnersKept(i.hub, TakeFacts(i, runner, facts).hub)
  {
    if facts != [] {
      FactsKeepOwners(i, runner, facts[..|facts| - 1]);
      FactKeepsOwners(TakeFacts(i, runner, facts[..|facts| - 1]).hub, runner, facts[|facts| - 1].body);
    }
  }

  lemma StepKeepsOwners(s: HubState, e: Event)
    ensures OwnersKept(s, Step(s, e))
  {
    if e.PushFacts? {
      FactsKeepOwners(Intake(s, MarkOf(s, e.runner), [], [], []), e.runner, Sort(e.facts, BY_SEQ));
    } else {
      OtherEventsKeepLanes(s, e);
    }
  }

  lemma {:induction false} OwnerIsForever(s0: HubState, run: seq<Event>, j: nat, k: nat)
    requires j <= k <= |run|
    ensures OwnersKept(At(s0, run, j), At(s0, run, k))
    decreases k
  {
    if j < k {
      OwnerIsForever(s0, run, j, k - 1);
      StepKeepsOwners(At(s0, run, k - 1), run[k - 1]);
    }
  }

  /** Once some runner has minted an epoch, then whatever the hub does since, a transcript record of that epoch from
      any other runner is refused and stores nothing, fresh or replayed. */
  lemma OthersAreRefusedForever(s0: HubState, run: seq<Event>, j: nat, k: nat, b: Transcripts.Batch, tenant: string,
                                runner: string, r: Transcripts.Record)
    requires j <= k <= |run| && (tenant, r.chunk, r.epoch) in At(s0, run, j).epochOwners
    requires At(s0, run, j).epochOwners[(tenant, r.chunk, r.epoch)] != runner
    ensures
      var owners := At(s0, run, k).epochOwners;
      && Transcripts.Destination(b, tenant, runner, owners, r) == Transcripts.Refused
      && Transcripts.TakeRecord(b, tenant, runner, owners, r).ledger == b.ledger
  {
    OwnerIsForever(s0, run, j, k);
  }
}
