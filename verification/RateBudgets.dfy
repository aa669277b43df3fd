/** The rate ledger in runs that hold every-bucket budgets too: which peeks can be dropped from a run unseen. */
module RateBudgets {
  import opened Options
  import opened RateLedger

  datatype Request = Named(op: Op) | BudgetAll(remaining: Option<int>, reset: Option<int>)

  datatype Call = Call(at: int, request: Request)

  function Answered(l: Ledger, limit: int, c: Call): (Ledger, Option<Window>)
  {
    match c.request
    case Named(op) => LazyStep(l, limit, Timed(c.at, op))
    case BudgetAll(remaining, reset) => (BudgetedAll(l, limit, remaining, reset, c.at), None)
  }

  function After(l: Ledger, limit: int, run: seq<Call>): Ledger
  {
    if run == [] then l else Answered(After(l, limit, run[..|run| - 1]), limit, run[|run| - 1]).0
  }

  /** A clock that never goes back, from `now` on and up to `upto`. */
  ghost predicate Clocked(run: seq<Call>, now: int, upto: int)
  {
    && now <= upto
    && (forall i :: 0 <= i < |run| ==> now <= run[i].at <= upto)
    && forall i, j :: 0 <= i < j < |run| ==> run[i].at <= run[j].at
  }

  // ----- what can still be seen of a ledger

  function Standing(l: Ledger, now: int): Option<Window>
  {
    if TemplateLive(l, now) then l.template else None
  }

  function Showing(l: Ledger, bucket: string, now: int): Option<Window>
  {
    if IsLive(l, bucket, now) then Some(l.windows[bucket]) else None
  }

  /** The anonymous bucket's window has expired but is still stored, while an every-bucket budget stands. */
  predicate Stale(l: Ledger, now: int)
  {
    ANONYMOUS in l.windows && !IsLive(l, ANONYMOUS, now) && TemplateLive(l, now)
  }

  /** What the anonymous bucket shows: its live window, or the standing budget it would open from. */
  function AnonymousShows(l: Ledger, now: int): Option<Window>
  {
    if IsLive(l, ANONYMOUS, now) then Some(l.windows[ANONYMOUS]) else Standing(l, now)
  }

  /** From `now` on nothing tells the ledgers apart. */
  ghost predicate Alike(l: Ledger, m: Ledger, now: int)
  {
    && Standing(l, now) == Standing(m, now)
    && (forall b :: b != ANONYMOUS ==> Showing(l, b, now) == Showing(m, b, now))
    && Stale(l, now) == Stale(m, now)
    && AnonymousShows(l, now) == AnonymousShows(m, now)
  }

  lemma StaysAlike(l: Ledger, m: Ledger, now: int, later: int)
    requires Alike(l, m, now) && now <= later
    ensures Alike(l, m, later)
  {
    forall b: string | b != ANONYMOUS
      ensures Showing(l, b, later) == Showing(m, b, later)
    {
      assert Showing(l, b, now) == Showing(m, b, now);
    }
  }

  lemma SameWindow(l: Ledger, m: Ledger, limit: int, bucket: string, now: int)
    requires Alike(l, m, now)
    ensures WindowAt(l, limit, bucket, now) == WindowAt(m, limit, bucket, now)
  {
    if bucket != ANONYMOUS {
      assert Showing(l, bucket, now) == Showing(m, bucket, now);
    }
  }

  /** Settling a bucket keeps everything that shows, but an anonymous window that was stale is gone. */
  lemma SettledShows(l: Ledger, bucket: string, now: int, b: string)
    ensures
      var s := Settled(l, bucket, now);
      && Standing(s, now) == Standing(l, now) && Showing(s, b, now) == Showing(l, b, now)
      && Stale(s, now) == (Stale(l, now) && bucket != ANONYMOUS)
  {
  }

  lemma PeekAlike(l: Ledger, m: Ledger, bucket: string, now: int)
    requires Alike(l, m, now)
    ensures Alike(Settled(l, bucket, now), Settled(m, bucket, now), now)
  {
    forall b: string
      ensures b != ANONYMOUS ==> Showing(Settled(l, bucket, now), b, now) == Showing(Settled(m, bucket, now), b, now)
    {
      SettledShows(l, bucket, now, b);
      SettledShows(m, bucket, now, b);
      assert b != ANONYMOUS ==> Showing(l, b, now) == Showing(m, b, now);
    }
    SettledShows(l, bucket, now, ANONYMOUS);
    SettledShows(m, bucket, now, ANONYMOUS);
  }

  lemma SetAlike(l: Ledger, m: Ledger, bucket: string, w: Window, now: int)
    requires Alike(l, m, now)
    ensures Alike(l.(windows := l.windows[bucket := w]), m.(windows := m.windows[bucket := w]), now)
  {
    var l', m' := l.(windows := l.windows[bucket := w]), m.(windows := m.windows[bucket := w]);
    forall b: string | b != ANONYMOUS
      ensures Showing(l', b, now) == Showing(m', b, now)
    {
      assert Showing(l, b, now) == Showing(m, b, now);
    }
  }

  lemma BudgetAllAlike(l: Ledger, m: Ledger, limit: int, remaining: Option<int>, reset: Option<int>, now: int)
    requires Alike(l, m, now)
    ensures Alike(BudgetedAll(l, limit, remaining, reset, now), BudgetedAll(m, limit, remaining, reset, now), now)
  {
    var l', m' := BudgetedAll(l, limit, remaining, reset, now), BudgetedAll(m, limit, remaining, reset, now);
    forall b: string | b != ANONYMOUS
      ensures Showing(l', b, now) == Showing(m', b, now)
    {
      assert Showing(l, b, now) == Showing(m, b, now);
    }
    BudgetAllAnonymous(l, limit, remaining, reset, now);
    BudgetAllAnonymous(m, limit, remaining, reset, now);
  }

  /** What an every-bucket budget makes of the anonymous bucket: what it showed, adjusted, unless that was stale. */
  lemma BudgetAllAnonymous(l: Ledger, limit: int, remaining: Option<int>, reset: Option<int>, now: int)
    ensures
      var l' := BudgetedAll(l, limit, remaining, reset, now);
      var standing := Adjust(Window(limit, now + RATE_WINDOW_SECONDS), remaining, reset);
      var shown := if AnonymousShows(l, now).Some? && !Stale(l, now) then
                     Adjust(AnonymousShows(l, now).value, remaining, reset)
                   else standing;
      && l'.template == Some(standing) && !Stale(l', now)
      && AnonymousShows(l', now) == if now < shown.reset then Some(shown) else None
  {
  }

  lemma CallAlike(l: Ledger, m: Ledger, limit: int, c: Call)
    requires Alike(l, m, c.at)
    ensures Answered(l, limit, c).1 == Answered(m, limit, c).1
    ensures Alike(Answered(l, limit, c).0, Answered(m, limit, c).0, c.at)
  {
    match c.request
    case BudgetAll(remaining, reset) => BudgetAllAlike(l, m, limit, remaining, reset, c.at);
    case Named(op) =>
      SameWindow(l, m, limit, op.bucket, c.at);
      PeekAlike(l, m, op.bucket, c.at);
      var s, t, w := Settled(l, op.bucket, c.at), Settled(m, op.bucket, c.at), WindowAt(l, limit, op.bucket, c.at);
      SetAlike(s, t, op.bucket, Spend(w), c.at);
      if op.DoBudget? {
        SetAlike(s, t, op.bucket, Adjust(w, op.remaining, op.newReset), c.at);
      }
  }

  // ----- peeks in a run

  /** A peek that finds nothing stale to drop. */
  predicate Droppable(l: Ledger, c: Call)
  {
    c.request.Named? && c.request.op.DoPeek? && !(c.request.op.bucket == ANONYMOUS && Stale(l, c.at))
  }

  lemma DroppableIsUnseen(l: Ledger, limit: int, c: Call)
    requires Droppable(l, c)
    ensures Alike(Answered(l, limit, c).0, l, c.at)
  {
    var bucket := c.request.op.bucket;
    forall b: string
      ensures b != ANONYMOUS ==> Showing(Settled(l, bucket, c.at), b, c.at) == Showing(l, b, c.at)
    {
      SettledShows(l, bucket, c.at, b);
    }
    SettledShows(l, bucket, c.at, ANONYMOUS);
  }

  /** A run without its droppable peeks. */
  function Pruned(l: Ledger, limit: int, run: seq<Call>): (pruned: seq<Call>)
    ensures forall c :: c in pruned ==> c in run
  {
    if run == [] then []
    else
      var some, last := run[..|run| - 1], run[|run| - 1];
      if Droppable(After(l, limit, some), last) then Pruned(l, limit, some) else Pruned(l, limit, some) + [last]
  }

  lemma {:induction false} PrunedRunsAlike(l: Ledger, limit: int, run: seq<Call>, now: int, upto: int)
    requires Clocked(run, now, upto)
    ensures Alike(After(l, limit, run), After(l, limit, Pruned(l, limit, run)), upto)
  {
    if run != [] {
      var some, last, pruned := run[..|run| - 1], run[|run| - 1], Pruned(l, limit, run[..|run| - 1]);
      PrunedRunsAlike(l, limit, some, now, last.at);
      var before, without := After(l, limit, some), After(l, limit, pruned);
      if Droppable(before, last) {
        DroppableIsUnseen(before, limit, last);
        AlikeComposes(After(l, limit, run), before, without, last.at);
      } else {
        CallAlike(before, without, limit, last);
        assert (pruned + [last])[..|pruned|] == pruned;
      }
      StaysAlike(After(l, limit, run), After(l, limit, Pruned(l, limit, run)), last.at, upto);
    }
  }

  lemma AlikeComposes(a: Ledger, b: Ledger, c: Ledger, now: int)
    requires Alike(a, b, now) && Alike(b, c, now)
    ensures Alike(a, c, now)
  {
    forall x: string | x != ANONYMOUS
      ensures Showing(a, x, now) == Showing(c, x, now)
    {
      assert Showing(a, x, now) == Showing(b, x, now) == Showing(c, x, now);
    }
  }

  /** From any ledger, in any run of counts, peeks, named and every-bucket budgets, every peek that finds nothing stale
      can be dropped: no later answer changes. */
  lemma DroppedPeeksGoUnseen(l: Ledger, limit: int, run: seq<Call>, now: int, c: Call)
    requires Clocked(run, now, c.at)
    ensures Answered(After(l, limit, run), limit, c).1 == Answered(After(l, limit, Pruned(l, limit, run)), limit, c).1
  {
    PrunedRunsAlike(l, limit, run, now, c.at);
    CallAlike(After(l, limit, run), After(l, limit, Pruned(l, limit, run)), limit, c);
  }

  lemma {:induction false} AlikeAnswerAlike(l: Ledger, m: Ledger, limit: int, run: seq<Call>, now: int, c: Call)
    requires Alike(l, m, now) && Clocked(run, now, c.at)
    ensures Alike(After(l, limit, run), After(m, limit, run), c.at)
  {
    if run == [] {
      StaysAlike(l, m, now, c.at);
    } else {
      var some, last := run[..|run| - 1], run[|run| - 1];
      AlikeAnswerAlike(l, m, limit, some, now, last);
      CallAlike(After(l, limit, some), After(m, limit, some), limit, last);
      StaysAlike(After(l, limit, run), After(m, limit, run), last.at, c.at);
    }
  }

  /** Ledgers some run tells apart, from `now` on. */
  ghost predicate ToldApart(l: Ledger, m: Ledger, limit: int, now: int)
  {
    exists run: seq<Call>, c: Call :: Clocked(run, now, c.at) &&
      Answered(After(l, limit, run), limit, c).1 != Answered(After(m, limit, run), limit, c).1
  }

  /** The condition is exact: some continuation tells a peek from none if and only if the peek drops a stale anonymous
      window. */
  lemma PeekShowsExactly(l: Ledger, limit: int, bucket: string, now: int)
    ensures ToldApart(Peeked(l, limit, bucket, now).0, l, limit, now) <==> bucket == ANONYMOUS && Stale(l, now)
  {
    var peek := Call(now, Named(DoPeek(bucket)));
    var peeked := Peeked(l, limit, bucket, now).0;
    assert peeked == Answered(l, limit, peek).0;
    if Droppable(l, peek) {
      DroppableIsUnseen(l, limit, peek);
      forall run: seq<Call>, c: Call | Clocked(run, now, c.at)
        ensures Answered(After(peeked, limit, run), limit, c).1 == Answered(After(l, limit, run), limit, c).1
      {
        AlikeAnswerAlike(peeked, l, limit, run, now, c);
        CallAlike(After(peeked, limit, run), After(l, limit, run), limit, c);
      }
    } else {
      StalePeekShows(l, limit, now);
    }
  }

  /** Setting a budget that names neither figure, now or, should the standing one read the same, a second later. */
  lemma StalePeekShows(l: Ledger, limit: int, now: int)
    requires Stale(l, now)
    ensures ToldApart(Peeked(l, limit, ANONYMOUS, now).0, l, limit, now)
  {
    var peeked, standing := Peeked(l, limit, ANONYMOUS, now).0, l.template.value;
    var later := if standing != Window(limit, now + RATE_WINDOW_SECONDS) then now else now + 1;
    var run, c := [Call(later, BudgetAll(None, None))], Call(later, Named(DoPeek(ANONYMOUS)));
    assert run[..0] == [];
    assert After(l, limit, run) == BudgetedAll(l, limit, None, None, later);
    assert After(peeked, limit, run) == BudgetedAll(peeked, limit, None, None, later);
    PeekReopensAnonymous(l, limit, now, None, None, later);
    assert Answered(After(peeked, limit, run), limit, c).1 == Some(standing);
    assert Answered(After(l, limit, run), limit, c).1 == Some(Window(limit, later + RATE_WINDOW_SECONDS));
    assert Clocked(run, now, c.at);
  }
}
