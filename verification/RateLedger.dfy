/** The forge's rate ledger: windows that are deleted lazily, at the next look after they expire. Each call reads
    the clock once, as `now`. */
module RateLedger {
  import opened Options
  import opened Numbers

  const RATE_WINDOW_SECONDS: int := 3600
  const DEFAULT_RATE_LIMIT: int := 5000
  const ANONYMOUS: string := ""

  datatype Window = Window(remaining: int, reset: int)

  datatype Ledger = Ledger(windows: map<string, Window>, template: Option<Window>)

  const EMPTY := Ledger(map[], None)

  // ----- the ledger's own operations

  predicate IsLive(l: Ledger, bucket: string, now: int)
  {
    bucket in l.windows && now < l.windows[bucket].reset
  }

  /** Looking at a bucket drops its window once expired. */
  function Looked(l: Ledger, bucket: string, now: int): Ledger
  {
    if bucket in l.windows && !IsLive(l, bucket, now) then l.(windows := l.windows - {bucket}) else l
  }

  predicate TemplateLive(l: Ledger, now: int)
  {
    l.template.Some? && now < l.template.value.reset
  }

  function FreshWindow(l: Ledger, limit: int, now: int): Window
  {
    if TemplateLive(l, now) then l.template.value else Window(limit, now + RATE_WINDOW_SECONDS)
  }

  /** Opening a fresh window drops an expired template. */
  function Opened(l: Ledger, now: int): Ledger
  {
    if TemplateLive(l, now) then l else l.(template := None)
  }

  function Spend(w: Window): Window
  {
    w.(remaining := Max(w.remaining - 1, 0))
  }

  function Adjust(w: Window, remaining: Option<int>, reset: Option<int>): Window
  {
    Window(if remaining.Some? then remaining.value else w.remaining, if reset.Some? then reset.value else w.reset)
  }

  /** The window a bucket stands at: the live one, else a fresh one. */
  function WindowAt(l: Ledger, limit: int, bucket: string, now: int): Window
  {
    if IsLive(l, bucket, now) then l.windows[bucket] else FreshWindow(l, limit, now)
  }

  /** The ledger after looking at a bucket and opening a fresh window if none was live. */
  function Settled(l: Ledger, bucket: string, now: int): Ledger
  {
    if IsLive(l, bucket, now) then l else Opened(Looked(l, bucket, now), now)
  }

  function Counted(l: Ledger, limit: int, bucket: string, now: int): (Ledger, Window)
  {
    var w := Spend(WindowAt(l, limit, bucket, now));
    var s := Settled(l, bucket, now);
    (s.(windows := s.windows[bucket := w]), w)
  }

  function Peeked(l: Ledger, limit: int, bucket: string, now: int): (Ledger, Window)
  {
    (Settled(l, bucket, now), WindowAt(l, limit, bucket, now))
  }

  function Budgeted(l: Ledger, limit: int, bucket: string, remaining: Option<int>, reset: Option<int>, now: int): Ledger
  {
    var w := Adjust(WindowAt(l, limit, bucket, now), remaining, reset);
    var s := Settled(l, bucket, now);
    s.(windows := s.windows[bucket := w])
  }

  /** A budget for every bucket: the anonymous bucket is opened if absent, live windows are adjusted, expired ones
      dropped, and buckets opened later start from the template. */
  function BudgetedAll(l: Ledger, limit: int, remaining: Option<int>, reset: Option<int>, now: int): Ledger
  {
    var all := if ANONYMOUS in l.windows then l.windows else l.windows[ANONYMOUS := FreshWindow(l, limit, now)];
    Ledger(map b | b in all && now < all[b].reset :: Adjust(all[b], remaining, reset),
           Some(Adjust(Window(limit, now + RATE_WINDOW_SECONDS), remaining, reset)))
  }

  // ----- in place

  class InMemoryRateLedger {
    const limit: int
    var windows: map<string, Window>
    var template: Option<Window>

    function Value(): Ledger
      reads this
    {
      Ledger(windows, template)
    }

    constructor (limit: int)
      ensures Value() == EMPTY && this.limit == limit
    {
      this.limit := limit;
      windows, template := map[], None;
    }

    method Live(bucket: string, now: int) returns (window: Option<Window>)
      modifies this`windows
      ensures window == if IsLive(old(Value()), bucket, now) then Some(old(windows)[bucket]) else None
      ensures Value() == Looked(old(Value()), bucket, now)
    {
      if bucket !in windows {
        return None;
      }
      if now >= windows[bucket].reset {
        windows := windows - {bucket};
        return None;
      }
      return Some(windows[bucket]);
    }

    method Fresh(now: int) returns (window: Window)
      modifies this`template
      ensures window == FreshWindow(old(Value()), limit, now)
      ensures Value() == Opened(old(Value()), now)
    {
      if template.Some? && now < template.value.reset {
        return template.value;
      }
      template := None;
      return Window(limit, now + RATE_WINDOW_SECONDS);
    }

    /** The bucket's window, opened afresh and stored if none is live. */
    method Current(bucket: string, now: int) returns (window: Window)
      modifies this
      ensures window == WindowAt(old(Value()), limit, bucket, now)
      ensures template == Settled(old(Value()), bucket, now).template
      ensures windows == Settled(old(Value()), bucket, now).windows[bucket := window]
    {
      var live := Live(bucket, now);
      if live.Some? {
        assert windows == windows[bucket := live.value];
        return live.value;
      }
      window := Fresh(now);
      windows := windows[bucket := window];
    }

    method Count(bucket: string, now: int) returns (answer: Window)
      modifies this
      ensures (Value(), answer) == Counted(old(Value()), limit, bucket, now)
    {
      var window := Current(bucket, now);
      answer := window.(remaining := Max(window.remaining - 1, 0));
      windows := windows[bucket := answer];
      assert windows == Counted(old(Value()), limit, bucket, now).0.windows;
    }

    method Peek(bucket: string, now: int) returns (answer: Window)
      modifies this
      ensures (Value(), answer) == Peeked(old(Value()), limit, bucket, now)
    {
      var window := Live(bucket, now);
      if window.None? {
        answer := Fresh(now);
      } else {
        answer := window.value;
      }
    }

    method SetBudget(bucket: string, remaining: Option<int>, reset: Option<int>, now: int)
      modifies this
      ensures Value() == Budgeted(old(Value()), limit, bucket, remaining, reset, now)
    {
      var window := Current(bucket, now);
      if remaining.Some? {
        window := window.(remaining := remaining.value);
      }
      if reset.Some? {
        window := window.(reset := reset.value);
      }
      windows := windows[bucket := window];
    }

    /** Adjusts every live window and drops the expired ones, bucket by bucket. */
    method AdjustLive(remaining: Option<int>, reset: Option<int>, now: int)
      modifies this`windows
      ensures windows == map b | b in old(windows) && now < old(windows)[b].reset ::
                           Adjust(old(windows)[b], remaining, reset)
    {
      var buckets := windows.Keys;
      ghost var all := windows;
      while buckets != {}
        invariant buckets <= all.Keys && windows.Keys <= all.Keys
        invariant forall b :: b in all ==> (b in windows <==> b in buckets || now < all[b].reset)
        invariant forall b :: b in windows ==>
                    windows[b] == if b in buckets then all[b] else Adjust(all[b], remaining, reset)
      {
        var bucket :| bucket in buckets;
        var window := Live(bucket, now);
        if window.Some? {
          windows := windows[bucket := Adjust(window.value, remaining, reset)];
        }
        buckets := buckets - {bucket};
      }
    }

    method SetBudgetAll(remaining: Option<int>, reset: Option<int>, now: int)
      modifies this
      ensures Value() == BudgetedAll(old(Value()), limit, remaining, reset, now)
    {
      var newWindow := Fresh(now);
      if ANONYMOUS !in windows {
        windows := windows[ANONYMOUS := newWindow];
      }
      AdjustLive(remaining, reset, now);
      template := Some(Window(if remaining.None? then limit else remaining.value,
                              if reset.None? then now + RATE_WINDOW_SECONDS else reset.value));
    }
  }

  // ----- the simple ledger: one bucket, nothing ever deleted

  function SimpleWindow(w: Option<Window>, limit: int, now: int): Window
  {
    if w.Some? && now < w.value.reset then w.value else Window(limit, now + RATE_WINDOW_SECONDS)
  }

  datatype Op =
    | DoCount(bucket: string)
    | DoPeek(bucket: string)
    | DoBudget(bucket: string, remaining: Option<int>, newReset: Option<int>)

  datatype Timed = Timed(at: int, op: Op)

  function SimpleStep(w: Option<Window>, limit: int, t: Timed): Option<Window>
  {
    match t.op
    case DoCount(_) => Some(Spend(SimpleWindow(w, limit, t.at)))
    case DoPeek(_) => w
    case DoBudget(_, remaining, reset) => Some(Adjust(SimpleWindow(w, limit, t.at), remaining, reset))
  }

  /** What a simple ledger answers; a budget answers nothing. */
  function SimpleAnswer(w: Option<Window>, limit: int, t: Timed): Option<Window>
  {
    match t.op
    case DoCount(_) => Some(Spend(SimpleWindow(w, limit, t.at)))
    case DoPeek(_) => Some(SimpleWindow(w, limit, t.at))
    case DoBudget(_, _, _) => None
  }

  /** One bucket's simple ledger after a run, reading only that bucket's counts and budgets. */
  function SimpleAfter(limit: int, run: seq<Timed>, bucket: string): Option<Window>
  {
    if run == [] then None
    else
      var w, t := SimpleAfter(limit, run[..|run| - 1], bucket), run[|run| - 1];
      if t.op.bucket == bucket then SimpleStep(w, limit, t) else w
  }

  // ----- the refinement

  function LazyStep(l: Ledger, limit: int, t: Timed): (Ledger, Option<Window>)
  {
    match t.op
    case DoCount(b) => var (l', w) := Counted(l, limit, b, t.at); (l', Some(w))
    case DoPeek(b) => var (l', w) := Peeked(l, limit, b, t.at); (l', Some(w))
    case DoBudget(b, remaining, reset) => (Budgeted(l, limit, b, remaining, reset, t.at), None)
  }

  function LazyAfter(limit: int, run: seq<Timed>): Ledger
  {
    if run == [] then EMPTY else LazyStep(LazyAfter(limit, run[..|run| - 1]), limit, run[|run| - 1]).0
  }

  /** A clock that never goes back. */
  ghost predicate Clocked(run: seq<Timed>)
  {
    forall i, j :: 0 <= i < j < |run| ==> run[i].at <= run[j].at
  }

  /** No time of the run is after `now`. */
  ghost predicate UpTo(run: seq<Timed>, now: int)
  {
    forall i :: 0 <= i < |run| ==> run[i].at <= now
  }

  /** From `now` on the bucket's two ledgers read the same: equal, or deleted where the simple one has expired. */
  ghost predicate Agree(l: Ledger, w: Option<Window>, bucket: string, now: int)
  {
    && l.template.None?
    && if bucket in l.windows then w == Some(l.windows[bucket]) else w.None? || w.value.reset <= now
  }

  lemma StepAgrees(l: Ledger, w: Option<Window>, limit: int, bucket: string, t: Timed, before: int)
    requires Agree(l, w, bucket, before) && before <= t.at
    ensures Agree(LazyStep(l, limit, t).0, if t.op.bucket == bucket then SimpleStep(w, limit, t) else w, bucket, t.at)
    ensures t.op.bucket == bucket ==> LazyStep(l, limit, t).1 == SimpleAnswer(w, limit, t)
  {
  }

  lemma {:induction false} RunAgrees(limit: int, run: seq<Timed>, bucket: string, now: int)
    requires Clocked(run) && UpTo(run, now)
    ensures Agree(LazyAfter(limit, run), SimpleAfter(limit, run, bucket), bucket, now)
  {
    if run != [] {
      var some, last := run[..|run| - 1], run[|run| - 1];
      RunAgrees(limit, some, bucket, last.at);
      StepAgrees(LazyAfter(limit, some), SimpleAfter(limit, some, bucket), limit, bucket, last, last.at);
    }
  }

  /** After any run, the lazily deleting ledger answers every request as the bucket's simple ledger does. */
  lemma LazyAnswersAsSimple(limit: int, run: seq<Timed>, t: Timed)
    requires Clocked(run) && UpTo(run, t.at)
    ensures LazyStep(LazyAfter(limit, run), limit, t).1 == SimpleAnswer(SimpleAfter(limit, run, t.op.bucket), limit, t)
  {
    RunAgrees(limit, run, t.op.bucket, t.at);
    StepAgrees(LazyAfter(limit, run), SimpleAfter(limit, run, t.op.bucket), limit, t.op.bucket, t, t.at);
  }

  /** A run without its peeks and without other buckets' requests. */
  function OwnHistory(run: seq<Timed>, bucket: string): (own: seq<Timed>)
    ensures forall t :: t in own <==> t in run && t.op.bucket == bucket && !t.op.DoPeek?
  {
    if run == [] then []
    else
      var rest, last := OwnHistory(run[..|run| - 1], bucket), run[|run| - 1];
      if last.op.bucket == bucket && !last.op.DoPeek? then rest + [last] else rest
  }

  lemma {:induction false} OwnHistoryIsClocked(run: seq<Timed>, bucket: string)
    requires Clocked(run)
    ensures Clocked(OwnHistory(run, bucket))
  {
    if run != [] {
      var some, last := run[..|run| - 1], run[|run| - 1];
      OwnHistoryIsClocked(some, bucket);
      forall t | t in OwnHistory(some, bucket)
        ensures t.at <= last.at
      {
        var i :| 0 <= i < |some| && some[i] == t;
        assert run[i].at <= run[|run| - 1].at;
      }
    }
  }

  lemma {:induction false} SimpleNeedsOwnHistory(limit: int, run: seq<Timed>, bucket: string)
    ensures SimpleAfter(limit, OwnHistory(run, bucket), bucket) == SimpleAfter(limit, run, bucket)
  {
    if run != [] {
      var some, last := run[..|run| - 1], run[|run| - 1];
      SimpleNeedsOwnHistory(limit, some, bucket);
      if last.op.bucket == bucket && !last.op.DoPeek? {
        assert OwnHistory(run, bucket)[..|OwnHistory(some, bucket)|] == OwnHistory(some, bucket);
      }
    }
  }

  /** Peeks never change a later answer and one bucket never affects another: dropping both changes nothing. */
  lemma OnlyOwnHistoryMatters(limit: int, run: seq<Timed>, t: Timed)
    requires Clocked(run) && UpTo(run, t.at)
    ensures LazyStep(LazyAfter(limit, run), limit, t).1 ==
            LazyStep(LazyAfter(limit, OwnHistory(run, t.op.bucket)), limit, t).1
  {
    var own := OwnHistory(run, t.op.bucket);
    OwnHistoryIsClocked(run, t.op.bucket);
    forall i | 0 <= i < |own|
      ensures own[i].at <= t.at
    {
      assert own[i] in run;
    }
    SimpleNeedsOwnHistory(limit, run, t.op.bucket);
    LazyAnswersAsSimple(limit, run, t);
    LazyAnswersAsSimple(limit, own, t);
  }

  /** Whatever the ledger holds, an answered reset lies in the future, and a count right after a peek answers the
      peeked window with one request spent, never below zero. */
  lemma AnswersAreSane(l: Ledger, limit: int, bucket: string, now: int)
    ensures Peeked(l, limit, bucket, now).1.reset > now && Counted(l, limit, bucket, now).1.reset > now
    ensures
      var (l', peeked) := Peeked(l, limit, bucket, now);
      Counted(l', limit, bucket, now).1 == Window(Max(peeked.remaining - 1, 0), peeked.reset)
  {
  }

  /** What a bucket is answered from its stored window and the standing template: the window until its reset comes; then
      the template while that stands; then the full limit for an hour. */
  lemma AnswersStoredThenFull(l: Ledger, limit: int, bucket: string, now: int)
    ensures
      var answer := Peeked(l, limit, bucket, now).1;
      && (bucket in l.windows && now < l.windows[bucket].reset ==> answer == l.windows[bucket])
      && (!(bucket in l.windows && now < l.windows[bucket].reset) ==>
          && (l.template.Some? && now < l.template.value.reset ==> answer == l.template.value)
          && (!(l.template.Some? && now < l.template.value.reset) ==> answer == Window(limit, now + 3600)))
  {
  }

  function CountedTimes(l: Ledger, limit: int, bucket: string, now: int, n: nat): Ledger
  {
    if n == 0 then l else Counted(CountedTimes(l, limit, bucket, now, n - 1), limit, bucket, now).0
  }

  /** A window is spent one request at a time: after `n` counts a peek, until the reset, answers `n` fewer, and never
      fewer than none; another bucket's answer is what it was. */
  lemma {:induction false} CountsSpend(l: Ledger, limit: int, bucket: string, now: int, n: nat, t: int, other: string)
    requires 0 < n && now <= t < Peeked(l, limit, bucket, now).1.reset && other != bucket
    ensures
      var peeked, spent := Peeked(l, limit, bucket, now).1, CountedTimes(l, limit, bucket, now, n);
      && Peeked(spent, limit, bucket, t).1 == Window(Max(peeked.remaining - n, 0), peeked.reset)
      && Peeked(spent, limit, other, t).1 == Peeked(l, limit, other, t).1
  {
    if n > 1 {
      CountsSpend(l, limit, bucket, now, n - 1, now, other);
      CountsSpend(l, limit, bucket, now, n - 1, t, other);
    }
  }

  /** A named budget takes hold: until the reset it stands at, a peek answers the figures that were set, and for a
      figure not set what was answered before; another bucket's answer is what it was. */
  lemma BudgetTakesHold(l: Ledger, limit: int, bucket: string, remaining: Option<int>, reset: Option<int>, now: int,
                        t: int, other: string)
    requires now <= t && other != bucket
    ensures
      var before, l' := Peeked(l, limit, bucket, now).1, Budgeted(l, limit, bucket, remaining, reset, now);
      var until := if reset == None then before.reset else reset.value;
      && (t < until ==>
          && Peeked(l', limit, bucket, t).1.reset == until
          && (remaining == None ==> Peeked(l', limit, bucket, t).1.remaining == before.remaining)
          && (remaining != None ==> Some(Peeked(l', limit, bucket, t).1.remaining) == remaining))
      && Peeked(l', limit, other, t).1 == Peeked(l, limit, other, t).1
  {
  }

  /** A budget for every bucket takes hold: at once on the live windows, and on whatever bucket is opened while it
      stands, a figure not set being the limit or an hour. */
  lemma EveryBucketBudgetTakesHold(l: Ledger, limit: int, remaining: Option<int>, reset: Option<int>, now: int,
                                   bucket: string)
    requires reset != None ==> now < reset.value
    ensures
      var answer := Peeked(BudgetedAll(l, limit, remaining, reset, now), limit, bucket, now).1;
      && (remaining != None ==> Some(answer.remaining) == remaining) && (reset != None ==> Some(answer.reset) == reset)
      && (IsLive(l, bucket, now) ==>
          && (remaining == None ==> answer.remaining == l.windows[bucket].remaining)
          && (reset == None ==> answer.reset == l.windows[bucket].reset))
      && (!IsLive(l, bucket, now) && bucket != ANONYMOUS ==>
          && (remaining == None ==> answer.remaining == limit) && (reset == None ==> answer.reset == now + 3600))
  {
  }

  /** A budget for every bucket is outside that law: with one in the run, a peek can change a later answer. */
  lemma EveryBucketBudgetSeesPeeks()
    ensures
      var l0 := BudgetedAll(EMPTY, DEFAULT_RATE_LIMIT, Some(10), Some(5000), 0);
      var l1 := Budgeted(l0, DEFAULT_RATE_LIMIT, ANONYMOUS, None, Some(1), 0);
      var peeked := Peeked(l1, DEFAULT_RATE_LIMIT, ANONYMOUS, 2).0;
      Peeked(BudgetedAll(l1, DEFAULT_RATE_LIMIT, None, None, 2), DEFAULT_RATE_LIMIT, ANONYMOUS, 2).1 !=
      Peeked(BudgetedAll(peeked, DEFAULT_RATE_LIMIT, None, None, 2), DEFAULT_RATE_LIMIT, ANONYMOUS, 2).1
  {
    var l0 := BudgetedAll(EMPTY, DEFAULT_RATE_LIMIT, Some(10), Some(5000), 0);
    assert l0.windows[ANONYMOUS] == Window(10, 5000);
    var l1 := Budgeted(l0, DEFAULT_RATE_LIMIT, ANONYMOUS, None, Some(1), 0);
    assert l1.windows[ANONYMOUS] == Window(10, 1);
    var peeked := Peeked(l1, DEFAULT_RATE_LIMIT, ANONYMOUS, 2).0;
    assert ANONYMOUS !in peeked.windows && peeked.template == Some(Window(10, 5000));
    assert BudgetedAll(peeked, DEFAULT_RATE_LIMIT, None, None, 2).windows[ANONYMOUS] == Window(10, 5000);
  }

  /** A peek that drops the anonymous bucket's expired window while an older every-bucket budget still stands, and the
      two budgets' windows differ and the new one has not run out already. */
  ghost predicate PeekShows(l: Ledger, limit: int, bucket: string, now: int, remaining: Option<int>, reset: Option<int>,
                            later: int)
  {
    && bucket == ANONYMOUS && ANONYMOUS in l.windows && l.windows[ANONYMOUS].reset <= now
    && TemplateLive(l, later) && (reset.Some? ==> later < reset.value)
    && Adjust(l.template.value, remaining, reset) !=
       Adjust(Window(limit, later + RATE_WINDOW_SECONDS), remaining, reset)
  }

  /** What bucket `c` is answered at `t` once an every-bucket budget was set at `later`. */
  function AnswerAfterBudget(l: Ledger, limit: int, remaining: Option<int>, reset: Option<int>, later: int,
                             c: string, t: int): Window
  {
    WindowAt(BudgetedAll(l, limit, remaining, reset, later), limit, c, t)
  }

  lemma PeekLeavesWindow(l: Ledger, limit: int, bucket: string, now: int, remaining: Option<int>, reset: Option<int>,
                         later: int, c: string)
    requires now <= later
    requires bucket == c == ANONYMOUS ==> IsLive(l, c, now) || c !in l.windows
    ensures
      var a := BudgetedAll(l, limit, remaining, reset, later).windows;
      var b := BudgetedAll(Peeked(l, limit, bucket, now).0, limit, remaining, reset, later).windows;
      (c in a <==> c in b) && (c in a ==> a[c] == b[c])
  {
    assert FreshWindow(Peeked(l, limit, bucket, now).0, limit, later) == FreshWindow(l, limit, later);
  }

  lemma PeekReopensAnonymous(l: Ledger, limit: int, now: int, remaining: Option<int>, reset: Option<int>, later: int)
    requires now <= later && ANONYMOUS in l.windows && !IsLive(l, ANONYMOUS, now)
    ensures
      var a := BudgetedAll(l, limit, remaining, reset, later).windows;
      var b := BudgetedAll(Peeked(l, limit, ANONYMOUS, now).0, limit, remaining, reset, later).windows;
      && ANONYMOUS !in a && ANONYMOUS in b
      && b[ANONYMOUS] == Adjust(FreshWindow(l, limit, later), remaining, reset)
  {
    var peeked := Peeked(l, limit, ANONYMOUS, now).0;
    assert ANONYMOUS !in peeked.windows;
    assert FreshWindow(peeked, limit, later) == FreshWindow(l, limit, later);
  }

  lemma BudgetForgetsPeek(l: Ledger, limit: int, bucket: string, now: int, remaining: Option<int>, reset: Option<int>,
                          later: int, c: string, t: int)
    requires now <= later <= t
    requires !PeekShows(l, limit, bucket, now, remaining, reset, later)
    ensures AnswerAfterBudget(Peeked(l, limit, bucket, now).0, limit, remaining, reset, later, c, t) ==
            AnswerAfterBudget(l, limit, remaining, reset, later, c, t)
  {
    if bucket == c == ANONYMOUS && ANONYMOUS in l.windows && !IsLive(l, ANONYMOUS, now) {
      PeekReopensAnonymous(l, limit, now, remaining, reset, later);
    } else {
      PeekLeavesWindow(l, limit, bucket, now, remaining, reset, later, c);
    }
  }

  /** Exactly when a peek changes what is answered after an every-bucket budget. */
  lemma PeekSeenExactly(l: Ledger, limit: int, bucket: string, now: int, remaining: Option<int>, reset: Option<int>,
                        later: int)
    requires now <= later
    ensures
      PeekShows(l, limit, bucket, now, remaining, reset, later) <==>
      exists c, t :: later <= t &&
        AnswerAfterBudget(Peeked(l, limit, bucket, now).0, limit, remaining, reset, later, c, t) !=
        AnswerAfterBudget(l, limit, remaining, reset, later, c, t)
  {
    var peeked := Peeked(l, limit, bucket, now).0;
    if PeekShows(l, limit, bucket, now, remaining, reset, later) {
      PeekReopensAnonymous(l, limit, now, remaining, reset, later);
      assert AnswerAfterBudget(peeked, limit, remaining, reset, later, ANONYMOUS, later) !=
             AnswerAfterBudget(l, limit, remaining, reset, later, ANONYMOUS, later);
    } else {
      forall c, t | later <= t
        ensures AnswerAfterBudget(peeked, limit, remaining, reset, later, c, t) ==
                AnswerAfterBudget(l, limit, remaining, reset, later, c, t)
      {
        BudgetForgetsPeek(l, limit, bucket, now, remaining, reset, later, c, t);
      }
    }
  }
}
