/** The forge's pull lifecycle over branches that move and vanish: opening, closing, reopening, merging, merging from
    outside and deleting branches. Branches map to shas; what git makes of a merge is an argument. */
module Pulls {
  import opened Options

  datatype PullState = Open | Closed

  /** `headSha` and `baseSha` are the shas pinned when the pull closed. */
  datatype Pull = Pull(head: string, base: string, state: PullState, merged: bool, mergeSha: Option<string>,
                       headSha: Option<string>, baseSha: Option<string>)
  {
    predicate Touches(branch: string)
    {
      branch == head || branch == base
    }
  }

  /** Pull numbers are handed out from `next` upwards. */
  datatype Forge = Forge(branches: map<string, string>, pulls: map<int, Pull>, next: int)

  const EMPTY_FORGE := Forge(map[], map[], 1)

  datatype Reply = Ok | PullNotFound | NotMergeable | Refused | HeadMismatch | BranchNotFound | Invalid | RefMissing

  function WithPull(f: Forge, n: int, p: Pull): Forge
  {
    f.(pulls := f.pulls[n := p])
  }

  function Created(f: Forge, head: string, base: string): (Forge, Reply)
  {
    if head == "" || base == "" || head !in f.branches || base !in f.branches then (f, Invalid)
    else if exists n :: n in f.pulls && f.pulls[n].state == Open && f.pulls[n].head == head
                        && f.pulls[n].base == base then
      (f, Invalid)
    else
      (WithPull(f, f.next, Pull(head, base, Open, false, None, None, None)).(next := f.next + 1), Ok)
  }

  /** Pins the shas a pull closes with. The head is pinned before the base is looked up, so a pull whose base is gone
      keeps the new head pin though the freeze fails. */
  function Frozen(branches: map<string, string>, p: Pull): (Pull, bool)
  {
    if p.head !in branches then (p, false)
    else if p.base !in branches then (p.(headSha := Some(branches[p.head])), false)
    else (p.(headSha := Some(branches[p.head]), baseSha := Some(branches[p.base])), true)
  }

  function StateSet(f: Forge, n: int, state: PullState): (Forge, Reply)
  {
    if n !in f.pulls then (f, PullNotFound)
    else
      var p := f.pulls[n];
      if state == Closed && p.state != Closed then
        var (frozen, ok) := Frozen(f.branches, p);
        if ok then (WithPull(f, n, frozen.(state := Closed)), Ok) else (WithPull(f, n, frozen), BranchNotFound)
      else if state == Open && !p.merged then
        if p.head !in f.branches then (f, Invalid)
        else (WithPull(f, n, p.(state := Open, headSha := None, baseSha := None)), Ok)
      else (WithPull(f, n, p.(state := state)), Ok)
  }

  /** A merge on record: the landed commit is the merge sha and the base pin, the head as it was when it landed. */
  function Landed(f: Forge, n: int, sha: string): Forge
    requires n in f.pulls && f.pulls[n].head in f.branches
  {
    var p := f.pulls[n];
    Forge(f.branches[p.base := sha],
          f.pulls[n := p.(state := Closed, merged := true, mergeSha := Some(sha),
                          headSha := Some(f.branches[p.head]), baseSha := Some(sha))],
          f.next)
  }

  /** `expected` is the head the caller saw; `sha` is the commit git lands, absent when it cannot. */
  function Merged(f: Forge, n: int, expected: Option<string>, leverRefuses: bool, sha: Option<string>): (Forge, Reply)
  {
    if n !in f.pulls then (f, PullNotFound)
    else if f.pulls[n].merged || f.pulls[n].state == Closed then (f, NotMergeable)
    else if leverRefuses then (f, Refused)
    else if f.pulls[n].head !in f.branches then (f, BranchNotFound)
    else if expected.Some? && expected.value != f.branches[f.pulls[n].head] then (f, HeadMismatch)
    else if f.pulls[n].base !in f.branches || sha.None? then (f, NotMergeable)
    else (Landed(f, n, sha.value), Ok)
  }

  /** A merge made outside the pull flow: a closed pull may still be merged, a merged one is left alone. */
  function MergedOutside(f: Forge, n: int, sha: Option<string>): (Forge, Reply)
  {
    if n !in f.pulls then (f, PullNotFound)
    else if f.pulls[n].merged then (f, Ok)
    else if f.pulls[n].head !in f.branches then (f, BranchNotFound)
    else if f.pulls[n].base !in f.branches || sha.None? then (f, NotMergeable)
    else (Landed(f, n, sha.value), Ok)
  }

  /** Closes, in number order below `n`, every open pull the branch touches; stops at the first it cannot freeze. */
  function ClosedTouching(f: Forge, branch: string, n: int): (Forge, bool)
    decreases n
  {
    if n <= 1 then (f, true)
    else
      var (g, ok) := ClosedTouching(f, branch, n - 1);
      if !ok then (g, false)
      else if n - 1 in f.pulls && f.pulls[n - 1].state == Open && f.pulls[n - 1].Touches(branch) then
        var (frozen, fits) := Frozen(f.branches, f.pulls[n - 1]);
        (WithPull(g, n - 1, if fits then frozen.(state := Closed) else frozen), fits)
      else (g, true)
  }

  function RefDeleted(f: Forge, branch: string): (Forge, Reply)
  {
    if branch !in f.branches then (f, RefMissing)
    else
      var (g, ok) := ClosedTouching(f, branch, f.next);
      if ok then (g.(branches := g.branches - {branch}), Ok) else (g, BranchNotFound)
  }

  datatype Event =
    | CreatePull(head: string, base: string)
    | SetState(n: int, state: PullState)
    | MergePull(n: int, expected: Option<string>, leverRefuses: bool, sha: Option<string>)
    | MergeOutside(n: int, sha: Option<string>)
    | DeleteRef(branch: string)
    | Push(branch: string, newSha: string)
    | Vanish(branch: string)
    | OpenIssue

  /** `Push` is any way a branch comes to point somewhere; `Vanish` a deletion the service never sees.
      Issues and pulls are numbered together. */
  function Step(f: Forge, e: Event): Forge
  {
    match e
    case CreatePull(head, base) => Created(f, head, base).0
    case SetState(n, state) => StateSet(f, n, state).0
    case MergePull(n, expected, leverRefuses, sha) => Merged(f, n, expected, leverRefuses, sha).0
    case MergeOutside(n, sha) => MergedOutside(f, n, sha).0
    case DeleteRef(branch) => RefDeleted(f, branch).0
    case Push(branch, sha) => f.(branches := f.branches[branch := sha])
    case Vanish(branch) => f.(branches := f.branches - {branch})
    case OpenIssue => f.(next := f.next + 1)
  }

  function At(run: seq<Event>, k: nat): Forge
    requires k <= |run|
  {
    if k == 0 then EMPTY_FORGE else Step(At(run, k - 1), run[k - 1])
  }

  // ----- views

  datatype View = View(headSha: string, baseSha: string)

  /** What a read answers, absent when a branch it needs cannot be resolved. */
  function ViewOf(f: Forge, p: Pull): Option<View>
  {
    var pinned := p.state == Closed && p.headSha.Some?;
    if !pinned && p.head !in f.branches then None
    else
      var headSha := if pinned then p.headSha.value else f.branches[p.head];
      if p.base in f.branches then Some(View(headSha, f.branches[p.base]))
      else if p.baseSha.Some? then Some(View(headSha, p.baseSha.value))
      else None
  }

  // ----- the invariant

  /** A closed pull and a merged pull carry pinned shas; only a merged pull has a merge sha. */
  ghost predicate PullSound(p: Pull)
  {
    && (p.state == Closed || p.merged ==> p.headSha.Some? && p.baseSha.Some?)
    && (p.merged <==> p.mergeSha.Some?)
  }

  ghost predicate Sound(f: Forge)
  {
    && f.next >= 1
    && forall n :: n in f.pulls ==> 1 <= n < f.next && PullSound(f.pulls[n])
  }

  /** What one event can do to one pull. */
  ghost predicate PullMoved(f: Forge, e: Event, n: int, p': Pull)
    requires n in f.pulls
  {
    var p := f.pulls[n];
    || p' == p
    || (e.SetState? && e.n == n && (p' == StateSet(f, n, e.state).0.pulls[n]))
    || (Lands(f, e, n) && p' == Landed(f, n, e.sha.value).pulls[n])
    || (e.DeleteRef? && p.state == Open && p.Touches(e.branch) && p' == Closing(f, p))
  }

  /** A pull after an attempt to close it with its branch. */
  function Closing(f: Forge, p: Pull): Pull
  {
    var (frozen, fits) := Frozen(f.branches, p);
    if fits then frozen.(state := Closed) else frozen
  }

  /** A merge of pull `n` that git lands. */
  predicate Lands(f: Forge, e: Event, n: int)
  {
    && n in f.pulls && !f.pulls[n].merged && f.pulls[n].head in f.branches && f.pulls[n].base in f.branches
    && ((e.MergePull? && e.n == n && f.pulls[n].state == Open && !e.leverRefuses && e.sha.Some?
         && (e.expected.Some? ==> e.expected.value == f.branches[f.pulls[n].head]))
        || (e.MergeOutside? && e.n == n && e.sha.Some?))
  }

  lemma {:induction false} ClosedTouchingAt(f: Forge, branch: string, k: int, n: int)
    requires n in f.pulls
    ensures
      var (g, ok) := ClosedTouching(f, branch, k);
      && g.branches == f.branches && g.next == f.next && g.pulls.Keys == f.pulls.Keys
      && (g.pulls[n] == f.pulls[n]
          || (f.pulls[n].state == Open && f.pulls[n].Touches(branch) && g.pulls[n] == Closing(f, f.pulls[n])))
      && (k <= n ==> g.pulls[n] == f.pulls[n])
      && (ok && 1 <= n < k && f.pulls[n].state == Open && f.pulls[n].Touches(branch) ==>
          g.pulls[n] == Closing(f, f.pulls[n]) && Frozen(f.branches, f.pulls[n]).1)
    decreases k
  {
    if k > 1 {
      ClosedTouchingAt(f, branch, k - 1, n);
    }
  }

  lemma StepMovesPull(f: Forge, e: Event, n: int)
    requires Sound(f) && n in f.pulls
    ensures n in Step(f, e).pulls && PullMoved(f, e, n, Step(f, e).pulls[n])
  {
    if e.DeleteRef? {
      ClosedTouchingAt(f, e.branch, f.next, n);
    }
  }

  lemma MoveKeepsSound(f: Forge, e: Event, n: int, p': Pull)
    requires n in f.pulls && PullSound(f.pulls[n]) && PullMoved(f, e, n, p')
    ensures PullSound(p')
  {
  }

  lemma StepKeepsSound(f: Forge, e: Event)
    requires Sound(f)
    ensures Sound(Step(f, e))
  {
    var g := Step(f, e);
    if e.DeleteRef? {
      DeleteKeepsNumbers(f, e.branch);
    }
    forall n | n in g.pulls
      ensures 1 <= n < g.next && PullSound(g.pulls[n])
    {
      if n in f.pulls {
        StepMovesPull(f, e, n);
        MoveKeepsSound(f, e, n, g.pulls[n]);
      }
    }
  }

  lemma {:induction false} ClosingKeepsNumbers(f: Forge, branch: string, k: int)
    ensures ClosedTouching(f, branch, k).0.pulls.Keys == f.pulls.Keys
    ensures ClosedTouching(f, branch, k).0.next == f.next && ClosedTouching(f, branch, k).0.branches == f.branches
    decreases k
  {
    if k > 1 {
      ClosingKeepsNumbers(f, branch, k - 1);
    }
  }

  lemma DeleteKeepsNumbers(f: Forge, branch: string)
    ensures RefDeleted(f, branch).0.pulls.Keys == f.pulls.Keys && RefDeleted(f, branch).0.next == f.next
  {
    ClosingKeepsNumbers(f, branch, f.next);
  }

  lemma {:induction false} RunsAreSound(run: seq<Event>, k: nat)
    requires k <= |run|
    ensures Sound(At(run, k))
  {
    if k > 0 {
      RunsAreSound(run, k - 1);
      StepKeepsSound(At(run, k - 1), run[k - 1]);
    }
  }

  // ----- main results

  /** In every run a closed pull can be viewed, at the head it closed with, whatever has become of the branches. */
  lemma ClosedIsViewable(run: seq<Event>, k: nat, n: int, branches: map<string, string>)
    requires k <= |run| && n in At(run, k).pulls && At(run, k).pulls[n].state == Closed
    ensures
      var p := At(run, k).pulls[n];
      var view := ViewOf(At(run, k).(branches := branches), p);
      && p.headSha.Some? && p.baseSha.Some? && view.Some? && view.value.headSha == p.headSha.value
      && view.value.baseSha == if p.base in branches then branches[p.base] else p.baseSha.value
  {
    RunsAreSound(run, k);
  }

  /** A reopening the forge accepts: a merged pull's always, another's while its head exists. */
  predicate Reopens(f: Forge, e: Event, n: int)
  {
    e.SetState? && e.n == n && e.state == Open && n in f.pulls && (f.pulls[n].merged || f.pulls[n].head in f.branches)
  }

  /** The events that change a closed pull are exactly an accepted reopening and a merge that lands. */
  lemma ClosedChangesExactlyBy(f: Forge, e: Event, n: int)
    requires Sound(f) && n in f.pulls && f.pulls[n].state == Closed
    ensures n in Step(f, e).pulls
    ensures Step(f, e).pulls[n] != f.pulls[n] <==> Reopens(f, e, n) || Lands(f, e, n)
  {
    StepMovesPull(f, e, n);
    if Lands(f, e, n) {
      LandingMerges(f, e, n);
    }
  }

  /** At step `i` of a run, pull `n` is reopened or lands. */
  predicate Unpins(run: seq<Event>, i: nat, n: int)
    requires i < |run|
  {
    Reopens(At(run, i), run[i], n) || Lands(At(run, i), run[i], n)
  }

  /** A closed pull stays as it closed until it is reopened or a merge of it lands; a refused reopening, or an outside
      merge that lands nothing, leaves it alone. */
  lemma {:induction false} ClosedStaysPinned(run: seq<Event>, j: nat, k: nat, n: int)
    requires j <= k <= |run| && n in At(run, j).pulls && At(run, j).pulls[n].state == Closed
    requires forall i :: j <= i < k ==> !Unpins(run, i, n)
    ensures n in At(run, k).pulls && At(run, k).pulls[n] == At(run, j).pulls[n]
    decreases k
  {
    if j < k {
      ClosedStaysPinned(run, j, k - 1, n);
      RunsAreSound(run, k - 1);
      assert !Unpins(run, k - 1, n);
      ClosedChangesExactlyBy(At(run, k - 1), run[k - 1], n);
    }
  }

  lemma MoveKeepsMerge(f: Forge, e: Event, n: int, p': Pull)
    requires n in f.pulls && f.pulls[n].merged && PullMoved(f, e, n, p')
    ensures p'.merged && p'.mergeSha == f.pulls[n].mergeSha
  {
  }

  /** Once merged, a pull stays merged with the same merge sha, reopened or not. */
  lemma {:induction false} MergeIsWriteOnce(run: seq<Event>, j: nat, k: nat, n: int)
    requires j <= k <= |run| && n in At(run, j).pulls && At(run, j).pulls[n].merged
    ensures n in At(run, k).pulls && At(run, k).pulls[n].merged
    ensures At(run, k).pulls[n].mergeSha == At(run, j).pulls[n].mergeSha
    decreases k
  {
    if j < k {
      MergeIsWriteOnce(run, j, k - 1, n);
      RunsAreSound(run, k - 1);
      StepMovesPull(At(run, k - 1), run[k - 1], n);
      MoveKeepsMerge(At(run, k - 1), run[k - 1], n, At(run, k).pulls[n]);
    }
  }

  lemma LandingMerges(f: Forge, e: Event, n: int)
    requires Lands(f, e, n)
    ensures n in Step(f, e).pulls && Step(f, e).pulls[n].merged && Step(f, e).pulls[n].mergeSha == e.sha
    ensures Step(f, e).pulls[n].headSha == Some(f.branches[f.pulls[n].head]) && Step(f, e).pulls[n].baseSha == e.sha
    ensures Step(f, e).pulls[n].state == Closed && Step(f, e).pulls - {n} == f.pulls - {n}
    ensures e.sha.Some? && Step(f, e).branches == f.branches[f.pulls[n].base := e.sha.value]
  {
  }

  lemma LandedIsMerged(run: seq<Event>, i: nat, n: int)
    requires i < |run| && Lands(At(run, i), run[i], n)
    ensures n in At(run, i + 1).pulls && At(run, i + 1).pulls[n].merged
  {
    LandingMerges(At(run, i), run[i], n);
  }

  lemma MergedLandsNoMore(run: seq<Event>, i: nat, j: nat, n: int)
    requires i <= j < |run| && n in At(run, i).pulls && At(run, i).pulls[n].merged
    ensures !Lands(At(run, j), run[j], n)
  {
    MergeIsWriteOnce(run, i, j, n);
  }

  /** No run merges a pull twice: once a merge of it has landed, none lands at any later step. */
  lemma MergedAtMostOnce(run: seq<Event>, i: nat, j: nat, n: int)
    requires i < j < |run| && Lands(At(run, i), run[i], n)
    ensures !Lands(At(run, j), run[j], n)
  {
    LandedIsMerged(run, i, n);
    MergedLandsNoMore(run, i + 1, j, n);
  }

  // ----- deleting a branch

  /** An open pull the branch touches whose other branch is gone. */
  ghost predicate Blocks(f: Forge, branch: string, n: int)
  {
    n in f.pulls && f.pulls[n].state == Open && f.pulls[n].Touches(branch)
    && (f.pulls[n].head !in f.branches || f.pulls[n].base !in f.branches)
  }

  lemma {:induction false} ClosesUnlessBlocked(f: Forge, branch: string, k: int)
    ensures ClosedTouching(f, branch, k).1 <==> forall n :: 1 <= n < k ==> !Blocks(f, branch, n)
    decreases k
  {
    if k > 1 {
      ClosesUnlessBlocked(f, branch, k - 1);
      assert Blocks(f, branch, k - 1) <==>
             k - 1 in f.pulls && f.pulls[k - 1].state == Open && f.pulls[k - 1].Touches(branch)
             && !Frozen(f.branches, f.pulls[k - 1]).1;
      if ClosedTouching(f, branch, k).1 {
        assert ClosedTouching(f, branch, k - 1).1;
      }
    }
  }

  /** A branch is deleted exactly when it exists and no open pull it touches is missing its other branch; then no
      open pull heads it or is based on it, and every pull it closed is pinned to the branches' shas. */
  lemma DeletionClosesItsPulls(f: Forge, branch: string)
    requires Sound(f)
    ensures
      var (g, reply) := RefDeleted(f, branch);
      && (reply == Ok <==> branch in f.branches && forall n :: !Blocks(f, branch, n))
      && (reply == Ok ==>
          && g.branches == f.branches - {branch}
          && g.pulls.Keys == f.pulls.Keys
          && forall n :: n in f.pulls ==>
               && !(g.pulls[n].state == Open && g.pulls[n].Touches(branch))
               && (f.pulls[n].state == Open && f.pulls[n].Touches(branch) ==>
                   && f.pulls[n].head in f.branches && f.pulls[n].base in f.branches
                   && g.pulls[n] == f.pulls[n].(state := Closed, headSha := Some(f.branches[f.pulls[n].head]),
                                                baseSha := Some(f.branches[f.pulls[n].base])))
               && (f.pulls[n].state == Closed || !f.pulls[n].Touches(branch) ==> g.pulls[n] == f.pulls[n]))
  {
    ClosesUnlessBlocked(f, branch, f.next);
    ClosingKeepsNumbers(f, branch, f.next);
    forall n | n in f.pulls
    {
      ClosedTouchingAt(f, branch, f.next, n);
    }
  }

  // ----- what each request does

  /** A pull is opened exactly between two existing branches with no open pull between them, under the next number, and
      every other pull stays. */
  lemma CreateExactly(f: Forge, head: string, base: string)
    requires Sound(f)
    ensures
      var (g, reply) := Created(f, head, base);
      if && head != "" && base != "" && head in f.branches && base in f.branches
         && forall n :: n in f.pulls && f.pulls[n].state == Open ==> (f.pulls[n].head, f.pulls[n].base) != (head, base)
      then
        && reply == Ok && f.next !in f.pulls && g.pulls.Keys == f.pulls.Keys + {f.next}
        && (forall n :: n in f.pulls ==> g.pulls[n] == f.pulls[n])
        && g.pulls[f.next] == Pull(head, base, Open, false, None, None, None)
        && g.branches == f.branches && g.next == f.next + 1
      else (g, reply) == (f, Invalid)
  {
  }

  /** Closing an open pull takes both its branches and pins their shas; without the head nothing changes, and without
      the base it stays open though its head is pinned. */
  lemma CloseExactly(f: Forge, n: int)
    requires n in f.pulls && f.pulls[n].state == Open
    ensures
      var p, (g, reply) := f.pulls[n], StateSet(f, n, Closed);
      && n in g.pulls && g == f.(pulls := f.pulls[n := g.pulls[n]])
      && (reply == Ok <==> p.head in f.branches && p.base in f.branches)
      && (reply == Ok ==>
          g.pulls[n] == p.(state := Closed, headSha := Some(f.branches[p.head]), baseSha := Some(f.branches[p.base])))
      && (reply != Ok ==> reply == BranchNotFound && g.pulls[n] == p.(headSha := g.pulls[n].headSha))
      && g.pulls[n].headSha == (if p.head in f.branches then Some(f.branches[p.head]) else p.headSha)
  {
  }

  /** Reopening takes the head branch, unless the pull was merged, and unpins it, again unless merged. Closing what is
      closed changes nothing. */
  lemma ReopenExactly(f: Forge, n: int)
    requires n in f.pulls
    ensures
      var p, (g, reply) := f.pulls[n], StateSet(f, n, Open);
      && (reply == Ok <==> p.merged || p.head in f.branches)
      && (reply != Ok ==> g == f && reply == Invalid)
      && (reply == Ok ==>
          g == f.(pulls := f.pulls[n := if p.merged then p.(state := Open)
                                        else p.(state := Open, headSha := None, baseSha := None)]))
      && (p.state == Closed ==> StateSet(f, n, Closed) == (f, Ok))
  {
    assert f.pulls[n := f.pulls[n]] == f.pulls;
  }

  /** A merge succeeds exactly when it lands, and else names the first thing wrong and changes nothing. */
  lemma MergeExactly(f: Forge, n: int, expected: Option<string>, refuses: bool, sha: Option<string>)
    ensures
      var (g, reply) := Merged(f, n, expected, refuses, sha);
      && (reply == Ok <==> Lands(f, MergePull(n, expected, refuses, sha), n))
      && (reply != Ok ==> g == f)
      && (reply == PullNotFound <==> n !in f.pulls)
      && (n in f.pulls && (f.pulls[n].merged || f.pulls[n].state == Closed) ==> reply == NotMergeable)
      && (n in f.pulls && !f.pulls[n].merged && f.pulls[n].state == Open ==>
          && (reply == Refused <==> refuses)
          && (reply == BranchNotFound <==> !refuses && f.pulls[n].head !in f.branches)
          && (reply == HeadMismatch <==>
              !refuses && f.pulls[n].head in f.branches && expected != None
              && expected != Some(f.branches[f.pulls[n].head])))
  {
  }

  /** An outside merge lands on any pull not merged, open or closed; asked again of a merged one it changes nothing. */
  lemma OutsideMergeExactly(f: Forge, n: int, sha: Option<string>)
    ensures
      var (g, reply) := MergedOutside(f, n, sha);
      && (n in f.pulls && f.pulls[n].merged ==> (g, reply) == (f, Ok))
      && (!(n in f.pulls && f.pulls[n].merged) ==>
          (reply == Ok <==> Lands(f, MergeOutside(n, sha), n)) && (reply != Ok ==> g == f))
  {
  }

  /** An open pull is viewed at its branches' shas as they are now. */
  lemma OpenViewIsLive(f: Forge, p: Pull)
    requires p.state == Open && p.head in f.branches && p.base in f.branches
    ensures ViewOf(f, p) == Some(View(f.branches[p.head], f.branches[p.base]))
  {
  }
}
