/** The forge's pull operations as they update the repository's tables in place. */
module ForgeService {
  import opened Options
  import opened Pulls

  class Repository {
    var branches: map<string, string>
    var pulls: map<int, Pull>
    var next: int

    function Value(): Forge
      reads this
    {
      Forge(branches, pulls, next)
    }

    /** Closed and merged pulls are pinned. Every method keeps it; none needs it to answer as its step does. */
    ghost predicate Valid()
      reads this
    {
      Sound(Value())
    }

    constructor ()
      ensures Value() == EMPTY_FORGE && Valid()
    {
      branches, pulls, next := map[], map[], 1;
    }

    method CreatePull(head: string, base: string) returns (reply: Reply)
      modifies this
      ensures (Value(), reply) == Created(old(Value()), head, base)
      ensures old(Valid()) ==> Valid()
    {
      if Valid() {
        StepKeepsSound(Value(), Event.CreatePull(head, base));
      }
      if head == "" || base == "" || head !in branches || base !in branches {
        return Invalid;
      }
      if exists n :: n in pulls && pulls[n].state == Open && pulls[n].head == head && pulls[n].base == base {
        return Invalid;
      }
      pulls := pulls[next := Pull(head, base, Open, false, None, None, None)];
      next := next + 1;
      return Ok;
    }

    /** Pins one pull's shas; on a missing branch it stops where it is. */
    method Freeze(n: int) returns (ok: bool)
      requires n in pulls
      modifies this`pulls
      ensures pulls == old(pulls)[n := Frozen(branches, old(pulls)[n]).0]
      ensures ok == Frozen(branches, old(pulls)[n]).1
    {
      if pulls[n].head !in branches {
        assert pulls == pulls[n := pulls[n]];
        return false;
      }
      pulls := pulls[n := pulls[n].(headSha := Some(branches[pulls[n].head]))];
      if pulls[n].base !in branches {
        return false;
      }
      pulls := pulls[n := pulls[n].(baseSha := Some(branches[pulls[n].base]))];
      return true;
    }

    method SetPullState(n: int, state: PullState) returns (reply: Reply)
      modifies this
      ensures (Value(), reply) == StateSet(old(Value()), n, state)
      ensures old(Valid()) ==> Valid()
    {
      if Valid() {
        StepKeepsSound(Value(), SetState(n, state));
      }
      if n !in pulls {
        return PullNotFound;
      }
      if state == Closed && pulls[n].state != Closed {
        var ok := Freeze(n);
        if !ok {
          return BranchNotFound;
        }
      } else if state == Open && !pulls[n].merged {
        if pulls[n].head !in branches {
          return Invalid;
        }
        pulls := pulls[n := pulls[n].(headSha := None)];
        pulls := pulls[n := pulls[n].(baseSha := None)];
      }
      pulls := pulls[n := pulls[n].(state := state)];
      assert pulls == StateSet(old(Value()), n, state).0.pulls;
      return Ok;
    }

    method RecordMerge(n: int, sha: string, headSha: string)
      requires n in pulls
      modifies this`pulls
      ensures pulls == old(pulls)[n := old(pulls)[n].(merged := true, mergeSha := Some(sha), headSha := Some(headSha),
                                                      baseSha := Some(sha), state := Closed)]
    {
      var pull := pulls[n].(merged := true);
      pull := pull.(mergeSha := Some(sha));
      pull := pull.(headSha := Some(headSha));
      pull := pull.(baseSha := Some(sha));
      pull := pull.(state := Closed);
      pulls := pulls[n := pull];
    }

    method MergePull(n: int, expected: Option<string>, leverRefuses: bool, sha: Option<string>) returns (reply: Reply)
      modifies this
      ensures (Value(), reply) == Merged(old(Value()), n, expected, leverRefuses, sha)
      ensures old(Valid()) ==> Valid()
    {
      if Valid() {
        StepKeepsSound(Value(), Event.MergePull(n, expected, leverRefuses, sha));
      }
      if n !in pulls {
        return PullNotFound;
      }
      if pulls[n].merged || pulls[n].state == Closed {
        return NotMergeable;
      }
      if leverRefuses {
        return Refused;
      }
      if pulls[n].head !in branches {
        return BranchNotFound;
      }
      var headSha := branches[pulls[n].head];
      if expected.Some? && expected.value != headSha {
        return HeadMismatch;
      }
      if pulls[n].base !in branches || sha.None? {
        return NotMergeable;
      }
      branches := branches[pulls[n].base := sha.value];
      RecordMerge(n, sha.value, headSha);
      return Ok;
    }

    method ExternalMerge(n: int, sha: Option<string>) returns (reply: Reply)
      modifies this
      ensures (Value(), reply) == MergedOutside(old(Value()), n, sha)
      ensures old(Valid()) ==> Valid()
    {
      if Valid() {
        StepKeepsSound(Value(), MergeOutside(n, sha));
      }
      if n !in pulls {
        return PullNotFound;
      }
      if pulls[n].merged {
        return Ok;
      }
      if pulls[n].head !in branches {
        return BranchNotFound;
      }
      var headSha := branches[pulls[n].head];
      if pulls[n].base !in branches || sha.None? {
        return NotMergeable;
      }
      branches := branches[pulls[n].base := sha.value];
      RecordMerge(n, sha.value, headSha);
      return Ok;
    }

    /** Freezes and closes one pull. */
    method Close(n: int) returns (ok: bool)
      requires n in pulls
      modifies this`pulls
      ensures pulls == old(pulls)[n := Closing(old(Value()), old(pulls)[n])]
      ensures ok == Frozen(branches, old(pulls)[n]).1
    {
      ok := Freeze(n);
      if ok {
        pulls := pulls[n := pulls[n].(state := Closed)];
      }
    }

    /** Deletes a branch, first closing, in number order, the open pulls it touches. */
    method DeleteRef(branch: string) returns (reply: Reply)
      modifies this
      ensures (Value(), reply) == RefDeleted(old(Value()), branch)
      ensures old(Valid()) ==> Valid()
    {
      if Valid() {
        StepKeepsSound(Value(), Event.DeleteRef(branch));
      }
      if branch !in branches {
        return RefMissing;
      }
      var closed := CloseTouching(branch);
      if !closed {
        return BranchNotFound;
      }
      branches := branches - {branch};
      return Ok;
    }

    method CloseTouching(branch: string) returns (ok: bool)
      modifies this`pulls
      ensures (Value(), ok) == ClosedTouching(old(Value()), branch, next)
    {
      ghost var before := Value();
      var n := 1;
      while n < next
        invariant n == 1 || n <= next
        invariant ClosedTouching(before, branch, n) == (Value(), true)
        invariant forall m :: m in before.pulls && m >= n ==> m in pulls && pulls[m] == before.pulls[m]
        invariant pulls.Keys == before.pulls.Keys
      {
        if n in pulls && pulls[n].state == Open && pulls[n].Touches(branch) {
          var fits := Close(n);
          if !fits {
            StopsAtFirstMisfit(before, branch, n + 1, next);
            return false;
          }
        }
        n := n + 1;
      }
      return true;
    }
  }

  /** Once closing has stopped, later numbers change nothing. */
  lemma {:induction false} StopsAtFirstMisfit(f: Forge, branch: string, k: int, upto: int)
    requires k <= upto && !ClosedTouching(f, branch, k).1
    ensures ClosedTouching(f, branch, upto) == ClosedTouching(f, branch, k)
    decreases upto
  {
    if k < upto && upto > 1 {
      StopsAtFirstMisfit(f, branch, k, upto - 1);
    }
  }
}
