/** Keeping some elements of a sequence, and where they come to stand. */
module Sequences {

  function Filter<T(!new)>(s: seq<T>, keep: T -> bool): (r: seq<T>)
    ensures forall x :: x in r <==> x in s && keep(x)
  {
    if s == [] then []
    else
      var rest, last := Filter(s[..|s| - 1], keep), s[|s| - 1];
      if keep(last) then rest + [last] else rest
  }

  /** How many of the first `n` elements are kept. */
  function KeptBefore<T(!new)>(s: seq<T>, keep: T -> bool, n: nat): nat
    requires n <= |s|
  {
    if n == 0 then 0 else KeptBefore(s, keep, n - 1) + if keep(s[n - 1]) then 1 else 0
  }

  lemma {:induction false} KeptBeforePrefix<T(!new)>(s: seq<T>, keep: T -> bool, m: nat, n: nat)
    requires n <= m <= |s|
    ensures KeptBefore(s[..m], keep, n) == KeptBefore(s, keep, n)
  {
    if n > 0 {
      KeptBeforePrefix(s, keep, m, n - 1);
    }
  }

  lemma {:induction false} FilterLength<T(!new)>(s: seq<T>, keep: T -> bool)
    ensures |Filter(s, keep)| == KeptBefore(s, keep, |s|)
  {
    if s != [] {
      FilterLength(s[..|s| - 1], keep);
      KeptBeforePrefix(s, keep, |s| - 1, |s| - 1);
    }
  }

  lemma {:induction false} FilterPlace<T(!new)>(s: seq<T>, keep: T -> bool, i: nat)
    requires i < |s| && keep(s[i])
    ensures KeptBefore(s, keep, i) < |Filter(s, keep)| && Filter(s, keep)[KeptBefore(s, keep, i)] == s[i]
  {
    var some, n := s[..|s| - 1], |s| - 1;
    KeptBeforePrefix(s, keep, n, i);
    if i < n {
      FilterPlace(some, keep, i);
    } else {
      FilterLength(some, keep);
    }
  }

  /** What is kept stands, in order, at the number of kept elements before it, and nothing else is there. */
  lemma FilterPlaces<T(!new)>(s: seq<T>, keep: T -> bool)
    ensures |Filter(s, keep)| == KeptBefore(s, keep, |s|)
    ensures forall i :: 0 <= i < |s| && keep(s[i]) ==> KeptBefore(s, keep, i) < |Filter(s, keep)|
    ensures forall i :: 0 <= i < |s| && keep(s[i]) ==> Filter(s, keep)[KeptBefore(s, keep, i)] == s[i]
  {
    FilterLength(s, keep);
    forall i | 0 <= i < |s| && keep(s[i])
      ensures KeptBefore(s, keep, i) < |Filter(s, keep)| && Filter(s, keep)[KeptBefore(s, keep, i)] == s[i]
    {
      FilterPlace(s, keep, i);
    }
  }

  /** The index a kept element came from. */
  lemma {:induction false} FilterSource<T(!new)>(s: seq<T>, keep: T -> bool, p: nat) returns (i: nat)
    requires p < |Filter(s, keep)|
    ensures i < |s| && keep(s[i]) && KeptBefore(s, keep, i) == p && Filter(s, keep)[p] == s[i]
  {
    var some, n := s[..|s| - 1], |s| - 1;
    FilterLength(some, keep);
    KeptBeforePrefix(s, keep, n, n);
    if p < |Filter(some, keep)| {
      i := FilterSource(some, keep, p);
      KeptBeforePrefix(s, keep, n, i);
    } else {
      i := n;
    }
  }

  lemma {:induction false} KeptBeforeGrows<T(!new)>(s: seq<T>, keep: T -> bool, i: nat, j: nat)
    requires i <= j <= |s|
    ensures KeptBefore(s, keep, i) <= KeptBefore(s, keep, j)
    ensures i < j && keep(s[i]) ==> KeptBefore(s, keep, i) < KeptBefore(s, keep, j)
    decreases j
  {
    if i < j {
      KeptBeforeGrows(s, keep, i, j - 1);
    }
  }
}
