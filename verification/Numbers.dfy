module Numbers {
  function Max(a: int, b: int): int
  {
    if a < b then b else a
  }

  /** One number of each element, in order. */
  function Each<T>(s: seq<T>, number: T -> int): (r: seq<int>)
    ensures |r| == |s|
    ensures forall i :: 0 <= i < |r| ==> r[i] == number(s[i])
  {
    seq(|s|, i requires 0 <= i < |s| => number(s[i]))
  }
}
