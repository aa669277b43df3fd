/** Prefixed-ULID minting: fixed-length Crockford base-32 numerals and how the ids they make up sort. */
module Ids {
  import opened Lexical

  const CROCKFORD: string := "0123456789ABCDEFGHJKMNPQRSTVWXYZ"
  const TIME_CHARS: nat := 10
  const RAND_CHARS: nat := 16

  /** 32^k: how many values `k` characters can tell apart. */
  function Capacity(k: nat): (c: nat)
    ensures c > 0
  {
    if k == 0 then 1 else 32 * Capacity(k - 1)
  }

  /** The last `length` base-32 digits of `value`, most significant first. */
  function Encoding(value: int, length: nat): (s: string)
    ensures |s| == length
    decreases length
  {
    if length == 0 then "" else Encoding(value / 32, length - 1) + [CROCKFORD[value % 32]]
  }

  function Reversed(s: string): (r: string)
    ensures |r| == |s|
    ensures forall i :: 0 <= i < |s| ==> r[i] == s[|s| - 1 - i]
  {
    seq(|s|, i requires 0 <= i < |s| => s[|s| - 1 - i])
  }

  /** The encoder's loop: remainders are collected least significant first and reversed at the end. */
  method Encode(value: int, length: nat) returns (s: string)
    ensures s == Encoding(value, length)
  {
    var chars: string := "";
    var rest := value;
    for k := 0 to length
      invariant |chars| == k
      invariant Encoding(value, length) == Encoding(rest, length - k) + Reversed(chars)
    {
      var rem := rest % 32;
      assert Reversed(chars + [CROCKFORD[rem]]) == [CROCKFORD[rem]] + Reversed(chars);
      chars := chars + [CROCKFORD[rem]];
      rest := rest / 32;
    }
    s := Reversed(chars);
  }

  /** A ULID: the millisecond stamp, then the random tail. */
  function Ulid(millis: int, randomness: int): (s: string)
    ensures |s| == 26
  {
    Encoding(millis, TIME_CHARS) + Encoding(randomness, RAND_CHARS)
  }

  /** `<prefix>_<ulid>`. */
  function Minted(prefix: string, millis: int, randomness: int): string
  {
    prefix + "_" + Ulid(millis, randomness)
  }

  /** Where each digit's symbol lies: the digits, then the capitals without I, L, O and U. */
  function Symbol(d: nat): char
    requires d < 32
  {
    if d < 10 then '0' + d as char
    else if d < 18 then 'A' + (d - 10) as char
    else if d < 20 then 'J' + (d - 18) as char
    else if d < 22 then 'M' + (d - 20) as char
    else if d < 27 then 'P' + (d - 22) as char
    else 'V' + (d - 27) as char
  }

  lemma SymbolAt(d: nat)
    requires d < 32
    ensures CROCKFORD[d] == Symbol(d)
  {
  }

  lemma AlphabetIsOrdered(x: nat, y: nat)
    requires x < 32 && y < 32
    ensures x < y <==> CROCKFORD[x] < CROCKFORD[y]
    ensures x == y <==> CROCKFORD[x] == CROCKFORD[y]
  {
    SymbolAt(x);
    SymbolAt(y);
  }

  /** Fixed-length heads decide a comparison; tails count only between equal heads. */
  lemma HeadDecides(a: string, b: string, x: string, y: string)
    requires |a| == |b|
    ensures Less(a + x, b + y) <==> Less(a, b) || (a == b && Less(x, y))
    ensures |x| == |y| && a + x == b + y ==> a == b && x == y
  {
    LessIsTotal(a, b);
    LessIsStrict(a, b);
    LessIsStrict(a + x, b + y);
    if a == b {
      LessPastPrefix(a, x, y);
    } else if Less(a, b) {
      LessBeforeSuffix(a, b, x, y);
    } else {
      LessBeforeSuffix(b, a, y, x);
    }
    assert (a + x)[..|a|] == a && (b + y)[..|b|] == b;
    assert (a + x)[|a|..] == x && (b + y)[|b|..] == y;
  }

  /** String order equals numeric order below the capacity, and different values get different strings. */
  lemma {:induction false} EncodingKeepsOrder(x: nat, y: nat, length: nat)
    requires x < Capacity(length) && y < Capacity(length)
    ensures x < y <==> Less(Encoding(x, length), Encoding(y, length))
    ensures x == y <==> Encoding(x, length) == Encoding(y, length)
    decreases length
  {
    if length > 0 {
      var a, b := Encoding(x / 32, length - 1), Encoding(y / 32, length - 1);
      var c, d := CROCKFORD[x % 32], CROCKFORD[y % 32];
      EncodingKeepsOrder(x / 32, y / 32, length - 1);
      AlphabetIsOrdered(x % 32, y % 32);
      HeadDecides(a, b, [c], [d]);
    }
  }

  /** The encoder keeps only the value modulo the capacity, so the order is lost past it. */
  lemma {:induction false} EncodingWraps(x: int, k: int, length: nat)
    ensures Encoding(x + k * Capacity(length), length) == Encoding(x, length)
    decreases length
  {
    if length > 0 {
      var y := k * Capacity(length - 1);
      TakeOut32(k, Capacity(length - 1));
      DivModShift(x, y);
      EncodingWraps(x / 32, k, length - 1);
    }
  }

  lemma TakeOut32(k: int, c: int)
    ensures k * (32 * c) == 32 * (k * c)
  {
  }

  lemma DivModShift(x: int, y: int)
    ensures (x + 32 * y) / 32 == x / 32 + y
    ensures (x + 32 * y) % 32 == x % 32
  {
  }

  /** The number a string of symbols stands for, the first symbol weighing most. */
  ghost function Decoded(s: string): int
  {
    if s == "" then 0 else Decoded(s[..|s| - 1]) * 32 + SymbolValue(s[|s| - 1])
  }

  /** The place of a symbol in the alphabet. */
  ghost function SymbolValue(c: char): int
  {
    if exists d :: 0 <= d < 32 && CROCKFORD[d] == c then
      var d :| 0 <= d < 32 && CROCKFORD[d] == c;
      d
    else -1
  }

  lemma SymbolValueIs(d: nat)
    requires d < 32
    ensures SymbolValue(CROCKFORD[d]) == d
  {
    var e := SymbolValue(CROCKFORD[d]);
    assert CROCKFORD[d] == CROCKFORD[d];
    AlphabetIsOrdered(d, e);
  }

  /** Decoding undoes encoding below the capacity. */
  lemma {:induction false} EncodingRoundTrip(x: nat, length: nat)
    requires x < Capacity(length)
    ensures Decoded(Encoding(x, length)) == x
    decreases length
  {
    if length > 0 {
      EncodingRoundTrip(x / 32, length - 1);
      SymbolValueIs(x % 32);
      assert Encoding(x, length)[..length - 1] == Encoding(x / 32, length - 1);
    }
  }

  lemma CapacityOfStamp()
    ensures Capacity(TIME_CHARS) == 0x4_0000_0000_0000
  {
    assert Capacity(5) == 0x200_0000;
    assert Capacity(10) == 32 * 32 * 32 * 32 * 32 * Capacity(5);
  }

  /** Minted ids of one kind sort by millisecond stamp, and by random tail within one millisecond. */
  lemma MintedSortByStamp(prefix: string, m1: nat, r1: nat, m2: nat, r2: nat)
    requires m1 < 0x4_0000_0000_0000 && m2 < 0x4_0000_0000_0000
    requires r1 < Capacity(RAND_CHARS) && r2 < Capacity(RAND_CHARS)
    ensures Less(Minted(prefix, m1, r1), Minted(prefix, m2, r2)) <==> m1 < m2 || (m1 == m2 && r1 < r2)
    ensures Minted(prefix, m1, r1) == Minted(prefix, m2, r2) ==> m1 == m2 && r1 == r2
    ensures |Minted(prefix, m1, r1)| == |prefix| + 27 && prefix + "_" <= Minted(prefix, m1, r1)
  {
    CapacityOfStamp();
    LessPastPrefix(prefix + "_", Ulid(m1, r1), Ulid(m2, r2));
    assert Minted(prefix, m1, r1)[|prefix| + 1..] == Ulid(m1, r1);
    assert Minted(prefix, m2, r2)[|prefix| + 1..] == Ulid(m2, r2);
    EncodingKeepsOrder(m1, m2, TIME_CHARS);
    EncodingKeepsOrder(r1, r2, RAND_CHARS);
    HeadDecides(Encoding(m1, TIME_CHARS), Encoding(m2, TIME_CHARS),
                Encoding(r1, RAND_CHARS), Encoding(r2, RAND_CHARS));
  }
}
