/** Text that the services compare and print: code-point order on strings and decimal numerals. */
module Lexical {

  /** Python's `<` on strings: the first differing code point decides, a proper prefix is smaller. */
  predicate Less(a: string, b: string)
  {
    if b == "" then false
    else if a == "" then true
    else a[0] < b[0] || (a[0] == b[0] && Less(a[1..], b[1..]))
  }

  lemma {:induction false} LessIsStrict(a: string, b: string)
    ensures !(Less(a, b) && Less(b, a))
  {
    if a != "" && b != "" {
      LessIsStrict(a[1..], b[1..]);
    }
  }

  lemma {:induction false} LessIsTransitive(a: string, b: string, c: string)
    requires Less(a, b) && Less(b, c)
    ensures Less(a, c)
  {
    if a != "" && a[0] == b[0] && b[0] == c[0] {
      LessIsTransitive(a[1..], b[1..], c[1..]);
    }
  }

  lemma {:induction false} LessIsTotal(a: string, b: string)
    ensures Less(a, b) || a == b || Less(b, a)
  {
    if a != "" && b != "" && a[0] == b[0] {
      LessIsTotal(a[1..], b[1..]);
      assert a == [a[0]] + a[1..] && b == [b[0]] + b[1..];
    }
  }

  /** A common prefix never decides a comparison. */
  lemma {:induction false} LessPastPrefix(p: string, a: string, b: string)
    ensures Less(p + a, p + b) == Less(a, b)
  {
    if p == "" {
      assert p + a == a && p + b == b;
    } else {
      assert (p + a)[1..] == p[1..] + a && (p + b)[1..] == p[1..] + b;
      LessPastPrefix(p[1..], a, b);
    }
  }

  /** Strings of one length that already differ keep their order whatever follows them. */
  lemma {:induction false} LessBeforeSuffix(a: string, b: string, x: string, y: string)
    requires |a| == |b| && Less(a, b)
    ensures Less(a + x, b + y)
  {
    if a[0] == b[0] {
      LessBeforeSuffix(a[1..], b[1..], x, y);
    }
    assert (a + x)[1..] == a[1..] + x && (b + y)[1..] == b[1..] + y;
  }

  // ----- decimal numerals

  function Digit(d: nat): (c: char)
    requires d < 10
    ensures '0' <= c <= '9'
  {
    '0' + d as char
  }

  function DigitValue(c: char): (d: nat)
    requires '0' <= c <= '9'
    ensures d < 10 && Digit(d) == c
  {
    (c - '0') as nat
  }

  /** The numeral of a natural number, most significant digit first. */
  function Numeral(n: nat): (s: string)
    ensures s != ""
    ensures IsDigits(s)
  {
    if n < 10 then [Digit(n)] else Numeral(n / 10) + [Digit(n % 10)]
  }

  predicate IsDigits(s: string)
  {
    forall i :: 0 <= i < |s| ==> '0' <= s[i] <= '9'
  }

  /** Reads a non-empty string of digits. */
  function NumeralValue(s: string): (n: nat)
    requires IsDigits(s)
  {
    if s == "" then 0 else NumeralValue(s[..|s| - 1]) * 10 + DigitValue(s[|s| - 1])
  }

  lemma {:induction false} NumeralRoundTrip(n: nat)
    ensures NumeralValue(Numeral(n)) == n
  {
    if n < 10 {
      assert Numeral(n)[..0] == "";
    } else {
      NumeralRoundTrip(n / 10);
      assert Numeral(n)[..|Numeral(n)| - 1] == Numeral(n / 10);
    }
  }

  /** `str(z)` of a Python integer. */
  function Decimal(z: int): (s: string)
  {
    if z < 0 then "-" + Numeral(-z) else Numeral(z)
  }

  lemma DecimalInjective(y: int, z: int)
    requires Decimal(y) == Decimal(z)
    ensures y == z
  {
    DecimalSign(y);
    DecimalSign(z);
    NumeralRoundTrip(if y < 0 then -y else y);
    NumeralRoundTrip(if z < 0 then -z else z);
  }

  lemma DecimalSign(z: int)
    ensures z < 0 <==> Decimal(z)[0] == '-'
    ensures z < 0 ==> Decimal(z)[1..] == Numeral(-z)
  {
  }

  lemma DecimalHasNo(z: int, c: char)
    requires c != '-' && !('0' <= c <= '9')
    ensures c !in Decimal(z)
  {
  }

  /** Two texts joined by a mark the right-hand one never contains split in one way only. */
  lemma {:induction false} SplitAtLastMark(a: string, b: string, x: string, y: string, mark: char)
    requires a + [mark] + x == b + [mark] + y
    requires mark !in x && mark !in y
    ensures a == b && x == y
  {
    var s := a + [mark] + x;
    assert s[|a|] == mark && s[|b|] == mark;
    assert x == s[|a| + 1..] && y == s[|b| + 1..];
    InTail(s, |a|, |b|);
    InTail(s, |b|, |a|);
    assert a == s[..|a|] && b == s[..|b|];
  }

  lemma InTail<T>(s: seq<T>, i: nat, j: nat)
    requires i < |s|
    ensures i < j < |s| ==> s[j] in s[i + 1..]
  {
    if i < j < |s| {
      assert s[i + 1..][j - i - 1] == s[j];
    }
  }
}
