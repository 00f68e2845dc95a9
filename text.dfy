/**
 * Decimal text as Python produces it: `str(n)` for an int (used in cache keys and in the
 * keys of the count endpoints) and the zero-padded `%0Nd` fields of `date.isoformat()`,
 * together with the parsers that undo them.
 */
module Text {

  predicate IsDigit(c: char) {
    '0' <= c <= '9'
  }

  predicate AllDigits(s: string) {
    forall i :: 0 <= i < |s| ==> IsDigit(s[i])
  }

  function DigitChar(d: nat): (c: char)
    requires d < 10
    ensures IsDigit(c)
  {
    (48 + d) as char
  }

  function DigitValue(c: char): (d: nat)
    requires IsDigit(c)
    ensures d < 10
  {
    c as int - 48
  }

  function Pow10(w: nat): (p: nat)
    ensures p >= 1
  {
    if w == 0 then 1 else 10 * Pow10(w - 1)
  }

  /** `str(n)` for a non-negative int: decimal digits, no leading zero. */
  function NatToString(n: nat): (s: string)
    ensures |s| > 0 && AllDigits(s)
    ensures s[0] == '0' ==> n == 0
    decreases n
  {
    if n < 10 then [DigitChar(n)] else NatToString(n / 10) + [DigitChar(n % 10)]
  }

  /** `str(i)` for any int: a minus sign before the digits of a negative number. */
  function IntToString(i: int): (s: string)
    ensures |s| > 0
    ensures '_' !in s && ' ' !in s
    ensures i >= 0 ==> AllDigits(s)
    ensures s[0] == '-' <==> i < 0
  {
    if i < 0 then "-" + NatToString(-i) else NatToString(i)
  }

  /** The value of a string of decimal digits (what `int(s)` gives for such a string). */
  function ParseNat(s: string): nat
    requires AllDigits(s)
  {
    if s == [] then 0 else 10 * ParseNat(s[..|s| - 1]) + DigitValue(s[|s| - 1])
  }

  /** The texts `int()` accepts in this model: digits, or a minus sign before digits. */
  predicate IsIntText(s: string) {
    (|s| > 0 && AllDigits(s)) || (|s| > 1 && s[0] == '-' && AllDigits(s[1..]))
  }

  function ParseInt(s: string): int
    requires IsIntText(s)
  {
    if s[0] == '-' then 0 - ParseNat(s[1..]) else ParseNat(s)
  }

  lemma {:induction false} ParseNatToString(n: nat)
    ensures ParseNat(NatToString(n)) == n
    decreases n
  {
    if n >= 10 {
      var s := NatToString(n);
      assert s[..|s| - 1] == NatToString(n / 10);
      ParseNatToString(n / 10);
    }
  }

  /** `int(str(i)) == i`: the decimal text of an int reads back as that int. */
  lemma IntToStringRoundTrip(i: int)
    ensures IsIntText(IntToString(i))
    ensures ParseInt(IntToString(i)) == i
  {
    if i < 0 {
      var s := IntToString(i);
      assert s[1..] == NatToString(-i);
      ParseNatToString(-i);
    } else {
      ParseNatToString(i);
    }
  }

  lemma IntToStringInjective(i: int, j: int)
    requires IntToString(i) == IntToString(j)
    ensures i == j
  {
    IntToStringRoundTrip(i);
    IntToStringRoundTrip(j);
  }

  /** The last `w` decimal digits of `n`, zero-padded on the left: Python's `"%0{w}d" % n` for `n < 10^w`. */
  function PadDigits(n: nat, w: nat): (s: string)
    ensures |s| == w && AllDigits(s)
  {
    if w == 0 then "" else PadDigits(n / 10, w - 1) + [DigitChar(n % 10)]
  }

  lemma {:induction false} ParsePadDigits(n: nat, w: nat)
    requires n < Pow10(w)
    ensures ParseNat(PadDigits(n, w)) == n
  {
    if w > 0 {
      var s := PadDigits(n, w);
      assert s[..|s| - 1] == PadDigits(n / 10, w - 1);
      assert n / 10 < Pow10(w - 1);
      ParsePadDigits(n / 10, w - 1);
    }
  }

  /**
   * Splitting at the first separator: when neither `a` nor `b` contains `sep`,
   * `a + [sep] + x == b + [sep] + y` forces `a == b` and `x == y`.
   */
  lemma {:induction false} SplitAtSeparator(a: string, x: string, b: string, y: string, sep: char)
    requires sep !in a && sep !in b
    requires a + [sep] + x == b + [sep] + y
    ensures a == b && x == y
    decreases |a|
  {
    var l, r := a + [sep] + x, b + [sep] + y;
    assert l[0] == (if a == [] then sep else a[0]);
    assert r[0] == (if b == [] then sep else b[0]);
    if a == [] {
      assert x == l[1..] == r[1..] == y;
    } else {
      assert a[0] == b[0];
      assert l[1..] == a[1..] + [sep] + x;
      assert r[1..] == b[1..] + [sep] + y;
      SplitAtSeparator(a[1..], x, b[1..], y, sep);
    }
  }
}
