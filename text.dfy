/** String helpers used by the tokenizer's filename computation: the decimal
    form of a non-negative integer (JavaScript's `Number.prototype.toString`
    for integers), `String.prototype.padStart` with a one-character fill, and
    the global regular-expression replacement of `*` by `x`. */
module Text {

  predicate IsDigit(c: char) {
    '0' <= c <= '9'
  }

  predicate AllDigits(s: string) {
    forall i :: 0 <= i < |s| ==> IsDigit(s[i])
  }

  function DigitChar(d: nat): (c: char)
    requires d < 10
    ensures IsDigit(c) && c as int - '0' as int == d
  {
    (d + '0' as int) as char
  }

  /** Value of one character read as a decimal digit (0 for anything else). */
  function DigitValue(c: char): (d: nat)
    ensures d < 10
  {
    if IsDigit(c) then c as int - '0' as int else 0
  }

  /** Decimal rendering of `n`, without sign and without leading zeros:
      what `count.toString()` and `"" + timestamp` produce. */
  function DecimalString(n: nat): (s: string)
    ensures |s| >= 1 && AllDigits(s)
    ensures n > 0 ==> s[0] != '0'
    decreases n
  {
    if n < 10 then [DigitChar(n)] else DecimalString(n / 10) + [DigitChar(n % 10)]
  }

  /** Reads a string of decimal digits back as a number (the inverse of
      `DecimalString`); leading zeros contribute nothing. */
  function DigitsValue(s: string): nat
    decreases |s|
  {
    if s == [] then 0 else DigitsValue(s[..|s| - 1]) * 10 + DigitValue(s[|s| - 1])
  }

  lemma {:induction false} DecimalStringRoundTrip(n: nat)
    ensures DigitsValue(DecimalString(n)) == n
    decreases n
  {
    if n >= 10 {
      DecimalStringRoundTrip(n / 10);
      var s := DecimalString(n);
      assert s[..|s| - 1] == DecimalString(n / 10);
    }
  }

  lemma {:induction false} DecimalStringInjective(a: nat, b: nat)
    requires DecimalString(a) == DecimalString(b)
    ensures a == b
  {
    DecimalStringRoundTrip(a);
    DecimalStringRoundTrip(b);
  }

  /** Widths of the decimal rendering: one digit below 10, two below 100,
      three below 1000, and at least four from 1000 on. */
  lemma {:induction false} DecimalStringWidth(n: nat)
    ensures n < 10 ==> |DecimalString(n)| == 1
    ensures 10 <= n < 100 ==> |DecimalString(n)| == 2
    ensures 100 <= n < 1000 ==> |DecimalString(n)| == 3
    ensures 1000 <= n ==> |DecimalString(n)| >= 4
    decreases n
  {
    if n >= 10 {
      DecimalStringWidth(n / 10);
    }
  }

  /** `s.padStart(width, [fill])`: fill characters are added at the front
      until the width is reached; a string already that wide is returned as
      it is, never truncated. */
  function PadStart(s: string, width: nat, fill: char): (r: string)
    ensures |r| == if |s| < width then width else |s|
    ensures r[|r| - |s|..] == s
    ensures forall i :: 0 <= i < |r| - |s| ==> r[i] == fill
  {
    if |s| < width then seq(width - |s|, _ => fill) + s else s
  }

  lemma {:induction false} LeadingZerosAddNothing(z: string, s: string)
    requires forall i :: 0 <= i < |z| ==> z[i] == '0'
    ensures DigitsValue(z + s) == DigitsValue(s)
    decreases |s|
  {
    if s == [] {
      assert z + s == z;
      ZerosAreZero(z);
    } else {
      var t := s[..|s| - 1];
      assert (z + s)[..|z + s| - 1] == z + t;
      assert s[..|s| - 1] == t;
      LeadingZerosAddNothing(z, t);
    }
  }

  lemma {:induction false} ZerosAreZero(z: string)
    requires forall i :: 0 <= i < |z| ==> z[i] == '0'
    ensures DigitsValue(z) == 0
    decreases |z|
  {
    if z != [] {
      ZerosAreZero(z[..|z| - 1]);
    }
  }

  /** The wildcard index as `_getFilename` renders it:
      `count.toString().padStart(3, "0")`. */
  function IndexString(n: nat): (s: string)
    ensures AllDigits(s) && |s| >= 3
  {
    PadStart(DecimalString(n), 3, '0')
  }

  /** Reading an index back gives the number: the rendering loses nothing. */
  lemma IndexStringRoundTrip(n: nat)
    ensures DigitsValue(IndexString(n)) == n
  {
    var d := DecimalString(n);
    var s := IndexString(n);
    var z := s[..|s| - |d|];
    assert s == z + d;
    LeadingZerosAddNothing(z, d);
    DecimalStringRoundTrip(n);
  }

  lemma IndexStringInjective(a: nat, b: nat)
    ensures IndexString(a) == IndexString(b) ==> a == b
  {
    IndexStringRoundTrip(a);
    IndexStringRoundTrip(b);
  }

  /** Indices 1..999 occupy exactly three digits with leading zeros; from
      1000 on the full decimal form is used, with no truncation. */
  lemma IndexStringWidth(n: nat)
    ensures 1 <= n <= 999 ==> |IndexString(n)| == 3
    ensures n >= 1000 ==> IndexString(n) == DecimalString(n) && |IndexString(n)| >= 4
  {
    DecimalStringWidth(n);
  }

  lemma IndexStringFirstThree()
    ensures IndexString(1) == "001"
    ensures IndexString(2) == "002"
    ensures IndexString(3) == "003"
  {
  }

  lemma IndexStringExamples()
    ensures IndexString(42) == "042"
    ensures IndexString(1000) == "1000"
  {
    assert DecimalString(42) == DecimalString(4) + [DigitChar(2)];
    assert DecimalString(100) == DecimalString(10) + [DigitChar(0)];
    assert DecimalString(1000) == DecimalString(100) + [DigitChar(0)];
    assert DecimalString(1000) == "1000";
  }

  /** The global replacement of `*` in `t`: every `*`, left to right, replaced by `x`. */
  function ReplaceStars(t: string, x: string): (r: string)
    ensures '*' !in x ==> '*' !in r
    ensures '*' !in t ==> r == t
    decreases |t|
  {
    if t == [] then [] else (if t[0] == '*' then x else [t[0]]) + ReplaceStars(t[1..], x)
  }

  /** Replacement works piece by piece. */
  lemma {:induction false} ReplaceStarsConcat(a: string, b: string, x: string)
    ensures ReplaceStars(a + b, x) == ReplaceStars(a, x) + ReplaceStars(b, x)
    decreases |a|
  {
    if a == [] {
      assert a + b == b;
    } else {
      assert (a + b)[1..] == a[1..] + b;
      ReplaceStarsConcat(a[1..], b, x);
    }
  }

  /** A longer replacement never gives a shorter result, and gives a
      strictly longer one as soon as there is a `*` to replace. */
  lemma {:induction false} ReplaceStarsLengthMonotone(t: string, x: string, y: string)
    requires |x| < |y|
    ensures |ReplaceStars(t, x)| <= |ReplaceStars(t, y)|
    ensures '*' in t ==> |ReplaceStars(t, x)| < |ReplaceStars(t, y)|
    decreases |t|
  {
    if t != [] {
      ReplaceStarsLengthMonotone(t[1..], x, y);
      assert t[0] != '*' ==> ('*' in t <==> '*' in t[1..]);
    }
  }

  lemma {:induction false} ReplaceStarsSameWidth(t: string, x: string, y: string)
    requires '*' in t && |x| == |y|
    requires ReplaceStars(t, x) == ReplaceStars(t, y)
    ensures x == y
    decreases |t|
  {
    var rx, ry := ReplaceStars(t[1..], x), ReplaceStars(t[1..], y);
    if t[0] == '*' {
      assert (x + rx)[..|x|] == x;
      assert (y + ry)[..|y|] == y;
    } else {
      assert ReplaceStars(t, x) == [t[0]] + rx;
      assert ReplaceStars(t, y) == [t[0]] + ry;
      assert rx == ReplaceStars(t, x)[1..];
      assert ry == ReplaceStars(t, y)[1..];
      assert '*' in t[1..];
      ReplaceStarsSameWidth(t[1..], x, y);
    }
  }

  /** A template holding at least one `*` determines the replacement:
      different replacements give different results. */
  lemma ReplaceStarsInjective(t: string, x: string, y: string)
    requires '*' in t
    requires ReplaceStars(t, x) == ReplaceStars(t, y)
    ensures x == y
  {
    if |x| < |y| {
      ReplaceStarsLengthMonotone(t, x, y);
    } else if |y| < |x| {
      ReplaceStarsLengthMonotone(t, y, x);
    } else {
      ReplaceStarsSameWidth(t, x, y);
    }
  }
}
