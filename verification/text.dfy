/**
 Text primitives the caller-context line is built from: right alignment by
 left-padding (the `{i,w}` alignment of .NET composite formatting), its
 inverse `TrimLeft`, and the decimal rendering of integers (with `-` as the
 negative sign) together with a parser that undoes it.
 */
module Text {

  /** The range of a C# `int`. */
  type Int32 = x: int | -0x8000_0000 <= x < 0x8000_0000

  function Max(a: int, b: int): int {
    if a < b then b else a
  }

  /* ---------------- Alignment ---------------- */

  /** `n` blanks. */
  function Spaces(n: nat): (s: string)
    ensures |s| == n
    ensures forall i :: 0 <= i < n ==> s[i] == ' '
  {
    if n == 0 then "" else " " + Spaces(n - 1)
  }

  /** Right-aligns `s` in a field of `width` characters. A value longer
      than the field is kept whole: alignment never truncates. */
  function PadLeft(s: string, width: nat): (r: string)
    ensures |r| == Max(width, |s|)
  {
    if width <= |s| then s else Spaces(width - |s|) + s
  }

  /** A padded field is blanks followed by the whole value. */
  lemma PadLeftShape(s: string, width: nat)
    ensures var r := PadLeft(s, width);
            && r[|r| - |s|..] == s
            && forall i :: 0 <= i < |r| - |s| ==> r[i] == ' '
  {
  }

  /** Drops the leading blanks of `s` (`String.TrimStart(' ')`). */
  function TrimLeft(s: string): (r: string)
    decreases |s|
  {
    if |s| > 0 && s[0] == ' ' then TrimLeft(s[1..]) else s
  }

  /** A string that does not begin with a blank. */
  predicate NoLeadingSpace(s: string) {
    |s| == 0 || s[0] != ' '
  }

  lemma {:induction false} TrimLeftSpaces(n: nat, s: string)
    requires NoLeadingSpace(s)
    ensures TrimLeft(Spaces(n) + s) == s
    decreases n
  {
    if n > 0 {
      assert (Spaces(n) + s)[1..] == Spaces(n - 1) + s;
      TrimLeftSpaces(n - 1, s);
    }
  }

  /** Trimming undoes padding for any value that does not itself begin
      with a blank, whatever the field width. */
  lemma PadLeftTrimLeft(s: string, width: nat)
    requires NoLeadingSpace(s)
    ensures TrimLeft(PadLeft(s, width)) == s
  {
    if width > |s| {
      TrimLeftSpaces(width - |s|, s);
    } else {
      TrimLeftSpaces(0, s);
      assert Spaces(0) + s == s;
    }
  }

  /* ---------------- Decimal numerals ---------------- */

  predicate IsDigit(c: char) {
    '0' <= c <= '9'
  }

  predicate AllDigits(s: string) {
    forall i :: 0 <= i < |s| ==> IsDigit(s[i])
  }

  function DigitValue(c: char): nat
    requires IsDigit(c)
  {
    (c as int) - ('0' as int)
  }

  function DigitChar(d: nat): (c: char)
    requires d < 10
    ensures IsDigit(c) && DigitValue(c) == d
  {
    (('0' as int) + d) as char
  }

  /** The decimal numeral of `n`: digits only, no leading zero. */
  function NatToString(n: nat): (r: string)
    ensures |r| >= 1
    ensures AllDigits(r)
    ensures r[0] == '0' <==> n == 0
    decreases n
  {
    if n < 10 then [DigitChar(n)] else NatToString(n / 10) + [DigitChar(n % 10)]
  }

  /** The value of a string of decimal digits (0 for the empty string). */
  function ParseDecimal(s: string): nat
    requires AllDigits(s)
  {
    if |s| == 0 then 0 else 10 * ParseDecimal(s[..|s| - 1]) + DigitValue(s[|s| - 1])
  }

  lemma {:induction false} NatToStringRoundTrip(n: nat)
    ensures ParseDecimal(NatToString(n)) == n
    decreases n
  {
    if n >= 10 {
      var s := NatToString(n);
      assert s[..|s| - 1] == NatToString(n / 10);
      NatToStringRoundTrip(n / 10);
    }
  }

  /** Distinct numbers have distinct numerals. */
  lemma NatToStringInjective(a: nat, b: nat)
    requires NatToString(a) == NatToString(b)
    ensures a == b
  {
    NatToStringRoundTrip(a);
    NatToStringRoundTrip(b);
  }

  function Pow10(k: nat): (p: nat)
    ensures p >= 1
  {
    if k == 0 then 1 else 10 * Pow10(k - 1)
  }

  /** A numeral fits in `k` characters exactly when the number is below 10^k. */
  lemma {:induction false} NatToStringLength(n: nat, k: nat)
    requires k >= 1
    ensures |NatToString(n)| <= k <==> n < Pow10(k)
    decreases n
  {
    if n < 10 {
      assert Pow10(k) >= 10 by { assert Pow10(k) == 10 * Pow10(k - 1); }
    } else if k == 1 {
      assert |NatToString(n)| == |NatToString(n / 10)| + 1;
    } else {
      assert |NatToString(n)| == |NatToString(n / 10)| + 1;
      NatToStringLength(n / 10, k - 1);
      assert n / 10 < Pow10(k - 1) <==> n < 10 * Pow10(k - 1);
    }
  }

  /** The `G` rendering of an integer, with `-` as the negative sign. */
  function IntToString(i: int): (r: string)
    ensures |r| >= 1
    ensures r[0] == '-' <==> i < 0
    ensures AllDigits(if i < 0 then r[1..] else r)
    ensures i < 0 ==> |r| >= 2 && r[1] != '0'
    ensures i >= 0 ==> (r[0] == '0' <==> i == 0)
    ensures i == 0 ==> |r| == 1
  {
    if i < 0 then "-" + NatToString(-i) else NatToString(i)
  }

  /** Reads back an optionally signed decimal numeral. */
  function ParseInt(s: string): int
    requires |s| >= 1
    requires s[0] == '-' ==> AllDigits(s[1..])
    requires s[0] != '-' ==> AllDigits(s)
  {
    if s[0] == '-' then 0 - ParseDecimal(s[1..]) else ParseDecimal(s)
  }

  lemma IntToStringRoundTrip(i: int)
    ensures ParseInt(IntToString(i)) == i
  {
    if i < 0 {
      assert IntToString(i)[1..] == NatToString(-i);
      NatToStringRoundTrip(-i);
    } else {
      NatToStringRoundTrip(i);
    }
  }

  /** Every line number from -999 to 9999 fills at most a four-character field. */
  lemma IntToStringFitsFour(i: int)
    requires -999 <= i <= 9999
    ensures |IntToString(i)| <= 4
  {
    assert Pow10(4) == 10000 by {
      assert Pow10(1) == 10;
      assert Pow10(2) == 100;
      assert Pow10(3) == 1000;
    }
    if i < 0 {
      NatToStringLength(-i, 3);
    } else {
      NatToStringLength(i, 4);
    }
  }

  /** Where each part of a six-part concatenation sits. */
  lemma SixParts(a: string, b: string, c: string, d: string, e: string, f: string)
    ensures var r := a + b + c + d + e + f;
            var i1, i2, i3 := |a|, |a| + |b|, |a| + |b| + |c|;
            var i4, i5 := i3 + |d|, i3 + |d| + |e|;
            && |r| == i5 + |f|
            && r[..i1] == a && r[i1..i2] == b && r[i2..i3] == c
            && r[i3..i4] == d && r[i4..i5] == e && r[i5..] == f
  {
  }

  /** Right-nested and left-nested concatenation of six parts agree. */
  lemma ConcatAssociates(a: string, b: string, c: string, d: string, e: string, f: string)
    ensures a + (b + (c + (d + (e + (f + ""))))) == a + b + c + d + e + f
  {
  }
}
