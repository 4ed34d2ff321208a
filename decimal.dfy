/**
 * The numeric conversions the handler relies on, over amounts held as integer
 * cents: `Number.prototype.toFixed(2)`, the `String(number)` conversion used
 * by template literals, and the string-to-number conversion behind `Number(s)`.
 */
module Decimal {
  import opened Wrappers

  predicate IsDigit(ch: char) { '0' <= ch <= '9' }

  predicate AllDigits(s: string) { forall i | 0 <= i < |s| :: IsDigit(s[i]) }

  function DigitChar(d: nat): (ch: char)
    requires d < 10
    ensures IsDigit(ch) && ch as int - '0' as int == d
  {
    (d + '0' as int) as char
  }

  function DigitValue(ch: char): (d: nat)
    requires IsDigit(ch)
    ensures d < 10
  {
    ch as int - '0' as int
  }

  /** The decimal digits of `n`, without leading zeros. */
  function NatText(n: nat): (s: string)
    ensures 1 <= |s| && AllDigits(s)
    ensures |s| == 1 <==> n < 10
    ensures s[0] == '0' <==> n == 0
    decreases n
  {
    if n < 10 then [DigitChar(n)] else NatText(n / 10) + [DigitChar(n % 10)]
  }

  /** The value of a string of decimal digits (the empty string reads as 0). */
  function DigitsValue(s: string): nat
    requires AllDigits(s)
    decreases |s|
  {
    if s == [] then 0 else 10 * DigitsValue(s[..|s| - 1]) + DigitValue(s[|s| - 1])
  }

  lemma {:induction false} NatTextValue(n: nat)
    ensures DigitsValue(NatText(n)) == n
    decreases n
  {
    if n >= 10 {
      NatTextValue(n / 10);
      var s := NatText(n);
      assert s[..|s| - 1] == NatText(n / 10);
    }
  }

  function Abs(c: int): nat { if c < 0 then -c else c }

  function SignText(c: int): string { if c < 0 then "-" else "" }

  /** A well-formed `toFixed(2)` text: an optional minus, digits, a point, exactly two digits. */
  predicate TwoDecimals(s: string)
  {
    && |s| >= 4
    && s[|s| - 3] == '.' && IsDigit(s[|s| - 2]) && IsDigit(s[|s| - 1])
    && (forall i | 0 <= i < |s| - 3 :: IsDigit(s[i]) || (i == 0 && s[i] == '-'))
    && IsDigit(s[|s| - 4])
  }

  /**
   * `(c / 100).toFixed(2)`: the amount `c` cents with exactly two fractional
   * digits, and a minus sign exactly for a negative amount.
   */
  function FixedTwo(c: int): (s: string)
    ensures TwoDecimals(s)
    ensures s[0] == '-' <==> c < 0
    ensures s[|SignText(c)|] == '0' ==> Abs(c) < 100
  {
    SignedFixedShape(c);
    SignText(c) + FixedDigits(Abs(c))
  }

  /** The unsigned part of `toFixed(2)`: whole units, a point, two digits of hundredths. */
  function FixedDigits(a: nat): string
  {
    NatText(a / 100) + ("." + [DigitChar(a % 100 / 10), DigitChar(a % 100 % 10)])
  }

  /** The sign followed by the unsigned part has the shape of a `toFixed(2)` text. */
  lemma SignedFixedShape(c: int)
    ensures TwoDecimals(SignText(c) + FixedDigits(Abs(c)))
    ensures (SignText(c) + FixedDigits(Abs(c)))[0] == '-' <==> c < 0
    ensures (SignText(c) + FixedDigits(Abs(c)))[|SignText(c)|] == '0' ==> Abs(c) < 100
  {
    var w := NatText(Abs(c) / 100);
    var s := SignText(c) + FixedDigits(Abs(c));
    var sign := SignText(c);
    assert s == sign + (w + ("." + [DigitChar(Abs(c) % 100 / 10), DigitChar(Abs(c) % 100 % 10)]));
    assert |s| == |sign| + |w| + 3;
    forall i | 0 <= i < |s| - 3 ensures IsDigit(s[i]) || (i == 0 && s[i] == '-') {
      if i >= |sign| {
        assert s[i] == w[i - |sign|];
      }
    }
    assert s[|s| - 4] == w[|w| - 1];
    assert s[|sign|] == w[0];
  }

  /** The fractional part JavaScript prints for `f` hundredths: nothing, or trailing zeros dropped. */
  function FractionText(f: nat): string
    requires f < 100
  {
    if f == 0 then ""
    else if f % 10 == 0 then "." + [DigitChar(f / 10)]
    else "." + [DigitChar(f / 10), DigitChar(f % 10)]
  }

  /** `String(c / 100)`: JavaScript's shortest rendering of the amount `c` cents. */
  function NumberText(c: int): string
  {
    SignText(c) + ShortestDigits(Abs(c))
  }

  /** The unsigned part of `String(number)`. */
  function ShortestDigits(a: nat): string
  {
    NatText(a / 100) + FractionText(a % 100)
  }

  /** The white space that `Number(s)` strips from both ends (ASCII and the no-break spaces). */
  predicate IsSpace(ch: char)
  {
    ch == ' ' || ch == '\t' || ch == '\n' || ch == '\r' || ch == '\U{B}' || ch == '\U{C}'
    || ch == '\U{A0}' || ch == '\U{FEFF}'
  }

  function TrimStart(s: string): string
    decreases |s|
  {
    if s != [] && IsSpace(s[0]) then TrimStart(s[1..]) else s
  }

  function TrimEnd(s: string): string
    decreases |s|
  {
    if s != [] && IsSpace(s[|s| - 1]) then TrimEnd(s[..|s| - 1]) else s
  }

  function Trim(s: string): string { TrimEnd(TrimStart(s)) }

  /** Index of the first '.', or |s| when there is none. */
  function DotIndex(s: string): (k: nat)
    ensures k <= |s|
    ensures k < |s| ==> s[k] == '.'
    ensures forall i | 0 <= i < k :: s[i] != '.'
    decreases |s|
  {
    if s == [] || s[0] == '.' then 0 else 1 + DotIndex(s[1..])
  }

  /** The hundredths written by at most two fractional digits ("5" is 50, "05" is 5). */
  function FractionValue(f: string): nat
    requires AllDigits(f) && |f| <= 2
  {
    if |f| == 0 then 0 else if |f| == 1 then 10 * DigitValue(f[0]) else DigitsValue(f)
  }

  /** An unsigned decimal literal: digits, optionally a point and at most two digits, at least one digit in all. */
  function ParseUnsigned(u: string): Option<nat>
  {
    var k := DotIndex(u);
    if k < |u| then ReadParts(u[..k], u[k + 1..]) else ReadParts(u, "")
  }

  /** The value of the digits before and after the point, when both are well formed. */
  function ReadParts(whole: string, frac: string): Option<nat>
  {
    if AllDigits(whole) && AllDigits(frac) && 1 <= |whole| + |frac| && |frac| <= 2
    then Some(100 * DigitsValue(whole) + FractionValue(frac))
    else None
  }

  /**
   * `Number(s)` in cents: blank text is 0, a signed decimal literal is its
   * value, anything else is NaN (None).
   */
  function ParseCents(s: string): (r: Option<int>)
    ensures Trim(s) == [] ==> r == Some(0)
    ensures r.Some? && r.value < 0 ==> Trim(s)[0] == '-'
    ensures r.Some? && Trim(s) != [] ==> IsDigit(Trim(s)[|Trim(s)| - 1]) || Trim(s)[|Trim(s)| - 1] == '.'
  {
    var t := Trim(s);
    if t == [] then Some(0)
    else if t[0] == '-' then
      match ParseUnsigned(t[1..])
      case Some(n) => Some(-(n as int))
      case None => None
    else if t[0] == '+' then
      match ParseUnsigned(t[1..])
      case Some(n) => Some(n)
      case None => None
    else
      match ParseUnsigned(t)
      case Some(n) => Some(n)
      case None => None
  }

  lemma {:induction false} DotIndexAfterDigits(a: string, b: string)
    requires AllDigits(a)
    ensures DotIndex(a + b) == |a| + DotIndex(b)
    decreases |a|
  {
    if a != [] {
      assert (a + b)[1..] == a[1..] + b;
      DotIndexAfterDigits(a[1..], b);
    } else {
      assert a + b == b;
    }
  }

  /** Reading back the digits of `n` alone gives `n` whole units. */
  lemma ParseUnsignedWhole(n: nat)
    ensures ParseUnsigned(NatText(n)) == Some(100 * n)
  {
    NatTextValue(n);
    var w := NatText(n);
    DotIndexAfterDigits(w, "");
    assert w + "" == w;
    assert DotIndex(w) == |w|;
    assert ParseUnsigned(w) == ReadParts(w, "");
  }

  /** Digits, a point and more text split at that point. */
  lemma ParseAtPoint(w: string, frac: string)
    requires AllDigits(w)
    ensures ParseUnsigned(w + ("." + frac)) == ReadParts(w, frac)
  {
    var tail := "." + frac;
    var u := w + tail;
    DotIndexAfterDigits(w, tail);
    assert tail[0] == '.';
    var k := DotIndex(u);
    assert k == |w| < |u|;
    assert u[..k] == w;
    assert u[k + 1..] == frac;
  }

  /** Reading back the digits of `n`, a point and one or two digits. */
  lemma ParseUnsignedFraction(n: nat, frac: string)
    requires AllDigits(frac) && 1 <= |frac| <= 2
    ensures ParseUnsigned(NatText(n) + ("." + frac)) == Some(100 * n + FractionValue(frac))
  {
    NatTextValue(n);
    ParseAtPoint(NatText(n), frac);
  }

  lemma TwoDigitsValue(a: nat, b: nat)
    requires a < 10 && b < 10
    ensures FractionValue([DigitChar(a), DigitChar(b)]) == 10 * a + b
  {
    var f := [DigitChar(a), DigitChar(b)];
    assert f[..1] == [DigitChar(a)];
    assert [DigitChar(a)][..0] == [];
    assert DigitsValue([DigitChar(a)]) == a;
    assert DigitsValue(f) == 10 * DigitsValue(f[..1]) + DigitValue(f[1]);
  }

  /** A sign in front of an unsigned literal that reads as |c| makes it read as c. */
  lemma ParseSigned(c: int, u: string)
    requires u != [] && IsDigit(u[0]) && IsDigit(u[|u| - 1])
    requires ParseUnsigned(u) == Some(Abs(c))
    ensures ParseCents(SignText(c) + u) == Some(c)
  {
    var s := SignText(c) + u;
    TrimKeeps(s);
    if c < 0 {
      assert s[0] == '-';
      assert s[1..] == u;
    } else {
      assert s == u;
    }
  }

  lemma TrimKeeps(s: string)
    requires s != [] && !IsSpace(s[0]) && !IsSpace(s[|s| - 1])
    ensures Trim(s) == s
  {
  }

  lemma HundredthsDigits(a: nat)
    ensures a == 100 * (a / 100) + a % 100
    ensures a % 100 == 10 * (a % 100 / 10) + a % 100 % 10
  {
  }

  lemma FixedDigitsRead(a: nat)
    ensures ParseUnsigned(FixedDigits(a)) == Some(a)
    ensures IsDigit(FixedDigits(a)[0]) && IsDigit(FixedDigits(a)[|FixedDigits(a)| - 1])
  {
    HundredthsDigits(a);
    var frac := [DigitChar(a % 100 / 10), DigitChar(a % 100 % 10)];
    ParseUnsignedFraction(a / 100, frac);
    TwoDigitsValue(a % 100 / 10, a % 100 % 10);
    var u := FixedDigits(a);
    assert u[0] == NatText(a / 100)[0];
    assert u[|u| - 1] == DigitChar(a % 100 % 10);
  }

  /** Reading back a `toFixed(2)` text gives the amount it was made from. */
  lemma FixedTwoRoundTrip(c: int)
    ensures ParseCents(FixedTwo(c)) == Some(c)
  {
    FixedDigitsRead(Abs(c));
    ParseSigned(c, FixedDigits(Abs(c)));
  }

  lemma ShortestDigitsRead(a: nat)
    ensures ParseUnsigned(ShortestDigits(a)) == Some(a)
    ensures IsDigit(ShortestDigits(a)[0]) && IsDigit(ShortestDigits(a)[|ShortestDigits(a)| - 1])
  {
    HundredthsDigits(a);
    var n, f := a / 100, a % 100;
    var u := ShortestDigits(a);
    if f == 0 {
      ParseUnsignedWhole(n);
      assert u == NatText(n);
    } else if f % 10 == 0 {
      var frac := [DigitChar(f / 10)];
      ParseUnsignedFraction(n, frac);
      assert u == NatText(n) + ("." + frac);
    } else {
      var frac := [DigitChar(f / 10), DigitChar(f % 10)];
      ParseUnsignedFraction(n, frac);
      TwoDigitsValue(f / 10, f % 10);
      assert u == NatText(n) + ("." + frac);
    }
    assert u[0] == NatText(n)[0];
  }

  /** Reading back `String(number)` gives the amount it was made from. */
  lemma NumberTextRoundTrip(c: int)
    ensures ParseCents(NumberText(c)) == Some(c)
  {
    ShortestDigitsRead(Abs(c));
    ParseSigned(c, ShortestDigits(Abs(c)));
  }

  lemma {:induction false} TrimEndKeepsHead(s: string)
    requires s != [] && !IsSpace(s[0])
    ensures TrimEnd(s) != [] && TrimEnd(s)[0] == s[0]
    decreases |s|
  {
    if IsSpace(s[|s| - 1]) {
      TrimEndKeepsHead(s[..|s| - 1]);
    }
  }

  /** Text whose first character cannot start a number, such as "abc", reads as NaN. */
  lemma NotNumberText(s: string)
    requires s != [] && !IsSpace(s[0]) && !IsDigit(s[0]) && s[0] !in "+-."
    ensures ParseCents(s) == None
  {
    TrimEndKeepsHead(s);
    var t := Trim(s);
    assert t[0] == s[0];
    var k := DotIndex(t);
    assert k > 0;
    assert !IsDigit(t[..k][0]);
  }

  /** Zero prints as 0.00. */
  lemma FixedTwoZero()
    ensures FixedTwo(0) == "0.00"
  {
    assert DigitChar(0) == '0';
    assert NatText(0) == ['0'];
    assert FixedDigits(0) == ['0'] + ("." + ['0', '0']);
    assert FixedTwo(0) == "" + FixedDigits(0);
  }

  /** Sample readings: letters are NaN, blank text is 0, white space around a literal is ignored. */
  lemma SampleReadings()
    ensures ParseCents("abc") == None
    ensures ParseCents("") == Some(0)
    ensures ParseCents(" 12.5 ") == Some(1250)
  {
    NotNumberText("abc");
    assert Trim(" 12.5 ") == "12.5" by {
      assert TrimStart(" 12.5 ") == TrimStart("12.5 ");
      assert TrimEnd("12.5 ") == TrimEnd("12.5");
    }
    assert DotIndex("12.5") == 2 by {
      assert "12.5"[1..] == "2.5";
      assert "2.5"[1..] == ".5";
    }
    assert "12.5"[..2] == "12";
    assert "12.5"[3..] == "5";
    assert DigitsValue("12") == 12 by { assert "12"[..1] == "1"; }
  }
}
