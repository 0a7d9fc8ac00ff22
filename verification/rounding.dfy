/** `round(x, 2)` and the `:.2f` format used for displayed scores, both read
    on exact reals with ties going to the even neighbour, as Python rounds. */
module Rounding {
  import opened Wrappers
  import opened Text
  import opened Prices

  /** The nearest integer, ties to even. */
  function RoundHalfEven(x: real): (n: int)
    ensures (n as real) - 0.5 <= x <= (n as real) + 0.5
    ensures x - (x.Floor as real) == 0.5 ==> n % 2 == 0
  {
    var f := x.Floor;
    var d := x - f as real;
    if d < 0.5 then f
    else if d > 0.5 then f + 1
    else if f % 2 == 0 then f
    else f + 1
  }

  lemma RoundHalfEvenOfInt(n: int)
    ensures RoundHalfEven(n as real) == n
  {
    assert (n as real).Floor == n;
  }

  /** Rounding never reverses an order. */
  lemma RoundHalfEvenMonotone(x: real, y: real)
    requires x <= y
    ensures RoundHalfEven(x) <= RoundHalfEven(y)
  {
    var fx, fy := x.Floor, y.Floor;
    if fx < fy {
      assert RoundHalfEven(x) <= fx + 1 <= fy <= RoundHalfEven(y);
    }
  }

  /** `round(x, 2)`. */
  function Round2(x: real): (r: real)
    ensures r - 0.005 <= x <= r + 0.005
  {
    RoundHalfEven(x * 100.0) as real / 100.0
  }

  lemma Round2Monotone(x: real, y: real)
    requires x <= y
    ensures Round2(x) <= Round2(y)
  {
    RoundHalfEvenMonotone(x * 100.0, y * 100.0);
  }

  /** A value that already has at most two decimals is left alone. */
  lemma Round2OfCents(n: int)
    ensures Round2(n as real / 100.0) == n as real / 100.0
  {
    assert (n as real / 100.0) * 100.0 == n as real;
    RoundHalfEvenOfInt(n);
  }

  /** Rounding twice is rounding once. */
  lemma Round2Idempotent(x: real)
    ensures Round2(Round2(x)) == Round2(x)
  {
    Round2OfCents(RoundHalfEven(x * 100.0));
  }

  /** Rounding keeps a value inside any interval whose ends have at most two
      decimals; in particular the unit interval. */
  lemma Round2Within(x: real, lo: int, hi: int)
    requires lo as real / 100.0 <= x <= hi as real / 100.0
    ensures lo as real / 100.0 <= Round2(x) <= hi as real / 100.0
  {
    Round2Monotone(lo as real / 100.0, x);
    Round2Monotone(x, hi as real / 100.0);
    Round2OfCents(lo);
    Round2OfCents(hi);
  }

  lemma Round2Unit(x: real)
    requires 0.0 <= x <= 1.0
    ensures 0.0 <= Round2(x) <= 1.0
  {
    Round2Within(x, 0, 100);
  }

  function Abs(n: int): nat { if n < 0 then -n else n }

  /** Two digits for `0 <= m < 100`, with a leading zero. */
  function TwoDigits(m: nat): (s: string)
    requires m < 100
    ensures |s| == 2 && AllDigits(s) && DigitsValue(s) == m
  {
    var s := [DigitChar(m / 10), DigitChar(m % 10)];
    assert s[..1] == [DigitChar(m / 10)];
    assert [DigitChar(m / 10)][..0] == [];
    assert DigitsValue(s[..1]) == m / 10;
    assert DigitsValue(s) == 10 * (m / 10) + m % 10;
    s
  }

  /** `f"{x:.2f}"`: the value rounded to cents, written with two decimals. */
  function FormatFixed2(x: real): string {
    var c := RoundHalfEven(x * 100.0);
    SignedText(c < 0, CentsText(Abs(c)))
  }

  /** A magnitude's spelling with a minus sign in front when negative. */
  function SignedText(negative: bool, body: string): string {
    if negative then "-" + body else body
  }

  /** A non-negative number of cents written as units, a point and two
      decimals. */
  function CentsText(a: nat): string {
    NatToString(a / 100) + "." + TwoDigits(a % 100)
  }

  lemma CentsArithmetic(a: nat)
    ensures (a / 100) as real + (a % 100) as real / 100.0 == a as real / 100.0
  {
    assert a == 100 * (a / 100) + a % 100;
  }

  lemma {:induction false} ParseCentsText(a: nat)
    ensures ParseUnsigned(CentsText(a)) == Some(a as real / 100.0)
    ensures |CentsText(a)| > 0 && IsDigit(CentsText(a)[0]) && IsDigit(CentsText(a)[|CentsText(a)| - 1])
  {
    var ip := NatToString(a / 100);
    var fp := TwoDigits(a % 100);
    var body := ip + "." + fp;
    assert CentsText(a) == body;
    DigitsHaveNoPoint(ip);
    var k := |ip|;
    assert body[k] == '.';
    assert body[..k] == ip;
    assert IndexOf(body, '.') == Some(k);
    assert body[k + 1..] == fp;
    assert Pow10(2) == 100;
    CentsArithmetic(a);
    assert body[0] == ip[0];
  }

  /** Reading a signed spelling back, given that the magnitude's spelling
      reads back and has a digit at each end. */
  lemma ParseSignedText(negative: bool, body: string, v: real)
    requires DigitEdged(body)
    requires ParseUnsigned(body) == Some(v)
    ensures ParseDecimal(SignedText(negative, body)) == Some(if negative then -v else v)
  {
    if negative {
      ParseNegativeCents(body, v);
    } else {
      ParseNonNegativeCents(body, v);
    }
  }

  lemma SignedCents(c: int)
    ensures (if c < 0 then -(Abs(c) as real / 100.0) else Abs(c) as real / 100.0) == c as real / 100.0
  {
  }

  /** Starts and ends with a digit. */
  predicate DigitEdged(s: string) {
    |s| > 0 && IsDigit(s[0]) && IsDigit(s[|s| - 1])
  }

  lemma ParseNonNegativeCents(body: string, v: real)
    requires DigitEdged(body)
    requires ParseUnsigned(body) == Some(v)
    ensures ParseDecimal(body) == Some(v)
  {
    assert !IsSpace(body[0]) && !IsSpace(body[|body| - 1]);
    assert Strip(body) == body;
    assert body[0] != '-' && body[0] != '+';
  }

  lemma ParseNegativeCents(body: string, v: real)
    requires DigitEdged(body)
    requires ParseUnsigned(body) == Some(v)
    ensures ParseDecimal("-" + body) == Some(-v)
  {
    var s := "-" + body;
    assert s[0] == '-' && s[|s| - 1] == body[|body| - 1];
    assert !IsSpace(s[0]) && !IsSpace(s[|s| - 1]);
    assert Strip(s) == s;
    assert s[1..] == body;
    assert ParseSigned(s) == Some(-v);
  }

  /** Reading back a formatted value gives the rounded value. */
  lemma ParseFormatFixed2(x: real)
    ensures ParseDecimal(FormatFixed2(x)) == Some(Round2(x))
  {
    var c := RoundHalfEven(x * 100.0);
    var a := Abs(c);
    var v := a as real / 100.0;
    calc {
      ParseDecimal(FormatFixed2(x));
      ParseDecimal(SignedText(c < 0, CentsText(a)));
      { ParseCentsText(a);
        ParseSignedText(c < 0, CentsText(a), v); }
      Some(if c < 0 then -v else v);
      { SignedCents(c); }
      Some(c as real / 100.0);
      Some(Round2(x));
    }
  }
}
