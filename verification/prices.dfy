/** The price parser shared by scoring and comparison highlighting: every `$`
    and `,` is removed (two `str.replace` calls) and the rest is read by
    `float()`. The model reads a plain decimal literal: optional surrounding
    whitespace, an optional sign, digits with at most one decimal point, and
    at least one digit. `None` is the `ValueError` the source raises. */
module Prices {
  import opened Wrappers
  import opened Text

  /** `s.replace(c, '')`: every `c` removed, every other character kept as
      often as it occurred. */
  function RemoveChar(s: string, c: char): (r: string)
    ensures c !in r
    ensures |r| <= |s|
    ensures forall d :: d != c ==> multiset(r)[d] == multiset(s)[d]
    decreases |s|
  {
    if |s| == 0 then ""
    else
      var rest := RemoveChar(s[1..], c);
      assert s == [s[0]] + s[1..];
      if s[0] == c then rest else [s[0]] + rest
  }

  /** Removing a character that is absent changes nothing. */
  lemma {:induction false} RemoveCharAbsent(s: string, c: char)
    requires c !in s
    ensures RemoveChar(s, c) == s
    decreases |s|
  {
    if |s| > 0 {
      assert s == [s[0]] + s[1..];
      RemoveCharAbsent(s[1..], c);
    }
  }

  /** Removal works piecewise: it keeps the order of what it keeps. */
  lemma {:induction false} RemoveCharAppend(a: string, b: string, c: char)
    ensures RemoveChar(a + b, c) == RemoveChar(a, c) + RemoveChar(b, c)
    decreases |a|
  {
    if |a| > 0 {
      var head := if a[0] == c then "" else [a[0]];
      assert (a + b)[0] == a[0];
      assert (a + b)[1..] == a[1..] + b;
      assert RemoveChar(a + b, c) == head + RemoveChar(a[1..] + b, c);
      assert RemoveChar(a, c) == head + RemoveChar(a[1..], c);
      RemoveCharAppend(a[1..], b, c);
    } else {
      assert a + b == b;
    }
  }

  /** `s.replace('$', '').replace(',', '')`. */
  function StripCurrency(s: string): (r: string)
    ensures '$' !in r && ',' !in r
    ensures forall d :: d != '$' && d != ',' ==> multiset(r)[d] == multiset(s)[d]
  {
    var t := RemoveChar(s, '$');
    var r := RemoveChar(t, ',');
    assert forall d :: d != '$' && d != ',' ==> multiset(r)[d] == multiset(t)[d] == multiset(s)[d];
    assert multiset(r)['$'] == multiset(t)['$'] == 0;
    r
  }

  function DigitValue(c: char): nat
    requires IsDigit(c)
  {
    (c as int) - ('0' as int)
  }

  function DigitChar(d: nat): (c: char)
    requires d < 10
    ensures IsDigit(c) && DigitValue(c) == d
  {
    ('0' as int + d) as char
  }

  /** The number a digit string denotes in base 10. */
  function DigitsValue(s: string): nat
    requires AllDigits(s)
    decreases |s|
  {
    if |s| == 0 then 0 else 10 * DigitsValue(s[..|s| - 1]) + DigitValue(s[|s| - 1])
  }

  function Pow10(n: nat): (p: nat)
    ensures p >= 1
  {
    if n == 0 then 1 else 10 * Pow10(n - 1)
  }

  /** The shortest base-10 spelling of `n`, as `str(n)` gives it. */
  function NatToString(n: nat): (s: string)
    ensures |s| > 0 && AllDigits(s)
    ensures DigitsValue(s) == n
    decreases n
  {
    if n < 10 then [DigitChar(n)]
    else
      var p := NatToString(n / 10);
      var s := p + [DigitChar(n % 10)];
      assert s[..|s| - 1] == p;
      s
  }

  /** An unsigned literal: digits, or digits with one point and at least one
      digit on some side (`"5"`, `"5."`, `".5"`, `"5.25"`). */
  function ParseUnsigned(b: string): Option<real> {
    match IndexOf(b, '.')
    case None =>
      if |b| > 0 && AllDigits(b) then Some(DigitsValue(b) as real) else None
    case Some(k) =>
      var ip := b[..k];
      var fp := b[k + 1..];
      if |b| >= 2 && AllDigits(ip) && AllDigits(fp) then Some(PointValue(ip, fp)) else None
  }

  /** The value of `ip.fp`: the whole part plus the fraction `fp / 10^|fp|`. */
  function PointValue(ip: string, fp: string): (r: real)
    requires AllDigits(ip) && AllDigits(fp)
    ensures DigitsValue(ip) as real <= r < DigitsValue(ip) as real + 1.0
  {
    DigitsBelowPow10(fp);
    FractionBelowOne(DigitsValue(fp) as real, Pow10(|fp|) as real);
    DigitsValue(ip) as real + DigitsValue(fp) as real / Pow10(|fp|) as real
  }

  lemma FractionBelowOne(x: real, y: real)
    requires 0.0 <= x < y
    ensures 0.0 <= x / y < 1.0
  {
    assert x / y * y == x;
  }

  /** `n` digits spell a number below `10^n`. */
  lemma {:induction false} DigitsBelowPow10(s: string)
    requires AllDigits(s)
    ensures DigitsValue(s) < Pow10(|s|)
    decreases |s|
  {
    if |s| > 0 {
      DigitsBelowPow10(s[..|s| - 1]);
    }
  }

  /** `float(s)` on the decimal subset of its grammar. */
  function ParseDecimal(s: string): Option<real> {
    ParseSigned(Strip(s))
  }

  /** An unsigned literal with an optional leading sign. */
  function ParseSigned(t: string): Option<real> {
    if |t| > 0 && t[0] == '-' then
      match ParseUnsigned(t[1..])
      case None => None
      case Some(v) => Some(-v)
    else if |t| > 0 && t[0] == '+' then ParseUnsigned(t[1..])
    else ParseUnsigned(t)
  }

  /** `float(s.replace('$', '').replace(',', ''))`. */
  function ParsePrice(s: string): Option<real> {
    ParseDecimal(StripCurrency(s))
  }

  /** The grammar, stated independently of the parser. */
  ghost predicate IsUnsignedLiteral(b: string) {
    || (|b| > 0 && AllDigits(b))
    || (|b| >= 2 && exists k :: 0 <= k < |b| && b[k] == '.' && AllDigits(b[..k]) && AllDigits(b[k + 1..]))
  }

  ghost predicate IsDecimalLiteral(t: string) {
    || IsUnsignedLiteral(t)
    || (|t| > 0 && (t[0] == '+' || t[0] == '-') && IsUnsignedLiteral(t[1..]))
  }

  lemma ParseUnsignedIff(b: string)
    ensures ParseUnsigned(b).Some? <==> IsUnsignedLiteral(b)
  {
    match IndexOf(b, '.')
    case None =>
      assert forall k :: 0 <= k < |b| ==> b[k] != '.';
    case Some(k) =>
      assert !IsDigit(b[k]);
      assert forall i :: 0 <= i < k ==> b[..k][i] == b[i];
      assert forall i :: 0 <= i < k ==> b[i] != '.';
      forall j | 0 <= j < |b| && b[j] == '.' && AllDigits(b[..j])
        ensures j == k
      {
        assert forall i :: 0 <= i < j ==> b[..j][i] == b[i];
      }
  }

  /** `float` succeeds exactly on the decimal grammar, after whitespace is
      stripped. */
  lemma ParseDecimalSucceedsIff(s: string)
    ensures ParseDecimal(s).Some? <==> IsDecimalLiteral(Strip(s))
  {
    var t := Strip(s);
    ParseUnsignedIff(t);
    if |t| > 0 {
      ParseUnsignedIff(t[1..]);
      if t[0] == '+' || t[0] == '-' {
        assert !IsDigit(t[0]) && t[0] != '.';
        assert forall k :: 0 < k <= |t| ==> t[..k][0] == t[0];
        assert !IsUnsignedLiteral(t);
      }
    }
  }

  /** A digit string contains no point. */
  lemma DigitsHaveNoPoint(s: string)
    requires AllDigits(s)
    ensures '.' !in s
  {
    assert forall i :: 0 <= i < |s| ==> s[i] != '.';
  }

  /** A digit string reads as the whole number it spells. */
  lemma ParseUnsignedWhole(i: string)
    requires |i| > 0 && AllDigits(i)
    ensures ParseUnsigned(i) == Some(DigitsValue(i) as real)
  {
    DigitsHaveNoPoint(i);
  }

  /** `i.f` reads as the whole part plus the fraction `f / 10^|f|`, when at
      least one side has a digit. */
  lemma ParseUnsignedPoint(i: string, f: string)
    requires AllDigits(i) && AllDigits(f) && |i| + |f| > 0
    ensures ParseUnsigned(i + ['.'] + f) == Some(PointValue(i, f))
    ensures PointValue(i, f) == DigitsValue(i) as real + DigitsValue(f) as real / Pow10(|f|) as real
  {
    var b := i + ['.'] + f;
    DigitsHaveNoPoint(i);
    assert b[..|i|] == i;
    assert b[|i| + 1..] == f;
    IndexOfFirst(b, '.', |i|);
    assert IndexOf(b, '.') == Some(|i|);
    assert ParseUnsigned(b) == Some(PointValue(i, f));
    assert PointValue(i, f) == DigitsValue(i) as real + DigitsValue(f) as real / Pow10(|f|) as real;
  }

  /** The first occurrence is the one found. */
  lemma IndexOfFirst(s: string, c: char, k: nat)
    requires k < |s| && s[k] == c && c !in s[..k]
    ensures IndexOf(s, c) == Some(k)
  {
    var r := IndexOf(s, c);
    assert forall j :: 0 <= j < k ==> s[..k][j] == s[j];
    assert forall j :: 0 <= j < r.value ==> s[..r.value][j] == s[j];
  }

  /** A leading `-` negates the value of the literal after it. */
  lemma ParseSignedMinus(b: string)
    ensures ParseSigned("-" + b)
         == (if ParseUnsigned(b).Some? then Some(-ParseUnsigned(b).value) else None)
  {
    assert ("-" + b)[1..] == b;
  }

  /** A leading `+` leaves the value of the literal after it. */
  lemma ParseSignedPlus(b: string)
    ensures ParseSigned("+" + b) == ParseUnsigned(b)
  {
    assert ("+" + b)[1..] == b;
  }

  /** Without a sign the literal is read as it stands. */
  lemma ParseSignedUnsigned(b: string)
    requires |b| == 0 || (b[0] != '-' && b[0] != '+')
    ensures ParseSigned(b) == ParseUnsigned(b)
  {
  }

  /** A price whose currency-free text is `i.f` reads as that decimal
      number: `"$1,299.99"` strips to `"1299" + "." + "99"`. */
  lemma ParsePricePoint(s: string, i: string, f: string)
    requires AllDigits(i) && AllDigits(f) && |i| + |f| > 0
    requires StripCurrency(s) == i + ['.'] + f
    ensures ParsePrice(s) == Some(PointValue(i, f))
    ensures PointValue(i, f) == DigitsValue(i) as real + DigitsValue(f) as real / Pow10(|f|) as real
  {
    var b := i + ['.'] + f;
    assert IsDigit(b[0]) || b[0] == '.' by {
      if |i| > 0 { assert b[0] == i[0]; }
    }
    assert IsDigit(b[|b| - 1]) || b[|b| - 1] == '.' by {
      if |f| > 0 { assert b[|b| - 1] == f[|f| - 1]; }
    }
    assert !IsSpace(b[0]) && !IsSpace(b[|b| - 1]);
    assert Strip(b) == b;
    ParseUnsignedPoint(i, f);
  }

  /** The catalogue's price shape: `"$1,299.99"` reads as 1299.99. */
  lemma ParsePriceExample()
    ensures ParsePrice("$1,299.99") == Some(1299.99)
  {
    var i, f := "1299", "99";
    assert AllDigits(i) && AllDigits(f) && |i| + |f| > 0;
    StripCurrencyExample();
    ParsePricePoint("$1,299.99", i, f);
    PointValueExample();
  }

  lemma StripCurrencyExample()
    ensures StripCurrency("$1,299.99") == "1299" + ['.'] + "99"
  {
    DollarRemoved();
    CommaRemoved();
  }

  lemma DollarRemoved()
    ensures RemoveChar("$1,299.99", '$') == "1,299.99"
  {
    assert "$1,299.99" == "$" + "1,299.99";
    RemoveCharAppend("$", "1,299.99", '$');
    RemoveCharAbsent("1,299.99", '$');
  }

  lemma CommaRemoved()
    ensures RemoveChar("1,299.99", ',') == "1299" + ['.'] + "99"
  {
    assert "1,299.99" == "1," + "299.99";
    RemoveCharAppend("1,", "299.99", ',');
    assert RemoveChar("1,", ',') == "1" by {
      assert "1,"[1..] == ",";
    }
    RemoveCharAbsent("299.99", ',');
  }

  lemma PointValueExample()
    ensures PointValue("1299", "99") == 1299.99
  {
    var x := DigitsValue("1299");
    var y := DigitsValue("99");
    var z := Pow10(|"99"|);
    assert x == 1299 by {
      assert "1299"[..3] == "129" && "129"[..2] == "12" && "12"[..1] == "1" && "1"[..0] == "";
    }
    assert y == 99 by {
      assert "99"[..1] == "9" && "9"[..0] == "";
    }
    assert z == 100 by { assert Pow10(1) == 10; }
    assert PointValue("1299", "99") == x as real + y as real / z as real;
  }

  /** A price whose currency-free text is a digit string reads as the whole
      number it spells, so `"$1,299"` reads as `1299`. */
  lemma ParsePriceWhole(s: string, i: string)
    requires |i| > 0 && AllDigits(i)
    requires StripCurrency(s) == i
    ensures ParsePrice(s) == Some(DigitsValue(i) as real)
  {
    assert !IsSpace(i[0]) && !IsSpace(i[|i| - 1]);
    assert Strip(i) == i;
    ParseUnsignedWhole(i);
  }

  /** Reading back the decimal spelling of a whole number gives the number. */
  lemma ParseNatToString(n: nat)
    ensures ParseDecimal(NatToString(n)) == Some(n as real)
  {
    var s := NatToString(n);
    assert !IsSpace(s[0]) && !IsSpace(s[|s| - 1]);
    assert Strip(s) == s;
    DigitsHaveNoPoint(s);
    assert s[0] != '-' && s[0] != '+' by { assert IsDigit(s[0]); }
  }
}
