/**
 * Python's `int(x)` and `float(x)` applied to a decoded JSON value, as the
 * Alpha Vantage adapter uses them. A coercion that raises `ValueError` or
 * `TypeError` is `None`.
 */
module Coercion {
  import opened Common

  predicate IsDigit(c: char)
  {
    '0' <= c <= '9'
  }

  predicate AllDigits(s: string)
  {
    forall i | 0 <= i < |s| :: IsDigit(s[i])
  }

  function DigitValue(c: char): nat
    requires IsDigit(c)
  {
    (c as int) - ('0' as int)
  }

  /** The value of a run of decimal digits, most significant first. */
  function DigitsValue(s: string): nat
    requires AllDigits(s)
  {
    if s == [] then 0 else DigitsValue(s[..|s| - 1]) * 10 + DigitValue(s[|s| - 1])
  }

  function Pow10(n: nat): (r: nat)
    ensures r >= 1
  {
    if n == 0 then 1 else 10 * Pow10(n - 1)
  }

  /** An optional leading '-' or '+': whether it was '-', and the rest. */
  function SplitSign(s: string): (bool, string)
  {
    if |s| > 0 && s[0] == '-' then (true, s[1..])
    else if |s| > 0 && s[0] == '+' then (false, s[1..])
    else (false, s)
  }

  /** Index of the first '.', or |s| when there is none. */
  function PointIndex(s: string): (k: nat)
    ensures k <= |s|
    ensures forall i | 0 <= i < k :: s[i] != '.'
    ensures k < |s| ==> s[k] == '.'
  {
    if s == [] then 0
    else if s[0] == '.' then 0
    else 1 + PointIndex(s[1..])
  }

  /** `int(text)`: an optional sign followed by one or more decimal digits. */
  function ParseInteger(s: string): Option<int>
  {
    var (negative, body) := SplitSign(s);
    if |body| > 0 && AllDigits(body) then
      Some(if negative then -(DigitsValue(body) as int) else DigitsValue(body))
    else
      None
  }

  /**
   * `float(text)`: an optional sign, digits, and an optional '.' followed by
   * digits, with at least one digit in all ("5", "5.", ".5", "-0.25").
   */
  function ParseDecimal(s: string): Option<real>
  {
    var (negative, body) := SplitSign(s);
    var p := PointIndex(body);
    var whole := body[..p];
    var fraction := if p < |body| then body[p + 1..] else [];
    if AllDigits(whole) && AllDigits(fraction) && |whole| + |fraction| > 0 then
      var magnitude := DigitsValue(whole) as real + DigitsValue(fraction) as real / Pow10(|fraction|) as real;
      Some(if negative then -magnitude else magnitude)
    else
      None
  }

  /** `int(r)` on a float: truncation toward zero. */
  function TruncateTowardZero(r: real): (n: int)
    ensures r >= 0.0 ==> 0.0 <= n as real <= r < n as real + 1.0
    ensures r < 0.0 ==> n as real - 1.0 < r <= n as real <= 0.0
  {
    if r >= 0.0 then r.Floor else -((-r).Floor)
  }

  /** `int(v)` for a decoded JSON value. */
  function PyInt(v: Json): Option<int>
  {
    match v
    case JInt(i) => Some(i)
    case JBool(b) => Some(if b then 1 else 0)
    case JReal(r) => Some(TruncateTowardZero(r))
    case JStr(s) => ParseInteger(s)
    case _ => None // None, a list or a dict: TypeError
  }

  /** `float(v)` for a decoded JSON value. */
  function PyFloat(v: Json): Option<real>
  {
    match v
    case JInt(i) => Some(i as real)
    case JBool(b) => Some(if b then 1.0 else 0.0)
    case JReal(r) => Some(r)
    case JStr(s) => ParseDecimal(s)
    case _ => None // None, a list or a dict: TypeError
  }

  /** `str(n)` for a natural number: its decimal digits without leading zeros. */
  function NaturalText(n: nat): (s: string)
  {
    if n < 10 then [('0' as int + n) as char]
    else NaturalText(n / 10) + [('0' as int + n % 10) as char]
  }

  /** `str(n)` for an integer. */
  function IntegerText(n: int): string
  {
    if n < 0 then "-" + NaturalText(-n) else NaturalText(n)
  }

  lemma {:induction false} NaturalTextDigits(n: nat)
    ensures |NaturalText(n)| > 0 && AllDigits(NaturalText(n))
    ensures DigitsValue(NaturalText(n)) == n
  {
    var s := NaturalText(n);
    if n >= 10 {
      NaturalTextDigits(n / 10);
      assert s[..|s| - 1] == NaturalText(n / 10);
    }
  }

  /** Reading back the decimal text of an integer gives the integer. */
  lemma ParseIntegerRoundTrip(n: int)
    ensures ParseInteger(IntegerText(n)) == Some(n)
  {
    var m := if n < 0 then -n else n;
    NaturalTextDigits(m);
    var t := NaturalText(m);
    assert t[0] != '-' && t[0] != '+' by { assert IsDigit(t[0]); }
    if n < 0 {
      assert IntegerText(n)[1..] == t;
    }
  }

  /** `float` also reads the decimal text of an integer, as that integer. */
  lemma ParseDecimalOfIntegerText(n: int)
    ensures ParseDecimal(IntegerText(n)) == Some(n as real)
  {
    var m := if n < 0 then -n else n;
    NaturalTextDigits(m);
    var t := NaturalText(m);
    assert t[0] != '-' && t[0] != '+' by { assert IsDigit(t[0]); }
    if n < 0 {
      assert IntegerText(n)[1..] == t;
    }
    assert PointIndex(t) == |t| by {
      forall i | 0 <= i < |t| ensures t[i] != '.' { assert IsDigit(t[i]); }
    }
    assert t[..|t|] == t;
  }

  /** A decimal literal with a point: optional '-', whole digits, '.', fraction digits. */
  datatype DecimalLiteral = DecimalLiteral(negative: bool, whole: nat, fraction: string)
  {
    /** The literal's text, such as "118.65" or "-0.5". */
    function Text(): string
    {
      (if negative then "-" else "") + NaturalText(whole) + "." + fraction
    }

    /** The number the literal denotes. */
    function Value(): real
      requires AllDigits(fraction)
    {
      var magnitude := whole as real + DigitsValue(fraction) as real / Pow10(|fraction|) as real;
      if negative then -magnitude else magnitude
    }
  }

  /** The first '.' of `a + "." + b` is the one after `a` when `a` has none. */
  lemma PointIndexAfter(a: string, b: string)
    requires forall i | 0 <= i < |a| :: a[i] != '.'
    ensures PointIndex(a + "." + b) == |a|
  {
    var s := a + "." + b;
    assert s[|a|] == '.';
    forall i | 0 <= i < |a| ensures s[i] != '.' {
      assert s[i] == a[i];
    }
  }

  /** The unsigned part of a literal splits at its point into the whole digits and the fraction. */
  lemma LiteralBodySplit(n: nat, f: string)
    ensures var t := NaturalText(n); var body := t + "." + f;
      PointIndex(body) == |t| && body[..|t|] == t && body[|t| + 1..] == f
  {
    NaturalTextDigits(n);
    var t := NaturalText(n);
    forall i | 0 <= i < |t| ensures t[i] != '.' {
      assert IsDigit(t[i]);
    }
    PointIndexAfter(t, f);
    var body := t + "." + f;
    assert body[..|t|] == t;
    assert body[|t| + 1..] == f;
  }

  /** A literal's text starts with '-' exactly when it is negative, and what follows is its unsigned part. */
  lemma LiteralSign(d: DecimalLiteral)
    ensures SplitSign(d.Text()) == (d.negative, NaturalText(d.whole) + "." + d.fraction)
  {
    NaturalTextDigits(d.whole);
    var t := NaturalText(d.whole);
    var body := t + "." + d.fraction;
    assert IsDigit(t[0]);
    assert body[0] == t[0];
    if d.negative {
      assert d.Text() == "-" + body;
      assert d.Text()[1..] == body;
    } else {
      assert d.Text() == body;
    }
  }

  /** `float` reads the text of a decimal literal with a fraction as that literal's value. */
  lemma ParseDecimalOfLiteral(d: DecimalLiteral)
    requires AllDigits(d.fraction)
    ensures ParseDecimal(d.Text()) == Some(d.Value())
  {
    NaturalTextDigits(d.whole);
    LiteralSign(d);
    LiteralBodySplit(d.whole, d.fraction);
  }

  /** A text holding a decimal point makes `int` raise, so such a volume drops its record. */
  lemma ParseIntegerRejectsFraction(s: string)
    requires exists i | 0 <= i < |s| :: s[i] == '.'
    ensures ParseInteger(s) == None
  {
  }
}
