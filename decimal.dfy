/**
 * Decimal text of numbers: Rust's `format!("{:.2}", x)` (Fmt2) and `str::parse::<f64>`
 * (ParseFloat), on exact reals.
 */
module Decimal {
  import opened Wrappers
  import opened Text

  function DigitChar(d: nat): (c: char)
    requires d < 10
    ensures IsDigit(c)
  {
    ('0' as int + d) as char
  }

  function DigitValue(c: char): (d: nat)
    requires IsDigit(c)
    ensures d < 10
  {
    c as int - '0' as int
  }

  lemma {:induction false} DigitCharValue(d: nat)
    requires d < 10
    ensures DigitValue(DigitChar(d)) == d
  {
  }

  /** The value of a string of decimal digits, most significant first. */
  function DigitsValue(s: string): nat
    requires AllDigits(s)
    decreases |s|
  {
    if s == [] then 0 else DigitsValue(s[..|s| - 1]) * 10 + DigitValue(s[|s| - 1])
  }

  /** The shortest decimal digits of `n`. */
  function NatToDigits(n: nat): (r: string)
    ensures |r| > 0 && AllDigits(r)
  {
    if n < 10 then [DigitChar(n)] else NatToDigits(n / 10) + [DigitChar(n % 10)]
  }

  lemma {:induction false} DigitsRoundTrip(n: nat)
    ensures DigitsValue(NatToDigits(n)) == n
  {
    if n >= 10 {
      DigitsRoundTrip(n / 10);
      var s := NatToDigits(n);
      assert s[..|s| - 1] == NatToDigits(n / 10);
    }
  }

  function Abs(x: real): (r: real)
    ensures r >= 0.0 && (r == x || r == -x)
  {
    if x < 0.0 then -x else x
  }

  /** Rounding to the nearest integer, halves upwards. */
  function Round(y: real): (n: int)
    ensures y - 0.5 < n as real <= y + 0.5
  {
    (y + 0.5).Floor
  }

  /** `x` is a whole number of hundredths. */
  predicate OnGrid(x: real) {
    (x * 100.0).Floor as real == x * 100.0
  }

  lemma {:induction false} OnGridAdd(a: real, b: real)
    requires OnGrid(a) && OnGrid(b)
    ensures OnGrid(a + b)
  {
    var i, j := (a * 100.0).Floor, (b * 100.0).Floor;
    assert (a + b) * 100.0 == (i + j) as real;
  }

  lemma {:induction false} OnGridSub(a: real, b: real)
    requires OnGrid(a) && OnGrid(b)
    ensures OnGrid(a - b)
  {
    var i, j := (a * 100.0).Floor, (b * 100.0).Floor;
    assert (a - b) * 100.0 == (i - j) as real;
  }

  /** The number of hundredths nearest to `|x|`. */
  function Hundredths(x: real): nat {
    Round(Abs(x) * 100.0)
  }

  /** `n` hundredths as whole digits, a point and exactly two fractional digits. */
  function HundredthsText(n: nat): string {
    NatToDigits(n / 100) + "." + [DigitChar(n % 100 / 10), DigitChar(n % 10)]
  }

  /** The text of `n` hundredths: digits, the point third from the end, then two digits. */
  lemma {:induction false} HundredthsTextShape(n: nat)
    ensures var r := HundredthsText(n);
      |r| >= 4 && r[|r| - 3] == '.' && AllDigits(r[..|r| - 3]) && AllDigits(r[|r| - 2..])
    ensures var r := HundredthsText(n);
      forall i :: 0 <= i < |r| ==> IsDigit(r[i]) || r[i] == '.'
  {
    var whole := NatToDigits(n / 100);
    var r := HundredthsText(n);
    assert r[..|r| - 3] == whole;
  }

  /**
   * `format!("{:.2}", x)`: an optional minus sign, the integral digits, a point and exactly
   * two fractional digits, of `x` rounded to hundredths.
   */
  function Fmt2(x: real): string {
    (if x < 0.0 then "-" else "") + HundredthsText(Hundredths(x))
  }

  /** The shape of `format!("{:.2}", x)`: a minus sign exactly for negative numbers, digits, a point, two digits. */
  lemma {:induction false} Fmt2Format(x: real)
    ensures var r := Fmt2(x);
      |r| >= 4 && r[|r| - 3] == '.' && IsDigit(r[|r| - 2]) && IsDigit(r[|r| - 1])
    ensures var r := Fmt2(x);
      x >= 0.0 ==> AllDigits(r[..|r| - 3])
    ensures var r := Fmt2(x);
      x < 0.0 ==> |r| >= 5 && r[0] == '-' && AllDigits(r[1..|r| - 3])
    ensures var r := Fmt2(x);
      forall i :: 0 <= i < |r| ==> IsDigit(r[i]) || r[i] == '.' || r[i] == '-'
  {
    var t := HundredthsText(Hundredths(x));
    HundredthsTextShape(Hundredths(x));
    var r := Fmt2(x);
    assert x >= 0.0 ==> r == t;
    assert x < 0.0 ==> r[1..|r| - 3] == t[..|t| - 3] && r[1..] == t;
  }

  /** The text of a non-negative number: point and digits only. */
  lemma {:induction false} Fmt2Shape(x: real)
    requires x >= 0.0
    ensures var r := Fmt2(x); '\t' !in r && '\n' !in r && '.' in r
    ensures forall i :: 0 <= i < |Fmt2(x)| ==> IsDigit(Fmt2(x)[i]) || Fmt2(x)[i] == '.'
  {
    Fmt2Format(x);
    var r := Fmt2(x);
    assert r[|r| - 3] == '.';
  }

  /** Digits with at most one point and at least one digit: the mantissa of a float literal. */
  function ParseMantissa(s: string): Option<real> {
    var dot := IndexOf(s, '.', 0);
    var whole := s[..dot];
    var fraction := if dot < |s| then s[dot + 1..] else "";
    if AllDigits(whole) && AllDigits(fraction) && |whole| + |fraction| > 0 then
      Some(PointedValue(whole, fraction))
    else None
  }

  /** The value `0.fraction` of the digits after a point, most significant first. */
  function FractionValue(fraction: string): real
    requires AllDigits(fraction)
    decreases |fraction|
  {
    if fraction == [] then 0.0 else (DigitValue(fraction[0]) as real + FractionValue(fraction[1..])) / 10.0
  }

  /** The value of `whole.fraction`. */
  function PointedValue(whole: string, fraction: string): real
    requires AllDigits(whole) && AllDigits(fraction)
  {
    DigitsValue(whole) as real + FractionValue(fraction)
  }

  /** An optionally signed, non-empty run of digits. */
  function ParseExponent(s: string): Option<int> {
    if |s| > 0 && (s[0] == '+' || s[0] == '-') then
      if |s| > 1 && AllDigits(s[1..]) then
        Some(if s[0] == '-' then -(DigitsValue(s[1..]) as int) else DigitsValue(s[1..]) as int)
      else None
    else if |s| > 0 && AllDigits(s) then Some(DigitsValue(s) as int)
    else None
  }

  /** `m` times ten to the power `e`. */
  function ScaleByPow10(m: real, e: int): real
    decreases if e >= 0 then e else -e
  {
    if e == 0 then m
    else if e > 0 then ScaleByPow10(m, e - 1) * 10.0
    else ScaleByPow10(m, e + 1) / 10.0
  }

  function ParseUnsigned(s: string): Option<real> {
    var e := IndexOf(s, 'e', 0);
    var upper := IndexOf(s, 'E', 0);
    var cut := if e < upper then e else upper;
    if cut == |s| then ParseMantissa(s)
    else
      match (ParseMantissa(s[..cut]), ParseExponent(s[cut + 1..]))
      case (Some(m), Some(x)) => Some(ScaleByPow10(m, x))
      case _ => None
  }

  /**
   * `str::parse::<f64>` on the literals that denote a finite real:
   * Sign? (Digit+ | Digit+ '.' Digit* | Digit* '.' Digit+) (('e' | 'E') Sign? Digit+)?
   */
  function ParseFloat(s: string): Option<real> {
    if |s| > 0 && (s[0] == '+' || s[0] == '-') then
      match ParseUnsigned(s[1..])
      case None => None
      case Some(v) => Some(if s[0] == '-' then -v else v)
    else ParseUnsigned(s)
  }

  /** Digits, a point and digits read as a mantissa. */
  lemma {:induction false} MantissaOfPointed(whole: string, fraction: string)
    requires AllDigits(whole) && AllDigits(fraction) && |whole| > 0
    ensures ParseMantissa(whole + "." + fraction) == Some(PointedValue(whole, fraction))
  {
    var s := whole + "." + fraction;
    assert forall i :: 0 <= i < |whole| ==> s[i] == whole[i];
    assert s[|whole|] == '.';
    var dot := IndexOf(s, '.', 0);
    assert dot == |whole|;
    assert s[..dot] == whole;
    assert s[dot + 1..] == fraction;
    assert AllDigits(s[..dot]) && AllDigits(s[dot + 1..]);
  }

  /** A text without exponent letter is read as a mantissa. */
  lemma {:induction false} UnsignedWithoutExponent(s: string)
    requires forall i :: 0 <= i < |s| ==> IsDigit(s[i]) || s[i] == '.'
    ensures ParseUnsigned(s) == ParseMantissa(s)
  {
    assert IndexOf(s, 'e', 0) == |s| && IndexOf(s, 'E', 0) == |s|;
  }

  /** The text of `n` hundredths reads back as `n / 100`. */
  lemma {:induction false} ParseHundredthsText(n: nat)
    ensures ParseUnsigned(HundredthsText(n)) == Some(n as real / 100.0)
  {
    var whole := NatToDigits(n / 100);
    var two := [DigitChar(n % 100 / 10), DigitChar(n % 10)];
    assert HundredthsText(n) == whole + "." + two;
    ParsePointed(whole, two);
    assert DigitsValue(whole) == n / 100 by {
      DigitsRoundTrip(n / 100);
    }
    assert FractionValue(two) == (n % 100) as real / 100.0 by {
      var a, b := n % 100 / 10, n % 10;
      DigitCharValue(a);
      DigitCharValue(b);
      assert two[1..] == [DigitChar(b)] && two[1..][1..] == [];
      assert FractionValue(two[1..]) == (b as real + FractionValue(two[1..][1..])) / 10.0;
      assert FractionValue(two) == (a as real + b as real / 10.0) / 10.0;
      TensAndUnits(n);
    }
    HundredthsSplit(n);
  }

  /** The last two decimal digits of `n` make up `n % 100`. */
  lemma {:induction false} TensAndUnits(n: nat)
    ensures 10 * (n % 100 / 10) + n % 10 == n % 100
  {
    var m := n % 100;
    assert n == 100 * (n / 100) + m;
    assert n == 10 * (10 * (n / 100) + m / 10) + m % 10;
  }

  /** Digits, a point and digits read as their pointed value. */
  lemma {:induction false} ParsePointed(whole: string, fraction: string)
    requires AllDigits(whole) && AllDigits(fraction) && |whole| > 0
    ensures ParseUnsigned(whole + "." + fraction) == Some(PointedValue(whole, fraction))
  {
    var r := whole + "." + fraction;
    assert forall i :: 0 <= i < |r| ==> IsDigit(r[i]) || r[i] == '.' by {
      forall i | 0 <= i < |r|
        ensures IsDigit(r[i]) || r[i] == '.'
      {
        if i < |whole| {
          assert r[i] == whole[i];
        } else if i > |whole| {
          assert r[i] == fraction[i - |whole| - 1];
        }
      }
    }
    UnsignedWithoutExponent(r);
    MantissaOfPointed(whole, fraction);
  }


  /** Whole hundreds and the remaining hundredths make up the number. */
  lemma {:induction false} HundredthsSplit(n: nat)
    ensures (n / 100) as real + (n % 100) as real / 100.0 == n as real / 100.0
  {
    assert n == (n / 100) * 100 + n % 100;
    assert n as real == (n / 100) as real * 100.0 + (n % 100) as real;
  }


  /** On the grid, rounding to hundredths is exact. */
  lemma {:induction false} HundredthsOnGrid(x: real)
    requires OnGrid(x)
    ensures Hundredths(x) as real == Abs(x) * 100.0
  {
    var i := (x * 100.0).Floor;
    assert x * 100.0 == i as real;
    var m := if x < 0.0 then -i else i;
    assert Abs(x) * 100.0 == m as real;
    RoundWhole(m);
  }

  lemma {:induction false} RoundWhole(m: int)
    ensures Round(m as real) == m
  {
    var n := Round(m as real);
    assert m as real - 0.5 < n as real <= m as real + 0.5;
  }

  lemma {:induction false} ParseFmt2NonNegative(x: real)
    requires OnGrid(x) && x >= 0.0
    ensures ParseFloat(Fmt2(x)) == Some(x)
  {
    var n := Hundredths(x);
    calc {
      ParseFloat(Fmt2(x));
      { Fmt2Format(x); UnsignedParse(Fmt2(x)); }
      ParseUnsigned(Fmt2(x));
      { UnsignedFmt2(x); }
      ParseUnsigned(HundredthsText(n));
      { ParseHundredthsText(n); }
      Some(n as real / 100.0);
      { HundredthsOnGrid(x); }
      Some(x);
    }
  }

  lemma {:induction false} UnsignedFmt2(x: real)
    requires x >= 0.0
    ensures Fmt2(x) == HundredthsText(Hundredths(x))
  {
  }

  lemma {:induction false} UnsignedParse(s: string)
    requires |s| > 0 && IsDigit(s[0])
    ensures ParseFloat(s) == ParseUnsigned(s)
  {
  }

  lemma {:induction false} ParseFmt2Negative(x: real)
    requires OnGrid(x) && x < 0.0
    ensures ParseFloat(Fmt2(x)) == Some(x)
  {
    var n := Hundredths(x);
    HundredthsOnGrid(x);
    ParseHundredthsText(n);
    var r := Fmt2(x);
    assert n as real / 100.0 == -x;
    assert r[1..] == HundredthsText(n);
    assert ParseUnsigned(r[1..]) == Some(n as real / 100.0);
    assert r[0] == '-';
  }

  /** Reading back `format!("{:.2}", x)` gives `x` whenever `x` is a whole number of hundredths. */
  lemma {:induction false} ParseFmt2(x: real)
    requires OnGrid(x)
    ensures ParseFloat(Fmt2(x)) == Some(x)
  {
    if x >= 0.0 {
      ParseFmt2NonNegative(x);
    } else {
      ParseFmt2Negative(x);
    }
  }

  /** A rendered number holds no tab, newline, carriage return, bracket or equals sign, and ends in a digit. */
  lemma {:induction false} Fmt2Plain(x: real)
    ensures '\t' !in Fmt2(x) && '\n' !in Fmt2(x) && '\r' !in Fmt2(x) && '[' !in Fmt2(x) && '=' !in Fmt2(x)
    ensures IsDigit(Fmt2(x)[|Fmt2(x)| - 1])
  {
    Fmt2Format(x);
  }

  /** The round trip, stated for every number: it applies to the numbers on the grid. */
  lemma {:induction false} ParseFmt2OnGrid(x: real)
    ensures OnGrid(x) ==> ParseFloat(Fmt2(x)) == Some(x)
  {
    if OnGrid(x) {
      ParseFmt2(x);
    }
  }

  /** `format!("{:.2}", 10.0)` is `"10.00"`. */
  lemma {:induction false} Fmt2Ten()
    ensures Fmt2(10.0) == "10.00"
  {
    assert Abs(10.0) * 100.0 == 1000.0;
    assert Round(1000.0) == 1000;
    assert Hundredths(10.0) == 1000;
    assert NatToDigits(1) == "1";
    assert NatToDigits(10) == "10";
    assert HundredthsText(1000) == "10" + "." + "00";
  }

  /** A whole number is written with its digits and `.00`. */
  lemma {:induction false} Fmt2Whole(n: nat)
    ensures Fmt2(n as real) == NatToDigits(n) + ".00"
  {
    assert Abs(n as real) * 100.0 == (100 * n) as real;
    assert Round((100 * n) as real) == 100 * n;
    assert (100 * n) / 100 == n && (100 * n) % 100 == 0;
  }

  /** `format!("{:.2}", 5.0)` is `"5.00"`. */
  lemma {:induction false} Fmt2Five()
    ensures Fmt2(5.0) == "5.00"
  {
    Fmt2Whole(5);
  }

  /** `format!("{:.2}", 100.0)` is `"100.00"`. */
  lemma {:induction false} Fmt2Hundred()
    ensures Fmt2(100.0) == "100.00"
  {
    Fmt2Whole(100);
    assert NatToDigits(1) == "1";
    assert NatToDigits(10) == "10";
    assert NatToDigits(100) == "100";
  }
}
