/**
 * `Number.prototype.toFixed(2)` as the prediction handler applies it to a
 * percentage, computed on exact reals, together with a reader for the
 * strings it produces so that the format can be checked by a round trip.
 */
module Fixed {
  import opened Options

  predicate IsDigit(c: char) {
    '0' <= c <= '9'
  }

  predicate AllDigits(s: string) {
    forall i :: 0 <= i < |s| ==> IsDigit(s[i])
  }

  function DigitChar(d: nat): (c: char)
    requires d < 10
    ensures IsDigit(c) && c as int - '0' as int == d
  {
    ('0' as int + d) as char
  }

  /** The decimal numeral of `n`, without leading zeros ("0" for zero). */
  function Decimal(n: nat): (s: string)
    ensures |s| >= 1 && AllDigits(s)
    ensures s[0] == '0' <==> n == 0
    decreases n
  {
    if n < 10 then [DigitChar(n)] else Decimal(n / 10) + [DigitChar(n % 10)]
  }

  /** The number a string of decimal digits denotes. */
  function DigitsValue(s: string): nat
    requires AllDigits(s)
  {
    if s == [] then 0 else DigitsValue(s[..|s| - 1]) * 10 + (s[|s| - 1] as int - '0' as int)
  }

  lemma {:induction false} DecimalValue(n: nat)
    ensures DigitsValue(Decimal(n)) == n
    decreases n
  {
    if n >= 10 {
      var s := Decimal(n);
      assert s[..|s| - 1] == Decimal(n / 10);
      DecimalValue(n / 10);
    }
  }

  /**
   * The number of hundredths `n` nearest to `x`; of two equally near, the
   * larger one (the rounding rule of toFixed).
   */
  function Hundredths(x: real): (n: nat)
    requires x >= 0.0
    ensures n as real - 0.5 <= 100.0 * x < n as real + 0.5
  {
    (100.0 * x + 0.5).Floor
  }

  function Distance(a: real, b: real): real {
    if a <= b then b - a else a - b
  }

  lemma HundredthsNearest(x: real, m: int)
    requires x >= 0.0
    ensures Distance(Hundredths(x) as real, 100.0 * x) <= Distance(m as real, 100.0 * x)
    ensures Distance(Hundredths(x) as real, 100.0 * x) == Distance(m as real, 100.0 * x) ==> m <= Hundredths(x)
  {
  }

  /**
   * `x.toFixed(2)`: a minus sign for a negative `x`, the integral part, a
   * point and exactly two fractional digits of `|x|` rounded to hundredths.
   */
  function ToFixed2(x: real): (s: string)
    ensures |s| >= 4 && s[|s| - 3] == '.'
    ensures (s[0] == '-') == (x < 0.0)
  {
    var h := Hundredths(if x < 0.0 then -x else x);
    (if x < 0.0 then "-" else "") + Decimal(h / 100) + "." + [DigitChar(h % 100 / 10), DigitChar(h % 10)]
  }

  /** Reads an unsigned numeral with exactly two fractional digits, in hundredths. */
  function ParseUnsigned(s: string): (r: Option<int>)
    ensures r.Some? ==> r.value >= 0
  {
    if |s| >= 4 && s[|s| - 3] == '.' && AllDigits(s[..|s| - 3]) && AllDigits(s[|s| - 2..]) then
      Some(DigitsValue(s[..|s| - 3]) * 100 + DigitsValue(s[|s| - 2..]))
    else
      None
  }

  /** Reads an optionally signed numeral with exactly two fractional digits, in hundredths. */
  function ParseFixed2(s: string): (r: Option<int>)
  {
    if |s| > 0 && s[0] == '-' then
      match ParseUnsigned(s[1..])
      case Some(h) => Some(-h)
      case None => None
    else
      ParseUnsigned(s)
  }

  /** Every string ToFixed2 produces reads back as the rounded value, sign included. */
  lemma ToFixed2RoundTrip(x: real)
    ensures ParseFixed2(ToFixed2(x)) == Some(if x < 0.0 then -(Hundredths(-x) as int) else Hundredths(x))
  {
    var h := Hundredths(if x < 0.0 then -x else x);
    var whole := Decimal(h / 100);
    var frac := [DigitChar(h % 100 / 10), DigitChar(h % 10)];
    var u := whole + "." + frac;
    DecimalValue(h / 100);
    assert u[..|u| - 3] == whole;
    assert u[|u| - 2..] == frac;
    assert frac[..1] == [frac[0]] && frac[..1][..0] == [];
    assert DigitsValue(frac[..1]) == h % 100 / 10;
    assert DigitsValue(frac) == h % 100;
    assert ParseUnsigned(u) == Some(h);
    if x < 0.0 {
      assert ToFixed2(x) == "-" + u;
      assert ("-" + u)[1..] == u;
    } else {
      assert ToFixed2(x) == u;
      assert IsDigit(whole[0]) && u[0] == whole[0];
    }
  }

  /**
   * A probability in [0, 1], turned into a percentage and printed with
   * toFixed(2), reads back as a number of hundredths between 0.00 and 100.00.
   */
  lemma PercentInRange(p: real)
    requires 0.0 <= p <= 1.0
    ensures var s := ToFixed2(p * 100.0);
      s[0] != '-' && exists h :: ParseFixed2(s) == Some(h) && 0 <= h <= 10000
  {
    ToFixed2RoundTrip(p * 100.0);
    var h := Hundredths(p * 100.0);
    assert h <= 10000;
    var s := ToFixed2(p * 100.0);
    assert IsDigit(Decimal(h / 100)[0]) && s[0] == Decimal(h / 100)[0];
    assert ParseFixed2(s) == Some(h);
  }
}
