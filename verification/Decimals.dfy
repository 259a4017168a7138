/** Exact decimal numbers and their canonical JSON text, RFC 8259 section 6. */
module Decimals {
  import opened Digits
  import opened Sums

  /** (-1)^negative * coefficient * 10^exponent. */
  datatype Decimal = Decimal(negative: bool, coefficient: nat, exponent: int)

  function Pow10(n: nat): (p: nat)
    ensures p >= 1
  {
    if n == 0 then 1 else 10 * Pow10(n - 1)
  }

  lemma {:induction false} Pow10Adds(m: nat, n: nat)
    ensures Pow10(m + n) == Pow10(m) * Pow10(n)
  {
    if m > 0 {
      Pow10Adds(m - 1, n);
      assert Pow10(m) * Pow10(n) == 10 * (Pow10(m - 1) * Pow10(n));
    }
  }

  /** The value in units of 10^k, for a k that is small enough. */
  function Scaled(d: Decimal, k: int): int
    requires k <= d.exponent
  {
    (if d.negative then -1 else 1) * (d.coefficient * Pow10(d.exponent - k))
  }

  /** The two decimals denote the same number. */
  predicate SameNumber(a: Decimal, b: Decimal) {
    var k := Min(a.exponent, b.exponent);
    Scaled(a, k) == Scaled(b, k)
  }

  /** Trailing zeros of the coefficient move into the exponent. */
  function Strip(coefficient: nat, exponent: int): (nat, int)
    requires coefficient > 0
    decreases coefficient
  {
    if coefficient % 10 == 0 then Strip(coefficient / 10, exponent + 1) else (coefficient, exponent)
  }

  /** The one representative of all decimals that denote the same number. */
  function Canon(d: Decimal): Decimal {
    if d.coefficient == 0 then Decimal(false, 0, 0)
    else Decimal(d.negative, Strip(d.coefficient, d.exponent).0, Strip(d.coefficient, d.exponent).1)
  }

  lemma {:induction false} StripShifts(c: nat, n: nat, e: int)
    requires c > 0
    ensures c * Pow10(n) > 0 && Strip(c * Pow10(n), e) == Strip(c, e + n)
    decreases n
  {
    if n > 0 {
      StripShifts(c, n - 1, e + 1);
      TenTimes(c, n);
      StripsOnce(c * Pow10(n - 1), e);
    }
  }

  lemma StripsOnce(m: nat, e: int)
    requires m > 0
    ensures Strip(10 * m, e) == Strip(m, e + 1)
  {
    assert (10 * m) % 10 == 0 && (10 * m) / 10 == m;
  }

  lemma {:induction false} StripKeepsValue(c: nat, e: int)
    requires c > 0
    ensures var (c', e') := Strip(c, e); c' > 0 && c' % 10 != 0 && e' >= e && c == c' * Pow10(e' - e)
    decreases c
  {
    if c % 10 == 0 {
      StripKeepsValue(c / 10, e + 1);
      var (c', e') := Strip(c / 10, e + 1);
      TenTimes(c', e' - e);
    } else {
      assert Pow10(0) == 1;
    }
  }

  lemma TenTimes(c: nat, n: nat)
    requires n > 0
    ensures c * Pow10(n) == 10 * (c * Pow10(n - 1))
  {
  }

  lemma ZeroScaled(d: Decimal, k: int)
    requires k <= d.exponent
    ensures Scaled(d, k) == 0 <==> d.coefficient == 0
    ensures d.coefficient > 0 ==> (Scaled(d, k) < 0 <==> d.negative)
  {
    assert d.coefficient > 0 ==> d.coefficient * Pow10(d.exponent - k) > 0;
  }

  lemma Regrouped(c: nat, m: nat, n: nat)
    ensures c * Pow10(m + n) == (c * Pow10(m)) * Pow10(n)
  {
    Pow10Adds(m, n);
    assert c * (Pow10(m) * Pow10(n)) == (c * Pow10(m)) * Pow10(n);
  }

  lemma SameMagnitude(a: Decimal, b: Decimal)
    requires a.coefficient > 0 && b.coefficient > 0 && a.exponent <= b.exponent
    ensures a.coefficient == b.coefficient * Pow10(b.exponent - a.exponent) <==>
            Strip(a.coefficient, a.exponent) == Strip(b.coefficient, b.exponent)
  {
    StripShifts(b.coefficient, b.exponent - a.exponent, a.exponent);
    if Strip(a.coefficient, a.exponent) == Strip(b.coefficient, b.exponent) { SameStripped(a, b); }
  }

  lemma SameStripped(a: Decimal, b: Decimal)
    requires a.coefficient > 0 && b.coefficient > 0 && a.exponent <= b.exponent
    requires Strip(a.coefficient, a.exponent) == Strip(b.coefficient, b.exponent)
    ensures a.coefficient == b.coefficient * Pow10(b.exponent - a.exponent)
  {
    StripKeepsValue(a.coefficient, a.exponent);
    StripKeepsValue(b.coefficient, b.exponent);
    var (c, e) := Strip(a.coefficient, a.exponent);
    Regrouped(c, e - b.exponent, b.exponent - a.exponent);
    assert e - b.exponent + (b.exponent - a.exponent) == e - a.exponent;
  }

  lemma SameSign(a: Decimal, b: Decimal)
    requires a.coefficient > 0 && b.coefficient > 0 && a.exponent <= b.exponent && a.negative == b.negative
    ensures Scaled(a, a.exponent) == Scaled(b, a.exponent) <==>
            Strip(a.coefficient, a.exponent) == Strip(b.coefficient, b.exponent)
  {
    SameMagnitude(a, b);
    assert Scaled(a, a.exponent) == (if a.negative then -1 else 1) * a.coefficient;
    assert Scaled(b, a.exponent) == (if a.negative then -1 else 1) * (b.coefficient * Pow10(b.exponent - a.exponent));
  }

  /** The canonical form decides whether two decimals denote the same number. */
  lemma CanonDecides(a: Decimal, b: Decimal)
    ensures SameNumber(a, b) <==> Canon(a) == Canon(b)
  {
    var k := Min(a.exponent, b.exponent);
    ZeroScaled(a, k);
    ZeroScaled(b, k);
    if a.coefficient > 0 { StripKeepsValue(a.coefficient, a.exponent); }
    if b.coefficient > 0 { StripKeepsValue(b.coefficient, b.exponent); }
    if a.coefficient > 0 && b.coefficient > 0 && a.negative == b.negative {
      if a.exponent <= b.exponent { SameSign(a, b); } else { SameSign(b, a); }
      var (c, e) := Strip(a.coefficient, a.exponent);
      var (c', e') := Strip(b.coefficient, b.exponent);
      assert Canon(a) == Decimal(a.negative, c, e) && Canon(b) == Decimal(b.negative, c', e');
    }
  }

  lemma CanonIsStable(d: Decimal)
    ensures Canon(Canon(d)) == Canon(d) && SameNumber(d, Canon(d))
  {
    if d.coefficient > 0 { StripKeepsValue(d.coefficient, d.exponent); }
    CanonDecides(d, Canon(d));
  }

  /** The decimal digits of a number, and the number that digits denote. */
  function DigitsOf(n: nat): (s: string)
    ensures |s| > 0 && AllDigits(s) && (n > 0 ==> s[0] != '0')
  {
    if n < 10 then [DigitChar(n)] else DigitsOf(n / 10) + [DigitChar(n % 10)]
  }

  function ValueOf(s: string): nat
    requires AllDigits(s)
  {
    if s == "" then 0 else 10 * ValueOf(s[..|s| - 1]) + DigitValue(s[|s| - 1])
  }

  lemma {:induction false} DigitsDenote(n: nat)
    ensures ValueOf(DigitsOf(n)) == n
  {
    var s := DigitsOf(n);
    if n < 10 {
      assert s[..|s| - 1] == "";
    } else {
      DigitsDenote(n / 10);
      assert s[..|s| - 1] == DigitsOf(n / 10);
    }
  }

  function Zeros(n: nat): (s: string)
    ensures |s| == n && AllDigits(s) && forall i :: 0 <= i < n ==> s[i] == '0'
  {
    seq(n, i => '0')
  }

  lemma {:induction false} AppendedZeros(s: string, n: nat)
    requires AllDigits(s)
    ensures AllDigits(s + Zeros(n)) && ValueOf(s + Zeros(n)) == ValueOf(s) * Pow10(n)
  {
    var t := s + Zeros(n);
    if n == 0 {
      assert t == s;
    } else {
      AppendedZeros(s, n - 1);
      assert t[..|t| - 1] == s + Zeros(n - 1);
      assert t[|t| - 1] == '0' && DigitValue('0') == 0;
      TenTimes(ValueOf(s), n);
    }
  }

  /** A number of n digits is at least 10^(n-1) and below 10^n. */
  lemma {:induction false} DigitCount(n: nat)
    ensures n < Pow10(|DigitsOf(n)|) && (n > 0 ==> Pow10(|DigitsOf(n)| - 1) <= n)
  {
    if n >= 10 {
      DigitCount(n / 10);
      assert |DigitsOf(n)| == |DigitsOf(n / 10)| + 1;
      assert Pow10(|DigitsOf(n)|) == 10 * Pow10(|DigitsOf(n / 10)|);
      assert n < 10 * (n / 10) + 10;
    } else {
      assert Pow10(1) == 10 * Pow10(0) == 10;
    }
  }

  /** The largest finite binary64 number, 17976931348623157 * 10^292. */
  const MAX_COEFFICIENT: nat := 17976931348623157
  const MAX_EXPONENT: nat := 292

  /** The exact comparison of the magnitude with the largest finite binary64 number. */
  predicate InRange(d: Decimal) {
    if d.exponent >= MAX_EXPONENT then d.coefficient * Pow10(d.exponent - MAX_EXPONENT) <= MAX_COEFFICIENT
    else d.coefficient <= MAX_COEFFICIENT * Pow10(MAX_EXPONENT - d.exponent)
  }

  /** The range ends exactly at 17976931348623157 * 10^292, at whatever scale the two are compared. */
  lemma RangeIsExact(d: Decimal, k: int)
    requires k <= d.exponent && k <= 292
    ensures InRange(d) <==> d.coefficient * Pow10(d.exponent - k) <= 17976931348623157 * Pow10(292 - k)
  {
    if d.exponent >= 292 {
      Pow10Adds(d.exponent - 292, 292 - k);
      ScaledAlike(d.coefficient, 17976931348623157, Pow10(d.exponent - 292), Pow10(292 - k));
    } else {
      Pow10Adds(292 - d.exponent, d.exponent - k);
      ScaledAlike(17976931348623157, d.coefficient, Pow10(292 - d.exponent), Pow10(d.exponent - k));
    }
  }

  lemma ScaledAlike(a: nat, b: nat, p: nat, q: nat)
    requires q > 0
    ensures a * p <= b <==> a * (p * q) <= b * q
    ensures b <= a * p <==> b * q <= a * (p * q)
  {
    assert a * (p * q) == (a * p) * q;
    Multiplies(a * p, b, q);
  }

  lemma Multiplies(x: nat, y: nat, q: nat)
    requires q > 0
    ensures x <= y <==> x * q <= y * q
    ensures y <= x <==> y * q <= x * q
  {
  }

  lemma {:induction false} Pow10Grows(m: nat, n: nat)
    requires m <= n
    ensures Pow10(m) <= Pow10(n)
  {
    Pow10Adds(m, n - m);
    assert Pow10(m) * Pow10(n - m) >= Pow10(m) * 1;
  }

  lemma RangeStep(c: nat, e: int, negative: bool)
    ensures InRange(Decimal(negative, 10 * c, e)) <==> InRange(Decimal(negative, c, e + 1))
  {
    if e >= MAX_EXPONENT {
      TenTimes(c, e + 1 - MAX_EXPONENT);
      assert 10 * c * Pow10(e - MAX_EXPONENT) == 10 * (c * Pow10(e - MAX_EXPONENT));
    } else {
      TenTimes(MAX_COEFFICIENT, MAX_EXPONENT - e);
    }
  }

  lemma {:induction false} RangeOfStripped(negative: bool, c: nat, e: int)
    requires c > 0
    ensures InRange(Decimal(negative, c, e))
            <==> InRange(Decimal(negative, Strip(c, e).0, Strip(c, e).1))
    decreases c
  {
    if c % 10 == 0 {
      RangeStep(c / 10, e, negative);
      RangeOfStripped(negative, c / 10, e + 1);
    }
  }

  lemma RangeOfCanon(d: Decimal)
    ensures InRange(Canon(d)) <==> InRange(d)
  {
    if d.coefficient > 0 {
      RangeOfStripped(d.negative, d.coefficient, d.exponent);
    } else {
      assert MAX_COEFFICIENT * Pow10(MAX_EXPONENT) >= 0;
      assert d.exponent < MAX_EXPONENT ==> MAX_COEFFICIENT * Pow10(MAX_EXPONENT - d.exponent) >= 0;
    }
  }

  /** The range test looks at the number alone, never at how it is spelled. */
  lemma RangeIsOfTheNumber(a: Decimal, b: Decimal)
    requires SameNumber(a, b)
    ensures InRange(a) <==> InRange(b)
  {
    CanonDecides(a, b);
    RangeOfCanon(a);
    RangeOfCanon(b);
  }

  lemma SmallerPower(m: nat, n: nat)
    requires Pow10(m) < Pow10(n)
    ensures m < n
  {
    if n <= m { Pow10Grows(n, m); }
  }

  lemma Multiplied(a: nat, b: nat, c: nat)
    requires a <= b
    ensures a * c <= b * c
  {
  }

  lemma MaximumHas17Digits()
    ensures MAX_COEFFICIENT < Pow10(17)
  {
    assert Pow10(4) == 10000 && Pow10(5) == 100000;
    Pow10Adds(4, 4);
    Pow10Adds(4, 5);
    Pow10Adds(8, 9);
  }

  /** A number in range has at most 309 digits before the point, padding included. */
  lemma AtMost309Digits(d: Decimal)
    requires InRange(d) && d.coefficient > 0
    ensures |DigitsOf(d.coefficient)| + d.exponent <= 309
  {
    var n := |DigitsOf(d.coefficient)| - 1;
    DigitCount(d.coefficient);
    MaximumHas17Digits();
    if d.exponent >= MAX_EXPONENT {
      Pow10Adds(n, d.exponent - MAX_EXPONENT);
      Multiplied(Pow10(n), d.coefficient, Pow10(d.exponent - MAX_EXPONENT));
      SmallerPower(n + d.exponent - MAX_EXPONENT, 17);
    } else {
      Pow10Adds(17, MAX_EXPONENT - d.exponent);
      Multiplied(MAX_COEFFICIENT + 1, Pow10(17), Pow10(MAX_EXPONENT - d.exponent));
      assert (MAX_COEFFICIENT + 1) * Pow10(MAX_EXPONENT - d.exponent) > MAX_COEFFICIENT * Pow10(MAX_EXPONENT - d.exponent);
      SmallerPower(n, 17 + (MAX_EXPONENT - d.exponent));
    }
  }
}
