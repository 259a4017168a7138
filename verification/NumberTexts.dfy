/** The canonical JSON text of a decimal, and an independent reader of numbers, RFC 8259 section 6. */
module NumberTexts {
  import opened Decimals
  import opened Digits
  import opened Outcomes

  /** The text of a canonical number. */
  function CanonText(d: Decimal): (s: string)
    ensures |s| > 0
  {
    if d.coefficient == 0 then "0" else (if d.negative then "-" else "") + Unsigned(d)
  }

  function Unsigned(d: Decimal): (s: string)
    ensures |s| > 0
  {
    var digits := DigitsOf(d.coefficient);
    var point := |digits| + d.exponent;
    if d.exponent >= 0 then digits + Zeros(d.exponent)
    else if point > 0 then digits[..point] + "." + digits[point..]
    else digits[..1] + (if |digits| > 1 then "." + digits[1..] else "") + "e-" + DigitsOf(1 - point)
  }

  /** The canonical text of a decimal; None where the program raises. */
  function NumberText(d: Decimal): Option<string> {
    if InRange(d) then Some(CanonText(Canon(d))) else None
  }

  /** The digits a text starts with, and what follows them. */
  function TakeDigits(s: string): (r: (string, string))
    ensures AllDigits(r.0) && |s| == |r.0| + |r.1|
  {
    if s != "" && IsDigit(s[0]) then
      var (digits, rest) := TakeDigits(s[1..]);
      (s[..1] + digits, rest)
    else ("", s)
  }

  /** An independent reader of numbers: it keeps the exact decimal. */
  function ReadNumber(s: string): (r: Option<(Decimal, string)>)
    ensures r.Some? ==> |r.value.1| < |s|
  {
    if s != "" && s[0] == '-' then ReadUnsigned(true, s[1..]) else ReadUnsigned(false, s)
  }

  function ReadUnsigned(negative: bool, s: string): (r: Option<(Decimal, string)>)
    ensures r.Some? ==> |r.value.1| < |s|
  {
    var (digits, tail) := TakeDigits(s);
    if digits == "" || (|digits| > 1 && digits[0] == '0') then None
    else
      match ReadTail(tail)
      case None => None
      case Some((fraction, e, rest)) => Some((FromDigits(negative, digits + fraction, e - |fraction|), rest))
  }

  function FromDigits(negative: bool, digits: string, exponent: int): Decimal
    requires AllDigits(digits)
  {
    Decimal(negative, ValueOf(digits), exponent)
  }

  function ReadTail(s: string): (r: Option<(string, int, string)>)
    ensures r.Some? ==> AllDigits(r.value.0) && |r.value.2| <= |s|
  {
    match ReadFraction(s)
    case None => None
    case Some((fraction, t)) =>
      match ReadExponent(t)
      case None => None
      case Some((e, rest)) => Some((fraction, e, rest))
  }

  function ReadFraction(s: string): (r: Option<(string, string)>)
    ensures r.Some? ==> AllDigits(r.value.0) && |r.value.1| <= |s|
  {
    if s != "" && s[0] == '.' then
      var (digits, rest) := TakeDigits(s[1..]);
      if digits == "" then None else Some((digits, rest))
    else Some(("", s))
  }

  function ReadExponent(s: string): (r: Option<(int, string)>)
    ensures r.Some? ==> |r.value.1| <= |s|
  {
    if s != "" && s[0] in {'e', 'E'} then
      if |s| > 1 && s[1] == '-' then ReadDigits(-1, s[2..])
      else if |s| > 1 && s[1] == '+' then ReadDigits(1, s[2..])
      else ReadDigits(1, s[1..])
    else Some((0, s))
  }

  function ReadDigits(sign: int, s: string): (r: Option<(int, string)>)
    ensures r.Some? ==> |r.value.1| <= |s|
  {
    var (digits, rest) := TakeDigits(s);
    if digits == "" then None else Some((sign * ValueOf(digits), rest))
  }

  /** A text after which a number cannot go on. */
  predicate Ends(rest: string) {
    rest == "" || (!IsDigit(rest[0]) && rest[0] !in {'.', 'e', 'E'})
  }

  lemma {:induction false} TakesDigits(s: string, rest: string)
    requires AllDigits(s) && (rest == "" || !IsDigit(rest[0]))
    ensures TakeDigits(s + rest) == (s, rest)
  {
    if s == "" {
      assert s + rest == rest;
    } else {
      assert (s + rest)[1..] == s[1..] + rest;
      assert (s + rest)[..1] + s[1..] == s;
      TakesDigits(s[1..], rest);
    }
  }

  lemma ReadsExponent(exponent: string, rest: string)
    requires AllDigits(exponent) && exponent != "" && Ends(rest)
    ensures ReadExponent("e-" + exponent + rest) == Some((-1 * ValueOf(exponent), rest))
  {
    var s := "e-" + exponent + rest;
    assert s[2..] == exponent + rest && s[0] == 'e' && s[1] == '-';
    TakesDigits(exponent, rest);
  }

  lemma ReadsFraction(fraction: string, tail: string)
    requires AllDigits(fraction) && fraction != "" && (tail == "" || !IsDigit(tail[0]))
    ensures ReadFraction("." + fraction + tail) == Some((fraction, tail))
  {
    var s := "." + fraction + tail;
    assert s[1..] == fraction + tail && s[0] == '.';
    TakesDigits(fraction, tail);
  }

  /** Digits before the point, then a fraction and an exponent. */
  lemma ReadsTail(negative: bool, s: string, digits: string, tail: string, fraction: string, e: int, rest: string)
    requires TakeDigits(s) == (digits, tail) && digits != "" && (|digits| > 1 ==> digits[0] != '0')
    requires ReadTail(tail) == Some((fraction, e, rest))
    requires AllDigits(digits + fraction)
    ensures ReadUnsigned(negative, s) == Some((FromDigits(negative, digits + fraction, e - |fraction|), rest))
  {
  }

  /** What a reader gets back from a canonical text: the same number, spelled out when it is an integer. */
  function Reread(d: Decimal): Decimal {
    if d.coefficient == 0 then Decimal(false, 0, 0)
    else if d.exponent >= 0 then Decimal(d.negative, d.coefficient * Pow10(d.exponent), 0)
    else d
  }

  lemma IntegerReads(d: Decimal, rest: string)
    requires Ends(rest) && d.coefficient > 0 && d.exponent >= 0
    ensures ReadUnsigned(d.negative, Unsigned(d) + rest) == Some((Reread(d), rest))
  {
    var digits := DigitsOf(d.coefficient) + Zeros(d.exponent);
    DigitsDenote(d.coefficient);
    AppendedZeros(DigitsOf(d.coefficient), d.exponent);
    assert digits + "" == digits;
    TakesDigits(digits, rest);
    ReadsTail(d.negative, digits + rest, digits, rest, "", 0, rest);
  }

  lemma PointTail(fraction: string, rest: string)
    requires AllDigits(fraction) && fraction != "" && Ends(rest)
    ensures ReadTail("." + fraction + rest) == Some((fraction, 0, rest))
  {
    ReadsFraction(fraction, rest);
  }

  lemma ScientificTail(fraction: string, exponent: string, rest: string)
    requires AllDigits(fraction) && AllDigits(exponent) && exponent != "" && Ends(rest)
    ensures ReadTail((if fraction == "" then "" else "." + fraction) + ("e-" + exponent + rest))
            == Some((fraction, -1 * ValueOf(exponent), rest))
  {
    var mid := "e-" + exponent + rest;
    assert mid[0] == 'e';
    ReadsExponent(exponent, rest);
    if fraction == "" {
      assert "" + mid == mid;
    } else {
      ReadsFraction(fraction, mid);
    }
  }

  lemma PointText(d: Decimal, rest: string)
    requires d.exponent < 0 < |DigitsOf(d.coefficient)| + d.exponent
    ensures var digits := DigitsOf(d.coefficient);
            var point := |digits| + d.exponent;
            Unsigned(d) + rest == digits[..point] + ("." + digits[point..] + rest)
  {
  }

  lemma PointReads(d: Decimal, rest: string)
    requires Ends(rest) && d.coefficient > 0 && d.exponent < 0 < |DigitsOf(d.coefficient)| + d.exponent
    ensures ReadUnsigned(d.negative, Unsigned(d) + rest) == Some((d, rest))
  {
    var digits := DigitsOf(d.coefficient);
    var point := |digits| + d.exponent;
    var lead, fraction := digits[..point], digits[point..];
    DigitsDenote(d.coefficient);
    assert lead + fraction == digits;
    PointTail(fraction, rest);
    var tail := "." + fraction + rest;
    TakesDigits(lead, tail);
    PointText(d, rest);
    ReadsTail(d.negative, lead + tail, lead, tail, fraction, 0, rest);
  }

  lemma ScientificText(d: Decimal, rest: string)
    requires |DigitsOf(d.coefficient)| + d.exponent <= 0
    ensures var digits := DigitsOf(d.coefficient);
            Unsigned(d) + rest
            == digits[..1] + ((if digits[1..] == "" then "" else "." + digits[1..])
                              + ("e-" + DigitsOf(1 - |digits| - d.exponent) + rest))
  {
    var digits := DigitsOf(d.coefficient);
    assert (|digits| > 1) == (digits[1..] != "");
  }

  lemma ScientificReads(d: Decimal, rest: string)
    requires Ends(rest) && d.coefficient > 0 && |DigitsOf(d.coefficient)| + d.exponent <= 0
    ensures ReadUnsigned(d.negative, Unsigned(d) + rest) == Some((d, rest))
  {
    var digits := DigitsOf(d.coefficient);
    var shift := 1 - |digits| - d.exponent;
    var lead, fraction := digits[..1], digits[1..];
    DigitsDenote(d.coefficient);
    DigitsDenote(shift);
    assert lead + fraction == digits;
    ScientificTail(fraction, DigitsOf(shift), rest);
    ScientificText(d, rest);
    var tail := (if fraction == "" then "" else "." + fraction) + ("e-" + DigitsOf(shift) + rest);
    TakesDigits(lead, tail);
    ReadsTail(d.negative, lead + tail, lead, tail, fraction, -1 * shift, rest);
  }

  lemma UnsignedReads(d: Decimal, rest: string)
    requires Ends(rest) && d.coefficient > 0
    ensures ReadUnsigned(d.negative, Unsigned(d) + rest) == Some((Reread(d), rest))
    ensures IsDigit(Unsigned(d)[0])
  {
    if d.exponent >= 0 {
      IntegerReads(d, rest);
    } else if |DigitsOf(d.coefficient)| + d.exponent > 0 {
      PointReads(d, rest);
    } else {
      ScientificReads(d, rest);
    }
  }

  lemma ZeroReads(rest: string)
    requires Ends(rest)
    ensures ReadNumber("0" + rest) == Some((Decimal(false, 0, 0), rest))
  {
    assert DigitsOf(0) == "0";
    DigitsDenote(0);
    assert "0" + "" == "0";
    TakesDigits("0", rest);
    ReadsTail(false, "0" + rest, "0", rest, "", 0, rest);
  }

  /** The canonical text is a number of RFC 8259 that denotes exactly the given decimal. */
  lemma CanonTextReads(d: Decimal, rest: string)
    requires Ends(rest)
    ensures ReadNumber(CanonText(d) + rest) == Some((Reread(d), rest))
  {
    if d.coefficient == 0 {
      ZeroReads(rest);
    } else {
      UnsignedReads(d, rest);
      var u := Unsigned(d) + rest;
      if d.negative {
        assert CanonText(d) + rest == "-" + u;
        assert ("-" + u)[1..] == u;
      } else {
        assert CanonText(d) + rest == u;
        assert u[0] == Unsigned(d)[0] != '-';
      }
    }
  }

  /** Which form a number takes: digits alone for an integer, an exponent exactly below one, a point otherwise. */
  lemma FormOfNumber(d: Decimal)
    ensures var c, text := Canon(d), CanonText(Canon(d));
            && ('e' in text <==> c.coefficient > 0 && c.exponent < 0 && c.coefficient < Pow10(-c.exponent))
            && ('.' !in text && 'e' !in text <==> c.coefficient == 0 || c.exponent >= 0)
            && (text[0] == '-' <==> d.negative && d.coefficient > 0)
  {
    var c := Canon(d);
    if d.coefficient > 0 {
      StripKeepsValue(d.coefficient, d.exponent);
      FormOfUnsigned(c);
      var u := Unsigned(c);
      assert CanonText(c) == (if c.negative then "-" else "") + u;
      UnsignedReads(c, "");
    }
  }

  lemma DigitsHaveNoLetters(s: string)
    requires AllDigits(s)
    ensures 'e' !in s && '.' !in s && '-' !in s
  {
  }

  lemma FormOfUnsigned(c: Decimal)
    requires c.coefficient > 0
    ensures 'e' in Unsigned(c) <==> c.exponent < 0 && c.coefficient < Pow10(-c.exponent)
    ensures '.' !in Unsigned(c) && 'e' !in Unsigned(c) <==> c.exponent >= 0
  {
    var digits := DigitsOf(c.coefficient);
    var point := |digits| + c.exponent;
    DigitCount(c.coefficient);
    DigitsHaveNoLetters(digits);
    if c.exponent >= 0 {
      DigitsHaveNoLetters(Zeros(c.exponent));
    } else if point > 0 {
      Pow10Grows(-c.exponent, |digits| - 1);
      assert Unsigned(c) == digits[..point] + "." + digits[point..];
      assert Unsigned(c)[point] == '.';
      assert forall i :: 0 <= i < |Unsigned(c)| && i != point ==> Unsigned(c)[i] in digits;
    } else {
      Pow10Grows(|digits|, -c.exponent);
      var head := digits[..1] + (if |digits| > 1 then "." + digits[1..] else "");
      assert Unsigned(c) == head + "e-" + DigitsOf(1 - point);
      assert Unsigned(c)[|head|] == 'e';
    }
  }

  lemma RereadIsSame(d: Decimal)
    ensures SameNumber(Reread(d), d) && Canon(Reread(d)) == Canon(d)
  {
    if d.coefficient > 0 && d.exponent >= 0 {
      StripShifts(d.coefficient, d.exponent, 0);
      StripKeepsValue(d.coefficient, d.exponent);
    }
    CanonDecides(Reread(d), d);
  }

  /** Two decimals print identically exactly when they denote the same number. */
  lemma PrintedIdentically(a: Decimal, b: Decimal)
    ensures CanonText(Canon(a)) == CanonText(Canon(b)) <==> SameNumber(a, b)
  {
    CanonDecides(a, b);
    if CanonText(Canon(a)) == CanonText(Canon(b)) {
      var s := CanonText(Canon(a));
      CanonTextReads(Canon(a), "");
      CanonTextReads(Canon(b), "");
      RereadIsSame(Canon(a));
      RereadIsSame(Canon(b));
      CanonIsStable(a);
      CanonIsStable(b);
    }
  }

  /** A printed number reads back as exactly the number it was, and nothing after it is touched. */
  lemma NumbersPrintExactly(d: Decimal, rest: string)
    requires InRange(d) && Ends(rest)
    ensures NumberText(d).Some?
    ensures var r := ReadNumber(NumberText(d).value + rest);
            r.Some? && r.value.1 == rest && SameNumber(r.value.0, d) && InRange(r.value.0)
  {
    CanonTextReads(Canon(d), rest);
    RereadIsSame(Canon(d));
    CanonIsStable(d);
    CanonDecides(Reread(Canon(d)), d);
    RangeIsOfTheNumber(Reread(Canon(d)), d);
  }

  /** Decimals that denote the same number print identically, or are refused together; others print differently. */
  lemma TextIsTheNumber(a: Decimal, b: Decimal)
    ensures SameNumber(a, b) ==> NumberText(a) == NumberText(b)
    ensures NumberText(a).Some? && NumberText(a) == NumberText(b) ==> SameNumber(a, b)
  {
    PrintedIdentically(a, b);
    if SameNumber(a, b) { RangeIsOfTheNumber(a, b); }
  }

  /** The branch that pads with zeros never writes more than 309 digits. */
  lemma PaddingIsBounded(d: Decimal)
    requires InRange(d) && d.coefficient > 0 && Canon(d).exponent >= 0
    ensures |NumberText(d).value| <= 309 + (if d.negative then 1 else 0)
  {
    RangeOfCanon(d);
    StripKeepsValue(d.coefficient, d.exponent);
    AtMost309Digits(Canon(d));
  }

  lemma LastDigit(c: nat)
    requires c > 0
    ensures var s := DigitsOf(c);
            (|s| > 1 && s[|s| - 1] == '0') <==> c % 10 == 0
    ensures c % 10 == 0 ==> DigitsOf(c)[..|DigitsOf(c)| - 1] == DigitsOf(c / 10)
  {
  }

  /** Pops trailing zeros off the digit list, moving them into the exponent. */
  method PopZeros(value: Decimal) returns (digits: string, exponent: int)
    requires value.coefficient > 0
    ensures Canon(value).coefficient > 0 && digits == DigitsOf(Canon(value).coefficient) && exponent == Canon(value).exponent
  {
    digits, exponent := DigitsOf(value.coefficient), value.exponent;
    ghost var c := value.coefficient;
    LastDigit(c);
    while |digits| > 1 && digits[|digits| - 1] == '0'
      invariant c > 0 && digits == DigitsOf(c)
      invariant |digits| > 1 && digits[|digits| - 1] == '0' <==> c % 10 == 0
      invariant Strip(c, exponent) == Strip(value.coefficient, value.exponent)
      decreases |digits|
    {
      digits, exponent := digits[..|digits| - 1], exponent + 1;
      c := c / 10;
      LastDigit(c);
    }
  }

  /** The printer as the program writes it. */
  method EncodeJsonNumber(value: Decimal) returns (r: Option<string>)
    ensures r == NumberText(value)
  {
    if !InRange(value) { return None; }
    if value.coefficient == 0 { return Some("0"); }
    var digits, exponent := PopZeros(value);
    var sign := if value.negative then "-" else "";
    if exponent >= 0 { return Some(sign + (digits + Zeros(exponent))); }
    var point := |digits| + exponent;
    if point > 0 { return Some(sign + (digits[..point] + "." + digits[point..])); }
    var mantissa := digits[..1];
    if |digits| > 1 {
      mantissa := mantissa + ("." + digits[1..]);
    } else {
      assert mantissa + "" == mantissa;
    }
    assert mantissa + "e-" + DigitsOf(1 - point) == Unsigned(Canon(value));
    return Some(sign + (mantissa + "e-" + DigitsOf(1 - point)));
  }
}
