/** What the canonical encoding guarantees: it reads back, and it is the identity of a value. */
module Canonical {
  import opened Decimals
  import opened Digits
  import opened Encoding
  import opened Json
  import opened NumberTexts
  import opened Outcomes
  import opened StringTexts

  /** The value read back has the same fields and numbers. */
  lemma {:induction false} PrintedIsEquiv(v: Json, sortKeys: bool)
    requires Wf(v)
    ensures Wf(Printed(v, sortKeys)) && Equiv(Printed(v, sortKeys), v)
    decreases v
  {
    match v
    case Integer(_) => NumberIsSame(Numeral(v));
    case Number(n) => NumberIsSame(n);
    case Arr(items) =>
      forall i | 0 <= i < |items| ensures Wf(Printed(items[i], sortKeys)) && Equiv(Printed(items[i], sortKeys), items[i]) {
        PrintedIsEquiv(items[i], sortKeys);
      }
    case Obj(fields) =>
      var keys := Keys(fields, sortKeys);
      if sortKeys { SortAscending(Names(fields)); }
      forall i | 0 <= i < |keys|
        ensures Wf(Printed(GetKey(fields, keys, i), sortKeys))
        ensures Equiv(Printed(GetKey(fields, keys, i), sortKeys), GetKey(fields, keys, i))
      {
        GetIsWf(fields, keys[i]);
        PrintedIsEquiv(GetKey(fields, keys, i), sortKeys);
      }
      var fs := Printed(v, sortKeys).fields;
      assert Names(fs) == keys;
      forall n | Has(fs, n) ensures Equiv(Get(fs, n), Get(fields, n)) {
        var i := Find(fs, n);
        assert keys[i] == n && Get(fs, n) == Printed(GetKey(fields, keys, i), sortKeys);
      }
      assert SameNames(fs, fields);
    case _ =>
  }

  lemma NumberIsSame(n: Decimal)
    ensures SameNumber(Reread(Canon(n)), n)
  {
    RereadIsSame(Canon(n));
    CanonIsStable(n);
    CanonDecides(Reread(Canon(n)), n);
  }

  /** Reading an encoding gives the value back up to object order and the spelling of numbers. */
  lemma EncodingReadsBack(v: Json, sortKeys: bool)
    requires Wf(v)
    ensures Encode(v, sortKeys).Some? <==> Printable(v)
    ensures Printable(v) ==>
              var r := Read(Encode(v, sortKeys).value);
              r.Some? && Wf(r.value) && Equiv(r.value, v)
  {
    var text := Text(v, sortKeys);
    TextReads(v, sortKeys);
    PrintedIsEquiv(v, sortKeys);
    SkipNothing(text);
    assert text + "" == text && Ends("");
    assert Skip("") == "";
  }

  /** Equal values have the same canonical text. */
  lemma {:induction false} EquivText(v: Json, w: Json)
    requires Wf(v) && Wf(w) && Equiv(v, w)
    ensures Text(v, true) == Text(w, true)
    decreases v
  {
    if Numeric(v) && Numeric(w) {
      CanonDecides(Numeral(v), Numeral(w));
    } else if v.Arr? {
      forall i | 0 <= i < |v.items| ensures Text(v.items[i], true) == Text(w.items[i], true) {
        EquivText(v.items[i], w.items[i]);
      }
      assert seq(|v.items|, i requires 0 <= i < |v.items| => Text(v.items[i], true))
          == seq(|w.items|, i requires 0 <= i < |w.items| => Text(w.items[i], true));
    } else if v.Obj? {
      var fs, gs := v.fields, w.fields;
      SameKeys(fs, gs);
      var keys := Keys(fs, true);
      forall i | 0 <= i < |keys| ensures Text(GetKey(fs, keys, i), true) == Text(GetKey(gs, keys, i), true) {
        assert keys[i] in keys && Has(fs, keys[i]);
        GetIsWf(fs, keys[i]);
        GetIsWf(gs, keys[i]);
        EquivText(GetKey(fs, keys, i), GetKey(gs, keys, i));
      }
      assert seq(|keys|, i requires 0 <= i < |keys| => Member(keys[i], Text(GetKey(fs, keys, i), true)))
          == seq(|keys|, i requires 0 <= i < |keys| => Member(keys[i], Text(GetKey(gs, keys, i), true)));
    }
  }

  lemma {:induction false} EquivPrintable(v: Json, w: Json)
    requires Wf(v) && Wf(w) && Equiv(v, w)
    ensures Printable(v) <==> Printable(w)
    decreases v
  {
    if Numeric(v) && Numeric(w) {
      RangeIsOfTheNumber(Numeral(v), Numeral(w));
    } else if v.Arr? {
      forall i | 0 <= i < |v.items| ensures Printable(v.items[i]) <==> Printable(w.items[i]) {
        EquivPrintable(v.items[i], w.items[i]);
      }
    } else if v.Obj? {
      var fs, gs := v.fields, w.fields;
      forall n | Has(fs, n) ensures Printable(Get(fs, n)) <==> Printable(Get(gs, n)) {
        GetIsWf(fs, n);
        GetIsWf(gs, n);
        EquivPrintable(Get(fs, n), Get(gs, n));
      }
      PrintableFields(fs);
      PrintableFields(gs);
    }
  }

  lemma PrintableFields(fs: seq<Field>)
    requires Distinct(Names(fs))
    ensures Printable(Obj(fs)) <==> forall n :: Has(fs, n) ==> Printable(Get(fs, n))
  {
    forall i | 0 <= i < |fs| ensures Has(fs, fs[i].name) && Get(fs, fs[i].name) == fs[i].value { GetAt(fs, i); }
  }

  lemma SameTextReads(v: Json, w: Json, sortKeys: bool)
    requires Wf(v) && Wf(w) && Text(v, sortKeys) == Text(w, sortKeys)
    ensures Printed(v, sortKeys) == Printed(w, sortKeys)
  {
    TextReads(v, sortKeys);
    TextReads(w, sortKeys);
    assert ReadValue(Text(v, sortKeys) + "") == Some((Printed(v, sortKeys), ""));
    assert ReadValue(Text(w, sortKeys) + "") == Some((Printed(w, sortKeys), ""));
  }

  /** The canonical encoding is the identity of a value: two values have the same one exactly when they are
      equal up to object order and the spelling of numbers. */
  lemma SameEncodingIsEquality(v: Json, w: Json)
    requires Wf(v) && Wf(w) && Printable(v)
    ensures Encode(v, true) == Encode(w, true) <==> Equiv(v, w)
  {
    if Equiv(v, w) {
      EquivText(v, w);
      EquivPrintable(v, w);
    }
    if Encode(v, true) == Encode(w, true) {
      SameTextReads(v, w, true);
      PrintedIsEquiv(v, true);
      PrintedIsEquiv(w, true);
      NormalDecides(Printed(v, true), v);
      NormalDecides(Printed(w, true), w);
      NormalDecides(v, w);
    }
  }

  // ---- No white space ----

  predicate Blankless(s: string) {
    forall i :: 0 <= i < |s| ==> s[i] != ' ' && s[i] != '\t' && s[i] != '\n' && s[i] != '\r'
  }

  /** No string and no name in the value holds a blank. */
  predicate WithoutBlanks(v: Json) {
    match v
    case Str(s) => ' ' !in s
    case Arr(items) => forall i :: 0 <= i < |items| ==> WithoutBlanks(items[i])
    case Obj(fields) => forall i :: 0 <= i < |fields| ==> ' ' !in fields[i].name && WithoutBlanks(fields[i].value)
    case _ => true
  }

  lemma {:induction false} EscapesAreBlankless(s: string)
    requires ' ' !in s
    ensures Blankless(Escapes(s))
  {
    if s != "" {
      EscapesAreBlankless(s[1..]);
      EscapeIsBlankless(s[0]);
      assert s[0] in s;
    }
  }

  lemma EscapeIsBlankless(c: char)
    requires c != ' '
    ensures Blankless(EscapeChar(c))
  {
  }

  lemma QuoteIsBlankless(s: string)
    requires ' ' !in s
    ensures Blankless(Quote(s))
  {
    EscapesAreBlankless(s);
  }

  lemma {:induction false} JoinIsBlankless(parts: seq<string>)
    requires forall i :: 0 <= i < |parts| ==> Blankless(parts[i])
    ensures Blankless(Join(parts))
  {
    if |parts| > 1 { JoinIsBlankless(parts[1..]); }
  }

  lemma NumberIsBlankless(d: Decimal)
    ensures Blankless(CanonText(d))
  {
    if d.coefficient > 0 { UnsignedIsBlankless(d); }
  }

  lemma PartsAreBlankless(a: string, b: string, c: string)
    requires Blankless(a) && Blankless(b) && Blankless(c)
    ensures Blankless(a + b) && Blankless(a + b + c)
  {
  }

  lemma UnsignedIsBlankless(d: Decimal)
    requires d.coefficient > 0
    ensures Blankless(Unsigned(d))
  {
    var digits := DigitsOf(d.coefficient);
    var point := |digits| + d.exponent;
    DigitsAreBlankless(digits);
    if d.exponent >= 0 {
      DigitsAreBlankless(Zeros(d.exponent));
      PartsAreBlankless(digits, Zeros(d.exponent), "");
    } else if point > 0 {
      PartsAreBlankless(digits[..point], ".", digits[point..]);
    } else {
      var mantissa := digits[..1] + (if |digits| > 1 then "." + digits[1..] else "");
      PartsAreBlankless(digits[..1], if |digits| > 1 then "." + digits[1..] else "", "");
      DigitsAreBlankless(DigitsOf(1 - point));
      PartsAreBlankless(mantissa, "e-", DigitsOf(1 - point));
    }
  }

  lemma DigitsAreBlankless(s: string)
    requires AllDigits(s)
    ensures Blankless(s)
  {
  }

  lemma MemberIsBlankless(name: string, text: string)
    requires ' ' !in name && Blankless(text)
    ensures Blankless(Member(name, text))
  {
    QuoteIsBlankless(name);
  }

  /** The encoder writes no white space of its own: blanks in a text stand inside strings. */
  lemma {:induction false} TextIsCompact(v: Json, sortKeys: bool)
    requires Wf(v) && WithoutBlanks(v)
    ensures Blankless(Text(v, sortKeys))
    decreases v
  {
    match v
    case Integer(_) => NumberIsBlankless(Canon(Numeral(v)));
    case Number(n) => NumberIsBlankless(Canon(n));
    case Str(s) => QuoteIsBlankless(s);
    case Arr(items) =>
      var parts := seq(|items|, i requires 0 <= i < |items| => Text(items[i], sortKeys));
      forall i | 0 <= i < |items| ensures Blankless(parts[i]) { TextIsCompact(items[i], sortKeys); }
      JoinIsBlankless(parts);
    case Obj(fields) =>
      var keys := Keys(fields, sortKeys);
      var parts := seq(|keys|, i requires 0 <= i < |keys| => Member(keys[i], Text(GetKey(fields, keys, i), sortKeys)));
      forall i | 0 <= i < |keys| ensures Blankless(parts[i]) {
        assert keys[i] in keys;
        GetIsWf(fields, keys[i]);
        TextIsCompact(GetKey(fields, keys, i), sortKeys);
        MemberIsBlankless(keys[i], Text(GetKey(fields, keys, i), sortKeys));
      }
      JoinIsBlankless(parts);
    case _ =>
  }

  // ---- The order of fields in an encoding that does not sort ----

  /** The value with every number in canonical form and every field where it is. */
  function Respell(v: Json): Json {
    match v
    case Integer(_) => Number(Canon(Numeral(v)))
    case Number(n) => Number(Canon(n))
    case Arr(items) => Arr(seq(|items|, i requires 0 <= i < |items| => Respell(items[i])))
    case Obj(fields) =>
      Obj(seq(|fields|, i requires 0 <= i < |fields| => Field(fields[i].name, Respell(fields[i].value))))
    case _ => v
  }

  lemma {:induction false} PrintedInOrder(v: Json)
    requires Wf(v)
    ensures Respell(Printed(v, false)) == Respell(v)
    decreases v
  {
    match v
    case Integer(_) => NumberIsSame(Numeral(v)); CanonDecides(Reread(Canon(Numeral(v))), Numeral(v));
    case Number(n) => NumberIsSame(n); CanonDecides(Reread(Canon(n)), n);
    case Arr(items) =>
      forall i | 0 <= i < |items| ensures Respell(Printed(items[i], false)) == Respell(items[i]) {
        PrintedInOrder(items[i]);
      }
      assert Respell(Printed(v, false)).items == Respell(v).items;
    case Obj(fields) =>
      forall i | 0 <= i < |fields|
        ensures GetKey(fields, Names(fields), i) == fields[i].value
        ensures Respell(Printed(fields[i].value, false)) == Respell(fields[i].value)
      {
        GetAt(fields, i);
        PrintedInOrder(fields[i].value);
      }
      assert Respell(Printed(v, false)).fields == Respell(v).fields;
    case _ =>
  }

  lemma {:induction false} RespelledText(v: Json, w: Json)
    requires Wf(v) && Wf(w) && Respell(v) == Respell(w)
    ensures Text(v, false) == Text(w, false)
    decreases v
  {
    if v.Arr? {
      forall i | 0 <= i < |v.items| ensures Text(v.items[i], false) == Text(w.items[i], false) {
        assert Respell(v).items[i] == Respell(w).items[i];
        RespelledText(v.items[i], w.items[i]);
      }
      assert |Respell(v).items| == |v.items| && |Respell(w).items| == |w.items|;
      assert seq(|v.items|, i requires 0 <= i < |v.items| => Text(v.items[i], false))
          == seq(|w.items|, i requires 0 <= i < |w.items| => Text(w.items[i], false));
    } else if v.Obj? {
      RespelledObjectText(v, w);
    }
  }

  lemma {:induction false} RespelledObjectText(v: Json, w: Json)
    requires Wf(v) && Wf(w) && Respell(v) == Respell(w) && v.Obj?
    ensures Text(v, false) == Text(w, false)
    decreases v, 0
  {
    var fs, gs := v.fields, w.fields;
    assert |Respell(v).fields| == |fs| && |Respell(w).fields| == |gs|;
    forall i | 0 <= i < |fs|
      ensures fs[i].name == gs[i].name
      ensures GetKey(fs, Names(fs), i) == fs[i].value && GetKey(gs, Names(gs), i) == gs[i].value
      ensures Text(fs[i].value, false) == Text(gs[i].value, false)
    {
      assert Respell(v).fields[i] == Respell(w).fields[i];
      GetAt(fs, i);
      GetAt(gs, i);
      RespelledText(fs[i].value, gs[i].value);
    }
    assert Names(fs) == Names(gs);
    var keys := Names(fs);
    assert seq(|keys|, i requires 0 <= i < |keys| => Member(keys[i], Text(GetKey(fs, keys, i), false)))
        == seq(|keys|, i requires 0 <= i < |keys| => Member(keys[i], Text(GetKey(gs, keys, i), false)));
  }

  /** Without sorting, two values have the same text exactly when they differ in the spelling of numbers alone. */
  lemma SameTextKeepsOrder(v: Json, w: Json)
    requires Wf(v) && Wf(w)
    ensures Text(v, false) == Text(w, false) <==> Respell(v) == Respell(w)
  {
    if Respell(v) == Respell(w) { RespelledText(v, w); }
    if Text(v, false) == Text(w, false) {
      SameTextReads(v, w, false);
      PrintedInOrder(v);
      PrintedInOrder(w);
    }
  }

  /** Fills a dictionary pair by pair and raises on a name it already holds. */
  method ParseObjectPairs(pairs: seq<Field>) returns (r: Option<Json>)
    ensures r == ObjectOf(pairs)
  {
    var document: seq<Field> := [];
    var i := 0;
    while i < |pairs|
      invariant 0 <= i <= |pairs| && document == pairs[..i] && Distinct(Names(document))
    {
      if pairs[i].name in Names(document) {
        var j :| 0 <= j < i && Names(document)[j] == pairs[i].name;
        assert Names(pairs)[j] == Names(pairs)[i];
        return None;
      }
      assert Names(document + [pairs[i]]) == Names(document) + [pairs[i].name];
      document := document + [pairs[i]];
      i := i + 1;
    }
    assert document == pairs;
    return Some(Obj(document));
  }
}
