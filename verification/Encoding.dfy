/** The canonical encoding of JSON values and an independent reader of RFC 8259 texts. */
module Encoding {
  import opened Decimals
  import opened Digits
  import opened Json
  import opened NumberTexts
  import opened Outcomes
  import opened StringTexts

  // ---- The encoder ----

  function Join(parts: seq<string>): string {
    if parts == [] then "" else if |parts| == 1 then parts[0] else parts[0] + ("," + Join(parts[1..]))
  }

  /** The order in which the fields of an object are written. */
  function Keys(fs: seq<Field>, sortKeys: bool): (keys: seq<string>)
    ensures |keys| == |fs| && forall x :: x in keys <==> x in Names(fs)
  {
    if sortKeys then Sort(Names(fs)) else Names(fs)
  }

  function Member(name: string, text: string): string {
    Quote(name) + (":" + text)
  }

  /** The text of a printable value. */
  function Text(v: Json, sortKeys: bool): string
    decreases v
  {
    match v
    case Null => "null"
    case Bool(b) => if b then "true" else "false"
    case Integer(_) => CanonText(Canon(Numeral(v)))
    case Number(n) => CanonText(Canon(n))
    case Str(s) => Quote(s)
    case Arr(items) =>
      "[" + (Join(seq(|items|, i requires 0 <= i < |items| => Text(items[i], sortKeys))) + "]")
    case Obj(fields) =>
      var keys := Keys(fields, sortKeys);
      "{" + (Join(seq(|keys|, i requires 0 <= i < |keys| =>
        Member(keys[i], Text(GetKey(fields, keys, i), sortKeys)))) + "}")
  }

  /** The encoding; None where the program raises because some number has no finite binary64 magnitude. */
  function Encode(v: Json, sortKeys: bool): Option<string> {
    if Printable(v) then Some(Text(v, sortKeys)) else None
  }

  // ---- The reader ----

  predicate IsSpace(c: char) {
    c in {' ', '\t', '\n', '\r'}
  }

  function Skip(s: string): (r: string)
    ensures |r| <= |s|
  {
    if s != "" && IsSpace(s[0]) then Skip(s[1..]) else s
  }

  /** Consumes one given character. */
  function Expect(c: char, s: string): (r: Option<string>)
    ensures r.Some? ==> |r.value| < |s|
  {
    if s != "" && s[0] == c then Some(s[1..]) else None
  }

  /** The fields of an object, refused when a name comes twice. */
  function ObjectOf(fs: seq<Field>): Option<Json> {
    if Distinct(Names(fs)) then Some(Obj(fs)) else None
  }

  /** One value, with no white space before it. Every number is kept as its exact decimal. */
  function ReadValue(s: string): (r: Option<(Json, string)>)
    ensures r.Some? ==> |r.value.1| < |s|
    decreases |s|, 0
  {
    if s == "" then None
    else if s[0] == '\"' then
      (match ReadString(s[1..]) case None => None case Some((text, rest)) => Some((Str(text), rest)))
    else if s[0] == '[' then ReadArray(Skip(s[1..]))
    else if s[0] == '{' then ReadObject(Skip(s[1..]))
    else if s[0] == '-' || IsDigit(s[0]) then
      (match ReadNumber(s) case None => None case Some((n, rest)) => Some((Number(n), rest)))
    else ReadWord(s)
  }

  function ReadWord(s: string): (r: Option<(Json, string)>)
    ensures r.Some? ==> |r.value.1| < |s|
  {
    if "null" <= s then Some((Null, s[4..]))
    else if "true" <= s then Some((Bool(true), s[4..]))
    else if "false" <= s then Some((Bool(false), s[5..]))
    else None
  }

  function ReadArray(s: string): (r: Option<(Json, string)>)
    ensures r.Some? ==> |r.value.1| < |s|
    decreases |s|, 2
  {
    if s != "" && s[0] == ']' then Some((Arr([]), s[1..]))
    else
      match ReadItems(s)
      case None => None
      case Some((items, rest)) => Some((Arr(items), rest))
  }

  /** At least one value, separated by commas, up to the closing bracket. */
  function ReadItems(s: string): (r: Option<(seq<Json>, string)>)
    ensures r.Some? ==> |r.value.1| < |s|
    decreases |s|, 1
  {
    match ReadValue(s)
    case None => None
    case Some((v, after)) =>
      var t := Skip(after);
      match Expect(',', t)
      case None => (match Expect(']', t) case None => None case Some(rest) => Some(([v], rest)))
      case Some(more) =>
        match ReadItems(Skip(more))
        case None => None
        case Some((items, rest)) => Some(([v] + items, rest))
  }

  function ReadObject(s: string): (r: Option<(Json, string)>)
    ensures r.Some? ==> |r.value.1| < |s|
    decreases |s|, 3
  {
    if s != "" && s[0] == '}' then Some((Obj([]), s[1..]))
    else
      match ReadMembers(s)
      case None => None
      case Some((fields, rest)) =>
        match ObjectOf(fields)
        case None => None
        case Some(v) => Some((v, rest))
  }

  /** A name and its value. */
  function ReadMember(s: string): (r: Option<(Field, string)>)
    ensures r.Some? ==> |r.value.1| < |s|
    decreases |s|, 1
  {
    match Expect('\"', s)
    case None => None
    case Some(t) =>
      match ReadString(t)
      case None => None
      case Some((name, u)) =>
        match Expect(':', Skip(u))
        case None => None
        case Some(w) =>
          match ReadValue(Skip(w))
          case None => None
          case Some((v, rest)) => Some((Field(name, v), rest))
  }

  function ReadMembers(s: string): (r: Option<(seq<Field>, string)>)
    ensures r.Some? ==> |r.value.1| < |s|
    decreases |s|, 2
  {
    match ReadMember(s)
    case None => None
    case Some((f, after)) =>
      var t := Skip(after);
      match Expect(',', t)
      case None => (match Expect('}', t) case None => None case Some(rest) => Some(([f], rest)))
      case Some(more) =>
        match ReadMembers(Skip(more))
        case None => None
        case Some((fields, rest)) => Some(([f] + fields, rest))
  }

  /** A whole JSON text. */
  function Read(s: string): Option<Json> {
    match ReadValue(Skip(s))
    case None => None
    case Some((v, rest)) => if Skip(rest) == "" then Some(v) else None
  }

  // ---- The round trip ----

  /** The text reads as the value, whatever ends the value after it. */
  ghost predicate ReadsAs(text: string, v: Json) {
    && text != "" && !IsSpace(text[0]) && text[0] !in {']', '}'}
    && forall tail :: Ends(tail) ==> ReadValue(text + tail) == Some((v, tail))
  }

  lemma SkipNothing(s: string)
    requires s == "" || !IsSpace(s[0])
    ensures Skip(s) == s
  {
  }

  lemma {:induction false} JoinStart(parts: seq<string>, rest: string)
    requires |parts| > 0 && parts[0] != ""
    ensures (Join(parts) + rest) != "" && (Join(parts) + rest)[0] == parts[0][0]
  {
  }

  /** Reading one more item of a list. */
  lemma ItemThenMore(text: string, v: Json, tail: string)
    requires ReadsAs(text, v) && tail != "" && !IsSpace(tail[0])
    ensures ReadItems(text + ("," + tail))
            == (match ReadItems(tail) case None => None case Some((items, rest)) => Some(([v] + items, rest)))
  {
    assert ReadValue(text + ("," + tail)) == Some((v, "," + tail));
    SkipNothing("," + tail);
    SkipNothing(tail);
    assert ("," + tail)[1..] == tail;
  }

  lemma LastItem(text: string, v: Json, rest: string)
    requires ReadsAs(text, v)
    ensures ReadItems(text + ("]" + rest)) == Some(([v], rest))
  {
    assert ReadValue(text + ("]" + rest)) == Some((v, "]" + rest));
    SkipNothing("]" + rest);
    assert ("]" + rest)[1..] == rest;
  }

  lemma {:induction false} ItemsRead(parts: seq<string>, vs: seq<Json>, rest: string)
    requires |parts| == |vs| > 0 && forall i :: 0 <= i < |vs| ==> ReadsAs(parts[i], vs[i])
    ensures ReadItems(Join(parts) + ("]" + rest)) == Some((vs, rest))
    decreases |vs|
  {
    if |vs| == 1 {
      LastItem(parts[0], vs[0], rest);
      assert vs == [vs[0]];
    } else {
      var tail := Join(parts[1..]) + ("]" + rest);
      ItemsRead(parts[1..], vs[1..], rest);
      JoinStart(parts[1..], "]" + rest);
      ItemThenMore(parts[0], vs[0], tail);
      assert Join(parts) + ("]" + rest) == parts[0] + ("," + tail);
      assert vs == [vs[0]] + vs[1..];
    }
  }

  lemma Wrapped(open: string, inside: string, close: string, tail: string)
    requires |open| == 1
    ensures (open + (inside + close)) + tail == open + (inside + (close + tail))
    ensures ((open + (inside + close)) + tail)[0] == open[0]
    ensures ((open + (inside + close)) + tail)[1..] == inside + (close + tail)
  {
  }

  lemma NameReads(name: string, u: string)
    ensures Expect('\"', Quote(name) + u) == Some(Escapes(name) + ("\"" + u))
    ensures ReadString(Escapes(name) + ("\"" + u)) == Some((name, u))
  {
    StringReads(name, u);
    Wrapped("\"", Escapes(name), "\"", u);
  }

  lemma MemberReads(name: string, text: string, v: Json, tail: string)
    requires ReadsAs(text, v) && Ends(tail)
    ensures ReadMember(Member(name, text) + tail) == Some((Field(name, v), tail))
  {
    var t := text + tail;
    var u := ":" + t;
    assert Member(name, text) + tail == Quote(name) + u;
    NameReads(name, u);
    assert Expect(':', Skip(u)) == Some(t) by {
      SkipNothing(u);
      assert u[1..] == t;
    }
    assert ReadValue(Skip(t)) == Some((v, tail)) by {
      SkipNothing(t);
    }
    MemberParts(Quote(name) + u, Escapes(name) + ("\"" + u), name, u, t, v, tail);
  }

  /** A member is read part by part. */
  lemma MemberParts(s: string, t: string, name: string, u: string, w: string, v: Json, rest: string)
    requires Expect('\"', s) == Some(t) && ReadString(t) == Some((name, u))
    requires Expect(':', Skip(u)) == Some(w) && ReadValue(Skip(w)) == Some((v, rest))
    ensures ReadMember(s) == Some((Field(name, v), rest))
  {
  }

  lemma MemberThenMore(name: string, text: string, v: Json, tail: string)
    requires ReadsAs(text, v) && tail != "" && !IsSpace(tail[0])
    ensures ReadMembers(Member(name, text) + ("," + tail))
            == (match ReadMembers(tail) case None => None
                case Some((fields, rest)) => Some(([Field(name, v)] + fields, rest)))
  {
    MemberReads(name, text, v, "," + tail);
    SkipNothing("," + tail);
    SkipNothing(tail);
    assert ("," + tail)[1..] == tail;
  }

  lemma LastMember(name: string, text: string, v: Json, rest: string)
    requires ReadsAs(text, v)
    ensures ReadMembers(Member(name, text) + ("}" + rest)) == Some(([Field(name, v)], rest))
  {
    MemberReads(name, text, v, "}" + rest);
    SkipNothing("}" + rest);
    assert ("}" + rest)[1..] == rest;
  }

  /** The texts of some fields. */
  ghost predicate MembersOf(parts: seq<string>, texts: seq<string>, fs: seq<Field>) {
    && |parts| == |fs| && |texts| == |fs|
    && forall i :: 0 <= i < |fs| ==> parts[i] == Member(fs[i].name, texts[i]) && ReadsAs(texts[i], fs[i].value)
  }

  lemma {:induction false} MembersRead(parts: seq<string>, texts: seq<string>, fs: seq<Field>, rest: string)
    requires MembersOf(parts, texts, fs) && |fs| > 0
    ensures ReadMembers(Join(parts) + ("}" + rest)) == Some((fs, rest))
    decreases |fs|
  {
    if |fs| == 1 {
      LastMember(fs[0].name, texts[0], fs[0].value, rest);
      assert fs == [fs[0]];
    } else {
      MembersRead(parts[1..], texts[1..], fs[1..], rest);
      JoinStart(parts[1..], "}" + rest);
      JoinAssociates(parts, rest);
      FirstMember(parts[0], texts[0], fs, Join(parts[1..]) + ("}" + rest), rest);
    }
  }

  lemma FirstMember(part: string, text: string, fs: seq<Field>, tail: string, rest: string)
    requires |fs| > 1 && part == Member(fs[0].name, text) && ReadsAs(text, fs[0].value)
    requires tail != "" && !IsSpace(tail[0]) && ReadMembers(tail) == Some((fs[1..], rest))
    ensures ReadMembers(part + ("," + tail)) == Some((fs, rest))
  {
    MemberThenMore(fs[0].name, text, fs[0].value, tail);
    assert fs == [fs[0]] + fs[1..];
  }

  lemma JoinAssociates(parts: seq<string>, rest: string)
    requires |parts| > 1
    ensures Join(parts) + ("}" + rest) == parts[0] + ("," + (Join(parts[1..]) + ("}" + rest)))
  {
  }

  /** What a reader gets back: the fields in the written order, the numbers as they were spelled. */
  function Printed(v: Json, sortKeys: bool): Json
    decreases v
  {
    match v
    case Integer(_) => Number(Reread(Canon(Numeral(v))))
    case Number(n) => Number(Reread(Canon(n)))
    case Arr(items) => Arr(seq(|items|, i requires 0 <= i < |items| => Printed(items[i], sortKeys)))
    case Obj(fields) =>
      var keys := Keys(fields, sortKeys);
      Obj(seq(|keys|, i requires 0 <= i < |keys| => Field(keys[i], Printed(GetKey(fields, keys, i), sortKeys))))
    case _ => v
  }

  lemma NumberValue(s: string)
    requires s != "" && (s[0] == '-' || IsDigit(s[0]))
    ensures ReadValue(s)
            == (match ReadNumber(s) case None => None case Some((n, rest)) => Some((Number(n), rest)))
  {
  }

  lemma NumberReadsAs(n: Decimal)
    ensures ReadsAs(CanonText(Canon(n)), Number(Reread(Canon(n))))
  {
    var d := Canon(n);
    var s := CanonText(d);
    NumberStart(d);
    forall tail | Ends(tail) ensures ReadValue(s + tail) == Some((Number(Reread(d)), tail)) {
      CanonTextReads(d, tail);
      NumberValue(s + tail);
    }
  }

  lemma NumberStart(d: Decimal)
    ensures CanonText(d)[0] == '-' || IsDigit(CanonText(d)[0])
  {
    if d.coefficient > 0 && !d.negative { UnsignedReads(d, ""); assert CanonText(d) == "" + Unsigned(d); }
  }

  lemma WordReadsAs(v: Json)
    requires v.Null? || v.Bool?
    ensures ReadsAs(Text(v, true), v)
  {
    var word := Text(v, true);
    forall tail | Ends(tail) ensures ReadValue(word + tail) == Some((v, tail)) {
      assert (word + tail)[0] == word[0] && word <= word + tail;
      assert (word + tail)[|word|..] == tail;
      if word != "null" { assert (word + tail)[0] != 'n'; }
    }
  }

  lemma StringReadsAs(s: string)
    ensures ReadsAs(Quote(s), Str(s))
  {
    forall tail | Ends(tail) ensures ReadValue(Quote(s) + tail) == Some((Str(s), tail)) {
      NameReads(s, tail);
      assert (Quote(s) + tail)[0] == '\"';
    }
  }

  lemma ArrayInsideReads(parts: seq<string>, vs: seq<Json>, tail: string)
    requires |parts| == |vs| && forall i :: 0 <= i < |vs| ==> ReadsAs(parts[i], vs[i])
    ensures ReadArray(Skip(Join(parts) + ("]" + tail))) == Some((Arr(vs), tail))
  {
    var inside := Join(parts) + ("]" + tail);
    if vs == [] {
      assert inside == "]" + tail && inside[1..] == tail;
    } else {
      assert ReadsAs(parts[0], vs[0]);
      JoinStart(parts, "]" + tail);
      assert inside[0] == parts[0][0] && !IsSpace(inside[0]) && inside[0] != ']';
      ItemsRead(parts, vs, tail);
    }
    SkipNothing(inside);
  }

  lemma ArrayReadsAs(parts: seq<string>, vs: seq<Json>)
    requires |parts| == |vs| && forall i :: 0 <= i < |vs| ==> ReadsAs(parts[i], vs[i])
    ensures ReadsAs("[" + (Join(parts) + "]"), Arr(vs))
  {
    var text := "[" + (Join(parts) + "]");
    forall tail | Ends(tail) ensures ReadValue(text + tail) == Some((Arr(vs), tail)) {
      Wrapped("[", Join(parts), "]", tail);
      ArrayInsideReads(parts, vs, tail);
    }
  }

  lemma ObjectInsideReads(parts: seq<string>, texts: seq<string>, fs: seq<Field>, tail: string)
    requires MembersOf(parts, texts, fs) && Distinct(Names(fs))
    ensures ReadObject(Skip(Join(parts) + ("}" + tail))) == Some((Obj(fs), tail))
  {
    var inside := Join(parts) + ("}" + tail);
    if fs == [] {
      assert inside == "}" + tail && inside[1..] == tail;
    } else {
      JoinStart(parts, "}" + tail);
      MembersRead(parts, texts, fs, tail);
    }
    SkipNothing(inside);
  }

  lemma ObjectReadsAs(parts: seq<string>, texts: seq<string>, fs: seq<Field>)
    requires MembersOf(parts, texts, fs) && Distinct(Names(fs))
    ensures ReadsAs("{" + (Join(parts) + "}"), Obj(fs))
  {
    var text := "{" + (Join(parts) + "}");
    forall tail | Ends(tail) ensures ReadValue(text + tail) == Some((Obj(fs), tail)) {
      Wrapped("{", Join(parts), "}", tail);
      ObjectInsideReads(parts, texts, fs, tail);
    }
  }

  /** Every text the encoder writes reads back, in the order it was written. */
  lemma {:induction false} TextReads(v: Json, sortKeys: bool)
    requires Wf(v)
    ensures ReadsAs(Text(v, sortKeys), Printed(v, sortKeys))
    decreases v
  {
    match v
    case Null => WordReadsAs(v);
    case Bool(_) => WordReadsAs(v);
    case Integer(_) => NumberReadsAs(Numeral(v));
    case Number(n) => NumberReadsAs(n);
    case Str(s) => StringReadsAs(s);
    case Arr(items) =>
      var parts := seq(|items|, i requires 0 <= i < |items| => Text(items[i], sortKeys));
      var vs := seq(|items|, i requires 0 <= i < |items| => Printed(items[i], sortKeys));
      forall i | 0 <= i < |items| ensures ReadsAs(parts[i], vs[i]) { TextReads(items[i], sortKeys); }
      ArrayReadsAs(parts, vs);
    case Obj(fields) =>
      var keys := Keys(fields, sortKeys);
      var texts := seq(|keys|, i requires 0 <= i < |keys| => Text(GetKey(fields, keys, i), sortKeys));
      var parts := seq(|keys|, i requires 0 <= i < |keys| => Member(keys[i], Text(GetKey(fields, keys, i), sortKeys)));
      var fs := Printed(v, sortKeys).fields;
      forall i | 0 <= i < |keys| ensures parts[i] == Member(fs[i].name, texts[i]) && ReadsAs(texts[i], fs[i].value) {
        GetIsWf(fields, keys[i]);
        TextReads(GetKey(fields, keys, i), sortKeys);
      }
      if sortKeys { SortAscending(Names(fields)); }
      assert Names(fs) == keys;
      ObjectReadsAs(parts, texts, fs);
  }
}
