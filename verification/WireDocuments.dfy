/** What the bytes say to a reader: the completion request that a worker gets, and the document that is digested. */
module WireDocuments {
  import opened Canonical
  import opened Decimals
  import opened DecoderLaws
  import opened DecoderOrders
  import opened DecoderSchemas
  import opened Digits
  import opened Encoding
  import opened Json
  import opened NumberTexts
  import opened Outcomes
  import opened SchemaPositions
  import opened Strings
  import opened WireIdentity

  // ---- Looking into what was read ----

  ghost predicate HasNames(v: Json, names: set<string>) {
    v.Obj? && forall n :: Has(v.fields, n) <==> n in names
  }

  predicate Holds(v: Json, name: string, w: Json) {
    v.Obj? && Has(v.fields, name) && Get(v.fields, name) == w
  }

  predicate HoldsNumber(v: Json, name: string, d: Decimal) {
    v.Obj? && Has(v.fields, name) && Get(v.fields, name).Number? && SameNumber(Get(v.fields, name).number, d)
  }

  function Whole(n: int): Decimal {
    Decimal(n < 0, if n < 0 then -n else n, 0)
  }

  /** The messages, in their order, each with its role and its content. */
  ghost predicate AreMessages(v: Json, ms: seq<Message>) {
    v.Arr? && |v.items| == |ms| && forall i :: 0 <= i < |ms| ==> IsMessage(v.items[i], ms[i])
  }

  ghost predicate IsMessage(v: Json, m: Message) {
    HasNames(v, {"role", "content"}) && Holds(v, "role", Str(m.role)) && Holds(v, "content", Str(m.content))
  }

  // ---- Reading a printed value ----

  lemma ReadIsPrinted(v: Json, sortKeys: bool)
    requires Wf(v)
    ensures Read(Text(v, sortKeys)) == Some(Printed(v, sortKeys))
  {
    var text := Text(v, sortKeys);
    TextReads(v, sortKeys);
    SkipNothing(text);
    assert text + "" == text && Ends("") && Skip("") == "";
  }

  lemma PrintedFields(v: Json, sortKeys: bool)
    requires Wf(v) && v.Obj?
    ensures var p := Printed(v, sortKeys);
            && p.Obj? && Names(p.fields) == Keys(v.fields, sortKeys) && Distinct(Names(p.fields))
            && (forall n :: Has(p.fields, n) <==> Has(v.fields, n))
            && forall n :: Has(v.fields, n) ==> Wf(Get(v.fields, n)) && Get(p.fields, n) == Printed(Get(v.fields, n), sortKeys)
  {
    var keys, p := Keys(v.fields, sortKeys), Printed(v, sortKeys);
    if sortKeys { SortAscending(Names(v.fields)); }
    assert Names(p.fields) == keys;
    FieldsAt(p.fields, keys);
    forall n | Has(v.fields, n) ensures Wf(Get(v.fields, n)) && Get(p.fields, n) == Printed(Get(v.fields, n), sortKeys) {
      GetIsWf(v.fields, n);
      var i := Find(p.fields, n);
      assert keys[i] == n && p.fields[i].value == Printed(GetKey(v.fields, keys, i), sortKeys);
    }
  }

  /** An object with given names, printed and read back: the same names, with their values printed. */
  lemma RecordReads(names: seq<string>, vs: seq<Json>, sortKeys: bool)
    requires |names| == |vs| && Distinct(names) && forall i :: 0 <= i < |vs| ==> Wf(vs[i])
    ensures var p := Printed(Record(names, vs), sortKeys);
            && p.Obj? && (forall n :: Has(p.fields, n) <==> n in names)
            && forall i :: 0 <= i < |names| ==> Holds(p, names[i], Printed(vs[i], sortKeys))
  {
    RecordNames(names, vs);
    PrintedFields(Record(names, vs), sortKeys);
  }

  /** One name of a printed object. */
  lemma RecordHolds(names: seq<string>, vs: seq<Json>, sortKeys: bool, i: nat, name: string, v: Json)
    requires |names| == |vs| && Distinct(names) && (forall i :: 0 <= i < |vs| ==> Wf(vs[i]))
    requires i < |names| && names[i] == name && vs[i] == v
    ensures Holds(Printed(Record(names, vs), sortKeys), name, Printed(v, sortKeys))
  {
    RecordReads(names, vs, sortKeys);
  }

  lemma IntegerPrints(n: int, sortKeys: bool)
    ensures Printed(Integer(n), sortKeys).Number? && SameNumber(Printed(Integer(n), sortKeys).number, Whole(n))
  {
    NumberIsSame(Numeral(Integer(n)));
  }

  lemma NumberPrints(d: Decimal, sortKeys: bool)
    ensures Printed(Number(d), sortKeys).Number? && SameNumber(Printed(Number(d), sortKeys).number, d)
  {
    NumberIsSame(d);
  }

  lemma MessageReads(m: Message, sortKeys: bool)
    ensures Wf(MessageJson(m)) && IsMessage(Printed(MessageJson(m), sortKeys), m)
  {
    LiteralNames();
    var vs := [Str(m.role), Str(m.content)];
    RecordNames(MESSAGE_NAMES, vs);
    RecordReads(MESSAGE_NAMES, vs, sortKeys);
    assert Holds(Printed(MessageJson(m), sortKeys), MESSAGE_NAMES[0], Str(m.role));
    assert Holds(Printed(MessageJson(m), sortKeys), MESSAGE_NAMES[1], Str(m.content));
  }

  lemma MessagesRead(ms: seq<Message>, sortKeys: bool)
    ensures Wf(MessagesJson(ms)) && AreMessages(Printed(MessagesJson(ms), sortKeys), ms)
  {
    MessagesAreWf(ms);
    forall i | 0 <= i < |ms| ensures IsMessage(Printed(MessagesJson(ms), sortKeys).items[i], ms[i]) {
      MessageReads(ms[i], sortKeys);
    }
  }

  // ---- The name of the format ----

  lemma {:induction false} ReplacedAt(s: string, from: char, to: char)
    ensures |Replaced(s, from, to)| == |s|
    ensures forall i :: 0 <= i < |s| ==> Replaced(s, from, to)[i] == if s[i] == from then to else s[i]
  {
    if s != "" { ReplacedAt(s[1..], from, to); }
  }

  /** The task id with an underscore for every dot, and the version in decimal digits. */
  ghost predicate NamesFormat(name: string, task: Task) {
    && |task.id| + 2 <= |name|
    && (forall i :: 0 <= i < |task.id| ==> name[i] == if task.id[i] == '.' then '_' else task.id[i])
    && name[|task.id|] == '_' && name[|task.id| + 1] == 'v'
    && (task.version >= 0 ==>
          var digits := name[|task.id| + 2..];
          AllDigits(digits) && ValueOf(digits) == task.version && (task.version > 0 ==> digits[0] != '0'))
  }

  lemma FormatIsNamed(task: Task)
    ensures NamesFormat(FormatName(task), task)
  {
    ReplacedAt(task.id, '.', '_');
    var base, text := Replaced(task.id, '.', '_'), CanonText(Canon(Numeral(Integer(task.version))));
    assert FormatName(task)[|task.id| + 2..] == text;
    if task.version >= 0 { VersionText(task.version); }
  }

  lemma VersionText(n: nat)
    ensures var text := CanonText(Canon(Numeral(Integer(n))));
            AllDigits(text) && ValueOf(text) == n && (n > 0 ==> text[0] != '0')
  {
    var d := Canon(Numeral(Integer(n)));
    if n > 0 {
      StripKeepsValue(n, 0);
      AppendedZeros(DigitsOf(d.coefficient), d.exponent);
      DigitsDenote(d.coefficient);
      assert CanonText(d) == DigitsOf(d.coefficient) + Zeros(d.exponent);
    } else {
      assert CanonText(d) == "0" && "0"[..0] == "";
    }
  }

  // ---- The completion request ----

  /** The format that the worker is to answer in, with the schema it is told. */
  ghost predicate IsFormat(v: Json, task: Task, schema: Json) {
    && HasNames(v, {"type", "json_schema"}) && Holds(v, "type", Str("json_schema"))
    && IsNamedSchema(Get(v.fields, "json_schema"), task, schema)
  }

  /** Everything that a worker is told, and nothing else. */
  ghost predicate AsksFor(v: Json, model: string, ttl: Option<int>, r: InferenceRequest, schema: Json) {
    && HasNames(v, AskedNames(r.seed, ttl))
    && Holds(v, "model", Str(model))
    && AreMessages(Get(v.fields, "messages"), r.messages)
    && HoldsNumber(v, "temperature", r.temperature)
    && HoldsNumber(v, "max_tokens", Whole(r.maxTokens))
    && Holds(v, "stream", Bool(false))
    && IsFormat(Get(v.fields, "response_format"), r.task, schema)
    && (r.seed.Some? ==> HoldsNumber(v, "seed", Whole(r.seed.value)))
    && (ttl.Some? ==> HoldsNumber(v, "ttl", Whole(ttl.value)))
  }

  function FormatNameSet(): set<string> {
    {"name", "strict", "schema"}
  }

  lemma NamedSchemaNames(names: seq<string>)
    requires |names| == 3 && names[0] == "name" && names[1] == "strict" && names[2] == "schema"
    ensures forall n :: n in names <==> n in FormatNameSet()
  {
    assert names == [names[0], names[1], names[2]];
  }

  lemma NamedSchemaReads(names: seq<string>, vs: seq<Json>, task: Task, text: string, schema: Json, sortKeys: bool)
    requires |names| == 3 && |vs| == 3 && Distinct(names) && forall i :: 0 <= i < |vs| ==> Wf(vs[i])
    requires names[0] == "name" && names[1] == "strict" && names[2] == "schema"
    requires vs[0] == Str(text) && vs[1] == Bool(true) && vs[2] == schema && NamesFormat(text, task)
    ensures Wf(Record(names, vs)) && IsNamedSchema(Printed(Record(names, vs), sortKeys), task, Printed(schema, sortKeys))
  {
    RecordNames(names, vs);
    RecordReads(names, vs, sortKeys);
    NamedSchemaNames(names);
    RecordHolds(names, vs, sortKeys, 0, "name", Str(text));
    RecordHolds(names, vs, sortKeys, 1, "strict", Bool(true));
    RecordHolds(names, vs, sortKeys, 2, "schema", schema);
  }

  lemma FormatReads(task: Task, schema: Json, sortKeys: bool)
    requires Wf(schema)
    ensures Wf(FormatJson(task, schema)) && IsFormat(Printed(FormatJson(task, schema), sortKeys), task, Printed(schema, sortKeys))
  {
    PayloadNames(None, None);
    FormatIsNamed(task);
    var inner := [Str(FormatName(task)), Bool(true), schema];
    NamedSchemaReads(SCHEMA_NAMES, inner, task, FormatName(task), schema, sortKeys);
    OuterReads(task, Record(SCHEMA_NAMES, inner), sortKeys, Printed(schema, sortKeys));
  }

  ghost predicate IsNamedSchema(inner: Json, task: Task, schema: Json) {
    && HasNames(inner, FormatNameSet())
    && Get(inner.fields, "name").Str? && NamesFormat(Get(inner.fields, "name").text, task)
    && Holds(inner, "strict", Bool(true)) && Holds(inner, "schema", schema)
  }

  lemma OuterReads(task: Task, inner: Json, sortKeys: bool, schema: Json)
    requires Wf(inner) && IsNamedSchema(Printed(inner, sortKeys), task, schema)
    ensures var v := Record(FORMAT_NAMES, [Str("json_schema"), inner]);
            Wf(v) && IsFormat(Printed(v, sortKeys), task, schema)
  {
    PayloadNames(None, None);
    var outer := [Str("json_schema"), inner];
    RecordNames(FORMAT_NAMES, outer);
    RecordReads(FORMAT_NAMES, outer, sortKeys);
    RecordHolds(FORMAT_NAMES, outer, sortKeys, 0, "type", Str("json_schema"));
    RecordHolds(FORMAT_NAMES, outer, sortKeys, 1, "json_schema", inner);
  }

  lemma FixedAreWf(model: string, r: InferenceRequest, schema: Json)
    requires Wf(schema)
    ensures forall i :: 0 <= i < |FixedValues(model, r, schema)| ==> Wf(FixedValues(model, r, schema)[i])
  {
    MessagesAreWf(r.messages);
    FormatReads(r.task, schema, true);
    SixAreWf(Str(model), MessagesJson(r.messages), Number(r.temperature), Integer(r.maxTokens), Bool(false), FormatJson(r.task, schema));
  }

  lemma SixAreWf(a: Json, b: Json, c: Json, d: Json, e: Json, f: Json)
    requires Wf(a) && Wf(b) && Wf(c) && Wf(d) && Wf(e) && Wf(f)
    ensures forall i :: 0 <= i < |[a, b, c, d, e, f]| ==> Wf([a, b, c, d, e, f][i])
  {
  }

  lemma PayloadNamesAre(seed: Option<int>, ttl: Option<int>, n: string)
    ensures n in PAYLOAD_NAMES + OptionalNames(seed, ttl) <==> n in AskedNames(seed, ttl)
  {
  }

  function AskedNames(seed: Option<int>, ttl: Option<int>): set<string> {
    {"model", "messages", "temperature", "max_tokens", "stream", "response_format"}
    + (if seed.Some? then {"seed"} else {}) + (if ttl.Some? then {"ttl"} else {})
  }

  /** The names and values that every payload has, in their places. */
  predicate HasFixedPart(names: seq<string>, vs: seq<Json>, model: string, r: InferenceRequest, messages: Json, format: Json) {
    && |names| == |vs| && |names| >= 6
    && names[0] == "model" && vs[0] == Str(model) && names[1] == "messages" && vs[1] == messages
    && names[2] == "temperature" && vs[2] == Number(r.temperature) && names[3] == "max_tokens" && vs[3] == Integer(r.maxTokens)
    && names[4] == "stream" && vs[4] == Bool(false) && names[5] == "response_format" && vs[5] == format
  }

  /** What follows the fixed part when it is given. */
  predicate HasOptionalPart(names: seq<string>, vs: seq<Json>, seed: Option<int>, ttl: Option<int>) {
    && |names| == |vs|
    && (seed.Some? ==> |names| > 6 && names[6] == "seed" && vs[6] == Integer(seed.value))
    && (ttl.Some? ==> |names| > 6 && names[|names| - 1] == "ttl" && vs[|names| - 1] == Integer(ttl.value))
  }

  /** A payload as a plain list of names and values. */
  ghost predicate IsPayload(names: seq<string>, vs: seq<Json>, model: string, ttl: Option<int>, r: InferenceRequest, messages: Json, format: Json) {
    && Distinct(names) && (forall n :: n in names <==> n in AskedNames(r.seed, ttl))
    && (forall i :: 0 <= i < |vs| ==> Wf(vs[i]))
    && HasFixedPart(names, vs, model, r, messages, format) && HasOptionalPart(names, vs, r.seed, ttl)
  }

  lemma FixedPartIs(model: string, r: InferenceRequest, schema: Json, names: seq<string>, vs: seq<Json>)
    requires |names| == |vs|
    ensures HasFixedPart(PAYLOAD_NAMES + names, FixedValues(model, r, schema) + vs, model, r, MessagesJson(r.messages), FormatJson(r.task, schema))
  {
  }

  lemma OptionalPartIs(names: seq<string>, vs: seq<Json>, seed: Option<int>, ttl: Option<int>)
    requires |names| == |vs| == 6
    ensures HasOptionalPart(names + OptionalNames(seed, ttl), vs + OptionalValues(seed, ttl), seed, ttl)
  {
  }

  lemma PayloadIs(model: string, ttl: Option<int>, r: InferenceRequest, schema: Json)
    requires Wf(schema)
    ensures IsPayload(PAYLOAD_NAMES + OptionalNames(r.seed, ttl), FixedValues(model, r, schema) + OptionalValues(r.seed, ttl),
                      model, ttl, r, MessagesJson(r.messages), FormatJson(r.task, schema))
  {
    var names, fixed, more := PAYLOAD_NAMES + OptionalNames(r.seed, ttl), FixedValues(model, r, schema), OptionalValues(r.seed, ttl);
    PayloadNames(r.seed, ttl);
    forall n ensures n in names <==> n in AskedNames(r.seed, ttl) { PayloadNamesAre(r.seed, ttl, n); }
    FixedAreWf(model, r, schema);
    AllAreWf(fixed, more);
    FixedPartIs(model, r, schema, OptionalNames(r.seed, ttl), more);
    OptionalPartIs(PAYLOAD_NAMES, fixed, r.seed, ttl);
  }

  lemma AllAreWf(vs: seq<Json>, more: seq<Json>)
    requires (forall i :: 0 <= i < |vs| ==> Wf(vs[i])) && forall i :: 0 <= i < |more| ==> more[i].Integer?
    ensures forall i :: 0 <= i < |vs + more| ==> Wf((vs + more)[i])
  {
  }

  lemma PayloadHolds(names: seq<string>, vs: seq<Json>, model: string, ttl: Option<int>, r: InferenceRequest, messages: Json,
                     format: Json, sortKeys: bool)
    requires IsPayload(names, vs, model, ttl, r, messages, format)
    ensures var p := Printed(Record(names, vs), sortKeys);
            && HasNames(p, AskedNames(r.seed, ttl)) && Holds(p, "model", Str(model))
            && Holds(p, "messages", Printed(messages, sortKeys))
            && Holds(p, "temperature", Printed(Number(r.temperature), sortKeys))
            && Holds(p, "max_tokens", Printed(Integer(r.maxTokens), sortKeys))
            && Holds(p, "stream", Bool(false)) && Holds(p, "response_format", Printed(format, sortKeys))
            && (r.seed.Some? ==> Holds(p, "seed", Printed(Integer(r.seed.value), sortKeys)))
            && (ttl.Some? ==> Holds(p, "ttl", Printed(Integer(ttl.value), sortKeys)))
  {
    RecordReads(names, vs, sortKeys);
    RecordHolds(names, vs, sortKeys, 0, "model", Str(model));
    RecordHolds(names, vs, sortKeys, 1, "messages", messages);
    RecordHolds(names, vs, sortKeys, 2, "temperature", Number(r.temperature));
    RecordHolds(names, vs, sortKeys, 3, "max_tokens", Integer(r.maxTokens));
    RecordHolds(names, vs, sortKeys, 4, "stream", Bool(false));
    RecordHolds(names, vs, sortKeys, 5, "response_format", format);
    if r.seed.Some? { RecordHolds(names, vs, sortKeys, 6, "seed", Integer(r.seed.value)); }
    if ttl.Some? { RecordHolds(names, vs, sortKeys, |names| - 1, "ttl", Integer(ttl.value)); }
  }

  lemma HeldAsksFor(p: Json, model: string, ttl: Option<int>, r: InferenceRequest, schema: Json, messages: Json, format: Json,
                    temperature: Json, maxTokens: Json)
    requires HasNames(p, AskedNames(r.seed, ttl)) && Holds(p, "model", Str(model)) && Holds(p, "stream", Bool(false))
    requires Holds(p, "messages", messages) && AreMessages(messages, r.messages)
    requires Holds(p, "temperature", temperature) && temperature.Number? && SameNumber(temperature.number, r.temperature)
    requires Holds(p, "max_tokens", maxTokens) && maxTokens.Number? && SameNumber(maxTokens.number, Whole(r.maxTokens))
    requires Holds(p, "response_format", format) && IsFormat(format, r.task, schema)
    requires r.seed.Some? ==> HoldsNumber(p, "seed", Whole(r.seed.value))
    requires ttl.Some? ==> HoldsNumber(p, "ttl", Whole(ttl.value))
    ensures AsksFor(p, model, ttl, r, schema)
  {
  }

  lemma PayloadAsks(model: string, ttl: Option<int>, r: InferenceRequest, schema: Json, sortKeys: bool)
    requires Wf(schema)
    ensures var v := Record(PAYLOAD_NAMES + OptionalNames(r.seed, ttl), FixedValues(model, r, schema) + OptionalValues(r.seed, ttl));
            Wf(v) && AsksFor(Printed(v, sortKeys), model, ttl, r, Printed(schema, sortKeys))
  {
    var names, vs := PAYLOAD_NAMES + OptionalNames(r.seed, ttl), FixedValues(model, r, schema) + OptionalValues(r.seed, ttl);
    PayloadIs(model, ttl, r, schema);
    RecordNames(names, vs);
    ListedAsks(names, vs, model, ttl, r, schema, sortKeys);
  }

  lemma ListedAsks(names: seq<string>, vs: seq<Json>, model: string, ttl: Option<int>, r: InferenceRequest, schema: Json, sortKeys: bool)
    requires Wf(schema) && IsPayload(names, vs, model, ttl, r, MessagesJson(r.messages), FormatJson(r.task, schema))
    ensures AsksFor(Printed(Record(names, vs), sortKeys), model, ttl, r, Printed(schema, sortKeys))
  {
    var messages, format := MessagesJson(r.messages), FormatJson(r.task, schema);
    PayloadHolds(names, vs, model, ttl, r, messages, format, sortKeys);
    MessagesRead(r.messages, sortKeys);
    NumberPrints(r.temperature, sortKeys);
    IntegerPrints(r.maxTokens, sortKeys);
    FormatReads(r.task, schema, sortKeys);
    if r.seed.Some? { IntegerPrints(r.seed.value, sortKeys); }
    if ttl.Some? { IntegerPrints(ttl.value, sortKeys); }
    HeldAsksFor(Printed(Record(names, vs), sortKeys), model, ttl, r, Printed(schema, sortKeys), Printed(messages, sortKeys),
                Printed(format, sortKeys), Printed(Number(r.temperature), sortKeys), Printed(Integer(r.maxTokens), sortKeys));
  }

  // ---- The order in which it is written ----

  /** Printing without sorting keeps a schema arranged. */
  lemma {:induction false} PrintedIsArranged(v: Json)
    requires Wf(v) && Arranged(v)
    ensures Arranged(Printed(v, false))
    decreases v, 1
  {
    if v.Obj? {
      PrintedNames(v);
      forall i | 0 <= i < |v.fields| ensures ArrangedKeyword(Printed(v, false), i) { PrintedKeyword(v, i); }
    }
  }

  lemma {:induction false} PrintedKeyword(v: Json, i: nat)
    requires Wf(v) && v.Obj? && i < |v.fields| && ArrangedKeyword(v, i)
    ensures i < |Printed(v, false).fields| && ArrangedKeyword(Printed(v, false), i)
    decreases v, 0
  {
    var name, w := v.fields[i].name, v.fields[i].value;
    PrintedField(v.fields, i);
    if name == "properties" || name == "$defs" {
      if w.Obj? {
        PrintedNames(w);
        if name == "properties" { PrintedOrder(v, Names(w.fields)); }
        forall j | 0 <= j < |w.fields| ensures Arranged(Printed(w, false).fields[j].value) {
          PrintedField(w.fields, j);
          PrintedIsArranged(w.fields[j].value);
        }
      }
    } else if name == "items" {
      PrintedIsArranged(w);
    } else if name == "anyOf" {
      if w.Arr? {
        forall j | 0 <= j < |w.items| ensures Arranged(Printed(w, false).items[j]) { PrintedIsArranged(w.items[j]); }
      }
    } else {
      PrintedIsSorted(w);
    }
  }

  lemma PrintedField(fs: seq<Field>, i: nat)
    requires Wf(Obj(fs)) && i < |fs|
    ensures i < |Printed(Obj(fs), false).fields| && Printed(Obj(fs), false).fields[i] == Field(fs[i].name, Printed(fs[i].value, false))
  {
    GetAt(fs, i);
  }

  lemma PrintedNames(v: Json)
    requires v.Obj?
    ensures Printed(v, false).Obj? && Names(Printed(v, false).fields) == Names(v.fields)
  {
  }

  /** The two lists have the same strings at the same places. */
  predicate SameTexts(a: seq<Json>, b: seq<Json>) {
    |a| == |b| && forall k :: 0 <= k < |a| ==> (a[k].Str? <==> b[k].Str?) && (a[k].Str? ==> a[k] == b[k])
  }

  lemma SameTextsSameOrder(a: seq<Json>, b: seq<Json>, names: seq<string>)
    requires SameTexts(a, b) && InListedOrder(a, names)
    ensures InListedOrder(b, names)
  {
    forall s: string ensures Str(s) in a <==> Str(s) in b {
      if Str(s) in a { var k :| 0 <= k < |a| && a[k] == Str(s); assert b[k] == Str(s); }
      if Str(s) in b { var k :| 0 <= k < |b| && b[k] == Str(s); assert a[k] == Str(s); }
    }
    forall i, j | 0 <= i < j < |names|
      ensures ListedBefore(b, names[i], names[j]) || (Str(names[i]) !in b && Str(names[j]) !in b && Before(names[i], names[j]))
    {
      if ListedBefore(a, names[i], names[j]) {
        var k :| 0 <= k < |a| && a[k] == Str(names[i]) && forall l :: 0 <= l <= k ==> a[l] != Str(names[j]);
        assert b[k] == Str(names[i]) && forall l :: 0 <= l <= k ==> b[l] != Str(names[j]);
      }
    }
  }

  lemma PrintedOrder(v: Json, names: seq<string>)
    requires Wf(v) && v.Obj? && InListedOrder(RequiredList(v.fields), names)
    ensures Printed(v, false).Obj? && InListedOrder(RequiredList(Printed(v, false).fields), names)
  {
    PrintedFields(v, false);
    var a, b := RequiredList(v.fields), RequiredList(Printed(v, false).fields);
    if Has(v.fields, "required") && Get(v.fields, "required").Arr? {
      forall k | 0 <= k < |a| ensures b[k] == Printed(a[k], false) {}
    }
    assert SameTexts(a, b);
    SameTextsSameOrder(a, b, names);
  }

  lemma {:induction false} PrintedIsSorted(v: Json)
    requires Wf(v) && DeepSorted(v)
    ensures DeepSorted(Printed(v, false))
    decreases v
  {
    match v
    case Arr(items) =>
      forall i | 0 <= i < |items| ensures DeepSorted(Printed(items[i], false)) { PrintedIsSorted(items[i]); }
    case Obj(fields) =>
      PrintedNames(v);
      forall i | 0 <= i < |fields| ensures DeepSorted(Printed(v, false).fields[i].value) {
        PrintedField(fields, i);
        PrintedIsSorted(fields[i].value);
      }
    case _ =>
  }

  /** Printing with sorted keys sorts throughout. */
  lemma {:induction false} SortedPrintIsSorted(v: Json)
    requires Wf(v)
    ensures DeepSorted(Printed(v, true))
    decreases v
  {
    match v
    case Arr(items) =>
      forall i | 0 <= i < |items| ensures DeepSorted(Printed(items[i], true)) { SortedPrintIsSorted(items[i]); }
    case Obj(fields) =>
      var keys := Keys(fields, true);
      SortAscending(Names(fields));
      assert Names(Printed(v, true).fields) == keys;
      forall i | 0 <= i < |keys| ensures DeepSorted(Printed(v, true).fields[i].value) {
        GetIsWf(fields, keys[i]);
        SortedPrintIsSorted(GetKey(fields, keys, i));
      }
    case _ =>
  }

  lemma EquivThrough(a: Json, b: Json, c: Json)
    requires Wf(a) && Wf(b) && Wf(c) && Equiv(a, b) && Equiv(b, c)
    ensures Equiv(a, c)
  {
    NormalDecides(a, b);
    NormalDecides(b, c);
    NormalDecides(a, c);
  }

  lemma DecoderSchemaIsWf(schema: Json, task: Task)
    requires Wf(schema) && Schematic(schema)
    ensures Wf(DecoderSchema(schema, task)) && Equiv(DecoderSchema(schema, task), schema)
    ensures UsesOrder(schema, task) ==> Arranged(DecoderSchema(schema, task))
  {
    NormalDecides(schema, schema);
    OrderedIsSchematic(schema);
    ProjectionIsArranged(schema);
  }

  lemma RecordInOrder(names: seq<string>, vs: seq<Json>)
    requires |names| == |vs| && Distinct(names) && forall i :: 0 <= i < |vs| ==> Wf(vs[i])
    ensures Printed(Record(names, vs), false).Obj? && Names(Printed(Record(names, vs), false).fields) == names
  {
    RecordNames(names, vs);
    PrintedFields(Record(names, vs), false);
  }

  function AskedInOrder(seed: Option<int>, ttl: Option<int>): seq<string> {
    ["model", "messages", "temperature", "max_tokens", "stream", "response_format"]
    + (if seed.Some? then ["seed"] else []) + (if ttl.Some? then ["ttl"] else [])
  }

  lemma PayloadInOrder(model: string, ttl: Option<int>, r: InferenceRequest, schema: Json)
    requires Wf(schema)
    ensures var v := Record(PAYLOAD_NAMES + OptionalNames(r.seed, ttl), FixedValues(model, r, schema) + OptionalValues(r.seed, ttl));
            Printed(v, false).Obj? && Names(Printed(v, false).fields) == AskedInOrder(r.seed, ttl)
  {
    PayloadIs(model, ttl, r, schema);
    RecordInOrder(PAYLOAD_NAMES + OptionalNames(r.seed, ttl), FixedValues(model, r, schema) + OptionalValues(r.seed, ttl));
    NamesInOrder(r.seed, ttl);
  }

  lemma NamesInOrder(seed: Option<int>, ttl: Option<int>)
    ensures PAYLOAD_NAMES + OptionalNames(seed, ttl) == AskedInOrder(seed, ttl)
  {
  }

  /** A worker reads off its bytes exactly what the request says: the model, every message with its role and content in
      order, the temperature, the token limit, no streaming, and the format with a schema that equals the request's up to
      field order and number spelling; a seed and an idle time exactly when given. Where decoder order applies the schema
      is arranged in it and the body keeps the order above; otherwise the whole body is sorted. */
  lemma WorkerReadsTheRequest(model: string, ttl: Option<int>, r: InferenceRequest)
    requires Wf(r.schema) && Schematic(r.schema) && WireBody(model, ttl, r).Some?
    ensures var d := Read(WireBody(model, ttl, r).value);
            && d.Some?
            && exists schema :: AsksFor(d.value, model, ttl, r, schema) && Equiv(schema, r.schema)
                 && if UsesOrder(r.schema, r.task) then Arranged(schema) && Names(d.value.fields) == AskedInOrder(r.seed, ttl)
                    else DeepSorted(d.value)
  {
    var told, sortKeys := DecoderSchema(r.schema, r.task), !UsesOrder(r.schema, r.task);
    DecoderSchemaIsWf(r.schema, r.task);
    PayloadAsks(model, ttl, r, told, sortKeys);
    var payload := Payload(model, ttl, r);
    ReadIsPrinted(payload, sortKeys);
    PrintedIsEquiv(told, sortKeys);
    EquivThrough(Printed(told, sortKeys), told, r.schema);
    PayloadInOrder(model, ttl, r, told);
    if sortKeys { SortedPrintIsSorted(payload); } else { PrintedIsArranged(told); }
    assert AsksFor(Printed(payload, sortKeys), model, ttl, r, Printed(told, sortKeys));
  }

  // ---- The digested document ----

  function GenerationNameSet(seeded: bool): set<string> {
    {"messages", "temperature", "response_schema"} + if seeded then {"seed"} else {}
  }

  ghost predicate IsGeneration(v: Json, r: InferenceRequest) {
    && HasNames(v, GenerationNameSet(r.seed.Some?))
    && AreMessages(Get(v.fields, "messages"), r.messages)
    && HoldsNumber(v, "temperature", r.temperature)
    && (r.seed.Some? ==> HoldsNumber(v, "seed", Whole(r.seed.value)))
    && Equiv(Get(v.fields, "response_schema"), r.schema)
  }

  ghost predicate IsRequirements(v: Json, maxTokens: int) {
    && HasNames(v, {"input_modalities", "output_media_type", "structured_output", "max_output_tokens"})
    && Holds(v, "input_modalities", Arr([Str("text")])) && Holds(v, "output_media_type", Str("application/json"))
    && Holds(v, "structured_output", Bool(true)) && HoldsNumber(v, "max_output_tokens", Whole(maxTokens))
  }

  ghost predicate IsTask(v: Json, task: Task) {
    HasNames(v, {"id", "version"}) && Holds(v, "id", Str(task.id)) && HoldsNumber(v, "version", Whole(task.version))
  }

  function DocumentNameSet(): set<string> {
    {"protocol_version", "request_id", "request_expires_at", "task", "requirements", "generation"}
  }

  /** Everything that is digested of a request. */
  ghost predicate Identifies(v: Json, r: InferenceRequest) {
    && HasNames(v, DocumentNameSet())
    && HoldsNumber(v, "protocol_version", Whole(1))
    && Holds(v, "request_id", Str(r.id)) && Holds(v, "request_expires_at", Str(r.expires))
    && IsTask(Get(v.fields, "task"), r.task)
    && IsRequirements(Get(v.fields, "requirements"), r.maxTokens)
    && IsGeneration(Get(v.fields, "generation"), r)
  }

  lemma TaskReads(task: Task)
    ensures Wf(TaskJson(task)) && IsTask(Printed(TaskJson(task), true), task)
  {
    LiteralNames();
    var vs := [Str(task.id), Integer(task.version)];
    RecordNames(TASK_NAMES, vs);
    RecordReads(TASK_NAMES, vs, true);
    IntegerPrints(task.version, true);
    RecordHolds(TASK_NAMES, vs, true, 0, "id", Str(task.id));
    RecordHolds(TASK_NAMES, vs, true, 1, "version", Integer(task.version));
  }

  lemma RequirementNames(names: seq<string>)
    requires |names| == 4 && names[0] == "input_modalities" && names[1] == "output_media_type"
    requires names[2] == "structured_output" && names[3] == "max_output_tokens"
    ensures forall n :: n in names <==> n in {"input_modalities", "output_media_type", "structured_output", "max_output_tokens"}
  {
    assert names == [names[0], names[1], names[2], names[3]];
  }

  lemma FourRead(names: seq<string>, vs: seq<Json>, text: Json, json: Json, maxTokens: int)
    requires |names| == 4 && |vs| == 4 && Distinct(names) && (forall i :: 0 <= i < |vs| ==> Wf(vs[i]))
    requires names[0] == "input_modalities" && names[1] == "output_media_type"
    requires names[2] == "structured_output" && names[3] == "max_output_tokens"
    requires vs[0] == text && vs[1] == json && vs[2] == Bool(true) && vs[3] == Integer(maxTokens)
    requires Printed(text, true) == Arr([Str("text")]) && json == Str("application/json")
    ensures IsRequirements(Printed(Record(names, vs), true), maxTokens)
  {
    RecordReads(names, vs, true);
    RequirementNames(names);
    RecordHolds(names, vs, true, 0, "input_modalities", text);
    RecordHolds(names, vs, true, 1, "output_media_type", json);
    RecordHolds(names, vs, true, 2, "structured_output", Bool(true));
    RecordHolds(names, vs, true, 3, "max_output_tokens", Integer(maxTokens));
    IntegerPrints(maxTokens, true);
  }

  lemma RequirementsRead(maxTokens: int)
    ensures Wf(RequirementsJson(maxTokens)) && IsRequirements(Printed(RequirementsJson(maxTokens), true), maxTokens)
  {
    LiteralNames();
    var text, json := Arr([Str("text")]), Str("application/json");
    var vs := [text, json, Bool(true), Integer(maxTokens)];
    RecordNames(REQUIREMENT_NAMES, vs);
    assert Printed(text, true).items == text.items;
    FourRead(REQUIREMENT_NAMES, vs, text, json, maxTokens);
  }

  lemma HeldIsGeneration(p: Json, r: InferenceRequest, messages: Json, temperature: Json, schema: Json)
    requires HasNames(p, GenerationNameSet(r.seed.Some?))
    requires Holds(p, "messages", messages) && AreMessages(messages, r.messages)
    requires Holds(p, "temperature", temperature) && temperature.Number? && SameNumber(temperature.number, r.temperature)
    requires Holds(p, "response_schema", schema) && Equiv(schema, r.schema)
    requires r.seed.Some? ==> HoldsNumber(p, "seed", Whole(r.seed.value))
    ensures IsGeneration(p, r)
  {
  }

  /** The generation as a plain list of names and values. */
  predicate IsGenerationList(names: seq<string>, vs: seq<Json>, r: InferenceRequest, messages: Json) {
    var last := if r.seed.Some? then 3 else 2;
    && |names| == |vs| == last + 1 && Distinct(names) && (forall i :: 0 <= i < |vs| ==> Wf(vs[i]))
    && names[0] == "messages" && vs[0] == messages && names[1] == "temperature" && vs[1] == Number(r.temperature)
    && (r.seed.Some? ==> names[2] == "seed" && vs[2] == Integer(r.seed.value))
    && names[last] == "response_schema" && vs[last] == r.schema
  }

  lemma GenerationListNames(names: seq<string>, vs: seq<Json>, r: InferenceRequest, messages: Json)
    requires IsGenerationList(names, vs, r, messages)
    ensures forall n :: n in names <==> n in GenerationNameSet(r.seed.Some?)
  {
    if r.seed.Some? {
      assert names == [names[0], names[1], names[2], names[3]];
    } else {
      assert names == [names[0], names[1], names[2]];
    }
  }

  lemma ListedGenerationReads(names: seq<string>, vs: seq<Json>, r: InferenceRequest, messages: Json)
    requires IsGenerationList(names, vs, r, messages) && AreMessages(Printed(messages, true), r.messages)
    ensures IsGeneration(Printed(Record(names, vs), true), r)
  {
    var last := if r.seed.Some? then 3 else 2;
    GenerationListNames(names, vs, r, messages);
    RecordReads(names, vs, true);
    RecordHolds(names, vs, true, 0, "messages", messages);
    RecordHolds(names, vs, true, 1, "temperature", Number(r.temperature));
    RecordHolds(names, vs, true, last, "response_schema", r.schema);
    if r.seed.Some? {
      RecordHolds(names, vs, true, 2, "seed", Integer(r.seed.value));
      IntegerPrints(r.seed.value, true);
    }
    NumberPrints(r.temperature, true);
    PrintedIsEquiv(r.schema, true);
    HeldIsGeneration(Printed(Record(names, vs), true), r, Printed(messages, true), Printed(Number(r.temperature), true), Printed(r.schema, true));
  }

  lemma GenerationReads(r: InferenceRequest)
    requires Wf(r.schema)
    ensures Wf(GenerationJson(r)) && IsGeneration(Printed(GenerationJson(r), true), r)
  {
    LiteralNames();
    var messages := MessagesJson(r.messages);
    MessagesRead(r.messages, true);
    GenerationIsWf(r);
    match r.seed
    case None => ListedGenerationReads(GENERATION_NAMES, [messages, Number(r.temperature), r.schema], r, messages);
    case Some(seed) => ListedGenerationReads(SEEDED_NAMES, [messages, Number(r.temperature), Integer(seed), r.schema], r, messages);
  }

  lemma HeldIdentifies(p: Json, r: InferenceRequest, version: Json, task: Json, requirements: Json, generation: Json)
    requires HasNames(p, DocumentNameSet())
    requires Holds(p, "protocol_version", version) && version.Number? && SameNumber(version.number, Whole(1))
    requires Holds(p, "request_id", Str(r.id)) && Holds(p, "request_expires_at", Str(r.expires))
    requires Holds(p, "task", task) && IsTask(task, r.task)
    requires Holds(p, "requirements", requirements) && IsRequirements(requirements, r.maxTokens)
    requires Holds(p, "generation", generation) && IsGeneration(generation, r)
    ensures Identifies(p, r)
  {
  }

  /** The document as a plain list of names and values. */
  predicate IsDocument(names: seq<string>, vs: seq<Json>, r: InferenceRequest, task: Json, requirements: Json, generation: Json) {
    && |names| == 6 && |vs| == 6 && Distinct(names) && (forall i :: 0 <= i < |vs| ==> Wf(vs[i]))
    && names[0] == "protocol_version" && vs[0] == Integer(1) && names[1] == "request_id" && vs[1] == Str(r.id)
    && names[2] == "request_expires_at" && vs[2] == Str(r.expires) && names[3] == "task" && vs[3] == task
    && names[4] == "requirements" && vs[4] == requirements && names[5] == "generation" && vs[5] == generation
  }

  lemma DocumentNames(names: seq<string>)
    requires |names| == 6 && names[0] == "protocol_version" && names[1] == "request_id" && names[2] == "request_expires_at"
    requires names[3] == "task" && names[4] == "requirements" && names[5] == "generation"
    ensures forall n :: n in names <==> n in DocumentNameSet()
  {
    assert names == [names[0], names[1], names[2], names[3], names[4], names[5]];
  }

  lemma DocumentHolds(r: InferenceRequest, names: seq<string>, vs: seq<Json>, task: Json, requirements: Json, generation: Json)
    requires IsDocument(names, vs, r, task, requirements, generation)
    ensures var p := Printed(Record(names, vs), true);
            && HasNames(p, DocumentNameSet()) && Holds(p, "protocol_version", Printed(Integer(1), true))
            && Holds(p, "request_id", Str(r.id)) && Holds(p, "request_expires_at", Str(r.expires))
            && Holds(p, "task", Printed(task, true)) && Holds(p, "requirements", Printed(requirements, true))
            && Holds(p, "generation", Printed(generation, true))
  {
    RecordReads(names, vs, true);
    DocumentNames(names);
    RecordHolds(names, vs, true, 0, "protocol_version", Integer(1));
    RecordHolds(names, vs, true, 1, "request_id", Str(r.id));
    RecordHolds(names, vs, true, 2, "request_expires_at", Str(r.expires));
    RecordHolds(names, vs, true, 3, "task", task);
    RecordHolds(names, vs, true, 4, "requirements", requirements);
    RecordHolds(names, vs, true, 5, "generation", generation);
  }

  lemma DocumentReads(r: InferenceRequest, names: seq<string>, vs: seq<Json>, task: Json, requirements: Json, generation: Json)
    requires IsDocument(names, vs, r, task, requirements, generation)
    requires IsTask(Printed(task, true), r.task) && IsRequirements(Printed(requirements, true), r.maxTokens)
    requires IsGeneration(Printed(generation, true), r)
    ensures Identifies(Printed(Record(names, vs), true), r)
  {
    DocumentHolds(r, names, vs, task, requirements, generation);
    IntegerPrints(1, true);
    HeldIdentifies(Printed(Record(names, vs), true), r, Printed(Integer(1), true), Printed(task, true), Printed(requirements, true),
                   Printed(generation, true));
  }

  lemma RequestIsDocument(r: InferenceRequest, task: Json, requirements: Json, generation: Json)
    requires Wf(task) && Wf(requirements) && Wf(generation)
    ensures IsDocument(REQUEST_NAMES, [Integer(1), Str(r.id), Str(r.expires), task, requirements, generation],
                       r, task, requirements, generation)
  {
    LiteralNames();
    SixAreWf(Integer(1), Str(r.id), Str(r.expires), task, requirements, generation);
  }

  /** The digest covers the protocol version, the id, the expiry, the task, the requirements and the whole generation,
      each under its own name, and nothing else. */
  lemma DigestCoversTheRequest(r: InferenceRequest)
    requires Wf(r.schema) && Encode(RequestJson(r), true).Some?
    ensures var d := Read(Encode(RequestJson(r), true).value);
            d.Some? && Identifies(d.value, r) && DeepSorted(d.value)
  {
    TaskReads(r.task);
    RequirementsRead(r.maxTokens);
    GenerationReads(r);
    RequestIsWf(r);
    RequestIsDocument(r, TaskJson(r.task), RequirementsJson(r.maxTokens), GenerationJson(r));
    DocumentReads(r, REQUEST_NAMES,
                  [Integer(1), Str(r.id), Str(r.expires), TaskJson(r.task), RequirementsJson(r.maxTokens), GenerationJson(r)],
                  TaskJson(r.task), RequirementsJson(r.maxTokens), GenerationJson(r));
    ReadIsPrinted(RequestJson(r), true);
    SortedPrintIsSorted(RequestJson(r));
  }
}
