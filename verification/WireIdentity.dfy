/** The digest of a request determines the bytes that the worker receives for it. */
module WireIdentity {
  import opened Canonical
  import opened Decimals
  import opened DecoderIdentity
  import opened DecoderLaws
  import opened DecoderSchemas
  import opened Encoding
  import opened EquivSchemas
  import opened Json
  import opened NumberTexts
  import opened Outcomes
  import opened SchemaPositions

  // ---- Objects with given names ----

  function Record(names: seq<string>, values: seq<Json>): Json
    requires |names| == |values|
  {
    Obj(seq(|names|, i requires 0 <= i < |names| => Field(names[i], values[i])))
  }

  lemma RecordNames(names: seq<string>, vs: seq<Json>)
    requires |names| == |vs| && Distinct(names)
    ensures Names(Record(names, vs).fields) == names
    ensures forall i :: 0 <= i < |names| ==>
              Has(Record(names, vs).fields, names[i]) && Get(Record(names, vs).fields, names[i]) == vs[i]
    ensures forall n :: Has(Record(names, vs).fields, n) <==> n in names
    ensures (forall i :: 0 <= i < |vs| ==> Wf(vs[i])) ==> Wf(Record(names, vs))
  {
    assert Names(Record(names, vs).fields) == names;
    FieldsAt(Record(names, vs).fields, names);
  }

  lemma RecordEquiv(names: seq<string>, vs: seq<Json>, ws: seq<Json>)
    requires |names| == |vs| == |ws| && Distinct(names)
    ensures Equiv(Record(names, vs), Record(names, ws)) <==> forall i :: 0 <= i < |vs| ==> Equiv(vs[i], ws[i])
  {
    var fs, gs := Record(names, vs).fields, Record(names, ws).fields;
    RecordNames(names, vs);
    RecordNames(names, ws);
    assert SameNames(fs, gs);
    if Equiv(Obj(fs), Obj(gs)) {
      forall i | 0 <= i < |vs| ensures Equiv(vs[i], ws[i]) {
        assert Equiv(Get(fs, names[i]), Get(gs, names[i]));
      }
    }
    if forall i :: 0 <= i < |vs| ==> Equiv(vs[i], ws[i]) {
      forall n | Has(fs, n) ensures Equiv(Get(fs, n), Get(gs, n)) {
        var i :| 0 <= i < |names| && names[i] == n;
        assert Equiv(vs[i], ws[i]);
      }
    }
  }

  lemma RecordRespell(names: seq<string>, vs: seq<Json>, ws: seq<Json>)
    requires |names| == |vs| == |ws| && forall i :: 0 <= i < |vs| ==> Respell(vs[i]) == Respell(ws[i])
    ensures Respell(Record(names, vs)) == Respell(Record(names, ws))
  {
    RespelledFields(Record(names, vs).fields, Record(names, ws).fields);
  }

  lemma IntegersAreEqual(a: int, b: int)
    ensures Equiv(Integer(a), Integer(b)) <==> a == b
  {
    assert Pow10(0) == 1;
  }

  // ---- The request and its canonical document ----

  datatype Message = Message(role: string, content: string)

  datatype InferenceRequest = InferenceRequest(
    id: string,
    expires: string,
    task: Task,
    maxTokens: int,
    messages: seq<Message>,
    temperature: Decimal,
    seed: Option<int>,
    schema: Json)

  const REQUEST_NAMES: seq<string> :=
    ["protocol_version", "request_id", "request_expires_at", "task", "requirements", "generation"]
  const TASK_NAMES: seq<string> := ["id", "version"]
  const REQUIREMENT_NAMES: seq<string> :=
    ["input_modalities", "output_media_type", "structured_output", "max_output_tokens"]
  const GENERATION_NAMES: seq<string> := ["messages", "temperature", "response_schema"]
  const SEEDED_NAMES: seq<string> := ["messages", "temperature", "seed", "response_schema"]
  const MESSAGE_NAMES: seq<string> := ["role", "content"]

  function TaskJson(task: Task): Json {
    Record(TASK_NAMES, [Str(task.id), Integer(task.version)])
  }

  function RequirementsJson(maxTokens: int): Json {
    Record(REQUIREMENT_NAMES, [Arr([Str("text")]), Str("application/json"), Bool(true), Integer(maxTokens)])
  }

  function MessageJson(m: Message): Json {
    Record(MESSAGE_NAMES, [Str(m.role), Str(m.content)])
  }

  function MessagesJson(ms: seq<Message>): Json {
    Arr(seq(|ms|, i requires 0 <= i < |ms| => MessageJson(ms[i])))
  }

  /** An absent seed is left out of the document. */
  function GenerationJson(r: InferenceRequest): Json {
    match r.seed
    case None => Record(GENERATION_NAMES, [MessagesJson(r.messages), Number(r.temperature), r.schema])
    case Some(seed) =>
      Record(SEEDED_NAMES, [MessagesJson(r.messages), Number(r.temperature), Integer(seed), r.schema])
  }

  /** The document whose canonical encoding is digested. */
  function RequestJson(r: InferenceRequest): Json {
    Record(REQUEST_NAMES,
      [Integer(1), Str(r.id), Str(r.expires), TaskJson(r.task), RequirementsJson(r.maxTokens), GenerationJson(r)])
  }

  lemma LiteralNames()
    ensures Distinct(REQUEST_NAMES) && Distinct(TASK_NAMES) && Distinct(REQUIREMENT_NAMES)
    ensures Distinct(GENERATION_NAMES) && Distinct(SEEDED_NAMES) && Distinct(MESSAGE_NAMES)
  {
  }

  lemma TasksAreEqual(s: Task, t: Task)
    ensures Equiv(TaskJson(s), TaskJson(t)) ==> s == t
  {
    LiteralNames();
    var vs, ws := [Str(s.id), Integer(s.version)], [Str(t.id), Integer(t.version)];
    RecordEquiv(TASK_NAMES, vs, ws);
    IntegersAreEqual(s.version, t.version);
    if Equiv(TaskJson(s), TaskJson(t)) { assert Equiv(vs[0], ws[0]) && Equiv(vs[1], ws[1]); }
  }

  lemma MessagesAreEqual(ms: seq<Message>, ns: seq<Message>)
    ensures Equiv(MessagesJson(ms), MessagesJson(ns)) ==> ms == ns
  {
    if Equiv(MessagesJson(ms), MessagesJson(ns)) {
      forall i | 0 <= i < |ms| ensures ms[i] == ns[i] {
        LiteralNames();
        assert Equiv(MessagesJson(ms).items[i], MessagesJson(ns).items[i]);
        var vs, ws := [Str(ms[i].role), Str(ms[i].content)], [Str(ns[i].role), Str(ns[i].content)];
        RecordEquiv(MESSAGE_NAMES, vs, ws);
        assert Equiv(vs[0], ws[0]) && Equiv(vs[1], ws[1]);
      }
    }
  }

  /** What equal generation documents have in common. */
  ghost predicate SameGeneration(r: InferenceRequest, s: InferenceRequest) {
    r.messages == s.messages && SameNumber(r.temperature, s.temperature) && r.seed == s.seed && Equiv(r.schema, s.schema)
  }

  lemma GenerationsAreEqual(r: InferenceRequest, s: InferenceRequest)
    requires Equiv(GenerationJson(r), GenerationJson(s))
    ensures SameGeneration(r, s)
  {
    LiteralNames();
    SameSeedPresence(r, s);
    MessagesAreEqual(r.messages, s.messages);
    match r.seed
    case None =>
      var vs, ws := [MessagesJson(r.messages), Number(r.temperature), r.schema],
                    [MessagesJson(s.messages), Number(s.temperature), s.schema];
      RecordEquiv(GENERATION_NAMES, vs, ws);
      assert Equiv(vs[0], ws[0]) && Equiv(vs[1], ws[1]) && Equiv(vs[2], ws[2]);
    case Some(a) =>
      var vs, ws := [MessagesJson(r.messages), Number(r.temperature), Integer(a), r.schema],
                    [MessagesJson(s.messages), Number(s.temperature), Integer(s.seed.value), s.schema];
      RecordEquiv(SEEDED_NAMES, vs, ws);
      assert Equiv(vs[0], ws[0]) && Equiv(vs[1], ws[1]) && Equiv(vs[2], ws[2]) && Equiv(vs[3], ws[3]);
      IntegersAreEqual(a, s.seed.value);
  }

  lemma SameSeedPresence(r: InferenceRequest, s: InferenceRequest)
    requires Equiv(GenerationJson(r), GenerationJson(s))
    ensures r.seed.None? <==> s.seed.None?
  {
    LiteralNames();
    HasSeed(r);
    HasSeed(s);
    assert Has(GenerationJson(r).fields, "seed") <==> Has(GenerationJson(s).fields, "seed");
  }

  lemma HasSeed(r: InferenceRequest)
    ensures GenerationJson(r).Obj?
    ensures Has(GenerationJson(r).fields, "seed") <==> r.seed.Some?
  {
    LiteralNames();
    match r.seed
    case None => RecordNames(GENERATION_NAMES, [MessagesJson(r.messages), Number(r.temperature), r.schema]);
    case Some(a) =>
      RecordNames(SEEDED_NAMES, [MessagesJson(r.messages), Number(r.temperature), Integer(a), r.schema]);
      assert SEEDED_NAMES[2] == "seed";
  }

  lemma RequirementsAreEqual(a: int, b: int)
    ensures Equiv(RequirementsJson(a), RequirementsJson(b)) ==> a == b
  {
    LiteralNames();
    var vs := [Arr([Str("text")]), Str("application/json"), Bool(true), Integer(a)];
    var ws := [Arr([Str("text")]), Str("application/json"), Bool(true), Integer(b)];
    RecordEquiv(REQUIREMENT_NAMES, vs, ws);
    IntegersAreEqual(a, b);
    if Equiv(RequirementsJson(a), RequirementsJson(b)) { assert Equiv(vs[3], ws[3]); }
  }

  /** Equal request documents agree on everything that is sent to a worker. */
  lemma RequestsAreEqual(r: InferenceRequest, s: InferenceRequest)
    requires Equiv(RequestJson(r), RequestJson(s))
    ensures r.task == s.task && r.maxTokens == s.maxTokens && SameGeneration(r, s)
  {
    LiteralNames();
    var vs :=
      [Integer(1), Str(r.id), Str(r.expires), TaskJson(r.task), RequirementsJson(r.maxTokens), GenerationJson(r)];
    var ws :=
      [Integer(1), Str(s.id), Str(s.expires), TaskJson(s.task), RequirementsJson(s.maxTokens), GenerationJson(s)];
    RecordEquiv(REQUEST_NAMES, vs, ws);
    assert Equiv(vs[3], ws[3]) && Equiv(vs[4], ws[4]) && Equiv(vs[5], ws[5]);
    TasksAreEqual(r.task, s.task);
    RequirementsAreEqual(r.maxTokens, s.maxTokens);
    GenerationsAreEqual(r, s);
  }

  lemma RequestIsWf(r: InferenceRequest)
    requires Wf(r.schema)
    ensures Wf(RequestJson(r))
  {
    LiteralNames();
    RecordNames(TASK_NAMES, [Str(r.task.id), Integer(r.task.version)]);
    RecordNames(REQUIREMENT_NAMES, [Arr([Str("text")]), Str("application/json"), Bool(true), Integer(r.maxTokens)]);
    MessagesAreWf(r.messages);
    GenerationIsWf(r);
    RecordNames(REQUEST_NAMES,
      [Integer(1), Str(r.id), Str(r.expires), TaskJson(r.task), RequirementsJson(r.maxTokens), GenerationJson(r)]);
  }

  lemma GenerationIsWf(r: InferenceRequest)
    requires Wf(r.schema)
    ensures Wf(GenerationJson(r))
  {
    LiteralNames();
    MessagesAreWf(r.messages);
    match r.seed
    case None => RecordNames(GENERATION_NAMES, [MessagesJson(r.messages), Number(r.temperature), r.schema]);
    case Some(a) =>
      RecordNames(SEEDED_NAMES, [MessagesJson(r.messages), Number(r.temperature), Integer(a), r.schema]);
  }

  lemma MessagesAreWf(ms: seq<Message>)
    ensures Wf(MessagesJson(ms))
  {
    forall i | 0 <= i < |ms| ensures Wf(MessageJson(ms[i])) {
      LiteralNames();
      RecordNames(MESSAGE_NAMES, [Str(ms[i].role), Str(ms[i].content)]);
    }
  }

  // ---- The request to the worker ----

  const FORMAT_NAMES: seq<string> := ["type", "json_schema"]
  const SCHEMA_NAMES: seq<string> := ["name", "strict", "schema"]
  const PAYLOAD_NAMES: seq<string> :=
    ["model", "messages", "temperature", "max_tokens", "stream", "response_format"]

  function Replaced(s: string, from: char, to: char): string {
    if s == "" then "" else [if s[0] == from then to else s[0]] + Replaced(s[1..], from, to)
  }

  /** The name of the format: the task id with underscores for dots, and the version. */
  function FormatName(task: Task): string {
    Replaced(task.id, '.', '_') + "_v" + CanonText(Canon(Numeral(Integer(task.version))))
  }

  function FormatJson(task: Task, schema: Json): Json {
    Record(FORMAT_NAMES,
      [Str("json_schema"), Record(SCHEMA_NAMES, [Str(FormatName(task)), Bool(true), schema])])
  }

  /** The names and values after the fixed part: a seed if there is one, an idle time if the worker has one. */
  function OptionalNames(seed: Option<int>, ttl: Option<int>): seq<string> {
    (if seed.Some? then ["seed"] else []) + (if ttl.Some? then ["ttl"] else [])
  }

  function OptionalValues(seed: Option<int>, ttl: Option<int>): (vs: seq<Json>)
    ensures |vs| == |OptionalNames(seed, ttl)|
  {
    (if seed.Some? then [Integer(seed.value)] else []) + (if ttl.Some? then [Integer(ttl.value)] else [])
  }

  function FixedValues(model: string, r: InferenceRequest, schema: Json): (vs: seq<Json>)
    ensures |vs| == |PAYLOAD_NAMES|
  {
    [Str(model), MessagesJson(r.messages), Number(r.temperature), Integer(r.maxTokens), Bool(false),
     FormatJson(r.task, schema)]
  }

  /** The completion request; the schema in it is the projected one where the projection applies. */
  function Payload(model: string, ttl: Option<int>, r: InferenceRequest): Json
    requires Schematic(r.schema)
  {
    Record(PAYLOAD_NAMES + OptionalNames(r.seed, ttl),
      FixedValues(model, r, DecoderSchema(r.schema, r.task)) + OptionalValues(r.seed, ttl))
  }

  /** The body that is sent: in decoder order where that applies, sorted as a whole otherwise. */
  function WireBody(model: string, ttl: Option<int>, r: InferenceRequest): Option<string>
    requires Schematic(r.schema)
  {
    Encode(Payload(model, ttl, r), !UsesOrder(r.schema, r.task))
  }

  lemma PayloadNames(seed: Option<int>, ttl: Option<int>)
    ensures Distinct(PAYLOAD_NAMES + OptionalNames(seed, ttl))
    ensures Distinct(FORMAT_NAMES) && Distinct(SCHEMA_NAMES)
  {
    assert PAYLOAD_NAMES + [] == PAYLOAD_NAMES;
    var seeded, idle, both := PAYLOAD_NAMES + ["seed"], PAYLOAD_NAMES + ["ttl"], PAYLOAD_NAMES + ["seed", "ttl"];
    assert Distinct(seeded) && Distinct(idle) && Distinct(both);
    assert (["seed"] + ["ttl"]) == ["seed", "ttl"];
  }

  /** Equal schemas are sent alike. */
  lemma SchemasAgree(u: Json, v: Json, task: Task)
    requires Wf(u) && Wf(v) && Schematic(u) && Schematic(v) && Equiv(u, v)
    ensures UsesOrder(u, task) <==> UsesOrder(v, task)
    ensures Wf(DecoderSchema(u, task)) && Wf(DecoderSchema(v, task))
    ensures Equiv(DecoderSchema(u, task), DecoderSchema(v, task))
    ensures UsesOrder(u, task) ==> Respell(DecoderSchema(u, task)) == Respell(DecoderSchema(v, task))
  {
    UsesOrderKept(u, v, task);
    OrderedIsSchematic(u);
    OrderedIsSchematic(v);
    NormalDecides(u, v);
    NormalDecides(OrderedNode(u), u);
    NormalDecides(OrderedNode(v), v);
    NormalDecides(OrderedNode(u), OrderedNode(v));
    NodeDetermined(u, v);
  }

  /** What is sent for two requests, value by value. */
  ghost predicate Alike(v: Json, w: Json, ordered: bool) {
    Wf(v) && Wf(w) && Equiv(v, w) && (ordered ==> Respell(v) == Respell(w))
  }

  lemma RecordsAlike(names: seq<string>, vs: seq<Json>, ws: seq<Json>, ordered: bool)
    requires |names| == |vs| == |ws| && Distinct(names)
    requires forall i :: 0 <= i < |vs| ==> Alike(vs[i], ws[i], ordered)
    ensures Alike(Record(names, vs), Record(names, ws), ordered)
  {
    RecordNames(names, vs);
    RecordNames(names, ws);
    RecordEquiv(names, vs, ws);
    if ordered { RecordRespell(names, vs, ws); }
  }

  lemma ScalarsAlike(v: Json, ordered: bool)
    requires v.Str? || v.Bool? || v.Integer?
    ensures Alike(v, v, ordered)
  {
    if v.Integer? { IntegersAreEqual(v.value, v.value); }
  }

  lemma NumbersAlike(a: Decimal, b: Decimal, ordered: bool)
    requires SameNumber(a, b)
    ensures Alike(Number(a), Number(b), ordered)
  {
    CanonDecides(a, b);
  }

  lemma FormatsAlike(task: Task, u: Json, v: Json, ordered: bool)
    requires Alike(u, v, ordered)
    ensures Alike(FormatJson(task, u), FormatJson(task, v), ordered)
  {
    PayloadNames(None, None);
    var name := Str(FormatName(task));
    ScalarsAlike(name, ordered);
    ScalarsAlike(Bool(true), ordered);
    ScalarsAlike(Str("json_schema"), ordered);
    RecordsAlike(SCHEMA_NAMES, [name, Bool(true), u], [name, Bool(true), v], ordered);
    var a, b := Record(SCHEMA_NAMES, [name, Bool(true), u]), Record(SCHEMA_NAMES, [name, Bool(true), v]);
    RecordsAlike(FORMAT_NAMES, [Str("json_schema"), a], [Str("json_schema"), b], ordered);
  }

  lemma MessagesAlike(ms: seq<Message>, ordered: bool)
    ensures Alike(MessagesJson(ms), MessagesJson(ms), ordered)
  {
    MessagesAreWf(ms);
    NormalDecides(MessagesJson(ms), MessagesJson(ms));
  }

  lemma FixedAlike(model: string, r: InferenceRequest, s: InferenceRequest, u: Json, v: Json, ordered: bool)
    requires r.task == s.task && r.maxTokens == s.maxTokens && SameGeneration(r, s)
    requires Alike(u, v, ordered)
    ensures forall i :: 0 <= i < |PAYLOAD_NAMES| ==>
              Alike(FixedValues(model, r, u)[i], FixedValues(model, s, v)[i], ordered)
  {
    MessagesAlike(r.messages, ordered);
    NumbersAlike(r.temperature, s.temperature, ordered);
    ScalarsAlike(Str(model), ordered);
    ScalarsAlike(Integer(r.maxTokens), ordered);
    ScalarsAlike(Bool(false), ordered);
    FormatsAlike(r.task, u, v, ordered);
    SixAlike(FixedValues(model, r, u), FixedValues(model, s, v), ordered);
  }

  lemma SixAlike(vs: seq<Json>, ws: seq<Json>, ordered: bool)
    requires |vs| == |ws| == 6
    requires Alike(vs[0], ws[0], ordered) && Alike(vs[1], ws[1], ordered) && Alike(vs[2], ws[2], ordered)
    requires Alike(vs[3], ws[3], ordered) && Alike(vs[4], ws[4], ordered) && Alike(vs[5], ws[5], ordered)
    ensures forall i :: 0 <= i < 6 ==> Alike(vs[i], ws[i], ordered)
  {
  }

  lemma PayloadsAlike(model: string, ttl: Option<int>, r: InferenceRequest, s: InferenceRequest)
    requires Wf(r.schema) && Wf(s.schema) && Schematic(r.schema) && Schematic(s.schema)
    requires r.task == s.task && r.maxTokens == s.maxTokens && SameGeneration(r, s)
    ensures Alike(Payload(model, ttl, r), Payload(model, ttl, s), UsesOrder(r.schema, r.task))
  {
    var ordered := UsesOrder(r.schema, r.task);
    var u, v := DecoderSchema(r.schema, r.task), DecoderSchema(s.schema, s.task);
    SchemasAgree(r.schema, s.schema, r.task);
    FixedAlike(model, r, s, u, v, ordered);
    PayloadNames(r.seed, ttl);
    ValuesAlike(FixedValues(model, r, u), FixedValues(model, s, v), OptionalValues(r.seed, ttl), ordered);
    RecordsAlike(PAYLOAD_NAMES + OptionalNames(r.seed, ttl), FixedValues(model, r, u) + OptionalValues(r.seed, ttl),
                 FixedValues(model, s, v) + OptionalValues(r.seed, ttl), ordered);
  }

  lemma ValuesAlike(vs: seq<Json>, ws: seq<Json>, more: seq<Json>, ordered: bool)
    requires |vs| == |ws| && forall i :: 0 <= i < |vs| ==> Alike(vs[i], ws[i], ordered)
    requires forall i :: 0 <= i < |more| ==> more[i].Integer?
    ensures forall i :: 0 <= i < |vs + more| ==> Alike((vs + more)[i], (ws + more)[i], ordered)
  {
    forall i | 0 <= i < |vs + more| ensures Alike((vs + more)[i], (ws + more)[i], ordered) {
      if i >= |vs| { ScalarsAlike(more[i - |vs|], ordered); }
    }
  }

  /** Two requests with the same digest are sent to a worker as the same bytes, whatever the order in which their
      objects were written and however their numbers were spelled. */
  lemma DigestDeterminesWire(model: string, ttl: Option<int>, r: InferenceRequest, s: InferenceRequest)
    requires Wf(r.schema) && Wf(s.schema) && Schematic(r.schema) && Schematic(s.schema)
    requires Encode(RequestJson(r), true).Some? && Encode(RequestJson(r), true) == Encode(RequestJson(s), true)
    ensures WireBody(model, ttl, r) == WireBody(model, ttl, s)
  {
    RequestIsWf(r);
    RequestIsWf(s);
    SameEncodingIsEquality(RequestJson(r), RequestJson(s));
    RequestsAreEqual(r, s);
    PayloadsAlike(model, ttl, r, s);
    UsesOrderKept(r.schema, s.schema, r.task);
    AlikeText(Payload(model, ttl, r), Payload(model, ttl, s), UsesOrder(r.schema, r.task));
  }

  lemma AlikeText(v: Json, w: Json, ordered: bool)
    requires Alike(v, w, ordered)
    ensures Encode(v, !ordered) == Encode(w, !ordered)
  {
    EquivPrintable(v, w);
    if ordered { RespelledText(v, w); } else { EquivText(v, w); }
  }
}
