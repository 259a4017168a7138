/** The schema positions of a response schema, and the choice of decoder field order. */
module SchemaPositions {
  import opened Json
  import opened Schemas
  import opened Sums

  function DefinitionSchemas(schema: Json): (fs: seq<Field>)
    requires schema.Obj?
    ensures forall i :: 0 <= i < |fs| ==> fs[i].value < schema
  {
    var d := Keyword(schema, "$defs");
    if d.Obj? then d.fields else []
  }

  function ItemPosition(schema: Json): (vs: seq<Json>)
    requires schema.Obj?
    ensures |vs| <= 1 && forall i :: 0 <= i < |vs| ==> vs[i] < schema
  {
    if Has(schema.fields, "items") then [Get(schema.fields, "items")] else []
  }

  /** The schema positions that the decoder order looks at: properties, items and alternatives. */
  function Positions(schema: Json): (vs: seq<Json>)
    requires schema.Obj?
    ensures forall i :: 0 <= i < |vs| ==> vs[i] < schema
  {
    PropertySchemas(schema) + ItemPosition(schema) + Alternatives(schema)
  }

  predicate AllStrings(vs: seq<Json>) {
    forall i :: 0 <= i < |vs| ==> vs[i].Str?
  }

  /** The keywords that hold subschemas or property names have the types that JSON Schema gives them. */
  predicate KeywordTypesOk(schema: Json)
    requires schema.Obj?
  {
    && (Has(schema.fields, "properties") ==> Get(schema.fields, "properties").Obj?)
    && (Has(schema.fields, "$defs") ==> Get(schema.fields, "$defs").Obj?)
    && (Has(schema.fields, "anyOf") ==> Get(schema.fields, "anyOf").Arr?)
    && (Has(schema.fields, "required") ==>
          Get(schema.fields, "required").Arr? && AllStrings(Get(schema.fields, "required").items))
  }

  /** Every schema position holds an object with well-typed keywords. */
  predicate Schematic(schema: Json)
    decreases schema
  {
    && schema.Obj? && KeywordTypesOk(schema)
    && (forall i :: 0 <= i < |Positions(schema)| ==> Schematic(Positions(schema)[i]))
    && forall i :: 0 <= i < |DefinitionSchemas(schema)| ==> Schematic(DefinitionSchemas(schema)[i].value)
  }

  function Texts(vs: seq<Json>): (ns: seq<string>)
    requires AllStrings(vs)
    ensures |ns| == |vs|
  {
    seq(|vs|, i requires 0 <= i < |vs| => vs[i].text)
  }

  /** The required names of a schema, none where the keyword is absent. */
  function Required(schema: Json): seq<string>
    requires schema.Obj? && KeywordTypesOk(schema)
  {
    if Has(schema.fields, "required") then Texts(Get(schema.fields, "required").items) else []
  }

  predicate PropertiesRequired(schema: Json)
    requires schema.Obj? && KeywordTypesOk(schema)
  {
    forall i :: 0 <= i < |Properties(schema)| ==> Properties(schema)[i].name in Required(schema)
  }

  /** Every schema node reachable through properties, items and anyOf requires all of its properties. */
  predicate AllRequired(schema: Json)
    requires Schematic(schema)
    decreases schema
  {
    PropertiesRequired(schema) && forall i :: 0 <= i < |Positions(schema)| ==> AllRequired(Positions(schema)[i])
  }

  datatype Task = Task(id: string, version: int)

  const EMAIL_ANALYZE: Task := Task("email.analyze", 1)

  /** Whether the worker gets the fields in decoder order. */
  predicate UsesOrder(schema: Json, task: Task)
    requires Schematic(schema)
  {
    UsesPassageDefinitions(schema) || (task == EMAIL_ANALYZE && AllRequired(schema))
  }

  /** How many positions there are to visit, counted with repetition. */
  function Reach(schema: Json): (n: nat)
    ensures n >= 1
    decreases schema
  {
    if !schema.Obj? then 1
    else 1 + Sum(seq(|Positions(schema)|, i requires 0 <= i < |Positions(schema)| => Reach(Positions(schema)[i])))
  }

  function Reaches(vs: seq<Json>): (ns: seq<nat>)
    ensures |ns| == |vs|
  {
    seq(|vs|, i requires 0 <= i < |vs| => Reach(vs[i]))
  }

  lemma ReachOfPositions(schema: Json)
    requires schema.Obj?
    ensures Reach(schema) == 1 + Sum(Reaches(Positions(schema)))
  {
    assert seq(|Positions(schema)|, i requires 0 <= i < |Positions(schema)| => Reach(Positions(schema)[i]))
        == Reaches(Positions(schema));
  }

  predicate AllSchematic(vs: seq<Json>) {
    forall i :: 0 <= i < |vs| ==> Schematic(vs[i])
  }

  ghost predicate EachRequired(vs: seq<Json>)
    requires AllSchematic(vs)
  {
    forall i :: 0 <= i < |vs| ==> AllRequired(vs[i])
  }

  lemma SchematicSplits(a: seq<Json>, b: seq<Json>)
    ensures AllSchematic(a + b) <==> AllSchematic(a) && AllSchematic(b)
  {
    assert forall i :: 0 <= i < |a| ==> (a + b)[i] == a[i];
    assert forall i :: 0 <= i < |b| ==> (a + b)[|a| + i] == b[i];
  }

  lemma RequiredSplits(a: seq<Json>, b: seq<Json>)
    requires AllSchematic(a) && AllSchematic(b) && AllSchematic(a + b)
    ensures EachRequired(a + b) <==> EachRequired(a) && EachRequired(b)
  {
    assert forall i :: 0 <= i < |a| ==> (a + b)[i] == a[i];
    assert forall i :: 0 <= i < |b| ==> (a + b)[|a| + i] == b[i];
  }

  lemma ReachSplits(a: seq<Json>, b: seq<Json>)
    ensures Sum(Reaches(a + b)) == Sum(Reaches(a)) + Sum(Reaches(b))
  {
    assert Reaches(a + b) == Reaches(a) + Reaches(b);
    SumOfAppended(Reaches(a), Reaches(b));
  }

  lemma OneNode(node: Json)
    requires Schematic(node)
    ensures AllSchematic([node]) && AllSchematic(Positions(node))
    ensures EachRequired([node]) <==> PropertiesRequired(node) && EachRequired(Positions(node))
    ensures Sum(Reaches([node])) == 1 + Sum(Reaches(Positions(node)))
  {
    assert Reaches([node]) == [Reach(node)];
    SumOfOne(Reach(node));
    ReachOfPositions(node);
    if EachRequired([node]) { assert AllRequired([node][0]); }
  }

  /** Replacing a pending node by its positions. */
  lemma Visit(rest: seq<Json>, node: Json)
    requires Schematic(node) && AllSchematic(rest + [node])
    ensures AllSchematic(rest + Positions(node))
    ensures Sum(Reaches(rest + Positions(node))) < Sum(Reaches(rest + [node]))
    ensures EachRequired(rest + [node]) <==> PropertiesRequired(node) && EachRequired(rest + Positions(node))
  {
    OneNode(node);
    SchematicSplits(rest, [node]);
    SchematicSplits(rest, Positions(node));
    RequiredSplits(rest, [node]);
    RequiredSplits(rest, Positions(node));
    ReachSplits(rest, [node]);
    ReachSplits(rest, Positions(node));
  }

  /** What the worklist knows: the nodes still pending decide the answer. */
  ghost predicate Decides(pending: seq<Json>, answer: bool) {
    AllSchematic(pending) && (EachRequired(pending) <==> answer)
  }

  function Work(pending: seq<Json>): nat {
    Sum(Reaches(pending))
  }

  lemma Start(schema: Json)
    requires Schematic(schema)
    ensures Decides([schema], AllRequired(schema))
  {
    OneNode(schema);
  }

  lemma Step(rest: seq<Json>, node: Json, answer: bool)
    requires Decides(rest + [node], answer)
    ensures Schematic(node)
    ensures !PropertiesRequired(node) ==> !answer
    ensures PropertiesRequired(node) ==> Decides(rest + Positions(node), answer)
    ensures Work(rest + Positions(node)) < Work(rest + [node])
  {
    assert (rest + [node])[|rest|] == node;
    Visit(rest, node);
  }

  /** The worklist decides exactly whether every reachable schema node requires all of its properties. */
  method UsesDecoderFieldOrder(schema: Json, task: Task) returns (r: bool)
    requires Schematic(schema)
    ensures r <==> UsesOrder(schema, task)
  {
    if UsesPassageDefinitions(schema) { return true; }
    if task != EMAIL_ANALYZE { return false; }
    ghost var answer := AllRequired(schema);
    var pending := [schema];
    Start(schema);
    while pending != []
      invariant Decides(pending, answer)
      decreases Work(pending)
    {
      var node := pending[|pending| - 1];
      var rest := pending[..|pending| - 1];
      assert pending == rest + [node];
      Step(rest, node, answer);
      if !PropertiesRequired(node) { return false; }
      pending := rest + Positions(node);
    }
    return true;
  }
}
