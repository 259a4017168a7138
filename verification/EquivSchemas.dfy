/** Schemas that are equal up to field order and the spelling of numbers are read in the same way. */
module EquivSchemas {
  import opened Json
  import opened SchemaPositions
  import opened Schemas

  /** The value of every keyword is equal in the two schemas. */
  lemma EquivKeyword(u: Json, v: Json, key: string)
    requires u.Obj? && v.Obj? && Equiv(u, v)
    ensures Has(u.fields, key) <==> Has(v.fields, key)
    ensures Has(u.fields, key) ==> Equiv(Get(u.fields, key), Get(v.fields, key))
  {
  }

  lemma EquivStrings(us: seq<Json>, vs: seq<Json>)
    requires Equiv(Arr(us), Arr(vs))
    ensures AllStrings(us) <==> AllStrings(vs)
    ensures AllStrings(us) ==> Texts(us) == Texts(vs)
  {
    assert forall i :: 0 <= i < |us| ==> Equiv(us[i], vs[i]);
  }

  lemma EquivKeywordTypes(u: Json, v: Json)
    requires u.Obj? && v.Obj? && Equiv(u, v)
    ensures KeywordTypesOk(u) <==> KeywordTypesOk(v)
    ensures KeywordTypesOk(u) ==> Required(u) == Required(v)
  {
    EquivKeyword(u, v, "properties");
    EquivKeyword(u, v, "$defs");
    EquivKeyword(u, v, "anyOf");
    EquivKeyword(u, v, "required");
    if Has(u.fields, "required") {
      var a, b := Get(u.fields, "required"), Get(v.fields, "required");
      if a.Arr? { EquivStrings(a.items, b.items); }
    }
  }

  // ---- Schema positions, keyword by keyword ----

  predicate NamedSchematic(schema: Json, key: string)
    requires schema.Obj? && KeywordTypesOk(schema) && key in ["properties", "$defs"]
  {
    Has(schema.fields, key) ==>
      var fs := Get(schema.fields, key).fields;
      forall i :: 0 <= i < |fs| ==> Schematic(fs[i].value)
  }

  predicate ItemsSchematic(schema: Json)
    requires schema.Obj?
  {
    Has(schema.fields, "items") ==> Schematic(Get(schema.fields, "items"))
  }

  predicate AlternativesSchematic(schema: Json)
    requires schema.Obj? && KeywordTypesOk(schema)
  {
    Has(schema.fields, "anyOf") ==>
      var vs := Get(schema.fields, "anyOf").items;
      forall i :: 0 <= i < |vs| ==> Schematic(vs[i])
  }

  predicate SchematicByKeyword(schema: Json) {
    && schema.Obj? && KeywordTypesOk(schema)
    && NamedSchematic(schema, "properties") && NamedSchematic(schema, "$defs")
    && ItemsSchematic(schema) && AlternativesSchematic(schema)
  }

  lemma AllOfThree(a: seq<Json>, b: seq<Json>, c: seq<Json>)
    ensures AllSchematic(a + b + c) <==> AllSchematic(a) && AllSchematic(b) && AllSchematic(c)
  {
    SchematicSplits(a, b);
    SchematicSplits(a + b, c);
  }

  lemma PropertiesSchematic(schema: Json)
    requires schema.Obj? && KeywordTypesOk(schema)
    ensures AllSchematic(PropertySchemas(schema)) <==> NamedSchematic(schema, "properties")
  {
    var ps := PropertySchemas(schema);
    if Has(schema.fields, "properties") {
      var fs := Get(schema.fields, "properties").fields;
      assert |ps| == |fs| && forall i :: 0 <= i < |fs| ==> ps[i] == fs[i].value;
    }
  }

  lemma DefinitionsSchematic(schema: Json)
    requires schema.Obj? && KeywordTypesOk(schema)
    ensures (forall i :: 0 <= i < |DefinitionSchemas(schema)| ==> Schematic(DefinitionSchemas(schema)[i].value))
            <==> NamedSchematic(schema, "$defs")
  {
    if Has(schema.fields, "$defs") { assert DefinitionSchemas(schema) == Get(schema.fields, "$defs").fields; }
  }

  lemma ItemSchematic(schema: Json)
    requires schema.Obj?
    ensures AllSchematic(ItemPosition(schema)) <==> ItemsSchematic(schema)
  {
    if Has(schema.fields, "items") { assert ItemPosition(schema)[0] == Get(schema.fields, "items"); }
  }

  lemma SchematicKeywords(schema: Json)
    ensures Schematic(schema) <==> SchematicByKeyword(schema)
  {
    if schema.Obj? && KeywordTypesOk(schema) {
      AllOfThree(PropertySchemas(schema), ItemPosition(schema), Alternatives(schema));
      PropertiesSchematic(schema);
      ItemSchematic(schema);
      DefinitionsSchematic(schema);
      assert AllSchematic(Alternatives(schema)) <==> AlternativesSchematic(schema);
      assert AllSchematic(Positions(schema))
        <==> (AllSchematic(PropertySchemas(schema)) && AllSchematic(ItemPosition(schema)) && AllSchematic(Alternatives(schema)));
    }
  }

  /** Whether a value is a schema does not depend on field order. */
  lemma {:induction false} SchematicKept(u: Json, v: Json)
    requires Wf(u) && Wf(v) && Equiv(u, v)
    ensures Schematic(u) <==> Schematic(v)
    decreases u, 1
  {
    SchematicKeywords(u);
    SchematicKeywords(v);
    if u.Obj? {
      EquivKeywordTypes(u, v);
      if KeywordTypesOk(u) {
        NamedKept(u, v, "properties");
        NamedKept(u, v, "$defs");
        ItemsKept(u, v);
        AlternativesKept(u, v);
      }
    }
  }

  lemma {:induction false} ItemsKept(u: Json, v: Json)
    requires Wf(u) && Wf(v) && Equiv(u, v) && u.Obj? && v.Obj?
    ensures ItemsSchematic(u) <==> ItemsSchematic(v)
    decreases u, 0
  {
    EquivKeyword(u, v, "items");
    if Has(u.fields, "items") {
      GetIsWf(u.fields, "items");
      GetIsWf(v.fields, "items");
      SchematicKept(Get(u.fields, "items"), Get(v.fields, "items"));
    }
  }

  lemma {:induction false} AlternativesKept(u: Json, v: Json)
    requires Wf(u) && Wf(v) && Equiv(u, v) && u.Obj? && v.Obj? && KeywordTypesOk(u) && KeywordTypesOk(v)
    ensures AlternativesSchematic(u) <==> AlternativesSchematic(v)
    decreases u, 0
  {
    EquivKeyword(u, v, "anyOf");
    if Has(u.fields, "anyOf") {
      GetIsWf(u.fields, "anyOf");
      GetIsWf(v.fields, "anyOf");
      var us, vs := Get(u.fields, "anyOf").items, Get(v.fields, "anyOf").items;
      forall i | 0 <= i < |us| ensures Schematic(us[i]) <==> Schematic(vs[i]) {
        SchematicKept(us[i], vs[i]);
      }
    }
  }

  lemma {:induction false} NamedKept(u: Json, v: Json, key: string)
    requires Wf(u) && Wf(v) && Equiv(u, v) && u.Obj? && v.Obj? && KeywordTypesOk(u) && KeywordTypesOk(v)
    requires key in ["properties", "$defs"]
    ensures NamedSchematic(u, key) <==> NamedSchematic(v, key)
    decreases u, 0
  {
    EquivKeyword(u, v, key);
    if Has(u.fields, key) {
      GetIsWf(u.fields, key);
      GetIsWf(v.fields, key);
      var fs, gs := Get(u.fields, key).fields, Get(v.fields, key).fields;
      forall n | Has(fs, n) ensures Schematic(Get(fs, n)) <==> Schematic(Get(gs, n)) {
        GetIsWf(fs, n);
        GetIsWf(gs, n);
        SchematicKept(Get(fs, n), Get(gs, n));
      }
      ByName(fs);
      ByName(gs);
    }
  }

  lemma ByName(fs: seq<Field>)
    requires Distinct(Names(fs))
    ensures (forall i :: 0 <= i < |fs| ==> Schematic(fs[i].value)) <==> forall n :: Has(fs, n) ==> Schematic(Get(fs, n))
  {
    forall i | 0 <= i < |fs| ensures Has(fs, fs[i].name) && Get(fs, fs[i].name) == fs[i].value { GetAt(fs, i); }
  }

  // ---- The choice of decoder order ----

  ghost predicate RequiredUnder(fs: seq<Field>)
    requires forall i :: 0 <= i < |fs| ==> Schematic(fs[i].value)
  {
    forall i :: 0 <= i < |fs| ==> AllRequired(fs[i].value)
  }

  lemma {:induction false} RequiredKeywords(schema: Json)
    requires Schematic(schema)
    ensures SchematicByKeyword(schema)
    ensures AllRequired(schema) <==>
              && PropertiesRequired(schema)
              && (Has(schema.fields, "properties") ==> RequiredUnder(Get(schema.fields, "properties").fields))
              && (Has(schema.fields, "items") ==> AllRequired(Get(schema.fields, "items")))
              && (Has(schema.fields, "anyOf") ==> EachRequired(Get(schema.fields, "anyOf").items))
  {
    SchematicKeywords(schema);
    var ps, items, vs := PropertySchemas(schema), ItemPosition(schema), Alternatives(schema);
    AllOfThree(ps, items, vs);
    SchematicSplits(ps, items);
    assert AllSchematic(Positions(schema));
    RequiredSplits(ps, items);
    RequiredSplits(ps + items, vs);
    assert EachRequired(Positions(schema)) <==> EachRequired(ps) && EachRequired(items) && EachRequired(vs);
    if Has(schema.fields, "properties") {
      var fs := Get(schema.fields, "properties").fields;
      assert |ps| == |fs| && forall i :: 0 <= i < |fs| ==> ps[i] == fs[i].value;
      assert EachRequired(ps) <==> RequiredUnder(fs);
    }
    if Has(schema.fields, "items") { assert items[0] == Get(schema.fields, "items"); }
  }

  lemma PropertiesRequiredByName(schema: Json)
    requires schema.Obj? && KeywordTypesOk(schema)
    ensures PropertiesRequired(schema) <==>
              (Has(schema.fields, "properties") ==>
                 forall n :: Has(Get(schema.fields, "properties").fields, n) ==> n in Required(schema))
  {
    if Has(schema.fields, "properties") {
      var fs := Get(schema.fields, "properties").fields;
      assert Properties(schema) == fs;
      forall i | 0 <= i < |fs| ensures Has(fs, fs[i].name) { assert Names(fs)[i] == fs[i].name; }
      if PropertiesRequired(schema) {
        forall n | Has(fs, n) ensures n in Required(schema) { assert fs[Find(fs, n)].name == n; }
      }
    }
  }

  /** Whether all properties are required does not depend on field order. */
  lemma {:induction false} AllRequiredKept(u: Json, v: Json)
    requires Wf(u) && Wf(v) && Equiv(u, v) && Schematic(u) && Schematic(v)
    ensures AllRequired(u) <==> AllRequired(v)
    decreases u, 1
  {
    RequiredKeywords(u);
    RequiredKeywords(v);
    EquivKeywordTypes(u, v);
    PropertiesRequiredByName(u);
    PropertiesRequiredByName(v);
    EquivKeyword(u, v, "properties");
    EquivKeyword(u, v, "items");
    EquivKeyword(u, v, "anyOf");
    if Has(u.fields, "properties") { RequiredUnderKept(u, v); }
    if Has(u.fields, "items") {
      GetIsWf(u.fields, "items");
      GetIsWf(v.fields, "items");
      AllRequiredKept(Get(u.fields, "items"), Get(v.fields, "items"));
    }
    if Has(u.fields, "anyOf") { EachRequiredKept(u, v); }
  }

  lemma {:induction false} EachRequiredKept(u: Json, v: Json)
    requires Wf(u) && Wf(v) && Equiv(u, v) && SchematicByKeyword(u) && SchematicByKeyword(v)
    requires Has(u.fields, "anyOf") && Has(v.fields, "anyOf")
    ensures EachRequired(Get(u.fields, "anyOf").items) <==> EachRequired(Get(v.fields, "anyOf").items)
    decreases u, 0
  {
    EquivKeyword(u, v, "anyOf");
    GetIsWf(u.fields, "anyOf");
    GetIsWf(v.fields, "anyOf");
    var us, vs := Get(u.fields, "anyOf").items, Get(v.fields, "anyOf").items;
    forall i | 0 <= i < |us| ensures AllRequired(us[i]) <==> AllRequired(vs[i]) {
      AllRequiredKept(us[i], vs[i]);
    }
  }

  lemma {:induction false} RequiredUnderKept(u: Json, v: Json)
    requires Wf(u) && Wf(v) && Equiv(u, v) && SchematicByKeyword(u) && SchematicByKeyword(v)
    requires Has(u.fields, "properties") && Has(v.fields, "properties")
    ensures RequiredUnder(Get(u.fields, "properties").fields) <==> RequiredUnder(Get(v.fields, "properties").fields)
    decreases u, 0
  {
    EquivKeyword(u, v, "properties");
    GetIsWf(u.fields, "properties");
    GetIsWf(v.fields, "properties");
    var fs, gs := Get(u.fields, "properties").fields, Get(v.fields, "properties").fields;
    forall n | Has(fs, n) ensures Schematic(Get(fs, n)) && Schematic(Get(gs, n)) {}
    forall n | Has(fs, n) ensures AllRequired(Get(fs, n)) <==> AllRequired(Get(gs, n)) {
      GetIsWf(fs, n);
      GetIsWf(gs, n);
      AllRequiredKept(Get(fs, n), Get(gs, n));
    }
    RequiredByName(fs);
    RequiredByName(gs);
  }

  lemma RequiredByName(fs: seq<Field>)
    requires Distinct(Names(fs)) && forall i :: 0 <= i < |fs| ==> Schematic(fs[i].value)
    ensures forall n :: Has(fs, n) ==> Schematic(Get(fs, n))
    ensures RequiredUnder(fs) <==> forall n :: Has(fs, n) ==> AllRequired(Get(fs, n))
  {
    forall i | 0 <= i < |fs| ensures Has(fs, fs[i].name) && Get(fs, fs[i].name) == fs[i].value { GetAt(fs, i); }
  }

  /** The worker's field order is chosen alike for equal schemas. */
  lemma UsesOrderKept(u: Json, v: Json, task: Task)
    requires Wf(u) && Wf(v) && Equiv(u, v) && Schematic(u) && Schematic(v)
    ensures UsesOrder(u, task) <==> UsesOrder(v, task)
  {
    AllRequiredKept(u, v);
    EquivKeyword(u, v, "$defs");
  }
}
