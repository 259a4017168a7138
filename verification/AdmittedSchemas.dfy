/** Admitted schemas are fit for the decoder order: every schema position holds a schema object. */
module AdmittedSchemas {
  import opened Admissions
  import opened Budgets
  import opened Json
  import opened Outcomes
  import opened SchemaPositions
  import opened Schemas

  /** What the JSON Schema meta-schema adds to admission: at every schema position the keywords that hold
      subschemas or names have the right types, and "items" and "anyOf" are not null. */
  predicate MetaValid(schema: Json)
    decreases schema
  {
    schema.Obj? ==>
      && KeywordTypesOk(schema)
      && (Has(schema.fields, "items") ==> !Get(schema.fields, "items").Null?)
      && (forall i :: 0 <= i < |Positions(schema)| ==> MetaValid(Positions(schema)[i]))
      && forall i :: 0 <= i < |DefinitionSchemas(schema)| ==> MetaValid(DefinitionSchemas(schema)[i].value)
  }

  lemma PositionsSplit(schema: Json, i: nat)
    requires schema.Obj? && i < |Positions(schema)|
    ensures var ps, items, vs := PropertySchemas(schema), ItemPosition(schema), Alternatives(schema);
            Positions(schema)[i] == if i < |ps| then ps[i]
                                    else if i < |ps| + |items| then items[i - |ps|] else vs[i - |ps| - |items|]
  {
  }

  lemma NoDefinitions(schema: Json)
    requires schema.Obj? && forall n :: n in Names(schema.fields) ==> n != "$defs"
    ensures DefinitionSchemas(schema) == []
  {
  }

  /** A supported node is schematic below; it has no definitions of its own. */
  lemma {:induction false} SupportedIsSchematic(schema: Json, definitions: Option<seq<Field>>, nullable: bool, root: bool)
    requires Analyse(schema, definitions, nullable, root).supported && MetaValid(schema)
    ensures Schematic(schema)
    decreases schema
  {
    if IsReference(schema, definitions) {
      ReferenceIsSchematic(schema);
    } else {
      PartsAreSupported(schema, definitions, nullable, root);
      NoDefinitions(schema);
      forall i | 0 <= i < |Positions(schema)| ensures Schematic(Positions(schema)[i]) {
        PositionIsSupported(schema, definitions, nullable, root, i);
        var allowed, at := PositionMode(schema, nullable, root, i), Positions(schema)[i];
        SupportedIsSchematic(at, definitions, allowed, false);
      }
    }
  }

  function PositionMode(schema: Json, nullable: bool, root: bool, i: nat): bool
    requires schema.Obj?
  {
    if i < |PropertySchemas(schema)| + |ItemPosition(schema)| then nullable else TakenAsRootChoice(schema, root)
  }

  lemma PositionIsSupported(schema: Json, definitions: Option<seq<Field>>, nullable: bool, root: bool, i: nat)
    requires schema.Obj? && !IsReference(schema, definitions) && MetaValid(schema)
    requires Analyse(schema, definitions, nullable, root).supported && i < |Positions(schema)|
    ensures Analyse(Positions(schema)[i], definitions, PositionMode(schema, nullable, root, i), false).supported
  {
    PartsAreSupported(schema, definitions, nullable, root);
    PositionsSplit(schema, i);
    assert forall j :: 0 <= j < |PropertySchemas(schema)| ==> PropertySchemas(schema)[j] == Properties(schema)[j].value;
    if Has(schema.fields, "items") {
      assert ItemPosition(schema) == ItemSchemas(schema);
    }
  }

  lemma ReferenceIsSchematic(schema: Json)
    requires schema.Obj? && forall n :: n in Names(schema.fields) ==> n == "$ref"
    ensures Schematic(schema)
  {
    assert !Has(schema.fields, "properties") && !Has(schema.fields, "items") && !Has(schema.fields, "anyOf");
    assert !Has(schema.fields, "$defs") && !Has(schema.fields, "required");
  }

  lemma InFields(fs: seq<Field>, f: Field)
    requires Distinct(Names(fs)) && f in fs
    ensures Has(fs, f.name) && Get(fs, f.name) == f.value
  {
    var i :| 0 <= i < |fs| && fs[i] == f;
    GetAt(fs, i);
  }

  lemma {:induction false} WithoutIsDistinct(fs: seq<Field>, name: string)
    requires Distinct(Names(fs))
    ensures Distinct(Names(Without(fs, name)))
  {
    if fs != [] {
      var rest := Without(fs[1..], name);
      assert Names(fs[1..]) == Names(fs)[1..];
      WithoutIsDistinct(fs[1..], name);
      forall j | 0 <= j < |rest| ensures Names(rest)[j] != fs[0].name {
        assert rest[j] in rest;
        var k :| 0 <= k < |fs[1..]| && fs[1..][k] == rest[j];
        assert Names(fs)[k + 1] == rest[j].name && Names(fs)[0] == fs[0].name;
        assert Names(fs)[0] != Names(fs)[k + 1];
      }
      var r := Without(fs, name);
      if fs[0].name != name {
        assert r == [fs[0]] + rest;
        assert Names(r) == [fs[0].name] + Names(rest);
      } else {
        assert r == rest;
      }
    }
  }

  lemma WithoutKeeps(fs: seq<Field>, name: string, key: string)
    requires Distinct(Names(fs)) && key != name
    ensures Has(Without(fs, name), key) <==> Has(fs, key)
    ensures Has(fs, key) ==> Get(Without(fs, name), key) == Get(fs, key)
  {
    var r := Without(fs, name);
    WithoutIsDistinct(fs, name);
    if Has(fs, key) {
      var f := fs[Find(fs, key)];
      InFields(fs, f);
      InFields(r, f);
    }
    if Has(r, key) {
      var f := r[Find(r, key)];
      InFields(fs, f);
    }
  }

  lemma NotWithin(fs: seq<Field>, name: string)
    ensures !Has(Without(fs, name), name)
  {
    var r := Without(fs, name);
    forall i | 0 <= i < |r| ensures Names(r)[i] != name { assert r[i] in r; }
  }

  lemma DefinitionIsSchematic(v: Json)
    requires IsPassageDefinition(v)
    ensures Schematic(v)
  {
    assert !Has(v.fields, "properties") && !Has(v.fields, "items") && !Has(v.fields, "anyOf");
    assert !Has(v.fields, "$defs") && !Has(v.fields, "required");
  }

  /** An admitted schema that the meta-schema accepts is schematic. */
  lemma AdmittedIsSchematic(schema: Json)
    requires Wf(schema) && Admitted(schema) && MetaValid(schema)
    ensures Schematic(schema)
  {
    var root := RootSchema(schema);
    var definitions := PassageDefinitions(schema).value;
    SameKeywords(schema);
    NotWithin(schema.fields, "$defs");
    NoDefinitions(root);
    SupportedIsSchematic(root, definitions, true, true);
    forall i | 0 <= i < |DefinitionSchemas(schema)| ensures Schematic(DefinitionSchemas(schema)[i].value) {
      DefinitionIsSchematic(DefinitionSchemas(schema)[i].value);
    }
  }

  lemma SameKeyword(schema: Json, key: string)
    requires schema.Obj? && Wf(schema) && key != "$defs"
    ensures Has(RootSchema(schema).fields, key) <==> Has(schema.fields, key)
    ensures Has(schema.fields, key) ==> Get(RootSchema(schema).fields, key) == Get(schema.fields, key)
    ensures Keyword(RootSchema(schema), key) == Keyword(schema, key)
  {
    WithoutKeeps(schema.fields, "$defs", key);
  }

  lemma SameKeywords(schema: Json)
    requires schema.Obj? && Wf(schema)
    ensures Positions(RootSchema(schema)) == Positions(schema)
    ensures KeywordTypesOk(schema) ==> KeywordTypesOk(RootSchema(schema))
    ensures Has(schema.fields, "items") <==> Has(RootSchema(schema).fields, "items")
    ensures Has(schema.fields, "items") ==> Get(RootSchema(schema).fields, "items") == Get(schema.fields, "items")
  {
    SameKeyword(schema, "items");
    SameKeyword(schema, "properties");
    SameKeyword(schema, "anyOf");
    SameKeyword(schema, "required");
    NotWithin(schema.fields, "$defs");
    assert PropertySchemas(RootSchema(schema)) == PropertySchemas(schema);
  }
}
