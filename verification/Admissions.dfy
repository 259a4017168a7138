/** The validator of response schemas, with its running reference counter, and what it decides. */
module Admissions {
  import opened Encoding
  import opened Json
  import opened JsonShapes
  import opened Outcomes
  import opened Schemas
  import opened Sums

  /** Validates some subschemas of a schema one after the other; None where the program raises. */
  method ValidateAll(parent: Json, vs: seq<Json>, definitions: Option<seq<Field>>, references: array<nat>,
                     multiplicity: nat, nullable: bool, ghost fs: seq<Finding>) returns (r: Option<seq<nat>>)
    requires references.Length == 1 && references[0] <= MAX_PASSAGE_REFERENCES
    requires forall i :: 0 <= i < |vs| ==> vs[i] < parent
    requires AreFindings(fs, vs, definitions, nullable)
    modifies references
    ensures r.Some? <==> AllSupported(fs) && old(references[0]) + Sum(ReferenceCounts(fs)) <= MAX_PASSAGE_REFERENCES
    ensures r.Some? ==>
              references[0] == old(references[0]) + Sum(ReferenceCounts(fs))
              && r.value == Multiples(multiplicity, Costs(fs))
    decreases parent, 0
  {
    var values: seq<nat> := [];
    var i := 0;
    ghost var counts := ReferenceCounts(fs);
    while i < |vs|
      invariant 0 <= i <= |vs| && |values| == i
      invariant forall j :: 0 <= j < i ==> fs[j].supported
      invariant forall j :: 0 <= j < i ==> values[j] == Product(multiplicity, fs[j].cost)
      invariant references[0] == old(references[0]) + SumTo(counts, i) <= MAX_PASSAGE_REFERENCES
    {
      SumOfPart(counts, i + 1);
      if !vs[i].Obj? {
        FindingIs(fs[i], vs[i], definitions, nullable, false);
        return None;
      }
      var v := ValidateSupportedSchema(vs[i], definitions, references, multiplicity, nullable, false, fs[i]);
      if v.None? { return None; }
      values := values + [v.value];
      i := i + 1;
    }
    return Some(values);
  }

  /** The validator: None where it raises. It succeeds exactly on supported schemas with few enough references;
      then the counter has grown by the number of reference nodes and the result is linear in the multiplicity. */
  method ValidateSupportedSchema(schema: Json, definitions: Option<seq<Field>>, references: array<nat>,
                                 multiplicity: nat, nullable: bool, root: bool, ghost f: Finding)
    returns (r: Option<nat>)
    requires schema.Obj? && references.Length == 1 && references[0] <= MAX_PASSAGE_REFERENCES
    requires IsFinding(f, schema, definitions, nullable, root)
    modifies references
    ensures r.Some? <==> f.supported && old(references[0]) + f.references <= MAX_PASSAGE_REFERENCES
    ensures r.Some? ==> references[0] == old(references[0]) + f.references && r.value == Product(multiplicity, f.cost)
    decreases schema, 2
  {
    FindingIs(f, schema, definitions, nullable, root);
    if IsReference(schema, definitions) {
      ProductIsTimes(multiplicity, 1);
      if !OwnedReference(schema, definitions.value) { return None; }
      references[0] := references[0] + 1;
      if references[0] > MAX_PASSAGE_REFERENCES { return None; }
      return Some(multiplicity);
    }
    AnalysedByParts(schema, definitions, nullable, root);
    PartsOfAre(schema, definitions, nullable, root);
    r := ValidateNode(schema, definitions, references, multiplicity, nullable, root,
                      PartsOf(schema, definitions, nullable, root));
  }

  /** A schema that is not a passage reference. */
  method ValidateNode(schema: Json, definitions: Option<seq<Field>>, references: array<nat>,
                      multiplicity: nat, nullable: bool, root: bool, ghost p: Parts) returns (r: Option<nat>)
    requires schema.Obj? && references.Length == 1 && references[0] <= MAX_PASSAGE_REFERENCES
    requires AreParts(p, schema, definitions, nullable, root)
    modifies references
    ensures var f := Combine(schema, nullable, root, p);
            && (r.Some? <==> f.supported && old(references[0]) + f.references <= MAX_PASSAGE_REFERENCES)
            && (r.Some? ==> references[0] == old(references[0]) + f.references && r.value == Product(multiplicity, f.cost))
    decreases schema, 1
  {
    if !KeywordsAndTypeOk(schema) { return None; }
    var properties :=
      ValidateAll(schema, PropertySchemas(schema), definitions, references, multiplicity, nullable, p.properties);
    if properties.None? { return None; }
    if !ArrayKeywordsOk(schema) { return None; }
    ProductIsTimes(multiplicity, MaxItems(schema));
    var items := ValidateAll(schema, ItemSchemas(schema), definitions, references,
                             multiplicity * MaxItems(schema), nullable, p.items);
    if items.None? { return None; }
    var passageValues := Sum(properties.value) + Sum(items.value);
    if !ScalarKeywordsOk(schema) { return None; }
    TotalCost(schema, multiplicity, p);
    if Keyword(schema, "anyOf").Null? {
      assert p.branches == [];
      ProductIsTimes(multiplicity, 0);
      return Some(passageValues);
    }
    var choice := TakenAsRootChoice(schema, root);
    if choice && !IsBoundedRootObjectChoice(schema) { return None; }
    if !choice && (!nullable || !IsNullableUnion(schema)) { return None; }
    var branches := ValidateAll(schema, Alternatives(schema), definitions, references, multiplicity, choice, p.branches);
    if branches.None? { return None; }
    MaxOfMultiples(multiplicity, Costs(p.branches), |p.branches|);
    return Some(passageValues + Max(branches.value));
  }

  lemma TotalCost(schema: Json, m: nat, p: Parts)
    requires schema.Obj?
    ensures Sum(Multiples(m, Costs(p.properties))) + Sum(Multiples(Product(m, MaxItems(schema)), Costs(p.items)))
            + Product(m, Max(Costs(p.branches)))
            == Product(m, Combine(schema, true, true, p).cost)
  {
    SumOfMultiples(m, Costs(p.properties), |p.properties|);
    SumOfMultiples(Product(m, MaxItems(schema)), Costs(p.items), |p.items|);
    ProductOfSum(m, Sum(Costs(p.properties)), Product(MaxItems(schema), Sum(Costs(p.items))));
    ProductOfSum(m, Sum(Costs(p.properties)) + Product(MaxItems(schema), Sum(Costs(p.items))), Max(Costs(p.branches)));
    ProductOfProduct(m, MaxItems(schema), Sum(Costs(p.items)));
  }

  // ---- The whole schema ----

  const MAX_SCHEMA_BYTES: nat := 250_000

  /** The length of a text in UTF-8. */
  function Utf8Length(s: string): nat {
    if s == "" then 0
    else (if s[0] < 0x80 as char then 1 else if s[0] < 0x800 as char then 2
          else if s[0] < 0x10000 as char then 3 else 4) + Utf8Length(s[1..])
  }

  function Without(fs: seq<Field>, name: string): (r: seq<Field>)
    ensures forall f :: f in r <==> f in fs && f.name != name
  {
    if fs == [] then [] else (if fs[0].name == name then [] else [fs[0]]) + Without(fs[1..], name)
  }

  /** The schema without its definitions. */
  function RootSchema(schema: Json): (r: Json)
    requires schema.Obj?
    ensures r.Obj?
  {
    Obj(Without(schema.fields, "$defs"))
  }

  function RootFinding(schema: Json): Finding
    requires schema.Obj? && PassageDefinitions(schema).Ok?
  {
    Analyse(RootSchema(schema), PassageDefinitions(schema).value, true, true)
  }

  /** What a request demands of its response schema, the JSON Schema meta-schema aside. */
  predicate Admitted(schema: Json) {
    && schema.Obj?
    && Encode(schema, true).Some? && Utf8Length(Encode(schema, true).value) <= MAX_SCHEMA_BYTES
    && Nodes(schema) <= MAX_JSON_NODES && Depth(schema) <= MAX_JSON_DEPTH
    && PassageDefinitions(schema).Ok? && WithinBudget(RootFinding(schema))
    && HasAdmissibleRoot(schema)
  }

  predicate WithinBudget(f: Finding) {
    f.supported && f.references <= MAX_PASSAGE_REFERENCES && f.cost <= MAX_PASSAGE_VALUES
  }

  /** The checks of a response schema in the program's order; false where it raises. */
  method ValidateGenerationShape(schema: Json) returns (accepted: bool)
    requires schema.Obj?
    ensures accepted <==> Admitted(schema)
  {
    var encoded := Encode(schema, true);
    if encoded.None? || Utf8Length(encoded.value) > MAX_SCHEMA_BYTES { return false; }
    var shape := ValidateJsonShape(schema);
    if !shape { return false; }
    var definitions := PassageDefinitions(schema);
    if definitions.Err? { return false; }
    var references := new nat[1];
    references[0] := 0;
    var passageValues :=
      ValidateSupportedSchema(RootSchema(schema), definitions.value, references, 1, true, true, RootFinding(schema));
    ProductIsTimes(1, RootFinding(schema).cost);
    if passageValues.None? || passageValues.value > MAX_PASSAGE_VALUES { return false; }
    return HasAdmissibleRoot(schema);
  }
}
