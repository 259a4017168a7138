/** Which schemas are admitted, spelled out keyword by keyword: the reference that the validator is measured against. */
module SupportedSchemas {
  import opened Admissions
  import opened Budgets
  import opened Encoding
  import opened Json
  import opened JsonShapes
  import opened Outcomes
  import opened Schemas
  import opened Sums

  /** The value of a keyword, null where it is absent. */
  function At(schema: Json, name: string): Json
    requires schema.Obj?
  {
    if name in Names(schema.fields) then Get(schema.fields, name) else Null
  }

  predicate OnlyNames(schema: Json, names: seq<string>)
    requires schema.Obj?
  {
    forall i :: 0 <= i < |schema.fields| ==> schema.fields[i].name in names
  }

  /** A reference to one of the passage definitions, with nothing beside it. */
  predicate RefersToPassage(schema: Json, passages: seq<Field>)
    requires schema.Obj?
  {
    && OnlyNames(schema, ["$ref"]) && At(schema, "$ref").Str?
    && |At(schema, "$ref").text| >= 8 && At(schema, "$ref").text[..8] == "#/$defs/"
    && exists i :: 0 <= i < |passages| && passages[i].name == At(schema, "$ref").text[8..]
  }

  predicate ScalarsOk(schema: Json)
    requires schema.Obj?
  {
    var t, e := At(schema, "type"), At(schema, "enum");
    && (t == Null || t == Str("array") || t == Str("boolean") || t == Str("integer") || t == Str("null")
        || t == Str("number") || t == Str("object") || t == Str("string"))
    && (e == Null || (e.Arr? && 1 <= |e.items| <= 100 && forall i :: 0 <= i < |e.items| ==> !e.items[i].Arr? && !e.items[i].Obj?))
    && (At(schema, "minimum") == Null || At(schema, "minimum").Integer?)
    && (At(schema, "maximum") == Null || At(schema, "maximum").Integer?)
    && (At(schema, "additionalProperties") == Null || At(schema, "additionalProperties").Bool?)
  }

  predicate ArraysOk(schema: Json)
    requires schema.Obj?
  {
    var items, least, most := At(schema, "items"), At(schema, "minItems"), At(schema, "maxItems");
    if At(schema, "type") == Str("array") then
      && items.Obj? && most.Integer? && 0 <= most.value && most.value <= 100
      && (least == Null || (least.Integer? && 0 <= least.value && least.value <= most.value))
    else items == Null && least == Null && most == Null
  }

  /** The keywords of a node by themselves. */
  predicate KeywordsFit(schema: Json)
    requires schema.Obj?
  {
    && OnlyNames(schema, ["additionalProperties", "anyOf", "default", "enum", "items", "maxLength", "maxItems", "maximum",
                          "minLength", "minItems", "minimum", "properties", "required", "title", "type"])
    && ScalarsOk(schema) && ArraysOk(schema)
  }

  predicate ClosedObject(v: Json) {
    v.Obj? && At(v, "type") == Str("object") && At(v, "additionalProperties") == Bool(false)
  }

  const TYPE_NULL: Json := Obj([Field("type", Str("null"))])

  /** An anyOf at the root, where no alternative is the null schema: 2 to 64 closed objects and no other keyword. */
  predicate ObjectChoice(schema: Json)
    requires schema.Obj?
  {
    var a := At(schema, "anyOf");
    && OnlyNames(schema, ["$defs", "anyOf"]) && a.Arr? && 2 <= |a.items| && |a.items| <= 64
    && forall i :: 0 <= i < |a.items| ==> ClosedObject(a.items[i])
  }

  predicate TypedNonNull(v: Json) {
    v.Obj? && At(v, "type").Str? && At(v, "type") != Str("null")
  }

  /** The null schema and one other that has a type. */
  predicate NullableUnion(a: Json) {
    a.Arr? && |a.items| == 2
    && ((a.items[0] == TYPE_NULL && TypedNonNull(a.items[1])) || (a.items[1] == TYPE_NULL && TypedNonNull(a.items[0])))
  }

  predicate ChoosesAtRoot(schema: Json, root: bool)
    requires schema.Obj?
  {
    root && !(At(schema, "anyOf").Arr? && TYPE_NULL in At(schema, "anyOf").items)
  }

  /** A supported schema. Below a nullable union no further union is allowed, and a choice of objects only at the root. */
  ghost predicate Supported(schema: Json, passages: Option<seq<Field>>, unions: bool, root: bool)
    decreases schema
  {
    && schema.Obj?
    && if "$ref" in Names(schema.fields) && passages.Some? then RefersToPassage(schema, passages.value)
       else
         var properties, items, anyOf := At(schema, "properties"), At(schema, "items"), At(schema, "anyOf");
         var choice := ChoosesAtRoot(schema, root);
         && KeywordsFit(schema)
         && (properties.Obj? ==>
               forall i :: 0 <= i < |properties.fields| ==> Supported(properties.fields[i].value, passages, unions, false))
         && (At(schema, "type") == Str("array") && items.Obj? ==> Supported(items, passages, unions, false))
         && (anyOf == Null || if choice then ObjectChoice(schema) else unions && NullableUnion(anyOf))
         && (anyOf.Arr? ==> forall i :: 0 <= i < |anyOf.items| ==> Supported(anyOf.items[i], passages, choice, false))
  }

  lemma SameKeyword(schema: Json, name: string)
    requires schema.Obj?
    ensures At(schema, name) == Keyword(schema, name)
  {
  }

  lemma OnlyThese(schema: Json, names: seq<string>)
    requires schema.Obj?
    ensures OnlyNames(schema, names) <==> forall n :: n in Names(schema.fields) ==> n in names
  {
    if OnlyNames(schema, names) {
      forall n | n in Names(schema.fields) ensures n in names { var i :| 0 <= i < |schema.fields| && Names(schema.fields)[i] == n; }
    } else {
      var i :| 0 <= i < |schema.fields| && schema.fields[i].name !in names;
      assert Names(schema.fields)[i] in Names(schema.fields);
    }
  }

  lemma ReferencesAgree(schema: Json, passages: seq<Field>)
    requires schema.Obj? && Has(schema.fields, "$ref")
    ensures OwnedReference(schema, passages) <==> RefersToPassage(schema, passages)
  {
    OnlyThese(schema, ["$ref"]);
    var r := Get(schema.fields, "$ref");
    if r.Str? && |r.text| >= 8 {
      assert REF_PREFIX <= r.text <==> r.text[..8] == "#/$defs/";
      PassageIsThere(passages, r.text[8..]);
    }
  }

  lemma PassageIsThere(passages: seq<Field>, name: string)
    ensures Has(passages, name) <==> exists i :: 0 <= i < |passages| && passages[i].name == name
  {
    if i :| 0 <= i < |passages| && passages[i].name == name { assert Names(passages)[i] == name; }
    if Has(passages, name) { var i :| 0 <= i < |passages| && Names(passages)[i] == name; }
  }

  lemma KeywordsAgree(schema: Json)
    requires schema.Obj?
    ensures KeywordsAndTypeOk(schema) && ArrayKeywordsOk(schema) && ScalarKeywordsOk(schema) <==> KeywordsFit(schema)
  {
    SupportedNames(schema);
    TypesAgree(At(schema, "type"));
    ArraysAgree(schema);
  }

  lemma ArraysAgree(schema: Json)
    requires schema.Obj?
    ensures ArrayKeywordsOk(schema) <==>
              ArraysOk(schema) && (At(schema, "additionalProperties") == Null || At(schema, "additionalProperties").Bool?)
  {
  }

  lemma SupportedNames(schema: Json)
    requires schema.Obj?
    ensures (forall n :: n in Names(schema.fields) ==> n in SUPPORTED_KEYWORDS)
            <==> OnlyNames(schema, ["additionalProperties", "anyOf", "default", "enum", "items", "maxLength", "maxItems", "maximum",
                                    "minLength", "minItems", "minimum", "properties", "required", "title", "type"])
  {
    OnlyThese(schema, ["additionalProperties", "anyOf", "default", "enum", "items", "maxLength", "maxItems", "maximum",
                       "minLength", "minItems", "minimum", "properties", "required", "title", "type"]);
  }

  lemma TypesAgree(t: Json)
    ensures IsTypeOrAbsent(t)
            <==> t == Null || t == Str("array") || t == Str("boolean") || t == Str("integer") || t == Str("null")
                 || t == Str("number") || t == Str("object") || t == Str("string")
  {
  }

  lemma ChoicesAgree(schema: Json, nullable: bool, root: bool)
    requires schema.Obj?
    ensures TakenAsRootChoice(schema, root) <==> ChoosesAtRoot(schema, root)
    ensures ChoiceOk(schema, nullable, root)
            <==> At(schema, "anyOf") == Null
                 || if ChoosesAtRoot(schema, root) then ObjectChoice(schema) else nullable && NullableUnion(At(schema, "anyOf"))
    ensures IsBoundedRootObjectChoice(schema) <==> ObjectChoice(schema)
  {
    OnlyThese(schema, ["$defs", "anyOf"]);
  }

  /** The validator's findings call exactly the supported schemas supported. */
  lemma {:induction false} FindingsDecide(schema: Json, passages: Option<seq<Field>>, unions: bool, root: bool)
    ensures Analyse(schema, passages, unions, root).supported <==> Supported(schema, passages, unions, root)
    decreases schema
  {
    if schema.Obj? {
      if IsReference(schema, passages) {
        ReferencesAgree(schema, passages.value);
      } else {
        AnalysedByParts(schema, passages, unions, root);
        KeywordsAgree(schema);
        ChoicesAgree(schema, unions, root);
        PartsDecide(schema, PropertySchemas(schema), passages, unions);
        PartsDecide(schema, ItemSchemas(schema), passages, unions);
        PartsDecide(schema, Alternatives(schema), passages, TakenAsRootChoice(schema, root));
        SupportedByParts(schema, passages, unions, root);
      }
    }
  }

  ghost predicate AllAreSupported(vs: seq<Json>, passages: Option<seq<Field>>, unions: bool) {
    forall i :: 0 <= i < |vs| ==> Supported(vs[i], passages, unions, false)
  }

  lemma {:induction false} PartsDecide(parent: Json, vs: seq<Json>, passages: Option<seq<Field>>, unions: bool)
    requires forall i :: 0 <= i < |vs| ==> vs[i] < parent
    ensures AllSupported(AnalyseAll(vs, passages, unions)) <==> AllAreSupported(vs, passages, unions)
    decreases parent, 0
  {
    forall i | 0 <= i < |vs| ensures Analyse(vs[i], passages, unions, false).supported <==> Supported(vs[i], passages, unions, false) {
      FindingsDecide(vs[i], passages, unions, false);
    }
    var fs := AnalyseAll(vs, passages, unions);
    assert forall i :: 0 <= i < |vs| ==> fs[i] == Analyse(vs[i], passages, unions, false);
  }

  lemma PropertiesByKeyword(schema: Json, passages: Option<seq<Field>>, unions: bool)
    requires schema.Obj?
    ensures AllAreSupported(PropertySchemas(schema), passages, unions)
            <==> (At(schema, "properties").Obj? ==>
                    var fs := At(schema, "properties").fields;
                    forall i :: 0 <= i < |fs| ==> Supported(fs[i].value, passages, unions, false))
  {
    if At(schema, "properties").Obj? {
      var fs, vs := At(schema, "properties").fields, PropertySchemas(schema);
      assert |vs| == |fs| && forall i :: 0 <= i < |fs| ==> vs[i] == fs[i].value;
    }
  }

  lemma ItemsByKeyword(schema: Json, passages: Option<seq<Field>>, unions: bool)
    requires schema.Obj? && ArraysOk(schema)
    ensures AllAreSupported(ItemSchemas(schema), passages, unions)
            <==> (At(schema, "type") == Str("array") && At(schema, "items").Obj? ==> Supported(At(schema, "items"), passages, unions, false))
  {
    var vs := ItemSchemas(schema);
    if At(schema, "type") == Str("array") {
      assert |vs| == 1 && vs[0] == At(schema, "items");
      if AllAreSupported(vs, passages, unions) { assert Supported(vs[0], passages, unions, false); }
    } else {
      assert vs == [];
    }
  }

  lemma SupportedByParts(schema: Json, passages: Option<seq<Field>>, unions: bool, root: bool)
    requires schema.Obj? && !IsReference(schema, passages)
    ensures Supported(schema, passages, unions, root)
            <==> && KeywordsFit(schema)
                 && (At(schema, "anyOf") == Null
                     || if ChoosesAtRoot(schema, root) then ObjectChoice(schema) else unions && NullableUnion(At(schema, "anyOf")))
                 && AllAreSupported(PropertySchemas(schema), passages, unions)
                 && AllAreSupported(ItemSchemas(schema), passages, unions)
                 && AllAreSupported(Alternatives(schema), passages, ChoosesAtRoot(schema, root))
  {
    PropertiesByKeyword(schema, passages, unions);
    if ArraysOk(schema) { ItemsByKeyword(schema, passages, unions); }
  }

  // ---- The cost of an output ----

  /** What one output can cost: each reference counts once; the properties add up, an item schema counts as often as
      maxItems allows, and of the alternatives the costliest counts. */
  function OutputCost(schema: Json, passages: Option<seq<Field>>): nat
    decreases schema
  {
    if !schema.Obj? then 0
    else if "$ref" in Names(schema.fields) && passages.Some? then 1
    else
      var properties, items, anyOf := At(schema, "properties"), At(schema, "items"), At(schema, "anyOf");
      var most := if At(schema, "maxItems").Integer? && At(schema, "maxItems").value >= 0 then At(schema, "maxItems").value else 0;
      (if properties.Obj? then
         Sum(seq(|properties.fields|, i requires 0 <= i < |properties.fields| => OutputCost(properties.fields[i].value, passages)))
       else 0)
      + (if At(schema, "type") == Str("array") && items.Obj? then Product(most, OutputCost(items, passages)) else 0)
      + (if anyOf.Arr? then Max(seq(|anyOf.items|, i requires 0 <= i < |anyOf.items| => OutputCost(anyOf.items[i], passages))) else 0)
  }

  function OutputCosts(vs: seq<Json>, passages: Option<seq<Field>>): (ns: seq<nat>)
    ensures |ns| == |vs|
  {
    seq(|vs|, i requires 0 <= i < |vs| => OutputCost(vs[i], passages))
  }

  lemma CostOfProperties(schema: Json, passages: Option<seq<Field>>)
    requires schema.Obj? && At(schema, "properties").Obj?
    ensures var fs := At(schema, "properties").fields;
            seq(|fs|, i requires 0 <= i < |fs| => OutputCost(fs[i].value, passages)) == OutputCosts(PropertySchemas(schema), passages)
  {
  }

  lemma CostByParts(schema: Json, passages: Option<seq<Field>>)
    requires schema.Obj? && !IsReference(schema, passages) && ArraysOk(schema)
    ensures OutputCost(schema, passages)
            == Sum(OutputCosts(PropertySchemas(schema), passages))
               + Product(MaxItems(schema), Sum(OutputCosts(ItemSchemas(schema), passages)))
               + Max(OutputCosts(Alternatives(schema), passages))
  {
    if At(schema, "properties").Obj? { CostOfProperties(schema, passages); }
    CostOfItems(schema, passages);
    var anyOf := At(schema, "anyOf");
    if anyOf.Arr? {
      assert seq(|anyOf.items|, i requires 0 <= i < |anyOf.items| => OutputCost(anyOf.items[i], passages))
          == OutputCosts(Alternatives(schema), passages);
    }
  }

  lemma CostOfItems(schema: Json, passages: Option<seq<Field>>)
    requires schema.Obj? && ArraysOk(schema)
    ensures var items, listed := At(schema, "items"), At(schema, "type") == Str("array");
            Product(MaxItems(schema), Sum(OutputCosts(ItemSchemas(schema), passages)))
            == if listed && items.Obj? then Product(MaxItems(schema), OutputCost(items, passages)) else 0
  {
    var vs := ItemSchemas(schema);
    if At(schema, "type") == Str("array") {
      assert |vs| == 1 && vs[0] == At(schema, "items");
      assert OutputCosts(vs, passages) == [OutputCost(vs[0], passages)];
      SumOfOne(OutputCost(vs[0], passages));
    } else {
      assert vs == [];
      ProductIsTimes(MaxItems(schema), 0);
    }
  }

  /** The validator's cost of a supported schema is that cost. */
  lemma {:induction false} CostsAgree(schema: Json, passages: Option<seq<Field>>, unions: bool, root: bool)
    requires Analyse(schema, passages, unions, root).supported
    ensures Analyse(schema, passages, unions, root).cost == OutputCost(schema, passages)
    decreases schema, 1
  {
    if !IsReference(schema, passages) {
      PartsAreSupported(schema, passages, unions, root);
      AllCostsAgree(schema, PropertySchemas(schema), passages, unions);
      AllCostsAgree(schema, ItemSchemas(schema), passages, unions);
      AllCostsAgree(schema, Alternatives(schema), passages, TakenAsRootChoice(schema, root));
      CostOfParts(schema, passages, unions, root);
    }
  }

  lemma CostOfParts(schema: Json, passages: Option<seq<Field>>, unions: bool, root: bool)
    requires schema.Obj? && !IsReference(schema, passages) && KeywordsOk(schema, unions, root)
    requires Costs(AnalyseAll(PropertySchemas(schema), passages, unions)) == OutputCosts(PropertySchemas(schema), passages)
    requires Costs(AnalyseAll(ItemSchemas(schema), passages, unions)) == OutputCosts(ItemSchemas(schema), passages)
    requires Costs(AnalyseAll(Alternatives(schema), passages, TakenAsRootChoice(schema, root))) == OutputCosts(Alternatives(schema), passages)
    ensures Analyse(schema, passages, unions, root).cost == OutputCost(schema, passages)
  {
    AnalysedByParts(schema, passages, unions, root);
    KeywordsAgree(schema);
    CostByParts(schema, passages);
  }

  lemma {:induction false} AllCostsAgree(parent: Json, vs: seq<Json>, passages: Option<seq<Field>>, unions: bool)
    requires forall i :: 0 <= i < |vs| ==> vs[i] < parent && Analyse(vs[i], passages, unions, false).supported
    ensures Costs(AnalyseAll(vs, passages, unions)) == OutputCosts(vs, passages)
    decreases parent, 0
  {
    forall i | 0 <= i < |vs| ensures Costs(AnalyseAll(vs, passages, unions))[i] == OutputCosts(vs, passages)[i] {
      CostsAgree(vs[i], passages, unions, false);
    }
  }

  // ---- The whole schema ----

  /** An identifier of at most 64 characters. */
  predicate Identifier(s: string) {
    && 1 <= |s| && |s| <= 64
    && forall i :: 0 <= i < |s| ==>
         ('a' <= s[i] && s[i] <= 'z') || ('A' <= s[i] && s[i] <= 'Z') || s[i] == '_' || (i > 0 && '0' <= s[i] && s[i] <= '9')
  }

  /** A passage definition: a type and an enumeration of distinct bounded strings, and nothing else. */
  predicate PassageLeaf(v: Json) {
    && v.Obj? && OnlyNames(v, ["type", "enum"]) && At(v, "type") == Str("string")
    && var e := At(v, "enum");
       && e.Arr? && 1 <= |e.items| && |e.items| <= 8192
       && (forall i :: 0 <= i < |e.items| ==> e.items[i].Str? && 1 <= |e.items[i].text| && |e.items[i].text| <= 4096)
       && forall i, j :: 0 <= i < j < |e.items| ==> e.items[i] != e.items[j]
  }

  predicate Passages(v: Json) {
    && v.Obj? && 1 <= |v.fields| && |v.fields| <= 2
    && forall i :: 0 <= i < |v.fields| ==> Identifier(v.fields[i].name) && PassageLeaf(v.fields[i].value)
  }

  lemma LeavesAgree(v: Json)
    ensures IsPassageDefinition(v) <==> PassageLeaf(v)
  {
    if v.Obj? { OnlyThese(v, ["type", "enum"]); }
  }

  lemma PassagesAgree(v: Json)
    ensures IsDefinitions(v) <==> Passages(v)
  {
    if v.Obj? {
      forall i | 0 <= i < |v.fields|
        ensures IsPassageName(v.fields[i].name) && IsPassageDefinition(v.fields[i].value)
                <==> Identifier(v.fields[i].name) && PassageLeaf(v.fields[i].value)
      {
        LeavesAgree(v.fields[i].value);
        NamesAgree(v.fields[i].name);
      }
    }
  }

  lemma NamesAgree(s: string)
    ensures IsPassageName(s) <==> Identifier(s)
  {
    if IsPassageName(s) { assert IsNameChar(s[0], true); }
  }

  predicate RootFits(schema: Json)
    requires schema.Obj?
  {
    At(schema, "type") == Str("object") || (At(schema, "anyOf").Arr? && ObjectChoice(schema))
  }

  lemma BudgetAgrees(root: Json, passages: Option<seq<Field>>)
    ensures WithinBudget(Analyse(root, passages, true, true))
            <==> Supported(root, passages, true, true) && ReferenceNodes(root, passages) <= 16 && OutputCost(root, passages) <= 32
  {
    FindingsDecide(root, passages, true, true);
    if Analyse(root, passages, true, true).supported {
      CostsAgree(root, passages, true, true);
      ReferencesAreCounted(root, passages, true, true);
    }
  }

  function PassagesOf(schema: Json): Option<seq<Field>>
    requires schema.Obj?
  {
    if "$defs" in Names(schema.fields) && At(schema, "$defs").Obj? then Some(At(schema, "$defs").fields) else None
  }

  lemma DefinitionsAgree(schema: Json)
    requires schema.Obj?
    ensures PassageDefinitions(schema).Ok? && HasAdmissibleRoot(schema)
            <==> RootFits(schema) && ("$defs" in Names(schema.fields) ==> Passages(At(schema, "$defs")))
    ensures PassageDefinitions(schema).Ok? ==> PassageDefinitions(schema).value == PassagesOf(schema)
  {
    RootsAgree(schema);
    if "$defs" in Names(schema.fields) { PassagesAgree(At(schema, "$defs")); }
  }

  /** A response schema is admitted exactly when it can be written in at most 250000 bytes, has at most 20000 values nested
      at most 32 deep, a closed root, bounded passage definitions if any, only supported nodes, at most 16 references, and
      at most 32 passage values in any output. */
  lemma AdmissionDecides(schema: Json)
    requires schema.Obj?
    ensures Admitted(schema)
            <==> && Encode(schema, true).Some? && Utf8Length(Encode(schema, true).value) <= 250_000
                 && Nodes(schema) <= 20_000 && Depth(schema) <= 32 && RootFits(schema)
                 && ("$defs" in Names(schema.fields) ==> Passages(At(schema, "$defs")))
                 && Supported(RootSchema(schema), PassagesOf(schema), true, true)
                 && ReferenceNodes(RootSchema(schema), PassagesOf(schema)) <= 16
                 && OutputCost(RootSchema(schema), PassagesOf(schema)) <= 32
  {
    DefinitionsAgree(schema);
    BudgetAgrees(RootSchema(schema), PassagesOf(schema));
  }

  lemma RootsAgree(schema: Json)
    requires schema.Obj?
    ensures HasAdmissibleRoot(schema) <==> RootFits(schema)
  {
    ChoicesAgree(schema, true, true);
  }

  /** The bytes of a text in UTF-8: one, two, three or four for each character, by its code point. */
  lemma {:induction false} BytesAddUp(s: string, t: string)
    ensures Utf8Length(s + t) == Utf8Length(s) + Utf8Length(t)
  {
    if s == "" {
      assert s + t == t;
    } else {
      BytesAddUp(s[1..], t);
      assert (s + t)[1..] == s[1..] + t;
    }
  }

  lemma BytesOfOne(c: char)
    ensures Utf8Length([c]) == if c as int <= 127 then 1 else if c as int <= 2047 then 2 else if c as int <= 65535 then 3 else 4
  {
    assert [c][1..] == "";
  }
}
