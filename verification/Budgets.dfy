/** The passage budget: no output that an admitted schema accepts matches more references than the validator counts. */
module Budgets {
  import opened Admissions
  import opened Decimals
  import opened Json
  import opened Outcomes
  import opened SchemaPositions
  import opened Schemas
  import opened Sums

  // ---- What a schema accepts: type, properties, items, maxItems, anyOf and $ref ----

  /** The "type" keyword. */
  predicate HasType(t: Json, value: Json) {
    match t
    case Str("array") => value.Arr?
    case Str("object") => value.Obj?
    case Str("string") => value.Str?
    case Str("boolean") => value.Bool?
    case Str("null") => value.Null?
    case Str("number") => Numeric(value)
    case Str("integer") => Numeric(value) && Canon(Numeral(value)).exponent >= 0
    case _ => true
  }

  /** The "items" keyword, whatever the type keyword says. */
  function ItemsKeyword(schema: Json): (vs: seq<Json>)
    requires schema.Obj?
    ensures |vs| <= 1 && forall i :: 0 <= i < |vs| ==> vs[i] < schema
  {
    if Has(schema.fields, "items") && Get(schema.fields, "items").Obj? then [Get(schema.fields, "items")] else []
  }

  predicate MaxItemsAccepts(schema: Json, value: Json)
    requires schema.Obj?
  {
    value.Arr? && Keyword(schema, "maxItems").Integer? ==> |value.items| <= Keyword(schema, "maxItems").value
  }

  function Definition(schema: Json, definitions: Option<seq<Field>>): Json
    requires schema.Obj? && IsReference(schema, definitions) && OwnedReference(schema, definitions.value)
  {
    Get(definitions.value, Get(schema.fields, "$ref").text[|REF_PREFIX|..])
  }

  /** A passage definition accepts the strings of its enumeration. */
  predicate LeafAccepts(leaf: Json, value: Json) {
    leaf.Obj? && value.Str? && Keyword(leaf, "enum").Arr? && value in Keyword(leaf, "enum").items
  }

  /** Whether a schema accepts a value. The parameter stands for every other keyword: it may refuse anything. */
  ghost predicate Accepts(schema: Json, definitions: Option<seq<Field>>, other: (Json, Json) -> bool, value: Json)
    decreases schema
  {
    schema.Obj? ==>
      if IsReference(schema, definitions) then
        OwnedReference(schema, definitions.value) && LeafAccepts(Definition(schema, definitions), value)
      else
        var ps, items, vs := Properties(schema), ItemsKeyword(schema), Alternatives(schema);
        && other(schema, value) && HasType(Keyword(schema, "type"), value) && MaxItemsAccepts(schema, value)
        && (value.Obj? ==>
              forall i :: 0 <= i < |ps| && Has(value.fields, ps[i].name) ==>
                Accepts(ps[i].value, definitions, other, Get(value.fields, ps[i].name)))
        && (value.Arr? ==>
              forall i, j :: 0 <= i < |items| && 0 <= j < |value.items| ==>
                Accepts(items[i], definitions, other, value.items[j]))
        && (vs != [] ==> exists i :: 0 <= i < |vs| && Accepts(vs[i], definitions, other, value))
  }

  // ---- Counting matches ----

  /** A step from a schema and a value to a subschema and the value it applies to. */
  datatype Step = Property(index: nat) | Item(position: nat) | Branch(choice: nat)

  /** One value against one schema at one place; a place lets the alternatives be chosen independently. */
  datatype Context = Context(definitions: Option<seq<Field>>, other: (Json, Json) -> bool, choose: seq<Step> -> nat)

  ghost predicate Chosen(c: Context, vs: seq<Json>, value: Json, path: seq<Step>) {
    c.choose(path) < |vs| && Accepts(vs[c.choose(path)], c.definitions, c.other, value)
  }

  /** How many pairs of a position in the value and a reference match, when at each anyOf one satisfied
      alternative is followed. */
  ghost function Matches(schema: Json, c: Context, value: Json, path: seq<Step>): nat
    decreases schema
  {
    if !schema.Obj? then 0
    else if IsReference(schema, c.definitions) then 1
    else
      var ps, items, vs := Properties(schema), ItemsKeyword(schema), Alternatives(schema);
      (if value.Obj? then
         Sum(seq(|ps|, i requires 0 <= i < |ps| =>
           if Has(value.fields, ps[i].name)
           then Matches(ps[i].value, c, Get(value.fields, ps[i].name), path + [Property(i)]) else 0))
       else 0)
      + (if value.Arr? && items != [] then
           Sum(seq(|value.items|, j requires 0 <= j < |value.items| =>
             Matches(items[0], c, value.items[j], path + [Item(j)])))
         else 0)
      + (if Chosen(c, vs, value, path)
         then Matches(vs[c.choose(path)], c, value, path + [Branch(c.choose(path))]) else 0)
  }

  lemma ItemsAreTheSame(schema: Json)
    requires schema.Obj? && ArrayKeywordsOk(schema)
    ensures ItemsKeyword(schema) == ItemSchemas(schema)
  {
  }

  lemma PartsAreSupported(schema: Json, definitions: Option<seq<Field>>, nullable: bool, root: bool)
    requires schema.Obj? && !IsReference(schema, definitions) && Analyse(schema, definitions, nullable, root).supported
    ensures KeywordsOk(schema, nullable, root) && ItemsKeyword(schema) == ItemSchemas(schema)
    ensures forall i :: 0 <= i < |Properties(schema)| ==>
              Analyse(Properties(schema)[i].value, definitions, nullable, false).supported
    ensures forall i :: 0 <= i < |ItemSchemas(schema)| ==>
              Analyse(ItemSchemas(schema)[i], definitions, nullable, false).supported
    ensures forall i :: 0 <= i < |Alternatives(schema)| ==>
              Analyse(Alternatives(schema)[i], definitions, TakenAsRootChoice(schema, root), false).supported
  {
    AnalysedByParts(schema, definitions, nullable, root);
    var p := PartsOf(schema, definitions, nullable, root);
    forall i | 0 <= i < |Properties(schema)|
      ensures Analyse(Properties(schema)[i].value, definitions, nullable, false).supported
    {
      assert p.properties[i].supported;
    }
    forall i | 0 <= i < |ItemSchemas(schema)|
      ensures Analyse(ItemSchemas(schema)[i], definitions, nullable, false).supported
    {
      assert p.items[i].supported;
    }
    forall i | 0 <= i < |Alternatives(schema)|
      ensures Analyse(Alternatives(schema)[i], definitions, TakenAsRootChoice(schema, root), false).supported
    {
      assert p.branches[i].supported;
    }
    ItemsAreTheSame(schema);
  }

  /** Every accepted value stays within the cost the validator computes. */
  lemma {:induction false} MatchesWithinCost(schema: Json, c: Context, nullable: bool, root: bool, value: Json, path: seq<Step>)
    requires Analyse(schema, c.definitions, nullable, root).supported
    requires Accepts(schema, c.definitions, c.other, value)
    ensures Matches(schema, c, value, path) <= Analyse(schema, c.definitions, nullable, root).cost
    decreases schema, 1
  {
    if !IsReference(schema, c.definitions) {
      PartsAreSupported(schema, c.definitions, nullable, root);
      AnalysedByParts(schema, c.definitions, nullable, root);
      PropertiesWithinCost(schema, c, nullable, value, path);
      ItemsWithinCost(schema, c, nullable, value, path);
      BranchWithinCost(schema, c, TakenAsRootChoice(schema, root), value, path);
      MatchesByParts(schema, c, value, path);
    }
  }

  ghost function PropertyMatches(schema: Json, c: Context, value: Json, path: seq<Step>): nat
    requires schema.Obj?
  {
    var ps := Properties(schema);
    if value.Obj? then
      Sum(seq(|ps|, i requires 0 <= i < |ps| =>
        if Has(value.fields, ps[i].name)
        then Matches(ps[i].value, c, Get(value.fields, ps[i].name), path + [Property(i)]) else 0))
    else 0
  }

  ghost function ItemMatches(schema: Json, c: Context, value: Json, path: seq<Step>): nat
    requires schema.Obj?
  {
    var items := ItemsKeyword(schema);
    if value.Arr? && items != [] then
      Sum(seq(|value.items|, j requires 0 <= j < |value.items| =>
        Matches(items[0], c, value.items[j], path + [Item(j)])))
    else 0
  }

  ghost function BranchMatches(schema: Json, c: Context, value: Json, path: seq<Step>): nat
    requires schema.Obj?
  {
    var vs := Alternatives(schema);
    if Chosen(c, vs, value, path)
    then Matches(vs[c.choose(path)], c, value, path + [Branch(c.choose(path))]) else 0
  }

  lemma MatchesByParts(schema: Json, c: Context, value: Json, path: seq<Step>)
    requires schema.Obj? && !IsReference(schema, c.definitions)
    ensures Matches(schema, c, value, path)
            == PropertyMatches(schema, c, value, path) + ItemMatches(schema, c, value, path)
               + BranchMatches(schema, c, value, path)
  {
  }

  lemma {:induction false} PropertiesWithinCost(schema: Json, c: Context, nullable: bool, value: Json, path: seq<Step>)
    requires schema.Obj? && !IsReference(schema, c.definitions)
    requires forall i :: 0 <= i < |Properties(schema)| ==>
               Analyse(Properties(schema)[i].value, c.definitions, nullable, false).supported
    requires Accepts(schema, c.definitions, c.other, value)
    ensures PropertyMatches(schema, c, value, path)
            <= Sum(Costs(AnalyseAll(PropertySchemas(schema), c.definitions, nullable)))
    decreases schema, 0
  {
    var ps := Properties(schema);
    var costs := Costs(AnalyseAll(PropertySchemas(schema), c.definitions, nullable));
    if value.Obj? {
      var counts := seq(|ps|, i requires 0 <= i < |ps| =>
        if Has(value.fields, ps[i].name)
        then Matches(ps[i].value, c, Get(value.fields, ps[i].name), path + [Property(i)]) else 0);
      forall i | 0 <= i < |ps| ensures counts[i] <= costs[i] {
        if Has(value.fields, ps[i].name) {
          MatchesWithinCost(ps[i].value, c, nullable, false, Get(value.fields, ps[i].name), path + [Property(i)]);
        }
      }
      SumGrows(counts, costs);
    }
  }

  lemma ItemsAreAccepted(schema: Json, c: Context, value: Json)
    requires schema.Obj? && !IsReference(schema, c.definitions) && ArrayKeywordsOk(schema)
    requires value.Arr? && ItemsKeyword(schema) == ItemSchemas(schema) != []
    requires Accepts(schema, c.definitions, c.other, value)
    ensures |value.items| <= MaxItems(schema)
    ensures forall j :: 0 <= j < |value.items| ==>
              Accepts(ItemSchemas(schema)[0], c.definitions, c.other, value.items[j])
  {
  }

  lemma {:induction false} ItemsWithinCost(schema: Json, c: Context, nullable: bool, value: Json, path: seq<Step>)
    requires schema.Obj? && !IsReference(schema, c.definitions) && ArrayKeywordsOk(schema)
    requires ItemsKeyword(schema) == ItemSchemas(schema)
    requires forall i :: 0 <= i < |ItemSchemas(schema)| ==>
               Analyse(ItemSchemas(schema)[i], c.definitions, nullable, false).supported
    requires Accepts(schema, c.definitions, c.other, value)
    ensures ItemMatches(schema, c, value, path)
            <= Product(MaxItems(schema), Sum(Costs(AnalyseAll(ItemSchemas(schema), c.definitions, nullable))))
    decreases schema, 0
  {
    var items := ItemSchemas(schema);
    if value.Arr? && items != [] {
      var cost := Analyse(items[0], c.definitions, nullable, false).cost;
      var counts := seq(|value.items|, j requires 0 <= j < |value.items| =>
        Matches(items[0], c, value.items[j], path + [Item(j)]));
      ItemsAreAccepted(schema, c, value);
      forall j | 0 <= j < |value.items| ensures counts[j] <= cost {
        MatchesWithinCost(items[0], c, nullable, false, value.items[j], path + [Item(j)]);
      }
      SumIsBounded(counts, MaxItems(schema), cost);
      var costs := Costs(AnalyseAll(items, c.definitions, nullable));
      assert costs == [cost];
      SumOfOne(cost);
    }
  }

  lemma {:induction false} BranchWithinCost(schema: Json, c: Context, nullable: bool, value: Json, path: seq<Step>)
    requires schema.Obj? && !IsReference(schema, c.definitions)
    requires forall i :: 0 <= i < |Alternatives(schema)| ==>
               Analyse(Alternatives(schema)[i], c.definitions, nullable, false).supported
    ensures BranchMatches(schema, c, value, path)
            <= Max(Costs(AnalyseAll(Alternatives(schema), c.definitions, nullable)))
    decreases schema, 0
  {
    var vs := Alternatives(schema);
    if Chosen(c, vs, value, path) {
      var k := c.choose(path);
      MatchesWithinCost(vs[k], c, nullable, false, value, path + [Branch(k)]);
      var costs := Costs(AnalyseAll(vs, c.definitions, nullable));
      MaxIsLargest(costs);
      assert costs[k] == Analyse(vs[k], c.definitions, nullable, false).cost;
    }
  }

  // ---- Counting references ----

  /** How many nodes hold a passage reference, over all the nodes that lie at schema positions. */
  function ReferenceNodes(schema: Json, definitions: Option<seq<Field>>): nat
    decreases schema
  {
    if !schema.Obj? then 0
    else if IsReference(schema, definitions) then 1
    else
      var vs := Positions(schema);
      Sum(seq(|vs|, i requires 0 <= i < |vs| => ReferenceNodes(vs[i], definitions)))
  }

  function ReferencesIn(vs: seq<Json>, definitions: Option<seq<Field>>): (ns: seq<nat>)
    ensures |ns| == |vs|
  {
    seq(|vs|, i requires 0 <= i < |vs| => ReferenceNodes(vs[i], definitions))
  }

  lemma ReferencesByParts(schema: Json, definitions: Option<seq<Field>>)
    requires schema.Obj? && !IsReference(schema, definitions)
    ensures ReferenceNodes(schema, definitions)
            == Sum(ReferencesIn(PropertySchemas(schema), definitions)) + Sum(ReferencesIn(ItemPosition(schema), definitions))
               + Sum(ReferencesIn(Alternatives(schema), definitions))
  {
    var ps, items, vs := PropertySchemas(schema), ItemPosition(schema), Alternatives(schema);
    ReferencesOfNode(schema, definitions);
    ReferencesOfBoth(ps + items, vs, definitions);
    ReferencesOfBoth(ps, items, definitions);
  }

  lemma ReferencesOfNode(schema: Json, definitions: Option<seq<Field>>)
    requires schema.Obj? && !IsReference(schema, definitions)
    ensures ReferenceNodes(schema, definitions) == Sum(ReferencesIn(Positions(schema), definitions))
  {
    var vs := Positions(schema);
    assert seq(|vs|, i requires 0 <= i < |vs| => ReferenceNodes(vs[i], definitions)) == ReferencesIn(vs, definitions);
  }

  lemma ReferencesOfBoth(a: seq<Json>, b: seq<Json>, definitions: Option<seq<Field>>)
    ensures Sum(ReferencesIn(a + b, definitions)) == Sum(ReferencesIn(a, definitions)) + Sum(ReferencesIn(b, definitions))
  {
    assert ReferencesIn(a + b, definitions) == ReferencesIn(a, definitions) + ReferencesIn(b, definitions);
    SumOfAppended(ReferencesIn(a, definitions), ReferencesIn(b, definitions));
  }

  lemma ItemReferences(schema: Json, definitions: Option<seq<Field>>)
    requires schema.Obj? && ArrayKeywordsOk(schema)
    ensures Sum(ReferencesIn(ItemPosition(schema), definitions)) == Sum(ReferencesIn(ItemSchemas(schema), definitions))
  {
    if ItemPosition(schema) != ItemSchemas(schema) {
      assert ItemPosition(schema) == [Null] && ItemSchemas(schema) == [];
      assert ReferencesIn([Null], definitions) == [0];
      SumOfOne(0);
    }
  }

  /** The validator's counter is the number of references in the schema. */
  lemma {:induction false} ReferencesAreCounted(schema: Json, definitions: Option<seq<Field>>, nullable: bool, root: bool)
    requires Analyse(schema, definitions, nullable, root).supported
    ensures Analyse(schema, definitions, nullable, root).references == ReferenceNodes(schema, definitions)
    decreases schema, 1
  {
    if !IsReference(schema, definitions) {
      PartsAreSupported(schema, definitions, nullable, root);
      AnalysedByParts(schema, definitions, nullable, root);
      ReferencesByParts(schema, definitions);
      ItemReferences(schema, definitions);
      var choice := TakenAsRootChoice(schema, root);
      CountsAreReferences(schema, PropertySchemas(schema), definitions, nullable);
      CountsAreReferences(schema, ItemSchemas(schema), definitions, nullable);
      CountsAreReferences(schema, Alternatives(schema), definitions, choice);
    }
  }

  lemma {:induction false} CountsAreReferences(parent: Json, vs: seq<Json>, definitions: Option<seq<Field>>, nullable: bool)
    requires forall i :: 0 <= i < |vs| ==> vs[i] < parent && Analyse(vs[i], definitions, nullable, false).supported
    ensures ReferenceCounts(AnalyseAll(vs, definitions, nullable)) == ReferencesIn(vs, definitions)
    decreases parent, 0
  {
    forall i | 0 <= i < |vs|
      ensures ReferenceCounts(AnalyseAll(vs, definitions, nullable))[i] == ReferencesIn(vs, definitions)[i]
    {
      ReferencesAreCounted(vs[i], definitions, nullable, false);
    }
  }

  /** The budget: whatever an admitted schema accepts, and whichever satisfied alternatives are followed, at most
      32 pairs of a position and a passage reference match, from at most 16 references in the schema. */
  lemma AdmittedSchemasStayWithinBudget(schema: Json, c: Context, value: Json, path: seq<Step>)
    requires Admitted(schema) && c.definitions == PassageDefinitions(schema).value
    requires Accepts(RootSchema(schema), c.definitions, c.other, value)
    ensures Matches(RootSchema(schema), c, value, path) <= MAX_PASSAGE_VALUES
    ensures ReferenceNodes(RootSchema(schema), c.definitions) <= MAX_PASSAGE_REFERENCES
  {
    MatchesWithinCost(RootSchema(schema), c, true, true, value, path);
    ReferencesAreCounted(RootSchema(schema), c.definitions, true, true);
  }
}
