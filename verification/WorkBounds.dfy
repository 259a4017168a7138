/** The work of checking a value against an admitted schema: never exponential, because nullable unions do not nest. */
module WorkBounds {
  import opened Budgets
  import opened Json
  import opened JsonShapes
  import opened Outcomes
  import opened Schemas
  import opened Sums

  /** How many schema nodes an evaluator visits that tries every branch; a reference and its leaf count as one. */
  function Visits(schema: Json, definitions: Option<seq<Field>>, value: Json): nat
    decreases schema
  {
    if !schema.Obj? || IsReference(schema, definitions) then 1
    else
      var ps, items, vs := Properties(schema), ItemsKeyword(schema), Alternatives(schema);
      1
      + (if value.Obj? then
           Sum(seq(|ps|, i requires 0 <= i < |ps| =>
             if Has(value.fields, ps[i].name) then Visits(ps[i].value, definitions, Get(value.fields, ps[i].name)) else 0))
         else 0)
      + (if value.Arr? && items != [] then
           Sum(seq(|value.items|, j requires 0 <= j < |value.items| => Visits(items[0], definitions, value.items[j])))
         else 0)
      + Sum(seq(|vs|, i requires 0 <= i < |vs| => Visits(vs[i], definitions, value)))
  }

  function ChildVisits(schema: Json, definitions: Option<seq<Field>>, value: Json): nat
    requires schema.Obj?
  {
    var ps, items := Properties(schema), ItemsKeyword(schema);
    (if value.Obj? then
       Sum(seq(|ps|, i requires 0 <= i < |ps| =>
         if Has(value.fields, ps[i].name) then Visits(ps[i].value, definitions, Get(value.fields, ps[i].name)) else 0))
     else 0)
    + (if value.Arr? && items != [] then
         Sum(seq(|value.items|, j requires 0 <= j < |value.items| => Visits(items[0], definitions, value.items[j])))
       else 0)
  }

  function BranchVisits(schema: Json, definitions: Option<seq<Field>>, value: Json): nat
    requires schema.Obj?
  {
    var vs := Alternatives(schema);
    Sum(seq(|vs|, i requires 0 <= i < |vs| => Visits(vs[i], definitions, value)))
  }

  lemma VisitsByParts(schema: Json, definitions: Option<seq<Field>>, value: Json)
    requires schema.Obj? && !IsReference(schema, definitions)
    ensures Visits(schema, definitions, value)
            == 1 + ChildVisits(schema, definitions, value) + BranchVisits(schema, definitions, value)
  {
  }

  function Weights(w: Json -> nat, vs: seq<Json>): (ns: seq<nat>)
    ensures |ns| == |vs|
  {
    seq(|vs|, i requires 0 <= i < |vs| => w(vs[i]))
  }

  /** If the work on each child stays within its weight, the work on all of them stays within the sum. */
  lemma ChildrenWithin(schema: Json, definitions: Option<seq<Field>>, value: Json, w: Json -> nat)
    requires schema.Obj? && Wf(schema)
    requires value.Obj? ==>
               forall i :: 0 <= i < |Properties(schema)| && Has(value.fields, Properties(schema)[i].name) ==>
                 Visits(Properties(schema)[i].value, definitions, Get(value.fields, Properties(schema)[i].name))
                 <= w(Get(value.fields, Properties(schema)[i].name))
    requires value.Arr? ==>
               forall i, j :: 0 <= i < |ItemsKeyword(schema)| && 0 <= j < |value.items| ==>
                 Visits(ItemsKeyword(schema)[i], definitions, value.items[j]) <= w(value.items[j])
    ensures ChildVisits(schema, definitions, value) <= Sum(Weights(w, Children(value)))
  {
    var ps, items := Properties(schema), ItemsKeyword(schema);
    var amounts := Weights(w, Children(value));
    if value.Obj? {
      var visits := seq(|ps|, i requires 0 <= i < |ps| =>
        if Has(value.fields, ps[i].name) then Visits(ps[i].value, definitions, Get(value.fields, ps[i].name)) else 0);
      var places := seq(|ps|, i requires 0 <= i < |ps| =>
        if Has(value.fields, ps[i].name) then Find(value.fields, ps[i].name) else -1);
      PropertiesAreDistinct(schema);
      forall i, j | 0 <= i < j < |ps| && places[i] >= 0 ensures places[i] != places[j] {
        assert Names(ps)[i] != Names(ps)[j];
      }
      SumOfPicks(visits, places, amounts, |ps|);
    } else if value.Arr? && items != [] {
      var visits := seq(|value.items|, j requires 0 <= j < |value.items| => Visits(items[0], definitions, value.items[j]));
      SumGrows(visits, amounts);
    }
  }

  lemma PropertiesAreDistinct(schema: Json)
    requires schema.Obj? && Wf(schema)
    ensures Distinct(Names(Properties(schema)))
  {
  }

  // ---- The bound for one value ----

  /** The bound on the work for a value: its size times two more than its depth, products being those of
      Sums.ProductIsTimes. */
  function WorkUnit(value: Json): nat {
    Product(Nodes(value), Depth(value) + 2)
  }

  /** Amounts within size * (depth + 2), added up for values of a smaller depth. */
  lemma UnitsAddUp(amounts: seq<nat>, nodes: seq<nat>, depths: seq<nat>, depth: nat)
    requires |amounts| == |nodes| == |depths|
    requires forall i :: 0 <= i < |amounts| ==> amounts[i] <= Product(nodes[i], depths[i] + 2) && depths[i] < depth
    ensures Sum(amounts) <= Product(Sum(nodes), depth + 1)
  {
    var bounds := seq(|nodes|, i requires 0 <= i < |nodes| => Product(nodes[i], depth + 1));
    forall i | 0 <= i < |amounts| ensures amounts[i] <= bounds[i] {
      ProductGrows(nodes[i], depths[i] + 2, depth + 1);
    }
    SumGrows(amounts, bounds);
    SumOfProducts(nodes, bounds, depth + 1, |nodes|);
  }

  lemma OneMoreLevel(nodes: nat, depth: nat)
    requires nodes >= 1 && depth >= 1
    ensures 2 + nodes + Product(nodes - 1, depth + 1) <= Product(nodes, depth + 2)
  {
    ProductOfSum(nodes, depth + 1, 1);
    ProductIsTimes(nodes, 1);
  }

  /** Two visits for the position itself, one pass over the value for a union there, and the work on the children. */
  lemma UnitOfChildren(v: Json)
    ensures 2 + Nodes(v) + Sum(Weights(WorkUnit, Children(v))) <= WorkUnit(v)
  {
    var nodes, depth, unit := Nodes(v), Depth(v), WorkUnit(v);
    UnitOfChildrenAt(v, nodes, depth, unit, Weights(WorkUnit, Children(v)));
  }

  lemma UnitOfChildrenAt(v: Json, nodes: nat, depth: nat, unit: nat, units: seq<nat>)
    requires nodes == Nodes(v) && depth == Depth(v) && unit == WorkUnit(v) && units == Weights(WorkUnit, Children(v))
    ensures 2 + nodes + Sum(units) <= unit
  {
    var cs := Children(v);
    UnitOf(v, nodes, depth);
    Measures(v);
    WithinUnit(cs, units, Weights(Nodes, cs), Weights(Depth, cs), nodes, depth);
  }

  lemma WithinUnit(cs: seq<Json>, units: seq<nat>, counts: seq<nat>, depths: seq<nat>, nodes: nat, depth: nat)
    requires units == Weights(WorkUnit, cs) && counts == Weights(Nodes, cs) && depths == Weights(Depth, cs)
    requires nodes == 1 + Sum(counts) && depth >= 1 && forall i :: 0 <= i < |depths| ==> depths[i] < depth
    ensures 2 + nodes + Sum(units) <= Product(nodes, depth + 2)
  {
    UnitsOf(cs, units, counts, depths, depth);
    OneMoreLevel(nodes, depth);
  }

  lemma UnitOf(v: Json, nodes: nat, depth: nat)
    requires nodes == Nodes(v) && depth == Depth(v)
    ensures WorkUnit(v) == Product(nodes, depth + 2)
  {
  }

  lemma UnitsOf(cs: seq<Json>, units: seq<nat>, nodes: seq<nat>, depths: seq<nat>, depth: nat)
    requires units == Weights(WorkUnit, cs) && nodes == Weights(Nodes, cs) && depths == Weights(Depth, cs)
    requires forall i :: 0 <= i < |depths| ==> depths[i] < depth
    ensures Sum(units) <= Product(Sum(nodes), depth + 1)
  {
    forall i | 0 <= i < |cs| ensures units[i] == Product(nodes[i], depths[i] + 2) {
      UnitOf(cs[i], nodes[i], depths[i]);
    }
    UnitsAddUp(units, nodes, depths, depth);
  }

  lemma Measures(v: Json)
    ensures Nodes(v) == 1 + Sum(Weights(Nodes, Children(v)))
    ensures forall i :: 0 <= i < |Children(v)| ==> Weights(Depth, Children(v))[i] < Depth(v)
  {
    NodesOfChildren(v);
    DepthOfChildren(v, Depth(v));
    assert Weights(Nodes, Children(v)) == NodeCounts(Children(v));
  }

  // ---- Without unions, and with unions that do not nest ----

  lemma PartsAreWf(schema: Json)
    requires schema.Obj? && Wf(schema)
    ensures forall i :: 0 <= i < |Properties(schema)| ==> Wf(Properties(schema)[i].value)
    ensures forall i :: 0 <= i < |ItemsKeyword(schema)| ==> Wf(ItemsKeyword(schema)[i])
    ensures forall i :: 0 <= i < |Alternatives(schema)| ==> Wf(Alternatives(schema)[i])
  {
  }

  lemma PartsForWork(schema: Json, definitions: Option<seq<Field>>, nullable: bool, root: bool)
    requires schema.Obj? && Wf(schema) && !IsReference(schema, definitions)
    requires Analyse(schema, definitions, nullable, root).supported
    ensures forall i :: 0 <= i < |Properties(schema)| ==>
              Wf(Properties(schema)[i].value) && Analyse(Properties(schema)[i].value, definitions, nullable, false).supported
    ensures forall i :: 0 <= i < |ItemsKeyword(schema)| ==>
              Wf(ItemsKeyword(schema)[i]) && Analyse(ItemsKeyword(schema)[i], definitions, nullable, false).supported
    ensures forall i :: 0 <= i < |Alternatives(schema)| ==>
              Wf(Alternatives(schema)[i])
              && Analyse(Alternatives(schema)[i], definitions, TakenAsRootChoice(schema, root), false).supported
    ensures ChoiceOk(schema, nullable, root)
  {
    PartsAreSupported(schema, definitions, nullable, root);
    PartsAreWf(schema);
  }

  /** Where no union is allowed, each position of the value is visited at most once. */
  lemma {:induction false} VisitsWithoutUnions(schema: Json, definitions: Option<seq<Field>>, value: Json)
    requires Wf(schema) && Analyse(schema, definitions, false, false).supported
    ensures Visits(schema, definitions, value) <= Nodes(value)
    decreases schema
  {
    if !IsReference(schema, definitions) {
      PartsForWork(schema, definitions, false, false);
      var ps, items := Properties(schema), ItemsKeyword(schema);
      forall i | 0 <= i < |ps| && value.Obj? && Has(value.fields, ps[i].name)
        ensures Visits(ps[i].value, definitions, Get(value.fields, ps[i].name)) <= Nodes(Get(value.fields, ps[i].name))
      {
        VisitsWithoutUnions(ps[i].value, definitions, Get(value.fields, ps[i].name));
      }
      forall i, j | 0 <= i < |items| && value.Arr? && 0 <= j < |value.items|
        ensures Visits(items[i], definitions, value.items[j]) <= Nodes(value.items[j])
      {
        VisitsWithoutUnions(items[i], definitions, value.items[j]);
      }
      ChildrenWithin(schema, definitions, value, Nodes);
      VisitsByParts(schema, definitions, value);
      NoBranches(schema, definitions, value);
      NodesOfChildren(value);
      assert Weights(Nodes, Children(value)) == NodeCounts(Children(value));
    }
  }

  lemma NoBranches(schema: Json, definitions: Option<seq<Field>>, value: Json)
    requires schema.Obj? && ChoiceOk(schema, false, false)
    ensures BranchVisits(schema, definitions, value) == 0
  {
  }

  lemma NullSchemaVisits(definitions: Option<seq<Field>>, value: Json)
    ensures Visits(NULL_SCHEMA, definitions, value) == 1
  {
    var fs := NULL_SCHEMA.fields;
    assert Names(fs) == ["type"];
    assert !Has(fs, "$ref") && !Has(fs, "properties") && !Has(fs, "items") && !Has(fs, "anyOf");
    if !IsReference(NULL_SCHEMA, definitions) { VisitsByParts(NULL_SCHEMA, definitions, value); }
  }

  /** A nullable union visits its null branch once and its other branch without further unions. */
  lemma UnionVisits(schema: Json, definitions: Option<seq<Field>>, value: Json)
    requires schema.Obj? && ChoiceOk(schema, true, false)
    requires forall i :: 0 <= i < |Alternatives(schema)| ==>
               Visits(Alternatives(schema)[i], definitions, value) <= Nodes(value)
    ensures BranchVisits(schema, definitions, value) <= 1 + Nodes(value)
  {
    var vs := Alternatives(schema);
    if vs != [] {
      assert IsNullableUnion(schema);
      NullSchemaVisits(definitions, value);
      var visits := seq(|vs|, i requires 0 <= i < |vs| => Visits(vs[i], definitions, value));
      SumOfTwo(visits);
    }
  }

  lemma {:induction false} VisitsWithUnions(schema: Json, definitions: Option<seq<Field>>, value: Json)
    requires Wf(schema) && Analyse(schema, definitions, true, false).supported
    ensures Visits(schema, definitions, value) <= WorkUnit(value)
    decreases schema
  {
    if !IsReference(schema, definitions) {
      PartsForWork(schema, definitions, true, false);
      ChildVisitsWithUnions(schema, definitions, value);
      forall i | 0 <= i < |Alternatives(schema)|
        ensures Visits(Alternatives(schema)[i], definitions, value) <= Nodes(value)
      {
        VisitsWithoutUnions(Alternatives(schema)[i], definitions, value);
      }
      UnionVisits(schema, definitions, value);
      VisitsByParts(schema, definitions, value);
      UnitOfChildren(value);
    }
  }

  lemma {:induction false} ChildVisitsWithUnions(schema: Json, definitions: Option<seq<Field>>, value: Json)
    requires schema.Obj? && Wf(schema)
    requires forall i :: 0 <= i < |Properties(schema)| ==>
               Wf(Properties(schema)[i].value) && Analyse(Properties(schema)[i].value, definitions, true, false).supported
    requires forall i :: 0 <= i < |ItemsKeyword(schema)| ==>
               Wf(ItemsKeyword(schema)[i]) && Analyse(ItemsKeyword(schema)[i], definitions, true, false).supported
    ensures ChildVisits(schema, definitions, value) <= Sum(Weights(WorkUnit, Children(value)))
    decreases schema, 0
  {
    var ps, items := Properties(schema), ItemsKeyword(schema);
    forall i | 0 <= i < |ps| && value.Obj? && Has(value.fields, ps[i].name)
      ensures Visits(ps[i].value, definitions, Get(value.fields, ps[i].name)) <= WorkUnit(Get(value.fields, ps[i].name))
    {
      VisitsWithUnions(ps[i].value, definitions, Get(value.fields, ps[i].name));
    }
    forall i, j | 0 <= i < |items| && value.Arr? && 0 <= j < |value.items|
      ensures Visits(items[i], definitions, value.items[j]) <= WorkUnit(value.items[j])
    {
      VisitsWithUnions(items[i], definitions, value.items[j]);
    }
    ChildrenWithin(schema, definitions, value, WorkUnit);
  }

  /** How many choices a schema offers at its root: 1 without a root choice. */
  function RootChoices(schema: Json): nat
    requires schema.Obj?
  {
    if Alternatives(schema) != [] && TakenAsRootChoice(schema, true) then |Alternatives(schema)| else 1
  }

  /** Checking any value against a supported schema visits at most 1 + k * size * (depth + 2) schema nodes,
      for a schema with k root choices, at most 64. */
  lemma WorkIsBounded(schema: Json, definitions: Option<seq<Field>>, value: Json)
    requires Wf(schema) && Analyse(schema, definitions, true, true).supported
    ensures Visits(schema, definitions, value) <= 1 + Product(RootChoices(schema), WorkUnit(value))
    ensures 1 <= RootChoices(schema) <= MAX_SCHEMA_OBJECT_CHOICES
  {
    RootChoicesAreBounded(schema, definitions);
    WorkWithin(schema, definitions, value, WorkUnit(value));
  }

  lemma WorkWithin(schema: Json, definitions: Option<seq<Field>>, value: Json, bound: nat)
    requires Wf(schema) && Analyse(schema, definitions, true, true).supported && WorkUnit(value) <= bound
    ensures Visits(schema, definitions, value) <= 1 + Product(RootChoices(schema), bound)
  {
    if IsReference(schema, definitions) {
    } else if Alternatives(schema) != [] && TakenAsRootChoice(schema, true) {
      RootChoiceVisits(schema, definitions, value, bound);
    } else {
      SameWithoutRoot(schema, definitions);
      VisitsWithUnions(schema, definitions, value);
      ProductIsTimes(1, bound);
    }
  }

  lemma RootChoicesAreBounded(schema: Json, definitions: Option<seq<Field>>)
    requires Wf(schema) && Analyse(schema, definitions, true, true).supported
    ensures 1 <= RootChoices(schema) <= MAX_SCHEMA_OBJECT_CHOICES
  {
    if IsReference(schema, definitions) {
      assert !Has(schema.fields, "anyOf");
    } else {
      PartsForWork(schema, definitions, true, true);
    }
  }

  lemma SameWithoutRoot(schema: Json, definitions: Option<seq<Field>>)
    requires schema.Obj? && !IsReference(schema, definitions)
    requires Alternatives(schema) == [] || !TakenAsRootChoice(schema, true)
    requires Analyse(schema, definitions, true, true).supported
    ensures Analyse(schema, definitions, true, false).supported
  {
    AnalysedByParts(schema, definitions, true, true);
    AnalysedByParts(schema, definitions, true, false);
  }

  lemma EachChoiceVisits(schema: Json, definitions: Option<seq<Field>>, value: Json)
    requires Wf(schema) && Analyse(schema, definitions, true, true).supported
    requires !IsReference(schema, definitions) && TakenAsRootChoice(schema, true)
    ensures forall i :: 0 <= i < |Alternatives(schema)| ==>
              Visits(Alternatives(schema)[i], definitions, value) <= WorkUnit(value)
    ensures ChoiceOk(schema, true, true)
  {
    PartsForWork(schema, definitions, true, true);
    forall i | 0 <= i < |Alternatives(schema)|
      ensures Visits(Alternatives(schema)[i], definitions, value) <= WorkUnit(value)
    {
      VisitsWithUnions(Alternatives(schema)[i], definitions, value);
    }
  }

  lemma RootChoiceVisits(schema: Json, definitions: Option<seq<Field>>, value: Json, bound: nat)
    requires Wf(schema) && Analyse(schema, definitions, true, true).supported
    requires !IsReference(schema, definitions) && Alternatives(schema) != [] && TakenAsRootChoice(schema, true)
    requires WorkUnit(value) <= bound
    ensures Visits(schema, definitions, value) <= 1 + Product(|Alternatives(schema)|, bound)
  {
    EachChoiceVisits(schema, definitions, value);
    OnlyBranches(schema, definitions, value);
    BranchesWithin(schema, definitions, value, bound);
    VisitsByParts(schema, definitions, value);
  }

  lemma BranchesWithin(schema: Json, definitions: Option<seq<Field>>, value: Json, bound: nat)
    requires schema.Obj?
    requires forall i :: 0 <= i < |Alternatives(schema)| ==>
               Visits(Alternatives(schema)[i], definitions, value) <= bound
    ensures BranchVisits(schema, definitions, value) <= Product(|Alternatives(schema)|, bound)
  {
    var vs := Alternatives(schema);
    var visits := seq(|vs|, i requires 0 <= i < |vs| => Visits(vs[i], definitions, value));
    SumIsBounded(visits, |vs|, bound);
  }

  lemma OnlyBranches(schema: Json, definitions: Option<seq<Field>>, value: Json)
    requires schema.Obj? && IsBoundedRootObjectChoice(schema)
    ensures ChildVisits(schema, definitions, value) == 0
  {
    assert !Has(schema.fields, "properties") && !Has(schema.fields, "items");
  }
}
