/** The projection preserves meaning: a schema and its projection accept the same values. */
module DecoderMeaning {
  import opened Admissions
  import opened AdmittedSchemas
  import opened Budgets
  import opened DecoderLaws
  import opened DecoderSchemas
  import opened Json
  import opened Outcomes
  import opened SchemaPositions
  import opened Schemas

  /** The evaluator of the other keywords does not look at the order of fields in a schema. */
  ghost predicate IgnoresOrder(other: (Json, Json) -> bool) {
    forall s, t, v :: Permuted(s, t) ==> other(s, v) == other(t, v)
  }

  /** The same definitions, up to the order of fields. */
  ghost predicate SameDefinitions(d: Option<seq<Field>>, e: Option<seq<Field>>) {
    && (d.None? <==> e.None?)
    && (d.Some? ==> Permuted(Obj(d.value), Obj(e.value)))
  }

  lemma PermutedKeyword(s: Json, t: Json, key: string)
    requires s.Obj? && t.Obj? && Permuted(s, t)
    ensures Has(s.fields, key) <==> Has(t.fields, key)
    ensures Has(s.fields, key) ==> Permuted(Get(s.fields, key), Get(t.fields, key))
    ensures Permuted(Keyword(s, key), Keyword(t, key))
  {
  }

  lemma PlainKeywords(s: Json, t: Json, value: Json)
    requires s.Obj? && t.Obj? && Permuted(s, t)
    ensures HasType(Keyword(s, "type"), value) <==> HasType(Keyword(t, "type"), value)
    ensures MaxItemsAccepts(s, value) <==> MaxItemsAccepts(t, value)
  {
    PermutedKeyword(s, t, "type");
    PermutedKeyword(s, t, "maxItems");
  }

  lemma NothingElse(fs: seq<Field>, gs: seq<Field>, name: string)
    requires SameNames(fs, gs)
    ensures (forall n :: n in Names(fs) ==> n == name) <==> (forall n :: n in Names(gs) ==> n == name)
  {
    assert forall n :: n in Names(fs) <==> Has(fs, n);
    assert forall n :: n in Names(gs) <==> Has(gs, n);
    if forall n :: n in Names(fs) ==> n == name {
      forall n | n in Names(gs) ensures n == name { assert Has(fs, n); }
    }
    if forall n :: n in Names(gs) ==> n == name {
      forall n | n in Names(fs) ensures n == name { assert Has(gs, n); }
    }
  }

  /** Which definition a reference selects, and what it accepts. */
  lemma ReferencesAgree(s: Json, t: Json, d: Option<seq<Field>>, e: Option<seq<Field>>, value: Json)
    requires s.Obj? && t.Obj? && Permuted(s, t) && SameDefinitions(d, e) && IsReference(s, d)
    ensures IsReference(t, e)
    ensures OwnedReference(s, d.value) <==> OwnedReference(t, e.value)
    ensures OwnedReference(s, d.value) ==>
              (LeafAccepts(Definition(s, d), value) <==> LeafAccepts(Definition(t, e), value))
  {
    PermutedKeyword(s, t, "$ref");
    NothingElse(s.fields, t.fields, "$ref");
    if OwnedReference(s, d.value) {
      var name := Get(s.fields, "$ref").text[|REF_PREFIX|..];
      assert Permuted(Get(d.value, name), Get(e.value, name));
      LeavesAgree(Get(d.value, name), Get(e.value, name), value);
    }
  }

  lemma LeavesAgree(a: Json, b: Json, value: Json)
    requires Permuted(a, b)
    ensures LeafAccepts(a, value) <==> LeafAccepts(b, value)
  {
    if a.Obj? && value.Str? {
      PermutedKeyword(a, b, "enum");
      var us, vs := Keyword(a, "enum"), Keyword(b, "enum");
      if us.Arr? {
        assert forall i :: 0 <= i < |us.items| ==> Permuted(us.items[i], vs.items[i]);
        assert forall i :: 0 <= i < |us.items| ==> (us.items[i] == value <==> vs.items[i] == value);
      }
    }
  }

  // ---- Acceptance, by the names of properties ----

  ghost predicate AcceptsProperties(ps: seq<Field>, d: Option<seq<Field>>, other: (Json, Json) -> bool, value: Json) {
    value.Obj? ==> forall n :: Has(ps, n) && Has(value.fields, n) ==> Accepts(Get(ps, n), d, other, Get(value.fields, n))
  }

  ghost predicate AcceptsItems(items: seq<Json>, d: Option<seq<Field>>, other: (Json, Json) -> bool, value: Json) {
    value.Arr? ==>
      forall i, j :: 0 <= i < |items| && 0 <= j < |value.items| ==> Accepts(items[i], d, other, value.items[j])
  }

  ghost predicate AcceptsSome(vs: seq<Json>, d: Option<seq<Field>>, other: (Json, Json) -> bool, value: Json) {
    vs != [] ==> exists i :: 0 <= i < |vs| && Accepts(vs[i], d, other, value)
  }

  lemma AcceptsByParts(s: Json, d: Option<seq<Field>>, other: (Json, Json) -> bool, value: Json)
    requires s.Obj? && Wf(s) && !IsReference(s, d)
    ensures Accepts(s, d, other, value) <==>
              && other(s, value) && HasType(Keyword(s, "type"), value) && MaxItemsAccepts(s, value)
              && AcceptsProperties(Properties(s), d, other, value)
              && AcceptsItems(ItemsKeyword(s), d, other, value)
              && AcceptsSome(Alternatives(s), d, other, value)
  {
    PropertiesByName(Properties(s), d, other, value, s);
  }

  lemma PropertiesByName(ps: seq<Field>, d: Option<seq<Field>>, other: (Json, Json) -> bool, value: Json, s: Json)
    requires s.Obj? && Wf(s) && ps == Properties(s)
    ensures AcceptsProperties(ps, d, other, value) <==>
              (value.Obj? ==>
                 forall i :: 0 <= i < |ps| && Has(value.fields, ps[i].name) ==>
                   Accepts(ps[i].value, d, other, Get(value.fields, ps[i].name)))
  {
    forall i | 0 <= i < |ps| ensures Has(ps, ps[i].name) && Get(ps, ps[i].name) == ps[i].value { GetAt(ps, i); }
  }

  /** Schemas that differ in the order of fields alone accept the same values. */
  lemma {:induction false} OrderDoesNotMatter(s: Json, t: Json, d: Option<seq<Field>>, e: Option<seq<Field>>,
                                              other: (Json, Json) -> bool, value: Json)
    requires Wf(s) && Wf(t) && Permuted(s, t) && SameDefinitions(d, e) && IgnoresOrder(other)
    ensures Accepts(s, d, other, value) <==> Accepts(t, e, other, value)
    decreases s, 1
  {
    if s.Obj? {
      PermutedKeyword(s, t, "$ref");
      if IsReference(s, d) {
        ReferencesAgree(s, t, d, e, value);
      } else {
        PlainKeywords(s, t, value);
        PropertiesAgree(s, t, d, e, other, value);
        ItemsAgree(s, t, d, e, other, value);
        AlternativesAgree(s, t, d, e, other, value);
        AcceptsByParts(s, d, other, value);
        AcceptsByParts(t, e, other, value);
      }
    }
  }

  lemma {:induction false} PropertiesAgree(s: Json, t: Json, d: Option<seq<Field>>, e: Option<seq<Field>>,
                                           other: (Json, Json) -> bool, value: Json)
    requires s.Obj? && t.Obj? && Wf(s) && Wf(t) && Permuted(s, t) && SameDefinitions(d, e) && IgnoresOrder(other)
    ensures AcceptsProperties(Properties(s), d, other, value) <==> AcceptsProperties(Properties(t), e, other, value)
    decreases s, 0
  {
    PermutedKeyword(s, t, "properties");
    var ps, qs := Properties(s), Properties(t);
    PropertiesAreWf(s);
    PropertiesAreWf(t);
    assert Permuted(Obj(ps), Obj(qs));
    if value.Obj? {
      forall n | Has(ps, n) && Has(value.fields, n)
        ensures Accepts(Get(ps, n), d, other, Get(value.fields, n)) <==> Accepts(Get(qs, n), e, other, Get(value.fields, n))
      {
        GetIsWf(ps, n);
        GetIsWf(qs, n);
        OrderDoesNotMatter(Get(ps, n), Get(qs, n), d, e, other, Get(value.fields, n));
      }
    }
  }

  lemma PropertiesAreWf(s: Json)
    requires s.Obj? && Wf(s)
    ensures Wf(Obj(Properties(s)))
  {
    if Has(s.fields, "properties") { GetIsWf(s.fields, "properties"); }
  }

  lemma {:induction false} ItemsAgree(s: Json, t: Json, d: Option<seq<Field>>, e: Option<seq<Field>>,
                                      other: (Json, Json) -> bool, value: Json)
    requires s.Obj? && t.Obj? && Wf(s) && Wf(t) && Permuted(s, t) && SameDefinitions(d, e) && IgnoresOrder(other)
    ensures AcceptsItems(ItemsKeyword(s), d, other, value) <==> AcceptsItems(ItemsKeyword(t), e, other, value)
    decreases s, 0
  {
    PermutedKeyword(s, t, "items");
    var xs, ys := ItemsKeyword(s), ItemsKeyword(t);
    if xs != [] && value.Arr? {
      GetIsWf(s.fields, "items");
      GetIsWf(t.fields, "items");
      forall j | 0 <= j < |value.items|
        ensures Accepts(xs[0], d, other, value.items[j]) <==> Accepts(ys[0], e, other, value.items[j])
      {
        OrderDoesNotMatter(xs[0], ys[0], d, e, other, value.items[j]);
      }
    }
  }

  lemma {:induction false} AlternativesAgree(s: Json, t: Json, d: Option<seq<Field>>, e: Option<seq<Field>>,
                                             other: (Json, Json) -> bool, value: Json)
    requires s.Obj? && t.Obj? && Wf(s) && Wf(t) && Permuted(s, t) && SameDefinitions(d, e) && IgnoresOrder(other)
    ensures AcceptsSome(Alternatives(s), d, other, value) <==> AcceptsSome(Alternatives(t), e, other, value)
    decreases s, 0
  {
    PermutedKeyword(s, t, "anyOf");
    var us, vs := Alternatives(s), Alternatives(t);
    assert |us| == |vs|;
    if us != [] {
      GetIsWf(s.fields, "anyOf");
      GetIsWf(t.fields, "anyOf");
      forall i | 0 <= i < |us| ensures Accepts(us[i], d, other, value) <==> Accepts(vs[i], e, other, value) {
        OrderDoesNotMatter(us[i], vs[i], d, e, other, value);
      }
    }
  }

  /** The definitions of a schema as its evaluator sees them. */
  function DefinitionsOf(schema: Json): Option<seq<Field>>
    requires schema.Obj?
  {
    if Has(schema.fields, "$defs") && Get(schema.fields, "$defs").Obj? then Some(Get(schema.fields, "$defs").fields)
    else None
  }

  lemma PermutedRoots(s: Json, t: Json)
    requires s.Obj? && t.Obj? && Wf(s) && Wf(t) && Permuted(s, t)
    ensures Wf(RootSchema(s)) && Wf(RootSchema(t)) && Permuted(RootSchema(s), RootSchema(t))
    ensures SameDefinitions(DefinitionsOf(s), DefinitionsOf(t))
  {
    PermutedKeyword(s, t, "$defs");
    RootIsWf(s);
    RootIsWf(t);
    var a, b := RootSchema(s).fields, RootSchema(t).fields;
    NotWithin(s.fields, "$defs");
    NotWithin(t.fields, "$defs");
    forall n ensures Has(a, n) <==> Has(b, n) {
      if n != "$defs" {
        SameKeyword(s, n);
        SameKeyword(t, n);
      }
    }
    forall n | Has(a, n) ensures Permuted(Get(a, n), Get(b, n)) {
      SameKeyword(s, n);
      SameKeyword(t, n);
      PermutedKeyword(s, t, n);
    }
  }

  lemma RootIsWf(s: Json)
    requires s.Obj? && Wf(s)
    ensures Wf(RootSchema(s))
  {
    WithoutIsDistinct(s.fields, "$defs");
    var fs := RootSchema(s).fields;
    forall i | 0 <= i < |fs| ensures Wf(fs[i].value) {
      assert fs[i] in fs && fs[i] in s.fields;
    }
  }

  /** A schema and its projection accept the same values, with the definitions that each carries. */
  lemma ProjectionKeepsMeaning(schema: Json, other: (Json, Json) -> bool, value: Json)
    requires Wf(schema) && Schematic(schema) && IgnoresOrder(other)
    ensures OrderedNode(schema).Obj?
    ensures var ordered := OrderedNode(schema);
            Accepts(RootSchema(ordered), DefinitionsOf(ordered), other, value)
            <==> Accepts(RootSchema(schema), DefinitionsOf(schema), other, value)
  {
    NodePermuted(schema);
    PermutedRoots(OrderedNode(schema), schema);
    OrderDoesNotMatter(RootSchema(OrderedNode(schema)), RootSchema(schema), DefinitionsOf(OrderedNode(schema)),
                       DefinitionsOf(schema), other, value);
  }
}
