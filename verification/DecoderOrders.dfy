/** The decoder order read off the keywords themselves: which task gets it, and where every name stands in it. */
module DecoderOrders {
  import opened DecoderLaws
  import opened DecoderSchemas
  import opened EquivSchemas
  import opened Json
  import opened KeyOrders
  import opened SchemaPositions
  import opened Schemas
  import opened Strings

  /** The name stands in the list, before the other one if that stands there at all. */
  ghost predicate ListedBefore(list: seq<Json>, a: string, b: string) {
    exists k :: 0 <= k < |list| && list[k] == Str(a) && forall l :: 0 <= l <= k ==> list[l] != Str(b)
  }

  /** The names listed as required come in the order of that list and before the others, which ascend. */
  ghost predicate InListedOrder(list: seq<Json>, names: seq<string>) {
    forall i, j :: 0 <= i < j < |names| ==>
      || ListedBefore(list, names[i], names[j])
      || (Str(names[i]) !in list && Str(names[j]) !in list && Before(names[i], names[j]))
  }

  /** What the schema lists as required. */
  function RequiredList(fields: seq<Field>): seq<Json> {
    if Has(fields, "required") && Get(fields, "required").Arr? then Get(fields, "required").items else []
  }

  /** A schema whose every node, through "properties", "$defs", "items" and "anyOf", has its keywords ascending, its
      properties in the order of its own required list, its definitions ascending, and its data sorted throughout. */
  ghost predicate Arranged(v: Json)
    decreases v, 1
  {
    v.Obj? ==> Ascending(Names(v.fields)) && forall i :: 0 <= i < |v.fields| ==> ArrangedKeyword(v, i)
  }

  ghost predicate ArrangedKeyword(v: Json, i: nat)
    requires v.Obj? && i < |v.fields|
    decreases v, 0
  {
    var name, w := v.fields[i].name, v.fields[i].value;
    if name == "properties" then
      w.Obj? ==> InListedOrder(RequiredList(v.fields), Names(w.fields)) && forall j :: 0 <= j < |w.fields| ==> Arranged(w.fields[j].value)
    else if name == "$defs" then
      w.Obj? ==> Ascending(Names(w.fields)) && forall j :: 0 <= j < |w.fields| ==> Arranged(w.fields[j].value)
    else if name == "items" then Arranged(w)
    else if name == "anyOf" then w.Arr? ==> forall j :: 0 <= j < |w.items| ==> Arranged(w.items[j])
    else DeepSorted(w)
  }

  lemma {:induction false} FirstIndexIsFirst(ns: seq<string>, x: string, l: nat)
    requires l < |ns| && ns[l] == x
    ensures FirstIndex(ns, x) <= l
    decreases |ns|
  {
    if l < |ns| - 1 { FirstIndexIsFirst(ns[..|ns| - 1], x, l); }
  }

  /** The order by first places in the list of names is the order by the list of values. */
  lemma PrecedesIsListed(list: seq<Json>, a: string, b: string)
    requires AllStrings(list) && Precedes(Texts(list), a, b)
    ensures ListedBefore(list, a, b) || (Str(a) !in list && Str(b) !in list && Before(a, b))
  {
    var ns := Texts(list);
    assert forall x :: x in ns <==> Str(x) in list by {
      forall x | x in ns ensures Str(x) in list { var i :| 0 <= i < |ns| && ns[i] == x; assert list[i] == Str(x); }
      forall x | Str(x) in list ensures x in ns { var i :| 0 <= i < |list| && list[i] == Str(x); assert ns[i] == x; }
    }
    if FirstIndex(ns, a) < FirstIndex(ns, b) {
      var k := FirstIndex(ns, a);
      assert list[k] == Str(a);
      forall l | 0 <= l <= k ensures list[l] != Str(b) {
        if list[l] == Str(b) { assert ns[l] == b; FirstIndexIsFirst(ns, b, l); }
      }
    }
  }

  lemma KeysAreListed(list: seq<Json>, names: seq<string>)
    requires AllStrings(list) && KeysInOrder(Texts(list), names)
    ensures InListedOrder(list, names)
  {
    forall i, j | 0 <= i < j < |names|
      ensures ListedBefore(list, names[i], names[j]) || (Str(names[i]) !in list && Str(names[j]) !in list && Before(names[i], names[j]))
    {
      PrecedesIsListed(list, names[i], names[j]);
    }
  }

  lemma NothingListedAscends(names: seq<string>)
    requires KeysInOrder([], names)
    ensures Ascending(names)
  {
    assert forall i, j :: 0 <= i < j < |names| ==> Precedes([], names[i], names[j]);
  }

  lemma RequiredIsListed(schema: Json)
    requires schema.Obj? && KeywordTypesOk(schema)
    ensures AllStrings(RequiredList(schema.fields)) && Required(schema) == Texts(RequiredList(schema.fields))
  {
  }

  /** The decoder order in terms of the helper definitions is the order in terms of the keywords. */
  lemma {:induction false} InOrderIsArranged(schema: Json)
    requires Wf(schema) && Schematic(schema) && InOrder(schema)
    ensures Arranged(schema)
    decreases schema, 2
  {
    forall i | 0 <= i < |schema.fields| ensures ArrangedKeyword(schema, i) {
      KeywordIsArranged(schema, i);
    }
  }

  lemma {:induction false} KeywordIsArranged(schema: Json, i: nat)
    requires Wf(schema) && Schematic(schema) && InOrder(schema) && i < |schema.fields|
    ensures ArrangedKeyword(schema, i)
    decreases schema, 1
  {
    var name, w := schema.fields[i].name, schema.fields[i].value;
    GetAt(schema.fields, i);
    if name == "properties" {
      RequiredIsListed(schema);
      KeysAreListed(RequiredList(schema.fields), Names(w.fields));
      NamedAreArranged(schema, "properties");
    } else if name == "$defs" {
      NothingListedAscends(Names(w.fields));
      NamedAreArranged(schema, "$defs");
    } else if name == "items" {
      ItemIsSchematic(schema);
      InOrderIsArranged(w);
    } else if name == "anyOf" {
      forall j | 0 <= j < |w.items| ensures Arranged(w.items[j]) {
        AlternativeIsSchematic(schema, j);
        InOrderIsArranged(w.items[j]);
      }
    }
  }

  lemma {:induction false} NamedAreArranged(schema: Json, key: string)
    requires Wf(schema) && Schematic(schema) && key in ["properties", "$defs"] && Has(schema.fields, key)
    requires KeywordInOrder(schema, key)
    ensures forall j :: 0 <= j < |Get(schema.fields, key).fields| ==> Arranged(Get(schema.fields, key).fields[j].value)
    decreases schema, 0
  {
    var gs := Get(schema.fields, key).fields;
    GetIsWf(schema.fields, key);
    forall j | 0 <= j < |gs| ensures Arranged(gs[j].value) {
      GetAt(gs, j);
      NamedIsSchematic(schema, key, gs[j].name);
      InOrderIsArranged(gs[j].value);
    }
  }

  lemma {:induction false} TextsStay(items: seq<Json>)
    requires AllStrings(items)
    ensures OrderedData(Arr(items)) == Arr(items)
  {
    assert OrderedData(Arr(items)).items == items;
  }

  /** What the worker is told: the schema with its fields arranged, and the required lists as they were. */
  lemma ProjectionIsArranged(schema: Json)
    requires Wf(schema) && Schematic(schema)
    ensures OrderedNode(schema).Obj? && Arranged(OrderedNode(schema)) && Permuted(OrderedNode(schema), schema)
    ensures RequiredList(OrderedNode(schema).fields) == RequiredList(schema.fields)
  {
    NodeOrdered(schema);
    NodePermuted(schema);
    OrderedIsSchematic(schema);
    InOrderIsArranged(OrderedNode(schema));
    OrderedKeywordIsThere(schema, "required");
    if Has(schema.fields, "required") { TextsStay(Get(schema.fields, "required").items); }
  }

  /** Every node, through "properties", "items" and "anyOf", lists all of its properties as required. */
  ghost predicate ListsAll(v: Json)
    decreases v
  {
    v.Obj? ==>
      && (forall i :: 0 <= i < |v.fields| && v.fields[i].name == "properties" && v.fields[i].value.Obj? ==>
            var fs := v.fields[i].value.fields;
            forall j :: 0 <= j < |fs| ==> Str(fs[j].name) in RequiredList(v.fields) && ListsAll(fs[j].value))
      && (forall i :: 0 <= i < |v.fields| && v.fields[i].name == "items" ==> ListsAll(v.fields[i].value))
      && (forall i :: 0 <= i < |v.fields| && v.fields[i].name == "anyOf" && v.fields[i].value.Arr? ==>
            var vs := v.fields[i].value.items;
            forall j :: 0 <= j < |vs| ==> ListsAll(vs[j]))
  }

  lemma ListedTexts(list: seq<Json>, n: string)
    requires AllStrings(list)
    ensures n in Texts(list) <==> Str(n) in list
  {
    var ns := Texts(list);
    if n in ns { var i :| 0 <= i < |ns| && ns[i] == n; assert list[i] == Str(n); }
    if Str(n) in list { var i :| 0 <= i < |list| && list[i] == Str(n); assert ns[i] == n; }
  }

  ghost predicate EachListsAll(vs: seq<Json>) {
    forall j :: 0 <= j < |vs| ==> ListsAll(vs[j])
  }

  lemma ListsAllByKeyword(fs: seq<Field>)
    requires Distinct(Names(fs))
    ensures ListsAll(Obj(fs))
            <==> && (Has(fs, "properties") && Get(fs, "properties").Obj? ==>
                       var gs := Get(fs, "properties").fields;
                       forall j :: 0 <= j < |gs| ==> Str(gs[j].name) in RequiredList(fs) && ListsAll(gs[j].value))
                 && (Has(fs, "items") ==> ListsAll(Get(fs, "items")))
                 && (Has(fs, "anyOf") && Get(fs, "anyOf").Arr? ==> EachListsAll(Get(fs, "anyOf").items))
  {
    forall i | 0 <= i < |fs| ensures Has(fs, fs[i].name) && Get(fs, fs[i].name) == fs[i].value { GetAt(fs, i); }
  }

  lemma {:induction false} AllRequiredIsListsAll(schema: Json)
    requires Wf(schema) && Schematic(schema)
    ensures AllRequired(schema) <==> ListsAll(schema)
    decreases schema, 1
  {
    RequiredKeywords(schema);
    ListsAllByKeyword(schema.fields);
    if Has(schema.fields, "properties") { PropertiesListAll(schema); }
    if Has(schema.fields, "items") {
      GetIsWf(schema.fields, "items");
      AllRequiredIsListsAll(Get(schema.fields, "items"));
    }
    if Has(schema.fields, "anyOf") {
      var vs := Get(schema.fields, "anyOf").items;
      GetIsWf(schema.fields, "anyOf");
      forall j | 0 <= j < |vs| ensures AllRequired(vs[j]) <==> ListsAll(vs[j]) { AllRequiredIsListsAll(vs[j]); }
    }
  }

  lemma {:induction false} PropertiesListAll(schema: Json)
    requires Wf(schema) && SchematicByKeyword(schema) && Has(schema.fields, "properties")
    ensures var gs := Get(schema.fields, "properties").fields;
            PropertiesRequired(schema) && RequiredUnder(gs)
            <==> forall j :: 0 <= j < |gs| ==> Str(gs[j].name) in RequiredList(schema.fields) && ListsAll(gs[j].value)
    decreases schema, 0
  {
    var gs := Get(schema.fields, "properties").fields;
    GetIsWf(schema.fields, "properties");
    RequiredIsListed(schema);
    forall n ensures n in Required(schema) <==> Str(n) in RequiredList(schema.fields) { ListedTexts(RequiredList(schema.fields), n); }
    forall j | 0 <= j < |gs| ensures Schematic(gs[j].value) && (AllRequired(gs[j].value) <==> ListsAll(gs[j].value)) {
      assert Has(gs, gs[j].name) && Get(gs, gs[j].name) == gs[j].value by { GetAt(gs, j); }
      AllRequiredIsListsAll(gs[j].value);
    }
    assert Properties(schema) == gs;
    assert PropertiesRequired(schema) <==> forall j :: 0 <= j < |gs| ==> Str(gs[j].name) in RequiredList(schema.fields);
  }

  /** Who gets the decoder order: schemas with passage definitions, and for the first version of email.analyze those
      whose every node lists all of its properties as required. */
  lemma DecoderOrderIsChosen(schema: Json, task: Task)
    requires Wf(schema) && Schematic(schema)
    ensures UsesOrder(schema, task)
            <==> "$defs" in Names(schema.fields) || (task.id == "email.analyze" && task.version == 1 && ListsAll(schema))
    ensures DecoderSchema(schema, task) == if UsesOrder(schema, task) then OrderedNode(schema) else schema
  {
    AllRequiredIsListsAll(schema);
  }
}
