/** What the decoder order keeps and fixes: the same value, in the one order that the schema itself prescribes. */
module DecoderLaws {
  import opened Decimals
  import opened DecoderSchemas
  import opened EquivSchemas
  import opened Json
  import opened KeyOrders
  import opened SchemaPositions

  // ---- Equality up to the order of object fields ----

  ghost predicate Permuted(v: Json, w: Json) {
    match v
    case Arr(items) =>
      w.Arr? && |items| == |w.items| && forall i :: 0 <= i < |items| ==> Permuted(items[i], w.items[i])
    case Obj(fields) =>
      w.Obj? && SameNames(fields, w.fields)
      && forall n :: Has(fields, n) ==> Permuted(Get(fields, n), Get(w.fields, n))
    case _ => v == w
  }

  /** Fields listed under distinct keys. */
  lemma FieldsAt(fs: seq<Field>, keys: seq<string>)
    requires Names(fs) == keys && Distinct(keys)
    ensures forall i :: 0 <= i < |keys| ==> Has(fs, keys[i]) && Get(fs, keys[i]) == fs[i].value
  {
    forall i | 0 <= i < |keys| ensures Has(fs, keys[i]) && Get(fs, keys[i]) == fs[i].value {
      GetAt(fs, i);
    }
  }

  /** To compare with an object, it is enough to look at the listed keys. */
  lemma PermutedFields(fs: seq<Field>, keys: seq<string>, gs: seq<Field>)
    requires Names(fs) == keys && Distinct(keys)
    requires forall x :: x in keys <==> Has(gs, x)
    requires forall i :: 0 <= i < |keys| ==> Permuted(fs[i].value, Get(gs, keys[i])) && Wf(fs[i].value)
    ensures Permuted(Obj(fs), Obj(gs)) && Wf(Obj(fs))
  {
    FieldsAt(fs, keys);
    forall n | Has(fs, n) ensures Permuted(Get(fs, n), Get(gs, n)) {
      var i := Find(fs, n);
      assert keys[i] == n;
    }
  }

  lemma {:induction false} DataPermuted(v: Json)
    requires Wf(v)
    ensures Permuted(OrderedData(v), v) && Wf(OrderedData(v))
    decreases v
  {
    match v
    case Arr(items) =>
      forall i | 0 <= i < |items| ensures Permuted(OrderedData(items[i]), items[i]) && Wf(OrderedData(items[i])) {
        DataPermuted(items[i]);
      }
    case Obj(fields) =>
      var keys := Sort(Names(fields));
      SortAscending(Names(fields));
      var fs := OrderedData(v).fields;
      forall i | 0 <= i < |keys| ensures Permuted(fs[i].value, Get(fields, keys[i])) && Wf(fs[i].value) {
        GetIsWf(fields, keys[i]);
        DataPermuted(GetKey(fields, keys, i));
      }
      PermutedFields(fs, keys, fields);
    case _ =>
  }

  lemma {:induction false} KeywordPermuted(schema: Json, key: string)
    requires Wf(schema) && Schematic(schema) && Has(schema.fields, key)
    ensures Permuted(OrderedKeyword(schema, key), Get(schema.fields, key)) && Wf(OrderedKeyword(schema, key))
    decreases schema, 0
  {
    var value := Get(schema.fields, key);
    GetIsWf(schema.fields, key);
    if key == "properties" || key == "$defs" {
      var names := KeyOrder(First(schema, key), value.fields);
      var fs := OrderedKeyword(schema, key).fields;
      forall i | 0 <= i < |names| ensures Permuted(fs[i].value, Get(value.fields, names[i])) && Wf(fs[i].value) {
        assert names[i] in names;
        NamedIsSchematic(schema, key, names[i]);
        GetIsWf(value.fields, names[i]);
        NodePermuted(Get(value.fields, names[i]));
      }
      PermutedFields(fs, names, value.fields);
    } else if key == "items" {
      ItemIsSchematic(schema);
      NodePermuted(value);
    } else if key == "anyOf" {
      forall i | 0 <= i < |value.items|
        ensures Schematic(value.items[i])
        ensures Permuted(OrderedNode(value.items[i]), value.items[i]) && Wf(OrderedNode(value.items[i]))
      {
        AlternativeIsSchematic(schema, i);
        NodePermuted(value.items[i]);
      }
    } else {
      DataPermuted(value);
    }
  }

  /** The projection keeps the schema, up to the order of object fields. */
  lemma {:induction false} NodePermuted(schema: Json)
    requires Wf(schema) && Schematic(schema)
    ensures Permuted(OrderedNode(schema), schema) && Wf(OrderedNode(schema))
    decreases schema, 1
  {
    var keys := Sort(Names(schema.fields));
    SortAscending(Names(schema.fields));
    var fs := OrderedNode(schema).fields;
    forall i | 0 <= i < |keys| ensures Permuted(fs[i].value, Get(schema.fields, keys[i])) && Wf(fs[i].value) {
      assert keys[i] in keys;
      KeywordPermuted(schema, keys[i]);
    }
    PermutedFields(fs, keys, schema.fields);
  }

  lemma {:induction false} PermutedIsEquiv(v: Json, w: Json)
    requires Permuted(v, w)
    ensures Equiv(v, w)
    decreases v
  {
    match v
    case Arr(items) =>
      forall i | 0 <= i < |items| ensures Equiv(items[i], w.items[i]) { PermutedIsEquiv(items[i], w.items[i]); }
    case Obj(fields) =>
      forall n | Has(fields, n) ensures Equiv(Get(fields, n), Get(w.fields, n)) {
        PermutedIsEquiv(Get(fields, n), Get(w.fields, n));
      }
    case _ => if Numeric(v) { CanonDecides(Numeral(v), Numeral(v)); }
  }

  // ---- The order itself ----

  /** Every object lists its names in ascending order. */
  predicate DeepSorted(v: Json) {
    match v
    case Arr(items) => forall i :: 0 <= i < |items| ==> DeepSorted(items[i])
    case Obj(fields) =>
      Ascending(Names(fields)) && forall i :: 0 <= i < |fields| ==> DeepSorted(fields[i].value)
    case _ => true
  }

  /** The value of a keyword is in decoder order. */
  ghost predicate KeywordInOrder(schema: Json, key: string)
    requires Schematic(schema) && Has(schema.fields, key)
    decreases schema, 0
  {
    var value := Get(schema.fields, key);
    if key == "properties" || key == "$defs" then
      && KeysInOrder(First(schema, key), Names(value.fields))
      && forall n :: Has(value.fields, n) ==>
           (NamedIsSchematic(schema, key, n); InOrder(Get(value.fields, n)))
    else if key == "items" then
      ItemIsSchematic(schema);
      InOrder(value)
    else if key == "anyOf" then
      forall i :: 0 <= i < |value.items| ==>
        (AlternativeIsSchematic(schema, i); InOrder(value.items[i]))
    else DeepSorted(value)
  }

  /** A schema in decoder order: keywords ascending, properties in the order that its own required list prescribes,
      definitions ascending, subschemas in decoder order, and everything else sorted at every level. */
  ghost predicate InOrder(schema: Json)
    requires Schematic(schema)
    decreases schema, 1
  {
    Ascending(Names(schema.fields)) && forall n :: Has(schema.fields, n) ==> KeywordInOrder(schema, n)
  }

  lemma {:induction false} DataInOrder(v: Json)
    requires Wf(v)
    ensures DeepSorted(OrderedData(v))
    decreases v
  {
    match v
    case Arr(items) =>
      forall i | 0 <= i < |items| ensures DeepSorted(OrderedData(items[i])) { DataInOrder(items[i]); }
    case Obj(fields) =>
      var keys := Sort(Names(fields));
      SortAscending(Names(fields));
      var fs := OrderedData(v).fields;
      forall i | 0 <= i < |keys| ensures DeepSorted(fs[i].value) {
        GetIsWf(fields, keys[i]);
        DataInOrder(GetKey(fields, keys, i));
      }
      assert Names(fs) == keys;
    case _ =>
  }

  lemma SortIsFixed(ns: seq<string>)
    requires Ascending(ns)
    ensures Sort(ns) == ns
  {
    AscendingIsDistinct(ns);
    SortAscending(ns);
    AscendingIsUnique(Sort(ns), ns);
  }

  lemma {:induction false} DataIsFixed(v: Json)
    requires DeepSorted(v)
    ensures OrderedData(v) == v
    decreases v
  {
    match v
    case Arr(items) =>
      forall i | 0 <= i < |items| ensures OrderedData(items[i]) == items[i] { DataIsFixed(items[i]); }
      assert OrderedData(v).items == items;
    case Obj(fields) =>
      var keys := Names(fields);
      SortIsFixed(keys);
      AscendingIsDistinct(keys);
      FieldsAt(fields, keys);
      var fs := OrderedData(v).fields;
      forall i | 0 <= i < |fields| ensures fs[i] == fields[i] {
        assert fs[i] == Field(keys[i], OrderedData(GetKey(fields, keys, i)));
        DataIsFixed(fields[i].value);
      }
      assert fs == fields;
    case _ =>
  }

  /** The projection of a schema is a schema again. */
  lemma OrderedIsSchematic(schema: Json)
    requires Wf(schema) && Schematic(schema)
    ensures Wf(OrderedNode(schema)) && Equiv(OrderedNode(schema), schema) && Schematic(OrderedNode(schema))
    ensures Required(OrderedNode(schema)) == Required(schema)
  {
    NodePermuted(schema);
    PermutedIsEquiv(OrderedNode(schema), schema);
    SchematicKept(OrderedNode(schema), schema);
    EquivKeywordTypes(OrderedNode(schema), schema);
  }

  lemma OrderedKeywordIsThere(schema: Json, key: string)
    requires Wf(schema) && Schematic(schema)
    ensures Has(OrderedNode(schema).fields, key) <==> Has(schema.fields, key)
    ensures Has(schema.fields, key) ==> Get(OrderedNode(schema).fields, key) == OrderedKeyword(schema, key)
    ensures Names(OrderedNode(schema).fields) == Sort(Names(schema.fields))
  {
    var keys := Sort(Names(schema.fields));
    SortAscending(Names(schema.fields));
    var fs := OrderedNode(schema).fields;
    assert Names(fs) == keys;
    FieldsAt(fs, keys);
    if Has(schema.fields, key) {
      assert key in keys;
      var i :| 0 <= i < |keys| && keys[i] == key;
      assert fs[i] == Field(keys[i], OrderedKeyword(schema, keys[i]));
    }
  }

  /** The fields under "properties" or "$defs" after the projection. */
  lemma OrderedNames(schema: Json, key: string)
    requires Wf(schema) && Schematic(schema) && Has(schema.fields, key) && key in ["properties", "$defs"]
    ensures var fs, value := OrderedKeyword(schema, key).fields, Get(schema.fields, key);
            && Names(fs) == KeyOrder(First(schema, key), value.fields)
            && forall n :: Has(value.fields, n) ==>
                 && Has(fs, n) && Schematic(Get(value.fields, n))
                 && Get(fs, n) == OrderedNode(Get(value.fields, n))
  {
    var value := Get(schema.fields, key);
    var names := KeyOrder(First(schema, key), value.fields);
    var fs := OrderedKeyword(schema, key).fields;
    assert Names(fs) == names;
    FieldsAt(fs, names);
    forall n | Has(value.fields, n)
      ensures Has(fs, n) && Schematic(Get(value.fields, n)) && Get(fs, n) == OrderedNode(Get(value.fields, n))
    {
      NamedIsSchematic(schema, key, n);
      assert n in names;
      var i :| 0 <= i < |names| && names[i] == n;
      assert fs[i].value == OrderedNode(Get(value.fields, names[i]));
    }
  }

  lemma {:induction false} KeywordOrdered(schema: Json, key: string)
    requires Wf(schema) && Schematic(schema) && Has(schema.fields, key)
    requires Schematic(OrderedNode(schema)) && Required(OrderedNode(schema)) == Required(schema)
    requires Has(OrderedNode(schema).fields, key)
    requires Get(OrderedNode(schema).fields, key) == OrderedKeyword(schema, key)
    ensures KeywordInOrder(OrderedNode(schema), key)
    decreases schema, 0
  {
    var value, ordered := Get(schema.fields, key), OrderedNode(schema);
    GetIsWf(schema.fields, key);
    if key == "properties" || key == "$defs" {
      OrderedNames(schema, key);
      KeyOrderInOrder(First(schema, key), value.fields);
      var fs := OrderedKeyword(schema, key).fields;
      forall n | Has(fs, n) ensures Schematic(Get(fs, n)) && InOrder(Get(fs, n)) {
        assert n in KeyOrder(First(schema, key), value.fields);
        GetIsWf(value.fields, n);
        OrderedIsSchematic(Get(value.fields, n));
        NodeOrdered(Get(value.fields, n));
      }
    } else if key == "items" {
      ItemIsSchematic(schema);
      OrderedIsSchematic(value);
      NodeOrdered(value);
    } else if key == "anyOf" {
      var vs := OrderedKeyword(schema, key).items;
      forall i | 0 <= i < |value.items| ensures Schematic(vs[i]) && InOrder(vs[i]) {
        AlternativeIsSchematic(schema, i);
        OrderedIsSchematic(value.items[i]);
        NodeOrdered(value.items[i]);
      }
    } else {
      DataInOrder(value);
    }
  }

  /** The projection is in decoder order. */
  lemma {:induction false} NodeOrdered(schema: Json)
    requires Wf(schema) && Schematic(schema)
    ensures Schematic(OrderedNode(schema)) && InOrder(OrderedNode(schema))
    decreases schema, 1
  {
    OrderedIsSchematic(schema);
    SortAscending(Names(schema.fields));
    forall n | Has(OrderedNode(schema).fields, n) ensures KeywordInOrder(OrderedNode(schema), n) {
      OrderedKeywordIsThere(schema, n);
      KeywordOrdered(schema, n);
    }
    OrderedKeywordIsThere(schema, "type");
  }

  lemma {:induction false} KeywordIsFixed(schema: Json, key: string)
    requires Wf(schema) && Schematic(schema) && Has(schema.fields, key) && KeywordInOrder(schema, key)
    ensures OrderedKeyword(schema, key) == Get(schema.fields, key)
    decreases schema, 1
  {
    var value := Get(schema.fields, key);
    GetIsWf(schema.fields, key);
    if key == "properties" || key == "$defs" {
      NamedIsFixed(schema, key);
    } else if key == "items" {
      ItemIsSchematic(schema);
      NodeIsFixed(value);
    } else if key == "anyOf" {
      forall i | 0 <= i < |value.items|
        ensures Schematic(value.items[i]) && OrderedNode(value.items[i]) == value.items[i]
      {
        AlternativeIsSchematic(schema, i);
        NodeIsFixed(value.items[i]);
      }
      assert OrderedKeyword(schema, key).items == value.items;
    } else {
      DataIsFixed(value);
    }
  }

  lemma {:induction false} NamedIsFixed(schema: Json, key: string)
    requires Wf(schema) && Schematic(schema) && Has(schema.fields, key) && KeywordInOrder(schema, key)
    requires key in ["properties", "$defs"]
    ensures OrderedKeyword(schema, key) == Get(schema.fields, key)
    decreases schema, 0
  {
    var value := Get(schema.fields, key);
    GetIsWf(schema.fields, key);
    var fs, gs := OrderedKeyword(schema, key).fields, value.fields;
    var names := Names(gs);
    KeyOrderInOrder(First(schema, key), gs);
    assert forall x :: x in names <==> Has(gs, x);
    OrderIsUnique(First(schema, key), KeyOrder(First(schema, key), gs), names);
    OrderedNames(schema, key);
    FieldsAt(fs, names);
    FieldsAt(gs, names);
    forall i | 0 <= i < |gs| ensures fs[i] == gs[i] {
      NamedIsSchematic(schema, key, names[i]);
      NodeIsFixed(gs[i].value);
      assert Names(fs)[i] == names[i];
    }
    assert fs == gs;
  }

  /** A schema in decoder order is left alone. */
  lemma {:induction false} NodeIsFixed(schema: Json)
    requires Wf(schema) && Schematic(schema) && InOrder(schema)
    ensures OrderedNode(schema) == schema
    decreases schema, 2
  {
    var keys := Names(schema.fields);
    SortIsFixed(keys);
    FieldsAt(schema.fields, keys);
    var fs := OrderedNode(schema).fields;
    forall i | 0 <= i < |schema.fields| ensures fs[i] == schema.fields[i] {
      assert Has(schema.fields, keys[i]);
      KeywordIsFixed(schema, keys[i]);
      assert fs[i] == Field(keys[i], OrderedKeyword(schema, keys[i]));
    }
    assert fs == schema.fields;
  }

  /** Projecting twice is projecting once. */
  lemma ProjectionIsIdempotent(schema: Json)
    requires Wf(schema) && Schematic(schema)
    ensures Schematic(OrderedNode(schema)) && OrderedNode(OrderedNode(schema)) == OrderedNode(schema)
  {
    OrderedIsSchematic(schema);
    NodeOrdered(schema);
    NodeIsFixed(OrderedNode(schema));
  }
}
