/** The projection depends on what a schema says, not on how it was written. */
module DecoderIdentity {
  import opened Canonical
  import opened DecoderLaws
  import opened DecoderSchemas
  import opened Encoding
  import opened EquivSchemas
  import opened Json
  import opened KeyOrders
  import opened SchemaPositions

  lemma {:induction false} DataIsNormal(v: Json)
    requires Wf(v)
    ensures Respell(OrderedData(v)) == Normal(v)
    decreases v
  {
    match v
    case Arr(items) =>
      forall i | 0 <= i < |items| ensures Respell(OrderedData(items[i])) == Normal(items[i]) { DataIsNormal(items[i]); }
      assert Respell(OrderedData(v)).items == Normal(v).items;
    case Obj(fields) =>
      var keys := Sort(Names(fields));
      forall i | 0 <= i < |keys|
        ensures Respell(OrderedData(GetKey(fields, keys, i))) == Normal(GetKey(fields, keys, i))
      {
        assert keys[i] in keys;
        GetIsWf(fields, keys[i]);
        DataIsNormal(GetKey(fields, keys, i));
      }
      assert Respell(OrderedData(v)).fields == Normal(v).fields;
    case _ =>
  }

  lemma {:induction false} KeywordDetermined(u: Json, v: Json, key: string)
    requires Wf(u) && Wf(v) && Schematic(u) && Schematic(v) && Equiv(u, v)
    requires Has(u.fields, key) && Has(v.fields, key)
    ensures Respell(OrderedKeyword(u, key)) == Respell(OrderedKeyword(v, key))
    decreases u, 1
  {
    var a, b := Get(u.fields, key), Get(v.fields, key);
    EquivKeyword(u, v, key);
    GetIsWf(u.fields, key);
    GetIsWf(v.fields, key);
    if key == "properties" || key == "$defs" {
      NamedDetermined(u, v, key);
    } else if key == "items" {
      ItemIsSchematic(u);
      ItemIsSchematic(v);
      NodeDetermined(a, b);
    } else if key == "anyOf" {
      var us, vs := OrderedKeyword(u, key).items, OrderedKeyword(v, key).items;
      forall i | 0 <= i < |us| ensures Respell(us[i]) == Respell(vs[i]) {
        AlternativeIsSchematic(u, i);
        AlternativeIsSchematic(v, i);
        NodeDetermined(a.items[i], b.items[i]);
      }
      assert Respell(Arr(us)).items == Respell(Arr(vs)).items;
    } else {
      DataIsNormal(a);
      DataIsNormal(b);
      NormalDecides(a, b);
    }
  }

  lemma {:induction false} NamedDetermined(u: Json, v: Json, key: string)
    requires Wf(u) && Wf(v) && Schematic(u) && Schematic(v) && Equiv(u, v)
    requires Has(u.fields, key) && Has(v.fields, key) && key in ["properties", "$defs"]
    ensures Respell(OrderedKeyword(u, key)) == Respell(OrderedKeyword(v, key))
    decreases u, 0
  {
    var a, b := Get(u.fields, key), Get(v.fields, key);
    EquivKeyword(u, v, key);
    EquivKeywordTypes(u, v);
    GetIsWf(u.fields, key);
    GetIsWf(v.fields, key);
    SameKeyOrder(First(u, key), a.fields, b.fields);
    OrderedNames(u, key);
    OrderedNames(v, key);
    var fs, gs := OrderedKeyword(u, key).fields, OrderedKeyword(v, key).fields;
    var names := Names(fs);
    FieldsAt(fs, names);
    FieldsAt(gs, names);
    forall i | 0 <= i < |names| ensures fs[i].name == gs[i].name && Respell(fs[i].value) == Respell(gs[i].value) {
      assert names[i] in names && Has(a.fields, names[i]) && Has(b.fields, names[i]);
      GetIsWf(a.fields, names[i]);
      GetIsWf(b.fields, names[i]);
      NodeDetermined(Get(a.fields, names[i]), Get(b.fields, names[i]));
      assert Names(gs)[i] == names[i];
    }
    RespelledFields(fs, gs);
  }

  lemma RespelledFields(fs: seq<Field>, gs: seq<Field>)
    requires |fs| == |gs|
    requires forall i :: 0 <= i < |fs| ==> fs[i].name == gs[i].name && Respell(fs[i].value) == Respell(gs[i].value)
    ensures Respell(Obj(fs)) == Respell(Obj(gs))
  {
    assert Respell(Obj(fs)).fields == Respell(Obj(gs)).fields;
  }

  /** Equal schemas have the same projection, up to the spelling of numbers. */
  lemma {:induction false} NodeDetermined(u: Json, v: Json)
    requires Wf(u) && Wf(v) && Schematic(u) && Schematic(v) && Equiv(u, v)
    ensures Respell(OrderedNode(u)) == Respell(OrderedNode(v))
    decreases u, 2
  {
    SameKeys(u.fields, v.fields);
    var keys := Sort(Names(u.fields));
    var fs, gs := OrderedNode(u).fields, OrderedNode(v).fields;
    forall i | 0 <= i < |keys| ensures fs[i].name == gs[i].name && Respell(fs[i].value) == Respell(gs[i].value) {
      assert keys[i] in keys;
      KeywordDetermined(u, v, keys[i]);
    }
    RespelledFields(fs, gs);
  }

  /** The decoder order is the only one: whatever equals the schema and is in decoder order is its projection,
      up to the spelling of numbers. */
  lemma DecoderOrderIsUnique(schema: Json, w: Json)
    requires Wf(schema) && Schematic(schema) && Wf(w) && Equiv(w, schema)
    ensures Schematic(w)
    ensures InOrder(w) ==> Respell(w) == Respell(OrderedNode(schema))
  {
    SchematicKept(w, schema);
    if InOrder(w) {
      NodeIsFixed(w);
      NodeDetermined(w, schema);
    }
  }

  /** The canonical bytes of a schema determine the bytes that the worker gets for it, projected or sorted. */
  lemma SchemaIdentityDeterminesText(u: Json, v: Json, task: Task)
    requires Wf(u) && Wf(v) && Schematic(u) && Schematic(v)
    requires Encode(u, true).Some? && Encode(u, true) == Encode(v, true)
    ensures UsesOrder(u, task) <==> UsesOrder(v, task)
    ensures UsesOrder(u, task) ==> Text(DecoderSchema(u, task), false) == Text(DecoderSchema(v, task), false)
    ensures !UsesOrder(u, task) ==> Text(DecoderSchema(u, task), true) == Text(DecoderSchema(v, task), true)
  {
    SameEncodingIsEquality(u, v);
    UsesOrderKept(u, v, task);
    if UsesOrder(u, task) {
      NodeDetermined(u, v);
      OrderedIsSchematic(u);
      OrderedIsSchematic(v);
      SameTextKeepsOrder(OrderedNode(u), OrderedNode(v));
    }
  }
}
