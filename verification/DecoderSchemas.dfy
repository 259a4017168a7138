/** The schema in decoder order: keywords sorted, properties in required order, data untouched but for its order. */
module DecoderSchemas {
  import opened Json
  import opened KeyOrders
  import opened Schemas
  import opened SchemaPositions

  function OrderedData(v: Json): Json {
    match v
    case Arr(items) => Arr(seq(|items|, i requires 0 <= i < |items| => OrderedData(items[i])))
    case Obj(fields) =>
      var keys := Sort(Names(fields));
      Obj(seq(|keys|, i requires 0 <= i < |keys| => Field(keys[i], OrderedData(GetKey(fields, keys, i)))))
    case _ => v
  }

  lemma NamedIsSchematic(schema: Json, key: string, name: string)
    requires Schematic(schema) && key in ["properties", "$defs"] && Has(schema.fields, key)
    requires Has(Get(schema.fields, key).fields, name)
    ensures Schematic(Get(Get(schema.fields, key).fields, name))
  {
    var fs := Get(schema.fields, key).fields;
    var i := Find(fs, name);
    if key == "properties" {
      assert Positions(schema)[i] == PropertySchemas(schema)[i] == fs[i].value;
    } else {
      assert DefinitionSchemas(schema)[i].value == fs[i].value;
    }
  }

  lemma ItemIsSchematic(schema: Json)
    requires Schematic(schema) && Has(schema.fields, "items")
    ensures Schematic(Get(schema.fields, "items"))
  {
    assert Positions(schema)[|PropertySchemas(schema)|] == Get(schema.fields, "items");
  }

  lemma AlternativeIsSchematic(schema: Json, i: nat)
    requires Schematic(schema) && Has(schema.fields, "anyOf") && i < |Get(schema.fields, "anyOf").items|
    ensures Schematic(Get(schema.fields, "anyOf").items[i])
  {
    var k := |PropertySchemas(schema)| + |ItemPosition(schema)| + i;
    AlternativePosition(schema, i, k);
    assert Schematic(Positions(schema)[k]);
  }

  lemma AlternativePosition(schema: Json, i: nat, k: nat)
    requires schema.Obj? && i < |Alternatives(schema)| && k == |PropertySchemas(schema)| + |ItemPosition(schema)| + i
    ensures k < |Positions(schema)| && Positions(schema)[k] == Alternatives(schema)[i]
  {
  }

  /** A schema node in decoder order. */
  function OrderedNode(schema: Json): Json
    requires Schematic(schema)
    decreases schema, 1
  {
    var keys := Sort(Names(schema.fields));
    Obj(seq(|keys|, i requires 0 <= i < |keys| =>
      assert keys[i] in keys;
      Field(keys[i], OrderedKeyword(schema, keys[i]))))
  }

  /** The names that come first under a keyword. */
  function First(schema: Json, key: string): seq<string>
    requires schema.Obj? && KeywordTypesOk(schema)
  {
    if key == "properties" then Required(schema) else []
  }

  /** The value of one keyword: only the four schema keywords hold schemas, everything else is data. */
  function OrderedKeyword(schema: Json, key: string): Json
    requires Schematic(schema) && Has(schema.fields, key)
    decreases schema, 0
  {
    var value := Get(schema.fields, key);
    if key == "properties" || key == "$defs" then
      var names := KeyOrder(First(schema, key), value.fields);
      Obj(seq(|names|, i requires 0 <= i < |names| =>
        assert names[i] in names;
        NamedIsSchematic(schema, key, names[i]);
        Field(names[i], OrderedNode(Get(value.fields, names[i])))))
    else if key == "items" then
      ItemIsSchematic(schema);
      OrderedNode(value)
    else if key == "anyOf" then
      Arr(seq(|value.items|, i requires 0 <= i < |value.items| =>
        AlternativeIsSchematic(schema, i);
        OrderedNode(value.items[i])))
    else OrderedData(value)
  }

  /** What the worker is told about the schema. */
  function DecoderSchema(schema: Json, task: Task): Json
    requires Schematic(schema)
  {
    if UsesOrder(schema, task) then OrderedNode(schema) else schema
  }
}
