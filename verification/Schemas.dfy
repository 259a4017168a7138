/** Admission of response schemas: which schemas are supported, how many passage references they hold,
    and the mutating validator that computes both. */
module Schemas {
  import opened Json
  import opened Outcomes
  import opened Sums

  const MAX_SCHEMA_ENUM_VALUES: nat := 100
  const MAX_SCHEMA_ARRAY_ITEMS: nat := 100
  const MAX_SCHEMA_OBJECT_CHOICES: nat := 64
  const MAX_PASSAGE_DEFINITIONS: nat := 2
  const MAX_PASSAGE_ENUM_VALUES: nat := 8192
  const MAX_PASSAGE_CHARACTERS: nat := 4096
  const MAX_PASSAGE_REFERENCES: nat := 16
  const MAX_PASSAGE_VALUES: nat := 32

  const SUPPORTED_TYPES: set<string> :=
    {"array", "boolean", "integer", "null", "number", "object", "string"}
  const SUPPORTED_KEYWORDS: set<string> :=
    {"additionalProperties", "anyOf", "default", "enum", "items", "maxLength", "maxItems", "maximum",
     "minLength", "minItems", "minimum", "properties", "required", "title", "type"}

  // ---- Looking into a schema ----

  /** The value of a keyword; Null when it is absent, as a dictionary lookup with a None default gives it. */
  function Keyword(schema: Json, name: string): (v: Json)
    requires schema.Obj?
  {
    if Has(schema.fields, name) then Get(schema.fields, name) else Null
  }

  /** The named subschemas; a "properties" that is not an object names none. */
  function Properties(schema: Json): (fs: seq<Field>)
    requires schema.Obj?
    ensures forall i :: 0 <= i < |fs| ==> fs[i].value < schema
  {
    var p := Keyword(schema, "properties");
    if p.Obj? then p.fields else []
  }

  function PropertySchemas(schema: Json): (vs: seq<Json>)
    requires schema.Obj?
    ensures forall i :: 0 <= i < |vs| ==> vs[i] < schema
  {
    seq(|Properties(schema)|, i requires 0 <= i < |Properties(schema)| => Properties(schema)[i].value)
  }

  function Alternatives(schema: Json): (vs: seq<Json>)
    requires schema.Obj?
    ensures forall i :: 0 <= i < |vs| ==> vs[i] < schema
  {
    var a := Keyword(schema, "anyOf");
    if a.Arr? then a.items else []
  }

  predicate IsArrayType(schema: Json)
    requires schema.Obj?
  {
    Keyword(schema, "type") == Str("array")
  }

  /** The item schema of an array schema: one, or none where the schema is not of array type. */
  function ItemSchemas(schema: Json): (vs: seq<Json>)
    requires schema.Obj?
    ensures |vs| <= 1 && forall i :: 0 <= i < |vs| ==> vs[i] < schema
  {
    if IsArrayType(schema) && Has(schema.fields, "items") then [Get(schema.fields, "items")] else []
  }

  const NULL_SCHEMA: Json := Obj([Field("type", Str("null"))])

  // ---- Passage definitions ----

  predicate IsNameChar(c: char, first: bool) {
    'A' <= c <= 'Z' || 'a' <= c <= 'z' || c == '_' || (!first && '0' <= c <= '9')
  }

  predicate IsPassageName(s: string) {
    1 <= |s| <= 64 && IsNameChar(s[0], true) && forall i :: 1 <= i < |s| ==> IsNameChar(s[i], false)
  }

  predicate IsPassageEnum(v: Json) {
    && v.Arr? && 1 <= |v.items| <= MAX_PASSAGE_ENUM_VALUES
    && (forall i :: 0 <= i < |v.items| ==> v.items[i].Str? && 1 <= |v.items[i].text| <= MAX_PASSAGE_CHARACTERS)
    && forall i, j :: 0 <= i < j < |v.items| ==> v.items[i] != v.items[j]
  }

  predicate IsPassageDefinition(v: Json) {
    && v.Obj? && Has(v.fields, "type") && Has(v.fields, "enum")
    && (forall n :: n in Names(v.fields) ==> n in ["type", "enum"])
    && Keyword(v, "type") == Str("string") && IsPassageEnum(Keyword(v, "enum"))
  }

  predicate IsDefinitions(v: Json) {
    && v.Obj? && 1 <= |v.fields| <= MAX_PASSAGE_DEFINITIONS
    && forall i :: 0 <= i < |v.fields| ==>
         IsPassageName(v.fields[i].name) && IsPassageDefinition(v.fields[i].value)
  }

  predicate UsesPassageDefinitions(schema: Json)
    requires schema.Obj?
  {
    Has(schema.fields, "$defs")
  }

  predicate IsClosedObject(branch: Json) {
    branch.Obj? && Keyword(branch, "type") == Str("object") && Keyword(branch, "additionalProperties") == Bool(false)
  }

  /** The only keyword besides "$defs" is an anyOf of 2 to 64 closed objects. */
  predicate IsBoundedRootObjectChoice(schema: Json)
    requires schema.Obj?
  {
    && Has(schema.fields, "anyOf")
    && (forall n :: n in Names(schema.fields) ==> n in ["$defs", "anyOf"])
    && 2 <= |Alternatives(schema)| <= MAX_SCHEMA_OBJECT_CHOICES
    && forall i :: 0 <= i < |Alternatives(schema)| ==> IsClosedObject(Alternatives(schema)[i])
  }

  predicate HasAdmissibleRoot(schema: Json)
    requires schema.Obj?
  {
    Keyword(schema, "type") == Str("object") || IsBoundedRootObjectChoice(schema)
  }

  /** The definitions of a schema, if it has any; an error where they are not bounded passage definitions. */
  function PassageDefinitions(schema: Json): Result<Option<seq<Field>>, ()>
    requires schema.Obj?
  {
    if !UsesPassageDefinitions(schema) then Ok(None)
    else
      var definitions := Get(schema.fields, "$defs");
      if HasAdmissibleRoot(schema) && IsDefinitions(definitions) then Ok(Some(definitions.fields)) else Err(())
  }

  // ---- Supported schemas, stated without the counters ----

  const REF_PREFIX: string := "#/$defs/"

  predicate IsReference(schema: Json, definitions: Option<seq<Field>>)
    requires schema.Obj?
  {
    Has(schema.fields, "$ref") && definitions.Some?
  }

  predicate OwnedReference(schema: Json, definitions: seq<Field>)
    requires schema.Obj? && Has(schema.fields, "$ref")
  {
    && (forall n :: n in Names(schema.fields) ==> n == "$ref")
    && var r := Get(schema.fields, "$ref");
       r.Str? && REF_PREFIX <= r.text && Has(definitions, r.text[|REF_PREFIX|..])
  }

  predicate IsTypeOrAbsent(v: Json) {
    v.Null? || (v.Str? && v.text in SUPPORTED_TYPES)
  }

  predicate IsEnumOrAbsent(v: Json) {
    v.Null? || (v.Arr? && 1 <= |v.items| <= MAX_SCHEMA_ENUM_VALUES
                && forall i :: 0 <= i < |v.items| ==> !v.items[i].Arr? && !v.items[i].Obj?)
  }

  predicate KeywordsAndTypeOk(schema: Json)
    requires schema.Obj?
  {
    (forall n :: n in Names(schema.fields) ==> n in SUPPORTED_KEYWORDS) && IsTypeOrAbsent(Keyword(schema, "type"))
  }

  predicate ScalarKeywordsOk(schema: Json)
    requires schema.Obj?
  {
    && IsEnumOrAbsent(Keyword(schema, "enum"))
    && (Keyword(schema, "minimum").Null? || Keyword(schema, "minimum").Integer?)
    && (Keyword(schema, "maximum").Null? || Keyword(schema, "maximum").Integer?)
  }

  predicate ArrayKeywordsOk(schema: Json)
    requires schema.Obj?
  {
    var items, least, most := Keyword(schema, "items"), Keyword(schema, "minItems"), Keyword(schema, "maxItems");
    (Keyword(schema, "additionalProperties").Null? || Keyword(schema, "additionalProperties").Bool?) &&
    if IsArrayType(schema) then
      && items.Obj?
      && most.Integer? && 0 <= most.value <= MAX_SCHEMA_ARRAY_ITEMS
      && (least.Null? || (least.Integer? && 0 <= least.value <= most.value))
    else items.Null? && least.Null? && most.Null?
  }

  /** Whether an anyOf is taken as the choice at the root. */
  predicate TakenAsRootChoice(schema: Json, root: bool)
    requires schema.Obj?
  {
    root && (!Keyword(schema, "anyOf").Arr? || NULL_SCHEMA !in Alternatives(schema))
  }

  /** A union of exactly one null schema and one schema with a type other than null. */
  predicate IsNullableUnion(schema: Json)
    requires schema.Obj?
  {
    var vs := Alternatives(schema);
    && |vs| == 2
    && ((vs[0] == NULL_SCHEMA && IsTypedBranch(vs[1])) || (vs[1] == NULL_SCHEMA && IsTypedBranch(vs[0])))
  }

  predicate IsTypedBranch(branch: Json) {
    branch.Obj? && Keyword(branch, "type").Str? && Keyword(branch, "type") != Str("null")
  }

  predicate ChoiceOk(schema: Json, nullable: bool, root: bool)
    requires schema.Obj?
  {
    Keyword(schema, "anyOf").Null?
    || (if TakenAsRootChoice(schema, root) then IsBoundedRootObjectChoice(schema) else nullable && IsNullableUnion(schema))
  }

  predicate KeywordsOk(schema: Json, nullable: bool, root: bool)
    requires schema.Obj?
  {
    KeywordsAndTypeOk(schema) && ArrayKeywordsOk(schema) && ScalarKeywordsOk(schema) && ChoiceOk(schema, nullable, root)
  }

  function MaxItems(schema: Json): nat
    requires schema.Obj?
  {
    var m := Keyword(schema, "maxItems");
    if m.Integer? && m.value >= 0 then m.value else 0
  }

  /** What there is to know about a schema: whether it is supported, how many reference nodes it holds, and
      what one output of it can cost. */
  datatype Finding = Finding(supported: bool, references: nat, cost: nat)

  /** Findings for the properties, the items and the alternatives of a schema. */
  datatype Parts = Parts(properties: seq<Finding>, items: seq<Finding>, branches: seq<Finding>)

  predicate AllSupported(fs: seq<Finding>) {
    forall i :: 0 <= i < |fs| ==> fs[i].supported
  }

  function ReferenceCounts(fs: seq<Finding>): (ns: seq<nat>)
    ensures |ns| == |fs|
  {
    seq(|fs|, i requires 0 <= i < |fs| => fs[i].references)
  }

  function Costs(fs: seq<Finding>): (ns: seq<nat>)
    ensures |ns| == |fs|
  {
    seq(|fs|, i requires 0 <= i < |fs| => fs[i].cost)
  }

  /** A schema is supported when its own keywords and all its parts are. References add up. Costs add up too,
      but multiply through arrays, and of several alternatives only the costliest counts. */
  function Combine(schema: Json, nullable: bool, root: bool, p: Parts): Finding
    requires schema.Obj?
  {
    Finding(
      KeywordsOk(schema, nullable, root)
      && AllSupported(p.properties) && AllSupported(p.items) && AllSupported(p.branches),
      Sum(ReferenceCounts(p.properties)) + Sum(ReferenceCounts(p.items)) + Sum(ReferenceCounts(p.branches)),
      Sum(Costs(p.properties)) + Product(MaxItems(schema), Sum(Costs(p.items))) + Max(Costs(p.branches)))
  }

  /** The finding for a schema. Nullable unions are allowed or not for the whole subtree; below a union they
      are not, below a choice at the root they are; a root choice is allowed only at the root. */
  function Analyse(schema: Json, definitions: Option<seq<Field>>, nullable: bool, root: bool): Finding
    decreases schema
  {
    if !schema.Obj? then Finding(false, 0, 0)
    else if IsReference(schema, definitions) then Finding(OwnedReference(schema, definitions.value), 1, 1)
    else
      var ps, items, vs := PropertySchemas(schema), ItemSchemas(schema), Alternatives(schema);
      var choice := TakenAsRootChoice(schema, root);
      Combine(schema, nullable, root, Parts(
        seq(|ps|, i requires 0 <= i < |ps| => Analyse(ps[i], definitions, nullable, false)),
        seq(|items|, i requires 0 <= i < |items| => Analyse(items[i], definitions, nullable, false)),
        seq(|vs|, i requires 0 <= i < |vs| => Analyse(vs[i], definitions, choice, false))))
  }

  function AnalyseAll(vs: seq<Json>, definitions: Option<seq<Field>>, nullable: bool): (fs: seq<Finding>)
    ensures |fs| == |vs|
  {
    seq(|vs|, i requires 0 <= i < |vs| => Analyse(vs[i], definitions, nullable, false))
  }

  function PartsOf(schema: Json, definitions: Option<seq<Field>>, nullable: bool, root: bool): Parts
    requires schema.Obj?
  {
    Parts(
      AnalyseAll(PropertySchemas(schema), definitions, nullable),
      AnalyseAll(ItemSchemas(schema), definitions, nullable),
      AnalyseAll(Alternatives(schema), definitions, TakenAsRootChoice(schema, root)))
  }

  lemma AnalysedByParts(schema: Json, definitions: Option<seq<Field>>, nullable: bool, root: bool)
    requires schema.Obj? && !IsReference(schema, definitions)
    ensures Analyse(schema, definitions, nullable, root)
            == Combine(schema, nullable, root, PartsOf(schema, definitions, nullable, root))
  {
    var ps, items, vs := PropertySchemas(schema), ItemSchemas(schema), Alternatives(schema);
    var choice := TakenAsRootChoice(schema, root);
    assert seq(|ps|, i requires 0 <= i < |ps| => Analyse(ps[i], definitions, nullable, false))
        == AnalyseAll(ps, definitions, nullable);
    assert seq(|items|, i requires 0 <= i < |items| => Analyse(items[i], definitions, nullable, false))
        == AnalyseAll(items, definitions, nullable);
    assert seq(|vs|, i requires 0 <= i < |vs| => Analyse(vs[i], definitions, choice, false))
        == AnalyseAll(vs, definitions, choice);
  }

  predicate Mentioned(schema: Json) {
    true
  }

  /** f is the finding for the schema. The quantifier keeps the definition of Analyse folded in proofs that
      only pass findings on. */
  ghost predicate IsFinding(f: Finding, schema: Json, definitions: Option<seq<Field>>, nullable: bool, root: bool) {
    forall s {:trigger Mentioned(s)} :: s == schema ==> f == Analyse(s, definitions, nullable, root)
  }

  lemma FindingIs(f: Finding, schema: Json, definitions: Option<seq<Field>>, nullable: bool, root: bool)
    requires IsFinding(f, schema, definitions, nullable, root)
    ensures f == Analyse(schema, definitions, nullable, root)
  {
    assert Mentioned(schema);
  }

  ghost predicate AreFindings(fs: seq<Finding>, vs: seq<Json>, definitions: Option<seq<Field>>, nullable: bool) {
    |fs| == |vs| && forall i :: 0 <= i < |vs| ==> IsFinding(fs[i], vs[i], definitions, nullable, false)
  }

  lemma AnalysedAre(vs: seq<Json>, definitions: Option<seq<Field>>, nullable: bool)
    ensures AreFindings(AnalyseAll(vs, definitions, nullable), vs, definitions, nullable)
  {
  }

  /** p holds the findings for the parts of a schema. */
  ghost predicate AreParts(p: Parts, schema: Json, definitions: Option<seq<Field>>, nullable: bool, root: bool)
    requires schema.Obj?
  {
    && AreFindings(p.properties, PropertySchemas(schema), definitions, nullable)
    && AreFindings(p.items, ItemSchemas(schema), definitions, nullable)
    && AreFindings(p.branches, Alternatives(schema), definitions, TakenAsRootChoice(schema, root))
  }

  lemma PartsOfAre(schema: Json, definitions: Option<seq<Field>>, nullable: bool, root: bool)
    requires schema.Obj?
    ensures AreParts(PartsOf(schema, definitions, nullable, root), schema, definitions, nullable, root)
  {
    AnalysedAre(PropertySchemas(schema), definitions, nullable);
    AnalysedAre(ItemSchemas(schema), definitions, nullable);
    AnalysedAre(Alternatives(schema), definitions, TakenAsRootChoice(schema, root));
  }
}
