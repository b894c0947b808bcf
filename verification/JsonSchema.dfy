/**
 The small JSON Schema evaluator of the parity contract check: payloads, schemas, the error list
 it computes (`Check`), and the declarative meaning it should have (`Accepts`).

 `Check` follows the evaluator: it returns early after a failed type, const or enum, replaces a
 node by its $ref, and raises on unsupported schemas. `Accepts` is a plain conjunction.
 */
module JsonSchema {
  import opened Prelude

  // ----- payloads -----

  /** A decoded payload; objects keep their insertion order. */
  datatype Json =
    | JNull
    | JBool(b: bool)
    | JInt(n: int)
    | JFloat(r: real)
    | JString(s: string)
    | JArray(items: seq<Json>)
    | JObject(fields: seq<Field>)

  datatype Field = Field(key: string, value: Json)

  predicate HasKey(fields: seq<Field>, key: string) {
    exists i :: 0 <= i < |fields| && fields[i].key == key
  }

  predicate SameKey(s: seq<Field>, t: seq<Field>, i: int, j: int) {
    0 <= i < |s| && 0 <= j < |t| && s[i].key == t[j].key
  }

  predicate IsNumber(v: Json) {
    v.JInt? || v.JFloat?
  }

  function NumberOf(v: Json): real
    requires IsNumber(v)
  {
    if v.JInt? then v.n as real else v.r
  }

  // ----- equality -----

  /** Python's numeric view: booleans are the integers 0 and 1. */
  predicate Numeric(v: Json) {
    v.JBool? || IsNumber(v)
  }

  function NumericOf(v: Json): real
    requires Numeric(v)
  {
    if v.JBool? then (if v.b then 1.0 else 0.0) else NumberOf(v)
  }

  /** The == of the evaluator, used by const and enum. */
  predicate PyEq(a: Json, b: Json)
    decreases a
  {
    if Numeric(a) && Numeric(b) then NumericOf(a) == NumericOf(b)
    else if a.JArray? && b.JArray? then
      |a.items| == |b.items| && forall i :: 0 <= i < |a.items| ==> PyEq(a.items[i], b.items[i])
    else if a.JObject? && b.JObject? then
      && |a.fields| == |b.fields|
      && forall i :: 0 <= i < |a.fields| ==> PyPartner(a.fields[i], b.fields)
    else a == b
  }

  predicate PyPartner(f: Field, others: seq<Field>)
    decreases f
  {
    exists j :: 0 <= j < |others| && others[j].key == f.key && PyEq(f.value, others[j].value)
  }

  /** Instance equality of JSON Schema draft 2020-12 (Core, section 4.2.2): numbers are compared
      by value and a boolean equals no number. */
  ghost predicate JsonEq(a: Json, b: Json)
    decreases a
  {
    if IsNumber(a) && IsNumber(b) then NumberOf(a) == NumberOf(b)
    else if a.JArray? && b.JArray? then
      |a.items| == |b.items| && forall i :: 0 <= i < |a.items| ==> JsonEq(a.items[i], b.items[i])
    else if a.JObject? && b.JObject? then
      && |a.fields| == |b.fields|
      && forall i :: 0 <= i < |a.fields| ==> JsonPartner(a.fields[i], b.fields)
    else a == b
  }

  ghost predicate JsonPartner(f: Field, others: seq<Field>)
    decreases f
  {
    exists j :: 0 <= j < |others| && others[j].key == f.key && JsonEq(f.value, others[j].value)
  }

  /** Keys are distinct at every depth, as in any decoded dictionary. */
  ghost predicate DistinctKeys(v: Json) {
    match v
    case JArray(items) => forall i :: 0 <= i < |items| ==> DistinctKeys(items[i])
    case JObject(fields) =>
      && (forall i, j :: SameKey(fields, fields, i, j) ==> i == j)
      && forall i :: 0 <= i < |fields| ==> DistinctKeys(fields[i].value)
    case _ => true
  }

  /** No boolean of one value stands where the other has a number. */
  ghost predicate NoBoolForNumber(a: Json, b: Json)
    decreases a
  {
    && !(a.JBool? && IsNumber(b)) && !(IsNumber(a) && b.JBool?)
    && (a.JArray? && b.JArray? && |a.items| == |b.items| ==>
          forall i :: 0 <= i < |a.items| ==> NoBoolForNumber(a.items[i], b.items[i]))
    && (a.JObject? && b.JObject? ==>
          forall i, j :: SameKey(a.fields, b.fields, i, j) ==> NoBoolForNumber(a.fields[i].value, b.fields[j].value))
  }

  /** The evaluator's equality is that of JSON Schema exactly where no boolean meets a number. */
  lemma {:induction false} EqualityAgrees(a: Json, b: Json)
    requires DistinctKeys(a) && DistinctKeys(b)
    ensures JsonEq(a, b) <==> PyEq(a, b) && NoBoolForNumber(a, b)
    decreases a
  {
    if a.JArray? && b.JArray? && |a.items| == |b.items| {
      forall i | 0 <= i < |a.items|
        ensures JsonEq(a.items[i], b.items[i]) <==> PyEq(a.items[i], b.items[i]) && NoBoolForNumber(a.items[i], b.items[i])
      {
        EqualityAgrees(a.items[i], b.items[i]);
      }
    } else if a.JObject? && b.JObject? {
      forall i, j | 0 <= i < |a.fields| && 0 <= j < |b.fields|
        ensures JsonEq(a.fields[i].value, b.fields[j].value) <==>
                PyEq(a.fields[i].value, b.fields[j].value) && NoBoolForNumber(a.fields[i].value, b.fields[j].value)
      {
        EqualityAgrees(a.fields[i].value, b.fields[j].value);
      }
      ObjectEqualityAgrees(a.fields, b.fields);
    }
  }

  lemma ObjectEqualityAgrees(s: seq<Field>, t: seq<Field>)
    requires DistinctKeys(JObject(s)) && DistinctKeys(JObject(t))
    requires forall i, j :: 0 <= i < |s| && 0 <= j < |t| ==>
               (JsonEq(s[i].value, t[j].value) <==> PyEq(s[i].value, t[j].value) && NoBoolForNumber(s[i].value, t[j].value))
    ensures JsonEq(JObject(s), JObject(t)) <==>
            PyEq(JObject(s), JObject(t)) && NoBoolForNumber(JObject(s), JObject(t))
  {
    if JsonEq(JObject(s), JObject(t)) {
      forall i | 0 <= i < |s| ensures PyPartner(s[i], t) {
        assert JsonPartner(s[i], t);
      }
      forall i, j | SameKey(s, t, i, j) ensures NoBoolForNumber(s[i].value, t[j].value) {
        assert JsonPartner(s[i], t);
        var k :| 0 <= k < |t| && t[k].key == s[i].key && JsonEq(s[i].value, t[k].value);
        assert SameKey(t, t, k, j);
      }
    }
    if PyEq(JObject(s), JObject(t)) && NoBoolForNumber(JObject(s), JObject(t)) {
      forall i | 0 <= i < |s| ensures JsonPartner(s[i], t) {
        assert PyPartner(s[i], t);
        var j :| 0 <= j < |t| && t[j].key == s[i].key && PyEq(s[i].value, t[j].value);
        assert SameKey(s, t, i, j);
      }
    }
  }

  // ----- schemas -----

  /** One schema node. Of a node with a $ref only the reference is looked at; `test` and `consequent` are
      the if and then keywords, which count only for entries of allOf. `otherKeywords` are the
      keywords outside the supported set. */
  datatype Schema = Schema(
    ref: Option<string>,
    otherKeywords: seq<string>,
    types: Option<seq<string>>,
    constant: Option<Json>,
    choices: Option<seq<Json>>,
    minLength: Option<int>,
    maxLength: Option<int>,
    pattern: Option<string>,
    dateTime: bool,
    minimum: Option<real>,
    maximum: Option<real>,
    required: seq<string>,
    properties: seq<Property>,
    closed: bool,
    minItems: Option<int>,
    items: Option<Schema>,
    allOf: seq<Schema>,
    test: Option<Schema>,
    consequent: Option<Schema>)

  datatype Property = Property(name: string, schema: Schema)

  /** The document around a node, the two regular expression engines as functions, and a rank for
      the definitions that witnesses that no $ref leads back to itself at the same payload (SchemaGrounding
      proves that there is one exactly when none does). */
  datatype Document = Document(
    defs: seq<Property>, matches: (string, string) -> bool, isDateTime: string -> bool, rank: string -> nat)

  const SUPPORTED_TYPES: set<string> := {"string", "integer", "number", "boolean", "object", "array", "null"}

  const REF_PREFIX := "#/$defs/"

  predicate MatchesType(v: Json, name: string) {
    if name == "integer" then v.JInt?
    else if name == "number" then IsNumber(v)
    else if name == "boolean" then v.JBool?
    else if name == "string" then v.JString?
    else if name == "object" then v.JObject?
    else if name == "array" then v.JArray?
    else name == "null" && v.JNull?
  }

  /** A number without a fractional part. */
  predicate IsWhole(v: Json) {
    IsNumber(v) && NumberOf(v).Floor as real == NumberOf(v)
  }

  /** The type names of a payload in JSON Schema draft 2020-12 (Validation, section 6.1.1): an integer is
      any number with a zero fractional part, however it is written. */
  function TypeNames(v: Json): set<string> {
    match v
    case JNull => {"null"}
    case JBool(_) => {"boolean"}
    case JInt(_) => {"integer", "number"}
    case JFloat(r) => if r.Floor as real == r then {"integer", "number"} else {"number"}
    case JString(_) => {"string"}
    case JArray(_) => {"array"}
    case JObject(_) => {"object"}
  }

  predicate StandardType(v: Json, name: string) {
    name in TypeNames(v)
  }

  /** The evaluator's types are the standard's except that it refuses whole floats as integers. */
  lemma TypesAgree(v: Json, name: string)
    ensures (MatchesType(v, name) <==> StandardType(v, name)) <==> !(name == "integer" && v.JFloat? && IsWhole(v))
  {
  }

  /** The names it takes for a payload, written out. */
  function EvaluatorTypes(v: Json): set<string> {
    if v.JFloat? then {"number"} else TypeNames(v)
  }

  lemma EvaluatorTypesAre(v: Json, name: string)
    ensures MatchesType(v, name) <==> name in EvaluatorTypes(v)
  {
  }

  lemma WholeFloatIsRefused()
    ensures StandardType(JFloat(1.0), "integer") && !MatchesType(JFloat(1.0), "integer")
  {
  }

  function Find(properties: seq<Property>, name: string): Option<Schema> {
    if properties == [] then None
    else if properties[0].name == name then Some(properties[0].schema)
    else Find(properties[1..], name)
  }

  lemma {:induction false} FindSmaller(properties: seq<Property>, name: string)
    requires Find(properties, name).Some?
    ensures exists i :: 0 <= i < |properties| && properties[i].schema == Find(properties, name).value
  {
    if properties[0].name == name {
      assert properties[0].schema == Find(properties, name).value;
    } else {
      FindSmaller(properties[1..], name);
      var i :| 0 <= i < |properties[1..]| && properties[1..][i].schema == Find(properties, name).value;
      assert properties[i + 1].schema == Find(properties, name).value;
    }
  }

  predicate FirstNamed(properties: seq<Property>, name: string, i: int) {
    0 <= i < |properties| && properties[i].name == name && forall k :: 0 <= k < i ==> properties[k].name != name
  }

  /** A lookup finds the property of that name, and none exactly when there is none. */
  lemma {:induction false} FindIsFirst(properties: seq<Property>, name: string)
    ensures Find(properties, name).None? <==> forall i :: 0 <= i < |properties| ==> properties[i].name != name
    ensures Find(properties, name).Some? ==>
              exists i :: FirstNamed(properties, name, i) && properties[i].schema == Find(properties, name).value
  {
    if properties != [] {
      var rest := properties[1..];
      FindIsFirst(rest, name);
      assert forall k :: 0 <= k < |rest| ==> rest[k] == properties[k + 1];
      if properties[0].name == name {
        assert FirstNamed(properties, name, 0);
      } else if Find(rest, name).Some? {
        var i :| FirstNamed(rest, name, i) && rest[i].schema == Find(rest, name).value;
        forall k | 0 <= k < i + 1 ensures properties[k].name != name {
          assert k > 0 ==> rest[k - 1] == properties[k];
        }
        assert FirstNamed(properties, name, i + 1);
      }
    }
  }

  /** A reference resolves to the definition it names and nowhere else. */
  lemma ResolveIsLookup(doc: Document, ref: string, name: string)
    ensures Resolve(doc, "#/$defs/" + name) == Find(doc.defs, name)
    ensures Resolve(doc, ref).Some? ==> exists n :: ref == "#/$defs/" + n && Resolve(doc, ref) == Find(doc.defs, n)
  {
    var full := "#/$defs/" + name;
    assert full[..|REF_PREFIX|] == REF_PREFIX && full[|REF_PREFIX|..] == name;
    if Resolve(doc, ref).Some? {
      assert ref == "#/$defs/" + ref[|REF_PREFIX|..];
    }
  }

  function RefName(ref: string): Option<string> {
    if |ref| >= |REF_PREFIX| && ref[..|REF_PREFIX|] == REF_PREFIX then Some(ref[|REF_PREFIX|..]) else None
  }

  /** _resolve_ref; None when it raises. */
  function Resolve(doc: Document, ref: string): Option<Schema> {
    var name := RefName(ref);
    if name.None? then None else Find(doc.defs, name.value)
  }

  // ----- references must not cycle in place -----

  /** A bound for the chain of $refs that a node can start without descending into the payload. */
  function Height(doc: Document, node: Schema): nat
    decreases node, 0
  {
    if node.ref.Some? then
      var name := RefName(node.ref.value);
      if name.None? then 0 else doc.rank(name.value) + 1
    else EntriesHeight(doc, node, |node.allOf|)
  }

  function EntriesHeight(doc: Document, node: Schema, n: nat): nat
    requires n <= |node.allOf|
    decreases node, 0, n
  {
    if n == 0 then 0
    else
      var entry := node.allOf[n - 1];
      var own := if entry.test.None? then Height(doc, entry)
                 else Max(Height(doc, entry.test.value), if entry.consequent.Some? then Height(doc, entry.consequent.value) else 0);
      Max(EntriesHeight(doc, node, n - 1), own)
  }
}
