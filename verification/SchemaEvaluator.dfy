/**
 The evaluator itself: the exact error list it computes, its declarative meaning, and the methods
 with their shared error list proved against the specification.
 */
module SchemaEvaluator {
  import opened Prelude
  import opened JsonSchema

  datatype Segment = Key(key: string) | Index(i: nat)

  datatype Rule =
    | TypeRule | ConstRule | EnumRule
    | MinLengthRule | MaxLengthRule | PatternRule | DateTimeRule
    | MinimumRule | MaximumRule
    | RequiredRule(key: string) | ClosedRule(key: string)
    | MinItemsRule

  datatype Violation = Violation(path: seq<Segment>, rule: Rule)

  /** `Raised` stands for UnsupportedSchemaFeatureError. */
  datatype Outcome = Violations(list: seq<Violation>) | Raised

  const NONE: Outcome := Violations([])

  function Then(a: Outcome, b: Outcome): Outcome {
    if a.Raised? || b.Raised? then Raised else Violations(a.list + b.list)
  }

  /** No definition reaches itself through $ref and allOf without descending into the payload. */
  ghost predicate Grounded(doc: Document) {
    forall name :: Find(doc.defs, name).Some? ==> Height(doc, Find(doc.defs, name).value) <= doc.rank(name)
  }

  // ----- keywords that look at one value -----

  predicate SupportedTypes(node: Schema) {
    node.types.Some? ==>
      && |node.types.value| > 0
      && forall i :: 0 <= i < |node.types.value| ==> node.types.value[i] in SUPPORTED_TYPES
  }

  predicate TypeOk(v: Json, node: Schema) {
    node.types.Some? ==> exists i :: 0 <= i < |node.types.value| && MatchesType(v, node.types.value[i])
  }

  predicate ConstOk(v: Json, node: Schema) {
    node.constant.Some? ==> PyEq(v, node.constant.value)
  }

  predicate EnumOk(v: Json, node: Schema) {
    node.choices.Some? ==> exists i :: 0 <= i < |node.choices.value| && PyEq(v, node.choices.value[i])
  }

  predicate MinLengthOk(s: string, node: Schema) {
    node.minLength.Some? ==> |s| >= node.minLength.value
  }

  predicate MaxLengthOk(s: string, node: Schema) {
    node.maxLength.Some? ==> |s| <= node.maxLength.value
  }

  predicate PatternOk(doc: Document, s: string, node: Schema) {
    node.pattern.Some? ==> doc.matches(node.pattern.value, s)
  }

  predicate DateTimeOk(doc: Document, s: string, node: Schema) {
    node.dateTime ==> doc.isDateTime(s)
  }

  predicate MinimumOk(v: Json, node: Schema)
    requires IsNumber(v)
  {
    node.minimum.Some? ==> NumberOf(v) >= node.minimum.value
  }

  predicate MaximumOk(v: Json, node: Schema)
    requires IsNumber(v)
  {
    node.maximum.Some? ==> NumberOf(v) <= node.maximum.value
  }

  predicate ScalarOk(doc: Document, v: Json, node: Schema) {
    && (v.JString? ==> MinLengthOk(v.s, node) && MaxLengthOk(v.s, node) && PatternOk(doc, v.s, node) && DateTimeOk(doc, v.s, node))
    && (IsNumber(v) ==> MinimumOk(v, node) && MaximumOk(v, node))
  }

  function Unless(ok: bool, path: seq<Segment>, rule: Rule): seq<Violation> {
    if ok then [] else [Violation(path, rule)]
  }

  function ScalarViolations(doc: Document, v: Json, node: Schema, path: seq<Segment>): seq<Violation> {
    if v.JString? then
      Unless(MinLengthOk(v.s, node), path, MinLengthRule) +
      Unless(MaxLengthOk(v.s, node), path, MaxLengthRule) +
      Unless(PatternOk(doc, v.s, node), path, PatternRule) +
      Unless(DateTimeOk(doc, v.s, node), path, DateTimeRule)
    else if IsNumber(v) then
      Unless(MinimumOk(v, node), path, MinimumRule) + Unless(MaximumOk(v, node), path, MaximumRule)
    else []
  }

  lemma ScalarExact(doc: Document, v: Json, node: Schema, path: seq<Segment>)
    ensures ScalarViolations(doc, v, node, path) == [] <==> ScalarOk(doc, v, node)
  {
  }

  function RequiredViolations(required: seq<string>, fields: seq<Field>, path: seq<Segment>): seq<Violation> {
    if required == [] then []
    else
      var last := required[|required| - 1];
      RequiredViolations(required[..|required| - 1], fields, path) + Unless(HasKey(fields, last), path, RequiredRule(last))
  }

  lemma {:induction false} RequiredExact(required: seq<string>, fields: seq<Field>, path: seq<Segment>)
    ensures RequiredViolations(required, fields, path) == [] <==>
            forall i :: 0 <= i < |required| ==> HasKey(fields, required[i])
  {
    if required != [] {
      RequiredExact(required[..|required| - 1], fields, path);
    }
  }

  // ----- the error list -----

  function Check(doc: Document, v: Json, node: Schema, path: seq<Segment>): Outcome
    requires Grounded(doc)
    decreases v, Height(doc, node), node, 1, 0
  {
    if node.ref.Some? then
      var target := Resolve(doc, node.ref.value);
      if target.None? then Raised else Check(doc, v, target.value, path)
    else if node.otherKeywords != [] || !SupportedTypes(node) then Raised
    else if !TypeOk(v, node) then Violations([Violation(path, TypeRule)])
    else if !ConstOk(v, node) then Violations([Violation(path, ConstRule)])
    else if !EnumOk(v, node) then Violations([Violation(path, EnumRule)])
    else CheckKeywords(doc, v, node, path)
  }

  function CheckKeywords(doc: Document, v: Json, node: Schema, path: seq<Segment>): Outcome
    requires Grounded(doc) && node.ref.None?
    decreases v, Height(doc, node), node, 0, 2
  {
    Then(Then(Then(Violations(ScalarViolations(doc, v, node, path)), CheckObject(doc, v, node, path)),
              CheckArray(doc, v, node, path)),
         CheckEntries(doc, v, node, path, |node.allOf|))
  }

  function CheckObject(doc: Document, v: Json, node: Schema, path: seq<Segment>): Outcome
    requires Grounded(doc)
    decreases v, Height(doc, node), node, 0, 1
  {
    if !v.JObject? then NONE
    else Then(Violations(RequiredViolations(node.required, v.fields, path)), CheckFields(doc, v, node, path, |v.fields|))
  }

  function CheckFields(doc: Document, v: Json, node: Schema, path: seq<Segment>, n: nat): Outcome
    requires Grounded(doc) && v.JObject? && n <= |v.fields|
    decreases v, Height(doc, node), node, 0, 0, n
  {
    if n == 0 then NONE
    else Then(CheckFields(doc, v, node, path, n - 1), CheckField(doc, v, node, path, n - 1))
  }

  function CheckField(doc: Document, v: Json, node: Schema, path: seq<Segment>, i: nat): Outcome
    requires Grounded(doc) && v.JObject? && i < |v.fields|
    decreases v, Height(doc, node), node, 0, 0, 0
  {
    var f := v.fields[i];
    var property := Find(node.properties, f.key);
    if property.Some? then Check(doc, f.value, property.value, path + [Key(f.key)])
    else Violations(Unless(!node.closed, path, ClosedRule(f.key)))
  }

  function CheckArray(doc: Document, v: Json, node: Schema, path: seq<Segment>): Outcome
    requires Grounded(doc)
    decreases v, Height(doc, node), node, 0, 1
  {
    if !v.JArray? then NONE
    else
      Then(Violations(Unless(node.minItems.Some? ==> |v.items| >= node.minItems.value, path, MinItemsRule)),
           if node.items.None? then NONE else CheckItems(doc, v, node, path, |v.items|))
  }

  function CheckItems(doc: Document, v: Json, node: Schema, path: seq<Segment>, n: nat): Outcome
    requires Grounded(doc) && v.JArray? && node.items.Some? && n <= |v.items|
    decreases v, Height(doc, node), node, 0, 0, n
  {
    if n == 0 then NONE
    else
      Then(CheckItems(doc, v, node, path, n - 1),
           Check(doc, v.items[n - 1], node.items.value, path + [Index(n - 1)]))
  }

  lemma {:induction false} EntryHeight(doc: Document, node: Schema, n: nat, i: nat)
    requires node.ref.None? && i < n <= |node.allOf|
    ensures var entry := node.allOf[i];
            && (entry.test.None? ==> Height(doc, entry) <= EntriesHeight(doc, node, n))
            && (entry.test.Some? ==> Height(doc, entry.test.value) <= EntriesHeight(doc, node, n))
            && (entry.test.Some? && entry.consequent.Some? ==>
                  Height(doc, entry.consequent.value) <= EntriesHeight(doc, node, n))
  {
    if i < n - 1 {
      EntryHeight(doc, node, n - 1, i);
    }
  }

  function CheckEntries(doc: Document, v: Json, node: Schema, path: seq<Segment>, n: nat): Outcome
    requires Grounded(doc) && node.ref.None? && n <= |node.allOf|
    decreases v, Height(doc, node), node, 0, 0, n
  {
    if n == 0 then NONE
    else
      EntryHeight(doc, node, |node.allOf|, n - 1);
      Then(CheckEntries(doc, v, node, path, n - 1), CheckEntry(doc, v, node, path, n - 1))
  }

  /** _apply_conditional for one entry of allOf: the errors of the test are only counted. */
  function CheckEntry(doc: Document, v: Json, node: Schema, path: seq<Segment>, i: nat): Outcome
    requires Grounded(doc) && node.ref.None? && i < |node.allOf|
    decreases v, Height(doc, node), node, 0, 0, 0
  {
    EntryHeight(doc, node, |node.allOf|, i);
    var entry := node.allOf[i];
    if entry.test.None? then Check(doc, v, entry, path)
    else
      var branch := Check(doc, v, entry.test.value, path);
      if branch.Raised? then Raised
      else if branch.list == [] && entry.consequent.Some? then Check(doc, v, entry.consequent.value, path)
      else NONE
  }

  // ----- the declarative meaning -----

  /** Some declared type name is a name of the payload. */
  predicate TypeHolds(v: Json, node: Schema) {
    match node.types
    case None => true
    case Some(names) => exists i :: 0 <= i < |names| && names[i] in EvaluatorTypes(v)
  }

  predicate ConstHolds(v: Json, node: Schema) {
    match node.constant
    case None => true
    case Some(w) => PyEq(v, w)
  }

  predicate EnumHolds(v: Json, node: Schema) {
    match node.choices
    case None => true
    case Some(choices) => exists i :: 0 <= i < |choices| && PyEq(v, choices[i])
  }

  /** Not outside the closed range; an absent bound is no bound. */
  predicate WithinInt(low: Option<int>, x: int, high: Option<int>) {
    !(low.Some? && x < low.value) && !(high.Some? && x > high.value)
  }

  predicate WithinReal(low: Option<real>, x: real, high: Option<real>) {
    !(low.Some? && x < low.value) && !(high.Some? && x > high.value)
  }

  /** The keywords about strings say nothing about other payloads, and so for numbers. */
  predicate ScalarHolds(doc: Document, v: Json, node: Schema) {
    match v
    case JString(s) =>
      && WithinInt(node.minLength, |s|, node.maxLength)
      && (node.pattern.None? || doc.matches(node.pattern.value, s))
      && (!node.dateTime || doc.isDateTime(s))
    case JInt(n) => WithinReal(node.minimum, n as real, node.maximum)
    case JFloat(r) => WithinReal(node.minimum, r, node.maximum)
    case _ => true
  }

  /** The tests of the evaluator are these conditions. */
  lemma TestsAreConditions(doc: Document, v: Json, node: Schema)
    ensures TypeOk(v, node) <==> TypeHolds(v, node)
    ensures ConstOk(v, node) <==> ConstHolds(v, node)
    ensures EnumOk(v, node) <==> EnumHolds(v, node)
    ensures ScalarOk(doc, v, node) <==> ScalarHolds(doc, v, node)
  {
    if node.types.Some? {
      forall i | 0 <= i < |node.types.value|
        ensures MatchesType(v, node.types.value[i]) <==> node.types.value[i] in EvaluatorTypes(v)
      {
        EvaluatorTypesAre(v, node.types.value[i]);
      }
    }
  }

  /** What a node demands of a payload: all its keywords, with no order and no early exit. */
  ghost predicate Accepts(doc: Document, v: Json, node: Schema)
    requires Grounded(doc)
    decreases v, Height(doc, node), node, 1, 0
  {
    if node.ref.Some? then
      var target := Resolve(doc, node.ref.value);
      target.Some? && Accepts(doc, v, target.value)
    else
      && TypeHolds(v, node) && ConstHolds(v, node) && EnumHolds(v, node) && ScalarHolds(doc, v, node)
      && AcceptsObject(doc, v, node)
      && AcceptsArray(doc, v, node)
      && AcceptsEntries(doc, v, node, |node.allOf|)
  }

  ghost predicate AcceptsObject(doc: Document, v: Json, node: Schema)
    requires Grounded(doc)
    decreases v, Height(doc, node), node, 0, 2
  {
    v.JObject? ==>
      && (forall i :: 0 <= i < |node.required| ==> HasKey(v.fields, node.required[i]))
      && AcceptsFields(doc, v, node, |v.fields|)
  }

  ghost predicate AcceptsFields(doc: Document, v: Json, node: Schema, n: nat)
    requires Grounded(doc) && v.JObject? && n <= |v.fields|
    decreases v, Height(doc, node), node, 0, 1
  {
    forall i :: 0 <= i < n ==> AcceptsField(doc, v, node, i)
  }

  ghost predicate AcceptsArray(doc: Document, v: Json, node: Schema)
    requires Grounded(doc)
    decreases v, Height(doc, node), node, 0, 2
  {
    v.JArray? ==>
      && (node.minItems.Some? ==> |v.items| >= node.minItems.value)
      && (node.items.Some? ==> AcceptsItems(doc, v, node, |v.items|))
  }

  ghost predicate AcceptsItems(doc: Document, v: Json, node: Schema, n: nat)
    requires Grounded(doc) && v.JArray? && node.items.Some? && n <= |v.items|
    decreases v, Height(doc, node), node, 0, 1
  {
    forall i :: 0 <= i < n ==> AcceptsItem(doc, v, node, i)
  }

  ghost predicate AcceptsEntries(doc: Document, v: Json, node: Schema, n: nat)
    requires Grounded(doc) && node.ref.None? && n <= |node.allOf|
    decreases v, Height(doc, node), node, 0, 1
  {
    forall i :: 0 <= i < n ==> AcceptsEntry(doc, v, node, i)
  }

  ghost predicate AcceptsField(doc: Document, v: Json, node: Schema, i: nat)
    requires Grounded(doc) && v.JObject? && i < |v.fields|
    decreases v, Height(doc, node), node, 0, 0
  {
    var property := Find(node.properties, v.fields[i].key);
    if property.Some? then Accepts(doc, v.fields[i].value, property.value) else !node.closed
  }

  ghost predicate AcceptsItem(doc: Document, v: Json, node: Schema, i: nat)
    requires Grounded(doc) && v.JArray? && node.items.Some? && i < |v.items|
    decreases v, Height(doc, node), node, 0, 0
  {
    Accepts(doc, v.items[i], node.items.value)
  }

  /** An entry with if and then is an implication, any other entry a conjunct. */
  ghost predicate AcceptsEntry(doc: Document, v: Json, node: Schema, i: nat)
    requires Grounded(doc) && node.ref.None? && i < |node.allOf|
    decreases v, Height(doc, node), node, 0, 0
  {
    EntryHeight(doc, node, |node.allOf|, i);
    var entry := node.allOf[i];
    if entry.test.None? then Accepts(doc, v, entry)
    else Accepts(doc, v, entry.test.value) && entry.consequent.Some? ==> Accepts(doc, v, entry.consequent.value)
  }

  // ----- what an entry with a condition leaves out -----

  /** The condition of an entry: its if and then as an implication. */
  ghost predicate AcceptsCondition(doc: Document, v: Json, entry: Schema)
    requires Grounded(doc)
  {
    entry.test.Some? && Accepts(doc, v, entry.test.value) && entry.consequent.Some? ==>
      Accepts(doc, v, entry.consequent.value)
  }

  lemma {:induction false} EntryMeans(doc: Document, v: Json, node: Schema, i: nat)
    requires Grounded(doc) && node.ref.None? && i < |node.allOf|
    ensures var entry := node.allOf[i];
            AcceptsEntry(doc, v, node, i) <==>
            if entry.test.None? then Accepts(doc, v, entry) else AcceptsCondition(doc, v, entry)
  {
    var entry := node.allOf[i];
    if entry.test.Some? {
      assert AcceptsEntry(doc, v, node, i) <==>
        (Accepts(doc, v, entry.test.value) && entry.consequent.Some? ==> Accepts(doc, v, entry.consequent.value));
    }
  }

  /** All keywords of an entry: the condition and everything beside it. */
  ghost predicate AcceptsWhole(doc: Document, v: Json, entry: Schema)
    requires Grounded(doc)
  {
    AcceptsCondition(doc, v, entry) && Accepts(doc, v, entry)
  }

  /** Of an entry with an if the evaluator looks at nothing but if and then: two entries that share them
      give the same outcome, whatever other keywords they carry, supported or not. */
  lemma {:induction false} EntryIgnoresOthers(
    doc: Document, v: Json, node: Schema, other: Schema, path: seq<Segment>, i: nat)
    requires Grounded(doc) && node.ref.None? && other.ref.None? && i < |node.allOf| && i < |other.allOf|
    requires node.allOf[i].test.Some? && other.allOf[i].test == node.allOf[i].test
    requires other.allOf[i].consequent == node.allOf[i].consequent
    ensures CheckEntry(doc, v, node, path, i) == CheckEntry(doc, v, other, path, i)
    ensures AcceptsEntry(doc, v, node, i) <==> AcceptsEntry(doc, v, other, i)
  {
    EntryMeans(doc, v, node, i);
    EntryMeans(doc, v, other, i);
  }

  /** So an entry means all its keywords exactly when it has no if, or its other keywords hold of
      whatever its condition holds of. */
  lemma {:induction false} EntryIsWholeIff(doc: Document, v: Json, node: Schema, i: nat)
    requires Grounded(doc) && node.ref.None? && i < |node.allOf|
    ensures var entry := node.allOf[i];
            (AcceptsEntry(doc, v, node, i) <==> AcceptsWhole(doc, v, entry)) <==>
            entry.test.None? || Accepts(doc, v, entry) || !AcceptsCondition(doc, v, entry)
  {
    EntryMeans(doc, v, node, i);
  }

  /** A schema without keywords. */
  const EMPTY: Schema := Schema(None, [], None, None, None, None, None, None, false, None, None, [], [], false, None,
                                None, [], None, None)

  /** No keyword stands beside if and then. */
  predicate OnlyCondition(entry: Schema) {
    entry.(test := None, consequent := None) == EMPTY
  }

  /** Such an entry means all its keywords for every payload. */
  lemma {:induction false} OnlyConditionIsWhole(doc: Document, v: Json, node: Schema, i: nat)
    requires Grounded(doc) && node.ref.None? && i < |node.allOf| && OnlyCondition(node.allOf[i])
    ensures AcceptsEntry(doc, v, node, i) <==> AcceptsWhole(doc, v, node.allOf[i])
  {
    EntryMeans(doc, v, node, i);
    var entry := node.allOf[i];
    assert entry.ref.None? && entry.allOf == [] && entry.required == [] && entry.properties == [];
    if v.JObject? {
      forall k | 0 <= k < |v.fields| ensures AcceptsField(doc, v, entry, k) {
        assert Find(entry.properties, v.fields[k].key).None? && !entry.closed;
      }
    }
    assert AcceptsObject(doc, v, entry) && AcceptsArray(doc, v, entry) && AcceptsEntries(doc, v, entry, 0);
    assert Accepts(doc, v, entry);
  }

  /** A required key beside an if is not asked for, and an unknown keyword there is not refused. */
  lemma {:induction false} KeywordBesideIfIsLost(doc: Document, path: seq<Segment>)
    requires Grounded(doc)
    ensures var entry := EMPTY.(required := ["k"], otherKeywords := ["else"], test := Some(EMPTY));
            var node, v := EMPTY.(allOf := [entry]), JObject([]);
            && Check(doc, v, node, path) == NONE
            && !AcceptsWhole(doc, v, entry) && Check(doc, v, entry, path).Raised?
  {
    var entry := EMPTY.(required := ["k"], otherKeywords := ["else"], test := Some(EMPTY));
    var node, v := EMPTY.(allOf := [entry]), JObject([]);
    EmptyIsClean(doc, v, path);
    assert entry.required[0] == "k" && !HasKey(v.fields, "k");
    assert !AcceptsObject(doc, v, entry);
    assert CheckEntry(doc, v, node, path, 0) == NONE;
    assert Then(NONE, NONE) == NONE;
    assert CheckEntries(doc, v, node, path, 0) == NONE;
    assert CheckEntries(doc, v, node, path, 1) == NONE;
    NothingElse(doc, v, node, path);
  }

  /** A node whose only keyword is allOf has the outcome of its entries on an empty object. */
  lemma {:induction false} NothingElse(doc: Document, v: Json, node: Schema, path: seq<Segment>)
    requires Grounded(doc) && v == JObject([]) && node.(allOf := []) == EMPTY
    requires CheckEntries(doc, v, node, path, |node.allOf|) == NONE
    ensures Check(doc, v, node, path) == NONE
  {
    assert Then(NONE, NONE) == NONE;
    assert ScalarViolations(doc, v, node, path) == [];
    assert RequiredViolations(node.required, v.fields, path) == [];
    assert CheckFields(doc, v, node, path, 0) == NONE;
    assert CheckObject(doc, v, node, path) == NONE && CheckArray(doc, v, node, path) == NONE;
    assert CheckKeywords(doc, v, node, path) == NONE;
  }

  lemma {:induction false} EmptyIsClean(doc: Document, v: Json, path: seq<Segment>)
    requires Grounded(doc) && v == JObject([])
    ensures Check(doc, v, EMPTY, path) == NONE
  {
    assert CheckEntries(doc, v, EMPTY, path, 0) == NONE;
    NothingElse(doc, v, EMPTY, path);
  }

  // ----- supported schemas -----

  /** Every keyword is supported and well formed and every $ref resolves, wherever evaluation can go. */
  ghost predicate Supported(doc: Document, node: Schema)
    decreases node, 1
  {
    if node.ref.Some? then Resolve(doc, node.ref.value).Some?
    else
      && node.otherKeywords == []
      && SupportedTypes(node)
      && (forall i :: 0 <= i < |node.properties| ==> Supported(doc, node.properties[i].schema))
      && (node.items.Some? ==> Supported(doc, node.items.value))
      && (forall i :: 0 <= i < |node.allOf| ==> SupportedEntry(doc, node.allOf[i]))
  }

  ghost predicate SupportedEntry(doc: Document, entry: Schema)
    decreases entry, 2
  {
    if entry.test.None? then Supported(doc, entry)
    else Supported(doc, entry.test.value) && (entry.consequent.Some? ==> Supported(doc, entry.consequent.value))
  }

  ghost predicate SupportedDocument(doc: Document) {
    Grounded(doc) && forall i :: 0 <= i < |doc.defs| ==> Supported(doc, doc.defs[i].schema)
  }

  lemma FoundIsSupported(doc: Document, properties: seq<Property>, name: string)
    requires forall i :: 0 <= i < |properties| ==> Supported(doc, properties[i].schema)
    requires Find(properties, name).Some?
    ensures Supported(doc, Find(properties, name).value)
  {
    FindSmaller(properties, name);
  }

  // ----- the evaluator accepts exactly what the meaning accepts -----

  predicate Clean(o: Outcome) {
    o == NONE
  }

  lemma CleanThen(a: Outcome, b: Outcome)
    ensures Clean(Then(a, b)) <==> Clean(a) && Clean(b)
    ensures !a.Raised? && !b.Raised? <==> !Then(a, b).Raised?
  {
  }

  /** On a supported schema evaluation never raises, and it reports nothing exactly when the
      payload has the declarative meaning. */
  lemma {:induction false} CheckIsMeaning(doc: Document, v: Json, node: Schema, path: seq<Segment>)
    requires SupportedDocument(doc) && Supported(doc, node)
    ensures !Check(doc, v, node, path).Raised?
    ensures Clean(Check(doc, v, node, path)) <==> Accepts(doc, v, node)
    decreases v, Height(doc, node), node, 1, 0
  {
    TestsAreConditions(doc, v, node);
    if node.ref.Some? {
      var name := RefName(node.ref.value).value;
      FoundIsSupported(doc, doc.defs, name);
      CheckIsMeaning(doc, v, Resolve(doc, node.ref.value).value, path);
    } else if TypeOk(v, node) && ConstOk(v, node) && EnumOk(v, node) {
      var scalars := Violations(ScalarViolations(doc, v, node, path));
      ScalarExact(doc, v, node, path);
      ObjectIsMeaning(doc, v, node, path);
      ArrayIsMeaning(doc, v, node, path);
      EntriesAreMeaning(doc, v, node, path, |node.allOf|);
      var fields, items := CheckObject(doc, v, node, path), CheckArray(doc, v, node, path);
      CleanThen(scalars, fields);
      CleanThen(Then(scalars, fields), items);
      CleanThen(Then(Then(scalars, fields), items), CheckEntries(doc, v, node, path, |node.allOf|));
    }
  }

  lemma {:induction false} ObjectIsMeaning(doc: Document, v: Json, node: Schema, path: seq<Segment>)
    requires SupportedDocument(doc) && Supported(doc, node) && node.ref.None?
    ensures !CheckObject(doc, v, node, path).Raised?
    ensures Clean(CheckObject(doc, v, node, path)) <==>
            AcceptsObject(doc, v, node)
    decreases v, Height(doc, node), node, 0, 1
  {
    if v.JObject? {
      RequiredExact(node.required, v.fields, path);
      FieldsAreMeaning(doc, v, node, path, |v.fields|);
      CleanThen(Violations(RequiredViolations(node.required, v.fields, path)), CheckFields(doc, v, node, path, |v.fields|));
    }
  }

  lemma {:induction false} FieldIsMeaning(doc: Document, v: Json, node: Schema, path: seq<Segment>, i: nat)
    requires SupportedDocument(doc) && Supported(doc, node) && node.ref.None? && v.JObject? && i < |v.fields|
    ensures !CheckField(doc, v, node, path, i).Raised?
    ensures Clean(CheckField(doc, v, node, path, i)) <==> AcceptsField(doc, v, node, i)
    decreases v, Height(doc, node), node, 0, 0, 0
  {
    var f := v.fields[i];
    var property := Find(node.properties, f.key);
    if property.Some? {
      FoundIsSupported(doc, node.properties, f.key);
      CheckIsMeaning(doc, f.value, property.value, path + [Key(f.key)]);
    }
  }

  lemma {:induction false} FieldsAreMeaning(doc: Document, v: Json, node: Schema, path: seq<Segment>, n: nat)
    requires SupportedDocument(doc) && Supported(doc, node) && node.ref.None? && v.JObject? && n <= |v.fields|
    ensures !CheckFields(doc, v, node, path, n).Raised?
    ensures Clean(CheckFields(doc, v, node, path, n)) <==> AcceptsFields(doc, v, node, n)
    decreases v, Height(doc, node), node, 0, 0, n
  {
    if n > 0 {
      FieldsAreMeaning(doc, v, node, path, n - 1);
      FieldIsMeaning(doc, v, node, path, n - 1);
      CleanThen(CheckFields(doc, v, node, path, n - 1), CheckField(doc, v, node, path, n - 1));
    }
  }

  lemma {:induction false} ArrayIsMeaning(doc: Document, v: Json, node: Schema, path: seq<Segment>)
    requires SupportedDocument(doc) && Supported(doc, node) && node.ref.None?
    ensures !CheckArray(doc, v, node, path).Raised?
    ensures Clean(CheckArray(doc, v, node, path)) <==>
            AcceptsArray(doc, v, node)
    decreases v, Height(doc, node), node, 0, 1
  {
    if v.JArray? && node.items.Some? {
      ItemsAreMeaning(doc, v, node, path, |v.items|);
    }
  }

  lemma {:induction false} ItemIsMeaning(doc: Document, v: Json, node: Schema, path: seq<Segment>, i: nat)
    requires SupportedDocument(doc) && Supported(doc, node) && node.ref.None?
    requires v.JArray? && node.items.Some? && i < |v.items|
    ensures var own := Check(doc, v.items[i], node.items.value, path + [Index(i)]);
            !own.Raised? && (Clean(own) <==> AcceptsItem(doc, v, node, i))
    decreases v, Height(doc, node), node, 0, 0, 0
  {
    CheckIsMeaning(doc, v.items[i], node.items.value, path + [Index(i)]);
  }

  lemma {:induction false} ItemsAreMeaning(doc: Document, v: Json, node: Schema, path: seq<Segment>, n: nat)
    requires SupportedDocument(doc) && Supported(doc, node) && node.ref.None?
    requires v.JArray? && node.items.Some? && n <= |v.items|
    ensures !CheckItems(doc, v, node, path, n).Raised?
    ensures Clean(CheckItems(doc, v, node, path, n)) <==> AcceptsItems(doc, v, node, n)
    decreases v, Height(doc, node), node, 0, 0, n
  {
    if n > 0 {
      ItemsAreMeaning(doc, v, node, path, n - 1);
      ItemIsMeaning(doc, v, node, path, n - 1);
      CleanThen(CheckItems(doc, v, node, path, n - 1),
                Check(doc, v.items[n - 1], node.items.value, path + [Index(n - 1)]));
    }
  }

  lemma {:induction false} EntriesAreMeaning(doc: Document, v: Json, node: Schema, path: seq<Segment>, n: nat)
    requires SupportedDocument(doc) && Supported(doc, node) && node.ref.None? && n <= |node.allOf|
    ensures !CheckEntries(doc, v, node, path, n).Raised?
    ensures Clean(CheckEntries(doc, v, node, path, n)) <==> AcceptsEntries(doc, v, node, n)
    decreases v, Height(doc, node), node, 0, 0, n
  {
    if n > 0 {
      EntriesAreMeaning(doc, v, node, path, n - 1);
      EntryIsMeaning(doc, v, node, path, n - 1);
      CleanThen(CheckEntries(doc, v, node, path, n - 1), CheckEntry(doc, v, node, path, n - 1));
    }
  }

  lemma {:induction false} EntryIsMeaning(doc: Document, v: Json, node: Schema, path: seq<Segment>, i: nat)
    requires SupportedDocument(doc) && Supported(doc, node) && node.ref.None? && i < |node.allOf|
    ensures !CheckEntry(doc, v, node, path, i).Raised?
    ensures Clean(CheckEntry(doc, v, node, path, i)) <==> AcceptsEntry(doc, v, node, i)
    decreases v, Height(doc, node), node, 0, 0, 0
  {
    EntryHeight(doc, node, |node.allOf|, i);
    var entry := node.allOf[i];
    assert SupportedEntry(doc, entry);
    if entry.test.None? {
      CheckIsMeaning(doc, v, entry, path);
    } else {
      CheckIsMeaning(doc, v, entry.test.value, path);
      if entry.consequent.Some? {
        CheckIsMeaning(doc, v, entry.consequent.value, path);
      }
    }
  }

  // ----- the evaluator with its shared error list -----

  class ErrorList {
    var entries: seq<Violation>

    constructor ()
      ensures entries == []
    {
      entries := [];
    }

    method Report(path: seq<Segment>, rule: Rule)
      modifies this
      ensures entries == old(entries) + [Violation(path, rule)]
    {
      entries := entries + [Violation(path, rule)];
    }
  }

  /** The errors list after a call that contributed an outcome. */
  ghost predicate Grew(before: seq<Violation>, after: seq<Violation>, o: Outcome) {
    !o.Raised? && after == before + o.list
  }

  lemma GrewThen(before: seq<Violation>, mid: seq<Violation>, after: seq<Violation>, a: Outcome, b: Outcome)
    requires Grew(before, mid, a) && Grew(mid, after, b)
    ensures Grew(before, after, Then(a, b))
  {
    ConcatAssociative(before, a.list, b.list);
  }

  /** _validate_node: `ok` is false when it raises. Earlier errors stay in front. */
  method ValidateNode(doc: Document, v: Json, node: Schema, path: seq<Segment>, errors: ErrorList) returns (ok: bool)
    requires Grounded(doc)
    modifies errors
    ensures ok <==> !Check(doc, v, node, path).Raised?
    ensures ok ==> Grew(old(errors.entries), errors.entries, Check(doc, v, node, path))
    decreases v, Height(doc, node), node, 1, 0
  {
    if node.ref.Some? {
      var target := Resolve(doc, node.ref.value);
      if target.None? {
        return false;
      }
      ok := ValidateNode(doc, v, target.value, path, errors);
      return;
    }
    if node.otherKeywords != [] || !SupportedTypes(node) {
      return false;
    }
    if !TypeOk(v, node) {
      errors.Report(path, TypeRule);
      return true;
    }
    if !ConstOk(v, node) {
      errors.Report(path, ConstRule);
      return true;
    }
    if !EnumOk(v, node) {
      errors.Report(path, EnumRule);
      return true;
    }
    ok := ValidateKeywords(doc, v, node, path, errors);
  }

  method ValidateKeywords(doc: Document, v: Json, node: Schema, path: seq<Segment>, errors: ErrorList) returns (ok: bool)
    requires Grounded(doc) && node.ref.None?
    modifies errors
    ensures ok <==> !CheckKeywords(doc, v, node, path).Raised?
    ensures ok ==> Grew(old(errors.entries), errors.entries, CheckKeywords(doc, v, node, path))
    decreases v, Height(doc, node), node, 0, 2
  {
    ghost var before := errors.entries;
    ghost var a, b := Violations(ScalarViolations(doc, v, node, path)), CheckObject(doc, v, node, path);
    ValidateScalar(doc, v, node, path, errors);
    ghost var first := errors.entries;
    ok := ValidateObject(doc, v, node, path, errors);
    if !ok {
      return;
    }
    ghost var second := errors.entries;
    GrewThen(before, first, second, a, b);
    ok := ValidateArray(doc, v, node, path, errors);
    if !ok {
      return;
    }
    ghost var third, c := errors.entries, CheckArray(doc, v, node, path);
    GrewThen(before, second, third, Then(a, b), c);
    ok := ValidateEntries(doc, v, node, path, errors);
    if ok {
      GrewThen(before, third, errors.entries, Then(Then(a, b), c), CheckEntries(doc, v, node, path, |node.allOf|));
    }
  }

  method ValidateScalar(doc: Document, v: Json, node: Schema, path: seq<Segment>, errors: ErrorList)
    modifies errors
    ensures errors.entries == old(errors.entries) + ScalarViolations(doc, v, node, path)
  {
    if v.JString? {
      if !MinLengthOk(v.s, node) {
        errors.Report(path, MinLengthRule);
      }
      if !MaxLengthOk(v.s, node) {
        errors.Report(path, MaxLengthRule);
      }
      if !PatternOk(doc, v.s, node) {
        errors.Report(path, PatternRule);
      }
      if !DateTimeOk(doc, v.s, node) {
        errors.Report(path, DateTimeRule);
      }
    } else if IsNumber(v) {
      if !MinimumOk(v, node) {
        errors.Report(path, MinimumRule);
      }
      if !MaximumOk(v, node) {
        errors.Report(path, MaximumRule);
      }
    }
  }

  method ValidateObject(doc: Document, v: Json, node: Schema, path: seq<Segment>, errors: ErrorList) returns (ok: bool)
    requires Grounded(doc)
    modifies errors
    ensures ok <==> !CheckObject(doc, v, node, path).Raised?
    ensures ok ==> Grew(old(errors.entries), errors.entries, CheckObject(doc, v, node, path))
    decreases v, Height(doc, node), node, 0, 1
  {
    if !v.JObject? {
      return true;
    }
    ValidateRequired(v, node, path, errors);
    ok := ValidateFields(doc, v, node, path, errors);
  }

  method ValidateRequired(v: Json, node: Schema, path: seq<Segment>, errors: ErrorList)
    requires v.JObject?
    modifies errors
    ensures errors.entries == old(errors.entries) + RequiredViolations(node.required, v.fields, path)
  {
    for i := 0 to |node.required|
      invariant errors.entries == old(errors.entries) + RequiredViolations(node.required[..i], v.fields, path)
    {
      assert node.required[..i + 1][..i] == node.required[..i];
      if !HasKey(v.fields, node.required[i]) {
        errors.Report(path, RequiredRule(node.required[i]));
      }
    }
    assert node.required[..|node.required|] == node.required;
  }

  method ValidateFields(doc: Document, v: Json, node: Schema, path: seq<Segment>, errors: ErrorList) returns (ok: bool)
    requires Grounded(doc) && v.JObject?
    modifies errors
    ensures ok <==> !CheckFields(doc, v, node, path, |v.fields|).Raised?
    ensures ok ==> Grew(old(errors.entries), errors.entries, CheckFields(doc, v, node, path, |v.fields|))
    decreases v, Height(doc, node), node, 0, 0
  {
    for i := 0 to |v.fields|
      invariant Grew(old(errors.entries), errors.entries, CheckFields(doc, v, node, path, i))
    {
      var f := v.fields[i];
      var property := Find(node.properties, f.key);
      if property.Some? {
        ok := ValidateNode(doc, f.value, property.value, path + [Key(f.key)], errors);
        if !ok {
          FieldsRaise(doc, v, node, path, i + 1, |v.fields|);
          return;
        }
      } else if node.closed {
        errors.Report(path, ClosedRule(f.key));
      }
    }
    ok := true;
  }

  /** An exception in one field is an exception of the whole loop. */
  lemma {:induction false} FieldsRaise(doc: Document, v: Json, node: Schema, path: seq<Segment>, i: nat, n: nat)
    requires Grounded(doc) && v.JObject? && i <= n <= |v.fields|
    requires CheckFields(doc, v, node, path, i).Raised?
    ensures CheckFields(doc, v, node, path, n).Raised?
    decreases n
  {
    if i < n {
      FieldsRaise(doc, v, node, path, i, n - 1);
    }
  }

  method ValidateArray(doc: Document, v: Json, node: Schema, path: seq<Segment>, errors: ErrorList) returns (ok: bool)
    requires Grounded(doc)
    modifies errors
    ensures ok <==> !CheckArray(doc, v, node, path).Raised?
    ensures ok ==> Grew(old(errors.entries), errors.entries, CheckArray(doc, v, node, path))
    decreases v, Height(doc, node), node, 0, 1
  {
    if !v.JArray? {
      return true;
    }
    if node.minItems.Some? && |v.items| < node.minItems.value {
      errors.Report(path, MinItemsRule);
    }
    if node.items.None? {
      return true;
    }
    ok := ValidateItems(doc, v, node, path, errors);
  }

  method ValidateItems(doc: Document, v: Json, node: Schema, path: seq<Segment>, errors: ErrorList) returns (ok: bool)
    requires Grounded(doc) && v.JArray? && node.items.Some?
    modifies errors
    ensures ok <==> !CheckItems(doc, v, node, path, |v.items|).Raised?
    ensures ok ==> Grew(old(errors.entries), errors.entries, CheckItems(doc, v, node, path, |v.items|))
    decreases v, Height(doc, node), node, 0, 0
  {
    for i := 0 to |v.items|
      invariant Grew(old(errors.entries), errors.entries, CheckItems(doc, v, node, path, i))
    {
      ok := ValidateNode(doc, v.items[i], node.items.value, path + [Index(i)], errors);
      if !ok {
        ItemsRaise(doc, v, node, path, i + 1, |v.items|);
        return;
      }
    }
    ok := true;
  }

  lemma {:induction false} ItemsRaise(doc: Document, v: Json, node: Schema, path: seq<Segment>, i: nat, n: nat)
    requires Grounded(doc) && v.JArray? && node.items.Some? && i <= n <= |v.items|
    requires CheckItems(doc, v, node, path, i).Raised?
    ensures CheckItems(doc, v, node, path, n).Raised?
    decreases n
  {
    if i < n {
      ItemsRaise(doc, v, node, path, i, n - 1);
    }
  }

  method ValidateEntries(doc: Document, v: Json, node: Schema, path: seq<Segment>, errors: ErrorList) returns (ok: bool)
    requires Grounded(doc) && node.ref.None?
    modifies errors
    ensures ok <==> !CheckEntries(doc, v, node, path, |node.allOf|).Raised?
    ensures ok ==> Grew(old(errors.entries), errors.entries, CheckEntries(doc, v, node, path, |node.allOf|))
    decreases v, Height(doc, node), node, 0, 1
  {
    for i := 0 to |node.allOf|
      invariant Grew(old(errors.entries), errors.entries, CheckEntries(doc, v, node, path, i))
    {
      ok := ApplyConditional(doc, v, node, path, i, errors);
      if !ok {
        EntriesRaise(doc, v, node, path, i + 1, |node.allOf|);
        return;
      }
    }
    ok := true;
  }

  lemma {:induction false} EntriesRaise(doc: Document, v: Json, node: Schema, path: seq<Segment>, i: nat, n: nat)
    requires Grounded(doc) && node.ref.None? && i <= n <= |node.allOf|
    requires CheckEntries(doc, v, node, path, i).Raised?
    ensures CheckEntries(doc, v, node, path, n).Raised?
    decreases n
  {
    if i < n {
      EntriesRaise(doc, v, node, path, i, n - 1);
    }
  }

  /** _apply_conditional: the test runs on a list of its own. */
  method ApplyConditional(doc: Document, v: Json, node: Schema, path: seq<Segment>, i: nat, errors: ErrorList)
    returns (ok: bool)
    requires Grounded(doc) && node.ref.None? && i < |node.allOf|
    modifies errors
    ensures ok <==> !CheckEntry(doc, v, node, path, i).Raised?
    ensures ok ==> Grew(old(errors.entries), errors.entries, CheckEntry(doc, v, node, path, i))
    decreases v, Height(doc, node), node, 0, 0
  {
    EntryHeight(doc, node, |node.allOf|, i);
    var entry := node.allOf[i];
    if entry.test.None? {
      ok := ValidateNode(doc, v, entry, path, errors);
      return;
    }
    var branchErrors := new ErrorList();
    ok := ValidateNode(doc, v, entry.test.value, path, branchErrors);
    if ok && branchErrors.entries == [] && entry.consequent.Some? {
      ok := ValidateNode(doc, v, entry.consequent.value, path, errors);
    }
  }

  /** The whole evaluation of a payload: on a supported schema it accepts exactly what the schema
      means, and what it appends does not disturb the errors reported before. */
  method ValidatePayload(doc: Document, v: Json, root: Schema, errors: ErrorList) returns (ok: bool)
    requires SupportedDocument(doc) && Supported(doc, root)
    modifies errors
    ensures ok && old(errors.entries) <= errors.entries
    ensures errors.entries == old(errors.entries) <==> Accepts(doc, v, root)
  {
    CheckIsMeaning(doc, v, root, []);
    ok := ValidateNode(doc, v, root, [], errors);
  }

  // ----- what the rank stands for -----

  /** A node refers to a definition without descending into the payload. */
  ghost predicate InPlace(node: Schema, name: string)
    decreases node, 0
  {
    if node.ref.Some? then RefName(node.ref.value) == Some(name)
    else exists i :: 0 <= i < |node.allOf| && EntryInPlace(node.allOf[i], name)
  }

  ghost predicate EntryInPlace(entry: Schema, name: string)
    decreases entry, 1
  {
    if entry.test.None? then InPlace(entry, name)
    else InPlace(entry.test.value, name) || (entry.consequent.Some? && InPlace(entry.consequent.value, name))
  }

  lemma {:induction false} InPlaceHeight(doc: Document, node: Schema, name: string)
    requires InPlace(node, name)
    ensures doc.rank(name) < Height(doc, node)
    decreases node, 0
  {
    if node.ref.None? {
      var i :| 0 <= i < |node.allOf| && EntryInPlace(node.allOf[i], name);
      var entry := node.allOf[i];
      EntryHeight(doc, node, |node.allOf|, i);
      if entry.test.None? {
        InPlaceHeight(doc, entry, name);
      } else if InPlace(entry.test.value, name) {
        InPlaceHeight(doc, entry.test.value, name);
      } else {
        InPlaceHeight(doc, entry.consequent.value, name);
      }
    }
  }

  /** A chain of definitions, each referring to the next at the same payload. */
  ghost predicate Chain(doc: Document, names: seq<string>) {
    forall k :: 0 <= k < |names| - 1 ==>
      Find(doc.defs, names[k]).Some? && InPlace(Find(doc.defs, names[k]).value, names[k + 1])
  }

  /** In a grounded document no such chain comes back to its start. */
  lemma {:induction false} GroundedHasNoCycle(doc: Document, names: seq<string>)
    requires Grounded(doc) && |names| >= 2 && Chain(doc, names)
    ensures doc.rank(names[|names| - 1]) < doc.rank(names[0])
    ensures names[0] != names[|names| - 1]
  {
    InPlaceHeight(doc, Find(doc.defs, names[0]).value, names[1]);
    if |names| > 2 {
      var rest := names[1..];
      forall k | 0 <= k < |rest| - 1
        ensures Find(doc.defs, rest[k]).Some? && InPlace(Find(doc.defs, rest[k]).value, rest[k + 1])
      {
        assert rest[k] == names[k + 1] && rest[k + 1] == names[k + 1 + 1];
      }
      GroundedHasNoCycle(doc, rest);
    }
  }
}
