/**
 The errors of an evaluation. Every reported violation is a real one: its path leads to a value inside the
 payload, and that value is of the kind that the violated rule speaks of. Below: which error stops, in
 which order errors come, and when evaluation raises instead.
 */
module SchemaViolations {
  import opened Prelude
  import opened JsonSchema
  import opened SchemaEvaluator

  /** The value w stands at this path below v. */
  ghost predicate Leads(v: Json, path: seq<Segment>, w: Json)
    decreases |path|
  {
    if path == [] then w == v
    else
      match path[0]
      case Key(key) =>
        v.JObject? && exists i :: 0 <= i < |v.fields| && v.fields[i].key == key && Leads(v.fields[i].value, path[1..], w)
      case Index(i) => v.JArray? && i < |v.items| && Leads(v.items[i], path[1..], w)
  }

  /** What a violated rule says of the value it was found at. */
  predicate Fits(w: Json, rule: Rule) {
    match rule
    case TypeRule | ConstRule | EnumRule => true
    case MinLengthRule | MaxLengthRule | PatternRule | DateTimeRule => w.JString?
    case MinimumRule | MaximumRule => IsNumber(w)
    case RequiredRule(key) => w.JObject? && !HasKey(w.fields, key)
    case ClosedRule(key) => w.JObject? && HasKey(w.fields, key)
    case MinItemsRule => w.JArray?
  }

  /** The violation lies at or below `path`, where v stands. */
  ghost predicate Placed(v: Json, path: seq<Segment>, x: Violation) {
    path <= x.path && exists w :: Leads(v, x.path[|path|..], w) && Fits(w, x.rule)
  }

  ghost predicate AllPlaced(v: Json, path: seq<Segment>, o: Outcome) {
    o.Violations? ==> forall x :: x in o.list ==> Placed(v, path, x)
  }

  lemma HerePlaced(v: Json, path: seq<Segment>, x: Violation)
    requires x.path == path && Fits(v, x.rule)
    ensures Placed(v, path, x)
  {
    assert x.path[|path|..] == [];
    assert Leads(v, [], v);
  }

  lemma ThenPlaced(v: Json, path: seq<Segment>, a: Outcome, b: Outcome)
    requires AllPlaced(v, path, a) && AllPlaced(v, path, b)
    ensures AllPlaced(v, path, Then(a, b))
  {
  }

  /** One step down. */
  lemma BelowPlaced(v: Json, path: seq<Segment>, segment: Segment, child: Json, x: Violation)
    requires Placed(child, path + [segment], x)
    requires match segment
             case Key(key) => v.JObject? && exists i :: 0 <= i < |v.fields| && v.fields[i] == Field(key, child)
             case Index(i) => v.JArray? && i < |v.items| && v.items[i] == child
    ensures Placed(v, path, x)
  {
    var longer := path + [segment];
    var w :| Leads(child, x.path[|longer|..], w) && Fits(w, x.rule);
    var rest := x.path[|path|..];
    assert x.path[..|longer|] == longer && rest[0] == longer[|path|] == segment;
    assert rest[1..] == x.path[|longer|..];
    assert path <= x.path by {
      assert x.path[..|path|] == longer[..|path|] == path;
    }
    assert Leads(v, rest, w);
  }

  lemma AllBelowPlaced(v: Json, path: seq<Segment>, segment: Segment, child: Json, o: Outcome)
    requires AllPlaced(child, path + [segment], o)
    requires match segment
             case Key(key) => v.JObject? && exists i :: 0 <= i < |v.fields| && v.fields[i] == Field(key, child)
             case Index(i) => v.JArray? && i < |v.items| && v.items[i] == child
    ensures AllPlaced(v, path, o)
  {
    if o.Violations? {
      forall x | x in o.list ensures Placed(v, path, x) {
        BelowPlaced(v, path, segment, child, x);
      }
    }
  }

  /** The scalar rules are reported for exactly the keywords that fail, each under its own name. */
  lemma {:induction false} ScalarRulesMean(doc: Document, v: Json, node: Schema, path: seq<Segment>, rule: Rule)
    ensures Violation(path, rule) in ScalarViolations(doc, v, node, path) <==>
            match rule
            case MinLengthRule => v.JString? && node.minLength.Some? && |v.s| < node.minLength.value
            case MaxLengthRule => v.JString? && node.maxLength.Some? && |v.s| > node.maxLength.value
            case PatternRule => v.JString? && node.pattern.Some? && !doc.matches(node.pattern.value, v.s)
            case DateTimeRule => v.JString? && node.dateTime && !doc.isDateTime(v.s)
            case MinimumRule => IsNumber(v) && node.minimum.Some? && NumberOf(v) < node.minimum.value
            case MaximumRule => IsNumber(v) && node.maximum.Some? && NumberOf(v) > node.maximum.value
            case _ => false
    ensures forall x :: x in ScalarViolations(doc, v, node, path) ==> x.path == path
  {
  }

  /** A missing key is reported under its own name, once for each time it is required. */
  lemma {:induction false} RequiredRulesMean(required: seq<string>, fields: seq<Field>, path: seq<Segment>, key: string)
    ensures Violation(path, RequiredRule(key)) in RequiredViolations(required, fields, path) <==>
            key in required && !HasKey(fields, key)
    ensures forall x :: x in RequiredViolations(required, fields, path) ==>
              x.path == path && x.rule.RequiredRule? && !HasKey(fields, x.rule.key)
  {
    if required != [] {
      RequiredRulesMean(required[..|required| - 1], fields, path, key);
      SplitLast(required);
    }
  }

  /** Every violation that evaluation reports lies at a place of the payload that its rule fits. */
  lemma {:induction false} ViolationsArePlaced(doc: Document, v: Json, node: Schema, path: seq<Segment>)
    requires Grounded(doc)
    ensures AllPlaced(v, path, Check(doc, v, node, path))
    decreases v, Height(doc, node), node, 1, 0
  {
    if node.ref.Some? {
      var target := Resolve(doc, node.ref.value);
      if target.Some? {
        TargetIsLower(doc, node);
        ViolationsArePlaced(doc, v, target.value, path);
      }
    } else if node.otherKeywords == [] && SupportedTypes(node) {
      if TypeOk(v, node) && ConstOk(v, node) && EnumOk(v, node) {
        KeywordsPlaced(doc, v, node, path);
      } else {
        HerePlaced(v, path, Violation(path, TypeRule));
        HerePlaced(v, path, Violation(path, ConstRule));
        HerePlaced(v, path, Violation(path, EnumRule));
      }
    }
  }

  lemma TargetIsLower(doc: Document, node: Schema)
    requires Grounded(doc) && node.ref.Some? && Resolve(doc, node.ref.value).Some?
    ensures Height(doc, Resolve(doc, node.ref.value).value) < Height(doc, node)
  {
  }

  lemma {:induction false} KeywordsPlaced(doc: Document, v: Json, node: Schema, path: seq<Segment>)
    requires Grounded(doc) && node.ref.None?
    ensures AllPlaced(v, path, CheckKeywords(doc, v, node, path))
    decreases v, Height(doc, node), node, 0, 2
  {
    var scalars := Violations(ScalarViolations(doc, v, node, path));
    ScalarsPlaced(doc, v, node, path);
    ObjectPlaced(doc, v, node, path);
    ArrayPlaced(doc, v, node, path);
    EntriesPlaced(doc, v, node, path, |node.allOf|);
    ThenPlaced(v, path, scalars, CheckObject(doc, v, node, path));
    ThenPlaced(v, path, Then(scalars, CheckObject(doc, v, node, path)), CheckArray(doc, v, node, path));
    ThenPlaced(v, path, Then(Then(scalars, CheckObject(doc, v, node, path)), CheckArray(doc, v, node, path)),
               CheckEntries(doc, v, node, path, |node.allOf|));
  }

  lemma {:induction false} ScalarsPlaced(doc: Document, v: Json, node: Schema, path: seq<Segment>)
    ensures AllPlaced(v, path, Violations(ScalarViolations(doc, v, node, path)))
  {
    forall x | x in ScalarViolations(doc, v, node, path) ensures Placed(v, path, x) {
      ScalarRulesMean(doc, v, node, path, x.rule);
      assert x == Violation(path, x.rule);
      HerePlaced(v, path, x);
    }
  }

  lemma {:induction false} ObjectPlaced(doc: Document, v: Json, node: Schema, path: seq<Segment>)
    requires Grounded(doc) && node.ref.None?
    ensures AllPlaced(v, path, CheckObject(doc, v, node, path))
    decreases v, Height(doc, node), node, 0, 1
  {
    if v.JObject? {
      var missing := RequiredViolations(node.required, v.fields, path);
      RequiredRulesMean(node.required, v.fields, path, "");
      forall x | x in missing ensures Placed(v, path, x) {
        HerePlaced(v, path, x);
      }
      FieldsPlaced(doc, v, node, path, |v.fields|);
      ThenPlaced(v, path, Violations(missing), CheckFields(doc, v, node, path, |v.fields|));
    }
  }

  lemma {:induction false} FieldsPlaced(doc: Document, v: Json, node: Schema, path: seq<Segment>, n: nat)
    requires Grounded(doc) && node.ref.None? && v.JObject? && n <= |v.fields|
    ensures AllPlaced(v, path, CheckFields(doc, v, node, path, n))
    decreases v, Height(doc, node), node, 0, 0, n
  {
    if n > 0 {
      FieldsPlaced(doc, v, node, path, n - 1);
      FieldPlaced(doc, v, node, path, n - 1);
      ThenPlaced(v, path, CheckFields(doc, v, node, path, n - 1), CheckField(doc, v, node, path, n - 1));
    }
  }

  lemma {:induction false} FieldPlaced(doc: Document, v: Json, node: Schema, path: seq<Segment>, i: nat)
    requires Grounded(doc) && node.ref.None? && v.JObject? && i < |v.fields|
    ensures AllPlaced(v, path, CheckField(doc, v, node, path, i))
    decreases v, Height(doc, node), node, 0, 0, 0
  {
    var f := v.fields[i];
    var property := Find(node.properties, f.key);
    if property.Some? {
      ViolationsArePlaced(doc, f.value, property.value, path + [Key(f.key)]);
      AllBelowPlaced(v, path, Key(f.key), f.value, Check(doc, f.value, property.value, path + [Key(f.key)]));
    } else {
      assert HasKey(v.fields, f.key);
      HerePlaced(v, path, Violation(path, ClosedRule(f.key)));
    }
  }

  lemma {:induction false} ArrayPlaced(doc: Document, v: Json, node: Schema, path: seq<Segment>)
    requires Grounded(doc) && node.ref.None?
    ensures AllPlaced(v, path, CheckArray(doc, v, node, path))
    decreases v, Height(doc, node), node, 0, 1
  {
    if v.JArray? {
      HerePlaced(v, path, Violation(path, MinItemsRule));
      if node.items.Some? {
        ItemsPlaced(doc, v, node, path, |v.items|);
      }
    }
  }

  lemma {:induction false} ItemsPlaced(doc: Document, v: Json, node: Schema, path: seq<Segment>, n: nat)
    requires Grounded(doc) && node.ref.None? && v.JArray? && node.items.Some? && n <= |v.items|
    ensures AllPlaced(v, path, CheckItems(doc, v, node, path, n))
    decreases v, Height(doc, node), node, 0, 0, n
  {
    if n > 0 {
      ItemsPlaced(doc, v, node, path, n - 1);
      var own := Check(doc, v.items[n - 1], node.items.value, path + [Index(n - 1)]);
      ViolationsArePlaced(doc, v.items[n - 1], node.items.value, path + [Index(n - 1)]);
      AllBelowPlaced(v, path, Index(n - 1), v.items[n - 1], own);
      ThenPlaced(v, path, CheckItems(doc, v, node, path, n - 1), own);
    }
  }

  lemma {:induction false} EntriesPlaced(doc: Document, v: Json, node: Schema, path: seq<Segment>, n: nat)
    requires Grounded(doc) && node.ref.None? && n <= |node.allOf|
    ensures AllPlaced(v, path, CheckEntries(doc, v, node, path, n))
    decreases v, Height(doc, node), node, 0, 0, n
  {
    if n > 0 {
      EntriesPlaced(doc, v, node, path, n - 1);
      EntryPlaced(doc, v, node, path, n - 1);
      ThenPlaced(v, path, CheckEntries(doc, v, node, path, n - 1), CheckEntry(doc, v, node, path, n - 1));
    }
  }

  lemma {:induction false} EntryPlaced(doc: Document, v: Json, node: Schema, path: seq<Segment>, i: nat)
    requires Grounded(doc) && node.ref.None? && i < |node.allOf|
    ensures AllPlaced(v, path, CheckEntry(doc, v, node, path, i))
    decreases v, Height(doc, node), node, 0, 0, 0
  {
    EntryHeight(doc, node, |node.allOf|, i);
    var entry := node.allOf[i];
    if entry.test.None? {
      ViolationsArePlaced(doc, v, entry, path);
    } else if entry.consequent.Some? {
      ViolationsArePlaced(doc, v, entry.consequent.value, path);
    }
  }

  // ----- when evaluation raises -----

  /** A node that is looked at raises when it has an unknown keyword, an empty list of types or an unknown
      type name, and when its reference does not resolve. */
  predicate Refused(doc: Document, node: Schema) {
    if node.ref.Some? then Resolve(doc, node.ref.value).None?
    else node.otherKeywords != [] || UnusableTypes(node.types)
  }

  predicate UnusableTypes(types: Option<seq<string>>) {
    match types
    case None => false
    case Some(names) => names == [] || exists i :: 0 <= i < |names| && names[i] !in TYPE_NAMES
  }

  const TYPE_NAMES: set<string> := {"string", "integer", "number", "boolean", "object", "array", "null"}

  /** Evaluation goes on below a node only when its type, const and enum hold. */
  predicate Enters(v: Json, node: Schema) {
    TypeHolds(v, node) && ConstHolds(v, node) && EnumHolds(v, node)
  }

  /** A field raises when it has a property and its value raises there. */
  ghost predicate FieldRaises(doc: Document, v: Json, node: Schema, path: seq<Segment>, i: nat)
    requires Grounded(doc)
  {
    v.JObject? && i < |v.fields| &&
    match Find(node.properties, v.fields[i].key)
    case None => false
    case Some(property) => Check(doc, v.fields[i].value, property, path + [Key(v.fields[i].key)]).Raised?
  }

  lemma {:induction false} RaisedFields(doc: Document, v: Json, node: Schema, path: seq<Segment>, n: nat)
    requires Grounded(doc) && v.JObject? && n <= |v.fields|
    ensures CheckFields(doc, v, node, path, n).Raised? <==> exists i :: 0 <= i < n && FieldRaises(doc, v, node, path, i)
  {
    if n > 0 {
      RaisedFields(doc, v, node, path, n - 1);
      assert CheckFields(doc, v, node, path, n).Raised? <==>
             CheckFields(doc, v, node, path, n - 1).Raised? || FieldRaises(doc, v, node, path, n - 1);
    }
  }

  /** An item raises when there is a schema for items and it raises there. */
  ghost predicate ItemRaises(doc: Document, v: Json, node: Schema, path: seq<Segment>, i: nat)
    requires Grounded(doc)
  {
    v.JArray? && node.items.Some? && i < |v.items| && Check(doc, v.items[i], node.items.value, path + [Index(i)]).Raised?
  }

  lemma {:induction false} RaisedItems(doc: Document, v: Json, node: Schema, path: seq<Segment>, n: nat)
    requires Grounded(doc) && v.JArray? && node.items.Some? && n <= |v.items|
    ensures CheckItems(doc, v, node, path, n).Raised? <==> exists i :: 0 <= i < n && ItemRaises(doc, v, node, path, i)
  {
    if n > 0 {
      RaisedItems(doc, v, node, path, n - 1);
      assert CheckItems(doc, v, node, path, n).Raised? <==>
             CheckItems(doc, v, node, path, n - 1).Raised? || ItemRaises(doc, v, node, path, n - 1);
    }
  }

  /** An entry with an if raises when the if does, or the if holds and the then raises. */
  ghost predicate EntryRaises(doc: Document, v: Json, node: Schema, path: seq<Segment>, i: nat)
    requires Grounded(doc)
  {
    i < |node.allOf| &&
    var entry := node.allOf[i];
    match entry.test
    case None => Check(doc, v, entry, path).Raised?
    case Some(test) =>
      || Check(doc, v, test, path).Raised?
      || (Check(doc, v, test, path) == NONE && entry.consequent.Some?
          && Check(doc, v, entry.consequent.value, path).Raised?)
  }

  lemma {:induction false} RaisedEntries(doc: Document, v: Json, node: Schema, path: seq<Segment>, n: nat)
    requires Grounded(doc) && node.ref.None? && n <= |node.allOf|
    ensures CheckEntries(doc, v, node, path, n).Raised? <==> exists i :: 0 <= i < n && EntryRaises(doc, v, node, path, i)
  {
    if n > 0 {
      RaisedEntries(doc, v, node, path, n - 1);
      var before, own := CheckEntries(doc, v, node, path, n - 1), CheckEntry(doc, v, node, path, n - 1);
      assert CheckEntries(doc, v, node, path, n) == Then(before, own);
      assert own.Raised? <==> EntryRaises(doc, v, node, path, n - 1);
    }
  }

  /** Something below the node that evaluation looks at raises: the value of a field with a property, an
      item, or an entry of allOf. */
  ghost predicate RaisesBelow(doc: Document, v: Json, node: Schema, path: seq<Segment>)
    requires Grounded(doc) && node.ref.None?
  {
    || (exists i :: FieldRaises(doc, v, node, path, i))
    || (exists i :: ItemRaises(doc, v, node, path, i))
    || (exists i :: EntryRaises(doc, v, node, path, i))
  }

  lemma {:induction false} KeywordsRaise(doc: Document, v: Json, node: Schema, path: seq<Segment>)
    requires Grounded(doc) && node.ref.None?
    ensures CheckKeywords(doc, v, node, path).Raised? <==> RaisesBelow(doc, v, node, path)
  {
    var entries := CheckEntries(doc, v, node, path, |node.allOf|);
    RaisedEntries(doc, v, node, path, |node.allOf|);
    assert entries.Raised? <==> exists i :: EntryRaises(doc, v, node, path, i);
    ObjectRaises(doc, v, node, path);
    ArrayRaises(doc, v, node, path);
    var scalars := Violations(ScalarViolations(doc, v, node, path));
    var fields, items := CheckObject(doc, v, node, path), CheckArray(doc, v, node, path);
    RaisedThen(Then(scalars, fields), items, entries);
    assert CheckKeywords(doc, v, node, path) == Then(Then(Then(scalars, fields), items), entries);
  }

  lemma RaisedThen(a: Outcome, b: Outcome, c: Outcome)
    ensures Then(Then(a, b), c).Raised? <==> a.Raised? || b.Raised? || c.Raised?
  {
  }

  lemma {:induction false} ObjectRaises(doc: Document, v: Json, node: Schema, path: seq<Segment>)
    requires Grounded(doc)
    ensures CheckObject(doc, v, node, path).Raised? <==> exists i :: FieldRaises(doc, v, node, path, i)
  {
    if v.JObject? { RaisedFields(doc, v, node, path, |v.fields|); }
  }

  lemma {:induction false} ArrayRaises(doc: Document, v: Json, node: Schema, path: seq<Segment>)
    requires Grounded(doc)
    ensures CheckArray(doc, v, node, path).Raised? <==> exists i :: ItemRaises(doc, v, node, path, i)
  {
    if v.JArray? && node.items.Some? { RaisedItems(doc, v, node, path, |v.items|); }
  }

  /** Evaluation raises exactly when the node is refused, or it is entered and something below it raises. */
  lemma {:induction false} RaisesIff(doc: Document, v: Json, node: Schema, path: seq<Segment>)
    requires Grounded(doc) && node.ref.None?
    ensures Check(doc, v, node, path).Raised? <==>
            Refused(doc, node) || (Enters(v, node) && RaisesBelow(doc, v, node, path))
  {
    TestsAreConditions(doc, v, node);
    KeywordsRaise(doc, v, node, path);
    assert Refused(doc, node) <==> node.otherKeywords != [] || !SupportedTypes(node);
  }

  /** A reference raises exactly when it does not resolve or what it stands for raises. */
  lemma {:induction false} ReferenceRaisesIff(doc: Document, v: Json, node: Schema, path: seq<Segment>)
    requires Grounded(doc) && node.ref.Some?
    ensures Check(doc, v, node, path).Raised? <==>
            Refused(doc, node) || Check(doc, v, Resolve(doc, node.ref.value).value, path).Raised?
  {
  }

  // ----- which error stops, and the order of errors -----

  /** A failing type, const or enum is the only error of its node, in this order. */
  lemma {:induction false} FirstTestDecides(doc: Document, v: Json, node: Schema, path: seq<Segment>)
    requires Grounded(doc) && node.ref.None? && !Refused(doc, node) && !Enters(v, node)
    ensures Check(doc, v, node, path) ==
            Violations([Violation(path, if !TypeHolds(v, node) then TypeRule
                                        else if !ConstHolds(v, node) then ConstRule else EnumRule)])
  {
    TestsAreConditions(doc, v, node);
    assert SupportedTypes(node);
  }

  /** The place of an item or the name of a field that a violation is about, below `path`. */
  predicate AboutItem(x: Violation, path: seq<Segment>, i: nat) {
    |x.path| > |path| && x.path[|path|] == Index(i)
  }

  predicate AboutField(x: Violation, path: seq<Segment>, key: string) {
    (|x.path| > |path| && x.path[|path|] == Key(key)) || (x.path == path && x.rule == ClosedRule(key))
  }

  predicate NonDecreasing(at: seq<nat>) {
    forall i, j :: 0 <= i < j < |at| ==> at[i] <= at[j]
  }

  lemma AppendLevel(at: seq<nat>, n: nat, more: nat) returns (out: seq<nat>)
    requires NonDecreasing(at) && forall i :: 0 <= i < |at| ==> at[i] < n
    ensures |out| == |at| + more && out[..|at|] == at && NonDecreasing(out)
    ensures forall i :: |at| <= i < |out| ==> out[i] == n
  {
    out := at + seq(more, i => n);
  }

  lemma {:induction false} BelowItem(doc: Document, v: Json, node: Schema, path: seq<Segment>, segment: Segment)
    requires Grounded(doc)
    ensures var o := Check(doc, v, node, path + [segment]);
            o.Violations? ==> forall x :: x in o.list ==> |x.path| > |path| && x.path[|path|] == segment
  {
    var longer := path + [segment];
    ViolationsArePlaced(doc, v, node, longer);
    var o := Check(doc, v, node, longer);
    if o.Violations? {
      forall x | x in o.list ensures |x.path| > |path| && x.path[|path|] == segment {
        assert Placed(v, longer, x);
        assert x.path[|path|] == longer[|path|];
      }
    }
  }

  /** The errors of an array's items come in the order of the items. */
  lemma {:induction false} ItemsInOrder(doc: Document, v: Json, node: Schema, path: seq<Segment>, n: nat)
    returns (at: seq<nat>)
    requires Grounded(doc) && v.JArray? && node.items.Some? && n <= |v.items|
    ensures var o := CheckItems(doc, v, node, path, n);
            o.Violations? ==>
              && |at| == |o.list| && NonDecreasing(at)
              && forall i :: 0 <= i < |at| ==> at[i] < n && AboutItem(o.list[i], path, at[i])
  {
    at := [];
    if n > 0 && CheckItems(doc, v, node, path, n).Violations? {
      var before := ItemsInOrder(doc, v, node, path, n - 1);
      var first, own := CheckItems(doc, v, node, path, n - 1), Check(doc, v.items[n - 1], node.items.value, path + [Index(n - 1)]);
      assert CheckItems(doc, v, node, path, n) == Then(first, own);
      BelowItem(doc, v.items[n - 1], node.items.value, path, Index(n - 1));
      at := AppendLevel(before, n - 1, |own.list|);
      forall i | 0 <= i < |at| ensures at[i] < n && AboutItem((first.list + own.list)[i], path, at[i]) {
        if i < |before| {
          assert at[i] == at[..|before|][i] == before[i];
        } else {
          assert (first.list + own.list)[i] == own.list[i - |before|];
          assert own.list[i - |before|] in own.list;
        }
      }
    }
  }

  /** The errors of an object's fields come in the order of the fields. */
  lemma {:induction false} FieldsInOrder(doc: Document, v: Json, node: Schema, path: seq<Segment>, n: nat)
    returns (at: seq<nat>)
    requires Grounded(doc) && v.JObject? && n <= |v.fields|
    ensures var o := CheckFields(doc, v, node, path, n);
            o.Violations? ==>
              && |at| == |o.list| && NonDecreasing(at)
              && forall i :: 0 <= i < |at| ==> at[i] < n && AboutField(o.list[i], path, v.fields[at[i]].key)
  {
    at := [];
    if n > 0 && CheckFields(doc, v, node, path, n).Violations? {
      var before := FieldsInOrder(doc, v, node, path, n - 1);
      var first, own := CheckFields(doc, v, node, path, n - 1), CheckField(doc, v, node, path, n - 1);
      assert CheckFields(doc, v, node, path, n) == Then(first, own);
      OwnField(doc, v, node, path, n - 1);
      at := AppendLevel(before, n - 1, |own.list|);
      forall i | 0 <= i < |at| ensures at[i] < n && AboutField((first.list + own.list)[i], path, v.fields[at[i]].key) {
        if i < |before| {
          assert at[i] == at[..|before|][i] == before[i];
        } else {
          assert (first.list + own.list)[i] == own.list[i - |before|];
          assert own.list[i - |before|] in own.list;
        }
      }
    }
  }

  lemma {:induction false} OwnField(doc: Document, v: Json, node: Schema, path: seq<Segment>, i: nat)
    requires Grounded(doc) && v.JObject? && i < |v.fields|
    ensures var o := CheckField(doc, v, node, path, i);
            o.Violations? ==> forall x :: x in o.list ==> AboutField(x, path, v.fields[i].key)
  {
    var f := v.fields[i];
    var property := Find(node.properties, f.key);
    if property.Some? {
      BelowItem(doc, f.value, property.value, path, Key(f.key));
    }
  }
}
