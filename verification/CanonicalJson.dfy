/**
 The canonical form of trust-case JSON, from which digests are taken: keys sorted at every depth.

 An object is the list of its properties as JavaScript enumerates them: array indices first, in
 numeric order, then the other keys in order of insertion. Characters are UTF-16 code units.
 */
module CanonicalJson {
  import opened Prelude

  /** A JSON value over scalars of any kind. */
  datatype Value<S> = Scalar(s: S) | List(items: seq<Value<S>>) | Object(fields: seq<Field<S>>)

  datatype Field<S> = Field(key: string, value: Value<S>)

  /** Assigning this key sets the prototype of an object and adds no property. */
  const PROTO: string := "__proto__"

  // ----- the order of keys -----

  /** The order of Array.prototype.sort on strings. */
  predicate LexLess(a: string, b: string) {
    if b == "" then false
    else if a == "" then true
    else a[0] < b[0] || (a[0] == b[0] && LexLess(a[1..], b[1..]))
  }

  lemma {:induction false} LexTotal(a: string, b: string)
    ensures a == b || LexLess(a, b) || LexLess(b, a)
    ensures !(LexLess(a, b) && LexLess(b, a)) && (a == b ==> !LexLess(a, b))
  {
    if a != "" && b != "" {
      LexTotal(a[1..], b[1..]);
      assert a == [a[0]] + a[1..] && b == [b[0]] + b[1..];
    }
  }

  lemma {:induction false} LexTransitive(a: string, b: string, c: string)
    requires LexLess(a, b) && LexLess(b, c)
    ensures LexLess(a, c)
  {
    if a != "" && a[0] == b[0] == c[0] {
      LexTransitive(a[1..], b[1..], c[1..]);
    }
  }

  /** A canonical array index: decimal digits without a leading zero, at most 2^32 - 2. */
  predicate IsIndex(key: string) {
    && key != "" && (forall i :: 0 <= i < |key| ==> '0' <= key[i] <= '9')
    && (key[0] != '0' || |key| == 1)
    && (|key| < 10 || (|key| == 10 && !LexLess("4294967294", key)))
  }

  /** The order in which an object whose keys were assigned in sorted order enumerates them. Indices of the
      same length compare like their digits. */
  predicate KeyLess(a: string, b: string) {
    if IsIndex(a) != IsIndex(b) then IsIndex(a)
    else if IsIndex(a) && |a| != |b| then |a| < |b|
    else LexLess(a, b)
  }

  lemma KeyTotal(a: string, b: string)
    ensures a == b || KeyLess(a, b) || KeyLess(b, a)
    ensures !(KeyLess(a, b) && KeyLess(b, a)) && (a == b ==> !KeyLess(a, b))
  {
    LexTotal(a, b);
  }

  lemma KeyTransitive(a: string, b: string, c: string)
    requires KeyLess(a, b) && KeyLess(b, c)
    ensures KeyLess(a, c)
  {
    if LexLess(a, b) && LexLess(b, c) {
      LexTransitive(a, b, c);
    }
  }

  // ----- canonicalize -----

  /** Object.keys(value).sort(), with the values carried along. */
  function LexInsert<S>(f: Field<S>, fields: seq<Field<S>>): seq<Field<S>> {
    if fields == [] then [f]
    else if LexLess(fields[0].key, f.key) then [fields[0]] + LexInsert(f, fields[1..])
    else [f] + fields
  }

  function LexSort<S>(fields: seq<Field<S>>): seq<Field<S>> {
    if fields == [] then [] else LexInsert(fields[0], LexSort(fields[1..]))
  }

  /** Where a new index goes among the properties. */
  function IndexInsert<S>(f: Field<S>, fields: seq<Field<S>>): seq<Field<S>> {
    if fields == [] then [f]
    else if KeyLess(fields[0].key, f.key) then [fields[0]] + IndexInsert(f, fields[1..])
    else [f] + fields
  }

  /** `acc[key] = value` for a key that the object does not have yet. */
  function Assign<S>(acc: seq<Field<S>>, f: Field<S>): seq<Field<S>> {
    if f.key == PROTO then acc else if IsIndex(f.key) then IndexInsert(f, acc) else acc + [f]
  }

  /** The reduce over the sorted keys. */
  function Rebuild<S>(fields: seq<Field<S>>): seq<Field<S>> {
    if fields == [] then [] else Assign(Rebuild(fields[..|fields| - 1]), fields[|fields| - 1])
  }

  function Canonical<S>(v: Value<S>): Value<S>
    decreases v, 1, 0
  {
    match v
    case Scalar(_) => v
    case List(items) => List(CanonicalItems(v, |items|))
    case Object(fields) => Object(Rebuild(LexSort(CanonicalFields(v, |fields|))))
  }

  function CanonicalItems<S>(v: Value<S>, n: nat): (out: seq<Value<S>>)
    requires v.List? && n <= |v.items|
    ensures |out| == n && forall i :: 0 <= i < n ==> out[i] == Canonical(v.items[i])
    decreases v, 0, n
  {
    if n == 0 then [] else CanonicalItems(v, n - 1) + [Canonical(v.items[n - 1])]
  }

  function CanonicalFields<S>(v: Value<S>, n: nat): (out: seq<Field<S>>)
    requires v.Object? && n <= |v.fields|
    ensures |out| == n && forall i :: 0 <= i < n ==> out[i] == Field(v.fields[i].key, Canonical(v.fields[i].value))
    decreases v, 0, n
  {
    if n == 0 then []
    else
      var f := v.fields[n - 1];
      CanonicalFields(v, n - 1) + [Field(f.key, Canonical(f.value))]
  }

  // ----- the lists that canonicalize builds -----

  predicate UniqueKeys<S>(fields: seq<Field<S>>) {
    forall i, j :: 0 <= i < j < |fields| ==> fields[i].key != fields[j].key
  }

  predicate LexSorted<S>(fields: seq<Field<S>>) {
    forall i, j :: 0 <= i < j < |fields| ==> LexLess(fields[i].key, fields[j].key)
  }

  predicate KeySorted<S>(fields: seq<Field<S>>) {
    forall i, j :: 0 <= i < j < |fields| ==> KeyLess(fields[i].key, fields[j].key)
  }

  predicate Lacks<S>(fields: seq<Field<S>>, key: string) {
    forall i :: 0 <= i < |fields| ==> fields[i].key != key
  }

  lemma {:induction false} LexInsertSorted<S(!new)>(f: Field<S>, fields: seq<Field<S>>)
    requires LexSorted(fields) && Lacks(fields, f.key)
    ensures LexSorted(LexInsert(f, fields))
    ensures forall g :: g in LexInsert(f, fields) <==> g == f || g in fields
  {
    if fields != [] {
      var first, rest := fields[0], fields[1..];
      LexTotal(first.key, f.key);
      if LexLess(first.key, f.key) {
        LexInsertSorted(f, rest);
        forall g | g in rest ensures LexLess(first.key, g.key) {
          var i :| 0 <= i < |rest| && rest[i] == g;
          assert fields[i + 1] == g;
        }
        Cons(first, LexInsert(f, rest));
        LexConsSorted(first, LexInsert(f, rest));
      } else {
        forall g | g in fields ensures LexLess(f.key, g.key) {
          if g != first {
            var i :| 0 <= i < |fields| && fields[i] == g;
            assert LexLess(first.key, fields[i].key);
            LexTransitive(f.key, first.key, g.key);
          }
        }
        LexConsSorted(f, fields);
        Cons(f, fields);
      }
      Cons(first, rest);
      assert fields == [first] + rest;
    }
  }

  lemma Cons<S(!new)>(f: Field<S>, fields: seq<Field<S>>)
    ensures forall g :: g in [f] + fields <==> g == f || g in fields
  {
  }

  lemma LexConsSorted<S(!new)>(f: Field<S>, fields: seq<Field<S>>)
    requires LexSorted(fields) && forall g :: g in fields ==> LexLess(f.key, g.key)
    ensures LexSorted([f] + fields)
  {
    assert forall i :: 0 <= i < |fields| ==> fields[i] in fields;
  }

  lemma KeyConsSorted<S(!new)>(f: Field<S>, fields: seq<Field<S>>)
    requires KeySorted(fields) && forall g :: g in fields ==> KeyLess(f.key, g.key)
    ensures KeySorted([f] + fields)
  {
    assert forall i :: 0 <= i < |fields| ==> fields[i] in fields;
  }

  lemma KeySnocSorted<S(!new)>(fields: seq<Field<S>>, f: Field<S>)
    requires KeySorted(fields) && forall g :: g in fields ==> KeyLess(g.key, f.key)
    ensures KeySorted(fields + [f])
  {
    assert forall i :: 0 <= i < |fields| ==> fields[i] in fields;
  }

  lemma {:induction false} LexSortSorted<S(!new)>(fields: seq<Field<S>>)
    requires UniqueKeys(fields)
    ensures LexSorted(LexSort(fields)) && forall g :: g in LexSort(fields) <==> g in fields
  {
    if fields != [] {
      LexSortSorted(fields[1..]);
      forall i | 0 <= i < |LexSort(fields[1..])| ensures LexSort(fields[1..])[i].key != fields[0].key {
        var g := LexSort(fields[1..])[i];
        assert g in LexSort(fields[1..]) && g in fields[1..];
        var j :| 0 <= j < |fields[1..]| && fields[1..][j] == g;
        assert fields[j + 1] == g;
      }
      LexInsertSorted(fields[0], LexSort(fields[1..]));
      Cons(fields[0], fields[1..]);
      assert fields == [fields[0]] + fields[1..];
    }
  }

  lemma {:induction false} IndexInsertSorted<S(!new)>(f: Field<S>, fields: seq<Field<S>>)
    requires KeySorted(fields) && Lacks(fields, f.key)
    ensures KeySorted(IndexInsert(f, fields))
    ensures forall g :: g in IndexInsert(f, fields) <==> g == f || g in fields
  {
    if fields != [] {
      var first, rest := fields[0], fields[1..];
      KeyTotal(first.key, f.key);
      if KeyLess(first.key, f.key) {
        IndexInsertSorted(f, rest);
        forall g | g in rest ensures KeyLess(first.key, g.key) {
          var i :| 0 <= i < |rest| && rest[i] == g;
          assert fields[i + 1] == g;
        }
        Cons(first, IndexInsert(f, rest));
        KeyConsSorted(first, IndexInsert(f, rest));
      } else {
        forall g | g in fields ensures KeyLess(f.key, g.key) {
          if g != first {
            var i :| 0 <= i < |fields| && fields[i] == g;
            assert KeyLess(first.key, fields[i].key);
            KeyTransitive(f.key, first.key, g.key);
          }
        }
        KeyConsSorted(f, fields);
        Cons(f, fields);
      }
      Cons(first, rest);
      assert fields == [first] + rest;
    }
  }

  /** Assigning sorted keys one by one leaves the properties in the order of enumeration, all of them but
      the prototype key. */
  lemma {:induction false} RebuildSorted<S(!new)>(fields: seq<Field<S>>)
    requires LexSorted(fields)
    ensures KeySorted(Rebuild(fields))
    ensures forall g :: g in Rebuild(fields) <==> g in fields && g.key != PROTO
  {
    if fields != [] {
      var rest, last := fields[..|fields| - 1], fields[|fields| - 1];
      RebuildSorted(rest);
      SplitLast(fields);
      var acc := Rebuild(rest);
      forall g | g in acc ensures LexLess(g.key, last.key) {
        assert g in rest;
        var i :| 0 <= i < |rest| && rest[i] == g;
        assert fields[i] == g;
      }
      LexTotal(last.key, last.key);
      if last.key == PROTO {
      } else if IsIndex(last.key) {
        forall i | 0 <= i < |acc| ensures acc[i].key != last.key {
          assert acc[i] in acc;
        }
        IndexInsertSorted(last, acc);
      } else {
        KeySnocSorted(acc, last);
      }
    }
  }

  // ----- equality up to the order of keys -----

  /** JSON objects have each key once, at every depth. */
  predicate Proper<S>(v: Value<S>)
    decreases v
  {
    match v
    case Scalar(_) => true
    case List(items) => forall i :: 0 <= i < |items| ==> Proper(items[i])
    case Object(fields) => UniqueKeys(fields) && forall i :: 0 <= i < |fields| ==> Proper(fields[i].value)
  }

  predicate SameKey<S>(a: seq<Field<S>>, b: seq<Field<S>>, i: int, j: int) {
    0 <= i < |a| && 0 <= j < |b| && a[i].key == b[j].key && a[i].key != PROTO
  }

  ghost predicate Covered<S>(a: seq<Field<S>>, b: seq<Field<S>>) {
    forall i :: 0 <= i < |a| && a[i].key != PROTO ==> !Lacks(b, a[i].key)
  }

  /** Equal up to the order of keys at every depth, prototype keys aside. */
  ghost predicate Alike<S(!new)>(a: Value<S>, b: Value<S>)
    decreases a
  {
    match a
    case Scalar(_) => a == b
    case List(items) =>
      b.List? && |items| == |b.items| && forall i :: 0 <= i < |items| ==> Alike(items[i], b.items[i])
    case Object(fields) =>
      && b.Object? && Covered(fields, b.fields) && Covered(b.fields, fields)
      && forall i, j :: SameKey(fields, b.fields, i, j) ==> Alike(fields[i].value, b.fields[j].value)
  }

  lemma {:induction false} AlikeSymmetric<S(!new)>(a: Value<S>, b: Value<S>)
    requires Alike(a, b)
    ensures Alike(b, a)
    decreases a
  {
    match a
    case Scalar(_) =>
    case List(items) =>
      forall i | 0 <= i < |items| ensures Alike(b.items[i], items[i]) {
        AlikeSymmetric(items[i], b.items[i]);
      }
    case Object(fields) =>
      forall i, j | SameKey(b.fields, fields, i, j) ensures Alike(b.fields[i].value, fields[j].value) {
        assert SameKey(fields, b.fields, j, i);
        AlikeSymmetric(fields[j].value, b.fields[i].value);
      }
  }

  lemma CoveredTransitive<S(!new)>(a: seq<Field<S>>, b: seq<Field<S>>, c: seq<Field<S>>)
    requires Covered(a, b) && Covered(b, c)
    ensures Covered(a, c)
  {
    forall i | 0 <= i < |a| && a[i].key != PROTO ensures !Lacks(c, a[i].key) {
      var j :| 0 <= j < |b| && b[j].key == a[i].key;
    }
  }

  lemma {:induction false} AlikeTransitive<S(!new)>(a: Value<S>, b: Value<S>, c: Value<S>)
    requires Alike(a, b) && Alike(b, c)
    ensures Alike(a, c)
    decreases a
  {
    match a
    case Scalar(_) =>
    case List(items) =>
      forall i | 0 <= i < |items| ensures Alike(items[i], c.items[i]) {
        AlikeTransitive(items[i], b.items[i], c.items[i]);
      }
    case Object(fields) =>
      CoveredTransitive(fields, b.fields, c.fields);
      CoveredTransitive(c.fields, b.fields, fields);
      forall i, k | SameKey(fields, c.fields, i, k) ensures Alike(fields[i].value, c.fields[k].value) {
        assert !Lacks(b.fields, fields[i].key);
        var j :| 0 <= j < |b.fields| && b.fields[j].key == fields[i].key;
        assert SameKey(fields, b.fields, i, j) && SameKey(b.fields, c.fields, j, k);
        AlikeTransitive(fields[i].value, b.fields[j].value, c.fields[k].value);
      }
  }

  // ----- canonical values -----

  predicate IsCanonical<S>(v: Value<S>)
    decreases v
  {
    match v
    case Scalar(_) => true
    case List(items) => forall i :: 0 <= i < |items| ==> IsCanonical(items[i])
    case Object(fields) =>
      && KeySorted(fields) && Lacks(fields, PROTO)
      && forall i :: 0 <= i < |fields| ==> IsCanonical(fields[i].value)
  }

  lemma KeySortedUnique<S(!new)>(fields: seq<Field<S>>)
    requires KeySorted(fields)
    ensures UniqueKeys(fields)
  {
    forall i, j | 0 <= i < j < |fields| ensures fields[i].key != fields[j].key {
      KeyTotal(fields[i].key, fields[j].key);
    }
  }

  /** The fields that canonicalize builds for an object. */
  lemma RebuiltFields<S(!new)>(v: Value<S>)
    requires v.Object? && UniqueKeys(v.fields)
    ensures var out := Canonical(v).fields;
            && KeySorted(out) && Lacks(out, PROTO)
            && (forall g :: g in out <==> g in CanonicalFields(v, |v.fields|) && g.key != PROTO)
  {
    var mapped := CanonicalFields(v, |v.fields|);
    LexSortSorted(mapped);
    RebuildSorted(LexSort(mapped));
    var out := Canonical(v).fields;
    forall i | 0 <= i < |out| ensures out[i].key != PROTO {
      assert out[i] in out;
    }
  }

  lemma Origin<S(!new)>(v: Value<S>, f: Field<S>) returns (i: nat)
    requires v.Object? && f in CanonicalFields(v, |v.fields|)
    ensures i < |v.fields| && f == Field(v.fields[i].key, Canonical(v.fields[i].value))
  {
    i :| 0 <= i < |v.fields| && CanonicalFields(v, |v.fields|)[i] == f;
  }

  /** A value is equal to its canonical form up to the order of keys. */
  lemma {:induction false} CanonicalIsAlike<S(!new)>(v: Value<S>)
    requires Proper(v)
    ensures IsCanonical(Canonical(v)) && Alike(v, Canonical(v))
    decreases v
  {
    match v
    case Scalar(_) =>
    case List(items) =>
      forall i | 0 <= i < |items| ensures IsCanonical(Canonical(items[i])) && Alike(items[i], Canonical(items[i])) {
        CanonicalIsAlike(items[i]);
      }
    case Object(fields) =>
      RebuiltFields(v);
      forall i | 0 <= i < |fields|
        ensures IsCanonical(Canonical(fields[i].value)) && Alike(fields[i].value, Canonical(fields[i].value))
      {
        CanonicalIsAlike(fields[i].value);
      }
      ObjectIsAlike(v);
  }

  lemma ObjectIsAlike<S(!new)>(v: Value<S>)
    requires v.Object? && UniqueKeys(v.fields)
    requires forall i :: 0 <= i < |v.fields| ==>
               IsCanonical(Canonical(v.fields[i].value)) && Alike(v.fields[i].value, Canonical(v.fields[i].value))
    ensures IsCanonical(Canonical(v)) && Alike(v, Canonical(v))
  {
    RebuiltFields(v);
    var out := Canonical(v).fields;
    var mapped := CanonicalFields(v, |v.fields|);
    forall j | 0 <= j < |out| ensures IsCanonical(out[j].value) && !Lacks(v.fields, out[j].key) {
      assert out[j] in out;
      var i := Origin(v, out[j]);
    }
    forall i | 0 <= i < |v.fields| && v.fields[i].key != PROTO ensures !Lacks(out, v.fields[i].key) {
      assert mapped[i] in mapped;
      var j :| 0 <= j < |out| && out[j] == mapped[i];
    }
    forall i, j | SameKey(v.fields, out, i, j) ensures Alike(v.fields[i].value, out[j].value) {
      assert out[j] in out;
      var k := Origin(v, out[j]);
      SameKeySameField(v.fields, i, k);
    }
  }

  lemma SameKeySameField<S(!new)>(fields: seq<Field<S>>, i: nat, k: nat)
    requires UniqueKeys(fields) && i < |fields| && k < |fields| && fields[i].key == fields[k].key
    ensures i == k
  {
  }

  lemma CoveredByNone<S(!new)>(a: seq<Field<S>>, b: seq<Field<S>>)
    requires Covered(a, b) && Lacks(a, PROTO)
    ensures a != [] ==> b != []
  {
    if a != [] {
      assert a[0].key != PROTO;
    }
  }

  /** There is one canonical value for all values that are alike. */
  lemma {:induction false} CanonicalIsUnique<S(!new)>(a: Value<S>, b: Value<S>)
    requires IsCanonical(a) && IsCanonical(b) && Alike(a, b)
    ensures a == b
    decreases a
  {
    match a
    case Scalar(_) =>
    case List(items) =>
      forall i | 0 <= i < |items| ensures items[i] == b.items[i] {
        CanonicalIsUnique(items[i], b.items[i]);
      }
      assert items == b.items;
    case Object(fields) =>
      forall i, j | SameKey(fields, b.fields, i, j) ensures fields[i] == b.fields[j] {
        CanonicalIsUnique(fields[i].value, b.fields[j].value);
      }
      SortedListsEqual(fields, b.fields);
  }

  lemma {:induction false} SortedListsEqual<S(!new)>(a: seq<Field<S>>, b: seq<Field<S>>)
    requires KeySorted(a) && KeySorted(b) && Lacks(a, PROTO) && Lacks(b, PROTO)
    requires Covered(a, b) && Covered(b, a)
    requires forall i, j :: SameKey(a, b, i, j) ==> a[i] == b[j]
    ensures a == b
  {
    CoveredByNone(a, b);
    CoveredByNone(b, a);
    if a != [] {
      FirstKeysEqual(a, b);
      assert SameKey(a, b, 0, 0);
      RestCovered(a, b);
      RestCovered(b, a);
      forall i, j | SameKey(a[1..], b[1..], i, j) ensures a[1..][i] == b[1..][j] {
        assert SameKey(a, b, i + 1, j + 1);
      }
      SortedListsEqual(a[1..], b[1..]);
      assert a == [a[0]] + a[1..] && b == [b[0]] + b[1..];
    }
  }

  lemma FirstKeysEqual<S(!new)>(a: seq<Field<S>>, b: seq<Field<S>>)
    requires KeySorted(a) && KeySorted(b) && Lacks(a, PROTO) && Lacks(b, PROTO)
    requires Covered(a, b) && Covered(b, a) && a != [] && b != []
    ensures a[0].key == b[0].key
  {
    assert a[0].key != PROTO && b[0].key != PROTO;
    var j :| 0 <= j < |b| && b[j].key == a[0].key;
    var i :| 0 <= i < |a| && a[i].key == b[0].key;
    assert j > 0 ==> KeyLess(b[0].key, a[0].key);
    assert i > 0 ==> KeyLess(a[0].key, b[0].key);
    KeyTotal(a[0].key, b[0].key);
  }

  lemma RestCovered<S(!new)>(a: seq<Field<S>>, b: seq<Field<S>>)
    requires KeySorted(a) && Covered(a, b) && a != [] && b != [] && a[0].key == b[0].key
    ensures Covered(a[1..], b[1..])
  {
    forall i | 0 <= i < |a[1..]| && a[1..][i].key != PROTO ensures !Lacks(b[1..], a[1..][i].key) {
      assert a[1..][i] == a[i + 1];
      KeyTotal(a[0].key, a[i + 1].key);
      assert KeyLess(a[0].key, a[i + 1].key);
      var j :| 0 <= j < |b| && b[j].key == a[i + 1].key;
      assert b[1..][j - 1].key == a[i + 1].key;
    }
  }

  // ----- the main results -----

  /** Two values have the same canonical form exactly when they are equal up to the order of keys at every
      depth, prototype keys aside: what is digested does not depend on key order and on nothing less. */
  lemma SameCanonicalIffAlike<S(!new)>(a: Value<S>, b: Value<S>)
    requires Proper(a) && Proper(b)
    ensures Canonical(a) == Canonical(b) <==> Alike(a, b)
  {
    CanonicalIsAlike(a);
    CanonicalIsAlike(b);
    AlikeSymmetric(a, Canonical(a));
    AlikeSymmetric(b, Canonical(b));
    if Canonical(a) == Canonical(b) {
      AlikeTransitive(a, Canonical(a), b);
    }
    if Alike(a, b) {
      AlikeTransitive(Canonical(a), a, b);
      AlikeTransitive(Canonical(a), b, Canonical(b));
      CanonicalIsUnique(Canonical(a), Canonical(b));
    }
  }

  lemma {:induction false} CanonicalIsProper<S(!new)>(v: Value<S>)
    requires IsCanonical(v)
    ensures Proper(v)
    decreases v
  {
    match v
    case Scalar(_) =>
    case List(items) =>
      forall i | 0 <= i < |items| ensures Proper(items[i]) {
        CanonicalIsProper(items[i]);
      }
    case Object(fields) =>
      KeySortedUnique(fields);
      forall i | 0 <= i < |fields| ensures Proper(fields[i].value) {
        CanonicalIsProper(fields[i].value);
      }
  }

  /** Canonicalizing twice changes nothing more. */
  lemma CanonicalIsIdempotent<S(!new)>(v: Value<S>)
    requires Proper(v)
    ensures Canonical(Canonical(v)) == Canonical(v)
  {
    CanonicalIsAlike(v);
    CanonicalIsProper(Canonical(v));
    CanonicalIsAlike(Canonical(v));
    CanonicalIsUnique(Canonical(v), Canonical(Canonical(v)));
  }

  /** A property named like the prototype is lost, so that it does not reach the digest. */
  lemma PrototypeKeyIsLost<S(!new)>(fields: seq<Field<S>>, value: Value<S>)
    requires Proper(Object(fields)) && Proper(value) && Lacks(fields, PROTO)
    ensures Canonical(Object(fields + [Field(PROTO, value)])) == Canonical(Object(fields))
    ensures Object(fields + [Field(PROTO, value)]) != Object(fields)
  {
    var a, b := Object(fields + [Field(PROTO, value)]), Object(fields);
    assert |a.fields| == |b.fields| + 1;
    assert forall i :: 0 <= i < |fields| ==> a.fields[i] == fields[i];
    assert a.fields[|fields|].key == PROTO;
    forall i, j | SameKey(a.fields, b.fields, i, j) ensures Alike(a.fields[i].value, b.fields[j].value) {
      SameKeySameField(fields, i, j);
      AlikeReflexive(fields[j].value);
    }
    SameCanonicalIffAlike(a, b);
  }

  lemma {:induction false} AlikeReflexive<S(!new)>(v: Value<S>)
    requires Proper(v)
    ensures Alike(v, v)
    decreases v
  {
    CanonicalIsAlike(v);
    AlikeSymmetric(v, Canonical(v));
    AlikeTransitive(v, Canonical(v), v);
  }

  // ----- the order of keys in plain terms -----

  /** Before the first difference the texts agree; a text that ends there comes first. */
  predicate DiffersAt(a: string, b: string, k: int) {
    0 <= k < |b| && k <= |a| && a[..k] == b[..k] && (k == |a| || a[k] < b[k])
  }

  ghost predicate TextBefore(a: string, b: string) {
    exists k :: DiffersAt(a, b, k)
  }

  lemma {:induction false} LexLessMeans(a: string, b: string)
    ensures LexLess(a, b) <==> TextBefore(a, b)
  {
    if a == "" {
      if b != "" {
        assert DiffersAt(a, b, 0);
      }
    } else if b != "" {
      LexLessMeans(a[1..], b[1..]);
      if a[0] < b[0] {
        assert DiffersAt(a, b, 0);
      }
      if a[0] == b[0] && LexLess(a[1..], b[1..]) {
        var k :| DiffersAt(a[1..], b[1..], k);
        assert a[..k + 1] == [a[0]] + a[1..][..k] == b[..k + 1];
        assert DiffersAt(a, b, k + 1);
      }
      if k :| DiffersAt(a, b, k) {
        if k > 0 {
          assert a[0] == a[..k][0] == b[..k][0] == b[0];
          assert a[1..][..k - 1] == a[..k][1..] == b[1..][..k - 1];
          assert DiffersAt(a[1..], b[1..], k - 1);
        }
      }
    }
  }

  predicate IsDigits(key: string) {
    key != "" && forall i :: 0 <= i < |key| ==> '0' <= key[i] <= '9'
  }

  /** The number that the first n digits stand for. */
  function NumberUpTo(key: string, n: nat): nat
    requires IsDigits(key) && n <= |key|
  {
    if n == 0 then 0 else 10 * NumberUpTo(key, n - 1) + (key[n - 1] as int - '0' as int)
  }

  function Number(key: string): nat
    requires IsDigits(key)
  {
    NumberUpTo(key, |key|)
  }

  function Power(n: nat): nat {
    if n == 0 then 1 else 10 * Power(n - 1)
  }

  lemma {:induction false} NumberBounds(key: string, n: nat)
    requires IsDigits(key) && n <= |key|
    ensures NumberUpTo(key, n) < Power(n)
    ensures n > 0 && key[0] != '0' ==> NumberUpTo(key, n) >= Power(n - 1)
  {
    if n > 0 {
      NumberBounds(key, n - 1);
      if n == 1 {
        assert NumberUpTo(key, 0) == 0 && Power(0) == 1;
      }
    }
  }

  lemma {:induction false} SamePrefix(a: string, b: string, n: nat)
    requires IsDigits(a) && IsDigits(b) && n <= |a| && n <= |b| && a[..n] == b[..n]
    ensures NumberUpTo(a, n) == NumberUpTo(b, n)
  {
    if n > 0 {
      assert a[n - 1] == a[..n][n - 1] == b[n - 1];
      assert a[..n - 1] == a[..n][..n - 1] == b[..n - 1];
      SamePrefix(a, b, n - 1);
    }
  }

  lemma {:induction false} SmallerStays(a: string, b: string, k: nat, n: nat)
    requires IsDigits(a) && IsDigits(b) && k < n <= |a| == |b| && a[..k] == b[..k] && a[k] < b[k]
    ensures NumberUpTo(a, n) < NumberUpTo(b, n)
  {
    if n == k + 1 {
      SamePrefix(a, b, k);
    } else {
      SmallerStays(a, b, k, n - 1);
    }
  }

  /** Digits of one length compare like the numbers. */
  lemma {:induction false} LexIsNumeric(a: string, b: string)
    requires IsDigits(a) && IsDigits(b) && |a| == |b|
    ensures LexLess(a, b) <==> Number(a) < Number(b)
  {
    LexTotal(a, b);
    LexLessMeans(a, b);
    LexLessMeans(b, a);
    if LexLess(a, b) {
      var k :| DiffersAt(a, b, k);
      SmallerStays(a, b, k, |a|);
    } else if LexLess(b, a) {
      var k :| DiffersAt(b, a, k);
      SmallerStays(b, a, k, |a|);
    }
  }

  lemma {:induction false} PowerGrows(m: nat, n: nat)
    requires m <= n
    ensures Power(m) <= Power(n)
  {
    if m < n {
      PowerGrows(m, n - 1);
    }
  }

  const LAST_INDEX: string := "4294967294"

  lemma LastIndexIs()
    ensures IsDigits(LAST_INDEX) && Number(LAST_INDEX) == 4294967294 && Power(9) == 1000000000
  {
    assert NumberUpTo(LAST_INDEX, 1) == 4 && NumberUpTo(LAST_INDEX, 2) == 42 && NumberUpTo(LAST_INDEX, 3) == 429;
    assert NumberUpTo(LAST_INDEX, 4) == 4294 && NumberUpTo(LAST_INDEX, 5) == 42949;
    assert NumberUpTo(LAST_INDEX, 6) == 429496 && NumberUpTo(LAST_INDEX, 7) == 4294967;
    assert NumberUpTo(LAST_INDEX, 8) == 42949672 && NumberUpTo(LAST_INDEX, 9) == 429496729;
    assert Power(3) == 1000 && Power(6) == 1000000;
  }

  /** An index is a number up to 2^32 - 2 written without a leading zero. */
  lemma {:induction false} IndexMeans(key: string)
    ensures IsIndex(key) <==> IsDigits(key) && (key[0] == '0' ==> |key| == 1) && Number(key) <= 4294967294
  {
    if IsDigits(key) && (key[0] == '0' ==> |key| == 1) {
      LastIndexIs();
      NumberBounds(key, |key|);
      if |key| < 10 {
        PowerGrows(|key|, 9);
      } else if |key| == 10 {
        LexIsNumeric(LAST_INDEX, key);
      } else {
        PowerGrows(10, |key| - 1);
      }
    }
  }

  /** Indices compare as numbers. */
  lemma {:induction false} IndexOrder(a: string, b: string)
    requires IsIndex(a) && IsIndex(b)
    ensures KeyLess(a, b) <==> Number(a) < Number(b)
  {
    NumberBounds(a, |a|);
    NumberBounds(b, |b|);
    if |a| == |b| {
      LexIsNumeric(a, b);
    } else if |a| < |b| {
      PowerGrows(|a|, |b| - 1);
    } else {
      PowerGrows(|b|, |a| - 1);
    }
  }

  /** The first k properties are the indices, in the order of their numbers; the others follow in the order
      of their texts. */
  ghost predicate Enumerated<S>(fields: seq<Field<S>>, k: nat) {
    && k <= |fields|
    && (forall i :: 0 <= i < |fields| ==> (IsIndex(fields[i].key) <==> i < k))
    && (forall i, j :: 0 <= i < j < k ==> Number(fields[i].key) < Number(fields[j].key))
    && (forall i, j :: k <= i < j < |fields| ==> TextBefore(fields[i].key, fields[j].key))
  }

  lemma {:induction false} KeySortedMeans<S>(fields: seq<Field<S>>) returns (k: nat)
    requires KeySorted(fields)
    ensures Enumerated(fields, k)
  {
    k := IndexCount(fields);
    forall i, j | 0 <= i < j < k ensures Number(fields[i].key) < Number(fields[j].key) {
      assert KeyLess(fields[i].key, fields[j].key);
      IndexOrder(fields[i].key, fields[j].key);
    }
    forall i, j | k <= i < j < |fields| ensures TextBefore(fields[i].key, fields[j].key) {
      assert KeyLess(fields[i].key, fields[j].key);
      LexLessMeans(fields[i].key, fields[j].key);
    }
  }

  lemma {:induction false} IndexCount<S>(fields: seq<Field<S>>) returns (k: nat)
    requires KeySorted(fields)
    ensures k <= |fields| && forall i :: 0 <= i < |fields| ==> (IsIndex(fields[i].key) <==> i < k)
  {
    k := 0;
    if fields != [] {
      var n := |fields| - 1;
      k := IndexCount(fields[..n]);
      assert forall i :: 0 <= i < n ==> fields[..n][i] == fields[i];
      if IsIndex(fields[n].key) {
        assert forall i :: 0 <= i < n ==> KeyLess(fields[i].key, fields[n].key);
        k := n + 1;
      }
    }
  }

  /** So the properties of a canonical object are enumerated with the indices first, as numbers, and then
      the other keys by their code units. */
  lemma {:induction false} CanonicalIsEnumerated<S(!new)>(fields: seq<Field<S>>) returns (k: nat)
    requires UniqueKeys(fields)
    ensures Enumerated(Rebuild(LexSort(fields)), k)
  {
    LexSortSorted(fields);
    RebuildSorted(LexSort(fields));
    k := KeySortedMeans(Rebuild(LexSort(fields)));
  }
}
