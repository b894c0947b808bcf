/**
 A document whose $refs never cycle in place always has the rank that the evaluator's termination
 rests on: the rank asks for nothing more than the absence of cycles.
 */
module SchemaGrounding {
  import opened Prelude
  import opened JsonSchema
  import opened SchemaEvaluator

  /** No chain of definitions, each reached from the one before at the same payload, comes back to its start. */
  ghost predicate Acyclic(doc: Document) {
    forall names: seq<string> :: |names| >= 2 && Chain(doc, names) ==> names[0] != names[|names| - 1]
  }

  /** The ranks that the definitions have when chains of up to k references are followed. */
  function RankAt(doc: Document, name: string, k: nat): nat
    decreases k
  {
    if k == 0 then 0
    else
      var found := Find(doc.defs, name);
      if found.None? then 0 else Height(doc.(rank := x => RankAt(doc, x, k - 1)), found.value)
  }

  function Ranked(doc: Document, k: nat): Document {
    doc.(rank := x => RankAt(doc, x, k))
  }

  lemma RankStep(doc: Document, name: string, k: nat)
    ensures RankAt(doc, name, k + 1) ==
            if Find(doc.defs, name).None? then 0 else Height(Ranked(doc, k), Find(doc.defs, name).value)
  {
    if Find(doc.defs, name).Some? {
      HeightSame(doc.(rank := x => RankAt(doc, x, k + 1 - 1)), Ranked(doc, k), Find(doc.defs, name).value);
    }
  }

  /** Ranks that agree everywhere give the same heights. */
  lemma {:induction false} HeightSame(a: Document, b: Document, node: Schema)
    requires forall x :: a.rank(x) == b.rank(x)
    ensures Height(a, node) == Height(b, node)
    decreases node, 0
  {
    if node.ref.None? {
      EntriesSame(a, b, node, |node.allOf|);
    }
  }

  lemma {:induction false} EntriesSame(a: Document, b: Document, node: Schema, n: nat)
    requires n <= |node.allOf| && forall x :: a.rank(x) == b.rank(x)
    ensures EntriesHeight(a, node, n) == EntriesHeight(b, node, n)
    decreases node, 0, n
  {
    if n > 0 {
      EntriesSame(a, b, node, n - 1);
      var entry := node.allOf[n - 1];
      if entry.test.None? {
        HeightSame(a, b, entry);
      } else {
        HeightSame(a, b, entry.test.value);
        if entry.consequent.Some? {
          HeightSame(a, b, entry.consequent.value);
        }
      }
    }
  }

  /** Where heights differ, the node refers in place to a definition whose ranks differ. */
  lemma {:induction false} HeightDiffers(a: Document, b: Document, node: Schema) returns (name: string)
    requires Height(a, node) != Height(b, node)
    ensures InPlace(node, name) && a.rank(name) != b.rank(name)
    decreases node, 0
  {
    if node.ref.Some? {
      name := RefName(node.ref.value).value;
    } else {
      name := EntriesDiffer(a, b, node, |node.allOf|);
    }
  }

  lemma {:induction false} EntriesDiffer(a: Document, b: Document, node: Schema, n: nat) returns (name: string)
    requires node.ref.None? && n <= |node.allOf| && EntriesHeight(a, node, n) != EntriesHeight(b, node, n)
    ensures InPlace(node, name) && a.rank(name) != b.rank(name)
    decreases node, 0, n
  {
    var entry := node.allOf[n - 1];
    if EntriesHeight(a, node, n - 1) != EntriesHeight(b, node, n - 1) {
      name := EntriesDiffer(a, b, node, n - 1);
    } else {
      if entry.test.None? {
        name := HeightDiffers(a, b, entry);
      } else if Height(a, entry.test.value) != Height(b, entry.test.value) {
        name := HeightDiffers(a, b, entry.test.value);
      } else {
        name := HeightDiffers(a, b, entry.consequent.value);
      }
      assert EntryInPlace(node.allOf[n - 1], name);
    }
  }

  /** A rank that still changes after k steps starts a chain of k + 1 definitions. */
  lemma {:induction false} LongChain(doc: Document, name: string, k: nat) returns (names: seq<string>)
    requires RankAt(doc, name, k + 1) != RankAt(doc, name, k)
    ensures |names| == k + 1 && names[0] == name && Chain(doc, names)
    ensures forall x :: x in names ==> Find(doc.defs, x).Some?
    decreases k
  {
    RankStep(doc, name, k);
    if k == 0 {
      names := [name];
    } else {
      RankStep(doc, name, k - 1);
      var def := Find(doc.defs, name).value;
      var next := HeightDiffers(Ranked(doc, k), Ranked(doc, k - 1), def);
      var rest := LongChain(doc, next, k - 1);
      names := [name] + rest;
      ConsChain(doc, name, rest);
    }
  }

  lemma ConsChain(doc: Document, name: string, rest: seq<string>)
    requires rest != [] && Chain(doc, rest) && Find(doc.defs, name).Some? && InPlace(Find(doc.defs, name).value, rest[0])
    ensures Chain(doc, [name] + rest)
  {
    var names := [name] + rest;
    forall k | 0 <= k < |names| - 1
      ensures Find(doc.defs, names[k]).Some? && InPlace(Find(doc.defs, names[k]).value, names[k + 1])
    {
      if k > 0 {
        assert names[k] == rest[k - 1] && names[k + 1] == rest[k - 1 + 1];
      }
    }
  }

  function Names(defs: seq<Property>): set<string> {
    set i | 0 <= i < |defs| :: defs[i].name
  }

  lemma {:induction false} FoundIsNamed(defs: seq<Property>, name: string)
    requires Find(defs, name).Some?
    ensures name in Names(defs)
  {
    if defs[0].name != name {
      FoundIsNamed(defs[1..], name);
      var i :| 0 <= i < |defs[1..]| && defs[1..][i].name == name;
      assert defs[i + 1].name == name;
    }
  }

  /** More entries than names: some name occurs twice. */
  lemma {:induction false} SomeNameTwice(names: seq<string>, all: set<string>) returns (i: nat, j: nat)
    requires |names| > |all| && forall x :: x in names ==> x in all
    ensures i < j < |names| && names[i] == names[j]
  {
    var first := names[0];
    if k :| 0 < k < |names| && names[k] == first {
      i, j := 0, k;
    } else {
      forall x | x in names[1..] ensures x in all - {first} {
        var k :| 0 <= k < |names[1..]| && names[1..][k] == x;
        assert names[k + 1] == x;
      }
      assert first in names;
      i, j := SomeNameTwice(names[1..], all - {first});
      i, j := i + 1, j + 1;
    }
  }

  lemma SubChain(doc: Document, names: seq<string>, i: nat, j: nat)
    requires Chain(doc, names) && i < j < |names|
    ensures Chain(doc, names[i..j + 1])
  {
    var part := names[i..j + 1];
    forall k | 0 <= k < |part| - 1
      ensures Find(doc.defs, part[k]).Some? && InPlace(Find(doc.defs, part[k]).value, part[k + 1])
    {
      assert part[k] == names[i + k] && part[k + 1] == names[i + k + 1];
    }
  }

  /** In an acyclic document the ranks settle once every definition has been passed. */
  lemma RanksSettle(doc: Document, name: string, k: nat)
    requires Acyclic(doc) && k >= |Names(doc.defs)|
    ensures RankAt(doc, name, k + 1) == RankAt(doc, name, k)
  {
    if RankAt(doc, name, k + 1) != RankAt(doc, name, k) {
      var names := LongChain(doc, name, k);
      forall x | x in names ensures x in Names(doc.defs) {
        FoundIsNamed(doc.defs, x);
      }
      var i, j := SomeNameTwice(names, Names(doc.defs));
      SubChain(doc, names, i, j);
      ChainNotClosed(doc, names, i, j);
    }
  }

  lemma ChainNotClosed(doc: Document, names: seq<string>, i: nat, j: nat)
    requires Acyclic(doc) && i < j < |names| && Chain(doc, names[i..j + 1])
    ensures names[i] != names[j]
  {
    var part := names[i..j + 1];
    assert part[0] == names[i] && part[|part| - 1] == names[j];
  }

  /** A document without cycles can be ranked, and one that is ranked has no cycles. */
  lemma GroundedIffAcyclic(doc: Document)
    ensures Acyclic(doc) <==> exists rank :: Grounded(doc.(rank := rank))
  {
    if Acyclic(doc) {
      var n := |Names(doc.defs)|;
      var ranked := Ranked(doc, n);
      forall name | Find(ranked.defs, name).Some?
        ensures Height(ranked, Find(ranked.defs, name).value) <= ranked.rank(name)
      {
        RankStep(doc, name, n);
        RanksSettle(doc, name, n);
      }
      assert Grounded(doc.(rank := ranked.rank));
    }
    if rank :| Grounded(doc.(rank := rank)) {
      var ranked := doc.(rank := rank);
      forall names: seq<string> | |names| >= 2 && Chain(doc, names) ensures names[0] != names[|names| - 1] {
        assert Chain(ranked, names);
        GroundedHasNoCycle(ranked, names);
      }
    }
  }
}
