/**
 The file tree of the generated artifacts: building it from paths, with a name index beside every
 child list, and sorting it.

 `Tree` is what a node shows; class TreeNode keeps the nodes and their indexes and is proved against
 `Insert`. The comparison of names is a parameter, because localeCompare depends on the locale.
 */
module FileTree {
  import opened Prelude

  /** A node shows its name and path; a file also shows the input it stands for. */
  datatype Tree<R> = Tree(name: string, path: string, file: Option<R>, children: seq<Tree<R>>)

  /** An input: the segments of its path, never none, and the reference. */
  datatype File<R> = File(segments: seq<string>, ref: R)

  /** The position of the child with a name, or the number of children. */
  function Find<R>(children: seq<Tree<R>>, name: string): (i: nat)
    ensures i <= |children|
    ensures i < |children| ==> children[i].name == name
    ensures forall k :: 0 <= k < i ==> children[k].name != name
  {
    if children == [] then 0
    else if children[0].name == name then 0
    else 1 + Find(children[1..], name)
  }

  function PathOf(segments: seq<string>): string {
    if segments == [] then "" else JoinAll(segments, '/')
  }

  /** A new child below `done`: a file when no segment is left after it. */
  function NewNode<R>(done: seq<string>, name: string, last: bool, ref: R): Tree<R> {
    Tree(name, PathOf(done + [name]), if last then Some(ref) else None, [])
  }

  /** The inner loop: `rest` is what is left of the path below the node at `done`. */
  function Insert<R>(t: Tree<R>, done: seq<string>, rest: seq<string>, ref: R): Tree<R>
    decreases |rest|
  {
    if rest == [] then t
    else
      var i := Find(t.children, rest[0]);
      var child := if i < |t.children| then t.children[i] else NewNode(done, rest[0], |rest| == 1, ref);
      var below := Insert(child, done + [rest[0]], rest[1..], ref);
      t.(children := if i < |t.children| then t.children[i := below] else t.children + [below])
  }

  function Root<R>(): Tree<R> {
    Tree("", "", None, [])
  }

  function Build<R>(files: seq<File<R>>): Tree<R> {
    if files == [] then Root()
    else
      var last := files[|files| - 1];
      Insert(Build(files[..|files| - 1]), [], last.segments, last.ref)
  }

  // ----- reading a tree -----

  /** The node that a path leads to. */
  function At<R>(t: Tree<R>, path: seq<string>): Option<Tree<R>>
    decreases |path|
  {
    if path == [] then Some(t)
    else
      var i := Find(t.children, path[0]);
      if i < |t.children| then At(t.children[i], path[1..]) else None
  }

  function FileAt<R>(t: Tree<R>, path: seq<string>): Option<R> {
    var node := At(t, path);
    if node.Some? then node.value.file else None
  }

  lemma {:induction false} FindAfter<R(!new)>(children: seq<Tree<R>>, i: nat, below: Tree<R>, name: string)
    requires i < |children| && below.name == children[i].name
    ensures Find(children[i := below], name) == Find(children, name)
  {
    var changed := children[i := below];
    if children[0].name != name {
      if i == 0 {
        assert changed[1..] == children[1..];
      } else {
        assert changed[1..] == children[1..][i - 1 := below];
        FindAfter(children[1..], i - 1, below, name);
      }
    }
  }

  lemma {:induction false} FindAppend<R(!new)>(children: seq<Tree<R>>, below: Tree<R>, name: string)
    ensures Find(children + [below], name) ==
            if Find(children, name) < |children| then Find(children, name)
            else if below.name == name then |children| else |children| + 1
  {
    if children != [] {
      assert (children + [below])[1..] == children[1..] + [below];
      FindAppend(children[1..], below, name);
    }
  }

  lemma {:induction false} InsertKeepsHead<R(!new)>(t: Tree<R>, done: seq<string>, rest: seq<string>, ref: R)
    ensures var out := Insert(t, done, rest, ref); out.name == t.name && out.path == t.path && out.file == t.file
  {
  }

  /** Where the child of the first segment is after an insertion, and what it is. */
  lemma InsertedChild<R(!new)>(t: Tree<R>, done: seq<string>, rest: seq<string>, ref: R, name: string)
    requires rest != []
    ensures var i, out := Find(t.children, rest[0]), Insert(t, done, rest, ref).children;
            var child := if i < |t.children| then t.children[i] else NewNode(done, rest[0], |rest| == 1, ref);
            && Find(out, rest[0]) == i < |out| && out[i] == Insert(child, done + [rest[0]], rest[1..], ref)
            && (name != rest[0] ==>
                  var k := Find(t.children, name);
                  if k < |t.children| then Find(out, name) == k && out[k] == t.children[k]
                  else Find(out, name) == |out|)
  {
    var i := Find(t.children, rest[0]);
    var child := if i < |t.children| then t.children[i] else NewNode(done, rest[0], |rest| == 1, ref);
    var below := Insert(child, done + [rest[0]], rest[1..], ref);
    InsertKeepsHead(child, done + [rest[0]], rest[1..], ref);
    if i < |t.children| {
      FindAfter(t.children, i, below, rest[0]);
      FindAfter(t.children, i, below, name);
    } else {
      FindAppend(t.children, below, rest[0]);
      FindAppend(t.children, below, name);
    }
  }

  /** One insertion adds the file where no node was, and changes no other file. */
  lemma {:induction false} InsertFile<R(!new)>(
    t: Tree<R>, done: seq<string>, rest: seq<string>, ref: R, path: seq<string>)
    requires rest != []
    ensures FileAt(Insert(t, done, rest, ref), path) ==
            if path == rest && At(t, path).None? then Some(ref) else FileAt(t, path)
    decreases |rest|
  {
    InsertKeepsHead(t, done, rest, ref);
    if path != [] {
      var name, tail, below := path[0], path[1..], rest[1..];
      InsertedChild(t, done, rest, ref, name);
      assert path == [name] + tail && rest == [rest[0]] + below;
      if name == rest[0] {
        var i := Find(t.children, name);
        var child := if i < |t.children| then t.children[i] else NewNode(done, name, |rest| == 1, ref);
        assert path == rest <==> tail == below;
        if below != [] {
          InsertFile(child, done + [name], below, ref, tail);
        } else {
          assert Insert(child, done + [name], below, ref) == child;
        }
        if i == |t.children| {
          NothingBelow(child, tail);
        }
      }
    }
  }

  lemma NothingBelow<R(!new)>(t: Tree<R>, path: seq<string>)
    requires t.children == []
    ensures At(t, path) == if path == [] then Some(t) else None
  {
  }

  predicate IsPrefix(p: seq<string>, q: seq<string>) {
    p <= q
  }

  lemma PrefixHead(p: seq<string>, q: seq<string>)
    requires p != []
    ensures IsPrefix(p, q) ==> q != [] && p[0] == q[0]
  {
  }

  /** The nodes are the old ones and those on the way of the new path, each with its own path. */
  lemma {:induction false} InsertNodes<R(!new)>(
    t: Tree<R>, done: seq<string>, rest: seq<string>, ref: R, path: seq<string>)
    ensures At(Insert(t, done, rest, ref), path).Some? <==> At(t, path).Some? || IsPrefix(path, rest)
    decreases |rest|
  {
    if path != [] && rest != [] {
      PrefixHead(path, rest);
      InsertedChild(t, done, rest, ref, path[0]);
      assert path == [path[0]] + path[1..] && rest == [rest[0]] + rest[1..];
      if path[0] == rest[0] {
        var i := Find(t.children, rest[0]);
        var child := if i < |t.children| then t.children[i] else NewNode(done, rest[0], |rest| == 1, ref);
        InsertNodes(child, done + [rest[0]], rest[1..], ref, path[1..]);
        assert IsPrefix(path, rest) <==> IsPrefix(path[1..], rest[1..]);
      }
    }
  }

  ghost predicate OnTheWay<R>(files: seq<File<R>>, path: seq<string>, n: nat)
    requires n <= |files|
  {
    exists i :: 0 <= i < n && IsPrefix(path, files[i].segments)
  }

  /** The tree has a node at exactly the prefixes of the input paths. */
  lemma {:induction false} NodesAreThePrefixes<R(!new)>(files: seq<File<R>>, path: seq<string>)
    requires path != []
    ensures At(Build(files), path).Some? <==> OnTheWay(files, path, |files|)
  {
    if files != [] {
      var rest, last := files[..|files| - 1], files[|files| - 1];
      NodesAreThePrefixes(rest, path);
      InsertNodes(Build(rest), [], last.segments, last.ref, path);
      assert forall i :: 0 <= i < |rest| ==> files[i] == rest[i];
    }
  }

  predicate NoEmptyPaths<R>(files: seq<File<R>>) {
    forall i :: 0 <= i < |files| ==> files[i].segments != []
  }

  /** Input i is shown as a file. */
  ghost predicate Shown<R>(files: seq<File<R>>, i: nat)
    requires i < |files|
  {
    !OnTheWay(files, files[i].segments, i)
  }

  ghost predicate ShownAs<R>(files: seq<File<R>>, i: nat, path: seq<string>, ref: R)
    requires i < |files|
  {
    files[i] == File(path, ref) && Shown(files, i)
  }

  lemma ShownBefore<R(!new)>(files: seq<File<R>>, i: nat, n: nat, path: seq<string>, ref: R)
    requires i < n <= |files|
    ensures ShownAs(files, i, path, ref) <==> ShownAs(files[..n], i, path, ref)
  {
    assert forall k :: 0 <= k < n ==> files[k] == files[..n][k];
  }

  ghost predicate SomeShown<R>(files: seq<File<R>>, path: seq<string>, ref: R) {
    exists i :: 0 <= i < |files| && ShownAs(files, i, path, ref)
  }

  lemma SomeShownGrows<R(!new)>(files: seq<File<R>>, path: seq<string>, ref: R)
    requires files != []
    ensures var n := |files| - 1;
            SomeShown(files, path, ref) <==> SomeShown(files[..n], path, ref) || ShownAs(files, n, path, ref)
  {
    var n := |files| - 1;
    forall i | 0 <= i < n ensures ShownAs(files, i, path, ref) <==> ShownAs(files[..n], i, path, ref) {
      ShownBefore(files, i, n, path, ref);
    }
  }

  /** A path shows as a file exactly the input with that path before which no input has led to it or
      through it; an input is lost exactly when an earlier path equals it or goes on below it. */
  lemma {:induction false} FilesAreTheInputs<R(!new)>(files: seq<File<R>>, path: seq<string>, ref: R)
    requires NoEmptyPaths(files)
    ensures FileAt(Build(files), path) == Some(ref) <==> SomeShown(files, path, ref)
  {
    if files != [] {
      var n := |files| - 1;
      var rest, last := files[..n], files[n];
      FilesAreTheInputs(rest, path, ref);
      InsertFile(Build(rest), [], last.segments, last.ref, path);
      SomeShownGrows(files, path, ref);
      LastIsShown(files, path, ref);
      if path == last.segments && !OnTheWay(rest, path, n) {
        NotYetShown(rest, path, ref);
      }
    }
  }

  /** The last input is shown exactly when no node was there yet. */
  lemma LastIsShown<R(!new)>(files: seq<File<R>>, path: seq<string>, ref: R)
    requires files != [] && NoEmptyPaths(files)
    ensures var n := |files| - 1;
            && (ShownAs(files, n, path, ref) <==>
                  files[n] == File(path, ref) && At(Build(files[..n]), path).None?)
            && (path == files[n].segments ==> (At(Build(files[..n]), path).Some? <==> OnTheWay(files[..n], path, n)))
  {
    var n := |files| - 1;
    NodesAreThePrefixes(files[..n], files[n].segments);
    assert forall k :: 0 <= k < n ==> files[k] == files[..n][k];
    assert OnTheWay(files, files[n].segments, n) <==> OnTheWay(files[..n], files[n].segments, n);
  }

  lemma NotYetShown<R(!new)>(files: seq<File<R>>, path: seq<string>, ref: R)
    requires !OnTheWay(files, path, |files|)
    ensures !SomeShown(files, path, ref)
  {
    forall i | 0 <= i < |files| ensures files[i].segments != path {
      assert !IsPrefix(path, files[i].segments);
    }
  }

  ghost predicate PrefixFree<R>(files: seq<File<R>>) {
    forall i, j :: 0 <= i < |files| && 0 <= j < |files| && i != j ==> !IsPrefix(files[i].segments, files[j].segments)
  }

  /** Distinct paths of which none is a prefix of another are all shown. */
  lemma PrefixFreeShowsAll<R(!new)>(files: seq<File<R>>, path: seq<string>, ref: R)
    requires NoEmptyPaths(files) && PrefixFree(files)
    ensures FileAt(Build(files), path) == Some(ref) <==> File(path, ref) in files
  {
    FilesAreTheInputs(files, path, ref);
    forall i | 0 <= i < |files| ensures ShownAs(files, i, path, ref) <==> files[i] == File(path, ref) {
      assert forall k :: 0 <= k < i ==> !IsPrefix(files[i].segments, files[k].segments);
    }
  }

  // ----- the shape of a tree -----

  predicate UniqueNames<R>(children: seq<Tree<R>>) {
    forall i, j :: 0 <= i < j < |children| ==> children[i].name != children[j].name
  }

  /** No two siblings share a name, and every node has the path that leads to it. */
  predicate WellFormed<R>(t: Tree<R>, done: seq<string>)
    decreases t
  {
    && t.path == PathOf(done)
    && UniqueNames(t.children)
    && forall i :: 0 <= i < |t.children| ==> WellFormed(t.children[i], done + [t.children[i].name])
  }

  lemma {:induction false} InsertKeepsShape<R(!new)>(t: Tree<R>, done: seq<string>, rest: seq<string>, ref: R)
    requires WellFormed(t, done)
    ensures WellFormed(Insert(t, done, rest, ref), done)
    decreases |rest|
  {
    if rest != [] {
      var i := Find(t.children, rest[0]);
      var child := if i < |t.children| then t.children[i] else NewNode(done, rest[0], |rest| == 1, ref);
      InsertKeepsShape(child, done + [rest[0]], rest[1..], ref);
      InsertKeepsHead(child, done + [rest[0]], rest[1..], ref);
    }
  }

  /** Every directory, like every file, appears once. */
  lemma {:induction false} BuildIsWellFormed<R(!new)>(files: seq<File<R>>)
    ensures WellFormed(Build(files), [])
  {
    if files != [] {
      var last := files[|files| - 1];
      BuildIsWellFormed(files[..|files| - 1]);
      InsertKeepsShape(Build(files[..|files| - 1]), [], last.segments, last.ref);
    }
  }

  // ----- trees that show the same -----

  ghost predicate Matching<R>(s: seq<Tree<R>>, t: seq<Tree<R>>, i: int, j: int) {
    0 <= i < |s| && 0 <= j < |t| && s[i].name == t[j].name
  }

  ghost predicate Named<R>(children: seq<Tree<R>>, name: string) {
    exists i :: 0 <= i < |children| && children[i].name == name
  }

  /** The same up to the order of siblings. */
  ghost predicate Alike<R(!new)>(s: Tree<R>, t: Tree<R>)
    decreases s
  {
    && s.name == t.name && s.path == t.path && s.file == t.file
    && (forall name :: Named(s.children, name) <==> Named(t.children, name))
    && forall i, j :: Matching(s.children, t.children, i, j) ==> Alike(s.children[i], t.children[j])
  }

  ghost predicate SameView<R(!new)>(s: Tree<R>, t: Tree<R>) {
    forall path :: SameAt(s, t, path)
  }

  ghost predicate SameAt<R(!new)>(s: Tree<R>, t: Tree<R>, path: seq<string>) {
    && (At(s, path).Some? <==> At(t, path).Some?)
    && FileAt(s, path) == FileAt(t, path)
  }

  lemma FindNamed<R(!new)>(children: seq<Tree<R>>, name: string)
    ensures Named(children, name) <==> Find(children, name) < |children|
  {
    var i := Find(children, name);
    assert i < |children| ==> children[i].name == name;
  }

  lemma StepAt<R(!new)>(t: Tree<R>, name: string, path: seq<string>)
    ensures At(t, [name] + path) ==
            var i := Find(t.children, name); if i < |t.children| then At(t.children[i], path) else None
  {
    assert ([name] + path)[1..] == path;
  }

  /** Well-formed trees with a node and a file at the same paths are alike. */
  lemma {:induction false} SameViewIsAlike<R(!new)>(s: Tree<R>, t: Tree<R>, done: seq<string>)
    requires WellFormed(s, done) && WellFormed(t, done) && SameView(s, t) && s.name == t.name
    ensures Alike(s, t)
    decreases s
  {
    assert SameAt(s, t, []);
    forall name ensures Named(s.children, name) <==> Named(t.children, name) {
      assert SameAt(s, t, [name] + []);
      StepAt(s, name, []);
      StepAt(t, name, []);
      FindNamed(s.children, name);
      FindNamed(t.children, name);
    }
    forall i, j | Matching(s.children, t.children, i, j) ensures Alike(s.children[i], t.children[j]) {
      var name := s.children[i].name;
      FindUnique(s.children, i);
      FindUnique(t.children, j);
      forall path ensures SameAt(s.children[i], t.children[j], path) {
        assert SameAt(s, t, [name] + path);
        StepAt(s, name, path);
        StepAt(t, name, path);
      }
      SameViewIsAlike(s.children[i], t.children[j], done + [name]);
    }
  }

  lemma FindUnique<R(!new)>(children: seq<Tree<R>>, i: nat)
    requires UniqueNames(children) && i < |children|
    ensures Find(children, children[i].name) == i
  {
  }

  // ----- sorting -----

  /** A strict total order on names. */
  ghost predicate TotalOrder(before: (string, string) -> bool) {
    && (forall a, b :: a != b ==> before(a, b) || before(b, a))
    && (forall a, b :: before(a, b) ==> !before(b, a))
    && (forall a, b, c :: before(a, b) && before(b, c) ==> before(a, c))
  }

  /** The comparison of sortNodes: directories first, then by name. */
  predicate Precedes<R>(before: (string, string) -> bool, a: Tree<R>, b: Tree<R>) {
    if a.file.None? != b.file.None? then a.file.None? else before(a.name, b.name)
  }

  function Place<R>(before: (string, string) -> bool, t: Tree<R>, sorted: seq<Tree<R>>): seq<Tree<R>> {
    if sorted == [] then [t]
    else if Precedes(before, sorted[0], t) then [sorted[0]] + Place(before, t, sorted[1..])
    else [t] + sorted
  }

  /** sortNodes: the children of every node are sorted. */
  function SortTree<R>(before: (string, string) -> bool, t: Tree<R>): Tree<R>
    decreases t, 1, 0
  {
    t.(children := SortedChildren(before, t, |t.children|))
  }

  function SortedChildren<R>(before: (string, string) -> bool, t: Tree<R>, n: nat): seq<Tree<R>>
    requires n <= |t.children|
    decreases t, 0, n
  {
    if n == 0 then []
    else Place(before, SortTree(before, t.children[n - 1]), SortedChildren(before, t, n - 1))
  }

  predicate Ordered<R>(before: (string, string) -> bool, children: seq<Tree<R>>) {
    forall i, j :: 0 <= i < j < |children| ==> Precedes(before, children[i], children[j])
  }

  predicate SortedTree<R>(before: (string, string) -> bool, t: Tree<R>)
    decreases t
  {
    Ordered(before, t.children) && forall i :: 0 <= i < |t.children| ==> SortedTree(before, t.children[i])
  }

  lemma ConsOrdered<R(!new)>(before: (string, string) -> bool, t: Tree<R>, sorted: seq<Tree<R>>)
    requires Ordered(before, sorted) && forall x :: x in sorted ==> Precedes(before, t, x)
    ensures Ordered(before, [t] + sorted)
  {
    assert forall i :: 0 <= i < |sorted| ==> sorted[i] in sorted;
  }

  lemma PrecedesTransitive<R(!new)>(before: (string, string) -> bool, a: Tree<R>, b: Tree<R>, c: Tree<R>)
    requires TotalOrder(before) && Precedes(before, a, b) && Precedes(before, b, c)
    ensures Precedes(before, a, c)
  {
  }

  lemma {:induction false} PlaceOrdered<R(!new)>(before: (string, string) -> bool, t: Tree<R>, sorted: seq<Tree<R>>)
    requires TotalOrder(before) && Ordered(before, sorted) && forall x :: x in sorted ==> x.name != t.name
    ensures Ordered(before, Place(before, t, sorted))
    ensures forall x :: x in Place(before, t, sorted) <==> x == t || x in sorted
  {
    if sorted != [] {
      var first, rest := sorted[0], sorted[1..];
      assert sorted == [first] + rest;
      assert forall x :: x in sorted <==> x == first || x in rest;
      if Precedes(before, first, t) {
        PlaceOrdered(before, t, rest);
        forall x | x in rest ensures Precedes(before, first, x) {
          var i :| 0 <= i < |rest| && rest[i] == x;
          assert sorted[i + 1] == x;
        }
        ConsOrdered(before, first, Place(before, t, rest));
      } else {
        forall x | x in sorted ensures Precedes(before, t, x) {
          assert Precedes(before, t, first);
          if x != first {
            var i :| 0 <= i < |sorted| && sorted[i] == x;
            PrecedesTransitive(before, t, first, x);
          }
        }
        ConsOrdered(before, t, sorted);
      }
    }
  }

  /** The sorted form of one of the first children. */
  ghost predicate SortedFrom<R(!new)>(before: (string, string) -> bool, t: Tree<R>, n: nat, x: Tree<R>)
    requires n <= |t.children|
  {
    exists i :: 0 <= i < n && x == SortTree(before, t.children[i])
  }

  /** Sorting the first children keeps them, each sorted. */
  lemma {:induction false} ChildrenSorted<R(!new)>(before: (string, string) -> bool, t: Tree<R>, n: nat)
    requires TotalOrder(before) && UniqueNames(t.children) && n <= |t.children|
    ensures var out := SortedChildren(before, t, n);
            && Ordered(before, out)
            && (forall x :: x in out <==> SortedFrom(before, t, n, x))
    decreases n
  {
    if n > 0 {
      ChildrenSorted(before, t, n - 1);
      var out, child := SortedChildren(before, t, n - 1), SortTree(before, t.children[n - 1]);
      forall x | x in out ensures x.name != child.name {
        var i :| 0 <= i < n - 1 && x == SortTree(before, t.children[i]);
      }
      PlaceOrdered(before, child, out);
      forall x ensures SortedFrom(before, t, n, x) <==> SortedFrom(before, t, n - 1, x) || x == child {
        FromMore(before, t, n, x);
      }
    }
  }

  lemma FromMore<R(!new)>(before: (string, string) -> bool, t: Tree<R>, n: nat, x: Tree<R>)
    requires 0 < n <= |t.children|
    ensures SortedFrom(before, t, n, x) <==> SortedFrom(before, t, n - 1, x) || x == SortTree(before, t.children[n - 1])
  {
  }

  /** A sorted tree is the tree up to the order of siblings. */
  lemma {:induction false} SortedIsAlike<R(!new)>(before: (string, string) -> bool, t: Tree<R>, done: seq<string>)
    requires TotalOrder(before) && WellFormed(t, done)
    ensures SortedTree(before, SortTree(before, t)) && Alike(t, SortTree(before, t))
    decreases t
  {
    forall i | 0 <= i < |t.children|
      ensures SortedTree(before, SortTree(before, t.children[i])) && Alike(t.children[i], SortTree(before, t.children[i]))
    {
      SortedIsAlike(before, t.children[i], done + [t.children[i].name]);
    }
    ChildrenSorted(before, t, |t.children|);
    SortedNodeIsAlike(before, t);
  }

  lemma SortedNodeIsAlike<R(!new)>(before: (string, string) -> bool, t: Tree<R>)
    requires UniqueNames(t.children)
    requires forall i :: 0 <= i < |t.children| ==>
               SortedTree(before, SortTree(before, t.children[i])) && Alike(t.children[i], SortTree(before, t.children[i]))
    requires Ordered(before, SortTree(before, t).children)
    requires forall x :: x in SortTree(before, t).children <==> SortedFrom(before, t, |t.children|, x)
    ensures SortedTree(before, SortTree(before, t)) && Alike(t, SortTree(before, t))
  {
    var out := SortTree(before, t).children;
    forall j | 0 <= j < |out| ensures SortedTree(before, out[j]) && Named(t.children, out[j].name) {
      var k := OriginOf(before, t, out[j]);
      NamedAt(t.children, k);
    }
    forall name ensures Named(t.children, name) <==> Named(out, name) {
      if Named(t.children, name) {
        var i :| 0 <= i < |t.children| && t.children[i].name == name;
        assert SortedFrom(before, t, |t.children|, SortTree(before, t.children[i]));
        var j :| 0 <= j < |out| && out[j] == SortTree(before, t.children[i]);
        NamedAt(out, j);
      }
      if Named(out, name) {
        var j :| 0 <= j < |out| && out[j].name == name;
        assert Named(t.children, out[j].name);
      }
    }
    forall i, j | Matching(t.children, out, i, j) ensures Alike(t.children[i], out[j]) {
      var k := OriginOf(before, t, out[j]);
      SameNameSameChild(t.children, i, k);
    }
  }

  lemma NamedAt<R(!new)>(children: seq<Tree<R>>, i: nat)
    requires i < |children|
    ensures Named(children, children[i].name)
  {
  }

  lemma SameNameSameChild<R(!new)>(children: seq<Tree<R>>, i: nat, k: nat)
    requires UniqueNames(children) && i < |children| && k < |children| && children[i].name == children[k].name
    ensures i == k
  {
  }

  lemma OriginOf<R(!new)>(before: (string, string) -> bool, t: Tree<R>, x: Tree<R>) returns (k: nat)
    requires x in SortTree(before, t).children
    requires forall y :: y in SortTree(before, t).children <==> SortedFrom(before, t, |t.children|, y)
    ensures k < |t.children| && x == SortTree(before, t.children[k]) && x.name == t.children[k].name
  {
    k :| 0 <= k < |t.children| && x == SortTree(before, t.children[k]);
  }

  lemma PrecedesAsymmetric<R(!new)>(before: (string, string) -> bool, a: Tree<R>, b: Tree<R>)
    requires TotalOrder(before) && Precedes(before, a, b)
    ensures !Precedes(before, b, a)
  {
  }

  /** A strictly ordered list is determined by its members. */
  lemma {:induction false} OrderedEqual<R(!new)>(before: (string, string) -> bool, a: seq<Tree<R>>, b: seq<Tree<R>>)
    requires TotalOrder(before) && Ordered(before, a) && Ordered(before, b)
    requires forall x :: x in a <==> x in b
    ensures a == b
  {
    SameEmptiness(a, b);
    if a != [] {
      assert a[0] in b && b[0] in a;
      var j :| 0 <= j < |b| && b[j] == a[0];
      var i :| 0 <= i < |a| && a[i] == b[0];
      if j > 0 && i > 0 {
        PrecedesAsymmetric(before, b[0], a[0]);
      }
      forall x ensures x in a[1..] <==> x in b[1..] {
        RestMembers(before, a, x);
        RestMembers(before, b, x);
      }
      OrderedEqual(before, a[1..], b[1..]);
      assert a == [a[0]] + a[1..] && b == [b[0]] + b[1..];
    }
  }

  lemma SameEmptiness<R(!new)>(a: seq<Tree<R>>, b: seq<Tree<R>>)
    requires forall x :: x in a <==> x in b
    ensures a == [] <==> b == []
  {
    if a != [] {
      assert a[0] in b;
    }
    if b != [] {
      assert b[0] in a;
    }
  }

  lemma RestMembers<R(!new)>(before: (string, string) -> bool, a: seq<Tree<R>>, x: Tree<R>)
    requires TotalOrder(before) && Ordered(before, a) && a != []
    ensures x in a[1..] <==> x in a && x != a[0]
  {
    assert a == [a[0]] + a[1..];
    if x in a[1..] {
      var i :| 0 <= i < |a[1..]| && a[1..][i] == x;
      assert Precedes(before, a[0], a[i + 1]);
      PrecedesAsymmetric(before, a[0], a[i + 1]);
    }
  }

  ghost predicate AllUnique<R>(t: Tree<R>)
    decreases t
  {
    UniqueNames(t.children) && forall i :: 0 <= i < |t.children| ==> AllUnique(t.children[i])
  }

  lemma {:induction false} WellFormedIsUnique<R(!new)>(t: Tree<R>, done: seq<string>)
    requires WellFormed(t, done)
    ensures AllUnique(t)
    decreases t
  {
    forall i | 0 <= i < |t.children| ensures AllUnique(t.children[i]) {
      WellFormedIsUnique(t.children[i], done + [t.children[i].name]);
    }
  }

  /** Sorting forgets the order of siblings. */
  lemma {:induction false} SortAlikeEqual<R(!new)>(before: (string, string) -> bool, s: Tree<R>, t: Tree<R>)
    requires TotalOrder(before) && AllUnique(s) && AllUnique(t) && Alike(s, t)
    ensures SortTree(before, s) == SortTree(before, t)
    decreases s
  {
    ChildrenSorted(before, s, |s.children|);
    ChildrenSorted(before, t, |t.children|);
    var a, b := SortTree(before, s).children, SortTree(before, t).children;
    forall i, j | Matching(s.children, t.children, i, j)
      ensures SortTree(before, s.children[i]) == SortTree(before, t.children[j])
    {
      SortAlikeEqual(before, s.children[i], t.children[j]);
    }
    forall x ensures x in a <==> x in b {
      if x in a {
        var i := OriginOf(before, s, x);
        assert Named(s.children, s.children[i].name);
        var j :| 0 <= j < |t.children| && t.children[j].name == s.children[i].name;
        assert Matching(s.children, t.children, i, j);
        assert SortedFrom(before, t, |t.children|, x);
      }
      if x in b {
        var j := OriginOf(before, t, x);
        assert Named(t.children, t.children[j].name);
        var i :| 0 <= i < |s.children| && s.children[i].name == t.children[j].name;
        assert Matching(s.children, t.children, i, j);
        assert SortedFrom(before, s, |s.children|, x);
      }
    }
    OrderedEqual(before, a, b);
  }

  lemma {:induction false} RootStays<R(!new)>(files: seq<File<R>>)
    ensures Build(files).name == "" && Build(files).path == "" && Build(files).file == None
  {
    if files != [] {
      var last := files[|files| - 1];
      RootStays(files[..|files| - 1]);
      InsertKeepsHead(Build(files[..|files| - 1]), [], last.segments, last.ref);
    }
  }

  lemma OnTheWayMembers<R(!new)>(a: seq<File<R>>, b: seq<File<R>>, path: seq<string>)
    requires (forall f :: f in a ==> f in b) && OnTheWay(a, path, |a|)
    ensures OnTheWay(b, path, |b|)
  {
    var i :| 0 <= i < |a| && IsPrefix(path, a[i].segments);
    assert a[i] in b;
    var j :| 0 <= j < |b| && b[j] == a[i];
  }

  lemma SameFilesSameView<R(!new)>(a: seq<File<R>>, b: seq<File<R>>)
    requires NoEmptyPaths(a) && NoEmptyPaths(b) && PrefixFree(a) && PrefixFree(b)
    requires forall f :: f in a <==> f in b
    ensures SameView(Build(a), Build(b))
  {
    RootStays(a);
    RootStays(b);
    forall path ensures SameAt(Build(a), Build(b), path) {
      if path != [] {
        NodesAreThePrefixes(a, path);
        NodesAreThePrefixes(b, path);
        if OnTheWay(a, path, |a|) { OnTheWayMembers(a, b, path); }
        if OnTheWay(b, path, |b|) { OnTheWayMembers(b, a, path); }
        forall ref ensures FileAt(Build(a), path) == Some(ref) <==> FileAt(Build(b), path) == Some(ref) {
          PrefixFreeShowsAll(a, path, ref);
          PrefixFreeShowsAll(b, path, ref);
        }
        SameOption(FileAt(Build(a), path), FileAt(Build(b), path));
      }
    }
  }

  lemma SameOption<R(!new)>(a: Option<R>, b: Option<R>)
    requires forall ref :: a == Some(ref) <==> b == Some(ref)
    ensures a == b
  {
    if a.Some? {
      assert a == Some(a.value);
    } else if b.Some? {
      assert b == Some(b.value);
    }
  }

  /** For distinct paths of which none is a prefix of another, the sorted tree does not depend on the order
      of the input. */
  lemma SortedTreeIgnoresOrder<R(!new)>(before: (string, string) -> bool, a: seq<File<R>>, b: seq<File<R>>)
    requires TotalOrder(before)
    requires NoEmptyPaths(a) && NoEmptyPaths(b) && PrefixFree(a) && PrefixFree(b)
    requires forall f :: f in a <==> f in b
    ensures SortTree(before, Build(a)) == SortTree(before, Build(b))
  {
    BuildIsWellFormed(a);
    BuildIsWellFormed(b);
    RootStays(a);
    RootStays(b);
    SameFilesSameView(a, b);
    SameViewIsAlike(Build(a), Build(b), []);
    WellFormedIsUnique(Build(a), []);
    WellFormedIsUnique(Build(b), []);
    SortAlikeEqual(before, Build(a), Build(b));
  }

  // ----- the nodes -----

  /** A node with its children and the index of them by name. */
  class TreeNode<R(==, !new)> {
    const name: string
    const path: string
    const file: Option<R>
    var children: seq<TreeNode<R>>
    var index: map<string, TreeNode<R>>
    ghost var Shows: Tree<R>
    ghost var Repr: set<object>

    /** An index holds exactly these children, by name. */
    static ghost predicate IndexOf(index: map<string, TreeNode<R>>, children: seq<TreeNode<R>>) {
      && (forall i :: 0 <= i < |children| ==> children[i].name in index && index[children[i].name] == children[i])
      && (forall n :: n in index ==> exists i :: 0 <= i < |children| && children[i] == index[n] && children[i].name == n)
    }

    ghost predicate Indexed()
      reads this
    {
      IndexOf(index, children)
    }

    /** Child k lies inside this node's part of the heap and away from the node itself. */
    ghost predicate Owns(k: nat)
      requires k < |children|
      reads this, children[k]
    {
      var c := children[k];
      c in Repr && c in c.Repr && c.Repr < Repr && this !in c.Repr
    }

    static ghost predicate Apart(a: TreeNode<R>, b: TreeNode<R>)
      reads a, b
    {
      a.Repr !! b.Repr
    }

    /** What is shown is what the children show. */
    ghost predicate ShowsChild(k: nat)
      requires k < |children|
      reads this, children[k]
    {
      k < |Shows.children| && Shows.children[k] == children[k].Shows && Shows.children[k].name == children[k].name
    }

    ghost predicate Valid()
      reads this, Repr
      decreases Repr
    {
      && this in Repr
      && (forall k :: 0 <= k < |children| ==> children[k] in Repr)
      && (forall k :: 0 <= k < |children| ==> Owns(k) && children[k].Valid())
      && (forall k, l :: 0 <= k < l < |children| ==> Apart(children[k], children[l]))
      && Indexed()
      && Showing()
    }

    ghost predicate Showing()
      reads this, children
    {
      && Shows.name == name && Shows.path == path && Shows.file == file && |Shows.children| == |children|
      && (forall k :: 0 <= k < |children| ==> ShowsChild(k))
    }

    constructor (name: string, path: string, file: Option<R>)
      ensures Valid() && fresh(Repr) && Shows == Tree(name, path, file, []) && this.name == name
    {
      this.name, this.path, this.file := name, path, file;
      children, index := [], map[];
      Shows, Repr := Tree(name, path, file, []), {this};
    }

    /** Looking a child up in the index, and creating it when it is not there. */
    method Child(done: seq<string>, segment: string, last: bool, ref: R) returns (child: TreeNode<R>)
      requires Valid()
      modifies this
      ensures Valid() && old(Repr) <= Repr && fresh(Repr - old(Repr))
      ensures var i := Find(old(Shows).children, segment);
              && i < |children| && child == children[i]
              && Shows == if i < |old(Shows).children| then old(Shows)
                          else old(Shows).(children := old(Shows).children + [NewNode(done, segment, last, ref)])
    {
      IndexFinds(segment);
      if segment in index {
        return index[segment];
      }
      child := new TreeNode(segment, PathOf(done + [segment]), if last then Some(ref) else None);
      Append(child);
    }

    method Append(child: TreeNode<R>)
      requires Valid() && child.Valid() && child.Repr !! Repr && child.name !in index
      requires child.Shows.name == child.name
      modifies this
      ensures Valid() && Repr == old(Repr) + child.Repr && children == old(children) + [child]
      ensures Shows == old(Shows).(children := old(Shows).children + [child.Shows])
    {
      IndexGrows(children, index, child);
      label Before:
      children := children + [child];
      index := index[child.name := child];
      Shows := Shows.(children := Shows.children + [child.Shows]);
      Repr := Repr + child.Repr;
      ShowsMore@Before(child);
      OwnsMore@Before(child);
    }

    /** What is shown after a child was added. */
    twostate lemma ShowsMore(child: TreeNode<R>)
      requires old(Valid()) && child.Shows.name == child.name
      requires unchanged(old(Repr) - {this})
      requires children == old(children) + [child]
      requires Shows == old(Shows).(children := old(Shows).children + [child.Shows])
      ensures Showing()
    {
      var n := |old(children)|;
      forall k | 0 <= k < n ensures ShowsChild(k) {
        assert old(ShowsChild(k) && Owns(k));
        assert children[k] == old(children[k]) && children[k] in old(Repr) - {this};
      }
      assert ShowsChild(n);
    }

    /** The parts of the heap after a child was added. */
    twostate lemma OwnsMore(child: TreeNode<R>)
      requires old(Valid() && child.Valid() && child.Repr !! Repr)
      requires unchanged(old(child.Repr)) && unchanged(old(Repr) - {this})
      requires children == old(children) + [child] && Repr == old(Repr) + child.Repr
      ensures forall k :: 0 <= k < |children| ==> children[k] in Repr
      ensures forall k :: 0 <= k < |children| ==> Owns(k) && children[k].Valid()
      ensures forall k, l :: 0 <= k < l < |children| ==> Apart(children[k], children[l])
    {
      var n := |old(children)|;
      StaysValid(child);
      forall k | 0 <= k < n ensures Owns(k) && children[k].Valid() && Apart(children[k], child) {
        assert old(Owns(k) && children[k].Valid());
        StaysValid(children[k]);
      }
      forall k, l | 0 <= k < l < |children| ensures Apart(children[k], children[l]) {
        assert l < n ==> old(Apart(children[k], children[l]));
      }
    }

    static lemma IndexGrows(children: seq<TreeNode<R>>, index: map<string, TreeNode<R>>, child: TreeNode<R>)
      requires IndexOf(index, children) && child.name !in index
      ensures IndexOf(index[child.name := child], children + [child])
    {
      var all, more := children + [child], index[child.name := child];
      assert all[|children|] == child;
      forall n | n in more ensures exists i :: 0 <= i < |all| && all[i] == more[n] && all[i].name == n {
        if n != child.name {
          var i :| 0 <= i < |children| && children[i] == index[n] && children[i].name == n;
          assert all[i] == more[n];
        }
      }
      forall i | 0 <= i < |children| ensures all[i].name in more && more[all[i].name] == all[i] {
        assert children[i].name in index;
      }
    }

    /** A subtree is as it was when nothing in its part of the heap has changed. */
    twostate lemma StaysValid(c: TreeNode<R>)
      requires old(c.Valid()) && unchanged(old(c.Repr))
      ensures c.Valid() && c.Repr == old(c.Repr) && c.Shows == old(c.Shows)
    {
    }

    lemma IndexFinds(segment: string)
      requires Valid()
      ensures var i := Find(Shows.children, segment);
              && (segment in index <==> i < |children|)
              && (segment in index ==> index[segment] == children[i])
    {
      var i := Find(Shows.children, segment);
      assert i < |children| ==> ShowsChild(i);
      if segment in index {
        var k :| 0 <= k < |children| && children[k] == index[segment] && children[k].name == segment;
        assert ShowsChild(k);
      }
    }

    /** The inner loop over the segments of one path, from the root down. */
    method Add(done: seq<string>, rest: seq<string>, ref: R)
      requires Valid()
      modifies Repr
      ensures Valid() && old(Repr) <= Repr && fresh(Repr - old(Repr))
      ensures Shows == Insert(old(Shows), done, rest, ref)
      decreases |rest|, 1
    {
      if rest == [] {
        return;
      }
      ghost var i := Find(Shows.children, rest[0]);
      var child := Child(done, rest[0], |rest| == 1, ref);
      assert ShowsChild(i);
      Descend(i, child, done + [rest[0]], rest[1..], ref);
    }

    /** Going on below child i. */
    method Descend(ghost i: nat, child: TreeNode<R>, done: seq<string>, rest: seq<string>, ref: R)
      requires Valid() && i < |children| && children[i] == child
      modifies Repr
      ensures Valid() && old(Repr) <= Repr && fresh(Repr - old(Repr))
      ensures i < |old(Shows).children|
      ensures Shows == old(Shows).(children := old(Shows).children[i := Insert(old(Shows).children[i], done, rest, ref)])
      decreases |rest|, 2
    {
      assert Owns(i) && ShowsChild(i);
      InsertKeepsHead(child.Shows, done, rest, ref);
      label Before:
      ghost var part := child.Repr;
      child.Add(done, rest, ref);
      forall k | 0 <= k < |children| && k != i ensures Settled(k, child.Repr) && ShowsChild(k) && !(children[k] == child) {
        assert old@Before(children[k].Valid() && Owns(k) && ShowsChild(k));
        assert old@Before(if k < i then Apart(children[k], children[i]) else Apart(children[i], children[k]));
        StaysValid@Before(children[k]);
      }
      assert Indexed() by {
        assert old@Before(Indexed());
      }
      forall k, l | 0 <= k < l < |children| ensures k != i && l != i ==> Apart(children[k], children[l]) {
        assert old@Before(Apart(children[k], children[l]) && Owns(k) && Owns(l));
      }
      Settle(i);
    }

    /** A child that was not touched while another part of the heap grew. */
    ghost predicate Settled(k: nat, grown: set<object>)
      requires k < |children|
      reads this, children[k], children[k].Repr
    {
      Owns(k) && children[k].Valid() && children[k].Repr !! grown
    }

    /** Taking over what child i has become. */
    ghost method Settle(i: nat)
      requires i < |children| && this in Repr && children[i] in Repr
      requires children[i].Valid() && this !in children[i].Repr && children[i] in children[i].Repr
      requires forall k :: 0 <= k < |children| && k != i ==>
                 children[k] in Repr && Settled(k, children[i].Repr) && ShowsChild(k)
      requires forall k, l :: 0 <= k < l < |children| ==> (k != i && l != i ==> Apart(children[k], children[l]))
      requires Indexed() && children[i].Shows.name == children[i].name
      requires Shows.name == name && Shows.path == path && Shows.file == file && |Shows.children| == |children|
      modifies `Repr, `Shows
      ensures Valid() && Repr == old(Repr) + children[i].Repr && children == old(children) && index == old(index)
      ensures Shows == old(Shows).(children := old(Shows).children[i := children[i].Shows])
    {
      label Before:
      Repr := Repr + children[i].Repr;
      Shows := Shows.(children := Shows.children[i := children[i].Shows]);
      forall k | 0 <= k < |children| ensures ShowsChild(k) {
        assert k != i ==> old@Before(ShowsChild(k));
      }
      OwnsStill@Before(i);
    }

    /** The parts of the heap after child i has grown. */
    twostate lemma OwnsStill(i: nat)
      requires children == old(children) && i < |children| && Repr == old(Repr) + old(children[i].Repr)
      requires this in Repr && children[i] in Repr && children[i] in old(children[i].Repr)
      requires unchanged(old(Repr) - {this}) && unchanged(old(children[i].Repr))
      requires old(children[i].Valid()) && this !in old(children[i].Repr)
      requires forall k :: 0 <= k < |children| && k != i ==> old(children[k] in Repr && Settled(k, children[i].Repr))
      requires forall k, l :: 0 <= k < l < |children| && k != i && l != i ==> old(Apart(children[k], children[l]))
      ensures forall k :: 0 <= k < |children| ==> children[k] in Repr
      ensures forall k :: 0 <= k < |children| ==> Owns(k) && children[k].Valid()
      ensures forall k, l :: 0 <= k < l < |children| ==> Apart(children[k], children[l])
    {
      StaysValid(children[i]);
      forall k | 0 <= k < |children| && k != i
        ensures children[k] in Repr && Owns(k) && children[k].Valid()
        ensures Apart(children[k], children[i]) && Apart(children[i], children[k])
      {
        assert old(children[k] in Repr && Settled(k, children[i].Repr));
        StaysValid(children[k]);
      }
      forall k, l | 0 <= k < l < |children| ensures Apart(children[k], children[l]) {
        assert k != i && l != i ==> old(Apart(children[k], children[l]));
      }
    }
  }

  /** The inputs with their paths split at the slashes. */
  function FilesOf<R>(inputs: seq<(string, R)>): (files: seq<File<R>>)
    ensures |files| == |inputs| && NoEmptyPaths(files)
  {
    seq(|inputs|, i requires 0 <= i < |inputs| => File(Split(inputs[i].0, '/'), inputs[i].1))
  }

  /** buildFileTree before sorting. */
  method BuildFileTree<R(==, !new)>(inputs: seq<(string, R)>) returns (root: TreeNode<R>)
    ensures root.Valid() && root.Shows == Build(FilesOf(inputs))
  {
    root := new TreeNode("", "", None);
    ghost var files := FilesOf(inputs);
    for i := 0 to |inputs|
      invariant root.Valid() && fresh(root.Repr) && root.Shows == Build(files[..i])
    {
      assert files[..i + 1][..i] == files[..i];
      root.Add([], Split(inputs[i].0, '/'), inputs[i].1);
    }
    assert files[..|files|] == files;
  }

  lemma {:induction false} NodeHasItsPath<R(!new)>(t: Tree<R>, done: seq<string>, path: seq<string>)
    requires WellFormed(t, done) && At(t, path).Some?
    ensures At(t, path).value.path == PathOf(done + path)
    decreases |path|
  {
    if path == [] {
      assert done + path == done;
    } else {
      var i := Find(t.children, path[0]);
      NodeHasItsPath(t.children[i], done + [path[0]], path[1..]);
      assert done + [path[0]] + path[1..] == done + path;
    }
  }

  /** A shown input has a node that carries the path as it was given. */
  lemma InputsKeepTheirPaths<R(!new)>(inputs: seq<(string, R)>, i: nat)
    requires i < |inputs| && PrefixFree(FilesOf(inputs))
    ensures var node := At(Build(FilesOf(inputs)), Split(inputs[i].0, '/'));
            node.Some? && node.value.path == inputs[i].0 && node.value.file == Some(inputs[i].1)
  {
    var files := FilesOf(inputs);
    var path := Split(inputs[i].0, '/');
    assert files[i] in files && files[i] == File(path, inputs[i].1);
    PrefixFreeShowsAll(files, path, inputs[i].1);
    BuildIsWellFormed(files);
    NodeHasItsPath(Build(files), [], path);
    assert [] + path == path;
    JoinAfterSplit(inputs[i].0, '/');
  }

  // ----- what a sorted tree looks like -----

  /** The first k children are directories and the others files, each part in the order of the names. */
  ghost predicate Divides<R>(before: (string, string) -> bool, children: seq<Tree<R>>, k: nat) {
    && k <= |children|
    && (forall i :: 0 <= i < |children| ==> (children[i].file.None? <==> i < k))
    && (forall i, j :: 0 <= i < j < k ==> before(children[i].name, children[j].name))
    && (forall i, j :: k <= i < j < |children| ==> before(children[i].name, children[j].name))
  }

  lemma {:induction false} OrderedDivides<R>(before: (string, string) -> bool, children: seq<Tree<R>>) returns (k: nat)
    requires Ordered(before, children)
    ensures Divides(before, children, k)
  {
    if children == [] {
      k := 0;
    } else {
      var n := |children| - 1;
      k := OrderedDivides(before, children[..n]);
      assert forall i :: 0 <= i < n ==> children[..n][i] == children[i];
      if children[n].file.None? {
        assert forall i :: 0 <= i < n ==> Precedes(before, children[i], children[n]);
        k := n + 1;
      }
    }
  }

  /** In a sorted tree every node lists its directories first and then its files, both by name. */
  lemma {:induction false} DirectoriesFirst<R>(before: (string, string) -> bool, t: Tree<R>)
    requires SortedTree(before, t)
    ensures exists k :: Divides(before, t.children, k)
    ensures forall i :: 0 <= i < |t.children| ==> SortedTree(before, t.children[i])
  {
    var k := OrderedDivides(before, t.children);
  }
}
