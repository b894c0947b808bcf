/** Small datatypes, NUL-joined keys and the order of events, shared by the components. */
module Prelude {
  datatype Option<+T> = None | Some(value: T)

  const NUL: string := "\0"

  predicate NulFree(s: string) {
    '\0' !in s
  }

  /** Two texts joined by a NUL character. */
  function Join(a: string, b: string): string {
    a + NUL + b
  }

  /** When neither head contains the separator, the joined text determines both parts. */
  lemma JoinInjective(a: string, b: string, c: string, d: string)
    requires NulFree(a) && NulFree(c)
    requires Join(a, b) == Join(c, d)
    ensures a == c && b == d
  {
    var s, t := Join(a, b), Join(c, d);
    forall i | 0 <= i < |a| ensures s[i] != '\0' {
      assert s[i] == a[i] && a[i] in a;
    }
    forall i | 0 <= i < |c| ensures t[i] != '\0' {
      assert t[i] == c[i] && c[i] in c;
    }
    assert s[|a|] == '\0' && t[|c|] == '\0';
    assert |a| == |c|;
    JoinSameLength(a, b, c, d);
  }

  /** When the heads have equal lengths, the joined text determines both parts. */
  lemma JoinSameLength(a: string, b: string, c: string, d: string)
    requires |a| == |c|
    requires Join(a, b) == Join(c, d)
    ensures a == c && b == d
  {
    var s, t := Join(a, b), Join(c, d);
    assert a == s[..|a|] && c == t[..|a|];
    assert b == s[|a| + 1..] && d == t[|a| + 1..];
  }

  lemma SplitLast<T>(s: seq<T>)
    requires s != []
    ensures s == s[..|s| - 1] + [s[|s| - 1]]
  {
  }

  lemma ConcatAssociative<T>(a: seq<T>, b: seq<T>, c: seq<T>)
    ensures (a + b) + c == a + (b + c)
  {
  }

  /** Splits at a separator: one more piece than there are separators. */
  function Split(s: string, sep: char): (pieces: seq<string>)
    ensures pieces != []
  {
    if s == "" then [""]
    else
      var rest := Split(s[1..], sep);
      if s[0] == sep then [""] + rest else [[s[0]] + rest[0]] + rest[1..]
  }

  function JoinAll(pieces: seq<string>, sep: char): string
    requires pieces != []
  {
    if |pieces| == 1 then pieces[0] else pieces[0] + [sep] + JoinAll(pieces[1..], sep)
  }

  lemma {:induction false} JoinAfterSplit(s: string, sep: char)
    ensures JoinAll(Split(s, sep), sep) == s
  {
    if s != "" {
      var rest := Split(s[1..], sep);
      JoinAfterSplit(s[1..], sep);
      assert s == [s[0]] + s[1..];
      if s[0] == sep {
        assert ([""] + rest)[1..] == rest;
        assert "" + [sep] + s[1..] == s;
      } else {
        var pieces := [[s[0]] + rest[0]] + rest[1..];
        assert pieces[1..] == rest[1..];
      }
    }
  }

  /** Membership in a fixed list of names, by search. */
  predicate Among(s: string, names: seq<string>) {
    names != [] && (s == names[0] || Among(s, names[1..]))
  }

  function Max(a: int, b: int): int {
    if a >= b then a else b
  }

  /** The data classes of events, ledgers and model requests. */
  const DATA_CLASSES: seq<string> :=
    ["model", "evidence", "rag", "graph", "parser", "generator", "build-test", "test", "model-gateway", "other"]

  predicate IsHexDigit(c: char) {
    '0' <= c <= '9' || 'a' <= c <= 'f' || 'A' <= c <= 'F'
  }

  predicate IsSha256(s: string) {
    |s| == 64 && forall i :: 0 <= i < |s| ==> IsHexDigit(s[i])
  }

  // ----- the order of events -----

  /** Time.Before, where the zero time comes first. */
  predicate Before(a: Option<int>, b: Option<int>) {
    if a.None? then b.Some? else b.Some? && a.value < b.value
  }

  /** Events are sorted by creation time and then by step. */
  predicate StampLess(s: Option<int>, m: int, t: Option<int>, n: int) {
    if s == t then m < n else Before(s, t)
  }

  /** The first stands before the second: no known instant comes before every known one, and events of one
      instant are told apart by their steps. */
  predicate StampInOrder(s: Option<int>, m: int, t: Option<int>, n: int) {
    match s
    case None => t.Some? || m <= n
    case Some(at) => t.Some? && (at < t.value || (at == t.value && m <= n))
  }
}
