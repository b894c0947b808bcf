/** The text helpers that the Go services share: trimming of white space. */
module Text {
  /** unicode.IsSpace. */
  predicate IsSpace(c: char) {
    || '\t' <= c <= '\r' || c == ' ' || c == '\U{0085}' || c == '\U{00A0}' || c == '\U{1680}'
    || '\U{2000}' <= c <= '\U{200A}' || c == '\U{2028}' || c == '\U{2029}' || c == '\U{202F}'
    || c == '\U{205F}' || c == '\U{3000}'
  }

  function TrimLeft(s: string): string {
    if s != "" && IsSpace(s[0]) then TrimLeft(s[1..]) else s
  }

  function TrimRight(s: string): string {
    if s != "" && IsSpace(s[|s| - 1]) then TrimRight(s[..|s| - 1]) else s
  }

  /** strings.TrimSpace. */
  function Trim(s: string): string {
    TrimRight(TrimLeft(s))
  }

  predicate Blank(s: string) {
    forall i :: 0 <= i < |s| ==> IsSpace(s[i])
  }

  /** A text is blank exactly when nothing is left of it after trimming. */
  lemma BlankIsTrimmedAway(s: string)
    ensures Blank(s) <==> Trim(s) == ""
  {
    TrimLeftBlank(s);
    TrimLeftStarts(s);
    TrimRightEmpty(TrimLeft(s));
  }

  lemma {:induction false} TrimLeftBlank(s: string)
    ensures TrimLeft(s) == "" <==> Blank(s)
  {
    if s != "" && IsSpace(s[0]) {
      TrimLeftBlank(s[1..]);
      assert forall i :: 0 < i < |s| ==> s[i] == s[1..][i - 1];
    }
  }

  lemma {:induction false} TrimRightEmpty(s: string)
    ensures s != "" && !IsSpace(s[0]) ==> TrimRight(s) != ""
  {
    if s != "" && IsSpace(s[|s| - 1]) {
      TrimRightEmpty(s[..|s| - 1]);
    }
  }

  lemma {:induction false} TrimLeftStarts(s: string)
    ensures TrimLeft(s) != "" ==> !IsSpace(TrimLeft(s)[0])
  {
    if s != "" && IsSpace(s[0]) {
      TrimLeftStarts(s[1..]);
    }
  }

  lemma {:induction false} TrimRightEnds(s: string)
    ensures TrimRight(s) <= s
    ensures TrimRight(s) != "" ==> !IsSpace(TrimRight(s)[|TrimRight(s)| - 1])
  {
    if s != "" && IsSpace(s[|s| - 1]) {
      TrimRightEnds(s[..|s| - 1]);
    }
  }

  /** A trimmed text has no white space left at either end. */
  lemma TrimIdempotent(s: string)
    ensures Trim(Trim(s)) == Trim(s)
  {
    TrimLeftStarts(s);
    TrimRightEnds(TrimLeft(s));
  }

  lemma {:induction false} TrimLeftSplits(s: string) returns (before: string)
    ensures s == before + TrimLeft(s) && Blank(before)
  {
    if s != "" && IsSpace(s[0]) {
      var rest := TrimLeftSplits(s[1..]);
      before := [s[0]] + rest;
      assert s == [s[0]] + s[1..];
    } else {
      before := "";
    }
  }

  lemma {:induction false} TrimRightSplits(s: string) returns (after: string)
    ensures s == TrimRight(s) + after && Blank(after)
  {
    if s != "" && IsSpace(s[|s| - 1]) {
      var rest := TrimRightSplits(s[..|s| - 1]);
      after := rest + [s[|s| - 1]];
      assert s == s[..|s| - 1] + [s[|s| - 1]];
    } else {
      after := "";
    }
  }

  /** Trimming takes away white space at both ends, all of it and nothing else. */
  lemma TrimTakesSpaces(s: string) returns (before: string, after: string)
    ensures s == before + Trim(s) + after && Blank(before) && Blank(after)
    ensures Trim(s) != "" ==> !IsSpace(Trim(s)[0]) && !IsSpace(Trim(s)[|Trim(s)| - 1])
  {
    before := TrimLeftSplits(s);
    after := TrimRightSplits(TrimLeft(s));
    TrimLeftStarts(s);
    TrimRightEnds(TrimLeft(s));
  }
}
