/**
 The explanation told by the fields of the two runs: which difference raises which flag, which
 condition makes it unavailable, and what the excerpt and the counts show.
 */
module OutputCauses {
  import opened Prelude
  import opened OutputChange

  /** Equal as far as the explanation looks: an absent text and an empty one are the same. */
  predicate Alike(x: Option<string>, y: Option<string>) {
    x == y || (x in {None, Some("")} && y in {None, Some("")})
  }

  /** The settings of the trust case agree. */
  predicate SameTrustCase(a: Run, b: Run) {
    Alike(a.trustCaseId, b.trustCaseId) && Alike(a.configurationDigest, b.configurationDigest)
  }

  predicate SameRuntime(a: Run, b: Run) {
    && Alike(a.environmentProfileId, b.environmentProfileId) && Alike(a.fixtureId, b.fixtureId)
    && Alike(a.referenceMode, b.referenceMode)
  }

  predicate SameManualEdits(a: Run, b: Run) {
    a.manualEditsCarriedOver == b.manualEditsCarriedOver && a.manualDriftRegionCount == b.manualDriftRegionCount
  }

  predicate SameRepair(a: Run, b: Run)
    requires a.trustSummary.Some? && b.trustSummary.Some?
  {
    Alike(a.trustSummary.value.repairDecision, b.trustSummary.value.repairDecision)
  }

  predicate SameCauses(a: Run, b: Run)
    requires a.trustSummary.Some? && b.trustSummary.Some?
  {
    && Alike(a.sourceHash, b.sourceHash) && SameTrustCase(a, b) && SameRuntime(a, b)
    && Alike(a.policyVersion, b.policyVersion) && SameManualEdits(a, b) && SameRepair(a, b)
  }

  /** Which flag is raised by which difference. A runtime change is one with the same trust case, and a
      refreshed artifact one with nothing else changed. */
  lemma {:induction false} FlagsMean(a: Run, b: Run)
    requires a.trustSummary.Some? && b.trustSummary.Some?
    ensures var f := FlagsOf(a, b);
            && (f.cobol <==> !Alike(a.sourceHash, b.sourceHash))
            && (f.trustCase <==> !SameTrustCase(a, b))
            && (f.runtime <==> SameTrustCase(a, b) && !SameRuntime(a, b))
            && (f.normalization <==> !Alike(a.policyVersion, b.policyVersion))
            && (f.manual <==> !SameManualEdits(a, b))
            && (f.repair <==> !SameRepair(a, b))
            && (f.refresh <==> SameCauses(a, b) && !Alike(a.generatedArtifact, b.generatedArtifact))
    ensures Holds(CauseNotDeterminable, a, b) <==>
              SameCauses(a, b) && Alike(a.generatedArtifact, b.generatedArtifact)
  {
  }

  /** The entries of an explanation carry these flags, in the order of the causes. */
  lemma EntriesCarryFlags(entries: seq<Entry>, a: Run, b: Run)
    requires a.trustSummary.Some? && b.trustSummary.Some? && ListsCauses(entries, a, b)
    ensures var f := FlagsOf(a, b);
            && entries[0] == Entry(CobolEdit, f.cobol)
            && entries[1] == Entry(TrustCaseChange, f.trustCase)
            && entries[2] == Entry(RuntimeConfigurationChange, f.runtime)
            && entries[3] == Entry(NormalizationRuleChange, f.normalization)
            && entries[4] == Entry(ManualJavaEdit, f.manual)
            && entries[5] == Entry(RepairPatch, f.repair)
            && entries[6] == Entry(GeneratedJavaRefresh, f.refresh)
  {
    assert entries[0].category == CAUSES[0] && entries[1].category == CAUSES[1] && entries[2].category == CAUSES[2];
    assert entries[3].category == CAUSES[3] && entries[4].category == CAUSES[4] && entries[5].category == CAUSES[5];
    assert entries[6].category == CAUSES[6];
  }

  /** The number of causes that hold decides the determination: one, several or none. */
  function CountOf(f: Flags): nat {
    (if f.cobol then 1 else 0) + (if f.trustCase then 1 else 0) + (if f.runtime then 1 else 0) +
    (if f.normalization then 1 else 0) + (if f.manual then 1 else 0) + (if f.repair then 1 else 0) +
    (if f.refresh then 1 else 0)
  }

  lemma DeterminationCounts(a: Run, b: Run)
    requires a.trustSummary.Some? && b.trustSummary.Some?
    ensures var n := CountOf(FlagsOf(a, b));
            DeterminationOf(Changed(a, b)) ==
            if n == 0 then NotDeterminable else if n == 1 then SingleChange else MultipleChanges
  {
    assert |Changed(a, b)| == CountOf(FlagsOf(a, b));
  }

  // ----- why there is no explanation -----

  /** The order in which the reasons are tried. */
  function Place(reason: Reason): nat {
    match reason
    case PreviousRunMissing => 0
    case SameRunNotAllowed => 1
    case RunNotCompleted => 2
    case NonParityRun => 3
    case MissingTrustSummary => 4
    case MissingObservedOutput => 5
    case MissingNormalizedOutput => 6
    case EvidenceIncomplete => 7
  }

  /** Something that each of two runs must meet. */
  predicate Both(current: bool, previous: bool) {
    current && previous
  }

  predicate Prevents(reason: Reason, current: Run, previous: Run) {
    match reason
    case PreviousRunMissing => |previous.runId| == 0
    case SameRunNotAllowed => current.runId == previous.runId
    case RunNotCompleted => !Both(current.status == "completed", previous.status == "completed")
    case NonParityRun => !Both(current.executionMode == Some("parity"), previous.executionMode == Some("parity"))
    case MissingTrustSummary => !Both(current.trustSummary.Some?, previous.trustSummary.Some?)
    case MissingObservedOutput => !Both(current.actualOutput.Some?, previous.actualOutput.Some?)
    case MissingNormalizedOutput =>
      !Both(current.trustSummary.Some? && current.trustSummary.value.javaNormalized.Some?,
            previous.trustSummary.Some? && previous.trustSummary.value.javaNormalized.Some?)
    case EvidenceIncomplete => current.evidenceStatus == Some("incomplete") || previous.evidenceStatus == Some("incomplete")
  }

  /** The reported reason is the first that applies, and an explanation is available when none does. */
  lemma {:induction false} ReasonIsFirst(current: Run, previous: Run, other: Reason)
    ensures var why := WhyUnavailable(current, previous);
            && (why.None? ==> !Prevents(other, current, previous))
            && (why.Some? ==> Prevents(why.value, current, previous))
            && (why.Some? && Place(other) < Place(why.value) ==> !Prevents(other, current, previous))
  {
  }

  // ----- what the excerpt and the counts show -----

  /** The texts of the lines of one kind. */
  function OfKind(lines: seq<DeltaLine>, kind: LineKind): seq<string> {
    if lines == [] then []
    else
      var last := lines[|lines| - 1];
      OfKind(lines[..|lines| - 1], kind) + (if last.kind == kind then [last.content] else [])
  }

  lemma {:induction false} OfKindConcat(a: seq<DeltaLine>, b: seq<DeltaLine>, kind: LineKind)
    ensures OfKind(a + b, kind) == OfKind(a, kind) + OfKind(b, kind)
  {
    if b == [] {
      assert a + b == a;
    } else {
      var init, last := b[..|b| - 1], b[|b| - 1];
      OfKindConcat(a, init, kind);
      assert (a + b)[..|a + b| - 1] == a + init && (a + b)[|a + b| - 1] == last;
    }
  }

  lemma {:induction false} OfKindMarked(lines: seq<string>, mark: LineKind, kind: LineKind)
    ensures OfKind(Marked(mark, lines), kind) == if mark == kind then lines else []
  {
    if lines != [] {
      var init := lines[..|lines| - 1];
      OfKindMarked(init, mark, kind);
      assert Marked(mark, lines)[..|lines| - 1] == Marked(mark, init);
      assert lines == init + [lines[|lines| - 1]];
    }
  }

  lemma UpToFourIs(lines: seq<string>)
    ensures UpToFour(lines) == lines[..Min(|lines|, 4)]
  {
  }

  /** The unchanged lines next to a change. */
  function LineBefore(lines: seq<string>, start: nat): seq<string>
    requires start <= |lines|
  {
    if start > 0 then [lines[start - 1]] else []
  }

  function LineAfter(lines: seq<string>, tail: nat): seq<string>
    requires tail <= |lines|
  {
    if tail > 0 then [lines[|lines| - tail]] else []
  }

  lemma {:induction false} ExcerptParts(previous: seq<string>, current: seq<string>, start: nat, tail: nat)
    requires IsCut(previous, current, start, tail)
    ensures Excerpt(previous, current, start, tail) ==
            Marked(Context, LineBefore(previous, start)) +
            Marked(Removed, UpToFour(previous[start..|previous| - tail])) +
            Marked(Added, UpToFour(current[start..|current| - tail])) +
            Marked(Context, LineAfter(previous, tail))
  {
    assert Marked(Context, LineBefore(previous, start)) ==
           if start > 0 then [DeltaLine(Context, previous[start - 1])] else [];
    assert Marked(Context, LineAfter(previous, tail)) ==
           if tail > 0 then [DeltaLine(Context, previous[|previous| - tail])] else [];
  }

  /** The excerpt shows the first lines of what was removed and of what was added, at most four of each,
      and around them the unchanged lines next to the change, which both outputs have. */
  lemma {:induction false} ExcerptShows(
    previous: seq<string>, current: seq<string>, start: nat, tail: nat, r: seq<string>, a: seq<string>)
    requires IsCut(previous, current, start, tail)
    requires r == previous[start..|previous| - tail] && a == current[start..|current| - tail]
    ensures var lines := Excerpt(previous, current, start, tail);
            && OfKind(lines, Removed) == r[..Min(|r|, 4)]
            && OfKind(lines, Added) == a[..Min(|a|, 4)]
            && OfKind(lines, Context) == LineBefore(previous, start) + LineAfter(previous, tail)
    ensures LineBefore(previous, start) == LineBefore(current, start)
    ensures LineAfter(previous, tail) == LineAfter(current, tail)
  {
    SwapKeepsCut(previous, current, start, tail);
    ExcerptParts(previous, current, start, tail);
    PartsShow(LineBefore(previous, start), UpToFour(r), UpToFour(a), LineAfter(previous, tail));
    UpToFourIs(r);
    UpToFourIs(a);
  }

  lemma ConcatFour(a: seq<DeltaLine>, b: seq<DeltaLine>, c: seq<DeltaLine>, d: seq<DeltaLine>, kind: LineKind)
    ensures OfKind(a + b + c + d, kind) == OfKind(a, kind) + OfKind(b, kind) + OfKind(c, kind) + OfKind(d, kind)
  {
    OfKindConcat(a, b, kind);
    OfKindConcat(a + b, c, kind);
    OfKindConcat(a + b + c, d, kind);
  }

  lemma OneOfFour(x: seq<string>)
    ensures [] + x + [] + [] == x && [] + [] + x + [] == x
  {
  }

  lemma TwoOfFour(x: seq<string>, y: seq<string>)
    ensures x + [] + [] + y == x + y
  {
  }

  lemma {:induction false} PartsShow(before: seq<string>, r: seq<string>, a: seq<string>, after: seq<string>)
    ensures var lines := Marked(Context, before) + Marked(Removed, r) + Marked(Added, a) + Marked(Context, after);
            OfKind(lines, Removed) == r && OfKind(lines, Added) == a && OfKind(lines, Context) == before + after
  {
    forall kind: LineKind
      ensures OfKind(Marked(Context, before) + Marked(Removed, r) + Marked(Added, a) + Marked(Context, after), kind) ==
              (if kind == Context then before else []) + (if kind == Removed then r else []) +
              (if kind == Added then a else []) + (if kind == Context then after else [])
    {
      ConcatFour(Marked(Context, before), Marked(Removed, r), Marked(Added, a), Marked(Context, after), kind);
      OfKindMarked(before, Context, kind);
      OfKindMarked(r, Removed, kind);
      OfKindMarked(a, Added, kind);
      OfKindMarked(after, Context, kind);
    }
    OneOfFour(r);
    OneOfFour(a);
    TwoOfFour(before, after);
  }

  /** A line of the previous output that the current one does not have at its place. */
  predicate IsReplaced(previous: seq<string>, current: seq<string>, i: nat) {
    i < |previous| && (i >= |current| || previous[i] != current[i])
  }

  /** The places of such lines. */
  function Replaced(previous: seq<string>, current: seq<string>, n: nat): set<nat> {
    set i: nat | i < n && IsReplaced(previous, current, i)
  }

  lemma ReplacedMore(previous: seq<string>, current: seq<string>, n: nat)
    ensures |Replaced(previous, current, n + 1)| ==
            |Replaced(previous, current, n)| + if IsReplaced(previous, current, n) then 1 else 0
  {
    var before := Replaced(previous, current, n);
    assert Replaced(previous, current, n + 1) == if IsReplaced(previous, current, n) then before + {n} else before;
    assert n !in before;
  }

  lemma {:induction false} ReplacedCount(previous: seq<string>, current: seq<string>, n: nat)
    ensures RemovedUpTo(previous, current, n) == |Replaced(previous, current, n)|
  {
    if n > 0 {
      ReplacedCount(previous, current, n - 1);
      ReplacedMore(previous, current, n - 1);
    } else {
      assert Replaced(previous, current, 0) == {};
    }
  }

  /** The count of removed lines is the number of these places; added lines are those of the exchange. */
  lemma RemovedCountIs(previous: seq<string>, current: seq<string>)
    ensures RemovedCount(previous, current) == |Replaced(previous, current, |previous|)|
  {
    var n := MaxLength(previous, current);
    ReplacedCount(previous, current, n);
    assert Replaced(previous, current, n) == Replaced(previous, current, |previous|);
  }

  // ----- lines -----

  lemma NormalizePair(s: string)
    ensures Normalize("\r\n" + s) == ['\n'] + Normalize(s)
  {
    assert ("\r\n" + s)[2..] == s;
  }

  predicate StartsWithPair(s: string) {
    |s| >= 2 && s[0] == '\r' && s[1] == '\n'
  }

  lemma {:induction false} NormalizeHead(s: string)
    requires s != ""
    ensures Normalize(s) == if StartsWithPair(s) then ['\n'] + Normalize(s[2..]) else [s[0]] + Normalize(s[1..])
  {
  }

  lemma TailOfConcat(u: string, w: string, k: nat)
    requires k <= |u|
    ensures (u + w)[k..] == u[k..] + w
  {
  }

  lemma {:induction false} NormalizeConcat(u: string, w: string)
    requires w != "" && w[0] != '\n'
    ensures Normalize(u + w) == Normalize(u) + Normalize(w)
  {
    if u == "" {
      assert u + w == w && Normalize(u) == "";
    } else {
      var k: nat := if StartsWithPair(u) then 2 else 1;
      var head := if StartsWithPair(u) then ['\n'] else [u[0]];
      NormalizeHead(u);
      NormalizeHead(u + w);
      assert StartsWithPair(u + w) == StartsWithPair(u) && (u + w)[0] == u[0];
      TailOfConcat(u, w, k);
      NormalizeConcat(u[k..], w);
      ConcatAssociative(head, Normalize(u[k..]), Normalize(w));
    }
  }

  /** Each CR LF becomes one LF, wherever it stands. */
  lemma LineEndingsAreReplaced(u: string, v: string)
    ensures Normalize(u + ("\r\n" + v)) == Normalize(u) + (['\n'] + Normalize(v))
  {
    NormalizeConcat(u, "\r\n" + v);
    NormalizePair(v);
  }

  predicate IsLineEnding(s: string, i: int) {
    0 <= i < |s| - 1 && s[i] == '\r' && s[i + 1] == '\n'
  }

  /** Everything else is kept. */
  lemma {:induction false} OtherTextIsKept(s: string)
    requires forall i :: !IsLineEnding(s, i)
    ensures Normalize(s) == s
  {
    if |s| >= 2 {
      forall i ensures !IsLineEnding(s[1..], i) {
        assert !IsLineEnding(s, i + 1);
      }
      assert !IsLineEnding(s, 0);
      OtherTextIsKept(s[1..]);
    }
  }

  /** Lines hold no separator. */
  lemma {:induction false} LinesHoldNoSeparator(s: string, sep: char)
    ensures forall i :: 0 <= i < |Split(s, sep)| ==> sep !in Split(s, sep)[i]
  {
    if s != "" {
      LinesHoldNoSeparator(s[1..], sep);
    }
  }
}
