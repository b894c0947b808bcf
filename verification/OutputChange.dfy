/**
 The explanation of an output change between two runs: the line excerpt, the line counts, and the
 categories of causes, with what happens when the two runs are exchanged.
 */
module OutputChange {
  import opened Prelude

  // ----- lines -----

  /** Replaces every CR LF by LF. */
  function Normalize(s: string): string {
    if |s| < 2 then s
    else if s[0] == '\r' && s[1] == '\n' then ['\n'] + Normalize(s[2..])
    else [s[0]] + Normalize(s[1..])
  }

  /** sourceLines: an absent or empty output has no lines. */
  function SourceLines(output: Option<string>): seq<string> {
    if output.None? || output.value == "" then [] else Split(Normalize(output.value), '\n')
  }

  function TextOf(output: Option<string>): string {
    if output.None? then "" else output.value
  }

  lemma {:induction false} NormalizeKeepsEmptiness(s: string)
    ensures Normalize(s) == "" <==> s == ""
  {
  }

  /** Two outputs have the same lines exactly when they are the same text up to line endings. */
  lemma SameLinesIffSameText(a: Option<string>, b: Option<string>)
    ensures SourceLines(a) == SourceLines(b) <==> Normalize(TextOf(a)) == Normalize(TextOf(b))
  {
    NormalizeKeepsEmptiness(TextOf(a));
    NormalizeKeepsEmptiness(TextOf(b));
    JoinAfterSplit(Normalize(TextOf(a)), '\n');
    JoinAfterSplit(Normalize(TextOf(b)), '\n');
  }

  // ----- the excerpt -----

  datatype LineKind = Context | Added | Removed

  datatype DeltaLine = DeltaLine(kind: LineKind, content: string)

  /** The two texts agree on the first `start` and the last `tail` lines, and no further. */
  ghost predicate IsCut(previous: seq<string>, current: seq<string>, start: nat, tail: nat) {
    && start + tail <= |previous| && start + tail <= |current|
    && previous[..start] == current[..start]
    && previous[|previous| - tail..] == current[|current| - tail..]
    && (start < |previous| && start < |current| ==> previous[start] != current[start])
    && (start + tail < |previous| && start + tail < |current| ==>
          previous[|previous| - tail - 1] != current[|current| - tail - 1])
  }

  /** The scan of buildExcerpt: start and the two inclusive ends. */
  method FindCut(previous: seq<string>, current: seq<string>)
    returns (start: nat, endPrevious: int, endCurrent: int)
    ensures start - 1 <= endPrevious < |previous| && start - 1 <= endCurrent < |current|
    ensures |previous| - endPrevious == |current| - endCurrent
    ensures IsCut(previous, current, start, |previous| - 1 - endPrevious)
  {
    start := 0;
    while start < |previous| && start < |current| && previous[start] == current[start]
      invariant start <= |previous| && start <= |current| && previous[..start] == current[..start]
    {
      start := start + 1;
    }
    endPrevious, endCurrent := |previous| - 1, |current| - 1;
    while endPrevious >= start && endCurrent >= start && previous[endPrevious] == current[endCurrent]
      invariant start - 1 <= endPrevious < |previous| && start - 1 <= endCurrent < |current|
      invariant |previous| - endPrevious == |current| - endCurrent
      invariant previous[endPrevious + 1..] == current[endCurrent + 1..]
    {
      assert previous[endPrevious..] == [previous[endPrevious]] + previous[endPrevious + 1..];
      assert current[endCurrent..] == [current[endCurrent]] + current[endCurrent + 1..];
      endPrevious, endCurrent := endPrevious - 1, endCurrent - 1;
    }
  }

  function UpToFour(lines: seq<string>): seq<string> {
    if |lines| <= 4 then lines else lines[..4]
  }

  function Marked(kind: LineKind, lines: seq<string>): seq<DeltaLine> {
    seq(|lines|, i requires 0 <= i < |lines| => DeltaLine(kind, lines[i]))
  }

  /** What the excerpt shows of a cut: one line of context on either side of the first four removed and
      the first four added lines. */
  ghost function Excerpt(previous: seq<string>, current: seq<string>, start: nat, tail: nat): seq<DeltaLine>
    requires IsCut(previous, current, start, tail)
  {
    (if start > 0 then [DeltaLine(Context, previous[start - 1])] else []) +
    Marked(Removed, UpToFour(previous[start..|previous| - tail])) +
    Marked(Added, UpToFour(current[start..|current| - tail])) +
    (if tail > 0 then [DeltaLine(Context, previous[|previous| - tail])] else [])
  }

  ghost predicate IsExcerpt(previous: seq<string>, current: seq<string>, lines: seq<DeltaLine>) {
    exists start: nat, tail: nat ::
      IsCut(previous, current, start, tail) && lines == Excerpt(previous, current, start, tail)
  }

  /** buildExcerpt. */
  method BuildExcerpt(previous: seq<string>, current: seq<string>) returns (lines: seq<DeltaLine>)
    ensures IsExcerpt(previous, current, lines)
  {
    var first, endPrevious, endCurrent := FindCut(previous, current);
    ghost var start: nat, tail: nat := first, |previous| - 1 - endPrevious;
    var prefix, suffix := [], [];
    if first > 0 {
      prefix := [DeltaLine(Context, previous[first - 1])];
    }
    var middle, replacement := previous[first..endPrevious + 1], current[first..endCurrent + 1];
    assert middle == previous[start..|previous| - tail] && replacement == current[start..|current| - tail];
    var removed := Marked(Removed, UpToFour(middle));
    var added := Marked(Added, UpToFour(replacement));
    if endPrevious + 1 < |previous| {
      suffix := [DeltaLine(Context, previous[endPrevious + 1])];
    }
    lines := prefix + removed + added + suffix;
    assert lines == Excerpt(previous, current, start, tail);
  }

  /** A cut splits previous = P + R + S and current = P + A + S, where R and A differ at both ends when
      neither is empty. */
  lemma CutSplits(previous: seq<string>, current: seq<string>, start: nat, tail: nat)
    requires IsCut(previous, current, start, tail)
    ensures var p, s := previous[..start], previous[|previous| - tail..];
            var r, a := previous[start..|previous| - tail], current[start..|current| - tail];
            && previous == p + r + s && current == p + a + s
            && (r != [] && a != [] ==> r[0] != a[0] && r[|r| - 1] != a[|a| - 1])
            && |a| - |r| == |current| - |previous|
  {
    ThreeParts(previous, start, |previous| - tail);
    ThreeParts(current, start, |current| - tail);
  }

  lemma ThreeParts(lines: seq<string>, i: nat, j: nat)
    requires i <= j <= |lines|
    ensures lines == lines[..i] + lines[i..j] + lines[j..]
  {
  }

  /** There is only one cut, so the scan finds the longest prefix and then the longest suffix. */
  lemma CutIsUnique(previous: seq<string>, current: seq<string>, start: nat, tail: nat, start': nat, tail': nat)
    requires IsCut(previous, current, start, tail) && IsCut(previous, current, start', tail')
    ensures start == start' && tail == tail'
  {
    PrefixesAgree(previous, current, start, tail, start', tail');
    PrefixesAgree(previous, current, start', tail', start, tail);
    SuffixesAgree(previous, current, start, tail, tail');
    SuffixesAgree(previous, current, start, tail', tail);
  }

  lemma PrefixesAgree(previous: seq<string>, current: seq<string>, start: nat, tail: nat, start': nat, tail': nat)
    requires IsCut(previous, current, start, tail) && IsCut(previous, current, start', tail')
    ensures start' <= start
  {
    EqualPrefix(previous, current, start');
  }

  lemma EqualPrefix(a: seq<string>, b: seq<string>, n: nat)
    requires n <= |a| && n <= |b| && a[..n] == b[..n]
    ensures forall i :: 0 <= i < n ==> a[i] == b[i]
  {
    assert forall i :: 0 <= i < n ==> a[i] == a[..n][i] && b[i] == b[..n][i];
  }

  lemma SuffixesAgree(previous: seq<string>, current: seq<string>, start: nat, tail: nat, tail': nat)
    requires IsCut(previous, current, start, tail) && IsCut(previous, current, start, tail')
    ensures tail' <= tail
  {
    EqualSuffix(previous, current, tail', tail);
  }

  /** Texts with equal ends of length n agree at each place of those ends. */
  lemma EqualSuffix(a: seq<string>, b: seq<string>, n: nat, i: nat)
    requires n <= |a| && n <= |b| && a[|a| - n..] == b[|b| - n..]
    ensures i < n ==> a[|a| - i - 1] == b[|b| - i - 1]
  {
    if i < n {
      assert a[|a| - n..][n - i - 1] == b[|b| - n..][n - i - 1];
    }
  }

  /** Exchanging the runs keeps the cut, and with it the context; removed and added change places. */
  lemma SwapKeepsCut(previous: seq<string>, current: seq<string>, start: nat, tail: nat)
    requires IsCut(previous, current, start, tail)
    ensures IsCut(current, previous, start, tail)
    ensures start > 0 ==> previous[start - 1] == current[start - 1]
    ensures tail > 0 ==> previous[|previous| - tail] == current[|current| - tail]
  {
    assert start > 0 ==> previous[..start][start - 1] == current[..start][start - 1];
    assert tail > 0 ==> previous[|previous| - tail..][0] == current[|current| - tail..][0];
  }

  // ----- the line counts -----

  /** Line by line: a line that is missing on one side counts only on the other. */
  function RemovedUpTo(previous: seq<string>, current: seq<string>, n: nat): nat {
    if n == 0 then 0
    else RemovedUpTo(previous, current, n - 1) + (if Differs(previous, current, n - 1) && n <= |previous| then 1 else 0)
  }

  predicate Differs(previous: seq<string>, current: seq<string>, i: nat) {
    if i < |previous| && i < |current| then previous[i] != current[i] else i < |previous| || i < |current|
  }

  function MaxLength(a: seq<string>, b: seq<string>): nat {
    if |a| >= |b| then |a| else |b|
  }

  datatype Delta = Delta(changed: bool, added: nat, removed: nat, excerpt: seq<DeltaLine>)

  /** The lines are counted as removed here and as added when the runs are exchanged. */
  function RemovedCount(previous: seq<string>, current: seq<string>): nat {
    RemovedUpTo(previous, current, MaxLength(previous, current))
  }

  /** buildOutputDelta. */
  method BuildDelta(currentOutput: Option<string>, previousOutput: Option<string>) returns (d: Delta)
    ensures d.changed <==> TextOf(currentOutput) != TextOf(previousOutput)
    ensures d.removed == RemovedCount(SourceLines(previousOutput), SourceLines(currentOutput))
    ensures d.added == RemovedCount(SourceLines(currentOutput), SourceLines(previousOutput))
    ensures IsExcerpt(SourceLines(previousOutput), SourceLines(currentOutput), d.excerpt)
  {
    var previous, current := SourceLines(previousOutput), SourceLines(currentOutput);
    var added, removed := CountLines(previous, current);
    var excerpt := BuildExcerpt(previous, current);
    d := Delta(TextOf(currentOutput) != TextOf(previousOutput), added, removed, excerpt);
  }

  method CountLines(previous: seq<string>, current: seq<string>) returns (added: nat, removed: nat)
    ensures removed == RemovedCount(previous, current) && added == RemovedCount(current, previous)
  {
    added, removed := 0, 0;
    var max := if |previous| >= |current| then |previous| else |current|;
    for i := 0 to max
      invariant removed == RemovedUpTo(previous, current, i) && added == RemovedUpTo(current, previous, i)
    {
      var p := if i < |previous| then Some(previous[i]) else None;
      var c := if i < |current| then Some(current[i]) else None;
      if p == c {
        continue;
      }
      if p.Some? {
        removed := removed + 1;
      }
      if c.Some? {
        added := added + 1;
      }
    }
  }

  function Min(a: nat, b: nat): nat {
    if a <= b then a else b
  }

  lemma {:induction false} CountsDiffer(previous: seq<string>, current: seq<string>, n: nat)
    ensures RemovedUpTo(current, previous, n) - RemovedUpTo(previous, current, n) ==
            Min(n, |current|) - Min(n, |previous|)
  {
    if n > 0 {
      CountsDiffer(previous, current, n - 1);
    }
  }

  lemma {:induction false} NoCountsMeansEqual(previous: seq<string>, current: seq<string>, n: nat)
    requires n <= MaxLength(previous, current)
    ensures RemovedUpTo(previous, current, n) == RemovedUpTo(current, previous, n) == 0 <==>
            n <= |previous| && n <= |current| && previous[..n] == current[..n]
  {
    if n > 0 {
      NoCountsMeansEqual(previous, current, n - 1);
      if n <= |previous| && n <= |current| {
        assert previous[..n] == previous[..n - 1] + [previous[n - 1]];
        assert current[..n] == current[..n - 1] + [current[n - 1]];
      }
    }
  }

  /** Added minus removed lines is the difference in length, and both are zero exactly when the outputs
      are the same text up to line endings: outputs that differ only there are changed with no counts. */
  lemma CountsMean(currentOutput: Option<string>, previousOutput: Option<string>)
    ensures var previous, current := SourceLines(previousOutput), SourceLines(currentOutput);
            var added, removed := RemovedCount(current, previous), RemovedCount(previous, current);
            && added - removed == |current| - |previous|
            && (added == removed == 0 <==> Normalize(TextOf(previousOutput)) == Normalize(TextOf(currentOutput)))
  {
    var previous, current := SourceLines(previousOutput), SourceLines(currentOutput);
    var n := MaxLength(previous, current);
    CountsDiffer(previous, current, n);
    NoCountsMeansEqual(previous, current, n);
    assert previous[..|previous|] == previous && current[..|current|] == current;
    SameLinesIffSameText(previousOutput, currentOutput);
  }

  // ----- the causes -----

  datatype Category =
    | CobolEdit | TrustCaseChange | RuntimeConfigurationChange | NormalizationRuleChange
    | ManualJavaEdit | RepairPatch | GeneratedJavaRefresh | CauseNotDeterminable

  datatype Reason =
    | PreviousRunMissing | SameRunNotAllowed | RunNotCompleted | NonParityRun | MissingTrustSummary
    | MissingObservedOutput | MissingNormalizedOutput | EvidenceIncomplete

  /** What is read from the trust summary: digests of the referenced artifacts, where present. */
  datatype TrustSummary = TrustSummary(javaNormalized: Option<string>, repairDecision: Option<string>)

  datatype Run = Run(
    runId: string, status: string, executionMode: Option<string>, trustCaseId: Option<string>,
    configurationDigest: Option<string>, environmentProfileId: Option<string>, policyVersion: Option<string>,
    fixtureId: Option<string>, referenceMode: Option<string>, trustSummary: Option<TrustSummary>,
    generatedArtifact: Option<string>, sourceHash: Option<string>, actualOutput: Option<string>,
    evidenceStatus: Option<string>, manualEditsCarriedOver: bool, manualDriftRegionCount: int)

  datatype Determination = SingleChange | MultipleChanges | NotDeterminable

  datatype Entry = Entry(category: Category, changed: bool)

  datatype Explanation =
    | Unavailable(reason: Reason)
    | Available(determination: Determination, primary: Option<Category>, categories: seq<Entry>, delta: Delta)

  function TextOrNull(value: Option<string>): Option<string> {
    if value.Some? && value.value != "" then value else None
  }

  /** `?.sha256 ?? ""` of an optional reference. */
  function DigestOf(ref: Option<string>): string {
    if ref.Some? then ref.value else ""
  }

  /** The first reason for which no explanation is possible. */
  function WhyUnavailable(current: Run, previous: Run): Option<Reason> {
    if previous.runId == "" then Some(PreviousRunMissing)
    else if current.runId == previous.runId then Some(SameRunNotAllowed)
    else if current.status != "completed" || previous.status != "completed" then Some(RunNotCompleted)
    else if current.executionMode != Some("parity") || previous.executionMode != Some("parity") then Some(NonParityRun)
    else if current.trustSummary.None? || previous.trustSummary.None? then Some(MissingTrustSummary)
    else if current.actualOutput.None? || previous.actualOutput.None? then Some(MissingObservedOutput)
    else if current.trustSummary.value.javaNormalized.None? || previous.trustSummary.value.javaNormalized.None?
    then Some(MissingNormalizedOutput)
    else if current.evidenceStatus == Some("incomplete") || previous.evidenceStatus == Some("incomplete")
    then Some(EvidenceIncomplete)
    else None
  }

  predicate CobolChanged(a: Run, b: Run) {
    TextOrNull(a.sourceHash) != TextOrNull(b.sourceHash)
  }

  predicate TrustCaseChanged(a: Run, b: Run) {
    || TextOrNull(a.trustCaseId) != TextOrNull(b.trustCaseId)
    || TextOrNull(a.configurationDigest) != TextOrNull(b.configurationDigest)
  }

  predicate RuntimeSettingsDiffer(a: Run, b: Run) {
    || TextOrNull(a.environmentProfileId) != TextOrNull(b.environmentProfileId)
    || TextOrNull(a.fixtureId) != TextOrNull(b.fixtureId)
    || TextOrNull(a.referenceMode) != TextOrNull(b.referenceMode)
  }

  predicate NormalizationChanged(a: Run, b: Run) {
    TextOrNull(a.policyVersion) != TextOrNull(b.policyVersion)
  }

  predicate ManualJavaChanged(a: Run, b: Run) {
    a.manualEditsCarriedOver != b.manualEditsCarriedOver || a.manualDriftRegionCount != b.manualDriftRegionCount
  }

  predicate RepairChanged(a: Run, b: Run)
    requires a.trustSummary.Some? && b.trustSummary.Some?
  {
    DigestOf(a.trustSummary.value.repairDecision) != DigestOf(b.trustSummary.value.repairDecision)
  }

  predicate ArtifactDiffers(a: Run, b: Run) {
    DigestOf(a.generatedArtifact) != DigestOf(b.generatedArtifact)
  }

  /** A cause stronger than a refreshed artifact. */
  predicate StrongerCause(a: Run, b: Run)
    requires a.trustSummary.Some? && b.trustSummary.Some?
  {
    || CobolChanged(a, b) || TrustCaseChanged(a, b) || RuntimeSettingsDiffer(a, b)
    || NormalizationChanged(a, b) || ManualJavaChanged(a, b) || RepairChanged(a, b)
  }

  /** What each category means, independently of the order in which the code pushes them. */
  predicate Holds(c: Category, a: Run, b: Run)
    requires a.trustSummary.Some? && b.trustSummary.Some?
  {
    match c
    case CobolEdit => CobolChanged(a, b)
    case TrustCaseChange => TrustCaseChanged(a, b)
    case RuntimeConfigurationChange => !TrustCaseChanged(a, b) && RuntimeSettingsDiffer(a, b)
    case NormalizationRuleChange => NormalizationChanged(a, b)
    case ManualJavaEdit => ManualJavaChanged(a, b)
    case RepairPatch => RepairChanged(a, b)
    case GeneratedJavaRefresh => ArtifactDiffers(a, b) && !StrongerCause(a, b)
    case CauseNotDeterminable => !ArtifactDiffers(a, b) && !StrongerCause(a, b)
  }

  const CAUSES: seq<Category> :=
    [CobolEdit, TrustCaseChange, RuntimeConfigurationChange, NormalizationRuleChange, ManualJavaEdit, RepairPatch,
     GeneratedJavaRefresh]

  datatype Flags = Flags(
    cobol: bool, trustCase: bool, runtime: bool, normalization: bool, manual: bool, repair: bool, refresh: bool)

  function FlagsOf(a: Run, b: Run): Flags
    requires a.trustSummary.Some? && b.trustSummary.Some?
  {
    Flags(Holds(CobolEdit, a, b), Holds(TrustCaseChange, a, b), Holds(RuntimeConfigurationChange, a, b),
          Holds(NormalizationRuleChange, a, b), Holds(ManualJavaEdit, a, b), Holds(RepairPatch, a, b),
          Holds(GeneratedJavaRefresh, a, b))
  }

  predicate Raised(f: Flags, c: Category) {
    match c
    case CobolEdit => f.cobol
    case TrustCaseChange => f.trustCase
    case RuntimeConfigurationChange => f.runtime
    case NormalizationRuleChange => f.normalization
    case ManualJavaEdit => f.manual
    case RepairPatch => f.repair
    case GeneratedJavaRefresh => f.refresh
    case CauseNotDeterminable => false
  }

  function If(flag: bool, c: Category): seq<Category> {
    if flag then [c] else []
  }

  function RaisedList(f: Flags): seq<Category> {
    If(f.cobol, CobolEdit) + If(f.trustCase, TrustCaseChange) + If(f.runtime, RuntimeConfigurationChange) +
    If(f.normalization, NormalizationRuleChange) + If(f.manual, ManualJavaEdit) + If(f.repair, RepairPatch) +
    If(f.refresh, GeneratedJavaRefresh)
  }

  /** The causes that hold, in their order. */
  function Changed(a: Run, b: Run): seq<Category>
    requires a.trustSummary.Some? && b.trustSummary.Some?
  {
    RaisedList(FlagsOf(a, b))
  }

  function DeterminationOf(changed: seq<Category>): Determination {
    if |changed| == 1 then SingleChange else if |changed| > 1 then MultipleChanges else NotDeterminable
  }

  /** The entries that an available explanation lists: the seven causes with their flags, and a last one when
      none of them holds. */
  ghost predicate ListsCauses(entries: seq<Entry>, a: Run, b: Run)
    requires a.trustSummary.Some? && b.trustSummary.Some?
  {
    && |entries| == (if Changed(a, b) == [] then 8 else 7)
    && (forall i :: 0 <= i < 7 ==> entries[i] == Entry(CAUSES[i], Raised(FlagsOf(a, b), CAUSES[i])))
    && (Changed(a, b) == [] ==> entries[7] == Entry(CauseNotDeterminable, true))
  }

  /** buildOutputChangeExplanation. */
  method Explain(current: Run, previous: Run) returns (e: Explanation)
    ensures var why := WhyUnavailable(current, previous);
            && (why.Some? ==> e == Unavailable(why.value))
            && (why.None? ==>
                  && e.Available? && ListsCauses(e.categories, current, previous)
                  && e.determination == DeterminationOf(Changed(current, previous))
                  && e.primary == (if |Changed(current, previous)| == 1 then Some(Changed(current, previous)[0]) else None))
    ensures e.Available? ==>
              && (e.delta.changed <==> TextOf(current.actualOutput) != TextOf(previous.actualOutput))
              && IsExcerpt(SourceLines(previous.actualOutput), SourceLines(current.actualOutput), e.delta.excerpt)
              && e.delta.removed == RemovedCount(SourceLines(previous.actualOutput), SourceLines(current.actualOutput))
              && e.delta.added == RemovedCount(SourceLines(current.actualOutput), SourceLines(previous.actualOutput))
  {
    var why := WhyUnavailable(current, previous);
    if why.Some? {
      return Unavailable(why.value);
    }
    var delta := BuildDelta(current.actualOutput, previous.actualOutput);
    var entries, changed := ListCauses(current, previous);
    var determination := DeterminationOf(changed);
    var primary := if |changed| == 1 then Some(changed[0]) else None;
    if determination.NotDeterminable? {
      entries := entries + [Entry(CauseNotDeterminable, true)];
    }
    return Available(determination, primary, entries, delta);
  }

  method ReadFlags(a: Run, b: Run) returns (f: Flags)
    requires a.trustSummary.Some? && b.trustSummary.Some?
    ensures f == FlagsOf(a, b)
  {
    var cobol := TextOrNull(a.sourceHash) != TextOrNull(b.sourceHash);
    var trustCase := TextOrNull(a.trustCaseId) != TextOrNull(b.trustCaseId)
                     || TextOrNull(a.configurationDigest) != TextOrNull(b.configurationDigest);
    var runtime := !trustCase && RuntimeSettingsDiffer(a, b);
    var normalization := TextOrNull(a.policyVersion) != TextOrNull(b.policyVersion);
    var manual := a.manualEditsCarriedOver != b.manualEditsCarriedOver
                  || a.manualDriftRegionCount != b.manualDriftRegionCount;
    var repair := DigestOf(a.trustSummary.value.repairDecision) != DigestOf(b.trustSummary.value.repairDecision);
    var refresh := ArtifactDiffers(a, b) && !cobol && !manual && !repair && !trustCase && !runtime && !normalization;
    f := Flags(cobol, trustCase, runtime, normalization, manual, repair, refresh);
  }

  /** The sequence of pushes. */
  method ListCauses(a: Run, b: Run) returns (categories: seq<Entry>, changed: seq<Category>)
    requires a.trustSummary.Some? && b.trustSummary.Some?
    ensures changed == Changed(a, b) && |categories| == 7
    ensures forall i :: 0 <= i < 7 ==> categories[i] == Entry(CAUSES[i], Raised(FlagsOf(a, b), CAUSES[i]))
  {
    var f := ReadFlags(a, b);
    categories, changed := PushAll(f);
  }

  method PushAll(f: Flags) returns (categories: seq<Entry>, changed: seq<Category>)
    ensures changed == RaisedList(f) && |categories| == 7
    ensures forall i :: 0 <= i < 7 ==> categories[i] == Entry(CAUSES[i], Raised(f, CAUSES[i]))
  {
    categories, changed := [Entry(CobolEdit, f.cobol)], If(f.cobol, CobolEdit);
    categories, changed := Push(categories, changed, TrustCaseChange, f.trustCase);
    categories, changed := Push(categories, changed, RuntimeConfigurationChange, f.runtime);
    categories, changed := Push(categories, changed, NormalizationRuleChange, f.normalization);
    categories, changed := Push(categories, changed, ManualJavaEdit, f.manual);
    categories, changed := Push(categories, changed, RepairPatch, f.repair);
    categories, changed := Push(categories, changed, GeneratedJavaRefresh, f.refresh);
  }

  method Push(categories: seq<Entry>, changed: seq<Category>, c: Category, flag: bool)
    returns (moreCategories: seq<Entry>, moreChanged: seq<Category>)
    ensures moreCategories == categories + [Entry(c, flag)]
    ensures moreChanged == changed + If(flag, c)
  {
    moreCategories := categories + [Entry(c, flag)];
    moreChanged := if flag then changed + [c] else changed;
  }

  // ----- what the determination means -----

  lemma RaisedMembers(f: Flags, c: Category)
    ensures c in RaisedList(f) <==> Raised(f, c)
  {
    assert c in RaisedList(f) <==>
             || c in If(f.cobol, CobolEdit) || c in If(f.trustCase, TrustCaseChange)
             || c in If(f.runtime, RuntimeConfigurationChange) || c in If(f.normalization, NormalizationRuleChange)
             || c in If(f.manual, ManualJavaEdit) || c in If(f.repair, RepairPatch)
             || c in If(f.refresh, GeneratedJavaRefresh);
  }

  lemma OnlyOneRaised(f: Flags, c: Category)
    requires Raised(f, c) && forall d :: d != c ==> !Raised(f, d)
    ensures RaisedList(f) == [c]
  {
    assert !Raised(f, CobolEdit) || c == CobolEdit;
    assert !Raised(f, TrustCaseChange) || c == TrustCaseChange;
    assert !Raised(f, RuntimeConfigurationChange) || c == RuntimeConfigurationChange;
    assert !Raised(f, NormalizationRuleChange) || c == NormalizationRuleChange;
    assert !Raised(f, ManualJavaEdit) || c == ManualJavaEdit;
    assert !Raised(f, RepairPatch) || c == RepairPatch;
    assert !Raised(f, GeneratedJavaRefresh) || c == GeneratedJavaRefresh;
  }

  lemma RaisedIsHolds(a: Run, b: Run, c: Category)
    requires a.trustSummary.Some? && b.trustSummary.Some?
    ensures Raised(FlagsOf(a, b), c) <==> c != CauseNotDeterminable && Holds(c, a, b)
  {
  }

  /** The only listed cause is this one exactly when it holds and no other cause does, and nothing is listed
      exactly when no stronger cause holds and the artifact is the same. */
  lemma DeterminationMeans(a: Run, b: Run, c: Category)
    requires a.trustSummary.Some? && b.trustSummary.Some? && c != CauseNotDeterminable
    ensures Changed(a, b) == [c] <==>
              Holds(c, a, b) && forall d :: d != c && d != CauseNotDeterminable ==> !Holds(d, a, b)
    ensures Changed(a, b) == [] <==> Holds(CauseNotDeterminable, a, b)
  {
    var f := FlagsOf(a, b);
    forall d ensures d in RaisedList(f) <==> Raised(f, d) {
      RaisedMembers(f, d);
    }
    forall d ensures Raised(f, d) <==> d != CauseNotDeterminable && Holds(d, a, b) {
      RaisedIsHolds(a, b, d);
    }
    if Raised(f, c) && forall d :: d != c ==> !Raised(f, d) {
      OnlyOneRaised(f, c);
    }
    NothingHolds(a, b);
    if forall d :: !Raised(f, d) {
      NothingRaised(f);
    }
  }

  lemma NothingRaised(f: Flags)
    requires forall d :: !Raised(f, d)
    ensures RaisedList(f) == []
  {
    var list := RaisedList(f);
    RaisedMembers(f, if list == [] then CobolEdit else list[0]);
  }

  lemma NothingHolds(a: Run, b: Run)
    requires a.trustSummary.Some? && b.trustSummary.Some?
    ensures Holds(CauseNotDeterminable, a, b) <==> forall d :: d != CauseNotDeterminable ==> !Holds(d, a, b)
  {
    if forall d :: d != CauseNotDeterminable ==> !Holds(d, a, b) {
      assert !Holds(CobolEdit, a, b) && !Holds(TrustCaseChange, a, b) && !Holds(RuntimeConfigurationChange, a, b);
      assert !Holds(NormalizationRuleChange, a, b) && !Holds(ManualJavaEdit, a, b) && !Holds(RepairPatch, a, b);
      assert !Holds(GeneratedJavaRefresh, a, b);
    }
  }

  // ----- exchanging the two runs -----

  /** Every category flag is symmetric in the two runs. */
  lemma FlagsAreSymmetric(c: Category, a: Run, b: Run)
    requires a.trustSummary.Some? && b.trustSummary.Some?
    ensures Holds(c, a, b) <==> Holds(c, b, a)
  {
  }

  /** An explanation keeps availability, reason, flags, determination and primary category when the runs are
      exchanged, exactly when the run ids are both empty or both non-empty: only the previous run is asked
      for its id. */
  lemma SwapKeepsExplanation(a: Run, b: Run)
    ensures WhyUnavailable(a, b) == WhyUnavailable(b, a) <==> (a.runId == "" <==> b.runId == "")
    ensures WhyUnavailable(a, b).None? && WhyUnavailable(b, a).None? ==> Changed(a, b) == Changed(b, a)
  {
    if WhyUnavailable(a, b).None? && WhyUnavailable(b, a).None? {
      forall c: Category ensures Holds(c, a, b) == Holds(c, b, a) {
        FlagsAreSymmetric(c, a, b);
      }
      assert FlagsOf(a, b) == FlagsOf(b, a);
    }
  }
}
