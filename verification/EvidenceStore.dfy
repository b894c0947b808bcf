/**
 The evidence pack store: create, patch and export operations over a map of manifests.

 `Step` is the specification of one call; class PackStore carries it out on its fields. A
 failed call leaves the pack map alone, and every stored pack stays coherent.
 */
module EvidenceStore {
  import opened Prelude
  import opened EvidenceManifest
  import opened EvidenceCompleteness

  datatype StoreError = RunIdRequired | UnknownWave | PackNotFound | BlockedArtifact | InvalidManifest

  datatype Result<+T> = Ok(value: T) | Err(error: StoreError)

  datatype CreateInput = CreateInput(
    runId: string, workflowId: string, wave: string, blocked: bool, summary: string, createdBy: string,
    artifacts: Artifacts, openAssumptions: seq<OpenAssumption>, unsupportedFeatures: seq<UnsupportedFeature>,
    carriedOver: bool, driftRegionCount: int)

  datatype PatchInput = PatchInput(
    summary: Option<string>, blocked: Option<bool>, artifacts: Option<Artifacts>,
    openAssumptions: seq<OpenAssumption>, unsupportedFeatures: seq<UnsupportedFeature>,
    carriedOver: Option<bool>, driftRegionCount: Option<int>)

  // ----- merging artifacts -----

  function Latest<T>(before: Option<T>, patch: Option<T>): Option<T> {
    if patch.Some? then patch else before
  }

  /** Lists accrue, single fields are replaced by what the patch provides. */
  function Merge(dst: Artifacts, src: Artifacts): Artifacts {
    Artifacts(
      dst.sourceCobol + src.sourceCobol,
      Latest(dst.sourceMetadata, src.sourceMetadata),
      Latest(dst.corpusMetadata, src.corpusMetadata),
      Latest(dst.parseOutput, src.parseOutput),
      Latest(dst.semanticIr, src.semanticIr),
      dst.transformationPasses + src.transformationPasses,
      Latest(dst.generatedJava, src.generatedJava),
      dst.generatedJavaArtifacts + src.generatedJavaArtifacts,
      Latest(dst.finalJavaArtifact, src.finalJavaArtifact),
      dst.repairAttempts + src.repairAttempts,
      dst.agentTrajectories + src.agentTrajectories,
      Latest(dst.oracleComparison, src.oracleComparison),
      Latest(dst.runtimeVersion, src.runtimeVersion),
      dst.modelInvocations + src.modelInvocations,
      dst.buildTestResults + src.buildTestResults,
      dst.sbom + src.sbom,
      dst.licenseReports + src.licenseReports,
      Latest(dst.harnessEvents, src.harnessEvents),
      Latest(dst.trajectoryLedger, src.trajectoryLedger),
      dst.experienceEvents + src.experienceEvents,
      Latest(dst.assistDecision, src.assistDecision),
      Latest(dst.budgetSummary, src.budgetSummary),
      Latest(dst.manualEditOverlay, src.manualEditOverlay))
  }

  lemma MergeAssociative(a: Artifacts, b: Artifacts, c: Artifacts)
    ensures Merge(Merge(a, b), c) == Merge(a, Merge(b, c))
  {
    var l, r := Merge(Merge(a, b), c), Merge(a, Merge(b, c));
    assert l.sourceCobol == r.sourceCobol;
    assert l.transformationPasses == r.transformationPasses;
    assert l.generatedJavaArtifacts == r.generatedJavaArtifacts;
    assert l.repairAttempts == r.repairAttempts;
    assert l.agentTrajectories == r.agentTrajectories;
    assert l.modelInvocations == r.modelInvocations;
    assert l.buildTestResults == r.buildTestResults;
    assert l.sbom == r.sbom;
    assert l.licenseReports == r.licenseReports;
    assert l.experienceEvents == r.experienceEvents;
  }

  lemma MergeIdentity(a: Artifacts)
    ensures Merge(a, NoArtifacts()) == a && Merge(NoArtifacts(), a) == a
  {
    var l := Merge(a, NoArtifacts());
    assert l.sourceCobol == a.sourceCobol;
    assert l.transformationPasses == a.transformationPasses;
    assert l.generatedJavaArtifacts == a.generatedJavaArtifacts;
    assert l.repairAttempts == a.repairAttempts;
    assert l.agentTrajectories == a.agentTrajectories;
    assert l.modelInvocations == a.modelInvocations;
    assert l.buildTestResults == a.buildTestResults;
    assert l.sbom == a.sbom;
    assert l.licenseReports == a.licenseReports;
    assert l.experienceEvents == a.experienceEvents;
  }

  // ----- blocked runs -----

  /** validateBlockedW02Artifacts. */
  predicate BlockedArtifactsOk(a: Artifacts) {
    && !Present(a.generatedJava)
    && !HasFinal(a)
    && forall i :: 0 <= i < |a.generatedJavaArtifacts| ==> !a.generatedJavaArtifacts[i].selected
  }

  function Deselected(cs: seq<JavaCandidateRef>): seq<JavaCandidateRef> {
    seq(|cs|, i requires 0 <= i < |cs| => cs[i].(selected := false))
  }

  /** normalizeBlockedW02Artifacts. */
  function NormalizeBlocked(a: Artifacts): Artifacts {
    a.(generatedJava := None, finalJavaArtifact := None, generatedJavaArtifacts := Deselected(a.generatedJavaArtifacts))
  }

  const PRE_GATE: set<Name> :=
    {GeneratedJava, GeneratedJavaArtifacts, FinalJavaArtifact, BuildTestResults, OracleComparisonName}

  predicate ReachedGate(a: Artifacts) {
    || HasTrajectoryRole(a.agentTrajectories, ROLE_TRANSFORMATION)
    || HasTrajectoryRole(a.agentTrajectories, ROLE_REPAIR)
    || |a.repairAttempts| > 0
    || HasInvocationRole(a.modelInvocations, ROLE_TRANSFORMATION)
    || HasInvocationRole(a.modelInvocations, ROLE_REPAIR)
  }

  predicate Relaxed(g: Gap, gateFired: bool) {
    g.Gap? && (g.name in PRE_GATE || (g.name == AssistDecisionName && !gateFired))
  }

  function Unrelaxed(missing: seq<Gap>, gateFired: bool): seq<Gap> {
    if missing == [] then []
    else
      var last := missing[|missing| - 1];
      Unrelaxed(missing[..|missing| - 1], gateFired) + (if Relaxed(last, gateFired) then [] else [last])
  }

  function Relax(v: ValidationResult, a: Artifacts): ValidationResult {
    var filtered := Unrelaxed(v.missing, ReachedGate(a));
    v.(missing := filtered, ok := filtered == [],
       completeness := if filtered == [] then CompleteEvidence else v.completeness)
  }

  // ----- derived fields -----

  function StatusOf(v: ValidationResult): Status {
    if v.ok then Complete else Incomplete
  }

  function CompletenessStatusOf(v: ValidationResult, blocked: bool): Completeness {
    if blocked then BlockedRun else if v.ok then CompleteEvidence else IncompleteEvidence
  }

  function ClassificationOf(v: ValidationResult, blocked: bool): Classification {
    if blocked then Blocked else if v.ok then Success else EvidenceIncomplete
  }

  function Evaluated(a: Artifacts, wave: Wave, carriedOver: bool, blocked: bool): ValidationResult {
    var v := ManifestValidation(a, wave, carriedOver);
    if blocked && wave.W02? then Relax(v, a) else v
  }

  /** Recomputes everything that depends on the artifacts and the blocked signal. */
  function Derive(m: Manifest, blocked: bool): Manifest {
    var v := Evaluated(m.artifacts, m.wave, m.carriedOver, blocked);
    m.(status := StatusOf(v),
       completeness := CompletenessStatusOf(v, blocked),
       classification := ClassificationOf(v, blocked),
       validation := v.(completeness := CompletenessStatusOf(v, blocked)))
  }

  function Checked(env: Screens, m: Manifest, blocked: bool): Result<Manifest> {
    if blocked && m.wave.W02? && !BlockedArtifactsOk(m.artifacts) then Err(BlockedArtifact)
    else if !ValidManifest(env, m) then Err(InvalidManifest)
    else Ok(m)
  }

  // ----- pack identifiers -----

  function Digit(n: nat): char
    requires n < 10
  {
    '0' + n as char
  }

  function Decimal(n: nat): string {
    if n < 10 then [Digit(n)] else Decimal(n / 10) + [Digit(n % 10)]
  }

  /** The %04d format. */
  function Padded(n: nat): string {
    if n < 10 then "000" + Decimal(n)
    else if n < 100 then "00" + Decimal(n)
    else if n < 1000 then "0" + Decimal(n)
    else Decimal(n)
  }

  function PackId(runId: string, n: nat): string {
    "epk-" + runId + "-" + Padded(n)
  }

  // ----- one call -----

  datatype StoreState = StoreState(packs: map<string, Manifest>, seqNo: nat)

  datatype Op =
    | Create(input: CreateInput, now: int)
    | Update(packId: string, patch: PatchInput)
    | RecordExport(packId: string, record: ExportRecord)

  function WaveOf(wave: string): Option<Wave> {
    if wave == "" || wave == "w0" then Some(W0) else if wave == "w0.2" then Some(W02) else None
  }

  function NewManifest(input: CreateInput, wave: Wave, packId: string, now: int): Manifest {
    var blank := ValidationResult(false, [], [], IncompleteEvidence);
    Manifest(packId, input.runId, input.workflowId, wave, Incomplete, IncompleteEvidence, EvidenceIncomplete,
             input.summary, input.carriedOver, input.driftRegionCount, now, input.createdBy, input.artifacts,
             input.openAssumptions, input.unsupportedFeatures, blank, [])
  }

  function Store(st: StoreState, r: Result<Manifest>): (StoreState, Result<Manifest>) {
    (if r.Ok? then st.(packs := st.packs[r.value.packId := r.value]) else st, r)
  }

  function CreateInWave(env: Screens, st: StoreState, input: CreateInput, wave: Wave, now: int)
    : (StoreState, Result<Manifest>)
  {
    var id := st.seqNo + 1;
    var m := NewManifest(input, wave, PackId(input.runId, id), now);
    Store(st.(seqNo := id), Checked(env, Derive(m, input.blocked), input.blocked))
  }

  function CreateStep(env: Screens, st: StoreState, input: CreateInput, now: int): (StoreState, Result<Manifest>) {
    var wave := WaveOf(input.wave);
    if input.runId == "" then (st, Err(RunIdRequired))
    else if wave.None? then (st, Err(UnknownWave))
    else CreateInWave(env, st, input, wave.value, now)
  }

  /** The fields of a pack after a patch, before anything is recomputed. */
  function Patched(m: Manifest, patch: PatchInput): Manifest {
    var artifacts := if patch.artifacts.Some? then Merge(m.artifacts, patch.artifacts.value) else m.artifacts;
    var cleared := patch.carriedOver == Some(false);
    var drift := if cleared then 0 else m.driftRegionCount;
    var kept := if cleared then artifacts.(manualEditOverlay := None) else artifacts;
    m.(summary := if patch.summary.Some? then patch.summary.value else m.summary,
       openAssumptions := m.openAssumptions + patch.openAssumptions,
       unsupportedFeatures := m.unsupportedFeatures + patch.unsupportedFeatures,
       carriedOver := if patch.carriedOver.Some? then patch.carriedOver.value else m.carriedOver,
       driftRegionCount := if patch.driftRegionCount.Some? then patch.driftRegionCount.value else drift,
       artifacts := if patch.blocked == Some(true) && m.wave.W02? then NormalizeBlocked(kept) else kept)
  }

  function BlockedAfter(m: Manifest, patch: PatchInput): bool {
    if patch.blocked.Some? then patch.blocked.value else m.classification.Blocked?
  }

  function UpdateStep(env: Screens, st: StoreState, packId: string, patch: PatchInput): (StoreState, Result<Manifest>) {
    if packId !in st.packs then (st, Err(PackNotFound))
    else
      var m := st.packs[packId];
      var blocked := BlockedAfter(m, patch);
      var r := Checked(env, Derive(Patched(m, patch), blocked), blocked);
      (if r.Ok? then st.(packs := st.packs[packId := r.value]) else st, r)
  }

  function ExportStep(st: StoreState, packId: string, record: ExportRecord): (StoreState, Result<Manifest>) {
    if packId !in st.packs then (st, Err(PackNotFound))
    else
      var m := st.packs[packId].(exports := st.packs[packId].exports + [record]);
      (st.(packs := st.packs[packId := m]), Ok(m))
  }

  function Step(env: Screens, st: StoreState, op: Op): (StoreState, Result<Manifest>) {
    match op
    case Create(input, now) => CreateStep(env, st, input, now)
    case Update(packId, patch) => UpdateStep(env, st, packId, patch)
    case RecordExport(packId, record) => ExportStep(st, packId, record)
  }

  function EmptyStore(): StoreState {
    StoreState(map[], 0)
  }

  function Run(env: Screens, st: StoreState, ops: seq<Op>): StoreState
    decreases |ops|
  {
    if ops == [] then st else Run(env, Step(env, st, ops[0]).0, ops[1..])
  }

  // ----- the service object -----

  /** One pointer field: a non-nil source is copied over the destination. */
  method Overwrite<T>(dst: Option<T>, src: Option<T>) returns (out: Option<T>)
    ensures out == Latest(dst, src)
  {
    out := dst;
    if src.Some? {
      out := src;
    }
  }

  method MergeArtifacts(dst: Artifacts, src: Artifacts) returns (out: Artifacts)
    ensures out == Merge(dst, src)
  {
    var sourceMetadata := Overwrite(dst.sourceMetadata, src.sourceMetadata);
    var corpusMetadata := Overwrite(dst.corpusMetadata, src.corpusMetadata);
    var parseOutput := Overwrite(dst.parseOutput, src.parseOutput);
    var semanticIr := Overwrite(dst.semanticIr, src.semanticIr);
    var generatedJava := Overwrite(dst.generatedJava, src.generatedJava);
    var finalJavaArtifact := Overwrite(dst.finalJavaArtifact, src.finalJavaArtifact);
    var oracleComparison := Overwrite(dst.oracleComparison, src.oracleComparison);
    var runtimeVersion := Overwrite(dst.runtimeVersion, src.runtimeVersion);
    var harnessEvents := Overwrite(dst.harnessEvents, src.harnessEvents);
    var trajectoryLedger := Overwrite(dst.trajectoryLedger, src.trajectoryLedger);
    var assistDecision := Overwrite(dst.assistDecision, src.assistDecision);
    var budgetSummary := Overwrite(dst.budgetSummary, src.budgetSummary);
    var manualEditOverlay := Overwrite(dst.manualEditOverlay, src.manualEditOverlay);
    out := Artifacts(
      dst.sourceCobol + src.sourceCobol,
      sourceMetadata,
      corpusMetadata,
      parseOutput,
      semanticIr,
      dst.transformationPasses + src.transformationPasses,
      generatedJava,
      dst.generatedJavaArtifacts + src.generatedJavaArtifacts,
      finalJavaArtifact,
      dst.repairAttempts + src.repairAttempts,
      dst.agentTrajectories + src.agentTrajectories,
      oracleComparison,
      runtimeVersion,
      dst.modelInvocations + src.modelInvocations,
      dst.buildTestResults + src.buildTestResults,
      dst.sbom + src.sbom,
      dst.licenseReports + src.licenseReports,
      harnessEvents,
      trajectoryLedger,
      dst.experienceEvents + src.experienceEvents,
      assistDecision,
      budgetSummary,
      manualEditOverlay);
  }

  method NormalizeBlockedArtifacts(a: Artifacts) returns (out: Artifacts)
    ensures out == NormalizeBlocked(a)
  {
    var cs := a.generatedJavaArtifacts;
    for i := 0 to |cs|
      invariant |cs| == |a.generatedJavaArtifacts|
      invariant forall k :: 0 <= k < |cs| ==>
        cs[k] == if k < i then a.generatedJavaArtifacts[k].(selected := false) else a.generatedJavaArtifacts[k]
    {
      cs := cs[i := cs[i].(selected := false)];
    }
    assert cs == Deselected(a.generatedJavaArtifacts);
    out := a.(generatedJava := None, finalJavaArtifact := None, generatedJavaArtifacts := cs);
  }

  method RelaxBlockedValidation(v: ValidationResult, a: Artifacts) returns (w: ValidationResult)
    ensures w == Relax(v, a)
  {
    var gateFired := ReachedGate(a);
    var filtered: seq<Gap> := [];
    for i := 0 to |v.missing|
      invariant filtered == Unrelaxed(v.missing[..i], gateFired)
    {
      assert v.missing[..i + 1][..i] == v.missing[..i];
      var name := v.missing[i];
      if !Relaxed(name, gateFired) {
        filtered := filtered + [name];
      }
    }
    assert v.missing[..|v.missing|] == v.missing;
    w := v.(missing := filtered, ok := |filtered| == 0);
    if w.ok {
      w := w.(completeness := CompleteEvidence);
    }
  }

  method ApplyPatch(before: Manifest, patch: PatchInput) returns (m: Manifest)
    ensures m == Patched(before, patch)
  {
    m := before;
    var artifacts := before.artifacts;
    if patch.artifacts.Some? {
      artifacts := MergeArtifacts(artifacts, patch.artifacts.value);
    }
    var carriedOver, drift := before.carriedOver, before.driftRegionCount;
    if patch.carriedOver.Some? {
      carriedOver := patch.carriedOver.value;
      if !carriedOver {
        drift := 0;
        artifacts := artifacts.(manualEditOverlay := None);
      }
    }
    if patch.driftRegionCount.Some? {
      drift := patch.driftRegionCount.value;
    }
    if patch.blocked == Some(true) && before.wave.W02? {
      artifacts := NormalizeBlockedArtifacts(artifacts);
    }
    m := m.(summary := if patch.summary.Some? then patch.summary.value else m.summary,
            openAssumptions := m.openAssumptions + patch.openAssumptions,
            unsupportedFeatures := m.unsupportedFeatures + patch.unsupportedFeatures,
            carriedOver := carriedOver, driftRegionCount := drift, artifacts := artifacts);
  }

  class PackStore {
    const env: Screens
    var packs: map<string, Manifest>
    var seqNo: nat

    constructor (env: Screens)
      ensures this.env == env && View() == EmptyStore()
    {
      this.env := env;
      packs := map[];
      seqNo := 0;
    }

    function View(): StoreState
      reads this
    {
      StoreState(packs, seqNo)
    }

    method Finish(m: Manifest, blocked: bool) returns (r: Result<Manifest>)
      ensures r == Checked(env, Derive(m, blocked), blocked)
    {
      var v := EvaluateValidationForManifest(m.artifacts, m.wave, m.carriedOver);
      if blocked && m.wave.W02? {
        v := RelaxBlockedValidation(v, m.artifacts);
      }
      var out := m.(
        status := StatusOf(v),
        completeness := CompletenessStatusOf(v, blocked),
        classification := ClassificationOf(v, blocked),
        validation := v.(completeness := CompletenessStatusOf(v, blocked)));
      if blocked && m.wave.W02? && !BlockedArtifactsOk(out.artifacts) {
        return Err(BlockedArtifact);
      }
      if !ValidManifest(env, out) {
        return Err(InvalidManifest);
      }
      return Ok(out);
    }

    method FinishAndKeep(m: Manifest, blocked: bool) returns (r: Result<Manifest>)
      modifies this
      ensures View() == Store(old(View()), Checked(env, Derive(m, blocked), blocked)).0
      ensures r == Checked(env, Derive(m, blocked), blocked)
    {
      r := Finish(m, blocked);
      if r.Ok? {
        packs := packs[r.value.packId := r.value];
      }
    }

    method CreateNumbered(input: CreateInput, wave: Wave, now: int) returns (r: Result<Manifest>)
      modifies this
      ensures View() == CreateInWave(env, old(View()), input, wave, now).0
      ensures r == CreateInWave(env, old(View()), input, wave, now).1
    {
      ghost var before := View();
      seqNo := seqNo + 1;
      var m := NewManifest(input, wave, PackId(input.runId, seqNo), now);
      r := FinishAndKeep(m, input.blocked);
      assert CreateInWave(env, before, input, wave, now) ==
             Store(before.(seqNo := before.seqNo + 1), Checked(env, Derive(m, input.blocked), input.blocked));
    }

    method Create(input: CreateInput, now: int) returns (r: Result<Manifest>)
      modifies this
      ensures View() == CreateStep(env, old(View()), input, now).0
      ensures r == CreateStep(env, old(View()), input, now).1
    {
      if input.runId == "" {
        return Err(RunIdRequired);
      }
      var wave := WaveOf(input.wave);
      if wave.None? {
        return Err(UnknownWave);
      }
      r := CreateNumbered(input, wave.value, now);
    }

    method Update(packId: string, patch: PatchInput) returns (r: Result<Manifest>)
      modifies this
      ensures View() == UpdateStep(env, old(View()), packId, patch).0
      ensures r == UpdateStep(env, old(View()), packId, patch).1
    {
      if packId !in packs {
        return Err(PackNotFound);
      }
      var m := packs[packId];
      var blocked := m.classification.Blocked?;
      if patch.blocked.Some? {
        blocked := patch.blocked.value;
      }
      m := ApplyPatch(m, patch);
      r := Finish(m, blocked);
      if r.Ok? {
        packs := packs[packId := r.value];
      }
    }

    method RecordExport(packId: string, record: ExportRecord) returns (r: Result<Manifest>)
      modifies this
      ensures (View(), r) == ExportStep(old(View()), packId, record)
    {
      if packId !in packs {
        return Err(PackNotFound);
      }
      var m := packs[packId];
      m := m.(exports := m.exports + [record]);
      packs := packs[packId := m];
      return Ok(m);
    }
  }
}
