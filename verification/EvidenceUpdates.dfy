/**
 What the store keeps of what it is given, field by field: after any calls every field of a pack is
 the last value that an accepted patch brought, and every list is all that was brought, in order.
 */
module EvidenceUpdates {
  import opened Prelude
  import opened EvidenceManifest
  import opened EvidenceCompleteness
  import opened EvidenceStore
  import opened EvidenceInvariants
  import opened EvidenceHistory

  // ----- one call -----

  /** A new pack holds what its caller gave, under the next number. */
  lemma {:induction false} CreateStores(env: Screens, st: StoreState, input: CreateInput, now: int)
    ensures var (after, r) := Step(env, st, Create(input, now));
            r.Ok? ==>
              && input.runId != "" && input.wave in {"", "w0", "w0.2"}
              && after.seqNo == st.seqNo + 1 && after.packs == st.packs[r.value.packId := r.value]
              && r.value.packId == PackId(input.runId, st.seqNo + 1)
              && r.value.runId == input.runId && r.value.workflowId == input.workflowId
              && (r.value.wave.W02? <==> input.wave == "w0.2")
              && (r.value.classification.Blocked? <==> input.blocked)
              && r.value.summary == input.summary && r.value.createdBy == input.createdBy && r.value.createdAt == now
              && r.value.artifacts == input.artifacts && r.value.exports == []
              && r.value.openAssumptions == input.openAssumptions
              && r.value.unsupportedFeatures == input.unsupportedFeatures
              && r.value.carriedOver == input.carriedOver && r.value.driftRegionCount == input.driftRegionCount
  {
  }

  /** The new value of a field: the one brought, if any, and otherwise the old one. */
  ghost predicate Brought<T>(before: Option<T>, patch: Option<T>, after: Option<T>) {
    && (patch.Some? ==> after == patch)
    && (patch.None? ==> after == before)
  }

  /** No artifacts in a patch mean no artifact of any kind. */
  function ArtifactsOf(patch: PatchInput): Artifacts {
    if patch.artifacts.Some? then patch.artifacts.value else NoArtifacts()
  }

  /** The fields of a pack that a patch can only set. */
  ghost predicate FieldsBrought(a: Artifacts, src: Artifacts, b: Artifacts) {
    && Brought(a.sourceMetadata, src.sourceMetadata, b.sourceMetadata)
    && Brought(a.corpusMetadata, src.corpusMetadata, b.corpusMetadata)
    && Brought(a.parseOutput, src.parseOutput, b.parseOutput)
    && Brought(a.semanticIr, src.semanticIr, b.semanticIr)
    && Brought(a.oracleComparison, src.oracleComparison, b.oracleComparison)
    && Brought(a.runtimeVersion, src.runtimeVersion, b.runtimeVersion)
    && Brought(a.harnessEvents, src.harnessEvents, b.harnessEvents)
    && Brought(a.trajectoryLedger, src.trajectoryLedger, b.trajectoryLedger)
    && Brought(a.assistDecision, src.assistDecision, b.assistDecision)
    && Brought(a.budgetSummary, src.budgetSummary, b.budgetSummary)
  }

  /** Its lists gain what the patch brings. */
  ghost predicate ListsBrought(a: Artifacts, src: Artifacts, b: Artifacts) {
    && b.sourceCobol == a.sourceCobol + src.sourceCobol
    && b.transformationPasses == a.transformationPasses + src.transformationPasses
    && b.repairAttempts == a.repairAttempts + src.repairAttempts
    && b.agentTrajectories == a.agentTrajectories + src.agentTrajectories
    && b.modelInvocations == a.modelInvocations + src.modelInvocations
    && b.buildTestResults == a.buildTestResults + src.buildTestResults
    && b.sbom == a.sbom + src.sbom
    && b.licenseReports == a.licenseReports + src.licenseReports
    && b.experienceEvents == a.experienceEvents + src.experienceEvents
  }

  /** The generated and final Java and the candidates: blocking a W0.2 pack clears the first two and
      every selection, after the patch. */
  ghost predicate JavaBrought(a: Artifacts, src: Artifacts, b: Artifacts, blocked: bool) {
    if blocked then
      && b.generatedJava == None && b.finalJavaArtifact == None
      && |b.generatedJavaArtifacts| == |a.generatedJavaArtifacts + src.generatedJavaArtifacts|
      && forall i :: 0 <= i < |b.generatedJavaArtifacts| ==>
           b.generatedJavaArtifacts[i] == (a.generatedJavaArtifacts + src.generatedJavaArtifacts)[i].(selected := false)
    else
      && Brought(a.generatedJava, src.generatedJava, b.generatedJava)
      && Brought(a.finalJavaArtifact, src.finalJavaArtifact, b.finalJavaArtifact)
      && b.generatedJavaArtifacts == a.generatedJavaArtifacts + src.generatedJavaArtifacts
  }

  /** The overlay: saying that no edits were carried over clears it, whatever the patch brings. */
  ghost predicate OverlayBrought(m: Manifest, patch: PatchInput, n: Manifest) {
    if patch.carriedOver == Some(false) then
      && n.artifacts.manualEditOverlay == None && !n.carriedOver
      && n.driftRegionCount == if patch.driftRegionCount.Some? then patch.driftRegionCount.value else 0
    else
      && Brought(m.artifacts.manualEditOverlay, ArtifactsOf(patch).manualEditOverlay, n.artifacts.manualEditOverlay)
      && n.carriedOver == (patch.carriedOver == Some(true) || m.carriedOver)
      && n.driftRegionCount == if patch.driftRegionCount.Some? then patch.driftRegionCount.value else m.driftRegionCount
  }

  ghost predicate RestBrought(m: Manifest, patch: PatchInput, n: Manifest) {
    && n.summary == (if patch.summary.Some? then patch.summary.value else m.summary)
    && n.openAssumptions == m.openAssumptions + patch.openAssumptions
    && n.unsupportedFeatures == m.unsupportedFeatures + patch.unsupportedFeatures
    && n.exports == m.exports
    && n.packId == m.packId && n.runId == m.runId && n.workflowId == m.workflowId && n.wave == m.wave
    && n.createdAt == m.createdAt && n.createdBy == m.createdBy
    && (n.classification.Blocked? <==> if patch.blocked.Some? then patch.blocked.value else m.classification.Blocked?)
  }

  /** A successful update, field by field. */
  ghost predicate Updated(m: Manifest, patch: PatchInput, n: Manifest) {
    && FieldsBrought(m.artifacts, ArtifactsOf(patch), n.artifacts)
    && ListsBrought(m.artifacts, ArtifactsOf(patch), n.artifacts)
    && JavaBrought(m.artifacts, ArtifactsOf(patch), n.artifacts, patch.blocked == Some(true) && m.wave.W02?)
    && OverlayBrought(m, patch, n)
    && RestBrought(m, patch, n)
  }

  lemma {:induction false} MergeBrings(a: Artifacts, src: Artifacts)
    ensures FieldsBrought(a, src, Merge(a, src))
  {
  }

  /** Fields that stay as they are when the selected Java or the overlay goes. */
  lemma {:induction false} ClearingBrings(a: Artifacts, src: Artifacts, b: Artifacts)
    requires FieldsBrought(a, src, b)
    ensures FieldsBrought(a, src, NormalizeBlocked(b)) && FieldsBrought(a, src, b.(manualEditOverlay := None))
  {
  }

  lemma {:induction false} PatchedFields(m: Manifest, patch: PatchInput)
    ensures FieldsBrought(m.artifacts, ArtifactsOf(patch), Patched(m, patch).artifacts)
  {
    var a, src := m.artifacts, ArtifactsOf(patch);
    var merged := if patch.artifacts.Some? then Merge(a, patch.artifacts.value) else a;
    var kept := if patch.carriedOver == Some(false) then merged.(manualEditOverlay := None) else merged;
    assert FieldsBrought(a, src, merged) by {
      if patch.artifacts.Some? {
        MergeBrings(a, src);
      }
    }
    assert FieldsBrought(a, src, kept) by {
      ClearingBrings(a, src, merged);
    }
    ClearingBrings(a, src, kept);
  }

  lemma {:induction false} PatchedLists(m: Manifest, patch: PatchInput)
    ensures ListsBrought(m.artifacts, ArtifactsOf(patch), Patched(m, patch).artifacts)
  {
    var a := m.artifacts;
    if patch.artifacts.None? {
      assert a.sourceCobol + [] == a.sourceCobol && a.transformationPasses + [] == a.transformationPasses;
      assert a.repairAttempts + [] == a.repairAttempts && a.agentTrajectories + [] == a.agentTrajectories;
      assert a.modelInvocations + [] == a.modelInvocations && a.buildTestResults + [] == a.buildTestResults;
      assert a.sbom + [] == a.sbom && a.licenseReports + [] == a.licenseReports;
      assert a.experienceEvents + [] == a.experienceEvents;
    }
  }

  lemma {:induction false} PatchedJava(m: Manifest, patch: PatchInput)
    ensures JavaBrought(m.artifacts, ArtifactsOf(patch), Patched(m, patch).artifacts,
                        patch.blocked == Some(true) && m.wave.W02?)
  {
    if patch.artifacts.None? {
      assert m.artifacts.generatedJavaArtifacts + [] == m.artifacts.generatedJavaArtifacts;
    }
  }

  lemma {:induction false} PatchedRest(m: Manifest, patch: PatchInput)
    ensures var n := Derive(Patched(m, patch), BlockedAfter(m, patch));
            OverlayBrought(m, patch, n) && RestBrought(m, patch, n) && n.artifacts == Patched(m, patch).artifacts
  {
  }

  /** After a successful update the stored pack has what the patch brings and otherwise what it had. */
  lemma {:induction false} UpdateStores(env: Screens, st: StoreState, id: string, patch: PatchInput)
    requires Step(env, st, Update(id, patch)).1.Ok?
    ensures var (after, r) := Step(env, st, Update(id, patch));
            id in st.packs && after.packs == st.packs[id := r.value] && Updated(st.packs[id], patch, r.value)
  {
    var m := st.packs[id];
    PatchedFields(m, patch);
    PatchedLists(m, patch);
    PatchedJava(m, patch);
    PatchedRest(m, patch);
  }

  /** No generated or final Java that is not blank, and no selected candidate. */
  ghost predicate NothingSelected(a: Artifacts) {
    && (a.generatedJava.None? || a.generatedJava.value.IsZero())
    && (a.finalJavaArtifact.None? || a.finalJavaArtifact.value.IsZero())
    && forall c :: c in a.generatedJavaArtifacts ==> !c.selected
  }

  lemma SelectionMeans(a: Artifacts)
    ensures BlockedArtifactsOk(a) <==> NothingSelected(a)
  {
  }

  /** What is left of the checks once the derived fields are computed. */
  lemma {:induction false} CheckedIff(env: Screens, m: Manifest, blocked: bool)
    ensures Checked(env, Derive(m, blocked), blocked).Ok? <==>
            && IsPackId(m.packId) && m.runId != "" && m.createdAt != 0
            && ManualEditsConsistent(m.carriedOver, m.driftRegionCount, m.artifacts.manualEditOverlay)
            && ValidShape(env, m.artifacts)
            && (blocked && m.wave.W02? ==> NothingSelected(m.artifacts))
  {
    SelectionMeans(m.artifacts);
    DerivedAgree(m, blocked);
  }

  lemma {:induction false} DerivedAgree(m: Manifest, blocked: bool)
    ensures var d := Derive(m, blocked);
            && d == m.(status := d.status, completeness := d.completeness, classification := d.classification,
                       validation := d.validation)
            && d.validation.completeness == d.completeness
            && (d.classification.Success? ==> d.completeness.CompleteEvidence?)
            && (d.completeness.BlockedRun? ==> d.classification.Blocked?)
  {
  }

  /** A creation is accepted exactly when it names a run and a known wave, has an instant, an identifier of
      the right shape, manual-edit fields that agree and well-formed artifacts, and, when it is a blocked
      W0.2 run, selects no Java. */
  lemma {:induction false} CreateAcceptsIff(env: Screens, st: StoreState, input: CreateInput, now: int)
    ensures Step(env, st, Create(input, now)).1.Ok? <==>
            && input.runId != "" && input.wave in {"", "w0", "w0.2"} && now != 0
            && IsPackId(PackId(input.runId, st.seqNo + 1))
            && ManualEditsConsistent(input.carriedOver, input.driftRegionCount, input.artifacts.manualEditOverlay)
            && ValidShape(env, input.artifacts)
            && (input.blocked && input.wave == "w0.2" ==> NothingSelected(input.artifacts))
  {
    var wave := WaveOf(input.wave);
    if input.runId != "" && wave.Some? {
      CheckedIff(env, NewManifest(input, wave.value, PackId(input.runId, st.seqNo + 1), now), input.blocked);
    }
  }

  /** A refused creation says why, keeps every pack, and uses up a number once run and wave are known. */
  lemma {:induction false} CreateRefusals(env: Screens, st: StoreState, input: CreateInput, now: int)
    ensures var (after, r) := Step(env, st, Create(input, now));
            r.Err? ==>
              && after.packs == st.packs
              && (if input.runId == "" then r.error == RunIdRequired
                  else if input.wave !in {"", "w0", "w0.2"} then r.error == UnknownWave
                  else if input.blocked && input.wave == "w0.2" && !NothingSelected(input.artifacts)
                  then r.error == BlockedArtifact
                  else r.error == InvalidManifest)
              && (after.seqNo == st.seqNo + if r.error in {RunIdRequired, UnknownWave} then 0 else 1)
  {
    SelectionMeans(input.artifacts);
  }

  /** What an update would store is determined by the pack and the patch. */
  lemma {:induction false} UpdatedDetermines(m: Manifest, patch: PatchInput, n: Manifest, o: Manifest)
    requires Updated(m, patch, n) && Updated(m, patch, o)
    ensures n.artifacts == o.artifacts && n.carriedOver == o.carriedOver && n.driftRegionCount == o.driftRegionCount
  {
    var a, b := n.artifacts, o.artifacts;
    assert a.generatedJavaArtifacts == b.generatedJavaArtifacts;
    assert a.sourceMetadata == b.sourceMetadata && a.corpusMetadata == b.corpusMetadata && a.parseOutput == b.parseOutput;
    assert a.semanticIr == b.semanticIr && a.oracleComparison == b.oracleComparison && a.runtimeVersion == b.runtimeVersion;
    assert a.harnessEvents == b.harnessEvents && a.trajectoryLedger == b.trajectoryLedger;
    assert a.assistDecision == b.assistDecision && a.budgetSummary == b.budgetSummary;
    assert a.generatedJava == b.generatedJava && a.finalJavaArtifact == b.finalJavaArtifact;
    assert a.manualEditOverlay == b.manualEditOverlay;
  }

  /** A patch that says nothing about blocking leaves the pack as it is. */
  predicate BlockedNow(m: Manifest, patch: PatchInput) {
    match patch.blocked
    case Some(b) => b
    case None => m.classification.Blocked?
  }

  /** An update of a stored pack is accepted exactly when what it would store has manual-edit fields that
      agree and well-formed artifacts and, when it is then a blocked W0.2 pack, selects no Java. */
  lemma {:induction false} UpdateAcceptsIff(env: Screens, st: StoreState, id: string, patch: PatchInput, n: Manifest)
    requires StoreInv(env, st) && id in st.packs && Updated(st.packs[id], patch, n)
    ensures Step(env, st, Update(id, patch)).1.Ok? <==>
            && ManualEditsConsistent(n.carriedOver, n.driftRegionCount, n.artifacts.manualEditOverlay)
            && ValidShape(env, n.artifacts)
            && (BlockedNow(st.packs[id], patch) && st.packs[id].wave.W02? ==> NothingSelected(n.artifacts))
  {
    var m := st.packs[id];
    var would := Patched(m, patch);
    assert GoodEntry(env, st, id);
    PatchedFields(m, patch);
    PatchedLists(m, patch);
    PatchedJava(m, patch);
    PatchedRest(m, patch);
    assert Updated(m, patch, Derive(would, BlockedAfter(m, patch)));
    UpdatedDetermines(m, patch, n, Derive(would, BlockedAfter(m, patch)));
    CheckedIff(env, would, BlockedAfter(m, patch));
  }

  /** A call for a pack that is not there is refused as such. */
  lemma UnknownPackIsRefused(env: Screens, st: StoreState, id: string, patch: PatchInput)
    ensures id !in st.packs <==> Step(env, st, Update(id, patch)).1 == Err(PackNotFound)
  {
  }

  /** An export record is appended and nothing else changes. */
  lemma ExportStores(env: Screens, st: StoreState, id: string, record: ExportRecord)
    ensures var (after, r) := Step(env, st, RecordExport(id, record));
            if id in st.packs then
              && r == Ok(st.packs[id].(exports := st.packs[id].exports + [record]))
              && after.packs == st.packs[id := r.value]
            else r == Err(PackNotFound) && after == st
  {
  }

  // ----- over runs -----

  /** The patches of one pack that a run accepts, in order. */
  function Patches(env: Screens, st: StoreState, ops: seq<Op>, id: string): seq<PatchInput>
    decreases |ops|
  {
    if ops == [] then []
    else
      var p := PatchOf(env, st, ops[0], id);
      (if p.Some? then [p.value] else []) + Patches(env, Step(env, st, ops[0]).0, ops[1..], id)
  }

  /** What one patch does to a field: nothing, or setting it to a value or to none. */
  type Setting<T> = PatchInput -> Option<Option<T>>

  /** The value after some patches: the last one that any of them set. */
  function LastSet<T>(start: Option<T>, patches: seq<PatchInput>, sets: Setting<T>): Option<T>
    decreases |patches|
  {
    if patches == [] then start
    else
      var s := sets(patches[0]);
      LastSet(if s.Some? then s.value else start, patches[1..], sets)
  }

  /** A field that patches can only set. */
  function Sets<T>(field: Artifacts -> Option<T>): Setting<T> {
    (patch: PatchInput) => if field(ArtifactsOf(patch)).Some? then Some(field(ArtifactsOf(patch))) else None
  }

  /** A field that blocking a W0.2 pack clears. */
  function SetsUnblocked<T>(wave: Wave, field: Artifacts -> Option<T>): Setting<T> {
    (patch: PatchInput) =>
      if patch.blocked == Some(true) && wave.W02? then Some(None)
      else if field(ArtifactsOf(patch)).Some? then Some(field(ArtifactsOf(patch))) else None
  }

  /** The overlay, which a patch without carried-over edits clears. */
  function SetsOverlay(): Setting<ManualEditOverlayRef> {
    (patch: PatchInput) =>
      if patch.carriedOver == Some(false) then Some(None)
      else if ArtifactsOf(patch).manualEditOverlay.Some? then Some(ArtifactsOf(patch).manualEditOverlay) else None
  }

  /** A field follows its settings when every successful update does what its patch says. */
  ghost predicate Follows<T(!new)>(wave: Wave, field: Artifacts -> Option<T>, sets: Setting<T>) {
    forall m: Manifest, patch: PatchInput, n: Manifest :: m.wave == wave && Updated(m, patch, n) ==>
      field(n.artifacts) == var s := sets(patch); if s.Some? then s.value else field(m.artifacts)
  }

  lemma StepKeepsPlace(env: Screens, st: StoreState, op: Op, id: string)
    requires StoreInv(env, st) && id in st.packs
    ensures id in Step(env, st, op).0.packs && Step(env, st, op).0.packs[id].wave == st.packs[id].wave
    ensures StoreInv(env, Step(env, st, op).0)
  {
    StepExtends(env, st, op, id);
    StepKeepsInv(env, st, op);
  }

  /** The patch of one call when it is an accepted update of the pack. */
  function PatchOf(env: Screens, st: StoreState, op: Op, id: string): Option<PatchInput> {
    if op.Update? && op.packId == id && Step(env, st, op).1.Ok? then Some(op.patch) else None
  }

  lemma PatchesFirst(env: Screens, st: StoreState, ops: seq<Op>, id: string)
    requires ops != []
    ensures var p, rest := PatchOf(env, st, ops[0], id), Patches(env, Step(env, st, ops[0]).0, ops[1..], id);
            Patches(env, st, ops, id) == if p.Some? then [p.value] + rest else rest
  {
    var rest := Patches(env, Step(env, st, ops[0]).0, ops[1..], id);
    assert [] + rest == rest;
  }

  lemma LastSetFirst<T>(start: Option<T>, patch: PatchInput, rest: seq<PatchInput>, sets: Setting<T>)
    ensures LastSet(start, [patch] + rest, sets) ==
            LastSet(var s := sets(patch); if s.Some? then s.value else start, rest, sets)
  {
    assert ([patch] + rest)[1..] == rest;
  }

  lemma {:induction false} StepFollows<T(!new)>(
    env: Screens, st: StoreState, op: Op, id: string, field: Artifacts -> Option<T>, sets: Setting<T>)
    requires StoreInv(env, st) && id in st.packs && Follows(st.packs[id].wave, field, sets)
    ensures id in Step(env, st, op).0.packs
    ensures var p, before := PatchOf(env, st, op, id), field(st.packs[id].artifacts);
            field(Step(env, st, op).0.packs[id].artifacts) ==
            if p.Some? && sets(p.value).Some? then sets(p.value).value else before
  {
    StepCases(env, st, op, id);
    if op.Update? && op.packId == id && Step(env, st, op).1.Ok? {
      UpdateStores(env, st, id, op.patch);
      assert Updated(st.packs[id], op.patch, Step(env, st, op).0.packs[id]);
    }
  }

  lemma {:induction false} RunFollows<T(!new)>(
    env: Screens, st: StoreState, ops: seq<Op>, id: string, wave: Wave, field: Artifacts -> Option<T>, sets: Setting<T>)
    requires StoreInv(env, st) && id in st.packs && st.packs[id].wave == wave && Follows(wave, field, sets)
    ensures id in Run(env, st, ops).packs
    ensures field(Run(env, st, ops).packs[id].artifacts) ==
            LastSet(field(st.packs[id].artifacts), Patches(env, st, ops, id), sets)
    decreases |ops|
  {
    if ops != [] {
      var op, next := ops[0], Step(env, st, ops[0]).0;
      StepKeepsPlace(env, st, op, id);
      StepFollows(env, st, op, id, field, sets);
      RunFollows(env, next, ops[1..], id, wave, field, sets);
      PatchesFirst(env, st, ops, id);
      var p := PatchOf(env, st, op, id);
      if p.Some? {
        LastSetFirst(field(st.packs[id].artifacts), p.value, Patches(env, next, ops[1..], id), sets);
      }
    }
  }

  // ----- the fields of a pack -----

  /** The single references that calls never clear. */
  datatype Slot = MetadataSlot | CorpusSlot | ParseSlot | IrSlot | EventsSlot | LedgerSlot

  function RefOf(a: Artifacts, slot: Slot): Option<DataReference> {
    match slot
    case MetadataSlot => a.sourceMetadata
    case CorpusSlot => a.corpusMetadata
    case ParseSlot => a.parseOutput
    case IrSlot => a.semanticIr
    case EventsSlot => a.harnessEvents
    case LedgerSlot => a.trajectoryLedger
  }

  function Ref(slot: Slot): Artifacts -> Option<DataReference> {
    (a: Artifacts) => RefOf(a, slot)
  }

  const ORACLE: Artifacts -> Option<OracleComparison> := (a: Artifacts) => a.oracleComparison
  const RUNTIME: Artifacts -> Option<RuntimeVersion> := (a: Artifacts) => a.runtimeVersion
  const DECISION: Artifacts -> Option<AssistDecision> := (a: Artifacts) => a.assistDecision
  const BUDGETS: Artifacts -> Option<BudgetSummary> := (a: Artifacts) => a.budgetSummary
  const GENERATED: Artifacts -> Option<DataReference> := (a: Artifacts) => a.generatedJava
  const FINAL: Artifacts -> Option<JavaCandidateRef> := (a: Artifacts) => a.finalJavaArtifact
  const OVERLAY: Artifacts -> Option<ManualEditOverlayRef> := (a: Artifacts) => a.manualEditOverlay

  /** A field of a pack after some calls, told by the accepted patches alone. */
  ghost predicate IsLastSet<T(!new)>(
    env: Screens, st: StoreState, ops: seq<Op>, id: string, field: Artifacts -> Option<T>, sets: Setting<T>)
  {
    && id in st.packs && id in Run(env, st, ops).packs
    && field(Run(env, st, ops).packs[id].artifacts) ==
       LastSet(field(st.packs[id].artifacts), Patches(env, st, ops, id), sets)
  }

  lemma {:induction false} GeneratedFollows(wave: Wave)
    ensures Follows(wave, GENERATED, SetsUnblocked(wave, GENERATED))
  {
  }

  lemma {:induction false} FinalFollows(wave: Wave)
    ensures Follows(wave, FINAL, SetsUnblocked(wave, FINAL))
  {
  }

  lemma {:induction false} OverlayFollows(wave: Wave)
    ensures Follows(wave, OVERLAY, SetsOverlay())
  {
  }

  lemma {:induction false} OutcomesFollow(wave: Wave)
    ensures Follows(wave, ORACLE, Sets(ORACLE)) && Follows(wave, RUNTIME, Sets(RUNTIME))
  {
  }

  lemma {:induction false} LineageFollows(wave: Wave)
    ensures Follows(wave, DECISION, Sets(DECISION)) && Follows(wave, BUDGETS, Sets(BUDGETS))
  {
  }

  /** After any calls each reference of a stored pack is the last one that an accepted patch brought. */
  lemma {:induction false} ReferencesAreTheLastBrought(env: Screens, st: StoreState, ops: seq<Op>, id: string, slot: Slot)
    requires EvidenceInvariants.Reachable(env, st) && id in st.packs
    ensures IsLastSet(env, st, ops, id, Ref(slot), Sets(Ref(slot)))
  {
    ReachableInv(env, st);
    RunFollows(env, st, ops, id, st.packs[id].wave, Ref(slot), Sets(Ref(slot)));
  }

  /** So is each of the records. */
  lemma {:induction false} RecordsAreTheLastBrought(env: Screens, st: StoreState, ops: seq<Op>, id: string)
    requires EvidenceInvariants.Reachable(env, st) && id in st.packs
    ensures IsLastSet(env, st, ops, id, ORACLE, Sets(ORACLE)) && IsLastSet(env, st, ops, id, RUNTIME, Sets(RUNTIME))
    ensures IsLastSet(env, st, ops, id, DECISION, Sets(DECISION)) && IsLastSet(env, st, ops, id, BUDGETS, Sets(BUDGETS))
  {
    ReachableInv(env, st);
    var wave := st.packs[id].wave;
    OutcomesFollow(wave);
    LineageFollows(wave);
    RunFollows(env, st, ops, id, wave, ORACLE, Sets(ORACLE));
    RunFollows(env, st, ops, id, wave, RUNTIME, Sets(RUNTIME));
    RunFollows(env, st, ops, id, wave, DECISION, Sets(DECISION));
    RunFollows(env, st, ops, id, wave, BUDGETS, Sets(BUDGETS));
  }

  /** The selected Java and the overlay are the last ones brought, too, unless a later patch blocked the
      W0.2 pack or said that no edits were carried over. */
  lemma {:induction false} ClearableFieldsAreTheLastSet(env: Screens, st: StoreState, ops: seq<Op>, id: string)
    requires EvidenceInvariants.Reachable(env, st) && id in st.packs
    ensures var wave := st.packs[id].wave;
            && IsLastSet(env, st, ops, id, GENERATED, SetsUnblocked(wave, GENERATED))
            && IsLastSet(env, st, ops, id, FINAL, SetsUnblocked(wave, FINAL))
            && IsLastSet(env, st, ops, id, OVERLAY, SetsOverlay())
  {
    ReachableInv(env, st);
    var wave := st.packs[id].wave;
    GeneratedFollows(wave);
    FinalFollows(wave);
    OverlayFollows(wave);
    RunFollows(env, st, ops, id, wave, GENERATED, SetsUnblocked(wave, GENERATED));
    RunFollows(env, st, ops, id, wave, FINAL, SetsUnblocked(wave, FINAL));
    RunFollows(env, st, ops, id, wave, OVERLAY, SetsOverlay());
  }
}
