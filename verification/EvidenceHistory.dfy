/**
 What a sequence of calls can and cannot do to a pack: evidence accrues, a complete W0 pack
 stays complete, a blocked pack stays blocked until it is unblocked.
 */
module EvidenceHistory {
  import opened Prelude
  import opened EvidenceManifest
  import opened EvidenceCompleteness
  import opened EvidenceStore
  import opened EvidenceInvariants

  // ----- evidence accrues -----

  function Deselect(c: JavaCandidateRef): JavaCandidateRef {
    c.(selected := false)
  }

  /** The same candidates in the same places, apart from their selection, and possibly more. */
  ghost predicate CandidatesKept(before: seq<JavaCandidateRef>, after: seq<JavaCandidateRef>) {
    && |before| <= |after|
    && forall i :: 0 <= i < |before| ==> Deselect(after[i]) == Deselect(before[i])
  }

  /** A field that is set stays set, to the old or to a newer value. */
  predicate StaysSet<T>(before: Option<T>, after: Option<T>) {
    before.Some? ==> after.Some?
  }

  /** The single fields that no call clears. */
  predicate FieldsKept(a: Artifacts, b: Artifacts) {
    && StaysSet(a.sourceMetadata, b.sourceMetadata)
    && StaysSet(a.corpusMetadata, b.corpusMetadata)
    && StaysSet(a.parseOutput, b.parseOutput)
    && StaysSet(a.semanticIr, b.semanticIr)
    && StaysSet(a.oracleComparison, b.oracleComparison)
    && StaysSet(a.runtimeVersion, b.runtimeVersion)
    && StaysSet(a.harnessEvents, b.harnessEvents)
    && StaysSet(a.trajectoryLedger, b.trajectoryLedger)
    && StaysSet(a.assistDecision, b.assistDecision)
    && StaysSet(a.budgetSummary, b.budgetSummary)
  }

  /** The identity of a pack never changes, its lists only grow at the end. */
  ghost predicate ListsGrow(m: Manifest, n: Manifest) {
    && n.packId == m.packId && n.runId == m.runId && n.workflowId == m.workflowId && n.wave == m.wave
    && n.createdAt == m.createdAt && n.createdBy == m.createdBy
    && m.openAssumptions <= n.openAssumptions
    && m.unsupportedFeatures <= n.unsupportedFeatures
    && m.exports <= n.exports
    && m.artifacts.sourceCobol <= n.artifacts.sourceCobol
    && m.artifacts.transformationPasses <= n.artifacts.transformationPasses
    && CandidatesKept(m.artifacts.generatedJavaArtifacts, n.artifacts.generatedJavaArtifacts)
    && m.artifacts.repairAttempts <= n.artifacts.repairAttempts
    && m.artifacts.agentTrajectories <= n.artifacts.agentTrajectories
    && m.artifacts.modelInvocations <= n.artifacts.modelInvocations
    && m.artifacts.buildTestResults <= n.artifacts.buildTestResults
    && m.artifacts.sbom <= n.artifacts.sbom
    && m.artifacts.licenseReports <= n.artifacts.licenseReports
    && m.artifacts.experienceEvents <= n.artifacts.experienceEvents
  }

  /** A pack extends another one: its lists have grown and what was set is set. */
  ghost predicate Extends(m: Manifest, n: Manifest) {
    ListsGrow(m, n) && FieldsKept(m.artifacts, n.artifacts)
  }

  lemma ExtendsTransitive(m: Manifest, n: Manifest, o: Manifest)
    requires Extends(m, n) && Extends(n, o)
    ensures Extends(m, o)
  {
    var a, b, c := m.artifacts.generatedJavaArtifacts, n.artifacts.generatedJavaArtifacts, o.artifacts.generatedJavaArtifacts;
    forall i | 0 <= i < |a| ensures Deselect(c[i]) == Deselect(a[i]) {
      assert Deselect(b[i]) == Deselect(a[i]);
    }
  }

  lemma {:induction false} MergeKeepsFields(a: Artifacts, src: Artifacts)
    ensures FieldsKept(a, Merge(a, src))
  {
  }

  lemma {:induction false} NormalizeKeepsFields(a: Artifacts, b: Artifacts)
    requires FieldsKept(a, b)
    ensures FieldsKept(a, NormalizeBlocked(b)) && FieldsKept(a, b.(manualEditOverlay := None))
  {
  }

  /** Clearing the overlay and blocking leave the other fields alone. */
  lemma {:induction false} PatchedKeepsFields(m: Manifest, patch: PatchInput)
    ensures FieldsKept(m.artifacts, Patched(m, patch).artifacts)
  {
    var a := m.artifacts;
    var merged := if patch.artifacts.Some? then Merge(a, patch.artifacts.value) else a;
    var kept := if patch.carriedOver == Some(false) then merged.(manualEditOverlay := None) else merged;
    assert FieldsKept(a, merged) by {
      if patch.artifacts.Some? {
        MergeKeepsFields(a, patch.artifacts.value);
      }
    }
    assert FieldsKept(a, kept) by {
      NormalizeKeepsFields(a, merged);
    }
    NormalizeKeepsFields(a, kept);
  }

  lemma {:induction false} PatchedListsGrow(m: Manifest, patch: PatchInput)
    ensures ListsGrow(m, Patched(m, patch))
  {
    var n := Patched(m, patch);
    var merged := if patch.artifacts.Some? then Merge(m.artifacts, patch.artifacts.value) else m.artifacts;
    assert m.artifacts.generatedJavaArtifacts <= merged.generatedJavaArtifacts;
    assert n.artifacts.generatedJavaArtifacts == merged.generatedJavaArtifacts
           || n.artifacts.generatedJavaArtifacts == Deselected(merged.generatedJavaArtifacts);
  }

  lemma PatchedExtends(m: Manifest, patch: PatchInput)
    ensures Extends(m, Patched(m, patch))
  {
    PatchedListsGrow(m, patch);
    PatchedKeepsFields(m, patch);
  }

  /** Recomputing the derived fields leaves everything else alone. */
  lemma DeriveExtends(m: Manifest, blocked: bool)
    ensures Extends(m, Derive(m, blocked))
    ensures Derive(m, blocked).artifacts == m.artifacts
    ensures Derive(m, blocked).classification.Blocked? <==> blocked
  {
  }

  /** What one call can do to one pack: nothing, an export record, or a checked patch. */
  lemma {:induction false} StepCases(env: Screens, st: StoreState, op: Op, id: string)
    requires StoreInv(env, st) && id in st.packs
    ensures id in Step(env, st, op).0.packs
    ensures var m, n := st.packs[id], Step(env, st, op).0.packs[id];
            || n == m
            || (op.RecordExport? && n == m.(exports := m.exports + [op.record]))
            || (op.Update? && op.packId == id
                && n == Derive(Patched(m, op.patch), BlockedAfter(m, op.patch)))
  {
    if op.Create? {
      NextIdIsFresh(env, st, op.input.runId);
    }
  }

  /** No call removes a pack, and every pack after a call extends the one before. */
  lemma StepExtends(env: Screens, st: StoreState, op: Op, id: string)
    requires StoreInv(env, st) && id in st.packs
    ensures id in Step(env, st, op).0.packs
    ensures Extends(st.packs[id], Step(env, st, op).0.packs[id])
  {
    StepCases(env, st, op, id);
    var m := st.packs[id];
    if op.Update? {
      PatchedExtends(m, op.patch);
      DeriveExtends(Patched(m, op.patch), BlockedAfter(m, op.patch));
      ExtendsTransitive(m, Patched(m, op.patch), Derive(Patched(m, op.patch), BlockedAfter(m, op.patch)));
    }
  }

  lemma {:induction false} RunExtends(env: Screens, st: StoreState, ops: seq<Op>, id: string)
    requires StoreInv(env, st) && id in st.packs
    ensures id in Run(env, st, ops).packs
    ensures Extends(st.packs[id], Run(env, st, ops).packs[id])
    decreases |ops|
  {
    if ops != [] {
      var next := Step(env, st, ops[0]).0;
      StepKeepsInv(env, st, ops[0]);
      StepExtends(env, st, ops[0], id);
      RunExtends(env, next, ops[1..], id);
      ExtendsTransitive(st.packs[id], next.packs[id], Run(env, st, ops).packs[id]);
    }
  }

  // ----- what blocking and clearing take away -----

  /** The generated and final Java stay set and no candidate loses its selection. */
  predicate SelectionKept(m: Manifest, n: Manifest) {
    && StaysSet(m.artifacts.generatedJava, n.artifacts.generatedJava)
    && StaysSet(m.artifacts.finalJavaArtifact, n.artifacts.finalJavaArtifact)
    && m.artifacts.generatedJavaArtifacts <= n.artifacts.generatedJavaArtifacts
  }

  predicate OverlayKept(m: Manifest, n: Manifest) {
    StaysSet(m.artifacts.manualEditOverlay, n.artifacts.manualEditOverlay)
  }

  predicate Blocks(op: Op, id: string) {
    op.Update? && op.packId == id && op.patch.blocked == Some(true)
  }

  predicate ClearsOverlay(op: Op, id: string) {
    op.Update? && op.packId == id && op.patch.carriedOver == Some(false)
  }

  lemma StepKeepsFields(env: Screens, st: StoreState, op: Op, id: string)
    requires StoreInv(env, st) && id in st.packs
    ensures id in Step(env, st, op).0.packs
    ensures var m, n := st.packs[id], Step(env, st, op).0.packs[id];
            && n.wave == m.wave
            && (m.wave.W0? || !Blocks(op, id) ==> SelectionKept(m, n))
            && (!ClearsOverlay(op, id) ==> OverlayKept(m, n))
  {
    StepCases(env, st, op, id);
    var m := st.packs[id];
    if op.Update? {
      DeriveExtends(Patched(m, op.patch), BlockedAfter(m, op.patch));
    }
  }

  lemma {:induction false} RunKeepsSelection(env: Screens, st: StoreState, ops: seq<Op>, id: string)
    requires StoreInv(env, st) && id in st.packs
    requires st.packs[id].wave.W0? || forall i :: 0 <= i < |ops| ==> !Blocks(ops[i], id)
    ensures id in Run(env, st, ops).packs && SelectionKept(st.packs[id], Run(env, st, ops).packs[id])
    decreases |ops|
  {
    if ops != [] {
      StepKeepsInv(env, st, ops[0]);
      StepKeepsFields(env, st, ops[0], id);
      RunKeepsSelection(env, Step(env, st, ops[0]).0, ops[1..], id);
    }
  }

  lemma {:induction false} RunKeepsOverlay(env: Screens, st: StoreState, ops: seq<Op>, id: string)
    requires StoreInv(env, st) && id in st.packs
    requires forall i :: 0 <= i < |ops| ==> !ClearsOverlay(ops[i], id)
    ensures id in Run(env, st, ops).packs && OverlayKept(st.packs[id], Run(env, st, ops).packs[id])
    decreases |ops|
  {
    if ops != [] {
      StepKeepsInv(env, st, ops[0]);
      StepKeepsFields(env, st, ops[0], id);
      RunKeepsOverlay(env, Step(env, st, ops[0]).0, ops[1..], id);
    }
  }

  /** Evidence accrues: after any calls a pack of a reachable store is still there, its lists have
      only grown and its fields are still set; the selected Java goes only by blocking a W0.2
      pack and the overlay only by clearing it. */
  lemma EvidenceAccrues(env: Screens, st: StoreState, ops: seq<Op>, id: string)
    requires Reachable(env, st) && id in st.packs
    ensures id in Run(env, st, ops).packs
    ensures Extends(st.packs[id], Run(env, st, ops).packs[id])
    ensures st.packs[id].wave.W0? || (forall i :: 0 <= i < |ops| ==> !Blocks(ops[i], id)) ==>
              SelectionKept(st.packs[id], Run(env, st, ops).packs[id])
    ensures (forall i :: 0 <= i < |ops| ==> !ClearsOverlay(ops[i], id)) ==>
              OverlayKept(st.packs[id], Run(env, st, ops).packs[id])
  {
    ReachableInv(env, st);
    RunExtends(env, st, ops, id);
    if st.packs[id].wave.W0? || forall i :: 0 <= i < |ops| ==> !Blocks(ops[i], id) {
      RunKeepsSelection(env, st, ops, id);
    }
    if forall i :: 0 <= i < |ops| ==> !ClearsOverlay(ops[i], id) {
      RunKeepsOverlay(env, st, ops, id);
    }
  }

  // ----- failed calls -----

  /** A failed call leaves every pack as it was; a successful one changes exactly the pack it returns. */
  ghost predicate TouchesOnePack(st: StoreState, after: StoreState, r: Result<Manifest>) {
    after.packs == if r.Ok? then st.packs[r.value.packId := r.value] else st.packs
  }

  lemma {:induction false} CreateTouchesNewPack(env: Screens, st: StoreState, input: CreateInput, now: int)
    requires StoreInv(env, st)
    ensures var (after, r) := CreateStep(env, st, input, now);
            TouchesOnePack(st, after, r) && (r.Ok? ==> r.value.packId !in st.packs)
  {
    NextIdIsFresh(env, st, input.runId);
  }

  lemma UpdateTouchesItsPack(env: Screens, st: StoreState, packId: string, patch: PatchInput)
    requires StoreInv(env, st)
    ensures var (after, r) := UpdateStep(env, st, packId, patch);
            TouchesOnePack(st, after, r) && after.seqNo == st.seqNo && (r.Ok? ==> r.value.packId == packId)
  {
    assert GoodEntry(env, st, packId);
  }

  lemma CallsTouchOnePack(env: Screens, st: StoreState, op: Op)
    requires Reachable(env, st)
    ensures TouchesOnePack(st, Step(env, st, op).0, Step(env, st, op).1)
    ensures op.Create? && Step(env, st, op).1.Ok? ==> Step(env, st, op).1.value.packId !in st.packs
  {
    ReachableInv(env, st);
    match op
    case Create(input, now) => CreateTouchesNewPack(env, st, input, now);
    case Update(packId, patch) => UpdateTouchesItsPack(env, st, packId, patch);
    case RecordExport(packId, record) => assert GoodEntry(env, st, packId);
  }

  // ----- a complete W0 pack stays complete -----

  lemma W0Ok(env: Screens, m: Manifest)
    requires Coherent(env, m) && m.wave.W0?
    ensures m.validation.ok <==> AllPresent0(m.artifacts)
  {
    OverlayNeverMissing(env, m);
    NoPresenceGaps(m.artifacts);
  }

  lemma LatestKeepsPresence(env: Screens, before: Option<DataReference>, patch: Option<DataReference>)
    requires Present(before) && ValidIfPresent(env, Latest(before, patch))
    ensures Present(Latest(before, patch))
  {
  }

  lemma PatchKeepsPresence(env: Screens, m: Manifest, patch: PatchInput)
    requires m.wave.W0? && AllPresent0(m.artifacts) && ValidShape(env, Patched(m, patch).artifacts)
    ensures AllPresent0(Patched(m, patch).artifacts)
  {
    if patch.artifacts.Some? {
      var src := patch.artifacts.value;
      LatestKeepsPresence(env, m.artifacts.semanticIr, src.semanticIr);
      LatestKeepsPresence(env, m.artifacts.generatedJava, src.generatedJava);
      LatestKeepsPresence(env, m.artifacts.harnessEvents, src.harnessEvents);
    }
  }

  lemma StepKeepsW0Ok(env: Screens, st: StoreState, op: Op, id: string)
    requires StoreInv(env, st) && id in st.packs && st.packs[id].wave.W0? && st.packs[id].validation.ok
    ensures id in Step(env, st, op).0.packs
    ensures Step(env, st, op).0.packs[id].wave.W0? && Step(env, st, op).0.packs[id].validation.ok
  {
    var after := Step(env, st, op).0;
    var m := st.packs[id];
    StepCases(env, st, op, id);
    StepKeepsInv(env, st, op);
    assert GoodEntry(env, st, id) && GoodEntry(env, after, id);
    W0Ok(env, m);
    W0Ok(env, after.packs[id]);
    if op.Update? && op.packId == id && after.packs[id] != m {
      DeriveExtends(Patched(m, op.patch), BlockedAfter(m, op.patch));
      PatchKeepsPresence(env, m, op.patch);
    }
  }

  lemma {:induction false} RunKeepsW0Ok(env: Screens, st: StoreState, ops: seq<Op>, id: string)
    requires StoreInv(env, st) && id in st.packs && st.packs[id].wave.W0? && st.packs[id].validation.ok
    ensures id in Run(env, st, ops).packs && Run(env, st, ops).packs[id].validation.ok
    decreases |ops|
  {
    if ops != [] {
      StepKeepsW0Ok(env, st, ops[0], id);
      StepKeepsInv(env, st, ops[0]);
      RunKeepsW0Ok(env, Step(env, st, ops[0]).0, ops[1..], id);
    }
  }

  /** Once the validation of a W0 pack is OK, no later call makes it fail. */
  lemma W0StaysOk(env: Screens, st: StoreState, ops: seq<Op>, id: string)
    requires Reachable(env, st) && id in st.packs && st.packs[id].wave.W0? && st.packs[id].validation.ok
    ensures id in Run(env, st, ops).packs && Run(env, st, ops).packs[id].validation.ok
  {
    ReachableInv(env, st);
    RunKeepsW0Ok(env, st, ops, id);
  }

  // ----- when a W0.2 pack keeps its required artifacts -----

  /** A patch may replace the comparison, the decision or the budgets by an empty record, which
      validation lets pass. */
  predicate Empties(patch: PatchInput) {
    && patch.artifacts.Some?
    && var src := patch.artifacts.value;
       || (src.oracleComparison.Some? && src.oracleComparison.value.IsZero())
       || (src.assistDecision.Some? && src.assistDecision.value.IsZero())
       || (src.budgetSummary.Some? && src.budgetSummary.value.IsZero())
  }

  predicate TakesAway(op: Op, id: string) {
    op.Update? && op.packId == id && (op.patch.blocked == Some(true) || Empties(op.patch))
  }

  /** The fifteen required artifacts of a W0.2 pack survive a patch exactly when it neither blocks
      nor brings an empty record. */
  lemma {:induction false} PatchKeepsRequired(env: Screens, m: Manifest, patch: PatchInput)
    requires m.wave.W02? && AllPresent2(m.artifacts) && ValidShape(env, Patched(m, patch).artifacts)
    ensures AllPresent2(Patched(m, patch).artifacts) <==> patch.blocked != Some(true) && !Empties(patch)
  {
    var n := Patched(m, patch).artifacts;
    PatchedListsGrow(m, patch);
    PatchedKeepsFields(m, patch);
    assert Present(n.sourceMetadata) && Present(n.parseOutput) && Present(n.semanticIr) && Present(n.harnessEvents);
    assert HasRuntime(n);
    if patch.blocked == Some(true) {
      assert n.generatedJava == None;
    } else {
      assert StaysSet(m.artifacts.generatedJava, n.generatedJava) && Present(n.generatedJava);
      assert StaysSet(m.artifacts.finalJavaArtifact, n.finalJavaArtifact) && HasFinal(n);
      assert HasOracle(n) && HasDecision(n) && HasBudget(n) <==> !Empties(patch);
    }
  }

  /** So does one call: a successful Update of the pack takes a required artifact away exactly when
      its patch does; every other call leaves them all. */
  lemma {:induction false} StepKeepsRequired(env: Screens, st: StoreState, op: Op, id: string)
    requires StoreInv(env, st) && id in st.packs && st.packs[id].wave.W02? && AllPresent2(st.packs[id].artifacts)
    ensures id in Step(env, st, op).0.packs && Step(env, st, op).0.packs[id].wave.W02?
    ensures AllPresent2(Step(env, st, op).0.packs[id].artifacts) <==>
            !(TakesAway(op, id) && Step(env, st, op).1.Ok?)
  {
    var after := Step(env, st, op).0;
    var m := st.packs[id];
    StepCases(env, st, op, id);
    assert ValidShape(env, after.packs[id].artifacts) by {
      StepKeepsInv(env, st, op);
      assert GoodEntry(env, after, id);
    }
    if op.Update? && op.packId == id && Step(env, st, op).1.Ok? {
      DeriveExtends(Patched(m, op.patch), BlockedAfter(m, op.patch));
      PatchKeepsRequired(env, m, op.patch);
    }
  }

  /** Once a W0.2 pack has its required artifacts, it keeps them as long as no call takes one away. */
  lemma {:induction false} RequiredStay(env: Screens, st: StoreState, ops: seq<Op>, id: string)
    requires StoreInv(env, st) && id in st.packs && st.packs[id].wave.W02? && AllPresent2(st.packs[id].artifacts)
    requires forall i :: 0 <= i < |ops| ==> !TakesAway(ops[i], id)
    ensures id in Run(env, st, ops).packs && AllPresent2(Run(env, st, ops).packs[id].artifacts)
    decreases |ops|
  {
    if ops != [] {
      StepKeepsRequired(env, st, ops[0], id);
      StepKeepsInv(env, st, ops[0]);
      RequiredStay(env, Step(env, st, ops[0]).0, ops[1..], id);
    }
  }

  // ----- blocking -----

  predicate Unblocks(op: Op, id: string) {
    op.Update? && op.packId == id && op.patch.blocked == Some(false)
  }

  lemma StepKeepsBlocked(env: Screens, st: StoreState, op: Op, id: string)
    requires StoreInv(env, st) && id in st.packs && st.packs[id].classification.Blocked? && !Unblocks(op, id)
    ensures id in Step(env, st, op).0.packs && Step(env, st, op).0.packs[id].classification.Blocked?
  {
    StepCases(env, st, op, id);
    if op.Update? {
      DeriveExtends(Patched(st.packs[id], op.patch), BlockedAfter(st.packs[id], op.patch));
    }
  }

  /** A blocked pack stays blocked, hence never a success, until a call unblocks it. */
  lemma {:induction false} BlockedStays(env: Screens, st: StoreState, ops: seq<Op>, id: string)
    requires StoreInv(env, st) && id in st.packs && st.packs[id].classification.Blocked?
    requires forall i :: 0 <= i < |ops| ==> !Unblocks(ops[i], id)
    ensures id in Run(env, st, ops).packs && Run(env, st, ops).packs[id].classification.Blocked?
    decreases |ops|
  {
    if ops != [] {
      StepKeepsBlocked(env, st, ops[0], id);
      StepKeepsInv(env, st, ops[0]);
      BlockedStays(env, Step(env, st, ops[0]).0, ops[1..], id);
    }
  }

  // ----- what the oracle verdict decides -----

  function WithVerdict(a: Artifacts, verdict: bool): Artifacts
    requires a.oracleComparison.Some?
  {
    a.(oracleComparison := Some(a.oracleComparison.value.(matched := verdict)))
  }

  lemma {:induction false} VerdictKeepsAttemptGaps(a: Artifacts, verdict: bool, i: nat)
    requires a.oracleComparison.Some? && i < |a.repairAttempts|
    ensures AttemptGaps(WithVerdict(a, verdict), i) == AttemptGaps(a, i)
  {
  }

  lemma {:induction false} VerdictKeepsAttempts(a: Artifacts, verdict: bool)
    requires a.oracleComparison.Some?
    ensures AttemptGapLists(WithVerdict(a, verdict)) == AttemptGapLists(a)
  {
    forall i | 0 <= i < |a.repairAttempts|
      ensures AttemptGaps(WithVerdict(a, verdict), i) == AttemptGaps(a, i)
    {
      VerdictKeepsAttemptGaps(a, verdict, i);
    }
  }

  lemma {:induction false} VerdictKeepsIntegrity(a: Artifacts, verdict: bool)
    requires a.oracleComparison.Some?
    ensures IntegrityGaps(WithVerdict(a, verdict)) == IntegrityGaps(a)
  {
    var b := WithVerdict(a, verdict);
    assert RoleGaps(b) == RoleGaps(a) && CandidateGaps(b) == CandidateGaps(a);
    assert GeneratedGaps(b) == GeneratedGaps(a) && BudgetGaps(b) == BudgetGaps(a) && DecisionGaps(b) == DecisionGaps(a);
    VerdictKeepsAttempts(a, verdict);
  }

  /** The documentation of OracleComparison says that matched=false rules out success. The code reads
      the verdict only to tell whether the comparison is there at all: the verdict changes the gaps
      of a W0.2 pack exactly when it changes that, and never those of a W0 pack. */
  lemma {:induction false} VerdictCountsAsPresence(a: Artifacts, verdict: bool)
    requires a.oracleComparison.Some?
    ensures WaveGaps(WithVerdict(a, verdict), W0) == WaveGaps(a, W0)
    ensures WaveGaps(WithVerdict(a, verdict), W02) == WaveGaps(a, W02) <==>
            (HasOracle(a) <==> HasOracle(WithVerdict(a, verdict)))
  {
    var b := WithVerdict(a, verdict);
    VerdictKeepsIntegrity(a, verdict);
    assert CodeGaps(b) == CodeGaps(a) && RunGaps(b) == RunGaps(a);
    var gaps, others := WaveGaps(a, W02), |CodeGaps(a)| + |RunGaps(a)| + |IntegrityGaps(a)|;
    assert |gaps| == others + if HasOracle(a) then 0 else 1;
    assert |WaveGaps(b, W02)| == others + if HasOracle(b) then 0 else 1;
  }

  /** The comparison holds nothing but its verdict. */
  predicate OnlyVerdict(o: OracleComparison) {
    o.(matched := false).IsZero()
  }

  /** So matched=false rules out success exactly for a comparison that holds nothing else. */
  lemma MismatchRulesOutIffOnlyVerdict(a: Artifacts)
    requires a.oracleComparison.Some?
    ensures WaveGaps(WithVerdict(a, false), W02) == [] <==>
            WaveGaps(WithVerdict(a, true), W02) == [] && !OnlyVerdict(a.oracleComparison.value)
  {
    var yes := WithVerdict(a, true);
    VerdictCountsAsPresence(yes, false);
    assert WithVerdict(yes, false) == WithVerdict(a, false);
    NoPresenceGaps(WithVerdict(a, false));
  }

  /** A minimal complete W0.2 pack whose oracle comparison did not match. */
  function MismatchedArtifacts(hash: string): Artifacts {
    var ref := DataReference("u", hash, 0, "", "");
    var candidate := JavaCandidateRef("u", hash, 0, "", "", ORIGIN_BASELINE, 0, true);
    var snapshot := BudgetSnapshot(1, 0, 1);
    NoArtifacts().(
      sourceCobol := [ref], sourceMetadata := Some(ref), parseOutput := Some(ref), semanticIr := Some(ref),
      generatedJava := Some(ref), generatedJavaArtifacts := [candidate], finalJavaArtifact := Some(candidate),
      agentTrajectories := [AgentTrajectoryRef(ROLE_ORCHESTRATOR, ref)],
      oracleComparison := Some(OracleComparison(false, "synthetic", "", "", map[], "", "", "", "", None, None, "", "")),
      runtimeVersion := Some(RuntimeVersion("v", None)),
      modelInvocations := [ModelInvocationRef("i", "m", "", 0, ref, [])],
      buildTestResults := [ref], harnessEvents := Some(ref),
      assistDecision := Some(AssistDecision(ASSIST_NOT_REQUIRED, "caller_did_not_opt_in", "t", "", "",
                                            Some(snapshot), Some(snapshot), Some(snapshot), [])),
      budgetSummary := Some(BudgetSummary(snapshot, snapshot, snapshot)))
  }

  /** The screens let the few texts of this pack pass. */
  ghost predicate PassesMismatched(env: Screens) {
    Passes(env, {"u", "i", "m", ""})
  }

  lemma MismatchedIsValid(env: Screens, hash: string)
    requires IsSha256(hash) && PassesMismatched(env)
    ensures ValidShape(env, MismatchedArtifacts(hash)) && AuditComplete(MismatchedArtifacts(hash))
  {
    var a := MismatchedArtifacts(hash);
    assert "caller_did_not_opt_in" in ASSIST_REASONS;
    assert a.assistDecision.value.Valid(env);
    assert SelectedAt(a.generatedJavaArtifacts, a.finalJavaArtifact.value, 0);
    assert a.agentTrajectories[0].agentRole == ROLE_ORCHESTRATOR;
  }

  function MismatchedInput(hash: string): CreateInput {
    CreateInput("r", "", "w0.2", false, "", "", MismatchedArtifacts(hash), [], [], false, 0)
  }

  lemma FirstPackId()
    ensures PackId("r", 1) == "epk-r-0001" && IsPackId(PackId("r", 1))
  {
    assert Decimal(1) == "1" && Padded(1) == "0001";
  }

  lemma {:induction false} MismatchedSucceeds(env: Screens, hash: string)
    requires IsSha256(hash) && PassesMismatched(env)
    ensures var m := Derive(NewManifest(MismatchedInput(hash), W02, PackId("r", 1), 1), false);
            Checked(env, m, false) == Ok(m) && m.classification.Success? && m.artifacts == MismatchedArtifacts(hash)
  {
    var a := MismatchedArtifacts(hash);
    MismatchedIsValid(env, hash);
    assert NulFreeInvocations(a);
    NoGapsMeansAuditComplete(env, a);
    FirstPackId();
  }

  /** So a stored pack can be a success although its oracle comparison failed. */
  lemma SuccessWithoutMatch(env: Screens, hash: string)
    requires IsSha256(hash) && PassesMismatched(env)
    ensures exists st: StoreState, id: string ::
              && Reachable(env, st) && id in st.packs && st.packs[id].wave.W02?
              && st.packs[id].classification.Success?
              && HasOracle(st.packs[id].artifacts) && !st.packs[id].artifacts.oracleComparison.value.matched
  {
    var op := Create(MismatchedInput(hash), 1);
    MismatchedSucceeds(env, hash);
    var st := Step(env, EmptyStore(), op).0;
    assert Run(env, EmptyStore(), [op]) == st by {
      assert [op][1..] == [];
    }
    assert PackId("r", 1) in st.packs;
  }

  /** A comparison that says matched and nothing else. */
  function BareMatch(hash: string): Artifacts {
    MismatchedArtifacts(hash).(
      oracleComparison := Some(OracleComparison(true, "", "", "", map[], "", "", "", "", None, None, "", "")))
  }

  lemma {:induction false} BareMatchIsComplete(env: Screens, hash: string)
    requires IsSha256(hash) && PassesMismatched(env)
    ensures ValidShape(env, BareMatch(hash)) && AuditComplete(BareMatch(hash))
  {
    var a, b := MismatchedArtifacts(hash), BareMatch(hash);
    MismatchedIsValid(env, hash);
    assert b.finalJavaArtifact == a.finalJavaArtifact && b.generatedJavaArtifacts == a.generatedJavaArtifacts;
    assert HasOracle(b) && AllResolve(b);
  }

  /** With it a pack is audit complete, and its verdict alone decides whether there is a gap. */
  lemma {:induction false} BareVerdictDecides(env: Screens, hash: string)
    requires IsSha256(hash) && PassesMismatched(env)
    ensures ValidShape(env, BareMatch(hash)) && AuditComplete(BareMatch(hash))
    ensures WaveGaps(BareMatch(hash), W02) == [] && WaveGaps(WithVerdict(BareMatch(hash), false), W02) != []
  {
    var b := BareMatch(hash);
    BareMatchIsComplete(env, hash);
    NoGapsMeansAuditComplete(env, b);
    MismatchRulesOutIffOnlyVerdict(b);
  }
}
