/**
 What each reported name stands for: which artifact is absent or which rule is broken when a name is
 in the list of missing artifacts, and which names a blocked run is allowed.
 */
module EvidenceGaps {
  import opened Prelude
  import opened EvidenceManifest
  import opened EvidenceCompleteness
  import opened EvidenceStore
  import opened EvidenceInvariants

  /** The required artifacts of the two waves. */
  const NAMES_W0: set<Name> := {SourceCobol, SemanticIr, GeneratedJava, BuildTestResults, HarnessEvents, ModelInvocations}

  const NAMES_W02: set<Name> := {
    SourceCobol, SourceMetadata, ParseOutput, SemanticIr, GeneratedJava, GeneratedJavaArtifacts,
    FinalJavaArtifact, RuntimeVersionName, BuildTestResults, OracleComparisonName, HarnessEvents,
    ModelInvocations, AgentTrajectories, AssistDecisionName, BudgetSummaryName}

  predicate Blank(ref: Option<DataReference>) {
    match ref
    case None => true
    case Some(r) => r.uri == "" && r.sha256 == "" && r.byteSize == 0
  }

  predicate BlankSnapshot(s: BudgetSnapshot) {
    s.limit == 0 && s.used == 0 && s.remaining == 0
  }

  /** The artifact of this name is not there. */
  predicate Absent(a: Artifacts, name: Name) {
    match name
    case SourceCobol => a.sourceCobol == []
    case SourceMetadata => Blank(a.sourceMetadata)
    case ParseOutput => Blank(a.parseOutput)
    case SemanticIr => Blank(a.semanticIr)
    case GeneratedJava => Blank(a.generatedJava)
    case GeneratedJavaArtifacts => a.generatedJavaArtifacts == []
    case FinalJavaArtifact =>
      (match a.finalJavaArtifact
       case None => true
       case Some(c) => c.uri == "" && c.sha256 == "" && c.byteSize == 0 && c.origin == "")
    case RuntimeVersionName =>
      (match a.runtimeVersion case None => true case Some(v) => v.id == "" && Blank(v.ref))
    case BuildTestResults => a.buildTestResults == []
    case OracleComparisonName =>
      || a.oracleComparison == None
      || a.oracleComparison == Some(OracleComparison(false, "", "", "", map[], "", "", "", "", None, None, "", ""))
    case HarnessEvents => Blank(a.harnessEvents)
    case ModelInvocations => a.modelInvocations == []
    case AgentTrajectories => a.agentTrajectories == []
    case AssistDecisionName =>
      (match a.assistDecision
       case None => true
       case Some(d) => d.outcome == "" && d.reasonCode == "" && d.decidedAt == "")
    case BudgetSummaryName =>
      (match a.budgetSummary
       case None => true
       case Some(b) => BlankSnapshot(b.repair) && BlankSnapshot(b.assist) && BlankSnapshot(b.modelInvocation))
    case _ => false
  }

  ghost predicate Walked(a: Artifacts, role: string) {
    exists t :: t in a.agentTrajectories && t.agentRole == role
  }

  ghost predicate Invoked(a: Artifacts, role: string) {
    exists m :: m in a.modelInvocations && m.agentRole == role
  }

  /** A budget was used up further at the gate than at the end of the run. */
  predicate Shrunk(gate: Option<BudgetSnapshot>, end: BudgetSnapshot) {
    gate.Some? && gate.value.used > end.used
  }

  /** The rule of this name is broken. */
  ghost predicate Broken(a: Artifacts, name: Name) {
    match name
    case RepairAttempts => Walked(a, "verification-repair") && a.repairAttempts == []
    case ModelInvocationsTransformation => Walked(a, "transformation") && !Invoked(a, "transformation")
    case ModelInvocationsRepair => Walked(a, "verification-repair") && !Invoked(a, "verification-repair")
    case GeneratedIsFinal =>
      && !Absent(a, GeneratedJava) && !Absent(a, FinalJavaArtifact)
      && !(a.generatedJava.value.uri == a.finalJavaArtifact.value.uri
           && a.generatedJava.value.sha256 == a.finalJavaArtifact.value.sha256)
    case AssistRegression =>
      && !Absent(a, AssistDecisionName) && !Absent(a, BudgetSummaryName)
      && Shrunk(a.assistDecision.value.assistSnapshot, a.budgetSummary.value.assist)
    case RepairRegression =>
      && !Absent(a, AssistDecisionName) && !Absent(a, BudgetSummaryName)
      && Shrunk(a.assistDecision.value.repairSnapshot, a.budgetSummary.value.repair)
    case ModelInvocationRegression =>
      && !Absent(a, AssistDecisionName) && !Absent(a, BudgetSummaryName)
      && Shrunk(a.assistDecision.value.modelInvocationSnapshot, a.budgetSummary.value.modelInvocation)
    case DecisionTransformation =>
      && a.assistDecision.Some? && a.assistDecision.value.outcome == "assist_required"
      && a.assistDecision.value.selectedAgentRole == "transformation_agent" && !Invoked(a, "transformation")
    case _ => false
  }

  lemma InWhen(missing: bool, name: Name, other: Name)
    ensures Gap(other) in When(missing, name) <==> missing && other == name
  {
  }

  lemma InAfter(gaps: seq<Gap>, missing: bool, name: Name, other: Name)
    ensures Gap(other) in gaps + When(missing, name) <==> Gap(other) in gaps || (missing && other == name)
  {
  }

  lemma ThreeWhens(b: bool, m: Name, c: bool, n: Name, d: bool, o: Name, other: Name)
    ensures Gap(other) in When(b, m) + When(c, n) + When(d, o) <==>
            (b && other == m) || (c && other == n) || (d && other == o)
  {
    InWhen(b, m, other);
    InAfter(When(b, m), c, n, other);
    InAfter(When(b, m) + When(c, n), d, o, other);
  }

  lemma FourWhens(b: bool, m: Name, c: bool, n: Name, d: bool, o: Name, e: bool, p: Name, other: Name)
    ensures Gap(other) in When(b, m) + When(c, n) + When(d, o) + When(e, p) <==>
            (b && other == m) || (c && other == n) || (d && other == o) || (e && other == p)
  {
    ThreeWhens(b, m, c, n, d, o, other);
    InAfter(When(b, m) + When(c, n) + When(d, o), e, p, other);
  }

  lemma {:induction false} SourceGapsAre(a: Artifacts, name: Name)
    ensures Gap(name) in SourceGaps(a) <==>
            Absent(a, name) && name in {SourceCobol, SourceMetadata, ParseOutput, SemanticIr}
  {
    FourWhens(|a.sourceCobol| == 0, SourceCobol, !Present(a.sourceMetadata), SourceMetadata,
              !Present(a.parseOutput), ParseOutput, !Present(a.semanticIr), SemanticIr, name);
  }

  lemma {:induction false} JavaGapsAre(a: Artifacts, name: Name)
    ensures Gap(name) in JavaGaps(a) <==>
            Absent(a, name) && name in {GeneratedJava, GeneratedJavaArtifacts, FinalJavaArtifact, BuildTestResults}
  {
    FourWhens(!Present(a.generatedJava), GeneratedJava, |a.generatedJavaArtifacts| == 0, GeneratedJavaArtifacts,
              !HasFinal(a), FinalJavaArtifact, |a.buildTestResults| == 0, BuildTestResults, name);
  }

  /** The presence rules report exactly the absent artifacts, under their own names. */
  lemma {:induction false} CodeGapsAre(a: Artifacts, name: Name)
    ensures Gap(name) in CodeGaps(a) <==>
            && Absent(a, name)
            && name in {SourceCobol, SourceMetadata, ParseOutput, SemanticIr, GeneratedJava, GeneratedJavaArtifacts,
                        FinalJavaArtifact, BuildTestResults}
  {
    SourceGapsAre(a, name);
    JavaGapsAre(a, name);
    InBoth(SourceGaps(a), JavaGaps(a), Gap(name));
  }

  lemma SixWhens(b: bool, m: Name, c: bool, n: Name, d: bool, o: Name, e: bool, p: Name, f: bool, q: Name, g: bool, r: Name,
                 other: Name)
    ensures Gap(other) in When(b, m) + When(c, n) + When(d, o) + When(e, p) + When(f, q) + When(g, r) <==>
            || (b && other == m) || (c && other == n) || (d && other == o) || (e && other == p)
            || (f && other == q) || (g && other == r)
  {
    FourWhens(b, m, c, n, d, o, e, p, other);
    var four := When(b, m) + When(c, n) + When(d, o) + When(e, p);
    InAfter(four, f, q, other);
    InAfter(four + When(f, q), g, r, other);
  }

  lemma {:induction false} RunGapsAre(a: Artifacts, name: Name)
    ensures Gap(name) in RunGaps(a) <==>
            && Absent(a, name)
            && name in {RuntimeVersionName, HarnessEvents, ModelInvocations, AgentTrajectories, AssistDecisionName,
                        BudgetSummaryName}
  {
    SixWhens(!HasRuntime(a), RuntimeVersionName, !Present(a.harnessEvents), HarnessEvents,
             |a.modelInvocations| == 0, ModelInvocations, |a.agentTrajectories| == 0, AgentTrajectories,
             !HasDecision(a), AssistDecisionName, !HasBudget(a), BudgetSummaryName, name);
  }

  lemma {:induction false} PresenceGapsAre(a: Artifacts, name: Name)
    ensures Gap(name) in PresenceGaps2(a) <==> name in NAMES_W02 && Absent(a, name)
  {
    CodeGapsAre(a, name);
    RunGapsAre(a, name);
    InAfter(CodeGaps(a), !HasOracle(a), OracleComparisonName, name);
    InBoth(CodeGaps(a) + When(!HasOracle(a), OracleComparisonName), RunGaps(a), Gap(name));
  }

  lemma InBoth(s: seq<Gap>, t: seq<Gap>, g: Gap)
    ensures g in s + t <==> g in s || g in t
  {
  }

  lemma {:induction false} PresenceGapsAre0(a: Artifacts, name: Name)
    ensures Gap(name) in PresenceGaps0(a) <==> name in NAMES_W0 && Absent(a, name)
  {
    SixWhens(|a.sourceCobol| == 0, SourceCobol, !Present(a.semanticIr), SemanticIr, !Present(a.generatedJava), GeneratedJava,
             |a.buildTestResults| == 0, BuildTestResults, !Present(a.harnessEvents), HarnessEvents,
             |a.modelInvocations| == 0, ModelInvocations, name);
  }

  lemma {:induction false} NoGapInAttempts(a: Artifacts, name: Name)
    ensures Gap(name) !in AllAttemptGaps(a)
  {
    NoNameInLists(AttemptGapLists(a), name);
  }

  lemma {:induction false} NoNameInLists(parts: seq<seq<Gap>>, name: Name)
    requires forall i :: 0 <= i < |parts| ==> Gap(name) !in parts[i]
    ensures Gap(name) !in Flatten(parts)
  {
    if parts != [] {
      NoNameInLists(parts[..|parts| - 1], name);
    }
  }

  lemma RolesAre(a: Artifacts, role: string)
    ensures HasTrajectoryRole(a.agentTrajectories, role) <==> Walked(a, role)
    ensures HasInvocationRole(a.modelInvocations, role) <==> Invoked(a, role)
  {
    if HasTrajectoryRole(a.agentTrajectories, role) {
      var i :| 0 <= i < |a.agentTrajectories| && a.agentTrajectories[i].agentRole == role;
      assert a.agentTrajectories[i] in a.agentTrajectories;
    }
    if HasInvocationRole(a.modelInvocations, role) {
      var i :| 0 <= i < |a.modelInvocations| && a.modelInvocations[i].agentRole == role;
      assert a.modelInvocations[i] in a.modelInvocations;
    }
  }

  /** The names of the candidate rules. */
  predicate AboutCandidates(name: Name) {
    name.SelectedCandidate? || name.FinalAmongCandidates?
  }

  lemma {:induction false} StraysAre(cs: seq<JavaCandidateRef>, final: JavaCandidateRef, name: Name)
    ensures Gap(name) in StrayGaps(cs, final) ==> name == SelectedCandidate
  {
    if cs != [] {
      StraysAre(cs[..|cs| - 1], final, name);
    }
  }

  lemma {:induction false} RoleGapsAre(a: Artifacts, name: Name)
    ensures Gap(name) in RoleGaps(a) <==>
            Broken(a, name) && name in {RepairAttempts, ModelInvocationsTransformation, ModelInvocationsRepair}
    ensures Gap(name) in DecisionGaps(a) <==> Broken(a, name) && name == DecisionTransformation
  {
    RolesAre(a, "verification-repair");
    RolesAre(a, "transformation");
  }

  lemma {:induction false} GeneratedGapIs(a: Artifacts, name: Name)
    ensures Gap(name) in GeneratedGaps(a) <==> Broken(a, name) && name == GeneratedIsFinal
  {
  }

  lemma {:induction false} BudgetGapsAre(a: Artifacts, name: Name)
    ensures Gap(name) in BudgetGaps(a) <==>
            Broken(a, name) && name in {AssistRegression, RepairRegression, ModelInvocationRegression}
  {
    if HasDecision(a) && HasBudget(a) {
      var d, b := a.assistDecision.value, a.budgetSummary.value;
      ThreeWhens(Regressed(d.assistSnapshot, b.assist), AssistRegression,
                 Regressed(d.repairSnapshot, b.repair), RepairRegression,
                 Regressed(d.modelInvocationSnapshot, b.modelInvocation), ModelInvocationRegression, name);
    }
  }

  /** A name outside the candidate rules is in the missing list of a W0.2 pack exactly when its artifact
      is absent or its rule is broken, and in that of a W0 pack exactly when its artifact is absent. */
  lemma {:induction false} NamesMean(a: Artifacts, name: Name)
    ensures Gap(name) in WaveGaps(a, W0) <==> name in NAMES_W0 && Absent(a, name)
    ensures !AboutCandidates(name) ==>
              (Gap(name) in WaveGaps(a, W02) <==> (name in NAMES_W02 && Absent(a, name)) || Broken(a, name))
  {
    PresenceGapsAre(a, name);
    PresenceGapsAre0(a, name);
    RoleGapsAre(a, name);
    GeneratedGapIs(a, name);
    BudgetGapsAre(a, name);
    NoGapInAttempts(a, name);
    CandidateNames(a, name);
  }

  lemma {:induction false} CandidateNames(a: Artifacts, name: Name)
    ensures Gap(name) in CandidateGaps(a) ==> AboutCandidates(name)
  {
    if HasFinal(a) {
      StraysAre(a.generatedJavaArtifacts, a.finalJavaArtifact.value, name);
    }
  }

  ghost predicate IsFinal(a: Artifacts, i: int) {
    && 0 <= i < |a.generatedJavaArtifacts| && a.finalJavaArtifact.Some?
    && a.generatedJavaArtifacts[i].uri == a.finalJavaArtifact.value.uri
    && a.generatedJavaArtifacts[i].sha256 == a.finalJavaArtifact.value.sha256
  }

  /** Exactly one candidate is the final artifact, namely the k-th. */
  ghost predicate OnlyFinal(a: Artifacts, k: int) {
    IsFinal(a, k) && forall i :: IsFinal(a, i) ==> i == k
  }

  ghost predicate SelectedStray(a: Artifacts, i: int) {
    0 <= i < |a.generatedJavaArtifacts| && a.generatedJavaArtifacts[i].selected && !IsFinal(a, i)
  }

  lemma {:induction false} OneMatch(cs: seq<JavaCandidateRef>, final: JavaCandidateRef) returns (k: nat)
    requires Matches(cs, final) == 1
    ensures k < |cs| && SameCandidate(cs[k], final)
    ensures forall i :: 0 <= i < |cs| && SameCandidate(cs[i], final) ==> i == k
    ensures SelectedMatches(cs, final) == if cs[k].selected then 1 else 0
  {
    var n := |cs| - 1;
    var rest := cs[..n];
    assert forall i :: 0 <= i < n ==> rest[i] == cs[i];
    NoMatches(rest, final);
    if SameCandidate(cs[n], final) {
      k := n;
    } else {
      k := OneMatch(rest, final);
    }
  }

  lemma {:induction false} OneMatchCounts(cs: seq<JavaCandidateRef>, final: JavaCandidateRef, k: nat)
    requires k < |cs| && SameCandidate(cs[k], final)
    requires forall i :: 0 <= i < |cs| && SameCandidate(cs[i], final) ==> i == k
    ensures Matches(cs, final) == 1
  {
    var n := |cs| - 1;
    var rest := cs[..n];
    assert forall i :: 0 <= i < n ==> rest[i] == cs[i];
    NoMatches(rest, final);
    if k < n {
      OneMatchCounts(rest, final, k);
    }
  }

  lemma {:induction false} StrayGapIs(cs: seq<JavaCandidateRef>, final: JavaCandidateRef)
    ensures Gap(SelectedCandidate) in StrayGaps(cs, final) <==> StrayGaps(cs, final) != []
    ensures Gap(FinalAmongCandidates) !in StrayGaps(cs, final)
  {
    if cs != [] {
      StrayGapIs(cs[..|cs| - 1], final);
    }
  }

  /** The two candidate rules: the final artifact is exactly one of the candidates, and that one is
      selected and no other is. */
  lemma {:induction false} CandidateNamesMean(a: Artifacts)
    requires !Absent(a, FinalJavaArtifact) && a.generatedJavaArtifacts != []
    ensures Gap(FinalAmongCandidates) in CandidateGaps(a) <==> !exists k :: OnlyFinal(a, k)
    ensures Gap(SelectedCandidate) in CandidateGaps(a) <==>
            || (exists i :: SelectedStray(a, i))
            || (exists k :: OnlyFinal(a, k) && !a.generatedJavaArtifacts[k].selected)
  {
    var cs, final := a.generatedJavaArtifacts, a.finalJavaArtifact.value;
    StrayGapIs(cs, final);
    NoStrays(cs, final);
    assert forall i :: IsFinal(a, i) <==> 0 <= i < |cs| && SameCandidate(cs[i], final);
    if Matches(cs, final) == 1 {
      var k := OneMatch(cs, final);
      assert OnlyFinal(a, k);
    }
    if k :| OnlyFinal(a, k) {
      OneMatchCounts(cs, final, k);
    }
    if exists i :: 0 <= i < |cs| && cs[i].selected && !SameCandidate(cs[i], final) {
      var i :| 0 <= i < |cs| && cs[i].selected && !SameCandidate(cs[i], final);
      assert SelectedStray(a, i);
    }
  }

  // ----- the references of a repair attempt -----

  /** What each reported field of an attempt complains about. */
  ghost predicate Unresolved(a: Artifacts, r: RepairAttempt, field: AttemptField) {
    match field
    case BuildTestResultRef => !BuildResolves(a, r)
    case InvocationRef =>
      || r.modelInvocationRef.None?
      || (r.modelInvocationRef.value.agentRole == "verification-repair"
          && ModelInvocationKey(r.modelInvocationRef.value) !in InvocationKeys(a.modelInvocations))
    case InvocationRole => r.modelInvocationRef.Some? && r.modelInvocationRef.value.agentRole != "verification-repair"
    case NewCandidateRef => !CandidateResolves(a, r)
  }

  lemma {:induction false} AttemptGapIs(env: Screens, a: Artifacts, i: nat, j: nat, field: AttemptField)
    requires i < |a.repairAttempts| && ValidShape(env, a)
    ensures AttemptGap(j, field) in AttemptGaps(a, i) <==> j == i && Unresolved(a, a.repairAttempts[i], field)
  {
    var r := a.repairAttempts[i];
    BuildKeyExact(env, a, r);
    if r.newJavaCandidateRef.Some? {
      CandidateKeyExact(env, a, r.newJavaCandidateRef.value);
    }
  }

  lemma {:induction false} InFlatten(parts: seq<seq<Gap>>, g: Gap)
    ensures g in Flatten(parts) <==> exists i :: 0 <= i < |parts| && g in parts[i]
  {
    if parts != [] {
      var rest := parts[..|parts| - 1];
      InFlatten(rest, g);
      assert forall i :: 0 <= i < |rest| ==> rest[i] == parts[i];
    }
  }

  /** A field of an attempt is reported exactly when that attempt exists and the field does not resolve. */
  lemma {:induction false} AttemptFieldsMean(env: Screens, a: Artifacts, i: nat, field: AttemptField)
    requires ValidShape(env, a)
    ensures AttemptGap(i, field) in AllAttemptGaps(a) <==>
            i < |a.repairAttempts| && Unresolved(a, a.repairAttempts[i], field)
  {
    var lists := AttemptGapLists(a);
    InFlatten(lists, AttemptGap(i, field));
    forall k | 0 <= k < |a.repairAttempts|
      ensures AttemptGap(i, field) in lists[k] <==> i == k && Unresolved(a, a.repairAttempts[k], field)
    {
      AttemptGapIs(env, a, k, i, field);
    }
    if i < |a.repairAttempts| && Unresolved(a, a.repairAttempts[i], field) {
      assert AttemptGap(i, field) in lists[i];
    }
  }

  // ----- what a block relaxes -----

  /** A blocked W0.2 run may lack what comes after the gate, and its decision while the gate was not
      reached; every other gap stays. */
  lemma {:induction false} RelaxedNamesAre(missing: seq<Gap>, gateFired: bool, g: Gap)
    ensures g in Unrelaxed(missing, gateFired) <==>
            && g in missing
            && g != Gap(GeneratedJava) && g != Gap(GeneratedJavaArtifacts) && g != Gap(FinalJavaArtifact)
            && g != Gap(BuildTestResults) && g != Gap(OracleComparisonName)
            && (gateFired || g != Gap(AssistDecisionName))
  {
    if missing != [] {
      RelaxedNamesAre(missing[..|missing| - 1], gateFired, g);
      SplitLast(missing);
    }
  }

  /** The gate was reached when an agent after it left a trajectory, an attempt or an invocation. */
  lemma {:induction false} GateMeans(a: Artifacts)
    ensures ReachedGate(a) <==>
            || a.repairAttempts != []
            || (exists t :: t in a.agentTrajectories && t.agentRole in {"transformation", "verification-repair"})
            || (exists m :: m in a.modelInvocations && m.agentRole in {"transformation", "verification-repair"})
  {
    RolesAre(a, "verification-repair");
    RolesAre(a, "transformation");
  }

  /** The required lists name exactly the required artifacts, each once. */
  lemma RequiredNamesAre(name: Name)
    ensures name in REQUIRED_W0 <==> name in NAMES_W0
    ensures name in REQUIRED_W02 <==> name in NAMES_W02
    ensures |REQUIRED_W0| == 6 && |REQUIRED_W02| == 15
  {
  }

  /** A gap that a block relaxes. */
  ghost predicate Excused(m: Manifest, g: Gap) {
    && m.classification.Blocked? && m.wave.W02? && g.Gap?
    && (|| g.name in {GeneratedJava, GeneratedJavaArtifacts, FinalJavaArtifact, BuildTestResults, OracleComparisonName}
        || (g.name == AssistDecisionName && !ReachedGate(m.artifacts)))
  }

  /** The missing list of a stored pack: the gaps of its wave that are not excused. */
  lemma {:induction false} StoredMissingMeans(env: Screens, st: StoreState, id: string, g: Gap)
    requires EvidenceInvariants.Reachable(env, st) && id in st.packs
    ensures var m := st.packs[id];
            g in m.validation.missing <==> g in WaveGaps(m.artifacts, m.wave) && !Excused(m, g)
  {
    ReachableInv(env, st);
    assert GoodEntry(env, st, id);
    MissingMeans(env, st.packs[id], g);
  }

  lemma {:induction false} MissingMeans(env: Screens, m: Manifest, g: Gap)
    requires Coherent(env, m)
    ensures g in m.validation.missing <==> g in WaveGaps(m.artifacts, m.wave) && !Excused(m, g)
  {
    OverlayNeverMissing(env, m);
    RelaxedNamesAre(WaveGaps(m.artifacts, m.wave), ReachedGate(m.artifacts), g);
  }

  /** What it requires are the artifacts of its wave, and the overlay when edits were carried over. */
  lemma {:induction false} StoredRequiredMeans(env: Screens, st: StoreState, id: string, name: Name)
    requires EvidenceInvariants.Reachable(env, st) && id in st.packs
    ensures var m := st.packs[id];
            && (name in m.validation.required <==>
                  name in (if m.wave.W02? then NAMES_W02 else NAMES_W0) || (m.carriedOver && name == ManualEditOverlay))
            && m.validation.required == (if m.wave.W02? then REQUIRED_W02 else REQUIRED_W0) +
                                        (if m.carriedOver then [ManualEditOverlay] else [])
  {
    ReachableInv(env, st);
    assert GoodEntry(env, st, id);
    RequiredIs(env, st.packs[id]);
    RequiredList(st.packs[id].wave, st.packs[id].carriedOver, name);
  }

  lemma {:induction false} RequiredIs(env: Screens, m: Manifest)
    requires Coherent(env, m)
    ensures m.validation.required ==
            var base := if m.wave.W02? then REQUIRED_W02 else REQUIRED_W0;
            if m.carriedOver then AddOnce(base, ManualEditOverlay) else base
  {
    assert m.validation.required == ManifestValidation(m.artifacts, m.wave, m.carriedOver).required;
  }

  lemma RequiredList(wave: Wave, carriedOver: bool, name: Name)
    ensures var base := if wave.W02? then REQUIRED_W02 else REQUIRED_W0;
            var list := if carriedOver then AddOnce(base, ManualEditOverlay) else base;
            && list == base + (if carriedOver then [ManualEditOverlay] else [])
            && (name in list <==>
                  name in (if wave.W02? then NAMES_W02 else NAMES_W0) || (carriedOver && name == ManualEditOverlay))
  {
    RequiredNamesAre(name);
    RequiredNamesAre(ManualEditOverlay);
    var base := if wave.W02? then REQUIRED_W02 else REQUIRED_W0;
    assert base + [] == base;
  }

  // ----- the order of the list -----

  /** The place of a name in the list. */
  function NameRank(name: Name): nat {
    match name
    case SourceCobol => 0
    case SourceMetadata => 1
    case ParseOutput => 2
    case SemanticIr => 3
    case GeneratedJava => 4
    case GeneratedJavaArtifacts => 5
    case FinalJavaArtifact => 6
    case BuildTestResults => 7
    case OracleComparisonName => 8
    case RuntimeVersionName => 9
    case HarnessEvents => 10
    case ModelInvocations => 11
    case AgentTrajectories => 12
    case AssistDecisionName => 13
    case BudgetSummaryName => 14
    case RepairAttempts => 15
    case ModelInvocationsTransformation => 16
    case ModelInvocationsRepair => 17
    case SelectedCandidate => 18
    case FinalAmongCandidates => 19
    case GeneratedIsFinal => 20
    case AssistRegression => 21
    case RepairRegression => 22
    case ModelInvocationRegression => 23
    case DecisionTransformation => 24
    case ManualEditOverlay => 25
  }

  const ATTEMPTS: nat := 26

  /** Repair attempts come last, one after the other. */
  function Rank(g: Gap): nat {
    match g
    case Gap(name) => NameRank(name)
    case AttemptGap(i, field) =>
      ATTEMPTS + 3 * i + (match field case BuildTestResultRef => 0 case InvocationRef => 1 case InvocationRole => 1
                          case NewCandidateRef => 2)
  }

  /** One gap before another; only the gap of selected candidates may repeat. */
  predicate GapBefore(g: Gap, h: Gap) {
    Rank(g) < Rank(h) || g == h == Gap(SelectedCandidate)
  }

  ghost predicate InRankOrder(gaps: seq<Gap>) {
    forall i, j :: 0 <= i < j < |gaps| ==> GapBefore(gaps[i], gaps[j])
  }

  ghost predicate Within(gaps: seq<Gap>, lo: nat, hi: nat) {
    InRankOrder(gaps) && forall i :: 0 <= i < |gaps| ==> lo <= Rank(gaps[i]) < hi
  }

  lemma WithinConcat(s: seq<Gap>, t: seq<Gap>, lo: nat, mid: nat, hi: nat)
    requires Within(s, lo, mid) && Within(t, mid, hi) && lo <= mid <= hi
    ensures Within(s + t, lo, hi)
  {
  }

  lemma WhenWithin(missing: bool, name: Name)
    ensures Within(When(missing, name), NameRank(name), NameRank(name) + 1)
  {
  }

  lemma WithinMore(s: seq<Gap>, missing: bool, name: Name, lo: nat, mid: nat)
    requires Within(s, lo, mid) && lo <= mid <= NameRank(name)
    ensures Within(s + When(missing, name), lo, NameRank(name) + 1)
  {
    WhenWithin(missing, name);
    WithinConcat(s, When(missing, name), lo, NameRank(name), NameRank(name) + 1);
  }

  lemma ThreeWithin(b: bool, m: Name, c: bool, n: Name, d: bool, o: Name)
    requires NameRank(m) < NameRank(n) < NameRank(o)
    ensures Within(When(b, m) + When(c, n) + When(d, o), NameRank(m), NameRank(o) + 1)
  {
    WhenWithin(b, m);
    WithinMore(When(b, m), c, n, NameRank(m), NameRank(m) + 1);
    WithinMore(When(b, m) + When(c, n), d, o, NameRank(m), NameRank(n) + 1);
  }

  lemma FourWithin(b: bool, m: Name, c: bool, n: Name, d: bool, o: Name, e: bool, p: Name)
    requires NameRank(m) < NameRank(n) < NameRank(o) < NameRank(p)
    ensures Within(When(b, m) + When(c, n) + When(d, o) + When(e, p), NameRank(m), NameRank(p) + 1)
  {
    ThreeWithin(b, m, c, n, d, o);
    WithinMore(When(b, m) + When(c, n) + When(d, o), e, p, NameRank(m), NameRank(o) + 1);
  }

  lemma {:induction false} PresenceWithin0(a: Artifacts)
    ensures Within(PresenceGaps0(a), 0, 12)
  {
    FourWithin(|a.sourceCobol| == 0, SourceCobol, !Present(a.semanticIr), SemanticIr, !Present(a.generatedJava),
               GeneratedJava, |a.buildTestResults| == 0, BuildTestResults);
    var four := When(|a.sourceCobol| == 0, SourceCobol) + When(!Present(a.semanticIr), SemanticIr) +
                When(!Present(a.generatedJava), GeneratedJava) + When(|a.buildTestResults| == 0, BuildTestResults);
    WithinMore(four, !Present(a.harnessEvents), HarnessEvents, 0, 8);
    WithinMore(four + When(!Present(a.harnessEvents), HarnessEvents), |a.modelInvocations| == 0, ModelInvocations, 0, 11);
  }

  lemma {:induction false} CodeWithin(a: Artifacts)
    ensures Within(CodeGaps(a), 0, 8)
  {
    FourWithin(|a.sourceCobol| == 0, SourceCobol, !Present(a.sourceMetadata), SourceMetadata,
               !Present(a.parseOutput), ParseOutput, !Present(a.semanticIr), SemanticIr);
    FourWithin(!Present(a.generatedJava), GeneratedJava, |a.generatedJavaArtifacts| == 0, GeneratedJavaArtifacts,
               !HasFinal(a), FinalJavaArtifact, |a.buildTestResults| == 0, BuildTestResults);
    WithinConcat(SourceGaps(a), JavaGaps(a), 0, 4, 8);
  }

  lemma {:induction false} RunWithin(a: Artifacts)
    ensures Within(RunGaps(a), 9, 15)
  {
    FourWithin(!HasRuntime(a), RuntimeVersionName, !Present(a.harnessEvents), HarnessEvents,
               |a.modelInvocations| == 0, ModelInvocations, |a.agentTrajectories| == 0, AgentTrajectories);
    var four := When(!HasRuntime(a), RuntimeVersionName) + When(!Present(a.harnessEvents), HarnessEvents) +
                When(|a.modelInvocations| == 0, ModelInvocations) + When(|a.agentTrajectories| == 0, AgentTrajectories);
    WithinMore(four, !HasDecision(a), AssistDecisionName, 9, 13);
    WithinMore(four + When(!HasDecision(a), AssistDecisionName), !HasBudget(a), BudgetSummaryName, 9, 14);
  }

  lemma {:induction false} StraysWithin(cs: seq<JavaCandidateRef>, final: JavaCandidateRef)
    ensures Within(StrayGaps(cs, final), 18, 19)
    ensures forall i :: 0 <= i < |StrayGaps(cs, final)| ==> StrayGaps(cs, final)[i] == Gap(SelectedCandidate)
  {
    if cs != [] {
      StraysWithin(cs[..|cs| - 1], final);
    }
  }

  lemma {:induction false} CandidatesWithin(a: Artifacts)
    ensures Within(CandidateGaps(a), 18, 20)
  {
    if HasFinal(a) && a.generatedJavaArtifacts != [] {
      StraysWithin(a.generatedJavaArtifacts, a.finalJavaArtifact.value);
    }
  }

  lemma {:induction false} BudgetWithin(a: Artifacts)
    ensures Within(BudgetGaps(a), 21, 24)
  {
    if HasDecision(a) && HasBudget(a) {
      var d, b := a.assistDecision.value, a.budgetSummary.value;
      ThreeWithin(Regressed(d.assistSnapshot, b.assist), AssistRegression,
                  Regressed(d.repairSnapshot, b.repair), RepairRegression,
                  Regressed(d.modelInvocationSnapshot, b.modelInvocation), ModelInvocationRegression);
    }
  }

  lemma {:induction false} RolesWithin(a: Artifacts)
    ensures Within(RoleGaps(a), 15, 18)
  {
    ThreeWithin(HasTrajectoryRole(a.agentTrajectories, ROLE_REPAIR) && |a.repairAttempts| == 0, RepairAttempts,
                HasTrajectoryRole(a.agentTrajectories, ROLE_TRANSFORMATION)
                && !HasInvocationRole(a.modelInvocations, ROLE_TRANSFORMATION), ModelInvocationsTransformation,
                HasTrajectoryRole(a.agentTrajectories, ROLE_REPAIR)
                && !HasInvocationRole(a.modelInvocations, ROLE_REPAIR), ModelInvocationsRepair);
  }

  lemma {:induction false} AttemptWithin(a: Artifacts, i: nat)
    requires i < |a.repairAttempts|
    ensures Within(AttemptGaps(a, i), ATTEMPTS + 3 * i, ATTEMPTS + 3 * (i + 1))
  {
  }

  lemma {:induction false} AttemptsWithin(a: Artifacts, n: nat)
    requires n <= |a.repairAttempts|
    ensures Within(Flatten(AttemptGapLists(a)[..n]), ATTEMPTS, ATTEMPTS + 3 * n)
  {
    if n > 0 {
      AttemptsWithin(a, n - 1);
      AttemptWithin(a, n - 1);
      assert AttemptGapLists(a)[..n][..n - 1] == AttemptGapLists(a)[..n - 1];
      WithinConcat(Flatten(AttemptGapLists(a)[..n - 1]), AttemptGaps(a, n - 1), ATTEMPTS, ATTEMPTS + 3 * (n - 1),
                   ATTEMPTS + 3 * n);
    }
  }

  lemma {:induction false} IntegrityWithin(a: Artifacts)
    ensures Within(IntegrityGaps(a), 15, ATTEMPTS + 3 * |a.repairAttempts|)
  {
    var n := |a.repairAttempts|;
    RolesWithin(a);
    CandidatesWithin(a);
    GeneratedWithin(a);
    BudgetWithin(a);
    DecisionWithin(a);
    AttemptsWithin(a, n);
    assert AttemptGapLists(a)[..n] == AttemptGapLists(a);
    WithinSix(RoleGaps(a), CandidateGaps(a), GeneratedGaps(a), BudgetGaps(a), DecisionGaps(a), AllAttemptGaps(a),
              ATTEMPTS + 3 * n);
  }

  lemma {:induction false} GeneratedWithin(a: Artifacts)
    ensures Within(GeneratedGaps(a), 20, 21)
  {
  }

  lemma {:induction false} DecisionWithin(a: Artifacts)
    ensures Within(DecisionGaps(a), 24, ATTEMPTS)
  {
  }

  lemma WithinSix(s: seq<Gap>, t: seq<Gap>, u: seq<Gap>, v: seq<Gap>, w: seq<Gap>, x: seq<Gap>, hi: nat)
    requires Within(s, 15, 18) && Within(t, 18, 20) && Within(u, 20, 21) && Within(v, 21, 24)
    requires ATTEMPTS <= hi && Within(w, 24, ATTEMPTS) && Within(x, ATTEMPTS, hi)
    ensures Within(s + t + u + v + w + x, 15, hi)
  {
    WithinConcat(s, t, 15, 18, 20);
    WithinConcat(s + t, u, 15, 20, 21);
    WithinConcat(s + t + u, v, 15, 21, 24);
    WithinConcat(s + t + u + v, w, 15, 24, ATTEMPTS);
    WithinConcat(s + t + u + v + w, x, 15, ATTEMPTS, hi);
  }

  lemma {:induction false} PresenceWithin2(a: Artifacts)
    ensures Within(PresenceGaps2(a), 0, 15)
  {
    CodeWithin(a);
    RunWithin(a);
    Around(CodeGaps(a), !HasOracle(a), OracleComparisonName, RunGaps(a), 0, 15);
  }

  lemma Around(s: seq<Gap>, missing: bool, name: Name, t: seq<Gap>, lo: nat, hi: nat)
    requires lo <= NameRank(name) < hi && Within(s, lo, NameRank(name)) && Within(t, NameRank(name) + 1, hi)
    ensures Within(s + When(missing, name) + t, lo, hi)
  {
    WithinMore(s, missing, name, lo, NameRank(name));
    WithinConcat(s + When(missing, name), t, lo, NameRank(name) + 1, hi);
  }

  /** The list names each gap once, in the order of the checks; only selected strays may repeat. */
  lemma {:induction false} GapsInOrder(a: Artifacts, wave: Wave)
    ensures InRankOrder(WaveGaps(a, wave))
  {
    if wave.W02? {
      PresenceWithin2(a);
      IntegrityWithin(a);
      WithinConcat(PresenceGaps2(a), IntegrityGaps(a), 0, 15, ATTEMPTS + 3 * |a.repairAttempts|);
    } else {
      PresenceWithin0(a);
    }
  }

  /** What a block leaves of the list is in order, too. */
  lemma {:induction false} UnrelaxedInOrder(missing: seq<Gap>, gateFired: bool)
    requires InRankOrder(missing)
    ensures InRankOrder(Unrelaxed(missing, gateFired))
  {
    if missing != [] {
      var rest, last := missing[..|missing| - 1], missing[|missing| - 1];
      UnrelaxedInOrder(rest, gateFired);
      var before := Unrelaxed(rest, gateFired);
      forall i | 0 <= i < |before| ensures GapBefore(before[i], last) {
        RelaxedNamesAre(rest, gateFired, before[i]);
        var k :| 0 <= k < |rest| && rest[k] == before[i];
        assert missing[k] == before[i];
      }
    }
  }

  /** So the missing list of a stored pack is in order. */
  lemma {:induction false} StoredMissingInOrder(env: Screens, st: StoreState, id: string)
    requires EvidenceInvariants.Reachable(env, st) && id in st.packs
    ensures InRankOrder(st.packs[id].validation.missing)
  {
    ReachableInv(env, st);
    assert GoodEntry(env, st, id);
    MissingInOrder(env, st.packs[id]);
  }

  lemma {:induction false} MissingInOrder(env: Screens, m: Manifest)
    requires Coherent(env, m)
    ensures InRankOrder(m.validation.missing)
  {
    OverlayNeverMissing(env, m);
    GapsInOrder(m.artifacts, m.wave);
    UnrelaxedInOrder(WaveGaps(m.artifacts, m.wave), ReachedGate(m.artifacts));
  }
}
