/**
 The completeness rules of an evidence pack: which required artifacts are missing and which
 references do not resolve. `WaveGaps` lists them as the loops of the service do; the lemmas
 say what an empty list means.
 */
module EvidenceCompleteness {
  import opened Prelude
  import opened EvidenceManifest

  function When(missing: bool, name: Name): seq<Gap> {
    if missing then [Gap(name)] else []
  }

  predicate HasTrajectoryRole(ts: seq<AgentTrajectoryRef>, role: string) {
    exists i :: 0 <= i < |ts| && ts[i].agentRole == role
  }

  predicate HasInvocationRole(ms: seq<ModelInvocationRef>, role: string) {
    exists i :: 0 <= i < |ms| && ms[i].agentRole == role
  }

  predicate HasDecision(a: Artifacts) {
    a.assistDecision.Some? && !a.assistDecision.value.IsZero()
  }

  predicate HasBudget(a: Artifacts) {
    a.budgetSummary.Some? && !a.budgetSummary.value.IsZero()
  }

  predicate HasFinal(a: Artifacts) {
    a.finalJavaArtifact.Some? && !a.finalJavaArtifact.value.IsZero()
  }

  predicate HasOracle(a: Artifacts) {
    a.oracleComparison.Some? && !a.oracleComparison.value.IsZero()
  }

  predicate HasRuntime(a: Artifacts) {
    a.runtimeVersion.Some? && !a.runtimeVersion.value.IsZero()
  }

  predicate HasOverlay(a: Artifacts) {
    a.manualEditOverlay.Some? && !a.manualEditOverlay.value.IsZero()
  }

  // ----- presence -----

  function PresenceGaps0(a: Artifacts): seq<Gap> {
    When(|a.sourceCobol| == 0, SourceCobol) +
    When(!Present(a.semanticIr), SemanticIr) +
    When(!Present(a.generatedJava), GeneratedJava) +
    When(|a.buildTestResults| == 0, BuildTestResults) +
    When(!Present(a.harnessEvents), HarnessEvents) +
    When(|a.modelInvocations| == 0, ModelInvocations)
  }

  /** What the analysis of the source leaves behind. */
  function SourceGaps(a: Artifacts): seq<Gap> {
    When(|a.sourceCobol| == 0, SourceCobol) +
    When(!Present(a.sourceMetadata), SourceMetadata) +
    When(!Present(a.parseOutput), ParseOutput) +
    When(!Present(a.semanticIr), SemanticIr)
  }

  /** What the generation of Java leaves behind. */
  function JavaGaps(a: Artifacts): seq<Gap> {
    When(!Present(a.generatedJava), GeneratedJava) +
    When(|a.generatedJavaArtifacts| == 0, GeneratedJavaArtifacts) +
    When(!HasFinal(a), FinalJavaArtifact) +
    When(|a.buildTestResults| == 0, BuildTestResults)
  }

  /** The required code and test artifacts of a W0.2 pack. */
  function CodeGaps(a: Artifacts): seq<Gap> {
    SourceGaps(a) + JavaGaps(a)
  }

  /** The required records of the run. */
  function RunGaps(a: Artifacts): seq<Gap> {
    When(!HasRuntime(a), RuntimeVersionName) +
    When(!Present(a.harnessEvents), HarnessEvents) +
    When(|a.modelInvocations| == 0, ModelInvocations) +
    When(|a.agentTrajectories| == 0, AgentTrajectories) +
    When(!HasDecision(a), AssistDecisionName) +
    When(!HasBudget(a), BudgetSummaryName)
  }

  function PresenceGaps2(a: Artifacts): seq<Gap> {
    CodeGaps(a) + When(!HasOracle(a), OracleComparisonName) + RunGaps(a)
  }

  const REQUIRED_W0: seq<Name> :=
    [SourceCobol, SemanticIr, GeneratedJava, BuildTestResults, HarnessEvents, ModelInvocations]

  const REQUIRED_W02: seq<Name> := [
    SourceCobol, SourceMetadata, ParseOutput, SemanticIr, GeneratedJava, GeneratedJavaArtifacts,
    FinalJavaArtifact, RuntimeVersionName, BuildTestResults, OracleComparisonName, HarnessEvents,
    ModelInvocations, AgentTrajectories, AssistDecisionName, BudgetSummaryName]

  // ----- referential integrity -----

  predicate SameCandidate(c: JavaCandidateRef, d: JavaCandidateRef) {
    c.uri == d.uri && c.sha256 == d.sha256
  }

  function Matches(cs: seq<JavaCandidateRef>, final: JavaCandidateRef): nat {
    if cs == [] then 0
    else Matches(cs[..|cs| - 1], final) + (if SameCandidate(cs[|cs| - 1], final) then 1 else 0)
  }

  function SelectedMatches(cs: seq<JavaCandidateRef>, final: JavaCandidateRef): nat {
    if cs == [] then 0
    else
      var c := cs[|cs| - 1];
      SelectedMatches(cs[..|cs| - 1], final) + (if SameCandidate(c, final) && c.selected then 1 else 0)
  }

  /** One gap for each selected candidate that is not the final one. */
  function StrayGaps(cs: seq<JavaCandidateRef>, final: JavaCandidateRef): seq<Gap> {
    if cs == [] then []
    else
      var c := cs[|cs| - 1];
      StrayGaps(cs[..|cs| - 1], final) +
      When(!SameCandidate(c, final) && c.selected, SelectedCandidate)
  }

  function CandidateGaps(a: Artifacts): seq<Gap> {
    if !HasFinal(a) || a.generatedJavaArtifacts == [] then []
    else
      var cs, final := a.generatedJavaArtifacts, a.finalJavaArtifact.value;
      StrayGaps(cs, final) +
      When(Matches(cs, final) != 1, FinalAmongCandidates) +
      When(Matches(cs, final) == 1 && SelectedMatches(cs, final) != 1, SelectedCandidate)
  }

  function GeneratedGaps(a: Artifacts): seq<Gap> {
    When(Present(a.generatedJava) && HasFinal(a)
         && (a.generatedJava.value.uri != a.finalJavaArtifact.value.uri
             || a.generatedJava.value.sha256 != a.finalJavaArtifact.value.sha256),
         GeneratedIsFinal)
  }

  predicate Regressed(snapshot: Option<BudgetSnapshot>, end: BudgetSnapshot) {
    snapshot.Some? && end.used < snapshot.value.used
  }

  function BudgetGaps(a: Artifacts): seq<Gap> {
    if !HasDecision(a) || !HasBudget(a) then []
    else
      var d, b := a.assistDecision.value, a.budgetSummary.value;
      When(Regressed(d.assistSnapshot, b.assist), AssistRegression) +
      When(Regressed(d.repairSnapshot, b.repair), RepairRegression) +
      When(Regressed(d.modelInvocationSnapshot, b.modelInvocation), ModelInvocationRegression)
  }

  predicate DecisionNeedsTransformation(a: Artifacts) {
    && a.assistDecision.Some?
    && a.assistDecision.value.outcome == ASSIST_REQUIRED
    && a.assistDecision.value.selectedAgentRole == ASSIST_AGENT_TRANSFORMATION
  }

  function RoleGaps(a: Artifacts): seq<Gap> {
    When(HasTrajectoryRole(a.agentTrajectories, ROLE_REPAIR) && |a.repairAttempts| == 0, RepairAttempts) +
    When(HasTrajectoryRole(a.agentTrajectories, ROLE_TRANSFORMATION)
         && !HasInvocationRole(a.modelInvocations, ROLE_TRANSFORMATION), ModelInvocationsTransformation) +
    When(HasTrajectoryRole(a.agentTrajectories, ROLE_REPAIR)
         && !HasInvocationRole(a.modelInvocations, ROLE_REPAIR), ModelInvocationsRepair)
  }

  function DecisionGaps(a: Artifacts): seq<Gap> {
    When(DecisionNeedsTransformation(a) && !HasInvocationRole(a.modelInvocations, ROLE_TRANSFORMATION),
         DecisionTransformation)
  }

  predicate Indexable(m: ModelInvocationRef) {
    m.invocationId != "" && !m.ledgerRef.IsZero()
  }

  function InvocationKeys(ms: seq<ModelInvocationRef>): set<string> {
    set i | 0 <= i < |ms| && Indexable(ms[i]) :: ModelInvocationKey(ms[i])
  }

  function BuildKeys(refs: seq<DataReference>): set<string> {
    set i | 0 <= i < |refs| :: DataReferenceKey(refs[i])
  }

  function CandidateKeys(cs: seq<JavaCandidateRef>): set<string> {
    set i | 0 <= i < |cs| :: JavaCandidateKey(cs[i])
  }

  function BuildGap(a: Artifacts, r: RepairAttempt, i: nat): seq<Gap> {
    if DataReferenceKey(r.buildTestResultRef) in BuildKeys(a.buildTestResults) then []
    else [AttemptGap(i, BuildTestResultRef)]
  }

  function InvocationGap(a: Artifacts, r: RepairAttempt, i: nat): seq<Gap> {
    if r.modelInvocationRef.None? then [AttemptGap(i, InvocationRef)]
    else if r.modelInvocationRef.value.agentRole != ROLE_REPAIR then [AttemptGap(i, InvocationRole)]
    else if ModelInvocationKey(r.modelInvocationRef.value) !in InvocationKeys(a.modelInvocations)
    then [AttemptGap(i, InvocationRef)]
    else []
  }

  function NewCandidateGap(a: Artifacts, r: RepairAttempt, i: nat): seq<Gap> {
    if r.newJavaCandidateRef.Some?
       && JavaCandidateKey(r.newJavaCandidateRef.value) !in CandidateKeys(a.generatedJavaArtifacts)
    then [AttemptGap(i, NewCandidateRef)] else []
  }

  function AttemptGaps(a: Artifacts, i: nat): seq<Gap>
    requires i < |a.repairAttempts|
  {
    var r := a.repairAttempts[i];
    BuildGap(a, r, i) + InvocationGap(a, r, i) + NewCandidateGap(a, r, i)
  }

  function AttemptGapLists(a: Artifacts): seq<seq<Gap>> {
    seq(|a.repairAttempts|, i requires 0 <= i < |a.repairAttempts| => AttemptGaps(a, i))
  }

  function Flatten(parts: seq<seq<Gap>>): seq<Gap> {
    if parts == [] then [] else Flatten(parts[..|parts| - 1]) + parts[|parts| - 1]
  }

  function AllAttemptGaps(a: Artifacts): seq<Gap> {
    Flatten(AttemptGapLists(a))
  }

  function IntegrityGaps(a: Artifacts): seq<Gap> {
    RoleGaps(a) + CandidateGaps(a) + GeneratedGaps(a) + BudgetGaps(a) + DecisionGaps(a) +
    AllAttemptGaps(a)
  }

  function WaveGaps(a: Artifacts, wave: Wave): seq<Gap> {
    if wave.W02? then PresenceGaps2(a) + IntegrityGaps(a) else PresenceGaps0(a)
  }

  function CompletenessOf(missing: seq<Gap>): Completeness {
    if missing == [] then CompleteEvidence else IncompleteEvidence
  }

  function WaveValidation(a: Artifacts, wave: Wave): ValidationResult {
    var missing := WaveGaps(a, wave);
    ValidationResult(missing == [], if wave.W02? then REQUIRED_W02 else REQUIRED_W0, missing, CompletenessOf(missing))
  }

  function AddOnce<T(==)>(s: seq<T>, x: T): seq<T> {
    if x in s then s else s + [x]
  }

  /** The manual-edit overlay rule on top of the wave rules. */
  function ManifestValidation(a: Artifacts, wave: Wave, carriedOver: bool): ValidationResult {
    var v := WaveValidation(a, wave);
    if !carriedOver then v
    else
      var w := v.(required := AddOnce(v.required, ManualEditOverlay));
      if HasOverlay(a) then w
      else w.(ok := false, missing := AddOnce(v.missing, Gap(ManualEditOverlay)), completeness := IncompleteEvidence)
  }

  // ----- the loops of the service -----

  method CountCandidates(cs: seq<JavaCandidateRef>, final: JavaCandidateRef)
    returns (matchCount: nat, selectedMatchCount: nat, strays: seq<Gap>)
    ensures matchCount == Matches(cs, final)
    ensures selectedMatchCount == SelectedMatches(cs, final)
    ensures strays == StrayGaps(cs, final)
  {
    matchCount, selectedMatchCount, strays := 0, 0, [];
    for i := 0 to |cs|
      invariant matchCount == Matches(cs[..i], final)
      invariant selectedMatchCount == SelectedMatches(cs[..i], final)
      invariant strays == StrayGaps(cs[..i], final)
    {
      assert cs[..i + 1][..i] == cs[..i];
      if SameCandidate(cs[i], final) {
        matchCount := matchCount + 1;
        if cs[i].selected {
          selectedMatchCount := selectedMatchCount + 1;
        }
      } else if cs[i].selected {
        strays := strays + [Gap(SelectedCandidate)];
      }
    }
    assert cs[..|cs|] == cs;
  }

  method IndexInvocations(ms: seq<ModelInvocationRef>) returns (refs: set<string>, roles: set<string>)
    ensures refs == InvocationKeys(ms)
    ensures forall role :: role in roles <==> role != "" && HasInvocationRole(ms, role)
  {
    refs, roles := {}, {};
    for i := 0 to |ms|
      invariant refs == InvocationKeys(ms[..i])
      invariant forall role :: role in roles <==> role != "" && HasInvocationRole(ms[..i], role)
    {
      var m := ms[i];
      var before := ms[..i];
      assert ms[..i + 1] == before + [m];
      InvocationKeysAppend(before, m);
      forall role ensures HasInvocationRole(before + [m], role) <==> HasInvocationRole(before, role) || m.agentRole == role {
        InvocationRoleAppend(before, m, role);
      }
      if Indexable(m) {
        refs := refs + {ModelInvocationKey(m)};
      }
      if m.agentRole != "" {
        roles := roles + {m.agentRole};
      }
    }
    assert ms[..|ms|] == ms;
  }

  lemma InvocationKeysAppend(ms: seq<ModelInvocationRef>, m: ModelInvocationRef)
    ensures InvocationKeys(ms + [m]) ==
            if Indexable(m) then InvocationKeys(ms) + {ModelInvocationKey(m)} else InvocationKeys(ms)
  {
    var all := ms + [m];
    assert all[|ms|] == m;
    assert forall i :: 0 <= i < |ms| ==> all[i] == ms[i];
    forall k | k in InvocationKeys(ms) ensures k in InvocationKeys(all) {
      var i :| 0 <= i < |ms| && Indexable(ms[i]) && ModelInvocationKey(ms[i]) == k;
      assert all[i] == ms[i];
    }
  }

  lemma InvocationRoleAppend(ms: seq<ModelInvocationRef>, m: ModelInvocationRef, role: string)
    ensures HasInvocationRole(ms + [m], role) <==> HasInvocationRole(ms, role) || m.agentRole == role
  {
    var all := ms + [m];
    assert all[|ms|] == m;
    assert forall i :: 0 <= i < |ms| ==> all[i] == ms[i];
  }

  method IndexReferences(a: Artifacts) returns (buildTestRefs: set<string>, candidateRefs: set<string>)
    ensures buildTestRefs == BuildKeys(a.buildTestResults)
    ensures candidateRefs == CandidateKeys(a.generatedJavaArtifacts)
  {
    buildTestRefs, candidateRefs := {}, {};
    for i := 0 to |a.buildTestResults|
      invariant buildTestRefs == set k | 0 <= k < i :: DataReferenceKey(a.buildTestResults[k])
    {
      buildTestRefs := buildTestRefs + {DataReferenceKey(a.buildTestResults[i])};
    }
    for i := 0 to |a.generatedJavaArtifacts|
      invariant candidateRefs == set k | 0 <= k < i :: JavaCandidateKey(a.generatedJavaArtifacts[k])
    {
      candidateRefs := candidateRefs + {JavaCandidateKey(a.generatedJavaArtifacts[i])};
    }
  }

  method CheckAttempt(
    a: Artifacts, i: nat, buildTestRefs: set<string>, modelInvocationRefs: set<string>, candidateRefs: set<string>)
    returns (missing: seq<Gap>)
    requires i < |a.repairAttempts|
    requires buildTestRefs == BuildKeys(a.buildTestResults)
    requires modelInvocationRefs == InvocationKeys(a.modelInvocations)
    requires candidateRefs == CandidateKeys(a.generatedJavaArtifacts)
    ensures missing == AttemptGaps(a, i)
  {
    var attempt := a.repairAttempts[i];
    missing := [];
    if DataReferenceKey(attempt.buildTestResultRef) !in buildTestRefs {
      missing := missing + [AttemptGap(i, BuildTestResultRef)];
    }
    assert missing == BuildGap(a, attempt, i);
    if attempt.modelInvocationRef.None? {
      missing := missing + [AttemptGap(i, InvocationRef)];
    } else if attempt.modelInvocationRef.value.agentRole != ROLE_REPAIR {
      missing := missing + [AttemptGap(i, InvocationRole)];
    } else if ModelInvocationKey(attempt.modelInvocationRef.value) !in modelInvocationRefs {
      missing := missing + [AttemptGap(i, InvocationRef)];
    }
    assert missing == BuildGap(a, attempt, i) + InvocationGap(a, attempt, i);
    if attempt.newJavaCandidateRef.Some? && JavaCandidateKey(attempt.newJavaCandidateRef.value) !in candidateRefs {
      missing := missing + [AttemptGap(i, NewCandidateRef)];
    }
  }

  method CheckAttempts(a: Artifacts, modelInvocationRefs: set<string>) returns (missing: seq<Gap>)
    requires modelInvocationRefs == InvocationKeys(a.modelInvocations)
    ensures missing == AllAttemptGaps(a)
  {
    missing := [];
    var buildTestRefs, candidateRefs := IndexReferences(a);
    ghost var lists := AttemptGapLists(a);
    for i := 0 to |a.repairAttempts|
      invariant missing == Flatten(lists[..i])
    {
      var gaps := CheckAttempt(a, i, buildTestRefs, modelInvocationRefs, candidateRefs);
      missing := missing + gaps;
      assert lists[..i + 1] == lists[..i] + [gaps];
    }
    assert lists[..|lists|] == lists;
  }

  method CheckRoles(a: Artifacts, modelInvocationRoles: set<string>) returns (missing: seq<Gap>)
    requires forall role :: role in modelInvocationRoles <==> role != "" && HasInvocationRole(a.modelInvocations, role)
    ensures missing == RoleGaps(a)
  {
    missing := [];
    var repairs := HasTrajectoryRole(a.agentTrajectories, ROLE_REPAIR);
    if repairs && |a.repairAttempts| == 0 {
      missing := missing + [Gap(RepairAttempts)];
    }
    if HasTrajectoryRole(a.agentTrajectories, ROLE_TRANSFORMATION) && ROLE_TRANSFORMATION !in modelInvocationRoles {
      missing := missing + [Gap(ModelInvocationsTransformation)];
    }
    if repairs && ROLE_REPAIR !in modelInvocationRoles {
      missing := missing + [Gap(ModelInvocationsRepair)];
    }
  }

  method CheckCandidates(a: Artifacts) returns (missing: seq<Gap>)
    ensures missing == CandidateGaps(a)
  {
    missing := [];
    if HasFinal(a) && |a.generatedJavaArtifacts| > 0 {
      var matchCount, selectedMatchCount, strays := CountCandidates(a.generatedJavaArtifacts, a.finalJavaArtifact.value);
      missing := missing + strays;
      if matchCount != 1 {
        missing := missing + [Gap(FinalAmongCandidates)];
      }
      if matchCount == 1 && selectedMatchCount != 1 {
        missing := missing + [Gap(SelectedCandidate)];
      }
    }
  }

  method ValidateReferentialIntegrity(a: Artifacts) returns (missing: seq<Gap>)
    ensures missing == IntegrityGaps(a)
  {
    var modelInvocationRefs, modelInvocationRoles := IndexInvocations(a.modelInvocations);
    missing := CheckRoles(a, modelInvocationRoles);
    var candidates := CheckCandidates(a);
    missing := missing + candidates;
    missing := missing + GeneratedGaps(a);
    missing := missing + BudgetGaps(a);
    missing := missing + DecisionGaps(a);
    var attempts := CheckAttempts(a, modelInvocationRefs);
    missing := missing + attempts;
  }

  method EvaluateValidationForWave(a: Artifacts, wave: Wave) returns (v: ValidationResult)
    ensures v == WaveValidation(a, wave)
  {
    var missing: seq<Gap>;
    if wave.W02? {
      missing := PresenceGaps2(a);
      var integrity := ValidateReferentialIntegrity(a);
      missing := missing + integrity;
    } else {
      missing := PresenceGaps0(a);
    }
    v := ValidationResult(|missing| == 0, if wave.W02? then REQUIRED_W02 else REQUIRED_W0, missing, CompletenessOf(missing));
  }

  method EvaluateValidationForManifest(a: Artifacts, wave: Wave, carriedOver: bool) returns (v: ValidationResult)
    ensures v == ManifestValidation(a, wave, carriedOver)
  {
    v := EvaluateValidationForWave(a, wave);
    if carriedOver {
      if ManualEditOverlay !in v.required {
        v := v.(required := v.required + [ManualEditOverlay]);
      }
      if !HasOverlay(a) {
        if Gap(ManualEditOverlay) !in v.missing {
          v := v.(missing := v.missing + [Gap(ManualEditOverlay)]);
        }
        v := v.(ok := false, completeness := IncompleteEvidence);
      }
    }
  }

  // ----- what an empty list means -----

  /** Exactly one candidate is selected, and it is the only one that is the final artifact. */
  ghost predicate OneSelectedFinal(cs: seq<JavaCandidateRef>, final: JavaCandidateRef) {
    exists k :: SelectedAt(cs, final, k)
  }

  ghost predicate SelectedAt(cs: seq<JavaCandidateRef>, final: JavaCandidateRef, k: int) {
    && 0 <= k < |cs| && SameCandidate(cs[k], final) && cs[k].selected
    && forall i :: 0 <= i < |cs| && i != k ==> !SameCandidate(cs[i], final) && !cs[i].selected
  }

  lemma {:induction false} NoMatches(cs: seq<JavaCandidateRef>, final: JavaCandidateRef)
    ensures Matches(cs, final) == 0 <==> forall i :: 0 <= i < |cs| ==> !SameCandidate(cs[i], final)
    ensures SelectedMatches(cs, final) <= Matches(cs, final)
  {
    if cs != [] {
      var rest := cs[..|cs| - 1];
      NoMatches(rest, final);
      assert forall i :: 0 <= i < |rest| ==> rest[i] == cs[i];
    }
  }

  lemma {:induction false} NoStrays(cs: seq<JavaCandidateRef>, final: JavaCandidateRef)
    ensures StrayGaps(cs, final) == [] <==>
            forall i :: 0 <= i < |cs| && cs[i].selected ==> SameCandidate(cs[i], final)
  {
    if cs != [] {
      var rest := cs[..|cs| - 1];
      NoStrays(rest, final);
      assert forall i :: 0 <= i < |rest| ==> rest[i] == cs[i];
    }
  }

  lemma OneSelectedAppend(rest: seq<JavaCandidateRef>, c: JavaCandidateRef, final: JavaCandidateRef)
    ensures OneSelectedFinal(rest + [c], final) <==>
            if SameCandidate(c, final)
            then c.selected && forall i :: 0 <= i < |rest| ==> !SameCandidate(rest[i], final) && !rest[i].selected
            else !c.selected && OneSelectedFinal(rest, final)
  {
    var cs, n := rest + [c], |rest|;
    assert cs[n] == c && forall i :: 0 <= i < n ==> cs[i] == rest[i];
    if SameCandidate(c, final) {
      if c.selected && forall i :: 0 <= i < n ==> !SameCandidate(rest[i], final) && !rest[i].selected {
        assert SelectedAt(cs, final, n);
      }
      if k :| SelectedAt(cs, final, k) {
        assert k == n;
      }
    } else {
      if k :| SelectedAt(rest, final, k) && !c.selected {
        assert SelectedAt(cs, final, k);
      }
      if k :| SelectedAt(cs, final, k) {
        assert SelectedAt(rest, final, k);
      }
    }
  }

  /** The counters are both one and no stray is selected exactly when there is one selected final. */
  lemma {:induction false} CountsMeanOneSelected(cs: seq<JavaCandidateRef>, final: JavaCandidateRef)
    ensures Matches(cs, final) == 1 && SelectedMatches(cs, final) == 1 && StrayGaps(cs, final) == []
            <==> OneSelectedFinal(cs, final)
  {
    if cs != [] {
      var rest, c := cs[..|cs| - 1], cs[|cs| - 1];
      assert cs == rest + [c];
      CountsMeanOneSelected(rest, final);
      OneSelectedAppend(rest, c, final);
      NoMatches(rest, final);
      NoStrays(rest, final);
    }
  }

  predicate AllPresent0(a: Artifacts) {
    && |a.sourceCobol| > 0 && Present(a.semanticIr) && Present(a.generatedJava) && |a.buildTestResults| > 0
    && Present(a.harnessEvents) && |a.modelInvocations| > 0
  }

  predicate AllPresent2(a: Artifacts) {
    && |a.sourceCobol| > 0 && Present(a.sourceMetadata) && Present(a.parseOutput) && Present(a.semanticIr)
    && Present(a.generatedJava) && |a.generatedJavaArtifacts| > 0 && HasFinal(a) && |a.buildTestResults| > 0
    && HasOracle(a) && HasRuntime(a) && Present(a.harnessEvents) && |a.modelInvocations| > 0
    && |a.agentTrajectories| > 0 && HasDecision(a) && HasBudget(a)
  }

  lemma NoPresenceGaps(a: Artifacts)
    ensures PresenceGaps0(a) == [] <==> AllPresent0(a)
    ensures PresenceGaps2(a) == [] <==> AllPresent2(a)
  {
  }

  /** End-of-run consumption is at or above the snapshot taken at the gate, for all three budgets. */
  predicate BudgetsGrew(a: Artifacts)
    requires HasDecision(a) && HasBudget(a)
  {
    var d, b := a.assistDecision.value, a.budgetSummary.value;
    && (d.assistSnapshot.Some? ==> d.assistSnapshot.value.used <= b.assist.used)
    && (d.repairSnapshot.Some? ==> d.repairSnapshot.value.used <= b.repair.used)
    && (d.modelInvocationSnapshot.Some? ==> d.modelInvocationSnapshot.value.used <= b.modelInvocation.used)
  }

  /** Agents that left a trajectory, or that the gate selected, left their model invocations too. */
  predicate RolesBackedUp(a: Artifacts) {
    && (HasTrajectoryRole(a.agentTrajectories, ROLE_REPAIR) ==>
          |a.repairAttempts| > 0 && HasInvocationRole(a.modelInvocations, ROLE_REPAIR))
    && (HasTrajectoryRole(a.agentTrajectories, ROLE_TRANSFORMATION) || DecisionNeedsTransformation(a) ==>
          HasInvocationRole(a.modelInvocations, ROLE_TRANSFORMATION))
  }

  ghost predicate BuildResolves(a: Artifacts, r: RepairAttempt) {
    exists k :: 0 <= k < |a.buildTestResults|
      && a.buildTestResults[k].uri == r.buildTestResultRef.uri
      && a.buildTestResults[k].sha256 == r.buildTestResultRef.sha256
  }

  ghost predicate InvocationResolves(a: Artifacts, r: RepairAttempt) {
    && r.modelInvocationRef.Some?
    && r.modelInvocationRef.value.agentRole == ROLE_REPAIR
    && exists k :: 0 <= k < |a.modelInvocations| && SameInvocation(a.modelInvocations[k], r.modelInvocationRef.value)
  }

  ghost predicate CandidateResolves(a: Artifacts, r: RepairAttempt) {
    r.newJavaCandidateRef.Some? ==>
      exists k :: 0 <= k < |a.generatedJavaArtifacts|
        && SameCandidate(a.generatedJavaArtifacts[k], r.newJavaCandidateRef.value)
  }

  /** All references of a repair attempt point at records inside the pack. */
  ghost predicate AttemptResolves(a: Artifacts, r: RepairAttempt) {
    BuildResolves(a, r) && InvocationResolves(a, r) && CandidateResolves(a, r)
  }

  /** No invocation identifier of the pack or of its repair attempts holds the key separator. */
  predicate NulFreeInvocations(a: Artifacts) {
    && (forall i :: 0 <= i < |a.modelInvocations| ==> NulFreeInvocation(a.modelInvocations[i]))
    && (forall i :: 0 <= i < |a.repairAttempts| && a.repairAttempts[i].modelInvocationRef.Some? ==>
          NulFreeInvocation(a.repairAttempts[i].modelInvocationRef.value))
  }

  lemma BuildKeyExact(env: Screens, a: Artifacts, r: RepairAttempt)
    requires AllValid(env, a.buildTestResults) && r.Valid(env)
    ensures DataReferenceKey(r.buildTestResultRef) in BuildKeys(a.buildTestResults) <==> BuildResolves(a, r)
  {
    var target := r.buildTestResultRef;
    if DataReferenceKey(target) in BuildKeys(a.buildTestResults) {
      var k :| 0 <= k < |a.buildTestResults| && DataReferenceKey(a.buildTestResults[k]) == DataReferenceKey(target);
      var found := a.buildTestResults[k];
      ReferenceKeyInjective(found.uri, found.sha256, target.uri, target.sha256);
    }
  }

  lemma CandidateKeyExact(env: Screens, a: Artifacts, c: JavaCandidateRef)
    requires forall i :: 0 <= i < |a.generatedJavaArtifacts| ==> a.generatedJavaArtifacts[i].Valid(env)
    requires c.Valid(env)
    ensures JavaCandidateKey(c) in CandidateKeys(a.generatedJavaArtifacts) <==>
            exists k :: 0 <= k < |a.generatedJavaArtifacts| && SameCandidate(a.generatedJavaArtifacts[k], c)
  {
    var cs := a.generatedJavaArtifacts;
    if JavaCandidateKey(c) in CandidateKeys(cs) {
      var k :| 0 <= k < |cs| && JavaCandidateKey(cs[k]) == JavaCandidateKey(c);
      ReferenceKeyInjective(cs[k].uri, cs[k].sha256, c.uri, c.sha256);
      assert SameCandidate(cs[k], c);
    }
    if k :| 0 <= k < |cs| && SameCandidate(cs[k], c) {
      assert JavaCandidateKey(cs[k]) == JavaCandidateKey(c);
    }
  }

  /** A stored invocation has the key of this one and an equally long identifier. */
  ghost predicate EquallyLongStored(a: Artifacts, m: ModelInvocationRef) {
    exists k :: 0 <= k < |a.modelInvocations|
      && ModelInvocationKey(a.modelInvocations[k]) == ModelInvocationKey(m)
      && |a.modelInvocations[k].invocationId| == |m.invocationId|
  }

  /** The lookup by key finds the invocation itself exactly when a hit has an equally long identifier. */
  lemma InvocationKeyExact(env: Screens, a: Artifacts, m: ModelInvocationRef)
    requires forall i :: 0 <= i < |a.modelInvocations| ==> a.modelInvocations[i].Valid(env)
    requires m.Valid(env)
    ensures ModelInvocationKey(m) in InvocationKeys(a.modelInvocations) && EquallyLongStored(a, m) <==>
            exists k :: 0 <= k < |a.modelInvocations| && SameInvocation(a.modelInvocations[k], m)
  {
    var ms := a.modelInvocations;
    if EquallyLongStored(a, m) {
      var k :| 0 <= k < |ms| && ModelInvocationKey(ms[k]) == ModelInvocationKey(m)
               && |ms[k].invocationId| == |m.invocationId|;
      InvocationKeyInjective(env, ms[k], m);
    }
    if k :| 0 <= k < |ms| && SameInvocation(ms[k], m) {
      assert ms[k].Valid(env) && Indexable(ms[k]) && ModelInvocationKey(ms[k]) == ModelInvocationKey(m);
    }
  }

  /** Every repair invocation is told apart by the length of its identifier. */
  ghost predicate LengthsTellInvocations(a: Artifacts) {
    forall i :: 0 <= i < |a.repairAttempts| && a.repairAttempts[i].modelInvocationRef.Some? ==>
      EquallyLongStored(a, a.repairAttempts[i].modelInvocationRef.value)
  }

  /** What a repair attempt without gaps proves whatever its identifiers are. */
  ghost predicate AttemptChecked(a: Artifacts, r: RepairAttempt) {
    && BuildResolves(a, r)
    && CandidateResolves(a, r)
    && r.modelInvocationRef.Some?
    && r.modelInvocationRef.value.agentRole == ROLE_REPAIR
    && ModelInvocationKey(r.modelInvocationRef.value) in InvocationKeys(a.modelInvocations)
  }

  ghost predicate AllChecked(a: Artifacts) {
    forall i :: 0 <= i < |a.repairAttempts| ==> AttemptChecked(a, a.repairAttempts[i])
  }

  lemma OneAttemptExact(env: Screens, a: Artifacts, i: nat)
    requires i < |a.repairAttempts| && ValidShape(env, a)
    ensures AttemptGaps(a, i) == [] <==> AttemptChecked(a, a.repairAttempts[i])
  {
    var r := a.repairAttempts[i];
    BuildKeyExact(env, a, r);
    assert BuildGap(a, r, i) == [] <==> BuildResolves(a, r);
    if r.newJavaCandidateRef.Some? { CandidateKeyExact(env, a, r.newJavaCandidateRef.value); }
    assert NewCandidateGap(a, r, i) == [] <==> CandidateResolves(a, r);
  }

  ghost predicate AllResolve(a: Artifacts) {
    forall i :: 0 <= i < |a.repairAttempts| ==> AttemptResolves(a, a.repairAttempts[i])
  }

  lemma {:induction false} FlattenEmpty(parts: seq<seq<Gap>>)
    ensures Flatten(parts) == [] <==> forall i :: 0 <= i < |parts| ==> parts[i] == []
  {
    if parts != [] {
      FlattenEmpty(parts[..|parts| - 1]);
    }
  }

  lemma NoAttemptGaps(env: Screens, a: Artifacts)
    requires ValidShape(env, a)
    ensures AllAttemptGaps(a) == [] <==> AllChecked(a)
  {
    var lists := AttemptGapLists(a);
    FlattenEmpty(lists);
    forall i | 0 <= i < |a.repairAttempts| ensures lists[i] == [] <==> AttemptChecked(a, a.repairAttempts[i]) {
      OneAttemptExact(env, a, i);
    }
  }

  /** Every attempt resolves exactly when all are checked and the lengths tell their invocations apart. */
  lemma CheckedMeansResolved(env: Screens, a: Artifacts)
    requires ValidShape(env, a)
    ensures AllResolve(a) <==> AllChecked(a) && LengthsTellInvocations(a)
  {
    forall i | 0 <= i < |a.repairAttempts|
      ensures var r := a.repairAttempts[i];
              AttemptResolves(a, r) <==>
              AttemptChecked(a, r) && EquallyLongStored(a, r.modelInvocationRef.value)
    {
      var r := a.repairAttempts[i];
      if r.modelInvocationRef.Some? {
        InvocationKeyExact(env, a, r.modelInvocationRef.value);
      }
    }
    if AllResolve(a) {
      assert forall i :: 0 <= i < |a.repairAttempts| ==> AttemptResolves(a, a.repairAttempts[i]);
    }
    if AllChecked(a) && LengthsTellInvocations(a) {
      assert forall i :: 0 <= i < |a.repairAttempts| ==> AttemptChecked(a, a.repairAttempts[i]);
    }
  }

  /** Identifiers free of the separator meet that condition. */
  lemma NulFreeLengths(env: Screens, a: Artifacts)
    requires ValidShape(env, a) && NulFreeInvocations(a) && AllChecked(a)
    ensures LengthsTellInvocations(a)
  {
    var ms := a.modelInvocations;
    forall i | 0 <= i < |a.repairAttempts| && a.repairAttempts[i].modelInvocationRef.Some?
      ensures EquallyLongStored(a, a.repairAttempts[i].modelInvocationRef.value)
    {
      assert AttemptChecked(a, a.repairAttempts[i]);
      var m := a.repairAttempts[i].modelInvocationRef.value;
      var k :| 0 <= k < |ms| && Indexable(ms[k]) && ModelInvocationKey(ms[k]) == ModelInvocationKey(m);
      NulFreeKeyInjective(env, ms[k], m);
    }
  }

  /** What an auditor may rely on in a complete W0.2 pack. */
  ghost predicate AuditComplete(a: Artifacts) {
    && AllPresent2(a)
    && RolesBackedUp(a)
    && OneSelectedFinal(a.generatedJavaArtifacts, a.finalJavaArtifact.value)
    && a.generatedJava.value.uri == a.finalJavaArtifact.value.uri
    && a.generatedJava.value.sha256 == a.finalJavaArtifact.value.sha256
    && BudgetsGrew(a)
    && AllResolve(a)
  }

  lemma NoIntegrityGaps(a: Artifacts)
    ensures IntegrityGaps(a) == [] <==>
            && RoleGaps(a) == [] && CandidateGaps(a) == [] && GeneratedGaps(a) == [] && BudgetGaps(a) == []
            && DecisionGaps(a) == [] && AllAttemptGaps(a) == []
  {
  }

  lemma NoRoleGaps(a: Artifacts)
    ensures RoleGaps(a) == [] && DecisionGaps(a) == [] <==> RolesBackedUp(a)
  {
  }

  lemma NoValueGaps(a: Artifacts)
    requires AllPresent2(a)
    ensures BudgetGaps(a) == [] <==> BudgetsGrew(a)
    ensures GeneratedGaps(a) == [] <==>
            && a.generatedJava.value.uri == a.finalJavaArtifact.value.uri
            && a.generatedJava.value.sha256 == a.finalJavaArtifact.value.sha256
    ensures CandidateGaps(a) == [] <==> OneSelectedFinal(a.generatedJavaArtifacts, a.finalJavaArtifact.value)
  {
    CountsMeanOneSelected(a.generatedJavaArtifacts, a.finalJavaArtifact.value);
  }

  /** All of it but the identity of the repair invocations. */
  ghost predicate AuditChecked(a: Artifacts) {
    && AllPresent2(a)
    && RolesBackedUp(a)
    && OneSelectedFinal(a.generatedJavaArtifacts, a.finalJavaArtifact.value)
    && a.generatedJava.value.uri == a.finalJavaArtifact.value.uri
    && a.generatedJava.value.sha256 == a.finalJavaArtifact.value.sha256
    && BudgetsGrew(a)
    && AllChecked(a)
  }

  /** The list of gaps of a well-formed W0.2 pack is empty exactly when the pack is audit checked. */
  lemma NoGapsMeansAuditChecked(env: Screens, a: Artifacts)
    requires ValidShape(env, a)
    ensures WaveGaps(a, W02) == [] <==> AuditChecked(a)
  {
    NoPresenceGaps(a);
    NoIntegrityGaps(a);
    NoRoleGaps(a);
    NoAttemptGaps(env, a);
    if AllPresent2(a) {
      NoValueGaps(a);
    }
  }

  /** A well-formed W0.2 pack is audit complete exactly when it has no gap and the lengths of the
      identifiers tell its repair invocations apart; NUL-free identifiers always do. */
  lemma NoGapsMeansAuditComplete(env: Screens, a: Artifacts)
    requires ValidShape(env, a)
    ensures AuditComplete(a) <==> WaveGaps(a, W02) == [] && LengthsTellInvocations(a)
    ensures NulFreeInvocations(a) ==> (AuditComplete(a) <==> WaveGaps(a, W02) == [])
  {
    NoGapsMeansAuditChecked(env, a);
    CheckedMeansResolved(env, a);
    if NulFreeInvocations(a) && AllChecked(a) {
      NulFreeLengths(env, a);
    }
  }

  /** Without the condition the claim fails: this attempt names invocation "a" with ledger "b NUL c", the
      pack only holds invocation "a NUL b" with ledger "c", and no gap is reported. */
  lemma InvocationGapMissesCollision(env: Screens, hash: string)
    requires IsSha256(hash) && Passes(env, {"a", "a\0b", "model", ROLE_REPAIR, "b\0c", "c", "t"})
    ensures exists a: Artifacts, r: RepairAttempt ::
              && ValidShape(env, a) && r in a.repairAttempts
              && InvocationGap(a, r, 0) == [] && !InvocationResolves(a, r)
  {
    var stored := ModelInvocationRef("a\0b", "model", ROLE_REPAIR, 0, DataReference("c", hash, 0, "", ""), []);
    var named := ModelInvocationRef("a", "model", ROLE_REPAIR, 0, DataReference("b\0c", hash, 0, "", ""), []);
    var r := RepairAttempt(1, DECISION_NO_CHANGE, None, Some(named), None, DataReference("t", hash, 0, "", ""), "", true);
    var a := NoArtifacts().(modelInvocations := [stored], repairAttempts := [r]);
    assert ModelInvocationKey(stored) == "a\0b\0c\0" + hash == ModelInvocationKey(named);
    assert a.modelInvocations[0] == stored && Indexable(stored);
    assert ModelInvocationKey(named) in InvocationKeys(a.modelInvocations);
    assert !SameInvocation(stored, named);
    assert stored.Valid(env) && named.Valid(env) && r.Valid(env) && a.repairAttempts[0] == r;
    assert ValidShape(env, a) && r in a.repairAttempts;
    assert InvocationGap(a, r, 0) == [] && !InvocationResolves(a, r);
  }
}
