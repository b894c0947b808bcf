/**
 The evidence pack manifest and its structural validation.

 Times are integers with 0 for Go's zero time. `Screens` stands for the secret patterns and
 the URL parser. Validation is modelled as a predicate: it holds when the Go method returns nil.
 */
module EvidenceManifest {
  import opened Prelude

  datatype Screens = Screens(secretLike: string -> bool, httpWithQuery: string -> bool)

  predicate SecretLike(env: Screens, value: string) {
    value != "" && env.secretLike(value)
  }

  /** None of these texts is taken for a secret or for a URL with a query. */
  ghost predicate Passes(env: Screens, texts: set<string>) {
    forall s :: s in texts ==> !SecretLike(env, s) && !env.httpWithQuery(s)
  }

  // ----- references -----

  datatype DataReference = DataReference(uri: string, sha256: string, byteSize: int, mimeType: string, kind: string) {
    predicate IsZero() {
      uri == "" && sha256 == "" && byteSize == 0
    }

    predicate Valid(env: Screens) {
      && uri != ""
      && !SecretLike(env, uri)
      && !env.httpWithQuery(uri)
      && IsSha256(sha256)
      && byteSize >= 0
    }
  }

  predicate AllValid(env: Screens, refs: seq<DataReference>) {
    forall i :: 0 <= i < |refs| ==> refs[i].Valid(env)
  }

  predicate ValidIfPresent(env: Screens, ref: Option<DataReference>) {
    ref.Some? ==> ref.value.Valid(env)
  }

  /** A pointer field counts as present when it is non-nil and not a zero value. */
  predicate Present(ref: Option<DataReference>) {
    ref.Some? && !ref.value.IsZero()
  }

  datatype TransformationPass = TransformationPass(
    name: string, order: int, inputRef: Option<DataReference>, outputRef: DataReference, policyDecision: string)
  {
    predicate Valid(env: Screens) {
      name != "" && outputRef.Valid(env) && ValidIfPresent(env, inputRef)
    }
  }

  /** `otherTexts` holds the remaining string fields, which are only screened for secrets. */
  datatype ModelInvocationRef = ModelInvocationRef(
    invocationId: string, modelId: string, agentRole: string, latencyMs: int, ledgerRef: DataReference,
    otherTexts: seq<string>)
  {
    predicate Valid(env: Screens) {
      && invocationId != ""
      && modelId != ""
      && ledgerRef.Valid(env)
      && !SecretLike(env, invocationId) && !SecretLike(env, modelId) && !SecretLike(env, agentRole)
      && forall i :: 0 <= i < |otherTexts| ==> !SecretLike(env, otherTexts[i])
    }
  }

  const ORIGIN_BASELINE := "deterministic-baseline"
  const ORIGIN_TRANSFORMATION := "transformation-agent"
  const ORIGIN_REPAIR := "verification-repair-agent"

  datatype JavaCandidateRef = JavaCandidateRef(
    uri: string, sha256: string, byteSize: int, mimeType: string, kind: string,
    origin: string, attemptNumber: int, selected: bool)
  {
    predicate IsZero() {
      uri == "" && sha256 == "" && byteSize == 0 && origin == ""
    }

    function AsDataReference(): DataReference {
      DataReference(uri, sha256, byteSize, mimeType, kind)
    }

    predicate Valid(env: Screens) {
      && AsDataReference().Valid(env)
      && (origin == ORIGIN_BASELINE || origin == ORIGIN_TRANSFORMATION || origin == ORIGIN_REPAIR)
      && attemptNumber >= 0
    }
  }

  const DECISION_PROPOSE := "propose_candidate"
  const DECISION_REFUSE := "refuse"
  const DECISION_ESCALATE := "escalate"
  const DECISION_NO_CHANGE := "no_change"

  datatype RepairAttempt = RepairAttempt(
    attemptNumber: int, decision: string, decisionRef: Option<DataReference>,
    modelInvocationRef: Option<ModelInvocationRef>, newJavaCandidateRef: Option<JavaCandidateRef>,
    buildTestResultRef: DataReference, refusalCode: string, noChange: bool)
  {
    predicate Valid(env: Screens) {
      && attemptNumber > 0
      && (decision == DECISION_PROPOSE || decision == DECISION_REFUSE
          || decision == DECISION_ESCALATE || decision == DECISION_NO_CHANGE)
      && buildTestResultRef.Valid(env)
      && ValidIfPresent(env, decisionRef)
      && (modelInvocationRef.Some? ==> modelInvocationRef.value.Valid(env))
      && (newJavaCandidateRef.Some? ==> newJavaCandidateRef.value.Valid(env))
      && (decision == DECISION_PROPOSE ==> newJavaCandidateRef.Some?)
      && (decision == DECISION_REFUSE || decision == DECISION_ESCALATE ==> refusalCode != "")
    }
  }

  const ROLE_ORCHESTRATOR := "orchestrator"
  const ROLE_TRANSFORMATION := "transformation"
  const ROLE_REPAIR := "verification-repair"

  datatype AgentTrajectoryRef = AgentTrajectoryRef(agentRole: string, ledgerRef: DataReference) {
    predicate Valid(env: Screens) {
      && (agentRole == ROLE_ORCHESTRATOR || agentRole == ROLE_TRANSFORMATION || agentRole == ROLE_REPAIR)
      && ledgerRef.Valid(env)
    }
  }

  const MAX_COMPARISON_TEXT := 4000

  /** `otherRefs` holds the further optional references under their field names; exit codes
      and version labels are kept because they make the comparison non-zero. */
  datatype OracleComparison = OracleComparison(
    matched: bool, oracleKind: string, expectedSha256: string, actualSha256: string,
    otherRefs: map<string, DataReference>, classification: string, status: string,
    policyVersion: string, mismatchClassification: string,
    sourceExitCode: Option<int>, targetExitCode: Option<int>, diffSummary: string, summary: string)
  {
    predicate IsZero() {
      && !matched && oracleKind == "" && expectedSha256 == "" && actualSha256 == "" && otherRefs == map[]
      && classification == "" && status == "" && policyVersion == "" && mismatchClassification == ""
      && sourceExitCode.None? && targetExitCode.None? && diffSummary == "" && summary == ""
    }

    predicate Valid(env: Screens) {
      && oracleKind in {"", "cobol-runtime", "synthetic", "true-golden-master", "user-provided", "absent"}
      && (expectedSha256 != "" ==> IsSha256(expectedSha256))
      && (actualSha256 != "" ==> IsSha256(actualSha256))
      && (forall field :: field in otherRefs ==> otherRefs[field].Valid(env))
      && status in {"", "passed", "failed", "blocked"}
      && |diffSummary| <= MAX_COMPARISON_TEXT
      && |summary| <= MAX_COMPARISON_TEXT
    }
  }

  datatype RuntimeVersion = RuntimeVersion(id: string, ref: Option<DataReference>) {
    predicate IsZero() {
      id == "" && (ref.None? || ref.value.IsZero())
    }

    predicate Valid(env: Screens) {
      id != "" && ValidIfPresent(env, ref)
    }
  }

  // ----- budgets and the assist decision -----

  datatype BudgetSnapshot = BudgetSnapshot(limit: int, used: int, remaining: int) {
    predicate IsZero() {
      limit == 0 && used == 0 && remaining == 0
    }

    predicate Valid() {
      && limit >= 0 && used >= 0
      && remaining == if limit - used < 0 then 0 else limit - used
    }
  }

  datatype BudgetSummary = BudgetSummary(repair: BudgetSnapshot, assist: BudgetSnapshot, modelInvocation: BudgetSnapshot) {
    predicate IsZero() {
      repair.IsZero() && assist.IsZero() && modelInvocation.IsZero()
    }

    predicate Valid() {
      repair.Valid() && assist.Valid() && modelInvocation.Valid()
    }
  }

  const ASSIST_REQUIRED := "assist_required"
  const ASSIST_NOT_REQUIRED := "assist_not_required"
  const REASON_BUDGET_EXHAUSTED := "assist_budget_exhausted"
  const ASSIST_AGENT_TRANSFORMATION := "transformation_agent"

  const ASSIST_REASONS: set<string> := {
    "semantic_ir_bounded_ambiguity", "translation_unsupported_repairable", "baseline_open_assumptions",
    "deterministic_candidate_low_confidence", "caller_explicit_opt_in", "caller_did_not_opt_in",
    REASON_BUDGET_EXHAUSTED
  }

  predicate ValidSnapshot(s: Option<BudgetSnapshot>) {
    s.Some? && s.value.Valid()
  }

  datatype AssistDecision = AssistDecision(
    outcome: string, reasonCode: string, decidedAt: string, selectedAgentRole: string, rationale: string,
    repairSnapshot: Option<BudgetSnapshot>, assistSnapshot: Option<BudgetSnapshot>,
    modelInvocationSnapshot: Option<BudgetSnapshot>, affectedArtifactRefs: seq<DataReference>)
  {
    predicate IsZero() {
      outcome == "" && reasonCode == "" && decidedAt == ""
    }

    predicate Valid(env: Screens) {
      && (outcome == ASSIST_REQUIRED || outcome == ASSIST_NOT_REQUIRED)
      && reasonCode in ASSIST_REASONS
      && decidedAt != ""
      && (selectedAgentRole == "" || selectedAgentRole == ASSIST_AGENT_TRANSFORMATION)
      && (outcome == ASSIST_REQUIRED <==> selectedAgentRole != "")
      && (reasonCode == REASON_BUDGET_EXHAUSTED ==> outcome == ASSIST_NOT_REQUIRED)
      && ValidSnapshot(repairSnapshot) && ValidSnapshot(assistSnapshot) && ValidSnapshot(modelInvocationSnapshot)
      && AllValid(env, affectedArtifactRefs)
      && !SecretLike(env, rationale)
    }
  }

  datatype ManualEditOverlayRef = ManualEditOverlayRef(
    uri: string, sha256: string, byteSize: int, mimeType: string, kind: string, schemaVersion: string,
    regionCount: int)
  {
    predicate IsZero() {
      uri == "" && sha256 == "" && byteSize == 0 && regionCount == 0
    }

    predicate Valid(env: Screens) {
      && DataReference(uri, sha256, byteSize, mimeType, kind).Valid(env)
      && (schemaVersion == "" || schemaVersion == "v0")
      && regionCount > 0
    }
  }

  // ----- the artifacts of a pack -----

  datatype Artifacts = Artifacts(
    sourceCobol: seq<DataReference>,
    sourceMetadata: Option<DataReference>,
    corpusMetadata: Option<DataReference>,
    parseOutput: Option<DataReference>,
    semanticIr: Option<DataReference>,
    transformationPasses: seq<TransformationPass>,
    generatedJava: Option<DataReference>,
    generatedJavaArtifacts: seq<JavaCandidateRef>,
    finalJavaArtifact: Option<JavaCandidateRef>,
    repairAttempts: seq<RepairAttempt>,
    agentTrajectories: seq<AgentTrajectoryRef>,
    oracleComparison: Option<OracleComparison>,
    runtimeVersion: Option<RuntimeVersion>,
    modelInvocations: seq<ModelInvocationRef>,
    buildTestResults: seq<DataReference>,
    sbom: seq<DataReference>,
    licenseReports: seq<DataReference>,
    harnessEvents: Option<DataReference>,
    trajectoryLedger: Option<DataReference>,
    experienceEvents: seq<DataReference>,
    assistDecision: Option<AssistDecision>,
    budgetSummary: Option<BudgetSummary>,
    manualEditOverlay: Option<ManualEditOverlayRef>)

  function NoArtifacts(): Artifacts {
    Artifacts([], None, None, None, None, [], None, [], None, [], [], None, None, [], [], [], [], None, None, [],
              None, None, None)
  }

  /** validateArtifactsShape: every reference that is there is well formed. */
  predicate ValidShape(env: Screens, a: Artifacts) {
    && AllValid(env, a.sourceCobol)
    && ValidIfPresent(env, a.sourceMetadata)
    && ValidIfPresent(env, a.corpusMetadata)
    && ValidIfPresent(env, a.parseOutput)
    && ValidIfPresent(env, a.semanticIr)
    && (forall i :: 0 <= i < |a.transformationPasses| ==> a.transformationPasses[i].Valid(env))
    && ValidIfPresent(env, a.generatedJava)
    && (forall i :: 0 <= i < |a.generatedJavaArtifacts| ==> a.generatedJavaArtifacts[i].Valid(env))
    && (a.finalJavaArtifact.Some? ==> a.finalJavaArtifact.value.Valid(env))
    && (forall i :: 0 <= i < |a.repairAttempts| ==> a.repairAttempts[i].Valid(env))
    && (forall i :: 0 <= i < |a.agentTrajectories| ==> a.agentTrajectories[i].Valid(env))
    && (a.oracleComparison.Some? ==> a.oracleComparison.value.Valid(env))
    && (a.runtimeVersion.Some? ==> a.runtimeVersion.value.Valid(env))
    && (forall i :: 0 <= i < |a.modelInvocations| ==> a.modelInvocations[i].Valid(env))
    && AllValid(env, a.buildTestResults)
    && AllValid(env, a.sbom)
    && AllValid(env, a.licenseReports)
    && ValidIfPresent(env, a.harnessEvents)
    && ValidIfPresent(env, a.trajectoryLedger)
    && AllValid(env, a.experienceEvents)
    && (a.assistDecision.Some? && !a.assistDecision.value.IsZero() ==> a.assistDecision.value.Valid(env))
    && (a.budgetSummary.Some? && !a.budgetSummary.value.IsZero() ==> a.budgetSummary.value.Valid())
    && (a.manualEditOverlay.Some? ==> a.manualEditOverlay.value.Valid(env))
  }

  // ----- the manifest -----

  datatype Wave = W0 | W02

  datatype Status = Complete | Incomplete | Invalid

  datatype Completeness = CompleteEvidence | IncompleteEvidence | BlockedRun

  datatype Classification = Success | EvidenceIncomplete | Blocked | Failed

  /** The names in validation.requiredArtifacts and validation.missingArtifacts; the constructors
      after ManualEditOverlay are the dotted names of failed consistency rules. */
  datatype Name =
    | SourceCobol | SourceMetadata | ParseOutput | SemanticIr | GeneratedJava | GeneratedJavaArtifacts
    | FinalJavaArtifact | RuntimeVersionName | BuildTestResults | OracleComparisonName | HarnessEvents
    | ModelInvocations | AgentTrajectories | AssistDecisionName | BudgetSummaryName | ManualEditOverlay
    | RepairAttempts | ModelInvocationsTransformation | ModelInvocationsRepair | SelectedCandidate
    | FinalAmongCandidates | GeneratedIsFinal | AssistRegression | RepairRegression | ModelInvocationRegression
    | DecisionTransformation

  /** The reference of a repair attempt that fails to resolve. */
  datatype AttemptField = BuildTestResultRef | InvocationRef | InvocationRole | NewCandidateRef

  /** One entry of validation.missingArtifacts. */
  datatype Gap = Gap(name: Name) | AttemptGap(attempt: nat, field: AttemptField)

  datatype ValidationResult = ValidationResult(
    ok: bool, required: seq<Name>, missing: seq<Gap>, completeness: Completeness)

  datatype OpenAssumption = OpenAssumption(id: string, description: string, owner: string)

  datatype UnsupportedFeature = UnsupportedFeature(feature: string, context: string, sourceRef: Option<DataReference>)

  datatype ExportRecord = ExportRecord(format: string, uri: string, sha256: string, byteSize: int, createdAt: int)

  datatype Manifest = Manifest(
    packId: string, runId: string, workflowId: string, wave: Wave, status: Status, completeness: Completeness,
    classification: Classification, summary: string, carriedOver: bool, driftRegionCount: int,
    createdAt: int, createdBy: string, artifacts: Artifacts, openAssumptions: seq<OpenAssumption>,
    unsupportedFeatures: seq<UnsupportedFeature>, validation: ValidationResult, exports: seq<ExportRecord>)

  predicate PackIdChar(c: char) {
    'A' <= c <= 'Z' || 'a' <= c <= 'z' || '0' <= c <= '9' || c == '.' || c == '_' || c == '-'
  }

  predicate IsPackId(s: string) {
    |s| > 4 && s[..4] == "epk-" && forall i :: 4 <= i < |s| ==> PackIdChar(s[i])
  }

  /** validateManualEditConsistency, case by case as the switch tests them. */
  predicate ManualEditsConsistent(carriedOver: bool, drift: int, overlay: Option<ManualEditOverlayRef>) {
    var overlayPresent := overlay.Some? && !overlay.value.IsZero();
    if drift < 0 then false
    else if carriedOver && drift == 0 then false
    else if !carriedOver && drift > 0 then false
    else if carriedOver && !overlayPresent then false
    else if !carriedOver && overlay.Some? then false
    else overlayPresent ==> overlay.value.regionCount == drift
  }

  predicate ValidManifest(env: Screens, m: Manifest) {
    && IsPackId(m.packId)
    && m.runId != ""
    && m.validation.completeness == m.completeness
    && (m.classification.Success? ==> m.completeness.CompleteEvidence?)
    && (m.completeness.BlockedRun? ==> m.classification.Blocked?)
    && m.createdAt != 0
    && ManualEditsConsistent(m.carriedOver, m.driftRegionCount, m.artifacts.manualEditOverlay)
    && ValidShape(env, m.artifacts)
  }

  /** The cross-field rule in one line: the three manual-edit signals agree. */
  lemma ManualEditSignalsAgree(env: Screens, m: Manifest)
    requires ValidManifest(env, m)
    ensures m.carriedOver <==> m.driftRegionCount > 0
    ensures m.carriedOver <==> m.artifacts.manualEditOverlay.Some?
    ensures m.carriedOver ==> m.artifacts.manualEditOverlay.value.regionCount == m.driftRegionCount
    ensures !m.carriedOver ==> m.driftRegionCount == 0
  {
  }

  // ----- lookup keys -----

  function DataReferenceKey(r: DataReference): string {
    Join(r.uri, r.sha256)
  }

  function JavaCandidateKey(c: JavaCandidateRef): string {
    Join(c.uri, c.sha256)
  }

  function ModelInvocationKey(m: ModelInvocationRef): string {
    Join(m.invocationId, DataReferenceKey(m.ledgerRef))
  }

  /** With 64-character hashes a two-part key determines URI and hash, whatever the URI holds. */
  lemma ReferenceKeyInjective(u: string, s: string, v: string, t: string)
    requires |s| == |t| && Join(u, s) == Join(v, t)
    ensures u == v && s == t
  {
    assert |Join(u, s)| == |u| + 1 + |s| && |Join(v, t)| == |v| + 1 + |t|;
    JoinSameLength(u, s, v, t);
  }

  /** The same invocation: identifier, ledger URI and ledger hash. */
  predicate SameInvocation(m: ModelInvocationRef, n: ModelInvocationRef) {
    m.invocationId == n.invocationId && m.ledgerRef.uri == n.ledgerRef.uri && m.ledgerRef.sha256 == n.ledgerRef.sha256
  }

  /** Three-part keys: two valid invocations with one key are the same invocation exactly when
      their identifiers are equally long. */
  lemma InvocationKeyInjective(env: Screens, m: ModelInvocationRef, n: ModelInvocationRef)
    requires m.Valid(env) && n.Valid(env) && ModelInvocationKey(m) == ModelInvocationKey(n)
    ensures SameInvocation(m, n) <==> |m.invocationId| == |n.invocationId|
  {
    if |m.invocationId| == |n.invocationId| {
      JoinSameLength(m.invocationId, DataReferenceKey(m.ledgerRef), n.invocationId, DataReferenceKey(n.ledgerRef));
      ReferenceKeyInjective(m.ledgerRef.uri, m.ledgerRef.sha256, n.ledgerRef.uri, n.ledgerRef.sha256);
    }
  }

  /** The identifiers of an invocation are free of the separator. */
  predicate NulFreeInvocation(m: ModelInvocationRef) {
    NulFree(m.invocationId)
  }

  lemma NulFreeKeyInjective(env: Screens, m: ModelInvocationRef, n: ModelInvocationRef)
    requires m.Valid(env) && n.Valid(env) && ModelInvocationKey(m) == ModelInvocationKey(n)
    requires NulFreeInvocation(m) && NulFreeInvocation(n)
    ensures SameInvocation(m, n)
  {
    JoinInjective(m.invocationId, DataReferenceKey(m.ledgerRef), n.invocationId, DataReferenceKey(n.ledgerRef));
    ReferenceKeyInjective(m.ledgerRef.uri, m.ledgerRef.sha256, n.ledgerRef.uri, n.ledgerRef.sha256);
  }

  /** Identifiers may hold a NUL, so two different valid invocations can share a key. */
  lemma InvocationKeyCollision(env: Screens, hash: string)
    requires IsSha256(hash) && Passes(env, {"a", "a\0b", "model", "b\0c", "c"})
    ensures exists m: ModelInvocationRef, n: ModelInvocationRef ::
              m.Valid(env) && n.Valid(env) && ModelInvocationKey(m) == ModelInvocationKey(n) && !SameInvocation(m, n)
  {
    var m := ModelInvocationRef("a", "model", "", 0, DataReference("b\0c", hash, 0, "", ""), []);
    var n := ModelInvocationRef("a\0b", "model", "", 0, DataReference("c", hash, 0, "", ""), []);
    assert ModelInvocationKey(m) == "a\0b\0c\0" + hash;
    assert ModelInvocationKey(n) == "a\0b\0c\0" + hash;
    assert m.Valid(env) && n.Valid(env) && !SameInvocation(m, n);
  }
}
