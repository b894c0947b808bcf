/**
 The model gateway: which models it reports for a role, which invocations it accepts, and which
 models it calls for one invocation when the first one fails.

 The capability view and the request validator read the same policy in different orders; the
 lemmas say exactly when they agree. Instants are integers, and one call sees one instant.
 */
module ModelGateway {
  import opened Prelude
  import opened Text

  const MODE_MOCK: string := "customer-internal-mock"
  const CLASS_GATEWAY: string := "model-gateway"
  const DEFAULT_TEMPLATE: string := "v1"
  const DEFAULT_POLICY: string := "foundry-development-v0"
  datatype ModelMetadata = ModelMetadata(
    id: string, provider: string, deploymentName: string, modelName: string,
    lifecycleStatus: string, licenseStatus: string, approvalExpiry: string,
    allowedDataClasses: seq<string>, supportedTemplateVersions: seq<string>,
    supportsStructuredOutput: bool, defaultTimeoutMs: int)

  /** Registry, allowlist and providers. `parseTime` reads an RFC 3339 instant. */
  datatype Gateway = Gateway(
    models: seq<ModelMetadata>, mode: string, policyId: string, allowedModelIds: seq<string>,
    roles: map<string, seq<string>>, allowedDeployments: seq<string>, fallbackDeployments: seq<string>,
    providers: set<string>, providerTimeouts: map<string, int>, parseTime: string -> Option<int>)

  datatype Request = Request(
    runId: string, modelId: string, actor: string, agentRole: string, dataClass: string,
    promptTemplateVersion: string, structuredOutput: bool, schemaSize: nat, timeoutMs: int)

  datatype Code =
    | MissingRunId | MissingModelId | MissingDataClass | MissingPromptTemplate | InvalidTimeout
    | UnknownModel | InactiveModel | DisallowedModelEndpoint | ForbiddenModel | ForbiddenRole
    | UnsupportedDataClass | ForbiddenDataClass | UnsupportedPromptTemplate
    | UnsupportedStructuredOutput | MissingStructuredOutputSchema
    | TimeoutExceedsModelDefault | TimeoutExceedsProvider | ProviderNotReady

  // ----- policy lookups -----

  predicate IsActive(gw: Gateway, m: ModelMetadata, now: int) {
    && m.id != "" && m.deploymentName != "" && m.modelName != ""
    && m.lifecycleStatus == "approved"
    && (m.licenseStatus == "approved" || m.licenseStatus == "compliant")
    && m.approvalExpiry != ""
    && gw.parseTime(m.approvalExpiry).Some? && now <= gw.parseTime(m.approvalExpiry).value
  }

  predicate SupportsTemplate(m: ModelMetadata, version: string) {
    && version != ""
    && if m.supportedTemplateVersions == [] then version == DEFAULT_TEMPLATE else version in m.supportedTemplateVersions
  }

  predicate IsDataClassAllowed(m: ModelMetadata, dataClass: string) {
    if m.allowedDataClasses == [] then m.provider == MODE_MOCK || dataClass == CLASS_GATEWAY
    else dataClass in m.allowedDataClasses
  }

  /** ModelRegistry.Get finds the first model with the identifier. */
  function Get(models: seq<ModelMetadata>, id: string): Option<ModelMetadata> {
    if models == [] then None else if models[0].id == id then Some(models[0]) else Get(models[1..], id)
  }

  predicate IsDeploymentAllowed(gw: Gateway, id: string) {
    if gw.allowedDeployments == [] then gw.allowedModelIds == [] || id in gw.allowedModelIds
    else id in gw.allowedDeployments
  }

  /** The models of a role; a blank role has none, even if it is configured. */
  function RoleModels(gw: Gateway, role: string): seq<string> {
    if Trim(role) == "" || Trim(role) !in gw.roles then [] else gw.roles[Trim(role)]
  }

  predicate IsRoleAllowed(gw: Gateway, role: string, id: string) {
    id in RoleModels(gw, role)
  }

  function ResolvedPolicyId(gw: Gateway): string {
    if Blank(gw.policyId) then DEFAULT_POLICY else Trim(gw.policyId)
  }

  function ProviderTimeout(gw: Gateway, provider: string): int {
    if provider in gw.providerTimeouts then gw.providerTimeouts[provider] else 0
  }

  // ----- the request validator -----

  /** The first check of the validator that a request fails. */
  function FirstProblem(gw: Gateway, now: int, r: Request): Option<Code> {
    if Blank(r.runId) then Some(MissingRunId)
    else if Blank(r.modelId) then Some(MissingModelId)
    else if Blank(r.dataClass) then Some(MissingDataClass)
    else if Blank(r.promptTemplateVersion) then Some(MissingPromptTemplate)
    else if r.timeoutMs <= 0 then Some(InvalidTimeout)
    else
      var found := Get(gw.models, r.modelId);
      if found.None? then Some(UnknownModel) else ModelProblem(gw, now, r, found.value)
  }

  function ModelProblem(gw: Gateway, now: int, r: Request, m: ModelMetadata): Option<Code> {
    if !IsActive(gw, m, now) then Some(InactiveModel)
    else if m.provider != gw.mode then Some(DisallowedModelEndpoint)
    else if !IsDeploymentAllowed(gw, m.id) then Some(ForbiddenModel)
    else if !IsRoleAllowed(gw, r.agentRole, m.id) then Some(ForbiddenRole)
    else if !Among(r.dataClass, DATA_CLASSES) then Some(UnsupportedDataClass)
    else if !IsDataClassAllowed(m, r.dataClass) then Some(ForbiddenDataClass)
    else if !SupportsTemplate(m, r.promptTemplateVersion) then Some(UnsupportedPromptTemplate)
    else if r.structuredOutput && !m.supportsStructuredOutput then Some(UnsupportedStructuredOutput)
    else if r.structuredOutput && r.schemaSize == 0 then Some(MissingStructuredOutputSchema)
    else if m.defaultTimeoutMs > 0 && r.timeoutMs > m.defaultTimeoutMs then Some(TimeoutExceedsModelDefault)
    else if ProviderTimeout(gw, m.provider) > 0 && r.timeoutMs > ProviderTimeout(gw, m.provider)
    then Some(TimeoutExceedsProvider)
    else if m.provider !in gw.providers then Some(ProviderNotReady)
    else None
  }

  datatype LedgerRecord = LedgerRecord(
    runId: string, modelId: string, provider: string, policyId: string, agentRole: string, dataClass: string,
    promptTemplate: string, structuredOutput: bool, policyDecision: string, status: string, errorClass: ErrorClass)

  datatype ErrorClass = NoError | ValidationFailed | ProviderFailed | ProviderTimedOut

  datatype Validated = Validated(
    request: Request, model: Option<ModelMetadata>, provider: string, policyDecision: string, record: LedgerRecord)

  const ALLOW: string := "policy allow"
  const DENY: string := "policy deny"
  const COMPLETED: string := "completed"
  const FAILED: string := "failed"
  const REJECTED: string := "rejected"

  /** validateInvocation. A refused request leaves the model out of the record. */
  method ValidateInvocation(gw: Gateway, now: int, request: Request) returns (result: Validated, err: Option<Code>)
    ensures err == FirstProblem(gw, now, request)
    ensures result.request.(actor := request.actor) == request
    ensures result.record.agentRole == Trim(request.agentRole) && result.record.policyId == ResolvedPolicyId(gw)
    ensures result.record.dataClass == request.dataClass && result.record.promptTemplate == request.promptTemplateVersion
    ensures result.record.structuredOutput == request.structuredOutput
    ensures err.Some? ==> result.model.None? && result.record.modelId == "" && result.policyDecision == ""
    ensures err.None? ==>
              && result.model == Get(gw.models, request.modelId) && result.model.Some?
              && result.provider == result.model.value.provider == gw.mode
              && result.record.modelId == request.modelId
              && result.policyDecision == result.record.policyDecision == ALLOW
  {
    result := Validated(
      request, None, "", "",
      LedgerRecord("", "", "", ResolvedPolicyId(gw), Trim(request.agentRole), request.dataClass,
                   request.promptTemplateVersion, request.structuredOutput, "", "", NoError));
    if Blank(result.request.runId) {
      return result, Some(MissingRunId);
    }
    if Blank(result.request.actor) {
      result := result.(request := result.request.(actor := CLASS_GATEWAY));
    }
    if Blank(result.request.modelId) {
      return result, Some(MissingModelId);
    }
    if Blank(result.request.dataClass) {
      return result, Some(MissingDataClass);
    }
    if Blank(result.request.promptTemplateVersion) {
      return result, Some(MissingPromptTemplate);
    }
    if result.request.timeoutMs <= 0 {
      return result, Some(InvalidTimeout);
    }
    var found := Get(gw.models, result.request.modelId);
    if found.None? {
      return result, Some(UnknownModel);
    }
    GetHasId(gw.models, result.request.modelId);
    var model := found.value;
    err := CheckModel(gw, now, result.request, model);
    if err.Some? {
      return;
    }
    result := result.(
      model := Some(model), provider := model.provider, policyDecision := ALLOW,
      record := result.record.(modelId := model.id, policyDecision := ALLOW));
  }

  method CheckModel(gw: Gateway, now: int, r: Request, model: ModelMetadata) returns (err: Option<Code>)
    ensures err == ModelProblem(gw, now, r, model)
  {
    if !IsActive(gw, model, now) {
      return Some(InactiveModel);
    }
    if model.provider != gw.mode {
      return Some(DisallowedModelEndpoint);
    }
    if !IsDeploymentAllowed(gw, model.id) {
      return Some(ForbiddenModel);
    }
    if !IsRoleAllowed(gw, r.agentRole, model.id) {
      return Some(ForbiddenRole);
    }
    if !Among(r.dataClass, DATA_CLASSES) {
      return Some(UnsupportedDataClass);
    }
    if !IsDataClassAllowed(model, r.dataClass) {
      return Some(ForbiddenDataClass);
    }
    if !SupportsTemplate(model, r.promptTemplateVersion) {
      return Some(UnsupportedPromptTemplate);
    }
    if r.structuredOutput {
      if !model.supportsStructuredOutput {
        return Some(UnsupportedStructuredOutput);
      }
      if r.schemaSize == 0 {
        return Some(MissingStructuredOutputSchema);
      }
    }
    if model.defaultTimeoutMs > 0 && r.timeoutMs > model.defaultTimeoutMs {
      return Some(TimeoutExceedsModelDefault);
    }
    var maxTimeout := ProviderTimeout(gw, model.provider);
    if maxTimeout > 0 && r.timeoutMs > maxTimeout {
      return Some(TimeoutExceedsProvider);
    }
    if model.provider !in gw.providers {
      return Some(ProviderNotReady);
    }
    return None;
  }

  lemma {:induction false} GetHasId(models: seq<ModelMetadata>, id: string)
    ensures Get(models, id).Some? ==> Get(models, id).value.id == id
  {
    if models != [] && models[0].id != id {
      GetHasId(models[1..], id);
    }
  }

  // ----- the capability view -----

  /** The checks of the capability view on one configured model identifier. */
  predicate Reachable(gw: Gateway, now: int, id: string) {
    var found := Get(gw.models, id);
    && found.Some?
    && IsActive(gw, found.value, now)
    && IsDeploymentAllowed(gw, id)
    && found.value.provider == gw.mode
    && found.value.provider in gw.providers
  }

  function ReachableIds(gw: Gateway, now: int, ids: seq<string>): seq<string> {
    if ids == [] then []
    else
      var last := ids[|ids| - 1];
      ReachableIds(gw, now, ids[..|ids| - 1]) + (if Reachable(gw, now, last) then [last] else [])
  }

  datatype RoleAvailability = RoleAvailability(
    role: string, ok: bool, policyId: string, available: seq<string>, configured: Option<seq<string>>)

  /** roleAvailability. */
  method Availability(gw: Gateway, now: int, role: string) returns (view: RoleAvailability)
    ensures view.role == role && view.policyId == ResolvedPolicyId(gw)
    ensures view.configured == if role in gw.roles then Some(gw.roles[role]) else None
    ensures view.available == if role in gw.roles then ReachableIds(gw, now, gw.roles[role]) else []
    ensures view.ok <==> exists id :: Listed(gw, now, role, id)
  {
    if role !in gw.roles {
      return RoleAvailability(role, false, ResolvedPolicyId(gw), [], None);
    }
    var configured := gw.roles[role];
    var available := [];
    for i := 0 to |configured|
      invariant available == ReachableIds(gw, now, configured[..i])
    {
      assert configured[..i + 1][..i] == configured[..i];
      var found := Get(gw.models, configured[i]);
      if found.None? {
        continue;
      }
      if !IsActive(gw, found.value, now) {
        continue;
      }
      if !IsDeploymentAllowed(gw, configured[i]) {
        continue;
      }
      if found.value.provider != gw.mode {
        continue;
      }
      if found.value.provider !in gw.providers {
        continue;
      }
      available := available + [configured[i]];
    }
    assert configured[..|configured|] == configured;
    ReachableMembers(gw, now, configured);
    if available != [] {
      assert Listed(gw, now, role, available[0]);
    }
    return RoleAvailability(role, available != [], ResolvedPolicyId(gw), available, Some(configured));
  }

  /** The capability view of a role lists a model. */
  predicate Listed(gw: Gateway, now: int, role: string, id: string) {
    role in gw.roles && id in gw.roles[role] && Reachable(gw, now, id)
  }

  lemma {:induction false} ReachableMembers(gw: Gateway, now: int, ids: seq<string>)
    ensures forall id :: id in ReachableIds(gw, now, ids) <==> id in ids && Reachable(gw, now, id)
  {
    if ids != [] {
      ReachableMembers(gw, now, ids[..|ids| - 1]);
      SplitLast(ids);
    }
  }

  // ----- when the two agree -----

  /** The checks that depend on the request and not only on role and model. */
  predicate RequestFits(gw: Gateway, r: Request, m: ModelMetadata) {
    && !Blank(r.runId) && !Blank(r.dataClass) && !Blank(r.promptTemplateVersion) && r.timeoutMs > 0
    && Among(r.dataClass, DATA_CLASSES) && IsDataClassAllowed(m, r.dataClass)
    && SupportsTemplate(m, r.promptTemplateVersion)
    && (r.structuredOutput ==> m.supportsStructuredOutput && r.schemaSize > 0)
    && (m.defaultTimeoutMs > 0 ==> r.timeoutMs <= m.defaultTimeoutMs)
    && (ProviderTimeout(gw, m.provider) > 0 ==> r.timeoutMs <= ProviderTimeout(gw, m.provider))
  }

  /** A request whose own checks pass is accepted exactly when the view of its trimmed role lists its
      model, except that a blank role or a blank model identifier is always refused. */
  lemma AcceptedIffListed(gw: Gateway, now: int, r: Request)
    requires Get(gw.models, r.modelId).Some? ==> RequestFits(gw, r, Get(gw.models, r.modelId).value)
    ensures FirstProblem(gw, now, r).None? <==>
            Listed(gw, now, Trim(r.agentRole), r.modelId) && !Blank(r.agentRole) && !Blank(r.modelId)
  {
    BlankIsTrimmedAway(r.agentRole);
    GetHasId(gw.models, r.modelId);
  }

  /** For a trimmed, non-empty role and a non-blank model the two views of the policy agree. */
  lemma AvailabilityAgrees(gw: Gateway, now: int, role: string, r: Request)
    requires role == Trim(role) != "" && r.agentRole == role && !Blank(r.modelId)
    requires Get(gw.models, r.modelId).Some? ==> RequestFits(gw, r, Get(gw.models, r.modelId).value)
    ensures Listed(gw, now, role, r.modelId) <==> FirstProblem(gw, now, r).None?
  {
    BlankIsTrimmedAway(role);
    AcceptedIffListed(gw, now, r);
  }

  /** A role that is configured with white space around its name is never matched by a request, and
      its view is wrong for a model that fits exactly when the trimmed role does not list it too. */
  lemma UntrimmedRoleMisreports(gw: Gateway, now: int, role: string, r: Request)
    requires r.agentRole == role && !Blank(role) && !Blank(r.modelId)
    requires Get(gw.models, r.modelId).Some? ==> RequestFits(gw, r, Get(gw.models, r.modelId).value)
    ensures (Listed(gw, now, role, r.modelId) <==> FirstProblem(gw, now, r).None?) <==>
            (Listed(gw, now, role, r.modelId) <==> Listed(gw, now, Trim(role), r.modelId))
  {
    BlankIsTrimmedAway(role);
    AcceptedIffListed(gw, now, r);
  }

  const MODEL_M: ModelMetadata :=
    ModelMetadata("m", MODE_MOCK, "d", "n", "approved", "approved", "t", [], [], false, 0)

  function PaddedGateway(): Gateway {
    Gateway([MODEL_M], MODE_MOCK, "", [], map[" repair" := ["m"]], [], [], {MODE_MOCK}, map[], t => Some(1))
  }

  lemma NotBlank(s: string)
    requires s != "" && !IsSpace(s[0])
    ensures !Blank(s)
  {
  }

  lemma PaddedRoleWitness()
    ensures exists gw: Gateway, now: int, r: Request ::
              Listed(gw, now, r.agentRole, r.modelId) && FirstProblem(gw, now, r) == Some(ForbiddenRole)
  {
    var gw, r := PaddedGateway(), Request("run", "m", "", " repair", "model", "v1", false, 0, 1);
    assert Get(gw.models, "m") == Some(MODEL_M);
    assert TrimLeft(" repair") == "repair" by {
      assert " repair"[1..] == "repair";
    }
    assert Trim(" repair") == "repair";
    NotBlank("run");
    NotBlank("m");
    NotBlank("model");
    NotBlank("v1");
    assert Listed(gw, 0, r.agentRole, r.modelId);
    assert FirstProblem(gw, 0, r) == Some(ForbiddenRole);
  }

  // ----- fallbacks -----

  function Trimmed(ids: seq<string>): (out: seq<string>)
    ensures |out| == |ids| && forall i :: 0 <= i < |ids| ==> out[i] == Trim(ids[i])
  {
    seq(|ids|, i requires 0 <= i < |ids| => Trim(ids[i]))
  }

  /** fallbackModelIDsForRole over the first trimmed names: not empty, not seen before, allowed. */
  function FallbacksUpTo(names: seq<string>, allowed: seq<string>, current: string, n: nat): seq<string>
    requires n <= |names|
  {
    if n == 0 then []
    else
      var id := names[n - 1];
      FallbacksUpTo(names, allowed, current, n - 1) +
      (if id == "" || id in SeenUpTo(names, current, n - 1) || id !in allowed then [] else [id])
  }

  function SeenUpTo(names: seq<string>, current: string, n: nat): set<string>
    requires n <= |names|
  {
    if n == 0 then {current}
    else SeenUpTo(names, current, n - 1) + (if names[n - 1] == "" then {} else {names[n - 1]})
  }

  function Fallbacks(gw: Gateway, role: string, current: string): seq<string> {
    var names := Trimmed(gw.fallbackDeployments);
    FallbacksUpTo(names, RoleModels(gw, role), Trim(current), |names|)
  }

  method FallbackModelIds(gw: Gateway, role: string, current: string) returns (candidates: seq<string>)
    ensures candidates == Fallbacks(gw, role, current)
  {
    candidates := CollectFallbacks(Trimmed(gw.fallbackDeployments), RoleModels(gw, role), Trim(current));
  }

  method CollectFallbacks(names: seq<string>, allowed: seq<string>, current: string) returns (candidates: seq<string>)
    ensures candidates == FallbacksUpTo(names, allowed, current, |names|)
  {
    var seen := {current};
    candidates := [];
    for i := 0 to |names|
      invariant seen == SeenUpTo(names, current, i)
      invariant candidates == FallbacksUpTo(names, allowed, current, i)
    {
      var id := names[i];
      if id == "" {
        continue;
      }
      if id in seen {
        continue;
      }
      seen := seen + {id};
      if id !in allowed {
        continue;
      }
      candidates := candidates + [id];
    }
  }

  /** What the candidates are: each allowed, distinct name other than the current model, once. */
  lemma {:induction false} FallbacksAre(names: seq<string>, allowed: seq<string>, current: string, n: nat)
    requires n <= |names|
    ensures Unique(FallbacksUpTo(names, allowed, current, n))
    ensures forall id :: id in FallbacksUpTo(names, allowed, current, n) <==>
              id in SeenUpTo(names, current, n) && id != current && id in allowed
  {
    if n > 0 {
      FallbacksAre(names, allowed, current, n - 1);
      SeenAre(names, current, n - 1);
      UniqueAppend(FallbacksUpTo(names, allowed, current, n - 1), names[n - 1]);
    }
  }

  lemma {:induction false} SeenAre(names: seq<string>, current: string, n: nat)
    requires n <= |names|
    ensures forall id :: id in SeenUpTo(names, current, n) <==> id == current || (id in names[..n] && id != "")
  {
    if n > 0 {
      SeenAre(names, current, n - 1);
      assert names[..n] == names[..n - 1] + [names[n - 1]];
    }
  }

  lemma UniqueAppend(ids: seq<string>, id: string)
    requires Unique(ids)
    ensures id !in ids ==> Unique(ids + [id])
  {
    if id !in ids {
      assert forall i :: 0 <= i < |ids| ==> ids[i] in ids;
    }
  }

  predicate Unique(ids: seq<string>) {
    forall i, j :: 0 <= i < j < |ids| ==> ids[i] != ids[j]
  }

  // ----- one invocation -----

  /** What the k-th provider call of the invocation answers. */
  datatype Answer = Answered(status: string) | Failed(deadline: bool)

  /** Providers and deadline: whether the deadline has passed after the first call and at the end. */
  datatype Oracle = Oracle(answer: (nat, string) -> Answer, expiredAfterFirst: bool, expiredAtEnd: bool)

  /** The requested model and the first fallback candidates that pass the whole validation. */
  function PlanUpTo(gw: Gateway, now: int, r: Request, ids: seq<string>, n: nat): (plan: seq<string>)
    requires n <= |ids|
    ensures plan != []
  {
    if n == 0 then [r.modelId]
    else
      PlanUpTo(gw, now, r, ids, n - 1) +
      (if FirstProblem(gw, now, r.(modelId := ids[n - 1])).None? then [ids[n - 1]] else [])
  }

  /** The models that an invocation may call, in order. */
  function Plan(gw: Gateway, now: int, r: Request): seq<string> {
    var ids := Fallbacks(gw, r.agentRole, r.modelId);
    PlanUpTo(gw, now, r, ids, |ids|)
  }

  predicate FirstTimedOut(r: Request, o: Oracle) {
    o.answer(0, r.modelId).Failed? && (o.answer(0, r.modelId).deadline || o.expiredAfterFirst)
  }

  /** The provider calls of one invocation: along the plan until one answers; a first call that times
      out is the only one. */
  ghost predicate Walk(plan: seq<string>, r: Request, o: Oracle, calls: seq<string>) {
    && 0 < |calls| <= |plan| && calls == plan[..|calls|]
    && AllFail(calls, o, |calls| - 1)
    && (|calls| > 1 ==> !FirstTimedOut(r, o))
    && (FailsAt(calls, o, |calls| - 1) ==> calls == plan || FirstTimedOut(r, o))
  }

  predicate FailsAt(calls: seq<string>, o: Oracle, k: nat)
    requires k < |calls|
  {
    o.answer(k, calls[k]).Failed?
  }

  function NormalizeStatus(status: string): string {
    if Trim(status) in {COMPLETED, FAILED, REJECTED} then status else COMPLETED
  }

  datatype Event = Event(done: bool, modelId: string, provider: string, agentRole: string, status: string)

  datatype Reply =
    | Success(modelId: string, provider: string, agentRole: string, status: string)
    | Refused(code: Code)
    | ProviderFailure(errorClass: ErrorClass)

  function Otherwise(text: string, fallback: string): string {
    if Blank(text) then fallback else text
  }

  /** What is reported about a request that was refused before any call. */
  ghost predicate ReportsRefusal(
    gw: Gateway, request: Request, code: Code, reply: Reply, record: LedgerRecord, event: Event)
  {
    && reply == Refused(code) && !event.done
    && record.status == event.status == REJECTED && record.policyDecision == DENY
    && record.modelId == "unknown-model" && event.modelId == request.modelId
    && record.errorClass == ValidationFailed
    && record.runId == (if Blank(request.runId) then "unknown-run" else request.runId)
    && record.dataClass == (if Blank(request.dataClass) then CLASS_GATEWAY else request.dataClass)
    && record.promptTemplate ==
       (if Blank(request.promptTemplateVersion) then DEFAULT_TEMPLATE else request.promptTemplateVersion)
    && record.structuredOutput == request.structuredOutput && record.policyId == ResolvedPolicyId(gw)
    && record.provider == gw.mode && record.agentRole == event.agentRole == Trim(request.agentRole)
  }

  /** A record repeats what the request asked for. */
  predicate Carries(gw: Gateway, request: Request, record: LedgerRecord) {
    && record.dataClass == request.dataClass && record.promptTemplate == request.promptTemplateVersion
    && record.structuredOutput == request.structuredOutput && record.policyId == ResolvedPolicyId(gw)
  }

  /** What is reported after the provider calls: reply, record and event name the model that answered,
      or the requested one when none did. */
  ghost predicate ReportsCalls(
    gw: Gateway, request: Request, o: Oracle, calls: seq<string>, reply: Reply, record: LedgerRecord, event: Event)
    requires calls != []
  {
    && record.policyDecision == ALLOW && record.runId == request.runId && Carries(gw, request, record)
    && record.provider == event.provider == gw.mode
    && record.agentRole == event.agentRole == Trim(request.agentRole)
    && record.modelId == event.modelId && record.status == event.status
    && match o.answer(|calls| - 1, calls[|calls| - 1])
       case Answered(status) =>
         && event.done && record.errorClass == NoError
         && record.modelId == calls[|calls| - 1]
         && record.status == (if Trim(status) in {"completed", "failed", "rejected"} then status else "completed")
         && reply == Success(record.modelId, gw.mode, record.agentRole, record.status)
       case Failed(deadline) =>
         && !event.done && reply == ProviderFailure(record.errorClass) && record.status == FAILED
         && record.modelId == request.modelId
         && record.errorClass == if deadline || o.expiredAtEnd then ProviderTimedOut else ProviderFailed
  }

  /** invokeHandler from validation to reply: the models called, what the client is told, and the ledger
      record and event of the invocation. */
  method Invoke(gw: Gateway, now: int, request: Request, o: Oracle)
    returns (calls: seq<string>, reply: Reply, record: LedgerRecord, event: Event)
    ensures FirstProblem(gw, now, request).Some? ==>
              calls == [] && ReportsRefusal(gw, request, FirstProblem(gw, now, request).value, reply, record, event)
    ensures FirstProblem(gw, now, request).None? ==>
              && Walk(Plan(gw, now, request), request, o, calls)
              && ReportsCalls(gw, request, o, calls, reply, record, event)
  {
    var validated, err := ValidateInvocation(gw, now, request);
    if err.Some? {
      record, event := Refusal(gw, request, validated.record);
      return [], Refused(err.value), record, event;
    }
    calls, reply, record, event := Serve(gw, now, request, o, validated);
  }

  method Refusal(gw: Gateway, request: Request, partial: LedgerRecord) returns (record: LedgerRecord, event: Event)
    requires partial.modelId == "" && Carries(gw, request, partial) && partial.agentRole == Trim(request.agentRole)
    ensures forall code :: ReportsRefusal(gw, request, code, Refused(code), record, event)
  {
    record := partial.(
      runId := Otherwise(request.runId, "unknown-run"), provider := gw.mode,
      modelId := Otherwise(partial.modelId, "unknown-model"),
      dataClass := Otherwise(partial.dataClass, CLASS_GATEWAY),
      promptTemplate := Otherwise(partial.promptTemplate, DEFAULT_TEMPLATE),
      policyDecision := DENY, status := REJECTED, errorClass := ValidationFailed);
    event := Event(false, request.modelId, "", Trim(request.agentRole), REJECTED);
  }

  method Serve(gw: Gateway, now: int, request: Request, o: Oracle, validated: Validated)
    returns (calls: seq<string>, reply: Reply, record: LedgerRecord, event: Event)
    requires Names(gw, request, validated, request.modelId)
    ensures Walk(Plan(gw, now, request), request, o, calls)
    ensures ReportsCalls(gw, request, o, calls, reply, record, event)
  {
    var selected, output := validated, o.answer(0, request.modelId);
    calls := [request.modelId];
    if output.Failed? && !(output.deadline || o.expiredAfterFirst) {
      var ids := FallbackModelIds(gw, request.agentRole, request.modelId);
      ghost var n;
      calls, selected, output, n := TryFallbacks(gw, now, request, o, ids, validated, output);
      PrefixIsWalk(gw, now, request, o, ids, n, calls);
    } else {
      SingleIsWalk(gw, now, request, o);
    }
    record := selected.record.(runId := selected.request.runId, provider := selected.provider);
    if output.Answered? {
      record := record.(status := NormalizeStatus(output.status), errorClass := NoError);
      reply := Success(selected.request.modelId, selected.provider, Trim(selected.request.agentRole), record.status);
    } else {
      record := record.(
        status := FAILED,
        errorClass := if output.deadline || o.expiredAtEnd then ProviderTimedOut else ProviderFailed);
      reply := ProviderFailure(record.errorClass);
    }
    event := Event(output.Answered?, selected.request.modelId, selected.provider,
                   Trim(selected.request.agentRole), record.status);
  }

  lemma SingleIsWalk(gw: Gateway, now: int, r: Request, o: Oracle)
    requires o.answer(0, r.modelId).Failed? ==> FirstTimedOut(r, o)
    ensures Walk(Plan(gw, now, r), r, o, [r.modelId])
  {
    var ids := Fallbacks(gw, r.agentRole, r.modelId);
    PlanPrefix(gw, now, r, ids, 0, |ids|);
  }

  /** The fallback loop; n candidates have been considered when it ends. */
  method TryFallbacks(
    gw: Gateway, now: int, request: Request, o: Oracle, ids: seq<string>, first: Validated, failure: Answer)
    returns (calls: seq<string>, selected: Validated, output: Answer, ghost n: nat)
    requires failure == o.answer(0, request.modelId) && failure.Failed?
    ensures n <= |ids| && calls == PlanUpTo(gw, now, request, ids, n)
    ensures AllFail(calls, o, |calls| - 1) && (output.Failed? ==> n == |ids|)
    ensures output == o.answer(|calls| - 1, calls[|calls| - 1])
    ensures output.Failed? ==> selected == first
    ensures output.Answered? ==> Names(gw, request, selected, calls[|calls| - 1])
  {
    calls, selected, output := [request.modelId], first, failure;
    for i := 0 to |ids|
      invariant calls == PlanUpTo(gw, now, request, ids, i)
      invariant AllFail(calls, o, |calls|)
      invariant selected == first && output.Failed? && output == o.answer(|calls| - 1, calls[|calls| - 1])
    {
      var called, validated, answer;
      called, calls, validated, answer := TryModel(gw, now, request, o, ids, i, calls);
      if !called {
        continue;
      }
      output := answer;
      if output.Answered? {
        return calls, validated, output, i + 1;
      }
    }
    n := |ids|;
  }

  /** One turn of the fallback loop: a candidate that fails validation is skipped. */
  method TryModel(
    gw: Gateway, now: int, request: Request, o: Oracle, ids: seq<string>, i: nat, calls: seq<string>)
    returns (called: bool, more: seq<string>, validated: Validated, answer: Answer)
    requires i < |ids| && calls == PlanUpTo(gw, now, request, ids, i) && AllFail(calls, o, |calls|)
    ensures more == PlanUpTo(gw, now, request, ids, i + 1)
    ensures !called ==> more == calls
    ensures called ==> Names(gw, request, validated, more[|more| - 1]) && answer == o.answer(|more| - 1, more[|more| - 1])
    ensures called ==> AllFail(more, o, |more| - 1) && (answer.Failed? ==> AllFail(more, o, |more|))
  {
    var id := ids[i];
    var err;
    validated, err := ValidateInvocation(gw, now, request.(modelId := id));
    called, answer := err.None?, o.answer(|calls|, id);
    more := if called then calls + [id] else calls + [];
    CallsGrow(calls, o, id);
  }

  ghost predicate AllFail(calls: seq<string>, o: Oracle, n: nat)
    requires n <= |calls|
  {
    forall k :: 0 <= k < n ==> FailsAt(calls, o, k)
  }

  lemma CallsGrow(calls: seq<string>, o: Oracle, id: string)
    requires AllFail(calls, o, |calls|)
    ensures |calls + [id]| == |calls| + 1 && (calls + [id])[|calls|] == id
    ensures AllFail(calls + [id], o, |calls|)
    ensures o.answer(|calls|, id).Failed? ==> AllFail(calls + [id], o, |calls + [id]|)
  {
    forall k | 0 <= k < |calls| ensures FailsAt(calls + [id], o, k) {
      assert FailsAt(calls, o, k) && (calls + [id])[k] == calls[k];
    }
  }

  lemma PrefixIsWalk(gw: Gateway, now: int, r: Request, o: Oracle, ids: seq<string>, n: nat, calls: seq<string>)
    requires ids == Fallbacks(gw, r.agentRole, r.modelId) && n <= |ids| && !FirstTimedOut(r, o)
    requires calls == PlanUpTo(gw, now, r, ids, n)
    requires AllFail(calls, o, |calls| - 1)
    requires FailsAt(calls, o, |calls| - 1) ==> n == |ids|
    ensures Walk(Plan(gw, now, r), r, o, calls)
  {
    PlanPrefix(gw, now, r, ids, n, |ids|);
  }

  /** A validated invocation is for this model. */
  predicate Names(gw: Gateway, request: Request, v: Validated, id: string) {
    && v.request.modelId == v.record.modelId == id && v.request.runId == request.runId
    && v.request.agentRole == request.agentRole && v.provider == gw.mode
    && v.record.agentRole == Trim(request.agentRole) && v.record.policyDecision == ALLOW
    && Carries(gw, request, v.record)
  }

  lemma {:induction false} PlanPrefix(gw: Gateway, now: int, r: Request, ids: seq<string>, i: nat, n: nat)
    requires i <= n <= |ids|
    ensures 0 < |PlanUpTo(gw, now, r, ids, i)| && PlanUpTo(gw, now, r, ids, i) <= PlanUpTo(gw, now, r, ids, n)
    ensures PlanUpTo(gw, now, r, ids, i)[0] == r.modelId
  {
    if i < n {
      PlanPrefix(gw, now, r, ids, i, n - 1);
    } else if i > 0 {
      PlanPrefix(gw, now, r, ids, i - 1, i - 1);
    }
  }

  // ----- what the plan guarantees -----

  lemma {:induction false} PlanMembers(gw: Gateway, now: int, r: Request, ids: seq<string>, n: nat)
    requires Unique(ids) && r.modelId !in ids && n <= |ids|
    ensures var plan := PlanUpTo(gw, now, r, ids, n);
            && Unique(plan)
            && (forall id :: id in plan <==>
                  id == r.modelId || (id in ids[..n] && FirstProblem(gw, now, r.(modelId := id)).None?))
  {
    if n > 0 {
      PlanMembers(gw, now, r, ids, n - 1);
      assert ids[..n] == ids[..n - 1] + [ids[n - 1]];
      UniqueAppend(PlanUpTo(gw, now, r, ids, n - 1), ids[n - 1]);
    }
  }

  /** Every model of the plan passed the whole validation for the role of the request, none occurs
      twice, and no configured fallback that would pass is missing. */
  lemma PlanIsSafe(gw: Gateway, now: int, r: Request)
    requires FirstProblem(gw, now, r).None?
    ensures Unique(Plan(gw, now, r))
    ensures forall id :: id in Plan(gw, now, r) ==>
              FirstProblem(gw, now, r.(modelId := id)).None? && IsRoleAllowed(gw, r.agentRole, id)
    ensures forall id :: id in Trimmed(gw.fallbackDeployments) && id != Trim(r.modelId) ==>
              FirstProblem(gw, now, r.(modelId := id)).None? ==> id in Plan(gw, now, r)
  {
    var ids := Fallbacks(gw, r.agentRole, r.modelId);
    FallbackMembers(gw, r.agentRole, r.modelId);
    PlanMembers(gw, now, r, ids, |ids|);
    assert ids[..|ids|] == ids && r.(modelId := r.modelId) == r;
    forall id | FirstProblem(gw, now, r.(modelId := id)).None? ensures IsRoleAllowed(gw, r.agentRole, id) && id != "" {
      AcceptedRole(gw, now, r.(modelId := id));
    }
  }

  /** The candidates are the allowed deployments, trimmed, other than the current model. */
  lemma FallbackMembers(gw: Gateway, role: string, current: string)
    ensures Unique(Fallbacks(gw, role, current)) && current !in Fallbacks(gw, role, current)
    ensures forall id :: id in Fallbacks(gw, role, current) <==>
              id in Trimmed(gw.fallbackDeployments) && id != "" && id != Trim(current) && IsRoleAllowed(gw, role, id)
  {
    var names := Trimmed(gw.fallbackDeployments);
    FallbacksAre(names, RoleModels(gw, role), Trim(current), |names|);
    SeenAre(names, Trim(current), |names|);
    assert names[..|names|] == names;
    if current in names {
      var i :| 0 <= i < |names| && names[i] == current;
      TrimIdempotent(gw.fallbackDeployments[i]);
    }
  }

  lemma AcceptedRole(gw: Gateway, now: int, r: Request)
    requires FirstProblem(gw, now, r).None?
    ensures IsRoleAllowed(gw, r.agentRole, r.modelId) && r.modelId != ""
  {
    GetHasId(gw.models, r.modelId);
  }

  /** The answers of the providers determine which models are called. */
  lemma WalkIsDetermined(plan: seq<string>, r: Request, o: Oracle, a: seq<string>, b: seq<string>)
    requires Walk(plan, r, o, a) && Walk(plan, r, o, b) && |a| <= |b|
    ensures a == b
  {
    assert a == b[..|a|];
    assert |a| < |b| ==> FailsAt(b, o, |a| - 1);
  }
}
