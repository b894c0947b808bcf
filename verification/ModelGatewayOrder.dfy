/**
 Order in the model gateway, told without its functions: which check refuses a request, which models
 the capability view lists in which order, and in which order fallbacks are called.
 */
module ModelGatewayOrder {
  import opened Prelude
  import opened Text
  import opened ModelGateway

  // ----- the first failing check -----

  /** The place of each check in the order in which the validator makes them. */
  function Place(code: Code): nat {
    match code
    case MissingRunId => 0
    case MissingModelId => 1
    case MissingDataClass => 2
    case MissingPromptTemplate => 3
    case InvalidTimeout => 4
    case UnknownModel => 5
    case InactiveModel => 6
    case DisallowedModelEndpoint => 7
    case ForbiddenModel => 8
    case ForbiddenRole => 9
    case UnsupportedDataClass => 10
    case ForbiddenDataClass => 11
    case UnsupportedPromptTemplate => 12
    case UnsupportedStructuredOutput => 13
    case MissingStructuredOutputSchema => 14
    case TimeoutExceedsModelDefault => 15
    case TimeoutExceedsProvider => 16
    case ProviderNotReady => 17
  }

  /** What each code complains about; those about the model speak of the first one with the identifier. */
  ghost predicate Fails(gw: Gateway, now: int, r: Request, code: Code) {
    match code
    case MissingRunId => Trim(r.runId) == ""
    case MissingModelId => Trim(r.modelId) == ""
    case MissingDataClass => Trim(r.dataClass) == ""
    case MissingPromptTemplate => Trim(r.promptTemplateVersion) == ""
    case InvalidTimeout => r.timeoutMs <= 0
    case UnknownModel => forall i :: 0 <= i < |gw.models| ==> gw.models[i].id != r.modelId
    case _ => exists i :: IsModelOf(gw, r, i) && ModelFails(gw, now, r, gw.models[i], code)
  }

  ghost predicate IsModelOf(gw: Gateway, r: Request, i: int) {
    0 <= i < |gw.models| && gw.models[i].id == r.modelId && forall k :: 0 <= k < i ==> gw.models[k].id != r.modelId
  }

  /** An approval holds up to and including its expiry. */
  predicate Approved(gw: Gateway, m: ModelMetadata, now: int) {
    && m.id != "" && m.deploymentName != "" && m.modelName != ""
    && m.lifecycleStatus == "approved" && m.licenseStatus in {"approved", "compliant"}
    && m.approvalExpiry != ""
    && match gw.parseTime(m.approvalExpiry) { case None => false case Some(expiry) => !(now > expiry) }
  }

  ghost predicate ModelFails(gw: Gateway, now: int, r: Request, m: ModelMetadata, code: Code) {
    match code
    case InactiveModel => !Approved(gw, m, now)
    case DisallowedModelEndpoint => m.provider != gw.mode
    case ForbiddenModel =>
      if gw.allowedDeployments != [] then m.id !in gw.allowedDeployments
      else gw.allowedModelIds != [] && m.id !in gw.allowedModelIds
    case ForbiddenRole =>
      !(Trim(r.agentRole) != "" && Trim(r.agentRole) in gw.roles && m.id in gw.roles[Trim(r.agentRole)])
    case UnsupportedDataClass => r.dataClass !in DATA_CLASSES
    case ForbiddenDataClass =>
      if m.allowedDataClasses != [] then r.dataClass !in m.allowedDataClasses
      else m.provider != MODE_MOCK && r.dataClass != CLASS_GATEWAY
    case UnsupportedPromptTemplate =>
      || r.promptTemplateVersion == ""
      || r.promptTemplateVersion !in if m.supportedTemplateVersions == [] then [DEFAULT_TEMPLATE] else m.supportedTemplateVersions
    case UnsupportedStructuredOutput => r.structuredOutput && !m.supportsStructuredOutput
    case MissingStructuredOutputSchema => r.structuredOutput && r.schemaSize == 0
    case TimeoutExceedsModelDefault => 0 < m.defaultTimeoutMs < r.timeoutMs
    case TimeoutExceedsProvider => m.provider in gw.providerTimeouts && 0 < gw.providerTimeouts[m.provider] < r.timeoutMs
    case ProviderNotReady => m.provider !in gw.providers
    case _ => false
  }

  /** Approval has one bound, the expiry itself, whatever else the model carries. */
  lemma ApprovalEndsAfterExpiry(gw: Gateway, m: ModelMetadata, now: int, other: int)
    requires IsActive(gw, m, other)
    ensures gw.parseTime(m.approvalExpiry).Some?
    ensures IsActive(gw, m, now) <==> now <= gw.parseTime(m.approvalExpiry).value
  {
  }

  lemma {:induction false} AmongMeans(s: string, names: seq<string>)
    ensures Among(s, names) <==> s in names
  {
    if names != [] {
      AmongMeans(s, names[1..]);
      assert names == [names[0]] + names[1..];
    }
  }

  lemma {:induction false} GetIsFirst(models: seq<ModelMetadata>, id: string)
    ensures Get(models, id).None? <==> forall i :: 0 <= i < |models| ==> models[i].id != id
    ensures Get(models, id).Some? ==>
              exists i :: 0 <= i < |models| && models[i].id == id && models[i] == Get(models, id).value
                          && forall k :: 0 <= k < i ==> models[k].id != id
  {
    if models != [] {
      var rest := models[1..];
      GetIsFirst(rest, id);
      assert forall k :: 0 <= k < |rest| ==> rest[k] == models[k + 1];
      if models[0].id == id {
        assert models[0] == Get(models, id).value;
      } else if Get(rest, id).Some? {
        var i :| 0 <= i < |rest| && rest[i].id == id && rest[i] == Get(rest, id).value
                 && forall k :: 0 <= k < i ==> rest[k].id != id;
        assert models[i + 1] == Get(models, id).value;
        forall k | 0 <= k < i + 1 ensures models[k].id != id {
          assert k > 0 ==> rest[k - 1] == models[k];
        }
      }
    }
  }

  /** The test that the validator makes for each code. */
  predicate Tested(gw: Gateway, now: int, r: Request, m: ModelMetadata, code: Code) {
    match code
    case InactiveModel => !IsActive(gw, m, now)
    case DisallowedModelEndpoint => m.provider != gw.mode
    case ForbiddenModel => !IsDeploymentAllowed(gw, m.id)
    case ForbiddenRole => !IsRoleAllowed(gw, r.agentRole, m.id)
    case UnsupportedDataClass => !Among(r.dataClass, DATA_CLASSES)
    case ForbiddenDataClass => !IsDataClassAllowed(m, r.dataClass)
    case UnsupportedPromptTemplate => !SupportsTemplate(m, r.promptTemplateVersion)
    case UnsupportedStructuredOutput => r.structuredOutput && !m.supportsStructuredOutput
    case MissingStructuredOutputSchema => r.structuredOutput && r.schemaSize == 0
    case TimeoutExceedsModelDefault => m.defaultTimeoutMs > 0 && r.timeoutMs > m.defaultTimeoutMs
    case TimeoutExceedsProvider => ProviderTimeout(gw, m.provider) > 0 && r.timeoutMs > ProviderTimeout(gw, m.provider)
    case ProviderNotReady => m.provider !in gw.providers
    case _ => false
  }

  lemma {:induction false} TestedIs(gw: Gateway, now: int, r: Request, m: ModelMetadata, code: Code)
    ensures Tested(gw, now, r, m, code) <==> ModelFails(gw, now, r, m, code)
  {
    match code {
      case UnsupportedDataClass => AmongMeans(r.dataClass, DATA_CLASSES);
      case _ =>
    }
  }

  lemma {:induction false} ModelProblemFails(gw: Gateway, now: int, r: Request, m: ModelMetadata)
    ensures var problem := ModelProblem(gw, now, r, m);
            problem.Some? ==> Place(problem.value) >= 6 && ModelFails(gw, now, r, m, problem.value)
  {
    var problem := ModelProblem(gw, now, r, m);
    if problem.Some? {
      TestedIs(gw, now, r, m, problem.value);
    }
  }

  lemma {:induction false} EarlierModelChecksPass(gw: Gateway, now: int, r: Request, m: ModelMetadata, other: Code)
    ensures var problem := ModelProblem(gw, now, r, m);
            problem.None? || Place(other) < Place(problem.value) ==> !ModelFails(gw, now, r, m, other)
  {
    EarlierTestsPass(gw, now, r, m, other);
    TestedIs(gw, now, r, m, other);
  }

  lemma {:induction false} EarlierTestsPass(gw: Gateway, now: int, r: Request, m: ModelMetadata, other: Code)
    ensures var problem := ModelProblem(gw, now, r, m);
            problem.None? || Place(other) < Place(problem.value) ==> !Tested(gw, now, r, m, other)
  {
  }

  lemma {:induction false} ModelCheckIs(gw: Gateway, now: int, r: Request, m: ModelMetadata, code: Code)
    requires Get(gw.models, r.modelId) == Some(m) && Place(code) >= 6
    ensures Fails(gw, now, r, code) <==> ModelFails(gw, now, r, m, code)
  {
    GetIsFirst(gw.models, r.modelId);
    var j :| 0 <= j < |gw.models| && gw.models[j].id == r.modelId && gw.models[j] == m
             && forall k :: 0 <= k < j ==> gw.models[k].id != r.modelId;
    assert IsModelOf(gw, r, j);
    forall k | IsModelOf(gw, r, k) ensures k == j {
    }
    assert Fails(gw, now, r, code) <==> exists i :: IsModelOf(gw, r, i) && ModelFails(gw, now, r, gw.models[i], code);
  }

  /** The checks on the request itself come first. */
  predicate RequestFails(gw: Gateway, r: Request, code: Code) {
    match code
    case MissingRunId => Blank(r.runId)
    case MissingModelId => Blank(r.modelId)
    case MissingDataClass => Blank(r.dataClass)
    case MissingPromptTemplate => Blank(r.promptTemplateVersion)
    case InvalidTimeout => r.timeoutMs <= 0
    case UnknownModel => Get(gw.models, r.modelId).None?
    case _ => false
  }

  lemma {:induction false} RequestCheckIs(gw: Gateway, now: int, r: Request, code: Code)
    requires Place(code) < 6
    ensures Fails(gw, now, r, code) <==> RequestFails(gw, r, code)
  {
    BlankIsTrimmedAway(r.runId);
    BlankIsTrimmedAway(r.modelId);
    BlankIsTrimmedAway(r.dataClass);
    BlankIsTrimmedAway(r.promptTemplateVersion);
    GetIsFirst(gw.models, r.modelId);
  }

  lemma {:induction false} RequestProblemIsFirst(gw: Gateway, now: int, r: Request, other: Code)
    ensures var problem := FirstProblem(gw, now, r);
            if problem.Some? && RequestFails(gw, r, problem.value) then
              Place(problem.value) < 6 && (Place(other) < Place(problem.value) ==> !RequestFails(gw, r, other))
            else
              && !RequestFails(gw, r, other) && Get(gw.models, r.modelId).Some?
              && problem == ModelProblem(gw, now, r, Get(gw.models, r.modelId).value)
  {
  }

  /** The validator reports the first check that fails, and nothing when none does. */
  lemma {:induction false} ProblemIsFirst(gw: Gateway, now: int, r: Request, other: Code)
    ensures var problem := FirstProblem(gw, now, r);
            && (problem.None? ==> !Fails(gw, now, r, other))
            && (problem.Some? ==> Fails(gw, now, r, problem.value))
            && (problem.Some? && Place(other) < Place(problem.value) ==> !Fails(gw, now, r, other))
  {
    var problem, found := FirstProblem(gw, now, r), Get(gw.models, r.modelId);
    RequestProblemIsFirst(gw, now, r, other);
    if Place(other) < 6 {
      RequestCheckIs(gw, now, r, other);
    }
    if problem.Some? && RequestFails(gw, r, problem.value) {
      RequestCheckIs(gw, now, r, problem.value);
    } else {
      ModelProblemFails(gw, now, r, found.value);
      EarlierModelChecksPass(gw, now, r, found.value, other);
      if Place(other) >= 6 {
        ModelCheckIs(gw, now, r, found.value, other);
      }
      if problem.Some? {
        ModelCheckIs(gw, now, r, found.value, problem.value);
      }
    }
  }

  // ----- the capability view keeps the configured order -----

  /** The first list is what is left of the second when some entries are struck out. */
  ghost predicate Subsequence(sub: seq<string>, all: seq<string>) {
    if sub == [] then true
    else if all == [] then false
    else if sub[|sub| - 1] == all[|all| - 1] then Subsequence(sub[..|sub| - 1], all[..|all| - 1])
    else Subsequence(sub, all[..|all| - 1])
  }

  /** The view lists a subsequence of the configured models, with every reachable one as often as it is
      configured and no other. */
  lemma {:induction false} ViewKeepsOrder(gw: Gateway, now: int, ids: seq<string>, id: string)
    ensures Subsequence(ReachableIds(gw, now, ids), ids)
    ensures multiset(ReachableIds(gw, now, ids))[id] == if Reachable(gw, now, id) then multiset(ids)[id] else 0
  {
    if ids != [] {
      var rest, last := ids[..|ids| - 1], ids[|ids| - 1];
      ViewKeepsOrder(gw, now, rest, id);
      SplitLast(ids);
      var before := ReachableIds(gw, now, rest);
      if Reachable(gw, now, last) {
        assert (before + [last])[..|before|] == before;
      } else {
        assert before + [] == before;
        if before != [] {
          ReachableMembers(gw, now, rest);
          assert before[|before| - 1] in before;
        }
      }
    }
  }

  // ----- fallbacks in the order of configuration -----

  /** Where a name occurs first in a list, or the length when it does not. */
  function FirstIndex(names: seq<string>, id: string): (i: nat)
    ensures i <= |names| && (i < |names| ==> names[i] == id) && forall k :: 0 <= k < i ==> names[k] != id
  {
    if names == [] then 0 else if names[0] == id then 0 else FirstIndex(names[1..], id) + 1
  }

  lemma FirstIndexIs(names: seq<string>, id: string, i: nat)
    requires i < |names| && names[i] == id && id !in names[..i]
    ensures FirstIndex(names, id) == i
  {
    forall k | 0 <= k < i ensures names[k] != id {
      assert names[..i][k] == names[k];
    }
  }

  /** Listed in the order of first occurrence. */
  ghost predicate InOrderOf(ids: seq<string>, names: seq<string>) {
    forall i, j :: 0 <= i < j < |ids| ==> FirstIndex(names, ids[i]) < FirstIndex(names, ids[j])
  }

  lemma {:induction false} FallbacksInOrder(names: seq<string>, allowed: seq<string>, current: string, n: nat)
    requires n <= |names|
    ensures var ids := FallbacksUpTo(names, allowed, current, n);
            InOrderOf(ids, names) && forall i :: 0 <= i < |ids| ==> FirstIndex(names, ids[i]) < n
  {
    if n > 0 {
      FallbacksInOrder(names, allowed, current, n - 1);
      SeenAre(names, current, n - 1);
      var id := names[n - 1];
      if id != "" && id !in SeenUpTo(names, current, n - 1) {
        FirstIndexIs(names, id, n - 1);
      }
    }
  }

  /** The fallbacks of a plan, without its first model. */
  function Called(gw: Gateway, now: int, r: Request, ids: seq<string>, n: nat): seq<string>
    requires n <= |ids|
  {
    if n == 0 then []
    else
      Called(gw, now, r, ids, n - 1) +
      (if FirstProblem(gw, now, r.(modelId := ids[n - 1])).None? then [ids[n - 1]] else [])
  }

  lemma {:induction false} PlanIsCalled(gw: Gateway, now: int, r: Request, ids: seq<string>, n: nat)
    requires n <= |ids|
    ensures PlanUpTo(gw, now, r, ids, n) == [r.modelId] + Called(gw, now, r, ids, n)
  {
    if n > 0 {
      PlanIsCalled(gw, now, r, ids, n - 1);
    }
  }

  lemma InOrderAppend(ids: seq<string>, names: seq<string>, id: string)
    requires InOrderOf(ids, names) && forall i :: 0 <= i < |ids| ==> FirstIndex(names, ids[i]) < FirstIndex(names, id)
    ensures InOrderOf(ids + [id], names)
  {
  }

  lemma {:induction false} CalledInOrder(gw: Gateway, now: int, r: Request, ids: seq<string>, names: seq<string>, n: nat)
    requires InOrderOf(ids, names) && n <= |ids|
    ensures InOrderOf(Called(gw, now, r, ids, n), names)
    ensures forall id :: id in Called(gw, now, r, ids, n) ==> id in ids[..n]
  {
    if n > 0 {
      var before, last := Called(gw, now, r, ids, n - 1), ids[n - 1];
      CalledInOrder(gw, now, r, ids, names, n - 1);
      forall i | 0 <= i < |before| ensures FirstIndex(names, before[i]) < FirstIndex(names, last) {
        assert before[i] in ids[..n - 1];
        var k :| 0 <= k < n - 1 && ids[..n - 1][k] == before[i];
        assert ids[k] == before[i];
      }
      InOrderAppend(before, names, last);
      assert ids[..n] == ids[..n - 1] + [last];
      assert before + [] == before;
    }
  }

  /** The candidates, and the plan after its first model, are in the order in which the deployments are
      configured. */
  lemma {:induction false} PlanFollowsConfiguration(gw: Gateway, now: int, r: Request)
    ensures InOrderOf(Fallbacks(gw, r.agentRole, r.modelId), Trimmed(gw.fallbackDeployments))
    ensures Plan(gw, now, r)[0] == r.modelId
    ensures InOrderOf(Plan(gw, now, r)[1..], Trimmed(gw.fallbackDeployments))
  {
    var names, ids := Trimmed(gw.fallbackDeployments), Fallbacks(gw, r.agentRole, r.modelId);
    FallbacksInOrder(names, RoleModels(gw, r.agentRole), Trim(r.modelId), |names|);
    CalledInOrder(gw, now, r, ids, names, |ids|);
    PlanIsCalled(gw, now, r, ids, |ids|);
    assert ([r.modelId] + Called(gw, now, r, ids, |ids|))[1..] == Called(gw, now, r, ids, |ids|);
  }

  /** In one invocation no fallback is called before every configured fallback ahead of it that validates
      has been called and has failed. */
  lemma {:induction false} CallsFollowConfiguration(
    gw: Gateway, now: int, r: Request, o: Oracle, calls: seq<string>, k: nat, ahead: string)
    requires FirstProblem(gw, now, r).None? && Walk(Plan(gw, now, r), r, o, calls) && 1 <= k < |calls|
    requires ahead in Trimmed(gw.fallbackDeployments) && ahead != Trim(r.modelId)
    requires FirstProblem(gw, now, r.(modelId := ahead)).None?
    requires FirstIndex(Trimmed(gw.fallbackDeployments), ahead) < FirstIndex(Trimmed(gw.fallbackDeployments), calls[k])
    ensures calls[0] == r.modelId && FailsAt(calls, o, 0)
    ensures ahead != r.modelId ==> exists j :: 1 <= j < k && calls[j] == ahead && FailsAt(calls, o, j)
  {
    PlanFollowsConfiguration(gw, now, r);
    PlanIsSafe(gw, now, r);
    AheadWasCalled(Plan(gw, now, r), Trimmed(gw.fallbackDeployments), r, o, calls, k, ahead);
  }

  lemma {:induction false} AheadWasCalled(
    plan: seq<string>, names: seq<string>, r: Request, o: Oracle, calls: seq<string>, k: nat, ahead: string)
    requires plan != [] && plan[0] == r.modelId && InOrderOf(plan[1..], names)
    requires Walk(plan, r, o, calls) && 1 <= k < |calls| && ahead in plan
    requires FirstIndex(names, ahead) < FirstIndex(names, calls[k])
    ensures calls[0] == r.modelId && FailsAt(calls, o, 0)
    ensures ahead != r.modelId ==> exists j :: 1 <= j < k && calls[j] == ahead && FailsAt(calls, o, j)
  {
    assert calls[0] == plan[0] && calls[k] == plan[k];
    if ahead != r.modelId {
      var j :| 0 <= j < |plan| && plan[j] == ahead;
      var rest := plan[1..];
      assert rest[k - 1] == calls[k] && rest[j - 1] == ahead;
      assert j < k;
      assert calls[j] == plan[j];
    }
  }

  /** A first call that runs into its deadline is the only one, and after any other failure the next model
      of the plan is called. */
  lemma {:induction false} FirstFailureDecides(plan: seq<string>, r: Request, o: Oracle, calls: seq<string>)
    requires Walk(plan, r, o, calls) && plan[0] == r.modelId && o.answer(0, r.modelId).Failed?
    ensures o.answer(0, r.modelId).deadline || o.expiredAfterFirst ==> |calls| == 1
    ensures !o.answer(0, r.modelId).deadline && !o.expiredAfterFirst && |plan| > 1 ==>
              |calls| > 1 && calls[1] == plan[1]
  {
    assert calls[0] == plan[0];
    assert FailsAt(calls, o, 0);
  }
}
