/**
 The trajectory ledger of the harness: the events of one run, sorted, renumbered and summarised.

 sort.Slice is not stable, so the method that stands for it promises a sorted permutation and no
 more. Instants are integers, and None is the zero time of Go.
 */
module TrajectoryLedger {
  import opened Prelude

  const SCHEMA_V0: string := "v0"
  const REDACTION_PROFILES: seq<string> := ["harness-control-plane", "agent-managed", "none"]

  datatype Reference = Reference(uri: string, sha256: string, byteSize: int)

  datatype Event = Event(
    schemaVersion: string, eventId: string, eventType: string, service: string, runId: string, stepId: int,
    actor: string, capability: string, dataClass: string, redactionProfile: string, policyDecision: string,
    status: string, stateTransition: string, errorClass: string, latencyMs: Option<int>, costAmount: Option<real>,
    inputRef: Reference, outputRef: Reference, createdAt: Option<int>, workflowId: Option<string>,
    relatedRecords: seq<string>)

  datatype Step = Step(
    eventId: string, stepId: int, actor: string, capability: string, dataClass: string, eventType: string,
    stateTransition: string, status: string, errorClass: string, inputRef: Reference, outputRef: Reference,
    relatedRecords: seq<string>, createdAt: Option<int>)

  datatype Ledger = Ledger(
    schemaVersion: string, runId: string, status: string, workflowId: string, startedAt: Option<int>,
    completedAt: Option<int>, capturedAt: Option<int>, steps: seq<Step>)

  datatype Built = Built(ledger: Ledger, valid: bool) | NoRunId | NoEvents

  predicate ValidReference(r: Reference) {
    r.uri != "" && IsSha256(r.sha256) && r.byteSize >= 0
  }

  /** EventEnvelopeV0.Validate. */
  predicate ValidEvent(e: Event) {
    && e.schemaVersion == SCHEMA_V0 && e.eventId != "" && e.eventType != "" && e.service != "" && e.runId != ""
    && e.stepId > 0 && e.actor != "" && e.capability != "" && Among(e.dataClass, DATA_CLASSES)
    && Among(e.redactionProfile, REDACTION_PROFILES) && e.policyDecision != "" && e.status != ""
    && e.stateTransition != "" && e.createdAt.Some?
    && ValidReference(e.inputRef) && ValidReference(e.outputRef)
    && (e.latencyMs.Some? ==> e.latencyMs.value >= 0)
    && (e.costAmount.Some? ==> e.costAmount.value >= 0.0)
  }

  predicate ValidStep(s: Step) {
    && s.eventId != "" && s.stepId > 0 && s.actor != "" && Among(s.dataClass, DATA_CLASSES)
    && ValidReference(s.inputRef) && ValidReference(s.outputRef)
  }

  predicate DistinctSteps(steps: seq<Step>) {
    forall i, j :: 0 <= i < j < |steps| ==> steps[i].stepId != steps[j].stepId
  }

  /** AgentTrajectoryLedgerV0.Validate as one condition. */
  predicate ValidLedger(l: Ledger) {
    && l.schemaVersion == SCHEMA_V0 && l.runId != "" && l.status != "" && l.capturedAt.Some?
    && (forall i :: 0 <= i < |l.steps| ==> ValidStep(l.steps[i]))
    && DistinctSteps(l.steps)
  }

  /** AgentTrajectoryLedgerV0.Validate: the step loop with its map of the identifiers seen. */
  method Validate(l: Ledger) returns (ok: bool)
    ensures ok <==> ValidLedger(l)
  {
    if l.schemaVersion != SCHEMA_V0 || l.runId == "" || l.status == "" || l.capturedAt.None? {
      return false;
    }
    var seen: set<int> := {};
    for i := 0 to |l.steps|
      invariant forall k :: 0 <= k < i ==> ValidStep(l.steps[k])
      invariant DistinctSteps(l.steps[..i])
      invariant forall id :: id in seen <==> exists k :: 0 <= k < i && l.steps[k].stepId == id
    {
      var s := l.steps[i];
      if s.eventId == "" || s.stepId <= 0 {
        return false;
      }
      if s.stepId in seen {
        return false;
      }
      seen := seen + {s.stepId};
      if s.actor == "" || !Among(s.dataClass, DATA_CLASSES) {
        return false;
      }
      if !ValidReference(s.inputRef) || !ValidReference(s.outputRef) {
        return false;
      }
    }
    assert l.steps[..|l.steps|] == l.steps;
    return true;
  }

  // ----- sorting -----

  /** The comparison given to sort.Slice. */
  predicate Less(a: Event, b: Event) {
    StampLess(a.createdAt, a.stepId, b.createdAt, b.stepId)
  }

  predicate Sorted(events: seq<Event>) {
    forall i, j :: 0 <= i < j < |events| ==> !Less(events[j], events[i])
  }

  lemma SortedConcat(a: seq<Event>, b: seq<Event>)
    requires Sorted(a) && Sorted(b)
    requires forall i, j :: 0 <= i < |a| && 0 <= j < |b| ==> !Less(b[j], a[i])
    ensures Sorted(a + b)
  {
  }

  lemma LessIsTransitive(a: Event, b: Event, c: Event)
    requires !Less(b, a) && !Less(c, b)
    ensures !Less(c, a)
  {
  }

  lemma LessIsAsymmetric(a: Event, b: Event)
    requires Less(a, b)
    ensures !Less(b, a)
  {
  }

  lemma InsertSorted(s: seq<Event>, k: nat, e: Event)
    requires Sorted(s) && k <= |s|
    requires forall j :: k <= j < |s| ==> Less(e, s[j])
    requires k > 0 ==> !Less(e, s[k - 1])
    ensures Sorted(s[..k] + [e] + s[k..])
  {
    forall i | 0 <= i < k ensures !Less(e, s[i]) {
      if i < k - 1 {
        LessIsTransitive(s[i], s[k - 1], e);
      }
    }
    SortedConcat(s[..k], [e]);
    forall i, j | 0 <= i < k + 1 && 0 <= j < |s| - k ensures !Less(s[k..][j], (s[..k] + [e])[i]) {
      LessIsAsymmetric(e, s[k + j]);
    }
    SortedConcat(s[..k] + [e], s[k..]);
  }

  lemma InsertMultiset(s: seq<Event>, k: nat, e: Event)
    requires k <= |s|
    ensures multiset(s[..k] + [e] + s[k..]) == multiset(s) + multiset{e}
  {
    assert s == s[..k] + s[k..];
  }

  /** sort.Slice by creation time and then step. */
  method Sort(events: seq<Event>) returns (sorted: seq<Event>)
    ensures Sorted(sorted) && multiset(sorted) == multiset(events)
  {
    sorted := [];
    for i := 0 to |events|
      invariant Sorted(sorted) && multiset(sorted) == multiset(events[..i])
    {
      var k := |sorted|;
      while k > 0 && Less(events[i], sorted[k - 1])
        invariant 0 <= k <= |sorted|
        invariant forall j :: k <= j < |sorted| ==> Less(events[i], sorted[j])
      {
        k := k - 1;
      }
      assert events[..i + 1] == events[..i] + [events[i]];
      InsertSorted(sorted, k, events[i]);
      InsertMultiset(sorted, k, events[i]);
      sorted := sorted[..k] + [events[i]] + sorted[k..];
    }
    assert events[..|events|] == events;
  }

  // ----- building the ledger -----

  function OfRun(events: seq<Event>, run: string): seq<Event> {
    if events == [] then []
    else
      var last := events[|events| - 1];
      OfRun(events[..|events| - 1], run) + (if last.runId == run then [last] else [])
  }

  method Filter(events: seq<Event>, run: string) returns (filtered: seq<Event>)
    ensures filtered == OfRun(events, run)
  {
    filtered := [];
    for i := 0 to |events|
      invariant filtered == OfRun(events[..i], run)
    {
      assert events[..i + 1][..i] == events[..i];
      if events[i].runId == run {
        filtered := filtered + [events[i]];
      }
    }
    assert events[..|events|] == events;
  }

  function StepOf(e: Event, stepId: int): Step {
    Step(e.eventId, stepId, e.actor, e.capability, e.dataClass, e.eventType, e.stateTransition, e.status,
         e.errorClass, e.inputRef, e.outputRef, e.relatedRecords, e.createdAt)
  }

  predicate Terminal(e: Event) {
    e.eventType == "run.completed" || e.eventType == "run.failed"
  }

  /** The completion time that the loop over the sorted events leaves behind. */
  function LastTerminal(sorted: seq<Event>): Option<int> {
    if sorted == [] then None
    else if Terminal(sorted[|sorted| - 1]) then sorted[|sorted| - 1].createdAt
    else LastTerminal(sorted[..|sorted| - 1])
  }

  function LedgerOf(run: string, sorted: seq<Event>, now: int): Ledger
    requires sorted != []
  {
    var latest := sorted[|sorted| - 1];
    Ledger(SCHEMA_V0, run, latest.status, if latest.workflowId.Some? then latest.workflowId.value else "",
           sorted[0].createdAt, LastTerminal(sorted), Some(now),
           seq(|sorted|, i requires 0 <= i < |sorted| => StepOf(sorted[i], i + 1)))
  }

  /** BuildAgentTrajectoryLedger: some sorted permutation of the run's events is renumbered. */
  method Build(run: string, events: seq<Event>, now: int) returns (r: Built, ghost sorted: seq<Event>)
    ensures run == "" ==> r.NoRunId?
    ensures run != "" ==> (r.NoEvents? <==> OfRun(events, run) == []) && !r.NoRunId?
    ensures r.Built? ==>
              && Sorted(sorted) && multiset(sorted) == multiset(OfRun(events, run)) && sorted != []
              && r.ledger == LedgerOf(run, sorted, now) && (r.valid <==> ValidLedger(r.ledger))
  {
    sorted := [];
    if run == "" {
      return NoRunId, [];
    }
    var filtered := Filter(events, run);
    if |filtered| == 0 {
      return NoEvents, [];
    }
    var ordered := Sort(filtered);
    SameSize(ordered, filtered);
    var ledger := Summarise(run, ordered, now);
    var valid := Validate(ledger);
    return Built(ledger, valid), ordered;
  }

  /** The loop over the sorted events. */
  method Summarise(run: string, sorted: seq<Event>, now: int) returns (ledger: Ledger)
    requires sorted != []
    ensures ledger == LedgerOf(run, sorted, now)
  {
    var steps, completedAt := [], None;
    for i := 0 to |sorted|
      invariant |steps| == i && forall k :: 0 <= k < i ==> steps[k] == StepOf(sorted[k], k + 1)
      invariant completedAt == LastTerminal(sorted[..i])
    {
      assert sorted[..i + 1][..i] == sorted[..i];
      steps := steps + [StepOf(sorted[i], i + 1)];
      if Terminal(sorted[i]) {
        completedAt := sorted[i].createdAt;
      }
    }
    assert sorted[..|sorted|] == sorted;
    var latest := sorted[|sorted| - 1];
    var workflowId := "";
    if latest.workflowId.Some? && latest.workflowId.value != "" {
      workflowId := latest.workflowId.value;
    }
    ledger := Ledger(SCHEMA_V0, run, latest.status, workflowId, sorted[0].createdAt, completedAt, Some(now), steps);
    assert steps == seq(|sorted|, i requires 0 <= i < |sorted| => StepOf(sorted[i], i + 1));
  }

  lemma SameSize(a: seq<Event>, b: seq<Event>)
    requires multiset(a) == multiset(b)
    ensures |a| == |b|
  {
    assert |multiset(a)| == |a| && |multiset(b)| == |b|;
  }

  // ----- what the ledger says -----

  lemma {:induction false} OfRunMembers(events: seq<Event>, run: string, e: Event)
    ensures multiset(OfRun(events, run))[e] == if e.runId == run then multiset(events)[e] else 0
  {
    if events != [] {
      OfRunMembers(events[..|events| - 1], run, e);
      SplitLast(events);
    }
  }

  /** The steps stand for the events of the run, each as often as it was recorded. */
  lemma StepsAreTheRun(run: string, events: seq<Event>, sorted: seq<Event>, e: Event)
    requires multiset(sorted) == multiset(OfRun(events, run))
    ensures multiset(sorted)[e] == if e.runId == run then multiset(events)[e] else 0
  {
    OfRunMembers(events, run, e);
  }

  predicate NotAfter(a: Option<int>, b: Option<int>) {
    !Before(b, a)
  }

  /** The ledger starts at the least creation time of the run's events. */
  lemma StartedAtIsEarliest(run: string, events: seq<Event>, sorted: seq<Event>, now: int, e: Event)
    requires Sorted(sorted) && multiset(sorted) == multiset(OfRun(events, run)) && sorted != []
    requires e in events && e.runId == run
    ensures NotAfter(LedgerOf(run, sorted, now).startedAt, e.createdAt)
    ensures exists d :: d in events && d.runId == run && d.createdAt == LedgerOf(run, sorted, now).startedAt
  {
    OfRunMembers(events, run, e);
    OfRunMembers(events, run, sorted[0]);
    assert multiset(sorted)[e] > 0 && multiset(sorted)[sorted[0]] > 0;
    var i :| 0 <= i < |sorted| && sorted[i] == e;
    assert i > 0 ==> !Less(sorted[i], sorted[0]);
    assert sorted[0] in events;
  }

  lemma {:induction false} LastTerminalIs(sorted: seq<Event>, i: nat)
    requires Sorted(sorted) && i < |sorted| && Terminal(sorted[i])
    ensures NotAfter(sorted[i].createdAt, LastTerminal(sorted))
  {
    if !Terminal(sorted[|sorted| - 1]) {
      LastTerminalIs(sorted[..|sorted| - 1], i);
    } else if i < |sorted| - 1 {
      assert !Less(sorted[|sorted| - 1], sorted[i]);
    }
  }

  lemma {:induction false} LastTerminalOrigin(sorted: seq<Event>) returns (i: nat)
    requires exists k :: 0 <= k < |sorted| && Terminal(sorted[k])
    ensures i < |sorted| && Terminal(sorted[i]) && LastTerminal(sorted) == sorted[i].createdAt
  {
    if Terminal(sorted[|sorted| - 1]) {
      i := |sorted| - 1;
    } else {
      var k :| 0 <= k < |sorted| && Terminal(sorted[k]);
      assert Terminal(sorted[..|sorted| - 1][k]);
      i := LastTerminalOrigin(sorted[..|sorted| - 1]);
    }
  }

  /** It completes at the latest creation time of a run.completed or run.failed event. */
  lemma CompletedAtIsLatestTerminal(run: string, events: seq<Event>, sorted: seq<Event>, now: int, e: Event)
    requires Sorted(sorted) && multiset(sorted) == multiset(OfRun(events, run)) && sorted != []
    requires e in events && e.runId == run && e.eventType in {"run.completed", "run.failed"}
    ensures NotAfter(e.createdAt, LedgerOf(run, sorted, now).completedAt)
    ensures exists d :: d in events && d.runId == run && d.eventType in {"run.completed", "run.failed"}
                        && d.createdAt == LedgerOf(run, sorted, now).completedAt
  {
    assert Terminal(e);
    OfRunMembers(events, run, e);
    assert multiset(sorted)[e] > 0;
    var i :| 0 <= i < |sorted| && sorted[i] == e;
    LastTerminalIs(sorted, i);
    var k := LastTerminalOrigin(sorted);
    OfRunMembers(events, run, sorted[k]);
    assert multiset(sorted)[sorted[k]] > 0;
    assert sorted[k] in events;
  }

  /** Without such an event it does not complete. */
  lemma OpenWithoutTerminal(run: string, events: seq<Event>, sorted: seq<Event>, now: int)
    requires Sorted(sorted) && multiset(sorted) == multiset(OfRun(events, run)) && sorted != []
    requires forall e :: e in events && e.runId == run ==> e.eventType !in {"run.completed", "run.failed"}
    ensures LedgerOf(run, sorted, now).completedAt == None
  {
    forall i | 0 <= i < |sorted| ensures !Terminal(sorted[i]) {
      OfRunMembers(events, run, sorted[i]);
      assert multiset(sorted)[sorted[i]] > 0;
    }
    NoTerminal(sorted);
  }

  lemma {:induction false} NoTerminal(sorted: seq<Event>)
    requires forall i :: 0 <= i < |sorted| ==> !Terminal(sorted[i])
    ensures LastTerminal(sorted) == None
  {
    if sorted != [] {
      NoTerminal(sorted[..|sorted| - 1]);
    }
  }

  /** Valid events always build a valid ledger: renumbering makes the step identifiers distinct. */
  lemma ValidEventsBuildValidLedger(run: string, events: seq<Event>, sorted: seq<Event>, now: int)
    requires run != "" && sorted != [] && multiset(sorted) == multiset(OfRun(events, run))
    requires forall e :: e in events && e.runId == run ==> ValidEvent(e)
    ensures ValidLedger(LedgerOf(run, sorted, now))
  {
    var steps := LedgerOf(run, sorted, now).steps;
    forall i | 0 <= i < |steps| ensures ValidStep(steps[i]) {
      StepAtIsValid(run, events, sorted, now, i);
    }
    LatestHasStatus(run, events, sorted);
    StepsAreDistinct(run, sorted, now);
  }

  lemma StepAtIsValid(run: string, events: seq<Event>, sorted: seq<Event>, now: int, i: nat)
    requires i < |sorted| && multiset(sorted) == multiset(OfRun(events, run))
    requires forall e :: e in events && e.runId == run ==> ValidEvent(e)
    ensures ValidStep(LedgerOf(run, sorted, now).steps[i])
  {
    EventIsValid(run, events, sorted, i);
    StepIsValid(sorted[i], i + 1);
  }

  lemma LatestHasStatus(run: string, events: seq<Event>, sorted: seq<Event>)
    requires sorted != [] && multiset(sorted) == multiset(OfRun(events, run))
    requires forall e :: e in events && e.runId == run ==> ValidEvent(e)
    ensures sorted[|sorted| - 1].status != ""
  {
    EventIsValid(run, events, sorted, |sorted| - 1);
  }

  lemma StepsAreDistinct(run: string, sorted: seq<Event>, now: int)
    requires sorted != []
    ensures DistinctSteps(LedgerOf(run, sorted, now).steps)
  {
    var steps := LedgerOf(run, sorted, now).steps;
    assert forall i :: 0 <= i < |steps| ==> steps[i].stepId == i + 1;
  }

  lemma EventIsValid(run: string, events: seq<Event>, sorted: seq<Event>, i: nat)
    requires multiset(sorted) == multiset(OfRun(events, run)) && i < |sorted|
    requires forall e :: e in events && e.runId == run ==> ValidEvent(e)
    ensures ValidEvent(sorted[i])
  {
    OfRunMembers(events, run, sorted[i]);
    assert multiset(sorted)[sorted[i]] > 0;
    assert sorted[i] in events;
  }

  lemma StepIsValid(e: Event, stepId: int)
    requires ValidEvent(e) && stepId > 0
    ensures ValidStep(StepOf(e, stepId))
  {
  }

  /** No two events share both instant and step. */
  ghost predicate NoTies(events: seq<Event>) {
    forall d, e :: d in events && e in events && d != e ==> Less(d, e) || Less(e, d)
  }

  lemma {:induction false} SortedIsUnique(a: seq<Event>, b: seq<Event>)
    requires Sorted(a) && Sorted(b) && multiset(a) == multiset(b) && NoTies(a)
    ensures a == b
  {
    SameSize(a, b);
    if a != [] {
      LastIsGreatest(a, b);
      WithoutLast(a);
      WithoutLast(b);
      SortedIsUnique(a[..|a| - 1], b[..|b| - 1]);
      SplitLast(a);
      SplitLast(b);
    }
  }

  lemma WithoutLast(a: seq<Event>)
    requires a != []
    ensures multiset(a[..|a| - 1]) == multiset(a) - multiset{a[|a| - 1]}
    ensures Sorted(a) ==> Sorted(a[..|a| - 1])
    ensures NoTies(a) ==> NoTies(a[..|a| - 1])
  {
    SplitLast(a);
    assert forall e :: e in a[..|a| - 1] ==> e in a;
  }

  lemma LastIsGreatest(a: seq<Event>, b: seq<Event>)
    requires a != [] && |a| == |b| && Sorted(a) && Sorted(b) && multiset(a) == multiset(b) && NoTies(a)
    ensures a[|a| - 1] == b[|b| - 1]
  {
    var n := |a| - 1;
    assert multiset(a)[b[n]] > 0 && multiset(b)[a[n]] > 0;
    var i :| 0 <= i < |a| && a[i] == b[n];
    var j :| 0 <= j < |b| && b[j] == a[n];
    assert i < n ==> !Less(a[n], a[i]);
    assert j < n ==> !Less(b[n], b[j]);
  }

  /** Exchanging two events that share instant and step leaves the list sorted. */
  lemma TiedSwap(a: seq<Event>, i: nat, j: nat)
    requires Sorted(a) && i < j < |a| && a[i] != a[j] && !Less(a[i], a[j])
    ensures var b := a[i := a[j]][j := a[i]]; Sorted(b) && multiset(b) == multiset(a) && b != a
  {
    var b := a[i := a[j]][j := a[i]];
    assert !Less(a[j], a[i]);
    assert forall k :: 0 <= k < |a| ==> b[k].createdAt == a[k].createdAt && b[k].stepId == a[k].stepId;
    assert b[i] == a[j];
  }

  /** The sort leaves one list only, whatever the order of recording, exactly when no two
      different events of the run share both instant and step. */
  lemma {:induction false} LedgerIsDetermined(a: seq<Event>)
    requires Sorted(a)
    ensures NoTies(a) <==> forall b :: Sorted(b) && multiset(b) == multiset(a) ==> b == a
  {
    if NoTies(a) {
      forall b | Sorted(b) && multiset(b) == multiset(a) ensures b == a {
        SortedIsUnique(a, b);
      }
    } else {
      var d, e :| d in a && e in a && d != e && !Less(d, e) && !Less(e, d);
      var i :| 0 <= i < |a| && a[i] == d;
      var j :| 0 <= j < |a| && a[j] == e;
      TiedSwap(a, if i < j then i else j, if i < j then j else i);
    }
  }

  // ----- what the ledger carries -----

  /** Each step carries the fields of one event and its own place as its number. */
  lemma StepsCarryEvents(run: string, sorted: seq<Event>, now: int, i: nat)
    requires i < |sorted|
    ensures var steps := LedgerOf(run, sorted, now).steps;
            && |steps| == |sorted|
            && var s, e := steps[i], sorted[i];
            && s.stepId == i + 1
            && s.eventId == e.eventId && s.actor == e.actor && s.capability == e.capability
            && s.dataClass == e.dataClass && s.eventType == e.eventType
            && s.stateTransition == e.stateTransition && s.status == e.status && s.errorClass == e.errorClass
            && s.inputRef == e.inputRef && s.outputRef == e.outputRef
            && s.relatedRecords == e.relatedRecords && s.createdAt == e.createdAt
  {
  }

  /** The ledger carries status and workflow of the latest event. */
  lemma LedgerCarriesLatest(run: string, events: seq<Event>, sorted: seq<Event>, now: int)
    requires Sorted(sorted) && multiset(sorted) == multiset(OfRun(events, run)) && sorted != []
    ensures var l := LedgerOf(run, sorted, now);
            && l.runId == run && l.schemaVersion == "v0" && l.capturedAt == Some(now)
            && exists e :: e in events && e.runId == run && l.status == e.status
                           && l.workflowId == (match e.workflowId case None => "" case Some(w) => w)
                           && forall d :: d in events && d.runId == run ==> !Less(e, d)
  {
    var e := sorted[|sorted| - 1];
    OfRunMembers(events, run, e);
    assert multiset(sorted)[e] > 0;
    assert e in events;
    forall d | d in events && d.runId == run ensures !Less(e, d) {
      OfRunMembers(events, run, d);
      assert multiset(sorted)[d] > 0;
      var i :| 0 <= i < |sorted| && sorted[i] == d;
    }
  }

  /** Sorted means: in order of instants, and in order of steps where these are the same. */
  lemma {:induction false} SortedMeans(events: seq<Event>)
    ensures Sorted(events) <==>
            forall i, j :: 0 <= i < j < |events| ==>
              StampInOrder(events[i].createdAt, events[i].stepId, events[j].createdAt, events[j].stepId)
  {
    forall i, j | 0 <= i < j < |events|
      ensures !Less(events[j], events[i]) <==>
              StampInOrder(events[i].createdAt, events[i].stepId, events[j].createdAt, events[j].stepId)
    {
    }
  }
}
