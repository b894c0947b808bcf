/**
 The pattern analyzer of the experience-learning service: grouping of a run's events, the candidates
 of each group, retry sequences, trajectory ledgers, and deduplication.

 Go maps are enumerated in an unspecified order. The methods pick keys in any order and report the
 order that they took as a ghost result, so that what is proved holds for every order.
 */
module LearningAnalyzer {
  import opened Prelude
  import opened Text

  datatype Event = Event(
    eventId: string, runId: string, stepId: int, actor: string, capability: string, eventType: string,
    dataClass: string, stateTransition: string, status: string, inputHash: string, outputHash: string,
    createdAt: Option<int>, outcomeText: string, acceptedFlag: bool)

  datatype LedgerStep = LedgerStep(
    eventId: string, stepId: int, actor: string, capability: string, eventType: string,
    stateTransition: string, status: string)

  datatype Ledger = Ledger(runId: string, steps: seq<LedgerStep>)

  datatype Pattern =
    | RepeatAction | UnchangedOutput | RepeatedFailure | CompileFailure | TestFailure
    | Retry | AbortedRun | BudgetOverrun | AcceptedPattern

  datatype PatternKey = PatternKey(
    actor: string, capability: string, inputHash: string, outputHash: string, status: string, outcome: string)

  datatype RetryKey = RetryKey(actor: string, capability: string, inputHash: string, outputHash: string, outcome: string)

  datatype Candidate = Candidate(
    eventId: string, runId: string, actor: string, capability: string, pattern: Pattern, fingerprint: string,
    outcome: string, occurrences: nat, firstStepId: int, lastStepId: int, evidence: seq<string>, ignored: bool)

  /** The policy and what is outside the model: lower-casing, case folding, the digest of a key, the text
      of an event id, the validation of the log, and sort.Slice by creation time and step. What holds is
      proved for any mapping of statuses; `MapsStatuses` says which one the service uses. */
  datatype Env = Env(
    minRepeat: int, minFailures: int, includeFailures: bool, observationOnly: bool,
    lower: string -> string, mapStatus: string -> string, sameFolded: (string, string) -> bool, digest: PatternKey -> string,
    idText: nat -> string, accepts: Candidate -> bool, arrange: seq<Event> -> seq<Event>)

  /** The comparison given to sort.Slice. */
  predicate Earlier(a: Event, b: Event) {
    StampLess(a.createdAt, a.stepId, b.createdAt, b.stepId)
  }

  predicate InOrder(events: seq<Event>) {
    forall i, j :: 0 <= i < j < |events| ==> !Earlier(events[j], events[i])
  }

  /** What is known of sort.Slice, which is not stable: it returns its input in order. */
  ghost predicate Sorts(env: Env) {
    forall events :: InOrder(env.arrange(events)) && multiset(env.arrange(events)) == multiset(events)
  }

  /** Pattern and fingerprint; no pattern name holds the colon that joins them. */
  type Key = (Pattern, string)

  function KeyOf(c: Candidate): Key {
    (c.pattern, c.fingerprint)
  }

  function KeysOf(cs: seq<Candidate>): set<Key> {
    set i | 0 <= i < |cs| :: KeyOf(cs[i])
  }

  lemma KeysOfConcat(a: seq<Candidate>, b: seq<Candidate>)
    ensures KeysOf(a + b) == KeysOf(a) + KeysOf(b)
  {
    var all := a + b;
    forall k | k in KeysOf(all) ensures k in KeysOf(a) + KeysOf(b) {
      var i :| 0 <= i < |all| && KeyOf(all[i]) == k;
      assert all[i] == if i < |a| then a[i] else b[i - |a|];
    }
    forall k | k in KeysOf(a) ensures k in KeysOf(all) {
      var i :| 0 <= i < |a| && KeyOf(a[i]) == k;
      assert all[i] == a[i];
    }
    forall k | k in KeysOf(b) ensures k in KeysOf(all) {
      var i :| 0 <= i < |b| && KeyOf(b[i]) == k;
      assert all[|a| + i] == b[i];
    }
  }

  // ----- reading an event -----

  const FAILURE_STATUSES: set<string> :=
    {"output-divergence", "compile-failed", "run-failed", "golden-master-reproduction-failed"}

  /** harnessStatusForAnalysis. */
  function MappedStatus(env: Env, status: string): string {
    var s := env.lower(Trim(status));
    if s == "starting" then "started" else if s in FAILURE_STATUSES then "failed" else s
  }

  ghost predicate MapsStatuses(env: Env) {
    forall s :: env.mapStatus(s) == MappedStatus(env, s)
  }

  predicate Contains(s: string, part: string) {
    exists i :: 0 <= i <= |s| && part <= s[i..]
  }

  function BuildOutcome(env: Env, e: Event): string {
    var eventType, dataClass, status := env.lower(e.eventType), env.lower(e.dataClass), env.lower(Trim(e.status));
    var outcome := env.lower(e.outcomeText);
    if status == "compile-failed" || outcome == "compile" || Contains(eventType, "compile") then "compile"
    else if status in {"run-failed", "output-divergence", "golden-master-reproduction-failed"}
            || outcome == "test" || Contains(eventType, "test") || dataClass == "test" then "test"
    else if dataClass == "build-test" || Contains(eventType, "build") then "compile"
    else ""
  }

  predicate Accepted(env: Env, e: Event) {
    || env.sameFolded(e.status, "accepted") || e.acceptedFlag
    || Contains(env.lower(e.stateTransition), "accept") || Contains(env.lower(e.eventType), "accept")
  }

  predicate Eligible(e: Event) {
    !Blank(e.actor) && !Blank(e.capability) && !Blank(e.inputHash) && !Blank(e.outputHash)
  }

  function PatternKeyOf(env: Env, e: Event): PatternKey {
    PatternKey(e.actor, e.capability, e.inputHash, e.outputHash, env.mapStatus(e.status), BuildOutcome(env, e))
  }

  function BucketOf(env: Env): Event -> Option<PatternKey> {
    e => if Eligible(e) then Some(PatternKeyOf(env, e)) else None
  }

  function GroupOf(env: Env): Event -> Option<RetryKey> {
    e => if Eligible(e)
         then Some(RetryKey(e.actor, e.capability, e.inputHash, e.outputHash, BuildOutcome(env, e))) else None
  }

  // ----- grouping -----

  function Members<K(==)>(events: seq<Event>, of: Event -> Option<K>, key: K): seq<Event> {
    if events == [] then []
    else
      var last := events[|events| - 1];
      Members(events[..|events| - 1], of, key) + (if of(last) == Some(key) then [last] else [])
  }

  ghost predicate Grouped<K(!new)>(groups: map<K, seq<Event>>, events: seq<Event>, of: Event -> Option<K>) {
    && (forall key :: key in groups <==> Members(events, of, key) != [])
    && (forall key :: key in groups ==> groups[key] == Members(events, of, key))
  }

  method Group<K(==, !new)>(events: seq<Event>, of: Event -> Option<K>) returns (groups: map<K, seq<Event>>)
    ensures Grouped(groups, events, of)
  {
    groups := map[];
    for i := 0 to |events|
      invariant Grouped(groups, events[..i], of)
    {
      assert events[..i + 1][..i] == events[..i];
      var key := of(events[i]);
      if key.None? {
        continue;
      }
      var before := if key.value in groups then groups[key.value] else [];
      groups := groups[key.value := before + [events[i]]];
    }
    assert events[..|events|] == events;
  }

  lemma {:induction false} MembersBelong<K>(events: seq<Event>, of: Event -> Option<K>, key: K)
    ensures forall e :: e in Members(events, of, key) <==> e in events && of(e) == Some(key)
  {
    if events != [] {
      MembersBelong(events[..|events| - 1], of, key);
      SplitLast(events);
    }
  }

  // ----- one bucket -----

  predicate Fails(env: Env, e: Event) {
    env.mapStatus(e.status) == "failed"
  }

  function Failures(env: Env, items: seq<Event>): seq<Event> {
    if items == [] then []
    else
      var last := items[|items| - 1];
      Failures(env, items[..|items| - 1]) + (if Fails(env, last) then [last] else [])
  }

  function OutputHashes(items: seq<Event>): set<string> {
    set i | 0 <= i < |items| :: items[i].outputHash
  }

  /** The mapped statuses of a group of events. */
  function Statuses(env: Env, items: seq<Event>): (statuses: seq<string>)
    ensures |statuses| == |items|
  {
    if items == [] then []
    else Statuses(env, items[..|items| - 1]) + [env.mapStatus(items[|items| - 1].status)]
  }

  predicate FailedAt(statuses: seq<string>, i: nat)
    requires i < |statuses|
  {
    statuses[i] == "failed"
  }

  predicate CompletedAt(statuses: seq<string>, i: nat)
    requires i < |statuses|
  {
    statuses[i] == "completed"
  }

  /** Some failed item comes before some completed one. */
  predicate Recovers(statuses: seq<string>) {
    exists i, j :: 0 <= i < j < |statuses| && FailedAt(statuses, i) && CompletedAt(statuses, j)
  }

  /** The policy loader refuses smaller thresholds. */
  predicate ValidPolicy(env: Env) {
    env.minRepeat >= 2 && env.minFailures >= 2
  }

  function EventIds(items: seq<Event>): seq<string> {
    seq(|items|, i requires 0 <= i < |items| => items[i].eventId)
  }

  function BucketCandidate(
    env: Env, run: string, key: PatternKey, pattern: Pattern, prefix: string, items: seq<Event>, id: nat): Candidate
    requires items != []
  {
    Candidate(env.idText(id), run, key.actor, key.capability, pattern, prefix + env.digest(key), key.outcome,
              |items|, items[0].stepId, items[|items| - 1].stepId, EventIds(items), false)
  }

  /** The checks of a bucket, in their order. */
  datatype Checks = Checks(often: bool, stable: bool, failing: bool, compile: bool, test: bool, recovered: bool)

  function ChecksOf(env: Env, key: PatternKey, items: seq<Event>): Checks {
    var often, failed := |items| >= env.minRepeat, |Failures(env, items)|;
    Checks(often, often && |OutputHashes(items)| == 1, failed >= env.minFailures,
           env.includeFailures && key.outcome == "compile" && failed > 0,
           env.includeFailures && key.outcome == "test" && failed > 0,
           Recovers(Statuses(env, items)))
  }

  function If(check: bool, pattern: Pattern): seq<Pattern> {
    if check then [pattern] else []
  }

  function PatternsOf(c: Checks): seq<Pattern> {
    If(c.often, RepeatAction) + If(c.stable, UnchangedOutput) + If(c.failing, RepeatedFailure) +
    If(c.compile, CompileFailure) + If(c.test, TestFailure) + If(c.recovered, Retry)
  }

  function BucketPatterns(env: Env, key: PatternKey, items: seq<Event>): seq<Pattern> {
    PatternsOf(ChecksOf(env, key, items))
  }

  function Prefix(pattern: Pattern): string {
    match pattern
    case CompileFailure => "compile:"
    case TestFailure => "test:"
    case Retry => "retry:"
    case _ => ""
  }

  predicate AboutFailures(pattern: Pattern) {
    pattern.RepeatedFailure? || pattern.CompileFailure? || pattern.TestFailure?
  }

  function Evidence(env: Env, items: seq<Event>, pattern: Pattern): seq<Event> {
    if AboutFailures(pattern) then Failures(env, items) else items
  }

  /** Candidates for these patterns of a bucket, with the failures as evidence where the pattern is about
      failures and the whole bucket otherwise, and with consecutive ids. */
  ghost predicate Yields(
    env: Env, run: string, key: PatternKey, items: seq<Event>, n: nat, patterns: seq<Pattern>, out: seq<Candidate>)
  {
    && |out| == |patterns|
    && forall i :: 0 <= i < |out| ==> YieldsAt(env, run, key, items, n + i + 1, patterns[i], out[i])
  }

  ghost predicate YieldsAt(
    env: Env, run: string, key: PatternKey, items: seq<Event>, id: nat, pattern: Pattern, c: Candidate)
  {
    && Evidence(env, items, pattern) != []
    && c == BucketCandidate(env, run, key, pattern, Prefix(pattern), Evidence(env, items, pattern), id)
  }

  lemma YieldsMore(
    env: Env, run: string, key: PatternKey, items: seq<Event>, n: nat, patterns: seq<Pattern>, out: seq<Candidate>,
    pattern: Pattern, c: Candidate)
    requires Yields(env, run, key, items, n, patterns, out)
    requires YieldsAt(env, run, key, items, n + |out| + 1, pattern, c)
    ensures Yields(env, run, key, items, n, patterns + [pattern], out + [c])
  {
  }

  /** The keys of a bucket's candidates. */
  lemma YieldsKeys(
    env: Env, run: string, key: PatternKey, items: seq<Event>, n: nat, patterns: seq<Pattern>, out: seq<Candidate>, x: Key)
    requires Yields(env, run, key, items, n, patterns, out)
    ensures x in KeysOf(out) <==> x.0 in patterns && x.1 == Prefix(x.0) + env.digest(key)
  {
    forall i | 0 <= i < |out| ensures KeyOf(out[i]) == (patterns[i], Prefix(patterns[i]) + env.digest(key)) {
      assert YieldsAt(env, run, key, items, n + i + 1, patterns[i], out[i]);
    }
    if x.0 in patterns && x.1 == Prefix(x.0) + env.digest(key) {
      var i :| 0 <= i < |patterns| && patterns[i] == x.0;
      assert KeyOf(out[i]) == x;
    }
  }

  // ----- retry sequences -----

  function FirstFailed(statuses: seq<string>, from: nat): (i: nat)
    requires from <= |statuses|
    ensures from <= i <= |statuses|
    decreases |statuses| - from
  {
    if from == |statuses| || FailedAt(statuses, from) then from else FirstFailed(statuses, from + 1)
  }

  function FirstCompleted(statuses: seq<string>, from: nat): (i: nat)
    requires from <= |statuses|
    ensures from <= i <= |statuses|
    decreases |statuses| - from
  {
    if from == |statuses| || CompletedAt(statuses, from) then from else FirstCompleted(statuses, from + 1)
  }

  /** The first completed item after the first failed one, or the length when there is none. */
  function RecoveredIndex(statuses: seq<string>): (i: nat)
    ensures i <= |statuses|
    ensures i < |statuses| ==> FirstFailed(statuses, 0) < i
  {
    var failed := FirstFailed(statuses, 0);
    if failed == |statuses| then failed else FirstCompleted(statuses, failed + 1)
  }

  function RetryDigest(env: Env, key: RetryKey): string {
    "retry:" + env.digest(PatternKey(key.actor, key.capability, key.inputHash, key.outputHash, "retry", key.outcome))
  }

  function RetryCandidate(env: Env, run: string, key: RetryKey, items: seq<Event>, id: nat): Candidate
    requires RecoveredIndex(Statuses(env, items)) < |items|
  {
    var statuses := Statuses(env, items);
    var failed, recovered := items[FirstFailed(statuses, 0)], items[RecoveredIndex(statuses)];
    Candidate(env.idText(id), run, key.actor, key.capability, Retry, RetryDigest(env, key), key.outcome, 2,
              failed.stepId, recovered.stepId, [failed.eventId, recovered.eventId], false)
  }

  function RetryMore(env: Env, run: string, key: RetryKey, items: seq<Event>, id: nat, out: seq<Candidate>): seq<Candidate> {
    if RecoveredIndex(Statuses(env, items)) == |items| then out else out + [RetryCandidate(env, run, key, items, id)]
  }

  function RetryAdd(env: Env, run: string, groups: map<RetryKey, seq<Event>>): (RetryKey, nat, seq<Candidate>) -> seq<Candidate> {
    (key: RetryKey, id: nat, out: seq<Candidate>) => if key in groups then RetryMore(env, run, key, groups[key], id, out) else out
  }

  /** Adding up over the first keys of an enumeration; `add` gets the next id. */
  function Chain<K>(add: (K, nat, seq<Candidate>) -> seq<Candidate>, order: seq<K>, k: nat, n: nat): seq<Candidate>
    requires k <= |order|
  {
    if k == 0 then []
    else
      var before := Chain(add, order, k - 1, n);
      add(order[k - 1], n + |before| + 1, before)
  }

  /** The candidates of the groups in an order of enumeration. */
  function RetryCandidates(
    env: Env, run: string, groups: map<RetryKey, seq<Event>>, order: seq<RetryKey>, k: nat, n: nat): seq<Candidate>
    requires k <= |order|
  {
    Chain(RetryAdd(env, run, groups), order, k, n)
  }

  // ----- ledgers and accepted artifacts -----

  function StepCandidate(env: Env, run: string, ledger: Ledger, s: LedgerStep, pattern: Pattern, id: nat): Candidate {
    var prefix := if pattern.AbortedRun? then "abort:" else "budget:";
    Candidate(env.idText(id), run, s.actor, s.capability, pattern, prefix + ledger.runId + ":" + s.eventId, "", 1,
              s.stepId, s.stepId, [s.eventId], false)
  }

  predicate Aborted(env: Env, s: LedgerStep) {
    env.lower(s.status) == "aborted"
  }

  predicate OverBudget(env: Env, s: LedgerStep) {
    || Contains(env.lower(s.eventType), "budget")
    || Contains(env.lower(s.stateTransition), "budget")
    || Contains(env.lower(s.status), "budget")
  }

  /** One candidate, with the next id, when a check holds. */
  function AbortedMore(env: Env, run: string, ledger: Ledger, s: LedgerStep, n: nat, out: seq<Candidate>): seq<Candidate> {
    if Aborted(env, s) then out + [StepCandidate(env, run, ledger, s, AbortedRun, n + |out| + 1)] else out
  }

  function BudgetMore(env: Env, run: string, ledger: Ledger, s: LedgerStep, n: nat, out: seq<Candidate>): seq<Candidate> {
    if OverBudget(env, s) then out + [StepCandidate(env, run, ledger, s, BudgetOverrun, n + |out| + 1)] else out
  }

  function LedgerCandidates(env: Env, run: string, ledger: Ledger, k: nat, n: nat): seq<Candidate>
    requires k <= |ledger.steps|
  {
    if k == 0 then []
    else
      var s := ledger.steps[k - 1];
      BudgetMore(env, run, ledger, s, n, AbortedMore(env, run, ledger, s, n, LedgerCandidates(env, run, ledger, k - 1, n)))
  }

  function AcceptedCandidate(env: Env, run: string, e: Event, id: nat): Candidate {
    Candidate(env.idText(id), run, e.actor, e.capability, AcceptedPattern, env.digest(PatternKeyOf(env, e)),
              BuildOutcome(env, e), 1, e.stepId, e.stepId, [e.eventId], false)
  }

  function AcceptedCandidates(env: Env, run: string, events: seq<Event>, n: nat): seq<Candidate> {
    if events == [] then []
    else
      var before, last := AcceptedCandidates(env, run, events[..|events| - 1], n), events[|events| - 1];
      before + (if Accepted(env, last) then [AcceptedCandidate(env, run, last, n + |before| + 1)] else [])
  }

  lemma {:induction false} AcceptedMore(env: Env, run: string, events: seq<Event>, i: nat, n: nat, before: seq<Candidate>)
    requires i < |events| && before == AcceptedCandidates(env, run, events[..i], n)
    ensures AcceptedCandidates(env, run, events[..i + 1], n) ==
            before + (if Accepted(env, events[i]) then [AcceptedCandidate(env, run, events[i], n + |before| + 1)] else [])
  {
    assert events[..i + 1][..i] == events[..i];
  }

  // ----- what a run yields, whatever the order of enumeration -----

  ghost function PatternsKeys(env: Env, key: PatternKey, patterns: seq<Pattern>): set<Key> {
    if patterns == [] then {}
    else
      var p := patterns[|patterns| - 1];
      PatternsKeys(env, key, patterns[..|patterns| - 1]) + {(p, Prefix(p) + env.digest(key))}
  }

  lemma {:induction false} PatternsKeysAre(env: Env, key: PatternKey, patterns: seq<Pattern>, x: Key)
    ensures x in PatternsKeys(env, key, patterns) <==> x.0 in patterns && x.1 == Prefix(x.0) + env.digest(key)
  {
    if patterns != [] {
      PatternsKeysAre(env, key, patterns[..|patterns| - 1], x);
      SplitLast(patterns);
    }
  }

  ghost function BucketKeys(env: Env, key: PatternKey, items: seq<Event>): set<Key> {
    PatternsKeys(env, key, BucketPatterns(env, key, items))
  }

  ghost function PartOf<K>(part: map<K, set<Key>>, key: K): set<Key> {
    if key in part then part[key] else {}
  }

  /** The union of the parts of the first keys of an enumeration. */
  ghost function UnionOf<K>(part: map<K, set<Key>>, order: seq<K>, n: nat): set<Key>
    requires n <= |order|
  {
    if n == 0 then {} else UnionOf(part, order, n - 1) + PartOf(part, order[n - 1])
  }

  /** The candidates so far have the keys of the first parts. */
  ghost predicate Collected<K>(out: seq<Candidate>, part: map<K, set<Key>>, order: seq<K>, n: nat) {
    n <= |order| && KeysOf(out) == UnionOf(part, order, n)
  }

  lemma CollectedMore<K>(out: seq<Candidate>, more: seq<Candidate>, part: map<K, set<Key>>, order: seq<K>, n: nat)
    requires n < |order| && Collected(out, part, order, n) && KeysOf(more) == KeysOf(out) + PartOf(part, order[n])
    ensures Collected(more, part, order, n + 1)
  {
  }

  lemma {:induction false} UnionHas<K>(part: map<K, set<Key>>, order: seq<K>, i: nat, n: nat, x: Key)
    requires i < n <= |order| && x in PartOf(part, order[i])
    ensures x in UnionOf(part, order, n)
  {
    if i < n - 1 {
      UnionHas(part, order, i, n - 1, x);
    }
  }

  lemma {:induction false} UnionOrigin<K>(part: map<K, set<Key>>, order: seq<K>, n: nat, x: Key) returns (i: nat)
    requires n <= |order| && x in UnionOf(part, order, n)
    ensures i < n && x in PartOf(part, order[i])
  {
    if x in PartOf(part, order[n - 1]) {
      i := n - 1;
    } else {
      i := UnionOrigin(part, order, n - 1, x);
    }
  }

  ghost function BucketPart(env: Env, buckets: map<PatternKey, seq<Event>>): map<PatternKey, set<Key>> {
    map key | key in buckets :: BucketKeys(env, key, buckets[key])
  }

  ghost function RetryPart(env: Env, groups: map<RetryKey, seq<Event>>): map<RetryKey, set<Key>> {
    map key | key in groups :: if Recovers(Statuses(env, groups[key])) then {(Retry, RetryDigest(env, key))} else {}
  }

  ghost function StepKeys(env: Env, ledger: Ledger, s: LedgerStep): set<Key> {
    (if Aborted(env, s) then {(AbortedRun, "abort:" + ledger.runId + ":" + s.eventId)} else {}) +
    (if OverBudget(env, s) then {(BudgetOverrun, "budget:" + ledger.runId + ":" + s.eventId)} else {})
  }

  ghost function LedgerKeys(env: Env, ledger: Ledger, k: nat): set<Key>
    requires k <= |ledger.steps|
  {
    if k == 0 then {} else LedgerKeys(env, ledger, k - 1) + StepKeys(env, ledger, ledger.steps[k - 1])
  }

  ghost function LedgersKeys(env: Env, ledgers: seq<Ledger>, n: nat): set<Key>
    requires n <= |ledgers|
  {
    if n == 0 then {}
    else LedgersKeys(env, ledgers, n - 1) + LedgerKeys(env, ledgers[n - 1], |ledgers[n - 1].steps|)
  }

  ghost function AcceptedKeys(env: Env, events: seq<Event>): set<Key> {
    if events == [] then {}
    else
      var last := events[|events| - 1];
      AcceptedKeys(env, events[..|events| - 1]) +
      (if Accepted(env, last) then {(AcceptedPattern, env.digest(PatternKeyOf(env, last)))} else {})
  }

  ghost predicate FromBuckets(env: Env, events: seq<Event>, x: Key) {
    exists key :: x in BucketKeys(env, key, Members(events, BucketOf(env), key))
  }

  ghost predicate FromRetries(env: Env, events: seq<Event>, x: Key) {
    exists key :: x == (Retry, RetryDigest(env, key)) && Recovers(Statuses(env, Members(events, GroupOf(env), key)))
  }

  /** The keys that a run's arranged events and its ledgers stand for. */
  ghost predicate RunKey(env: Env, events: seq<Event>, ledgers: seq<Ledger>, x: Key) {
    || FromBuckets(env, events, x)
    || FromRetries(env, events, x)
    || x in LedgersKeys(env, ledgers, |ledgers|)
    || x in AcceptedKeys(env, events)
  }

  lemma BucketsKeysMeaning(
    env: Env, events: seq<Event>, buckets: map<PatternKey, seq<Event>>, order: seq<PatternKey>, x: Key)
    requires ValidPolicy(env) && Grouped(buckets, events, BucketOf(env)) && Enumerates(order, buckets.Keys)
    ensures x in UnionOf(BucketPart(env, buckets), order, |order|) <==> FromBuckets(env, events, x)
  {
    var part := BucketPart(env, buckets);
    if x in UnionOf(part, order, |order|) {
      var i := UnionOrigin(part, order, |order|, x);
      assert x in BucketKeys(env, order[i], Members(events, BucketOf(env), order[i]));
    }
    if FromBuckets(env, events, x) {
      var key :| x in BucketKeys(env, key, Members(events, BucketOf(env), key));
      EmptyBucket(env, key);
      assert key in order;
      var i :| 0 <= i < |order| && order[i] == key;
      assert x in PartOf(part, order[i]);
      UnionHas(part, order, i, |order|, x);
    }
  }

  lemma EmptyBucket(env: Env, key: PatternKey)
    requires ValidPolicy(env)
    ensures BucketKeys(env, key, []) == {}
  {
    assert BucketPatterns(env, key, []) == [];
  }

  /** The scan with two indices finds a pair exactly when some failure comes before some completion. */
  lemma RecoversIffFound(statuses: seq<string>)
    ensures Recovers(statuses) <==> RecoveredIndex(statuses) < |statuses|
  {
    FirstFailedIs(statuses, 0);
    var failed := FirstFailed(statuses, 0);
    if failed < |statuses| {
      FirstCompletedIs(statuses, failed + 1);
    }
  }

  lemma {:induction false} FirstFailedIs(statuses: seq<string>, from: nat)
    requires from <= |statuses|
    ensures FirstFailed(statuses, from) < |statuses| ==> FailedAt(statuses, FirstFailed(statuses, from))
    ensures forall i :: from <= i < FirstFailed(statuses, from) ==> !FailedAt(statuses, i)
    decreases |statuses| - from
  {
    if from < |statuses| && !FailedAt(statuses, from) {
      FirstFailedIs(statuses, from + 1);
    }
  }

  lemma {:induction false} FirstCompletedIs(statuses: seq<string>, from: nat)
    requires from <= |statuses|
    ensures FirstCompleted(statuses, from) < |statuses| ==> CompletedAt(statuses, FirstCompleted(statuses, from))
    ensures forall i :: from <= i < FirstCompleted(statuses, from) ==> !CompletedAt(statuses, i)
    decreases |statuses| - from
  {
    if from < |statuses| && !CompletedAt(statuses, from) {
      FirstCompletedIs(statuses, from + 1);
    }
  }

  lemma RetryMoreKeys(
    env: Env, run: string, groups: map<RetryKey, seq<Event>>, key: RetryKey, id: nat, out: seq<Candidate>)
    requires key in groups
    ensures KeysOf(RetryMore(env, run, key, groups[key], id, out)) == KeysOf(out) + PartOf(RetryPart(env, groups), key)
  {
    var items := groups[key];
    RecoversIffFound(Statuses(env, items));
    if Recovers(Statuses(env, items)) {
      KeysOfConcat(out, [RetryCandidate(env, run, key, items, id)]);
      KeysOfOne(RetryCandidate(env, run, key, items, id));
    }
  }

  lemma {:induction false} ChainKeys<K(!new)>(
    add: (K, nat, seq<Candidate>) -> seq<Candidate>, part: map<K, set<Key>>, order: seq<K>, k: nat, n: nat)
    requires k <= |order|
    requires forall i, id, out :: 0 <= i < |order| ==> KeysOf(add(order[i], id, out)) == KeysOf(out) + PartOf(part, order[i])
    ensures KeysOf(Chain(add, order, k, n)) == UnionOf(part, order, k)
  {
    if k > 0 {
      ChainKeys(add, part, order, k - 1, n);
    }
  }

  lemma RetryKeysAre(env: Env, run: string, groups: map<RetryKey, seq<Event>>, order: seq<RetryKey>, n: nat)
    requires forall key :: key in order ==> key in groups
    ensures KeysOf(RetryCandidates(env, run, groups, order, |order|, n)) ==
            UnionOf(RetryPart(env, groups), order, |order|)
  {
    var add, part := RetryAdd(env, run, groups), RetryPart(env, groups);
    forall i, id, out | 0 <= i < |order| ensures KeysOf(add(order[i], id, out)) == KeysOf(out) + PartOf(part, order[i]) {
      RetryMoreKeys(env, run, groups, order[i], id, out);
    }
    ChainKeys(add, part, order, |order|, n);
  }

  lemma KeysOfOne(c: Candidate)
    ensures KeysOf([c]) == {KeyOf(c)}
  {
    assert KeyOf([c][0]) == KeyOf(c);
  }

  lemma RetryKeysMeaning(
    env: Env, run: string, events: seq<Event>, groups: map<RetryKey, seq<Event>>, order: seq<RetryKey>, n: nat, x: Key)
    requires Grouped(groups, events, GroupOf(env)) && Enumerates(order, groups.Keys)
    ensures x in KeysOf(RetryCandidates(env, run, groups, order, |order|, n)) <==> FromRetries(env, events, x)
  {
    var part := RetryPart(env, groups);
    RetryKeysAre(env, run, groups, order, n);
    if x in UnionOf(part, order, |order|) {
      var i := UnionOrigin(part, order, |order|, x);
      assert Recovers(Statuses(env, Members(events, GroupOf(env), order[i])));
    }
    if FromRetries(env, events, x) {
      var key :| x == (Retry, RetryDigest(env, key)) && Recovers(Statuses(env, Members(events, GroupOf(env), key)));
      assert key in order;
      var i :| 0 <= i < |order| && order[i] == key;
      assert x in PartOf(part, order[i]);
      UnionHas(part, order, i, |order|, x);
    }
  }

  lemma {:induction false} LedgerKeysAre(env: Env, run: string, ledger: Ledger, k: nat, n: nat)
    requires k <= |ledger.steps|
    ensures KeysOf(LedgerCandidates(env, run, ledger, k, n)) == LedgerKeys(env, ledger, k)
  {
    if k > 0 {
      LedgerKeysAre(env, run, ledger, k - 1, n);
      StepKeysAre(env, run, ledger, ledger.steps[k - 1], n, LedgerCandidates(env, run, ledger, k - 1, n));
    }
  }

  lemma StepKeysAre(env: Env, run: string, ledger: Ledger, s: LedgerStep, n: nat, out: seq<Candidate>)
    ensures KeysOf(BudgetMore(env, run, ledger, s, n, AbortedMore(env, run, ledger, s, n, out))) ==
            KeysOf(out) + StepKeys(env, ledger, s)
  {
    var mid := AbortedMore(env, run, ledger, s, n, out);
    var first := StepCandidate(env, run, ledger, s, AbortedRun, n + |out| + 1);
    KeysOfConcat(out, [first]);
    KeysOfOne(first);
    var second := StepCandidate(env, run, ledger, s, BudgetOverrun, n + |mid| + 1);
    KeysOfConcat(mid, [second]);
    KeysOfOne(second);
  }

  lemma {:induction false} AcceptedKeysAre(env: Env, run: string, events: seq<Event>, n: nat)
    ensures KeysOf(AcceptedCandidates(env, run, events, n)) == AcceptedKeys(env, events)
  {
    if events != [] {
      var rest, last := events[..|events| - 1], events[|events| - 1];
      AcceptedKeysAre(env, run, rest, n);
      var before := AcceptedCandidates(env, run, rest, n);
      if Accepted(env, last) {
        KeysOfConcat(before, [AcceptedCandidate(env, run, last, n + |before| + 1)]);
        KeysOfOne(AcceptedCandidate(env, run, last, n + |before| + 1));
      } else {
        assert before + [] == before;
      }
    }
  }

  // ----- deduplication -----

  predicate UniqueKeys(cs: seq<Candidate>) {
    forall i, j :: 0 <= i < j < |cs| ==> KeyOf(cs[i]) != KeyOf(cs[j])
  }

  /** The candidate that a key keeps is the first one that has it. */
  function FirstOf(cs: seq<Candidate>, key: Key): Option<Candidate> {
    if cs == [] then None else if KeyOf(cs[0]) == key then Some(cs[0]) else FirstOf(cs[1..], key)
  }

  lemma {:induction false} FirstOfAppend(cs: seq<Candidate>, c: Candidate, key: Key)
    ensures FirstOf(cs + [c], key) ==
            if FirstOf(cs, key).Some? then FirstOf(cs, key) else if KeyOf(c) == key then Some(c) else None
  {
    if cs == [] {
      assert [] + [c] == [c];
    } else {
      assert (cs + [c])[1..] == cs[1..] + [c];
      FirstOfAppend(cs[1..], c, key);
    }
  }

  lemma {:induction false} FirstOfKeys(cs: seq<Candidate>, key: Key)
    ensures key in KeysOf(cs) <==> FirstOf(cs, key).Some?
    ensures FirstOf(cs, key).Some? ==> KeyOf(FirstOf(cs, key).value) == key
  {
    if cs != [] {
      FirstOfKeys(cs[1..], key);
      KeysOfConcat([cs[0]], cs[1..]);
      KeysOfOne(cs[0]);
      assert cs == [cs[0]] + cs[1..];
    }
  }

  /** dedupeCandidates: one candidate for each key, the first, in any order. */
  method DedupeCandidates(cs: seq<Candidate>) returns (out: seq<Candidate>)
    ensures UniqueKeys(out) && KeysOf(out) == KeysOf(cs)
    ensures forall c :: c in out ==> FirstOf(cs, KeyOf(c)) == Some(c)
  {
    var byKey: map<Key, Candidate> := map[];
    for i := 0 to |cs|
      invariant forall key :: key in byKey <==> FirstOf(cs[..i], key).Some?
      invariant forall key :: key in byKey ==> FirstOf(cs[..i], key) == Some(byKey[key])
    {
      assert cs[..i + 1] == cs[..i] + [cs[i]];
      forall key ensures FirstOf(cs[..i + 1], key) ==
                         if FirstOf(cs[..i], key).Some? then FirstOf(cs[..i], key)
                         else if KeyOf(cs[i]) == key then Some(cs[i]) else None
      {
        FirstOfAppend(cs[..i], cs[i], key);
      }
      if KeyOf(cs[i]) !in byKey {
        byKey := byKey[KeyOf(cs[i]) := cs[i]];
      }
    }
    assert cs[..|cs|] == cs;
    forall key ensures (key in KeysOf(cs) <==> key in byKey) && (key in byKey ==> KeyOf(byKey[key]) == key) {
      FirstOfKeys(cs, key);
    }
    var order := KeyOrder(byKey.Keys);
    out := Pick(byKey, order);
    assert KeysOf(out) == KeysOf(cs);
  }

  method Pick(byKey: map<Key, Candidate>, order: seq<Key>) returns (out: seq<Candidate>)
    requires Enumerates(order, byKey.Keys) && forall key :: key in byKey ==> KeyOf(byKey[key]) == key
    ensures UniqueKeys(out) && KeysOf(out) == byKey.Keys
    ensures forall c :: c in out ==> KeyOf(c) in byKey && byKey[KeyOf(c)] == c
  {
    out := [];
    for i := 0 to |order|
      invariant |out| == i && forall k :: 0 <= k < i ==> order[k] in byKey && out[k] == byKey[order[k]]
    {
      out := out + [byKey[order[i]]];
    }
    forall key | key in byKey ensures key in KeysOf(out) {
      var i :| 0 <= i < |order| && order[i] == key;
      assert KeyOf(out[i]) == key;
    }
  }

  /** applyPolicyGating marks every candidate as ignored unless the policy only observes. */
  function Gated(env: Env, c: Candidate): Candidate {
    if env.observationOnly then c else c.(ignored := true)
  }

  method ApplyPolicyGating(env: Env, cs: seq<Candidate>) returns (out: seq<Candidate>)
    ensures |out| == |cs| && forall i :: 0 <= i < |cs| ==> out[i] == Gated(env, cs[i])
    ensures KeysOf(out) == KeysOf(cs) && (UniqueKeys(cs) ==> UniqueKeys(out))
  {
    if env.observationOnly {
      return cs;
    }
    out := [];
    for i := 0 to |cs|
      invariant |out| == i && forall k :: 0 <= k < i ==> out[k] == Gated(env, cs[k])
    {
      out := out + [cs[i].(ignored := true)];
    }
    assert forall i :: 0 <= i < |cs| ==> KeyOf(out[i]) == KeyOf(cs[i]);
  }

  // ----- where a candidate comes from -----

  ghost predicate InBucket(env: Env, run: string, key: PatternKey, items: seq<Event>, p: Pattern, id: nat, c: Candidate) {
    p in BucketPatterns(env, key, items) && YieldsAt(env, run, key, items, id, p, c)
  }

  ghost predicate FromStep(
    env: Env, run: string, ledgers: seq<Ledger>, l: Ledger, s: LedgerStep, p: Pattern, id: nat, c: Candidate)
  {
    && l in ledgers && s in l.steps && c == StepCandidate(env, run, l, s, p, id)
    && ((p.AbortedRun? && Aborted(env, s)) || (p.BudgetOverrun? && OverBudget(env, s)))
  }

  ghost predicate FromAccepted(env: Env, run: string, events: seq<Event>, e: Event, id: nat, c: Candidate) {
    e in events && Accepted(env, e) && c == AcceptedCandidate(env, run, e, id)
  }

  /** The four kinds of candidates of a run. */
  ghost predicate Detected(env: Env, run: string, events: seq<Event>, ledgers: seq<Ledger>, c: Candidate) {
    || (exists key, p, id :: InBucket(env, run, key, Members(events, BucketOf(env), key), p, id, c))
    || (exists key, id :: RecoversAs(env, run, key, Members(events, GroupOf(env), key), id, c))
    || IsFromStep(env, run, ledgers, c)
    || (exists e, id :: FromAccepted(env, run, events, e, id, c))
  }

  ghost predicate AllDetected(env: Env, run: string, events: seq<Event>, ledgers: seq<Ledger>, cs: seq<Candidate>) {
    forall c :: c in cs ==> Detected(env, run, events, ledgers, c)
  }

  lemma DetectedForRun(env: Env, run: string, events: seq<Event>, ledgers: seq<Ledger>, c: Candidate)
    requires Detected(env, run, events, ledgers, c)
    ensures c.runId == run && !c.ignored
  {
  }

  /** Candidates of the buckets of a map. */
  ghost predicate AllInBuckets(env: Env, run: string, buckets: map<PatternKey, seq<Event>>, cs: seq<Candidate>) {
    forall c :: c in cs ==> exists key, p, id :: key in buckets && InBucket(env, run, key, buckets[key], p, id, c)
  }

  lemma BucketsDetected(
    env: Env, run: string, events: seq<Event>, ledgers: seq<Ledger>, buckets: map<PatternKey, seq<Event>>, cs: seq<Candidate>)
    requires Grouped(buckets, events, BucketOf(env)) && AllInBuckets(env, run, buckets, cs)
    ensures AllDetected(env, run, events, ledgers, cs)
  {
    forall c | c in cs ensures Detected(env, run, events, ledgers, c) {
      var key, p, id :| key in buckets && InBucket(env, run, key, buckets[key], p, id, c);
      assert InBucket(env, run, key, Members(events, BucketOf(env), key), p, id, c);
    }
  }

  lemma RetryNext(env: Env, run: string, groups: map<RetryKey, seq<Event>>, order: seq<RetryKey>, k: nat, n: nat)
    requires k < |order|
    ensures var before := RetryCandidates(env, run, groups, order, k, n);
            RetryCandidates(env, run, groups, order, k + 1, n) ==
            if order[k] in groups
            then RetryMore(env, run, order[k], groups[order[k]], n + |before| + 1, before) else before
  {
  }

  /** Candidates of the groups of a map. */
  ghost predicate InGroups(env: Env, run: string, groups: map<RetryKey, seq<Event>>, c: Candidate) {
    exists key, id :: key in groups && RecoversAs(env, run, key, groups[key], id, c)
  }

  ghost predicate RecoversAs(env: Env, run: string, key: RetryKey, items: seq<Event>, id: nat, c: Candidate) {
    RecoveredIndex(Statuses(env, items)) < |items| && c == RetryCandidate(env, run, key, items, id)
  }

  lemma {:induction false} RetriesInGroups(
    env: Env, run: string, groups: map<RetryKey, seq<Event>>, order: seq<RetryKey>, k: nat, n: nat)
    requires k <= |order|
    ensures forall c :: c in RetryCandidates(env, run, groups, order, k, n) ==> InGroups(env, run, groups, c)
  {
    if k > 0 {
      var before, key := RetryCandidates(env, run, groups, order, k - 1, n), order[k - 1];
      RetriesInGroups(env, run, groups, order, k - 1, n);
      RetryNext(env, run, groups, order, k - 1, n);
      if key in groups {
        MoreInGroups(env, run, groups, key, n + |before| + 1, before);
      }
    }
  }

  lemma MoreInGroups(
    env: Env, run: string, groups: map<RetryKey, seq<Event>>, key: RetryKey, id: nat, before: seq<Candidate>)
    requires key in groups && forall c :: c in before ==> InGroups(env, run, groups, c)
    ensures forall c :: c in RetryMore(env, run, key, groups[key], id, before) ==> InGroups(env, run, groups, c)
  {
    if RecoveredIndex(Statuses(env, groups[key])) < |groups[key]| {
      assert RecoversAs(env, run, key, groups[key], id, RetryCandidate(env, run, key, groups[key], id));
    }
  }

  lemma RetriesDetected(
    env: Env, run: string, events: seq<Event>, ledgers: seq<Ledger>, groups: map<RetryKey, seq<Event>>,
    order: seq<RetryKey>, n: nat)
    requires Grouped(groups, events, GroupOf(env))
    ensures AllDetected(env, run, events, ledgers, RetryCandidates(env, run, groups, order, |order|, n))
  {
    RetriesInGroups(env, run, groups, order, |order|, n);
    forall c | InGroups(env, run, groups, c) ensures Detected(env, run, events, ledgers, c) {
      var key, id :| key in groups && RecoversAs(env, run, key, groups[key], id, c);
      assert RecoversAs(env, run, key, Members(events, GroupOf(env), key), id, c);
    }
  }

  lemma DetectedMore(
    env: Env, run: string, events: seq<Event>, ledgers: seq<Ledger>, cs: seq<Candidate>, c: Candidate)
    requires AllDetected(env, run, events, ledgers, cs) && Detected(env, run, events, ledgers, c)
    ensures AllDetected(env, run, events, ledgers, cs + [c])
  {
  }

  /** What one ledger adds. */
  ghost predicate IsFromStep(env: Env, run: string, ledgers: seq<Ledger>, c: Candidate) {
    exists l, s, p, id :: FromStep(env, run, ledgers, l, s, p, id, c)
  }

  ghost predicate AllFromSteps(env: Env, run: string, ledgers: seq<Ledger>, cs: seq<Candidate>) {
    forall c :: c in cs ==> IsFromStep(env, run, ledgers, c)
  }

  lemma AllFromStepsConcat(env: Env, run: string, ledgers: seq<Ledger>, a: seq<Candidate>, b: seq<Candidate>)
    requires AllFromSteps(env, run, ledgers, a) && AllFromSteps(env, run, ledgers, b)
    ensures AllFromSteps(env, run, ledgers, a + b)
  {
  }

  lemma {:induction false} LedgerDetected(env: Env, run: string, ledgers: seq<Ledger>, l: Ledger, k: nat, n: nat)
    requires k <= |l.steps| && l in ledgers
    ensures AllFromSteps(env, run, ledgers, LedgerCandidates(env, run, l, k, n))
  {
    if k > 0 {
      LedgerDetected(env, run, ledgers, l, k - 1, n);
      var s, out := l.steps[k - 1], LedgerCandidates(env, run, l, k - 1, n);
      var mid := AbortedMore(env, run, l, s, n, out);
      if Aborted(env, s) {
        assert FromStep(env, run, ledgers, l, s, AbortedRun, n + |out| + 1, mid[|out|]);
      }
      assert AllFromSteps(env, run, ledgers, mid);
      if OverBudget(env, s) {
        assert FromStep(env, run, ledgers, l, s, BudgetOverrun, n + |mid| + 1, BudgetMore(env, run, l, s, n, mid)[|mid|]);
      }
    }
  }

  lemma {:induction false} AcceptedDetected(
    env: Env, run: string, all: seq<Event>, ledgers: seq<Ledger>, events: seq<Event>, n: nat)
    requires forall e :: e in events ==> e in all
    ensures AllDetected(env, run, all, ledgers, AcceptedCandidates(env, run, events, n))
  {
    if events != [] {
      var rest, last := events[..|events| - 1], events[|events| - 1];
      AcceptedDetected(env, run, all, ledgers, rest, n);
      var before := AcceptedCandidates(env, run, rest, n);
      if Accepted(env, last) {
        var c := AcceptedCandidate(env, run, last, n + |before| + 1);
        assert FromAccepted(env, run, all, last, n + |before| + 1, c);
        DetectedMore(env, run, all, ledgers, before, c);
      }
    }
  }

  lemma StepsDetected(env: Env, run: string, events: seq<Event>, ledgers: seq<Ledger>, cs: seq<Candidate>)
    requires AllFromSteps(env, run, ledgers, cs)
    ensures AllDetected(env, run, events, ledgers, cs)
  {
  }

  // ----- the analyzer object -----

  class Analyzer {
    const env: Env
    var seqNo: nat

    constructor (env: Env)
      ensures this.env == env && seqNo == 0
    {
      this.env := env;
      seqNo := 0;
    }

    method NextId() returns (id: string)
      modifies this
      ensures seqNo == old(seqNo) + 1 && id == env.idText(seqNo)
    {
      seqNo := seqNo + 1;
      return env.idText(seqNo);
    }

    /** Emits a candidate for a pattern when its check holds. */
    method EmitIf(
      check: bool, run: string, key: PatternKey, pattern: Pattern, ghost items: seq<Event>, evidence: seq<Event>,
      out: seq<Candidate>, ghost n: nat, ghost patterns: seq<Pattern>) returns (more: seq<Candidate>)
      requires seqNo == n + |out| && Yields(env, run, key, items, n, patterns, out)
      requires check ==> evidence == Evidence(env, items, pattern) != []
      modifies this
      ensures seqNo == n + |more|
      ensures Yields(env, run, key, items, n, patterns + If(check, pattern), more)
    {
      if !check {
        assert patterns + [] == patterns;
        return out;
      }
      var id := NextId();
      var c := Candidate(
        id, run, key.actor, key.capability, pattern, Prefix(pattern) + env.digest(key), key.outcome,
        |evidence|, evidence[0].stepId, evidence[|evidence| - 1].stepId, EventIds(evidence), false);
      YieldsMore(env, run, key, items, n, patterns, out, pattern, c);
      return out + [c];
    }

    /** analyzeBucket. */
    method AnalyzeBucket(run: string, key: PatternKey, items: seq<Event>) returns (out: seq<Candidate>)
      requires ValidPolicy(env)
      modifies this
      ensures seqNo == old(seqNo) + |out|
      ensures Yields(env, run, key, items, old(seqNo), BucketPatterns(env, key, items), out)
    {
      var failed, outputHashes := ScanBucket(items);
      var recovered := HasRecovery(Statuses(env, items));
      var often, build := |items| >= env.minRepeat, env.includeFailures && |failed| > 0;
      out := EmitBucket(run, key, items, failed, Checks(
        often, often && |outputHashes| == 1, |failed| >= env.minFailures,
        build && key.outcome == "compile", build && key.outcome == "test", recovered));
    }

    /** The emissions of analyzeBucket. */
    method EmitBucket(run: string, key: PatternKey, items: seq<Event>, failed: seq<Event>, c: Checks)
      returns (out: seq<Candidate>)
      requires failed == Failures(env, items)
      requires (c.often || c.stable || c.recovered ==> items != []) && (c.failing || c.compile || c.test ==> failed != [])
      modifies this
      ensures seqNo == old(seqNo) + |out|
      ensures Yields(env, run, key, items, old(seqNo), PatternsOf(c), out)
    {
      ghost var n := seqNo;
      out := EmitIf(c.often, run, key, RepeatAction, items, items, [], n, []);
      ghost var ps := [] + If(c.often, RepeatAction);
      out := EmitIf(c.stable, run, key, UnchangedOutput, items, items, out, n, ps);
      ps := ps + If(c.stable, UnchangedOutput);
      out := EmitIf(c.failing, run, key, RepeatedFailure, items, failed, out, n, ps);
      ps := ps + If(c.failing, RepeatedFailure);
      out := EmitIf(c.compile, run, key, CompileFailure, items, failed, out, n, ps);
      ps := ps + If(c.compile, CompileFailure);
      out := EmitIf(c.test, run, key, TestFailure, items, failed, out, n, ps);
      ps := ps + If(c.test, TestFailure);
      out := EmitIf(c.recovered, run, key, Retry, items, items, out, n, ps);
      assert [] + If(c.often, RepeatAction) == If(c.often, RepeatAction);
    }

    method ScanBucket(items: seq<Event>) returns (failed: seq<Event>, outputHashes: set<string>)
      ensures failed == Failures(env, items) && outputHashes == OutputHashes(items)
    {
      failed, outputHashes := [], {};
      for i := 0 to |items|
        invariant failed == Failures(env, items[..i]) && outputHashes == OutputHashes(items[..i])
      {
        assert items[..i + 1][..i] == items[..i];
        HashesGrow(items[..i], items[i]);
        assert items[..i + 1] == items[..i] + [items[i]];
        outputHashes := outputHashes + {items[i].outputHash};
        if env.mapStatus(items[i].status) == "failed" {
          failed := failed + [items[i]];
        }
      }
      assert items[..|items|] == items;
    }

    /** The recovery scan of analyzeBucket. */
    static method HasRecovery(statuses: seq<string>) returns (hasRecovery: bool)
      ensures hasRecovery <==> Recovers(statuses)
    {
      var hasFailure := false;
      hasRecovery := false;
      for i := 0 to |statuses|
        invariant hasFailure <==> exists k :: 0 <= k < i && FailedAt(statuses, k)
        invariant !hasRecovery
        invariant forall k, j :: 0 <= k < j < i && FailedAt(statuses, k) ==> !CompletedAt(statuses, j)
      {
        if FailedAt(statuses, i) {
          hasFailure := true;
        }
        if hasFailure && CompletedAt(statuses, i) {
          hasRecovery := true;
          break;
        }
      }
    }

    /** The scan of analyzeRetrySequences: -1 stands for not found. */
    static method FindRetry(statuses: seq<string>) returns (failedIndex: int, recoveredIndex: int)
      ensures FirstFailed(statuses, 0) == if failedIndex == -1 then |statuses| else failedIndex
      ensures RecoveredIndex(statuses) == if recoveredIndex == -1 then |statuses| else recoveredIndex
      ensures failedIndex == -1 ==> recoveredIndex == -1
      ensures recoveredIndex < |statuses|
    {
      failedIndex, recoveredIndex := -1, -1;
      for i := 0 to |statuses|
        invariant recoveredIndex == -1 && -1 <= failedIndex < i
        invariant failedIndex == -1 ==> FirstFailed(statuses, i) == FirstFailed(statuses, 0)
        invariant failedIndex != -1 ==>
                    && failedIndex == FirstFailed(statuses, 0)
                    && RecoveredIndex(statuses) == FirstCompleted(statuses, i)
      {
        if failedIndex == -1 && FailedAt(statuses, i) {
          failedIndex := i;
          continue;
        }
        if failedIndex != -1 && CompletedAt(statuses, i) {
          recoveredIndex := i;
          break;
        }
      }
    }

    /** analyzeRetrySequences. */
    method AnalyzeRetrySequences(run: string, events: seq<Event>)
      returns (out: seq<Candidate>, ghost groups: map<RetryKey, seq<Event>>, ghost order: seq<RetryKey>)
      modifies this
      ensures seqNo == old(seqNo) + |out|
      ensures Grouped(groups, events, GroupOf(env)) && Enumerates(order, groups.Keys)
      ensures out == RetryCandidates(env, run, groups, order, |order|, old(seqNo))
    {
      var byKey := Group(events, GroupOf(env));
      var keys := KeyOrder(byKey.Keys);
      groups, order := byKey, keys;
      out := AnalyzeGroups(run, byKey, keys);
    }

    method AnalyzeGroups(run: string, groups: map<RetryKey, seq<Event>>, order: seq<RetryKey>) returns (out: seq<Candidate>)
      requires forall key :: key in order ==> key in groups
      modifies this
      ensures seqNo == old(seqNo) + |out|
      ensures out == RetryCandidates(env, run, groups, order, |order|, old(seqNo))
    {
      out := [];
      for i := 0 to |order|
        invariant seqNo == old(seqNo) + |out|
        invariant out == RetryCandidates(env, run, groups, order, i, old(seqNo))
      {
        out := AnalyzeNextGroup(run, groups, order, i, old(seqNo), out);
      }
    }

    method AnalyzeNextGroup(
      run: string, groups: map<RetryKey, seq<Event>>, order: seq<RetryKey>, i: nat, ghost n: nat, out: seq<Candidate>)
      returns (more: seq<Candidate>)
      requires i < |order| && order[i] in groups
      requires seqNo == n + |out| && out == RetryCandidates(env, run, groups, order, i, n)
      modifies this
      ensures seqNo == n + |more| && more == RetryCandidates(env, run, groups, order, i + 1, n)
    {
      RetryNext(env, run, groups, order, i, n);
      more := AnalyzeGroup(run, order[i], groups[order[i]], n + |out| + 1, out);
    }

    method AnalyzeGroup(run: string, key: RetryKey, items: seq<Event>, ghost id: nat, out: seq<Candidate>)
      returns (more: seq<Candidate>)
      requires id == seqNo + 1
      modifies this
      ensures seqNo == old(seqNo) + |more| - |out|
      ensures more == RetryMore(env, run, key, items, id, out)
    {
      var failedIndex, recoveredIndex := FindRetry(Statuses(env, items));
      if failedIndex == -1 || recoveredIndex == -1 {
        return out;
      }
      seqNo := seqNo + 1;
      return out + [RetryCandidate(env, run, key, items, seqNo)];
    }

    /** analyzeLedger. */
    method AnalyzeLedger(run: string, ledger: Ledger) returns (out: seq<Candidate>)
      modifies this
      ensures seqNo == old(seqNo) + |out|
      ensures out == LedgerCandidates(env, run, ledger, |ledger.steps|, old(seqNo))
    {
      out := [];
      for k := 0 to |ledger.steps|
        invariant seqNo == old(seqNo) + |out|
        invariant out == LedgerCandidates(env, run, ledger, k, old(seqNo))
      {
        var s := ledger.steps[k];
        out := AnalyzeStep(run, ledger, s, out);
      }
    }

    method AnalyzeStep(run: string, ledger: Ledger, s: LedgerStep, out: seq<Candidate>) returns (more: seq<Candidate>)
      requires seqNo >= |out|
      modifies this
      ensures seqNo == old(seqNo) + |more| - |out|
      ensures var n := old(seqNo) - |out|;
              more == BudgetMore(env, run, ledger, s, n, AbortedMore(env, run, ledger, s, n, out))
    {
      more := out;
      if Aborted(env, s) {
        seqNo := seqNo + 1;
        more := more + [StepCandidate(env, run, ledger, s, AbortedRun, seqNo)];
      }
      if OverBudget(env, s) {
        seqNo := seqNo + 1;
        more := more + [StepCandidate(env, run, ledger, s, BudgetOverrun, seqNo)];
      }
    }

    method AnalyzeBuckets(run: string, buckets: map<PatternKey, seq<Event>>, order: seq<PatternKey>)
      returns (out: seq<Candidate>)
      requires ValidPolicy(env) && forall key :: key in order ==> key in buckets
      modifies this
      ensures KeysOf(out) == UnionOf(BucketPart(env, buckets), order, |order|)
      ensures AllInBuckets(env, run, buckets, out)
    {
      out := [];
      ghost var part := BucketPart(env, buckets);
      for i := 0 to |order|
        invariant Collected(out, part, order, i) && AllInBuckets(env, run, buckets, out)
      {
        out := AnalyzeNext(run, buckets, order, i, part, out);
      }
    }

    method AnalyzeNext(
      run: string, buckets: map<PatternKey, seq<Event>>, order: seq<PatternKey>, i: nat,
      ghost part: map<PatternKey, set<Key>>, out: seq<Candidate>) returns (more: seq<Candidate>)
      requires ValidPolicy(env) && i < |order| && order[i] in buckets && part == BucketPart(env, buckets)
      requires Collected(out, part, order, i) && AllInBuckets(env, run, buckets, out)
      modifies this
      ensures Collected(more, part, order, i + 1) && AllInBuckets(env, run, buckets, more)
    {
      ghost var n := seqNo;
      var key := order[i];
      var own := AnalyzeBucket(run, key, buckets[key]);
      YieldsAre(env, run, buckets, key, n, own);
      KeysOfConcat(out, own);
      more := out + own;
      CollectedMore(out, more, part, order, i);
    }

    method AnalyzeLedgers(run: string, ledgers: seq<Ledger>) returns (out: seq<Candidate>)
      modifies this
      ensures KeysOf(out) == LedgersKeys(env, ledgers, |ledgers|)
      ensures AllFromSteps(env, run, ledgers, out)
    {
      out := [];
      for i := 0 to |ledgers|
        invariant KeysOf(out) == LedgersKeys(env, ledgers, i) && AllFromSteps(env, run, ledgers, out)
      {
        out := AnalyzeNextLedger(run, ledgers, i, out);
      }
    }

    method AnalyzeNextLedger(run: string, ledgers: seq<Ledger>, i: nat, out: seq<Candidate>) returns (more: seq<Candidate>)
      requires i < |ledgers| && KeysOf(out) == LedgersKeys(env, ledgers, i) && AllFromSteps(env, run, ledgers, out)
      modifies this
      ensures KeysOf(more) == LedgersKeys(env, ledgers, i + 1) && AllFromSteps(env, run, ledgers, more)
    {
      ghost var n := seqNo;
      var own := AnalyzeLedger(run, ledgers[i]);
      LedgerKeysAre(env, run, ledgers[i], |ledgers[i].steps|, n);
      LedgerDetected(env, run, ledgers, ledgers[i], |ledgers[i].steps|, n);
      KeysOfConcat(out, own);
      AllFromStepsConcat(env, run, ledgers, out, own);
      more := out + own;
    }

    /** AnalyzeRun. The candidates have distinct keys, namely those that the run's events, sorted by
        creation time and step, and its ledgers stand for. */
    method AnalyzeRun(run: string, events: seq<Event>, ledgers: seq<Ledger>) returns (r: Option<seq<Candidate>>)
      requires ValidPolicy(env) && Sorts(env)
      modifies this
      ensures r.None? <==> Blank(run)
      ensures var sorted := env.arrange(EventsOfRun(events, run));
              InOrder(sorted) && multiset(sorted) == multiset(EventsOfRun(events, run))
      ensures r.Some? ==>
                && UniqueKeys(r.value) && ForRun(r.value, run)
                && (forall c :: c in r.value ==>
                      && (c.ignored <==> !env.observationOnly)
                      && Detected(env, run, env.arrange(EventsOfRun(events, run)), LedgersOfRun(ledgers, run), c.(ignored := false)))
                && forall x :: x in KeysOf(r.value) <==>
                     RunKey(env, env.arrange(EventsOfRun(events, run)), LedgersOfRun(ledgers, run), x)
    {
      if Blank(run) {
        return None;
      }
      var eventsForRun, ledgersForRun := env.arrange(EventsOfRun(events, run)), LedgersOfRun(ledgers, run);
      var combined := Combine(run, eventsForRun, ledgersForRun);
      var all := combined;
      combined := DedupeCandidates(combined);
      FirstsDetected(env, run, eventsForRun, ledgersForRun, all, combined);
      var distinct := combined;
      combined := ApplyPolicyGating(env, combined);
      GatedDetected(env, run, eventsForRun, ledgersForRun, distinct, combined);
      return Some(combined);
    }

    method Combine(run: string, events: seq<Event>, ledgers: seq<Ledger>) returns (combined: seq<Candidate>)
      requires ValidPolicy(env)
      modifies this
      ensures AllDetected(env, run, events, ledgers, combined)
      ensures forall x :: x in KeysOf(combined) <==> RunKey(env, events, ledgers, x)
    {
      var buckets := Group(events, BucketOf(env));
      var order := KeyOrder(buckets.Keys);
      var fromBuckets := AnalyzeBuckets(run, buckets, order);
      ghost var n := seqNo;
      var fromRetries, groups, retryOrder := AnalyzeRetrySequences(run, events);
      var fromLedgers := AnalyzeLedgers(run, ledgers);
      ghost var m := seqNo;
      var fromAccepted := AnalyzeAccepted(run, events);
      AcceptedKeysAre(env, run, events, m);
      BucketsDetected(env, run, events, ledgers, buckets, fromBuckets);
      RetriesDetected(env, run, events, ledgers, groups, retryOrder, n);
      StepsDetected(env, run, events, ledgers, fromLedgers);
      AcceptedDetected(env, run, events, ledgers, events, m);
      KeysOfConcat(fromBuckets, fromRetries);
      KeysOfConcat(fromBuckets + fromRetries, fromLedgers);
      KeysOfConcat(fromBuckets + fromRetries + fromLedgers, fromAccepted);
      combined := fromBuckets + fromRetries + fromLedgers + fromAccepted;
      forall x ensures x in KeysOf(combined) <==> RunKey(env, events, ledgers, x) {
        BucketsKeysMeaning(env, events, buckets, order, x);
        RetryKeysMeaning(env, run, events, groups, retryOrder, n, x);
      }
    }

    /** The accepted-artifact loop of AnalyzeRun. */
    method AnalyzeAccepted(run: string, events: seq<Event>) returns (out: seq<Candidate>)
      modifies this
      ensures seqNo == old(seqNo) + |out|
      ensures out == AcceptedCandidates(env, run, events, old(seqNo))
    {
      out := [];
      for i := 0 to |events|
        invariant seqNo == old(seqNo) + |out|
        invariant out == AcceptedCandidates(env, run, events[..i], old(seqNo))
      {
        AcceptedMore(env, run, events, i, old(seqNo), out);
        if Accepted(env, events[i]) {
          seqNo := seqNo + 1;
          out := out + [AcceptedCandidate(env, run, events[i], seqNo)];
        }
      }
      assert events[..|events|] == events;
    }
  }

  /** Ranging over a map: each key once, in an unspecified order. */
  method KeyOrder<K(==, !new)>(keys: set<K>) returns (order: seq<K>)
    ensures Enumerates(order, keys)
  {
    order := [];
    var left := keys;
    while left != {}
      invariant left <= keys && Enumerates(order, keys - left)
      decreases |left|
    {
      var key :| key in left;
      EnumeratesMore(order, keys - left, key);
      assert (keys - left) + {key} == keys - (left - {key});
      left, order := left - {key}, order + [key];
    }
    assert keys - {} == keys;
  }

  function EventsOfRun(events: seq<Event>, run: string): seq<Event> {
    if events == [] then []
    else
      var last := events[|events| - 1];
      EventsOfRun(events[..|events| - 1], run) + (if last.runId == run then [last] else [])
  }

  function LedgersOfRun(ledgers: seq<Ledger>, run: string): seq<Ledger> {
    if ledgers == [] then []
    else
      var last := ledgers[|ledgers| - 1];
      LedgersOfRun(ledgers[..|ledgers| - 1], run) + (if last.runId == run then [last] else [])
  }

  predicate ForRun(cs: seq<Candidate>, run: string) {
    forall c :: c in cs ==> c.runId == run
  }

  lemma YieldsAre(
    env: Env, run: string, buckets: map<PatternKey, seq<Event>>, key: PatternKey, n: nat, out: seq<Candidate>)
    requires key in buckets && Yields(env, run, key, buckets[key], n, BucketPatterns(env, key, buckets[key]), out)
    ensures KeysOf(out) == PartOf(BucketPart(env, buckets), key) && AllInBuckets(env, run, buckets, out)
  {
    var items := buckets[key];
    forall x ensures x in KeysOf(out) <==> x in BucketKeys(env, key, items) {
      YieldsKeys(env, run, key, items, n, BucketPatterns(env, key, items), out, x);
      PatternsKeysAre(env, key, BucketPatterns(env, key, items), x);
    }
    forall i | 0 <= i < |out| ensures InBucket(env, run, key, items, BucketPatterns(env, key, items)[i], n + i + 1, out[i]) {
      assert YieldsAt(env, run, key, items, n + i + 1, BucketPatterns(env, key, items)[i], out[i]);
    }
  }

  lemma {:induction false} FirstIsMember(cs: seq<Candidate>, key: Key)
    ensures FirstOf(cs, key).Some? ==> FirstOf(cs, key).value in cs
  {
    if cs != [] {
      FirstIsMember(cs[1..], key);
    }
  }

  lemma FirstsDetected(
    env: Env, run: string, events: seq<Event>, ledgers: seq<Ledger>, all: seq<Candidate>, out: seq<Candidate>)
    requires AllDetected(env, run, events, ledgers, all)
    requires forall c :: c in out ==> FirstOf(all, KeyOf(c)) == Some(c)
    ensures AllDetected(env, run, events, ledgers, out)
  {
    forall c | c in out ensures Detected(env, run, events, ledgers, c) {
      FirstIsMember(all, KeyOf(c));
    }
  }

  lemma GatedDetected(
    env: Env, run: string, events: seq<Event>, ledgers: seq<Ledger>, cs: seq<Candidate>, out: seq<Candidate>)
    requires AllDetected(env, run, events, ledgers, cs) && |out| == |cs|
    requires forall i :: 0 <= i < |cs| ==> out[i] == Gated(env, cs[i])
    ensures ForRun(out, run)
    ensures forall c :: c in out ==>
              (c.ignored <==> !env.observationOnly) && Detected(env, run, events, ledgers, c.(ignored := false))
  {
    forall i | 0 <= i < |out|
      ensures out[i].runId == run && (out[i].ignored <==> !env.observationOnly)
      ensures Detected(env, run, events, ledgers, out[i].(ignored := false))
    {
      assert cs[i] in cs;
      DetectedForRun(env, run, events, ledgers, cs[i]);
      assert out[i].(ignored := false) == cs[i];
    }
  }

  lemma HashesGrow(items: seq<Event>, e: Event)
    ensures OutputHashes(items + [e]) == OutputHashes(items) + {e.outputHash}
  {
    var all := items + [e];
    assert all[|items|] == e;
    forall h | h in OutputHashes(items) ensures h in OutputHashes(all) {
      var i :| 0 <= i < |items| && items[i].outputHash == h;
      assert all[i].outputHash == h;
    }
  }

  /** A sequence lists each element of a finite set once. */
  ghost predicate Enumerates<T(!new)>(order: seq<T>, all: set<T>) {
    && (forall x :: x in order <==> x in all)
    && (forall i, j :: 0 <= i < j < |order| ==> order[i] != order[j])
  }

  lemma EnumeratesMore<T(!new)>(order: seq<T>, all: set<T>, x: T)
    requires Enumerates(order, all) && x !in all
    ensures Enumerates(order + [x], all + {x})
  {
    assert forall i :: 0 <= i < |order| ==> order[i] in order;
  }
}
