/**
 What a reported candidate says about the events or steps behind it: when each pattern of a bucket
 and of a ledger is reported, and what the fields of a candidate are.
 */
module LearningMeaning {
  import opened Prelude
  import opened Text
  import opened LearningAnalyzer
  import opened LearningService

  // ----- the outcome of an event -----

  /** An event that speaks of compiling, by its status, its declared outcome or its type. */
  predicate SpeaksOfCompiling(env: Env, e: Event) {
    || env.lower(Trim(e.status)) == "compile-failed"
    || env.lower(e.outcomeText) == "compile"
    || Contains(env.lower(e.eventType), "compile")
  }

  predicate SpeaksOfTesting(env: Env, e: Event) {
    || env.lower(Trim(e.status)) == "run-failed"
    || env.lower(Trim(e.status)) == "output-divergence"
    || env.lower(Trim(e.status)) == "golden-master-reproduction-failed"
    || env.lower(e.outcomeText) == "test"
    || Contains(env.lower(e.eventType), "test")
    || env.lower(e.dataClass) == "test"
  }

  predicate SpeaksOfBuilding(env: Env, e: Event) {
    env.lower(e.dataClass) == "build-test" || Contains(env.lower(e.eventType), "build")
  }

  /** Compiling goes before testing, and testing before building, which counts as compiling. */
  lemma OutcomeMeans(env: Env, e: Event)
    ensures BuildOutcome(env, e) == "compile" <==>
              SpeaksOfCompiling(env, e) || (!SpeaksOfTesting(env, e) && SpeaksOfBuilding(env, e))
    ensures BuildOutcome(env, e) == "test" <==> SpeaksOfTesting(env, e) && !SpeaksOfCompiling(env, e)
    ensures BuildOutcome(env, e) in {"compile", "test", ""}
  {
    assert "compile"[0] != "test"[0];
  }

  /** A part of a text: something before it and something after it. */
  lemma ContainsMeans(s: string, part: string)
    ensures Contains(s, part) <==> exists before, after :: s == before + part + after
  {
    if Contains(s, part) {
      var i :| 0 <= i <= |s| && part <= s[i..];
      assert s == s[..i] + part + s[i + |part|..];
    }
    if before, after :| s == before + part + after {
      assert part <= s[|before|..];
    }
  }

  /** In order means: by instants, and by steps where these are the same. */
  lemma {:induction false} InOrderMeans(events: seq<Event>)
    ensures InOrder(events) <==>
            forall i, j :: 0 <= i < j < |events| ==>
              StampInOrder(events[i].createdAt, events[i].stepId, events[j].createdAt, events[j].stepId)
  {
    forall i, j | 0 <= i < j < |events|
      ensures !Earlier(events[j], events[i]) <==>
              StampInOrder(events[i].createdAt, events[i].stepId, events[j].createdAt, events[j].stepId)
    {
    }
  }

  // ----- the patterns of a bucket -----

  /** A failed event of the bucket, with the outcome of its key. */
  ghost predicate FailedInBucket(env: Env, events: seq<Event>, key: PatternKey) {
    exists e :: e in events && Eligible(e) && PatternKeyOf(env, e) == key && env.mapStatus(e.status) == "failed"
  }

  lemma {:induction false} AllPatterns(c: Checks, p: Pattern)
    ensures p in PatternsOf(c) <==>
            match p
            case RepeatAction => c.often
            case UnchangedOutput => c.stable
            case RepeatedFailure => c.failing
            case CompileFailure => c.compile
            case TestFailure => c.test
            case Retry => c.recovered
            case _ => false
  {
    var a := If(c.often, RepeatAction) + If(c.stable, UnchangedOutput) + If(c.failing, RepeatedFailure);
    var compile, test, retry := If(c.compile, CompileFailure), If(c.test, TestFailure), If(c.recovered, Retry);
    ThreeIfs(c.often, RepeatAction, c.stable, UnchangedOutput, c.failing, RepeatedFailure, p);
    InEither(a, compile, p);
    InEither(a + compile, test, p);
    InEither(a + compile + test, retry, p);
    PatternIn(c.compile, CompileFailure, p);
    PatternIn(c.test, TestFailure, p);
    PatternIn(c.recovered, Retry, p);
  }

  lemma PatternIn(check: bool, pattern: Pattern, p: Pattern)
    ensures p in If(check, pattern) <==> check && p == pattern
  {
  }

  lemma InEither(a: seq<Pattern>, b: seq<Pattern>, p: Pattern)
    ensures p in a + b <==> p in a || p in b
  {
  }

  lemma ThreeIfs(b: bool, m: Pattern, c: bool, n: Pattern, d: bool, o: Pattern, p: Pattern)
    ensures p in If(b, m) + If(c, n) + If(d, o) <==> (b && p == m) || (c && p == n) || (d && p == o)
  {
  }

  /** A compile or test failure is reported for a bucket exactly when failures are wanted and some
      recorded event of the bucket failed with that outcome. */
  lemma {:induction false} FailurePatternsMean(env: Env, events: seq<Event>, key: PatternKey)
    ensures var patterns := BucketPatterns(env, key, Members(events, BucketOf(env), key));
            && (CompileFailure in patterns <==>
                  env.includeFailures && key.outcome == "compile" && FailedInBucket(env, events, key))
            && (TestFailure in patterns <==>
                  env.includeFailures && key.outcome == "test" && FailedInBucket(env, events, key))
  {
    var items := Members(events, BucketOf(env), key);
    MembersBelong(events, BucketOf(env), key);
    AllPatterns(ChecksOf(env, key, items), CompileFailure);
    AllPatterns(ChecksOf(env, key, items), TestFailure);
    FailuresAre(env, items);
    if |Failures(env, items)| > 0 {
      var e := Failures(env, items)[0];
      assert e in Failures(env, items);
      assert e in events && Eligible(e) && PatternKeyOf(env, e) == key;
    }
    if FailedInBucket(env, events, key) {
      var e :| e in events && Eligible(e) && PatternKeyOf(env, e) == key && env.mapStatus(e.status) == "failed";
      assert e in items && e in Failures(env, items);
    }
  }

  lemma {:induction false} FailuresAre(env: Env, items: seq<Event>)
    ensures forall e :: e in Failures(env, items) <==> e in items && env.mapStatus(e.status) == "failed"
  {
    if items != [] {
      FailuresAre(env, items[..|items| - 1]);
      SplitLast(items);
    }
  }

  // ----- ledgers and accepted artifacts -----

  ghost predicate StepIn(ledgers: seq<Ledger>, l: Ledger, s: LedgerStep) {
    l in ledgers && s in l.steps
  }

  lemma {:induction false} LedgerKeysMean(env: Env, l: Ledger, k: nat, x: Key)
    requires k <= |l.steps|
    ensures x in LedgerKeys(env, l, k) <==> exists i :: 0 <= i < k && x in StepKeys(env, l, l.steps[i])
  {
    if k > 0 {
      LedgerKeysMean(env, l, k - 1, x);
    }
  }

  ghost predicate OfLedger(env: Env, l: Ledger, x: Key) {
    x in LedgerKeys(env, l, |l.steps|)
  }

  lemma {:induction false} LedgersKeysMean(env: Env, ledgers: seq<Ledger>, n: nat, x: Key)
    requires n <= |ledgers|
    ensures x in LedgersKeys(env, ledgers, n) <==> exists j :: 0 <= j < n && OfLedger(env, ledgers[j], x)
  {
    if n > 0 {
      LedgersKeysMean(env, ledgers, n - 1, x);
      assert x in LedgersKeys(env, ledgers, n) <==>
             x in LedgersKeys(env, ledgers, n - 1) || OfLedger(env, ledgers[n - 1], x);
    }
  }

  /** A ledger step is reported as aborted exactly when its status says so, and as over budget when its
      type, its transition or its status speaks of a budget; the key names ledger and event. */
  ghost predicate Reports(env: Env, l: Ledger, s: LedgerStep, x: Key) {
    || (env.lower(s.status) == "aborted" && x == (AbortedRun, "abort:" + l.runId + ":" + s.eventId))
    || ((Contains(env.lower(s.eventType), "budget") || Contains(env.lower(s.stateTransition), "budget")
         || Contains(env.lower(s.status), "budget"))
        && x == (BudgetOverrun, "budget:" + l.runId + ":" + s.eventId))
  }

  lemma {:induction false} LedgerReportsMean(env: Env, ledgers: seq<Ledger>, x: Key)
    ensures x in LedgersKeys(env, ledgers, |ledgers|) <==> exists l, s :: StepIn(ledgers, l, s) && Reports(env, l, s, x)
  {
    LedgersKeysMean(env, ledgers, |ledgers|, x);
    forall j | 0 <= j < |ledgers|
      ensures OfLedger(env, ledgers[j], x) <==>
              exists i :: 0 <= i < |ledgers[j].steps| && Reports(env, ledgers[j], ledgers[j].steps[i], x)
    {
      LedgerKeysMean(env, ledgers[j], |ledgers[j].steps|, x);
    }
    if l, s :| StepIn(ledgers, l, s) && Reports(env, l, s, x) {
      var j :| 0 <= j < |ledgers| && ledgers[j] == l;
      var i :| 0 <= i < |l.steps| && l.steps[i] == s;
      assert Reports(env, ledgers[j], ledgers[j].steps[i], x);
    }
    if x in LedgersKeys(env, ledgers, |ledgers|) {
      var j :| 0 <= j < |ledgers| && OfLedger(env, ledgers[j], x);
      var i :| 0 <= i < |ledgers[j].steps| && Reports(env, ledgers[j], ledgers[j].steps[i], x);
      assert StepIn(ledgers, ledgers[j], ledgers[j].steps[i]);
    }
  }

  /** An event counts as accepted by its status, its flag, its transition or its type. */
  lemma AcceptedMeans(env: Env, e: Event)
    ensures Accepted(env, e) <==>
            e.acceptedFlag || env.sameFolded(e.status, "accepted")
            || Contains(env.lower(e.eventType), "accept") || Contains(env.lower(e.stateTransition), "accept")
  {
  }

  // ----- the fields of a candidate -----

  /** What a candidate of a group says of its evidence. */
  ghost predicate Describes(c: Candidate, run: string, evidence: seq<Event>, n: nat) {
    && c.runId == run && !c.ignored && c.occurrences == n
    && |c.evidence| == |evidence| && (forall i :: 0 <= i < |evidence| ==> c.evidence[i] == evidence[i].eventId)
    && evidence != [] && c.firstStepId == evidence[0].stepId && c.lastStepId == evidence[|evidence| - 1].stepId
  }

  /** A candidate of a bucket counts and names the events it rests on: the failures when it is about
      failures and the whole bucket otherwise. */
  lemma {:induction false} BucketCandidateDescribes(
    env: Env, run: string, key: PatternKey, items: seq<Event>, id: nat, p: Pattern, c: Candidate)
    requires YieldsAt(env, run, key, items, id, p, c)
    ensures var rests := if p in {RepeatedFailure, CompileFailure, TestFailure} then Failures(env, items) else items;
            Describes(c, run, rests, |rests|)
    ensures c.actor == key.actor && c.capability == key.capability && c.outcome == key.outcome && c.pattern == p
  {
  }

  /** A retry names the first failed event and the first completed one after it. */
  lemma {:induction false} RetryCandidateDescribes(env: Env, run: string, key: RetryKey, items: seq<Event>, id: nat)
    requires Recovers(Statuses(env, items))
    ensures RecoveredIndex(Statuses(env, items)) < |items|
    ensures var c := RetryCandidate(env, run, key, items, id);
            exists i, j :: IsFirstRetry(Statuses(env, items), i, j) && Describes(c, run, [items[i], items[j]], 2)
  {
    var statuses := Statuses(env, items);
    RecoversIffFound(statuses);
    FirstFailedIs(statuses, 0);
    FirstCompletedIs(statuses, FirstFailed(statuses, 0) + 1);
    var i, j := FirstFailed(statuses, 0), RecoveredIndex(statuses);
    forall k | 0 <= k < i ensures statuses[k] != "failed" {
      assert !FailedAt(statuses, k);
    }
    forall k | i < k < j ensures statuses[k] != "completed" {
      assert !CompletedAt(statuses, k);
    }
    assert FailedAt(statuses, i) && CompletedAt(statuses, j);
    assert IsFirstRetry(statuses, i, j);
  }

  /** The first failure, and the first completion after it. */
  ghost predicate IsFirstRetry(statuses: seq<string>, i: int, j: int) {
    && 0 <= i < j < |statuses| && statuses[i] == "failed" && statuses[j] == "completed"
    && (forall k :: 0 <= k < i ==> statuses[k] != "failed")
    && (forall k :: i < k < j ==> statuses[k] != "completed")
  }

  /** An accepted artifact is reported with its event as the only evidence. */
  lemma AcceptedCandidateDescribes(env: Env, run: string, e: Event, id: nat)
    ensures var c := AcceptedCandidate(env, run, e, id);
            && Describes(c, run, [e], 1) && c.actor == e.actor && c.capability == e.capability
            && c.outcome == BuildOutcome(env, e)
  {
  }

  /** A ledger step is reported with its event as the only evidence, under the actor of the step. */
  lemma StepCandidateDescribes(env: Env, run: string, ledger: Ledger, s: LedgerStep, p: Pattern, id: nat)
    ensures var c := StepCandidate(env, run, ledger, s, p, id);
            && c.runId == run && !c.ignored && c.occurrences == 1 && c.evidence == [s.eventId]
            && c.firstStepId == s.stepId == c.lastStepId && c.actor == s.actor && c.capability == s.capability
            && c.outcome == ""
  {
  }

  /** Of the candidates with one key the first is kept. */
  lemma {:induction false} FirstOfIsFirst(cs: seq<Candidate>, key: Key)
    ensures FirstOf(cs, key).None? <==> forall i :: 0 <= i < |cs| ==> KeyOf(cs[i]) != key
    ensures FirstOf(cs, key).Some? ==> exists i :: IsFirstWith(cs, key, i) && cs[i] == FirstOf(cs, key).value
  {
    if cs != [] {
      var rest := cs[1..];
      FirstOfIsFirst(rest, key);
      assert forall k :: 0 <= k < |rest| ==> rest[k] == cs[k + 1];
      if KeyOf(cs[0]) == key {
        assert IsFirstWith(cs, key, 0);
      } else if FirstOf(rest, key).Some? {
        var i :| IsFirstWith(rest, key, i) && rest[i] == FirstOf(rest, key).value;
        forall k | 0 <= k < i + 1 ensures KeyOf(cs[k]) != key {
          assert k > 0 ==> rest[k - 1] == cs[k];
        }
        assert IsFirstWith(cs, key, i + 1);
      }
    }
  }

  ghost predicate IsFirstWith(cs: seq<Candidate>, key: Key, i: int) {
    0 <= i < |cs| && KeyOf(cs[i]) == key && forall k :: 0 <= k < i ==> KeyOf(cs[k]) != key
  }

  ghost predicate Injective(digest: PatternKey -> string) {
    forall k, l :: digest(k) == digest(l) ==> k == l
  }

  /** When digests differ for different keys, so do the fingerprints of different groups and buckets. */
  lemma {:induction false} FingerprintsTellApart(env: Env, k: RetryKey, l: RetryKey, p: Pattern, m: PatternKey, n: PatternKey)
    requires Injective(env.digest)
    ensures RetryDigest(env, k) == RetryDigest(env, l) ==> k == l
    ensures Prefix(p) + env.digest(m) == Prefix(p) + env.digest(n) ==> m == n
  {
    if RetryDigest(env, k) == RetryDigest(env, l) {
      var a := PatternKey(k.actor, k.capability, k.inputHash, k.outputHash, "retry", k.outcome);
      var b := PatternKey(l.actor, l.capability, l.inputHash, l.outputHash, "retry", l.outcome);
      SameTail("retry:", env.digest(a), env.digest(b));
      assert a == b;
    }
    if Prefix(p) + env.digest(m) == Prefix(p) + env.digest(n) {
      SameTail(Prefix(p), env.digest(m), env.digest(n));
    }
  }

  lemma SameTail(head: string, s: string, t: string)
    requires head + s == head + t
    ensures s == t
  {
    assert s == (head + s)[|head|..] && t == (head + t)[|head|..];
  }
}
