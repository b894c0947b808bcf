/**
 The learning service: merging the candidates of a run into the stored log and recounting it, with
 what the analysis and the log mean.
 */
module LearningService {
  import opened Prelude
  import opened Text
  import opened LearningAnalyzer

  // ----- what the analysis of a run means -----

  /** Grouping loses and duplicates nothing: an event occurs in the group of its key, and only there, as
      often as in the run. */
  lemma {:induction false} GroupsPartition<K>(events: seq<Event>, of: Event -> Option<K>, key: K, e: Event)
    ensures multiset(Members(events, of, key))[e] == if of(e) == Some(key) then multiset(events)[e] else 0
  {
    if events != [] {
      GroupsPartition(events[..|events| - 1], of, key, e);
      SplitLast(events);
    }
  }

  lemma {:induction false} UniformFailures(env: Env, items: seq<Event>, status: string)
    requires forall e :: e in items ==> env.mapStatus(e.status) == status
    ensures Failures(env, items) == if status == "failed" then items else []
  {
    if items != [] {
      var rest := items[..|items| - 1];
      assert forall e :: e in rest ==> e in items;
      UniformFailures(env, rest, status);
      SplitLast(items);
      assert items[|items| - 1] in items;
    }
  }

  lemma {:induction false} UniformStatuses(env: Env, items: seq<Event>, status: string)
    requires forall e :: e in items ==> env.mapStatus(e.status) == status
    ensures forall i :: 0 <= i < |items| ==> Statuses(env, items)[i] == status
  {
    if items != [] {
      var rest := items[..|items| - 1];
      assert forall e :: e in rest ==> e in items;
      UniformStatuses(env, rest, status);
      assert items[|items| - 1] in items;
    }
  }

  /** The events of a bucket share the mapped status and the output hash of its key. */
  lemma BucketIsUniform(env: Env, events: seq<Event>, key: PatternKey, e: Event)
    requires e in Members(events, BucketOf(env), key)
    ensures env.mapStatus(e.status) == key.status && e.outputHash == key.outputHash && Eligible(e)
  {
    MembersBelong(events, BucketOf(env), key);
  }

  lemma PatternMembers(c: Checks)
    ensures (RepeatAction in PatternsOf(c) <==> c.often) && (UnchangedOutput in PatternsOf(c) <==> c.stable)
    ensures (RepeatedFailure in PatternsOf(c) <==> c.failing) && (Retry in PatternsOf(c) <==> c.recovered)
  {
    assert c.often ==> RepeatAction in If(c.often, RepeatAction);
    assert c.stable ==> UnchangedOutput in If(c.stable, UnchangedOutput);
    assert c.failing ==> RepeatedFailure in If(c.failing, RepeatedFailure);
    assert c.recovered ==> Retry in If(c.recovered, Retry);
  }

  /** So a bucket is reported as unchanged output exactly when it is reported as a repeated action, a
      repeated failure is a failed bucket that is large enough, and a bucket never shows a retry. */
  lemma BucketRules(env: Env, events: seq<Event>, key: PatternKey)
    requires Members(events, BucketOf(env), key) != []
    ensures var items := Members(events, BucketOf(env), key);
            var patterns := BucketPatterns(env, key, items);
            && (UnchangedOutput in patterns <==> RepeatAction in patterns)
            && (RepeatAction in patterns <==> |items| >= env.minRepeat)
            && (env.minFailures > 0 ==>
                  (RepeatedFailure in patterns <==> key.status == "failed" && |items| >= env.minFailures))
            && Retry !in patterns
  {
    var items := Members(events, BucketOf(env), key);
    forall e | e in items ensures env.mapStatus(e.status) == key.status && e.outputHash == key.outputHash {
      BucketIsUniform(env, events, key, e);
    }
    UniformFailures(env, items, key.status);
    UniformStatuses(env, items, key.status);
    assert items[0] in items;
    assert OutputHashes(items) == {key.outputHash} by {
      assert items[0].outputHash == key.outputHash;
      forall i | 0 <= i < |items| ensures items[i].outputHash == key.outputHash {
        assert items[i] in items;
      }
    }
    NeverBoth(Statuses(env, items), key.status);
    PatternMembers(ChecksOf(env, key, items));
  }

  lemma NeverBoth(statuses: seq<string>, status: string)
    requires forall i :: 0 <= i < |statuses| ==> statuses[i] == status
    ensures !Recovers(statuses)
  {
    assert "failed"[0] != "completed"[0];
  }

  /** Which statuses count as failed and as completed under the mapping of the service: white space and case
      do not matter, and the four failure statuses of the build count as failed. */
  lemma FailedAndCompletedStatuses(env: Env, status: string)
    requires MapsStatuses(env)
    ensures var s := env.lower(Trim(status));
            && (env.mapStatus(status) == "failed" <==> s == "failed" || s in FAILURE_STATUSES)
            && (env.mapStatus(status) == "completed" <==> s == "completed")
  {
    var s := env.lower(Trim(status));
    assert env.mapStatus(status) == MappedStatus(env, status);
    assert "started"[0] != "failed"[0] && "started"[0] != "completed"[0] && "failed"[0] != "completed"[0];
    assert s == "starting" ==> s[0] != "failed"[0];
    if s in FAILURE_STATUSES {
      assert s[0] != "s"[0];
      assert s != "completed" by {
        assert "compile-failed"[4] != "completed"[4];
      }
    }
  }

  /** Two events of the run, the first failed and the second completed, belong to the group of a key. */
  ghost predicate FailsThenCompletes(env: Env, events: seq<Event>, key: RetryKey, i: int, j: int) {
    && 0 <= i < j < |events|
    && GroupOf(env)(events[i]) == Some(key) == GroupOf(env)(events[j])
    && env.mapStatus(events[i].status) == "failed" && env.mapStatus(events[j].status) == "completed"
  }

  ghost predicate FailedBefore(env: Env, events: seq<Event>, key: RetryKey) {
    exists i, j :: FailsThenCompletes(env, events, key, i, j)
  }

  ghost predicate SomeFailed(env: Env, events: seq<Event>, key: RetryKey) {
    exists i :: 0 <= i < |events| && FailedMember(env, events[i], key)
  }

  predicate FailedMember(env: Env, e: Event, key: RetryKey) {
    GroupOf(env)(e) == Some(key) && env.mapStatus(e.status) == "failed"
  }

  ghost predicate AnyFailed(statuses: seq<string>) {
    exists i :: 0 <= i < |statuses| && FailedAt(statuses, i)
  }

  /** A retry is reported for a group exactly when, in the arranged events of the run, some failed event of
      the group comes before some completed one. */
  lemma {:induction false} RetryIffFailedBeforeCompleted(env: Env, events: seq<Event>, key: RetryKey)
    ensures var statuses := Statuses(env, Members(events, GroupOf(env), key));
            && (Recovers(statuses) <==> FailedBefore(env, events, key))
            && (AnyFailed(statuses) <==> SomeFailed(env, events, key))
  {
    if events == [] {
      assert Statuses(env, Members(events, GroupOf(env), key)) == [];
    } else {
      var rest, last := events[..|events| - 1], events[|events| - 1];
      RetryIffFailedBeforeCompleted(env, rest, key);
      MemberStatuses(env, events, key);
      SplitLast(events);
      RetryStep(env, rest, last, key, Statuses(env, Members(rest, GroupOf(env), key)));
    }
  }

  lemma RetryStep(env: Env, rest: seq<Event>, last: Event, key: RetryKey, statuses: seq<string>)
    requires Recovers(statuses) <==> FailedBefore(env, rest, key)
    requires AnyFailed(statuses) <==> SomeFailed(env, rest, key)
    ensures var all := if GroupOf(env)(last) == Some(key) then statuses + [env.mapStatus(last.status)] else statuses;
            && (Recovers(all) <==> FailedBefore(env, rest + [last], key))
            && (AnyFailed(all) <==> SomeFailed(env, rest + [last], key))
  {
    FailedAppend(env, rest, last, key);
    StatusesAppend(statuses, env.mapStatus(last.status));
  }

  lemma {:induction false} MemberStatuses(env: Env, events: seq<Event>, key: RetryKey)
    requires events != []
    ensures var rest, last := events[..|events| - 1], events[|events| - 1];
            var before := Statuses(env, Members(rest, GroupOf(env), key));
            Statuses(env, Members(events, GroupOf(env), key)) ==
            if GroupOf(env)(last) == Some(key) then before + [env.mapStatus(last.status)] else before
  {
    var rest, last := events[..|events| - 1], events[|events| - 1];
    var before := Members(rest, GroupOf(env), key);
    if GroupOf(env)(last) == Some(key) {
      assert Members(events, GroupOf(env), key) == before + [last];
      assert (before + [last])[..|before|] == before;
    } else {
      assert Members(events, GroupOf(env), key) == before + [] == before;
    }
  }

  lemma StatusesAppend(statuses: seq<string>, status: string)
    ensures var all := statuses + [status];
            && (AnyFailed(all) <==> AnyFailed(statuses) || status == "failed")
            && (Recovers(all) <==> Recovers(statuses) || (AnyFailed(statuses) && status == "completed"))
  {
    var all := statuses + [status];
    assert forall i :: 0 <= i < |statuses| ==> (FailedAt(all, i) <==> FailedAt(statuses, i));
    assert forall i :: 0 <= i < |statuses| ==> (CompletedAt(all, i) <==> CompletedAt(statuses, i));
    assert FailedAt(all, |statuses|) <==> status == "failed";
    assert CompletedAt(all, |statuses|) <==> status == "completed";
  }

  lemma FailedAppend(env: Env, rest: seq<Event>, last: Event, key: RetryKey)
    ensures var all := rest + [last];
            && (SomeFailed(env, all, key) <==> SomeFailed(env, rest, key) || FailedMember(env, last, key))
            && (FailedBefore(env, all, key) <==>
                  FailedBefore(env, rest, key)
                  || (SomeFailed(env, rest, key) && GroupOf(env)(last) == Some(key)
                      && env.mapStatus(last.status) == "completed"))
  {
    var all := rest + [last];
    assert forall i :: 0 <= i < |rest| ==> all[i] == rest[i];
    assert all[|rest|] == last;
    if FailedBefore(env, all, key) {
      var i, j :| FailsThenCompletes(env, all, key, i, j);
      if j < |rest| {
        assert FailsThenCompletes(env, rest, key, i, j);
      } else {
        assert FailedMember(env, rest[i], key);
      }
    }
    if FailedBefore(env, rest, key) {
      var i, j :| FailsThenCompletes(env, rest, key, i, j);
      assert FailsThenCompletes(env, all, key, i, j);
    }
    if SomeFailed(env, rest, key) {
      var i :| 0 <= i < |rest| && FailedMember(env, rest[i], key);
      assert FailedMember(env, all[i], key);
      if GroupOf(env)(last) == Some(key) && env.mapStatus(last.status) == "completed" {
        assert FailsThenCompletes(env, all, key, i, |rest|);
      }
    }
    if FailedMember(env, last, key) {
      assert FailedMember(env, all[|rest|], key);
    }
  }

  // ----- the stored log -----

  datatype Summary = Summary(runId: string, count: nat, byPattern: map<Pattern, nat>, ids: seq<string>)

  function ByRun(log: seq<Candidate>, run: string): seq<Candidate> {
    if log == [] then []
    else
      var last := log[|log| - 1];
      ByRun(log[..|log| - 1], run) + (if last.runId == run then [last] else [])
  }

  function Ids(cs: seq<Candidate>): seq<string> {
    seq(|cs|, i requires 0 <= i < |cs| => cs[i].eventId)
  }

  function CountOf(cs: seq<Candidate>, p: Pattern): nat {
    if cs == [] then 0 else CountOf(cs[..|cs| - 1], p) + (if cs[|cs| - 1].pattern == p then 1 else 0)
  }

  function Count(byPattern: map<Pattern, nat>, p: Pattern): nat {
    if p in byPattern then byPattern[p] else 0
  }

  /** The sum of the counts over all patterns. */
  function Total(byPattern: map<Pattern, nat>): nat {
    Count(byPattern, RepeatAction) + Count(byPattern, UnchangedOutput) + Count(byPattern, RepeatedFailure) +
    Count(byPattern, CompileFailure) + Count(byPattern, TestFailure) + Count(byPattern, Retry) +
    Count(byPattern, AbortedRun) + Count(byPattern, BudgetOverrun) + Count(byPattern, AcceptedPattern)
  }

  /** The same sum over the candidates themselves. */
  function CountAll(cs: seq<Candidate>): nat {
    CountOf(cs, RepeatAction) + CountOf(cs, UnchangedOutput) + CountOf(cs, RepeatedFailure) +
    CountOf(cs, CompileFailure) + CountOf(cs, TestFailure) + CountOf(cs, Retry) +
    CountOf(cs, AbortedRun) + CountOf(cs, BudgetOverrun) + CountOf(cs, AcceptedPattern)
  }

  lemma {:induction false} EachCountsOnce(cs: seq<Candidate>)
    ensures CountAll(cs) == |cs|
  {
    if cs != [] {
      EachCountsOnce(cs[..|cs| - 1]);
    }
  }

  lemma {:induction false} CountsAddUp(cs: seq<Candidate>, byPattern: map<Pattern, nat>)
    requires forall p :: Count(byPattern, p) == CountOf(cs, p)
    ensures Total(byPattern) == |cs|
  {
    EachCountsOnce(cs);
    assert Total(byPattern) == CountAll(cs);
  }

  lemma SameCounts(a: map<Pattern, nat>, b: map<Pattern, nat>)
    requires forall p :: Count(a, p) == Count(b, p)
    requires (forall p :: p in a ==> a[p] > 0) && (forall p :: p in b ==> b[p] > 0)
    ensures a == b
  {
    assert forall p :: p in a <==> Count(a, p) > 0;
    assert forall p :: p in b <==> Count(b, p) > 0;
  }

  lemma ByRunAppend(log: seq<Candidate>, c: Candidate, run: string)
    ensures ByRun(log + [c], run) == ByRun(log, run) + (if c.runId == run then [c] else [])
  {
    assert (log + [c])[..|log|] == log;
  }

  /** Every run has each of its keys once in the log. */
  ghost predicate DistinctPerRun(log: seq<Candidate>) {
    forall run :: UniqueKeys(ByRun(log, run))
  }

  lemma AppendKeepsDistinct(log: seq<Candidate>, c: Candidate)
    requires DistinctPerRun(log) && KeyOf(c) !in KeysOf(ByRun(log, c.runId))
    ensures DistinctPerRun(log + [c])
  {
    forall run ensures UniqueKeys(ByRun(log + [c], run)) {
      ByRunAppend(log, c, run);
      assert UniqueKeys(ByRun(log, run));
      if run == c.runId {
        assert forall i :: 0 <= i < |ByRun(log, run)| ==> KeyOf(ByRun(log, run)[i]) in KeysOf(ByRun(log, run));
      }
    }
  }

  /** The log has grown by candidates of one run only, with keys that are still distinct per run. */
  ghost predicate Accrues(before: seq<Candidate>, log: seq<Candidate>, run: string) {
    && before <= log
    && (DistinctPerRun(before) ==> DistinctPerRun(log))
    && forall other :: other != run ==> ByRun(log, other) == ByRun(before, other)
  }

  /** What the log has gained are candidates. */
  ghost predicate FromCandidates(before: seq<Candidate>, log: seq<Candidate>, candidates: seq<Candidate>) {
    |before| <= |log| && forall c :: c in log[|before|..] ==> c in candidates
  }

  lemma FromCandidatesAppend(before: seq<Candidate>, log: seq<Candidate>, candidates: seq<Candidate>, c: Candidate)
    requires FromCandidates(before, log, candidates) && c in candidates
    ensures FromCandidates(before, log + [c], candidates)
  {
    assert (log + [c])[|before|..] == log[|before|..] + [c];
  }

  /** Appending a candidate with a new key to the log of its run. */
  lemma AppendNew(before: seq<Candidate>, log: seq<Candidate>, c: Candidate, run: string)
    requires Accrues(before, log, run) && c.runId == run && KeyOf(c) !in KeysOf(ByRun(log, run))
    ensures Accrues(before, log + [c], run)
    ensures KeysOf(ByRun(log + [c], run)) == KeysOf(ByRun(log, run)) + {KeyOf(c)}
  {
    ByRunAppend(log, c, run);
    KeysOfConcat(ByRun(log, run), [c]);
    KeysOfOne(c);
    if DistinctPerRun(log) {
      AppendKeepsDistinct(log, c);
    }
    forall other | other != run ensures ByRun(log + [c], other) == ByRun(log, other) {
      ByRunAppend(log, c, other);
    }
  }

  class Service {
    const analyzer: Analyzer
    var events: seq<Event>
    var ledgers: seq<Ledger>
    var log: seq<Candidate>
    var summaries: map<string, Summary>

    constructor (env: Env)
      ensures analyzer.env == env && log == [] && events == [] && ledgers == [] && summaries == map[]
      ensures DistinctPerRun(log)
    {
      analyzer := new Analyzer(env);
      events, ledgers, log, summaries := [], [], [], map[];
    }

    /** A key that the recorded events and ledgers of a run stand for. */
    ghost predicate Stands(run: string, x: Key)
      reads this`events, this`ledgers
    {
      RunKey(analyzer.env, analyzer.env.arrange(EventsOfRun(events, run)), LedgersOfRun(ledgers, run), x)
    }

    /** A candidate that the analysis of the recorded events and ledgers finds, ignored unless the policy
        only observes. */
    ghost predicate Found(run: string, c: Candidate)
      reads this`events, this`ledgers
    {
      && (c.ignored <==> !analyzer.env.observationOnly)
      && Detected(analyzer.env, run, analyzer.env.arrange(EventsOfRun(events, run)), LedgersOfRun(ledgers, run),
                  c.(ignored := false))
    }

    /** The merge loop: None when the log refuses a candidate; what was appended before stays. */
    method Merge(run: string, candidates: seq<Candidate>) returns (ok: bool)
      requires ForRun(candidates, run)
      modifies this`log
      ensures Accrues(old(log), log, run)
      ensures ok ==> KeysOf(ByRun(log, run)) == old(KeysOf(ByRun(log, run))) + KeysOf(candidates)
      ensures !ok ==> exists c :: c in candidates && KeyOf(c) !in old(KeysOf(ByRun(log, run))) && !analyzer.env.accepts(c)
      ensures forall c :: c in log[|old(log)|..] ==> c in candidates
      ensures KeysOf(candidates) <= old(KeysOf(ByRun(log, run))) ==> ok && log == old(log)
    {
      var existingByKey := KeysOf(ByRun(log, run));
      ghost var before, had, wanted := log, existingByKey, KeysOf(candidates);
      for i := 0 to |candidates|
        invariant Accrues(before, log, run) && FromCandidates(before, log, candidates)
        invariant existingByKey == KeysOf(ByRun(log, run)) == had + KeysOf(candidates[..i])
        invariant wanted <= had ==> log == before
      {
        var c := candidates[i];
        assert candidates[..i + 1] == candidates[..i] + [c];
        KeysOfConcat(candidates[..i], [c]);
        KeysOfOne(c);
        assert KeyOf(candidates[i]) in wanted && c in candidates;
        if KeyOf(c) in existingByKey {
          continue;
        }
        if !analyzer.env.accepts(c) {
          return false;
        }
        AppendNew(before, log, c, run);
        FromCandidatesAppend(before, log, candidates, c);
        log := log + [c];
        existingByKey := existingByKey + {KeyOf(c)};
      }
      assert candidates[..|candidates|] == candidates;
      return true;
    }

    method Tally(stored: seq<Candidate>) returns (byPattern: map<Pattern, nat>)
      ensures forall p :: Count(byPattern, p) == CountOf(stored, p)
      ensures forall p :: p in byPattern ==> byPattern[p] > 0
    {
      byPattern := map[];
      for i := 0 to |stored|
        invariant forall p :: Count(byPattern, p) == CountOf(stored[..i], p)
        invariant forall p :: p in byPattern ==> byPattern[p] > 0
      {
        assert stored[..i + 1][..i] == stored[..i];
        var p := stored[i].pattern;
        byPattern := byPattern[p := Count(byPattern, p) + 1];
      }
      assert stored[..|stored|] == stored;
    }

    /** RunLearningSummary. The log only grows, keeps its keys distinct and keeps every other run; a
        successful call adds exactly the keys of the run to those that were there, and a call whose
        keys are all there changes nothing. */
    method RunLearningSummary(run: string) returns (r: Option<Summary>)
      requires ValidPolicy(analyzer.env) && Sorts(analyzer.env)
      modifies this`log, this`summaries, analyzer
      ensures Accrues(old(log), log, run) && forall c :: c in log[|old(log)|..] ==> Found(run, c)
      ensures Blank(run) ==> r.None?
      ensures (forall c :: analyzer.env.accepts(c)) ==> (r.None? <==> Blank(run))
      ensures r.Some? ==> forall x ::
                x in KeysOf(ByRun(log, run)) <==> x in old(KeysOf(ByRun(log, run))) || Stands(run, x)
      ensures !Blank(run) && (forall x :: Stands(run, x) ==> x in old(KeysOf(ByRun(log, run)))) ==>
                r.Some? && log == old(log)
      ensures r.Some? ==>
                && summaries == old(summaries)[run := r.value]
                && r.value.count == |ByRun(log, run)| == |r.value.ids| == Total(r.value.byPattern)
                && r.value.ids == Ids(ByRun(log, run))
                && r.value.runId == run
                && (forall p :: Count(r.value.byPattern, p) == CountOf(ByRun(log, run), p))
                && (forall p :: p in r.value.byPattern ==> r.value.byPattern[p] > 0)
    {
      var candidates := analyzer.AnalyzeRun(run, events, ledgers);
      if candidates.None? {
        return None;
      }
      var ok := Merge(run, candidates.value);
      if !ok {
        return None;
      }
      var stored := ByRun(log, run);
      var byPattern := Tally(stored);
      CountsAddUp(stored, byPattern);
      var summary := Summary(run, |stored|, byPattern, Ids(stored));
      summaries := summaries[run := summary];
      return Some(summary);
    }

    /** A second successful call with no new events or ledgers appends nothing and finds the same. */
    method AnalyzeTwice(run: string) returns (first: Option<Summary>, second: Option<Summary>)
      requires ValidPolicy(analyzer.env) && Sorts(analyzer.env)
      modifies this`log, this`summaries, analyzer
      ensures first.Some? ==> second == first && |ByRun(log, run)| == first.value.count
    {
      first := RunLearningSummary(run);
      ghost var once := log;
      second := RunLearningSummary(run);
      if first.Some? {
        assert log == once;
        SameCounts(first.value.byPattern, second.value.byPattern);
      }
    }
  }
}
