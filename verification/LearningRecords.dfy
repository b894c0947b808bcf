/**
 The keys of a run in terms of the events that were recorded, whatever order sort.Slice left equal
 elements in: buckets and accepted artifacts depend on the recorded events alone, and retries on
 their creation times and steps.
 */
module LearningRecords {
  import opened Prelude
  import opened Text
  import opened LearningAnalyzer
  import opened LearningService

  lemma {:induction false} EventsOfRunMembers(events: seq<Event>, run: string, e: Event)
    ensures multiset(EventsOfRun(events, run))[e] == if e.runId == run then multiset(events)[e] else 0
  {
    if events != [] {
      EventsOfRunMembers(events[..|events| - 1], run, e);
      SplitLast(events);
    }
  }

  /** What sort.Slice may return for a run. */
  ghost predicate SortedRun(events: seq<Event>, run: string, sorted: seq<Event>) {
    InOrder(sorted) && multiset(sorted) == multiset(EventsOfRun(events, run))
  }

  lemma ArrangedIsSorted(env: Env, events: seq<Event>, run: string)
    requires Sorts(env)
    ensures SortedRun(events, run, env.arrange(EventsOfRun(events, run)))
  {
  }

  /** The groups of the sorted events partition the recorded events of the run: each one occurs in
      the group of its key, and only there, as often as it was recorded. */
  lemma RunGroupsPartition<K>(
    events: seq<Event>, run: string, sorted: seq<Event>, of: Event -> Option<K>, key: K, e: Event)
    requires SortedRun(events, run, sorted)
    ensures multiset(Members(sorted, of, key))[e] ==
            if e.runId == run && of(e) == Some(key) then multiset(events)[e] else 0
  {
    GroupsPartition(sorted, of, key, e);
    EventsOfRunMembers(events, run, e);
  }

  lemma SameMembers<K>(a: seq<Event>, b: seq<Event>, of: Event -> Option<K>, key: K)
    requires multiset(a) == multiset(b)
    ensures multiset(Members(a, of, key)) == multiset(Members(b, of, key))
  {
    forall e ensures multiset(Members(a, of, key))[e] == multiset(Members(b, of, key))[e] {
      GroupsPartition(a, of, key, e);
      GroupsPartition(b, of, key, e);
    }
  }

  lemma SameEvents(a: seq<Event>, b: seq<Event>)
    requires multiset(a) == multiset(b)
    ensures |a| == |b| && forall e :: e in a <==> e in b
  {
    assert |multiset(a)| == |a| && |multiset(b)| == |b|;
    assert forall e :: (e in a <==> e in multiset(a)) && (e in b <==> e in multiset(b));
  }

  lemma HashesOfMembers(items: seq<Event>, h: string)
    ensures h in OutputHashes(items) <==> exists e :: e in items && e.outputHash == h
  {
    if e :| e in items && e.outputHash == h {
      var i :| 0 <= i < |items| && items[i] == e;
      assert items[i].outputHash == h;
    }
  }

  /** The checks of a bucket do not depend on the order of its events. */
  lemma {:induction false} SameChecks(env: Env, a: seq<Event>, b: seq<Event>, key: PatternKey)
    requires multiset(a) == multiset(b)
    ensures ChecksOf(env, key, Members(a, BucketOf(env), key)) == ChecksOf(env, key, Members(b, BucketOf(env), key))
  {
    var s, t := Members(a, BucketOf(env), key), Members(b, BucketOf(env), key);
    SameMembers(a, b, BucketOf(env), key);
    SameEvents(s, t);
    forall e | e in s || e in t ensures env.mapStatus(e.status) == key.status {
      if e in s { BucketIsUniform(env, a, key, e); } else { BucketIsUniform(env, b, key, e); }
    }
    UniformFailures(env, s, key.status);
    UniformFailures(env, t, key.status);
    assert |Failures(env, s)| == |Failures(env, t)|;
    UniformStatuses(env, s, key.status);
    UniformStatuses(env, t, key.status);
    NeverBoth(Statuses(env, s), key.status);
    NeverBoth(Statuses(env, t), key.status);
    forall h ensures h in OutputHashes(s) <==> h in OutputHashes(t) {
      HashesOfMembers(s, h);
      HashesOfMembers(t, h);
    }
    assert OutputHashes(s) == OutputHashes(t);
  }

  lemma SameBucketKeys(env: Env, a: seq<Event>, b: seq<Event>, x: Key)
    requires multiset(a) == multiset(b)
    ensures FromBuckets(env, a, x) <==> FromBuckets(env, b, x)
  {
    forall key ensures BucketKeys(env, key, Members(a, BucketOf(env), key)) ==
                       BucketKeys(env, key, Members(b, BucketOf(env), key)) {
      SameChecks(env, a, b, key);
    }
  }

  lemma {:induction false} AcceptedKeysMeaning(env: Env, events: seq<Event>, x: Key)
    ensures x in AcceptedKeys(env, events) <==>
            exists e :: e in events && Accepted(env, e) && x == (AcceptedPattern, env.digest(PatternKeyOf(env, e)))
  {
    if events != [] {
      AcceptedKeysMeaning(env, events[..|events| - 1], x);
      SplitLast(events);
    }
  }

  // ----- retries by time -----

  predicate FailedIn(env: Env, e: Event, run: string, key: RetryKey) {
    e.runId == run && GroupOf(env)(e) == Some(key) && env.mapStatus(e.status) == "failed"
  }

  predicate CompletedIn(env: Env, e: Event, run: string, key: RetryKey) {
    e.runId == run && GroupOf(env)(e) == Some(key) && env.mapStatus(e.status) == "completed"
  }

  /** Some recorded failed event of the group is strictly earlier than some recorded completed one. */
  ghost predicate FailedEarlier(env: Env, events: seq<Event>, run: string, key: RetryKey) {
    exists d, e :: d in events && e in events && FailedIn(env, d, run, key) && CompletedIn(env, e, run, key)
                   && Earlier(d, e)
  }

  /** The same, or the two share instant and step. */
  ghost predicate FailedNoLater(env: Env, events: seq<Event>, run: string, key: RetryKey) {
    exists d, e :: d in events && e in events && FailedIn(env, d, run, key) && CompletedIn(env, e, run, key)
                   && !Earlier(e, d)
  }

  /** The two differ: such events share instant and step, and none is strictly earlier. */
  ghost predicate Tied(env: Env, events: seq<Event>, run: string, key: RetryKey) {
    FailedNoLater(env, events, run, key) && !FailedEarlier(env, events, run, key)
  }

  lemma SortedRunMember(events: seq<Event>, run: string, sorted: seq<Event>, e: Event)
    requires SortedRun(events, run, sorted)
    ensures e in sorted <==> e in events && e.runId == run
  {
    EventsOfRunMembers(events, run, e);
    assert e in sorted <==> multiset(sorted)[e] > 0;
    assert e in events <==> multiset(events)[e] > 0;
  }

  lemma {:induction false} EarlierComesFirst(sorted: seq<Event>, d: Event, e: Event) returns (i: nat, j: nat)
    requires InOrder(sorted) && d in sorted && e in sorted && Earlier(d, e)
    ensures i < j < |sorted| && sorted[i] == d && sorted[j] == e
  {
    i :| 0 <= i < |sorted| && sorted[i] == d;
    j :| 0 <= j < |sorted| && sorted[j] == e;
  }

  /** Whatever the sort does, a failed event strictly earlier than a completed one of its group comes
      before it, and one that comes before a completed one is no later. */
  lemma {:induction false} RetryBounds(env: Env, events: seq<Event>, run: string, sorted: seq<Event>, key: RetryKey)
    requires SortedRun(events, run, sorted)
    ensures FailedEarlier(env, events, run, key) ==> FailedBefore(env, sorted, key)
    ensures FailedBefore(env, sorted, key) ==> FailedNoLater(env, events, run, key)
  {
    if FailedEarlier(env, events, run, key) {
      var d, e :| d in events && e in events && FailedIn(env, d, run, key) && CompletedIn(env, e, run, key)
                  && Earlier(d, e);
      SortedRunMember(events, run, sorted, d);
      SortedRunMember(events, run, sorted, e);
      var i, j := EarlierComesFirst(sorted, d, e);
      assert FailsThenCompletes(env, sorted, key, i, j);
    }
    if FailedBefore(env, sorted, key) {
      var i, j :| FailsThenCompletes(env, sorted, key, i, j);
      var d, e := sorted[i], sorted[j];
      SortedRunMember(events, run, sorted, d);
      SortedRunMember(events, run, sorted, e);
      assert FailedIn(env, d, run, key) && CompletedIn(env, e, run, key) && !Earlier(e, d);
    }
  }

  // ----- the two extreme sorts -----

  /** Ties go to the events with the lower rank. */
  function Rank(env: Env, failedFirst: bool, e: Event): int {
    var s := env.mapStatus(e.status);
    if s == (if failedFirst then "failed" else "completed") then 0
    else if s == (if failedFirst then "completed" else "failed") then 2
    else 1
  }

  predicate RankLess(env: Env, failedFirst: bool, a: Event, b: Event) {
    Earlier(a, b) || (!Earlier(b, a) && Rank(env, failedFirst, a) < Rank(env, failedFirst, b))
  }

  ghost predicate Ranked(env: Env, failedFirst: bool, events: seq<Event>) {
    forall i, j :: 0 <= i < j < |events| ==> !RankLess(env, failedFirst, events[j], events[i])
  }

  function Insert(env: Env, failedFirst: bool, s: seq<Event>, e: Event): seq<Event> {
    if s == [] then [e]
    else
      var last := s[|s| - 1];
      if RankLess(env, failedFirst, e, last) then Insert(env, failedFirst, s[..|s| - 1], e) + [last] else s + [e]
  }

  lemma RankedAppend(env: Env, failedFirst: bool, s: seq<Event>, e: Event)
    requires Ranked(env, failedFirst, s) && forall i :: 0 <= i < |s| ==> !RankLess(env, failedFirst, e, s[i])
    ensures Ranked(env, failedFirst, s + [e])
  {
  }

  lemma RankLessIsTransitive(env: Env, failedFirst: bool, a: Event, b: Event, c: Event)
    requires !RankLess(env, failedFirst, b, a) && !RankLess(env, failedFirst, c, b)
    ensures !RankLess(env, failedFirst, c, a)
  {
  }

  lemma {:induction false} InsertRanked(env: Env, failedFirst: bool, s: seq<Event>, e: Event)
    requires Ranked(env, failedFirst, s)
    ensures var t := Insert(env, failedFirst, s, e);
            Ranked(env, failedFirst, t) && multiset(t) == multiset(s) + multiset{e}
  {
    if s != [] {
      var init, last := s[..|s| - 1], s[|s| - 1];
      SplitLast(s);
      if RankLess(env, failedFirst, e, last) {
        InsertRanked(env, failedFirst, init, e);
        var t := Insert(env, failedFirst, init, e);
        forall i | 0 <= i < |t| ensures !RankLess(env, failedFirst, last, t[i]) {
          assert t[i] in multiset(t);
          if t[i] != e {
            assert t[i] in init;
          }
        }
        RankedAppend(env, failedFirst, t, last);
      } else {
        forall i | 0 <= i < |s| ensures !RankLess(env, failedFirst, e, s[i]) {
          if i < |s| - 1 {
            RankLessIsTransitive(env, failedFirst, s[i], last, e);
          }
        }
        RankedAppend(env, failedFirst, s, e);
      }
    }
  }

  lemma {:induction false} RankedSort(env: Env, failedFirst: bool, events: seq<Event>) returns (sorted: seq<Event>)
    ensures Ranked(env, failedFirst, sorted) && multiset(sorted) == multiset(events)
  {
    if events == [] {
      sorted := [];
    } else {
      var rest := RankedSort(env, failedFirst, events[..|events| - 1]);
      InsertRanked(env, failedFirst, rest, events[|events| - 1]);
      SplitLast(events);
      sorted := Insert(env, failedFirst, rest, events[|events| - 1]);
    }
  }

  /** A ranked list is in order, and it puts one of two events first when it must. */
  lemma RankedFirst(env: Env, failedFirst: bool, sorted: seq<Event>, d: Event, e: Event) returns (i: nat, j: nat)
    requires Ranked(env, failedFirst, sorted) && d in sorted && e in sorted && RankLess(env, failedFirst, d, e)
    ensures i < j < |sorted| && sorted[i] == d && sorted[j] == e
  {
    i :| 0 <= i < |sorted| && sorted[i] == d;
    j :| 0 <= j < |sorted| && sorted[j] == e;
  }

  /** Of all sorts of a run one lets completed events go first and one failed events: the one reports
      the groups with a strictly earlier failure, the other those with one no later. */
  lemma {:induction false} ExtremeSorts(env: Env, events: seq<Event>, run: string)
    returns (least: seq<Event>, most: seq<Event>)
    ensures SortedRun(events, run, least) && SortedRun(events, run, most)
    ensures forall key :: FailedBefore(env, least, key) <==> FailedEarlier(env, events, run, key)
    ensures forall key :: FailedBefore(env, most, key) <==> FailedNoLater(env, events, run, key)
  {
    least := RankedSort(env, false, EventsOfRun(events, run));
    most := RankedSort(env, true, EventsOfRun(events, run));
    forall key ensures FailedBefore(env, least, key) <==> FailedEarlier(env, events, run, key) {
      LeastReports(env, events, run, least, key);
    }
    forall key ensures FailedBefore(env, most, key) <==> FailedNoLater(env, events, run, key) {
      MostReports(env, events, run, most, key);
    }
  }

  lemma {:induction false} LeastReports(env: Env, events: seq<Event>, run: string, least: seq<Event>, key: RetryKey)
    requires SortedRun(events, run, least) && Ranked(env, false, least)
    ensures FailedBefore(env, least, key) <==> FailedEarlier(env, events, run, key)
  {
    RetryBounds(env, events, run, least, key);
    if FailedBefore(env, least, key) {
      var i, j :| FailsThenCompletes(env, least, key, i, j);
      SortedRunMember(events, run, least, least[i]);
      SortedRunMember(events, run, least, least[j]);
      assert !RankLess(env, false, least[j], least[i]);
      assert "failed"[0] != "completed"[0];
      assert FailedIn(env, least[i], run, key) && CompletedIn(env, least[j], run, key) && Earlier(least[i], least[j]);
    }
  }

  lemma {:induction false} MostReports(env: Env, events: seq<Event>, run: string, most: seq<Event>, key: RetryKey)
    requires SortedRun(events, run, most) && Ranked(env, true, most)
    ensures FailedBefore(env, most, key) <==> FailedNoLater(env, events, run, key)
  {
    RetryBounds(env, events, run, most, key);
    if FailedNoLater(env, events, run, key) {
      var d, e :| d in events && e in events && FailedIn(env, d, run, key) && CompletedIn(env, e, run, key)
                  && !Earlier(e, d);
      SortedRunMember(events, run, most, d);
      SortedRunMember(events, run, most, e);
      assert "failed"[0] != "completed"[0];
      var i, j := RankedFirst(env, true, most, d, e);
      assert FailsThenCompletes(env, most, key, i, j);
    }
  }

  /** A retry of a group is reported by every sort exactly when some failed event is strictly earlier than
      some completed one, and by some sort exactly when one is no later. */
  lemma {:induction false} RetryByTime(env: Env, events: seq<Event>, run: string, key: RetryKey)
    ensures (forall s :: SortedRun(events, run, s) ==> FailedBefore(env, s, key)) <==> FailedEarlier(env, events, run, key)
    ensures (exists s :: SortedRun(events, run, s) && FailedBefore(env, s, key)) <==> FailedNoLater(env, events, run, key)
  {
    forall s | SortedRun(events, run, s)
      ensures FailedEarlier(env, events, run, key) ==> FailedBefore(env, s, key)
      ensures FailedBefore(env, s, key) ==> FailedNoLater(env, events, run, key)
    {
      RetryBounds(env, events, run, s, key);
    }
    var least, most := ExtremeSorts(env, events, run);
  }

  /** So the sort decides about a group exactly when its failures are tied. */
  lemma {:induction false} SortDecidesIffTied(env: Env, events: seq<Event>, run: string, key: RetryKey)
    ensures (exists s, t :: SortedRun(events, run, s) && SortedRun(events, run, t)
                            && FailedBefore(env, s, key) && !FailedBefore(env, t, key))
            <==> Tied(env, events, run, key)
  {
    var least, most := ExtremeSorts(env, events, run);
    if s, t :| SortedRun(events, run, s) && SortedRun(events, run, t)
               && FailedBefore(env, s, key) && !FailedBefore(env, t, key) {
      RetryBounds(env, events, run, s, key);
      RetryBounds(env, events, run, t, key);
    }
  }

  // ----- all keys of a run -----

  /** The keys that the recorded events and ledgers stand for, with retries told by time. */
  ghost predicate RecordedKey(env: Env, events: seq<Event>, ledgers: seq<Ledger>, run: string, x: Key) {
    || FromBuckets(env, EventsOfRun(events, run), x)
    || (exists key :: x == (Retry, RetryDigest(env, key)) && FailedEarlier(env, events, run, key))
    || x in LedgersKeys(env, LedgersOfRun(ledgers, run), |LedgersOfRun(ledgers, run)|)
    || x in AcceptedKeys(env, EventsOfRun(events, run))
  }

  /** The keys of a run for one result of the sort. */
  ghost predicate SortedKey(env: Env, sorted: seq<Event>, ledgers: seq<Ledger>, run: string, x: Key) {
    RunKey(env, sorted, LedgersOfRun(ledgers, run), x)
  }

  /** Of the keys of a run only the retries can depend on the sort. */
  lemma {:induction false} OtherKeysAreRecorded(
    env: Env, events: seq<Event>, ledgers: seq<Ledger>, run: string, sorted: seq<Event>, x: Key)
    requires SortedRun(events, run, sorted)
    ensures SortedKey(env, sorted, ledgers, run, x) <==>
            || FromBuckets(env, EventsOfRun(events, run), x)
            || (exists key :: x == (Retry, RetryDigest(env, key)) && FailedBefore(env, sorted, key))
            || x in LedgersKeys(env, LedgersOfRun(ledgers, run), |LedgersOfRun(ledgers, run)|)
            || x in AcceptedKeys(env, EventsOfRun(events, run))
  {
    var own := EventsOfRun(events, run);
    SameBucketKeys(env, sorted, own, x);
    SameEvents(sorted, own);
    AcceptedKeysMeaning(env, sorted, x);
    AcceptedKeysMeaning(env, own, x);
    forall key ensures Recovers(Statuses(env, Members(sorted, GroupOf(env), key))) <==> FailedBefore(env, sorted, key) {
      RetryIffFailedBeforeCompleted(env, sorted, key);
    }
  }

  lemma {:induction false} LedgerKeysAreNoRetries(env: Env, ledger: Ledger, k: nat, x: Key)
    requires k <= |ledger.steps| && x in LedgerKeys(env, ledger, k)
    ensures x.0 != Retry
  {
    if x !in StepKeys(env, ledger, ledger.steps[k - 1]) {
      LedgerKeysAreNoRetries(env, ledger, k - 1, x);
    }
  }

  lemma {:induction false} LedgersKeysAreNoRetries(env: Env, ledgers: seq<Ledger>, n: nat, x: Key)
    requires n <= |ledgers| && x in LedgersKeys(env, ledgers, n)
    ensures x.0 != Retry
  {
    var last := ledgers[n - 1];
    if x in LedgerKeys(env, last, |last.steps|) {
      LedgerKeysAreNoRetries(env, last, |last.steps|, x);
    } else {
      LedgersKeysAreNoRetries(env, ledgers, n - 1, x);
    }
  }

  /** A bucket never shows a retry, and neither do ledgers and accepted artifacts. */
  lemma {:induction false} BucketKeysAreNoRetries(env: Env, events: seq<Event>, x: Key)
    requires ValidPolicy(env) && FromBuckets(env, events, x)
    ensures x.0 != Retry
  {
    var key :| x in BucketKeys(env, key, Members(events, BucketOf(env), key));
    var items := Members(events, BucketOf(env), key);
    if items == [] {
      EmptyBucket(env, key);
    } else {
      BucketRules(env, events, key);
      PatternsKeysAre(env, key, BucketPatterns(env, key, items), x);
    }
  }

  lemma {:induction false} RetryKeyIs(
    env: Env, events: seq<Event>, ledgers: seq<Ledger>, run: string, sorted: seq<Event>, digest: string)
    requires ValidPolicy(env) && SortedRun(events, run, sorted)
    ensures SortedKey(env, sorted, ledgers, run, (Retry, digest)) <==>
            exists key :: RetryDigest(env, key) == digest && FailedBefore(env, sorted, key)
  {
    var x := (Retry, digest);
    var own, mine := EventsOfRun(events, run), LedgersOfRun(ledgers, run);
    OtherKeysAreRecorded(env, events, ledgers, run, sorted, x);
    if FromBuckets(env, own, x) { BucketKeysAreNoRetries(env, own, x); }
    if x in LedgersKeys(env, mine, |mine|) { LedgersKeysAreNoRetries(env, mine, |mine|, x); }
    AcceptedKeysMeaning(env, own, x);
    if key :| RetryDigest(env, key) == digest && FailedBefore(env, sorted, key) {
      assert x == (Retry, RetryDigest(env, key)) && FailedBefore(env, sorted, key);
    }
  }

  /** Every group whose failures are tied shares its digest with a group that is reported anyway. */
  ghost predicate TiesAreCovered(env: Env, events: seq<Event>, run: string) {
    forall key :: FailedNoLater(env, events, run, key) ==> ReportedAs(env, events, run, RetryDigest(env, key))
  }

  ghost predicate ReportedAs(env: Env, events: seq<Event>, run: string, digest: string) {
    exists key :: RetryDigest(env, key) == digest && FailedEarlier(env, events, run, key)
  }

  /** The keys of a run are those of its recorded events, for every sort, exactly under this condition. */
  ghost predicate KeysAreRecorded(env: Env, events: seq<Event>, ledgers: seq<Ledger>, run: string) {
    forall s, x :: SortedRun(events, run, s) ==>
      (SortedKey(env, s, ledgers, run, x) <==> RecordedKey(env, events, ledgers, run, x))
  }

  lemma {:induction false} CoveredKeysAreRecorded(
    env: Env, events: seq<Event>, ledgers: seq<Ledger>, run: string, s: seq<Event>, x: Key)
    requires SortedRun(events, run, s) && TiesAreCovered(env, events, run)
    ensures SortedKey(env, s, ledgers, run, x) <==> RecordedKey(env, events, ledgers, run, x)
  {
    OtherKeysAreRecorded(env, events, ledgers, run, s, x);
    if key :| x == (Retry, RetryDigest(env, key)) && FailedBefore(env, s, key) {
      RetryBounds(env, events, run, s, key);
      assert ReportedAs(env, events, run, RetryDigest(env, key));
    }
    if key :| x == (Retry, RetryDigest(env, key)) && FailedEarlier(env, events, run, key) {
      RetryBounds(env, events, run, s, key);
    }
  }

  lemma {:induction false} RunKeysAreRecorded(env: Env, events: seq<Event>, ledgers: seq<Ledger>, run: string)
    requires ValidPolicy(env)
    ensures KeysAreRecorded(env, events, ledgers, run) <==> TiesAreCovered(env, events, run)
    ensures (forall key :: !Tied(env, events, run, key)) ==> TiesAreCovered(env, events, run)
  {
    if TiesAreCovered(env, events, run) {
      forall s, x | SortedRun(events, run, s)
        ensures SortedKey(env, s, ledgers, run, x) <==> RecordedKey(env, events, ledgers, run, x)
      {
        CoveredKeysAreRecorded(env, events, ledgers, run, s, x);
      }
    }
    var least, most := ExtremeSorts(env, events, run);
    if KeysAreRecorded(env, events, ledgers, run) {
      forall key | FailedNoLater(env, events, run, key) ensures ReportedAs(env, events, run, RetryDigest(env, key)) {
        var x := (Retry, RetryDigest(env, key));
        RetryKeyIs(env, events, ledgers, run, most, RetryDigest(env, key));
        RetryKeyIs(env, events, ledgers, run, least, RetryDigest(env, key));
        assert SortedKey(env, most, ledgers, run, x) && SortedKey(env, least, ledgers, run, x);
      }
    }
    if forall key :: !Tied(env, events, run, key) {
      forall key | FailedNoLater(env, events, run, key) ensures ReportedAs(env, events, run, RetryDigest(env, key)) {
        assert !Tied(env, events, run, key);
      }
    }
  }

  /** With a digest that tells groups apart the condition is that no group is tied. */
  lemma {:induction false} CoveredIffUntied(env: Env, events: seq<Event>, run: string)
    requires forall k, l :: RetryDigest(env, k) == RetryDigest(env, l) ==> k == l
    ensures TiesAreCovered(env, events, run) <==> forall key :: !Tied(env, events, run, key)
  {
    if TiesAreCovered(env, events, run) {
      forall key ensures !Tied(env, events, run, key) {
        if FailedNoLater(env, events, run, key) {
          var other :| RetryDigest(env, other) == RetryDigest(env, key) && FailedEarlier(env, events, run, other);
        }
      }
    } else {
      var key :| FailedNoLater(env, events, run, key) && !ReportedAs(env, events, run, RetryDigest(env, key));
      assert Tied(env, events, run, key);
    }
  }
}
