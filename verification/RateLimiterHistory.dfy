/**
 What the answers of the rate limiter mean: a history that keeps every admitted hit of the live
 buckets, against which the compacted arrays are compared.
 */
module RateLimiterHistory {
  import opened Prelude
  import opened RateLimiter

  datatype Call<K> = Call(client: Option<K>, now: int)

  /** The limiter together with all hits admitted by each live bucket since it was created. */
  datatype Traced<K(==)> = Traced(st: State<K>, admitted: map<K, seq<int>>)

  function Fresh<K(==)>(): Traced<K> {
    Traced(State([], map[]), map[])
  }

  function Admitted<K(==)>(t: Traced<K>, key: K): seq<int> {
    if key in t.st.hits && key in t.admitted then t.admitted[key] else []
  }

  function TracedStep<K(==)>(lim: Limits, t: Traced<K>, c: Call<K>): Traced<K> {
    var (after, permitted) := ConsumeStep(lim, t.st, c.client, c.now);
    if c.client.None? then t
    else
      var key := c.client.value;
      Traced(after, t.admitted[key := Admitted(t, key) + (if permitted then [c.now] else [])])
  }

  function TracedRun<K(==)>(lim: Limits, calls: seq<Call<K>>): Traced<K> {
    if calls == [] then Fresh() else TracedStep(lim, TracedRun(lim, calls[..|calls| - 1]), calls[|calls| - 1])
  }

  predicate Uses<K(==)>(c: Call<K>, key: K) {
    c.client == Some(key)
  }

  /** Between calls of one key the clock never steps back by more than this; with 0 it never goes back. */
  ghost predicate BackAtMost<K>(calls: seq<Call<K>>, key: K, step: nat) {
    forall i, j :: 0 <= i < j < |calls| && Uses(calls[i], key) && Uses(calls[j], key) ==>
      calls[i].now <= calls[j].now + step
  }

  ghost predicate Monotone<K>(calls: seq<Call<K>>, key: K) {
    BackAtMost(calls, key, 0)
  }

  /** No call of the key was made later than `now`. */
  ghost predicate UpTo<K>(calls: seq<Call<K>>, key: K, now: int) {
    forall i :: 0 <= i < |calls| && Uses(calls[i], key) ==> calls[i].now <= now
  }

  /** How many hits lie in the half-open interval (lo, hi]. */
  function CountIn(hits: seq<int>, lo: int, hi: int): nat {
    if hits == [] then 0
    else
      var last := hits[|hits| - 1];
      CountIn(hits[..|hits| - 1], lo, hi) + (if lo < last <= hi then 1 else 0)
  }

  // ----- filtering -----

  lemma {:induction false} AfterTwice(hits: seq<int>, first: int, second: int)
    requires first <= second
    ensures After(After(hits, first), second) == After(hits, second)
  {
    if hits != [] {
      var rest, last := hits[..|hits| - 1], hits[|hits| - 1];
      AfterTwice(rest, first, second);
      AfterAppend(rest, last, first);
      AfterAppend(rest, last, second);
      assert rest + [last] == hits;
      if last > first {
        AfterAppend(After(rest, first), last, second);
      } else {
        assert After(hits, first) == After(rest, first) && After(hits, second) == After(rest, second);
      }
    }
  }

  lemma AfterAppend(hits: seq<int>, x: int, cutoff: int)
    ensures After(hits + [x], cutoff) == After(hits, cutoff) + (if x > cutoff then [x] else [])
  {
    assert (hits + [x])[..|hits|] == hits;
  }

  lemma CountAppend(hits: seq<int>, x: int, lo: int, hi: int)
    ensures CountIn(hits + [x], lo, hi) == CountIn(hits, lo, hi) + (if lo < x <= hi then 1 else 0)
  {
    assert (hits + [x])[..|hits|] == hits;
  }

  /** When no hit is later than hi, the hits after lo are those in (lo, hi]. */
  lemma {:induction false} AfterCounts(hits: seq<int>, lo: int, hi: int)
    requires forall i :: 0 <= i < |hits| ==> hits[i] <= hi
    ensures |After(hits, lo)| == CountIn(hits, lo, hi)
  {
    if hits != [] {
      AfterCounts(hits[..|hits| - 1], lo, hi);
    }
  }

  lemma {:induction false} CountAtMostAfter(hits: seq<int>, lo: int, hi: int, cutoff: int)
    requires cutoff <= lo
    ensures CountIn(hits, lo, hi) <= |After(hits, cutoff)|
  {
    if hits != [] {
      CountAtMostAfter(hits[..|hits| - 1], lo, hi, cutoff);
    }
  }

  // ----- the invariant -----

  /** Each hit was admitted while fewer than maxHits earlier ones lay in its window. */
  ghost predicate AdmittedBelowLimit(lim: Limits, admitted: seq<int>) {
    forall j :: 0 <= j < |admitted| ==> BelowLimitAt(lim, admitted, j)
  }

  predicate BelowLimitAt(lim: Limits, admitted: seq<int>, j: nat)
    requires j < |admitted|
  {
    |After(admitted[..j], admitted[j] - lim.windowMs)| < lim.maxHits
  }

  ghost predicate SameAfter(a: seq<int>, b: seq<int>, cutoff: int) {
    forall c :: c >= cutoff ==> After(a, c) == After(b, c)
  }

  /** The stored array has lost only hits that can no longer matter at `now` or later. */
  ghost predicate GoodBucket<K>(lim: Limits, t: Traced<K>, now: int, key: K) {
    key in t.st.hits ==>
      && key in t.admitted
      && (forall i :: 0 <= i < |t.admitted[key]| ==> t.admitted[key][i] <= now)
      && SameAfter(t.st.hits[key], t.admitted[key], now - lim.windowMs)
      && AdmittedBelowLimit(lim, t.admitted[key])
  }

  lemma LaterIsGood<K>(lim: Limits, t: Traced<K>, now: int, later: int, key: K)
    requires GoodBucket(lim, t, now, key) && now <= later
    ensures GoodBucket(lim, t, later, key)
  {
  }

  lemma {:induction false} EvictKeeps<K>(st: State<K>, cap: int)
    ensures var room := EvictUntilUnderCap(st, cap);
            forall k :: k in room.hits ==> k in st.hits && room.hits[k] == st.hits[k]
    decreases |st.order|
  {
    if st.order != [] && |st.order| >= cap {
      var less := State(st.order[1..], st.hits - {st.order[0]});
      EvictKeeps(less, cap);
      assert forall k :: k in less.hits ==> k in st.hits && less.hits[k] == st.hits[k];
    }
  }

  lemma PrefixOfAppend<T>(s: seq<T>, x: T, j: nat)
    requires j <= |s|
    ensures (s + [x])[..j] == s[..j] && (s + [x])[..|s|] == s
  {
  }

  lemma {:induction false} BelowLimitAppend(lim: Limits, admitted: seq<int>, now: int)
    requires AdmittedBelowLimit(lim, admitted) && |After(admitted, now - lim.windowMs)| < lim.maxHits
    ensures AdmittedBelowLimit(lim, admitted + [now])
  {
    var all := admitted + [now];
    forall j | 0 <= j < |all| ensures BelowLimitAt(lim, all, j) {
      PrefixOfAppend(admitted, now, j);
      if j < |admitted| {
        assert BelowLimitAt(lim, admitted, j);
        assert all[j] == admitted[j];
      }
    }
  }

  /** Compaction and a further hit keep the stored array and the full list alike. */
  lemma {:induction false} StillTheSameAfter(stored: seq<int>, all: seq<int>, cutoff: int, more: seq<int>)
    requires SameAfter(stored, all, cutoff) && |more| <= 1
    ensures SameAfter(After(stored, cutoff) + more, all + more, cutoff)
  {
    var kept := After(stored, cutoff);
    forall c | c >= cutoff ensures After(kept + more, c) == After(all + more, c) {
      AfterTwice(stored, cutoff, c);
      assert After(stored, c) == After(all, c);
      if more == [] {
        assert kept + more == kept && all + more == all;
      } else {
        assert more == [more[0]];
        AfterAppend(kept, more[0], c);
        AfterAppend(all, more[0], c);
      }
    }
  }

  lemma ReadyBucket<K>(lim: Limits, t: Traced<K>, key: K, now: int)
    requires GoodBucket(lim, t, now, key)
    ensures key in WithBucket(lim, t.st, key).hits
    ensures SameAfter(WithBucket(lim, t.st, key).hits[key], Admitted(t, key), now - lim.windowMs)
    ensures AdmittedBelowLimit(lim, Admitted(t, key))
    ensures forall i :: 0 <= i < |Admitted(t, key)| ==> Admitted(t, key)[i] <= now
  {
  }

  /** What one call does to the bucket it uses. */
  lemma {:induction false} OwnStep<K>(lim: Limits, t: Traced<K>, key: K, now: int, kept: seq<int>)
    requires var ready := WithBucket(lim, t.st, key); key in ready.hits && kept == After(ready.hits[key], now - lim.windowMs)
    ensures var more := if |kept| < lim.maxHits then [now] else [];
            var after := TracedStep(lim, t, Call(Some(key), now));
            && key in after.st.hits && after.st.hits[key] == kept + more
            && key in after.admitted && after.admitted[key] == Admitted(t, key) + more
    ensures ConsumeStep(lim, t.st, Some(key), now).1 <==> |kept| < lim.maxHits
  {
    ConsumeSplit(lim, t.st, key, now, kept);
    assert kept + [] == kept;
  }

  /** The hits kept by compaction are those that count, and adding the new one keeps the two lists alike. */
  lemma {:induction false} KeptHits<K>(lim: Limits, t: Traced<K>, key: K, now: int, kept: seq<int>, more: seq<int>)
    requires GoodBucket(lim, t, now, key)
    requires var ready := WithBucket(lim, t.st, key); key in ready.hits && kept == After(ready.hits[key], now - lim.windowMs)
    requires more == if |kept| < lim.maxHits then [now] else []
    ensures |kept| == CountIn(Admitted(t, key), now - lim.windowMs, now)
    ensures SameAfter(kept + more, Admitted(t, key) + more, now - lim.windowMs)
    ensures AdmittedBelowLimit(lim, Admitted(t, key) + more)
    ensures var all := Admitted(t, key) + more; forall i :: 0 <= i < |all| ==> all[i] <= now
  {
    ReadyBucket(lim, t, key, now);
    var cutoff, all := now - lim.windowMs, Admitted(t, key);
    assert kept == After(all, cutoff);
    AfterCounts(all, cutoff, now);
    StillTheSameAfter(WithBucket(lim, t.st, key).hits[key], all, cutoff, more);
    AdmittedMore(lim, all, now, more);
  }

  lemma {:induction false} CallKeepsOwnBucket<K>(lim: Limits, t: Traced<K>, key: K, now: int)
    requires GoodBucket(lim, t, now, key)
    ensures GoodBucket(lim, TracedStep(lim, t, Call(Some(key), now)), now, key)
  {
    ReadyBucket(lim, t, key, now);
    var kept := After(WithBucket(lim, t.st, key).hits[key], now - lim.windowMs);
    OwnStep(lim, t, key, now, kept);
    KeptHits(lim, t, key, now, kept, if |kept| < lim.maxHits then [now] else []);
  }

  lemma {:induction false} CallAnswers<K>(lim: Limits, t: Traced<K>, key: K, now: int)
    requires GoodBucket(lim, t, now, key)
    ensures ConsumeStep(lim, t.st, Some(key), now).1 <==>
            CountIn(Admitted(t, key), now - lim.windowMs, now) < lim.maxHits
  {
    ReadyBucket(lim, t, key, now);
    var kept := After(WithBucket(lim, t.st, key).hits[key], now - lim.windowMs);
    OwnStep(lim, t, key, now, kept);
    KeptHits(lim, t, key, now, kept, if |kept| < lim.maxHits then [now] else []);
  }

  lemma AdmittedMore(lim: Limits, all: seq<int>, now: int, more: seq<int>)
    requires AdmittedBelowLimit(lim, all) && forall i :: 0 <= i < |all| ==> all[i] <= now
    requires more == if |After(all, now - lim.windowMs)| < lim.maxHits then [now] else []
    ensures AdmittedBelowLimit(lim, all + more) && forall i :: 0 <= i < |all + more| ==> (all + more)[i] <= now
  {
    if more == [] {
      assert all + more == all;
    } else {
      BelowLimitAppend(lim, all, now);
    }
  }

  /** A call of another key at most evicts the bucket. */
  lemma OtherCallKeepsBucket<K>(lim: Limits, t: Traced<K>, c: Call<K>, now: int, key: K)
    requires GoodBucket(lim, t, now, key) && !Uses(c, key)
    ensures GoodBucket(lim, TracedStep(lim, t, c), now, key)
  {
    if c.client.Some? {
      EvictKeeps(t.st, lim.maxBuckets);
    }
  }

  lemma {:induction false} RunKeepsBucket<K>(lim: Limits, calls: seq<Call<K>>, key: K, now: int)
    requires Monotone(calls, key) && UpTo(calls, key, now)
    ensures GoodBucket(lim, TracedRun(lim, calls), now, key)
  {
    if calls != [] {
      var before, last := calls[..|calls| - 1], calls[|calls| - 1];
      assert forall i :: 0 <= i < |before| ==> before[i] == calls[i];
      if Uses(last, key) {
        RunKeepsBucket(lim, before, key, last.now);
        CallKeepsOwnBucket(lim, TracedRun(lim, before), key, last.now);
        assert last == Call(Some(key), last.now);
        LaterIsGood(lim, TracedRun(lim, calls), last.now, now, key);
      } else {
        RunKeepsBucket(lim, before, key, now);
        OtherCallKeepsBucket(lim, TracedRun(lim, before), last, now, key);
      }
    }
  }

  // ----- what the answers mean -----

  /** When the clock never went back between the calls of a key, a call is permitted exactly when fewer
      than maxHits of the hits that its bucket has admitted since its creation lie in (now - windowMs, now]. */
  lemma PermittedIffBelowLimit<K>(lim: Limits, calls: seq<Call<K>>, key: K, now: int)
    requires Monotone(calls, key) && UpTo(calls, key, now)
    ensures var t := TracedRun(lim, calls);
            ConsumeStep(lim, t.st, Some(key), now).1 <==>
            CountIn(Admitted(t, key), now - lim.windowMs, now) < lim.maxHits
  {
    RunKeepsBucket(lim, calls, key, now);
    CallAnswers(lim, TracedRun(lim, calls), key, now);
  }

  lemma {:induction false} WindowBound(lim: Limits, admitted: seq<int>, end: int)
    requires AdmittedBelowLimit(lim, admitted)
    ensures CountIn(admitted, end - lim.windowMs, end) <= Max(lim.maxHits, 0)
  {
    if admitted != [] {
      var n := |admitted| - 1;
      var rest, last := admitted[..n], admitted[n];
      forall j | 0 <= j < n ensures BelowLimitAt(lim, rest, j) {
        assert BelowLimitAt(lim, admitted, j) && rest[..j] == admitted[..j];
      }
      WindowBound(lim, rest, end);
      if end - lim.windowMs < last <= end {
        assert BelowLimitAt(lim, admitted, n);
        CountAtMostAfter(rest, end - lim.windowMs, end, last - lim.windowMs);
      }
    }
  }

  /** The latest call of a key, or any bound when there is none. */
  lemma {:induction false} LatestCall<K>(calls: seq<Call<K>>, key: K) returns (now: int)
    ensures UpTo(calls, key, now)
  {
    if calls == [] {
      now := 0;
    } else {
      var rest, last := calls[..|calls| - 1], calls[|calls| - 1];
      var before := LatestCall(rest, key);
      now := Max(before, last.now);
      assert forall i :: 0 <= i < |rest| ==> calls[i] == rest[i];
    }
  }

  /** Whatever the interval of that length, it holds at most maxHits admitted hits of a live bucket. */
  lemma EveryWindowIsBounded<K>(lim: Limits, calls: seq<Call<K>>, key: K, end: int)
    requires Monotone(calls, key)
    ensures CountIn(Admitted(TracedRun(lim, calls), key), end - lim.windowMs, end) <= Max(lim.maxHits, 0)
  {
    var now := LatestCall(calls, key);
    RunKeepsBucket(lim, calls, key, now);
    WindowBound(lim, Admitted(TracedRun(lim, calls), key), end);
  }

  // ----- the bucket map is bounded and first-in first-out -----

  /** The enumeration order lists every bucket once. */
  ghost predicate Ordered<K(!new)>(st: State<K>) {
    && (forall i, j :: 0 <= i < j < |st.order| ==> st.order[i] != st.order[j])
    && (forall k :: k in st.hits <==> k in st.order)
  }

  lemma {:induction false} EvictDropsOldest<K(!new)>(st: State<K>, cap: int)
    requires Ordered(st)
    ensures var room := EvictUntilUnderCap(st, cap);
            && Ordered(room)
            && (room.order == [] || |room.order| < cap)
            && |room.order| <= |st.order|
            && room.order == st.order[|st.order| - |room.order|..]
    decreases |st.order|
  {
    if st.order != [] && |st.order| >= cap {
      var less := State(st.order[1..], st.hits - {st.order[0]});
      assert forall k :: k in st.order <==> k == st.order[0] || k in less.order;
      EvictDropsOldest(less, cap);
    }
  }

  lemma CallKeepsOrder<K(!new)>(lim: Limits, st: State<K>, client: Option<K>, now: int)
    requires Ordered(st)
    ensures Ordered(ConsumeStep(lim, st, client, now).0)
    ensures |ConsumeStep(lim, st, client, now).0.order| <= Max(|st.order|, Max(lim.maxBuckets, 1))
  {
    if client.Some? {
      var key := client.value;
      EvictDropsOldest(st, lim.maxBuckets);
      var ready := WithBucket(lim, st, key);
      if key !in st.hits {
        var room := EvictUntilUnderCap(st, lim.maxBuckets);
        EvictKeeps(st, lim.maxBuckets);
        assert ready.order == room.order + [key];
      }
      assert key in ready.hits;
      ConsumeSplit(lim, st, key, now, After(ready.hits[key], now - lim.windowMs));
    }
  }

  /** The number of buckets never exceeds the cap, or one when the cap is below one. */
  lemma {:induction false} BucketsAreBounded<K(!new)>(lim: Limits, calls: seq<Call<K>>)
    ensures var st := TracedRun(lim, calls).st;
            Ordered(st) && |st.order| <= Max(lim.maxBuckets, 1)
  {
    if calls != [] {
      BucketsAreBounded(lim, calls[..|calls| - 1]);
      var before, last := TracedRun(lim, calls[..|calls| - 1]), calls[|calls| - 1];
      CallKeepsOrder(lim, before.st, last.client, last.now);
    }
  }

  // ----- which buckets are live -----

  /** Eviction makes room for one bucket and no more. */
  lemma {:induction false} EvictIsMinimal<K>(st: State<K>, cap: int)
    ensures var room := EvictUntilUnderCap(st, cap);
            && (|st.order| < cap ==> room == st)
            && (|st.order| >= cap ==> |room.order| == Max(cap - 1, 0))
    decreases |st.order|
  {
    if st.order != [] && |st.order| >= cap {
      EvictIsMinimal(State(st.order[1..], st.hits - {st.order[0]}), cap);
    }
  }

  function LastOnes<T>(s: seq<T>, n: nat): seq<T> {
    if |s| <= n then s else s[|s| - n..]
  }

  /** The keys in the order in which their buckets were opened, told by the calls alone: a call opens a
      bucket when its key is not among the last n opened ones. */
  function Openings<K(==)>(calls: seq<Call<K>>, n: nat): seq<K> {
    if calls == [] then []
    else
      var before, c := Openings(calls[..|calls| - 1], n), calls[|calls| - 1].client;
      if c.None? || c.value in LastOnes(before, n) then before else before + [c.value]
  }

  function Room(lim: Limits): nat {
    Max(lim.maxBuckets, 1)
  }

  lemma LastOnesMore<T>(s: seq<T>, x: T, n: nat)
    requires n > 0
    ensures LastOnes(s + [x], n) == LastOnes(LastOnes(s, n), n - 1) + [x]
  {
  }

  lemma LastOnesOf<T>(s: seq<T>, t: seq<T>, n: nat)
    requires |t| <= |s| && t == s[|s| - |t|..] && |t| == if |s| <= n then |s| else n
    ensures t == LastOnes(s, n)
  {
  }

  lemma InLastOnes<T>(s: seq<T>, x: T, n: nat)
    ensures x in LastOnes(s, n) <==> exists i :: 0 <= i < |s| && s[i] == x && |s| - 1 - i < n
  {
    var last := LastOnes(s, n);
    var m := |s| - |last|;
    assert forall k :: 0 <= k < |last| ==> last[k] == s[m + k];
    if x in last {
      var k :| 0 <= k < |last| && last[k] == x;
      assert s[m + k] == x;
    }
    if i :| 0 <= i < |s| && s[i] == x && |s| - 1 - i < n {
      assert last[i - m] == x;
    }
  }

  /** The bucket map after a call that opens a bucket. */
  lemma {:induction false} OpeningShifts<K(!new)>(lim: Limits, st: State<K>, key: K, now: int)
    requires Ordered(st) && |st.order| <= Room(lim) && key !in st.hits
    ensures ConsumeStep(lim, st, Some(key), now).0.order == LastOnes(st.order, Room(lim) - 1) + [key]
  {
    EvictDropsOldest(st, lim.maxBuckets);
    EvictIsMinimal(st, lim.maxBuckets);
    var room := EvictUntilUnderCap(st, lim.maxBuckets);
    LastOnesOf(st.order, room.order, Room(lim) - 1);
    var ready := WithBucket(lim, st, key);
    assert ready.order == room.order + [key] && key in ready.hits;
    ConsumeSplit(lim, st, key, now, After(ready.hits[key], now - lim.windowMs));
  }

  lemma StayingKeepsOrder<K>(lim: Limits, st: State<K>, key: K, now: int)
    requires key in st.hits
    ensures ConsumeStep(lim, st, Some(key), now).0.order == st.order
  {
    ConsumeSplit(lim, st, key, now, After(st.hits[key], now - lim.windowMs));
  }

  /** The live buckets are the last ones opened, as many as there is room for, in the order of opening. */
  lemma {:induction false} LiveBucketsAreTheLastOpened<K(!new)>(lim: Limits, calls: seq<Call<K>>)
    ensures TracedRun(lim, calls).st.order == LastOnes(Openings(calls, Room(lim)), Room(lim))
    ensures forall key :: key in TracedRun(lim, calls).st.hits <==> key in LastOnes(Openings(calls, Room(lim)), Room(lim))
  {
    BucketsAreBounded(lim, calls);
    if calls != [] {
      var init, last := calls[..|calls| - 1], calls[|calls| - 1];
      LiveBucketsAreTheLastOpened(lim, init);
      var st := TracedRun(lim, init).st;
      if last.client.Some? {
        BucketsAreBounded(lim, init);
        var key := last.client.value;
        if key in st.hits {
          StayingKeepsOrder(lim, st, key, last.now);
        } else {
          OpeningShifts(lim, st, key, last.now);
          LastOnesMore(Openings(init, Room(lim)), key, Room(lim));
        }
      }
    }
  }

  /** So a bucket is live exactly when it was opened and fewer than maxBuckets (at least one) have been
      opened since. */
  lemma {:induction false} LiveIff<K(!new)>(lim: Limits, calls: seq<Call<K>>, key: K)
    ensures var keys := Openings(calls, Room(lim));
            key in TracedRun(lim, calls).st.hits <==>
            exists i :: 0 <= i < |keys| && keys[i] == key && |keys| - 1 - i < Max(lim.maxBuckets, 1)
  {
    LiveBucketsAreTheLastOpened(lim, calls);
    InLastOnes(Openings(calls, Room(lim)), key, Room(lim));
  }

  /** A call without a usable key is permitted and changes nothing. */
  lemma NoKeyIsPermitted<K>(lim: Limits, st: State<K>, now: int)
    ensures ConsumeStep(lim, st, None, now) == (st, true)
  {
  }

  /** A limiter with the one bucket 0. */
  function One(stored: seq<int>, all: seq<int>): Traced<int> {
    Traced(State([0], map[0 := stored]), map[0 := all])
  }

  lemma OneStep(lim: Limits, stored: seq<int>, all: seq<int>, now: int, kept: seq<int>)
    requires kept == After(stored, now - lim.windowMs) && |kept| < lim.maxHits
    ensures TracedStep(lim, One(stored, all), Call(Some(0), now)) == One(kept + [now], all + [now])
  {
    ConsumeSplit(lim, One(stored, all).st, 0, now, kept);
  }

  lemma RunAppend<K>(lim: Limits, calls: seq<Call<K>>, c: Call<K>)
    ensures TracedRun(lim, calls + [c]) == TracedStep(lim, TracedRun(lim, calls), c)
  {
    assert (calls + [c])[..|calls|] == calls;
  }

  lemma FirstStep(lim: Limits, now: int)
    requires lim.maxHits > 0
    ensures TracedStep(lim, Fresh(), Call(Some(0), now)) == One([now], [now])
  {
    var empty: State<int> := State([], map[]);
    assert WithBucket(lim, empty, 0) == State([0], map[0 := []]);
    ConsumeSplit(lim, empty, 0, now, []);
    assert [] + [now] == [now];
  }

  function Hit(now: int): Call<int> {
    Call(Some(0), now)
  }

  lemma NextHit(
    lim: Limits, calls: seq<Call<int>>, stored: seq<int>, all: seq<int>, now: int,
    kept: seq<int>, stored': seq<int>, all': seq<int>)
    requires TracedRun(lim, calls) == One(stored, all)
    requires kept == After(stored, now - lim.windowMs) && |kept| < lim.maxHits
    requires stored' == kept + [now] && all' == all + [now]
    ensures TracedRun(lim, calls + [Hit(now)]) == One(stored', all')
  {
    RunAppend(lim, calls, Hit(now));
    OneStep(lim, stored, all, now, kept);
  }

  function Repeat(x: int, n: nat): (s: seq<int>)
    ensures |s| == n && forall i :: 0 <= i < n ==> s[i] == x
  {
    seq(n, i => x)
  }

  lemma RepeatMore(x: int, n: nat)
    ensures Repeat(x, n + 1) == Repeat(x, n) + [x]
  {
  }

  lemma {:induction false} AfterRepeat(x: int, n: nat, cutoff: int)
    ensures After(Repeat(x, n), cutoff) == if x > cutoff then Repeat(x, n) else []
  {
    if n > 0 {
      AfterRepeat(x, n - 1, cutoff);
      RepeatMore(x, n - 1);
      AfterAppend(Repeat(x, n - 1), x, cutoff);
    }
  }

  lemma {:induction false} CountRepeat(x: int, n: nat, lo: int, hi: int)
    ensures CountIn(Repeat(x, n), lo, hi) == if lo < x <= hi then n else 0
  {
    if n > 0 {
      CountRepeat(x, n - 1, lo, hi);
      RepeatMore(x, n - 1);
      CountAppend(Repeat(x, n - 1), x, lo, hi);
    }
  }

  function Hits(n: nat): (calls: seq<Call<int>>)
    ensures |calls| == n && forall i :: 0 <= i < n ==> calls[i] == Hit(0)
  {
    seq(n, i => Hit(0))
  }

  lemma HitsMore(n: nat)
    ensures Hits(n + 1) == Hits(n) + [Hit(0)]
  {
  }

  lemma {:induction false} BurstMore(lim: Limits, calls: seq<Call<int>>, n: nat)
    requires 1 <= n < lim.maxHits && lim.windowMs > 0
    requires TracedRun(lim, calls) == One(Repeat(0, n), Repeat(0, n))
    ensures TracedRun(lim, calls + [Hit(0)]) == One(Repeat(0, n + 1), Repeat(0, n + 1))
  {
    AfterRepeat(0, n, 0 - lim.windowMs);
    RepeatMore(0, n);
    NextHit(lim, calls, Repeat(0, n), Repeat(0, n), 0, Repeat(0, n), Repeat(0, n + 1), Repeat(0, n + 1));
  }

  lemma FirstHit(lim: Limits)
    requires lim.maxHits > 0
    ensures TracedRun(lim, [] + [Hit(0)]) == One(Repeat(0, 1), Repeat(0, 1))
  {
    FirstStep(lim, 0);
    RunAppend(lim, [], Hit(0));
    assert Repeat(0, 1) == [0];
  }

  /** The bucket is filled with n hits at 0. */
  lemma {:induction false} Burst(lim: Limits, n: nat)
    requires 1 <= n <= lim.maxHits && lim.windowMs > 0
    ensures TracedRun(lim, Hits(n)) == One(Repeat(0, n), Repeat(0, n))
  {
    HitsMore(n - 1);
    if n == 1 {
      FirstHit(lim);
      assert Hits(0) == [];
    } else {
      Burst(lim, n - 1);
      BurstMore(lim, Hits(n - 1), n - 1);
    }
  }

  /** A burst at 0, a hit at w and one with the clock stepped back by m. */
  function StepBackCalls(n: nat, w: int, m: int): seq<Call<int>> {
    Hits(n) + [Hit(w)] + [Hit(w - m)]
  }

  lemma StepsBackBy(n: nat, w: int, m: nat)
    requires 1 <= m <= w
    ensures BackAtMost(StepBackCalls(n, w, m), 0, m)
  {
    var calls := StepBackCalls(n, w, m);
    assert forall i :: 0 <= i < |calls| ==> calls[i].now == if i < n then 0 else if i == n then w else w - m;
  }

  lemma OneAfter(x: int, cutoff: int)
    requires x > cutoff
    ensures After([x], cutoff) == [x]
  {
    AfterAppend([], x, cutoff);
    assert [] + [x] == [x];
  }

  /** After a full burst a hit one window later drops it; with the clock stepped back there is room for a
      further hit, whose window still holds the burst. */
  lemma {:induction false} StepBackRun(lim: Limits, n: nat, m: nat)
    requires n == lim.maxHits >= 2 && 1 <= m <= lim.windowMs
    ensures var w := lim.windowMs;
            TracedRun(lim, StepBackCalls(n, w, m)) == One([w, w - m], Repeat(0, n) + [w] + [w - m])
  {
    var w, full := lim.windowMs, Repeat(0, n);
    Burst(lim, n);
    AfterRepeat(0, n, 0);
    assert [] + [w] == [w];
    NextHit(lim, Hits(n), full, full, w, [], [w], full + [w]);
    OneAfter(w, 0 - m);
    assert [w] + [w - m] == [w, w - m];
    NextHit(lim, Hits(n) + [Hit(w)], [w], full + [w], w - m, [w], [w, w - m], full + [w] + [w - m]);
  }

  lemma StepBackCount(n: nat, w: int, m: nat)
    requires 1 <= m <= w
    ensures CountIn(Repeat(0, n) + [w] + [w - m], 0 - m, w - m) == n + 1
  {
    CountRepeat(0, n, 0 - m, w - m);
    CountAppend(Repeat(0, n), w, 0 - m, w - m);
    CountAppend(Repeat(0, n) + [w], w - m, 0 - m, w - m);
  }

  /** The window that ends at `end` holds no more admitted hits than it should. */
  ghost predicate WindowHolds(lim: Limits, calls: seq<Call<int>>, key: int, end: int) {
    CountIn(Admitted(TracedRun(lim, calls), key), end - lim.windowMs, end) <= Max(lim.maxHits, 0)
  }

  lemma WindowOfOne(lim: Limits, calls: seq<Call<int>>, stored: seq<int>, all: seq<int>, end: int)
    requires TracedRun(lim, calls) == One(stored, all)
    ensures WindowHolds(lim, calls, 0, end) <==> CountIn(all, end - lim.windowMs, end) <= Max(lim.maxHits, 0)
  {
  }

  lemma {:induction false} StepBackExceeds(lim: Limits, n: nat, m: nat, calls: seq<Call<int>>)
    requires n == lim.maxHits >= 2 && 1 <= m <= lim.windowMs && calls == StepBackCalls(n, lim.windowMs, m)
    ensures !WindowHolds(lim, calls, 0, lim.windowMs - m)
  {
    var w, all := lim.windowMs, Repeat(0, n) + [lim.windowMs] + [lim.windowMs - m];
    StepBackCount(n, w, m);
    StepBackRun(lim, n, m);
    WindowOfOne(lim, calls, [w, w - m], all, w - m);
  }

  /** With a clock that steps back, by however little, the guarantee is lost for every limit of two or
      more hits. */
  lemma {:induction false} ClockStepBackAdmitsTooMuch(lim: Limits, step: nat)
    requires lim.maxHits >= 2 && lim.windowMs > 0 && step > 0
    ensures exists calls: seq<Call<int>>, end: int :: BackAtMost(calls, 0, step) && !WindowHolds(lim, calls, 0, end)
  {
    var m: nat := if step < lim.windowMs then step else lim.windowMs;
    var calls := StepBackCalls(lim.maxHits, lim.windowMs, m);
    StepsBackBy(lim.maxHits, lim.windowMs, m);
    StepBackExceeds(lim, lim.maxHits, m, calls);
    assert BackAtMost(calls, 0, step);
  }

  // ----- limits that need no clock -----

  /** Admitted hits lie a window apart. */
  ghost predicate Spaced(hits: seq<int>, w: int) {
    forall i, j :: 0 <= i < j < |hits| ==> hits[i] + w <= hits[j]
  }

  function LastOf(hits: seq<int>): seq<int> {
    if hits == [] then [] else [hits[|hits| - 1]]
  }

  /** With at most one hit allowed, a bucket holds exactly the last admitted hit. */
  ghost predicate SingleBucket<K>(lim: Limits, t: Traced<K>, key: K) {
    key in t.st.hits ==>
      && key in t.admitted
      && Spaced(t.admitted[key], lim.windowMs)
      && t.st.hits[key] == LastOf(t.admitted[key])
      && (lim.maxHits <= 0 ==> t.admitted[key] == [])
  }

  ghost predicate SingleBuckets<K(!new)>(lim: Limits, t: Traced<K>) {
    forall key :: SingleBucket(lim, t, key)
  }

  lemma AfterLast(hits: seq<int>, cutoff: int)
    ensures After(LastOf(hits), cutoff) == if hits != [] && hits[|hits| - 1] > cutoff then LastOf(hits) else []
  {
    if hits != [] {
      AfterAppend([], hits[|hits| - 1], cutoff);
      assert [] + LastOf(hits) == LastOf(hits);
    }
  }

  lemma SpacedAppend(hits: seq<int>, w: int, now: int)
    requires Spaced(hits, w) && w > 0 && (hits != [] ==> hits[|hits| - 1] + w <= now)
    ensures Spaced(hits + [now], w) && LastOf(hits + [now]) == [now]
  {
    forall i | 0 <= i < |hits| ensures hits[i] + w <= now {
      assert i < |hits| - 1 ==> hits[i] + w <= hits[|hits| - 1];
    }
  }

  lemma {:induction false} CallKeepsSingle<K(!new)>(lim: Limits, t: Traced<K>, key: K, now: int)
    requires lim.maxHits <= 1 && lim.windowMs > 0 && SingleBuckets(lim, t)
    ensures SingleBucket(lim, TracedStep(lim, t, Call(Some(key), now)), key)
  {
    assert SingleBucket(lim, t, key);
    var all, cutoff := Admitted(t, key), now - lim.windowMs;
    EvictKeeps(t.st, lim.maxBuckets);
    assert WithBucket(lim, t.st, key).hits[key] == LastOf(all);
    AfterLast(all, cutoff);
    var kept := After(LastOf(all), cutoff);
    ConsumeSplit(lim, t.st, key, now, kept);
    if |kept| < lim.maxHits {
      SpacedAppend(all, lim.windowMs, now);
      assert kept == [] && kept + [now] == [now];
    } else {
      assert all + [] == all;
      assert kept == LastOf(all);
    }
  }

  lemma {:induction false} RunKeepsSingle<K(!new)>(lim: Limits, calls: seq<Call<K>>)
    requires lim.maxHits <= 1 && lim.windowMs > 0
    ensures SingleBuckets(lim, TracedRun(lim, calls))
  {
    if calls != [] {
      var t, c := TracedRun(lim, calls[..|calls| - 1]), calls[|calls| - 1];
      RunKeepsSingle(lim, calls[..|calls| - 1]);
      if c.client.Some? {
        CallKeepsSingle(lim, t, c.client.value, c.now);
        EvictKeeps(t.st, lim.maxBuckets);
        forall key ensures SingleBucket(lim, TracedStep(lim, t, c), key) {
          assert SingleBucket(lim, t, key);
        }
      }
    }
  }

  lemma {:induction false} CountOutside(hits: seq<int>, lo: int, hi: int)
    requires hi <= lo || forall i :: 0 <= i < |hits| ==> hits[i] <= lo
    ensures CountIn(hits, lo, hi) == 0
  {
    if hits != [] {
      CountOutside(hits[..|hits| - 1], lo, hi);
    }
  }

  lemma {:induction false} SpacedCount(hits: seq<int>, w: int, end: int)
    requires Spaced(hits, w) && w > 0
    ensures CountIn(hits, end - w, end) <= 1
  {
    if hits != [] {
      var n := |hits| - 1;
      var rest, last := hits[..n], hits[n];
      if end - w < last <= end {
        CountOutside(rest, end - w, end);
      } else {
        SpacedCount(rest, w, end);
      }
    }
  }

  /** With at most one hit allowed, or with an empty window, the bound holds whatever the clock does. */
  lemma SingleHitNeedsNoClock<K(!new)>(lim: Limits, calls: seq<Call<K>>, key: K, end: int)
    requires lim.maxHits <= 1 || lim.windowMs <= 0
    ensures CountIn(Admitted(TracedRun(lim, calls), key), end - lim.windowMs, end) <= Max(lim.maxHits, 0)
  {
    var admitted := Admitted(TracedRun(lim, calls), key);
    if lim.windowMs <= 0 {
      CountOutside(admitted, end - lim.windowMs, end);
    } else {
      RunKeepsSingle(lim, calls);
      assert SingleBucket(lim, TracedRun(lim, calls), key);
      SpacedCount(admitted, lim.windowMs, end);
    }
  }

  /** The bound holds in every run whose clock steps back by at most `step` between calls of the key
      exactly when it never steps back or the limits need no clock. */
  lemma {:induction false} BoundHoldsIff(lim: Limits, step: nat)
    ensures (forall calls: seq<Call<int>>, key: int, end: int ::
               BackAtMost(calls, key, step) ==> WindowHolds(lim, calls, key, end)) <==>
            step == 0 || lim.maxHits <= 1 || lim.windowMs <= 0
  {
    if step == 0 || lim.maxHits <= 1 || lim.windowMs <= 0 {
      forall calls: seq<Call<int>>, key: int, end: int | BackAtMost(calls, key, step)
        ensures WindowHolds(lim, calls, key, end)
      {
        if step == 0 {
          EveryWindowIsBounded(lim, calls, key, end);
        } else {
          SingleHitNeedsNoClock(lim, calls, key, end);
        }
      }
    } else {
      ClockStepBackAdmitsTooMuch(lim, step);
    }
  }

  /** So it holds whatever the clock does exactly for the limits that need no clock. */
  lemma BoundNeedsNoClockIff(lim: Limits)
    ensures (forall calls: seq<Call<int>>, key: int, end: int :: WindowHolds(lim, calls, key, end)) <==>
            lim.maxHits <= 1 || lim.windowMs <= 0
  {
    if lim.maxHits <= 1 || lim.windowMs <= 0 {
      forall calls: seq<Call<int>>, key: int, end: int ensures WindowHolds(lim, calls, key, end) {
        SingleHitNeedsNoClock(lim, calls, key, end);
      }
    } else {
      ClockStepBackAdmitsTooMuch(lim, 1);
    }
  }
}
