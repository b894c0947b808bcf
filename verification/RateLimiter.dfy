/**
 The in-process sliding-window rate limiter: buckets of admitted hits, compacted in place on
 every call and evicted first-in first-out.

 `ConsumeStep` says what one call does to the buckets; class Limiter does it on mutable arrays.
 The history lemmas say what the answers mean.
 */
module RateLimiter {
  import opened Prelude

  datatype Limits = Limits(maxHits: int, windowMs: int, maxBuckets: int)

  /** Buckets in order of creation, as the JavaScript Map enumerates them. */
  datatype State<K(==)> = State(order: seq<K>, hits: map<K, seq<int>>)

  /** The hits later than the cutoff, in order. */
  function After(hits: seq<int>, cutoff: int): seq<int> {
    if hits == [] then []
    else
      var last := hits[|hits| - 1];
      After(hits[..|hits| - 1], cutoff) + (if last > cutoff then [last] else [])
  }

  function EvictUntilUnderCap<K(==)>(st: State<K>, cap: int): State<K>
    decreases |st.order|
  {
    if st.order == [] || |st.order| < cap then st
    else EvictUntilUnderCap(State(st.order[1..], st.hits - {st.order[0]}), cap)
  }

  function WithBucket<K(==)>(lim: Limits, st: State<K>, key: K): State<K> {
    if key in st.hits then st
    else
      var room := EvictUntilUnderCap(st, lim.maxBuckets);
      State(room.order + [key], room.hits[key := []])
  }

  /** `None` stands for a key that is empty or no string: such a call is always permitted. */
  function ConsumeStep<K(==)>(lim: Limits, st: State<K>, client: Option<K>, now: int): (State<K>, bool) {
    if client.None? then (st, true)
    else
      var key := client.value;
      var ready := WithBucket(lim, st, key);
      var kept := if key in ready.hits then After(ready.hits[key], now - lim.windowMs) else [];
      if |kept| >= lim.maxHits then (ready.(hits := ready.hits[key := kept]), false)
      else (ready.(hits := ready.hits[key := kept + [now]]), true)
  }

  /** The same step, split at the point where the bucket exists and has been compacted. */
  lemma ConsumeSplit<K>(lim: Limits, st: State<K>, key: K, now: int, kept: seq<int>)
    requires var ready := WithBucket(lim, st, key); key in ready.hits && kept == After(ready.hits[key], now - lim.windowMs)
    ensures ConsumeStep(lim, st, Some(key), now) ==
            var ready := WithBucket(lim, st, key);
            var permitted := |kept| < lim.maxHits;
            (State(ready.order, ready.hits[key := if permitted then kept + [now] else kept]), permitted)
  {
  }

  lemma MapUpdateTwice<K, V>(m: map<K, V>, key: K, first: V, second: V)
    ensures m[key := first][key := second] == m[key := second]
  {
  }

  // ----- the limiter object -----

  /** Drops the hits at or before the cutoff in one pass with a read and a write index. */
  method Compact(timestamps: array<int>, length: nat, cutoff: int) returns (writeIndex: nat)
    requires length <= timestamps.Length
    modifies timestamps
    ensures writeIndex <= length
    ensures timestamps[..writeIndex] == After(old(timestamps[..length]), cutoff)
  {
    ghost var was := timestamps[..length];
    writeIndex := 0;
    for readIndex := 0 to length
      invariant writeIndex <= readIndex
      invariant timestamps[..writeIndex] == After(was[..readIndex], cutoff)
      invariant forall k :: readIndex <= k < length ==> timestamps[k] == was[k]
    {
      assert was[..readIndex + 1][..readIndex] == was[..readIndex];
      var ts := timestamps[readIndex];
      if ts > cutoff {
        timestamps[writeIndex] := ts;
        writeIndex := writeIndex + 1;
      }
    }
    assert was[..length] == was;
  }

  /** A bucket is an array with room for maxHits hits and the length that is in use. */
  class Limiter<K(==)> {
    const limits: Limits
    var order: seq<K>
    var buckets: map<K, array<int>>
    var lengths: map<K, nat>
    ghost var hits: map<K, seq<int>>           // the contents of the buckets
    ghost var Repr: set<array<int>>

    ghost predicate Holds(key: K)
      requires key in buckets
      reads this, buckets[key]
    {
      var b := buckets[key];
      && key in lengths && lengths[key] <= b.Length
      && lengths[key] <= Max(limits.maxHits, 0) <= b.Length
      && key in hits && b[..lengths[key]] == hits[key]
    }

    ghost predicate Valid()
      reads this, Repr
    {
      && (forall k :: k in hits ==> k in buckets)
      && (forall k :: k in buckets ==> buckets[k] in Repr)
      && (forall k :: k in buckets ==> Holds(k))
      && (forall k, l :: k in buckets && l in buckets && k != l ==> buckets[k] != buckets[l])
    }

    ghost function View(): State<K>
      reads this
    {
      State(order, hits)
    }

    constructor (limits: Limits)
      ensures this.limits == limits && Valid() && View() == State([], map[])
    {
      this.limits := limits;
      order := [];
      buckets := map[];
      lengths := map[];
      hits := map[];
      Repr := {};
    }

    method DropOldest()
      requires Valid() && order != []
      modifies this`order, this`buckets, this`hits
      ensures Valid()
      ensures order == old(order)[1..] && hits == old(hits) - {old(order)[0]}
    {
      var oldest := order[0];
      order := order[1..];
      buckets := buckets - {oldest};
      hits := hits - {oldest};
    }

    method Evict()
      requires Valid()
      modifies this`order, this`buckets, this`hits
      ensures Valid() && View() == EvictUntilUnderCap(old(View()), limits.maxBuckets)
    {
      while |order| >= limits.maxBuckets && order != []
        invariant Valid()
        invariant EvictUntilUnderCap(View(), limits.maxBuckets) == EvictUntilUnderCap(old(View()), limits.maxBuckets)
        decreases |order|
      {
        DropOldest();
      }
    }

    method Add(key: K)
      requires Valid()
      modifies this
      ensures Valid() && key in buckets && fresh(Repr - old(Repr))
      ensures order == old(order) + [key] && hits == old(hits)[key := []]
    {
      var timestamps := new int[Max(limits.maxHits, 0)];
      order, buckets, lengths := order + [key], buckets[key := timestamps], lengths[key := 0];
      hits, Repr := hits[key := []], Repr + {timestamps};
      assert Holds(key);
      forall k | k in buckets && k != key ensures Holds(k) && buckets[k] != timestamps {
        assert old(Holds(k));
      }
    }

    /** Makes the bucket of a key on first use, after making room. */
    method Open(key: K)
      requires Valid()
      modifies this
      ensures Valid() && key in buckets && key in hits && fresh(Repr - old(Repr))
      ensures View() == WithBucket(limits, old(View()), key)
    {
      if key !in buckets {
        Evict();
        Add(key);
      }
    }

    method CompactBucket(key: K, cutoff: int) returns (length: nat)
      requires Valid() && key in buckets
      modifies this`lengths, this`hits, buckets[key]
      ensures Valid() && key in old(hits)
      ensures length == |After(old(hits)[key], cutoff)|
      ensures hits == old(hits)[key := After(old(hits)[key], cutoff)]
    {
      assert Holds(key);
      var timestamps := buckets[key];
      length := Compact(timestamps, lengths[key], cutoff);
      lengths := lengths[key := length];
      hits := hits[key := timestamps[..length]];
      forall k | k in buckets && k != key ensures Holds(k) {
        assert old(Holds(k));
      }
    }

    method Record(key: K, now: int)
      requires Valid() && key in buckets && key in hits && |hits[key]| < limits.maxHits
      modifies this`lengths, this`hits, buckets[key]
      ensures Valid() && hits == old(hits)[key := old(hits)[key] + [now]]
    {
      assert Holds(key);
      var timestamps, length := buckets[key], lengths[key];
      timestamps[length] := now;
      assert timestamps[..length + 1] == hits[key] + [now];
      lengths := lengths[key := length + 1];
      hits := hits[key := hits[key] + [now]];
    }

    /** Compacts an existing bucket and records the hit if there is room for it. */
    method Admit(key: K, now: int) returns (permitted: bool)
      requires Valid() && key in buckets && key in hits
      modifies this`lengths, this`hits, buckets[key]
      ensures Valid()
      ensures permitted == (|After(old(hits)[key], now - limits.windowMs)| < limits.maxHits)
      ensures var kept := After(old(hits)[key], now - limits.windowMs);
              hits == old(hits)[key := if permitted then kept + [now] else kept]
    {
      ghost var before, kept := hits, After(hits[key], now - limits.windowMs);
      var length := CompactBucket(key, now - limits.windowMs);
      permitted := length < limits.maxHits;
      if permitted {
        MapUpdateTwice(before, key, kept, kept + [now]);
        Record(key, now);
      }
    }

    method Consume(client: Option<K>, now: int) returns (permitted: bool)
      requires Valid()
      modifies this, Repr
      ensures Valid() && fresh(Repr - old(Repr))
      ensures View() == ConsumeStep(limits, old(View()), client, now).0
      ensures permitted == ConsumeStep(limits, old(View()), client, now).1
    {
      if client.None? {
        return true;
      }
      Open(client.value);
      ConsumeSplit(limits, old(View()), client.value, now, After(hits[client.value], now - limits.windowMs));
      permitted := Admit(client.value, now);
    }
  }
}
