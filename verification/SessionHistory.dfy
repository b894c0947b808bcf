/**
 What the replies of the session store mean: a history of openings, accesses, preferences,
 logouts and cap evictions decides every reply. The idle sweep leaves no trace in it.
 */
module SessionHistory {
  import opened Prelude
  import opened SessionStore

  datatype Event =
    | Opened(id: string, record: Record)
    | Touched(id: string, now: int)
    | Preferred(id: string, programId: string, trustCaseId: string)
    | Closed(id: string)
    | Evicted(id: string)

  /** The life of a session: over (or never begun), or alive since its last access. */
  datatype Life = Over | Alive(record: Record, lastAccessMs: int)

  function Next(life: Life, e: Event): Life {
    match e
    case Opened(_, record) => Alive(record, record.createdAt)
    case Touched(_, now) => if life.Alive? then Alive(life.record, now) else Over
    case Preferred(_, p, t) =>
      if life.Alive? then Alive(life.record.(preferences := life.record.preferences[p := t]), life.lastAccessMs) else Over
    case Closed(_) => Over
    case Evicted(_) => Over
  }

  function LifeOf(log: seq<Event>, id: string): Life {
    if log == [] then Over
    else
      var e, before := log[|log| - 1], LifeOf(log[..|log| - 1], id);
      if e.id == id then Next(before, e) else before
  }

  // ----- the history of a run -----

  function EvictedIds(before: seq<string>, after: seq<string>): seq<string> {
    if |before| <= |after| then [] else before[..|before| - |after|]
  }

  function Evictions(ids: seq<string>): seq<Event> {
    seq(|ids|, i requires 0 <= i < |ids| => Evicted(ids[i]))
  }

  function TouchEvents(cfg: Config, st: State, id: string, now: int): seq<Event> {
    if GetStep(cfg, st, id, now).1.Session? then [Touched(id, now)] else []
  }

  function EventsOf(cfg: Config, st: State, op: Op): seq<Event> {
    match op
    case Create(identity, id, secret, now) =>
      if !cfg.accepts(identity) then []
      else
        var swept := Sweep(cfg, st, now);
        var room := EvictUntilUnderCap(swept, cfg.maxSessions);
        Evictions(EvictedIds(swept.order, room.order)) + [Opened(id, Record(id, identity, secret, map[], now))]
    case Get(id, now) => TouchEvents(cfg, st, id, now)
    case GetPreference(id, _, now) => TouchEvents(cfg, st, id, now)
    case SetPreference(id, programId, trustCaseId, now) =>
      TouchEvents(cfg, st, id, now) +
      (if SetPreferenceStep(cfg, st, id, programId, trustCaseId, now).1.Session?
       then [Preferred(id, programId, trustCaseId)] else [])
    case Delete(id) => if id == "" then [] else [Closed(id)]
  }

  datatype Traced = Traced(st: State, log: seq<Event>)

  function Run(cfg: Config, ops: seq<Op>): Traced {
    if ops == [] then Traced(EmptyState(), [])
    else
      var before, op := Run(cfg, ops[..|ops| - 1]), ops[|ops| - 1];
      Traced(Step(cfg, before.st, op).0, before.log + EventsOf(cfg, before.st, op))
  }

  /** The clock readings of a run never go back, and none is later than `now`. */
  ghost predicate ClockUpTo(ops: seq<Op>, now: int) {
    && (forall i :: 0 <= i < |ops| && !ops[i].Delete? ==> ops[i].now <= now)
    && (forall i, j :: 0 <= i < j < |ops| && !ops[i].Delete? && !ops[j].Delete? ==> ops[i].now <= ops[j].now)
  }

  // ----- the invariant -----

  predicate Distinct(ids: seq<string>) {
    forall i, j :: 0 <= i < j < |ids| ==> ids[i] != ids[j]
  }

  /** The enumeration order lists every session once. */
  ghost predicate Ordered(st: State) {
    && Distinct(st.order)
    && (forall id :: id in st.entries <==> id in st.order)
  }

  /** The map holds what the history says, except for sessions that have timed out. */
  predicate Agrees(cfg: Config, st: State, life: Life, id: string, now: int) {
    match life
    case Over => id !in st.entries
    case Alive(record, last) =>
      if id in st.entries then st.entries[id].record == record && st.entries[id].lastAccessMs == last
      else Idle(cfg, last, now)
  }

  ghost predicate HistoryInv(cfg: Config, st: State, log: seq<Event>, now: int) {
    forall id :: Agrees(cfg, st, LifeOf(log, id), id, now)
  }

  lemma LifeAppend(log: seq<Event>, e: Event, id: string)
    ensures LifeOf(log + [e], id) == if e.id == id then Next(LifeOf(log, id), e) else LifeOf(log, id)
  {
    assert (log + [e])[..|log|] == log;
  }

  lemma {:induction false} LifeUntouched(log: seq<Event>, more: seq<Event>, id: string)
    requires forall i :: 0 <= i < |more| ==> more[i].id != id
    ensures LifeOf(log + more, id) == LifeOf(log, id)
  {
    if more == [] {
      assert log + more == log;
    } else {
      var init := more[..|more| - 1];
      LifeUntouched(log, init, id);
      LifeAppend(log + init, more[|more| - 1], id);
      assert log + more == (log + init) + [more[|more| - 1]];
    }
  }

  lemma {:induction false} LifeEvicted(log: seq<Event>, ids: seq<string>, id: string)
    ensures LifeOf(log + Evictions(ids), id) == if id in ids then Over else LifeOf(log, id)
  {
    if ids == [] {
      assert log + Evictions(ids) == log;
    } else {
      var init, last := ids[..|ids| - 1], ids[|ids| - 1];
      LifeEvicted(log, init, id);
      LifeAppend(log + Evictions(init), Evicted(last), id);
      assert log + Evictions(ids) == (log + Evictions(init)) + [Evicted(last)];
      assert ids == init + [last];
    }
  }

  lemma {:induction false} RemoveContents(order: seq<string>, id: string)
    ensures forall x :: x in Remove(order, id) <==> x in order && x != id
    ensures |Remove(order, id)| <= |order|
  {
    if order != [] {
      RemoveContents(order[1..], id);
    }
  }

  lemma {:induction false} RemoveDistinct(order: seq<string>, id: string)
    requires Distinct(order)
    ensures Distinct(Remove(order, id))
  {
    if order != [] {
      RemoveDistinct(order[1..], id);
      RemoveContents(order[1..], id);
      var rest := Remove(order[1..], id);
      assert forall i :: 0 <= i < |rest| ==> rest[i] in order[1..];
      assert order[0] !in order[1..];
    }
  }

  lemma DropOrdered(st: State, id: string)
    requires Ordered(st)
    ensures Ordered(Drop(st, id)) && |Drop(st, id).order| <= |st.order|
  {
    RemoveContents(st.order, id);
    RemoveDistinct(st.order, id);
  }

  /** The sweep removes nothing but sessions that have timed out. */
  lemma {:induction false} SweepRemovesIdle(cfg: Config, st: State, ids: seq<string>, now: int)
    requires Ordered(st) && cfg.idleTimeoutMs > 0
    ensures var swept := SweepUpTo(cfg, st, ids, now);
            && Ordered(swept) && |swept.order| <= |st.order|
            && (forall id :: id in swept.entries ==> id in st.entries && swept.entries[id] == st.entries[id])
            && (forall id :: id in st.entries && id !in swept.entries ==> Idle(cfg, st.entries[id].lastAccessMs, now))
  {
    if ids != [] {
      var swept, id := SweepUpTo(cfg, st, ids[..|ids| - 1], now), ids[|ids| - 1];
      SweepRemovesIdle(cfg, st, ids[..|ids| - 1], now);
      DropOrdered(swept, id);
    }
  }

  lemma SweepKeeps(cfg: Config, st: State, now: int)
    requires Ordered(st)
    ensures var swept := Sweep(cfg, st, now);
            && Ordered(swept) && |swept.order| <= |st.order|
            && (forall id :: id in swept.entries ==> id in st.entries && swept.entries[id] == st.entries[id])
            && (forall id :: id in st.entries && id !in swept.entries ==> Idle(cfg, st.entries[id].lastAccessMs, now))
  {
    if cfg.idleTimeoutMs > 0 {
      SweepRemovesIdle(cfg, st, st.order, now);
    }
  }

  /** What the sweep removes every later lookup would refuse. */
  lemma SweptWouldBeRefused(cfg: Config, st: State, now: int, id: string, later: int)
    requires Ordered(st) && now <= later
    requires id in st.entries && id !in Sweep(cfg, st, now).entries
    ensures Idle(cfg, st.entries[id].lastAccessMs, later) && GetStep(cfg, st, id, later).1 == NoSession
  {
    SweepKeeps(cfg, st, now);
  }

  /** The cap keeps the end of the enumeration order. */
  lemma {:induction false} EvictKeepsTheEnd(st: State, cap: int)
    ensures var room := EvictUntilUnderCap(st, cap);
            && |room.order| <= |st.order|
            && (room.order == [] || |room.order| < cap)
            && room.order == st.order[|st.order| - |room.order|..]
    decreases |st.order|
  {
    if st.order != [] && |st.order| >= cap {
      EvictKeepsTheEnd(State(st.order[1..], st.entries - {st.order[0]}), cap);
    }
  }

  lemma DropOldestOrdered(st: State)
    requires Ordered(st) && st.order != []
    ensures Ordered(State(st.order[1..], st.entries - {st.order[0]}))
  {
    assert forall id :: id in st.order <==> id == st.order[0] || id in st.order[1..];
  }

  /** The cap changes no session that it keeps. */
  lemma {:induction false} EvictKeepsEntries(st: State, cap: int)
    requires Ordered(st)
    ensures var room := EvictUntilUnderCap(st, cap);
            Ordered(room) && (forall id :: id in room.entries ==> id in st.entries && room.entries[id] == st.entries[id])
    decreases |st.order|
  {
    if st.order != [] && |st.order| >= cap {
      DropOldestOrdered(st);
      EvictKeepsEntries(State(st.order[1..], st.entries - {st.order[0]}), cap);
    }
  }

  lemma DistinctSplit(ids: seq<string>, n: nat)
    requires Distinct(ids) && n <= |ids|
    ensures forall id :: id in ids ==> (id in ids[n..] <==> id !in ids[..n])
  {
    assert ids == ids[..n] + ids[n..];
  }

  /** The cap drops a prefix of the enumeration order and nothing else. */
  lemma EvictDropsOldest(st: State, cap: int)
    requires Ordered(st)
    ensures var room := EvictUntilUnderCap(st, cap);
            && Ordered(room) && |room.order| <= |st.order|
            && (room.order == [] || |room.order| < cap)
            && st.order == EvictedIds(st.order, room.order) + room.order
            && (forall id :: id in room.entries ==> id in st.entries && room.entries[id] == st.entries[id])
            && (forall id :: id in st.entries ==> (id in room.entries <==> id !in EvictedIds(st.order, room.order)))
  {
    EvictKeepsTheEnd(st, cap);
    EvictKeepsEntries(st, cap);
    DistinctSplit(st.order, |st.order| - |EvictUntilUnderCap(st, cap).order|);
  }

  // ----- one call -----

  /** Later, fewer sessions are fresh: what the history says keeps agreeing. */
  lemma LaterAgrees(cfg: Config, st: State, log: seq<Event>, now: int, later: int)
    requires HistoryInv(cfg, st, log, now) && now <= later
    ensures HistoryInv(cfg, st, log, later)
  {
    forall id ensures Agrees(cfg, st, LifeOf(log, id), id, later) {
      assert Agrees(cfg, st, LifeOf(log, id), id, now);
    }
  }

  /** One identifier across a creation: swept, perhaps evicted, perhaps the new one. */
  lemma {:induction false} CreateAgrees(
    cfg: Config, st: State, swept: State, room: State, evicted: seq<string>, log: seq<Event>, x: string, e: Entry)
    requires Agrees(cfg, st, LifeOf(log, x), x, e.lastAccessMs) && e.record.createdAt == e.lastAccessMs
    requires x in swept.entries ==> x in st.entries && swept.entries[x] == st.entries[x]
    requires x in st.entries && x !in swept.entries ==> Idle(cfg, st.entries[x].lastAccessMs, e.lastAccessMs)
    requires x in evicted ==> x in swept.entries
    requires x in room.entries ==> x in swept.entries && room.entries[x] == swept.entries[x]
    requires x in swept.entries ==> (x in room.entries <==> x !in evicted)
    ensures var id := e.record.sessionId;
            Agrees(cfg, Put(room, id, e), LifeOf(log + Evictions(evicted) + [Opened(id, e.record)], x), x, e.lastAccessMs)
  {
    LifeEvicted(log, evicted, x);
    LifeAppend(log + Evictions(evicted), Opened(e.record.sessionId, e.record), x);
  }

  lemma PutOrdered(st: State, id: string, e: Entry)
    requires Ordered(st)
    ensures Ordered(Put(st, id, e))
  {
  }

  lemma {:induction false} CreateKeepsHistory(
    cfg: Config, st: State, log: seq<Event>, identity: Identity, id: string, secret: string, now: int)
    requires Ordered(st) && HistoryInv(cfg, st, log, now) && cfg.accepts(identity)
    ensures var op := Create(identity, id, secret, now);
            && Ordered(Step(cfg, st, op).0)
            && HistoryInv(cfg, Step(cfg, st, op).0, log + EventsOf(cfg, st, op), now)
  {
    var swept := Sweep(cfg, st, now);
    var room := EvictUntilUnderCap(swept, cfg.maxSessions);
    SweepKeeps(cfg, st, now);
    EvictDropsOldest(swept, cfg.maxSessions);
    var evicted := EvictedIds(swept.order, room.order);
    var record := Record(id, identity, secret, map[], now);
    var e := Entry(record, now, now);
    PutOrdered(room, id, e);
    ConcatAssociative(log, Evictions(evicted), [Opened(id, record)]);
    forall x ensures Agrees(cfg, Put(room, id, e), LifeOf(log + Evictions(evicted) + [Opened(id, record)], x), x, now) {
      assert Agrees(cfg, st, LifeOf(log, x), x, now);
      EvictedWereKept(swept, room, x);
      CreateAgrees(cfg, st, swept, room, evicted, log, x, e);
    }
  }

  lemma EvictedWereKept(st: State, room: State, id: string)
    requires Ordered(st)
    ensures id in EvictedIds(st.order, room.order) ==> id in st.entries
  {
  }

  lemma GetKeepsHistory(cfg: Config, st: State, log: seq<Event>, id: string, now: int)
    requires Ordered(st) && HistoryInv(cfg, st, log, now)
    ensures var after := GetStep(cfg, st, id, now).0;
            Ordered(after) && HistoryInv(cfg, after, log + TouchEvents(cfg, st, id, now), now)
    ensures GetStep(cfg, st, id, now).1 ==
            var life := LifeOf(log, id);
            if id != "" && life.Alive? && !Idle(cfg, life.lastAccessMs, now) then Session(life.record) else NoSession
    ensures GetStep(cfg, st, id, now).1.Session? ==> id in GetStep(cfg, st, id, now).0.entries
  {
    var after := GetStep(cfg, st, id, now).0;
    DropOrdered(st, id);
    assert Agrees(cfg, st, LifeOf(log, id), id, now);
    assert log + [] == log;
    forall x ensures Agrees(cfg, after, LifeOf(log + TouchEvents(cfg, st, id, now), x), x, now) {
      assert Agrees(cfg, st, LifeOf(log, x), x, now);
      LifeAppend(log, Touched(id, now), x);
    }
  }

  lemma {:induction false} SetPreferenceKeepsHistory(
    cfg: Config, st: State, log: seq<Event>, id: string, programId: string, trustCaseId: string, now: int)
    requires Ordered(st) && HistoryInv(cfg, st, log, now)
    ensures var op := SetPreference(id, programId, trustCaseId, now);
            && Ordered(Step(cfg, st, op).0)
            && HistoryInv(cfg, Step(cfg, st, op).0, log + EventsOf(cfg, st, op), now)
  {
    GetKeepsHistory(cfg, st, log, id, now);
    var (mid, reply) := GetStep(cfg, st, id, now);
    var touched := log + TouchEvents(cfg, st, id, now);
    var (after, result) := SetPreferenceStep(cfg, st, id, programId, trustCaseId, now);
    var more := if result.Session? then [Preferred(id, programId, trustCaseId)] else [];
    assert log + (TouchEvents(cfg, st, id, now) + more) == touched + more;
    if result.Session? {
      forall x ensures Agrees(cfg, after, LifeOf(touched + more, x), x, now) {
        assert Agrees(cfg, mid, LifeOf(touched, x), x, now);
        assert Agrees(cfg, mid, LifeOf(touched, id), id, now);
        LifeAppend(touched, more[0], x);
      }
    } else {
      assert touched + more == touched;
    }
  }

  lemma DeleteKeepsHistory(cfg: Config, st: State, log: seq<Event>, id: string, now: int)
    requires Ordered(st) && HistoryInv(cfg, st, log, now)
    ensures var op := Op.Delete(id);
            && Ordered(Step(cfg, st, op).0)
            && HistoryInv(cfg, Step(cfg, st, op).0, log + EventsOf(cfg, st, op), now)
  {
    var after := Step(cfg, st, Op.Delete(id)).0;
    DropOrdered(st, id);
    assert log + [] == log;
    forall x ensures Agrees(cfg, after, LifeOf(log + EventsOf(cfg, st, Op.Delete(id)), x), x, now) {
      assert Agrees(cfg, st, LifeOf(log, x), x, now);
      LifeAppend(log, Closed(id), x);
    }
  }

  lemma StepKeepsHistory(cfg: Config, st: State, log: seq<Event>, op: Op, now: int)
    requires Ordered(st) && HistoryInv(cfg, st, log, now) && (op.Delete? || op.now == now)
    ensures Ordered(Step(cfg, st, op).0)
    ensures HistoryInv(cfg, Step(cfg, st, op).0, log + EventsOf(cfg, st, op), now)
  {
    match op
    case Create(identity, id, secret, _) =>
      if cfg.accepts(identity) {
        CreateKeepsHistory(cfg, st, log, identity, id, secret, now);
      } else {
        assert log + [] == log;
      }
    case Get(id, _) => GetKeepsHistory(cfg, st, log, id, now);
    case GetPreference(id, _, _) => GetKeepsHistory(cfg, st, log, id, now);
    case SetPreference(id, p, t, _) => SetPreferenceKeepsHistory(cfg, st, log, id, p, t, now);
    case Delete(id) => DeleteKeepsHistory(cfg, st, log, id, now);
  }

  /** The latest clock reading of a run, or a bound when there is none. */
  function LatestReading(ops: seq<Op>, bound: int): int {
    if ops == [] then bound
    else if ops[|ops| - 1].Delete? then LatestReading(ops[..|ops| - 1], bound)
    else ops[|ops| - 1].now
  }

  lemma {:induction false} RunKeepsHistory(cfg: Config, ops: seq<Op>, now: int)
    requires ClockUpTo(ops, now)
    ensures Ordered(Run(cfg, ops).st) && HistoryInv(cfg, Run(cfg, ops).st, Run(cfg, ops).log, now)
  {
    if ops != [] {
      var init, op := ops[..|ops| - 1], ops[|ops| - 1];
      var at := if op.Delete? then now else op.now;
      assert forall i :: 0 <= i < |init| ==> init[i] == ops[i];
      RunKeepsHistory(cfg, init, at);
      var before := Run(cfg, init);
      StepKeepsHistory(cfg, before.st, before.log, op, at);
      LaterAgrees(cfg, Run(cfg, ops).st, Run(cfg, ops).log, at, now);
    }
  }

  // ----- what the replies mean -----

  /** With a clock that never goes back, a lookup finds a session exactly when the history has it
      alive and it has not been idle too long; the sweep plays no part. */
  lemma LookupMatchesHistory(cfg: Config, ops: seq<Op>, id: string, now: int)
    requires ClockUpTo(ops, now)
    ensures GetStep(cfg, Run(cfg, ops).st, id, now).1 ==
            var life := LifeOf(Run(cfg, ops).log, id);
            if id != "" && life.Alive? && !Idle(cfg, life.lastAccessMs, now) then Session(life.record) else NoSession
  {
    RunKeepsHistory(cfg, ops, now);
    GetKeepsHistory(cfg, Run(cfg, ops).st, Run(cfg, ops).log, id, now);
  }

  predicate Opens(op: Op, id: string) {
    op.Create? && op.id == id
  }

  lemma RunAppend(cfg: Config, ops: seq<Op>, op: Op)
    ensures Run(cfg, ops + [op]) ==
            Traced(Step(cfg, Run(cfg, ops).st, op).0, Run(cfg, ops).log + EventsOf(cfg, Run(cfg, ops).st, op))
  {
    assert (ops + [op])[..|ops|] == ops;
  }

  /** The enumeration order lists every session once, whatever the clock does. */
  lemma {:induction false} StepKeepsOrder(cfg: Config, st: State, op: Op)
    requires Ordered(st)
    ensures Ordered(Step(cfg, st, op).0)
  {
    match op
    case Create(identity, id, secret, now) =>
      SweepKeeps(cfg, st, now);
      EvictKeepsEntries(Sweep(cfg, st, now), cfg.maxSessions);
    case Get(id, _) => DropOrdered(st, id);
    case GetPreference(id, _, _) => DropOrdered(st, id);
    case SetPreference(id, _, _, _) => DropOrdered(st, id);
    case Delete(id) => DropOrdered(st, id);
  }

  lemma {:induction false} RunKeepsOrder(cfg: Config, ops: seq<Op>)
    ensures Ordered(Run(cfg, ops).st)
  {
    if ops != [] {
      RunKeepsOrder(cfg, ops[..|ops| - 1]);
      StepKeepsOrder(cfg, Run(cfg, ops[..|ops| - 1]).st, ops[|ops| - 1]);
    }
  }

  /** What a creation fixes for the life of a session. */
  predicate SameOrigin(a: Record, b: Record) {
    a.sessionId == b.sessionId && a.identity == b.identity && a.secret == b.secret && a.createdAt == b.createdAt
  }

  /** Only a creation under its own identifier adds a session or changes what a creation fixes. */
  lemma {:induction false} StepKeepsOrigin(cfg: Config, st: State, op: Op, id: string)
    requires Ordered(st) && id in Step(cfg, st, op).0.entries && !Opens(op, id)
    ensures id in st.entries && SameOrigin(Step(cfg, st, op).0.entries[id].record, st.entries[id].record)
  {
    if op.Create? && cfg.accepts(op.identity) {
      SweepKeeps(cfg, st, op.now);
      EvictKeepsEntries(Sweep(cfg, st, op.now), cfg.maxSessions);
    }
  }

  lemma {:induction false} RunKeepsOrigin(cfg: Config, ops: seq<Op>, m: nat, n: nat, id: string)
    requires m <= n <= |ops| && forall i :: m <= i < n ==> !Opens(ops[i], id)
    requires id in Run(cfg, ops[..n]).st.entries
    ensures id in Run(cfg, ops[..m]).st.entries
    ensures SameOrigin(Run(cfg, ops[..n]).st.entries[id].record, Run(cfg, ops[..m]).st.entries[id].record)
    decreases n
  {
    if m < n {
      assert ops[..n][..n - 1] == ops[..n - 1];
      RunKeepsOrder(cfg, ops[..n - 1]);
      StepKeepsOrigin(cfg, Run(cfg, ops[..n - 1]).st, ops[n - 1], id);
      RunKeepsOrigin(cfg, ops, m, n - 1, id);
    }
  }

  lemma LookupIsStored(cfg: Config, st: State, id: string, now: int)
    requires GetStep(cfg, st, id, now).1.Session?
    ensures id in st.entries && GetStep(cfg, st, id, now).1.record == st.entries[id].record
  {
  }

  lemma {:induction false} CreationIsStored(cfg: Config, ops: seq<Op>, identity: Identity, id: string, secret: string, now: int)
    requires cfg.accepts(identity)
    ensures var created := Run(cfg, ops + [Create(identity, id, secret, now)]).st;
            id in created.entries && created.entries[id].record == Record(id, identity, secret, map[], now)
  {
    RunAppend(cfg, ops, Create(identity, id, secret, now));
  }

  /** Every lookup of a session, at any time, returns the secret and the identity that its creation
      returned, as long as the identifier is not used again. */
  lemma {:induction false} SecretIsStable(
    cfg: Config, ops: seq<Op>, more: seq<Op>, identity: Identity, id: string, secret: string, now: int, later: int)
    requires cfg.accepts(identity) && forall i :: 0 <= i < |more| ==> !Opens(more[i], id)
    ensures var op := Create(identity, id, secret, now);
            var created, found := Step(cfg, Run(cfg, ops).st, op).1, GetStep(cfg, Run(cfg, ops + [op] + more).st, id, later).1;
            && created == Session(Record(id, identity, secret, map[], now))
            && (found.Session? ==> SameOrigin(found.record, created.record))
  {
    var op := Create(identity, id, secret, now);
    var all, m := ops + [op] + more, |ops| + 1;
    CreationIsStored(cfg, ops, identity, id, secret, now);
    if GetStep(cfg, Run(cfg, all).st, id, later).1.Session? {
      LookupIsStored(cfg, Run(cfg, all).st, id, later);
      assert all[..m] == ops + [op] && all[..|all|] == all;
      forall i | m <= i < |all| ensures !Opens(all[i], id) {
        assert all[i] == more[i - m];
      }
      RunKeepsOrigin(cfg, all, m, |all|, id);
    }
  }

  // ----- the cap -----

  function CreatedAt(st: State, id: string): int {
    if id in st.entries then st.entries[id].createdAtMs else 0
  }

  /** Sessions are enumerated in order of creation. */
  ghost predicate CreationOrder(st: State) {
    Ordered(st) && SortedBy(st.order, st)
  }

  ghost predicate SortedBy(ids: seq<string>, st: State) {
    forall i, j :: 0 <= i < j < |ids| ==> CreatedAt(st, ids[i]) <= CreatedAt(st, ids[j])
  }

  ghost predicate CreatedBy(st: State, now: int) {
    forall id :: id in st.entries ==> CreatedAt(st, id) <= now
  }

  lemma {:induction false} RemoveKeepsSorted(ids: seq<string>, id: string, st: State)
    requires SortedBy(ids, st)
    ensures SortedBy(Remove(ids, id), st)
  {
    if ids != [] {
      var rest := Remove(ids[1..], id);
      RemoveKeepsSorted(ids[1..], id, st);
      RemoveContents(ids[1..], id);
      forall i | 0 <= i < |rest| ensures CreatedAt(st, ids[0]) <= CreatedAt(st, rest[i]) {
        assert rest[i] in ids[1..];
        var k :| 0 <= k < |ids[1..]| && ids[1..][k] == rest[i];
        assert ids[k + 1] == rest[i];
      }
    }
  }

  /** The same order over entries with the same creation times. */
  lemma SortedTransfers(ids: seq<string>, st: State, after: State)
    requires SortedBy(ids, st) && forall id :: id in ids ==> CreatedAt(after, id) == CreatedAt(st, id)
    ensures SortedBy(ids, after)
  {
  }

  lemma DropKeepsCreation(st: State, id: string, now: int)
    requires CreationOrder(st) && CreatedBy(st, now)
    ensures CreationOrder(Drop(st, id)) && CreatedBy(Drop(st, id), now)
  {
    DropOrdered(st, id);
    RemoveKeepsSorted(st.order, id, st);
    RemoveContents(st.order, id);
    SortedTransfers(Remove(st.order, id), st, Drop(st, id));
  }

  lemma {:induction false} SweepKeepsCreation(cfg: Config, st: State, ids: seq<string>, now: int)
    requires CreationOrder(st) && CreatedBy(st, now)
    ensures CreationOrder(SweepUpTo(cfg, st, ids, now)) && CreatedBy(SweepUpTo(cfg, st, ids, now), now)
  {
    if ids != [] {
      SweepKeepsCreation(cfg, st, ids[..|ids| - 1], now);
      DropKeepsCreation(SweepUpTo(cfg, st, ids[..|ids| - 1], now), ids[|ids| - 1], now);
    }
  }

  lemma EvictKeepsCreation(st: State, cap: int, now: int)
    requires CreationOrder(st) && CreatedBy(st, now)
    ensures CreationOrder(EvictUntilUnderCap(st, cap)) && CreatedBy(EvictUntilUnderCap(st, cap), now)
  {
    var room := EvictUntilUnderCap(st, cap);
    EvictDropsOldest(st, cap);
    var n := |st.order| - |room.order|;
    assert room.order == st.order[n..];
    assert SortedBy(st.order[n..], st);
    SortedTransfers(room.order, st, room);
  }

  /** Every session the cap evicts was created no later than every session it keeps. */
  lemma EvictionIsOldestFirst(st: State, cap: int, evicted: string, kept: string)
    requires CreationOrder(st)
    requires evicted in st.entries && evicted !in EvictUntilUnderCap(st, cap).entries
    requires kept in EvictUntilUnderCap(st, cap).entries
    ensures CreatedAt(st, evicted) <= CreatedAt(st, kept)
  {
    var room := EvictUntilUnderCap(st, cap);
    EvictDropsOldest(st, cap);
    var gone := EvictedIds(st.order, room.order);
    assert evicted in gone && kept in room.order;
    SortedAcross(gone, room.order, st, evicted, kept);
  }

  lemma SortedAcross(first: seq<string>, second: seq<string>, st: State, a: string, b: string)
    requires SortedBy(first + second, st) && a in first && b in second
    ensures CreatedAt(st, a) <= CreatedAt(st, b)
  {
    var i :| 0 <= i < |first| && first[i] == a;
    var j :| 0 <= j < |second| && second[j] == b;
    var all := first + second;
    assert all[i] == a && all[|first| + j] == b;
  }

  lemma CreateKeepsCreation(cfg: Config, st: State, identity: Identity, id: string, secret: string, now: int)
    requires CreationOrder(st) && CreatedBy(st, now) && id !in st.entries
    ensures var after := CreateStep(cfg, st, identity, id, secret, now).0;
            CreationOrder(after) && CreatedBy(after, now)
  {
    if cfg.accepts(identity) {
      var swept := Sweep(cfg, st, now);
      SweepKeeps(cfg, st, now);
      if cfg.idleTimeoutMs > 0 {
        SweepKeepsCreation(cfg, st, st.order, now);
      }
      var room := EvictUntilUnderCap(swept, cfg.maxSessions);
      EvictKeepsCreation(swept, cfg.maxSessions, now);
      EvictDropsOldest(swept, cfg.maxSessions);
      assert id !in room.entries;
      var after := Put(room, id, Entry(Record(id, identity, secret, map[], now), now, now));
      AppendKeepsCreation(room, after, id, now);
    }
  }

  lemma AppendKeepsCreation(room: State, after: State, id: string, now: int)
    requires CreationOrder(room) && CreatedBy(room, now) && id !in room.entries
    requires after.order == room.order + [id] && after.entries.Keys == room.entries.Keys + {id}
    requires CreatedAt(after, id) == now
    requires forall x :: x in room.entries ==> CreatedAt(after, x) == CreatedAt(room, x)
    ensures CreationOrder(after) && CreatedBy(after, now)
  {
    SortedTransfers(room.order, room, after);
    forall i, j | 0 <= i < j < |after.order| ensures CreatedAt(after, after.order[i]) <= CreatedAt(after, after.order[j]) {
      assert room.order[i] in room.entries;
    }
  }

  lemma GetKeepsCreation(cfg: Config, st: State, id: string, now: int)
    requires CreationOrder(st) && CreatedBy(st, now)
    ensures CreationOrder(GetStep(cfg, st, id, now).0) && CreatedBy(GetStep(cfg, st, id, now).0, now)
  {
    DropKeepsCreation(st, id, now);
    if GetStep(cfg, st, id, now).1.Session? {
      SortedTransfers(st.order, st, GetStep(cfg, st, id, now).0);
    }
  }

  lemma {:induction false} StepKeepsCreation(cfg: Config, st: State, op: Op, now: int)
    requires CreationOrder(st) && CreatedBy(st, now) && (op.Delete? || op.now == now)
    requires op.Create? ==> op.id !in st.entries
    ensures CreationOrder(Step(cfg, st, op).0) && CreatedBy(Step(cfg, st, op).0, now)
  {
    match op
    case Create(identity, id, secret, _) => CreateKeepsCreation(cfg, st, identity, id, secret, now);
    case Get(id, _) => GetKeepsCreation(cfg, st, id, now);
    case GetPreference(id, _, _) => GetKeepsCreation(cfg, st, id, now);
    case SetPreference(id, p, t, _) =>
      GetKeepsCreation(cfg, st, id, now);
      var mid := GetStep(cfg, st, id, now).0;
      SortedTransfers(mid.order, mid, Step(cfg, st, op).0);
    case Delete(id) => DropKeepsCreation(st, id, now);
  }

  /** The random generator never repeats an identifier. */
  predicate FreshIds(ops: seq<Op>) {
    forall i, j :: 0 <= i < j < |ops| && ops[i].Create? && ops[j].Create? ==> ops[i].id != ops[j].id
  }

  ghost predicate OpenedIn(ops: seq<Op>, id: string) {
    exists i :: 0 <= i < |ops| && Opens(ops[i], id)
  }

  lemma OpenedAppend(init: seq<Op>, op: Op, id: string)
    requires OpenedIn(init, id) || Opens(op, id)
    ensures OpenedIn(init + [op], id)
  {
    if Opens(op, id) {
      assert Opens((init + [op])[|init|], id);
    } else {
      var i :| 0 <= i < |init| && Opens(init[i], id);
      assert Opens((init + [op])[i], id);
    }
  }

  lemma {:induction false} EntriesWereOpened(cfg: Config, ops: seq<Op>, id: string)
    requires id in Run(cfg, ops).st.entries
    ensures OpenedIn(ops, id)
  {
    var init, op := ops[..|ops| - 1], ops[|ops| - 1];
    SplitLast(ops);
    if !Opens(op, id) {
      RunKeepsOrder(cfg, init);
      StepKeepsOrigin(cfg, Run(cfg, init).st, op, id);
      EntriesWereOpened(cfg, init, id);
    }
    OpenedAppend(init, op, id);
  }

  lemma FreshIsUnopened(init: seq<Op>, op: Op)
    requires FreshIds(init + [op]) && op.Create?
    ensures !OpenedIn(init, op.id)
  {
    var ops := init + [op];
    assert ops[|init|] == op;
    forall i | 0 <= i < |init| ensures !Opens(init[i], op.id) {
      assert ops[i] == init[i];
    }
  }

  lemma NewIdIsUnused(cfg: Config, init: seq<Op>, op: Op)
    requires FreshIds(init + [op])
    ensures op.Create? ==> op.id !in Run(cfg, init).st.entries
  {
    if op.Create? && op.id in Run(cfg, init).st.entries {
      EntriesWereOpened(cfg, init, op.id);
      FreshIsUnopened(init, op);
    }
  }

  /** With fresh identifiers and a clock that never goes back the map enumerates its sessions in
      order of creation, so that the cap, which drops the first ones, drops the earliest created. */
  lemma {:induction false} RunKeepsCreation(cfg: Config, ops: seq<Op>, now: int)
    requires ClockUpTo(ops, now) && FreshIds(ops)
    ensures CreationOrder(Run(cfg, ops).st) && CreatedBy(Run(cfg, ops).st, now)
  {
    if ops != [] {
      var n := |ops| - 1;
      var init, op := ops[..n], ops[n];
      var at := if op.Delete? then now else op.now;
      assert forall i :: 0 <= i < n ==> init[i] == ops[i];
      RunKeepsCreation(cfg, init, at);
      var st := Run(cfg, init).st;
      SplitLast(ops);
      NewIdIsUnused(cfg, init, op);
      StepKeepsCreation(cfg, st, op, at);
    }
  }

  lemma StepIsBounded(cfg: Config, st: State, op: Op)
    requires Ordered(st)
    ensures |Step(cfg, st, op).0.order| <= Max(|st.order|, Max(cfg.maxSessions, 1))
  {
    match op
    case Create(identity, id, secret, now) =>
      SweepKeeps(cfg, st, now);
      EvictDropsOldest(Sweep(cfg, st, now), cfg.maxSessions);
    case Get(id, _) => RemoveContents(st.order, id);
    case GetPreference(id, _, _) => RemoveContents(st.order, id);
    case SetPreference(id, _, _, _) => RemoveContents(st.order, id);
    case Delete(id) => RemoveContents(st.order, id);
  }

  /** The number of sessions never exceeds the cap, or one when the cap is below one. */
  lemma {:induction false} SessionsAreBounded(cfg: Config, ops: seq<Op>)
    ensures |Run(cfg, ops).st.order| <= Max(cfg.maxSessions, 1)
    ensures |Run(cfg, ops).st.entries| <= Max(cfg.maxSessions, 1)
  {
    RunKeepsOrder(cfg, ops);
    if ops != [] {
      var init := ops[..|ops| - 1];
      SessionsAreBounded(cfg, init);
      RunKeepsOrder(cfg, init);
      StepIsBounded(cfg, Run(cfg, init).st, ops[|ops| - 1]);
    }
    OrderCounts(Run(cfg, ops).st.order, Run(cfg, ops).st.entries.Keys);
  }

  lemma {:induction false} OrderCounts(ids: seq<string>, keys: set<string>)
    requires Distinct(ids) && forall id :: id in keys <==> id in ids
    ensures |keys| == |ids|
  {
    if ids == [] {
      assert keys == {};
    } else {
      OrderCounts(ids[1..], keys - {ids[0]});
    }
  }

  // ----- exactly what goes -----

  /** Eviction makes room for one session and no more. */
  lemma {:induction false} EvictIsMinimal(st: State, cap: int)
    ensures var room := EvictUntilUnderCap(st, cap);
            && (|st.order| < cap ==> room == st)
            && (|st.order| >= cap ==> |room.order| == Max(cap - 1, 0))
    decreases |st.order|
  {
    if st.order != [] && |st.order| >= cap {
      EvictIsMinimal(State(st.order[1..], st.entries - {st.order[0]}), cap);
    }
  }

  /** An instant more than the timeout after the last access; without a timeout there is none. */
  predicate TimedOut(cfg: Config, last: int, now: int) {
    0 < cfg.idleTimeoutMs < now - last
  }

  lemma {:induction false} SweepUpToExact(cfg: Config, st: State, ids: seq<string>, now: int, id: string)
    requires cfg.idleTimeoutMs > 0
    ensures var swept := SweepUpTo(cfg, st, ids, now);
            && (id in swept.entries <==> id in st.entries && !(id in ids && TimedOut(cfg, st.entries[id].lastAccessMs, now)))
            && (id in swept.entries ==> swept.entries[id] == st.entries[id])
  {
    if ids != [] {
      SweepUpToExact(cfg, st, ids[..|ids| - 1], now, id);
      SplitLast(ids);
    }
  }

  /** The sweep removes exactly the sessions whose last access is longer ago than the timeout. */
  lemma SweepIsExact(cfg: Config, st: State, now: int, id: string)
    requires Ordered(st)
    ensures id in Sweep(cfg, st, now).entries <==>
            id in st.entries && !TimedOut(cfg, st.entries[id].lastAccessMs, now)
  {
    if cfg.idleTimeoutMs > 0 {
      SweepUpToExact(cfg, st, st.order, now, id);
    }
  }

  /** A creation keeps of the swept sessions the last ones, as many as leave room for the new one, which
      comes last; a refused one changes nothing. */
  lemma {:induction false} CreateKeepsTheLast(
    cfg: Config, st: State, identity: Identity, id: string, secret: string, now: int)
    requires Ordered(st) && id !in st.entries
    ensures var (after, reply) := Step(cfg, st, Create(identity, id, secret, now));
            var swept := Sweep(cfg, st, now).order;
            var keep := Max(cfg.maxSessions - 1, 0);
            if !cfg.accepts(identity) then after == st && reply == Rejected
            else
              && reply == Session(Record(id, identity, secret, map[], now))
              && after.order == (if |swept| <= keep then swept else swept[|swept| - keep..]) + [id]
  {
    if cfg.accepts(identity) {
      var swept := Sweep(cfg, st, now);
      SweepKeeps(cfg, st, now);
      EvictIsMinimal(swept, cfg.maxSessions);
      EvictDropsOldest(swept, cfg.maxSessions);
    }
  }

  /** The session of an identifier as the history has it: alive and accessed within the timeout. */
  function Found(cfg: Config, log: seq<Event>, id: string, now: int): Option<Record> {
    match LifeOf(log, id)
    case Over => None
    case Alive(record, last) => if id == "" || TimedOut(cfg, last, now) then None else Some(record)
  }

  /** What the other calls reply, told by the history: a preference is the last one set in the session,
      setting one needs a session, both names and a well-formed trust-case id, and a logout reports a
      session that a lookup would find. */
  lemma {:induction false} RepliesMatchHistory(
    cfg: Config, ops: seq<Op>, id: string, program: string, trustCase: string, now: int)
    requires ClockUpTo(ops, now)
    ensures var st, found := Run(cfg, ops).st, Found(cfg, Run(cfg, ops).log, id, now);
            && Step(cfg, st, Get(id, now)).1 == (if found.Some? then Session(found.value) else NoSession)
            && Step(cfg, st, GetPreference(id, program, now)).1 ==
               Preference(if found.Some? && program != "" && program in found.value.preferences
                          then Some(found.value.preferences[program]) else None)
            && Step(cfg, st, SetPreference(id, program, trustCase, now)).1 ==
               (if found.None? || program == "" || trustCase == "" then NoSession
                else if !cfg.isTrustCaseId(trustCase) then Rejected
                else Session(found.value.(preferences := found.value.preferences[program := trustCase])))
            && (found.Some? ==> Step(cfg, st, Op.Delete(id)).1 == Deleted(true))
            && (LifeOf(Run(cfg, ops).log, id) == Over || id == "" ==> Step(cfg, st, Op.Delete(id)).1 == Deleted(false))
  {
    LookupMatchesHistory(cfg, ops, id, now);
    RunKeepsHistory(cfg, ops, now);
    assert Agrees(cfg, Run(cfg, ops).st, LifeOf(Run(cfg, ops).log, id), id, now);
  }
}
