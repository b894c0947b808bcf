/**
 The promise-chain mutex around the budget, as a state machine whose steps are the
 synchronous stretches between two awaits.

 One `Slot` is one invocation of withLock. It registers two reactions on the tail promise it
 found: first the callback that binds `releaseLock`, then the continuation of its own await.
 A promise runs its reactions in registration order; reactions of different promises may
 interleave freely here, which allows every schedule the engine can produce and more.
 A slot's own tail promise settles once the bound `releaseLock` has been called.
 */
module BudgetLockProtocol {
  import opened Prelude
  import opened EditorAssistBudget

  datatype Lock = SessionLock(key: string) | TenantLock(id: string)

  datatype Reaction = BindRelease | ResumeBody

  datatype Slot = Slot(
    lock: Lock,
    caller: nat,
    previous: Option<nat>,       // the slot whose tail promise was found, if any
    reactions: seq<Reaction>,    // still to run, in registration order
    releaseBound: bool,          // releaseLock is the resolver, no longer the initial no-op
    innerResolved: bool,         // the resolver has been called
    tailResolved: bool)          // the tail promise has settled

  datatype Stage = AwaitingSession | AwaitingTenant | Holding | TenantReleased | Finished

  datatype Call = Call(
    scope: Scope, sessionSlot: nat, tenantSlot: Option<nat>, stage: Stage, outcome: Option<Outcome>)

  /** What happened to the counters, for stating accounting properties. */
  datatype Entry =
    | Grant(session: string, tenant: string, day: int)
    | DayStart(tenant: string, day: int)
    | SessionRefund(session: string)
    | TenantRefund(tenant: string)

  datatype World = World(
    budget: Budget,
    slots: seq<Slot>,
    calls: seq<Call>,
    tails: map<Lock, nat>,       // entry.tail; an absent lock has a resolved tail
    log: seq<Entry>,             // history of the counters
    clock: seq<int>)             // history of the clock readings

  datatype Step =
    | Invoke(scope: Scope, reading: Option<int>)
    | React(slot: nat, reading: Option<int>)
    | ReleaseTenant(call: nat)
    | ReleaseSession(call: nat)
    | Settle(slot: nat)
    | Refund(scope: Scope)

  const BOTH: seq<Reaction> := [BindRelease, ResumeBody]

  function Start(): World {
    World(EmptyBudget(), [], [], map[], [], [])
  }

  // ----- the steps -----

  /** withLock up to its first await. */
  function Chain(w: World, lock: Lock, caller: nat): World {
    var previous := if lock in w.tails then Some(w.tails[lock]) else None;
    w.(slots := w.slots + [Slot(lock, caller, previous, BOTH, false, false, false)],
       tails := w.tails[lock := |w.slots|])
  }

  function Readings(reading: Option<int>): seq<int> {
    if reading.Some? then [reading.value] else []
  }

  /** What making the entries adds to the history. */
  function OpenLog(b: Budget, scope: Scope, reading: Option<int>): seq<Entry> {
    if reading.None? || scope.tenantId in b.tenants then [] else [DayStart(scope.tenantId, reading.value)]
  }

  function InvokeStep(w: World, scope: Scope, reading: Option<int>): World {
    var ready := w.(budget := OpenEntries(w.budget, scope, reading),
                    log := w.log + OpenLog(w.budget, scope, reading),
                    clock := w.clock + Readings(reading));
    if reading.None? then ready
    else
      Chain(ready.(calls := w.calls + [Call(scope, |w.slots|, None, AwaitingSession, None)]),
            SessionLock(ScopeKey(scope)), |w.calls|)
  }

  predicate PreviousResolved(w: World, i: nat)
    requires i < |w.slots|
  {
    var p := w.slots[i].previous;
    p.None? || (p.value < |w.slots| && w.slots[p.value].tailResolved)
  }

  predicate CanReact(w: World, i: nat) {
    && i < |w.slots|
    && w.slots[i].reactions != []
    && PreviousResolved(w, i)
    && w.slots[i].caller < |w.calls|
    && HasEntries(w.budget, w.calls[w.slots[i].caller].scope)
  }

  function BindStep(w: World, i: nat): World
    requires i < |w.slots| && w.slots[i].reactions != []
  {
    var s := w.slots[i];
    w.(slots := w.slots[i := s.(reactions := s.reactions[1..], releaseBound := true)])
  }

  /** What the body adds to the history. */
  function BodyLog(cfg: Config, b: Budget, scope: Scope, reading: Option<int>): seq<Entry>
    requires HasEntries(b, scope)
  {
    if reading.None? then []
    else
      var rolls := if b.tenants[scope.tenantId].day != reading.value
                   then [DayStart(scope.tenantId, reading.value)] else [];
      if ConsumeBody(cfg, b, scope, reading).1.Granted?
      then rolls + [Grant(ScopeKey(scope), scope.tenantId, reading.value)] else rolls
  }

  function ResumeStep(cfg: Config, w: World, i: nat, reading: Option<int>): World
    requires CanReact(w, i)
  {
    var s := w.slots[i];
    var popped := w.(slots := w.slots[i := s.(reactions := s.reactions[1..])]);
    var call := w.calls[s.caller];
    match s.lock
    case SessionLock(_) =>
      Chain(popped.(calls := w.calls[s.caller := call.(tenantSlot := Some(|w.slots|), stage := AwaitingTenant)]),
            TenantLock(call.scope.tenantId), s.caller)
    case TenantLock(_) =>
      var (budget, outcome) := ConsumeBody(cfg, w.budget, call.scope, reading);
      popped.(budget := budget,
              calls := w.calls[s.caller := call.(stage := Holding, outcome := Some(outcome))],
              log := w.log + BodyLog(cfg, w.budget, call.scope, reading),
              clock := w.clock + Readings(reading))
  }

  /** Calling releaseLock: before it is bound it does nothing. */
  function Release(w: World, i: nat): World
    requires i < |w.slots|
  {
    var s := w.slots[i];
    w.(slots := w.slots[i := s.(innerResolved := s.releaseBound)])
  }

  predicate CanReleaseTenant(w: World, c: nat) {
    && c < |w.calls|
    && w.calls[c].stage.Holding?
    && w.calls[c].tenantSlot.Some?
    && w.calls[c].tenantSlot.value < |w.slots|
  }

  predicate CanReleaseSession(w: World, c: nat) {
    c < |w.calls| && w.calls[c].stage.TenantReleased? && w.calls[c].sessionSlot < |w.slots|
  }

  predicate CanSettle(w: World, i: nat) {
    i < |w.slots| && w.slots[i].releaseBound && w.slots[i].innerResolved && !w.slots[i].tailResolved
  }

  function RefundLog(b: Budget, scope: Scope): seq<Entry> {
    var key := ScopeKey(scope);
    (if key in b.sessions && b.sessions[key] > 0 then [SessionRefund(key)] else []) +
    (if scope.tenantId in b.tenants && b.tenants[scope.tenantId].used > 0 then [TenantRefund(scope.tenantId)] else [])
  }

  predicate Enabled(w: World, step: Step) {
    match step
    case Invoke(_, _) => true
    case React(i, _) => CanReact(w, i)
    case ReleaseTenant(c) => CanReleaseTenant(w, c)
    case ReleaseSession(c) => CanReleaseSession(w, c)
    case Settle(i) => CanSettle(w, i)
    case Refund(_) => true
  }

  function Apply(cfg: Config, w: World, step: Step): World
    requires Enabled(w, step)
  {
    match step
    case Invoke(scope, reading) => InvokeStep(w, scope, reading)
    case React(i, reading) =>
      if w.slots[i].reactions[0].BindRelease? then BindStep(w, i) else ResumeStep(cfg, w, i, reading)
    case ReleaseTenant(c) =>
      Release(w.(calls := w.calls[c := w.calls[c].(stage := TenantReleased)]), w.calls[c].tenantSlot.value)
    case ReleaseSession(c) =>
      Release(w.(calls := w.calls[c := w.calls[c].(stage := Finished)]), w.calls[c].sessionSlot)
    case Settle(i) =>
      w.(slots := w.slots[i := w.slots[i].(tailResolved := true)])
    case Refund(scope) =>
      w.(budget := RefundBudget(w.budget, scope), log := w.log + RefundLog(w.budget, scope))
  }

  /** The steps the engine takes by itself; the others come from callers. */
  predicate Internal(step: Step) {
    !step.Invoke? && !step.Refund?
  }

  // ----- runs -----

  predicate ValidRun(cfg: Config, w: World, steps: seq<Step>)
    decreases |steps|
  {
    steps == [] || (Enabled(w, steps[0]) && ValidRun(cfg, Apply(cfg, w, steps[0]), steps[1..]))
  }

  function After(cfg: Config, w: World, steps: seq<Step>): World
    requires ValidRun(cfg, w, steps)
    decreases |steps|
  {
    if steps == [] then w else After(cfg, Apply(cfg, w, steps[0]), steps[1..])
  }

  // ----- the invariant -----

  predicate SlotShape(s: Slot) {
    || (s.reactions == BOTH && !s.releaseBound && !s.innerResolved && !s.tailResolved)
    || (s.reactions == [ResumeBody] && s.releaseBound && !s.innerResolved && !s.tailResolved)
    || (s.reactions == [] && s.releaseBound && (s.tailResolved ==> s.innerResolved))
  }

  /** A slot belongs to its caller, as the session slot or as the tenant slot. */
  predicate OwnedSlot(slots: seq<Slot>, calls: seq<Call>, i: nat)
    requires i < |slots|
  {
    var s := slots[i];
    && s.caller < |calls|
    && var call := calls[s.caller];
    match s.lock
    case SessionLock(key) => key == ScopeKey(call.scope) && call.sessionSlot == i
    case TenantLock(id) => id == call.scope.tenantId && call.tenantSlot == Some(i)
  }

  predicate GoodSlot(slots: seq<Slot>, calls: seq<Call>, i: nat) {
    i < |slots| ==> SlotShape(slots[i]) && OwnedSlot(slots, calls, i)
  }

  ghost predicate SlotsInv(slots: seq<Slot>, calls: seq<Call>) {
    forall i: nat :: GoodSlot(slots, calls, i)
  }

  /** Slot i stands ahead of slot j in the line of one lock. */
  predicate Ahead(slots: seq<Slot>, i: int, j: int) {
    0 <= i < j < |slots| && slots[i].lock == slots[j].lock
  }

  /** `previous` is an earlier slot of the same lock. */
  predicate GoodLink(slots: seq<Slot>, j: nat) {
    j < |slots| && slots[j].previous.Some? ==> Ahead(slots, slots[j].previous.value, j)
  }

  predicate InTails(slots: seq<Slot>, tails: map<Lock, nat>, i: nat) {
    i < |slots| ==> slots[i].lock in tails && i <= tails[slots[i].lock]
  }

  predicate GoodTail(slots: seq<Slot>, tails: map<Lock, nat>, l: Lock) {
    l in tails ==> tails[l] < |slots| && slots[tails[l]].lock == l
  }

  /** `previous` is the latest slot ahead, `tails` the latest slot of all. */
  ghost predicate ChainInv(slots: seq<Slot>, tails: map<Lock, nat>) {
    && (forall i, j :: Ahead(slots, i, j) ==> slots[j].previous.Some? && i <= slots[j].previous.value)
    && (forall j: nat :: GoodLink(slots, j))
    && (forall i: nat :: InTails(slots, tails, i))
    && (forall l :: GoodTail(slots, tails, l))
  }

  /** Nobody in a line stirs before everybody ahead has settled. */
  ghost predicate LineInv(slots: seq<Slot>) {
    forall i, j :: Ahead(slots, i, j) && slots[j].reactions != BOTH ==> slots[i].tailResolved
  }

  predicate CallShape(slots: seq<Slot>, call: Call, c: nat) {
    && call.sessionSlot < |slots|
    && var session := slots[call.sessionSlot];
    && session.caller == c
    && session.lock == SessionLock(ScopeKey(call.scope))
    && (call.stage.AwaitingSession? <==> session.reactions != [])
    && (call.stage.Finished? <==> session.innerResolved)
    && (call.outcome.None? <==> call.stage.AwaitingSession? || call.stage.AwaitingTenant?)
    && (call.tenantSlot.None? <==> call.stage.AwaitingSession?)
    && (call.tenantSlot.Some? ==>
          && call.tenantSlot.value < |slots|
          && var tenant := slots[call.tenantSlot.value];
          && tenant.caller == c
          && tenant.lock == TenantLock(call.scope.tenantId)
          && (call.stage.AwaitingTenant? <==> tenant.reactions != [])
          && (call.stage.TenantReleased? || call.stage.Finished? <==> tenant.innerResolved))
  }

  ghost predicate CallsInv(slots: seq<Slot>, calls: seq<Call>) {
    && (forall c :: 0 <= c < |calls| ==> CallShape(slots, calls[c], c))
    && (forall c, d :: 0 <= c < d < |calls| ==> calls[c].sessionSlot < calls[d].sessionSlot)
  }

  ghost predicate EntriesInv(budget: Budget, calls: seq<Call>) {
    forall c :: 0 <= c < |calls| ==> HasEntries(budget, calls[c].scope)
  }

  ghost predicate Inv(w: World) {
    && SlotsInv(w.slots, w.calls)
    && ChainInv(w.slots, w.tails)
    && LineInv(w.slots)
    && CallsInv(w.slots, w.calls)
    && EntriesInv(w.budget, w.calls)
  }

  // ----- the invariant is kept -----

  lemma ChainKeepsLines(w: World, lock: Lock, caller: nat)
    requires ChainInv(w.slots, w.tails) && LineInv(w.slots)
    ensures ChainInv(Chain(w, lock, caller).slots, Chain(w, lock, caller).tails)
    ensures LineInv(Chain(w, lock, caller).slots)
  {
    var v := Chain(w, lock, caller);
    assert GoodTail(w.slots, w.tails, lock);
    forall i, j | Ahead(v.slots, i, j)
      ensures v.slots[j].previous.Some? && i <= v.slots[j].previous.value
      ensures v.slots[j].reactions != BOTH ==> v.slots[i].tailResolved
    {
      assert InTails(w.slots, w.tails, i);
      if j < |w.slots| { assert Ahead(w.slots, i, j); }
    }
    forall j: nat ensures GoodLink(v.slots, j) {
      assert GoodLink(w.slots, j);
    }
    forall i: nat ensures InTails(v.slots, v.tails, i) {
      assert InTails(w.slots, w.tails, i);
    }
    forall l ensures GoodTail(v.slots, v.tails, l) {
      assert GoodTail(w.slots, w.tails, l);
    }
  }

  /** Progress of one slot keeps the lines, provided it was allowed to stir. */
  lemma UpdateKeepsLines(slots: seq<Slot>, tails: map<Lock, nat>, i: nat, s: Slot)
    requires i < |slots| && ChainInv(slots, tails) && LineInv(slots)
    requires s.lock == slots[i].lock && s.previous == slots[i].previous
    requires slots[i].tailResolved ==> s.tailResolved
    requires s.reactions != BOTH && slots[i].reactions == BOTH ==>
               forall k :: Ahead(slots, k, i) ==> slots[k].tailResolved
    ensures ChainInv(slots[i := s], tails) && LineInv(slots[i := s])
  {
    var after := slots[i := s];
    forall k, j | Ahead(after, k, j)
      ensures after[j].previous.Some? && k <= after[j].previous.value
      ensures after[j].reactions != BOTH ==> after[k].tailResolved
    {
      assert Ahead(slots, k, j);
    }
    forall j: nat ensures GoodLink(after, j) {
      assert GoodLink(slots, j);
    }
    forall k: nat ensures InTails(after, tails, k) {
      assert InTails(slots, tails, k);
    }
    forall l ensures GoodTail(after, tails, l) {
      assert GoodTail(slots, tails, l);
    }
  }

  /** A resolved predecessor means the whole line ahead has settled. */
  lemma ResolvedAhead(w: World, i: nat)
    requires Inv(w) && i < |w.slots| && PreviousResolved(w, i)
    ensures forall k :: Ahead(w.slots, k, i) ==> w.slots[k].tailResolved
  {
    forall k | Ahead(w.slots, k, i) ensures w.slots[k].tailResolved {
      var p := w.slots[i].previous.value;
      assert GoodLink(w.slots, i) && GoodSlot(w.slots, w.calls, p);
      if k < p {
        assert Ahead(w.slots, k, p);
      }
    }
  }

  lemma InvokeKeepsInv(w: World, scope: Scope, reading: Option<int>)
    requires Inv(w)
    ensures Inv(InvokeStep(w, scope, reading))
  {
    var v := InvokeStep(w, scope, reading);
    if reading.Some? {
      ChainKeepsLines(w, SessionLock(ScopeKey(scope)), |w.calls|);
      forall i: nat ensures GoodSlot(v.slots, v.calls, i) {
        assert GoodSlot(w.slots, w.calls, i);
      }
    }
  }

  lemma BindKeepsInv(w: World, i: nat)
    requires Inv(w) && CanReact(w, i) && w.slots[i].reactions[0].BindRelease?
    ensures Inv(BindStep(w, i))
  {
    ResolvedAhead(w, i);
    var v := BindStep(w, i);
    assert GoodSlot(w.slots, w.calls, i);
    UpdateKeepsLines(w.slots, w.tails, i, v.slots[i]);
    forall k: nat ensures GoodSlot(v.slots, v.calls, k) {
      assert GoodSlot(w.slots, w.calls, k);
    }
  }

  lemma {:induction false} ResumeSessionKeepsInv(cfg: Config, w: World, i: nat, reading: Option<int>)
    requires Inv(w) && CanReact(w, i) && w.slots[i].reactions[0].ResumeBody? && w.slots[i].lock.SessionLock?
    ensures Inv(ResumeStep(cfg, w, i, reading))
  {
    var v := ResumeStep(cfg, w, i, reading);
    var c := w.slots[i].caller;
    assert GoodSlot(w.slots, w.calls, i) && CallShape(w.slots, w.calls[c], c);
    var mid := w.(slots := w.slots[i := v.slots[i]], calls := v.calls);
    UpdateKeepsLines(w.slots, w.tails, i, v.slots[i]);
    ChainKeepsLines(mid, TenantLock(w.calls[c].scope.tenantId), c);
    forall k: nat ensures GoodSlot(v.slots, v.calls, k) {
      assert GoodSlot(w.slots, w.calls, k);
    }
    forall d | 0 <= d < |v.calls| ensures CallShape(v.slots, v.calls[d], d) {
      assert CallShape(w.slots, w.calls[d], d);
    }
  }

  lemma {:induction false} ResumeTenantKeepsInv(cfg: Config, w: World, i: nat, reading: Option<int>)
    requires Inv(w) && CanReact(w, i) && w.slots[i].reactions[0].ResumeBody? && w.slots[i].lock.TenantLock?
    ensures Inv(ResumeStep(cfg, w, i, reading))
  {
    var v := ResumeStep(cfg, w, i, reading);
    var c := w.slots[i].caller;
    assert GoodSlot(w.slots, w.calls, i) && CallShape(w.slots, w.calls[c], c);
    UpdateKeepsLines(w.slots, w.tails, i, v.slots[i]);
    forall k: nat ensures GoodSlot(v.slots, v.calls, k) {
      assert GoodSlot(w.slots, w.calls, k);
    }
    forall d | 0 <= d < |v.calls| ensures CallShape(v.slots, v.calls[d], d) {
      assert CallShape(w.slots, w.calls[d], d);
    }
  }

  lemma {:induction false} ReleaseKeepsInv(cfg: Config, w: World, step: Step)
    requires Inv(w) && Enabled(w, step) && (step.ReleaseTenant? || step.ReleaseSession?)
    ensures Inv(Apply(cfg, w, step))
  {
    var v := Apply(cfg, w, step);
    var c := step.call;
    var i := if step.ReleaseTenant? then w.calls[c].tenantSlot.value else w.calls[c].sessionSlot;
    assert CallShape(w.slots, w.calls[c], c) && GoodSlot(w.slots, w.calls, i);
    UpdateKeepsLines(w.slots, w.tails, i, v.slots[i]);
    forall k: nat ensures GoodSlot(v.slots, v.calls, k) {
      assert GoodSlot(w.slots, w.calls, k);
    }
    forall d | 0 <= d < |v.calls| ensures CallShape(v.slots, v.calls[d], d) {
      assert CallShape(w.slots, w.calls[d], d);
    }
  }

  lemma SettleKeepsInv(cfg: Config, w: World, i: nat)
    requires Inv(w) && CanSettle(w, i)
    ensures Inv(Apply(cfg, w, Settle(i)))
  {
    var v := Apply(cfg, w, Settle(i));
    assert GoodSlot(w.slots, w.calls, i);
    UpdateKeepsLines(w.slots, w.tails, i, v.slots[i]);
    forall k: nat ensures GoodSlot(v.slots, v.calls, k) {
      assert GoodSlot(w.slots, w.calls, k);
    }
  }

  lemma StepKeepsInv(cfg: Config, w: World, step: Step)
    requires Inv(w) && Enabled(w, step)
    ensures Inv(Apply(cfg, w, step))
  {
    match step
    case Invoke(scope, reading) => InvokeKeepsInv(w, scope, reading);
    case React(i, reading) =>
      if w.slots[i].reactions[0].BindRelease? {
        BindKeepsInv(w, i);
      } else if w.slots[i].lock.SessionLock? {
        ResumeSessionKeepsInv(cfg, w, i, reading);
      } else {
        ResumeTenantKeepsInv(cfg, w, i, reading);
      }
    case ReleaseTenant(_) => ReleaseKeepsInv(cfg, w, step);
    case ReleaseSession(_) => ReleaseKeepsInv(cfg, w, step);
    case Settle(i) => SettleKeepsInv(cfg, w, i);
    case Refund(scope) =>
  }

  lemma {:induction false} RunKeepsInv(cfg: Config, w: World, steps: seq<Step>)
    requires Inv(w) && ValidRun(cfg, w, steps)
    ensures Inv(After(cfg, w, steps))
    decreases |steps|
  {
    if steps != [] {
      StepKeepsInv(cfg, w, steps[0]);
      RunKeepsInv(cfg, Apply(cfg, w, steps[0]), steps[1..]);
    }
  }

  ghost predicate Reachable(cfg: Config, w: World) {
    exists steps :: ValidRun(cfg, Start(), steps) && After(cfg, Start(), steps) == w
  }

  lemma ReachableInv(cfg: Config, w: World)
    requires Reachable(cfg, w)
    ensures Inv(w)
  {
    var steps :| ValidRun(cfg, Start(), steps) && After(cfg, Start(), steps) == w;
    RunKeepsInv(cfg, Start(), steps);
  }

  // ----- safety -----

  /** The closure of slot i has started and its releaseLock has not been called. */
  predicate Inside(w: World, i: nat) {
    i < |w.slots| && w.slots[i].reactions == [] && !w.slots[i].innerResolved
  }

  /** At most one closure per session entry and per tenant entry runs at a time. */
  lemma MutualExclusion(cfg: Config, w: World, i: nat, j: nat)
    requires Reachable(cfg, w)
    requires Inside(w, i) && Inside(w, j) && w.slots[i].lock == w.slots[j].lock
    ensures i == j
  {
    ReachableInv(cfg, w);
    assert GoodSlot(w.slots, w.calls, i) && GoodSlot(w.slots, w.calls, j);
    assert i < j ==> Ahead(w.slots, i, j);
    assert j < i ==> Ahead(w.slots, j, i);
  }

  /** Slots of one entry are served in the order in which they were chained: once a later one has
      been admitted, every earlier one has run its closure and released the lock. */
  lemma ArrivalOrder(cfg: Config, w: World, i: nat, j: nat)
    requires Reachable(cfg, w)
    requires Ahead(w.slots, i, j) && w.slots[j].reactions == []
    ensures w.slots[i].reactions == [] && w.slots[i].innerResolved
    ensures w.slots[i].caller < |w.calls| && w.calls[w.slots[i].caller].outcome.Some?
  {
    ReachableInv(cfg, w);
    assert GoodSlot(w.slots, w.calls, i);
    var c := w.slots[i].caller;
    assert CallShape(w.slots, w.calls[c], c);
  }

  /** Consumes of one session are served, from entry to return, in the order of invocation. */
  lemma SessionOrder(cfg: Config, w: World, c: nat, d: nat)
    requires Reachable(cfg, w)
    requires c < d < |w.calls| && ScopeKey(w.calls[c].scope) == ScopeKey(w.calls[d].scope)
    requires !w.calls[d].stage.AwaitingSession?
    ensures w.calls[c].stage.Finished?
  {
    ReachableInv(cfg, w);
    assert CallShape(w.slots, w.calls[c], c) && CallShape(w.slots, w.calls[d], d);
    var i, j := w.calls[c].sessionSlot, w.calls[d].sessionSlot;
    assert Ahead(w.slots, i, j) && GoodSlot(w.slots, w.calls, i);
  }

  /** The `finally` blocks never call the initial no-op: releaseLock is bound by then, so every
      release resolves the promise the next caller waits for. */
  lemma ReleaseIsBound(cfg: Config, w: World, c: nat)
    requires Reachable(cfg, w)
    ensures CanReleaseTenant(w, c) ==> w.slots[w.calls[c].tenantSlot.value].releaseBound
    ensures CanReleaseSession(w, c) ==> w.slots[w.calls[c].sessionSlot].releaseBound
  {
    ReachableInv(cfg, w);
    if CanReleaseTenant(w, c) || CanReleaseSession(w, c) {
      assert CallShape(w.slots, w.calls[c], c);
      assert GoodSlot(w.slots, w.calls, w.calls[c].sessionSlot);
      assert GoodSlot(w.slots, w.calls, w.calls[c].tenantSlot.value);
    }
  }

  // ----- progress -----

  /** The first unsettled slot of a lock can take a step, unless it waits for its tenant slot. */
  lemma {:induction false} FirstUnsettled(w: World, i: nat) returns (f: nat)
    requires Inv(w) && i < |w.slots| && !w.slots[i].tailResolved
    ensures f < |w.slots| && w.slots[f].lock == w.slots[i].lock && !w.slots[f].tailResolved
    ensures PreviousResolved(w, f)
    decreases i
  {
    assert GoodLink(w.slots, i);
    if PreviousResolved(w, i) {
      f := i;
    } else {
      f := FirstUnsettled(w, w.slots[i].previous.value);
    }
  }

  /** A slot at the head of its line always has an internal step, its own or its owner's. */
  lemma HeadCanMove(w: World, f: nat) returns (step: Step)
    requires Inv(w) && f < |w.slots| && !w.slots[f].tailResolved && PreviousResolved(w, f)
    requires w.slots[f].lock.SessionLock? ==>
               forall i :: 0 <= i < |w.slots| && w.slots[i].lock.TenantLock? ==> w.slots[i].tailResolved
    ensures Internal(step) && Enabled(w, step)
  {
    var s := w.slots[f];
    var c := s.caller;
    assert GoodSlot(w.slots, w.calls, f) && CallShape(w.slots, w.calls[c], c);
    if s.reactions != [] {
      step := React(f, None);
    } else if s.innerResolved {
      step := Settle(f);
    } else if s.lock.TenantLock? {
      step := ReleaseTenant(c);
    } else {
      assert GoodSlot(w.slots, w.calls, w.calls[c].tenantSlot.value);
      step := ReleaseSession(c);
    }
  }

  /** Deadlock freedom: while some slot is unsettled, some internal step is possible. */
  lemma SomebodyCanMove(w: World, i: nat) returns (step: Step)
    requires Inv(w) && i < |w.slots| && !w.slots[i].tailResolved
    ensures Internal(step) && Enabled(w, step)
  {
    var j := i;
    if t: nat :| t < |w.slots| && w.slots[t].lock.TenantLock? && !w.slots[t].tailResolved {
      j := t;
    }
    var f := FirstUnsettled(w, j);
    step := HeadCanMove(w, f);
  }

  /** Session locks before tenant locks leaves no deadlocked state. */
  lemma NoDeadlock(cfg: Config, w: World, c: nat)
    requires Reachable(cfg, w)
    requires c < |w.calls| && !w.calls[c].stage.Finished?
    ensures exists step :: Internal(step) && Enabled(w, step)
  {
    ReachableInv(cfg, w);
    assert CallShape(w.slots, w.calls[c], c);
    assert GoodSlot(w.slots, w.calls, w.calls[c].sessionSlot);
    var step := SomebodyCanMove(w, w.calls[c].sessionSlot);
  }

  // ----- every call finishes -----

  function SlotWork(s: Slot): nat {
    |s.reactions| + (if s.innerResolved then 0 else 1) + (if s.tailResolved then 0 else 1)
  }

  function SlotsWork(slots: seq<Slot>): nat {
    if slots == [] then 0 else SlotsWork(slots[..|slots| - 1]) + SlotWork(slots[|slots| - 1])
  }

  /** A call that has not chained on its tenant yet still has that slot's four steps to come. */
  function CallWork(c: Call): nat {
    if c.stage.AwaitingSession? then 4 else 0
  }

  function CallsWork(calls: seq<Call>): nat {
    if calls == [] then 0 else CallsWork(calls[..|calls| - 1]) + CallWork(calls[|calls| - 1])
  }

  /** The number of internal steps that remain until everything is settled. */
  function Work(w: World): nat {
    SlotsWork(w.slots) + CallsWork(w.calls)
  }

  lemma {:induction false} SlotsWorkUpdate(slots: seq<Slot>, i: nat, s: Slot)
    requires i < |slots|
    ensures SlotsWork(slots[i := s]) == SlotsWork(slots) - SlotWork(slots[i]) + SlotWork(s)
  {
    var n := |slots| - 1;
    if i == n {
      assert slots[i := s][..n] == slots[..n];
    } else {
      assert slots[i := s][..n] == slots[..n][i := s];
      SlotsWorkUpdate(slots[..n], i, s);
    }
  }

  lemma SlotsWorkAppend(slots: seq<Slot>, s: Slot)
    ensures SlotsWork(slots + [s]) == SlotsWork(slots) + SlotWork(s)
  {
    assert (slots + [s])[..|slots|] == slots;
  }

  lemma {:induction false} CallsWorkUpdate(calls: seq<Call>, i: nat, c: Call)
    requires i < |calls|
    ensures CallsWork(calls[i := c]) == CallsWork(calls) - CallWork(calls[i]) + CallWork(c)
  {
    var n := |calls| - 1;
    if i == n {
      assert calls[i := c][..n] == calls[..n];
    } else {
      assert calls[i := c][..n] == calls[..n][i := c];
      CallsWorkUpdate(calls[..n], i, c);
    }
  }

  lemma {:induction false} ReactWorks(cfg: Config, w: World, i: nat, reading: Option<int>)
    requires Inv(w) && CanReact(w, i)
    ensures Work(Apply(cfg, w, React(i, reading))) == Work(w) - 1
  {
    var v, s := Apply(cfg, w, React(i, reading)), w.slots[i];
    assert GoodSlot(w.slots, w.calls, i) && CallShape(w.slots, w.calls[s.caller], s.caller);
    SlotsWorkUpdate(w.slots, i, v.slots[i]);
    if s.reactions[0].ResumeBody? {
      CallsWorkUpdate(w.calls, s.caller, v.calls[s.caller]);
      if s.lock.SessionLock? {
        SlotsWorkAppend(w.slots[i := v.slots[i]], v.slots[|w.slots|]);
      }
    }
  }

  lemma {:induction false} ReleaseWorks(cfg: Config, w: World, step: Step, c: nat, i: nat)
    requires Inv(w) && Enabled(w, step) && c < |w.calls|
    requires || (step == ReleaseTenant(c) && w.calls[c].tenantSlot == Some(i))
             || (step == ReleaseSession(c) && w.calls[c].sessionSlot == i)
    ensures Work(Apply(cfg, w, step)) == Work(w) - 1
  {
    var v := Apply(cfg, w, step);
    assert CallShape(w.slots, w.calls[c], c) && GoodSlot(w.slots, w.calls, i);
    SlotsWorkUpdate(w.slots, i, v.slots[i]);
    CallsWorkUpdate(w.calls, c, v.calls[c]);
  }

  lemma {:induction false} InternalStepWorks(cfg: Config, w: World, step: Step)
    requires Inv(w) && Enabled(w, step) && Internal(step)
    ensures Work(Apply(cfg, w, step)) == Work(w) - 1
  {
    match step
    case React(i, reading) => ReactWorks(cfg, w, i, reading);
    case Settle(i) => SlotsWorkUpdate(w.slots, i, Apply(cfg, w, step).slots[i]);
    case ReleaseTenant(c) => ReleaseWorks(cfg, w, step, c, w.calls[c].tenantSlot.value);
    case ReleaseSession(c) => ReleaseWorks(cfg, w, step, c, w.calls[c].sessionSlot);
  }

  ghost predicate AllInternal(steps: seq<Step>) {
    forall i :: 0 <= i < |steps| ==> Internal(steps[i])
  }

  ghost predicate Stuck(w: World) {
    forall step :: Internal(step) ==> !Enabled(w, step)
  }

  ghost predicate AllFinished(w: World) {
    forall c :: 0 <= c < |w.calls| ==> w.calls[c].stage.Finished? && w.calls[c].outcome.Some?
  }

  lemma {:induction false} InternalRunWorks(cfg: Config, w: World, steps: seq<Step>)
    requires Inv(w) && ValidRun(cfg, w, steps) && AllInternal(steps)
    ensures Work(After(cfg, w, steps)) + |steps| == Work(w)
    decreases |steps|
  {
    if steps != [] {
      InternalStepWorks(cfg, w, steps[0]);
      StepKeepsInv(cfg, w, steps[0]);
      InternalRunWorks(cfg, Apply(cfg, w, steps[0]), steps[1..]);
    }
  }

  lemma {:induction false} NoWorkAllSettled(slots: seq<Slot>)
    requires SlotsWork(slots) == 0
    ensures forall i :: 0 <= i < |slots| ==> slots[i].tailResolved
  {
    if slots != [] {
      NoWorkAllSettled(slots[..|slots| - 1]);
    }
  }

  lemma SettledMeansFinished(w: World)
    requires Inv(w)
    requires forall i :: 0 <= i < |w.slots| ==> w.slots[i].tailResolved
    ensures AllFinished(w)
  {
    forall c | 0 <= c < |w.calls| ensures w.calls[c].stage.Finished? && w.calls[c].outcome.Some? {
      assert CallShape(w.slots, w.calls[c], c);
      assert GoodSlot(w.slots, w.calls, w.calls[c].sessionSlot);
    }
  }

  /** Without new consumes, however the reactions interleave, the engine stops after exactly
      Work(w) internal steps, and then every call has returned with an outcome. */
  lemma EveryCallFinishes(cfg: Config, w: World, steps: seq<Step>)
    requires Reachable(cfg, w)
    requires ValidRun(cfg, w, steps) && AllInternal(steps)
    ensures |steps| <= Work(w)
    ensures Stuck(After(cfg, w, steps)) <==> |steps| == Work(w)
    ensures |steps| == Work(w) ==> AllFinished(After(cfg, w, steps))
  {
    ReachableInv(cfg, w);
    RunKeepsInv(cfg, w, steps);
    InternalRunWorks(cfg, w, steps);
    var v := After(cfg, w, steps);
    if Work(v) == 0 {
      NoWorkAllSettled(v.slots);
      SettledMeansFinished(v);
      forall step | Internal(step) ensures !Enabled(v, step) {
        if Enabled(v, step) {
          InternalStepWorks(cfg, v, step);
        }
      }
    } else {
      WorkMeansUnsettled(v);
      var i: nat :| i < |v.slots| && !v.slots[i].tailResolved;
      var step := SomebodyCanMove(v, i);
    }
  }

  lemma {:induction false} AllSettledNoWork(slots: seq<Slot>)
    requires forall i :: 0 <= i < |slots| ==> SlotShape(slots[i]) && slots[i].tailResolved
    ensures SlotsWork(slots) == 0
  {
    if slots != [] {
      AllSettledNoWork(slots[..|slots| - 1]);
    }
  }

  lemma {:induction false} AllFinishedNoWork(calls: seq<Call>)
    requires forall i :: 0 <= i < |calls| ==> calls[i].stage.Finished?
    ensures CallsWork(calls) == 0
  {
    if calls != [] {
      AllFinishedNoWork(calls[..|calls| - 1]);
    }
  }

  lemma WorkMeansUnsettled(w: World)
    requires Inv(w) && Work(w) > 0
    ensures exists i: nat :: i < |w.slots| && !w.slots[i].tailResolved
  {
    if forall i: nat :: i < |w.slots| ==> w.slots[i].tailResolved {
      SettledMeansFinished(w);
      forall i | 0 <= i < |w.slots| ensures SlotShape(w.slots[i]) {
        assert GoodSlot(w.slots, w.calls, i);
      }
      AllSettledNoWork(w.slots);
      AllFinishedNoWork(w.calls);
    }
  }
}
