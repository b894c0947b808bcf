/**
 Runs in which the calls are made one after another, and with them the exact condition under
 which the daily cap holds.
 */
module BudgetSchedules {
  import opened Prelude
  import opened EditorAssistBudget
  import opened BudgetLockProtocol
  import opened BudgetAccounting

  lemma {:induction false} RunOneMore(cfg: Config, w: World, steps: seq<Step>, step: Step)
    requires ValidRun(cfg, w, steps) && Enabled(After(cfg, w, steps), step)
    ensures ValidRun(cfg, w, steps + [step])
    ensures After(cfg, w, steps + [step]) == Apply(cfg, After(cfg, w, steps), step)
    decreases |steps|
  {
    var all := steps + [step];
    if steps == [] {
      assert all[1..] == [] && all[0] == step;
    } else {
      assert all[0] == steps[0] && all[1..] == steps[1..] + [step];
      RunOneMore(cfg, Apply(cfg, w, steps[0]), steps[1..], step);
    }
  }

  lemma ReachMore(cfg: Config, w: World, step: Step)
    requires Reachable(cfg, w) && Enabled(w, step)
    ensures Reachable(cfg, Apply(cfg, w, step))
  {
    var steps :| ValidRun(cfg, Start(), steps) && After(cfg, Start(), steps) == w;
    RunOneMore(cfg, Start(), steps, step);
  }

  lemma StartIsReachable(cfg: Config)
    ensures Reachable(cfg, Start())
  {
    assert ValidRun(cfg, Start(), []) && After(cfg, Start(), []) == Start();
  }

  // ----- one call alone -----

  /** Nobody holds or waits for a lock. */
  ghost predicate Quiet(w: World) {
    forall l :: l in w.tails ==> w.tails[l] < |w.slots| && w.slots[w.tails[l]].tailResolved
  }

  function Tail(tails: map<Lock, nat>, l: Lock): Option<nat> {
    if l in tails then Some(tails[l]) else None
  }

  function SessionOf(scope: Scope): Lock {
    SessionLock(ScopeKey(scope))
  }

  function TenantOf(scope: Scope): Lock {
    TenantLock(scope.tenantId)
  }

  /** World w with one more call: its two slots and what it has done to the rest. */
  function With(w: World, scope: Scope, budget: Budget, log: seq<Entry>, clock: seq<int>, slots: seq<Slot>, call: Call): World {
    var first := w.tails[SessionOf(scope) := |w.slots|];
    World(budget, w.slots + slots, w.calls + [call],
          if |slots| < 2 then first else first[TenantOf(scope) := |w.slots| + 1], log, clock)
  }

  function SessionSlot(w: World, scope: Scope, reactions: seq<Reaction>, innerResolved: bool, tailResolved: bool): Slot {
    Slot(SessionOf(scope), |w.calls|, Tail(w.tails, SessionOf(scope)), reactions, reactions != BOTH, innerResolved, tailResolved)
  }

  function TenantSlot(w: World, scope: Scope, reactions: seq<Reaction>, innerResolved: bool, tailResolved: bool): Slot {
    Slot(TenantOf(scope), |w.calls|, Tail(w.tails, TenantOf(scope)), reactions, reactions != BOTH, innerResolved, tailResolved)
  }

  function CallAt(w: World, scope: Scope, stage: Stage, outcome: Option<Outcome>): Call {
    Call(scope, |w.slots|, if stage.AwaitingSession? then None else Some(|w.slots| + 1), stage, outcome)
  }

  function Invoked(w: World, scope: Scope, day: int, slots: seq<Slot>, stage: Stage): World {
    With(w, scope, OpenEntries(w.budget, scope, Some(day)), w.log + OpenLog(w.budget, scope, Some(day)),
         w.clock + [day], slots, CallAt(w, scope, stage, None))
  }

  /** The same world after the closure has run. */
  function Consumed(cfg: Config, w: World, scope: Scope, day: int, slots: seq<Slot>, stage: Stage): World {
    var entered := OpenEntries(w.budget, scope, Some(day));
    var (budget, outcome) := ConsumeBody(cfg, entered, scope, Some(day));
    With(w, scope, budget, w.log + OpenLog(w.budget, scope, Some(day)) + BodyLog(cfg, entered, scope, Some(day)),
         w.clock + [day] + [day], slots, CallAt(w, scope, stage, Some(outcome)))
  }

  function Left(cfg: Config, w: World, scope: Scope, day: int): World {
    Consumed(cfg, w, scope, day, [SessionSlot(w, scope, [], true, true), TenantSlot(w, scope, [], true, true)], Finished)
  }

  lemma UpdateLast<T>(s: seq<T>, x: T, y: T)
    ensures (s + [x])[|s| := y] == s + [y] && (s + [x])[|s|] == x && |s + [x]| == |s| + 1
  {
  }

  lemma UpdatePair<T>(s: seq<T>, x: T, y: T, z: T)
    ensures (s + [x, y])[|s| := z] == s + [z, y] && (s + [x, y])[|s| + 1 := z] == s + [x, z]
    ensures (s + [x, y])[|s|] == x && (s + [x, y])[|s| + 1] == y && |s + [x, y]| == |s| + 2
    ensures s + [x] + [y] == s + [x, y]
  {
  }

  lemma InvokeAlone(cfg: Config, w: World, scope: Scope, day: int)
    requires Reachable(cfg, w)
    ensures Reachable(cfg, Invoked(w, scope, day, [SessionSlot(w, scope, BOTH, false, false)], AwaitingSession))
  {
    ReachMore(cfg, w, Invoke(scope, Some(day)));
  }

  lemma {:induction false} BindSession(cfg: Config, w: World, scope: Scope, day: int)
    requires Reachable(cfg, w) && Quiet(w)
    ensures Reachable(cfg, Invoked(w, scope, day, [SessionSlot(w, scope, [ResumeBody], false, false)], AwaitingSession))
  {
    InvokeAlone(cfg, w, scope, day);
    var n, x, y := |w.slots|, SessionSlot(w, scope, BOTH, false, false), SessionSlot(w, scope, [ResumeBody], false, false);
    var u := Invoked(w, scope, day, [x], AwaitingSession);
    UpdateLast(w.slots, x, y);
    UpdateLast(w.calls, u.calls[|w.calls|], u.calls[|w.calls|]);
    assert CanReact(u, n);
    ReachMore(cfg, u, React(n, None));
    assert Apply(cfg, u, React(n, None)) == Invoked(w, scope, day, [y], AwaitingSession);
  }

  lemma {:induction false} ResumeSession(cfg: Config, w: World, scope: Scope, day: int)
    requires Reachable(cfg, w) && Quiet(w)
    ensures Reachable(cfg, Invoked(w, scope, day, [SessionSlot(w, scope, [], false, false),
                                                   TenantSlot(w, scope, BOTH, false, false)], AwaitingTenant))
  {
    BindSession(cfg, w, scope, day);
    var n, x, y := |w.slots|, SessionSlot(w, scope, [ResumeBody], false, false), SessionSlot(w, scope, [], false, false);
    var u := Invoked(w, scope, day, [x], AwaitingSession);
    var z := TenantSlot(w, scope, BOTH, false, false);
    var v := Invoked(w, scope, day, [y, z], AwaitingTenant);
    UpdateLast(w.slots, x, y);
    UpdateLast(w.calls, u.calls[|w.calls|], v.calls[|w.calls|]);
    UpdatePair(w.slots, y, z, z);
    assert CanReact(u, n);
    ReachMore(cfg, u, React(n, None));
    var after := Apply(cfg, u, React(n, None));
    assert x.(reactions := x.reactions[1..]) == y;
    assert after.slots == w.slots + [y] + [z];
    assert after == v;
  }

  lemma {:induction false} BindTenant(cfg: Config, w: World, scope: Scope, day: int)
    requires Reachable(cfg, w) && Quiet(w)
    ensures Reachable(cfg, Invoked(w, scope, day, [SessionSlot(w, scope, [], false, false),
                                                   TenantSlot(w, scope, [ResumeBody], false, false)], AwaitingTenant))
  {
    ResumeSession(cfg, w, scope, day);
    var n, x := |w.slots|, SessionSlot(w, scope, [], false, false);
    var y, z := TenantSlot(w, scope, BOTH, false, false), TenantSlot(w, scope, [ResumeBody], false, false);
    var u := Invoked(w, scope, day, [x, y], AwaitingTenant);
    UpdatePair(w.slots, x, y, z);
    UpdateLast(w.calls, u.calls[|w.calls|], u.calls[|w.calls|]);
    assert CanReact(u, n + 1);
    ReachMore(cfg, u, React(n + 1, None));
    assert Apply(cfg, u, React(n + 1, None)) == Invoked(w, scope, day, [x, z], AwaitingTenant);
  }

  /** The step that runs the closure of tenant slot i, written out. */
  lemma {:induction false} BodyOf(cfg: Config, u: World, i: nat, day: int, s: Slot, call: Call)
    requires CanReact(u, i) && u.slots[i].reactions[0].ResumeBody? && u.slots[i].lock.TenantLock?
    requires s == u.slots[i].(reactions := u.slots[i].reactions[1..])
    requires var before := u.calls[u.slots[i].caller];
             call == before.(stage := Holding, outcome := Some(ConsumeBody(cfg, u.budget, before.scope, Some(day)).1))
    ensures var scope := u.calls[u.slots[i].caller].scope;
            Apply(cfg, u, React(i, Some(day))) ==
            World(ConsumeBody(cfg, u.budget, scope, Some(day)).0, u.slots[i := s], u.calls[u.slots[i].caller := call],
                  u.tails, u.log + BodyLog(cfg, u.budget, scope, Some(day)), u.clock + [day])
  {
  }

  lemma {:induction false} RunBody(cfg: Config, w: World, scope: Scope, day: int)
    requires Reachable(cfg, w) && Quiet(w)
    ensures Reachable(cfg, Consumed(cfg, w, scope, day, [SessionSlot(w, scope, [], false, false),
                                                         TenantSlot(w, scope, [], false, false)], Holding))
  {
    BindTenant(cfg, w, scope, day);
    var n, x := |w.slots|, SessionSlot(w, scope, [], false, false);
    var y, z := TenantSlot(w, scope, [ResumeBody], false, false), TenantSlot(w, scope, [], false, false);
    var u, v := Invoked(w, scope, day, [x, y], AwaitingTenant), Consumed(cfg, w, scope, day, [x, z], Holding);
    UpdatePair(w.slots, x, y, z);
    UpdateLast(w.calls, u.calls[|w.calls|], v.calls[|w.calls|]);
    assert y.(reactions := y.reactions[1..]) == z;
    BodyOf(cfg, u, n + 1, day, z, v.calls[|w.calls|]);
    ReachMore(cfg, u, React(n + 1, Some(day)));
    assert Apply(cfg, u, React(n + 1, Some(day))) == v;
  }

  lemma {:induction false} GiveUpTenant(cfg: Config, w: World, scope: Scope, day: int)
    requires Reachable(cfg, w) && Quiet(w)
    ensures Reachable(cfg, Consumed(cfg, w, scope, day, [SessionSlot(w, scope, [], false, false),
                                                         TenantSlot(w, scope, [], true, true)], TenantReleased))
  {
    RunBody(cfg, w, scope, day);
    var n, c, x := |w.slots|, |w.calls|, SessionSlot(w, scope, [], false, false);
    var y, z := TenantSlot(w, scope, [], false, false), TenantSlot(w, scope, [], true, false);
    var u, v := Consumed(cfg, w, scope, day, [x, y], Holding), Consumed(cfg, w, scope, day, [x, z], TenantReleased);
    UpdatePair(w.slots, x, y, z);
    UpdateLast(w.calls, u.calls[c], v.calls[c]);
    ReachMore(cfg, u, ReleaseTenant(c));
    assert Apply(cfg, u, ReleaseTenant(c)) == v;
    UpdatePair(w.slots, x, z, TenantSlot(w, scope, [], true, true));
    ReachMore(cfg, v, Settle(n + 1));
  }

  lemma {:induction false} GiveUpSession(cfg: Config, w: World, scope: Scope, day: int)
    requires Reachable(cfg, w) && Quiet(w)
    ensures Reachable(cfg, Left(cfg, w, scope, day))
  {
    GiveUpTenant(cfg, w, scope, day);
    var n, c, x := |w.slots|, |w.calls|, TenantSlot(w, scope, [], true, true);
    var y, z := SessionSlot(w, scope, [], false, false), SessionSlot(w, scope, [], true, false);
    var u, v := Consumed(cfg, w, scope, day, [y, x], TenantReleased), Consumed(cfg, w, scope, day, [z, x], Finished);
    UpdatePair(w.slots, y, x, z);
    UpdateLast(w.calls, u.calls[c], v.calls[c]);
    ReachMore(cfg, u, ReleaseSession(c));
    assert Apply(cfg, u, ReleaseSession(c)) == v;
    UpdatePair(w.slots, z, x, SessionSlot(w, scope, [], true, true));
    ReachMore(cfg, v, Settle(n));
  }

  /** A call made while nothing else is going on runs to its end by itself. */
  lemma {:induction false} CallAlone(cfg: Config, w: World, scope: Scope, day: int)
    requires Reachable(cfg, w) && Quiet(w)
    ensures Reachable(cfg, Left(cfg, w, scope, day)) && Quiet(Left(cfg, w, scope, day))
  {
    GiveUpSession(cfg, w, scope, day);
  }

  // ----- filling a day -----

  const TENANT := "t"

  /** The n-th user session of one tenant. */
  function NthScope(n: nat): Scope {
    Scope(TENANT, "u", seq(n, i => 's'))
  }

  /** All sessions used so far have shorter keys than the n-th. */
  ghost predicate SessionsBelow(b: Budget, n: nat) {
    forall k :: k in b.sessions ==> |k| < 4 + n
  }

  /** The tenant has used this much in its current visit to `day`; day 5 has seen so many grants, visits
      and refunds. */
  ghost predicate Filled(
    cfg: Config, w: World, n: nat, day: int, used: nat, grants: nat, visits: nat, refunds: nat)
  {
    && Reachable(cfg, w) && Quiet(w)
    && SessionsBelow(w.budget, n)
    && (if n == 0 then TENANT !in w.budget.tenants
        else TENANT in w.budget.tenants && w.budget.tenants[TENANT] == TenantDay(day, used))
    && DayGrants(w.log, TENANT, 5) == grants
    && TimesEntered(w.log, TENANT, 5) == visits
    && DayRefunds(w.log, TENANT, 5) == refunds
    && (refunds == 0 ==> RefundFree(w.log))
  }

  lemma RefundFreeCall(cfg: Config, w: World, scope: Scope, day: int)
    requires RefundFree(w.log)
    ensures RefundFree(Left(cfg, w, scope, day).log)
  {
  }

  /** One more call, in a new session, on day d. */
  lemma {:induction false} NextCall(
    cfg: Config, w: World, n: nat, day: int, used: nat, grants: nat, visits: nat, refunds: nat, d: int)
    returns (v: World)
    requires Filled(cfg, w, n, day, used, grants, visits, refunds) && cfg.limit >= 1
    requires (if n > 0 && day == d then used else 0) < cfg.tenantDailyCap
    ensures Filled(cfg, v, n + 1, d, (if n > 0 && day == d then used else 0) + 1,
                   grants + (if d == 5 then 1 else 0),
                   visits + (if d == 5 && (n == 0 || day != d) then 1 else 0), refunds)
  {
    var scope := NthScope(n);
    v := Left(cfg, w, scope, d);
    CallAlone(cfg, w, scope, d);
    if refunds == 0 {
      RefundFreeCall(cfg, w, scope, d);
    }
    assert |ScopeKey(scope)| == 4 + n;
    assert ScopeKey(scope) !in w.budget.sessions;
    var entered := OpenEntries(w.budget, scope, Some(d));
    assert ConsumeBody(cfg, entered, scope, Some(d)).1.Granted?;
    OpenDay(w.budget, w.log, scope, Some(d), TENANT, 5);
    BodyDay(cfg, entered, w.log + OpenLog(w.budget, scope, Some(d)), scope, d, TENANT, 5);
  }

  /** A refund of a day's grant. */
  lemma {:induction false} NextRefund(
    cfg: Config, w: World, n: nat, used: nat, grants: nat, visits: nat, refunds: nat) returns (v: World)
    requires Filled(cfg, w, n, 5, used, grants, visits, refunds) && n > 0 && used > 0
    ensures Filled(cfg, v, n, 5, used - 1, grants, visits, refunds + 1)
  {
    var scope := NthScope(0);
    v := Apply(cfg, w, Refund(scope));
    ReachMore(cfg, w, Refund(scope));
    var steps :| ValidRun(cfg, Start(), steps) && After(cfg, Start(), steps) == w;
    RunKeepsVisits(cfg, Start(), steps, TENANT);
    assert DayBounded(cfg, w.budget, w.log, TENANT, 5);
    RefundDay(w.budget, w.log, scope, TENANT, 5);
  }

  /** Day 5 is filled with m grants in one visit. */
  lemma {:induction false} FillDay(cfg: Config, m: nat) returns (w: World)
    requires cfg.limit >= 1 && 1 <= m <= cfg.tenantDailyCap
    ensures Filled(cfg, w, m, 5, m, m, 1, 0)
  {
    if m == 1 {
      StartIsReachable(cfg);
      assert Filled(cfg, Start(), 0, 5, 0, 0, 0, 0);
      w := NextCall(cfg, Start(), 0, 5, 0, 0, 0, 0, 5);
    } else {
      var before := FillDay(cfg, m - 1);
      w := NextCall(cfg, before, m - 1, 5, m - 1, m - 1, 1, 0, 5);
    }
  }

  /** A reachable state in which day 5 has seen these figures. */
  ghost predicate Sees(cfg: Config, w: World, grants: int, visits: nat, refunds: nat) {
    && Reachable(cfg, w)
    && DayGrants(w.log, TENANT, 5) == grants
    && TimesEntered(w.log, TENANT, 5) == visits
    && DayRefunds(w.log, TENANT, 5) == refunds
    && (refunds == 0 ==> RefundFree(w.log))
  }

  /** With a clock that steps back the cap of a day can be passed: after a full day 5 and one call
      dated day 4, day 5 is entered again and starts from zero. */
  lemma {:induction false} ClockStepBackPassesCap(cfg: Config) returns (w: World)
    requires cfg.limit >= 1 && cfg.tenantDailyCap >= 1
    ensures Sees(cfg, w, cfg.tenantDailyCap + 1, 2, 0)
  {
    var cap := cfg.tenantDailyCap;
    var full := FillDay(cfg, cap);
    var back := NextCall(cfg, full, cap, 5, cap, cap, 1, 0, 4);
    w := NextCall(cfg, back, cap + 1, 4, 1, cap, 1, 0, 5);
  }

  /** So can it by a refund: it makes room for one more grant on the same day. */
  lemma {:induction false} RefundPassesCap(cfg: Config) returns (w: World)
    requires cfg.limit >= 1 && cfg.tenantDailyCap >= 1
    ensures Sees(cfg, w, cfg.tenantDailyCap + 1, 1, 1)
  {
    var cap := cfg.tenantDailyCap;
    var full := FillDay(cfg, cap);
    var less := NextRefund(cfg, full, cap, cap, cap, 1, 0);
    w := NextCall(cfg, less, cap, 5, cap - 1, cap, 1, 1, 5);
  }

  // ----- when the cap holds -----

  /** A day entered at most k times, with at most r refunds, does not exceed the cap. */
  ghost predicate CapHolds(cfg: Config, w: World, id: string, day: int, k: nat, r: nat) {
    Reachable(cfg, w) && TimesEntered(w.log, id, day) <= k && DayRefunds(w.log, id, day) <= r ==>
      DayGrants(w.log, id, day) <= Max(cfg.tenantDailyCap, 0)
  }

  /** Days entered at most k times with at most r refunds keep the cap in every run, whatever the clock
      does, exactly when they are never entered, entered once without refunds, or the store grants
      nothing at all. */
  lemma {:induction false} CapHoldsIffEnteredOnce(cfg: Config, k: nat, r: nat)
    ensures (forall w: World, id: string, day: int :: CapHolds(cfg, w, id, day, k, r)) <==>
            k == 0 || (k == 1 && r == 0) || cfg.tenantDailyCap <= 0 || cfg.limit <= 0
  {
    if k == 0 || (k == 1 && r == 0) || cfg.tenantDailyCap <= 0 || cfg.limit <= 0 {
      forall w: World, id: string, day: int ensures CapHolds(cfg, w, id, day, k, r) {
        if Reachable(cfg, w) && TimesEntered(w.log, id, day) <= k && DayRefunds(w.log, id, day) <= r {
          CapHoldsWhen(cfg, w, id, day, k, r);
        }
      }
    } else if r > 0 {
      var w := RefundPassesCap(cfg);
      assert !CapHolds(cfg, w, TENANT, 5, k, r);
    } else {
      var w := ClockStepBackPassesCap(cfg);
      assert !CapHolds(cfg, w, TENANT, 5, k, r);
    }
  }

  lemma {:induction false} CapHoldsWhen(cfg: Config, w: World, id: string, day: int, k: nat, r: nat)
    requires Reachable(cfg, w) && TimesEntered(w.log, id, day) <= k && DayRefunds(w.log, id, day) <= r
    requires k == 0 || (k == 1 && r == 0) || cfg.tenantDailyCap <= 0 || cfg.limit <= 0
    ensures DayGrants(w.log, id, day) <= Max(cfg.tenantDailyCap, 0)
  {
    DailyGrantsAreBounded(cfg, w, id, day);
    if cfg.tenantDailyCap <= 0 || cfg.limit <= 0 {
      var steps :| ValidRun(cfg, Start(), steps) && After(cfg, Start(), steps) == w;
      NothingGranted(cfg, Start(), steps, id, day);
    }
  }

  /** A store whose cap or limit is zero or less grants nothing. */
  lemma {:induction false} NothingGranted(cfg: Config, w: World, steps: seq<Step>, id: string, day: int)
    requires cfg.tenantDailyCap <= 0 || cfg.limit <= 0
    requires ValidRun(cfg, w, steps) && CountersInv(cfg, w.budget, w.log) && DayGrants(w.log, id, day) == 0
    ensures DayGrants(After(cfg, w, steps).log, id, day) == 0
    decreases |steps|
  {
    if steps != [] {
      StepKeepsCounters(cfg, w, steps[0]);
      StepGrantsNothing(cfg, w, steps[0], id, day);
      NothingGranted(cfg, Apply(cfg, w, steps[0]), steps[1..], id, day);
    }
  }

  lemma {:induction false} StepGrantsNothing(cfg: Config, w: World, step: Step, id: string, day: int)
    requires cfg.tenantDailyCap <= 0 || cfg.limit <= 0
    requires Enabled(w, step) && CountersInv(cfg, w.budget, w.log)
    ensures DayGrants(Apply(cfg, w, step).log, id, day) == DayGrants(w.log, id, day)
  {
    match step
    case Invoke(scope, reading) => OpenDay(w.budget, w.log, scope, reading, id, day);
    case React(i, reading) =>
      if w.slots[i].reactions[0].ResumeBody? && w.slots[i].lock.TenantLock? {
        var scope := w.calls[w.slots[i].caller].scope;
        assert GoodSession(cfg, w.budget, w.log, ScopeKey(scope)) && GoodTenant(cfg, w.budget, w.log, scope.tenantId);
        if reading.Some? {
          BodyDay(cfg, w.budget, w.log, scope, reading.value, id, day);
        } else {
          assert w.log + [] == w.log;
        }
      }
    case Refund(scope) => RefundDay(w.budget, w.log, scope, id, day);
    case _ =>
  }
}
