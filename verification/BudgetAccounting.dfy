/**
 Accounting over all runs of the budget protocol: what the counters mean in terms of the
 grants, refunds and date changes that have happened.
 */
module BudgetAccounting {
  import opened Prelude
  import opened EditorAssistBudget
  import opened BudgetLockProtocol

  // ----- reading the history -----

  /** Grants of a session minus the refunds that took effect on it. */
  function SessionBalance(log: seq<Entry>, key: string): int {
    if log == [] then 0
    else
      var rest := SessionBalance(log[..|log| - 1], key);
      match log[|log| - 1]
      case Grant(k, _, _) => if k == key then rest + 1 else rest
      case SessionRefund(k) => if k == key then rest - 1 else rest
      case _ => rest
  }

  /** Grants of a tenant minus the refunds that took effect on it, since its current day was last entered. */
  function TenantBalance(log: seq<Entry>, id: string): int {
    if log == [] then 0
    else
      var rest := TenantBalance(log[..|log| - 1], id);
      match log[|log| - 1]
      case Grant(_, t, _) => if t == id then rest + 1 else rest
      case TenantRefund(t) => if t == id then rest - 1 else rest
      case DayStart(t, _) => if t == id then 0 else rest
      case _ => rest
  }

  /** Grants of a tenant on one day. */
  function DayGrants(log: seq<Entry>, id: string, day: int): nat {
    if log == [] then 0
    else
      DayGrants(log[..|log| - 1], id, day) +
      (match log[|log| - 1] case Grant(_, t, d) => if t == id && d == day then 1 else 0 case _ => 0)
  }

  function SessionGrants(log: seq<Entry>, key: string): nat {
    if log == [] then 0
    else
      SessionGrants(log[..|log| - 1], key) +
      (match log[|log| - 1] case Grant(k, _, _) => if k == key then 1 else 0 case _ => 0)
  }

  /** How often a tenant's counter was started for one day: by its first call, or by a date change. */
  function TimesEntered(log: seq<Entry>, id: string, day: int): nat {
    if log == [] then 0
    else
      TimesEntered(log[..|log| - 1], id, day) +
      (match log[|log| - 1] case DayStart(t, d) => if t == id && d == day then 1 else 0 case _ => 0)
  }

  /** The day of a tenant's counter. */
  function CurrentDay(log: seq<Entry>, id: string): Option<int> {
    if log == [] then None
    else
      match log[|log| - 1]
      case DayStart(t, d) => if t == id then Some(d) else CurrentDay(log[..|log| - 1], id)
      case _ => CurrentDay(log[..|log| - 1], id)
  }

  /** Refunds that took effect on a tenant's counter while it counted one day. */
  function DayRefunds(log: seq<Entry>, id: string, day: int): nat {
    if log == [] then 0
    else
      var rest := log[..|log| - 1];
      DayRefunds(rest, id, day) +
      (match log[|log| - 1] case TenantRefund(t) => if t == id && CurrentDay(rest, id) == Some(day) then 1 else 0 case _ => 0)
  }

  predicate RefundFree(log: seq<Entry>) {
    forall i :: 0 <= i < |log| ==> !log[i].SessionRefund? && !log[i].TenantRefund?
  }

  predicate Monotone(clock: seq<int>) {
    forall i, j :: 0 <= i < j < |clock| ==> clock[i] <= clock[j]
  }

  // ----- the counters are the balances -----

  predicate GoodSession(cfg: Config, b: Budget, log: seq<Entry>, key: string) {
    && SessionUsed(b, key) == SessionBalance(log, key)
    && 0 <= SessionUsed(b, key) <= Max(cfg.limit, 0)
  }

  function TenantUsed(b: Budget, id: string): int {
    if id in b.tenants then b.tenants[id].used else 0
  }

  predicate GoodTenant(cfg: Config, b: Budget, log: seq<Entry>, id: string) {
    && TenantUsed(b, id) == TenantBalance(log, id)
    && 0 <= TenantUsed(b, id) <= Max(cfg.tenantDailyCap, 0)
  }

  ghost predicate CountersInv(cfg: Config, b: Budget, log: seq<Entry>) {
    && (forall key :: GoodSession(cfg, b, log, key))
    && (forall id :: GoodTenant(cfg, b, log, id))
  }

  lemma LogOne(log: seq<Entry>, e: Entry)
    ensures |log + [e]| > 0 && (log + [e])[|log + [e]| - 1] == e
    ensures (log + [e])[..|log + [e]| - 1] == log
  {
  }

  /** What the body of consume adds to the balances of a session and of a tenant. */
  lemma {:induction false} BodyBalances(
    cfg: Config, b: Budget, log: seq<Entry>, scope: Scope, day: int, key: string, id: string)
    requires HasEntries(b, scope)
    ensures var granted := ConsumeBody(cfg, b, scope, Some(day)).1.Granted?;
            var final := log + BodyLog(cfg, b, scope, Some(day));
            && SessionBalance(final, key) == SessionBalance(log, key) + (if granted && key == ScopeKey(scope) then 1 else 0)
            && TenantBalance(final, id) ==
               (if id == scope.tenantId && b.tenants[id].day != day then 0 else TenantBalance(log, id)) +
               (if granted && id == scope.tenantId then 1 else 0)
  {
    var t := scope.tenantId;
    var rolls := if b.tenants[t].day != day then [DayStart(t, day)] else [];
    var mid := log + rolls;
    if rolls != [] { LogOne(log, rolls[0]); } else { assert mid == log; }
    if ConsumeBody(cfg, b, scope, Some(day)).1.Granted? {
      LogOne(mid, Grant(ScopeKey(scope), t, day));
      ConcatAssociative(log, rolls, [Grant(ScopeKey(scope), t, day)]);
    }
  }

  lemma {:induction false} BodyKeepsCounters(
    cfg: Config, b: Budget, log: seq<Entry>, scope: Scope, reading: Option<int>)
    requires HasEntries(b, scope) && CountersInv(cfg, b, log)
    ensures CountersInv(cfg, ConsumeBody(cfg, b, scope, reading).0, log + BodyLog(cfg, b, scope, reading))
  {
    var after := ConsumeBody(cfg, b, scope, reading).0;
    var final := log + BodyLog(cfg, b, scope, reading);
    if reading.None? {
      assert final == log;
    } else {
      forall key ensures GoodSession(cfg, after, final, key) {
        assert GoodSession(cfg, b, log, key);
        BodyBalances(cfg, b, log, scope, reading.value, key, "");
      }
      forall id ensures GoodTenant(cfg, after, final, id) {
        assert GoodTenant(cfg, b, log, id);
        BodyBalances(cfg, b, log, scope, reading.value, "", id);
      }
    }
  }

  lemma {:induction false} RefundBalances(b: Budget, log: seq<Entry>, scope: Scope, key: string, id: string)
    ensures var final := log + RefundLog(b, scope);
            && SessionBalance(final, key) ==
               SessionBalance(log, key) - (if key == ScopeKey(scope) && key in b.sessions && b.sessions[key] > 0 then 1 else 0)
            && TenantBalance(final, id) ==
               TenantBalance(log, id) - (if id == scope.tenantId && id in b.tenants && b.tenants[id].used > 0 then 1 else 0)
  {
    var k, t := ScopeKey(scope), scope.tenantId;
    var first := if k in b.sessions && b.sessions[k] > 0 then [SessionRefund(k)] else [];
    var second := if t in b.tenants && b.tenants[t].used > 0 then [TenantRefund(t)] else [];
    var mid := log + first;
    ConcatAssociative(log, first, second);
    if first != [] { LogOne(log, first[0]); } else { assert mid == log; }
    if second != [] { LogOne(mid, second[0]); } else { assert mid + second == mid; }
  }

  lemma {:induction false} RefundKeepsCounters(cfg: Config, b: Budget, log: seq<Entry>, scope: Scope)
    requires CountersInv(cfg, b, log)
    ensures CountersInv(cfg, RefundBudget(b, scope), log + RefundLog(b, scope))
  {
    var after, final := RefundBudget(b, scope), log + RefundLog(b, scope);
    forall key ensures GoodSession(cfg, after, final, key) {
      assert GoodSession(cfg, b, log, key);
      RefundBalances(b, log, scope, key, "");
    }
    forall id ensures GoodTenant(cfg, after, final, id) {
      assert GoodTenant(cfg, b, log, id);
      RefundBalances(b, log, scope, "", id);
    }
  }

  lemma {:induction false} OpenKeepsCounters(cfg: Config, b: Budget, log: seq<Entry>, scope: Scope, reading: Option<int>)
    requires CountersInv(cfg, b, log)
    ensures CountersInv(cfg, OpenEntries(b, scope, reading), log + OpenLog(b, scope, reading))
  {
    var after, more := OpenEntries(b, scope, reading), OpenLog(b, scope, reading);
    if more != [] { LogOne(log, more[0]); } else { assert log + more == log; }
    forall key ensures GoodSession(cfg, after, log + more, key) {
      assert GoodSession(cfg, b, log, key);
    }
    forall id ensures GoodTenant(cfg, after, log + more, id) {
      assert GoodTenant(cfg, b, log, id);
    }
  }

  lemma StepKeepsCounters(cfg: Config, w: World, step: Step)
    requires Enabled(w, step) && CountersInv(cfg, w.budget, w.log)
    ensures var v := Apply(cfg, w, step); CountersInv(cfg, v.budget, v.log)
  {
    match step
    case Invoke(scope, reading) => OpenKeepsCounters(cfg, w.budget, w.log, scope, reading);
    case React(i, reading) =>
      if w.slots[i].reactions[0].ResumeBody? && w.slots[i].lock.TenantLock? {
        BodyKeepsCounters(cfg, w.budget, w.log, w.calls[w.slots[i].caller].scope, reading);
      }
    case Refund(scope) => RefundKeepsCounters(cfg, w.budget, w.log, scope);
    case _ =>
  }

  lemma {:induction false} RunKeepsCounters(cfg: Config, w: World, steps: seq<Step>)
    requires ValidRun(cfg, w, steps) && CountersInv(cfg, w.budget, w.log)
    ensures var v := After(cfg, w, steps); CountersInv(cfg, v.budget, v.log)
    decreases |steps|
  {
    if steps != [] {
      StepKeepsCounters(cfg, w, steps[0]);
      RunKeepsCounters(cfg, Apply(cfg, w, steps[0]), steps[1..]);
    }
  }

  /** In every reachable state, whatever the clock and the refunds do, the counters stay within
      their limits and equal the balances of the history. */
  lemma CountersAreBalances(cfg: Config, w: World, key: string, id: string)
    requires Reachable(cfg, w)
    ensures SessionUsed(w.budget, key) == SessionBalance(w.log, key)
    ensures 0 <= SessionUsed(w.budget, key) <= Max(cfg.limit, 0)
    ensures TenantUsed(w.budget, id) == TenantBalance(w.log, id)
    ensures 0 <= TenantUsed(w.budget, id) <= Max(cfg.tenantDailyCap, 0)
  {
    var steps :| ValidRun(cfg, Start(), steps) && After(cfg, Start(), steps) == w;
    RunKeepsCounters(cfg, Start(), steps);
    assert GoodSession(cfg, w.budget, w.log, key) && GoodTenant(cfg, w.budget, w.log, id);
  }

  /** A snapshot splits the limit into what is used and what remains. */
  predicate AddsUp(cfg: Config, s: Snapshot) {
    s.limit == cfg.limit && 0 <= s.used && 0 <= s.remaining && s.used + s.remaining == s.limit
  }

  predicate GoodOutcome(cfg: Config, call: Call) {
    call.outcome.Some? && !call.outcome.value.ClockFailed? ==> AddsUp(cfg, call.outcome.value.snapshot)
  }

  ghost predicate OutcomesInv(cfg: Config, w: World) {
    forall c :: 0 <= c < |w.calls| ==> GoodOutcome(cfg, w.calls[c])
  }

  lemma StepKeepsOutcomes(cfg: Config, w: World, step: Step)
    requires Enabled(w, step) && CountersInv(cfg, w.budget, w.log) && OutcomesInv(cfg, w) && cfg.limit >= 0
    ensures OutcomesInv(cfg, Apply(cfg, w, step))
  {
    if step.React? && w.slots[step.slot].lock.TenantLock? {
      var scope := w.calls[w.slots[step.slot].caller].scope;
      assert GoodSession(cfg, w.budget, w.log, ScopeKey(scope));
    }
  }

  lemma {:induction false} RunKeepsOutcomes(cfg: Config, w: World, steps: seq<Step>)
    requires ValidRun(cfg, w, steps) && CountersInv(cfg, w.budget, w.log) && OutcomesInv(cfg, w) && cfg.limit >= 0
    ensures OutcomesInv(cfg, After(cfg, w, steps))
    decreases |steps|
  {
    if steps != [] {
      StepKeepsCounters(cfg, w, steps[0]);
      StepKeepsOutcomes(cfg, w, steps[0]);
      RunKeepsOutcomes(cfg, Apply(cfg, w, steps[0]), steps[1..]);
    }
  }

  /** Every snapshot handed to a caller of consume, and every one snapshot() could return now,
      splits the limit into used and remaining. */
  lemma SnapshotsAddUp(cfg: Config, w: World, c: nat, key: string)
    requires Reachable(cfg, w) && cfg.limit >= 0
    ensures AddsUp(cfg, SnapshotOf(cfg, SessionUsed(w.budget, key)))
    ensures c < |w.calls| ==> GoodOutcome(cfg, w.calls[c])
  {
    CountersAreBalances(cfg, w, key, "");
    var steps :| ValidRun(cfg, Start(), steps) && After(cfg, Start(), steps) == w;
    RunKeepsOutcomes(cfg, Start(), steps);
  }

  lemma {:induction false} RefundFreeSession(log: seq<Entry>, key: string)
    requires RefundFree(log)
    ensures SessionBalance(log, key) == SessionGrants(log, key)
  {
    if log != [] {
      RefundFreeSession(log[..|log| - 1], key);
    }
  }

  /** Without refunds a session has used exactly what it was granted, hence at most its limit. */
  lemma SessionUsedIsGrants(cfg: Config, w: World, key: string)
    requires Reachable(cfg, w) && RefundFree(w.log)
    ensures SessionUsed(w.budget, key) == SessionGrants(w.log, key) <= Max(cfg.limit, 0)
  {
    CountersAreBalances(cfg, w, key, "");
    RefundFreeSession(w.log, key);
  }

  lemma {:induction false} RefundFreeDay(log: seq<Entry>, id: string, day: int)
    requires RefundFree(log)
    ensures DayRefunds(log, id, day) == 0
  {
    if log != [] {
      RefundFreeDay(log[..|log| - 1], id, day);
    }
  }

  // ----- grants of one day -----

  /** What one entry adds to the figures of a day. */
  lemma {:induction false} DayOne(log: seq<Entry>, e: Entry, id: string, d: int)
    ensures var final := log + [e];
            && DayGrants(final, id, d) == DayGrants(log, id, d) + (if e.Grant? && e.tenant == id && e.day == d then 1 else 0)
            && TimesEntered(final, id, d) == TimesEntered(log, id, d) + (if e == DayStart(id, d) then 1 else 0)
            && DayRefunds(final, id, d) ==
               DayRefunds(log, id, d) + (if e == TenantRefund(id) && CurrentDay(log, id) == Some(d) then 1 else 0)
            && CurrentDay(final, id) == if e.DayStart? && e.tenant == id then Some(e.day) else CurrentDay(log, id)
  {
    LogOne(log, e);
  }

  lemma {:induction false} OpenDay(b: Budget, log: seq<Entry>, scope: Scope, reading: Option<int>, id: string, d: int)
    ensures var final := log + OpenLog(b, scope, reading);
            && DayGrants(final, id, d) == DayGrants(log, id, d) && DayRefunds(final, id, d) == DayRefunds(log, id, d)
            && TimesEntered(final, id, d) ==
               TimesEntered(log, id, d) +
               (if reading == Some(d) && id == scope.tenantId && id !in b.tenants then 1 else 0)
            && CurrentDay(final, id) ==
               if reading.Some? && id == scope.tenantId && id !in b.tenants then reading else CurrentDay(log, id)
  {
    var more := OpenLog(b, scope, reading);
    if more != [] { DayOne(log, more[0], id, d); } else { assert log + more == log; }
  }

  /** What the body of consume adds to the figures of a day. */
  lemma {:induction false} BodyDay(
    cfg: Config, b: Budget, log: seq<Entry>, scope: Scope, day: int, id: string, d: int)
    requires HasEntries(b, scope)
    ensures var final := log + BodyLog(cfg, b, scope, Some(day));
            var starts := scope.tenantId == id && b.tenants[scope.tenantId].day != day;
            && DayRefunds(final, id, d) == DayRefunds(log, id, d)
            && DayGrants(final, id, d) ==
               DayGrants(log, id, d) +
               (if ConsumeBody(cfg, b, scope, Some(day)).1.Granted? && scope.tenantId == id && day == d then 1 else 0)
            && TimesEntered(final, id, d) == TimesEntered(log, id, d) + (if starts && day == d then 1 else 0)
            && CurrentDay(final, id) == if starts then Some(day) else CurrentDay(log, id)
  {
    var t := scope.tenantId;
    var starts := if b.tenants[t].day != day then [DayStart(t, day)] else [];
    var mid := log + starts;
    if starts != [] { DayOne(log, starts[0], id, d); } else { assert mid == log; }
    if ConsumeBody(cfg, b, scope, Some(day)).1.Granted? {
      DayOne(mid, Grant(ScopeKey(scope), t, day), id, d);
      ConcatAssociative(log, starts, [Grant(ScopeKey(scope), t, day)]);
    }
  }

  /** What a refund adds to them. */
  lemma {:induction false} RefundDay(b: Budget, log: seq<Entry>, scope: Scope, id: string, d: int)
    ensures var final := log + RefundLog(b, scope);
            && DayGrants(final, id, d) == DayGrants(log, id, d) && TimesEntered(final, id, d) == TimesEntered(log, id, d)
            && CurrentDay(final, id) == CurrentDay(log, id)
            && DayRefunds(final, id, d) ==
               DayRefunds(log, id, d) +
               (if id == scope.tenantId && id in b.tenants && b.tenants[id].used > 0 && CurrentDay(log, id) == Some(d)
                then 1 else 0)
  {
    var k, t := ScopeKey(scope), scope.tenantId;
    var first := if k in b.sessions && b.sessions[k] > 0 then [SessionRefund(k)] else [];
    var second := if t in b.tenants && b.tenants[t].used > 0 then [TenantRefund(t)] else [];
    var mid := log + first;
    ConcatAssociative(log, first, second);
    if first != [] { DayOne(log, first[0], id, d); } else { assert mid == log; }
    if second != [] { DayOne(mid, second[0], id, d); } else { assert mid + second == mid; }
  }

  /** The counter and the refunds bound the grants of the current visit to its day; every earlier
      visit is bounded by the cap and its refunds. */
  predicate DayBounded(cfg: Config, b: Budget, log: seq<Entry>, id: string, d: int) {
    var cap, entered := Max(cfg.tenantDailyCap, 0), TimesEntered(log, id, d);
    && (entered == 0 ==> DayGrants(log, id, d) == 0 && DayRefunds(log, id, d) == 0)
    && (if id !in b.tenants then entered == 0 && CurrentDay(log, id) == None
        else
          && CurrentDay(log, id) == Some(b.tenants[id].day)
          && if b.tenants[id].day == d then
            && 0 <= b.tenants[id].used <= cap
            && entered > 0
            && DayGrants(log, id, d) <= cap * (entered - 1) + b.tenants[id].used + DayRefunds(log, id, d)
            && (entered == 1 ==> DayGrants(log, id, d) == b.tenants[id].used + DayRefunds(log, id, d))
          else DayGrants(log, id, d) <= cap * entered + DayRefunds(log, id, d))
  }

  ghost predicate VisitsInv(cfg: Config, b: Budget, log: seq<Entry>, id: string) {
    && (forall d :: DayBounded(cfg, b, log, id, d))
    && (id in b.tenants ==> 0 <= b.tenants[id].used <= Max(cfg.tenantDailyCap, 0))
  }

  lemma OneMore(cap: int, n: int)
    ensures cap * (n + 1) == cap * n + cap
  {
  }

  lemma {:induction false} OpenKeepsBound(
    cfg: Config, b: Budget, log: seq<Entry>, scope: Scope, reading: Option<int>, id: string, d: int)
    requires DayBounded(cfg, b, log, id, d)
    ensures DayBounded(cfg, OpenEntries(b, scope, reading), log + OpenLog(b, scope, reading), id, d)
  {
    OpenDay(b, log, scope, reading, id, d);
    if id !in b.tenants && reading == Some(d) && id == scope.tenantId {
      assert TimesEntered(log, id, d) == 0;
    }
  }

  lemma {:induction false} OpenKeepsVisits(
    cfg: Config, b: Budget, log: seq<Entry>, scope: Scope, reading: Option<int>, id: string)
    requires VisitsInv(cfg, b, log, id)
    ensures VisitsInv(cfg, OpenEntries(b, scope, reading), log + OpenLog(b, scope, reading), id)
  {
    forall d ensures DayBounded(cfg, OpenEntries(b, scope, reading), log + OpenLog(b, scope, reading), id, d) {
      assert DayBounded(cfg, b, log, id, d);
      OpenKeepsBound(cfg, b, log, scope, reading, id, d);
    }
  }

  lemma {:induction false} BodyKeepsBound(
    cfg: Config, b: Budget, log: seq<Entry>, scope: Scope, day: int, id: string, d: int)
    requires HasEntries(b, scope) && DayBounded(cfg, b, log, id, d)
    requires id in b.tenants ==> 0 <= b.tenants[id].used <= Max(cfg.tenantDailyCap, 0)
    ensures DayBounded(cfg, ConsumeBody(cfg, b, scope, Some(day)).0, log + BodyLog(cfg, b, scope, Some(day)), id, d)
  {
    BodyDay(cfg, b, log, scope, day, id, d);
    OneMore(Max(cfg.tenantDailyCap, 0), TimesEntered(log, id, d) - 1);
  }

  lemma {:induction false} BodyKeepsVisits(
    cfg: Config, b: Budget, log: seq<Entry>, scope: Scope, day: int, id: string)
    requires HasEntries(b, scope) && VisitsInv(cfg, b, log, id)
    ensures VisitsInv(cfg, ConsumeBody(cfg, b, scope, Some(day)).0, log + BodyLog(cfg, b, scope, Some(day)), id)
  {
    forall d ensures DayBounded(cfg, ConsumeBody(cfg, b, scope, Some(day)).0,
                                log + BodyLog(cfg, b, scope, Some(day)), id, d) {
      assert DayBounded(cfg, b, log, id, d);
      BodyKeepsBound(cfg, b, log, scope, day, id, d);
    }
  }

  lemma {:induction false} RefundKeepsVisits(cfg: Config, b: Budget, log: seq<Entry>, scope: Scope, id: string)
    requires VisitsInv(cfg, b, log, id)
    ensures VisitsInv(cfg, RefundBudget(b, scope), log + RefundLog(b, scope), id)
  {
    forall d ensures DayBounded(cfg, RefundBudget(b, scope), log + RefundLog(b, scope), id, d) {
      assert DayBounded(cfg, b, log, id, d);
      RefundDay(b, log, scope, id, d);
    }
  }

  lemma {:induction false} StepKeepsVisits(cfg: Config, w: World, step: Step, id: string)
    requires Enabled(w, step) && VisitsInv(cfg, w.budget, w.log, id)
    ensures var v := Apply(cfg, w, step); VisitsInv(cfg, v.budget, v.log, id)
  {
    match step
    case Invoke(scope, reading) => OpenKeepsVisits(cfg, w.budget, w.log, scope, reading, id);
    case React(i, reading) =>
      if w.slots[i].reactions[0].ResumeBody? && w.slots[i].lock.TenantLock? {
        if reading.Some? {
          BodyKeepsVisits(cfg, w.budget, w.log, w.calls[w.slots[i].caller].scope, reading.value, id);
        } else {
          assert w.log + [] == w.log;
        }
      }
    case Refund(scope) => RefundKeepsVisits(cfg, w.budget, w.log, scope, id);
    case _ =>
  }

  lemma {:induction false} RunKeepsVisits(cfg: Config, w: World, steps: seq<Step>, id: string)
    requires ValidRun(cfg, w, steps) && VisitsInv(cfg, w.budget, w.log, id)
    ensures var v := After(cfg, w, steps); VisitsInv(cfg, v.budget, v.log, id)
    decreases |steps|
  {
    if steps != [] {
      StepKeepsVisits(cfg, w, steps[0], id);
      RunKeepsVisits(cfg, Apply(cfg, w, steps[0]), steps[1..], id);
    }
  }

  /** Whatever the clock and the refunds do, a tenant is granted on a day at most the cap each time its
      counter is started for it and one more for each refund that took effect on that day; on a
      current day entered once the counter is the grants minus these refunds. */
  lemma DailyGrantsAreBounded(cfg: Config, w: World, id: string, day: int)
    requires Reachable(cfg, w)
    ensures DayGrants(w.log, id, day) <=
            Max(cfg.tenantDailyCap, 0) * TimesEntered(w.log, id, day) + DayRefunds(w.log, id, day)
    ensures TimesEntered(w.log, id, day) == 0 ==> DayGrants(w.log, id, day) == 0
    ensures id in w.budget.tenants && w.budget.tenants[id].day == day && TimesEntered(w.log, id, day) == 1 ==>
              w.budget.tenants[id].used == DayGrants(w.log, id, day) - DayRefunds(w.log, id, day)
    ensures RefundFree(w.log) ==> DayRefunds(w.log, id, day) == 0
  {
    var steps :| ValidRun(cfg, Start(), steps) && After(cfg, Start(), steps) == w;
    RunKeepsVisits(cfg, Start(), steps, id);
    assert DayBounded(cfg, w.budget, w.log, id, day);
    OneMore(Max(cfg.tenantDailyCap, 0), TimesEntered(w.log, id, day) - 1);
    if RefundFree(w.log) {
      RefundFreeDay(w.log, id, day);
    }
  }

  // ----- a clock that never goes back -----

  /** Later days have not been entered, and no day twice. */
  ghost predicate DayInv(b: Budget, log: seq<Entry>, clock: seq<int>, id: string) {
    && (forall d :: TimesEntered(log, id, d) <= 1)
    && (id !in b.tenants ==> forall d :: TimesEntered(log, id, d) == 0)
    && (id in b.tenants ==>
          && |clock| > 0 && b.tenants[id].day <= clock[|clock| - 1]
          && (forall d :: TimesEntered(log, id, d) == 1 ==> d <= b.tenants[id].day)
          && TimesEntered(log, id, b.tenants[id].day) == 1)
  }

  lemma MonotonePrefix(clock: seq<int>, more: seq<int>)
    requires Monotone(clock + more)
    ensures Monotone(clock)
    ensures |clock| > 0 && |more| > 0 ==> clock[|clock| - 1] <= more[0]
  {
    var all := clock + more;
    assert forall i :: 0 <= i < |clock| ==> all[i] == clock[i];
    assert |more| > 0 ==> all[|clock|] == more[0];
  }

  lemma OpenEnters(b: Budget, log: seq<Entry>, scope: Scope, reading: Option<int>, id: string)
    ensures forall d :: TimesEntered(log + OpenLog(b, scope, reading), id, d) ==
                        TimesEntered(log, id, d) +
                        (if reading == Some(d) && id == scope.tenantId && id !in b.tenants then 1 else 0)
  {
    forall d
      ensures TimesEntered(log + OpenLog(b, scope, reading), id, d) ==
              TimesEntered(log, id, d) +
              (if reading == Some(d) && id == scope.tenantId && id !in b.tenants then 1 else 0)
    {
      OpenDay(b, log, scope, reading, id, d);
    }
  }

  lemma {:induction false} OpenKeepsDay(
    b: Budget, log: seq<Entry>, clock: seq<int>, scope: Scope, reading: Option<int>, id: string)
    requires DayInv(b, log, clock, id) && Monotone(clock + Readings(reading))
    ensures DayInv(OpenEntries(b, scope, reading), log + OpenLog(b, scope, reading), clock + Readings(reading), id)
  {
    OpenEnters(b, log, scope, reading, id);
    if reading.None? {
      assert clock + [] == clock;
    } else {
      MonotonePrefix(clock, [reading.value]);
    }
  }

  lemma {:induction false} BodyKeepsDay(
    cfg: Config, b: Budget, log: seq<Entry>, clock: seq<int>, scope: Scope, day: int, id: string)
    requires HasEntries(b, scope) && DayInv(b, log, clock, id) && Monotone(clock + [day])
    ensures DayInv(ConsumeBody(cfg, b, scope, Some(day)).0,
                   log + BodyLog(cfg, b, scope, Some(day)), clock + [day], id)
  {
    MonotonePrefix(clock, [day]);
    forall d
      ensures TimesEntered(log + BodyLog(cfg, b, scope, Some(day)), id, d) ==
              TimesEntered(log, id, d) +
              (if b.tenants[scope.tenantId].day != day && scope.tenantId == id && day == d then 1 else 0)
    {
      BodyDay(cfg, b, log, scope, day, id, d);
    }
  }

  lemma {:induction false} RefundKeepsDay(b: Budget, log: seq<Entry>, clock: seq<int>, scope: Scope, id: string)
    requires DayInv(b, log, clock, id)
    ensures DayInv(RefundBudget(b, scope), log + RefundLog(b, scope), clock, id)
  {
    var final := log + RefundLog(b, scope);
    forall d ensures TimesEntered(final, id, d) == TimesEntered(log, id, d) {
      RefundDay(b, log, scope, id, d);
    }
    assert id in b.tenants <==> id in RefundBudget(b, scope).tenants;
    assert id in b.tenants ==> RefundBudget(b, scope).tenants[id].day == b.tenants[id].day;
  }

  lemma StepExtendsHistory(cfg: Config, w: World, step: Step)
    requires Enabled(w, step)
    ensures w.log <= Apply(cfg, w, step).log && w.clock <= Apply(cfg, w, step).clock
  {
  }

  lemma {:induction false} RunExtendsHistory(cfg: Config, w: World, steps: seq<Step>)
    requires ValidRun(cfg, w, steps)
    ensures w.log <= After(cfg, w, steps).log && w.clock <= After(cfg, w, steps).clock
    decreases |steps|
  {
    if steps != [] {
      StepExtendsHistory(cfg, w, steps[0]);
      RunExtendsHistory(cfg, Apply(cfg, w, steps[0]), steps[1..]);
    }
  }

  lemma {:induction false} StepKeepsDay(cfg: Config, w: World, step: Step, id: string)
    requires Enabled(w, step) && DayInv(w.budget, w.log, w.clock, id)
    requires Monotone(Apply(cfg, w, step).clock)
    ensures var v := Apply(cfg, w, step); DayInv(v.budget, v.log, v.clock, id)
  {
    match step
    case Invoke(scope, reading) => OpenKeepsDay(w.budget, w.log, w.clock, scope, reading, id);
    case React(i, reading) =>
      if w.slots[i].reactions[0].ResumeBody? && w.slots[i].lock.TenantLock? {
        if reading.Some? {
          BodyKeepsDay(cfg, w.budget, w.log, w.clock, w.calls[w.slots[i].caller].scope, reading.value, id);
        } else {
          assert w.log + [] == w.log && w.clock + [] == w.clock;
        }
      }
    case Refund(scope) => RefundKeepsDay(w.budget, w.log, w.clock, scope, id);
    case _ =>
  }

  lemma {:induction false} RunKeepsDay(cfg: Config, w: World, steps: seq<Step>, id: string)
    requires ValidRun(cfg, w, steps) && DayInv(w.budget, w.log, w.clock, id)
    requires Monotone(After(cfg, w, steps).clock)
    ensures var v := After(cfg, w, steps); DayInv(v.budget, v.log, v.clock, id)
    decreases |steps|
  {
    if steps != [] {
      var v := Apply(cfg, w, steps[0]);
      RunExtendsHistory(cfg, v, steps[1..]);
      StepKeepsDay(cfg, w, steps[0], id);
      RunKeepsDay(cfg, v, steps[1..], id);
    }
  }

  /** A clock that never goes back enters no day twice. */
  lemma MonotoneEntersOnce(cfg: Config, w: World, id: string, day: int)
    requires Reachable(cfg, w) && Monotone(w.clock)
    ensures TimesEntered(w.log, id, day) <= 1
    ensures id in w.budget.tenants ==> TimesEntered(w.log, id, w.budget.tenants[id].day) == 1
  {
    var steps :| ValidRun(cfg, Start(), steps) && After(cfg, Start(), steps) == w;
    RunKeepsDay(cfg, Start(), steps, id);
  }

  /** With a clock that never goes back the tenant counter is the grants of its current day minus the
      refunds that took effect on it, and no tenant is granted more than the cap and these refunds on
      any one day. */
  lemma DailyCapHolds(cfg: Config, w: World, id: string, day: int)
    requires Reachable(cfg, w) && Monotone(w.clock)
    ensures DayGrants(w.log, id, day) <= Max(cfg.tenantDailyCap, 0) + DayRefunds(w.log, id, day)
    ensures id in w.budget.tenants ==>
              var today := w.budget.tenants[id].day;
              w.budget.tenants[id].used == DayGrants(w.log, id, today) - DayRefunds(w.log, id, today)
    ensures RefundFree(w.log) ==> DayRefunds(w.log, id, day) == 0
  {
    MonotoneEntersOnce(cfg, w, id, day);
    DailyGrantsAreBounded(cfg, w, id, day);
    if id in w.budget.tenants {
      DailyGrantsAreBounded(cfg, w, id, w.budget.tenants[id].day);
    }
  }

  // ----- when a consume is granted -----

  /** Both locks are held by call c and its closure is about to run. */
  predicate BodyReady(w: World, i: nat) {
    && CanReact(w, i)
    && w.slots[i].reactions[0].ResumeBody?
    && w.slots[i].lock.TenantLock?
  }

  /** What a tenant has used on a day, read off the history. */
  function UsedOn(log: seq<Entry>, id: string, day: int): int {
    if CurrentDay(log, id) == Some(day) then TenantBalance(log, id) else 0
  }

  lemma {:induction false} CountersOf(cfg: Config, w: World, scope: Scope)
    requires Reachable(cfg, w) && HasEntries(w.budget, scope)
    ensures w.budget.sessions[ScopeKey(scope)] == SessionBalance(w.log, ScopeKey(scope))
    ensures var t := w.budget.tenants[scope.tenantId];
            t.used == TenantBalance(w.log, scope.tenantId) && CurrentDay(w.log, scope.tenantId) == Some(t.day)
  {
    CountersAreBalances(cfg, w, ScopeKey(scope), scope.tenantId);
    var steps :| ValidRun(cfg, Start(), steps) && After(cfg, Start(), steps) == w;
    RunKeepsVisits(cfg, Start(), steps, scope.tenantId);
    assert DayBounded(cfg, w.budget, w.log, scope.tenantId, 0);
  }

  /** The closure on counters that agree with the history. */
  lemma {:induction false} BodyAnswers(cfg: Config, b: Budget, log: seq<Entry>, scope: Scope, day: int)
    requires HasEntries(b, scope)
    requires b.sessions[ScopeKey(scope)] == SessionBalance(log, ScopeKey(scope))
    requires var t := b.tenants[scope.tenantId];
             t.used == TenantBalance(log, scope.tenantId) && CurrentDay(log, scope.tenantId) == Some(t.day)
    ensures var key, id := ScopeKey(scope), scope.tenantId;
            var used := SessionBalance(log, key);
            var room := used < cfg.limit && UsedOn(log, id, day) < cfg.tenantDailyCap;
            && BodyLog(cfg, b, scope, Some(day)) ==
               (if CurrentDay(log, id) == Some(day) then [] else [DayStart(id, day)]) +
               (if room then [Grant(key, id, day)] else [])
            && ConsumeBody(cfg, b, scope, Some(day)).1 ==
               if room then Granted(Snapshot(cfg.limit, used + 1, cfg.limit - used - 1))
               else Exhausted(Snapshot(cfg.limit, used, if used < cfg.limit then cfg.limit - used else 0))
  {
    var starts := if b.tenants[scope.tenantId].day != day then [DayStart(scope.tenantId, day)] else [];
    assert starts + [] == starts;
  }

  /** In every reachable state a call is granted exactly when its session has used less than the limit and
      its tenant less than the cap on the day of the reading; then one grant is recorded, and otherwise
      none. The snapshot shows the balance of the session after the step. */
  lemma {:induction false} GrantedIffRoom(cfg: Config, w: World, i: nat, day: int)
    requires Reachable(cfg, w) && BodyReady(w, i)
    ensures var c := w.slots[i].caller;
            var key, id := ScopeKey(w.calls[c].scope), w.calls[c].scope.tenantId;
            var v, used := Apply(cfg, w, React(i, Some(day))), SessionBalance(w.log, key);
            var room := used < cfg.limit && UsedOn(w.log, id, day) < cfg.tenantDailyCap;
            && v.log == w.log + (if CurrentDay(w.log, id) == Some(day) then [] else [DayStart(id, day)])
                              + (if room then [Grant(key, id, day)] else [])
            && v.calls[c].outcome == Some(
                 if room then Granted(Snapshot(cfg.limit, used + 1, cfg.limit - used - 1))
                 else Exhausted(Snapshot(cfg.limit, used, if used < cfg.limit then cfg.limit - used else 0)))
            && SessionBalance(v.log, key) == v.calls[c].outcome.value.snapshot.used
  {
    var scope := w.calls[w.slots[i].caller].scope;
    CountersOf(cfg, w, scope);
    var key, id := ScopeKey(scope), scope.tenantId;
    BodyAnswers(cfg, w.budget, w.log, scope, day);
    BodyBalances(cfg, w.budget, w.log, scope, day, key, id);
    var room := SessionBalance(w.log, key) < cfg.limit && UsedOn(w.log, id, day) < cfg.tenantDailyCap;
    ConcatAssociative(w.log, if CurrentDay(w.log, id) == Some(day) then [] else [DayStart(id, day)],
                      if room then [Grant(key, id, day)] else []);
  }

  /** When the clock fails in the closure nothing is counted and the caller learns of the failure. */
  lemma ClockFailureCountsNothing(cfg: Config, w: World, i: nat)
    requires BodyReady(w, i)
    ensures var v := Apply(cfg, w, React(i, None));
            v.log == w.log && v.budget == w.budget && v.calls[w.slots[i].caller].outcome == Some(ClockFailed)
  {
    assert w.log + [] == w.log;
  }

  /** A refund takes one unit from the session and one from the tenant, each exactly when there is one. */
  lemma {:induction false} RefundTakesOneUnit(cfg: Config, w: World, scope: Scope)
    requires Reachable(cfg, w)
    ensures var key, id := ScopeKey(scope), scope.tenantId;
            Apply(cfg, w, Refund(scope)).log ==
            w.log + (if SessionBalance(w.log, key) > 0 then [SessionRefund(key)] else [])
                  + (if TenantBalance(w.log, id) > 0 then [TenantRefund(id)] else [])
  {
    CountersAreBalances(cfg, w, ScopeKey(scope), scope.tenantId);
    var key, id := ScopeKey(scope), scope.tenantId;
    ConcatAssociative(w.log, if SessionBalance(w.log, key) > 0 then [SessionRefund(key)] else [],
                      if TenantBalance(w.log, id) > 0 then [TenantRefund(id)] else []);
  }

  /** The first call of a tenant starts its counter on the day of the reading; a failing clock starts none. */
  lemma {:induction false} FirstCallStartsDay(cfg: Config, w: World, scope: Scope, reading: Option<int>)
    requires Reachable(cfg, w)
    ensures Apply(cfg, w, Invoke(scope, reading)).log ==
            w.log + if reading.Some? && CurrentDay(w.log, scope.tenantId) == None
                    then [DayStart(scope.tenantId, reading.value)] else []
  {
    var steps :| ValidRun(cfg, Start(), steps) && After(cfg, Start(), steps) == w;
    RunKeepsVisits(cfg, Start(), steps, scope.tenantId);
    assert DayBounded(cfg, w.budget, w.log, scope.tenantId, 0);
  }
}
