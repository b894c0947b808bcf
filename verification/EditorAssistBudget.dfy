/**
 The editor-assist budget: per-session and per-tenant-per-day counters, the state that
 the lock protocol of BudgetLockProtocol protects.

 A clock reading is `Some(day)`, the UTC date as a day number, or `None` when the injected
 clock throws.
 */
module EditorAssistBudget {
  import opened Prelude

  datatype Config = Config(limit: int, tenantDailyCap: int)

  datatype Scope = Scope(tenantId: string, userId: string, sessionId: string)

  /** The JavaScript map key of a scope. */
  function ScopeKey(scope: Scope): string {
    Join(scope.tenantId, Join(scope.userId, scope.sessionId))
  }

  datatype TenantDay = TenantDay(day: int, used: int)

  datatype Budget = Budget(sessions: map<string, int>, tenants: map<string, TenantDay>)

  datatype Snapshot = Snapshot(limit: int, used: int, remaining: int)

  datatype Outcome = Granted(snapshot: Snapshot) | Exhausted(snapshot: Snapshot) | ClockFailed

  function SnapshotOf(cfg: Config, used: int): Snapshot {
    Snapshot(cfg.limit, used, Max(0, cfg.limit - used))
  }

  function EmptyBudget(): Budget {
    Budget(map[], map[])
  }

  function SessionUsed(b: Budget, key: string): int {
    if key in b.sessions then b.sessions[key] else 0
  }

  /** The synchronous head of consume: both entries exist afterwards, unless the clock fails
      after the session entry was made. */
  function OpenEntries(b: Budget, scope: Scope, reading: Option<int>): Budget {
    var key := ScopeKey(scope);
    var sessions := if key in b.sessions then b.sessions else b.sessions[key := 0];
    var tenants :=
      if reading.None? || scope.tenantId in b.tenants then b.tenants
      else b.tenants[scope.tenantId := TenantDay(reading.value, 0)];
    Budget(sessions, tenants)
  }

  predicate HasEntries(b: Budget, scope: Scope) {
    ScopeKey(scope) in b.sessions && scope.tenantId in b.tenants
  }

  /** The tenant entry after the day of the reading has been taken into account. */
  function Refreshed(t: TenantDay, day: int): TenantDay {
    if t.day != day then TenantDay(day, 0) else t
  }

  /** The closure that runs while both locks are held. */
  function ConsumeBody(cfg: Config, b: Budget, scope: Scope, reading: Option<int>): (Budget, Outcome)
    requires HasEntries(b, scope)
  {
    if reading.None? then (b, ClockFailed)
    else
      var key := ScopeKey(scope);
      var used := b.sessions[key];
      var tenant := Refreshed(b.tenants[scope.tenantId], reading.value);
      var rolled := b.tenants[scope.tenantId := tenant];
      if tenant.used >= cfg.tenantDailyCap || used >= cfg.limit then
        (Budget(b.sessions, rolled), Exhausted(SnapshotOf(cfg, used)))
      else
        (Budget(b.sessions[key := used + 1],
                b.tenants[scope.tenantId := TenantDay(tenant.day, tenant.used + 1)]),
         Granted(SnapshotOf(cfg, used + 1)))
  }

  /** refund gives one unit back to each existing entry whose counter is positive. */
  function RefundBudget(b: Budget, scope: Scope): Budget {
    var key := ScopeKey(scope);
    var sessions :=
      if key in b.sessions && b.sessions[key] > 0 then b.sessions[key := b.sessions[key] - 1] else b.sessions;
    var id := scope.tenantId;
    var tenants :=
      if id in b.tenants && b.tenants[id].used > 0
      then b.tenants[id := TenantDay(b.tenants[id].day, b.tenants[id].used - 1)]
      else b.tenants;
    Budget(sessions, tenants)
  }

  /** Two scopes with one session entry are the same scope exactly when their tenant identifiers are
      equally long and their user identifiers are, which is always so when these hold no NUL. */
  lemma ScopeKeyInjective(s: Scope, t: Scope)
    requires ScopeKey(s) == ScopeKey(t)
    ensures s == t <==> |s.tenantId| == |t.tenantId| && |s.userId| == |t.userId|
    ensures NulFree(s.tenantId) && NulFree(s.userId) && NulFree(t.tenantId) && NulFree(t.userId) ==> s == t
  {
    var u, v := Join(s.userId, s.sessionId), Join(t.userId, t.sessionId);
    if |s.tenantId| == |t.tenantId| && |s.userId| == |t.userId| {
      JoinSameLength(s.tenantId, u, t.tenantId, v);
      JoinSameLength(s.userId, s.sessionId, t.userId, t.sessionId);
    }
    if NulFree(s.tenantId) && NulFree(s.userId) && NulFree(t.tenantId) && NulFree(t.userId) {
      JoinInjective(s.tenantId, u, t.tenantId, v);
      JoinInjective(s.userId, s.sessionId, t.userId, t.sessionId);
    }
  }

  /** Two scopes with NULs can share one entry. The server only forms scopes from session records
      whose identifiers passed a pattern without NUL; only other callers of the exported store can
      get here. */
  lemma ScopeKeyCollision()
    ensures exists s: Scope, t: Scope :: s != t && ScopeKey(s) == ScopeKey(t)
  {
    var s, t := Scope("a", "b\0c", "d"), Scope("a\0b", "c", "d");
    assert ScopeKey(s) == "a\0b\0c\0d" == ScopeKey(t);
    assert s != t;
  }

  /** The identifiers that the session store accepts: letters, digits and . _ - only. */
  predicate SafeId(s: string) {
    1 <= |s| <= 128 && forall i :: 0 <= i < |s| ==>
      'A' <= s[i] <= 'Z' || 'a' <= s[i] <= 'z' || '0' <= s[i] <= '9' || s[i] == '.' || s[i] == '_' || s[i] == '-'
  }

  /** So two scopes of the server share an entry only when they are the same. */
  lemma ServerScopesDoNotCollide(s: Scope, t: Scope)
    requires SafeId(s.tenantId) && SafeId(s.userId) && SafeId(t.tenantId) && SafeId(t.userId)
    requires ScopeKey(s) == ScopeKey(t)
    ensures s == t
  {
    ScopeKeyInjective(s, t);
  }

  // ----- the store object -----

  class BudgetStore {
    const cfg: Config
    var sessions: map<string, int>
    var tenants: map<string, TenantDay>

    constructor (cfg: Config)
      ensures this.cfg == cfg && View() == EmptyBudget()
    {
      this.cfg := cfg;
      sessions := map[];
      tenants := map[];
    }

    function View(): Budget
      reads this
    {
      Budget(sessions, tenants)
    }

    method SnapshotFor(scope: Scope) returns (s: Snapshot)
      ensures s == SnapshotOf(cfg, SessionUsed(View(), ScopeKey(scope)))
    {
      var key := ScopeKey(scope);
      var used := 0;
      if key in sessions {
        used := sessions[key];
      }
      s := SnapshotOf(cfg, used);
    }

    method Open(scope: Scope, reading: Option<int>)
      modifies this
      ensures View() == OpenEntries(old(View()), scope, reading)
    {
      var key := ScopeKey(scope);
      if key !in sessions {
        sessions := sessions[key := 0];
      }
      if reading.Some? && scope.tenantId !in tenants {
        tenants := tenants[scope.tenantId := TenantDay(reading.value, 0)];
      }
    }

    method Consume(scope: Scope, reading: Option<int>) returns (r: Outcome)
      requires HasEntries(View(), scope)
      modifies this
      ensures (View(), r) == ConsumeBody(cfg, old(View()), scope, reading)
    {
      if reading.None? {
        return ClockFailed;
      }
      var key := ScopeKey(scope);
      var id := scope.tenantId;
      if tenants[id].day != reading.value {
        tenants := tenants[id := TenantDay(reading.value, 0)];
      }
      assert tenants == old(tenants)[id := tenants[id]];
      if tenants[id].used >= cfg.tenantDailyCap {
        return Exhausted(SnapshotOf(cfg, sessions[key]));
      }
      if sessions[key] >= cfg.limit {
        return Exhausted(SnapshotOf(cfg, sessions[key]));
      }
      sessions := sessions[key := sessions[key] + 1];
      tenants := tenants[id := TenantDay(tenants[id].day, tenants[id].used + 1)];
      assert tenants == old(tenants)[id := tenants[id]];
      return Granted(SnapshotOf(cfg, sessions[key]));
    }

    method Refund(scope: Scope)
      modifies this
      ensures View() == RefundBudget(old(View()), scope)
    {
      var key := ScopeKey(scope);
      if key in sessions && sessions[key] > 0 {
        sessions := sessions[key := sessions[key] - 1];
      }
      var id := scope.tenantId;
      if id in tenants && tenants[id].used > 0 {
        tenants := tenants[id := TenantDay(tenants[id].day, tenants[id].used - 1)];
      }
    }
  }
}
