/**
 The server-side session store: creation with an idle sweep and a first-in first-out cap, lookup
 with an idle timeout, and per-session trust-case preferences.

 `Step` says what one call does; class Store carries it out. SessionHistory says what the replies
 mean. Identifiers and secrets come from the random generator and are inputs here.
 */
module SessionStore {
  import opened Prelude

  datatype Identity = Identity(tenantId: string, userId: string, additions: seq<(string, string)>)

  /** `accepts` is validateSessionIdentity, `isTrustCaseId` the trust-case identifier pattern. */
  datatype Config = Config(
    idleTimeoutMs: int, maxSessions: int, accepts: Identity -> bool, isTrustCaseId: string -> bool)

  datatype Record = Record(
    sessionId: string, identity: Identity, secret: string, preferences: map<string, string>, createdAt: int)

  datatype Entry = Entry(record: Record, lastAccessMs: int, createdAtMs: int)

  /** Sessions in order of insertion, as the JavaScript Map enumerates them. */
  datatype State = State(order: seq<string>, entries: map<string, Entry>)

  datatype Op =
    | Create(identity: Identity, id: string, secret: string, now: int)
    | Get(id: string, now: int)
    | GetPreference(id: string, programId: string, now: int)
    | SetPreference(id: string, programId: string, trustCaseId: string, now: int)
    | Delete(id: string)

  datatype Reply =
    | Session(record: Record)
    | NoSession
    | Preference(value: Option<string>)
    | Deleted(present: bool)
    | Rejected

  function EmptyState(): State {
    State([], map[])
  }

  predicate Idle(cfg: Config, lastAccessMs: int, now: int) {
    cfg.idleTimeoutMs > 0 && now - lastAccessMs > cfg.idleTimeoutMs
  }

  function Remove(order: seq<string>, id: string): seq<string> {
    if order == [] then []
    else if order[0] == id then Remove(order[1..], id)
    else [order[0]] + Remove(order[1..], id)
  }

  function Drop(st: State, id: string): State {
    State(Remove(st.order, id), st.entries - {id})
  }

  function Put(st: State, id: string, e: Entry): State {
    State(if id in st.entries then st.order else st.order + [id], st.entries[id := e])
  }

  /** The idle sweep over the first entries of an enumeration order. */
  function SweepUpTo(cfg: Config, st: State, ids: seq<string>, now: int): State {
    if ids == [] then st
    else
      var swept := SweepUpTo(cfg, st, ids[..|ids| - 1], now);
      var id := ids[|ids| - 1];
      if id in swept.entries && Idle(cfg, swept.entries[id].lastAccessMs, now) then Drop(swept, id) else swept
  }

  function Sweep(cfg: Config, st: State, now: int): State {
    if cfg.idleTimeoutMs <= 0 then st else SweepUpTo(cfg, st, st.order, now)
  }

  function EvictUntilUnderCap(st: State, cap: int): State
    decreases |st.order|
  {
    if st.order == [] || |st.order| < cap then st
    else EvictUntilUnderCap(State(st.order[1..], st.entries - {st.order[0]}), cap)
  }

  function CreateStep(cfg: Config, st: State, identity: Identity, id: string, secret: string, now: int): (State, Reply) {
    if !cfg.accepts(identity) then (st, Rejected)
    else
      var room := EvictUntilUnderCap(Sweep(cfg, st, now), cfg.maxSessions);
      var record := Record(id, identity, secret, map[], now);
      (Put(room, id, Entry(record, now, now)), Session(record))
  }

  function GetStep(cfg: Config, st: State, id: string, now: int): (State, Reply) {
    if id == "" || id !in st.entries then (st, NoSession)
    else if Idle(cfg, st.entries[id].lastAccessMs, now) then (Drop(st, id), NoSession)
    else (Put(st, id, st.entries[id].(lastAccessMs := now)), Session(st.entries[id].record))
  }

  function GetPreferenceStep(cfg: Config, st: State, id: string, programId: string, now: int): (State, Reply) {
    var (after, reply) := GetStep(cfg, st, id, now);
    (after,
     Preference(if reply.Session? && programId != "" && programId in reply.record.preferences
                then Some(reply.record.preferences[programId]) else None))
  }

  function SetPreferenceStep(cfg: Config, st: State, id: string, programId: string, trustCaseId: string, now: int)
    : (State, Reply)
  {
    var (after, reply) := GetStep(cfg, st, id, now);
    if !reply.Session? || programId == "" || trustCaseId == "" then (after, NoSession)
    else if !cfg.isTrustCaseId(trustCaseId) then (after, Rejected)
    else
      var record := reply.record.(preferences := reply.record.preferences[programId := trustCaseId]);
      (if id in after.entries then Put(after, id, after.entries[id].(record := record)) else after, Session(record))
  }

  function Step(cfg: Config, st: State, op: Op): (State, Reply) {
    match op
    case Create(identity, id, secret, now) => CreateStep(cfg, st, identity, id, secret, now)
    case Get(id, now) => GetStep(cfg, st, id, now)
    case GetPreference(id, programId, now) => GetPreferenceStep(cfg, st, id, programId, now)
    case SetPreference(id, programId, trustCaseId, now) => SetPreferenceStep(cfg, st, id, programId, trustCaseId, now)
    case Delete(id) => if id == "" then (st, Deleted(false)) else (Drop(st, id), Deleted(id in st.entries))
  }

  // ----- the store object -----

  class Store {
    const cfg: Config
    var order: seq<string>
    var entries: map<string, Entry>

    constructor (cfg: Config)
      ensures this.cfg == cfg && View() == EmptyState()
    {
      this.cfg := cfg;
      order := [];
      entries := map[];
    }

    function View(): State
      reads this
    {
      State(order, entries)
    }

    method RemoveEntry(id: string)
      modifies this
      ensures View() == Drop(old(View()), id)
    {
      order := Remove(order, id);
      entries := entries - {id};
    }

    method SweepIdle(now: int)
      modifies this
      ensures View() == Sweep(cfg, old(View()), now)
    {
      if cfg.idleTimeoutMs <= 0 {
        return;
      }
      var ids := order;
      for i := 0 to |ids|
        invariant View() == SweepUpTo(cfg, old(View()), ids[..i], now)
      {
        assert ids[..i + 1][..i] == ids[..i];
        if ids[i] in entries && now - entries[ids[i]].lastAccessMs > cfg.idleTimeoutMs {
          RemoveEntry(ids[i]);
        }
      }
      assert ids[..|ids|] == ids;
    }

    method Evict()
      modifies this
      ensures View() == EvictUntilUnderCap(old(View()), cfg.maxSessions)
    {
      while |order| >= cfg.maxSessions && order != []
        invariant EvictUntilUnderCap(View(), cfg.maxSessions) == EvictUntilUnderCap(old(View()), cfg.maxSessions)
        decreases |order|
      {
        var oldest := order[0];
        order := order[1..];
        entries := entries - {oldest};
      }
    }

    method PutEntry(id: string, e: Entry)
      modifies this
      ensures View() == Put(old(View()), id, e)
    {
      if id !in entries {
        order := order + [id];
      }
      entries := entries[id := e];
    }

    method Create(identity: Identity, id: string, secret: string, now: int) returns (reply: Reply)
      modifies this
      ensures View() == CreateStep(cfg, old(View()), identity, id, secret, now).0
      ensures reply == CreateStep(cfg, old(View()), identity, id, secret, now).1
    {
      if !cfg.accepts(identity) {
        return Rejected;
      }
      SweepIdle(now);
      Evict();
      var record := Record(id, identity, secret, map[], now);
      PutEntry(id, Entry(record, now, now));
      return Session(record);
    }

    method Get(id: string, now: int) returns (reply: Reply)
      modifies this
      ensures View() == GetStep(cfg, old(View()), id, now).0
      ensures reply == GetStep(cfg, old(View()), id, now).1
    {
      if id == "" || id !in entries {
        return NoSession;
      }
      var entry := entries[id];
      if cfg.idleTimeoutMs > 0 && now - entry.lastAccessMs > cfg.idleTimeoutMs {
        RemoveEntry(id);
        return NoSession;
      }
      entries := entries[id := entry.(lastAccessMs := now)];
      return Session(entry.record);
    }

    method GetPreference(id: string, programId: string, now: int) returns (reply: Reply)
      modifies this
      ensures View() == GetPreferenceStep(cfg, old(View()), id, programId, now).0
      ensures reply == GetPreferenceStep(cfg, old(View()), id, programId, now).1
    {
      var found := Get(id, now);
      if !found.Session? || programId == "" {
        return Preference(None);
      }
      if programId in found.record.preferences {
        return Preference(Some(found.record.preferences[programId]));
      }
      return Preference(None);
    }

    method SetPreference(id: string, programId: string, trustCaseId: string, now: int) returns (reply: Reply)
      modifies this
      ensures View() == SetPreferenceStep(cfg, old(View()), id, programId, trustCaseId, now).0
      ensures reply == SetPreferenceStep(cfg, old(View()), id, programId, trustCaseId, now).1
    {
      var found := Get(id, now);
      if !found.Session? || programId == "" || trustCaseId == "" {
        return NoSession;
      }
      if !cfg.isTrustCaseId(trustCaseId) {
        return Rejected;
      }
      var record := found.record.(preferences := found.record.preferences[programId := trustCaseId]);
      PutEntry(id, entries[id].(record := record));
      return Session(record);
    }

    method Delete(id: string) returns (reply: Reply)
      modifies this
      ensures View() == Step(cfg, old(View()), Op.Delete(id)).0
      ensures reply == Step(cfg, old(View()), Op.Delete(id)).1
    {
      if id == "" {
        return Deleted(false);
      }
      var present := id in entries;
      RemoveEntry(id);
      return Deleted(present);
    }
  }
}
