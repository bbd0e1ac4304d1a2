/** What holds in every reachable state of the Overwatch, and what follows from it: DNS never
    lists a forgotten backend, a crash loses nothing, staleness is found within a bound. */
module OverwatchRuns {
  import opened Prelude
  import opened Naming
  import opened LatencyEma
  import opened Dns
  import opened Overwatch

  // ---------------------------------------------------------------- invariant

  /** Address text that net.IP prints back unchanged, or that is no IP address at all. */
  predicate Canonical(c: Config, address: string) {
    c.parse(address) == None || c.parse(address) == Some(address)
  }

  /** An agent backend whose status can only come from its heartbeats. */
  predicate Quiet(b: Backend) {
    b.source == Agent && b.manual.status.None? && !b.drain.active && b.validation.healthy.None?
  }

  predicate SameRecord(a: Backend, b: Backend) {
    a == b.(status := a.status)
  }

  /** The endpoint belongs to a registered backend of a service that maps to this domain. */
  ghost predicate Backed(ids: set<BackendId>, domain: string, s: ServerInfo) {
    exists service :: NormalizeDomain(service) == domain && BackendId(service, s.address, s.port) in ids
  }

  ghost predicate DnsSound(d: Domains, ids: set<BackendId>) {
    forall name :: name in d ==> Unique(d[name].servers) && forall s :: s in d[name].servers ==> Backed(ids, name, s)
  }

  predicate RecordOk(c: Config, id: BackendId, b: Backend, lastSweep: int) {
    b.id == id && Canonical(c, id.address) && (b.source == Static || lastSweep - b.lastSeen <= c.removeAfter)
  }

  function Verdict(healthy: bool): Status {
    if healthy then Healthy else Unhealthy
  }

  /** The highest authority that has spoken decides: operator, then drain, then the Overwatch's own
      validation; only for an agent backend with none of these does the agent's claim count, and
      then it may have gone stale. */
  predicate AuthorityDecides(b: Backend) {
    if b.manual.status.Some? then b.status == Verdict(b.manual.status.value)
    else if b.drain.active then b.status == Draining
    else if b.validation.healthy.Some? then b.status == Verdict(b.validation.healthy.value)
    else if b.source == Agent then b.status == Stale || b.status == Verdict(b.agentHealthy)
    else b.status == Healthy
  }

  predicate StatusOk(c: Config, b: Backend, lastSweep: int) {
    AuthorityDecides(b) && (Quiet(b) && lastSweep - b.lastSeen > c.staleThreshold ==> b.status == Stale)
  }

  ghost predicate RecordsOk(c: Config, s: System, lastSweep: int) {
    && (forall id :: id in s.store ==> RecordOk(c, id, s.store[id], lastSweep))
    && (forall id :: id in s.backends ==> id in s.store && SameRecord(s.backends[id], s.store[id])
                                          && StatusOk(c, s.backends[id], lastSweep))
  }

  ghost predicate Core(c: Config, s: System, lastSweep: int) {
    RecordsOk(c, s, lastSweep) && DnsSound(s.domains, s.backends.Keys)
  }

  ghost predicate Inv(c: Config, t: Timed) {
    Core(c, t.sys, t.lastSweep) && t.sys.store.Keys == t.sys.backends.Keys && t.lastSweep <= t.clock
  }

  /** The configuration the claims are about: a sensible removal delay, canonical static
      addresses, and at most one server per endpoint in each configured domain. */
  ghost predicate ConfigOk(c: Config) {
    && 0 <= c.removeAfter
    && (forall p :: p in c.statics ==> Canonical(c, p.server.address))
    && DnsSound(c.base, PlacedIds(c.statics))
  }

  ghost predicate CanonicalEvent(c: Config, e: Event) {
    match e
    case Heartbeat(_, _, reports, _, _) => forall r :: r in reports ==> Canonical(c, r.address)
    case RegisterMessage(_, _, r) => Canonical(c, r.address)
    case ApiRegister(id, _, _) => Canonical(c, id.address)
    case StaticRegister(p) => Canonical(c, p.server.address)
    case _ => true
  }

  // ---------------------------------------------------------------- DNS steps

  lemma DnsKeepsWithMore(d: Domains, ids: set<BackendId>, more: set<BackendId>)
    requires DnsSound(d, ids) && ids <= more
    ensures DnsSound(d, more)
  {
    forall name, s | name in d && s in d[name].servers ensures Backed(more, name, s) {
      assert Backed(ids, name, s);
    }
  }

  lemma DnsKeepsRegister(c: Config, d: Domains, ids: set<BackendId>, id: BackendId, weight: int, region: string)
    requires DnsSound(d, ids) && id in ids && Canonical(c, id.address)
    ensures DnsSound(ServerRegistered(d, c.parse, id.service, id.address, id.port, weight, region), ids)
  {
    var name := NormalizeDomain(id.service);
    if name in d && c.parse(id.address).Some? {
      var s := ServerInfo(id.address, id.port, weight, region);
      UpsertEffect(d[name].servers, s);
      assert Backed(ids, name, s);
    }
  }

  lemma DnsKeepsDeregister(d: Domains, ids: set<BackendId>, id: BackendId)
    requires DnsSound(d, ids)
    ensures DnsSound(ServerDeregistered(d, id.service, id.address, id.port), ids - {id})
  {
    var home := NormalizeDomain(id.service);
    var d' := ServerDeregistered(d, id.service, id.address, id.port);
    if home in d {
      FindFinds(d[home].servers, id.address, id.port);
      if Find(d[home].servers, id.address, id.port) < |d[home].servers| {
        SwapRemoveEffect(d[home].servers, id.address, id.port);
      }
    }
    forall name, s | name in d' && s in d'[name].servers ensures Backed(ids - {id}, name, s) {
      assert s in d[name].servers && Backed(ids, name, s);
      var service :| NormalizeDomain(service) == name && BackendId(service, s.address, s.port) in ids;
      assert name == home ==> !At(s, id.address, id.port);
      assert BackendId(service, s.address, s.port) in ids - {id};
    }
  }

  // ---------------------------------------------------------------- primitive steps

  lemma RefreshKeeps(c: Config, b: Backend, now: int, lastSweep: int)
    requires lastSweep <= now
    ensures SameRecord(Refresh(c, b, now), b) && StatusOk(c, Refresh(c, b, now), lastSweep)
  {
  }

  lemma SaveKeeps(c: Config, s: System, b: Backend, before: Option<Status>, now: int, lastSweep: int)
    requires Core(c, s, lastSweep) && lastSweep <= now
    requires RecordOk(c, b.id, b, lastSweep)
    ensures Core(c, Save(c, s, b, before, now), lastSweep)
  {
    var r := Save(c, s, b, before, now);
    RefreshKeeps(c, b, now, lastSweep);
    DnsKeepsWithMore(s.domains, s.backends.Keys, r.backends.Keys);
    DnsKeepsRegister(c, s.domains, r.backends.Keys, b.id, b.weight, b.region);
  }

  lemma DeregisteredKeeps(c: Config, s: System, id: BackendId, lastSweep: int)
    requires Core(c, s, lastSweep)
    ensures Core(c, Deregistered(c, s, id), lastSweep)
  {
    if id in s.backends {
      DnsKeepsDeregister(s.domains, s.backends.Keys, id);
      assert (s.backends - {id}).Keys == s.backends.Keys - {id};
    }
  }

  lemma SweptOneKeeps(c: Config, s: System, id: BackendId, now: int, lastSweep: int)
    requires Core(c, s, lastSweep) && lastSweep <= now
    ensures Core(c, SweptOne(c, s, id, now), lastSweep)
    ensures SweptOne(c, s, id, now).backends.Keys == s.backends.Keys
  {
    if id in s.backends {
      var b := s.backends[id];
      RefreshKeeps(c, b, now, lastSweep);
      DnsKeepsRegister(c, s.domains, s.backends.Keys, id, b.weight, b.region);
      assert s.backends[id := Refresh(c, b, now)].Keys == s.backends.Keys;
    }
  }

  lemma LoadedOneKeeps(c: Config, s: System, id: BackendId, now: int, lastSweep: int)
    requires Core(c, s, lastSweep) && lastSweep <= now
    ensures Core(c, LoadedOne(c, s, id, now), lastSweep)
  {
    if id in s.store {
      var b := s.store[id];
      RefreshKeeps(c, b, now, lastSweep);
      var ids := LoadedOne(c, s, id, now).backends.Keys;
      DnsKeepsWithMore(s.domains, s.backends.Keys, ids);
      DnsKeepsRegister(c, s.domains, ids, id, b.weight, b.region);
    }
  }

  lemma AgentRegisteredKeeps(c: Config, s: System, agentId: string, region: string, id: BackendId, weight: int,
                             healthy: bool, now: int, lastSweep: int)
    requires Core(c, s, lastSweep) && lastSweep <= now && 0 <= c.removeAfter && Canonical(c, id.address)
    ensures Core(c, AgentRegistered(c, s, agentId, region, id, weight, healthy, now), lastSweep)
  {
    var b := if id in s.backends
             then s.backends[id].(agentId := agentId, region := region, weight := weight, agentHealthy := healthy,
                 lastSeen := now, updatedAt := now)
             else NewBackend(id, weight, agentId, region, Agent, healthy, now, "", now);
    SaveKeeps(c, s, b, Some(b.status), now, lastSweep);
  }

  lemma SaveGrowsKeys(c: Config, s: System, b: Backend, before: Option<Status>, now: int)
    ensures Save(c, s, b, before, now).backends.Keys == s.backends.Keys + {b.id}
    ensures Save(c, s, b, before, now).store.Keys == s.store.Keys + {b.id}
  {
  }

  lemma StaticRegisteredKeeps(c: Config, s: System, p: Placed, now: int, lastSweep: int)
    requires Core(c, s, lastSweep) && lastSweep <= now && Canonical(c, p.server.address)
    ensures var r := StaticRegistered(c, s, p, now);
            && Core(c, r, lastSweep)
            && r.backends.Keys == s.backends.Keys + {PlacedId(p)}
            && r.store.Keys == s.store.Keys + {PlacedId(p)}
  {
    var id := PlacedId(p);
    var checkType := if p.checkType == "" then "http" else p.checkType;
    var b := if id in s.backends
             then s.backends[id].(weight := p.server.weight, region := p.region, checkType := checkType,
                 updatedAt := now)
             else NewBackend(id, p.server.weight, "", p.region, Static, false, 0, checkType, now);
    assert id in s.backends ==> RecordOk(c, id, s.store[id], lastSweep) && SameRecord(s.backends[id], s.store[id]);
    assert RecordOk(c, id, b, lastSweep);
    SaveKeeps(c, s, b, Some(b.status), now, lastSweep);
    SaveGrowsKeys(c, s, b, Some(b.status), now);
    assert StaticRegistered(c, s, p, now) == Save(c, s, b, Some(b.status), now);
  }

  // ---------------------------------------------------------------- walks over the map

  lemma {:induction false} HeartbeatAllKeeps(c: Config, s: System, agentId: string, region: string,
                                             reports: seq<Report>, now: int, lastSweep: int)
    requires Core(c, s, lastSweep) && lastSweep <= now && 0 <= c.removeAfter
    requires forall r :: r in reports ==> Canonical(c, r.address)
    requires s.store.Keys == s.backends.Keys
    ensures var h := HeartbeatAll(c, s, agentId, region, reports, now);
            Core(c, h, lastSweep) && h.store.Keys == h.backends.Keys
  {
    if reports != [] {
      var last := |reports| - 1;
      HeartbeatAllKeeps(c, s, agentId, region, reports[..last], now, lastSweep);
      var r, s0 := reports[last], HeartbeatAll(c, s, agentId, region, reports[..last], now);
      AgentRegisteredKeeps(c, s0, agentId, region, ReportId(r), r.weight, r.healthy, now, lastSweep);
      var s1 := AgentRegistered(c, s0, agentId, region, ReportId(r), r.weight, r.healthy, now);
      DnsKeepsRegister(c, s1.domains, s1.backends.Keys, ReportId(r), r.weight, region);
    }
  }

  lemma {:induction false} DrainedKeeps(c: Config, s: System, order: seq<BackendId>, agentId: string, drain: Drain,
                                        now: int, lastSweep: int)
    requires Core(c, s, lastSweep) && lastSweep <= now && s.store.Keys == s.backends.Keys
    ensures var r := Drained(c, s, order, agentId, drain, now);
            Core(c, r, lastSweep) && r.store.Keys == r.backends.Keys
  {
    if order != [] {
      var last := |order| - 1;
      DrainedKeeps(c, s, order[..last], agentId, drain, now, lastSweep);
      var s0 := Drained(c, s, order[..last], agentId, drain, now);
      if order[last] in s0.backends {
        SaveKeeps(c, s0, s0.backends[order[last]].(drain := drain), Some(s0.backends[order[last]].status), now,
            lastSweep);
      }
    }
  }

  lemma {:induction false} SweptAllKeeps(c: Config, s: System, order: seq<BackendId>, now: int, lastSweep: int)
    requires Core(c, s, lastSweep) && lastSweep <= now
    ensures var r := SweptAll(c, s, order, now);
            Core(c, r, lastSweep) && r.backends.Keys == s.backends.Keys && r.store == s.store
  {
    if order != [] {
      var last := |order| - 1;
      SweptAllKeeps(c, s, order[..last], now, lastSweep);
      SweptOneKeeps(c, SweptAll(c, s, order[..last], now), order[last], now, lastSweep);
    }
  }

  lemma {:induction false} DeregisteredAllKeeps(c: Config, s: System, ids: seq<BackendId>, lastSweep: int)
    requires Core(c, s, lastSweep) && s.store.Keys == s.backends.Keys
    ensures var r := DeregisteredAll(c, s, ids);
            Core(c, r, lastSweep) && r.store.Keys == r.backends.Keys
  {
    if ids != [] {
      var last := |ids| - 1;
      DeregisteredAllKeeps(c, s, ids[..last], lastSweep);
      DeregisteredKeeps(c, DeregisteredAll(c, s, ids[..last]), ids[last], lastSweep);
    }
  }

  lemma {:induction false} LoadedKeeps(c: Config, s: System, order: seq<BackendId>, now: int, lastSweep: int)
    requires Core(c, s, lastSweep) && lastSweep <= now
    ensures var r := Loaded(c, s, order, now);
            && Core(c, r, lastSweep) && r.store == s.store
            && r.backends.Keys == s.backends.Keys + (set id | id in order && id in s.store)
  {
    if order != [] {
      var last := |order| - 1;
      LoadedKeeps(c, s, order[..last], now, lastSweep);
      LoadedOneKeeps(c, Loaded(c, s, order[..last], now), order[last], now, lastSweep);
    }
  }

  function PlacedIds(placed: seq<Placed>): set<BackendId> {
    set p | p in placed :: PlacedId(p)
  }

  lemma PlacedIdsGrow(placed: seq<Placed>, last: nat)
    requires |placed| == last + 1
    ensures PlacedIds(placed) == PlacedIds(placed[..last]) + {PlacedId(placed[last])}
  {
    assert placed == placed[..last] + [placed[last]];
  }

  lemma {:induction false} StaticsRegisteredKeeps(c: Config, s: System, placed: seq<Placed>, now: int, lastSweep: int)
    requires Core(c, s, lastSweep) && lastSweep <= now
    requires forall p :: p in placed ==> Canonical(c, p.server.address)
    ensures var r := StaticsRegistered(c, s, placed, now);
            && Core(c, r, lastSweep)
            && r.backends.Keys == s.backends.Keys + PlacedIds(placed)
            && r.store.Keys == s.store.Keys + PlacedIds(placed)
  {
    if placed != [] {
      var last := |placed| - 1;
      var before, p := placed[..last], placed[last];
      StaticsRegisteredKeeps(c, s, before, now, lastSweep);
      var r := StaticsRegistered(c, s, before, now);
      StaticRegisteredKeeps(c, r, p, now, lastSweep);
      PlacedIdsGrow(placed, last);
      KeysGrow(s.backends.Keys, PlacedIds(before), PlacedId(p));
      KeysGrow(s.store.Keys, PlacedIds(before), PlacedId(p));
      assert StaticsRegistered(c, s, placed, now) == StaticRegistered(c, r, p, now);
    } else {
      assert PlacedIds(placed) == {};
    }
  }

  lemma KeysGrow(a: set<BackendId>, b: set<BackendId>, x: BackendId)
    ensures a + b + {x} == a + (b + {x})
  {
  }

  // ---------------------------------------------------------------- the sweep, exactly

  /** The record of a backend after the first pass. */
  function AfterPass(c: Config, order: seq<BackendId>, id: BackendId, b: Backend, now: int): Backend {
    if id in order && !Expired(c, b, now) then Refresh(c, b, now) else b
  }

  lemma {:induction false} SweptAllBackends(c: Config, s: System, order: seq<BackendId>, now: int)
    ensures var r := SweptAll(c, s, order, now);
            && r.backends.Keys == s.backends.Keys && r.store == s.store
            && forall id :: id in s.backends ==> r.backends[id] == AfterPass(c, order, id, s.backends[id], now)
  {
    if order != [] {
      var last := |order| - 1;
      SweptAllBackends(c, s, order[..last], now);
      var s0, r := SweptAll(c, s, order[..last], now), SweptAll(c, s, order, now);
      assert order == order[..last] + [order[last]];
      assert order[last] in s0.backends ==>
               s0.backends[order[last] := r.backends[order[last]]].Keys == s0.backends.Keys;
      forall id | id in s.backends ensures r.backends[id] == AfterPass(c, order, id, s.backends[id], now) {
        assert s0.backends[id] == AfterPass(c, order[..last], id, s.backends[id], now);
      }
    }
  }

  lemma {:induction false} ExpiredOfMembers(c: Config, s: System, order: seq<BackendId>, now: int)
    ensures forall id :: id in ExpiredOf(c, s, order, now)
              <==> id in order && id in s.backends && Expired(c, s.backends[id], now)
  {
    if order != [] {
      ExpiredOfMembers(c, s, order[..|order| - 1], now);
    }
  }

  lemma {:induction false} DeregisteredAllBackends(c: Config, s: System, ids: seq<BackendId>)
    requires s.store.Keys == s.backends.Keys
    ensures DeregisteredAll(c, s, ids).backends == s.backends - (set id | id in ids)
    ensures DeregisteredAll(c, s, ids).store == s.store - (set id | id in ids)
  {
    if ids != [] {
      DeregisteredAllBackends(c, s, ids[..|ids| - 1]);
    }
  }

  /** Whatever order the sweep walks in, it removes exactly the expired backends, from memory and
      store alike, and recomputes the rest in memory only.  No static backend is ever expired, but
      an API backend is, although nothing ever sends heartbeats for it. */
  lemma SweepRemovesExactlyTheExpired(c: Config, s: System, order: seq<BackendId>, now: int)
    requires Covers(order, s.backends) && s.store.Keys == s.backends.Keys
    ensures var r := Swept(c, s, order, now);
            && r.backends == (map id | id in s.backends && !Expired(c, s.backends[id], now) ::
                Refresh(c, s.backends[id], now))
            && r.store == (map id | id in s.store && !Expired(c, s.backends[id], now) :: s.store[id])
  {
    SweptAllBackends(c, s, order, now);
    ExpiredOfMembers(c, s, order, now);
    DeregisteredAllBackends(c, SweptAll(c, s, order, now), ExpiredOf(c, s, order, now));
  }

  lemma SweptKeeps(c: Config, s: System, order: seq<BackendId>, now: int, lastSweep: int)
    requires Core(c, s, lastSweep) && lastSweep <= now && s.store.Keys == s.backends.Keys && Covers(order, s.backends)
    ensures var r := Swept(c, s, order, now);
            Core(c, r, now) && r.store.Keys == r.backends.Keys
  {
    SweptAllKeeps(c, s, order, now, lastSweep);
    DeregisteredAllKeeps(c, SweptAll(c, s, order, now), ExpiredOf(c, s, order, now), lastSweep);
    SweepRemovesExactlyTheExpired(c, s, order, now);
  }

  // ---------------------------------------------------------------- start and restart

  lemma BootedKeeps(c: Config, store: map<BackendId, Backend>, now: int, lastSweep: int)
    requires ConfigOk(c) && lastSweep <= now
    requires forall id :: id in store ==> RecordOk(c, id, store[id], lastSweep)
    ensures var b := Booted(c, store, now);
            && Core(c, b, lastSweep)
            && b.backends.Keys == PlacedIds(c.statics)
            && b.store.Keys == store.Keys + b.backends.Keys
  {
    StaticsRegisteredKeeps(c, System(map[], store, map[]), c.statics, now, lastSweep);
  }

  lemma RestartKeeps(c: Config, t: Timed, order: seq<BackendId>, now: int)
    requires ConfigOk(c) && Inv(c, t) && t.clock <= now
    requires Covers(order, Booted(c, t.sys.store, now).store)
    ensures var r := Loaded(c, Booted(c, t.sys.store, now), order, now);
            Core(c, r, t.lastSweep) && r.store.Keys == r.backends.Keys
  {
    BootedKeeps(c, t.sys.store, now, t.lastSweep);
    LoadedKeeps(c, Booted(c, t.sys.store, now), order, now, t.lastSweep);
  }

  // ---------------------------------------------------------------- every step, every run

  /** An operation that changes neither the source nor the last heartbeat of one backend. */
  lemma EditKeeps(c: Config, s: System, b: Backend, before: Option<Status>, now: int, lastSweep: int)
    requires Core(c, s, lastSweep) && lastSweep <= now
    requires b.id in s.backends && b.source == s.backends[b.id].source && b.lastSeen == s.backends[b.id].lastSeen
    requires before == Some(s.backends[b.id].status)
    ensures var r := Save(c, s, b, before, now);
            Core(c, r, lastSweep) && r.backends.Keys == s.backends.Keys && r.store.Keys == s.store.Keys
  {
    SaveKeeps(c, s, b, before, now, lastSweep);
    assert s.backends[b.id := Refresh(c, b, now)].Keys == s.backends.Keys;
    assert s.store[b.id := Refresh(c, b, now)].Keys == s.store.Keys;
  }

  lemma ValidatedKeeps(c: Config, s: System, id: BackendId, healthy: bool, error: string, latency: int, now: int,
                       lastSweep: int)
    requires Core(c, s, lastSweep) && lastSweep <= now && id in s.backends
    ensures var r := Validated(c, s, id, healthy, error, latency, now);
            Core(c, r, lastSweep) && r.backends.Keys == s.backends.Keys && r.store.Keys == s.store.Keys
  {
    var b := s.backends[id].(validation := Validation(Some(healthy), now, error));
    var b' := if healthy && latency > 0 then b.(latency := Observe(c.alpha, b.latency, latency)) else b;
    assert b'.id == id;
    EditKeeps(c, s, b', Some(b.status), now, lastSweep);
  }

  lemma UpdatedKeeps(c: Config, s: System, id: BackendId, weight: int, region: string, now: int, lastSweep: int)
    requires Core(c, s, lastSweep) && lastSweep <= now && id in s.backends
    ensures var r := Updated(c, s, id, weight, region, now);
            Core(c, r, lastSweep) && r.backends.Keys == s.backends.Keys && r.store.Keys == s.store.Keys
  {
    var b := s.backends[id].(weight := weight, region := region, updatedAt := now);
    assert b.id == id;
    EditKeeps(c, s, b, Some(b.status), now, lastSweep);
  }

  lemma ManualKeeps(c: Config, s: System, id: BackendId, manual: ManualOverride, now: int, lastSweep: int)
    requires Core(c, s, lastSweep) && lastSweep <= now && id in s.backends
    ensures var b := s.backends[id].(manual := manual);
            var r := Save(c, s, b, Some(b.status), now);
            Core(c, r, lastSweep) && r.backends.Keys == s.backends.Keys && r.store.Keys == s.store.Keys
  {
    var b := s.backends[id].(manual := manual);
    assert b.id == id;
    EditKeeps(c, s, b, Some(b.status), now, lastSweep);
  }

  lemma HeartbeatStepKeeps(c: Config, t: Timed, at: int, e: Event)
    requires ConfigOk(c) && Inv(c, t) && Enabled(c, t, at, e) && CanonicalEvent(c, e) && e.Heartbeat?
    ensures Inv(c, Next(c, t, at, e))
  {
    HeartbeatAllKeeps(c, t.sys, e.agentId, e.region, e.reports, at, t.lastSweep);
    if e.drain.Some? {
      DrainedKeeps(c, HeartbeatAll(c, t.sys, e.agentId, e.region, e.reports, at), e.order, e.agentId, e.drain.value,
          at, t.lastSweep);
    }
  }

  lemma StepKeeps(c: Config, t: Timed, at: int, e: Event)
    requires ConfigOk(c) && Inv(c, t) && Enabled(c, t, at, e) && CanonicalEvent(c, e)
    ensures Inv(c, Next(c, t, at, e))
  {
    hide Core;
    var s, last := t.sys, t.lastSweep;
    match e
    case Heartbeat(_, _, _, _, _) => HeartbeatStepKeeps(c, t, at, e);
    case RegisterMessage(agentId, region, r) => AgentRegisteredKeeps(c, s, agentId, region, ReportId(r), r.weight,
        true, at, last);
    case DeregisterMessage(id) => DeregisteredKeeps(c, s, id, last);
    case ApiRegister(id, weight, region) =>
      if id !in s.backends {
        SaveKeeps(c, s, NewBackend(id, weight, "", region, Api, false, at, "", at), None, at, last);
      }
    case StaticRegister(p) => StaticRegisteredKeeps(c, s, p, at, last);
    case Sweep(order) => SweptKeeps(c, s, order, at, last);
    case Restart(order) => RestartKeeps(c, t, order, at);
    case Update(id, weight, region) =>
      if id in s.backends {
        UpdatedKeeps(c, s, id, weight, region, at, last);
      }
    case Validate(id, healthy, error, latency) =>
      if id in s.backends {
        ValidatedKeeps(c, s, id, healthy, error, latency, at, last);
      }
    case SetOverride(id, healthy, reason, author) =>
      if id in s.backends {
        ManualKeeps(c, s, id, ManualOverride(Some(healthy), reason, author, at), at, last);
      }
    case ClearOverride(id) =>
      if id in s.backends {
        ManualKeeps(c, s, id, NO_OVERRIDE, at, last);
      }
  }

  lemma InitialHolds(c: Config, now: int)
    requires ConfigOk(c)
    ensures Inv(c, Initial(c, now))
  {
    BootedKeeps(c, map[], now, now);
  }

  lemma {:induction false} RunKeeps(c: Config, t: Timed, events: seq<(int, Event)>)
    requires ConfigOk(c) && Inv(c, t) && Admissible(c, t, events)
    requires forall e :: e in events ==> CanonicalEvent(c, e.1)
    ensures Inv(c, Run(c, t, events))
  {
    if events != [] {
      var last := |events| - 1;
      var before := events[..last];
      forall i | 0 <= i < last ensures Enabled(c, Run(c, t, before[..i]), before[i].0, before[i].1) {
        assert before[..i] == events[..i];
      }
      RunKeeps(c, t, before);
      assert Enabled(c, Run(c, t, events[..last]), events[last].0, events[last].1);
      assert events[last] in events;
      StepKeeps(c, Run(c, t, before), events[last].0, events[last].1);
    }
  }
}
