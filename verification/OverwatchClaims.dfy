/** The claims about whole runs of the Overwatch. */
module OverwatchClaims {
  import opened Prelude
  import opened Naming
  import opened Dns
  import opened Overwatch
  import opened OverwatchRuns

  // ---------------------------------------------------------------- DNS and the registry agree

  /** In every reachable state each DNS server has a live backend behind it, and an endpoint is
      listed at most once in a domain. */
  lemma DnsNeverListsAForgottenBackend(c: Config, start: int, events: seq<(int, Event)>, domain: string, s: ServerInfo)
    requires ConfigOk(c) && Admissible(c, Initial(c, start), events)
    requires forall e :: e in events ==> CanonicalEvent(c, e.1)
    requires var d := Run(c, Initial(c, start), events).sys.domains; domain in d && s in d[domain].servers
    ensures var sys := Run(c, Initial(c, start), events).sys;
            && Unique(sys.domains[domain].servers)
            && exists service :: NormalizeDomain(service) == domain
                && BackendId(service, s.address, s.port) in sys.backends
  {
    InitialHolds(c, start);
    RunKeeps(c, Initial(c, start), events);
    var sys := Run(c, Initial(c, start), events).sys;
    assert Backed(sys.backends.Keys, domain, s);
    var service :| NormalizeDomain(service) == domain && BackendId(service, s.address, s.port) in sys.backends.Keys;
    assert BackendId(service, s.address, s.port) in sys.backends;
  }

  /** The registry that BuildRegistry makes meets what ConfigOk asks of it. */
  lemma {:induction false} ConfiguredDomainsAreBacked(c: Config, placed: seq<Placed>, factory: RouterFactory,
                                                      defaultTtl: int, domains: seq<Domain>)
    requires forall p :: p in placed ==> Canonical(c, p.server.address)
    requires forall d :: d in domains ==> Unique(DomainServers(placed, c.parse, d.regions, d.name))
    ensures DnsSound(ConfiguredDomains(placed, c.parse, factory, defaultTtl, domains), PlacedIds(placed))
  {
    if domains != [] {
      var last := |domains| - 1;
      var d := domains[last];
      ConfiguredDomainsAreBacked(c, placed, factory, defaultTtl, domains[..last]);
      var servers := DomainServers(placed, c.parse, d.regions, d.name);
      forall s | s in servers ensures Backed(PlacedIds(placed), NormalizeDomain(d.name), s) {
        DomainServersMembers(placed, c.parse, d.regions, d.name, s);
        var p :| p in placed && p.server.service == d.name && p.server.port == s.port
            && c.parse(p.server.address) == Some(s.address);
        assert PlacedId(p) == BackendId(d.name, s.address, s.port);
      }
    }
  }

  /** Canonical address text is exactly what makes a registration removable again: otherwise
      DeregisterServer, which searches for the raw text, leaves the server listed. */
  lemma DeregisterUndoesRegisterIffCanonical(d: Domains, parse: IpParser, service: string, address: string,
                                             port: int, weight: int, region: string)
    requires NormalizeDomain(service) in d && parse(address).Some?
    requires var servers := d[NormalizeDomain(service)].servers;
             Unique(servers) && forall s :: s in servers ==> parse(s.address) == Some(s.address)
    ensures var name := NormalizeDomain(service);
            var after := ServerDeregistered(ServerRegistered(d, parse, service, address, port, weight, region),
                service, address, port);
            (forall s :: s in after[name].servers ==> !At(s, parse(address).value, port))
                <==> parse(address) == Some(address)
  {
    var name, ip := NormalizeDomain(service), parse(address).value;
    var servers, s := d[name].servers, ServerInfo(ip, port, weight, region);
    var registered := ServerRegistered(d, parse, service, address, port, weight, region);
    if ip == address {
      UpsertEffect(servers, s);
      FindFinds(registered[name].servers, address, port);
      assert s in registered[name].servers;
      SwapRemoveEffect(registered[name].servers, address, port);
    } else {
      FindFinds(servers, address, port);
      assert registered[name].servers == servers + [s];
      FindFinds(servers + [s], address, port);
      assert s in servers + [s] && At(s, ip, port);
    }
  }

  function RegisteredTimes(d: Domains, parse: IpParser, r: Report, region: string, n: nat): Domains {
    if n == 0 then d
    else ServerRegistered(RegisteredTimes(d, parse, r, region, n - 1), parse, r.service, r.address, r.port, r.weight,
        region)
  }

  /** Every heartbeat registers its servers in DNS again.  With an address in non-canonical text
      each registration adds one more entry for the same endpoint. */
  lemma {:induction false} NonCanonicalRegistrationsPileUp(d: Domains, parse: IpParser, r: Report, region: string,
                                                           n: nat)
    requires NormalizeDomain(r.service) in d && parse(r.address).Some? && parse(r.address) != Some(r.address)
    requires forall s :: s in d[NormalizeDomain(r.service)].servers ==> parse(s.address) == Some(s.address)
    requires parse(parse(r.address).value) == parse(r.address)
    ensures var name, after := NormalizeDomain(r.service), RegisteredTimes(d, parse, r, region, n);
            && name in after
            && after[name].servers == d[name].servers + seq(n, i => ServerInfo(parse(r.address).value, r.port,
                r.weight, region))
  {
    if n > 0 {
      NonCanonicalRegistrationsPileUp(d, parse, r, region, n - 1);
      var servers := RegisteredTimes(d, parse, r, region, n - 1)[NormalizeDomain(r.service)].servers;
      FindFinds(servers, r.address, r.port);
    }
  }

  // ---------------------------------------------------------------- what an edit shows

  /** A new weight or region set through the API is served exactly when it is no news, or when the
      same call happens to change the status: the callback is all that carries it to DNS. */
  lemma EditedWeightIsServedIffStatusChanges(c: Config, s: System, id: BackendId, weight: int, region: string, now: int)
    requires id in s.backends && s.backends[id].id == id && c.parse(id.address) == Some(id.address)
    requires var name := NormalizeDomain(id.service); name in s.domains && Unique(s.domains[name].servers)
    requires ServerInfo(id.address, id.port, s.backends[id].weight,
               s.backends[id].region) in s.domains[NormalizeDomain(id.service)].servers
    ensures var b, d := s.backends[id], Updated(c, s, id, weight, region, now).domains;
            var name := NormalizeDomain(id.service);
            && name in d
            && (ServerInfo(id.address, id.port, weight, region) in d[name].servers
                <==> (weight == b.weight && region == b.region) || Effective(c, b, now) != b.status)
  {
    var b, servers := s.backends[id], s.domains[NormalizeDomain(id.service)].servers;
    var served, edited := ServerInfo(id.address, id.port, b.weight, b.region),
        ServerInfo(id.address, id.port, weight, region);
    var b' := b.(weight := weight, region := region, updatedAt := now);
    assert Effective(c, b', now) == Effective(c, b, now);
    UpsertEffect(servers, edited);
    if edited in servers {
      assert edited == served;
    }
  }

  // ---------------------------------------------------------------- crash recovery

  function AfterLoad(c: Config, s: System, order: seq<BackendId>, id: BackendId, now: int): Option<Backend> {
    if id in order && id in s.store then Some(Refresh(c, s.store[id], now))
    else if id in s.backends then Some(s.backends[id])
    else None
  }

  function Lookup(m: map<BackendId, Backend>, id: BackendId): Option<Backend> {
    if id in m then Some(m[id]) else None
  }

  lemma {:induction false} LoadedBackends(c: Config, s: System, order: seq<BackendId>, now: int, id: BackendId)
    ensures Loaded(c, s, order, now).store == s.store
    ensures Lookup(Loaded(c, s, order, now).backends, id) == AfterLoad(c, s, order, id, now)
  {
    if order != [] {
      var last := |order| - 1;
      LoadedBackends(c, s, order[..last], now, id);
      assert order == order[..last] + [order[last]];
      assert Loaded(c, s, order, now) == LoadedOne(c, Loaded(c, s, order[..last], now), order[last], now);
    }
  }

  lemma SameLookups(m: map<BackendId, Backend>, n: map<BackendId, Backend>)
    requires forall id :: Lookup(m, id) == Lookup(n, id)
    ensures m == n
  {
    assert forall id :: id in m <==> Lookup(m, id).Some?;
    assert forall id :: id in n <==> Lookup(n, id).Some?;
    assert forall id :: id in m ==> m[id] == Lookup(m, id).value;
  }

  lemma RecoveryFrom(c: Config, sys: System, lastSweep: int, order: seq<BackendId>, dns: Domains, now: int,
                     id: BackendId)
    requires RecordsOk(c, sys, lastSweep) && sys.store.Keys == sys.backends.Keys && Covers(order, sys.store)
    ensures Lookup(Loaded(c, System(map[], sys.store, dns), order, now).backends, id)
         == (if id in sys.backends then Some(Refresh(c, sys.backends[id], now)) else None)
  {
    LoadedBackends(c, System(map[], sys.store, dns), order, now, id);
    assert id in sys.store.Keys <==> id in sys.backends.Keys;
    assert id in sys.backends ==> SameRecord(sys.backends[id], sys.store[id]);
  }

  /** Loading the store into an empty registry gives back exactly the backends in memory before
      the crash, every status recomputed, although sweeps never persist the status they compute. */
  lemma CrashRecovery(c: Config, start: int, events: seq<(int, Event)>, order: seq<BackendId>, dns: Domains, now: int)
    requires ConfigOk(c) && Admissible(c, Initial(c, start), events)
    requires forall e :: e in events ==> CanonicalEvent(c, e.1)
    requires Covers(order, Run(c, Initial(c, start), events).sys.store)
    ensures var sys := Run(c, Initial(c, start), events).sys;
            Loaded(c, System(map[], sys.store, dns), order, now).backends
            == map id | id in sys.backends :: Refresh(c, sys.backends[id], now)
  {
    InitialHolds(c, start);
    RunKeeps(c, Initial(c, start), events);
    var t := Run(c, Initial(c, start), events);
    var loaded := Loaded(c, System(map[], t.sys.store, dns), order, now).backends;
    var expected := map id | id in t.sys.backends :: Refresh(c, t.sys.backends[id], now);
    forall id ensures Lookup(loaded, id) == Lookup(expected, id) {
      RecoveryFrom(c, t.sys, t.lastSweep, order, dns, now, id);
    }
    SameLookups(loaded, expected);
  }

  predicate Pristine(b: Backend) {
    b.source == Static && b.manual == NO_OVERRIDE && b.validation == NO_VALIDATION && b.drain == NO_DRAIN
        && b.latency == NO_LATENCY
  }

  /** A configured id holds a pristine record, in memory and in the store; any other is only in the
      store, as it was. */
  ghost predicate Overwritten(r: System, store: map<BackendId, Backend>, configured: bool, id: BackendId) {
    if configured then
      id in r.backends && r.backends[id].id == id && Pristine(r.backends[id]) && id in r.store
          && r.store[id] == r.backends[id]
    else
      id !in r.backends && Lookup(r.store, id) == Lookup(store, id)
  }

  lemma StaticOverwritesOne(c: Config, r: System, store: map<BackendId, Backend>, configured: bool, p: Placed,
                            now: int, id: BackendId)
    requires Overwritten(r, store, configured, id)
    requires PlacedId(p) in r.backends ==> r.backends[PlacedId(p)].id == PlacedId(p)
    ensures Overwritten(StaticRegistered(c, r, p, now), store, configured || PlacedId(p) == id, id)
  {
  }

  lemma {:induction false} StaticsOverwriteTheStore(c: Config, store: map<BackendId, Backend>, placed: seq<Placed>,
                                                    now: int, id: BackendId)
    ensures Overwritten(StaticsRegistered(c, System(map[], store, map[]), placed, now), store,
              id in PlacedIds(placed), id)
  {
    if placed != [] {
      var last := |placed| - 1;
      StaticsOverwriteTheStore(c, store, placed[..last], now, id);
      StaticsOverwriteTheStore(c, store, placed[..last], now, PlacedId(placed[last]));
      PlacedIdsGrow(placed, last);
      var r := StaticsRegistered(c, System(map[], store, map[]), placed[..last], now);
      StaticOverwritesOne(c, r, store, id in PlacedIds(placed[..last]), placed[last], now, id);
    } else {
      assert PlacedIds(placed) == {};
    }
  }

  /** What a process restart makes of a backend: one of the configuration file starts afresh, and
      any other has its record back. */
  predicate RestartedAs(c: Config, before: Backend, after: Option<Backend>, configured: bool, now: int) {
    if configured then after.Some? && Pristine(after.value) else after == Some(Refresh(c, before, now))
  }

  lemma RestartOf(c: Config, sys: System, lastSweep: int, order: seq<BackendId>, now: int, id: BackendId)
    requires RecordsOk(c, sys, lastSweep) && id in sys.backends && Covers(order, Booted(c, sys.store, now).store)
    ensures var after := Apply(c, sys, Restart(order), now);
            RestartedAs(c, sys.backends[id], Lookup(after.backends, id), id in PlacedIds(c.statics), now)
  {
    StaticsOverwriteTheStore(c, sys.store, c.statics, now, id);
    LoadedBackends(c, Booted(c, sys.store, now), order, now, id);
    assert SameRecord(sys.backends[id], sys.store[id]);
    assert Lookup(sys.store, id) == Some(sys.store[id]);
    assert id in Booted(c, sys.store, now).store;
  }

  /** A whole process restart does less.  The static servers are registered before the store is
      read, and registering persists, so what the store held about them is gone: a restart brings
      back the record of exactly those backends that are not in the configuration file. */
  lemma RestartKeepsExactlyTheDynamicRecords(c: Config, start: int, events: seq<(int, Event)>, order: seq<BackendId>,
                                             now: int, id: BackendId)
    requires ConfigOk(c) && Admissible(c, Initial(c, start), events)
    requires forall e :: e in events ==> CanonicalEvent(c, e.1)
    requires var sys := Run(c, Initial(c, start), events).sys;
             id in sys.backends && Covers(order, Booted(c, sys.store, now).store)
    ensures var sys := Run(c, Initial(c, start), events).sys;
            var after := Apply(c, sys, Restart(order), now);
            RestartedAs(c, sys.backends[id], Lookup(after.backends, id), id in PlacedIds(c.statics), now)
  {
    InitialHolds(c, start);
    RunKeeps(c, Initial(c, start), events);
    var t := Run(c, Initial(c, start), events);
    RestartOf(c, t.sys, t.lastSweep, order, now, id);
  }

  /** So an operator's override outlives a restart exactly on a backend that is not configured. */
  lemma OverrideOutlivesRestartIffNotConfigured(c: Config, start: int, events: seq<(int, Event)>, order: seq<BackendId>,
                                                now: int, id: BackendId)
    requires ConfigOk(c) && Admissible(c, Initial(c, start), events)
    requires forall e :: e in events ==> CanonicalEvent(c, e.1)
    requires var sys := Run(c, Initial(c, start), events).sys;
             && id in sys.backends && sys.backends[id].manual.status.Some?
             && Covers(order, Booted(c, sys.store, now).store)
    ensures var sys := Run(c, Initial(c, start), events).sys;
            var after := Lookup(Apply(c, sys, Restart(order), now).backends, id);
            after.Some? && (after.value.manual == sys.backends[id].manual <==> id !in PlacedIds(c.statics))
  {
    RestartKeepsExactlyTheDynamicRecords(c, start, events, order, now, id);
  }

  // ---------------------------------------------------------------- bounded staleness

  /** If the last sweep is at most half a threshold ago, an agent backend that nothing but
      heartbeats can speak for, and that has been silent for one and a half thresholds, is stale;
      and no agent or API backend is still there after the removal delay plus half a threshold. */
  lemma SilenceIsNoticedInTime(c: Config, start: int, events: seq<(int, Event)>, now: int, id: BackendId)
    requires ConfigOk(c) && Admissible(c, Initial(c, start), events)
    requires forall e :: e in events ==> CanonicalEvent(c, e.1)
    requires var t := Run(c, Initial(c, start), events);
             t.clock <= now && 2 * (now - t.lastSweep) <= c.staleThreshold && id in t.sys.backends
    ensures var b := Run(c, Initial(c, start), events).sys.backends[id];
            && (Quiet(b) && 2 * (now - b.lastSeen) > 3 * c.staleThreshold ==> b.status == Stale)
            && (b.source != Static ==> 2 * (now - b.lastSeen) <= 2 * c.removeAfter + c.staleThreshold)
  {
    InitialHolds(c, start);
    RunKeeps(c, Initial(c, start), events);
    var t := Run(c, Initial(c, start), events);
    assert SameRecord(t.sys.backends[id], t.sys.store[id]) && RecordOk(c, id, t.sys.store[id], t.lastSweep);
  }

  /** A sweep never removes a static backend, whatever its heartbeats. */
  lemma StaticBackendsSurviveSweeps(c: Config, s: System, order: seq<BackendId>, now: int, id: BackendId)
    requires Covers(order, s.backends) && s.store.Keys == s.backends.Keys
    requires id in s.backends
    ensures id in Swept(c, s, order, now).backends
        <==> s.backends[id].source == Static || now - s.backends[id].lastSeen <= c.removeAfter
  {
    SweepRemovesExactlyTheExpired(c, s, order, now);
  }

  /** Nothing sends heartbeats for a backend registered through the API, so the first sweep after the
      removal delay removes it, from memory and store. */
  lemma ApiBackendIsSweptAway(c: Config, start: int, id: BackendId, weight: int, region: string, now: int,
                              order: seq<BackendId>)
    requires ConfigOk(c) && Canonical(c, id.address) && id !in PlacedIds(c.statics)
    requires now - start > c.removeAfter
    requires Covers(order, Apply(c, Initial(c, start).sys, ApiRegister(id, weight, region), start).backends)
    ensures var events := [(start, ApiRegister(id, weight, region)), (now, Sweep(order))];
            && Admissible(c, Initial(c, start), events)
            && (var registered := Run(c, Initial(c, start), events[..1]).sys;
                id in registered.backends && registered.backends[id].source == Api && id in registered.store)
            && (var swept := Run(c, Initial(c, start), events).sys;
                id !in swept.backends && id !in swept.store)
  {
    var t := Initial(c, start);
    var register, sweep := (start, ApiRegister(id, weight, region)), (now, Sweep(order));
    InitialHolds(c, start);
    StaticsOverwriteTheStore(c, map[], c.statics, start, id);
    StepKeeps(c, t, start, register.1);
    NewApiBackend(c, t.sys, id, weight, region, start);
    RunOfTwo(c, t, register, sweep);
    hide Booted, Core, Swept, ApiRegistered, Run, Admissible;
    SweepRemovesExactlyTheExpired(c, Apply(c, t.sys, register.1, start), order, now);
  }

  lemma RunOfTwo(c: Config, t: Timed, x: (int, Event), y: (int, Event))
    ensures Run(c, t, [x, y][..1]) == Next(c, t, x.0, x.1)
    ensures Run(c, t, [x, y]) == Next(c, Next(c, t, x.0, x.1), y.0, y.1)
    ensures Admissible(c, t, [x, y]) <==> Enabled(c, t, x.0, x.1) && Enabled(c, Next(c, t, x.0, x.1), y.0, y.1)
  {
    hide Next, Enabled;
    var events := [x, y];
    assert events[..0] == [] && events[..1][..0] == [] && events[..1] == [x];
    assert Run(c, t, events[..0]) == t && Run(c, t, events[..1]) == Next(c, t, x.0, x.1);
    assert events[0] == x && events[1] == y;
  }

  lemma NewApiBackend(c: Config, s: System, id: BackendId, weight: int, region: string, now: int)
    requires id !in s.backends
    ensures var r := ApiRegistered(c, s, id, weight, region, now);
            && id in r.backends && id in r.store
            && r.backends[id].source == Api && r.backends[id].lastSeen == now
  {
  }
}
