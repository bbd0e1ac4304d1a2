/** The Overwatch objects: the backend registry with its store and callback, and the gossip
    handler.  Every method is proved to compute the function of the same operation in Overwatch. */
module BackendRegistry {
  import opened Prelude
  import opened LatencyEma
  import opened Dns
  import opened Overwatch

  datatype RegistryError = AlreadyExists | NotFound

  lemma StaticsSnoc(c: Config, s: System, done: seq<Placed>, p: Placed, now: int)
    ensures StaticsRegistered(c, s, done + [p], now) == StaticRegistered(c, StaticsRegistered(c, s, done, now), p, now)
  {
    assert (done + [p])[..|done|] == done;
  }

  lemma {:induction false} StaticsAppend(c: Config, s: System, done: seq<Placed>, more: seq<Placed>, now: int)
    ensures StaticsRegistered(c, s, done + more, now)
              == StaticsRegistered(c, StaticsRegistered(c, s, done, now), more, now)
  {
    hide StaticRegistered;
    if more == [] {
      assert done + more == done;
    } else {
      var n := |more| - 1;
      StaticsAppend(c, s, done, more[..n], now);
      StaticsSnoc(c, s, done + more[..n], more[n], now);
      assert done + more == (done + more[..n]) + [more[n]];
    }
  }

  class Backends {
    const config: Config
    var backends: map<BackendId, Backend>
    var store: map<BackendId, Backend>
    var dns: Registry

    constructor (config: Config, store: map<BackendId, Backend>, dns: Registry)
      requires dns.parse == config.parse
      ensures Wired() && this.config == config && this.dns == dns && backends == map[] && this.store == store
    {
      this.config := config;
      this.store := store;
      this.dns := dns;
      backends := map[];
    }

    /** The callback reaches a DNS registry that parses addresses the same way. */
    ghost predicate Wired()
      reads this
    {
      dns.parse == config.parse
    }

    function State(): System
      reads this, dns
    {
      System(backends, store, dns.domains)
    }

    method OnStatusChange(b: Backend, before: Option<Status>, after: Option<Status>)
      requires Wired()
      modifies dns
      ensures dns.domains == Notified(config, old(dns.domains), b, before, after)
    {
      if before.None? {
        var _ := dns.RegisterServer(b.id.service, b.id.address, b.id.port, b.weight, b.region);
      } else if after.None? {
        var _ := dns.DeregisterServer(b.id.service, b.id.address, b.id.port);
      } else if before != after {
        var _ := dns.RegisterServer(b.id.service, b.id.address, b.id.port, b.weight, b.region);
      }
    }

    /** computeEffectiveStatus. */
    method ComputeEffectiveStatus(b: Backend, now: int) returns (status: Status)
      ensures status == Effective(config, b, now)
    {
      var isStale := now - b.lastSeen > config.staleThreshold;
      if b.manual.status.Some? {
        return if b.manual.status.value then Healthy else Unhealthy;
      }
      if b.drain.active {
        return Draining;
      }
      if b.validation.healthy.Some? {
        return if b.validation.healthy.value then Healthy else Unhealthy;
      }
      if b.source == Agent && isStale {
        return Stale;
      }
      if b.source == Agent {
        return if b.agentHealthy then Healthy else Unhealthy;
      }
      return Healthy;
    }

    /** The common end of the mutators. */
    method Commit(b: Backend, before: Option<Status>, now: int)
      requires Wired()
      modifies this`backends, this`store, dns
      ensures State() == Save(config, old(State()), b, before, now)
    {
      var status := ComputeEffectiveStatus(b, now);
      var renewed := b.(status := status);
      backends := backends[b.id := renewed];
      store := store[b.id := renewed];
      if before != Some(status) {
        OnStatusChange(renewed, before, Some(status));
      }
    }

    method Register(agentId: string, region: string, id: BackendId, weight: int, healthy: bool, now: int)
      requires Wired()
      modifies this`backends, this`store, dns
      ensures State() == AgentRegistered(config, old(State()), agentId, region, id, weight, healthy, now)
    {
      var b;
      if id !in backends {
        b := NewBackend(id, weight, agentId, region, Agent, healthy, now, "", now);
      } else {
        b := backends[id].(agentId := agentId, region := region, weight := weight, agentHealthy := healthy,
            lastSeen := now, updatedAt := now);
      }
      Commit(b, Some(b.status), now);
    }

    method RegisterStatic(p: Placed, now: int)
      requires Wired()
      modifies this`backends, this`store, dns
      ensures State() == StaticRegistered(config, old(State()), p, now)
    {
      var id := PlacedId(p);
      var checkType := p.checkType;
      if checkType == "" {
        checkType := "http";
      }
      var b;
      if id !in backends {
        b := NewBackend(id, p.server.weight, "", p.region, Static, false, 0, checkType, now);
      } else {
        b := backends[id].(weight := p.server.weight, region := p.region, checkType := checkType, updatedAt := now);
      }
      Commit(b, Some(b.status), now);
    }

    /** registerStaticServers. */
    method RegisterStaticServers(regions: seq<Region>, now: int)
      requires Wired()
      modifies this`backends, this`store, dns
      ensures State() == StaticsRegistered(config, old(State()), PlacedServers(regions), now)
    {
      var i := 0;
      while i < |regions|
        invariant i <= |regions| && Wired()
        invariant State() == StaticsRegistered(config, old(State()), PlacedServers(regions[..i]), now)
      {
        assert regions[..i + 1][..i] == regions[..i];
        StaticsAppend(config, old(State()), PlacedServers(regions[..i]), PlacedIn(regions[i], |regions[i].servers|),
            now);
        RegisterRegion(regions[i], now);
        i := i + 1;
      }
      assert regions[..i] == regions;
    }

    /** Its inner loop, over the servers of one region. */
    method RegisterRegion(region: Region, now: int)
      requires Wired()
      modifies this`backends, this`store, dns
      ensures State() == StaticsRegistered(config, old(State()), PlacedIn(region, |region.servers|), now)
    {
      hide StaticRegistered;
      var j := 0;
      while j < |region.servers|
        invariant j <= |region.servers| && Wired()
        invariant State() == StaticsRegistered(config, old(State()), PlacedIn(region, j), now)
      {
        var p := Placed(region.name, region.checkType, region.servers[j]);
        StaticsSnoc(config, old(State()), PlacedIn(region, j), p, now);
        RegisterStatic(p, now);
        j := j + 1;
      }
    }

    method RegisterApi(id: BackendId, weight: int, region: string, now: int) returns (r: Result<(), RegistryError>)
      requires Wired()
      modifies this`backends, this`store, dns
      ensures State() == ApiRegistered(config, old(State()), id, weight, region, now)
      ensures r.Ok? <==> id !in old(backends)
    {
      if id in backends {
        return Err(AlreadyExists);
      }
      Commit(NewBackend(id, weight, "", region, Api, false, now, "", now), None, now);
      return Ok(());
    }

    method Update(id: BackendId, weight: int, region: string, now: int) returns (r: Result<(), RegistryError>)
      requires Wired()
      modifies this`backends, this`store, dns
      ensures State() == Updated(config, old(State()), id, weight, region, now)
      ensures r.Ok? <==> id in old(backends)
    {
      if id !in backends {
        return Err(NotFound);
      }
      var b := backends[id].(weight := weight, region := region, updatedAt := now);
      Commit(b, Some(b.status), now);
      return Ok(());
    }

    method Deregister(id: BackendId) returns (r: Result<(), RegistryError>)
      requires Wired()
      modifies this`backends, this`store, dns
      ensures State() == Deregistered(config, old(State()), id)
      ensures r.Ok? <==> id in old(backends)
    {
      if id !in backends {
        return Err(NotFound);
      }
      var b := backends[id];
      backends := backends - {id};
      store := store - {id};
      OnStatusChange(b, Some(b.status), None);
      return Ok(());
    }

    method UpdateValidation(id: BackendId, healthy: bool, error: string, latency: int, now: int)
      returns (r: Result<(), RegistryError>)
      requires Wired()
      modifies this`backends, this`store, dns
      ensures State() == Validated(config, old(State()), id, healthy, error, latency, now)
      ensures r.Ok? <==> id in old(backends)
    {
      if id !in backends {
        return Err(NotFound);
      }
      var b := backends[id].(validation := Validation(Some(healthy), now, error));
      var before := b.status;
      if healthy && latency > 0 {
        b := b.(latency := Observe(config.alpha, b.latency, latency));
      }
      Commit(b, Some(before), now);
      return Ok(());
    }

    method SetOverride(id: BackendId, healthy: bool, reason: string, author: string, now: int)
      returns (r: Result<(), RegistryError>)
      requires Wired()
      modifies this`backends, this`store, dns
      ensures State() == OverrideSet(config, old(State()), id, healthy, reason, author, now)
      ensures r.Ok? <==> id in old(backends)
    {
      if id !in backends {
        return Err(NotFound);
      }
      var b := backends[id].(manual := ManualOverride(Some(healthy), reason, author, now));
      Commit(b, Some(b.status), now);
      return Ok(());
    }

    method ClearOverride(id: BackendId, now: int) returns (r: Result<(), RegistryError>)
      requires Wired()
      modifies this`backends, this`store, dns
      ensures State() == OverrideCleared(config, old(State()), id, now)
      ensures r.Ok? <==> id in old(backends)
    {
      if id !in backends {
        return Err(NotFound);
      }
      if backends[id].manual.status.None? {
        return Ok(());
      }
      var b := backends[id].(manual := NO_OVERRIDE);
      Commit(b, Some(b.status), now);
      return Ok(());
    }

    /** Walks the backends in an order of the map's choosing, which is returned. */
    method UpdateDraining(agentId: string, drain: Drain, now: int) returns (ghost order: seq<BackendId>)
      requires Wired()
      modifies this`backends, this`store, dns
      ensures Covers(order, old(backends))
      ensures State() == Drained(config, old(State()), order, agentId, drain, now)
    {
      order := [];
      var todo := backends.Keys;
      while todo != {}
        invariant Wired() && (forall id :: id in order || id in todo <==> id in old(backends))
        invariant State() == Drained(config, old(State()), order, agentId, drain, now)
        decreases |todo|
      {
        var id :| id in todo;
        todo := todo - {id};
        assert (order + [id])[..|order|] == order;
        order := order + [id];
        if id in backends && backends[id].agentId == agentId {
          Commit(backends[id].(drain := drain), Some(backends[id].status), now);
        }
      }
    }

    /** The first pass of the sweep over one backend. */
    method SweepOne(id: BackendId, now: int) returns (expired: bool)
      requires Wired()
      modifies this`backends, dns
      ensures State() == SweptOne(config, old(State()), id, now)
      ensures expired <==> id in old(backends) && Expired(config, old(backends)[id], now)
    {
      if id !in backends {
        return false;
      }
      var b := backends[id];
      if b.source != Static && now - b.lastSeen > config.removeAfter {
        return true;
      }
      var status := ComputeEffectiveStatus(b, now);
      var renewed := b.(status := status);
      backends := backends[id := renewed];
      if b.status != status {
        OnStatusChange(renewed, Some(b.status), Some(status));
      }
      return false;
    }

    method CheckStaleBackends(now: int) returns (ghost order: seq<BackendId>)
      requires Wired()
      modifies this`backends, this`store, dns
      ensures Covers(order, old(backends))
      ensures State() == Swept(config, old(State()), order, now)
    {
      order := [];
      var toRemove: seq<BackendId> := [];
      var todo := backends.Keys;
      while todo != {}
        invariant Wired() && store == old(store) && (forall id :: id in order || id in todo <==> id in old(backends))
        invariant order == [] || order[|order| - 1] !in todo
        invariant forall id :: id in todo ==> id in backends && backends[id] == old(backends)[id]
        invariant State() == SweptAll(config, old(State()), order, now)
        invariant toRemove == ExpiredOf(config, old(State()), order, now)
        decreases |todo|
      {
        var id :| id in todo;
        todo := todo - {id};
        assert (order + [id])[..|order|] == order;
        order := order + [id];
        var expired := SweepOne(id, now);
        if expired {
          toRemove := toRemove + [id];
        }
      }
      RemoveAll(toRemove);
    }

    /** The second pass of the sweep. */
    method RemoveAll(toRemove: seq<BackendId>)
      requires Wired()
      modifies this`backends, this`store, dns
      ensures State() == DeregisteredAll(config, old(State()), toRemove)
    {
      var i := 0;
      while i < |toRemove|
        invariant Wired() && i <= |toRemove| && State() == DeregisteredAll(config, old(State()), toRemove[..i])
      {
        assert toRemove[..i + 1][..i] == toRemove[..i];
        var _ := Deregister(toRemove[i]);
        i := i + 1;
      }
      assert toRemove[..i] == toRemove;
    }

    /** loadFromStore; the store lists its keys in some order, which is returned. */
    method LoadFromStore(now: int) returns (ghost order: seq<BackendId>)
      requires Wired()
      modifies this`backends, dns
      ensures Covers(order, store)
      ensures State() == Loaded(config, old(State()), order, now)
    {
      order := [];
      var todo := store.Keys;
      while todo != {}
        invariant Wired() && todo <= store.Keys && (forall id :: id in order || id in todo <==> id in store)
        invariant State() == Loaded(config, old(State()), order, now)
        decreases |todo|
      {
        var id :| id in todo;
        todo := todo - {id};
        assert (order + [id])[..|order|] == order;
        order := order + [id];
        var status := ComputeEffectiveStatus(store[id], now);
        var b := store[id].(status := status);
        backends := backends[id := b];
        OnStatusChange(b, None, Some(status));
      }
    }
  }

  /** Handler of gossip messages; it writes both registries. */
  class GossipHandler {
    const registry: Backends
    const dns: Registry

    constructor (registry: Backends)
      ensures this.registry == registry && this.dns == registry.dns
    {
      this.registry := registry;
      this.dns := registry.dns;
    }

    ghost predicate Wired()
      reads this, registry
    {
      registry.Wired() && registry.dns == dns
    }

    method HandleHeartbeat(agentId: string, region: string, reports: seq<Report>, drain: Option<Drain>, now: int)
      returns (ghost order: seq<BackendId>)
      requires Wired()
      modifies registry`backends, registry`store, dns
      ensures drain.Some? ==> Covers(order, HeartbeatAll(registry.config, old(registry.State()), agentId, region,
                reports, now).backends)
      ensures registry.State() == Apply(registry.config, old(registry.State()),
                Heartbeat(agentId, region, reports, drain, order), now)
    {
      var i := 0;
      while i < |reports|
        invariant Wired() && i <= |reports|
        invariant registry.State() == HeartbeatAll(registry.config, old(registry.State()), agentId, region,
                    reports[..i], now)
      {
        var r := reports[i];
        assert reports[..i + 1][..i] == reports[..i];
        registry.Register(agentId, region, ReportId(r), r.weight, r.healthy, now);
        var _ := dns.RegisterServer(r.service, r.address, r.port, r.weight, region);
        i := i + 1;
      }
      assert reports[..i] == reports;
      order := [];
      if drain.Some? {
        order := registry.UpdateDraining(agentId, drain.value, now);
      }
    }

    method HandleRegister(agentId: string, region: string, r: Report, now: int)
      requires Wired()
      modifies registry`backends, registry`store, dns
      ensures registry.State() == Apply(registry.config, old(registry.State()), RegisterMessage(agentId, region, r),
                now)
    {
      registry.Register(agentId, region, ReportId(r), r.weight, true, now);
    }

    method HandleDeregister(id: BackendId)
      requires Wired()
      modifies registry`backends, registry`store, dns
      ensures registry.State() == Deregistered(registry.config, old(registry.State()), id)
    {
      var _ := registry.Deregister(id);
    }
  }

  /** Startup in the order of initializeOverwatchMode: static servers first, then the DNS registry
      is built, then Start loads the store. */
  method Boot(config: Config, regions: seq<Region>, domains: seq<Domain>, defaultTtl: int, factory: RouterFactory,
              store: map<BackendId, Backend>, now: int)
    returns (r: Result<Backends, Error>, ghost order: seq<BackendId>)
    requires config.statics == PlacedServers(regions)
    requires config.base == ConfiguredDomains(config.statics, config.parse, factory, defaultTtl, domains)
    ensures r.Ok? <==> AllParse(PlacedServers(regions), config.parse) && forall d :: d in domains ==>
              factory(d.algorithm).Some?
    ensures r.Ok? ==> r.value.Wired() && Covers(order, Booted(config, store, now).store)
                      && r.value.State() == Loaded(config, Booted(config, store, now), order, now)
  {
    order := [];
    var unset := new Registry(config.parse);
    var registry := new Backends(config, store, unset);
    registry.RegisterStaticServers(regions, now);
    var built := BuildRegistry(regions, domains, defaultTtl, config.parse, factory);
    if built.Err? {
      return Err(built.error), order;
    }
    registry.dns := built.value;
    order := registry.LoadFromStore(now);
    return Ok(registry), order;
  }
}
