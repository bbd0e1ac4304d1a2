/** The Overwatch backend registry, its store and the DNS registry it drives, as one state.

    Each function is one atomic operation of pkg/overwatch/registry.go or gossip.go together with
    the status callback installed by cmd/opengslb/app.go.  Time is an argument. */
module Overwatch {
  import opened Prelude
  import opened LatencyEma
  import opened Dns

  datatype Source = Static | Agent | Api

  datatype Status = Healthy | Unhealthy | Stale | Draining

  datatype BackendId = BackendId(service: string, address: string, port: int)

  datatype Validation = Validation(healthy: Option<bool>, lastCheck: int, error: string)

  datatype ManualOverride = ManualOverride(status: Option<bool>, reason: string, author: string, at: int)

  datatype Drain = Drain(active: bool, reason: string, at: int, cpu: real, mem: real, errorRate: real)

  datatype Backend = Backend(
    id: BackendId, weight: int, agentId: string, region: string, source: Source,
    createdAt: int, updatedAt: int, agentHealthy: bool, lastSeen: int,
    validation: Validation, manual: ManualOverride, drain: Drain, status: Status,
    latency: Latency, checkType: string)

  const NO_VALIDATION := Validation(None, 0, "")
  const NO_OVERRIDE := ManualOverride(None, "", "", 0)
  const NO_DRAIN := Drain(false, "", 0, 0.0, 0.0, 0.0)
  const NO_LATENCY := Latency(0, 0, 0)

  /** `statics` and `base` are what the configuration file gives: the static servers, and the DNS
      registry built from it at startup. */
  datatype Config = Config(
    staleThreshold: int, removeAfter: int, alpha: Alpha, parse: IpParser,
    statics: seq<Placed>, base: Domains)

  datatype System = System(backends: map<BackendId, Backend>, store: map<BackendId, Backend>, domains: Domains)

  // ---------------------------------------------------------------- status hierarchy

  /** computeEffectiveStatus. */
  function Effective(c: Config, b: Backend, now: int): Status {
    if b.manual.status.Some? then (if b.manual.status.value then Healthy else Unhealthy)
    else if b.drain.active then Draining
    else if b.validation.healthy.Some? then (if b.validation.healthy.value then Healthy else Unhealthy)
    else if b.source == Agent && now - b.lastSeen > c.staleThreshold then Stale
    else if b.source == Agent then (if b.agentHealthy then Healthy else Unhealthy)
    else Healthy
  }

  function Refresh(c: Config, b: Backend, now: int): Backend {
    b.(status := Effective(c, b, now))
  }

  /** The status callback; None is the empty status of a backend that does not exist. */
  function Notified(c: Config, d: Domains, b: Backend, before: Option<Status>, after: Option<Status>): Domains {
    if before.None? then ServerRegistered(d, c.parse, b.id.service, b.id.address, b.id.port, b.weight, b.region)
    else if after.None? then ServerDeregistered(d, b.id.service, b.id.address, b.id.port)
    else if before != after then ServerRegistered(d, c.parse, b.id.service, b.id.address, b.id.port, b.weight, b.region)
    else d
  }

  // ---------------------------------------------------------------- operations

  /** What every mutator ends with: recompute the status, persist, call back on a change. */
  function Save(c: Config, s: System, b: Backend, before: Option<Status>, now: int): System {
    var renewed := Refresh(c, b, now);
    System(s.backends[b.id := renewed], s.store[b.id := renewed],
           if before == Some(renewed.status) then s.domains
               else Notified(c, s.domains, renewed, before, Some(renewed.status)))
  }

  function NewBackend(id: BackendId, weight: int, agentId: string, region: string, source: Source, healthy: bool,
                      lastSeen: int, checkType: string, now: int): Backend
  {
    Backend(id, weight, agentId, region, source, now, now, healthy, lastSeen,
            NO_VALIDATION, NO_OVERRIDE, NO_DRAIN, Healthy, NO_LATENCY, checkType)
  }

  function AgentRegistered(c: Config, s: System, agentId: string, region: string, id: BackendId, weight: int,
                           healthy: bool, now: int): System
  {
    var b := if id in s.backends
             then s.backends[id].(agentId := agentId, region := region, weight := weight, agentHealthy := healthy,
                 lastSeen := now, updatedAt := now)
             else NewBackend(id, weight, agentId, region, Agent, healthy, now, "", now);
    Save(c, s, b, Some(b.status), now)
  }

  function PlacedId(p: Placed): BackendId {
    BackendId(p.server.service, p.server.address, p.server.port)
  }

  function StaticRegistered(c: Config, s: System, p: Placed, now: int): System {
    var id := PlacedId(p);
    var checkType := if p.checkType == "" then "http" else p.checkType;
    var b := if id in s.backends
             then s.backends[id].(weight := p.server.weight, region := p.region, checkType := checkType,
                 updatedAt := now)
             else NewBackend(id, p.server.weight, "", p.region, Static, false, 0, checkType, now);
    Save(c, s, b, Some(b.status), now)
  }

  /** RegisterAPI refuses an existing backend and always calls back. */
  function ApiRegistered(c: Config, s: System, id: BackendId, weight: int, region: string, now: int): System {
    if id in s.backends then s
    else Save(c, s, NewBackend(id, weight, "", region, Api, false, now, "", now), None, now)
  }

  function Updated(c: Config, s: System, id: BackendId, weight: int, region: string, now: int): System {
    if id !in s.backends then s
    else
      var b := s.backends[id].(weight := weight, region := region, updatedAt := now);
      Save(c, s, b, Some(b.status), now)
  }

  function Deregistered(c: Config, s: System, id: BackendId): System {
    if id !in s.backends then s
    else
      var b := s.backends[id];
      System(s.backends - {id}, s.store - {id}, Notified(c, s.domains, b, Some(b.status), None))
  }

  function Validated(c: Config, s: System, id: BackendId, healthy: bool, error: string, latency: int,
                     now: int): System
  {
    if id !in s.backends then s
    else
      var b := s.backends[id].(validation := Validation(Some(healthy), now, error));
      var b' := if healthy && latency > 0 then b.(latency := Observe(c.alpha, b.latency, latency)) else b;
      Save(c, s, b', Some(b.status), now)
  }

  function OverrideSet(c: Config, s: System, id: BackendId, healthy: bool, reason: string, author: string,
                       now: int): System
  {
    if id !in s.backends then s
    else
      var b := s.backends[id].(manual := ManualOverride(Some(healthy), reason, author, now));
      Save(c, s, b, Some(b.status), now)
  }

  function OverrideCleared(c: Config, s: System, id: BackendId, now: int): System {
    if id !in s.backends || s.backends[id].manual.status.None? then s
    else
      var b := s.backends[id].(manual := NO_OVERRIDE);
      Save(c, s, b, Some(b.status), now)
  }

  function DrainedOne(c: Config, s: System, id: BackendId, agentId: string, drain: Drain, now: int): System {
    if id !in s.backends || s.backends[id].agentId != agentId then s
    else Save(c, s, s.backends[id].(drain := drain), Some(s.backends[id].status), now)
  }

  /** UpdateDraining walks the map of backends; `order` is the order it meets them in. */
  function Drained(c: Config, s: System, order: seq<BackendId>, agentId: string, drain: Drain, now: int): System {
    if order == [] then s
    else
      var last := |order| - 1;
      DrainedOne(c, Drained(c, s, order[..last], agentId, drain, now), order[last], agentId, drain, now)
  }

  // ---------------------------------------------------------------- the stale sweep

  predicate Expired(c: Config, b: Backend, now: int) {
    b.source != Static && now - b.lastSeen > c.removeAfter
  }

  /** First pass of checkStaleBackends: recompute without persisting. */
  function SweptOne(c: Config, s: System, id: BackendId, now: int): System {
    if id !in s.backends || Expired(c, s.backends[id], now) then s
    else
      var b := s.backends[id];
      var renewed := Refresh(c, b, now);
      System(s.backends[id := renewed], s.store,
             if b.status == renewed.status then s.domains
                 else Notified(c, s.domains, renewed, Some(b.status), Some(renewed.status)))
  }

  function SweptAll(c: Config, s: System, order: seq<BackendId>, now: int): System {
    if order == [] then s
    else
      var last := |order| - 1;
      SweptOne(c, SweptAll(c, s, order[..last], now), order[last], now)
  }

  function ExpiredOf(c: Config, s: System, order: seq<BackendId>, now: int): seq<BackendId> {
    if order == [] then []
    else
      var last := order[|order| - 1];
      var before := ExpiredOf(c, s, order[..|order| - 1], now);
      if last in s.backends && Expired(c, s.backends[last], now) then before + [last] else before
  }

  /** Second pass: remove in the order found. */
  function DeregisteredAll(c: Config, s: System, ids: seq<BackendId>): System {
    if ids == [] then s
    else
      var last := |ids| - 1;
      Deregistered(c, DeregisteredAll(c, s, ids[..last]), ids[last])
  }

  function Swept(c: Config, s: System, order: seq<BackendId>, now: int): System {
    DeregisteredAll(c, SweptAll(c, s, order, now), ExpiredOf(c, s, order, now))
  }

  // ---------------------------------------------------------------- gossip

  datatype Report = Report(service: string, address: string, port: int, weight: int, healthy: bool)

  function ReportId(r: Report): BackendId {
    BackendId(r.service, r.address, r.port)
  }

  function HeartbeatOne(c: Config, s: System, agentId: string, region: string, r: Report, now: int): System {
    var s1 := AgentRegistered(c, s, agentId, region, ReportId(r), r.weight, r.healthy, now);
    s1.(domains := ServerRegistered(s1.domains, c.parse, r.service, r.address, r.port, r.weight, region))
  }

  function HeartbeatAll(c: Config, s: System, agentId: string, region: string, reports: seq<Report>, now: int): System {
    if reports == [] then s
    else
      var last := |reports| - 1;
      HeartbeatOne(c, HeartbeatAll(c, s, agentId, region, reports[..last], now), agentId, region, reports[last], now)
  }

  // ---------------------------------------------------------------- startup

  function StaticsRegistered(c: Config, s: System, placed: seq<Placed>, now: int): System {
    if placed == [] then s
    else
      var last := |placed| - 1;
      StaticRegistered(c, StaticsRegistered(c, s, placed[..last], now), placed[last], now)
  }

  function LoadedOne(c: Config, s: System, id: BackendId, now: int): System {
    if id !in s.store then s
    else
      var b := Refresh(c, s.store[id], now);
      s.(backends := s.backends[id := b], domains := Notified(c, s.domains, b, None, Some(b.status)))
  }

  /** loadFromStore; `order` lists the stored keys. */
  function Loaded(c: Config, s: System, order: seq<BackendId>, now: int): System {
    if order == [] then s
    else
      var last := |order| - 1;
      LoadedOne(c, Loaded(c, s, order[..last], now), order[last], now)
  }

  /** A process start over an existing store.  The static servers are registered, and persisted,
      before a DNS registry exists and before the store is loaded. */
  function Booted(c: Config, store: map<BackendId, Backend>, now: int): System {
    StaticsRegistered(c, System(map[], store, map[]), c.statics, now).(domains := c.base)
  }

  // ---------------------------------------------------------------- runs

  datatype Event =
    | Heartbeat(agentId: string, region: string, reports: seq<Report>, drain: Option<Drain>, order: seq<BackendId>)
    | RegisterMessage(agentId: string, region: string, report: Report)
    | DeregisterMessage(id: BackendId)
    | ApiRegister(id: BackendId, weight: int, region: string)
    | Update(id: BackendId, weight: int, region: string)
    | StaticRegister(placed: Placed)
    | Validate(id: BackendId, healthy: bool, error: string, latency: int)
    | SetOverride(id: BackendId, healthy: bool, reason: string, author: string)
    | ClearOverride(id: BackendId)
    | Sweep(order: seq<BackendId>)
    | Restart(order: seq<BackendId>)

  function Apply(c: Config, s: System, e: Event, now: int): System {
    match e
    case Heartbeat(agentId, region, reports, drain, order) =>
      var s1 := HeartbeatAll(c, s, agentId, region, reports, now);
      if drain.None? then s1 else Drained(c, s1, order, agentId, drain.value, now)
    case RegisterMessage(agentId, region, r) => AgentRegistered(c, s, agentId, region, ReportId(r), r.weight, true, now)
    case DeregisterMessage(id) => Deregistered(c, s, id)
    case ApiRegister(id, weight, region) => ApiRegistered(c, s, id, weight, region, now)
    case Update(id, weight, region) => Updated(c, s, id, weight, region, now)
    case StaticRegister(placed) => StaticRegistered(c, s, placed, now)
    case Validate(id, healthy, error, latency) => Validated(c, s, id, healthy, error, latency, now)
    case SetOverride(id, healthy, reason, author) => OverrideSet(c, s, id, healthy, reason, author, now)
    case ClearOverride(id) => OverrideCleared(c, s, id, now)
    case Sweep(order) => Swept(c, s, order, now)
    case Restart(order) => Loaded(c, Booted(c, s.store, now), order, now)
  }

  /** A walk over a Go map meets exactly its keys. */
  ghost predicate Covers(order: seq<BackendId>, m: map<BackendId, Backend>) {
    forall id :: id in order <==> id in m
  }

  ghost predicate WalksCover(c: Config, s: System, e: Event, now: int) {
    match e
    case Heartbeat(agentId, region, reports, drain, order) =>
        Covers(order, HeartbeatAll(c, s, agentId, region, reports, now).backends)
    case Sweep(order) => Covers(order, s.backends)
    case Restart(order) => Covers(order, Booted(c, s.store, now).store)
    case _ => true
  }

  /** The system with the wall clock and the time of the last stale sweep. */
  datatype Timed = Timed(sys: System, clock: int, lastSweep: int)

  function Next(c: Config, t: Timed, at: int, e: Event): Timed {
    Timed(Apply(c, t.sys, e, at), at, if e.Sweep? then at else t.lastSweep)
  }

  /** Clocks do not run backwards. */
  ghost predicate Enabled(c: Config, t: Timed, at: int, e: Event) {
    t.clock <= at && WalksCover(c, t.sys, e, at)
  }

  function Run(c: Config, t: Timed, events: seq<(int, Event)>): Timed {
    if events == [] then t
    else
      var last := |events| - 1;
      Next(c, Run(c, t, events[..last]), events[last].0, events[last].1)
  }

  ghost predicate Admissible(c: Config, t: Timed, events: seq<(int, Event)>) {
    forall i :: 0 <= i < |events| ==> Enabled(c, Run(c, t, events[..i]), events[i].0, events[i].1)
  }

  /** A first start with an empty store. */
  function Initial(c: Config, now: int): Timed {
    Timed(Booted(c, map[], now), now, now)
  }
}
