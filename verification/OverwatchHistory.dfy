/** One backend alone.  What each event means for a single backend is said here without the registry,
    its store or its walks; the whole system is proved to be no more than all its backends alone. */
module OverwatchHistory {
  import opened Prelude
  import opened Dns
  import opened Overwatch
  import opened OverwatchRuns
  import opened OverwatchListing
  import OverwatchClaims
  import LatencyEma

  // ---------------------------------------------------------------- one backend alone

  function OnFile(s: System, id: BackendId): Option<Backend> {
    OverwatchClaims.Lookup(s.backends, id)
  }

  /** The record with the status it deserves at the moment. */
  function Judged(c: Config, b: Backend, now: int): Backend {
    b.(status :=
         if b.manual.status.Some? then Verdict(b.manual.status.value)
         else if b.drain.active then Draining
         else if b.validation.healthy.Some? then Verdict(b.validation.healthy.value)
         else if b.source != Agent then Healthy
         else if b.lastSeen + c.staleThreshold < now then Stale
         else Verdict(b.agentHealthy))
  }

  function NewFrom(id: BackendId, source: Source, weight: int, region: string, now: int): Backend {
    Backend(id, weight, "", region, source, now, now, false, 0, Validation(None, 0, ""),
        ManualOverride(None, "", "", 0),
            Drain(false, "", 0, 0.0, 0.0, 0.0), Healthy, LatencyEma.Latency(0, 0, 0), "")
  }

  /** An agent speaks of the backend. */
  function Heard(c: Config, before: Option<Backend>, id: BackendId, agentId: string, region: string, weight: int,
                 healthy: bool, now: int): Backend
  {
    var b := if before.Some? then before.value else NewFrom(id, Agent, weight, region, now);
    Judged(c, b.(agentId := agentId, region := region, weight := weight, agentHealthy := healthy, lastSeen := now,
        updatedAt := now), now)
  }

  function LastAbout(reports: seq<Report>, id: BackendId): Option<Report> {
    if reports == [] then None
    else if ReportId(reports[|reports| - 1]) == id then Some(reports[|reports| - 1])
    else LastAbout(reports[..|reports| - 1], id)
  }

  function HeardIn(c: Config, before: Option<Backend>, id: BackendId, agentId: string, region: string,
                   reports: seq<Report>, now: int): Option<Backend>
  {
    match LastAbout(reports, id)
    case None => before
    case Some(r) => Some(Heard(c, before, id, agentId, region, r.weight, r.healthy, now))
  }

  function LastPlaced(placed: seq<Placed>, id: BackendId): Option<Placed> {
    if placed == [] then None
    else if PlacedId(placed[|placed| - 1]) == id then Some(placed[|placed| - 1])
    else LastPlaced(placed[..|placed| - 1], id)
  }

  /** The configuration file speaks of the backend. */
  function Configured(c: Config, before: Option<Backend>, id: BackendId, p: Placed, now: int): Backend {
    var b := if before.Some? then before.value else NewFrom(id, Static, p.server.weight, p.region, now);
    Judged(c, b.(weight := p.server.weight, region := p.region, updatedAt := now,
                 checkType := if p.checkType == "" then "http" else p.checkType), now)
  }

  function ConfiguredIn(c: Config, before: Option<Backend>, id: BackendId, placed: seq<Placed>,
                        now: int): Option<Backend>
  {
    match LastPlaced(placed, id)
    case None => before
    case Some(p) => Some(Configured(c, before, id, p, now))
  }

  /** What an operator or a validation writes into the record. */
  function Edited(c: Config, b: Backend, e: Event, at: int): Backend
    requires e.Update? || e.Validate? || e.SetOverride? || e.ClearOverride?
  {
    match e
    case Update(_, weight, region) => b.(weight := weight, region := region, updatedAt := at)
    case Validate(_, healthy, error, latency) =>
      var checked := b.(validation := Validation(Some(healthy), at, error));
      if healthy && 0 < latency then checked.(latency := LatencyEma.Observe(c.alpha, b.latency, latency)) else checked
    case SetOverride(_, healthy, reason, author) => b.(manual := ManualOverride(Some(healthy), reason, author, at))
    case ClearOverride(_) => b.(manual := ManualOverride(None, "", "", 0))
  }

  /** What an event leaves of a known backend ... */
  function Kept(c: Config, b: Backend, e: Event, at: int): Option<Backend> {
    match e
    case DeregisterMessage(id) => if id == b.id then None else Some(b)
    case Update(id, _, _) => if id == b.id then Some(Judged(c, Edited(c, b, e, at), at)) else Some(b)
    case Validate(id, _, _, _) => if id == b.id then Some(Judged(c, Edited(c, b, e, at), at)) else Some(b)
    case SetOverride(id, _, _, _) => if id == b.id then Some(Judged(c, Edited(c, b, e, at), at)) else Some(b)
    case ClearOverride(id) =>
      if id == b.id && b.manual.status.Some? then Some(Judged(c, Edited(c, b, e, at), at)) else Some(b)
    case Sweep(_) =>
      if b.source != Static && b.lastSeen + c.removeAfter < at then None else Some(Judged(c, b, at))
    case Restart(_) => Some(Judged(c, b, at))
    case _ => Some(b)
  }

  /** ... and of any backend, known or not. */
  function Left(c: Config, before: Option<Backend>, id: BackendId, e: Event, at: int): Option<Backend> {
    match e
    case Heartbeat(agentId, region, reports, drain, _) =>
      var heard := HeardIn(c, before, id, agentId, region, reports, at);
      if heard.Some? && heard.value.agentId == agentId && drain.Some?
      then Some(Judged(c, heard.value.(drain := drain.value), at)) else heard
    case RegisterMessage(agentId, region, r) =>
      if ReportId(r) == id then Some(Heard(c, before, id, agentId, region, r.weight, true, at)) else before
    case ApiRegister(k, weight, region) =>
      if k == id && before.None?
      then Some(Judged(c, NewFrom(id, Api, weight, region, at).(lastSeen := at), at)) else before
    case StaticRegister(p) => if PlacedId(p) == id then Some(Configured(c, before, id, p, at)) else before
    case Restart(_) =>
      if LastPlaced(c.statics, id).Some? then ConfiguredIn(c, None, id, c.statics, at)
      else if before.Some? then Kept(c, before.value, e, at) else None
    case _ => if before.Some? then Kept(c, before.value, e, at) else None
  }

  /** The backend after a whole run, on its own. */
  function History(c: Config, start: int, events: seq<(int, Event)>, id: BackendId): Option<Backend> {
    if events == [] then ConfiguredIn(c, None, id, c.statics, start)
    else
      var n := |events| - 1;
      Left(c, History(c, start, events[..n], id), id, events[n].1, events[n].0)
  }

  // ---------------------------------------------------------------- the system is its backends alone

  lemma SaveLeaves(c: Config, s: System, b: Backend, before: Option<Status>, now: int, id: BackendId)
    ensures OnFile(Save(c, s, b, before, now), id) == if id == b.id then Some(Judged(c, b, now)) else OnFile(s, id)
  {
  }

  lemma AgentRegisteredLeaves(c: Config, s: System, agentId: string, region: string, k: BackendId, weight: int,
                              healthy: bool, now: int, id: BackendId)
    requires Filed(s)
    ensures var r := AgentRegistered(c, s, agentId, region, k, weight, healthy, now);
            && Filed(r)
            && OnFile(r, id) == if k == id then Some(Heard(c, OnFile(s, id), id, agentId, region, weight, healthy, now))
                                else OnFile(s, id)
  {
  }

  lemma {:induction false} HeartbeatAllLeaves(c: Config, s: System, agentId: string, region: string,
                                              reports: seq<Report>, now: int, id: BackendId)
    requires Filed(s)
    ensures var h := HeartbeatAll(c, s, agentId, region, reports, now);
            Filed(h) && OnFile(h, id) == HeardIn(c, OnFile(s, id), id, agentId, region, reports, now)
  {
    if reports != [] {
      var n := |reports| - 1;
      var r, h := reports[n], HeartbeatAll(c, s, agentId, region, reports[..n], now);
      HeartbeatAllLeaves(c, s, agentId, region, reports[..n], now, id);
      AgentRegisteredLeaves(c, h, agentId, region, ReportId(r), r.weight, r.healthy, now, id);
      HeardAgain(c, OnFile(s, id), id, agentId, region, reports[..n], now, r.weight, r.healthy);
      hide Heard, AgentRegistered;
    }
  }

  /** Of several reports in one message only the last one counts. */
  lemma HeardAgain(c: Config, before: Option<Backend>, id: BackendId, agentId: string, region: string,
                   reports: seq<Report>, now: int, weight: int, healthy: bool)
    ensures Heard(c, HeardIn(c, before, id, agentId, region, reports, now), id, agentId, region, weight, healthy, now)
         == Heard(c, before, id, agentId, region, weight, healthy, now)
  {
  }

  lemma HeartbeatLeaves(c: Config, s: System, e: Event, at: int, id: BackendId)
    requires Filed(s) && e.Heartbeat? && WalksCover(c, s, e, at)
    ensures OnFile(Apply(c, s, e, at), id) == Left(c, OnFile(s, id), id, e, at)
  {
    HeartbeatAllLeaves(c, s, e.agentId, e.region, e.reports, at, id);
    if e.drain.Some? {
      var h := HeartbeatAll(c, s, e.agentId, e.region, e.reports, at);
      DrainedRecord(c, h, e.order, e.agentId, e.drain.value, at, id);
    }
  }

  lemma StaticRegisteredLeaves(c: Config, s: System, p: Placed, now: int, id: BackendId)
    requires Filed(s)
    ensures var r := StaticRegistered(c, s, p, now);
            && Filed(r)
            && (PlacedId(p) == id ==> OnFile(r, id) == Some(Configured(c, OnFile(s, id), id, p, now)))
            && (PlacedId(p) == id ==> OverwatchClaims.Lookup(r.store, id) == OnFile(r, id))
            && (PlacedId(p) != id ==> OnFile(r, id) == OnFile(s, id))
            && (PlacedId(p) != id ==> OverwatchClaims.Lookup(r.store, id) == OverwatchClaims.Lookup(s.store, id))
  {
  }

  lemma {:induction false} StaticsRegisteredLeave(c: Config, store: map<BackendId, Backend>, placed: seq<Placed>,
                                                  now: int, id: BackendId)
    ensures var r := StaticsRegistered(c, System(map[], store, map[]), placed, now);
            && Filed(r)
            && OnFile(r, id) == ConfiguredIn(c, None, id, placed, now)
            && OverwatchClaims.Lookup(r.store, id)
               == if LastPlaced(placed, id).Some? then OnFile(r, id) else OverwatchClaims.Lookup(store, id)
  {
    if placed != [] {
      var n := |placed| - 1;
      var s := StaticsRegistered(c, System(map[], store, map[]), placed[..n], now);
      StaticsRegisteredLeave(c, store, placed[..n], now, id);
      StaticRegisteredLeaves(c, s, placed[n], now, id);
      hide StaticRegistered;
    }
  }

  lemma {:induction false} PlacedIsLast(placed: seq<Placed>, id: BackendId)
    ensures LastPlaced(placed, id).Some? <==> id in PlacedIds(placed)
  {
    if placed != [] {
      PlacedIdsGrow(placed, |placed| - 1);
      PlacedIsLast(placed[..|placed| - 1], id);
    }
  }

  lemma LoadedLeaves(c: Config, b: System, order: seq<BackendId>, at: int, id: BackendId)
    requires Covers(order, b.store) && (id in b.backends ==> id in b.store)
    ensures var stored := OverwatchClaims.Lookup(b.store, id);
            OnFile(Loaded(c, b, order, at), id) == if stored.Some? then Some(Judged(c, stored.value, at)) else None
  {
    OverwatchClaims.LoadedBackends(c, b, order, at, id);
  }

  lemma BootedLeaves(c: Config, store: map<BackendId, Backend>, at: int, id: BackendId)
    ensures var b := Booted(c, store, at);
            && (id in b.backends ==> id in b.store)
            && OverwatchClaims.Lookup(b.store, id)
               == if LastPlaced(c.statics, id).Some? then ConfiguredIn(c, None, id, c.statics, at)
                  else OverwatchClaims.Lookup(store, id)
  {
    StaticsRegisteredLeave(c, store, c.statics, at, id);
    hide StaticsRegistered, Configured;
  }

  lemma RestartLeaves(c: Config, s: System, order: seq<BackendId>, at: int, lastSweep: int, id: BackendId)
    requires RecordsOk(c, s, lastSweep) && s.store.Keys == s.backends.Keys && WalksCover(c, s, Restart(order), at)
    ensures OnFile(Apply(c, s, Restart(order), at), id) == Left(c, OnFile(s, id), id, Restart(order), at)
  {
    assert id in s.backends ==> SameRecord(s.backends[id], s.store[id]);
    assert id in s.store.Keys <==> id in s.backends.Keys;
    BootedLeaves(c, s.store, at, id);
    LoadedLeaves(c, Booted(c, s.store, at), order, at, id);
    hide Booted, Loaded, RecordsOk;
  }

  lemma SweepLeaves(c: Config, s: System, order: seq<BackendId>, at: int, id: BackendId)
    requires Filed(s) && s.store.Keys == s.backends.Keys && Covers(order, s.backends)
    ensures OnFile(Apply(c, s, Sweep(order), at), id) == Left(c, OnFile(s, id), id, Sweep(order), at)
  {
    SweepRemovesExactlyTheExpired(c, s, order, at);
  }

  /** What an event leaves of each backend depends on that backend alone. */
  lemma StepIsLocal(c: Config, t: Timed, at: int, e: Event, id: BackendId)
    requires Inv(c, t) && Enabled(c, t, at, e)
    ensures OnFile(Next(c, t, at, e).sys, id) == Left(c, OnFile(t.sys, id), id, e, at)
  {
    var s := t.sys;
    FiledInCore(c, s, t.lastSweep);
    match e
    case Heartbeat(_, _, _, _, _) => HeartbeatLeaves(c, s, e, at, id);
    case RegisterMessage(agentId, region, r) =>
      AgentRegisteredLeaves(c, s, agentId, region, ReportId(r), r.weight, true, at, id);
    case StaticRegister(p) => StaticRegisteredLeaves(c, s, p, at, id);
    case Sweep(order) => SweepLeaves(c, s, order, at, id);
    case Restart(order) => RestartLeaves(c, s, order, at, t.lastSweep, id);
    case _ => EditLeaves(c, s, e, at, id);
  }

  lemma EditLeaves(c: Config, s: System, e: Event, at: int, id: BackendId)
    requires Filed(s)
    requires e.DeregisterMessage? || e.ApiRegister? || e.Update? || e.Validate? || e.SetOverride? || e.ClearOverride?
    ensures OnFile(Apply(c, s, e, at), id) == Left(c, OnFile(s, id), id, e, at)
  {
    if e.ApiRegister? {
      SaveLeaves(c, s, NewFrom(e.id, Api, e.weight, e.region, at).(lastSeen := at), None, at, id);
    } else if !e.DeregisterMessage? && e.id in s.backends {
      var b := s.backends[e.id];
      SaveLeaves(c, s, Edited(c, b, e, at), Some(b.status), at, id);
    }
    hide Judged, Save, Effective;
  }

  /** Over every run the record of each backend is that of the backend alone. */
  lemma {:induction false} RunIsLocal(c: Config, start: int, events: seq<(int, Event)>, id: BackendId)
    requires ConfigOk(c) && Admissible(c, Initial(c, start), events)
    requires forall v :: v in events ==> CanonicalEvent(c, v.1)
    ensures OnFile(Run(c, Initial(c, start), events).sys, id) == History(c, start, events, id)
  {
    if events == [] {
      StaticsRegisteredLeave(c, map[], c.statics, start, id);
    } else {
      var n := |events| - 1;
      RunSplits(c, start, events);
      RunIsLocal(c, start, events[..n], id);
      StepIsLocal(c, Run(c, Initial(c, start), events[..n]), events[n].0, events[n].1, id);
      hide Initial, Next, Left;
    }
  }

  // ---------------------------------------------------------------- what is persisted

  function InStore(s: System, id: BackendId): Option<Backend> {
    OverwatchClaims.Lookup(s.store, id)
  }

  /** Either nothing happened to the backend, or the store has exactly what memory has. */
  predicate Persisted(before: System, after: System, id: BackendId) {
    || (OnFile(after, id) == OnFile(before, id) && InStore(after, id) == InStore(before, id))
    || InStore(after, id) == OnFile(after, id)
  }

  lemma SavePersists(c: Config, s: System, b: Backend, before: Option<Status>, now: int, id: BackendId)
    ensures Persisted(s, Save(c, s, b, before, now), id)
  {
  }

  lemma {:induction false} HeartbeatAllPersists(c: Config, s: System, agentId: string, region: string,
                                                reports: seq<Report>, now: int, id: BackendId)
    ensures Persisted(s, HeartbeatAll(c, s, agentId, region, reports, now), id)
  {
    if reports != [] {
      var n := |reports| - 1;
      var h := HeartbeatAll(c, s, agentId, region, reports[..n], now);
      HeartbeatAllPersists(c, s, agentId, region, reports[..n], now, id);
      assert Persisted(h, HeartbeatOne(c, h, agentId, region, reports[n], now), id);
      hide HeartbeatOne;
    }
  }

  lemma {:induction false} DrainedPersists(c: Config, s: System, order: seq<BackendId>, agentId: string, drain: Drain,
                                           now: int, id: BackendId)
    ensures Persisted(s, Drained(c, s, order, agentId, drain, now), id)
  {
    if order != [] {
      var n := |order| - 1;
      var m := Drained(c, s, order[..n], agentId, drain, now);
      DrainedPersists(c, s, order[..n], agentId, drain, now, id);
      assert Persisted(m, DrainedOne(c, m, order[n], agentId, drain, now), id);
      hide DrainedOne;
    }
  }

  /** Every operation persists what it leaves of a backend, status included.  Only a sweep and the loading
      at a restart do not:
      the statuses it computes stay in memory until something else is written. */
  lemma EventsPersist(c: Config, s: System, e: Event, at: int, id: BackendId)
    requires !e.Sweep? && !e.Restart?
    ensures Persisted(s, Apply(c, s, e, at), id)
  {
    if e.Heartbeat? {
      HeartbeatAllPersists(c, s, e.agentId, e.region, e.reports, at, id);
      if e.drain.Some? {
        DrainedPersists(c, HeartbeatAll(c, s, e.agentId, e.region, e.reports, at), e.order, e.agentId, e.drain.value,
            at, id);
      }
    } else {
      hide Effective, Notified;
    }
  }

  lemma SweepsDoNotPersist(c: Config, s: System, order: seq<BackendId>, at: int, id: BackendId)
    requires Covers(order, s.backends) && s.store.Keys == s.backends.Keys
    ensures var after := Apply(c, s, Sweep(order), at);
            InStore(after, id) == if id in after.backends then InStore(s, id) else None
  {
    SweepRemovesExactlyTheExpired(c, s, order, at);
    assert id in s.store.Keys <==> id in s.backends.Keys;
  }

  lemma RunSplits(c: Config, start: int, events: seq<(int, Event)>)
    requires ConfigOk(c) && Admissible(c, Initial(c, start), events) && events != []
    requires forall v :: v in events ==> CanonicalEvent(c, v.1)
    ensures var n, t := |events| - 1, Initial(c, start);
            && Admissible(c, t, events[..n]) && Inv(c, Run(c, t, events[..n]))
            && Enabled(c, Run(c, t, events[..n]), events[n].0, events[n].1)
            && CanonicalEvent(c, events[n].1)
            && forall v :: v in events[..n] ==> v in events
  {
    var n, t := |events| - 1, Initial(c, start);
    forall i | 0 <= i < n ensures Enabled(c, Run(c, t, events[..n][..i]), events[..n][i].0, events[..n][i].1) {
      assert events[..n][..i] == events[..i];
    }
    assert forall v :: v in events[..n] ==> v in events;
    InitialHolds(c, start);
    RunKeeps(c, t, events[..n]);
    assert events[n] in events;
  }
}
