/** Which backends DNS lists, and with what weight: the registry seen one endpoint at a time. */
module OverwatchListing {
  import opened Prelude
  import opened Naming
  import opened Dns
  import opened Overwatch
  import opened OverwatchRuns

  datatype Endpoint = Endpoint(domain: string, address: string, port: int)

  function Home(id: BackendId): Endpoint {
    Endpoint(NormalizeDomain(id.service), id.address, id.port)
  }

  /** Weight and region of the server at an endpoint. */
  function Shown(d: Domains, e: Endpoint): Option<(int, string)> {
    if e.domain !in d then None
    else
      var servers := d[e.domain].servers;
      var i := Find(servers, e.address, e.port);
      if i < |servers| then Some((servers[i].weight, servers[i].region)) else None
  }

  /** The domain is configured, its servers have distinct endpoints, and the address is canonical. */
  ghost predicate Ready(c: Config, d: Domains, e: Endpoint) {
    e.domain in d && Unique(d[e.domain].servers) && c.parse(e.address) == Some(e.address)
  }

  /** `Shown` is what the domain answers with. */
  lemma ShownIsServed(c: Config, d: Domains, e: Endpoint, weight: int, region: string)
    requires Ready(c, d, e)
    ensures Shown(d, e) == Some((weight, region))
       <==> ServerInfo(e.address, e.port, weight, region) in d[e.domain].servers
  {
    var servers := d[e.domain].servers;
    var i := Find(servers, e.address, e.port);
    if ServerInfo(e.address, e.port, weight, region) in servers {
      var j :| 0 <= j < |servers| && servers[j] == ServerInfo(e.address, e.port, weight, region);
      assert i <= j;
    }
  }

  // ---------------------------------------------------------------- one operation on DNS

  lemma RegisterShows(c: Config, d: Domains, id: BackendId, weight: int, region: string, e: Endpoint)
    requires Ready(c, d, e) && Canonical(c, id.address)
    ensures var r := ServerRegistered(d, c.parse, id.service, id.address, id.port, weight, region);
            && Ready(c, r, e)
            && Shown(r, e) == if Home(id) == e then Some((weight, region)) else Shown(d, e)
  {
    var name := NormalizeDomain(id.service);
    if name == e.domain && c.parse(id.address).Some? {
      var servers, s := d[name].servers, ServerInfo(id.address, id.port, weight, region);
      UpsertEffect(servers, s);
      SameAtOtherEndpoints(servers, Upsert(servers, id.address, s), id.address, id.port, e);
      if Home(id) == e {
        var r := Upsert(servers, id.address, s);
        FindFinds(r, e.address, e.port);
        assert s in r && At(s, e.address, e.port);
        var i := Find(r, e.address, e.port);
        assert r[i] in r;
      }
    }
  }

  /** Two lists that differ at one endpoint only show the same at every other. */
  lemma SameAtOtherEndpoints(a: seq<ServerInfo>, b: seq<ServerInfo>, address: string, port: int, e: Endpoint)
    requires Unique(a) && Unique(b)
    requires forall x :: !At(x, address, port) ==> (x in a <==> x in b)
    ensures (address, port) != (e.address, e.port) ==>
              var i, j := Find(a, e.address, e.port), Find(b, e.address, e.port);
              (i < |a| <==> j < |b|) && (i < |a| ==> a[i] == b[j])
  {
    if (address, port) != (e.address, e.port) {
      var i, j := Find(a, e.address, e.port), Find(b, e.address, e.port);
      FindFinds(a, e.address, e.port);
      FindFinds(b, e.address, e.port);
      if i < |a| {
        assert a[i] in a && a[i] in b;
        var k :| 0 <= k < |b| && b[k] == a[i];
        assert j <= k;
      }
      if j < |b| {
        assert b[j] in b && b[j] in a;
      }
    }
  }

  lemma DeregisterShows(c: Config, d: Domains, id: BackendId, e: Endpoint)
    requires Ready(c, d, e)
    ensures var r := ServerDeregistered(d, id.service, id.address, id.port);
            Ready(c, r, e) && Shown(r, e) == if Home(id) == e then None else Shown(d, e)
  {
    var name := NormalizeDomain(id.service);
    if name == e.domain {
      var servers := d[name].servers;
      FindFinds(servers, id.address, id.port);
      var i := Find(servers, id.address, id.port);
      if i < |servers| {
        SwapRemoveEffect(servers, id.address, id.port);
        SameAtOtherEndpoints(servers, SwapRemove(servers, i), id.address, id.port, e);
        FindFinds(SwapRemove(servers, i), id.address, id.port);
      }
    }
  }

  /** What every mutator of one backend does to DNS. */
  lemma SaveShows(c: Config, s: System, b: Backend, before: Option<Status>, now: int, e: Endpoint)
    requires Ready(c, s.domains, e) && Canonical(c, b.id.address)
    ensures var r := Save(c, s, b, before, now).domains;
            && Ready(c, r, e)
            && Shown(r, e) == if Home(b.id) == e && before != Some(Effective(c, b, now)) then Some((b.weight, b.region))
                              else Shown(s.domains, e)
  {
    RegisterShows(c, s.domains, b.id, b.weight, b.region, e);
  }

  // ---------------------------------------------------------------- a heartbeat

  /** The last report of a message about an endpoint. */
  function Reported(reports: seq<Report>, region: string, e: Endpoint): Option<(int, string)> {
    if reports == [] then None
    else
      var last := reports[|reports| - 1];
      if Home(ReportId(last)) == e then Some((last.weight, region))
      else Reported(reports[..|reports| - 1], region, e)
  }

  lemma HeartbeatOneShows(c: Config, s: System, agentId: string, region: string, r: Report, now: int, e: Endpoint)
    requires Ready(c, s.domains, e) && Canonical(c, r.address)
    requires ReportId(r) in s.backends ==> s.backends[ReportId(r)].id == ReportId(r)
    ensures var h := HeartbeatOne(c, s, agentId, region, r, now).domains;
            && Ready(c, h, e)
            && Shown(h, e) == if Home(ReportId(r)) == e then Some((r.weight, region)) else Shown(s.domains, e)
  {
    var id := ReportId(r);
    var b := if id in s.backends
             then s.backends[id].(agentId := agentId, region := region, weight := r.weight,
                                  agentHealthy := r.healthy, lastSeen := now, updatedAt := now)
             else NewBackend(id, r.weight, agentId, region, Agent, r.healthy, now, "", now);
    SaveShows(c, s, b, Some(b.status), now, e);
    var s1 := AgentRegistered(c, s, agentId, region, id, r.weight, r.healthy, now);
    assert s1 == Save(c, s, b, Some(b.status), now);
    RegisterShows(c, s1.domains, id, r.weight, region, e);
  }

  lemma {:induction false} HeartbeatAllShows(c: Config, s: System, agentId: string, region: string,
                                             reports: seq<Report>, now: int, lastSweep: int, e: Endpoint)
    requires Core(c, s, lastSweep) && s.store.Keys == s.backends.Keys && lastSweep <= now && 0 <= c.removeAfter
    requires forall r :: r in reports ==> Canonical(c, r.address)
    requires Ready(c, s.domains, e)
    ensures var h := HeartbeatAll(c, s, agentId, region, reports, now).domains;
            var told := Reported(reports, region, e);
            Ready(c, h, e) && Shown(h, e) == if told.Some? then told else Shown(s.domains, e)
  {
    if reports != [] {
      var n := |reports| - 1;
      HeartbeatAllShows(c, s, agentId, region, reports[..n], now, lastSweep, e);
      HeartbeatAllKeeps(c, s, agentId, region, reports[..n], now, lastSweep);
      var h := HeartbeatAll(c, s, agentId, region, reports[..n], now);
      assert ReportId(reports[n]) in h.backends ==>
               RecordOk(c, ReportId(reports[n]), h.store[ReportId(reports[n])], lastSweep);
      HeartbeatOneShows(c, h, agentId, region, reports[n], now, e);
    }
  }

  /** Every record is filed under its own id. */
  ghost predicate Filed(s: System) {
    forall id :: id in s.backends ==> s.backends[id].id == id
  }

  ghost predicate RecordAfter(s: System, h: System, agentId: string, region: string, reports: seq<Report>,
                              id: BackendId)
  {
    if Names(reports, id) then
      && id in h.backends
      && h.backends[id].agentId == agentId
      && h.backends[id].region == region
      && h.backends[id].weight == WeightTold(reports, id)
    else
      (id in h.backends <==> id in s.backends) && (id in s.backends ==> h.backends[id] == s.backends[id])
  }

  lemma HeartbeatOneRecord(c: Config, s: System, agentId: string, region: string, r: Report, now: int)
    requires Filed(s)
    ensures var h := HeartbeatOne(c, s, agentId, region, r, now);
            && Filed(h)
            && h.backends.Keys == s.backends.Keys + {ReportId(r)}
            && h.backends[ReportId(r)].agentId == agentId
            && h.backends[ReportId(r)].region == region
            && h.backends[ReportId(r)].weight == r.weight
            && forall id :: id in s.backends && id != ReportId(r) ==> h.backends[id] == s.backends[id]
  {
  }

  /** A backend that the message does not report keeps its record; a reported one belongs to the
      agent, in the message's region and with the weight of the last report about it. */
  lemma {:induction false} HeartbeatAllRecord(c: Config, s: System, agentId: string, region: string,
                                              reports: seq<Report>, now: int, id: BackendId)
    requires Filed(s)
    ensures var h := HeartbeatAll(c, s, agentId, region, reports, now);
            Filed(h) && RecordAfter(s, h, agentId, region, reports, id)
  {
    hide HeartbeatOne;
    if reports != [] {
      var n := |reports| - 1;
      HeartbeatAllRecord(c, s, agentId, region, reports[..n], now, id);
      HeartbeatOneRecord(c, HeartbeatAll(c, s, agentId, region, reports[..n], now), agentId, region, reports[n], now);
      assert reports == reports[..n] + [reports[n]];
    }
  }

  ghost predicate Names(reports: seq<Report>, id: BackendId) {
    exists r :: r in reports && ReportId(r) == id
  }

  function WeightTold(reports: seq<Report>, id: BackendId): int {
    if reports == [] then 0
    else if ReportId(reports[|reports| - 1]) == id then reports[|reports| - 1].weight
    else WeightTold(reports[..|reports| - 1], id)
  }

  // ---------------------------------------------------------------- its drain

  /** The drain data of the message change the status of this backend of the agent. */
  predicate Turned(c: Config, h: System, agentId: string, drain: Drain, now: int, id: BackendId) {
    && id in h.backends
    && h.backends[id].agentId == agentId
    && Effective(c, h.backends[id].(drain := drain), now) != h.backends[id].status
  }

  lemma {:induction false} DrainedRecord(c: Config, h: System, order: seq<BackendId>, agentId: string, drain: Drain,
                                         now: int, id: BackendId)
    requires forall k :: k in h.backends ==> h.backends[k].id == k
    ensures var r := Drained(c, h, order, agentId, drain, now);
            && (id in r.backends <==> id in h.backends)
            && (id in h.backends ==>
                  r.backends[id] == if id in order && h.backends[id].agentId == agentId
                                    then Refresh(c, h.backends[id].(drain := drain), now) else h.backends[id])
  {
    if order != [] {
      var n := |order| - 1;
      DrainedRecord(c, h, order[..n], agentId, drain, now, id);
      DrainedRecord(c, h, order[..n], agentId, drain, now, order[n]);
      assert order == order[..n] + [order[n]];
    }
  }

  /** What the drain walk leaves at an endpoint: the record of the last backend it turned there. */
  function DrainShown(c: Config, h: System, order: seq<BackendId>, agentId: string, drain: Drain, now: int,
                      e: Endpoint): Option<(int, string)>
  {
    if order == [] then Shown(h.domains, e)
    else
      var n := |order| - 1;
      if Home(order[n]) == e && Turned(c, h, agentId, drain, now, order[n]) && order[n] !in order[..n]
      then Some((h.backends[order[n]].weight, h.backends[order[n]].region))
      else DrainShown(c, h, order[..n], agentId, drain, now, e)
  }

  lemma {:induction false} DrainedShows(c: Config, h: System, order: seq<BackendId>, agentId: string, drain: Drain,
                                        now: int, e: Endpoint)
    requires forall k :: k in h.backends ==> h.backends[k].id == k && Canonical(c, k.address)
    requires Ready(c, h.domains, e)
    ensures var r := Drained(c, h, order, agentId, drain, now).domains;
            Ready(c, r, e) && Shown(r, e) == DrainShown(c, h, order, agentId, drain, now, e)
  {
    if order != [] {
      var n := |order| - 1;
      var id := order[n];
      DrainedShows(c, h, order[..n], agentId, drain, now, e);
      DrainedRecord(c, h, order[..n], agentId, drain, now, id);
      var m := Drained(c, h, order[..n], agentId, drain, now);
      if id in m.backends && m.backends[id].agentId == agentId {
        SaveShows(c, m, m.backends[id].(drain := drain), Some(m.backends[id].status), now, e);
      }
    }
  }

  /** Another backend of the agent at the endpoint of a report, turned by the drain, and with
      another weight or region. */
  predicate Disturbs(c: Config, h: System, agentId: string, drain: Drain, now: int, told: (int, string), e: Endpoint,
                     id: BackendId)
  {
    && Home(id) == e
    && Turned(c, h, agentId, drain, now, id)
    && (h.backends[id].weight, h.backends[id].region) != told
  }

  lemma {:induction false} UndisturbedStays(c: Config, h: System, order: seq<BackendId>, agentId: string, drain: Drain,
                                            now: int, told: (int, string), e: Endpoint)
    requires Shown(h.domains, e) == Some(told)
    requires forall id :: !Disturbs(c, h, agentId, drain, now, told, e, id)
    ensures DrainShown(c, h, order, agentId, drain, now, e) == Some(told)
  {
    if order != [] {
      UndisturbedStays(c, h, order[..|order| - 1], agentId, drain, now, told, e);
      assert !Disturbs(c, h, agentId, drain, now, told, e, order[|order| - 1]);
    }
  }

  lemma {:induction false} SomeOrder(ids: set<BackendId>) returns (order: seq<BackendId>)
    ensures forall id :: id in order <==> id in ids
    decreases |ids|
  {
    order := [];
    if ids != {} {
      var id :| id in ids;
      order := SomeOrder(ids - {id});
      order := order + [id];
    }
  }

  /** The message shows its report whatever the order of the drain walk. */
  ghost predicate ShownInEveryOrder(c: Config, s: System, agentId: string, region: string, reports: seq<Report>,
                                    drain: Drain, now: int, e: Endpoint, told: (int, string))
  {
    forall order :: Covers(order, HeartbeatAll(c, s, agentId, region, reports, now).backends) ==>
      Shown(Apply(c, s, Heartbeat(agentId, region, reports, Some(drain), order), now).domains, e) == Some(told)
  }

  lemma HeartbeatShows(c: Config, s: System, agentId: string, region: string, reports: seq<Report>, drain: Drain,
                       order: seq<BackendId>, now: int, lastSweep: int, e: Endpoint)
    requires Core(c, s, lastSweep) && s.store.Keys == s.backends.Keys && lastSweep <= now && 0 <= c.removeAfter
    requires forall r :: r in reports ==> Canonical(c, r.address)
    requires Ready(c, s.domains, e)
    ensures var h := HeartbeatAll(c, s, agentId, region, reports, now);
            && Ready(c, h.domains, e)
            && (forall k :: k in h.backends ==> h.backends[k].id == k && Canonical(c, k.address))
            && Ready(c, Apply(c, s, Heartbeat(agentId, region, reports, Some(drain), order), now).domains, e)
            && Shown(Apply(c, s, Heartbeat(agentId, region, reports, Some(drain), order), now).domains, e)
               == DrainShown(c, h, order, agentId, drain, now, e)
  {
    HeartbeatAllShows(c, s, agentId, region, reports, now, lastSweep, e);
    HeartbeatAllKeeps(c, s, agentId, region, reports, now, lastSweep);
    var h := HeartbeatAll(c, s, agentId, region, reports, now);
    forall k | k in h.backends ensures h.backends[k].id == k && Canonical(c, k.address) {
      assert RecordOk(c, k, h.store[k], lastSweep) && SameRecord(h.backends[k], h.store[k]);
    }
    DrainedShows(c, h, order, agentId, drain, now, e);
  }

  lemma DisturbedInSomeOrder(c: Config, s: System, agentId: string, region: string, reports: seq<Report>, drain: Drain,
                             now: int, lastSweep: int, e: Endpoint, told: (int, string), id: BackendId)
    requires Core(c, s, lastSweep) && s.store.Keys == s.backends.Keys && lastSweep <= now && 0 <= c.removeAfter
    requires forall r :: r in reports ==> Canonical(c, r.address)
    requires Ready(c, s.domains, e)
    requires Disturbs(c, HeartbeatAll(c, s, agentId, region, reports, now), agentId, drain, now, told, e, id)
    ensures !ShownInEveryOrder(c, s, agentId, region, reports, drain, now, e, told)
  {
    var h := HeartbeatAll(c, s, agentId, region, reports, now);
    var rest := SomeOrder(h.backends.Keys - {id});
    var order := rest + [id];
    assert order[..|rest|] == rest && Covers(order, h.backends);
    HeartbeatShows(c, s, agentId, region, reports, drain, order, now, lastSweep, e);
  }

  /** A heartbeat with drain data leaves its last report about an endpoint in DNS, in every order of
      the walk, exactly when it turns no backend of the agent there that has another weight or
      region. */
  lemma HeartbeatIsListedIffUndisturbed(c: Config, s: System, agentId: string, region: string, reports: seq<Report>,
                                        drain: Drain, now: int, lastSweep: int, e: Endpoint)
    requires Core(c, s, lastSweep) && s.store.Keys == s.backends.Keys && lastSweep <= now && 0 <= c.removeAfter
    requires forall r :: r in reports ==> Canonical(c, r.address)
    requires Ready(c, s.domains, e) && Reported(reports, region, e).Some?
    ensures var told := Reported(reports, region, e).value;
            var h := HeartbeatAll(c, s, agentId, region, reports, now);
            ShownInEveryOrder(c, s, agentId, region, reports, drain, now, e, told)
            <==> forall id :: !Disturbs(c, h, agentId, drain, now, told, e, id)
  {
    hide HeartbeatAll, Apply;
    var told, h := Reported(reports, region, e).value, HeartbeatAll(c, s, agentId, region, reports, now);
    HeartbeatAllShows(c, s, agentId, region, reports, now, lastSweep, e);
    if forall id :: !Disturbs(c, h, agentId, drain, now, told, e, id) {
      forall order | Covers(order, h.backends)
        ensures Shown(Apply(c, s, Heartbeat(agentId, region, reports, Some(drain), order), now).domains, e)
                  == Some(told)
      {
        HeartbeatShows(c, s, agentId, region, reports, drain, order, now, lastSweep, e);
        UndisturbedStays(c, h, order, agentId, drain, now, told, e);
      }
    } else {
      var id :| Disturbs(c, h, agentId, drain, now, told, e, id);
      DisturbedInSomeOrder(c, s, agentId, region, reports, drain, now, lastSweep, e, told, id);
    }
  }

  /** No other backend of the agent, known or reported, is at the endpoint of the report. */
  ghost predicate Alone(s: System, agentId: string, reports: seq<Report>, id: BackendId) {
    && (forall k :: k in s.backends && s.backends[k].agentId == agentId && Home(k) == Home(id) ==> k == id)
    && (forall r :: r in reports && Home(ReportId(r)) == Home(id) ==> ReportId(r) == id)
  }

  lemma {:induction false} AloneIsTold(reports: seq<Report>, region: string, id: BackendId)
    requires Names(reports, id)
    requires forall r :: r in reports && Home(ReportId(r)) == Home(id) ==> ReportId(r) == id
    ensures Reported(reports, region, Home(id)) == Some((WeightTold(reports, id), region))
  {
    var n := |reports| - 1;
    assert reports == reports[..n] + [reports[n]];
    assert reports[n] in reports;
    if ReportId(reports[n]) != id {
      AloneIsTold(reports[..n], region, id);
    }
  }

  /** So a heartbeat, drain included, leaves every server it reports in DNS, with the weight of the
      last report about it, if the agent has no other backend at the same endpoint. */
  lemma HeartbeatIsListed(c: Config, s: System, agentId: string, region: string, reports: seq<Report>,
                          drain: Option<Drain>, order: seq<BackendId>, now: int, lastSweep: int, id: BackendId)
    requires Core(c, s, lastSweep) && s.store.Keys == s.backends.Keys && lastSweep <= now && 0 <= c.removeAfter
    requires forall r :: r in reports ==> Canonical(c, r.address)
    requires Ready(c, s.domains, Home(id)) && Names(reports, id) && Alone(s, agentId, reports, id)
    requires drain.Some? ==> Covers(order, HeartbeatAll(c, s, agentId, region, reports, now).backends)
    ensures var d, name := Apply(c, s, Heartbeat(agentId, region, reports, drain, order), now).domains,
                           NormalizeDomain(id.service);
            && name in d && Unique(d[name].servers)
            && ServerInfo(id.address, id.port, WeightTold(reports, id), region) in d[name].servers
  {
    AloneIsTold(reports, region, id);
    HeartbeatAllShows(c, s, agentId, region, reports, now, lastSweep, Home(id));
    if drain.Some? {
      var h, told := HeartbeatAll(c, s, agentId, region, reports, now), (WeightTold(reports, id), region);
      FiledInCore(c, s, lastSweep);
      forall k ensures !Disturbs(c, h, agentId, drain.value, now, told, Home(id), k) {
        HeartbeatAllRecord(c, s, agentId, region, reports, now, k);
      }
      HeartbeatIsListedIffUndisturbed(c, s, agentId, region, reports, drain.value, now, lastSweep, Home(id));
      HeartbeatShows(c, s, agentId, region, reports, drain.value, order, now, lastSweep, Home(id));
    }
    hide Ready, Shown, HeartbeatAll;
    ShownIsServed(c, Apply(c, s, Heartbeat(agentId, region, reports, drain, order), now).domains, Home(id),
        WeightTold(reports, id), region);
  }

  lemma FiledInCore(c: Config, s: System, lastSweep: int)
    requires Core(c, s, lastSweep)
    ensures Filed(s)
  {
    forall id | id in s.backends ensures s.backends[id].id == id {
      assert RecordOk(c, id, s.store[id], lastSweep) && SameRecord(s.backends[id], s.store[id]);
    }
  }

  /** The condition is needed: an agent that first reports a service without its trailing dot, and
      then with it and a drain, can find its old weight served again. */
  lemma DrainCanRestoreAnOldWeight(c: Config, name: string, address: string, region: string, entry: DomainEntry,
                                   drain: Drain, now: int)
    requires c.parse(address) == Some(address) && 0 <= c.removeAfter && 0 <= c.staleThreshold && drain.active
    requires NormalizeDomain(name) != name && entry.servers == []
    ensures var s := System(map[], map[], map[NormalizeDomain(name) := entry]);
            var first := HeartbeatAll(c, s, "agent", region, [Report(name, address, 80, 1, true)], now);
            !ShownInEveryOrder(c, first, "agent", region, [Report(NormalizeDomain(name), address, 80, 5, true)],
                drain, now,
                               Endpoint(NormalizeDomain(name), address, 80), (5, region))
  {
    var domain := NormalizeDomain(name);
    var s := System(map[], map[], map[domain := entry]);
    var r, q, e := Report(name, address, 80, 1, true), Report(domain, address, 80, 5, true),
        Endpoint(domain, address, 80);
    assert NormalizeDomain(domain) == domain;
    HeartbeatAllKeeps(c, s, "agent", region, [r], now, now);
    HeartbeatAllShows(c, s, "agent", region, [r], now, now, e);
    OldReportDisturbs(c, s, r, q, region, drain, now);
    var first := HeartbeatAll(c, s, "agent", region, [r], now);
    DisturbedInSomeOrder(c, first, "agent", region, [q], drain, now, now, e, (5, region), ReportId(r));
  }

  lemma OldReportDisturbs(c: Config, s: System, r: Report, q: Report, region: string, drain: Drain, now: int)
    requires s.backends == map[] && r.healthy && 0 <= c.staleThreshold && drain.active
    requires ReportId(r) != ReportId(q) && Home(ReportId(r)) == Home(ReportId(q)) && r.weight != q.weight
    ensures var first := HeartbeatAll(c, s, "agent", region, [r], now);
            var h := HeartbeatAll(c, first, "agent", region, [q], now);
            Disturbs(c, h, "agent", drain, now, (q.weight, region), Home(ReportId(q)), ReportId(r))
  {
    HeartbeatOfOne(c, s, "agent", region, r, now);
    hide HeartbeatAll;
    HeartbeatAllRecord(c, HeartbeatAll(c, s, "agent", region, [r], now), "agent", region, [q], now, ReportId(r));
  }

  lemma HeartbeatOfOne(c: Config, s: System, agentId: string, region: string, r: Report, now: int)
    requires s.backends == map[] && r.healthy && 0 <= c.staleThreshold
    ensures var h := HeartbeatAll(c, s, agentId, region, [r], now);
            && Filed(h)
            && ReportId(r) in h.backends
            && h.backends[ReportId(r)]
               == NewBackend(ReportId(r), r.weight, agentId, region, Agent, true, now, "", now)
  {
    assert [r][..0] == [];
  }
}
