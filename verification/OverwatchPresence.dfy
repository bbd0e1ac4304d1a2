/** Which backends DNS lists over whole runs: an endpoint is served exactly if the last thing that
    happened to it was an announcement and not a removal. */
module OverwatchPresence {
  import opened Prelude
  import opened Naming
  import opened Dns
  import opened Overwatch
  import opened OverwatchRuns
  import opened OverwatchListing
  import LatencyEma
  import opened OverwatchHistory
  import OverwatchClaims

  predicate Present(d: Domains, e: Endpoint) {
    Shown(d, e).Some?
  }

  // ---------------------------------------------------------------- what happens to an endpoint

  /** A backend there has been removed. */
  ghost predicate Gone(before: System, after: System, e: Endpoint) {
    exists id :: id in before.backends && id !in after.backends && Home(id) == e
  }

  /** The event names the backend to DNS outright. */
  predicate Heard(before: System, event: Event, id: BackendId) {
    match event
    case Heartbeat(_, _, reports, _, _) => exists r :: r in reports && ReportId(r) == id
    case ApiRegister(new_, _, _) => id == new_ && id !in before.backends
    case Restart(_) => true
    case _ => false
  }

  /** A backend comes into existence as healthy. */
  function StatusWas(before: System, id: BackendId): Status {
    if id in before.backends then before.backends[id].status else Healthy
  }

  predicate Voiced(before: System, event: Event, after: System, id: BackendId) {
    id in after.backends && (Heard(before, event, id) || after.backends[id].status != StatusWas(before, id))
  }

  /** The backends there that are named, or change their status. */
  function Voices(before: System, event: Event, after: System, e: Endpoint): set<BackendId> {
    set id | id in after.backends && Voiced(before, event, after, id) && Home(id) == e
  }

  /** Weight and region on the record of a backend. */
  function OnRecord(s: System, id: BackendId): Option<(int, string)> {
    if id in s.backends then Some((s.backends[id].weight, s.backends[id].region)) else None
  }

  /** If any of these backends speaks, one of them is shown as it is on record; otherwise what was
      shown stays. */
  ghost predicate Speaks(ids: set<BackendId>, s: System, before: Option<(int, string)>, shown: Option<(int, string)>) {
    if ids == {} then shown == before
    else exists id :: id in ids && id in s.backends && shown == OnRecord(s, id)
  }

  /** An announcement shows an endpoint as it is on record, and a removal, which comes last, unlists it. */
  ghost predicate Explains(before: System, event: Event, after: System, e: Endpoint) {
    if Gone(before, after, e) then Shown(after.domains, e).None?
    else Speaks(Voices(before, event, after, e), after, Shown(before.domains, e), Shown(after.domains, e))
  }

  /** One backend more speaks, after the others. */
  lemma SpeaksAfter(ids: set<BackendId>, s: System, before: Option<(int, string)>, m: Option<(int, string)>,
                    r: Option<(int, string)>, id: BackendId)
    requires Speaks(ids, s, before, m) && id in s.backends && r == OnRecord(s, id)
    ensures Speaks(ids + {id}, s, before, r)
  {
  }

  // ---------------------------------------------------------------- events about one backend

  lemma SaveExplains(c: Config, s: System, event: Event, b: Backend, now: int, e: Endpoint)
    requires Ready(c, s.domains, e) && Canonical(c, b.id.address)
    requires b.status == StatusWas(s, b.id) && !event.Heartbeat? && !event.ApiRegister? && !event.Restart?
    ensures Explains(s, event, Save(c, s, b, Some(b.status), now), e)
    ensures Ready(c, Save(c, s, b, Some(b.status), now).domains, e)
  {
    var r := Save(c, s, b, Some(b.status), now);
    SaveShows(c, s, b, Some(b.status), now, e);
    assert Voices(s, event, r, e) == if Home(b.id) == e && b.status != Effective(c, b, now) then {b.id} else {};
  }

  lemma NothingExplains(s: System, event: Event, e: Endpoint)
    requires !event.Heartbeat? && !event.Restart? && (event.ApiRegister? ==> event.id in s.backends)
    ensures Explains(s, event, s, e)
  {
    assert Voices(s, event, s, e) == {};
  }

  lemma DeregisterExplains(c: Config, s: System, event: Event, id: BackendId, e: Endpoint)
    requires Ready(c, s.domains, e) && id in s.backends && s.backends[id].id == id && event.DeregisterMessage?
    ensures Explains(s, event, Deregistered(c, s, id), e)
    ensures Ready(c, Deregistered(c, s, id).domains, e)
  {
    var r := Deregistered(c, s, id);
    DeregisterShows(c, s.domains, id, e);
    assert Voices(s, event, r, e) == {};
    assert Home(id) == e ==> id in s.backends && id !in r.backends;
  }

  lemma ApiRegisterExplains(c: Config, s: System, id: BackendId, weight: int, region: string, now: int, e: Endpoint)
    requires Ready(c, s.domains, e) && Canonical(c, id.address)
    ensures var r := ApiRegistered(c, s, id, weight, region, now);
            Explains(s, ApiRegister(id, weight, region), r, e) && Ready(c, r.domains, e)
  {
    var event := ApiRegister(id, weight, region);
    if id in s.backends {
      NothingExplains(s, event, e);
    } else {
      var r := ApiRegistered(c, s, id, weight, region, now);
      SaveShows(c, s, NewBackend(id, weight, "", region, Api, false, now, "", now), None, now, e);
      assert Voices(s, event, r, e) == if Home(id) == e then {id} else {};
    }
  }

  // ---------------------------------------------------------------- heartbeats

  function NamedAt(reports: seq<Report>, e: Endpoint): set<BackendId> {
    set r | r in reports && Home(ReportId(r)) == e :: ReportId(r)
  }

  lemma {:induction false} ReportedIsNamed(reports: seq<Report>, region: string, e: Endpoint)
    ensures if NamedAt(reports, e) == {} then Reported(reports, region, e).None?
            else exists id :: id in NamedAt(reports, e)
                              && Reported(reports, region, e) == Some((WeightTold(reports, id), region))
  {
    if reports != [] {
      var n := |reports| - 1;
      ReportedIsNamed(reports[..n], region, e);
      assert reports == reports[..n] + [reports[n]];
      assert NamedAt(reports, e) == NamedAt(reports[..n], e)
                                    + if Home(ReportId(reports[n])) == e then {ReportId(reports[n])} else {};
    }
  }

  lemma HeartbeatAllSpeaks(c: Config, s: System, agentId: string, region: string, reports: seq<Report>, now: int,
                           lastSweep: int, e: Endpoint)
    requires Core(c, s, lastSweep) && s.store.Keys == s.backends.Keys && lastSweep <= now && 0 <= c.removeAfter
    requires forall r :: r in reports ==> Canonical(c, r.address)
    requires Ready(c, s.domains, e)
    ensures var h := HeartbeatAll(c, s, agentId, region, reports, now);
            Ready(c, h.domains, e) && Speaks(NamedAt(reports, e), h, Shown(s.domains, e), Shown(h.domains, e))
  {
    HeartbeatAllShows(c, s, agentId, region, reports, now, lastSweep, e);
    ReportedIsNamed(reports, region, e);
    FiledInCore(c, s, lastSweep);
    if NamedAt(reports, e) != {} {
      var id :| id in NamedAt(reports, e) && Reported(reports, region, e) == Some((WeightTold(reports, id), region));
      HeartbeatAllRecord(c, s, agentId, region, reports, now, id);
    }
  }

  /** The backends at an endpoint that the drain turns. */
  function TurnedAt(c: Config, h: System, order: seq<BackendId>, agentId: string, drain: Drain, now: int, e: Endpoint)
    : set<BackendId>
  {
    set id | id in order && Home(id) == e && Turned(c, h, agentId, drain, now, id)
  }

  lemma {:induction false} DrainSpeaks(c: Config, h: System, order: seq<BackendId>, agentId: string, drain: Drain,
                                       now: int, e: Endpoint)
    ensures Speaks(TurnedAt(c, h, order, agentId, drain, now, e), h, Shown(h.domains, e),
                   DrainShown(c, h, order, agentId, drain, now, e))
  {
    hide Effective, Shown;
    if order != [] {
      var n := |order| - 1;
      var ids := TurnedAt(c, h, order[..n], agentId, drain, now, e);
      DrainSpeaks(c, h, order[..n], agentId, drain, now, e);
      assert order == order[..n] + [order[n]];
      if Home(order[n]) == e && Turned(c, h, agentId, drain, now, order[n]) {
        assert TurnedAt(c, h, order, agentId, drain, now, e) == ids + {order[n]};
      } else {
        assert TurnedAt(c, h, order, agentId, drain, now, e) == ids;
      }
    }
  }

  /** A heartbeat announces those it reports and those its drain turns. */
  ghost predicate Reaches(c: Config, h: System, event: Event, now: int, id: BackendId)
    requires event.Heartbeat?
  {
    || Names(event.reports, id)
    || (event.drain.Some? && Turned(c, h, event.agentId, event.drain.value, now, id))
  }

  ghost function ReachedAt(c: Config, h: System, event: Event, now: int, e: Endpoint): set<BackendId>
    requires event.Heartbeat?
  {
    NamedAt(event.reports, e) + set id | id in h.backends && Home(id) == e && Reaches(c, h, event, now, id)
  }

  lemma ReachedSplits(c: Config, s: System, event: Event, now: int, e: Endpoint)
    requires event.Heartbeat?
    requires event.drain.Some? ==>
               Covers(event.order, HeartbeatAll(c, s, event.agentId, event.region, event.reports, now).backends)
    ensures var h := HeartbeatAll(c, s, event.agentId, event.region, event.reports, now);
            ReachedAt(c, h, event, now, e)
            == NamedAt(event.reports, e)
               + if event.drain.None? then {}
                 else TurnedAt(c, h, event.order, event.agentId, event.drain.value, now, e)
  {
    hide HeartbeatAll, Effective;
  }

  lemma HeartbeatSpeaks(c: Config, s: System, event: Event, now: int, lastSweep: int, e: Endpoint)
    requires event.Heartbeat? && Core(c, s, lastSweep) && s.store.Keys == s.backends.Keys
    requires lastSweep <= now && 0 <= c.removeAfter && Ready(c, s.domains, e)
    requires forall r :: r in event.reports ==> Canonical(c, r.address)
    requires event.drain.Some? ==>
               Covers(event.order, HeartbeatAll(c, s, event.agentId, event.region, event.reports, now).backends)
    ensures var h := HeartbeatAll(c, s, event.agentId, event.region, event.reports, now);
            var r := Apply(c, s, event, now);
            && Ready(c, r.domains, e)
            && Speaks(ReachedAt(c, h, event, now, e), h, Shown(s.domains, e), Shown(r.domains, e))
  {
    var h := HeartbeatAll(c, s, event.agentId, event.region, event.reports, now);
    var named := NamedAt(event.reports, e);
    HeartbeatAllSpeaks(c, s, event.agentId, event.region, event.reports, now, lastSweep, e);
    ReachedSplits(c, s, event, now, e);
    hide HeartbeatAll, ReachedAt, NamedAt, TurnedAt, Core, Shown, Ready;
    if event.drain.Some? {
      HeartbeatShows(c, s, event.agentId, event.region, event.reports, event.drain.value, event.order, now,
          lastSweep, e);
      DrainedShows(c, h, event.order, event.agentId, event.drain.value, now, e);
      DrainSpeaks(c, h, event.order, event.agentId, event.drain.value, now, e);
    }
  }

  lemma HeartbeatExplains(c: Config, s: System, event: Event, now: int, lastSweep: int, e: Endpoint)
    requires event.Heartbeat? && Core(c, s, lastSweep) && s.store.Keys == s.backends.Keys
    requires lastSweep <= now && 0 <= c.removeAfter && Ready(c, s.domains, e)
    requires forall r :: r in event.reports ==> Canonical(c, r.address)
    requires event.drain.Some? ==>
               Covers(event.order, HeartbeatAll(c, s, event.agentId, event.region, event.reports, now).backends)
    ensures Explains(s, event, Apply(c, s, event, now), e)
    ensures Ready(c, Apply(c, s, event, now).domains, e)
  {
    hide Apply, HeartbeatAll, Reaches, Voiced, Turned, Shown;
    var h, r := HeartbeatAll(c, s, event.agentId, event.region, event.reports, now), Apply(c, s, event, now);
    HeartbeatSpeaks(c, s, event, now, lastSweep, e);
    FiledInCore(c, s, lastSweep);
    forall id ensures HeartbeatVoice(c, s, event, h, r, now, id) {
      HeartbeatVoices(c, s, event, now, id);
    }
    ReachedIsVoiced(c, s, event, h, r, now, e);
  }

  lemma ReachedIsVoiced(c: Config, s: System, event: Event, h: System, r: System, now: int, e: Endpoint)
    requires event.Heartbeat? && forall id :: HeartbeatVoice(c, s, event, h, r, now, id)
    requires Speaks(ReachedAt(c, h, event, now, e), h, Shown(s.domains, e), Shown(r.domains, e))
    ensures Explains(s, event, r, e)
  {
    hide Reaches, Heard, Turned, Shown;
    forall id ensures id in ReachedAt(c, h, event, now, e) <==> id in Voices(s, event, r, e) {
      assert HeartbeatVoice(c, s, event, h, r, now, id);
      if id in NamedAt(event.reports, e) {
        NamedIsReached(c, h, event, now, e, id);
      }
    }
    assert ReachedAt(c, h, event, now, e) == Voices(s, event, r, e);
    forall id | id in s.backends ensures id in r.backends {
      assert HeartbeatVoice(c, s, event, h, r, now, id);
    }
    if ReachedAt(c, h, event, now, e) != {} {
      var id :| id in ReachedAt(c, h, event, now, e) && id in h.backends && Shown(r.domains, e) == OnRecord(h, id);
      assert HeartbeatVoice(c, s, event, h, r, now, id);
      assert OnRecord(r, id) == OnRecord(h, id);
    }
  }

  lemma NamedIsReached(c: Config, h: System, event: Event, now: int, e: Endpoint, id: BackendId)
    requires event.Heartbeat? && id in NamedAt(event.reports, e)
    ensures Reaches(c, h, event, now, id) && Home(id) == e
  {
  }

  /** Whom a heartbeat voices: the backends it reports, and those its drain turns.  The drain changes
      no weight and no region. */
  ghost predicate HeartbeatVoice(c: Config, s: System, event: Event, h: System, r: System, now: int, id: BackendId)
    requires event.Heartbeat?
  {
    && (id in s.backends ==> id in r.backends)
    && (id in h.backends <==> id in r.backends)
    && OnRecord(r, id) == OnRecord(h, id)
    && (Voiced(s, event, r, id) <==> Reaches(c, h, event, now, id))
  }

  lemma HeartbeatVoices(c: Config, s: System, event: Event, now: int, id: BackendId)
    requires event.Heartbeat? && Filed(s)
    requires event.drain.Some? ==> Covers(event.order,
               HeartbeatAll(c, s, event.agentId, event.region, event.reports, now).backends)
    ensures var h := HeartbeatAll(c, s, event.agentId, event.region, event.reports, now);
            HeartbeatVoice(c, s, event, h, Apply(c, s, event, now), now, id)
  {
    var h := HeartbeatAll(c, s, event.agentId, event.region, event.reports, now);
    HeartbeatAllRecord(c, s, event.agentId, event.region, event.reports, now, id);
    if event.drain.Some? {
      DrainedRecord(c, h, event.order, event.agentId, event.drain.value, now, id);
    }
  }

  // ---------------------------------------------------------------- sweeps

  /** The sweep's first pass changes the status of this backend. */
  predicate SweepTurns(c: Config, s: System, now: int, id: BackendId) {
    id in s.backends && !Expired(c, s.backends[id], now) && Effective(c, s.backends[id], now) != s.backends[id].status
  }

  function SweptAt(c: Config, s: System, order: seq<BackendId>, now: int, e: Endpoint): set<BackendId> {
    set id | id in order && Home(id) == e && SweepTurns(c, s, now, id)
  }

  lemma SweptOneShows(c: Config, m: System, id: BackendId, now: int, e: Endpoint)
    requires Ready(c, m.domains, e) && Canonical(c, id.address)
    requires id in m.backends ==> m.backends[id].id == id
    ensures var r := SweptOne(c, m, id, now);
            && Ready(c, r.domains, e)
            && Shown(r.domains, e) == if Home(id) == e && SweepTurns(c, m, now, id) then OnRecord(m, id)
                                      else Shown(m.domains, e)
  {
    if id in m.backends {
      RegisterShows(c, m.domains, id, m.backends[id].weight, m.backends[id].region, e);
    }
  }

  lemma {:induction false} SweptAllSpeaks(c: Config, s: System, order: seq<BackendId>, now: int, e: Endpoint)
    requires Filed(s) && (forall id :: id in order ==> Canonical(c, id.address)) && Ready(c, s.domains, e)
    ensures var r := SweptAll(c, s, order, now);
            && Ready(c, r.domains, e)
            && Speaks(SweptAt(c, s, order, now, e), s, Shown(s.domains, e), Shown(r.domains, e))
  {
    if order != [] {
      var n := |order| - 1;
      var id := order[n];
      SweptAllSpeaks(c, s, order[..n], now, e);
      SweptAllBackends(c, s, order[..n], now);
      var m := SweptAll(c, s, order[..n], now);
      if id in m.backends {
        assert m.backends[id] == AfterPass(c, order[..n], id, s.backends[id], now);
      }
      assert forall k :: k in order[..n] ==> k in order;
      SweptOneShows(c, m, id, now, e);
      SweptAtGrows(c, s, order, now, e, m);
      hide SweptOne, Ready, Shown, SweepTurns;
    }
  }

  lemma SweptAtGrows(c: Config, s: System, order: seq<BackendId>, now: int, e: Endpoint, m: System)
    requires order != [] && m.backends.Keys == s.backends.Keys
    requires var n := |order| - 1; order[n] in s.backends ==>
               m.backends[order[n]] == AfterPass(c, order[..n], order[n], s.backends[order[n]], now)
    ensures var n := |order| - 1;
            var before, id := SweptAt(c, s, order[..n], now, e), order[n];
            && SweptAt(c, s, order, now, e)
               == before + (if Home(id) == e && SweepTurns(c, m, now, id) then {id} else {})
            && OnRecord(m, id) == OnRecord(s, id)
  {
    var n := |order| - 1;
    assert order == order[..n] + [order[n]];
  }

  lemma {:induction false} DeregisteredAllShows(c: Config, s: System, ids: seq<BackendId>, e: Endpoint)
    requires Filed(s) && Ready(c, s.domains, e)
    ensures var r := DeregisteredAll(c, s, ids);
            && Ready(c, r.domains, e) && Filed(r)
            && Shown(r.domains, e) == (if exists id :: id in ids && id in s.backends && Home(id) == e then None
                                       else Shown(s.domains, e))
            && (forall id :: id in r.backends <==> id in s.backends && id !in ids)
  {
    if ids != [] {
      var n := |ids| - 1;
      DeregisteredAllShows(c, s, ids[..n], e);
      var m := DeregisteredAll(c, s, ids[..n]);
      assert ids == ids[..n] + [ids[n]];
      if ids[n] in m.backends {
        DeregisterShows(c, m.domains, ids[n], e);
      }
    }
  }

  /** An expired backend is at the endpoint. */
  ghost predicate ExpiresAt(c: Config, s: System, now: int, e: Endpoint) {
    exists id :: id in s.backends && Expired(c, s.backends[id], now) && Home(id) == e
  }

  lemma SweepSpeaks(c: Config, s: System, order: seq<BackendId>, now: int, lastSweep: int, e: Endpoint)
    requires Core(c, s, lastSweep) && Covers(order, s.backends) && Ready(c, s.domains, e)
    ensures var r := Swept(c, s, order, now);
            && Ready(c, r.domains, e)
            && if ExpiresAt(c, s, now, e) then Shown(r.domains, e).None?
               else Speaks(SweptAt(c, s, order, now, e), s, Shown(s.domains, e), Shown(r.domains, e))
  {
    FiledInCore(c, s, lastSweep);
    forall id | id in order ensures Canonical(c, id.address) {
      assert RecordOk(c, id, s.store[id], lastSweep);
    }
    SweptAllSpeaks(c, s, order, now, e);
    SweptAllBackends(c, s, order, now);
    ExpiredOfMembers(c, s, order, now);
    var m := SweptAll(c, s, order, now);
    forall id | id in m.backends ensures m.backends[id].id == id {
      assert m.backends[id] == AfterPass(c, order, id, s.backends[id], now);
    }
    DeregisteredAllShows(c, m, ExpiredOf(c, s, order, now), e);
  }

  lemma SweepExplains(c: Config, s: System, order: seq<BackendId>, now: int, lastSweep: int, e: Endpoint)
    requires Core(c, s, lastSweep) && s.store.Keys == s.backends.Keys && Covers(order, s.backends)
               && Ready(c, s.domains, e)
    ensures var r := Swept(c, s, order, now);
            Explains(s, Sweep(order), r, e) && Ready(c, r.domains, e)
  {
    SweepSpeaks(c, s, order, now, lastSweep, e);
    SweepRemovesExactlyTheExpired(c, s, order, now);
    SweepVoices(c, s, order, Swept(c, s, order, now), now, e);
    hide Swept, Core, Ready, Shown, Voices, SweptAt;
  }

  lemma SweepVoices(c: Config, s: System, order: seq<BackendId>, r: System, now: int, e: Endpoint)
    requires Covers(order, s.backends)
    requires r.backends == map id | id in s.backends && !Expired(c, s.backends[id], now) ::
               Refresh(c, s.backends[id], now)
    ensures Voices(s, Sweep(order), r, e) == SweptAt(c, s, order, now, e)
    ensures Gone(s, r, e) <==> ExpiresAt(c, s, now, e)
    ensures forall id :: id in r.backends ==> OnRecord(r, id) == OnRecord(s, id)
  {
    hide Effective, Home;
    forall id ensures id in Voices(s, Sweep(order), r, e) <==> id in SweptAt(c, s, order, now, e) {
    }
    if ExpiresAt(c, s, now, e) {
      var id :| id in s.backends && Expired(c, s.backends[id], now) && Home(id) == e;
      assert id !in r.backends;
    }
  }

  // ---------------------------------------------------------------- restarts

  function StoredAt(s: System, order: seq<BackendId>, e: Endpoint): set<BackendId> {
    set id | id in order && id in s.store && Home(id) == e
  }

  lemma {:induction false} LoadedSpeaks(c: Config, s: System, order: seq<BackendId>, now: int, e: Endpoint)
    requires Ready(c, s.domains, e)
    requires forall id :: id in s.store ==> s.store[id].id == id && Canonical(c, id.address)
    ensures var r := Loaded(c, s, order, now);
            && Ready(c, r.domains, e) && r.store == s.store
            && (forall id :: id in order && id in s.store ==>
                  id in r.backends && OnRecord(r, id) == Some((s.store[id].weight, s.store[id].region)))
            && Speaks(StoredAt(s, order, e), r, Shown(s.domains, e), Shown(r.domains, e))
  {
    if order != [] {
      var n := |order| - 1;
      var id := order[n];
      LoadedSpeaks(c, s, order[..n], now, e);
      assert order == order[..n] + [id];
      if id in s.store {
        RegisterShows(c, Loaded(c, s, order[..n], now).domains, id, s.store[id].weight, s.store[id].region, e);
      }
      assert StoredAt(s, order, e) == StoredAt(s, order[..n], e)
                                      + if id in s.store && Home(id) == e then {id} else {};
      hide Ready, Shown, Effective;
    }
  }

  lemma BootIsReady(c: Config, t: Timed, now: int, e: Endpoint)
    requires ConfigOk(c) && Inv(c, t) && t.clock <= now
    requires e.domain in c.base && c.parse(e.address) == Some(e.address)
    ensures var b := Booted(c, t.sys.store, now);
            && b.domains == c.base && Ready(c, b.domains, e)
            && (forall id :: id in b.store ==> b.store[id].id == id && Canonical(c, id.address))
            && t.sys.backends.Keys + PlacedIds(c.statics) <= b.store.Keys
  {
    var b := Booted(c, t.sys.store, now);
    BootedKeeps(c, t.sys.store, now, t.lastSweep);
    forall id | id in b.store ensures b.store[id].id == id && Canonical(c, id.address) {
      assert RecordOk(c, id, b.store[id], t.lastSweep);
    }
  }

  function RegisteredAt(s: System, e: Endpoint): set<BackendId> {
    set id | id in s.backends && Home(id) == e
  }

  lemma BootedShowsItsOwn(c: Config, b: System, order: seq<BackendId>, e: Endpoint)
    requires ConfigOk(c) && b.domains == c.base && PlacedIds(c.statics) <= b.store.Keys && Covers(order, b.store)
    ensures Present(b.domains, e) ==> StoredAt(b, order, e) != {}
  {
    if Present(c.base, e) {
      BackedWhereServed(c, c.base, PlacedIds(c.statics), e);
      var id :| id in PlacedIds(c.statics) && Home(id) == e;
      assert id in b.store.Keys;
      assert id in StoredAt(b, order, e);
    }
  }

  /** After a restart every backend of a configured domain is listed as it is on record, and nothing
      else is. */
  lemma RestartShows(c: Config, t: Timed, order: seq<BackendId>, now: int, e: Endpoint)
    requires ConfigOk(c) && Inv(c, t) && t.clock <= now && Covers(order, Booted(c, t.sys.store, now).store)
    requires e.domain in c.base && c.parse(e.address) == Some(e.address)
    ensures var r := Apply(c, t.sys, Restart(order), now);
            && Ready(c, r.domains, e)
            && t.sys.backends.Keys <= r.backends.Keys
            && Speaks(RegisteredAt(r, e), r, None, Shown(r.domains, e))
  {
    var b := Booted(c, t.sys.store, now);
    assert Apply(c, t.sys, Restart(order), now) == Loaded(c, b, order, now);
    BootIsReady(c, t, now, e);
    RestartKeeps(c, t, order, now);
    RestartedKeys(c, b, order, now);
    hide Apply, Booted, Ready, Inv, DnsSound, Shown, Loaded, RecordsOk, Speaks;
    LoadedShowsAll(c, b, order, now, e);
  }

  lemma RestartedKeys(c: Config, b: System, order: seq<BackendId>, now: int)
    ensures Loaded(c, b, order, now).store == b.store
  {
    OverwatchClaims.LoadedBackends(c, b, order, now, BackendId("", "", 0));
  }

  lemma LoadedShowsAll(c: Config, b: System, order: seq<BackendId>, now: int, e: Endpoint)
    requires ConfigOk(c) && b.domains == c.base && PlacedIds(c.statics) <= b.store.Keys && Covers(order, b.store)
    requires Ready(c, b.domains, e) && forall id :: id in b.store ==> b.store[id].id == id && Canonical(c, id.address)
    requires Loaded(c, b, order, now).backends.Keys == b.store.Keys
    ensures var r := Loaded(c, b, order, now);
            Ready(c, r.domains, e) && Speaks(RegisteredAt(r, e), r, None, Shown(r.domains, e))
  {
    LoadedSpeaks(c, b, order, now, e);
    LoadedIsComplete(c, b, order, now, e);
    BootedShowsItsOwn(c, b, order, e);
    hide Loaded, Shown, Ready;
  }

  lemma LoadedIsComplete(c: Config, b: System, order: seq<BackendId>, now: int, e: Endpoint)
    requires Covers(order, b.store) && Loaded(c, b, order, now).backends.Keys == b.store.Keys
    ensures StoredAt(b, order, e) == RegisteredAt(Loaded(c, b, order, now), e)
  {
  }

  /** Where DNS serves an endpoint, a backend is registered there. */
  lemma BackedWhereServed(c: Config, d: Domains, ids: set<BackendId>, e: Endpoint)
    requires DnsSound(d, ids) && Present(d, e)
    ensures exists id :: id in ids && Home(id) == e
  {
    var servers := d[e.domain].servers;
    var x := servers[Find(servers, e.address, e.port)];
    assert x in servers && Backed(ids, e.domain, x);
    var service :| NormalizeDomain(service) == e.domain && BackendId(service, x.address, x.port) in ids;
    assert Home(BackendId(service, x.address, x.port)) == e;
  }

  lemma RestartExplains(c: Config, t: Timed, order: seq<BackendId>, now: int, e: Endpoint)
    requires ConfigOk(c) && Inv(c, t) && t.clock <= now && Covers(order, Booted(c, t.sys.store, now).store)
    requires e.domain in c.base && c.parse(e.address) == Some(e.address)
    ensures Explains(t.sys, Restart(order), Apply(c, t.sys, Restart(order), now), e)
    ensures Ready(c, Apply(c, t.sys, Restart(order), now).domains, e)
  {
    hide Apply;
    var s, r := t.sys, Apply(c, t.sys, Restart(order), now);
    RestartShows(c, t, order, now, e);
    hide Shown;
    assert Voices(s, Restart(order), r, e) == RegisteredAt(r, e);
    if Present(s.domains, e) {
      BackedWhereServed(c, s.domains, s.backends.Keys, e);
      var id :| id in s.backends.Keys && Home(id) == e;
      assert id in Voices(s, Restart(order), r, e);
    }
  }

  // ---------------------------------------------------------------- every step, every run

  lemma EditIsSave(c: Config, s: System, event: Event, now: int)
    requires event.Update? || event.Validate? || event.SetOverride? || event.ClearOverride?
    requires event.id in s.backends && !(event.ClearOverride? && s.backends[event.id].manual.status.None?)
    ensures var b := s.backends[event.id];
            Apply(c, s, event, now) == Save(c, s, Edited(c, b, event, now), Some(b.status), now)
  {
    hide Save, LatencyEma.Observe;
  }

  lemma EditExplains(c: Config, s: System, event: Event, now: int, lastSweep: int, e: Endpoint)
    requires Core(c, s, lastSweep) && Ready(c, s.domains, e)
    requires event.Update? || event.Validate? || event.SetOverride? || event.ClearOverride?
    ensures Explains(s, event, Apply(c, s, event, now), e)
    ensures Ready(c, Apply(c, s, event, now).domains, e)
  {
    FiledInCore(c, s, lastSweep);
    if event.id in s.backends && !(event.ClearOverride? && s.backends[event.id].manual.status.None?) {
      var b := s.backends[event.id];
      assert RecordOk(c, event.id, s.store[event.id], lastSweep);
      EditIsSave(c, s, event, now);
      SaveExplains(c, s, event, Edited(c, b, event, now), now, e);
      hide Apply, Save, Ready, Explains;
    } else {
      NothingExplains(s, event, e);
    }
  }

  lemma RegisterExplains(c: Config, s: System, event: Event, now: int, lastSweep: int, e: Endpoint)
    requires Core(c, s, lastSweep) && Ready(c, s.domains, e) && CanonicalEvent(c, event)
    requires event.RegisterMessage? || event.StaticRegister?
    ensures Explains(s, event, Apply(c, s, event, now), e)
    ensures Ready(c, Apply(c, s, event, now).domains, e)
  {
    FiledInCore(c, s, lastSweep);
    match event
    case RegisterMessage(agentId, region, r) =>
      var id := ReportId(r);
      var b := if id in s.backends
               then s.backends[id].(agentId := agentId, region := region, weight := r.weight,
                                    agentHealthy := true, lastSeen := now, updatedAt := now)
               else NewBackend(id, r.weight, agentId, region, Agent, true, now, "", now);
      SaveExplains(c, s, event, b, now, e);
    case StaticRegister(p) =>
      var id := PlacedId(p);
      var checkType := if p.checkType == "" then "http" else p.checkType;
      var b := if id in s.backends
               then s.backends[id].(weight := p.server.weight, region := p.region, checkType := checkType,
                   updatedAt := now)
               else NewBackend(id, p.server.weight, "", p.region, Static, false, 0, checkType, now);
      SaveExplains(c, s, event, b, now, e);
  }

  lemma StepExplains(c: Config, t: Timed, at: int, event: Event, e: Endpoint)
    requires ConfigOk(c) && Inv(c, t) && Enabled(c, t, at, event) && CanonicalEvent(c, event)
    requires Ready(c, t.sys.domains, e) && e.domain in c.base
    ensures Explains(t.sys, event, Next(c, t, at, event).sys, e)
    ensures Ready(c, Next(c, t, at, event).sys.domains, e)
  {
    var s, last := t.sys, t.lastSweep;
    match event
    case Heartbeat(_, _, _, _, _) => HeartbeatExplains(c, s, event, at, last, e);
    case RegisterMessage(_, _, _) => RegisterExplains(c, s, event, at, last, e);
    case StaticRegister(_) => RegisterExplains(c, s, event, at, last, e);
    case DeregisterMessage(id) =>
      FiledInCore(c, s, last);
      if id in s.backends {
        DeregisterExplains(c, s, event, id, e);
      } else {
        NothingExplains(s, event, e);
      }
    case ApiRegister(id, weight, region) => ApiRegisterExplains(c, s, id, weight, region, at, e);
    case Sweep(order) => SweepExplains(c, s, order, at, last, e);
    case Restart(order) => RestartExplains(c, t, order, at, e);
    case Update(_, _, _) => EditExplains(c, s, event, at, last, e);
    case Validate(_, _, _, _) => EditExplains(c, s, event, at, last, e);
    case SetOverride(_, _, _, _) => EditExplains(c, s, event, at, last, e);
    case ClearOverride(_) => EditExplains(c, s, event, at, last, e);
  }

  /** What was last said of the endpoint: by the configuration file at first, then at each event by
      a removal there or else by a backend that is announced there. */
  ghost predicate LastWord(c: Config, start: int, events: seq<(int, Event)>, e: Endpoint, told: Option<(int, string)>) {
    if events == [] then told == Shown(c.base, e)
    else
      var n := |events| - 1;
      var before, after := Run(c, Initial(c, start), events[..n]).sys, Run(c, Initial(c, start), events).sys;
      var voices := Voices(before, events[n].1, after, e);
      if Gone(before, after, e) then told.None?
      else if voices == {} then LastWord(c, start, events[..n], e, told)
      else exists id :: id in voices && told == OnRecord(after, id)
  }

  /** Over every run, restarts included, a configured domain shows an endpoint as it was last spoken
      of: with the weight and region that an announced backend had on record at that moment. */
  lemma {:induction false} ShownIsTheLastWord(c: Config, start: int, events: seq<(int, Event)>, e: Endpoint)
    requires ConfigOk(c) && Admissible(c, Initial(c, start), events)
    requires forall v :: v in events ==> CanonicalEvent(c, v.1)
    requires e.domain in c.base && c.parse(e.address) == Some(e.address)
    ensures Ready(c, Run(c, Initial(c, start), events).sys.domains, e)
    ensures LastWord(c, start, events, e, Shown(Run(c, Initial(c, start), events).sys.domains, e))
  {
    InitialHolds(c, start);
    if events != [] {
      var n := |events| - 1;
      RunSplits(c, start, events);
      ShownIsTheLastWord(c, start, events[..n], e);
      StepExplains(c, Run(c, Initial(c, start), events[..n]), events[n].0, events[n].1, e);
      hide Next, Inv, ConfigOk, Ready, Shown, Gone, Voices, CanonicalEvent, Initial;
    }
  }

  /** At every moment of the run at most one backend is registered at the endpoint. */
  ghost predicate OneBackend(c: Config, start: int, events: seq<(int, Event)>, e: Endpoint) {
    forall i :: 0 <= i <= |events| ==> OneAt(Run(c, Initial(c, start), events[..i]).sys, e)
  }

  ghost predicate OneAt(s: System, e: Endpoint) {
    forall id, k :: id in s.backends && k in s.backends && Home(id) == e && Home(k) == e ==> id == k
  }

  /** Then the last word is a single one, and so determines what DNS shows. */
  lemma {:induction false} LastWordIsUnique(c: Config, start: int, events: seq<(int, Event)>, e: Endpoint,
                                            a: Option<(int, string)>, b: Option<(int, string)>)
    requires OneBackend(c, start, events, e)
    requires LastWord(c, start, events, e, a) && LastWord(c, start, events, e, b)
    ensures a == b
  {
    if events != [] {
      var n := |events| - 1;
      assert events[..n + 1] == events;
      assert OneAt(Run(c, Initial(c, start), events[..n + 1]).sys, e);
      forall i | 0 <= i <= n ensures OneAt(Run(c, Initial(c, start), events[..n][..i]).sys, e) {
        assert events[..n][..i] == events[..i];
      }
      hide Run, Initial, Gone, Home;
      if LastWord(c, start, events[..n], e, a) && LastWord(c, start, events[..n], e, b) {
        LastWordIsUnique(c, start, events[..n], e, a, b);
      }
    }
  }

  /** Nothing has announced the endpoint since a backend there was last removed, or ever. */
  ghost predicate Silent(c: Config, start: int, events: seq<(int, Event)>, e: Endpoint) {
    if events == [] then !Present(c.base, e)
    else
      var n := |events| - 1;
      var before, after := Run(c, Initial(c, start), events[..n]).sys, Run(c, Initial(c, start), events).sys;
      || Gone(before, after, e)
      || (Voices(before, events[n].1, after, e) == {} && Silent(c, start, events[..n], e))
  }

  lemma {:induction false} SilentIsTheLastWord(c: Config, start: int, events: seq<(int, Event)>, e: Endpoint,
                                               told: Option<(int, string)>)
    requires LastWord(c, start, events, e, told)
    ensures told.None? <==> Silent(c, start, events, e)
  {
    if events != [] {
      hide Run, Initial, Gone;
      if LastWord(c, start, events[..|events| - 1], e, told) {
        SilentIsTheLastWord(c, start, events[..|events| - 1], e, told);
      }
    }
  }

  /** So it serves an endpoint exactly if something has announced it since the last removal there. */
  lemma ServedIffNotSilent(c: Config, start: int, events: seq<(int, Event)>, e: Endpoint)
    requires ConfigOk(c) && Admissible(c, Initial(c, start), events)
    requires forall v :: v in events ==> CanonicalEvent(c, v.1)
    requires e.domain in c.base && c.parse(e.address) == Some(e.address)
    ensures Ready(c, Run(c, Initial(c, start), events).sys.domains, e)
    ensures Present(Run(c, Initial(c, start), events).sys.domains, e) <==> !Silent(c, start, events, e)
  {
    ShownIsTheLastWord(c, start, events, e);
    SilentIsTheLastWord(c, start, events, e, Shown(Run(c, Initial(c, start), events).sys.domains, e));
  }

  /** In particular a live backend of a configured domain is served exactly if its endpoint is not
      silent. */
  lemma LiveBackendIsServedIffAnnounced(c: Config, start: int, events: seq<(int, Event)>, id: BackendId)
    requires ConfigOk(c) && Admissible(c, Initial(c, start), events)
    requires forall v :: v in events ==> CanonicalEvent(c, v.1)
    requires NormalizeDomain(id.service) in c.base && c.parse(id.address) == Some(id.address)
    requires id in Run(c, Initial(c, start), events).sys.backends
    ensures var d, name := Run(c, Initial(c, start), events).sys.domains, NormalizeDomain(id.service);
            && name in d
            && ((exists x :: x in d[name].servers && At(x, id.address, id.port))
                <==> !Silent(c, start, events, Home(id)))
  {
    ServedIffNotSilent(c, start, events, Home(id));
    var d := Run(c, Initial(c, start), events).sys.domains;
    FindFinds(d[NormalizeDomain(id.service)].servers, id.address, id.port);
  }

  /** A registration message alone announces nothing: the new backend is live, and not served until
      a heartbeat, a change of status or a restart. */
  lemma RegisteredBackendIsNotYetServed(c: Config, start: int, events: seq<(int, Event)>, at: int, agentId: string,
                                        region: string, r: Report)
    requires ConfigOk(c) && 0 <= c.staleThreshold && Admissible(c, Initial(c, start), events)
    requires forall v :: v in events ==> CanonicalEvent(c, v.1)
    requires Run(c, Initial(c, start), events).clock <= at
    requires NormalizeDomain(r.service) in c.base && c.parse(r.address) == Some(r.address)
    requires forall id :: id in Run(c, Initial(c, start), events).sys.backends ==> Home(id) != Home(ReportId(r))
    ensures var s := Run(c, Initial(c, start), events + [(at, RegisterMessage(agentId, region, r))]).sys;
            ReportId(r) in s.backends && !Present(s.domains, Home(ReportId(r)))
  {
    var t, e := Run(c, Initial(c, start), events), Home(ReportId(r));
    var all := events + [(at, RegisterMessage(agentId, region, r))];
    assert all[..|events|] == events;
    InitialHolds(c, start);
    RunKeeps(c, Initial(c, start), events);
    ServedIffNotSilent(c, start, events, e);
    if Present(t.sys.domains, e) {
      BackedWhereServed(c, t.sys.domains, t.sys.backends.Keys, e);
    }
    assert ReportId(r) !in t.sys.backends;
    SaveShows(c, t.sys, NewBackend(ReportId(r), r.weight, agentId, region, Agent, true, at, "", at), Some(Healthy),
        at, e);
  }
}
