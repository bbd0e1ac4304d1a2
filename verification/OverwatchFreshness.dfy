/** What the Overwatch remembers of a backend and when it calls it stale: each event by what it leaves
    on record, and over whole runs the backends that are heard of, forgotten or overridden. */
module OverwatchFreshness {
  import opened Prelude
  import opened Dns
  import opened Overwatch
  import opened OverwatchRuns
  import opened OverwatchListing
  import opened OverwatchHistory
  import LatencyEma

  // ---------------------------------------------------------------- what each event leaves on record

  /** Report i is the last one of the message about the backend. */
  predicate LastReport(reports: seq<Report>, i: int, id: BackendId) {
    && 0 <= i < |reports|
    && ReportId(reports[i]) == id
    && forall j :: i < j < |reports| ==> ReportId(reports[j]) != id
  }

  lemma {:induction false} LastReportIsLast(reports: seq<Report>, i: int, id: BackendId)
    requires LastReport(reports, i, id)
    ensures LastAbout(reports, id) == Some(reports[i])
  {
    if i < |reports| - 1 {
      LastReportIsLast(reports[..|reports| - 1], i, id);
    }
  }

  /** What an agent's word changes, and what it leaves alone. */
  ghost predicate HeardFrom(before: Option<Backend>, b: Backend, id: BackendId, agentId: string, region: string,
                            weight: int, healthy: bool, at: int)
  {
    && b.id == id && b.agentId == agentId && b.region == region && b.weight == weight
    && b.agentHealthy == healthy && b.lastSeen == at && b.updatedAt == at
    && (before.Some? ==>
          && b.source == before.value.source && b.createdAt == before.value.createdAt
          && b.validation == before.value.validation && b.manual == before.value.manual
          && b.latency == before.value.latency && b.checkType == before.value.checkType)
    && (before.None? ==>
          && b.source == Agent && b.createdAt == at && b.validation.healthy.None? && b.manual.status.None?
          && b.latency.samples == 0 && b.checkType == "")
  }

  /** A heartbeat leaves on every backend it reports what the last report about it says. */
  lemma HeartbeatRecords(c: Config, t: Timed, at: int, e: Event, i: int, id: BackendId)
    requires Inv(c, t) && Enabled(c, t, at, e) && e.Heartbeat? && LastReport(e.reports, i, id)
    ensures var after := Apply(c, t.sys, e, at).backends;
            && id in after
            && HeardFrom(OnFile(t.sys, id), after[id], id, e.agentId, e.region, e.reports[i].weight,
                         e.reports[i].healthy, at)
            && (e.drain.Some? ==> after[id].drain == e.drain.value)
            && (e.drain.None? && id in t.sys.backends ==> after[id].drain == t.sys.backends[id].drain)
            && (Quiet(after[id]) && 0 <= c.staleThreshold ==> after[id].status == Verdict(e.reports[i].healthy))
  {
    FiledInCore(c, t.sys, t.lastSweep);
    LastReportIsLast(e.reports, i, id);
    StepIsLocal(c, t, at, e, id);
    hide Inv, Enabled, Apply;
  }

  /** A heartbeat without a word of a backend leaves its record alone, but for the drain of its agent. */
  lemma HeartbeatSpares(c: Config, t: Timed, at: int, e: Event, id: BackendId)
    requires Inv(c, t) && Enabled(c, t, at, e) && e.Heartbeat? && id in t.sys.backends
    requires forall r :: r in e.reports ==> ReportId(r) != id
    ensures var before, after := t.sys.backends[id], Apply(c, t.sys, e, at).backends;
            && id in after
            && after[id].(status := before.status)
               == (if e.drain.Some? && before.agentId == e.agentId then before.(drain := e.drain.value) else before)
            && (e.drain.None? || before.agentId != e.agentId ==> after[id] == before)
  {
    NotReported(e.reports, id);
    StepIsLocal(c, t, at, e, id);
    hide Inv, Enabled, Apply;
  }

  lemma {:induction false} NotReported(reports: seq<Report>, id: BackendId)
    requires forall r :: r in reports ==> ReportId(r) != id
    ensures LastAbout(reports, id).None?
  {
    if reports != [] {
      assert reports[|reports| - 1] in reports;
      NotReported(reports[..|reports| - 1], id);
    }
  }

  lemma RegistrationRecords(c: Config, t: Timed, at: int, agentId: string, region: string, r: Report)
    requires Inv(c, t) && t.clock <= at
    ensures var id, after := ReportId(r), Apply(c, t.sys, RegisterMessage(agentId, region, r), at).backends;
            && id in after
            && HeardFrom(OnFile(t.sys, id), after[id], id, agentId, region, r.weight, true, at)
            && (id in t.sys.backends ==> after[id].drain == t.sys.backends[id].drain)
            && (Quiet(after[id]) && 0 <= c.staleThreshold ==> after[id].status == Healthy)
  {
    FiledInCore(c, t.sys, t.lastSweep);
    StepIsLocal(c, t, at, RegisterMessage(agentId, region, r), ReportId(r));
    hide Inv, Apply;
  }

  /** A validation is recorded as it was made, and decides the status unless an operator or a drain
      does; only a healthy one with a positive latency is measured. */
  lemma ValidationRecords(c: Config, t: Timed, at: int, id: BackendId, healthy: bool, error: string, latency: int)
    requires Inv(c, t) && t.clock <= at && id in t.sys.backends
    ensures var before, after := t.sys.backends[id],
              Apply(c, t.sys, Validate(id, healthy, error, latency), at).backends;
            && id in after
            && after[id] == before.(validation := Validation(Some(healthy), at, error), latency := after[id].latency,
                                    status := after[id].status)
            && after[id].latency.samples == before.latency.samples + (if healthy && 0 < latency then 1 else 0)
            && (healthy && 0 < latency ==> after[id].latency.last == latency)
            && (!healthy || latency <= 0 ==> after[id].latency == before.latency)
            && (before.manual.status.None? && !before.drain.active ==>
                  after[id].status == if healthy then Healthy else Unhealthy)
  {
    FiledInCore(c, t.sys, t.lastSweep);
    StepIsLocal(c, t, at, Validate(id, healthy, error, latency), id);
    hide Inv, Apply;
  }

  /** An operator's word is recorded as it was given, and decides the status. */
  lemma OverrideRecords(c: Config, t: Timed, at: int, id: BackendId, healthy: bool, reason: string, author: string)
    requires Inv(c, t) && t.clock <= at && id in t.sys.backends
    ensures var before, after := t.sys.backends[id],
              Apply(c, t.sys, SetOverride(id, healthy, reason, author), at).backends;
            && id in after
            && after[id] == before.(manual := after[id].manual, status := if healthy then Healthy else Unhealthy)
            && after[id].manual.status == Some(healthy) && after[id].manual.reason == reason
            && after[id].manual.author == author && after[id].manual.at == at
  {
    FiledInCore(c, t.sys, t.lastSweep);
    StepIsLocal(c, t, at, SetOverride(id, healthy, reason, author), id);
    hide Inv, Apply;
  }

  /** Clearing it leaves the rest of the record, and the status to the next authority. */
  lemma ClearedOverrideRecords(c: Config, t: Timed, at: int, id: BackendId)
    requires Inv(c, t) && t.clock <= at && id in t.sys.backends
    ensures var before, after := t.sys.backends[id], Apply(c, t.sys, ClearOverride(id), at).backends;
            && id in after
            && after[id].manual.status.None?
            && (before.manual.status.None? ==> after[id] == before)
            && after[id] == before.(manual := after[id].manual, status := after[id].status)
            && (before.manual.status.Some? ==>
                  after[id].manual == ManualOverride(None, "", "", 0)
                  && (after[id].status == Stale ==> before.source == Agent && at - before.lastSeen > c.staleThreshold))
  {
    FiledInCore(c, t.sys, t.lastSweep);
    StepIsLocal(c, t, at, ClearOverride(id), id);
    hide Inv, Apply;
  }

  /** A backend registered through the API is new, healthy and seen at that moment. */
  lemma ApiRegistrationRecords(c: Config, t: Timed, at: int, id: BackendId, weight: int, region: string)
    requires Inv(c, t) && t.clock <= at
    ensures var after := Apply(c, t.sys, ApiRegister(id, weight, region), at).backends;
            && id in after
            && (id in t.sys.backends ==> after[id] == t.sys.backends[id])
            && (id !in t.sys.backends ==>
                  && after[id].weight == weight && after[id].region == region && after[id].source == Api
                  && after[id].lastSeen == at && after[id].createdAt == at && after[id].status == Healthy
                  && after[id].manual.status.None? && after[id].validation.healthy.None? && !after[id].drain.active)
  {
    StepIsLocal(c, t, at, ApiRegister(id, weight, region), id);
    hide Inv, Apply;
  }

  /** A configured server overwrites weight, region and check type of a known backend and no more. */
  lemma StaticRegistrationRecords(c: Config, t: Timed, at: int, p: Placed)
    requires Inv(c, t) && t.clock <= at
    ensures var id, after := PlacedId(p), Apply(c, t.sys, StaticRegister(p), at).backends;
            && id in after
            && after[id].weight == p.server.weight && after[id].region == p.region && after[id].updatedAt == at
            && after[id].checkType == (if p.checkType == "" then "http" else p.checkType)
            && (id in t.sys.backends ==>
                  var before := t.sys.backends[id];
                  after[id] == before.(weight := after[id].weight, region := after[id].region, updatedAt := at,
                                       checkType := after[id].checkType, status := after[id].status))
            && (id !in t.sys.backends ==> after[id].source == Static && after[id].status == Healthy)
  {
    StepIsLocal(c, t, at, StaticRegister(p), PlacedId(p));
    hide Inv, Apply;
  }

  lemma UpdateRecords(c: Config, t: Timed, at: int, id: BackendId, weight: int, region: string)
    requires Inv(c, t) && t.clock <= at && id in t.sys.backends
    ensures var before, after := t.sys.backends[id], Apply(c, t.sys, Update(id, weight, region), at).backends;
            && id in after && after[id].weight == weight && after[id].region == region && after[id].updatedAt == at
            && after[id] == before.(weight := weight, region := region, updatedAt := at, status := after[id].status)
  {
    FiledInCore(c, t.sys, t.lastSweep);
    StepIsLocal(c, t, at, Update(id, weight, region), id);
    hide Inv, Apply;
  }

  // ---------------------------------------------------------------- when a backend is stale

  /** Nothing but silence makes a backend stale. */
  predicate Fresh(c: Config, b: Backend, now: int) {
    b.status == Stale ==> Quiet(b) && now - b.lastSeen > c.staleThreshold
  }

  lemma FreshAfter(c: Config, before: Option<Backend>, id: BackendId, e: Event, at: int, clock: int)
    requires clock <= at && (before.Some? ==> Fresh(c, before.value, clock))
    ensures Left(c, before, id, e, at).Some? ==> Fresh(c, Left(c, before, id, e, at).value, at)
  {
    hide HeardIn, Heard, LastAbout, LastPlaced, Edited, ReportId, NewFrom;
    if e.Heartbeat? {
      HeardIsJudged(c, before, id, e.agentId, e.region, e.reports, at);
    } else if e.RegisterMessage? {
      HeardOneIsJudged(c, before, id, e.agentId, e.region, e.report.weight, true, at);
    }
  }

  lemma HeardOneIsJudged(c: Config, before: Option<Backend>, id: BackendId, agentId: string, region: string,
                         weight: int, healthy: bool, at: int)
    ensures Fresh(c, Heard(c, before, id, agentId, region, weight, healthy, at), at)
  {
  }

  lemma HeardIsJudged(c: Config, before: Option<Backend>, id: BackendId, agentId: string, region: string,
                      reports: seq<Report>, at: int)
    ensures var r := HeardIn(c, before, id, agentId, region, reports, at);
            r == before || (r.Some? && Fresh(c, r.value, at))
  {
  }

  lemma {:induction false} HistoryIsFresh(c: Config, start: int, events: seq<(int, Event)>, id: BackendId)
    requires ConfigOk(c) && Admissible(c, Initial(c, start), events)
    requires forall v :: v in events ==> CanonicalEvent(c, v.1)
    ensures var b := History(c, start, events, id);
            b.Some? ==> Fresh(c, b.value, Run(c, Initial(c, start), events).clock)
  {
    if events != [] {
      var n := |events| - 1;
      RunSplits(c, start, events);
      HistoryIsFresh(c, start, events[..n], id);
      FreshAfter(c, History(c, start, events[..n], id), id, events[n].1, events[n].0,
          Run(c, Initial(c, start), events[..n]).clock);
      hide Left, Fresh, Initial, Apply;
    }
  }

  /** Over every run a backend is stale only if it is an agent's, nobody of higher authority has spoken
      for it, and it has been silent for longer than the threshold. */
  lemma StaleMeansSilent(c: Config, start: int, events: seq<(int, Event)>, id: BackendId)
    requires ConfigOk(c) && Admissible(c, Initial(c, start), events)
    requires forall v :: v in events ==> CanonicalEvent(c, v.1)
    requires var s := Run(c, Initial(c, start), events).sys; id in s.backends && s.backends[id].status == Stale
    ensures var t := Run(c, Initial(c, start), events);
            Quiet(t.sys.backends[id]) && t.clock - t.sys.backends[id].lastSeen > c.staleThreshold
  {
    RunIsLocal(c, start, events, id);
    HistoryIsFresh(c, start, events, id);
  }

  /** In every reachable state the status of every backend is that of the highest authority that has
      spoken for it: operator, drain, the Overwatch's own validation, and only then the agent; and it
      outlasts the agent's word only by silence. */
  lemma HighestAuthorityDecides(c: Config, start: int, events: seq<(int, Event)>, id: BackendId)
    requires ConfigOk(c) && Admissible(c, Initial(c, start), events)
    requires forall v :: v in events ==> CanonicalEvent(c, v.1)
    requires id in Run(c, Initial(c, start), events).sys.backends
    ensures var t := Run(c, Initial(c, start), events);
            var b := t.sys.backends[id];
            AuthorityDecides(b) && (b.status == Stale ==> t.clock - b.lastSeen > c.staleThreshold)
  {
    InitialHolds(c, start);
    RunKeeps(c, Initial(c, start), events);
    var t := Run(c, Initial(c, start), events);
    assert StatusOk(c, t.sys.backends[id], t.lastSweep);
    if t.sys.backends[id].status == Stale {
      StaleMeansSilent(c, start, events, id);
    }
  }

  /** Right after a sweep the converse holds as well: a quiet backend is stale exactly if it has been
      silent for longer than the threshold, and otherwise as healthy as its agent said. */
  lemma SweepJudges(c: Config, t: Timed, at: int, order: seq<BackendId>, id: BackendId)
    requires Inv(c, t) && Enabled(c, t, at, Sweep(order))
    ensures var after := Apply(c, t.sys, Sweep(order), at).backends;
            && (id in after <==> id in t.sys.backends
                                 && (t.sys.backends[id].source == Static
                                     || at - t.sys.backends[id].lastSeen <= c.removeAfter))
            && (id in after && Quiet(after[id]) ==>
                  && (after[id].status == Stale <==> at - after[id].lastSeen > c.staleThreshold)
                  && (after[id].status != Stale ==> after[id].status == if after[id].agentHealthy then Healthy
                      else Unhealthy))
            && (id in after ==> after[id] == t.sys.backends[id].(status := after[id].status))
  {
    StepIsLocal(c, t, at, Sweep(order), id);
    hide Inv, Apply;
  }

  // ---------------------------------------------------------------- backends that are heard of

  predicate Hears(e: Event, id: BackendId) {
    match e
    case Heartbeat(_, _, reports, _, _) => exists r :: r in reports && ReportId(r) == id
    case RegisterMessage(_, _, r) => ReportId(r) == id
    case _ => false
  }

  lemma {:induction false} ReportedIsFound(reports: seq<Report>, id: BackendId, r: Report)
    requires r in reports && ReportId(r) == id
    ensures LastAbout(reports, id).Some?
  {
    var last := reports[|reports| - 1];
    if ReportId(last) != id {
      assert reports == reports[..|reports| - 1] + [last];
      ReportedIsFound(reports[..|reports| - 1], id, r);
    }
  }

  /** Seen at that time or later, if it matters. */
  predicate SeenSince(b: Option<Backend>, at: int) {
    b.Some? && (b.value.source != Static ==> at <= b.value.lastSeen)
  }

  lemma HearingIsSeeing(c: Config, before: Option<Backend>, id: BackendId, e: Event, at: int)
    requires Hears(e, id)
    ensures SeenSince(Left(c, before, id, e, at), at)
  {
    if e.Heartbeat? {
      var r :| r in e.reports && ReportId(r) == id;
      ReportedIsFound(e.reports, id, r);
    }
    hide LastAbout;
  }

  lemma SeenStays(c: Config, before: Option<Backend>, id: BackendId, e: Event, at: int, since: int)
    requires SeenSince(before, since) && before.value.id == id && since <= at && e != DeregisterMessage(id)
    requires at - since <= c.removeAfter
    ensures SeenSince(Left(c, before, id, e, at), since)
  {
    hide LastAbout, LastPlaced;
  }

  lemma {:induction false} HistoryIsFiled(c: Config, start: int, events: seq<(int, Event)>, id: BackendId)
    ensures History(c, start, events, id).Some? ==> History(c, start, events, id).value.id == id
  {
    if events != [] {
      HistoryIsFiled(c, start, events[..|events| - 1], id);
      hide LastAbout, LastPlaced;
    }
  }

  /** No event after the n-th forgets the backend or comes more than `within` later. */
  predicate Undisturbed(events: seq<(int, Event)>, n: int, id: BackendId, within: int) {
    && 0 <= n < |events|
    && forall j :: n < j < |events| ==>
         events[j].1 != DeregisterMessage(id) && 0 <= events[j].0 - events[n].0 <= within
  }

  lemma {:induction false} HeardIsSeenSince(c: Config, start: int, events: seq<(int, Event)>, n: nat, id: BackendId)
    requires Undisturbed(events, n, id, c.removeAfter) && Hears(events[n].1, id)
    ensures SeenSince(History(c, start, events, id), events[n].0)
  {
    var last := |events| - 1;
    var before := History(c, start, events[..last], id);
    hide Left, SeenSince;
    if n == last {
      HearingIsSeeing(c, before, id, events[n].1, events[n].0);
    } else {
      assert forall j :: 0 <= j < last ==> events[..last][j] == events[j];
      HeardIsSeenSince(c, start, events[..last], n, id);
      HistoryIsFiled(c, start, events[..last], id);
      SeenStaysAsFiled(c, before, id, events[last].1, events[last].0, events[n].0);
    }
  }

  lemma {:induction false} ClocksGrow(c: Config, t: Timed, events: seq<(int, Event)>, n: nat, j: nat)
    requires Admissible(c, t, events) && n <= j < |events|
    ensures events[n].0 <= events[j].0 <= Run(c, t, events).clock
    decreases |events|, j
  {
    var last := |events| - 1;
    hide Apply, WalksCover;
    if j < last {
      AdmissibleUpTo(c, t, events, last);
      ClocksGrow(c, t, events[..last], n, j);
      assert Enabled(c, Run(c, t, events[..last]), events[last].0, events[last].1);
    } else if n < last {
      ClocksGrow(c, t, events, n, last - 1);
    }
  }

  lemma SeenStaysAsFiled(c: Config, before: Option<Backend>, id: BackendId, e: Event, at: int, since: int)
    requires SeenSince(before, since) && (before.Some? ==> before.value.id == id)
    requires since <= at && e != DeregisterMessage(id) && at - since <= c.removeAfter
    ensures SeenSince(Left(c, before, id, e, at), since)
  {
    SeenStays(c, before, id, e, at, since);
  }

  /** Over every run, restarts and sweeps included: a backend that a heartbeat or a registration has
      spoken of within the threshold, and that has not been deregistered since, is there, and it is
      not stale. */
  lemma HeardBackendsStay(c: Config, start: int, events: seq<(int, Event)>, n: nat, id: BackendId)
    requires ConfigOk(c) && Admissible(c, Initial(c, start), events) && c.staleThreshold <= c.removeAfter
    requires forall v :: v in events ==> CanonicalEvent(c, v.1)
    requires n < |events| && Hears(events[n].1, id)
    requires forall j :: n < j < |events| ==> events[j].1 != DeregisterMessage(id)
    requires Run(c, Initial(c, start), events).clock - events[n].0 <= c.staleThreshold
    ensures var s := Run(c, Initial(c, start), events).sys; id in s.backends && s.backends[id].status != Stale
  {
    forall j | n <= j < |events| ensures events[n].0 <= events[j].0 <= Run(c, Initial(c, start), events).clock {
      ClocksGrow(c, Initial(c, start), events, n, j);
    }
    HeardIsSeenSince(c, start, events, n, id);
    RunIsLocal(c, start, events, id);
    HistoryIsFresh(c, start, events, id);
    hide Run, History, Initial;
  }

  // ---------------------------------------------------------------- overrides over a run

  /** The event leaves an override of the backend in place, if the backend stays at all. */
  predicate LeavesOverride(c: Config, e: Event, id: BackendId) {
    match e
    case SetOverride(k, _, _, _) => k != id
    case ClearOverride(k) => k != id
    case Restart(_) => id !in PlacedIds(c.statics)
    case _ => true
  }

  predicate Overridden(b: Option<Backend>, healthy: bool) {
    b.Some? && b.value.manual.status == Some(healthy) && b.value.status == Verdict(healthy)
  }

  lemma OverrideStays(c: Config, before: Option<Backend>, id: BackendId, e: Event, at: int, healthy: bool)
    requires Overridden(before, healthy) && before.value.id == id && LeavesOverride(c, e, id)
    requires Left(c, before, id, e, at).Some?
    ensures Overridden(Left(c, before, id, e, at), healthy)
  {
    PlacedIsLast(c.statics, id);
    hide LastAbout, LastPlaced;
  }

  lemma {:induction false} HistoryKeepsOverride(c: Config, start: int, events: seq<(int, Event)>, n: nat,
                                                id: BackendId, healthy: bool)
    requires n < |events| && events[n].1.SetOverride? && events[n].1.id == id && events[n].1.healthy == healthy
    requires forall j :: n < j < |events| ==> LeavesOverride(c, events[j].1, id)
    requires forall j :: n < j <= |events| ==> History(c, start, events[..j], id).Some?
    ensures Overridden(History(c, start, events, id), healthy)
  {
    var last := |events| - 1;
    var before := History(c, start, events[..last], id);
    assert events[..last + 1] == events;
    assert History(c, start, events[..last + 1], id).Some?;
    HistoryIsFiled(c, start, events[..last], id);
    hide LeavesOverride, LastAbout, LastPlaced;
    if n < last {
      assert forall j :: 0 <= j <= last ==> events[..last][..j] == events[..j];
      HistoryKeepsOverride(c, start, events[..last], n, id, healthy);
      OverrideStays(c, before, id, events[last].1, events[last].0, healthy);
    } else {
      OverrideIsSet(c, before, id, events[n].1, events[n].0);
    }
  }

  lemma OverrideIsSet(c: Config, before: Option<Backend>, id: BackendId, e: Event, at: int)
    requires e.SetOverride? && e.id == id && (before.Some? ==> before.value.id == id)
    requires Left(c, before, id, e, at).Some?
    ensures Overridden(Left(c, before, id, e, at), e.healthy)
  {
  }

  lemma AdmissibleUpTo(c: Config, t: Timed, events: seq<(int, Event)>, j: nat)
    requires Admissible(c, t, events) && j <= |events|
    ensures Admissible(c, t, events[..j])
  {
    forall i | 0 <= i < j ensures Enabled(c, Run(c, t, events[..j][..i]), events[..j][i].0, events[..j][i].1) {
      assert events[..j][..i] == events[..i];
    }
  }

  /** Whatever agents, validations and drains say, and across restarts unless the backend is
      configured: once overridden, a backend that stays registered keeps the operator's status. */
  lemma OverrideHolds(c: Config, start: int, events: seq<(int, Event)>, n: nat, id: BackendId, healthy: bool)
    requires ConfigOk(c) && Admissible(c, Initial(c, start), events)
    requires forall v :: v in events ==> CanonicalEvent(c, v.1)
    requires n < |events| && events[n].1.SetOverride? && events[n].1.id == id && events[n].1.healthy == healthy
    requires forall j :: n < j < |events| ==> LeavesOverride(c, events[j].1, id)
    requires forall j :: n < j <= |events| ==> id in Run(c, Initial(c, start), events[..j]).sys.backends
    ensures Overridden(OnFile(Run(c, Initial(c, start), events).sys, id), healthy)
  {
    forall j | n < j <= |events| ensures History(c, start, events[..j], id).Some? {
      AdmissibleUpTo(c, Initial(c, start), events, j);
      assert forall v :: v in events[..j] ==> v in events;
      RunIsLocal(c, start, events[..j], id);
    }
    RunIsLocal(c, start, events, id);
    HistoryKeepsOverride(c, start, events, n, id, healthy);
  }
}
