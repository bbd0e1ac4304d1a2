/** The latency table over whole runs: its bound, and the flat map it stands for. */
module LatencyRuns {
  import opened Prelude
  import opened LatencyTable

  datatype Event =
    | Report(agent: string, region: string, backend: string, samples: seq<Sample>, victims: seq<Prefix>)
    | Prune
    | Clear

  function Apply(c: Limits, d: Data, e: Event, now: int): Data {
    match e
    case Report(agent, region, backend, samples, victims) =>
      if |victims| == |samples| then StoredAll(c, d, victims, agent, region, backend, samples, now) else d
    case Prune => Pruned(c, d, now)
    case Clear => map[]
  }

  function Run(c: Limits, d: Data, events: seq<(int, Event)>): Data {
    if events == [] then d
    else Apply(c, Run(c, d, events[..|events| - 1]), events[|events| - 1].1, events[|events| - 1].0)
  }

  /** The evictions of the report are those the table makes. */
  ghost predicate Enabled(c: Limits, d: Data, e: Event, now: int) {
    e.Report? ==> |e.victims| == |e.samples| && EvictsOldest(c, d, e.victims, e.agent, e.region, e.backend,
        e.samples, now)
  }

  ghost predicate Admissible(c: Limits, d: Data, events: seq<(int, Event)>) {
    forall i :: 0 <= i < |events| ==> Enabled(c, Run(c, d, events[..i]), events[i].1, events[i].0)
  }

  lemma AdmissiblePrefix(c: Limits, d: Data, events: seq<(int, Event)>)
    requires Admissible(c, d, events) && events != []
    ensures Admissible(c, d, events[..|events| - 1])
    ensures Enabled(c, Run(c, d, events[..|events| - 1]), events[|events| - 1].1, events[|events| - 1].0)
  {
    var before := events[..|events| - 1];
    forall i | 0 <= i < |before| ensures Enabled(c, Run(c, d, before[..i]), before[i].1, before[i].0) {
      assert before[..i] == events[..i];
    }
  }

  lemma EvictsOldestPrefix(c: Limits, d: Data, victims: seq<Prefix>, agent: string, region: string, backend: string,
                           samples: seq<Sample>, now: int)
    requires |victims| == |samples| && samples != []
               && EvictsOldest(c, d, victims, agent, region, backend, samples, now)
    ensures var last := |samples| - 1;
            && EvictsOldest(c, d, victims[..last], agent, region, backend, samples[..last], now)
            && EvictsOldestAt(c, StoredAll(c, d, victims[..last], agent, region, backend, samples[..last], now),
                victims[last], samples[last])
  {
    var last := |samples| - 1;
    var vs, ss := victims[..last], samples[..last];
    forall k | 0 <= k < last ensures EvictsOldestAt(c,
        StoredAll(c, d, vs[..k], agent, region, backend, ss[..k], now), vs[k], ss[k]) {
      assert vs[..k] == victims[..k] && ss[..k] == samples[..k];
    }
  }

  // ---------------------------------------------------------------- the bound

  ghost predicate Bounded(c: Limits, d: Data) {
    |d| <= (if c.maxEntries >= 1 then c.maxEntries else 1) && forall p :: p in d ==> d[p] != map[]
  }

  lemma SizeAfterWrite(d: Data, p: Prefix, inner: map<string, Entry>)
    ensures |d[p := inner]| == if p in d then |d| else |d| + 1
  {
    assert d[p := inner].Keys == d.Keys + {p};
    assert |d[p := inner]| == |d[p := inner].Keys| && |d| == |d.Keys|;
  }

  lemma SizeAfterEviction(d: Data, victim: Prefix)
    ensures |d - {victim}| == if victim in d then |d| - 1 else |d|
  {
    assert (d - {victim}).Keys == d.Keys - {victim};
    assert |d - {victim}| == |(d - {victim}).Keys| && |d| == |d.Keys|;
  }

  lemma WriteKeepsBound(c: Limits, room: Data, p: Prefix, inner: map<string, Entry>)
    requires Bounded(c, room) && inner != map[] && (p in room || |room| < c.maxEntries || |room| == 0)
    ensures Bounded(c, room[p := inner])
  {
    SizeAfterWrite(room, p, inner);
  }

  lemma StoredKeepsBound(c: Limits, d: Data, victim: Prefix, agent: string, region: string, backend: string,
                         s: Sample, now: int)
    requires Bounded(c, d) && EvictsOldestAt(c, d, victim, s)
    ensures Bounded(c, Stored(c, d, victim, agent, region, backend, s, now))
  {
    if s.prefix.Some? {
      var p := s.prefix.value;
      var room := if Full(c, d, p) then d - {victim} else d;
      var inner := Written(Subnet(room, p), agent, region, backend, s, now);
      assert EntryKey(backend, region) in inner;
      SizeAfterEviction(d, victim);
      WriteKeepsBound(c, room, p, inner);
    }
  }

  lemma {:induction false} StoredAllKeepsBound(c: Limits, d: Data, victims: seq<Prefix>, agent: string,
                                               region: string, backend: string, samples: seq<Sample>, now: int)
    requires Bounded(c, d) && |victims| == |samples|
               && EvictsOldest(c, d, victims, agent, region, backend, samples, now)
    ensures Bounded(c, StoredAll(c, d, victims, agent, region, backend, samples, now))
  {
    if samples != [] {
      var last := |samples| - 1;
      EvictsOldestPrefix(c, d, victims, agent, region, backend, samples, now);
      StoredAllKeepsBound(c, d, victims[..last], agent, region, backend, samples[..last], now);
      StoredKeepsBound(c, StoredAll(c, d, victims[..last], agent, region, backend, samples[..last], now),
          victims[last], agent, region, backend, samples[last], now);
    }
  }

  lemma {:induction false} SmallerSet<T>(a: set<T>, b: set<T>)
    requires a <= b
    ensures |a| <= |b|
  {
    if a != {} {
      var x :| x in a;
      SmallerSet(a - {x}, b - {x});
    }
  }

  /** In every run the table holds at most MaxEntries subnets (one, for a limit below one), and
      never a subnet without entries. */
  lemma {:induction false} TableStaysBounded(c: Limits, d: Data, events: seq<(int, Event)>)
    requires Bounded(c, d) && Admissible(c, d, events)
    ensures Bounded(c, Run(c, d, events))
  {
    if events != [] {
      var before, now, e := events[..|events| - 1], events[|events| - 1].0, events[|events| - 1].1;
      AdmissiblePrefix(c, d, events);
      TableStaysBounded(c, d, before);
      var m := Run(c, d, before);
      match e
      case Report(agent, region, backend, samples, victims) =>
          StoredAllKeepsBound(c, m, victims, agent, region, backend, samples, now);
      case Prune =>
        SmallerSet(Pruned(c, m, now).Keys, m.Keys);
        assert |Pruned(c, m, now)| == |Pruned(c, m, now).Keys| && |m| == |m.Keys|;
      case Clear =>
    }
  }

  // ---------------------------------------------------------------- the flat map

  type Flat = map<(Prefix, string, string), Entry>

  function Prefixes(f: Flat): set<Prefix> {
    set t | t in f :: t.0
  }

  function FlatStored(c: Limits, f: Flat, victim: Prefix, agent: string, region: string, backend: string, s: Sample,
                      now: int): Flat
  {
    if s.prefix.None? then f
    else
      var p := s.prefix.value;
      var room := if p !in Prefixes(f) && |Prefixes(f)| >= c.maxEntries
          then (map t | t in f && t.0 != victim :: f[t]) else f;
      room[(p, backend, region) := Entry(backend, region, s.ewma, s.samples, now, agent)]
  }

  function FlatStoredAll(c: Limits, f: Flat, victims: seq<Prefix>, agent: string, region: string, backend: string,
                         samples: seq<Sample>, now: int): Flat
    requires |victims| == |samples|
  {
    if samples == [] then f
    else
      var last := |samples| - 1;
      FlatStored(c, FlatStoredAll(c, f, victims[..last], agent, region, backend, samples[..last], now),
          victims[last], agent, region, backend, samples[last], now)
  }

  function FlatApply(c: Limits, f: Flat, e: Event, now: int): Flat {
    match e
    case Report(agent, region, backend, samples, victims) =>
      if |victims| == |samples| then FlatStoredAll(c, f, victims, agent, region, backend, samples, now) else f
    case Prune => map t | t in f && now - f[t].updated <= c.ttl :: f[t]
    case Clear => map[]
  }

  function FlatRun(c: Limits, f: Flat, events: seq<(int, Event)>): Flat {
    if events == [] then f
    else FlatApply(c, FlatRun(c, f, events[..|events| - 1]), events[|events| - 1].1, events[|events| - 1].0)
  }

  predicate PipeFree(backend: string) {
    '|' !in backend
  }

  lemma EntryKeyInjective(a: string, r: string, b: string, q: string)
    requires PipeFree(a) && PipeFree(b) && EntryKey(a, r) == EntryKey(b, q)
    ensures a == b && r == q
  {
    var k := EntryKey(a, r);
    assert k[|a|] == '|' && k[|b|] == '|';
    assert forall i :: 0 <= i < |a| ==> k[i] == a[i] && a[i] in a;
    assert forall i :: 0 <= i < |b| ==> k[i] == b[i] && b[i] in b;
    assert |a| == |b|;
    assert a == k[..|a|] && b == k[..|b|] && r == k[|a| + 1..] && q == k[|b| + 1..];
  }

  /** A pair of names shares its key with another pair exactly if one of them has a '|'. */
  lemma CollidesIffPiped(s: string, r: string)
    ensures (exists b, q :: (b, q) != (s, r) && EntryKey(b, q) == EntryKey(s, r)) <==> '|' in s || '|' in r
  {
    var key := EntryKey(s, r);
    if '|' in s {
      var i :| 0 <= i < |s| && s[i] == '|';
      var b, q := s[..i], s[i + 1..] + "|" + r;
      assert s == b + "|" + s[i + 1..];
      assert EntryKey(b, q) == key && |b| < |s|;
    } else if '|' in r {
      var i :| 0 <= i < |r| && r[i] == '|';
      var b, q := s + "|" + r[..i], r[i + 1..];
      assert r == r[..i] + "|" + q;
      assert EntryKey(b, q) == key && |b| > |s|;
    } else {
      forall b, q | EntryKey(b, q) == key ensures (b, q) == (s, r) {
        assert key[|b|] == '|' == key[|s|];
        assert forall i :: 0 <= i < |s| ==> key[i] == s[i] && s[i] in s;
        assert forall i :: |s| < i < |key| ==> key[i] == r[i - |s| - 1] && r[i - |s| - 1] in r;
        assert |b| == |s| && b == key[..|s|] == s && q == key[|s| + 1..] == r;
      }
    }
  }

  lemma StoredHere(c: Limits, d: Data, victim: Prefix, agent: string, region: string, backend: string, s: Sample,
                   now: int, p: Prefix)
    requires s.prefix == Some(p)
    ensures var r := Stored(c, d, victim, agent, region, backend, s, now);
            p in r && r[p] == Written(Subnet(d, p), agent, region, backend, s, now)
  {
  }

  lemma SameBackendSameRegion(b: string, r: string, q: string)
    requires EntryKey(b, q) == EntryKey(b, r)
    ensures q == r
  {
    assert EntryKey(b, q)[|b| + 1..] == q && EntryKey(b, r)[|b| + 1..] == r;
  }

  /** Whenever two pairs share a key, a report for the second after the first is lost to its own
      backend: the lookup for that backend finds nothing, and the lookup for the first pair answers
      with the second's measurement and region. */
  lemma CollidingReportIsLost(c: Limits, d: Data, p: Prefix, s: string, r: string, b: string, q: string,
                              first: Sample, second: Sample, victims: (Prefix, Prefix), agents: (string, string),
                              times: (int, int), now: int)
    requires EntryKey(b, q) == EntryKey(s, r) && (b, q) != (s, r)
    requires first.prefix == second.prefix == Some(p) && now - times.1 <= c.ttl
    requires EntryKey(s, r) !in Subnet(d, p) && forall key :: key in Subnet(d, p) ==> d[p][key].backend != b
    ensures var after := Stored(c, Stored(c, d, victims.0, agents.0, r, s, first, times.0),
                                victims.1, agents.1, q, b, second, times.1);
            && (forall answer :: FastestFor(c, after, p, b, now, answer) <==> answer.None?)
            && InRegion(c, after, p, s, r, now) == Some(Entry(s, q, second.ewma, second.samples, times.1, agents.1))
  {
    if b == s {
      SameBackendSameRegion(s, r, q);
    }
    var before := Stored(c, d, victims.0, agents.0, r, s, first, times.0);
    var after := Stored(c, before, victims.1, agents.1, q, b, second, times.1);
    StoredHere(c, d, victims.0, agents.0, r, s, first, times.0, p);
    StoredHere(c, before, victims.1, agents.1, q, b, second, times.1, p);
    hide Stored, EntryKey;
    assert forall key :: key in after[p] && key != EntryKey(s, r) ==> key in Subnet(d, p) && after[p][key] == d[p][key];
    assert FastestFor(c, after, p, b, now, None);
  }

  predicate Filed(p: Prefix, key: string, e: Entry, f: Flat) {
    PipeFree(e.backend) && key == EntryKey(e.backend, e.region) && (p, e.backend, e.region) in f
        && f[(p, e.backend, e.region)] == e
  }

  predicate Found(t: (Prefix, string, string), e: Entry, d: Data) {
    PipeFree(t.1) && t.0 in d && EntryKey(t.1, t.2) in d[t.0] && d[t.0][EntryKey(t.1, t.2)] == e
  }

  /** The nested table and the flat map hold the same entries. */
  ghost predicate Refines(d: Data, f: Flat) {
    && (forall p, key :: p in d && key in d[p] ==> Filed(p, key, d[p][key], f))
    && (forall t :: t in f ==> Found(t, f[t], d))
  }

  lemma SamePrefixes(d: Data, f: Flat)
    requires Refines(d, f) && forall p :: p in d ==> d[p] != map[]
    ensures Prefixes(f) == d.Keys
  {
    forall p | p in d ensures p in Prefixes(f) {
      assert d[p] != map[];
      var key :| key in d[p];
      assert Filed(p, key, d[p][key], f);
    }
    forall p | p in Prefixes(f) ensures p in d {
      var t :| t in f && t.0 == p;
      assert Found(t, f[t], d);
    }
  }

  lemma EvictionRefines(d: Data, f: Flat, victim: Prefix)
    requires Refines(d, f)
    ensures Refines(d - {victim}, map t | t in f && t.0 != victim :: f[t])
  {
    var r := map t | t in f && t.0 != victim :: f[t];
    forall p, key | p in d - {victim} && key in d[p] ensures Filed(p, key, d[p][key], r) {
      assert Filed(p, key, d[p][key], f);
    }
    forall t | t in r ensures Found(t, r[t], d - {victim}) {
      assert Found(t, f[t], d);
    }
  }

  lemma WriteRefines(d: Data, f: Flat, p: Prefix, agent: string, region: string, backend: string, s: Sample, now: int)
    requires Refines(d, f) && PipeFree(backend)
    ensures Refines(d[p := Written(Subnet(d, p), agent, region, backend, s, now)],
                    f[(p, backend, region) := Entry(backend, region, s.ewma, s.samples, now, agent)])
  {
    var key := EntryKey(backend, region);
    var inner := Subnet(d, p);
    if key in inner {
      assert Filed(p, key, inner[key], f);
      EntryKeyInjective(inner[key].backend, inner[key].region, backend, region);
    }
    var d' := d[p := Written(inner, agent, region, backend, s, now)];
    var f' := f[(p, backend, region) := Entry(backend, region, s.ewma, s.samples, now, agent)];
    forall q, k | q in d' && k in d'[q] ensures Filed(q, k, d'[q][k], f') {
      if q != p || k != key {
        assert Filed(q, k, d[q][k], f);
      }
    }
    forall t | t in f' ensures Found(t, f'[t], d') {
      if t != (p, backend, region) {
        assert Found(t, f[t], d);
        if t.0 == p && EntryKey(t.1, t.2) == key {
          EntryKeyInjective(t.1, t.2, backend, region);
        }
      }
    }
  }

  lemma {:induction false} StoredAllRefines(c: Limits, d: Data, f: Flat, victims: seq<Prefix>, agent: string,
                                            region: string, backend: string, samples: seq<Sample>, now: int)
    requires Refines(d, f) && Bounded(c, d) && PipeFree(backend)
    requires |victims| == |samples| && EvictsOldest(c, d, victims, agent, region, backend, samples, now)
    ensures Refines(StoredAll(c, d, victims, agent, region, backend, samples, now),
                    FlatStoredAll(c, f, victims, agent, region, backend, samples, now))
  {
    if samples != [] {
      var last := |samples| - 1;
      EvictsOldestPrefix(c, d, victims, agent, region, backend, samples, now);
      StoredAllRefines(c, d, f, victims[..last], agent, region, backend, samples[..last], now);
      StoredAllKeepsBound(c, d, victims[..last], agent, region, backend, samples[..last], now);
      var m := StoredAll(c, d, victims[..last], agent, region, backend, samples[..last], now);
      var g := FlatStoredAll(c, f, victims[..last], agent, region, backend, samples[..last], now);
      SamePrefixes(m, g);
      assert |m| == |m.Keys|;
      if samples[last].prefix.Some? {
        var p := samples[last].prefix.value;
        if Full(c, m, p) {
          EvictionRefines(m, g, victims[last]);
          WriteRefines(m - {victims[last]}, map t | t in g && t.0 != victims[last] ::
              g[t], p, agent, region, backend, samples[last], now);
        } else {
          WriteRefines(m, g, p, agent, region, backend, samples[last], now);
        }
      }
    }
  }

  lemma PrunedRefines(c: Limits, d: Data, f: Flat, now: int)
    requires Refines(d, f)
    ensures Refines(Pruned(c, d, now), map t | t in f && now - f[t].updated <= c.ttl :: f[t])
  {
    var d', f' := Pruned(c, d, now), map t | t in f && now - f[t].updated <= c.ttl :: f[t];
    forall p, key | p in d' && key in d'[p] ensures Filed(p, key, d'[p][key], f') {
      assert Filed(p, key, d[p][key], f);
    }
    forall t | t in f' ensures Found(t, f'[t], d') {
      assert Found(t, f[t], d);
      assert EntryKey(t.1, t.2) in Fresh(c, d[t.0], now);
    }
  }

  /** For backend names without '|', the table is at every moment the flat map from subnet,
      backend and region to entry: no pair of names is ever confused, nothing outlives its subnet. */
  lemma {:induction false} TableRefinesTheFlatMap(c: Limits, d: Data, f: Flat, events: seq<(int, Event)>)
    requires Refines(d, f) && Bounded(c, d) && Admissible(c, d, events)
    requires forall e :: e in events && e.1.Report? ==> PipeFree(e.1.backend)
    ensures Refines(Run(c, d, events), FlatRun(c, f, events))
  {
    if events != [] {
      var before, now, e := events[..|events| - 1], events[|events| - 1].0, events[|events| - 1].1;
      AdmissiblePrefix(c, d, events);
      TableRefinesTheFlatMap(c, d, f, before);
      TableStaysBounded(c, d, before);
      assert events[|events| - 1] in events;
      match e
      case Report(agent, region, backend, samples, victims) =>
        StoredAllRefines(c, Run(c, d, before), FlatRun(c, f, before), victims, agent, region, backend, samples, now);
      case Prune => PrunedRefines(c, Run(c, d, before), FlatRun(c, f, before), now);
      case Clear =>
    }
  }

  /** Seen through the flat map: the lookup by region is the entry of that triple. */
  lemma InRegionIsTheFlatEntry(c: Limits, d: Data, f: Flat, p: Prefix, backend: string, region: string, now: int)
    requires Refines(d, f) && PipeFree(backend)
    ensures var t := (p, backend, region);
            InRegion(c, d, p, backend, region, now)
            == if t in f && now - f[t].updated <= c.ttl then Some(f[t]) else None
  {
    var t, key := (p, backend, region), EntryKey(backend, region);
    if t in f {
      assert Found(t, f[t], d);
    }
    if p in d && key in d[p] {
      assert Filed(p, key, d[p][key], f);
      EntryKeyInjective(d[p][key].backend, d[p][key].region, backend, region);
    }
  }

  /** An answer of the lookup over all regions is the least of the answers for each region, and
      there is no answer exactly when no region has one. */
  lemma FastestIsTheMinimumOverRegions(c: Limits, d: Data, f: Flat, p: Prefix, backend: string, now: int,
                                       r: Option<Entry>)
    requires Refines(d, f) && PipeFree(backend) && FastestFor(c, d, p, backend, now, r)
    ensures r.None? <==> forall region :: InRegion(c, d, p, backend, region, now).None?
    ensures r.Some? ==> InRegion(c, d, p, backend, r.value.region, now) == r
    ensures r.Some? ==> forall region :: InRegion(c, d, p, backend, region, now).Some? ==>
              r.value.ewma <= InRegion(c, d, p, backend, region, now).value.ewma
  {
    forall region | InRegion(c, d, p, backend, region, now).Some?
      ensures var key := EntryKey(backend, region);
              key in Subnet(d, p) && InRegion(c, d, p, backend, region, now) == Some(d[p][key])
                  && Candidate(c, d[p][key], backend, now)
    {
      var key := EntryKey(backend, region);
      assert Filed(p, key, d[p][key], f);
      EntryKeyInjective(d[p][key].backend, d[p][key].region, backend, region);
    }
    if r.Some? {
      var key :| key in Subnet(d, p) && d[p][key] == r.value;
      assert Filed(p, key, d[p][key], f);
    }
  }
}
