/** The learned latency table: a bounded two-level map with oldest-first eviction. */
module LatencyTable {
  import opened Prelude

  datatype Prefix = Prefix(address: string, bits: nat)

  datatype Entry = Entry(backend: string, region: string, ewma: int, samples: nat, updated: int, source: string)

  /** One subnet of a report; the prefix is None when its text does not parse. */
  datatype Sample = Sample(prefix: Option<Prefix>, ewma: int, samples: nat)

  datatype Limits = Limits(maxEntries: int, ttl: int, minSamples: nat)

  type Data = map<Prefix, map<string, Entry>>

  function EntryKey(backend: string, region: string): string {
    backend + "|" + region
  }

  predicate Expired(c: Limits, e: Entry, now: int) {
    now - e.updated > c.ttl
  }

  /** The subnet holds an entry of globally least update time. */
  ghost predicate HoldsOldest(d: Data, victim: Prefix) {
    victim in d && exists key :: key in d[victim] && NoneOlder(d, d[victim][key].updated)
  }

  ghost predicate NoneOlder(d: Data, at: int) {
    forall p, key :: p in d && key in d[p] ==> at <= d[p][key].updated
  }

  // ---------------------------------------------------------------- operations

  /** A new subnet needs room. */
  predicate Full(c: Limits, d: Data, p: Prefix) {
    p !in d && |d| >= c.maxEntries
  }

  function Subnet(d: Data, p: Prefix): map<string, Entry> {
    if p in d then d[p] else map[]
  }

  /** A freshly stored entry keeps the backend name it was created with. */
  function Written(inner: map<string, Entry>, agent: string, region: string, backend: string, s: Sample,
                   now: int): map<string, Entry>
  {
    var key := EntryKey(backend, region);
    inner[key := Entry(if key in inner then inner[key].backend else backend, region, s.ewma, s.samples, now, agent)]
  }

  /** One sample of a report; `victim` is the subnet evicted when one has to go. */
  function Stored(c: Limits, d: Data, victim: Prefix, agent: string, region: string, backend: string, s: Sample,
                  now: int): Data
  {
    if s.prefix.None? then d
    else
      var p := s.prefix.value;
      var room := if Full(c, d, p) then d - {victim} else d;
      room[p := Written(Subnet(room, p), agent, region, backend, s, now)]
  }

  function StoredAll(c: Limits, d: Data, victims: seq<Prefix>, agent: string, region: string, backend: string,
                     samples: seq<Sample>, now: int): Data
    requires |victims| == |samples|
  {
    if samples == [] then d
    else
      var last := |samples| - 1;
      Stored(c, StoredAll(c, d, victims[..last], agent, region, backend, samples[..last], now), victims[last], agent,
          region, backend, samples[last], now)
  }

  /** Whenever room is needed, what is evicted holds an oldest entry. */
  ghost predicate EvictsOldest(c: Limits, d: Data, victims: seq<Prefix>, agent: string, region: string,
                               backend: string, samples: seq<Sample>, now: int)
    requires |victims| == |samples|
  {
    forall i :: 0 <= i < |samples| ==>
      EvictsOldestAt(c, StoredAll(c, d, victims[..i], agent, region, backend, samples[..i], now), victims[i],
          samples[i])
  }

  ghost predicate EvictsOldestAt(c: Limits, d: Data, victim: Prefix, s: Sample) {
    s.prefix.Some? && Full(c, d, s.prefix.value) && d != map[] ==> HoldsOldest(d, victim)
  }

  function Fresh(c: Limits, inner: map<string, Entry>, now: int): map<string, Entry> {
    map key | key in inner && !Expired(c, inner[key], now) :: inner[key]
  }

  function Pruned(c: Limits, d: Data, now: int): Data {
    map p | p in d && Fresh(c, d[p], now) != map[] :: Fresh(c, d[p], now)
  }

  // ---------------------------------------------------------------- lookups

  /** GetLatencyForBackendInRegion. */
  function InRegion(c: Limits, d: Data, p: Prefix, backend: string, region: string, now: int): Option<Entry> {
    var key := EntryKey(backend, region);
    if p in d && key in d[p] && !Expired(c, d[p][key], now) then Some(d[p][key]) else None
  }

  predicate Candidate(c: Limits, e: Entry, backend: string, now: int) {
    e.backend == backend && !Expired(c, e, now)
  }

  /** A correct answer of GetLatencyForBackend: a fastest unexpired entry of the backend. */
  ghost predicate FastestFor(c: Limits, d: Data, p: Prefix, backend: string, now: int, r: Option<Entry>) {
    match r
    case None => forall key :: key in Subnet(d, p) ==> !Candidate(c, d[p][key], backend, now)
    case Some(e) =>
      && (exists key :: key in Subnet(d, p) && d[p][key] == e && Candidate(c, e, backend, now))
      && forall key :: key in Subnet(d, p) && Candidate(c, d[p][key], backend, now) ==> e.ewma <= d[p][key].ewma
  }

  predicate Usable(c: Limits, e: Entry, healthy: seq<string>, now: int) {
    e.backend in healthy && e.samples >= c.minSamples && !Expired(c, e, now)
  }

  /** A correct answer of GetBestBackend. */
  ghost predicate BestAmong(c: Limits, d: Data, p: Prefix, healthy: seq<string>, now: int, r: Option<Entry>) {
    match r
    case None => forall key :: key in Subnet(d, p) ==> !Usable(c, d[p][key], healthy, now)
    case Some(e) =>
      && (exists key :: key in Subnet(d, p) && d[p][key] == e && Usable(c, e, healthy, now))
      && forall key :: key in Subnet(d, p) && Usable(c, d[p][key], healthy, now) ==> e.ewma <= d[p][key].ewma
  }

  // ---------------------------------------------------------------- the table object

  class Table {
    const limits: Limits
    var data: Data

    constructor (limits: Limits)
      ensures this.limits == limits && data == map[]
    {
      this.limits := limits;
      data := map[];
    }

    /** evictOldest: scans every entry; keeps the first of the oldest it meets. */
    method EvictOldest() returns (ghost victim: Prefix)
      requires forall p :: p in data ==> data[p] != map[]
      modifies this
      ensures old(data) != map[] ==> HoldsOldest(old(data), victim)
      ensures data == old(data) - {victim}
    {
      var oldest: Option<(Prefix, int)> := None;
      var todo := data.Keys;
      while todo != {}
        invariant todo <= data.Keys && data == old(data)
        invariant oldest.None? ==> todo == data.Keys
        invariant oldest.Some? ==> oldest.value.0 in data && exists key ::
                    key in data[oldest.value.0] && data[oldest.value.0][key].updated == oldest.value.1
        invariant oldest.Some? ==> forall p, key :: p in data && p !in todo && key in data[p] ==>
                    oldest.value.1 <= data[p][key].updated
        decreases |todo|
      {
        var p :| p in todo;
        todo := todo - {p};
        assert data[p] != map[];
        oldest := OldestIn(p, oldest);
      }
      if oldest.None? {
        victim := Prefix("", 0);
      } else {
        victim := oldest.value.0;
        data := data - {oldest.value.0};
      }
    }

    /** The inner loop of evictOldest. */
    method OldestIn(p: Prefix, sofar: Option<(Prefix, int)>) returns (oldest: Option<(Prefix, int)>)
      requires p in data
      ensures oldest == sofar || exists key :: key in data[p] && oldest == Some((p, data[p][key].updated))
      ensures sofar.Some? ==> oldest.Some? && oldest.value.1 <= sofar.value.1
      ensures forall key :: key in data[p] ==> oldest.Some? && oldest.value.1 <= data[p][key].updated
    {
      oldest := sofar;
      var todo := data[p].Keys;
      while todo != {}
        invariant todo <= data[p].Keys
        invariant oldest == sofar || exists key :: key in data[p] && oldest == Some((p, data[p][key].updated))
        invariant sofar.Some? ==> oldest.Some? && oldest.value.1 <= sofar.value.1
        invariant forall key :: key in data[p] && key !in todo ==>
                    oldest.Some? && oldest.value.1 <= data[p][key].updated
        decreases |todo|
      {
        var key :| key in todo;
        todo := todo - {key};
        if oldest.None? || data[p][key].updated < oldest.value.1 {
          oldest := Some((p, data[p][key].updated));
        }
      }
    }

    /** Update: the whole report of one agent about one backend. */
    method Update(agent: string, region: string, backend: string, samples: seq<Sample>, now: int)
      returns (ghost victims: seq<Prefix>)
      requires forall p :: p in data ==> data[p] != map[]
      modifies this
      ensures |victims| == |samples|
      ensures data == StoredAll(limits, old(data), victims, agent, region, backend, samples, now)
      ensures EvictsOldest(limits, old(data), victims, agent, region, backend, samples, now)
    {
      victims := [];
      var i := 0;
      while i < |samples|
        invariant i <= |samples| && |victims| == i
        invariant forall p :: p in data ==> data[p] != map[]
        invariant data == StoredAll(limits, old(data), victims, agent, region, backend, samples[..i], now)
        invariant EvictsOldest(limits, old(data), victims, agent, region, backend, samples[..i], now)
      {
        ghost var before := data;
        assert samples[..i + 1][..i] == samples[..i];
        ghost var victim := UpdateOne(agent, region, backend, samples[i], now);
        ghost var more := victims + [victim];
        assert more[..i] == victims;
        OneMore(limits, old(data), victims, victim, agent, region, backend, samples, i, now);
        victims := more;
        i := i + 1;
      }
      assert samples[..i] == samples;
    }

    /** The loop body of Update. */
    method UpdateOne(agent: string, region: string, backend: string, s: Sample, now: int) returns (ghost victim: Prefix)
      requires forall p :: p in data ==> data[p] != map[]
      modifies this
      ensures forall p :: p in data ==> data[p] != map[]
      ensures data == Stored(limits, old(data), victim, agent, region, backend, s, now)
      ensures EvictsOldestAt(limits, old(data), victim, s)
    {
      victim := Prefix("", 0);
      if s.prefix.None? {
        return;
      }
      var p := s.prefix.value;
      var inner: map<string, Entry> := map[];
      if p in data {
        inner := data[p];
      } else if |data| >= limits.maxEntries {
        victim := EvictOldest();
      }
      var written := WriteEntry(inner, agent, region, backend, s, now);
      data := data[p := written];
    }

    method WriteEntry(inner: map<string, Entry>, agent: string, region: string, backend: string, s: Sample, now: int)
      returns (written: map<string, Entry>)
      ensures written == Written(inner, agent, region, backend, s, now) && written != map[]
    {
      var key := EntryKey(backend, region);
      var entry := if key in inner then inner[key] else Entry(backend, region, 0, 0, 0, agent);
      entry := entry.(ewma := s.ewma, samples := s.samples, updated := now, source := agent, region := region);
      written := inner[key := entry];
      assert key in written;
    }

    method Prune(now: int)
      modifies this
      ensures data == Pruned(limits, old(data), now)
      ensures forall p, key :: p in data && key in data[p] ==>
                p in old(data) && key in old(data)[p] && data[p][key] == old(data)[p][key]
      ensures forall p, key :: p in old(data) && key in old(data)[p] ==>
                (p in data && key in data[p] <==> now - old(data)[p][key].updated <= limits.ttl)
    {
      var todo := data.Keys;
      while todo != {}
        invariant todo <= old(data).Keys
        invariant forall q :: q in data <==> q in old(data) && (q in todo || Fresh(limits, old(data)[q], now) != map[])
        invariant forall q :: q in data ==> data[q] == if q in todo then old(data)[q]
                    else Fresh(limits, old(data)[q], now)
        decreases |todo|
      {
        var p :| p in todo;
        todo := todo - {p};
        var kept := PruneSubnet(p, now);
        if |kept| == 0 {
          assert kept == map[];
          data := data - {p};
        } else {
          data := data[p := kept];
        }
      }
      PrunedExactly(limits, old(data), now);
    }

    /** The inner loops of Prune: find the expired entries of a subnet, then delete them. */
    method PruneSubnet(p: Prefix, now: int) returns (kept: map<string, Entry>)
      requires p in data
      ensures kept == Fresh(limits, data[p], now)
    {
      kept := data[p];
      var todo := data[p].Keys;
      while todo != {}
        invariant todo <= data[p].Keys
        invariant kept == map key | key in data[p] && (key in todo || !Expired(limits, data[p][key], now)) ::
                    data[p][key]
        decreases |todo|
      {
        var key :| key in todo;
        todo := todo - {key};
        if Expired(limits, data[p][key], now) {
          kept := kept - {key};
        }
      }
    }

    method Clear()
      modifies this
      ensures data == map[]
    {
      data := map[];
    }

    method GetLatencyForBackendInRegion(p: Prefix, backend: string, region: string, now: int) returns (r: Option<Entry>)
      ensures r == InRegion(limits, data, p, backend, region, now)
      ensures var key := backend + "|" + region;
              && (r.Some? <==> p in data && key in data[p] && now - data[p][key].updated <= limits.ttl)
              && (r.Some? ==> r.value == data[p][key])
    {
      if p !in data {
        return None;
      }
      var key := EntryKey(backend, region);
      if key !in data[p] {
        return None;
      }
      if now - data[p][key].updated > limits.ttl {
        return None;
      }
      return Some(data[p][key]);
    }

    method GetLatencyForBackend(p: Prefix, backend: string, now: int) returns (r: Option<Entry>)
      ensures FastestFor(limits, data, p, backend, now, r)
      ensures r.Some? ==> r.value.backend == backend && now - r.value.updated <= limits.ttl
      ensures p in data ==> forall key ::
                key in data[p] && data[p][key].backend == backend && now - data[p][key].updated <= limits.ttl ==>
                  r.Some? && r.value.ewma <= data[p][key].ewma
    {
      r := None;
      if p !in data {
        return;
      }
      var todo := data[p].Keys;
      while todo != {}
        invariant todo <= data[p].Keys
        invariant r.Some? ==>
                    exists key :: key in data[p] && data[p][key] == r.value && Candidate(limits, r.value, backend, now)
        invariant forall key :: key in data[p] && key !in todo && Candidate(limits, data[p][key], backend, now) ==>
                    r.Some? && r.value.ewma <= data[p][key].ewma
        decreases |todo|
      {
        var key :| key in todo;
        todo := todo - {key};
        var e := data[p][key];
        if e.backend == backend && now - e.updated <= limits.ttl {
          if r.None? || e.ewma < r.value.ewma {
            r := Some(e);
          }
        }
      }
    }

    method GetBestBackend(p: Prefix, healthy: seq<string>, now: int) returns (r: Option<Entry>)
      ensures BestAmong(limits, data, p, healthy, now, r)
      ensures r.Some? ==>
                r.value.backend in healthy && limits.minSamples <= r.value.samples
                    && now - r.value.updated <= limits.ttl
      ensures p in data ==> forall key ::
                key in data[p] && data[p][key].backend in healthy && limits.minSamples <= data[p][key].samples
                && now - data[p][key].updated <= limits.ttl ==>
                  r.Some? && r.value.ewma <= data[p][key].ewma
    {
      r := None;
      if p !in data {
        return;
      }
      var healthySet := set b | b in healthy;
      var todo := data[p].Keys;
      while todo != {}
        invariant todo <= data[p].Keys
        invariant r.Some? ==>
                    exists key :: key in data[p] && data[p][key] == r.value && Usable(limits, r.value, healthy, now)
        invariant forall key :: key in data[p] && key !in todo && Usable(limits, data[p][key], healthy, now) ==>
                    r.Some? && r.value.ewma <= data[p][key].ewma
        decreases |todo|
      {
        var key :| key in todo;
        todo := todo - {key};
        var e := data[p][key];
        if e.backend in healthySet && e.samples >= limits.minSamples && now - e.updated <= limits.ttl {
          if r.None? || e.ewma < r.value.ewma {
            r := Some(e);
          }
        }
      }
    }
  }

  /** Nothing but the entries past the limit is pruned, and no entry changes. */
  lemma PrunedExactly(c: Limits, d: Data, now: int)
    ensures var r := Pruned(c, d, now);
            && (forall p, key :: p in r && key in r[p] ==> p in d && key in d[p] && r[p][key] == d[p][key])
            && (forall p, key :: p in d && key in d[p] ==>
                  (p in r && key in r[p] <==> now - d[p][key].updated <= c.ttl))
  {
    forall p, key | p in d && key in d[p] && now - d[p][key].updated <= c.ttl ensures p in Pruned(c, d, now) {
      assert key in Fresh(c, d[p], now);
    }
  }

  /** Extending a report by one sample. */
  lemma OneMore(c: Limits, d: Data, victims: seq<Prefix>, victim: Prefix, agent: string, region: string,
                backend: string, samples: seq<Sample>, i: nat, now: int)
    requires i < |samples| && |victims| == i
    requires EvictsOldest(c, d, victims, agent, region, backend, samples[..i], now)
    requires EvictsOldestAt(c, StoredAll(c, d, victims, agent, region, backend, samples[..i], now), victim, samples[i])
    ensures EvictsOldest(c, d, victims + [victim], agent, region, backend, samples[..i + 1], now)
  {
    var vs, ss := victims + [victim], samples[..i + 1];
    forall k | 0 <= k < |ss| ensures EvictsOldestAt(c,
        StoredAll(c, d, vs[..k], agent, region, backend, ss[..k], now), vs[k], ss[k]) {
      assert vs[..k] == victims[..k] && ss[..k] == samples[..i][..k];
      if k < i {
        assert EvictsOldestAt(c, StoredAll(c, d, victims[..k], agent, region, backend, samples[..i][..k], now),
                 victims[k], samples[..i][k]);
      } else {
        assert victims[..k] == victims && samples[..i][..k] == samples[..i];
      }
    }
  }
}
