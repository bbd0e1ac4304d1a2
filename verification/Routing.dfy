/** The routers that pick one server of a pool: round robin, weighted, latency, learned latency. */
module Routing {
  import opened Prelude

  datatype Server = Server(address: string, port: int, weight: int, region: string)

  datatype RouteError = NoHealthyServers

  // ---------------------------------------------------------------- round robin

  const TWO_64: nat := 0x1_0000_0000_0000_0000

  class RoundRobinRouter {
    /** A uint64. */
    var counter: nat

    ghost predicate Valid()
      reads this
    {
      counter < TWO_64
    }

    constructor ()
      ensures Valid() && counter == 0
    {
      counter := 0;
    }

    method Route(servers: seq<Server>) returns (result: Result<Server, RouteError>)
      requires Valid()
      modifies this
      ensures Valid()
      ensures result == if servers == [] then Err(NoHealthyServers) else Ok(servers[Turn(old(counter), 0, |servers|)])
      ensures counter == if servers == [] then old(counter) else (old(counter) + 1) % TWO_64
    {
      if |servers| == 0 {
        return Err(NoHealthyServers);
      }
      counter := (counter + 1) % TWO_64;
      var idx := (counter - 1) % TWO_64;
      return Ok(servers[idx % |servers|]);
    }
  }

  /** The index that the k-th call from now picks in a pool of n. */
  function Turn(counter: nat, k: nat, n: nat): (i: nat)
    requires n > 0
    ensures i < n
  {
    (counter + k) % TWO_64 % n
  }

  /** n calls in a row on a pool of n never pick the same server twice. */
  ghost predicate FairRound(counter: nat, n: nat)
    requires n > 0
  {
    forall j: nat, k: nat :: j < k < n ==> Turn(counter, j, n) != Turn(counter, k, n)
  }

  /** A round is fair unless the counter wraps inside it, and even then if the size of the pool
      divides 2 to the 64th; on every other wrap some server is picked twice and another not at all. */
  lemma FairUnlessWrapping(counter: nat, n: nat)
    requires n > 0 && counter < TWO_64 && n <= TWO_64
    ensures FairRound(counter, n) <==> counter + n <= TWO_64 || TWO_64 % n == 0
  {
    if counter + n <= TWO_64 || TWO_64 % n == 0 {
      forall j: nat, k: nat | j < k < n ensures Turn(counter, j, n) != Turn(counter, k, n) {
        TurnWithoutLoss(counter, j, n);
        TurnWithoutLoss(counter, k, n);
        NearbyResiduesDiffer(counter + j, counter + k, n);
      }
    } else {
      UnfairOnAWrap(counter, n);
    }
  }

  lemma UnfairOnAWrap(counter: nat, n: nat)
    requires 0 < n <= TWO_64 && counter < TWO_64 < counter + n && TWO_64 % n != 0
    ensures !FairRound(counter, n)
  {
    var before, q, r := TWO_64 - counter, TWO_64 / n, TWO_64 % n;
    DivMod(TWO_64, n);
    var again := if r <= n - before then r - 1 else n - before - 1;
    if r <= n - before {
      SameTurn(counter, n, before - 1, before + again, q, again);
    } else {
      SameTurn(counter, n, n - 1 - r, n - 1, q, again);
    }
  }

  /** Two calls of a round, one before the wrap and one after it, that pick the same index. */
  lemma SameTurn(counter: nat, n: nat, j: nat, k: nat, q: nat, i: nat)
    requires i < n && j < k < n
    requires counter + j < TWO_64 && counter + j == q * n + i
    requires counter + k == TWO_64 + i && i < TWO_64
    ensures !FairRound(counter, n)
  {
    Residue(counter + j, q, n, i);
    Residue(i, 0, n, i);
    assert (counter + k) % TWO_64 == i;
    assert Turn(counter, j, n) == Turn(counter, k, n);
  }

  lemma MultiplesAreApart(a: int, b: int, n: nat)
    requires a < b
    ensures a * n + n <= b * n
  {
    assert (b - a - 1) * n >= 0;
  }

  lemma DivMod(x: nat, n: nat)
    requires n > 0
    ensures x == (x / n) * n + x % n && x % n < n
  {
  }

  /** Quotient and remainder are unique. */
  lemma SameQuotient(a: int, r: nat, b: int, s: nat, n: nat)
    requires r < n && s < n && a * n + r == b * n + s
    ensures a == b && r == s
  {
    if a < b {
      MultiplesAreApart(a, b, n);
    } else if b < a {
      MultiplesAreApart(b, a, n);
    }
  }

  lemma Residue(x: nat, q: int, n: nat, r: nat)
    requires n > 0 && r < n && x == q * n + r
    ensures x % n == r
  {
    DivMod(x, n);
    SameQuotient(x / n, x % n, q, r, n);
  }

  lemma NearbyResiduesDiffer(a: nat, b: nat, n: nat)
    requires n > 0 && a < b < a + n
    ensures a % n != b % n
  {
    DivMod(a, n);
    DivMod(b, n);
    if a % n == b % n {
      if a / n < b / n {
        MultiplesAreApart(a / n, b / n, n);
      } else if b / n < a / n {
        MultiplesAreApart(b / n, a / n, n);
      }
    }
  }

  lemma TurnWithoutLoss(counter: nat, k: nat, n: nat)
    requires n > 0 && k < n <= TWO_64 && counter < TWO_64
    requires counter + n <= TWO_64 || TWO_64 % n == 0
    ensures Turn(counter, k, n) == (counter + k) % n
  {
    var x := counter + k;
    if x >= TWO_64 {
      var y, q := x - TWO_64, TWO_64 / n;
      assert TWO_64 == q * n;
      assert x == (q + y / n) * n + y % n by {
        assert y == (y / n) * n + y % n;
      }
      Residue(x, q + y / n, n, y % n);
    }
  }

  // ---------------------------------------------------------------- weighted

  function Weight(s: Server): (w: int)
    ensures w >= 1
  {
    if s.weight <= 0 then 1 else s.weight
  }

  function TotalWeight(servers: seq<Server>): int {
    if servers == [] then 0 else TotalWeight(servers[..|servers| - 1]) + Weight(servers[|servers| - 1])
  }

  function Sum(xs: seq<int>): int {
    if xs == [] then 0 else Sum(xs[..|xs| - 1]) + xs[|xs| - 1]
  }

  /** The total adds up the configured weights, with 1 for each that is not positive. */
  lemma {:induction false} TotalIsTheSum(servers: seq<Server>)
    ensures TotalWeight(servers)
         == Sum(seq(|servers|, i requires 0 <= i < |servers| =>
             if servers[i].weight <= 0 then 1 else servers[i].weight))
  {
    if servers != [] {
      var n := |servers| - 1;
      TotalIsTheSum(servers[..n]);
      var all := seq(|servers|, i requires 0 <= i < |servers| =>
          if servers[i].weight <= 0 then 1 else servers[i].weight);
      assert all[..n] == seq(n, i requires 0 <= i < n =>
               if servers[..n][i].weight <= 0 then 1 else servers[..n][i].weight);
    }
  }

  /** The first loop of Route: the total weight. */
  method SumWeights(servers: seq<Server>) returns (totalWeight: int)
    ensures totalWeight == TotalWeight(servers)
  {
    totalWeight := 0;
    for i := 0 to |servers|
      invariant totalWeight == TotalWeight(servers[..i])
    {
      assert servers[..i + 1][..i] == servers[..i];
      var weight := servers[i].weight;
      if weight <= 0 {
        weight := 1;
      }
      totalWeight := totalWeight + weight;
    }
    assert servers[..|servers|] == servers;
  }

  /** The second loop: the server at a point, the last one if the point is beyond them all. */
  method FindAt(servers: seq<Server>, point: int) returns (server: Server, ghost chosen: int)
    requires servers != []
    ensures Chosen(servers, point, chosen) && server == servers[chosen]
  {
    var cumulative := 0;
    for i := 0 to |servers|
      invariant cumulative == TotalWeight(servers[..i])
      invariant forall j :: 0 < j <= i ==> TotalWeight(servers[..j]) <= point
    {
      assert servers[..i + 1][..i] == servers[..i];
      var weight := servers[i].weight;
      if weight <= 0 {
        weight := 1;
      }
      cumulative := cumulative + weight;
      if point < cumulative {
        return servers[i], i;
      }
    }
    return servers[|servers| - 1], |servers| - 1;
  }

  /** The random source is the function `intn`; the code calls it once. */
  method WeightedRoute(servers: seq<Server>, intn: int -> int)
    returns (result: Result<Server, RouteError>, ghost chosen: int)
    ensures servers == [] || TotalWeight(servers) == 0 ==> result == Err(NoHealthyServers)
    ensures servers != [] && TotalWeight(servers) != 0 ==>
              Chosen(servers, intn(TotalWeight(servers)), chosen) && result == Ok(servers[chosen])
    ensures servers != [] && 0 <= intn(TotalWeight(servers)) < TotalWeight(servers) ==>
              result.Ok? && forall i: nat :: i < |servers| ==>
                (intn(TotalWeight(servers)) in PointsOf(servers, i) <==> i == chosen)
  {
    if |servers| == 0 {
      return Err(NoHealthyServers), 0;
    }
    var totalWeight := SumWeights(servers);
    if totalWeight == 0 {
      return Err(NoHealthyServers), 0;
    }
    var point := intn(totalWeight);
    var server;
    server, chosen := FindAt(servers, point);
    if 0 <= point < totalWeight {
      OnePointOneServer(servers, point, chosen);
    }
    return Ok(server), chosen;
  }

  /** The first server whose cumulative weight exceeds the point, or the last server. */
  ghost predicate Chosen(servers: seq<Server>, point: int, i: int) {
    && 0 <= i < |servers|
    && (forall j :: 0 < j <= i ==> TotalWeight(servers[..j]) <= point)
    && (point < TotalWeight(servers[..i + 1]) || i == |servers| - 1)
  }

  /** Cumulative weights grow: a longer prefix weighs at least its extra servers more. */
  lemma {:induction false} PrefixWeights(servers: seq<Server>, i: nat, j: nat)
    requires i <= j <= |servers|
    ensures TotalWeight(servers[..j]) >= TotalWeight(servers[..i]) + (j - i)
  {
    if i < j {
      PrefixWeights(servers, i, j - 1);
      assert servers[..j][..j - 1] == servers[..j - 1];
    }
  }

  /** Server i owns the points from the weight before it to the weight up to it. */
  lemma ChosenIffInItsSlice(servers: seq<Server>, point: int, i: nat)
    requires i < |servers| && 0 <= point < TotalWeight(servers)
    ensures Chosen(servers, point, i) <==> TotalWeight(servers[..i]) <= point < TotalWeight(servers[..i + 1])
  {
    assert servers[..|servers|] == servers && servers[..0] == [];
    forall j | 0 < j <= i ensures TotalWeight(servers[..j]) <= TotalWeight(servers[..i]) {
      PrefixWeights(servers, j, i);
    }
  }

  ghost function PointsOf(servers: seq<Server>, i: nat): set<int> {
    set point | 0 <= point < TotalWeight(servers) && Chosen(servers, point, i)
  }

  lemma OnePointOneServer(servers: seq<Server>, point: int, chosen: nat)
    requires 0 <= point < TotalWeight(servers) && Chosen(servers, point, chosen)
    ensures forall i: nat :: i < |servers| ==> (point in PointsOf(servers, i) <==> i == chosen)
  {
    ChosenIffInItsSlice(servers, point, chosen);
    forall i: nat | i < |servers| && Chosen(servers, point, i) ensures i == chosen {
      ChosenIffInItsSlice(servers, point, i);
    }
  }

  lemma {:induction false} IntervalSize(points: set<int>, lo: int, hi: int)
    requires lo <= hi
    requires forall p :: p in points <==> lo <= p < hi
    ensures |points| == hi - lo
    decreases hi - lo
  {
    if lo < hi {
      IntervalSize(points - {hi - 1}, lo, hi - 1);
    } else {
      assert forall p :: p !in points;
      assert points == {};
    }
  }

  /** Exactly max(1, weight) of the TotalWeight possible points select each server. */
  lemma SelectionIsProportional(servers: seq<Server>, i: nat)
    requires i < |servers|
    ensures |PointsOf(servers, i)| == if servers[i].weight <= 0 then 1 else servers[i].weight
  {
    var lo, hi := TotalWeight(servers[..i]), TotalWeight(servers[..i + 1]);
    assert servers[..i + 1][..i] == servers[..i];
    PrefixWeights(servers, 0, i);
    PrefixWeights(servers, i + 1, |servers|);
    assert servers[..|servers|] == servers;
    forall point ensures point in PointsOf(servers, i) <==> lo <= point < hi {
      if 0 <= point < TotalWeight(servers) {
        ChosenIffInItsSlice(servers, point, i);
      }
    }
    IntervalSize(PointsOf(servers, i), lo, hi);
  }

  /** Neither the zero-total branch nor the fallback after the search is ever taken: a non-empty
      pool weighs at least its size, and a point below the total is below some cumulative weight. */
  lemma NoDeadBranchIsTaken(servers: seq<Server>, point: int, i: nat)
    requires servers != [] && 0 <= point < TotalWeight(servers) && Chosen(servers, point, i)
    ensures TotalWeight(servers) >= |servers|
    ensures point < TotalWeight(servers[..i + 1])
  {
    assert servers[..|servers|] == servers;
    PrefixWeights(servers, 0, |servers|);
    ChosenIffInItsSlice(servers, point, i);
  }

  // ---------------------------------------------------------------- lowest latency

  datatype Candidate = Candidate(server: Server, latency: int)

  /** What the code knows of a server's latency: None when it must not count. */
  type Knowledge = Server -> Option<int>

  function Candidates(servers: seq<Server>, known: Knowledge): seq<Candidate> {
    if servers == [] then []
    else
      var last := servers[|servers| - 1];
      var front := Candidates(servers[..|servers| - 1], known);
      if known(last).Some? then front + [Candidate(last, known(last).value)] else front
  }

  function Within(candidates: seq<Candidate>, max: int): seq<Candidate> {
    if candidates == [] then []
    else
      var last := candidates[|candidates| - 1];
      var front := Within(candidates[..|candidates| - 1], max);
      if last.latency <= max then front + [last] else front
  }

  function Lowest(candidates: seq<Candidate>): Candidate
    requires candidates != []
  {
    if |candidates| == 1 then candidates[0]
    else
      var front := Lowest(candidates[..|candidates| - 1]);
      var last := candidates[|candidates| - 1];
      if last.latency < front.latency then last else front
  }

  method SelectLowestLatency(candidates: seq<Candidate>) returns (lowest: Candidate)
    requires candidates != []
    ensures lowest == Lowest(candidates)
  {
    lowest := candidates[0];
    assert candidates[..1] == [candidates[0]];
    for i := 1 to |candidates|
      invariant lowest == Lowest(candidates[..i])
    {
      assert candidates[..i + 1][..i] == candidates[..i];
      if candidates[i].latency < lowest.latency {
        lowest := candidates[i];
      }
    }
    assert candidates[..|candidates|] == candidates;
  }

  /** The filter of both routers: keep those within the threshold, or all if that leaves none. */
  method Filter(withLatency: seq<Candidate>, maxLatency: int) returns (withinThreshold: seq<Candidate>)
    ensures withinThreshold == if maxLatency > 0 && Within(withLatency, maxLatency) != []
                               then Within(withLatency, maxLatency) else withLatency
  {
    if maxLatency > 0 {
      withinThreshold := [];
      for i := 0 to |withLatency|
        invariant withinThreshold == Within(withLatency[..i], maxLatency)
      {
        assert withLatency[..i + 1][..i] == withLatency[..i];
        if withLatency[i].latency <= maxLatency {
          withinThreshold := withinThreshold + [withLatency[i]];
        }
      }
      assert withLatency[..|withLatency|] == withLatency;
      if |withinThreshold| == 0 {
        withinThreshold := withLatency;
      }
    } else {
      withinThreshold := withLatency;
    }
  }

  /** The threshold never changes the choice: if anything is within it, so is the lowest. */
  lemma {:induction false} FilterKeepsTheLowest(candidates: seq<Candidate>, max: int)
    requires candidates != []
    ensures Lowest(candidates).latency <= max <==> Within(candidates, max) != []
    ensures Within(candidates, max) != [] ==> Lowest(Within(candidates, max)) == Lowest(candidates)
  {
    var n := |candidates| - 1;
    var front := candidates[..n];
    if n > 0 {
      FilterKeepsTheLowest(front, max);
      var within := Within(front, max);
      assert (within + [candidates[n]])[..|within|] == within;
    } else {
      assert front == [] && [] + [candidates[n]] == [candidates[n]];
    }
  }

  /** Server i has data, no server beats it, and none before it equals it. */
  ghost predicate FirstFastest(servers: seq<Server>, known: Knowledge, i: int) {
    && 0 <= i < |servers|
    && known(servers[i]).Some?
    && (forall j :: 0 <= j < |servers| && known(servers[j]).Some? ==>
          && known(servers[i]).value <= known(servers[j]).value
          && (j < i ==> known(servers[i]).value < known(servers[j]).value))
  }

  lemma {:induction false} LowestIsTheFirstFastest(servers: seq<Server>, known: Knowledge) returns (i: int)
    ensures Candidates(servers, known) == [] <==> forall j :: 0 <= j < |servers| ==> known(servers[j]).None?
    ensures Candidates(servers, known) != [] ==>
              FirstFastest(servers, known, i) && Lowest(Candidates(servers, known))
                  == Candidate(servers[i], known(servers[i]).value)
  {
    i := 0;
    if servers != [] {
      var n := |servers| - 1;
      var front := servers[..n];
      i := LowestIsTheFirstFastest(front, known);
      var before := Candidates(front, known);
      if known(servers[n]).Some? {
        var last := Candidate(servers[n], known(servers[n]).value);
        assert (before + [last])[..|before|] == before;
        if before == [] || last.latency < Lowest(before).latency {
          i := n;
        }
      }
      assert forall j :: 0 <= j < n ==> front[j] == servers[j];
    }
  }

  lemma FirstFastestIsUnique(servers: seq<Server>, known: Knowledge, i: int, j: int)
    requires FirstFastest(servers, known, i) && FirstFastest(servers, known, j)
    ensures i == j
  {
  }

  /** What a latency router must answer: the first fastest server among those with data, whatever
      the threshold, and the next of the round robin only if no server has data. */
  ghost predicate Answer(servers: seq<Server>, known: Knowledge, counter: nat, result: Result<Server, RouteError>) {
    if servers == [] then
      result == Err(NoHealthyServers)
    else if forall j :: 0 <= j < |servers| ==> known(servers[j]).None? then
      result == Ok(servers[Turn(counter, 0, |servers|)])
    else
      exists i :: FirstFastest(servers, known, i) && result == Ok(servers[i])
  }

  lemma AnswerIsTheLowest(servers: seq<Server>, known: Knowledge, counter: nat, maxLatency: int)
    requires Candidates(servers, known) != []
    ensures var all := Candidates(servers, known);
            var kept := if maxLatency > 0 && Within(all, maxLatency) != [] then Within(all, maxLatency) else all;
            Answer(servers, known, counter, Ok(Lowest(kept).server))
  {
    var i := LowestIsTheFirstFastest(servers, known);
    FilterKeepsTheLowest(Candidates(servers, known), maxLatency);
    assert known(servers[i]).Some?;
  }

  // ---------------------------------------------------------------- measured latency

  const MILLISECOND: int := 1000000

  datatype LatencyInfo = LatencyInfo(smoothedLatency: int, samples: int, hasData: bool)

  class LatencyRouter {
    const maxLatencyMs: int
    const minSamples: int
    const fallback: RoundRobinRouter
    var provider: Option<(string, int) -> LatencyInfo>

    constructor (maxLatencyMs: int, minSamples: int, provider: Option<(string, int) -> LatencyInfo>)
      ensures this.maxLatencyMs == if maxLatencyMs == 0 then 500 else maxLatencyMs
      ensures this.minSamples == if minSamples == 0 then 3 else minSamples
      ensures this.provider == provider && fresh(fallback) && fallback.Valid()
    {
      this.maxLatencyMs := if maxLatencyMs == 0 then 500 else maxLatencyMs;
      this.minSamples := if minSamples == 0 then 3 else minSamples;
      this.provider := provider;
      fallback := new RoundRobinRouter();
    }

    /** A server counts if the provider has data on it from at least minSamples samples. */
    ghost function Known(): Knowledge
      reads this
    {
      var p, m := provider, minSamples;
      (s: Server) =>
        if p.Some? && p.value(s.address, s.port).hasData && p.value(s.address, s.port).samples >= m
        then Some(p.value(s.address, s.port).smoothedLatency) else None
    }

    /** In the provider's own terms: if some server has enough samples, so has the answer, and none
        of them is faster. */
    lemma AnswerIsFastest(servers: seq<Server>, counter: nat, result: Result<Server, RouteError>, s: Server)
      requires Answer(servers, Known(), counter, result) && s in servers && provider.Some?
      requires provider.value(s.address, s.port).hasData && minSamples <= provider.value(s.address, s.port).samples
      ensures result.Ok? && result.value in servers
      ensures var best := provider.value(result.value.address, result.value.port);
              && best.hasData && minSamples <= best.samples
              && best.smoothedLatency <= provider.value(s.address, s.port).smoothedLatency
    {
      assert Known()(s).Some?;
    }

    /** If no server has, the choice is the round robin's. */
    lemma AnswerFallsBack(servers: seq<Server>, counter: nat, result: Result<Server, RouteError>)
      requires Answer(servers, Known(), counter, result) && servers != []
      requires provider.Some? ==> forall s :: s in servers ==>
                 var info := provider.value(s.address, s.port); !info.hasData || info.samples < minSamples
      ensures result == Ok(servers[counter % TWO_64 % |servers|])
    {
      assert forall s :: s in servers ==> Known()(s).None?;
    }

    method Route(servers: seq<Server>) returns (result: Result<Server, RouteError>)
      requires fallback.Valid()
      modifies fallback
      ensures fallback.Valid()
      ensures Answer(servers, Known(), old(fallback.counter), result)
    {
      if |servers| == 0 {
        return Err(NoHealthyServers);
      }
      ghost var none := LowestIsTheFirstFastest(servers, Known());
      if provider.None? {
        result := fallback.Route(servers);
        return;
      }
      var withLatency: seq<Candidate> := [];
      for i := 0 to |servers|
        invariant withLatency == Candidates(servers[..i], Known())
      {
        assert servers[..i + 1][..i] == servers[..i];
        var info := provider.value(servers[i].address, servers[i].port);
        if info.hasData && info.samples >= minSamples {
          withLatency := withLatency + [Candidate(servers[i], info.smoothedLatency)];
        }
      }
      assert servers[..|servers|] == servers;
      if |withLatency| == 0 {
        result := fallback.Route(servers);
        return;
      }
      var withinThreshold := Filter(withLatency, maxLatencyMs * MILLISECOND);
      AnswerIsTheLowest(servers, Known(), fallback.counter, maxLatencyMs * MILLISECOND);
      var selected := SelectLowestLatency(withinThreshold);
      return Ok(selected.server);
    }
  }

  // ---------------------------------------------------------------- learned latency

  datatype LearnedData = LearnedData(ewma: int, sampleCount: nat, lastUpdated: int)

  /** `uint64(n)` of an int. */
  function AsUint64(n: int): nat {
    n % TWO_64
  }

  /** Client address, backend (the domain's name), region. */
  type LearnedProvider = (string, string, string) -> Option<LearnedData>

  class LearnedLatencyRouter {
    const maxLatencyMs: int
    const minSamples: int
    const staleThreshold: int
    const fallback: RoundRobinRouter
    var provider: Option<LearnedProvider>

    constructor (maxLatencyMs: int, minSamples: int, staleThreshold: int, provider: Option<LearnedProvider>)
      ensures this.maxLatencyMs == if maxLatencyMs == 0 then 500 else maxLatencyMs
      ensures this.minSamples == if minSamples == 0 then 5 else minSamples
      ensures this.staleThreshold == if staleThreshold == 0 then 168 * 3600 * 1000 * MILLISECOND else staleThreshold
      ensures this.provider == provider && fresh(fallback) && fallback.Valid()
    {
      this.maxLatencyMs := if maxLatencyMs == 0 then 500 else maxLatencyMs;
      this.minSamples := if minSamples == 0 then 5 else minSamples;
      this.staleThreshold := if staleThreshold == 0 then 168 * 3600 * 1000 * MILLISECOND else staleThreshold;
      this.provider := provider;
      fallback := new RoundRobinRouter();
    }

    /** A server counts if its region has fresh data for this client, from enough samples. */
    ghost function Known(domain: string, clientIP: Option<string>, now: int): Knowledge
      reads this
    {
      var p, m, stale := provider, minSamples, staleThreshold;
      (s: Server) =>
        if p.None? || clientIP.None? || domain == "" || s.region == "" then None
        else match p.value(clientIP.value, domain, s.region)
          case None => None
          case Some(data) =>
            if data.sampleCount < AsUint64(m) || now - data.lastUpdated > stale then None else Some(data.ewma)
    }

    /** At least minSamples samples, the newest no older than staleThreshold. */
    ghost predicate Enough(region: string, clientIP: string, domain: string, now: int)
      requires provider.Some?
      reads this
    {
      match provider.value(clientIP, domain, region)
      case None => false
      case Some(data) => AsUint64(minSamples) <= data.sampleCount && now <= data.lastUpdated + staleThreshold
    }

    /** The same in the provider's own terms. */
    lemma AnswerIsFastest(servers: seq<Server>, domain: string, clientIP: string, now: int, counter: nat,
                          result: Result<Server, RouteError>, s: Server)
      requires Answer(servers, Known(domain, Some(clientIP), now), counter, result) && s in servers
      requires provider.Some? && domain != "" && s.region != "" && Enough(s.region, clientIP, domain, now)
      ensures result.Ok? && result.value in servers && result.value.region != ""
      ensures Enough(result.value.region, clientIP, domain, now)
      ensures provider.value(clientIP, domain, result.value.region).value.ewma
           <= provider.value(clientIP, domain, s.region).value.ewma
    {
      assert Known(domain, Some(clientIP), now)(s).Some?;
    }

    /** Without data that counts the choice is the round robin's. */
    lemma AnswerFallsBack(servers: seq<Server>, domain: string, clientIP: Option<string>, now: int, counter: nat,
                          result: Result<Server, RouteError>)
      requires Answer(servers, Known(domain, clientIP, now), counter, result) && servers != []
      requires provider.Some? && clientIP.Some? && domain != "" ==>
                 forall s :: s in servers && s.region != "" ==> !Enough(s.region, clientIP.value, domain, now)
      ensures result == Ok(servers[counter % TWO_64 % |servers|])
    {
      assert forall s :: s in servers ==> Known(domain, clientIP, now)(s).None?;
    }

    /** `clientIP` is the client's address if there is one and it converts. */
    method Route(servers: seq<Server>, domain: string, clientIP: Option<string>, now: int)
      returns (result: Result<Server, RouteError>)
      requires fallback.Valid()
      modifies fallback
      ensures fallback.Valid()
      ensures Answer(servers, Known(domain, clientIP, now), old(fallback.counter), result)
    {
      if |servers| == 0 {
        return Err(NoHealthyServers);
      }
      ghost var known := Known(domain, clientIP, now);
      ghost var none := LowestIsTheFirstFastest(servers, known);
      if provider.None? {
        result := fallback.Route(servers);
        return;
      }
      if clientIP.None? {
        result := fallback.Route(servers);
        return;
      }
      var withLatency: seq<Candidate> := [];
      for i := 0 to |servers|
        invariant withLatency == Candidates(servers[..i], known)
      {
        assert servers[..i + 1][..i] == servers[..i];
        if domain == "" || servers[i].region == "" {
          continue;
        }
        var found := provider.value(clientIP.value, domain, servers[i].region);
        if found.None? {
          continue;
        }
        var data := found.value;
        if data.sampleCount < AsUint64(minSamples) {
          continue;
        }
        if now - data.lastUpdated > staleThreshold {
          continue;
        }
        withLatency := withLatency + [Candidate(servers[i], data.ewma)];
      }
      assert servers[..|servers|] == servers;
      if |withLatency| == 0 {
        result := fallback.Route(servers);
        return;
      }
      var withinThreshold := Filter(withLatency, maxLatencyMs * MILLISECOND);
      AnswerIsTheLowest(servers, known, fallback.counter, maxLatencyMs * MILLISECOND);
      var selected := SelectLowestLatency(withinThreshold);
      return Ok(selected.server);
    }
  }
}
