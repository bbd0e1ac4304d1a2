/** The DNS registry: which servers each domain answers with. */
module Dns {
  import opened Prelude
  import opened Naming

  /** `address` is the text of a parsed net.IP, so it is always in canonical form. */
  datatype ServerInfo = ServerInfo(address: string, port: int, weight: int, region: string)

  datatype DomainEntry = DomainEntry(name: string, ttl: nat, algorithm: string, router: string,
                                     servers: seq<ServerInfo>)

  type Domains = map<string, DomainEntry>

  /** net.ParseIP followed by String: None when the text is no IP address. */
  type IpParser = string -> Option<string>

  /** The router factory: None for an algorithm it does not know. */
  type RouterFactory = string -> Option<string>

  datatype Error = NotConfigured | InvalidAddress | ServerNotFound | NoRouter

  predicate At(s: ServerInfo, address: string, port: int) {
    s.address == address && s.port == port
  }

  /** Index of the first server at the endpoint, or the length when there is none. */
  function Find(servers: seq<ServerInfo>, address: string, port: int): (i: nat)
    ensures i <= |servers|
    ensures i < |servers| ==> At(servers[i], address, port)
    ensures forall j :: 0 <= j < i ==> !At(servers[j], address, port)
  {
    if servers == [] || At(servers[0], address, port) then 0
    else 1 + Find(servers[1..], address, port)
  }

  /** Keys are unique in a server list. */
  ghost predicate Unique(servers: seq<ServerInfo>) {
    forall i, j :: 0 <= i < j < |servers| ==> !At(servers[i], servers[j].address, servers[j].port)
  }

  /** Replace the first server found under the raw address, or append. */
  function Upsert(servers: seq<ServerInfo>, rawAddress: string, s: ServerInfo): seq<ServerInfo> {
    var i := Find(servers, rawAddress, s.port);
    if i < |servers| then servers[i := s] else servers + [s]
  }

  /** Overwrite position i with the last server and truncate. */
  function SwapRemove(servers: seq<ServerInfo>, i: nat): (rest: seq<ServerInfo>)
    requires i < |servers|
    ensures |rest| == |servers| - 1
    ensures forall j :: 0 <= j < |rest| ==> rest[j] == if j == i then servers[|rest|] else servers[j]
  {
    servers[i := servers[|servers| - 1]][..|servers| - 1]
  }

  function ServerRegistered(d: Domains, parse: IpParser, service: string, address: string, port: int, weight: int,
                            region: string): Domains
  {
    var name := NormalizeDomain(service);
    if name !in d || parse(address).None? then d
    else
      var s := ServerInfo(parse(address).value, port, weight, region);
      d[name := d[name].(servers := Upsert(d[name].servers, address, s))]
  }

  function ServerDeregistered(d: Domains, service: string, address: string, port: int): Domains {
    var name := NormalizeDomain(service);
    if name !in d then d
    else
      var i := Find(d[name].servers, address, port);
      if i == |d[name].servers| then d
      else d[name := d[name].(servers := SwapRemove(d[name].servers, i))]
  }

  function EntryRegistered(d: Domains, entry: DomainEntry): Domains {
    var name := NormalizeDomain(entry.name);
    d[name := entry.(name := name)]
  }

  function DomainRegistered(d: Domains, factory: RouterFactory, name: string, ttl: nat, algorithm: string): Domains {
    match factory(algorithm)
    case None => d
    case Some(router) => EntryRegistered(d, DomainEntry(name, ttl, algorithm, router, []))
  }

  /** Updates TTL and router; the stored algorithm name is left as it was. */
  function SettingsUpdated(d: Domains, factory: RouterFactory, name: string, ttl: nat, algorithm: string): Domains {
    var key := NormalizeDomain(name);
    if key !in d || factory(algorithm).None? then d
    else d[key := d[key].(ttl := ttl, router := factory(algorithm).value)]
  }

  // ---------------------------------------------------------------- the configured registry

  datatype Server = Server(service: string, address: string, port: int, weight: int)

  datatype Region = Region(name: string, checkType: string, servers: seq<Server>)

  datatype Domain = Domain(name: string, algorithm: string, regions: seq<string>, ttl: int)

  /** One configured server together with the region it is listed in. */
  datatype Placed = Placed(region: string, checkType: string, server: Server)

  function Uint32(n: int): nat {
    n % 0x1_0000_0000
  }

  /** The servers of one region, in order, up to index n. */
  function PlacedIn(r: Region, n: nat): seq<Placed>
    requires n <= |r.servers|
  {
    if n == 0 then [] else PlacedIn(r, n - 1) + [Placed(r.name, r.checkType, r.servers[n - 1])]
  }

  /** All configured servers in configuration order. */
  function PlacedServers(regions: seq<Region>): seq<Placed> {
    if regions == [] then []
    else
      var last := |regions| - 1;
      PlacedServers(regions[..last]) + PlacedIn(regions[last], |regions[last].servers|)
  }

  /** Those of one region and service, as DNS servers. */
  function ServersFor(placed: seq<Placed>, parse: IpParser, region: string, service: string): seq<ServerInfo> {
    if placed == [] then []
    else
      var p := placed[|placed| - 1];
      var before := ServersFor(placed[..|placed| - 1], parse, region, service);
      if p.region == region && p.server.service == service && parse(p.server.address).Some?
      then before + [ServerInfo(parse(p.server.address).value, p.server.port, p.server.weight, p.region)]
      else before
  }

  /** Concatenation over the regions the domain names. */
  function DomainServers(placed: seq<Placed>, parse: IpParser, regions: seq<string>, service: string): seq<ServerInfo> {
    if regions == [] then []
    else
      var last := |regions| - 1;
      DomainServers(placed, parse, regions[..last], service) + ServersFor(placed, parse, regions[last], service)
  }

  function ConfiguredTtl(ttl: int, defaultTtl: int): nat {
    if Uint32(ttl) == 0 then Uint32(defaultTtl) else Uint32(ttl)
  }

  function ConfiguredEntry(placed: seq<Placed>, parse: IpParser, router: string, defaultTtl: int,
                           d: Domain): DomainEntry
  {
    DomainEntry(d.name, ConfiguredTtl(d.ttl, defaultTtl), d.algorithm, router,
        DomainServers(placed, parse, d.regions, d.name))
  }

  /** Entries of the domains whose router can be built; later entries of a name replace earlier. */
  function ConfiguredDomains(placed: seq<Placed>, parse: IpParser, factory: RouterFactory, defaultTtl: int,
                             domains: seq<Domain>): Domains
  {
    if domains == [] then map[]
    else
      var last := |domains| - 1;
      var before := ConfiguredDomains(placed, parse, factory, defaultTtl, domains[..last]);
      match factory(domains[last].algorithm)
      case None => before
      case Some(router) => EntryRegistered(before, ConfiguredEntry(placed, parse, router, defaultTtl, domains[last]))
  }

  function Grouped(groups: map<(string, string), seq<ServerInfo>>, region: string, service: string): seq<ServerInfo> {
    if (region, service) in groups then groups[(region, service)] else []
  }

  ghost predicate GroupsAre(groups: map<(string, string), seq<ServerInfo>>, placed: seq<Placed>, parse: IpParser) {
    forall region, service :: Grouped(groups, region, service) == ServersFor(placed, parse, region, service)
  }

  ghost predicate AllParse(placed: seq<Placed>, parse: IpParser) {
    forall p :: p in placed ==> parse(p.server.address).Some?
  }

  lemma GroupsGrow(groups: map<(string, string), seq<ServerInfo>>, placed: seq<Placed>, parse: IpParser, p: Placed)
    requires GroupsAre(groups, placed, parse) && parse(p.server.address).Some?
    ensures var s := ServerInfo(parse(p.server.address).value, p.server.port, p.server.weight, p.region);
            GroupsAre(groups[(p.region, p.server.service) := Grouped(groups, p.region, p.server.service) + [s]],
                placed + [p], parse)
  {
    var s := ServerInfo(parse(p.server.address).value, p.server.port, p.server.weight, p.region);
    var grown := groups[(p.region, p.server.service) := Grouped(groups, p.region, p.server.service) + [s]];
    assert (placed + [p])[..|placed|] == placed;
    forall region, service ensures Grouped(grown, region, service) == ServersFor(placed + [p], parse, region, service) {
      assert Grouped(groups, region, service) == ServersFor(placed, parse, region, service);
    }
  }

  /** The first half of BuildRegistry: servers grouped by region and service. */
  method GroupServers(regions: seq<Region>, parse: IpParser)
    returns (r: Result<map<(string, string), seq<ServerInfo>>, Error>)
    ensures r.Ok? <==> AllParse(PlacedServers(regions), parse)
    ensures r.Ok? ==> GroupsAre(r.value, PlacedServers(regions), parse)
  {
    var groups: map<(string, string), seq<ServerInfo>> := map[];
    ghost var done: seq<Placed> := [];
    var i := 0;
    while i < |regions|
      invariant i <= |regions| && done == PlacedServers(regions[..i])
      invariant GroupsAre(groups, done, parse) && AllParse(done, parse)
    {
      var j := 0;
      var region := regions[i];
      assert regions[..i + 1][..i] == regions[..i];
      while j < |region.servers|
        invariant j <= |region.servers| && done == PlacedServers(regions[..i]) + PlacedIn(region, j)
        invariant GroupsAre(groups, done, parse) && AllParse(done, parse)
      {
        var server := region.servers[j];
        var ip := parse(server.address);
        ghost var next := done + [Placed(region.name, region.checkType, server)];
        assert next == PlacedServers(regions[..i]) + PlacedIn(region, j + 1);
        if ip.None? {
          PlacedContains(regions, i, j);
          return Err(InvalidAddress);
        }
        GroupsGrow(groups, done, parse, Placed(region.name, region.checkType, server));
        var servers := Grouped(groups, region.name, server.service)
            + [ServerInfo(ip.value, server.port, server.weight, region.name)];
        groups := groups[(region.name, server.service) := servers];
        done := next;
        j := j + 1;
      }
      i := i + 1;
    }
    assert regions[..i] == regions;
    return Ok(groups);
  }

  /** The inner loop of BuildRegistry: the groups of the regions the domain names. */
  method CollectServers(groups: map<(string, string), seq<ServerInfo>>, domain: Domain, ghost placed: seq<Placed>,
                        ghost parse: IpParser) returns (servers: seq<ServerInfo>)
    requires GroupsAre(groups, placed, parse)
    ensures servers == DomainServers(placed, parse, domain.regions, domain.name)
  {
    servers := [];
    var n := 0;
    while n < |domain.regions|
      invariant n <= |domain.regions| && servers == DomainServers(placed, parse, domain.regions[..n], domain.name)
    {
      assert domain.regions[..n + 1][..n] == domain.regions[..n];
      servers := servers + Grouped(groups, domain.regions[n], domain.name);
      n := n + 1;
    }
    assert domain.regions[..n] == domain.regions;
  }

  /** The second half of BuildRegistry: one entry per domain, up to the first unknown algorithm. */
  method RegisterDomains(registry: Registry, groups: map<(string, string), seq<ServerInfo>>, domains: seq<Domain>,
                         defaultTtl: int, factory: RouterFactory, ghost placed: seq<Placed>) returns (ok: bool)
    requires registry.domains == map[] && GroupsAre(groups, placed, registry.parse)
    modifies registry
    ensures ok <==> forall d :: d in domains ==> factory(d.algorithm).Some?
    ensures ok ==> registry.domains == ConfiguredDomains(placed, registry.parse, factory, defaultTtl, domains)
  {
    hide GroupsAre, DomainServers;
    var k := 0;
    while k < |domains|
      invariant k <= |domains|
      invariant registry.domains == ConfiguredDomains(placed, registry.parse, factory, defaultTtl, domains[..k])
      invariant forall d :: d in domains[..k] ==> factory(d.algorithm).Some?
    {
      var domain := domains[k];
      assert domains[..k + 1][..k] == domains[..k];
      var router := factory(domain.algorithm);
      if router.None? {
        return false;
      }
      var servers := CollectServers(groups, domain, placed, registry.parse);
      registry.Register(DomainEntry(domain.name, ConfiguredTtl(domain.ttl, defaultTtl), domain.algorithm,
          router.value, servers));
      k := k + 1;
    }
    assert domains[..k] == domains;
    return true;
  }

  /** BuildRegistry: fails on the first invalid address or unknown algorithm. */
  method BuildRegistry(regions: seq<Region>, domains: seq<Domain>, defaultTtl: int, parse: IpParser,
                       factory: RouterFactory)
    returns (r: Result<Registry, Error>)
    ensures r.Ok? <==> (AllParse(PlacedServers(regions), parse) && forall d :: d in domains ==>
              factory(d.algorithm).Some?)
    ensures r.Ok? ==> fresh(r.value) && r.value.parse == parse
    ensures r.Ok? ==> r.value.domains == ConfiguredDomains(PlacedServers(regions), parse, factory, defaultTtl, domains)
    ensures r.Ok? ==> AllAsConfigured(regions, domains, defaultTtl, parse, factory, r.value.domains)
  {
    hide AllAsConfigured, ConfiguredDomains, PlacedServers, GroupsAre, AllParse;
    var registry := new Registry(parse);
    var grouping := GroupServers(regions, parse);
    if grouping.Err? {
      return Err(grouping.error);
    }
    var ok := RegisterDomains(registry, grouping.value, domains, defaultTtl, factory, PlacedServers(regions));
    if !ok {
      return Err(NoRouter);
    }
    BuiltAsConfigured(regions, domains, defaultTtl, parse, factory);
    return Ok(registry);
  }

  // ---------------------------------------------------------------- what the built registry serves

  /** Server b of region a, listed because the domain names the region as its n-th. */
  datatype Slot = Slot(n: int, a: int, b: int)

  predicate Earlier(s: Slot, t: Slot) {
    s.n < t.n || (s.n == t.n && (s.a < t.a || (s.a == t.a && s.b < t.b)))
  }

  predicate Named(regions: seq<Region>, names: seq<string>, service: string, s: Slot) {
    && 0 <= s.n < |names| && 0 <= s.a < |regions| && 0 <= s.b < |regions[s.a].servers|
    && regions[s.a].name == names[s.n]
    && regions[s.a].servers[s.b].service == service
  }

  /** The server in this slot, as DNS answers it. */
  predicate Stands(regions: seq<Region>, parse: IpParser, names: seq<string>, service: string, s: Slot, x: ServerInfo) {
    && Named(regions, names, service, s)
    && var server := regions[s.a].servers[s.b];
       parse(server.address) == Some(x.address) && x.port == server.port && x.weight == server.weight
       && x.region == regions[s.a].name
  }

  /** The list has one server for every named slot before `end`, in the order of the slots: by the
      domain's regions first, then by the configuration. */
  ghost predicate LaidOut(regions: seq<Region>, parse: IpParser, names: seq<string>, service: string,
                          servers: seq<ServerInfo>, slots: seq<Slot>, end: Slot)
  {
    && |slots| == |servers|
    && (forall i, j :: 0 <= i < j < |slots| ==> Earlier(slots[i], slots[j]))
    && (forall s :: s in slots <==> Named(regions, names, service, s) && Earlier(s, end))
    && (forall i :: 0 <= i < |slots| ==> Stands(regions, parse, names, service, slots[i], servers[i]))
  }

  predicate LastOfName(domains: seq<Domain>, k: int) {
    && 0 <= k < |domains|
    && forall j :: k < j < |domains| ==> NormalizeDomain(domains[j].name) != NormalizeDomain(domains[k].name)
  }

  /** The entry of the domain: its settings, and every configured server of its service in the
      regions it names, once for each time a region is named. */
  ghost predicate AsConfigured(regions: seq<Region>, d: Domain, defaultTtl: int, parse: IpParser,
                               factory: RouterFactory, built: Domains)
  {
    && NormalizeDomain(d.name) in built
    && var e := built[NormalizeDomain(d.name)];
       && e.name == NormalizeDomain(d.name)
       && e.ttl == (if d.ttl % 0x1_0000_0000 == 0 then defaultTtl % 0x1_0000_0000 else d.ttl % 0x1_0000_0000)
       && e.algorithm == d.algorithm
       && factory(d.algorithm) == Some(e.router)
       && exists slots :: LaidOut(regions, parse, d.regions, d.name, e.servers, slots, Slot(|d.regions|, 0, 0))
  }

  /** The registry has the configured domains and no others; of several that share a name the last
      one counts. */
  ghost predicate AllAsConfigured(regions: seq<Region>, domains: seq<Domain>, defaultTtl: int, parse: IpParser,
                                  factory: RouterFactory, built: Domains)
  {
    && built.Keys == (set d | d in domains :: NormalizeDomain(d.name))
    && forall k :: LastOfName(domains, k) ==> AsConfigured(regions, domains[k], defaultTtl, parse, factory, built)
  }

  lemma LaidOutMembers(regions: seq<Region>, parse: IpParser, names: seq<string>, service: string,
                       servers: seq<ServerInfo>, slots: seq<Slot>, x: ServerInfo)
    requires LaidOut(regions, parse, names, service, servers, slots, Slot(|names|, 0, 0))
    ensures x in servers <==> exists s :: Stands(regions, parse, names, service, s, x)
  {
    if i :| 0 <= i < |servers| && servers[i] == x {
      assert Stands(regions, parse, names, service, slots[i], x);
    }
    if s :| Stands(regions, parse, names, service, s, x) {
      assert s in slots;
      var i :| 0 <= i < |slots| && slots[i] == s;
      assert Stands(regions, parse, names, service, slots[i], servers[i]);
    }
  }

  /** So a server is in the list exactly if it is a configured one of the service in a named region. */
  lemma ServedIffConfigured(regions: seq<Region>, d: Domain, defaultTtl: int, parse: IpParser, factory: RouterFactory,
                            built: Domains, x: ServerInfo)
    requires AsConfigured(regions, d, defaultTtl, parse, factory, built)
    ensures x in built[NormalizeDomain(d.name)].servers <==> exists s :: Stands(regions, parse, d.regions, d.name, s, x)
  {
    hide LaidOut, Stands;
    var servers := built[NormalizeDomain(d.name)].servers;
    var slots :| LaidOut(regions, parse, d.regions, d.name, servers, slots, Slot(|d.regions|, 0, 0));
    LaidOutMembers(regions, parse, d.regions, d.name, servers, slots, x);
  }

  lemma {:induction false} ServersForAppend(a: seq<Placed>, b: seq<Placed>, parse: IpParser, region: string,
                                            service: string)
    ensures ServersFor(a + b, parse, region, service)
         == ServersFor(a, parse, region, service) + ServersFor(b, parse, region, service)
  {
    if b == [] {
      assert a + b == a;
    } else {
      var n := |b| - 1;
      assert (a + b)[..|a| + n] == a + b[..n];
      ServersForAppend(a, b[..n], parse, region, service);
    }
  }

  /** The part of the list that comes before slot (n, a, b). */
  function Front(regions: seq<Region>, parse: IpParser, names: seq<string>, service: string, n: nat, a: nat,
                 b: nat): seq<ServerInfo>
    requires n <= |names| && a <= |regions| && b <= (if a < |regions| then |regions[a].servers| else 0)
  {
    DomainServers(PlacedServers(regions), parse, names[..n], service)
    + (if n == |names| then []
       else ServersFor(PlacedServers(regions[..a]), parse, names[n], service)
            + if a == |regions| then [] else ServersFor(PlacedIn(regions[a], b), parse, names[n], service))
  }

  lemma NextPlaced(r: Region, b: nat, parse: IpParser, region: string, service: string)
    requires 0 < b <= |r.servers| && parse(r.servers[b - 1].address).Some?
    ensures var x := r.servers[b - 1];
            ServersFor(PlacedIn(r, b), parse, region, service)
            == ServersFor(PlacedIn(r, b - 1), parse, region, service)
               + if r.name == region && x.service == service
                 then [ServerInfo(parse(x.address).value, x.port, x.weight, r.name)] else []
  {
    var placed := PlacedIn(r, b);
    assert placed[..|placed| - 1] == PlacedIn(r, b - 1);
  }

  lemma FrontNextServer(regions: seq<Region>, parse: IpParser, names: seq<string>, service: string, n: nat, a: nat,
                        b: nat)
    requires n < |names| && a < |regions| && 0 < b <= |regions[a].servers|
    requires parse(regions[a].servers[b - 1].address).Some?
    ensures var x := regions[a].servers[b - 1];
            Front(regions, parse, names, service, n, a, b)
            == Front(regions, parse, names, service, n, a, b - 1)
               + if Named(regions, names, service, Slot(n, a, b - 1))
                 then [ServerInfo(parse(x.address).value, x.port, x.weight, regions[a].name)] else []
  {
    NextPlaced(regions[a], b, parse, names[n], service);
    hide ServersFor, PlacedIn, PlacedServers, DomainServers;
  }

  lemma FrontNextRegion(regions: seq<Region>, parse: IpParser, names: seq<string>, service: string, n: nat, a: nat)
    requires n < |names| && 0 < a <= |regions|
    ensures Front(regions, parse, names, service, n, a, 0)
         == Front(regions, parse, names, service, n, a - 1, |regions[a - 1].servers|)
  {
    assert regions[..a][..a - 1] == regions[..a - 1];
    ServersForAppend(PlacedServers(regions[..a - 1]), PlacedIn(regions[a - 1], |regions[a - 1].servers|), parse,
        names[n], service);
  }

  lemma FrontNextName(regions: seq<Region>, parse: IpParser, names: seq<string>, service: string, n: nat)
    requires 0 < n <= |names|
    ensures Front(regions, parse, names, service, n, 0, 0)
         == Front(regions, parse, names, service, n - 1, |regions|, 0)
  {
    assert names[..n][..n - 1] == names[..n - 1];
    assert regions[..|regions|] == regions && regions[..0] == [];
    if regions != [] {
      assert PlacedIn(regions[0], 0) == [];
    }
  }

  lemma {:induction false} FrontIsLaidOut(regions: seq<Region>, parse: IpParser, names: seq<string>, service: string,
                                          n: nat, a: nat, b: nat) returns (slots: seq<Slot>)
    requires n <= |names| && a <= |regions| && b <= (if a < |regions| then |regions[a].servers| else 0)
    requires n == |names| ==> a == 0 && b == 0
    requires AllParse(PlacedServers(regions), parse)
    ensures LaidOut(regions, parse, names, service, Front(regions, parse, names, service, n, a, b), slots,
              Slot(n, a, b))
    decreases n, a, b
  {
    hide Front, Stands;
    if b > 0 {
      slots := FrontIsLaidOut(regions, parse, names, service, n, a, b - 1);
      PlacedContains(regions, a, b - 1);
      FrontNextServer(regions, parse, names, service, n, a, b);
      slots := LaidOneMore(regions, parse, names, service, Front(regions, parse, names, service, n, a, b - 1), slots,
          Slot(n, a, b - 1));
    } else if a > 0 {
      slots := FrontIsLaidOut(regions, parse, names, service, n, a - 1, |regions[a - 1].servers|);
      FrontNextRegion(regions, parse, names, service, n, a);
    } else if n > 0 {
      slots := FrontIsLaidOut(regions, parse, names, service, n - 1, |regions|, 0);
      FrontNextName(regions, parse, names, service, n);
    } else {
      slots := [];
      FrontIsEmptyAtFirst(regions, parse, names, service);
    }
  }

  lemma FrontIsEmptyAtFirst(regions: seq<Region>, parse: IpParser, names: seq<string>, service: string)
    ensures Front(regions, parse, names, service, 0, 0, 0) == []
  {
    assert names[..0] == [] && regions[..0] == [];
  }

  lemma LaidOneMore(regions: seq<Region>, parse: IpParser, names: seq<string>, service: string,
                    servers: seq<ServerInfo>, slots: seq<Slot>, next: Slot) returns (more: seq<Slot>)
    requires LaidOut(regions, parse, names, service, servers, slots, next)
    requires 0 <= next.n < |names| && 0 <= next.a < |regions| && 0 <= next.b < |regions[next.a].servers|
    requires parse(regions[next.a].servers[next.b].address).Some?
    ensures var x := regions[next.a].servers[next.b];
            LaidOut(regions, parse, names, service,
                    servers + (if Named(regions, names, service, next)
                               then [ServerInfo(parse(x.address).value, x.port, x.weight, regions[next.a].name)]
                                   else []),
                    more, Slot(next.n, next.a, next.b + 1))
  {
    if Named(regions, names, service, next) {
      more := slots + [next];
      assert forall i :: 0 <= i < |slots| ==> slots[i] in slots && Earlier(slots[i], next);
    } else {
      more := slots;
    }
    forall s ensures s in more <==> Named(regions, names, service, s) && Earlier(s, Slot(next.n, next.a, next.b + 1)) {
      assert Earlier(s, Slot(next.n, next.a, next.b + 1)) <==> Earlier(s, next) || s == next;
    }
  }

  lemma {:induction false} LastOfNameDecides(placed: seq<Placed>, parse: IpParser, factory: RouterFactory,
                                             defaultTtl: int, domains: seq<Domain>, k: nat)
    requires LastOfName(domains, k) && forall d :: d in domains ==> factory(d.algorithm).Some?
    ensures var d, name := domains[k], NormalizeDomain(domains[k].name);
            var r := ConfiguredDomains(placed, parse, factory, defaultTtl, domains);
            name in r && r[name] == ConfiguredEntry(placed, parse, factory(d.algorithm).value, defaultTtl,
                d).(name := name)
  {
    var last := |domains| - 1;
    assert domains[last] in domains;
    if k < last {
      LastOfNameDecides(placed, parse, factory, defaultTtl, domains[..last], k);
    }
  }

  lemma {:induction false} ConfiguredKeys(placed: seq<Placed>, parse: IpParser, factory: RouterFactory,
                                          defaultTtl: int, domains: seq<Domain>)
    requires forall d :: d in domains ==> factory(d.algorithm).Some?
    ensures ConfiguredDomains(placed, parse, factory, defaultTtl, domains).Keys
         == set d | d in domains :: NormalizeDomain(d.name)
  {
    if domains != [] {
      var last := |domains| - 1;
      ConfiguredKeys(placed, parse, factory, defaultTtl, domains[..last]);
      assert domains == domains[..last] + [domains[last]];
      assert domains[last] in domains;
    }
  }

  lemma BuiltAsConfigured(regions: seq<Region>, domains: seq<Domain>, defaultTtl: int, parse: IpParser,
                          factory: RouterFactory)
    requires AllParse(PlacedServers(regions), parse) && forall d :: d in domains ==> factory(d.algorithm).Some?
    ensures AllAsConfigured(regions, domains, defaultTtl, parse, factory,
              ConfiguredDomains(PlacedServers(regions), parse, factory, defaultTtl, domains))
  {
    ConfiguredKeys(PlacedServers(regions), parse, factory, defaultTtl, domains);
    var r := ConfiguredDomains(PlacedServers(regions), parse, factory, defaultTtl, domains);
    forall k | LastOfName(domains, k) ensures AsConfigured(regions, domains[k], defaultTtl, parse, factory, r) {
      EntryAsConfigured(regions, domains, defaultTtl, parse, factory, k);
    }
  }

  lemma EntryAsConfigured(regions: seq<Region>, domains: seq<Domain>, defaultTtl: int, parse: IpParser,
                          factory: RouterFactory, k: nat)
    requires AllParse(PlacedServers(regions), parse) && forall d :: d in domains ==> factory(d.algorithm).Some?
    requires LastOfName(domains, k)
    ensures AsConfigured(regions, domains[k], defaultTtl, parse, factory,
              ConfiguredDomains(PlacedServers(regions), parse, factory, defaultTtl, domains))
  {
    var d := domains[k];
    LastOfNameDecides(PlacedServers(regions), parse, factory, defaultTtl, domains, k);
    var slots := FrontIsLaidOut(regions, parse, d.regions, d.name, |d.regions|, 0, 0);
    assert d.regions[..|d.regions|] == d.regions;
    assert Front(regions, parse, d.regions, d.name, |d.regions|, 0, 0)
        == DomainServers(PlacedServers(regions), parse, d.regions, d.name);
  }

  /** The placed servers are the configured ones, in order, each with its region's name and check type. */
  lemma {:induction false} PlacedInIs(r: Region, n: nat)
    requires n <= |r.servers|
    ensures PlacedIn(r, n) == seq(n, b requires 0 <= b < n => Placed(r.name, r.checkType, r.servers[b]))
  {
    if n > 0 {
      PlacedInIs(r, n - 1);
    }
  }

  lemma PlacedServersAppend(regions: seq<Region>, r: Region)
    ensures PlacedServers([]) == []
    ensures PlacedServers(regions + [r])
         == PlacedServers(regions)
            + seq(|r.servers|, b requires 0 <= b < |r.servers| => Placed(r.name, r.checkType, r.servers[b]))
  {
    assert (regions + [r])[..|regions|] == regions;
    PlacedInIs(r, |r.servers|);
  }

  lemma {:induction false} PlacedInContains(r: Region, n: nat, j: nat)
    requires j < n <= |r.servers|
    ensures Placed(r.name, r.checkType, r.servers[j]) in PlacedIn(r, n)
  {
    if j < n - 1 {
      PlacedInContains(r, n - 1, j);
    }
  }

  lemma {:induction false} PlacedContains(regions: seq<Region>, i: nat, j: nat)
    requires i < |regions| && j < |regions[i].servers|
    ensures Placed(regions[i].name, regions[i].checkType, regions[i].servers[j]) in PlacedServers(regions)
  {
    var last := |regions| - 1;
    if i < last {
      PlacedContains(regions[..last], i, j);
    } else {
      PlacedInContains(regions[i], |regions[i].servers|, j);
    }
  }

  /** Every configured DNS server stands for a configured server of that region and service. */
  lemma {:induction false} ServersForMembers(placed: seq<Placed>, parse: IpParser, region: string, service: string,
                                             s: ServerInfo)
    requires s in ServersFor(placed, parse, region, service)
    ensures exists p :: p in placed && p.server.service == service && p.server.port == s.port
              && parse(p.server.address) == Some(s.address)
  {
    var last := |placed| - 1;
    var p := placed[last];
    if s in ServersFor(placed[..last], parse, region, service) {
      ServersForMembers(placed[..last], parse, region, service, s);
    } else {
      assert p in placed;
    }
  }

  lemma {:induction false} DomainServersMembers(placed: seq<Placed>, parse: IpParser, regions: seq<string>,
                                                service: string, s: ServerInfo)
    requires s in DomainServers(placed, parse, regions, service)
    ensures exists p :: p in placed && p.server.service == service && p.server.port == s.port
              && parse(p.server.address) == Some(s.address)
  {
    var last := |regions| - 1;
    if s in DomainServers(placed, parse, regions[..last], service) {
      DomainServersMembers(placed, parse, regions[..last], service, s);
    } else {
      ServersForMembers(placed, parse, regions[last], service, s);
    }
  }

  // ---------------------------------------------------------------- server lists

  /** With the canonical address as the search key, an upsert leaves exactly one server at the
      endpoint, the new one, and every other server untouched. */
  lemma UpsertEffect(servers: seq<ServerInfo>, s: ServerInfo)
    requires Unique(servers)
    ensures var r := Upsert(servers, s.address, s);
            && Unique(r)
            && forall x :: x in r <==> x == s || (x in servers && !At(x, s.address, s.port))
  {
    var i := Find(servers, s.address, s.port);
    var r := Upsert(servers, s.address, s);
    if i < |servers| {
      assert forall j :: 0 <= j < |servers| && j != i ==> r[j] == servers[j] && !At(servers[j], s.address, s.port);
      assert r[i] == s;
    } else {
      assert forall j :: 0 <= j < |servers| ==> r[j] == servers[j];
      assert r[|servers|] == s;
    }
    forall x | x in servers && !At(x, s.address, s.port) ensures x in r {
      var j :| 0 <= j < |servers| && servers[j] == x;
      assert r[j] == x;
    }
  }

  /** Removing the server at an endpoint leaves every other server and nothing at the endpoint. */
  lemma SwapRemoveEffect(servers: seq<ServerInfo>, address: string, port: int)
    requires Unique(servers)
    requires Find(servers, address, port) < |servers|
    ensures var r := SwapRemove(servers, Find(servers, address, port));
            && Unique(r)
            && forall x :: x in r <==> x in servers && !At(x, address, port)
  {
    var i, last := Find(servers, address, port), |servers| - 1;
    var r := SwapRemove(servers, i);
    forall x | x in servers && !At(x, address, port) ensures x in r {
      var j :| 0 <= j < |servers| && servers[j] == x;
      assert r[if j == last then i else j] == x;
    }
    forall x | x in r ensures x in servers && !At(x, address, port) {
      var j :| 0 <= j < |r| && r[j] == x;
      assert x == servers[if j == i then last else j];
    }
  }

  lemma FindFinds(servers: seq<ServerInfo>, address: string, port: int)
    ensures Find(servers, address, port) < |servers| <==> exists x :: x in servers && At(x, address, port)
  {
    var i := Find(servers, address, port);
    if i < |servers| {
      assert servers[i] in servers;
    }
  }

  // ---------------------------------------------------------------- the registry object

  class Registry {
    const parse: IpParser
    var domains: Domains

    constructor (parse: IpParser)
      ensures this.parse == parse && domains == map[]
    {
      this.parse := parse;
      domains := map[];
    }

    /** Adds or updates one server; the whole new state is that of the function above. */
    method RegisterServer(service: string, address: string, port: int, weight: int, region: string)
      returns (r: Result<(), Error>)
      modifies this
      ensures domains == ServerRegistered(old(domains), parse, service, address, port, weight, region)
      ensures r.Ok? <==> NormalizeDomain(service) in old(domains) && parse(address).Some?
    {
      var name := NormalizeDomain(service);
      if name !in domains {
        return Err(NotConfigured);
      }
      var ip := parse(address);
      if ip.None? {
        return Err(InvalidAddress);
      }
      var server := ServerInfo(ip.value, port, weight, region);
      var servers := domains[name].servers;
      var found := false;
      var i := 0;
      while i < |servers|
        invariant i <= |servers| && !found && servers == domains[name].servers
        invariant forall j :: 0 <= j < i ==> !At(servers[j], address, port)
      {
        if At(servers[i], address, port) {
          servers := servers[i := server];
          found := true;
          break;
        }
        i := i + 1;
      }
      assert found ==> i == Find(domains[name].servers, address, port);
      if !found {
        servers := servers + [server];
      }
      domains := domains[name := domains[name].(servers := servers)];
      return Ok(());
    }

    /** Removes one server by swapping in the last. */
    method DeregisterServer(service: string, address: string, port: int) returns (r: Result<(), Error>)
      modifies this
      ensures domains == ServerDeregistered(old(domains), service, address, port)
      ensures r.Ok? <==> domains != old(domains)
    {
      var name := NormalizeDomain(service);
      if name !in domains {
        return Err(NotConfigured);
      }
      var servers := domains[name].servers;
      var i := 0;
      while i < |servers|
        invariant i <= |servers|
        invariant forall j :: 0 <= j < i ==> !At(servers[j], address, port)
      {
        if At(servers[i], address, port) {
          assert i == Find(servers, address, port);
          var last := |servers| - 1;
          domains := domains[name := domains[name].(servers := servers[i := servers[last]][..last])];
          assert |domains[name].servers| < |old(domains)[name].servers|;
          return Ok(());
        }
        i := i + 1;
      }
      return Err(ServerNotFound);
    }

    method Register(entry: DomainEntry)
      modifies this
      ensures domains == EntryRegistered(old(domains), entry)
    {
      var name := NormalizeDomain(entry.name);
      domains := domains[name := entry.(name := name)];
    }

    method Remove(name: string)
      modifies this
      ensures domains == old(domains) - {NormalizeDomain(name)}
    {
      domains := domains - {NormalizeDomain(name)};
    }

    method RegisterDomain(name: string, ttl: nat, algorithm: string, factory: RouterFactory)
      returns (r: Result<(), Error>)
      modifies this
      ensures domains == DomainRegistered(old(domains), factory, name, ttl, algorithm)
      ensures r.Ok? <==> factory(algorithm).Some?
    {
      var router := factory(algorithm);
      if router.None? {
        return Err(NoRouter);
      }
      Register(DomainEntry(name, ttl, algorithm, router.value, []));
      return Ok(());
    }

    method UpdateDomainSettings(name: string, ttl: nat, algorithm: string, factory: RouterFactory)
      returns (r: Result<(), Error>)
      modifies this
      ensures domains == SettingsUpdated(old(domains), factory, name, ttl, algorithm)
      ensures r.Ok? <==> NormalizeDomain(name) in old(domains) && factory(algorithm).Some?
    {
      var key := NormalizeDomain(name);
      if key !in domains {
        return Err(NotConfigured);
      }
      var router := factory(algorithm);
      if router.None? {
        return Err(NoRouter);
      }
      domains := domains[key := domains[key].(ttl := ttl, router := router.value)];
      return Ok(());
    }
  }
}
