/** Domains and backends created through the API: the stored records and the live DNS registry.

    The store prefixes "domains/" and "domain_backends/" are two maps here, indexed by what
    follows the prefix; listing a domain's backends is still a search for a text prefix. */
module DomainApi {
  import opened Prelude
  import opened Naming
  import opened Dns

  const DEFAULT_TTL := 60
  const DEFAULT_ALGORITHM := "round-robin"

  /** `details` stands for the fields that never reach DNS. */
  datatype ApiDomain = ApiDomain(name: string, ttl: int, policy: string, createdAt: int, updatedAt: int,
                                 details: string)

  datatype Member = Member(id: string, address: string, port: int, weight: int, region: string)

  /** What the provider is wired to.  `configured` are the domain names of the config file. */
  datatype Wiring = Wiring(configured: set<string>, parse: IpParser, factory: RouterFactory)

  datatype State = State(domains: map<string, ApiDomain>, members: map<string, Member>, dns: Domains)

  datatype ApiError = Exists | Missing | Protected

  function Ttl(d: ApiDomain): nat {
    if Uint32(d.ttl) == 0 then DEFAULT_TTL else Uint32(d.ttl)
  }

  function Algorithm(d: ApiDomain): string {
    if d.policy == "" then DEFAULT_ALGORITHM else d.policy
  }

  function MemberPrefix(name: string): string {
    name + "/"
  }

  function MemberKey(name: string, id: string): string {
    MemberPrefix(name) + id
  }

  predicate Belongs(key: string, name: string) {
    MemberPrefix(name) <= key
  }

  // ---------------------------------------------------------------- operations

  function Completed(d: ApiDomain, now: int): ApiDomain {
    d.(ttl := if d.ttl == 0 then DEFAULT_TTL else d.ttl, policy := Algorithm(d), createdAt := now, updatedAt := now)
  }

  function Created(w: Wiring, s: State, d: ApiDomain, now: int): State {
    if d.name in w.configured || d.name in s.domains then s
    else
      var full := Completed(d, now);
      s.(domains := s.domains[d.name := full],
         dns := DomainRegistered(s.dns, w.factory, d.name, Uint32(full.ttl), full.policy))
  }

  function Edited(w: Wiring, s: State, name: string, d: ApiDomain, now: int): State {
    if name !in s.domains then s
    else
      var full := d.(name := name, createdAt := s.domains[name].createdAt, updatedAt := now);
      s.(domains := s.domains[name := full],
         dns := SettingsUpdated(s.dns, w.factory, name, Ttl(full), Algorithm(full)))
  }

  function Deleted(w: Wiring, s: State, name: string): State {
    if name in w.configured || name !in s.domains then s
    else State(s.domains - {name},
               map key | key in s.members && !Belongs(key, name) :: s.members[key],
               s.dns - {NormalizeDomain(name)})
  }

  function CompletedMember(name: string, m: Member): Member {
    m.(id := if m.id == "" then BackendKey(name, m.address, m.port) else m.id,
       weight := if m.weight == 0 then 1 else m.weight)
  }

  /** GetDomain finds a domain in the store or in the configuration ... */
  predicate Known(w: Wiring, s: State, name: string) {
    name in s.domains || name in w.configured
  }

  /** ... and otherwise makes one up if the backend registry has a backend of that service, which is
      what `registered` says. */
  function MemberAdded(w: Wiring, s: State, name: string, m: Member, registered: bool): State {
    var full := CompletedMember(name, m);
    var key := MemberKey(name, full.id);
    if !(Known(w, s, name) || registered) || key in s.members then s
    else s.(members := s.members[key := full],
            dns := ServerRegistered(s.dns, w.parse, name, full.address, full.port, full.weight, full.region))
  }

  function MemberRemoved(w: Wiring, s: State, name: string, id: string): State {
    var key := MemberKey(name, id);
    if key !in s.members then s
    else
      var m := s.members[key];
      s.(members := s.members - {key},
         dns := if m.address != "" && m.port > 0 then ServerDeregistered(s.dns, name, m.address, m.port) else s.dns)
  }

  datatype Op =
    | Create(domain: ApiDomain, at: int)
    | Edit(name: string, domain: ApiDomain, at: int)
    | Delete(name: string)
    | AddMember(name: string, member: Member, registered: bool)
    | RemoveMember(name: string, id: string)

  function Apply(w: Wiring, s: State, op: Op): State {
    match op
    case Create(d, at) => Created(w, s, d, at)
    case Edit(name, d, at) => Edited(w, s, name, d, at)
    case Delete(name) => Deleted(w, s, name)
    case AddMember(name, m, registered) => MemberAdded(w, s, name, m, registered)
    case RemoveMember(name, id) => MemberRemoved(w, s, name, id)
  }

  function Run(w: Wiring, s: State, ops: seq<Op>): State {
    if ops == [] then s else Apply(w, Run(w, s, ops[..|ops| - 1]), ops[|ops| - 1])
  }

  // ---------------------------------------------------------------- replay

  function MembersLoaded(w: Wiring, dns: Domains, members: map<string, Member>, name: string,
                         keys: seq<string>): Domains
  {
    if keys == [] then dns
    else
      var key := keys[|keys| - 1];
      var before := MembersLoaded(w, dns, members, name, keys[..|keys| - 1]);
      if key in members
      then ServerRegistered(before, w.parse, name, members[key].address, members[key].port, members[key].weight,
          members[key].region)
      else before
  }

  /** One stored domain and its backends, listed as `keys`. */
  function DomainLoaded(w: Wiring, dns: Domains, d: ApiDomain, members: map<string, Member>,
                        keys: seq<string>): Domains
  {
    if w.factory(Algorithm(d)).None? then dns
    else MembersLoaded(w, DomainRegistered(dns, w.factory, d.name, Ttl(d), Algorithm(d)), members, d.name, keys)
  }

  /** One answer of the store: a domain name and the keys of its backends. */
  datatype Listing = Listing(name: string, keys: seq<string>)

  /** LoadStoredDomainsIntoDNS over the listings in the order of the store. */
  function Replayed(w: Wiring, s: State, base: Domains, listings: seq<Listing>): Domains {
    if listings == [] then base
    else
      var last := listings[|listings| - 1];
      var before := Replayed(w, s, base, listings[..|listings| - 1]);
      if last.name in s.domains then DomainLoaded(w, before, s.domains[last.name], s.members, last.keys) else before
  }

  ghost predicate ListsMembers(members: map<string, Member>, l: Listing) {
    forall key :: key in l.keys <==> key in members && Belongs(key, l.name)
  }

  /** The listings are those of the names, each once, and for each exactly the keys with its prefix. */
  ghost predicate ListsAll(names: set<string>, members: map<string, Member>, listings: seq<Listing>) {
    && (forall name :: name in names <==> exists i :: 0 <= i < |listings| && listings[i].name == name)
    && (forall i, j :: 0 <= i < j < |listings| ==> listings[i].name != listings[j].name)
    && (forall i :: 0 <= i < |listings| ==> ListsMembers(members, listings[i]))
  }

  /** What the store answers. */
  ghost predicate Lists(s: State, listings: seq<Listing>) {
    ListsAll(s.domains.Keys, s.members, listings)
  }

  lemma ListsOneMore(names: set<string>, members: map<string, Member>, listings: seq<Listing>, more: Listing)
    requires ListsAll(names, members, listings) && more.name !in names && ListsMembers(members, more)
    ensures ListsAll(names + {more.name}, members, listings + [more])
  {
    var all := listings + [more];
    assert all[|listings|] == more && forall i :: 0 <= i < |listings| ==> all[i] == listings[i];
    forall name | name in names ensures exists i :: 0 <= i < |all| && all[i].name == name {
      var i :| 0 <= i < |listings| && listings[i].name == name;
      assert all[i].name == name;
    }
  }

  // ---------------------------------------------------------------- the provider object

  class DomainProvider {
    const wiring: Wiring
    const dns: Registry
    var domains: map<string, ApiDomain>
    var members: map<string, Member>

    constructor (wiring: Wiring, dns: Registry, domains: map<string, ApiDomain>, members: map<string, Member>)
      requires dns.parse == wiring.parse
      ensures Wired() && this.wiring == wiring && this.dns == dns && this.domains == domains && this.members == members
    {
      this.wiring := wiring;
      this.dns := dns;
      this.domains := domains;
      this.members := members;
    }

    ghost predicate Wired() {
      dns.parse == wiring.parse
    }

    function Current(): State
      reads this, dns
    {
      State(domains, members, dns.domains)
    }

    method CreateDomain(d: ApiDomain, now: int) returns (r: Result<(), ApiError>)
      modifies this, dns
      ensures Current() == Created(wiring, old(Current()), d, now)
      ensures r.Ok? <==> d.name !in wiring.configured && d.name !in old(domains)
      ensures r.Err? ==> Current() == old(Current())
      ensures r.Ok? ==>
                var policy := if d.policy == "" then "round-robin" else d.policy;
                var ttl := if d.ttl == 0 then 60 else d.ttl;
                && domains == old(domains)[d.name := d.(ttl := ttl, policy := policy, createdAt := now,
                    updatedAt := now)]
                && members == old(members)
                && dns.domains == DomainRegistered(old(dns.domains), wiring.factory, d.name, ttl % 0x1_0000_0000,
                    policy)
    {
      if d.name in wiring.configured || d.name in domains {
        return Err(Exists);
      }
      var full := d.(createdAt := now, updatedAt := now);
      if full.ttl == 0 {
        full := full.(ttl := DEFAULT_TTL);
      }
      if full.policy == "" {
        full := full.(policy := DEFAULT_ALGORITHM);
      }
      domains := domains[d.name := full];
      var _ := dns.RegisterDomain(d.name, Uint32(full.ttl), full.policy, wiring.factory);
      return Ok(());
    }

    method UpdateDomain(name: string, d: ApiDomain, now: int) returns (r: Result<(), ApiError>)
      modifies this, dns
      ensures Current() == Edited(wiring, old(Current()), name, d, now)
      ensures r.Ok? <==> name in old(domains)
      ensures r.Err? ==> Current() == old(Current())
      ensures r.Ok? ==>
                var policy := if d.policy == "" then "round-robin" else d.policy;
                var ttl := if d.ttl % 0x1_0000_0000 == 0 then 60 else d.ttl % 0x1_0000_0000;
                && domains == old(domains)[name := d.(name := name, createdAt := old(domains)[name].createdAt,
                                                      updatedAt := now)]
                && members == old(members)
                && dns.domains == SettingsUpdated(old(dns.domains), wiring.factory, name, ttl, policy)
    {
      if name !in domains {
        return Err(if name in wiring.configured then Protected else Missing);
      }
      var full := d.(name := name, createdAt := domains[name].createdAt, updatedAt := now);
      domains := domains[name := full];
      var ttl := Uint32(full.ttl);
      if ttl == 0 {
        ttl := DEFAULT_TTL;
      }
      var algorithm := full.policy;
      if algorithm == "" {
        algorithm := DEFAULT_ALGORITHM;
      }
      var _ := dns.UpdateDomainSettings(name, ttl, algorithm, wiring.factory);
      return Ok(());
    }

    method DeleteDomain(name: string) returns (r: Result<(), ApiError>)
      modifies this, dns
      ensures Current() == Deleted(wiring, old(Current()), name)
      ensures r.Ok? <==> name !in wiring.configured && name in old(domains)
      ensures r.Err? ==> Current() == old(Current())
      ensures r.Ok? ==>
                && domains == old(domains) - {name}
                && members == (map key | key in old(members) && !(name + "/" <= key) :: old(members)[key])
                && dns.domains == old(dns.domains) - {NormalizeDomain(name)}
    {
      if name in wiring.configured {
        return Err(Protected);
      }
      if name !in domains {
        return Err(Missing);
      }
      var todo := set key | key in members && Belongs(key, name);
      while todo != {}
        invariant domains == old(domains) && dns.domains == old(dns.domains)
        invariant todo <= members.Keys && forall key :: key in todo ==> Belongs(key, name)
        invariant members == map key | key in old(members) && (key in todo || !Belongs(key, name)) :: old(members)[key]
        decreases |todo|
      {
        var key :| key in todo;
        todo := todo - {key};
        members := members - {key};
      }
      domains := domains - {name};
      dns.Remove(name);
      return Ok(());
    }

    method AddDomainBackend(name: string, m: Member, registered: bool) returns (r: Result<(), ApiError>)
      requires Wired()
      modifies this, dns
      ensures Current() == MemberAdded(wiring, old(Current()), name, m, registered)
      ensures r.Ok? <==>
                && (Known(wiring, old(Current()), name) || registered)
                && MemberKey(name, CompletedMember(name, m).id) !in old(members)
      ensures r.Err? ==> Current() == old(Current())
      ensures r.Ok? ==>
                var id := if m.id == "" then BackendKey(name, m.address, m.port) else m.id;
                var weight := if m.weight == 0 then 1 else m.weight;
                && domains == old(domains)
                && members == old(members)[name + "/" + id := Member(id, m.address, m.port, weight, m.region)]
                && dns.domains == ServerRegistered(old(dns.domains), wiring.parse, name, m.address, m.port, weight,
                    m.region)
    {
      if name !in domains && name !in wiring.configured && !registered {
        return Err(Missing);
      }
      var full := m;
      if full.id == "" {
        full := full.(id := BackendKey(name, m.address, m.port));
      }
      if full.weight == 0 {
        full := full.(weight := 1);
      }
      var key := MemberKey(name, full.id);
      if key in members {
        return Err(Exists);
      }
      members := members[key := full];
      var _ := dns.RegisterServer(name, full.address, full.port, full.weight, full.region);
      return Ok(());
    }

    method RemoveDomainBackend(name: string, id: string) returns (r: Result<(), ApiError>)
      modifies this, dns
      ensures Current() == MemberRemoved(wiring, old(Current()), name, id)
      ensures r.Ok? <==> MemberKey(name, id) in old(members)
      ensures r.Err? ==> Current() == old(Current())
      ensures r.Ok? ==>
                var m := old(members)[name + "/" + id];
                && domains == old(domains) && members == old(members) - {name + "/" + id}
                && dns.domains == if m.address == "" || m.port <= 0 then old(dns.domains)
                                  else ServerDeregistered(old(dns.domains), name, m.address, m.port)
    {
      var key := MemberKey(name, id);
      if key !in members {
        return Err(Missing);
      }
      var m := members[key];
      members := members - {key};
      if m.address != "" && m.port > 0 {
        var _ := dns.DeregisterServer(name, m.address, m.port);
      }
      return Ok(());
    }

    /** Registers the backends stored under one domain, in the order the store lists them. */
    method LoadMembers(name: string) returns (ghost keys: seq<string>)
      requires Wired()
      modifies dns
      ensures forall key :: key in keys <==> key in members && Belongs(key, name)
      ensures dns.domains == MembersLoaded(wiring, old(dns.domains), members, name, keys)
    {
      keys := [];
      var todo := set key | key in members && Belongs(key, name);
      while todo != {}
        invariant forall key :: key in keys || key in todo <==> key in members && Belongs(key, name)
        invariant dns.domains == MembersLoaded(wiring, old(dns.domains), members, name, keys)
        decreases |todo|
      {
        var key :| key in todo;
        todo := todo - {key};
        assert (keys + [key])[..|keys|] == keys;
        keys := keys + [key];
        var m := members[key];
        var _ := dns.RegisterServer(name, m.address, m.port, m.weight, m.region);
      }
    }

    method LoadStoredDomainsIntoDns() returns (ghost listings: seq<Listing>)
      requires Wired() && forall name :: name in domains ==> domains[name].name == name
      modifies dns
      ensures Lists(old(Current()), listings)
      ensures dns.domains == Replayed(wiring, old(Current()), old(dns.domains), listings)
    {
      listings := [];
      ghost var start := Current();
      var todo := domains.Keys;
      while todo != {}
        invariant todo <= domains.Keys && ListsAll(domains.Keys - todo, members, listings)
        invariant dns.domains == Replayed(wiring, start, start.dns, listings)
        decreases |todo|
      {
        var name :| name in todo;
        listings := LoadNext(name, todo, start, listings);
        todo := todo - {name};
      }
      assert domains.Keys - todo == domains.Keys;
    }

    /** One round of that loop. */
    method LoadNext(name: string, ghost todo: set<string>, ghost start: State, ghost listings: seq<Listing>)
      returns (ghost more: seq<Listing>)
      requires Wired() && name in todo && name in domains && domains[name].name == name
      requires start.domains == domains && start.members == members
      requires ListsAll(domains.Keys - todo, members, listings)
      requires dns.domains == Replayed(wiring, start, start.dns, listings)
      modifies dns
      ensures ListsAll(domains.Keys - (todo - {name}), members, more)
      ensures dns.domains == Replayed(wiring, start, start.dns, more)
    {
      ghost var keys := LoadDomain(name);
      more := listings + [Listing(name, keys)];
      assert more[..|listings|] == listings;
      ListsOneMore(domains.Keys - todo, members, listings, Listing(name, keys));
      assert domains.Keys - todo + {name} == domains.Keys - (todo - {name});
    }

    /** The loop body of LoadStoredDomainsIntoDNS. */
    method LoadDomain(name: string) returns (ghost keys: seq<string>)
      requires Wired() && name in domains && domains[name].name == name
      modifies dns
      ensures ListsMembers(members, Listing(name, keys))
      ensures dns.domains == DomainLoaded(wiring, old(dns.domains), domains[name], members, keys)
    {
      var d := domains[name];
      var ttl := Uint32(d.ttl);
      if ttl == 0 {
        ttl := DEFAULT_TTL;
      }
      var algorithm := d.policy;
      if algorithm == "" {
        algorithm := DEFAULT_ALGORITHM;
      }
      var registered := dns.RegisterDomain(name, ttl, algorithm, wiring.factory);
      if registered.Err? {
        keys := SomeWalk(members, name, members.Keys);
        return;
      }
      keys := LoadMembers(name);
    }
  }

  /** A listing exists, whether or not it is asked for. */
  lemma SomeWalk(members: map<string, Member>, name: string, among: set<string>) returns (keys: seq<string>)
    ensures forall key :: key in keys <==> key in among && key in members && Belongs(key, name)
    decreases |among|
  {
    if among == {} {
      return [];
    }
    var key :| key in among;
    keys := SomeWalk(members, name, among - {key});
    if key in members && Belongs(key, name) {
      keys := keys + [key];
    }
  }
}
