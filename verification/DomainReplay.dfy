/** Live DNS against the DNS rebuilt from the store: exactly when they agree on a domain created
    through the API, over every sequence of requests. */
module DomainReplay {
  import opened Prelude
  import opened Naming
  import opened Dns
  import opened DomainApi

  // ---------------------------------------------------------------- what a caller may pass

  /** No slash, and no trailing dot. */
  predicate GoodName(name: string) {
    '/' !in name && (name == [] || name[|name| - 1] != '.')
  }

  predicate Accepted(w: Wiring, d: ApiDomain) {
    w.factory(Algorithm(d)).Some?
  }

  /** The TTL is not a multiple of 2^32 other than 0. */
  predicate TtlSurvives(d: ApiDomain) {
    d.ttl == 0 || Uint32(d.ttl) != 0
  }

  /** A backend as the handler passes it: its id is the one made from the endpoint, its endpoint is
      usable, and its address is canonical or no address at all. */
  predicate GoodMember(w: Wiring, name: string, m: Member) {
    && (m.id == "" || m.id == BackendKey(name, m.address, m.port))
    && m.address != "" && m.port > 0
    && (w.parse(m.address) == None || w.parse(m.address) == Some(m.address))
  }

  /** The domain a request is about. */
  function Subject(op: Op): string {
    match op
    case Create(d, _) => d.name
    case Edit(name, _, _) => name
    case Delete(name) => name
    case AddMember(name, _, _) => name
    case RemoveMember(name, _) => name
  }

  ghost predicate GoodNames(ops: seq<Op>) {
    forall op :: op in ops ==> GoodName(Subject(op))
  }

  ghost predicate GoodMembers(w: Wiring, ops: seq<Op>) {
    forall op :: op in ops && op.AddMember? ==> GoodMember(w, op.name, op.member)
  }

  function Start(base: Domains): State {
    State(map[], map[], base)
  }

  // ---------------------------------------------------------------- names

  lemma NormalizeInjective(a: string, b: string)
    requires GoodName(a) && GoodName(b) && NormalizeDomain(a) == NormalizeDomain(b)
    ensures a == b
  {
    if a != [] && b != [] {
      assert NormalizeDomain(a)[..|a|] == a && NormalizeDomain(b)[..|b|] == b;
    }
  }

  /** Every stored domain is stored under its own, good name. */
  ghost predicate StoredOk(s: State) {
    forall name :: name in s.domains ==> GoodName(name) && s.domains[name].name == name
  }

  lemma {:induction false} ConfiguredNamesAreNotStored(w: Wiring, base: Domains, ops: seq<Op>, name: string)
    requires name in w.configured
    ensures name !in Run(w, Start(base), ops).domains
  {
    if ops != [] {
      ConfiguredNamesAreNotStored(w, base, ops[..|ops| - 1], name);
    }
  }

  lemma {:induction false} StoredNamesAreGood(w: Wiring, base: Domains, ops: seq<Op>)
    requires GoodNames(ops)
    ensures StoredOk(Run(w, Start(base), ops))
  {
    if ops != [] {
      var n := |ops| - 1;
      assert ops[n] in ops && forall op :: op in ops[..n] ==> op in ops;
      StoredNamesAreGood(w, base, ops[..n]);
    }
  }

  // ---------------------------------------------------------------- the past of a domain

  datatype Settings = Settings(ttl: nat, router: string, algorithm: string)

  function SettingsAt(d: Domains, home: string): Option<Settings> {
    if home in d then Some(Settings(d[home].ttl, d[home].router, d[home].algorithm)) else None
  }

  /** A stored domain: what its last successful creation asked for, the successful edits since, and
      what DNS answered under its name when it was created. */
  datatype Past = Past(created: ApiDomain, edits: seq<ApiDomain>, found: Option<Settings>)

  /** The creation, if it succeeds and is of this domain. */
  predicate Creates(w: Wiring, s: State, op: Op, name: string) {
    op.Create? && op.domain.name == name && name !in w.configured && name !in s.domains
  }

  function PastAfter(w: Wiring, s: State, p: Option<Past>, op: Op, name: string): Option<Past> {
    if Creates(w, s, op, name) then Some(Past(op.domain, [], SettingsAt(s.dns, NormalizeDomain(name))))
    else if op.Edit? && op.name == name && p.Some? then Some(p.value.(edits := p.value.edits + [op.domain]))
    else if op.Delete? && op.name == name && name !in w.configured then None
    else p
  }

  function PastOf(w: Wiring, base: Domains, ops: seq<Op>, name: string): Option<Past> {
    if ops == [] then None
    else
      var n := |ops| - 1;
      PastAfter(w, Run(w, Start(base), ops[..n]), PastOf(w, base, ops[..n], name), ops[n], name)
  }

  /** What was last asked for. */
  function Current(p: Past): ApiDomain {
    if p.edits == [] then p.created else p.edits[|p.edits| - 1]
  }

  /** What creation leaves in DNS. */
  function Begun(w: Wiring, p: Past): Option<Settings> {
    if Accepted(w, p.created)
    then Some(Settings(Uint32(if p.created.ttl == 0 then DEFAULT_TTL else p.created.ttl),
                       w.factory(Algorithm(p.created)).value, Algorithm(p.created)))
    else p.found
  }

  /** What DNS answers with: the last accepted edit decides TTL and router, creation the name of the
      algorithm and whether there is an answer at all. */
  function Live(w: Wiring, p: Past): Option<Settings>
    decreases |p.edits|
  {
    if p.edits == [] then Begun(w, p)
    else
      var n := |p.edits| - 1;
      var before, e := Live(w, p.(edits := p.edits[..n])), p.edits[n];
      if before.Some? && Accepted(w, e)
      then Some(before.value.(ttl := Ttl(e), router := w.factory(Algorithm(e)).value))
      else before
  }

  ghost predicate PastFits(w: Wiring, s: State, p: Option<Past>, name: string) {
    && (name in s.domains <==> p.Some?)
    && (p.Some? ==>
          && Algorithm(s.domains[name]) == Algorithm(Current(p.value))
          && Ttl(s.domains[name]) == Ttl(Current(p.value))
          && SettingsAt(s.dns, NormalizeDomain(name)) == Live(w, p.value))
  }

  lemma LiveAtFirst(w: Wiring, p: Past)
    requires p.edits == []
    ensures Live(w, p) == Begun(w, p)
  {
  }

  lemma LiveAfterEdit(w: Wiring, p: Past, e: ApiDomain)
    ensures var q := p.(edits := p.edits + [e]);
            && Current(q) == e
            && Live(w, q) == if Live(w, p).Some? && Accepted(w, e)
                             then Some(Live(w, p).value.(ttl := Ttl(e), router := w.factory(Algorithm(e)).value))
                             else Live(w, p)
  {
    var q := p.(edits := p.edits + [e]);
    assert q.(edits := q.edits[..|p.edits|]) == p;
  }

  lemma PastStep(w: Wiring, s: State, p: Option<Past>, op: Op, name: string)
    requires PastFits(w, s, p, name) && GoodName(name) && GoodName(Subject(op))
    ensures PastFits(w, Apply(w, s, op), PastAfter(w, s, p, op, name), name)
  {
    hide Live;
    if NormalizeDomain(Subject(op)) == NormalizeDomain(name) {
      NormalizeInjective(Subject(op), name);
    }
    match op
    case Create(d, at) =>
      assert Algorithm(Completed(d, at)) == Algorithm(d) && Ttl(Completed(d, at)) == Ttl(d);
      if Creates(w, s, op, name) {
        LiveAtFirst(w, PastAfter(w, s, p, op, name).value);
      }
    case Edit(n, d, _) =>
      if n == name && p.Some? {
        LiveAfterEdit(w, p.value, d);
      }
    case Delete(_) =>
    case AddMember(_, _, _) =>
    case RemoveMember(_, _) =>
  }

  lemma {:induction false} PastIsExact(w: Wiring, base: Domains, ops: seq<Op>, name: string)
    requires GoodName(name) && GoodNames(ops)
    ensures PastFits(w, Run(w, Start(base), ops), PastOf(w, base, ops, name), name)
  {
    if ops != [] {
      var n := |ops| - 1;
      assert ops[n] in ops && forall op :: op in ops[..n] ==> op in ops;
      PastIsExact(w, base, ops[..n], name);
      PastStep(w, Run(w, Start(base), ops[..n]), PastOf(w, base, ops[..n], name), ops[n], name);
    }
  }

  /** The live settings in closed form, for a domain whose last request is acceptable. */
  lemma {:induction false} LiveInClosedForm(w: Wiring, p: Past)
    requires Begun(w, p).Some?
    ensures Live(w, p).Some? && Live(w, p).value.algorithm == Begun(w, p).value.algorithm
    ensures Accepted(w, Current(p)) && p.edits != [] ==>
              && Live(w, p).value.ttl == Ttl(Current(p))
              && Live(w, p).value.router == w.factory(Algorithm(Current(p))).value
    decreases |p.edits|
  {
    if p.edits != [] {
      var q := p.(edits := p.edits[..|p.edits| - 1]);
      assert Begun(w, q) == Begun(w, p);
      LiveInClosedForm(w, q);
    }
  }

  lemma {:induction false} NotBegunIsNotLive(w: Wiring, p: Past)
    requires Begun(w, p).None?
    ensures Live(w, p).None?
    decreases |p.edits|
  {
    if p.edits != [] {
      var q := p.(edits := p.edits[..|p.edits| - 1]);
      assert Begun(w, q) == Begun(w, p);
      NotBegunIsNotLive(w, q);
    }
  }

  // ---------------------------------------------------------------- replay of the settings

  lemma {:induction false} MembersLoadedSettings(w: Wiring, dns: Domains, members: map<string, Member>, name: string,
                                                 keys: seq<string>, home: string)
    ensures SettingsAt(MembersLoaded(w, dns, members, name, keys), home) == SettingsAt(dns, home)
  {
    if keys != [] {
      MembersLoadedSettings(w, dns, members, name, keys[..|keys| - 1], home);
    }
  }

  ghost predicate Listed(listings: seq<Listing>, name: string) {
    exists i :: 0 <= i < |listings| && listings[i].name == name
  }

  lemma ListedStep(listings: seq<Listing>, n: nat, name: string)
    requires |listings| == n + 1
    ensures Listed(listings, name) <==> Listed(listings[..n], name) || listings[n].name == name
  {
    if i :| 0 <= i < |listings| && listings[i].name == name {
      if i < n {
        assert listings[..n][i].name == name;
      }
    }
    if i :| 0 <= i < n && listings[..n][i].name == name {
      assert listings[i].name == name;
    }
    assert listings[n].name == name ==> Listed(listings, name);
  }

  /** Replay answers with what is stored, if the factory accepts it, and else leaves what was there. */
  lemma {:induction false} ReplayedSettings(w: Wiring, s: State, base: Domains, listings: seq<Listing>, name: string)
    requires StoredOk(s) && GoodName(name)
    requires forall i :: 0 <= i < |listings| ==> listings[i].name in s.domains
    ensures Listed(listings, name) ==> name in s.domains
    ensures SettingsAt(Replayed(w, s, base, listings), NormalizeDomain(name))
         == if Listed(listings, name) && Accepted(w, s.domains[name])
            then Some(Settings(Ttl(s.domains[name]), w.factory(Algorithm(s.domains[name])).value,
                Algorithm(s.domains[name])))
            else SettingsAt(base, NormalizeDomain(name))
  {
    if listings != [] {
      var n := |listings| - 1;
      var l := listings[n];
      ListedStep(listings, n, name);
      ReplayedSettings(w, s, base, listings[..n], name);
      var before, d := Replayed(w, s, base, listings[..n]), s.domains[l.name];
      if NormalizeDomain(l.name) == NormalizeDomain(name) {
        NormalizeInjective(l.name, name);
      }
      if Accepted(w, d) {
        MembersLoadedSettings(w, DomainRegistered(before, w.factory, d.name, Ttl(d), Algorithm(d)), s.members, d.name,
                              l.keys, NormalizeDomain(name));
      }
    }
  }

  lemma ListsNames(s: State, listings: seq<Listing>)
    requires Lists(s, listings)
    ensures forall i :: 0 <= i < |listings| ==> listings[i].name in s.domains
    ensures forall name :: name in s.domains <==> Listed(listings, name)
  {
    forall i | 0 <= i < |listings| ensures listings[i].name in s.domains {
      assert listings[i].name == listings[i].name;
    }
  }

  /** What replay answers with for a stored domain. */
  function Reloaded(w: Wiring, d: ApiDomain, fromFile: Option<Settings>): Option<Settings> {
    if Accepted(w, d) then Some(Settings(Ttl(d), w.factory(Algorithm(d)).value, Algorithm(d))) else fromFile
  }

  /** When the two agree.  A domain is served live exactly if its creation was accepted or found an
      entry, and after a restart exactly if its last request is acceptable or the file has an entry.
      Where both serve it as last asked for, the routers agree, the TTLs agree exactly if there was
      an edit or the created TTL survives, and the names of the algorithm agree exactly if creation
      left the one last asked for. */
  ghost predicate Compared(w: Wiring, p: Past, live: Option<Settings>, rebuilt: Option<Settings>,
                           fromFile: Option<Settings>)
  {
    && (live.Some? <==> Accepted(w, p.created) || p.found.Some?)
    && (rebuilt.Some? <==> Accepted(w, Current(p)) || fromFile.Some?)
    && (live.Some? && Accepted(w, Current(p)) ==>
          && live.value.router == rebuilt.value.router
          && (live.value.ttl == rebuilt.value.ttl <==> p.edits != [] || TtlSurvives(p.created))
          && (live.value.algorithm == rebuilt.value.algorithm
              <==> Begun(w, p).value.algorithm == Algorithm(Current(p))))
    && (!Accepted(w, Current(p)) ==> rebuilt == fromFile)
  }

  lemma PastsCompare(w: Wiring, p: Past, stored: ApiDomain, fromFile: Option<Settings>)
    requires Algorithm(stored) == Algorithm(Current(p)) && Ttl(stored) == Ttl(Current(p))
    ensures Compared(w, p, Live(w, p), Reloaded(w, stored, fromFile), fromFile)
  {
    if Begun(w, p).Some? {
      LiveInClosedForm(w, p);
    } else {
      NotBegunIsNotLive(w, p);
    }
  }

  /** Over every run of requests for good names, with any TTLs, policies and backends. */
  lemma SettingsAgreeIff(w: Wiring, base: Domains, ops: seq<Op>, restartBase: Domains, listings: seq<Listing>,
                         name: string)
    requires GoodNames(ops)
    requires var s := Run(w, Start(base), ops); Lists(s, listings) && name in s.domains
    ensures PastOf(w, base, ops, name).Some?
    ensures var s, home := Run(w, Start(base), ops), NormalizeDomain(name);
            Compared(w, PastOf(w, base, ops, name).value, SettingsAt(s.dns, home),
                     SettingsAt(Replayed(w, s, restartBase, listings), home), SettingsAt(restartBase, home))
  {
    StoredNamesAreGood(w, base, ops);
    PastIsExact(w, base, ops, name);
    var s, p := Run(w, Start(base), ops), PastOf(w, base, ops, name).value;
    ListsNames(s, listings);
    ReplayedSettings(w, s, restartBase, listings, name);
    PastsCompare(w, p, s.domains[name], SettingsAt(restartBase, NormalizeDomain(name)));
  }

  // ---------------------------------------------------------------- backends and their keys

  lemma KeyBelongs(name: string, id: string)
    ensures Belongs(MemberKey(name, id), name)
  {
  }

  /** A key belongs to no other domain than the one it was made for. */
  lemma OwnerUnique(name: string, id: string, other: string)
    requires '/' !in name && '/' !in other && Belongs(MemberKey(name, id), other)
    ensures name == other
  {
    var key := MemberKey(name, id);
    assert key[|name|] == '/';
    assert key[|other|] == MemberPrefix(other)[|other|] == '/';
    assert forall i :: 0 <= i < |name| ==> key[i] == name[i] && name[i] in name;
    assert forall i :: 0 <= i < |other| ==> key[i] == MemberPrefix(other)[i] == other[i] && other[i] in other;
    assert |name| == |other|;
  }

  /** The stored backend is one of this domain, under its own key. */
  predicate Owner(w: Wiring, name: string, key: string, m: Member) {
    && GoodName(name)
    && key == MemberKey(name, m.id) && m.id == BackendKey(name, m.address, m.port)
    && GoodMember(w, name, m)
  }

  ghost predicate MemberOk(w: Wiring, members: map<string, Member>, key: string) {
    key in members ==> exists name :: Owner(w, name, key, members[key])
  }

  ghost predicate MembersOk(w: Wiring, members: map<string, Member>) {
    forall key :: MemberOk(w, members, key)
  }

  /** A stored backend under a domain's prefix is one of that domain. */
  lemma OwnedWhereItBelongs(w: Wiring, members: map<string, Member>, name: string, key: string)
    requires MembersOk(w, members) && key in members && Belongs(key, name) && GoodName(name)
    ensures Owner(w, name, key, members[key])
  {
    assert MemberOk(w, members, key);
    var owner :| Owner(w, owner, key, members[key]);
    OwnerUnique(owner, members[key].id, name);
  }

  /** Of all backends of one domain, at most one is at a given endpoint. */
  lemma SameEndpointSameKey(w: Wiring, members: map<string, Member>, name: string, a: string, b: string)
    requires MembersOk(w, members) && a in members && b in members && GoodName(name)
    requires Belongs(a, name) && Belongs(b, name)
    requires members[a].address == members[b].address && members[a].port == members[b].port
    ensures a == b
  {
    OwnedWhereItBelongs(w, members, name, a);
    OwnedWhereItBelongs(w, members, name, b);
  }

  lemma {:induction false} RunMembersOk(w: Wiring, base: Domains, ops: seq<Op>)
    requires GoodNames(ops) && GoodMembers(w, ops)
    ensures MembersOk(w, Run(w, Start(base), ops).members)
  {
    if ops != [] {
      var n := |ops| - 1;
      assert ops[n] in ops && forall op :: op in ops[..n] ==> op in ops;
      RunMembersOk(w, base, ops[..n]);
      var s, r := Run(w, Start(base), ops[..n]), Run(w, Start(base), ops);
      forall key ensures MemberOk(w, r.members, key) {
        assert MemberOk(w, s.members, key);
        if key in r.members && key !in s.members {
          assert Owner(w, ops[n].name, key, r.members[key]);
        }
      }
    }
  }

  // ---------------------------------------------------------------- which backends are shown

  function ServerOf(w: Wiring, m: Member): Option<ServerInfo> {
    if w.parse(m.address).None? then None
    else Some(ServerInfo(w.parse(m.address).value, m.port, m.weight, m.region))
  }

  /** The stored backends of a domain that creation did not hide, as DNS servers. */
  ghost predicate Visible(w: Wiring, members: map<string, Member>, hidden: set<string>, name: string, x: ServerInfo) {
    exists key :: ShowsAs(w, members, hidden, name, key, x)
  }

  predicate ShowsAs(w: Wiring, members: map<string, Member>, hidden: set<string>, name: string, key: string,
                    x: ServerInfo)
  {
    key in members && Belongs(key, name) && key !in hidden && ServerOf(w, members[key]) == Some(x)
  }

  /** Creation starts with no servers, so it hides the backends stored before; they come back when
      they are removed and added again. */
  function HiddenAfter(w: Wiring, s: State, hidden: set<string>, op: Op, name: string): set<string> {
    if Creates(w, s, op, name) then set key | key in s.members && Belongs(key, name)
    else if op.Delete? && op.name == name && name !in w.configured then {}
    else if op.RemoveMember? then hidden - {MemberKey(op.name, op.id)}
    else hidden
  }

  function HiddenOf(w: Wiring, base: Domains, ops: seq<Op>, name: string): set<string> {
    if ops == [] then {}
    else
      var n := |ops| - 1;
      HiddenAfter(w, Run(w, Start(base), ops[..n]), HiddenOf(w, base, ops[..n], name), ops[n], name)
  }

  ghost predicate ShownOk(w: Wiring, members: map<string, Member>, hidden: set<string>, dns: Domains, name: string) {
    && NormalizeDomain(name) in dns
    && Unique(dns[NormalizeDomain(name)].servers)
    && forall x :: x in dns[NormalizeDomain(name)].servers <==> Visible(w, members, hidden, name, x)
  }

  /** A domain whose creation was accepted. */
  predicate Begins(w: Wiring, p: Option<Past>) {
    p.Some? && Accepted(w, p.value.created)
  }

  ghost predicate HiddenOk(w: Wiring, s: State, p: Option<Past>, hidden: set<string>, name: string) {
    && (p.Some? ==> forall key :: key in hidden ==> key in s.members && Belongs(key, name))
    && (Begins(w, p) ==> ShownOk(w, s.members, hidden, s.dns, name))
  }

  /** Requests about another domain change nothing that shows. */
  lemma OthersLeaveItShown(w: Wiring, members: map<string, Member>, after: map<string, Member>, hidden: set<string>,
                           name: string)
    requires forall key :: Belongs(key, name) ==> (key in members <==> key in after)
    requires forall key :: Belongs(key, name) && key in members ==> members[key] == after[key]
    ensures forall x :: Visible(w, members, hidden, name, x) <==> Visible(w, after, hidden, name, x)
  {
    assert forall key, x :: ShowsAs(w, members, hidden, name, key, x) <==> ShowsAs(w, after, hidden, name, key, x);
  }

  lemma ShownAfterAdd(w: Wiring, s: State, hidden: set<string>, name: string, key: string, m: Member)
    requires MembersOk(w, s.members[key := m]) && Owner(w, name, key, m)
    requires ShownOk(w, s.members, hidden, s.dns, name) && key !in s.members && key !in hidden
    ensures ShownOk(w, s.members[key := m], hidden,
                    ServerRegistered(s.dns, w.parse, name, m.address, m.port, m.weight, m.region), name)
  {
    var after, before := s.members[key := m], s.dns[NormalizeDomain(name)].servers;
    KeyBelongs(name, m.id);
    forall x ensures Visible(w, after, hidden, name, x)
        <==> Visible(w, s.members, hidden, name, x) || ServerOf(w, m) == Some(x) {
      assert forall k :: k != key ==>
          (ShowsAs(w, after, hidden, name, k, x) <==> ShowsAs(w, s.members, hidden, name, k, x));
      assert ShowsAs(w, after, hidden, name, key, x) <==> ServerOf(w, m) == Some(x);
    }
    if w.parse(m.address).Some? {
      UpsertEffect(before, ServerInfo(m.address, m.port, m.weight, m.region));
      forall x | x in before ensures !At(x, m.address, m.port) {
        var k :| ShowsAs(w, s.members, hidden, name, k, x);
        OwnedWhereItBelongs(w, after, name, k);
        if At(x, m.address, m.port) {
          SameEndpointSameKey(w, after, name, k, key);
        }
      }
    }
  }

  lemma ShownAfterRemove(w: Wiring, s: State, hidden: set<string>, name: string, key: string)
    requires MembersOk(w, s.members) && GoodName(name) && key in s.members && Belongs(key, name)
    requires ShownOk(w, s.members, hidden, s.dns, name)
    ensures var m := s.members[key];
            ShownOk(w, s.members - {key}, hidden - {key}, ServerDeregistered(s.dns, name, m.address, m.port), name)
  {
    var m, before := s.members[key], s.dns[NormalizeDomain(name)].servers;
    OwnedWhereItBelongs(w, s.members, name, key);
    FindFinds(before, m.address, m.port);
    forall x ensures Visible(w, s.members - {key}, hidden - {key}, name, x)
                 <==> Visible(w, s.members, hidden, name, x) && !At(x, m.address, m.port) {
      assert forall k :: k != key ==>
          (ShowsAs(w, s.members - {key}, hidden - {key}, name, k, x) <==> ShowsAs(w, s.members, hidden, name, k, x));
      if k :| k in s.members && Belongs(k, name) && ServerOf(w, s.members[k]) == Some(x) {
        OwnedWhereItBelongs(w, s.members, name, k);
        if At(x, m.address, m.port) {
          forall j | ShowsAs(w, s.members, hidden, name, j, x) ensures j == key {
            OwnedWhereItBelongs(w, s.members, name, j);
            SameEndpointSameKey(w, s.members, name, j, key);
          }
        }
      }
    }
    if Find(before, m.address, m.port) < |before| {
      SwapRemoveEffect(before, m.address, m.port);
    }
  }

  /** A request about another domain leaves the backends of this one. */
  lemma OthersLeaveTheBackends(w: Wiring, s: State, op: Op, name: string, key: string)
    requires MembersOk(w, s.members) && Belongs(key, name)
    requires GoodName(name) && GoodName(Subject(op)) && Subject(op) != name
    ensures var r := Apply(w, s, op).members;
            (key in s.members <==> key in r) && (key in s.members ==> s.members[key] == r[key])
    ensures op.RemoveMember? ==> key != MemberKey(op.name, op.id)
  {
    match op
    case Create(_, _) =>
    case Edit(_, _, _) =>
    case Delete(_) =>
      if key in s.members && Belongs(key, op.name) {
        OwnedWhereItBelongs(w, s.members, name, key);
        OwnerUnique(name, s.members[key].id, op.name);
      }
    case AddMember(_, _, _) =>
      var id := CompletedMember(op.name, op.member).id;
      if key == MemberKey(op.name, id) {
        OwnerUnique(op.name, id, name);
      }
    case RemoveMember(_, _) =>
      if key == MemberKey(op.name, op.id) {
        OwnerUnique(op.name, op.id, name);
      }
  }

  lemma OthersLeaveTheEntry(w: Wiring, s: State, op: Op, name: string)
    requires GoodName(name) && GoodName(Subject(op)) && Subject(op) != name && NormalizeDomain(name) in s.dns
    ensures var home, r := NormalizeDomain(name), Apply(w, s, op).dns;
            home in r && r[home] == s.dns[home]
  {
    if NormalizeDomain(Subject(op)) == NormalizeDomain(name) {
      NormalizeInjective(Subject(op), name);
    }
  }

  lemma HiddenStepElsewhere(w: Wiring, s: State, p: Option<Past>, hidden: set<string>, op: Op, name: string)
    requires MembersOk(w, s.members) && HiddenOk(w, s, p, hidden, name)
    requires GoodName(name) && GoodName(Subject(op)) && Subject(op) != name
    ensures HiddenOk(w, Apply(w, s, op), PastAfter(w, s, p, op, name), HiddenAfter(w, s, hidden, op, name), name)
  {
    var r := Apply(w, s, op);
    forall key | Belongs(key, name)
      ensures key in s.members <==> key in r.members
      ensures key in s.members ==> s.members[key] == r.members[key]
      ensures op.RemoveMember? ==> key != MemberKey(op.name, op.id)
    {
      OthersLeaveTheBackends(w, s, op, name, key);
    }
    assert PastAfter(w, s, p, op, name) == p;
    if p.Some? {
      assert HiddenAfter(w, s, hidden, op, name) == hidden;
    }
    hide Apply, HiddenAfter, PastAfter;
    if Begins(w, p) {
      OthersLeaveItShown(w, s.members, r.members, hidden, name);
      OthersLeaveTheEntry(w, s, op, name);
    }
  }

  lemma HiddenStep(w: Wiring, s: State, p: Option<Past>, hidden: set<string>, op: Op, name: string)
    requires MembersOk(w, s.members) && MembersOk(w, Apply(w, s, op).members)
    requires HiddenOk(w, s, p, hidden, name) && PastFits(w, s, p, name)
    requires GoodName(name) && Subject(op) == name
    requires op.AddMember? ==> GoodMember(w, op.name, op.member)
    ensures HiddenOk(w, Apply(w, s, op), PastAfter(w, s, p, op, name), HiddenAfter(w, s, hidden, op, name), name)
  {
    match op
    case Create(d, at) =>
      assert Algorithm(Completed(d, at)) == Algorithm(d);
    case Edit(_, _, _) =>
      if Begins(w, p) {
        EditKeepsServers(w, s, op, name);
      }
    case Delete(_) =>
    case AddMember(_, m, registered) =>
      var full := CompletedMember(name, m);
      var key := MemberKey(name, full.id);
      KeyBelongs(name, full.id);
      if p.Some? && key !in s.members {
        assert Apply(w, s, op).members == s.members[key := full];
        if Begins(w, p) {
          ShownAfterAdd(w, s, hidden, name, key, full);
        }
      }
    case RemoveMember(_, id) =>
      var key := MemberKey(name, id);
      KeyBelongs(name, id);
      if key in s.members {
        OwnedWhereItBelongs(w, s.members, name, key);
        if Begins(w, p) {
          ShownAfterRemove(w, s, hidden, name, key);
        }
      } else if p.Some? {
        assert key !in hidden && hidden - {key} == hidden;
      }
  }

  lemma EditKeepsServers(w: Wiring, s: State, op: Op, name: string)
    requires op.Edit? && op.name == name && NormalizeDomain(name) in s.dns
    ensures var r := Apply(w, s, op);
            && r.members == s.members && NormalizeDomain(name) in r.dns
            && r.dns[NormalizeDomain(name)].servers == s.dns[NormalizeDomain(name)].servers
  {
  }

  /** Over every run of requests with good names and backends, a domain whose creation was accepted
      answers live with exactly its stored backends that are not hidden, once each. */
  lemma {:induction false} HiddenIsExact(w: Wiring, base: Domains, ops: seq<Op>, name: string)
    requires GoodName(name) && GoodNames(ops) && GoodMembers(w, ops)
    ensures HiddenOk(w, Run(w, Start(base), ops), PastOf(w, base, ops, name), HiddenOf(w, base, ops, name), name)
  {
    if ops != [] {
      var n := |ops| - 1;
      var s, p, hidden := Run(w, Start(base), ops[..n]), PastOf(w, base, ops[..n], name),
          HiddenOf(w, base, ops[..n], name);
      assert ops[n] in ops && forall op :: op in ops[..n] ==> op in ops;
      HiddenIsExact(w, base, ops[..n], name);
      PastIsExact(w, base, ops[..n], name);
      RunMembersOk(w, base, ops[..n]);
      RunMembersOk(w, base, ops);
      hide Apply, HiddenAfter, PastAfter;
      if Subject(ops[n]) == name {
        HiddenStep(w, s, p, hidden, ops[n], name);
      } else {
        HiddenStepElsewhere(w, s, p, hidden, ops[n], name);
      }
    }
  }

  // ---------------------------------------------------------------- replay of the backends

  ghost predicate LoadedFrom(w: Wiring, members: map<string, Member>, keys: seq<string>, name: string, x: ServerInfo) {
    exists key :: key in keys && ShowsAs(w, members, {}, name, key, x)
  }

  lemma {:induction false} MembersLoadedEffect(w: Wiring, members: map<string, Member>, dns: Domains, name: string,
                                               keys: seq<string>)
    requires MembersOk(w, members) && GoodName(name)
    requires forall key :: key in keys ==> key in members && Belongs(key, name)
    requires NormalizeDomain(name) in dns && dns[NormalizeDomain(name)].servers == []
    ensures var home, r := NormalizeDomain(name), MembersLoaded(w, dns, members, name, keys);
            && r.Keys == dns.Keys
            && (forall other :: other in dns && other != home ==> r[other] == dns[other])
            && Unique(r[home].servers)
            && forall x :: x in r[home].servers <==> LoadedFrom(w, members, keys, name, x)
  {
    hide NormalizeDomain, BackendKey, MemberKey, Belongs;
    if keys != [] {
      var last := |keys| - 1;
      var key, before := keys[last], keys[..last];
      assert keys == before + [key];
      MembersLoadedEffect(w, members, dns, name, before);
      var d, m := MembersLoaded(w, dns, members, name, before), members[key];
      OwnedWhereItBelongs(w, members, name, key);
      if w.parse(m.address).Some? {
        var server := ServerInfo(m.address, m.port, m.weight, m.region);
        UpsertEffect(d[NormalizeDomain(name)].servers, server);
        forall x | x in d[NormalizeDomain(name)].servers && At(x, m.address, m.port) ensures x == server {
          var k :| k in before && ShowsAs(w, members, {}, name, k, x);
          OwnedWhereItBelongs(w, members, name, k);
          SameEndpointSameKey(w, members, name, k, key);
        }
      }
      forall x ensures LoadedFrom(w, members, keys, name, x)
                   <==> LoadedFrom(w, members, before, name, x) || ServerOf(w, m) == Some(x) {
        assert ServerOf(w, m) == Some(x) ==> ShowsAs(w, members, {}, name, key, x);
      }
    }
  }

  /** Replay shows every stored backend of a domain, hidden or not. */
  lemma {:induction false} ReplayedServers(w: Wiring, s: State, base: Domains, listings: seq<Listing>, name: string)
    requires StoredOk(s) && GoodName(name) && MembersOk(w, s.members)
    requires forall i :: 0 <= i < |listings| ==> listings[i].name in s.domains && ListsMembers(s.members, listings[i])
    ensures Listed(listings, name) ==> name in s.domains
    ensures Listed(listings, name) && Accepted(w, s.domains[name]) ==>
              ShownOk(w, s.members, {}, Replayed(w, s, base, listings), name)
  {
    if listings != [] {
      var n := |listings| - 1;
      var l := listings[n];
      ListedStep(listings, n, name);
      ReplayedServers(w, s, base, listings[..n], name);
      var before, d := Replayed(w, s, base, listings[..n]), s.domains[l.name];
      if NormalizeDomain(l.name) == NormalizeDomain(name) {
        NormalizeInjective(l.name, name);
      }
      if Accepted(w, d) {
        DomainLoadedServers(w, s, before, l);
      }
    }
  }

  lemma DomainLoadedServers(w: Wiring, s: State, dns: Domains, l: Listing)
    requires StoredOk(s) && MembersOk(w, s.members) && l.name in s.domains && ListsMembers(s.members, l)
    requires Accepted(w, s.domains[l.name])
    ensures var r := DomainLoaded(w, dns, s.domains[l.name], s.members, l.keys);
            && ShownOk(w, s.members, {}, r, l.name)
            && forall other :: other != NormalizeDomain(l.name) ==>
                 (other in r <==> other in dns) && (other in dns ==> r[other] == dns[other])
  {
    var d := s.domains[l.name];
    MembersLoadedEffect(w, s.members, DomainRegistered(dns, w.factory, d.name, Ttl(d), Algorithm(d)), l.name, l.keys);
    forall x ensures LoadedFrom(w, s.members, l.keys, l.name, x) <==> Visible(w, s.members, {}, l.name, x) {
      if key :| ShowsAs(w, s.members, {}, l.name, key, x) {
        assert key in l.keys;
      }
    }
  }

  ghost predicate SameServers(a: seq<ServerInfo>, b: seq<ServerInfo>) {
    forall x :: x in a <==> x in b
  }

  /** What hides a backend is seen only where its address is one. */
  ghost predicate HidesServers(w: Wiring, members: map<string, Member>, hidden: set<string>) {
    exists key :: key in hidden && key in members && w.parse(members[key].address).Some?
  }

  lemma VisibleIsAllIff(w: Wiring, members: map<string, Member>, hidden: set<string>, name: string)
    requires MembersOk(w, members) && GoodName(name)
    requires forall key :: key in hidden ==> key in members && Belongs(key, name)
    ensures (forall x :: Visible(w, members, hidden, name, x) <==> Visible(w, members, {}, name, x))
       <==> !HidesServers(w, members, hidden)
  {
    forall x | Visible(w, members, hidden, name, x) ensures Visible(w, members, {}, name, x) {
      var key :| ShowsAs(w, members, hidden, name, key, x);
      assert ShowsAs(w, members, {}, name, key, x);
    }
    if HidesServers(w, members, hidden) {
      var key :| key in hidden && key in members && w.parse(members[key].address).Some?;
      var x := ServerOf(w, members[key]).value;
      OwnedWhereItBelongs(w, members, name, key);
      assert ShowsAs(w, members, {}, name, key, x);
      forall k ensures !ShowsAs(w, members, hidden, name, k, x) {
        if ShowsAs(w, members, hidden, name, k, x) {
          OwnedWhereItBelongs(w, members, name, k);
          SameEndpointSameKey(w, members, name, k, key);
        }
      }
      assert !Visible(w, members, hidden, name, x);
    } else {
      forall x | Visible(w, members, {}, name, x) ensures Visible(w, members, hidden, name, x) {
        var key :| ShowsAs(w, members, {}, name, key, x);
        assert ShowsAs(w, members, hidden, name, key, x);
      }
    }
  }

  /** Where creation and the last request are accepted, live and replayed DNS list the same servers
      exactly if no backend with an IP address has been stored since before the domain was created. */
  lemma ServersAgreeIff(w: Wiring, base: Domains, ops: seq<Op>, restartBase: Domains, listings: seq<Listing>,
                        name: string)
    requires GoodNames(ops) && GoodMembers(w, ops)
    requires var s := Run(w, Start(base), ops); Lists(s, listings) && name in s.domains
    requires var p := PastOf(w, base, ops, name); Begins(w, p) && Accepted(w, Current(p.value))
    ensures var s := Run(w, Start(base), ops);
            var home, rebuilt := NormalizeDomain(name), Replayed(w, s, restartBase, listings);
            && home in s.dns && home in rebuilt && Unique(s.dns[home].servers) && Unique(rebuilt[home].servers)
            && (SameServers(s.dns[home].servers, rebuilt[home].servers)
                <==> !HidesServers(w, s.members, HiddenOf(w, base, ops, name)))
  {
    var s, hidden := Run(w, Start(base), ops), HiddenOf(w, base, ops, name);
    StoredNamesAreGood(w, base, ops);
    RunMembersOk(w, base, ops);
    PastIsExact(w, base, ops, name);
    HiddenIsExact(w, base, ops, name);
    ListsNames(s, listings);
    ReplayedServers(w, s, restartBase, listings, name);
    VisibleIsAllIff(w, s.members, hidden, name);
    var live, rebuilt := s.dns[NormalizeDomain(name)].servers,
        Replayed(w, s, restartBase, listings)[NormalizeDomain(name)].servers;
    assert forall x :: x in live <==> Visible(w, s.members, hidden, name, x);
    assert forall x :: x in rebuilt <==> Visible(w, s.members, {}, name, x);
  }

  // ---------------------------------------------------------------- when the two agree

  /** The name is served by both or by neither, and by both with the same TTL, router and servers. */
  ghost predicate SameAnswers(live: Domains, rebuilt: Domains, home: string) {
    && (home in live <==> home in rebuilt)
    && (home in live && home in rebuilt ==> SameShown(live[home], rebuilt[home]))
  }

  ghost predicate SameShown(a: DomainEntry, b: DomainEntry) {
    a.ttl == b.ttl && a.router == b.router && SameServers(a.servers, b.servers)
  }

  /** Creation and the last request are both accepted or both refused; accepted, there was an edit or
      the created TTL survives, and no backend is hidden. */
  ghost predicate Agreeable(w: Wiring, p: Past, members: map<string, Member>, hidden: set<string>) {
    && (Accepted(w, p.created) <==> Accepted(w, Current(p)))
    && (Accepted(w, p.created) ==>
          (p.edits != [] || TtlSurvives(p.created)) && !HidesServers(w, members, hidden))
  }

  /** A name that the configuration file does not have is in DNS only while it is stored. */
  lemma {:induction false} NothingIsFound(w: Wiring, base: Domains, ops: seq<Op>, name: string)
    requires GoodName(name) && GoodNames(ops) && NormalizeDomain(name) !in base
    ensures match PastOf(w, base, ops, name)
            case None => NormalizeDomain(name) !in Run(w, Start(base), ops).dns
            case Some(p) => p.found.None?
  {
    if ops != [] {
      var n := |ops| - 1;
      assert ops[n] in ops && forall op :: op in ops[..n] ==> op in ops;
      NothingIsFound(w, base, ops[..n], name);
      PastIsExact(w, base, ops[..n], name);
      NothingIsFoundStep(w, Run(w, Start(base), ops[..n]), PastOf(w, base, ops[..n], name), ops[n], name);
    }
  }

  lemma NothingIsFoundStep(w: Wiring, s: State, p: Option<Past>, op: Op, name: string)
    requires GoodName(name) && GoodName(Subject(op)) && (name in s.domains <==> p.Some?)
    requires match p case None => NormalizeDomain(name) !in s.dns case Some(past) => past.found.None?
    ensures match PastAfter(w, s, p, op, name)
            case None => NormalizeDomain(name) !in Apply(w, s, op).dns
            case Some(past) => past.found.None?
  {
    if NormalizeDomain(Subject(op)) == NormalizeDomain(name) {
      NormalizeInjective(Subject(op), name);
    }
  }

  /** Over every run of requests with good names and backends, a stored domain that no file has is
      answered alike live and after a restart exactly if its past is agreeable. */
  lemma ReplayAgreesIff(w: Wiring, base: Domains, ops: seq<Op>, restartBase: Domains, listings: seq<Listing>,
                        name: string)
    requires GoodNames(ops) && GoodMembers(w, ops)
    requires var s := Run(w, Start(base), ops); Lists(s, listings) && name in s.domains
    requires NormalizeDomain(name) !in base && NormalizeDomain(name) !in restartBase
    ensures PastOf(w, base, ops, name).Some?
    ensures var s := Run(w, Start(base), ops);
            SameAnswers(s.dns, Replayed(w, s, restartBase, listings), NormalizeDomain(name))
            <==> Agreeable(w, PastOf(w, base, ops, name).value, s.members, HiddenOf(w, base, ops, name))
  {
    StoredNamesAreGood(w, base, ops);
    NothingIsFound(w, base, ops, name);
    SettingsAgreeIff(w, base, ops, restartBase, listings, name);
    var p := PastOf(w, base, ops, name);
    if Begins(w, p) && Accepted(w, Current(p.value)) {
      ServersAgreeIff(w, base, ops, restartBase, listings, name);
    }
  }

  // ---------------------------------------------------------------- runs after which they agree

  /** A request after which the two agree.  A backend may only be added to a domain that is stored or
      configured, not to a service that only the backend registry knows. */
  predicate GoodOp(w: Wiring, s: State, op: Op) {
    && GoodName(Subject(op))
    && (op.Create? ==> Accepted(w, op.domain) && TtlSurvives(op.domain))
    && (op.Edit? ==> Accepted(w, op.domain))
    && (op.AddMember? ==> GoodMember(w, op.name, op.member) && (op.registered ==> Known(w, s, op.name)))
  }

  ghost predicate GoodRun(w: Wiring, s: State, ops: seq<Op>) {
    forall i :: 0 <= i < |ops| ==> GoodOp(w, Run(w, s, ops[..i]), ops[i])
  }

  ghost predicate OwnersKnown(w: Wiring, s: State) {
    forall key, name :: key in s.members && Belongs(key, name) && GoodName(name) ==> Known(w, s, name)
  }

  lemma GoodRunSplits(w: Wiring, s: State, ops: seq<Op>)
    requires ops != [] && GoodRun(w, s, ops)
    ensures GoodRun(w, s, ops[..|ops| - 1]) && GoodOp(w, Run(w, s, ops[..|ops| - 1]), ops[|ops| - 1])
  {
    var before := ops[..|ops| - 1];
    forall i | 0 <= i < |before| ensures GoodOp(w, Run(w, s, before[..i]), before[i]) {
      assert before[..i] == ops[..i];
    }
  }

  lemma OwnersKnownStep(w: Wiring, s: State, op: Op)
    requires OwnersKnown(w, s) && GoodOp(w, s, op)
    ensures OwnersKnown(w, Apply(w, s, op))
  {
    var r := Apply(w, s, op);
    forall key, name | key in r.members && Belongs(key, name) && GoodName(name) ensures Known(w, r, name) {
      if key !in s.members {
        OwnerUnique(op.name, CompletedMember(op.name, op.member).id, name);
      }
    }
  }

  lemma {:induction false} GoodRunsKnowTheOwners(w: Wiring, base: Domains, ops: seq<Op>)
    requires GoodRun(w, Start(base), ops)
    ensures OwnersKnown(w, Run(w, Start(base), ops))
  {
    if ops != [] {
      GoodRunSplits(w, Start(base), ops);
      GoodRunsKnowTheOwners(w, base, ops[..|ops| - 1]);
      OwnersKnownStep(w, Run(w, Start(base), ops[..|ops| - 1]), ops[|ops| - 1]);
      hide OwnersKnown, Apply, GoodOp, GoodRun;
    }
  }

  lemma GoodRunsAreGood(w: Wiring, base: Domains, ops: seq<Op>)
    requires GoodRun(w, Start(base), ops)
    ensures GoodNames(ops) && GoodMembers(w, ops)
  {
    forall op | op in ops ensures GoodName(Subject(op)) && (op.AddMember? ==> GoodMember(w, op.name, op.member)) {
      var i :| 0 <= i < |ops| && ops[i] == op;
      assert GoodOp(w, Run(w, Start(base), ops[..i]), ops[i]);
    }
  }

  predicate GoodPast(w: Wiring, p: Option<Past>) {
    p.Some? ==> Accepted(w, p.value.created) && TtlSurvives(p.value.created) && Accepted(w, Current(p.value))
  }

  lemma GoodRunsHideNothingStep(w: Wiring, s: State, p: Option<Past>, op: Op, name: string)
    requires GoodPast(w, p) && OwnersKnown(w, s) && GoodName(name) && GoodOp(w, s, op)
    ensures GoodPast(w, PastAfter(w, s, p, op, name)) && HiddenAfter(w, s, {}, op, name) == {}
  {
  }

  lemma {:induction false} GoodRunsHideNothing(w: Wiring, base: Domains, ops: seq<Op>, name: string)
    requires GoodRun(w, Start(base), ops) && GoodName(name)
    ensures HiddenOf(w, base, ops, name) == {} && GoodPast(w, PastOf(w, base, ops, name))
  {
    if ops != [] {
      var n := |ops| - 1;
      GoodRunSplits(w, Start(base), ops);
      GoodRunsKnowTheOwners(w, base, ops[..n]);
      GoodRunsHideNothing(w, base, ops[..n], name);
      GoodRunsHideNothingStep(w, Run(w, Start(base), ops[..n]), PastOf(w, base, ops[..n], name), ops[n], name);
      hide PastAfter, HiddenAfter, GoodOp, OwnersKnown, GoodPast, Run;
    }
  }

  /** For every sequence of such requests, each domain created through the API answers with the same
      TTL, router and servers live and after a restart, whatever the files hold. */
  lemma ReplayRebuildsTheLiveDomains(w: Wiring, base: Domains, ops: seq<Op>, restartBase: Domains,
                                     listings: seq<Listing>, name: string)
    requires GoodRun(w, Start(base), ops)
    requires var s := Run(w, Start(base), ops); Lists(s, listings) && name in s.domains
    ensures var s := Run(w, Start(base), ops);
            var home, rebuilt := NormalizeDomain(name), Replayed(w, s, restartBase, listings);
            && home in s.dns && home in rebuilt && SameShown(s.dns[home], rebuilt[home])
            && |s.dns[home].servers| == |rebuilt[home].servers|
  {
    GoodRunsAreGood(w, base, ops);
    StoredNamesAreGood(w, base, ops);
    GoodRunsHideNothing(w, base, ops, name);
    SettingsAgreeIff(w, base, ops, restartBase, listings, name);
    ServersAgreeIff(w, base, ops, restartBase, listings, name);
    var s, home := Run(w, Start(base), ops), NormalizeDomain(name);
    UniqueListsOfTheSameSet(s.dns[home].servers, Replayed(w, s, restartBase, listings)[home].servers);
  }

  lemma UniqueListsOfTheSameSet(a: seq<ServerInfo>, b: seq<ServerInfo>)
    requires Unique(a) && Unique(b) && SameServers(a, b)
    ensures |a| == |b|
  {
    UniqueLength(a);
    UniqueLength(b);
    assert (set x | x in a) == (set x | x in b);
  }

  lemma {:induction false} UniqueLength(a: seq<ServerInfo>)
    requires Unique(a)
    ensures |set x | x in a| == |a|
  {
    if a != [] {
      var last := |a| - 1;
      UniqueLength(a[..last]);
      assert a == a[..last] + [a[last]];
      assert (set x | x in a) == (set x | x in a[..last]) + {a[last]};
      assert a[last] !in a[..last];
    }
  }

  // ---------------------------------------------------------------- configured domains

  lemma {:induction false} MembersLoadedElsewhere(w: Wiring, dns: Domains, members: map<string, Member>, name: string,
                                                  keys: seq<string>, home: string)
    requires home != NormalizeDomain(name) && home in dns
    ensures var r := MembersLoaded(w, dns, members, name, keys); home in r && r[home] == dns[home]
  {
    if keys != [] {
      MembersLoadedElsewhere(w, dns, members, name, keys[..|keys| - 1], home);
    }
  }

  /** Replay changes no entry of a name that is not stored. */
  lemma {:induction false} ReplayedElsewhere(w: Wiring, s: State, base: Domains, listings: seq<Listing>, name: string)
    requires StoredOk(s) && GoodName(name) && name !in s.domains && NormalizeDomain(name) in base
    ensures var home, r := NormalizeDomain(name), Replayed(w, s, base, listings);
            home in r && r[home] == base[home]
  {
    if listings != [] {
      var l := listings[|listings| - 1];
      ReplayedElsewhere(w, s, base, listings[..|listings| - 1], name);
      if l.name in s.domains {
        var d := s.domains[l.name];
        if NormalizeDomain(l.name) == NormalizeDomain(name) {
          NormalizeInjective(l.name, name);
        }
        if Accepted(w, d) {
          var before := Replayed(w, s, base, listings[..|listings| - 1]);
          var registered := DomainRegistered(before, w.factory, d.name, Ttl(d), Algorithm(d));
          MembersLoadedElsewhere(w, registered, s.members, d.name, l.keys, NormalizeDomain(name));
        }
      }
    }
  }

  /** Backends added through the API to a domain of the configuration file are stored and served,
      but no restart brings them back: replay leaves such a domain as the file describes it. */
  lemma ConfiguredDomainsForgetApiBackends(w: Wiring, base: Domains, ops: seq<Op>, restartBase: Domains,
                                           listings: seq<Listing>, name: string, m: Member)
    requires GoodNames(ops) && GoodName(name) && GoodMember(w, name, m) && w.parse(m.address).Some?
    requires var s := Run(w, Start(base), ops);
             && name in w.configured && NormalizeDomain(name) in s.dns
             && NormalizeDomain(name) in restartBase
             && MemberKey(name, BackendKey(name, m.address, m.port)) !in s.members
             && Unique(s.dns[NormalizeDomain(name)].servers)
    ensures var s := MemberAdded(w, Run(w, Start(base), ops), name, m, false);
            var home, rebuilt := NormalizeDomain(name), Replayed(w, s, restartBase, listings);
            && MemberKey(name, BackendKey(name, m.address, m.port)) in s.members
            && home in rebuilt && rebuilt[home] == restartBase[home]
            && exists x :: x in s.dns[home].servers && At(x, m.address, m.port)
  {
    var before := Run(w, Start(base), ops);
    var s, full := MemberAdded(w, before, name, m, false), CompletedMember(name, m);
    StoredNamesAreGood(w, base, ops);
    ConfiguredNamesAreNotStored(w, base, ops, name);
    ReplayedElsewhere(w, s, restartBase, listings, name);
    UpsertEffect(before.dns[NormalizeDomain(name)].servers, ServerInfo(m.address, m.port, full.weight, m.region));
    assert ServerInfo(m.address, m.port, full.weight, m.region) in s.dns[NormalizeDomain(name)].servers;
  }
}
