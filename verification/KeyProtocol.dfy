/** Any number of Overwatch nodes creating, pulling and reloading keys in any interleaving. */
module KeyProtocol {
  import opened Prelude
  import opened KeySync

  type Cluster = map<string, Node>

  datatype Step =
    | Ensure(node: string, zone: string, algorithm: string, entropy: Entropy, now: int)
    | Pull(node: string, peer: string, order: seq<string>)
    | Restart(node: string, order: seq<string>)

  /** The keys of a node as its API answers them, in the order its map is walked. */
  function Answer(n: Node, order: seq<string>): seq<KeyPair> {
    if order == [] then []
    else
      var last := order[|order| - 1];
      var before := Answer(n, order[..|order| - 1]);
      if last in n.keys then before + [Serialised(n.keys[last])] else before
  }

  function Apply(c: Cluster, s: Step): Cluster {
    if s.node !in c then c
    else
      match s
      case Ensure(node, zone, algorithm, entropy, now) => c[node := Ensured(c[node], zone, algorithm, entropy, now).0]
      case Pull(node, peer, order) => if peer in c then c[node := ImportedAll(c[node], Answer(c[peer], order))] else c
      case Restart(node, order) => c[node := LoadedAll(c[node].(keys := map[]), order)]
  }

  function Run(c: Cluster, steps: seq<Step>): Cluster {
    if steps == [] then c else Apply(Run(c, steps[..|steps| - 1]), steps[|steps| - 1])
  }

  ghost predicate Covers(order: seq<string>, m: map<string, KeyPair>) {
    forall k :: k in order <==> k in m
  }

  /** Walks over a map meet exactly its keys. */
  ghost predicate WalkCovers(c: Cluster, s: Step) {
    match s
    case Ensure(_, _, _, _, _) => true
    case Pull(_, peer, order) => peer in c ==> Covers(order, c[peer].keys)
    case Restart(node, order) => node in c ==> Covers(order, c[node].store)
  }

  ghost predicate Admissible(c: Cluster, steps: seq<Step>) {
    forall i :: 0 <= i < |steps| ==> WalkCovers(Run(c, steps[..i]), steps[i])
  }

  // ---------------------------------------------------------------- invariant

  /** A held key: filed under its own zone, saved, and able to sign only where it was made. */
  predicate KeyOk(n: Node, zone: string) {
    zone in n.keys ==>
      var k := n.keys[zone];
      && k.pub.zone == zone && Fqdn(zone) == zone && Supported(k.pub.algorithm)
      && (k.signer ==> k.pub.nodeId == n.id)
      && StoreKey(zone) in n.store && n.store[StoreKey(zone)] == Serialised(k)
  }

  predicate StoredOk(n: Node, key: string) {
    key in n.store ==> n.store[key].pub.zone in n.keys && StoreKey(n.store[key].pub.zone) == key
  }

  ghost predicate NodeOk(n: Node) {
    (forall zone :: KeyOk(n, zone)) && (forall key :: StoredOk(n, key))
  }

  ghost predicate Inv(c: Cluster) {
    forall id :: id in c ==> c[id].id == id && NodeOk(c[id])
  }

  lemma StoreKeyInjective(a: string, b: string)
    requires Fqdn(a) == a && Fqdn(b) == b && StoreKey(a) == StoreKey(b)
    ensures a == b
  {
    var p := "dnssec/";
    assert StoreKey(a)[|p|..] == a[..|a| - 1] && StoreKey(b)[|p|..] == b[..|b| - 1];
    assert a == a[..|a| - 1] + "." && b == b[..|b| - 1] + ".";
  }

  /** Writing one key to memory and store keeps the node consistent. */
  lemma WriteKeeps(n: Node, k: KeyPair)
    requires NodeOk(n) && Fqdn(k.pub.zone) == k.pub.zone && Supported(k.pub.algorithm)
    requires k.signer ==> k.pub.nodeId == n.id
    ensures NodeOk(KeySaved(KeySet(n, k), k))
  {
    var r := KeySaved(KeySet(n, k), k);
    var z := k.pub.zone;
    assert Normalised(k) == k;
    forall zone ensures KeyOk(r, zone) {
      assert KeyOk(n, zone);
      if zone in r.keys && zone != z && StoreKey(zone) == StoreKey(z) {
        StoreKeyInjective(zone, z);
      }
    }
    forall key ensures StoredOk(r, key) {
      assert StoredOk(n, key);
    }
  }

  lemma ImportedEffect(m: Node, k: KeyPair)
    requires NodeOk(m) && Fqdn(k.pub.zone) == k.pub.zone && Supported(k.pub.algorithm)
    ensures var r, zone := Imported(m, k), k.pub.zone;
            && NodeOk(r) && r.id == m.id
            && Lookup(r.keys, zone) == (if Newer(k, Lookup(m.keys, zone)) then Some(KeyPair(k.pub, "", false))
                                        else Lookup(m.keys, zone))
            && forall z :: z != zone ==> Lookup(r.keys, z) == Lookup(m.keys, z)
  {
    WriteKeeps(m, Serialised(k).(privateKey := ""));
    assert Normalised(Serialised(k).(privateKey := "")) == Serialised(k).(privateKey := "");
    hide NodeOk, StoreKey;
  }

  lemma {:induction false} ImportedAllEffect(n: Node, p: Node, order: seq<string>)
    requires NodeOk(n) && NodeOk(p)
    ensures var r := ImportedAll(n, Answer(p, order));
            NodeOk(r) && r.id == n.id && forall zone :: Lookup(r.keys, zone) == AfterPull(n, p, order, zone)
  {
    if order != [] {
      var last, before := order[|order| - 1], order[..|order| - 1];
      ImportedAllEffect(n, p, before);
      assert order == before + [last];
      if last in p.keys {
        assert KeyOk(p, last);
        var answer := Answer(p, before);
        assert (answer + [Serialised(p.keys[last])])[..|answer|] == answer;
        ImportedEffect(ImportedAll(n, answer), Serialised(p.keys[last]));
        assert Imported(ImportedAll(n, answer), Serialised(p.keys[last])) == ImportedAll(n, Answer(p, order));
        hide NodeOk, Imported, ImportedAll, Answer;
        assert AfterPull(n, p, before, last) == Lookup(ImportedAll(n, answer).keys, last);
      }
    }
  }

  /** What a node holds for a zone after a pull: the peer's key if it is strictly newer. */
  function AfterPull(n: Node, p: Node, order: seq<string>, zone: string): Option<KeyPair> {
    if zone in order && zone in p.keys && Newer(p.keys[zone], Lookup(n.keys, zone))
    then Some(KeyPair(p.keys[zone].pub, "", false))
    else Lookup(n.keys, zone)
  }

  lemma {:induction false} LoadedAllEffect(n: Node, order: seq<string>, zone: string)
    requires NodeOk(n)
    ensures var r := LoadedAll(n.(keys := map[]), order);
            && r.id == n.id && r.store == n.store
            && Lookup(r.keys, zone) == if zone in n.keys && StoreKey(zone) in order
                then Some(Serialised(n.keys[zone])) else None
  {
    if order != [] {
      var last := order[|order| - 1];
      LoadedAllEffect(n, order[..|order| - 1], zone);
      assert order == order[..|order| - 1] + [last];
      assert StoredOk(n, last) && KeyOk(n, zone);
      if last in n.store {
        assert KeyOk(n, n.store[last].pub.zone);
      }
    }
  }

  lemma RestartEffect(n: Node, order: seq<string>)
    requires NodeOk(n) && Covers(order, n.store)
    ensures var r := LoadedAll(n.(keys := map[]), order);
            && NodeOk(r) && r.id == n.id
            && forall zone :: Lookup(r.keys, zone) == if zone in n.keys then Some(Serialised(n.keys[zone])) else None
  {
    var r := LoadedAll(n.(keys := map[]), order);
    forall zone ensures KeyOk(r, zone) && Lookup(r.keys, zone) == if zone in n.keys
        then Some(Serialised(n.keys[zone])) else None {
      assert KeyOk(n, zone);
      LoadedAllEffect(n, order, zone);
    }
    LoadedAllEffect(n, order, "");
    forall key ensures StoredOk(r, key) {
      assert StoredOk(n, key);
      if key in n.store {
        var zone := n.store[key].pub.zone;
        assert Lookup(r.keys, zone).Some?;
      }
    }
  }

  lemma EnsuredEffect(n: Node, zone: string, algorithm: string, e: Entropy, now: int)
    requires NodeOk(n)
    ensures var r := Ensured(n, zone, algorithm, e, now).0;
            && NodeOk(r) && r.id == n.id
            && (forall z :: z in n.keys ==> Lookup(r.keys, z) == Lookup(n.keys, z))
            && (forall z :: z in r.keys && z !in n.keys ==> r.keys[z].pub.nodeId == n.id)
  {
    var z := Fqdn(zone);
    assert KeyOk(n, z) && StoredOk(n, StoreKey(zone));
    if z !in n.keys && StoreKey(zone) in n.store {
      var stored := n.store[StoreKey(zone)].pub.zone;
      assert KeyOk(n, stored);
      StoreKeyInjective(stored, z);
    } else if z !in n.keys && Supported(Effective(algorithm)) {
      WriteKeeps(n, Generated(n, zone, algorithm, e, now));
    }
  }

  lemma EnsuredHolds(n: Node, zone: string, algorithm: string, e: Entropy, now: int)
    requires NodeOk(n)
    ensures var (r, ok) := Ensured(n, zone, algorithm, e, now);
            && (ok <==> Fqdn(zone) in n.keys || Supported(Effective(algorithm)))
            && r.keys.Keys == n.keys.Keys + if ok then {Fqdn(zone)} else {}
  {
    assert KeyOk(n, Fqdn(zone)) && StoredOk(n, StoreKey(zone));
    if StoreKey(zone) in n.store {
      var stored := n.store[StoreKey(zone)].pub.zone;
      assert KeyOk(n, stored);
      StoreKeyInjective(stored, Fqdn(zone));
    }
  }

  function ZonesOf(zones: seq<string>): set<string> {
    set zone | zone in zones :: Fqdn(zone)
  }

  /** Creating keys for a list of zones succeeds exactly if the algorithm is supported or no key is
      missing; then every zone has a key, and in no case is a key lost, changed or made for a zone
      that was not asked for. */
  lemma {:induction false} EnsuredAllEffect(n: Node, zones: seq<string>, algorithm: string, entropy: string -> Entropy,
                                            now: int)
    requires NodeOk(n)
    ensures var (r, ok) := EnsuredAll(n, zones, algorithm, entropy, now);
            && NodeOk(r) && r.id == n.id
            && (ok <==> Supported(Effective(algorithm)) || ZonesOf(zones) <= n.keys.Keys)
            && n.keys.Keys <= r.keys.Keys <= n.keys.Keys + ZonesOf(zones)
            && (ok ==> ZonesOf(zones) <= r.keys.Keys)
            && (forall z :: z in n.keys ==> Lookup(r.keys, z) == Lookup(n.keys, z))
  {
    if zones != [] {
      var last := |zones| - 1;
      EnsuredAllEffect(n, zones[..last], algorithm, entropy, now);
      assert zones == zones[..last] + [zones[last]];
      assert ZonesOf(zones) == ZonesOf(zones[..last]) + {Fqdn(zones[last])};
      var (m, ok) := EnsuredAll(n, zones[..last], algorithm, entropy, now);
      hide Ensured, NodeOk, ZonesOf, Supported, Effective;
      if ok {
        EnsuredEffect(m, zones[last], algorithm, entropy(zones[last]), now);
        EnsuredHolds(m, zones[last], algorithm, entropy(zones[last]), now);
      }
    }
  }

  lemma StepKeeps(c: Cluster, s: Step)
    requires Inv(c) && WalkCovers(c, s)
    ensures Inv(Apply(c, s)) && Apply(c, s).Keys == c.Keys
  {
    if s.node in c {
      assert NodeOk(c[s.node]);
      match s
      case Ensure(node, zone, algorithm, entropy, now) => EnsuredEffect(c[node], zone, algorithm, entropy, now);
      case Pull(node, peer, order) =>
        if peer in c {
          ImportedAllEffect(c[node], c[peer], order);
        }
      case Restart(node, order) => RestartEffect(c[node], order);
    }
  }

  lemma AdmissiblePrefix(c: Cluster, steps: seq<Step>)
    requires Admissible(c, steps) && steps != []
    ensures Admissible(c, steps[..|steps| - 1])
    ensures WalkCovers(Run(c, steps[..|steps| - 1]), steps[|steps| - 1])
  {
    var before := steps[..|steps| - 1];
    forall i | 0 <= i < |before| ensures WalkCovers(Run(c, before[..i]), before[i]) {
      assert before[..i] == steps[..i];
    }
  }

  lemma {:induction false} RunKeeps(c: Cluster, steps: seq<Step>)
    requires Inv(c) && Admissible(c, steps)
    ensures Inv(Run(c, steps)) && Run(c, steps).Keys == c.Keys
  {
    if steps != [] {
      AdmissiblePrefix(c, steps);
      RunKeeps(c, steps[..|steps| - 1]);
      StepKeeps(Run(c, steps[..|steps| - 1]), steps[|steps| - 1]);
    }
  }

  // ---------------------------------------------------------------- one signer

  function Held(c: Cluster, id: string, zone: string): Option<PublicKey> {
    if id in c && zone in c[id].keys then Some(c[id].keys[zone].pub) else None
  }

  predicate CanSign(c: Cluster, id: string, zone: string) {
    id in c && zone in c[id].keys && c[id].keys[zone].signer
  }

  /** In every reachable state whoever can sign for a zone made that key, so among nodes that hold
      the same key at most one can sign. */
  lemma AtMostOneSigner(c: Cluster, steps: seq<Step>, zone: string, a: string, b: string)
    requires Inv(c) && Admissible(c, steps)
    requires var r := Run(c, steps); CanSign(r, a, zone) && CanSign(r, b, zone)
    ensures var r := Run(c, steps);
            Held(r, a, zone).value.nodeId == a && (Held(r, a, zone) == Held(r, b, zone) ==> a == b)
  {
    RunKeeps(c, steps);
    var r := Run(c, steps);
    assert KeyOk(r[a], zone) && KeyOk(r[b], zone);
  }

  /** No step loses a key or goes back to an older one. */
  lemma StepNeverAges(c: Cluster, s: Step, id: string, zone: string)
    requires Inv(c) && WalkCovers(c, s)
    ensures var before, after := Held(c, id, zone), Held(Apply(c, s), id, zone);
            before.Some? ==> after.Some? && (after == before || after.value.createdAt > before.value.createdAt)
  {
    if id in c && s.node == id && zone in c[id].keys {
      assert NodeOk(c[id]);
      match s
      case Ensure(node, z, algorithm, entropy, now) => EnsuredEffect(c[node], z, algorithm, entropy, now);
      case Pull(node, peer, order) =>
        if peer in c {
          ImportedAllEffect(c[node], c[peer], order);
          assert Lookup(Apply(c, s)[id].keys, zone) == AfterPull(c[node], c[peer], order, zone);
        }
      case Restart(node, order) =>
        RestartEffect(c[node], order);
        assert Lookup(Apply(c, s)[id].keys, zone) == Some(Serialised(c[id].keys[zone]));
    }
  }

  lemma {:induction false} HeldKeysNeverAge(c: Cluster, steps: seq<Step>, id: string, zone: string)
    requires Inv(c) && Admissible(c, steps)
    ensures var before, after := Held(c, id, zone), Held(Run(c, steps), id, zone);
            before.Some? ==> after.Some? && (after == before || after.value.createdAt > before.value.createdAt)
  {
    if steps != [] {
      AdmissiblePrefix(c, steps);
      HeldKeysNeverAge(c, steps[..|steps| - 1], id, zone);
      RunKeeps(c, steps[..|steps| - 1]);
      StepNeverAges(Run(c, steps[..|steps| - 1]), steps[|steps| - 1], id, zone);
    }
  }

  // ---------------------------------------------------------------- convergence

  /** No key is generated: the round consists of pulls and restarts. */
  predicate NoGeneration(steps: seq<Step>) {
    forall s :: s in steps ==> !s.Ensure?
  }

  /** Key k is the only newest one for the zone, and somebody holds it. */
  ghost predicate OnlyNewest(c: Cluster, zone: string, k: PublicKey) {
    && (exists id :: Held(c, id, zone) == Some(k))
    && forall id :: Held(c, id, zone).Some? && Held(c, id, zone) != Some(k) ==>
        Held(c, id, zone).value.createdAt < k.createdAt
  }

  /** Nodes reached by chains of pulls that start at a holder of k. */
  function Informed(c: Cluster, zone: string, k: PublicKey, steps: seq<Step>): set<string> {
    if steps == [] then set id | id in c && Held(c, id, zone) == Some(k)
    else
      var s := steps[|steps| - 1];
      var before := Informed(c, zone, k, steps[..|steps| - 1]);
      if s.Pull? && s.peer in before && s.node in c then before + {s.node} else before
  }

  /** What a step that generates no key for the zone leaves a node holding, in terms of what was held. */
  function HeldAfter(c: Cluster, s: Step, id: string, zone: string): Option<PublicKey> {
    var mine := Held(c, id, zone);
    if !s.Pull? || s.node != id || id !in c || s.peer !in c then mine
    else
      var theirs := Held(c, s.peer, zone);
      if theirs.Some? && (mine.None? || theirs.value.createdAt > mine.value.createdAt) then theirs else mine
  }

  lemma StepHeld(c: Cluster, s: Step, id: string, zone: string)
    requires Inv(c) && WalkCovers(c, s) && (s.Ensure? ==> id != s.node || Held(c, id, zone).Some?)
    ensures Held(Apply(c, s), id, zone) == HeldAfter(c, s, id, zone)
  {
    if s.node in c && id == s.node {
      assert NodeOk(c[id]);
      match s
      case Ensure(node, z, algorithm, entropy, now) => EnsuredEffect(c[node], z, algorithm, entropy, now);
      case Pull(node, peer, order) =>
        if peer in c {
          ImportedAllEffect(c[node], c[peer], order);
          assert Lookup(Apply(c, s)[id].keys, zone) == AfterPull(c[node], c[peer], order, zone);
        }
      case Restart(node, order) =>
        RestartEffect(c[node], order);
        assert Lookup(Apply(c, s)[id].keys, zone) == if zone in c[id].keys then Some(Serialised(c[id].keys[zone]))
                 else None;
    }
  }

  lemma OnlyNewestStep(c: Cluster, s: Step, zone: string, k: PublicKey)
    requires Inv(c) && WalkCovers(c, s) && !s.Ensure? && OnlyNewest(c, zone, k)
    ensures OnlyNewest(Apply(c, s), zone, k)
    ensures forall id :: Held(c, id, zone) == Some(k) ==> Held(Apply(c, s), id, zone) == Some(k)
    ensures s.Pull? && s.node in c && Held(c, s.peer, zone) == Some(k) ==> Held(Apply(c, s), s.node, zone) == Some(k)
  {
    forall id ensures Held(Apply(c, s), id, zone) == HeldAfter(c, s, id, zone) {
      StepHeld(c, s, id, zone);
    }
    assert s.Pull? && Held(c, s.peer, zone).Some? && Held(c, s.peer, zone) != Some(k) ==>
             Held(c, s.peer, zone).value.createdAt < k.createdAt;
    var holder :| Held(c, holder, zone) == Some(k);
    assert Held(Apply(c, s), holder, zone) == Some(k);
  }

  /** Along any chain of pulls the newest key travels, whatever else happens in between. */
  lemma {:induction false} NewestKeyTravels(c: Cluster, steps: seq<Step>, zone: string, k: PublicKey)
    requires Inv(c) && Admissible(c, steps) && NoGeneration(steps) && OnlyNewest(c, zone, k)
    ensures OnlyNewest(Run(c, steps), zone, k)
    ensures forall id :: id in Informed(c, zone, k, steps) ==> Held(Run(c, steps), id, zone) == Some(k)
  {
    if steps != [] {
      var before := steps[..|steps| - 1];
      AdmissiblePrefix(c, steps);
      NewestKeyTravels(c, before, zone, k);
      RunKeeps(c, before);
      OnlyNewestStep(Run(c, before), steps[|steps| - 1], zone, k);
    }
  }

  lemma {:induction false} InformedGrows(c: Cluster, zone: string, k: PublicKey, steps: seq<Step>, holder: string,
                                         id: string)
    requires Held(c, holder, zone) == Some(k)
    ensures holder in Informed(c, zone, k, steps)
    ensures id in c && (exists s :: s in steps && s.Pull? && s.node == id && s.peer == holder) ==>
              id in Informed(c, zone, k, steps)
  {
    if steps != [] {
      InformedGrows(c, zone, k, steps[..|steps| - 1], holder, id);
      assert steps == steps[..|steps| - 1] + [steps[|steps| - 1]];
    }
  }

  /** Every node has pulled from every other. */
  ghost predicate FullRound(c: Cluster, steps: seq<Step>) {
    forall a, b :: a in c && b in c && a != b ==> exists s :: s in steps && s.Pull? && s.node == a && s.peer == b
  }

  /** All nodes hold one and the same key. */
  ghost predicate Converged(c: Cluster, zone: string) {
    exists k :: forall id :: id in c ==> Held(c, id, zone) == Some(k)
  }

  ghost predicate HasOnlyNewest(c: Cluster, zone: string) {
    exists k :: OnlyNewest(c, zone, k)
  }

  lemma UniqueNewestConverges(c: Cluster, steps: seq<Step>, zone: string, k: PublicKey)
    requires Inv(c) && Admissible(c, steps) && NoGeneration(steps) && FullRound(c, steps)
    requires OnlyNewest(c, zone, k)
    ensures forall id :: id in c ==> Held(Run(c, steps), id, zone) == Some(k)
  {
    NewestKeyTravels(c, steps, zone, k);
    var holder :| Held(c, holder, zone) == Some(k);
    forall id | id in c ensures Held(Run(c, steps), id, zone) == Some(k) {
      InformedGrows(c, zone, k, steps, holder, id);
    }
  }

  ghost predicate NoneNewer(c: Cluster, zone: string, at: int) {
    forall id :: Held(c, id, zone).Some? ==> Held(c, id, zone).value.createdAt <= at
  }

  ghost predicate AllHold(c: Cluster, zone: string) {
    forall id :: id in c ==> Held(c, id, zone).Some?
  }

  lemma NoneNewerStep(c: Cluster, s: Step, zone: string, at: int, holder: string)
    requires Inv(c) && WalkCovers(c, s) && (s.Ensure? ==> AllHold(c, zone)) && NoneNewer(c, zone, at)
    requires Held(c, holder, zone).Some? && Held(c, holder, zone).value.createdAt == at
    ensures NoneNewer(Apply(c, s), zone, at)
    ensures Held(Apply(c, s), holder, zone) == Held(c, holder, zone)
    ensures AllHold(c, zone) ==> AllHold(Apply(c, s), zone)
  {
    forall id ensures Held(Apply(c, s), id, zone) == HeldAfter(c, s, id, zone) {
      if id in c {
        StepHeld(c, s, id, zone);
      }
    }
    assert s.Pull? && Held(c, s.peer, zone).Some? ==> Held(c, s.peer, zone).value.createdAt <= at;
    assert Apply(c, s).Keys == c.Keys;
  }

  /** Neither a round without generation nor, once every node has a key, any run at all replaces a
      newest key. */
  lemma {:induction false} NoneNewerStays(c: Cluster, steps: seq<Step>, zone: string, at: int, holder: string)
    requires Inv(c) && Admissible(c, steps) && NoneNewer(c, zone, at)
    requires NoGeneration(steps) || AllHold(c, zone)
    requires Held(c, holder, zone).Some? && Held(c, holder, zone).value.createdAt == at
    ensures NoneNewer(Run(c, steps), zone, at)
    ensures Held(Run(c, steps), holder, zone) == Held(c, holder, zone)
    ensures AllHold(c, zone) ==> AllHold(Run(c, steps), zone)
  {
    if steps != [] {
      var before, s := steps[..|steps| - 1], steps[|steps| - 1];
      AdmissiblePrefix(c, steps);
      NoneNewerStays(c, before, zone, at, holder);
      RunKeeps(c, before);
      NoneNewerStep(Run(c, before), s, zone, at, holder);
    }
  }

  /** Of the nodes holding some key, one holds a key at least as new as all others. */
  lemma {:induction false} SomeoneHoldsTheNewest(c: Cluster, ids: set<string>, zone: string) returns (newest: string)
    requires ids <= c.Keys && exists id :: id in ids && Held(c, id, zone).Some?
    ensures newest in ids && Held(c, newest, zone).Some?
    ensures forall id :: id in ids && Held(c, id, zone).Some? ==>
              Held(c, id, zone).value.createdAt <= Held(c, newest, zone).value.createdAt
    decreases |ids|
  {
    newest :| newest in ids && Held(c, newest, zone).Some?;
    var rest := ids - {newest};
    if exists id :: id in rest && Held(c, id, zone).Some? {
      var other := SomeoneHoldsTheNewest(c, rest, zone);
      if Held(c, other, zone).value.createdAt > Held(c, newest, zone).value.createdAt {
        newest := other;
      }
    }
  }

  lemma AgreementIsOnTheNewest(c: Cluster, steps: seq<Step>, zone: string)
    requires Inv(c) && Admissible(c, steps) && (NoGeneration(steps) || AllHold(c, zone))
    requires (exists id :: id in c && Held(c, id, zone).Some?) && Converged(Run(c, steps), zone)
    ensures HasOnlyNewest(c, zone)
  {
    RunKeeps(c, steps);
    var k :| forall id :: id in Run(c, steps) ==> Held(Run(c, steps), id, zone) == Some(k);
    var a := SomeoneHoldsTheNewest(c, c.Keys, zone);
    var at := Held(c, a, zone).value.createdAt;
    NoneNewerStays(c, steps, zone, at, a);
    forall b | Held(c, b, zone).Some? && Held(c, b, zone) != Some(k)
      ensures Held(c, b, zone).value.createdAt < k.createdAt
    {
      if Held(c, b, zone).value.createdAt == at {
        NoneNewerStays(c, steps, zone, at, b);
      }
    }
    assert OnlyNewest(c, zone, k);
  }

  /** After a full round without generation the nodes agree on a zone that somebody had a key for
      if and only if the newest key was unique before the round. */
  lemma ConvergesIffNewestIsUnique(c: Cluster, steps: seq<Step>, zone: string)
    requires Inv(c) && Admissible(c, steps) && NoGeneration(steps) && FullRound(c, steps)
    requires exists id :: id in c && Held(c, id, zone).Some?
    ensures Converged(Run(c, steps), zone) <==> HasOnlyNewest(c, zone)
  {
    RunKeeps(c, steps);
    if HasOnlyNewest(c, zone) {
      var k :| OnlyNewest(c, zone, k);
      UniqueNewestConverges(c, steps, zone, k);
    }
    if Converged(Run(c, steps), zone) {
      AgreementIsOnTheNewest(c, steps, zone);
    }
  }

  // ---------------------------------------------------------------- whether they can ever agree

  /** A run after which all nodes hold one key. */
  ghost predicate EndsAgreed(c: Cluster, steps: seq<Step>, zone: string) {
    Admissible(c, steps) && Converged(Run(c, steps), zone)
  }

  lemma RunExtends(c: Cluster, steps: seq<Step>, s: Step)
    requires Admissible(c, steps) && WalkCovers(Run(c, steps), s)
    ensures Admissible(c, steps + [s]) && Run(c, steps + [s]) == Apply(Run(c, steps), s)
  {
    var longer := steps + [s];
    assert longer[..|steps|] == steps;
    forall i | 0 <= i < |longer| ensures WalkCovers(Run(c, longer[..i]), longer[i]) {
      assert i < |steps| ==> longer[..i] == steps[..i];
    }
  }

  lemma SomeOrder(m: map<string, KeyPair>, among: set<string>) returns (order: seq<string>)
    requires among <= m.Keys
    ensures forall key :: key in order <==> key in among
    decreases |among|
  {
    if among == {} {
      return [];
    }
    var key :| key in among;
    order := SomeOrder(m, among - {key});
    order := order + [key];
  }

  /** Continues a run so that the nodes of `ids` pull the newest key from a holder. */
  lemma {:induction false} PullFromHolder(c: Cluster, history: seq<Step>, ids: set<string>, holder: string,
                                          zone: string,
                                          k: PublicKey) returns (steps: seq<Step>)
    requires Inv(c) && Admissible(c, history) && ids <= c.Keys
    requires OnlyNewest(Run(c, history), zone, k) && Held(Run(c, history), holder, zone) == Some(k)
    ensures Admissible(c, steps) && OnlyNewest(Run(c, steps), zone, k)
    ensures forall id :: id in ids + {holder} ==> Held(Run(c, steps), id, zone) == Some(k)
    decreases |ids|
  {
    steps := history;
    if ids != {} {
      var id :| id in ids;
      steps := PullFromHolder(c, history, ids - {id}, holder, zone, k);
      RunKeeps(c, steps);
      var m := Run(c, steps);
      assert Held(m, holder, zone) == Some(k);
      var order := SomeOrder(m[holder].keys, m[holder].keys.Keys);
      var s := Pull(id, holder, order);
      RunExtends(c, steps, s);
      OnlyNewestStep(m, s, zone, k);
      steps := steps + [s];
    }
  }

  /** A time later than that of every key held for the zone. */
  lemma SomeLaterTime(c: Cluster, zone: string) returns (now: int)
    ensures forall id :: Held(c, id, zone).Some? ==> Held(c, id, zone).value.createdAt < now
  {
    if exists id :: id in c.Keys && Held(c, id, zone).Some? {
      var newest := SomeoneHoldsTheNewest(c, c.Keys, zone);
      now := Held(c, newest, zone).value.createdAt + 1;
    } else {
      now := 0;
    }
  }

  /** A key generated later than all others is the only newest one. */
  lemma LaterKeyIsOnlyNewest(c: Cluster, step: Step, zone: string)
    requires Inv(c) && Fqdn(zone) == zone && step.Ensure? && step.node in c && step.zone == zone && step.algorithm == ""
    requires zone !in c[step.node].keys
    requires forall id :: Held(c, id, zone).Some? ==> Held(c, id, zone).value.createdAt < step.now
    ensures var r := Apply(c, step);
            Held(r, step.node, zone).Some? && OnlyNewest(r, zone, Held(r, step.node, zone).value)
  {
    EnsureMakesASigner(c, step, zone);
    var r := Apply(c, step);
    forall id | id != step.node ensures Held(r, id, zone) == Held(c, id, zone) {
    }
  }

  /** The nodes can come to hold one key for the zone, by whatever steps, exactly if the newest key
      is unique or some node has none: only such a node can still generate a newer one. */
  lemma CanAgreeIff(c: Cluster, zone: string)
    requires Inv(c) && Fqdn(zone) == zone && c.Keys != {}
    ensures (exists steps :: EndsAgreed(c, steps, zone))
       <==> HasOnlyNewest(c, zone) || exists id :: id in c && Held(c, id, zone).None?
  {
    if HasOnlyNewest(c, zone) {
      var k :| OnlyNewest(c, zone, k);
      var holder :| Held(c, holder, zone) == Some(k);
      var steps := PullFromHolder(c, [], c.Keys, holder, zone, k);
      RunKeeps(c, steps);
      assert EndsAgreed(c, steps, zone);
    } else if id :| id in c && Held(c, id, zone).None? {
      AgreeOnANewKey(c, zone, id);
    } else if steps :| EndsAgreed(c, steps, zone) {
      var id :| id in c.Keys;
      assert Held(c, id, zone).Some?;
      AgreementIsOnTheNewest(c, steps, zone);
    }
  }

  lemma AgreeOnANewKey(c: Cluster, zone: string, id: string)
    requires Inv(c) && Fqdn(zone) == zone && id in c && Held(c, id, zone).None?
    ensures exists steps :: EndsAgreed(c, steps, zone)
  {
    var now := SomeLaterTime(c, zone);
    var step := Ensure(id, zone, "", Entropy(0, "", ""), now);
    LaterKeyIsOnlyNewest(c, step, zone);
    RunExtends(c, [], step);
    assert [] + [step] == [step];
    var steps := PullFromHolder(c, [step], c.Keys, id, zone, Held(Apply(c, step), id, zone).value);
    RunKeeps(c, steps);
    assert EndsAgreed(c, steps, zone);
  }

  // ---------------------------------------------------------------- signing is lost for good

  /** Every node has a key for the zone and nobody can sign with it. */
  ghost predicate Mute(c: Cluster, zone: string) {
    forall id :: id in c ==> Held(c, id, zone).Some? && !CanSign(c, id, zone)
  }

  lemma MuteStep(c: Cluster, s: Step, zone: string)
    requires Inv(c) && WalkCovers(c, s) && Mute(c, zone)
    ensures Mute(Apply(c, s), zone)
  {
    if s.node in c {
      assert NodeOk(c[s.node]) && Held(c, s.node, zone).Some?;
      match s
      case Ensure(node, z, algorithm, entropy, now) => EnsuredEffect(c[node], z, algorithm, entropy, now);
      case Pull(node, peer, order) =>
        if peer in c {
          ImportedAllEffect(c[node], c[peer], order);
          assert Lookup(Apply(c, s)[node].keys, zone) == AfterPull(c[node], c[peer], order, zone);
        }
      case Restart(node, order) =>
        RestartEffect(c[node], order);
        assert Lookup(Apply(c, s)[node].keys, zone) == Some(Serialised(c[node].keys[zone]));
    }
  }

  /** The private key is never rebuilt and a node with a key never makes another, so a mute zone
      stays mute over every run, key creation included. */
  lemma {:induction false} SigningNeverComesBack(c: Cluster, steps: seq<Step>, zone: string)
    requires Inv(c) && Admissible(c, steps) && Mute(c, zone)
    ensures Mute(Run(c, steps), zone)
  {
    if steps != [] {
      AdmissiblePrefix(c, steps);
      SigningNeverComesBack(c, steps[..|steps| - 1], zone);
      RunKeeps(c, steps[..|steps| - 1]);
      MuteStep(Run(c, steps[..|steps| - 1]), steps[|steps| - 1], zone);
    }
  }

  /** A run after which the node can sign for the zone. */
  ghost predicate EndsSigning(c: Cluster, steps: seq<Step>, id: string, zone: string) {
    Admissible(c, steps) && CanSign(Run(c, steps), id, zone)
  }

  /** Signing of a zone is lost for good exactly when every node has a key for it and none can sign:
      a node that has no key can still make one that signs. */
  lemma LostForGoodIffMute(c: Cluster, zone: string)
    requires Inv(c) && Fqdn(zone) == zone
    ensures Mute(c, zone) <==> forall steps, id :: !EndsSigning(c, steps, id, zone)
  {
    if Mute(c, zone) {
      forall steps, id ensures !EndsSigning(c, steps, id, zone) {
        if Admissible(c, steps) {
          SigningNeverComesBack(c, steps, zone);
        }
      }
    } else {
      var id :| id in c && (Held(c, id, zone).None? || CanSign(c, id, zone));
      if CanSign(c, id, zone) {
        var none: seq<Step> := [];
        assert EndsSigning(c, none, id, zone);
      } else {
        var step := Ensure(id, zone, "", Entropy(0, "", ""), 0);
        EnsureMakesASigner(c, step, zone);
        assert [step][..0] == [];
        assert EndsSigning(c, [step], id, zone);
      }
    }
  }

  /** A node without a key for the zone makes one, and can sign with it. */
  lemma EnsureMakesASigner(c: Cluster, step: Step, zone: string)
    requires Inv(c) && Fqdn(zone) == zone && step.Ensure? && step.node in c && step.zone == zone
    requires zone !in c[step.node].keys && Supported(Effective(step.algorithm))
    ensures CanSign(Apply(c, step), step.node, zone)
    ensures Held(Apply(c, step), step.node, zone).value.createdAt == step.now
  {
    var n := c[step.node];
    assert NodeOk(n) && StoredOk(n, StoreKey(zone));
    if StoreKey(zone) in n.store {
      assert KeyOk(n, n.store[StoreKey(zone)].pub.zone);
      StoreKeyInjective(n.store[StoreKey(zone)].pub.zone, zone);
    }
  }

  /** A restart mutes the zone exactly when every node has a key for it and no other node signs. */
  lemma RestartMutesIff(c: Cluster, zone: string, node: string, order: seq<string>)
    requires Inv(c) && node in c && Covers(order, c[node].store)
    ensures Mute(Apply(c, Restart(node, order)), zone)
       <==> (forall id :: id in c ==> Held(c, id, zone).Some? && (id == node || !CanSign(c, id, zone)))
  {
    assert NodeOk(c[node]);
    RestartEffect(c[node], order);
    var r := Apply(c, Restart(node, order));
    assert Lookup(r[node].keys, zone) == if zone in c[node].keys then Some(Serialised(c[node].keys[zone])) else None;
    forall id | id in c
      ensures Held(r, id, zone) == Held(c, id, zone)
      ensures CanSign(r, id, zone) <==> id != node && CanSign(c, id, zone)
    {
    }
    assert r.Keys == c.Keys;
  }

  /** So once the nodes have converged, one restart of the node that made the key is enough. */
  lemma RestartOfTheSignerMutes(c: Cluster, zone: string, k: PublicKey, order: seq<string>, steps: seq<Step>)
    requires Inv(c) && k.nodeId in c && (forall id :: id in c ==> Held(c, id, zone) == Some(k))
    requires Covers(order, c[k.nodeId].store)
    requires Admissible(Apply(c, Restart(k.nodeId, order)), steps)
    ensures Mute(Run(Apply(c, Restart(k.nodeId, order)), steps), zone)
  {
    forall id | id in c && CanSign(c, id, zone) ensures id == k.nodeId {
      assert Held(c, id, zone) == Some(k) && KeyOk(c[id], zone);
    }
    RestartMutesIff(c, zone, k.nodeId, order);
    StepKeeps(c, Restart(k.nodeId, order));
    SigningNeverComesBack(Apply(c, Restart(k.nodeId, order)), steps, zone);
  }

  /** Before convergence it is not: another node that has pulled nothing makes its own key. */
  lemma AnotherNodeSignsAfterARestart(c: Cluster, a: string, b: string, zone: string, e: Entropy, now: int)
    requires a != b && c == map[a := Node(a, map[], map[]), b := Node(b, map[], map[])] && Fqdn(zone) == zone
    ensures var steps := [Ensure(a, zone, "", e, now), Restart(a, [StoreKey(zone)]), Ensure(b, zone, "", e, now)];
            && CanSign(Run(c, steps[..1]), a, zone)
            && (forall id :: !CanSign(Run(c, steps[..2]), id, zone))
            && EndsSigning(c, steps, b, zone)
  {
    var first, second, third := Ensure(a, zone, "", e, now), Restart(a, [StoreKey(zone)]), Ensure(b, zone, "", e, now);
    var steps := [first, second, third];
    RunOfThree(c, first, second, third);
    FreshClusterIsConsistent(c);
    EnsureMakesASigner(c, first, zone);
    StepKeeps(c, first);
    SecondKeyAfterRestart(Apply(c, first), a, b, zone, third);
    assert WalkCovers(c, first) && WalkCovers(Apply(c, first), second)
             && WalkCovers(Apply(Apply(c, first), second), third);
  }

  lemma SecondKeyAfterRestart(c: Cluster, a: string, b: string, zone: string, third: Step)
    requires Inv(c) && a != b && c.Keys == {a, b} && zone !in c[b].keys && Fqdn(zone) == zone
    requires third.Ensure? && third.node == b && third.zone == zone && Supported(Effective(third.algorithm))
    requires Covers([StoreKey(zone)], c[a].store)
    ensures var r := Apply(c, Restart(a, [StoreKey(zone)]));
            (forall id :: !CanSign(r, id, zone)) && CanSign(Apply(r, third), b, zone)
  {
    RestartMutes(c, a, [StoreKey(zone)], zone);
    StepKeeps(c, Restart(a, [StoreKey(zone)]));
    EnsureMakesASigner(Apply(c, Restart(a, [StoreKey(zone)])), third, zone);
  }

  lemma RunOfThree(c: Cluster, x: Step, y: Step, z: Step)
    ensures Run(c, [x, y, z][..0]) == c
    ensures Run(c, [x, y, z][..1]) == Apply(c, x)
    ensures Run(c, [x, y, z][..2]) == Apply(Apply(c, x), y)
    ensures Run(c, [x, y, z]) == Apply(Apply(Apply(c, x), y), z)
  {
    var steps := [x, y, z];
    assert steps[..1][..0] == [] && steps[..2][..1] == steps[..1] && steps[..0] == [];
    assert steps[..3] == steps;
  }

  /** A restarted node signs nothing. */
  lemma RestartMutes(c: Cluster, node: string, order: seq<string>, zone: string)
    requires Inv(c) && node in c && Covers(order, c[node].store)
    ensures !CanSign(Apply(c, Restart(node, order)), node, zone)
  {
    assert NodeOk(c[node]);
    RestartEffect(c[node], order);
    var r := Apply(c, Restart(node, order));
    assert Lookup(r[node].keys, zone) == if zone in c[node].keys then Some(Serialised(c[node].keys[zone])) else None;
  }

  // ---------------------------------------------------------------- who signs after a round

  predicate NoRestart(steps: seq<Step>) {
    forall s :: s in steps ==> !s.Restart?
  }

  /** Who made a key holds one at least as new, and signs with any key of its own making. */
  ghost predicate MakersKeepUp(c: Cluster) {
    forall id, zone :: MakerKeepsUp(c, id, zone)
  }

  ghost predicate MakerKeepsUp(c: Cluster, id: string, zone: string) {
    Held(c, id, zone).Some? ==>
      var k := Held(c, id, zone).value;
      && Held(c, k.nodeId, zone).Some?
      && Held(c, k.nodeId, zone).value.createdAt >= k.createdAt
      && (k.nodeId == id ==> CanSign(c, id, zone))
  }

  lemma MakersEnsure(c: Cluster, s: Step, id: string, zone: string)
    requires Inv(c) && s.Ensure? && s.node in c && MakersKeepUp(c)
    ensures MakerKeepsUp(Apply(c, s), id, zone)
  {
    assert NodeOk(c[s.node]);
    EnsuredEffect(c[s.node], s.zone, s.algorithm, s.entropy, s.now);
    if Held(c, id, zone).Some? {
      assert MakerKeepsUp(c, id, zone);
      StepNeverAges(c, s, id, zone);
      StepNeverAges(c, s, Held(c, id, zone).value.nodeId, zone);
    } else {
      NewKeysSign(c[s.node], s.zone, s.algorithm, s.entropy, s.now, zone);
    }
  }

  lemma MakersPull(c: Cluster, s: Step, id: string, zone: string)
    requires Inv(c) && WalkCovers(c, s) && s.Pull? && s.node in c && s.peer in c && MakersKeepUp(c)
    ensures MakerKeepsUp(Apply(c, s), id, zone)
  {
    if Held(Apply(c, s), id, zone).Some? {
      var k := Held(Apply(c, s), id, zone).value;
      StepHeld(c, s, id, zone);
      var from := if Held(c, id, zone) == Some(k) then id else s.peer;
      assert MakerKeepsUp(c, from, zone);
      StepNeverAges(c, s, k.nodeId, zone);
      if k.nodeId == id {
        OwnKeyStays(c, s, id, zone);
      }
    }
  }

  /** A node that holds a key of its own making, at least as new as the peer's, keeps its signer. */
  lemma OwnKeyStays(c: Cluster, s: Step, id: string, zone: string)
    requires Inv(c) && WalkCovers(c, s) && s.Pull? && s.node in c && s.peer in c && MakersKeepUp(c)
    requires Held(Apply(c, s), id, zone).Some? && Held(Apply(c, s), id, zone).value.nodeId == id
    ensures CanSign(Apply(c, s), id, zone)
  {
    StepHeld(c, s, id, zone);
    assert MakerKeepsUp(c, id, zone) && MakerKeepsUp(c, s.peer, zone);
    if id == s.node {
      assert NodeOk(c[id]) && NodeOk(c[s.peer]);
      ImportedAllEffect(c[id], c[s.peer], s.order);
      assert Lookup(Apply(c, s)[id].keys, zone) == AfterPull(c[id], c[s.peer], s.order, zone);
    }
  }

  lemma MakersStep(c: Cluster, s: Step)
    requires Inv(c) && WalkCovers(c, s) && !s.Restart? && MakersKeepUp(c)
    ensures MakersKeepUp(Apply(c, s))
  {
    if s.node in c && (s.Pull? ==> s.peer in c) {
      forall id, zone ensures MakerKeepsUp(Apply(c, s), id, zone) {
        if s.Ensure? {
          MakersEnsure(c, s, id, zone);
        } else {
          MakersPull(c, s, id, zone);
        }
      }
    }
  }

  lemma NewKeysSign(n: Node, zone: string, algorithm: string, e: Entropy, now: int, z: string)
    requires NodeOk(n)
    ensures var r := Ensured(n, zone, algorithm, e, now).0;
            z in r.keys && z !in n.keys ==> r.keys[z].signer && r.keys[z].pub.nodeId == n.id
  {
    assert KeyOk(n, Fqdn(zone)) && StoredOk(n, StoreKey(zone));
    if Fqdn(zone) !in n.keys && StoreKey(zone) in n.store {
      var stored := n.store[StoreKey(zone)].pub.zone;
      assert KeyOk(n, stored);
      StoreKeyInjective(stored, Fqdn(zone));
    }
  }

  lemma {:induction false} MakersRun(c: Cluster, steps: seq<Step>)
    requires Inv(c) && Admissible(c, steps) && NoRestart(steps) && MakersKeepUp(c)
    ensures MakersKeepUp(Run(c, steps))
  {
    if steps != [] {
      AdmissiblePrefix(c, steps);
      MakersRun(c, steps[..|steps| - 1]);
      RunKeeps(c, steps[..|steps| - 1]);
      MakersStep(Run(c, steps[..|steps| - 1]), steps[|steps| - 1]);
    }
  }

  /** From a fresh cluster, over any creation and pulls and then a full round of pulls: exactly the
      node that made the unique newest key can sign. */
  lemma ExactlyTheMakerSigns(c: Cluster, history: seq<Step>, round: seq<Step>, zone: string, k: PublicKey, id: string)
    requires forall n :: n in c ==> c[n] == Node(n, map[], map[])
    requires Admissible(c, history) && NoRestart(history)
    requires var m := Run(c, history);
             Admissible(m, round) && NoRestart(round) && NoGeneration(round) && FullRound(m, round)
                 && OnlyNewest(m, zone, k)
    ensures CanSign(Run(Run(c, history), round), id, zone) <==> id == k.nodeId
  {
    FreshClusterIsConsistent(c);
    RunKeeps(c, history);
    MakersRun(c, history);
    var m := Run(c, history);
    RunKeeps(m, round);
    MakersRun(m, round);
    UniqueNewestConverges(m, round, zone, k);
    var r := Run(m, round);
    var holder :| Held(m, holder, zone) == Some(k);
    assert MakerKeepsUp(m, holder, zone) && k.nodeId in m;
    assert Held(r, k.nodeId, zone) == Some(k) && MakerKeepsUp(r, k.nodeId, zone);
    if CanSign(r, id, zone) {
      assert KeyOk(r[id], zone) && Held(r, id, zone) == Some(k);
    }
  }

  // ---------------------------------------------------------------- the start state

  lemma FreshClusterIsConsistent(c: Cluster)
    requires forall id :: id in c ==> c[id] == Node(id, map[], map[])
    ensures Inv(c)
  {
  }
}
