/** DNSSEC keys of one Overwatch node: the key manager, its store and the syncer. */
module KeySync {
  import opened Prelude

  /** The part of a key every node may know. */
  datatype PublicKey = PublicKey(zone: string, algorithm: string, keyTag: int, material: string, createdAt: int,
                                 nodeId: string)

  /** `signer` is the crypto signer, which exists only in the process that generated the key. */
  datatype KeyPair = KeyPair(pub: PublicKey, privateKey: string, signer: bool)

  /** Result of key generation for one zone. */
  datatype Entropy = Entropy(keyTag: int, material: string, privateKey: string)

  datatype Error = UnsupportedAlgorithm | FetchFailed

  datatype Node = Node(id: string, keys: map<string, KeyPair>, store: map<string, KeyPair>)

  /** dns.Fqdn, for names without escapes. */
  function Fqdn(name: string): (fqdn: string)
    ensures fqdn != [] && fqdn[|fqdn| - 1] == '.'
  {
    if name != [] && name[|name| - 1] == '.' then name else name + "."
  }

  /** "dnssec/" and the zone without its trailing dot. */
  function StoreKey(zone: string): string {
    "dnssec/" + Fqdn(zone)[..|Fqdn(zone)| - 1]
  }

  predicate Supported(algorithm: string) {
    algorithm == "ECDSAP256SHA256" || algorithm == "ECDSAP384SHA384"
  }

  function Effective(algorithm: string): string {
    if algorithm == "" then "ECDSAP256SHA256" else algorithm
  }

  function Lookup(keys: map<string, KeyPair>, zone: string): Option<KeyPair> {
    if zone in keys then Some(keys[zone]) else None
  }

  /** IsNewerThan: strictly later, or the other key is missing. */
  predicate Newer(k: KeyPair, other: Option<KeyPair>) {
    other.None? || k.pub.createdAt > other.value.pub.createdAt
  }

  /** What survives being written and read back: the signer is never rebuilt. */
  function Serialised(k: KeyPair): KeyPair {
    k.(signer := false)
  }

  function Normalised(k: KeyPair): KeyPair {
    k.(pub := k.pub.(zone := Fqdn(k.pub.zone)))
  }

  function KeySet(n: Node, k: KeyPair): Node {
    n.(keys := n.keys[Fqdn(k.pub.zone) := Normalised(k)])
  }

  function KeySaved(n: Node, k: KeyPair): Node {
    n.(store := n.store[StoreKey(k.pub.zone) := Serialised(k)])
  }

  /** One key of a peer's answer: newest wins, and the private part is dropped. */
  function Imported(n: Node, remote: KeyPair): Node {
    if !Newer(remote, Lookup(n.keys, Fqdn(remote.pub.zone))) then n
    else
      var k := Normalised(Serialised(remote).(privateKey := ""));
      KeySaved(KeySet(n, k), k)
  }

  function ImportedAll(n: Node, remote: seq<KeyPair>): Node {
    if remote == [] then n
    else
      var last := |remote| - 1;
      Imported(ImportedAll(n, remote[..last]), remote[last])
  }

  /** How many of the answered keys are imported, each seen after those before it. */
  function ImportCount(n: Node, remote: seq<KeyPair>): nat {
    if remote == [] then 0
    else
      var last := |remote| - 1;
      var before := ImportedAll(n, remote[..last]);
      ImportCount(n, remote[..last]) + if Newer(remote[last], Lookup(before.keys, Fqdn(remote[last].pub.zone)))
          then 1 else 0
  }

  /** The key answered at this position is later than the node's own and than all answered before it
      for the zone. */
  ghost predicate Leads(n: Node, remote: seq<KeyPair>, i: int) {
    && 0 <= i < |remote|
    && var zone, at := Fqdn(remote[i].pub.zone), remote[i].pub.createdAt;
       && (zone in n.keys ==> n.keys[zone].pub.createdAt < at)
       && forall j :: 0 <= j < i && Fqdn(remote[j].pub.zone) == zone ==> remote[j].pub.createdAt < at
  }

  lemma {:induction false} HoldsTheLatest(n: Node, remote: seq<KeyPair>, zone: string, at: int)
    requires Fqdn(zone) == zone
    ensures var held := Lookup(ImportedAll(n, remote).keys, zone);
            (held.None? || held.value.pub.createdAt < at)
            <==> (zone in n.keys ==> n.keys[zone].pub.createdAt < at)
                 && forall j :: 0 <= j < |remote| && Fqdn(remote[j].pub.zone) == zone ==> remote[j].pub.createdAt < at
  {
    if remote != [] {
      var last := |remote| - 1;
      HoldsTheLatest(n, remote[..last], zone, at);
      assert forall j :: 0 <= j < last ==> remote[..last][j] == remote[j];
    }
  }

  lemma LeadsAtTheEnd(n: Node, remote: seq<KeyPair>)
    requires remote != []
    ensures var last := |remote| - 1;
            Leads(n, remote, last)
            <==> Newer(remote[last], Lookup(ImportedAll(n, remote[..last]).keys, Fqdn(remote[last].pub.zone)))
  {
    var last := |remote| - 1;
    HoldsTheLatest(n, remote[..last], Fqdn(remote[last].pub.zone), remote[last].pub.createdAt);
    assert forall j :: 0 <= j < last ==> remote[..last][j] == remote[j];
    hide ImportedAll;
  }

  lemma LeadsBefore(n: Node, remote: seq<KeyPair>, i: int)
    requires 0 <= i < |remote| - 1
    ensures Leads(n, remote, i) <==> Leads(n, remote[..|remote| - 1], i)
  {
    assert forall j :: 0 <= j <= i ==> remote[..|remote| - 1][j] == remote[j];
  }

  ghost function Leading(n: Node, remote: seq<KeyPair>): set<int> {
    set i | 0 <= i < |remote| && Leads(n, remote, i)
  }

  lemma LeadingGrows(n: Node, remote: seq<KeyPair>, front: seq<KeyPair>)
    requires remote != [] && front == remote[..|remote| - 1]
    ensures |Leading(n, remote)| == |Leading(n, front)| + if Leads(n, remote, |front|) then 1 else 0
  {
    hide Leads;
    var before, more := Leading(n, front), if Leads(n, remote, |front|) then {|front|} else {};
    forall i ensures i in Leading(n, remote) <==> i in before + more {
      if 0 <= i < |front| {
        LeadsBefore(n, remote, i);
      }
    }
    assert Leading(n, remote) == before + more && before !! more;
  }

  /** What is counted as imported: the answered keys that lead. */
  lemma {:induction false} ImportCountIsExact(n: Node, remote: seq<KeyPair>)
    ensures ImportCount(n, remote) == |Leading(n, remote)|
  {
    if remote == [] {
      assert Leading(n, remote) == {};
    } else {
      ImportCountIsExact(n, remote[..|remote| - 1]);
      LeadsAtTheEnd(n, remote);
      LeadingGrows(n, remote, remote[..|remote| - 1]);
      hide Leads, Leading, ImportedAll;
    }
  }

  function Generated(n: Node, zone: string, algorithm: string, e: Entropy, now: int): KeyPair {
    KeyPair(PublicKey(Fqdn(zone), Effective(algorithm), e.keyTag, e.material, now, n.id), e.privateKey, true)
  }

  /** One zone of EnsureKeysForZones; the flag tells whether it succeeded. */
  function Ensured(n: Node, zone: string, algorithm: string, e: Entropy, now: int): (Node, bool) {
    if Fqdn(zone) in n.keys then (n, true)
    else if StoreKey(zone) in n.store then
      if Supported(n.store[StoreKey(zone)].pub.algorithm) then (KeySet(n, Serialised(n.store[StoreKey(zone)])), true)
          else (n, false)
    else if !Supported(Effective(algorithm)) then (n, false)
    else
      var k := Generated(n, zone, algorithm, e, now);
      (KeySaved(n.(keys := n.keys[Fqdn(zone) := k]), k), true)
  }

  /** All zones, up to the first failure. */
  function EnsuredAll(n: Node, zones: seq<string>, algorithm: string, entropy: string -> Entropy, now: int): (Node,
                      bool)
  {
    if zones == [] then (n, true)
    else
      var last := |zones| - 1;
      var (before, ok) := EnsuredAll(n, zones[..last], algorithm, entropy, now);
      if !ok then (before, false) else Ensured(before, zones[last], algorithm, entropy(zones[last]), now)
  }

  /** LoadAllKeys over the stored keys in some order; unreadable ones are skipped. */
  function LoadedAll(n: Node, order: seq<string>): Node {
    if order == [] then n
    else
      var last := order[|order| - 1];
      var before := LoadedAll(n, order[..|order| - 1]);
      if last in n.store && Supported(n.store[last].pub.algorithm) then KeySet(before, Serialised(n.store[last]))
          else before
  }

  // ---------------------------------------------------------------- the objects

  class KeyManager {
    const nodeId: string
    var keys: map<string, KeyPair>

    constructor (nodeId: string)
      ensures this.nodeId == nodeId && keys == map[]
    {
      this.nodeId := nodeId;
      keys := map[];
    }

    function GetKey(zone: string): Option<KeyPair>
      reads this
    {
      Lookup(keys, Fqdn(zone))
    }

    /** Fails where the public record cannot be rebuilt. */
    method SetKey(key: KeyPair) returns (r: Result<(), Error>)
      modifies this
      ensures r == if Supported(key.pub.algorithm) then Ok(()) else Err(UnsupportedAlgorithm)
      ensures keys == if r.Ok? then old(keys)[Fqdn(key.pub.zone) := Normalised(key)] else old(keys)
    {
      var zone := Fqdn(key.pub.zone);
      if key.pub.algorithm != "ECDSAP256SHA256" && key.pub.algorithm != "ECDSAP384SHA384" {
        return Err(UnsupportedAlgorithm);
      }
      keys := keys[zone := key.(pub := key.pub.(zone := zone))];
      return Ok(());
    }

    method GenerateKey(zone: string, algorithm: string, e: Entropy, now: int) returns (r: Result<KeyPair, Error>)
      modifies this
      ensures r.Ok? <==> Supported(Effective(algorithm))
      ensures r.Ok? ==> r.value == Generated(Node(nodeId, old(keys), map[]), zone, algorithm, e, now)
      ensures r.Ok? ==>
                var pub := r.value.pub;
                && pub.zone == Fqdn(zone) && pub.nodeId == nodeId && pub.createdAt == now
                && pub.algorithm == (if algorithm == "" then "ECDSAP256SHA256" else algorithm)
                && pub.keyTag == e.keyTag && pub.material == e.material
                && r.value.privateKey == e.privateKey && r.value.signer
      ensures keys == if r.Ok? then old(keys)[Fqdn(zone) := r.value] else old(keys)
    {
      var chosen := algorithm;
      if chosen == "" {
        chosen := "ECDSAP256SHA256";
      }
      if chosen != "ECDSAP256SHA256" && chosen != "ECDSAP384SHA384" {
        return Err(UnsupportedAlgorithm);
      }
      var name := Fqdn(zone);
      var k := KeyPair(PublicKey(name, chosen, e.keyTag, e.material, now, nodeId), e.privateKey, true);
      keys := keys[name := k];
      return Ok(k);
    }

    /** The answer to a peer's request: every key once, in an order of the map's choosing. */
    method GetAllKeys() returns (all: seq<KeyPair>)
      ensures forall k :: k in all <==> k in keys.Values
      ensures |all| == |keys|
    {
      all := [];
      var todo := keys.Keys;
      while todo != {}
        invariant todo <= keys.Keys && |all| + |todo| == |keys.Keys|
        invariant forall k :: k in all <==> exists zone :: zone in keys && zone !in todo && keys[zone] == k
        decreases |todo|
      {
        var zone :| zone in todo;
        todo := todo - {zone};
        all := all + [keys[zone]];
      }
    }
  }

  class KeyStore {
    const manager: KeyManager
    var store: map<string, KeyPair>

    constructor (manager: KeyManager, store: map<string, KeyPair>)
      ensures this.manager == manager && this.store == store
    {
      this.manager := manager;
      this.store := store;
    }

    function State(): Node
      reads this, manager
    {
      Node(manager.nodeId, manager.keys, store)
    }

    /** A new key of this node is in memory with its signer, and in the store without. */
    predicate Made(zone: string, algorithm: string, e: Entropy, now: int)
      reads this, manager
    {
      var key := KeyPair(PublicKey(Fqdn(zone), if algorithm == "" then "ECDSAP256SHA256" else algorithm, e.keyTag,
                                   e.material, now, manager.nodeId), e.privateKey, true);
      && Fqdn(zone) in manager.keys && manager.keys[Fqdn(zone)] == key
      && StoreKey(zone) in store && store[StoreKey(zone)] == key.(signer := false)
    }

    method SaveKey(key: KeyPair)
      modifies this
      ensures State() == KeySaved(old(State()), key)
    {
      store := store[StoreKey(key.pub.zone) := key.(signer := false)];
    }

    /** The body of the loop of EnsureKeysForZones: keep, else load, else generate and save. */
    method EnsureKey(zone: string, algorithm: string, e: Entropy, now: int) returns (r: Result<(), Error>)
      modifies this, manager
      ensures (State(), r.Ok?) == Ensured(old(State()), zone, algorithm, e, now)
      ensures r.Ok? && Fqdn(zone) !in old(manager.keys) && StoreKey(zone) !in old(store) ==>
                Made(zone, algorithm, e, now)
    {
      var name := Fqdn(zone);
      if manager.GetKey(name).Some? {
        return Ok(());
      }
      var key := StoreKey(name);
      if key in store {
        r := manager.SetKey(Serialised(store[key]));
        return;
      }
      var generated := manager.GenerateKey(name, algorithm, e, now);
      if generated.Err? {
        return Err(generated.error);
      }
      SaveKey(generated.value);
      return Ok(());
    }

    /** EnsureKeysForZones stops at the first error. */
    method EnsureKeysForZones(zones: seq<string>, algorithm: string, entropy: string -> Entropy, now: int)
      returns (r: Result<(), Error>)
      modifies this, manager
      ensures (State(), r.Ok?) == EnsuredAll(old(State()), zones, algorithm, entropy, now)
    {
      var i := 0;
      while i < |zones|
        invariant i <= |zones| && (State(), true) == EnsuredAll(old(State()), zones[..i], algorithm, entropy, now)
      {
        assert zones[..i + 1][..i] == zones[..i];
        r := EnsureKey(zones[i], algorithm, entropy(zones[i]), now);
        if r.Err? {
          StopsAtFailure(old(State()), zones, i + 1, algorithm, entropy, now);
          return;
        }
        i := i + 1;
      }
      assert zones[..i] == zones;
      return Ok(());
    }

    /** LoadAllKeys: the store lists its pairs in some order, which is returned. */
    method LoadAllKeys() returns (ghost order: seq<string>)
      modifies manager
      ensures forall key :: key in order <==> key in store
      ensures State() == LoadedAll(old(State()), order)
      ensures forall zone :: zone in manager.keys && manager.keys[zone].signer ==>
                zone in old(manager.keys) && manager.keys[zone] == old(manager.keys)[zone]
      ensures forall key :: key in store && Supported(store[key].pub.algorithm) ==>
                manager.GetKey(store[key].pub.zone).Some? && !manager.GetKey(store[key].pub.zone).value.signer
    {
      order := [];
      var todo := store.Keys;
      while todo != {}
        invariant todo <= store.Keys && forall key :: key in order || key in todo <==> key in store
        invariant State() == LoadedAll(old(State()), order)
        invariant forall zone :: zone in manager.keys && manager.keys[zone].signer ==>
                    zone in old(manager.keys) && manager.keys[zone] == old(manager.keys)[zone]
        invariant forall key :: key in store && key !in todo && Supported(store[key].pub.algorithm) ==>
                    manager.GetKey(store[key].pub.zone).Some? && !manager.GetKey(store[key].pub.zone).value.signer
        decreases |todo|
      {
        var key :| key in todo;
        todo := todo - {key};
        assert (order + [key])[..|order|] == order;
        order := order + [key];
        var _ := manager.SetKey(Serialised(store[key]));
      }
    }
  }

  lemma {:induction false} StopsAtFailure(n: Node, zones: seq<string>, k: nat, algorithm: string,
                                          entropy: string -> Entropy, now: int)
    requires k <= |zones| && !EnsuredAll(n, zones[..k], algorithm, entropy, now).1
    ensures EnsuredAll(n, zones, algorithm, entropy, now) == EnsuredAll(n, zones[..k], algorithm, entropy, now)
  {
    if k == |zones| {
      assert zones[..k] == zones;
    } else {
      var last := |zones| - 1;
      assert zones[..last][..k] == zones[..k];
      StopsAtFailure(n, zones[..last], k, algorithm, entropy, now);
    }
  }

  datatype PeerStatus = PeerStatus(at: int, success: bool)

  class KeySyncer {
    const peers: seq<string>
    const keyStore: KeyStore
    var lastSync: map<string, PeerStatus>

    constructor (peers: seq<string>, keyStore: KeyStore)
      ensures this.peers == peers && this.keyStore == keyStore && lastSync == map[]
    {
      this.peers := peers;
      this.keyStore := keyStore;
      lastSync := map[];
    }

    /** The loop body of syncFromPeer. */
    method ImportKey(remote: KeyPair) returns (imported: bool)
      requires Supported(remote.pub.algorithm)
      modifies keyStore, keyStore.manager
      ensures keyStore.State() == Imported(old(keyStore.State()), remote)
      ensures imported <==> Newer(remote, Lookup(old(keyStore.manager.keys), Fqdn(remote.pub.zone)))
    {
      var local := keyStore.manager.GetKey(remote.pub.zone);
      if !Newer(remote, local) {
        return false;
      }
      var copied := Serialised(remote).(privateKey := "");
      var filed := keyStore.manager.SetKey(copied);
      if filed.Err? {
        return false;
      }
      keyStore.SaveKey(Normalised(copied));
      return true;
    }

    /** syncFromPeer, given the peer's answer; an unreadable answer imports nothing. */
    method SyncFromPeer(peer: string, answer: Result<seq<KeyPair>, Error>, now: int) returns (r: Result<nat, Error>)
      modifies this, keyStore, keyStore.manager
      ensures r.Ok? <==> answer.Ok? && forall k :: k in answer.value ==> Supported(k.pub.algorithm)
      ensures r.Ok? ==> keyStore.State() == ImportedAll(old(keyStore.State()), answer.value)
      ensures r.Ok? ==> r.value == ImportCount(old(keyStore.State()), answer.value)
      ensures r.Ok? ==> lastSync == old(lastSync)[peer := PeerStatus(now, true)]
      ensures r.Err? ==> keyStore.State() == old(keyStore.State()) && lastSync == old(lastSync)
    {
      if answer.Err? {
        return Err(answer.error);
      }
      var remote := answer.value;
      if exists k :: k in remote && !Supported(k.pub.algorithm) {
        return Err(UnsupportedAlgorithm);
      }
      var imported := 0;
      var i := 0;
      while i < |remote|
        invariant i <= |remote| && lastSync == old(lastSync)
        invariant keyStore.State() == ImportedAll(old(keyStore.State()), remote[..i])
        invariant imported == ImportCount(old(keyStore.State()), remote[..i])
      {
        assert remote[..i + 1][..i] == remote[..i];
        var newer := ImportKey(remote[i]);
        if newer {
          imported := imported + 1;
        }
        i := i + 1;
      }
      assert remote[..i] == remote;
      lastSync := lastSync[peer := PeerStatus(now, true)];
      return Ok(imported);
    }

    /** syncAllPeers: a failing peer is recorded and the others are still asked. */
    method SyncAllPeers(answers: string -> Result<seq<KeyPair>, Error>, now: int)
      modifies this, keyStore, keyStore.manager
      ensures keyStore.State() == SyncedAll(old(keyStore.State()), peers, answers)
      ensures forall peer :: peer in peers ==>
                peer in lastSync && lastSync[peer] == PeerStatus(now, Readable(answers(peer)))
    {
      var i := 0;
      while i < |peers|
        invariant i <= |peers| && keyStore.State() == SyncedAll(old(keyStore.State()), peers[..i], answers)
        invariant forall peer :: peer in peers[..i] ==>
                    peer in lastSync && lastSync[peer] == PeerStatus(now, Readable(answers(peer)))
      {
        assert peers[..i + 1][..i] == peers[..i];
        var r := SyncFromPeer(peers[i], answers(peers[i]), now);
        if r.Err? {
          lastSync := lastSync[peers[i] := PeerStatus(now, false)];
        }
        i := i + 1;
      }
      assert peers[..i] == peers;
    }
  }

  /** The key answered by some readable peer for the zone. */
  ghost predicate Answered(peers: seq<string>, answers: string -> Result<seq<KeyPair>, Error>, zone: string,
                           k: KeyPair)
  {
    exists peer :: peer in peers && Readable(answers(peer)) && k in answers(peer).value && Fqdn(k.pub.zone) == zone
  }

  /** After asking all peers a node holds the latest of its own key and all readable answers. */
  lemma {:induction false} SyncedHoldsTheLatest(n: Node, peers: seq<string>,
                                                answers: string -> Result<seq<KeyPair>, Error>, zone: string, at: int)
    requires Fqdn(zone) == zone
    ensures var held := Lookup(SyncedAll(n, peers, answers).keys, zone);
            (held.None? || held.value.pub.createdAt < at)
            <==> (zone in n.keys ==> n.keys[zone].pub.createdAt < at)
                 && forall k :: Answered(peers, answers, zone, k) ==> k.pub.createdAt < at
  {
    if peers != [] {
      var front, last := peers[..|peers| - 1], peers[|peers| - 1];
      SyncedHoldsTheLatest(n, front, answers, zone, at);
      assert forall peer :: peer in peers <==> peer in front || peer == last;
      forall k ensures Answered(peers, answers, zone, k)
                  <==> Answered(front, answers, zone, k)
                       || (Readable(answers(last)) && k in answers(last).value && Fqdn(k.pub.zone) == zone) {
      }
      if Readable(answers(last)) {
        HoldsTheLatest(SyncedAll(n, front, answers), answers(last).value, zone, at);
      }
    }
  }

  predicate Readable(answer: Result<seq<KeyPair>, Error>) {
    answer.Ok? && forall k :: k in answer.value ==> Supported(k.pub.algorithm)
  }

  function SyncedAll(n: Node, peers: seq<string>, answers: string -> Result<seq<KeyPair>, Error>): Node {
    if peers == [] then n
    else
      var last := |peers| - 1;
      var before := SyncedAll(n, peers[..last], answers);
      if Readable(answers(peers[last])) then ImportedAll(before, answers(peers[last]).value) else before
  }
}
