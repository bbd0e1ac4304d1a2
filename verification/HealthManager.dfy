/** The health manager: one check loop per registered server, over every order of its operations. */
module HealthManager {
  import opened Prelude
  import opened Naming
  import opened Health

  datatype Config = Config(address: string, port: int, path: string, scheme: string, host: string,
                           interval: int, timeout: int)

  type Channel = nat

  datatype Entry = Entry(config: Config, health: ServerHealth, stopCh: Channel)

  datatype ManagerError = AlreadyRegistered | NotFound | AlreadyRunning

  /** The parts of the rendered key "address:port", which they determine and which determines them. */
  datatype ServerKey = ServerKey(address: string, port: int)

  function Key(cfg: Config): ServerKey {
    ServerKey(cfg.address, cfg.port)
  }

  function Defaulted(cfg: Config, interval: int, timeout: int): Config {
    cfg.(interval := if cfg.interval == 0 then interval else cfg.interval,
         timeout := if cfg.timeout == 0 then timeout else cfg.timeout)
  }

  predicate ConfigChanged(before: Config, after: Config) {
    || before.path != after.path
    || before.scheme != after.scheme
    || before.host != after.host
    || before.interval != after.interval
    || before.timeout != after.timeout
  }

  /** The list as a table: later entries of one key replace earlier ones. */
  function Wanted(list: seq<Config>, interval: int, timeout: int): map<ServerKey, Config> {
    if list == [] then map[]
    else
      var cfg := list[|list| - 1];
      Wanted(list[..|list| - 1], interval, timeout)[Key(cfg) := Defaulted(cfg, interval, timeout)]
  }

  /** Entry i of the list is the last one of its key. */
  ghost predicate LastOfItsKey(list: seq<Config>, i: int) {
    0 <= i < |list| && forall j :: i < j < |list| ==> Key(list[j]) != Key(list[i])
  }

  /** A key is wanted exactly if it is listed ... */
  lemma {:induction false} WantedAreTheListed(list: seq<Config>, interval: int, timeout: int, key: ServerKey)
    ensures key in Wanted(list, interval, timeout) <==> exists i :: 0 <= i < |list| && Key(list[i]) == key
  {
    if list != [] {
      var n := |list| - 1;
      WantedAreTheListed(list[..n], interval, timeout, key);
      if Key(list[n]) != key {
        assert forall i :: 0 <= i < n ==> list[..n][i] == list[i];
      }
    }
  }

  /** ... and then with the last configuration listed for it. */
  lemma {:induction false} WantedIsTheLastOfItsKey(list: seq<Config>, interval: int, timeout: int, i: nat)
    requires LastOfItsKey(list, i)
    ensures Key(list[i]) in Wanted(list, interval, timeout)
    ensures Wanted(list, interval, timeout)[Key(list[i])]
         == list[i].(interval := if list[i].interval == 0 then interval else list[i].interval,
                     timeout := if list[i].timeout == 0 then timeout else list[i].timeout)
  {
    var n := |list| - 1;
    if i < n {
      assert LastOfItsKey(list[..n], i);
      WantedIsTheLastOfItsKey(list[..n], interval, timeout, i);
      assert Key(list[n]) != Key(list[i]);
    }
  }

  // ---------------------------------------------------------------- the manager

  /** Every entry has a channel of its own, still open. */
  ghost predicate Owned(servers: map<ServerKey, Entry>, stopCh: Channel, channels: nat, closed: set<Channel>,
                        owner: map<Channel, ServerKey>)
  {
    && stopCh < channels
    && (forall ch :: ch in owner ==> ch < channels)
    && (forall k :: k in servers ==> OwnedEntry(k, servers[k], stopCh, closed, owner))
  }

  ghost predicate OwnedEntry(key: ServerKey, entry: Entry, stopCh: Channel, closed: set<Channel>,
                             owner: map<Channel, ServerKey>)
  {
    && key == Key(entry.config)
    && entry.stopCh in owner && owner[entry.stopCh] == key
    && entry.stopCh !in closed
    && entry.stopCh != stopCh
  }

  ghost predicate HasEntry(ch: Channel, servers: map<ServerKey, Entry>, owner: map<Channel, ServerKey>) {
    ch in owner && owner[ch] in servers && servers[owner[ch]].stopCh == ch
  }

  /** While running, every entry has exactly one loop, and every loop that has not been told to
      stop has an entry; while stopped there is no loop at all. */
  ghost predicate OneLoopEach(servers: map<ServerKey, Entry>, running: bool, closed: set<Channel>,
                              owner: map<Channel, ServerKey>, loops: multiset<Channel>)
  {
    if running then
      && (forall k :: k in servers ==> loops[servers[k].stopCh] == 1)
      && (forall ch :: ch in loops && ch !in closed ==> HasEntry(ch, servers, owner))
    else
      loops == multiset{}
  }

  lemma RestartKeepsOwners(servers: map<ServerKey, Entry>, stopCh: Channel, channels: nat, closed: set<Channel>,
                           owner: map<Channel, ServerKey>, key: ServerKey, restarted: Entry)
    requires Owned(servers, stopCh, channels, closed, owner) && key in servers
    requires forall ch :: ch in closed ==> ch < channels
    requires restarted.stopCh == channels
    requires Key(restarted.config) == key && restarted.health == servers[key].health
    ensures Owned(servers[key := restarted], stopCh, channels + 1, closed + {servers[key].stopCh},
              owner[channels := key])
  {
  }

  lemma InstallKeepsLoops(servers: map<ServerKey, Entry>, closed: set<Channel>, owner: map<Channel, ServerKey>,
                          loops: multiset<Channel>, key: ServerKey, entry: Entry)
    requires OneLoopEach(servers, true, closed, owner, loops) && key !in servers
    requires entry.stopCh !in owner && entry.stopCh !in loops
    requires forall k :: k in servers ==> servers[k].stopCh != entry.stopCh
    ensures OneLoopEach(servers[key := entry], true, closed, owner[entry.stopCh := key],
              loops + multiset{entry.stopCh})
  {
  }

  lemma RestartKeepsLoops(servers: map<ServerKey, Entry>, stopCh: Channel, channels: nat, closed: set<Channel>,
                          owner: map<Channel, ServerKey>, loops: multiset<Channel>, key: ServerKey, restarted: Entry)
    requires Owned(servers, stopCh, channels, closed, owner) && key in servers
    requires forall ch :: ch in loops ==> ch < channels
    requires restarted.stopCh == channels
    requires OneLoopEach(servers, true, closed, owner, loops)
    ensures OneLoopEach(servers[key := restarted], true, closed + {servers[key].stopCh}, owner[channels := key],
                        loops + multiset{channels})
  {
  }

  /** What Reconfigure leaves under a key: a survivor keeps its health object and, exactly when its
      configuration is unchanged, its very entry. */
  ghost predicate Settled(key: ServerKey, cfg: Config, before: map<ServerKey, Entry>, after: map<ServerKey, Entry>) {
    && key in after
    && after[key].config == cfg
    && (key in before ==> after[key].health == before[key].health)
    && (key in before ==> (after[key] == before[key] <==> before[key].config == cfg))
  }

  /** A key already treated by the last phase of Reconfigure is settled; any other is as before. */
  ghost predicate Treated(k: ServerKey, wanted: map<ServerKey, Config>, left: set<ServerKey>,
                          before: map<ServerKey, Entry>, now: map<ServerKey, Entry>, newborn: set<ServerHealth>)
  {
    if k in wanted && k !in left then
      Settled(k, wanted[k], before, now) && (k !in before ==> now[k].health in newborn)
    else
      (k in now <==> k in before) && (k in before ==> now[k] == before[k])
  }

  ghost predicate Progress(wanted: map<ServerKey, Config>, left: set<ServerKey>, before: map<ServerKey, Entry>,
                           now: map<ServerKey, Entry>, newborn: set<ServerHealth>)
  {
    forall k :: Treated(k, wanted, left, before, now, newborn)
  }

  ghost predicate Counted(wanted: map<ServerKey, Config>, left: set<ServerKey>, before: map<ServerKey, Entry>,
                          added: nat, updated: nat)
  {
    added == |wanted.Keys - before.Keys - left| && updated == |Reshaped(before, wanted) - left|
  }

  lemma ProgressStep(wanted: map<ServerKey, Config>, left: set<ServerKey>, before: map<ServerKey, Entry>,
                     was: map<ServerKey, Entry>, now: map<ServerKey, Entry>, newborn: set<ServerHealth>, key: ServerKey,
                     newborn': set<ServerHealth>)
    requires Progress(wanted, left, before, was, newborn)
    requires key in left && key in wanted
    requires now.Keys == was.Keys + {key}
    requires forall k :: k in was && k != key ==> now[k] == was[k]
    requires Settled(key, wanted[key], was, now)
    requires newborn <= newborn' && (key !in was ==> now[key].health in newborn')
    ensures Progress(wanted, left - {key}, before, now, newborn')
  {
    assert Treated(key, wanted, left, before, was, newborn);
    forall k ensures Treated(k, wanted, left - {key}, before, now, newborn') {
      assert Treated(k, wanted, left, before, was, newborn);
    }
  }

  lemma CountedStep(wanted: map<ServerKey, Config>, left: set<ServerKey>, before: map<ServerKey, Entry>,
                    added: nat, updated: nat, key: ServerKey, added': nat, updated': nat)
    requires Counted(wanted, left, before, added, updated)
    requires key in left && key in wanted
    requires added' == added + if key in before then 0 else 1
    requires updated' == updated + if key in Reshaped(before, wanted) then 1 else 0
    ensures Counted(wanted, left - {key}, before, added', updated')
  {
    StepCount(wanted.Keys - before.Keys, left, key);
    StepCount(Reshaped(before, wanted), left, key);
  }

  ghost predicate Distinct(keys: seq<ServerKey>) {
    forall i, j :: 0 <= i < j < |keys| ==> keys[i] != keys[j]
  }

  class Manager {
    const failThreshold: int
    const passThreshold: int
    const defaultInterval: int
    const defaultTimeout: int
    var servers: map<ServerKey, Entry>
    var running: bool
    var stopCh: Channel

    /** Channels made so far are 0 .. channels - 1. */
    var channels: nat

    /** The channels closed so far. */
    ghost var closed: set<Channel>

    /** One element per goroutine running checkLoop that the wait group still counts: the stop
        channel of the entry it serves. */
    ghost var loops: multiset<Channel>

    /** The key whose entry a channel was made for. */
    ghost var owner: map<Channel, ServerKey>

    ghost predicate Valid()
      reads this
    {
      && Owned(servers, stopCh, channels, closed, owner)
      && (running ==> stopCh !in closed)
      && (forall ch :: ch in closed || ch in loops ==> ch < channels)
      && OneLoopEach(servers, running, closed, owner, loops)
    }

    constructor (failThreshold: int, passThreshold: int, defaultInterval: int, defaultTimeout: int)
      ensures Valid() && servers == map[] && !running
      ensures this.failThreshold == failThreshold && this.passThreshold == passThreshold
      ensures this.defaultInterval == defaultInterval && this.defaultTimeout == defaultTimeout
    {
      this.failThreshold := failThreshold;
      this.passThreshold := passThreshold;
      this.defaultInterval := defaultInterval;
      this.defaultTimeout := defaultTimeout;
      servers, running, stopCh := map[], false, 0;
      channels, closed, loops, owner := 1, {}, multiset{}, map[];
    }

    /** `close`: closing a closed channel panics, so the requires is the promise that nobody does. */
    method Close(ch: Channel)
      requires ch !in closed
      modifies this`closed
      ensures closed == old(closed) + {ch}
    {
      closed := closed + {ch};
    }

    /** A new entry under a free key, with its loop if the manager runs. */
    method Install(key: ServerKey, cfg: Config, health: ServerHealth)
      requires Valid() && key !in servers && Key(cfg) == key
      modifies this`servers, this`channels, this`loops, this`owner
      ensures Valid()
      ensures servers == old(servers)[key := Entry(cfg, health, old(channels))]
    {
      var entry := Entry(cfg, health, channels);
      channels := channels + 1;
      owner := owner[entry.stopCh := key];
      servers := servers[key := entry];
      if running {
        InstallKeepsLoops(old(servers), closed, old(owner), loops, key, entry);
        loops := loops + multiset{entry.stopCh};
      }
    }

    method Retire(key: ServerKey)
      requires Valid() && key in servers
      modifies this`servers, this`closed
      ensures Valid()
      ensures servers == old(servers) - {key}
    {
      var entry := servers[key];
      Close(entry.stopCh);
      servers := servers - {key};
    }

    /** The entry of a key replaced by one with another configuration and the same health. */
    method Restart(key: ServerKey, cfg: Config)
      requires Valid() && key in servers && Key(cfg) == key
      modifies this`servers, this`closed, this`channels, this`loops, this`owner
      ensures Valid()
      ensures servers == old(servers)[key := Entry(cfg, old(servers)[key].health, old(channels))]
    {
      var entry := servers[key];
      Close(entry.stopCh);
      var restarted := Entry(cfg, entry.health, channels);
      channels := channels + 1;
      owner := owner[restarted.stopCh := key];
      RestartKeepsOwners(servers, stopCh, channels - 1, old(closed), old(owner), key, restarted);
      if running {
        RestartKeepsLoops(servers, stopCh, channels - 1, old(closed), old(owner), loops, key, restarted);
        loops := loops + multiset{restarted.stopCh};
      }
      servers := servers[key := restarted];
    }

    method AddServer(cfg: Config) returns (result: Result<(), ManagerError>)
      requires Valid()
      modifies this
      ensures Valid()
      ensures running == old(running)
      ensures result == if Key(cfg) in old(servers) then Err(AlreadyRegistered) else Ok(())
      ensures result.Err? ==> servers == old(servers)
      ensures result.Ok? ==>
                && Key(cfg) in servers
                && servers == old(servers)[Key(cfg) := servers[Key(cfg)]]
                && servers[Key(cfg)].config == cfg.(
                     interval := if cfg.interval == 0 then defaultInterval else cfg.interval,
                     timeout := if cfg.timeout == 0 then defaultTimeout else cfg.timeout)
                && fresh(servers[Key(cfg)].health)
                && servers[Key(cfg)].health.View() == Server(Unknown, 0, 0)
                && Tuned(servers[Key(cfg)].health)
    {
      var key := Key(cfg);
      if key in servers {
        return Err(AlreadyRegistered);
      }
      var health := new ServerHealth(HostPort(key.address, key.port), failThreshold, passThreshold);
      Install(key, Defaulted(cfg, defaultInterval, defaultTimeout), health);
      return Ok(());
    }

    method RemoveServer(address: string, port: int) returns (result: Result<(), ManagerError>)
      requires Valid()
      modifies this
      ensures Valid()
      ensures running == old(running)
      ensures result == if ServerKey(address, port) in old(servers) then Ok(()) else Err(NotFound)
      ensures servers == old(servers) - {ServerKey(address, port)}
    {
      var key := ServerKey(address, port);
      if key !in servers {
        assert servers == servers - {key};
        return Err(NotFound);
      }
      Retire(key);
      return Ok(());
    }

    method Start() returns (result: Result<(), ManagerError>)
      requires Valid()
      modifies this
      ensures Valid()
      ensures running
      ensures result == if old(running) then Err(AlreadyRunning) else Ok(())
      ensures servers == old(servers)
    {
      if running {
        return Err(AlreadyRunning);
      }
      running := true;
      stopCh := channels;
      channels := channels + 1;
      SpawnAll();
      return Ok(());
    }

    method SpawnAll()
      requires loops == multiset{} && Owned(servers, stopCh, channels, closed, owner)
      modifies this`loops
      ensures OneLoopEach(servers, true, closed, owner, loops)
      ensures forall ch :: ch in loops ==> ch < channels
    {
      var left := servers.Keys;
      while left != {}
        invariant left <= servers.Keys
        invariant forall k :: k in servers ==> loops[servers[k].stopCh] == if k in left then 0 else 1
        invariant forall ch :: ch in loops ==> HasEntry(ch, servers, owner)
      {
        var key :| key in left;
        ghost var was := loops;
        loops := loops + multiset{servers[key].stopCh};
        left := left - {key};
        assert HasEntry(servers[key].stopCh, servers, owner);
        forall k | k in servers && k != key ensures loops[servers[k].stopCh] == was[servers[k].stopCh] {
          assert OwnedEntry(k, servers[k], stopCh, closed, owner)
                   && OwnedEntry(key, servers[key], stopCh, closed, owner);
        }
      }
    }

    /** Closes the manager's channel, which every loop watches, and waits until all have returned. */
    method Stop()
      requires Valid()
      modifies this
      ensures Valid()
      ensures !running
      ensures servers == old(servers)
    {
      if !running {
        return;
      }
      running := false;
      Close(stopCh);
      WaitForLoops();
    }

    /** wg.Wait: it returns only if every loop has been told to stop, by its own channel or by the
        manager's, and then none is left. */
    method WaitForLoops()
      requires forall ch :: ch in loops ==> ch in closed || stopCh in closed
      modifies this`loops
      ensures loops == multiset{}
    {
      loops := multiset{};
    }

    // -------------------------------------------------------------- reconfiguration

    method BuildWanted(list: seq<Config>) returns (wanted: map<ServerKey, Config>)
      ensures wanted == Wanted(list, defaultInterval, defaultTimeout)
    {
      wanted := map[];
      for i := 0 to |list|
        invariant wanted == Wanted(list[..i], defaultInterval, defaultTimeout)
      {
        assert list[..i + 1][..i] == list[..i];
        var cfg := list[i];
        wanted := wanted[Key(cfg) := Defaulted(cfg, defaultInterval, defaultTimeout)];
      }
      assert list[..|list|] == list;
    }

    method Unwanted(wanted: map<ServerKey, Config>) returns (toRemove: seq<ServerKey>)
      ensures forall k :: k in toRemove <==> k in servers && k !in wanted
      ensures Distinct(toRemove)
      ensures |toRemove| == |servers.Keys - wanted.Keys|
    {
      toRemove := [];
      var keys := servers.Keys;
      var left := keys;
      ghost var found: set<ServerKey> := {};
      while left != {}
        invariant left <= keys
        invariant forall k :: k in found <==> k in keys && k !in left && k !in wanted
        invariant forall k :: k in toRemove <==> k in found
        invariant Distinct(toRemove)
        invariant |toRemove| == |found|
      {
        var key :| key in left;
        left := left - {key};
        if key !in wanted {
          toRemove, found := toRemove + [key], found + {key};
        }
      }
      assert found == servers.Keys - wanted.Keys;
    }

    method RemoveAll(toRemove: seq<ServerKey>) returns (removed: nat)
      requires Valid()
      requires forall i :: 0 <= i < |toRemove| ==> toRemove[i] in servers
      requires Distinct(toRemove)
      modifies this`servers, this`closed
      ensures Valid()
      ensures forall k :: k in servers <==> k in old(servers) && k !in toRemove
      ensures forall k :: k in servers ==> servers[k] == old(servers)[k]
      ensures removed == |toRemove|
    {
      removed := 0;
      for i := 0 to |toRemove|
        invariant Valid()
        invariant forall k :: k in servers <==> k in old(servers) && k !in toRemove[..i]
        invariant forall k :: k in servers ==> servers[k] == old(servers)[k]
        invariant removed == i
      {
        Retire(toRemove[i]);
        removed := removed + 1;
      }
    }

    method RemoveUnwanted(wanted: map<ServerKey, Config>) returns (removed: nat)
      requires Valid()
      modifies this`servers, this`closed
      ensures Valid()
      ensures forall k :: k in servers <==> k in old(servers) && k in wanted
      ensures forall k :: k in servers ==> servers[k] == old(servers)[k]
      ensures removed == |old(servers.Keys) - wanted.Keys|
    {
      var toRemove := Unwanted(wanted);
      removed := RemoveAll(toRemove);
    }

    /** With the manager's thresholds, or 3 and 2 where one is below 1. */
    predicate Tuned(h: ServerHealth) {
      && h.failThreshold == (if failThreshold < 1 then 3 else failThreshold)
      && h.passThreshold == (if passThreshold < 1 then 2 else passThreshold)
    }

    ghost predicate AllUnknown(healths: set<ServerHealth>)
      reads healths
    {
      forall h :: h in healths ==> h.View() == Server(Unknown, 0, 0) && Tuned(h)
    }

    /** One key of the new table; `newborn` gathers the health objects made on the way. */
    method Settle(key: ServerKey, cfg: Config, ghost newborn: set<ServerHealth>)
      returns (added: nat, updated: nat, ghost newborn': set<ServerHealth>)
      requires Valid() && Key(cfg) == key && AllUnknown(newborn)
      modifies this`servers, this`closed, this`channels, this`loops, this`owner
      ensures Valid()
      ensures Settled(key, cfg, old(servers), servers)
      ensures servers.Keys == old(servers.Keys) + {key}
      ensures forall k :: k in old(servers) && k != key ==> servers[k] == old(servers)[k]
      ensures newborn <= newborn' && (forall h :: h in newborn' ==> h in newborn || fresh(h)) && AllUnknown(newborn')
      ensures key !in old(servers) ==> servers[key].health in newborn'
      ensures added == if key in old(servers) then 0 else 1
      ensures updated == if key in old(servers) && old(servers)[key].config != cfg then 1 else 0
    {
      added, updated, newborn' := 0, 0, newborn;
      if key in servers {
        if ConfigChanged(servers[key].config, cfg) {
          Restart(key, cfg);
          updated := 1;
        }
      } else {
        var health := new ServerHealth(HostPort(key.address, key.port), failThreshold, passThreshold);
        newborn' := newborn + {health};
        Install(key, cfg, health);
        added := 1;
      }
    }

    method SettleNext(wanted: map<ServerKey, Config>, ghost left: set<ServerKey>, ghost before: map<ServerKey, Entry>,
                      ghost newborn: set<ServerHealth>, ghost added: nat, ghost updated: nat, key: ServerKey)
      returns (a: nat, u: nat, ghost newborn': set<ServerHealth>)
      requires Valid() && AllUnknown(newborn)
      requires key in left && key in wanted && Key(wanted[key]) == key
      requires Progress(wanted, left, before, servers, newborn)
      requires Counted(wanted, left, before, added, updated)
      modifies this`servers, this`closed, this`channels, this`loops, this`owner
      ensures Valid()
      ensures newborn <= newborn' && (forall h :: h in newborn' ==> h in newborn || fresh(h)) && AllUnknown(newborn')
      ensures Progress(wanted, left - {key}, before, servers, newborn')
      ensures Counted(wanted, left - {key}, before, added + a, updated + u)
    {
      assert Treated(key, wanted, left, before, servers, newborn);
      a, u, newborn' := Settle(key, wanted[key], newborn);
      ProgressStep(wanted, left, before, old(servers), servers, newborn, key, newborn');
      CountedStep(wanted, left, before, added, updated, key, added + a, updated + u);
    }

    method SettleAll(wanted: map<ServerKey, Config>) returns (added: nat, updated: nat,
                     ghost newborn: set<ServerHealth>)
      requires Valid()
      requires forall k :: k in wanted ==> Key(wanted[k]) == k
      requires servers.Keys <= wanted.Keys
      modifies this`servers, this`closed, this`channels, this`loops, this`owner
      ensures Valid()
      ensures Progress(wanted, {}, old(servers), servers, newborn)
      ensures Counted(wanted, {}, old(servers), added, updated)
      ensures fresh(newborn) && AllUnknown(newborn)
    {
      added, updated, newborn := 0, 0, {};
      var left := wanted.Keys;
      ghost var before := servers;
      NothingCounted(wanted, before);
      while left != {}
        invariant Valid()
        invariant left <= wanted.Keys
        invariant Progress(wanted, left, before, servers, newborn)
        invariant Counted(wanted, left, before, added, updated)
        invariant fresh(newborn) && AllUnknown(newborn)
      {
        var key :| key in left;
        var a, u;
        ghost var born := newborn;
        a, u, newborn := SettleNext(wanted, left, before, born, added, updated, key);
        forall h | h in newborn ensures fresh(h) {
          assert h in born ==> fresh(h);
        }
        added, updated, left := added + a, updated + u, left - {key};
      }
    }

    /** The new list becomes the table, and the three counts are sizes of differences. */
    method Reconfigure(list: seq<Config>) returns (added: nat, removed: nat, updated: nat,
                       ghost newborn: set<ServerHealth>)
      requires Valid()
      modifies this`servers, this`closed, this`channels, this`loops, this`owner
      ensures Valid()
      ensures Becomes(Wanted(list, defaultInterval, defaultTimeout), old(servers), servers, newborn)
      ensures fresh(newborn)
      ensures AllUnknown(newborn)
      ensures added == |Wanted(list, defaultInterval, defaultTimeout).Keys - old(servers.Keys)|
      ensures removed == |old(servers.Keys) - Wanted(list, defaultInterval, defaultTimeout).Keys|
      ensures updated == |Reshaped(old(servers), Wanted(list, defaultInterval, defaultTimeout))|
      ensures |servers| == |old(servers)| + added - removed
    {
      var wanted := BuildWanted(list);
      WantedKeysMatch(list, defaultInterval, defaultTimeout);
      removed := RemoveUnwanted(wanted);
      ghost var survivors := servers;
      added, updated, newborn := SettleAll(wanted);
      Reconfigured(wanted, old(servers), survivors, servers, newborn, added, updated);
    }
  }

  /** The table is the wanted one; survivors are settled and newcomers have newborn health. */
  ghost predicate Becomes(wanted: map<ServerKey, Config>, before: map<ServerKey, Entry>, after: map<ServerKey, Entry>,
                          newborn: set<ServerHealth>)
  {
    && after.Keys == wanted.Keys
    && (forall k :: k in wanted ==> Settled(k, wanted[k], before, after))
    && (forall k :: k in wanted && k !in before ==> after[k].health in newborn)
  }

  lemma Reconfigured(wanted: map<ServerKey, Config>, before: map<ServerKey, Entry>, survivors: map<ServerKey, Entry>,
                     after: map<ServerKey, Entry>, newborn: set<ServerHealth>, added: nat, updated: nat)
    requires forall k :: k in survivors <==> k in before && k in wanted
    requires forall k :: k in survivors ==> survivors[k] == before[k]
    requires Progress(wanted, {}, survivors, after, newborn)
    requires Counted(wanted, {}, survivors, added, updated)
    ensures Becomes(wanted, before, after, newborn)
    ensures added == |wanted.Keys - before.Keys| && updated == |Reshaped(before, wanted)|
    ensures |after| == |before| + added - |before.Keys - wanted.Keys|
  {
    ReconfiguredTable(wanted, before, survivors, after, newborn);
    ReconfiguredCounts(wanted, before, survivors, added, updated);
    SizesAddUp(before.Keys, wanted.Keys);
    assert |after| == |after.Keys| && |before| == |before.Keys|;
  }

  lemma ReconfiguredTable(wanted: map<ServerKey, Config>, before: map<ServerKey, Entry>,
                          survivors: map<ServerKey, Entry>,
                          after: map<ServerKey, Entry>, newborn: set<ServerHealth>)
    requires forall k :: k in survivors <==> k in before && k in wanted
    requires forall k :: k in survivors ==> survivors[k] == before[k]
    requires Progress(wanted, {}, survivors, after, newborn)
    ensures Becomes(wanted, before, after, newborn)
  {
    forall k ensures k in after <==> k in wanted {
      assert Treated(k, wanted, {}, survivors, after, newborn);
    }
    forall k | k in wanted
      ensures Settled(k, wanted[k], before, after) && (k !in before ==> after[k].health in newborn)
    {
      assert Treated(k, wanted, {}, survivors, after, newborn);
    }
  }

  lemma ReconfiguredCounts(wanted: map<ServerKey, Config>, before: map<ServerKey, Entry>,
                           survivors: map<ServerKey, Entry>,
                           added: nat, updated: nat)
    requires forall k :: k in survivors <==> k in before && k in wanted
    requires forall k :: k in survivors ==> survivors[k] == before[k]
    requires Counted(wanted, {}, survivors, added, updated)
    ensures added == |wanted.Keys - before.Keys|
    ensures updated == |Reshaped(before, wanted)|
  {
    assert wanted.Keys - survivors.Keys - {} == wanted.Keys - before.Keys;
    assert Reshaped(survivors, wanted) - {} == Reshaped(before, wanted);
  }

  lemma NothingCounted(wanted: map<ServerKey, Config>, before: map<ServerKey, Entry>)
    ensures Counted(wanted, wanted.Keys, before, 0, 0)
  {
    assert wanted.Keys - before.Keys - wanted.Keys == {};
    assert Reshaped(before, wanted) - wanted.Keys == {};
  }

  /** The keys both tables have, with different configurations. */
  ghost function Reshaped(before: map<ServerKey, Entry>, wanted: map<ServerKey, Config>): set<ServerKey> {
    set k | k in wanted && k in before && before[k].config != wanted[k]
  }

  lemma {:induction false} WantedKeysMatch(list: seq<Config>, interval: int, timeout: int)
    ensures forall k :: k in Wanted(list, interval, timeout) ==> Key(Wanted(list, interval, timeout)[k]) == k
  {
    if list != [] {
      WantedKeysMatch(list[..|list| - 1], interval, timeout);
    }
  }

  lemma StepCount(all: set<ServerKey>, left: set<ServerKey>, key: ServerKey)
    requires key in left
    ensures |all - (left - {key})| == |all - left| + if key in all then 1 else 0
  {
    assert all - (left - {key}) == (all - left) + if key in all then {key} else {};
  }

  lemma SizesAddUp(before: set<ServerKey>, after: set<ServerKey>)
    ensures |after| == |before| + |after - before| - |before - after|
  {
    assert after == (before - (before - after)) + (after - before);
    assert |before - (before - after)| == |before| - |before - after|;
  }
}
