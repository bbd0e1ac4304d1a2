# OpenGSLB: a verified model of the stateful core

OpenGSLB answers DNS queries for services that run in several places.  An *Overwatch* node keeps a
registry of backends, fed by gossip from agents, by the configuration file and by an API; it decides
each backend's status, persists the records, and mirrors the backends into the DNS registry the
answers are taken from.  Around that core stand the DNSSEC keys the Overwatch nodes exchange, the
include loader of the configuration, the domains created through the API, the table of learned
client latencies, the health checkers, and the routers that choose one server of a pool.

This project models those parts in Dafny and proves what they keep over whole runs.  Objects the
program updates in place are classes here; each of their methods is proved to leave exactly the state that a function of
the old state, or a relation to it, prescribes, and the claims are lemmas about every sequence of
operations.
A traversal of a Go map, whose order is not defined, is a loop that picks the next key at will; where
the order matters the method returns it as a ghost value and the claims hold for every order.

`dafny verify dfyconfig.toml` checks everything.

| file | contents |
|---|---|
| `Prelude.dfy`, `Naming.dfy` | stock types; the rendered map keys and when they are injective |
| `Dns.dfy` | the DNS registry: server lists, dynamic registration, the registry built from the file |
| `LatencyEma.dfy` | smoothing of validation latencies |
| `Overwatch.dfy`, `OverwatchRuns.dfy`, `OverwatchClaims.dfy`, `BackendRegistry.dfy` | backend registry, store and DNS as one state machine; its invariant; the claims; the objects |
| `OverwatchHistory.dfy`, `OverwatchFreshness.dfy` | one backend alone, of which the system is shown to be made; what each event leaves on record; who is stale, who stays, whose override holds |
| `OverwatchListing.dfy`, `OverwatchPresence.dfy` | DNS one endpoint at a time: what a heartbeat shows, and what each endpoint shows over whole runs |
| `KeySync.dfy`, `KeyProtocol.dfy` | one node's DNSSEC keys; any number of nodes exchanging them |
| `Includes.dfy`, `IncludesMeaning.dfy` | the include loader and the reference meaning of an include tree; when such a tree exists, which files it holds, and in what order |
| `DomainApi.dfy`, `DomainReplay.dfy` | API-created domains; live DNS against replay from the store |
| `LatencyTable.dfy`, `LatencyRuns.dfy` | the learned latency table; its bound and the flat map it refines |
| `Health.dfy`, `HealthManager.dfy` | the two health automata; the manager and its check loops |
| `Nsec3.dfy` | the hash stepping behind synthetic NSEC3 records |
| `Routing.dfy` | round robin, weighted, latency and learned latency routing |

## Where the code and its descriptions part

The model follows the code.  These are results of the proofs, each with its exact condition:

- Backends registered through the API are removed by the first sweep after the removal delay, like
  silent agent backends, although nothing ever sends heartbeats for them
  (`OverwatchClaims.StaticBackendsSurviveSweeps`, `OverwatchClaims.ApiBackendIsSweptAway`).
- A live backend of a configured domain is served exactly if something has announced its endpoint
  since the last removal there; a registration message alone announces nothing
  (`OverwatchPresence.LiveBackendIsServedIffAnnounced`, `OverwatchPresence.RegisteredBackendIsNotYetServed`).
- The drain half of a heartbeat can put an older weight of the same endpoint back into DNS, exactly if
  it changes the status of another backend of the agent there with another weight or region
  (`OverwatchListing.HeartbeatIsListedIffUndisturbed`, `OverwatchListing.DrainCanRestoreAnOldWeight`).
- A process restart registers, and so persists, the configured servers before it reads the store: a
  restart brings back the record of a backend, override included, exactly if the backend is not in
  the configuration file (`OverwatchClaims.RestartKeepsExactlyTheDynamicRecords`).
- A server whose address is written in non-canonical text cannot be deregistered from DNS, and every
  heartbeat lists it once more (`OverwatchClaims.DeregisterUndoesRegisterIffCanonical`,
  `OverwatchClaims.NonCanonicalRegistrationsPileUp`).
- A weight edited through the API reaches DNS at once exactly if the same call changes the backend's
  status, and otherwise with the next announcement of the backend
  (`OverwatchClaims.EditedWeightIsServedIffStatusChanges`, `OverwatchPresence.ShownIsTheLastWord`).
- Private keys are never turned back into signers.  Signing of a zone is lost for good exactly when
  every node has a key for it and none can sign (`KeyProtocol.LostForGoodIffMute`): after convergence
  one restart of the key's maker is enough, while before it a node without a key still makes one that
  signs (`KeyProtocol.RestartOfTheSignerMutes`, `KeyProtocol.AnotherNodeSignsAfterARestart`).
- Where several different keys share the newest creation time, no round of pulls and restarts makes the
  nodes agree (`KeyProtocol.ConvergesIffNewestIsUnique`).  Whether any run at all can: exactly if the
  newest key is unique or some node has no key for the zone and so can still generate a newer one
  (`KeyProtocol.CanAgreeIff`).
- A file that occurs twice in a finite include tree, as in a diamond, is refused as a circular include
  (`Includes.OnlyRepeatsAreRefused`, `Includes.SoundTreesFailOnlyAsCircular`, `Includes.DiamondsAreRefusedAsCircular`).
- Live DNS and replayed DNS can differ.  After any run, a domain created through the API is answered
  alike by both exactly if the policies of its creation and of its last request are both accepted or
  both refused and, when accepted, it has been edited or its created TTL is 0 or no multiple of 2^32,
  and none of its stored backends with an IP address is older than the domain
  (`DomainReplay.ReplayAgreesIff`).  The algorithm name kept beside the router is not part of that: it
  stays the one of creation, however often the domain is edited (`DomainReplay.SettingsAgreeIff`).
  Backends added to configured domains are not replayed at all
  (`DomainReplay.ConfiguredDomainsForgetApiBackends`).
- Stepping an NSEC3 hash runs over the contiguous bytes '0' to 'V' and leaves base32hex after '9' and
  before 'A'; the interval still covers exactly the one hash (`Nsec3.IncrementStaysInAlphabetIff`,
  `Nsec3.CoverIsExact`).
- A backend and region share their key in the latency table with another pair exactly if one of the two
  names contains a '|'; a report for such a pair is then lost to its own backend and answers for the
  other one (`LatencyRuns.CollidesIffPiped`, `LatencyRuns.CollidingReportIsLost`).
- The round robin is unfair on the round in which its counter wraps, unless the pool size divides
  2^64 (`Routing.FairUnlessWrapping`).

## Model

| member | source | states |
|---|---|---|
| `Naming.HostPortInjective` | pkg/health/manager.go:317-319 | the key "address:port" determines address and port for every address, so maps keyed by it may be modelled by the pair |
| `Naming.BackendKeyInjective` | pkg/overwatch/registry.go:1070-1072 | "service:address:port" determines the triple if no service contains a colon |
| `Naming.ColonInServiceCollides` | pkg/overwatch/registry.go:1070-1072 | any colon in a service name makes another triple with the same key |
| `Naming.DecimalReadsBack` | pkg/health/manager.go:317-319 | the rendered number reads back, and has no leading zero |
| `Naming.NormalizedAlike` | pkg/dns/registry.go:374-383 | two names are the same DNS domain if and only if they are equal or differ by one trailing dot |
| `Dns.BuildRegistry` | pkg/dns/registry.go:38-106 | succeeds exactly if every address parses and every algorithm is known; it has the configured domains and no others, the last of a name counting, each with its own TTL or the default, its algorithm and router, and one server per configured server of its service in each region it names: in the order of the regions it names, then of the configuration, with that server's parsed address, port, weight and region |
| `Dns.GroupServers` | pkg/dns/registry.go:44-66 | fails exactly on an unparsable address; otherwise the group of each region and service is the configured servers of that pair in order |
| `Dns.DomainServersMembers` | pkg/dns/registry.go:44-98 | every server of a built domain stands for a configured server of that service, port and parsed address |
| `Dns.ServedIffConfigured` | pkg/dns/registry.go:38-106 | a server is in the built list of a domain if and only if a configured server of the service lies in a region the domain names and has its parsed address, port, weight and region |
| `Dns.PlacedServersAppend` | cmd/opengslb/app.go:442-471 | the configured servers are taken region by region, in order, each with the name and check type of its region |
| `Dns.Registry.RegisterServer` | pkg/dns/registry.go:200-242 | replaces the first server whose stored address equals the raw text, else appends; fails exactly on an unknown domain or an invalid address, changing nothing |
| `Dns.Registry.DeregisterServer` | pkg/dns/registry.go:249-272 | swap-removes the first match; reports success exactly if the registry changed |
| `Dns.Registry.RegisterDomain` | pkg/dns/registry.go:302-318 | a fresh entry without servers, unless the factory refuses the algorithm |
| `Dns.Registry.UpdateDomainSettings` | pkg/dns/registry.go:341-372 | replaces TTL and router and leaves the algorithm name and the servers |
| `Dns.UpsertEffect` | pkg/dns/registry.go:222-242 | with a canonical address an upsert leaves exactly one server at the endpoint and every other server untouched |
| `Dns.SwapRemoveEffect` | pkg/dns/registry.go:258-268 | swap-removal removes what is at the endpoint and nothing else, and keeps endpoints unique |
| `LatencyEma.SmoothedWithinSamples` | pkg/overwatch/registry.go:577-602 | after any samples the smoothed latency lies between the least and the greatest of them |
| `LatencyEma.SettlesFromAbove` | pkg/overwatch/registry.go:577-593 | under a constant measurement a value above it never crosses it and reaches it exactly, within as many steps as the gap |
| `LatencyEma.SettlesFromBelow` | pkg/overwatch/registry.go:577-593 | from below it never overshoots and ends at a gap d with alpha times d less than one unit |
| `LatencyEma.RestingValues` | pkg/overwatch/registry.go:577-593 | the fixed points under a measurement are exactly the values not above it with such a gap |
| `LatencyEma.ObservedOnce` | pkg/overwatch/registry.go:577-602 | the first measurement is taken as it is, each later one weighed with the factor, 0.3 if it is not in (0, 1], against the value before, and cut to a whole unit |
| `LatencyEma.ConstantRunSettles` | pkg/overwatch/registry.go:577-602 | any run under one measurement is that settling |
| `BackendRegistry.Backends.Register` | pkg/overwatch/registry.go:224-288 | creates or refreshes an agent backend, recomputes its status, persists it and mirrors a change into DNS |
| `BackendRegistry.Backends.RegisterStatic` | pkg/overwatch/registry.go:293-367 | the same for a configured server; an existing record keeps its source |
| `BackendRegistry.Backends.RegisterApi` | pkg/overwatch/registry.go:371-429 | refuses an existing backend; a new one is always announced to DNS |
| `BackendRegistry.Backends.Update` | pkg/overwatch/registry.go:433-480 | weight and region of an existing backend, persisted |
| `BackendRegistry.Backends.Deregister` | pkg/overwatch/registry.go:483-521 | removes the backend from memory, store and DNS |
| `BackendRegistry.Backends.UpdateValidation` | pkg/overwatch/registry.go:530-574 | records the validation and, for a healthy one with a latency, one smoothing step |
| `BackendRegistry.Backends.SetOverride` | pkg/overwatch/registry.go:605-644 | records the operator's verdict and recomputes the status |
| `BackendRegistry.Backends.ClearOverride` | pkg/overwatch/registry.go:647-687 | removes an override, and does nothing where there is none |
| `BackendRegistry.Backends.UpdateDraining` | pkg/overwatch/registry.go:691-746 | writes the drain state into every backend of the agent, whatever the order of the walk |
| `BackendRegistry.Backends.CheckStaleBackends` | pkg/overwatch/registry.go:941-1015 | the two passes of the sweep: recompute without persisting, then deregister what expired |
| `BackendRegistry.Backends.LoadFromStore` | pkg/overwatch/registry.go:1033-1067 | every stored backend is loaded with its status recomputed and announced to DNS |
| `BackendRegistry.Backends.OnStatusChange` | cmd/opengslb/app.go:385-422 | the callback: no status before or a changed one registers the server in DNS, no status after deregisters it |
| `BackendRegistry.Backends.RegisterStaticServers` | cmd/opengslb/app.go:442-471 | registers the configured servers region by region, in order |
| `BackendRegistry.Boot` | cmd/opengslb/app.go:168-225 | startup order: configured servers, DNS registry, store; the state after it |
| `BackendRegistry.GossipHandler.HandleHeartbeat` | pkg/overwatch/gossip.go:318-404 | every report updates both registries; drain data then reaches all backends of the agent |
| `BackendRegistry.GossipHandler.HandleRegister` | pkg/overwatch/gossip.go:407-433 | one healthy registration |
| `BackendRegistry.GossipHandler.HandleDeregister` | pkg/overwatch/gossip.go:436-458 | one deregistration |
| `OverwatchRuns.StepKeeps` | pkg/overwatch/registry.go:224-1067 | every operation keeps the invariant: memory and store hold the same records up to status, statuses follow the hierarchy, DNS lists only registered backends, once each |
| `OverwatchRuns.RunKeeps` | pkg/overwatch/registry.go:224-1067 | the invariant over every run, restarts included |
| `OverwatchRuns.InitialHolds` | cmd/opengslb/app.go:442-471 | a first start establishes it |
| `OverwatchRuns.SweepRemovesExactlyTheExpired` | pkg/overwatch/registry.go:941-1015 | whatever the order, a sweep removes exactly the expired backends from memory and store and recomputes the others in memory only |
| `OverwatchHistory.StepIsLocal` | pkg/overwatch/registry.go:224-1067 | what any event leaves on the record of a backend, status included, follows from its record before and the event alone, whatever the orders of the walks |
| `OverwatchHistory.RunIsLocal` | pkg/overwatch/registry.go:224-1067 | over every run, restarts included, the record of each backend is that of the backend alone |
| `OverwatchHistory.EventsPersist` | pkg/overwatch/registry.go:224-746 | after every event but a sweep or a restart the store holds what memory holds of any backend the event touched, status included |
| `OverwatchHistory.SweepsDoNotPersist` | pkg/overwatch/registry.go:941-1015 | a sweep writes no record to the store, and only removes |
| `OverwatchFreshness.HeartbeatRecords` | pkg/overwatch/gossip.go:330-398 | a heartbeat leaves on every backend it reports the weight, health and time of the last report about it, the agent, the region and the drain, and nothing else; an unopposed backend is then as healthy as reported |
| `OverwatchFreshness.HeartbeatSpares` | pkg/overwatch/registry.go:691-746 | a backend it does not report keeps its record, except for the drain of its agent |
| `OverwatchFreshness.RegistrationRecords` | pkg/overwatch/gossip.go:407-433 | a registration message does the same for its backend, as healthy |
| `OverwatchFreshness.ValidationRecords` | pkg/overwatch/registry.go:530-574 | a validation is recorded as made and decides the status unless an operator or a drain does; only a healthy one with a positive latency is measured |
| `OverwatchFreshness.OverrideRecords` | pkg/overwatch/registry.go:605-644 | an override is recorded with its reason, author and time, decides the status and changes nothing else |
| `OverwatchFreshness.ClearedOverrideRecords` | pkg/overwatch/registry.go:647-687 | clearing leaves no override and the rest of the record |
| `OverwatchFreshness.ApiRegistrationRecords` | pkg/overwatch/registry.go:371-429 | a backend registered through the API is new, healthy, seen at that moment, with the given weight and region; a known one is untouched |
| `OverwatchFreshness.StaticRegistrationRecords` | pkg/overwatch/registry.go:293-367 | a configured server sets weight, region and check type of a known backend and nothing else |
| `OverwatchFreshness.UpdateRecords` | pkg/overwatch/registry.go:433-480 | an edit sets weight and region and nothing else |
| `OverwatchFreshness.StaleMeansSilent` | pkg/overwatch/registry.go:867-918 | over every run a backend is stale only if it is an agent's, no operator, drain or validation speaks for it, and it has been silent for longer than the threshold |
| `OverwatchFreshness.SweepJudges` | pkg/overwatch/registry.go:941-1015 | right after a sweep a backend is there if and only if it is static or was seen within the removal delay, and an unopposed agent backend is stale if and only if it has been silent for longer than the threshold and otherwise as healthy as its agent said |
| `OverwatchFreshness.HeardBackendsStay` | pkg/overwatch/registry.go:941-1015 | over every run a backend heard of within the threshold and not deregistered since is registered and not stale, if the threshold does not exceed the removal delay |
| `OverwatchFreshness.OverrideHolds` | pkg/overwatch/registry.go:605-644 | over every run an overridden backend that stays registered keeps the operator's status until that is changed or cleared, or a restart finds it configured |
| `OverwatchClaims.DnsNeverListsAForgottenBackend` | pkg/dns/registry.go:200-272 | over every run, each server in a DNS domain has a live backend of a service of that name, and an endpoint is listed once per domain |
| `OverwatchClaims.ConfiguredDomainsAreBacked` | pkg/dns/registry.go:38-106 | the registry built from the file satisfies what that claim assumes of it |
| `OverwatchClaims.DeregisterUndoesRegisterIffCanonical` | pkg/dns/registry.go:225-272 | deregistering removes a registered server if and only if its address text is canonical |
| `OverwatchClaims.NonCanonicalRegistrationsPileUp` | pkg/dns/registry.go:225-242 | n registrations under non-canonical text add n entries |
| `OverwatchListing.ShownIsServed` | pkg/dns/registry.go:200-272 | the weight and region shown at an endpoint are those of the server the domain lists there |
| `OverwatchListing.HeartbeatIsListed` | pkg/overwatch/gossip.go:330-398 | after a whole heartbeat, drain included, a reported server is in DNS with the weight of the last report about it and the message's region, if the agent has no other backend at its endpoint |
| `OverwatchListing.HeartbeatIsListedIffUndisturbed` | pkg/overwatch/gossip.go:330-398 | in every order of the drain walk the last report about an endpoint stays in DNS, if and only if the drain changes the status of no backend of the agent there with another weight or region |
| `OverwatchListing.DrainCanRestoreAnOldWeight` | pkg/overwatch/registry.go:691-746 | an agent reporting a service first without and then with its trailing dot and a drain can get the old weight served |
| `OverwatchPresence.StepExplains` | cmd/opengslb/app.go:385-422 | after every event an endpoint is unlisted if a backend there was removed, shows the weight and region on record of an announced backend if one was named or changed its status, and is otherwise unchanged |
| `OverwatchPresence.ShownIsTheLastWord` | cmd/opengslb/app.go:385-422 | over every run, restarts included, a configured domain shows an endpoint with the weight and region an announced backend had on record at the last announcement, and not at all after a later removal |
| `OverwatchPresence.LastWordIsUnique` | cmd/opengslb/app.go:385-422 | while at most one backend is registered at the endpoint, that determines weight and region |
| `OverwatchPresence.ServedIffNotSilent` | cmd/opengslb/app.go:385-422 | over every run, restarts included, a configured domain serves an endpoint exactly if it has been announced since the last removal there |
| `OverwatchPresence.LiveBackendIsServedIffAnnounced` | pkg/dns/registry.go:200-272 | so for every live backend of a configured domain with a canonical address |
| `OverwatchPresence.RegisteredBackendIsNotYetServed` | pkg/overwatch/gossip.go:407-433 | after any run a registration message for a new endpoint leaves a live backend that is not served |
| `OverwatchClaims.EditedWeightIsServedIffStatusChanges` | pkg/overwatch/registry.go:433-480 | right after the call an edited weight or region is in DNS if and only if it is no news or the call changes the status |
| `OverwatchFreshness.HighestAuthorityDecides` | pkg/overwatch/registry.go:867-918 | in every reachable state each status is that of the highest authority that has spoken: operator, drain, validation, agent; only silence beyond the threshold outranks the agent |
| `OverwatchClaims.CrashRecovery` | pkg/overwatch/registry.go:1018-1067 | after every run, loading the store into an empty registry gives exactly the backends in memory with statuses recomputed |
| `OverwatchClaims.RestartKeepsExactlyTheDynamicRecords` | cmd/opengslb/app.go:168-225 | a process restart brings back a record exactly if its backend is not configured; a configured one starts afresh |
| `OverwatchClaims.StaticsOverwriteTheStore` | cmd/opengslb/app.go:442-471 | registering the configured servers replaces what the store held about them and nothing else |
| `OverwatchClaims.SilenceIsNoticedInTime` | pkg/overwatch/registry.go:941-1015 | with sweeps at most half a threshold apart, a silent agent backend is stale after one and a half thresholds and nothing but static backends outlives the removal delay plus half a threshold |
| `OverwatchClaims.StaticBackendsSurviveSweeps` | pkg/overwatch/registry.go:950-971 | a backend survives a sweep if and only if it is static or was seen within the removal delay |
| `OverwatchClaims.ApiBackendIsSweptAway` | pkg/overwatch/registry.go:371-429 | a backend registered through the API is gone from memory and store after the first sweep past the removal delay |
| `OverwatchClaims.OverrideOutlivesRestartIffNotConfigured` | cmd/opengslb/app.go:442-471 | after every run an operator's override outlives a restart if and only if its backend is not configured |
| `KeySync.KeyManager.GenerateKey` | pkg/dnssec/keys.go:92-138 | a supported algorithm, P-256 if none is named, gives a key with a signer, made by this node at this moment, filed under the zone |
| `KeySync.KeyManager.SetKey` | pkg/dnssec/keys.go:186-206 | files a key under its fully qualified zone, except one of an unsupported algorithm, which is an error and changes nothing |
| `KeySync.KeyManager.GetAllKeys` | pkg/dnssec/keys.go:209-218 | every key once |
| `KeySync.KeyStore.EnsureKey` | pkg/dnssec/store.go:159-202 | keeps a key in memory, else loads the stored one, else generates one and stores it without its signer |
| `KeySync.KeyStore.EnsureKeysForZones` | pkg/dnssec/store.go:159-202 | all zones in order, up to the first failure |
| `KeySync.KeyStore.LoadAllKeys` | pkg/dnssec/store.go:101-136 | every readable stored key is loaded unable to sign, and every key that can sign afterwards was in memory before |
| `KeySync.KeySyncer.SyncFromPeer` | pkg/dnssec/sync.go:167-247 | merges a readable answer, newest key winning and private parts dropped; an unreadable answer imports nothing |
| `KeySync.KeySyncer.SyncAllPeers` | pkg/dnssec/sync.go:154-164 | every peer is asked in order and its result recorded, failures included |
| `KeySync.ImportCountIsExact` | pkg/dnssec/sync.go:197-237 | what is counted as imported are the answered keys later than the node's own and than all answered before them for the zone |
| `KeySync.SyncedHoldsTheLatest` | pkg/dnssec/sync.go:154-247 | after asking all peers a node holds, for each zone, a key as late as the latest of its own and all readable answers |
| `KeyProtocol.EnsuredAllEffect` | pkg/dnssec/store.go:159-202 | creating keys for a list of zones succeeds if and only if the algorithm is supported or none is missing; then each zone has a key, and no key is ever lost, changed or made for another zone |
| `KeyProtocol.RunKeeps` | pkg/dnssec/sync.go:167-247 | over every interleaving of creation, pulls and restarts, each held key is saved under its zone and signs only where it was made |
| `KeyProtocol.ImportedAllEffect` | pkg/dnssec/sync.go:190-235 | after a pull a node holds the peer's key exactly for the zones where it was strictly newer or missing, whatever the order of the answer |
| `KeyProtocol.AtMostOneSigner` | pkg/dnssec/keys.go:340-342 | in every reachable state a node that can sign made that key, so of the nodes holding one key at most one can sign |
| `KeyProtocol.HeldKeysNeverAge` | pkg/dnssec/keys.go:349-355 | a held key is only ever replaced by a strictly newer one, and never lost |
| `KeyProtocol.NewestKeyTravels` | pkg/dnssec/sync.go:167-247 | without key generation a unique newest key reaches every node along every chain of pulls |
| `KeyProtocol.UniqueNewestConverges` | pkg/dnssec/sync.go:154-247 | once every node has pulled from every peer, in any interleaving, all hold the unique newest key |
| `KeyProtocol.ConvergesIffNewestIsUnique` | pkg/dnssec/sync.go:154-247 | after a full round of pulls and restarts without key generation all nodes hold one key if and only if the newest was unique, provided somebody had one |
| `KeyProtocol.CanAgreeIff` | pkg/dnssec/store.go:159-202 | over all runs, key generation included, the nodes can come to hold one key if and only if the newest key is unique or some node has none |
| `KeyProtocol.SigningNeverComesBack` | pkg/dnssec/keys.go:260-289 | a zone for which every node has a key and none can sign stays so over every run, key creation included |
| `KeyProtocol.LostForGoodIffMute` | pkg/dnssec/store.go:159-202 | no run ever lets a node sign a zone again, if and only if every node has a key for it and none can sign |
| `KeyProtocol.RestartMutesIff` | pkg/dnssec/keys.go:284-289 | a restart brings that about if and only if every node has a key for the zone and no other node can sign |
| `KeyProtocol.AnotherNodeSignsAfterARestart` | pkg/dnssec/store.go:183-192 | two nodes, one key, a restart of its maker: nobody signs, and the other node then makes a key that does |
| `KeyProtocol.ExactlyTheMakerSigns` | pkg/dnssec/sync.go:199-209 | from a fresh cluster, over creation and pulls without restarts and then a full round, a node can sign if and only if it made the unique newest key |
| `KeyProtocol.RestartOfTheSignerMutes` | pkg/dnssec/keys.go:284-289 | once all nodes hold one key, a restart of its maker leaves nobody able to sign over every later run |
| `KeyProtocol.FreshClusterIsConsistent` | pkg/dnssec/keys.go:84-89 | nodes without keys satisfy the invariant |
| `Includes.LoadWithIncludes` | pkg/config/includes.go:72-85 | succeeds exactly if the include tree can be written out, repeats no file and shares no name between files; then the files are those of the tree, every list of the result is the concatenation of the files' own lists in that order, every token is that of the last file that sets it, and all else is the first file's |
| `Includes.IncludeContext.LoadFile` | pkg/config/includes.go:88-138 | the same from any depth and visited set; every error, nested or not, is true of the end of a chain of includes through this file: its depth, a file seen before, an unreadable or malformed file, a bad pattern, an unsafe match, or a name two loaded files share |
| `Includes.IncludeContext.ProcessPattern` | pkg/config/includes.go:141-207 | every match of a pattern is skipped, refused, or loaded and merged behind what came before |
| `Includes.MergeConfig` | pkg/config/includes.go:285-349 | lists of the two concatenated, each token that of the included file if it sets it, all else the main file's; refused exactly if a region or domain name occurs in both, regions checked first |
| `Includes.NamesAreDistinctIffEachFilesAre` | pkg/config/includes.go:285-343 | in an accepted configuration names are distinct if and only if they are in each file alone |
| `Includes.OnlyRepeatsAreRefused` | pkg/config/includes.go:97-106 | a tree that can be written out, over files that share no name, is refused if and only if a file occurs in it twice |
| `Includes.SoundTreesFailOnlyAsCircular` | pkg/config/includes.go:97-106 | and the error of every such refusal is the circular include |
| `Includes.DiamondsAreRefusedAsCircular` | pkg/config/includes.go:97-106 | two files including a third are refused as circular although the tree is finite |
| `Includes.AcceptableSplits` | pkg/config/includes.go:173-204 | two parts are acceptable one after the other exactly if the whole is |
| `IncludesMeaning.ExpandsIffChainsAreSound` | pkg/config/includes.go:88-207 | the tree of a file can be written out if and only if every chain of includes from it ends, within the depth limit, at a readable well-formed file whose patterns match nothing but sound files and directories |
| `IncludesMeaning.FilesAreTheReached` | pkg/config/includes.go:141-207 | its files are exactly those some chain of includes reaches |
| `IncludesMeaning.IncludersComeFirst` | pkg/config/includes.go:88-138 | a file stands before the files it includes |
| `IncludesMeaning.EarlierMatchesComeFirst` | pkg/config/includes.go:141-207 | all that is under an earlier match of a file stands before all that is under a later one |
| `DomainApi.DomainProvider.CreateDomain` | pkg/api/providers.go:400-468 | the new record with TTL 60 and round robin where none is given, and its DNS entry with the TTL cut to 32 bits; refused for configured and existing names |
| `DomainApi.DomainProvider.UpdateDomain` | pkg/api/providers.go:471-541 | the new record, keeping the time of creation, and TTL and router in DNS, 60 and round robin where none survives; succeeds exactly for stored domains |
| `DomainApi.DomainProvider.DeleteDomain` | pkg/api/providers.go:544-585 | removes the domain, every stored backend under its prefix and its DNS entry |
| `DomainApi.DomainProvider.AddDomainBackend` | pkg/api/providers.go:677-741 | stores and registers a backend, with the id of its endpoint and weight 1 where none is given; refused for existing ids and for names that are neither a stored nor a configured domain nor a service of the backend registry |
| `DomainApi.DomainProvider.RemoveDomainBackend` | pkg/api/providers.go:744-809 | removes a stored backend and deregisters its server |
| `DomainApi.DomainProvider.LoadStoredDomainsIntoDns` | pkg/api/providers.go:103-201 | replays every stored domain once with the backends under its prefix, in some order |
| `DomainReplay.PastIsExact` | pkg/api/providers.go:400-585 | over every run of requests with good names, a domain is stored exactly from its creation to its deletion, with the policy and TTL last asked for, and DNS answers with what creation left and the accepted edits changed |
| `DomainReplay.HiddenIsExact` | pkg/api/providers.go:677-809 | over every such run with good backends, a domain whose creation was accepted is served exactly its stored backends, once each, except those stored before it was created and not removed since |
| `DomainReplay.SettingsAgreeIff` | pkg/api/providers.go:103-201 | after any such run, when live DNS and replay serve the domain at all, and exactly when their TTLs, routers and algorithm names agree: the TTL if there was an edit or the created one survives 32 bits, the name if the last policy is that of creation |
| `DomainReplay.ServersAgreeIff` | pkg/api/providers.go:142-190 | where creation and last request are accepted, both list the same servers if and only if no stored backend with an IP address is older than the domain |
| `DomainReplay.ReplayAgreesIff` | pkg/api/providers.go:103-201 | a stored domain no file has is absent from both or served by both with the same TTL, router and servers, if and only if those conditions hold together |
| `DomainReplay.ReplayRebuildsTheLiveDomains` | pkg/api/providers.go:103-201 | after every sequence of requests that are accepted, with surviving TTLs and backends of known domains, replay gives every API domain the TTL, router and servers of live DNS, whatever the files hold |
| `DomainReplay.OwnerUnique` | pkg/api/domain_handlers.go:425 | for slash-free names a stored backend key belongs to one domain only |
| `DomainReplay.ConfiguredDomainsForgetApiBackends` | pkg/api/providers.go:103-201 | a backend added to a configured domain is served but not replayed |
| `LatencyTable.Table.Update` | pkg/overwatch/latency_table.go:96-154 | the new table, every eviction being of a subnet holding a globally oldest entry |
| `LatencyTable.Table.EvictOldest` | pkg/overwatch/latency_table.go:359-378 | removes one subnet that holds an entry of globally least update time |
| `LatencyTable.Table.Prune` | pkg/overwatch/latency_table.go:316-355 | exactly the entries no older than the limit stay, unchanged, and only subnets that still have some |
| `LatencyTable.Table.Clear` | pkg/overwatch/latency_table.go:390-395 | empties the table |
| `LatencyTable.Table.GetLatencyForBackendInRegion` | pkg/overwatch/latency_table.go:219-256 | the entry of that key if it is no older than the limit |
| `LatencyTable.Table.GetLatencyForBackend` | pkg/overwatch/latency_table.go:260-306 | a fastest entry of the backend no older than the limit, nothing exactly if there is none |
| `LatencyTable.Table.GetBestBackend` | pkg/overwatch/latency_table.go:158-215 | a fastest entry no older than the limit and with enough samples among the healthy backends, nothing exactly if there is none |
| `LatencyRuns.TableStaysBounded` | pkg/overwatch/latency_table.go:96-144 | over every run the number of subnets stays within the limit and no subnet is empty |
| `LatencyRuns.TableRefinesTheFlatMap` | pkg/overwatch/latency_table.go:125-143 | for names without a pipe character the table is at every moment the flat map from subnet, backend and region |
| `LatencyRuns.InRegionIsTheFlatEntry` | pkg/overwatch/latency_table.go:219-256 | the lookup by region is the unexpired entry of the flat map |
| `LatencyRuns.FastestIsTheMinimumOverRegions` | pkg/overwatch/latency_table.go:260-306 | the lookup over all regions is the least of the lookups by region, and nothing exactly when they all are |
| `LatencyRuns.CollidesIffPiped` | pkg/overwatch/latency_table.go:125-127 | another pair of names has the key of a backend and region if and only if one of the two contains a pipe character |
| `LatencyRuns.CollidingReportIsLost` | pkg/overwatch/latency_table.go:125-143 | when two pairs share a key, a report for the second after the first leaves its backend without an answer over all regions, and answers for the first pair with its own measurement and region |
| `Health.ServerHealth.constructor` | pkg/health/status.go:74-87 | thresholds below one become 3 and 2; the status is unknown |
| `Health.ServerHealth.RecordResult` | pkg/health/status.go:131-161 | one step of the automaton, with the bookkeeping fields and the change report |
| `Health.BackendHealth.RecordResult` | pkg/agent/backend.go:380-408 | one step of the agent's automaton, with the same fields and report |
| `Health.CountersAreSuffixLengths` | pkg/health/status.go:131-161 | after every history each counter is the length of the current all-pass or all-fail end |
| `Health.StatusIsTheLatestDecision` | pkg/health/status.go:139-160 | the status is the verdict of the latest long enough streak, and unknown exactly before any |
| `Health.HysteresisBudget` | pkg/health/status.go:131-161 | H changes to healthy and U to unhealthy need at least pass times H plus fail times U results |
| `Health.AutomataAgree` | pkg/agent/backend.go:388-407 | with equal thresholds the agent's flag equals the Overwatch's healthy status after every prefix |
| `Health.ReportsDifferOnlyOnFirstUnhealthy` | pkg/agent/backend.go:388-407 | their change reports differ exactly when the first verdict is unhealthy |
| `HealthManager.Manager.AddServer` | pkg/health/manager.go:103-134 | a new entry with the default interval or timeout where its own is 0 and fresh unknown health with the manager's thresholds, its own loop if running; refused exactly for a registered key |
| `HealthManager.Manager.RemoveServer` | pkg/health/manager.go:137-152 | the entry is gone and its loop told to stop, with a channel closed for the first time |
| `HealthManager.Manager.Start` | pkg/health/manager.go:155-173 | exactly one loop per entry from a stopped manager; refused exactly when running |
| `HealthManager.Manager.Stop` | pkg/health/manager.go:176-190 | no loop remains, the entries stay, and the manager's channel is closed once |
| `HealthManager.Manager.Reconfigure` | pkg/health/manager.go:328-405 | the table becomes the wanted one; survivors keep their health object and, exactly if unchanged, their entry; newcomers start unknown; the counts are the sizes of the differences and the size changes by added minus removed |
| `HealthManager.WantedAreTheListed` | pkg/health/manager.go:333-344 | a key is wanted exactly if it is listed |
| `HealthManager.WantedIsTheLastOfItsKey` | pkg/health/manager.go:333-344 | and then with the last configuration listed for it, its interval and timeout replaced by the defaults where 0 |
| `Nsec3.IncrementHash` | pkg/dnssec/nsec3.go:297-308 | the loop over the byte buffer computes the carry, and returns its input if every byte carries |
| `Nsec3.DecrementHash` | pkg/dnssec/nsec3.go:311-322 | the same for the borrow |
| `Nsec3.IncrementIsTheSuccessor` | pkg/dnssec/nsec3.go:297-308 | unless every byte is 'V' the increment is the immediate lexicographic successor of its length |
| `Nsec3.DecrementIsThePredecessor` | pkg/dnssec/nsec3.go:311-322 | unless every byte is '0' the decrement is the immediate predecessor |
| `Nsec3.DecrementUndoesIncrement` | pkg/dnssec/nsec3.go:297-322 | exactly unless every byte is 'V' |
| `Nsec3.IncrementUndoesDecrement` | pkg/dnssec/nsec3.go:297-322 | exactly unless every byte is '0' |
| `Nsec3.CoverIsExact` | pkg/dnssec/nsec3.go:179-196 | the synthetic record covers the hash it was made for and no other hash, in the sense of section 7.2.2 of RFC 5155 |
| `Nsec3.DenialHoldsIffInside` | pkg/dnssec/nsec3.go:179-196 | it covers that hash if and only if the hash is neither all '0' nor all 'V' |
| `Nsec3.IncrementStaysInAlphabetIff` | pkg/dnssec/nsec3.go:297-308 | the increment of a base32hex string is one if and only if the byte it changes is not '9' |
| `Nsec3.DecrementStaysInAlphabetIff` | pkg/dnssec/nsec3.go:311-322 | the decrement is one if and only if the byte it changes is not 'A' |
| `Nsec3.GenerateNxdomain` | pkg/dnssec/nsec3.go:179-198 | two records, each covering its own hash and no other of its length, if and only if that hash is neither all '0' nor all 'V' |
| `Routing.RoundRobinRouter.Route` | pkg/routing/roundrobin.go:21-32 | the server at the old counter modulo the pool size, the counter advancing modulo 2^64 |
| `Routing.FairUnlessWrapping` | pkg/routing/roundrobin.go:28-29 | n calls on a pool of n pick n different servers if and only if the counter does not wrap among them or n divides 2^64 |
| `Routing.WeightedRoute` | pkg/routing/weighted.go:31-71 | the first server whose cumulative weight exceeds the drawn point: the one server among whose points it is |
| `Routing.SelectionIsProportional` | pkg/routing/weighted.go:37-67 | of the possible points, as many select a server as its configured weight, and one if that is not positive |
| `Routing.TotalIsTheSum` | pkg/routing/weighted.go:37-45 | the total is the sum of the configured weights, with 1 for each that is not positive |
| `Routing.NoDeadBranchIsTaken` | pkg/routing/weighted.go:47-49 | a non-empty pool weighs at least its size, and a drawn point always falls to some server inside the loop |
| `Routing.FilterKeepsTheLowest` | pkg/routing/latency.go:169-193 | the threshold never changes the lowest candidate, and passes something exactly if the lowest passes |
| `Routing.LatencyRouter.Route` | pkg/routing/latency.go:108-212 | the first server of least latency among those with enough samples, whatever the threshold; round robin exactly if there is none |
| `Routing.LatencyRouter.AnswerIsFastest` | pkg/routing/latency.go:138-212 | the answer has data from at least the required samples, and is no slower than any other such server |
| `Routing.LatencyRouter.AnswerFallsBack` | pkg/routing/latency.go:128-168 | if no server has, the round robin chooses |
| `Routing.LearnedLatencyRouter.Route` | pkg/routing/learned_latency.go:130-265 | the same for learned latencies of the client's subnet in each server's region, fresh and from enough samples |
| `Routing.LearnedLatencyRouter.AnswerIsFastest` | pkg/routing/learned_latency.go:167-265 | the same for data of the client's subnet in the server's region that are no older than the threshold and from enough samples |
| `Routing.LearnedLatencyRouter.AnswerFallsBack` | pkg/routing/learned_latency.go:130-200 | without such data, a client address or a domain, the round robin chooses |
| `Routing.LowestIsTheFirstFastest` | pkg/routing/latency.go:215-227 | the running minimum over the collected candidates is the first fastest server with data |
| `Routing.FirstFastestIsUnique` | pkg/routing/latency.go:215-227 | only one index answers that description |

## Left out

- Interleaving inside one operation: every operation is one atomic step, callbacks run at its end and in order.
- HealthManager.Manager.Stop: does not model a Start that slips in between its unlock and the end of its wait, because operations are atomic here.
- Aliasing of backends: a backend or a domain entry is a value in a map, so two references to one Go object are not distinguished; the health objects of the manager are real objects.
- The text of map keys outside `Naming`: maps are keyed by the tuple of the parts, and services are taken to contain no colon.
- `dns.Fqdn` on names with escapes or backslashes, and case folding of names.
- LatencyEma.SmoothedWithinSamples: the smoothing weight is an exact fraction and the result is truncated; float64 rounding is not modelled.
- LatencyEma.SettlesFromAbove: the same idealisation of float64.
- LatencyEma.SettlesFromBelow: the same idealisation of float64.
- LatencyEma.RestingValues: the same idealisation of float64.
- Failing store writes, the JSON encoding of stored records and the bbolt store itself.
- net.ParseIP, the router factory, the subnet of a client, the random source, key generation, globbing, file permissions and YAML parsing: parameters of the model.
- The hashing of names for NSEC3, the salts, the type bitmaps and the other fields of the record.
- Signing, DS records and the HTTP exchange of keys: a peer's answer is an input of the pull.
- OverwatchClaims.DnsNeverListsAForgottenBackend: like OverwatchPresence.ServedIffNotSilent, does not cover hot reload, which replaces all domains and drops dynamic servers, nor the domain API writing to the same DNS registry.
- DomainReplay.ReplayAgreesIff: for names that the configuration file has in another spelling, with a trailing dot, only settings and servers are compared (SettingsAgreeIff, ServersAgreeIff), because what the file lists there is then part of both sides.
- DomainReplay.HiddenIsExact: names without slash and trailing dot, and backends under the id made from their endpoint, as the handlers pass them.
- KeyProtocol.HeldKeysNeverAge: a restart is taken to load all stored keys before anything else happens; no file of the repository calls LoadAllKeys or EnsureKeysForZones (pkg/dnssec/store.go:101 and :159), and if a pull came first, an older key of a peer would replace a newer stored one.
- The status called overridden, which no code assigns.
- Go integer overflow, except the 32-bit TTL, the 64-bit counter of the round robin and the unsigned comparison of sample counts.
- Includes.IncludeContext.LoadFile: where several errors would be true, which of them is reported first is not stated beyond the file itself.
- Routing.LearnedLatencyRouter.Route: its fallback is the round robin, the only one the factory builds it with (pkg/routing/factory.go:125-131); the code lets another router be set.
- The failover router, geolocation, InjectTestData of the latency table, list and lookup methods, HTTP handlers, metrics and logging: they would add only easy members.
- The check loop's timer: a loop is present or absent, and an interval that is not positive is not examined.
