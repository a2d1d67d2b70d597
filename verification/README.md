# go-moa: a verified model of discovery and invocation

go-moa is an RPC server that announces its services in ZooKeeper, and the client side that finds
them. This project models its two stateful cores and the algorithms they rest on, and proves what
they keep over every run.

**Discovery.** `ZkTree` is the data tree; `ZkManager`, `Publishing`, `RegistryZk` and `ConfigCenters`
are the objects that create paths, publish and withdraw services and keep the client's cache, each
method proved against a function of the tree or of the cache. `Sessions` interleaves any number of
server sessions, with the delete and the create of one registration as separate steps. `Discovery`
is the whole protocol seen from one client: one-shot watches, the event queue, the listener between
taking an event and storing its result, and any change by others in between. `HostHistory` says what
the "did it change?" test does to a cached list over time, `StaleCache` builds the runs in which it
fails, `CacheKeys` and `StrayEntries` say which uris have an entry at all and why, `FailingRuns` shows
both failures as runs from the start, and `NodeWatches` follows the watches on single nodes. Paths are strings; `ServiceUri` proves that building and
parsing them are inverse where they are.

**Invocation.** `Dispatch` builds the method table, `Invocation` is one call with all its exits,
`Engine` and `EngineTheorems` run any number of calls at once, with the eviction of client counters
and the sampling of statistics between any two atomic actions. `Eviction`, `Stats`, `Timeouts` and
`Properties` are the algorithms beside them, and `RegistryFile` is the registry read from a file.

Run the proofs with `dafny verify dfyconfig.toml`.

## Assumptions

- Watches are one-shot, and creation, deletion and child changes fire them, as the section
  "ZooKeeper Watches" of the ZooKeeper Programmer's Guide says; events reach the client in order and
  none is lost, and the session stays alive.
- A session's operations on the tree succeed or fail by the state of the tree alone. Path elements
  are such as ZooKeeper accepts: "." and "..", and control characters, do not occur in them.
- `sync.Map` operations and adding to a `turbo.Flow` are atomic; `Changes` returns what was added
  since its last call.
- In `Discovery`, other sessions write nothing into an existing node, subscribed service nodes stay,
  paths hold no white space, and an address node whose content decodes names its own host.
  `Sessions` proves that servers behave so.
- In `Sessions`, address nodes are named host:port and other nodes have no colon in their names.
- Decoding of JSON, YAML, TOML and packets is a parameter; the Go types of parameters and results
  are tags.

## Where the code falls short of its evident intent

Each of these is kept as the code has it, with its exact condition.

- The test in `NodeChange` looks at the number of hosts and the greatest host only. A run keeps the
  cache exact if and only if no two successive observations agree in these and differ elsewhere
  (`DiscoveryTheorems.ExactRunsAreThoseWithoutBlindStep`). From every settled state, replacing a host
  that is not the greatest by a new one below the greatest gives a stale cache with nothing pending
  (`StaleCache.ReplacedHostStaysCached`), and this happens in runs from the start
  (`FailingRuns.StaleRun`). Comparing every host would always be exact
  (`HostHistory.ElementwiseAlwaysExact`).
- An event about an address node that was read is handled as though the node were a service, and
  leaves an entry under the uri extended by the host. In every reachable state a uri has an entry
  exactly if an observation of its path was dealt with (`CacheKeys.EntriesAreWhatWasHandled`), so the
  cache is free of strays if and only if no observation of an unsubscribed path was
  (`CacheKeys.CleanExactly`): when the client has nothing to do, exactly if every node that others
  deleted while the client watched it is a subscribed one by then
  (`StrayEntries.CleanExactlyByDeletions`). From every settled state, a host that was read and goes
  becomes such an entry (`CacheKeys.DeletedHostBecomesAnEntry`), also in runs from the start
  (`FailingRuns.StrayRun`), and entries are never taken out (`CacheKeys.EntriesStay`).
- A service whose node is missing when it is subscribed is never discovered, whatever is published
  there later, unless it lies under another subscription
  (`CacheKeys.FailedSubscriptionStaysUnknown`).
- When the path of a service cannot be created because an ephemeral node stands in the way, the
  connection is closed before the panic, so that everything the server had registered goes. A
  registration to which that does not happen touches only its own address (`Publishing.PublishLaw`); one
  to which it does withdraws all earlier registrations (`Publishing.FailedPreparationWithdraws`). A host
  brings it about by registering a service whose uri continues its own address of an earlier one
  (`Publishing.NestedServiceWithdraws`).
- A method with a result and an error type whose values are never nil is counted as processed and as
  failed. Received equals processed plus failed plus in flight exactly when no call of such a method
  has been counted twice (`EngineTheorems.ReceivedIsAccountedFor`).
- A first parameter of a type that implements `context.Context` is always passed the invocation's own
  context. The call goes through exactly if that context is assignable to the type, as it is to an
  interface that embeds `context.Context`; otherwise it ends in the recovery, as does every call of a
  variadic method whose elements do not take the slice (`Invocation.CallsAreWellTyped`, with concrete
  methods in `Invocation.RefusedCallsFail`).
- Of methods whose names differ in case only, exactly the last can be reached
  (`Dispatch.ReachedExactly`).
- A configured timeout beyond what fits into 64 bits of nanoseconds wraps around
  (`Timeouts.TimeoutIsSeconds`), and can become negative (`Timeouts.TimeoutCanWrap`).
- Attaching a property panics exactly on a context whose property map is nil, as that of a request
  without properties is (`Properties.AttachPanicsExactly`).
- A service without methods never gets a table of clients. Listing its counters panics
  (`Invocation.InvocationHandler.ListInvokes`), and so does a pass of the eviction, which may leave
  other services uncleaned, exactly if there is such a service (`Eviction.Cleaner.Pass`).

## Model

| member | source | states |
|---|---|---|
| DiscoveryTheorems.NoNotificationLost | zk.go:102-155 | in every reachable state each subscribed service node has its child watch armed, or its event queued, or the listener about to list it; while armed, the last observation is the present set of children |
| DiscoveryTheorems.QuietMeansCurrent | registry_zk.go:41-59 | with nothing queued or in hand about a service, the client has seen exactly the hosts that exist |
| DiscoveryTheorems.ExactRunsAreThoseWithoutBlindStep | registry_zk.go:199-232 | over a whole run the cache of a uri shows every handled observation if and only if no two successive observations have the same length and greatest host but differ |
| DiscoveryTheorems.ComparableRunsAreExact | registry_zk.go:199-232 | if successive observations are comparable by inclusion, the cache is exact at every handled state of the run |
| DiscoveryTheorems.HandledExactness | registry_zk.go:208-231 | after any handled observation the cache is exact exactly when the cached list before it was not blind to it |
| DiscoveryTheorems.CacheIsAnObservation | registry_zk.go:200-232 | for every run at all: the cached hosts are a sorted list observed earlier, of the latest observation's length, ending in its greatest host |
| DiscoveryTheorems.OnlyOneUriChanges | registry_zk.go:226-229 | no step of any run adds, removes or changes the entry of a uri it is not about |
| DiscoveryTheorems.LookupFindsTheRegistered | registry_zk.go:156-168 | end to end: with nothing pending and no blind step, the client's entry for uri and group holds a host exactly if its address node is at the path registration builds |
| DiscoveryTheorems.ListenerIsNeverStuck | zk.go:103-154 | in every reachable state with an event queued or in hand the listener can go on, and the pattern matches the path in hand |
| CacheKeys.EntriesAreWhatWasHandled | registry_zk.go:199-232 | in every reachable state, for every path, its uri has an entry if and only if an observation of the path was dealt with, whether subscribed, deleted or recreated |
| CacheKeys.CleanExactly | zk.go:139-150 | every entry is that of a subscribed service if and only if no observation of an unsubscribed path was dealt with |
| CacheKeys.DeletedHostBecomesAnEntry | zk.go:139-142 | from every settled state, the deletion of a host that was read leads to a state with an empty entry under the uri extended by the host, which nobody subscribed and where nothing is |
| DiscoveryTheorems.DeletedHostLeavesAnEntry | zk.go:139-142 | from every reachable state with a deletion in hand, three listener steps in a row store an empty entry under the uri read out of the path |
| CacheKeys.EntriesStay | registry_zk.go:226-229 | over every run a uri that has an entry once keeps one |
| CacheKeys.RunKeepsReach | zk.go:102-155 | over every run, everything the client watches, is told of or remembers lies at or under a subscribed path |
| CacheKeys.UncoveredIsUnknown | registry_zk.go:50-58 | a service at or under no subscription has no entry, no watch and no event in any reachable state, whatever is published |
| CacheKeys.FailedSubscriptionStaysUnknown | registry_zk.go:50-58 | over every run: after a subscription that failed because the node was missing, and until a later one covers its path, the service has no entry, no watch and no event |
| DiscoveryTheorems.ListenerStepsAreProgress | zk.go:103-154 | every listener step leaves less to do and changes nothing in the tree, in every order |
| DiscoveryTheorems.ListenerCatchesUp | zk.go:103-154 | from every reachable state listener steps alone lead to one with nothing pending, in which the last observation of every subscribed path is its present children |
| DiscoveryTheorems.UninterruptedNodeChange | registry_zk.go:202-231 | comparing, reading every host and storing, run without interruption, leave the cache that one call of NodeChange leaves |
| DiscoveryTheorems.SkippedNodeChange | registry_zk.go:204-224 | when the comparison sees no change the cache stays, as one call of NodeChange has it |
| DiscoveryInvariants.RunKeepsInv | zk.go:102-155 | every state of every run, of any steps by the client and by others, keeps the joint invariant of tree, watches, queue, listener and cache |
| StaleCache.ReplacedHostStaysCached | registry_zk.go:211-219 | from every settled state, replacing any host but the greatest by a new one below it leads to a state with nothing pending in which the host that is gone is still cached |
| FailingRuns.SubscriptionSettles | registry_zk.go:41-59 | from every start, the first successful subscription leads to a settled state, with the sorted hosts cached and exactly their existing nodes watched |
| FailingRuns.StaleRun | registry_zk.go:202-231 | for every start, every service in its tree and every such replacement there is a run from the start that ends stale with nothing pending |
| FailingRuns.StrayRun | zk.go:139-142 | for every start, every service in its tree and every host of it there is a run from the start that ends with a stray entry |
| StrayEntries.CleanExactlyByDeletions | zk.go:139-150 | in every reachable state with an idle listener and an empty queue, the cache is free of strays if and only if every path deleted while the client watched the node is subscribed by then |
| DiscoveryTheorems.LeadsWithinRuns | zk.go:103-154 | what a reachable state leads to is reachable, by a run that goes on from the given one |
| NodeWatches.ReadHostsStayWatched | registry_zk.go:74 | over every run, a host that is read is watched from then on until its node is deleted |
| NodeWatches.SubscribedHostsStayWatched | registry_zk.go:55-74 | so is every host a subscription found |
| NodeWatches.DeletedNodesStayWatched | zk.go:139-141 | after a deletion the node is watched until it comes back |
| NodeWatches.ChangesAreReported | zk.go:106 | over every run, exactly which events the creation or deletion of a node queues, and that each watch is used up |
| NodeWatches.NoEventIsDropped | zk.go:110-150 | over every run, no event is dropped for want of a watcher: a deletion is watched again, anything else listed |
| NodeWatches.ListingIsTold | zk.go:144-149 | what NodeChange is told are the present children, in ascending order, with the watch armed again |
| NodeWatches.UnwatchedIsDropped | zk.go:110-124 | an event on a path in which no registered path occurs is dropped without effect |
| NodeWatches.MissingIsLeftAlone | zk.go:145-147 | over every run, a path that is gone when it is to be listed changes nothing |
| NodeWatches.WatchersStay | zk.go:91-99 | over every run, a service once subscribed, with success or not, stays registered |
| HostHistory.ExactExactlyWithoutBlindStep | registry_zk.go:211-219 | on lists alone: a history is shown exactly at each point if and only if it has no blind step |
| HostHistory.ComparableHistoryIsExact | registry_zk.go:208-221 | sorted observations comparable by inclusion are always shown, since equal length and inclusion give equality |
| HostHistory.EveryHistory | registry_zk.go:211-219 | after any history the cached list is one of it, with the latest one's length and last host |
| HostHistory.CachesTheGreatest | registry_zk.go:208-219 | in a sorted history no host of the latest observation is greater than the last cached one |
| HostHistory.ShortCutGoesStale | registry_zk.go:213-218 | the concrete history a,c then b,c leaves a,c cached |
| HostHistory.ElementwiseAlwaysExact | registry_zk.go:213-219 | with a test that goes on to the last host no history goes stale, and it agrees with the written test wherever that one is exact |
| RegistryZk.ZkRegistry.ComparesElementwise | registry_zk.go:208-221 | the corrected loop over the cached entries: it finds "no change" only if the cached hosts are the addresses, and exactly by that test |
| ClientCache.ChangedHosts | registry_zk.go:202-231 | on hosts, one notification is one step of the history, and no other uri's hosts change |
| ClientCache.NodeChangeMissesAChange | registry_zk.go:211-219 | with a,c cached, the notification of b,c changes nothing whatever the nodes say |
| ClientCache.InitialUris | registry_zk.go:40-59 | the constructor caches exactly the services it could list, whatever happens to the tree between them |
| ClientCache.InitialEntries | registry_zk.go:50-57 | each of these has its sorted hosts as last listed |
| ClientCache.PulledHosts | registry_zk.go:69-93 | reading the nodes of some hosts gives entries for these hosts in this order, defaults included |
| ClientCache.PulledSays | registry_zk.go:73-87 | every field of a pulled entry: the node's description if it decodes, else the uri up to the first '#', the group after it or "*", the host, v1, not preliminary |
| ClientCache.ChangedIs | registry_zk.go:202-231 | what one notification does to the cache, with the test on length and last host spelled out |
| ClientCache.EntryIs | registry_zk.go:50-56 | the entry the constructor stores: the listed hosts in ascending order, each read at its full path |
| DiscoveryTheorems.PulledFromNodes | registry_zk.go:72-89 | an entry pulled from a tree says what the node at the full path holds |
| DiscoveryTheorems.SubscriptionTells | registry_zk.go:50-57 | over every run, a subscription caches for each listed host what its node holds |
| GoStrings.ListingsSortAlike | registry_zk.go:208 | the order in which ZooKeeper lists hosts does not matter: listings of the same set sort to the same list |
| GoStrings.StrLeIs | registry_zk.go:70 | the order sorted by: a is at most b exactly if it is a prefix of b or has the smaller character where they first differ |
| GoStrings.SortCorrect | registry_zk.go:70 | sorting gives an ascending permutation in that order |
| HostHistory.GreaterHostIsNoticed | registry_zk.go:208-219 | a concrete change of the greatest host, from a,b to a,c however listed, is stored |
| DiscoveryTheorems.CachedHostsAreInOrder | registry_zk.go:208-231 | in every reachable state the cached hosts of a subscribed uri are in that order, spelled out character by character |
| RegistryZk.ZkRegistry.constructor | registry_zk.go:29-66 | a client registers for each of its services, caches the listable ones, each by the answers given at its turn, and leaves watches on what it read; a server registers for the root and caches nothing |
| RegistryZk.ZkRegistry.InitialiseAll | registry_zk.go:41-59 | the same for the loop alone |
| RegistryZk.WatchesAre | registry_zk.go:46-55 | the watches left are exactly on the service nodes that could be listed and on the address nodes that were found; every service is registered for, listed or not |
| RegistryZk.EntryWatchesAre | registry_zk.go:72-74 | the address nodes watched for a service are exactly those of listed hosts that answered, at their full paths |
| RegistryZk.ZkRegistry.Initialise | registry_zk.go:44-57 | one round of the loop: the path is registered, and the entry stored and the watches left exactly if the service could be listed |
| RegistryZk.ZkRegistry.PullChildrenData | registry_zk.go:69-93 | one entry per host in sorted order, from the node if it decodes and by default otherwise, and a watch on every node found |
| RegistryZk.ZkRegistry.ComparesUnequal | registry_zk.go:202-222 | the loop finds "no change" exactly if lengths are equal and not zero and the last hosts agree |
| RegistryZk.ZkRegistry.NodeChange | registry_zk.go:199-234 | panics exactly on paths without the root in them; otherwise changes at most the entry of the uri in the path, to the pulled hosts, and leaves watches exactly on what it pulled |
| RegistryZk.ZkRegistry.GetService | registry_zk.go:156-168 | succeeds exactly for keys with an entry, an empty one included, and returns that entry |
| RegistryZk.ZkRegistry.RegisteService | registry_zk.go:95-130 | the tree afterwards, and whether it panics, are those of publishing the address node under the built path; when it returns, the node at the full path holds the description |
| RegistryZk.ZkRegistry.UnRegisteService | registry_zk.go:132-154 | withdraws the address node at the full path; true exactly if it was missing or had no children |
| RegistryZk.ZkRegistry.Destroy | registry_zk.go:236-238 | closes the session, so that its ephemeral nodes and no others go, and ends the listening loop |
| ServiceUri.UnwrapBuild | registry.go:107-122 | parsing a printed uri gives uri and group back, "" as "*", if and only if the uri holds no '#' |
| ServiceUri.BuildInjective | registry.go:107-113 | without '#', printed uris are equal exactly if uris and normalised groups are |
| ServiceUri.RebuildIdentity | registry.go:107-122 | printing what was parsed is the identity exactly outside "x#" and "x#*" |
| ServiceUri.RebuildIdempotent | registry.go:107-122 | printing what was parsed, done twice, is the same as done once |
| ServiceUri.MatchUriFails | registry_zk.go:200-201 | the pattern matches nowhere, so that indexing the first match panics, exactly if the root does not occur in the path |
| ServiceUri.MatchUriIs | registry_zk.go:200-201 | the match that counts is the leftmost one |
| ServiceUri.NonSpaceRunIs | registry_zk.go:200 | and what it captures is the longest run without white space after the root |
| ServiceUri.WhiteSpaceIs | registry_zk.go:200 | white space is exactly tab, newline, form feed, carriage return and blank |
| ServiceUri.PathsInFull | registry.go:87-113 | service, subscription and address paths spelled out, for every uri, group and host |
| ServiceUri.MatchUriOfRooted | registry_zk.go:200-201 | from a path under the root the pattern recovers the key exactly if the key has no white space |
| ServiceUri.KeysAgree | registry_zk.go:98-201 | the uri extracted from the path registration builds is the key lookup uses, exactly for keys without white space |
| ZkManager.ZKManager.CreateNode | zk.go:61-88 | the loop over the parts of a path has the effect of the recursive walk, with the connection closed before the panic |
| ZkManager.CreatePathLaw | zk.go:61-88 | creating a path fails exactly if an ephemeral node stands in the way; if not, it adds exactly its missing prefixes as persistent nodes, changes no node there was, and does nothing the second time; if so, the session's ephemeral nodes go and no other node is touched |
| ZkManager.PrefixesAre | zk.go:63-70 | the prefixes created are those of the names in the path, empty ones left out: the first one, the first two, and so on to all |
| ZkManager.FullPathIs | zk.go:63-70 | the longest of them is all names, each after a slash |
| GoStrings.SplitGlue | zk.go:63 | splitting a path loses nothing: its parts with slashes between them are the path |
| ZkManager.CreatedAsSpelled | zk.go:62-70 | after a complete creation the path as spelled is in the tree exactly if its spelling is slash-normalised |
| ZkManager.TreePathsAreNormal | zk.go:62-70 | every path of a well-formed tree is slash-normalised and the tree holds all its prefixes |
| ZkManager.ZKManager.RegisteWatcher | zk.go:91-99 | false exactly for a path already watched; the path is watched afterwards and no other is added or lost |
| ZkManager.ZKManager.Close | zk.go:157-160 | the listening loop is told to end and the session's ephemeral nodes go |
| Publishing.PublishLaw | registry_zk.go:106-129 | unless its preparation fails, a registration, panicking or not, touches no node there was but its own address; when it returns the node is this session's with the content asked for, whoever held it; if the preparation fails it panics, all the session held is gone and nothing else is touched |
| Publishing.PublishedIs | registry_zk.go:112-125 | when a registration returns the address node has the description given, version 0 and this session, and nothing else is new but the empty persistent prefixes of the service path |
| Publishing.RoundAnnounces | registry.go:40-64 | when a round works, each address holds, field by field, the uri, group, flag, host and protocol of the last service that builds its uri |
| Publishing.WithdrawIs | registry_zk.go:139-153 | a withdrawal succeeds exactly if the address is missing or has no children; then it is free, otherwise nothing happens |
| Publishing.FailedPreparationWithdraws | registry.go:40-56 | a registration that panics in its preparation ends the round, and no address registered before it is left |
| Publishing.NestedServiceWithdraws | zk.go:75-79 | on every tree, registering a service whose uri continues the host's own address of the service before it panics and takes that one away |
| Publishing.PublishPanicsExactly | registry_zk.go:106-127 | exactly when the publication of an address node returns and when it panics, by the tree it starts from |
| Publishing.RegistrationPanicsExactly | registry.go:43-53 | the same for every service of every host, at the paths registration builds |
| Publishing.PublishAgain | registry_zk.go:122-127 | on an address held as an ephemeral node of any session, registering succeeds and replaces just that node |
| Publishing.PublishAllLaw | registry.go:40-56 | registering all services leaves each address with the last service registered there and touches no other node; if a preparation fails, all the session held is gone and nothing else is touched |
| Publishing.PublishAllIdempotent | registry.go:40-56 | registering all services a second time succeeds and changes nothing |
| Publishing.PublishRepeatedlyLaw | registry.go:36-56 | registering all services any number of times is the same as once, success or panic |
| Publishing.AddressesAreBuiltUris | registry.go:43-49 | two services of one host share an address node exactly if they build the same uri |
| Publishing.WithdrawAllLaw | registry.go:74-83 | withdrawing removes every address held as an ephemeral node, and touches nothing but the addresses |
| Publishing.DestroyUndoesPublish | registry.go:74-85 | after registering, Destroy removes exactly the registered addresses |
| Publishing.PublishKeepsNames | registry.go:58-64 | registering and withdrawing keep every description at the node named after its host |
| ConfigCenters.ConfigCenter.RegisteService | registry.go:58-64 | the description stored carries the arguments, whatever the one passed in says |
| ConfigCenters.ConfigCenter.RegisteAllServices | registry.go:40-56 | the loop publishes the services in order and stops at the first panic; if it works, every service is announced with all its fields |
| ConfigCenters.ConfigCenter.Destroy | registry.go:74-85 | the loop withdraws every service, goes on after failures and closes the session |
| Sessions.RunKeepsInv | registry_zk.go:104-154 | every interleaving of server steps keeps the joint invariant of tree and sessions, and every service node as it was |
| Sessions.ReachableStates | registry_zk.go:104-154 | over every interleaving: every node has version 0, exactly the address nodes are ephemeral, owned by live sessions and named after their hosts, and no service node is removed or rewritten |
| Sessions.DeleteOldClears | registry_zk.go:122 | in every reachable state the delete of a registration leaves the address free |
| Sessions.CreateNewWorks | registry_zk.go:124-127 | the create then succeeds exactly if nobody has taken the address in between |
| Sessions.CreateNewSays | registry_zk.go:123-124 | in every reachable state a create that works publishes the description of its registration in the hands of its session |
| Sessions.WithdrawalFrees | registry_zk.go:139-150 | in every reachable state a withdrawal frees its address and no other |
| Sessions.ExpiryTakesItsOwn | registry_zk.go:124 | an expiry takes exactly the ephemeral nodes of its session |
| Sessions.SurvivesOldSession | registry_zk.go:119-127 | a re-registered address stays with the new session through any steps, the expiry of every other session included, as long as nobody else deletes or creates that address |
| Sessions.CreateAloneIsNotEnough | registry_zk.go:119-127 | without the delete, an address of an older session makes the create fail and goes when that session expires |
| Sessions.StepsAreOutsideChanges | registry_zk.go:106-147 | every server step changes the tree by one create, or by deletes of address nodes, of the kind the client's protocol allows for |
| RegistryFile.FileRegistry.constructor | registry_file.go:27-78 | the index groups the entries of the file by key, in file order; a server's is empty |
| RegistryFile.FileRegistry.AddCluster | registry_file.go:52-70 | the inner loop keeps the index a grouping of what was read so far |
| RegistryFile.FileRegistry.AddHost | registry_file.go:53-69 | one host adds one entry to its key's group, with the protocol defaulted from then on |
| RegistryFile.FileRegistry.GetService | registry_file.go:107-127 | answers one entry for each host of each cluster of the file that builds the key and has the protocol, v1 where the file gives none, in file order and with the cluster's fields; fails exactly if there is none |
| RegistryFile.ScanAnswers | registry_file.go:51-121 | the same of the scan, for all files |
| RegistryFile.FilterTwiceIsScan | registry_file.go:107-121 | grouping by key and then filtering by protocol is one scan for both, in order |
| RegistryFile.ScanCounts | registry_file.go:116-121 | the scan finds a matching entry as often as the file has it, and no other |
| RegistryFile.FlatHolds | registry_file.go:51-70 | the file has an entry exactly if one of its clusters lists the host |
| Dispatch.NewTable | proxy.go:50-105 | panics exactly if a service lacks its interface or a method does not end in an error; otherwise every lookup equals the linear scan for the last service and the last method with the name in any case |
| Dispatch.BuildMethods | proxy.go:62-98 | the methods of one service: panics exactly on bad results, resolves names as the scan does |
| Dispatch.LastMethodFails | proxy.go:227-231 | the scan fails exactly if no method has the name in any case |
| Dispatch.LastServiceIs | proxy.go:99 | the scan takes the last service with the uri, and none exactly if there is none |
| Dispatch.ReachedExactly | proxy.go:95-227 | with distinct names, every case variant of a name reaches its method if and only if no later name equals it ignoring case |
| Dispatch.CaseVariantsReachTheirMethod | proxy.go:95-227 | if no two names differ in case only, every case variant reaches its method |
| Dispatch.ShadowedMethodIsUnreachable | proxy.go:95 | otherwise every variant of the earlier name reaches a later method |
| Invocation.DecodeAllInOrder | proxy.go:277-290 | decoding succeeds exactly if every argument decodes to its own type, and gives the values in order |
| Invocation.CallsAreWellTyped | proxy.go:259-295 | when the call is reached there is one parameter per declared type, the context first exactly if the first type is one, the rest decoded in order to their types; the call accepts them exactly if the context is assignable to the first type and a variadic slice to its element |
| Invocation.RefusedCallsFail | proxy.go:263-295 | concrete methods: one that refuses the context fails whatever it would do, one that takes it does not, and one with variadic strings is never called |
| Invocation.VerdictBumps | proxy.go:220-319 | every invocation counts once, as processed or as failed, except exactly those counted as both |
| Invocation.EarlyExits | proxy.go:221-293 | each exit before the call and its code: no service 501, no method 502, wrong number of arguments 302, an argument that does not decode 3021; each counts one error |
| Invocation.CallExits | proxy.go:295-328 | each exit from the call on: a single error result counts and answers by whether it is nil, a result with an error that can be nil is a success carrying the result, a refused or panicking call fails |
| Invocation.SuccessIsProcessed | proxy.go:292-316 | the reply is a success exactly if the invocation was counted as processed and nothing else |
| Invocation.StructErrorsCountTwice | proxy.go:302-309 | a concrete call that is counted on both sides |
| Invocation.InvocationHandler.CountInvoke | proxy.go:234-257 | adds one to the counter of the client and method and to no other |
| Invocation.InvocationHandler.ListInvokes | proxy.go:108-133 | every client of the service once, with its own table, none for an unknown service; panics exactly for a service without methods |
| Invocation.InvocationHandler.DecodeArgs | proxy.go:276-290 | the loop decodes all arguments or fails |
| Invocation.InvocationHandler.CallAndCount | proxy.go:295-333 | from the reflective call on: counters and reply are those of the verdict, up to what the recovery adds |
| Invocation.InvocationHandler.Dispatch | proxy.go:259-317 | the same from the arity check on |
| Invocation.InvocationHandler.Invoke | proxy.go:138-320 | all exits: received once, the verdict's counters, one callback exactly if the cost is below the timeout, the client's counter exactly if the method was found |
| EngineTheorems.RunKeepsInv | proxy.go:169-319 | every state of every interleaving of invocations, evictions and samples keeps the joint invariant |
| EngineTheorems.ReceivedIsAccountedFor | proxy.go:169-319 | in every reachable state received is processed plus failed plus in flight less those counted twice, and balances exactly if there are none; an invocation past its last count is never in flight, so every exit counts |
| EngineTheorems.NilableErrorsBalance | stat.go:218-231 | with error types that can be nil, received equals processed plus failed plus in flight at all times |
| EngineTheorems.FinishedInvocations | proxy.go:174-218 | a finished invocation has called back once, with its verdict, if its cost is below its timeout, and never otherwise; an unfinished one has not |
| EngineTheorems.CountingLosesNothing | proxy.go:234-257 | in every reachable state at most one live counter per service, client and method; live plus evicted counts are the invocations counted under the key; without eviction the live counter alone is |
| EngineTheorems.SamplesAddUp | stat.go:178-186 | in every reachable state what was reported of a counter plus what is not sampled yet is its total |
| EngineTheorems.TakeIs | stat.go:178-186 | in every run a sample reports all that was added to its counter and touches no other |
| EngineTheorems.EvictIs | application.go:217-219 | in every run an eviction puts the counters of its client, and no others, out of reach, and changes no count |
| EngineTheorems.FinishedKey | proxy.go:234-257 | a finished invocation has counted under its service, its client and the declared name of the method found, or under nothing |
| EngineTheorems.NothingIsStuck | proxy.go:220-257 | an unfinished invocation can always move on: the references it holds stay valid through evictions |
| Eviction.SearchStrings | application.go:210 | the first position whose string is not less than the one sought |
| Eviction.FoundExactly | application.go:211 | the test made on that position decides membership |
| Eviction.Disconnected | application.go:207-215 | collects exactly the clients that are not connected |
| Eviction.Cleaner.Pass | application.go:204-220 | panics exactly if some service has no table; otherwise, for every service and client, the counters are kept unchanged if the client is connected and gone if not |
| Eviction.Cleaner.DeleteAll | application.go:217-219 | removes the collected clients of one service and nothing else |
| Stats.MoaStat.Tick | stat.go:172-213 | a tick reports what was added to each flow since the last one, hands the sample to the monitor and moves the rotation on |
| Stats.SamplingTelescopes | stat.go:178-186 | over any number of additions and ticks, reported plus unsampled is the total |
| Stats.RotateIsModulo | stat.go:192-212 | after n ticks the rotation counter is n mod 11, within 0 and 10 |
| Timeouts.LoadConfiguration | option.go:85-131 | every cluster is kept, its timeouts converted and each of its sizes defaulted on its own |
| Timeouts.WithDefaults | option.go:88-130 | the same for one cluster |
| Timeouts.CompletedIsUsable | option.go:88-126 | completed sizes are all usable, usable ones are kept, and completing them again changes none |
| Timeouts.SettingsInNumbers | option.go:88-130 | every setting and its default in numbers |
| Timeouts.WrapIsCongruent | option.go:128-129 | a timeout that wraps around differs from the true one by a multiple of 2^64 |
| Timeouts.TimeoutIsSeconds | option.go:115-129 | the timeout is the configured seconds in nanoseconds, and so at least one second, exactly if that fits into an int64 |
| Timeouts.TimeoutCanWrap | option.go:128-129 | one second more than fits gives a negative timeout |
| Timeouts.DroppedExactly | application.go:276-283 | a request stamped at decoding is dropped exactly if the elapsed time plus the part of a millisecond cut off reaches the timeout |
| Timeouts.OnlyStampedExpire | application.go:278 | a request without a creation time is never dropped, and one with a time exactly if that long ago |
| Timeouts.DroppedWithinAMillisecond | moa_codec.go:74-76 | dropped for certain from the timeout on, queued for certain up to a millisecond before |
| Timeouts.RoundingBoundIsTight | moa_codec.go:74-76 | that millisecond cannot be made smaller |
| Timeouts.FreshRequestsAreQueued | application.go:276-283 | with a configuration that fits, a request is queued up to a millisecond before the configured seconds have passed |
| Timeouts.Application.Dis | application.go:252-325 | which packets are queued or dropped, and which calls are made on the connection, payloads of an unexpected type included |
| Properties.ReadsSeeTheLatestWrite | moa_codec.go:206-240 | after any operations on any tree of contexts a read gives the latest surviving write through any context that resolves to the same map |
| Properties.OthersAreUnaffected | moa_codec.go:206-275 | no operation changes a read through a context that resolves to another map |
| Properties.AttachPanicsExactly | moa_codec.go:208-217 | attaching panics exactly on a nil property map; otherwise the value is read back through the context returned |
| Properties.ReadsThrough | moa_codec.go:231-240 | a read passes over values under other keys; the innermost value under the property key decides, by its map or as empty |
| Properties.AttachIs | moa_codec.go:206-218 | by reads alone: the attached value is read back, every other key reads as before |
| Properties.AttachesInPlace | moa_codec.go:208-217 | which map is written to, and when a new context is made |
| Properties.DetachIs | moa_codec.go:221-228 | by reads alone: the key is gone, every other key reads as before |
| Properties.SpanIs | moa_codec.go:260-275 | by reads alone: the span's pairs are read, every other key reads as before; panics exactly on writing to a nil map |
| Properties.PropertyMaps.Attach | moa_codec.go:206-218 | writes in place into the map the context resolves to, or into a new map under a new context |
| Properties.PropertyMaps.Detach | moa_codec.go:221-228 | removes the key in place, from that map only |

## Left out

- Connection errors: `Exists`, `ChildrenW`, `GetW` and `Create` fail here only by the state of the tree.
- Session loss on the client and `OnSessionExpired` (registry_zk.go:171-196); the expiry of server sessions is modelled as seen from the tree.
- RegistryZk.ZkRegistry.constructor: the race with the listener that is already running is not modelled. In `Discovery` a subscription is one step, taken when nothing about that path is pending.
- What is done on a connection after it was closed.
- Removal of subscribed service nodes by others, writes to existing nodes, and two processes creating the same path at once.
- The loop of `listenEvent` is modelled as steps, not as a method, since other sessions act between them.
- Message texts of errors and replies, tracing, metrics, logging, HTTP pages, signals, and what the monitor callback does with a sample.
- The work queue, the pool and connections of turbo: an invocation starts when it is taken from the queue; its cost and what the called method does are parameters.
- `DestroyApplication` waiting for connections, `InitServerOption`, `InitClientOption`, and the environment they read.
- `Compress`, `Decompress`, `MarshalPayload`, the `Wrap2` functions and other wrappers of library calls.
- `FileRegistry.PullChildrenData`, which no code of the repository calls.
- What `Pong` of the turbo connection writes: `Timeouts` records the call.
