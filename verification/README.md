# GeoProxy: a verified model of the gateway's core

GeoProxy hands each client session an upstream node, keeps the node pool fresh
from subscriptions, and runs tunnel nodes behind local sing-box processes. This
project models the six places where its behaviour is hardest to see from the
code, and proves what holds on every input, in every run or in every
interleaving.

* **Sessions** (`Affinity`, `BindProtocol`, `BindSafety`, `BindCooldown`,
  `BindResult`, `BindSticky`, `BindServed`, `Rendezvous`). The session store is a
  class with a forward map, a reverse index and a cooldown table. `Resolve` and the retry loops around it
  are threads with program counters; every store call, database read and clock
  reading is a step of its own, and garbage collection, TTL changes, releases
  and database writes may happen between any two steps. The theorems speak of
  every state of every run.
* **Subscription refresh and node health** (`Refresh`, `RefreshTx`, `Health`,
  `HealthRuns`, `HealthClock`, `HealthFailures`, `HealthWorld`). A refresh is a
  transaction over rows by id; each statement either keeps UNIQUE(address,
  source, subscription_id) or fails and rolls everything back. Probe and forward
  results come back at any later time and are written only where the full route
  identity still matches.
* **Tunnel runtime** (`Nodes`, `Ports`, `Prune`, `Process`, `Sharded`,
  `Cluster`). Port allocation, bisection over slices that share an array, one
  process's reload with restore, and the reload of many shards with commit check
  and rollback. What the operating system and sing-box answer during a call is a
  parameter.
* **Username DSL** (`Text`, `Base64Url`, `Dsl`, `DslGrammar`, `DslPrinting`,
  `DslLimits`). The parser, a grammar of segments it is proved against, and the
  printer, down to the bits of base64url (section 5 of RFC 4648).
* **Paging** (`Filtering`, `Paging`) and **rate limiting** (`RateLimit`,
  `RateEntitlement`), each against its simple form.

Three promises hold only under a condition; each has its exact condition and a
family of inputs that misses it.

* `ParseUsername` indexes out of range, instead of returning an error, on a pin
  that is `key` cut short by a marker (`DslLimits.ParsePanicsIff`,
  `DslLimits.PanicFamily`). The comment at `auth/dsl.go:211` says such tokens
  split safely.
* A gateway hint reads back exactly when its base and its pin contain no marker
  and end in none that lacks its last dash (`DslPrinting.HintReadsBackIff`). For
  ASCII keys the pin never is the problem. For keys whose server name holds the
  characters U+F9E1 U+05FE at the right distance it always is
  (`DslLimits.ServerNameBreaksHint`).
* The comment at `custom/sharded_singbox.go:198` says that a shard whose key set
  is unchanged is skipped. Given the same nodes again, a shard is skipped exactly
  if `sing-box check` had dropped none of them (`Sharded.ReloadAgain`,
  `Cluster.ShardedSingBox.ReloadTwice`); with a refused node it is reloaded each
  time (`Sharded.RefusedNodeReloadsAgain`).

One condition is of the bare transaction only. A refresh commits exactly when no
temporary address `rebind-<id>.invalid:0` equals an address still in use at that
moment. Such an address has port 0, which every parser path refuses, so for what
the parsers and the port allocator produce a refresh commits exactly if the
subscription exists (`RefreshTx.Replace`, `Refresh.DialableClear`).

## Model

| member | source | states |
|---|---|---|
| `Affinity.Store.constructor` | affinity/store.go:58-70 | a new store has no bindings, index entries or cooldowns |
| `Affinity.Store.Get` | affinity/store.go:72-87 | a live binding is returned and renewed; an expired one is removed from map and index together |
| `Affinity.Store.SetProxy` | affinity/store.go:93-101 | rebinding detaches the session from its old proxy, and the index stays the inverse of the map |
| `Affinity.Store.Remove` | affinity/store.go:103-111 | removing a session removes exactly its binding and its index entry |
| `Affinity.Store.RemoveIfProxyID` | affinity/store.go:113-133 | the binding goes only if it is live and points to the expected proxy |
| `Affinity.Store.SetCooldown` | affinity/store.go:135-144 | only the proxy's deadline changes |
| `Affinity.Store.InCooldown` | affinity/store.go:146-158 | true exactly before the deadline; a passed deadline is dropped, nothing else changes |
| `Affinity.Store.CooldownRemaining` | affinity/store.go:161-176 | the time left, never negative, with the same clean-up |
| `Affinity.Store.CountByProxy` | affinity/store.go:178-205 | counts the live sessions of the proxy while deleting only its expired ones during the iteration |
| `Affinity.Store.CollectExpired` | affinity/store.go:278-294 | exactly the expired bindings and the passed deadlines go |
| `Affinity.Store.List` | affinity/store.go:317-337 | every live session once, with its binding, and no other |
| `Affinity.Store.SetTTL` | affinity/store.go:359-363 | only the TTL changes |
| `Affinity.InverseHolds` | affinity/store.go:207-225 | the index has a non-empty entry for a proxy exactly if it has sessions, and the entry is the set of them |
| `Affinity.InverseUnique` | affinity/store.go:207-225 | an index with these properties is the inverse of the map; there is no other |
| `Affinity.CountMatchesList` | affinity/store.go:178-205 | counting a proxy in any listing of the same instant gives the number of its live sessions |
| `Affinity.CountPurges` | affinity/store.go:184-205 | purging while counting loses no live binding of any proxy and leaves no expired one of the counted proxy |
| `BindSafety.LockStep` | affinity/store.go:37-46 | in every step the first-bind lock is held by exactly the thread inside the section it guards |
| `BindSafety.CapacityInEveryRun` | selector/selector.go:69-212 | in every interleaving of pinned, sticky and first-bind calls with GC, TTL changes and releases, no proxy has more bindings than the limit, expired ones included |
| `BindCooldown.CooldownInEveryRun` | selector/selector.go:85-138 | in every interleaving two new bindings of the same proxy are at least the cooldown apart |
| `BindCooldown.DeadlineInEveryRun` | selector/selector.go:118-138 | in every run, from one new binding of a proxy to the next its deadline is neither delayed nor cleared early: sticky and pinned hits, counting, releases, GC and TTL changes leave it alone |
| `BindResult.ResultInEveryRun` | selector/selector.go:69-212 | in every run a returned node was available, matched the region in force and the unlock tokens, was not excluded and had no paused parent when read during the call; a region the client asked for is in force on every attempt; no request dials a node twice |
| `BindResult.EligibleWell` | storage/regions.go:18-31 | what the region query and the unlock filter leave is suitable for the request |
| `BindResult.BindingInEveryRun` | proxy/server.go:180-189 | in every run a binding that does not expire lasts until its own session rebinds, releases it as stale or fails to dial that very node; nothing any other request, node or the GC does costs it, and a release has the reasons of the sticky theorem |
| `BindSticky.StickyInEveryRun` | selector/selector.go:85-123 | in every run, while a session is live-bound to a node that still serves its request and the reads are answered, its calls return that node and no other, pinned to it or not, without counting, releasing or binding, however full or cooling the node is |
| `BindSticky.ReleaseHasReason` | selector/selector.go:512-525 | a call that leaves the sticky path, to release a binding above all, has met a state in which the binding was not live on this node, the node did not serve the request, its parent was not active, or a read faulted |
| `BindSticky.AliveInEveryRun` | affinity/store.go:72-87 | in every run a session read at intervals below the TTL never expires: it stays live on its node, last active when last read |
| `BindServed.ServedInEveryRun` | selector/selector.go:69-212 | in every run a call does not fail while one node stays suitable, with room and not cooling, and the reads are answered |
| `BindServed.ReturnedWasBoundInEveryRun` | selector/selector.go:85-138 | in every run a node returned to a request with a session was that session's live binding at some moment of the call |
| `BindServed.RebindRegionInEveryRun` | selector/selector.go:512-525 | in every run a request that names no region and gives up a live binding is served in that binding's region or not at all |
| `BindServed.FailedDialInEveryRun` | proxy/server.go:180-189 | in every run, after a failed dial the session is not bound to that node until it is bound to it anew |
| `BindServed.NeverDialedAgainInEveryRun` | proxy/server.go:259-278 | in every run a request is never handed a node again on which its dial failed |
| `Rendezvous.PickSessionCandidate` | selector/selector.go:222-250 | one pass, with tie keys computed only on equal scores, ends on a candidate that no other precedes |
| `Rendezvous.TieKeyInjective` | selector/selector.go:418-420 | rows with different ids have different tie keys, whatever their other columns |
| `Rendezvous.PickUnique` | selector/selector.go:222-250 | the pick depends on the set of candidates, not on their order |
| `Rendezvous.PickSurvivesRemoval` | selector/selector.go:222-250 | losing a candidate that was not picked moves no session |
| `Rendezvous.PickAfterArrival` | selector/selector.go:222-250 | a new candidate takes the session or leaves it where it was |
| `Rendezvous.WeightBounds` | selector/selector.go:344-384 | every weight lies strictly between 0.375 and 2.5 |
| `Rendezvous.WeightOrders` | selector/selector.go:344-384 | other things being equal the weight falls with load and with measured latency and rises with successes |
| `Rendezvous.FormatDigits` | selector/selector.go:307-332 | twenty bytes hold the digits of every 64-bit magnitude, and they are its decimal text |
| `Rendezvous.WriteInt64` | selector/selector.go:307-332 | hashing the digits from the buffer equals hashing the decimal text, the smallest int64 included |
| `Rendezvous.ProxyHash` | selector/selector.go:282-294 | the streamed hash equals hashing the identity text it never builds |
| `Refresh.NormalizeEntries` | custom/manager.go:130-164 | the batch is reduced to the first entry of every address and of every node key |
| `Refresh.KeptNormalized` | custom/manager.go:130-164 | kept entries come from the batch, share no address and no key, and every dropped one shares a slot with a kept one |
| `Refresh.KeptPrefix` | custom/manager.go:130-164 | first come, first served: later entries never change what was kept |
| `Refresh.SurvivorsKeepIdentity` | custom/manager.go:907-983 | after a refresh a known key keeps its id, pause flag and use counts at whatever address and takes the new route; it stays in service exactly if the subscription is active, the row was proven and the route is unchanged; with a new route everything observed is forgotten, with the same one nothing is |
| `Refresh.EntriesBecomeRows` | custom/manager.go:907-1017 | every entry ends as a row with its route; its pause flag is that of the old row with its key, or, without a key, with its address; new rows are disabled and unobserved |
| `Refresh.JoinedHasPort` | custom/parser.go:596-610 | an address with a validated port never ends like a temporary one |
| `Refresh.DialableClear` | custom/manager.go:941-972 | for tables and batches whose addresses carry a port of at least 1, which is all that parsers and allocator produce, the two-phase rename never clashes |
| `Refresh.RefreshedDialable` | custom/manager.go:770-1034 | a refresh with such a batch leaves such a table, so the next one cannot clash either |
| `Refresh.TmpAddressInTheWay` | custom/manager.go:941-972 | of the bare transaction, on tables no parser produces: a later row at the temporary address of an earlier one blocks the refresh that keeps both |
| `RefreshTx.Tx.Update` | custom/manager.go:956-972 | an update succeeds exactly if no other row has the new identity, and the table stays unique |
| `RefreshTx.Tx.Upsert` | custom/manager.go:985-1010 | a free identity becomes a new row under a new id; a taken one updates the row that has it and keeps what was observed; no other row changes |
| `RefreshTx.SplitOld` | custom/manager.go:852-875 | the stale ids are exactly the subscription's rows without an incoming key; every other is found by its key |
| `RefreshTx.DeleteStale` | custom/manager.go:881-885 | exactly the stale rows go, one statement at a time |
| `RefreshTx.MakePlan` | custom/manager.go:907-939 | each entry is planned onto the row that carries its key, and onto none only if no row does |
| `RefreshTx.MoveAwayClash` | custom/manager.go:941-967 | moving an entry's row away clashes exactly with a later row whose old address is that temporary one |
| `RefreshTx.MoveHomeClash` | custom/manager.go:969-972 | moving it to its final address clashes exactly with a later row still waiting there |
| `RefreshTx.MoveAway` | custom/manager.go:941-967 | every intermediate table is unique; the phase succeeds exactly if no such clash exists, and then all survivors are at temporary addresses |
| `RefreshTx.MoveHome` | custom/manager.go:969-983 | the same for the way to the final addresses, for any permutation of addresses among the rows |
| `RefreshTx.InsertNew` | custom/manager.go:984-1017 | each remaining entry becomes a new row with its own id; no insert meets an existing identity |
| `RefreshTx.Replace` | custom/manager.go:770-1034 | commits exactly if the subscription exists and the temporary addresses are clear, hence for everything the parsers produce exactly if the subscription exists; then rows and normalized entries match one to one, known keys keep their ids, exactly the proven rows with an unchanged route stay in service, and other subscriptions' rows are untouched; otherwise nothing changes |
| `Health.ObservedColumnsMean` | storage/proxy_updates.go:575-600 | the CASE expressions of the SET lists amount to: exit all or nothing, latency if measured, known risk never replaced by unknown |
| `Health.RegionReads` | storage/regions.go:291-297 | a location that begins with a two-letter code gives that code in lower case |
| `Health.Table.ApplyProbeObservation` | storage/proxy_updates.go:544-600 | the statement, written column by column, does what the column rules say of a successful probe: it clears failures and never changes the status |
| `Health.Table.RecordForwardFailure` | storage/proxy_updates.go:603-628 | written exactly on the same route with a positive threshold; then the row is disabled exactly if it was or if its failures have reached the threshold, below it status and clock stay, at it a stopped clock starts; probe times and evidence are untouched, and the result tells whether the row is disabled |
| `Health.Table.RecordForwardSuccess` | storage/proxy_updates.go:631-646 | likewise for traffic that worked: failures cleared, status and evidence untouched |
| `Health.Table.RecordProbeFailure` | storage/proxy_updates.go:649-727 | the same for a failed probe of a row with an active parent, at every threshold; what the probe observed is kept |
| `Health.Table.RecoverProxyFromProbe` | storage/proxy_updates.go:730-781 | writes exactly for a complete exit on a disabled, unpaused row of the same route with an active parent; the row is then active with that exit and no clock |
| `Health.Table.RecordDisabledProbeFailure` | storage/proxy_updates.go:784-850 | likewise for a recheck of a disabled row: a running clock is not moved, a missing one starts, failures are not counted |
| `Health.Table.DisableRouteForPolicy` | storage/proxy_updates.go:853-873 | disables and clears the clock, and changes no other column |
| `Health.Table.ToggleSubscription` | storage/subscriptions.go:225-260 | pausing disables all rows of the subscription in the same transaction and starts no clock; activating touches none; the result is the new status |
| `Health.Table.PauseSubscription` | storage/subscriptions.go:263-285 | as above; an unknown subscription changes nothing |
| `HealthRuns.ReportBacked` | storage/proxy_updates.go:544-873 | a report whose observation was made on the row's route leaves every column backed by an observation on that route |
| `HealthRuns.RefreshBacked` | custom/manager.go:917-967 | a refresh keeps evidence only where the route is unchanged |
| `HealthRuns.EvidenceStep` | storage/proxy_updates.go:483-600 | no step of any writer breaks that, however late the report |
| `HealthRuns.EvidenceInEveryRun` | storage/proxy_updates.go:483-873 | in every interleaving what a subscription row says about exit, latency and risk was observed on its present route; late results for a replaced route never land |
| `HealthRuns.InServiceInEveryRun` | custom/manager.go:917-967 | in every run a subscription row in service carries an exit that a probe saw, completely, on the row's present route |
| `HealthRuns.PausedInEveryRun` | storage/subscriptions.go:225-285 | in every run no row of a paused subscription is in service |
| `HealthClock.EveryMove` | storage/proxy_updates.go:544-873 | for every row and step: counts stay sound, the clock is kept, started or stopped by a named step, disabled becomes usable only by recovery, and pause flags change only by pausing and unpausing |
| `HealthClock.Arrivals` | custom/manager.go:984-1010 | a row that appears has an unused id, is disabled and has no clock |
| `HealthClock.SoundInEveryRun` | storage/proxy_updates.go:603-727 | in every run with thresholds up to three a usable row has fewer than three failures, a row with a running clock is disabled, and successes never exceed uses |
| `HealthClock.ClockInEveryRun` | storage/proxy_updates.go:603-873 | between any two moments the clock shows the same time unless recovery, policy disable or a route change stopped it |
| `HealthClock.RecoveryInEveryRun` | storage/proxy_updates.go:730-781 | a row that was disabled or absent is usable later only if a recovery on its then route, trusted, unpaused and with an active parent, lies in between |
| `HealthFailures.FailuresInEveryRun` | storage/proxy_updates.go:603-727 | in every run a row that only failures reach keeps its status and clock through all of them below the threshold, and the one that reaches it disables the row |
| `HealthFailures.SuccessRestartsInEveryRun` | storage/proxy_updates.go:544-646 | after a success the row has the whole threshold ahead of it again |
| `HealthWorld.ApplyProbeResult` | webui/api_handlers.go:356-385 | the whole decision tree over one probe result: a result for a replaced route, or a valid one with an incomplete exit, writes nothing; otherwise only that row changes, and each verdict leaves status, clock, failure count, exit, risk and region as stated |
| `HealthWorld.World.Report` | storage/proxy_updates.go:544-873 | every report is delivered by its own statement |
| `HealthWorld.World.Perform` | storage/proxy_updates.go:544-873 | the statements carry out exactly the steps that the run theorems speak of |
| `HealthWorld.World.Refresh` | custom/manager.go:770-1034 | a refresh carried out by its transaction is exactly the refresh step of the run theorems, or nothing |
| `HealthWorld.World.Serve` | storage/proxy_updates.go:483-873 | any sequence of steps executed on the table keeps evidence backed, rows sound and only checked rows in service |
| `Nodes.SortedFacts` | custom/sharded_singbox.go:421-427 | sorting keeps the nodes and puts them in strictly ascending key order |
| `Ports.AllocPort` | custom/singbox.go:485-502 | the lowest free port of the segment, and 0 exactly if it is full |
| `Ports.Place` | custom/singbox.go:509-530 | one turn of the loop keeps ports unique, reserved and counted |
| `Ports.Assemble` | custom/singbox.go:460-530 | accepted, rejected and segment-full nodes partition the input; exactly the accepted have ports, distinct and in the segment, loaded keys keep theirs; the number left over is exactly the demand beyond 4999 |
| `Ports.EnoughPorts` | custom/singbox.go:485-502 | up to 4999 nodes none is left without a port |
| `Ports.AssemblyIs` | custom/singbox.go:460-530 | when the segment is not full, the result is fixed by the input alone: the buildable nodes in key order, and the rest |
| `Ports.ReassemblyKeeps` | custom/singbox.go:238-252 | rebuilding for loaded nodes accepts all of them and changes no port |
| `Ports.PortStableInEveryRun` | custom/singbox.go:460-502 | over any run of assemblies a key that stays loaded keeps its port |
| `Prune.Append` | custom/singbox.go:390-402 | the result is left then right as they were before, also when it overwrites the memory of right |
| `Prune.PruneInvalidNodes` | custom/singbox.go:390-402 | on slices with shared memory the result and the number of checks are those of the pure bisection, and nothing outside the slice changes |
| `Prune.PrunedIsFilter` | custom/singbox.go:390-402 | if a batch passes exactly when each node passes alone, bisection returns exactly the nodes that pass, in order |
| `Prune.PrunedPasses` | custom/singbox.go:390-402 | what remains passes as a whole, and pruning again changes nothing |
| `Prune.PrunedMembers` | custom/singbox.go:390-402 | whatever the check answers, nodes are only dropped |
| `Prune.ChecksBound` | custom/singbox.go:390-402 | at most 2n - 1 checks |
| `Process.FullIsAnError` | custom/singbox.go:209-213 | after a full segment the error built from the restored port map is never nil |
| `Process.DroppedFacts` | custom/singbox.go:404-419 | the nodes recorded as rejected after pruning are exactly those that did not survive it |
| `Process.Rebuilt` | custom/singbox.go:231-258 | after pruning and rebuilding, survivors keep their ports and every other tunnel node is on record as rejected |
| `Process.SingBox.constructor` | custom/singbox.go:108-146 | a new process carries nothing |
| `Process.SingBox.Configure` | custom/singbox.go:197-258 | succeeds exactly if something is buildable, the demand fits, files and binary are there and something passes the check |
| `Process.SingBox.Reload` | custom/singbox.go:149-278 | success and Partial hold exactly under their conditions; on both the tunnel keys split exactly into port-map keys and rejected keys; every other error leaves port map, nodes and diagnostics as they were; loaded keys keep their ports |
| `Process.SingBox.Stop` | custom/singbox.go:1092-1143 | stopping changes the status only |
| `Process.PortsInEveryRun` | custom/singbox.go:149-278 | over any run of reloads, failed ones included, ports are distinct, in the segment, and stable for keys that stay |
| `Sharded.Sift` | custom/sharded_singbox.go:315-325 | nothing is missing exactly if every node that is not rejected has a port, and then all of those are accepted |
| `Sharded.CommitError` | custom/sharded_singbox.go:302-341 | the code's order of tests decides exactly the declarative commit rule |
| `Sharded.CommitKeys` | custom/sharded_singbox.go:302-341 | a commit covers exactly the target without the rejected, all with ports |
| `Sharded.IdleIsHealthy` | custom/sharded_singbox.go:346-366 | a shard with work that is left alone runs with all its ports ready |
| `Sharded.OkIsHealthy` | custom/sharded_singbox.go:302-341 | a shard reload succeeds exactly under its condition; then the shard is healthy and its target passes the commit check |
| `Sharded.ReloadKeepsHome` | custom/sharded_singbox.go:101-108 | a shard given only nodes that hash to it carries only such keys, on every outcome |
| `Sharded.ReloadAgain` | custom/sharded_singbox.go:193-216 | given the same target again, a shard just reloaded is left alone exactly if the check dropped no node of it |
| `Sharded.ReloadAgainAlone` | custom/sharded_singbox.go:193-216 | where validity is a matter of single nodes, exactly if each of them is valid |
| `Sharded.RefusedNodeReloadsAgain` | custom/sharded_singbox.go:193-216 | any target with a node that the check refuses wherever it occurs is reloaded again |
| `Sharded.LoadedTarget` | custom/sharded_singbox.go:218-246 | the nodes a shard carries are their own reload target, so reloading them aims at the same set |
| `Sharded.Partition` | custom/sharded_singbox.go:172-180 | each shard's target is its share of the nodes in key order |
| `Sharded.TargetFacts` | custom/sharded_singbox.go:172-180 | the shares hold every node once, in the shard it hashes to |
| `Cluster.ShardedSingBox.constructor` | custom/sharded_singbox.go:80-96 | at least one shard, bases one span apart, nothing assigned |
| `Cluster.ShardedSingBox.ReloadAll` | custom/sharded_singbox.go:182-216 | exactly the shards that changed or are unhealthy are touched; a shard goes well exactly if it has nothing to do or its reload succeeds, and then it is healthy if it has work, and owns what it carries if it was touched |
| `Cluster.ShardedSingBox.RollBack` | custom/sharded_singbox.go:218-246 | all assigned key sets are back, untouched shards are not called, and a rollback without errors leaves each touched shard with its old nodes minus what the check now refuses |
| `Cluster.ShardedSingBox.ClearAll` | custom/sharded_singbox.go:154-170 | without tunnel nodes every shard ends empty and unassigned, and this cannot fail |
| `Cluster.ShardedSingBox.Merge` | custom/sharded_singbox.go:261-276 | the merged diagnostics hold exactly the pre-rejected nodes and those of all shards |
| `Cluster.ShardedSingBox.Reload` | custom/sharded_singbox.go:120-251 | loads exactly if it is not stopped or refused and every shard has nothing to do or reloads successfully; then every shard with work is out of the failed, stopped and partial states with all ports ready, and from a consistent state owns its share minus the rejected, with every tunnel node accounted for; refusals change nothing, failures leave every assigned set as it was; a shard is called exactly if its keys changed or it is unhealthy; a clean rollback restores each shard's key set if the check passes the old nodes again |
| `Cluster.ShardedSingBox.ReloadTwice` | custom/sharded_singbox.go:120-251 | the same nodes twice: the second reload calls exactly the shards that the first one called and in which the check dropped a node |
| `Cluster.ShardedSingBox.RecoverFailedShards` | custom/sharded_singbox.go:394-419 | succeeds exactly if every shard needs no recovery or reloads successfully; then every settled shard with assigned keys is out of the failed, stopped and partial states with all ports ready; healthy shards are left alone, and a recovered one owns exactly what it carries, never a new key |
| `Cluster.ShardedSingBox.GetPortMap` | custom/sharded_singbox.go:443-453 | the merged map agrees with the lookup by hash on every key, and no two keys share a port |
| `Cluster.SegmentsDisjoint` | custom/sharded_singbox.go:80-96 | segments of different shards have no port in common |
| `Cluster.PortsApart` | custom/sharded_singbox.go:443-453 | a local port belongs to one key across all shards |
| `Cluster.AcceptedNodesForCommit` | custom/manager.go:614-658 | the subscription's own commit check |
| `Cluster.RefreshCommits` | custom/manager.go:562-574 | after a successful reload that check fails only if all of the subscription's nodes were rejected, and otherwise accepts exactly the others |
| `Base64Url.DecodeEncode` | auth/dsl.go:238-245 | decoding an encoded byte string returns it |
| `Base64Url.EncodeSymbols` | auth/dsl.go:247-259 | the encoding uses base64url characters only |
| `Base64Url.EncodeAppend` | auth/dsl.go:238-245 | whole groups are encoded independently of what follows |
| `Base64Url.AsciiSymbols` | auth/dsl.go:238-245 | in the encoding of ASCII bytes a dash stands only where bit positions rule out a marker's letter after it |
| `Dsl.CollectUnlock` | auth/dsl.go:136-174 | unlock tokens are normalized and kept once, in order |
| `Dsl.ParseUsername` | auth/dsl.go:34-95 | the step-by-step parser computes the parse that the grammar lemmas speak of |
| `DslGrammar.SplitSeparated` | auth/dsl.go:196-203 | text is split from what follows exactly at its end if it holds no marker and completes none |
| `DslGrammar.SplitSound` | auth/dsl.go:196-203 | a split part holds no marker and completes none with the rest |
| `DslGrammar.ReadRendered` | auth/dsl.go:34-95 | reading the rendering of clean segments returns them |
| `DslGrammar.ReadSound` | auth/dsl.go:34-95 | segments that are read are clean and render to the username |
| `DslGrammar.ParseMeansSegments` | auth/dsl.go:34-95 | a username is accepted exactly if it reads as segments with valid texts, and the result is their meaning |
| `DslGrammar.AcceptedUniquely` | auth/dsl.go:34-95 | an accepted username is base, region, unlock, node and session in one way only, with nothing left over |
| `DslGrammar.AcceptedHasReading` | auth/dsl.go:34-95 | and there is such a way |
| `DslPrinting.AsciiPinSeparated` | auth/dsl.go:205-245 | the pin of a non-empty ASCII key holds no marker and completes none with the text after it |
| `DslPrinting.UnlockReadsBack` | auth/dsl.go:136-194 | a printed list of distinct signals parses to the same list |
| `DslPrinting.AliasReads` | auth/dsl.go:136-194 | in any spelling an alias is read as its signal and `all` as every signal; any other token is refused |
| `DslPrinting.ParsePrint` | auth/dsl.go:34-95 | parsing the canonical printing of any well-formed result returns it |
| `DslPrinting.HintReadsBackIff` | webui/api_v1_nodes.go:329-347 | a gateway hint parses to the same base, region, key and session exactly if base and pin are free of markers and of marker beginnings at their end |
| `DslPrinting.AsciiHintReadsBack` | webui/api_v1_nodes.go:329-347 | for ASCII keys the condition is on the base alone |
| `DslLimits.NodePanicsIff` | auth/dsl.go:210-224 | the pin parser slices out of range exactly on `key` cut short by a marker |
| `DslLimits.ParsePanicsIff` | auth/dsl.go:34-95 | the parser slices out of range exactly on a base, an optional valid region, an optional valid unlock list and `-node-key` followed by another marker |
| `DslLimits.PanicFamily` | auth/dsl.go:210-224 | a family of usernames on which it does |
| `DslLimits.WidePin` | auth/dsl.go:238-245 | any key with the characters U+F9E1 U+05FE after a prefix of length 1 modulo 3 has `-node-` in its pin |
| `DslLimits.NonAsciiHintBroken` | webui/api_v1_nodes.go:329-347 | no hint for such a key reads back, for every base, region, prefix and suffix |
| `DslLimits.ServerNameBreaksHint` | custom/parser.go:37-52 | a server name can carry the two characters into a key of the form type:server:port:hash |
| `Text.NormalizeRegionIdempotent` | selector/selector.go:590-592 | normalizing a region twice changes nothing more |
| `Paging.NormalizeLimit` | storage/node_api_query.go:84-97 | a limit from 1 to 2000 is kept, a larger one cut to 2000, none or a negative one becomes 500 |
| `Paging.BatchIsNext` | storage/node_api_query.go:147-206 | a batch past the cursor is the next stretch of the filtered, ordered list |
| `Paging.ListWithAI` | storage/node_api_query.go:147-206 | the keyset scan terminates with the filter-then-slice page and the filtered total |
| `Paging.ListNodes` | storage/node_api_query.go:56-82 | so does the listing, with or without the AI filter |
| `Paging.ListConnected` | webui/api_v1_nodes.go:168-203 | the outer offset scan is again filter-then-slice over that result |
| `RateLimit.Limiter.constructor` | webui/api_key_middleware.go:52-64 | a rate that is not positive becomes 60 |
| `RateLimit.Limiter.EvictStale` | webui/api_key_middleware.go:105-116 | when a minute has passed or the table is full exactly the buckets idle for ten minutes go, otherwise none |
| `RateLimit.Limiter.Allow` | webui/api_key_middleware.go:66-103 | allowed exactly if the key's level is at least one and the cap on buckets leaves room; an allowed request takes exactly one token |
| `RateLimit.LevelLaw` | webui/api_key_middleware.go:83-93 | the exact law of refilling: the level at a later time is the smaller of a full bucket and the level plus the refill |
| `RateLimit.RequestTakesOne` | webui/api_key_middleware.go:66-103 | an allowed request lowers its key's level by exactly one; every other level is untouched, evicted ones included |
| `RateLimit.SaneInEveryRun` | webui/api_key_middleware.go:66-116 | the table never exceeds its cap, in every run |
| `RateLimit.TokensConserved` | webui/api_key_middleware.go:66-103 | tokens taken plus tokens left never exceed a full bucket plus the refill |
| `RateLimit.WindowBound` | webui/api_key_middleware.go:66-103 | any window of D seconds allows a key at most rate + rate * D / 60 requests |
| `RateEntitlement.LevelIsSomeWindow` | webui/api_key_middleware.go:66-103 | a key that starts full always finds exactly what some window of its own history leaves it |
| `RateEntitlement.RefusedIff` | webui/api_key_middleware.go:66-103 | the cap aside, a request is refused if and only if in some window ending with it the key was already allowed more than a full bucket plus the refill minus one |
| `RateEntitlement.EvenlyNeverRefused` | webui/api_key_middleware.go:66-103 | a key that asks at most at the refill rate, evenly spaced, is never refused |
| `RateLimit.EvictionUnobservable` | webui/api_key_middleware.go:66-116 | while the cap is not reached, every decision equals that of a limiter that never evicts |

## Left out

- Dialing, relaying, header handling and timeouts of the HTTP and SOCKS5 servers; of the retry loops only the calls of `Resolve`, the list of tried nodes and the release of failed bindings are modelled.
- Process control and port probing of sing-box, the content of its JSON configuration and the field mapping of `buildOutbound`: nodes carry whether they are buildable, and an `Env` says what files, binary, check and start answer. The reload of a process is one step, so an exit of the process during the call is not modelled; its effect on the status between calls is covered because the theorems start from any status.
- Duplicate node keys in one reload: callers deduplicate them, and the reloads require it. Node keys there are integers that stand for their byte order.
- SQLite: a table is a map by id, a statement one atomic guarded update, a transaction all or nothing. A database error in `Resolve` is a step that fails the read.
- Migrations and writers without callers (`EnableProxy*`, `RecordProxyUse*`, `UpdateExitInfo*`, `RecoverSubscriptionProxyWithExitInfo`, `addPendingSubscriptionProxy`): runs start from tables that meet the invariants.
- Manual nodes: their inserts and rebinds appear in health runs only by what they may do to status, counters, clock and route. A manual re-insert may keep evidence of an older route, so the evidence theorem is about subscription rows.
- Rendezvous scores: the score is any function to the reals, and in the protocol the choice among the remaining candidates is free; weights and tokens are reals, not floats.
- HealthWorld.ApplyProbeResult: its two statements run without another writer in between; interleavings are covered statement by statement in the run theorems.
- Clocks: time never runs backwards, and a store method reads it once. A nil session store is not modelled.
- Text outside ASCII: strings hold one character per byte, and only ASCII letters, digits and blanks are classified.
- Config files, logins, the dashboard, logging, subscription fetching and the YAML, JSON and link parsers.
- Health.Table.DisableRouteForPolicy: the geo-policy sweeps `DisableBlockedCountries` and `DisableNotAllowedCountries` appear in runs as disabling any set of rows; which rows a country list selects is not modelled.
- Cluster.ShardedSingBox.RollBack: does not promise that a key that left and came back has its old port again; neither does the code.
