# Verified models of the device gateway

This project models the parts of the IoT back end that carry a protocol, shared state or arithmetic, and proves
what each of them guarantees in every run or on every input:

- `DeviceClient`, `ReloadProtocol`, `ChainBuffer`: the device push client that can change its transport mode while
  it is in use. `DeviceClient` has the mode strings, the client object and its operations; `ReloadProtocol` any
  number of concurrent reloads; `ChainBuffer` pushes that walk the fallback chain while reloads rewrite its buffer.
- `SessionRegistry`, `ConnIdScan`: the WebSocket gateway's table of connections, and the byte scan that finds the
  connection id in a JSON reply.
- `Planner`, `Dispatcher`, `Rebalance` (with `MapSums`): the plan that levels connection counts between servers, the
  loop by which a server carries out its part of it, and both together.
- `LogGrouping`, `LogBridge`: the bridge from JetStream to Loki.
- `Promtail`: the batching log client.
- `LeaseLock`, `ConnLease`, `GatewayLease`: the Redis lock, the six-minute connection leases, and the leases together
  with the gateway's registry.
- `Endpoints`: the address lists the gRPC resolvers send to the balancer.

Objects that the program updates in place are classes whose methods are proved equal to functions on values; runs
are sequences of those functions' steps, and the properties of runs are proved about them. Where Go ranges over a
map, the order is a parameter and the statements hold for every order. Network calls, timers and failures are
parameters or events over which every statement quantifies.

## Where the code differs from what it says or intends

- A failed NATS creation during a reload is logged as "disabled", but line 150 of `pkg/devicecli/devicecli.go` has
  already stored the nil pointer in an interface variable, which is then not nil: the dead client is installed
  (`ReloadProtocol.FailedBuildIsInstalled`) and blocks the fallback to http (`DeviceClient.DeadClientBlocksFallback`).
  `ReloadProtocol.LiveThroughoutIff` says in exactly which runs the slots stay free of dead clients. The model follows
  the code; `live` marks such clients.
- A commit compares only the mode value. `ReloadProtocol.CommitKeepsOwnershipIff` and
  `ReloadProtocol.OwnedThroughoutIff` give the condition under which that is harmless: every commit whose mode check
  passes finds the slots of its snapshot. Runs without recurring modes meet it; where a mode recurs it depends on
  whether the slots are the same again, and `ReloadProtocol.RecurrenceInstallsClosedClient` is a run in which they are
  not.
- A rebuild reuses the array a push may be walking. `ChainBuffer.TornWalkSkipsAClient` is a run in which a push asks
  one client twice and another, installed throughout, never. `ChainBuffer.OverlapHarmlessIff` says exactly which
  lists of rebuilds cannot do that to a push they overlap, and `ChainBuffer.ModeChangesHarmlessIff` which successive
  changes of the slots those are: the ones that put no other client into the cell that a client kept throughout had when
  the push began. Changes that are harmless one by one can miss a client together (`ChainBuffer.HarmlessRebuildsAddUp`).
- `closeIfPossible` looks for a `Close()` without result; the grpc and http clients return an error from theirs, so
  only NATS clients are ever closed. `ReloadProtocol.NoInstalledClientClosed` says what stays open.
- The inner loop of the planner does not stop once a donor's surplus is placed. Receivers are protected all the same
  (`Planner.NoReceiverAboveMean`); donors are not (`Planner.DonorBelowMean`). `Planner.NoDonorBelowMeanIff` is the
  exact condition on the loads under which no iteration order makes a donor drop below the mean, and under it the plan
  is the one the loop with the stop would make (`Planner.WrittenPlanIsExact`, `Planner.StoppedPlanIsExact`).
- `GetConnByCount` never fills its first slot, so a donor moves one connection fewer than its row of the plan says, or
  all in its table if that is less (`Dispatcher.RowMovesIs`); `Dispatcher.TargetServedIff` says exactly which targets get
  what they were promised.
- The second threshold of `ProcessTask` divides before it subtracts; it never rejects a task that the first
  threshold lets through unless the mean is negative (`Dispatcher.ProcessTask`).
- A claim of a connection id while an older socket still holds it, followed by the close of that socket, removes the
  new socket from the table (`SessionRegistry.OvertakenCloseLosesSocket`).
- The lease keys are shared by all gateways and every close deletes its id's key. When a device has moved here and the
  close of its old socket at another gateway comes later, its lease is gone and the job can hang up on it
  (`GatewayLease.LateCloseElsewhereDooms`); `GatewayLease.LeaseAtEveryTickIff` says exactly which such closes a connection
  survives.
- The channel can overflow although it is as long as MaxAckPending, once a delivery has expired in it
  (`LogBridge.ExpiryOverflowsChannel`); `LogBridge.NothingMoreDroppedIff` says exactly in which states.
- A stream whose entries are all nil is emitted empty; `Promtail.NoEmptyStreamIff` is exact.
- Registering before the first lease runs out does not protect a connection, because the next renewal may come later
  still (`ConnLease.LateRegistrationIsFlagged`). `ConnLease.NeverHungUpIff` says exactly which registered connections no
  timely run hangs up on, and `ConnLease.RegistrationIsSafeIff` how recent the login must be.

## Model

| member | source | states |
|---|---|---|
| DeviceClient.ParseMode | pkg/devicecli/devicecli.go:48-67 | each mode bit is set exactly when some comma-separated, trimmed part names it; http also when no part names any mode; the mask is never empty |
| DeviceClient.EveryModeHasAName | pkg/devicecli/devicecli.go:45-67 | the names of a mask joined by commas denote that mask and no other: parsing undoes naming |
| DeviceClient.PaddedNamesRequested | pkg/devicecli/devicecli.go:53-54 | white space around the commas does not change which modes are requested; for example "grpc, nats" denotes grpc and nats only |
| DeviceClient.MaskBits | pkg/devicecli/devicecli.go:39-43 | http is bit 1, grpc bit 2, nats bit 4, and a mask determines its modes |
| DeviceClient.SplitJoin | pkg/devicecli/devicecli.go:53 | splitting at commas undoes joining when no part has a comma |
| DeviceClient.FreshIff | pkg/devicecli/devicecli.go:140-154 | exactly the missing clients of the new mode are made, NATS only if configured, and each is live unless it is a NATS client whose creation failed |
| DeviceClient.InitSlotsIff | pkg/devicecli/devicecli.go:98-114 | the constructor fills the grpc and http slots exactly when their bits are set, the nats slot exactly when also NATS is configured and its creation works |
| DeviceClient.QuietReload | pkg/devicecli/devicecli.go:140-203 | one reload on values: the new slots have the new mode's shape, NATS included exactly when wanted and there or configured, clients wanted by both modes are kept, everything made is installed, and the clients to close are exactly those no longer installed |
| DeviceClient.ClosingOrder | pkg/devicecli/devicecli.go:161-163 | clients are closed in the order grpc, http, nats, after a lost commit and (lines 195-203) after a won one |
| DeviceClient.DeviceCli.constructor | pkg/devicecli/devicecli.go:85-117 | the mode the string denotes, its slots and chain after construction; the nats slot is filled exactly when wanted, configured and created |
| DeviceClient.DeviceCli.Append | pkg/devicecli/devicecli.go:220-226 | appending to the chain writes one cell of the shared array, or copies to a larger one when it is full |
| DeviceClient.DeviceCli.RebuildChain | pkg/devicecli/devicecli.go:217-228 | the chain becomes the filled slots in the order grpc, nats, http, and the old array is overwritten cell by cell, which walkers of the old slice can see |
| DeviceClient.DeviceCli.Snapshot | pkg/devicecli/devicecli.go:126-136 | nothing to do when the mode is the requested one, otherwise the slots and mode as they are |
| DeviceClient.DeviceCli.Build | pkg/devicecli/devicecli.go:140-154 | exactly the missing clients of the new mode are created, NATS if it is configured; a failed NATS creation yields a dead client |
| DeviceClient.DeviceCli.Commit | pkg/devicecli/devicecli.go:156-192 | the commit wins exactly when the mode value is the snapshot's; then mode, slots and chain are the new ones, else nothing changes and the new clients are to be closed |
| DeviceClient.DeviceCli.Reload | pkg/devicecli/devicecli.go:119-204 | an undisturbed reload installs the mode the string denotes, fills the nats slot exactly when wanted and there before or configured, keeps the clients both modes want, makes the others new, and releases exactly the clients it uninstalled, in order |
| DeviceClient.DeviceCli.Push | pkg/devicecli/devicecli.go:230-261 | an undisturbed push returns the reply of the first client of the chain after failing ones, panics on a dead one, and returns the last error if all fail, in terms of the clients' answers alone |
| DeviceClient.FallbackIsFirstSuccessOrLastError | pkg/devicecli/devicecli.go:236-260 | the same law for every chain, and no reply is returned that no client gave |
| DeviceClient.DeadClientBlocksFallback | pkg/devicecli/devicecli.go:148-154 | with a dead NATS client installed, http is never asked once grpc has failed or is absent |
| ReloadProtocol.ShapeInEveryRun | pkg/devicecli/devicecli.go:156-192 | in every interleaving of any number of reloads, recurring modes included: grpc and http slots are filled exactly when their bits are set, from the first commit on the nats slot exactly when its bit is set and NATS is configured, and the chain is the filled slots in priority order |
| ReloadProtocol.UninterruptedReload | pkg/devicecli/devicecli.go:123-192 | whatever else is in flight, a reload nobody interrupts takes the client from any mode to any other, keeps what both want, makes the rest and is left with exactly what it uninstalled; one to the current mode does nothing |
| ReloadProtocol.WinningCommit | pkg/devicecli/devicecli.go:158-192 | a commit whose mode check passes installs the new mode with all that the reload made, keeps of the snapshot what the new mode wants and leaves exactly the rest of it to be closed, in order |
| ReloadProtocol.LosingCommit | pkg/devicecli/devicecli.go:158-165 | any other commit changes nothing and leaves exactly what the reload made to be closed |
| ReloadProtocol.ClosingReleases | pkg/devicecli/devicecli.go:194-214 | the reload then closes its clients one by one, in order, and nothing else changes |
| ReloadProtocol.CommitKeepsOwnershipIff | pkg/devicecli/devicecli.go:158-192 | a commit whose mode check passes keeps single ownership exactly when the slots are still those of its snapshot |
| ReloadProtocol.StaleInstallBreaksOwnership | pkg/devicecli/devicecli.go:158-188 | installing over slots that differ from the snapshot always leaves a client with two owners or with none |
| ReloadProtocol.CloseKeepsOwned | pkg/devicecli/devicecli.go:194-214 | a client about to be closed is neither installed nor closed already |
| ReloadProtocol.OwnedThroughoutIff | pkg/devicecli/devicecli.go:123-204 | for every run: all clients have exactly one owner in every state of it exactly when every commit whose mode check passes finds the slots of its snapshot |
| ReloadProtocol.OwnedInEveryRun | pkg/devicecli/devicecli.go:123-204 | when no mode value recurs between a snapshot and its commit, every client ever created has at all times exactly one owner among slots, reloads in flight and released clients |
| ReloadProtocol.NoInstalledClientClosed | pkg/devicecli/devicecli.go:123-214 | in every run from construction in which each commit whose mode check passes finds the slots of its snapshot, modes recurring or not: no installed client has been closed, none is closed twice, and once all reloads have returned the open NATS connections are exactly the installed one |
| ReloadProtocol.NoRecurrenceIsFresh | pkg/devicecli/devicecli.go:126-158 | if no mode value recurs between a snapshot and its commit, every commit whose mode check passes finds the slots of its snapshot |
| ReloadProtocol.TidyWithoutRecurrence | pkg/devicecli/devicecli.go:123-214 | hence the same holds of every run without recurring modes |
| ReloadProtocol.RecurrenceInstallsClosedClient | pkg/devicecli/devicecli.go:157-192 | some hypothesis is needed: a run in which a mode recurs installs a closed client and forgets an open one |
| ReloadProtocol.LiveThroughoutIff | pkg/devicecli/devicecli.go:148-192 | for every run: every client in the slots is live in every state of it exactly when no reload whose NATS creation failed gets its commit past the mode check |
| ReloadProtocol.ReloadsFromStart | pkg/devicecli/devicecli.go:85-204 | every run from construction: the shape always, the nats slot filled exactly when wanted, configured and (before the first commit) created; single ownership and live slots throughout exactly under their conditions |
| ReloadProtocol.LiveIfBuildsWork | pkg/devicecli/devicecli.go:148-154 | in particular the slots are live if no NATS creation fails during a reload |
| ReloadProtocol.FailedBuildIsInstalled | pkg/devicecli/devicecli.go:148-192 | whenever it commits, a reload whose NATS creation failed installs the dead client in slot and chain if its mode check passes, and changes nothing if not |
| ChainBuffer.InvInEveryRun | pkg/devicecli/devicecli.go:217-241 | in every interleaving of appends and reads over the shared arrays, the current slice holds the chain written so far and every cell a push may still read holds a client of its snapshot or of a later chain at that index |
| ChainBuffer.ReadsComeFromChains | pkg/devicecli/devicecli.go:231-242 | the k-th client a push reads stood at index k of the chain it copied or of a later one; it never reads an unset cell |
| ChainBuffer.UndisturbedPushWalksItsSnapshot | pkg/devicecli/devicecli.go:231-261 | if no rebuild has started since the push copied the slice, it has read a prefix of that chain, and at the end answers as the undisturbed push does |
| ChainBuffer.OverlapHarmlessIff | pkg/devicecli/devicecli.go:217-241 | for every reachable buffer and every list of rebuilds: a push that they overlap, as far as they come, reads each client common to the chain it copied and all the new ones, in every interleaving of appends and reads, exactly when no rebuild still writing to the old array puts another client into the cell of one |
| ChainBuffer.OneRebuildHarmlessIff | pkg/devicecli/devicecli.go:217-228 | for a single rebuild: exactly when each common client keeps its index or stands beyond the cells overwritten |
| ChainBuffer.ModeChangesHarmlessIff | pkg/devicecli/devicecli.go:217-228 | which successive changes of the slots that is: those that, while the chains fit into the old array, move no NATS or http client kept throughout, unless its cell is not overwritten |
| ChainBuffer.EndsAreHarmless | pkg/devicecli/devicecli.go:217-228 | clients may come and go at the end of the chain, any number of times |
| ChainBuffer.HarmlessRebuildsAddUp | pkg/devicecli/devicecli.go:217-228 | two rebuilds, each harmless, that are not harmless one after the other |
| ChainBuffer.TornWalkSkipsAClient | pkg/devicecli/devicecli.go:217-241 | a run in which an overlapping rebuild makes a push skip a client that both chains contain |
| ConnIdScan.Index | app/iotws/cmd/internal/ws/gateway.go:143-147 | the first position of the pattern: it matches there and nowhere before, -1 when it matches nowhere |
| ConnIdScan.IndexByte | app/iotws/cmd/internal/ws/gateway.go:149-152 | the first position of a character, none before it |
| ConnIdScan.BeforeKeepsKey | app/iotws/cmd/internal/ws/gateway.go:143-144 | whatever the encoded trace and cmd are, the end of the key does not occur before the key, inside a value or across values |
| ConnIdScan.KeyFoundAtItsPlace | app/iotws/cmd/internal/ws/gateway.go:144-148 | the first match of the key pattern is the key itself |
| ConnIdScan.ScanReturnsRawValue | app/iotws/cmd/internal/ws/gateway.go:142-154 | on any such object the scan returns the encoded spelling of connId up to its first quote |
| ConnIdScan.ScanUndoesEncoderIff | app/iotdevice/cmd/internal/types/types.go:81-86 | for every trace, cmd and message and every encoder that follows section 7 of RFC 8259, the scan returns ConnId exactly when the encoder left ConnId as it is |
| ConnIdScan.UnchangedIffRaw | app/iotws/cmd/internal/ws/gateway.go:142-154 | an encoding can leave a string as it is exactly when no character of it must be escaped |
| ConnIdScan.EncodingInjective | app/iotdevice/cmd/internal/types/types.go:81-86 | a text encodes at most one string |
| ConnIdScan.EncodingExists | app/iotdevice/cmd/internal/types/types.go:81-86 | every string has an encoding, so the statements about encodings are about every string |
| ConnIdScan.Escapes | app/iotdevice/cmd/internal/types/types.go:81-86 | the spellings of section 7 of RFC 8259 by example |
| ConnIdScan.ObjectIs | app/iotdevice/cmd/internal/types/types.go:81-86 | the object, field by field in declaration order |
| ConnIdScan.NoKeyNoId | app/iotws/cmd/internal/ws/gateway.go:144-147 | a payload without the key pattern yields the empty id |
| SessionRegistry.Connection.Storage | app/iotws/cmd/internal/ws/connection.go:29-33 | the entry is set and the counter goes up, also when the id was there |
| SessionRegistry.Connection.Del | app/iotws/cmd/internal/ws/connection.go:35-38 | the entry is gone and the counter goes down, also when the id was not there |
| SessionRegistry.Connection.GetConnByCount | app/iotws/cmd/internal/ws/connection.go:48-60 | slot k holds the k-th connection of the iteration order for k at least 1; slot 0 and the slots past the table stay empty; a negative count panics |
| SessionRegistry.Gateway.IotwsHandler | app/iotws/cmd/internal/handler/iotwshandler.go:18-35 | a new socket is registered at once exactly when the request names a connId |
| SessionRegistry.Gateway.OnMessage | app/iotws/cmd/internal/ws/gateway.go:105-133 | an unregistered socket is registered under the id its reply carries, hung up on after a failure; a registered socket's entry never changes |
| SessionRegistry.Gateway.ServerOnClose | app/iotws/cmd/internal/ws/gateway.go:48-63 | forgets the socket's id, deletes its lease and closes the connection |
| SessionRegistry.Gateway.OnClose | app/iotws/cmd/internal/ws/gateway.go:80-91 | the closing socket's id leaves the table, the counter and the leases |
| SessionRegistry.Gateway.CloseAll | app/iotws/cmd/internal/ws/gateway.go:70-78 | exactly the sockets in the table are hung up on; the table waits for their close events |
| SessionRegistry.RegistryInEveryRun | app/iotws/cmd/internal/ws/gateway.go:48-133 | in every run the counter is the number of open sockets holding an id, every entry k to s has s open with id k, and the table is no larger than the counter; without double claims it is the inverse of the sessions and both numbers agree |
| SessionRegistry.ExactThroughoutIff | app/iotws/cmd/internal/ws/gateway.go:80-133 | for every run: the table is the inverse of the sessions in every state of it exactly when no id is ever claimed while another open socket holds it |
| SessionRegistry.RegistryFromStart | app/iotws/cmd/internal/ws/gateway.go:48-133 | every run from the empty gateway: the counts hold always, the table is exact throughout exactly without double claims |
| SessionRegistry.OnlyOwnCloseUnleases | app/iotws/cmd/internal/ws/gateway.go:80-91 | in runs without double claims a socket keeps its id, and its lease is deleted by no event, exactly as long as it does not close itself |
| SessionRegistry.ClaimKeepsExactIff | app/iotws/cmd/internal/ws/gateway.go:116-120 | a claim keeps the table exact precisely when no open socket holds the id |
| SessionRegistry.CountVersusTable | app/iotws/cmd/internal/ws/connection.go:29-46 | the table is no larger than the counter, and as large exactly when it is the inverse of the sessions |
| SessionRegistry.OvertakenCloseLosesSocket | app/iotws/cmd/internal/ws/gateway.go:80-91 | whenever a reconnect overtakes the close of the old socket, the new socket stays open with its id and is not in the table |
| SessionRegistry.ShutdownEmptiesTable | app/iotws/cmd/internal/ws/gateway.go:65-78 | once the close events of the sockets in the table have arrived, in any order, the table is empty; no open socket holds an id exactly when the table was exact |
| Planner.DealDonor | app/iotcron/cmd/internal/logic/iotwsBalancedlogic.go:80-95 | the donor loop computes the deal of one donor, carried on past the placed surplus |
| Planner.DealFollowsOrder | app/iotcron/cmd/internal/logic/iotwsBalancedlogic.go:82-94 | a row lists its receivers in the order in which they were visited |
| Planner.DealConserves | app/iotcron/cmd/internal/logic/iotwsBalancedlogic.go:82-95 | each receiver's allotment plus its remaining capacity is its capacity before; amounts are positive, receivers distinct |
| Planner.DealAmount | app/iotcron/cmd/internal/logic/iotwsBalancedlogic.go:82-95 | what one donor gives is what the receivers lose; it covers the surplus unless all receivers are full, and with the stop never exceeds it |
| Planner.WithinSurplusIff | app/iotcron/cmd/internal/logic/iotwsBalancedlogic.go:86-93 | for one order, the loop as written stays within the surplus exactly when only full receivers follow the one that completes it, and then deals as the loop with the stop |
| Planner.SafeInEveryOrderIff | app/iotcron/cmd/internal/logic/iotwsBalancedlogic.go:82-95 | for one donor and the capacities left at its turn, over all iteration orders: the surplus is respected exactly when no receiver with room could be left out |
| Planner.PlanIsSafe | app/iotcron/cmd/internal/logic/iotwsBalancedlogic.go:79-103 | over all donors and all orders: allotments plus remaining capacities are the deficits, rows are well formed, the total moved lies between min(total surplus, total deficit) and the total deficit, with the stop it is that minimum |
| Planner.Classify | app/iotcron/cmd/internal/logic/iotwsBalancedlogic.go:66-74 | the servers outside the 20% band with their surpluses and deficits, whatever the order |
| Planner.BandIs | app/iotcron/cmd/internal/logic/iotwsBalancedlogic.go:57-74 | donors and receivers are exactly the servers more than 20% of the mean above or below it, with their whole distance to the mean |
| Planner.DealDonors | app/iotcron/cmd/internal/logic/iotwsBalancedlogic.go:79-103 | the two nested loops give every donor the row of the plan |
| Planner.IotwsBalanced | app/iotcron/cmd/internal/logic/iotwsBalancedlogic.go:56-114 | divides by zero exactly without servers, publishes nothing exactly when the mean is below 105, and otherwise publishes the plan's row for every donor |
| Planner.PublishedPlan | app/iotcron/cmd/internal/logic/iotwsBalancedlogic.go:66-114 | a published plan has a row for exactly the servers more than 20% above the mean, naming distinct servers more than 20% below it with positive amounts |
| Planner.GoDivTruncates | app/iotcron/cmd/internal/logic/iotwsBalancedlogic.go:57 | integer division rounds towards zero |
| Planner.NoReceiverAboveMean | app/iotcron/cmd/internal/logic/iotwsBalancedlogic.go:66-103 | for every load distribution and every order no receiver is pushed above the mean, donors and receivers are disjoint, and the total moved is bounded from both sides |
| Planner.NoDonorBelowMeanIff | app/iotcron/cmd/internal/logic/iotwsBalancedlogic.go:56-103 | for every load distribution: the plan as written asks no donor to drop below the mean, whatever the iteration orders of both loops, exactly when each donor's surplus exceeds the total deficit less any one receiver's |
| Planner.WrittenPlanIsExact | app/iotcron/cmd/internal/logic/iotwsBalancedlogic.go:79-103 | under that condition the plan as written is the plan with the stop for every order, and the total moved is min(total surplus, total deficit) |
| Planner.StoppedPlanIsExact | app/iotcron/cmd/internal/logic/iotwsBalancedlogic.go:79-103 | with the loop stopped at the placed surplus, no donor is asked to drop below the mean and the total moved is min(total surplus, total deficit), for every load distribution and order |
| Planner.DonorBelowMean | app/iotcron/cmd/internal/logic/iotwsBalancedlogic.go:90-93 | four servers for which the loop as written asks a donor for all its connections |
| Planner.SurplusMeetsDeficit | app/iotcron/cmd/internal/logic/iotwsBalancedlogic.go:57-74 | total surplus and total deficit differ by at most n times the offset plus n |
| Dispatcher.ProcessTask | app/iotws/cmd/internal/logic/wsBalancedlogic.go:38-78 | which tasks are skipped; the amounts are never indexed out of range; with positive amounts it panics exactly when a connection falls to a target without a name, and otherwise every slot is served by its target in the sense of prefix sums |
| Dispatcher.SlotsArePartitioned | app/iotws/cmd/internal/logic/wsBalancedlogic.go:45-78 | every slot has exactly one target and target j has exactly amounts[j] slots |
| Dispatcher.TargetServedIff | app/iotws/cmd/internal/ws/connection.go:48-60 | for every table size: a target gets all its connections exactly when it is not the first and the table reaches its last slot; it never gets more |
| Dispatcher.RowMovesIs | app/iotws/cmd/internal/logic/wsBalancedlogic.go:45-78 | a row moves one connection fewer than its total, or the whole table if that is less |
| Dispatcher.FirstTargetGetsOneLess | app/iotws/cmd/internal/ws/connection.go:48-60 | in particular with enough connections each target gets exactly its amount, the first target one fewer |
| Rebalance.RowNeverPanics | app/iotws/cmd/internal/logic/wsBalancedlogic.go:54-78 | a row of a plan never makes the dispatcher panic, whatever its table holds |
| Rebalance.DonorMoves | app/iotws/cmd/internal/logic/wsBalancedlogic.go:65-78 | a server is sent at most what the row gives it, and exactly that, less one for the first server, when the table has enough connections |
| Rebalance.ToldOnce | app/iotws/cmd/internal/logic/wsBalancedlogic.go:65-74 | no connection is told to move twice, given the registry invariant |
| Rebalance.NobodyEndsAboveMean | app/iotcron/cmd/internal/logic/iotwsBalancedlogic.go:66-114 | planner and dispatchers together, for all loads, tables and orders: no receiver is filled above the mean and no other server is sent anything |
| LogGrouping.Group | app/iotlogbridge/cmd/main.go:257-286 | the grouping loop builds one stream per key in first-seen order |
| LogGrouping.GroupingIsStable | app/iotlogbridge/cmd/main.go:257-286 | labels are distinct, no stream is empty, each holds exactly the entries whose source, job and level its labels name, every entry has a stream, and together they are a permutation of the batch |
| LogGrouping.StreamOrder | app/iotlogbridge/cmd/main.go:258-273 | streams come in the order in which an entry with their labels first appears |
| LogGrouping.StreamPositions | app/iotlogbridge/cmd/main.go:260-281 | a stream is the subsequence of all entries with its labels, in order |
| LogBridge.FlushLoop.constructor | app/iotlogbridge/cmd/main.go:132-135 | the batch size is the configured one, 5000 if that is not positive |
| LogBridge.FlushLoop.OnDelivery | app/iotlogbridge/cmd/main.go:163-176 | acknowledges what does not parse, queues what fits, refuses and counts the rest |
| LogBridge.FlushLoop.DoFlush | app/iotlogbridge/cmd/main.go:202-230 | a flush acknowledges every buffered delivery of an accepted batch and negatively acknowledges every one of a failed batch, and empties the buffer |
| LogBridge.FlushLoop.OnReceive | app/iotlogbridge/cmd/main.go:232-242 | one turn on a message: the buffer is flushed exactly when it has reached the batch size |
| LogBridge.FlushLoop.OnTick | app/iotlogbridge/cmd/main.go:243-244 | one turn on a tick flushes whatever is buffered |
| LogBridge.FlushIsItsSteps | app/iotlogbridge/cmd/main.go:202-230 | settling one delivery after another, in which the callback may interleave, comes to the whole flush |
| LogBridge.TakePushesFullBatch | app/iotlogbridge/cmd/main.go:234-242 | a receive pushes a batch exactly when it fills the buffer to the batch size, and the batch is the buffer with the received delivery at its end |
| LogBridge.TickPushesBuffer | app/iotlogbridge/cmd/main.go:243-244 | a tick pushes whatever is buffered, if anything |
| LogBridge.BatchesFromStart | app/iotlogbridge/cmd/main.go:197-247 | in every run each busy tick pushes one batch that is not full and every other batch is full; accepted batches, buffer and channel hold deliveries in the order of arrival, and so do rejected ones |
| LogBridge.EveryDeliveryAccounted | app/iotlogbridge/cmd/main.go:163-247 | in every run each delivery is in exactly one place and there once, an acknowledged parseable one is in a batch Loki accepted, unparseable ones are acknowledged, the buffer is below the batch size whenever the loop waits, and the counters are exact |
| LogBridge.AcceptingRunAcks | app/iotlogbridge/cmd/main.go:163-247 | in every run in which Loki accepts, deliveries and expiries included, whatever was queued, buffered or being acknowledged at the start and is in neither channel nor buffer at the end has been acknowledged |
| LogBridge.Drains | app/iotlogbridge/cmd/main.go:197-247 | from every reachable state the loop can come to rest if Loki accepts |
| LogBridge.RedeliveryReachesLoki | app/iotlogbridge/cmd/main.go:163-247 | at-least-once: after any history one more delivery that finds room is acknowledged and in an accepted batch in every continuation in which Loki accepts and the loop comes to rest, and there is one |
| LogBridge.NothingDroppedWithoutExpiry | app/iotlogbridge/cmd/main.go:148-181 | with channel capacity and MaxAckPending both twice the batch size, the channel-full branch is never taken in a run without AckWait expiry |
| LogBridge.NothingMoreDroppedIff | app/iotlogbridge/cmd/main.go:148-181 | for every reachable state: no continuation without further expiry drops a delivery exactly when every delivery in the channel is still waited for by the server |
| LogBridge.ExpiryOverflowsChannel | app/iotlogbridge/cmd/main.go:163-181 | with an expiry the channel-full branch can be taken |
| Promtail.CopyInto | pkg/log/promtail/shared.go:3-9 | copying one label map over another, in whatever order the keys come |
| Promtail.CopyAndMergeLabels | pkg/log/promtail/shared.go:11-30 | later label maps override earlier ones |
| Promtail.MergedIs | pkg/log/promtail/shared.go:11-30 | every label of every map is there, with the value of the last map that has it |
| Promtail.LevelsAre | pkg/log/promtail/manifest.go:5-31 | the names of the levels and the places of their streams |
| Promtail.LogStreamBatch.Add | pkg/log/promtail/client.go:259-274 | an entry joins its level's stream, or gets a stream of its own when it has labels or an unnamed level |
| Promtail.LogStreamBatch.Reset | pkg/log/promtail/client.go:276-285 | six empty streams, one per named level |
| Promtail.LogStreamBatch.NewLeveledStream | pkg/log/promtail/client.go:318-326 | a stream with the merged labels and the level label on top |
| Promtail.BatchRepresents | pkg/log/promtail/client.go:259-316 | size is the number of entries and the sum of the stream lengths; the first six streams hold exactly the unlabelled entries of their levels in order of arrival, the others one entry each |
| Promtail.LevelLabelIsForced | pkg/log/promtail/client.go:318-326 | whatever default or custom labels say, the level label is the level |
| Promtail.StreamLabelsAre | pkg/log/promtail/client.go:318-326 | custom labels override the default ones, and the level overrides both |
| Promtail.TransformLogStreamsToDTO | pkg/log/promtail/exchanger.go:154-188 | the request loop skips nil and empty streams and nil entries; a nil list yields no request |
| Promtail.NoEmptyStreamIff | pkg/log/promtail/exchanger.go:163-185 | the request has no empty stream exactly when no stream consists of nil entries only |
| Promtail.DtoKeepsEntries | pkg/log/promtail/exchanger.go:154-188 | translation neither loses nor duplicates nor reorders entries |
| Promtail.BatchKeepsEntries | pkg/log/promtail/client.go:259-274 | a batch holds exactly the entries added to it |
| Promtail.PushEmitsBatch | pkg/log/promtail/exchanger.go:154-197 | a push emits exactly one value per entry of the batch, with the entry's time and the line "level: message", in no empty stream, and every stream's level label is the level of its lines |
| Promtail.EveryEntryIsSent | pkg/log/promtail/exchanger.go:154-197 | every entry of the batch is in the request, with its time, level and message, under the default labels overridden by its own and its level |
| Promtail.OnlyEntriesAreSent | pkg/log/promtail/exchanger.go:154-197 | and nothing else is |
| Promtail.Exchange.LogfWithLabels | pkg/log/promtail/client.go:130-149 | an entry is queued unless the client is stopped or the queue is full |
| Promtail.Exchange.OnEntry | pkg/log/promtail/client.go:197-211 | an entry moves from queue to batch, which is pushed and reset when it is full |
| Promtail.Exchange.OnTimeout | pkg/log/promtail/client.go:213-226 | a non-empty batch is pushed and reset |
| Promtail.Exchange.OnStop | pkg/log/promtail/client.go:228-241 | a non-empty batch is pushed and the loop ends |
| Promtail.LogIsAcceptedIff | pkg/log/promtail/client.go:130-149 | a call that has not seen the stop is accepted exactly when fewer than 1024 entries wait |
| Promtail.TakePushesFullBatch | pkg/log/promtail/client.go:197-211 | the oldest entry goes into the batch, which is pushed exactly when it is then sendBatchSize entries long |
| Promtail.TimeoutAndStopPushBatch | pkg/log/promtail/client.go:213-241 | a timeout or the stop pushes whatever is in the batch, if anything; the stop ends the loop |
| Promtail.ShortFromStart | pkg/log/promtail/client.go:183-245 | in every run each timeout or stop that finds a batch pushes it as it is, and every other batch is full |
| Promtail.AcceptedEntriesConserved | pkg/log/promtail/client.go:130-245 | in every run the accepted entries are, in order, those pushed, those in the batch and those in the queue; the batch stays below max(1, sendBatchSize); each push emits exactly its entries; after the stop only the queue holds unpushed entries |
| LeaseLock.LockOutcome | pkg/cache/lock.go:17-26 | a client gets the lock exactly when the key is gone, and has it for ten seconds |
| LeaseLock.SecondLockIff | pkg/cache/lock.go:17-64 | another client gets it from then on exactly when it has been unlocked or ten seconds have passed |
| LeaseLock.StepKeepsExclusiveIff | pkg/cache/lock.go:17-26 | a step keeps the lock exclusive exactly when no holder outlives its lease and nobody unlocks another's lock |
| LeaseLock.AtMostOneHolder | pkg/cache/lock.go:17-64 | in every timed run of such steps at most one client holds the lock |
| LeaseLock.UndisciplinedStepAdmitsSecond | pkg/cache/lock.go:58-64 | any other step while the lock is held lets a second client in |
| LeaseLock.BlockUntilLock | pkg/cache/lock.go:28-56 | at most 51 attempts, success exactly when the last attempt succeeded, and failure only after the deadline or an interrupted wait |
| ConnLease.SyncJob.Exec | app/iotws/cmd/internal/logic/cron/iotconnsnlogic.go:70-79 | every command of the batch runs, each with the reply it would have alone; the batch error is the first error |
| ConnLease.SyncJob.SetIfExistsBatchResult | app/iotws/cmd/internal/logic/cron/iotconnsnlogic.go:65-99 | aborts exactly when the first failure is not an absent key, otherwise splits the ids into renewed and failed ones, in order |
| ConnLease.SyncJob.Iotsync | app/iotws/cmd/internal/logic/cron/iotconnsnlogic.go:32-60 | renews all leases of the table and hangs up on the first failed connection and on no other |
| ConnLease.FirstFailureDecides | app/iotws/cmd/internal/logic/cron/iotconnsnlogic.go:42-60 | the first command that does not renew its key decides: the job is aborted exactly when that one fails and hangs up on its connection exactly when its key is gone |
| ConnLease.NoFailureNoHangUp | app/iotws/cmd/internal/logic/cron/iotconnsnlogic.go:42-60 | if there is no such command it does neither |
| ConnLease.LeasesLast | pkg/cache/key.go:12 | a login and a renewal that works give a lease of six minutes, and a renewal touches no other key |
| ConnLease.FlaggedIsStale | app/iotws/cmd/internal/logic/cron/iotconnsnlogic.go:42-60 | only a connection whose key is gone is hung up on, even when commands fail, and without failures one is whenever some key is gone |
| ConnLease.SafeConnectionStays | app/iotws/cmd/internal/handler/cron.go:19 | in every timed run with ticks less than six minutes apart, a connection registered while its key outlives the next tick keeps its key and is never hung up on |
| ConnLease.NeverHungUpIff | app/iotws/cmd/internal/logic/cron/iotconnsnlogic.go:32-99 | exactly which registered connections no timely run hangs up on: those whose key outlives the latest possible next tick |
| ConnLease.RegistrationIsSafeIff | app/iotdevice/cmd/internal/logic/iotloginlogic.go:49 | no timely run hangs up on a connection that registers exactly when its login came later than six minutes less the tick interval before the last tick |
| ConnLease.FirstTickDecides | app/iotws/cmd/internal/logic/cron/iotconnsnlogic.go:70-79 | the first tick after registration makes the connection safe exactly when its key is still there; otherwise it is stale |
| ConnLease.LateRegistrationIsFlagged | pkg/cache/key.go:12 | a timely run in which a device registers while its key is live and can still be hung up on |
| ConnLease.PeriodRemovesOne | app/iotws/cmd/internal/logic/cron/iotconnsnlogic.go:46-60 | whatever waits, logins, registrations and closes come between two ticks, if none makes a connection stale and the one hung up on closes before the second tick: a stale connection is gone by then, and it is the only one unless another closes or logs in |
| ConnLease.PeriodsRemoveAll | app/iotws/cmd/internal/logic/cron/iotconnsnlogic.go:46-60 | n ticks remove at least n stale connections, until none is left, and exactly n if the job alone removes them |
| ConnLease.InTimeIsClearing | app/iotws/cmd/internal/handler/cron.go:19 | with ticks less than six minutes apart, registrations that are safe and the close of the connection hung up on, the hypotheses of the stale count hold |
| GatewayLease.SoundFromStart | app/iotws/cmd/internal/logic/cron/iotconnsnlogic.go:32-45 | in every run from the empty gateway without double claims the job renews exactly the ids of the open sockets, and the table is their inverse |
| GatewayLease.HeldConnectionStays | app/iotws/cmd/internal/logic/cron/iotconnsnlogic.go:32-99 | registry and leases together, with other gateways deleting and renewing the shared keys: in every run without double claims, with timely, working renewals and no close of its id elsewhere, a socket that does not close keeps its id, its table entry and its lease and is never hung up on |
| GatewayLease.HeldConnectionStaysIff | app/iotws/cmd/internal/logic/cron/iotconnsnlogic.go:32-99 | the held connections that no such run hangs up on are exactly those whose lease outlives the latest possible next tick |
| GatewayLease.LateCloseElsewhereDooms | app/iotws/cmd/internal/ws/gateway.go:80-91 | from every state a close of the same id at another gateway allows a run, fair otherwise, in which the job hangs up on the connection held here |
| GatewayLease.LeaseAtEveryTickIff | app/iotws/cmd/internal/ws/gateway.go:80-91 | in every run fair at this gateway each tick finds the lease exactly when a login follows every close of the id elsewhere before the next tick |
| Endpoints.LessIs | pkg/devicecli/grpc/instances/resolver.go:47 | the order of addresses: a proper prefix comes first, otherwise the first difference decides |
| Endpoints.SortByAddress | pkg/devicecli/grpc/instances/resolver.go:44-48 | sorting in place gives a sorted permutation |
| Endpoints.Update | pkg/devicecli/grpc/instances/resolver.go:26-36 | whatever the iteration order, the list sent is strictly increasing and has exactly the input's addresses |
| Endpoints.PopulateEndpoints | pkg/devicecli/grpc/rpcn/resolver.go:26-45 | one canonical list per input, in order |
| Endpoints.CanonicalFormIff | pkg/devicecli/grpc/rpcn/resolver.go:38 | two updates send the same list exactly when their inputs have the same addresses, which is what keeps the balancer from seeing a change |

## Left out

- ReloadProtocol.NoInstalledClientClosed: says nothing of runs with a commit that finds other slots than its snapshot;
  by `OwnedThroughoutIff` those are the runs that lose single ownership.
- Planner.StoppedPlanIsExact: is about the loop with the missing stop added; `NoDonorBelowMeanIff` is the exact
  condition for the loop as written.
- GatewayLease.HeldConnectionStays: other gateways appear only by what they do to the shared keys, not with registries of
  their own.
- ConnLease.PeriodsRemoveAll: assumes ticks without failing commands; a failing command can make a tick hang up on
  nobody.
- LogBridge.NothingDroppedWithoutExpiry: assumes that no AckWait runs out; `NothingMoreDroppedIff` is the exact condition
  after expiries.
- LogBridge.RedeliveryReachesLoki: when the server redelivers, and that it does, is JetStream's part; a delivery may
  come at any time within MaxAckPending.
- Data races: handlers, lock-protected sections and single cell reads and writes are atomic steps; a two-word
  interface value torn by an unsynchronised read, and parallel messages on one socket, are not modelled.
- The close of a dead NATS client, which dereferences a nil pointer as a push to it does, is modelled as a release.
- A panic in the message callback is caught by the handler and changes nothing in the registry; it has no step.
- Text is modelled as characters and compared as such; bytes, UTF-8 and invalid encodings are not.
- Integer widths: amounts, counters and sizes are unbounded; int64 and uint overflow does not occur in the model. The
  float comparisons of `ProcessTask` are modelled exactly, without rounding of very large counters.
- A Redis command that fails is taken to have left its key as it was; a reply lost after the command took effect is
  not modelled.
- Timestamps and log lines as rendered for Loki, the HTTP push itself, retries, basic authentication and error
  callbacks.
- `sort.Sort` is an insertion sort that uses the same comparison; a different algorithm gives the same list, because
  the list is determined by the addresses.
- Close frames, pings, deadlines and keep-alives of sockets; alarm messages and logging.
- Redis gating of the planner, publishing and task decoding; configuration, service discovery, generated code, the
  RabbitMQ and AMQP wrappers, the command routing of the HTTP and gRPC clients.
