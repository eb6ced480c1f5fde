# Verified model of the Cloud API Adaptor

The Cloud API Adaptor runs the containers of a Kubernetes pod in a virtual machine outside the worker node
("peer pod").  This project models the parts of it in which several processes share state, or hand values
along a chain, and proves what holds over all their runs.

- **Machine pool (`PoolStates`, `PoolProtocol`, `PoolTraces`, `PoolManager`, `PoolRefinement`, `PoolFlag`,
  `Addresses`).**  The "bring your own machine" provider leases machines from a pool whose state lives in one
  ConfigMap.
  `PoolProtocol` is a state machine of any number of managers and the API server; `PoolManager` is the code of
  one manager and of the provider, with its in-place updates and its retry loop; `PoolRefinement` shows
  that its operations are runs of the protocol; `PoolFlag` is the parser of the pool flag.
- **Volumes (`VolumeProtocol`, `VolumeSafety`, `VolumeChain`, `VolumeRequests`, `VolumeData`,
  `VolumeTraces`).**  The CSI wrapper caches the calls of the orchestrator in a PeerpodVolume object and replays
  them when the VM is up.  The state machine has the store, any number of stale and modified copies, any number
  of handlers, a log of driver calls and a list of the calls that were made.
- **Instance types (`Webhook`, `Decimal`, `InstanceTypes`, `Selection`).**  From the resource requests of a
  pod, through annotations, to the instance type of its VM.
- **Secure tunnels (`SecureComms`, `SecureTraces`).**  The phase handshake, the tunnel filters and the one-way
  upgrade.
- **PeerPod objects (`PeerPods`).**  Finalizers, their release by adaptor and controller, and the sweep.
- **Packet rules (`Iptables`, `Vxlan`).**  VNIs, rules and chains of the tunnels of a worker node.

Protocols are deterministic step functions `Apply` over labelled steps with a guard `Enabled`; a run is a
sequence of steps, and main results quantify over all of them.  Failures, lost answers, conflicts, clocks,
map iteration orders and the choices of other processes are parameters of the steps.  Code that changes
things in place is a class or a method with loops, proved equal to a specification function, about which
the lemmas speak.

## Findings

Places where the code does something other than its comments, its documentation or a reader would say, with
the lemma that shows it by a concrete run or input and, where one is named, the lemma that says exactly when.

- `ip_allocation.md` promises that a conflicting allocation is retried with fresh state.  The retry fetches
  the ConfigMap again but sends the state computed before, so two managers can lease one machine
  (`RacingManagersShareMachine`; exactly when: `UseStaysLeasedExactly`, `UnsparedAddressCanBeShared`).
- `RecoverState` replaces the stored state after any read error, and machines in use are leased again
  (`ForgettingManagerSharesMachine`; exactly when: `OneManagerStaysLeasedExactly`).
- Overlapping calls for one allocation ID, and a write that lands after its caller has given up, can free a
  machine in use (`OverlappingCallsShareMachine`, `LateWriteSharesMachine`; exactly when:
  `UseStaysLeasedExactly`).
- A comment in `updateState` says that a lost race to create the ConfigMap is retried.  The retry helper
  retries conflicts only, so the call fails (`LostCreationRaceFails`; exactly when: `UpdateSucceedsExactly`).
- A creation whose write lands while its answer is lost fails without a rollback, and its lease stays
  (`LostAnswerLeaksLease`; exactly when: `FailedCreateRestoresPoolExactly`).
- A pool range from IPv4 to IPv6 can put the text of the invalid address into the pool (`OverrunAtInput`;
  exactly when: `ParsePrintExactly`).
- On a sorted list the binary search can miss a fitting type (`SortedListCanHideFit`; exactly when not:
  `SearchIsBestFitExactly`).
- A memory total too large to convert is ignored (`OversizedMemoryIsIgnored`).
- `ReleasePeerPod` ignores the instance it is given and releases whatever PeerPod its pod is mapped to, so a
  live instance can lose its finalizer even with one sandbox at a time (`FailedPostReleasesLiveInstance`,
  `UnstartedStopReleasesLiveInstance`, since the machine-pool provider deletes an empty instance ID without
  error; exactly when: `StepIsSafeExactly`).
- The statuses that make the pod VM replay unpublish and unstage are never written
  (`TeardownIsNeverReplayed`).
- A publish call that lands on an applied publish makes the pod VM stage with a fake context
  (`StageCanCarryFakeContext`; exactly when: `ContextIsFakedExactly`); a status write that fails without a
  conflict can make the chain skip a link (`ChainCanSkipLink`; exactly when: `LinkIsSkippedExactly`).
- A publish call for a volume that is not marked for peer pods goes to the driver and is cached all the same
  (`PublishIsCached`).
- A client that finds a stored secret starts in the Kubernetes phase at once (`StoredSecretSkipsAttestation`);
  still, no Kubernetes-only tunnel is accepted before the server is configured
  (`KubernetesTunnelsFollowConfiguration`).

## Model

| member | source | states |
|---|---|---|
| `PoolStates.SelectIndex` | src/cloud-providers/byom/configmap_vmpool.go:115-131 | the picked index is always one of the available addresses |
| `PoolStates.AllocateKeepsPartition` | src/cloud-providers/byom/configmap_vmpool.go:212-232 | taking a free address out of the list and into the allocations leaves an exact partition of the configured pool |
| `PoolStates.DeallocateKeepsPartition` | src/cloud-providers/byom/configmap_vmpool.go:276-290 | putting a leased address back leaves an exact partition of the pool |
| `PoolStates.EmptyIsPartition` | src/cloud-providers/byom/state_recovery.go:127-134 | the initial state partitions the pool |
| `PoolStates.RepairKeepsPartition` | src/cloud-providers/byom/state_recovery.go:70-112 | repairing a partition of the pool gives a partition of the same pool |
| `PoolStates.RepairFromAnyConfiguration` | src/cloud-providers/byom/state_recovery.go:70-112 | from any well-formed state and any new duplicate-free pool: every allocation survives, the available list is exactly the unallocated configured addresses in configured order, and a second repair changes only version and time |
| `PoolStates.FreeListKeepsOrder` | src/cloud-providers/byom/configmap_vmpool.go:212-290 | the free list is a queue: an allocation keeps the order of the rest, a released address goes to its end |
| `PoolStates.PartitionCount` | src/cloud-providers/byom/configmap_vmpool.go:342-356 | conservation: available plus leased is the number of configured machines |
| `PoolProtocol.StoredValuePartitionsPool` | src/cloud-providers/byom/configmap_vmpool.go:408-468 | for any number of managers and any interleaving of reads, failed reads, conflicts, retries, lost answers, late writes and recoveries, every stored value is an exact partition of the pool and adds up to its size |
| `PoolProtocol.WriteIsNoticedExactly` | src/cloud-providers/byom/configmap_vmpool.go:417-459 | a write makes a new version, which others notice as a conflict, exactly if it changes the stored state |
| `PoolProtocol.UseStaysLeasedExactly` | src/cloud-providers/byom/configmap_vmpool.go:169-296 | for any number of managers and any calls, overlapping or not: at every point of the run every address in use is leased to its user, if and only if every write finds that its snapshot shows every address in use of other IDs, that a released ID is not in use, and that an unanswered allocation of an ID in use writes the address in use |
| `PoolProtocol.WriteKeepsHeldExactly` | src/cloud-providers/byom/configmap_vmpool.go:417-459 | the same for one write, of an allocation, a release or a recovery, at once or late |
| `PoolProtocol.AddressesStayLeasedExactly` | src/cloud-providers/byom/configmap_vmpool.go:169-296 | for calls that do not overlap the condition is that at every commit the snapshot shows every address in use (after a failed read: none is in use) |
| `PoolProtocol.NoAddressHeldTwice` | src/cloud-providers/byom/configmap_vmpool.go:169-296 | over whole runs that meet the condition of UseStaysLeasedExactly no address is in use by two allocation IDs |
| `PoolProtocol.ReallocationReturnsSameAddress` | src/cloud-providers/byom/configmap_vmpool.go:179-187 | after any such run, allocating an ID in use returns the address it has and changes nothing |
| `PoolProtocol.FreshCommitIsLeaseStep` | src/cloud-providers/byom/configmap_vmpool.go:169-248 | a write whose snapshot is still the current version grants its own lease of a free address, releases its own lease, or changes no lease |
| `PoolProtocol.FreshStepRefinesLeaseMap` | src/cloud-providers/byom/configmap_vmpool.go:169-296 | with such snapshots every step of the system is one step, or none, of an abstract lease map |
| `PoolProtocol.FreshRunShowsHeld` | src/cloud-providers/byom/configmap_vmpool.go:169-296 | runs of non-overlapping calls in which no foreign write lands between snapshot and commit meet the condition of AddressesStayLeasedExactly |
| `PoolProtocol.OneManagerStaysLeasedExactly` | src/cloud-providers/byom/state_recovery.go:20-66 | for a single manager without late writes, and without any hypothesis on interleavings: every address in use stays leased if and only if no recovery after a failed read overwrites the state while an address is in use |
| `PoolProtocol.OneManagerIsExclusive` | src/cloud-providers/byom/configmap_vmpool.go:154-296 | then no address is in use by two allocation IDs |
| `PoolProtocol.WriteKeepsOtherLeasesExactly` | src/cloud-providers/byom/configmap_vmpool.go:417-459 | in every run whatever, any write keeps everybody else's lease, in use or not, if and only if what it was computed from shows them |
| `PoolTraces.UnsparedAddressCanBeShared` | src/cloud-providers/byom/configmap_vmpool.go:417-459 | after any write that does not meet the condition, a further run of non-overlapping calls and fresh commits gives an address in use to a second user |
| `PoolTraces.RacingManagersShareMachine` | src/cloud-providers/byom/configmap_vmpool.go:174 | a run of two managers that ends with one machine in use by both: the snapshot's version is dropped and the retry re-sends the old computation |
| `PoolTraces.ForgettingManagerSharesMachine` | src/cloud-providers/byom/state_recovery.go:35-66 | a run of one manager that ends with one machine in use twice: a recovery that cannot read the state overwrites it |
| `PoolTraces.OverlappingCallsShareMachine` | src/cloud-providers/byom/configmap_vmpool.go:179-187 | a run of fresh commits that ends with one machine in use twice: an allocation is answered while a release of the same ID is under way |
| `PoolTraces.LateWriteSharesMachine` | src/cloud-providers/byom/configmap_vmpool.go:451-467 | a run of one manager that ends with one machine in use twice: the write of a release lands after its caller has given up and the ID has been allocated again |
| `PoolManager.ValidateConfig` | src/cloud-providers/byom/configmap_vmpool.go:42-70 | a configuration is accepted if and only if the pool is non-empty and every entry is an address |
| `PoolManager.Manager.GetCurrentState` | src/cloud-providers/byom/configmap_vmpool.go:378-405 | the state read is the stored one, or the empty state of the pool if none is stored; an error on a failed read |
| `PoolManager.Manager.UpdateState` | src/cloud-providers/byom/configmap_vmpool.go:408-468 | the get-modify-update loop computes its specification: foreign writes between get and put, writes whose answer is lost, conflicts retried at most four times, a lost creation race not retried |
| `PoolManager.UpdateIsAllOrNothing` | src/cloud-providers/byom/configmap_vmpool.go:408-468 | success means exactly the new state is stored; failure means the stored state is the old one, a foreign one, or exactly the new one if an answer was lost |
| `PoolManager.UpdateKeepsPartition` | src/cloud-providers/byom/configmap_vmpool.go:408-468 | no outcome of an update stores anything but a partition of the pool |
| `PoolManager.UpdateSucceedsExactly` | src/cloud-providers/byom/configmap_vmpool.go:415-467 | for any failures and foreign writes: an update succeeds if and only if one of four rounds goes through and all rounds before it end in a version conflict; what caused the conflicts is overwritten |
| `PoolManager.LostCreationRaceFails` | src/cloud-providers/byom/configmap_vmpool.go:421-443 | an update that loses the race to create the ConfigMap fails and is not retried |
| `PoolRefinement.UpdateRoundIsProtocol` | src/cloud-providers/byom/configmap_vmpool.go:415-467 | refinement: one round of the update loop of the code, with a foreign write between its get and its put, is a fetch and a commit of the protocol, or a fetch and a conflict, after which the code goes on as the protocol does |
| `PoolRefinement.AllocateIsRun` | src/cloud-providers/byom/configmap_vmpool.go:169-248 | refinement: every allocation of the code, whatever fails and whoever writes, leaves what the steps of one manager of the protocol, called for that allocation, leave among just those foreign writes; if it succeeds, its caller holds what is leased to the ID |
| `PoolRefinement.DeallocateIsRun` | src/cloud-providers/byom/configmap_vmpool.go:265-296 | refinement: the same for every deallocation |
| `PoolRefinement.RecoverIsRun` | src/cloud-providers/byom/state_recovery.go:20-112 | refinement: the same for every recovery, with its two reads |
| `PoolRefinement.QuietLeadsAreRuns` | src/cloud-providers/byom/configmap_vmpool.go:408-468 | without foreign writes these are runs of the protocol alone |
| `PoolManager.Manager.AllocateIP` | src/cloud-providers/byom/configmap_vmpool.go:154-248 | in-place allocation and its error paths compute their specification |
| `PoolManager.AllocateRunKeepsPartition` | src/cloud-providers/byom/configmap_vmpool.go:169-248 | every allocation, failed or not, leaves a partition stored |
| `PoolManager.AllocateRunGrantsOneLease` | src/cloud-providers/byom/configmap_vmpool.go:169-248 | an undisturbed allocation that succeeds returns the address now leased to the ID: its old one, else one that was free; no other lease changes; one that fails changes nothing if and only if no unanswered write landed, and otherwise leaves exactly that lease |
| `PoolManager.AllocateRunSucceedsExactly` | src/cloud-providers/byom/configmap_vmpool.go:169-248 | an undisturbed allocation succeeds exactly if the state is read and either the ID is leased already, or an address is free, the VM is ready or readiness is not asked for, the node name is known and the write is acknowledged |
| `PoolManager.AllocationIsRecorded` | src/cloud-providers/byom/configmap_vmpool.go:212-232 | the stored record of a new lease has the ID, pod, node and time of the call, and the version goes up by one |
| `PoolManager.Manager.DeallocateIP` | src/cloud-providers/byom/configmap_vmpool.go:251-296 | in-place deallocation and its error paths compute their specification; an unknown ID is no error |
| `PoolManager.DeallocateRunKeepsPartition` | src/cloud-providers/byom/configmap_vmpool.go:265-296 | every deallocation leaves a partition stored |
| `PoolManager.DeallocateRunReleasesOneLease` | src/cloud-providers/byom/configmap_vmpool.go:265-296 | an undisturbed deallocation that succeeds removes exactly the lease of the ID; one that fails changes nothing if and only if no unanswered write landed |
| `PoolManager.DeallocateRunSucceedsExactly` | src/cloud-providers/byom/configmap_vmpool.go:265-296 | an undisturbed deallocation succeeds exactly if the state is read and the ID is not leased or the write is acknowledged |
| `PoolManager.Manager.RecoverState` | src/cloud-providers/byom/state_recovery.go:20-66 | recovery repairs a readable state and re-initialises on any read error; what that does to the leases is stated by RecoverRunForgetsExactly |
| `PoolManager.Manager.RepairStateFromPrimaryConfig` | src/cloud-providers/byom/state_recovery.go:70-112 | the loops that collect allocated addresses and rebuild the available list compute the repaired state |
| `PoolManager.RecoverRunKeepsPartition` | src/cloud-providers/byom/state_recovery.go:20-112 | every recovery leaves a partition stored |
| `PoolManager.RepairRunKeepsLeases` | src/cloud-providers/byom/state_recovery.go:70-112 | an undisturbed repair, from any well-formed state and any duplicate-free pool, loses no lease; exactly if its read succeeds and its write lands, the allocations are the old ones and the available list is exactly the unallocated configured addresses, in configured order; otherwise nothing changes |
| `PoolManager.RecoverRunForgetsExactly` | src/cloud-providers/byom/state_recovery.go:20-66 | an undisturbed recovery does what the repair does after a successful first read; after a failed one the leases are forgotten exactly if its write lands |
| `PoolManager.Manager.GetIPfromAllocationID` | src/cloud-providers/byom/configmap_vmpool.go:299-319 | lookup by ID, with its three outcomes |
| `PoolManager.Manager.GetAllocationIDfromIP` | src/cloud-providers/byom/configmap_vmpool.go:322-339 | whatever the iteration order, the answer is an ID leased to that text, or none if the text is not leased |
| `PoolManager.LookupsInvertExactly` | src/cloud-providers/byom/configmap_vmpool.go:299-339 | for any stored texts, IP-to-ID lookup inverts ID-to-IP lookup, for every iteration order, if and only if the leased text is the canonical form of its address |
| `PoolManager.ParsedPoolLookupsInvert` | src/cloud-providers/byom/configmap_vmpool.go:299-339 | with the pool that the flag parser returns, every lease is found by its ID and by its address again, for every iteration order |
| `PoolManager.Manager.GetPoolStatus` | src/cloud-providers/byom/configmap_vmpool.go:342-356 | total, available and in-use counts of the current state |
| `PoolManager.StatusTotalIsPoolSize` | src/cloud-providers/byom/configmap_vmpool.go:342-356 | the total is always the size of the configured pool |
| `PoolManager.Provider.CreateInstance` | src/cloud-providers/byom/provider.go:124-164 | allocate, configure, send, and roll back on failure; CreateRunSucceedsExactly and FailedCreateRestoresPoolExactly state the outcomes |
| `PoolManager.CreateRunSucceedsExactly` | src/cloud-providers/byom/provider.go:124-164 | an undisturbed creation succeeds exactly if allocation, configuration and sending do, with the error of the first that fails; then the ID is leased, the leased text parses to the returned address, and the leases are the old ones or the old ones with one free address granted |
| `PoolManager.CreateThenDeleteRestores` | src/cloud-providers/byom/provider.go:124-204 | with the pool of the flag parser, the printed address of a created instance finds its allocation ID again, in any iteration order, and an acknowledged release restores the leases |
| `PoolManager.AllocationIDsDiffer` | src/cloud-providers/byom/provider.go:126 | different pairs of pod and sandbox have different allocation IDs |
| `PoolManager.AllocateDeallocateRestores` | src/cloud-providers/byom/provider.go:124-164 | releasing the lease just granted restores the allocations and the multiset of free machines |
| `PoolManager.FailedCreateRestoresPoolExactly` | src/cloud-providers/byom/provider.go:124-164 | a failed creation on a fresh ID leaves leases and the multiset of free machines unchanged if and only if the write of its allocation was refused or never made, or was acknowledged and the write of its rollback landed |
| `PoolManager.LostAnswerLeaksLease` | src/cloud-providers/byom/provider.go:129-132 | an input on which a creation fails with its lease stored: the answer to its write is lost, and nothing is rolled back |
| `PoolManager.Provider.DeleteInstance` | src/cloud-providers/byom/provider.go:167-204 | an empty instance ID is no error; otherwise the lease found for the address is released |
| `PoolManager.DeleteReleasesItsLease` | src/cloud-providers/byom/provider.go:167-204 | deleting the instance of a lease, named by its address, releases that lease and no other |
| `PoolFlag.ExpandRange` | src/cloud-providers/byom/types.go:56-67 | the range loop terminates and yields the specified texts |
| `PoolFlag.ParseEntry` | src/cloud-providers/byom/types.go:38-76 | one entry: trimmed, skipped if empty, a range or an address, with its three errors |
| `PoolFlag.Set` | src/cloud-providers/byom/types.go:27-88 | the parser loops compute the specified pool, with the first error of the first bad entry |
| `PoolFlag.Unique` | src/cloud-providers/byom/types.go:78-86 | the loop with its seen-map keeps first occurrences |
| `PoolFlag.DistinctKeepsFirstOccurrences` | src/cloud-providers/byom/types.go:78-86 | the list has no duplicates, the same elements, and first-occurrence order |
| `PoolFlag.RangeIsConsecutive` | src/cloud-providers/byom/types.go:56-67 | a same-family range contributes exactly its first min(length, limit) consecutive addresses |
| `PoolFlag.RangeAcrossFamilies` | src/cloud-providers/byom/types.go:56-67 | an IPv4-to-IPv6 range yields the text of the invalid address if and only if the limit lets it pass the last IPv4 address |
| `PoolFlag.ParsePrintExactly` | src/cloud-providers/byom/types.go:22-88 | a parsed pool is duplicate-free, and parsing its printed form returns it if and only if no entry is a range that runs past the last IPv4 address |
| `PoolFlag.ListMeaning` | src/cloud-providers/byom/types.go:27-88 | a list as a user writes it, of addresses, ranges and blanks with any white space around them, is accepted exactly if every range ascends, and is then read as the addresses that the items stand for, in order, each once |
| `PoolFlag.OverrunAtInput` | src/cloud-providers/byom/types.go:45-67 | the range from 255.255.255.255 to :: puts the text of the invalid address into the pool, which then cannot be parsed again |
| `VolumeSafety.ReplaysAreOrdered` | src/csi-wrapper/pkg/wrapper/podvmservice.go:134-237 | in every run, each replayed NodeStageVolume follows a successful replayed ControllerPublishVolume, and each replayed NodePublishVolume a successful replayed NodeStageVolume |
| `VolumeSafety.StepKeepsOrder` | src/csi-wrapper/pkg/wrapper/podvmservice.go:295-312 | one step of any process keeps: every version and every copy, stale or modified, has the driver calls its status claims |
| `VolumeSafety.StepKeepsLinked` | src/csi-wrapper/pkg/wrapper/controllerservice.go:367-422 | one step keeps: every cached copy differs from its version only in what the handler for that status records, and every handler in progress works on a copy with the status it needs |
| `VolumeChain.StatusFollowsChain` | src/csi-wrapper/pkg/wrapper/nodeservice.go:349-395 | if writes of NodeStageApplied fail only by conflict once a NodePublish request is cached, every version from VSIIDReady on replaces one of the same status or of its predecessor in the chain |
| `VolumeChain.AppliedVolumesWentThroughChain` | src/csi-wrapper/pkg/wrapper/podvmservice.go:161-235 | a volume with NodePublishApplied went through VSIRunning, VSIIDReady, ControllerPublishApplied and NodeStageApplied, one after the other |
| `VolumeChain.LinkIsSkippedExactly` | src/csi-wrapper/pkg/wrapper/podvmservice.go:161-190 | at any moment of such a run, a step can make the chain skip a link if and only if it is a failed write of NodeStageApplied from a current copy that holds a NodePublish request |
| `VolumeChain.TeardownIsNeverReplayed` | src/csi-wrapper/pkg/wrapper/nodeservice.go:165-211 | in no run does any version or copy get the status that replays unpublish or unstage, since the wrong object is sent |
| `VolumeChain.CachedTeardownWouldBeReplayed` | src/csi-wrapper/pkg/wrapper/podvmservice.go:295-312 | a cached copy with one of those statuses would be replayed |
| `VolumeData.ActiveCopiesAreIdentified` | src/csi-wrapper/pkg/wrapper/nodeservice.go:127-143 | until the first unpublish, in every copy from VSIRunning on the pod UID, its label and the NodePublish request are non-empty and those of one and the same earlier call, and every copy from VSIIDReady on has a VM ID that a lookup gave |
| `VolumeRequests.CopiesCarryOneCall` | src/csi-wrapper/pkg/wrapper/nodeservice.go:96-162 | in every run, also after an unpublish, pod UID, label and NodePublish request of any copy are empty or those of one call that was made |
| `VolumeRequests.ReplaysCarryEarlierRequests` | src/csi-wrapper/pkg/wrapper/podvmservice.go:134-237 | every replayed call carries the request of an earlier call of its kind, and every publish or unpublish to the driver names a VM that a node found for a pod that was started on it |
| `VolumeRequests.StepKeepsFromCalls` | src/csi-wrapper/pkg/wrapper/nodeservice.go:349-395 | one step keeps: each cached request is that of a call of its kind, pod names are those of one start, VM IDs those of lookups on the node and for the pod that one start named |
| `VolumeRequests.PodVMsReplayTheirOwn` | src/csi-wrapper/pkg/wrapper/podvmservice.go:295-312 | in every run a pod VM begins a replay only of a request that was made, for a volume whose pod was started under its own name and namespace |
| `VolumeData.ActiveCopiesHoldAllRequests` | src/csi-wrapper/pkg/wrapper/nodeservice.go:214-259 | if calls come in lifecycle order, every copy from VSIRunning on holds all three cached requests |
| `VolumeData.StagedContextIsReal` | src/csi-wrapper/pkg/wrapper/podvmservice.go:134-160 | unless a publish call lands on an applied publish, each replayed NodeStageVolume carries the response of an earlier successful replayed publish for a named VM |
| `VolumeData.ContextIsFakedExactly` | src/csi-wrapper/pkg/wrapper/controllerservice.go:166-205 | at any moment of such a run, a step can make the pod VM stage with a response that is not genuine if and only if it is the spec write of a publish call on a publish that is applied already |
| `VolumeTraces.ChainCanSkipLink` | src/csi-wrapper/pkg/wrapper/podvmservice.go:161-235 | a run from the start, with one handler at a time and one status write failing without a conflict, whose versions leave the chain |
| `VolumeTraces.StageCanCarryFakeContext` | src/csi-wrapper/pkg/wrapper/controllerservice.go:133-205 | a run from the start in which a second publish call makes the pod VM stage with the fake response |
| `VolumeTraces.VolumesRunTheirCourse` | src/csi-wrapper/pkg/wrapper/podvmservice.go:134-237 | for any requests, names and driver response there is a run, with calls in lifecycle order, in which the driver gets exactly the cached requests, in order, with its own response and the VM found, and in the end the unpublish for that VM |
| `VolumeTraces.UnpublishForgets` | src/csi-wrapper/pkg/wrapper/controllerservice.go:210-274 | from any state, an undisturbed unpublish leaves the object as created, and calls the driver for the recorded VM exactly if the status is an applied one |
| `VolumeTraces.PublishIsCached` | src/csi-wrapper/pkg/wrapper/controllerservice.go:133-205 | a publish call for a volume without an object is cached with the fake response, also when it has gone to the driver because the volume is not marked for peer pods |
| `InstanceTypes.Search` | src/cloud-providers/util.go:100-146 | the search loop returns an entry that covers the request and whose predecessor does not, or the length, for every list |
| `InstanceTypes.SearchFromIsSound` | src/cloud-providers/util.go:100-146 | soundness for every list, sorted or not |
| `InstanceTypes.SearchIsBestFitExactly` | src/cloud-providers/util.go:100-120 | on every list, the binary search answers every request like a linear first-fit scan if and only if each probe covers everything it cuts off, or an earlier failed probe does |
| `InstanceTypes.AscendingListIsBestFit` | src/cloud-providers/util.go:45-60 | a sorted list that also ascends in vCPUs and memory is searched like a first-fit scan, with or without GPUs |
| `InstanceTypes.SortedMemoryAscends` | src/cloud-providers/util.go:45-60 | without GPUs sorting alone orders memory |
| `InstanceTypes.SortedListCanHideFit` | src/cloud-providers/util.go:45-60 | a sorted list on which the search reports nothing although a type fits |
| `InstanceTypes.FilterOutGPUInstances` | src/cloud-providers/util.go:122-132 | the loop keeps exactly the entries without GPUs |
| `InstanceTypes.FilteringKeepsSorted` | src/cloud-providers/util.go:122-132 | filtering keeps the list sorted |
| `InstanceTypes.FilteredSearchIsBestFit` | src/cloud-providers/util.go:100-120 | on a sorted list whose entries without GPUs ascend in vCPUs, the search without GPUs is a first-fit scan and finds nothing only if nothing fits |
| `InstanceTypes.GetBestFitInstanceType` | src/cloud-providers/util.go:100-120 | search among the entries without GPUs |
| `InstanceTypes.GetBestFitInstanceTypeWithGPU` | src/cloud-providers/util.go:134-146 | search over GPUs, vCPUs and memory |
| `InstanceTypes.VerifyCloudInstanceType` | src/cloud-providers/util.go:20-43 | a named type is accepted unchanged if and only if it is supported, or is the default when no list is given |
| `InstanceTypes.SelectInstanceTypeToUse` | src/cloud-providers/util.go:62-98 | the branches on name, GPUs and resources compute the specified selection |
| `InstanceTypes.SelectionCovers` | src/cloud-providers/util.go:62-98 | a selection by resources is an error or a listed type that covers the request, for every list |
| `InstanceTypes.NamedTypeIsReturnedExactly` | src/cloud-providers/util.go:62-98 | a named type is returned exactly if it is supported, and is an error otherwise; a request that names nothing gets the default |
| `InstanceTypes.PickFailsExactlyIfNothingFits` | src/cloud-providers/util.go:62-146 | a request by resources fails before the name check exactly if no listed type fits: without GPUs on a sorted list whose entries without GPUs ascend in vCPUs, with GPUs on a list whose probes dominate |
| `Webhook.Whole` | src/webhook/pkg/mutating_webhook/remove-resourcespec.go:81-88 | rounding gives the least whole number of units that covers the quantity |
| `Webhook.ToMiB` | src/webhook/pkg/utils/utils.go:80-87 | rounding gives the least number of MiB that covers the quantity, where the library converts it |
| `Webhook.PodObject.RequestQuantity` | src/webhook/pkg/utils/utils.go:12-34 | the loops sum the requests over containers and init containers |
| `Webhook.PodObject.LimitQuantity` | src/webhook/pkg/utils/utils.go:49-66 | the loops sum the limits over containers and init containers |
| `Webhook.TotalsCountEveryContainer` | src/webhook/pkg/utils/utils.go:12-66 | raising one request or limit of any container or init container by d raises the total of that resource by d, and no other total |
| `Webhook.NothingTotalsToZero` | src/webhook/pkg/utils/utils.go:12-66 | a pod without requests and limits has totals of zero |
| `Webhook.PodObject.AdjustResourceSpec` | src/webhook/pkg/mutating_webhook/remove-resourcespec.go:48-130 | in-place annotation, clearing of every container and the VM resource on the first |
| `Webhook.MutatePod` | src/webhook/pkg/mutating_webhook/remove-resourcespec.go:27-42 | only pods of the target runtime class are changed |
| `Webhook.AdjustedAsksForOneVM` | src/webhook/pkg/mutating_webhook/remove-resourcespec.go:117-146 | the mutated pod requests exactly one unit of the VM resource over all containers and nothing else, with equal limits |
| `Webhook.MutationKeepsTheRest` | src/webhook/pkg/mutating_webhook/remove-resourcespec.go:27-130 | a pod of another runtime class is left alone; otherwise names, runtime class and all other annotations stay, and so does an annotation whose resource is not requested |
| `Webhook.MutationIsIdempotentExactly` | src/webhook/pkg/mutating_webhook/remove-resourcespec.go:27-146 | mutating a pod twice is mutating it once if and only if the VM resource is not CPU, memory or GPU, or the pod announces one unit of it already |
| `Selection.AnnotationsCoverTotals` | src/cloud-api-adaptor/pkg/util/cloud.go:48-90 | the printed annotations parse back to the least whole CPUs and MiB that cover the totals of the pod, of requests and of limits |
| `Selection.GPUsAreAskedFor` | src/cloud-api-adaptor/pkg/util/cloud.go:77-90 | a whole number of GPUs that the library prints as such is what the adaptor asks for |
| `Selection.NamedMachineTypeIsUsedExactly` | src/cloud-providers/util.go:62-98 | a machine type that the pod names is what it gets, whatever it requests, exactly if that type is supported |
| `Selection.SelectedTypeCoversPod` | src/cloud-providers/util.go:62-130 | through summation, rounding, printing, parsing, filtering and search, the pod gets an error or a listed type that covers its CPU and memory totals, for every list and with or without a GPU request |
| `Selection.SelectedNameCoversPod` | src/cloud-providers/util.go:62-130 | with distinct names, the type that the returned name stands for covers the totals |
| `Selection.OversizedMemoryIsIgnored` | src/webhook/pkg/utils/utils.go:80-87 | a memory total that the library refuses is announced as zero: a pod without GPUs gets the default type, and a pod with GPUs may get one without memory |
| `Decimal.ParseFormatInt` | src/cloud-api-adaptor/pkg/util/cloud.go:53-61 | every 64-bit integer survives printing and parsing |
| `SecureComms.ServedAdmit` | src/cloud-api-adaptor/pkg/securecomms/sshproxy/sshproxy.go:372-394 | a peer serves exactly the inbounds whose tag admits its phase |
| `SecureComms.AcceptedTunnelMatches` | src/cloud-api-adaptor/pkg/securecomms/sshproxy/sshproxy.go:284-313 | an accepted tunnel has both ends in one phase, equal names, and both tags admit the phase; when one is accepted is stated by TunnelsAreAcceptedExactly |
| `SecureComms.TunnelsAreAcceptedExactly` | src/cloud-api-adaptor/pkg/securecomms/sshproxy/sshproxy.go:291-300 | in every run, a ready end that is offered a tunnel accepts it exactly if one of its outbounds has the name and the last of that name admits the phase of the end, and then through that outbound |
| `SecureComms.InboundsAreServedExactly` | src/cloud-api-adaptor/pkg/securecomms/sshproxy/sshproxy.go:366-394 | in every run, an end serves exactly those of its inbounds that admit its phase, once it has its tags |
| `SecureComms.EndsHaveConfiguredTags` | src/cloud-api-adaptor/pkg/securecomms/wnssh/wnssh.go:143-196 | in every run, the tags of an end are those of the server, or those that an instance of its own pod was given |
| `SecureComms.EarlyTunnelWaits` | src/cloud-api-adaptor/pkg/securecomms/sshproxy/sshproxy.go:289-294 | a tunnel request that comes before its end is ready is neither accepted nor lost: the end takes nothing else until it is ready, and then this request |
| `SecureComms.MismatchClosesEnd` | src/cloud-api-adaptor/pkg/securecomms/sshproxy/sshproxy.go:316-333 | an end that learns of another phase fails and closes |
| `SecureComms.StepKeepsInv` | src/cloud-api-adaptor/pkg/securecomms/sshproxy/sshproxy.go:257-334 | one step keeps: replies on their way tell the sender's phase, only checked peers open tunnels, upgrade messages follow the configuration |
| `SecureComms.TunnelsStayInPhase` | src/cloud-api-adaptor/pkg/securecomms/sshproxy/sshproxy.go:240-334 | in every run, every tunnel ever accepted joins two ends in the same phase, admitted by the opener's inbound tag and the acceptor's outbound tag |
| `SecureComms.KubernetesPhaseFollowsConfiguration` | src/cloud-api-adaptor/pkg/securecomms/wnssh/wnssh.go:199-271 | in every run, a client without a stored secret has a Kubernetes-phase connection only after the server has built its configuration from two non-empty, well-formed keys that it has fetched |
| `SecureComms.KubernetesTunnelsFollowConfiguration` | src/cloud-api-adaptor/pkg/securecomms/ppssh/ppssh.go:94-131 | no tunnel tagged for the Kubernetes phase is accepted before that, whatever secrets were stored |
| `SecureComms.KeysUpgradeExactly` | src/cloud-api-adaptor/pkg/securecomms/ppssh/ppssh.go:119-130 | the server leaves the attestation phase, and asks for the upgrade, exactly on two non-empty and well-formed keys; any others change nothing |
| `SecureComms.ClientReconnectsExactly` | src/cloud-api-adaptor/pkg/securecomms/wnssh/wnssh.go:198-264 | in every run, a client whose wait has ended goes on in the Kubernetes phase exactly if it was in it or was upgraded while ready, and stops otherwise |
| `SecureTraces.HandshakeSucceeds` | src/cloud-api-adaptor/pkg/securecomms/sshproxy/sshproxy.go:240-334 | two ends in the same phase can always complete the handshake |
| `SecureTraces.TunnelsOpenInBothPhases` | src/cloud-api-adaptor/pkg/securecomms/ppssh/ppssh.go:94-156 | whatever the tags, there is a run from the start in which a tunnel that the attestation phase admits, for one phase or for both, is accepted in that phase, the keys arrive, both sides upgrade, and a tunnel that the Kubernetes phase admits is accepted on the next connection |
| `SecureComms.PhaseCheckIsAnswered` | src/cloud-api-adaptor/pkg/securecomms/sshproxy/sshproxy.go:291-319 | the loop that must answer a peer's phase check is never blocked on a tunnel that waits for readiness |
| `SecureComms.NeitherSideReturns` | src/cloud-api-adaptor/pkg/securecomms/ppssh/ppssh.go:134-156 | between any two moments of a run neither the server, upgrading or serving, nor any client, restarted or not, returns to the attestation phase |
| `SecureComms.StoredSecretSkipsAttestation` | src/cloud-api-adaptor/pkg/securecomms/wnssh/wnssh.go:143-153 | a client that finds a stored secret connects in the Kubernetes phase before any configuration exists |
| `PeerPods.StepKeepsInv` | src/peerpod-ctrl/controllers/peerpod_controller.go:102-125 | one step keeps: every copy of a PeerPod names the instance it was created for, and pending removals are of deleted instances |
| `PeerPods.ControllerIsNeverEarly` | src/peerpod-ctrl/controllers/peerpod_controller.go:102-125 | the controller removes a finalizer only after its delete of that PeerPod's instance succeeded, although it works on cached copies |
| `PeerPods.RemovalNeedsUnchangedObject` | src/peerpod-ctrl/controllers/peerpod_controller.go:117-122 | in every run, the controller removes a finalizer exactly if the store still holds, field by field, the copy whose instance it has deleted |
| `PeerPods.ReconcileCleansUp` | src/peerpod-ctrl/controllers/peerpod_controller.go:102-125 | from any reachable state the controller can clean up a PeerPod that is being deleted: its instance is deleted, the object goes, and nothing else changes |
| `PeerPods.StartVMPostsPeerPod` | src/cloud-api-adaptor/pkg/adaptor/k8sops/peerpod.go:95-112 | an undisturbed StartVM leaves a sandbox with its instance, and a PeerPod with a finalizer that names the pod and that instance |
| `PeerPods.StopVMReleasesPeerPod` | src/cloud-api-adaptor/pkg/adaptor/k8sops/peerpod.go:115-135 | an undisturbed StopVM of a sandbox whose pod is mapped to its PeerPod deletes the instance and releases that PeerPod and no other |
| `PeerPods.UnfoundReleaseKeepsPeerPods` | src/cloud-api-adaptor/pkg/adaptor/k8sops/peerpod.go:115-131 | a release that does not find its pod, or whose patch is not applied, changes no object and keeps the mapping |
| `PeerPods.RestartForgetsOwners` | src/cloud-api-adaptor/pkg/adaptor/k8sops/peerpod.go:115-126 | a sandbox created and stopped after a restart of the adaptor releases nothing |
| `PeerPods.FinalizersOutliveInstances` | src/cloud-api-adaptor/pkg/adaptor/cloud/cloud.go:374-484 | in every run without a hazard finalizers go only after a successful delete of the instance, however calls overlap, answers are lost and processes restart; a hazard is a StopVM that deletes while its pod is mapped to the unreleased PeerPod of another live instance, or a StartVM that maps such a PeerPod between the delete and the release of a StopVM |
| `PeerPods.StepIsSafeExactly` | src/cloud-api-adaptor/pkg/adaptor/k8sops/peerpod.go:95-135 | at any moment of such a run, a step can lead to an early release if and only if it is a hazard |
| `PeerPods.FailedPostReleasesLiveInstance` | src/cloud-api-adaptor/pkg/adaptor/k8sops/peerpod.go:95-112 | a run of sequential calls on one sandbox at a time in which a failed creation makes a live instance lose its finalizer |
| `PeerPods.UnstartedStopReleasesLiveInstance` | src/cloud-api-adaptor/pkg/adaptor/cloud/cloud.go:476-482 | the same through stopping a sandbox that was never started |
| `PeerPods.SweepIsExact` | src/peerpod-ctrl/controllers/peerpod_controller.go:79-100 | the sweep marks, or without finalizer removes, exactly the listed PeerPods of the same owner, with another name and a strictly earlier creation, whose delete goes through |
| `PeerPods.SweepHitsOlderSiblingsExactly` | src/peerpod-ctrl/controllers/peerpod_controller.go:79-100 | in every run, however stale the copies: a sweep deletes a PeerPod exactly if it has listed it, the request arrives, and the two PeerPods, as created, have one owner, different names and the swept one an earlier creation |
| `PeerPods.SweepSparesNewest` | src/peerpod-ctrl/controllers/peerpod_controller.go:180-184 | in every run, whatever copies it works on, a sweep leaves the newest PeerPod ever created for an owner untouched |
| `PeerPods.SweepMarksOlderSiblings` | src/peerpod-ctrl/controllers/peerpod_controller.go:91-98 | an error-free sweep marks, or removes, every listed PeerPod of the same owner, with another name and a strictly earlier creation |
| `PeerPods.SweepOld` | src/peerpod-ctrl/controllers/peerpod_controller.go:91-98 | the sweep loop computes the specified store: every PeerPod is marked, removed or kept as SweepIsExact says |
| `Iptables.Table.Setup` | src/cloud-api-adaptor/pkg/podnetwork/tunneler/vxlan/iptables.go:62-103 | the set-up loop computes its specification and no command fails |
| `Iptables.Table.Teardown` | src/cloud-api-adaptor/pkg/podnetwork/tunneler/vxlan/iptables.go:105-149 | the teardown loop computes its specification, stopping at the first failing command |
| `Iptables.SetupReflects` | src/cloud-api-adaptor/pkg/podnetwork/tunneler/vxlan/iptables.go:77-98 | set-up adds its two rules; each chain and its single jump exist |
| `Iptables.TeardownReflects` | src/cloud-api-adaptor/pkg/podnetwork/tunneler/vxlan/iptables.go:121-145 | teardown succeeds, removes its two rules, and with the last rule the chain and its jump |
| `Iptables.TeardownUndoesSetup` | src/cloud-api-adaptor/pkg/podnetwork/tunneler/vxlan/iptables.go:62-149 | set-up followed by teardown restores every chain of the table |
| `Iptables.SetupTwiceIsOnce` | src/cloud-api-adaptor/pkg/podnetwork/tunneler/vxlan/iptables.go:77-98 | setting up an entry that is there already changes nothing |
| `Vxlan.NoTrackMatchesExactly` | src/cloud-api-adaptor/pkg/podnetwork/tunneler/vxlan/iptables.go:30-57 | the rule of each direction matches exactly the UDP packets to the port of the tunnel that go to its address (output) or come from it (prerouting) |
| `Vxlan.TunnelPacketsAreUntracked` | src/cloud-api-adaptor/pkg/podnetwork/tunneler/vxlan/iptables.go:30-149 | over every run: an outgoing packet is taken off connection tracking, through the base chain OUTPUT, exactly if it is a UDP packet to the address and port of a live tunnel, and an incoming one, through PREROUTING, exactly if it is one from the address of a live tunnel to its port |
| `Vxlan.UnknownTeardownFails` | src/cloud-api-adaptor/pkg/podnetwork/tunneler/vxlan/iptables.go:105-149 | the teardown of a tunnel that is not live fails and changes nothing |
| `Vxlan.RulesTellTunnelsApart` | src/cloud-api-adaptor/pkg/podnetwork/tunneler/vxlan/iptables.go:30-57 | tunnels with different VNIs have different rules, through the printed comment |
| `Vxlan.TeardownUndoesSetup` | src/cloud-api-adaptor/pkg/podnetwork/tunneler/vxlan/iptables.go:62-149 | set-up and teardown of a tunnel with a fresh VNI restore the table, whatever tunnels are live |
| `Vxlan.PodIndex.Get` | src/cloud-api-adaptor/pkg/podnetwork/workernode.go:37-44 | each call returns the count of earlier calls |
| `Vxlan.Inspect` | src/cloud-api-adaptor/pkg/podnetwork/tunneler/vxlan/workernode.go:33-39 | the VNI is the minimum plus the next index |
| `Vxlan.VnisAreDistinct` | src/cloud-api-adaptor/pkg/podnetwork/tunneler/vxlan/workernode.go:33-39 | over every run, the VNIs of all pods inspected are pairwise distinct, live tunnels use them, and they fit 24 bits (section 5 of RFC 7348) if and only if minimum and number of pods leave room |
| `Vxlan.TablesReflectTunnels` | src/cloud-api-adaptor/pkg/podnetwork/tunneler/vxlan/iptables.go:30-149 | over every sequence of set-ups, teardowns and foreign edits: chains and single jumps exist exactly while a tunnel is live, chains hold exactly the live tunnels' rules, every teardown succeeds |

## Left out

- NoAddressHeldTwice: needs the condition that `UseStaysLeasedExactly` and `UnsparedAddressCanBeShared` show to
  be exact.
- OneManagerIsExclusive: needs that no write lands late and no recovery after a failed read finds an address in
  use; see `LateWriteSharesMachine` and `ForgettingManagerSharesMachine`.
- AllocateRunGrantsOneLease: for operations during which no other manager writes; `AllocateRunKeepsPartition`
  and, through `AllocateIsRun`, the runs of `PoolProtocol` cover the others.
- AllocationIDsDiffer: for sandbox IDs without a dash, as container runtimes make them.
- StatusFollowsChain: needs the condition that `LinkIsSkippedExactly` shows to be exact.
- StagedContextIsReal: needs the condition that `ContextIsFakedExactly` shows to be exact.
- FinalizersOutliveInstances: needs the condition that `StepIsSafeExactly` shows to be exact.
- ParsePrintExactly: the text form of addresses is a parameter that must be faithful, as the Go library
  promises; IPv6 zones are not modelled.
- PickFailsExactlyIfNothingFits: needs a list on which the search is a best fit; `SearchIsBestFitExactly` says when.
- NoTrackMatchesExactly: compares addresses as texts, and covers the options that the rules use.
- SelectedTypeCoversPod: the announced CPUs and bytes must fit 64-bit integers; see
  `OversizedMemoryIsIgnored`.  How the library wraps CPU totals beyond 64 bits is not modelled.
- The cloud SDK providers: they appear only as creations and deletions that may fail.
- Instance IDs of the machine pool are addresses and are reused; `PeerPods` assumes that no instance ID and no
  PeerPod name is used twice, and identifies pods by UID instead of looking their name up again.
- The sort behind `SortInstanceTypesOnResources`: only its order is modelled.
- Pods without containers, which the API server refuses and on which the webhook would crash.
- The text of a GPU quantity is a parameter of the webhook model.
- CSI DeleteVolume with re-creation of the object, and the volume-name check of NodePublishVolume.
- Work-queue bookkeeping of the PeerpodVolume controller: handlers may run on any delivered version at any time.
- Tag syntax, SSH authentication and host keys, KBS requests: connections between any two phases are allowed,
  and the phase check alone keeps them apart; `AddTags` is one step.
- Removal of the peer-pod secret when a pod ends.
- VXLAN devices, network namespaces and tc filters; set-up or teardown of a tunnel that fails half-way through
  its device operations; rules for IPv6 destinations, which the IPv4 table refuses.
- The length of waiting times and the deletion of the ConfigMap by an administrator.
- Cloud-config generation, certificates, redaction, logging, flags and pass-through CSI methods.
