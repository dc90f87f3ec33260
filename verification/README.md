# Verified core of Uncloud

Uncloud runs services on a small cluster of machines without a central control
plane. This project models the parts of it where a mistake is hard to see by
reading and proves what they are there for:

* the quorum lease of `pkg/distlock`, over every run of any number of lockers,
  nodes and lease attempts with drifting clocks (`LeaseStore`, `LeaseProtocol`,
  `LeaseSafety`, `LeaseCleanup`, `LeaseRounds`, `LeaseWitness`);
* the log merger of `pkg/client` and the machine side that feeds it, over every
  interleaving of stream events (`LogEntries`, `LogMerger`, `LogMergerFlow`,
  `LogMergerOrder`, `LogMergerProgress`, `LogMergerHistory`, `LogMergerWitness`,
  `LogSender`);
* subnet allocation and machine registration (`Ipam`, `Registration`);
* the port specification printer and parser and the comparison of port lists
  (`PortSpec`, `PortGrammar`, with `TextOps` and `Sorting`);
* the resuming change stream of `internal/corrosion` (`Subscription`);
* shell quoting, the closure of build contexts and the generated Caddyfile
  (`ShellQuote`, `BuildContexts`, `Caddyfile`).

`Collections` holds what several of them need about optional values and collections.

State that the program updates in place is held in classes (`MemoryStore`,
`Merger`, `IPAM`, `Cluster`, `Subscriber`) whose methods are proved against
functions or transition relations; the theorems over whole runs are about those
functions and relations. `dafny verify dfyconfig.toml` checks the whole project.

## Premises of the lease theorems

* The node set of a lock group is fixed and has no duplicates, and a store does
  not restart (`pkg/distlock/node.go`, `pkg/distlock/memory.go`).
* Tokens are unique per attempt.
* Clocks never move back, and no node's clock runs more than 1/(1-f) times as
  fast as the clock of a locker whose drift factor is f. Lockers may differ in
  lease duration and drift factor.
* A call goes out only if its context is live, and its answer may be lost before or
  after it took effect. A call that its caller has given up may land on the node at
  any later time, and more than once: cover, mutual exclusion and monotone validity
  hold in all such runs. Only the theorem that a released token does not come back
  needs more, and it says what: no acquire of the attempt lands late on that node
  while the resource is free there. `GoneWhileHarmless` shows that this is exact.
* The caller's context may end at any moment, so an acquisition may be given up
  at any moment.

Time is a real number, durations are whole nanoseconds, and the drift is an exact
product rounded up.

## Where the code does less than one might expect

* `IPAM.AllocateSubnet` looks at two addresses of the prefix it is given. For a
  prefix that is not masked the block is inside the network exactly when it is
  no larger than the network; `UnmaskedCounterexample` names one that is not.
* A hostname passes validation with ':' or '@' in it. The text form of a valid
  port specification reads back exactly when the hostname has at most one '@' and,
  without a published port, no ':'; `ColonCounterexample` names one that does not,
  and `UnstableText` a text that the parser accepts and does not get back.
* A change ID that wraps round to 0 counts as unknown, so the change after it is
  accepted whatever its ID is (`WrapLosesTrack`). Every other change must follow
  the one before it.
* A selection of services with duplicates can stop the closure of build contexts
  early. `IncludeAdditionalContextsServices` states exactly when the result is the
  closure, and `DuplicatesStopEarly` gives a project where it is not.
* When the watermark is recomputed and every stream is closed or stalled, it stays
  where it was, and an entry can then wait although the only open stream is its own;
  `WaitsForItself` is such a run. `WaitsExactlyForActive` gives the exact condition,
  and `NothingReadyWaits` the theorem for runs in which some stream was active at each
  recomputation.
* An error or a log without a timestamp clears the stall mark of its stream without
  recomputing the watermark, which can then be ahead of that stream; `RevivalIsCurrent`
  says exactly when it is.

## Model

| member | source | states |
|---|---|---|
| `LeaseStore.MemoryStore.constructor` | pkg/distlock/memory.go:23-29 | a new store holds no lease |
| `LeaseStore.MemoryStore.Acquire` | pkg/distlock/memory.go:31-55 | refused calls change nothing and are exactly those with a finished context, empty arguments or a non-positive TTL; otherwise the call succeeds exactly if nobody holds the resource, and then the caller holds it for exactly the TTL; no other resource changes |
| `LeaseStore.MemoryStore.Renew` | pkg/distlock/memory.go:57-87 | succeeds exactly if the token holds the resource, and then it has a full TTL from now; another holder loses nothing, and what has expired is deleted |
| `LeaseStore.MemoryStore.Release` | pkg/distlock/memory.go:89-116 | succeeds exactly if the token holds the resource, which is then free; another holder loses nothing, and what has expired is deleted |
| `LeaseStore.AcquireExactly` | pkg/distlock/memory.go:44-54 | an acquire is granted exactly if nobody holds the resource |
| `LeaseStore.RenewExactly` | pkg/distlock/memory.go:70-86 | a renewal is granted exactly to the holder, who then has a full TTL |
| `LeaseStore.ReleaseExactly` | pkg/distlock/memory.go:100-115 | a release is granted exactly to the holder, and takes nothing from anyone else |
| `LeaseStore.MemoryStore.ValidateInput` | pkg/distlock/memory.go:118-139 | accepts exactly live contexts with a resource, a token and a positive TTL, and names what is wrong otherwise |
| `LeaseProtocol.Ceil` | pkg/distlock/locker.go:45-47 | the drift is rounded up, by less than one nanosecond |
| `LeaseSafety.ValidityBound` | pkg/distlock/locker.go:45-47 | the validity is at most (1-f) of the lease duration and gives up less than a nanosecond more than that |
| `LeaseSafety.QuorumsMeet` | pkg/distlock/locker.go:161-173 | any two quorums of the node set share a node |
| `LeaseSafety.CoverIsLive` | pkg/distlock/memory.go:44-48 | an entry that covers a deadline still ahead on the locker's clock has not expired on the node's clock |
| `LeaseSafety.CoverSurvivesTick` | pkg/distlock/locker.go:33-35 | cover survives the passing of time as long as the node's clock keeps within 1/(1-f) of the locker's |
| `LeaseSafety.InitInv` | pkg/distlock/memory.go:23-29 | empty stores satisfy the protocol invariant |
| `LeaseSafety.BeginInv` | pkg/distlock/locker.go:232-235 | starting an attempt with a fresh token keeps the invariant |
| `LeaseSafety.ActKeepsControl` | pkg/distlock/locker.go:232-393 | every step of an attempt keeps its control state sound: who holds the operation mutex, that ended attempts are cancelled, and that a renewed validity is never earlier than the current one |
| `LeaseSafety.ActKeepsCover` | pkg/distlock/locker.go:251-285 | reporting or adopting a quorum of answers means a quorum of nodes covers the lease until the validity counted from the start of the round; lost answers and retries keep that |
| `LeaseSafety.EffectKeepsCovers` | pkg/distlock/memory.go:31-116 | whatever call takes effect on a node, a live lease of another attempt is untouched, and the caller's own is not shortened below its validity unless it is a release |
| `LeaseSafety.EffectCovers` | pkg/distlock/memory.go:50-54 | a granted acquire or renew covers a full validity whenever it happens after the round started |
| `LeaseSafety.GrantEffect` | pkg/distlock/locker.go:245-249 | an acquire or renew call of the current round that takes effect keeps the cover the round promises |
| `LeaseSafety.EffectKeepsLease` | pkg/distlock/node.go:18-21 | whenever a call lands, in time or after its caller gave it up, once or again, every attempt keeps its cover |
| `LeaseSafety.LateInv` | pkg/distlock/node.go:18-21 | a call landing late on any node keeps the invariant of every attempt |
| `LeaseSafety.EffectTokens` | pkg/distlock/memory.go:50-54 | nodes only ever hold tokens of attempts that began, under the attempt's resource |
| `LeaseSafety.TickInv` | pkg/distlock/locker.go:33-35 | the passing of time keeps the invariant of every attempt |
| `LeaseSafety.EffectInv` | pkg/distlock/memory.go:31-116 | a call taking effect keeps the invariant of every attempt |
| `LeaseSafety.StepInv` | pkg/distlock/locker.go:231-393 | every step of the system, late calls included, keeps the invariant |
| `LeaseSafety.RunInv` | pkg/distlock/locker.go:231-393 | the invariant holds in every state of every run |
| `LeaseSafety.HeldLeaseIsCovered` | pkg/distlock/locker.go:311-393 | while a lease is held, and whatever calls land late, a quorum of nodes has a live entry with its token that runs at least as long as the remaining validity requires |
| `LeaseSafety.MutualExclusion` | pkg/distlock/locker.go:231-393 | in every state of every run, late calls included, two different attempts never both hold the same resource |
| `LeaseSafety.ValidityNeverDecreases` | pkg/distlock/locker.go:311-342 | the validity of an attempt never moves back over a run |
| `LeaseCleanup.EffectKeepsWithout` | pkg/distlock/memory.go:31-116 | only an acquire with the very token, finding the resource free, puts a token on a node that does not have it |
| `LeaseCleanup.TookIsCleaned` | pkg/distlock/locker.go:303-306 | a release that took effect leaves the node without the token, and no call of a round is left that could bring it back |
| `LeaseCleanup.CleanedStays` | pkg/distlock/locker.go:288-308 | after cleanup no step brings the token back, including an acquisition that takes the mutex only after the release, unless a late acquire lands where the resource is free |
| `LeaseCleanup.HarmfulBringsBack` | pkg/distlock/memory.go:46-54 | such a late acquire does bring the token back |
| `LeaseCleanup.GoneWhileHarmless` | pkg/distlock/locker.go:288-308 | after a release took effect on a node the token stays away from it if and only if no acquire of the attempt lands there late while the resource is free |
| `LeaseCleanup.AnswerHasEffect` | pkg/distlock/locker.go:303-307 | a release answered without error took effect earlier in the run |
| `LeaseCleanup.NoResurrection` | pkg/distlock/locker.go:232-308 | once a node has answered an attempt's release without error, the token is absent from that node in every later state, if no acquire that its caller gave up lands there while the resource is free |
| `LeaseWitness.MajorityIsQuorum` | pkg/distlock/locker.go:171-171 | a set of nodes reaches the quorum exactly if it is more than half of them |
| `LeaseWitness.LeaseCanBeHeld` | pkg/distlock/locker.go:232-286 | in every world, for any majority of the nodes, there is a run in which the lease is held although no other node was ever heard of |
| `LeaseWitness.LeaseCanBeRenewed` | pkg/distlock/locker.go:311-393 | at any time of its validity a held lease can be renewed by any majority: it is held before and after, and its validity grows by the time that has passed |
| `LeaseWitness.LeaseCanBeReleased` | pkg/distlock/locker.go:181-193 | a held lease can be given up, and then no node has it |
| `LeaseRounds.AwaitQuorum` | pkg/distlock/locker.go:251-269 | in whatever order results arrive, success is reported exactly if a quorum succeeds and at the result that completes it |
| `LeaseRounds.CollectNodeResults` | pkg/distlock/locker.go:200-210 | counts the successful nodes and collects exactly the failed calls, for every order of arrival |
| `LogMerger.Merger.constructor` | pkg/client/logmerger.go:52-69 | starts in the initial state of the transition system |
| `LogMerger.Merger.UpdateWatermark` | pkg/client/logmerger.go:262-275 | the watermark becomes the least timestamp seen among active streams, and stays if there are none |
| `LogMerger.Merger.Smallest` | pkg/client/logmerger.go:299-301 | finds an entry no later than any other queued one |
| `LogMerger.Merger.Pop` | pkg/client/logmerger.go:284-289 | removes one earliest entry from the queue and outputs it |
| `LogMerger.Merger.PopWhile` | pkg/client/logmerger.go:284-289 | outputs, in order, exactly the queued entries up to the bound |
| `LogMerger.StaysBelow` | pkg/client/logmerger.go:284-289 | moving an earliest entry to the output keeps the output sorted and below the queue |
| `LogMerger.Merger.EmitReadyEntries` | pkg/client/logmerger.go:278-290 | drains the queue up to the watermark, frees the slots of what it sent and remembers the last timestamp; does nothing before the first watermark |
| `LogMerger.Merger.SettleNow` | pkg/client/logmerger.go:199-200 | the new watermark and the drain to it are one settling step |
| `LogMerger.Merger.ReadOne` | pkg/client/logmerger.go:124-127 | a reader that takes a slot and hands over an entry is a step of the system |
| `LogMerger.Merger.Arrive` | pkg/client/logmerger.go:162-168 | any event refreshes activity, clears the stall mark and keeps the first metadata |
| `LogMerger.Merger.DeliverOne` | pkg/client/logmerger.go:162-214 | handling an error, log or heartbeat is a step of the system |
| `LogMerger.Merger.Place` | pkg/client/logmerger.go:185-214 | a timestamped log is queued, a heartbeat noted, and the merger settled; a heartbeat may then send one of its own |
| `LogMerger.Merger.BeatNow` | pkg/client/logmerger.go:205-214 | sends a heartbeat at the watermark if an interval has passed, and frees the slot in any case |
| `LogMerger.Merger.CloseOne` | pkg/client/logmerger.go:170-176 | closing a stream is a step of the system |
| `LogMerger.Merger.CheckStalledStreams` | pkg/client/logmerger.go:243-259 | exactly the streams that were marked, or are open and were silent for longer than the timeout, are marked afterwards |
| `LogMerger.Merger.StallTick` | pkg/client/logmerger.go:216-237 | a stall check, with one notice per newly stalled stream, is a step of the system |
| `LogMerger.Merger.FlushAll` | pkg/client/logmerger.go:152-160 | when all streams are closed the rest of the queue goes out in order |
| `LogMergerFlow.StepFlow` | pkg/client/logmerger.go:120-239 | every event keeps the books of every stream: slots equal entries in flight, and entries read equal entries queued plus entries sent |
| `LogMergerFlow.StepTidy` | pkg/client/logmerger.go:178-290 | after every event all queued entries are strictly newer than the watermark, no newer than what their stream was seen at, and heartbeats are an interval apart from what precedes them |
| `LogMergerFlow.SendFlow` | pkg/client/logmerger.go:284-289 | sending queued entries frees exactly their slots and loses none |
| `LogMergerFlow.OfOriginPermutes` | pkg/client/logmerger.go:292-317 | however the heap reorders entries, each stream keeps the same entries, each as often |
| `LogMergerFlow.RunFlow` | pkg/client/logmerger.go:114-239 | the books balance in every state of every run |
| `LogMergerFlow.StepGenuine` | pkg/client/logmerger.go:149-239 | no event outputs anything but entries of its streams, stall notices about its streams and heartbeats |
| `LogMergerFlow.RunGenuine` | pkg/client/logmerger.go:114-239 | in every reachable state everything on the output came from a stream, or is a heartbeat or a stall notice of a stream |
| `LogMergerFlow.Conservation` | pkg/client/logmerger.go:114-239 | when the output closes, every log and error read from an input was output exactly once, there is one stall notice per stall, and nothing else is on the output but the merger's heartbeats |
| `LogMergerFlow.HeartbeatsAreDebounced` | pkg/client/logmerger.go:202-214 | a heartbeat of the merger is at least 200 ms later than the last timestamped entry before it |
| `LogMergerFlow.BoundedBuffering` | pkg/client/logmerger.go:120-132 | in every reachable state at most 100 entries per stream are in flight and the queue holds at most 100 per stream |
| `LogMergerFlow.NoSelfBlocking` | pkg/client/logmerger.go:262-290 | in every reachable state a stream with a queued entry has been seen beyond the watermark, so it is not the one holding it back |
| `LogMergerFlow.SlowestIsNotThrottled` | pkg/client/logmerger.go:120-132 | a stream that has not been seen past the watermark has nothing queued and at most one slot taken, so its reader is never the one that waits for a slot |
| `LogMergerOrder.StepOrder` | pkg/client/logmerger.go:149-290 | every event keeps the output behind every reliable stream and behind every queued entry of a stream that is in order, except after stalls |
| `LogMergerOrder.EnqueueOrder` | pkg/client/logmerger.go:185-197 | an entry from an ordered stream that never stalled is queued no earlier than anything already sent |
| `LogMergerOrder.SettleOrder` | pkg/client/logmerger.go:199-200 | draining to the watermark keeps the output in order with the queue and with every reliable stream |
| `LogMergerOrder.BeatOrder` | pkg/client/logmerger.go:202-214 | a heartbeat at the watermark is no later than anything that can still be sent from reliable streams |
| `LogMergerOrder.RunOrder` | pkg/client/logmerger.go:149-290 | the order invariant of a stream holds in every state of every run in which that stream is in order, whatever the others send |
| `LogMergerOrder.StepExtends` | pkg/client/logmerger.go:149-239 | inputs read, stall counts and output only grow |
| `LogMergerOrder.DisorderNeedsStall` | pkg/client/logmerger.go:162-165 | if a timestamped log of an ordered stream is output after something later, its stream had been marked stalled before it arrived; other streams need not be in order |
| `LogMergerOrder.MergeIsOrdered` | pkg/client/logmerger.go:149-290 | ordered inputs and no stalls give an ordered output for every interleaving, final flush included |
| `LogMergerOrder.NestedMergeIsOrdered` | cmd/uc/service/logs.go:165-172 | any tree of mergers over ordered sources, without stalls, has an ordered output |
| `LogMergerProgress.HeartbeatsAreTimely` | pkg/client/logmerger.go:202-214 | after any input heartbeat the output's last timestamp is less than 200 ms behind the watermark |
| `LogMergerProgress.SettlingBacked` | pkg/client/logmerger.go:262-275 | a recomputed watermark is the timestamp of an active stream exactly if there is one |
| `LogMergerProgress.RunBacked` | pkg/client/logmerger.go:262-275 | the watermark stays the timestamp of some active stream over every part of a run in which no recomputation found all streams closed or stalled |
| `LogMergerProgress.RunCurrent` | pkg/client/logmerger.go:262-275 | with any stalls, the watermark is the least timestamp an active stream has reached, unless a stalled stream came back with an entry that is not queued |
| `LogMergerProgress.RevivalIsCurrent` | pkg/client/logmerger.go:162-194 | when one does, the watermark is still the least exactly if that stream is not behind it |
| `LogMergerProgress.NothingReadyWaits` | pkg/client/logmerger.go:278-290 | a queued entry is held back only by another active stream that has not been seen past it, in every part of a run in which each recomputation of the watermark found an active stream |
| `LogMergerProgress.WaitsExactlyForActive` | pkg/client/logmerger.go:262-290 | in every run, after the watermark was recomputed, a queued entry has an active stream behind it if and only if some stream is active |
| `LogMergerHistory.StepRemembers` | pkg/client/logmerger.go:162-176 | what one event does to the loop's memory of a stream: an event of the stream refreshes it, a stall check marks it only if it is open, unmarked and too quiet, and nothing else touches it |
| `LogMergerHistory.RunHistory` | pkg/client/logmerger.go:149-239 | in every reachable state the last activity, the end, the stall mark and the metadata of a stream are what the events so far tell |
| `LogMergerHistory.NoticesAreExact` | pkg/client/logmerger.go:216-259 | a step adds a notice about a stream if and only if it is a stall check and the stream is open, not reported since it was last heard of, and was last heard of more than the timeout ago; and then it adds one |
| `LogMergerHistory.LastHeardIs` | pkg/client/logmerger.go:162-162 | a stream was last heard of at its latest event, or at the start if it had none |
| `LogMergerHistory.OverdueMeansSilent` | pkg/client/logmerger.go:247-256 | with a clock that does not go back, an overdue stream is one every event of which is more than the timeout in the past |
| `LogMergerHistory.NoticeCarriesMeta` | pkg/client/logmerger.go:222-233 | the notice about a stream carries the metadata of the stream's first event |
| `LogMergerHistory.UnplacedPassAtOnce` | pkg/client/logmerger.go:178-195 | an error or a log without a timestamp is output at once, alone |
| `LogMergerHistory.HeartbeatsAnswerHeartbeats` | pkg/client/logmerger.go:205-211 | a heartbeat is output only when one is delivered, with its metadata and at the watermark |
| `LogMergerHistory.SeenIsLargest` | pkg/client/logmerger.go:185-187 | a stream has been seen exactly up to the largest timestamp it delivered |
| `LogMergerWitness.WaitsForItself` | pkg/client/logmerger.go:262-275 | a run in which a log stays queued although the only open stream is its own |
| `LogSender.SendLoop` | internal/machine/machine.go:1435-1483 | sends what the event handling prescribes up to the end of the stream, and no heartbeat is earlier than its predecessor |
| `LogSender.HeartbeatsFollow` | internal/machine/machine.go:1460-1478 | the recorded time is that of the last thing sent, and no heartbeat goes back in time |
| `LogSender.TickLeavesNoSilence` | internal/machine/machine.go:1460-1478 | after a tick the receiver has something at most one interval old, unless the stream itself is younger than that |
| `LogSender.HeartbeatExactly` | internal/machine/machine.go:1460-1478 | a tick sends a heartbeat exactly if an interval has passed since the last thing sent and, while that has no timestamp, since the start |
| `LogSender.FirstHeartbeatIsAfterStart` | internal/machine/machine.go:1463-1464 | while nothing with a timestamp has been sent, no heartbeat is stamped before the stream started |
| `LogSender.SenderSound` | internal/machine/machine.go:1435-1483 | for a timely source everything sent is in order and no later than anything that can still arrive |
| `LogSender.TimelySourceIsOrdered` | internal/machine/machine.go:1468-1478 | if source logs are in order, have timestamps and are handled within 200 ms, the stream is an ordered merger input |
| `LogSender.EveryLogIsSent` | internal/machine/machine.go:1440-1458 | the logs go out once each, in order of arrival, with only heartbeats added |
| `Ipam.OverlapMeansShared` | internal/machine/cluster/ipam.go:55-58 | prefixes overlap exactly when they have an address in common |
| `Ipam.NetworkIsBlocks` | internal/machine/cluster/ipam.go:49-62 | a network is exactly its aligned blocks one after the other and ends inside the address space |
| `Ipam.BlockIsAligned` | internal/machine/cluster/ipam.go:49-62 | every block is a masked prefix inside the network |
| `Ipam.BlocksDisjoint` | internal/machine/cluster/ipam.go:60-61 | two blocks overlap only if they are the same |
| `Ipam.EveryAlignedIsBlock` | internal/machine/cluster/ipam.go:49-62 | every masked prefix of the length inside the network is one of the blocks the loop visits |
| `Ipam.FirstFree` | internal/machine/cluster/ipam.go:50-64 | the answer is a free block with every earlier one taken, and there is none only if all are taken |
| `Ipam.FirstFitIsLowestFree` | internal/machine/cluster/ipam.go:44-65 | first fit gives the lowest aligned block that overlaps nothing allocated, and fails only if every aligned block overlaps something |
| `Ipam.IPAM.constructor` | internal/machine/cluster/ipam.go:25-27 | starts with the masked network and nothing allocated |
| `Ipam.IPAM.OverlapsPrefix` | internal/machine/cluster/ipam.go:55-55 | tells whether the prefix overlaps anything allocated |
| `Ipam.IPAM.FindSubnet` | internal/machine/cluster/ipam.go:49-64 | the loop answers with first fit and terminates even if the network ends at the top of the address space |
| `Ipam.IPAM.AllocateSubnetLen` | internal/machine/cluster/ipam.go:44-65 | answers with first fit and records it, and leaves the set alone on failure |
| `Ipam.IPAM.NextAddr` | internal/machine/cluster/ipam.go:60-61 | the address after a block is the next block's, or there is none and the block was the last |
| `Ipam.IPAM.AllocateSubnet` | internal/machine/cluster/ipam.go:67-81 | reserves exactly what is inside the network and free, with the error that applies otherwise |
| `Ipam.NewIPAM` | internal/machine/cluster/ipam.go:21-28 | fails exactly for an invalid network or one of length 0 |
| `Ipam.NewIPAMWithAllocated` | internal/machine/cluster/ipam.go:31-42 | succeeds exactly if each subnet can be reserved after the ones before it, and then holds all of them |
| `Ipam.ReservedIsInside` | internal/machine/cluster/ipam.go:67-71 | a reserved prefix lies inside the network exactly when it is no larger than the network, which a masked one always is |
| `Ipam.UnmaskedCounterexample` | internal/machine/cluster/ipam.go:67-71 | an unmasked prefix larger than the network is accepted |
| `Ipam.FreshNetworkYieldsAll` | internal/machine/cluster/ipam.go:44-65 | a fresh /n network yields exactly 2^(b-n) subnets of length b, in address order |
| `Ipam.MaskKeepsBlock` | internal/machine/cluster/ipam.go:25-27 | masking a network keeps its addresses |
| `Registration.InputRefusal` | internal/machine/cluster/cluster.go:90-107 | a request passes exactly if its network is set and well formed, has endpoints, and its public IP is valid; otherwise the first fault is named |
| `Registration.FirstClash` | internal/machine/cluster/cluster.go:114-131 | there is no clash exactly if no stored machine has the requested name, management IP or public key |
| `Registration.ClashNamesFirst` | internal/machine/cluster/cluster.go:114-131 | the refusal names what the request shares with the first machine it shares anything with |
| `Registration.SoundTableRebuilds` | internal/machine/cluster/cluster.go:154-157 | the allocator can always be rebuilt from a sound table |
| `Registration.AddKeepsSound` | internal/machine/cluster/cluster.go:109-176 | adding a machine keeps subnets masked, inside the network and disjoint, and keys and IDs distinct |
| `Registration.RemoveKeepsSound` | internal/machine/cluster/cluster.go:245-270 | removing a machine keeps the table sound |
| `Registration.Cluster.constructor` | internal/machine/cluster/cluster.go:50-64 | starts with the given network and an empty, sound table |
| `Registration.Cluster.AddMachine` | internal/machine/cluster/cluster.go:87-184 | answers every request as specified, stores the machine exactly on success, under the requested name, management IP and key, and keeps a sound table sound |
| `Registration.AddedAsRequested` | internal/machine/cluster/cluster.go:135-173 | a machine that is added has the requested name, management IP and key, a generated name or derived address only if none was requested, and a subnet of 24 bits |
| `Registration.StoredUntilRemoved` | internal/machine/store/store.go:119-131 | over every run a stored machine stays stored until its ID is removed |
| `Registration.AddedIsReserved` | internal/machine/cluster/cluster.go:113-133 | over every run, from the addition of a machine until its ID is removed, an otherwise valid request with the name, management IP or key it was added under is refused |
| `Registration.RemovedIsGone` | internal/machine/store/store.go:253-264 | after a removal no machine has the ID |
| `Registration.Cluster.ScanMachines` | internal/machine/cluster/cluster.go:113-133 | finds the first clash, or collects the subnets of all machines |
| `Registration.Cluster.CreateMachine` | internal/machine/store/store.go:119-131 | inserts the row exactly if the ID is new |
| `Registration.Cluster.RemoveMachine` | internal/machine/cluster/cluster.go:245-270 | removes exactly the machine with the ID, says whether there was one, and keeps a sound table sound |
| `Registration.WithoutShrinks` | internal/machine/store/store.go:253-264 | a delete affects a row exactly if the ID was stored |
| `Registration.RegistrationInvariant` | internal/machine/cluster/cluster.go:87-184 | over every sequence of add and remove requests on an empty store the table is sound and the allocator can be rebuilt |
| `Registration.NoSubnetOnlyWhenFull` | internal/machine/cluster/cluster.go:154-161 | in every reachable table an otherwise valid request gets a subnet exactly if some aligned block of the required length is free |
| `PortSpec.PartsAreUnique` | pkg/api/port.go:272-281 | the parts are the one list that joins to the text and has colons in the first of three parts only |
| `PortSpec.PartsRejoin` | pkg/api/port.go:272-281 | joining the parts again gives the text |
| `PortSpec.ThreeParts` | pkg/api/port.go:272-281 | before a published port the first part is recovered whole, colons included |
| `PortSpec.HostnameCut` | pkg/api/port.go:272-281 | without a published port a colon cuts the hostname in two |
| `PortSpec.TailText` | pkg/api/port.go:154-199 | container port, protocol and mode read back from the last part of every valid specification |
| `PortSpec.HostAddrText` | pkg/api/port.go:229-250 | a host address, bracketed or not, reads back |
| `PortSpec.HostPrefixText` | pkg/api/port.go:229-250 | a host prefix, bracketed or not, reads back |
| `PortSpec.IngressRoundTrip` | pkg/api/port.go:105-114 | an ingress specification reads back exactly if its hostname can be told from the ports |
| `PortSpec.HostRoundTrip` | pkg/api/port.go:115-136 | a host specification always reads back |
| `PortSpec.RoundTrip` | pkg/api/port.go:97-270 | a valid specification reads back from its text if and only if the hostname has at most one '@' and, without a published port, no ':' |
| `PortSpec.ParsedReadsBack` | pkg/api/port.go:142-270 | whatever the parser accepts is valid and is stable under writing and reading, except exactly a hostname with ':' and published port 0 |
| `PortGrammar.ParseExactly` | pkg/api/port.go:142-289 | the parser accepts a text as a specification if and only if the text has at most one '@', its parts spell the specification by the grammar of the format, defaults included, and the specification is valid |
| `PortGrammar.ShortFormLaw` | pkg/api/port.go:142-144 | the text without its protocol means the specification if and only if the full text does and the protocol is the default one: https with a hostname, tcp without |
| `PortGrammar.TextForm` | pkg/api/port.go:93-140 | the text is the hostname or address, the published port, the container port, the protocol and the mode, each written when it is set, and the protocol always |
| `PortGrammar.ValidExactly` | pkg/api/port.go:40-91 | what validation demands, in both modes |
| `PortGrammar.EndingComplete` | pkg/api/port.go:154-199 | every spelling of the last part is read as what it spells |
| `PortGrammar.EndingSound` | pkg/api/port.go:154-199 | only spellings of the last part are read |
| `PortGrammar.BracketsExactly` | pkg/api/port.go:232-240 | brackets are removed exactly from what has a colon and is bracketed from its start |
| `PortSpec.ZeroPortReadsBack` | pkg/api/port.go:223-254 | every such exception is reached: a hostname with any colons followed by port 0 is read whole |
| `PortSpec.UnstableText` | pkg/api/port.go:142-270 | `a.b:80:0:90/http` is accepted, and writing out what it means gives a text with another meaning |
| `PortSpec.ColonCounterexample` | pkg/api/port.go:64-71 | a valid specification whose text means something else |
| `PortSpec.TextIsInjective` | pkg/api/port.go:97-140 | recoverable specifications with the same text are equal |
| `PortSpec.Serialise` | pkg/api/port.go:307-321 | gives all texts, or nothing if one specification has none |
| `PortSpec.EqualBy` | pkg/api/port.go:302-327 | true exactly if all have texts and the texts are the same, each as often |
| `PortSpec.PortsEqual` | pkg/api/port.go:301-327 | for recoverable valid lists, true exactly if the lists are equal as multisets |
| `PortSpec.TextsDecide` | pkg/api/port.go:301-327 | lists of recoverable specifications have equal multisets of texts exactly if they are equal multisets |
| `Sorting.SortSorts` | pkg/api/port.go:323-324 | sorting gives an ordered permutation |
| `Sorting.SortDecides` | pkg/api/port.go:323-326 | sorted lists are equal exactly if the lists are permutations, for an order that tells elements apart |
| `Sorting.DictionaryOrder` | internal/machine/caddyconfig/caddyfile.go:123-123 | strings compare by the first character in which they differ, and a string comes after what it begins with |
| `Sorting.StringSortDecides` | pkg/api/port.go:323-326 | sorted string lists are equal exactly if they hold the same strings, each as often |
| `TextOps.ParseDecimal` | pkg/api/port.go:283-289 | a decimal number within the limit reads back |
| `TextOps.SplitConcat` | pkg/api/port.go:273-274 | splitting at a separator splits each side on its own |
| `TextOps.JoinSplit` | pkg/api/port.go:273-278 | joining what was split gives the string back |
| `Subscription.Subscriber.constructor` | internal/corrosion/subscribe.go:132-153 | starts reading after the consumed snapshot |
| `Subscription.Subscriber.HandleChangeEvents` | internal/corrosion/subscribe.go:155-214 | the goroutine goes through the states of the specified run |
| `Subscription.Subscriber.HandleOne` | internal/corrosion/subscribe.go:159-213 | one turn of the loop: accept and deliver, resubscribe from the last change, or stop with or without an error |
| `Subscription.Subscriber.RetryWithBackoff` | internal/corrosion/subscribe.go:288-313 | succeeds exactly if some attempt is accepted before any finds the subscription gone |
| `Subscription.StepSound` | internal/corrosion/subscribe.go:155-214 | every turn keeps the delivered IDs consecutive and the resubscription points right |
| `Subscription.GapFree` | internal/corrosion/subscribe.go:155-214 | from a snapshot at c > 0, for every pattern of events, errors and resubscriptions, delivered IDs are c+1, c+2, ... up to the one that wraps to 0, each later one follows the one before it unless that is 0, and each resubscription continues from the last one |
| `Subscription.EveryChangeFollows` | internal/corrosion/subscribe.go:178-190 | for every start, each delivered change follows the one before it unless that one's ID is 0 |
| `Subscription.WrapLosesTrack` | internal/corrosion/subscribe.go:178-182 | after the largest ID comes 0, and then any change is accepted |
| `Subscription.DeliveredIsLogPrefix` | internal/corrosion/subscribe.go:200-211 | if the server sends entries of its log, what is delivered is the part of the log right after c |
| `Subscription.NothingRefused` | internal/corrosion/subscribe.go:178-182 | against a server that replays from the requested change the gap check never fires |
| `Subscription.StepExactly` | internal/corrosion/subscribe.go:159-213 | an accepted change is delivered and nothing else is; the stream ends without an error exactly if it was abandoned, with one exactly if it cannot resubscribe; a resubscription goes on reading exactly if an attempt is accepted before any finds the subscription gone |
| `Subscription.RetriedMeans` | internal/corrosion/subscribe.go:292-312 | retrying succeeds exactly if some attempt is accepted and all before it may be retried |
| `Subscription.NeverCloses` | internal/corrosion/subscribe.go:191-212 | however often events go wrong, the stream does not end while the consumer takes changes and resubscriptions succeed |
| `Subscription.EveryReadIsDelivered` | internal/corrosion/subscribe.go:155-214 | then, against a server that replays from the requested change, every change that is read is delivered, up to the last one the current connection sent |
| `ShellQuote.QuoteCommand` | internal/sshexec/executor.go:35-43 | a shell reads the command as exactly the arguments, if and only if none contains a NUL |
| `ShellQuote.ReadEscaped` | internal/sshexec/executor.go:26-28 | an escaped string reads, inside single quotes, as the string itself |
| `ShellQuote.ReadQuoted` | internal/sshexec/executor.go:21-31 | a quoted argument reads as one word that is the argument, empty or not |
| `ShellQuote.QuotesOnlyWhenNeeded` | internal/sshexec/executor.go:16-31 | an argument is left as it is exactly if it is not empty and has only word characters and @%+=:,./-, and is put in single quotes otherwise |
| `ShellQuote.QuoteCommandReadsBack` | internal/sshexec/executor.go:33-43 | quoting followed by reading is the identity on argument lists without NUL, and only on those |
| `BuildContexts.AddNamed` | internal/cli/build.go:182-192 | adds exactly the services named in the build contexts of one service |
| `BuildContexts.DepsExactly` | internal/cli/build.go:182-191 | a service depends on another exactly if the project has it, enabled or else disabled, with a build that has the other as a "service:" context |
| `BuildContexts.ExtendOnce` | internal/cli/build.go:180-193 | the selection together with everything it names directly |
| `BuildContexts.ToSlice` | internal/cli/build.go:195-198 | lists a set without duplicates |
| `BuildContexts.RoundGrows` | internal/cli/build.go:194-196 | a round that adds names leaves fewer mentioned names to reach, so the recursion ends |
| `BuildContexts.ClosureOfRound` | internal/cli/build.go:194-196 | the closure of a round is the closure of the selection before it |
| `BuildContexts.ClosedRound` | internal/cli/build.go:198-198 | stopping after a round is right exactly if the round is closed |
| `BuildContexts.IncludeAdditionalContextsServices` | internal/cli/build.go:177-199 | for a selection without duplicates the result is the least closed set containing it; in general it is so exactly if the first round outgrew the selection's length or was closed |
| `BuildContexts.DuplicatesStopEarly` | internal/cli/build.go:194-198 | with a duplicate in the selection the first round can pass for the last although it is not the closure |
| `Caddyfile.LeqIsPreorder` | internal/machine/caddyconfig/caddyfile.go:120-126 | the comparison of records is a total preorder, so sorting by it is meaningful |
| `Caddyfile.HttpUpstreamsFromPorts` | internal/machine/caddyconfig/caddyfile.go:292-331 | each hostname lists exactly the upstreams of its ingress ports of that protocol, in record order |
| `Caddyfile.ServiceUpstreams` | internal/machine/caddyconfig/caddyfile.go:335-349 | each service lists exactly the addresses of its connected containers, in record order |
| `Caddyfile.HostsListPorts` | internal/machine/caddyconfig/caddyfile.go:310-321 | a hostname lists an upstream exactly as often as an ingress port of the protocol with that hostname and upstream occurs among the connected records |
| `Caddyfile.ServicesListAddresses` | internal/machine/caddyconfig/caddyfile.go:337-346 | a service lists an address exactly as often as a connected record of it has the address |
| `Caddyfile.RecordsInOrder` | internal/machine/caddyconfig/caddyfile.go:115-126 | records are ordered local machine first, then by service name, then from the oldest to the newest |
| `Caddyfile.LocalUpstreamsFirst` | internal/machine/caddyconfig/caddyfile.go:115-126 | every hostname, and every service whose upstreams user-defined configs read, lists all upstreams of the local machine before any remote one |
| `Caddyfile.Latest` | internal/machine/caddyconfig/caddyfile.go:147-154 | the most recent record among those that count, and none only if none counts |
| `Caddyfile.LatestIsFirstOfEquals` | internal/machine/caddyconfig/caddyfile.go:150-151 | of records created at the same time the first listed is taken |
| `Caddyfile.GlobalComesFromHere` | internal/machine/caddyconfig/caddyfile.go:147-154 | the global config comes from the newest caddy container of this machine |
| `Caddyfile.ConfigComesFromService` | internal/machine/caddyconfig/caddyfile.go:185-197 | a service's config comes from its newest container |
| `Caddyfile.FindLatest` | internal/machine/caddyconfig/caddyfile.go:147-154 | finds the most recent caddy container of this machine |
| `Caddyfile.LatestServiceContainers` | internal/machine/caddyconfig/caddyfile.go:188-197 | gives the most recent container of every service |
| `Caddyfile.ServicesTracked` | internal/machine/caddyconfig/caddyfile.go:202-236 | adding configs keeps the text either the base or the last candidate the validator accepted |
| `Caddyfile.TextLayout` | internal/machine/caddyconfig/caddyfile.go:156-236 | the text is the accepted global config, then the base, then the accepted configs of the services in name order, each once and with its heading |
| `Caddyfile.PlainText` | internal/machine/caddyconfig/caddyfile.go:138-141 | without user-defined configs the text is the base and nothing is offered |
| `Caddyfile.EveryConfigIsAccountedFor` | internal/machine/caddyconfig/caddyfile.go:202-236 | every config that is offered is either accepted or reported as skipped |
| `Caddyfile.BodyTellsAll` | internal/machine/caddyconfig/caddyfile.go:238-249 | the body is the text, followed by the footer or by a comment line for every skipped config |
| `Caddyfile.AddServices` | internal/machine/caddyconfig/caddyfile.go:202-236 | offers each service's config in name order and skips the caddy service and empty configs |
| `Caddyfile.AddCustom` | internal/machine/caddyconfig/caddyfile.go:143-236 | the global config comes first, then the services', and only accepted text is kept |
| `Caddyfile.OutputIsUnique` | internal/machine/caddyconfig/caddyfile.go:128-247 | the sorted records determine the output, whatever order maps are iterated in |
| `Caddyfile.SortedNames` | internal/machine/caddyconfig/caddyfile.go:198-198 | every service name once, in order, whatever order the map is iterated in |
| `Caddyfile.DraftFor` | internal/machine/caddyconfig/caddyfile.go:128-236 | the base file of the sorted records or its error, and a text that is the base or the last candidate the validator accepted |
| `Caddyfile.WithNotices` | internal/machine/caddyconfig/caddyfile.go:238-249 | the text is followed by the footer, by one comment line per skipped config, or by nothing |
| `Caddyfile.Generate` | internal/machine/caddyconfig/caddyfile.go:112-250 | the base template's error, or the body that the sorted records determine: before its error comment it is the base or the last accepted candidate |
| `Caddyfile.GenerateIgnoresOrder` | internal/machine/caddyconfig/caddyfile.go:115-126 | the result is the same for every order of the records if no two agree on local rank, service and creation time |

## Left out

- The gRPC transport, proxying and the adapter in `pkg/client/locker.go`; changes of the machine list are outside the lock's own guarantee.
- Backoff schedules, sleeps, random tokens and the defaulting of `Config`: any delay is allowed, and tokens are unique by premise.
- Floating-point rounding of the clock drift and rounding of clock readings: the drift is exact.
- Errors of `Acquire` before an attempt starts (node listing, empty cluster) and the joining of error messages.
- Log entries of unknown kind: the merger neither queues them nor frees their slot; inputs are logs, heartbeats and errors.
- Order among entries with equal timestamps, and the layout of the heap: the queue is a sequence from which some earliest entry is taken.
- The intermediate moments inside one turn of the merger's loop: an event is handled as one step, and slots freed while draining are counted at its end.
- `syncMachineInfo` and concurrent writers on different replicas: registration is about one store and sequential requests.
- Failures of the store itself, name ordering in `ListMachines`, container clean-up in `RemoveMachine`, and the readiness check.
- Unreadable stored prefixes: every stored subnet is a prefix.
- The text form of IP addresses: a printer and a parser are parameters, with the facts stated in `Printable`.
- Protocols and modes other than the known ones are one value each, since their text is only echoed in messages.
- PortSpec.Serialise: serialises one list after the other, where the source goes through both in step; the answer is the same.
- Subscriptions whose snapshot has change ID 0 or that skip rows: their starting point is not known, and draining the replayed snapshot is not modelled.
- `RetrySubscription` in `internal/corrosion/client.go`.
- Shell words that a shell treats specially after quoting is undone, such as assignments at the front of a command: only the splitting into words is modelled.
- Go templates, `net.JoinHostPort`, JSON, regular expressions, the header with its timestamp and the fingerprint cache of the Caddy controller: the base template, the renderer, the validator and the footer are parameters of the generator.
- Caddyfile.Generate: sorts a copy, where the source reorders the caller's slice in place.
- DNS, Docker, SSH connections, image push, the terminal interface, commands, configuration files, version checks and migrations.
