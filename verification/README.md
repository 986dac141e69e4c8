# Verification of proxygw

This project models the decision-making core of proxygw, a DNAT gateway, in Dafny, and proves what the
gateway promises about it. Nothing is executed: every claim is a theorem about the model.

- **Dataplane.** Groups of mappings are held in two indexes, checked for conflicts, compiled to byte-level
  keys and values, and submitted in batches to four kernel maps that four nftables rules read through a
  register file. `Net`, `Mappings`, `Encoding`, `Rules`, `Routing` and `TimeoutNames` are the pure part: the
  conflict relation, the encoders, a small interpreter for the rules, and the proof that the compiled form
  routes as the mappings say. `Kernel`, `Plane`, `PlaneProofs`, `PlaneOps` and `PlaneRuns` describe the
  operations on values and prove the invariants over every run and every sequence of flush answers.
  `PlaneAnswers` gives every operation's answer with its reason, `Headers` writes packets out field by field and
  restates the gateway's results about their fields, `PlaneFlows` follows the timeout entries, `PlaneLeaks` covers the runs in which a closing group loses its flush,
  and `TwoChains` what the timeouts chain sees of packets that the prerouting chain has rewritten.
  `Dataplane` has the classes `Connft` and `ConnftGroup`, whose methods update their fields as the source
  does and are proved equal to the functions of `Plane`. The end-to-end statement is
  `PlaneRuns.GatewayRoutes`.
- **Frontends.** `Lifecycle` is the frontend as atomic steps of callers, cancellation and event loop;
  `Frontends` is the class with those steps as methods. `Always` composes it with the loop of the `always`
  handler, and `Ownership` follows the mappings of a target's frontends through creation and shutdown.
- **Idle detection.** `Idle` says what `lastSeen` means over a run of registrations and polls and when a
  target is drained; `Engines` has the class.
- **Control protocol.** `Ipc` and `IpcPeers` are the two ends as values and as classes; `IpcRuns` runs a
  client, a server and `Serve` over a reliable link and proves correlation; `IpcDeadlock` proves the exact
  numbers of outstanding requests at which the server's read loop can block for good, while `Serve` runs and
  after it has returned, and that below the first every request is answered.

Conventions. The answer of the netlink layer to the n-th flush is a parameter (`Kernel.Oracle`), and
statements hold for every such function. Go walks maps in any order: methods choose freely and hand the order
out as a ghost result; functions take it as an argument. A critical section under a lock is one atomic step,
unless the source blocks inside it. What a packet is about (`Ipc.Packet.origin`) is carried along in the model
for the sake of the statements and never decides anything.

Assumptions about the kernel: a batch is applied entirely or not at all; adding an element under a taken key
with another value, or deleting an absent key, makes the batch fail; a register word that is loaded with fewer
bytes is filled with zeros; register 1 is the same storage as the 32-bit registers 00 to 03. Header offsets
are those of section 3.1 of RFC 791, section 3 of RFC 8200, section 3.1 of RFC 9293 and the Format section of
RFC 768.

## Where the code does less than its comments say

- pkg/dataplane/mapping.go:16-18 promises that sources and destinations are disjoint. The conflict check
  compares literal endpoints and does not expand a wildcard source, so an accepted mapping can cover its own
  destination. `Mappings.DomainDisjointFromCodomain` gives the exact condition and
  `Mappings.WildcardRoutesItsOwnDestination` an instance.
- pkg/dataplane/mapping.go:20-21 gives a wildcard source its port outright; the code does so in its own address
  family alone: `Mappings.WildcardOwnsItsFamily` is exact, and `Mappings.WildcardsShareAPort` maps both
  0.0.0.0:443 and [::]:443.
- pkg/dataplane/mapping.go:28-31 speaks of the timeout of a flow that matches the source. The timeouts chain is
  at the input hook: a packet forwarded to another host meets no timeout rule at all, and one forwarded to this
  host is seen after its translation, when the rule of a specific source never matches what its own mapping has
  forwarded. `TwoChains.ForwardedTimeouts` says exactly which rules are met, and
  `TwoChains.MissedTimeoutReached` gives a run.
- A group is unregistered by `Close` even when its flush failed, and its elements then stay in the kernel.
  `PlaneOps.CloseGroupKeeps` says exactly when, and `PlaneRuns.FailedCloseLeaks` gives a run. Afterwards packets
  can go astray: `PlaneLeaks.GatewayDespiteLeaks` says exactly which, and `PlaneLeaks.LeakMisroutes` gives a run.
- A failed `SetTimeout` has already changed the policy of the timeout object it holds; `PlaneFlows.FailedSetTimeout`
  says exactly when that shows, and `PlaneFlows.FailedSetTimeoutReached` gives a run.
- `AddMappings` and `DelMappings` ignore errors of the timeout calls; `PlaneFlows.AddExactly` and
  `PlaneFlows.DeleteExactly` say exactly when the entries are then out of step.
- `DelMappings` with the same source twice succeeds on a disabled group and fails on an enabled one:
  `PlaneOps.DeleteKeeps` is exact, `PlaneRuns.DuplicateDeletion` an instance.
- `handler.Start` and `handler.Stop` may run after `Close` was requested: exactly if the loop was past its guard
  at that moment, and then once (`Lifecycle.LateCall`, `Lifecycle.AtMostOneLateCall`; an interleaving is
  `Lifecycle.StartAfterCloseRequested`).
- `lastSeen` can move backwards: `Idle.WhenLastSeenMovesBack` is exact, `Idle.LastSeenMovesBack` an instance.
- When `Serve` has returned, on a cancelled context or a failed answer, the server's read loop can block for good
  on the full channel of requests with the lock held: that takes seventeen outstanding requests, while it takes
  eighteen as long as `Serve` runs (`IpcDeadlock.BlockingThreshold`, `IpcDeadlock.BlockingThresholdServed`,
  `IpcDeadlock.OnlySixteenIsSafe`).
- After the client's read loop has ended, which a body that does not parse can cause on an open connection, a
  request that is still written gets a channel that is neither answered nor closed (`IpcRuns.WhenSettled` is exact,
  `IpcRuns.LateRequestReached` a run).

## Model

| member | source | states |
|---|---|---|
| Mappings.ValidateExactly | pkg/dataplane/mapping.go:37-75 | a mapping is valid iff it is TCP or UDP by number, has two nonzero ports, two zoneless addresses of one family, a destination that is not all zeros and two different endpoints |
| Mappings.OverlapsMeaning | pkg/dataplane/mapping.go:77-112 | valid mappings overlap iff some packet is covered by both sources or a literal endpoint of one is a literal endpoint of the other |
| Mappings.OverlapsSymmetric | pkg/dataplane/mapping.go:81-112 | the conflict check does not depend on which mapping asks |
| Mappings.RoutingIsFunction | pkg/dataplane/mapping.go:10-18 | among mappings without conflict at most one covers any packet |
| Mappings.RoutingOneToOne | pkg/dataplane/mapping.go:10-18 | per protocol sources and destinations are in bijection, and no literal source is a literal destination |
| Mappings.DomainDisjointFromCodomain | pkg/dataplane/mapping.go:16-18 | a set without conflicts routes one of its own destinations iff a wildcard source has the family, protocol and port of a destination |
| Mappings.WildcardRoutesItsOwnDestination | pkg/dataplane/mapping.go:16-18 | the promised disjointness fails for the single accepted mapping 0.0.0.0:443 to 10.0.0.10:443 |
| Mappings.WildcardOwnsItsFamily | pkg/dataplane/mapping.go:20-21 | against a source with its protocol and port a wildcard conflicts iff both are of one address family |
| Mappings.WildcardsShareAPort | pkg/dataplane/mapping.go:20-21 | 0.0.0.0:443 and [::]:443 can be mapped at the same time |
| Encoding.PortRoundTrip | pkg/dataplane/connft/connft_nft_rules.go:431-435 | big-endian ports decode to what was encoded, in both directions |
| Encoding.FieldLayout | pkg/dataplane/connft/connft_nft_rules.go:437-443 | a field keeps its bytes and is padded with zeros up to the next full word |
| Encoding.Layout | pkg/dataplane/connft/connft_nft_rules.go:407-429 | where protocol, address, port and padding lie in keys and values |
| Encoding.SpecificKeyInjective | pkg/dataplane/connft/connft_nft_rules.go:407-414 | two specific keys of one family are equal only for one protocol and one endpoint |
| Encoding.WildcardKeyInjective | pkg/dataplane/connft/connft_nft_rules.go:416-421 | two wildcard keys are equal only for one protocol and one port |
| Encoding.MapValueInjective | pkg/dataplane/connft/connft_nft_rules.go:423-429 | two values of one family are equal only for one destination |
| Routing.ImplementsUnique | pkg/dataplane/connft/connft_nft_rules.go:387-397 | the compiled form is determined by the set of mappings |
| Routing.SlotCollisionOverlaps | pkg/dataplane/connft/connft_nft_rules.go:387-397 | two valid mappings compile to one key of one map only if they have the same protocol and source, and then they conflict |
| Routing.RuleEffect | pkg/dataplane/connft/connft_nft_rules.go:16-196 | each DNAT rule, from any register contents, rewrites to the value stored under the packet's key in its own map if the family fits, and breaks otherwise |
| Routing.KeyMeetsTarget | pkg/dataplane/connft/connft_nft_rules.go:16-196 | a mapping's compiled key is the packet's lookup key in the right family iff the mapping's source covers the packet |
| Routing.HitsAreCovers | pkg/dataplane/connft/connft_nft_rules.go:16-196 | a lookup that hits found a mapping that covers the packet, and a covering mapping is always found with its own destination |
| Routing.ChainRoutes | pkg/dataplane/connft/connft_nft_rules.go:16-196 | the four rules in any order rewrite a packet to the destination of the mapping that covers it, and let it pass if none does |
| Routing.QueuedOrder | pkg/dataplane/connft/connft_nft_rules.go:16-196 | the order in which the source queues the rules is one of those orders |
| Routing.TimeoutRuleMatches | pkg/dataplane/connft/connft_nft_rules.go:198-385 | the timeout rule of a source, wildcard or specific, of either family, goes through exactly on the packets whose DNAT lookup key is the source's compiled key, and only then attaches its object |
| Routing.TimeoutChainAttaches | pkg/dataplane/connft/connft_nft_rules.go:198-385 | over mappings without conflict the chain attaches the object of the one mapping that covers the packet as it reaches this chain, or none |
| TimeoutNames.StepInjective | pkg/dataplane/connft/connft_nft_rules.go:399-405 | one FNV-1a step modulo 2^64 is injective in the state and in the byte |
| TimeoutNames.OneByteChangesHash | pkg/dataplane/connft/connft_nft_rules.go:399-405 | texts that differ in exactly one position have different hashes |
| TimeoutNames.HexInjective | pkg/dataplane/connft/connft_nft_rules.go:404 | the sixteen hexadecimal digits determine the hash |
| TimeoutNames.NamesDiffer | pkg/dataplane/connft/connft_nft_rules.go:399-405 | sources of one family whose hashed bytes differ in exactly one position have different object names |
| TimeoutNames.ProtocolsHaveOwnNames | pkg/dataplane/connft/connft_nft_rules.go:399-405 | TCP and UDP on one listen address never share an object |
| TimeoutNames.XorBit | pkg/dataplane/connft/connft_nft_rules.go:399-405 | a bit of the exclusive or is set iff it is set in exactly one argument |
| TimeoutNames.KnownHashes | pkg/dataplane/connft/connft_nft_rules.go:400 | the hashes of the empty text and of "a" are the published ones |
| TimeoutNames.NameShape | pkg/dataplane/connft/connft_nft_rules.go:399-405 | protocol, address bytes and big-endian port are hashed, and the name is ct_ and the sixteen hexadecimal digits of the hash, highest first |
| PlaneProofs.ScanAcceptsAddable | pkg/dataplane/connft/connft_group.go:241-267 | the conflict scan accepts a batch iff all its mappings are valid and none conflicts with another of the batch or with one of any registered group |
| PlaneProofs.ScanAcceptsDeletable | pkg/dataplane/connft/connft_group.go:291-304 | the deletion scan accepts a batch iff the group holds each source with that destination |
| PlaneProofs.KernelAdds | pkg/dataplane/connft/connft_nft.go:226-255 | adding a batch to maps that are the compilation of a set leaves the compilation of its union with the batch, and the batch cannot fail in the kernel |
| PlaneProofs.KernelDeletes | pkg/dataplane/connft/connft_nft.go:257-286 | deleting a batch succeeds in the kernel iff no source occurs twice, and leaves the compilation of the rest |
| PlaneOps.NewGroupKeeps | pkg/dataplane/connft/connft_group.go:48-70 | a new group adds no mapping and disturbs none, and an error changes nothing |
| PlaneOps.AddMappingsKeeps | pkg/dataplane/connft/connft_group.go:143-152 | adding is all or nothing, keeps the invariant and the agreement with the kernel, adds exactly the batch, and succeeds iff the batch is addable and a needed flush is answered well |
| PlaneOps.DeleteKeeps | pkg/dataplane/connft/connft_group.go:286-321 | deletion is all or nothing, removes exactly the named mappings, keeps invariant and agreement, and succeeds iff the group holds them and, when enabled, no source is named twice and the flush is answered well |
| PlaneOps.SwitchKeeps | pkg/dataplane/connft/connft_group.go:182-222 | enabling and disabling are all or nothing, keep invariant and agreement, and succeed iff nothing need be flushed or the flush is answered well |
| PlaneOps.SetTimeoutKeeps | pkg/dataplane/connft/connft_group.go:106-128 | at most the timeout of the named mapping changes, in both indexes, and the kernel maps stay as they were |
| PlaneOps.CloseGroupKeeps | pkg/dataplane/connft/connft_group.go:330-338 | a closed group is gone with its mappings and no other group changes; the kernel still agrees iff the flush that was needed succeeded |
| PlaneOps.OneGroupPerDestination | pkg/dataplane/connft/connft_group.go:241-267 | no destination belongs to two groups |
| PlaneRuns.StepKeeps | pkg/dataplane/connft/connft_group.go:48-338 | every operation keeps the invariant, never reopens a closed dataplane, leaves the four rules alone, and keeps the kernel in agreement unless a close fails to flush |
| PlaneRuns.RunKeeps | pkg/dataplane/connft/connft_group.go:48-338 | after every run the indexes hold the same valid mappings without conflict, and unless a close failed to flush the four kernel maps are the compilation of precisely the enabled groups |
| PlaneRuns.GatewayRoutes | pkg/dataplane/connft/connft_nft_rules.go:16-196 | after every such run every well-formed packet is rewritten to the destination of the enabled mapping that covers it, and passes if none does |
| Headers.WireTarget | pkg/dataplane/connft/connft_nft_rules.go:16-196 | of a packet written out by RFC 791 or 8200 and RFC 9293 or 768, the machine reads the destination address field, the destination port field and the assigned numbers |
| Headers.GatewayRoutesFields | pkg/dataplane/connft/connft_nft_rules.go:16-196 | after every clean run such a packet is rewritten to the bytes and big-endian port of the destination of the enabled mapping whose source its destination fields name, and passes if there is none |
| Headers.TimeoutRuleFields | pkg/dataplane/connft/connft_nft_rules.go:198-385 | in every reachable state a mapping's timeout rule goes through on such a packet iff its source stands for the packet's destination fields |
| Headers.TranslatedFields | pkg/dataplane/connft/connft_nft_rules.go:16-196 | translation changes the destination address and port fields and nothing else of the two headers |
| PlaneRuns.ReachableOneToOne | pkg/dataplane/mapping.go:10-22 | in every reachable state routing is one-to-one per protocol with literal sources and destinations disjoint |
| PlaneRuns.OneTimeoutRule | pkg/dataplane/connft/connft_nft_rules.go:198-385 | in every reachable state a mapping's timeout rule matches iff the mapping covers the packet as it reaches the chain, and at most one registered mapping's rule does |
| TwoChains.TranslatedTarget | pkg/dataplane/connft/connft_nft_rules.go:16-196 | a packet with its destination replaced is well formed and addressed to the replacement |
| TwoChains.ForwardedTimeouts | pkg/dataplane/connft/connft_nft.go:101-119 | after every clean run, a packet that an enabled mapping has rewritten meets a registered timeout rule iff the destination is an address of this host and the rule's source is a wildcard of the destination's family, protocol and port |
| TwoChains.OwnRuleMissesForwarded | pkg/dataplane/mapping.go:28-31 | what a mapping forwards to another host meets no timeout rule; what it forwards to this host meets its own rule iff its source is a wildcard with the destination's port |
| TwoChains.MissedTimeoutReached | pkg/dataplane/mapping.go:28-31 | a run after which a mapping with a specific source has its timeout entry and no packet it forwards meets its rule |
| PlaneRuns.FailedCloseLeaks | pkg/dataplane/connft/connft_group.go:330-338 | a run of four operations after which the kernel holds an element of no group |
| PlaneRuns.CloseErrorsMeaning | pkg/dataplane/connft/connft.go:81-86 | with a kernel in agreement, closing the groups reports an error iff some group loses the flush it needs |
| PlaneRuns.ClosePlaneErrorsMeaning | pkg/dataplane/connft/connft.go:73-90 | Close reports an error iff some group loses its flush or the table cannot be dropped |
| PlaneRuns.ClosePlaneKernel | pkg/dataplane/connft/connft_nft.go:135-142 | Close leaves no table in the kernel if its last flush is answered well, whatever the groups' flushes were answered, and otherwise what closing the groups left |
| PlaneAnswers.NewGroupAnswers | pkg/dataplane/connft/connft_group.go:48-70 | a group is made iff the dataplane is open and the name free, empty and disabled, each refusal has its error, and nothing else changes |
| PlaneAnswers.FirstComplaint | pkg/dataplane/connft/connft_group.go:241-267 | the scan complains about the first mapping that is illegal, as invalid, or conflicts with one before it or registered, as overlapping |
| PlaneAnswers.AddAnswers | pkg/dataplane/connft/connft_group.go:143-152 | every answer of AddMappings with its exact reason |
| PlaneAnswers.AddOneAnswers | pkg/dataplane/connft/connft_group.go:236-284 | in an empty dataplane one mapping is added to both indexes iff it is legal in plain terms, and refused as invalid otherwise |
| PlaneAnswers.FirstMissingAt | pkg/dataplane/connft/connft_group.go:293-304 | the deletion scan complains about the first mapping that is illegal, as invalid, or not held with its destination, as missing |
| PlaneAnswers.DeleteAnswers | pkg/dataplane/connft/connft_group.go:156-165 | every answer of DelMappings with its exact reason |
| PlaneAnswers.ClearEmpties | pkg/dataplane/connft/connft_group.go:169-178 | a successful ClearMappings leaves no mapping and the switch as it was |
| PlaneAnswers.SwitchAnswers | pkg/dataplane/connft/connft_group.go:182-222 | every answer of Enable and Disable with its exact reason; only the switch changes |
| PlaneAnswers.TimeoutDeletedExactly | pkg/dataplane/connft/connft_nft.go:208-224 | an entry is gone iff there was none or the flush did not fail, an unknown object being no failure, and no other entry changes |
| PlaneAnswers.SetTimeoutAnswers | pkg/dataplane/connft/connft_group.go:106-128 | every answer of SetTimeout with its exact reason, and the new timeout after success |
| PlaneAnswers.OthersUntouched | pkg/dataplane/connft/connft_group.go:48-338 | an operation on one group leaves every other group and the open flag as they were |
| PlaneAnswers.StepAchieves | pkg/dataplane/connft/connft_group.go:48-338 | what each step of a run achieves when its flush is answered well |
| PlaneFlows.StepFlows | pkg/dataplane/connft/connft_group.go:277-281 | a step whose timeout calls succeed keeps the timeout entries in step with the mappings, whatever its other flushes are answered |
| PlaneFlows.RunFlows | pkg/dataplane/connft/connft_nft.go:144-224 | in every run whose timeout calls succeed, whatever the flushes of elements and of the table are answered, the timeout entries are exactly the nonzero timeouts of the registered mappings |
| PlaneFlows.FailedSetTimeout | pkg/dataplane/connft/connft_nft.go:149-165 | after any error answer to the flush in SetTimeout the entries still match iff the timeout did not change or the old or the new one is zero |
| PlaneFlows.FailedSetTimeoutReached | pkg/dataplane/connft/connft_nft.go:149-165 | a run of three operations after which a mapping and its entry have different timeouts |
| PlaneFlows.AddExactly | pkg/dataplane/connft/connft_group.go:277-281 | after a successful AddMappings the entries are in step iff all its timeout calls succeeded iff each of its mappings with a timeout has its entry |
| PlaneFlows.DeleteExactly | pkg/dataplane/connft/connft_group.go:315-319 | after a successful DelMappings the entries are in step iff no named source has an entry left, which for distinct sources means that all its timeout calls succeeded |
| PlaneRuns.DuplicateDeletion | pkg/dataplane/connft/connft_group.go:286-313 | a run in which deleting one mapping twice in a batch succeeds on the disabled group and fails on the enabled one, whatever the flush is answered |
| PlaneLeaks.AddsOver | pkg/dataplane/connft/connft_nft.go:226-255 | a batch the kernel takes, even beside elements left behind, is carried with everything that was |
| PlaneLeaks.DeletesOver | pkg/dataplane/connft/connft_nft.go:257-286 | a deletion the kernel takes leaves every other carried mapping carried |
| PlaneLeaks.RunCarries | pkg/dataplane/connft/connft_group.go:48-338 | after every run, failed closes included, the maps hold the element of every enabled mapping, and nothing but elements of valid mappings |
| PlaneLeaks.MisroutedExactly | pkg/dataplane/connft/connft_nft_rules.go:16-196 | with the rules in any order a covered packet goes astray iff the first rule that hits finds an element left behind with another destination |
| PlaneLeaks.StrayExactly | pkg/dataplane/connft/connft_nft_rules.go:16-196 | a packet that no enabled mapping covers is rewritten iff an element left behind lies under one of its keys |
| PlaneLeaks.GatewayDespiteLeaks | pkg/dataplane/connft/connft_group.go:330-338 | after every run, with the rules as queued, a covered packet reaches its destination iff the wildcard map holds nothing else for the mapping's family, protocol and port |
| PlaneLeaks.LeakMisroutes | pkg/dataplane/connft/connft_group.go:330-338 | a run of seven operations after which a closed group's wildcard captures the packets of an enabled specific mapping |
| Kernel.NftConn.Flush | pkg/dataplane/connft/connft_nft.go:251-253 | the queued batch is applied as a whole or not at all, and is forgotten either way |
| Dataplane.Connft.constructor | pkg/dataplane/connft/connft.go:47-56 | a dataplane starts open, without groups, in good order |
| Dataplane.Connft.AddDNATRules | pkg/dataplane/connft/connft_nft_rules.go:16-196 | queues the two wildcard rules and then the two specific rules |
| Dataplane.Connft.InstallRules | pkg/dataplane/connft/connft_nft.go:126-132 | the four rules are installed by one batch, after which the plane is the initial state of the runs |
| Dataplane.Connft.NewGroup | pkg/dataplane/connft/connft_group.go:48-70 | registers a new open group under a free name or fails with the error of a closed dataplane or a taken name, changing nothing |
| Dataplane.Connft.Close | pkg/dataplane/connft/connft.go:73-90 | closes every registered group once, in some order, whatever their flushes answer, drops the table, which is gone if that flush is answered well, and returns all errors; a second call does nothing |
| Dataplane.Connft.StaleGroups | pkg/dataplane/connft/connft_ct.go:15-70 | undisturbed, the whole call returns exactly the registered groups none of whose destinations is the reply source of a dumped flow, each once; without groups a failing dump is no error |
| Dataplane.Connft.StaleAmong | pkg/dataplane/connft/connft_ct.go:27-70 | the same of the part after the dump, in whatever state it finds the dataplane; there the error of the dump goes before that of a closed dataplane |
| Dataplane.Connft.Survivors | pkg/dataplane/connft/connft_ct.go:43-63 | the elimination loop with early exit keeps exactly the idle groups, and each flow eliminates at most one |
| Dataplane.Connft.DropSeen | pkg/dataplane/connft/connft_ct.go:57-62 | one flow takes out exactly the groups with its destination, of which there is at most one |
| Dataplane.ConnftGroup.AddMappings | pkg/dataplane/connft/connft_group.go:143-152 | the object's new state, the kernel and the error are those of the specification; a closed group or dataplane refuses without change |
| Dataplane.ConnftGroup.CheckNew | pkg/dataplane/connft/connft_group.go:241-267 | the nested scans find the first invalid or conflicting mapping, if there is one |
| Dataplane.ConnftGroup.IsTaken | pkg/dataplane/connft/connft_group.go:256-266 | the walk over all groups finds a conflict iff there is one |
| Dataplane.ConnftGroup.Enter | pkg/dataplane/connft/connft_group.go:277-281 | both indexes and the timeout entries after the loop are those of the specification |
| Dataplane.ConnftGroup.Delete | pkg/dataplane/connft/connft_group.go:286-321 | as specified: scan, one kernel batch if enabled, then both indexes and the timeout entries |
| Dataplane.ConnftGroup.Remove | pkg/dataplane/connft/connft_group.go:315-319 | both indexes and the timeout entries after the loop are those of the specification |
| Dataplane.ConnftGroup.DelMappings | pkg/dataplane/connft/connft_group.go:156-165 | as specified; a closed group or dataplane refuses without change |
| Dataplane.ConnftGroup.ClearMappings | pkg/dataplane/connft/connft_group.go:169-178 | deletes all mappings of the group, each once, in some order |
| Dataplane.ConnftGroup.Enable | pkg/dataplane/connft/connft_group.go:182-200 | as specified, with the group's mappings in some order |
| Dataplane.ConnftGroup.Disable | pkg/dataplane/connft/connft_group.go:204-222 | as specified, with the group's mappings in some order |
| Dataplane.ConnftGroup.SetTimeout | pkg/dataplane/connft/connft_group.go:106-128 | as specified: closed, missing, unchanged, failed and done are told apart |
| Dataplane.ConnftGroup.Close | pkg/dataplane/connft/connft_group.go:226-230 | closes and unregisters this very group even if its flush fails; a second call changes nothing, also when the name has been taken again |
| Dataplane.ConnftGroup.EnsureTimeoutSet | pkg/dataplane/connft/connft_nft.go:144-206 | deletes, updates or creates the entry of a source, as the flush is answered |
| Dataplane.ConnftGroup.EnsureTimeoutDeleted | pkg/dataplane/connft/connft_nft.go:208-224 | forgets an entry iff the flush succeeds or answers that it is not there |
| Dataplane.ConnftGroup.EnsureDNATAdded | pkg/dataplane/connft/connft_nft.go:226-255 | one batch with an element per mapping in the set of its source, or nothing for an empty batch |
| Dataplane.ConnftGroup.EnsureDNATDeleted | pkg/dataplane/connft/connft_nft.go:257-286 | one batch that deletes the element of each mapping, or nothing for an empty batch |
| Lifecycle.NextKeeps | pkg/frontend/frontend.go:139-308 | every step of callers, cancellation and loop keeps the invariant, and Closed is never left |
| Lifecycle.SendNeverBlocks | pkg/frontend/frontend.go:155-193 | Stopped and Running mean that no request is queued and no Start or Stop in progress, so the send under the lock never blocks |
| Lifecycle.EveryInterleaving | pkg/frontend/frontend.go:155-308 | in every interleaving handler calls do not overlap and alternate Start, Stop from Start on, until one Close, which is last; only Close follows a failed Start or Stop |
| Lifecycle.FailureIsFinal | pkg/frontend/frontend.go:216-219 | after a failed Start the state is Stopping, after a failed Stop it is Starting, nothing is pending, and neither call changes that |
| Lifecycle.ErrMeaning | pkg/frontend/frontend.go:209-281 | in every interleaving, while the frontend is open and the loop is not about to record a result, the last error is set iff the last handler call failed |
| Lifecycle.StartServed | pkg/frontend/frontend.go:155-226 | with the loop at its select, a Start of a stopped frontend leads to the handler's Start and then to Running, or to Stopping with the error set |
| Lifecycle.StopServed | pkg/frontend/frontend.go:176-259 | with the loop at its select, a Stop of a running frontend leads to the handler's Stop and then to Stopped, or to Starting with the error set |
| Lifecycle.CloseServed | pkg/frontend/frontend.go:141-281 | with the loop at its select, a Close leads to the handler's Close and the end of the loop, with the error set iff that close or the deletion failed |
| Lifecycle.StartAfterCloseRequested | pkg/frontend/frontend.go:197-206 | an interleaving in which the handler is started although Close was requested |
| Lifecycle.LateCall | pkg/frontend/frontend.go:195-207 | from a closed state a Start or Stop of the handler can still be entered iff the loop is past its guard |
| Lifecycle.AtMostOneLateCall | pkg/frontend/frontend.go:195-240 | after Closed at most one more Start or Stop is entered, none unless the loop was past its guard, and Closed stays |
| Lifecycle.ShutdownProgress | pkg/frontend/frontend.go:261-308 | once closed and cancelled, every loop step but a warm signal brings the end nearer, callers never push it back, and the loop is never stuck before its end |
| Frontends.Frontend.Start | pkg/frontend/frontend.go:155-172 | the step of the state machine; true iff the frontend is starting or running afterwards |
| Frontends.Frontend.Stop | pkg/frontend/frontend.go:176-193 | the step of the state machine; true iff the frontend is stopping or stopped afterwards |
| Frontends.Frontend.MarkClosed | pkg/frontend/frontend.go:141-151 | the step of the state machine; only the first close goes on to cancel |
| Frontends.Frontend.Receive | pkg/frontend/frontend.go:295-300 | the loop takes the oldest request and goes on to the call it asks for |
| Frontends.Frontend.MayCall | pkg/frontend/frontend.go:195-203 | the guard: the handler is called iff the frontend is not closed at that moment |
| Frontends.Frontend.StartReturned | pkg/frontend/frontend.go:209-226 | a finished start leads to Running, or to Stopping if it failed, unless the frontend was closed meanwhile |
| Frontends.Frontend.StopReturned | pkg/frontend/frontend.go:242-259 | a finished stop leads to Stopped, or to Starting if it failed, unless the frontend was closed meanwhile |
| Frontends.Frontend.BeginEnd | pkg/frontend/frontend.go:261-267 | the end of the loop closes the frontend before the handler's Close |
| Frontends.Frontend.FinishEnd | pkg/frontend/frontend.go:271-281 | the last error is set iff closing the handler or deleting the mapping failed |
| Always.MoveKeeps | plugin/static/frontends/always.go:30-94 | every step of the frontend loop, the handler loop and the callers keeps the joint invariant |
| Always.NoMutualWait | plugin/static/frontends/always.go:30-94 | in every joint run a command being sent meets a living handler loop at most one step from receiving it, every call can return, and tokens are queued only between a received start and the next received stop or close |
| Always.RunningMeaning | plugin/static/frontends/always.go:62-94 | in every joint run, until the loop ends, the handler is running iff the last finished call, or the one about to return, is a Start |
| Always.TokensConserved | plugin/static/frontends/always.go:70-76 | in every joint run the tokens queued are those waiting and those the frontend took |
| Always.TickQueues | plugin/static/frontends/always.go:70-76 | a tick queues a token iff the handler is running and none is waiting, and the loop is back at its select |
| Always.AlwaysHandler.CommandClose | plugin/static/frontends/always.go:48-55 | marks the handler closed before it sends, and sends nothing a second time |
| Always.AlwaysHandler.LoopCommand | plugin/static/frontends/always.go:77-92 | running follows the commands, and the loop ends iff the command is close |
| Always.AlwaysHandler.LoopTick | plugin/static/frontends/always.go:70-76 | a tick queues a token iff the loop is running and there is room |
| Ownership.ShutdownKeeps | pkg/frontend/frontend.go:261-281 | a shutdown finds its own mapping, and deletes it without error and leaves exactly the mappings of the others iff the flush it needs is answered well |
| Ownership.CreateKeeps | pkg/frontend/frontend.go:50-59 | a frontend is created with exactly its mapping added iff the mapping is addable and its flush is answered well, and otherwise nothing changes |
| Ownership.MappingsAreOwned | pkg/frontend/frontend.go:50-281 | across all interleavings of creation, shutdown and changes elsewhere in which the flushes of shutdowns succeed, the mappings of a target's open group are exactly one for each live frontend |
| Ownership.FreshGroupOwned | pkg/frontend/frontend.go:50-59 | a target's new group is such a state, with no frontends |
| Idle.DurationArithmetic | pkg/engine/engine.go:422 | every TTL in seconds fits a signed 64-bit count of nanoseconds, and saturation never changes the comparison |
| Idle.LastSeenMeaning | pkg/engine/engine.go:417-430 | over any run lastSeen is the time of the latest poll since the registration that did not list the group, or the time of registration |
| Idle.RegistrationMeaning | pkg/engine/engine.go:211-251 | over any run a registered name has the group of its standing registration and the timeout it was last given there or since |
| Idle.RegisteredExactly | pkg/engine/engine.go:211-287 | a name is registered iff it was registered while free and not forgotten since |
| Idle.Pointwise | pkg/engine/engine.go:211-287 | what a registration, a deletion, a new timeout and a poll do to each name, in any state |
| Idle.DrainMeaning | pkg/engine/engine.go:417-430 | a poll at T drains a target iff it lists the registered group, every poll in [T - timeout, T] since the registration did too, with the timeout last given, in seconds, and a target never missed by a poll was registered longer than that ago |
| Idle.DrainInTime | pkg/engine/engine.go:404-425 | a target that stays stale is drained first by a poll no later than its last sign of life + timeout + poll period, and again by every later poll |
| Idle.LastSeenMovesBack | pkg/engine/engine.go:404-411 | a tick older than a registration moves lastSeen backwards |
| Idle.WhenLastSeenMovesBack | pkg/engine/engine.go:404-411 | over any run of ordered polls, a poll moves lastSeen back iff it misses the group, its tick is older than the standing registration, and no poll since then missed the group |
| Engines.Engine.DetectTimeouts | pkg/engine/engine.go:417-430 | the loop over all targets, in any order, leaves the times and drains the targets that the specification says |
| Engines.Engine.NewTarget | pkg/engine/engine.go:211-251 | a target is registered with its time iff the engine is open, the name is free and the target could be made; otherwise the error tells what failed first and nothing changes |
| Engines.Engine.DelTarget | pkg/engine/engine.go:270-287 | only a closed target is forgotten, together with its time; an unknown name is no error |
| Ipc.IdsRepeat | plugin/ctl/ipc/base_client.go:76-82 | ids are never zero and repeat after exactly 2^32 - 1 calls, never sooner |
| Ipc.RequestAnswers | plugin/ctl/ipc/base_client.go:52-74 | every answer of Request with its exact reason, and what it leaves of ids, outbox and channels |
| Ipc.MatchAnswers | plugin/ctl/ipc/base_client.go:93-122 | only a response with a pending id changes anything, and only that id's channel |
| Ipc.EndAnswers | plugin/ctl/ipc/base_client.go:84-91 | the end of the loop closes the channels in the outbox and no others |
| Ipc.ReceiveAnswers | plugin/ctl/ipc/base_server.go:85-119 | the server skips responses and notifications, refuses a known id under that id, and takes in any other request |
| Ipc.RespondAnswers | plugin/ctl/ipc/base_server.go:57-76 | every answer of Respond with its exact reason; only a response that was written leaves the inbox |
| IpcPeers.BaseClient.AssignId | plugin/ctl/ipc/base_client.go:76-82 | the next id in the 32-bit cycle that skips zero |
| IpcPeers.BaseClient.Request | plugin/ctl/ipc/base_client.go:52-74 | refuses a response or an id in use, takes everything back when the write fails, and otherwise writes the packet and returns a fresh channel; no two pending ids ever share a channel |
| IpcPeers.BaseClient.MatchResp | plugin/ctl/ipc/base_client.go:93-102 | a response goes to the channel of its id, which is no longer pending; others are dropped |
| IpcPeers.BaseClient.Receive | plugin/ctl/ipc/base_client.go:112-122 | only responses with an id are matched |
| IpcPeers.BaseClient.End | plugin/ctl/ipc/base_client.go:84-91 | closes exactly the pending channels, each once |
| IpcPeers.BaseServer.DispatchReq | plugin/ctl/ipc/base_server.go:85-95 | a request already in flight is refused by a packet, any other enters the inbox and is held for the channel |
| IpcPeers.BaseServer.TrySend | plugin/ctl/ipc/base_server.go:93 | the send under the lock goes through iff the channel of sixteen has room |
| IpcPeers.BaseServer.Respond | plugin/ctl/ipc/base_server.go:57-76 | the four refusals, and an id that leaves the inbox only after a successful write |
| IpcPeers.BaseServer.Handle | plugin/ctl/server.go:57-68 | the status request is answered by the status, any other by an error that names its method, under the id of the request |
| IpcRuns.NextKeeps | plugin/ctl/ipc/base_server.go:57-119 | every step of client, server, Serve and their failures keeps the invariant that everything between the two ends is pending, in order, with distinct ids, and matches outbox and inbox |
| IpcRuns.NeverInFlight | plugin/ctl/ipc/base_server.go:88-91 | the branch for a request already in flight is never taken and no request is skipped |
| IpcRuns.RespondAccepted | plugin/ctl/server.go:57-68 | Respond never refuses what Serve answers; only its write can fail |
| IpcRuns.Delivery | plugin/ctl/ipc/base_client.go:93-102 | every packet that arrives meets an open, empty channel, so the send under the lock neither blocks nor panics, and answers the request of that channel |
| IpcRuns.Correlation | plugin/ctl/ipc/base_client.go:52-124 | over every run, also past 2^32 requests, each channel was made by one call of Request and gets at most one packet, the one that a step of Serve made for that very request, a status request being answered with the status of that step; none is sent to after a close, sent to twice or closed twice |
| IpcRuns.ServerEndStops | plugin/ctl/ipc/base_server.go:78-119 | the server's loop can end whenever it holds no packet, reads nothing afterwards, and what it passed on is still served |
| IpcRuns.WhenSettled | plugin/ctl/ipc/base_client.go:104-124 | a channel without an answer or a close can still come to one iff the client's read loop runs |
| IpcRuns.LateRequest | plugin/ctl/ipc/base_client.go:118-120 | the channel of a request written after the loop has ended is neither answered nor closed in any run |
| IpcRuns.LateRequestReached | plugin/ctl/ipc/base_client.go:84-91 | a run of two steps to such a channel |
| IpcDeadlock.DeadlockForever | plugin/ctl/ipc/base_server.go:85-95 | once the reader blocks on the full channel with the lock and Serve waits for the lock, no step of anyone ends it |
| IpcDeadlock.DeadlockNeeds | plugin/ctl/ipc/base_server.go:85-95 | a deadlock takes two more outstanding requests than the channel has places |
| IpcDeadlock.WhenSendBlocks | plugin/ctl/ipc/base_server.go:85-95 | the send under the lock never completes, whatever anyone does, iff the channel is full and Serve either waits for the lock or has returned |
| IpcDeadlock.AbandonedForever | plugin/ctl/ipc/base_server.go:85-95 | once the reader blocks on the full channel with the lock and Serve has returned, no step of anyone ends it |
| IpcDeadlock.Threshold | plugin/ctl/ipc/base_server.go:57-119 | for every positive capacity with ids to spare: in some run with at most n outstanding requests reader and Serve wait for each other iff n is at least capacity + 2 |
| IpcDeadlock.BlockingThreshold | plugin/ctl/ipc/base_server.go:57-119 | in some run with at most n outstanding requests the send under the lock blocks for good iff n is at least capacity + 1 |
| IpcDeadlock.BlockingThresholdServed | plugin/ctl/server.go:38-55 | in some such run in which Serve does not return it does iff n is at least capacity + 2 |
| IpcDeadlock.SeventeenIsSafe | plugin/ctl/ipc/base_server.go:25 | with the channel of sixteen and as long as Serve runs, seventeen outstanding requests never block the send for good and eighteen can |
| IpcDeadlock.OnlySixteenIsSafe | plugin/ctl/server.go:41-51 | when Serve may return, sixteen outstanding requests never block the send for good and seventeen can |
| IpcDeadlock.NeverStuck | plugin/ctl/server.go:38-55 | while the loops run and there is no deadlock, some loop can work on whatever is in the pipe |
| IpcDeadlock.WorkShrinks | plugin/ctl/server.go:38-55 | every such step takes exactly one unit from a measure of the remaining work |
| IpcDeadlock.EveryRequestAnswered | plugin/ctl/server.go:38-55 | from any state in which the loops run and no answer was lost, below the threshold they bring every outstanding request home, in exactly as many steps as the measure says |
| IpcDeadlock.UndisturbedRuns | plugin/ctl/server.go:38-55 | after any run the loops are running with no answer lost if no loop was ended and no answer failed to be written, and otherwise one of them is not running |
| IpcDeadlock.EveryRunAnswered | plugin/ctl/ipc/base_client.go:52-102 | after every such run a client below the threshold gets all its outstanding requests answered |

## Left out

- `pkg/target`: a target is its group, its timeout and whether it is closed; its own state machine, and what `Warm` and `Drain` do, are not part of this model.
- `BasePeer`: its read loop does not keep the discipline of the two one-way ends, and neither end uses it.
- Old tables: `ensureTableAdded` is modelled from the rules on; removing an old table and creating table, sets and chains are not.
- Dataplane.Connft.InstallRules: does not model the deletion of an existing table or the batch that creates the table, because they decide nothing later.
- Preparing a batch: the client-side errors of `SetAddElements`, `SetDeleteElements` and `DelRule` are assumed not to occur; only `Flush` can fail.
- Dataplane.ConnftGroup.EnsureTimeoutSet: does not model the object and the rule it puts into the kernel, only `flowInfoBySrc` with the TTL of the object, because after a failed flush the source does not know what the kernel holds.
- Dataplane.ConnftGroup.EnsureTimeoutDeleted: likewise does not model their deletion inside the kernel; the timeouts chain is modelled as one rule per mapping.
- Translation: `TwoChains` replaces the destination address and port of a packet and leaves checksums and the reverse direction out; which addresses belong to this host is a parameter.
- Dataplane.Connft.StaleGroups: does not model other operations between its two critical sections; Dataplane.Connft.StaleAmong stands for the second one in whatever state it finds.
- The locks themselves: what a lock protects is one atomic step, and the read-only getters `Timeout`, `Mappings`, `IsEnabled`, `State` and `Error` would add only easy members.
- Dataplane.Connft.Close: does not model the closing of the conntrack connection, whose result the source drops.
- Ownership.MappingsAreOwned: assumes that the flushes of shutdowns are answered well and that only frontends edit the group; by Ownership.ShutdownKeeps a failed deletion leaves a mapping without an owner.
- Frontend registry and kinds: `NewFrontend`, `DelFrontend` and the tables of constructors in the engine are simple maps. Handler cleanup on their error paths is incomplete in the source and nothing is claimed about it.
- Packets read but waiting for the server's lock: they count as still on the link, which nothing else can tell apart.
- The link: reliable, in order and unbounded. A write that fails delivers nothing, and a write that blocks on a full socket buffer while a lock is held is not modelled.
- Notifications: their channels and their own blocking are not modelled; packets with id zero are dropped.
- Codecs, body parsing, the contents of the status response, the command line, configuration files, plugins, logging, and the handlers other than `always`: input and output only.
