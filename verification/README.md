# Verification of the firewall engine

A Dafny 4.11 model of the parts of the engine whose correctness crosses several
functions, unbounded inputs or whole runs, with proofs. `dafny verify dfyconfig.toml`
checks all of it.

| component | files | what is proved |
|---|---|---|
| Network plans | `Network`, `NetworkProofs`, `NetworkReconciler` | a plan ends in exactly the desired objects; two plans converge from any mixture of two configurations |
| Activation | `Activation`, `ActivationController` | over every run of activations, failures and crashes an applied record without a journal describes the kernel, and a journal bounds what is there |
| Policy program and forward chains | `Policy`, `ForwardChain`, `ForwardProofs` | both compiled chains give a new packet the verdict of the program |
| Conntrack fast path | `Marks`, `Epochs`, `FastPath` | exactly when a cache rule only accepts flows granted under the installed configuration and epoch, over every run |
| Interception | `PortRanges`, `Tproxy`, `TproxyProofs` | the TPROXY chain intercepts exactly what the program gates |
| Policy analysis | `Reachability`, `TlsExclusions` | deleting everything reported as shadowed changes no decision |
| Application guards | `Guards`, `GuardManager`, `GuardProofs` | exactly when map, chains and sets behave like one flat set of keys, over every run |
| Commit and rollback | `Coordination` | manager, dataplane and runtime agree on success and on every compensated failure |
| Evidence and events | `SecurityEvents`, `SecurityEventStore`, `Paging`, `Reading`, `GateEvidence`, `Selection`, `GateEvidenceStore`, `EvidenceReading` | ring, index, list and budgets stay exact; a reader misses nothing without a warning and passes over nothing that is stored |
| Inspection | `ClientHello`, `ClientHelloProofs`, `Applications`, `Reducer`, `ObservationQueue` | every encoded ClientHello is read back from any records; at most one intent can execute; the byte-budgeted queue balances |

Conventions. An operation that changes state is a class method proved against a
function of the old state or a relation between old and new state; the laws are lemmas about
those. Foreign calls (nft, ip, files, sensors, clocks, encoders) are parameters:
each call is given how it ends, including the case where it takes effect and its
reply is lost. Encoded sizes are an arbitrary function. Hashes and formatted
identifiers are injective and appear as the values they encode. Names and selectors
are already in canonical spelling. Addresses are integers with prefix lengths.

## Where the code falls short of what it promises

Each item names the lemmas that show the failure and those that say exactly when the promise holds.

- Transition check: `VerifyTransition` cannot tell a removed route from a kept one of the same
  destination, metric and gateway unless the removed one names its device and the kernel uses another
  (`VerifiesIffTold`). Adding a device to a gateway route always fails the check
  (`DeviceAddedNeverVerifies`, `DeviceAddedWitness`); opening it fails exactly when the kernel
  resolves the same device again (`DeviceRemovedIff`, `DeviceRemovedWitness`).
- Route keys: validation accepts two enabled routes with one destination and metric, of which the kernel
  keeps the one put last (`ReachesIffLanded`). Unless the two differ only in one leaving its device open,
  a completed plan never reaches such a target (`ReachesIffDistinct`, `SharedKeyWitness`), and the transition
  check refuses it (`CompletedPlanVerifies`).
- Legacy rollback: the comment at `internal/dataplane/controller.go:307-309` says that target epochs are
  never borrowed, but line 293 has already replaced absent options by those of the target. A state
  without snapshot and options borrows them for every target, and no other state does (`LegacyBorrows`,
  `FirstActivation`). The plain path without snapshots always compiles its old rules with the options of
  the target (`RestoreAfterFailure`, `ApplyM2`).
- Fast path: a cache rule trusts marks of its epoch, and two configurations can share one. A snapshot
  stored in an earlier boot carries an epoch that this boot may have given to another configuration
  (`StaleBootWitness`); within one boot a failed activation loads its fallback under a borrowed epoch
  (`LegacyWitness`). Either lets marks of the other configuration through (`SharedEpochViolates`). All states
  of a run are sound if and only if each installed snapshot has granted every mark it caches
  (`RunSoundIff`); within one boot that holds as long as no fallback borrows (`OneBootIsGuarded`,
  `BorrowedIsStale`).
- Cache rules: `CompileM2Ruleset` ignores the error of `PackCacheMark`. A rule that accepts
  unmarked established packets is emitted exactly when the epoch or a slot does
  not fit the mark (`ZeroRuleIff`); the options built by the engine never do that (`EngineOptionsFit`).
- Guard installs and removals: an install whose reply is lost and whose readback fails leaves objects nobody
  owns (`OrphanWitness`), and a removal whose reply is lost leaves an owned key without objects
  (`StrandWitness`). The last stranded key of an id cannot be removed (`StrandedStays`) until an install or a
  renewal rebuilds its objects (`InstallMends`, `RenewMends`). The index is exact at every point of a run if
  and only if neither happens (`RunExact`).
- Record limit: bytes that follow a ClientHello change its answer when they share its last record and run
  past 64 KiB (`OverrunRefuses`, `CutWitness`). Two cuts of one payload disagree exactly when one of them fits
  the limit, the other does not, and the payload is not refused anyway (`SplitsAgree`).
- Security events: `Add` evicts every stored event before it refuses one that outgrows the budget
  only with its sequence number (`LateRefusalWitness`), and refuses late in no other case
  (`LateRefusalEmpties`).
- Trimmed pages after a stream reset: the cursor is raised to that of the old stream. Pages are exact for
  every encoding if and only if all matches but the first are newer than the old cursor
  (`ResetExactIff`); until the new stream has passed the old cursor no trimmed page is (`StaleCursorSkips`,
  `ResetTrimSkips`).
- Filtered readers: events are stored before they are correlated. A reader that filters by session or
  correlation state passes them and never gets them once they match (`LateCorrelationWitness`); exactly the
  other filters are safe (`FaithfulIff`, `SafeFilters`).
- Suspended intents: switching inspection off leaves a pending guard pending, so its intent can match again
  when inspection is switched back on in the same generation (`OnlyOffSuspends`,
  `SuspendedRevives`); evidence that changes the decision, and any re-selection that commits, ends it for
  good (`GivenUpForever`, `ReselectionEnds`).

## Model

| member | source | states |
|---|---|---|
| `NetworkReconciler.PlanNetwork` | internal/dataplane/linux.go:190-285 | the operations emitted by the loops, in order, and exactly when planning fails |
| `NetworkReconciler.Reconciler.EnsureVLAN` | internal/dataplane/linux.go:150-188 | reuse, replace or create a VLAN link, with its cascade, for either reply of the kernel |
| `NetworkReconciler.Reconciler.ApplyPlan` | internal/dataplane/linux.go:111-135 | running a plan operation by operation until the first refusal |
| `NetworkReconciler.Reconciler.Restore` | internal/dataplane/network_restore.go:63-75 | one directed plan without compensation |
| `NetworkReconciler.Reconciler.Reconcile` | internal/dataplane/linux.go:88-109 | a plan, and the reverse plan when it fails |
| `NetworkProofs.PlanStaysWithin` | internal/dataplane/linux.go:190-285 | however far a plan gets, the kernel holds only objects it held before or desired ones |
| `NetworkProofs.PlanRemovesPrevious` | internal/dataplane/linux.go:190-285 | a completed plan leaves no object of the previous configuration that is not desired |
| `NetworkProofs.PlanCovers` | internal/dataplane/linux.go:190-285 | a completed plan leaves every desired VLAN, address and route in place despite cascading deletes |
| `NetworkProofs.RouteLands` | internal/dataplane/linux.go:190-285 | after a completed plan the route of a key is what its last put asked for, with the device the kernel resolved |
| `NetworkProofs.PlanReachesTarget` | internal/dataplane/linux.go:190-285 | from any mixture of previous and desired objects a completed plan ends in exactly the desired ones, if their route keys are distinct |
| `NetworkProofs.ReachesIffLanded` | internal/dataplane/linux.go:190-285 | for every pair of validated configurations a completed plan reaches the target if and only if each route is served by the last put of its key, given the devices the kernel resolved |
| `NetworkProofs.ReachesIffDistinct` | internal/config/manager.go:121-150 | for every validated target without two routes that differ only in naming a device, a completed plan reaches it if and only if its enabled routes have distinct destination and metric |
| `NetworkProofs.SharedKeyWitness` | internal/config/manager.go:121-150 | two validated default routes of one metric: the plan completes and the target is not reached |
| `NetworkProofs.RecoveryConverges` | internal/dataplane/network_restore.go:49-61 | from any mixture of the two journaled configurations, source-to-target then previous-to-target ends in exactly the target, if its route keys are distinct |
| `NetworkProofs.RecoveryIffLanded` | internal/dataplane/network_restore.go:49-61 | for all validated configurations the two recovery plans end in exactly the target if and only if each route is served by the last put of its key |
| `NetworkProofs.CompensationConverges` | internal/dataplane/controller.go:536-541 | the two undo plans end in exactly the rollback configuration, if its route keys are distinct |
| `NetworkProofs.CompensationIffLanded` | internal/dataplane/controller.go:536-541 | for all validated configurations the two undo plans end in exactly the rollback configuration if and only if each route is served by the last put of its key |
| `NetworkProofs.CompletedPlanVerifies` | internal/dataplane/network_transition.go:14-116 | for all validated configurations, after a completed plan the transition check passes if and only if every route is served by the last put of its key and, in the kernel it left, no removed route looks like a kept one |
| `NetworkProofs.VerifiesIffTold` | internal/dataplane/network_transition.go:77-111 | in terms of the configurations and the kernel answers: the check passes if and only if every route is served by the last put of its key, every stale route that shares key and gateway with a desired one names its device, and a desired one that does not is resolved to another device |
| `NetworkProofs.NamedDevicesVerify` | internal/dataplane/network_transition.go:77-111 | when both sides of every such pair name their device the check always passes |
| `NetworkProofs.DeviceRemovedIff` | internal/dataplane/network_transition.go:77-111 | opening the device of a gateway route passes if and only if the kernel resolves it to another device |
| `NetworkProofs.DeviceRemovedWitness` | internal/dataplane/network_transition.go:77-111 | a default route whose device is opened and resolved to the same one fails |
| `NetworkProofs.DeviceAddedNeverVerifies` | internal/dataplane/network_transition.go:77-111 | naming the device of an existing gateway route never passes the check |
| `NetworkProofs.DeviceAddedWitness` | internal/dataplane/network_transition.go:77-111 | a concrete pair of configurations for which that happens |
| `Activation.JournalStarts` | internal/dataplane/controller.go:324-333 | writing the journal in a settled state establishes what the journal promises |
| `Activation.ReconcileKeeps` | internal/dataplane/linux.go:88-109 | however a reconciliation and its compensation end, the kernel stays a mixture of the two configurations |
| `Activation.RestoreKeeps` | internal/dataplane/network_restore.go:63-75 | the same for one directed plan |
| `Activation.VerifiedReaches` | internal/dataplane/network_restore.go:63-75 | for all validated configurations a plan that completes and passes the transition check ends in exactly its target |
| `Activation.ReplayReaches` | internal/dataplane/network_restore.go:49-61 | replaying both journaled plans reaches the target network |
| `Activation.UndoReaches` | internal/dataplane/controller.go:536-541 | undoing reaches the rollback network |
| `ActivationController.Controller.constructor` | internal/dataplane/controller.go:76-150 | start-up on durable files gives a valid controller that is recovering exactly when a journal is present, and remembers nothing when there are no files |
| `ActivationController.Controller.ReconcileNetwork` | internal/dataplane/network_restore.go:49-61 | success means exactly the desired objects; failure leaves a mixture of journaled ones |
| `ActivationController.Controller.UndoKernel` | internal/dataplane/controller.go:514-541 | success restores network and tables of the rollback snapshot; any exit keeps the journal's promise |
| `ActivationController.Controller.UndoFiles` | internal/dataplane/controller.go:542-555 | the applied record is put back before the journal goes |
| `ActivationController.Controller.RestoreM3AfterFailure` | internal/dataplane/controller.go:514-597 | compensation ends restored with the fallback loaded, or stuck with the journal in place, or crashed in a durable state |
| `ActivationController.Controller.PrepareFallback` | internal/dataplane/controller.go:281-316 | the fallback is the recorded snapshot, or one with the recorded options, or with those of the target; the branch without a cache is never taken |
| `ActivationController.LegacyBorrows` | internal/dataplane/controller.go:285-316 | the fallback carries the options of whatever target comes exactly when neither a snapshot nor options are recorded |
| `ActivationController.FirstActivation` | internal/dataplane/controller.go:281-333 | the first activation of an appliance journals a fallback that denies everything under the options of the target, and a compensated failure leaves it loaded |
| `ActivationController.Controller.Activate` | internal/dataplane/controller.go:334-361 | success leaves the target as applied record and the kernel agreeing with it; any other exit keeps what the journal promises |
| `ActivationController.Controller.ApplySnapshot` | internal/dataplane/controller.go:237-381 | success: the target is applied, recorded and agrees, the journal kept only if asked and then naming the prepared fallback; a failure that is not stuck: nothing changed, or the previous state restored with the fallback loaded, or the target with only its journal left to remove; every exit durable |
| `ActivationController.Controller.FinalizeActivation` | internal/dataplane/controller.go:457-498 | the journal of a prepared activation goes only for the expected configuration and generation, and the kernel agrees with it |
| `ActivationController.Controller.RestoreAfterFailure` | internal/dataplane/controller.go:667-715 | the same compensation for the path without snapshots; the previous configuration is loaded with the options of the target |
| `ActivationController.Controller.ActivatePlain` | internal/dataplane/controller.go:599-665 | the plain path applies and agrees on success |
| `ActivationController.Controller.ApplyM2` | internal/dataplane/controller.go:160-169 | interception is refused; durable on every exit; success leaves no journal, the configuration recorded and its rules loaded; a failure that is not stuck: nothing changed, or the previous configuration loaded with the options of the target, or the target with only its journal left to remove |
| `ActivationController.Controller.ApplyRuntime` | internal/dataplane/controller.go:189-220 | whichever path is taken, success leaves the snapshot as view and applied record without a journal |
| `ActivationController.Controller.ApplyRuntimePrepared` | internal/dataplane/controller.go:386-421 | success leaves a recorded snapshot of the configuration and generation that the kernel agrees with |
| `ActivationController.Run` | internal/dataplane/controller.go:76-597 | over every sequence of activations of validated configurations, faults, crashes and restarts, an applied record without a journal describes the kernel, and with a journal the kernel holds only objects of its two configurations |
| `Policy.Compile` | internal/connectivity/program.go:89-153 | the rules are the enabled policies by priority; it fails exactly on duplicate priorities or an unsupported action of an enabled policy |
| `Policy.SortSorts` | internal/connectivity/program.go:121-122 | sorting orders by priority and is a permutation |
| `Policy.CompileSorted` | internal/connectivity/program.go:123-152 | the loop over sorted policies stops exactly at a repeated priority or an unsupported action |
| `Policy.FirstMatchIsFirst` | internal/connectivity/program.go:273-283 | the deciding rule matches and no rule before it does |
| `Policy.Evaluate` | internal/connectivity/program.go:273-328 | the loop returns the first match, or the default |
| `ForwardChain.CompileRuleset` | internal/dataplane/compiler.go:16-140 | the M1 chain, and exactly when compilation fails |
| `ForwardChain.RenderPolicy` | internal/dataplane/compiler.go:95-140 | the lines of one policy, one per service, in either direction |
| `ForwardChain.CompileCacheRules` | internal/dataplane/compiler_m2.go:63-68 | one cache rule per ordered pair of slots |
| `ForwardChain.CompileMarks` | internal/dataplane/compiler_m2.go:69-82 | the policies that mark, and with what |
| `ForwardChain.CompileM2Ruleset` | internal/dataplane/compiler_m2.go:30-141 | it fails exactly when M1 does, and yields the M2 chain over a list of the positive slots: cache rules, marked forward lines, marked reverse lines, default tail |
| `ForwardChain.CollectSlots` | internal/dataplane/compiler_m2.go:56-62 | exactly the positive slots, ascending |
| `ForwardProofs.AllLinesFirstMatch` | internal/dataplane/compiler.go:95-140 | the rendered lines end a new packet exactly when a rule matches its view, by a line of the first match and with its action |
| `ForwardProofs.ForwardMatchIsMatch` | internal/dataplane/compiler.go:95-140 | interface and address selectors of a line hit a new packet exactly when the policy matches its inferred view |
| `ForwardProofs.TraverseMarked` | internal/dataplane/compiler_m2.go:129-135 | adding mark statements changes neither verdict nor deciding rule |
| `ForwardProofs.M1DecidesNew` | internal/dataplane/compiler.go:60-93 | for every configuration and new packet the M1 chain gives the program's verdict |
| `ForwardProofs.M2DecidesNew` | internal/dataplane/compiler_m2.go:30-141 | the same for the M2 chain, with or without cache and with either default |
| `Marks.UnpackPack` | internal/dataplane/mark.go:21-35 | packing loses nothing and fits 32 bits, whatever the low byte |
| `Marks.PackInjective` | internal/dataplane/mark.go:21-29 | in-range marks with one encoding are one mark |
| `Marks.PackNonzero` | internal/dataplane/mark.go:21-29 | zero is returned exactly for a mark that does not fit |
| `Marks.SetHits` | internal/dataplane/mark.go:37-56 | a set mark hits exactly itself and keeps the low byte |
| `Marks.ClearMisses` | internal/dataplane/mark.go:44-56 | a cleared mark hits nothing and keeps the low byte |
| `Marks.HitUnpacks` | internal/dataplane/mark.go:31-56 | a hit reads back as the expected mark |
| `Marks.UnpacksHit` | internal/dataplane/mark.go:31-56 | on 32-bit marks reading back is the same as hitting |
| `Epochs.EpochAllocator.Allocate` | internal/dataplane/epoch.go:65-78 | an epoch is returned only after it is on disk, above everything issued before, at most 4095 |
| `Epochs.NewEpochAllocator` | internal/dataplane/epoch.go:30-63 | the count continues within a boot and restarts in another; exactly a damaged file is an error |
| `Epochs.EpochAllocator.Persist` | internal/dataplane/epoch.go:80-96 | what the file holds after each way a write can end |
| `Epochs.EpochsNeverReused` | internal/dataplane/epoch.go:30-78 | one boot never issues an epoch twice, however writes fail and processes die |
| `Epochs.NewBootRestarts` | internal/dataplane/epoch.go:57-60 | another boot starts again at one |
| `FastPath.MakeZoneSlots` | cmd/ngfw-engine/main.go:455-469 | slots are in 1..63, tell zones apart, and cover all zones when there are at most 63 |
| `FastPath.NextKeeps` | internal/dataplane/compiler_m2.go:53-135 | every event of a run, as long as installs are current, keeps: each marked flow has a grant of the snapshot its epoch was allocated for |
| `FastPath.RuleKinds` | internal/dataplane/compiler_m2.go:53-135 | every cache rule carries a packed pair of slots, every pair has one, and every mark set comes from an ALLOW policy with that pair |
| `FastPath.CacheAcceptsOnlyGranted` | internal/dataplane/compiler_m2.go:53-135 | over every run whose installs are of snapshots with an epoch this boot allocated for them, a packet accepted by a cache rule belongs to a flow an ALLOW line of a policy with that zone pair accepted under the installed configuration and epoch |
| `FastPath.OneBootIsGuarded` | internal/dataplane/epoch.go:65-78 | within one boot, as long as no fallback borrows the epoch of another configuration, every install is of a current snapshot |
| `FastPath.BorrowedIsStale` | internal/dataplane/controller.go:293-316 | a fallback under the options of a current target is itself current exactly when it is the same configuration or nothing is cached |
| `FastPath.LegacyWitness` | internal/dataplane/controller.go:293-316 | a concrete run within one boot: an activation fails after its rules were loaded, the fallback comes back under its epoch, and a flow marked under the target passes |
| `FastPath.SharedEpochViolates` | internal/dataplane/controller.go:296-320 | two snapshots with one epoch break the property whenever one marks a pair the other caches |
| `FastPath.StaleBootWitness` | internal/dataplane/epoch.go:57-60 | a concrete run across a reboot that does so |
| `FastPath.SoundIff` | internal/dataplane/compiler_m2.go:53-135 | after installing a snapshot every cache accept is granted by it if and only if every flow whose mark it caches already has a grant of it |
| `FastPath.OnlyTracked` | internal/dataplane/compiler_m2.go:53-135 | for options in range only tracked flows matter |
| `FastPath.RunSoundIff` | internal/dataplane/compiler_m2.go:53-135 | over every run, stale snapshots, borrowed epochs and reboots included, all states are sound if and only if every install meets that condition |
| `FastPath.ZeroRuleIff` | internal/dataplane/compiler_m2.go:63-68 | a rule accepting unmarked packets exists exactly when the epoch or a slot is out of range |
| `FastPath.EngineOptionsFit` | cmd/ngfw-engine/main.go:76-88 | the options the engine builds, with an allocated epoch or none, never yield such a rule |
| `PortRanges.MergeInPlace` | internal/connectivity/request_gate.go:86-96 | the compaction overwrites a prefix of the array with the merged ranges |
| `PortRanges.MergeNormal` | internal/connectivity/request_gate.go:86-96 | merging sorted ranges gives ascending, disjoint, non-adjacent ones |
| `PortRanges.MergePorts` | internal/connectivity/request_gate.go:86-96 | and the same ports |
| `PortRanges.RequestGateTCPPorts` | internal/connectivity/request_gate.go:65-97 | ascending, disjoint, non-adjacent ranges of exactly the gated TCP ports |
| `PortRanges.NormalUnique` | internal/connectivity/request_gate.go:86-96 | a normal form is determined by its ports |
| `PortRanges.GatePortsCanonical` | internal/connectivity/request_gate.go:65-97 | two rules have equal gate ports if and only if they gate the same ports |
| `Tproxy.CompileM4` | internal/connectivity/request_gate.go:191-247 | which policies get a gate and with which ports, and when compilation fails |
| `Tproxy.GatesLookup` | internal/connectivity/request_gate.go:191-247 | a policy has a gate under its id exactly when it asks for one, and it is its own |
| `Tproxy.SelectRequestGate` | internal/connectivity/request_gate.go:282-298 | the gate of the first match, for TCP on a gated port only |
| `Tproxy.CompileM4ProxySelection` | internal/dataplane/compiler_m4.go:13-48 | disabled at once without interception; otherwise one entry per rule with its gate, disabled without gates, refused exactly when compilation or validation fails |
| `Tproxy.SplitTransportPorts` | internal/dataplane/compiler_m4_tproxy.go:127-143 | ranges are split around port 80, in order |
| `Tproxy.AllowsQuic` | internal/dataplane/compiler_m4_tproxy.go:145-163 | true exactly when the services match UDP 443 |
| `Tproxy.RenderSelection` | internal/dataplane/compiler_m4_tproxy.go:23-123 | the whole chain in order, and exactly when rendering is refused |
| `Tproxy.RenderEntry` | internal/dataplane/compiler_m4_tproxy.go:76-120 | the rules of one policy: intercept, for IPv4 only, and fail-closed pairs, QUIC drops, returns |
| `TproxyProofs.TransportPortsSame` | internal/dataplane/compiler_m4_tproxy.go:127-143 | splitting keeps the ports and isolates port 80 |
| `TproxyProofs.EntryWalk` | internal/dataplane/compiler_m4_tproxy.go:76-120 | the rules of an entry end a packet exactly when its policy matches, with the decision for that policy |
| `TproxyProofs.EntriesWalk` | internal/dataplane/compiler_m4_tproxy.go:76-120 | all entries together decide by the first matching policy |
| `TproxyProofs.ChainDecides` | internal/dataplane/compiler_m4_tproxy.go:23-123 | the chain decides every packet past the prefix by its first match |
| `TproxyProofs.InterceptsExactlyGated` | internal/dataplane/compiler_m4_tproxy.go:76-121 | past the prefix, unicast TCP is taken exactly when a gate is selected: over IPv4 to the live listener, port 80 to HTTP and the rest to HTTPS; over IPv6 or without a listener it is dropped |
| `TproxyProofs.DropsExactlyBlockedQuic` | internal/dataplane/compiler_m4_tproxy.go:106-110 | past the prefix, UDP 443 is dropped exactly when its first match is gated with QUIC blocked |
| `TproxyProofs.PassesTheRest` | internal/dataplane/compiler_m4_tproxy.go:76-121 | no other packet past the prefix is touched |
| `Reachability.CoverSound` | internal/config/policy_reachability.go:121-235 | selector cover implies match implication for every view |
| `Reachability.PrefixCoverSound` | internal/config/policy_reachability.go:154-186 | a prefix that covers another contains its addresses |
| `Reachability.UnreachablePolicies` | internal/config/policy_reachability.go:53-73 | exactly the reportable policies are reported, each with the first policy that shadows it |
| `Reachability.RemovingReportedIsInvisible` | internal/config/policy_reachability.go:53-73 | removing all reported policies at once changes no evaluation |
| `Reachability.RemovingKeepsCompilable` | internal/connectivity/program.go:89-153 | what is left still compiles |
| `TlsExclusions.DomainCoverSound` | internal/config/tls_exclusion.go:161-183 | a covering pattern matches every host the covered one does |
| `TlsExclusions.DomainCoverTransitive` | internal/config/tls_exclusion.go:161-173 | pattern cover is transitive |
| `TlsExclusions.ExclusionCoverSound` | internal/config/tls_exclusion.go:133-226 | an exclusion that covers another matches whatever the other matches |
| `TlsExclusions.ShadowedExclusions` | internal/config/tls_exclusion.go:88-125 | exactly the covered exclusions are reported, each with the first that covers it |
| `TlsExclusions.Compile` | internal/connectivity/request_gate.go:249-276 | only enabled entries remain and no first match changes |
| `TlsExclusions.MatchTLSExclusion` | internal/connectivity/request_gate.go:122-135 | the first matching exclusion |
| `TlsExclusions.MatchesRule` | internal/connectivity/request_gate.go:137-171 | a rule matches exactly when each of its non-empty groups has a member that does |
| `TlsExclusions.DeletingShadowedIsInvisible` | internal/config/tls_exclusion.go:88-125 | deleting every reported exclusion leaves the match of every host and destination unchanged |
| `Guards.DropsExactlyLive` | internal/dataplane/inspection_guards.go:76-84 | while the index is exact, the lookup drops exactly the live owned keys and nothing else is live |
| `Guards.NothingOwnedNothingLeft` | internal/dataplane/inspection_guards.go:188-240 | an exact index without owned keys is the empty one |
| `Guards.InstallExec` | internal/dataplane/inspection_guards.go:160-165 | on an exact index the install batch always runs, keeps the index exact and makes exactly its key live |
| `Guards.RemoveRuns` | internal/dataplane/inspection_guards.go:207-235 | the removal batch deletes only unreferenced objects and runs exactly when the element it saw is still there |
| `Guards.RemoveKeeps` | internal/dataplane/inspection_guards.go:207-235 | the removal batch keeps the index exact and takes exactly its key from the live ones |
| `Guards.RenewRuns` | internal/dataplane/inspection_guards.go:259-264 | the renewal batch runs exactly when the element is live and then leaves the same table |
| `GuardManager.InspectionGuardManager.ZonesNeeded` | internal/dataplane/inspection_guards.go:86-104 | exactly the zones of the owned keys of an id, with one key added or left out, ascending |
| `GuardManager.InspectionGuardManager.Installed` | internal/dataplane/inspection_guards.go:106-112 | the element is read first and the map entry only if it is there; either read can fail |
| `GuardManager.InspectionGuardManager.Install` | internal/dataplane/inspection_guards.go:138-187 | what is owned and what the kernel holds afterwards, for every reply and expiry |
| `GuardManager.InspectionGuardManager.Remove` | internal/dataplane/inspection_guards.go:188-240 | the same for a removal |
| `GuardManager.InspectionGuardManager.Renew` | internal/dataplane/inspection_guards.go:241-277 | the same for a renewal, which falls back to an install |
| `GuardProofs.InstallExact` | internal/dataplane/inspection_guards.go:138-187 | an install keeps the index exact if and only if it does not orphan its key |
| `GuardProofs.InstallRefines` | internal/dataplane/inspection_guards.go:138-187 | after a successful install its key is owned and dropped; every other key is dropped as before unless it expired |
| `GuardProofs.OrphanWitness` | internal/dataplane/inspection_guards.go:166-173 | a first install with a lost reply and a failed readback leaves a dropped key nobody owns |
| `GuardProofs.RemoveExact` | internal/dataplane/inspection_guards.go:188-240 | a removal keeps the index exact if and only if it does not strand its key; success means the key is no longer owned |
| `GuardProofs.RemoveRefines` | internal/dataplane/inspection_guards.go:188-240 | after a successful removal its key is neither owned nor dropped; every other key, in any zone, is dropped as before unless it expired |
| `GuardProofs.StrandedStays` | internal/dataplane/inspection_guards.go:216-235 | no removal of a stranded last key of an id succeeds, until its objects are rebuilt |
| `GuardProofs.StrandWitness` | internal/dataplane/inspection_guards.go:207-235 | from the empty table, one install and one removal with a lost reply strand the key, and no removal succeeds in that state |
| `GuardProofs.InstallMends` | internal/dataplane/inspection_guards.go:138-187 | an install of a stranded key makes the index exact again if and only if its batch is executed |
| `GuardProofs.RenewMends` | internal/dataplane/inspection_guards.go:241-277 | the same for a renewal, which turns into an install |
| `GuardProofs.RenewExact` | internal/dataplane/inspection_guards.go:241-277 | a renewal keeps the index exact if and only if it does not turn into an orphaning install of an unowned key; success means the key is dropped |
| `GuardProofs.RunExact` | internal/dataplane/inspection_guards.go:138-277 | through any commands, expiries and lost replies, the index is exact at every point if and only if no command before it orphans or strands its key |
| `GuardProofs.IndexIsFlatSet` | internal/dataplane/inspection_guards.go:76-277 | as long as no command slips, whatever replies are lost, the index drops exactly the live owned keys and is empty when nothing is owned |
| `Coordination.Manager.Commit` | internal/config/manager.go:678-724 | published only if applied and persisted; otherwise unchanged and re-applied at the old generation |
| `Coordination.Manager.SetCandidate` | internal/config/manager.go:480-493 | a saved candidate replaces the old one and loses its validation; accepted exactly if valid |
| `Coordination.Manager.Rollback` | internal/config/manager.go:758-798 | running and previous swap under a newer version, or nothing changes |
| `Coordination.Runtime.Activate` | internal/engine/runtime.go:621-652 | generations only rise; every session that is not revoked waits for the new one |
| `Coordination.Service.RestoreAfterFailure` | internal/engine/runtime_service.go:103-116 | the previous configuration comes back as a newer generation, exactly when its calls work and it compiles |
| `Coordination.Service.Record` | internal/engine/runtime_service.go:252-262 | a receipt is kept under its operation, others are only ever forgotten, and never more than 1024 are held |
| `Coordination.Service.CommitConfig` | internal/engine/runtime_service.go:156-264 | repeated operations change nothing; success and every compensated return leave the parties in agreement; exactly when it succeeds |
| `Coordination.Service.RollbackConfig` | internal/engine/runtime_service.go:266-370 | the same for a rollback |
| `Coordination.Serve` | internal/engine/runtime_service.go:103-370 | over any sequence of requests versions and generations never fall, and agreement holds up to the first failed compensation |
| `Coordination.RollbackTwice` | internal/engine/runtime_service.go:266-370 | two successful rollbacks restore the running and the previous configuration, two versions later, in agreement |
| `ClientHello.ParseTLSClientHello` | internal/inspection/tls.go:22-60 | the position and buffer loop computes the record-by-record reading without leaving its input |
| `ClientHello.ParseBody` | internal/inspection/tls.go:62-166 | the body parser computes the part-by-part reading |
| `ClientHello.ParseMessage` | internal/inspection/tls.go:44-57 | the handshake header decides between waiting, refusing and the body |
| `ClientHello.ParseExtensions` | internal/inspection/tls.go:105-163 | the loop over extensions computes the entry-by-entry reading |
| `ClientHello.ParseNames` | internal/inspection/tls.go:122-136 | the same for server names |
| `ClientHello.ParseProtocols` | internal/inspection/tls.go:141-151 | the same for protocols |
| `ClientHello.ParseVersions` | internal/inspection/tls.go:156-161 | the same for versions |
| `ClientHelloProofs.PrefixMonotone` | internal/inspection/tls.go:22-60 | once an answer is given, more input never changes it |
| `ClientHelloProofs.SplitInvisible` | internal/inspection/tls.go:22-60 | for any amount of input the answer is that of the joined payload, unless a record that begins before the answer is known ends past 64 KiB, which is refused |
| `ClientHelloProofs.SplitsAgree` | internal/inspection/tls.go:22-60 | two ways to cut one payload agree if and only if both or neither fit, or the payload is refused anyway |
| `ClientHelloProofs.DeclaredTooLong` | internal/inspection/tls.go:50-53 | a hello that declares more than 64 KiB is refused however it is cut |
| `ClientHelloProofs.OverrunRefuses` | internal/inspection/tls.go:34-37 | bytes after a hello are harmless in their own record and refuse it when they share its last record and run past the limit |
| `ClientHelloProofs.CutWitness` | internal/inspection/tls.go:34-37 | a hello of 65051 bytes and 1000 more, cut in two ways with two answers |
| `ClientHelloProofs.ExtensionsRead` | internal/inspection/tls.go:105-163 | every well-formed extension block is read entry by entry |
| `ClientHelloProofs.NamesRead` | internal/inspection/tls.go:118-136 | every encoded name list is read back as its first acceptable host name |
| `ClientHelloProofs.ProtocolsRead` | internal/inspection/tls.go:137-151 | every encoded protocol list is read back as its first protocol |
| `ClientHelloProofs.VersionsRead` | internal/inspection/tls.go:152-161 | every encoded version list is read back as TLS 1.3 exactly when offered |
| `ClientHelloProofs.AppliedAllMeans` | internal/inspection/tls.go:105-163 | across all extensions the first acceptable host name and the first protocol win, and an offered 0x0304 sets the version |
| `ClientHelloProofs.BodyRead` | internal/inspection/tls.go:62-166 | every body encoded per section 4.1.2 of RFC 8446 is read back as what it announces |
| `ClientHelloProofs.HelloRead` | internal/inspection/tls.go:22-166 | a hello in any records yields the first acceptable host_name (section 3 of RFC 6066), the first ALPN protocol (section 3.1 of RFC 7301), version and cipher; one of more than 64 KiB is refused |
| `SecurityEventStore.Store.constructor` | internal/engine/security_events.go:40-50 | an empty store with defaulted limits |
| `SecurityEventStore.Store.EvictOldest` | internal/engine/security_events.go:106-117 | the oldest event leaves ring, index, bytes and counters together |
| `SecurityEventStore.Store.Add` | internal/engine/security_events.go:53-104 | each outcome, with the exact contents and counters it leaves |
| `SecurityEventStore.Store.UpdateCorrelation` | internal/engine/security_events.go:129-194 | a refusal evicts nothing; otherwise only older events go, as few as needed, and the final reject is unreachable |
| `SecurityEventStore.RoomIsLeast` | internal/engine/security_events.go:88-90 | making room drops the shortest run of oldest events |
| `SecurityEventStore.RoomFits` | internal/engine/security_events.go:88-90 | making room reaches it whenever the event fits at all, and otherwise empties the store |
| `SecurityEventStore.ShedFits` | internal/engine/security_events.go:159-187 | shedding older events reaches the budget if and only if what must stay fits it |
| `SecurityEventStore.LateRefusalEmpties` | internal/engine/security_events.go:82-94 | an event is refused after the first size check exactly when its numbered form outgrows the budget, and then the store is empty |
| `SecurityEventStore.LateRefusalWitness` | internal/engine/security_events.go:82-94 | the tenth event of a ten-byte store fits with one digit and not with two: the ninth is evicted and the tenth refused |
| `SecurityEventStore.AddsTip` | internal/engine/security_events.go:82-104 | after an addition the newest stored event carries the counter, or the store is empty |
| `SecurityEventStore.UpdatesTip` | internal/engine/security_events.go:174-194 | re-correlation keeps that |
| `SecurityEvents.EvictedValid` | internal/engine/security_events.go:106-117 | eviction keeps index, order, sizes and counters exact |
| `SecurityEvents.PushedValid` | internal/engine/security_events.go:95-102 | appending keeps them exact |
| `SecurityEvents.ReplacedValid` | internal/engine/security_events.go:188-192 | replacing in place keeps them exact |
| `Paging.List` | internal/engine/security_events.go:196-246 | one page: limit clamped, gap and reset flags, items and cursor |
| `SecurityEventStore.Store.Query` | internal/engine/security_events.go:196-246 | the page of the events in the ring, oldest first, which rise and are not ahead of the counter |
| `Paging.FitPage` | internal/management/inspection_api.go:201-228 | items are trimmed from the end until the page fits, or refused when one does not |
| `Paging.ScanMeans` | internal/engine/security_events.go:226-240 | the items are exactly the matches between the two cursors, and nothing is left when no more is promised |
| `Paging.PageDelivers` | internal/engine/security_events.go:196-246 | a page delivers exactly the matches up to its cursor, which never passes the store; only a cursor ahead of its own stream gets an empty page and is set back |
| `Paging.FitDelivers` | internal/management/inspection_api.go:201-228 | a trimmed page still holds exactly the matches up to its cursor and makes progress |
| `Paging.TrimmedCursor` | internal/management/inspection_api.go:217-226 | a trimmed page is a proper non-empty prefix whose cursor is its last item, but never below the one asked from |
| `Paging.Drain` | internal/engine/security_events.go:196-246 | following cursors over a fixed store ends and delivers every match once, in order, unless one page cannot fit |
| `Reading.UnseenEvictionWarns` | internal/engine/security_events.go:210-225 | an event evicted before it was read makes the next page over a non-empty store report a gap |
| `Reading.NoGapNoLoss` | internal/engine/security_events.go:222-225 | a page without a gap report misses no match that was ever stored above the cursor |
| `Reading.ReadingIsFaithful` | internal/engine/security_events.go:196-246 | however writes, refusals, evictions and polls interleave, a reader gets each match once in order, or was warned; and in any case it has every match at or below its cursor that is still stored; the same with re-correlations if none makes an event match |
| `Reading.FaithfulIff` | internal/engine/security_events.go:129-246 | a reader is faithful over every run with re-correlations if and only if its filter never starts to match an event because of one |
| `Reading.SafeFilters` | internal/engine/security_events.go:248-257 | which filters those are: the ones that select neither by session nor by correlation state, or that no re-correlated event can match |
| `Reading.LateCorrelationWitness` | internal/engine/security_events.go:129-246 | from an empty store: the reader of a session passes an alert before it is correlated, and its correlation comes too late |
| `Paging.ResetTrimExact` | internal/management/inspection_api.go:217-226 | a trimmed page after a reset, for any old cursor, is exact if and only if no match lies between its last item and the old cursor |
| `Paging.ResetExactIff` | internal/management/inspection_api.go:217-226 | whatever the encoding and its limit, pages after a reset are exact if and only if every match but the first is newer than the old cursor, or the page limit is one |
| `Paging.StaleCursorSkips` | internal/management/inspection_api.go:217-226 | with an old cursor not below the new counter, as after a restart, no trimmed page is exact |
| `Paging.ResetTrimSkips` | internal/management/inspection_api.go:217-226 | a restarted store with two events and a client five events into the old stream: the second event is never delivered |
| `GateEvidenceStore.EvidenceStore.RemoveDecision` | internal/engine/gate_request.go:151-157 | map, list and bytes lose exactly one record |
| `GateEvidenceStore.EvidenceStore.constructor` | internal/engine/gate_request.go:109-121 | an empty store with clamped limits |
| `GateEvidenceStore.EvidenceStore.StoreDecision` | internal/engine/gate_request.go:94-149 | the record replaces an earlier one of its request and is last; the oldest others make room |
| `GateEvidenceStore.EvidenceStore.ReportResult` | internal/engine/gate_result.go:14-94 | each outcome; an accepted annotation moves the record to the back within the budget |
| `GateEvidenceStore.RepeatChangesNothing` | internal/engine/gate_result.go:55-61 | an identical report before expiry is accepted again and changes nothing |
| `GateEvidence.RoomFits` | internal/engine/gate_request.go:131-138 | the eviction loop always reaches room and drops no more than it must |
| `GateEvidence.RemovedValid` | internal/engine/gate_request.go:151-157 | removal keeps map and list in bijection, order, sizes and bytes |
| `GateEvidence.AppendedValid` | internal/engine/gate_request.go:139-142 | appending keeps them exact |
| `GateEvidenceStore.EvidenceStore.ListEvidence` | internal/engine/gate_request.go:229-274 | exactly the limit smallest unexpired sequences above the cursor, ascending, with an exact flag for more |
| `EvidenceReading.Follow` | internal/engine/gate_request.go:229-274 | a client that follows cursors while decisions and annotations are stored gets versions in rising order, each once and only stored ones, has everything stored at or below its cursor, and is told that nothing is left exactly when nothing is |
| `GateEvidenceStore.EvidenceStore.Select` | internal/engine/gate_request.go:238-264 | the bounded selection over the map, with expired records dropped on the way |
| `GateEvidenceStore.EvidenceStore.SessionEvidence` | internal/engine/gate_request.go:190-227 | exactly the limit largest of a session, descending |
| `Selection.Visit` | internal/engine/gate_request.go:246-261 | the kept elements are still the best of everything visited so far |
| `Selection.BestUnique` | internal/engine/gate_request.go:238-264 | the best elements in order are unique, so the order of the visit does not matter |
| `Applications.MergeApplication` | internal/inspection/application.go:50-127 | the merged identity, field by field |
| `Applications.MergeNeverFalls` | internal/inspection/application.go:87-126 | merging never lowers confidence, nor below the evidence it adopts |
| `Applications.MergeAllMeans` | internal/inspection/application.go:50-127 | over any evidence the times are the extremes seen and confidence only grows |
| `Applications.ExtremesAreBounds` | internal/inspection/application.go:109-124 | the extremes bound every time seen |
| `Applications.ExtremesAreSeen` | internal/inspection/application.go:109-124 | and were themselves seen |
| `Reducer.EvaluateAppRestriction` | internal/engine/inspection_reducer.go:104-124 | the policy state from evidence, deadline and allowed names |
| `Reducer.ReduceInspection` | internal/engine/inspection_reducer.go:21-102 | the edited copy and the intent |
| `Reducer.HandleSessionChanged` | internal/engine/inspection_runtime.go:531-575 | re-selection keeps the identity and resets the rest, and issues an intent for a forbidden application without an applied guard |
| `Reducer.IssuedMatches` | internal/engine/inspection_reducer.go:92-97 | an issued intent, of an observation or a re-selection, matches the state it is committed with, and only inline prevention issues one |
| `Reducer.AtMostOneInFlight` | internal/domain/inspection_intent.go:27-44 | over every run of observations, re-selections, acknowledgements and generation changes at most one issued intent can still be executed |
| `Reducer.EvidenceDecides` | internal/engine/inspection_reducer.go:72-77 | an observation leaves a pending drop guard pending if and only if inspection is off or the merged evidence, evaluated under the selection, forbids the application |
| `Reducer.GivenUpForever` | internal/domain/inspection_intent.go:27-44 | an intent whose operation is no longer pending never matches again |
| `Reducer.ActivationEnds` | internal/domain/inspection_intent.go:27-44 | a generation change ends every earlier intent |
| `Reducer.ReselectionEnds` | internal/engine/inspection_runtime.go:531-566 | a re-selection that commits ends every earlier intent |
| `Reducer.OnlyOffSuspends` | internal/engine/inspection_reducer.go:32-35 | within a generation an observation leaves a matching intent matching if and only if inspection is on and the merged evidence forbids the application; with inspection off the guard stays pending |
| `Reducer.SuspendedRevives` | internal/engine/inspection_reducer.go:32-35 | a concrete run in which a suspended intent matches again |
| `Reducer.IdentityIsMerge` | internal/engine/inspection_reducer.go:53-59 | over every run, generation changes and re-selections included, the stored identity is the merge of all evidence observed under the generation in force |
| `ObservationQueue.StepBalances` | internal/engine/inspection_runtime.go:190-233 | each atomic step keeps the counter equal to queued plus in-flight bytes and within the limit |
| `ObservationQueue.StepAccounts` | internal/engine/inspection_runtime.go:190-233 | each step keeps every call enqueued once, dropped once or still running, in order |
| `ObservationQueue.QueueAlwaysBalanced` | internal/engine/inspection_runtime.go:190-233 | both hold over every interleaving of any number of submitters and the loop |
| `ObservationQueue.QuietIsConserved` | internal/engine/inspection_runtime.go:190-233 | at rest the counter is zero and every call was handled or counted as dropped |

## Left out

- NetworkProofs.PlanReachesTarget: assumes distinct route keys, which validation does not establish; ReachesIffLanded has no such assumption.
- NetworkProofs.RecoveryConverges: assumes that the route keys of the target are distinct; RecoveryIffLanded does not.
- NetworkProofs.CompensationConverges: assumes that the route keys of the rollback configuration are distinct; CompensationIffLanded does not.
- NetworkProofs.ReachesIffDistinct: leaves out two routes that differ only in one leaving its device open, because the kernel picks that device; ReachesIffLanded covers them.
- NetworkProofs.CompletedPlanVerifies: assumes that the VLANs of the target have no VLANs of their own in the kernel, which validation excludes for managed ones.
- ActivationController.Controller.ApplyM2: neither side uses inspection, as in every call ApplyRuntime makes; the plain path does not unload inspection selectors.
- ActivationController.Controller.RestoreAfterFailure: neither side uses inspection or interception, as in its only caller.
- ActivationController.Run: a second failure inside one process after a failed compensation, the drift repairer and machine reboots are not events of the run; restart is the retry path.
- NetworkReconciler.Reconciler.EnsureVLAN: address flushes when a link goes down and administrative cascades onto VLAN children are not modelled.
- Policy.Compile: the parsing of addresses and services and the zone prefixes used to infer zones of traffic without interfaces are not modelled.
- Reachability.UnreachablePolicies: selectors are parsed already; a policy whose selectors do not parse, which the source treats as neither covering nor covered, is not modelled.
- FastPath.CacheAcceptsOnlyGranted: the boot id is assumed to read the same throughout a boot, and replacing the epoch file is one step; the remove-and-retry fallback of a failed rename is not modelled.
- Coordination.Service.CommitConfig: authors, comments, timestamps and checksums are left out, the runtime is always present, and a configuration file that is replaced although persisting reports an error is not told apart from one that is not replaced.
- Tproxy.CompileM4: the capability checks of the M3 compiler and the field validators are preconditions or left out.
- Tproxy.RenderSelection: the returns of one entry are listed in service order; the source sorts them, which cannot matter because all of them return.
- Reading.ReadingIsFaithful: the 64-bit sequence counter is not exhausted.
- GuardManager.InspectionGuardManager.Installed: an expiry between its two reads is not modelled; the second read is of the map, whose entries do not expire, so it is the same as an expiry after the call.
- SecurityEventStore.Store.Add: defaults for blank fields and the wrap of the 64-bit sequence are not modelled.
- Reducer.ReduceInspection: coverage, source lists, observation times, severities and notifications are left out; the enforcement a sensor reports is an input.
- ObservationQueue.QueueAlwaysBalanced: the other channels and tickers of the loop do not touch the queue and are left out.
- Marks.UnpackPack: shifts and masks are written as products and remainders, because the fields do not overlap.
- Execution and parsing of nft and ip commands, JSON, sysctl, netlink, HTTP, IPC, certificates, password hashing and the user interface.
- Renewal and removal intents, the lookup that correlates an observation, the session store beyond its compare-and-swap, and the proxy itself.
- NAT rendering, the DNAT guard of the forward hook, and the runtime tables for blocked sources and revoked flows.
- The long field validators: their conclusions (unique ids, names and priorities, valid ports and prefixes, zones with interfaces) are preconditions.
- Legacy engine, risk, behaviour and reputation code.
