# MacVz in Dafny

A model of the MacVz node agent (a Virtual Kubelet provider that runs Pods as Apple micro-VMs), with proofs about
every input, every run or every reachable state. `dafny verify dfyconfig.toml` checks the whole project.

The model follows the agent's own division of labour.

- **Pod lifecycle** (`Status`, `Provider`, `Lifecycle`, `RestartSafety`, `AddressSafety`, `StatusSafety`, `Boundaries`,
  `Probe`, `ProbeWrites`, `ReadySafety`, `ProberSafety`, `ReadyRuns`, `StaleRuns`, `VmHarm`, `VmSafety`, `VmRuns`,
  `EndpointSafety`, `EndpointRuns`, `Outcomes`, `Launches`, `RestartCount`). CreatePod, DeletePod, status reconcile, probe loops and restart goroutines share one table and release its
  lock around runtime calls. Each lock section and each group of runtime calls is one step of a transition system; the
  runtime is an arbitrary environment. CreatePod is serialised by its own mutex, so there is at most one creator;
  deleters, restarters and probers are any number. Pods carry incarnation numbers, because restart goroutines find
  their Pod by key.
- **Pod addresses** (`Net`, `Ipam`). Addresses are big-endian bytes, CIDR blocks are aligned integer ranges, and the
  allocator is an object with its two maps and its cursor.
- **Host data plane** (`Text`, `Numbers`, `Helper`, `Anchor`, `PodNet`, `RouterObject`, `ServicePath`, `WireGuard`,
  `Mesh`, `NodeConfig`, `Agreement`, `Commands`, `RouterDrift`, `AnchorSound`, `Requests`, `ServiceRedirect`, `MeshHost`,
  `WgRead`). The printers of pf anchors, wg configs and commands are modelled down
  to characters, and so is the privileged helper that parses and judges them; both sides come from one config.
  What passes the helper is also described as a language, apart from its checks, and what rules and commands do as pf and
  the host tools would do it.
- **Service routes** (`SvcRoute`, `Controller`, `RouteBounds`, `RouteProgress`). Informer caches, pending notifications, work queue, workers and router
  as one transition system.
- **Orphan reaper** (`Workload`, `Reaper`). Passes over abstract time, and the names it recognises.
- **Text and paths** (`Env`, `Paths`, `PathLaws`). `$(VAR)` expansion and path confinement.

`net.ParseIP`, `net.IP.String` and `net.ParseCIDR` are a parameter of which only this is used: they accept only
address characters, and a printed address reads back. Unicode lower-casing, host:port splitting, key parsing, the
workload hash suffix, the clock and every runtime answer are parameters too.

## What is false, and when it holds

- A Pod re-created while an old restart of its key is in flight ends with two restarts
  (`Boundaries.RecreateDoublesRestart`); the exact condition is `Boundaries.CommitKeepsIff`.
- Overlapping create and delete of one key can put two live Pods on one address (`Boundaries.OverlapSharesIP`); the
  exact condition is `Boundaries.ReleaseKeepsIff`.
- A Pod that arrives with a terminated container status can report Failed under Always
  (`Boundaries.ArrivedFailedReports`); exactly when is `Status.FailedIff`,
  and when such a Pod reports Succeeded `Status.SucceededIff`.
- A Pod can be Ready though a declared startup or readiness probe has not passed: by the reconcile of its own CreatePod
  (`ReadyRuns.CommitReadyUnprobed`), when that reconcile did not see it run and so never armed its probers
  (`ReadyRuns.NeverArmedReady`), while a restart has stopped them (`ReadyRuns.MidRestartReady`), and after such a restart has
  failed until a later restart (`ReadyRuns.FailedRestartReady`). The comment in status.go promises otherwise. Exactly when is
  `ReadySafety.ReadyExact`.
- With probers armed it can be Ready, too, by the write of a prober of the VM before (`StaleRuns.StaleWriteReady`): a
  prober stopped between waking and its write still writes, and one replaced without being stopped goes on writing. The
  flags are what the Pod's own probes earn exactly as `ReadySafety.FlagsExact` says; when no such write can happen is
  `ProberSafety.NoForeign`.
- A readiness probe with an unsupported handler keeps a Pod with armed probers unready, though the comment in the code says
  such a probe does not gate (`StaleRuns.IgnoredNeverReady`); exactly when is `ReadySafety.IgnoredReadyIff`.
- A goroutine can destroy the VM of a Pod it was not launched for: a restart that finds its Pod deleted
  (`VmRuns.AdoptedVMReaped`), or a prober that failed a Never Pod (`VmRuns.SuccessorKilled`). Exactly when is
  `VmHarm.UnharmedIff`, step by step `VmHarm.StepHarmsIff`; not when names of different keys differ and creates wait for
  such goroutines (`VmSafety.NoTrackedVMDestroyed`).
- A create can destroy a VM that survived an agent restart (`Lifecycle.SurvivorDestroyed`), though the comment in the code
  says it must not; exactly when is `Lifecycle.DestroysSurvivorIff`.
- An endpoint can stay at the router with nobody left to detach it: after a delete that overlaps a restart
  (`EndpointRuns.OverlapStrands`) and after an attach whose load fails (`EndpointRuns.FailedAttachStrands`). Exactly when is
  `EndpointSafety.EndpointsOwnedIff`, step by step `EndpointSafety.StepStrandsIff`.
- Retrying a failed Detach or DetachService returns nil with the anchor out of step (`RouterDrift.DetachRetryStale`,
  `RouterDrift.DetachServiceRetryStale`); when nil means in step is `PodNet.NilMeansSyncedIff`.
- The helper refuses every anchor with an endpoint when `mesh.interface` is set but the mesh is off and the name is not
  a vmnet one (`Agreement.AnchorAcceptedIff`).
- Two spellings of one CIDR clash in the host's route table (`Mesh.UpThenSync`); exactly when is `Mesh.ClashIff`, and for
  completed reconciles `Mesh.CompleteTrackedIff`.
- Through the helper, Sync cannot remove a peer whose block leaves the config (`Commands.SyncRefusals`,
  `Commands.RefusedForEver`).
- A slice that changes its service label can strand the old Service (`RouteBounds.RelabelStrands`); exactly when is
  `RouteBounds.RelabelKeepsIff` and `RouteBounds.StrandedIff`.
- The code comments call the slice list ordered, but the lister promises no order, and order can matter
  (`RouteBounds.OrderMatters`); exactly when is `RouteBounds.OrderFreeIff`.
- A file path that climbs out of its directory is accepted where that directory is the root itself
  (`PathLaws.ClimbRefused`, both ways); no Pod's directory is.
- Different Pods can share a workload name (`Workload.NamesCollide`, `Workload.SeparatorsCollide`); exactly when is
  `Workload.SharedNameIff`.

## Model

| member | source | states |
|---|---|---|
| `RestartSafety.RestartFlagExact` | pkg/provider/restart.go:69-212 | In every run where no key is re-created while an earlier restart of it is in flight, a Pod's `restarting` flag is up exactly when a restart goroutine of that very incarnation is in flight, there is never a second one, and the restart count equals the number of successful last sections |
| `RestartSafety.StepKeeps` | pkg/provider/restart.go:69-212 | Every single step of create, delete, reconcile, probe failure and restart keeps that invariant |
| `RestartSafety.StoreKeeps` | pkg/provider/restart.go:69-80 | A lock section that launches a goroutine exactly when it raises the flag keeps the invariant |
| `RestartSafety.RestartEndKeeps` | pkg/provider/restart.go:174-212 | The last section of a restart lowers the flag it owns, or finds its Pod deleted, without disturbing another Pod |
| `Boundaries.CommitKeepsIff` | pkg/provider/restart.go:99-114 | Storing a new Pod keeps the flag invariant if and only if no restart of the same key is still in flight |
| `AddressSafety.AddressesExact` | pkg/provider/pod.go:63-79 | In every run with same-key create and delete serialised, each live Pod reports the address the allocator holds for its key, no two live Pods share one, and every binding has an owner (no leak) |
| `AddressSafety.FailedCreateRestores` | pkg/provider/pod.go:67-79 | A CreatePod that ends in any way other than storing a live Pod leaves its key's binding as it found it, recovered reservations included |
| `AddressSafety.CreateFrame` | pkg/provider/pod.go:22-184 | No step of CreatePod changes the binding of another key |
| `AddressSafety.StepAddresses` | pkg/provider/pod.go:22-307 | Every single step keeps the address invariant |
| `AddressSafety.ReconcileKeepsIP` | pkg/provider/status.go:21-24 | A reconcile never changes a Pod IP once assigned |
| `Boundaries.ReleaseKeepsIff` | pkg/provider/pod.go:275-307 | The release in DeletePod keeps live Pods bound to their addresses if and only if no live Pod is tracked under the released key |
| `StatusSafety.RestartedPodsLookAlive` | pkg/provider/status.go:15-81 | In every run where Pods arrive without terminated statuses, a live Pod under Always reports only Pending or Running, and one under OnFailure never Failed, though transient errors replay old container statuses |
| `StatusSafety.TerminalForever` | pkg/provider/status.go:15-19 | From any reachable state on, a terminal status is what the Pod reports until that Pod is deleted |
| `StatusSafety.StepStatuses` | pkg/provider/status.go:15-81 | Every single step keeps the recorded statuses allowed by the restart policy |
| `Lifecycle.PodEffect` | pkg/provider/restart.go:88-212 | A step outside CreatePod and DeletePod changes at most the Pod under its own key, and not the allocator |
| `Lifecycle.CreateEffect` | pkg/provider/pod.go:22-184 | Between entry and storing a Pod, CreatePod touches only the allocator and its own progress |
| `Lifecycle.LaunchLeavesNoVM` | pkg/provider/pod.go:85-167 | A create that fails leaves no VM that it made, and one that succeeds destroys none |
| `Lifecycle.DestroysSurvivorIff` | pkg/provider/pod.go:218-251 | A create destroys a VM it did not make if and only if the query for it failed although it exists, Create handed it back, and its start or attach then failed |
| `Lifecycle.SurvivorDestroyed` | pkg/provider/pod.go:229-251 | Input: a failed query and a guest without an address yet; the surviving VM is destroyed, against the comment |
| `Provider.PodTable.MaybeTriggerRestart` | pkg/provider/restart.go:69-80 | Raises the flag and launches one goroutine exactly when the policy restarts and none was running |
| `Provider.PodTable.GetPodStatus` | pkg/provider/pod.go:323-333 | The loop-built status is the specified reconcile; what it reports is what it stored |
| `Provider.PodTable.FailProbeSection` | pkg/provider/probe.go:217-274 | A failed liveness or startup probe restarts per policy or fails the Pod for good |
| `Provider.PodTable.RestartSnapshot` | pkg/provider/restart.go:97-114 | Gives up exactly on a deleted or terminal Pod, otherwise disarms the old probers |
| `Provider.PodTable.FinishRestart` | pkg/provider/restart.go:174-212 | Rebinds the Pod found under the key, or hands back the new VM as an orphan when there is none |
| `Provider.PodTable.Forget` | pkg/provider/pod.go:275-291 | DeletePod's first section removes exactly one entry and stops its probers |
| `Status.RestartBackoff` | pkg/provider/restart.go:52-61 | For every count, the wrapped 64-bit doubling loop gives base times two to the count, capped at five minutes |
| `Status.ComputePhase` | pkg/provider/status.go:217-248 | The counting loop computes the phase by precedence: any failure, any waiting, any live, all succeeded |
| `Status.SpawnRaisesFlag` | pkg/provider/status.go:32-81 | A scan launches a restart exactly when it raises the flag, at most once, and never under Never |
| `Status.ScanAllowedIff` | pkg/provider/status.go:32-81 | A container's state breaks its restart policy exactly when a transient error replays a status that already did |
| `Status.FailedIff` | pkg/provider/status.go:32-81 | Under a policy that restarts failures a live Pod reports Failed if and only if a transient error replays a failed exit |
| `Status.SucceededIff` | pkg/provider/status.go:32-81 | Under Always a Pod reports Succeeded if and only if it has containers and every one of them replays a clean exit |
| `Status.ReconcileAllowed` | pkg/provider/status.go:15-128 | A reconcile of allowed statuses reports an allowed phase and stays allowed |
| `Status.MessageIff` | pkg/provider/status.go:54-58 | The runtime-error message is set exactly when some container replays an old status |
| `Status.ScanKeepsIP` | pkg/provider/status.go:75-80 | An assigned Pod IP survives the scan |
| `Probe.RunProbe` | pkg/provider/probe.go:164-210 | After every attempt the counting loop acts exactly as the trailing run of equal outcomes says, and stops at its first deciding action |
| `Probe.TraceExact` | pkg/provider/probe.go:137-210 | After any interleaving of attempts, startup is done, ready is set and a restart is triggered exactly as the recorded outcomes earn; readiness and liveness outcomes count only after startup |
| `Ipam.ExhaustedIff` | pkg/network/ipam.go:103-131 | Allocate fails exactly when the key holds nothing and every usable address is held |
| `Ipam.VisitIsPermutation` | pkg/network/ipam.go:113-129 | From any reachable cursor the wrap-around search visits each usable offset exactly once |
| `Ipam.AllocateFresh` | pkg/network/ipam.go:103-131 | A new address is usable and was free, and only its own binding changes |
| `Ipam.AllocateRoundRobin` | pkg/network/ipam.go:103-131 | The address taken is the first free one in cyclic order from the cursor, which ends just past it |
| `Ipam.ReserveIff` | pkg/network/ipam.go:137-162 | Reserve succeeds exactly on a usable address already the key's, or free with the key holding nothing; otherwise nothing changes |
| `Ipam.ReleaseUndoesAllocate` | pkg/network/ipam.go:166-175 | Allocating a fresh key and releasing it restores both maps |
| `Ipam.RunSafe` | pkg/network/ipam.go:60-175 | In every run the two maps are mutual inverses and hold no network, gateway or IPv4 broadcast address |
| `Ipam.DisjointAllocators` | pkg/network/ipam.go:11-19 | Allocators over blocks that do not overlap never hold a common address, in any pair of runs |
| `Ipam.RecoveryRebuilds` | pkg/provider/ipam.go:52-76 | Recovering, in any order, the addresses recorded for a past run's Pods rebuilds that run's maps exactly |
| `Ipam.UsableNotSpecial` | pkg/network/ipam.go:202-208 | A usable address is never the network, gateway or IPv4 broadcast address |
| `Ipam.PodIPAM.constructor` | pkg/network/ipam.go:60-95 | A new allocator is empty, with its cursor at the first host after the gateway |
| `Ipam.PodIPAM.FindFree` | pkg/network/ipam.go:113-129 | The loop finds the first free offset in visiting order, or reports none after a full round |
| `Ipam.PodIPAM.Allocate` | pkg/network/ipam.go:103-131 | Updates the three fields as specified |
| `Ipam.PodIPAM.Reserve` | pkg/network/ipam.go:137-162 | Updates the maps as specified, with each refusal its own result |
| `Ipam.PodIPAM.Release` | pkg/network/ipam.go:166-175 | Drops the key's binding from both maps |
| `Ipam.PodIPAM.RecoverAllocations` | pkg/provider/ipam.go:52-76 | The loop reserves each recorded address and skips the refused ones |
| `Net.BigRoundTrip` | pkg/network/ipam.go:225-240 | Integer to bytes to integer is the identity exactly on the integers that fit the width |
| `Net.BytesRoundTrip` | pkg/network/ipam.go:225-240 | Bytes to integer to bytes is the identity at the bytes' own width |
| `Net.NestedOrDisjoint` | pkg/network/ipam.go:11-19 | Two aligned prefix blocks share an address exactly when one holds the other's network address, and then nest (section 3.1 of RFC 4632) |
| `Net.ContainsRange` | pkg/network/ipam.go:202-208 | Membership under a mask is membership in an aligned integer range |
| `Helper.NormalizeCIDRSet` | pkg/network/privhelper/policy.go:535-543 | The loop collects exactly the blocks of the texts that parse |
| `Helper.ParseRDRTargets` | pkg/network/privhelper/policy.go:245-270 | The loop reads a single address or a braced pool, and fails on the first token that is not an address |
| `Helper.LintAnchorRuleset` | pkg/network/privhelper/policy.go:143-176 | A ruleset passes exactly when a vmnet interface is configured and every line passes |
| `Anchor.TargetsReadBack` | pkg/network/privhelper/policy.go:245-270 | The validator recovers exactly the targets the router printed, single or pooled |
| `Anchor.LineExact` | pkg/network/privhelper/policy.go:143-243 | A printed rule passes the line check if and only if its interface, addresses, protocol and targets are allowed |
| `Anchor.AnchorExact` | pkg/network/privhelper/policy.go:143-176 | A printed anchor is accepted if and only if every rule in it is allowed |
| `Agreement.RenderAcceptedIff` | pkg/network/podnet/router.go:299-335 | The helper accepts a rendered anchor if and only if it allows every endpoint and every Service rule in the router's maps |
| `Agreement.AnchorAcceptedIff` | pkg/config/policy.go:20-73 | With both sides derived from one config and fitting endpoints and rules, the rendered anchor is accepted if and only if nothing is attached or the two sides agree on the mesh interface |
| `Agreement.EveryLoadAccepted` | pkg/config/podnetwork.go:62-103 | In every run of fitting operations the ruleset the router would load is accepted, with the mesh on or its interface empty |
| `Agreement.FitsKept` | pkg/network/podnet/router.go:171-202 | Every router operation keeps the maps fitting |
| `Commands.RouterCommands` | pkg/network/privhelper/policy.go:79-126 | The router's host commands are permitted, and a load is judged by its ruleset alone |
| `Commands.EndpointCommands` | pkg/network/privhelper/policy.go:297-327 | The route lookup and the scoped default-route delete of a fitting endpoint are permitted |
| `PodNet.AnchorTracksState` | pkg/network/podnet/router.go:142-335 | In every run the loaded anchor renders the maps as of the latest successful load, and the current maps while the latest load succeeded |
| `PodNet.ApplyInv` | pkg/network/podnet/router.go:142-311 | Every single operation keeps that invariant |
| `PodNet.AttachDetachRestores` | pkg/network/podnet/router.go:171-265 | Attaching a fresh key and detaching it restores state and ruleset exactly (distinct Pod IPs) |
| `PodNet.RenderingUnique` | pkg/network/podnet/router.go:313-335 | With distinct Pod IPs one state has one rendering, whatever order the maps are walked in |
| `RouterObject.RenderAnchor` | pkg/network/podnet/router.go:325-335 | The loops print exactly the specified Pod half |
| `RouterObject.RenderServiceRules` | pkg/network/podnet/service.go:135-178 | The nested loops print exactly the specified Service half |
| `RouterObject.VmByPodIP` | pkg/network/podnet/service.go:182-188 | Whatever the walk order, the result maps exactly the attached Pod IPs, each to one of its VMs |
| `RouterObject.Router.Load` | pkg/network/podnet/router.go:299-311 | Renders the current maps and, on success, makes them what pf has loaded |
| `RouterObject.Router.Start` | pkg/network/podnet/router.go:142-167 | Moves the object as the state machine's Start does, on every failure path |
| `RouterObject.Router.Attach` | pkg/network/podnet/router.go:171-202 | Moves the object as the state machine's Attach does, interface resolution included |
| `RouterObject.Router.Detach` | pkg/network/podnet/router.go:250-265 | Moves the object as the state machine's Detach does |
| `RouterObject.Router.AttachService` | pkg/network/podnet/service.go:65-95 | Moves the object as the state machine's AttachService does |
| `RouterObject.Router.KeepRules` | pkg/network/podnet/service.go:69-78 | The loop stops at the first invalid rule and otherwise keeps the rules with backends |
| `RouterObject.Router.DetachService` | pkg/network/podnet/service.go:99-114 | Moves the object as the state machine's DetachService does |
| `RouterObject.Router.Stop` | pkg/network/podnet/router.go:281-295 | Empties both maps and flushes |
| `ServicePath.RedirectPreservesMeaning` | pkg/network/podnet/service.go:135-188 | The addresses reached through the rendered targets are, as a multiset, those reached by redirecting to the backend Pod IPs and applying the anchor's own inbound translation |
| `ServicePath.RenderTranslates` | pkg/network/podnet/router.go:325-335 | The Pod half translates exactly the attached endpoints' pairs |
| `ServicePath.InboundExact` | pkg/network/podnet/router.go:325-335 | Inbound translation by the rules is the Pod-IP map |
| `ServicePath.RangesApart` | pkg/network/podnet/service.go:182-188 | Disjoint Pod and vmnet ranges keep VM addresses and Pod IPs apart |
| `WireGuard.Validate` | pkg/network/wireguard/config.go:48-101 | The loop rejects exactly the configs with a bad field, a bad peer or a shared public key |
| `WireGuard.RouteTargets` | pkg/network/wireguard/config.go:171-184 | The sorted, de-duplicated union of all peers' AllowedIPs |
| `WireGuard.AllowedReadBack` | pkg/network/privhelper/policy.go:391-425 | Splitting the printed AllowedIPs at commas and trimming gives back the list |
| `WireGuard.ConfigExact` | pkg/network/privhelper/policy.go:391-425 | The helper accepts a printed wg config if and only if it knows every peer's key and every AllowedIPs block |
| `Mesh.ProgressTracked` | pkg/network/wireguard/mesh.go:269-295 | Wherever a reconcile stops, tracked routes are in the host table, unless a stale one shares its masked block with another tracked one |
| `Mesh.ClashIff` | pkg/network/wireguard/mesh.go:276-284 | That condition is exact: with such a clash some stopping point loses a tracked route |
| `Mesh.CompleteExact` | pkg/network/wireguard/mesh.go:269-295 | The tracked routes equal the wanted ones exactly when every stale one is deleted and every missing one added |
| `Mesh.CompleteTable` | pkg/network/wireguard/mesh.go:269-295 | A complete reconcile leaves the table as it was, less the stale blocks, plus the wanted ones |
| `Mesh.CompleteTrackedIff` | pkg/network/wireguard/mesh.go:269-295 | A complete reconcile loses a kept route exactly when a stale one had its block and no added one brings it back |
| `Mesh.RetryConverges` | pkg/network/wireguard/mesh.go:269-295 | However far a failed reconcile got, running it again to the end gives the routes and table of an unbroken run |
| `Mesh.NoClashKept` | pkg/network/wireguard/mesh.go:269-295 | A clash cannot arise half-way |
| `Mesh.Network.constructor` | pkg/network/wireguard/mesh.go:77-88 | A new mesh is down and tracks nothing |
| `Mesh.Network.DeleteStale` | pkg/network/wireguard/mesh.go:276-284 | The first loop deletes stale routes only, in any order, until one fails |
| `Mesh.Network.AddMissing` | pkg/network/wireguard/mesh.go:285-293 | The second loop adds missing routes only, until one fails |
| `Mesh.Network.ReconcileRoutes` | pkg/network/wireguard/mesh.go:269-295 | Every delete precedes every add, only needed commands run, and success means tracked equals wanted |
| `Mesh.Network.Up` | pkg/network/wireguard/mesh.go:121-161 | Nothing runs for an invalid config; success means up, every command run, and tracked routes equal to the union of AllowedIPs |
| `Mesh.Network.Sync` | pkg/network/wireguard/mesh.go:167-189 | An invalid peer set, a mesh that is down or a refused config changes nothing; otherwise the new config holds and success means the new routes |
| `Mesh.Network.Down` | pkg/network/wireguard/mesh.go:226-247 | Forgets every route; the host loses exactly those whose delete did not fail |
| `Mesh.Network.Remove` | pkg/network/wireguard/mesh.go:209-222 | The same for every configured target as well, tracked or not |
| `Commands.DownPermitted` | pkg/network/wireguard/mesh.go:226-251 | So is every command of a teardown |
| `Commands.RouteExact` | pkg/network/privhelper/policy.go:297-338 | A mesh route command is permitted exactly when its masked block is configured |
| `Commands.SyncRefusals` | pkg/network/wireguard/mesh.go:167-189 | After a policy reload the new config and every added route pass; a delete is refused exactly when its masked block is no longer configured |
| `NodeConfig.ResolvePeers` | pkg/config/mesh.go:144-164 | Every peer is resolved in order, or nothing when a key does not parse |
| `NodeConfig.RoutableServiceCIDRs` | pkg/config/podnetwork.go:85-103 | The loop lists exactly the nonempty Pod CIDRs (peers' too with the mesh on) and the vmnet ranges |
| `NodeConfig.PrivilegedHelperPolicy` | pkg/config/policy.go:20-73 | The step-by-step policy equals its specification as sets of blocks and keys |
| `NodeConfig.PeerPodCIDRs` | pkg/config/policy.go:60-68 | The peers' Pod CIDRs are added to the node's own |
| `NodeConfig.PeerKeys` | pkg/config/policy.go:69-71 | Exactly the resolved peers' keys are known |
| `NodeConfig.FilterAgrees` | pkg/config/podnetwork.go:76-103 | With the Pod network on, an address is routable for the controller exactly when the helper accepts it as a target |
| `Controller.Converges` | pkg/network/svcroute/controller.go:250-342 | At every point of every run each key is queued, being processed, or has at the router exactly the rules the caches call for (immutable slice labels) |
| `Controller.StepInv` | pkg/network/svcroute/controller.go:250-342 | Every single event keeps the stronger invariant, in which what a worker has read is still current or the key is queued again |
| `Controller.PushExact` | pkg/network/svcroute/controller.go:337-341 | A push that reports success leaves exactly those rules at the key; no push touches another key |
| `SvcRoute.ReadyEndpointIPs` | pkg/network/svcroute/controller.go:124-150 | Sorted, without duplicates, exactly the addresses of serving endpoints in IPv4 slices |
| `SvcRoute.CollectIPs` | pkg/network/svcroute/controller.go:130-142 | Skips endpoints that are not ready or are terminating |
| `SvcRoute.TargetPorts` | pkg/network/svcroute/controller.go:80-94 | Each name gets the first number advertised for it |
| `SvcRoute.BuildServiceRules` | pkg/network/svcroute/controller.go:54-120 | The loops compute the specified rules |
| `SvcRoute.BuildExact` | pkg/network/svcroute/controller.go:54-120 | A rule is built exactly for each tcp or udp port with a known target of a programmable Service that has a serving backend |
| `SvcRoute.FilterRoutable` | pkg/network/svcroute/controller.go:351-372 | The loops compute the specified filter |
| `SvcRoute.FilterSound` | pkg/network/svcroute/controller.go:351-372 | No rule comes out without a backend or with an unroutable one |
| `SvcRoute.FilterComplete` | pkg/network/svcroute/controller.go:351-372 | A rule with a routable backend is kept with exactly its routable backends |
| `SvcRoute.SplitJoin` | pkg/network/svcroute/controller.go:374-379 | A key splits back into its namespace and name |
| `Reaper.ReapedOnlyAfterGrace` | pkg/orphan/reaper.go:132-219 | Over every sequence of passes a VM is stopped or destroyed only if some pass at least the grace period earlier saw it as an orphan and every successful pass since did too |
| `Reaper.ReapedExactly` | pkg/orphan/reaper.go:132-219 | With a clock that does not run backwards, and exactly then; a dry run reports the same VMs |
| `Reaper.ClocksExact` | pkg/orphan/reaper.go:156-181 | A VM has a clock exactly while an uninterrupted orphan stretch is open, and it shows that stretch's first pass |
| `Reaper.FailedDestroyRetried` | pkg/orphan/reaper.go:193-208 | A VM whose destroy failed is attempted again by the next successful pass, as long as that still sees it, whatever failed passes come between |
| `Reaper.PassAccounts` | pkg/orphan/reaper.go:132-219 | Scanned is pending plus matured; a dry run touches nothing and reports what a real one would attempt |
| `Reaper.ScanExact` | pkg/drain/cleaner.go:73-87 | The scan lists, in order, exactly the MacVz VMs that are not expected |
| `Reaper.Scan` | pkg/drain/cleaner.go:73-87 | The loop computes that list |
| `Reaper.Reap` | pkg/drain/cleaner.go:96-126 | Attempts every VM in order, reports those destroyed, flushes the anchor where one is given, and fails if any stop, destroy or flush did |
| `Reaper.Machine.constructor` | pkg/orphan/reaper.go:97-109 | A new reaper has no clocks and no result |
| `Reaper.Machine.ReapOnce` | pkg/orphan/reaper.go:132-219 | One pass moves clocks, result and attempts as specified |
| `Reaper.Machine.Partition` | pkg/orphan/reaper.go:156-182 | Forgets VMs no longer orphaned, starts new clocks, and splits by the grace period |
| `Env.ExpandEnv` | pkg/provider/downward.go:128-161 | For all inputs the index loop computes the token semantics of `$$`, `$(NAME)` and literals |
| `Env.Step` | pkg/provider/downward.go:133-158 | One turn of the loop consumes exactly the next token |
| `Env.TokenizeUnparse` | pkg/provider/downward.go:128-161 | Reading a printed token list gives it back |
| `Env.ExpandUnparse` | pkg/provider/downward.go:128-161 | Expanding a printed token list gives its meaning; substituted values are never rescanned |
| `Env.DoubledExpandsBack` | pkg/provider/downward.go:128-161 | Doubling every `$` and expanding returns the original, for any variables |
| `Paths.RelTestExact` | pkg/provider/volumes.go:308-323 | The Rel test refuses exactly when the root's elements are not a proper prefix of the target's |
| `Paths.SafeJoinExact` | pkg/provider/volumes.go:308-323 | The join succeeds exactly for an absolute root with the target strictly below it, and returns that target cleaned |
| `Paths.PodRootExact` | pkg/provider/volumes.go:287-295 | A slash-free UID is accepted exactly when it is not empty or a dot name, and names a directory directly below the root |
| `Paths.VolumesBelowPodRoot` | pkg/provider/volumes.go:297-306 | Every volume directory and every projected file lies strictly below the Pod's own root |
| `Paths.TreesDisjoint` | pkg/provider/volumes.go:367-376 | The trees of Pods with different UIDs have no path in common |
| `Paths.CleanIdempotent` | pkg/provider/volumes.go:308-323 | Cleaning a cleaned path changes nothing |
| `Workload.SanitizeDNSLabel` | pkg/provider/translate.go:167-189 | The loop with its last-dash flag computes the specified form |
| `Workload.SanitizeLabel` | pkg/provider/translate.go:167-189 | Every input yields a DNS label (section 2.1 of RFC 1123) |
| `Workload.SanitizeFixed` | pkg/provider/translate.go:167-189 | A label is its own sanitised form |
| `Workload.SanitizeIdempotent` | pkg/provider/translate.go:167-189 | Sanitising is idempotent |
| `Workload.SanitizeKeepsWords` | pkg/provider/translate.go:167-189 | The runs of letters and digits survive in order, and only an input without any becomes `wl` |
| `Workload.WorkloadIDValid` | pkg/provider/translate.go:153-162 | A label of at most 63 characters (section 2.3.4 of RFC 1035), recognised by cleanup exactly when the identity has a letter or digit |
| `Workload.AsciiNameable` | pkg/drain/cleaner.go:61-64 | One ASCII letter or digit anywhere in the identity is enough |
| `Boundaries.RecreateDoublesRestart` | pkg/provider/restart.go:99-114 | A run from an initial state: delete and re-create during the backoff leave one Pod with two restarts in flight |
| `Boundaries.OverlapSharesIP` | pkg/provider/pod.go:275-307 | A run from an initial state: a create that overlaps a delete of the same key ends with two live Pods on one address |
| `Boundaries.ArrivedFailedReports` | pkg/provider/status.go:54-58 | A run from an initial state: a Pod that arrives with a failed container status reports Failed under Always, because a failing first query replays it |
| `Status.PodReadyIff` | pkg/provider/status.go:83-127 | A reconcile stores PodReady exactly with phase Running, a Pod IP, no runtime error and, where probers are armed, startup and readiness passed |
| `ProbeWrites.ReadyShown` | pkg/provider/probe.go:388-394 | Whatever lands on a Pod's flags, its own outcomes and writes of earlier probers in any order, the ready flag is the latest foreign write that no decisive own outcome has followed, and otherwise what the outcomes earn |
| `ProbeWrites.StartupShown` | pkg/provider/probe.go:380-386 | The startup flag is up exactly when the Pod's own startup probe has passed or a foreign startup write has landed |
| `ProbeWrites.FlagsEarnedIff` | pkg/provider/probe.go:380-394 | The flags say what the own outcomes earn if and only if no foreign startup write precedes the own pass, and no foreign ready write is open or it agrees |
| `ProbeWrites.OwnTrace` | pkg/provider/probe.go:164-210 | Without foreign writes the flags are those of the probe loops run on the outcomes |
| `ReadySafety.ReadyExact` | pkg/provider/status.go:83-127 | In every run, late writes of stopped and of never-cancelled probers included, a live Pod's stored PodReady holds exactly with phase Running, a Pod IP and no runtime error and, if the reconcile that stored it found probers armed, the declared probes passed on what has landed since they were armed |
| `ReadySafety.FlagsExact` | pkg/provider/probe.go:88-135 | In every run the flags of a Pod with probers are those its own outcomes since arming earn if and only if no foreign write since arming stands against them |
| `ReadySafety.IgnoredReadyIff` | pkg/provider/probe.go:137-148 | With an unsupported readiness handler a Pod judged with probers is Ready exactly while a foreign write says so, and its startup probe has passed or a foreign write says that too |
| `ReadySafety.MovedInv` | pkg/provider/probe.go:88-135 | Every provider step, attempt and late write keeps the flags equal to what has landed, and the stored Ready to what was judged |
| `ReadySafety.TracedIsRun` | pkg/provider/probe.go:137-210 | A run with probe traces is a run of the provider |
| `ProberSafety.NoForeign` | pkg/provider/probe.go:123-130 | In every run in which probers are stopped only between attempts, and no key is created again while its restart is in flight, no prober can write to flags that are not its own |
| `ProberSafety.ReadyIsEarned` | pkg/provider/probe.go:164-210 | In every such run PodReady stored with probers armed is exactly a running, addressed Pod whose startup probe succeeded before its failure threshold and whose last decisive run of readiness outcomes was one of successes; the flags are those of the outcomes |
| `StaleRuns.StaleWriteReady` | pkg/provider/restart.go:108-114 | A run from an initial state, all assumptions on the caller kept: a readiness answer of the old VM lands after the restart has re-armed, and the Pod is Ready with probers armed and no attempt made |
| `StaleRuns.IgnoredNeverReady` | pkg/provider/probe.go:137-148 | A run from an initial state: a Pod with an unsupported readiness handler is Running, addressed, judged with probers armed, and stored unready |
| `ReadyRuns.CommitReadyUnprobed` | pkg/provider/pod.go:171-181 | A run from an initial state, with no probe report: a Pod with a readiness probe is stored Ready by the reconcile before its probers start |
| `ReadyRuns.NeverArmedReady` | pkg/provider/pod.go:171-181 | A run from an initial state: a Pod whose first status query fails never gets probers and is Ready from the next reconcile on |
| `ReadyRuns.MidRestartReady` | pkg/provider/restart.go:108-114 | A run from an initial state: a VM that answers while its restart is under way is Ready with its probers stopped |
| `ReadyRuns.FailedRestartReady` | pkg/provider/restart.go:130-149 | A run from an initial state: after a failed restart it is Ready with no prober and no restart under way to arm one |
| `VmHarm.UnharmedIff` | pkg/provider/restart.go:108-187 | In every run, no goroutine of a restart, a delete or a failed probe ever gets to be about to destroy the VM of a Pod other than its own if and only if no step stores a Pod on a doomed name or dooms a name another Pod runs on |
| `VmHarm.StepHarmsIff` | pkg/provider/restart.go:108-187 | From a state without such a goroutine a step leads to one if and only if that condition holds before it |
| `VmHarm.CommitHarmsIff` | pkg/provider/pod.go:171-181 | Storing a new Pod does so if and only if some goroutine is still to destroy a VM of its name |
| `VmHarm.BeginHarmsIff` | pkg/provider/restart.go:99-126 | A restart that begins does so if and only if it finds a live Pod under its key, and a Pod of another incarnation runs on its old VM's name |
| `VmHarm.ProbeHarmsIff` | pkg/provider/probe.go:213-274 | A probe failure does so if and only if it fails a Never Pod whose VM name another Pod runs on |
| `VmHarm.EndFoundHarmsIff` | pkg/provider/restart.go:188-212 | A restart that hands its new VM to the Pod it finds does so if and only if that VM is doomed for another Pod |
| `VmHarm.EndGoneHarmsIff` | pkg/provider/restart.go:174-187 | A restart that finds its Pod gone does so if and only if another Pod runs on its new VM's name |
| `VmSafety.NoTrackedVMDestroyed` | pkg/provider/restart.go:95-187 | In every run where VM names of different keys differ, creates and deletes of a key are serialised, and no key is created again while a restart or a killing prober of it lives, no goroutine is about to destroy the VM of another Pod, and neither a failing launch nor a half-started restart destroys one |
| `VmRuns.AdoptedVMReaped` | pkg/provider/restart.go:174-187 | A run from an initial state: a key created again while a finished restart is still reaping adopts the very VM that is then destroyed |
| `VmRuns.SuccessorKilled` | pkg/provider/probe.go:266-273 | A run from an initial state, with no restart and no delete left: a prober that failed a Never Pod is about to destroy the VM of the Pod created after it |
| `EndpointSafety.EndpointsOwnedIff` | pkg/provider/restart.go:108-212 | In every run each endpoint at the router belongs throughout to a tracked Pod marked attached or to a create, restart or delete in progress if and only if no step strands one |
| `EndpointSafety.StepStrandsIff` | pkg/provider/restart.go:108-212 | A step strands an endpoint exactly when an attach fails after the router recorded it and nobody else claims the key, or a restart ends without a Pod marked attached to take its endpoint over |
| `EndpointSafety.EndStrandsIff` | pkg/provider/restart.go:174-212 | The last section of a restart strands its endpoint if and only if the key has one, no Pod there ends up marked attached, and no create, delete or other restart claims it |
| `EndpointSafety.LaunchStrandsIff` | pkg/provider/pod.go:157-167 | A launch strands an endpoint if and only if its attach fails after the router recorded the endpoint and nobody claims the key |
| `EndpointRuns.OverlapStrands` | pkg/provider/podnet.go:68-77 | A run from an initial state: a Pod is deleted while its restart is at its runtime calls, and the restart's endpoint stays with nothing tracked or in progress |
| `EndpointRuns.FailedAttachStrands` | pkg/network/podnet/router.go:196-199 | A run from an initial state: a create whose attach fails in loading the rules gives everything back but the endpoint |
| `Provider.FinishRebinds` | pkg/provider/restart.go:188-202 | A committed restart moves exactly the containers of the old workload to the new one, also when both have one name |
| `PodNet.NilMeansSyncedIff` | pkg/network/podnet/router.go:250-265 | After a nil return the anchor renders the maps if and only if it did before or this call loaded it |
| `PodNet.DetachRetryLeavesAnchor` | pkg/network/podnet/router.go:253-262 | Retrying a Detach whose load failed returns nil without a load |
| `RouterDrift.RemovalShows` | pkg/network/podnet/router.go:313-335 | A ruleset that renders an endpoint is never a rendering of the maps without it |
| `RouterDrift.DetachRetryStale` | pkg/network/podnet/router.go:253-262 | After that retry the anchor still renders the endpoint and is no rendering of the maps |
| `RouterDrift.DetachServiceRetryStale` | pkg/network/podnet/service.go:102-111 | The same for a Service with rules |
| `PodNet.SortRulesMembers` | pkg/network/podnet/service.go:147-153 | Sorting permutes the rules |
| `PodNet.SortRulesSorted` | pkg/network/podnet/service.go:147-153 | and puts them in order of ClusterIP and port |
| `Text.SortSorts` | pkg/network/podnet/service.go:163-163 | Sorting strings gives a sorted permutation |
| `RouterObject.EndpointBinatInterfaces` | pkg/network/podnet/router.go:337-355 | The own or default interface and the mesh, sorted, without repeats or blanks |
| `RouterObject.WriteEndpoint` | pkg/network/podnet/router.go:328-333 | The loop prints the comment and one rule per interface |
| `Commands.UpPermitted` | pkg/network/wireguard/mesh.go:121-153 | Every command of Up before the routes, the rendered config included, is permitted by the policy of the same config |
| `Commands.UpRefusals` | pkg/network/wireguard/mesh.go:121-161 | Of everything Up runs, exactly the route deletes whose masked block is not configured are refused; a mesh that tracks nothing runs none |
| `Commands.RoutesPermitted` | pkg/network/wireguard/mesh.go:297-309 | A route command for a configured target is permitted |
| `Commands.PushedBackendsRoutable` | pkg/network/svcroute/controller.go:351-372 | Every rule the controller pushes has backends, all of them routable if and only if some configured CIDR parses |
| `Commands.PushedRulesFit` | pkg/network/svcroute/controller.go:351-372 | A pushed rule is one the helper accepts exactly when some CIDR parses, the rule is valid and its key is one line |
| `Commands.RefusedDeleteBlocksSync` | pkg/network/wireguard/mesh.go:276-284 | Hence a removed peer's route stays tracked and no route is added |
| `Commands.RefusedForEver` | pkg/network/wireguard/mesh.go:276-284 | over any number of Syncs through the helper |
| `Mesh.AlwaysTracked` | pkg/network/wireguard/mesh.go:121-247 | Over any sequence of Up, Sync, Down and Remove whose reconciles meet no clash, tracked routes are in the host table after each |
| `Mesh.SpellingLost` | pkg/network/wireguard/mesh.go:269-295 | Dropping one of two spellings of a block leaves the other tracked and out of the table |
| `Mesh.UpThenSync` | pkg/network/wireguard/mesh.go:121-189 | Up and then Sync reach that state with every command succeeding |
| `Mesh.Network.InstallRoutes` | pkg/network/wireguard/mesh.go:269-295 | Reconciles towards the configured targets; success exactly when every route command succeeded |
| `RouteBounds.OrderFreeIff` | pkg/network/svcroute/controller.go:75-115 | Every order of the slices gives the same rules if and only if the Service is not programmed, nothing backs it, or the slices number each of its tcp and udp ports alike |
| `RouteBounds.OrderMatters` | pkg/network/svcroute/controller.go:75-94 | Two slices that number a port differently give different rules in the two orders |
| `RouteBounds.QuietExact` | pkg/network/svcroute/controller.go:309-342 | An idle key has the rules of any listing of its slices, under exactly that condition |
| `RouteBounds.RelabelKeepsIff` | pkg/network/svcroute/controller.go:258-275 | Relabelling a slice keeps its old Service right if and only if that is queued, its worker has yet to list slices, or worker or router hold what the remaining slices call for |
| `RouteBounds.StrandedIff` | pkg/network/svcroute/controller.go:258-275 | An idle Service with any number of slices is stranded exactly when the slice made a difference to its rules |
| `RouteBounds.RelabelStrands` | pkg/network/svcroute/controller.go:258-275 | A run from the empty system ends in such a state |
| `Reaper.ExpectedUntouched` | pkg/drain/cleaner.go:73-87 | A VM in the expected set is never attempted |
| `Reaper.NamedVMScanned` | pkg/drain/cleaner.go:73-87 | A listed VM the provider named is an orphan exactly when it is not expected |
| `Workload.SharedNameIff` | pkg/provider/translate.go:153-162 | Two Pods share a workload name if and only if the words of their names agree, cut and hashed or not |
| `Workload.ShortNamesIff` | pkg/provider/translate.go:153-156 | Names that fit agree exactly when the identities have the same words |
| `Workload.LongNamesIff` | pkg/provider/translate.go:157-161 | Names that are cut agree exactly when the cut words and the hashes do |
| `Workload.LabelsByWords` | pkg/provider/translate.go:167-189 | A label is determined by its words |
| `Workload.NamesCollide` | pkg/provider/translate.go:154-154 | For all names that fit, a hyphen of the Pod name can move into the namespace |
| `Workload.SeparatorsCollide` | pkg/provider/translate.go:167-189 | For all names that fit, one separator can be replaced by another, as in `a.b` and `a-b` |
| `Outcomes.PhaseExact` | pkg/provider/status.go:15-81 | Under every policy the phase is Failed, Succeeded, Running or Pending exactly as the runtime answers, exit codes, replayed statuses and revivals of the containers call for |
| `Outcomes.ContainerShows` | pkg/provider/status.go:32-81 | Each container shows failed, done, running or waiting exactly as its own answer calls for |
| `Outcomes.ContainerDetails` | pkg/provider/status.go:140-215 | with the exit code, restart count, reason and workload of that answer |
| `Outcomes.StoredContainer` | pkg/provider/status.go:83-127 | Stored flags of a running container are what armed probers say; nothing else changes on the way out |
| `Outcomes.NeverPhase` | pkg/provider/status.go:32-81 | A one-container Pod under Never: a lost VM counts as a clean exit, a failed VM never does, whatever exit code it reports |
| `Outcomes.OnFailurePhase` | pkg/provider/restart.go:38-48 | One under OnFailure ends only by a clean stop; every other end brings it back |
| `Outcomes.ConditionsExact` | pkg/provider/status.go:83-127 | Conditions and reason follow from phase, address, message and readiness |
| `Outcomes.AddressExact` | pkg/provider/status.go:75-80 | A Pod without an address takes the first one reported by a container that is left alone; with one it keeps it |
| `Outcomes.MessageExact` | pkg/provider/status.go:54-58 | A runtime-error message is that of the last container replayed |
| `Outcomes.SpawnExact` | pkg/provider/restart.go:69-80 | A restart is launched for the first container to be revived, with its workload and count, unless one is in flight |
| `Outcomes.FindExact` | pkg/provider/status.go:26-29 | The workload recorded last under a container name is the one asked about |
| `Outcomes.PreviousExact` | pkg/provider/status.go:130-138 | The status recorded first under a name is the one replayed |
| `Launches.LaunchExact` | pkg/provider/pod.go:85-167 | A launch is up exactly if there is a VM to run on and the Pod network takes it in; it fails for good exactly on a wrong architecture |
| `Launches.RestartExact` | pkg/provider/restart.go:116-165 | A restart hands on its new VM exactly if that was created and started, and attached exactly if the network took it |
| `Launches.CreateOutcome` | pkg/provider/pod.go:22-184 | What CreatePod alone leaves of table and allocator, for every spec and all runtime answers: nothing, a Pod failed for good and its reason, or a live Pod on its VM and address |
| `RestartCount.RestartsCounted` | pkg/provider/restart.go:128-212 | In every run, with no assumption, a Pod's restart count is the number of restarts that ended on it and whose VM was created and started |
| `RestartCount.StepKeeps` | pkg/provider/restart.go:128-212 | Every single step keeps that count |
| `RestartCount.RestartBinds` | pkg/provider/restart.go:116-212 | By the answers a restart got, the Pod it ends on has the new VM in place of the old, its network state too, or only the flag down |
| `AnchorSound.AnchorPassIff` | pkg/network/privhelper/policy.go:143-176 | For every string: it passes as an anchor if and only if VM networking is configured and each line is blank, a comment or spells out a permitted rule |
| `AnchorSound.LinePassIff` | pkg/network/privhelper/policy.go:143-243 | The same for one line; what a rule is and what is permitted are spelled out apart from the checks |
| `AnchorSound.OtherRuleRefused` | pkg/network/privhelper/policy.go:157-173 | A line that starts with any word but `binat`, `rdr` or a comment spoils every ruleset it is in |
| `AnchorSound.FieldsExact` | pkg/network/privhelper/policy.go:155-156 | The fields of a line are the one list of words it spells with white space between |
| `AnchorSound.SplitJoins` | pkg/network/privhelper/policy.go:147-148 | The lines of a text are the one list without newlines that joins to it |
| `AnchorSound.LineSays` | pkg/network/podnet/service.go:135-178 | The text of a printed rule spells out that very rule: interface, addresses, ports and targets |
| `AnchorSound.PoolText` | pkg/network/podnet/service.go:168-173 | A pool is printed as its targets separated by commas |
| `Requests.RequestPassIff` | pkg/network/privhelper/policy.go:55-457 | Every request is run if and only if it asks for one of the listed commands with permitted arguments |
| `Requests.WgLineIff` | pkg/network/privhelper/policy.go:391-425 | Every line of a wg config passes if and only if it is blank, a comment, a section or an acceptable setting |
| `Commands.RouterAsks` | pkg/network/podnet/router.go:142-311 | The router's own commands are requests of that list |
| `ServiceRedirect.RedirectsOnly` | pkg/network/podnet/service.go:135-178 | The rendered anchor redirects exactly what arrives on an interface with VMs for some stored rule, and to the target port and backends of such a rule |
| `ServiceRedirect.RedirectExact` | pkg/network/podnet/service.go:135-178 | With no two stored rules for the same traffic, to the target port and backends of the very rule it is for |
| `ServiceRedirect.RedirectReaches` | pkg/network/podnet/service.go:135-188 | where it reaches what the rule's backends reach |
| `ServiceRedirect.RenderedRdr` | pkg/network/podnet/service.go:135-178 | An rdr line is rendered if and only if it is that of a stored rule on an interface with VMs |
| `ServiceRedirect.RenderedBinat` | pkg/network/podnet/router.go:325-355 | A binat line is rendered if and only if it translates an attached endpoint on one of its interfaces |
| `RouterObject.Router.ValidateRule` | pkg/network/podnet/service.go:35-59 | The field-by-field check accepts exactly the valid rules |
| `RouterObject.Router.ValidateEndpoint` | pkg/network/podnet/router.go:45-58 | The field-by-field check accepts exactly the valid endpoints |
| `PathLaws.FileWalk` | pkg/provider/volumes.go:308-323 | A file is accepted exactly if the walk along its elements ends strictly below its absolute directory, and there |
| `PathLaws.PlainFile` | pkg/provider/volumes.go:308-323 | A plain name is accepted where it says |
| `PathLaws.PlainBelow` | pkg/provider/configmap.go:239-248 | and so is one with a subdirectory |
| `PathLaws.ClimbRefused` | pkg/provider/volumes.go:308-323 | A path that climbs out is refused if and only if its directory is not the root |
| `PathLaws.DetourSame` | pkg/provider/volumes.go:308-323 | Going down first and up again makes no difference, whatever follows |
| `PathLaws.DetourRefused` | pkg/provider/volumes.go:308-323 | so a climb after a detour is refused under the same condition |
| `PathLaws.SelfRefused` | pkg/provider/volumes.go:308-323 | A path that ends at the directory itself is refused |
| `PathLaws.RelativeRootRefused` | pkg/provider/volumes.go:308-323 | A relative root holds nothing |
| `PathLaws.VolumeDirExact` | pkg/provider/volumes.go:297-306 | A volume directory is two plain levels below the root, and exists exactly for plain names |
| `PathLaws.DotsClimb` | pkg/provider/volumes.go:314-314 | Two dots go one level up and stay at the root |
| `MeshHost.UpMeans` | pkg/network/wireguard/mesh.go:121-153 | Run on a host, Up's commands leave a live interface with the rendered config, its own address at both ends, its MTU and its link up, and no route touched |
| `MeshHost.SyncMeans` | pkg/network/wireguard/mesh.go:167-189 | Sync replaces the config of a live interface and nothing else |
| `MeshHost.DownMeans` | pkg/network/wireguard/mesh.go:226-251 | After the teardown the interface is gone |
| `MeshHost.RouteMeans` | pkg/network/wireguard/mesh.go:299-309 | A route command works on the table of its target's address family only |
| `WgRead.ConfigReads` | pkg/network/wireguard/config.go:118-157 | Read section by section, the printed config has one section per peer, in order of keys, each with that peer's key, endpoint, blocks and keepalive |
| `WgRead.InterfaceReads` | pkg/network/wireguard/config.go:118-132 | and an interface section with the private key and the port |
| `WgRead.SortPeersOrdered` | pkg/network/wireguard/config.go:159-166 | The sorted peers are all peers in the order of their keys |
| `WireGuard.ValidatePeer` | pkg/network/wireguard/config.go:80-101 | The field-by-field check accepts exactly the valid peers |
| `RouteProgress.StepLess` | pkg/network/svcroute/controller.go:304-342 | Every step of queue or worker that goes well leaves strictly less to do |
| `RouteProgress.Settles` | pkg/network/svcroute/controller.go:304-342 | so without new events and failures there are at most as many as were left to do |
| `RouteProgress.NotStuck` | pkg/network/svcroute/controller.go:304-342 | While anything is left to do some step can be taken |
| `RouteProgress.RestIsRight` | pkg/network/svcroute/controller.go:250-342 | In every run that has come to rest the router holds for every key what the caches call for |
| `SvcRoute.UnnamedPort` | pkg/network/svcroute/controller.go:80-94 | A slice port without a name serves exactly the Service port without one |
| `Env.TextCopied` | pkg/provider/downward.go:128-161 | Text without a dollar sign is copied |
| `Env.DollarsHalved` | pkg/provider/downward.go:139-142 | Two dollar signs give one, and what follows is expanded |
| `Env.ReferenceReplaced` | pkg/provider/downward.go:143-155 | A reference gives its variable's value, or itself when there is none |
| `Env.DollarKept` | pkg/provider/downward.go:134-158 | A dollar sign before anything else, or before an unclosed parenthesis, stays |
| `Probe.UnsetThresholds` | pkg/provider/probe.go:152-158 | Unset thresholds: three failures in a row decide, one success does |
| `Probe.SetThresholds` | pkg/provider/probe.go:152-158 | Set ones count as given; startup and liveness always need one success |
| `Status.DefaultBackoff` | pkg/provider/restart.go:52-61 | From ten seconds: 20, 40, 80, 160 seconds, then five minutes for ever |
| `NodeConfig.UnsetFields` | pkg/config/mesh.go:105-130 | The port, anchor, forwarding and vmnet range an empty config stands for |
| `NodeConfig.SetFields` | pkg/config/mesh.go:105-164 | Every configured field, the peers' in order too, ends up where the mesh and the router read it |
| `Workload.PlainName` | pkg/provider/translate.go:153-162 | Short labels are joined as they are: `macvz-`, namespace, Pod, container |
| `Workload.OwnByPrefix` | pkg/drain/cleaner.go:61-64 | A VM counts as the agent's own exactly by that prefix |
| `Ipam.RecoverIsRun` | pkg/provider/ipam.go:52-76 | Recovery is a run of reservations, so whatever holds of runs holds of it |

## Left out

- Agent commands (`cmd/`), HTTP and TLS servers, service installation and bundling: input, output and rendering only.
- The `container` command-line driver: an arbitrary runtime environment stands in for it.
- Redaction, metrics, health, bootstrap and node removal: straight-line checks and reports that would add only easy members.
- YAML decoding, base64, Curve25519 and SHA-256: keys and the workload suffix are parameters.
- Logs, exec, port-forward, pull-secret parsing, real clocks and goroutine scheduling.
- Volume sources, hostPath prefixes and the downward API's fields: only path confinement and expansion are modelled.
- The allocator on IPv4-mapped IPv6 CIDRs, and Pods on a node without an allocator: every modelled CreatePod allocates.
- Restart counts are unbounded; the code's are 32-bit and would wrap.
- EndpointSafety.EndpointsOwnedIff: a key has one endpoint or none, as in the router's map; which addresses it maps is left to the router's own model, and so is an endpoint that a delete takes from a later Pod of the key.
- ProberSafety.NoForeign: asks that probers are stopped only while they sleep, which the code does not ensure.
- VmSafety.NoTrackedVMDestroyed: asks that workload names of different keys differ, which `Workload.SharedNameIff` does not grant.
- VmHarm.UnharmedIff: a VM destroyed within one group of runtime calls (a failing launch, a half-started restart) is the subject of `VmSafety.NoTrackedVMDestroyed` only.
- Status.RestartBackoff: says nothing for a base that is negative or above half the 64-bit range, where the doubling wraps.
- PodNet.RenderingUnique: rules of one Service that share a ClusterIP and a port keep a fixed order here, because the model's sort is stable; Go's sort compares no protocol and promises no order for them.
- PodNet.AttachDetachRestores: needs distinct Pod IPs, because otherwise the Pod-IP map depends on the walk order.
- ServicePath.RedirectPreservesMeaning: inbound translation looks at destinations and not at interfaces.
- Mesh.Network.Up: an add tolerated as already present counts as present, whatever interface the existing route uses.
- Mesh.Network.Down: the interface commands after the routes change nothing in this object beyond the `up` flag; what they do to a host is `MeshHost.DownMeans`.
- MeshHost.UpMeans: every command succeeds; what the mesh does when one fails is `Mesh.Network.Up`.
- ServiceRedirect.RedirectExact: asks that no two stored rules are for the same traffic; `ServiceRedirect.RedirectsOnly` does not.
- RouteProgress.Settles: counts steps without failures; a failed list or push puts its key back in the queue.
- Commands.UpPermitted: asks that peer names and endpoints hold no newline and that keys print as words.
- RouterDrift.DetachRetryStale: asks for printable state, as Agreement.EveryLoadAccepted does.
- Agreement.EveryLoadAccepted: asks that Pod and Service keys hold no newline and that interface names are words.
- Controller.Converges: the router is not stopped while the controller runs.
- Reaper.ReapedExactly: asks for a clock that does not run backwards; `Reaper.ReapedOnlyAfterGrace` does not.
- Workload.WorkloadIDValid: lower-casing is a parameter that agrees with ASCII.
