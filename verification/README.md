# Verified model of the Gardener VPN

This project models the parts of the VPN between a Gardener seed and its shoots that decide addresses, translations
and routes, and proves what they are meant to guarantee. Together they make one story: addresses are allocated
uniquely, mapped without collision, translated back exactly, and supervised.

- **Double NAT** (`Netmap`, `NetmapBytes`, `NetmapAllocator`, `NetmapTheorems`, `ShootNetworks`, `NatRules`,
  `NatTheorems`). Shoot networks are mapped into reserved /8 ranges by a buddy-style allocator. It succeeds exactly when
  the sizes fit (and then whenever any placement exists at all), its blocks lie end to end, and the NETMAP rules made
  from the result bring every packet to the address it was sent to, on both machines and in every rule order.
- **IP reservation** (`IpPoolStore`, `IpPoolCluster`, `IpBroker`, `IpPoolProtocol`, `IpPoolBounds`, `IpPoolAtomic`). Any
  number of pods reserve, wait, look again and use an address, with annotations as the only shared state. The broker's
  methods are proved to extend the shared history of all pods by steps of a timed protocol with delayed writes, so that
  every history is one of its runs. The protocol is safe exactly when the waits exceed the write delay; with prompt or
  atomic writes it is safe without any timing. `AcquireIP` says what follows for the address it returns.
- **Watchdog** (`WatchdogSpec`, `WatchdogRing`). The ring buffer refines a specification over the event history,
  with a tight rate limit and a liveness bound.
- **Tunnel controller and readiness** (`TunnelModel`, `TunnelClasses`, `TunnelReadiness`, `TunnelRetry`,
  `TunnelCleaning`, `TunnelExpiry`). When "ready" can be believed, as an if-and-only-if over all runs, when updates are
  tried again and how a failure after a success sticks, and when cleanings really start and whom they spare.
- **Path controller, values and address plan** (`PathControllerModel`, `PathController`, `PathTheorems`, `VpnValues`,
  `AddressPlan`, `Coverage`, with `Cidrs`, `Strings` and `Bits` below them). Confluence of the pings, stickiness of the
  primary, when the routes follow it, which networks are announced, and that every translated address is covered.

Objects that the Go code updates in place are classes, and each method is proved against a function of the old
state; the theorems over runs are about those functions. Addresses are numbers (bytes where the code works on bytes),
and the host part of an address is its low bits. Go maps are visited, random numbers drawn and goroutines ordered
nondeterministically. Failures of the kernel, of iptables and of the API server follow parameters, so that an error can be
traced to its cause. `sort.Slice`
is any function that sorts, the same on every machine.

Four places behave otherwise than their names or comments suggest; the model follows the code:

- A /0 destination split into /32 networks yields nothing (`NetmapTheorems.WrappedSplitFails`).
- A tunnel update that fails after an earlier success is not retried while the pod IP stays the same
  (`TunnelRetry.FailureAfterSuccessLasts`, `TunnelRetry.StuckIff`).
- A half-failed route update leaves routes past the primary (`PathTheorems.AlwaysServesIff`).
- The cleaning of outdated entries is started while it is not due, and no longer once it is (`TunnelCleaning.CleansIff`).
  The readiness theorems let a cleaning happen at any time, so they do not depend on this.

## Model

| member | source | states |
|---|---|---|
| Netmap.SubnetSplit | pkg/network/netmap.go:50-85 | the split is exactly the gapless row of blocks of the new size that starts at the parent base, in address order; the errors, in their order; a /0 split into /32s yields no block |
| Netmap.SplitDoesNotWrap | pkg/network/netmap.go:69-82 | for every block of a split the `uint32` product and sum equal the unbounded ones, and the block is aligned, so that masking it changes nothing |
| Netmap.BlockInParent | pkg/network/netmap.go:73-83 | every block of a split is a valid network inside the parent |
| Netmap.NetmapSubnetIsBlock | pkg/network/netmap.go:87-104 | `netmapSubnet` of a source and a block no larger than it returns exactly that block |
| NetmapBytes.NetmapIP | pkg/network/netmap.go:32-47 | the byte loop computes `(ip & ^mask) or base` byte by byte; it fails exactly when one of the arguments is not IPv4 |
| NetmapBytes.BytesRefineAddress | pkg/network/netmap.go:32-47 | the byte-and-mask form equals, as a number, base plus host part of the address, for all addresses and prefix lengths |
| NetmapAllocator.SplitAll | pkg/network/netmap.go:145-153 | splitting a contiguous free list gives the contiguous free list of the smaller size over the same addresses, or the first error |
| NetmapAllocator.MapSubnetsRec | pkg/network/netmap.go:137-165 | split, take first, recurse gives the end-to-end layout of the sources; which error comes out, if any, as a closed condition on sizes and prefixes |
| NetmapAllocator.RecOutcomeStep | pkg/network/netmap.go:139-164 | one level of the recursion: the rest of the free list is again the contiguous aligned row right after the block taken, and the outcome is that of the rest |
| NetmapAllocator.FitsStep | pkg/network/netmap.go:144-164 | room for all sources is exactly room for the first and, in the row it leaves, room for the others (the Kraft-sum step) |
| NetmapAllocator.NetmapSubnets | pkg/network/netmap.go:106-203 | for every sorting function: succeeds exactly when all sources are IPv4, their sizes sum (duplicates counted) to at most the destination size, and the /0-into-/32 wrap is not hit; the result is the end-to-end layout in sorted order |
| NetmapAllocator.TotalSizePermutation | pkg/network/netmap.go:133-135 | the total size, and so the success condition, does not depend on the order the unstable sort produces |
| NetmapTheorems.NetmapIsSound | pkg/network/netmap.go:106-174 | every successful result maps exactly the sources, each to a network of its own prefix length inside the destination, with disjoint networks for different sources |
| NetmapTheorems.LayoutPosition | pkg/network/netmap.go:139-165 | the i-th sorted source gets the destination base plus the sizes of all sources before it |
| NetmapTheorems.LayoutDisjoint | pkg/network/netmap.go:139-165 | blocks of different sources share no address |
| NetmapTheorems.FitsIffPlaceable | pkg/network/netmap.go:133-171 | optimality: apart from the wrapped /0 split, the greedy allocator succeeds exactly when any aligned, disjoint placement of blocks of the source sizes exists in the destination at all |
| NetmapTheorems.PlacementNeedsRoom | pkg/network/netmap.go:154-156 | any placement whatever needs the total size of the sources |
| NetmapTheorems.WrappedSplitFails | pkg/network/netmap.go:64-70 | the exception: a /0 destination and only /32 sources always fails, although a /0 has 2^32 addresses |
| NetmapTheorems.SomeSorter | pkg/network/netmap.go:132-135 | a sorting function as the results assume it exists |
| ShootNetworks.ShootNetworksForNetmap | pkg/network/netmap.go:205-232 | succeeds exactly when the IPv4 networks of each list fit their reserved /8, and then returns the three mappings that lists and sort determine, all sound |
| ShootNetworks.MappingsAreSound | pkg/network/netmap.go:205-232 | the determined mappings are sound: exact sources, equal sizes, inside their range, disjoint |
| ShootNetworks.MappingsAreGood | pkg/network/netmap.go:205-232 | all three mappings together never give two (source, mapped) pairs a common mapped address, even where sources repeat or overlap across the lists |
| ShootNetworks.PairSources | pkg/network/netmap.go:212-231 | the sources of the mappings are exactly the IPv4 shoot networks |
| Cidrs.MaskedIsValid | pkg/network/types.go:79-86 | every address with its host bits masked off is a network of the model, for every prefix length |
| Cidrs.ContainsIsInterval | pkg/network/types.go:112-115 | the mask test is membership in the interval of the network |
| Cidrs.NestedOrDisjoint | pkg/network/types.go:112-115 | any two networks are nested or disjoint |
| Cidrs.OverlapIffSharedAddress | pkg/network/types.go:112-115 | `Overlap` holds exactly when some address lies in both networks |
| Cidrs.OverLapAny | pkg/network/types.go:117-125 | the loop answers exactly whether the network shares an address with the union of the others |
| Cidrs.GetByIPFamily | pkg/network/types.go:94-110 | the loop yields exactly the networks of the family, in order |
| Cidrs.FamilyConcat | pkg/network/types.go:94-110 | the filter commutes with concatenation, so order and multiplicity are kept |
| Cidrs.FamiliesPartition | pkg/vpn_server/values.go:107-113 | the two families together are the list, each network as often as it occurs |
| NatRules.SeedOverlapsIff | pkg/vpn_client/iptables.go:27-28 | the overlap test says exactly whether some address of the seed pod network is an address of a shoot network |
| NatRules.ForwardDevices | pkg/vpn_client/iptables.go:21-25 | the rules concern exactly tun0 or, with a server index, exactly the devices whose names begin with bond0 |
| NatRules.AppendShootRules | pkg/vpn_client/iptables.go:53-62 | for every visiting order of the mapping: exactly one PREROUTING and one POSTROUTING rule for each pair is added behind the rules already there; it fails exactly when a call to iptables failed, and then only such rules have been added |
| NatRules.AppendSeedRules | pkg/vpn_client/iptables.go:110-115 | the same for the OUTPUT rules of the seed side |
| NatRules.SetShootNat | pkg/vpn_client/iptables.go:46-83 | without an error the chains hold exactly the NETMAP rules of all three mappings; if networks do not fit nothing is changed; if iptables fails only rules of the mappings were added |
| NatRules.SetSeedNat | pkg/vpn_client/iptables.go:98-139 | the same for a seed client, with the rules for the seed pod network |
| NatRules.SetClientRules | pkg/vpn_client/iptables.go:20-159 | over all families: the NETMAP rules are set exactly outside HA on the shoot side and in HA on overlap; no NETMAP rule is added when networks do not fit, and only some of the right ones when a call to iptables failed, which is exactly when that error is returned |
| NatRules.SetServerRules | pkg/vpn_server/iptables.go:14-47 | the server adds exactly the OUTPUT rules of the mappings outside HA, and nothing in HA; the same two failures, each exactly when it happened |
| NatRules.RulesAreIPv4 | pkg/vpn_client/iptables.go:40-139 | no NAT rule for IPv4 names an IPv6 network, however the setting ends |
| NatTheorems.TraverseCases | pkg/vpn_client/iptables.go:53-82 | whatever the rule order, a chain applies one of its matching rules or, if none matches, leaves the packet alone |
| NatTheorems.OthersUntouched | pkg/vpn_client/iptables.go:53-127 | packets of other senders, on other devices or outside the networks pass all three chains unchanged |
| NatTheorems.NetmapKeepsOffset | pkg/network/netmap.go:32-47 | translation between networks of one size keeps the offset and is undone by translating back |
| NatTheorems.OutputTranslates | pkg/vpn_client/iptables.go:110-127 | the seed OUTPUT chain translates a destination exactly when it lies in some source network, to the same offset of the mapped network of such a source |
| NatTheorems.PreroutingTranslates | pkg/vpn_client/iptables.go:53-82 | the shoot PREROUTING chain takes a mapped destination back to its one source, in every rule order |
| NatTheorems.OutputThenPrerouting | pkg/vpn_client/iptables.go:53-82 | seed OUTPUT then shoot PREROUTING is the identity on every address of every source network, for every order of both chains, overlapping sources included |
| NatTheorems.OutboundThenInbound | pkg/vpn_client/iptables.go:54-82 | shoot POSTROUTING then PREROUTING is the identity on every shoot address |
| NatTheorems.InverseIffDisjointSources | pkg/vpn_client/iptables.go:53-82 | the other direction is the identity on all mapped addresses exactly when the sources are pairwise disjoint, in every rule order |
| NatTheorems.ShootAddressesAreSources | pkg/network/netmap.go:212-231 | an address is translated exactly when it belongs to some IPv4 shoot network |
| NatTheorems.DeployedChains | pkg/vpn_client/iptables.go:28-127 | seed side and shoot side both translate, by the same sound mappings, or neither does, in HA and outside it |
| NatTheorems.DeploymentExists | pkg/vpn_client/iptables.go:28-139 | deployments exist for every configuration whose networks fit where they are translated |
| NatTheorems.DeploymentIsTransparent | pkg/vpn_client/iptables.go:53-127 | in every deployment whose sides are configured alike and each set their own rules, a packet of the Envoy VPN group to any shoot address arrives at that address |
| NatTheorems.SeedPodRoundTripIff | pkg/vpn_client/iptables.go:129-138 | every seed pod gets back the packets sent to the address announced for it exactly when the seed pod network has a prefix of 8 or more |
| NatTheorems.SeedPodOutbound | pkg/vpn_client/iptables.go:129-138 | the packets of a seed pod leave under exactly the address announced for it |
| NatTheorems.UnmapPodIP | cmd/vpn_client/app/pathcontroller/pathcontroller.go:74-85 | the announced pod address, `netmapIP` into 241/8, is translated back to the host part it was made from |
| NatTheorems.PlainPodIPsRoundTrip | cmd/vpn_client/app/pathcontroller/pathcontroller.go:74-85 | without translation every seed pod gets back the packets sent to its announced address, which is its own |
| VpnValues.CountHostsCounts | pkg/network/types.go:56-77 | the count is the size of the set of host addresses: all, less network and broadcast address for IPv4 prefixes up to 30 |
| VpnValues.SumHostsAdds | pkg/vpn_server/values.go:37-40 | the sum of hosts adds over the list, and is the size of the host set for one network |
| VpnValues.MaxRoutes | pkg/vpn_server/values.go:36-49 | the limit is the exact host sum where that lies in 256..2^20, 256 below and 2^20 above, for sums of any size, past `uint64` too |
| VpnValues.SelectAll | pkg/vpn_server/values.go:77-97 | the list after the three loops, in order, and which networks are in it: the unmapped ones, and the reserved range of each list that has a mapped one |
| VpnValues.SelectedIsAnnounced | cmd/vpn_client/app/pathcontroller/client_router.go:147-174 | the networks `updateRouting` selects are those the server announces |
| VpnValues.AnnouncedMeans | pkg/vpn_server/values.go:75-97 | announced are without netmap exactly the shoot networks, and with it exactly the IPv6 ones and the reserved range of each list that has an IPv4 one |
| VpnValues.SortByString | pkg/vpn_server/values.go:99-102 | the list is sorted by the printed form, and a permutation of what it was |
| Strings.AtMostIff | pkg/vpn_server/values.go:100-102 | the order of the sort: the first differing character decides, and a prefix comes first |
| VpnValues.Compact | pkg/vpn_server/values.go:103-105 | exactly the repetitions of a predecessor are dropped |
| VpnValues.CompactedSorted | pkg/vpn_server/values.go:99-105 | sorting then compacting leaves every network exactly once, in string order |
| VpnValues.CanonicalNetworks | pkg/vpn_server/values.go:75-105 | selecting, sorting and compacting leaves exactly the announced networks, each once, in string order |
| VpnValues.SplitByFamily | pkg/vpn_server/values.go:107-113 | the V4 and V6 lists are the order-preserving family parts |
| VpnValues.BuildValues | pkg/vpn_server/values.go:21-131 | succeeds exactly for an IPv6 VPN network of prefix 96 and a pod name that agrees with the HA flag, and which error comes otherwise; then the route limit, HA data, tunnel network bytes and the canonical list of announced networks with its two parts |
| VpnValues.TransitIsAnnounced | pkg/vpn_server/values.go:57-105 | coverage: every address under which a packet for a shoot address can travel lies in an announced network, in every deployment |
| AddressPlan.BondingShootClientIP | pkg/network/ip.go:55-61 | the three byte assignments give network prefix, 0x0b, 0, low byte of the index |
| AddressPlan.AllBondingShootClientIPs | pkg/network/ip.go:47-53 | one such address for every index, in order |
| AddressPlan.HAVPNTunnelNetwork | pkg/network/ip.go:81-92 | the /112 of a VPN index |
| AddressPlan.PoolAddressReads | pkg/ippool/broker.go:98-105 | the low bytes of a pool address read as its index, and all others are those of the base |
| AddressPlan.PoolAddressInjective | pkg/ippool/broker.go:98-105 | different indices of a range give different addresses, for one-byte and two-byte ranges |
| AddressPlan.ClientIndexRoundTripIff | pkg/network/ip.go:73-75 | the client index comes back from its address exactly for 0..255 |
| AddressPlan.ShootClientsDistinctIff | pkg/network/ip.go:47-61 | the shoot clients have distinct addresses exactly up to 256 clients |
| AddressPlan.PlanIsDisjoint | pkg/network/ip.go:47-92 | seed clients, shoot clients and tunnel networks are pairwise disjoint parts of the VPN /96 |
| AddressPlan.TunnelsAreDisjoint | pkg/network/ip.go:81-92 | tunnel networks of different indices below 256 share no address |
| IpPoolStore.LookupShows | pkg/ippool/manager.go:82-102 | a lookup shows exactly the own IP, used before reserved, and of every other pod its used IP, or its reserved one if it uses none |
| IpPoolCluster.PodIPPoolManager.UsageLookup | pkg/ippool/manager.go:72-104 | for every listing order, the loop returns own IP and foreign sets of the store as it is, used taking precedence over reserved |
| IpPoolCluster.PodIPPoolManager.SetIPAddress | pkg/ippool/manager.go:106-127 | sends a write of exactly one key of an existing pod, as the step of its process that the protocol has there; a failing call may or may not have had its effect |
| IpBroker.IPAddressBroker.FindFreeIPAddress | pkg/ippool/broker.go:96-115 | any address returned is of the range and outside both foreign sets, and there is none only if a thousand draws of the range were all taken |
| IpBroker.IPAddressBroker.GetExistingIPAddresses | pkg/ippool/broker.go:60-62 | what a lookup returns is what the store shows at that point of the history, and it takes the process where the protocol says |
| IpBroker.IPAddressBroker.AnnounceIPAddress | pkg/ippool/broker.go:71-94 | each error exactly when its cause is there (a crowded range, a failed call or missing pod, an undefined own IP), and that the write goes out as the step of the protocol; the broker field is set to the written IP exactly on success |
| IpBroker.IPAddressBroker.Reserve | pkg/ippool/broker.go:127-137 | the first half of a round extends the shared history by steps of the protocol up to the sent reservation, unless the pod already uses an IP, a call failed or the range was crowded |
| IpBroker.IPAddressBroker.CheckAgain | pkg/ippool/broker.go:139-146 | the second half: no sooner than the waiting time, the re-check finds what the store shows then, and leads on exactly without a conflict |
| IpBroker.IPAddressBroker.UseIP | pkg/ippool/broker.go:151-160 | marking the IP as used ends the process holding it, or fails because the call did |
| IpBroker.IPAddressBroker.AcquireIP | pkg/ippool/broker.go:123-161 | refinement: the shared history of all pods stays a run of the timed protocol, in which this process goes from its start to holding the IP returned, or ends with an error; every error has its cause in the history (the last call failed, a lookup showed a crowded range, 30 re-checks found conflicts), and no call failed before; with waits longer than the write delay, or prompt writes, no other pod has or is about to have the IP, and "own ip undefined" never comes out |
| IpBroker.IPAddressBroker.ExplainedMeans | pkg/ippool/broker.go:126-157 | the causes of errors in full: exactly the last call failed, or none; a lookup of the history and a thousand draws of the range that it shows as taken; 30 re-checks, in order, each with the IP counting for another pod |
| IpBroker.IPAddressBroker.NobodyElse | pkg/ippool/broker.go:117-121 | in a trusted run an IP held by one process is claimed by no other pod |
| IpPoolProtocol.CheckedIsUnclaimed | pkg/ippool/broker.go:117-121 | an IP claimed by one pod is a conflict for every other pod that looks |
| IpPoolProtocol.StepKeepsInv | pkg/ippool/broker.go:123-161 | every step of any pod, crash, restart, deletion or landing write keeps: no two pods claim one IP |
| IpPoolProtocol.TimedRunsAreSafe | pkg/ippool/broker.go:123-161 | over all runs with wait and restart longer than the write delay: no own write is under way at the re-check, the IP written as used is the one checked, "own ip undefined" does not occur, claims are exclusive |
| IpPoolProtocol.LongWaitsAreSafe | pkg/ippool/broker.go:139-160 | timed mutual exclusion of any number of pods |
| IpPoolBounds.ShortWait | pkg/ippool/broker.go:139-144 | with a wait no longer than the write delay, a run with two pods on one IP |
| IpPoolBounds.PromptRestart | pkg/ippool/broker.go:126-133 | with a restart within the write delay, another such run |
| IpPoolBounds.SafeIff | pkg/ippool/broker.go:123-161 | the protocol is safe in all runs exactly when both the wait and the restart delay exceed the write delay |
| IpPoolAtomic.PromptRunKeepsInv | pkg/ippool/manager.go:106-127 | runs of the timed protocol whose writes become visible at once keep the invariant, however short the waits |
| IpPoolAtomic.AtomicRunsAreSafe | pkg/ippool/broker.go:123-161 | untimed mutual exclusion for atomic writes and stale lookups, with failures, crashes, restarts and deletions |
| WatchdogRing.NewWatchdog | pkg/shoot_client/tunnel/watchdog.go:26-55 | a watchdog is made exactly for a valid configuration, else the first violated check is reported |
| WatchdogRing.Watchdog.Record | pkg/shoot_client/tunnel/watchdog.go:57-99 | refinement: one call is one step of the history specification, and the action is called exactly when that fires |
| WatchdogRing.Watchdog.CountFailures | pkg/shoot_client/tunnel/watchdog.go:79-85 | the ring holds exactly the failures among the last window-size recorded events |
| WatchdogRing.RingStep | pkg/shoot_client/tunnel/watchdog.go:75-77 | overwriting at the position and moving on drops the oldest entry and appends the new one |
| WatchdogSpec.RecordedIsSuffix | pkg/shoot_client/tunnel/watchdog.go:65-99 | the recorded events are the suffix of the whole history after the last firing and its cooldown |
| WatchdogSpec.FiresIff | pkg/shoot_client/tunnel/watchdog.go:65-99 | the firing rule in terms of the whole history alone |
| WatchdogSpec.SucceedNeverFires | pkg/shoot_client/tunnel/watchdog.go:61-63 | a success fires in no reachable state |
| WatchdogSpec.Budget | pkg/shoot_client/tunnel/watchdog.go:65-99 | amortised cost of firings and window content, over any run |
| WatchdogSpec.RateLimit | pkg/shoot_client/tunnel/watchdog.go:91-96 | k firings take at least k * threshold + (k - 1) * cooldown events in any run |
| WatchdogSpec.RateLimitIsTight | pkg/shoot_client/tunnel/watchdog.go:91-96 | and a run of exactly that length with k firings exists, for every configuration and k |
| WatchdogSpec.EventuallyFires | pkg/shoot_client/tunnel/watchdog.go:28-42 | after any run, cooldown + threshold failures in a row contain a firing |
| WatchdogSpec.AlwaysFiresIff | pkg/shoot_client/tunnel/watchdog.go:28-42 | n failures in a row contain a firing after every run exactly for n at least cooldown + threshold |
| TunnelModel.LinkNameInjective | pkg/shoot_client/tunnel/tunnel.go:131-135 | within one /112 link names tell remote addresses apart |
| TunnelModel.LinkNameReads | pkg/shoot_client/tunnel/tunnel.go:131-135 | link names have the 15 characters Linux allows, and end in the last two bytes in hexadecimal |
| TunnelModel.KernelAfterMeans | pkg/shoot_client/tunnel/tunnel.go:80-111 | what each way an update ends leaves of links and routes, and that nothing else changes |
| TunnelClasses.KubeApiserverData.Update | pkg/shoot_client/tunnel/tunnel.go:76-117 | for each way an update can end, an unreadable pod IP included, the entry and the kernel tables it leaves; routes go to the parsed address |
| TunnelClasses.Controller.Receive | pkg/shoot_client/tunnel/tunnel.go:248-274 | one packet: the entry made or refreshed, all others untouched; an update starts exactly for a new entry, a changed pod IP, or one that never completed and has not failed within 30 s; whether a cleaning starts, and the next cleaning time |
| TunnelClasses.Controller.UpdateEntry | pkg/shoot_client/tunnel/tunnel.go:76-117 | an update changes the data it was started with, which may no longer be an entry, and the kernel, but no other entry |
| TunnelClasses.Controller.Clean | pkg/shoot_client/tunnel/tunnel.go:277-286 | for every visiting order, exactly the entries not seen for more than 10 minutes go, and the links and routes of those whose deletion succeeds |
| TunnelClasses.Controller.IsReady | pkg/shoot_client/tunnel/readiness.go:32-58 | ready exactly when there are entries and each has a completed update and no error |
| TunnelReadiness.RunKeepsInv | pkg/shoot_client/tunnel/tunnel.go:230-286 | every run of packets, updates and cleanings keeps every ready entry served |
| TunnelReadiness.SoundIff | pkg/shoot_client/tunnel/readiness.go:32-58 | over all runs, whatever links and routes were left behind and however pod IPs are written: "ready" means that every entry has its device and its address routed to it, exactly when no remote address with a readable pod IP shares its link name with another and no two announce the same address |
| TunnelReadiness.SoundForSeedClients | pkg/shoot_client/tunnel/tunnel.go:131-135 | for seed clients, whose addresses lie in one /112, exactly when no two announce the same address |
| TunnelRetry.FailureAfterSuccessLasts | pkg/shoot_client/tunnel/tunnel.go:63-73 | an update that fails after one succeeded keeps the client unready for as long as the entry stays and announces the same pod IP from then on, whatever it announced before |
| TunnelRetry.StuckIff | pkg/shoot_client/tunnel/tunnel.go:63-73 | such a state is reachable for a pod IP exactly when the kube-apiserver announces it, and at some time one that can be read |
| TunnelRetry.RetryStartsIff | pkg/shoot_client/tunnel/tunnel.go:67-73 | when a retry of an entry that never completed starts: without a recorded failure, or more than 30 s after it |
| TunnelRetry.BackoffIsKept | pkg/shoot_client/tunnel/tunnel.go:59-74 | over runs: for 30 s after a failed update of such an entry, packets of the same pod IP start none |
| TunnelExpiry.KeptIffSeenLately | pkg/shoot_client/tunnel/tunnel.go:144-148 | over runs: a cleaning keeps an entry exactly if its last packet is no more than 10 minutes old |
| TunnelCleaning.CleansIff | pkg/shoot_client/tunnel/tunnel.go:270-273 | for all packet times in order: a packet starts a cleaning exactly when every gap between packets so far, counted from the start of the controller, is below 15 minutes |
| TunnelCleaning.QuietPeriodEndsCleaning | pkg/shoot_client/tunnel/tunnel.go:270-273 | one gap of 15 minutes ends cleaning for ever, although it is then overdue |
| TunnelCleaning.BusyCleansAlways | pkg/shoot_client/tunnel/tunnel.go:270-273 | without such a gap every packet starts a cleaning, although none is due |
| PathController.ReplaceRoutes | cmd/vpn_client/app/pathcontroller/client_router.go:170-185 | the networks up to a refused one are routed to the client, all other routes stay |
| PathController.UpdateRouting | cmd/vpn_client/app/pathcontroller/client_router.go:125-187 | fails exactly on a missing link, networks that do not fit or a refused route; on success every announced network is routed to the client, no other route changes in any case, and exactly which are replaced by a failure |
| PathController.RoundResult | cmd/vpn_client/app/pathcontroller/client_router.go:87-114 | confluence: for every interleaving of the ping goroutines exactly the clients that answered are good |
| PathController.RoundIsConfluentIff | cmd/vpn_client/app/pathcontroller/client_router.go:87-114 | the interleaving does not matter exactly when clients with one address answer alike |
| PathController.ClientRouter.PingAllShootClients | cmd/vpn_client/app/pathcontroller/client_router.go:87-114 | the goroutines in any order; the good set after the round |
| PathController.ClientRouter.DeterminePrimaryShootClient | cmd/vpn_client/app/pathcontroller/client_router.go:70-85 | a primary that is good stays, with its routes; else a good client is picked, if there is one, and taken exactly if routing to it succeeds; no error exactly if the primary is good in the end |
| PathController.ClientRouter.RunOnce | cmd/vpn_client/app/pathcontroller/client_router.go:50-58 | the loop body is one step of the state machine below; the good set after it, and no error exactly if the primary is in it |
| PathTheorems.RoundOfRun | cmd/vpn_client/app/pathcontroller/client_router.go:45-85 | in every run: after a round the good clients are those that answered, the round ends without error exactly when the primary is one of them, and the primary changes exactly when it did not answer, somebody did, and routing to it succeeded |
| PathTheorems.RunRoutes | cmd/vpn_client/app/pathcontroller/client_router.go:176-185 | the controller routes its networks and nothing else, in every run |
| PathTheorems.FollowsIff | cmd/vpn_client/app/pathcontroller/client_router.go:77-85 | while a primary stays, all routes lead to it exactly as long as every failed switch since replaced no route |
| PathTheorems.AlwaysServesIff | cmd/vpn_client/app/pathcontroller/client_router.go:176-185 | after every error-free round of every run the primary answered and all routes lead to it, exactly when no update can be half done: at most one network, one client, or networks that never fit |
| PathTheorems.HalfDoneSwitch | cmd/vpn_client/app/pathcontroller/client_router.go:176-185 | otherwise three rounds suffice to leave a network routed past a healthy primary without an error in the last one |
| Coverage.TransitIsRouted | cmd/vpn_client/app/pathcontroller/client_router.go:144-185 | in an HA deployment, in any run whose routes follow the primary: the longest-prefix route for every address a packet for a shoot address travels under exists and leads to the primary |
| Coverage.TransitAvoidsSeedPods | pkg/vpn_client/iptables.go:27-46 | what the overlap test is for: in HA deployments both sides translate exactly when an address of the seed pod network is one of a shoot network, and so no packet for the shoot travels under the address of a seed pod |

## Left out

- Parsing and printing: networks arrive parsed and masked; the printed form is a parameter `show`, required to differ for different networks; how pod IPs are parsed is an arbitrary function `parse`.
- IPv4-mapped IPv6 networks and mixed-length `net.IPNet` values: each family has its fixed width.
- The pointer keys of `NetmapCIDRs`: the mappings are keyed by value, which loses nothing because the string map beneath has one entry for each source.
- The reserved ranges 241/8 to 244/8 come from a dependency that is not part of this model; their values are those used in pkg/network/netmap_test.go.
- NatRules.SetClientRules: models the NETMAP rules only. The filter, mangle and MASQUERADE rules are left out; the last is for eth0, not for the forward device. The filter FORWARD rule is there even when the networks do not fit.
- Connection tracking: chains are applied to single packets.
- IpPoolCluster.PodIPPoolManager.SetIPAddress: is called where the protocol has the pod write that IP, as its one caller does.
- IpBroker.IPAddressBroker.AcquireIP: the pod is not deleted during the call, since its process would end with it. The constructor takes the fixed, valid range of the address plan, so its range error cannot occur.
- IpPoolProtocol.LongWaitsAreSafe: one process for each pod name, writes of a deleted pod do not land on its replacement, and clocks are one global clock. No liveness is stated: random retries promise none.
- TunnelReadiness.SoundIff: each update runs under its lock as one step, and no update is under way when a cleaning runs; a stale update of an entry already dropped and made anew could otherwise take away its device. Log messages are left out.
- TunnelClasses.Controller.Receive: UDP input, deadlines and the local address are left out; the watchdog fed by the same loop is modelled on its own.
- PathController.ClientRouter.RunOnce: the pod IP sent to every client has no effect on the router's state and is left out, and so is the ICMP pinger; answers are parameters.
- WatchdogRing.Watchdog.Record: the action is a parameter that yields its error; what it does is left out.
- `ConfigureBonding`, kernel settings, MTU detection, OpenVPN templates and health checks, netstat parsing, the exporter, environment parsing and the commands: plumbing over libraries, which would add only easy members.
