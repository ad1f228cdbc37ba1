/** NAT and routing together: translated packets are routed to the primary. */
module Coverage {
  import opened Cidrs
  import opened AddressPlan
  import opened NetmapAllocator
  import opened ShootNetworks
  import opened NatRules
  import opened NatTheorems
  import opened VpnValues
  import opened PathControllerModel
  import opened PathController
  import opened PathTheorems

  /** The kernel's choice: the route with the longest prefix of those that contain the address. */
  ghost predicate IsBestRoute(routes: map<Cidr, int>, a: Address, n: Cidr) {
    && n in routes && Contains(n, a)
    && forall m <- routes :: Contains(m, a) ==> m.prefix <= n.prefix
  }

  lemma {:induction false} BestRouteExists(routes: map<Cidr, int>, a: Address, n: Cidr) returns (best: Cidr)
    requires n in routes && Contains(n, a)
    ensures IsBestRoute(routes, a, best)
    decreases routes.Keys
  {
    var others := routes - {n};
    if m :| m in others && Contains(m, a) {
      best := BestRouteExists(others, a, m);
      if best.prefix < n.prefix {
        best := n;
      }
    } else {
      best := n;
    }
  }

  /** In an HA deployment, in any run of the path controller: whatever address a seed packet for the shoot travels
      under, when the routes follow the primary, the kernel sends it through the primary's tunnel. Routes that were
      there before the controller do not get in the way unless they contain the address themselves. */
  lemma TransitIsRouted(seed: Chains, shoot: Chains, shootCfg: ClientConfig, seedCfg: ClientConfig, sort: Sorter,
                        dst: nat, clients: set<Ip6>, c: Config, ticks: seq<Tick>, states: seq<State>, i: nat)
    requires IsSorter(sort) && Deployed(seed, shoot, shootCfg, seedCfg, sort) && shootCfg.isHA
    requires shootCfg.networks.Valid() && InShoot(shootCfg.networks, dst)
    requires c == ConfigOf(seedCfg.networks, seedCfg.seedPodNetwork, clients, MappingsFit(seedCfg.networks))
    requires IsRun(c, ticks, states) && i <= |ticks| && states[i].primary.Some? && Follows(c, states[i])
    requires forall n <- states[0].routes :: Contains(n, Address(32, Transit(seed, dst))) ==> n in c.nets
    ensures exists n :: IsBestRoute(states[i].routes, Address(32, Transit(seed, dst)), n)
    ensures forall n :: IsBestRoute(states[i].routes, Address(32, Transit(seed, dst)), n) ==>
              states[i].routes[n] == ClientIndexFromBondingShootClientIP(states[i].primary.value)
  {
    hide IsSorter, ClientOutcome, ServerChains, Contains, Announced, SelectedAll, SeedOverlaps, Transit, MappingsFit, PathControllerModel.After;
    TransitIsAnnounced(seed, shoot, shootCfg, seedCfg, sort, dst);
    var a := Address(32, Transit(seed, dst));
    var n: Cidr :| n.Valid() && Contains(n, a) && Announced(n, shootCfg.networks, ClientNetmaps(shootCfg));
    SelectedIsAnnounced(seedCfg.networks, SeedOverlaps(seedCfg.seedPodNetwork, seedCfg.networks));
    RunRoutes(c, ticks, states, i);
    var best := BestRouteExists(states[i].routes, a, n);
  }

  /** What the overlap test is for: in an HA deployment the sides translate exactly when some address of the seed pod
      network is an address of a shoot network, and so no packet for the shoot travels under the address of a seed
      pod, unless seed pods live in the reserved ranges. */
  lemma TransitAvoidsSeedPods(seed: Chains, shoot: Chains, shootCfg: ClientConfig, seedCfg: ClientConfig, sort: Sorter,
                              dst: nat)
    requires IsSorter(sort) && Deployed(seed, shoot, shootCfg, seedCfg, sort) && shootCfg.isHA && shootCfg.Valid()
    requires shootCfg.seedPodNetwork.Some? && InShoot(shootCfg.networks, dst)
    requires forall r <- {SHOOT_POD_MAPPED, SHOOT_SERVICE_MAPPED, SHOOT_NODE_MAPPED} ::
               Disjoint(shootCfg.seedPodNetwork.value, r)
    ensures ClientNetmaps(shootCfg) <==>
            exists x: Address, n :: n in shootCfg.networks.All() && x.Valid()
                                    && Contains(shootCfg.seedPodNetwork.value, x) && Contains(n, x)
    ensures !ClientNetmaps(shootCfg) ==> seed.output == [] && shoot.prerouting == []
    ensures !Contains(shootCfg.seedPodNetwork.value, Address(32, Transit(seed, dst)))
  {
    hide IsSorter, ClientOutcome, ServerChains, Transit, MappingsFit, MappingsOf, IsMappingOf, SeedOverlaps, Contains,
      Disjoint, AddsOutput, AddsPrerouting, Announced, Cidr.Valid, Address.Valid;
    var pods, ns := shootCfg.seedPodNetwork.value, shootCfg.networks;
    var a := Address(32, Transit(seed, dst));
    SeedOverlapsIff(shootCfg.seedPodNetwork, ns);
    DeployedChains(seed, shoot, shootCfg, seedCfg, sort);
    if ClientNetmaps(shootCfg) {
      var range := TransitInRange(seed, shoot, shootCfg, seedCfg, sort, dst);
      SharesNothing(pods, range, a);
    } else {
      PlainTransit(seed, dst);
      var n :| n in ns.All() && n.IsIPv4() && Contains(n, Address(32, dst));
      AddressIsValid(n, a);
    }
  }

  lemma SharesNothing(n: Cidr, m: Cidr, a: Address)
    requires n.Valid() && m.Valid() && Disjoint(n, m) && Contains(m, a)
    ensures !Contains(n, a)
  {
    ContainsIsInterval(n, a);
    ContainsIsInterval(m, a);
  }

  lemma PlainTransit(seed: Chains, dst: nat)
    requires seed.output == []
    ensures Transit(seed, dst) == dst
  {
  }

  lemma AddressIsValid(n: Cidr, a: Address)
    requires n.Valid() && Contains(n, a)
    ensures a.Valid()
  {
    ContainsIsInterval(n, a);
    EndsInSpace(n);
  }
}
