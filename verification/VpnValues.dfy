/** The values of the VPN server (pkg/vpn_server/values.go): which networks are announced. */
module VpnValues {
  import opened Bits
  import opened Cidrs
  import opened NetmapAllocator
  import opened NetmapTheorems
  import opened ShootNetworks
  import opened NatRules
  import opened NatTheorems
  import opened Strings
  import opened AddressPlan

  const ROUTES_PER_CLIENT_MAX: nat := 0x10_0000
  const ROUTES_PER_CLIENT_MIN: nat := 256

  /** The VPN network as parsed: unset, IPv4, or IPv6 with its address bytes and prefix length. */
  datatype VpnNetwork = Unset | IPv4Network | IPv6Network(ip: Ip6, ones: nat)

  datatype ValuesConfig = ValuesConfig(
    vpnNetwork: VpnNetwork, seedPodNetwork: Option<Cidr>, networks: Networks,
    podName: string, isHA: bool, haVPNClients: int)
  {
    ghost predicate Valid() {
      networks.Valid() && (seedPodNetwork.Some? ==> seedPodNetwork.value.Valid())
    }
  }

  datatype Values = Values(
    maxRoutesPerClient: nat, isHA: bool, vpnIndex: nat, device: string, haVPNClients: int,
    openVPNNetwork: (Ip6, nat), shootNetworks: seq<Cidr>, shootNetworksV4: seq<Cidr>, shootNetworksV6: seq<Cidr>)

  /** getHAInfo: a pod name that ends in "-0", "-1" or "-2" is an HA server with that index. */
  function GetHAInfo(podName: string): (bool, nat) {
    var n := |podName|;
    if n >= 2 && podName[n - 2] == '-' && '0' <= podName[n - 1] <= '2'
    then (true, podName[n - 1] as int - '0' as int) else (false, 0)
  }

  function HAName(rest: string, index: nat): string
    requires index <= 2
  {
    rest + ['-', '0' + index as char]
  }

  /** Exactly the names that end in a dash and one of the digits 0, 1 and 2, the digit being the index. */
  lemma HAInfoIff(podName: string, index: nat)
    ensures GetHAInfo(podName) == (true, index) <==>
            index <= 2 && exists rest :: podName == HAName(rest, index)
    ensures !GetHAInfo(podName).0 ==> GetHAInfo(podName).1 == 0
  {
    var n := |podName|;
    if GetHAInfo(podName) == (true, index) {
      assert podName == HAName(podName[..n - 2], index);
    }
  }

  /** The number of addressable hosts: all addresses, less two for IPv4 networks of prefix 30 or shorter. */
  function CountHosts(n: Cidr): nat {
    if n.prefix > n.bits then 0
    else if n.bits == 32 && n.prefix <= 30 then (if n.Size() >= 2 then n.Size() - 2 else 0)
    else n.Size()
  }

  /** The host addresses of a network: all of them, but in an IPv4 network of prefix 30 or shorter not the first and
      the last, which are the network's own and the broadcast address. */
  ghost function Hosts(n: Cidr): set<nat> {
    Interval(n.base, n.Size()) - if n.IsIPv4() && n.prefix <= 30 then {n.base, n.base + n.Size() - 1} else {}
  }

  lemma CountHostsCounts(n: Cidr)
    requires n.Valid()
    ensures CountHosts(n) == |Hosts(n)|
  {
    IntervalSize(n.base, n.Size());
    if n.IsIPv4() && n.prefix <= 30 {
      Pow2Monotonic(2, n.HostBits());
      assert Pow2(2) == 4;
      assert |{n.base, n.base + n.Size() - 1}| == 2;
    }
  }

  function SumHosts(ns: seq<Cidr>): nat {
    if ns == [] then 0 else SumHosts(ns[..|ns| - 1]) + CountHosts(ns[|ns| - 1])
  }

  /** The sum adds up the hosts of the networks, one by one. */
  lemma {:induction false} SumHostsAdds(a: seq<Cidr>, b: seq<Cidr>)
    ensures SumHosts(a + b) == SumHosts(a) + SumHosts(b)
    ensures |a| == 1 && a[0].Valid() ==> SumHosts(a) == |Hosts(a[0])|
  {
    if |a| == 1 && a[0].Valid() {
      CountHostsCounts(a[0]);
      assert a[..0] == [];
    }
    if b == [] {
      assert a + b == a;
    } else {
      var k := |b| - 1;
      assert (a + b)[..|a + b| - 1] == a + b[..k];
      SumHostsAdds(a, b[..k]);
    }
  }

  method MaxRoutes(ns: seq<Cidr>) returns (r: nat)
    ensures 256 <= r <= 0x10_0000
    ensures 256 <= SumHosts(ns) <= 0x10_0000 ==> r == SumHosts(ns)
    ensures SumHosts(ns) <= 256 ==> r == 256
    ensures SumHosts(ns) >= 0x10_0000 ==> r == 0x10_0000
  {
    var maxRoutes := 0;
    for i := 0 to |ns|
      invariant maxRoutes == SumHosts(ns[..i])
    {
      assert ns[..i + 1][..i] == ns[..i];
      maxRoutes := maxRoutes + CountHosts(ns[i]);
    }
    assert ns[..|ns|] == ns;
    var maxRoutesUint64 := 0;
    if maxRoutes < 0x1_0000_0000_0000_0000 {
      maxRoutesUint64 := maxRoutes;
    } else {
      maxRoutesUint64 := ROUTES_PER_CLIENT_MAX;
    }
    maxRoutesUint64 := if maxRoutesUint64 < ROUTES_PER_CLIENT_MAX then maxRoutesUint64 else ROUTES_PER_CLIENT_MAX;
    r := if maxRoutesUint64 > ROUTES_PER_CLIENT_MIN then maxRoutesUint64 else ROUTES_PER_CLIENT_MIN;
  }

  /** n is announced for the list: an IPv6 or unmapped network as it is, a mapped IPv4 one as its range. */
  predicate AnnouncedFor(n: Cidr, list: seq<Cidr>, mapped: Cidr, doNetmap: bool) {
    || (n in list && !(n.IsIPv4() && doNetmap))
    || (n == mapped && doNetmap && exists o <- list :: o.IsIPv4())
  }

  /** The networks reached through the VPN: those BuildValues announces and updateRouting routes. */
  predicate Announced(n: Cidr, ns: Networks, doNetmap: bool) {
    || AnnouncedFor(n, ns.services, SHOOT_SERVICE_MAPPED, doNetmap)
    || AnnouncedFor(n, ns.pods, SHOOT_POD_MAPPED, doNetmap)
    || AnnouncedFor(n, ns.nodes, SHOOT_NODE_MAPPED, doNetmap)
  }

  /** What is announced: without netmap the shoot networks; with it the IPv6 ones among them and, for each list that has
      an IPv4 network, its reserved range. */
  lemma AnnouncedMeans(ns: Networks, n: Cidr)
    ensures Announced(n, ns, false) <==> n in ns.All()
    ensures !n.IsIPv4() ==> (Announced(n, ns, true) <==> n in ns.All())
    ensures n.IsIPv4() ==>
              (Announced(n, ns, true) <==>
               || (n == SHOOT_POD_MAPPED && IPv4Only(ns.pods) != [])
               || (n == SHOOT_SERVICE_MAPPED && IPv4Only(ns.services) != [])
               || (n == SHOOT_NODE_MAPPED && IPv4Only(ns.nodes) != []))
  {
    HasIPv4(ns.pods);
    HasIPv4(ns.services);
    HasIPv4(ns.nodes);
    hide IPv4Only;
  }

  lemma HasIPv4(list: seq<Cidr>)
    ensures IPv4Only(list) != [] <==> exists o <- list :: o.IsIPv4()
  {
    if IPv4Only(list) != [] {
      assert IPv4Only(list)[0] in IPv4Only(list);
    }
    if o :| o in list && o.IsIPv4() {
      assert o in IPv4Only(list);
    }
  }

  /** One list with its IPv4 networks replaced by their range where netmap is on. */
  function Selected(list: seq<Cidr>, mapped: Cidr, doNetmap: bool): seq<Cidr> {
    seq(|list|, i requires 0 <= i < |list| => if list[i].IsIPv4() && doNetmap then mapped else list[i])
  }

  function SelectedAll(ns: Networks, doNetmap: bool): seq<Cidr> {
    Selected(ns.services, SHOOT_SERVICE_MAPPED, doNetmap) + Selected(ns.pods, SHOOT_POD_MAPPED, doNetmap)
    + Selected(ns.nodes, SHOOT_NODE_MAPPED, doNetmap)
  }

  lemma SelectedIsAnnounced(ns: Networks, doNetmap: bool)
    ensures forall n :: n in SelectedAll(ns, doNetmap) <==> Announced(n, ns, doNetmap)
  {
    SelectedFor(ns.services, SHOOT_SERVICE_MAPPED, doNetmap);
    SelectedFor(ns.pods, SHOOT_POD_MAPPED, doNetmap);
    SelectedFor(ns.nodes, SHOOT_NODE_MAPPED, doNetmap);
  }

  lemma SelectedFor(list: seq<Cidr>, mapped: Cidr, doNetmap: bool)
    ensures forall n :: n in Selected(list, mapped, doNetmap) <==> AnnouncedFor(n, list, mapped, doNetmap)
  {
    forall n | AnnouncedFor(n, list, mapped, doNetmap) ensures n in Selected(list, mapped, doNetmap) {
      var o :| o in list && n == if o.IsIPv4() && doNetmap then mapped else o;
      var i :| 0 <= i < |list| && list[i] == o;
      assert Selected(list, mapped, doNetmap)[i] == n;
    }
  }

  /** The loop over one list, the same in BuildValues and in updateRouting. */
  method SelectNetworks(list: seq<Cidr>, mapped: Cidr, doNetmap: bool) returns (r: seq<Cidr>)
    ensures r == Selected(list, mapped, doNetmap)
  {
    r := [];
    for i := 0 to |list|
      invariant r == Selected(list[..i], mapped, doNetmap)
    {
      if list[i].IsIPv4() && doNetmap {
        r := r + [mapped];
      } else {
        r := r + [list[i]];
      }
    }
    assert list[..|list|] == list;
  }

  /** The three loops together: services, pods, nodes. */
  method SelectAll(ns: Networks, doNetmap: bool) returns (nets: seq<Cidr>)
    ensures nets == SelectedAll(ns, doNetmap)
    ensures forall n :: n in nets <==> Announced(n, ns, doNetmap)
  {
    var services := SelectNetworks(ns.services, SHOOT_SERVICE_MAPPED, doNetmap);
    var pods := SelectNetworks(ns.pods, SHOOT_POD_MAPPED, doNetmap);
    var nodes := SelectNetworks(ns.nodes, SHOOT_NODE_MAPPED, doNetmap);
    nets := services + pods + nodes;
    SelectedIsAnnounced(ns, doNetmap);
  }

  ghost predicate SortedByString(ns: seq<Cidr>, show: Cidr -> string) {
    forall i, j :: 0 <= i < j < |ns| ==> AtMost(show(ns[i]), show(ns[j]))
  }

  ghost predicate NoDuplicates(ns: seq<Cidr>) {
    forall i, j :: 0 <= i < j < |ns| ==> ns[i] != ns[j]
  }

  /** slices.SortFunc by string; equal strings may end up in any order. */
  method SortByString(ns: seq<Cidr>, show: Cidr -> string) returns (sorted: seq<Cidr>)
    ensures SortedByString(sorted, show) && multiset(sorted) == multiset(ns)
  {
    sorted := [];
    for i := 0 to |ns|
      invariant SortedByString(sorted, show) && multiset(sorted) == multiset(ns[..i])
    {
      assert ns[..i + 1] == ns[..i] + [ns[i]];
      InsertByStringSorts(sorted, ns[i], show);
      sorted := InsertByString(sorted, ns[i], show);
    }
    assert ns[..|ns|] == ns;
  }

  function InsertByString(sorted: seq<Cidr>, n: Cidr, show: Cidr -> string): seq<Cidr> {
    if sorted == [] || AtMost(show(n), show(sorted[0])) then [n] + sorted
    else [sorted[0]] + InsertByString(sorted[1..], n, show)
  }

  lemma {:induction false} InsertByStringSorts(sorted: seq<Cidr>, n: Cidr, show: Cidr -> string)
    requires SortedByString(sorted, show)
    ensures SortedByString(InsertByString(sorted, n, show), show)
    ensures multiset(InsertByString(sorted, n, show)) == multiset(sorted) + multiset{n}
  {
    if sorted == [] {
    } else if AtMost(show(n), show(sorted[0])) {
      forall i | 0 <= i < |sorted| ensures AtMost(show(n), show(sorted[i])) {
        if i > 0 {
          AtMostTransitive(show(n), show(sorted[0]), show(sorted[i]));
        }
      }
    } else {
      InsertByStringSorts(sorted[1..], n, show);
      AtMostTotal(show(n), show(sorted[0]));
      var rest := InsertByString(sorted[1..], n, show);
      assert sorted == [sorted[0]] + sorted[1..];
      forall j | 0 <= j < |rest| ensures AtMost(show(sorted[0]), show(rest[j])) {
        assert rest[j] in multiset(rest);
        assert rest[j] == n || rest[j] in sorted[1..];
      }
    }
  }

  /** slices.CompactFunc: drops every element equal to the one kept before it. */
  method Compact(ns: seq<Cidr>) returns (r: seq<Cidr>)
    ensures r == Compacted(ns)
  {
    r := [];
    for i := 0 to |ns|
      invariant r == Compacted(ns[..i])
    {
      CompactedStep(ns[..i], ns[i]);
      assert ns[..i + 1] == ns[..i] + [ns[i]];
      if r == [] || r[|r| - 1] != ns[i] {
        r := r + [ns[i]];
      }
    }
    assert ns[..|ns|] == ns;
  }

  /** Without the elements that repeat their predecessor. */
  ghost function Compacted(ns: seq<Cidr>): seq<Cidr> {
    if |ns| <= 1 then ns
    else if ns[|ns| - 1] == ns[|ns| - 2] then Compacted(ns[..|ns| - 1])
    else Compacted(ns[..|ns| - 1]) + [ns[|ns| - 1]]
  }

  lemma {:induction false} CompactedStep(ns: seq<Cidr>, n: Cidr)
    ensures ns != [] ==> Compacted(ns) != [] && Compacted(ns)[|Compacted(ns)| - 1] == ns[|ns| - 1]
    ensures Compacted(ns + [n]) == if ns != [] && ns[|ns| - 1] == n then Compacted(ns) else Compacted(ns) + [n]
  {
    assert (ns + [n])[..|ns|] == ns;
    if |ns| > 1 {
      CompactedStep(ns[..|ns| - 1], ns[|ns| - 1]);
    }
  }

  /** After sorting by an injective string, compacting leaves the same networks, each exactly once, in
      string order. */
  lemma {:induction false} CompactedSorted(ns: seq<Cidr>, show: Cidr -> string)
    requires SortedByString(ns, show)
    requires forall a: Cidr, b: Cidr :: show(a) == show(b) ==> a == b
    ensures forall n :: n in Compacted(ns) <==> n in ns
    ensures NoDuplicates(Compacted(ns)) && SortedByString(Compacted(ns), show)
  {
    if |ns| > 1 {
      var init, last := ns[..|ns| - 1], ns[|ns| - 1];
      var c := Compacted(init);
      CompactedSorted(init, show);
      assert ns == init + [last];
      if last != ns[|ns| - 2] {
        LastIsNew(ns, show);
        assert forall i :: 0 <= i < |c| ==> c[i] in init;
        assert forall n :: n in init ==> AtMost(show(n), show(last));
      }
    }
  }

  lemma LastIsNew(ns: seq<Cidr>, show: Cidr -> string)
    requires SortedByString(ns, show) && |ns| > 1 && ns[|ns| - 1] != ns[|ns| - 2]
    requires forall a: Cidr, b: Cidr :: show(a) == show(b) ==> a == b
    ensures ns[|ns| - 1] !in ns[..|ns| - 1]
  {
    var k := |ns| - 1;
    if i :| 0 <= i < k && ns[i] == ns[k] {
      assert i < k - 1;
      AtMostAntisymmetric(show(ns[k]), show(ns[k - 1]));
    }
  }

  method SplitByFamily(ns: seq<Cidr>) returns (v4: seq<Cidr>, v6: seq<Cidr>)
    ensures v4 == IPv4Only(ns) && v6 == IPv6Only(ns)
  {
    hide IPv4Only, IPv6Only;
    NoFamilies();
    v4, v6 := [], [];
    for i := 0 to |ns|
      invariant v4 == IPv4Only(ns[..i]) && v6 == IPv6Only(ns[..i])
    {
      FamilyAppend(ns[..i], ns[i]);
      assert ns[..i + 1] == ns[..i] + [ns[i]];
      if ns[i].IsIPv4() {
        v4 := v4 + [ns[i]];
      } else {
        v6 := v6 + [ns[i]];
      }
    }
    assert ns[..|ns|] == ns;
  }

  /** The announced networks, sorted by string and without repetitions. */
  method CanonicalNetworks(ns: Networks, doNetmap: bool, show: Cidr -> string) returns (r: seq<Cidr>)
    requires forall a: Cidr, b: Cidr :: show(a) == show(b) ==> a == b
    ensures forall n :: n in r <==> Announced(n, ns, doNetmap)
    ensures NoDuplicates(r) && SortedByString(r, show)
  {
    var selected := SelectAll(ns, doNetmap);
    var sorted := SortByString(selected, show);
    forall n ensures n in sorted <==> n in selected {
      assert n in multiset(sorted) <==> n in multiset(selected);
    }
    CompactedSorted(sorted, show);
    r := Compact(sorted);
  }

  /** BuildValues; show is the printed form of a network, different for different networks. The checks fail in the
      order of their errors. */
  method BuildValues(cfg: ValuesConfig, show: Cidr -> string) returns (r: Result<Values>)
    requires cfg.Valid()
    requires forall a: Cidr, b: Cidr :: show(a) == show(b) ==> a == b
    ensures r == Err(VpnNetworkUnset) <==> cfg.vpnNetwork.Unset?
    ensures r == Err(VpnNetworkNotIPv6) <==> cfg.vpnNetwork.IPv4Network?
    ensures r == Err(VpnNetworkBadPrefix) <==> cfg.vpnNetwork.IPv6Network? && cfg.vpnNetwork.ones != 96
    ensures r.Ok? <==> cfg.vpnNetwork.IPv6Network? && cfg.vpnNetwork.ones == 96
                       && (cfg.isHA <==> |cfg.podName| >= 2 && cfg.podName[|cfg.podName| - 2] == '-'
                                         && cfg.podName[|cfg.podName| - 1] in {'0', '1', '2'})
    ensures r.Ok? ==>
              var v, sum := r.value, SumHosts(cfg.networks.All());
              && 256 <= v.maxRoutesPerClient <= 0x10_0000
              && (256 <= sum <= 0x10_0000 ==> v.maxRoutesPerClient == sum)
              && (sum <= 256 ==> v.maxRoutesPerClient == 256)
              && (sum >= 0x10_0000 ==> v.maxRoutesPerClient == 0x10_0000)
              && v.isHA == cfg.isHA
              && v.vpnIndex == (if cfg.isHA then cfg.podName[|cfg.podName| - 1] as int - '0' as int else 0)
              && v.device == (if cfg.isHA then "tap0" else "tun0")
              && v.haVPNClients == (if cfg.isHA then cfg.haVPNClients else -1)
              && v.openVPNNetwork ==
                   (if cfg.isHA then (cfg.vpnNetwork.ip[..12] + [1, v.vpnIndex, 0, 0], 112) else (cfg.vpnNetwork.ip, 96))
    ensures r.Ok? ==>
              && (forall n :: n in r.value.shootNetworks <==>
                              Announced(n, cfg.networks, !cfg.isHA || SeedOverlaps(cfg.seedPodNetwork, cfg.networks)))
              && NoDuplicates(r.value.shootNetworks) && SortedByString(r.value.shootNetworks, show)
              && r.value.shootNetworksV4 == IPv4Only(r.value.shootNetworks)
              && r.value.shootNetworksV6 == IPv6Only(r.value.shootNetworks)
  {
    hide Announced, SeedOverlaps, NoDuplicates, SortedByString, SumHosts;
    if cfg.vpnNetwork.Unset? {
      return Err(VpnNetworkUnset);
    }
    if cfg.vpnNetwork.IPv4Network? {
      return Err(VpnNetworkNotIPv6);
    }
    if cfg.vpnNetwork.ones != 96 {
      return Err(VpnNetworkBadPrefix);
    }
    var maxRoutesPerClient := MaxRoutes(cfg.networks.All());
    var (isHA, vpnIndex) := GetHAInfo(cfg.podName);
    if isHA != cfg.isHA {
      return Err(HAMismatch);
    }
    var doNetmap := false;
    var device, haVPNClients, openVPNNetwork := "tun0", -1, (cfg.vpnNetwork.ip, 96);
    if isHA {
      var base, ones := HAVPNTunnelNetwork(cfg.vpnNetwork.ip, vpnIndex);
      device, haVPNClients, openVPNNetwork := "tap0", cfg.haVPNClients, (base, ones);
      doNetmap := ComputeOverlap(cfg.seedPodNetwork, cfg.networks);
    } else {
      doNetmap := true;
    }
    var shootNetworks := CanonicalNetworks(cfg.networks, doNetmap, show);
    var v4, v6 := SplitByFamily(shootNetworks);
    return Ok(Values(maxRoutesPerClient, isHA, vpnIndex, device, haVPNClients, openVPNNetwork, shootNetworks, v4, v6));
  }

  /** Coverage: in every deployment, whatever address a packet for the shoot travels under lies in a network that
      BuildValues announces and, in HA, that updateRouting routes (the same Announced with doNetmap = overlap). */
  lemma TransitIsAnnounced(seed: Chains, shoot: Chains, shootCfg: ClientConfig, seedCfg: ClientConfig, sort: Sorter, dst: nat)
    requires IsSorter(sort) && Deployed(seed, shoot, shootCfg, seedCfg, sort)
    requires shootCfg.networks.Valid() && InShoot(shootCfg.networks, dst)
    ensures ClientNetmaps(shootCfg) == (!shootCfg.isHA || SeedOverlaps(shootCfg.seedPodNetwork, shootCfg.networks))
    ensures exists n: Cidr :: n.Valid() && Contains(n, Address(32, Transit(seed, dst)))
                        && Announced(n, shootCfg.networks, ClientNetmaps(shootCfg))
  {
    hide Pow2, Low, IsSorter, MappingsOf, MappingsFit, ClientOutcome, ServerChains;
    var ns := shootCfg.networks;
    DeployedChains(seed, shoot, shootCfg, seedCfg, sort);
    if ClientNetmaps(shootCfg) {
      var range := TransitInRange(seed, shoot, shootCfg, seedCfg, sort, dst);
    } else {
      var n :| n in ns.All() && n.IsIPv4() && Contains(n, Address(32, dst));
      assert n.Valid() && Announced(n, ns, false);
    }
  }

  /** Where both sides translate, packets travel under addresses of a reserved range. */
  lemma TransitInRange(seed: Chains, shoot: Chains, shootCfg: ClientConfig, seedCfg: ClientConfig, sort: Sorter, dst: nat)
    returns (range: Cidr)
    requires IsSorter(sort) && Deployed(seed, shoot, shootCfg, seedCfg, sort) && ClientNetmaps(shootCfg)
    requires InShoot(shootCfg.networks, dst)
    ensures range.Valid() && Contains(range, Address(32, Transit(seed, dst))) && Announced(range, shootCfg.networks, true)
    ensures range in {SHOOT_POD_MAPPED, SHOOT_SERVICE_MAPPED, SHOOT_NODE_MAPPED}
  {
    hide Pow2, Low, IsSorter, MappingsOf, MappingsFit, ClientOutcome, ServerChains;
    var ns := shootCfg.networks;
    var ms := MappingsOf(ns, sort);
    DeployedChains(seed, shoot, shootCfg, seedCfg, sort);
    MappingsAreGood(ms, ns);
    ShootAddressesAreSources(ms, ns, dst);
    var used := OutputTranslates(seed.output, ms.Pairs(), Packet("", true, 0, dst));
    NetmapKeepsOffset(dst, used.value.0, used.value.1);
    range := MappedRange(ms, ns, used.value);
    ContainsIsInterval(used.value.1, Address(32, Transit(seed, dst)));
    ContainsIsInterval(range, Address(32, Transit(seed, dst)));
  }

  /** The mapped network of a pair lies in the reserved range announced for its list. */
  lemma MappedRange(ms: Mappings, ns: Networks, p: (Cidr, Cidr)) returns (range: Cidr)
    requires IsMappingOf(ms, ns) && p in ms.Pairs()
    ensures range.Valid() && Within(p.1, range) && Announced(range, ns, true)
    ensures range in {SHOOT_POD_MAPPED, SHOOT_SERVICE_MAPPED, SHOOT_NODE_MAPPED}
  {
    ReservedRanges();
    if p in ms.services.Items {
      InItems(ms.services, ns.services, SHOOT_SERVICE_MAPPED, p);
      range := SHOOT_SERVICE_MAPPED;
    } else if p in ms.pods.Items {
      InItems(ms.pods, ns.pods, SHOOT_POD_MAPPED, p);
      range := SHOOT_POD_MAPPED;
    } else {
      InItems(ms.nodes, ns.nodes, SHOOT_NODE_MAPPED, p);
      range := SHOOT_NODE_MAPPED;
    }
  }

  lemma InItems(m: map<Cidr, Cidr>, list: seq<Cidr>, range: Cidr, p: (Cidr, Cidr))
    requires IsNetmap(m, IPv4Only(list), range) && p in m.Items
    ensures Within(p.1, range) && AnnouncedFor(range, list, range, true)
  {
    assert p.0 in IPv4Only(list);
  }
}
