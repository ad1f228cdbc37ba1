/** ShootNetworksForNetmap: the mappings of the shoot pod, service and node networks into their reserved
    ranges, and the facts about them that the NAT rules need. */
module ShootNetworks {
  import opened Bits
  import opened Cidrs
  import opened NetmapAllocator
  import opened NetmapTheorems

  // The reserved ranges 241/8 to 244/8.
  const SEED_POD_MAPPED := Cidr(32, 0xF100_0000, 8)
  const SHOOT_NODE_MAPPED := Cidr(32, 0xF200_0000, 8)
  const SHOOT_SERVICE_MAPPED := Cidr(32, 0xF300_0000, 8)
  const SHOOT_POD_MAPPED := Cidr(32, 0xF400_0000, 8)

  const NETMAP_ERRORS := {InvalidNewPrefix, OnlyIPv4, NotEnoughSpace}

  lemma ReservedRanges()
    ensures SEED_POD_MAPPED.Valid() && SHOOT_NODE_MAPPED.Valid()
    ensures SHOOT_SERVICE_MAPPED.Valid() && SHOOT_POD_MAPPED.Valid()
    ensures SEED_POD_MAPPED.Size() == 0x100_0000
    ensures Disjoint(SHOOT_NODE_MAPPED, SHOOT_SERVICE_MAPPED) && Disjoint(SHOOT_NODE_MAPPED, SHOOT_POD_MAPPED)
    ensures Disjoint(SHOOT_SERVICE_MAPPED, SHOOT_POD_MAPPED)
  {
    Pow2Values();
    LowIsRemainder(0xF100_0000, 24);
    LowIsRemainder(0xF200_0000, 24);
    LowIsRemainder(0xF300_0000, 24);
    LowIsRemainder(0xF400_0000, 24);
  }

  /** The shoot networks as configured on either side. */
  datatype Networks = Networks(pods: seq<Cidr>, services: seq<Cidr>, nodes: seq<Cidr>) {
    ghost predicate Valid() {
      AllValid(pods) && AllValid(services) && AllValid(nodes)
    }

    function All(): seq<Cidr> {
      pods + services + nodes
    }
  }

  datatype Mappings = Mappings(pods: map<Cidr, Cidr>, services: map<Cidr, Cidr>, nodes: map<Cidr, Cidr>) {
    /** All (source, mapped network) pairs. */
    function Pairs(): set<(Cidr, Cidr)> {
      pods.Items + services.Items + nodes.Items
    }
  }

  ghost predicate MappingsFit(ns: Networks) {
    && NetmapFits(IPv4Only(ns.pods), SHOOT_POD_MAPPED)
    && NetmapFits(IPv4Only(ns.services), SHOOT_SERVICE_MAPPED)
    && NetmapFits(IPv4Only(ns.nodes), SHOOT_NODE_MAPPED)
  }

  /** What makes ms a sound mapping of ns. */
  ghost predicate IsMappingOf(ms: Mappings, ns: Networks) {
    && IsNetmap(ms.pods, IPv4Only(ns.pods), SHOOT_POD_MAPPED)
    && IsNetmap(ms.services, IPv4Only(ns.services), SHOOT_SERVICE_MAPPED)
    && IsNetmap(ms.nodes, IPv4Only(ns.nodes), SHOOT_NODE_MAPPED)
  }

  /** The mappings: each list laid out in its range, if all fit. They depend on the lists and the sort only. */
  ghost function MappingsOf(ns: Networks, sort: Sorter): Mappings
    requires IsSorter(sort)
  {
    if MappingsFit(ns) then
      Mappings(LayoutOf(ns.pods, SHOOT_POD_MAPPED, sort), LayoutOf(ns.services, SHOOT_SERVICE_MAPPED, sort),
               LayoutOf(ns.nodes, SHOOT_NODE_MAPPED, sort))
    else Mappings(map[], map[], map[])
  }

  ghost function LayoutOf(networks: seq<Cidr>, range: Cidr, sort: Sorter): map<Cidr, Cidr>
    requires IsSorter(sort) && NetmapFits(IPv4Only(networks), range)
  {
    SortingFacts(sort(IPv4Only(networks)), IPv4Only(networks)); Layout(sort(IPv4Only(networks)), range.base)
  }

  method ShootNetworksForNetmap(ns: Networks, sort: Sorter) returns (r: Result<Mappings>)
    requires ns.Valid() && IsSorter(sort)
    ensures r.Ok? <==> NetmapFits(IPv4Only(ns.pods), SHOOT_POD_MAPPED)
                       && NetmapFits(IPv4Only(ns.services), SHOOT_SERVICE_MAPPED)
                       && NetmapFits(IPv4Only(ns.nodes), SHOOT_NODE_MAPPED)
    ensures r.Ok? <==> MappingsFit(ns)
    ensures r.Err? ==> r.error in NETMAP_ERRORS
    ensures r.Ok? ==> r.value == MappingsOf(ns, sort) && IsMappingOf(r.value, ns)
  {
    ReservedRanges();
    var pods := MapInto(ns.pods, SHOOT_POD_MAPPED, sort);
    if pods.Err? {
      return Err(pods.error);
    }
    var services := MapInto(ns.services, SHOOT_SERVICE_MAPPED, sort);
    if services.Err? {
      return Err(services.error);
    }
    var nodes := MapInto(ns.nodes, SHOOT_NODE_MAPPED, sort);
    if nodes.Err? {
      return Err(nodes.error);
    }
    return Ok(Mappings(pods.value, services.value, nodes.value));
  }

  /** One of the three steps: the IPv4 networks of a list into one reserved range. */
  method MapInto(networks: seq<Cidr>, range: Cidr, sort: Sorter) returns (r: Result<map<Cidr, Cidr>>)
    requires AllValid(networks) && range.Valid() && IsSorter(sort)
    ensures r.Ok? <==> NetmapFits(IPv4Only(networks), range)
    ensures r.Err? ==> r.error in NETMAP_ERRORS
    ensures r.Ok? ==> r.value == LayoutOf(networks, range, sort) && IsNetmap(r.value, IPv4Only(networks), range)
  {
    var ipv4 := GetByIPFamily(networks, true);
    r := NetmapSubnets(ipv4, range, sort);
    if r.Ok? {
      NetmapIsSound(sort(ipv4), ipv4, range);
    }
  }

  /** The computed mappings are sound. */
  lemma MappingsAreSound(ns: Networks, sort: Sorter)
    requires IsSorter(sort) && MappingsFit(ns)
    ensures IsMappingOf(MappingsOf(ns, sort), ns)
  {
    ReservedRanges();
    LayoutIsSound(ns.pods, SHOOT_POD_MAPPED, sort);
    LayoutIsSound(ns.services, SHOOT_SERVICE_MAPPED, sort);
    LayoutIsSound(ns.nodes, SHOOT_NODE_MAPPED, sort);
  }

  lemma LayoutIsSound(networks: seq<Cidr>, range: Cidr, sort: Sorter)
    requires IsSorter(sort) && range.Valid() && NetmapFits(IPv4Only(networks), range)
    ensures IsNetmap(LayoutOf(networks, range, sort), IPv4Only(networks), range)
  {
    var ipv4 := IPv4Only(networks);
    SortingFacts(sort(ipv4), ipv4);
    NetmapIsSound(sort(ipv4), ipv4, range);
  }

  /** Every pair maps a network to one of equal size, and the mapped networks of different pairs are disjoint. */
  ghost predicate GoodPairs(ps: set<(Cidr, Cidr)>) {
    && (forall p <- ps :: GoodPair(p.0, p.1))
    && (forall p, q :: p in ps && q in ps && p != q ==> Disjoint(p.1, q.1))
  }

  ghost predicate GoodPair(src: Cidr, dst: Cidr) {
    src.Valid() && src.IsIPv4() && dst.Valid() && dst.IsIPv4() && src.prefix == dst.prefix
  }

  /** The three reserved ranges are disjoint, so the pairs of all three mappings are good together. Sources may
      repeat or overlap across the lists. */
  lemma MappingsAreGood(ms: Mappings, ns: Networks)
    requires IsMappingOf(ms, ns)
    ensures GoodPairs(ms.Pairs())
  {
    ItemsAreGood(ms.pods, IPv4Only(ns.pods), SHOOT_POD_MAPPED);
    ItemsAreGood(ms.services, IPv4Only(ns.services), SHOOT_SERVICE_MAPPED);
    ItemsAreGood(ms.nodes, IPv4Only(ns.nodes), SHOOT_NODE_MAPPED);
    hide GoodPairs, IsNetmap, Disjoint, Apart, Within;
    ReservedRanges();
    RangesApart(ms.pods.Items, SHOOT_POD_MAPPED, ms.services.Items, SHOOT_SERVICE_MAPPED);
    RangesApart(ms.pods.Items, SHOOT_POD_MAPPED, ms.nodes.Items, SHOOT_NODE_MAPPED);
    RangesApart(ms.services.Items, SHOOT_SERVICE_MAPPED, ms.nodes.Items, SHOOT_NODE_MAPPED);
    UnionIsGood(ms.pods.Items, ms.services.Items);
    ApartFromBoth(ms.pods.Items, ms.services.Items, ms.nodes.Items);
    UnionIsGood(ms.pods.Items + ms.services.Items, ms.nodes.Items);
  }

  /** No mapped network of ps shares an address with one of qs. */
  ghost predicate Apart(ps: set<(Cidr, Cidr)>, qs: set<(Cidr, Cidr)>) {
    forall p <- ps, q <- qs :: Disjoint(p.1, q.1) && Disjoint(q.1, p.1)
  }

  lemma RangesApart(ps: set<(Cidr, Cidr)>, a: Cidr, qs: set<(Cidr, Cidr)>, b: Cidr)
    requires Disjoint(a, b) || Disjoint(b, a)
    requires (forall p <- ps :: Within(p.1, a)) && (forall q <- qs :: Within(q.1, b))
    ensures Apart(ps, qs)
  {
  }

  lemma ApartFromBoth(ps: set<(Cidr, Cidr)>, qs: set<(Cidr, Cidr)>, rs: set<(Cidr, Cidr)>)
    requires Apart(ps, rs) && Apart(qs, rs)
    ensures Apart(ps + qs, rs)
  {
    hide Disjoint;
  }

  lemma UnionIsGood(ps: set<(Cidr, Cidr)>, qs: set<(Cidr, Cidr)>)
    requires GoodPairs(ps) && GoodPairs(qs) && Apart(ps, qs)
    ensures GoodPairs(ps + qs)
  {
    hide GoodPair, Disjoint;
  }

  lemma ItemsAreGood(m: map<Cidr, Cidr>, srcs: seq<Cidr>, range: Cidr)
    requires IsNetmap(m, srcs, range)
    ensures GoodPairs(m.Items)
    ensures forall p <- m.Items :: Within(p.1, range)
  {
    hide Within, Disjoint, Cidr.Valid;
  }

  /** Every IPv4 shoot network is the source of some pair, and nothing else is. */
  lemma PairSources(ms: Mappings, ns: Networks, n: Cidr)
    requires IsMappingOf(ms, ns)
    ensures (exists d :: (n, d) in ms.Pairs()) <==> n in ns.All() && n.IsIPv4()
  {
    KeyIsSource(ms.pods, ns.pods, SHOOT_POD_MAPPED, n);
    KeyIsSource(ms.services, ns.services, SHOOT_SERVICE_MAPPED, n);
    KeyIsSource(ms.nodes, ns.nodes, SHOOT_NODE_MAPPED, n);
    hide IsNetmap, GoodPairs, IsMappingOf;
    if n in ns.All() && n.IsIPv4() {
      var m := if n in ns.pods then ms.pods else if n in ns.services then ms.services else ms.nodes;
      assert (n, m[n]) in m.Items;
      assert (n, m[n]) in ms.Pairs();
    }
  }

  lemma KeyIsSource(m: map<Cidr, Cidr>, networks: seq<Cidr>, range: Cidr, n: Cidr)
    requires IsNetmap(m, IPv4Only(networks), range)
    ensures n in m <==> n in networks && n.IsIPv4()
    ensures n in m ==> (n, m[n]) in m.Items
    ensures forall d :: (n, d) in m.Items ==> n in m
  {
  }
}
