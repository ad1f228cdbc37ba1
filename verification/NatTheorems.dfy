/** Double NAT is transparent: what the seed side translates, the shoot side translates back, whatever order
    the rules are in. */
module NatTheorems {
  import opened Bits
  import opened Cidrs
  import opened Netmap
  import opened NetmapAllocator
  import opened ShootNetworks
  import opened NatRules

  /** A chain either leaves a packet alone, no rule matching, or applies one of its matching rules. */
  lemma {:induction false} TraverseCases(chain: seq<Rule>, p: Packet) returns (hit: Option<Rule>)
    ensures hit.Some? ==> hit.value in chain && Matches(hit.value, p) && Traverse(chain, p) == Apply(hit.value, p)
    ensures hit.None? ==> Traverse(chain, p) == p && forall r <- chain :: !Matches(r, p)
  {
    if chain == [] {
      hit := None;
    } else if Matches(chain[0], p) {
      hit := Some(chain[0]);
    } else {
      hit := TraverseCases(chain[1..], p);
    }
  }

  /** NETMAP from a network onto one of equal size moves every address to the same offset. */
  lemma NetmapKeepsOffset(a: nat, src: Cidr, dst: Cidr)
    requires GoodPair(src, dst) && Contains(src, Address(32, a))
    ensures NetmapAddress(a, dst) == dst.base + (a - src.base)
    ensures Contains(dst, Address(32, NetmapAddress(a, dst)))
    ensures NetmapAddress(NetmapAddress(a, dst), src) == a
  {
    hide Pow2, Low;
    var h := src.HostBits();
    ContainsIsInterval(src, Address(32, a));
    LowOfSum(src.base, a - src.base, h);
    LowOfSmall(a - src.base, h);
    LowOfSum(dst.base, a - src.base, h);
    ContainsIsInterval(dst, Address(32, dst.base + (a - src.base)));
  }

  /** Two good pairs whose mapped networks share an address are the same pair. */
  lemma SharedTarget(ps: set<(Cidr, Cidr)>, p: (Cidr, Cidr), q: (Cidr, Cidr), x: nat)
    requires GoodPairs(ps) && p in ps && q in ps
    requires Contains(p.1, Address(32, x)) && Contains(q.1, Address(32, x))
    ensures p == q
  {
    ContainsIsInterval(p.1, Address(32, x));
    ContainsIsInterval(q.1, Address(32, x));
  }

  ghost predicate InSomeSource(ps: set<(Cidr, Cidr)>, a: nat) {
    exists p <- ps :: Contains(p.0, Address(32, a))
  }

  ghost predicate InSomeTarget(ps: set<(Cidr, Cidr)>, a: nat) {
    exists p <- ps :: Contains(p.1, Address(32, a))
  }

  /** The chains leave alone what is not theirs: other senders, other devices, addresses outside the networks. */
  lemma OthersUntouched(c: Chains, dev: string, ps: set<(Cidr, Cidr)>, p: Packet)
    requires AddsOutput(c.output, [], ps) && AddsPrerouting(c.prerouting, [], dev, ps) && AddsPostrouting(c.postrouting, [], dev, ps)
    ensures !p.fromEnvoy || !InSomeSource(ps, p.dst) ==> Traverse(c.output, p) == p
    ensures !DeviceMatches(dev, p.device) || !InSomeTarget(ps, p.dst) ==> Traverse(c.prerouting, p) == p
    ensures !DeviceMatches(dev, p.device) || !InSomeSource(ps, p.src) ==> Traverse(c.postrouting, p) == p
  {
    hide Contains, DeviceMatches;
    var out := TraverseCases(c.output, p);
    if out.Some? {
      assert (out.value.dst, out.value.to) in ps;
    }
    var pre := TraverseCases(c.prerouting, p);
    if pre.Some? {
      assert (pre.value.to, pre.value.dst) in ps;
    }
    var post := TraverseCases(c.postrouting, p);
    if post.Some? {
      assert (post.value.src, post.value.to) in ps;
    }
  }

  /** The seed OUTPUT chain: a destination in some source network moves to the same offset of a mapped
      network; any other destination is left alone. */
  lemma OutputTranslates(chain: seq<Rule>, ps: set<(Cidr, Cidr)>, p: Packet) returns (used: Option<(Cidr, Cidr)>)
    requires GoodPairs(ps) && AddsOutput(chain, [], ps) && p.fromEnvoy
    ensures used.Some? <==> InSomeSource(ps, p.dst)
    ensures used.None? ==> Traverse(chain, p) == p
    ensures used.Some? ==>
              && used.value in ps && Contains(used.value.0, Address(32, p.dst))
              && Traverse(chain, p) == p.(dst := NetmapAddress(p.dst, used.value.1))
  {
    var hit := TraverseCases(chain, p);
    if hit.Some? {
      used := Some((hit.value.dst, hit.value.to));
    } else {
      used := None;
      forall q <- ps ensures !Contains(q.0, Address(32, p.dst)) {
        assert OutputNetmap(q.0, q.1) in chain;
      }
    }
  }

  /** The shoot PREROUTING chain: a destination in a mapped network moves back to its source. */
  lemma PreroutingTranslates(chain: seq<Rule>, dev: string, ps: set<(Cidr, Cidr)>, p: Packet, q: (Cidr, Cidr))
    requires GoodPairs(ps) && AddsPrerouting(chain, [], dev, ps) && DeviceMatches(dev, p.device)
    requires q in ps && Contains(q.1, Address(32, p.dst))
    ensures Traverse(chain, p) == p.(dst := NetmapAddress(p.dst, q.0))
  {
    assert PreroutingNetmap(dev, q.1, q.0) in chain;
    var hit := TraverseCases(chain, p);
    SharedTarget(ps, (hit.value.to, hit.value.dst), q, p.dst);
  }

  /** End-to-end identity at rule level: OUTPUT on the seed, then PREROUTING on the shoot, gives back the
      original destination for every address of every source network, in any order of either chain, even
      where sources overlap. */
  lemma OutputThenPrerouting(outChain: seq<Rule>, preChain: seq<Rule>, dev: string, ps: set<(Cidr, Cidr)>,
                             p: Packet, device: string)
    requires GoodPairs(ps) && AddsOutput(outChain, [], ps) && AddsPrerouting(preChain, [], dev, ps)
    requires p.fromEnvoy && DeviceMatches(dev, device) && InSomeSource(ps, p.dst)
    ensures Traverse(outChain, p) == p.(dst := Traverse(outChain, p).dst)
    ensures InSomeTarget(ps, Traverse(outChain, p).dst)
    ensures Traverse(preChain, Traverse(outChain, p).(device := device)).dst == p.dst
  {
    var used := OutputTranslates(outChain, ps, p);
    var s, d := used.value.0, used.value.1;
    NetmapKeepsOffset(p.dst, s, d);
    PreroutingTranslates(preChain, dev, ps, Traverse(outChain, p).(device := device), used.value);
  }

  /** Shoot POSTROUTING then PREROUTING, on the address itself (source on the way out, destination on the way in). */
  ghost function Outbound(post: seq<Rule>, device: string, a: nat): nat {
    Traverse(post, Packet(device, false, a, 0)).src
  }

  ghost function Inbound(pre: seq<Rule>, device: string, a: nat): nat {
    Traverse(pre, Packet(device, false, 0, a)).dst
  }

  lemma PostroutingTranslates(post: seq<Rule>, dev: string, ps: set<(Cidr, Cidr)>, device: string, a: nat)
    returns (used: (Cidr, Cidr))
    requires GoodPairs(ps) && AddsPostrouting(post, [], dev, ps) && DeviceMatches(dev, device)
    requires InSomeSource(ps, a)
    ensures used in ps && Contains(used.0, Address(32, a))
    ensures Outbound(post, device, a) == NetmapAddress(a, used.1)
  {
    var q :| q in ps && Contains(q.0, Address(32, a));
    assert PostroutingNetmap(dev, q.0, q.1) in post;
    var hit := TraverseCases(post, Packet(device, false, a, 0));
    used := (hit.value.src, hit.value.to);
  }

  /** Every shoot address leaves as a mapped address at the same offset and comes back as itself. */
  lemma OutboundThenInbound(post: seq<Rule>, pre: seq<Rule>, dev: string, ps: set<(Cidr, Cidr)>, device: string, a: nat)
    requires GoodPairs(ps) && AddsPostrouting(post, [], dev, ps) && AddsPrerouting(pre, [], dev, ps)
    requires DeviceMatches(dev, device) && InSomeSource(ps, a)
    ensures InSomeTarget(ps, Outbound(post, device, a))
    ensures Inbound(pre, device, Outbound(post, device, a)) == a
  {
    var used := PostroutingTranslates(post, dev, ps, device, a);
    NetmapKeepsOffset(a, used.0, used.1);
    PreroutingTranslates(pre, dev, ps, Packet(device, false, 0, NetmapAddress(a, used.1)), used);
  }

  ghost predicate DisjointSources(ps: set<(Cidr, Cidr)>) {
    forall p, q :: p in ps && q in ps && p != q ==> Disjoint(p.0, q.0)
  }

  /** The other direction of the inverse. */
  ghost predicate InboundThenOutboundIsIdentity(post: seq<Rule>, pre: seq<Rule>, ps: set<(Cidr, Cidr)>, device: string) {
    forall b: nat :: InSomeTarget(ps, b) ==> Outbound(post, device, Inbound(pre, device, b)) == b
  }

  /** Inbound then outbound is the identity on mapped addresses exactly when the source networks are pairwise
      disjoint; with overlapping sources some mapped address comes back as a different one, in every rule order. */
  lemma InverseIffDisjointSources(post: seq<Rule>, pre: seq<Rule>, dev: string, ps: set<(Cidr, Cidr)>, device: string)
    requires GoodPairs(ps) && AddsPostrouting(post, [], dev, ps) && AddsPrerouting(pre, [], dev, ps)
    requires DeviceMatches(dev, device)
    ensures InboundThenOutboundIsIdentity(post, pre, ps, device) <==> DisjointSources(ps)
  {
    if DisjointSources(ps) {
      forall b: nat | InSomeTarget(ps, b)
        ensures Outbound(post, device, Inbound(pre, device, b)) == b
      {
        DisjointSourcesInvert(post, pre, dev, ps, device, b);
      }
    } else {
      var p, q :| p in ps && q in ps && p != q && !Disjoint(p.0, q.0);
      OverlapBreaksInverse(post, pre, dev, ps, device, p, q);
    }
  }

  lemma InboundOf(pre: seq<Rule>, dev: string, ps: set<(Cidr, Cidr)>, device: string, b: nat, q: (Cidr, Cidr))
    requires GoodPairs(ps) && AddsPrerouting(pre, [], dev, ps) && DeviceMatches(dev, device)
    requires q in ps && Contains(q.1, Address(32, b))
    ensures Inbound(pre, device, b) == NetmapAddress(b, q.0)
    ensures Contains(q.0, Address(32, Inbound(pre, device, b)))
    ensures NetmapAddress(Inbound(pre, device, b), q.1) == b
  {
    PreroutingTranslates(pre, dev, ps, Packet(device, false, 0, b), q);
    NetmapKeepsOffset(b, q.1, q.0);
  }

  lemma DisjointSourcesInvert(post: seq<Rule>, pre: seq<Rule>, dev: string, ps: set<(Cidr, Cidr)>, device: string, b: nat)
    requires GoodPairs(ps) && AddsPostrouting(post, [], dev, ps) && AddsPrerouting(pre, [], dev, ps)
    requires DeviceMatches(dev, device) && DisjointSources(ps) && InSomeTarget(ps, b)
    ensures Outbound(post, device, Inbound(pre, device, b)) == b
  {
    var q :| q in ps && Contains(q.1, Address(32, b));
    InboundOf(pre, dev, ps, device, b, q);
    var a := Inbound(pre, device, b);
    var used := PostroutingTranslates(post, dev, ps, device, a);
    ContainsIsInterval(q.0, Address(32, a));
    ContainsIsInterval(used.0, Address(32, a));
    assert used == q;
  }

  lemma OverlapBreaksInverse(post: seq<Rule>, pre: seq<Rule>, dev: string, ps: set<(Cidr, Cidr)>, device: string,
                             p: (Cidr, Cidr), q: (Cidr, Cidr))
    requires GoodPairs(ps) && AddsPostrouting(post, [], dev, ps) && AddsPrerouting(pre, [], dev, ps)
    requires DeviceMatches(dev, device) && p in ps && q in ps && p != q && !Disjoint(p.0, q.0)
    ensures !InboundThenOutboundIsIdentity(post, pre, ps, device)
  {
    OverlapIsNotDisjoint(p.0, q.0);
    OverlapIffSharedAddress(p.0, q.0);
    var x: Address :| x.Valid() && Contains(p.0, x) && Contains(q.0, x);
    var a := x.value;
    NetmapKeepsOffset(a, p.0, p.1);
    NetmapKeepsOffset(a, q.0, q.1);
    var b, c := NetmapAddress(a, p.1), NetmapAddress(a, q.1);
    InboundOf(pre, dev, ps, device, b, p);
    InboundOf(pre, dev, ps, device, c, q);
    if b == c {
      SharedTarget(ps, p, q, b);
    }
  }

  /** Whether an IPv4 address belongs to some shoot network. */
  ghost predicate InShoot(ns: Networks, a: nat) {
    exists n <- ns.All() :: n.IsIPv4() && Contains(n, Address(32, a))
  }

  lemma ShootAddressesAreSources(ms: Mappings, ns: Networks, a: nat)
    requires IsMappingOf(ms, ns)
    ensures InShoot(ns, a) <==> InSomeSource(ms.Pairs(), a)
  {
    if InShoot(ns, a) {
      var n :| n in ns.All() && n.IsIPv4() && Contains(n, Address(32, a));
      PairSources(ms, ns, n);
      var d :| (n, d) in ms.Pairs();
      assert Contains((n, d).0, Address(32, a));
    }
    if InSomeSource(ms.Pairs(), a) {
      var p :| p in ms.Pairs() && Contains(p.0, Address(32, a));
      assert (p.0, p.1) in ms.Pairs();
      PairSources(ms, ns, p.0);
    }
  }

  /** A deployment: the chains of the seed side (the server outside HA, a seed client in HA) and of the shoot client,
      each set from empty tables by its own SetIPTableRules. Both sides are configured with the same networks and sort
      in the same way. seedCfg matters in HA only. */
  ghost predicate Deployed(seed: Chains, shoot: Chains, shootCfg: ClientConfig, seedCfg: ClientConfig, sort: Sorter)
    requires IsSorter(sort)
  {
    && shootCfg.isShootClient && IPv4 in shootCfg.ipFamilies
    && ClientOutcome(None, shoot, EMPTY_CHAINS, shootCfg, sort)
    && if shootCfg.isHA
       then IsSeedPartner(seedCfg, shootCfg) && ClientOutcome(None, seed, EMPTY_CHAINS, seedCfg, sort)
       else ServerChains(seed, EMPTY_CHAINS, ServerConfig(false, shootCfg.networks), MappingsOf(shootCfg.networks, sort))
  }

  ghost predicate IsSeedPartner(seedCfg: ClientConfig, shootCfg: ClientConfig) {
    && !seedCfg.isShootClient && seedCfg.isHA && IPv4 in seedCfg.ipFamilies
    && seedCfg.networks == shootCfg.networks && seedCfg.seedPodNetwork == shootCfg.seedPodNetwork
  }

  /** The address a seed packet for the shoot travels under. */
  ghost function Transit(seed: Chains, dst: nat): nat {
    Traverse(seed.output, Packet("", true, 0, dst)).dst
  }

  /** Transparency of every deployment, HA or not, with or without overlap: a packet of the Envoy VPN group to
      any shoot address arrives at exactly that address. */
  lemma DeploymentIsTransparent(seed: Chains, shoot: Chains, shootCfg: ClientConfig, seedCfg: ClientConfig, sort: Sorter,
                                device: string, dst: nat)
    requires IsSorter(sort) && Deployed(seed, shoot, shootCfg, seedCfg, sort)
    requires DeviceMatches(shootCfg.ForwardDevice(), device) && InShoot(shootCfg.networks, dst)
    ensures Traverse(shoot.prerouting, Packet(device, true, 0, Transit(seed, dst))).dst == dst
  {
    hide IsSorter, Deployed, MappingsOf, MappingsFit, IsMappingOf;
    DeployedChains(seed, shoot, shootCfg, seedCfg, sort);
    var ms := MappingsOf(shootCfg.networks, sort);
    if ClientNetmaps(shootCfg) {
      MappingsAreGood(ms, shootCfg.networks);
      ShootAddressesAreSources(ms, shootCfg.networks, dst);
      OutputThenPrerouting(seed.output, shoot.prerouting, shootCfg.ForwardDevice(), ms.Pairs(),
                           Packet("", true, 0, dst), device);
    }
  }

  /** Both sides translate, by the same sound mappings, or neither does. */
  lemma DeployedChains(seed: Chains, shoot: Chains, shootCfg: ClientConfig, seedCfg: ClientConfig, sort: Sorter)
    requires IsSorter(sort) && Deployed(seed, shoot, shootCfg, seedCfg, sort)
    ensures var ms := MappingsOf(shootCfg.networks, sort);
            if ClientNetmaps(shootCfg)
            then IsMappingOf(ms, shootCfg.networks) && AddsOutput(seed.output, [], ms.Pairs())
                 && AddsPrerouting(shoot.prerouting, [], shootCfg.ForwardDevice(), ms.Pairs())
            else seed.output == [] && shoot.prerouting == []
  {
    hide AddsOutput, AddsPrerouting, AddsPostrouting, IsMappingOf, MappingsFit, MappingsOf, OverlapsAny, IsSorter;
    if shootCfg.isHA {
      assert ClientNetmaps(seedCfg) == ClientNetmaps(shootCfg);
    }
    if ClientNetmaps(shootCfg) {
      MappingsAreSound(shootCfg.networks, sort);
    }
  }

  /** Chains with exactly the rules of the pairs. */
  lemma {:induction false} ChainsFor(ps: set<(Cidr, Cidr)>, dev: string) returns (c: Chains)
    ensures AddsPrerouting(c.prerouting, [], dev, ps) && AddsPostrouting(c.postrouting, [], dev, ps)
    ensures AddsOutput(c.output, [], ps)
    decreases ps
  {
    if ps == {} {
      c := EMPTY_CHAINS;
    } else {
      var p :| p in ps;
      c := ChainsFor(ps - {p}, dev);
      c := Chains(c.prerouting + [PreroutingNetmap(dev, p.1, p.0)], c.postrouting + [PostroutingNetmap(dev, p.0, p.1)],
                  c.output + [OutputNetmap(p.0, p.1)]);
    }
  }

  /** Deployments exist for every configuration whose networks fit where they are translated. */
  lemma DeploymentExists(shootCfg: ClientConfig, seedCfg: ClientConfig, sort: Sorter)
    requires IsSorter(sort) && shootCfg.isShootClient && IPv4 in shootCfg.ipFamilies && shootCfg.networks.Valid()
    requires ClientNetmaps(shootCfg) ==> MappingsFit(shootCfg.networks)
    requires shootCfg.isHA ==> IsSeedPartner(seedCfg, shootCfg)
    ensures exists seed, shoot :: Deployed(seed, shoot, shootCfg, seedCfg, sort)
  {
    hide AddsPrerouting, AddsPostrouting, AddsOutput, MappingsFit, MappingsOf, OverlapsAny, IsSorter;
    var ms := MappingsOf(shootCfg.networks, sort);
    if ClientNetmaps(shootCfg) {
      var here := ChainsFor(ms.Pairs(), shootCfg.ForwardDevice());
      var there := ChainsFor(SeedPodPair(seedCfg), seedCfg.ForwardDevice());
      var none := ChainsFor({}, "");
      var shoot := here.(output := none.output);
      var seed := if shootCfg.isHA then there.(output := here.output) else Chains([], [], here.output);
      assert Deployed(seed, shoot, shootCfg, seedCfg, sort);
    } else {
      assert Deployed(EMPTY_CHAINS, EMPTY_CHAINS, shootCfg, seedCfg, sort);
    }
  }

  /** The pod IP the path controller announces to the shoot. */
  function AnnouncedPodIP(ip: nat, overlap: bool): nat {
    if overlap then NetmapAddress(ip, SEED_POD_MAPPED) else ip
  }

  /** Whether every pod of the seed network gets back the packets sent to the address announced for it. */
  ghost predicate PodIPsRoundTrip(seed: Chains, net: Cidr, overlap: bool, device: string) {
    forall ip: nat :: Contains(net, Address(32, ip)) ==>
                        Inbound(seed.prerouting, device, AnnouncedPodIP(ip, overlap)) == ip
  }

  /** The chains of a seed client that translates. */
  ghost predicate SeedTranslates(seed: Chains, cfg: ClientConfig, ms: Mappings) {
    && !cfg.isShootClient && ClientNetmaps(cfg) && ClientChains(seed, EMPTY_CHAINS, cfg, ms)
    && cfg.seedPodNetwork.value.Valid() && cfg.seedPodNetwork.value.IsIPv4()
  }

  /** With overlap, the seed pod mapping round-trips exactly when the seed pod network is a /8 or smaller: a
      larger one does not fit into the reserved /8, and two of its addresses share an announced address. */
  lemma SeedPodRoundTripIff(seed: Chains, cfg: ClientConfig, ms: Mappings, device: string)
    requires SeedTranslates(seed, cfg, ms) && DeviceMatches(cfg.ForwardDevice(), device)
    ensures PodIPsRoundTrip(seed, cfg.seedPodNetwork.value, true, device) <==> cfg.seedPodNetwork.value.prefix >= 8
  {
    hide Pow2, Low;
    var net := cfg.seedPodNetwork.value;
    if net.prefix >= 8 {
      forall ip: nat | Contains(net, Address(32, ip))
        ensures Inbound(seed.prerouting, device, AnnouncedPodIP(ip, true)) == ip
      {
        SeedPodInbound(seed, cfg, ms, device, ip);
        UnmapPodIP(net, ip);
        LowOfLow(ip, net.HostBits(), 24);
      }
    } else {
      var x, y := net.base, net.base + Pow2(24);
      Pow2Monotonic(24, net.HostBits());
      ContainsIsInterval(net, Address(32, x));
      ContainsIsInterval(net, Address(32, y));
      LowCoarser(net.base, 24, net.HostBits());
      LowOfPow2(24, 24);
      LowOfSum(x, Pow2(24), 24);
      assert AnnouncedPodIP(x, true) == AnnouncedPodIP(y, true);
    }
  }

  /** The packets of a seed pod leave under exactly the address announced for it. */
  lemma SeedPodOutbound(seed: Chains, cfg: ClientConfig, ms: Mappings, device: string, ip: nat)
    requires SeedTranslates(seed, cfg, ms) && DeviceMatches(cfg.ForwardDevice(), device)
    requires Contains(cfg.seedPodNetwork.value, Address(32, ip))
    ensures Outbound(seed.postrouting, device, ip) == AnnouncedPodIP(ip, true)
  {
    hide Pow2, Low, Contains, OverlapsAny;
    assert PostroutingNetmap(cfg.ForwardDevice(), cfg.seedPodNetwork.value, SEED_POD_MAPPED) in seed.postrouting;
    var hit := TraverseCases(seed.postrouting, Packet(device, false, ip, 0));
  }

  /** Packets to the announced address are translated by the one rule there is for it. */
  lemma SeedPodInbound(seed: Chains, cfg: ClientConfig, ms: Mappings, device: string, ip: nat)
    requires SeedTranslates(seed, cfg, ms) && DeviceMatches(cfg.ForwardDevice(), device)
    ensures Inbound(seed.prerouting, device, AnnouncedPodIP(ip, true))
         == NetmapAddress(AnnouncedPodIP(ip, true), cfg.seedPodNetwork.value)
  {
    hide Pow2, Low, Contains, OverlapsAny, AnnouncedPodIP, NetmapAddress;
    var net, b := cfg.seedPodNetwork.value, AnnouncedPodIP(ip, true);
    AnnouncedIsMapped(ip);
    assert PreroutingNetmap(cfg.ForwardDevice(), SEED_POD_MAPPED, net) in seed.prerouting;
    var hit := TraverseCases(seed.prerouting, Packet(device, false, 0, b));
  }

  lemma AnnouncedIsMapped(ip: nat)
    ensures Contains(SEED_POD_MAPPED, Address(32, AnnouncedPodIP(ip, true)))
  {
    hide Pow2, Low, Contains;
    ReservedRanges();
    LowBound(ip, 24);
    Pow2Values();
    ContainsIsInterval(SEED_POD_MAPPED, Address(32, AnnouncedPodIP(ip, true)));
  }

  /** Translating an announced address into the seed pod network keeps the host part of both. */
  lemma UnmapPodIP(net: Cidr, ip: nat)
    requires net.Valid() && net.IsIPv4() && net.prefix >= 8
    ensures NetmapAddress(AnnouncedPodIP(ip, true), net) == net.base + Low(Low(ip, 24), net.HostBits())
  {
    hide Pow2, Low;
    ReservedRanges();
    LowCoarser(SEED_POD_MAPPED.base, net.HostBits(), 24);
    LowOfSum(SEED_POD_MAPPED.base, Low(ip, 24), net.HostBits());
  }

  /** Without translation the pod IP is announced as it is, and packets to it are left as they are. */
  lemma PlainPodIPsRoundTrip(seed: Chains, cfg: ClientConfig, ms: Mappings, net: Cidr, device: string)
    requires !ClientNetmaps(cfg) && ClientChains(seed, EMPTY_CHAINS, cfg, ms)
    ensures PodIPsRoundTrip(seed, net, false, device)
  {
  }
}
