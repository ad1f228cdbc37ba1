/** The NETMAP rules that the VPN client (pkg/vpn_client/iptables.go) and the VPN server
    (pkg/vpn_server/iptables.go) put into the nat table, and how a packet passes such a chain. */
module NatRules {
  import opened Cidrs
  import opened Netmap
  import opened NetmapAllocator
  import opened ShootNetworks

  datatype Rule =
    | PreroutingNetmap(inDevice: string, dst: Cidr, to: Cidr)
    | PostroutingNetmap(outDevice: string, src: Cidr, to: Cidr)
    | OutputNetmap(dst: Cidr, to: Cidr) // for packets of the Envoy VPN group

  /** An IPv4 packet at one hook: the device it comes in on or leaves by, whether the Envoy VPN group sent it. */
  datatype Packet = Packet(device: string, fromEnvoy: bool, src: nat, dst: nat)

  /** A trailing + in an interface pattern stands for any rest. */
  predicate DeviceMatches(pattern: string, device: string) {
    if pattern != "" && pattern[|pattern| - 1] == '+' then pattern[..|pattern| - 1] <= device
    else pattern == device
  }

  predicate Matches(r: Rule, p: Packet) {
    match r
    case PreroutingNetmap(dev, dst, _) => DeviceMatches(dev, p.device) && Contains(dst, Address(32, p.dst))
    case PostroutingNetmap(dev, src, _) => DeviceMatches(dev, p.device) && Contains(src, Address(32, p.src))
    case OutputNetmap(dst, _) => p.fromEnvoy && Contains(dst, Address(32, p.dst))
  }

  /** NETMAP replaces the network part and keeps the host part. */
  function Apply(r: Rule, p: Packet): Packet {
    match r
    case PreroutingNetmap(_, _, to) => p.(dst := NetmapAddress(p.dst, to))
    case PostroutingNetmap(_, _, to) => p.(src := NetmapAddress(p.src, to))
    case OutputNetmap(_, to) => p.(dst := NetmapAddress(p.dst, to))
  }

  /** The first matching rule decides; a packet no rule matches passes unchanged. */
  function Traverse(chain: seq<Rule>, p: Packet): Packet {
    if chain == [] then p
    else if Matches(chain[0], p) then Apply(chain[0], p)
    else Traverse(chain[1..], p)
  }

  datatype Chains = Chains(prerouting: seq<Rule>, postrouting: seq<Rule>, output: seq<Rule>)

  const EMPTY_CHAINS := Chains([], [], [])

  /** The nat table of one network namespace. Calls to iptables are counted; the one with the number failing, if any,
      fails. */
  class NatTable {
    var prerouting: seq<Rule>
    var postrouting: seq<Rule>
    var output: seq<Rule>
    var calls: nat
    const failing: Option<nat>

    constructor (failing: Option<nat>)
      ensures Current() == EMPTY_CHAINS && calls == 0 && this.failing == failing
    {
      prerouting, postrouting, output, calls := [], [], [], 0;
      this.failing := failing;
    }

    /** Whether a call has failed since there were k of them. */
    ghost predicate FailedSince(k: nat)
      reads this
    {
      failing.Some? && k <= failing.value < calls
    }

    /** Calls that concern other tables. */
    method OtherCalls(n: nat) returns (ok: bool)
      modifies this`calls
      ensures calls >= old(calls) && ok == !FailedSince(old(calls))
      ensures ok ==> calls == old(calls) + n
    {
      for i := 0 to n
        invariant calls == old(calls) + i && !FailedSince(old(calls))
      {
        calls := calls + 1;
        if failing == Some(calls - 1) {
          return false;
        }
      }
      return true;
    }

    function Current(): Chains
      reads this
    {
      Chains(prerouting, postrouting, output)
    }

    /** Appends the rule to its chain unless it is there already. */
    method AppendUnique(r: Rule) returns (ok: bool)
      modifies this
      ensures calls == old(calls) + 1 && ok == !FailedSince(old(calls))
      ensures Current() == if ok then Added(old(Current()), r) else old(Current())
    {
      calls := calls + 1;
      if failing == Some(calls - 1) {
        return false;
      }
      match r {
        case PreroutingNetmap(_, _, _) =>
          if r !in prerouting { prerouting := prerouting + [r]; }
        case PostroutingNetmap(_, _, _) =>
          if r !in postrouting { postrouting := postrouting + [r]; }
        case OutputNetmap(_, _) =>
          if r !in output { output := output + [r]; }
      }
      return true;
    }
  }

  function Added(c: Chains, r: Rule): Chains {
    match r
    case PreroutingNetmap(_, _, _) => c.(prerouting := Appended(c.prerouting, r))
    case PostroutingNetmap(_, _, _) => c.(postrouting := Appended(c.postrouting, r))
    case OutputNetmap(_, _) => c.(output := Appended(c.output, r))
  }

  function Appended(chain: seq<Rule>, r: Rule): seq<Rule> {
    if r in chain then chain else chain + [r]
  }

  /** chain is before with new rules appended, and holds exactly the rules of before and the PREROUTING rules
      that translate the mapped network of each pair back to its source. */
  ghost predicate AddsPrerouting(chain: seq<Rule>, before: seq<Rule>, dev: string, ps: set<(Cidr, Cidr)>) {
    && before <= chain
    && forall r :: r in chain <==>
                   r in before || (r.PreroutingNetmap? && r.inDevice == dev && (r.to, r.dst) in ps)
  }

  ghost predicate AddsPostrouting(chain: seq<Rule>, before: seq<Rule>, dev: string, ps: set<(Cidr, Cidr)>) {
    && before <= chain
    && forall r :: r in chain <==>
                   r in before || (r.PostroutingNetmap? && r.outDevice == dev && (r.src, r.to) in ps)
  }

  ghost predicate AddsOutput(chain: seq<Rule>, before: seq<Rule>, ps: set<(Cidr, Cidr)>) {
    && before <= chain
    && forall r :: r in chain <==> r in before || (r.OutputNetmap? && (r.dst, r.to) in ps)
  }

  /** The chains between two settings: nothing is lost, and nothing is there that the later one lacks. */
  ghost predicate Between(now: Chains, before: Chains, rules: set<Rule>) {
    && before.prerouting <= now.prerouting && before.postrouting <= now.postrouting && before.output <= now.output
    && (forall r <- now.prerouting :: r in before.prerouting || r in rules)
    && (forall r <- now.postrouting :: r in before.postrouting || r in rules)
    && (forall r <- now.output :: r in before.output || r in rules)
  }

  /** The rules of the two sides for a set of pairs. */
  ghost function ShootRules(dev: string, ps: set<(Cidr, Cidr)>): set<Rule> {
    (set p | p in ps :: PreroutingNetmap(dev, p.1, p.0)) + (set p | p in ps :: PostroutingNetmap(dev, p.0, p.1))
  }

  ghost function SeedRules(ps: set<(Cidr, Cidr)>): set<Rule> {
    set p | p in ps :: OutputNetmap(p.0, p.1)
  }

  lemma HasShootRules(dev: string, ps: set<(Cidr, Cidr)>, p: (Cidr, Cidr))
    requires p in ps
    ensures PreroutingNetmap(dev, p.1, p.0) in ShootRules(dev, ps) && PostroutingNetmap(dev, p.0, p.1) in ShootRules(dev, ps)
  {
  }

  /** The loop over one mapping on the shoot side; a Go map is visited in any order, and any call may fail. */
  method AppendShootRules(m: map<Cidr, Cidr>, dev: string, t: NatTable) returns (ok: bool)
    modifies t
    ensures t.calls >= old(t.calls) && ok == !t.FailedSince(old(t.calls))
    ensures ok ==> AddsPrerouting(t.prerouting, old(t.prerouting), dev, m.Items)
    ensures ok ==> AddsPostrouting(t.postrouting, old(t.postrouting), dev, m.Items)
    ensures t.output == old(t.output)
    ensures Between(t.Current(), old(t.Current()), ShootRules(dev, m.Items))
  {
    hide ShootRules;
    var todo := m.Items;
    while todo != {}
      invariant todo <= m.Items
      invariant AddsPrerouting(t.prerouting, old(t.prerouting), dev, m.Items - todo)
      invariant AddsPostrouting(t.postrouting, old(t.postrouting), dev, m.Items - todo)
      invariant t.output == old(t.output)
      invariant Between(t.Current(), old(t.Current()), ShootRules(dev, m.Items))
      invariant t.calls >= old(t.calls) && !t.FailedSince(old(t.calls))
    {
      var p :| p in todo;
      HasShootRules(dev, m.Items, p);
      ok := t.AppendUnique(PreroutingNetmap(dev, p.1, p.0));
      if !ok {
        return;
      }
      ok := t.AppendUnique(PostroutingNetmap(dev, p.0, p.1));
      if !ok {
        return;
      }
      todo := todo - {p};
    }
    ok := true;
  }

  /** The loop over one mapping on the seed side. */
  method AppendSeedRules(m: map<Cidr, Cidr>, t: NatTable) returns (ok: bool)
    modifies t
    ensures t.calls >= old(t.calls) && ok == !t.FailedSince(old(t.calls))
    ensures ok ==> AddsOutput(t.output, old(t.output), m.Items)
    ensures t.prerouting == old(t.prerouting) && t.postrouting == old(t.postrouting)
    ensures Between(t.Current(), old(t.Current()), SeedRules(m.Items))
  {
    var todo := m.Items;
    while todo != {}
      invariant todo <= m.Items
      invariant AddsOutput(t.output, old(t.output), m.Items - todo)
      invariant t.prerouting == old(t.prerouting) && t.postrouting == old(t.postrouting)
      invariant Between(t.Current(), old(t.Current()), SeedRules(m.Items))
      invariant t.calls >= old(t.calls) && !t.FailedSince(old(t.calls))
    {
      var p :| p in todo;
      ok := t.AppendUnique(OutputNetmap(p.0, p.1));
      if !ok {
        return;
      }
      todo := todo - {p};
    }
    ok := true;
  }

  datatype Family = IPv4 | IPv6

  datatype ClientConfig = ClientConfig(
    ipFamilies: seq<Family>, isShootClient: bool, isHA: bool, vpnServerIndex: string,
    seedPodNetwork: Option<Cidr>, networks: Networks)
  {
    ghost predicate Valid() {
      networks.Valid() && (seedPodNetwork.Some? ==> seedPodNetwork.value.Valid())
    }

    /** The device traffic is forwarded through; the names of the bond tunnel devices are not known, hence the +. */
    function ForwardDevice(): string {
      if vpnServerIndex != "" then "bond0+" else "tun0"
    }
  }

  /** Which devices that is: tun0 alone, or every device whose name begins with bond0. */
  lemma ForwardDevices(cfg: ClientConfig, device: string)
    ensures DeviceMatches(cfg.ForwardDevice(), device) <==>
            if cfg.vpnServerIndex == "" then device == "tun0" else "bond0" <= device
  {
    assert "bond0+"[..5] == "bond0";
  }

  datatype ServerConfig = ServerConfig(isHA: bool, networks: Networks)

  /** The overlap test of seed and shoot networks; an unset seed network overlaps nothing. */
  predicate SeedOverlaps(seed: Option<Cidr>, ns: Networks) {
    seed.Some? && OverlapsAny(seed.value, ns.All())
  }

  /** The test says whether some address of the seed pod network is an address of a shoot network. */
  lemma SeedOverlapsIff(seed: Option<Cidr>, ns: Networks)
    requires ns.Valid() && (seed.Some? ==> seed.value.Valid())
    ensures SeedOverlaps(seed, ns) <==>
            seed.Some? && exists x: Address, n :: n in ns.All() && x.Valid() && Contains(seed.value, x) && Contains(n, x)
  {
    if seed.Some? {
      forall n | n in ns.All()
        ensures Overlap(seed.value, n) <==> exists x: Address :: x.Valid() && Contains(seed.value, x) && Contains(n, x)
      {
        OverlapIffSharedAddress(seed.value, n);
      }
    }
  }

  method ComputeOverlap(seed: Option<Cidr>, ns: Networks) returns (overlap: bool)
    requires ns.Valid() && (seed.Some? ==> seed.value.Valid())
    ensures overlap == SeedOverlaps(seed, ns)
    ensures overlap <==>
            seed.Some? && exists x: Address, n :: n in ns.All() && x.Valid() && Contains(seed.value, x) && Contains(n, x)
  {
    SeedOverlapsIff(seed, ns);
    overlap := false;
    if seed.Some? {
      overlap := OverLapAny(seed.value, ns.All());
    }
  }

  /** When the client sets up double NAT: outside HA on the shoot side, else whenever the networks overlap. */
  predicate ClientNetmaps(cfg: ClientConfig) {
    IPv4 in cfg.ipFamilies && ((cfg.isShootClient && !cfg.isHA) || SeedOverlaps(cfg.seedPodNetwork, cfg.networks))
  }

  /** The rule a seed client adds for the seed pod network itself. */
  ghost function SeedPodPair(cfg: ClientConfig): set<(Cidr, Cidr)> {
    if !cfg.isShootClient && cfg.seedPodNetwork.Some? && cfg.seedPodNetwork.value.IsIPv4()
    then {(cfg.seedPodNetwork.value, SEED_POD_MAPPED)} else {}
  }

  /** The chains after the client has set its rules, given its mappings. */
  ghost predicate ClientChains(now: Chains, before: Chains, cfg: ClientConfig, ms: Mappings) {
    if !ClientNetmaps(cfg) then now == before
    else
      var both := if cfg.isShootClient then ms.Pairs() else SeedPodPair(cfg);
      && AddsPrerouting(now.prerouting, before.prerouting, cfg.ForwardDevice(), both)
      && AddsPostrouting(now.postrouting, before.postrouting, cfg.ForwardDevice(), both)
      && AddsOutput(now.output, before.output, if cfg.isShootClient then {} else ms.Pairs())
  }

  /** The rules a client may have added when it fails half-way. */
  ghost function ClientRules(cfg: ClientConfig, ms: Mappings): set<Rule> {
    if cfg.isShootClient then ShootRules(cfg.ForwardDevice(), ms.Pairs())
    else SeedRules(ms.Pairs()) + ShootRules(cfg.ForwardDevice(), SeedPodPair(cfg))
  }

  ghost predicate ServerChains(now: Chains, before: Chains, cfg: ServerConfig, ms: Mappings) {
    && now.prerouting == before.prerouting && now.postrouting == before.postrouting
    && AddsOutput(now.output, before.output, if cfg.isHA then {} else ms.Pairs())
  }

  lemma BetweenGrows(c: Chains, b: Chains, a: Chains, rs: set<Rule>, ss: set<Rule>)
    requires Between(b, a, rs) && Between(c, b, ss) && ss <= rs
    ensures Between(c, a, rs)
  {
  }

  /** The three loops of a shoot client. */
  method AppendAllShootRules(ms: Mappings, dev: string, t: NatTable) returns (ok: bool)
    modifies t
    ensures t.calls >= old(t.calls) && ok == !t.FailedSince(old(t.calls))
    ensures ok ==> AddsPrerouting(t.prerouting, old(t.prerouting), dev, ms.Pairs())
                   && AddsPostrouting(t.postrouting, old(t.postrouting), dev, ms.Pairs())
    ensures t.output == old(t.output)
    ensures Between(t.Current(), old(t.Current()), ShootRules(dev, ms.Pairs()))
  {
    hide Between;
    ghost var start, all := t.Current(), ShootRules(dev, ms.Pairs());
    ok := AppendShootRules(ms.pods, dev, t);
    BetweenMore(t.Current(), start, ShootRules(dev, ms.pods.Items), all);
    if !ok {
      return;
    }
    ghost var mid := t.Current();
    ok := AppendShootRules(ms.services, dev, t);
    BetweenGrows(t.Current(), mid, start, all, ShootRules(dev, ms.services.Items));
    if !ok {
      return;
    }
    mid := t.Current();
    ok := AppendShootRules(ms.nodes, dev, t);
    BetweenGrows(t.Current(), mid, start, all, ShootRules(dev, ms.nodes.Items));
  }

  /** The three loops of a seed client and of the server. */
  method AppendAllSeedRules(ms: Mappings, t: NatTable) returns (ok: bool)
    modifies t
    ensures t.calls >= old(t.calls) && ok == !t.FailedSince(old(t.calls))
    ensures ok ==> AddsOutput(t.output, old(t.output), ms.Pairs())
    ensures t.prerouting == old(t.prerouting) && t.postrouting == old(t.postrouting)
    ensures Between(t.Current(), old(t.Current()), SeedRules(ms.Pairs()))
  {
    ghost var start, all := t.Current(), SeedRules(ms.Pairs());
    ok := AppendSeedRules(ms.pods, t);
    if !ok {
      return;
    }
    ghost var mid := t.Current();
    ok := AppendSeedRules(ms.services, t);
    BetweenGrows(t.Current(), mid, start, all, SeedRules(ms.services.Items));
    if !ok {
      return;
    }
    mid := t.Current();
    ok := AppendSeedRules(ms.nodes, t);
    BetweenGrows(t.Current(), mid, start, all, SeedRules(ms.nodes.Items));
  }

  /** The rules of a seed client for the seed pod network itself. */
  method AppendSeedPodRules(cfg: ClientConfig, t: NatTable) returns (ok: bool)
    requires !cfg.isShootClient && cfg.seedPodNetwork.Some?
    modifies t
    ensures t.calls >= old(t.calls) && ok == !t.FailedSince(old(t.calls))
    ensures ok ==> AddsPrerouting(t.prerouting, old(t.prerouting), cfg.ForwardDevice(), SeedPodPair(cfg))
                   && AddsPostrouting(t.postrouting, old(t.postrouting), cfg.ForwardDevice(), SeedPodPair(cfg))
    ensures t.output == old(t.output)
    ensures Between(t.Current(), old(t.Current()), ShootRules(cfg.ForwardDevice(), SeedPodPair(cfg)))
  {
    ghost var pair := (cfg.seedPodNetwork.value, SEED_POD_MAPPED);
    if cfg.seedPodNetwork.value.IsIPv4() {
      assert pair in SeedPodPair(cfg);
      ok := t.AppendUnique(PreroutingNetmap(cfg.ForwardDevice(), SEED_POD_MAPPED, cfg.seedPodNetwork.value));
      if !ok {
        return;
      }
      ok := t.AppendUnique(PostroutingNetmap(cfg.ForwardDevice(), cfg.seedPodNetwork.value, SEED_POD_MAPPED));
      if !ok {
        return;
      }
    }
    ok := true;
  }

  /** How setting the rules may end. Without an error all of them are there; when iptables fails, some of them; and
      when the networks do not fit, none. */
  ghost predicate ClientOutcome(err: Option<Error>, now: Chains, before: Chains, cfg: ClientConfig, sort: Sorter)
    requires IsSorter(sort)
  {
    match err
    case None =>
      (ClientNetmaps(cfg) ==> MappingsFit(cfg.networks)) && ClientChains(now, before, cfg, MappingsOf(cfg.networks, sort))
    case Some(e) =>
      if e == IPTablesFailed then
        now == before || (ClientNetmaps(cfg) && MappingsFit(cfg.networks)
                          && Between(now, before, ClientRules(cfg, MappingsOf(cfg.networks, sort))))
      else now == before && ClientNetmaps(cfg) && !MappingsFit(cfg.networks)
  }

  /** A failure after the rules are set leaves them there. */
  lemma FailsLater(now: Chains, before: Chains, cfg: ClientConfig, sort: Sorter)
    requires IsSorter(sort) && ClientOutcome(None, now, before, cfg, sort)
    ensures ClientOutcome(Some(IPTablesFailed), now, before, cfg, sort)
  {
    hide MappingsOf, MappingsFit, IsSorter, OverlapsAny;
  }

  /** The double NAT block of a shoot client. */
  method SetShootNat(cfg: ClientConfig, t: NatTable, sort: Sorter) returns (err: Option<Error>)
    requires cfg.Valid() && cfg.isShootClient && ClientNetmaps(cfg) && IsSorter(sort)
    modifies t
    ensures t.calls >= old(t.calls) && (err == Some(IPTablesFailed) <==> t.FailedSince(old(t.calls)))
    ensures err.Some? && err != Some(IPTablesFailed) ==> t.Current() == old(t.Current()) && !MappingsFit(cfg.networks)
    ensures ClientOutcome(err, t.Current(), old(t.Current()), cfg, sort)
  {
    hide IsMappingOf, MappingsFit, MappingsOf, AddsPrerouting, AddsPostrouting, ShootRules, IsSorter;
    var r := ShootNetworksForNetmap(cfg.networks, sort);
    if r.Err? {
      return Some(r.error);
    }
    NothingAdded(t.output);
    var ok := AppendAllShootRules(r.value, cfg.ForwardDevice(), t);
    return if ok then None else Some(IPTablesFailed);
  }

  lemma NothingAdded(chain: seq<Rule>)
    ensures AddsOutput(chain, chain, {})
  {
  }

  /** The double NAT block of a seed client. */
  method SetSeedNat(cfg: ClientConfig, t: NatTable, sort: Sorter) returns (err: Option<Error>)
    requires cfg.Valid() && !cfg.isShootClient && ClientNetmaps(cfg) && IsSorter(sort)
    modifies t
    ensures t.calls >= old(t.calls) && (err == Some(IPTablesFailed) <==> t.FailedSince(old(t.calls)))
    ensures err.Some? && err != Some(IPTablesFailed) ==> t.Current() == old(t.Current()) && !MappingsFit(cfg.networks)
    ensures ClientOutcome(err, t.Current(), old(t.Current()), cfg, sort)
  {
    hide IsMappingOf, MappingsFit, MappingsOf, AddsPrerouting, AddsPostrouting, AddsOutput, ShootRules, SeedRules, IsSorter, Between;
    ghost var first := t.Current();
    var ok := t.OtherCalls(1); // NewIPTables once more
    assert t.Current() == first;
    if !ok {
      return Some(IPTablesFailed);
    }
    var r := ShootNetworksForNetmap(cfg.networks, sort);
    if r.Err? {
      return Some(r.error);
    }
    ghost var start := t.Current();
    ok := AppendAllSeedRules(r.value, t);
    BetweenMore(t.Current(), start, SeedRules(r.value.Pairs()), ClientRules(cfg, r.value));
    if !ok {
      return Some(IPTablesFailed);
    }
    ghost var mid := t.Current();
    ok := AppendSeedPodRules(cfg, t);
    BetweenGrows(t.Current(), mid, start, ClientRules(cfg, r.value), ShootRules(cfg.ForwardDevice(), SeedPodPair(cfg)));
    return if ok then None else Some(IPTablesFailed);
  }

  lemma BetweenMore(now: Chains, before: Chains, rs: set<Rule>, more: set<Rule>)
    requires Between(now, before, rs) && rs <= more
    ensures Between(now, before, more)
  {
  }

  /** SetIPTableRules of the client, its nat rules for traffic through the forward device. Configuration sorts and
      compacts the IP families (pkg/config/vpn-client.go:94-95). */
  method SetClientRules(cfg: ClientConfig, t: NatTable, sort: Sorter) returns (err: Option<Error>)
    requires cfg.Valid() && IsSorter(sort)
    requires forall i, j :: 0 <= i < j < |cfg.ipFamilies| ==> cfg.ipFamilies[i] != cfg.ipFamilies[j]
    modifies t
    ensures t.calls >= old(t.calls) && (err == Some(IPTablesFailed) <==> t.FailedSince(old(t.calls)))
    ensures err == Some(IPTablesFailed) <==> t.failing.Some? && old(t.calls) <= t.failing.value < t.calls
    ensures err.Some? && err != Some(IPTablesFailed) ==>
              t.Current() == old(t.Current()) && ClientNetmaps(cfg) && !MappingsFit(cfg.networks)
    ensures ClientOutcome(err, t.Current(), old(t.Current()), cfg, sort)
  {
    hide ClientOutcome, IsSorter, OverlapsAny, Disjoint, MappingsFit;
    var overlap := ComputeOverlap(cfg.seedPodNetwork, cfg.networks);
    Untouched(t.Current(), cfg, sort);
    for i := 0 to |cfg.ipFamilies|
      invariant IPv4 !in cfg.ipFamilies[..i] || !ClientNetmaps(cfg) ==> t.Current() == old(t.Current())
      invariant IPv4 in cfg.ipFamilies[..i] && ClientNetmaps(cfg) ==>
                  ClientOutcome(None, t.Current(), old(t.Current()), cfg, sort)
      invariant t.calls >= old(t.calls) && !t.FailedSince(old(t.calls))
    {
      var ipv4 := cfg.ipFamilies[i] == IPv4;
      ghost var before := t.Current();
      var ok := t.OtherCalls(if cfg.isShootClient && ipv4 then 2 else 1); // NewIPTables, the FORWARD rule
      assert t.Current() == before;
      if !ok {
        MayFail(t.Current(), old(t.Current()), cfg, sort);
        return Some(IPTablesFailed);
      }
      if ipv4 {
        if cfg.isShootClient {
          if !cfg.isHA || (cfg.isHA && overlap) {
            err := SetShootNat(cfg, t, sort);
            if err.Some? {
              return;
            }
          }
        } else if overlap {
          err := SetSeedNat(cfg, t, sort);
          if err.Some? {
            return;
          }
        }
      }
      before := t.Current();
      ok := t.OtherCalls(if cfg.isShootClient || ipv4 then 2 else 3); // the TCPMSS and MASQUERADE, or the INPUT rules
      assert t.Current() == before;
      if !ok {
        MayFail(t.Current(), old(t.Current()), cfg, sort);
        return Some(IPTablesFailed);
      }
    }
    err := None;
  }

  lemma MayFail(now: Chains, before: Chains, cfg: ClientConfig, sort: Sorter)
    requires IsSorter(sort) && (now == before || ClientOutcome(None, now, before, cfg, sort))
    ensures ClientOutcome(Some(IPTablesFailed), now, before, cfg, sort)
  {
    hide MappingsOf, MappingsFit, ClientChains;
    if now != before {
      FailsLater(now, before, cfg, sort);
    }
  }

  lemma Untouched(c: Chains, cfg: ClientConfig, sort: Sorter)
    requires IsSorter(sort)
    ensures ClientOutcome(Some(IPTablesFailed), c, c, cfg, sort)
    ensures !ClientNetmaps(cfg) ==> ClientOutcome(None, c, c, cfg, sort)
  {
  }

  /** The networks a rule names. */
  function NetworksOf(r: Rule): set<Cidr> {
    match r
    case PreroutingNetmap(_, dst, to) => {dst, to}
    case PostroutingNetmap(_, src, to) => {src, to}
    case OutputNetmap(dst, to) => {dst, to}
  }

  /** No rule for IPv4 names an IPv6 network, whatever networks are configured and however the setting ends. */
  lemma RulesAreIPv4(err: Option<Error>, now: Chains, cfg: ClientConfig, sort: Sorter)
    requires IsSorter(sort) && ClientOutcome(err, now, EMPTY_CHAINS, cfg, sort)
    ensures forall r :: r in now.prerouting + now.postrouting + now.output ==> forall n <- NetworksOf(r) :: n.IsIPv4()
  {
    hide MappingsOf, MappingsFit, IsSorter, OverlapsAny, ClientChains, ClientNetmaps, ClientRules, NetworksOf;
    if err.None? {
      FailsLater(now, EMPTY_CHAINS, cfg, sort);
    }
    if MappingsFit(cfg.networks) {
      MappingsAreSound(cfg.networks, sort);
      ClientRulesAreIPv4(cfg, MappingsOf(cfg.networks, sort));
    }
  }

  lemma ClientRulesAreIPv4(cfg: ClientConfig, ms: Mappings)
    requires IsMappingOf(ms, cfg.networks)
    ensures forall r <- ClientRules(cfg, ms), n <- NetworksOf(r) :: n.IsIPv4()
  {
    PairsAreIPv4(ms, cfg.networks);
    RulesOfPairs(cfg.ForwardDevice(), ms.Pairs());
    RulesOfPairs(cfg.ForwardDevice(), SeedPodPair(cfg));
    hide IsMappingOf, ShootRules, SeedRules, NetworksOf;
  }

  lemma RulesOfPairs(dev: string, ps: set<(Cidr, Cidr)>)
    requires forall p <- ps :: p.0.IsIPv4() && p.1.IsIPv4()
    ensures forall r <- ShootRules(dev, ps), n <- NetworksOf(r) :: n.IsIPv4()
    ensures forall r <- SeedRules(ps), n <- NetworksOf(r) :: n.IsIPv4()
  {
  }

  lemma PairsAreIPv4(ms: Mappings, ns: Networks)
    requires IsMappingOf(ms, ns)
    ensures forall p <- ms.Pairs() :: p.0.IsIPv4() && p.1.IsIPv4()
  {
    MappingsAreGood(ms, ns);
  }

  /** SetIPTableRules of the server. */
  method SetServerRules(cfg: ServerConfig, t: NatTable, sort: Sorter) returns (err: Option<Error>)
    requires cfg.networks.Valid() && IsSorter(sort)
    modifies t
    ensures t.calls >= old(t.calls) && (err == Some(IPTablesFailed) <==> t.FailedSince(old(t.calls)))
    ensures err == Some(IPTablesFailed) <==> t.failing.Some? && old(t.calls) <= t.failing.value < t.calls
    ensures cfg.isHA ==> err.None? && t.Current() == old(t.Current())
    ensures err.None? ==> (!cfg.isHA ==> MappingsFit(cfg.networks))
                          && ServerChains(t.Current(), old(t.Current()), cfg, MappingsOf(cfg.networks, sort))
    ensures err == Some(IPTablesFailed) ==>
              Between(t.Current(), old(t.Current()), SeedRules(MappingsOf(cfg.networks, sort).Pairs()))
    ensures err.Some? && err != Some(IPTablesFailed) ==>
              t.Current() == old(t.Current()) && !cfg.isHA && !MappingsFit(cfg.networks)
  {
    hide IsMappingOf, MappingsFit, MappingsOf, IsSorter;
    if !cfg.isHA {
      ghost var before := t.Current();
      var ok := t.OtherCalls(1); // NewIPTables
      assert t.Current() == before;
      if !ok {
        return Some(IPTablesFailed);
      }
      var r := ShootNetworksForNetmap(cfg.networks, sort);
      if r.Err? {
        return Some(r.error);
      }
      ok := AppendAllSeedRules(r.value, t);
      if !ok {
        return Some(IPTablesFailed);
      }
    }
    err := None;
  }
}
