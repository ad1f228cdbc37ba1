/** Readiness of the shoot client over whole runs of its tunnel controller. */
module TunnelReadiness {
  import opened Cidrs
  import opened AddressPlan
  import opened TunnelModel

  /** Who may announce itself: pairs of remote address and the text sent as pod IP, and how such texts are read. */
  datatype Setting = Setting(claims: iset<(Ip6, string)>, parse: Parser)

  datatype Event =
    | Packet(remote: Ip6, podIP: string, now: int)
    | Update(update: (Ip6, string), now: int, fault: Fault, again: bool)
    | Clean(now: int, failing: set<Ip6>)

  function After(parse: Parser, s: State, e: Event): State {
    match e
    case Packet(remote, podIP, now) => AfterPacket(s, remote, podIP, now)
    case Update(u, now, fault, again) => AfterUpdate(parse, s, u, now, fault, again)
    case Clean(now, failing) => AfterClean(s, now, failing)
  }

  /** Packets announce one of the claimed pairs; a cleaning meets no started update. */
  ghost predicate Possible(g: Setting, s: State, e: Event) {
    match e
    case Packet(remote, podIP, _) => (remote, podIP) in g.claims
    case Update(u, _, _, _) => u in s.started
    case Clean(_, _) => s.started == {}
  }

  /** A run starts without entries, on whatever links and routes an earlier process left. */
  ghost predicate IsRun(g: Setting, events: seq<Event>, states: seq<State>) {
    && |states| == |events| + 1
    && states[0].entries == map[] && states[0].started == {}
    && forall i :: 0 <= i < |events| ==>
      Possible(g, states[i], events[i]) && states[i + 1] == After(g.parse, states[i], events[i])
  }

  ghost predicate Reachable(g: Setting, s: State) {
    exists events, states :: IsRun(g, events, states) && states[|events|] == s
  }

  /** The device of r exists and leads to r, and the address is routed to it. */
  predicate Served(k: Kernel, r: Ip6, ip: Option<Address>) {
    var name := LinkName(r);
    name in k.links && k.links[name] == r && ip.Some? && ip.value in k.routes && k.routes[ip.value] == name
  }

  ghost predicate AllServed(g: Setting, s: State) {
    forall r <- s.entries :: Served(s.kernel, r, g.parse(s.entries[r].podIP))
  }

  /** Whenever readiness is reported, in whatever run, every kube-apiserver is served. */
  ghost predicate Sound(g: Setting) {
    forall s :: Reachable(g, s) && IsReady(s) ==> AllServed(g, s)
  }

  /** No link name of a remote address that can become ready is another's, too. */
  ghost predicate NamesDistinct(g: Setting) {
    forall c, d :: c in g.claims && d in g.claims && g.parse(c.1).Some? && LinkName(c.0) == LinkName(d.0) ==> c.0 == d.0
  }

  /** No two remote addresses announce one pod IP, however they write it. */
  ghost predicate PodIPsDistinct(g: Setting) {
    forall c, d :: c in g.claims && d in g.claims && g.parse(c.1).Some? && g.parse(c.1) == g.parse(d.1) ==> c.0 == d.0
  }

  /** What every step keeps. */
  ghost predicate Inv(g: Setting, s: State) {
    && (forall u <- s.started :: u in g.claims)
    && (forall r <- s.entries :: (r, s.entries[r].podIP) in g.claims)
    && (forall r <- s.entries :: s.entries[r].Ready() ==> Served(s.kernel, r, g.parse(s.entries[r].podIP)))
  }

  lemma UpdateServes(parse: Parser, k: Kernel, r: Ip6, podIP: string, f: Fault)
    requires Succeeds(parse, podIP, f)
    ensures Served(KernelAfter(k, r, parse(podIP), f), r, parse(podIP))
  {
  }

  lemma UpdateSpares(k: Kernel, r: Ip6, ip: Option<Address>, f: Fault, other: Ip6, otherIP: Option<Address>)
    requires Served(k, other, otherIP) && LinkName(other) != LinkName(r) && otherIP != ip
    ensures Served(KernelAfter(k, r, ip, f), other, otherIP)
  {
  }

  lemma PacketKeepsInv(g: Setting, s: State, remote: Ip6, podIP: string, now: int)
    requires Inv(g, s) && (remote, podIP) in g.claims
    ensures Inv(g, AfterPacket(s, remote, podIP, now))
  {
    hide LinkName, Served;
    var t := AfterPacket(s, remote, podIP, now);
    forall r <- t.entries
      ensures (r, t.entries[r].podIP) in g.claims
      ensures t.entries[r].Ready() ==> Served(t.kernel, r, g.parse(t.entries[r].podIP))
    {
      if r in s.entries {
        assert t.entries[r].Ready() == s.entries[r].Ready() && t.entries[r].podIP == s.entries[r].podIP;
      }
    }
  }

  lemma UpdateKeepsInv(g: Setting, s: State, u: (Ip6, string), now: int, f: Fault, again: bool)
    requires NamesDistinct(g) && PodIPsDistinct(g)
    requires Inv(g, s) && u in s.started
    ensures Inv(g, AfterUpdate(g.parse, s, u, now, f, again))
  {
    hide LinkName, KernelAfter;
    var t := AfterUpdate(g.parse, s, u, now, f, again);
    forall r <- t.entries
      ensures (r, t.entries[r].podIP) in g.claims
      ensures t.entries[r].Ready() ==> Served(t.kernel, r, g.parse(t.entries[r].podIP))
    {
      if r == u.0 {
        assert (r, t.entries[r].podIP) == u;
        if t.entries[r].Ready() {
          UpdateServes(g.parse, s.kernel, r, u.1, f);
        }
      } else if t.entries[r].Ready() {
        var c := (r, s.entries[r].podIP);
        assert c in g.claims && u in g.claims && c.0 != u.0;
        UpdateSpares(s.kernel, u.0, g.parse(u.1), f, r, g.parse(c.1));
      }
    }
  }

  lemma CleanKeepsInv(g: Setting, s: State, now: int, failing: set<Ip6>)
    requires NamesDistinct(g) && Inv(g, s)
    ensures Inv(g, AfterClean(s, now, failing))
  {
    hide LinkName;
    var t := AfterClean(s, now, failing);
    var outdated := set r | r in s.entries && s.entries[r].IsOutdated(now);
    forall r <- t.entries | t.entries[r].Ready()
      ensures Served(t.kernel, r, g.parse(t.entries[r].podIP))
    {
      forall q | q in outdated ensures LinkName(q) != LinkName(r) {
        var c, d := (r, s.entries[r].podIP), (q, s.entries[q].podIP);
        assert c in g.claims && d in g.claims && c.0 != d.0;
      }
    }
  }

  lemma {:induction false} RunKeepsInv(g: Setting, events: seq<Event>, states: seq<State>, i: nat)
    requires NamesDistinct(g) && PodIPsDistinct(g)
    requires IsRun(g, events, states) && i <= |events|
    ensures Inv(g, states[i])
  {
    hide Inv, AfterPacket, AfterUpdate, AfterClean;
    if i == 0 {
      InitialInv(g, states[0]);
    } else {
      RunKeepsInv(g, events, states, i - 1);
      match events[i - 1]
      case Packet(remote, podIP, now) => PacketKeepsInv(g, states[i - 1], remote, podIP, now);
      case Update(u, now, f, again) => UpdateKeepsInv(g, states[i - 1], u, now, f, again);
      case Clean(now, failing) => CleanKeepsInv(g, states[i - 1], now, failing);
    }
  }

  lemma InitialInv(g: Setting, s: State)
    requires s.entries == map[] && s.started == {}
    ensures Inv(g, s)
  {
  }

  lemma ReachableStep(g: Setting, s: State, e: Event)
    requires Reachable(g, s) && Possible(g, s, e)
    ensures Reachable(g, After(g.parse, s, e))
  {
    hide After;
    var events, states :| IsRun(g, events, states) && states[|events|] == s;
    assert IsRun(g, events + [e], states + [After(g.parse, s, e)]);
  }

  const EMPTY: State := State(map[], Kernel(map[], map[]), {})

  lemma EmptyReachable(g: Setting)
    ensures Reachable(g, EMPTY)
  {
    assert IsRun(g, [], [EMPTY]);
  }

  /** A kube-apiserver that announces itself for the first time, and whose update runs at once. */
  lemma SetUp(g: Setting, s: State, c: (Ip6, string)) returns (t: State)
    requires Reachable(g, s) && c in g.claims && c.0 !in s.entries && s.started == {}
    ensures Reachable(g, t) && t.started == {} && t.entries.Keys == s.entries.Keys + {c.0}
    ensures t.entries[c.0] == EntryAfter(Entry(c.1, 0, false, None, 0, false), c.1, 0, g.parse(c.1).Some?)
    ensures forall r <- s.entries :: r != c.0 ==> t.entries[r] == s.entries[r]
    ensures t.kernel == KernelAfter(s.kernel, c.0, g.parse(c.1), NoFault)
  {
    hide Reachable, KernelAfter;
    var p := Packet(c.0, c.1, 0);
    ReachableStep(g, s, p);
    var mid := After(g.parse, s, p);
    assert mid.started == {c};
    var u := Update(c, 0, NoFault, false);
    ReachableStep(g, mid, u);
    t := After(g.parse, mid, u);
  }

  /** Two kube-apiservers that share a link name or a pod IP: readiness is reported although the first is cut off. */
  lemma SharedIsUnsound(g: Setting, c: (Ip6, string), d: (Ip6, string))
    requires c in g.claims && d in g.claims && c.0 != d.0 && g.parse(c.1).Some? && g.parse(d.1).Some?
    requires LinkName(c.0) == LinkName(d.0) || g.parse(c.1) == g.parse(d.1)
    ensures !Sound(g)
  {
    hide Reachable;
    EmptyReachable(g);
    var one := SetUp(g, EMPTY, c);
    var two := SetUp(g, one, d);
    assert c.0 in two.entries;
    assert forall r <- two.entries :: r == c.0 || r == d.0;
    assert IsReady(two);
    assert !Served(two.kernel, c.0, g.parse(c.1));
    assert !AllServed(g, two);
  }

  /** A kube-apiserver that never becomes ready takes a namesake's device with it when it is cleaned away. */
  lemma NamesakeIsUnsound(g: Setting, c: (Ip6, string), d: (Ip6, string))
    requires c in g.claims && d in g.claims && c.0 != d.0 && g.parse(c.1).Some? && g.parse(d.1).None?
    requires LinkName(c.0) == LinkName(d.0)
    ensures !Sound(g)
  {
    hide Reachable, KernelAfter;
    EmptyReachable(g);
    var one := SetUp(g, EMPTY, c);
    var two := SetUp(g, one, d);
    var late := EXPIRATION_DURATION + 1;
    ReachableStep(g, two, Packet(c.0, c.1, late));
    var three := After(g.parse, two, Packet(c.0, c.1, late));
    assert three.started == {} && three.entries.Keys == {c.0, d.0};
    ReachableStep(g, three, Clean(late, {}));
    var four := After(g.parse, three, Clean(late, {}));
    assert d.0 in three.entries && three.entries[d.0].IsOutdated(late);
    assert four.entries.Keys == {c.0} && four.entries[c.0].Ready();
    assert c.0 in four.entries && IsReady(four);
    assert LinkName(c.0) !in four.kernel.links;
    assert !Served(four.kernel, c.0, g.parse(c.1));
    assert !AllServed(g, four);
  }

  /** Readiness can be trusted in every run exactly when no remote address whose pod IP can be read shares its link
      name with another, and no two announce the same address. */
  lemma SoundIff(g: Setting)
    ensures Sound(g) <==> NamesDistinct(g) && PodIPsDistinct(g)
  {
    hide LinkName, Served;
    if NamesDistinct(g) && PodIPsDistinct(g) {
      forall s | Reachable(g, s) && IsReady(s) ensures AllServed(g, s) {
        var events, states :| IsRun(g, events, states) && states[|events|] == s;
        RunKeepsInv(g, events, states, |events|);
      }
    } else if !NamesDistinct(g) {
      var c, d :| c in g.claims && d in g.claims && g.parse(c.1).Some? && LinkName(c.0) == LinkName(d.0) && c.0 != d.0;
      if g.parse(d.1).Some? {
        SharedIsUnsound(g, c, d);
      } else {
        NamesakeIsUnsound(g, c, d);
      }
    } else {
      var c, d :| c in g.claims && d in g.claims && g.parse(c.1).Some? && g.parse(c.1) == g.parse(d.1) && c.0 != d.0;
      SharedIsUnsound(g, c, d);
    }
  }

  /** For seed clients, whose addresses come from one /112, only the pod IPs matter. */
  lemma SoundForSeedClients(g: Setting, vpnNetwork: Ip6)
    requires forall c <- g.claims :: InPrefix(c.0, SeedBase(vpnNetwork), 14)
    ensures Sound(g) <==> PodIPsDistinct(g)
  {
    hide LinkName, Sound, PodIPsDistinct;
    forall c, d | c in g.claims && d in g.claims && LinkName(c.0) == LinkName(d.0) ensures c.0 == d.0 {
      LinkNameInjective(c.0, d.0, SeedBase(vpnNetwork));
    }
    SoundIff(g);
  }
}
