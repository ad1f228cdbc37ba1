/** The path controller (cmd/vpn_client/app/pathcontroller/client_router.go): it pings the shoot clients and routes
    the shoot networks to one that answers. */
module PathControllerModel {
  import opened Cidrs
  import opened AddressPlan

  /** What stays the same over a run: the clients, the networks to route in their order, and whether the shoot
      networks fit their reserved ranges, without which updateRouting refuses. */
  datatype Config = Config(clients: set<Ip6>, nets: seq<Cidr>, fits: bool)

  /** What can go wrong in updateRouting: the client's tunnel link is missing, or the kernel refuses a route. */
  datatype Fault = NoFault | LinkMissing | Refused(at: nat)

  datatype State = State(primary: Option<Ip6>, good: set<Ip6>, routes: map<Cidr, int>)

  /** One round: who answers, which good client is picked should a new primary be needed, and what goes wrong then. */
  datatype Tick = Tick(answered: set<Ip6>, choice: Ip6, fault: Fault)

  /** How many routes an update replaces before it ends. */
  function Replaced(c: Config, f: Fault): nat {
    if f.LinkMissing? || !c.fits then 0
    else if f.Refused? && f.at < |c.nets| then f.at
    else |c.nets|
  }

  predicate Fails(c: Config, f: Fault) {
    f.LinkMissing? || !c.fits || (f.Refused? && f.at < |c.nets|)
  }

  function RoutedTo(routes: map<Cidr, int>, nets: seq<Cidr>, client: int): map<Cidr, int> {
    map n | n in routes.Keys + (set m | m in nets) :: if n in nets then client else routes[n]
  }

  function GoodAfter(c: Config, s: State, t: Tick): set<Ip6> {
    s.good - c.clients + (t.answered * c.clients)
  }

  /** A round calls updateRouting when the primary did not answer and somebody did. */
  predicate Updates(c: Config, s: State, t: Tick) {
    (s.primary.None? || s.primary.value !in GoodAfter(c, s, t)) && GoodAfter(c, s, t) != {}
  }

  predicate Possible(c: Config, s: State, t: Tick) {
    Updates(c, s, t) ==> t.choice in GoodAfter(c, s, t)
  }

  function After(c: Config, s: State, t: Tick): State {
    var good := GoodAfter(c, s, t);
    if !Updates(c, s, t) then s.(good := good)
    else State(if Fails(c, t.fault) then s.primary else Some(t.choice), good,
               RoutedTo(s.routes, c.nets[..Replaced(c, t.fault)], ClientIndexFromBondingShootClientIP(t.choice)))
  }

  /** Whether the round ends with an error in the log. */
  predicate Errs(c: Config, s: State, t: Tick) {
    (s.primary.None? || s.primary.value !in GoodAfter(c, s, t)) && (GoodAfter(c, s, t) == {} || Fails(c, t.fault))
  }
}

module PathController {
  import opened Cidrs
  import opened AddressPlan
  import opened NetmapAllocator
  import opened ShootNetworks
  import opened NatRules
  import opened VpnValues
  import opened PathControllerModel

  /** The kernel routes through the bond tunnels: the network and the client index of the tunnel it uses. */
  class RouteTable {
    var routes: map<Cidr, int>

    /** RouteReplace: an existing route for the same network gives way. */
    method Replace(n: Cidr, client: int)
      modifies this
      ensures routes == old(routes)[n := client]
    {
      routes := routes[n := client];
    }
  }

  /** What updateRouting is configured with. */
  function ConfigOf(ns: Networks, seed: Option<Cidr>, clients: set<Ip6>, fits: bool): Config {
    Config(clients, SelectedAll(ns, SeedOverlaps(seed, ns)), fits)
  }

  lemma RoutedNone(routes: map<Cidr, int>, client: int)
    ensures RoutedTo(routes, [], client) == routes
  {
  }

  lemma SelectedLength(ns: Networks, doNetmap: bool)
    ensures |SelectedAll(ns, doNetmap)| == |ns.All()|
  {
  }

  lemma RoutedOneMore(routes: map<Cidr, int>, nets: seq<Cidr>, i: nat, client: int)
    requires i < |nets|
    ensures RoutedTo(routes, nets[..i + 1], client) == RoutedTo(routes, nets[..i], client)[nets[i] := client]
  {
    assert nets[..i + 1] == nets[..i] + [nets[i]];
  }

  /** The loop over the selected networks. */
  method ReplaceRoutes(nets: seq<Cidr>, client: int, f: Fault, t: RouteTable) returns (refused: bool)
    modifies t
    ensures refused == (f.Refused? && f.at < |nets|)
    ensures t.routes == RoutedTo(old(t.routes), nets[..if refused then f.at else |nets|], client)
  {
    hide RoutedTo;
    RoutedNone(t.routes, client);
    assert nets[..0] == [] && nets[..|nets|] == nets;
    for i := 0 to |nets|
      invariant f.Refused? ==> i <= f.at
      invariant t.routes == RoutedTo(old(t.routes), nets[..i], client)
    {
      if f == Refused(i) {
        return true;
      }
      RoutedOneMore(old(t.routes), nets, i, client);
      t.Replace(nets[i], client);
    }
    return false;
  }

  /** updateRouting. The routes before a refused one stay replaced. */
  method UpdateRouting(ns: Networks, seed: Option<Cidr>, sort: Sorter, newIP: Ip6, f: Fault, t: RouteTable)
    returns (err: Option<Error>)
    requires IsSorter(sort) && ns.Valid() && (seed.Some? ==> seed.value.Valid())
    modifies t
    ensures err.None? <==> !f.LinkMissing? && MappingsFit(ns) && !(f.Refused? && f.at < |ns.All()|)
    ensures err.None? ==> forall n :: Announced(n, ns, SeedOverlaps(seed, ns)) ==>
                            n in t.routes && t.routes[n] == ClientIndexFromBondingShootClientIP(newIP)
    ensures forall n :: !Announced(n, ns, SeedOverlaps(seed, ns)) ==>
              (n in t.routes <==> n in old(t.routes)) && (n in t.routes ==> t.routes[n] == old(t.routes)[n])
    ensures f.LinkMissing? || !MappingsFit(ns) || (f == Refused(0) && ns.All() != []) ==> t.routes == old(t.routes)
    ensures var c := ConfigOf(ns, seed, {}, MappingsFit(ns));
            && err.Some? == Fails(c, f)
            && t.routes == RoutedTo(old(t.routes), c.nets[..Replaced(c, f)], ClientIndexFromBondingShootClientIP(newIP))
  {
    hide MappingsFit, MappingsOf, IsMappingOf, IsSorter, SelectedAll, SeedOverlaps, Announced;
    SelectedIsAnnounced(ns, SeedOverlaps(seed, ns));
    SelectedLength(ns, SeedOverlaps(seed, ns));
    assert SelectedAll(ns, SeedOverlaps(seed, ns))[..|ns.All()|] == SelectedAll(ns, SeedOverlaps(seed, ns));
    var clientIndex := ClientIndexFromBondingShootClientIP(newIP);
    assert t.routes == RoutedTo(t.routes, [], clientIndex);
    if f.LinkMissing? {
      return Some(LinkNotFound);
    }
    var mappings := ShootNetworksForNetmap(ns, sort);
    if mappings.Err? {
      return Some(mappings.error);
    }
    var overlap := ComputeOverlap(seed, ns);
    var nets := SelectAll(ns, overlap);
    var refused := ReplaceRoutes(nets, clientIndex, f, t);
    if refused {
      return Some(RouteFailed);
    }
    return None;
  }

  ghost predicate Indices(order: seq<nat>, n: nat) {
    forall k | 0 <= k < |order| :: order[k] < n
  }

  /** The good set after the pings of the given clients came back in the given order. */
  ghost function AfterPings(good: set<Ip6>, clients: seq<Ip6>, answers: seq<bool>, order: seq<nat>): set<Ip6>
    requires |answers| == |clients| && Indices(order, |clients|)
  {
    if order == [] then good
    else
      var before, i := AfterPings(good, clients, answers, order[..|order| - 1]), order[|order| - 1];
      if answers[i] then before + {clients[i]} else before - {clients[i]}
  }

  /** Every ping comes back once. */
  ghost predicate IsOrder(order: seq<nat>, n: nat) {
    && Indices(order, n)
    && (forall i | 0 <= i < n :: i in order)
    && forall j, k | 0 <= j < k < |order| :: order[j] != order[k]
  }

  /** Clients with the same address answer the same. */
  ghost predicate Consistent(clients: seq<Ip6>, answers: seq<bool>)
    requires |answers| == |clients|
  {
    forall i, j :: 0 <= i < |clients| && 0 <= j < |clients| && clients[i] == clients[j] ==> answers[i] == answers[j]
  }

  ghost function Answered(clients: seq<Ip6>, answers: seq<bool>): set<Ip6>
    requires |answers| == |clients|
  {
    set i | 0 <= i < |clients| && answers[i] :: clients[i]
  }

  ghost function AsSet(clients: seq<Ip6>): set<Ip6> {
    set a | a in clients
  }

  /** A client pinged in the order is good iff it answers, any other iff it was. */
  lemma {:induction false} AfterPingsHas(good: set<Ip6>, clients: seq<Ip6>, answers: seq<bool>, order: seq<nat>, a: Ip6)
    requires |answers| == |clients| && Consistent(clients, answers)
    requires Indices(order, |clients|)
    ensures a in AfterPings(good, clients, answers, order) <==>
            if exists k | 0 <= k < |order| :: clients[order[k]] == a
            then exists k | 0 <= k < |order| :: clients[order[k]] == a && answers[order[k]]
            else a in good
  {
    if order != [] {
      var k := |order| - 1;
      AfterPingsHas(good, clients, answers, order[..k], a);
      assert forall j | 0 <= j < k :: order[j] == order[..k][j];
    }
  }

  /** Confluence: however the pings of a round interleave, exactly the clients that answered are good. */
  lemma RoundResult(good: set<Ip6>, clients: seq<Ip6>, answers: seq<bool>, order: seq<nat>)
    requires |answers| == |clients| && Consistent(clients, answers) && IsOrder(order, |clients|)
    ensures AfterPings(good, clients, answers, order) == good - AsSet(clients) + Answered(clients, answers)
  {
    forall a ensures a in AfterPings(good, clients, answers, order) <==>
                     a in good - AsSet(clients) + Answered(clients, answers)
    {
      AfterPingsHas(good, clients, answers, order, a);
      if a in clients {
        var i :| 0 <= i < |clients| && clients[i] == a;
        assert i in order;
        var k :| 0 <= k < |order| && order[k] == i;
      }
    }
  }

  /** An order that ends with ping i. */
  lemma EndingWith(i: nat, n: nat) returns (order: seq<nat>)
    requires i < n
    ensures IsOrder(order, n) && |order| == n && order[n - 1] == i
  {
    order := seq(n, k requires 0 <= k < n => if k == n - 1 then i else if k == i then n - 1 else k);
    forall k | 0 <= k < n ensures k in order {
      assert order[n - 1] == i && order[i] == n - 1 && (k != i && k != n - 1 ==> order[k] == k);
    }
  }

  /** The order does not matter exactly when clients with one address answer alike; distinct clients always do. */
  lemma RoundIsConfluentIff(good: set<Ip6>, clients: seq<Ip6>, answers: seq<bool>)
    requires |answers| == |clients|
    ensures (forall o, p :: IsOrder(o, |clients|) && IsOrder(p, |clients|) ==>
               AfterPings(good, clients, answers, o) == AfterPings(good, clients, answers, p))
            <==> Consistent(clients, answers)
  {
    var n := |clients|;
    if Consistent(clients, answers) {
      forall o, p | IsOrder(o, n) && IsOrder(p, n)
        ensures AfterPings(good, clients, answers, o) == AfterPings(good, clients, answers, p)
      {
        RoundResult(good, clients, answers, o);
        RoundResult(good, clients, answers, p);
      }
    } else {
      var i, j :| 0 <= i < n && 0 <= j < n && clients[i] == clients[j] && answers[i] && !answers[j];
      var o := EndingWith(i, n);
      var p := EndingWith(j, n);
      assert clients[i] in AfterPings(good, clients, answers, o);
      assert clients[i] !in AfterPings(good, clients, answers, p);
    }
  }

  /** The pings that have come back in their order, and those still running. */
  ghost predicate OnTheWay(order: seq<nat>, running: set<nat>, n: nat) {
    && Indices(order, n) && (forall i <- running :: i < n && i !in order)
    && (forall i | 0 <= i < n :: i in running || i in order)
    && forall j, k | 0 <= j < k < |order| :: order[j] != order[k]
  }

  lemma OneBack(order: seq<nat>, running: set<nat>, n: nat, i: nat)
    requires OnTheWay(order, running, n) && i in running
    ensures OnTheWay(order + [i], running - {i}, n)
  {
  }

  class ClientRouter {
    const networks: Networks
    const seedPodNetwork: Option<Cidr>
    const sort: Sorter
    const table: RouteTable
    var primary: Option<Ip6>
    var goodIPs: set<Ip6>

    constructor (networks: Networks, seedPodNetwork: Option<Cidr>, sort: Sorter, table: RouteTable)
      ensures this.networks == networks && this.seedPodNetwork == seedPodNetwork
      ensures this.sort == sort && this.table == table
      ensures Current() == State(None, {}, table.routes)
    {
      this.networks, this.seedPodNetwork, this.sort, this.table := networks, seedPodNetwork, sort, table;
      primary, goodIPs := None, {};
    }

    function Current(): State
      reads this, table
    {
      State(primary, goodIPs, table.routes)
    }

    ghost function Setup(clients: set<Ip6>): Config {
      ConfigOf(networks, seedPodNetwork, clients, MappingsFit(networks))
    }

    /** pingAllShootClients: one goroutine a client, each changing the good set when its ping is done. */
    method PingAllShootClients(clients: seq<Ip6>, answers: seq<bool>) returns (ghost order: seq<nat>)
      requires |answers| == |clients|
      modifies this`goodIPs
      ensures IsOrder(order, |clients|)
      ensures goodIPs == AfterPings(old(goodIPs), clients, answers, order)
      ensures Consistent(clients, answers) ==>
                goodIPs == old(goodIPs) - AsSet(clients) + Answered(clients, answers)
    {
      order := [];
      var running: set<nat> := {};
      for i := 0 to |clients|
        invariant forall k :: k in running <==> 0 <= k < i
      {
        running := running + {i};
      }
      while running != {}
        invariant OnTheWay(order, running, |clients|)
        invariant goodIPs == AfterPings(old(goodIPs), clients, answers, order)
      {
        var i :| i in running;
        OneBack(order, running, |clients|, i);
        assert (order + [i])[..|order|] == order;
        running := running - {i};
        if answers[i] {
          goodIPs := goodIPs + {clients[i]};
        } else {
          goodIPs := goodIPs - {clients[i]};
        }
        order := order + [i];
      }
      if Consistent(clients, answers) {
        RoundResult(old(goodIPs), clients, answers, order);
      }
    }

    /** selectNewPrimaryShootClient: any good client, an error if there is none. */
    method SelectNewPrimaryShootClient() returns (ip: Option<Ip6>)
      ensures if goodIPs == {} then ip == None else ip.Some? && ip.value in goodIPs
    {
      if goodIPs == {} {
        return None;
      }
      var any :| any in goodIPs;
      return Some(any);
    }

    /** determinePrimaryShootClient; choice is the client it picked, if it had to pick one. */
    method DeterminePrimaryShootClient(f: Fault) returns (ok: bool, choice: Option<Ip6>)
      requires IsSorter(sort) && networks.Valid() && (seedPodNetwork.Some? ==> seedPodNetwork.value.Valid())
      modifies this`primary, table
      ensures old(primary).Some? && old(primary).value in goodIPs ==>
                ok && choice.None? && primary == old(primary) && table.routes == old(table.routes)
      ensures (old(primary).None? || old(primary).value !in goodIPs) && goodIPs == {} ==>
                !ok && choice.None? && primary == old(primary) && table.routes == old(table.routes)
      ensures (old(primary).None? || old(primary).value !in goodIPs) && goodIPs != {} ==>
                var c := Setup({});
                && choice.Some? && choice.value in goodIPs
                && ok == !Fails(c, f) && primary == (if ok then choice else old(primary))
                && table.routes == RoutedTo(old(table.routes), c.nets[..Replaced(c, f)],
                                            ClientIndexFromBondingShootClientIP(choice.value))
      ensures ok <==> primary.Some? && primary.value in goodIPs
    {
      if primary.Some? && primary.value in goodIPs {
        return true, None;
      }
      choice := SelectNewPrimaryShootClient();
      if choice.None? {
        return false, None;
      }
      var err := UpdateRouting(networks, seedPodNetwork, sort, choice.value, f, table);
      if err.Some? {
        return false, choice;
      }
      primary := choice;
      return true, choice;
    }

    /** The body of Run's loop is one step of the model. */
    method RunOnce(clients: seq<Ip6>, answers: seq<bool>, f: Fault) returns (ok: bool, ghost tick: Tick)
      requires |answers| == |clients| && Consistent(clients, answers)
      requires IsSorter(sort) && networks.Valid() && (seedPodNetwork.Some? ==> seedPodNetwork.value.Valid())
      modifies this`goodIPs, this`primary, table
      ensures goodIPs == old(goodIPs) - AsSet(clients) + Answered(clients, answers)
      ensures ok <==> primary.Some? && primary.value in goodIPs
      ensures old(primary).Some? && old(primary).value in goodIPs ==>
                primary == old(primary) && table.routes == old(table.routes)
      ensures var c := Setup(AsSet(clients));
              && tick.answered == Answered(clients, answers) && tick.fault == f
              && Possible(c, old(Current()), tick)
              && Current() == After(c, old(Current()), tick)
              && ok == !Errs(c, old(Current()), tick)
    {
      ghost var c := Setup(AsSet(clients));
      ghost var order := PingAllShootClients(clients, answers);
      var choice;
      ok, choice := DeterminePrimaryShootClient(f);
      tick := Tick(Answered(clients, answers), if choice.Some? then choice.value else ZERO, f);
      assert tick.answered * c.clients == tick.answered;
      assert goodIPs == GoodAfter(c, old(Current()), tick);
      var p := Setup({});
      assert p.nets == c.nets && Fails(p, f) == Fails(c, f) && Replaced(p, f) == Replaced(c, f);
    }
  }

  const ZERO: Ip6 := seq(16, _ => 0)
}
