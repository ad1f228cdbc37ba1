/** The path controller over whole runs: when the primary changes, and when the routes follow it. */
module PathTheorems {
  import opened Cidrs
  import opened AddressPlan
  import opened PathControllerModel

  ghost predicate IsRun(c: Config, ticks: seq<Tick>, states: seq<State>) {
    && |states| == |ticks| + 1
    && states[0].primary == None && states[0].good == {}
    && forall i :: 0 <= i < |ticks| ==> Possible(c, states[i], ticks[i]) && states[i + 1] == After(c, states[i], ticks[i])
  }

  /** The primary's tunnel carries every network. */
  predicate Follows(c: Config, s: State) {
    s.primary.Some? ==>
      forall n <- c.nets :: n in s.routes && s.routes[n] == ClientIndexFromBondingShootClientIP(s.primary.value)
  }

  /** Some network is routed past the primary. */
  ghost predicate Strays(c: Config, s: State) {
    && s.primary.Some?
    && exists n <- c.nets :: n in s.routes && s.routes[n] != ClientIndexFromBondingShootClientIP(s.primary.value)
  }

  /** As the address plan gives them out, for up to 256 clients. */
  ghost predicate DistinctIndices(clients: set<Ip6>) {
    forall a, b | a in clients && b in clients ::
      ClientIndexFromBondingShootClientIP(a) == ClientIndexFromBondingShootClientIP(b) ==> a == b
  }

  ghost predicate Inv(c: Config, s: State) {
    s.good <= c.clients && (s.primary.Some? ==> s.primary.value in c.clients && c.fits)
  }

  lemma {:induction false} RunKeepsInv(c: Config, ticks: seq<Tick>, states: seq<State>, i: nat)
    requires IsRun(c, ticks, states) && i <= |ticks|
    ensures Inv(c, states[i])
  {
    if i > 0 {
      RunKeepsInv(c, ticks, states, i - 1);
      assert states[i] == After(c, states[i - 1], ticks[i - 1]);
    }
  }

  /** After each round of each run the good clients are exactly those that answered; the round ends without an error
      exactly when the primary is one of them; and the primary changes exactly when it did not answer, somebody did,
      and routing to the chosen client succeeded. */
  lemma RoundOfRun(c: Config, ticks: seq<Tick>, states: seq<State>, i: nat)
    requires IsRun(c, ticks, states) && i < |ticks|
    ensures var s, t, tick := states[i], states[i + 1], ticks[i];
            var answered := tick.answered * c.clients;
            && t.good == answered
            && (!Errs(c, s, tick) <==> t.primary.Some? && t.primary.value in answered)
            && (t.primary != s.primary <==>
                (s.primary.None? || s.primary.value !in answered) && answered != {} && !Fails(c, tick.fault))
            && (t.primary != s.primary ==> t.primary.Some? && t.primary.value in answered && Follows(c, t))
  {
    RunKeepsInv(c, ticks, states, i);
    assert states[i + 1] == After(c, states[i], ticks[i]);
    assert c.nets[..|c.nets|] == c.nets;
  }

  /** The controller routes its networks and nothing else. */
  lemma {:induction false} RunRoutes(c: Config, ticks: seq<Tick>, states: seq<State>, i: nat)
    requires IsRun(c, ticks, states) && i <= |ticks|
    ensures forall n <- states[i].routes :: n in states[0].routes || n in c.nets
  {
    if i > 0 {
      RunRoutes(c, ticks, states, i - 1);
      assert states[i] == After(c, states[i - 1], ticks[i - 1]);
    }
  }

  /** A round that fails to switch leaves the routes alone. */
  predicate Harmless(c: Config, s: State, t: Tick) {
    Updates(c, s, t) && Fails(c, t.fault) ==> Replaced(c, t.fault) == 0
  }

  lemma QuietStep(c: Config, s: State, t: Tick)
    requires Follows(c, s) && Possible(c, s, t) && (Harmless(c, s, t) || s.primary.None?)
    ensures Follows(c, After(c, s, t))
  {
    assert c.nets[..|c.nets|] == c.nets;
    assert c.nets[..0] == [];
  }

  lemma StrayingStep(c: Config, s: State, t: Tick)
    requires DistinctIndices(c.clients) && Inv(c, s) && Possible(c, s, t)
    requires After(c, s, t).primary == s.primary && s.primary.Some?
    requires Strays(c, s) || !Harmless(c, s, t)
    ensures Strays(c, After(c, s, t))
  {
    if Updates(c, s, t) {
      assert t.choice in c.clients && t.choice != s.primary.value;
      var k := Replaced(c, t.fault);
      if Strays(c, s) {
        var n :| n in c.nets && n in s.routes && s.routes[n] != ClientIndexFromBondingShootClientIP(s.primary.value);
        assert n in After(c, s, t).routes;
      } else {
        assert c.nets[0] in c.nets[..k];
        assert c.nets[0] in After(c, s, t).routes;
      }
    }
  }

  /** While a primary stays, the routes follow it exactly as long as every failed switch since was harmless. */
  lemma {:induction false} FollowsIff(c: Config, ticks: seq<Tick>, states: seq<State>, j: nat, k: nat)
    requires DistinctIndices(c.clients) && IsRun(c, ticks, states) && j < k <= |ticks|
    requires states[j + 1].primary != states[j].primary
    requires forall i | j < i <= k :: states[i].primary == states[j + 1].primary
    ensures Follows(c, states[k]) <==> forall i | j < i < k :: Harmless(c, states[i], ticks[i])
    ensures !Follows(c, states[k]) ==> Strays(c, states[k])
    decreases k
  {
    hide After, Possible, Harmless, Follows, Strays, DistinctIndices, Inv;
    RoundOfRun(c, ticks, states, j);
    if k > j + 1 {
      FollowsIff(c, ticks, states, j, k - 1);
      RunKeepsInv(c, ticks, states, k - 1);
      var s, t := states[k - 1], ticks[k - 1];
      if Follows(c, s) && Harmless(c, s, t) {
        QuietStep(c, s, t);
      } else {
        assert states[k].primary == s.primary && s.primary.Some?;
        StrayingStep(c, s, t);
        StraysOrFollows(c, states[k]);
      }
    }
  }

  lemma StraysOrFollows(c: Config, s: State)
    ensures !(Strays(c, s) && Follows(c, s))
  {
  }

  /** After every error-free round of every run, the primary answered that round and carries every network. */
  ghost predicate AlwaysServes(c: Config) {
    forall ticks: seq<Tick>, states: seq<State>, i: int ::
      IsRun(c, ticks, states) && 0 <= i < |ticks| && !Errs(c, states[i], ticks[i]) ==>
        states[i + 1].primary.Some? && states[i + 1].primary.value in ticks[i].answered && Follows(c, states[i + 1])
  }

  lemma {:induction false} RunFollows(c: Config, ticks: seq<Tick>, states: seq<State>, i: nat)
    requires IsRun(c, ticks, states) && i <= |ticks|
    requires |c.nets| <= 1 || !c.fits || forall a, b | a in c.clients && b in c.clients :: a == b
    ensures Follows(c, states[i])
  {
    if i > 0 {
      RunFollows(c, ticks, states, i - 1);
      RunKeepsInv(c, ticks, states, i - 1);
      var s, t := states[i - 1], ticks[i - 1];
      if Harmless(c, s, t) || s.primary.None? {
        QuietStep(c, s, t);
      }
    }
  }

  /** A round in which only b answers. */
  lemma OneAnswers(c: Config, s: State, b: Ip6, f: Fault)
    requires s.good <= c.clients && b in c.clients
    ensures var t := Tick({b}, b, f);
            && Possible(c, s, t)
            && After(c, s, t) ==
               if s.primary == Some(b) then s.(good := {b})
               else State(if Fails(c, f) then s.primary else Some(b), {b},
                          RoutedTo(s.routes, c.nets[..Replaced(c, f)], ClientIndexFromBondingShootClientIP(b)))
  {
    assert GoodAfter(c, s, Tick({b}, b, f)) == {b};
  }

  /** Two clients and two networks: a half-done switch to the second client and back leaves the first network with the
      second client, with no error in the last round. */
  lemma HalfDoneSwitch(c: Config, a: Ip6, b: Ip6)
    requires DistinctIndices(c.clients) && a in c.clients && b in c.clients && a != b
    requires c.fits && |c.nets| >= 2
    ensures !AlwaysServes(c)
  {
    hide After, Possible, RoutedTo;
    var s0 := State(None, {}, map[]);
    var t0, t1, t2 := Tick({a}, a, NoFault), Tick({b}, b, Refused(1)), Tick({a}, a, NoFault);
    OneAnswers(c, s0, a, NoFault);
    var s1 := After(c, s0, t0);
    OneAnswers(c, s1, b, Refused(1));
    var s2 := After(c, s1, t1);
    OneAnswers(c, s2, a, NoFault);
    var s3 := After(c, s2, t2);
    FirstRerouted(s1.routes, c.nets, ClientIndexFromBondingShootClientIP(b));
    assert !Errs(c, s2, t2) && !Follows(c, s3);
    var ticks, states := [t0, t1, t2], [s0, s1, s2, s3];
    ThreeRounds(c, ticks, states);
    NotAlways(c, ticks, states, 2);
  }

  lemma NotAlways(c: Config, ticks: seq<Tick>, states: seq<State>, i: nat)
    requires IsRun(c, ticks, states) && i < |ticks|
    requires !Errs(c, states[i], ticks[i]) && !Follows(c, states[i + 1])
    ensures !AlwaysServes(c)
  {
    hide Errs, Follows, After, Possible;
  }

  lemma ThreeRounds(c: Config, ticks: seq<Tick>, states: seq<State>)
    requires |ticks| == 3 && |states| == 4 && states[0].primary == None && states[0].good == {}
    requires Possible(c, states[0], ticks[0]) && states[1] == After(c, states[0], ticks[0])
    requires Possible(c, states[1], ticks[1]) && states[2] == After(c, states[1], ticks[1])
    requires Possible(c, states[2], ticks[2]) && states[3] == After(c, states[2], ticks[2])
    ensures IsRun(c, ticks, states)
  {
    hide Possible, After;
  }

  lemma FirstRerouted(routes: map<Cidr, int>, nets: seq<Cidr>, client: int)
    requires |nets| >= 1
    ensures var after := RoutedTo(routes, nets[..1], client); nets[0] in after && after[nets[0]] == client
  {
    assert nets[0] in nets[..1];
  }

  /** So error-free rounds can always be trusted exactly when no update can be half done: at most one network is
      routed, there is only one client, or updates never get to the routes. */
  lemma AlwaysServesIff(c: Config)
    requires DistinctIndices(c.clients)
    ensures AlwaysServes(c) <==>
            |c.nets| <= 1 || !c.fits || forall a, b | a in c.clients && b in c.clients :: a == b
  {
    hide After, Possible, Follows, DistinctIndices;
    if |c.nets| <= 1 || !c.fits || forall a, b | a in c.clients && b in c.clients :: a == b {
      forall ticks: seq<Tick>, states: seq<State>, i: int | IsRun(c, ticks, states) && 0 <= i < |ticks| && !Errs(c, states[i], ticks[i])
        ensures states[i + 1].primary.Some? && states[i + 1].primary.value in ticks[i].answered
        ensures Follows(c, states[i + 1])
      {
        RoundOfRun(c, ticks, states, i);
        RunFollows(c, ticks, states, i + 1);
      }
    } else {
      var a, b :| a in c.clients && b in c.clients && a != b;
      HalfDoneSwitch(c, a, b);
    }
  }

  /** The clients of a deployment have distinct indices when there are at most 256. */
  lemma PlannedClientsDistinct(net: Ip6, haVPNClients: nat)
    requires haVPNClients <= 256
    ensures DistinctIndices(set i | 0 <= i < haVPNClients :: ShootClient(net, i))
  {
    forall i | 0 <= i < haVPNClients
      ensures ClientIndexFromBondingShootClientIP(ShootClient(net, i)) == i
    {
      ClientIndexRoundTripIff(net, i);
    }
  }
}
