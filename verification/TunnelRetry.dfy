/** When the tunnel controller does not try again. */
module TunnelRetry {
  import opened Cidrs
  import opened AddressPlan
  import opened TunnelModel
  import opened TunnelReadiness

  /** The entry of r has completed an update, but its last one failed, and none is under way. */
  ghost predicate Stuck(s: State, r: Ip6, podIP: string) {
    && r in s.entries && s.entries[r].podIP == podIP
    && s.entries[r].creationComplete && s.entries[r].hasError
    && forall u <- s.started :: u.0 != r
  }

  /** Announcing the same pod IP again makes the controller retry a failed entry, at some later time, exactly when
      no update of it ever completed. */
  lemma RetriedIffNeverCompleted(s: State, r: Ip6, since: int)
    requires r in s.entries && (r, s.entries[r].podIP) !in s.started
    ensures (exists now :: now >= since && (r, s.entries[r].podIP) in AfterPacket(s, r, s.entries[r].podIP, now).started)
            <==> !s.entries[r].creationComplete
  {
    var e := s.entries[r];
    if !e.creationComplete {
      var failed := if e.lastCreationFailed.Some? then e.lastCreationFailed.value else since;
      var now := (if failed > since then failed else since) + CREATION_FAILURE_BACKOFF + 1;
      assert (r, e.podIP) in AfterPacket(s, r, e.podIP, now).started;
    }
  }

  /** When a retry starts: a packet of the same pod IP starts an update of an entry that never completed one exactly
      when none has failed yet, or the last failure is more than 30 seconds ago. */
  lemma RetryStartsIff(s: State, r: Ip6, now: int)
    requires r in s.entries && !s.entries[r].creationComplete && (r, s.entries[r].podIP) !in s.started
    ensures (r, s.entries[r].podIP) in AfterPacket(s, r, s.entries[r].podIP, now).started <==>
            s.entries[r].lastCreationFailed.None? || now - s.entries[r].lastCreationFailed.value > 30_000
  {
  }

  /** The entry of r has never completed an update; its last one failed at time f, and none is under way. */
  ghost predicate BacksOff(s: State, r: Ip6, podIP: string, f: int) {
    && r in s.entries && s.entries[r].podIP == podIP && !s.entries[r].creationComplete
    && s.entries[r].lastCreationFailed == Some(f)
    && forall u <- s.started :: u.0 != r
  }

  lemma BackOffStep(g: Setting, s: State, e: Event, r: Ip6, podIP: string, f: int)
    requires BacksOff(s, r, podIP, f) && Possible(g, s, e)
    requires e.Packet? && e.remote == r ==> e.podIP == podIP && e.now - f <= 30_000
    ensures r in After(g.parse, s, e).entries ==> BacksOff(After(g.parse, s, e), r, podIP, f)
  {
    hide KernelAfter;
  }

  /** Over runs: from a failed update at time f on, packets of the same pod IP start no update of the entry until more
      than 30 seconds later. */
  lemma {:induction false} BackoffIsKept(
      g: Setting, events: seq<Event>, states: seq<State>, i: nat, j: nat, r: Ip6, podIP: string, f: int)
    requires IsRun(g, events, states) && i < j <= |events|
    requires events[i].Update? && events[i].update == (r, podIP) && events[i].now == f
    requires !Succeeds(g.parse, podIP, events[i].fault)
    requires r in states[i].entries && !states[i].entries[r].creationComplete
    requires forall u <- states[i + 1].started :: u.0 != r
    requires forall k | i < k < j && events[k].Packet? && events[k].remote == r ::
               events[k].podIP == podIP && events[k].now - f <= 30_000
    requires forall k | i < k <= j :: r in states[k].entries
    ensures BacksOff(states[j], r, podIP, f)
    decreases j
  {
    hide KernelAfter, Possible, AfterPacket, AfterClean;
    if j == i + 1 {
      assert states[j] == After(g.parse, states[i], events[i]);
    } else {
      BackoffIsKept(g, events, states, i, j - 1, r, podIP, f);
      BackOffStep(g, states[j - 1], events[j - 1], r, podIP, f);
    }
  }

  lemma StuckStep(g: Setting, s: State, e: Event, r: Ip6, podIP: string)
    requires Stuck(s, r, podIP) && Possible(g, s, e)
    requires e.Packet? && e.remote == r ==> e.podIP == podIP
    ensures r in After(g.parse, s, e).entries ==> Stuck(After(g.parse, s, e), r, podIP)
  {
    hide KernelAfter;
  }

  /** A failure after a success lasts: as long as the kube-apiserver announces the same pod IP and is not cleaned up,
      its entry is never updated again and keeps the client unready. What it announced before does not matter. */
  lemma {:induction false} FailureAfterSuccessLasts(
      g: Setting, events: seq<Event>, states: seq<State>, i: nat, j: nat, r: Ip6, podIP: string)
    requires IsRun(g, events, states) && i <= j <= |events|
    requires Stuck(states[i], r, podIP)
    requires forall k :: i <= k < j && events[k].Packet? && events[k].remote == r ==> events[k].podIP == podIP
    requires forall k :: i <= k <= j ==> r in states[k].entries
    ensures Stuck(states[j], r, podIP) && !IsReady(states[j])
    decreases j
  {
    hide After, Possible;
    if i < j {
      FailureAfterSuccessLasts(g, events, states, i, j - 1, r, podIP);
      StuckStep(g, states[j - 1], events[j - 1], r, podIP);
    }
  }

  /** Started updates and entries are claimed, and a completed entry was once announced with a pod IP that can be read. */
  ghost predicate Explained(g: Setting, s: State) {
    && (forall u <- s.started :: u in g.claims)
    && (forall r <- s.entries :: (r, s.entries[r].podIP) in g.claims)
    && (forall r <- s.entries :: s.entries[r].creationComplete ==> CanSucceed(g, r))
  }

  ghost predicate CanSucceed(g: Setting, r: Ip6) {
    exists podIP :: (r, podIP) in g.claims && g.parse(podIP).Some?
  }

  lemma {:induction false} RunIsExplained(g: Setting, events: seq<Event>, states: seq<State>, i: nat)
    requires IsRun(g, events, states) && i <= |events|
    ensures Explained(g, states[i])
  {
    hide KernelAfter, AfterClean;
    if i > 0 {
      RunIsExplained(g, events, states, i - 1);
      match events[i - 1]
      case Packet(_, _, _) =>
      case Update(u, _, f, _) =>
        if Succeeds(g.parse, u.1, f) {
          assert (u.0, u.1) in g.claims;
        }
      case Clean(now, failing) => CleanedFewer(states[i - 1], now, failing);
    }
  }

  lemma CleanedFewer(s: State, now: int, failing: set<Ip6>)
    ensures var t := AfterClean(s, now, failing);
            t.started == s.started && forall r <- t.entries :: r in s.entries && t.entries[r] == s.entries[r]
  {
  }

  /** A pod IP that replaces a working one, and whose update fails. */
  lemma StuckByChange(g: Setting, r: Ip6, first: string, podIP: string) returns (s: State)
    requires (r, first) in g.claims && g.parse(first).Some? && (r, podIP) in g.claims && podIP != first
    ensures Reachable(g, s) && Stuck(s, r, podIP)
  {
    hide Reachable, KernelAfter;
    EmptyReachable(g);
    var one := SetUp(g, EMPTY, (r, first));
    ReachableStep(g, one, Packet(r, podIP, 0));
    var two := After(g.parse, one, Packet(r, podIP, 0));
    assert two.started == {(r, podIP)};
    ReachableStep(g, two, Update((r, podIP), 0, RouteFails, false));
    s := After(g.parse, two, Update((r, podIP), 0, RouteFails, false));
  }

  /** Two packets in quick succession start two updates, of which the second fails. */
  lemma StuckByHaste(g: Setting, r: Ip6, podIP: string) returns (s: State)
    requires (r, podIP) in g.claims && g.parse(podIP).Some?
    ensures Reachable(g, s) && Stuck(s, r, podIP)
  {
    hide Reachable, KernelAfter;
    var c := (r, podIP);
    EmptyReachable(g);
    var p := Packet(r, podIP, 0);
    ReachableStep(g, EMPTY, p);
    var one := After(g.parse, EMPTY, p);
    ReachableStep(g, one, p);
    var two := After(g.parse, one, p);
    assert two.started == {c};
    ReachableStep(g, two, Update(c, 0, NoFault, true));
    var three := After(g.parse, two, Update(c, 0, NoFault, true));
    ReachableStep(g, three, Update(c, 0, RouteFails, false));
    s := After(g.parse, three, Update(c, 0, RouteFails, false));
  }

  /** A kube-apiserver can get stuck with a pod IP exactly when it announces that pod IP, and at some time one that can
      be read. */
  lemma StuckIff(g: Setting, r: Ip6, podIP: string)
    ensures (exists s :: Reachable(g, s) && Stuck(s, r, podIP)) <==> (r, podIP) in g.claims && CanSucceed(g, r)
  {
    hide Stuck, After, Possible;
    if (r, podIP) in g.claims && CanSucceed(g, r) {
      var first :| (r, first) in g.claims && g.parse(first).Some?;
      var s;
      if podIP == first {
        s := StuckByHaste(g, r, podIP);
      } else {
        s := StuckByChange(g, r, first, podIP);
      }
      assert Reachable(g, s) && Stuck(s, r, podIP);
    }
    forall s | Reachable(g, s) && Stuck(s, r, podIP) ensures (r, podIP) in g.claims && CanSucceed(g, r) {
      var events, states :| IsRun(g, events, states) && states[|events|] == s;
      RunIsExplained(g, events, states, |events|);
      StuckEntry(s, r, podIP);
    }
  }

  lemma StuckEntry(s: State, r: Ip6, podIP: string)
    requires Stuck(s, r, podIP)
    ensures r in s.entries && s.entries[r].podIP == podIP && s.entries[r].creationComplete
  {
  }
}
