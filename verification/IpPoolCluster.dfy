/** The cluster the brokers share, as a place where one broker's calls meet everybody else's, and the pool manager on
    top of it (pkg/ippool/manager.go). Whatever happens is an event of the protocol, so a history is a run of it. */
module IpPoolCluster {
  import opened Cidrs
  import opened AddressPlan
  import opened IpPoolStore
  import opened IpPoolProtocol

  class Cluster {
    const c: Params
    var world: State           // the store, the writes under way, the clock, and where each pod's process stands
    ghost var events: seq<Event>
    ghost var states: seq<State>

    /** The history is a run of the timed system. */
    ghost predicate Valid()
      reads this
    {
      IsRun(c, events, states) && states[|events|] == world
    }

    constructor (c: Params)
      ensures Valid() && this.c == c && events == [] && world == State(map p | p in c.names :: FRESH, 0)
    {
      this.c := c;
      world := State(map p | p in c.names :: FRESH, 0);
      events := [];
      states := [State(map p | p in c.names :: FRESH, 0)];
    }

    /** One event; events of a pod that does not exist are none. */
    method Step(e: Event)
      requires Valid() && (e.Tick? || e.pod in world.pods ==> Possible(c, world, e) && InTime(c, world, e))
      modifies this
      ensures Valid() && world == After(old(world), e) && world.pods.Keys == old(world).pods.Keys
      ensures events == (if e.Tick? || e.pod in old(world).pods then old(events) + [e] else old(events))
      ensures old(states) <= states
    {
      if e.Tick? || e.pod in world.pods {
        RunStep(c, events, states, e);
        world := After(world, e);
        events := events + [e];
        states := states + [world];
      }
    }

    /** Lets the pod's writes become visible. */
    method LandOf(p: Pod)
      requires Valid() && p in world.pods
      modifies this
      ensures Valid() && world.now == old(world).now && SamePlaces(world, old(world))
      ensures old(events) <= events && old(states) <= states
      ensures forall k | |old(events)| <= k < |events| :: events[k].Land?
      ensures world.pods[p].pending == {}
      ensures forall q <- world.pods :: q != p ==> world.pods[q] == old(world).pods[q]
    {
      hide IsRun, After, InTime;
      while world.pods[p].pending != {}
        invariant Valid() && world.now == old(world).now && SamePlaces(world, old(world))
        invariant old(events) <= events && old(states) <= states
        invariant forall k | |old(events)| <= k < |events| :: events[k].Land?
        invariant forall q <- world.pods :: q != p ==> world.pods[q] == old(world).pods[q]
        decreases |world.pods[p].pending|
      {
        var w :| w in world.pods[p].pending;
        LandStep(c, world, p, w);
        Step(Land(p, w));
      }
    }

    /** Lets all writes under way become visible. */
    method LandAll()
      requires Valid()
      modifies this
      ensures Valid() && world.now == old(world).now && SamePlaces(world, old(world))
      ensures old(events) <= events && old(states) <= states
      ensures forall k | |old(events)| <= k < |events| :: events[k].Land?
      ensures forall p <- world.pods :: world.pods[p].pending == {}
    {
      hide IsRun, After;
      var todo := world.pods.Keys;
      while todo != {}
        invariant Valid() && world.now == old(world).now && SamePlaces(world, old(world)) && todo <= world.pods.Keys
        invariant old(events) <= events && old(states) <= states
        invariant forall k | |old(events)| <= k < |events| :: events[k].Land?
        invariant forall p <- world.pods :: p !in todo ==> world.pods[p].pending == {}
        decreases todo
      {
        var p :| p in todo;
        LandOf(p);
        todo := todo - {p};
      }
    }

    /** Whatever else happens between two calls of a pod's process, and at least the given time passes: any events of
        other pods, and its own writes become visible. */
    method OthersAct(own: Pod, least: nat)
      requires Valid()
      modifies this
      ensures Valid() && world.now >= old(world).now + least
      ensures world.pods.Keys == old(world).pods.Keys
      ensures own in world.pods ==> world.pods[own].pc == old(world).pods[own].pc
      ensures old(events) <= events && old(states) <= states
      ensures forall k | |old(events)| <= k < |events| :: IsForeign(events[k], own)
    {
      var until := world.now + least;
      var script: seq<Event> := *;
      for i := 0 to |script|
        invariant Valid() && world.now >= old(world).now && world.pods.Keys == old(world).pods.Keys
        invariant own in world.pods ==> world.pods[own].pc == old(world).pods[own].pc
        invariant old(events) <= events && old(states) <= states
        invariant forall k | |old(events)| <= k < |events| :: IsForeign(events[k], own)
      {
        if IsForeign(script[i], own) && Possible(c, world, script[i]) && InTime(c, world, script[i]) {
          ForeignStep(c, world, script[i], own);
          Step(script[i]);
        }
      }
      LandAll();
      if world.now < until {
        Step(Tick(until));
      }
    }
  }

  /** Not an event of own's process. */
  predicate IsForeign(e: Event, own: Pod) {
    e.Tick? || e.pod != own || e.Land?
  }

  /** The same pods, with their processes where they were. */
  ghost predicate SamePlaces(s: State, t: State) {
    s.pods.Keys == t.pods.Keys && forall p <- s.pods :: s.pods[p].pc == t.pods[p].pc
  }

  lemma RunStep(c: Params, events: seq<Event>, states: seq<State>, e: Event)
    requires IsRun(c, events, states) && Possible(c, states[|events|], e) && InTime(c, states[|events|], e)
    ensures IsRun(c, events + [e], states + [After(states[|events|], e)])
    ensures After(states[|events|], e).pods.Keys == states[|events|].pods.Keys
  {
  }

  lemma LandStep(c: Params, s: State, p: Pod, w: Write)
    requires p in s.pods && w in s.pods[p].pending
    ensures InTime(c, s, Land(p, w))
    ensures var t := After(s, Land(p, w));
            && SamePlaces(t, s) && t.now == s.now && t.pods[p].pending == s.pods[p].pending - {w}
            && forall q <- t.pods :: q != p ==> t.pods[q] == s.pods[q]
  {
  }

  lemma ForeignStep(c: Params, s: State, e: Event, own: Pod)
    requires IsForeign(e, own) && Possible(c, s, e)
    ensures After(s, e).now >= s.now
    ensures own in s.pods ==> own in After(s, e).pods && After(s, e).pods[own].pc == s.pods[own].pc
  {
  }

  /** The manager of one process. Its calls to the API server are counted; plan says which of them fail, and how. */
  class PodIPPoolManager {
    const pods: Cluster
    const plan: nat -> Fault
    var calls: nat

    constructor (pods: Cluster, plan: nat -> Fault)
      ensures this.pods == pods && this.plan == plan && calls == 0
    {
      this.pods, this.plan, calls := pods, plan, 0;
    }

    /** UsageLookup: the loop over the listed pods, in any order. */
    method UsageLookup(podName: Pod) returns (r: Option<Lookup>)
      modifies this`calls
      ensures calls == old(calls) + 1
      ensures r == if plan(old(calls)) == NoFault then Some(See(pods.world, podName)) else None
    {
      calls := calls + 1;
      if plan(calls - 1) != NoFault {
        return None;
      }
      var podList := Store(pods.world);
      var ownIP, ownUsed := None, false;
      var foreignUsed: set<Ip6>, foreignReserved: set<Ip6> := {}, {};
      var todo := podList.Keys;
      while todo != {}
        invariant todo <= podList.Keys
        invariant podName in todo ==> ownIP == None && !ownUsed
        invariant podName !in todo ==>
                    ownIP == LookupOf(podList, podName).ownIP && ownUsed == LookupOf(podList, podName).ownUsed
        invariant foreignUsed ==
                  set p | p in podList && p !in todo && p != podName && podList[p].used.Some? :: podList[p].used.value
        invariant foreignReserved ==
                  set p | p in podList && p !in todo && p != podName && podList[p].used.None? && podList[p].reserved.Some?
                       :: podList[p].reserved.value
      {
        var pod :| pod in todo;
        var ip, used := podList[pod].used, true;
        if ip.None? {
          used := false;
          ip := podList[pod].reserved;
        }
        if ip.Some? {
          if pod == podName {
            ownIP, ownUsed := ip, used;
          } else if used {
            foreignUsed := foreignUsed + {ip.value};
          } else {
            foreignReserved := foreignReserved + {ip.value};
          }
        }
        todo := todo - {pod};
      }
      assert foreignUsed == LookupOf(podList, podName).foreignUsed;
      assert foreignReserved == LookupOf(podList, podName).foreignReserved;
      r := Some(Lookup(ownIP, ownUsed, foreignUsed, foreignReserved));
    }

    /** SetIPAddress: sends a patch of the one key of an existing pod, to become visible within the bound. It is a step
        of the pod's process, so the protocol must have the pod at a point where it writes this. */
    method SetIPAddress(podName: Pod, ip: Ip6, used: bool) returns (ok: bool, sent: Option<Event>)
      requires pods.Valid()
      requires podName in pods.world.pods ==> MayWrite(pods.c, pods.world.pods[podName].pc, ip, used)
      modifies this`calls, pods
      ensures calls == old(calls) + 1
      ensures pods.Valid() && pods.world.pods.Keys == old(pods.world).pods.Keys && pods.world.now == old(pods.world).now
      ensures old(pods.events) <= pods.events && old(pods.states) <= pods.states
      ensures ok <==> podName in old(pods.world).pods && plan(old(calls)) == NoFault
      ensures sent.Some? <==> podName in old(pods.world).pods && plan(old(calls)) != FailsWithoutEffect
      ensures sent.None? ==> pods.world == old(pods.world) && pods.events == old(pods.events)
      ensures sent.Some? ==>
                && pods.events == old(pods.events) + [sent.value]
                && pods.world == After(old(pods.world), sent.value)
                && exists deadline :: sent.value == WriteEvent(podName, ip, used, deadline)
    {
      calls := calls + 1;
      var fault := plan(calls - 1);
      if podName !in pods.world.pods || fault == FailsWithoutEffect {
        return false, None;
      }
      var deadline: nat := *;
      if deadline < pods.world.now || deadline > pods.world.now + pods.c.visibility {
        deadline := pods.world.now;
      }
      var e := WriteEvent(podName, ip, used, deadline);
      RunStep(pods.c, pods.events, pods.states, e);
      pods.Step(e);
      return fault == NoFault, Some(e);
    }
  }

  function WriteEvent(pod: Pod, ip: Ip6, used: bool, deadline: nat): Event {
    if used then Use(pod, deadline) else Reserve(pod, ip, deadline)
  }

  /** The process is about to reserve the free ip, or to mark the ip that its lookup shows. */
  predicate MayWrite(c: Params, pc: PC, ip: Ip6, used: bool) {
    if used then pc.Checked? && !pc.seen.ownUsed && pc.seen.ownIP == Some(ip)
    else pc.Looked? && !HasConflict(pc.seen, Some(ip)) && ip in c.pool
  }
}
