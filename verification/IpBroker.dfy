/** The broker of one pod (pkg/ippool/broker.go), proved to take only steps that the timed protocol allows. */
module IpBroker {
  import opened Cidrs
  import opened AddressPlan
  import opened IpPoolStore
  import opened IpPoolProtocol
  import opened IpPoolAtomic
  import opened IpPoolCluster

  datatype AcquireError = LookupFailed | NoFreeAddress | SetFailed | OwnIPUndefined | StillConflicting

  datatype Acquired = Acquired(ip: Ip6) | Failed(error: AcquireError)

  /** checkRange. */
  predicate ValidRange(startIndex: int, endIndex: int) {
    0 <= startIndex < endIndex <= 0xffff
  }

  /** The addresses of a range. */
  ghost predicate InPool(base: Ip6, startIndex: int, endIndex: int, ip: Ip6)
    requires ValidRange(startIndex, endIndex)
  {
    exists index: nat :: startIndex <= index <= endIndex && ip == PoolAddress(base, index, endIndex)
  }

  /** A draw of the range whose address another pod has. */
  ghost predicate Taken(base: Ip6, startIndex: int, endIndex: int, l: Lookup, index: nat) {
    startIndex <= index <= endIndex && PoolAddress(base, index, endIndex) in l.foreignUsed + l.foreignReserved
  }

  /** A thousand draws can all meet taken addresses. */
  ghost predicate Crowded(base: Ip6, startIndex: int, endIndex: int, l: Lookup) {
    exists draws: seq<nat> :: |draws| == 1000 && forall d <- draws :: Taken(base, startIndex, endIndex, l, d)
  }

  ghost predicate NoFaults(plan: nat -> Fault, from: nat, to: nat) {
    forall i: nat | from <= i < to :: plan(i) == NoFault
  }

  /** Event i is a re-check of the pod that finds its reserved IP taken. */
  ghost predicate Conflicted(own: Pod, events: seq<Event>, states: seq<State>, i: nat) {
    && i < |events| && i < |states| && events[i] == Recheck(own) && own in states[i].pods
    && states[i].pods[own].pc.Waiting? && HasConflict(See(states[i], own), Some(states[i].pods[own].pc.ip))
  }

  /** The events at the given places, from n on and in order, are such re-checks. */
  ghost predicate Conflicts(own: Pod, events: seq<Event>, states: seq<State>, n: nat, at: seq<nat>) {
    && (forall j | 0 <= j < |at| :: n <= at[j] && Conflicted(own, events, states, at[j]))
    && forall j, k | 0 <= j < k < |at| :: at[j] < at[k]
  }

  /** History does not change. */
  lemma StillConflicted(own: Pod, events: seq<Event>, states: seq<State>, n: nat, at: seq<nat>,
                        later: seq<Event>, laterStates: seq<State>)
    requires Conflicts(own, events, states, n, at) && events <= later && states <= laterStates
    ensures Conflicts(own, later, laterStates, n, at)
  {
  }

  lemma NothingYet(n: nat)
    ensures forall own, events, states :: Conflicts(own, events, states, n, [])
    ensures forall plan, k :: NoFaults(plan, k, k)
  {
  }

  lemma OneMoreConflict(own: Pod, events: seq<Event>, states: seq<State>, n: nat, at: seq<nat>,
                        later: seq<Event>, laterStates: seq<State>, m: nat, place: nat)
    requires Conflicts(own, events, states, n, at) && events <= later && states <= laterStates
    requires (forall j | 0 <= j < |at| :: at[j] < m) && n <= m <= place && Conflicted(own, later, laterStates, place)
    ensures Conflicts(own, later, laterStates, n, at + [place])
  {
    StillConflicted(own, events, states, n, at, later, laterStates);
  }

  lemma CalmThen(plan: nat -> Fault, a: nat, b: nat, c: nat)
    requires NoFaults(plan, a, b) && a <= b <= c
    ensures NoFaults(plan, b, c) ==> NoFaults(plan, a, c)
    ensures c > b && NoFaults(plan, b, c - 1) ==> NoFaults(plan, a, c - 1)
  {
  }

  class IPAddressBroker {
    const manager: PodIPPoolManager
    const base: Ip6
    const ownName: Pod
    const waitTime: nat
    var startIndex: int
    var endIndex: int
    var ownIP: Option<Ip6>
    var ownUsed: bool

    ghost predicate Valid()
      reads this`startIndex, this`endIndex
    {
      ValidRange(startIndex, endIndex)
    }

    constructor (manager: PodIPPoolManager, vpnNetworkIP: Ip6, podName: Pod, waitTime: nat)
      ensures Valid() && this.manager == manager && base == SeedBase(vpnNetworkIP) && ownName == podName
      ensures this.waitTime == waitTime && startIndex == 1 && endIndex == 0xffff && ownIP == None && !ownUsed
    {
      this.manager := manager;
      this.base := SeedBase(vpnNetworkIP);
      this.ownName := podName;
      this.waitTime := waitTime;
      startIndex, endIndex, ownIP, ownUsed := 1, 0xffff, None, false;
    }

    method SetStartAndEndIndex(startIndex: int, endIndex: int) returns (ok: bool)
      requires Valid()
      modifies this
      ensures Valid() && ownIP == old(ownIP) && ownUsed == old(ownUsed)
      ensures ok <==> 0 <= startIndex < endIndex <= 0xffff
      ensures (this.startIndex, this.endIndex) ==
              if ok then (startIndex, endIndex) else (old(this.startIndex), old(this.endIndex))
    {
      if startIndex < 0 || endIndex <= startIndex || endIndex > 0xffff {
        return false;
      }
      this.startIndex := startIndex;
      this.endIndex := endIndex;
      return true;
    }

    /** findFreeIPAddress: up to 1000 random draws; the first address that the lookup does not show as taken is
        returned, so there is none only if all draws were taken ones. That does not mean that the range is full. */
    method FindFreeIPAddress(l: Lookup) returns (ip: Option<Ip6>)
      requires Valid()
      ensures ip.Some? ==> InPool(base, startIndex, endIndex, ip.value)
      ensures ip.Some? ==> ip.value !in l.foreignUsed && ip.value !in l.foreignReserved
      ensures ip.None? ==>
                exists draws: seq<nat> :: |draws| == 1000 && forall d <- draws ::
                  startIndex <= d <= endIndex && PoolAddress(base, d, endIndex) in l.foreignUsed + l.foreignReserved
    {
      ghost var draws: seq<nat> := [];
      for i := 0 to 1000
        invariant |draws| == i && forall d <- draws :: Taken(base, startIndex, endIndex, l, d)
      {
        var index: nat :| startIndex <= index <= endIndex;
        var candidate := base[15 := LowByte(index)];
        if endIndex > 0xff {
          candidate := candidate[14 := LowByte(index / 256)];
        }
        assert candidate == PoolAddress(base, index, endIndex);
        if candidate !in l.foreignUsed && candidate !in l.foreignReserved {
          return Some(candidate);
        }
        assert Taken(base, startIndex, endIndex, l, index);
        draws := draws + [index];
      }
      return None;
    }

    /** The broker fits the parameters of the cluster: they count on no longer a wait, and on a pool that has its range.
        As a run reserves from the pool only, taking the range for the pool says that it reserves from its range. */
    ghost predicate Fits()
      reads this`startIndex, this`endIndex
    {
      && Valid() && manager.pods.c.wait <= waitTime
      && forall ip :: InPool(base, startIndex, endIndex, ip) ==> ip in manager.pods.c.pool
    }

    /** The history is a run, and it has grown since it was (events, states). */
    ghost predicate Goes(events: seq<Event>, states: seq<State>)
      reads manager.pods
    {
      manager.pods.Valid() && events <= manager.pods.events && states <= manager.pods.states
    }

    ghost predicate Here()
      reads manager.pods
    {
      ownName in manager.pods.world.pods
    }

    /** Where this pod's process stands in the protocol. */
    ghost function Place(): PC
      requires Here()
      reads manager.pods
    {
      manager.pods.world.pods[ownName].pc
    }

    /** The calls since there were k went well; or all but the last did. */
    ghost predicate Calm(k: nat)
      reads manager
    {
      NoFaults(manager.plan, k, manager.calls)
    }

    ghost predicate LastFaulted(k: nat)
      reads manager
    {
      k < manager.calls && manager.plan(manager.calls - 1) != NoFault && NoFaults(manager.plan, k, manager.calls - 1)
    }

    /** What must have happened for the error, since there were k calls and n events: the last call failed; the pod does
        not exist; a lookup since then showed a crowded range; or 30 re-checks found a conflict. */
    ghost predicate Explained(error: AcquireError, k: nat, n: nat)
      reads this`startIndex, this`endIndex, manager, manager.pods
    {
      match error
      case LookupFailed => LastFaulted(k)
      case SetFailed => LastFaulted(k) || (!Here() && Calm(k))
      case NoFreeAddress =>
        Calm(k) && exists i | n <= i < |manager.pods.states| :: Crowded(base, startIndex, endIndex, See(manager.pods.states[i], ownName))
      case OwnIPUndefined => Calm(k)
      case StillConflicting =>
        Calm(k) && exists at :: |at| == 30 && Conflicts(ownName, manager.pods.events, manager.pods.states, n, at)
    }

    /** announceIPAddress. The IP marked as used is the one the lookup reports, not the broker's field. */
    method AnnounceIPAddress(used: bool, l: Lookup) returns (err: Option<AcquireError>)
      requires Fits() && manager.pods.Valid()
      requires Here() ==> if used then Place().Checked? && Place().seen == l else Place().Looked? && Place().seen == l
      modifies this`ownIP, this`ownUsed, manager`calls, manager.pods
      ensures Goes(old(manager.pods.events), old(manager.pods.states)) && Here() == old(Here())
      ensures err == Some(NoFreeAddress) ==> !used && Crowded(base, startIndex, endIndex, l)
      ensures err == Some(SetFailed) ==> LastFaulted(old(manager.calls)) || (!Here() && Calm(old(manager.calls)))
      ensures err != Some(SetFailed) ==> Calm(old(manager.calls))
      ensures err.Some? ==> err.value in {NoFreeAddress, SetFailed, OwnIPUndefined}
      ensures manager.calls >= old(manager.calls)
      ensures l.ownUsed ==> err.None? && ownIP == old(ownIP)
      ensures err == Some(OwnIPUndefined) <==> !l.ownUsed && used && l.ownIP.None?
      ensures err.Some? ==> ownIP == old(ownIP)
      ensures !l.ownUsed && err.None? ==>
                && Here() && ownUsed == used && ownIP.Some?
                && if used then ownIP == l.ownIP else InPool(base, startIndex, endIndex, ownIP.value) && !HasConflict(l, ownIP)
      ensures Here() && used && err.None? ==>
                Place() == Holding(if l.ownUsed then old(Place()).ip else l.ownIP.value)
      ensures Here() && !used && !l.ownUsed && err.None? ==>
                Place() == Waiting(old(Place()).try, ownIP.value, manager.pods.world.now)
      ensures Here() && err == Some(OwnIPUndefined) ==> Place().Down?
      ensures Here() && err.Some? && err != Some(OwnIPUndefined) ==> !Place().Down?
    {
      hide InPool, IsRun, Store, LookupOf, Crowded;
      if l.ownUsed {
        if used {
          manager.pods.Step(Use(ownName, manager.pods.world.now));
        }
        return None;
      }
      var ip: Option<Ip6>;
      if used {
        ip := l.ownIP;
        if ip.None? {
          manager.pods.Step(Use(ownName, manager.pods.world.now));
          return Some(OwnIPUndefined);
        }
      } else {
        ip := FindFreeIPAddress(l);
        if ip.None? {
          AllTaken(l);
          return Some(NoFreeAddress);
        }
      }
      var ok, sent := manager.SetIPAddress(ownName, ip.value, used);
      if !ok {
        return Some(SetFailed);
      }
      ownIP := ip;
      ownUsed := used;
      return None;
    }

    /** The process ends with an error. */
    method GiveUp()
      requires Valid() && manager.pods.Valid() && (Here() ==> !Place().Down?)
      modifies manager.pods
      ensures Goes(old(manager.pods.events), old(manager.pods.states)) && Here() == old(Here())
      ensures Here() ==> Place().Down?
    {
      manager.pods.Step(Crash(ownName));
    }

    /** Time passes and others act. */
    method Sleep(time: nat)
      requires Valid() && manager.pods.Valid()
      modifies manager.pods
      ensures Goes(old(manager.pods.events), old(manager.pods.states)) && Here() == old(Here())
      ensures manager.pods.world.now >= old(manager.pods.world).now + time
      ensures Here() ==> Place() == old(Place())
    {
      manager.pods.OthersAct(ownName, time);
    }

    /** getExistingIPAddresses: the lookup of the protocol's step e, which shows the store as it is. A failing lookup
        ends the process. */
    method GetExistingIPAddresses(e: Event) returns (l: Option<Lookup>)
      requires Valid() && manager.pods.Valid() && e in {FirstLookup(ownName), Recheck(ownName)}
      requires Here() ==> PCAllows(manager.pods.world.pods[ownName], e) && InTime(manager.pods.c, manager.pods.world, e)
      modifies manager`calls, manager.pods
      ensures Goes(old(manager.pods.events), old(manager.pods.states)) && Here() == old(Here())
      ensures manager.calls >= old(manager.calls)
      ensures if l.None? then LastFaulted(old(manager.calls)) else Calm(old(manager.calls))
      ensures l.Some? && Here() ==> manager.pods.events == old(manager.pods.events) + [e]
      ensures l.None? ==> (Here() ==> Place().Down?)
      ensures l.Some? ==> l.value == See(old(manager.pods.world), ownName) && (l.value.ownUsed ==> Here() && l.value.ownIP.Some?)
      ensures l.Some? && Here() ==> Place() == PlaceAfter(old(Place()), l.value, old(manager.pods.world).now, e)
    {
      hide IsRun, Store;
      l := manager.UsageLookup(ownName);
      if l.None? {
        GiveUp();
        return;
      }
      SeesItself(manager.pods.world, ownName);
      manager.pods.Step(e);
    }

    /** The lookup a round starts with; look is the place in history that it shows. */
    method FirstLook(try: nat) returns (l: Option<Lookup>, ghost look: nat)
      requires Valid() && manager.pods.Valid() && (Here() ==> Place() == Start(try))
      modifies manager`calls, manager.pods
      ensures Goes(old(manager.pods.events), old(manager.pods.states)) && Here() == old(Here())
      ensures manager.calls >= old(manager.calls)
      ensures if l.None? then LastFaulted(old(manager.calls)) && (Here() ==> Place().Down?) else Calm(old(manager.calls))
      ensures l.Some? ==>
                && |old(manager.pods.events)| <= look < |manager.pods.states|
                && l.value == See(manager.pods.states[look], ownName)
                && (l.value.ownUsed ==> Here() && l.value.ownIP.Some?)
                && (Here() ==> Place() == if l.value.ownUsed then Holding(l.value.ownIP.value) else Looked(try, l.value))
    {
      hide InPool, IsRun, Store, LookupOf, See, PlaceAfter, HasConflict, Cluster.Valid, PodAfter, After, Possible, NoFaults;
      Sleep(0);
      ghost var now := manager.pods.world.now;
      look := |manager.pods.events|;
      PresentState();
      l := GetExistingIPAddresses(FirstLookup(ownName));
      if l.Some? {
        AfterFirstLookup(ownName, try, l.value, now);
      }
    }

    /** The first half of a round of AcquireIP's loop: look up and reserve. */
    method Reserve(try: nat) returns (o: Outcome)
      requires Fits() && manager.pods.Valid() && (Here() ==> Place() == Start(try))
      modifies this`ownIP, this`ownUsed, manager`calls, manager.pods
      ensures Goes(old(manager.pods.events), old(manager.pods.states)) && Here() == old(Here())
      ensures manager.calls >= old(manager.calls) && (!o.Gone? ==> Here() && Calm(old(manager.calls)))
      ensures o.Gone? ==> o.error in {LookupFailed, NoFreeAddress, SetFailed}
                          && Explained(o.error, old(manager.calls), |old(manager.pods.events)|)
      ensures o.Gone? ==> (Here() ==> Place().Down?)
      ensures o.Reused? ==> Place() == Holding(o.ip)
      ensures o.Reserved? ==> ownIP.Some? && Place() == Waiting(try, ownIP.value, manager.pods.world.now)
      ensures !o.Rechecked?
    {
      hide InPool, IsRun, Store, LookupOf, See, HasConflict, Cluster.Valid, Crowded, NoFaults, Explained;
      ghost var k, n := manager.calls, |manager.pods.events|;
      var result;
      ghost var look;
      result, look := FirstLook(try);
      if result.None? {
        LookupExplained(k, n);
        return Gone(LookupFailed);
      }
      if result.value.ownUsed {
        return Reused(result.value.ownIP.value);
      }
      Sleep(0);
      ghost var calm := manager.calls;
      var err := AnnounceIPAddress(false, result.value);
      CalmThen(manager.plan, k, calm, manager.calls);
      if err.Some? {
        GiveUp();
        ReserveExplained(err.value, k, n, look);
        return Gone(err.value);
      }
      return Reserved;
    }

    /** The second half: wait and look again. If that finds a conflict, at is the place of the re-check in history. */
    method CheckAgain(try: nat) returns (o: Outcome, ghost at: nat)
      requires Fits() && manager.pods.Valid() && Here() && ownIP.Some?
      requires Place() == Waiting(try, ownIP.value, manager.pods.world.now)
      modifies manager`calls, manager.pods
      ensures Goes(old(manager.pods.events), old(manager.pods.states)) && Here()
      ensures manager.calls >= old(manager.calls)
      ensures if o.Gone? then o.error == LookupFailed && LastFaulted(old(manager.calls)) && Place().Down?
              else o.Rechecked? && Calm(old(manager.calls))
      ensures o.Rechecked? ==>
                if !HasConflict(o.seen, ownIP) then Place() == Checked(o.seen, ownIP.value)
                else if try < ACQUIRE_TRIES then Place() == Start(try + 1) else Place().Down?
      ensures o.Rechecked? && HasConflict(o.seen, ownIP) ==>
                |old(manager.pods.events)| <= at < |manager.pods.events|
                && Conflicted(ownName, manager.pods.events, manager.pods.states, at)
    {
      hide InPool, IsRun, Store, LookupOf, See, PlaceAfter, HasConflict, Cluster.Valid, PodAfter, After, Possible,
        NoFaults, Conflicted;
      ghost var since := manager.pods.world.now;
      Sleep(waitTime);
      at := |manager.pods.events|;
      PresentState();
      ghost var world := manager.pods.world;
      var result := GetExistingIPAddresses(Recheck(ownName));
      if result.None? {
        return Gone(LookupFailed), at;
      }
      AfterRecheck(ownName, try, ownIP.value, since, result.value, world.now);
      assert manager.pods.states[at] == world && manager.pods.events[at] == Recheck(ownName);
      RecheckFound(ownName, manager.pods.events, manager.pods.states, at);
      return Rechecked(result.value), at;
    }

    /** The present is the last state of the history. */
    lemma PresentState()
      requires manager.pods.Valid()
      ensures |manager.pods.states| == |manager.pods.events| + 1
      ensures manager.pods.states[|manager.pods.events|] == manager.pods.world
    {
    }

    /** AcquireIP: reserve, wait, look again, and use the address if nobody else has it. Other pods act between any two
        calls, and any call may fail. The history stays a run of the timed protocol throughout, in which the process
        goes from the start to holding the address returned, or ends. Hence, where runs can be trusted, nobody else
        has, or is about to have, the address. */
    method AcquireIP() returns (r: Acquired)
      requires Fits() && manager.pods.Valid() && (Here() ==> Place() == Start(1))
      modifies this`ownIP, this`ownUsed, manager`calls, manager.pods
      ensures Goes(old(manager.pods.events), old(manager.pods.states)) && Here() == old(Here())
      ensures r.Acquired? ==> Here() && Place() == Holding(r.ip)
      ensures r.Failed? ==> (Here() ==> Place().Down?)
      ensures if r.Acquired? then Calm(old(manager.calls))
              else Explained(r.error, old(manager.calls), |old(manager.pods.events)|)
      ensures (manager.pods.c.visibility < manager.pods.c.wait && manager.pods.c.visibility < manager.pods.c.restart)
              || Prompt(manager.pods.events, manager.pods.states) ==>
                && (r.Failed? ==> r.error != OwnIPUndefined)
                && (r.Acquired? ==>
                      forall p <- manager.pods.world.pods :: p != ownName ==> !Claims(manager.pods.world.pods[p], r.ip))
    {
      hide InPool, IsRun, Store, LookupOf, See, Prompt, Claims, NoFaults, Conflicts, Conflicted, Crowded, Explained;
      ghost var k, n, at: seq<nat> := manager.calls, |manager.pods.events|, [];
      NothingYet(n);
      var result := NOTHING_SEEN;
      var i := 0;
      while i < ACQUIRE_TRIES
        invariant 0 <= i <= ACQUIRE_TRIES
        invariant Goes(old(manager.pods.events), old(manager.pods.states)) && Here() == old(Here())
        invariant Here() ==> if i < ACQUIRE_TRIES then Place() == Start(i + 1) else Place().Down?
        invariant i > 0 ==> HasConflict(result, ownIP)
        invariant manager.calls >= k && Calm(k)
        invariant |at| == i && Conflicts(ownName, manager.pods.events, manager.pods.states, n, at)
        invariant forall j | 0 <= j < |at| :: at[j] < |manager.pods.events|
      {
        var o;
        o, at := Round(i + 1, k, n, at);
        match o {
          case Reused(ip) =>
            NobodyElse(ip);
            return Acquired(ip);
          case Gone(error) => return Failed(error);
          case Rechecked(seen) => result := seen;
        }
        if !HasConflict(result, ownIP) {
          break;
        }
        i := i + 1;
      }
      if HasConflict(result, ownIP) {
        GivenUp(k, n, at);
        return Failed(StillConflicting);
      }
      r := UseIP(result, k, n);
    }

    /** One round of AcquireIP's loop, the pause after a conflict included. at are the places of the conflicts found. */
    method Round(try: nat, ghost k: nat, ghost n: nat, ghost before: seq<nat>) returns (o: Outcome, ghost at: seq<nat>)
      requires Fits() && manager.pods.Valid() && (Here() ==> Place() == Start(try))
      requires k <= manager.calls && n <= |manager.pods.events| && Calm(k)
      requires Conflicts(ownName, manager.pods.events, manager.pods.states, n, before)
      requires forall j | 0 <= j < |before| :: before[j] < |manager.pods.events|
      modifies this`ownIP, this`ownUsed, manager`calls, manager.pods
      ensures Goes(old(manager.pods.events), old(manager.pods.states)) && Here() == old(Here())
      ensures manager.calls >= k && (!o.Gone? ==> Calm(k)) && !o.Reserved?
      ensures o.Gone? ==> o.error != OwnIPUndefined && Explained(o.error, k, n) && (Here() ==> Place().Down?)
      ensures o.Reused? ==> Here() && Place() == Holding(o.ip)
      ensures o.Rechecked? ==>
                && Here() && ownIP.Some?
                && if !HasConflict(o.seen, ownIP) then Place() == Checked(o.seen, ownIP.value)
                   else if try < ACQUIRE_TRIES then Place() == Start(try + 1) else Place().Down?
      ensures o.Rechecked? && HasConflict(o.seen, ownIP) ==>
                && |at| == |before| + 1 && Conflicts(ownName, manager.pods.events, manager.pods.states, n, at)
                && forall j | 0 <= j < |at| :: at[j] < |manager.pods.events|
    {
      hide InPool, IsRun, Store, LookupOf, See, HasConflict, Cluster.Valid, NoFaults, Conflicts, Conflicted, Crowded, Explained;
      at := before;
      ghost var calm, events, states := manager.calls, manager.pods.events, manager.pods.states;
      o := Reserve(try);
      if o.Gone? {
        ExplainedSince(o.error, k, calm, n, |events|);
        return;
      }
      CalmThen(manager.plan, k, calm, manager.calls);
      if o.Reused? {
        return;
      }
      ghost var place;
      calm := manager.calls;
      o, place := CheckAgain(try);
      CalmThen(manager.plan, k, calm, manager.calls);
      if o.Gone? {
        LookupExplained(k, n);
        return;
      }
      if HasConflict(o.seen, ownIP) {
        OneMoreConflict(ownName, events, states, n, at, manager.pods.events, manager.pods.states, |events|, place);
        at, events, states := at + [place], manager.pods.events, manager.pods.states;
        Sleep(0);
        StillConflicted(ownName, events, states, n, at, manager.pods.events, manager.pods.states);
      }
    }

    /** After the loop: mark the address as used. */
    method UseIP(result: Lookup, ghost k: nat, ghost n: nat) returns (r: Acquired)
      requires Fits() && manager.pods.Valid() && Here() && ownIP.Some? && Place() == Checked(result, ownIP.value)
      requires k <= manager.calls && Calm(k)
      modifies this`ownIP, this`ownUsed, manager`calls, manager.pods
      ensures Goes(old(manager.pods.events), old(manager.pods.states)) && Here()
      ensures if r.Acquired? then Calm(k) && Place() == Holding(r.ip)
              else r.error in {SetFailed, OwnIPUndefined} && Explained(r.error, k, n) && Place().Down?
      ensures Trusted(manager.pods.c, manager.pods.events, manager.pods.states) ==>
                && (r.Failed? ==> r.error != OwnIPUndefined)
                && (r.Acquired? ==>
                      forall p <- manager.pods.world.pods :: p != ownName ==> !Claims(manager.pods.world.pods[p], r.ip))
    {
      hide InPool, IsRun, Store, LookupOf, See, Trusted, Claims, NoFaults, Conflicts, Crowded, Explained;
      Sleep(0);
      KnowsItself();
      HistoryLength(manager.pods.c, manager.pods.events, manager.pods.states);
      ghost var calm, events, states := manager.calls, manager.pods.events, manager.pods.states;
      var err := AnnounceIPAddress(true, result);
      TrustedBefore(manager.pods.c, events, states, manager.pods.events, manager.pods.states);
      CalmThen(manager.plan, k, calm, manager.calls);
      if err.Some? {
        if err.value != OwnIPUndefined {
          GiveUp();
        }
        UseExplained(err.value, k, n);
        return Failed(err.value);
      }
      NobodyElse(ownIP.value);
      return Acquired(ownIP.value);
    }

    lemma LookupExplained(k: nat, n: nat)
      requires LastFaulted(k)
      ensures Explained(LookupFailed, k, n)
    {
    }

    lemma ReserveExplained(error: AcquireError, k: nat, n: nat, look: nat)
      requires error in {NoFreeAddress, SetFailed} && n <= look < |manager.pods.states|
      requires error == NoFreeAddress ==>
                 Calm(k) && Crowded(base, startIndex, endIndex, See(manager.pods.states[look], ownName))
      requires error == SetFailed ==> LastFaulted(k) || (!Here() && Calm(k))
      ensures Explained(error, k, n)
    {
      hide Crowded, See, NoFaults;
    }

    lemma UseExplained(error: AcquireError, k: nat, n: nat)
      requires error in {SetFailed, OwnIPUndefined}
      requires if error == SetFailed then LastFaulted(k) || (!Here() && Calm(k)) else Calm(k)
      ensures Explained(error, k, n)
    {
      hide NoFaults;
    }

    lemma GivenUp(k: nat, n: nat, at: seq<nat>)
      requires Calm(k) && |at| == 30 && Conflicts(ownName, manager.pods.events, manager.pods.states, n, at)
      ensures Explained(StillConflicting, k, n)
    {
    }

    lemma AllTaken(l: Lookup)
      requires exists draws: seq<nat> :: |draws| == 1000 && forall d <- draws ::
                 startIndex <= d <= endIndex && PoolAddress(base, d, endIndex) in l.foreignUsed + l.foreignReserved
      ensures Crowded(base, startIndex, endIndex, l)
    {
      var draws: seq<nat> :| |draws| == 1000 && forall d <- draws ::
        startIndex <= d <= endIndex && PoolAddress(base, d, endIndex) in l.foreignUsed + l.foreignReserved;
      assert forall d <- draws :: Taken(base, startIndex, endIndex, l, d);
    }

    /** The causes in full: the calls that failed and those that did not, the lookup and the draws, the re-checks. */
    lemma ExplainedMeans(error: AcquireError, k: nat, n: nat)
      requires Valid() && manager.pods.Valid() && Explained(error, k, n)
      ensures forall i: nat | k <= i < manager.calls - 1 :: manager.plan(i) == NoFault
      ensures error == LookupFailed || (error == SetFailed && ownName in manager.pods.world.pods) ==>
                k < manager.calls && manager.plan(manager.calls - 1) != NoFault
      ensures error !in {LookupFailed, SetFailed} && k < manager.calls ==> manager.plan(manager.calls - 1) == NoFault
      ensures error == NoFreeAddress ==>
                exists i, draws: seq<nat> :: n <= i < |manager.pods.states| && |draws| == 1000
                  && DrawsTaken(See(manager.pods.states[i], ownName), draws)
      ensures error == StillConflicting ==>
                exists at: seq<nat> :: |at| == 30 && (forall j, m | 0 <= j < m < 30 :: at[j] < at[m])
                  && forall i <- at :: n <= i < |manager.pods.events| && manager.pods.events[i] == Recheck(ownName)
                                       && FindsConflict(manager.pods.states[i])
    {
      hide IsRun, See;
      if error == NoFreeAddress {
        var i :| n <= i < |manager.pods.states| && Crowded(base, startIndex, endIndex, See(manager.pods.states[i], ownName));
        var draws: seq<nat> :| |draws| == 1000
          && forall d <- draws :: Taken(base, startIndex, endIndex, See(manager.pods.states[i], ownName), d);
        assert DrawsTaken(See(manager.pods.states[i], ownName), draws);
      } else if error == StillConflicting {
        var at :| |at| == 30 && Conflicts(ownName, manager.pods.events, manager.pods.states, n, at);
        forall i <- at ensures Conflicted(ownName, manager.pods.events, manager.pods.states, i)
                               && FindsConflict(manager.pods.states[i]) {
          ConflictFound(manager.pods.events, manager.pods.states, i);
        }
      }
    }

    lemma ConflictFound(events: seq<Event>, states: seq<State>, i: nat)
      requires Conflicted(ownName, events, states, i)
      ensures FindsConflict(states[i])
    {
      ConflictIff(Store(states[i]), ownName, states[i].pods[ownName].pc.ip);
    }

    ghost predicate DrawsTaken(l: Lookup, draws: seq<nat>)
      reads this`startIndex, this`endIndex
    {
      forall d <- draws ::
        startIndex <= d <= endIndex && PoolAddress(base, d, endIndex) in l.foreignUsed + l.foreignReserved
    }

    /** In that state the address this pod waits for is the one that counts for some other pod. */
    ghost predicate FindsConflict(s: State) {
      && ownName in s.pods && s.pods[ownName].pc.Waiting?
      && exists p <- s.pods :: p != ownName && s.pods[p].ann.IP() == Some(s.pods[ownName].pc.ip)
    }

    /** An explanation is one for a longer time, too. */
    lemma ExplainedSince(error: AcquireError, k: nat, calm: nat, n: nat, m: nat)
      requires NoFaults(manager.plan, k, calm) && k <= calm <= manager.calls && n <= m
      requires error in {LookupFailed, NoFreeAddress, SetFailed} && Explained(error, calm, m)
      ensures Explained(error, k, n)
    {
      CalmThen(manager.plan, k, calm, manager.calls);
    }

    /** In a trusted run a held address is claimed by no other pod. */
    lemma NobodyElse(ip: Ip6)
      requires manager.pods.Valid() && Here() && Place() == Holding(ip)
      ensures Trusted(manager.pods.c, manager.pods.events, manager.pods.states) ==>
                forall p <- manager.pods.world.pods :: p != ownName ==> !Claims(manager.pods.world.pods[p], ip)
    {
      hide Trusted, Store, After, Possible, InTime;
      var cluster := manager.pods;
      if Trusted(cluster.c, cluster.events, cluster.states) {
        TrustedKeepsInv(cluster.c, cluster.events, cluster.states, |cluster.events|);
        assert Claims(cluster.world.pods[ownName], ip);
      }
    }

    /** In a trusted run a process past the conflict check has seen its own reservation. */
    lemma KnowsItself()
      requires manager.pods.Valid() && Here() && Place().Checked?
      ensures Trusted(manager.pods.c, manager.pods.events, manager.pods.states) ==>
                Place().seen.ownIP == Some(Place().ip) && !Place().seen.ownUsed
    {
      hide Trusted, Store, After, Possible, InTime;
      var cluster := manager.pods;
      if Trusted(cluster.c, cluster.events, cluster.states) {
        TrustedKeepsInv(cluster.c, cluster.events, cluster.states, |cluster.events|);
      }
    }
  }

  /** How the parts of a round end: the pod already uses an address, the process gave up, the reservation is sent, or
      the second lookup is in. */
  datatype Outcome = Reused(ip: Ip6) | Gone(error: AcquireError) | Reserved | Rechecked(seen: Lookup)

  /** Where a lookup that shows l takes a process. */
  function PlaceAfter(pc: PC, l: Lookup, now: nat, e: Event): PC {
    PodAfter(PodState(UNANNOTATED, {}, pc), l, now, e).pc
  }

  lemma AfterFirstLookup(own: Pod, try: nat, l: Lookup, now: nat)
    ensures PlaceAfter(Start(try), l, now, FirstLookup(own)) ==
            if l.ownUsed && l.ownIP.Some? then Holding(l.ownIP.value) else Looked(try, l)
  {
  }

  lemma AfterRecheck(own: Pod, try: nat, ip: Ip6, since: nat, l: Lookup, now: nat)
    ensures PlaceAfter(Waiting(try, ip, since), l, now, Recheck(own)) ==
            if !HasConflict(l, Some(ip)) then Checked(l, ip) else if try < ACQUIRE_TRIES then Start(try + 1) else Down(now)
  {
  }

  const NOTHING_SEEN := Lookup(None, false, {}, {})

  lemma RecheckFound(own: Pod, events: seq<Event>, states: seq<State>, i: nat)
    requires i < |events| && i < |states| && events[i] == Recheck(own) && own in states[i].pods
    requires states[i].pods[own].pc.Waiting?
    ensures HasConflict(See(states[i], own), Some(states[i].pods[own].pc.ip)) ==> Conflicted(own, events, states, i)
  {
  }

  /** A used address is an address, and only an existing pod has one. */
  lemma SeesItself(s: State, own: Pod)
    ensures See(s, own).ownUsed ==> own in s.pods && See(s, own).ownIP.Some?
  {
  }

  lemma HistoryLength(c: Params, events: seq<Event>, states: seq<State>)
    requires IsRun(c, events, states)
    ensures |states| == |events| + 1
  {
  }

  /** What is trusted of a history is trusted of what came before. */
  lemma TrustedBefore(c: Params, events: seq<Event>, states: seq<State>, later: seq<Event>, laterStates: seq<State>)
    requires events <= later && states <= laterStates && |states| == |events| + 1
    ensures Trusted(c, later, laterStates) ==> Trusted(c, events, states)
  {
  }
}
