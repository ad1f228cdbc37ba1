/** The tunnel controller of the shoot client (pkg/shoot_client/tunnel/tunnel.go, readiness.go): one ip6tnl
    device and one route per kube-apiserver that announces itself. Times are milliseconds. */
module TunnelModel {
  import opened Cidrs
  import opened AddressPlan

  const CREATION_FAILURE_BACKOFF: int := 30_000
  const EXPIRATION_DURATION: int := 600_000

  function HexDigit(d: int): char
    requires 0 <= d < 16
  {
    if d < 10 then '0' + d as char else 'a' + (d - 10) as char
  }

  /** %02x of a byte. */
  function Hex2(b: byte): string {
    [HexDigit(b / 16), HexDigit(b % 16)]
  }

  /** linkName: unique by the last two bytes of the remote address. */
  function LinkName(remote: Ip6): string {
    "bond0ip6tnl" + Hex2(remote[14]) + Hex2(remote[15])
  }

  lemma HexDigitInjective(d: int, e: int)
    requires 0 <= d < 16 && 0 <= e < 16 && HexDigit(d) == HexDigit(e)
    ensures d == e
  {
  }

  lemma Hex2Injective(b: byte, c: byte)
    requires Hex2(b) == Hex2(c)
    ensures b == c
  {
    assert Hex2(b)[0] == Hex2(c)[0] && Hex2(b)[1] == Hex2(c)[1];
    HexDigitInjective(b / 16, c / 16);
    HexDigitInjective(b % 16, c % 16);
  }

  /** The name is as long as Linux allows, and its end reads as the last two bytes. */
  lemma LinkNameReads(remote: Ip6)
    ensures var name := LinkName(remote);
            && |name| == 15 && name[..11] == "bond0ip6tnl"
            && HexValue(name[11]) * 16 + HexValue(name[12]) == remote[14]
            && HexValue(name[13]) * 16 + HexValue(name[14]) == remote[15]
  {
    assert LinkName(remote)[11..13] == Hex2(remote[14]) && LinkName(remote)[13..] == Hex2(remote[15]);
    HexReads(remote[14] / 16);
    HexReads(remote[14] % 16);
    HexReads(remote[15] / 16);
    HexReads(remote[15] % 16);
  }

  /** What a lower-case hexadecimal digit stands for. */
  function HexValue(c: char): int {
    if '0' <= c <= '9' then c as int - '0' as int else c as int - 'a' as int + 10
  }

  lemma HexReads(d: int)
    requires 0 <= d < 16
    ensures HexValue(HexDigit(d)) == d
  {
  }

  /** Within one /112 range the link name tells addresses apart. */
  lemma LinkNameInjective(r1: Ip6, r2: Ip6, net: Ip6)
    requires InPrefix(r1, net, 14) && InPrefix(r2, net, 14)
    requires LinkName(r1) == LinkName(r2)
    ensures r1 == r2
  {
    assert LinkName(r1)[11..13] == Hex2(r1[14]) && LinkName(r2)[11..13] == Hex2(r2[14]);
    assert LinkName(r1)[13..] == Hex2(r1[15]) && LinkName(r2)[13..] == Hex2(r2[15]);
    Hex2Injective(r1[14], r2[14]);
    Hex2Injective(r1[15], r2[15]);
    assert r1 == r1[..14] + [r1[14], r1[15]] && r2 == r2[..14] + [r2[14], r2[15]];
  }

  /** kubeApiserverData without its lock and logger. */
  datatype Entry = Entry(
    podIP: string, lastSeen: int, creationComplete: bool, lastCreationFailed: Option<int>,
    creationFailedCount: nat, hasError: bool)
  {
    predicate Ready() {
      creationComplete && !hasError
    }

    predicate NeedsUpdate(newPodIP: string, now: int) {
      || podIP != newPodIP
      || (!creationComplete &&
          (lastCreationFailed.None? || now - lastCreationFailed.value > CREATION_FAILURE_BACKOFF))
    }

    predicate IsOutdated(now: int) {
      now - lastSeen > EXPIRATION_DURATION
    }
  }

  /** What net.ParseIP followed by To4 makes of the text a kube-apiserver sends: an address, or nothing. Different
      texts may stand for one address. */
  type Parser = string -> Option<Address>

  /** Links by name, with their remote address; routes by the address they lead to, with the name of their link. */
  datatype Kernel = Kernel(links: map<string, Ip6>, routes: map<Address, string>) {
    /** Deleting a link takes the routes through it along. */
    function Without(name: string): Kernel {
      Kernel(links - {name}, map r | r in routes && routes[r] != name :: routes[r])
    }
  }

  /** What the kernel may refuse in an update. */
  datatype Fault = NoFault | DeleteFails | AddFails | SetUpFails | LinkLookupFails | RouteFails

  /** An update succeeds if nothing is refused and the pod IP is one. */
  predicate Succeeds(parse: Parser, podIP: string, f: Fault) {
    f.NoFault? && parse(podIP).Some?
  }

  function EntryAfter(d: Entry, podIP: string, now: int, ok: bool): Entry {
    if ok then
      d.(podIP := podIP, creationComplete := true, lastCreationFailed := None, creationFailedCount := 0, hasError := false)
    else
      d.(podIP := podIP, lastCreationFailed := Some(now), creationFailedCount := d.creationFailedCount + 1, hasError := true)
  }

  function KernelAfter(k: Kernel, remote: Ip6, ip: Option<Address>, f: Fault): Kernel {
    var name := LinkName(remote);
    var gone := k.Without(name);
    var there := gone.(links := gone.links[name := remote]);
    match f
    case DeleteFails => k
    case AddFails => gone
    case NoFault => if ip.Some? then there.(routes := there.routes[ip.value := name]) else there
    case _ => there
  }

  /** What an update leaves: unless deleting the link failed, no old route goes through it; the link leads to the remote
      address unless it could not be added; and exactly a successful update adds a route. All else is as before. */
  lemma KernelAfterMeans(k: Kernel, remote: Ip6, ip: Option<Address>, f: Fault)
    ensures var name, t := LinkName(remote), KernelAfter(k, remote, ip, f);
            && (f == DeleteFails ==> t == k)
            && (f == AddFails ==> name !in t.links)
            && (f !in {DeleteFails, AddFails} ==> name in t.links && t.links[name] == remote)
            && (forall n :: n != name ==> (n in t.links <==> n in k.links) && (n in t.links ==> t.links[n] == k.links[n]))
            && (f == NoFault && ip.Some? ==> ip.value in t.routes && t.routes[ip.value] == name)
            && (forall a :: a in t.routes && t.routes[a] == name && f != DeleteFails ==> f == NoFault && ip == Some(a))
            && (forall a :: !(f == NoFault && ip == Some(a)) && a in k.routes && k.routes[a] != name ==>
                              a in t.routes && t.routes[a] == k.routes[a])
            && (forall a :: a in t.routes && t.routes[a] != name ==> a in k.routes && t.routes[a] == k.routes[a])
  {
  }

  /** The controller's entries by remote address, the kernel, and the updates started but not yet run. */
  datatype State = State(entries: map<Ip6, Entry>, kernel: Kernel, started: set<(Ip6, string)>)

  function EntryFor(entries: map<Ip6, Entry>, remote: Ip6, podIP: string): Entry {
    if remote in entries then entries[remote] else Entry(podIP, 0, false, None, 0, false)
  }

  /** A packet: the entry is made or refreshed, and an update is started if needed. */
  function EntriesAfterPacket(entries: map<Ip6, Entry>, remote: Ip6, podIP: string, now: int): map<Ip6, Entry> {
    entries[remote := EntryFor(entries, remote, podIP).(lastSeen := now)]
  }

  predicate StartsUpdate(entries: map<Ip6, Entry>, remote: Ip6, podIP: string, now: int) {
    EntryFor(entries, remote, podIP).NeedsUpdate(podIP, now)
  }

  function AfterPacket(s: State, remote: Ip6, podIP: string, now: int): State {
    State(EntriesAfterPacket(s.entries, remote, podIP, now), s.kernel,
          if StartsUpdate(s.entries, remote, podIP, now) then s.started + {(remote, podIP)} else s.started)
  }

  /** A started update runs, atomically under the entry's lock; the same update may have been started again. */
  function AfterUpdate(parse: Parser, s: State, u: (Ip6, string), now: int, f: Fault, again: bool): State {
    State(if u.0 in s.entries
          then s.entries[u.0 := EntryAfter(s.entries[u.0], u.1, now, Succeeds(parse, u.1, f))] else s.entries,
          KernelAfter(s.kernel, u.0, parse(u.1), f), if again then s.started else s.started - {u})
  }

  /** Cleaning: outdated entries go, and their links unless deleting them fails. */
  function AfterClean(s: State, now: int, failing: set<Ip6>): State {
    var outdated := set r | r in s.entries && s.entries[r].IsOutdated(now);
    var names := set r | r in outdated && r !in failing :: LinkName(r);
    State(s.entries - outdated,
          Kernel(s.kernel.links - names, map p | p in s.kernel.routes && s.kernel.routes[p] !in names :: s.kernel.routes[p]),
          s.started)
  }

  predicate IsReady(s: State) {
    s.entries != map[] && forall r <- s.entries :: s.entries[r].Ready()
  }
}

/** The same as classes, method by method. */
module TunnelClasses {
  import opened Cidrs
  import opened AddressPlan
  import opened TunnelModel
  import opened TunnelCleaning

  class KernelTables {
    var links: map<string, Ip6>
    var routes: map<Address, string>

    function Current(): Kernel
      reads this
    {
      Kernel(links, routes)
    }

    method DeleteLinkByName(name: string, fails: bool) returns (ok: bool)
      modifies this
      ensures ok == !fails
      ensures Current() == if fails then old(Current()) else old(Current()).Without(name)
    {
      if fails {
        return false;
      }
      if name in links {
        links := links - {name};
      }
      routes := map r | r in routes && routes[r] != name :: routes[r];
      assert Current().links == old(Current()).Without(name).links;
      return true;
    }

    /** A link of that name must not exist yet. */
    method CreateTunnel(name: string, remote: Ip6, addFails: bool, setUpFails: bool) returns (ok: bool)
      modifies this
      ensures ok == (name !in old(links) && !addFails && !setUpFails)
      ensures Current() == if addFails || name in old(links) then old(Current())
                           else old(Current()).(links := old(links)[name := remote])
    {
      if addFails || name in links {
        return false;
      }
      links := links[name := remote];
      return !setUpFails;
    }

    method ReplaceRoute(ip: Address, name: string, fails: bool) returns (ok: bool)
      modifies this
      ensures ok == !fails
      ensures Current() == if fails then old(Current()) else old(Current()).(routes := old(routes)[ip := name])
    {
      if !fails {
        routes := routes[ip := name];
      }
      return !fails;
    }
  }

  class KubeApiserverData {
    const remoteAddr: Ip6
    var podIP: string
    var lastSeen: int
    var creationComplete: bool
    var lastCreationFailed: Option<int>
    var creationFailedCount: nat
    var hasError: bool

    constructor (remoteAddr: Ip6, podIP: string)
      ensures this.remoteAddr == remoteAddr && Current() == Entry(podIP, 0, false, None, 0, false)
    {
      this.remoteAddr := remoteAddr;
      this.podIP := podIP;
      lastSeen, creationComplete, lastCreationFailed, creationFailedCount, hasError := 0, false, None, 0, false;
    }

    function Current(): Entry
      reads this
    {
      Entry(podIP, lastSeen, creationComplete, lastCreationFailed, creationFailedCount, hasError)
    }

    method SetLastSeen(now: int)
      modifies this
      ensures Current() == old(Current()).(lastSeen := now)
    {
      lastSeen := now;
    }

    method NeedsUpdate(newPodIP: string, now: int) returns (r: bool)
      ensures r == Current().NeedsUpdate(newPodIP, now)
    {
      if podIP != newPodIP {
        return true;
      }
      if creationComplete {
        return false;
      } else if lastCreationFailed.Some? {
        return now - lastCreationFailed.value > CREATION_FAILURE_BACKOFF;
      }
      return true;
    }

    method SetFailed(now: int)
      modifies this
      ensures Current() == old(Current()).(lastCreationFailed := Some(now),
                creationFailedCount := old(creationFailedCount) + 1, hasError := true)
    {
      lastCreationFailed := Some(now);
      creationFailedCount := creationFailedCount + 1;
      hasError := true;
    }

    /** update: delete the link, create it anew, look it up, parse the pod IP, route it; the first failure ends it. */
    method Update(parse: Parser, newPodIP: string, now: int, f: Fault, kernel: KernelTables)
      modifies this, kernel
      ensures hasError <==> f != NoFault || parse(newPodIP).None?
      ensures if hasError then lastCreationFailed == Some(now) && creationComplete == old(creationComplete)
              else lastCreationFailed == None && creationComplete
      ensures podIP == newPodIP && lastSeen == old(lastSeen)
      ensures creationFailedCount == if hasError then old(creationFailedCount) + 1 else 0
      ensures Current() == EntryAfter(old(Current()), newPodIP, now, Succeeds(parse, newPodIP, f))
      ensures kernel.Current() == KernelAfter(old(kernel.Current()), remoteAddr, parse(newPodIP), f)
    {
      hide LinkName, Kernel.Without;
      podIP := newPodIP;
      var name := LinkName(remoteAddr);
      LinkIsGone(kernel.Current(), name);
      var ok := kernel.DeleteLinkByName(name, f.DeleteFails?);
      if !ok {
        SetFailed(now);
        return;
      }
      ok := kernel.CreateTunnel(name, remoteAddr, f.AddFails?, f.SetUpFails?);
      if !ok {
        SetFailed(now);
        return;
      }
      if f.LinkLookupFails? {
        SetFailed(now);
        return;
      }
      var ip := parse(podIP);
      if ip.None? {
        SetFailed(now);
        return;
      }
      ok := kernel.ReplaceRoute(ip.value, name, f.RouteFails?);
      if !ok {
        SetFailed(now);
        return;
      }
      creationComplete := true;
      hasError := false;
      lastCreationFailed := None;
      creationFailedCount := 0;
    }
  }

  /** The controller's map of entries. Receive is one round of the packet loop; it may start UpdateEntry and Clean. */
  class Controller {
    const kernel: KernelTables
    var kubeApiservers: map<Ip6, KubeApiserverData>
    var nextClean: int

    constructor (kernel: KernelTables, now: int)
      ensures Valid() && this.kernel == kernel && kubeApiservers == map[] && nextClean == NextClean(now, [])
    {
      this.kernel := kernel;
      this.kubeApiservers := map[];
      this.nextClean := now + CLEAN_UP_PERIOD;
    }

    /** Every entry is filed under its own address, so entries are distinct objects. */
    ghost predicate Valid()
      reads this`kubeApiservers
    {
      forall r <- kubeApiservers :: kubeApiservers[r].remoteAddr == r
    }

    function Entries(): map<Ip6, Entry>
      reads this`kubeApiservers, kubeApiservers.Values
    {
      map r | r in kubeApiservers :: kubeApiservers[r].Current()
    }

    /** The data of a packet's sender, made if there is none. */
    method DataFor(remote: Ip6, podIP: string) returns (data: KubeApiserverData)
      requires Valid()
      modifies this`kubeApiservers
      ensures Valid() && remote in kubeApiservers && data == kubeApiservers[remote]
      ensures Entries() == old(Entries())[remote := EntryFor(old(Entries()), remote, podIP)]
      ensures forall r <- kubeApiservers :: r != remote ==> r in old(kubeApiservers) && kubeApiservers[r] == old(kubeApiservers)[r]
      ensures forall d <- kubeApiservers.Values :: d in old(kubeApiservers).Values || fresh(d)
    {
      if remote in kubeApiservers {
        data := kubeApiservers[remote];
        assert Entries()[remote] == data.Current();
      } else {
        data := new KubeApiserverData(remote, podIP);
        kubeApiservers := kubeApiservers[remote := data];
      }
    }

    method Touch(remote: Ip6, now: int)
      requires Valid() && remote in kubeApiservers
      modifies kubeApiservers[remote]
      ensures Valid() && Entries() == old(Entries())[remote := old(Entries())[remote].(lastSeen := now)]
    {
      kubeApiservers[remote].SetLastSeen(now);
    }

    /** The part of a packet's round that concerns its sender. */
    method Refresh(remote: Ip6, podIP: string, now: int) returns (start: bool)
      requires Valid()
      modifies this`kubeApiservers, kubeApiservers.Values
      ensures Valid()
      ensures Entries() == EntriesAfterPacket(old(Entries()), remote, podIP, now)
      ensures start == StartsUpdate(old(Entries()), remote, podIP, now)
    {
      hide Entry.NeedsUpdate, EntryFor;
      ghost var before := EntryFor(Entries(), remote, podIP);
      var data := DataFor(remote, podIP);
      Touch(remote, now);
      assert data.Current() == Entries()[remote] == before.(lastSeen := now);
      SeenLater(before, podIP, now);
      start := data.NeedsUpdate(podIP, now);
    }

    /** One packet. */
    method Receive(remote: Ip6, podIP: string, now: int) returns (start: bool, clean: bool)
      requires Valid()
      modifies this, kubeApiservers.Values
      ensures Valid()
      ensures Entries() == EntriesAfterPacket(old(Entries()), remote, podIP, now)
      ensures remote !in old(Entries()) ==> start && Entries()[remote] == Entry(podIP, now, false, None, 0, false)
      ensures remote in old(Entries()) ==>
                var d := old(Entries())[remote];
                && Entries()[remote] == d.(lastSeen := now)
                && start == (d.podIP != podIP
                             || (!d.creationComplete
                                 && (d.lastCreationFailed.None? || now - d.lastCreationFailed.value > 30_000)))
      ensures start == StartsUpdate(old(Entries()), remote, podIP, now)
      ensures clean == (now < old(nextClean)) && nextClean == NextCleanAfter(old(nextClean), now)
    {
      hide Valid, Entries;
      start := Refresh(remote, podIP, now);
      clean := false;
      if now < nextClean { // nextClean.After(time.Now())
        nextClean := now + CLEAN_UP_PERIOD;
        clean := true;
      }
    }

    /** The goroutine of an update works on the data it was started with, which may have been cleaned away since. */
    method UpdateEntry(data: KubeApiserverData, parse: Parser, podIP: string, now: int, f: Fault)
      requires Valid()
      modifies data, kernel
      ensures Valid() && kubeApiservers == old(kubeApiservers)
      ensures Entries() ==
              if data in kubeApiservers.Values
              then old(Entries())[data.remoteAddr := EntryAfter(old(data.Current()), podIP, now, Succeeds(parse, podIP, f))]
              else old(Entries())
      ensures kernel.Current() == KernelAfter(old(kernel.Current()), data.remoteAddr, parse(podIP), f)
    {
      data.Update(parse, podIP, now, f, kernel);
    }

    /** clean; a link whose deletion fails stays, and the failure is only logged. */
    method Clean(now: int, failing: set<Ip6>)
      requires Valid()
      modifies this, kernel
      ensures Valid()
      ensures forall r :: r in Entries() <==> r in old(Entries()) && now - old(Entries())[r].lastSeen <= 600_000
      ensures forall r <- Entries() :: Entries()[r] == old(Entries())[r]
      ensures var t := AfterClean(State(old(Entries()), old(kernel.Current()), {}), now, failing);
              Entries() == t.entries && kernel.Current() == t.kernel
    {
      ghost var before := State(Entries(), kernel.Current(), {});
      CleanLoop(now, failing, before);
      CleanedAll(before, now, failing);
    }

    method CleanLoop(now: int, failing: set<Ip6>, ghost before: State)
      requires Valid() && before == State(Entries(), kernel.Current(), {})
      modifies this, kernel
      ensures forall r :: r in kubeApiservers <==>
                            r in old(kubeApiservers) && !old(kubeApiservers)[r].Current().IsOutdated(now)
      ensures forall r <- kubeApiservers :: kubeApiservers[r] == old(kubeApiservers)[r]
      ensures kernel.Current() == Cleaned(before, before.entries.Keys, now, failing)
    {
      hide Cleaned, Kernel.Without, Entry.IsOutdated;
      ghost var was := kubeApiservers;
      var todo := kubeApiservers.Keys;
      CleanedNone(before, now, failing);
      assert was.Keys - todo == {};
      while todo != {}
        invariant todo <= was.Keys
        invariant forall r :: r in kubeApiservers <==> r in todo || (r in was && !was[r].Current().IsOutdated(now))
        invariant forall r <- kubeApiservers :: kubeApiservers[r] == was[r]
        invariant kernel.Current() == Cleaned(before, was.Keys - todo, now, failing)
        decreases todo
      {
        var r :| r in todo;
        CleanedStep(before, was.Keys - todo, r, now, failing);
        assert was.Keys - (todo - {r}) == was.Keys - todo + {r};
        DropIfOutdated(r, now, r in failing);
        todo := todo - {r};
      }
      assert was.Keys - {} == before.entries.Keys;
    }

    /** The loop body of clean. */
    method DropIfOutdated(r: Ip6, now: int, fails: bool)
      requires r in kubeApiservers && kubeApiservers[r].remoteAddr == r
      modifies this, kernel
      ensures var out := old(kubeApiservers[r].Current()).IsOutdated(now);
              && kubeApiservers == (if out then old(kubeApiservers) - {r} else old(kubeApiservers))
              && kernel.Current() == if out && !fails then old(kernel.Current()).Without(LinkName(r)) else old(kernel.Current())
    {
      var data := kubeApiservers[r];
      if now - data.lastSeen > EXPIRATION_DURATION {
        kubeApiservers := kubeApiservers - {r};
        var ok := kernel.DeleteLinkByName(LinkName(data.remoteAddr), fails);
      }
    }

    /** IsReady: not without entries, and not while any entry lacks a completed, error-free update. */
    method IsReady() returns (ready: bool)
      requires Valid()
      ensures ready == (Entries() != map[] && forall r <- Entries() :: Entries()[r].creationComplete && !Entries()[r].hasError)
      ensures ready == (Entries() != map[] && forall r <- Entries() :: Entries()[r].Ready())
    {
      if |kubeApiservers| == 0 {
        return false;
      }
      var todo := kubeApiservers.Keys;
      while todo != {}
        invariant todo <= kubeApiservers.Keys
        invariant forall r <- kubeApiservers.Keys - todo :: kubeApiservers[r].Current().Ready()
      {
        var r :| r in todo;
        var data := kubeApiservers[r];
        var dataReady := data.creationComplete && !data.hasError;
        if !dataReady {
          assert r in Entries() && !Entries()[r].Ready();
          return false;
        }
        todo := todo - {r};
      }
      var any :| any in kubeApiservers;
      assert any in Entries();
      return true;
    }
  }

  lemma LinkIsGone(k: Kernel, name: string)
    ensures name !in k.Without(name).links
  {
  }

  lemma SeenLater(d: Entry, podIP: string, now: int)
    ensures d.(lastSeen := now).NeedsUpdate(podIP, now) == d.NeedsUpdate(podIP, now)
  {
  }

  /** The kernel after the entries in done have been looked at. */
  ghost function Cleaned(s: State, done: set<Ip6>, now: int, failing: set<Ip6>): Kernel
    requires done <= s.entries.Keys
  {
    var names := set r | r in done && s.entries[r].IsOutdated(now) && r !in failing :: LinkName(r);
    Kernel(s.kernel.links - names,
           map p | p in s.kernel.routes && s.kernel.routes[p] !in names :: s.kernel.routes[p])
  }

  lemma CleanedStep(s: State, done: set<Ip6>, r: Ip6, now: int, failing: set<Ip6>)
    requires done <= s.entries.Keys && r in s.entries
    ensures Cleaned(s, done + {r}, now, failing) ==
            if s.entries[r].IsOutdated(now) && r !in failing then Cleaned(s, done, now, failing).Without(LinkName(r))
            else Cleaned(s, done, now, failing)
  {
    var a := set x | x in done && s.entries[x].IsOutdated(now) && x !in failing :: LinkName(x);
    var b := set x | x in done + {r} && s.entries[x].IsOutdated(now) && x !in failing :: LinkName(x);
    assert b == if s.entries[r].IsOutdated(now) && r !in failing then a + {LinkName(r)} else a;
    assert s.kernel.links - (a + {LinkName(r)}) == s.kernel.links - a - {LinkName(r)};
  }

  lemma CleanedNone(s: State, now: int, failing: set<Ip6>)
    ensures Cleaned(s, {}, now, failing) == s.kernel
  {
    assert s.kernel.links - {} == s.kernel.links;
  }

  lemma CleanedAll(s: State, now: int, failing: set<Ip6>)
    ensures Cleaned(s, s.entries.Keys, now, failing) == AfterClean(s, now, failing).kernel
  {
    var outdated := set r | r in s.entries && s.entries[r].IsOutdated(now);
    var a := set r | r in s.entries.Keys && s.entries[r].IsOutdated(now) && r !in failing :: LinkName(r);
    var b := set r | r in outdated && r !in failing :: LinkName(r);
    assert a == b;
  }
}
