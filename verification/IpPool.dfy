/** The IP pool kept in pod annotations, and what a lookup shows of it (pkg/ippool/manager.go). */
module IpPoolStore {
  import opened Cidrs
  import opened AddressPlan

  type Pod = string

  /** The two annotation keys of a pod; an empty or missing annotation is None. */
  datatype Annotations = Annotations(reserved: Option<Ip6>, used: Option<Ip6>) {
    /** The IP that counts: used takes precedence over reserved. */
    function IP(): Option<Ip6> {
      if used.Some? then used else reserved
    }
  }

  const UNANNOTATED := Annotations(None, None)

  datatype Lookup = Lookup(ownIP: Option<Ip6>, ownUsed: bool, foreignUsed: set<Ip6>, foreignReserved: set<Ip6>)

  /** What a lookup for own sees in the pool. */
  function LookupOf(pods: map<Pod, Annotations>, own: Pod): Lookup {
    Lookup(
      if own in pods then pods[own].IP() else None,
      own in pods && pods[own].used.Some?,
      set p | p in pods && p != own && pods[p].used.Some? :: pods[p].used.value,
      set p | p in pods && p != own && pods[p].used.None? && pods[p].reserved.Some? :: pods[p].reserved.value)
  }

  /** A lookup shows exactly this: the own IP, used before reserved, and of every other pod its used IP, or its reserved
      one if it uses none. */
  lemma LookupShows(pods: map<Pod, Annotations>, own: Pod, ip: Ip6)
    ensures var l := LookupOf(pods, own);
            && l.ownUsed == (own in pods && pods[own].used.Some?)
            && l.ownIP == (if own !in pods then None else if pods[own].used.Some? then pods[own].used else pods[own].reserved)
            && (ip in l.foreignUsed <==> exists p <- pods :: p != own && pods[p].used == Some(ip))
            && (ip in l.foreignReserved <==>
                exists p <- pods :: p != own && pods[p].used.None? && pods[p].reserved == Some(ip))
  {
  }

  /** hasConflict: another pod has reserved or used the IP. An empty IP is in neither set. */
  predicate HasConflict(l: Lookup, ip: Option<Ip6>) {
    ip.Some? && (ip.value in l.foreignUsed || ip.value in l.foreignReserved)
  }

  /** A lookup reports a conflict exactly when the IP is the one that counts for some other pod. */
  lemma ConflictIff(pods: map<Pod, Annotations>, own: Pod, ip: Ip6)
    ensures HasConflict(LookupOf(pods, own), Some(ip)) <==>
            exists p <- pods :: p != own && pods[p].IP() == Some(ip)
  {
    var l := LookupOf(pods, own);
    if p :| p in pods && p != own && pods[p].IP() == Some(ip) {
      assert if pods[p].used.Some? then pods[p].used.value in l.foreignUsed else pods[p].reserved.value in l.foreignReserved;
    }
  }

  /** What a faulty call to the API server does. */
  datatype Fault = NoFault | FailsWithoutEffect | FailsWithEffect

  function Patched(a: Annotations, ip: Ip6, used: bool): Annotations {
    if used then a.(used := Some(ip)) else a.(reserved := Some(ip))
  }

  /** The number of times AcquireIP tries to reserve an address. */
  const ACQUIRE_TRIES := 30
}
