/** Any number of brokers against one annotation store. Writes become visible some time after the call, calls
    fail, processes crash and restart, and pods are deleted. */
module IpPoolProtocol {
  import opened Cidrs
  import opened AddressPlan
  import opened IpPoolStore

  /** A patch on its way to the store; it becomes visible by its deadline. */
  datatype Write = Write(ip: Ip6, used: bool, deadline: nat)

  /** Where a pod's AcquireIP stands. */
  datatype PC =
    | Down(since: nat)                            // no process
    | Start(try: nat)                             // about to look up
    | Looked(try: nat, seen: Lookup)              // about to reserve
    | Waiting(try: nat, ip: Ip6, since: nat)      // reservation sent, broker field ip
    | Checked(seen: Lookup, ip: Ip6)              // past the conflict check
    | Holding(ip: Ip6)                            // AcquireIP has returned ip

  datatype PodState = PodState(ann: Annotations, pending: set<Write>, pc: PC)

  /** A pod nothing has happened to yet. */
  const FRESH := PodState(UNANNOTATED, {}, Start(1))

  datatype State = State(pods: map<Pod, PodState>, now: nat)

  /** visibility bounds the delay of a write, wait is the broker's waiting time, restart the least time between
      the end of a process and the start of the next one for the same pod. */
  datatype Params = Params(names: set<Pod>, pool: set<Ip6>, visibility: nat, wait: nat, restart: nat)

  datatype Event =
    | Tick(now: nat)
    | Land(pod: Pod, write: Write)
    | FirstLookup(pod: Pod)
    | Reserve(pod: Pod, ip: Ip6, deadline: nat)
    | Recheck(pod: Pod)
    | Use(pod: Pod, deadline: nat)
    | Crash(pod: Pod)   // also any call that fails, with or without effect: AcquireIP returns the error
    | Restart(pod: Pod)
    | Delete(pod: Pod)  // and its replacement by a new pod

  function Store(s: State): map<Pod, Annotations> {
    map p | p in s.pods :: s.pods[p].ann
  }

  function See(s: State, p: Pod): Lookup {
    LookupOf(Store(s), p)
  }

  /** Whether the pod's program, or the store, is at a point where the event can happen; time aside. */
  predicate PCAllows(ps: PodState, e: Event) {
    match e
    case Tick(_) => true
    case Land(_, w) => w in ps.pending
    case FirstLookup(_) => ps.pc.Start?
    case Reserve(_, ip, _) => ps.pc.Looked? && !HasConflict(ps.pc.seen, Some(ip))
    case Recheck(_) => ps.pc.Waiting?
    case Use(_, _) => ps.pc.Checked?
    case Crash(_) => !ps.pc.Down?
    case Restart(_) => ps.pc.Down?
    case Delete(_) => true
  }

  predicate Possible(c: Params, s: State, e: Event) {
    if e.Tick? then s.now <= e.now
    else e.pod in s.pods && PCAllows(s.pods[e.pod], e) && (e.Reserve? ==> e.ip in c.pool)
  }

  /** What the event does to its pod, given what a lookup would show it. */
  function PodAfter(ps: PodState, seen: Lookup, now: nat, e: Event): PodState {
    match e
    case Tick(_) => ps
    case Land(_, w) => ps.(ann := Patched(ps.ann, w.ip, w.used), pending := ps.pending - {w})
    case FirstLookup(_) =>
      if !ps.pc.Start? then ps
      else if seen.ownUsed && seen.ownIP.Some? then ps.(pc := Holding(seen.ownIP.value))
      else ps.(pc := Looked(ps.pc.try, seen))
    case Reserve(_, ip, deadline) =>
      if !ps.pc.Looked? then ps
      else ps.(pending := ps.pending + {Write(ip, false, deadline)}, pc := Waiting(ps.pc.try, ip, now))
    case Recheck(_) =>
      if !ps.pc.Waiting? then ps
      else if !HasConflict(seen, Some(ps.pc.ip)) then ps.(pc := Checked(seen, ps.pc.ip))
      else if ps.pc.try < ACQUIRE_TRIES then ps.(pc := Start(ps.pc.try + 1))
      else ps.(pc := Down(now))
    case Use(_, deadline) =>
      if !ps.pc.Checked? then ps
      else if ps.pc.seen.ownUsed then ps.(pc := Holding(ps.pc.ip))
      else if ps.pc.seen.ownIP.None? then ps.(pc := Down(now)) // own ip undefined
      else
        var ip := ps.pc.seen.ownIP.value;
        ps.(pending := ps.pending + {Write(ip, true, deadline)}, pc := Holding(ip))
    case Crash(_) => ps.(pc := Down(now))
    case Restart(_) => ps.(pc := Start(1))
    case Delete(_) => FRESH
  }

  function After(s: State, e: Event): State {
    if e.Tick? then s.(now := e.now)
    else if e.pod !in s.pods then s
    else s.(pods := s.pods[e.pod := PodAfter(s.pods[e.pod], See(s, e.pod), s.now, e)])
  }

  /** Time: writes become visible within the bound, and brokers and restarts wait. */
  predicate InTime(c: Params, s: State, e: Event) {
    match e
    case Tick(now) => forall p <- s.pods, w <- s.pods[p].pending :: now <= w.deadline
    case Reserve(_, _, deadline) => s.now <= deadline <= s.now + c.visibility
    case Use(_, deadline) => s.now <= deadline <= s.now + c.visibility
    case Recheck(p) => p in s.pods && s.pods[p].pc.Waiting? && s.pods[p].pc.since + c.wait <= s.now
    case Restart(p) => p in s.pods && s.pods[p].pc.Down? && s.pods[p].pc.since + c.restart <= s.now
    case _ => true
  }

  /** A run of the timed system: events and the states they lead through, from a state where every pod is fresh. */
  ghost predicate IsRun(c: Params, events: seq<Event>, states: seq<State>) {
    && |states| == |events| + 1
    && states[0] == State(map p | p in c.names :: FRESH, 0)
    && forall i :: 0 <= i < |events| ==>
                     && Possible(c, states[i], events[i]) && InTime(c, states[i], events[i])
                     && states[i + 1] == After(states[i], events[i])
  }

  /** The pod has decided to use the IP. */
  predicate Decided(ps: PodState, ip: Ip6) {
    (ps.pc.Checked? && ps.pc.ip == ip) || ps.pc == Holding(ip)
  }

  /** The pod has decided on the IP, or is marked, or about to be marked, as using it. */
  ghost predicate Claims(ps: PodState, ip: Ip6) {
    Decided(ps, ip) || ps.ann.used == Some(ip) || exists w <- ps.pending :: w.used && w.ip == ip
  }

  ghost predicate MutualExclusion(s: State) {
    forall p <- s.pods, q <- s.pods, ip :: p != q && Decided(s.pods[p], ip) ==> !Decided(s.pods[q], ip)
  }

  /** Safety of the system with the given parameters, over all runs. */
  ghost predicate Safe(c: Params) {
    forall events, states :: IsRun(c, events, states) ==> forall s <- states :: MutualExclusion(s)
  }

  // ----- the invariant

  /** What is under way for a pod: nothing, reservations while nothing is marked used, or one mark. */
  ghost predicate Consistent(ps: PodState) {
    || (forall w <- ps.pending :: !w.used && ps.ann.used.None?)
    || (forall w <- ps.pending :: w.used && (ps.ann.used == Some(w.ip) || ps.ann == Annotations(Some(w.ip), None)))
  }

  ghost predicate AtPC(ps: PodState) {
    match ps.pc
    case Down(_) => true
    case Start(_) => ps.pending == {}
    case Looked(_, seen) => ps.pending == {} && ps.ann.used.None? && !seen.ownUsed
    case Waiting(_, ip, _) =>
      && ps.ann.used.None? && (forall w <- ps.pending :: !w.used && w.ip == ip)
      && (ps.pending == {} ==> ps.ann.reserved == Some(ip))
    case Checked(seen, ip) =>
      ps.pending == {} && ps.ann == Annotations(Some(ip), None) && seen.ownIP == Some(ip) && !seen.ownUsed
    case Holding(ip) =>
      && (forall w <- ps.pending :: w.used && w.ip == ip)
      && (ps.ann.used == Some(ip) || (ps.ann == Annotations(Some(ip), None) && ps.pending != {}))
  }

  ghost predicate Exclusive(s: State) {
    forall p <- s.pods, q <- s.pods, ip :: p != q && Claims(s.pods[p], ip) ==> !Claims(s.pods[q], ip)
  }

  ghost predicate Inv(s: State) {
    && (forall p <- s.pods :: Consistent(s.pods[p]) && AtPC(s.pods[p]))
    && Exclusive(s)
  }

  /** The step that matters is taken with none of the pod's own writes under way. */
  predicate Quiescent(s: State, e: Event) {
    (e.Recheck? || e.Restart?) && e.pod in s.pods ==> s.pods[e.pod].pending == {}
  }

  /** A claim is always backed by the annotation that counts. */
  lemma ClaimIsVisible(ps: PodState, ip: Ip6)
    requires Consistent(ps) && AtPC(ps) && Claims(ps, ip)
    ensures ps.ann.IP() == Some(ip)
  {
  }

  /** A step makes no claim that was not there, except passing the conflict check. */
  lemma ClaimsOnlyByCheck(c: Params, s: State, e: Event, ip: Ip6)
    requires Inv(s) && Possible(c, s, e) && Quiescent(s, e) && !e.Tick?
    requires Claims(PodAfter(s.pods[e.pod], See(s, e.pod), s.now, e), ip)
    ensures Claims(s.pods[e.pod], ip) || (e.Recheck? && !HasConflict(See(s, e.pod), Some(ip)))
  {
    assert Store(s)[e.pod] == s.pods[e.pod].ann;
  }

  lemma PodKeepsShape(c: Params, s: State, e: Event)
    requires Inv(s) && Possible(c, s, e) && Quiescent(s, e) && !e.Tick?
    ensures Consistent(PodAfter(s.pods[e.pod], See(s, e.pod), s.now, e)) && AtPC(PodAfter(s.pods[e.pod], See(s, e.pod), s.now, e))
  {
    assert Store(s)[e.pod] == s.pods[e.pod].ann;
  }

  /** Whoever passes the conflict check claims an IP that no other pod claims. */
  lemma CheckedIsUnclaimed(s: State, p: Pod, q: Pod, ip: Ip6)
    requires Inv(s) && p in s.pods && q in s.pods && p != q && Claims(s.pods[q], ip)
    ensures HasConflict(See(s, p), Some(ip))
  {
    ClaimIsVisible(s.pods[q], ip);
    assert Store(s)[q].IP() == Some(ip);
    ConflictIff(Store(s), p, ip);
  }

  /** Every quiescent step, however it is timed, keeps the invariant. */
  lemma StepKeepsInv(c: Params, s: State, e: Event)
    requires Inv(s) && Possible(c, s, e) && Quiescent(s, e)
    ensures Inv(After(s, e))
  {
    if !e.Tick? {
      PodKeepsShape(c, s, e);
      var t := After(s, e);
      forall p <- t.pods, ip | p != e.pod && Claims(t.pods[p], ip)
        ensures !Claims(t.pods[e.pod], ip)
      {
        if Claims(t.pods[e.pod], ip) {
          ClaimsOnlyByCheck(c, s, e, ip);
          CheckedIsUnclaimed(s, e.pod, p, ip);
        }
      }
    }
  }

  // ----- the timed system

  /** Where the writes under way stand in time. */
  ghost predicate Timely(c: Params, s: State) {
    forall p <- s.pods, w <- s.pods[p].pending ::
      && s.now <= w.deadline <= s.now + c.visibility
      && (s.pods[p].pc.Waiting? || s.pods[p].pc.Down? ==> w.deadline <= s.pods[p].pc.since + c.visibility)
  }

  /** If the broker waits longer than a write can take, and so does the restart, the critical steps are quiescent. */
  lemma TimedIsQuiescent(c: Params, s: State, e: Event)
    requires Timely(c, s) && InTime(c, s, e) && c.visibility < c.wait && c.visibility < c.restart
    ensures Quiescent(s, e)
  {
    if e.Recheck? || e.Restart? {
      var ps := s.pods[e.pod];
      var since := ps.pc.since;
      assert forall w <- ps.pending :: s.now <= w.deadline <= since + c.visibility;
    }
  }

  lemma StepKeepsTime(c: Params, s: State, e: Event)
    requires Inv(s) && Timely(c, s) && Possible(c, s, e) && InTime(c, s, e)
    ensures Timely(c, After(s, e))
  {
  }

  lemma {:induction false} RunKeepsInv(c: Params, events: seq<Event>, states: seq<State>, i: nat)
    requires c.visibility < c.wait && c.visibility < c.restart
    requires IsRun(c, events, states) && i < |states|
    ensures Inv(states[i]) && Timely(c, states[i])
  {
    if i > 0 {
      RunKeepsInv(c, events, states, i - 1);
      TimedIsQuiescent(c, states[i - 1], events[i - 1]);
      StepKeepsInv(c, states[i - 1], events[i - 1]);
      StepKeepsTime(c, states[i - 1], events[i - 1]);
    }
  }

  /** Over all runs with waits longer than the visibility delay: at the conflict check and when using the IP, a pod
      has no write under way; the IP written as used is the one checked; "own ip undefined" does not occur; and no
      two pods claim the same IP. */
  lemma TimedRunsAreSafe(c: Params, events: seq<Event>, states: seq<State>, i: nat)
    requires c.visibility < c.wait && c.visibility < c.restart
    requires IsRun(c, events, states) && i < |events|
    ensures events[i].Recheck? ==> states[i].pods[events[i].pod].pending == {}
    ensures events[i].Use? ==>
              var ps := states[i].pods[events[i].pod];
              ps.pending == {} && ps.pc.seen.ownIP == Some(ps.pc.ip) && !ps.pc.seen.ownUsed
              && states[i + 1].pods[events[i].pod].pc == Holding(ps.pc.ip)
    ensures Exclusive(states[i]) && Exclusive(states[i + 1])
  {
    RunKeepsInv(c, events, states, i);
    RunKeepsInv(c, events, states, i + 1);
    TimedIsQuiescent(c, states[i], events[i]);
  }

  lemma ExclusiveMeansMutualExclusion(s: State)
    requires Exclusive(s)
    ensures MutualExclusion(s)
  {
    assert forall p <- s.pods, ip :: Decided(s.pods[p], ip) ==> Claims(s.pods[p], ip);
  }

  lemma LongWaitsAreSafe(c: Params)
    requires c.visibility < c.wait && c.visibility < c.restart
    ensures Safe(c)
  {
    forall events, states | IsRun(c, events, states)
      ensures forall s <- states :: MutualExclusion(s)
    {
      forall i | 0 <= i < |states| ensures MutualExclusion(states[i]) {
        RunKeepsInv(c, events, states, i);
        ExclusiveMeansMutualExclusion(states[i]);
      }
    }
  }
}
