/** The same brokers against a store whose writes take effect within the call, as the Kubernetes API server's
    do. Lookups still go stale before they are used, and no assumption is made about time. */
module IpPoolAtomic {
  import opened Cidrs
  import opened IpPoolStore
  import opened IpPoolProtocol

  /** The write an event sends, if it sends one. */
  function WriteOf(ps: PodState, e: Event): Option<Write> {
    match e
    case Reserve(_, ip, deadline) => if ps.pc.Looked? then Some(Write(ip, false, deadline)) else None
    case Use(_, deadline) =>
      if ps.pc.Checked? && !ps.pc.seen.ownUsed && ps.pc.seen.ownIP.Some?
      then Some(Write(ps.pc.seen.ownIP.value, true, deadline)) else None
    case _ => None
  }

  /** What the event, and its write at once, do to the pod. */
  function AtomicPodAfter(ps: PodState, seen: Lookup, now: nat, e: Event): PodState {
    var next := PodAfter(ps, seen, now, e);
    match WriteOf(ps, e)
    case Some(w) => next.(ann := Patched(next.ann, w.ip, w.used), pending := next.pending - {w})
    case None => next
  }

  function AtomicAfter(s: State, e: Event): State {
    if e.Tick? then s.(now := e.now)
    else if e.pod !in s.pods then s
    else s.(pods := s.pods[e.pod := AtomicPodAfter(s.pods[e.pod], See(s, e.pod), s.now, e)])
  }

  ghost predicate IsAtomicRun(c: Params, events: seq<Event>, states: seq<State>) {
    && |states| == |events| + 1
    && states[0] == State(map p | p in c.names :: FRESH, 0)
    && forall i :: 0 <= i < |events| ==>
                     Possible(c, states[i], events[i]) && states[i + 1] == AtomicAfter(states[i], events[i])
  }

  ghost predicate NothingPending(s: State) {
    forall p <- s.pods :: s.pods[p].pending == {}
  }

  lemma AtomicStepKeepsInv(c: Params, s: State, e: Event)
    requires Inv(s) && NothingPending(s) && Possible(c, s, e)
    ensures Inv(AtomicAfter(s, e)) && NothingPending(AtomicAfter(s, e))
  {
    hide Inv, See;
    StepKeepsInv(c, s, e);
    if !e.Tick? {
      var w := WriteOf(s.pods[e.pod], e);
      if w.Some? {
        assert After(s, e).pods[e.pod].pending == {w.value};
        StepKeepsInv(c, After(s, e), Land(e.pod, w.value));
        assert AtomicAfter(s, e) == After(After(s, e), Land(e.pod, w.value));
      }
    }
  }

  lemma {:induction false} AtomicRunKeepsInv(c: Params, events: seq<Event>, states: seq<State>, i: nat)
    requires IsAtomicRun(c, events, states) && i < |states|
    ensures Inv(states[i]) && NothingPending(states[i])
  {
    if i > 0 {
      AtomicRunKeepsInv(c, events, states, i - 1);
      AtomicStepKeepsInv(c, states[i - 1], events[i - 1]);
    }
  }

  /** With atomic writes no wait is needed for safety: over all runs, with failures, crashes, restarts and
      deletions, no two pods are past the conflict check with, or marked as using, the same IP, and the IP
      marked as used is the one checked. */
  lemma AtomicRunsAreSafe(c: Params, events: seq<Event>, states: seq<State>, i: nat)
    requires IsAtomicRun(c, events, states) && i < |events|
    ensures Exclusive(states[i]) && MutualExclusion(states[i])
    ensures Exclusive(states[i + 1]) && MutualExclusion(states[i + 1])
    ensures events[i].Use? ==>
              var p := events[i].pod;
              states[i + 1].pods[p].pc == Holding(states[i].pods[p].pc.ip)
              && states[i + 1].pods[p].ann.used == Some(states[i].pods[p].pc.ip)
  {
    AtomicRunKeepsInv(c, events, states, i);
    AtomicRunKeepsInv(c, events, states, i + 1);
    ExclusiveMeansMutualExclusion(states[i]);
    ExclusiveMeansMutualExclusion(states[i + 1]);
  }

  /** In a timed run, the store makes every write visible before anything else happens. */
  ghost predicate Prompt(events: seq<Event>, states: seq<State>) {
    |states| == |events| + 1 && forall i | 0 <= i < |events| - 1 :: LandsNext(states[i], events[i], events[i + 1])
  }

  ghost predicate LandsNext(s: State, e: Event, next: Event) {
    e.Tick? || e.pod !in s.pods || WriteOf(s.pods[e.pod], e).None?
    || next == Land(e.pod, WriteOf(s.pods[e.pod], e).value)
  }

  /** Nothing is under way but the write just sent. */
  ghost predicate OnlyLatest(s: State, before: State, e: Event) {
    forall p <- s.pods, w <- s.pods[p].pending :: IsLatest(before, e, p, w)
  }

  ghost predicate IsLatest(before: State, e: Event, p: Pod, w: Write) {
    !e.Tick? && e.pod == p && p in before.pods && WriteOf(before.pods[p], e) == Some(w)
  }

  lemma PromptStep(c: Params, before: State, e: Event, s: State, next: Event)
    requires OnlyLatest(s, before, e) && LandsNext(before, e, next) && Inv(s) && Possible(c, s, next)
    ensures Quiescent(s, next) && OnlyLatest(After(s, next), s, next)
  {
    hide Inv, See;
    forall p, w | p in s.pods && w in s.pods[p].pending ensures next == Land(p, w) {
      assert IsLatest(before, e, p, w);
    }
    if !next.Tick? && !next.Land? && next.pod in s.pods {
      assert forall w :: w !in s.pods[next.pod].pending;
      assert s.pods[next.pod].pending == {};
    }
  }

  lemma FirstStep(c: Params, s: State, e: Event)
    requires NothingPending(s) && Inv(s) && Possible(c, s, e)
    ensures Quiescent(s, e) && OnlyLatest(After(s, e), s, e)
  {
    hide Inv, See;
  }

  /** Timed runs over a store with prompt writes keep the invariant, however short the waits. */
  lemma {:induction false} PromptRunKeepsInv(c: Params, events: seq<Event>, states: seq<State>, i: nat)
    requires IsRun(c, events, states) && Prompt(events, states) && i < |states|
    ensures Inv(states[i])
    ensures i > 0 ==> OnlyLatest(states[i], states[i - 1], events[i - 1])
  {
    hide Inv, After, Possible, InTime, OnlyLatest, LandsNext, Quiescent;
    if i == 0 {
      InitialInv(c, states[0]);
    } else {
      PromptRunKeepsInv(c, events, states, i - 1);
      if i == 1 {
        InitialInv(c, states[0]);
        FirstStep(c, states[0], events[0]);
      } else {
        assert LandsNext(states[i - 2], events[i - 2], events[i - 2 + 1]);
        PromptStep(c, states[i - 2], events[i - 2], states[i - 1], events[i - 1]);
      }
      StepKeepsInv(c, states[i - 1], events[i - 1]);
    }
  }

  lemma InitialInv(c: Params, s: State)
    requires s == State(map p | p in c.names :: FRESH, 0)
    ensures Inv(s) && NothingPending(s)
  {
  }

  /** What makes a timed run safe: the waits exceed the write delay, or the writes are prompt. */
  ghost predicate Trusted(c: Params, events: seq<Event>, states: seq<State>) {
    (c.visibility < c.wait && c.visibility < c.restart) || Prompt(events, states)
  }

  lemma TrustedKeepsInv(c: Params, events: seq<Event>, states: seq<State>, i: nat)
    requires IsRun(c, events, states) && Trusted(c, events, states) && i < |states|
    ensures Inv(states[i])
  {
    if Prompt(events, states) {
      PromptRunKeepsInv(c, events, states, i);
    } else {
      RunKeepsInv(c, events, states, i);
    }
  }
}
