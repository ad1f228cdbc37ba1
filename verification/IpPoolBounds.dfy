/** The waiting times are needed: with shorter ones two pods end up with the same address. */
module IpPoolBounds {
  import opened Cidrs
  import opened AddressPlan
  import opened IpPoolStore
  import opened IpPoolProtocol

  ghost predicate Reachable(c: Params, s: State) {
    exists events, states :: IsRun(c, events, states) && states[|events|] == s
  }

  lemma ReachableStep(c: Params, s: State, e: Event)
    requires Reachable(c, s) && Possible(c, s, e) && InTime(c, s, e)
    ensures Reachable(c, After(s, e))
  {
    var events, states :| IsRun(c, events, states) && states[|events|] == s;
    assert IsRun(c, events + [e], states + [After(s, e)]);
  }

  /** Two pods of interest; all others are fresh. */
  function Two(c: Params, a: Pod, b: Pod, x: PodState, y: PodState, now: nat): State {
    State((map p | p in c.names :: FRESH)[a := x][b := y], now)
  }

  /** What the first of the two sees of the second. */
  function View(own: Annotations, other: Annotations): Lookup {
    Lookup(own.IP(), own.used.Some?,
           if other.used.Some? then {other.used.value} else {},
           if other.used.None? && other.reserved.Some? then {other.reserved.value} else {})
  }

  lemma SeeTwo(c: Params, a: Pod, b: Pod, x: PodState, y: PodState, now: nat)
    requires a != b && a in c.names && b in c.names
    ensures See(Two(c, a, b, x, y, now), a) == View(x.ann, y.ann)
    ensures Two(c, a, b, x, y, now) == Two(c, b, a, y, x, now)
  {
    var s := Two(c, a, b, x, y, now);
    StoreOfTwo(c, a, b, x, y, now);
    LookupOfTwo(Store(s), a, b);
  }

  lemma StoreOfTwo(c: Params, a: Pod, b: Pod, x: PodState, y: PodState, now: nat)
    requires a != b && a in c.names && b in c.names
    ensures var store := Store(Two(c, a, b, x, y, now));
            && a in store && b in store && store[a] == x.ann && store[b] == y.ann
            && forall p <- store :: p != a && p != b ==> store[p] == UNANNOTATED
  {
  }

  lemma LookupOfTwo(store: map<Pod, Annotations>, a: Pod, b: Pod)
    requires a in store && b in store && a != b
    requires forall p <- store :: p != a && p != b ==> store[p] == UNANNOTATED
    ensures LookupOf(store, a) == View(store[a], store[b])
  {
    assert LookupOf(store, a).foreignUsed == View(store[a], store[b]).foreignUsed;
    assert LookupOf(store, a).foreignReserved == View(store[a], store[b]).foreignReserved;
  }

  /** An event of the first pod. */
  lemma Move(c: Params, a: Pod, b: Pod, x: PodState, y: PodState, now: nat, e: Event)
    requires a != b && a in c.names && b in c.names && !e.Tick? && e.pod == a
    requires Reachable(c, Two(c, a, b, x, y, now))
    requires Possible(c, Two(c, a, b, x, y, now), e) && InTime(c, Two(c, a, b, x, y, now), e)
    ensures Reachable(c, Two(c, a, b, PodAfter(x, View(x.ann, y.ann), now, e), y, now))
  {
    var s := Two(c, a, b, x, y, now);
    SeeTwo(c, a, b, x, y, now);
    ReachableStep(c, s, e);
    assert After(s, e) == Two(c, a, b, PodAfter(x, View(x.ann, y.ann), now, e), y, now);
  }

  /** An event of the second pod. */
  lemma MoveOther(c: Params, a: Pod, b: Pod, x: PodState, y: PodState, now: nat, e: Event)
    requires a != b && a in c.names && b in c.names && !e.Tick? && e.pod == b
    requires Reachable(c, Two(c, a, b, x, y, now))
    requires Possible(c, Two(c, a, b, x, y, now), e) && InTime(c, Two(c, a, b, x, y, now), e)
    ensures Reachable(c, Two(c, a, b, x, PodAfter(y, View(y.ann, x.ann), now, e), now))
  {
    SeeTwo(c, a, b, x, y, now);
    Move(c, b, a, y, x, now, e);
    SeeTwo(c, a, b, x, PodAfter(y, View(y.ann, x.ann), now, e), now);
  }

  lemma Wait(c: Params, a: Pod, b: Pod, x: PodState, y: PodState, now: nat, later: nat)
    requires Reachable(c, Two(c, a, b, x, y, now)) && now <= later
    requires forall w <- x.pending + y.pending :: later <= w.deadline
    ensures Reachable(c, Two(c, a, b, x, y, later))
  {
    ReachableStep(c, Two(c, a, b, x, y, now), Tick(later));
  }

  lemma Initially(c: Params, a: Pod, b: Pod)
    requires a in c.names && b in c.names
    ensures Reachable(c, Two(c, a, b, FRESH, FRESH, 0))
  {
    var s := Two(c, a, b, FRESH, FRESH, 0);
    assert s.pods == map p | p in c.names :: FRESH;
    assert IsRun(c, [], [s]);
  }

  /** A pod that is about to look up. */
  function Ready(ann: Annotations, try: nat): PodState {
    PodState(ann, {}, Start(try))
  }

  /** A pod that has reserved ip and just passed the conflict check against the other pod. */
  function Passed(ip: Ip6, other: Annotations): PodState {
    var ann := Annotations(Some(ip), None);
    PodState(ann, {}, Checked(View(ann, other), ip))
  }

  /** One undisturbed try of the first pod: reserve, see the write land at once, wait, check. */
  lemma UndisturbedTry(c: Params, a: Pod, b: Pod, ann: Annotations, y: PodState, now: nat, ip: Ip6)
    requires a != b && a in c.names && b in c.names && ip in c.pool
    requires ann.used.None? && y.pending == {} && y.ann.IP() != Some(ip)
    requires Reachable(c, Two(c, a, b, Ready(ann, 1), y, now))
    ensures Reachable(c, Two(c, a, b, Passed(ip, y.ann), y, now + c.wait))
  {
    hide Reachable, See, Store;
    var w := Write(ip, false, now);
    Move(c, a, b, Ready(ann, 1), y, now, FirstLookup(a));
    var looked := PodState(ann, {}, Looked(1, View(ann, y.ann)));
    Move(c, a, b, looked, y, now, Reserve(a, ip, now));
    var waiting := Waiting(1, ip, now);
    assert {} + {w} == {w} && {w} - {w} == {};
    Move(c, a, b, PodState(ann, {w}, waiting), y, now, Land(a, w));
    var reserved := PodState(Annotations(Some(ip), None), {}, waiting);
    Wait(c, a, b, reserved, y, now, now + c.wait);
    Move(c, a, b, reserved, y, now + c.wait, Recheck(a));
  }

  /** A restart within the visibility delay: the old process's mark becomes visible after the new one has looked,
      the new one reserves another address y, returns it, and nobody sees that it holds y. */
  lemma PromptRestart(c: Params, a: Pod, b: Pod, x: Ip6, y: Ip6)
    requires a != b && a in c.names && b in c.names && x != y && x in c.pool && y in c.pool
    requires c.restart <= c.visibility
    ensures exists z: PodState ::
              z.pc == Holding(y) && Reachable(c, Two(c, a, b, z, Passed(y, z.ann), c.wait + c.restart + c.wait + c.wait))
  {
    hide Reachable, See, Store;
    var t := c.wait + c.restart;
    Initially(c, a, b);
    UndisturbedTry(c, a, b, UNANNOTATED, FRESH, 0, x);
    var used, reserved := Write(x, true, t), Write(y, false, t);
    var ann := Annotations(Some(x), None);
    Move(c, a, b, Passed(x, UNANNOTATED), FRESH, c.wait, Use(a, t));
    assert {} + {used} == {used};
    Move(c, a, b, PodState(ann, {used}, Holding(x)), FRESH, c.wait, Crash(a));
    var down := PodState(ann, {used}, Down(c.wait));
    Wait(c, a, b, down, FRESH, c.wait, t);
    Move(c, a, b, down, FRESH, t, Restart(a));
    RestartedTooEarly(c, a, b, x, y, t);
  }

  /** The second process of the run above, from its start at time t on. */
  lemma RestartedTooEarly(c: Params, a: Pod, b: Pod, x: Ip6, y: Ip6, t: nat)
    requires a != b && a in c.names && b in c.names && x != y && x in c.pool && y in c.pool
    requires Reachable(c, Two(c, a, b, PodState(Annotations(Some(x), None), {Write(x, true, t)}, Start(1)), FRESH, t))
    ensures exists z: PodState ::
              z.pc == Holding(y) && Reachable(c, Two(c, a, b, z, Passed(y, z.ann), t + c.wait + c.wait))
  {
    hide Reachable, See, Store;
    var used, reserved := Write(x, true, t), Write(y, false, t);
    var ann := Annotations(Some(x), None);
    Move(c, a, b, PodState(ann, {used}, Start(1)), FRESH, t, FirstLookup(a));
    Move(c, a, b, PodState(ann, {used}, Looked(1, View(ann, UNANNOTATED))), FRESH, t, Reserve(a, y, t));
    var pc := Waiting(1, y, t);
    Move(c, a, b, PodState(ann, {used} + {reserved}, pc), FRESH, t, Land(a, used));
    assert {used} + {reserved} - {used} == {reserved};
    Move(c, a, b, PodState(Annotations(Some(x), Some(x)), {reserved}, pc), FRESH, t, Land(a, reserved));
    assert {reserved} - {reserved} == {};
    var both := Annotations(Some(y), Some(x));
    Wait(c, a, b, PodState(both, {}, pc), FRESH, t, t + c.wait);
    Move(c, a, b, PodState(both, {}, pc), FRESH, t + c.wait, Recheck(a));
    Move(c, a, b, PodState(both, {}, Checked(View(both, UNANNOTATED), y)), FRESH, t + c.wait, Use(a, t + c.wait));
    var z := PodState(both, {}, Holding(y));
    SeeTwo(c, a, b, z, FRESH, t + c.wait);
    UndisturbedTry(c, b, a, UNANNOTATED, z, t + c.wait, y);
    SeeTwo(c, b, a, Passed(y, both), z, t + c.wait + c.wait);
  }

  /** A wait within the visibility delay: after a conflict on x, the first pod checks its new reservation y before
      it is visible, and marks the stale x as used; the second pod sees only y and keeps x. */
  lemma ShortWait(c: Params, a: Pod, b: Pod, x: Ip6, y: Ip6)
    requires a != b && a in c.names && b in c.names && x != y && x in c.pool && y in c.pool
    requires c.wait <= c.visibility
    ensures exists u: PodState, v: PodState :: u.pc == Holding(x) && Decided(v, x)
                                     && Reachable(c, Two(c, a, b, u, v, c.wait + c.wait))
  {
    hide Reachable, See, Store;
    BothReserve(c, a, b, x);
    var t := c.wait;
    var ann := Annotations(Some(x), None);
    var other := PodState(ann, {}, Waiting(1, x, 0));
    Move(c, a, b, other, other, t, Recheck(a));
    Move(c, a, b, PodState(ann, {}, Start(2)), other, t, FirstLookup(a));
    Move(c, a, b, PodState(ann, {}, Looked(2, View(ann, ann))), other, t, Reserve(a, y, t + t));
    var later := Write(y, false, t + t);
    assert {} + {later} == {later};
    Wait(c, a, b, PodState(ann, {later}, Waiting(2, y, t)), other, t, t + t);
    StaleReservationUsed(c, a, b, x, y);
  }

  /** The last moment of the run above: the recheck of the first pod, its mark, and the recheck of the second. */
  lemma StaleReservationUsed(c: Params, a: Pod, b: Pod, x: Ip6, y: Ip6)
    requires a != b && a in c.names && b in c.names && x != y
    requires var t, ann := c.wait, Annotations(Some(x), None);
             Reachable(c, Two(c, a, b, PodState(ann, {Write(y, false, t + t)}, Waiting(2, y, t)),
                              PodState(ann, {}, Waiting(1, x, 0)), t + t))
    ensures exists u: PodState, v: PodState :: u.pc == Holding(x) && Decided(v, x)
                                               && Reachable(c, Two(c, a, b, u, v, c.wait + c.wait))
  {
    hide Reachable, See, Store;
    var t := c.wait;
    var ann := Annotations(Some(x), None);
    var later, used := Write(y, false, t + t), Write(x, true, t + t);
    var other := PodState(ann, {}, Waiting(1, x, 0));
    Move(c, a, b, PodState(ann, {later}, Waiting(2, y, t)), other, t + t, Recheck(a));
    Move(c, a, b, PodState(ann, {later}, Checked(View(ann, ann), y)), other, t + t, Use(a, t + t));
    Move(c, a, b, PodState(ann, {later} + {used}, Holding(x)), other, t + t, Land(a, later));
    assert {later} + {used} - {later} == {used};
    var u := PodState(Annotations(Some(y), None), {used}, Holding(x));
    MoveOther(c, a, b, u, other, t + t, Recheck(b));
    assert Decided(PodState(ann, {}, Checked(View(ann, u.ann), x)), x);
  }

  lemma BothReserve(c: Params, a: Pod, b: Pod, x: Ip6)
    requires a != b && a in c.names && b in c.names && x in c.pool
    ensures var one := PodState(Annotations(Some(x), None), {}, Waiting(1, x, 0));
            Reachable(c, Two(c, a, b, one, one, c.wait))
  {
    hide Reachable, See, Store;
    var w := Write(x, false, 0);
    var none := View(UNANNOTATED, UNANNOTATED);
    var looked := PodState(UNANNOTATED, {}, Looked(1, none));
    var pc := Waiting(1, x, 0);
    var one := PodState(Annotations(Some(x), None), {}, pc);
    assert {} + {w} == {w} && {w} - {w} == {};
    Initially(c, a, b);
    Move(c, a, b, FRESH, FRESH, 0, FirstLookup(a));
    MoveOther(c, a, b, looked, FRESH, 0, FirstLookup(b));
    Move(c, a, b, looked, looked, 0, Reserve(a, x, 0));
    MoveOther(c, a, b, PodState(UNANNOTATED, {w}, pc), looked, 0, Reserve(b, x, 0));
    Move(c, a, b, PodState(UNANNOTATED, {w}, pc), PodState(UNANNOTATED, {w}, pc), 0, Land(a, w));
    MoveOther(c, a, b, one, PodState(UNANNOTATED, {w}, pc), 0, Land(b, w));
    Wait(c, a, b, one, one, 0, c.wait);
  }

  lemma SafeMeansExclusive(c: Params, a: Pod, b: Pod, u: PodState, v: PodState, now: nat, ip: Ip6)
    requires Safe(c) && Reachable(c, Two(c, a, b, u, v, now)) && a != b
    ensures !(Decided(u, ip) && Decided(v, ip))
  {
    var s := Two(c, a, b, u, v, now);
    var events, states :| IsRun(c, events, states) && states[|events|] == s;
    assert s in states && s.pods[a] == u && s.pods[b] == v;
  }

  /** The protocol is safe exactly when both the broker's wait and the restart of a pod's process take longer than
      a write may take to become visible. */
  lemma SafeIff(c: Params, a: Pod, b: Pod, x: Ip6, y: Ip6)
    requires a != b && a in c.names && b in c.names && x != y && x in c.pool && y in c.pool
    ensures Safe(c) <==> c.visibility < c.wait && c.visibility < c.restart
  {
    if c.visibility < c.wait && c.visibility < c.restart {
      LongWaitsAreSafe(c);
    } else if Safe(c) {
      if c.wait <= c.visibility {
        ShortWait(c, a, b, x, y);
        var u: PodState, v: PodState :| u.pc == Holding(x) && Decided(v, x) && Reachable(c, Two(c, a, b, u, v, c.wait + c.wait));
        SafeMeansExclusive(c, a, b, u, v, c.wait + c.wait, x);
      } else {
        PromptRestart(c, a, b, x, y);
        var t := c.wait + c.restart + c.wait + c.wait;
        var z: PodState :| z.pc == Holding(y) && Reachable(c, Two(c, a, b, z, Passed(y, z.ann), t));
        SafeMeansExclusive(c, a, b, z, Passed(y, z.ann), t, y);
      }
    }
  }
}
