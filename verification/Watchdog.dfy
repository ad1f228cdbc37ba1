/** The watchdog of the tunnel controller (pkg/shoot_client/tunnel/watchdog.go) and its specification as a
    function of the event history. An event is true for a failure. */
module WatchdogSpec {
  import opened Bits

  datatype Config = Config(windowsize: int, threshold: int, cooldown: int) {
    predicate Valid() {
      0 < threshold <= windowsize && 0 < cooldown
    }
  }

  /** Events still to be ignored, and all events recorded since the last reset. */
  datatype State = State(cooldown: nat, recorded: seq<bool>)

  const START := State(0, [])

  function Failures(events: seq<bool>): nat {
    if events == [] then 0 else (if events[0] then 1 else 0) + Failures(events[1..])
  }

  function LastN(events: seq<bool>, n: nat): seq<bool> {
    if |events| <= n then events else events[|events| - n..]
  }

  predicate Fires(cfg: Config, st: State, failure: bool)
    requires cfg.Valid()
  {
    st.cooldown == 0 && Failures(LastN(st.recorded + [failure], cfg.windowsize)) >= cfg.threshold
  }

  function Step(cfg: Config, st: State, failure: bool): State
    requires cfg.Valid()
  {
    if st.cooldown > 0 then State(st.cooldown - 1, st.recorded)
    else if Fires(cfg, st, failure) then State(cfg.cooldown, [])
    else State(0, st.recorded + [failure])
  }

  /** The state after a whole run, and the number of firings in it. */
  function Run(cfg: Config, events: seq<bool>): State
    requires cfg.Valid()
  {
    if events == [] then START else Step(cfg, Run(cfg, events[..|events| - 1]), events[|events| - 1])
  }

  function Firings(cfg: Config, events: seq<bool>): nat
    requires cfg.Valid()
  {
    if events == [] then 0
    else
      var before := events[..|events| - 1];
      Firings(cfg, before) + if Fires(cfg, Run(cfg, before), events[|events| - 1]) then 1 else 0
  }

  lemma {:induction false} FailuresConcat(a: seq<bool>, b: seq<bool>)
    ensures Failures(a + b) == Failures(a) + Failures(b)
  {
    if a == [] {
      assert a + b == b;
    } else {
      assert (a + b)[1..] == a[1..] + b;
      FailuresConcat(a[1..], b);
    }
  }

  lemma RunAppend(cfg: Config, events: seq<bool>, e: bool)
    requires cfg.Valid()
    ensures Run(cfg, events + [e]) == Step(cfg, Run(cfg, events), e)
    ensures Firings(cfg, events + [e]) == Firings(cfg, events) + if Fires(cfg, Run(cfg, events), e) then 1 else 0
  {
    assert (events + [e])[..|events|] == events;
  }

  /** The window counts one failure more at most, and none more for a success. */
  lemma WindowStep(recorded: seq<bool>, e: bool, n: nat)
    requires n > 0
    ensures Failures(LastN(recorded + [e], n)) <= Failures(LastN(recorded, n)) + if e then 1 else 0
  {
    var w := LastN(recorded, n);
    FailuresConcat(w, [e]);
    if |recorded| < n {
      assert LastN(recorded + [e], n) == w + [e];
    } else {
      FailuresConcat([w[0]], w[1..]);
      FailuresConcat(w[1..], [e]);
      assert w == [w[0]] + w[1..];
      assert LastN(recorded + [e], n) == w[1..] + [e];
    }
  }

  /** What holds between any two events of any run. */
  ghost predicate Quiet(cfg: Config, st: State)
    requires cfg.Valid()
  {
    && st.cooldown <= cfg.cooldown
    && (st.cooldown > 0 ==> st.recorded == [])
    && Failures(LastN(st.recorded, cfg.windowsize)) < cfg.threshold
  }

  lemma {:induction false} RunIsQuiet(cfg: Config, events: seq<bool>)
    requires cfg.Valid()
    ensures Quiet(cfg, Run(cfg, events))
  {
    if events != [] {
      RunIsQuiet(cfg, events[..|events| - 1]);
    }
  }

  /** A success never fires, in any reachable state. */
  lemma SucceedNeverFires(cfg: Config, events: seq<bool>)
    requires cfg.Valid()
    ensures !Fires(cfg, Run(cfg, events), false)
  {
    RunIsQuiet(cfg, events);
    WindowStep(Run(cfg, events).recorded, false, cfg.windowsize);
  }

  /** The index of the first event that counts after the last firing: the cooldown's events are skipped. */
  function CountsFrom(cfg: Config, events: seq<bool>): nat
    requires cfg.Valid()
  {
    if events == [] then 0
    else
      var before := events[..|events| - 1];
      if Fires(cfg, Run(cfg, before), events[|events| - 1]) then |events| + cfg.cooldown
      else CountsFrom(cfg, before)
  }

  /** The recorded events are exactly the suffix of the history that starts there. */
  lemma {:induction false} RecordedIsSuffix(cfg: Config, events: seq<bool>)
    requires cfg.Valid()
    ensures var from, st := CountsFrom(cfg, events), Run(cfg, events);
            if from <= |events| then st == State(0, events[from..]) else st == State(from - |events|, [])
  {
    hide Failures, LastN;
    if events != [] {
      var before := events[..|events| - 1];
      RecordedIsSuffix(cfg, before);
      assert events == before + [events[|events| - 1]];
    }
  }

  /** The firing rule in terms of the history alone. */
  lemma FiresIff(cfg: Config, events: seq<bool>, e: bool)
    requires cfg.Valid()
    ensures Fires(cfg, Run(cfg, events), e) <==>
            CountsFrom(cfg, events) <= |events|
            && Failures(LastN((events + [e])[CountsFrom(cfg, events)..], cfg.windowsize)) >= cfg.threshold
  {
    RecordedIsSuffix(cfg, events);
    var from := CountsFrom(cfg, events);
    if from <= |events| {
      assert (events + [e])[from..] == events[from..] + [e];
    }
  }

  /** Every firing costs threshold failures and is followed by a full cooldown. */
  lemma {:induction false} Budget(cfg: Config, events: seq<bool>)
    requires cfg.Valid()
    ensures |events| + Run(cfg, events).cooldown >=
            Firings(cfg, events) * (cfg.threshold + cfg.cooldown)
            + Failures(LastN(Run(cfg, events).recorded, cfg.windowsize))
  {
    hide Run, Firings, Failures, LastN, Fires;
    EmptyRun(cfg);
    if events == [] {
      NoFailures(cfg.windowsize);
    } else {
      var before, e := events[..|events| - 1], events[|events| - 1];
      assert before + [e] == events;
      Budget(cfg, before);
      RunIsQuiet(cfg, before);
      RunAppend(cfg, before, e);
      StepCost(cfg, Run(cfg, before), e);
      var k, c := Firings(cfg, before), cfg.threshold + cfg.cooldown;
      assert (k + 1) * c == k * c + c;
    }
  }

  lemma NoFailures(n: nat)
    ensures Failures(LastN([], n)) == 0
  {
  }

  /** One event pays for the change of the cooldown, the window and a firing. */
  lemma StepCost(cfg: Config, st: State, e: bool)
    requires cfg.Valid() && Quiet(cfg, st)
    ensures var next := Step(cfg, st, e);
            1 + next.cooldown - st.cooldown >=
            Failures(LastN(next.recorded, cfg.windowsize)) - Failures(LastN(st.recorded, cfg.windowsize))
            + if Fires(cfg, st, e) then cfg.threshold + cfg.cooldown else 0
  {
    hide Failures, LastN;
    WindowStep(st.recorded, e, cfg.windowsize);
    NoFailures(cfg.windowsize);
  }

  /** Rate limit: k firings take at least k * threshold + (k - 1) * cooldown events. */
  lemma RateLimit(cfg: Config, events: seq<bool>)
    requires cfg.Valid() && Firings(cfg, events) > 0
    ensures var k := Firings(cfg, events); |events| >= k * cfg.threshold + (k - 1) * cfg.cooldown
  {
    hide Run, Firings, Failures, LastN;
    Budget(cfg, events);
    RunIsQuiet(cfg, events);
    FiringCost(Firings(cfg, events), cfg.threshold, cfg.cooldown);
  }

  lemma FiringCost(k: int, t: int, c: int)
    ensures k * (t + c) == k * t + (k - 1) * c + c
  {
  }

  function AllFail(n: nat): (r: seq<bool>)
    ensures |r| == n
  {
    if n == 0 then [] else AllFail(n - 1) + [true]
  }

  lemma {:induction false} AllFailFailures(n: nat)
    ensures Failures(AllFail(n)) == n
  {
    if n > 0 {
      AllFailFailures(n - 1);
      FailuresConcat(AllFail(n - 1), [true]);
    }
  }

  /** In a run of failures only, the watchdog fires once per threshold + cooldown events: after
      k * (threshold + cooldown) - cooldown + m events it has fired exactly k times. */
  lemma {:induction false} AllFailRun(cfg: Config, k: nat, m: nat, n: nat)
    requires cfg.Valid() && m < cfg.threshold + cfg.cooldown
    requires n + cfg.cooldown == k * (cfg.threshold + cfg.cooldown) + m
    ensures Firings(cfg, AllFail(n)) == k
    ensures Run(cfg, AllFail(n)) == if m < cfg.cooldown then State(cfg.cooldown - m, []) else State(0, AllFail(m - cfg.cooldown))
    decreases n
  {
    hide Run, Firings, Fires, Failures, LastN;
    var period := cfg.threshold + cfg.cooldown;
    EmptyRun(cfg);
    if n > 0 {
      if m > 0 {
        AllFailRun(cfg, k, m - 1, n - 1);
      } else {
        assert k > 0;
        assert (k - 1) * period == k * period - period;
        AllFailRun(cfg, k - 1, period - 1, n - 1);
      }
      RunAppend(cfg, AllFail(n - 1), true);
      AllFailStep(cfg, if m > 0 then m - 1 else period - 1);
    } else {
      assert k == 0 by {
        if k > 0 {
          NonZeroMultiple(k, period);
        }
      }
    }
  }

  lemma EmptyRun(cfg: Config)
    requires cfg.Valid()
    ensures Run(cfg, []) == START && Firings(cfg, []) == 0
  {
  }

  lemma AllFailStep(cfg: Config, m: nat)
    requires cfg.Valid() && m < cfg.threshold + cfg.cooldown
    ensures m < cfg.cooldown ==> !Fires(cfg, State(cfg.cooldown - m, []), true)
    ensures m >= cfg.cooldown ==>
              (Fires(cfg, State(0, AllFail(m - cfg.cooldown)), true) <==> m + 1 == cfg.threshold + cfg.cooldown)
  {
    if m >= cfg.cooldown {
      assert AllFail(m - cfg.cooldown) + [true] == AllFail(m + 1 - cfg.cooldown);
      AllFailFailures(m + 1 - cfg.cooldown);
    }
  }

  /** The rate limit is attained. */
  lemma RateLimitIsTight(cfg: Config, k: nat)
    requires cfg.Valid() && k > 0
    ensures exists n: nat :: n == k * cfg.threshold + (k - 1) * cfg.cooldown && Firings(cfg, AllFail(n)) == k
  {
    assert k * cfg.threshold >= 0 && (k - 1) * cfg.cooldown >= 0;
    var n := k * cfg.threshold + (k - 1) * cfg.cooldown;
    FiringCost(k, cfg.threshold, cfg.cooldown);
    AllFailRun(cfg, k, 0, n);
  }

  /** From any state whose cooldown is over, threshold failures in a row fire, unless it fired before that. */
  lemma {:induction false} FailuresAccumulate(cfg: Config, events: seq<bool>, n: nat)
    requires cfg.Valid() && n <= cfg.cooldown + cfg.threshold
    requires Firings(cfg, events + AllFail(n)) == Firings(cfg, events)
    ensures Accumulated(Run(cfg, events + AllFail(n)), Run(cfg, events).cooldown, n)
  {
    hide Run, Firings, Failures, LastN;
    if n == 0 {
      assert events + AllFail(0) == events;
    } else {
      var before := events + AllFail(n - 1);
      assert events + AllFail(n) == before + [true];
      RunAppend(cfg, before, true);
      FiringsGrow(cfg, events, AllFail(n - 1));
      FailuresAccumulate(cfg, events, n - 1);
      AccumulatedStep(cfg, Run(cfg, before), Run(cfg, events).cooldown, n - 1);
    }
  }

  /** After n failures, the first cool of them ignored: the rest are the latest recorded events. */
  ghost predicate Accumulated(st: State, cool: nat, n: nat) {
    if n < cool then st.cooldown == cool - n
    else st.cooldown == 0 && |st.recorded| >= n - cool && st.recorded[|st.recorded| - (n - cool)..] == AllFail(n - cool)
  }

  lemma AccumulatedStep(cfg: Config, st: State, cool: nat, n: nat)
    requires cfg.Valid() && Accumulated(st, cool, n) && !Fires(cfg, st, true)
    ensures Accumulated(Step(cfg, st, true), cool, n + 1)
  {
    hide Failures, LastN;
    if n >= cool {
      var r, m := st.recorded, n - cool;
      assert (r + [true])[|r| - m..] == r[|r| - m..] + [true];
    }
  }

  lemma {:induction false} FiringsGrow(cfg: Config, events: seq<bool>, more: seq<bool>)
    requires cfg.Valid()
    ensures Firings(cfg, events + more) >= Firings(cfg, events)
  {
    if more == [] {
      assert events + more == events;
    } else {
      FiringsGrow(cfg, events, more[..|more| - 1]);
      assert (events + more)[..|events + more| - 1] == events + more[..|more| - 1];
    }
  }

  /** Liveness: after any run, cooldown + threshold failures in a row contain a firing. */
  lemma EventuallyFires(cfg: Config, events: seq<bool>)
    requires cfg.Valid()
    ensures Firings(cfg, events + AllFail(cfg.cooldown + cfg.threshold)) > Firings(cfg, events)
  {
    hide Run, Firings, Failures, LastN, AllFail, Fires;
    var n := cfg.cooldown + cfg.threshold;
    FiringsGrow(cfg, events, AllFail(n));
    if Firings(cfg, events + AllFail(n)) == Firings(cfg, events) {
      FailuresAccumulate(cfg, events, n);
      RunIsQuiet(cfg, events);
      RunIsQuiet(cfg, events + AllFail(n));
      var r := Run(cfg, events + AllFail(n)).recorded;
      var m := n - Run(cfg, events).cooldown;
      ManyFailures(r, m, cfg.windowsize, cfg.threshold);
    }
  }

  ghost predicate FiresAfter(cfg: Config, events: seq<bool>, n: nat)
    requires cfg.Valid()
  {
    Firings(cfg, events + AllFail(n)) > Firings(cfg, events)
  }

  /** n failures in a row fire after every run exactly from n = cooldown + threshold on: right after a firing, one
      failure fewer is not enough. */
  lemma AlwaysFiresIff(cfg: Config, n: nat)
    requires cfg.Valid()
    ensures (forall events :: FiresAfter(cfg, events, n)) <==> n >= cfg.cooldown + cfg.threshold
  {
    hide FiresAfter;
    if n >= cfg.cooldown + cfg.threshold {
      forall events ensures FiresAfter(cfg, events, n) {
        ManyFire(cfg, events, n);
      }
    } else {
      FewDoNotFire(cfg, n);
    }
  }

  lemma ManyFire(cfg: Config, events: seq<bool>, n: nat)
    requires cfg.Valid() && n >= cfg.cooldown + cfg.threshold
    ensures FiresAfter(cfg, events, n)
  {
    hide Run, Firings, AllFail;
    var k := cfg.cooldown + cfg.threshold;
    EventuallyFires(cfg, events);
    AllFailConcat(k, n - k);
    FiringsGrow(cfg, events + AllFail(k), AllFail(n - k));
    assert events + AllFail(k) + AllFail(n - k) == events + AllFail(n);
  }

  lemma FewDoNotFire(cfg: Config, n: nat)
    requires cfg.Valid() && n < cfg.cooldown + cfg.threshold
    ensures !FiresAfter(cfg, AllFail(cfg.threshold), n)
  {
    hide Run, Firings, AllFail;
    AllFailRun(cfg, 1, 0, cfg.threshold);
    AllFailRun(cfg, 1, n, cfg.threshold + n);
    AllFailConcat(cfg.threshold, n);
  }

  lemma {:induction false} AllFailConcat(a: nat, b: nat)
    ensures AllFail(a) + AllFail(b) == AllFail(a + b)
  {
    if b > 0 {
      AllFailConcat(a, b - 1);
    }
  }

  lemma ManyFailures(r: seq<bool>, m: nat, windowsize: nat, threshold: nat)
    requires threshold <= m <= |r| && threshold <= windowsize
    requires r[|r| - m..] == AllFail(m)
    ensures Failures(LastN(r, windowsize)) >= threshold
  {
    var w := LastN(r, windowsize);
    var tail := r[|r| - threshold..];
    AllTrueTail(m, threshold);
    assert tail == r[|r| - m..][m - threshold..];
    AllFailFailures(threshold);
    assert w == w[..|w| - threshold] + tail;
    FailuresConcat(w[..|w| - threshold], tail);
  }

  lemma {:induction false} AllTrueTail(m: nat, k: nat)
    requires k <= m
    ensures AllFail(m)[m - k..] == AllFail(k)
  {
    if k > 0 {
      AllTrueTail(m - 1, k - 1);
      assert AllFail(m)[m - k..] == AllFail(m - 1)[m - k..] + [true];
    }
  }
}

/** The ring-buffer watchdog, proved to behave as the specification. */
module WatchdogRing {
  import opened Bits
  import opened Cidrs
  import opened WatchdogSpec

  function Falses(n: nat): seq<bool> {
    seq(n, _ => false)
  }

  /** The last n recorded events, padded with successes in front: the window right after a reset is all false. */
  function Window(recorded: seq<bool>, n: nat): (r: seq<bool>)
    ensures |r| == n
  {
    LastN(Falses(n) + recorded, n)
  }

  lemma {:induction false} FalsesFailures(n: nat)
    ensures Failures(Falses(n)) == 0
  {
    if n > 0 {
      assert Falses(n)[1..] == Falses(n - 1);
      FalsesFailures(n - 1);
    }
  }

  lemma WindowFailures(recorded: seq<bool>, n: nat)
    ensures Failures(Window(recorded, n)) == Failures(LastN(recorded, n))
  {
    if |recorded| >= n {
      assert Window(recorded, n) == LastN(recorded, n);
    } else {
      assert Window(recorded, n) == Falses(n - |recorded|) + recorded;
      FalsesFailures(n - |recorded|);
      FailuresConcat(Falses(n - |recorded|), recorded);
    }
  }

  lemma WindowAppend(recorded: seq<bool>, e: bool, n: nat)
    requires n > 0
    ensures Window(recorded + [e], n) == Window(recorded, n)[1..] + [e]
  {
    assert Falses(n) + (recorded + [e]) == Falses(n) + recorded + [e];
  }

  /** The ring read from the oldest entry on. */
  function Unrolled(ring: seq<bool>, pos: nat): seq<bool>
    requires pos <= |ring|
  {
    ring[pos..] + ring[..pos]
  }

  /** Overwriting the oldest entry and moving on drops it and appends the new one. */
  lemma RingStep(ring: seq<bool>, pos: nat, e: bool)
    requires pos < |ring|
    ensures Unrolled(ring[pos := e], (pos + 1) % |ring|) == Unrolled(ring, pos)[1..] + [e]
  {
    var next, n := ring[pos := e], |ring|;
    if pos + 1 == n {
      QuotientUnique(pos + 1, n, 1, 0);
      assert Unrolled(next, 0) == ring[..pos] + [e];
      assert Unrolled(ring, pos)[1..] == ring[..pos];
    } else {
      QuotientUnique(pos + 1, n, 0, pos + 1);
      assert Unrolled(next, pos + 1) == ring[pos + 1..] + (ring[..pos] + [e]);
      assert Unrolled(ring, pos)[1..] == ring[pos + 1..] + ring[..pos];
    }
  }

  class Watchdog {
    var window: array<bool>
    var windowPos: nat
    const threshold: int
    const cooldown: int
    var cooldownCount: nat
    ghost var recorded: seq<bool>

    ghost predicate Valid()
      reads this, window
    {
      && Cfg().Valid()
      && windowPos < window.Length
      && Unrolled(window[..], windowPos) == Window(recorded, window.Length)
    }

    ghost function Cfg(): Config
      reads this
    {
      Config(window.Length, threshold, cooldown)
    }

    /** The abstract state. */
    ghost function State(): WatchdogSpec.State
      reads this
    {
      WatchdogSpec.State(cooldownCount, recorded)
    }

    constructor (windowsize: int, threshold: int, cooldown: int)
      requires Config(windowsize, threshold, cooldown).Valid()
      ensures Valid() && fresh(window)
      ensures Cfg() == Config(windowsize, threshold, cooldown) && State() == START
    {
      this.window := new bool[windowsize](_ => false);
      this.windowPos := 0;
      this.threshold := threshold;
      this.cooldown := cooldown;
      this.cooldownCount := 0;
      this.recorded := [];
      new;
      assert Unrolled(window[..], 0) == Falses(windowsize) == Window([], windowsize);
    }

    /** record, for Fail (failure) and Succeed: one step of the specification; the action is called exactly when
        the specification fires, and its error is the result. */
    method Record(failure: bool, actionResult: Option<Error>) returns (called: bool, err: Option<Error>)
      requires Valid()
      modifies this, window
      ensures Valid() && Cfg() == old(Cfg()) && (window == old(window) || fresh(window))
      ensures called <==> Fires(Cfg(), old(State()), failure)
      ensures State() == Step(Cfg(), old(State()), failure)
      ensures err == if called then actionResult else None
    {
      if cooldownCount > 0 {
        cooldownCount := cooldownCount - 1;
        return false, None;
      }
      hide Failures, LastN, Falses, Window, Unrolled;
      RingStep(window[..], windowPos, failure);
      WindowAppend(recorded, failure, window.Length);
      window[windowPos] := failure;
      windowPos := (windowPos + 1) % window.Length;
      recorded := recorded + [failure];
      assert window[..] == old(window[..])[old(windowPos) := failure];

      var failures := CountFailures();
      if failures >= threshold {
        cooldownCount := cooldown;
        Reset();
        return true, actionResult;
      }
      return false, None;
    }

    /** The counting loop; the ring holds the failures of the last window-length recorded events. */
    method CountFailures() returns (failures: nat)
      requires Valid()
      ensures failures == Failures(LastN(recorded, window.Length))
    {
      failures := 0;
      for i := 0 to window.Length
        invariant failures == Failures(window[..i])
      {
        assert window[..i + 1] == window[..i] + [window[i]];
        FailuresConcat(window[..i], [window[i]]);
        if window[i] {
          failures := failures + 1;
        }
      }
      assert window[..window.Length] == window[..] == window[..windowPos] + window[windowPos..];
      FailuresConcat(window[..windowPos], window[windowPos..]);
      FailuresConcat(window[windowPos..], window[..windowPos]);
      WindowFailures(recorded, window.Length);
    }

    method Reset()
      requires Cfg().Valid()
      modifies this
      ensures fresh(window) && window.Length == old(window.Length)
      ensures Valid() && recorded == [] && cooldownCount == old(cooldownCount)
    {
      window := new bool[window.Length](_ => false);
      windowPos := 0;
      recorded := [];
      assert Unrolled(window[..], 0) == Falses(window.Length) == Window([], window.Length);
    }
  }

  datatype Invalid = InvalidWindowsize | InvalidThreshold | ThresholdAboveWindow | InvalidCooldown

  /** NewWatchdog: the parameters are checked in this order, and a watchdog is made exactly for a valid configuration. */
  method NewWatchdog(windowsize: int, threshold: int, cooldown: int) returns (wd: Watchdog?, err: Option<Invalid>)
    ensures wd != null <==> windowsize > 0 && threshold > 0 && threshold <= windowsize && cooldown > 0
    ensures wd != null <==> Config(windowsize, threshold, cooldown).Valid()
    ensures wd != null ==> err.None? && fresh(wd) && fresh(wd.window) && wd.Valid()
                           && wd.Cfg() == Config(windowsize, threshold, cooldown) && wd.State() == START
    ensures wd == null ==> err == Some(if windowsize <= 0 then InvalidWindowsize else if threshold <= 0 then InvalidThreshold
                                       else if threshold > windowsize then ThresholdAboveWindow else InvalidCooldown)
  {
    if windowsize <= 0 {
      return null, Some(InvalidWindowsize);
    }
    if threshold <= 0 {
      return null, Some(InvalidThreshold);
    }
    if threshold > windowsize {
      return null, Some(ThresholdAboveWindow);
    }
    if cooldown <= 0 {
      return null, Some(InvalidCooldown);
    }
    wd := new Watchdog(windowsize, threshold, cooldown);
    err := None;
  }
}
