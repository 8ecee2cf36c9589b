/** The incremental commit machine of the enable loop (main/cmds.go), proved against the
    closed form. */
module CommitMachine {
  import opened Health
  import opened Debounce
  import opened GraceSpec

  /** The variables of the loop are what the closed form says of the observations `h`. */
  ghost predicate Agrees(cfg: Config, h: seq<Observation>, count: int, prev: HealthStatus, committed: HealthStatus,
                         honor: bool)
  {
    && count == Counter(cfg, h)
    && prev == Previous(cfg, h)
    && committed == Committed(cfg, h)
    && honor == InGrace(cfg, h)
  }

  class Machine {
    const cfg: Config
    var numConsecutiveProbes: int
    var prevState: HealthStatus
    var committedState: HealthStatus
    var honorGracePeriod: bool
    ghost var history: seq<Observation>

    /** Every field is a function of the observations made so far. */
    ghost predicate Valid()
      reads this
    {
      Agrees(cfg, history, numConsecutiveProbes, prevState, committedState, honorGracePeriod)
    }

    constructor (cfg: Config)
      ensures Valid() && this.cfg == cfg && history == []
    {
      this.cfg := cfg;
      numConsecutiveProbes := 0;
      prevState := Empty;
      committedState := Empty;
      honorGracePeriod := cfg.gracePeriod > 0;
      history := [];
    }

    /** One pass over the state of the loop. */
    method Step(probed: ProbeState, elapsed: int)
      requires Valid()
      modifies this
      ensures Valid() && history == old(history) + [Observation(probed, elapsed)]
    {
      ghost var h := history;
      var count, prev, committed, honor :=
        Advance(cfg, numConsecutiveProbes, prevState, committedState, honorGracePeriod, probed, elapsed, h);
      numConsecutiveProbes, prevState, committedState, honorGracePeriod := count, prev, committed, honor;
      history := h + [Observation(probed, elapsed)];
    }
  }

  /** One pass over the variables of the loop. */
  method Advance(cfg: Config, count: int, prev: HealthStatus, committed: HealthStatus, honor: bool,
                 probed: ProbeState, elapsed: int, ghost h: seq<Observation>)
    returns (count': int, prev': HealthStatus, committed': HealthStatus, honor': bool)
    requires Agrees(cfg, h, count, prev, committed, honor)
    ensures Agrees(cfg, h + [Observation(probed, elapsed)], count', prev', committed', honor')
  {
    Expected(cfg, h, Observation(probed, elapsed));
    count', prev', committed', honor' := count, prev, committed, honor;
    var state: HealthStatus := probed;
    if prev' == state {
      count' := count' + 1;
    } else {
      count' := 1;
      prev' := state;
    }

    if honor' {
      if elapsed >= cfg.gracePeriod {
        honor' := false;
        state := cfg.afterGrace;
        prev' := cfg.afterGrace;
        count' := 1;
        committed' := Empty;
      } else if count' == cfg.numberOfProbes && state != cfg.afterGrace {
        honor' := false;
      } else {
        state := Initializing;
      }
    }

    if count' == cfg.numberOfProbes || committed' == Empty {
      if state != committed' {
        committed' := state;
      }
      if count' == cfg.numberOfProbes {
        count' := 0;
      }
    }
  }

  /** The counter as the loop sees it before it wraps: the run of equal states, modulo the bound. */
  function Seen(cfg: Config, h: seq<Observation>, o: Observation): nat {
    if Previous(cfg, h) == o.state then Counter(cfg, h) + 1 else 1
  }

  /** The observation at which the grace period expires restarts everything from the after-grace state. */
  lemma {:induction false} ExpiryStep(cfg: Config, h: seq<Observation>, o: Observation)
    requires InGrace(cfg, h) && o.elapsed >= cfg.gracePeriod
    ensures !InGrace(cfg, h + [o])
    ensures Previous(cfg, h + [o]) == Committed(cfg, h + [o]) == cfg.afterGrace
    ensures Counter(cfg, h + [o]) == if cfg.numberOfProbes == 1 then 0 else 1
  {
    EffectiveStep(cfg, h, o);
  }

  /** One more state, seen by the wrapping counter. */
  lemma {:induction false} WrappedRun(e: seq<ProbeState>, x: ProbeState, n: Positive)
    ensures var seen := if e != [] && e[|e| - 1] == x then Wrap(TrailingRun(e), n) + 1 else 1;
            Wrap(TrailingRun(e + [x]), n) == if seen == n then 0 else seen
  {
    RunStep(e, x);
    WrapStep(TrailingRun(e), n);
    WrapStep(0, n);
  }

  lemma {:induction false} SeenIs(cfg: Config, h: seq<Observation>, o: Observation)
    ensures var e := Effective(cfg, h);
            Seen(cfg, h, o) ==
            if e != [] && e[|e| - 1] == o.state then Wrap(TrailingRun(e), cfg.numberOfProbes) + 1 else 1
  {
  }

  lemma {:induction false} LastObserved(cfg: Config, h: seq<Observation>, e: seq<ProbeState>, x: ProbeState)
    requires Effective(cfg, h) == e + [x]
    ensures Previous(cfg, h) == x && Counter(cfg, h) == Wrap(TrailingRun(e + [x]), cfg.numberOfProbes)
  {
  }

  lemma {:induction false} CounterStep(cfg: Config, h: seq<Observation>, o: Observation)
    requires !(InGrace(cfg, h) && o.elapsed >= cfg.gracePeriod)
    ensures var seen := Seen(cfg, h, o);
            Counter(cfg, h + [o]) == if seen == cfg.numberOfProbes then 0 else seen
    ensures Previous(cfg, h + [o]) == o.state
  {
    var e := Effective(cfg, h);
    EffectiveStep(cfg, h, o);
    LastObserved(cfg, h + [o], e, o.state);
    SeenIs(cfg, h, o);
    WrappedRun(e, o.state, cfg.numberOfProbes);
  }

  lemma {:induction false} GraceStep(cfg: Config, h: seq<Observation>, o: Observation)
    requires InGrace(cfg, h) && o.elapsed < cfg.gracePeriod
    ensures var wraps := Seen(cfg, h, o) == cfg.numberOfProbes && o.state != cfg.afterGrace;
            && (InGrace(cfg, h + [o]) <==> !wraps)
            && (wraps ==> Committed(cfg, h + [o]) == o.state)
  {
    var h', s := h + [o], States(h);
    EffectiveStep(cfg, h, o);
    if o.state != cfg.afterGrace {
      BypassIsRunOfN(cfg, h, o);
      RunStep(s, o.state);
      LastEqualIsLongRun(s + [o.state], cfg.numberOfProbes);
    }
  }

  lemma {:induction false} CommitStep(cfg: Config, h: seq<Observation>, o: Observation)
    requires !InGrace(cfg, h)
    ensures !InGrace(cfg, h + [o])
    ensures Committed(cfg, h + [o]) ==
            if Seen(cfg, h, o) == cfg.numberOfProbes || h == [] then o.state else Committed(cfg, h)
  {
    EffectiveStep(cfg, h, o);
    if h != [] {
      DebouncedAndCounter(Effective(cfg, h), o.state, cfg.numberOfProbes);
    }
  }

  /** The debounced value moves to the new state when the counter wraps and stays otherwise. */
  lemma {:induction false} DebouncedAndCounter(e: seq<ProbeState>, x: ProbeState, n: Positive)
    requires e != []
    ensures var seen := if e[|e| - 1] == x then Wrap(TrailingRun(e), n) + 1 else 1;
            Debounced(e + [x], n) == if seen == n then x else Debounced(e, n)
  {
    DebouncedStep(e, x, n);
    RunStep(e, x);
    WrapStep(TrailingRun(e), n);
  }

  /** Where one more observation takes the closed form, in the terms of the loop. */
  lemma {:induction false} Expected(cfg: Config, h: seq<Observation>, o: Observation)
    ensures Committed(cfg, h) == Empty <==> h == []
    ensures InGrace(cfg, h) && h != [] ==> Committed(cfg, h) == Initializing
    ensures var n, seen, h' := cfg.numberOfProbes, Seen(cfg, h, o), h + [o];
            if InGrace(cfg, h) && o.elapsed >= cfg.gracePeriod then
              Agrees(cfg, h', if n == 1 then 0 else 1, cfg.afterGrace, cfg.afterGrace, false)
            else
              var bypass := seen == n && o.state != cfg.afterGrace;
              Agrees(cfg, h', if seen == n then 0 else seen, o.state,
                     if InGrace(cfg, h) then (if bypass then o.state else Initializing)
                     else if seen == n || h == [] then o.state else Committed(cfg, h),
                     InGrace(cfg, h) && !bypass)
  {
    if h != [] { CommittedIsReportable(cfg, h); }
    if InGrace(cfg, h) && o.elapsed >= cfg.gracePeriod {
      ExpiryStep(cfg, h, o);
    } else {
      CounterStep(cfg, h, o);
      if InGrace(cfg, h) { GraceStep(cfg, h, o); } else { CommitStep(cfg, h, o); }
    }
  }
}
