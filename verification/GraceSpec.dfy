/** What the enable loop reports, as a closed form over the whole history of observations.
    Nothing here is incremental: no counter, no previous state, no flag. */
module GraceSpec {
  import opened Health
  import opened Debounce

  function States(h: seq<Observation>): (s: seq<ProbeState>)
    ensures |s| == |h|
    ensures forall i {:trigger s[i]} :: 0 <= i < |h| ==> s[i] == h[i].state
  {
    seq(|h|, i requires 0 <= i < |h| => h[i].state)
  }

  /** Observation `k` comes too late: the grace period is over. */
  predicate Expires(cfg: Config, h: seq<Observation>, k: nat)
    requires k < |h|
  {
    h[k].elapsed >= cfg.gracePeriod
  }

  /** Observation `k` is in time and completes enough equal observations of a valid state. */
  predicate Bypasses(cfg: Config, h: seq<Observation>, k: nat)
    requires k < |h|
  {
    && !Expires(cfg, h, k)
    && h[k].state != cfg.afterGrace
    && k + 1 >= cfg.numberOfProbes
    && forall i :: k + 1 - cfg.numberOfProbes <= i <= k ==> h[i].state == h[k].state
  }

  predicate EndsGrace(cfg: Config, h: seq<Observation>, k: nat)
    requires k < |h|
  {
    Expires(cfg, h, k) || Bypasses(cfg, h, k)
  }

  /** The first observation that ends the grace period, or `|h|` if there is none. */
  function GraceEnd(cfg: Config, h: seq<Observation>): (k: nat)
    ensures k <= |h|
  {
    if h == [] then 0
    else
      var k := GraceEnd(cfg, h[..|h| - 1]);
      if k < |h| - 1 || EndsGrace(cfg, h, |h| - 1) then k else |h|
  }

  lemma {:induction false} GraceEndIsFirst(cfg: Config, h: seq<Observation>)
    ensures GraceEnd(cfg, h) < |h| ==> EndsGrace(cfg, h, GraceEnd(cfg, h))
    ensures forall j :: 0 <= j < GraceEnd(cfg, h) ==> !EndsGrace(cfg, h, j)
  {
    if h == [] {
    } else {
      var t := h[..|h| - 1];
      GraceEndIsFirst(cfg, t);
      assert forall j :: 0 <= j < |t| ==> EndsGrace(cfg, t, j) == EndsGrace(cfg, h, j);
    }
  }

  predicate InGrace(cfg: Config, h: seq<Observation>) {
    cfg.gracePeriod > 0 && GraceEnd(cfg, h) == |h|
  }

  predicate EndedByExpiry(cfg: Config, h: seq<Observation>) {
    cfg.gracePeriod > 0 && GraceEnd(cfg, h) < |h| && Expires(cfg, h, GraceEnd(cfg, h))
  }

  /** The states that count: all of them, unless the grace period expired; then the after-grace
      state stands for everything up to and including the observation it expired at. */
  function Effective(cfg: Config, h: seq<Observation>): seq<ProbeState> {
    if EndedByExpiry(cfg, h) then [cfg.afterGrace] + States(h[GraceEnd(cfg, h) + 1..])
    else States(h)
  }

  /** The committed state after the observations `h`. */
  function Committed(cfg: Config, h: seq<Observation>): HealthStatus {
    if h == [] then Empty
    else if InGrace(cfg, h) then Initializing
    else Debounced(Effective(cfg, h), cfg.numberOfProbes)
  }

  /** The value of the consecutive-probe counter after the observations `h`. */
  function Counter(cfg: Config, h: seq<Observation>): nat {
    Wrap(TrailingRun(Effective(cfg, h)), cfg.numberOfProbes)
  }

  function Previous(cfg: Config, h: seq<Observation>): HealthStatus {
    var e := Effective(cfg, h);
    if e == [] then Empty else e[|e| - 1]
  }

  lemma {:induction false} GraceEndOfPrefix(cfg: Config, h: seq<Observation>, i: nat)
    requires i <= |h|
    ensures GraceEnd(cfg, h[..i]) == if GraceEnd(cfg, h) < i then GraceEnd(cfg, h) else i
  {
    if i < |h| {
      var t := h[..|h| - 1];
      GraceEndOfPrefix(cfg, t, i);
      assert t[..i] == h[..i];
    } else {
      assert h[..i] == h;
    }
  }

  /** How the effective history grows. */
  lemma {:induction false} EffectiveStep(cfg: Config, h: seq<Observation>, o: Observation)
    ensures var h' := h + [o];
            Effective(cfg, h') ==
            if InGrace(cfg, h) && Expires(cfg, h', |h|) then [cfg.afterGrace]
            else Effective(cfg, h) + [o.state]
    ensures InGrace(cfg, h + [o]) <==> InGrace(cfg, h) && !EndsGrace(cfg, h + [o], |h|)
  {
    var h' := h + [o];
    assert h'[..|h|] == h;
    GraceEndOfPrefix(cfg, h', |h|);
    var g := GraceEnd(cfg, h');
    assert States(h') == States(h) + [o.state];
    if EndedByExpiry(cfg, h') {
      if g < |h| {
        assert h'[g + 1..] == h[g + 1..] + [o];
        assert States(h'[g + 1..]) == States(h[g + 1..]) + [o.state];
      } else {
        assert h'[g + 1..] == [];
      }
    }
  }

  /** During the grace period, a run of a valid state has not yet reached the bound. */
  lemma {:induction false} ValidRunIsShortInGrace(cfg: Config, h: seq<Observation>)
    requires h != [] && InGrace(cfg, h) && h[|h| - 1].state != cfg.afterGrace
    ensures TrailingRun(States(h)) < cfg.numberOfProbes
  {
    var k := |h| - 1;
    GraceEndIsFirst(cfg, h);
    assert !EndsGrace(cfg, h, k);
    LastEqualIsLongRun(States(h), cfg.numberOfProbes);
    if LastEqual(States(h), cfg.numberOfProbes) {
      forall i | k + 1 - cfg.numberOfProbes <= i <= k ensures h[i].state == h[k].state {
        assert States(h)[i] == States(h)[k];
      }
      assert false;
    }
  }

  /** At the observation that follows `h`, a bypass is a run that has just reached the bound. */
  lemma {:induction false} BypassIsRunOfN(cfg: Config, h: seq<Observation>, o: Observation)
    requires InGrace(cfg, h) && o.elapsed < cfg.gracePeriod && o.state != cfg.afterGrace
    ensures var r := TrailingRun(States(h) + [o.state]);
            1 <= r <= cfg.numberOfProbes &&
            (Bypasses(cfg, h + [o], |h|) <==> r == cfg.numberOfProbes)
  {
    var h' := h + [o];
    var s := States(h) + [o.state];
    assert States(h') == s;
    RunStep(States(h), o.state);
    if h != [] && h[|h| - 1].state == o.state { ValidRunIsShortInGrace(cfg, h); }
    LastEqualIsLongRun(s, cfg.numberOfProbes);
    assert forall i :: 0 <= i <= |h| ==> s[i] == h'[i].state;
    assert LastEqual(s, cfg.numberOfProbes) <==> Bypasses(cfg, h', |h|) by {
      if Bypasses(cfg, h', |h|) {
        assert forall i :: |s| - cfg.numberOfProbes <= i < |s| ==> s[i] == h'[i].state == h'[|h|].state;
      }
    }
  }

  /** After every observation the committed state is a state that can be reported, and it is
      Initializing exactly while the grace period lasts. */
  lemma {:induction false} CommittedIsReportable(cfg: Config, h: seq<Observation>)
    requires h != []
    ensures Committed(cfg, h) != Empty
    ensures Committed(cfg, h) == Initializing <==> InGrace(cfg, h)
    ensures Committed(cfg, h).AppHealthStatusType() == StatusError <==>
            Committed(cfg, h) == Unhealthy || Committed(cfg, h) == Unknown
    ensures InGrace(cfg, h) ==> Committed(cfg, h).AppHealthStatusType() == StatusSuccess
  {
    DebouncedIsProbeState(Effective(cfg, h), cfg.numberOfProbes);
  }

  lemma {:induction false} DebouncedIsProbeState(s: seq<ProbeState>, n: Positive)
    requires s != []
    ensures Debounced(s, n) != Empty && Debounced(s, n) != Initializing
    decreases |s|
  {
    if |s| == 1 {
    } else {
      DebouncedIsProbeState(s[..|s| - 1], n);
    }
  }

  /** The grace period ends at most once: from its end on, no longer history is in grace. */
  lemma {:induction false} GraceNeverReturns(cfg: Config, h: seq<Observation>, i: nat)
    requires i <= |h| && !InGrace(cfg, h[..i])
    ensures !InGrace(cfg, h)
    ensures cfg.gracePeriod > 0 ==> GraceEnd(cfg, h) == GraceEnd(cfg, h[..i]) < i
  {
    GraceEndOfPrefix(cfg, h, i);
  }

  lemma {:induction false} DebouncedIsObserved(s: seq<ProbeState>, n: Positive) returns (k: nat)
    requires s != []
    ensures k < |s| && Debounced(s, n) == s[k]
    decreases |s|
  {
    if LastEqual(s, n) || |s| == 1 {
      k := |s| - 1;
    } else {
      k := DebouncedIsObserved(s[..|s| - 1], n);
    }
  }

  /** Nothing is made up: what is committed was observed, or is the after-grace state of a grace
      period that expired. */
  lemma {:induction false} CommittedWasObserved(cfg: Config, h: seq<Observation>)
    requires h != [] && !InGrace(cfg, h)
    ensures (EndedByExpiry(cfg, h) && Committed(cfg, h) == cfg.afterGrace) ||
            exists k :: 0 <= k < |h| && h[k].state == Committed(cfg, h)
  {
    var k := DebouncedIsObserved(Effective(cfg, h), cfg.numberOfProbes);
    var g := if EndedByExpiry(cfg, h) then GraceEnd(cfg, h) else 0;
    assert (EndedByExpiry(cfg, h) && k == 0) || h[g + k].state == Committed(cfg, h);
  }

  /** A TCP or default probe is never reported as Unknown. */
  lemma {:induction false} UnknownNeedsHttp(kind: ProbeKind, cfg: Config, h: seq<Observation>)
    requires cfg.afterGrace == kind.AfterGrace() && forall k :: 0 <= k < |h| ==> kind.CanReturn(h[k].state)
    ensures Committed(cfg, h) == Unknown ==> kind == HttpProbe
  {
    if h != [] && !InGrace(cfg, h) { CommittedWasObserved(cfg, h); }
  }
}
