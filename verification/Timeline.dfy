/** Pacing of the enable loop (main/cmds.go): when each pass starts, probes and wakes up again,
    and what that means for the grace period and for the time a new state takes to be committed.
    Times are in nanoseconds since the grace period started. */
module Timeline {
  import opened Health
  import opened Debounce
  import opened GraceSpec
  import opened Hysteresis
  import opened Settings
  import opened VMWatch

  /** The environment of one pass: what is read, and how long each part takes. */
  datatype Iteration = Iteration(
    recorded: Option<nat>,       // the recorded sequence number, None if it cannot be read
    headDelay: nat,              // from the previous wake-up to the start of the probe
    state: ProbeState,
    probeTime: nat,              // from the start of the probe to the look at the grace period
    shutdownAfterProbe: bool,
    message: ChannelRead,
    reportTime: nat,             // from there to the end of the pass
    oversleep: nat,              // how much longer than asked the sleep takes
    shutdownAfterSleep: bool)

  /** When the probe of the pass after `its` may start. */
  function Wake(interval: int, its: seq<Iteration>): (t: nat)
  {
    if its == [] then 0
    else
      var it := its[|its| - 1];
      var start := Wake(interval, its[..|its| - 1]) + it.headDelay;
      var end := start + it.probeTime + it.reportTime;
      if interval - (end - start) > 0 then end + (interval - (end - start)) + it.oversleep else end
  }

  function StartOf(interval: int, its: seq<Iteration>, k: nat): nat
    requires k < |its|
  {
    Wake(interval, its[..k]) + its[k].headDelay
  }

  /** The observations the passes make. */
  function HistoryOf(interval: int, its: seq<Iteration>): (h: seq<Observation>)
    ensures |h| == |its|
  {
    if its == [] then []
    else
      var it := its[|its| - 1];
      var before := its[..|its| - 1];
      HistoryOf(interval, before) +
      [Observation(it.state, Wake(interval, before) + it.headDelay + it.probeTime)]
  }

  /** What one more pass adds. */
  lemma {:induction false} HistoryStep(interval: int, done: seq<Iteration>, next: seq<Iteration>, it: Iteration)
    requires |next| == |done| + 1 && next[..|done|] == done && next[|done|] == it
    ensures HistoryOf(interval, next) ==
            HistoryOf(interval, done) + [Observation(it.state, Wake(interval, done) + it.headDelay + it.probeTime)]
  {
  }

  lemma {:induction false} WakeStep(interval: int, done: seq<Iteration>, next: seq<Iteration>, it: Iteration)
    requires |next| == |done| + 1 && next[..|done|] == done && next[|done|] == it
    ensures var start := Wake(interval, done) + it.headDelay;
            var end := start + it.probeTime + it.reportTime;
            Wake(interval, next) ==
            if interval - (end - start) > 0 then end + (interval - (end - start)) + it.oversleep else end
  {
  }

  lemma {:induction false} HistoryAt(interval: int, its: seq<Iteration>, k: nat)
    requires k < |its|
    ensures HistoryOf(interval, its)[k] ==
            Observation(its[k].state, StartOf(interval, its, k) + its[k].probeTime)
  {
    if k == |its| - 1 {
    } else {
      var before := its[..|its| - 1];
      HistoryAt(interval, before, k);
      assert before[..k] == its[..k];
    }
  }

  lemma {:induction false} HistoryOfPrefix(interval: int, its: seq<Iteration>, k: nat)
    requires k <= |its|
    ensures HistoryOf(interval, its)[..k] == HistoryOf(interval, its[..k])
  {
    if k == |its| {
      assert its[..k] == its;
    } else {
      var before := its[..|its| - 1];
      HistoryOfPrefix(interval, before, k);
      assert before[..k] == its[..k];
    }
  }

  /** Pacing: passes are at least the interval apart. */
  lemma {:induction false} WakeIsPaced(interval: int, its: seq<Iteration>)
    requires interval >= 0
    ensures Wake(interval, its) >= |its| * interval
  {
    if its == [] {
    } else {
      WakeIsPaced(interval, its[..|its| - 1]);
      assert |its| * interval == (|its| - 1) * interval + interval;
    }
  }

  /** The k-th look at the grace period, counting from 0, happens no earlier than k intervals in. */
  lemma {:induction false} LooksArePaced(interval: int, its: seq<Iteration>, k: nat)
    requires interval >= 0 && k < |its|
    ensures HistoryOf(interval, its)[k].elapsed >= k * interval
  {
    HistoryAt(interval, its, k);
    WakeIsPaced(interval, its[..k]);
  }

  lemma {:induction false} WakeIsMonotone(interval: int, its: seq<Iteration>, j: nat, k: nat)
    requires j < k <= |its|
    ensures Wake(interval, its[..k]) >= StartOf(interval, its, j) + its[j].probeTime
  {
    var t := its[..k];
    assert t[..k - 1] == its[..k - 1];
    if j == k - 1 {
    } else {
      WakeIsMonotone(interval, its, j, k - 1);
    }
  }

  /** Elapsed times never go back. */
  lemma {:induction false} ElapsedIsMonotone(interval: int, its: seq<Iteration>, j: nat, k: nat)
    requires j <= k < |its|
    ensures HistoryOf(interval, its)[j].elapsed <= HistoryOf(interval, its)[k].elapsed
  {
    HistoryAt(interval, its, j);
    HistoryAt(interval, its, k);
    if j < k { WakeIsMonotone(interval, its, j, k); }
  }

  /** A grace period of at most N - 1 intervals cannot be bypassed, whatever the probes say and
      however long anything takes: it is over by the N-th pass, and it ends in the after-grace state. */
  lemma {:induction false} ShortGraceAlwaysExpires(cfg: Config, interval: int, its: seq<Iteration>)
    requires interval >= 0 && cfg.gracePeriod > 0
    requires cfg.gracePeriod <= (cfg.numberOfProbes - 1) * interval
    ensures OnlyExpires(cfg, HistoryOf(interval, its))
  {
    LateLooks(interval, its, cfg.numberOfProbes, cfg.gracePeriod);
    LateGraceExpires(cfg, HistoryOf(interval, its));
  }

  /** Grace is over by the N-th observation, and if it is over it has expired, with the after-grace
      state committed at that observation. */
  predicate OnlyExpires(cfg: Config, h: seq<Observation>) {
    if InGrace(cfg, h) then |h| < cfg.numberOfProbes
    else EndedByExpiry(cfg, h) && Committed(cfg, h[..GraceEnd(cfg, h) + 1]) == cfg.afterGrace
  }

  /** Every observation from the N-th on comes too late. */
  predicate LateFrom(h: seq<Observation>, n: Positive, grace: int) {
    forall k :: n - 1 <= k < |h| ==> h[k].elapsed >= grace
  }

  lemma {:induction false} LateLooks(interval: int, its: seq<Iteration>, n: Positive, grace: int)
    requires interval >= 0 && grace <= (n - 1) * interval
    ensures LateFrom(HistoryOf(interval, its), n, grace)
  {
    forall k | n - 1 <= k < |its| ensures HistoryOf(interval, its)[k].elapsed >= grace {
      LooksArePaced(interval, its, k);
      Scale(n - 1, k, interval);
    }
  }

  lemma {:induction false} Scale(a: int, b: int, x: int)
    requires a <= b && x >= 0
    ensures a * x <= b * x
  {
  }

  lemma {:induction false} LateGraceIsOver(cfg: Config, h: seq<Observation>)
    requires LateFrom(h, cfg.numberOfProbes, cfg.gracePeriod) && |h| >= cfg.numberOfProbes
    ensures GraceEnd(cfg, h) < |h|
  {
    GraceEndIsFirst(cfg, h);
    var last: nat := cfg.numberOfProbes - 1;
    assert EndsGrace(cfg, h, last);
  }

  lemma {:induction false} LateEndExpires(cfg: Config, h: seq<Observation>, g: nat)
    requires LateFrom(h, cfg.numberOfProbes, cfg.gracePeriod) && g < |h| && EndsGrace(cfg, h, g)
    ensures Expires(cfg, h, g)
  {
  }

  lemma {:induction false} LateGraceExpires(cfg: Config, h: seq<Observation>)
    requires cfg.gracePeriod > 0 && LateFrom(h, cfg.numberOfProbes, cfg.gracePeriod)
    ensures OnlyExpires(cfg, h)
  {
    var g := GraceEnd(cfg, h);
    if g < |h| {
      GraceEndIsFirst(cfg, h);
      LateEndExpires(cfg, h, g);
      ExpiryCommits(cfg, h, g);
    } else if |h| >= cfg.numberOfProbes {
      LateGraceIsOver(cfg, h);
    }
  }

  lemma {:induction false} ExpiryCommits(cfg: Config, h: seq<Observation>, g: nat)
    requires cfg.gracePeriod > 0 && g == GraceEnd(cfg, h) < |h| && Expires(cfg, h, g)
    ensures Committed(cfg, h[..g + 1]) == cfg.afterGrace
  {
    assert h[..g + 1] == h[..g] + [h[g]];
    GraceEndOfPrefix(cfg, h, g);
    EffectiveStep(cfg, h[..g], h[g]);
  }

  /** N identical valid probes, the last of them no earlier than the others. */
  predicate IdenticalStart(cfg: Config, h: seq<Observation>, y: ProbeState) {
    && |h| == cfg.numberOfProbes && y != cfg.afterGrace && cfg.gracePeriod > 0
    && (forall k :: 0 <= k < |h| ==> h[k].state == y && h[k].elapsed <= h[|h| - 1].elapsed)
  }

  lemma {:induction false} IdenticalStartEnds(cfg: Config, h: seq<Observation>, y: ProbeState)
    requires IdenticalStart(cfg, h, y)
    ensures EndsGrace(cfg, h, |h| - 1)
    ensures h[|h| - 1].elapsed < cfg.gracePeriod ==> forall k :: 0 <= k < |h| - 1 ==> !EndsGrace(cfg, h, k)
  {
  }

  /** N identical valid probes from the start bypass the grace period if and only if the last of
      them is looked at in time. */
  lemma {:induction false} IdenticalStartBypasses(cfg: Config, h: seq<Observation>, y: ProbeState)
    requires IdenticalStart(cfg, h, y)
    ensures !InGrace(cfg, h)
    ensures EndedByExpiry(cfg, h) <==> h[|h| - 1].elapsed >= cfg.gracePeriod
    ensures !EndedByExpiry(cfg, h) ==> GraceEnd(cfg, h) == |h| - 1 && Committed(cfg, h) == y
  {
    IdenticalStartEnds(cfg, h, y);
    GraceEndIsFirst(cfg, h);
    var g, last := GraceEnd(cfg, h), |h| - 1;
    assert g <= last;
    if h[last].elapsed < cfg.gracePeriod {
      assert g == last;
      assert !Expires(cfg, h, g);
      ConstantIsCommitted(States(h), y, cfg.numberOfProbes);
    } else {
      assert g < last ==> !Bypasses(cfg, h, g);
    }
  }

  lemma {:induction false} ConstantIsCommitted(s: seq<ProbeState>, y: ProbeState, n: Positive)
    requires |s| == n && forall k :: 0 <= k < |s| ==> s[k] == y
    ensures Debounced(s, n) == y
  {
    WindowDecides([], s, y, n);
    assert [] + s == s;
  }

  /** No overhead, no oversleeping, and probes shorter than the interval. */
  predicate Prompt(interval: int, its: seq<Iteration>) {
    forall k :: 0 <= k < |its| ==>
      its[k].headDelay == its[k].oversleep == its[k].reportTime == 0 && its[k].probeTime < interval
  }

  lemma {:induction false} PromptWake(interval: int, its: seq<Iteration>)
    requires interval >= 1 && Prompt(interval, its)
    ensures Wake(interval, its) == |its| * interval
  {
    if its == [] {
    } else {
      PromptWake(interval, its[..|its| - 1]);
      assert |its| * interval == (|its| - 1) * interval + interval;
    }
  }

  /** With a grace period of N intervals, N identical valid probes from a prompt start bypass it. */
  lemma {:induction false} PromptStartBypasses(cfg: Config, interval: Positive, its: seq<Iteration>, y: ProbeState)
    requires cfg.gracePeriod == cfg.numberOfProbes * interval && y != cfg.afterGrace
    requires |its| == cfg.numberOfProbes && Prompt(interval, its)
    requires forall k :: 0 <= k < |its| ==> its[k].state == y
    ensures var h := HistoryOf(interval, its);
            !InGrace(cfg, h) && !EndedByExpiry(cfg, h) && Committed(cfg, h) == y
  {
    var h, last := HistoryOf(interval, its), |its| - 1;
    forall k | 0 <= k < |h| ensures h[k].state == y && h[k].elapsed <= h[last].elapsed {
      HistoryAt(interval, its, k);
      ElapsedIsMonotone(interval, its, k, last);
    }
    HistoryAt(interval, its, last);
    PromptWake(interval, its[..last]);
    assert last * interval + interval == |its| * interval;
    IdenticalStartBypasses(cfg, h, y);
  }

  lemma {:induction false} DefaultGraceIsBypassed(s: PublicSettings, its: seq<Iteration>, y: ProbeState)
    requires s.ParseAndValidate() == None && s.gracePeriod == 0 && y != s.LoopConfig().afterGrace
    requires |its| == s.Probes() && Prompt(s.IntervalNs(), its)
    requires forall k :: 0 <= k < |its| ==> its[k].state == y
    ensures var h := HistoryOf(s.IntervalNs(), its);
            !InGrace(s.LoopConfig(), h) && !EndedByExpiry(s.LoopConfig(), h) && Committed(s.LoopConfig(), h) == y
  {
    AcceptedSettings(s);
    SettleTime(s.Probes(), s.Interval());
    PromptStartBypasses(s.LoopConfig(), s.IntervalNs(), its, y);
  }

  /** The probes that start at or after time `t` all see `y`, and pass `m` is the first of them. */
  predicate SettlesAt(interval: int, its: seq<Iteration>, t: int, m: nat, y: ProbeState) {
    && 1 <= m < |its| && StartOf(interval, its, m - 1) < t <= StartOf(interval, its, m)
    && forall k :: 0 <= k < |its| && StartOf(interval, its, k) >= t ==> its[k].state == y
  }

  lemma {:induction false} LaterStart(interval: int, its: seq<Iteration>, m: nat, k: nat)
    requires m <= k < |its|
    ensures StartOf(interval, its, m) <= StartOf(interval, its, k)
  {
    if m < k { WakeIsMonotone(interval, its, m, k); }
  }

  lemma {:induction false} SettledProbes(interval: int, its: seq<Iteration>, t: int, m: nat, y: ProbeState)
    requires SettlesAt(interval, its, t, m, y)
    ensures forall k :: m <= k < |its| ==> HistoryOf(interval, its)[k].state == y
  {
    forall k | m <= k < |its| ensures HistoryOf(interval, its)[k].state == y {
      LaterStart(interval, its, m, k);
      HistoryAt(interval, its, k);
    }
  }

  /** A state the application takes at time `t` after the grace period and keeps is committed by the
      N-th probe that follows, however long probes, reports and sleeps take. */
  lemma {:induction false} NewStateIsCommitted(cfg: Config, interval: int, its: seq<Iteration>, t: int, m: nat,
                                               y: ProbeState)
    requires SettlesAt(interval, its, t, m, y)
    requires |its| == m + cfg.numberOfProbes && m > Start(cfg, HistoryOf(interval, its))
    ensures Committed(cfg, HistoryOf(interval, its)) == y
  {
    SettledProbes(interval, its, t, m, y);
    NEqualProbesCommit(cfg, HistoryOf(interval, its), y);
  }

  /** How long pass `k` takes, from the start of its probe to the start of the next one. */
  function PassLength(interval: int, its: seq<Iteration>, k: nat): int
    requires k + 1 < |its|
  {
    StartOf(interval, its, k + 1) - StartOf(interval, its, k)
  }

  /** A pass takes the interval or its own work, whichever is longer, and what the sleep and the next
      loop head add to it; the sleep adds nothing if there is none. */
  lemma {:induction false} PassLengthIs(interval: int, its: seq<Iteration>, k: nat)
    requires k + 1 < |its|
    ensures var work := its[k].probeTime + its[k].reportTime;
            PassLength(interval, its, k) ==
            its[k + 1].headDelay + if work < interval then interval + its[k].oversleep else work
  {
    assert its[..k + 1][..k] == its[..k];
  }

  /** Probes `i` and `j` start at most `j - i` of the longest passes apart. */
  lemma {:induction false} StartsWithin(interval: int, its: seq<Iteration>, longest: int, i: nat, j: nat)
    requires i <= j < |its| && forall k :: i <= k < j ==> PassLength(interval, its, k) <= longest
    ensures StartOf(interval, its, j) - StartOf(interval, its, i) <= (j - i) * longest
  {
    if i == j {
    } else {
      StartsWithin(interval, its, longest, i, j - 1);
      assert PassLength(interval, its, j - 1) <= longest;
      assert (j - i) * longest == (j - 1 - i) * longest + longest;
    }
  }

  /** The probe that commits the new state starts less than N of the longest passes after the change. */
  lemma {:induction false} NewStateIsCommittedInTime(n: Positive, interval: int, its: seq<Iteration>, t: int, m: nat,
                                                     y: ProbeState, longest: int)
    requires SettlesAt(interval, its, t, m, y) && |its| == m + n
    requires forall k :: m - 1 <= k < |its| - 1 ==> PassLength(interval, its, k) <= longest
    ensures StartOf(interval, its, |its| - 1) - t < n * longest
  {
    StartsWithin(interval, its, longest, m - 1, |its| - 1);
  }

  /** For settings that pass validation the N-th probe always commits it, and if no pass takes longer
      than the interval that probe starts within four minutes. */
  lemma {:induction false} NewStateIsCommittedWithinFourMinutes(s: PublicSettings, its: seq<Iteration>, t: int, m: nat,
                                                                y: ProbeState)
    requires s.ParseAndValidate() == None
    requires SettlesAt(s.IntervalNs(), its, t, m, y)
    requires |its| == m + s.Probes() && m > Start(s.LoopConfig(), HistoryOf(s.IntervalNs(), its))
    ensures Committed(s.LoopConfig(), HistoryOf(s.IntervalNs(), its)) == y
    ensures (forall k :: m - 1 <= k < |its| - 1 ==> PassLength(s.IntervalNs(), its, k) <= s.IntervalNs()) ==>
              StartOf(s.IntervalNs(), its, |its| - 1) - t < 240 * NS_PER_SECOND
  {
    AcceptedSettings(s);
    SettleTime(s.Probes(), s.Interval());
    NewStateIsCommitted(s.LoopConfig(), s.IntervalNs(), its, t, m, y);
    if forall k :: m - 1 <= k < |its| - 1 ==> PassLength(s.IntervalNs(), its, k) <= s.IntervalNs() {
      NewStateIsCommittedInTime(s.Probes(), s.IntervalNs(), its, t, m, y, s.IntervalNs());
    }
  }

  /** A prompt loop makes passes of exactly the interval. */
  lemma {:induction false} PromptPasses(interval: int, its: seq<Iteration>, k: nat)
    requires k + 1 < |its| && Prompt(interval, its)
    ensures PassLength(interval, its, k) == interval
  {
    PassLengthIs(interval, its, k);
  }

  /** So in a prompt loop a new state is committed by a probe that starts within four minutes. */
  lemma {:induction false} PromptLoopCommitsInTime(s: PublicSettings, its: seq<Iteration>, t: int, m: nat,
                                                   y: ProbeState)
    requires s.ParseAndValidate() == None && Prompt(s.IntervalNs(), its)
    requires SettlesAt(s.IntervalNs(), its, t, m, y)
    requires |its| == m + s.Probes() && m > Start(s.LoopConfig(), HistoryOf(s.IntervalNs(), its))
    ensures Committed(s.LoopConfig(), HistoryOf(s.IntervalNs(), its)) == y
    ensures StartOf(s.IntervalNs(), its, |its| - 1) - t < 240 * NS_PER_SECOND
  {
    forall k | m - 1 <= k < |its| - 1 ensures PassLength(s.IntervalNs(), its, k) <= s.IntervalNs() {
      PromptPasses(s.IntervalNs(), its, k);
    }
    NewStateIsCommittedWithinFourMinutes(s, its, t, m, y);
  }

  lemma {:induction false} SettleTime(n: int, interval: int)
    ensures n * (interval * NS_PER_SECOND) == interval * n * NS_PER_SECOND
  {
  }
}
