/** The VMWatch retry scheduler (main/vmWatch.go): retry cycles, back-off, shutdown, and the global
    counters. */
module RetryScheduler {
  import opened VMWatch
  import opened RetryTrace

  datatype RetryConfig = RetryConfig(maxCycles: int, attemptsPerCycle: nat, baseWaitHours: int)

  datatype RetryResult = RetryResult(totalAttempts: int, cyclesRun: int, success: bool)

  const VMWATCH_CONFIG := RetryConfig(4, 3, 3)

  class RetryCounters {
    var currentCycle: int
    var totalAttempts: int

    constructor ()
      ensures currentCycle == 1 && totalAttempts == 0
    {
      currentCycle, totalAttempts := 1, 0;
    }

    method Update(cycle: int, total: int)
      modifies this
      ensures currentCycle == cycle && totalAttempts == total
    {
      currentCycle, totalAttempts := cycle, total;
    }

    method Reset()
      modifies this
      ensures currentCycle == 1 && totalAttempts == 0
    {
      currentCycle, totalAttempts := 1, 0;
    }
  }

  /** What the scheduler meets: `shutdown(i)` is the answer to its i-th look at the shutdown flag,
      `succeeds(k)` the result of attempt number k, `resets(k)` whether the monitor resets the counters
      during it. */
  datatype Env = Env(shutdown: nat -> bool, succeeds: int -> bool, resets: int -> bool)

  /** The flag is only ever set. */
  ghost predicate Monotone(shutdown: nat -> bool) {
    forall i: nat, j: nat :: i <= j && shutdown(i) ==> shutdown(j)
  }

  // ---------- the trace and what the scheduler meets ----------

  /** The looks, the results and the resets in the trace are those the scheduler met, in order; the
      attempts are numbered from `n + 1`. */
  ghost predicate Follows(t: seq<Event>, env: Env, n: int) {
    && (forall i :: 0 <= i < |Reads(t)| ==> Reads(t)[i] == env.shutdown(i))
    && (forall k :: 0 <= k < |Ends(t)| ==>
          Ends(t)[k] == env.succeeds(n + k + 1) && ResetsSeen(t)[k] == env.resets(n + k + 1))
  }

  /** An attempt has succeeded exactly if `won` holds, and then it is the last. */
  predicate WonLast(t: seq<Event>, won: bool) {
    && |Ends(t)| == Attempts(t) && (won ==> Attempts(t) >= 1)
    && forall k :: 0 <= k < |Ends(t)| ==> (Ends(t)[k] <==> won && k == |Ends(t)| - 1)
  }

  /** What holds of the trace between attempts: in order, true to what was met, quiet after a stop. */
  ghost predicate Sound(t: seq<Event>, env: Env, n: int) {
    && (if SuccessSeen(t) then PhaseOf(t) == Succeeded else PhaseOf(t).Idle())
    && Follows(t, env, n) && WonLast(t, SuccessSeen(t))
    && (Monotone(env.shutdown) ==> QuietAfterStop(t))
  }

  /** The counters hold what the trace says, and were updated with the right numbers. */
  ghost predicate Booked(counters: RetryCounters, t: seq<Event>, c: int, n: int)
    reads counters
  {
    (counters.currentCycle, counters.totalAttempts) == CountersAfter(t, c, n) && UpdatesFit(t, c, n)
  }

  lemma {:induction false} Extend(t: seq<Event>, e: Event)
    ensures (t + [e])[..|t|] == t && (t + [e])[|t|] == e
    ensures PhaseOf(t + [e]) == Advance(PhaseOf(t), e)
    ensures Attempts(t + [e]) == Attempts(t) + if e.Begin? then 1 else 0
    ensures Sleeps(t + [e]) == Sleeps(t) + if e.Sleep? then [e.hours] else []
    ensures StopSeen(t + [e]) == (StopSeen(t) || e == ShutdownRead(true))
    ensures SuccessSeen(t + [e]) == (SuccessSeen(t) || e == End(true))
    ensures QuietAfterStop(t + [e]) == (QuietAfterStop(t) && (StopSeen(t) ==> e.ShutdownRead? || e.Update?))
  {
    assert (t + [e])[..|t|] == t;
  }

  lemma {:induction false} AnswersExtend(t: seq<Event>, e: Event)
    ensures Reads(t + [e]) == Reads(t) + if e.ShutdownRead? then [e.stop] else []
    ensures Ends(t + [e]) == Ends(t) + if e.End? then [e.ok] else []
    ensures ResetsSeen(t + [e]) == ResetsSeen(t) + if e.End? then [ResetSince(t)] else []
    ensures ResetSince(t + [e]) == (!e.Begin? && (e.Reset? || ResetSince(t)))
  {
    assert (t + [e])[..|t|] == t;
  }

  lemma {:induction false} CountersExtend(t: seq<Event>, e: Event, c: int, n: int)
    ensures CountersAfter(t + [e], c, n) ==
            match e case Update(a, b) => (a, b) case Reset => (1, 0) case _ => CountersAfter(t, c, n)
    ensures Updates(t + [e]) == Updates(t) + if e.Update? then 1 else 0
    ensures UpdatesFit(t, c, n) && (e.Update? ==> e.cycle == c + Updates(t) && e.total == n + Attempts(t)) ==>
              UpdatesFit(t + [e], c, n)
  {
    assert (t + [e])[..|t|] == t;
  }

  /** A stop that was seen was read at some look. */
  lemma {:induction false} StopIsARead(t: seq<Event>)
    ensures StopSeen(t) <==> true in Reads(t)
  {
    if t == [] {
    } else {
      StopIsARead(t[..|t| - 1]);
    }
  }

  /** A flag that is only ever set and is found not set was not set before. */
  lemma {:induction false} NoStopBefore(t: seq<Event>, env: Env, n: int)
    requires Follows(t, env, n) && Monotone(env.shutdown) && !env.shutdown(|Reads(t)|)
    ensures !StopSeen(t)
  {
    StopIsARead(t);
    assert forall i :: 0 <= i < |Reads(t)| ==> !env.shutdown(i);
  }

  /** A look at the flag: the next answer it gives. */
  method Look(env: Env, events: seq<Event>, ghost counters: RetryCounters, ghost c: int, ghost n: int)
    returns (stop: bool, events': seq<Event>)
    requires Sound(events, env, n) && !SuccessSeen(events) && Booked(counters, events, c, n)
    requires PhaseOf(events) in {Ready, Open, Updated}
    ensures Sound(events', env, n) && !SuccessSeen(events') && Booked(counters, events', c, n)
    ensures PhaseOf(events') == Looked(PhaseOf(events), stop)
    ensures StopSeen(events') == (StopSeen(events) || stop)
    ensures Monotone(env.shutdown) && !stop ==> !StopSeen(events')
    ensures Attempts(events') == Attempts(events) && Updates(events') == Updates(events)
    ensures Sleeps(events') == Sleeps(events)
  {
    stop := env.shutdown(|Reads(events)|);
    var e := ShutdownRead(stop);
    Extend(events, e);
    AnswersExtend(events, e);
    CountersExtend(events, e, c, n);
    if Monotone(env.shutdown) && !stop { NoStopBefore(events, env, n); }
    events' := events + [e];
  }

  function AttemptEvents(reset: bool, ok: bool): seq<Event> {
    if reset then [Send(Running), Begin, Reset, End(ok), Send(Failed)]
    else [Send(Running), Begin, End(ok), Send(Failed)]
  }

  /** The trace up to the end of an attempt. */
  function UpToEnd(t: seq<Event>, reset: bool): seq<Event> {
    if reset then t + [Send(Running)] + [Begin] + [Reset] else t + [Send(Running)] + [Begin]
  }

  lemma {:induction false} AttemptInSteps(t: seq<Event>, reset: bool, ok: bool)
    ensures t + AttemptEvents(reset, ok) == UpToEnd(t, reset) + [End(ok)] + [Send(Failed)]
  {
  }

  lemma {:induction false} ExtendUpToEnd(t: seq<Event>, reset: bool)
    requires PhaseOf(t) == Cleared
    ensures var t' := UpToEnd(t, reset);
            && PhaseOf(t') == Executing && Attempts(t') == Attempts(t) + 1 && Sleeps(t') == Sleeps(t)
            && SuccessSeen(t') == SuccessSeen(t) && StopSeen(t') == StopSeen(t)
            && (QuietAfterStop(t) && !StopSeen(t) ==> QuietAfterStop(t'))
  {
    Extend(t, Send(Running));
    Extend(t + [Send(Running)], Begin);
    Extend(t + [Send(Running)] + [Begin], Reset);
  }

  /** An attempt in the middle of a trace: one more attempt, and nothing else that counts. */
  lemma {:induction false} ExtendAttempt(t: seq<Event>, reset: bool, ok: bool)
    requires PhaseOf(t) == Cleared
    ensures var t' := t + AttemptEvents(reset, ok);
            && PhaseOf(t') == (if ok then Succeeded else Open)
            && Attempts(t') == Attempts(t) + 1 && Sleeps(t') == Sleeps(t)
            && SuccessSeen(t') == (SuccessSeen(t) || ok)
            && StopSeen(t') == StopSeen(t) && (QuietAfterStop(t) && !StopSeen(t) ==> QuietAfterStop(t'))
  {
    var t3 := UpToEnd(t, reset);
    AttemptInSteps(t, reset, ok);
    ExtendUpToEnd(t, reset);
    Extend(t3, End(ok));
    Extend(t3 + [End(ok)], Send(Failed));
  }

  lemma {:induction false} AnswersUpToEnd(t: seq<Event>, reset: bool)
    ensures var t' := UpToEnd(t, reset);
            Reads(t') == Reads(t) && Ends(t') == Ends(t) && ResetsSeen(t') == ResetsSeen(t) && ResetSince(t') == reset
  {
    AnswersExtend(t, Send(Running));
    AnswersExtend(t + [Send(Running)], Begin);
    AnswersExtend(t + [Send(Running)] + [Begin], Reset);
  }

  lemma {:induction false} AnswersOverAttempt(t: seq<Event>, reset: bool, ok: bool)
    ensures var t' := t + AttemptEvents(reset, ok);
            && Reads(t') == Reads(t) && Ends(t') == Ends(t) + [ok] && ResetsSeen(t') == ResetsSeen(t) + [reset]
  {
    var t3 := UpToEnd(t, reset);
    AttemptInSteps(t, reset, ok);
    AnswersUpToEnd(t, reset);
    AnswersExtend(t3, End(ok));
    AnswersExtend(t3 + [End(ok)], Send(Failed));
  }

  lemma {:induction false} CountersOverAttempt(t: seq<Event>, reset: bool, ok: bool, c: int, n: int)
    ensures var t' := t + AttemptEvents(reset, ok);
            && CountersAfter(t', c, n) == (if reset then (1, 0) else CountersAfter(t, c, n))
            && Updates(t') == Updates(t) && (UpdatesFit(t, c, n) ==> UpdatesFit(t', c, n))
  {
    var t3 := UpToEnd(t, reset);
    AttemptInSteps(t, reset, ok);
    CountersExtend(t, Send(Running), c, n);
    CountersExtend(t + [Send(Running)], Begin, c, n);
    CountersExtend(t + [Send(Running)] + [Begin], Reset, c, n);
    CountersExtend(t3, End(ok), c, n);
    CountersExtend(t3 + [End(ok)], Send(Failed), c, n);
  }

  lemma {:induction false} SoundOverAttempt(t: seq<Event>, env: Env, n: int, reset: bool, ok: bool)
    requires Sound(t, env, n) && !SuccessSeen(t) && PhaseOf(t) == Cleared
    requires Monotone(env.shutdown) ==> !StopSeen(t)
    requires reset == env.resets(n + Attempts(t) + 1) && ok == env.succeeds(n + Attempts(t) + 1)
    ensures Sound(t + AttemptEvents(reset, ok), env, n)
  {
    ExtendAttempt(t, reset, ok);
    AnswersOverAttempt(t, reset, ok);
  }

  /** One attempt, number `k`: announced, executed, reported. */
  method Attempt(env: Env, counters: RetryCounters, k: int, events: seq<Event>, ghost c: int, ghost n: int)
    returns (ok: bool, events': seq<Event>)
    requires Sound(events, env, n) && !SuccessSeen(events) && Booked(counters, events, c, n)
    requires PhaseOf(events) == Cleared && (Monotone(env.shutdown) ==> !StopSeen(events))
    requires k == n + Attempts(events) + 1
    modifies counters
    ensures Sound(events', env, n) && Booked(counters, events', c, n)
    ensures StopSeen(events') == StopSeen(events) && Sleeps(events') == Sleeps(events)
    ensures Attempts(events') == Attempts(events) + 1 && Updates(events') == Updates(events)
    ensures SuccessSeen(events') == ok && PhaseOf(events') == if ok then Succeeded else Open
  {
    events' := events + [Send(Running), Begin];
    if env.resets(k) {
      counters.Reset();
      events' := events' + [Reset];
    }
    ok := env.succeeds(k);
    events' := events' + [End(ok), Send(Failed)];
    assert events' == events + AttemptEvents(env.resets(k), ok);
    ExtendAttempt(events, env.resets(k), ok);
    SoundOverAttempt(events, env, n, env.resets(k), ok);
    CountersOverAttempt(events, env.resets(k), ok, c, n);
  }

  /** The attempts of one cycle. */
  method Cycle(attemptsPerCycle: nat, env: Env, counters: RetryCounters, total: int, events: seq<Event>, ghost c: int,
               ghost n: int)
    returns (total': int, events': seq<Event>, success: bool)
    requires Sound(events, env, n) && !SuccessSeen(events) && Booked(counters, events, c, n)
    requires PhaseOf(events) == Open && total == n + Attempts(events)
    modifies counters
    ensures Sound(events', env, n) && Booked(counters, events', c, n)
    ensures Sleeps(events') == Sleeps(events) && Updates(events') == Updates(events)
    ensures StopSeen(events) ==> StopSeen(events')
    ensures Attempts(events) <= Attempts(events') <= Attempts(events) + attemptsPerCycle
    ensures success == SuccessSeen(events') && total' == n + Attempts(events')
    ensures !success ==> PhaseOf(events') in {Open, CycleOver}
    ensures !success && !StopSeen(events') ==> Attempts(events') == Attempts(events) + attemptsPerCycle
  {
    total', events', success := total, events, false;
    var attempt := 1;
    while attempt <= attemptsPerCycle
      invariant 1 <= attempt <= attemptsPerCycle + 1
      invariant Sound(events', env, n) && !success && !SuccessSeen(events') && Booked(counters, events', c, n)
      invariant Sleeps(events') == Sleeps(events) && Updates(events') == Updates(events)
      invariant StopSeen(events) ==> StopSeen(events')
      invariant Attempts(events') == Attempts(events) + (attempt - 1)
      invariant PhaseOf(events') == Open && total' == n + Attempts(events')
    {
      var stop;
      stop, events' := Look(env, events', counters, c, n);
      if stop {
        return;
      }
      total' := total' + 1;
      success, events' := Attempt(env, counters, total', events', c, n);
      if success {
        return;
      }
      attempt := attempt + 1;
    }
  }

  /** The attempts that the cycles from `c` to `hi - 1` have room for. */
  function Budget(c: int, hi: int, attemptsPerCycle: nat): nat
    decreases hi - c
  {
    if hi <= c then 0 else Budget(c, hi - 1, attemptsPerCycle) + attemptsPerCycle
  }

  lemma {:induction false} BudgetIsProduct(c: int, hi: int, attemptsPerCycle: nat)
    ensures Budget(c, hi, attemptsPerCycle) == if hi <= c then 0 else (hi - c) * attemptsPerCycle
    decreases hi - c
  {
    if hi <= c {
    } else {
      BudgetIsProduct(c, hi - 1, attemptsPerCycle);
      assert (hi - c) * attemptsPerCycle == (hi - c - 1) * attemptsPerCycle + attemptsPerCycle;
    }
  }

  lemma {:induction false} BudgetGrows(c: int, lo: int, hi: int, attemptsPerCycle: nat)
    requires lo <= hi
    ensures Budget(c, lo, attemptsPerCycle) <= Budget(c, hi, attemptsPerCycle)
    decreases hi - lo
  {
    if lo == hi {
    } else {
      BudgetGrows(c, lo, hi - 1, attemptsPerCycle);
    }
  }

  function Min(a: int, b: int): int {
    if a <= b then a else b
  }

  /** Where the retry loop stands before cycle `cycle`, having started from the counters (c, t). */
  ghost predicate Progress(config: RetryConfig, c: int, t: int, cycle: int, total: int, events: seq<Event>, env: Env)
  {
    && Sound(events, env, t) && (cycle == c ==> events == [])
    && PhaseOf(events) == (if cycle == c || cycle <= config.maxCycles then Ready else Updated)
    && total == t + Attempts(events) && !SuccessSeen(events) && cycle == c + Updates(events)
    && Attempts(events) <= Budget(c, cycle, config.attemptsPerCycle)
    && (!StopSeen(events) ==>
          && Attempts(events) == Budget(c, cycle, config.attemptsPerCycle)
          && Sleeps(events) == Waits(config.baseWaitHours, c, Min(cycle, config.maxCycles)))
  }

  lemma {:induction false} ProgressStep(config: RetryConfig, c: int, t: int, cycle: int, total: int, before: seq<Event>,
                                        after: seq<Event>, env: Env)
    requires c <= cycle <= config.maxCycles
    requires Progress(config, c, t, cycle, t + Attempts(before), before, env)
    requires Sound(after, env, t) && total == t + Attempts(after) && !SuccessSeen(after)
    requires PhaseOf(after) == if cycle < config.maxCycles then Ready else Updated
    requires Updates(after) == Updates(before) + 1
    requires Attempts(after) <= Attempts(before) + config.attemptsPerCycle
    requires StopSeen(before) ==> StopSeen(after)
    requires !StopSeen(after) ==>
               && Attempts(after) == Attempts(before) + config.attemptsPerCycle
               && Sleeps(after) == Sleeps(before) +
                    if cycle < config.maxCycles then [config.baseWaitHours * cycle] else []
    ensures Progress(config, c, t, cycle + 1, total, after, env)
  {
  }

  /** The end of a cycle that did not succeed: the counters, and the wait before the next cycle. */
  method EndCycle(config: RetryConfig, env: Env, counters: RetryCounters, cycle: int, total: int, events: seq<Event>,
                  ghost c: int, ghost t: int)
    returns (events': seq<Event>)
    requires Sound(events, env, t) && !SuccessSeen(events) && Booked(counters, events, c, t)
    requires PhaseOf(events) in {Open, CycleOver}
    requires cycle <= config.maxCycles && cycle == c + Updates(events) && total == t + Attempts(events)
    modifies counters
    ensures Sound(events', env, t) && !SuccessSeen(events') && Booked(counters, events', c, t)
    ensures PhaseOf(events') == if cycle < config.maxCycles then Ready else Updated
    ensures Attempts(events') == Attempts(events) && Updates(events') == Updates(events) + 1
    ensures StopSeen(events) ==> StopSeen(events')
    ensures !StopSeen(events') ==>
              Sleeps(events') == Sleeps(events) +
                if cycle < config.maxCycles then [config.baseWaitHours * cycle] else []
  {
    counters.Update(cycle, total);
    events' := AddQuiet(env, events, Update(cycle, total), counters, c, t);
    if cycle < config.maxCycles {
      events' := Rest(env, config.baseWaitHours * cycle, events', counters, c, t);
    }
  }

  /** The wait between two cycles, unless the flag is set. */
  method Rest(env: Env, hours: int, events: seq<Event>, ghost counters: RetryCounters, ghost c: int, ghost n: int)
    returns (events': seq<Event>)
    requires Sound(events, env, n) && !SuccessSeen(events) && Booked(counters, events, c, n)
    requires PhaseOf(events) == Updated
    ensures Sound(events', env, n) && !SuccessSeen(events') && Booked(counters, events', c, n)
    ensures PhaseOf(events') == Ready
    ensures Attempts(events') == Attempts(events) && Updates(events') == Updates(events)
    ensures StopSeen(events) ==> StopSeen(events')
    ensures !StopSeen(events') ==> Sleeps(events') == Sleeps(events) + [hours]
  {
    var stop;
    stop, events' := Look(env, events, counters, c, n);
    if !stop {
      events' := AddQuiet(env, events', Sleep(hours), counters, c, n);
    }
  }

  /** An update or a wait is added to the trace. */
  method AddQuiet(ghost env: Env, events: seq<Event>, e: Event, ghost counters: RetryCounters, ghost c: int,
                  ghost n: int)
    returns (events': seq<Event>)
    requires Sound(events, env, n) && !SuccessSeen(events) && UpdatesFit(events, c, n)
    requires e.Update? || (e.Sleep? && (Monotone(env.shutdown) ==> !StopSeen(events)))
    requires e.Update? ==> e.cycle == c + Updates(events) && e.total == n + Attempts(events)
    requires Advance(PhaseOf(events), e).Idle()
    requires (counters.currentCycle, counters.totalAttempts) ==
             if e.Update? then (e.cycle, e.total) else CountersAfter(events, c, n)
    ensures Sound(events', env, n) && !SuccessSeen(events') && Booked(counters, events', c, n)
    ensures PhaseOf(events') == Advance(PhaseOf(events), e)
    ensures Attempts(events') == Attempts(events) && StopSeen(events') == StopSeen(events)
    ensures Updates(events') == Updates(events) + if e.Update? then 1 else 0
    ensures Sleeps(events') == Sleeps(events) + if e.Sleep? then [e.hours] else []
  {
    Extend(events, e);
    AnswersExtend(events, e);
    CountersExtend(events, e, c, n);
    events' := events + [e];
  }

  // ---------- the whole retry loop ----------

  /** Started from counters (c, t), at most the attempts that cycles c to MaxCycles have room for are
      made, and they are counted exactly; if all fail and no shutdown is seen they are all made, with
      a wait after every cycle but the last. */
  predicate RetryOutcome(config: RetryConfig, c: int, t: int, result: RetryResult, events: seq<Event>) {
    && (events == [] || PhaseOf(events) in {Stopping, Updated, Succeeded}) && UpdatesFit(events, c, t)
    && result.totalAttempts == t + Attempts(events) && result.success == SuccessSeen(events)
    && Attempts(events) <= Budget(c, config.maxCycles + 1, config.attemptsPerCycle)
    && result.cyclesRun == (if result.success then c + Updates(events) else config.maxCycles)
    && (!result.success && !StopSeen(events) ==>
          && Attempts(events) == Budget(c, config.maxCycles + 1, config.attemptsPerCycle)
          && Sleeps(events) == Waits(config.baseWaitHours, c, config.maxCycles))
  }

  /** What was met decides: the i-th look got the i-th answer, attempt k ended as it does and was
      reset in as it is; the call succeeds exactly if one of the attempts made does, which is then the
      last; and it stops early only because a look found the flag set. */
  ghost predicate MetDecides(env: Env, t: int, result: RetryResult, events: seq<Event>) {
    && Follows(events, env, t) && |Ends(events)| == Attempts(events)
    && (result.success <==> exists k :: t < k <= t + Attempts(events) && env.succeeds(k))
    && (forall k :: t < k < t + Attempts(events) ==> !env.succeeds(k))
    && (StopSeen(events) <==> exists i: nat :: i < |Reads(events)| && env.shutdown(i))
    && (Monotone(env.shutdown) ==> QuietAfterStop(events))
  }

  lemma {:induction false} SoundDecides(env: Env, t: int, result: RetryResult, events: seq<Event>)
    requires Sound(events, env, t) && result.success == SuccessSeen(events)
    ensures MetDecides(env, t, result, events)
  {
    StopIsARead(events);
    if StopSeen(events) {
      var i :| 0 <= i < |Reads(events)| && Reads(events)[i];
      assert env.shutdown(i);
    }
    var n := Attempts(events);
    assert result.success ==> env.succeeds(t + n) by {
      if result.success { assert Ends(events)[n - 1] == env.succeeds(t + (n - 1) + 1); }
    }
    forall k | t < k <= t + n ensures env.succeeds(k) <==> result.success && k == t + n {
      assert Ends(events)[k - t - 1] == env.succeeds(t + (k - t - 1) + 1);
    }
  }

  datatype Next = Continue | Stop | Done

  /** One cycle: the look at the flag, the attempts, and the end of the cycle. */
  method OneCycle(config: RetryConfig, env: Env, counters: RetryCounters, cycle: int, total: int, events: seq<Event>,
                  ghost c: int, ghost t: int)
    returns (next: Next, total': int, events': seq<Event>)
    requires c <= cycle <= config.maxCycles
    requires Progress(config, c, t, cycle, total, events, env)
    requires Booked(counters, events, c, t)
    modifies counters
    ensures next == Continue ==> Progress(config, c, t, cycle + 1, total', events', env)
    ensures Sound(events', env, t) && total' == t + Attempts(events') && Booked(counters, events', c, t)
    ensures Attempts(events') <= Budget(c, cycle + 1, config.attemptsPerCycle)
    ensures (next == Stop ==> StopSeen(events') && PhaseOf(events') == Stopping)
    ensures next == Done <==> SuccessSeen(events')
    ensures next == Done ==> cycle == c + Updates(events')
  {
    total' := total;
    var stop, success;
    stop, events' := Look(env, events, counters, c, t);
    if stop {
      return Stop, total', events';
    }
    total', events', success := Cycle(config.attemptsPerCycle, env, counters, total', events', c, t);
    if success {
      return Done, total', events';
    }
    events' := EndCycle(config, env, counters, cycle, total', events', c, t);
    ProgressStep(config, c, t, cycle, total', events, events', env);
    next := Continue;
  }

  lemma {:induction false} LastCycleIsOutcome(config: RetryConfig, c: int, t: int, cycle: int, total: int,
                                              events: seq<Event>, env: Env)
    requires Progress(config, c, t, cycle, total, events, env) && UpdatesFit(events, c, t)
    requires cycle > config.maxCycles && (cycle == c || cycle == config.maxCycles + 1)
    ensures RetryOutcome(config, c, t, RetryResult(total, config.maxCycles, false), events)
  {
  }

  lemma {:induction false} EarlyEndIsOutcome(config: RetryConfig, c: int, t: int, cycle: int, total: int,
                                             events: seq<Event>, env: Env)
    requires Sound(events, env, t) && UpdatesFit(events, c, t) && total == t + Attempts(events)
    requires cycle <= config.maxCycles && Attempts(events) <= Budget(c, cycle + 1, config.attemptsPerCycle)
    requires if SuccessSeen(events) then cycle == c + Updates(events)
             else StopSeen(events) && PhaseOf(events) == Stopping
    ensures var won := SuccessSeen(events);
            RetryOutcome(config, c, t, RetryResult(total, if won then cycle else config.maxCycles, won), events)
  {
    BudgetGrows(c, cycle + 1, config.maxCycles + 1, config.attemptsPerCycle);
  }

  /** The retry loop, whatever it meets. */
  method ExecuteRetryLogic(config: RetryConfig, counters: RetryCounters, env: Env)
    returns (result: RetryResult, events: seq<Event>)
    modifies counters
    ensures RetryOutcome(config, old(counters.currentCycle), old(counters.totalAttempts), result, events)
    ensures MetDecides(env, old(counters.totalAttempts), result, events)
    ensures (counters.currentCycle, counters.totalAttempts) ==
            CountersAfter(events, old(counters.currentCycle), old(counters.totalAttempts))
  {
    ghost var c, t := counters.currentCycle, counters.totalAttempts;
    var cycle, total := counters.currentCycle, counters.totalAttempts;
    events := [];
    while cycle <= config.maxCycles
      invariant c <= cycle && (cycle == c || cycle <= config.maxCycles + 1)
      invariant Progress(config, c, t, cycle, total, events, env)
      invariant Booked(counters, events, c, t)
    {
      var next;
      next, total, events := OneCycle(config, env, counters, cycle, total, events, c, t);
      if next != Continue {
        EarlyEndIsOutcome(config, c, t, cycle, total, events, env);
        result := RetryResult(total, if next == Done then cycle else config.maxCycles, next == Done);
        SoundDecides(env, t, result, events);
        return;
      }
      cycle := cycle + 1;
    }
    LastCycleIsOutcome(config, c, t, cycle, total, events, env);
    result := RetryResult(total, config.maxCycles, false);
    SoundDecides(env, t, result, events);
  }

  lemma {:induction false} FreshBudget()
    ensures Budget(1, 5, 3) == 12 && Waits(3, 1, 4) == [3, 6, 9]
  {
    BudgetIsProduct(1, 5, 3);
    assert Waits(3, 1, 2) == [3];
    assert Waits(3, 1, 3) == [3, 6];
  }

  /** The end of the goroutine changes nothing that was met. */
  lemma {:induction false} EndKeepsAnswers(t: seq<Event>)
    ensures var t' := t + [SendFinal] + [Close];
            && Reads(t') == Reads(t) && Ends(t') == Ends(t) && ResetsSeen(t') == ResetsSeen(t)
            && Attempts(t') == Attempts(t) && Sleeps(t') == Sleeps(t) && StopSeen(t') == StopSeen(t)
            && PhaseOf(t') == Advance(Advance(PhaseOf(t), SendFinal), Close)
  {
    Extend(t, SendFinal);
    Extend(t + [SendFinal], Close);
    AnswersExtend(t, SendFinal);
    AnswersExtend(t + [SendFinal], Close);
  }

  /** The production run: from fresh counters at most 12 attempts, and if all fail without a
      shutdown exactly 12, after waits of 3, 6 and 9 hours. The trace ends with the final Failed and
      the close of the channel. */
  method ExecuteVMWatch(counters: RetryCounters, env: Env) returns (result: RetryResult, events: seq<Event>)
    modifies counters
    ensures PhaseOf(events) == Closed && Sends(events) == Pairs(Attempts(events)) + [Failed]
    ensures result.totalAttempts - old(counters.totalAttempts) == Attempts(events)
    ensures Attempts(events) <= Budget(old(counters.currentCycle), 5, 3)
    ensures Follows(events, env, old(counters.totalAttempts))
    ensures result.success <==>
            exists k :: old(counters.totalAttempts) < k <= result.totalAttempts && env.succeeds(k)
    ensures forall k :: old(counters.totalAttempts) < k < result.totalAttempts ==> !env.succeeds(k)
    ensures StopSeen(events) <==> exists i: nat :: i < |Reads(events)| && env.shutdown(i)
    ensures old(counters.currentCycle) == 1 && !result.success && !StopSeen(events) ==>
              Attempts(events) == 12 && Sleeps(events) == [3, 6, 9]
  {
    var retry;
    result, retry := ExecuteRetryLogic(VMWATCH_CONFIG, counters, env);
    events := retry + [SendFinal] + [Close];
    EndKeepsAnswers(retry);
    CompleteRunSends(events);
    if old(counters.currentCycle) == 1 {
      FreshBudget();
    }
  }
}
