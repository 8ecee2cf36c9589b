/** The enable command (main/cmds.go, main/main.go): the probe loop around the commit machine, and
    the status writes of the whole process. The environment is a finite sequence of passes; a run
    that is still going when it ends is reported as such. */
module EnableLoop {
  import opened Health
  import opened Debounce
  import opened GraceSpec
  import opened Hysteresis
  import opened CommitMachine
  import opened Settings
  import opened Timeline
  import opened VMWatch

  datatype Report = Report(
    appHealth: StatusType, stateType: StatusType, state: HealthStatus, vmWatch: Option<StatusType>)

  /** An attempt to replace a status file; only writes from the loop carry substatuses. */
  datatype StatusWrite = StatusWrite(file: nat, status: StatusType, report: Option<Report>)

  datatype EnableExit = BadSettings | Superseded | Terminated | StillRunning | Finished

  datatype PreCheck = PreOk | PreIdempotent | PreFailed

  /** The exit code of an enable command that fails. */
  const ENABLE_FAIL_EXIT_CODE := 3

  predicate Supersedes(seqNum: nat, it: Iteration) {
    it.recorded.Some? && seqNum < it.recorded.value
  }

  /** The pass gets as far as writing its report. */
  predicate Reports(seqNum: nat, it: Iteration) {
    !Supersedes(seqNum, it) && !it.shutdownAfterProbe
  }

  /** What the loop takes from the settings; `vmWatch` is the status it starts from, if there are
      VMWatch settings at all. */
  datatype LoopSetup = LoopSetup(cfg: Config, interval: int, vmWatch: Option<VMWatchStatus>)

  function SetupOf(s: PublicSettings): LoopSetup
    requires s.ParseAndValidate() == None
  {
    LoopSetup(s.LoopConfig(), s.IntervalNs(),
              match s.vmWatch
              case None => None
              case Some(enabled) => Some(if enabled then NotRunning else Disabled))
  }

  function VMWatchAfter(vmWatch: Option<VMWatchStatus>, its: seq<Iteration>): (r: Option<VMWatchStatus>)
    ensures r.Some? <==> vmWatch.Some?
  {
    if its == [] || vmWatch == None then vmWatch
    else
      var before := VMWatchAfter(vmWatch, its[..|its| - 1]);
      if before == None then None else Some(AfterSelect(before.value, its[|its| - 1].message))
  }

  function ReportOf(seqNum: nat, c: HealthStatus, vmWatch: Option<VMWatchStatus>): StatusWrite {
    var vm := if vmWatch.Some? then Some(vmWatch.value.Type()) else None;
    StatusWrite(seqNum, StatusSuccess, Some(Report(c.AppHealthStatusType(), c.StateStatusType(), c, vm)))
  }

  /** What the last of the passes `its` has to report, as a function of all of them. */
  function ReportAfter(seqNum: nat, p: LoopSetup, its: seq<Iteration>): StatusWrite {
    ReportOf(seqNum, Committed(p.cfg, HistoryOf(p.interval, its)), VMWatchAfter(p.vmWatch, its))
  }

  /** What the passes `its` report, one after the other. */
  function ReportsOf(seqNum: nat, p: LoopSetup, its: seq<Iteration>): (w: seq<StatusWrite>)
    ensures |w| == |its|
  {
    if its == [] then []
    else ReportsOf(seqNum, p, its[..|its| - 1]) + [ReportAfter(seqNum, p, its)]
  }

  /** The first `n` passes report and go on. */
  predicate GoesOn(seqNum: nat, its: seq<Iteration>, n: nat)
    requires n <= |its|
  {
    forall i :: 0 <= i < n ==> Reports(seqNum, its[i]) && !its[i].shutdownAfterSleep
  }

  /** The loop leaves after `n` reports, for the reason `exit`. */
  predicate LeavesAfter(seqNum: nat, its: seq<Iteration>, n: nat, exit: EnableExit)
    requires n <= |its|
  {
    if n > 0 && its[n - 1].shutdownAfterSleep then
      exit == Terminated && GoesOn(seqNum, its, n - 1) && Reports(seqNum, its[n - 1])
    else
      && GoesOn(seqNum, its, n)
      && (if n == |its| then exit == StillRunning
          else if Supersedes(seqNum, its[n]) then exit == Superseded
          else its[n].shutdownAfterProbe && exit == Terminated)
  }

  /** How the loop goes on after `n` reports, or leaves. */
  lemma {:induction false} GoesOnOrLeaves(seqNum: nat, its: seq<Iteration>, n: nat)
    requires n <= |its| && GoesOn(seqNum, its, n)
    ensures n == |its| ==> LeavesAfter(seqNum, its, n, StillRunning)
    ensures n < |its| && Supersedes(seqNum, its[n]) ==> LeavesAfter(seqNum, its, n, Superseded)
    ensures n < |its| && !Supersedes(seqNum, its[n]) && its[n].shutdownAfterProbe ==>
              LeavesAfter(seqNum, its, n, Terminated)
    ensures n < |its| && Reports(seqNum, its[n]) ==>
              if its[n].shutdownAfterSleep then LeavesAfter(seqNum, its, n + 1, Terminated)
              else GoesOn(seqNum, its, n + 1)
  {
  }

  /** What one more pass adds to the reports. */
  lemma {:induction false} ReportsStep(seqNum: nat, p: LoopSetup, done: seq<Iteration>, next: seq<Iteration>,
                                       it: Iteration)
    requires |next| == |done| + 1 && next[..|done|] == done && next[|done|] == it
    ensures ReportsOf(seqNum, p, next) == ReportsOf(seqNum, p, done) + [ReportAfter(seqNum, p, next)]
    ensures VMWatchAfter(p.vmWatch, next) ==
            match VMWatchAfter(p.vmWatch, done)
            case None => None
            case Some(status) => Some(AfterSelect(status, it.message))
  {
  }

  /** The probe of a pass and what the commit machine makes of it. */
  method Observe(p: LoopSetup, ghost done: seq<Iteration>, ghost next: seq<Iteration>, it: Iteration,
                 machine: Machine, start: nat)
    returns (committed: HealthStatus)
    requires |next| == |done| + 1 && next[..|done|] == done && next[|done|] == it
    requires machine.Valid() && machine.cfg == p.cfg && machine.history == HistoryOf(p.interval, done)
    requires start == Wake(p.interval, done) + it.headDelay
    modifies machine
    ensures machine.Valid() && machine.history == HistoryOf(p.interval, next)
    ensures committed == Committed(p.cfg, HistoryOf(p.interval, next))
  {
    HistoryStep(p.interval, done, next, it);
    machine.Step(it.state, start + it.probeTime);
    committed := machine.committedState;
  }

  /** The part of a pass between the two looks at the shutdown flag; `done` are the passes before it
      and `next` those with it. */
  method ReportPass(seqNum: nat, p: LoopSetup, ghost done: seq<Iteration>, ghost next: seq<Iteration>, it: Iteration,
                    machine: Machine, vmWatch: Option<VMWatchStatus>, start: nat)
    returns (write: StatusWrite, vmWatch': Option<VMWatchStatus>, wake: nat)
    requires |next| == |done| + 1 && next[..|done|] == done && next[|done|] == it
    requires machine.Valid() && machine.cfg == p.cfg && machine.history == HistoryOf(p.interval, done)
    requires vmWatch == VMWatchAfter(p.vmWatch, done)
    requires start == Wake(p.interval, done) + it.headDelay
    modifies machine
    ensures machine.Valid() && machine.history == HistoryOf(p.interval, next)
    ensures vmWatch' == VMWatchAfter(p.vmWatch, next)
    ensures wake == Wake(p.interval, next)
    ensures ReportsOf(seqNum, p, next) == ReportsOf(seqNum, p, done) + [write]
  {
    WakeStep(p.interval, done, next, it);
    ReportsStep(seqNum, p, done, next, it);
    vmWatch' := if vmWatch.Some? then Some(AfterSelect(vmWatch.value, it.message)) else None;
    var committed := Observe(p, done, next, it, machine, start);
    write := ReportOf(seqNum, committed, vmWatch');
    var end := start + it.probeTime + it.reportTime;
    wake := if p.interval - (end - start) > 0 then end + (p.interval - (end - start)) + it.oversleep else end;
  }

  lemma {:induction false} NextPrefix(its: seq<Iteration>, n: nat)
    requires n < |its|
    ensures its[..n + 1][..n] == its[..n] && its[..n + 1][n] == its[n]
  {
  }

  /** The loop is about to begin a pass: after as many passes as it has written reports, all its
      variables are what the closed form says. */
  ghost predicate AtPass(seqNum: nat, p: LoopSetup, its: seq<Iteration>, machine: Machine,
                         vmWatch: Option<VMWatchStatus>, wake: int, writes: seq<StatusWrite>)
    reads machine
  {
    && |writes| <= |its| && GoesOn(seqNum, its, |writes|)
    && machine.Valid() && machine.cfg == p.cfg
    && var done := its[..|writes|];
       && machine.history == HistoryOf(p.interval, done)
       && vmWatch == VMWatchAfter(p.vmWatch, done) && wake == Wake(p.interval, done)
       && writes == ReportsOf(seqNum, p, done)
  }

  /** A pass that gets as far as its report, up to the end of the sleep. */
  method FinishPass(seqNum: nat, p: LoopSetup, its: seq<Iteration>, machine: Machine,
                    vmWatch: Option<VMWatchStatus>, wake: nat, writes: seq<StatusWrite>)
    returns (vmWatch': Option<VMWatchStatus>, wake': nat, writes': seq<StatusWrite>)
    requires AtPass(seqNum, p, its, machine, vmWatch, wake, writes) && |writes| < |its|
    modifies machine
    ensures |writes'| == |writes| + 1 && writes' == ReportsOf(seqNum, p, its[..|writes'|])
    ensures GoesOn(seqNum, its, |writes'|) ==> AtPass(seqNum, p, its, machine, vmWatch', wake', writes')
  {
    var n := |writes|;
    var it := its[n];
    var start := wake + it.headDelay;
    NextPrefix(its, n);
    var write;
    write, vmWatch', wake' := ReportPass(seqNum, p, its[..n], its[..n + 1], it, machine, vmWatch, start);
    writes' := writes + [write];
  }

  /** The loop has left for the reason `exit`, with the reports of the closed form written. */
  predicate Left(seqNum: nat, p: LoopSetup, its: seq<Iteration>, writes: seq<StatusWrite>, exit: EnableExit) {
    && |writes| <= |its| && LeavesAfter(seqNum, its, |writes|, exit)
    && writes == ReportsOf(seqNum, p, its[..|writes|])
  }

  /** Where the loop leaves before it reports. */
  lemma {:induction false} LeavesBeforeReport(seqNum: nat, p: LoopSetup, its: seq<Iteration>, writes: seq<StatusWrite>)
    requires |writes| < |its| && GoesOn(seqNum, its, |writes|) && writes == ReportsOf(seqNum, p, its[..|writes|])
    ensures var it := its[|writes|];
            && (Supersedes(seqNum, it) ==> Left(seqNum, p, its, writes, Superseded))
            && (!Supersedes(seqNum, it) && it.shutdownAfterProbe ==> Left(seqNum, p, its, writes, Terminated))
  {
    GoesOnOrLeaves(seqNum, its, |writes|);
  }

  /** Where it leaves, or goes on, after a report. */
  lemma {:induction false} AfterReport(seqNum: nat, p: LoopSetup, its: seq<Iteration>, n: nat, writes: seq<StatusWrite>)
    requires n < |its| && GoesOn(seqNum, its, n) && Reports(seqNum, its[n])
    requires |writes| == n + 1 && writes == ReportsOf(seqNum, p, its[..|writes|])
    ensures if its[n].shutdownAfterSleep then Left(seqNum, p, its, writes, Terminated) else GoesOn(seqNum, its, n + 1)
  {
    GoesOnOrLeaves(seqNum, its, n);
  }

  /** One pass of the loop, from the look at the recorded number to the end of the sleep. */
  method Pass(seqNum: nat, p: LoopSetup, its: seq<Iteration>, machine: Machine,
              vmWatch: Option<VMWatchStatus>, wake: nat, writes: seq<StatusWrite>)
    returns (exit: Option<EnableExit>, vmWatch': Option<VMWatchStatus>, wake': nat, writes': seq<StatusWrite>)
    requires AtPass(seqNum, p, its, machine, vmWatch, wake, writes) && |writes| < |its|
    modifies machine
    ensures exit == None ==> AtPass(seqNum, p, its, machine, vmWatch', wake', writes') && |writes'| == |writes| + 1
    ensures exit.Some? ==> exit.value in {Superseded, Terminated} && Left(seqNum, p, its, writes', exit.value)
  {
    LeavesBeforeReport(seqNum, p, its, writes);
    var it := its[|writes|];
    if it.recorded.Some? && seqNum < it.recorded.value {
      return Some(Superseded), vmWatch, wake, writes;
    }
    if it.shutdownAfterProbe {
      return Some(Terminated), vmWatch, wake, writes;
    }
    vmWatch', wake', writes' := FinishPass(seqNum, p, its, machine, vmWatch, wake, writes);
    AfterReport(seqNum, p, its, |writes|, writes');
    exit := if it.shutdownAfterSleep then Some(Terminated) else None;
  }

  /** The probe loop. */
  method Loop(seqNum: nat, p: LoopSetup, its: seq<Iteration>)
    returns (exit: EnableExit, writes: seq<StatusWrite>)
    ensures exit != Finished && exit != BadSettings
    ensures Left(seqNum, p, its, writes, exit)
  {
    writes := [];
    var machine := new Machine(p.cfg);
    var vmWatch, wake: nat := p.vmWatch, 0;
    while |writes| < |its|
      invariant fresh(machine) && AtPass(seqNum, p, its, machine, vmWatch, wake, writes)
      decreases |its| - |writes|
    {
      var left;
      left, vmWatch, wake, writes := Pass(seqNum, p, its, machine, vmWatch, wake, writes);
      if left.Some? {
        return left.value, writes;
      }
    }
    GoesOnOrLeaves(seqNum, its, |writes|);
    exit := StillRunning;
  }

  // ---------- what the settings make of the reports ----------

  lemma {:induction false} ReportAt(seqNum: nat, p: LoopSetup, its: seq<Iteration>, i: nat)
    requires i < |its|
    ensures ReportsOf(seqNum, p, its)[i] == ReportAfter(seqNum, p, its[..i + 1])
    decreases |its|
  {
    if i == |its| - 1 {
      assert its[..i + 1] == its;
    } else {
      ReportAt(seqNum, p, its[..|its| - 1], i);
      assert its[..|its| - 1][..i + 1] == its[..i + 1];
    }
  }

  /** Nothing was heard of VMWatch. */
  predicate Silent(its: seq<Iteration>) {
    forall i :: 0 <= i < |its| ==> its[i].message == Nothing
  }

  /** What was heard of VMWatch last was heard in pass `j`. */
  predicate LastHeard(its: seq<Iteration>, j: nat) {
    j < |its| && its[j].message != Nothing && forall i :: j < i < |its| ==> its[i].message == Nothing
  }

  /** The substatus that goes with what was heard. */
  function HeardType(heard: ChannelRead): StatusType {
    if heard == ChannelClosed || heard == Received(Failed) then StatusError
    else if heard == Received(Disabled) then StatusWarning
    else StatusSuccess
  }

  /** Without VMWatch settings there is no substatus for it; with them it is a warning while VMWatch is
      disabled and nothing was heard, success while it is enabled and nothing was heard, and from then
      on what was heard last. */
  predicate ShowsVMWatch(s: PublicSettings, its: seq<Iteration>, w: StatusWrite) {
    && w.report.Some?
    && var vm := w.report.value.vmWatch;
       && (s.vmWatch == None ==> vm == None)
       && (s.vmWatch == Some(false) && Silent(its) ==> vm == Some(StatusWarning))
       && (s.vmWatch == Some(true) && Silent(its) ==> vm == Some(StatusSuccess))
       && (s.vmWatch.Some? ==>
             forall j :: 0 <= j < |its| && LastHeard(its, j) ==> vm == Some(HeardType(its[j].message)))
  }

  lemma {:induction false} SilenceKeeps(vmWatch: Option<VMWatchStatus>, its: seq<Iteration>)
    requires Silent(its)
    ensures VMWatchAfter(vmWatch, its) == vmWatch
  {
    if its == [] {
    } else {
      SilenceKeeps(vmWatch, its[..|its| - 1]);
    }
  }

  lemma {:induction false} LastHeardDecides(vmWatch: VMWatchStatus, its: seq<Iteration>, j: nat)
    requires LastHeard(its, j)
    ensures VMWatchAfter(Some(vmWatch), its).value.Type() == HeardType(its[j].message)
    decreases |its|
  {
    if j == |its| - 1 {
    } else {
      LastHeardDecides(vmWatch, its[..|its| - 1], j);
    }
  }

  /** What the settings say of VMWatch, and what is heard of it, decide its substatus. */
  lemma {:induction false} VMWatchIsShown(seqNum: nat, s: PublicSettings, its: seq<Iteration>)
    requires s.ParseAndValidate() == None && its != []
    ensures ShowsVMWatch(s, its, ReportAfter(seqNum, SetupOf(s), its))
  {
    var start := SetupOf(s).vmWatch;
    if Silent(its) { SilenceKeeps(start, its); }
    forall j | 0 <= j < |its| && start.Some? && LastHeard(its, j)
      ensures VMWatchAfter(start, its).value.Type() == HeardType(its[j].message)
    {
      LastHeardDecides(start.value, its, j);
    }
  }

  lemma {:induction false} VMWatchIsShownAt(seqNum: nat, s: PublicSettings, its: seq<Iteration>, n: nat, i: nat)
    requires s.ParseAndValidate() == None && i < n <= |its|
    ensures ShowsVMWatch(s, its[..i + 1], ReportsOf(seqNum, SetupOf(s), its[..n])[i])
  {
    ReportAt(seqNum, SetupOf(s), its[..n], i);
    assert its[..n][..i + 1] == its[..i + 1];
    VMWatchIsShown(seqNum, s, its[..i + 1]);
  }

  lemma {:induction false} VMWatchIsShownThroughout(seqNum: nat, s: PublicSettings, its: seq<Iteration>,
                                                    writes: seq<StatusWrite>)
    requires s.ParseAndValidate() == None && |writes| <= |its|
    requires writes == ReportsOf(seqNum, SetupOf(s), its[..|writes|])
    ensures forall i :: 0 <= i < |writes| ==> ShowsVMWatch(s, its[..i + 1], writes[i])
  {
    forall i | 0 <= i < |writes| ensures ShowsVMWatch(s, its[..i + 1], writes[i]) {
      VMWatchIsShownAt(seqNum, s, its, |writes|, i);
    }
  }

  /** The enable command: settings first, then the loop. */
  method Enable(seqNum: nat, s: PublicSettings, its: seq<Iteration>)
    returns (exit: EnableExit, writes: seq<StatusWrite>)
    ensures exit != Finished
    ensures exit == BadSettings <==> s.ParseAndValidate() != None
    ensures exit == BadSettings ==> writes == []
    ensures exit != BadSettings ==> |writes| <= |its| && LeavesAfter(seqNum, its, |writes|, exit)
    ensures exit != BadSettings ==> writes == ReportsOf(seqNum, SetupOf(s), its[..|writes|])
    ensures forall i :: 0 <= i < |writes| ==> ShowsVMWatch(s, its[..i + 1], writes[i])
  {
    if s.ParseAndValidate() != None {
      return BadSettings, [];
    }
    exit, writes := Loop(seqNum, SetupOf(s), its);
    VMWatchIsShownThroughout(seqNum, s, its, writes);
  }

  /** A write from the loop: success, with substatuses that agree with one another. */
  predicate IsLoopWrite(w: StatusWrite) {
    && w.status == StatusSuccess && w.report.Some?
    && w.report.value.state != Empty
    && w.report.value.appHealth == (if w.report.value.state in {Unhealthy, Unknown} then StatusError else StatusSuccess)
    && w.report.value.stateType == (if w.report.value.state == Initializing then StatusTransitioning
                                    else if w.report.value.state == Unknown then StatusError else StatusSuccess)
  }

  lemma {:induction false} ReportsAreLoopWrites(seqNum: nat, p: LoopSetup, its: seq<Iteration>)
    ensures forall i :: 0 <= i < |its| ==>
              && IsLoopWrite(ReportsOf(seqNum, p, its)[i]) && ReportsOf(seqNum, p, its)[i].file == seqNum
              && (ReportsOf(seqNum, p, its)[i].report.value.vmWatch.Some? <==> p.vmWatch.Some?)
  {
    if its == [] {
    } else {
      ReportsAreLoopWrites(seqNum, p, its[..|its| - 1]);
      CommittedIsReportable(p.cfg, HistoryOf(p.interval, its));
    }
  }

  /** The state that pass `i` reports. */
  function ReportedState(seqNum: nat, p: LoopSetup, its: seq<Iteration>, i: nat): HealthStatus
    requires i < |its|
  {
    var r := ReportsOf(seqNum, p, its)[i].report;
    if r.Some? then r.value.state else Empty
  }

  /** Pass `i` reports the committed state of the first `i + 1` observations of the whole history. */
  lemma {:induction false} ReportedIsCommitted(seqNum: nat, p: LoopSetup, its: seq<Iteration>, i: nat)
    requires i < |its|
    ensures ReportedState(seqNum, p, its, i) == Committed(p.cfg, HistoryOf(p.interval, its)[..i + 1])
    decreases |its|
  {
    if i == |its| - 1 {
      assert HistoryOf(p.interval, its)[..i + 1] == HistoryOf(p.interval, its);
    } else {
      var before := its[..|its| - 1];
      ReportedIsCommitted(seqNum, p, before, i);
      HistoryOfPrefix(p.interval, its, |its| - 1);
      assert HistoryOf(p.interval, its)[..i + 1] == HistoryOf(p.interval, before)[..i + 1];
    }
  }

  /** Pass `k` looks at the grace period too late. */
  predicate Late(interval: int, grace: int, its: seq<Iteration>, k: nat)
    requires k < |its|
  {
    StartOf(interval, its, k) + its[k].probeTime >= grace
  }

  /** Pass `k` completes `n` equal probes of a state other than `after`. */
  predicate Completes(n: int, after: HealthStatus, its: seq<Iteration>, k: nat)
    requires k < |its|
  {
    k + 1 >= n && its[k].state != after && forall j :: 0 <= j <= k && k - n < j ==> its[j].state == its[k].state
  }

  /** The grace period goes on through pass `k`. */
  predicate GoesOnInGrace(interval: int, n: int, grace: int, after: HealthStatus, its: seq<Iteration>, k: nat)
    requires k < |its|
  {
    !Late(interval, grace, its, k) && !Completes(n, after, its, k)
  }

  lemma {:induction false} EndsGraceIs(cfg: Config, interval: int, its: seq<Iteration>, k: nat)
    requires k < |its|
    ensures var h := HistoryOf(interval, its);
            && (Expires(cfg, h, k) <==> Late(interval, cfg.gracePeriod, its, k))
            && (EndsGrace(cfg, h, k) <==>
                !GoesOnInGrace(interval, cfg.numberOfProbes, cfg.gracePeriod, cfg.afterGrace, its, k))
            && h[k].state == its[k].state
  {
    var h := HistoryOf(interval, its);
    forall j | 0 <= j <= k ensures h[j].state == its[j].state {
      HistoryAt(interval, its, j);
    }
    HistoryAt(interval, its, k);
  }

  /** The grace period of a setup, as seen in the reports. */
  predicate GraceIsReported(interval: int, n: int, grace: int, after: HealthStatus, its: seq<Iteration>, i: nat,
                            reported: HealthStatus)
    requires i < |its|
  {
    var before := forall k :: 0 <= k < i ==> GoesOnInGrace(interval, n, grace, after, its, k);
    && (reported == Initializing <==> before && GoesOnInGrace(interval, n, grace, after, its, i))
    && (before && Late(interval, grace, its, i) ==> reported == after)
    && (before && !Late(interval, grace, its, i) && Completes(n, after, its, i) ==> reported == its[i].state)
  }

  lemma {:induction false} SetupDecidesGrace(seqNum: nat, p: LoopSetup, its: seq<Iteration>, i: nat)
    requires i < |its| && p.cfg.gracePeriod > 0
    ensures GraceIsReported(p.interval, p.cfg.numberOfProbes, p.cfg.gracePeriod, p.cfg.afterGrace, its, i,
                            ReportedState(seqNum, p, its, i))
  {
    var u := HistoryOf(p.interval, its)[..i + 1];
    ReportedIsCommitted(seqNum, p, its, i);
    EndsAlike(p.cfg, p.interval, its, i, u);
    EndsGraceIs(p.cfg, p.interval, its, i);
    FirstEndOfGrace(p.cfg, u);
  }

  /** Up to pass `i`, the history ends the grace period where the passes do. */
  lemma {:induction false} EndsAlike(cfg: Config, interval: int, its: seq<Iteration>, i: nat, u: seq<Observation>)
    requires i < |its| && u == HistoryOf(interval, its)[..i + 1]
    ensures (forall k :: 0 <= k < i ==> !EndsGrace(cfg, u, k)) <==>
            (forall k :: 0 <= k < i ==>
               GoesOnInGrace(interval, cfg.numberOfProbes, cfg.gracePeriod, cfg.afterGrace, its, k))
    ensures Expires(cfg, u, i) <==> Late(interval, cfg.gracePeriod, its, i)
    ensures EndsGrace(cfg, u, i) <==>
            !GoesOnInGrace(interval, cfg.numberOfProbes, cfg.gracePeriod, cfg.afterGrace, its, i)
  {
    var h := HistoryOf(interval, its);
    forall k | 0 <= k <= i
      ensures EndsGrace(cfg, u, k) <==>
              !GoesOnInGrace(interval, cfg.numberOfProbes, cfg.gracePeriod, cfg.afterGrace, its, k)
    {
      EndsGraceIs(cfg, interval, its, k);
      SamePrefixEnds(cfg, h, i + 1, k);
    }
    EndsGraceIs(cfg, interval, its, i);
    SamePrefixEnds(cfg, h, i + 1, i);
  }

  /** What the settings make of the grace period, as seen in the reports: with an interval of 5 s, one
      probe and a grace period of interval times probes where nothing else is set, and Unknown as the
      after-grace state of HTTP and HTTPS, Unhealthy of anything else. A report says Initializing
      exactly if no pass so far was late or completed the probes; the first one that was late reports
      the after-grace state, the first that completed them in time reports the probed one. */
  lemma {:induction false} SettingsDecideGrace(seqNum: nat, s: PublicSettings, its: seq<Iteration>, i: nat,
                                               interval: int, n: int, grace: int, after: HealthStatus)
    requires s.ParseAndValidate() == None && i < |its|
    requires interval == (if s.intervalInSeconds == 0 then 5 else s.intervalInSeconds) * 1_000_000_000
    requires n == if s.numberOfProbes == 0 then 1 else s.numberOfProbes
    requires grace == if s.gracePeriod == 0 then interval * n else s.gracePeriod * 1_000_000_000
    requires after == if s.protocol == "http" || s.protocol == "https" then Unknown else Unhealthy
    ensures GraceIsReported(interval, n, grace, after, its, i, ReportedState(seqNum, SetupOf(s), its, i))
  {
    AcceptedSettings(s);
    GraceFromSettings(s, interval, n, grace);
    assert SetupOf(s).interval == interval && SetupOf(s).cfg == Config(n, grace, after);
    SetupDecidesGrace(seqNum, SetupOf(s), its, i);
  }

  lemma {:induction false} GraceFromSettings(s: PublicSettings, interval: int, n: int, grace: int)
    requires interval == s.Interval() * 1_000_000_000 && n == s.Probes()
    requires grace == if s.gracePeriod == 0 then interval * n else s.gracePeriod * 1_000_000_000
    ensures grace == s.Grace() * 1_000_000_000
  {
    var a, b := s.Interval(), s.Probes();
    assert (a * 1_000_000_000) * b == (a * b) * 1_000_000_000;
  }

  /** What ends the grace period in a history ends it in every longer one. */
  lemma {:induction false} SamePrefixEnds(cfg: Config, h: seq<Observation>, m: nat, k: nat)
    requires k < m <= |h|
    ensures EndsGrace(cfg, h[..m], k) <==> EndsGrace(cfg, h, k)
    ensures Expires(cfg, h[..m], k) <==> Expires(cfg, h, k)
  {
    assert forall j :: 0 <= j < m ==> h[..m][j] == h[j];
  }

  /** What is committed at the end of a history depends on whether it is the first end of grace. */
  lemma {:induction false} FirstEndOfGrace(cfg: Config, h: seq<Observation>)
    requires cfg.gracePeriod > 0 && h != []
    ensures var last := |h| - 1;
            var before := forall k :: 0 <= k < last ==> !EndsGrace(cfg, h, k);
            && (Committed(cfg, h) == Initializing <==> before && !EndsGrace(cfg, h, last))
            && (before && Expires(cfg, h, last) ==> Committed(cfg, h) == cfg.afterGrace)
            && (before && !Expires(cfg, h, last) && EndsGrace(cfg, h, last) ==> Committed(cfg, h) == h[last].state)
  {
    var last := |h| - 1;
    GraceEndIsFirst(cfg, h);
    CommittedIsReportable(cfg, h);
    if GraceEnd(cfg, h) == last {
      if Expires(cfg, h, last) {
        ExpiryCommits(cfg, h, last);
        assert h[..last + 1] == h;
      } else {
        BypassCommits(cfg, h);
      }
    }
  }

  lemma {:induction false} BypassCommits(cfg: Config, h: seq<Observation>)
    requires cfg.gracePeriod > 0 && h != [] && GraceEnd(cfg, h) == |h| - 1 && Bypasses(cfg, h, |h| - 1)
    ensures Committed(cfg, h) == h[|h| - 1].state
  {
    var s := States(h);
    assert LastEqual(s, cfg.numberOfProbes);
  }

  lemma {:induction false} ReportsDifferAsCommitted(seqNum: nat, p: LoopSetup, its: seq<Iteration>, i: nat)
    requires 1 <= i < |its| && ReportedState(seqNum, p, its, i) != ReportedState(seqNum, p, its, i - 1)
    ensures var h := HistoryOf(p.interval, its); Committed(p.cfg, h[..i + 1]) != Committed(p.cfg, h[..i])
  {
    ReportedIsCommitted(seqNum, p, its, i);
    ReportedIsCommitted(seqNum, p, its, i - 1);
  }

  /** A difference between two reports in a row is a change of the committed state after grace. */
  lemma {:induction false} ReportedChangeIsChange(seqNum: nat, p: LoopSetup, its: seq<Iteration>, i: nat)
    requires 1 <= i < |its| && ReportedState(seqNum, p, its, i) != ReportedState(seqNum, p, its, i - 1)
    ensures Changes(p.cfg, HistoryOf(p.interval, its), i)
  {
    ReportsDifferAsCommitted(seqNum, p, its, i);
    DifferenceIsChange(p.cfg, HistoryOf(p.interval, its), i);
  }

  /** As seen in the status file: two reports that differ from the ones before them are at least N
      passes apart, and the later one follows N probes of the state it reports. */
  lemma {:induction false} ReportedChangesAreNApart(seqNum: nat, p: LoopSetup, its: seq<Iteration>, i: nat, j: nat)
    requires 1 <= i < j < |its|
    requires ReportedState(seqNum, p, its, i) != ReportedState(seqNum, p, its, i - 1)
    requires ReportedState(seqNum, p, its, j) != ReportedState(seqNum, p, its, j - 1)
    ensures j - i >= p.cfg.numberOfProbes
    ensures forall k :: j - p.cfg.numberOfProbes < k <= j ==> its[k].state == ReportedState(seqNum, p, its, j)
  {
    var h := HistoryOf(p.interval, its);
    ReportedChangeIsChange(seqNum, p, its, i);
    ReportedChangeIsChange(seqNum, p, its, j);
    ReportedIsCommitted(seqNum, p, its, j);
    ChangesAreNApart(p.cfg, h, i, j);
    forall k | j - p.cfg.numberOfProbes < k <= j ensures its[k].state == ReportedState(seqNum, p, its, j) {
      HistoryAt(p.interval, its, k);
    }
  }

  /** The writes a process may attempt: nothing, or Transitioning, then loop writes, then at most
      one Error at the very end; all to the file of its own sequence number. */
  predicate LifecycleWrites(seqNum: nat, writes: seq<StatusWrite>, failed: bool) {
    && |writes| >= (if failed then 2 else 1)
    && (forall i :: 0 <= i < |writes| ==> writes[i].file == seqNum)
    && writes[0] == StatusWrite(seqNum, StatusTransitioning, None)
    && (forall i :: 1 <= i < (if failed then |writes| - 1 else |writes|) ==> IsLoopWrite(writes[i]))
    && (failed ==> writes[|writes| - 1] == StatusWrite(seqNum, StatusError, None))
  }

  /** Around the reports of the loop come the writes of main. */
  function Lifecycle(seqNum: nat, reports: seq<StatusWrite>, failed: bool): seq<StatusWrite> {
    [StatusWrite(seqNum, StatusTransitioning, None)] + reports +
    if failed then [StatusWrite(seqNum, StatusError, None)] else []
  }

  lemma {:induction false} LifecycleIs(seqNum: nat, reports: seq<StatusWrite>, failed: bool)
    requires forall i :: 0 <= i < |reports| ==> IsLoopWrite(reports[i]) && reports[i].file == seqNum
    ensures var writes := Lifecycle(seqNum, reports, failed);
            && LifecycleWrites(seqNum, writes, failed)
            && StatusWrite(seqNum, StatusSuccess, None) !in writes
            && reports == if failed then writes[1..|writes| - 1] else writes[1..]
  {
    var writes := Lifecycle(seqNum, reports, failed);
    forall i | 0 <= i < |reports| ensures writes[i + 1] == reports[i] && IsLoopWrite(writes[i + 1]) {
    }
  }

  /** The loop writes are the reports of the closed form, and the exit code tells how the loop was left. */
  predicate LoopWritesAre(seqNum: nat, s: PublicSettings, its: seq<Iteration>, exitCode: Option<int>,
                          reports: seq<StatusWrite>)
    requires s.ParseAndValidate() == None
  {
    && |reports| <= |its|
    && reports == ReportsOf(seqNum, SetupOf(s), its[..|reports|])
    && match exitCode
       case None => LeavesAfter(seqNum, its, |reports|, StillRunning)
       case Some(c) => if c == 0 then LeavesAfter(seqNum, its, |reports|, Superseded)
                       else c == ENABLE_FAIL_EXIT_CODE && LeavesAfter(seqNum, its, |reports|, Terminated)
  }

  /** The enable process from the pre-check to its exit. */
  method RunEnableProcess(pre: PreCheck, seqNum: nat, s: PublicSettings, its: seq<Iteration>)
    returns (exitCode: Option<int>, writes: seq<StatusWrite>)
    ensures pre != PreOk <==> writes == []
    ensures pre == PreIdempotent ==> exitCode == Some(0)
    ensures pre == PreFailed ==> exitCode == Some(3)
    ensures pre == PreOk ==> LifecycleWrites(seqNum, writes, exitCode == Some(ENABLE_FAIL_EXIT_CODE))
    ensures pre == PreOk && s.ParseAndValidate() != None ==> exitCode == Some(3) && |writes| == 2
    ensures pre == PreOk && s.ParseAndValidate() == None ==>
              var failed := exitCode == Some(ENABLE_FAIL_EXIT_CODE);
              LoopWritesAre(seqNum, s, its, exitCode, if failed then writes[1..|writes| - 1] else writes[1..])
    ensures StatusWrite(seqNum, StatusSuccess, None) !in writes
  {
    writes := [];
    match pre
    case PreIdempotent => return Some(0), writes;
    case PreFailed => return Some(ENABLE_FAIL_EXIT_CODE), writes;
    case PreOk =>
      writes := [StatusWrite(seqNum, StatusTransitioning, None)];
      var exit, reports := Enable(seqNum, s, its);
      if exit != BadSettings { ReportsAreLoopWrites(seqNum, SetupOf(s), its[..|reports|]); }
      writes := writes + reports;
      match exit {
        case StillRunning =>
          exitCode := None;
        case Superseded =>
          exitCode := Some(0);
        case BadSettings | Terminated =>
          writes := writes + [StatusWrite(seqNum, StatusError, None)];
          exitCode := Some(ENABLE_FAIL_EXIT_CODE);
        case Finished =>
          writes := writes + [StatusWrite(seqNum, StatusSuccess, None)];
          exitCode := Some(0);
      }
      assert writes == Lifecycle(seqNum, reports, exitCode == Some(ENABLE_FAIL_EXIT_CODE));
      LifecycleIs(seqNum, reports, exitCode == Some(ENABLE_FAIL_EXIT_CODE));
  }
}
