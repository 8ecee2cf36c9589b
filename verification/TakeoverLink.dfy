/** The enable process and the kill, seen from the takeover protocol: what a process writes is what one
    process of the protocol writes, and a kill that reports success loses nothing. */
module TakeoverLink {
  import opened Settings
  import opened Timeline
  import T = Takeover
  import TakeoverSafety
  import opened TakeoverPaths
  import E = EnableLoop
  import K = KillProcess

  // ---------- one process of a run ----------

  /** Something that happens to a process, and the recorded number at that moment. */
  datatype Step = Step(register: nat, act: T.Action)

  /** What happens to process `p` along a run. */
  function StepsOf(one: bool, w: T.World, run: seq<T.Action>, p: T.Pid): seq<Step>
    requires T.IsRun(one, w, run)
    decreases |run|
  {
    if run == [] then []
    else StepIn(w, run[0], p) + StepsOf(one, T.Apply(w, run[0]), run[1..], p)
  }

  /** What becomes of a process. */
  function Follow(q: T.Process, steps: seq<Step>): T.Process
    decreases |steps|
  {
    if steps == [] then q else Follow(T.Moved(q, steps[0].register, steps[0].act), steps[1..])
  }

  /** The files that process `p` writes, in the order of the log. */
  function Files(log: seq<T.Event>, p: T.Pid): seq<nat> {
    if log == [] then []
    else
      var e := log[|log| - 1];
      Files(log[..|log| - 1], p) + if e.Wrote? && e.actor == p then [e.file] else []
  }

  function FilesIn(q: T.Process, p: T.Pid, s: Step): seq<nat> {
    Files(T.Events(q, p, s.register, s.act), p)
  }

  /** The files that process `p` writes while it goes through the steps. */
  function FilesWritten(q: T.Process, p: T.Pid, steps: seq<Step>): seq<nat>
    decreases |steps|
  {
    if steps == [] then []
    else FilesIn(q, p, steps[0]) + FilesWritten(T.Moved(q, steps[0].register, steps[0].act), p, steps[1..])
  }

  lemma {:induction false} FilesOfBoth(a: seq<T.Event>, b: seq<T.Event>, p: T.Pid)
    ensures Files(a + b, p) == Files(a, p) + Files(b, p)
    decreases |b|
  {
    if b == [] {
      assert a + b == a;
    } else {
      var n := |b| - 1;
      assert (a + b)[..|a + b| - 1] == a + b[..n] && (a + b)[|a + b| - 1] == b[n];
      FilesOfBoth(a, b[..n], p);
    }
  }

  /** A step that is not about `p` leaves it as it is and writes nothing for it; one that is, is local. */
  lemma {:induction false} StepIsLocal(w: T.World, a: T.Action, p: T.Pid)
    requires T.Enabled(false, w, a) && p in w.procs
    ensures p in T.Apply(w, a).procs
    ensures var q := w.procs[p];
            T.Apply(w, a).procs[p] == if T.Subject(w, a) == p then T.Moved(q, w.Recorded(), a) else q
    ensures Files(TakeoverSafety.NewEvents(w, a), p) ==
            if T.Subject(w, a) == p then FilesIn(w.procs[p], p, Step(w.Recorded(), a)) else []
  {
    TakeoverSafety.StepShape(w, a);
    NoFiles(w, a, p);
  }

  lemma {:induction false} NoFiles(w: T.World, a: T.Action, p: T.Pid)
    requires T.Enabled(false, w, a)
    ensures a.Signal? ==> forall q: T.Process, c: T.Pid, r: nat :: Files(T.Events(q, c, r, a), p) == []
    ensures a.p != p ==> Files(TakeoverSafety.NewEvents(w, a), p) == []
  {
    forall q: T.Process, c: T.Pid, r: nat | a.Signal? ensures Files(T.Events(q, c, r, a), p) == [] {
      OneFile(T.Signalled(a.p, c, r), p);
    }
    var es := TakeoverSafety.NewEvents(w, a);
    if a.p != p { NotItsFiles(es, p); }
  }

  lemma {:induction false} OneFile(e: T.Event, p: T.Pid)
    ensures Files([e], p) == if e.Wrote? && e.actor == p then [e.file] else []
  {
    assert [e][..0] == [];
  }

  lemma {:induction false} NotItsFiles(es: seq<T.Event>, p: T.Pid)
    requires forall i :: 0 <= i < |es| ==> es[i].actor != p
    ensures Files(es, p) == []
  {
    if es == [] {
    } else {
      NotItsFiles(es[..|es| - 1], p);
    }
  }

  /** Between the two worlds, what became of process `p` and what it wrote is what the steps say. */
  predicate GoesThrough(w: T.World, p: T.Pid, steps: seq<Step>, w': T.World) {
    && p in w.procs && p in w'.procs && w'.procs[p] == Follow(w.procs[p], steps)
    && Files(w'.log, p) == Files(w.log, p) + FilesWritten(w.procs[p], p, steps)
  }

  /** The step of `p` that an action is, if it is one. */
  function StepIn(w: T.World, a: T.Action, p: T.Pid): seq<Step>
    requires T.Enabled(false, w, a)
  {
    if T.Subject(w, a) == p then [Step(w.Recorded(), a)] else []
  }

  lemma {:induction false} Prepend(q: T.Process, p: T.Pid, s: Step, rest: seq<Step>)
    ensures Follow(q, [s] + rest) == Follow(T.Moved(q, s.register, s.act), rest)
    ensures FilesWritten(q, p, [s] + rest) ==
            FilesIn(q, p, s) + FilesWritten(T.Moved(q, s.register, s.act), p, rest)
  {
    assert ([s] + rest)[0] == s && ([s] + rest)[1..] == rest;
  }

  lemma {:induction false} FollowOne(q: T.Process, p: T.Pid, s: Step)
    ensures Follow(q, [s]) == T.Moved(q, s.register, s.act) && FilesWritten(q, p, [s]) == FilesIn(q, p, s)
  {
    assert [s][1..] == [];
  }

  lemma {:induction false} FollowBoth(q: T.Process, p: T.Pid, a: seq<Step>, b: seq<Step>)
    ensures Follow(q, a + b) == Follow(Follow(q, a), b)
    ensures FilesWritten(q, p, a + b) == FilesWritten(q, p, a) + FilesWritten(Follow(q, a), p, b)
    decreases |a|
  {
    if a == [] {
      assert a + b == b;
    } else {
      var s, c := a[0], a[1..];
      var m := T.Moved(q, s.register, s.act);
      FollowBoth(m, p, c, b);
      Regroup([s], c, b);
      assert a == [s] + c;
      Prepend(q, p, s, c + b);
      Regroup(FilesIn(q, p, s), FilesWritten(m, p, c), FilesWritten(Follow(m, c), p, b));
    }
  }

  lemma {:induction false} OneActionGoesThrough(w: T.World, a: T.Action, p: T.Pid)
    requires T.Enabled(false, w, a) && p in w.procs
    ensures GoesThrough(w, p, StepIn(w, a, p), T.Apply(w, a))
  {
    StepIsLocal(w, a, p);
    TakeoverSafety.StepShape(w, a);
    FilesOfBoth(w.log, TakeoverSafety.NewEvents(w, a), p);
    FollowOne(w.procs[p], p, Step(w.Recorded(), a));
  }

  lemma {:induction false} GoesThroughBoth(w: T.World, p: T.Pid, a: seq<Step>, v: T.World, b: seq<Step>, u: T.World)
    requires GoesThrough(w, p, a, v) && GoesThrough(v, p, b, u)
    ensures GoesThrough(w, p, a + b, u)
  {
    var q, m := w.procs[p], v.procs[p];
    FollowBoth(q, p, a, b);
    Regroup(Files(w.log, p), FilesWritten(q, p, a), FilesWritten(m, p, b));
  }

  /** In every run, with any number of other processes, a process goes its own way: what becomes of
      it and what it writes depend only on the steps that are about it. */
  lemma {:induction false} RunsAreLocal(one: bool, w: T.World, run: seq<T.Action>, p: T.Pid)
    requires T.IsRun(one, w, run) && p in w.procs
    ensures GoesThrough(w, p, StepsOf(one, w, run, p), T.After(one, w, run))
    decreases |run|
  {
    if run == [] {
    } else {
      var v := T.Apply(w, run[0]);
      OneActionGoesThrough(w, run[0], p);
      RunsAreLocal(one, v, run[1..], p);
      GoesThroughBoth(w, p, StepIn(w, run[0], p), v, StepsOf(one, v, run[1..], p), T.After(one, v, run[1..]));
    }
  }

  // ---------- the enable process is such a process ----------

  /** Process `p` can take this step of its own wherever it is `q`. */
  predicate CanTake(q: T.Process, p: T.Pid, a: T.Action) {
    a.p == p &&
    match a
    case ReportTransitioning(_, _) => q.pc == T.Admitted
    case Head(_, _) => q.pc == T.AtHead
    case Body(_) => q.pc == T.InBody
    case WakeUp(_) => q.pc == T.Asleep
    case ReportError(_) => q.pc == T.Terminating
    case ExternalTerm(_) => !q.pc.Gone?
    case _ => false
  }

  lemma {:induction false} CanTakeIsEnabled(w: T.World, p: T.Pid, a: T.Action)
    requires p in w.procs && CanTake(w.procs[p], p, a)
    ensures T.Enabled(false, w, a) && T.Enabled(true, w, a) && T.Subject(w, a) == p
  {
  }

  /** The steps are steps of `p`, each possible where it comes; they leave it in `q'` and write `n`
      times. */
  predicate Takes(q: T.Process, p: T.Pid, steps: seq<Step>, q': T.Process, n: nat)
    decreases |steps|
  {
    if steps == [] then q' == q && n == 0
    else
      var k := |FilesIn(q, p, steps[0])|;
      && CanTake(q, p, steps[0].act) && k <= n
      && Takes(T.Moved(q, steps[0].register, steps[0].act), p, steps[1..], q', n - k)
  }

  lemma {:induction false} TakesOneMore(q: T.Process, p: T.Pid, s: Step, rest: seq<Step>, q': T.Process, n: nat)
    requires CanTake(q, p, s.act) && Takes(T.Moved(q, s.register, s.act), p, rest, q', n)
    ensures Takes(q, p, [s] + rest, q', |FilesIn(q, p, s)| + n)
  {
    assert ([s] + rest)[0] == s && ([s] + rest)[1..] == rest;
  }

  lemma {:induction false} TakesBoth(q: T.Process, p: T.Pid, a: seq<Step>, m: T.Process, j: nat, b: seq<Step>,
                                     q': T.Process, k: nat)
    requires Takes(q, p, a, m, j) && Takes(m, p, b, q', k)
    ensures Takes(q, p, a + b, q', j + k)
    decreases |a|
  {
    if a == [] {
      assert a + b == b;
    } else {
      var s, f := a[0], |FilesIn(q, p, a[0])|;
      TakesBoth(T.Moved(q, s.register, s.act), p, a[1..], m, j - f, b, q', k);
      TakesOneMore(q, p, s, a[1..] + b, q', j - f + k);
      Regroup([s], a[1..], b);
      assert a == [s] + a[1..];
    }
  }

  /** A process writes only to the file of its own number. */
  lemma {:induction false} TakesWritesOwnFile(q: T.Process, p: T.Pid, steps: seq<Step>, q': T.Process, n: nat)
    requires Takes(q, p, steps, q', n)
    ensures Follow(q, steps) == q' && FilesWritten(q, p, steps) == seq(n, _ => q.seqNum)
    decreases |steps|
  {
    if steps == [] {
    } else {
      var s := steps[0];
      StepWritesOwnFile(q, p, s);
      TakesWritesOwnFile(T.Moved(q, s.register, s.act), p, steps[1..], q', n - |FilesIn(q, p, s)|);
    }
  }

  lemma {:induction false} StepWritesOwnFile(q: T.Process, p: T.Pid, s: Step)
    requires CanTake(q, p, s.act)
    ensures T.Moved(q, s.register, s.act).seqNum == q.seqNum
    ensures |FilesIn(q, p, s)| == (if Writes(q, s.act) then 1 else 0)
    ensures FilesIn(q, p, s) == seq(|FilesIn(q, p, s)|, _ => q.seqNum)
  {
    if Writes(q, s.act) { OneFile(T.Wrote(p, q.seqNum), p); }
  }

  predicate Writes(q: T.Process, a: T.Action) {
    a.ReportTransitioning? || (a.Body? && !q.shutdown) || a.ReportError?
  }

  lemma {:induction false} TakesOne(q: T.Process, p: T.Pid, s: Step)
    requires CanTake(q, p, s.act)
    ensures Takes(q, p, [s], T.Moved(q, s.register, s.act), if Writes(q, s.act) then 1 else 0)
  {
    StepWritesOwnFile(q, p, s);
    TakesOneMore(q, p, s, [], T.Moved(q, s.register, s.act), 0);
    assert [s] + [] == [s];
  }

  function HeadStep(p: T.Pid, it: Iteration): Step {
    Step(if it.recorded.Some? then it.recorded.value else 0, T.Head(p, it.recorded.Some?))
  }

  /** The look at the loop head, as the protocol sees it. */
  lemma {:induction false} TakesHead(q: T.Process, p: T.Pid, it: Iteration)
    requires q.pc == T.AtHead
    ensures Takes(q, p, [HeadStep(p, it)],
                  q.(pc := if E.Supersedes(q.seqNum, it) then T.Gone(T.Superseded) else T.InBody), 0)
  {
    TakesOne(q, p, HeadStep(p, it));
  }

  /** A pass that reports and goes on. */
  lemma {:induction false} TakesPass(q: T.Process, p: T.Pid, it: Iteration) returns (steps: seq<Step>)
    requires q.pc == T.AtHead && !q.shutdown && E.Reports(q.seqNum, it)
    ensures Takes(q, p, steps, q, 1)
  {
    var body, wake := Step(0, T.Body(p)), Step(0, T.WakeUp(p));
    TakesHead(q, p, it);
    TakesOne(q.(pc := T.InBody), p, body);
    TakesOne(q.(pc := T.Asleep), p, wake);
    TakesBoth(q.(pc := T.InBody), p, [body], q.(pc := T.Asleep), 1, [wake], q, 0);
    TakesBoth(q, p, [HeadStep(p, it)], q.(pc := T.InBody), 0, [body] + [wake], q, 1);
    steps := [HeadStep(p, it)] + ([body] + [wake]);
  }

  lemma {:induction false} TakesPasses(q: T.Process, p: T.Pid, its: seq<Iteration>, n: nat) returns (steps: seq<Step>)
    requires q.pc == T.AtHead && (n > 0 ==> !q.shutdown) && n <= |its| && E.GoesOn(q.seqNum, its, n)
    ensures Takes(q, p, steps, q, n)
  {
    if n == 0 {
      steps := [];
    } else {
      var before := TakesPasses(q, p, its, n - 1);
      var last := TakesPass(q, p, its[n - 1]);
      TakesBoth(q, p, before, q, n - 1, last, q, 1);
      steps := before + last;
    }
  }

  /** Told to stop during the sleep, or during the probe: the end of the process. */
  lemma {:induction false} TakesStop(q: T.Process, p: T.Pid, a: T.Action) returns (steps: seq<Step>)
    requires (q.pc == T.InBody && a == T.Body(p)) || (q.pc == T.Asleep && a == T.WakeUp(p))
    ensures Takes(q, p, steps, q.(pc := T.Gone(T.Failed), shutdown := true), 1)
  {
    var told := q.(shutdown := true);
    var stopping := told.(pc := T.Terminating);
    var s1, s2, s3 := Step(0, T.ExternalTerm(p)), Step(0, a), Step(0, T.ReportError(p));
    TakesOne(q, p, s1);
    TakesOne(told, p, s2);
    TakesOne(stopping, p, s3);
    TakesBoth(told, p, [s2], stopping, 0, [s3], stopping.(pc := T.Gone(T.Failed)), 1);
    TakesBoth(q, p, [s1], told, 0, [s2] + [s3], stopping.(pc := T.Gone(T.Failed)), 1);
    steps := [s1] + ([s2] + [s3]);
  }

  /** A pass during which the process is told to stop. */
  lemma {:induction false} TakesLastPass(q: T.Process, p: T.Pid, it: Iteration, reported: bool)
    returns (steps: seq<Step>, q': T.Process)
    requires q.pc == T.AtHead && (reported ==> !q.shutdown) && !E.Supersedes(q.seqNum, it)
    ensures q'.pc == T.Gone(T.Failed) && Takes(q, p, steps, q', if reported then 2 else 1)
  {
    var m := q.(pc := T.InBody);
    TakesHead(q, p, it);
    var rest;
    if reported {
      var body := Step(0, T.Body(p));
      TakesOne(m, p, body);
      var tail := TakesStop(q.(pc := T.Asleep), p, T.WakeUp(p));
      q' := q.(pc := T.Gone(T.Failed), shutdown := true);
      TakesBoth(m, p, [body], q.(pc := T.Asleep), 1, tail, q', 1);
      rest := [body] + tail;
    } else {
      rest := TakesStop(m, p, T.Body(p));
      q' := m.(pc := T.Gone(T.Failed), shutdown := true);
    }
    TakesBoth(q, p, [HeadStep(p, it)], m, 0, rest, q', if reported then 2 else 1);
    steps := [HeadStep(p, it)] + rest;
  }

  /** Where the protocol has a process that left the loop for this reason. */
  function PcAfter(exit: E.EnableExit): T.Pc {
    match exit
    case StillRunning => T.AtHead
    case Superseded => T.Gone(T.Superseded)
    case _ => T.Gone(T.Failed)
  }

  /** The flag is never cleared: a process told to stop in enablePre finds it set after its first probe. */
  predicate FlagStaysSet(q: T.Process, its: seq<Iteration>) {
    q.shutdown && its != [] ==> its[0].shutdownAfterProbe
  }

  /** The loop, from its first pass to the exit of the process. */
  lemma {:induction false} TakesLoop(q: T.Process, p: T.Pid, its: seq<Iteration>, n: nat, exit: E.EnableExit)
    returns (steps: seq<Step>, q': T.Process)
    requires q.pc == T.AtHead && FlagStaysSet(q, its) && n <= |its| && E.LeavesAfter(q.seqNum, its, n, exit)
    ensures q'.pc == PcAfter(exit) && Takes(q, p, steps, q', if exit == E.Terminated then n + 1 else n)
  {
    assert n > 0 ==> E.Reports(q.seqNum, its[0]) && !q.shutdown;
    if n > 0 && its[n - 1].shutdownAfterSleep {
      var before := TakesPasses(q, p, its, n - 1);
      var last;
      last, q' := TakesLastPass(q, p, its[n - 1], true);
      TakesBoth(q, p, before, q, n - 1, last, q', 2);
      steps := before + last;
    } else {
      var before := TakesPasses(q, p, its, n);
      if exit == E.StillRunning {
        steps, q' := before, q;
      } else if exit == E.Superseded {
        TakesHead(q, p, its[n]);
        q' := q.(pc := T.Gone(T.Superseded));
        TakesBoth(q, p, before, q, n, [HeadStep(p, its[n])], q', 0);
        steps := before + [HeadStep(p, its[n])];
      } else {
        var last;
        last, q' := TakesLastPass(q, p, its[n], false);
        TakesBoth(q, p, before, q, n, last, q', 1);
        steps := before + last;
      }
    }
  }

  /** Where the protocol has a process with this exit code. */
  function PcWithCode(exitCode: Option<int>): T.Pc {
    match exitCode
    case None => T.AtHead
    case Some(c) => if c == 0 then T.Gone(T.Superseded) else T.Gone(T.Failed)
  }

  lemma {:induction false} TakesBadSettings(q: T.Process, p: T.Pid) returns (steps: seq<Step>, q': T.Process)
    requires q.pc == T.Admitted
    ensures q'.pc == T.Gone(T.Failed) && Takes(q, p, steps, q', 2)
  {
    var s1, s2 := Step(0, T.ReportTransitioning(p, false)), Step(0, T.ReportError(p));
    var m := q.(pc := T.Terminating);
    q' := q.(pc := T.Gone(T.Failed));
    TakesOne(q, p, s1);
    TakesOne(m, p, s2);
    TakesBoth(q, p, [s1], m, 1, [s2], q', 1);
    steps := [s1] + [s2];
  }

  lemma {:induction false} TakesGoodSettings(q: T.Process, p: T.Pid, its: seq<Iteration>, n: nat, exit: E.EnableExit)
    returns (steps: seq<Step>, q': T.Process)
    requires q.pc == T.Admitted && FlagStaysSet(q, its) && n <= |its| && E.LeavesAfter(q.seqNum, its, n, exit)
    ensures q'.pc == PcAfter(exit) && Takes(q, p, steps, q', if exit == E.Terminated then n + 2 else n + 1)
  {
    var first, m := Step(0, T.ReportTransitioning(p, true)), q.(pc := T.AtHead);
    TakesOne(q, p, first);
    var rest;
    rest, q' := TakesLoop(m, p, its, n, exit);
    TakesBoth(q, p, [first], m, 1, rest, q', if exit == E.Terminated then n + 1 else n);
    steps := [first] + rest;
  }

  /** The writes of a process that left enable with `exit`, after `n` reports. */
  function WritesWith(exit: E.EnableExit, n: nat): nat {
    if exit == E.Terminated || exit == E.BadSettings then n + 2 else n + 1
  }

  /** How the command was left, read off the exit code and the writes. */
  predicate LeftWith(seqNum: nat, its: seq<Iteration>, exitCode: Option<int>, writes: nat, exit: E.EnableExit, n: nat) {
    && writes == WritesWith(exit, n) && PcAfter(exit) == PcWithCode(exitCode)
    && if exit == E.BadSettings then n == 0 else n <= |its| && E.LeavesAfter(seqNum, its, n, exit)
  }

  lemma {:induction false} HowItLeft(seqNum: nat, s: PublicSettings, its: seq<Iteration>, exitCode: Option<int>,
                                     reports: seq<E.StatusWrite>) returns (exit: E.EnableExit)
    requires if s.ParseAndValidate() == None then E.LoopWritesAre(seqNum, s, its, exitCode, reports)
             else exitCode == Some(E.ENABLE_FAIL_EXIT_CODE) && reports == []
    ensures var failed := exitCode == Some(E.ENABLE_FAIL_EXIT_CODE);
            LeftWith(seqNum, its, exitCode, |reports| + (if failed then 2 else 1), exit, |reports|)
  {
    exit := if s.ParseAndValidate() != None then E.BadSettings
            else match exitCode
            case None => E.StillRunning
            case Some(c) => if c == 0 then E.Superseded else E.Terminated;
  }

  lemma {:induction false} EnableTakes(q: T.Process, p: T.Pid, its: seq<Iteration>, exitCode: Option<int>, writes: nat,
                                       exit: E.EnableExit, n: nat)
    returns (steps: seq<Step>, q': T.Process)
    requires q.pc == T.Admitted && FlagStaysSet(q, its) && LeftWith(q.seqNum, its, exitCode, writes, exit, n)
    ensures q'.pc == PcWithCode(exitCode) && Takes(q, p, steps, q', writes)
  {
    if exit == E.BadSettings {
      steps, q' := TakesBadSettings(q, p);
    } else {
      steps, q' := TakesGoodSettings(q, p, its, n, exit);
    }
  }

  lemma {:induction false} SameFiles(seqNum: nat, writes: seq<E.StatusWrite>, failed: bool, files: seq<nat>)
    requires E.LifecycleWrites(seqNum, writes, failed) && files == seq(|writes|, _ => seqNum)
    ensures |files| == |writes| && forall i :: 0 <= i < |writes| ==> files[i] == writes[i].file
  {
  }

  /** Whatever an enable process does once it is past the pre-check, a process of the takeover
      protocol does it too, in steps that are possible wherever they come: it writes the same files
      in the same order and ends in the place that goes with the exit code. */
  lemma {:induction false} EnableFollowsTheProtocol(q: T.Process, p: T.Pid, s: PublicSettings, its: seq<Iteration>,
                                                    exitCode: Option<int>, writes: seq<E.StatusWrite>)
    returns (steps: seq<Step>, q': T.Process)
    requires q.pc == T.Admitted && FlagStaysSet(q, its)
    requires var failed := exitCode == Some(E.ENABLE_FAIL_EXIT_CODE);
             && E.LifecycleWrites(q.seqNum, writes, failed)
             && (s.ParseAndValidate() != None ==> failed && |writes| == 2)
             && (s.ParseAndValidate() == None ==>
                   E.LoopWritesAre(q.seqNum, s, its, exitCode, if failed then writes[1..|writes| - 1] else writes[1..]))
    ensures Takes(q, p, steps, q', |writes|) && Follow(q, steps) == q' && q'.pc == PcWithCode(exitCode)
    ensures |FilesWritten(q, p, steps)| == |writes|
    ensures forall i :: 0 <= i < |writes| ==> FilesWritten(q, p, steps)[i] == writes[i].file
  {
    var failed := exitCode == Some(E.ENABLE_FAIL_EXIT_CODE);
    var reports := if failed then writes[1..|writes| - 1] else writes[1..];
    var exit := HowItLeft(q.seqNum, s, its, exitCode, reports);
    steps, q' := EnableTakes(q, p, its, exitCode, |writes|, exit, |reports|);
    TakesWritesOwnFile(q, p, steps, q', |writes|);
    SameFiles(q.seqNum, writes, failed, FilesWritten(q, p, steps));
  }

  // ---------- in the middle of any run ----------

  /** What the other processes do before a step, and the step. */
  datatype Part = Part(others: seq<T.Action>, step: Step)

  function StepsIn(parts: seq<Part>): seq<Step> {
    if parts == [] then [] else [parts[0].step] + StepsIn(parts[1..])
  }

  /** The run in which the steps of one process take their turns with what the others do. */
  function Weave(parts: seq<Part>): seq<T.Action> {
    if parts == [] then [] else FirstRun(parts) + Weave(parts[1..])
  }

  /** The others run in the world as it is, do nothing to `p`, and leave the recorded number that `p`
      reads next. */
  predicate Surrounds(one: bool, w: T.World, p: T.Pid, parts: seq<Part>)
    decreases |parts|
  {
    parts == [] ||
    (var run, s := parts[0].others, parts[0].step;
     && T.IsRun(one, w, run) && StepsOf(one, w, run, p) == []
     && var v := T.After(one, w, run);
        && (s.act.Head? && s.act.ok ==> s.register == v.Recorded())
        && (T.Enabled(one, v, s.act) ==> Surrounds(one, T.Apply(v, s.act), p, parts[1..])))
  }

  /** Only a successful look at the loop head depends on the recorded number. */
  lemma {:induction false} RegisterMattersAtHead(q: T.Process, p: T.Pid, a: T.Action, r: nat, r': nat)
    requires CanTake(q, p, a) && (a.Head? && a.ok ==> r == r')
    ensures T.Moved(q, r, a) == T.Moved(q, r', a) && FilesIn(q, p, Step(r, a)) == FilesIn(q, p, Step(r', a))
  {
  }

  /** From `w` to `v`, process `p` has become `q` and written `n` times. */
  predicate Became(w: T.World, p: T.Pid, v: T.World, q: T.Process, n: nat) {
    && p in w.procs && p in v.procs && v.procs[p] == q
    && |Files(v.log, p)| == |Files(w.log, p)| + n
  }

  lemma {:induction false} BecameBoth(w: T.World, p: T.Pid, v: T.World, q: T.Process, j: nat, u: T.World,
                                      q': T.Process, k: nat)
    requires Became(w, p, v, q, j) && Became(v, p, u, q', k)
    ensures Became(w, p, u, q', j + k)
  {
  }

  /** The others leave `p` as it is. */
  lemma {:induction false} OthersLeave(one: bool, w: T.World, run: seq<T.Action>, p: T.Pid)
    requires T.IsRun(one, w, run) && p in w.procs && StepsOf(one, w, run, p) == []
    ensures Became(w, p, T.After(one, w, run), w.procs[p], 0)
  {
    RunsAreLocal(one, w, run, p);
  }

  /** A step of `p` in a world that has the number it reads. */
  lemma {:induction false} StepInWorld(w: T.World, p: T.Pid, s: Step)
    requires p in w.procs && CanTake(w.procs[p], p, s.act) && T.Enabled(false, w, s.act)
    requires s.act.Head? && s.act.ok ==> s.register == w.Recorded()
    ensures Became(w, p, T.Apply(w, s.act), T.Moved(w.procs[p], s.register, s.act), |FilesIn(w.procs[p], p, s)|)
  {
    var q := w.procs[p];
    CanTakeIsEnabled(w, p, s.act);
    StepIsLocal(w, s.act, p);
    TakeoverSafety.StepShape(w, s.act);
    FilesOfBoth(w.log, TakeoverSafety.NewEvents(w, s.act), p);
    RegisterMattersAtHead(q, p, s.act, s.register, w.Recorded());
  }

  lemma {:induction false} FirstStep(q: T.Process, p: T.Pid, parts: seq<Part>, q': T.Process, n: nat)
    requires parts != [] && Takes(q, p, StepsIn(parts), q', n)
    ensures var s, k := parts[0].step, |FilesIn(q, p, parts[0].step)|;
            && CanTake(q, p, s.act) && k <= n
            && Takes(T.Moved(q, s.register, s.act), p, StepsIn(parts[1..]), q', n - k)
  {
    var steps := StepsIn(parts);
    assert steps[0] == parts[0].step && steps[1..] == StepsIn(parts[1..]);
  }

  /** The others, and then one step of `p`: `k` writes, and what is left can go on from there. */
  lemma {:induction false} FirstPart(one: bool, w: T.World, p: T.Pid, parts: seq<Part>, k: nat) returns (t: T.World)
    requires p in w.procs && parts != [] && Surrounds(one, w, p, parts)
    requires CanTake(w.procs[p], p, parts[0].step.act) && k == |FilesIn(w.procs[p], p, parts[0].step)|
    ensures Leads(one, w, parts[0].others + [parts[0].step.act], t) && Surrounds(one, t, p, parts[1..])
    ensures Became(w, p, t, T.Moved(w.procs[p], parts[0].step.register, parts[0].step.act), k)
  {
    var run, s, q := parts[0].others, parts[0].step, w.procs[p];
    var u := T.After(one, w, run);
    OthersLeave(one, w, run, p);
    CanTakeIsEnabled(u, p, s.act);
    t := T.Apply(u, s.act);
    StepInWorld(u, p, s);
    BecameBoth(w, p, u, q, 0, t, t.procs[p], k);
    OneStep(one, u, s.act);
    RunAppend(one, w, run, u, [s.act], t);
  }

  /** Process `p` can take the steps in the parts, and the others let it. */
  predicate Ready(one: bool, w: T.World, p: T.Pid, parts: seq<Part>, q': T.Process, n: nat) {
    p in w.procs && Takes(w.procs[p], p, StepsIn(parts), q', n) && Surrounds(one, w, p, parts)
  }

  /** A run after which process `p` is `q` and has written `n` times. */
  predicate Turns(one: bool, w: T.World, p: T.Pid, run: seq<T.Action>, v: T.World, q: T.Process, n: nat) {
    Leads(one, w, run, v) && Became(w, p, v, q, n)
  }

  lemma {:induction false} TurnsBoth(one: bool, w: T.World, p: T.Pid, a: seq<T.Action>, t: T.World, q: T.Process,
                                     j: nat, b: seq<T.Action>, v: T.World, q': T.Process, k: nat)
    requires Turns(one, w, p, a, t, q, j) && Turns(one, t, p, b, v, q', k)
    ensures Turns(one, w, p, a + b, v, q', j + k)
  {
    BecameBoth(w, p, t, q, j, v, q', k);
    RunAppend(one, w, a, t, b, v);
  }

  function FirstRun(parts: seq<Part>): seq<T.Action>
    requires parts != []
  {
    parts[0].others + [parts[0].step.act]
  }

  lemma {:induction false} TakePart(one: bool, w: T.World, p: T.Pid, parts: seq<Part>, q': T.Process, n: nat)
    returns (t: T.World, q: T.Process, k: nat)
    requires Ready(one, w, p, parts, q', n) && parts != []
    ensures Turns(one, w, p, FirstRun(parts), t, q, k)
    ensures k <= n && Ready(one, t, p, parts[1..], q', n - k)
  {
    k := |FilesIn(w.procs[p], p, parts[0].step)|;
    FirstStep(w.procs[p], p, parts, q', n);
    t := FirstPart(one, w, p, parts, k);
    q := t.procs[p];
  }

  lemma {:induction false} NoPartsLeft(one: bool, w: T.World, p: T.Pid, q': T.Process, n: nat)
    requires Ready(one, w, p, [], q', n)
    ensures Turns(one, w, p, Weave([]), w, q', n)
  {
  }

  lemma {:induction false} TurnsAll(one: bool, w: T.World, p: T.Pid, parts: seq<Part>, t: T.World, q: T.Process, j: nat,
                                    v: T.World, q': T.Process, k: nat)
    requires parts != []
    requires Turns(one, w, p, FirstRun(parts), t, q, j) && Turns(one, t, p, Weave(parts[1..]), v, q', k)
    ensures Turns(one, w, p, Weave(parts), v, q', j + k)
  {
    TurnsBoth(one, w, p, FirstRun(parts), t, q, j, Weave(parts[1..]), v, q', k);
  }

  /** Steps that a process can take are part of a run of the world, whatever the other processes do in
      between: at the end the process is where the steps lead, and its writes are in the log. */
  lemma {:induction false} StepsMakeARun(one: bool, w: T.World, p: T.Pid, parts: seq<Part>, q': T.Process, n: nat)
    returns (v: T.World)
    requires Ready(one, w, p, parts, q', n)
    ensures Turns(one, w, p, Weave(parts), v, q', n)
    decreases |parts|
  {
    if parts == [] {
      v := w;
      NoPartsLeft(one, w, p, q', n);
    } else {
      var t, q, k := TakePart(one, w, p, parts, q', n);
      v := StepsMakeARun(one, t, p, parts[1..], q', n - k);
      TurnsAll(one, w, p, parts, t, q, k, v, q', n - k);
    }
  }

  /** `b` is `a` and then nothing but `x`. */
  predicate GrowsBy(a: seq<nat>, b: seq<nat>, x: nat) {
    |a| <= |b| && b[..|a|] == a && forall i :: |a| <= i < |b| ==> b[i] == x
  }

  /** One action: what it writes for `p` goes to the file of its number, which it keeps. */
  lemma {:induction false} ActionWritesOwnFile(w: T.World, a: T.Action, p: T.Pid)
    requires T.Enabled(false, w, a) && p in w.procs
    ensures p in T.Apply(w, a).procs && T.Apply(w, a).procs[p].seqNum == w.procs[p].seqNum
    ensures GrowsBy(Files(w.log, p), Files(T.Apply(w, a).log, p), w.procs[p].seqNum)
  {
    StepIsLocal(w, a, p);
    TakeoverSafety.StepShape(w, a);
    FilesOfBoth(w.log, TakeoverSafety.NewEvents(w, a), p);
    if T.Subject(w, a) == p {
      TakeoverSafety.StepLocal(w, a);
      EventsAreOwn(w.procs[p], p, Step(w.Recorded(), a));
    }
  }

  lemma {:induction false} EventsAreOwn(q: T.Process, p: T.Pid, s: Step)
    ensures forall i :: 0 <= i < |FilesIn(q, p, s)| ==> FilesIn(q, p, s)[i] == q.seqNum
  {
    FilesComeFrom(T.Events(q, p, s.register, s.act), p, q.seqNum);
  }

  lemma {:induction false} FilesComeFrom(log: seq<T.Event>, p: T.Pid, x: nat)
    requires forall i :: 0 <= i < |log| && log[i].Wrote? ==> log[i].file == x
    ensures forall i :: 0 <= i < |Files(log, p)| ==> Files(log, p)[i] == x
  {
    if log == [] {
    } else {
      FilesComeFrom(log[..|log| - 1], p, x);
    }
  }

  lemma {:induction false} GrowsBoth(a: seq<nat>, b: seq<nat>, c: seq<nat>, x: nat)
    requires GrowsBy(a, b, x) && GrowsBy(b, c, x)
    ensures GrowsBy(a, c, x)
  {
    assert c[..|b|] == b;
    assert forall i :: 0 <= i < |b| ==> c[i] == b[i];
  }

  /** In every run a process writes only to the file of its own number. */
  lemma {:induction false} RunWritesOwnFile(one: bool, w: T.World, run: seq<T.Action>, p: T.Pid)
    requires T.IsRun(one, w, run) && p in w.procs
    ensures GrowsBy(Files(w.log, p), Files(T.After(one, w, run).log, p), w.procs[p].seqNum)
    decreases |run|
  {
    if run == [] {
    } else {
      var v := T.Apply(w, run[0]);
      ActionWritesOwnFile(w, run[0], p);
      RunWritesOwnFile(one, v, run[1..], p);
      GrowsBoth(Files(w.log, p), Files(v.log, p), Files(T.After(one, w, run).log, p), w.procs[p].seqNum);
    }
  }

  /** Whatever the others do between the steps of `p`, the whole is a run; `p` becomes `q'` and writes
      `n` times, always to its own file. */
  ghost predicate Embeds(one: bool, w: T.World, p: T.Pid, steps: seq<Step>, q': T.Process, n: nat)
    requires p in w.procs
  {
    forall parts :: StepsIn(parts) == steps && Surrounds(one, w, p, parts) ==>
      exists v ::
        Turns(one, w, p, Weave(parts), v, q', n) && GrowsBy(Files(w.log, p), Files(v.log, p), w.procs[p].seqNum)
  }

  lemma {:induction false} TakesEmbeds(one: bool, w: T.World, p: T.Pid, steps: seq<Step>, q': T.Process, n: nat)
    requires p in w.procs && Takes(w.procs[p], p, steps, q', n)
    ensures Embeds(one, w, p, steps, q', n)
  {
    forall parts | StepsIn(parts) == steps && Surrounds(one, w, p, parts)
      ensures exists v ::
          Turns(one, w, p, Weave(parts), v, q', n) && GrowsBy(Files(w.log, p), Files(v.log, p), w.procs[p].seqNum)
    {
      var v := StepsMakeARun(one, w, p, parts, q', n);
      RunWritesOwnFile(one, w, Weave(parts), p);
    }
  }

  /** The enable process in the middle of any run: whatever the other processes do between its steps,
      with any number of starters or with one at a time, the whole is a run of the protocol, so that
      everything proved of all runs holds of it; it writes as often as it did, to its own
      file, and ends as its exit code says. */
  lemma {:induction false} EnableIsPartOfARun(one: bool, w: T.World, p: T.Pid, s: PublicSettings, its: seq<Iteration>,
                                              exitCode: Option<int>, writes: seq<E.StatusWrite>)
    returns (steps: seq<Step>, q': T.Process)
    requires p in w.procs && w.procs[p].pc == T.Admitted && FlagStaysSet(w.procs[p], its)
    requires var failed := exitCode == Some(E.ENABLE_FAIL_EXIT_CODE);
             && E.LifecycleWrites(w.procs[p].seqNum, writes, failed)
             && (s.ParseAndValidate() != None ==> failed && |writes| == 2)
             && (s.ParseAndValidate() == None ==>
                   E.LoopWritesAre(w.procs[p].seqNum, s, its, exitCode,
                                   if failed then writes[1..|writes| - 1] else writes[1..]))
    ensures q'.pc == PcWithCode(exitCode)
    ensures Embeds(one, w, p, steps, q', |writes|)
  {
    steps, q' := EnableFollowsTheProtocol(w.procs[p], p, s, its, exitCode, writes);
    TakesEmbeds(one, w, p, steps, q', |writes|);
  }

  // ---------- a kill that reports success loses nothing ----------

  /** Once gone, the target stays gone. */
  ghost predicate DeadStaysDead(target: K.Target) {
    forall i: nat, j: nat :: i <= j && !target.alive(i) ==> !target.alive(j)
  }

  /** A kill that reports success has seen the target gone, and so it is when the kill returns. */
  lemma {:induction false} SeenGone(target: K.Target, trace: seq<K.Act>)
    requires K.SawGone(trace) && K.Answered(trace, target.alive) && DeadStaysDead(target)
    ensures !target.alive(|K.Answers(trace)|)
  {
    var n := |K.Answers(trace)| - 1;
    assert K.Answers(trace)[n] == false == target.alive(n);
    assert !target.alive(n + 1);
  }

  /** In the takeover protocol that is the end of a kill that loses nothing: if the process was live,
      it would be the program still and answer the next poll. */
  lemma {:induction false} NilLosesNothing(w: T.World, p: T.Pid, target: K.Target, ok: bool, trace: seq<K.Act>)
    requires T.Enabled(false, w, T.KillReturns(p))
    requires K.KillOutcome(target, ok, trace) && DeadStaysDead(target)
    requires w.Live(w.procs[p].pc.remaining[0]) ==> target.isAHE && target.alive(|K.Answers(trace)|)
    ensures ok ==> !T.Loses(w, T.KillReturns(p))
  {
    if ok && target.isAHE { SeenGone(target, trace); }
  }

  /** A kill that reports an error goes on to the next process all the same, and loses one exactly if it
      is still live. */
  lemma {:induction false} ErrorGoesOn(w: T.World, p: T.Pid)
    requires p in w.procs && w.procs[p].pc.Killing? && w.procs[p].pc.remaining != []
    ensures T.Enabled(false, w, T.KillReturns(p))
    ensures T.Apply(w, T.KillReturns(p)).lossy <==> w.lossy || w.Live(w.procs[p].pc.remaining[0])
    ensures var q := w.procs[p];
            T.Apply(w, T.KillReturns(p)).procs == w.procs[p := q.(pc := T.Killing(q.pc.remaining[1..], q.pc.thenSave))]
  {
  }
}
