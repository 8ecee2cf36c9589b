/** What a signal does to its target, over every run of the takeover protocol: a process told to stop
    leaves in a bounded number of steps without another report, and a killed one is gone at once. */
module TakeoverStop {
  import opened Takeover
  import opened TakeoverSafety
  import L = TakeoverLink

  // ---------- gone is gone ----------

  lemma {:induction false} GoneStep(w: World, a: Action, p: Pid)
    requires Enabled(false, w, a) && p in w.procs && w.procs[p].pc.Gone?
    ensures p in Apply(w, a).procs && Apply(w, a).procs[p] == w.procs[p]
    ensures L.Files(Apply(w, a).log, p) == L.Files(w.log, p)
  {
    L.StepIsLocal(w, a, p);
    StepShape(w, a);
    L.FilesOfBoth(w.log, NewEvents(w, a), p);
  }

  /** A process that is gone stays as it is and never writes again. */
  lemma {:induction false} GoneForGood(w: World, run: seq<Action>, p: Pid)
    requires IsRun(false, w, run) && p in w.procs && w.procs[p].pc.Gone?
    ensures var v := After(false, w, run);
            p in v.procs && v.procs[p] == w.procs[p] && L.Files(v.log, p) == L.Files(w.log, p)
    decreases |run|
  {
    if run == [] {
    } else {
      GoneStep(w, run[0], p);
      GoneForGood(Apply(w, run[0]), run[1..], p);
    }
  }

  // ---------- a process that was told to stop ----------

  /** The steps that a process past enablePre takes at most, once it has been told to stop. */
  function StepsLeft(pc: Pc): nat {
    match pc
    case Admitted => 4
    case AtHead => 3
    case InBody | Asleep => 2
    case Terminating => 1
    case _ => 0
  }

  /** The writes it makes at most: Transitioning, if it has yet to begin, and Error. */
  function WritesLeft(pc: Pc): nat {
    if pc.Gone? then 0 else if pc.Starting() || pc.Admitted? then 2 else 1
  }

  /** A write from main, around the loop: Transitioning or Error. */
  predicate IsMainWrite(a: Action, p: Pid) {
    (a.ReportTransitioning? || a.ReportError?) && a.p == p
  }

  function MainWrites(run: seq<Action>, p: Pid): nat {
    if run == [] then 0 else (if IsMainWrite(run[0], p) then 1 else 0) + MainWrites(run[1..], p)
  }

  /** Something happens to `p` other than that it is told to stop. */
  predicate Moves(w: World, a: Action, p: Pid)
    requires Enabled(false, w, a)
  {
    Subject(w, a) == p && !a.ExternalTerm? && !(a.Signal? && !a.kill)
  }

  function MovesOf(w: World, run: seq<Action>, p: Pid): nat
    requires IsRun(false, w, run)
    decreases |run|
  {
    if run == [] then 0
    else (if Moves(w, run[0], p) then 1 else 0) + MovesOf(Apply(w, run[0]), run[1..], p)
  }

  /** Where a process must be for something to happen to it. */
  predicate Guard(q: Process, a: Action) {
    match a
    case ReadNumber(_, _) => q.pc == Begin
    case Discover(_, _) => q.pc == Discovering
    case Resolve(_, _) => q.pc == Deciding
    case Save(_, _) => q.pc == Saving
    case KillReturns(_) | KillsDone(_) => q.pc.Killing?
    case ReportTransitioning(_, _) => q.pc == Admitted
    case Head(_, _) => q.pc == AtHead
    case Body(_) => q.pc == InBody
    case WakeUp(_) => q.pc == Asleep
    case ReportError(_) => q.pc == Terminating
    case Start(_, _) => false
    case _ => !q.pc.Gone?
  }

  lemma {:induction false} GuardHolds(w: World, a: Action)
    requires Enabled(false, w, a) && !a.Start?
    ensures Subject(w, a) in w.procs && Guard(w.procs[Subject(w, a)], a)
  {
  }

  predicate IsTerm(a: Action) {
    a.ExternalTerm? || (a.Signal? && !a.kill)
  }

  predicate IsMain(a: Action) {
    a.ReportTransitioning? || a.ReportError?
  }

  /** What a process that was told to stop makes of something that happens to it. */
  lemma {:induction false} ToldMoves(q: Process, recorded: nat, a: Action)
    requires q.shutdown && Guard(q, a)
    ensures var q' := Moved(q, recorded, a);
            && q'.shutdown
            && (a.Body? || a.WakeUp? ==> q'.pc == Terminating)
            && WritesLeft(q'.pc) + (if IsMain(a) then 1 else 0) <= WritesLeft(q.pc)
            && (!q.pc.Starting() ==> !q'.pc.Starting())
            && (!q.pc.Starting() ==> StepsLeft(q'.pc) + (if IsTerm(a) then 0 else 1) <= StepsLeft(q.pc))
  {
  }

  /** Only main still writes. */
  lemma {:induction false} ToldWrites(q: Process, p: Pid, s: L.Step)
    requires q.shutdown && Guard(q, s.act) && (s.act.Signal? || s.act.p == p)
    ensures |L.FilesIn(q, p, s)| == if IsMain(s.act) then 1 else 0
  {
    if IsMain(s.act) {
      L.OneFile(Wrote(p, q.seqNum), p);
    } else {
      NoFileIn(Events(q, p, s.register, s.act), p);
    }
  }

  /** One step of a process that was told to stop: the flag stays, the end of the probe and of the sleep
      both lead out of the loop, and only main still writes. */
  lemma {:induction false} ToldStep(w: World, a: Action, p: Pid)
    requires Enabled(false, w, a) && p in w.procs && w.procs[p].shutdown
    ensures p in Apply(w, a).procs
    ensures var q, q' := w.procs[p], Apply(w, a).procs[p];
            && q'.shutdown
            && (a == Body(p) || a == WakeUp(p) ==> q'.pc == Terminating)
            && WritesLeft(q'.pc) + (if IsMainWrite(a, p) then 1 else 0) <= WritesLeft(q.pc)
            && (!q.pc.Starting() ==> !q'.pc.Starting())
            && (!q.pc.Starting() ==> StepsLeft(q'.pc) + (if Moves(w, a, p) then 1 else 0) <= StepsLeft(q.pc))
    ensures |L.Files(Apply(w, a).log, p)| == |L.Files(w.log, p)| + if IsMainWrite(a, p) then 1 else 0
  {
    L.StepIsLocal(w, a, p);
    StepShape(w, a);
    L.FilesOfBoth(w.log, NewEvents(w, a), p);
    if Subject(w, a) == p {
      GuardHolds(w, a);
      ToldMoves(w.procs[p], w.Recorded(), a);
      ToldWrites(w.procs[p], p, L.Step(w.Recorded(), a));
    }
  }

  lemma {:induction false} NoFileIn(es: seq<Event>, p: Pid)
    requires forall i :: 0 <= i < |es| ==> !es[i].Wrote?
    ensures L.Files(es, p) == []
  {
    if es == [] {
    } else {
      NoFileIn(es[..|es| - 1], p);
    }
  }

  /** What becomes of a process that was told to stop, along any run: it never reports again, main
      writes at most twice more, and once past enablePre and its first look it writes at most the
      Error; after its next probe or sleep it is on its way out; and it is gone in at most four steps. */
  predicate Stops(w: World, run: seq<Action>, p: Pid)
    requires IsRun(false, w, run)
  {
    var v := After(false, w, run);
    && p in w.procs && p in v.procs
    && var q, q' := w.procs[p], v.procs[p];
       && q'.shutdown
       && |L.Files(v.log, p)| == |L.Files(w.log, p)| + MainWrites(run, p)
       && MainWrites(run, p) + WritesLeft(q'.pc) <= WritesLeft(q.pc)
       && (!q.pc.Starting() ==>
             && !q'.pc.Starting()
             && MovesOf(w, run, p) + StepsLeft(q'.pc) <= StepsLeft(q.pc)
             && (Body(p) in run || WakeUp(p) in run ==> q'.pc.Terminating? || q'.pc.Gone?))
  }

  lemma {:induction false} ToldProcessStops(w: World, run: seq<Action>, p: Pid)
    requires IsRun(false, w, run) && p in w.procs && w.procs[p].shutdown
    ensures Stops(w, run, p)
    decreases |run|
  {
    if run == [] {
    } else {
      ToldStep(w, run[0], p);
      ToldProcessStops(Apply(w, run[0]), run[1..], p);
      StopsOn(w, run, p);
    }
  }

  lemma {:induction false} StopsOn(w: World, run: seq<Action>, p: Pid)
    requires IsRun(false, w, run) && run != [] && p in w.procs && w.procs[p].shutdown
    requires Stops(Apply(w, run[0]), run[1..], p)
    ensures Stops(w, run, p)
  {
    ToldStep(w, run[0], p);
    assert run == [run[0]] + run[1..];
  }

  /** SIGTERM: the process past enablePre that gets it makes no report from then on and at most one
      write, the Error, or two if it has yet to begin; its next probe or sleep is its last; and it is
      gone after at most four more steps. */
  lemma {:induction false} TermStopsItsTarget(w: World, sender: Pid, run: seq<Action>, p: Pid)
    requires Enabled(false, w, Signal(sender, false)) && Subject(w, Signal(sender, false)) == p
    requires w.procs[p].pc.Serving() && IsRun(false, Apply(w, Signal(sender, false)), run)
    ensures var u := Apply(w, Signal(sender, false));
            var v := After(false, u, run);
            && u.log == w.log + [Signalled(sender, p, w.Recorded())]
            && p in v.procs && v.procs[p].shutdown
            && (Body(p) in run || WakeUp(p) in run ==> v.procs[p].pc.Terminating? || v.procs[p].pc.Gone?)
            && MovesOf(u, run, p) <= 4 && (MovesOf(u, run, p) == 4 ==> v.procs[p].pc.Gone?)
            && |L.Files(v.log, p)| == |L.Files(w.log, p)| + MainWrites(run, p)
            && MainWrites(run, p) <= if w.procs[p].pc.Admitted? then 2 else 1
  {
    var u := Apply(w, Signal(sender, false));
    SignalStep(w, sender, false, p);
    ToldProcessStops(u, run, p);
    AllStepsTaken(u, run, p);
  }

  /** A signal is on record, writes nothing, and does one thing to its target. */
  lemma {:induction false} SignalStep(w: World, sender: Pid, kill: bool, p: Pid)
    requires Enabled(false, w, Signal(sender, kill)) && Subject(w, Signal(sender, kill)) == p
    ensures var u := Apply(w, Signal(sender, kill));
            && u.log == w.log + [Signalled(sender, p, w.Recorded())] && L.Files(u.log, p) == L.Files(w.log, p)
            && p in w.procs && p in u.procs
            && u.procs[p] == if kill then w.procs[p].(pc := Gone(Killed)) else w.procs[p].(shutdown := true)
  {
    var a := Signal(sender, kill);
    StepShape(w, a);
    L.FilesOfBoth(w.log, NewEvents(w, a), p);
    NoFileIn(NewEvents(w, a), p);
  }

  /** A process that has taken all the steps it had left is gone. */
  lemma {:induction false} AllStepsTaken(w: World, run: seq<Action>, p: Pid)
    requires IsRun(false, w, run) && Stops(w, run, p) && !w.procs[p].pc.Starting()
    ensures MovesOf(w, run, p) <= StepsLeft(w.procs[p].pc) <= 4
    ensures MovesOf(w, run, p) == StepsLeft(w.procs[p].pc) ==> After(false, w, run).procs[p].pc.Gone?
  {
  }

  /** SIGKILL: its target is gone at once, wherever it was, and never writes again. */
  lemma {:induction false} KillEndsItsTarget(w: World, sender: Pid, run: seq<Action>, p: Pid)
    requires Enabled(false, w, Signal(sender, true)) && Subject(w, Signal(sender, true)) == p
    requires IsRun(false, Apply(w, Signal(sender, true)), run)
    ensures var u := Apply(w, Signal(sender, true));
            var v := After(false, u, run);
            && u.log == w.log + [Signalled(sender, p, w.Recorded())]
            && p in v.procs && v.procs[p].pc == Gone(Killed) && L.Files(v.log, p) == L.Files(w.log, p)
  {
    SignalStep(w, sender, true, p);
    GoneForGood(Apply(w, Signal(sender, true)), run, p);
  }

  /** And so is a process that crashes, which every live one can, at any time. */
  lemma {:induction false} CrashEndsIt(w: World, run: seq<Action>, p: Pid)
    requires w.Live(p)
    ensures Enabled(false, w, Crash(p))
    ensures IsRun(false, Apply(w, Crash(p)), run) ==>
              var v := After(false, Apply(w, Crash(p)), run);
              p in v.procs && v.procs[p].pc == Gone(Crashed) && L.Files(v.log, p) == L.Files(w.log, p)
  {
    if !IsRun(false, Apply(w, Crash(p)), run) { return; }
    StepShape(w, Crash(p));
    assert w.log + [] == w.log;
    GoneForGood(Apply(w, Crash(p)), run, p);
  }
}
