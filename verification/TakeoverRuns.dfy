/** What the takeover protocol guarantees over whole runs. */
module TakeoverRuns {
  import opened Settings
  import opened Takeover
  import opened TakeoverSafety
  import opened TakeoverExclusion

  lemma {:induction false} RunKeepsInv(w: World, run: seq<Action>)
    requires Inv(w) && IsRun(true, w, run)
    ensures Inv(After(true, w, run))
    ensures w.Recorded() <= After(true, w, run).Recorded()
    decreases |run|
  {
    if run == [] {
    } else {
      InvStep(w, run[0]);
      RunKeepsInv(Apply(w, run[0]), run[1..]);
    }
  }

  lemma {:induction false} RunIsExclusive(w: World, run: seq<Action>)
    requires Exclusive(w) && IsRun(false, w, run)
    ensures Exclusive(After(false, w, run))
    decreases |run|
  {
    if run == [] {
    } else {
      ExclusiveStep(w, run[0]);
      RunIsExclusive(Apply(w, run[0]), run[1..]);
    }
  }

  /** Without loss, at most one process is past enablePre, whatever crashed and whenever, and however
      many processes start at the same time. */
  lemma {:induction false} AtMostOneProcessServes(recorded: Option<nat>, run: seq<Action>, p: Pid, q: Pid)
    requires IsRun(false, Initial(recorded), run)
    requires var w := After(false, Initial(recorded), run);
             !w.lossy && p in w.procs && q in w.procs && w.procs[p].pc.Serving() && w.procs[q].pc.Serving()
    ensures p == q
  {
    RunIsExclusive(Initial(recorded), run);
  }

  lemma {:induction false} OwnerEntered(log: seq<Event>, p: Pid) returns (b: nat)
    requires Owner(log) == Some(p)
    ensures b < |log| && log[b].Entered? && log[b].actor == p
    ensures forall i :: b < i < |log| ==> !log[i].Entered?
  {
    var k := |log| - 1;
    if log[k].Entered? {
      b := k;
    } else {
      b := OwnerEntered(log[..k], p);
    }
  }

  /** Without loss, once a process has entered, every later write to its status file is its own,
      until another process enters with the same number; again with any number of starters. */
  lemma {:induction false} StatusFileBelongsToLastEntered(recorded: Option<nat>, run: seq<Action>, a: nat, i: nat)
    requires IsRun(false, Initial(recorded), run)
    requires var w := After(false, Initial(recorded), run);
             !w.lossy && a < i < |w.log| && w.log[a].Entered? && w.log[i] == Wrote(w.log[i].actor, w.log[a].number)
    ensures var log := After(false, Initial(recorded), run).log;
            log[i].actor == log[a].actor || exists b :: a < b < i && log[b] == Entered(log[i].actor, log[a].number)
  {
    RunIsExclusive(Initial(recorded), run);
    WriterEntered(After(false, Initial(recorded), run), a, i);
  }

  lemma {:induction false} WriterEntered(w: World, a: nat, i: nat)
    requires EventsMatch(w) && WritesAreOwned(w.log)
    requires a < i < |w.log| && w.log[a].Entered? && w.log[i] == Wrote(w.log[i].actor, w.log[a].number)
    ensures w.log[i].actor == w.log[a].actor ||
            exists b :: a < b < i && w.log[b] == Entered(w.log[i].actor, w.log[a].number)
  {
    var b := OwnerEntered(w.log[..i], w.log[i].actor);
    assert w.log[..i][b] == w.log[b];
    assert EventMatches(w, w.log[b]) && EventMatches(w, w.log[i]);
    assert w.log[..i][a] == w.log[a];
  }

  /** With or without loss, with any number of starters: writes go only to the writer's own file, signals
      only to processes the sender has found, and a process that is turned away - because it is older
      or because a healthy one is running - has recorded, signalled and written nothing. */
  lemma {:induction false} EffectsAreTheirActors(recorded: Option<nat>, run: seq<Action>, i: nat)
    requires IsRun(false, Initial(recorded), run) && i < |After(false, Initial(recorded), run).log|
    ensures var w := After(false, Initial(recorded), run);
            var e := w.log[i];
            && e.actor in w.procs
            && (e.Wrote? ==> e.file == w.procs[e.actor].seqNum)
            && (e.Saved? ==> e.number == w.procs[e.actor].seqNum)
            && (e.Signalled? ==> e.target in w.procs[e.actor].found && e.target != e.actor)
            && w.procs[e.actor].pc != Gone(Rejected) && w.procs[e.actor].pc != Gone(Idempotent)
  {
    RunIsExclusive(Initial(recorded), run);
    var w := After(false, Initial(recorded), run);
    assert EventMatches(w, w.log[i]);
  }

  /** With one starter at a time, with or without loss: signals are sent only when the recorded number
      is the sender's own, on top of what holds with any number of them. */
  lemma {:induction false} EffectsAreInOrder(recorded: Option<nat>, run: seq<Action>, i: nat)
    requires IsRun(true, Initial(recorded), run) && i < |After(true, Initial(recorded), run).log|
    ensures var w := After(true, Initial(recorded), run);
            var e := w.log[i];
            && e.actor in w.procs
            && (e.Signalled? ==> e.recorded == w.procs[e.actor].seqNum)
            && (e.Wrote? ==> e.file == w.procs[e.actor].seqNum)
            && w.procs[e.actor].pc != Gone(Rejected) && w.procs[e.actor].pc != Gone(Idempotent)
  {
    RunKeepsInv(Initial(recorded), run);
    var w := After(true, Initial(recorded), run);
    assert EventFits(w, w.log[i]);
  }

  /** The number saved last. */
  function LastSaved(log: seq<Event>): Option<nat> {
    if log == [] then None
    else if log[|log| - 1].Saved? then Some(log[|log| - 1].number)
    else LastSaved(log[..|log| - 1])
  }

  lemma {:induction false} LastSavedStep(w: World, a: Action)
    requires Enabled(false, w, a)
    ensures if a.Save? && a.ok then LastSaved(Apply(w, a).log) == Apply(w, a).recorded
            else LastSaved(Apply(w, a).log) == LastSaved(w.log) && Apply(w, a).recorded == w.recorded
  {
    var added := NewEvents(w, a);
    StepShape(w, a);
    if added == [] {
      assert w.log + added == w.log;
    } else if |added| == 1 {
      assert (w.log + added)[..|w.log|] == w.log;
    } else {
      assert (w.log + added)[..|w.log| + 1][..|w.log|] == w.log;
      assert (w.log + added)[..|w.log| + 1] == w.log + [added[0]];
    }
  }

  /** The register holds the number saved last: nothing else changes it, and every save does. */
  lemma {:induction false} RegisterIsLastSaved(w: World, run: seq<Action>)
    requires IsRun(false, w, run) && (LastSaved(w.log).Some? ==> LastSaved(w.log) == w.recorded)
    ensures var v := After(false, w, run);
            if LastSaved(v.log).Some? then v.recorded == LastSaved(v.log) else v.recorded == w.recorded
    ensures LastSaved(w.log).Some? ==> LastSaved(After(false, w, run).log).Some?
    decreases |run|
  {
    if run == [] {
    } else {
      LastSavedStep(w, run[0]);
      RegisterIsLastSaved(Apply(w, run[0]), run[1..]);
    }
  }

  /** With one starter at a time, with or without loss: the numbers recorded never go down, none
      exceeds the register, and no process past enablePre has a number above it. */
  lemma {:induction false} RecordedNumberNeverDecreases(recorded: Option<nat>, run: seq<Action>)
    requires IsRun(true, Initial(recorded), run)
    ensures var w := After(true, Initial(recorded), run);
            && Initial(recorded).Recorded() <= w.Recorded()
            && SavesGrow(w.log)
            && (forall i :: 0 <= i < |w.log| && w.log[i].Saved? ==> w.log[i].number <= w.Recorded())
            && (forall p :: p in w.procs && w.procs[p].pc.Serving() ==> w.procs[p].seqNum <= w.Recorded())
  {
    RunKeepsInv(Initial(recorded), run);
    NoNumberAboveTheRegister(After(true, Initial(recorded), run));
  }

  lemma {:induction false} NoNumberAboveTheRegister(w: World)
    requires Inv(w)
    ensures forall i :: 0 <= i < |w.log| && w.log[i].Saved? ==> w.log[i].number <= w.Recorded()
    ensures forall p :: p in w.procs && w.procs[p].pc.Serving() ==> w.procs[p].seqNum <= w.Recorded()
  {
    forall i | 0 <= i < |w.log| && w.log[i].Saved? ensures w.log[i].number <= w.Recorded() {
      assert EventFits(w, w.log[i]);
    }
    forall p | p in w.procs && w.procs[p].pc.Serving() ensures w.procs[p].seqNum <= w.Recorded() {
      assert Knows(w.Recorded(), w.procs[p]);
    }
  }

  // ---------- convergence: superseded processes leave, whatever was lost ----------

  /** Nothing this process can still do in enablePre records a number other than `recorded`. */
  predicate Calm(recorded: nat, q: Process) {
    match q.pc
    case Begin => q.seqNum <= recorded
    case Discovering | Deciding => q.seqNum <= recorded && q.read == recorded
    case Saving | Killing(_, _) => q.seqNum == recorded
    case _ => true
  }

  /** No newer number is under way. Starters may well be there: the one that recorded the number and
      is still killing, one that takes over with the same number, one that is about to be turned away. */
  predicate Settled(w: World) {
    forall p :: p in w.procs ==> Calm(w.Recorded(), w.procs[p])
  }

  /** The processes that a newer number has superseded and that are still there. */
  function Stale(w: World): set<Pid> {
    set p | p in w.procs && w.procs[p].pc.Serving() && w.procs[p].seqNum < w.Recorded()
  }

  /** The processes past enablePre with a number above the recorded one: none, with one starter at a
      time, but overlapping starters can leave some. */
  function Ahead(w: World): set<Pid> {
    set p | p in w.procs && w.procs[p].pc.Serving() && w.procs[p].seqNum > w.Recorded()
  }

  /** No process starts with a number above `recorded`. */
  predicate NothingNewer(run: seq<Action>, recorded: nat) {
    forall i :: 0 <= i < |run| && run[i].Start? ==> run[i].seqNum <= recorded
  }

  /** With one starter at a time, a world is settled unless the starter brings a newer number. */
  lemma {:induction false} SettledUnlessNewer(w: World)
    requires AllKnow(w)
    ensures Settled(w) <==> forall p :: p in w.procs && w.procs[p].pc.Starting() ==> w.procs[p].seqNum <= w.Recorded()
  {
    forall p | p in w.procs
      ensures Calm(w.Recorded(), w.procs[p]) <==> (w.procs[p].pc.Starting() ==> w.procs[p].seqNum <= w.Recorded())
    {
      assert Knows(w.Recorded(), w.procs[p]);
    }
  }

  /** Without newer numbers the recorded one stays, nobody becomes stale, and a stale process that
      reads the register at the loop head is gone at once, without a write. */
  lemma {:induction false} SettledStep(w: World, a: Action)
    requires Settled(w) && Enabled(false, w, a) && (a.Start? ==> a.seqNum <= w.Recorded())
    ensures Settled(Apply(w, a)) && Apply(w, a).Recorded() == w.Recorded()
    ensures Stale(Apply(w, a)) <= Stale(w) && Ahead(Apply(w, a)) <= Ahead(w)
    ensures a.Head? && a.ok && a.p in Stale(w) ==>
              Stale(Apply(w, a)) == Stale(w) - {a.p} &&
              Apply(w, a).procs[a.p].pc == Gone(Superseded) && Apply(w, a).log == w.log
  {
    StepShape(w, a);
    CalmStep(w, a);
    ServersStep(w, a);
    SettledKept(w, Apply(w, a), Subject(w, a));
  }

  lemma {:induction false} CalmStep(w: World, a: Action)
    requires Settled(w) && Enabled(false, w, a) && (a.Start? ==> a.seqNum <= w.Recorded())
    ensures Apply(w, a).Recorded() == w.Recorded() && Calm(w.Recorded(), Apply(w, a).procs[Subject(w, a)])
  {
    var c := Subject(w, a);
    if c in w.procs { assert Calm(w.Recorded(), w.procs[c]); }
  }

  /** `q` serves only if it holds the recorded number or served before, with the same number. */
  predicate NoNewServer(w: World, c: Pid, q: Process) {
    q.pc.Serving() ==>
      q.seqNum == w.Recorded() || (c in w.procs && w.procs[c].pc.Serving() && w.procs[c].seqNum == q.seqNum)
  }

  lemma {:induction false} ServersStep(w: World, a: Action)
    requires Settled(w) && Enabled(false, w, a)
    ensures NoNewServer(w, Subject(w, a), Apply(w, a).procs[Subject(w, a)])
  {
    var c := Subject(w, a);
    if c in w.procs { assert Calm(w.Recorded(), w.procs[c]); }
  }

  lemma {:induction false} SettledKept(w: World, w': World, c: Pid)
    requires Settled(w) && Framed(w, w', c) && w'.Recorded() == w.Recorded()
    requires Calm(w.Recorded(), w'.procs[c]) && NoNewServer(w, c, w'.procs[c])
    ensures Settled(w') && Stale(w') <= Stale(w) && Ahead(w') <= Ahead(w)
    ensures w'.procs[c].pc.Gone? ==> Stale(w') == Stale(w) - {c}
  {
    forall q | q in w'.procs && q != c ensures Calm(w'.Recorded(), w'.procs[q]) {
      assert Calm(w.Recorded(), w.procs[q]);
    }
  }

  /** The successful looks at the register that stale processes make along a run. */
  function StaleLooks(w: World, run: seq<Action>): nat
    requires IsRun(false, w, run)
    decreases |run|
  {
    if run == [] then 0
    else
      (if run[0].Head? && run[0].ok && run[0].p in Stale(w) then 1 else 0) +
      StaleLooks(Apply(w, run[0]), run[1..])
  }

  /** Along a run without newer numbers, the number of stale processes bounds the successful looks
      they can still make, and each process that makes one is gone. */
  lemma {:induction false} StaleProcessesLeave(w: World, run: seq<Action>)
    requires Settled(w) && IsRun(false, w, run) && NothingNewer(run, w.Recorded())
    ensures var w' := After(false, w, run);
            && Settled(w') && w'.Recorded() == w.Recorded()
            && Stale(w') <= Stale(w) && Ahead(w') <= Ahead(w)
            && |Stale(w')| + StaleLooks(w, run) <= |Stale(w)|
            && (forall p :: p in Stale(w') ==> Head(p, true) !in run)
    decreases |run|
  {
    if run == [] {
    } else {
      var v := Apply(w, run[0]);
      SettledStep(w, run[0]);
      StaleProcessesLeave(v, run[1..]);
      Cardinality(Stale(v), Stale(w));
      assert run == [run[0]] + run[1..];
    }
  }

  lemma {:induction false} Cardinality(a: set<Pid>, b: set<Pid>)
    requires a <= b
    ensures |a| <= |b|
  {
    assert b == a + (b - a);
  }

  /** The process has not decided yet whether to go on. */
  predicate Undecided(pc: Pc) {
    pc.Begin? || pc.Discovering? || pc.Deciding?
  }

  /** In the end: once a number is recorded and no newer one is under way or arrives, every live
      process holds the recorded number, apart from stale ones that have never had a successful look
      since, and from starters that have not decided yet. */
  lemma {:induction false} OnlyTheRecordedNumberRemains(recorded: Option<nat>, past: seq<Action>, run: seq<Action>)
    requires IsRun(true, Initial(recorded), past)
    requires var w := After(true, Initial(recorded), past);
             && (forall p :: p in w.procs && w.procs[p].pc.Starting() ==> w.procs[p].seqNum <= w.Recorded())
             && IsRun(false, w, run) && NothingNewer(run, w.Recorded())
    ensures var w := After(true, Initial(recorded), past);
            var w' := After(false, w, run);
            && w'.Recorded() == w.Recorded()
            && forall p :: p in w'.procs && w'.Live(p) ==>
                 || w'.procs[p].seqNum == w'.Recorded()
                 || Undecided(w'.procs[p].pc)
                 || (p in Stale(w) && Head(p, true) !in run)
  {
    var w := After(true, Initial(recorded), past);
    RunKeepsInv(Initial(recorded), past);
    SettledUnlessNewer(w);
    NoNumberAboveTheRegister(w);
    StaleProcessesLeave(w, run);
    LiveInSettled(After(false, w, run));
  }

  lemma {:induction false} LiveInSettled(w: World)
    requires Settled(w) && Ahead(w) == {}
    ensures forall p :: p in w.procs && w.Live(p) ==>
              w.procs[p].seqNum == w.Recorded() || Undecided(w.procs[p].pc) || p in Stale(w)
  {
    forall p | p in w.procs && w.Live(p)
      ensures w.procs[p].seqNum == w.Recorded() || Undecided(w.procs[p].pc) || p in Stale(w)
    {
      assert Calm(w.Recorded(), w.procs[p]) && p !in Ahead(w);
    }
  }
}
