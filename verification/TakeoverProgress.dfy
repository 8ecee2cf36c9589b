/** A starter is never stuck: from every world a new process can run enablePre to its end, whatever it
    finds, and ends as enablePre by itself does, with the processes it takes over from gone. */
module TakeoverProgress {
  import opened Settings
  import opened Takeover
  import opened TakeoverSafety
  import opened TakeoverPaths
  import opened TakeoverOverlap
  import Pre = EnablePre

  /** From `w` to `v`, process `p` became `q` and killed `pids`; nothing else happened to anybody. */
  predicate Killed(w: World, v: World, p: Pid, q: Process, pids: seq<Pid>) {
    && v.procs.Keys == w.procs.Keys && p in w.procs && v.procs[p] == q
    && (forall o :: o in w.procs && o != p ==>
          v.procs[o] == if o in pids && w.Live(o) then w.procs[o].(pc := Gone(Takeover.Killed), shutdown := true)
                        else w.procs[o])
    && v.recorded == w.recorded && v.lossy == w.lossy
  }

  lemma {:induction false} KilledBoth(w: World, u: World, v: World, p: Pid, q: Process, q': Process, a: Pid,
                                      b: seq<Pid>)
    requires Killed(w, u, p, q, [a]) && Killed(u, v, p, q', b)
    ensures Killed(w, v, p, q', [a] + b)
  {
  }

  /** SIGTERM, and then SIGKILL. */
  lemma {:induction false} TermAndKill(w: World, p: Pid, t: Pid) returns (run: seq<Action>, v: World)
    requires p in w.procs && w.procs[p].pc.Killing? && w.procs[p].pc.remaining != []
    requires t == w.procs[p].pc.remaining[0] && t != p && w.Live(t)
    ensures Leads(false, w, run, v) && Killed(w, v, p, w.procs[p], [t])
  {
    var term, kill := Signal(p, false), Signal(p, true);
    var u := Apply(w, term);
    v := Apply(u, kill);
    OneStep(false, u, kill);
    LeadsOn(false, w, term, [kill], v);
    run := [term] + [kill];
  }

  /** The next one, once the first is gone. */
  lemma {:induction false} OnToTheNext(w: World, p: Pid) returns (v: World)
    requires p in w.procs && w.procs[p].pc.Killing? && w.procs[p].pc.remaining != []
    requires !w.Live(w.procs[p].pc.remaining[0])
    ensures Leads(false, w, [KillReturns(p)], v)
    ensures var q := w.procs[p]; Killed(w, v, p, q.(pc := Killing(q.pc.remaining[1..], q.pc.thenSave)), [])
  {
    v := Apply(w, KillReturns(p));
    OneStep(false, w, KillReturns(p));
  }

  /** The first of those that remain is killed, if it is still there, and on to the next. */
  lemma {:induction false} KillFirst(w: World, p: Pid) returns (run: seq<Action>, v: World)
    requires p in w.procs && w.procs[p].pc.Killing? && w.procs[p].pc.remaining != [] && w.procs[p].pc.remaining[0] != p
    ensures Leads(false, w, run, v)
    ensures var q := w.procs[p];
            Killed(w, v, p, q.(pc := Killing(q.pc.remaining[1..], q.pc.thenSave)), [q.pc.remaining[0]])
  {
    var t := w.procs[p].pc.remaining[0];
    if w.Live(t) {
      var kills, u := TermAndKill(w, p, t);
      v := OnToTheNext(u, p);
      RunAppend(false, w, kills, u, [KillReturns(p)], v);
      run := kills + [KillReturns(p)];
    } else {
      v := OnToTheNext(w, p);
      run := [KillReturns(p)];
    }
  }

  /** All the kills can be carried out, one after the other. */
  lemma {:induction false} KillAllOfThem(w: World, p: Pid) returns (run: seq<Action>, v: World)
    requires p in w.procs && w.procs[p].pc.Killing? && p !in w.procs[p].pc.remaining
    ensures Leads(false, w, run, v)
    ensures Killed(w, v, p, w.procs[p].(pc := Killing([], w.procs[p].pc.thenSave)), w.procs[p].pc.remaining)
    decreases |w.procs[p].pc.remaining|
  {
    var rem := w.procs[p].pc.remaining;
    if rem == [] {
      run, v := [], w;
    } else {
      var first, u := KillFirst(w, p);
      var rest;
      rest, v := KillAllOfThem(u, p);
      RunAppend(false, w, first, u, rest, v);
      KilledBoth(w, u, v, p, u.procs[p], v.procs[p], rem[0], rem[1..]);
      assert [rem[0]] + rem[1..] == rem;
      run := first + rest;
    }
  }

  /** The kills, and the step after the last of them. */
  lemma {:induction false} KillsAndOn(w: World, p: Pid) returns (run: seq<Action>, v: World)
    requires p in w.procs && w.procs[p].pc.Killing? && p !in w.procs[p].pc.remaining
    ensures Leads(false, w, run, v)
    ensures var q := w.procs[p];
            Killed(w, v, p, q.(pc := if q.pc.thenSave then Saving else Admitted), q.pc.remaining)
  {
    var kills, u := KillAllOfThem(w, p);
    v := Apply(u, KillsDone(p));
    StepShape(u, KillsDone(p));
    OneStep(false, u, KillsDone(p));
    RunAppend(false, w, kills, u, [KillsDone(p)], v);
    run := kills + [KillsDone(p)];
  }

  /** From `w` to `v`, the new process `p` became `q` and killed `pids`; nothing else happened to anybody. */
  predicate Arrived(w: World, v: World, p: Pid, q: Process, pids: seq<Pid>) {
    && p !in w.procs && v.procs.Keys == w.procs.Keys + {p} && v.procs[p] == q
    && (forall o :: o in w.procs ==>
          v.procs[o] == if o in pids && w.Live(o) then w.procs[o].(pc := Gone(Takeover.Killed), shutdown := true)
                        else w.procs[o])
  }

  lemma {:induction false} ArrivedAndKilled(w: World, u: World, v: World, p: Pid, q: Process, q': Process,
                                            pids: seq<Pid>)
    requires Arrived(w, u, p, q, []) && Killed(u, v, p, q', pids)
    ensures Arrived(w, v, p, q', pids)
  {
  }

  /** A step of `p` that is no signal. */
  lemma {:induction false} ArrivedOn(w: World, u: World, p: Pid, q: Process, pids: seq<Pid>, a: Action)
    requires Arrived(w, u, p, q, pids) && Enabled(false, u, a) && a.p == p && !a.Signal?
    ensures Leads(false, u, [a], Apply(u, a))
    ensures Arrived(w, Apply(u, a), p, Moved(q, u.Recorded(), a), pids)
  {
    OneStep(false, u, a);
    StepShape(u, a);
  }

  /** A new process reads the register. */
  lemma {:induction false} StartsAndReads(w: World, p: Pid, n: nat) returns (run: seq<Action>, v: World)
    requires p !in w.procs
    ensures Leads(false, w, run, v) && Added(w, p, Process(n, Discovering, w.Recorded(), [], false), v)
    ensures v.lossy == w.lossy
  {
    var t := StartStep(w, p, n);
    v := AddedStep(w, p, Process(n, Begin, 0, [], false), t, ReadNumber(p, true));
    RunAppend(false, w, [Start(p, n)], t, [ReadNumber(p, true)], v);
    run := [Start(p, n)] + [ReadNumber(p, true)];
  }

  /** It discovers whom it can, and decides. */
  lemma {:induction false} DiscoversAndDecides(w: World, u: World, p: Pid, n: nat, discovered: Option<seq<Pid>>,
                                               found: seq<Pid>, log: LogAge)
    returns (run: seq<Action>, v: World)
    requires p !in w.procs && p !in found && found == (if discovered.Some? then discovered.value else [])
    requires Added(w, p, Process(n, Discovering, w.Recorded(), [], false), u)
    ensures Leads(false, u, run, v)
    ensures Added(w, p, Moved(Process(n, Deciding, w.Recorded(), found, false), w.Recorded(), Resolve(p, log)), v)
    ensures v.lossy <==> u.lossy || !Covers(w, found)
  {
    var a, b := Discover(p, discovered), Resolve(p, log);
    var x := AddedStep(w, p, u.procs[p], u, a);
    v := AddedStep(w, p, x.procs[p], x, b);
    CompleteIsCovers(w, u, p, u.procs[p], found);
    RunAppend(false, u, [a], x, [b], v);
    run := [a] + [b];
  }

  /** A new process comes as far as its decision. */
  lemma {:induction false} Decides(w: World, p: Pid, n: nat, discovered: Option<seq<Pid>>, found: seq<Pid>, log: LogAge)
    returns (run: seq<Action>, v: World)
    requires p !in w.procs && p !in found && found == if discovered.Some? then discovered.value else []
    ensures Leads(false, w, run, v) && v.recorded == w.recorded
    ensures Arrived(w, v, p, Moved(Process(n, Deciding, w.Recorded(), found, false), w.Recorded(), Resolve(p, log)), [])
    ensures v.lossy <==> w.lossy || !Covers(w, found)
  {
    var first, u := StartsAndReads(w, p, n);
    var rest;
    rest, v := DiscoversAndDecides(w, u, p, n, discovered, found, log);
    RunAppend(false, w, first, u, rest, v);
    run := first + rest;
  }

  lemma {:induction false} CompleteIsCovers(w: World, u: World, p: Pid, q: Process, found: seq<Pid>)
    requires p !in w.procs && Added(w, p, q, u)
    ensures Complete(u, p, found) <==> Covers(w, found)
  {
    forall o | o in w.procs ensures o in u.procs && o != p && (w.Live(o) <==> u.Live(o)) {
    }
    if Complete(u, p, found) {
      forall o | o in w.procs && w.Live(o) ensures o in found {
        assert u.Live(o);
      }
    }
  }

  /** The register after `p` has ended in `pc`. */
  predicate RecordedBy(w: World, v: World, n: nat, pc: Pc) {
    v.recorded == if pc == Admitted then Some(n) else w.recorded
  }

  /** From the point where it saves its number. */
  lemma {:induction false} SavesAndKills(w: World, u: World, p: Pid, q: Process, before: seq<Pid>, saveOk: bool)
    returns (run: seq<Action>, v: World, pids: seq<Pid>)
    requires Arrived(w, u, p, q, before) && q.pc == Saving && p !in q.found && u.recorded == w.recorded
    requires q.seqNum > q.read ==> before == []
    ensures var course := Pre.SaveCourse(q, p, saveOk);
            && Leads(false, u, run, v) && v.lossy == u.lossy
            && Arrived(w, v, p, q.(pc := course.0), pids) && RecordedBy(w, v, q.seqNum, course.0)
            && pids == (if saveOk && q.seqNum > q.read then q.found else before)
  {
    var a := Save(p, saveOk);
    var t := Apply(u, a);
    ArrivedOn(w, u, p, q, before, a);
    if t.procs[p].pc.Killing? {
      var kills;
      kills, v := KillsAndOn(t, p);
      ArrivedAndKilled(w, t, v, p, t.procs[p], v.procs[p], q.found);
      RunAppend(false, u, [a], t, kills, v);
      run, pids := [a] + kills, q.found;
    } else {
      run, v, pids := [a], t, before;
      if saveOk && q.seqNum > q.read { pids := q.found; }
    }
  }

  /** Whom the course of enablePre kills. */
  function KilledBy(effects: seq<Pre.Effect>): seq<Pid> {
    if effects == [] then []
    else if effects[0].KillAll? then effects[0].pids + KilledBy(effects[1..]) else KilledBy(effects[1..])
  }

  lemma {:induction false} KilledByAll(found: seq<Pid>, n: nat)
    ensures KilledBy([]) == [] && KilledBy([Pre.Record(n)]) == []
    ensures KilledBy([Pre.KillAll(found, n)]) == found
    ensures KilledBy([Pre.Record(n), Pre.KillAll(found, n)]) == found
    ensures KilledBy([Pre.KillAll(found, n), Pre.Record(n)]) == found
  {
    assert [Pre.Record(n), Pre.KillAll(found, n)][1..] == [Pre.KillAll(found, n)];
    assert [Pre.KillAll(found, n), Pre.Record(n)][1..] == [Pre.Record(n)];
    assert [Pre.KillAll(found, n)][1..] == [] && [Pre.Record(n)][1..] == [];
  }

  /** Where a decision leads, and whom it kills on the way. */
  lemma {:induction false} CourseOf(n: nat, read: nat, found: seq<Pid>, p: Pid, log: LogAge, saveOk: bool)
    ensures var q := Process(n, Deciding, read, found, false);
            var q' := Moved(q, read, Resolve(p, log));
            var (pc, effects) := Pre.Course(Pre.Decider(n, read, Some(found)), p, log, saveOk);
            match q'.pc
            case Saving => pc == Pre.SaveCourse(q', p, saveOk).0 &&
                           KilledBy(effects) == (if saveOk && n > read then found else [])
            case Killing(_, _) => pc == Pre.SaveCourse(q.(pc := Saving), p, saveOk).0 && KilledBy(effects) == found &&
                                  n == read && q' == q.(pc := Killing(found, true))
            case _ => pc == q'.pc && KilledBy(effects) == [] && pc.Gone?
  {
    Pre.CourseEnds(n, read, found, p, log, saveOk);
    Pre.CourseEffects(n, read, found, p, log, saveOk);
    KilledByAll(found, n);
  }

  /** It kills those it found, and then goes on to save. */
  lemma {:induction false} KillsAndSaves(w: World, u: World, p: Pid, q: Process, saveOk: bool)
    returns (run: seq<Action>, v: World)
    requires Arrived(w, u, p, q.(pc := Killing(q.found, true)), []) && q.seqNum == q.read && p !in q.found
    requires u.recorded == w.recorded
    ensures var pc := Pre.SaveCourse(q.(pc := Saving), p, saveOk).0;
            && Leads(false, u, run, v) && v.lossy == u.lossy
            && Arrived(w, v, p, q.(pc := pc), q.found) && RecordedBy(w, v, q.seqNum, pc)
  {
    var kills, t := KillsAndOn(u, p);
    ArrivedAndKilled(w, u, t, p, u.procs[p], t.procs[p], q.found);
    var rest, pids;
    rest, v, pids := SavesAndKills(w, t, p, t.procs[p], q.found, saveOk);
    RunAppend(false, u, kills, t, rest, v);
    run := kills + rest;
  }

  /** A new process that cannot read the register is gone and has done nothing. */
  lemma {:induction false} UnreadableRegister(w: World, p: Pid, n: nat) returns (run: seq<Action>, v: World)
    requires p !in w.procs
    ensures Leads(false, w, run, v)
    ensures Added(w, p, Process(n, Gone(ReadFailed), 0, [], false), v) && v.lossy == w.lossy
  {
    var t := StartStep(w, p, n);
    v := AddedStep(w, p, Process(n, Begin, 0, [], false), t, ReadNumber(p, false));
    RunAppend(false, w, [Start(p, n)], t, [ReadNumber(p, false)], v);
    run := [Start(p, n)] + [ReadNumber(p, false)];
  }

  /** From every world, a new process with any number, any discovery, failed or not, and any log can run
      enablePre to its end: it ends where enablePre by itself ends, its number is recorded exactly if it
      passes, the processes it kills are gone, the others are as they were, and something is lost
      exactly if the discovery missed a live process. */
  lemma {:induction false} StarterCanFinish(w: World, p: Pid, n: nat, discovered: Option<seq<Pid>>, log: LogAge,
                                            saveOk: bool)
    returns (run: seq<Action>, v: World)
    requires p !in w.procs && (discovered.Some? ==> p !in discovered.value)
    ensures var (pc, effects) := Pre.Course(Pre.Decider(n, w.Recorded(), discovered), p, log, saveOk);
            var found := if discovered.Some? then discovered.value else [];
            && Leads(false, w, run, v)
            && Arrived(w, v, p, Process(n, pc, w.Recorded(), found, false), KilledBy(effects))
            && RecordedBy(w, v, n, pc)
            && (v.lossy <==> w.lossy || !Covers(w, found))
  {
    var found := if discovered.Some? then discovered.value else [];
    CourseOf(n, w.Recorded(), found, p, log, saveOk);
    var first, u := Decides(w, p, n, discovered, found, log);
    var q', rest := u.procs[p], [];
    if q'.pc == Saving {
      var pids;
      rest, v, pids := SavesAndKills(w, u, p, q', [], saveOk);
    } else if q'.pc.Killing? {
      rest, v := KillsAndSaves(w, u, p, Process(n, Deciding, w.Recorded(), found, false), saveOk);
    } else {
      v := u;
    }
    RunAppend(false, w, first, u, rest, v);
    run := first + rest;
  }
}
