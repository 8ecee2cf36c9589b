/** Why the recorded number needs one starter at a time. */
module TakeoverOverlap {
  import opened Settings
  import opened Takeover
  import opened TakeoverPaths

  /** A world that differs from `w` only in that `p` is there, and in what may have been lost. */
  predicate Added(w: World, p: Pid, q: Process, v: World) {
    v.recorded == w.recorded && v.log == w.log && v.procs == w.procs[p := q]
  }

  lemma {:induction false} AddedStep(w: World, p: Pid, q: Process, v: World, a: Action) returns (u: World)
    requires Added(w, p, q, v) && a.p == p && Enabled(false, v, a)
    requires a.ReadNumber? || a.Discover? || a.Resolve?
    ensures Leads(false, v, [a], u) && Added(w, p, Moved(q, w.Recorded(), a), u)
    ensures u.lossy == (v.lossy || Loses(v, a))
  {
    u := Apply(v, a);
    OneStep(false, v, a);
    assert Events(q, p, w.Recorded(), a) == [];
  }

  lemma {:induction false} StartStep(w: World, p: Pid, n: nat) returns (u: World)
    requires p !in w.procs
    ensures Leads(false, w, [Start(p, n)], u) && Added(w, p, Process(n, Begin, 0, [], false), u) && u.lossy == w.lossy
  {
    u := Apply(w, Start(p, n));
    OneStep(false, w, Start(p, n));
  }

  /** The discovery of `p` lists every live process, before `p` itself is there. */
  predicate Covers(w: World, found: seq<Pid>) {
    forall o :: o in w.procs && w.Live(o) ==> o in found
  }

  /** A number that leads to saving it, whatever the log says. */
  predicate WillSave(w: World, n: nat, found: seq<Pid>) {
    w.Recorded() <= n && (found != [] ==> w.Recorded() < n)
  }

  /** A starter with a number that is not too small comes as far as saving it, and loses nothing if its
      discovery is complete. */
  lemma {:induction false} ReachSaving(w: World, p: Pid, n: nat, found: seq<Pid>) returns (run: seq<Action>, v: World)
    requires p !in w.procs && p !in found && WillSave(w, n, found)
    ensures Leads(false, w, run, v) && Added(w, p, Process(n, Saving, w.Recorded(), found, false), v)
    ensures !w.lossy && Covers(w, found) ==> !v.lossy
  {
    var u := StartStep(w, p, n);
    var t := AddedStep(w, p, Process(n, Begin, 0, [], false), u, ReadNumber(p, true));
    var rest;
    rest, v := ReachDecision(w, p, n, found, t);
    RunAppend(false, u, [ReadNumber(p, true)], t, rest, v);
    RunAppend(false, w, [Start(p, n)], u, [ReadNumber(p, true)] + rest, v);
    run := [Start(p, n)] + ([ReadNumber(p, true)] + rest);
  }

  lemma {:induction false} ReachDecision(w: World, p: Pid, n: nat, found: seq<Pid>, t: World)
    returns (run: seq<Action>, v: World)
    requires p !in w.procs && p !in found && WillSave(w, n, found)
    requires Added(w, p, Process(n, Discovering, w.Recorded(), [], false), t)
    ensures Leads(false, t, run, v) && Added(w, p, Process(n, Saving, w.Recorded(), found, false), v)
    ensures !t.lossy && Covers(w, found) ==> !v.lossy
  {
    var a, b := Discover(p, Some(found)), Resolve(p, LogStale);
    var u := AddedStep(w, p, t.procs[p], t, a);
    v := AddedStep(w, p, u.procs[p], u, b);
    RunAppend(false, t, [a], u, [b], v);
    run := [a] + [b];
  }

  /** What saving adds to the log: a process that has found nobody enters at once. */
  function SaveEvents(p: Pid, n: nat, found: seq<Pid>): seq<Event> {
    if found == [] then [Saved(p, n), Entered(p, n)] else [Saved(p, n)]
  }

  predicate AboutToSave(q: Process) {
    q.pc == Saving && (q.found != [] ==> q.seqNum > q.read)
  }

  /** Two processes about to save: the larger number, then the smaller one. */
  lemma {:induction false} SaveBoth(w: World, p: Pid, q: Pid) returns (run: seq<Action>, v: World)
    requires p != q && p in w.procs && q in w.procs && AboutToSave(w.procs[p]) && AboutToSave(w.procs[q])
    ensures Leads(false, w, run, v) && v.recorded == Some(w.procs[p].seqNum) && v.lossy == w.lossy
    ensures v.log == w.log + SaveEvents(q, w.procs[q].seqNum, w.procs[q].found)
                           + SaveEvents(p, w.procs[p].seqNum, w.procs[p].found)
  {
    var a, b := Save(q, true), Save(p, true);
    var u := Apply(w, a);
    v := Apply(u, b);
    OneStep(false, u, b);
    LeadsOn(false, w, a, [b], v);
    run := [a] + [b];
  }

  /** Two starters that overlap between the read and the write of the register can lower it, from
      every world and with all numbers that are not too small to begin with. Loss has no part in it:
      if the discoveries are complete, nothing is lost. */
  lemma {:induction false} OverlappingStartersLowerTheRecord(w: World, p: Pid, q: Pid, n: nat, m: nat,
                                                             foundP: seq<Pid>, foundQ: seq<Pid>)
    returns (run: seq<Action>, v: World)
    requires p != q && p !in w.procs && q !in w.procs && p !in foundP && q !in foundQ
    requires WillSave(w, n, foundP) && n < m
    ensures Leads(false, w, run, v) && v.recorded == Some(n)
    ensures v.log == w.log + SaveEvents(q, m, foundQ) + SaveEvents(p, n, foundP)
    ensures !SavesGrow(v.log)
    ensures !w.lossy && Covers(w, foundP) && Covers(w, foundQ) && p in foundQ ==> !v.lossy
  {
    var r1, w1 := ReachSaving(w, p, n, foundP);
    var r2, w2 := ReachSaving(w1, q, m, foundQ);
    var r3;
    r3, v := SaveBoth(w2, p, q);
    RunAppend(false, w1, r2, w2, r3, v);
    RunAppend(false, w, r1, w1, r2 + r3, v);
    run := r1 + (r2 + r3);
    SavesGoDown(w.log, p, q, n, m, foundP, foundQ);
  }

  lemma {:induction false} SavesGoDown(log: seq<Event>, p: Pid, q: Pid, n: nat, m: nat,
                                       foundP: seq<Pid>, foundQ: seq<Pid>)
    requires n < m
    ensures !SavesGrow(log + SaveEvents(q, m, foundQ) + SaveEvents(p, n, foundP))
  {
    var all := log + SaveEvents(q, m, foundQ) + SaveEvents(p, n, foundP);
    var i, j := |log|, |log| + |SaveEvents(q, m, foundQ)|;
    assert all[i] == Saved(q, m) && all[j] == Saved(p, n);
  }
}
