/** Mutual exclusion in the takeover protocol, with any number of starters at a time. */
module TakeoverExclusion {
  import opened Settings
  import opened Takeover
  import opened TakeoverSafety

  lemma {:induction false} TakeOverStep(w: World, a: Action)
    requires Enabled(false, w, a) && AllTakeOver(w)
    ensures AllTakeOver(Apply(w, a))
  {
    var w', c := Apply(w, a), Subject(w, a);
    StepShape(w, a);
    TakeOverLocal(w, a);
    forall p | p in w'.procs ensures TakesOver(w'.procs[p]) {
      if p != c { assert TakesOver(w.procs[p]); }
    }
  }

  lemma {:induction false} TakeOverLocal(w: World, a: Action)
    requires Enabled(false, w, a) && AllTakeOver(w)
    ensures TakesOver(Apply(w, a).procs[Subject(w, a)])
  {
    var c := Subject(w, a);
    if c in w.procs { assert TakesOver(w.procs[c]); }
  }

  // ---------- of two processes, one has yet to see the other gone ----------

  /** Whoever is live, and was pending or has only just been discovered, is pending afterwards. */
  predicate KeepsPending(w: World, c: Pid, q: Process) {
    forall o :: o in w.procs && o != c && w.Live(o) && WasPending(w, c, o) ==> o in Pending(q)
  }

  predicate WasPending(w: World, c: Pid, o: Pid) {
    c in w.procs && Discovered(w.procs[c].pc) ==> o in Pending(w.procs[c])
  }

  lemma {:induction false} PendingIsKept(w: World, a: Action)
    requires Enabled(false, w, a) && AllTakeOver(w) && !Apply(w, a).lossy
    requires Discovered(Apply(w, a).procs[Subject(w, a)].pc)
    ensures KeepsPending(w, Subject(w, a), Apply(w, a).procs[Subject(w, a)])
  {
    var c := Subject(w, a);
    assert TakesOver(w.procs[c]);
  }

  lemma {:induction false} PairsKept(w: World, w': World, c: Pid)
    requires Paired(w) && Framed(w, w', c)
    requires Discovered(w'.procs[c].pc) ==> KeepsPending(w, c, w'.procs[c])
    ensures Paired(w')
  {
  }

  lemma {:induction false} PairedStep(w: World, a: Action)
    requires Enabled(false, w, a) && AllTakeOver(w) && Paired(w) && !Apply(w, a).lossy
    ensures Paired(Apply(w, a))
  {
    StepShape(w, a);
    if Discovered(Apply(w, a).procs[Subject(w, a)].pc) { PendingIsKept(w, a); }
    PairsKept(w, Apply(w, a), Subject(w, a));
  }

  // ---------- the last to enter owns the status ----------

  lemma {:induction false} OwnerOfExtended(log: seq<Event>, added: seq<Event>)
    requires forall i :: 0 <= i < |added| ==> !added[i].Entered?
    ensures Owner(log + added) == Owner(log)
  {
    if added == [] {
      assert log + added == log;
    } else {
      var m := added[..|added| - 1];
      assert (log + added)[..|log + added| - 1] == log + m;
      OwnerOfExtended(log, m);
    }
  }

  predicate NoOtherServes(w: World, c: Pid) {
    forall o :: o in w.procs && o != c ==> !w.procs[o].pc.Serving()
  }

  /** Whoever enters has nobody left to see gone. */
  lemma {:induction false} EnteringHasNothingPending(w: World, a: Action, n: nat)
    requires Enabled(false, w, a) && Entered(Subject(w, a), n) in NewEvents(w, a)
    ensures Subject(w, a) in w.procs && Discovered(w.procs[Subject(w, a)].pc)
    ensures Pending(w.procs[Subject(w, a)]) == []
    ensures Owner(Apply(w, a).log) == Some(Subject(w, a))
  {
    StepShape(w, a);
  }

  /** Without loss a process enters only when no other is past enablePre, whoever else is starting. */
  lemma {:induction false} EnteringFindsNoServer(w: World, a: Action, n: nat)
    requires Enabled(false, w, a) && Paired(w) && Entered(Subject(w, a), n) in NewEvents(w, a)
    ensures NoOtherServes(w, Subject(w, a)) && Owner(Apply(w, a).log) == Some(Subject(w, a))
  {
    var c := Subject(w, a);
    EnteringHasNothingPending(w, a, n);
    forall o | o in w.procs && o != c ensures !w.procs[o].pc.Serving() {
      assert w.procs[o].pc.Serving() ==> Pending(w.procs[o]) == [];
    }
  }

  lemma {:induction false} OwnersKept(w: World, w': World, c: Pid)
    requires Framed(w, w', c) && ServersOwn(w) && Owner(w'.log) == Owner(w.log)
    requires w'.procs[c].pc.Serving() ==> c in w.procs && w.procs[c].pc.Serving()
    ensures ServersOwn(w')
  {
  }

  lemma {:induction false} NewOwner(w: World, w': World, c: Pid)
    requires Framed(w, w', c) && NoOtherServes(w, c) && Owner(w'.log) == Some(c)
    ensures ServersOwn(w')
  {
  }

  lemma {:induction false} OwnerStep(w: World, a: Action)
    requires Enabled(false, w, a) && Paired(w) && ServersOwn(w)
    ensures ServersOwn(Apply(w, a))
  {
    var c, added := Subject(w, a), NewEvents(w, a);
    StepShape(w, a);
    if e :| e in added && e.Entered? {
      EnteringFindsNoServer(w, a, e.number);
      NewOwner(w, Apply(w, a), c);
    } else {
      OwnerOfExtended(w.log, added);
      if !a.Start? { StepLocal(w, a); }
      OwnersKept(w, Apply(w, a), c);
    }
  }

  lemma {:induction false} WritesStep(w: World, a: Action)
    requires Enabled(false, w, a) && ServersOwn(w) && WritesAreOwned(w.log)
    ensures WritesAreOwned(Apply(w, a).log)
  {
    var log', added := Apply(w, a).log, NewEvents(w, a);
    StepShape(w, a);
    forall i | 0 <= i < |log'| && log'[i].Wrote? ensures Owner(log'[..i]) == Some(log'[i].actor) {
      if i < |w.log| {
        assert log'[..i] == w.log[..i];
      } else {
        assert log'[i] == added[i - |w.log|];
        assert log'[..i] == w.log;
      }
    }
  }

  lemma {:induction false} ExclusiveStep(w: World, a: Action)
    requires Exclusive(w) && Enabled(false, w, a)
    ensures Exclusive(Apply(w, a))
  {
    TakeOverStep(w, a);
    KillFoundStep(w, a);
    EventsStep(w, a);
    StepShape(w, a);
    if !Apply(w, a).lossy {
      PairedStep(w, a);
      OwnerStep(w, a);
      WritesStep(w, a);
    }
  }
}
