/** Safety of the takeover protocol over every run with one starter at a time. */
module TakeoverSafety {
  import opened Settings
  import opened Takeover

  // ---------- the shape of a step ----------

  predicate Framed(w: World, w': World, c: Pid) {
    && c in w'.procs
    && (forall q :: q in w'.procs && q != c ==> q in w.procs && w'.procs[q] == w.procs[q])
    && (forall q :: q in w.procs ==> q in w'.procs)
  }

  function NewEvents(w: World, a: Action): seq<Event>
    requires Enabled(false, w, a)
  {
    Events(ProcessAt(w, a.p), Subject(w, a), w.Recorded(), a)
  }

  /** An action changes one process, adds to the log, and never forgets a loss. */
  lemma {:induction false} StepShape(w: World, a: Action)
    requires Enabled(false, w, a)
    ensures Framed(w, Apply(w, a), Subject(w, a))
    ensures Apply(w, a).procs[Subject(w, a)] == Moved(ProcessAt(w, Subject(w, a)), w.Recorded(), a)
    ensures Apply(w, a).log == w.log + NewEvents(w, a)
    ensures w.lossy ==> Apply(w, a).lossy
    ensures a.Start? <==> Subject(w, a) !in w.procs
  {
  }

  /** A process never changes its number, never comes back, and never starts over. */
  lemma {:induction false} StepLocal(w: World, a: Action)
    requires Enabled(false, w, a) && !a.Start?
    ensures var q := w.procs[Subject(w, a)];
            var q' := Moved(q, w.Recorded(), a);
            && q'.seqNum == q.seqNum
            && (q'.pc.Starting() ==> q.pc.Starting())
            && (q.pc.Gone? ==> q'.pc.Gone?)
            && (Untouched(q'.pc) ==> Untouched(q.pc))
            && (!Untouched(q.pc) ==> q'.found == q.found)
            && (q'.pc.Serving() ==> q.pc.Serving() || Entered(Subject(w, a), q.seqNum) in NewEvents(w, a))
  {
  }

  /** A process past enablePre leaves only because a newer number is recorded, because it was asked
      to stop or has bad settings, or because it is killed or crashes. */
  lemma {:induction false} ServersLeaveForAReason(w: World, a: Action, p: Pid)
    requires Enabled(false, w, a) && p in w.procs && w.procs[p].pc.Serving()
    ensures var q, q' := w.procs[p], Apply(w, a).procs[p];
            && (q'.pc.Serving() ||
                (a == Head(p, true) && q.seqNum < w.Recorded() && q'.pc == Gone(Superseded)) ||
                (q.pc.Terminating? && a == ReportError(p)) || a == Crash(p) ||
                (a.Signal? && a.kill && Subject(w, a) == p))
            && (q'.pc.Terminating? && !q.pc.Terminating? ==> q.shutdown || a == ReportTransitioning(p, false))
            && (q'.shutdown && !q.shutdown ==> a == ExternalTerm(p) || (a.Signal? && Subject(w, a) == p))
  {
    StepShape(w, a);
  }

  // ---------- one starter, and the register ----------

  lemma {:induction false} StarterStep(w: World, a: Action)
    requires Enabled(true, w, a) && OneStarter(w)
    ensures OneStarter(Apply(w, a))
  {
    StepShape(w, a);
    if !a.Start? { StepLocal(w, a); }
    StartersKept(w, Apply(w, a), Subject(w, a));
  }

  lemma {:induction false} StartersKept(w: World, w': World, c: Pid)
    requires Framed(w, w', c) && OneStarter(w)
    requires w'.procs[c].pc.Starting() ==>
               if c in w.procs then w.procs[c].pc.Starting()
               else forall q :: q in w.procs ==> !w.procs[q].pc.Starting()
    ensures OneStarter(w')
  {
  }

  lemma {:induction false} KnowledgeStep(w: World, a: Action)
    requires Enabled(true, w, a) && OneStarter(w) && AllKnow(w)
    ensures AllKnow(Apply(w, a)) && w.Recorded() <= Apply(w, a).Recorded()
  {
    StepShape(w, a);
    KnowledgeLocal(w, a);
    var w', c := Apply(w, a), Subject(w, a);
    forall q | q in w'.procs ensures Knows(w'.Recorded(), w'.procs[q]) {
      if q != c { assert Knows(w.Recorded(), w.procs[q]); }
    }
  }

  lemma {:induction false} KnowledgeLocal(w: World, a: Action)
    requires Enabled(true, w, a) && AllKnow(w)
    ensures Knows(Apply(w, a).Recorded(), Apply(w, a).procs[Subject(w, a)])
    ensures w.Recorded() <= Apply(w, a).Recorded()
    ensures w.Recorded() != Apply(w, a).Recorded() ==> w.At(Subject(w, a), Saving)
  {
    if !a.Start? { assert Knows(w.Recorded(), w.procs[Subject(w, a)]); }
  }

  // ---------- the log ----------

  lemma {:induction false} KillFoundStep(w: World, a: Action)
    requires Enabled(false, w, a) && AllKillFound(w)
    ensures AllKillFound(Apply(w, a))
  {
    var w', c := Apply(w, a), Subject(w, a);
    StepShape(w, a);
    if c in w.procs { assert KillsFound(w.procs[c]); }
    forall p | p in w'.procs ensures KillsFound(w'.procs[p]) {
      if p != c { assert KillsFound(w.procs[p]); }
    }
  }

  /** What an action logs is about the one that acts, with its own number. */
  lemma {:induction false} EventsAreAbout(q: Process, target: Pid, recorded: nat, a: Action)
    ensures forall i :: 0 <= i < |Events(q, target, recorded, a)| ==>
              var e := Events(q, target, recorded, a)[i];
              && e.actor == a.p
              && match e
                 case Saved(_, n) => n == q.seqNum && a.Save? && a.ok
                 case Signalled(_, t, _) => t == target && a.Signal?
                 case Entered(_, n) => n == q.seqNum && ((a.Save? && a.ok) || a.KillsDone?)
                 case Wrote(_, file) => file == q.seqNum && (a.ReportTransitioning? || a.Body? || a.ReportError?)
  {
  }

  /** Whoever acts so that it is logged has saved, killed or entered by then. */
  lemma {:induction false} LoggedIsTouched(w: World, a: Action)
    requires Enabled(false, w, a) && NewEvents(w, a) != []
    ensures a.p in Apply(w, a).procs && a.p in w.procs && !Untouched(Apply(w, a).procs[a.p].pc)
    ensures Apply(w, a).procs[a.p].seqNum == w.procs[a.p].seqNum && Apply(w, a).procs[a.p].found == w.procs[a.p].found
  {
    StepShape(w, a);
  }

  lemma {:induction false} NewEventsMatch(w: World, a: Action)
    requires Enabled(false, w, a) && AllKillFound(w)
    ensures forall i :: 0 <= i < |NewEvents(w, a)| ==> EventMatches(Apply(w, a), NewEvents(w, a)[i])
  {
    var added := NewEvents(w, a);
    forall i | 0 <= i < |added| ensures EventMatches(Apply(w, a), added[i]) {
      LoggedIsTouched(w, a);
      EventsAreAbout(w.procs[a.p], Subject(w, a), w.Recorded(), a);
      assert KillsFound(w.procs[a.p]);
    }
  }

  lemma {:induction false} EventsKept(w: World, w': World, c: Pid, added: seq<Event>)
    requires Framed(w, w', c) && w'.log == w.log + added && EventsMatch(w)
    requires c in w.procs ==> w'.procs[c].seqNum == w.procs[c].seqNum &&
                              (Untouched(w'.procs[c].pc) ==> Untouched(w.procs[c].pc)) &&
                              (!Untouched(w.procs[c].pc) ==> w'.procs[c].found == w.procs[c].found)
    requires forall i :: 0 <= i < |added| ==> EventMatches(w', added[i])
    ensures EventsMatch(w')
  {
    forall i | 0 <= i < |w'.log| ensures EventMatches(w', w'.log[i]) {
      if i < |w.log| {
        assert EventMatches(w, w.log[i]);
      } else {
        assert w'.log[i] == added[i - |w.log|];
      }
    }
  }

  lemma {:induction false} EventsStep(w: World, a: Action)
    requires Enabled(false, w, a) && AllKillFound(w) && EventsMatch(w)
    ensures EventsMatch(Apply(w, a))
  {
    StepShape(w, a);
    if !a.Start? { StepLocal(w, a); }
    NewEventsMatch(w, a);
    EventsKept(w, Apply(w, a), Subject(w, a), NewEvents(w, a));
  }

  lemma {:induction false} NewEventsFit(w: World, a: Action)
    requires Enabled(true, w, a) && AllKnow(w) && AllKillFound(w)
    ensures forall i :: 0 <= i < |NewEvents(w, a)| ==> EventFits(Apply(w, a), NewEvents(w, a)[i])
    ensures forall i :: 0 <= i < |NewEvents(w, a)| && NewEvents(w, a)[i].Saved? ==>
              i == 0 && w.Recorded() <= NewEvents(w, a)[i].number
  {
    NewEventsMatch(w, a);
    if a.p in w.procs { assert Knows(w.Recorded(), w.procs[a.p]); }
  }

  lemma {:induction false} LogStep(w: World, a: Action)
    requires Enabled(true, w, a) && OneStarter(w) && AllKnow(w) && AllKillFound(w)
    requires LogFits(w) && SavesGrow(w.log)
    ensures LogFits(Apply(w, a)) && SavesGrow(Apply(w, a).log)
  {
    var w', c, added := Apply(w, a), Subject(w, a), NewEvents(w, a);
    StepShape(w, a);
    if !a.Start? { StepLocal(w, a); }
    KnowledgeStep(w, a);
    NewEventsFit(w, a);
    LogKept(w, w', c, added);
  }

  lemma {:induction false} LogKept(w: World, w': World, c: Pid, added: seq<Event>)
    requires Framed(w, w', c) && w'.log == w.log + added && w.Recorded() <= w'.Recorded()
    requires c in w.procs ==> w'.procs[c].seqNum == w.procs[c].seqNum &&
                              (Untouched(w'.procs[c].pc) ==> Untouched(w.procs[c].pc)) &&
                              (!Untouched(w.procs[c].pc) ==> w'.procs[c].found == w.procs[c].found)
    requires LogFits(w) && SavesGrow(w.log)
    requires forall i :: 0 <= i < |added| ==> EventFits(w', added[i])
    requires forall i :: 0 <= i < |added| && added[i].Saved? ==> i == 0 && w.Recorded() <= added[i].number
    ensures LogFits(w') && SavesGrow(w'.log)
  {
    forall i | 0 <= i < |w'.log| ensures EventFits(w', w'.log[i]) {
      if i < |w.log| {
        assert EventFits(w, w.log[i]);
      } else {
        assert w'.log[i] == added[i - |w.log|];
      }
    }
    forall i, j | 0 <= i < j < |w'.log| && w'.log[i].Saved? && w'.log[j].Saved?
      ensures w'.log[i].number <= w'.log[j].number
    {
      if j >= |w.log| {
        assert w'.log[j] == added[j - |w.log|];
        assert i < |w.log| && EventFits(w, w.log[i]);
      }
    }
  }

  // ---------- no loss: the others are pending ----------

  lemma {:induction false} PendingStep(w: World, a: Action)
    requires Enabled(true, w, a) && OneStarter(w) && AllKnow(w) && OthersArePending(w)
    requires !Apply(w, a).lossy
    ensures OthersArePending(Apply(w, a))
  {
    var w', c := Apply(w, a), Subject(w, a);
    StepShape(w, a);
    if !a.Start? { StepLocal(w, a); }
    forall p | p in w'.procs && HasPending(w'.procs[p].pc) ensures Complete(w', p, Pending(w'.procs[p])) {
      if p == c {
        PendingLocal(w, a);
      } else {
        assert Complete(w, p, Pending(w.procs[p]));
      }
    }
  }

  lemma {:induction false} PendingLocal(w: World, a: Action)
    requires Enabled(true, w, a) && AllKnow(w) && OthersArePending(w) && !Apply(w, a).lossy
    requires HasPending(Apply(w, a).procs[Subject(w, a)].pc)
    ensures Complete(Apply(w, a), Subject(w, a), Pending(Apply(w, a).procs[Subject(w, a)]))
  {
    var w', c := Apply(w, a), Subject(w, a);
    StepShape(w, a);
    var q, q' := w.procs[c], w'.procs[c];
    assert Knows(w.Recorded(), q);
    assert HasPending(q.pc) ==> Complete(w, c, Pending(q));
    forall o | o in w'.procs && w'.Live(o) && o != c ensures o in Pending(q') {
      assert o in w.procs && w.Live(o);
    }
  }

  /** Only a starter with nothing left pending enters. */
  lemma {:induction false} EnteringIsAlone(w: World, a: Action, n: nat)
    requires Enabled(true, w, a) && AllKnow(w) && OthersArePending(w)
    requires Entered(Subject(w, a), n) in NewEvents(w, a)
    ensures Complete(w, Subject(w, a), [])
    ensures Owner(Apply(w, a).log) == Some(Subject(w, a))
  {
    StepShape(w, a);
    var q := w.procs[a.p];
    assert Knows(w.Recorded(), q);
    assert Complete(w, a.p, Pending(q));
  }

  lemma {:induction false} InvStep(w: World, a: Action)
    requires Inv(w) && Enabled(true, w, a)
    ensures Inv(Apply(w, a)) && w.Recorded() <= Apply(w, a).Recorded()
  {
    StarterStep(w, a);
    KnowledgeStep(w, a);
    KillFoundStep(w, a);
    LogStep(w, a);
    StepShape(w, a);
    if !Apply(w, a).lossy { PendingStep(w, a); }
  }
}
