/** enablePre and checkIdempotency (main/cmds.go) as one process runs them: the register and the
    kills it issues, in order. */
module EnablePre {
  import opened Settings
  import opened Takeover

  datatype Effect = KillAll(pids: seq<Pid>, recorded: nat) | Record(number: nat)

  datatype Outcome = Passed | ExitIdempotent | RejectedOlder | CannotRead | CannotSave

  /** Where in the takeover protocol a process is when enablePre has returned. */
  function PcOf(outcome: Outcome): Pc {
    match outcome
    case Passed => Admitted
    case ExitIdempotent => Gone(Idempotent)
    case RejectedOlder => Gone(Rejected)
    case CannotRead => Gone(ReadFailed)
    case CannotSave => Gone(SaveFailed)
  }

  /** The course of a process in the takeover protocol from the point where it saves its number. */
  function SaveCourse(q: Process, p: Pid, saveOk: bool): (Pc, seq<Effect>) {
    var q' := Moved(q, q.read, Save(p, saveOk));
    match q'.pc
    case Killing(pids, thenSave) =>
      (Moved(q'.(pc := Killing([], thenSave)), q.seqNum, KillsDone(p)).pc, [Record(q.seqNum), KillAll(pids, q.seqNum)])
    case Admitted => (Admitted, [Record(q.seqNum)])
    case pc => (pc, [])
  }

  /** The course of a process in the takeover protocol from the point where it decides, if nobody
      else changes the register: where it ends, and what it does. */
  function Course(q: Process, p: Pid, log: LogAge, saveOk: bool): (Pc, seq<Effect>) {
    var q' := Moved(q, q.read, Resolve(p, log));
    match q'.pc
    case Killing(pids, thenSave) =>
      var r := SaveCourse(Moved(q'.(pc := Killing([], thenSave)), q.read, KillsDone(p)), p, saveOk);
      (r.0, [KillAll(pids, q.read)] + r.1)
    case Saving => SaveCourse(q', p, saveOk)
    case pc => (pc, [])
  }

  /** The process that has read `read` and discovered what it could. */
  function Decider(seqNum: nat, read: nat, discovered: Option<seq<Pid>>): Process {
    Process(seqNum, Deciding, read, if discovered.Some? then discovered.value else [], false)
  }

  /** When enablePre ends how. */
  lemma {:induction false} CourseEnds(seqNum: nat, read: nat, found: seq<Pid>, p: Pid, log: LogAge, saveOk: bool)
    ensures var pc := Course(Decider(seqNum, read, Some(found)), p, log, saveOk).0;
            && (pc == Gone(Idempotent) <==> seqNum == read && found != [] && log == LogFresh)
            && (pc == Gone(Rejected) <==> seqNum < read)
            && (pc == Admitted ==> saveOk)
            && (pc == Gone(SaveFailed) ==> !saveOk)
            && pc in {Gone(Idempotent), Gone(Rejected), Gone(SaveFailed), Admitted}
  {
  }

  /** A process passes only with its number recorded once and the processes it found sent to be
      killed once; every kill is issued when the recorded number already is its own; a process
      turned away does nothing, and one that cannot save has at most killed processes of its own
      number. */
  lemma {:induction false} CourseEffects(seqNum: nat, read: nat, found: seq<Pid>, p: Pid, log: LogAge, saveOk: bool)
    ensures var (pc, effects) := Course(Decider(seqNum, read, Some(found)), p, log, saveOk);
            && (pc == Gone(Idempotent) || pc == Gone(Rejected) ==> effects == [])
            && (pc == Gone(SaveFailed) ==>
                  effects == if seqNum == read && found != [] then [KillAll(found, seqNum)] else [])
            && (pc == Admitted ==>
                  effects == if found == [] then [Record(seqNum)]
                             else if seqNum > read then [Record(seqNum), KillAll(found, seqNum)]
                             else [KillAll(found, seqNum), Record(seqNum)])
            && (forall i :: 0 <= i < |effects| && effects[i].KillAll? ==> effects[i].recorded == seqNum)
  {
    CourseEnds(seqNum, read, found, p, log, saveOk);
  }

  class Host {
    var recorded: Option<nat>
    var effects: seq<Effect>

    /** An absent register reads as 0. */
    function Recorded(): nat
      reads this
    {
      if recorded.Some? then recorded.value else 0
    }

    method KillProcesses(pids: seq<Pid>)
      modifies this
      ensures recorded == old(recorded) && effects == old(effects) + [KillAll(pids, Recorded())]
    {
      effects := effects + [KillAll(pids, Recorded())];
    }

    method CheckIdempotency(seqNum: nat, read: nat, found: seq<Pid>, log: LogAge) returns (shouldExit: bool)
      modifies this
      ensures recorded == old(recorded)
      ensures shouldExit <==> Decide(seqNum, read, found, log) == IdempotentExit
      ensures effects == if Decide(seqNum, read, found, log) == TakeOverSameNumber
                         then old(effects) + [KillAll(found, Recorded())] else old(effects)
    {
      if seqNum != read {
        return false;
      }
      if |found| == 0 {
        return false;
      }
      if log == LogTimeUnknown {
        KillProcesses(found);
        return false;
      }
      var logFresh := log == LogFresh;
      if logFresh {
        return true;
      }
      KillProcesses(found);
      return false;
    }

    /** enablePre follows the takeover protocol; the number is recorded if and only if it passes. */
    method Run(seqNum: nat, readOk: bool, discovered: Option<seq<Pid>>, log: LogAge, saveOk: bool)
      returns (outcome: Outcome)
      modifies this
      ensures outcome == CannotRead <==> !readOk
      ensures !readOk ==> effects == old(effects)
      ensures readOk ==>
                var course := Course(Decider(seqNum, old(Recorded()), discovered), 0, log, saveOk);
                PcOf(outcome) == course.0 && effects == old(effects) + course.1
      ensures recorded == if outcome == Passed then Some(seqNum) else old(recorded)
      ensures old(Recorded()) <= Recorded()
    {
      if !readOk {
        return CannotRead;
      }
      var read := Recorded();
      var existing: seq<Pid> := [];
      if discovered.Some? {
        existing := discovered.value;
      }
      CourseEnds(seqNum, read, existing, 0, log, saveOk);
      CourseEffects(seqNum, read, existing, 0, log, saveOk);
      var shouldExit := CheckIdempotency(seqNum, read, existing, log);
      if shouldExit {
        return ExitIdempotent;
      }
      if read != 0 && seqNum < read {
        return RejectedOlder;
      }
      if !saveOk {
        return CannotSave;
      }
      recorded := Some(seqNum);
      effects := effects + [Record(seqNum)];
      if seqNum > read && |existing| > 0 {
        KillProcesses(existing);
      }
      return Passed;
    }
  }
}
