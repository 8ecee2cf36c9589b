/** The VMWatch goroutine and the probe loop over the unbuffered result channel: every interleaving
    of a goroutine that follows a legal trace with a loop that takes at most one message per pass. */
module Rendezvous {
  import opened VMWatch
  import opened RetryTrace

  /** How far the goroutine is in its trace, the status the loop holds, and the passes it has made. */
  datatype System = System(pos: nat, status: VMWatchStatus, passes: nat)

  datatype Move =
    | Local                  // the goroutine does something other than send
    | PassReceives           // a pass of the loop meets the goroutine at its send
    | PassFindsNothing       // a pass of the loop comes when nobody is at the channel
    | PassFindsClosed        // a pass of the loop after the channel was closed

  const START := System(0, NotRunning, 0)

  predicate IsSend(e: Event) {
    e.Send? || e.SendFinal?
  }

  function Sent(e: Event): VMWatchStatus {
    if e.Send? then e.status else Failed
  }

  predicate Possible(trace: seq<Event>, s: System, m: Move) {
    && s.pos <= |trace|
    && match m
       case Local => s.pos < |trace| && !IsSend(trace[s.pos])
       case PassReceives => s.pos < |trace| && IsSend(trace[s.pos])
       case PassFindsNothing => PhaseOf(trace[..s.pos]) != Closed
       case PassFindsClosed => PhaseOf(trace[..s.pos]) == Closed
  }

  function Do(trace: seq<Event>, s: System, m: Move): System
    requires Possible(trace, s, m)
  {
    match m
    case Local => s.(pos := s.pos + 1)
    case PassReceives => System(s.pos + 1, AfterSelect(s.status, Received(Sent(trace[s.pos]))), s.passes + 1)
    case PassFindsNothing => System(s.pos, AfterSelect(s.status, Nothing), s.passes + 1)
    case PassFindsClosed => System(s.pos, AfterSelect(s.status, ChannelClosed), s.passes + 1)
  }

  predicate IsInterleaving(trace: seq<Event>, s: System, ms: seq<Move>)
    decreases |ms|
  {
    ms == [] || (Possible(trace, s, ms[0]) && IsInterleaving(trace, Do(trace, s, ms[0]), ms[1..]))
  }

  function AfterMoves(trace: seq<Event>, s: System, ms: seq<Move>): System
    requires IsInterleaving(trace, s, ms)
    decreases |ms|
  {
    if ms == [] then s else AfterMoves(trace, Do(trace, s, ms[0]), ms[1..])
  }

  /** The status that goes with phase `ph` after `k` attempts have begun. */
  function StatusIn(ph: Phase, k: nat): VMWatchStatus {
    match ph
    case Ready | Stopping | Open | Cleared | CycleOver | Updated | Resting =>
      if k == 0 then NotRunning else Failed
    case Announced | Executing | Over(_) => Running
    case _ => Failed
  }

  /** The status the loop holds is determined by how far the goroutine has come. */
  function StatusAt(t: seq<Event>): VMWatchStatus {
    StatusIn(PhaseOf(t), Attempts(t))
  }

  lemma {:induction false} StatusStep(ph: Phase, k: nat, e: Event)
    requires Advance(ph, e) != Broken && (ph.Executing? || ph.Over? ==> k >= 1)
    ensures StatusIn(Advance(ph, e), if e.Begin? then k + 1 else k) == if IsSend(e) then Sent(e) else StatusIn(ph, k)
    ensures SentBy(e) == if IsSend(e) then [Sent(e)] else []
  {
  }

  predicate InStep(trace: seq<Event>, s: System) {
    && s.pos <= |trace|
    && s.status == StatusAt(trace[..s.pos])
    && |Sends(trace[..s.pos])| <= s.passes
  }

  lemma {:induction false} OneEvent(trace: seq<Event>, i: nat)
    requires i < |trace| && PhaseOf(trace) != Broken
    ensures var t, e := trace[..i], trace[i];
            && PhaseOf(t) != Broken
            && (IsSend(e) ==> StatusAt(trace[..i + 1]) == Sent(e) && |Sends(trace[..i + 1])| == |Sends(t)| + 1)
            && (!IsSend(e) ==> StatusAt(trace[..i + 1]) == StatusAt(t) && Sends(trace[..i + 1]) == Sends(t))
  {
    PhaseOfPrefix(trace, i);
    PhaseOfPrefix(trace, i + 1);
    var t, u := trace[..i], trace[..i + 1];
    assert u[..i] == t && u[i] == trace[i];
    SendsByPhase(t);
    StatusStep(PhaseOf(t), Attempts(t), trace[i]);
  }

  lemma {:induction false} StaysInStep(trace: seq<Event>, s: System, ms: seq<Move>)
    requires PhaseOf(trace) != Broken && InStep(trace, s) && IsInterleaving(trace, s, ms)
    ensures InStep(trace, AfterMoves(trace, s, ms))
    ensures s.pos <= AfterMoves(trace, s, ms).pos
    decreases |ms|
  {
    if ms == [] {
    } else {
      var s' := Do(trace, s, ms[0]);
      if ms[0].Local? || ms[0].PassReceives? { OneEvent(trace, s.pos); }
      StaysInStep(trace, s', ms[1..]);
    }
  }

  /** In every interleaving: an attempt executes only while the loop's last status is Running; k
      attempts need at least 2k - 1 passes; and the status is Failed once the final one is received. */
  lemma {:induction false} StatusFollowsExecution(trace: seq<Event>, ms: seq<Move>)
    requires PhaseOf(trace) != Broken && IsInterleaving(trace, START, ms)
    ensures var s := AfterMoves(trace, START, ms);
            s.pos <= |trace| &&
            var t := trace[..s.pos];
            && (PhaseOf(t) == Executing ==> s.status == Running)
            && (s.status == Running <==> PhaseOf(t).Announced? || PhaseOf(t).Executing? || PhaseOf(t).Over?)
            && (s.status == NotRunning ==> Attempts(t) == 0)
            && (Attempts(t) >= 1 ==> s.passes >= 2 * Attempts(t) - 1)
            && (PhaseOf(t) in {Finished, Closed} ==> s.status == Failed)
  {
    assert trace[..0] == [];
    StaysInStep(trace, START, ms);
    var t := trace[..AfterMoves(trace, START, ms).pos];
    PhaseOfPrefix(trace, |t|);
    SendsByPhase(t);
  }

  lemma {:induction false} FinishedStays(trace: seq<Event>, i: nat, j: nat)
    requires i <= j <= |trace| && PhaseOf(trace) != Broken && PhaseOf(trace[..i]) in {Finished, Closed}
    ensures PhaseOf(trace[..j]) in {Finished, Closed}
    decreases j - i
  {
    if i == j {
    } else {
      FinishedStays(trace, i, j - 1);
      PhaseOfPrefix(trace, j);
      assert trace[..j][..j - 1] == trace[..j - 1];
    }
  }

  lemma {:induction false} FailedFrom(trace: seq<Event>, s: System, more: seq<Move>)
    requires PhaseOf(trace) != Broken && InStep(trace, s) && PhaseOf(trace[..s.pos]) in {Finished, Closed}
    requires IsInterleaving(trace, s, more)
    ensures s.status == Failed && AfterMoves(trace, s, more).status == Failed
  {
    StaysInStep(trace, s, more);
    FinishedStays(trace, s.pos, AfterMoves(trace, s, more).pos);
  }

  /** After the close - indeed from the final Failed on - the status is Failed forever. */
  lemma {:induction false} FailedForever(trace: seq<Event>, ms: seq<Move>, more: seq<Move>)
    requires PhaseOf(trace) != Broken && IsInterleaving(trace, START, ms)
    requires var s := AfterMoves(trace, START, ms);
             s.pos <= |trace| && PhaseOf(trace[..s.pos]) in {Finished, Closed} && IsInterleaving(trace, s, more)
    ensures var s := AfterMoves(trace, START, ms);
            s.status == Failed && AfterMoves(trace, s, more).status == Failed
  {
    assert trace[..0] == [];
    StaysInStep(trace, START, ms);
    FailedFrom(trace, AfterMoves(trace, START, ms), more);
  }

  // ---------- nobody is ever stuck ----------

  lemma {:induction false} MoveOn(trace: seq<Event>, s: System, m: Move, rest: seq<Move>)
    requires Possible(trace, s, m) && IsInterleaving(trace, Do(trace, s, m), rest)
    ensures IsInterleaving(trace, s, [m] + rest)
    ensures AfterMoves(trace, s, [m] + rest) == AfterMoves(trace, Do(trace, s, m), rest)
  {
    assert ([m] + rest)[0] == m && ([m] + rest)[1..] == rest;
  }

  /** From wherever an interleaving has come, the goroutine can finish its trace if the loop goes on, with
      one pass of the loop for each message that is left, and the loop itself can always make a pass. */
  lemma {:induction false} TheGoroutineCanFinish(trace: seq<Event>, s: System) returns (more: seq<Move>)
    requires PhaseOf(trace) != Broken && InStep(trace, s)
    ensures IsInterleaving(trace, s, more)
    ensures AfterMoves(trace, s, more).pos == |trace|
    ensures AfterMoves(trace, s, more).passes == s.passes + |Sends(trace)| - |Sends(trace[..s.pos])|
    ensures Possible(trace, s, PassFindsNothing) <==> !Possible(trace, s, PassFindsClosed)
    decreases |trace| - s.pos
  {
    if s.pos == |trace| {
      assert trace[..s.pos] == trace;
      more := [];
    } else {
      var m := if IsSend(trace[s.pos]) then PassReceives else Local;
      OneEvent(trace, s.pos);
      var rest := TheGoroutineCanFinish(trace, Do(trace, s, m));
      MoveOn(trace, s, m, rest);
      more := [m] + rest;
    }
  }
}
