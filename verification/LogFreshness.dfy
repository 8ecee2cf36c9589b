/** The heartbeat a looping process logs (main/health.go) against the staleness test another process
    applies to the log (main/cmds.go, main/process.go). Times are in seconds; they are real numbers,
    because the one rounding that matters, to whole seconds, is part of the model. */
module LogFreshness {
  import opened Settings
  import opened Takeover

  const HEARTBEAT_INTERVAL := 300.0
  const STALE_THRESHOLD := 360.0

  /** The clock as LogHeartBeat reads it at one loop head: to decide, and then to remember. */
  datatype Beat = Beat(checked: real, stamped: real)

  /** The last heartbeat after the given loop heads. */
  function LastHeartbeat(beats: seq<Beat>): Option<real> {
    if beats == [] then None
    else
      var before, b := LastHeartbeat(beats[..|beats| - 1]), beats[|beats| - 1];
      if before == None || b.checked - before.value >= HEARTBEAT_INTERVAL then Some(b.stamped) else before
  }

  class HeartbeatLogger {
    var timeOfLastLog: Option<real>
    ghost var beats: seq<Beat>

    ghost predicate Valid()
      reads this
    {
      timeOfLastLog == LastHeartbeat(beats)
    }

    constructor ()
      ensures Valid() && beats == []
    {
      timeOfLastLog, beats := None, [];
    }

    method LogHeartBeat(checked: real, stamped: real) returns (logged: bool)
      requires Valid()
      modifies this
      ensures Valid() && beats == old(beats) + [Beat(checked, stamped)]
      ensures logged <==> old(timeOfLastLog) == None || checked - old(timeOfLastLog).value >= HEARTBEAT_INTERVAL
      ensures timeOfLastLog == if logged then Some(stamped) else old(timeOfLastLog)
    {
      assert (beats + [Beat(checked, stamped)])[..|beats|] == beats;
      logged := false;
      if timeOfLastLog == None || checked - timeOfLastLog.value >= HEARTBEAT_INTERVAL {
        timeOfLastLog := Some(stamped);
        logged := true;
      }
      beats := beats + [Beat(checked, stamped)];
    }
  }

  /** The clock never goes back. */
  predicate ClockGoesOn(beats: seq<Beat>) {
    && (forall i :: 0 <= i < |beats| ==> beats[i].checked <= beats[i].stamped)
    && (forall i, j :: 0 <= i < j < |beats| ==> beats[i].stamped <= beats[j].checked)
  }

  /** At every loop head the last heartbeat is less than five minutes old. */
  lemma {:induction false} HeartbeatIsRecent(beats: seq<Beat>)
    requires beats != [] && ClockGoesOn(beats)
    ensures var h, last := LastHeartbeat(beats), beats[|beats| - 1];
            && h.Some? && h.value <= last.stamped && last.checked - h.value < HEARTBEAT_INTERVAL
            && exists i :: 0 <= i < |beats| && beats[i].stamped == h.value
  {
    if |beats| == 1 {
      assert LastHeartbeat(beats) == Some(beats[0].stamped);
    } else {
      var t, last := beats[..|beats| - 1], beats[|beats| - 1];
      HeartbeatIsRecent(t);
      var i :| 0 <= i < |t| && t[i].stamped == LastHeartbeat(t).value;
      assert beats[i].stamped == LastHeartbeat(t).value;
      assert beats[|beats| - 1].stamped == last.stamped;
    }
  }

  /** What the shim hands on: whole seconds. */
  function ToSeconds(t: real): int {
    t.Floor
  }

  /** The judgement of checkIdempotency on the log. */
  function JudgeLog(now: real, lastWriteSeconds: Option<int>): LogAge {
    match lastWriteSeconds
    case None => LogTimeUnknown
    case Some(s) => if now - s as real < STALE_THRESHOLD then LogFresh else LogStale
  }

  /** Without a log time the process found is taken over, and so it is if the log is six minutes old;
      otherwise it is left alone. */
  lemma {:induction false} LogDecides(now: real, lastWriteSeconds: Option<int>, seqNum: nat, found: seq<Pid>)
    requires found != []
    ensures Decide(seqNum, seqNum, found, JudgeLog(now, lastWriteSeconds)) ==
            if lastWriteSeconds == None || now - lastWriteSeconds.value as real >= 360.0 then TakeOverSameNumber
            else IdempotentExit
  {
  }

  /** A looping process has been through the loop heads `beats`; its log was last written at
      `written`, no earlier than its last heartbeat; the shim looked at `captured`, at most `lag`
      after the last loop head. */
  ghost predicate Scenario(beats: seq<Beat>, written: real, captured: real, lag: real) {
    && beats != [] && ClockGoesOn(beats)
    && LastHeartbeat(beats).Some? && LastHeartbeat(beats).value <= written <= captured
    && beats[|beats| - 1].checked <= captured <= beats[|beats| - 1].checked + lag
  }

  lemma {:induction false} AgeIsBounded(beats: seq<Beat>, written: real, captured: real, lag: real, delay: real)
    requires Scenario(beats, written, captured, lag)
    ensures captured + delay - ToSeconds(written) as real < 301.0 + lag + delay
  {
    HeartbeatIsRecent(beats);
  }

  /** A live looping process of the same number is taken for a responsive one, so that a second
      starter leaves it alone, if lag and delay are at most 59 s together. */
  lemma {:induction false} LiveProcessIsLeftAlone(beats: seq<Beat>, written: real, captured: real, lag: real,
                                                  delay: real, seqNum: nat, found: seq<Pid>)
    requires Scenario(beats, written, captured, lag) && lag + delay <= 59.0 && found != []
    ensures Decide(seqNum, seqNum, found, JudgeLog(captured + delay, Some(ToSeconds(written)))) == IdempotentExit
  {
    AgeIsBounded(beats, written, captured, lag, delay);
  }

  /** And for every larger margin there is a live process that is taken for a stale one, and killed. */
  lemma {:induction false} BeyondThatItCanLookStale(lag: real, delay: real, seqNum: nat, found: seq<Pid>)
    returns (beats: seq<Beat>, written: real, captured: real)
    requires lag >= 0.0 && lag + delay > 59.0 && found != []
    ensures Scenario(beats, written, captured, lag)
    ensures Decide(seqNum, seqNum, found, JudgeLog(captured + delay, Some(ToSeconds(written)))) == TakeOverSameNumber
  {
    var excess := lag + delay - 59.0;
    var d := if excess > 1.0 then 0.5 else excess / 2.0;
    var first, second := Beat(1.0 - d, 1.0 - d), Beat(301.0 - 2.0 * d, 301.0 - 2.0 * d);
    beats, written, captured := [first] + [second], first.stamped, second.checked + lag;
    assert beats[..1] == [first] && [first][..0] == [];
    assert LastHeartbeat([first]) == Some(written);
    assert LastHeartbeat(beats) == Some(written);
    assert ToSeconds(written) == 0;
  }

  /** The margin is exactly 59 s: it decides whether every live process looks fresh. */
  lemma {:induction false} TheMarginIsExact(lag: real, delay: real)
    requires lag >= 0.0
    ensures lag + delay <= 59.0 <==>
            forall beats, written, captured ::
              Scenario(beats, written, captured, lag) ==>
                JudgeLog(captured + delay, Some(ToSeconds(written))) == LogFresh
  {
    if lag + delay <= 59.0 {
      forall beats, written, captured | Scenario(beats, written, captured, lag)
        ensures JudgeLog(captured + delay, Some(ToSeconds(written))) == LogFresh
      {
        AgeIsBounded(beats, written, captured, lag, delay);
      }
    } else {
      var beats, written, captured := BeyondThatItCanLookStale(lag, delay, 0, [0]);
    }
  }
}
