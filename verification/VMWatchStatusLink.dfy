/** The VMWatch substatus in the status file is the status of the rendezvous: what the probe loop
    reports is tied to what the VMWatch goroutine is doing. */
module VMWatchStatusLink {
  import opened Settings
  import opened Health
  import opened VMWatch
  import opened Timeline
  import opened RetryTrace
  import opened Rendezvous
  import EnableLoop

  /** What one move brings to the loop, if it is a pass of the loop. */
  function ReadIn(trace: seq<Event>, s: System, m: Move): seq<ChannelRead>
    requires Possible(trace, s, m)
  {
    match m
    case Local => []
    case PassReceives => [Received(Sent(trace[s.pos]))]
    case PassFindsNothing => [Nothing]
    case PassFindsClosed => [ChannelClosed]
  }

  /** What the passes of the loop find on the channel, in order. */
  function ReadsOf(trace: seq<Event>, s: System, ms: seq<Move>): seq<ChannelRead>
    requires IsInterleaving(trace, s, ms)
    decreases |ms|
  {
    if ms == [] then [] else ReadIn(trace, s, ms[0]) + ReadsOf(trace, Do(trace, s, ms[0]), ms[1..])
  }

  function StatusAfter(status: VMWatchStatus, found: seq<ChannelRead>): VMWatchStatus
    decreases |found|
  {
    if found == [] then status else StatusAfter(AfterSelect(status, found[0]), found[1..])
  }

  lemma {:induction false} OneReadMore(status: VMWatchStatus, found: seq<ChannelRead>, r: ChannelRead)
    ensures StatusAfter(status, found + [r]) == AfterSelect(StatusAfter(status, found), r)
    decreases |found|
  {
    if found == [] {
      assert [r][1..] == [];
    } else {
      assert (found + [r])[1..] == found[1..] + [r];
      OneReadMore(AfterSelect(status, found[0]), found[1..], r);
    }
  }

  /** The rendezvous folds over what is found on the channel, and each find is a pass. */
  lemma {:induction false} MovesFold(trace: seq<Event>, s: System, ms: seq<Move>)
    requires IsInterleaving(trace, s, ms)
    ensures AfterMoves(trace, s, ms).status == StatusAfter(s.status, ReadsOf(trace, s, ms))
    ensures AfterMoves(trace, s, ms).passes == s.passes + |ReadsOf(trace, s, ms)|
    decreases |ms|
  {
    if ms == [] {
    } else {
      var s', rest := Do(trace, s, ms[0]), ReadsOf(trace, Do(trace, s, ms[0]), ms[1..]);
      MovesFold(trace, s', ms[1..]);
      if ms[0].Local? {
        assert [] + rest == rest;
      } else {
        var r := ReadIn(trace, s, ms[0])[0];
        assert ([r] + rest)[0] == r && ([r] + rest)[1..] == rest;
      }
    }
  }

  /** The passes find what the rendezvous brings them. */
  predicate Finds(its: seq<Iteration>, found: seq<ChannelRead>) {
    |its| == |found| && forall i :: 0 <= i < |its| ==> its[i].message == found[i]
  }

  /** The loop folds over what it finds too. */
  lemma {:induction false} LoopFolds(status: VMWatchStatus, its: seq<Iteration>, found: seq<ChannelRead>)
    requires Finds(its, found)
    ensures EnableLoop.VMWatchAfter(Some(status), its) == Some(StatusAfter(status, found))
  {
    if its == [] {
    } else {
      var n := |its| - 1;
      LoopFolds(status, its[..n], found[..n]);
      OneReadMore(status, found[..n], found[n]);
      assert found[..n] + [found[n]] == found;
    }
  }

  /** With settings that enable VMWatch, after any interleaving, the report of the last pass shows the
      status of the rendezvous: an error exactly if that is Failed, else success; so success while an
      attempt executes and before the first, and an error once the goroutine has ended. */
  lemma {:induction false} ReportShowsTheRendezvous(seqNum: nat, settings: PublicSettings, its: seq<Iteration>,
                                                    trace: seq<Event>, ms: seq<Move>)
    requires settings.ParseAndValidate() == None && settings.vmWatch == Some(true) && PhaseOf(trace) != Broken
    requires IsInterleaving(trace, START, ms) && Finds(its, ReadsOf(trace, START, ms))
    ensures var s := AfterMoves(trace, START, ms);
            var r := EnableLoop.ReportAfter(seqNum, EnableLoop.SetupOf(settings), its).report;
            && s.passes == |its| && r.Some?
            && r.value.vmWatch == Some(if s.status == Failed then StatusError else StatusSuccess)
            && s.pos <= |trace|
            && (PhaseOf(trace[..s.pos]) == Executing ==> r.value.vmWatch == Some(StatusSuccess))
            && (PhaseOf(trace[..s.pos]) in {Finished, Closed} ==> r.value.vmWatch == Some(StatusError))
            && (Attempts(trace[..s.pos]) >= 1 ==> |its| >= 2 * Attempts(trace[..s.pos]) - 1)
  {
    MovesFold(trace, START, ms);
    LoopFolds(NotRunning, its, ReadsOf(trace, START, ms));
    StatusFollowsExecution(trace, ms);
    assert trace[..0] == [];
    StaysInStep(trace, START, ms);
  }
}
