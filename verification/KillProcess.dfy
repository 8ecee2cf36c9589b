/** killProcess and killProcesses (main/process.go): SIGTERM, bounded waiting, SIGKILL, bounded
    waiting. The target is whatever answers it gives: `alive(i)` is the answer to the i-th poll. */
module KillProcess {

  datatype Target = Target(isAHE: bool, found: bool, termOk: bool, killOk: bool, alive: nat -> bool)

  datatype Act = Term(ok: bool) | Kill(ok: bool) | Poll(alive: bool) | Pause

  /** `n` polls that find the target alive, each followed by a pause. */
  function LivePolls(n: nat): seq<Act> {
    seq(2 * n, i => if i % 2 == 0 then Poll(true) else Pause)
  }

  /** `n` pauses, each followed by a poll that finds the target alive. */
  function LivePausedPolls(n: nat): seq<Act> {
    seq(2 * n, i => if i % 2 == 0 then Pause else Poll(true))
  }

  function Pauses(t: seq<Act>): nat {
    if t == [] then 0 else Pauses(t[..|t| - 1]) + if t[|t| - 1].Pause? then 1 else 0
  }

  /** The answers to the polls, in order. */
  function Answers(t: seq<Act>): seq<bool> {
    if t == [] then [] else Answers(t[..|t| - 1]) + if t[|t| - 1].Poll? then [t[|t| - 1].alive] else []
  }

  /** SIGTERM, then fewer than ten polls that find the target alive, then one that finds it gone. */
  predicate GoneAfterTerm(t: seq<Act>) {
    exists j: nat :: j < 10 && t == [Term(true)] + LivePolls(j) + [Poll(false)]
  }

  /** SIGTERM, ten polls that find the target alive, and an attempt at SIGKILL. */
  function UpToKill(ok: bool): seq<Act> {
    [Term(true)] + LivePolls(10) + [Kill(ok)]
  }

  predicate GoneAfterKill(t: seq<Act>) {
    exists j: nat :: j < 4 && t == UpToKill(true) + LivePausedPolls(j) + [Pause, Poll(false)]
  }

  /** The only things killProcess ever does to a process. */
  predicate Escalation(t: seq<Act>) {
    t == [] || t == [Term(false)] || GoneAfterTerm(t) || t == UpToKill(false) || GoneAfterKill(t) ||
    t == UpToKill(true) + LivePausedPolls(4)
  }

  predicate SawGone(t: seq<Act>) {
    t != [] && t[|t| - 1] == Poll(false)
  }

  /** One of the polls `lo` to `hi - 1`, if it is made, finds the target gone. */
  ghost predicate GoneWithin(alive: nat -> bool, lo: nat, hi: nat) {
    exists i: nat :: lo <= i < hi && !alive(i)
  }

  /** SIGTERM goes out, and is delivered. */
  predicate TermSent(target: Target) {
    target.isAHE && target.found && target.termOk
  }

  /** The polls in a trace got the answers the target gives. */
  ghost predicate Answered(t: seq<Act>, alive: nat -> bool) {
    forall i :: 0 <= i < |Answers(t)| ==> Answers(t)[i] == alive(i)
  }

  lemma {:induction false} Append(t: seq<Act>, a: Act)
    ensures Pauses(t + [a]) == Pauses(t) + if a.Pause? then 1 else 0
    ensures Answers(t + [a]) == Answers(t) + if a.Poll? then [a.alive] else []
  {
    assert (t + [a])[..|t|] == t;
  }

  lemma {:induction false} OneMoreLivePoll(t: seq<Act>, n: nat)
    ensures t + LivePolls(n) + [Poll(true), Pause] == t + LivePolls(n + 1)
  {
    assert LivePolls(n + 1) == LivePolls(n) + [Poll(true), Pause];
  }

  lemma {:induction false} OneMorePausedPoll(t: seq<Act>, n: nat)
    ensures t + LivePausedPolls(n) + [Pause, Poll(true)] == t + LivePausedPolls(n + 1)
  {
    assert LivePausedPolls(n + 1) == LivePausedPolls(n) + [Pause, Poll(true)];
  }

  /** The bookkeeping of a trace: the pauses so far, and polls that got the target's answers. */
  ghost predicate Tally(t: seq<Act>, alive: nat -> bool, pauses: nat, polls: nat) {
    Pauses(t) == pauses && |Answers(t)| == polls && Answered(t, alive)
  }

  lemma {:induction false} TermTally(ok: bool, alive: nat -> bool)
    ensures Tally([Term(ok)], alive, 0, 0)
  {
    Append([], Term(ok));
    assert [] + [Term(ok)] == [Term(ok)];
  }

  lemma {:induction false} PauseTally(t: seq<Act>, alive: nat -> bool, pauses: nat, polls: nat)
    requires Tally(t, alive, pauses, polls)
    ensures Tally(t + [Pause], alive, pauses + 1, polls)
  {
    Append(t, Pause);
  }

  lemma {:induction false} PollTally(t: seq<Act>, alive: nat -> bool, pauses: nat, polls: nat)
    requires Tally(t, alive, pauses, polls)
    ensures Tally(t + [Poll(alive(polls))], alive, pauses, polls + 1)
  {
    Append(t, Poll(alive(polls)));
  }

  lemma {:induction false} PollPauseTally(t: seq<Act>, alive: nat -> bool, pauses: nat, polls: nat)
    requires Tally(t, alive, pauses, polls) && alive(polls)
    ensures Tally(t + [Poll(true), Pause], alive, pauses + 1, polls + 1)
  {
    PollTally(t, alive, pauses, polls);
    PauseTally(t + [Poll(true)], alive, pauses, polls + 1);
    assert t + [Poll(true)] + [Pause] == t + [Poll(true), Pause];
  }

  lemma {:induction false} PausePollTally(t: seq<Act>, alive: nat -> bool, pauses: nat, polls: nat, up: bool)
    requires Tally(t, alive, pauses, polls) && up == alive(polls)
    ensures Tally(t + [Pause, Poll(up)], alive, pauses + 1, polls + 1)
  {
    PauseTally(t, alive, pauses, polls);
    PollTally(t + [Pause], alive, pauses + 1, polls);
    assert t + [Pause] + [Poll(up)] == t + [Pause, Poll(up)];
  }

  /** Up to ten polls; stops at the first that finds the target gone. */
  method AwaitAfterTerm(alive: nat -> bool, before: seq<Act>) returns (gone: bool, trace: seq<Act>)
    requires before == [Term(true)] && Tally(before, alive, 0, 0)
    ensures gone ==> GoneAfterTerm(trace)
    ensures !gone ==> trace == before + LivePolls(10) && Tally(trace, alive, 10, 10)
    ensures before <= trace && (gone ==> SawGone(trace))
    ensures gone <==> GoneWithin(alive, 0, 10)
    ensures forall k :: 0 <= k < |trace| ==> !trace[k].Kill?
    ensures Answered(trace, alive) && Pauses(trace) <= 10
  {
    trace := before;
    assert trace == before + LivePolls(0);
    var i: nat := 0;
    while i < 10
      invariant i <= 10
      invariant trace == before + LivePolls(i) && Tally(trace, alive, i, i)
      invariant forall j: nat :: j < i ==> alive(j)
    {
      if !alive(i) {
        PollTally(trace, alive, i, i);
        return true, trace + [Poll(false)];
      }
      PollPauseTally(trace, alive, i, i);
      OneMoreLivePoll(before, i);
      trace := trace + [Poll(true), Pause];
      i := i + 1;
    }
    gone := false;
  }

  /** Up to four pauses and polls; stops at the first that finds the target gone. */
  method AwaitAfterKill(alive: nat -> bool, before: seq<Act>) returns (gone: bool, trace: seq<Act>)
    requires before == UpToKill(true) && Tally(before, alive, 10, 10)
    ensures gone ==> GoneAfterKill(trace)
    ensures !gone ==> trace == before + LivePausedPolls(4)
    ensures before <= trace && (gone <==> SawGone(trace))
    ensures gone <==> GoneWithin(alive, 10, 14)
    ensures forall k :: |before| <= k < |trace| ==> !trace[k].Kill?
    ensures Answered(trace, alive) && Pauses(trace) <= 14
  {
    trace := before;
    assert trace == before + LivePausedPolls(0);
    var i: nat := 0;
    while i < 4
      invariant i <= 4 && before <= trace && !SawGone(trace)
      invariant trace == before + LivePausedPolls(i) && Tally(trace, alive, 10 + i, 10 + i)
      invariant forall j: nat :: 10 <= j < 10 + i ==> alive(j)
    {
      PausePollTally(trace, alive, 10 + i, 10 + i, alive(10 + i));
      OneMorePausedPoll(before, i);
      if !alive(10 + i) {
        return true, trace + [Pause, Poll(false)];
      }
      trace := trace + [Pause, Poll(true)];
      i := i + 1;
    }
    gone := false;
  }

  /** SIGKILL is tried exactly if SIGTERM was sent and the first ten polls find the target alive, and
      goes as the target lets it. */
  ghost predicate KilledAsNeeded(target: Target, trace: seq<Act>) {
    && (Kill(target.killOk) in trace <==> TermSent(target) && !GoneWithin(target.alive, 0, 10))
    && Kill(!target.killOk) !in trace
  }

  /** The target's answers alone decide whether killing it succeeds: it is no longer AHE, or it is gone
      at one of the first ten polls after SIGTERM, or at one of the four after SIGKILL. */
  ghost predicate Succeeds(target: Target) {
    || !target.isAHE
    || (TermSent(target) &&
        (GoneWithin(target.alive, 0, 10) || (target.killOk && GoneWithin(target.alive, 10, 14))))
  }

  /** Only a process that still is AHE is signalled; the error is nil exactly if it is not AHE any
      more or a poll found it gone, which its answers decide; the waiting, half a second a time, is
      bounded. */
  ghost predicate KillOutcome(target: Target, ok: bool, trace: seq<Act>) {
    && Escalation(trace) && KilledAsNeeded(target, trace)
    && (trace != [] <==> target.isAHE && target.found)
    && (trace != [] ==> trace[0] == Term(target.termOk))
    && (ok <==> !target.isAHE || SawGone(trace))
    && (ok <==> Succeeds(target))
    && Answered(trace, target.alive)
    && Pauses(trace) * 500 <= 7000
  }

  /** The second half: SIGKILL, after SIGTERM and ten polls that found the target alive. */
  method EscalateToKill(target: Target, before: seq<Act>) returns (ok: bool, trace: seq<Act>)
    requires target.isAHE && target.found && target.termOk
    requires before == [Term(true)] + LivePolls(10) && Tally(before, target.alive, 10, 10)
    requires !GoneWithin(target.alive, 0, 10)
    ensures KillOutcome(target, ok, trace)
  {
    Append(before, Kill(target.killOk));
    trace := before + [Kill(target.killOk)];
    ok := false;
    if target.killOk {
      ok, trace := AwaitAfterKill(target.alive, trace);
    }
  }

  lemma {:induction false} GoneAfterTermIsOutcome(target: Target, trace: seq<Act>)
    requires target.isAHE && target.found && target.termOk
    requires GoneAfterTerm(trace) && SawGone(trace) && trace[0] == Term(true)
    requires Answered(trace, target.alive) && Pauses(trace) <= 10
    requires GoneWithin(target.alive, 0, 10) && forall k :: 0 <= k < |trace| ==> !trace[k].Kill?
    ensures KillOutcome(target, true, trace)
  {
  }

  lemma {:induction false} EarlyOutcome(target: Target, t: seq<Act>)
    requires t == if target.isAHE && target.found then [Term(false)] else []
    requires target.isAHE && target.found ==> !target.termOk
    ensures KillOutcome(target, !target.isAHE, t)
  {
    if t != [] { TermTally(false, target.alive); }
  }

  /** killProcess. */
  method KillOne(target: Target) returns (ok: bool, trace: seq<Act>)
    ensures KillOutcome(target, ok, trace)
  {
    if !target.isAHE {
      trace := [];
      EarlyOutcome(target, trace);
      return true, trace;
    }
    if !target.found {
      trace := [];
      EarlyOutcome(target, trace);
      return false, trace;
    }
    trace := [Term(target.termOk)];
    if !target.termOk {
      EarlyOutcome(target, trace);
      return false, trace;
    }
    TermTally(true, target.alive);
    ok, trace := AwaitAfterTerm(target.alive, trace);
    if ok {
      GoneAfterTermIsOutcome(target, trace);
    } else {
      ok, trace := EscalateToKill(target, trace);
    }
  }

  function TotalPauses(ts: seq<seq<Act>>): nat {
    if ts == [] then 0 else TotalPauses(ts[..|ts| - 1]) + Pauses(ts[|ts| - 1])
  }

  /** Every listed process is tried, in order, whatever happens to the ones before it. */
  method KillAll(pids: seq<nat>, targets: nat -> Target) returns (oks: seq<bool>, traces: seq<seq<Act>>)
    ensures |traces| == |oks| == |pids|
    ensures forall k :: 0 <= k < |pids| ==> KillOutcome(targets(pids[k]), oks[k], traces[k])
    ensures TotalPauses(traces) * 500 <= 7000 * |pids|
  {
    oks, traces := [], [];
    while |traces| < |pids|
      invariant |traces| == |oks| <= |pids|
      invariant forall k :: 0 <= k < |traces| ==> KillOutcome(targets(pids[k]), oks[k], traces[k])
      invariant TotalPauses(traces) * 500 <= 7000 * |traces|
      decreases |pids| - |traces|
    {
      var ok, trace := KillOne(targets(pids[|traces|]));
      assert (traces + [trace])[..|traces|] == traces;
      oks, traces := oks + [ok], traces + [trace];
    }
  }
}
