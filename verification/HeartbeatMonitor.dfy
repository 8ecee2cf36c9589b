/** monitorHeartBeat (main/vmWatch.go): one goroutine per VMWatch process that looks at the heartbeat
    file on a ticker until the process is done. Times are in nanoseconds. */
module HeartbeatMonitor {
  import opened Settings

  const MAX_BETWEEN_HEARTBEATS := 180 * NS_PER_SECOND
  const SUCCESS_THRESHOLD := 3600 * NS_PER_SECOND

  /** A tick: the time, and the heartbeat file's last write, if there is such a file. */
  datatype Tick = Tick(now: int, lastWrite: Option<int>)

  predicate Hung(t: Tick) {
    t.lastWrite == None || t.now - t.lastWrite.value >= MAX_BETWEEN_HEARTBEATS
  }

  /** Time does not go back between the start, the ticks and the exit. */
  predicate Ordered(start: int, ticks: seq<Tick>, exit: int) {
    && start <= exit
    && forall i :: 0 <= i < |ticks| ==> start <= ticks[i].now <= exit
  }

  function KillTimes(ticks: seq<Tick>): seq<int> {
    if ticks == [] then []
    else KillTimes(ticks[..|ticks| - 1]) + if Hung(ticks[|ticks| - 1]) then [ticks[|ticks| - 1].now] else []
  }

  /** The tick finds a heartbeat in time, and the process has run for an hour. */
  predicate ProvesSuccess(start: int, t: Tick) {
    !Hung(t) && t.now - start >= SUCCESS_THRESHOLD
  }

  /** The first tick that proves success, or the number of ticks if none does. */
  function FirstProof(start: int, ticks: seq<Tick>): (j: nat)
    ensures j <= |ticks|
    ensures j < |ticks| ==> ProvesSuccess(start, ticks[j])
    ensures forall i :: 0 <= i < j ==> !ProvesSuccess(start, ticks[i])
  {
    if ticks == [] then 0
    else
      var j := FirstProof(start, ticks[..|ticks| - 1]);
      if j < |ticks| - 1 || ProvesSuccess(start, ticks[|ticks| - 1]) then j else |ticks|
  }

  /** When the counters are reset: at the first tick that proves success, else at the exit of a process
      that ran for an hour, else not at all. */
  function ResetTimes(start: int, ticks: seq<Tick>, exit: int): seq<int> {
    var j := FirstProof(start, ticks);
    if j < |ticks| then [ticks[j].now] else if exit - start >= SUCCESS_THRESHOLD then [exit] else []
  }

  /** The counters are reset once if the process ran for an hour, never otherwise; a kill is issued
      at exactly the ticks that find the heartbeat missing or too old. */
  method Monitor(start: int, ticks: seq<Tick>, exit: int) returns (resets: seq<int>, kills: seq<int>)
    ensures resets == ResetTimes(start, ticks, exit)
    ensures Ordered(start, ticks, exit) ==> |resets| == if exit - start >= 3_600_000_000_000 then 1 else 0
    ensures kills == KillTimes(ticks)
  {
    resets, kills := [], [];
    var retryResetDone := false;
    var i := 0;
    while i < |ticks|
      invariant 0 <= i <= |ticks|
      invariant FirstProof(start, ticks[..i]) < i <==> retryResetDone
      invariant resets == if retryResetDone then [ticks[FirstProof(start, ticks[..i])].now] else []
      invariant kills == KillTimes(ticks[..i])
    {
      var t := ticks[i];
      assert ticks[..i + 1][..i] == ticks[..i];
      if t.lastWrite.Some? && t.now - t.lastWrite.value < MAX_BETWEEN_HEARTBEATS {
        if !retryResetDone && t.now - start >= SUCCESS_THRESHOLD {
          resets := resets + [t.now];
          retryResetDone := true;
        }
      } else {
        kills := kills + [t.now];
      }
      i := i + 1;
    }
    assert ticks[..i] == ticks;
    if !retryResetDone && exit - start >= SUCCESS_THRESHOLD {
      resets := resets + [exit];
    }
  }

  /** The kills, in order: `ticks[at[k]]` is the k-th tick that finds the heartbeat missing or at least
      180 s old, and no other tick does. */
  predicate AreTheHungTicks(ticks: seq<Tick>, kills: seq<int>, at: seq<nat>) {
    && |at| == |kills|
    && (forall k :: 0 <= k < |at| ==> at[k] < |ticks| && kills[k] == ticks[at[k]].now)
    && (forall k, l :: 0 <= k < l < |at| ==> at[k] < at[l])
    && (forall j :: 0 <= j < |ticks| ==>
          (j in at <==> ticks[j].lastWrite == None || ticks[j].now - ticks[j].lastWrite.value >= 180_000_000_000))
  }

  lemma {:induction false} OneHungTickMore(ticks: seq<Tick>, t: Tick, kills: seq<int>, at: seq<nat>)
    requires AreTheHungTicks(ticks, kills, at) && Hung(t)
    ensures AreTheHungTicks(ticks + [t], kills + [t.now], at + [|ticks|])
  {
    var all, n := ticks + [t], |ticks|;
    forall j | 0 <= j < |all|
      ensures j in at + [n] <==> all[j].lastWrite == None || all[j].now - all[j].lastWrite.value >= 180_000_000_000
    {
      if j < n { assert all[j] == ticks[j]; }
    }
  }

  lemma {:induction false} OneFreshTickMore(ticks: seq<Tick>, t: Tick, kills: seq<int>, at: seq<nat>)
    requires AreTheHungTicks(ticks, kills, at) && !Hung(t)
    ensures AreTheHungTicks(ticks + [t], kills, at)
  {
    var all, n := ticks + [t], |ticks|;
    forall j | 0 <= j < |all|
      ensures j in at <==> all[j].lastWrite == None || all[j].now - all[j].lastWrite.value >= 180_000_000_000
    {
      if j < n { assert all[j] == ticks[j]; }
    }
  }

  /** A kill is issued at exactly the ticks that find no heartbeat less than 180 s old, in their order. */
  lemma {:induction false} KillsAreTheHungTicks(ticks: seq<Tick>) returns (at: seq<nat>)
    ensures AreTheHungTicks(ticks, KillTimes(ticks), at)
  {
    if ticks == [] {
      at := [];
    } else {
      var n := |ticks| - 1;
      at := KillsAreTheHungTicks(ticks[..n]);
      assert ticks == ticks[..n] + [ticks[n]];
      if Hung(ticks[n]) {
        OneHungTickMore(ticks[..n], ticks[n], KillTimes(ticks[..n]), at);
        at := at + [n];
      } else {
        OneFreshTickMore(ticks[..n], ticks[n], KillTimes(ticks[..n]), at);
      }
    }
  }

  lemma {:induction false} HungTickKills(ticks: seq<Tick>, j: nat)
    requires j < |ticks| && Hung(ticks[j])
    ensures ticks[j].now in KillTimes(ticks)
  {
    if j == |ticks| - 1 {
    } else {
      HungTickKills(ticks[..|ticks| - 1], j);
    }
  }

  /** Ticks come exactly every 180 s after `base`. */
  predicate ExactTicks(base: int, ticks: seq<Tick>) {
    forall j :: 0 <= j < |ticks| ==> ticks[j].now == base + (j + 1) * MAX_BETWEEN_HEARTBEATS
  }

  /** A process that stays alive but writes its last heartbeat at `w` has a kill issued less than
      360 s later, if it is still being watched then. */
  lemma {:induction false} SilentProcessIsKilled(base: int, ticks: seq<Tick>, w: int)
    requires ExactTicks(base, ticks) && base <= w
    requires forall j :: 0 <= j < |ticks| && ticks[j].now >= w ==> ticks[j].lastWrite in {None, Some(w)}
    requires base + |ticks| * MAX_BETWEEN_HEARTBEATS >= w + MAX_BETWEEN_HEARTBEATS
    ensures exists k :: k in KillTimes(ticks) && w < k < w + 360_000_000_000
  {
    var j := (w - base + MAX_BETWEEN_HEARTBEATS - 1) / MAX_BETWEEN_HEARTBEATS;
    assert w - base <= j * MAX_BETWEEN_HEARTBEATS < w - base + MAX_BETWEEN_HEARTBEATS;
    assert 0 <= j < |ticks|;
    assert ticks[j].now == base + j * MAX_BETWEEN_HEARTBEATS + MAX_BETWEEN_HEARTBEATS;
    assert Hung(ticks[j]);
    HungTickKills(ticks, j);
  }

  /** While every tick finds a write less than 180 s old, no kill is issued. */
  lemma {:induction false} HealthyProcessIsNotKilled(ticks: seq<Tick>)
    requires forall j :: 0 <= j < |ticks| ==>
               ticks[j].lastWrite.Some? && ticks[j].now - ticks[j].lastWrite.value < MAX_BETWEEN_HEARTBEATS
    ensures KillTimes(ticks) == []
  {
    if ticks == [] {
    } else {
      HealthyProcessIsNotKilled(ticks[..|ticks| - 1]);
    }
  }
}
