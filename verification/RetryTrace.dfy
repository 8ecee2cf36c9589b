/** What the VMWatch goroutine does, as a trace of events, and the order it does it in. */
module RetryTrace {
  import opened VMWatch

  datatype Event =
    | ShutdownRead(stop: bool)
    | Send(status: VMWatchStatus)           // a send in the retry loop
    | Begin                                 // an attempt starts executing
    | Reset                                 // the monitor resets the counters during an attempt
    | End(ok: bool)                         // an attempt is over
    | Update(cycle: int, total: int)
    | Sleep(hours: int)
    | SendFinal                             // the Failed sent when the goroutine ends
    | Close

  /** Where the goroutine is in its dealings with the flag and the channel. */
  datatype Phase =
    | Ready                                 // before a cycle: must look at the flag
    | Stopping                              // the look before a cycle found the flag set
    | Open                                  // in a cycle, between attempts
    | Cleared                               // the look before an attempt found the flag not set
    | CycleOver                             // the look before an attempt found the flag set
    | Updated                               // the counters are updated at the end of a cycle
    | Resting                               // the look before the wait found the flag not set
    | Announced
    | Executing
    | Over(ok: bool)
    | Succeeded
    | Finished
    | Closed
    | Broken
  {
    /** Between attempts, and not done. */
    predicate Idle() {
      Ready? || Stopping? || Open? || Cleared? || CycleOver? || Updated? || Resting?
    }
  }

  /** Where a look at the flag leads. */
  function Looked(ph: Phase, stop: bool): Phase {
    match ph
    case Ready => if stop then Stopping else Open
    case Open => if stop then CycleOver else Cleared
    case Updated => if stop then Ready else Resting
    case _ => Broken
  }

  /** Cycles, attempts and waits come only directly after a look that found the flag not set; an
      attempt is announced, executed, reported; a cycle ends with the update of the counters; after a
      success, and after a look before a cycle that found the flag set, only the end is left. */
  function Advance(ph: Phase, e: Event): Phase {
    match e
    case ShutdownRead(stop) => Looked(ph, stop)
    case Update(_, _) => if ph.Open? || ph.CycleOver? then Updated else Broken
    case Sleep(_) => if ph.Resting? then Ready else Broken
    case Send(s) =>
      if ph.Cleared? && s == Running then Announced
      else if ph.Over? && s == Failed then (if ph.ok then Succeeded else Open)
      else Broken
    case Begin => if ph.Announced? then Executing else Broken
    case Reset => if ph.Executing? then Executing else Broken
    case End(ok) => if ph.Executing? then Over(ok) else Broken
    case SendFinal => if ph.Ready? || ph.Stopping? || ph.Updated? || ph.Succeeded? then Finished else Broken
    case Close => if ph.Finished? then Closed else Broken
  }

  function PhaseOf(t: seq<Event>): Phase {
    if t == [] then Ready else Advance(PhaseOf(t[..|t| - 1]), t[|t| - 1])
  }

  function Attempts(t: seq<Event>): nat {
    if t == [] then 0 else Attempts(t[..|t| - 1]) + if t[|t| - 1].Begin? then 1 else 0
  }

  /** The answers to the looks at the flag, in order. */
  function Reads(t: seq<Event>): seq<bool> {
    if t == [] then []
    else Reads(t[..|t| - 1]) + if t[|t| - 1].ShutdownRead? then [t[|t| - 1].stop] else []
  }

  /** The results of the attempts, in order. */
  function Ends(t: seq<Event>): seq<bool> {
    if t == [] then []
    else Ends(t[..|t| - 1]) + if t[|t| - 1].End? then [t[|t| - 1].ok] else []
  }

  /** The counters have been reset since the last attempt began. */
  predicate ResetSince(t: seq<Event>) {
    t != [] && !t[|t| - 1].Begin? && (t[|t| - 1].Reset? || ResetSince(t[..|t| - 1]))
  }

  /** Whether the counters were reset during the attempts, in order. */
  function ResetsSeen(t: seq<Event>): (r: seq<bool>)
    ensures |r| == |Ends(t)|
  {
    if t == [] then []
    else ResetsSeen(t[..|t| - 1]) + if t[|t| - 1].End? then [ResetSince(t[..|t| - 1])] else []
  }

  function Sleeps(t: seq<Event>): seq<int> {
    if t == [] then []
    else Sleeps(t[..|t| - 1]) + if t[|t| - 1].Sleep? then [t[|t| - 1].hours] else []
  }

  /** The statuses sent on the channel. */
  function Sends(t: seq<Event>): seq<VMWatchStatus> {
    if t == [] then []
    else Sends(t[..|t| - 1]) + SentBy(t[|t| - 1])
  }

  function Closes(t: seq<Event>): nat {
    if t == [] then 0 else Closes(t[..|t| - 1]) + if t[|t| - 1].Close? then 1 else 0
  }

  /** The goroutine has read the shutdown flag as set. */
  function StopSeen(t: seq<Event>): bool {
    t != [] && (t[|t| - 1] == ShutdownRead(true) || StopSeen(t[..|t| - 1]))
  }

  /** Some attempt has succeeded. */
  function SuccessSeen(t: seq<Event>): bool {
    t != [] && (t[|t| - 1] == End(true) || SuccessSeen(t[..|t| - 1]))
  }

  /** After it has seen the flag set, the goroutine neither attempts, nor sleeps, nor sends. */
  predicate QuietAfterStop(t: seq<Event>) {
    t == [] ||
    (QuietAfterStop(t[..|t| - 1]) &&
     (StopSeen(t[..|t| - 1]) ==> t[|t| - 1].ShutdownRead? || t[|t| - 1].Update?))
  }

  function Updates(t: seq<Event>): nat {
    if t == [] then 0 else Updates(t[..|t| - 1]) + if t[|t| - 1].Update? then 1 else 0
  }

  /** The counters are updated at the end of cycle after cycle, from cycle `c` on, with the
      attempts made by then added to `total`. */
  predicate UpdatesFit(t: seq<Event>, c: int, total: int) {
    t == [] ||
    (var t', e := t[..|t| - 1], t[|t| - 1];
     UpdatesFit(t', c, total) && (e.Update? ==> e.cycle == c + Updates(t') && e.total == total + Attempts(t')))
  }

  /** The global counters after the trace, from `(cycle, total)`. */
  function CountersAfter(t: seq<Event>, cycle: int, total: int): (int, int) {
    if t == [] then (cycle, total)
    else
      match t[|t| - 1]
      case Update(c, n) => (c, n)
      case Reset => (1, 0)
      case _ => CountersAfter(t[..|t| - 1], cycle, total)
  }

  /** `k` times Running, Failed. */
  function Pairs(k: nat): (s: seq<VMWatchStatus>)
    ensures |s| == 2 * k
  {
    if k == 0 then [] else Pairs(k - 1) + [Running, Failed]
  }

  /** What has been sent in phase `ph` after `k` attempts have begun. */
  function SentIn(ph: Phase, k: nat): seq<VMWatchStatus> {
    match ph
    case Announced => Pairs(k) + [Running]
    case Executing | Over(_) => if k == 0 then [] else Pairs(k - 1) + [Running]
    case Finished | Closed => Pairs(k) + [Failed]
    case _ => Pairs(k)
  }

  function SentBy(e: Event): seq<VMWatchStatus> {
    if e.Send? then [e.status] else if e.SendFinal? then [Failed] else []
  }

  lemma {:induction false} SentStep(ph: Phase, k: nat, e: Event)
    requires Advance(ph, e) != Broken && (ph.Executing? || ph.Over? ==> k >= 1)
    ensures SentIn(Advance(ph, e), if e.Begin? then k + 1 else k) == SentIn(ph, k) + SentBy(e)
  {
  }

  /** What has been sent and closed is what the phase and the attempts begun say. */
  predicate Fits(ph: Phase, k: nat, sent: seq<VMWatchStatus>, closes: nat) {
    && sent == SentIn(ph, k)
    && closes == (if ph == Closed then 1 else 0)
    && (ph.Executing? || ph.Over? ==> k >= 1)
  }

  lemma {:induction false} FitsStep(ph: Phase, k: nat, sent: seq<VMWatchStatus>, closes: nat, e: Event)
    requires Fits(ph, k, sent, closes) && Advance(ph, e) != Broken
    ensures Fits(Advance(ph, e), if e.Begin? then k + 1 else k,
                 sent + SentBy(e), if e.Close? then closes + 1 else closes)
  {
    SentStep(ph, k, e);
  }

  predicate SendsFit(t: seq<Event>) {
    Fits(PhaseOf(t), Attempts(t), Sends(t), Closes(t))
  }

  lemma {:induction false} SendsFitStep(t: seq<Event>, t': seq<Event>, e: Event)
    requires t' == t + [e] && SendsFit(t) && PhaseOf(t') != Broken
    ensures SendsFit(t')
  {
    assert t'[..|t|] == t;
    FitsStep(PhaseOf(t), Attempts(t), Sends(t), Closes(t), e);
  }

  lemma {:induction false} NotBrokenBefore(t: seq<Event>)
    requires t != [] && PhaseOf(t) != Broken
    ensures PhaseOf(t[..|t| - 1]) != Broken
  {
  }

  lemma {:induction false} SendsAlwaysFit(t: seq<Event>)
    requires PhaseOf(t) != Broken
    ensures SendsFit(t)
  {
    if t == [] {
    } else {
      var before := t[..|t| - 1];
      NotBrokenBefore(t);
      SendsAlwaysFit(before);
      SendsFitStep(before, t, t[|t| - 1]);
    }
  }

  /** In every phase, what has been sent is determined by the attempts begun. */
  lemma {:induction false} SendsByPhase(t: seq<Event>)
    requires PhaseOf(t) != Broken
    ensures Sends(t) == SentIn(PhaseOf(t), Attempts(t))
    ensures Closes(t) == if PhaseOf(t) == Closed then 1 else 0
    ensures PhaseOf(t).Executing? || PhaseOf(t).Over? ==> Attempts(t) >= 1
  {
    SendsAlwaysFit(t);
  }

  lemma {:induction false} PhaseOfPrefix(t: seq<Event>, i: nat)
    requires i <= |t| && PhaseOf(t) != Broken
    ensures PhaseOf(t[..i]) != Broken
    ensures i < |t| ==> PhaseOf(t[..i]) != Closed
    decreases |t|
  {
    if i == |t| {
      assert t[..i] == t;
    } else {
      var m := t[..|t| - 1];
      PhaseOfPrefix(m, i);
      assert m[..i] == t[..i];
      assert i == |m| ==> t[..i] == m;
    }
  }

  /** A complete run sends Running and Failed once per attempt, one final Failed, closes the channel
      once, and does nothing afterwards. */
  lemma {:induction false} CompleteRunSends(t: seq<Event>)
    requires PhaseOf(t) == Closed
    ensures Sends(t) == Pairs(Attempts(t)) + [Failed]
    ensures Closes(t) == 1 && t != [] && t[|t| - 1] == Close
    ensures forall i :: 0 <= i < |t| - 1 ==> t[i] != Close
  {
    SendsByPhase(t);
    forall i | 0 <= i < |t| - 1 ensures t[i] != Close {
      PhaseOfPrefix(t, i);
      PhaseOfPrefix(t, i + 1);
      assert t[..i + 1][..i] == t[..i];
    }
  }

  // ---------- the waits ----------

  /** The waits after cycles `c` to `hi - 1`. */
  function Waits(base: int, c: int, hi: int): seq<int>
    decreases hi - c
  {
    if hi <= c then [] else Waits(base, c, hi - 1) + [base * (hi - 1)]
  }

  function Sum(s: seq<int>): int {
    if s == [] then 0 else Sum(s[..|s| - 1]) + s[|s| - 1]
  }

  /** The total wait in closed form. */
  lemma {:induction false} TotalWait(base: int, c: int, hi: int)
    requires c <= hi
    ensures 2 * Sum(Waits(base, c, hi)) == base * ((hi - c) * (hi + c - 1))
    decreases hi - c
  {
    if c == hi {
      NoWait(base, hi - c, hi + c - 1);
    } else {
      TotalWait(base, c, hi - 1);
      SumOfWaits(base, c, hi);
      OneWaitMore(base, c, hi, Sum(Waits(base, c, hi - 1)));
    }
  }

  lemma {:induction false} SumOfWaits(base: int, c: int, hi: int)
    requires c < hi
    ensures Sum(Waits(base, c, hi)) == Sum(Waits(base, c, hi - 1)) + base * (hi - 1)
  {
    var w := Waits(base, c, hi);
    assert w[..|w| - 1] == Waits(base, c, hi - 1);
  }

  lemma {:induction false} NoWait(base: int, a: int, b: int)
    requires a == 0
    ensures base * (a * b) == 0
  {
  }

  lemma {:induction false} OneWaitMore(base: int, c: int, hi: int, sum: int)
    requires 2 * sum == base * ((hi - 1 - c) * (hi - 1 + c - 1))
    ensures 2 * (sum + base * (hi - 1)) == base * ((hi - c) * (hi + c - 1))
  {
    assert (hi - c) * (hi + c - 1) == (hi - 1 - c) * (hi - 1 + c - 1) + 2 * (hi - 1);
    Distribute(base, (hi - 1 - c) * (hi - 1 + c - 1), 2 * (hi - 1));
  }

  lemma {:induction false} Distribute(a: int, x: int, y: int)
    ensures a * (x + y) == a * x + a * y
  {
  }
}
