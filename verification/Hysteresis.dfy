/** Hysteresis of the committed state: how often, and only after what, it can change. */
module Hysteresis {
  import opened Health
  import opened Debounce
  import opened GraceSpec

  /** Observation `i` changes the committed state and is not in the grace period; the observation
      that ends the grace period is the first of these. */
  predicate Changes(cfg: Config, h: seq<Observation>, i: nat)
    requires i < |h|
  {
    !InGrace(cfg, h[..i + 1]) && Committed(cfg, h[..i + 1]) != Committed(cfg, h[..i])
  }

  /** The observation that ends the grace period; the first one if no grace period is set. */
  function Start(cfg: Config, h: seq<Observation>): nat {
    if cfg.gracePeriod > 0 then GraceEnd(cfg, h) else 0
  }

  /** Before the start nothing changes, and the start itself is a change. */
  lemma {:induction false} ChangesBeginAtStart(cfg: Config, h: seq<Observation>, i: nat)
    requires i < |h|
    ensures Changes(cfg, h, i) ==> i >= Start(cfg, h)
    ensures i == Start(cfg, h) ==> Changes(cfg, h, i)
    ensures i > Start(cfg, h) ==> !InGrace(cfg, h[..i]) && i >= 1
  {
    GraceEndOfPrefix(cfg, h, i);
    GraceEndOfPrefix(cfg, h, i + 1);
    if i == Start(cfg, h) {
      CommittedIsReportable(cfg, h[..i + 1]);
    }
  }

  /** After the first observation, every difference in the committed state is such a change. */
  lemma {:induction false} DifferenceIsChange(cfg: Config, h: seq<Observation>, i: nat)
    requires 1 <= i < |h| && Committed(cfg, h[..i + 1]) != Committed(cfg, h[..i])
    ensures Changes(cfg, h, i)
  {
    GraceEndOfPrefix(cfg, h, i);
    GraceEndOfPrefix(cfg, h, i + 1);
  }

  /** From the end of the grace period on, the effective history grows by what is observed. */
  lemma {:induction false} EffectiveGrows(cfg: Config, a: seq<Observation>, b: seq<Observation>)
    requires !InGrace(cfg, a)
    ensures !InGrace(cfg, a + b)
    ensures Effective(cfg, a + b) == Effective(cfg, a) + States(b)
    decreases |b|
  {
    if b == [] {
      assert a + b == a && States(b) == [];
    } else {
      var c, o := b[..|b| - 1], b[|b| - 1];
      EffectiveGrows(cfg, a, c);
      assert a + b == (a + c) + [o];
      EffectiveStep(cfg, a + c, o);
      assert States(b) == States(c) + [o.state];
    }
  }

  /** Out of grace, and the state just observed is the committed one. */
  predicate CommitsTheObserved(cfg: Config, a: seq<Observation>) {
    !InGrace(cfg, a) && Effective(cfg, a) != [] && Committed(cfg, a) == Previous(cfg, a)
  }

  /** A change commits the state just observed. */
  lemma {:induction false} ChangeCommitsTheObserved(cfg: Config, h: seq<Observation>, i: nat)
    requires i < |h| && Changes(cfg, h, i)
    ensures CommitsTheObserved(cfg, h[..i + 1])
  {
    var g, h' := h[..i], h[..i + 1];
    assert h' == g + [h[i]];
    EffectiveStep(cfg, g, h[i]);
    var n := cfg.numberOfProbes;
    if InGrace(cfg, g) {
      if h[i].elapsed < cfg.gracePeriod {
        assert h'[i] == h[i];
        BypassIsRunOfN(cfg, g, h[i]);
        LastEqualIsLongRun(Effective(cfg, h'), n);
      }
    } else if g != [] {
      ChangeNeedsWindow(Effective(cfg, g), h[i].state, n);
    }
  }

  /** Between a commit of an observed state and the next change lie N probes of the new state. */
  lemma {:induction false} NextChangeIsNAway(cfg: Config, a: seq<Observation>, b: seq<Observation>, o: Observation,
                                             g: seq<Observation>, h: seq<Observation>)
    requires a != [] && CommitsTheObserved(cfg, a) && g == a + b && h == g + [o]
    requires Committed(cfg, h) != Committed(cfg, g)
    ensures |b| + 1 >= cfg.numberOfProbes
    ensures Committed(cfg, h) == o.state
    ensures forall k :: |b| + 1 - cfg.numberOfProbes <= k < |b| ==> b[k].state == o.state
  {
    var s, t := Effective(cfg, a), States(b);
    EffectiveGrows(cfg, a, b);
    EffectiveStep(cfg, g, o);
    ChangesAreApart(s, t, o.state, cfg.numberOfProbes);
    ChangeNeedsWindow(s + t, o.state, cfg.numberOfProbes);
    assert forall k :: 0 <= k < |b| ==> b[k].state == t[k];
  }

  lemma {:induction false} ChangeMeans(cfg: Config, h: seq<Observation>, i: nat)
    requires i < |h| && Changes(cfg, h, i)
    ensures Committed(cfg, h[..i + 1]) != Committed(cfg, h[..i])
  {
  }

  /** Two changes are at least N observations apart, and the later one follows N consecutive
      probes of the state it commits, all of them made after the earlier change. */
  lemma {:induction false} ChangesAreNApart(cfg: Config, h: seq<Observation>, i: nat, j: nat)
    requires i < j < |h| && Changes(cfg, h, i) && Changes(cfg, h, j)
    ensures j - i >= cfg.numberOfProbes
    ensures forall k :: j - cfg.numberOfProbes < k <= j ==> h[k].state == Committed(cfg, h[..j + 1])
  {
    var b := h[i + 1..j];
    Split(h, i, j);
    ChangeCommitsTheObserved(cfg, h, i);
    ChangeMeans(cfg, h, j);
    NextChangeIsNAway(cfg, h[..i + 1], b, h[j], h[..j], h[..j + 1]);
    LastProbesAre(h, i, j, h[j].state, cfg.numberOfProbes);
  }

  lemma {:induction false} LastProbesAre(h: seq<Observation>, i: nat, j: nat, y: ProbeState, n: Positive)
    requires i < j < |h| && n <= j - i && h[j].state == y
    requires var b := h[i + 1..j]; forall k :: |b| + 1 - n <= k < |b| ==> b[k].state == y
    ensures forall k :: j - n < k <= j ==> h[k].state == y
  {
    var b := h[i + 1..j];
    assert forall k :: i < k < j ==> h[k] == b[k - i - 1];
  }

  lemma {:induction false} Split(h: seq<Observation>, i: nat, j: nat)
    requires i < j < |h|
    ensures h[..j] == h[..i + 1] + h[i + 1..j] && h[..j + 1] == h[..j] + [h[j]]
  {
  }

  /** N consecutive probes of one state after the grace period end with that state committed. */
  lemma {:induction false} NEqualProbesCommit(cfg: Config, h: seq<Observation>, y: ProbeState)
    requires |h| - cfg.numberOfProbes > Start(cfg, h)
    requires forall k :: |h| - cfg.numberOfProbes <= k < |h| ==> h[k].state == y
    ensures Committed(cfg, h) == y
  {
    var i := |h| - cfg.numberOfProbes;
    ChangesBeginAtStart(cfg, h, i);
    assert h == h[..i] + h[i..];
    EffectiveGrows(cfg, h[..i], h[i..]);
    WindowDecides(Effective(cfg, h[..i]), States(h[i..]), y, cfg.numberOfProbes);
  }

  /** How many of the observations `first` end `end - 1` are changes. */
  function ChangeCount(cfg: Config, h: seq<Observation>, first: nat, end: nat): nat
    requires end <= |h|
    decreases end
  {
    if end <= first then 0
    else ChangeCount(cfg, h, first, end - 1) + if Changes(cfg, h, end - 1) then 1 else 0
  }

  /** The last change comes N observations after the first for each one before it. */
  lemma {:induction false} ChangesAreFew(cfg: Config, h: seq<Observation>, first: nat, end: nat) returns (last: nat)
    requires first < end <= |h| && Changes(cfg, h, first)
    ensures first <= last < end && Changes(cfg, h, last)
    ensures (ChangeCount(cfg, h, first, end) - 1) * cfg.numberOfProbes <= last - first
    decreases end
  {
    var j := end - 1;
    if j == first {
      last := first;
      assert ChangeCount(cfg, h, first, j) == 0;
    } else {
      var before := ChangesAreFew(cfg, h, first, j);
      if Changes(cfg, h, j) {
        OneChangeMore(cfg, h, before, j, ChangeCount(cfg, h, first, j), before - first);
        last := j;
      } else {
        last := before;
      }
    }
  }

  lemma {:induction false} OneChangeMore(cfg: Config, h: seq<Observation>, i: nat, j: nat, c: nat, d: nat)
    requires i < j < |h| && Changes(cfg, h, i) && Changes(cfg, h, j)
    requires (c - 1) * cfg.numberOfProbes <= d
    ensures (c + 1 - 1) * cfg.numberOfProbes <= d + (j - i)
  {
    ChangesAreNApart(cfg, h, i, j);
  }

  /** T probes after the one that ends the grace period, itself a change, bring at most T / N
      changes more. */
  lemma {:induction false} AtMostOneChangePerNProbes(cfg: Config, h: seq<Observation>)
    requires |h| > Start(cfg, h)
    ensures var t := |h| - 1 - Start(cfg, h);
            (ChangeCount(cfg, h, Start(cfg, h), |h|) - 1) * cfg.numberOfProbes <= t
  {
    ChangesBeginAtStart(cfg, h, Start(cfg, h));
    var last := ChangesAreFew(cfg, h, Start(cfg, h), |h|);
  }
}
