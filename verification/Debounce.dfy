/** Debouncing a sequence of health states, as a closed form over the whole sequence. */
module Debounce {
  import opened Health

  /** The length of the longest suffix of equal states. */
  function TrailingRun(s: seq<ProbeState>): (r: nat)
    ensures r <= |s|
    ensures s != [] ==> r >= 1
  {
    if |s| <= 1 then |s|
    else if s[|s| - 2] == s[|s| - 1] then TrailingRun(s[..|s| - 1]) + 1
    else 1
  }

  /** The last `n` states exist and are equal. */
  predicate LastEqual(s: seq<ProbeState>, n: Positive) {
    |s| >= n && forall i :: |s| - n <= i < |s| ==> s[i] == s[|s| - 1]
  }

  /** The value of the most recent window of `n` equal consecutive states; while there has been
      no such window, the first state. */
  function Debounced(s: seq<ProbeState>, n: Positive): HealthStatus {
    if s == [] then Empty
    else if LastEqual(s, n) || |s| == 1 then s[|s| - 1]
    else Debounced(s[..|s| - 1], n)
  }

  /** The windows of `n` equal states ending at position `k`. */
  predicate Window(s: seq<ProbeState>, n: Positive, k: nat) {
    k <= |s| && LastEqual(s[..k], n)
  }

  lemma {:induction false} LastEqualIsLongRun(s: seq<ProbeState>, n: Positive)
    ensures LastEqual(s, n) <==> TrailingRun(s) >= n
  {
    if |s| <= 1 {
    } else {
      var t := s[..|s| - 1];
      if n > 1 {
        LastEqualIsLongRun(t, n - 1);
        if s[|s| - 2] == s[|s| - 1] {
          if LastEqual(t, n - 1) {
            forall i | |s| - n <= i < |s| ensures s[i] == s[|s| - 1] {
              if i < |s| - 1 { assert s[i] == t[i]; }
            }
          }
          if LastEqual(s, n) {
            forall i | |t| - (n - 1) <= i < |t| ensures t[i] == t[|t| - 1] {
              assert t[i] == s[i];
            }
          }
        }
      }
    }
  }

  /** `Debounced` is what it says: the most recent window decides, else the first state. */
  lemma {:induction false} DebouncedIsMostRecentWindow(s: seq<ProbeState>, n: Positive, k: nat)
    requires Window(s, n, k)
    requires forall j :: k < j <= |s| ==> !Window(s, n, j)
    ensures Debounced(s, n) == s[k - 1]
    decreases |s|
  {
    assert s[..|s|] == s;
    if k == |s| {
    } else {
      assert !Window(s, n, |s|);
      var t := s[..|s| - 1];
      assert t[..k] == s[..k];
      forall j | k < j <= |t| ensures !Window(t, n, j) {
        assert t[..j] == s[..j];
        assert !Window(s, n, j);
      }
      DebouncedIsMostRecentWindow(t, n, k);
    }
  }

  lemma {:induction false} DebouncedWithoutWindow(s: seq<ProbeState>, n: Positive)
    requires s != []
    requires forall j :: 0 <= j <= |s| ==> !Window(s, n, j)
    ensures Debounced(s, n) == s[0]
    decreases |s|
  {
    assert s[..|s|] == s;
    assert !Window(s, n, |s|);
    if |s| == 1 {
    } else {
      var t := s[..|s| - 1];
      forall j | 0 <= j <= |t| ensures !Window(t, n, j) {
        assert t[..j] == s[..j];
        assert !Window(s, n, j);
      }
      DebouncedWithoutWindow(t, n);
    }
  }

  /** One more state: how the run grows. */
  lemma {:induction false} RunStep(s: seq<ProbeState>, x: ProbeState)
    ensures TrailingRun(s + [x]) == if s != [] && s[|s| - 1] == x then TrailingRun(s) + 1 else 1
  {
    assert (s + [x])[..|s|] == s;
  }

  /** One more state: only a run that has just reached `n` moves the debounced value. */
  lemma {:induction false} DebouncedStep(s: seq<ProbeState>, x: ProbeState, n: Positive)
    requires s != []
    ensures TrailingRun(s + [x]) >= n ==> Debounced(s + [x], n) == x
    ensures TrailingRun(s + [x]) != n ==> Debounced(s + [x], n) == Debounced(s, n)
  {
    var t := s + [x];
    assert t[..|s|] == s;
    LastEqualIsLongRun(t, n);
    LastEqualIsLongRun(s, n);
    RunStep(s, x);
  }

  /** The remainder of `r` by `n`, by repeated subtraction. */
  function Wrap(r: nat, n: Positive): (m: nat)
    ensures m < n
  {
    if r < n then r else Wrap(r - n, n)
  }

  lemma {:induction false} WrapIsRemainder(r: nat, n: Positive)
    ensures Wrap(r, n) == r % n
  {
    var q := WrapDivides(r, n);
    RemainderIsUnique(q, Wrap(r, n), n);
  }

  lemma {:induction false} WrapDivides(r: nat, n: Positive) returns (q: nat)
    ensures r == q * n + Wrap(r, n)
  {
    if r < n {
      q := 0;
    } else {
      var p := WrapDivides(r - n, n);
      q := p + 1;
    }
  }

  lemma {:induction false} RemainderIsUnique(q: nat, m: nat, n: Positive)
    requires m < n
    ensures (q * n + m) % n == m
  {
    var v := q * n + m;
    var k := v / n - q;
    assert v % n == m - k * n;
    assert k >= 1 ==> k * n >= n;
    assert k <= -1 ==> k * n + n <= 0;
  }

  /** Adding one to the counter, and wrapping at `n`. */
  lemma {:induction false} WrapStep(r: nat, n: Positive)
    ensures Wrap(r + 1, n) == if Wrap(r, n) + 1 == n then 0 else Wrap(r, n) + 1
  {
    if r < n {
    } else {
      WrapStep(r - n, n);
    }
  }

  /** A change of the debounced value needs `n` new equal states after the first one. */
  lemma {:induction false} ChangeNeedsWindow(s: seq<ProbeState>, x: ProbeState, n: Positive)
    requires s != [] && Debounced(s + [x], n) != Debounced(s, n)
    ensures |s| >= n && Debounced(s + [x], n) == x
    ensures forall i :: |s| + 1 - n <= i < |s| ==> s[i] == x
  {
    var t := s + [x];
    assert t[..|s|] == s;
    assert LastEqual(t, n);
    forall i | |s| + 1 - n <= i < |s| ensures s[i] == x {
      assert t[i] == s[i];
    }
    if |s| < n {
      assert s[0] == x;
      assert s == s[..1] + s[1..];
      ConstantStays(s[..1], s[1..], n);
      assert false;
    }
  }

  /** A value that is both debounced and observed stays while it is observed. */
  lemma {:induction false} ConstantStays(s: seq<ProbeState>, t: seq<ProbeState>, n: Positive)
    requires s != [] && Debounced(s, n) == s[|s| - 1]
    requires forall i :: 0 <= i < |t| ==> t[i] == s[|s| - 1]
    ensures Debounced(s + t, n) == s[|s| - 1]
    decreases |t|
  {
    if t == [] {
      assert s + t == s;
    } else {
      var u := t[..|t| - 1];
      assert s + t == (s + u) + [t[|t| - 1]];
      ConstantStays(s, u, n);
      DebouncedStep(s + u, t[|t| - 1], n);
    }
  }

  /** Between a debounced value that was just observed and the next change lie `n` states. */
  lemma {:induction false} ChangesAreApart(s: seq<ProbeState>, t: seq<ProbeState>, x: ProbeState, n: Positive)
    requires s != [] && Debounced(s, n) == s[|s| - 1]
    requires Debounced(s + t + [x], n) != Debounced(s + t, n)
    ensures |t| + 1 >= n
    ensures forall i :: |t| + 1 - n <= i < |t| ==> t[i] == x
  {
    var e := s + t;
    ChangeNeedsWindow(e, x, n);
    if |t| + 1 < n {
      forall i | 0 <= i < |t| ensures t[i] == x {
        assert t[i] == e[|s| + i];
      }
      assert e[|s| - 1] == x;
      ConstantStays(s, t, n);
      assert false;
    }
    forall i | |t| + 1 - n <= i < |t| ensures t[i] == x {
      assert t[i] == e[|s| + i];
    }
  }

  /** `n` equal states in a row decide the debounced value. */
  lemma {:induction false} WindowDecides(s: seq<ProbeState>, t: seq<ProbeState>, y: ProbeState, n: Positive)
    requires |t| >= n
    requires forall i :: 0 <= i < |t| ==> t[i] == y
    ensures Debounced(s + t, n) == y
  {
    assert LastEqual(s + t, n);
  }
}
