/** Leftmost, non-overlapping replacement, as regexp.ReplaceAllString does it: for any matcher, part
    of every match is replaced by a placeholder and the scan goes on behind the match. */
module Rewriter {

  /** A match at the head of a string: `[from..end)` is the part to replace. */
  datatype Match = NoMatch | Match(from: nat, end: nat)

  /** Matches are not empty and lie within the string. */
  ghost predicate Proper(m: string -> Match) {
    forall u :: m(u).Match? ==> 1 <= m(u).end && m(u).from <= m(u).end <= |u|
  }

  /** A match that starts at `start`; `[from..to)` is what is replaced. */
  datatype Cut = Cut(start: nat, from: nat, to: nat)

  /** The scan: the cuts made in `s` from position `i` on. */
  function Cuts(m: string -> Match, s: string, i: nat): seq<Cut>
    requires i <= |s| && Proper(m)
    decreases |s| - i
  {
    if i == |s| then []
    else if m(s[i..]).Match? then [Cut(i, i + m(s[i..]).from, i + m(s[i..]).end)] + Cuts(m, s, i + m(s[i..]).end)
    else Cuts(m, s, i + 1)
  }

  /** The cuts are in order, do not overlap, and start at or after `i`. */
  predicate InOrder(s: string, i: nat, cuts: seq<Cut>)
    decreases |cuts|
  {
    if cuts == [] then i <= |s|
    else i <= cuts[0].start <= cuts[0].from <= cuts[0].to <= |s| && InOrder(s, cuts[0].to, cuts[1..])
  }

  /** `s` from `i` on with the cuts replaced by the placeholder. */
  function Splice(placeholder: string, s: string, i: nat, cuts: seq<Cut>): string
    requires InOrder(s, i, cuts)
    decreases |cuts|
  {
    if cuts == [] then s[i..]
    else s[i..cuts[0].from] + placeholder + Splice(placeholder, s, cuts[0].to, cuts[1..])
  }

  ghost predicate NoMatchIn(m: string -> Match, s: string, lo: nat, hi: nat)
    requires hi <= |s|
  {
    forall p {:trigger m(s[p..])} :: lo <= p < hi ==> !m(s[p..]).Match?
  }

  /** What leftmost and non-overlapping means: each cut belongs to a match, and no match starts
      between the end of one and the start of the next, nor after the last. */
  ghost predicate LeftmostCuts(m: string -> Match, s: string, i: nat, cuts: seq<Cut>)
    requires InOrder(s, i, cuts)
    decreases |cuts|
  {
    if cuts == [] then NoMatchIn(m, s, i, |s|)
    else
      var c := cuts[0];
      && NoMatchIn(m, s, i, c.start)
      && m(s[c.start..]) == Match(c.from - c.start, c.to - c.start)
      && LeftmostCuts(m, s, c.to, cuts[1..])
  }

  lemma {:induction false} StartEarlier(m: string -> Match, s: string, i: nat, cuts: seq<Cut>)
    requires i < |s| && InOrder(s, i + 1, cuts) && LeftmostCuts(m, s, i + 1, cuts) && !m(s[i..]).Match?
    ensures InOrder(s, i, cuts) && LeftmostCuts(m, s, i, cuts)
  {
  }

  lemma {:induction false} OneCutEarlier(m: string -> Match, s: string, i: nat, rest: seq<Cut>)
    requires i < |s| && m(s[i..]).Match? && i + m(s[i..]).end <= |s| && m(s[i..]).from <= m(s[i..]).end
    requires InOrder(s, i + m(s[i..]).end, rest) && LeftmostCuts(m, s, i + m(s[i..]).end, rest)
    ensures var cuts := [Cut(i, i + m(s[i..]).from, i + m(s[i..]).end)] + rest;
            InOrder(s, i, cuts) && LeftmostCuts(m, s, i, cuts)
  {
    var c := Cut(i, i + m(s[i..]).from, i + m(s[i..]).end);
    assert ([c] + rest)[0] == c && ([c] + rest)[1..] == rest;
  }

  /** The scan finds the leftmost cuts. */
  lemma {:induction false} ScanIsLeftmost(m: string -> Match, s: string, i: nat)
    requires i <= |s| && Proper(m)
    ensures InOrder(s, i, Cuts(m, s, i)) && LeftmostCuts(m, s, i, Cuts(m, s, i))
    decreases |s| - i
  {
    if i == |s| {
    } else {
      if m(s[i..]).Match? {
        ScanIsLeftmost(m, s, i + m(s[i..]).end);
        OneCutEarlier(m, s, i, Cuts(m, s, i + m(s[i..]).end));
      } else {
        ScanIsLeftmost(m, s, i + 1);
        StartEarlier(m, s, i, Cuts(m, s, i + 1));
      }
    }
  }

  lemma {:induction false} FirstCutIsAMatch(m: string -> Match, s: string, i: nat, cuts: seq<Cut>)
    requires InOrder(s, i, cuts) && LeftmostCuts(m, s, i, cuts) && Proper(m) && cuts != []
    ensures i <= cuts[0].start < |s| && m(s[cuts[0].start..]).Match?
  {
    assert m(s[cuts[0].start..]).end <= |s[cuts[0].start..]|;
  }

  /** There is only one way to be leftmost and non-overlapping. */
  lemma {:induction false} LeftmostIsUnique(m: string -> Match, s: string, i: nat, a: seq<Cut>, b: seq<Cut>)
    requires Proper(m)
    requires InOrder(s, i, a) && LeftmostCuts(m, s, i, a)
    requires InOrder(s, i, b) && LeftmostCuts(m, s, i, b)
    ensures a == b
    decreases |a|
  {
    if a != [] { FirstCutIsAMatch(m, s, i, a); }
    if b != [] { FirstCutIsAMatch(m, s, i, b); }
    if a != [] && b != [] {
      assert a[0].start == b[0].start;
      LeftmostIsUnique(m, s, a[0].to, a[1..], b[1..]);
      assert a == [a[0]] + a[1..] && b == [b[0]] + b[1..];
    }
  }

  /** What a match starting inside another one would replace is replaced by that other one. */
  ghost predicate Covering(m: string -> Match) {
    forall u, d: nat {:trigger m(u), m(u[d..])} :: d <= |u| && m(u).Match? && d < m(u).end && m(u[d..]).Match? ==>
      m(u).from <= d + m(u[d..]).from && d + m(u[d..]).end <= m(u).end
  }

  ghost predicate Replaced(cuts: seq<Cut>, from: nat, to: nat) {
    exists k :: 0 <= k < |cuts| && cuts[k].from <= from && to <= cuts[k].to
  }

  /** Everything that matches anywhere in the input is replaced, not only what the scan matched. */
  lemma {:induction false} EveryMatchIsReplaced(m: string -> Match, s: string, i: nat, cuts: seq<Cut>, p: nat)
    requires InOrder(s, i, cuts) && LeftmostCuts(m, s, i, cuts) && Covering(m)
    requires i <= p < |s| && m(s[p..]).Match?
    ensures Replaced(cuts, p + m(s[p..]).from, p + m(s[p..]).end)
    decreases |cuts|
  {
    assert cuts != [];
    var c := cuts[0];
    assert p >= c.start;
    if p < c.to {
      var u := s[c.start..];
      assert u[p - c.start..] == s[p..];
    } else {
      EveryMatchIsReplaced(m, s, c.to, cuts[1..], p);
      var k :| 0 <= k < |cuts[1..]| && cuts[1..][k].from <= p + m(s[p..]).from && p + m(s[p..]).end <= cuts[1..][k].to;
      assert cuts[k + 1] == cuts[1..][k];
    }
  }

  /** Nothing else is replaced: every cut belongs to a match. */
  lemma {:induction false} EveryCutIsAMatch(m: string -> Match, s: string, i: nat, cuts: seq<Cut>, k: nat)
    requires InOrder(s, i, cuts) && LeftmostCuts(m, s, i, cuts) && k < |cuts|
    ensures var c := cuts[k];
            c.start <= c.from <= c.to <= |s| && m(s[c.start..]) == Match(c.from - c.start, c.to - c.start)
    decreases |cuts|
  {
    if k == 0 {
    } else {
      EveryCutIsAMatch(m, s, cuts[0].to, cuts[1..], k - 1);
    }
  }

  // ---------- from left to right ----------

  /** The rewriting itself, from left to right: what a match keeps, the placeholder, and the rest behind
      the match; where nothing matches, the character. */
  function Rewritten(m: string -> Match, placeholder: string, s: string): string
    requires Proper(m)
    decreases |s|
  {
    if s == [] then []
    else if m(s).Match? then s[..m(s).from] + placeholder + Rewritten(m, placeholder, s[m(s).end..])
    else [s[0]] + Rewritten(m, placeholder, s[1..])
  }

  /** Cutting and splicing rewrites from left to right. */
  lemma {:induction false} SpliceIsRewritten(m: string -> Match, placeholder: string, s: string, i: nat)
    requires i <= |s| && Proper(m) && InOrder(s, i, Cuts(m, s, i))
    ensures Splice(placeholder, s, i, Cuts(m, s, i)) == Rewritten(m, placeholder, s[i..])
    decreases |s| - i
  {
    var u := s[i..];
    if i == |s| {
    } else if m(u).Match? {
      var cuts, e := Cuts(m, s, i), i + m(u).end;
      SpliceIsRewritten(m, placeholder, s, e) by { assert cuts[1..] == Cuts(m, s, e); }
      assert cuts[1..] == Cuts(m, s, e) && u[m(u).end..] == s[e..];
      assert s[i..cuts[0].from] == u[..m(u).from];
    } else {
      ScanIsLeftmost(m, s, i + 1);
      SpliceIsRewritten(m, placeholder, s, i + 1);
      SpliceEarlier(placeholder, s, i, Cuts(m, s, i + 1));
      assert u[1..] == s[i + 1..];
    }
  }

  lemma {:induction false} SpliceEarlier(placeholder: string, s: string, i: nat, cuts: seq<Cut>)
    requires i < |s| && InOrder(s, i + 1, cuts) && InOrder(s, i, cuts)
    ensures Splice(placeholder, s, i, cuts) == [s[i]] + Splice(placeholder, s, i + 1, cuts)
  {
    if cuts != [] { assert s[i..cuts[0].from] == [s[i]] + s[i + 1..cuts[0].from]; }
  }

  /** Two texts with matches that keep the same, and rests that are rewritten to the same. */
  lemma {:induction false} SameAtMatch(m: string -> Match, placeholder: string, s: string, s': string)
    requires Proper(m) && m(s).Match? && m(s').Match? && m(s).from == m(s').from && s[..m(s).from] == s'[..m(s).from]
    requires Rewritten(m, placeholder, s[m(s).end..]) == Rewritten(m, placeholder, s'[m(s').end..])
    ensures Rewritten(m, placeholder, s) == Rewritten(m, placeholder, s')
  {
  }

  lemma {:induction false} SameWithoutMatch(m: string -> Match, placeholder: string, s: string, s': string)
    requires Proper(m) && s != [] && s' != [] && s[0] == s'[0] && !m(s).Match? && !m(s').Match?
    requires Rewritten(m, placeholder, s[1..]) == Rewritten(m, placeholder, s'[1..])
    ensures Rewritten(m, placeholder, s) == Rewritten(m, placeholder, s')
  {
  }

  lemma {:induction false} RewrittenAtMatch(m: string -> Match, placeholder: string, p: string, q: string, z: string)
    requires Proper(m) && m(p + q + z) == Match(|p|, |p| + |q|)
    ensures Rewritten(m, placeholder, p + q + z) == p + placeholder + Rewritten(m, placeholder, z)
  {
    var s := p + q + z;
    assert s[..|p|] == p && s[|p| + |q|..] == z;
  }

  lemma {:induction false} KeptCharacter(m: string -> Match, placeholder: string, u: string)
    requires Proper(m) && u != [] && !m(u).Match?
    ensures Rewritten(m, placeholder, u) == [u[0]] + Rewritten(m, placeholder, u[1..])
  {
  }

  lemma {:induction false} SplitHead(s: string, j: nat, i: nat, rest: string)
    requires j < i <= |s|
    ensures s[j..][1..] == s[j + 1..] && s[j..][0] == s[j]
    ensures [s[j]] + (s[j + 1..i] + rest) == s[j..i] + rest
  {
  }

  /** Where nothing matches, the text is kept. */
  lemma {:induction false} KeptWhereNothingMatches(m: string -> Match, placeholder: string, s: string, j: nat, i: nat)
    requires Proper(m) && j <= i <= |s| && NoMatchIn(m, s, j, i)
    ensures Rewritten(m, placeholder, s[j..]) == s[j..i] + Rewritten(m, placeholder, s[i..])
    decreases i - j
  {
    if j == i {
      assert s[j..i] == [];
    } else {
      KeptWhereNothingMatches(m, placeholder, s, j + 1, i);
      KeptCharacter(m, placeholder, s[j..]);
      SplitHead(s, j, i, Rewritten(m, placeholder, s[i..]));
    }
  }
}
