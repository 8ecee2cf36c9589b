/** The URL-query rewriter of pkg/redact/redact.go. Strings are sequences of characters. */
module Redact {
  import opened Rewriter

  const PLACEHOLDER: string := "<redacted>"

  /** `\s` of the regular expression: tab, newline, form feed, carriage return, space. */
  predicate IsSpace(c: char) {
    c == '\t' || c == '\n' || c == '\U{0C}' || c == '\r' || c == ' '
  }

  /** What a query may consist of. */
  predicate IsQueryChar(c: char) {
    !IsSpace(c) && c != '"' && c != '\'' && c != '<' && c != '>'
  }

  /** What the part between the scheme and the question mark may consist of. */
  predicate IsHostChar(c: char) {
    IsQueryChar(c) && c != '?'
  }

  function HostLength(u: string): (n: nat)
    ensures n <= |u|
    ensures forall i :: 0 <= i < n ==> IsHostChar(u[i])
    ensures n < |u| ==> !IsHostChar(u[n])
  {
    if u == [] || !IsHostChar(u[0]) then 0 else 1 + HostLength(u[1..])
  }

  function QueryLength(u: string): (n: nat)
    ensures n <= |u|
    ensures forall i :: 0 <= i < n ==> IsQueryChar(u[i])
    ensures n < |u| ==> !IsQueryChar(u[n])
  {
    if u == [] || !IsQueryChar(u[0]) then 0 else 1 + QueryLength(u[1..])
  }

  /** The length of `http://` or `https://` at the head of `u`, 0 if there is neither. */
  function SchemeLength(u: string): (k: nat)
    ensures k <= |u| && k in {0, 7, 8}
    ensures forall i :: 0 <= i < k ==> IsHostChar(u[i])
    ensures k > 0 ==> u[0] == 'h'
  {
    if |u| >= 7 && u[0] == 'h' && u[1] == 't' && u[2] == 't' && u[3] == 'p' then
      if u[4] == ':' && u[5] == '/' && u[6] == '/' then 7
      else if |u| >= 8 && u[4] == 's' && u[5] == ':' && u[6] == '/' && u[7] == '/' then 8
      else 0
    else 0
  }

  /** A URL with a query at the head of a string; its query is what is to be replaced. */
  function UrlQuery(u: string): (m: Match)
    ensures m.Match? ==> 9 <= m.from <= m.end <= |u|
  {
    var k := SchemeLength(u);
    if k == 0 then NoMatch
    else
      var q := k + HostLength(u[k..]);
      if q > k && q < |u| && u[q] == '?' then Match(q + 1, q + 1 + QueryLength(u[q + 1..]))
      else NoMatch
  }

  function Text(s: string): string {
    ScanIsLeftmost(UrlQuery, s, 0);
    Splice(PLACEHOLDER, s, 0, Cuts(UrlQuery, s, 0))
  }

  // ---------- what decides a match ----------

  /** A string that is scheme, one or more host characters, and a question mark. */
  predicate IsUrlHead(p: string) {
    var k := SchemeLength(p);
    && k > 0 && |p| >= k + 2 && p[|p| - 1] == '?'
    && forall i :: k <= i < |p| - 1 ==> IsHostChar(p[i])
  }

  lemma {:induction false} SchemeOfPrefix(u: string, n: nat)
    requires 9 <= n <= |u|
    ensures SchemeLength(u[..n]) == SchemeLength(u)
  {
  }

  /** What precedes the query of a match is a URL head. */
  lemma {:induction false} MatchHasHead(u: string)
    requires UrlQuery(u).Match?
    ensures IsUrlHead(u[..UrlQuery(u).from])
    ensures UrlQuery(u).end == UrlQuery(u).from + QueryLength(u[UrlQuery(u).from..])
  {
    var k, q := SchemeLength(u), UrlQuery(u).from;
    SchemeOfPrefix(u, q);
    forall i | k <= i < q - 1 ensures IsHostChar(u[..q][i]) {
      assert u[k..][i - k] == u[i];
    }
  }

  /** A URL head makes a match, whatever follows it. */
  lemma {:induction false} HeadMakesMatch(u: string, q: nat)
    requires q <= |u| && IsUrlHead(u[..q])
    ensures UrlQuery(u).Match? && UrlQuery(u).from == q
  {
    var k, p := SchemeLength(u), u[..q];
    SchemeOfPrefix(u, q);
    HostLengthIs(u[k..], q - 1 - k) by {
      assert forall i :: 0 <= i < q - 1 - k ==> u[k..][i] == p[k + i];
      assert u[k..][q - 1 - k] == p[q - 1];
    }
  }

  lemma {:induction false} HostLengthIs(u: string, n: nat)
    requires n < |u| && (forall i :: 0 <= i < n ==> IsHostChar(u[i])) && !IsHostChar(u[n])
    ensures HostLength(u) == n
  {
    if n == 0 {
    } else {
      HostLengthIs(u[1..], n - 1);
    }
  }

  /** The facts about a matcher that the rest needs. */
  ghost predicate MatchesUrls(m: string -> Match, head: string -> bool) {
    && (forall u :: m(u).Match? ==> 2 <= m(u).from <= m(u).end <= |u|)
    && (forall u :: m(u).Match? ==> head(u[..m(u).from]) && m(u).end == m(u).from + QueryLength(u[m(u).from..]))
    && (forall u, q: nat {:trigger head(u[..q])} :: q <= |u| && head(u[..q]) ==> m(u).Match? && m(u).from == q)
    && (forall p :: head(p) ==> |p| >= 2 && p[0] == 'h' && p[|p| - 1] == '?')
    && (forall p, i {:trigger head(p), p[i]} :: head(p) && 0 <= i < |p| - 1 ==> IsHostChar(p[i]))
  }

  lemma {:induction false} UrlQueryMatchesUrls()
    ensures MatchesUrls(UrlQuery, IsUrlHead)
  {
    forall u | UrlQuery(u).Match?
      ensures IsUrlHead(u[..UrlQuery(u).from])
      ensures UrlQuery(u).end == UrlQuery(u).from + QueryLength(u[UrlQuery(u).from..])
    {
      MatchHasHead(u);
    }
    forall u, q: nat | q <= |u| && IsUrlHead(u[..q]) ensures UrlQuery(u).Match? && UrlQuery(u).from == q {
      HeadMakesMatch(u, q);
    }
  }

  /** All of a match consists of query characters; before the question mark, of host characters. */
  lemma {:induction false} MatchChars(m: string -> Match, head: string -> bool, u: string)
    requires MatchesUrls(m, head) && m(u).Match?
    ensures forall i :: 0 <= i < m(u).from - 1 ==> IsHostChar(u[i])
    ensures u[m(u).from - 1] == '?' && u[0] == 'h'
    ensures forall i :: 0 <= i < m(u).end ==> IsQueryChar(u[i])
    ensures m(u).end < |u| ==> !IsQueryChar(u[m(u).end])
  {
    var q, e := m(u).from, m(u).end;
    var p, r := u[..q], u[q..];
    assert head(p);
    assert forall i :: 0 <= i < q ==> p[i] == u[i];
    assert forall i :: 0 <= i < |r| ==> r[i] == u[q + i];
    forall i | 0 <= i < e ensures IsQueryChar(u[i]) {
      if i >= q { assert r[i - q] == u[i]; }
    }
  }

  /** A match that starts inside another one: its query lies within the other's. */
  lemma {:induction false} OverlapIsCovered(m: string -> Match, head: string -> bool, u: string, d: nat)
    requires MatchesUrls(m, head) && d <= |u| && m(u).Match? && d < m(u).end && m(u[d..]).Match?
    ensures m(u).from <= d + m(u[d..]).from && d + m(u[d..]).end <= m(u).end
  {
    var v := u[d..];
    MatchChars(m, head, u);
    MatchChars(m, head, v);
    var q, e, q', e' := m(u).from, m(u).end, m(v).from, m(v).end;
    assert v[q' - 1] == u[d + q' - 1];
    assert forall i :: 0 <= i < |v| ==> v[i] == u[d + i];
  }

  // ---------- every query is replaced ----------

  lemma {:induction false} UrlQueryIsCovering()
    ensures Covering(UrlQuery)
  {
    UrlQueryMatchesUrls();
    forall u, d: nat | d <= |u| && UrlQuery(u).Match? && d < UrlQuery(u).end && UrlQuery(u[d..]).Match?
      ensures UrlQuery(u).from <= d + UrlQuery(u[d..]).from && d + UrlQuery(u[d..]).end <= UrlQuery(u).end
    {
      OverlapIsCovered(UrlQuery, IsUrlHead, u, d);
    }
  }

  /** Every query character of every URL in the input is replaced. */
  lemma {:induction false} EveryQueryIsReplaced(s: string, p: nat)
    requires p < |s| && UrlQuery(s[p..]).Match?
    ensures Replaced(Cuts(UrlQuery, s, 0), p + UrlQuery(s[p..]).from, p + UrlQuery(s[p..]).end)
  {
    UrlQueryIsCovering();
    ScanIsLeftmost(UrlQuery, s, 0);
    EveryMatchIsReplaced(UrlQuery, s, 0, Cuts(UrlQuery, s, 0), p);
  }

  /** Only queries of URLs are replaced, each by one placeholder, leftmost first. */
  lemma {:induction false} OnlyQueriesAreReplaced(s: string, k: nat)
    requires k < |Cuts(UrlQuery, s, 0)|
    ensures var c := Cuts(UrlQuery, s, 0)[k];
            c.start <= c.from <= c.to <= |s| && UrlQuery(s[c.start..]) == Match(c.from - c.start, c.to - c.start)
  {
    ScanIsLeftmost(UrlQuery, s, 0);
    EveryCutIsAMatch(UrlQuery, s, 0, Cuts(UrlQuery, s, 0), k);
  }

  /** A string without a URL that has a query is unchanged. */
  lemma {:induction false} TextWithoutQueriesIsUnchanged(s: string)
    requires forall p :: 0 <= p < |s| ==> UrlQuery(s[p..]) == NoMatch
    ensures Text(s) == s
  {
    ScanIsLeftmost(UrlQuery, s, 0);
    var cuts := Cuts(UrlQuery, s, 0);
    if cuts != [] {
      OnlyQueriesAreReplaced(s, 0);
      assert false;
    }
  }

  // ---------- in plain characters ----------

  /** White space, quotes and angle brackets: what neither a URL nor its query contains. */
  predicate IsDelimiter(c: char) {
    c in "\t\n\U{0C}\r \"'<>"
  }

  predicate IsScheme(p: string) {
    p == "http://" || p == "https://"
  }

  /** What stands between the scheme and the question mark. */
  predicate IsHost(x: string) {
    x != [] && forall i :: 0 <= i < |x| ==> !IsDelimiter(x[i]) && x[i] != '?'
  }

  predicate IsQuery(q: string) {
    forall i :: 0 <= i < |q| ==> !IsDelimiter(q[i])
  }

  /** What can follow a whole query. */
  predicate EndsQuery(z: string) {
    z == [] || IsDelimiter(z[0])
  }

  lemma {:induction false} QueryCharsAre(c: char)
    ensures IsQueryChar(c) <==> !IsDelimiter(c)
  {
    var d := "\t\n\U{0C}\r \"'<>";
    assert d == ['\t', '\n', '\U{0C}', '\r', ' ', '"', '\'', '<', '>'];
    assert d[0] == '\t' && d[1] == '\n' && d[2] == '\U{0C}' && d[3] == '\r' && d[4] == ' ';
    assert d[5] == '"' && d[6] == '\'' && d[7] == '<' && d[8] == '>';
  }

  lemma {:induction false} HostCharsAre(x: string)
    ensures IsHost(x) <==> x != [] && forall i :: 0 <= i < |x| ==> IsHostChar(x[i])
    ensures IsQuery(x) <==> forall i :: 0 <= i < |x| ==> IsQueryChar(x[i])
  {
    forall i | 0 <= i < |x| ensures IsQueryChar(x[i]) <==> !IsDelimiter(x[i]) {
      QueryCharsAre(x[i]);
    }
  }

  /** A scheme, a host and a question mark are a URL head. */
  lemma {:induction false} UrlIsHead(scheme: string, x: string)
    requires IsScheme(scheme) && IsHost(x)
    ensures IsUrlHead(scheme + x + "?")
  {
    var p, k := scheme + x + "?", |scheme|;
    HostCharsAre(x);
    assert p[..k] == scheme;
    assert forall i :: 0 <= i < k ==> p[i] == scheme[i];
    assert SchemeLength(p) == k;
    assert forall i :: 0 <= i < |x| ==> p[k + i] == x[i];
  }

  /** And every URL head is one. */
  lemma {:induction false} HeadIsUrl(p: string) returns (scheme: string, x: string)
    requires IsUrlHead(p)
    ensures IsScheme(scheme) && IsHost(x) && p == scheme + x + "?"
  {
    var k := SchemeLength(p);
    scheme, x := p[..k], p[k..|p| - 1];
    assert scheme == if k == 7 then "http://" else "https://";
    HostCharsAre(x);
  }

  /** The query of every http and https URL in a text, up to the next delimiter or the end, is replaced,
      whatever comes before it. */
  lemma {:induction false} QueryOfUrlIsReplaced(a: string, scheme: string, x: string, q: string, z: string)
    requires IsScheme(scheme) && IsHost(x) && IsQuery(q) && EndsQuery(z)
    ensures var s, from := a + (scheme + x + "?") + q + z, |a| + |scheme| + |x| + 1;
            Replaced(Cuts(UrlQuery, s, 0), from, from + |q|)
  {
    var p := scheme + x + "?";
    var s := a + p + q + z;
    UrlIsHead(scheme, x);
    var u := s[|a|..];
    assert u == p + (q + z) && u[..|p|] == p && u[|p|..] == q + z;
    HeadMakesMatch(u, |p|);
    MatchHasHead(u);
    QueryLengthIs(q, z);
    EveryQueryIsReplaced(s, |a|);
  }

  lemma {:induction false} QueryLengthIs(q: string, z: string)
    requires IsQuery(q) && EndsQuery(z)
    ensures QueryLength(q + z) == |q|
  {
    if q == [] {
      assert q + z == z;
      if z != [] { QueryCharsAre(z[0]); }
    } else {
      QueryCharsAre(q[0]);
      QueryLengthIs(q[1..], z);
      assert (q + z)[1..] == q[1..] + z;
    }
  }

  /** The query of a match: no delimiter in it, and a delimiter or the end behind it. */
  lemma {:induction false} QueryIsWhole(r: string)
    ensures IsQuery(r[..QueryLength(r)]) && EndsQuery(r[QueryLength(r)..])
  {
    var n := QueryLength(r);
    HostCharsAre(r[..n]);
    if n < |r| {
      assert r[n..][0] == r[n];
      QueryCharsAre(r[n]);
    }
  }

  lemma {:induction false} SliceOfRest(s: string, i: nat, f: nat, e: nat)
    requires i <= f <= e <= |s|
    ensures s[i..][..f - i] == s[i..f] && s[i..][f - i..e - i] == s[f..e] && s[i..][e - i..] == s[e..]
  {
  }

  /** A match is a scheme, a host, a question mark, and a whole query. */
  lemma {:induction false} MatchIsUrl(u: string, f: nat, e: nat) returns (scheme: string, x: string)
    requires f <= e <= |u| && UrlQuery(u) == Match(f, e)
    ensures IsScheme(scheme) && IsHost(x) && u[..f] == scheme + x + "?"
    ensures IsQuery(u[f..e]) && EndsQuery(u[e..])
  {
    MatchHasHead(u);
    QueryIsWhole(u[f..]);
    assert u[f..][..e - f] == u[f..e] && u[f..][e - f..] == u[e..];
    scheme, x := HeadIsUrl(u[..f]);
  }

  lemma {:induction false} CutIsUrl(s: string, c: Cut) returns (scheme: string, x: string)
    requires c.start <= c.from <= c.to <= |s| && UrlQuery(s[c.start..]) == Match(c.from - c.start, c.to - c.start)
    ensures IsScheme(scheme) && IsHost(x) && s[c.start..c.from] == scheme + x + "?"
    ensures IsQuery(s[c.from..c.to]) && EndsQuery(s[c.to..])
  {
    SliceOfRest(s, c.start, c.from, c.to);
    scheme, x := MatchIsUrl(s[c.start..], c.from - c.start, c.to - c.start);
  }

  /** Nothing else is: what is replaced follows a scheme, a host and a question mark, and is all that
      follows them up to the next delimiter or the end. */
  lemma {:induction false} WhatIsReplacedIsAQuery(s: string, k: nat) returns (scheme: string, x: string)
    requires k < |Cuts(UrlQuery, s, 0)|
    ensures var c := Cuts(UrlQuery, s, 0)[k];
            && c.start <= c.from <= c.to <= |s|
            && IsScheme(scheme) && IsHost(x) && s[c.start..c.from] == scheme + x + "?"
            && IsQuery(s[c.from..c.to]) && EndsQuery(s[c.to..])
  {
    OnlyQueriesAreReplaced(s, k);
    scheme, x := CutIsUrl(s, Cuts(UrlQuery, s, 0)[k]);
  }

  // ---------- what is logged does not depend on the query ----------

  lemma {:induction false} TextIsRewritten(s: string)
    ensures Text(s) == Rewritten(UrlQuery, "<redacted>", s)
  {
    ScanIsLeftmost(UrlQuery, s, 0);
    SpliceIsRewritten(UrlQuery, PLACEHOLDER, s, 0);
    assert s[0..] == s;
  }

  /** A text up to a question mark decides whether and where a URL head begins it. */
  lemma {:induction false} SameHead(m: string -> Match, head: string -> bool, b: string, r: string, r': string)
    requires MatchesUrls(m, head) && b != [] && b[|b| - 1] == '?' && m(b + r).Match?
    ensures m(b + r).from <= |b| && m(b + r').Match? && m(b + r').from == m(b + r).from
  {
    var f := m(b + r).from;
    MatchChars(m, head, b + r);
    assert (b + r)[|b| - 1] == '?';
    assert f <= |b|;
    assert (b + r)[..f] == b[..f] == (b + r')[..f];
    assert head((b + r')[..f]);
  }

  /** How far a query reaches: to a delimiter in what is known, else through it. */
  lemma {:induction false} QueryReaches(b: string, r: string)
    ensures QueryLength(b) < |b| ==> QueryLength(b + r) == QueryLength(b)
    ensures QueryLength(b) == |b| ==> QueryLength(b + r) == |b| + QueryLength(r)
  {
    if b == [] {
      assert b + r == r;
    } else {
      assert (b + r)[1..] == b[1..] + r;
      QueryReaches(b[1..], r);
    }
  }

  /** Where the query of a match ends whose head lies in `b`. */
  lemma {:induction false} QueryEnd(m: string -> Match, head: string -> bool, b: string, r: string)
    requires MatchesUrls(m, head) && m(b + r).Match? && m(b + r).from <= |b|
    ensures var f := m(b + r).from;
            var n := QueryLength(b[f..]);
            m(b + r).end == if n < |b| - f then f + n else |b| + QueryLength(r)
  {
    var f := m(b + r).from;
    assert (b + r)[f..] == b[f..] + r;
    QueryReaches(b[f..], r);
  }

  lemma {:induction false} DelimiterIsBefore(m: string -> Match, head: string -> bool, a: string, p: string, e: nat)
    requires MatchesUrls(m, head) && head(p) && e < |a + p| && !IsQueryChar((a + p)[e])
    ensures e < |a|
  {
  }

  lemma {:induction false} HeadMatches(m: string -> Match, head: string -> bool, p: string, r: string)
    requires MatchesUrls(m, head) && head(p)
    ensures m(p + r).Match? && p != [] && p[|p| - 1] == '?'
  {
    assert (p + r)[..|p|] == p;
  }

  lemma {:induction false} Shift(a: string, p: string, r: string, e: nat)
    requires e <= |a|
    ensures (a + p + r)[e..] == a[e..] + p + r
  {
  }

  lemma {:induction false} SamePrefix(b: string, r: string, r': string, f: nat)
    requires f <= |b|
    ensures (b + r)[..f] == (b + r')[..f]
  {
  }

  /** The places where the two texts go on: both in `a`, or both at `z`. */
  lemma {:induction false} GoesOnAlike(m: string -> Match, head: string -> bool, a: string, p: string, q: string,
                                       z: string)
    requires MatchesUrls(m, head) && head(p) && IsQuery(q) && EndsQuery(z)
    requires m(a + p + (q + z)).Match? && m(a + p + z).Match?
    requires m(a + p + (q + z)).from == m(a + p + z).from <= |a + p|
    ensures var e, e' := m(a + p + (q + z)).end, m(a + p + z).end;
            || (2 <= e == e' < |a|)
            || (e == |a + p + q| && e' == |a + p|)
  {
    var b, f := a + p, m(a + p + z).from;
    QueryEnd(m, head, b, q + z);
    QueryEnd(m, head, b, z);
    QueryLengthIs(q, z);
    QueryLengthIs([], z);
    assert [] + z == z;
    var n := QueryLength(b[f..]);
    if n < |b| - f {
      assert b[f..][n] == b[f + n];
      DelimiterIsBefore(m, head, a, p, f + n);
    }
  }

  /** Both texts go on alike behind their matches. */
  lemma {:induction false} RestsAreAlike(m: string -> Match, head: string -> bool, placeholder: string, a: string,
                                         p: string, q: string, z: string, e: nat, e': nat)
    requires MatchesUrls(m, head) && Proper(m) && head(p) && IsQuery(q) && EndsQuery(z)
    requires (2 <= e == e' < |a|) || (e == |a + p + q| && e' == |a + p|)
    ensures Rewritten(m, placeholder, (a + p + (q + z))[e..]) == Rewritten(m, placeholder, (a + p + z)[e'..])
    decreases |a|, 0
  {
    if e < |a| {
      Shift(a, p, q + z, e);
      Shift(a, p, z, e);
      QueryDoesNotMatter(m, head, placeholder, a[e..], p, q, z);
    } else {
      assert (a + p + (q + z))[e..] == z && (a + p + z)[e'..] == z;
    }
  }

  lemma {:induction false} AlikeAtMatch(m: string -> Match, head: string -> bool, placeholder: string, a: string,
                                        p: string, q: string, z: string)
    requires MatchesUrls(m, head) && Proper(m) && head(p) && IsQuery(q) && EndsQuery(z)
    requires m(a + p + (q + z)).Match? && (a + p)[|a + p| - 1] == '?'
    ensures Rewritten(m, placeholder, a + p + (q + z)) == Rewritten(m, placeholder, a + p + z)
    decreases |a|, 1
  {
    var b := a + p;
    var s, s' := b + (q + z), b + z;
    SameHead(m, head, b, q + z, z);
    GoesOnAlike(m, head, a, p, q, z);
    RestsAreAlike(m, head, placeholder, a, p, q, z, m(s).end, m(s').end);
    SamePrefix(b, q + z, z, m(s).from);
    SameAtMatch(m, placeholder, s, s');
  }

  /** If the one text has no match at its head, the other has none either. */
  lemma {:induction false} NoMatchInEither(m: string -> Match, head: string -> bool, a: string, p: string, r: string,
                                           r': string)
    requires MatchesUrls(m, head) && head(p) && !m(a + p + r).Match?
    ensures a != [] && !m(a + p + r').Match?
  {
    HeadMatches(m, head, p, r);
    assert [] + p == p;
    if m(a + p + r').Match? { SameHead(m, head, a + p, r', r); }
  }

  /** Behind a URL, before the next delimiter, nothing matters. */
  lemma {:induction false} QueryDoesNotMatter(m: string -> Match, head: string -> bool, placeholder: string, a: string,
                                              p: string, q: string, z: string)
    requires MatchesUrls(m, head) && Proper(m) && head(p) && IsQuery(q) && EndsQuery(z)
    ensures Rewritten(m, placeholder, a + p + (q + z)) == Rewritten(m, placeholder, a + p + z)
    decreases |a|, 2
  {
    if m(a + p + (q + z)).Match? {
      HeadMatches(m, head, p, q + z);
      AlikeAtMatch(m, head, placeholder, a, p, q, z);
    } else {
      NoMatchInEither(m, head, a, p, q + z, z);
      Shift(a, p, q + z, 1);
      Shift(a, p, z, 1);
      QueryDoesNotMatter(m, head, placeholder, a[1..], p, q, z);
      SameWithoutMatch(m, placeholder, a + p + (q + z), a + p + z);
    }
  }

  lemma {:induction false} UrlQueryIsProper()
    ensures Proper(UrlQuery)
  {
  }

  /** What is logged says nothing of the query of any URL: it is what would be logged without it. */
  lemma {:induction false} QueryIsHidden(a: string, scheme: string, x: string, q: string, z: string)
    requires IsScheme(scheme) && IsHost(x) && IsQuery(q) && EndsQuery(z)
    ensures Text(a + (scheme + x + "?") + (q + z)) == Text(a + (scheme + x + "?") + z)
  {
    var p := scheme + x + "?";
    UrlIsHead(scheme, x);
    UrlQueryMatchesUrls();
    UrlQueryIsProper();
    QueryDoesNotMatter(UrlQuery, IsUrlHead, "<redacted>", a, p, q, z);
    TextIsRewritten(a + p + (q + z));
    TextIsRewritten(a + p + z);
  }

  /** A URL at the head of a text, its query and what follows it. */
  lemma {:induction false} MatchOfUrl(scheme: string, x: string, q: string, z: string)
    requires IsScheme(scheme) && IsHost(x) && IsQuery(q) && EndsQuery(z)
    ensures var p := scheme + x + "?"; UrlQuery(p + q + z) == Match(|p|, |p| + |q|)
  {
    var p := scheme + x + "?";
    var u := p + q + z;
    UrlIsHead(scheme, x);
    assert u[..|p|] == p && u[|p|..] == q + z;
    HeadMakesMatch(u, |p|);
    MatchHasHead(u);
    QueryLengthIs(q, z);
  }

  /** The first URL of a text, exactly: it keeps its scheme, host and question mark, then comes the
      placeholder, and the text goes on at the delimiter. */
  lemma {:induction false} FirstUrlOfText(a: string, scheme: string, x: string, q: string, z: string)
    requires IsScheme(scheme) && IsHost(x) && IsQuery(q) && EndsQuery(z)
    requires NoMatchIn(UrlQuery, a + (scheme + x + "?" + q + z), 0, |a|)
    ensures Text(a + (scheme + x + "?" + q + z)) == a + (scheme + x + "?" + "<redacted>" + Text(z))
  {
    var u := scheme + x + "?" + q + z;
    UrlQueryIsProper();
    MatchOfUrl(scheme, x, q, z);
    RewrittenAtMatch(UrlQuery, "<redacted>", scheme + x + "?", q, z);
    KeptWhereNothingMatches(UrlQuery, "<redacted>", a + u, 0, |a|);
    assert (a + u)[0..] == a + u && (a + u)[..|a|] == a && (a + u)[|a|..] == u;
    TextIsRewritten(a + u);
    TextIsRewritten(z);
  }

  // ---------- the output has no query left ----------

  /** A match at the head of `u`, if there is one, has an empty query, directly followed by the placeholder. */
  predicate Clean(m: string -> Match, u: string) {
    m(u).Match? ==> m(u).end == m(u).from <= |u| && PLACEHOLDER <= u[m(u).from..]
  }

  lemma {:induction false} Pieces(a: string, b: string, c: string, j: nat)
    requires j <= |a + b + c|
    ensures j < |a| ==> (a + b + c)[j..] == a[j..] + b + c
    ensures |a| <= j < |a| + |b| ==> (a + b + c)[j..] == (b + c)[j - |a|..]
    ensures |a| + |b| <= j ==> (a + b + c)[j..] == c[j - |a| - |b|..]
    ensures b <= b + c
  {
  }

  /** The placeholder ends a URL head: it cannot be part of one. */
  lemma {:induction false} HeadEndsBeforePlaceholder(m: string -> Match, head: string -> bool, t: string, a: nat)
    requires MatchesUrls(m, head) && m(t).Match? && a <= |t| && PLACEHOLDER <= t[a..]
    ensures m(t).from <= a
    ensures m(t).from == a ==> m(t).end == a
  {
    MatchChars(m, head, t);
    assert t[a] == t[a..][0] == '<';
  }

  /** The placeholder itself contains no match. */
  lemma {:induction false} NoMatchInPlaceholder(m: string -> Match, head: string -> bool, j: nat, rest: string)
    requires MatchesUrls(m, head) && j < |PLACEHOLDER|
    ensures !m((PLACEHOLDER + rest)[j..]).Match?
  {
    var v := (PLACEHOLDER + rest)[j..];
    assert v[0] == PLACEHOLDER[j] != 'h';
    if m(v).Match? {
      MatchChars(m, head, v);
    }
  }

  lemma {:induction false} KeptPrefix(s: string, p: nat, to: nat, b: string, c: string, f: nat)
    requires p <= to <= |s| && f <= to - p
    ensures (s[p..to] + b + c)[..f] == s[p..][..f]
  {
  }

  /** What is kept before a placeholder has a match at `p` only if the input has one there. */
  lemma {:induction false} MatchIsInInput(m: string -> Match, head: string -> bool, s: string, p: nat, to: nat,
                                          rest: string)
    requires MatchesUrls(m, head) && p <= to <= |s| && m(s[p..to] + PLACEHOLDER + rest).Match?
    ensures var f := m(s[p..to] + PLACEHOLDER + rest).from;
            f <= to - p && m(s[p..]).Match? && m(s[p..]).from == f
  {
    var v := s[p..to] + PLACEHOLDER + rest;
    Pieces(s[p..to], PLACEHOLDER, rest, to - p);
    HeadEndsBeforePlaceholder(m, head, v, to - p) by {
      assert PLACEHOLDER + rest == (PLACEHOLDER + rest)[0..];
    }
    KeptPrefix(s, p, to, PLACEHOLDER, rest, m(v).from);
    assert head(v[..m(v).from]);
  }

  /** A match that starts inside a match, before its query, has the same query. */
  lemma {:induction false} NestedHasSameQuery(m: string -> Match, head: string -> bool, u: string, d: nat)
    requires MatchesUrls(m, head) && m(u).Match? && d < m(u).from && m(u[d..]).Match? && d + m(u[d..]).from <= m(u).from
    ensures d + m(u[d..]).from == m(u).from
  {
    MatchChars(m, head, u);
    MatchChars(m, head, u[d..]);
    assert u[d..][m(u[d..]).from - 1] == u[d + m(u[d..]).from - 1];
  }

  /** `c` is the first cut from `i` on. */
  ghost predicate FirstCut(m: string -> Match, s: string, i: nat, c: Cut) {
    && i <= c.start <= c.from <= c.to <= |s| && NoMatchIn(m, s, i, c.start)
    && m(s[c.start..]) == Match(c.from - c.start, c.to - c.start)
  }

  /** The kept part before a cut is clean. */
  lemma {:induction false} KeptIsClean(m: string -> Match, head: string -> bool, s: string, i: nat, c: Cut,
                                       p: nat, rest: string, v: string)
    requires MatchesUrls(m, head) && FirstCut(m, s, i, c)
    requires i <= p < c.from && v == s[p..c.from] + PLACEHOLDER + rest
    ensures Clean(m, v)
  {
    if m(v).Match? {
      MatchIsInInput(m, head, s, p, c.from, rest);
      assert p >= c.start;
      assert s[c.start..][p - c.start..] == s[p..];
      NestedHasSameQuery(m, head, s[c.start..], p - c.start);
      Pieces(s[p..c.from], PLACEHOLDER, rest, c.from - p);
      assert v[c.from - p..] == PLACEHOLDER + rest;
      HeadEndsBeforePlaceholder(m, head, v, c.from - p);
    }
  }

  lemma {:induction false} TailIsClean(m: string -> Match, head: string -> bool, s: string, i: nat, j: nat)
    requires MatchesUrls(m, head) && i + j <= |s| && NoMatchIn(m, s, i, |s|)
    ensures Clean(m, s[i..][j..])
  {
    var v := s[i + j..];
    assert s[i..][j..] == v;
    if m(v).Match? { MatchChars(m, head, v); }
  }

  lemma {:induction false} KeptTail(s: string, i: nat, j: nat, from: nat, rest: string)
    requires i + j < from <= |s|
    ensures (s[i..from] + PLACEHOLDER + rest)[j..] == s[i + j..from] + PLACEHOLDER + rest
  {
    Pieces(s[i..from], PLACEHOLDER, rest, j);
    assert s[i..from][j..] == s[i + j..from];
  }

  lemma {:induction false} PlaceholderIsClean(m: string -> Match, head: string -> bool, kept: string, j: nat,
                                              rest: string, v: string)
    requires MatchesUrls(m, head) && |kept| <= j < |kept| + |PLACEHOLDER| && v == (kept + PLACEHOLDER + rest)[j..]
    ensures Clean(m, v)
  {
    Pieces(kept, PLACEHOLDER, rest, j);
    NoMatchInPlaceholder(m, head, j - |kept|, rest);
  }

  lemma {:induction false} StepIsClean(m: string -> Match, head: string -> bool, s: string, i: nat, c: Cut,
                                       j: nat, rest: string, v: string)
    requires MatchesUrls(m, head) && FirstCut(m, s, i, c)
    requires j < c.from - i + |PLACEHOLDER| && v == (s[i..c.from] + PLACEHOLDER + rest)[j..]
    ensures Clean(m, v)
  {
    if i + j < c.from {
      KeptTail(s, i, j, c.from, rest);
      KeptIsClean(m, head, s, i, c, i + j, rest, v);
    } else {
      PlaceholderIsClean(m, head, s[i..c.from], j, rest, v);
    }
  }

  /** What follows position `j` of a splice: part of its first step, or of what comes after that. */
  lemma {:induction false} SpliceTail(s: string, i: nat, cuts: seq<Cut>, j: nat, rest: string)
    requires InOrder(s, i, cuts) && cuts != [] && j <= |Splice(PLACEHOLDER, s, i, cuts)|
    requires rest == Splice(PLACEHOLDER, s, cuts[0].to, cuts[1..])
    ensures var n := cuts[0].from - i + |PLACEHOLDER|;
            Splice(PLACEHOLDER, s, i, cuts)[j..] ==
            if j < n then (s[i..cuts[0].from] + PLACEHOLDER + rest)[j..]
            else if j - n <= |rest| then rest[j - n..] else []
    ensures j <= cuts[0].from - i + |PLACEHOLDER| + |rest|
  {
    Pieces(s[i..cuts[0].from], PLACEHOLDER, rest, j);
  }

  lemma {:induction false} SpliceIsClean(m: string -> Match, head: string -> bool, s: string, i: nat, cuts: seq<Cut>,
                                         j: nat, v: string)
    requires MatchesUrls(m, head) && InOrder(s, i, cuts) && LeftmostCuts(m, s, i, cuts)
    requires j <= |Splice(PLACEHOLDER, s, i, cuts)| && v == Splice(PLACEHOLDER, s, i, cuts)[j..]
    ensures Clean(m, v)
    decreases |cuts|
  {
    if cuts == [] {
      TailIsClean(m, head, s, i, j);
    } else {
      var n, rest := cuts[0].from - i + |PLACEHOLDER|, Splice(PLACEHOLDER, s, cuts[0].to, cuts[1..]);
      SpliceTail(s, i, cuts, j, rest);
      if j < n {
        StepIsClean(m, head, s, i, cuts[0], j, rest, v);
      } else {
        SpliceIsClean(m, head, s, cuts[0].to, cuts[1..], j - n, v);
      }
    }
  }

  /** Every URL with a query anywhere in the output has an empty query and then the placeholder. */
  lemma {:induction false} OutputHasNoQueries(s: string, j: nat)
    requires j <= |Text(s)| && UrlQuery(Text(s)[j..]).Match?
    ensures var v := Text(s)[j..];
            UrlQuery(v).end == UrlQuery(v).from && PLACEHOLDER <= v[UrlQuery(v).from..]
  {
    UrlQueryMatchesUrls();
    ScanIsLeftmost(UrlQuery, s, 0);
    SpliceIsClean(UrlQuery, IsUrlHead, s, 0, Cuts(UrlQuery, s, 0), j, Text(s)[j..]);
  }

  // ---------- key=value pairs ----------

  function IndexOfEquals(s: string): (i: nat)
    ensures i <= |s|
  {
    if s == [] then 0 else if s[0] == '=' then 0 else 1 + IndexOfEquals(s[1..])
  }

  /** `sensitive` is the key-name pattern. */
  function Value(sensitive: string -> bool, s: string): string {
    var i := IndexOfEquals(s);
    if 0 < i < |s| && sensitive(s[..i]) then s[..i + 1] + PLACEHOLDER else Text(s)
  }

  /** The first equals sign of `s` comes right after `key`, or there is none in `s`, which is `key`. */
  lemma {:induction false} IndexOfFirstEquals(s: string, key: string)
    requires '=' !in key && key <= s && (s == key || s[|key|] == '=')
    ensures IndexOfEquals(s) == |key|
  {
    if key == [] {
    } else {
      IndexOfFirstEquals(s[1..], key[1..]);
    }
  }

  /** What is logged for a sensitive key says nothing of its value; everything else, with or without
      an equals sign, is treated as text. */
  lemma {:induction false} SensitiveValueIsHidden(sensitive: string -> bool, s: string, key: string)
    requires '=' !in key && key <= s && (s == key || s[|key|] == '=')
    ensures Value(sensitive, s) ==
            if s != key && key != [] && sensitive(key) then key + ['='] + PLACEHOLDER else Text(s)
  {
    IndexOfFirstEquals(s, key);
    assert s[..|key|] == key;
    assert s != key ==> s[..|key| + 1] == key + ['='];
  }

  // ---------- which keys are sensitive ----------

  /** Letters of either case are alike, and so are the two other characters that fold to `s` and `k`. */
  function Fold(c: char): char {
    if 'A' <= c <= 'Z' then ((c as int) + 32) as char
    else if c == '\U{017F}' then 's'
    else if c == '\U{212A}' then 'k'
    else c
  }

  function FoldAll(s: string): (t: string)
    ensures |t| == |s|
    ensures forall i :: 0 <= i < |s| ==> t[i] == Fold(s[i])
  {
    seq(|s|, i requires 0 <= i < |s| => Fold(s[i]))
  }

  /** The words that make a key sensitive. */
  const SENSITIVE_WORDS: seq<string> :=
    ["sas", "token", "secret", "password", "passwd", "pwd", "credential"]
    + WithSeparator("connection", "string") + WithSeparator("account", "key")
    + WithSeparator("api", "key") + WithSeparator("access", "key")

  function WithSeparator(a: string, b: string): seq<string> {
    [a + b, a + "_" + b, a + "-" + b]
  }

  /** The key-name pattern: one of the words somewhere in the key, in letters of either case. */
  predicate IsSensitive(key: string) {
    exists i, j :: 0 <= i <= j <= |key| && FoldAll(key[i..j]) in SENSITIVE_WORDS
  }

  /** One of the words, written out. */
  predicate IsSensitiveWord(w: string) {
    || w == "sas" || w == "token" || w == "secret" || w == "password" || w == "passwd" || w == "pwd"
    || w == "credential"
    || w == "connectionstring" || w == "connection_string" || w == "connection-string"
    || w == "accountkey" || w == "account_key" || w == "account-key"
    || w == "apikey" || w == "api_key" || w == "api-key"
    || w == "accesskey" || w == "access_key" || w == "access-key"
  }

  lemma {:induction false} SensitiveWordsAre(w: string)
    ensures w in SENSITIVE_WORDS <==> IsSensitiveWord(w)
  {
    Separated("connection", "string", "connectionstring", "connection_string", "connection-string");
    Separated("account", "key", "accountkey", "account_key", "account-key");
    Separated("api", "key", "apikey", "api_key", "api-key");
    Separated("access", "key", "accesskey", "access_key", "access-key");
  }

  lemma {:induction false} Separated(a: string, b: string, x: string, y: string, z: string)
    requires a + b == x && a + "_" + b == y && a + "-" + b == z
    ensures WithSeparator(a, b) == [x, y, z]
  {
  }

  /** A character counts as a small letter exactly if it is that letter, its capital, or the one other
      character that folds to it; as anything else exactly if it is that. */
  lemma {:induction false} FoldIs(c: char, x: char)
    requires !('A' <= x <= 'Z') && x != '\U{017F}' && x != '\U{212A}'
    ensures Fold(c) == x <==>
            || c == x || ('a' <= x <= 'z' && c as int == x as int - 32)
            || (x == 's' && c == '\U{017F}') || (x == 'k' && c == '\U{212A}')
  {
  }

  /** What is logged for a key with one of the words in it, whatever the case of its letters, whatever
      stands around it and whatever its value: the key and the placeholder. */
  lemma {:induction false} ValueOfSensitiveKeyIsHidden(a: string, w: string, b: string, value: string)
    requires IsSensitiveWord(FoldAll(w)) && '=' !in a + w + b
    ensures Value(IsSensitive, a + w + b + "=" + value) == a + w + b + "=" + "<redacted>"
  {
    var key := a + w + b;
    SensitiveWordsAre(FoldAll(w));
    assert key[|a|..|a| + |w|] == w;
    assert IsSensitive(key);
    assert w != [];
    SensitiveValueIsHidden(IsSensitive, key + "=" + value, key);
  }

  /** And only such a key hides its value: any other string is treated as text. */
  lemma {:induction false} OtherKeysAreText(key: string, value: string)
    requires '=' !in key
    requires forall i, j :: 0 <= i <= j <= |key| ==> !IsSensitiveWord(FoldAll(key[i..j]))
    ensures Value(IsSensitive, key + "=" + value) == Text(key + "=" + value)
  {
    if IsSensitive(key) {
      var i, j :| 0 <= i <= j <= |key| && FoldAll(key[i..j]) in SENSITIVE_WORDS;
      SensitiveWordsAre(FoldAll(key[i..j]));
    }
    SensitiveValueIsHidden(IsSensitive, key + "=" + value, key);
  }

  /** Every element is redacted, in a fresh sequence. */
  method Slice(sensitive: string -> bool, values: seq<string>) returns (redacted: seq<string>)
    ensures |redacted| == |values|
    ensures forall k :: 0 <= k < |values| ==> redacted[k] == Value(sensitive, values[k])
  {
    redacted := [];
    for i := 0 to |values|
      invariant |redacted| == i
      invariant forall k :: 0 <= k < i ==> redacted[k] == Value(sensitive, values[k])
    {
      redacted := redacted + [Value(sensitive, values[i])];
    }
  }
}
