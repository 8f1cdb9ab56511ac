/**
 * `Common.isValidUrl`: the anchored, case-sensitive pattern
 *
 *     ^(https?://)?(([a-zA-Z0-9-]+)\.)+[a-zA-Z]{2,}(:[0-9]{1,5})?(/[^\s]*)?$
 *
 * written as a deterministic recogniser over characters (IsValidUrl), next to the
 * language of the pattern written group by group (MatchesUrlPattern), and the proof
 * that the two agree on every string.
 */
module Url {
  import opened JsString

  const HttpScheme := "http://"
  const HttpsScheme := "https://"

  predicate IsAsciiLetter(c: char) { 'A' <= c <= 'Z' || 'a' <= c <= 'z' }

  predicate IsAsciiDigit(c: char) { '0' <= c <= '9' }

  predicate IsLabelChar(c: char) { IsAsciiLetter(c) || IsAsciiDigit(c) || c == '-' }

  /** `[a-zA-Z0-9-]+` */
  predicate IsLabel(s: string) {
    |s| > 0 && forall k :: 0 <= k < |s| ==> IsLabelChar(s[k])
  }

  /** `[a-zA-Z]{2,}` */
  predicate IsTld(s: string) {
    |s| >= 2 && forall k :: 0 <= k < |s| ==> IsAsciiLetter(s[k])
  }

  // ---------------------------------------------------------------------------
  // The recogniser
  // ---------------------------------------------------------------------------

  /** Length of the `http://` or `https://` prefix of `url`, 0 when there is none. */
  function SchemeLength(url: string): (n: nat)
    ensures n <= |url|
    ensures n == 0 || n == 7 || n == 8
  {
    if HttpsScheme <= url then |HttpsScheme|
    else if HttpScheme <= url then |HttpScheme|
    else 0
  }

  /**
   * A host: a label, a dot, and then either the top-level label or another host.
   * Splitting at the first dot makes the choice deterministic.
   */
  function ValidHost(host: string): bool
    decreases |host|
  {
    var dot := FirstIndexIn(host, {'.'});
    dot < |host| && IsLabel(host[..dot])
    && (IsTld(host[dot + 1..]) || ValidHost(host[dot + 1..]))
  }

  /** The number of leading ASCII digits of `s`. */
  function DigitRun(s: string): (n: nat)
    ensures n <= |s|
    ensures forall k :: 0 <= k < n ==> IsAsciiDigit(s[k])
    ensures n < |s| ==> !IsAsciiDigit(s[n])
  {
    DigitRunFrom(s, 0)
  }

  function DigitRunFrom(s: string, from: nat): (n: nat)
    requires from <= |s|
    ensures from <= n <= |s|
    ensures forall k :: from <= k < n ==> IsAsciiDigit(s[k])
    ensures n < |s| ==> !IsAsciiDigit(s[n])
    decreases |s| - from
  {
    if from == |s| || !IsAsciiDigit(s[from]) then from else DigitRunFrom(s, from + 1)
  }

  /** What may follow the host: an optional `:` and 1 to 5 digits, then an optional `/` and no space. */
  function ValidPortAndPath(t: string): bool {
    if t == [] then true
    else if t[0] == '/' then NoSpace(t[1..])
    else if t[0] == ':' then
      var d := DigitRun(t[1..]);
      1 <= d <= 5 && (d + 1 == |t| || (t[d + 1] == '/' && NoSpace(t[d + 2..])))
    else false
  }

  /**
   * `isValidUrl(url)`. After the optional scheme the host runs up to the first `:` or
   * `/`, since neither can occur in it, so each string is parsed in exactly one way.
   */
  function IsValidUrl(url: string): bool {
    ValidAfterScheme(url[SchemeLength(url)..])
  }

  /** Host, optional port and optional path, split at the first `:` or `/`. */
  function ValidAfterScheme(rest: string): bool {
    var hostLength := FirstIndexIn(rest, {':', '/'});
    ValidHost(rest[..hostLength]) && ValidPortAndPath(rest[hostLength..])
  }

  // ---------------------------------------------------------------------------
  // The language of the pattern, group by group
  // ---------------------------------------------------------------------------

  /** `(https?://)?` */
  ghost predicate SchemeGroup(s: string) {
    s == [] || s == HttpScheme || s == HttpsScheme
  }

  /** `(([a-zA-Z0-9-]+)\.)+` */
  ghost predicate DottedLabels(s: string)
    decreases |s|
  {
    exists m :: 0 < m < |s| && s[m] == '.' && IsLabel(s[..m])
      && (m + 1 == |s| || DottedLabels(s[m + 1..]))
  }

  /** `(([a-zA-Z0-9-]+)\.)+[a-zA-Z]{2,}` */
  ghost predicate HostGroup(s: string) {
    exists n :: 0 <= n <= |s| && DottedLabels(s[..n]) && IsTld(s[n..])
  }

  /** `(:[0-9]{1,5})?` */
  ghost predicate PortGroup(s: string) {
    s == [] || (s[0] == ':' && 2 <= |s| <= 6 && forall k :: 1 <= k < |s| ==> IsAsciiDigit(s[k]))
  }

  /** `(/[^\s]*)?` */
  ghost predicate PathGroup(s: string) {
    s == [] || (s[0] == '/' && NoSpace(s[1..]))
  }

  /** The whole anchored pattern: `url` is the four groups, one after the other. */
  ghost predicate MatchesUrlPattern(url: string) {
    exists i, j, k :: 0 <= i <= j <= k <= |url| && SchemeGroup(url[..i])
      && HostGroup(url[i..j]) && PortGroup(url[j..k]) && PathGroup(url[k..])
  }

  // ---------------------------------------------------------------------------
  // The recogniser decides the pattern
  // ---------------------------------------------------------------------------

  lemma {:induction false} DottedLabelsChars(s: string)
    requires DottedLabels(s)
    ensures '.' in s
    ensures forall k :: 0 <= k < |s| ==> IsLabelChar(s[k]) || s[k] == '.'
    decreases |s|
  {
    var m :| 0 < m < |s| && s[m] == '.' && IsLabel(s[..m])
      && (m + 1 == |s| || DottedLabels(s[m + 1..]));
    if m + 1 < |s| {
      DottedLabelsChars(s[m + 1..]);
      forall k | m + 1 <= k < |s| ensures IsLabelChar(s[k]) || s[k] == '.' {
        assert s[k] == s[m + 1..][k - m - 1];
      }
    }
    forall k | 0 <= k < m ensures IsLabelChar(s[k]) {
      assert s[k] == s[..m][k];
    }
  }

  /** A host contains a dot, and nothing but label characters and dots. */
  lemma HostGroupChars(s: string)
    requires HostGroup(s)
    ensures '.' in s
    ensures forall k :: 0 <= k < |s| ==> IsLabelChar(s[k]) || s[k] == '.'
  {
    var n :| 0 <= n <= |s| && DottedLabels(s[..n]) && IsTld(s[n..]);
    DottedLabelsChars(s[..n]);
    assert s == s[..n] + s[n..];
    forall k | 0 <= k < |s| ensures IsLabelChar(s[k]) || s[k] == '.' {
      if k < n {
        assert s[k] == s[..n][k];
      } else {
        assert s[k] == s[n..][k - n];
      }
    }
  }

  lemma FirstIndexInIs(s: string, cs: set<char>, n: nat)
    requires n <= |s|
    requires forall k :: 0 <= k < n ==> s[k] !in cs
    requires n < |s| ==> s[n] in cs
    ensures FirstIndexIn(s, cs) == n
  {
  }

  lemma {:induction false} ValidHostMatches(s: string)
    requires ValidHost(s)
    ensures HostGroup(s)
    decreases |s|
  {
    var dot := FirstIndexIn(s, {'.'});
    var rest := s[dot + 1..];
    if IsTld(rest) {
      var x := s[..dot + 1];
      assert x[..dot] == s[..dot];
      assert DottedLabels(x) by {
        assert 0 < dot < |x| && x[dot] == '.' && IsLabel(x[..dot]) && dot + 1 == |x|;
      }
      assert s[dot + 1..] == rest;
      assert HostGroup(s) by {
        assert DottedLabels(s[..dot + 1]) && IsTld(s[dot + 1..]);
      }
    } else {
      ValidHostMatches(rest);
      var n' :| 0 <= n' <= |rest| && DottedLabels(rest[..n']) && IsTld(rest[n'..]);
      var n := dot + 1 + n';
      var x := s[..n];
      assert x[..dot] == s[..dot];
      assert x[dot + 1..] == rest[..n'];
      DottedLabelsChars(rest[..n']);
      assert DottedLabels(x) by {
        assert 0 < dot < |x| && x[dot] == '.' && IsLabel(x[..dot]);
        assert DottedLabels(x[dot + 1..]);
      }
      assert s[n..] == rest[n'..];
    }
  }

  lemma HostAtFirstDot(s: string, m: nat)
    requires m < |s| && s[m] == '.' && forall k :: 0 <= k < m ==> s[k] != '.'
    requires IsLabel(s[..m]) && (IsTld(s[m + 1..]) || ValidHost(s[m + 1..]))
    ensures ValidHost(s)
  {
    FirstIndexInIs(s, {'.'}, m);
  }

  lemma HostGroupAfterLabel(s: string, n: nat, m: nat)
    requires m + 1 < n <= |s| && DottedLabels(s[..n][m + 1..]) && IsTld(s[n..])
    ensures HostGroup(s[m + 1..])
  {
    var rest := s[m + 1..];
    assert rest[..n - m - 1] == s[..n][m + 1..];
    assert rest[n - m - 1..] == s[n..];
  }

  lemma {:induction false} MatchesValidHost(s: string)
    requires HostGroup(s)
    ensures ValidHost(s)
    decreases |s|
  {
    var n :| 0 <= n <= |s| && DottedLabels(s[..n]) && IsTld(s[n..]);
    var x := s[..n];
    var m :| 0 < m < |x| && x[m] == '.' && IsLabel(x[..m])
      && (m + 1 == |x| || DottedLabels(x[m + 1..]));
    assert s[..m] == x[..m];
    forall k | 0 <= k < m ensures s[k] != '.' {
      assert s[k] == x[..m][k];
    }
    if m + 1 == n {
      assert s[m + 1..] == s[n..];
    } else {
      HostGroupAfterLabel(s, n, m);
      MatchesValidHost(s[m + 1..]);
    }
    HostAtFirstDot(s, m);
  }

  /** A host never contains `:`, so a string that starts with a host does not start with a scheme. */
  lemma HostExcludesScheme(url: string, j: nat)
    requires j <= |url| && HostGroup(url[..j])
    ensures SchemeLength(url) == 0
  {
    var h := url[..j];
    HostGroupChars(h);
    var k :| 0 <= k < |h| && h[k] == '.';
    assert url[k] == '.';
    assert j > 4 ==> url[4] == h[4] != ':';
    assert j > 5 ==> url[5] == h[5] != ':';
  }

  lemma PortAndPathMatch(t: string)
    requires ValidPortAndPath(t)
    ensures exists p :: 0 <= p <= |t| && PortGroup(t[..p]) && PathGroup(t[p..])
  {
    if t == [] {
      assert PortGroup(t[..0]) && PathGroup(t[0..]);
    } else if t[0] == '/' {
      assert t[0..] == t;
      assert PortGroup(t[..0]) && PathGroup(t[0..]);
    } else {
      var d := DigitRun(t[1..]);
      var p := d + 1;
      forall k | 1 <= k < p ensures IsAsciiDigit(t[..p][k]) {
        assert t[..p][k] == t[1..][k - 1];
      }
      assert PortGroup(t[..p]);
      if p < |t| {
        assert t[p..][1..] == t[d + 2..];
      }
      assert PathGroup(t[p..]);
    }
  }

  lemma MatchPortAndPath(t: string, p: nat)
    requires p <= |t| && PortGroup(t[..p]) && PathGroup(t[p..])
    ensures ValidPortAndPath(t)
  {
    if p == 0 {
      assert t == t[p..];
    } else {
      var d := DigitRun(t[1..]);
      forall k | 0 <= k < p - 1 ensures IsAsciiDigit(t[1..][k]) {
        assert t[1..][k] == t[..p][k + 1];
      }
      if p < |t| {
        assert t[p] == t[p..][0] == '/';
        assert !IsAsciiDigit(t[1..][p - 1]);
      }
      assert d == p - 1;
      if p < |t| {
        assert t[d + 2..] == t[p..][1..];
      }
    }
  }

  /** When the pattern matches, its scheme group is the prefix the recogniser strips. */
  lemma SchemeGroupIsStripped(url: string, i: nat, j: nat)
    requires i <= j <= |url| && SchemeGroup(url[..i]) && HostGroup(url[i..j])
    ensures SchemeLength(url) == i
  {
    if i == 0 {
      assert url[..j] == url[i..j];
      HostExcludesScheme(url, j);
    } else if url[..i] == HttpScheme {
      assert HttpScheme <= url;
      assert !(HttpsScheme <= url) by {
        assert url[4] == HttpScheme[4];
      }
    } else {
      assert HttpsScheme <= url;
    }
  }

  /** The host group of a match ends where the port or path group begins, at the first `:` or `/`. */
  lemma HostGroupEndsAtDelimiter(rest: string, n: nat, p: nat)
    requires n <= p <= |rest| && HostGroup(rest[..n])
    requires PortGroup(rest[n..p]) && PathGroup(rest[p..])
    ensures FirstIndexIn(rest, {':', '/'}) == n
  {
    var host := rest[..n];
    HostGroupChars(host);
    forall q | 0 <= q < n ensures rest[q] !in {':', '/'} {
      assert rest[q] == host[q];
    }
    if n < |rest| {
      if n < p {
        assert rest[n] == rest[n..p][0];
      } else {
        assert rest[n] == rest[p..][0];
      }
    }
    FirstIndexInIs(rest, {':', '/'}, n);
  }

  lemma PortAndPathAfter(rest: string, n: nat, p: nat)
    requires n <= p <= |rest| && PortGroup(rest[n..p]) && PathGroup(rest[p..])
    ensures ValidPortAndPath(rest[n..])
  {
    var tail := rest[n..];
    assert tail[..p - n] == rest[n..p];
    assert tail[p - n..] == rest[p..];
    MatchPortAndPath(tail, p - n);
  }

  lemma AcceptedAfterScheme(rest: string, n: nat)
    requires n <= |rest| && FirstIndexIn(rest, {':', '/'}) == n
    requires ValidHost(rest[..n]) && ValidPortAndPath(rest[n..])
    ensures ValidAfterScheme(rest)
  {
  }

  lemma AfterSchemeRecognised(rest: string, n: nat, p: nat)
    requires n <= p <= |rest| && HostGroup(rest[..n])
    requires PortGroup(rest[n..p]) && PathGroup(rest[p..])
    ensures ValidAfterScheme(rest)
  {
    HostGroupEndsAtDelimiter(rest, n, p);
    MatchesValidHost(rest[..n]);
    PortAndPathAfter(rest, n, p);
    AcceptedAfterScheme(rest, n);
  }

  lemma SuffixSlices(url: string, i: nat, j: nat, k: nat)
    requires i <= j <= k <= |url|
    ensures url[i..][..j - i] == url[i..j]
    ensures url[i..][j - i..k - i] == url[j..k]
    ensures url[i..][k - i..] == url[k..]
  {
  }

  lemma DecompositionIsRecognised(url: string, i: nat, j: nat, k: nat)
    requires i <= j <= k <= |url| && SchemeGroup(url[..i])
    requires HostGroup(url[i..j]) && PortGroup(url[j..k]) && PathGroup(url[k..])
    ensures IsValidUrl(url)
  {
    SchemeGroupIsStripped(url, i, j);
    SuffixSlices(url, i, j, k);
    AfterSchemeRecognised(url[i..], j - i, k - i);
  }

  /** Completeness of the recogniser: every string of the pattern's language is accepted. */
  lemma PatternIsRecognised(url: string)
    requires MatchesUrlPattern(url)
    ensures IsValidUrl(url)
  {
    var i, j, k :| 0 <= i <= j <= k <= |url| && SchemeGroup(url[..i])
      && HostGroup(url[i..j]) && PortGroup(url[j..k]) && PathGroup(url[k..]);
    DecompositionIsRecognised(url, i, j, k);
  }

  lemma AfterSchemeMatches(rest: string) returns (n: nat, p: nat)
    requires ValidAfterScheme(rest)
    ensures n <= p <= |rest| && HostGroup(rest[..n])
    ensures PortGroup(rest[n..p]) && PathGroup(rest[p..])
  {
    n := FirstIndexIn(rest, {':', '/'});
    ValidHostMatches(rest[..n]);
    var t := rest[n..];
    PortAndPathMatch(t);
    var q :| 0 <= q <= |t| && PortGroup(t[..q]) && PathGroup(t[q..]);
    p := n + q;
    assert rest[n..p] == t[..q] && rest[p..] == t[q..];
  }

  lemma StrippedSchemeIsGroup(url: string)
    ensures SchemeGroup(url[..SchemeLength(url)])
  {
    if HttpsScheme <= url {
      assert url[..SchemeLength(url)] == HttpsScheme;
    } else if HttpScheme <= url {
      assert url[..SchemeLength(url)] == HttpScheme;
    }
  }

  lemma PatternAt(url: string, i: nat, j: nat, k: nat)
    requires i <= j <= k <= |url| && SchemeGroup(url[..i])
    requires HostGroup(url[i..j]) && PortGroup(url[j..k]) && PathGroup(url[k..])
    ensures MatchesUrlPattern(url)
  {
  }

  lemma ShiftedPattern(url: string, i: nat, n: nat, p: nat)
    requires i <= |url| && n <= p <= |url| - i && SchemeGroup(url[..i])
    requires HostGroup(url[i..][..n]) && PortGroup(url[i..][n..p]) && PathGroup(url[i..][p..])
    ensures MatchesUrlPattern(url)
  {
    SuffixSlices(url, i, i + n, i + p);
    PatternAt(url, i, i + n, i + p);
  }

  /** Soundness of the recogniser: every accepted string is in the pattern's language. */
  lemma RecognisedIsPattern(url: string)
    requires IsValidUrl(url)
    ensures MatchesUrlPattern(url)
  {
    var i := SchemeLength(url);
    StrippedSchemeIsGroup(url);
    var n, p := AfterSchemeMatches(url[i..]);
    ShiftedPattern(url, i, n, p);
  }

  /** isValidUrl accepts exactly the strings the anchored pattern matches. */
  lemma IsValidUrlDecidesPattern(url: string)
    ensures IsValidUrl(url) <==> MatchesUrlPattern(url)
  {
    if IsValidUrl(url) {
      RecognisedIsPattern(url);
    }
    if MatchesUrlPattern(url) {
      PatternIsRecognised(url);
    }
  }
}
