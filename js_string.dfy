/**
 * The few JavaScript string operations the helpers rely on, over `seq<char>`:
 * the `\s` character class, `String.prototype.trimEnd` and `String.prototype.indexOf`
 * for a one-character pattern.
 */
module JsString {

  /**
   * The WhiteSpace and LineTerminator code points of ECMA-262: TAB, VT, FF, ZWNBSP,
   * every code point of Unicode category Zs, LF, CR, LS and PS. This is the set the
   * regular-expression class `\s` matches and the set TrimString removes.
   */
  predicate IsJsSpace(c: char) {
    c == '\t' || c == '\U{000B}' || c == '\U{000C}' || c == '\U{FEFF}'
    || c == ' ' || c == '\U{00A0}' || c == '\U{1680}' || ('\U{2000}' <= c <= '\U{200A}')
    || c == '\U{202F}' || c == '\U{205F}' || c == '\U{3000}'
    || c == '\n' || c == '\r' || c == '\U{2028}' || c == '\U{2029}'
  }

  predicate NoSpace(s: string) {
    forall k :: 0 <= k < |s| ==> !IsJsSpace(s[k])
  }

  predicate NoTrailingSpace(s: string) {
    s == [] || !IsJsSpace(s[|s| - 1])
  }

  /**
   * `s.trimEnd()`: TrimString with end-only trimming. The result is the prefix of `s`
   * left once every trailing space is removed.
   */
  function TrimEnd(s: string): (r: string)
    ensures r <= s
    ensures NoTrailingSpace(r)
    ensures forall k :: |r| <= k < |s| ==> IsJsSpace(s[k])
    decreases |s|
  {
    if s != [] && IsJsSpace(s[|s| - 1]) then TrimEnd(s[..|s| - 1]) else s
  }

  /**
   * The three properties in TrimEnd's contract determine its result: any prefix of `s`
   * without trailing space whose removed tail is all space is `TrimEnd(s)`.
   */
  lemma TrimEndUnique(s: string, p: string)
    requires p <= s && NoTrailingSpace(p)
    requires forall k :: |p| <= k < |s| ==> IsJsSpace(s[k])
    ensures p == TrimEnd(s)
  {
    var r := TrimEnd(s);
    assert |p| == |r|;
    assert p == s[..|p|] == r;
  }

  /** A string without trailing space is its own `trimEnd`, so trimming is idempotent. */
  lemma TrimEndKeeps(s: string)
    requires NoTrailingSpace(s)
    ensures TrimEnd(s) == s
  {
    TrimEndUnique(s, s);
  }

  /** Trimming only ever looks at the end: text in front of a kept prefix is kept as well. */
  lemma {:induction false} TrimEndAppend(a: string, b: string)
    requires TrimEnd(b) != []
    ensures TrimEnd(a + b) == a + TrimEnd(b)
  {
    var r := TrimEnd(b);
    assert r <= b;
    var p := a + r;
    assert p <= a + b by {
      assert (a + b)[..|p|] == a + b[..|r|];
    }
    assert p[|p| - 1] == r[|r| - 1];
    forall k | |p| <= k < |a + b| ensures IsJsSpace((a + b)[k]) {
      assert (a + b)[k] == b[k - |a|];
    }
    TrimEndUnique(a + b, p);
  }

  /** The index of the first character of `s` that is in `cs`, or `|s|` when there is none. */
  function FirstIndexIn(s: string, cs: set<char>): (n: nat)
    ensures n <= |s|
    ensures forall k :: 0 <= k < n ==> s[k] !in cs
    ensures n < |s| ==> s[n] in cs
  {
    FirstIndexFrom(s, cs, 0)
  }

  /** The index of the first character of `s` at or after `from` that is in `cs`, or `|s|`. */
  function FirstIndexFrom(s: string, cs: set<char>, from: nat): (n: nat)
    requires from <= |s|
    ensures from <= n <= |s|
    ensures forall k :: from <= k < n ==> s[k] !in cs
    ensures n < |s| ==> s[n] in cs
    decreases |s| - from
  {
    if from == |s| || s[from] in cs then from else FirstIndexFrom(s, cs, from + 1)
  }

  /** `s.indexOf(c)` for a one-character pattern: the first position of `c`, or -1. */
  function IndexOf(s: string, c: char): (i: int)
    ensures -1 <= i < |s|
    ensures i == -1 <==> c !in s
    ensures 0 <= i ==> s[i] == c && c !in s[..i]
  {
    var n := FirstIndexIn(s, {c});
    if n == |s| then -1 else n
  }

  /** `s.split(sep)` for a one-character separator: the pieces between separators, in order. */
  function Split(s: string, sep: char): (parts: seq<string>)
    ensures |parts| >= 1
    ensures forall q :: 0 <= q < |parts| ==> sep !in parts[q]
    decreases |s|
  {
    var n := FirstIndexIn(s, {sep});
    if n == |s| then [s] else [s[..n]] + Split(s[n + 1..], sep)
  }
}
