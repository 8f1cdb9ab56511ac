/**
 * What `isValidUrl` accepts, stated in the terms the helpers' callers rely on:
 * no white space anywhere, a host of dot-separated labels ending in a top-level
 * label of two or more letters, an optional exact and case-sensitive scheme, a port
 * of one to five digits and a path that starts with `/`. Each general lemma is
 * followed by the concrete strings it decides.
 */
module UrlFacts {
  import opened JsString
  import opened Url

  // ---------------------------------------------------------------------------
  // White space
  // ---------------------------------------------------------------------------

  lemma GroupsHaveNoSpace(url: string, i: nat, j: nat, k: nat)
    requires i <= j <= k <= |url| && SchemeGroup(url[..i])
    requires HostGroup(url[i..j]) && PortGroup(url[j..k]) && PathGroup(url[k..])
    ensures NoSpace(url)
  {
    assert NoSpace(HttpScheme) && NoSpace(HttpsScheme) by {
      assert HttpScheme == ['h', 't', 't', 'p', ':', '/', '/'];
      assert HttpsScheme == ['h', 't', 't', 'p', 's', ':', '/', '/'];
    }
    HostGroupChars(url[i..j]);
    forall t | 0 <= t < |url| ensures !IsJsSpace(url[t]) {
      if t < i {
        assert url[t] == url[..i][t];
      } else if t < j {
        assert url[t] == url[i..j][t - i];
      } else if t < k {
        assert url[t] == url[j..k][t - j];
      } else if t > k {
        assert url[t] == url[k..][1..][t - k - 1];
      }
    }
  }

  /**
   * An accepted string holds no JavaScript white space at all and has a dot in it,
   * so "not a url" and "localhost" are rejected.
   */
  lemma ValidUrlShape(url: string)
    requires IsValidUrl(url)
    ensures NoSpace(url)
    ensures '.' in url
  {
    RecognisedIsPattern(url);
    var i, j, k :| 0 <= i <= j <= k <= |url| && SchemeGroup(url[..i])
      && HostGroup(url[i..j]) && PortGroup(url[j..k]) && PathGroup(url[k..]);
    GroupsHaveNoSpace(url, i, j, k);
    HostHasDot(url, i, j);
  }

  lemma HostHasDot(url: string, i: nat, j: nat)
    requires i <= j <= |url| && HostGroup(url[i..j])
    ensures '.' in url
  {
    HostGroupChars(url[i..j]);
    var d :| 0 <= d < j - i && url[i..j][d] == '.';
    assert url[i + d] == '.';
  }

  // ---------------------------------------------------------------------------
  // The host
  // ---------------------------------------------------------------------------

  /** Two or more pieces, every piece but the last a label, the last a top-level label. */
  predicate HostParts(parts: seq<string>) {
    |parts| >= 2
    && (forall q :: 0 <= q < |parts| - 1 ==> IsLabel(parts[q]))
    && IsTld(parts[|parts| - 1])
  }

  lemma SplitWithoutSeparator(s: string, sep: char)
    requires sep !in s
    ensures Split(s, sep) == [s]
  {
    assert FirstIndexIn(s, {sep}) == |s|;
  }

  lemma HostPartsOfTwo(a: string, b: string)
    ensures HostParts([a, b]) <==> IsLabel(a) && IsTld(b)
  {
    assert [a, b][0] == a;
  }

  lemma HostPartsCons(a: string, parts: seq<string>)
    requires |parts| >= 2
    ensures HostParts([a] + parts) <==> IsLabel(a) && HostParts(parts)
  {
    var all := [a] + parts;
    assert all[0] == a;
    assert all[|all| - 1] == parts[|parts| - 1];
    if IsLabel(a) && HostParts(parts) {
      forall q | 0 <= q < |all| - 1 ensures IsLabel(all[q]) {
        if q > 0 {
          assert all[q] == parts[q - 1];
        }
      }
    }
    if HostParts(all) {
      forall q | 0 <= q < |parts| - 1 ensures IsLabel(parts[q]) {
        assert parts[q] == all[q + 1];
      }
    }
  }

  /** A host is valid exactly when splitting it at its dots gives HostParts. */
  lemma {:induction false} ValidHostIsSplit(host: string)
    ensures ValidHost(host) <==> HostParts(Split(host, '.'))
    decreases |host|
  {
    var dot := FirstIndexIn(host, {'.'});
    if dot < |host| {
      var t := host[dot + 1..];
      var head := host[..dot];
      assert Split(host, '.') == [head] + Split(t, '.');
      assert ValidHost(host) == (IsLabel(head) && (IsTld(t) || ValidHost(t)));
      if '.' in t {
        ValidHostIsSplit(t);
        var k :| 0 <= k < |t| && t[k] == '.';
        assert !IsTld(t) by { assert !IsAsciiLetter(t[k]); }
        assert Split(t, '.') != [t];
        HostPartsCons(head, Split(t, '.'));
      } else {
        SplitWithoutSeparator(t, '.');
        assert !ValidHost(t) by {
          var d := FirstIndexIn(t, {'.'});
          assert d == |t|;
        }
        assert [head] + [t] == [head, t];
        HostPartsOfTwo(head, t);
      }
    } else {
      SplitWithoutSeparator(host, '.');
    }
  }

  lemma ValidHostHasDot(host: string)
    requires ValidHost(host)
    ensures '.' in host
  {
    var dot := FirstIndexIn(host, {'.'});
    assert host[dot] == '.';
  }

  /** A label, a dot and a dot-free rest form a host exactly when the rest is a top-level label. */
  lemma TwoLabelHost(a: string, b: string)
    requires IsLabel(a) && '.' !in b
    ensures ValidHost(a + "." + b) <==> IsTld(b)
  {
    var h := a + "." + b;
    forall q | 0 <= q < |a| ensures h[q] !in {'.'} {
      assert h[q] == a[q];
    }
    assert h[|a|] == '.';
    FirstIndexInIs(h, {'.'}, |a|);
    assert h[..|a|] == a;
    assert h[|a| + 1..] == b;
    if ValidHost(b) {
      ValidHostHasDot(b);
    }
  }

  lemma ExampleComIsHost()
    ensures ValidHost("example.com")
  {
    assert IsLabel("example") && IsTld("com");
    TwoLabelHost("example", "com");
    assert "example" + "." + "com" == "example.com";
  }

  /** A one-letter top-level label is refused. */
  lemma ExampleCIsNotHost()
    ensures !ValidHost("example.c")
  {
    assert IsLabel("example");
    TwoLabelHost("example", "c");
    assert "example" + "." + "c" == "example.c";
  }

  /** A digit in the top-level label is refused. */
  lemma ExampleCom1IsNotHost()
    ensures !ValidHost("example.com1")
  {
    assert IsLabel("example") && !IsAsciiLetter("com1"[3]);
    TwoLabelHost("example", "com1");
    assert "example" + "." + "com1" == "example.com1";
  }

  // ---------------------------------------------------------------------------
  // The scheme
  // ---------------------------------------------------------------------------

  /** Only a string that begins with `h` has a scheme, so the scheme is case-sensitive. */
  lemma SchemeBeginsWithH(url: string)
    requires url == [] || url[0] != 'h'
    ensures SchemeLength(url) == 0
  {
    if url != [] {
      assert !(HttpScheme <= url) by { assert HttpScheme[0] == 'h'; }
      assert !(HttpsScheme <= url) by { assert HttpsScheme[0] == 'h'; }
    }
  }

  lemma SchemePrefixLength(v: string)
    ensures SchemeLength(HttpScheme + v) == |HttpScheme|
    ensures SchemeLength(HttpsScheme + v) == |HttpsScheme|
  {
    assert HttpsScheme <= HttpsScheme + v;
    assert !(HttpsScheme <= HttpScheme + v) by {
      assert (HttpScheme + v)[4] == ':' && HttpsScheme[4] == 's';
    }
    assert HttpScheme <= HttpScheme + v;
  }

  /**
   * The scheme is optional: putting `http://` or `https://` in front of a string that
   * has none changes nothing about whether it is accepted.
   */
  lemma SchemeIsOptional(v: string)
    requires SchemeLength(v) == 0
    ensures IsValidUrl(HttpScheme + v) == IsValidUrl(v)
    ensures IsValidUrl(HttpsScheme + v) == IsValidUrl(v)
  {
    SchemePrefixLength(v);
    assert (HttpScheme + v)[|HttpScheme|..] == v;
    assert (HttpsScheme + v)[|HttpsScheme|..] == v;
    assert v[0..] == v;
  }

  /** What follows an accepted scheme never starts with a scheme of its own. */
  lemma AcceptedRestHasNoScheme(rest: string)
    requires ValidAfterScheme(rest)
    ensures SchemeLength(rest) == 0
  {
    var n, p := AfterSchemeMatches(rest);
    HostExcludesScheme(rest, n);
  }

  /** Hence a doubled scheme is refused. */
  lemma DoubledSchemeRejected(v: string)
    ensures !IsValidUrl(HttpScheme + (HttpScheme + v))
    ensures !IsValidUrl(HttpsScheme + (HttpsScheme + v))
  {
    SchemePrefixLength(HttpScheme + v);
    SchemePrefixLength(HttpsScheme + v);
    SchemePrefixLength(v);
    var a := HttpScheme + (HttpScheme + v);
    var b := HttpsScheme + (HttpsScheme + v);
    assert a[|HttpScheme|..] == HttpScheme + v;
    assert b[|HttpsScheme|..] == HttpsScheme + v;
    if ValidAfterScheme(HttpScheme + v) {
      AcceptedRestHasNoScheme(HttpScheme + v);
    }
    if ValidAfterScheme(HttpsScheme + v) {
      AcceptedRestHasNoScheme(HttpsScheme + v);
    }
  }

  /**
   * Any other scheme, upper-case `HTTP` and dotted ones included, is refused: the text in
   * front of `://` is then taken for the host, and what follows it, `:` with no digit
   * before the `/`, is no port.
   */
  lemma OtherSchemeRejected(s: string, v: string)
    requires ':' !in s && '/' !in s
    requires SchemeLength(s + "://" + v) == 0
    ensures !IsValidUrl(s + "://" + v)
  {
    var url := s + "://" + v;
    assert url[0..] == url;
    assert FirstIndexIn(url, {':', '/'}) == |s| by {
      assert url[|s|] == ':';
      forall q | 0 <= q < |s| ensures url[q] !in {':', '/'} {
        assert url[q] == s[q];
      }
      FirstIndexInIs(url, {':', '/'}, |s|);
    }
    assert url[..|s|] == s;
    assert url[|s|..] == "://" + v;
    assert DigitRun(("://" + v)[1..]) == 0;
  }

  lemma UpperCaseSchemeRejected()
    ensures !IsValidUrl("HTTP://example.com")
  {
    assert "HTTP://example.com" == "HTTP" + "://" + "example.com";
    SchemeBeginsWithH("HTTP://example.com");
    OtherSchemeRejected("HTTP", "example.com");
  }

  // ---------------------------------------------------------------------------
  // Port and path
  // ---------------------------------------------------------------------------

  /** After a valid host and no scheme, acceptance depends on the port and path part alone. */
  lemma HostThenSuffix(host: string, t: string)
    requires ValidHost(host)
    requires t == [] || t[0] == ':' || t[0] == '/'
    ensures IsValidUrl(host + t) == ValidPortAndPath(t)
  {
    var url := host + t;
    ValidHostMatches(host);
    HostGroupChars(host);
    assert url[..|host|] == host;
    HostExcludesScheme(url, |host|);
    assert url[0..] == url;
    forall q | 0 <= q < |host| ensures url[q] !in {':', '/'} {
      assert url[q] == host[q];
    }
    FirstIndexInIs(url, {':', '/'}, |host|);
    assert url[|host|..] == t;
  }

  lemma DigitRunIs(s: string, n: nat)
    requires n <= |s|
    requires forall k :: 0 <= k < n ==> IsAsciiDigit(s[k])
    requires n < |s| ==> !IsAsciiDigit(s[n])
    ensures DigitRun(s) == n
  {
  }

  /** A port is one to five digits, with or without a path after it. */
  lemma {:induction false} PortIsOneToFiveDigits(digits: string, path: string)
    requires forall k :: 0 <= k < |digits| ==> IsAsciiDigit(digits[k])
    ensures ValidPortAndPath(":" + digits) <==> 1 <= |digits| <= 5
    ensures ValidPortAndPath(":" + digits + "/" + path) <==> 1 <= |digits| <= 5 && NoSpace(path)
  {
    var a := ":" + digits;
    var b := ":" + digits + "/" + path;
    assert a[1..] == digits;
    DigitRunIs(digits, |digits|);
    assert b[1..] == digits + "/" + path;
    DigitRunIs(digits + "/" + path, |digits|) by {
      forall k | 0 <= k < |digits| ensures IsAsciiDigit((digits + "/" + path)[k]) {
        assert (digits + "/" + path)[k] == digits[k];
      }
    }
    assert b[|digits| + 1] == '/';
    assert b[|digits| + 2..] == path;
  }

  lemma ExampleComIsValid()
    ensures IsValidUrl("example.com")
  {
    ExampleComIsHost();
    assert "example.com" + [] == "example.com";
    HostThenSuffix("example.com", []);
  }

  lemma LocalhostRejected()
    ensures !IsValidUrl("localhost")
  {
    if IsValidUrl("localhost") {
      ValidUrlShape("localhost");
    }
  }

  /** A single white-space character anywhere makes a string no URL. */
  lemma SpaceRejected(url: string, t: nat)
    requires t < |url| && IsJsSpace(url[t])
    ensures !IsValidUrl(url)
  {
    if IsValidUrl(url) {
      ValidUrlShape(url);
    }
  }

  lemma NotAUrlRejected()
    ensures !IsValidUrl("not a url")
  {
    SpaceRejected("not a url", 3);
  }

  lemma HostOnly(host: string)
    requires SchemeLength(host) == 0 && ':' !in host && '/' !in host
    ensures IsValidUrl(host) == ValidHost(host)
  {
    assert host[0..] == host;
    assert FirstIndexIn(host, {':', '/'}) == |host|;
    assert host[..|host|] == host;
  }

  lemma ShortTopLevelRejected()
    ensures !IsValidUrl("example.c")
  {
    SchemeBeginsWithH("example.c");
    HostOnly("example.c");
    ExampleCIsNotHost();
  }

  lemma DigitInTopLevelRejected()
    ensures !IsValidUrl("example.com1")
  {
    SchemeBeginsWithH("example.com1");
    HostOnly("example.com1");
    ExampleCom1IsNotHost();
  }

  lemma Port8080WithPath()
    ensures ValidPortAndPath(":8080/path")
  {
    assert IsAsciiDigit('8') && IsAsciiDigit('0');
    PortIsOneToFiveDigits("8080", "path");
    assert ":" + "8080" + "/" + "path" == ":8080/path";
  }

  lemma PortAndPathAfterHost()
    ensures IsValidUrl("example.com:8080/path")
  {
    ExampleComIsHost();
    Port8080WithPath();
    assert "example.com" + ":8080/path" == "example.com:8080/path";
    HostThenSuffix("example.com", ":8080/path");
  }

  lemma PortAndPathAccepted()
    ensures IsValidUrl("https://example.com:8080/path")
  {
    var v := "example.com:8080/path";
    assert HttpsScheme + v == "https://example.com:8080/path";
    PortAndPathAfterHost();
    SchemeBeginsWithH(v);
    SchemeIsOptional(v);
  }

  lemma SixDigitPort()
    ensures !ValidPortAndPath(":123456")
  {
    PortIsOneToFiveDigits("123456", "");
    assert ":" + "123456" == ":123456";
  }

  lemma SixDigitPortRejected()
    ensures !IsValidUrl("example.com:123456")
  {
    ExampleComIsHost();
    SixDigitPort();
    assert "example.com" + ":123456" == "example.com:123456";
    HostThenSuffix("example.com", ":123456");
  }

  lemma EmptyPortRejected()
    ensures !IsValidUrl("example.com:")
  {
    ExampleComIsHost();
    PortIsOneToFiveDigits("", "");
    assert "example.com" + (":" + "") == "example.com:";
    HostThenSuffix("example.com", ":" + "");
  }
}
