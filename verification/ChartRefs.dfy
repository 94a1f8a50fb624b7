/** The two references of a mirrored Helm chart: where it is pushed to, and where
    it is downloaded from. */
module ChartRefs {
  import opened Options
  import opened Text

  // -------------------------------------------------------------- destination

  datatype Chart = Chart(registry: string, repo: string, name: string, version: string)

  const PREFIX := "charts"
  const SLASH := "/"
  const COLON := ":"

  function ChartDestination(c: Chart): string
  {
    c.registry + SLASH + PREFIX + SLASH + c.repo + SLASH + c.name + COLON + c.version
  }

  predicate Without(s: string, c: char)
  {
    c !in s
  }

  function Split(s: string): (parts: seq<string>)
    ensures |parts| > 0 && forall i :: 0 <= i < |parts| ==> Without(parts[i], '/')
  {
    if s == "" then [""]
    else if s[0] == '/' then [""] + Split(s[1..])
    else var rest := Split(s[1..]); [[s[0]] + rest[0]] + rest[1..]
  }

  function Join(parts: seq<string>): string
  {
    if parts == [] then ""
    else if |parts| == 1 then parts[0]
    else parts[0] + SLASH + Join(parts[1..])
  }

  lemma {:induction false} JoinSplit(s: string)
    ensures Join(Split(s)) == s
  {
    if s != "" {
      JoinSplit(s[1..]);
      var rest := Split(s[1..]);
      if s[0] == '/' {
        assert Split(s)[1..] == rest;
        assert s == "" + SLASH + s[1..];
      } else {
        assert Split(s)[1..] == rest[1..];
        assert s == [s[0]] + s[1..];
        if |rest| > 1 {
          assert Join(Split(s)) == [s[0]] + rest[0] + SLASH + Join(rest[1..]);
        }
      }
    }
  }

  lemma {:induction false} SplitPlain(s: string)
    requires Without(s, '/')
    ensures Split(s) == [s]
  {
    if s != "" {
      SplitPlain(s[1..]);
      assert s == [s[0]] + s[1..];
    }
  }

  lemma SplitFirst(c: char, front: seq<string>, back: seq<string>)
    requires front != []
    ensures [[c] + (front + back)[0]] + (front + back)[1..] == [[c] + front[0]] + front[1..] + back
    ensures [""] + (front + back) == [""] + front + back
  {
  }

  lemma {:induction false} SplitConcat(a: string, b: string)
    ensures Split(a + SLASH + b) == Split(a) + Split(b)
  {
    var s := a + SLASH + b;
    if a == "" {
      assert s[1..] == b;
    } else {
      SplitConcat(a[1..], b);
      assert s[1..] == a[1..] + SLASH + b && s[0] == a[0];
      SplitFirst(a[0], Split(a[1..]), Split(b));
    }
  }

  /** What a chart of this registry, repository and name is split into. */
  function Path(c: Chart): string
  {
    c.registry + SLASH + PREFIX + SLASH + c.repo + SLASH + c.name
  }

  /** What can be told apart again: no slash in the repository and the chart
      name, a version that is not empty and has no slash and no colon. */
  predicate Printable(c: Chart)
  {
    && Without(c.repo, '/') && Without(c.name, '/')
    && c.version != "" && Without(c.version, '/') && Without(c.version, ':')
  }

  lemma SplitFour(a: string, p: string, r: string, n: string)
    requires Without(p, '/') && Without(r, '/') && Without(n, '/')
    ensures Split(a + SLASH + p + SLASH + r + SLASH + n) == Split(a) + [p, r, n]
  {
    SplitPlain(p);
    SplitPlain(r);
    SplitPlain(n);
    SplitConcat(a, p);
    SplitConcat(a + SLASH + p, r);
    SplitConcat(a + SLASH + p + SLASH + r, n);
  }

  lemma PathParts(c: Chart)
    requires Without(c.repo, '/') && Without(c.name, '/')
    ensures Split(Path(c)) == Split(c.registry) + [PREFIX, c.repo, c.name]
  {
    SplitFour(c.registry, PREFIX, c.repo, c.name);
  }

  /** The version stands behind the last colon. */
  lemma VersionSplit(c: Chart)
    requires Without(c.version, ':')
    ensures LastIndex(ChartDestination(c), COLON) == |Path(c)|
    ensures ChartDestination(c)[..|Path(c)|] == Path(c) && ChartDestination(c)[|Path(c)| + 1..] == c.version
  {
    var d := ChartDestination(c);
    assert d == Path(c) + COLON + c.version;
    forall k ensures At(d, COLON, k) <==> 0 <= k < |d| && d[k] == ':' { AtChar(d, ':', k); }
    forall k | k > |Path(c)| ensures !At(d, COLON, k)
    {
      if k < |d| { assert d[k] == c.version[k - |Path(c)| - 1]; }
    }
    LastIndexIs(d, COLON, |Path(c)|);
  }

  lemma DestinationInjective(c: Chart, e: Chart)
    requires Printable(c) && Printable(e) && ChartDestination(c) == ChartDestination(e)
    ensures c == e
  {
    VersionSplit(c);
    VersionSplit(e);
    PathParts(c);
    PathParts(e);
    var p, q := Split(c.registry), Split(e.registry);
    var all := Split(Path(c));
    assert all[..|p|] == p && all[..|q|] == q;
    JoinSplit(c.registry);
    JoinSplit(e.registry);
    assert all[|p| + 1] == c.repo && all[|p| + 2] == c.name;
  }

  /** The chart read off at a charts segment. */
  function ChartAt(parts: seq<string>, idx: nat, version: string): Chart
    requires idx + 2 < |parts|
  {
    Chart(Join(parts[..idx]), parts[idx + 1], parts[idx + 2], version)
  }

  lemma ChartAtOwn(c: Chart)
    requires Printable(c)
    ensures var parts := Split(Path(c)); var n := |Split(c.registry)|;
      1 <= n && n + 2 < |parts| && parts[n] == PREFIX && ChartAt(parts, n, c.version) == c
  {
    PathParts(c);
    JoinSplit(c.registry);
    assert Split(Path(c))[..|Split(c.registry)|] == Split(c.registry);
  }

  /** ParseChartDestination: succeeds on exactly the destinations of printable
      charts, and returns the chart that was printed. */
  method ParseChartDestination(dest: string) returns (r: Option<Chart>)
    ensures forall c :: r == Some(c) <==> Printable(c) && ChartDestination(c) == dest
  {
    var path, version := dest, "";
    var i := LastIndex(dest, COLON);
    if i >= 0 && Index(dest[i + 1..], SLASH) < 0 {
      path, version := dest[..i], dest[i + 1..];
    }
    forall c | Printable(c) && ChartDestination(c) == dest
      ensures path == Path(c) && version == c.version && version != ""
    {
      VersionSplit(c);
      NoSlash(c.version);
    }
    if version == "" {
      return None;
    }
    NoSlash(version);
    NoColonAfterLast(dest, i);
    var parts := Split(path);
    var idx := 1;
    while idx + 2 < |parts|
      invariant idx >= 1
      invariant forall k | 1 <= k < idx && k + 2 < |parts| && parts[k] == PREFIX ::
        ChartDestination(ChartAt(parts, k, version)) != dest
    {
      if parts[idx] == PREFIX && ChartDestination(ChartAt(parts, idx, version)) == dest {
        var found := ChartAt(parts, idx, version);
        forall c | Printable(c) && ChartDestination(c) == dest ensures c == found { DestinationInjective(c, found); }
        return Some(found);
      }
      idx := idx + 1;
    }
    forall c | Printable(c) ensures ChartDestination(c) != dest
    {
      if ChartDestination(c) == dest { ChartAtOwn(c); assert false; }
    }
    return None;
  }

  lemma NoSlash(s: string)
    ensures Index(s, SLASH) < 0 <==> Without(s, '/')
  {
    forall k ensures At(s, SLASH, k) <==> 0 <= k < |s| && s[k] == '/' { AtChar(s, '/', k); }
  }

  lemma NoColonAfterLast(s: string, i: int)
    requires i == LastIndex(s, COLON) >= 0
    ensures Without(s[i + 1..], ':')
  {
    forall k ensures At(s, COLON, k) <==> 0 <= k < |s| && s[k] == ':' { AtChar(s, ':', k); }
    forall k | i < k < |s| ensures s[k] != ':' { assert !At(s, COLON, k); }
  }

  // ------------------------------------------------------------------- source

  /** Go strings are bytes; a byte is written as the character of its code. */
  type Byte = c: char | c as int < 256 witness 'a'
  type Bytes = seq<Byte>

  predicate Unreserved(c: char)
  {
    'A' <= c <= 'Z' || 'a' <= c <= 'z' || '0' <= c <= '9' || c in "-_.~"
  }

  function HexDigit(n: int): (c: Byte)
    requires 0 <= n < 16
  {
    if n < 10 then (n + '0' as int) as char else (n - 10 + 'A' as int) as char
  }

  /** Value of a hexadecimal digit, upper or lower case; -1 for anything else. */
  function HexValue(c: char): (n: int)
    ensures -1 <= n < 16
  {
    if '0' <= c <= '9' then c as int - '0' as int
    else if 'A' <= c <= 'F' then c as int - 'A' as int + 10
    else if 'a' <= c <= 'f' then c as int - 'a' as int + 10
    else -1
  }

  function EscapeByte(c: Byte): Bytes
  {
    if Unreserved(c) then [c]
    else if c == ' ' then "+"
    else ['%', HexDigit(c as int / 16), HexDigit(c as int % 16)]
  }

  /** url.QueryEscape */
  function Escape(s: Bytes): Bytes
  {
    if s == "" then "" else EscapeByte(s[0]) + Escape(s[1..])
  }

  predicate EscapeAt(s: Bytes)
  {
    |s| >= 3 && s[0] == '%' && HexValue(s[1]) >= 0 && HexValue(s[2]) >= 0
  }

  /** url.QueryUnescape; None is its error. */
  function Unescape(s: Bytes): Option<Bytes>
  {
    if s == "" then Some("")
    else if s[0] == '%' then
      if !EscapeAt(s) then None
      else
        var rest := Unescape(s[3..]);
        if rest.None? then None else Some([(16 * HexValue(s[1]) + HexValue(s[2])) as char] + rest.value)
    else
      var rest := Unescape(s[1..]);
      if rest.None? then None else Some([if s[0] == '+' then ' ' else s[0]] + rest.value)
  }

  lemma HexRoundTrip(n: int)
    requires 0 <= n < 16
    ensures HexValue(HexDigit(n)) == n
  {
  }

  /** Percent-encoding is undone by decoding, and leaves none of the characters
      that separate the parts of a reference. */
  lemma {:induction false} UnescapeEscape(s: Bytes)
    ensures Unescape(Escape(s)) == Some(s)
    ensures '/' !in Escape(s) && '?' !in Escape(s) && (Escape(s) == "" <==> s == "")
  {
    if s != "" {
      UnescapeEscape(s[1..]);
      UnescapeStep(s[0], Escape(s[1..]));
      assert s == [s[0]] + s[1..];
    }
  }

  lemma UnescapeStep(c: Byte, rest: Bytes)
    requires Unescape(rest).Some?
    ensures Unescape(EscapeByte(c) + rest) == Some([c] + Unescape(rest).value)
    ensures '/' !in EscapeByte(c) && '?' !in EscapeByte(c)
  {
    var s, n := EscapeByte(c) + rest, c as int;
    if |EscapeByte(c)| == 3 {
      HexRoundTrip(n / 16);
      HexRoundTrip(n % 16);
      assert s[3..] == rest;
      assert 16 * (n / 16) + n % 16 == n;
    } else {
      assert s[1..] == rest;
    }
  }

  /** What encoding can produce: upper-case digits, and only for bytes that are
      neither unreserved nor a space. */
  predicate Canonical(s: Bytes)
  {
    s == "" ||
    if s[0] == '%' then
      && EscapeAt(s) && !('a' <= s[1] <= 'f') && !('a' <= s[2] <= 'f')
      && EscapedOnly(16 * HexValue(s[1]) + HexValue(s[2])) && Canonical(s[3..])
    else
      (Unreserved(s[0]) || s[0] == '+') && Canonical(s[1..])
  }

  predicate EscapedOnly(n: int)
    requires 0 <= n < 256
  {
    !Unreserved(n as char) && n as char != ' '
  }

  lemma CanonicalStep(c: Byte, rest: Bytes)
    ensures Canonical(EscapeByte(c) + rest) <==> Canonical(rest)
  {
    var s, n := EscapeByte(c) + rest, c as int;
    if |EscapeByte(c)| == 3 {
      HexRoundTrip(n / 16);
      HexRoundTrip(n % 16);
      assert s[3..] == rest && 16 * (n / 16) + n % 16 == n;
    } else {
      assert s[1..] == rest;
    }
  }

  lemma {:induction false} EscapeCanonical(s: Bytes)
    ensures Canonical(Escape(s))
  {
    if s != "" {
      EscapeCanonical(s[1..]);
      CanonicalStep(s[0], Escape(s[1..]));
    }
  }

  lemma {:induction false} CanonicalEscaped(s: Bytes)
    requires Canonical(s)
    ensures Unescape(s).Some? && Escape(Unescape(s).value) == s
  {
    if s != "" {
      if s[0] == '%' {
        CanonicalEscaped(s[3..]);
        var h, l := HexValue(s[1]), HexValue(s[2]);
        assert (16 * h + l) / 16 == h && (16 * h + l) % 16 == l;
        assert HexDigit(h) == s[1] && HexDigit(l) == s[2];
        assert s == ['%', s[1], s[2]] + s[3..];
        assert Unescape(s).value[1..] == Unescape(s[3..]).value;
      } else {
        CanonicalEscaped(s[1..]);
        assert s == [s[0]] + s[1..];
        assert Unescape(s).value[1..] == Unescape(s[1..]).value;
      }
    }
  }

  const SCHEME: Bytes := "helm://"
  const MARK: Bytes := "?version="

  /** TrimSuffix(url, "/") */
  function Trim(url: Bytes): Bytes
  {
    if url != "" && url[|url| - 1] == '/' then url[..|url| - 1] else url
  }

  datatype Source = Source(url: Bytes, name: Bytes, version: Bytes)

  /** HelmChartSource of a repository URL whose user information is stripped. */
  function HelmChartSource(url: Bytes, name: Bytes, version: Bytes): Bytes
  {
    SCHEME + Trim(url) + SLASH + Escape(name) + MARK + Escape(version)
  }

  predicate HasScheme(s: Bytes)
  {
    |s| >= |SCHEME| && s[..|SCHEME|] == SCHEME
  }

  /** Repository URL and chart name, still encoded. */
  function SplitName(rest: Bytes): Option<(Bytes, Bytes)>
  {
    var i := LastIndex(rest, SLASH);
    if i <= 0 || i == |rest| - 1 then None else Some((rest[..i], rest[i + 1..]))
  }

  /** The three parts as they are written: URL, encoded name, encoded version. */
  function Parts(s: Bytes): Option<(Bytes, Bytes, Bytes)>
  {
    if !HasScheme(s) then None
    else
      var rest := s[|SCHEME|..];
      var i := Index(rest, MARK);
      if i < 0 || SplitName(rest[..i]).None? then None
      else
        var p := SplitName(rest[..i]).value;
        Some((p.0, p.1, rest[i + |MARK|..]))
  }

  /** ParseHelmChartSource; None is ok == false. */
  function ParseHelmChartSource(s: Bytes): Option<Source>
  {
    var p := Parts(s);
    if p.None? then None
    else
      var name, version := Unescape(p.value.1), Unescape(p.value.2);
      if name.None? || version.None? || name.value == "" || version.value == "" then None
      else Some(Source(p.value.0, name.value, version.value))
  }

  lemma SplitNameOf(url: Bytes, name: Bytes)
    requires '/' !in name
    ensures SplitName(url + SLASH + name) == if url == "" || name == "" then None else Some((url, name))
  {
    var rest := url + SLASH + name;
    forall k ensures At(rest, SLASH, k) <==> 0 <= k < |rest| && rest[k] == '/' { AtChar(rest, '/', k); }
    LastIndexIs(rest, SLASH, |url|);
    assert rest[..|url|] == url && rest[|url| + 1..] == name;
  }

  /** The mark is first found in the URL, or else right behind the name. */
  lemma MarkIn(url: Bytes, name: Bytes, version: Bytes)
    requires '?' !in name
    ensures Index(url + SLASH + name + MARK + version, MARK) ==
      if Index(url, MARK) >= 0 then Index(url, MARK) else |url + SLASH + name|
  {
    var front := url + SLASH + name;
    var s := front + MARK + version;
    forall k | 0 <= k < |front| ensures At(s, MARK, k) <==> At(url, MARK, k) { MarkAt(url, name, version, k); }
    AtMiddle(front, MARK, version);
    if Index(url, MARK) >= 0 {
      IndexIs(s, MARK, Index(url, MARK));
    } else {
      IndexIs(s, MARK, |front|);
    }
  }

  lemma MarkAt(url: Bytes, name: Bytes, version: Bytes, k: nat)
    requires '?' !in name && k < |url + SLASH + name|
    ensures At(url + SLASH + name + MARK + version, MARK, k) <==> At(url, MARK, k)
  {
    var s := url + SLASH + name + MARK + version;
    if k + |MARK| <= |url| {
      assert s[k..k + |MARK|] == url[k..k + |MARK|];
    } else if At(s, MARK, k) {
      AtFirst(s, MARK, k);
      MarkNoSlash(s, k, |url|);
    }
  }

  /** The mark does not reach over a slash. */
  lemma MarkNoSlash(s: Bytes, k: nat, j: nat)
    requires At(s, MARK, k) && k <= j < |s| && s[j] == '/'
    ensures j >= k + |MARK|
  {
  }

  lemma Unprefixed(rest: Bytes)
    ensures HasScheme(SCHEME + rest) && (SCHEME + rest)[|SCHEME|..] == rest
  {
  }

  /** The parts of what was put together are what it was put together from. */
  lemma PartsOf(url: Bytes, name: Bytes, version: Bytes)
    requires '/' !in name && '?' !in name
    ensures Index(url, MARK) < 0 && url != "" && name != "" ==>
      Parts(SCHEME + (url + SLASH + name + MARK + version)) == Some((url, name, version))
    ensures !(Index(url, MARK) < 0 && url != "" && name != "") ==>
      Parts(SCHEME + (url + SLASH + name + MARK + version)).None? ||
      |Parts(SCHEME + (url + SLASH + name + MARK + version)).value.0| < |url|
  {
    var rest := url + SLASH + name + MARK + version;
    Unprefixed(rest);
    MarkIn(url, name, version);
    var i := Index(rest, MARK);
    if Index(url, MARK) < 0 {
      assert rest[..i] == url + SLASH + name && rest[i + |MARK|..] == version;
      SplitNameOf(url, name);
    }
  }

  lemma SourceShape(url: Bytes, name: Bytes, version: Bytes)
    ensures HelmChartSource(url, name, version) == SCHEME + (Trim(url) + SLASH + Escape(name) + MARK + Escape(version))
  {
    Regroup(SCHEME, Trim(url), Escape(name), Escape(version));
  }

  lemma Regroup(a: Bytes, b: Bytes, c: Bytes, d: Bytes)
    ensures a + b + SLASH + c + MARK + d == a + (b + SLASH + c + MARK + d)
  {
  }

  /** Parsing gives back what was printed, with one trailing slash of the URL
      gone, exactly if no part is empty and the URL has no version mark. */
  lemma HelmSourceRoundTrip(url: Bytes, name: Bytes, version: Bytes)
    ensures ParseHelmChartSource(HelmChartSource(url, name, version)) == Some(Source(Trim(url), name, version))
      <==> Trim(url) != "" && name != "" && version != "" && Index(Trim(url), MARK) < 0
  {
    SourceShape(url, name, version);
    UnescapeEscape(name);
    UnescapeEscape(version);
    PartsOf(Trim(url), Escape(name), Escape(version));
  }

  lemma SplitNameJoin(rest: Bytes)
    requires SplitName(rest).Some?
    ensures rest == SplitName(rest).value.0 + SLASH + SplitName(rest).value.1
  {
    var j := LastIndex(rest, SLASH);
    assert rest == rest[..j] + rest[j..j + 1] + rest[j + 1..];
  }

  /** What is accepted is put together from its three parts. */
  lemma PartsJoin(s: Bytes)
    requires Parts(s).Some?
    ensures var p := Parts(s).value; s == SCHEME + (p.0 + SLASH + p.1 + MARK + p.2)
  {
    var rest := s[|SCHEME|..];
    var i := Index(rest, MARK);
    SplitNameJoin(rest[..i]);
    assert rest == rest[..i] + rest[i..i + |MARK|] + rest[i + |MARK|..];
    assert s == s[..|SCHEME|] + rest;
  }

  lemma CanonicalIff(s: Bytes)
    requires Unescape(s).Some?
    ensures Escape(Unescape(s).value) == s <==> Canonical(s)
  {
    EscapeCanonical(Unescape(s).value);
    if Canonical(s) {
      CanonicalEscaped(s);
    }
  }

  /** An accepted reference is printed again from what was read exactly if its
      name and its version are canonically encoded; the parser takes others too. */
  lemma ReprintsIff(s: Bytes)
    requires ParseHelmChartSource(s).Some?
    ensures var r := ParseHelmChartSource(s).value;
      HelmChartSource(r.url + SLASH, r.name, r.version) == s
      <==> Canonical(Parts(s).value.1) && Canonical(Parts(s).value.2)
  {
    var p, r := Parts(s).value, ParseHelmChartSource(s).value;
    PartsJoin(s);
    CanonicalIff(p.1);
    CanonicalIff(p.2);
    assert Trim(p.0 + SLASH) == p.0;
    SourceShape(r.url + SLASH, r.name, r.version);
    if HelmChartSource(r.url + SLASH, r.name, r.version) == s {
      UnescapeEscape(r.name);
      PartsOf(p.0, Escape(r.name), Escape(r.version));
    }
  }
}
