/** The part of the WHATWG URL Standard's basic URL parser (section 4.4)
    that `new URL(input)` and `new URL(input, base)` exercise in the link
    preview route: absolute URLs, scheme-relative, path-absolute and
    path-relative references, dot-segment removal, ASCII host lower-casing
    and default-port elision. */
module Urls {
  import opened Wrappers
  import opened Text

  /** A parsed URL. `tail` holds the query and the fragment exactly as
      written (empty, or starting with `?` or `#`). */
  datatype Url =
    | Hierarchical(scheme: string, host: string, port: Option<nat>, path: string, tail: string)
    | OpaquePath(scheme: string, body: string)

  /** Schemes whose URLs always carry a host and a tuple origin. */
  predicate IsSpecial(scheme: string)
  {
    scheme in {"http", "https", "ws", "wss", "ftp"}
  }

  function DefaultPort(scheme: string): Option<nat>
  {
    if scheme == "http" || scheme == "ws" then Some(80)
    else if scheme == "https" || scheme == "wss" then Some(443)
    else if scheme == "ftp" then Some(21)
    else None
  }

  const AuthorityEnd: set<char> := {'/', '?', '#'}
  const PathEnd: set<char> := {'?', '#'}
  /** Host code points the parser refuses (userinfo, IPv6 literals and
      percent-escapes in hosts are not modelled and are refused too). */
  const ForbiddenHost: set<char> := {' ', '<', '>', '@', '[', ']', '\\', '^', '|', '%'}
  const HostExcluded: set<char> := ForbiddenHost + AuthorityEnd + {':'}

  // ---------------------------------------------------------------------
  // Schemes

  predicate IsSchemeChar(c: char)
  {
    IsAlpha(c) || IsDigit(c) || c == '+' || c == '-' || c == '.'
  }

  predicate ValidScheme(s: string)
  {
    |s| > 0 && IsAlpha(s[0]) && forall i :: 0 <= i < |s| ==> IsSchemeChar(s[i])
  }

  /** Length of the longest prefix of `s` made of scheme characters. */
  function SchemeRun(s: string): (r: nat)
    ensures r <= |s|
    ensures forall j :: 0 <= j < r ==> IsSchemeChar(s[j])
    ensures r < |s| ==> !IsSchemeChar(s[r])
  {
    if |s| == 0 || !IsSchemeChar(s[0]) then 0 else 1 + SchemeRun(s[1..])
  }

  /** The position of the `:` that ends a scheme, when `s` starts with one. */
  function SchemeEnd(s: string): Option<nat>
  {
    var k := SchemeRun(s);
    if |s| > 0 && IsAlpha(s[0]) && k < |s| && s[k] == ':' then Some(k) else None
  }

  // ---------------------------------------------------------------------
  // Paths: splitting on '/' and removing dot segments

  predicate NoSlash(seg: string) { NoneOf(seg, {'/'}) }

  function Split(s: string): (r: seq<string>)
    ensures |r| >= 1
    decreases |s|
  {
    var i := IndexOfAny(s, {'/'});
    if i == |s| then [s] else [s[..i]] + Split(s[i + 1..])
  }

  function Join(segs: seq<string>): string
  {
    if |segs| == 0 then ""
    else if |segs| == 1 then segs[0]
    else segs[0] + "/" + Join(segs[1..])
  }

  predicate IsDot(seg: string) { seg == "." || seg == ".." }

  /** One segment of the path state: `.` is dropped, `..` removes the last
      kept segment, and either of them at the very end leaves an empty
      final segment (so `/a/..` becomes `/`). */
  function Step(acc: seq<string>, seg: string, last: bool): seq<string>
  {
    if seg == "." then (if last then acc + [""] else acc)
    else if seg == ".." then
      var kept := if |acc| > 0 then acc[..|acc| - 1] else [];
      if last then kept + [""] else kept
    else acc + [seg]
  }

  function Process(acc: seq<string>, segs: seq<string>): seq<string>
    decreases |segs|
  {
    if segs == [] then acc else Process(Step(acc, segs[0], |segs| == 1), segs[1..])
  }

  function RemoveDots(p: string): string
    requires |p| > 0 && p[0] == '/'
  {
    "/" + Join(Process([], Split(p[1..])))
  }

  // ---------------------------------------------------------------------
  // Parsing and serialising

  /** The port component after `:`; the outer None is a parse failure, the
      inner None means "no explicit port" (absent, empty or the default). */
  function ParsePort(scheme: string, digits: string): Option<Option<nat>>
  {
    if digits == "" then Some(None)
    else if !AllDigits(digits) then None
    else
      var n := DigitsValue(digits);
      if n > 65535 then None
      else if Some(n) == DefaultPort(scheme) then Some(None)
      else Some(Some(n))
  }

  /** The authority ends at the first '/', '?' or '#'. */
  function SplitAuthority(r: string): (string, string)
  {
    var e := IndexOfAny(r, AuthorityEnd);
    (r[..e], r[e..])
  }

  /** The host ends at the first ':'; what follows it is the port text. */
  function SplitHostPort(auth: string): (string, string)
  {
    var c := IndexOfAny(auth, {':'});
    (auth[..c], if c < |auth| then auth[c + 1..] else "")
  }

  /** The path ends at the first '?' or '#'. */
  function SplitTail(rest: string): (string, string)
  {
    var p := IndexOfAny(rest, PathEnd);
    (rest[..p], rest[p..])
  }

  function HostOf(scheme: string, rawHost: string): string
  {
    if IsSpecial(scheme) then Lower(rawHost) else rawHost
  }

  function PathOf(scheme: string, rawPath: string): string
  {
    if rawPath == "" then (if IsSpecial(scheme) then "/" else "")
    else if rawPath[0] == '/' then RemoveDots(rawPath)
    else rawPath
  }

  /** Parses what follows `scheme://`. */
  function ParseAuthority(scheme: string, r: string): Option<Url>
  {
    var (auth, rest) := SplitAuthority(r);
    var (rawHost, portText) := SplitHostPort(auth);
    var (rawPath, tail) := SplitTail(rest);
    if !NoneOf(rawHost, ForbiddenHost) then None
    else if IsSpecial(scheme) && rawHost == "" then None
    else match ParsePort(scheme, portText)
      case None => None
      case Some(port) => Some(Hierarchical(scheme, HostOf(scheme, rawHost), port, PathOf(scheme, rawPath), tail))
  }

  /** `new URL(s)` without a base: None where it throws. */
  function Parse(s: string): Option<Url>
  {
    match SchemeEnd(s)
    case None => None
    case Some(k) =>
      var scheme := Lower(s[..k]);
      var rest := s[k + 1..];
      if StartsWith(rest, "//") then ParseAuthority(scheme, rest[2..])
      else if IsSpecial(scheme) then None
      else Some(OpaquePath(scheme, rest))
  }

  function PortText(port: Option<nat>): string
  {
    match port
    case None => ""
    case Some(n) => ":" + NatToDigits(n)
  }

  /** The `href` serialisation. */
  function Href(u: Url): string
  {
    match u
    case Hierarchical(scheme, host, port, path, tail) => scheme + "://" + host + PortText(port) + path + tail
    case OpaquePath(scheme, body) => scheme + ":" + body
  }

  /** The `origin` getter: scheme, host and port, or "null" for URLs
      without a tuple origin. */
  function OriginText(u: Url): string
  {
    if u.Hierarchical? && IsSpecial(u.scheme) then u.scheme + "://" + u.host + PortText(u.port) else "null"
  }

  // ---------------------------------------------------------------------
  // Resolution of a reference against a base URL

  /** The base path up to and including its last '/'. */
  function Dir(p: string): (r: string)
    ensures |r| <= |p| && r == p[..|r|]
    ensures |r| > 0 ==> r[|r| - 1] == '/'
    ensures |p| > 0 && p[0] == '/' ==> |r| > 0
  {
    if |p| == 0 then ""
    else if p[|p| - 1] == '/' then p
    else Dir(p[..|p| - 1])
  }

  function Merge(basePath: string, refPath: string): string
  {
    if basePath == "" then "/" + refPath else Dir(basePath) + refPath
  }

  /** The query part of a tail: everything before the fragment. */
  function QueryPart(tail: string): string
  {
    tail[..IndexOfAny(tail, {'#'})]
  }

  /** `new URL(ref, base)` once `base` has been parsed. */
  function Resolve(ref: string, base: Url): Option<Url>
  {
    if SchemeEnd(ref).Some? then Parse(ref)
    else if !base.Hierarchical? then None
    else if StartsWith(ref, "//") then Parse(base.scheme + ":" + ref)
    else
      var (refPath, refTail) := SplitTail(ref);
      if refPath == "" then
        Some(base.(tail := if refTail == "" || refTail[0] == '#' then QueryPart(base.tail) + refTail else refTail))
      else if refPath[0] == '/' then
        Some(base.(path := RemoveDots(refPath), tail := refTail))
      else
        var merged := Merge(base.path, refPath);
        Some(base.(path := if |merged| > 0 && merged[0] == '/' then RemoveDots(merged) else merged, tail := refTail))
  }

  // ---------------------------------------------------------------------
  // Lemmas about paths

  predicate CleanSegs(segs: seq<string>, cs: set<char>)
  {
    forall x :: x in segs ==> NoSlash(x) && NoneOf(x, cs)
  }

  lemma {:induction false} SplitClean(s: string, cs: set<char>)
    requires NoneOf(s, cs)
    ensures CleanSegs(Split(s), cs)
    decreases |s|
  {
    var i := IndexOfAny(s, {'/'});
    if i < |s| {
      SplitClean(s[i + 1..], cs);
    }
  }

  /** Splitting text that starts with a segment and a slash. */
  lemma SplitCons(a: string, rest: string)
    requires NoSlash(a)
    ensures Split(a + "/" + rest) == [a] + Split(rest)
  {
    var s := a + "/" + rest;
    assert forall j :: 0 <= j < |a| ==> s[j] == a[j];
    IndexOfAnyIs(s, {'/'}, |a|);
    assert s[..|a|] == a;
    assert s[|a| + 1..] == rest;
  }

  lemma {:induction false} SplitJoin(segs: seq<string>)
    requires |segs| >= 1
    requires forall x :: x in segs ==> NoSlash(x)
    ensures Split(Join(segs)) == segs
    decreases |segs|
  {
    assert segs[0] in segs;
    if |segs| == 1 {
      IndexOfAnyIs(segs[0], {'/'}, |segs[0]|);
    } else {
      assert Join(segs) == segs[0] + "/" + Join(segs[1..]);
      SplitCons(segs[0], Join(segs[1..]));
      SplitJoin(segs[1..]);
      assert [segs[0]] + segs[1..] == segs;
    }
  }

  lemma {:induction false} JoinNoneOf(segs: seq<string>, cs: set<char>)
    requires '/' !in cs
    requires CleanSegs(segs, cs)
    ensures NoneOf(Join(segs), cs)
    decreases |segs|
  {
    if |segs| == 1 {
      assert segs[0] in segs;
    } else if |segs| > 1 {
      assert segs[0] in segs;
      JoinNoneOf(segs[1..], cs);
      NoneOfConcat(segs[0] + "/", Join(segs[1..]), cs);
    }
  }

  predicate NoDots(segs: seq<string>)
  {
    forall x :: x in segs ==> !IsDot(x)
  }

  lemma {:induction false} ProcessNoDots(acc: seq<string>, segs: seq<string>)
    requires NoDots(segs)
    ensures Process(acc, segs) == acc + segs
    decreases |segs|
  {
    if segs != [] {
      assert segs[0] in segs;
      ProcessNoDots(acc + [segs[0]], segs[1..]);
      assert acc + [segs[0]] + segs[1..] == acc + segs;
    }
  }

  lemma {:induction false} ProcessShape(acc: seq<string>, segs: seq<string>, cs: set<char>)
    requires NoDots(acc) && CleanSegs(acc, cs) && CleanSegs(segs, cs)
    ensures NoDots(Process(acc, segs)) && CleanSegs(Process(acc, segs), cs)
    ensures |segs| >= 1 ==> |Process(acc, segs)| >= 1
    decreases |segs|
  {
    if segs != [] {
      var next := Step(acc, segs[0], |segs| == 1);
      assert NoDots(next) && CleanSegs(next, cs) by {
        if |acc| > 0 {
          assert forall x :: x in acc[..|acc| - 1] ==> x in acc;
        }
      }
      ProcessShape(next, segs[1..], cs);
      if |segs| == 1 {
        assert |next| >= 1;
      }
    }
  }

  /** Dot-segment removal yields a path that starts with '/', keeps out the
      characters the input kept out, and is left alone by a second pass. */
  lemma RemoveDotsShape(p: string, cs: set<char>)
    requires |p| > 0 && p[0] == '/'
    requires '/' !in cs && NoneOf(p, cs)
    ensures var r := RemoveDots(p);
      |r| > 0 && r[0] == '/' && NoneOf(r, cs) && RemoveDots(r) == r
  {
    var segs := Split(p[1..]);
    SplitClean(p[1..], cs);
    ProcessShape([], segs, cs);
    var out := Process([], segs);
    JoinNoneOf(out, cs);
    var r := "/" + Join(out);
    assert r[1..] == Join(out);
    SplitJoin(out);
    ProcessNoDots([], out);
    assert Split(r[1..]) == out;
    assert Process([], out) == out;
  }

  /** A path made of plain segments is already free of dot segments. */
  lemma PlainPath(segs: seq<string>)
    requires |segs| >= 1 && NoDots(segs) && CleanSegs(segs, {})
    ensures RemoveDots("/" + Join(segs)) == "/" + Join(segs)
  {
    assert ("/" + Join(segs))[1..] == Join(segs);
    SplitJoin(segs);
    ProcessNoDots([], segs);
    assert [] + segs == segs;
  }

  /** A path-absolute reference and `./` followed by the same path resolve
      to the same path. */
  lemma DotSlashIgnored(rest: string)
    ensures RemoveDots("/./" + rest) == RemoveDots("/" + rest)
  {
    var s := "./" + rest;
    assert ("/./" + rest)[1..] == s;
    assert ("/" + rest)[1..] == rest;
    IndexOfAnyIs(s, {'/'}, 1);
    assert s[..1] == "." && s[2..] == rest;
    assert Split(s) == ["."] + Split(rest);
  }

  // ---------------------------------------------------------------------
  // Canonical URLs: the ones the parser produces

  predicate CanonicalHost(scheme: string, host: string)
  {
    NoneOf(host, HostExcluded) && (IsSpecial(scheme) ==> host != "" && Lower(host) == host)
  }

  predicate CanonicalPort(scheme: string, port: Option<nat>)
  {
    port.Some? ==> port.value <= 65535 && port != DefaultPort(scheme)
  }

  predicate CanonicalPath(scheme: string, path: string)
  {
    && NoneOf(path, PathEnd)
    && (path == "" ==> !IsSpecial(scheme))
    && (path != "" ==> path[0] == '/' && RemoveDots(path) == path)
  }

  predicate CanonicalTail(tail: string)
  {
    tail != "" ==> tail[0] in PathEnd
  }

  predicate Canonical(u: Url)
  {
    ValidScheme(u.scheme) && Lower(u.scheme) == u.scheme &&
    match u
    case Hierarchical(scheme, host, port, path, tail) =>
      CanonicalHost(scheme, host) && CanonicalPort(scheme, port) && CanonicalPath(scheme, path) && CanonicalTail(tail)
    case OpaquePath(scheme, body) =>
      !IsSpecial(scheme) && !StartsWith(body, "//")
  }

  // ---------------------------------------------------------------------
  // Lemmas about parsing and serialising

  lemma IndexOfConcat(a: string, b: string, cs: set<char>)
    requires NoneOf(a, cs)
    requires b != [] ==> b[0] in cs
    ensures IndexOfAny(a + b, cs) == |a|
  {
    assert forall j :: 0 <= j < |a| ==> (a + b)[j] == a[j];
    if b != [] {
      assert (a + b)[|a|] == b[0];
    }
    IndexOfAnyIs(a + b, cs, |a|);
  }

  lemma LowerValidScheme(s: string)
    requires |s| > 0 && IsAlpha(s[0])
    requires forall i :: 0 <= i < |s| ==> IsSchemeChar(s[i])
    ensures ValidScheme(Lower(s)) && Lower(Lower(s)) == Lower(s)
  {
  }

  lemma SchemeEndOf(scheme: string, rest: string)
    requires ValidScheme(scheme)
    ensures SchemeEnd(scheme + ":" + rest) == Some(|scheme|)
    ensures (scheme + ":" + rest)[..|scheme|] == scheme
    ensures (scheme + ":" + rest)[|scheme| + 1..] == rest
  {
    var t := scheme + ":" + rest;
    assert forall j :: 0 <= j < |scheme| ==> t[j] == scheme[j];
    assert t[|scheme|] == ':';
  }

  lemma PortTextShape(port: Option<nat>)
    ensures NoneOf(PortText(port), AuthorityEnd)
    ensures PortText(port) != "" ==> PortText(port)[0] == ':' && PortText(port)[1..] == NatToDigits(port.value)
    ensures port.None? <==> PortText(port) == ""
  {
    if port.Some? {
      DigitsRoundTrip(port.value);
      var d := NatToDigits(port.value);
      assert PortText(port)[1..] == d;
      forall i | 0 <= i < |PortText(port)| ensures PortText(port)[i] !in AuthorityEnd {
        if i > 0 {
          assert PortText(port)[i] == d[i - 1];
          assert IsDigit(d[i - 1]);
        }
      }
    }
  }

  lemma RemoveDotsRoot()
    ensures RemoveDots("/") == "/"
  {
    assert "/"[1..] == "";
    IndexOfAnyIs("", {'/'}, 0);
    assert Split("") == [""];
    assert Process([], [""]) == [""];
  }

  lemma SplitAuthorityOf(auth: string, rest: string)
    requires NoneOf(auth, AuthorityEnd)
    requires rest != "" ==> rest[0] in AuthorityEnd
    ensures SplitAuthority(auth + rest) == (auth, rest)
  {
    IndexOfConcat(auth, rest, AuthorityEnd);
    assert (auth + rest)[..|auth|] == auth;
    assert (auth + rest)[|auth|..] == rest;
  }

  lemma SplitHostPortOf(host: string, port: Option<nat>)
    requires NoneOf(host, {':'})
    ensures SplitHostPort(host + PortText(port)) == (host, if port.Some? then NatToDigits(port.value) else "")
  {
    PortTextShape(port);
    var auth := host + PortText(port);
    IndexOfConcat(host, PortText(port), {':'});
    assert auth[..|host|] == host;
    if port.Some? {
      assert auth[|host| + 1..] == PortText(port)[1..];
    }
  }

  lemma SplitTailOf(path: string, tail: string)
    requires NoneOf(path, PathEnd)
    requires CanonicalTail(tail)
    ensures SplitTail(path + tail) == (path, tail)
  {
    IndexOfConcat(path, tail, PathEnd);
    assert (path + tail)[..|path|] == path;
    assert (path + tail)[|path|..] == tail;
  }

  lemma ParsePortOf(scheme: string, port: Option<nat>)
    requires CanonicalPort(scheme, port)
    ensures ParsePort(scheme, if port.Some? then NatToDigits(port.value) else "") == Some(port)
  {
    if port.Some? {
      DigitsRoundTrip(port.value);
    }
  }

  lemma AuthoritySplitOf(host: string, port: Option<nat>, path: string, tail: string)
    requires NoneOf(host, AuthorityEnd) && CanonicalTail(tail)
    requires path != "" ==> path[0] == '/'
    ensures SplitAuthority(host + PortText(port) + path + tail) == (host + PortText(port), path + tail)
  {
    var auth := host + PortText(port);
    assert host + PortText(port) + path + tail == auth + (path + tail);
    PortTextShape(port);
    NoneOfConcat(host, PortText(port), AuthorityEnd);
    assert path + tail != [] ==> (path + tail)[0] in AuthorityEnd by {
      if path != [] { assert (path + tail)[0] == path[0]; }
      else { assert path + tail == tail; }
    }
    SplitAuthorityOf(auth, path + tail);
  }

  lemma CanonicalHostOf(scheme: string, host: string)
    requires CanonicalHost(scheme, host)
    ensures HostOf(scheme, host) == host
    ensures NoneOf(host, AuthorityEnd) && NoneOf(host, {':'}) && NoneOf(host, ForbiddenHost)
    ensures IsSpecial(scheme) ==> host != ""
  {
  }

  lemma CanonicalPathOf(scheme: string, path: string)
    requires path != "" ==> path[0] == '/' && RemoveDots(path) == path
    ensures PathOf(scheme, path) == if path == "" && IsSpecial(scheme) then "/" else path
  {
  }

  /** What `ParseAuthority` makes of a serialised host, port, path and tail. */
  lemma ParseAuthorityOf(scheme: string, host: string, port: Option<nat>, path: string, tail: string)
    requires CanonicalHost(scheme, host) && CanonicalPort(scheme, port) && CanonicalTail(tail)
    requires NoneOf(path, PathEnd)
    requires path != "" ==> path[0] == '/' && RemoveDots(path) == path
    ensures ParseAuthority(scheme, host + PortText(port) + path + tail)
         == Some(Hierarchical(scheme, host, port, if path == "" && IsSpecial(scheme) then "/" else path, tail))
  {
    CanonicalHostOf(scheme, host);
    AuthoritySplitOf(host, port, path, tail);
    SplitHostPortOf(host, port);
    SplitTailOf(path, tail);
    ParsePortOf(scheme, port);
    CanonicalPathOf(scheme, path);
  }

  /** How the parser treats text that starts with a canonical scheme. */
  lemma ParseWithScheme(scheme: string, rest: string)
    requires ValidScheme(scheme) && Lower(scheme) == scheme
    ensures Parse(scheme + ":" + rest)
         == if StartsWith(rest, "//") then ParseAuthority(scheme, rest[2..])
            else if IsSpecial(scheme) then None
            else Some(OpaquePath(scheme, rest))
  {
    SchemeEndOf(scheme, rest);
  }

  /** Parsing `scheme://host:port/path?query#fragment` written from
      canonical parts. */
  lemma SerialisedParse(s: string, scheme: string, host: string, port: Option<nat>, path: string, tail: string)
    requires ValidScheme(scheme) && Lower(scheme) == scheme
    requires CanonicalHost(scheme, host) && CanonicalPort(scheme, port) && CanonicalTail(tail)
    requires NoneOf(path, PathEnd)
    requires path != "" ==> path[0] == '/' && RemoveDots(path) == path
    requires s == scheme + ":" + ("//" + (host + PortText(port) + path + tail))
    ensures Parse(s) == Some(Hierarchical(scheme, host, port, if path == "" && IsSpecial(scheme) then "/" else path, tail))
  {
    var x := host + PortText(port) + path + tail;
    var r := "//" + x;
    assert StartsWith(r, "//") by { assert r[..2] == "//"; }
    assert r[2..] == x;
    ParseWithScheme(scheme, r);
    ParseAuthorityOf(scheme, host, port, path, tail);
  }

  lemma HierarchicalParse(s: string, scheme: string, host: string, port: Option<nat>, path: string, tail: string)
    requires ValidScheme(scheme) && Lower(scheme) == scheme
    requires CanonicalHost(scheme, host) && CanonicalPort(scheme, port)
    requires CanonicalPath(scheme, path) && CanonicalTail(tail)
    requires s == scheme + ":" + ("//" + (host + PortText(port) + path + tail))
    ensures Parse(s) == Some(Hierarchical(scheme, host, port, path, tail))
  {
    SerialisedParse(s, scheme, host, port, path, tail);
  }

  lemma HrefLayout(u: Url)
    requires u.Hierarchical?
    ensures Href(u) == u.scheme + ":" + ("//" + (u.host + PortText(u.port) + u.path + u.tail))
  {
  }

  lemma OpaqueParse(scheme: string, body: string)
    requires ValidScheme(scheme) && Lower(scheme) == scheme
    requires !IsSpecial(scheme) && !StartsWith(body, "//")
    ensures Parse(scheme + ":" + body) == Some(OpaquePath(scheme, body))
  {
    ParseWithScheme(scheme, body);
  }

  /** Serialising a canonical URL and parsing it back gives the same URL. */
  lemma HrefRoundTrip(u: Url)
    requires Canonical(u)
    ensures Parse(Href(u)) == Some(u)
  {
    if u.Hierarchical? {
      HrefLayout(u);
      HierarchicalParse(Href(u), u.scheme, u.host, u.port, u.path, u.tail);
    } else {
      OpaqueParse(u.scheme, u.body);
    }
  }

  /** The origin of a canonical URL with a tuple origin parses to that
      scheme, host and port with the root path and no query. */
  lemma OriginParses(u: Url)
    requires Canonical(u) && u.Hierarchical? && IsSpecial(u.scheme)
    ensures Parse(OriginText(u)) == Some(Hierarchical(u.scheme, u.host, u.port, "/", ""))
  {
    OriginLayout(u);
    SerialisedParse(OriginText(u), u.scheme, u.host, u.port, "", "");
  }

  lemma OriginLayout(u: Url)
    requires u.Hierarchical? && IsSpecial(u.scheme)
    ensures OriginText(u) == u.scheme + ":" + ("//" + (u.host + PortText(u.port) + "" + ""))
  {
  }

  lemma SplitAuthorityShape(r: string)
    ensures var (auth, rest) := SplitAuthority(r);
      NoneOf(auth, AuthorityEnd) && (rest != "" ==> rest[0] in AuthorityEnd)
  {
  }

  lemma PathOfCanonical(scheme: string, rest: string)
    requires rest != "" ==> rest[0] in AuthorityEnd
    ensures var (rawPath, tail) := SplitTail(rest);
      CanonicalPath(scheme, PathOf(scheme, rawPath)) && CanonicalTail(tail)
  {
    var (rawPath, tail) := SplitTail(rest);
    if rawPath == "" {
      RemoveDotsRoot();
    } else {
      assert rawPath[0] == rest[0];
      RemoveDotsShape(rawPath, PathEnd);
    }
  }

  lemma HostOfCanonical(scheme: string, auth: string)
    requires NoneOf(auth, AuthorityEnd)
    ensures var (rawHost, _) := SplitHostPort(auth);
      NoneOf(rawHost, ForbiddenHost) && (IsSpecial(scheme) ==> rawHost != "") ==>
      CanonicalHost(scheme, HostOf(scheme, rawHost))
  {
    var (rawHost, _) := SplitHostPort(auth);
    if NoneOf(rawHost, ForbiddenHost) {
      assert NoneOf(rawHost, HostExcluded);
      if IsSpecial(scheme) {
        LowerNoneOf(rawHost, HostExcluded);
        LowerIdempotent(rawHost);
      }
    }
  }

  lemma ParseAuthorityCanonical(scheme: string, r: string)
    requires ValidScheme(scheme) && Lower(scheme) == scheme
    ensures ParseAuthority(scheme, r).Some? ==> Canonical(ParseAuthority(scheme, r).value)
  {
    var (auth, rest) := SplitAuthority(r);
    SplitAuthorityShape(r);
    HostOfCanonical(scheme, auth);
    PathOfCanonical(scheme, rest);
  }

  lemma OpaqueCanonical(scheme: string, rest: string)
    requires ValidScheme(scheme) && Lower(scheme) == scheme
    requires !IsSpecial(scheme) && !StartsWith(rest, "//")
    ensures Canonical(OpaquePath(scheme, rest))
  {
  }

  /** Whatever the parser accepts is canonical. */
  lemma ParsedCanonical(s: string)
    ensures Parse(s).Some? ==> Canonical(Parse(s).value)
  {
    match SchemeEnd(s)
    case None =>
    case Some(k) =>
      ParsedCanonicalAt(s, k);
  }

  lemma ParsedCanonicalAt(s: string, k: nat)
    requires SchemeEnd(s) == Some(k)
    ensures Parse(s).Some? ==> Canonical(Parse(s).value)
  {
    var scheme := Lower(s[..k]);
    var rest := s[k + 1..];
    LowerValidScheme(s[..k]);
    if StartsWith(rest, "//") {
      assert Parse(s) == ParseAuthority(scheme, rest[2..]);
      ParseAuthorityCanonical(scheme, rest[2..]);
    } else if !IsSpecial(scheme) {
      assert Parse(s) == Some(OpaquePath(scheme, rest));
      OpaqueCanonical(scheme, rest);
    } else {
      assert Parse(s) == None;
    }
  }

  /** Resolving against a canonical base gives a canonical URL. */
  lemma ResolvedCanonical(ref: string, base: Url)
    requires Canonical(base)
    ensures Resolve(ref, base).Some? ==> Canonical(Resolve(ref, base).value)
  {
    if SchemeEnd(ref).Some? {
      ParsedCanonical(ref);
    } else if !base.Hierarchical? {
    } else if StartsWith(ref, "//") {
      ParsedCanonical(base.scheme + ":" + ref);
    } else {
      var (refPath, _) := SplitTail(ref);
      if refPath == "" {
        var q := IndexOfAny(base.tail, {'#'});
        if q > 0 {
          assert QueryPart(base.tail)[0] == base.tail[0];
        }
      } else if refPath[0] == '/' {
        RemoveDotsShape(refPath, PathEnd);
      } else {
        var merged := Merge(base.path, refPath);
        var d := Dir(base.path);
        if base.path != "" {
          assert NoneOf(d, PathEnd) by {
            assert forall i :: 0 <= i < |d| ==> d[i] == base.path[i];
          }
          NoneOfConcat(d, refPath, PathEnd);
          assert merged[0] == d[0] == base.path[0];
        } else {
          NoneOfConcat("/", refPath, PathEnd);
        }
        RemoveDotsShape(merged, PathEnd);
      }
    }
  }
}
