/** The link preview route: pick an image reference from the page's
    metadata, make it absolute against the page's origin, and answer with
    it or with the single error outcome. */
module LinkPreview {
  import opened Wrappers
  import opened Text
  import opened Urls

  /** The four values the route reads from the fetched page, each None
      where the element or the attribute is absent. */
  datatype Page = Page(
    ogImage: Option<string>,      // meta[property="og:image"] content
    twitterImage: Option<string>, // meta[name="twitter:image"] content
    imageSrc: Option<string>,     // link[rel="image_src"] href
    firstImgSrc: Option<string>)  // first img src

  /** The answer: a JSON body with the (possibly absent) image, or the
      error body with its status. */
  datatype Response = Preview(image: Option<string>) | Failure(status: int, error: string)

  const ErrorMessage: string := "Failed to fetch link preview"
  const FailureResponse: Response := Failure(500, ErrorMessage)

  /** JavaScript truthiness of an optional string. */
  predicate Truthy(v: Option<string>)
  {
    v.Some? && v.value != ""
  }

  /** JavaScript `a || b`. */
  function Or(a: Option<string>, b: Option<string>): Option<string>
  {
    if Truthy(a) then a else b
  }

  /** The selector cascade, evaluated left to right as the source writes it. */
  function Cascade(p: Page): Option<string>
  {
    Or(Or(Or(p.ogImage, p.twitterImage), p.imageSrc), p.firstImgSrc)
  }

  /** The sources in their order of preference. */
  function Sources(p: Page): seq<Option<string>>
  {
    [p.ogImage, p.twitterImage, p.imageSrc, p.firstImgSrc]
  }

  /** Reference definition: the first truthy value of a list, or its last
      value when none is truthy. */
  function FirstTruthy(xs: seq<Option<string>>): (r: Option<string>)
    requires |xs| > 0
    ensures Truthy(r) <==> exists i :: 0 <= i < |xs| && Truthy(xs[i])
    ensures Truthy(r) ==> exists i :: 0 <= i < |xs| && xs[i] == r && forall j :: 0 <= j < i ==> !Truthy(xs[j])
    ensures !Truthy(r) ==> r == xs[|xs| - 1]
  {
    if |xs| == 1 || Truthy(xs[0]) then xs[0]
    else
      var r := FirstTruthy(xs[1..]);
      assert forall i :: 1 <= i < |xs| ==> xs[i] == xs[1..][i - 1];
      r
  }

  /** `new URL(ref, base).href` once the base has been parsed. */
  function ResolveHref(ref: string, base: Url): Option<string>
  {
    match Resolve(ref, base)
    case None => None
    case Some(u) => Some(Href(u))
  }

  /** `new URL(ref, new URL(pageUrl).origin).href`, or None where one of
      the two constructors throws. */
  function Absolutize(pageUrl: string, ref: string): Option<string>
  {
    match Parse(pageUrl)
    case None => None
    case Some(page) =>
      match Parse(OriginText(page))
      case None => None
      case Some(base) => ResolveHref(ref, base)
  }

  /** The POST handler. `url` is the `url` field of the request body (None
      when the body is not JSON or carries no string there); `fetched` is
      what fetching and parsing that URL produced (None when it threw). */
  function Handle(url: Option<string>, fetched: Option<Page>): Response
  {
    if url.None? || fetched.None? then FailureResponse
    else
      var image := Cascade(fetched.value);
      if Truthy(image) && !StartsWith(image.value, "http") then
        match Absolutize(url.value, image.value)
        case None => FailureResponse
        case Some(href) => Preview(Some(href))
      else Preview(image)
  }

  // ---------------------------------------------------------------------
  // The cascade

  /** The cascade returns the first truthy source in the stated order, and
      the image src value itself when none is truthy. */
  lemma CascadeIsFirstTruthy(p: Page)
    ensures Cascade(p) == FirstTruthy(Sources(p))
  {
    var xs := Sources(p);
    var ys, zs, ws := xs[1..], xs[2..], xs[3..];
    assert ys == [p.twitterImage, p.imageSrc, p.firstImgSrc] && ys[1..] == zs;
    assert zs == [p.imageSrc, p.firstImgSrc] && zs[1..] == ws;
    assert ws == [p.firstImgSrc];
    assert FirstTruthy(ws) == p.firstImgSrc;
    assert FirstTruthy(zs) == Or(p.imageSrc, FirstTruthy(ws));
    assert FirstTruthy(ys) == Or(p.twitterImage, FirstTruthy(zs));
    assert FirstTruthy(xs) == Or(p.ogImage, FirstTruthy(ys));
  }

  /** When og:image is non-empty the other three sources are never
      consulted: changing them does not change the response. */
  lemma OgImageDecides(url: Option<string>, p: Page, q: Page)
    requires Truthy(p.ogImage) && q.ogImage == p.ogImage
    ensures Handle(url, Some(p)) == Handle(url, Some(q))
    ensures Cascade(p) == p.ogImage
  {
  }

  /** A reference starting with "http" is answered unchanged, whatever the
      page URL is. */
  lemma HttpReferenceUnchanged(url: string, p: Page)
    requires Truthy(Cascade(p)) && StartsWith(Cascade(p).value, "http")
    ensures Handle(Some(url), Some(p)) == Preview(Cascade(p))
  {
  }

  /** With no non-empty source the answer is a success without an image
      (or with the empty src value), never the error. */
  lemma NoImageIsSuccess(url: string, p: Page)
    requires forall i :: 0 <= i < 4 ==> !Truthy(Sources(p)[i])
    ensures Handle(Some(url), Some(p)) == Preview(p.firstImgSrc)
    ensures p.firstImgSrc == None || p.firstImgSrc == Some("")
  {
    assert !Truthy(Sources(p)[0]) && !Truthy(Sources(p)[1]) && !Truthy(Sources(p)[2]) && !Truthy(Sources(p)[3]);
  }

  /** Every failure is the one error body with status 500, and it happens
      exactly when the body, the fetch or the URL construction fails. */
  lemma FailureCases(url: Option<string>, fetched: Option<Page>)
    ensures Handle(url, fetched).Failure? ==> Handle(url, fetched) == Failure(500, "Failed to fetch link preview")
    ensures Handle(url, fetched).Failure? <==>
      || url.None?
      || fetched.None?
      || (var image := Cascade(fetched.value);
          Truthy(image) && !StartsWith(image.value, "http") && Absolutize(url.value, image.value).None?)
  {
  }

  // ---------------------------------------------------------------------
  // Resolution against the origin

  /** The URL the origin string parses to: the page's scheme, host and
      port with the root path. */
  function OriginBase(page: Url): Url
    requires page.Hierarchical?
  {
    Hierarchical(page.scheme, page.host, page.port, "/", "")
  }

  /** A page URL with a tuple origin. */
  predicate HasTupleOrigin(pageUrl: string)
  {
    Parse(pageUrl).Some? && Parse(pageUrl).value.Hierarchical? && IsSpecial(Parse(pageUrl).value.scheme)
  }

  /** The reference is resolved against the page's origin: the page's path
      and query play no part. */
  lemma AbsolutizeUsesOrigin(pageUrl: string, ref: string)
    requires HasTupleOrigin(pageUrl)
    ensures Canonical(OriginBase(Parse(pageUrl).value))
    ensures Absolutize(pageUrl, ref) == ResolveHref(ref, OriginBase(Parse(pageUrl).value))
  {
    var page := Parse(pageUrl).value;
    ParsedCanonical(pageUrl);
    OriginParses(page);
    AbsolutizeThrough(pageUrl, page, OriginBase(page), ref);
    OriginBaseCanonical(page);
  }

  lemma AbsolutizeThrough(pageUrl: string, page: Url, base: Url, ref: string)
    requires Parse(pageUrl) == Some(page) && Parse(OriginText(page)) == Some(base)
    ensures Absolutize(pageUrl, ref) == ResolveHref(ref, base)
  {
  }

  lemma OriginBaseCanonical(page: Url)
    requires Canonical(page) && page.Hierarchical? && IsSpecial(page.scheme)
    ensures Canonical(OriginBase(page))
  {
    RemoveDotsRoot();
  }

  /** Two page URLs with the same origin give the same image for every
      reference. */
  lemma SameOriginSameImage(url1: string, url2: string, ref: string)
    requires HasTupleOrigin(url1) && HasTupleOrigin(url2)
    requires OriginBase(Parse(url1).value) == OriginBase(Parse(url2).value)
    ensures Absolutize(url1, ref) == Absolutize(url2, ref)
  {
    AbsolutizeUsesOrigin(url1, ref);
    AbsolutizeUsesOrigin(url2, ref);
  }

  /** Resolution of a reference that has no scheme and does not start
      with "//". */
  lemma ResolveRelative(ref: string, base: Url)
    requires base.Hierarchical? && SchemeEnd(ref).None? && !StartsWith(ref, "//")
    requires SplitTail(ref).0 != ""
    ensures var (refPath, refTail) := SplitTail(ref);
      Resolve(ref, base) == Some(
        if refPath[0] == '/' then base.(path := RemoveDots(refPath), tail := refTail)
        else
          var merged := Merge(base.path, refPath);
          base.(path := if |merged| > 0 && merged[0] == '/' then RemoveDots(merged) else merged, tail := refTail))
  {
  }

  /** Splitting `pre + ref` at the query, for a prefix without '?' or '#'. */
  lemma SplitTailPrefixed(pre: string, ref: string)
    requires NoneOf(pre, PathEnd)
    ensures SplitTail(pre + ref) == (pre + SplitTail(ref).0, SplitTail(ref).1)
  {
    var p := IndexOfAny(ref, PathEnd);
    var r := pre + ref;
    assert forall j :: |pre| <= j < |r| ==> r[j] == ref[j - |pre|];
    IndexOfAnyIs(r, PathEnd, |pre| + p);
    assert r[..|pre| + p] == pre + ref[..p];
    assert r[|pre| + p..] == ref[p..];
  }

  /** Against a root base, a path-absolute reference keeps the base's
      scheme, host and port and takes the dot-free path. */
  lemma RootRelativeShape(base: Url, ref: string)
    requires base.Hierarchical? && base.path == "/"
    requires ref != "" && ref[0] !in AuthorityEnd
    ensures var (refPath, refTail) := SplitTail(ref);
      Resolve("/" + ref, base) == Some(base.(path := RemoveDots("/" + refPath), tail := refTail))
  {
    var r := "/" + ref;
    SplitTailPrefixed("/", ref);
    assert !StartsWith(r, "//") by { assert r[1] == ref[0]; }
    ResolveRelative(r, base);
  }

  /** Against a root base, a plain relative path resolves like the same
      path after "/": the page's own path is not used. */
  lemma PlainRelativeIsRootRelative(base: Url, ref: string)
    requires base.Hierarchical? && base.path == "/"
    requires ref != "" && ref[0] !in AuthorityEnd && SchemeEnd(ref).None?
    ensures Resolve(ref, base) == Resolve("/" + ref, base)
  {
    var (refPath, refTail) := SplitTail(ref);
    assert refPath != "" by { assert ref[0] !in PathEnd; }
    assert !StartsWith(ref, "//");
    ResolveRelative(ref, base);
    assert Dir("/") == "/";
    RootRelativeShape(base, ref);
  }

  /** Against a root base, `./p` resolves like `p`. */
  lemma DotSlashIsPlain(base: Url, ref: string)
    requires base.Hierarchical? && base.path == "/"
    requires ref != "" && ref[0] !in AuthorityEnd && SchemeEnd(ref).None?
    ensures Resolve("./" + ref, base) == Resolve(ref, base)
  {
    var (refPath, refTail) := SplitTail(ref);
    var r := "./" + ref;
    SplitTailPrefixed("./", ref);
    assert !StartsWith(r, "//");
    assert SchemeEnd(r).None? by { assert !IsAlpha(r[0]); }
    ResolveRelative(r, base);
    assert Dir("/") == "/";
    assert "/" + ("./" + refPath) == "/./" + refPath;
    DotSlashIgnored(refPath);
    PlainRelativeIsRootRelative(base, ref);
    RootRelativeShape(base, ref);
  }

  /** A scheme-relative reference takes the base's scheme. */
  lemma SchemeRelativeTakesScheme(base: Url, rest: string)
    requires base.Hierarchical? && ValidScheme(base.scheme) && Lower(base.scheme) == base.scheme
    ensures Resolve("//" + rest, base) == Parse(base.scheme + "://" + rest)
    ensures Resolve("//" + rest, base).Some? ==> Resolve("//" + rest, base).value.scheme == base.scheme
  {
    var r := "//" + rest;
    assert SchemeEnd(r).None? by { assert !IsAlpha(r[0]); }
    assert StartsWith(r, "//") by { assert r[..2] == "//"; }
    assert base.scheme + ":" + r == base.scheme + "://" + rest;
    ParseWithScheme(base.scheme, r);
    assert r[2..] == rest;
  }

  /** A reference without a scheme keeps the base's scheme. */
  lemma NoSchemeKeepsScheme(base: Url, ref: string)
    requires Canonical(base) && base.Hierarchical?
    requires SchemeEnd(ref).None?
    ensures Resolve(ref, base).Some? ==> Resolve(ref, base).value.scheme == base.scheme
  {
    if StartsWith(ref, "//") {
      assert ref == "//" + ref[2..] by { assert ref[..2] == "//"; }
      SchemeRelativeTakesScheme(base, ref[2..]);
    }
  }

  lemma HrefStartsWithScheme(u: Url)
    ensures Href(u) == u.scheme + ":" + Href(u)[|u.scheme| + 1..]
    ensures StartsWith(Href(u), u.scheme)
  {
    match u
    case Hierarchical(scheme, host, port, path, tail) =>
      assert Href(u) == scheme + ":" + ("//" + host + PortText(port) + path + tail);
    case OpaquePath(scheme, body) =>
  }

  /** An absolute reference in canonical form (a `data:` URL among them)
      is answered as written: nothing rejects placeholders. */
  lemma AbsoluteReferenceKept(u: Url, base: Url)
    requires Canonical(u)
    ensures Resolve(Href(u), base) == Some(u)
    ensures ResolveHref(Href(u), base) == Some(Href(u))
  {
    HrefStartsWithScheme(u);
    SchemeEndOf(u.scheme, Href(u)[|u.scheme| + 1..]);
    HrefRoundTrip(u);
  }

  // ---------------------------------------------------------------------
  // Idempotence

  /** Making an already resolved image absolute again changes nothing. */
  lemma AbsolutizeIdempotent(pageUrl: string, ref: string)
    requires Absolutize(pageUrl, ref).Some?
    ensures Absolutize(pageUrl, Absolutize(pageUrl, ref).value) == Absolutize(pageUrl, ref)
  {
    var page := Parse(pageUrl).value;
    var base := Parse(OriginText(page)).value;
    ParsedCanonical(OriginText(page));
    ResolvedCanonical(ref, base);
    var u := Resolve(ref, base).value;
    AbsoluteReferenceKept(u, base);
  }

  lemma HierarchicalHrefPrefix(u: Url)
    requires u.Hierarchical?
    ensures StartsWith(Href(u), u.scheme + "://")
  {
    var pre := u.scheme + "://";
    assert Href(u) == pre + (u.host + PortText(u.port) + u.path + u.tail);
    assert Href(u)[..|pre|] == pre;
  }

  /** Against a base with a special scheme, a reference without a scheme
      resolves to a hierarchical URL with that scheme. */
  lemma NoSchemeStaysHierarchical(base: Url, ref: string)
    requires Canonical(base) && base.Hierarchical? && IsSpecial(base.scheme)
    requires SchemeEnd(ref).None? && Resolve(ref, base).Some?
    ensures Resolve(ref, base).value.Hierarchical?
    ensures StartsWith(Href(Resolve(ref, base).value), base.scheme + "://")
  {
    NoSchemeKeepsScheme(base, ref);
    ResolvedCanonical(ref, base);
    var u := Resolve(ref, base).value;
    assert u.Hierarchical?;
    HierarchicalHrefPrefix(u);
  }

  /** On a page whose scheme is http or https, an image reference without a
      scheme comes back starting with "http", so the route's own check lets
      it through unchanged when it is fed back. */
  lemma HttpPageGivesHttpImage(pageUrl: string, ref: string)
    requires HasTupleOrigin(pageUrl) && Parse(pageUrl).value.scheme in {"http", "https"}
    requires SchemeEnd(ref).None?
    requires Absolutize(pageUrl, ref).Some?
    ensures StartsWith(Absolutize(pageUrl, ref).value, Parse(pageUrl).value.scheme + "://")
    ensures StartsWith(Absolutize(pageUrl, ref).value, "http")
  {
    var page := Parse(pageUrl).value;
    var base := OriginBase(page);
    AbsolutizeUsesOrigin(pageUrl, ref);
    assert Resolve(ref, base).Some?;
    NoSchemeStaysHierarchical(base, ref);
    var h := Absolutize(pageUrl, ref).value;
    assert h == Href(Resolve(ref, base).value);
    HttpPrefix(h, page.scheme);
  }

  lemma HttpPrefix(h: string, scheme: string)
    requires scheme in {"http", "https"} && StartsWith(h, scheme + "://")
    ensures StartsWith(h, "http")
  {
    assert h[..4] == (scheme + "://")[..4];
  }

  /** Feeding a resolved image back to the route as the page's og:image
      gives the same answer. */
  lemma HandleIdempotent(url: string, p: Page, q: Page)
    requires Handle(Some(url), Some(p)).Preview? && Truthy(Handle(Some(url), Some(p)).image)
    requires q.ogImage == Handle(Some(url), Some(p)).image
    ensures Handle(Some(url), Some(q)) == Handle(Some(url), Some(p))
  {
    var image := Cascade(p);
    if Truthy(image) && !StartsWith(image.value, "http") {
      AbsolutizeIdempotent(url, image.value);
    }
  }
}
