/** Worked cases of the link preview route on the page
    `https://x.io/p/1`. Each concrete fact is proved on its own
    and combined through a general lemma, which keeps every proof small. */
module LinkPreviewExamples {
  import opened Wrappers
  import opened Text
  import opened Urls
  import opened LinkPreview

  function OnlyOgImage(ref: string): Page
  {
    Page(Some(ref), None, None, None)
  }

  // ---------------------------------------------------------------------
  // General bridges

  lemma HierarchicalCanonical(scheme: string, host: string, port: Option<nat>, path: string, tail: string)
    requires ValidScheme(scheme) && Lower(scheme) == scheme
    requires CanonicalHost(scheme, host) && CanonicalPort(scheme, port)
    requires CanonicalPath(scheme, path) && CanonicalTail(tail)
    ensures Canonical(Hierarchical(scheme, host, port, path, tail))
  {
  }

  lemma ParsesTo(s: string, u: Url)
    requires Canonical(u) && Href(u) == s
    ensures Parse(s) == Some(u)
  {
    HrefRoundTrip(u);
  }

  lemma AbsolutizeOnPage(pageUrl: string, page: Url, ref: string)
    requires Parse(pageUrl) == Some(page) && page.Hierarchical? && IsSpecial(page.scheme)
    ensures Absolutize(pageUrl, ref) == ResolveHref(ref, OriginBase(page))
  {
    AbsolutizeUsesOrigin(pageUrl, ref);
  }

  /** A root-relative reference without query or fragment, against a
      bare origin, replaces the path and nothing else. */
  lemma RootResolves(base: Url, ref: string)
    requires base.Hierarchical? && base.path == "/"
    requires ref != "" && ref[0] !in AuthorityEnd && SplitTail(ref) == (ref, "")
    requires RemoveDots("/" + ref) == "/" + ref
    ensures ResolveHref("/" + ref, base) == Some(Href(base.(path := "/" + ref, tail := "")))
  {
    RootRelativeShape(base, ref);
  }

  lemma SchemeRelativeResolves(base: Url, rest: string, u: Url)
    requires base.Hierarchical? && ValidScheme(base.scheme) && Lower(base.scheme) == base.scheme
    requires Canonical(u) && Href(u) == base.scheme + "://" + rest
    ensures ResolveHref("//" + rest, base) == Some(Href(u))
  {
    SchemeRelativeTakesScheme(base, rest);
    HrefRoundTrip(u);
  }

  lemma AnswerForOgImage(pageUrl: string, ref: string, h: string)
    requires ref != "" && !StartsWith(ref, "http")
    requires Absolutize(pageUrl, ref) == Some(h)
    ensures Handle(Some(pageUrl), Some(OnlyOgImage(ref))) == Preview(Some(h))
  {
  }

  // ---------------------------------------------------------------------
  // The page and its origin

  function ShopPage(): Url
  {
    Hierarchical("https", "x.io", None, "/p/1", "")
  }

  function ShopOrigin(): Url
  {
    Hierarchical("https", "x.io", None, "/", "")
  }

  lemma HttpsScheme()
    ensures ValidScheme("https") && Lower("https") == "https"
  {
    assert Lower("https") == "https";
  }

  lemma ShopPathClean()
    ensures RemoveDots("/p/1") == "/p/1"
  {
    assert Join(["p", "1"]) == "p/1";
    PlainPath(["p", "1"]);
  }

  lemma ShopHref()
    ensures Href(ShopPage()) == "https://x.io/p/1"
  {
  }

  lemma ShopPageParses()
    ensures Parse("https://x.io/p/1") == Some(ShopPage())
  {
    HttpsScheme();
    assert CanonicalHost("https", "x.io") by {
      assert Lower("x.io") == "x.io";
    }
    assert NoneOf("/p/1", PathEnd);
    ShopPathClean();
    HierarchicalCanonical("https", "x.io", None, "/p/1", "");
    ShopHref();
    ParsesTo("https://x.io/p/1", ShopPage());
  }

  lemma ShopImageUsesOrigin(ref: string)
    ensures Absolutize("https://x.io/p/1", ref) == ResolveHref(ref, ShopOrigin())
  {
    ShopPageParses();
    AbsolutizeOnPage("https://x.io/p/1", ShopPage(), ref);
  }

  // ---------------------------------------------------------------------
  // The reference i/a.png

  lemma ImgSplit()
    ensures SplitTail("i/a.png") == ("i/a.png", "")
  {
    var s := "i/a.png";
    assert NoneOf(s, PathEnd);
    IndexOfAnyIs(s, PathEnd, 7);
    assert s[..7] == s;
  }

  lemma ImgClean()
    ensures RemoveDots("/i/a.png") == "/i/a.png"
  {
    var segs := ["i", "a.png"];
    assert Join(segs) == "i/a.png" && NoDots(segs);
    assert CleanSegs(segs, {}) by {
      forall x | x in segs
        ensures NoSlash(x) && NoneOf(x, {})
      {
      }
    }
    PlainPath(segs);
  }

  lemma ImgNoScheme()
    ensures SchemeEnd("i/a.png").None?
  {
    var s := "i/a.png";
    assert SchemeRun(s) == 1 by {
      assert !IsSchemeChar(s[1]);
    }
  }

  lemma RootImgHref()
    ensures Href(Hierarchical("https", "x.io", None, "/i/a.png", "")) == "https://x.io/i/a.png"
  {
  }

  lemma RootImgResolves(base: Url)
    requires base == ShopOrigin()
    ensures ResolveHref("/i/a.png", base) == Some("https://x.io/i/a.png")
  {
    ImgSplit();
    ImgClean();
    assert "/" + "i/a.png" == "/i/a.png";
    RootResolves(base, "i/a.png");
    RootImgHref();
  }

  lemma NotHttp(ref: string)
    requires |ref| > 0 && ref[0] != 'h'
    ensures !StartsWith(ref, "http")
  {
    FirstCharDiffers(ref, "http");
  }

  /** A root-relative og:image is resolved against the page's origin. */
  lemma RootRelativeExample()
    ensures Handle(Some("https://x.io/p/1"), Some(OnlyOgImage("/i/a.png")))
         == Preview(Some("https://x.io/i/a.png"))
  {
    ShopImageUsesOrigin("/i/a.png");
    RootImgResolves(ShopOrigin());
    NotHttp("/i/a.png");
    AnswerForOgImage("https://x.io/p/1", "/i/a.png", "https://x.io/i/a.png");
  }

  lemma PlainResolves(base: Url, ref: string)
    requires base.Hierarchical? && base.path == "/"
    requires ref != "" && ref[0] !in AuthorityEnd && SchemeEnd(ref).None?
    ensures ResolveHref(ref, base) == ResolveHref("/" + ref, base)
  {
    PlainRelativeIsRootRelative(base, ref);
  }

  lemma PlainImgResolves(base: Url)
    requires base == ShopOrigin()
    ensures ResolveHref("i/a.png", base) == Some("https://x.io/i/a.png")
  {
    ImgNoScheme();
    PlainResolves(base, "i/a.png");
    assert "/" + "i/a.png" == "/i/a.png";
    RootImgResolves(base);
  }

  /** A plain relative og:image gives the same image: the page's own
      directory `/p/` is not used. */
  lemma PlainRelativeExample()
    ensures Handle(Some("https://x.io/p/1"), Some(OnlyOgImage("i/a.png")))
         == Preview(Some("https://x.io/i/a.png"))
  {
    ShopImageUsesOrigin("i/a.png");
    PlainImgResolves(ShopOrigin());
    NotHttp("i/a.png");
    AnswerForOgImage("https://x.io/p/1", "i/a.png", "https://x.io/i/a.png");
  }

  lemma ShopDir()
    ensures Merge("/p/1", "i/a.png") == "/p/i/a.png"
  {
    assert Dir("/p/1") == "/p/" by {
      assert "/p/1"[..3] == "/p/";
    }
  }

  lemma FullPathClean()
    ensures RemoveDots("/p/i/a.png") == "/p/i/a.png"
  {
    var segs := ["p", "i", "a.png"];
    assert Join(segs) == "p/i/a.png" && NoDots(segs);
    assert CleanSegs(segs, {}) by {
      forall x | x in segs
        ensures NoSlash(x) && NoneOf(x, {})
      {
      }
    }
    PlainPath(segs);
  }

  lemma NotSchemeRelative(ref: string)
    requires |ref| > 0 && ref[0] != '/'
    ensures !StartsWith(ref, "//")
  {
    FirstCharDiffers(ref, "//");
  }

  /** Resolving the same reference against the full page URL, which the
      route does not do, would keep the `/p/` directory. */
  lemma FullUrlWouldDiffer(page: Url)
    requires page == ShopPage()
    ensures Resolve("i/a.png", page) == Some(page.(path := "/p/i/a.png"))
  {
    ImgNoScheme();
    NotSchemeRelative("i/a.png");
    ImgSplit();
    ResolveRelative("i/a.png", page);
    ShopDir();
    FullPathClean();
  }

  // ---------------------------------------------------------------------
  // The reference //c.io/b.png

  function CdnImage(): Url
  {
    Hierarchical("https", "c.io", None, "/b.png", "")
  }

  lemma CdnPathClean()
    ensures RemoveDots("/b.png") == "/b.png"
  {
    assert Join(["b.png"]) == "b.png";
    PlainPath(["b.png"]);
  }

  lemma CdnCanonical()
    ensures Canonical(CdnImage())
  {
    HttpsScheme();
    assert CanonicalHost("https", "c.io") by {
      assert Lower("c.io") == "c.io";
    }
    assert NoneOf("/b.png", PathEnd);
    CdnPathClean();
    HierarchicalCanonical("https", "c.io", None, "/b.png", "");
  }

  lemma CdnHref()
    ensures Href(CdnImage()) == "https://c.io/b.png"
  {
  }

  lemma CdnText()
    ensures "//c.io/b.png" == "//" + "c.io/b.png"
    ensures "https" + "://" + "c.io/b.png" == "https://c.io/b.png"
  {
  }

  lemma CdnResolves(base: Url)
    requires base == ShopOrigin()
    ensures ResolveHref("//c.io/b.png", base) == Some("https://c.io/b.png")
  {
    HttpsScheme();
    CdnCanonical();
    CdnHref();
    CdnText();
    SchemeRelativeResolves(base, "c.io/b.png", CdnImage());
  }

  /** A scheme-relative og:image takes the page's scheme. */
  lemma SchemeRelativeExample()
    ensures Handle(Some("https://x.io/p/1"), Some(OnlyOgImage("//c.io/b.png")))
         == Preview(Some("https://c.io/b.png"))
  {
    ShopImageUsesOrigin("//c.io/b.png");
    CdnResolves(ShopOrigin());
    NotHttp("//c.io/b.png");
    AnswerForOgImage("https://x.io/p/1", "//c.io/b.png", "https://c.io/b.png");
  }

  // ---------------------------------------------------------------------
  // An inline data: placeholder

  function GifPlaceholder(): Url
  {
    OpaquePath("data", ",x")
  }

  lemma GifCanonical()
    ensures Canonical(GifPlaceholder())
  {
    assert Lower("data") == "data";
    NotSchemeRelative(",x");
  }

  lemma GifResolves(base: Url)
    requires base == ShopOrigin()
    ensures ResolveHref("data:,x", base) == Some("data:,x")
  {
    GifCanonical();
    assert Href(GifPlaceholder()) == "data:,x";
    AbsoluteReferenceKept(GifPlaceholder(), base);
  }

  /** An inline `data:` placeholder is answered as written. */
  lemma DataUrlIsKept()
    ensures Handle(Some("https://x.io/p/1"), Some(OnlyOgImage("data:,x")))
         == Preview(Some("data:,x"))
  {
    ShopImageUsesOrigin("data:,x");
    GifResolves(ShopOrigin());
    NotHttp("data:,x");
    AnswerForOgImage("https://x.io/p/1", "data:,x", "data:,x");
  }
}
