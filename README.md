# Product showcase: link previews, product listing and product detail

This project models three parts of a small product-showcase web
application and proves properties of the model.

- **The link preview route** takes a page URL and the metadata read from that page. It picks an image reference: the first non-empty value among `og:image`, `twitter:image`, `image_src` and the first `img` src. A reference that does not start with `http` is made absolute against the page's *origin*. The route answers with the image, or with the single error body (status 500).
- **The product listing** holds:
  - the products last fetched from the hosted store;
  - three filter controls: a search term, a category and a minimum vote count;
  - a loading flag.

  Fetching builds a store query one filter at a time and orders the rows by upvotes, highest first. The visible list is a client-side filter over the fetched products. An upvote writes back one more than the listed count. A new product is inserted with zero upvotes.
- **The product detail page** toggles the user's vote on the displayed product, then rewrites every entry with that id in the list kept in browser storage. It looks up a category's icon, falling back to a globe. On load it shows the stored copy of the product, if there is one.

Modules:

| file | module | models |
|---|---|---|
| `wrappers.dfy` | `Wrappers` | `Option` |
| `text.dfy` | `Text` | prefix and substring tests, ASCII lower-casing, first-occurrence search, decimal digits |
| `urls.dfy` | `Urls` | the part of URL parsing, serialising and relative resolution that the route relies on |
| `link_preview.dfy` | `LinkPreview` | the route |
| `link_preview_examples.dfy` | `LinkPreviewExamples` | worked cases on the page `https://x.io/p/1` |
| `products.dfy` | `Products` | the product record, the client filter, the store query and ordering, and lookups and updates by id |
| `product_overview.dfy` | `ProductOverview` | the listing as a class with fetch, criteria change, upvote and add |
| `product_detail.dfy` | `ProductDetail` | the toggle, the stored-list rewrite, the icon lookup, and the page and browser-storage state as classes |

The URL model is a restricted form of the URL parser of the WHATWG URL Standard. A URL is either:

- `Hierarchical`: scheme, host (lower-cased for special schemes), optional non-default port, dot-free path, and the `?query#fragment` tail; or
- `OpaquePath`: for example `data:`.

`Parse` plays the part of `new URL(s)`, `Resolve` of `new URL(ref, base)`, `Href` of `.href` and `OriginText` of `.origin`. A `None` result stands for the constructor throwing. `Canonical` describes what `Parse` produces. Parsing the serialisation of a canonical URL gives the URL back (`HrefRoundTrip`), and this round trip is what the idempotence results rest on.

The component classes take the hosted store as a table that is passed in and handed back. Whether the store reports an error is a boolean parameter.

The route does not classify sites, render pages in a browser, reject `data:` placeholders or tell error kinds apart. A `data:` placeholder is returned as an absolute URL (`LinkPreviewExamples.DataUrlIsKept`), and every failure is the same status-500 body (`LinkPreview.FailureCases`).

## Model

| member | source | states |
|---|---|---|
| LinkPreview.Handle | app/api/link-preview/route.ts:4-27 | The route's response for a body URL and the fetched page's four attribute values. Its properties are stated by `FailureCases`, `NoImageIsSuccess`, `OgImageDecides`, `HttpReferenceUnchanged` and `HandleIdempotent`. |
| LinkPreview.Cascade | app/api/link-preview/route.ts:12-15 | The or-chain over the four image sources. `CascadeIsFirstTruthy` ties it to the reference definition `FirstTruthy`. |
| LinkPreview.Absolutize | app/api/link-preview/route.ts:18-19 | Resolving a reference against the page URL's re-parsed origin. `AbsolutizeUsesOrigin`, `SameOriginSameImage`, `AbsolutizeIdempotent` and `HttpPageGivesHttpImage` state its properties. |
| LinkPreview.FirstTruthy | app/api/link-preview/route.ts:12-15 | Reference definition of a chain of JavaScript or-operators. The result is truthy iff some value is; it is then the first truthy value. When none is truthy the result is the last value. |
| LinkPreview.CascadeIsFirstTruthy | app/api/link-preview/route.ts:12-15 | The selector cascade is the first truthy value among og:image, twitter:image, image_src and the first img src, in that order, and otherwise the img src value itself. |
| LinkPreview.OgImageDecides | app/api/link-preview/route.ts:12 | With a non-empty og:image, the cascade is that og:image and the other three sources do not affect the response. |
| LinkPreview.HttpReferenceUnchanged | app/api/link-preview/route.ts:17 | A chosen reference starting with `http` is answered unchanged, for any page URL. |
| LinkPreview.NoImageIsSuccess | app/api/link-preview/route.ts:17-22 | When no source is non-empty, the answer is a success carrying the img src value (absent or empty), never the error. |
| LinkPreview.FailureCases | app/api/link-preview/route.ts:5-26 | Every failure is `Failure(500, "Failed to fetch link preview")`. A failure happens exactly when the body has no URL, the fetch fails, or a relative reference cannot be resolved. |
| LinkPreview.AbsolutizeUsesOrigin | app/api/link-preview/route.ts:18-19 | For a page with a tuple origin, the reference is resolved against the canonical URL made of the page's scheme, host and port with the root path. The page's own path and query play no part. |
| LinkPreview.SameOriginSameImage | app/api/link-preview/route.ts:18-19 | Two page URLs with the same origin turn every reference into the same image. |
| LinkPreview.RootRelativeShape | app/api/link-preview/route.ts:19 | Against a root base, `/p` keeps the base's scheme, host and port and takes the dot-free `p`. |
| LinkPreview.PlainRelativeIsRootRelative | app/api/link-preview/route.ts:18-19 | Against the origin, `p` resolves exactly like `/p`. |
| LinkPreview.DotSlashIsPlain | app/api/link-preview/route.ts:18-19 | Against the origin, `./p` resolves exactly like `p`. |
| LinkPreview.SchemeRelativeTakesScheme | app/api/link-preview/route.ts:19 | `//rest` resolves as `scheme://rest` with the base's scheme. |
| LinkPreview.NoSchemeKeepsScheme | app/api/link-preview/route.ts:19 | A reference without a scheme keeps the base's scheme. |
| LinkPreview.AbsoluteReferenceKept | app/api/link-preview/route.ts:19 | A canonical absolute reference (for example a `data:` URL) resolves to itself against any base. |
| LinkPreview.AbsolutizeIdempotent | app/api/link-preview/route.ts:17-19 | Making an already resolved image absolute again gives the same image. |
| LinkPreview.HttpPageGivesHttpImage | app/api/link-preview/route.ts:17-19 | On an http or https page, a reference without a scheme comes out starting with `scheme://`, so it starts with `http`. |
| LinkPreview.HandleIdempotent | app/api/link-preview/route.ts:12-22 | Feeding a previewed image back as the page's og:image gives the same response. |
| LinkPreviewExamples.ShopPageParses | app/api/link-preview/route.ts:18 | `https://x.io/p/1` parses to scheme https, host x.io, no port, path `/p/1`. |
| LinkPreviewExamples.RootRelativeExample | app/api/link-preview/route.ts:17-22 | On `https://x.io/p/1`, og:image `/i/a.png` gives `https://x.io/i/a.png`. |
| LinkPreviewExamples.PlainRelativeExample | app/api/link-preview/route.ts:17-22 | On the same page, `i/a.png` gives the same `https://x.io/i/a.png`. |
| LinkPreviewExamples.FullUrlWouldDiffer | app/api/link-preview/route.ts:18-19 | Resolving `i/a.png` against the full page URL, which the route does not do, would give path `/p/i/a.png`. |
| LinkPreviewExamples.SchemeRelativeExample | app/api/link-preview/route.ts:17-22 | `//c.io/b.png` gives `https://c.io/b.png`. |
| LinkPreviewExamples.DataUrlIsKept | app/api/link-preview/route.ts:17-22 | `data:,x` is answered as written. |
| Urls.Parse | app/api/link-preview/route.ts:18 | `new URL(s)`, with None for a throw. `ParsedCanonical` and `HrefRoundTrip` state its properties. |
| Urls.Resolve | app/api/link-preview/route.ts:19 | `new URL(ref, base)`. `ResolvedCanonical`, `NoSchemeKeepsScheme`, `SchemeRelativeTakesScheme`, `AbsoluteReferenceKept` and `RootRelativeShape` state its properties. |
| Urls.Href | app/api/link-preview/route.ts:19 | The `.href` serialisation. `HrefRoundTrip` states that `Parse` inverts it on canonical URLs. |
| Urls.OriginText | app/api/link-preview/route.ts:18 | The `.origin` serialisation, `"null"` without a special scheme. `OriginParses` states what parsing it gives. |
| Urls.HrefRoundTrip | app/api/link-preview/route.ts:19 | Parsing the `href` of a canonical URL gives the URL back. |
| Urls.OriginParses | app/api/link-preview/route.ts:18 | The origin string of a URL with a special scheme parses to its scheme, host and port with path `/` and no query. |
| Urls.ParsedCanonical | app/api/link-preview/route.ts:18 | Whatever parses is canonical. |
| Urls.ResolvedCanonical | app/api/link-preview/route.ts:19 | Resolving against a canonical base gives a canonical URL. |
| Urls.RemoveDotsShape | app/api/link-preview/route.ts:19 | Dot-segment removal gives a path starting with `/`, adds no new characters, and is idempotent. |
| Products.Matches | components/ProductOverview.tsx:118-122 | The client filter's test on one product. `FilteredExact` states what it admits. |
| Products.Filtered | components/ProductOverview.tsx:117-123 | The visible list. `FilteredExact`, `FilteredIdempotent`, `InitialShowsAll` and `NarrowingShrinks` state its properties. |
| Products.ServerQuery | components/ProductOverview.tsx:47-57 | The conditional store query built from the criteria. `ServerAgreesWithClient` and `NegativeVotesDiverge` relate it to the client filter. |
| Products.Select | components/ProductOverview.tsx:42-57 | The rows a query selects. `SelectIsFiltered` relates it to the client filter. |
| Products.SortByVotes | components/ProductOverview.tsx:45 | The `upvotes` descending order. `SortByVotesCorrect` states that it is a sorted permutation. |
| Products.RunQuery | components/ProductOverview.tsx:42-59 | The ordered query result. `RunQueryCorrect` and `FetchedAllShown` state its properties. |
| Products.FilteredExact | components/ProductOverview.tsx:117-123 | The visible list holds exactly the products whose lower-cased name contains the lower-cased term, whose category is the selected one (or "All" is selected), and whose upvotes reach the minimum. Each keeps its number of occurrences, and the list is a subsequence of the products. |
| Products.FilteredIdempotent | components/ProductOverview.tsx:117-123 | Filtering the visible list again with the same criteria gives it back. |
| Products.InitialShowsAll | components/ProductOverview.tsx:117-123 | With the initial criteria (`''`, `All`, `0`), every product with non-negative upvotes is shown. |
| Products.NarrowingShrinks | components/ProductOverview.tsx:120-121 | Raising the minimum, or choosing a category where "All" was selected, gives the earlier result filtered again, so a subsequence of it. |
| Products.ServerAgreesWithClient | components/ProductOverview.tsx:47-57 | For a row with non-negative upvotes, the store query admits the row iff the client filter keeps it. |
| Products.NegativeVotesDiverge | components/ProductOverview.tsx:55-57 | A row with negative upvotes passes the initial query but not the initial filter. |
| Products.SelectIsFiltered | components/ProductOverview.tsx:42-57 | On a table with non-negative upvotes, the query's row selection equals the client filter. |
| Products.SortByVotesCorrect | components/ProductOverview.tsx:45 | The ordering is a permutation with upvotes non-increasing. |
| Products.RunQueryCorrect | components/ProductOverview.tsx:42-59 | The query returns each admitted table row as often as it occurs and nothing else, highest upvotes first. |
| Products.FetchedAllShown | components/ProductOverview.tsx:117-123 | After fetching with the listing's criteria, on a table with non-negative upvotes, the client filter removes nothing. |
| Products.FindById | components/ProductOverview.tsx:100 | `find` by id gives None iff no product has the id; otherwise it gives the first product with it. |
| Products.SetUpvotes | components/ProductOverview.tsx:100-101 | The update keeps the length and every id. |
| Products.SetUpvotesEffect | components/ProductOverview.tsx:100-101 | After the update, every row with the id carries the new count, so the first one is the earlier first row with the new count. A table without the id is unchanged, and so is every row with another id. |
| ProductOverview.NewRow | components/ProductOverview.tsx:77 | An inserted product has 0 upvotes, is not upvoted, and carries the submitted fields with the store's id and time. |
| ProductOverview.Overview.Shown | components/ProductOverview.tsx:117-123 | The listing's visible products, the client filter of the fetched products under the current criteria. `FetchThenShowAll` states what it shows after a fetch. |
| ProductOverview.Overview.constructor | components/ProductOverview.tsx:29-33 | The listing starts with no products, the initial criteria and loading set. |
| ProductOverview.Overview.FetchProducts | components/ProductOverview.tsx:40-72 | The query is built one conditional filter at a time and equals `ServerQuery` of the current criteria. On success the products become its ordered rows; on an error they stay. Loading ends false and the criteria do not change. |
| ProductOverview.Overview.ChangeCriteria | components/ProductOverview.tsx:36-38 | Changing a control sets the criteria and fetches again. |
| ProductOverview.Overview.HandleUpvote | components/ProductOverview.tsx:97-115 | With no listed product for the id, or an error from the store, nothing changes. Otherwise the table becomes `SetUpvotes` with the first listed count plus one, and the listing fetches again when the table had the id. |
| ProductOverview.Overview.AddProduct | components/ProductOverview.tsx:74-95 | On success the table gains the new row with 0 upvotes and the listing fetches again; on an error nothing changes. |
| ProductOverview.FetchThenShowAll | components/ProductOverview.tsx:117-123 | After a successful fetch on a table with non-negative upvotes, the visible list is the fetched list and is ordered by upvotes. |
| ProductOverview.AddedRowListed | components/ProductOverview.tsx:74-95 | After adding, the new product is among the fetched rows iff the current query admits it. |
| ProductDetail.Toggle | components/ProductDetail.tsx:34-38 | The updated product record. `ToggleEffect`, `ToggleTwice` and `ToggleKeepsInvariant` state its properties. |
| ProductDetail.ToggleEffect | components/ProductDetail.tsx:34-38 | The toggle flips `upvoted`, adds 1 when it was false and subtracts 1 when it was true, and changes no other field. |
| ProductDetail.ToggleTwice | components/ProductDetail.tsx:34-38 | Toggling twice gives the original product. |
| ProductDetail.ToggleKeepsInvariant | components/ProductDetail.tsx:36-37 | `upvoted ==> upvotes >= 1` and `upvotes >= 0` survive a toggle. |
| ProductDetail.ReplaceById | components/ProductDetail.tsx:42-44 | The rewrite keeps the length. Every entry with the id becomes the updated product, and all others are unchanged. |
| ProductDetail.ReplaceIdempotent | components/ProductDetail.tsx:42-44 | Rewriting twice with the same product is rewriting once. |
| ProductDetail.ReplaceAbsent | components/ProductDetail.tsx:42-44 | A list without the id is written back unchanged. |
| ProductDetail.ReplaceOverrides | components/ProductDetail.tsx:42-44 | A later rewrite of the same id overrides an earlier one. |
| ProductDetail.ReplaceThenFind | components/ProductDetail.tsx:42-44 | After the rewrite, finding the id gives the updated product iff the list had the id. |
| ProductDetail.ReplaceKeepsInvariant | components/ProductDetail.tsx:42-44 | The rewrite keeps the vote invariant for every stored product. |
| ProductDetail.TwoClicks | components/ProductDetail.tsx:33-46 | Two clicks restore the product and leave the stored list as if the original product had been written back once. |
| ProductDetail.CategoryEmoji | components/ProductDetail.tsx:28-31 | The icon is that of the first category with the name, or the globe when no category has it. |
| ProductDetail.LocalStore.constructor | components/ProductDetail.tsx:21 | Browser storage holds the given decoded list. |
| ProductDetail.DetailView.constructor | components/ProductDetail.tsx:16-17 | The page starts by showing the product it was opened with. When that product and the stored list keep the vote invariant, the page state is valid. |
| ProductDetail.DetailView.LoadStored | components/ProductDetail.tsx:20-26 | The displayed product becomes the first stored product with the initial id, or stays as it was. The vote invariant is kept. |
| ProductDetail.DetailView.HandleUpvote | components/ProductDetail.tsx:33-46 | The displayed product is toggled and written over every stored entry with its id. The vote invariant is kept. |

## Left out

- The request body, the page fetch and HTML parsing (`req.json`, `fetch`, `cheerio.load`) are I/O and a foreign parser. `Handle` takes the URL and the four extracted attribute values as inputs, with None for a failure.
- Console logging, toasts, React hooks, effect scheduling and all rendering are left out. This includes the grid/list switch and the modal flag.
- The concurrency of the asynchronous handlers is left out: overlapping fetches and responses arriving out of order are not modelled. A criteria change is modelled as one change followed by its fetch.
- URL parsing is restricted, so for some inputs `Parse` and `Resolve` return None, or an href different from the browser's. Left out are:
  - userinfo, IPv4 and IPv6 host parsing, IDNA and percent-encoding (a space in a path stays a space where the browser writes `%20`);
  - stripping of leading, trailing and interior whitespace (a reference such as ` http://a/x.png` becomes a path under the origin where the browser drops the space and keeps the absolute URL);
  - extra slashes after a special scheme (`///c` gives None where the browser gives `https://c/`);
  - a special scheme followed by fewer than two slashes (`https:x.io/p`, or `ws:x` against an https page) gives None where the browser inserts `//`. As a result `Handle` answers the error body for a page URL written `https:x.io/p` with a relative image, where the route answers a preview;
  - a non-special scheme followed by a single `/` (`foo:/a/../b` is kept as an opaque path with its dot segments where the browser gives `foo:/b`);
  - `\` treated as `/` for special schemes;
  - references such as `https:foo` that reuse a special base's scheme without `//`;
  - the `file:` scheme;
  - relative references against an opaque base;
  - the full forbidden-host code point list.
- The store's network calls are not modelled. Its answers are parameters, and its query semantics are the pure `Select`, `SortByVotes` and `RunQuery`. A fetch that returns no data and no error (`data || []`) is not modelled separately.
- Urls.Parse: a special scheme followed by fewer than two slashes (`https:x.io/p`) gives None, where the browser inserts the missing `//`.
- Urls.Resolve: an absolute reference with a special scheme and fewer than two slashes (`ws:x` against an https base) gives None, where the browser gives `ws://x/`.
- `Handle` takes the fetched page independently of the URL, so it also covers a fetch that succeeds for a URL `Parse` rejects. The route never reaches that case, because `fetch` throws on such a URL.
- Products.SortByVotes: ties keep their table order, whereas the store leaves the order of equal counts unspecified.
- ProductOverview.Overview.HandleUpvote: the update is treated as successful whenever some row has the id. `.single()` would also report an error, and skip the refetch, when several rows share the id.
- SQL `ilike` wildcards (`%` and `_` inside the search term) are not modelled, and neither is Unicode case mapping. The model uses ASCII lower-casing and plain substring containment.
- JavaScript numbers are modelled as unbounded integers. The `Number(...)` conversion of the minimum-votes control is left out, and any integer minimum is allowed.
- Browser storage reads and writes, and `JSON.parse`/`JSON.stringify`, are left out. The stored list is the decoded sequence held by `LocalStore`, and a parse error of corrupt storage is not modelled.
- ProductOverview.NewRow: the add-product form also submits `id: ''` and `upvoted: false`, which the insert forwards; the model lets the store choose the id and drops `upvoted`. A store that rejects such a row is covered by the `insertFails` parameter of `AddProduct`.
- The category list is not part of this model. `CategoryEmoji` takes it as a parameter.
- Some record fields are simplified:
  - the id type is abstract, since the listing declares it a number and the grid a string;
  - `upvoted`, which the stored rows lack, is false;
  - `undefined` versus `false` is not distinguished.
- The rendering-only components, the add-product form's file upload, authentication, the home page, the build configuration and the generated database types are not part of this model.
