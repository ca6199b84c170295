/** Ranking of the images found on a page: first discovery of a key wins, four buckets, a cap. */
module ContentSearch {
  import opened Domain
  import opened LicenseRules
  import opened UrlNorm
  import opened Thumbnails
  import opened Ranking

  const LOGO_BANNER_PATTERNS: seq<string> :=
    ["favicon", "logo", "icon", "banner", "sprite", "badge", "button", "widget", "avatar"]

  const CONTENT_SKIP_PATTERNS: seq<string> :=
    ["logo", "icon", "avatar", "sprite", "favicon", "placeholder", "stub", "banner"]

  datatype Discovery = Discovery(url: string, title: string, bucket: Bucket)

  /** The page under search and the library functions applied to its URLs. */
  datatype Context = Context(
    pageURL: string,
    env: Env,
    clean: string -> string,    // trim and HTML-unescape
    domain: string -> string,   // registrable domain, "" when there is none
    tokens: seq<string>)        // slug tokens of page and query

  // ---- One discovery

  predicate Fetchable(ctx: Context, d: Discovery) {
    ctx.clean(d.url) != "" && "http" <= ctx.clean(d.url)
  }

  function Key(ctx: Context, d: Discovery): string {
    NormalizeImgURL(ctx.clean(d.url))
  }

  predicate Presentable(ctx: Context, d: Discovery) {
    && !Mentions(ctx.env.lower(ctx.clean(d.url)), LOGO_BANNER_PATTERNS)
    && !Classify(ctx.env, ctx.clean(d.url), ctx.pageURL, [], []).Blocked?
  }

  function CandidateOf(ctx: Context, d: Discovery): Candidate {
    var url := ctx.clean(d.url);
    Candidate(url, "", ctx.pageURL, d.title, Classify(ctx.env, url, ctx.pageURL, [], []), 0, 0, "")
  }

  function ItemOf(ctx: Context, d: Discovery): Item {
    Item(Fetchable(ctx, d), Key(ctx, d), Presentable(ctx, d), d.bucket, CandidateOf(ctx, d))
  }

  function Items(ctx: Context, ds: seq<Discovery>): seq<Item> {
    seq(|ds|, k requires 0 <= k < |ds| => ItemOf(ctx, ds[k]))
  }

  lemma ItemsSnoc(ctx: Context, ds: seq<Discovery>, d: Discovery)
    ensures Items(ctx, ds + [d]) == Items(ctx, ds) + [ItemOf(ctx, d)]
  {
  }

  // ---- The collector: what Search mutates

  class Collector {
    const ctx: Context
    var seen: set<string>
    var priority: seq<Candidate>
    var normal: seq<Candidate>
    var jsonld: seq<Candidate>
    var ogFallback: seq<Candidate>
    ghost var log: seq<Discovery>

    ghost predicate Valid()
      reads this
    {
      var items := Items(ctx, log);
      && SeenIs(items, seen)
      && priority == Filled(items, Slug) && normal == Filled(items, Content)
      && jsonld == Filled(items, JsonLd) && ogFallback == Filled(items, Social)
    }

    constructor (ctx: Context)
      ensures Valid() && log == [] && this.ctx == ctx
    {
      this.ctx := ctx;
      seen, log := {}, [];
      priority, normal, jsonld, ogFallback := [], [], [], [];
    }

    method AddIfNew(d: Discovery)
      requires Valid()
      modifies this
      ensures Valid() && log == old(log) + [d]
    {
      var clean := ctx.clean(d.url);
      ItemsSnoc(ctx, log, d);
      if clean == "" || !("http" <= clean) {
        Record(d, Item(false, Key(ctx, d), Presentable(ctx, d), d.bucket, CandidateOf(ctx, d)));
        return;
      }
      var norm := NormalizeImgURL(clean);
      var logo := AnyContained(ctx.env.lower(clean), LOGO_BANNER_PATTERNS);
      var license := CheckLicenseWith(ctx.env, clean, ctx.pageURL, [], []);
      Record(d, Item(true, norm, !logo && license != Blocked, d.bucket,
                     Candidate(clean, "", ctx.pageURL, d.title, license, 0, 0, "")));
    }

    /** The mutating half: remember the key of a new image, then append it if it may be shown. */
    method Record(ghost d: Discovery, x: Item)
      requires Valid() && Items(ctx, log + [d]) == Items(ctx, log) + [x]
      modifies this
      ensures Valid() && log == old(log) + [d]
    {
      OneMore(Items(ctx, log), x, seen);
      log := log + [d];
      if !x.fetchable || x.key in seen {
        return;
      }
      seen := seen + {x.key};
      if !x.presentable {
        return;
      }
      match x.bucket {
        case Slug => priority := priority + [x.candidate];
        case Content => normal := normal + [x.candidate];
        case JsonLd => jsonld := jsonld + [x.candidate];
        case Social => ogFallback := ogFallback + [x.candidate];
      }
    }
  }

  // ---- The search over an already fetched page

  /** An image tag: its src and the digits of its width and height attributes ("" when absent). */
  datatype ImgTag = ImgTag(src: string, width: string, height: string)

  /** What the HTML scanners extract; `twitter` is None when no such tag exists. */
  datatype Page = Page(og: string, twitter: Option<string>, jsonld: seq<string>, imgs: seq<ImgTag>)

  predicate IsSlugMatch(ctx: Context, url: string) {
    Mentions(ctx.env.lower(Base(url)), ctx.tokens)
  }

  function OgDiscoveries(page: Page): seq<Discovery> {
    (if page.og != "" then [Discovery(page.og, "og:image", Social)] else []) +
    (if page.twitter.Some? then [Discovery(page.twitter.value, "twitter:image", Social)] else [])
  }

  function JsonLdDiscovery(url: string): seq<Discovery> {
    if url != "" then [Discovery(url, "jsonld:image", JsonLd)] else []
  }

  /** What each element leads to, one after the other. */
  function Collected<T>(f: T -> seq<Discovery>, xs: seq<T>): seq<Discovery> {
    if xs == [] then [] else Collected(f, xs[..|xs| - 1]) + f(xs[|xs| - 1])
  }

  function JsonLdDiscoveries(urls: seq<string>): seq<Discovery> {
    Collected(JsonLdDiscovery, urls)
  }

  /** An image tag leads to a discovery only if it is on the page's domain, content-like and not tiny. */
  function ImgDiscovery(ctx: Context, tag: ImgTag): seq<Discovery> {
    var src := ctx.clean(tag.src);
    if tag.src == "" || !("http" <= src) || ctx.domain(src) != ctx.domain(ctx.pageURL) || ctx.domain(ctx.pageURL) == ""
       || Mentions(ctx.env.lower(src), CONTENT_SKIP_PATTERNS) || IsTinyThumbnail(src, tag.width, tag.height)
    then []
    else if IsSlugMatch(ctx, NormalizeImgURL(src)) then [Discovery(NormalizeImgURL(src), "content:img:slug", Slug)]
    else [Discovery(NormalizeImgURL(src), "content:img", Content)]
  }

  function OnPage(ctx: Context): ImgTag -> seq<Discovery> {
    tag => ImgDiscovery(ctx, tag)
  }

  function ImgDiscoveries(ctx: Context, tags: seq<ImgTag>): seq<Discovery> {
    Collected(OnPage(ctx), tags)
  }

  /** Everything found on the page, in the order in which the search looks. */
  function Discoveries(ctx: Context, page: Page): seq<Discovery> {
    OgDiscoveries(page) + JsonLdDiscoveries(page.jsonld) + ImgDiscoveries(ctx, page.imgs)
  }

  method Search(ctx: Context, page: Option<Page>) returns (out: seq<Candidate>)
    ensures out == if ctx.pageURL == "" || page.None? then [] else Ranked(Items(ctx, Discoveries(ctx, page.value)))
  {
    if ctx.pageURL == "" || page.None? {
      return [];
    }
    var c := Collect(ctx, page.value);
    out := c.priority + c.normal + c.jsonld + c.ogFallback;
    if |out| > CONTENT_MAX_RESULTS {
      out := out[..CONTENT_MAX_RESULTS];
    }
  }

  /** One pass over the page: social tags, then JSON-LD, then image tags. */
  method Collect(ctx: Context, page: Page) returns (c: Collector)
    ensures c.Valid() && c.ctx == ctx && c.log == Discoveries(ctx, page)
  {
    c := new Collector(ctx);
    AddSocial(c, page);
    ghost var social := c.log;
    AddJsonLd(c, page.jsonld);
    ghost var linked := c.log;
    AddTags(c, page.imgs);
    assert social == OgDiscoveries(page);
    assert linked == social + JsonLdDiscoveries(page.jsonld);
    assert c.log == linked + ImgDiscoveries(ctx, page.imgs);
  }

  method AddSocial(c: Collector, page: Page)
    requires c.Valid()
    modifies c
    ensures c.Valid() && c.log == old(c.log) + OgDiscoveries(page)
  {
    if page.og != "" {
      c.AddIfNew(Discovery(page.og, "og:image", Social));
    }
    if page.twitter.Some? {
      c.AddIfNew(Discovery(page.twitter.value, "twitter:image", Social));
    }
  }

  method AddJsonLd(c: Collector, urls: seq<string>)
    requires c.Valid()
    modifies c
    ensures c.Valid() && c.log == old(c.log) + JsonLdDiscoveries(urls)
  {
    for k := 0 to |urls|
      invariant c.Valid() && c.log == old(c.log) + JsonLdDiscoveries(urls[..k])
    {
      CollectedSnoc(JsonLdDiscovery, urls, k, old(c.log));
      if urls[k] != "" {
        c.AddIfNew(Discovery(urls[k], "jsonld:image", JsonLd));
      }
    }
    assert urls[..|urls|] == urls;
  }

  lemma CollectedSnoc<T>(f: T -> seq<Discovery>, xs: seq<T>, k: nat, log: seq<Discovery>)
    requires k < |xs|
    ensures log + Collected(f, xs[..k + 1]) == log + Collected(f, xs[..k]) + f(xs[k])
  {
    assert xs[..k + 1][..k] == xs[..k];
  }

  method AddTags(c: Collector, tags: seq<ImgTag>)
    requires c.Valid()
    modifies c
    ensures c.Valid() && c.log == old(c.log) + ImgDiscoveries(c.ctx, tags)
  {
    for k := 0 to |tags|
      invariant c.Valid() && c.log == old(c.log) + ImgDiscoveries(c.ctx, tags[..k])
    {
      CollectedSnoc(OnPage(c.ctx), tags, k, old(c.log));
      AddTag(c, tags[k]);
    }
    assert tags[..|tags|] == tags;
  }

  method AddTag(c: Collector, tag: ImgTag)
    requires c.Valid()
    modifies c
    ensures c.Valid() && c.log == old(c.log) + ImgDiscovery(c.ctx, tag)
  {
    var ctx := c.ctx;
    if tag.src == "" {
      return;
    }
    var src := ctx.clean(tag.src);
    if !("http" <= src) {
      return;
    }
    if ctx.domain(src) != ctx.domain(ctx.pageURL) || ctx.domain(ctx.pageURL) == "" {
      return;
    }
    var skip := AnyContained(ctx.env.lower(src), CONTENT_SKIP_PATTERNS);
    if skip {
      return;
    }
    if IsTinyThumbnail(src, tag.width, tag.height) {
      return;
    }
    src := NormalizeImgURL(src);
    var slug := AnyContained(ctx.env.lower(Base(src)), ctx.tokens);
    if slug {
      c.AddIfNew(Discovery(src, "content:img:slug", Slug));
    } else {
      c.AddIfNew(Discovery(src, "content:img", Content));
    }
  }

  // ---- Guarantees

  /** Discovery `i` is the first one that can be fetched and has its key. */
  ghost predicate FirstOfKey(ctx: Context, ds: seq<Discovery>, i: nat)
    requires i < |ds|
  {
    Fetchable(ctx, ds[i]) && forall j | 0 <= j < i && Fetchable(ctx, ds[j]) :: Key(ctx, ds[j]) != Key(ctx, ds[i])
  }

  lemma FirstAgrees(ctx: Context, ds: seq<Discovery>, i: nat)
    requires i < |ds| && First(Items(ctx, ds), i)
    ensures FirstOfKey(ctx, ds, i)
  {
    forall j | 0 <= j < i && Fetchable(ctx, ds[j])
      ensures Key(ctx, ds[j]) != Key(ctx, ds[i])
    {
      assert Items(ctx, ds)[j].fetchable;
    }
  }

  /** A candidate fit to be returned for this page. */
  predicate Fit(ctx: Context, c: Candidate) {
    && c.source == ctx.pageURL
    && !c.license.Blocked?
    && c.license == Classify(ctx.env, c.imgURL, ctx.pageURL, [], [])
    && !Mentions(ctx.env.lower(c.imgURL), LOGO_BANNER_PATTERNS)
    && "http" <= c.imgURL
  }

  lemma KeptIsFit(ctx: Context, ds: seq<Discovery>, i: nat)
    requires i < |ds| && Kept(Items(ctx, ds), i)
    ensures Fit(ctx, CandidateOf(ctx, ds[i]))
  {
  }

  /**
   * The output has at most eight candidates with pairwise distinct keys; none is Blocked or
   * logo-like; each stands for the first discovery of its key on the page.
   */
  lemma SearchGuarantees(ctx: Context, ds: seq<Discovery>)
    ensures
      var out := Ranked(Items(ctx, ds));
      && |out| <= CONTENT_MAX_RESULTS
      && (forall x, y | 0 <= x < y < |out| :: NormalizeImgURL(out[x].imgURL) != NormalizeImgURL(out[y].imgURL))
      && (forall x | 0 <= x < |out| ::
            Fit(ctx, out[x]) && exists i: nat :: i < |ds| && FirstOfKey(ctx, ds, i) && out[x] == CandidateOf(ctx, ds[i]))
  {
    var items := Items(ctx, ds);
    var os := RankedOrigins(items);
    var out := Ranked(items);
    forall x | 0 <= x < |out|
      ensures os[x] < |ds| && out[x] == CandidateOf(ctx, ds[os[x]]) && NormalizeImgURL(out[x].imgURL) == items[os[x]].key
      ensures Fit(ctx, out[x]) && FirstOfKey(ctx, ds, os[x])
    {
      KeptIsFit(ctx, ds, os[x]);
      FirstAgrees(ctx, ds, os[x]);
    }
  }

  /** The candidate made from a discovery. */
  predicate MadeFrom(ctx: Context, d: Discovery, c: Candidate) {
    && c.imgURL == ctx.clean(d.url) && c.title == d.title && c.source == ctx.pageURL
    && c.license == Classify(ctx.env, ctx.clean(d.url), ctx.pageURL, [], [])
    && c.thumbnail == "" && c.engine == "" && c.width == 0 && c.height == 0
  }

  /** A discovery that can be shown: an http URL that is neither logo-like nor blocked. */
  predicate Showable(ctx: Context, d: Discovery) {
    && "http" <= ctx.clean(d.url)
    && !Mentions(ctx.env.lower(ctx.clean(d.url)), LOGO_BANNER_PATTERNS)
    && Classify(ctx.env, ctx.clean(d.url), ctx.pageURL, [], []) != Blocked
  }

  /** No earlier http URL normalises to the same key. */
  ghost predicate NewKey(ctx: Context, ds: seq<Discovery>, i: nat)
    requires i < |ds|
  {
    forall j | 0 <= j < i && "http" <= ctx.clean(ds[j].url) ::
      NormalizeImgURL(ctx.clean(ds[j].url)) != NormalizeImgURL(ctx.clean(ds[i].url))
  }

  /** Slug matches first, then other images of the page, then JSON-LD, then social tags; earlier finds first. */
  predicate RanksBefore(ds: seq<Discovery>, i: nat, j: nat)
    requires i < |ds| && j < |ds|
  {
    match ds[i].bucket
    case Slug => ds[j].bucket != Slug || i < j
    case Content => ds[j].bucket == JsonLd || ds[j].bucket == Social || (ds[j].bucket == Content && i < j)
    case JsonLd => ds[j].bucket == Social || (ds[j].bucket == JsonLd && i < j)
    case Social => ds[j].bucket == Social && i < j
  }

  lemma KeptExactly(ctx: Context, ds: seq<Discovery>, i: nat)
    requires i < |ds|
    ensures Kept(Items(ctx, ds), i) <==> Showable(ctx, ds[i]) && NewKey(ctx, ds, i)
  {
    var items := Items(ctx, ds);
    assert forall j | 0 <= j < |ds| :: items[j].fetchable <==> "http" <= ctx.clean(ds[j].url);
  }

  lemma PrecedesExactly(ctx: Context, ds: seq<Discovery>, i: nat, j: nat)
    requires i < |ds| && j < |ds|
    ensures Precedes(Items(ctx, ds), i, j) <==> RanksBefore(ds, i, j)
  {
    var items := Items(ctx, ds);
    assert items[i].bucket == ds[i].bucket && items[j].bucket == ds[j].bucket;
    BucketsRank(ds, items, i, j);
  }

  lemma BucketsRank(ds: seq<Discovery>, items: seq<Item>, i: nat, j: nat)
    requires i < |ds| == |items| && j < |ds| && items[i].bucket == ds[i].bucket && items[j].bucket == ds[j].bucket
    ensures Precedes(items, i, j) <==> RanksBefore(ds, i, j)
  {
  }

  /**
   * The exact output: each candidate is made from a showable discovery with a new key; they come in
   * ranking order; and such a discovery is missing only when eight that rank before it are there.
   */
  lemma SearchExactly(ctx: Context, ds: seq<Discovery>) returns (os: seq<nat>)
    ensures
      var out := Ranked(Items(ctx, ds));
      && |os| == |out| <= 8
      && (forall x | 0 <= x < |os| :: os[x] < |ds| && MadeFrom(ctx, ds[os[x]], out[x]))
      && (forall x | 0 <= x < |os| :: Showable(ctx, ds[os[x]]) && NewKey(ctx, ds, os[x]))
      && (forall x, y | 0 <= x < y < |os| :: RanksBefore(ds, os[x], os[y]))
      && (forall i: nat | i < |ds| && Showable(ctx, ds[i]) && NewKey(ctx, ds, i) && i !in os ::
            |os| == 8 && forall x | 0 <= x < |os| :: RanksBefore(ds, os[x], i))
  {
    var items := Items(ctx, ds);
    os := RankedOrigins(items);
    forall i: nat | i < |ds|
      ensures MadeFrom(ctx, ds[i], items[i].candidate)
      ensures Kept(items, i) <==> Showable(ctx, ds[i]) && NewKey(ctx, ds, i)
    {
      KeptExactly(ctx, ds, i);
    }
    forall i: nat, j: nat | i < |ds| && j < |ds|
      ensures Precedes(items, i, j) <==> RanksBefore(ds, i, j)
    {
      PrecedesExactly(ctx, ds, i, j);
    }
  }

  // ---- What the page contributes

  /** The discovery that an image tag leads to, if it leads to one: on the page's own domain, content-like, not tiny. */
  ghost predicate TagYields(ctx: Context, tag: ImgTag, d: Discovery) {
    var src := ctx.clean(tag.src);
    var full := NormalizeImgURL(src);
    && tag.src != "" && "http" <= src
    && ctx.domain(ctx.pageURL) != "" && ctx.domain(src) == ctx.domain(ctx.pageURL)
    && !Mentions(ctx.env.lower(src), CONTENT_SKIP_PATTERNS)
    && !IsTinyThumbnail(src, tag.width, tag.height)
    && d == if Mentions(ctx.env.lower(Base(full)), ctx.tokens) then Discovery(full, "content:img:slug", Slug)
            else Discovery(full, "content:img", Content)
  }

  /** Where on the page a discovery was made: social tags are read first, then JSON-LD, then image tags. */
  function Reading(d: Discovery): nat {
    match d.bucket
    case Social => 0
    case JsonLd => 1
    case Slug => 2
    case Content => 2
  }

  /** Everything that is found on a page, where it is put, and in which order it is read. */
  lemma DiscoveriesExactly(ctx: Context, page: Page)
    ensures
      var ds := Discoveries(ctx, page);
      && (forall d :: d in ds <==>
            || (page.og != "" && d == Discovery(page.og, "og:image", Social))
            || (page.twitter.Some? && d == Discovery(page.twitter.value, "twitter:image", Social))
            || (d.url != "" && d.url in page.jsonld && d == Discovery(d.url, "jsonld:image", JsonLd))
            || (exists tag :: tag in page.imgs && TagYields(ctx, tag, d)))
      && (forall x, y | 0 <= x < y < |ds| :: Reading(ds[x]) <= Reading(ds[y]))
      && (page.og != "" ==> ds[0] == Discovery(page.og, "og:image", Social))
  {
    forall d
      ensures d in JsonLdDiscoveries(page.jsonld) <==> d.url != "" && d.url in page.jsonld && d == Discovery(d.url, "jsonld:image", JsonLd)
      ensures d in ImgDiscoveries(ctx, page.imgs) <==> exists tag :: tag in page.imgs && TagYields(ctx, tag, d)
    {
      JsonLdExactly(page.jsonld, d);
      ImgExactly(ctx, page.imgs, d);
    }
    InReadingOrder(OgDiscoveries(page), JsonLdDiscoveries(page.jsonld), ImgDiscoveries(ctx, page.imgs));
  }

  lemma InReadingOrder(a: seq<Discovery>, b: seq<Discovery>, c: seq<Discovery>)
    requires forall d | d in a :: Reading(d) == 0
    requires forall d | d in b :: Reading(d) == 1
    requires forall d | d in c :: Reading(d) == 2
    ensures var ds := a + b + c; forall x, y | 0 <= x < y < |ds| :: Reading(ds[x]) <= Reading(ds[y])
  {
  }

  lemma {:induction false} CollectedMembers<T>(f: T -> seq<Discovery>, xs: seq<T>, d: Discovery)
    ensures d in Collected(f, xs) <==> exists x :: x in xs && d in f(x)
  {
    if xs != [] {
      var front, last := xs[..|xs| - 1], xs[|xs| - 1];
      assert xs == front + [last];
      CollectedMembers(f, front, d);
    }
  }

  /** What stands later on the page is read later. */
  lemma {:induction false} CollectedInOrder<T>(f: T -> seq<Discovery>, xs: seq<T>, more: seq<T>)
    ensures Collected(f, xs + more) == Collected(f, xs) + Collected(f, more)
  {
    if more == [] {
      assert xs + more == xs;
    } else {
      var front := more[..|more| - 1];
      assert (xs + more)[..|xs + more| - 1] == xs + front;
      CollectedInOrder(f, xs, front);
    }
  }

  /** Image tags and JSON-LD blocks are read in page order. */
  lemma ReadInPageOrder(ctx: Context, tags: seq<ImgTag>, more: seq<ImgTag>, urls: seq<string>, rest: seq<string>)
    ensures ImgDiscoveries(ctx, tags + more) == ImgDiscoveries(ctx, tags) + ImgDiscoveries(ctx, more)
    ensures JsonLdDiscoveries(urls + rest) == JsonLdDiscoveries(urls) + JsonLdDiscoveries(rest)
  {
    CollectedInOrder(OnPage(ctx), tags, more);
    CollectedInOrder(JsonLdDiscovery, urls, rest);
  }

  lemma JsonLdExactly(urls: seq<string>, d: Discovery)
    ensures d in JsonLdDiscoveries(urls) <==> d.url != "" && d.url in urls && d == Discovery(d.url, "jsonld:image", JsonLd)
  {
    CollectedMembers(JsonLdDiscovery, urls, d);
    forall url
      ensures d in JsonLdDiscovery(url) <==> url != "" && d == Discovery(url, "jsonld:image", JsonLd)
    {
    }
  }

  lemma ImgExactly(ctx: Context, tags: seq<ImgTag>, d: Discovery)
    ensures d in ImgDiscoveries(ctx, tags) <==> exists tag :: tag in tags && TagYields(ctx, tag, d)
  {
    CollectedMembers(OnPage(ctx), tags, d);
    forall tag
      ensures d in OnPage(ctx)(tag) <==> TagYields(ctx, tag, d)
    {
      TagExactly(ctx, tag, d);
    }
  }

  lemma TagExactly(ctx: Context, tag: ImgTag, d: Discovery)
    ensures d in ImgDiscovery(ctx, tag) <==> TagYields(ctx, tag, d)
  {
  }

  /** The image itself, when it bears no size, or one of its size variants. */
  ghost predicate Variant(stem: string, ext: string, url: string) {
    || (url == stem + ext && !HasSize(stem))
    || exists w, h :: Digits(w) && Digits(h) && w != "" && h != "" && url == stem + "-" + w + "x" + h + ext
  }

  lemma VariantsShareKey(stem: string, ext: string, url: string)
    requires IsExt(ext) && (ext == "" ==> NoDotInLast(stem)) && Variant(stem, ext, url)
    ensures NormalizeImgURL(url) == stem + ext
  {
    if url == stem + ext && !HasSize(stem) {
      ExtOfParts(stem, ext);
      NormalizeIsStrip(url);
    } else {
      var w, h :| Digits(w) && Digits(h) && w != "" && h != "" && url == stem + "-" + w + "x" + h + ext;
      SizeVariantsShareKey(stem, w, h, ext);
    }
  }

  /** Of an image and all its size variants at most one survives the search. */
  lemma OneVariantSurvives(ctx: Context, ds: seq<Discovery>, stem: string, ext: string)
    requires IsExt(ext) && (ext == "" ==> NoDotInLast(stem))
    ensures
      var out := Ranked(Items(ctx, ds));
      forall x, y | 0 <= x < y < |out| :: !(Variant(stem, ext, out[x].imgURL) && Variant(stem, ext, out[y].imgURL))
  {
    SearchGuarantees(ctx, ds);
    var out := Ranked(Items(ctx, ds));
    forall x, y | 0 <= x < y < |out| && Variant(stem, ext, out[x].imgURL)
      ensures !Variant(stem, ext, out[y].imgURL)
    {
      VariantsShareKey(stem, ext, out[x].imgURL);
      if Variant(stem, ext, out[y].imgURL) {
        VariantsShareKey(stem, ext, out[y].imgURL);
      }
    }
  }
}
