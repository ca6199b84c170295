/** License classification of a URL pair against the built-in and caller-supplied domain lists. */
module LicenseRules {
  import opened Domain
  import opened Text

  datatype ParsedUrl = ParsedUrl(host: string, path: string)

  /** The library functions the rules call: URL parsing (None on error) and lower-casing. */
  datatype Env = Env(parse: string -> Option<ParsedUrl>, lower: string -> string)

  const BLOCKED_DOMAINS: seq<string> := [
    "shutterstock", "gettyimages", "istockphoto", "adobestock", "depositphotos", "dreamstime", "123rf", "alamy",
    "bigstockphoto", "stocksy", "eyeem", "pond5", "thinkstockphotos", "canstockphoto", "masterfile", "superstock",
    "agefotostock", "colourbox", "photodune", "yayimages", "vectorstock", "loriimages", "fotobank", "freepik",
    "canva.", "clipartof", "featurepics", "rfclipart"]

  const BLOCKED_URL_PATTERNS: seq<string> := ["/stock-photo", "/stock-image", "/editorial-image", "/premium-photo"]

  const SAFE_DOMAINS: seq<string> := [
    "unsplash", "pexels", "pixabay", "wikimedia", "commons.wikimedia", "flickr", "rawpixel", "stocksnap",
    "burst.shopify", "kaboompics", "picjumbo"]

  // ---- Declarative rules

  /** Lower-cased host; empty for the empty URL, on a parse error and for a URL without host. */
  function Host(env: Env, url: string): string {
    if url == "" || env.parse(url).None? then "" else env.lower(env.parse(url).value.host)
  }

  function Path(env: Env, url: string): string {
    if url == "" || env.parse(url).None? then "" else env.lower(env.parse(url).value.path)
  }

  /** Some non-empty entry of the list occurs in the text. */
  predicate Mentions(text: string, entries: seq<string>) {
    exists k | 0 <= k < |entries| :: entries[k] != "" && Contains(text, entries[k])
  }

  predicate BlockedUrl(env: Env, url: string, extra: seq<string>) {
    && url != "" && env.parse(url).Some?
    && (|| (Host(env, url) != "" && (Mentions(Host(env, url), BLOCKED_DOMAINS) || Mentions(Host(env, url), extra)))
        || Mentions(Path(env, url), BLOCKED_URL_PATTERNS))
  }

  predicate SafeUrl(env: Env, url: string, extra: seq<string>) {
    Host(env, url) != "" && (Mentions(Host(env, url), SAFE_DOMAINS) || Mentions(Host(env, url), extra))
  }

  function Classify(env: Env, image: string, source: string, extraBlocked: seq<string>, extraSafe: seq<string>): License {
    if BlockedUrl(env, image, extraBlocked) || BlockedUrl(env, source, extraBlocked) then Blocked
    else if SafeUrl(env, image, extraSafe) || SafeUrl(env, source, extraSafe) then Safe
    else Unknown
  }

  // ---- The loops of the source

  method AnyContained(text: string, entries: seq<string>) returns (hit: bool)
    ensures hit <==> Mentions(text, entries)
  {
    for k := 0 to |entries|
      invariant forall m | 0 <= m < k :: entries[m] == "" || !Contains(text, entries[m])
    {
      if entries[k] != "" && Contains(text, entries[k]) {
        return true;
      }
    }
    return false;
  }

  method IsBlockedWith(env: Env, url: string, extra: seq<string>) returns (blocked: bool)
    ensures blocked <==> BlockedUrl(env, url, extra)
  {
    if url == "" || env.parse(url).None? {
      return false;
    }
    var host := env.lower(env.parse(url).value.host);
    if host != "" {
      blocked := AnyContained(host, BLOCKED_DOMAINS);
      if blocked {
        return;
      }
      blocked := AnyContained(host, extra);
      if blocked {
        return;
      }
    }
    blocked := AnyContained(env.lower(env.parse(url).value.path), BLOCKED_URL_PATTERNS);
  }

  method IsSafeWith(env: Env, url: string, extra: seq<string>) returns (safe: bool)
    ensures safe <==> SafeUrl(env, url, extra)
  {
    var host := Host(env, url);
    if host == "" {
      return false;
    }
    safe := AnyContained(host, SAFE_DOMAINS);
    if !safe {
      safe := AnyContained(host, extra);
    }
  }

  method CheckLicenseWith(env: Env, image: string, source: string, extraBlocked: seq<string>, extraSafe: seq<string>)
    returns (license: License)
    ensures license == Classify(env, image, source, extraBlocked, extraSafe)
  {
    var urls := [image, source];
    for k := 0 to 2
      invariant forall m | 0 <= m < k :: !BlockedUrl(env, urls[m], extraBlocked)
    {
      var blocked := IsBlockedWith(env, urls[k], extraBlocked);
      if blocked {
        return Blocked;
      }
    }
    assert !BlockedUrl(env, urls[0], extraBlocked) && !BlockedUrl(env, urls[1], extraBlocked);
    for k := 0 to 2
      invariant forall m | 0 <= m < k :: !SafeUrl(env, urls[m], extraSafe)
    {
      var safe := IsSafeWith(env, urls[k], extraSafe);
      if safe {
        return Safe;
      }
    }
    assert !SafeUrl(env, urls[0], extraSafe) && !SafeUrl(env, urls[1], extraSafe);
    return Unknown;
  }

  // ---- What decides a classification

  /** The lower-cased host of the URL contains the text. */
  ghost predicate HostHas(env: Env, url: string, d: string) {
    url != "" && env.parse(url).Some? && env.lower(env.parse(url).value.host) != "" &&
    Contains(env.lower(env.parse(url).value.host), d)
  }

  /** The lower-cased path of the URL contains the text. */
  ghost predicate PathHas(env: Env, url: string, p: string) {
    url != "" && env.parse(url).Some? && Contains(env.lower(env.parse(url).value.path), p)
  }

  /** Image and source page count alike. */
  lemma ClassifySymmetric(env: Env, image: string, source: string, eb: seq<string>, es: seq<string>)
    ensures Classify(env, image, source, eb, es) == Classify(env, source, image, eb, es)
  {
  }

  /** An agency or an extra blocked entry in either host, or a stock path in either URL, blocks: whatever the rest is. */
  lemma EvidenceBlocks(env: Env, image: string, source: string, url: string, eb: seq<string>, es: seq<string>, d: string)
    requires url == image || url == source
    requires || ((d in BLOCKED_DOMAINS || (d in eb && d != "")) && HostHas(env, url, d))
             || (d in ["/stock-photo", "/stock-image", "/editorial-image", "/premium-photo"] && PathHas(env, url, d))
    ensures Classify(env, image, source, eb, es) == Blocked
  {
    ListsAreFilled();
    assert d != "";
    if HostHas(env, url, d) && d in BLOCKED_DOMAINS {
      MentionsOne(Host(env, url), BLOCKED_DOMAINS, d);
    } else if HostHas(env, url, d) && d in eb {
      MentionsOne(Host(env, url), eb, d);
    } else {
      MentionsOne(Path(env, url), BLOCKED_URL_PATTERNS, d);
    }
  }

  /** A free source or an extra safe entry in either host makes what is not blocked safe. */
  lemma EvidenceFrees(env: Env, image: string, source: string, url: string, eb: seq<string>, es: seq<string>, d: string)
    requires (url == image || url == source) && (d in SAFE_DOMAINS || (d in es && d != "")) && HostHas(env, url, d)
    ensures Classify(env, image, source, eb, es) == if Classify(env, image, source, eb, []) == Blocked then Blocked else Safe
  {
    ListsAreFilled();
    MentionsOne(Host(env, url), if d in SAFE_DOMAINS then SAFE_DOMAINS else es, d);
  }

  /** Nothing else blocks or frees. */
  lemma NoOtherEvidence(env: Env, image: string, source: string, eb: seq<string>, es: seq<string>) returns (url: string, d: string)
    requires Classify(env, image, source, eb, es) != Unknown
    ensures url == image || url == source
    ensures Classify(env, image, source, eb, es) == Blocked ==>
              || ((d in BLOCKED_DOMAINS || (d in eb && d != "")) && HostHas(env, url, d))
              || (d in ["/stock-photo", "/stock-image", "/editorial-image", "/premium-photo"] && PathHas(env, url, d))
    ensures Classify(env, image, source, eb, es) == Safe ==>
              (d in SAFE_DOMAINS || (d in es && d != "")) && HostHas(env, url, d)
  {
    if Classify(env, image, source, eb, es) == Blocked {
      url := if BlockedUrl(env, image, eb) then image else source;
      if Mentions(Path(env, url), BLOCKED_URL_PATTERNS) {
        d := Mentioned(Path(env, url), BLOCKED_URL_PATTERNS);
      } else {
        d := Mentioned(Host(env, url), if Mentions(Host(env, url), BLOCKED_DOMAINS) then BLOCKED_DOMAINS else eb);
      }
    } else {
      url := if SafeUrl(env, image, es) then image else source;
      d := Mentioned(Host(env, url), if Mentions(Host(env, url), SAFE_DOMAINS) then SAFE_DOMAINS else es);
    }
  }

  lemma ListsAreFilled()
    ensures forall k | 0 <= k < |BLOCKED_DOMAINS| :: BLOCKED_DOMAINS[k] != ""
    ensures forall k | 0 <= k < |SAFE_DOMAINS| :: SAFE_DOMAINS[k] != ""
  {
  }

  lemma MentionsOne(text: string, entries: seq<string>, d: string)
    requires d in entries && d != "" && Contains(text, d)
    ensures Mentions(text, entries)
  {
  }

  lemma Mentioned(text: string, entries: seq<string>) returns (d: string)
    requires Mentions(text, entries)
    ensures d in entries && d != "" && Contains(text, d)
  {
    var k :| 0 <= k < |entries| && entries[k] != "" && Contains(text, entries[k]);
    d := entries[k];
  }

  /** An image on a neutral host whose source page is on a stock agency is blocked. */
  lemma StockPageExample(env: Env, image: string, source: string)
    requires source != "" && env.parse(source) == Some(ParsedUrl("www.shutterstock.com", "/"))
    requires env.lower("www.shutterstock.com") == "www.shutterstock.com"
    ensures Classify(env, image, source, [], []) == Blocked
  {
    var host := "www.shutterstock.com";
    assert host[4..16] == "shutterstock";
    assert OccursAt(host, "shutterstock", 4);
    assert BLOCKED_DOMAINS[0] == "shutterstock";
    EvidenceBlocks(env, image, source, source, [], [], "shutterstock");
  }

  // ---- Monotonicity in the extra lists

  ghost predicate Extends(bigger: seq<string>, smaller: seq<string>) {
    forall d | d in smaller :: d in bigger
  }

  lemma MentionsMore(text: string, smaller: seq<string>, bigger: seq<string>)
    requires Extends(bigger, smaller) && Mentions(text, smaller)
    ensures Mentions(text, bigger)
  {
    var k :| 0 <= k < |smaller| && smaller[k] != "" && Contains(text, smaller[k]);
    assert smaller[k] in smaller;
    var m :| 0 <= m < |bigger| && bigger[m] == smaller[k];
  }

  lemma BlockedMore(env: Env, url: string, smaller: seq<string>, bigger: seq<string>)
    requires Extends(bigger, smaller) && BlockedUrl(env, url, smaller)
    ensures BlockedUrl(env, url, bigger)
  {
    if Mentions(Host(env, url), smaller) {
      MentionsMore(Host(env, url), smaller, bigger);
    }
  }

  /** Enlarging the blocked list, and changing the safe list in any way, never un-blocks. */
  lemma ClassifyMonotone(env: Env, image: string, source: string, eb: seq<string>, es: seq<string>, eb': seq<string>, es': seq<string>)
    requires Extends(eb', eb)
    ensures Classify(env, image, source, eb, es).Blocked? ==> Classify(env, image, source, eb', es').Blocked?
  {
    if BlockedUrl(env, image, eb) {
      BlockedMore(env, image, eb, eb');
    }
    if BlockedUrl(env, source, eb) {
      BlockedMore(env, source, eb, eb');
    }
  }
}
