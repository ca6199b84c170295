/** Cached vision classification: two entry points that share one cache key per image URL. */
module ClassifyCache {
  import opened Domain
  import opened VisionParser

  datatype Download = Got(data: string, mimeType: string) | Unavailable

  /** What the classifier would answer if it were called now. */
  datatype Llm = Said(response: string) | Error

  /** One call of either entry point, with what the outside world would contribute to it. */
  datatype Request =
    | Full(url: string, download: Download, llm: Llm)
    | Predownloaded(url: string, data: string, mimeType: string, llm: Llm)

  /** Fixed configuration; `key` is the cache's own key function for the shared prefix. */
  datatype Config = Config(runes: Runes, hasClassifier: bool, hasCache: bool, hasCallback: bool, key: string -> string)

  datatype Audit = Audit(url: string, result: ClassificationResult)

  /** The bytes that reach the classifier; empty when there is nothing to classify. */
  function Payload(req: Request): string {
    match req
    case Full(_, download, _) => if download.Got? then download.data else ""
    case Predownloaded(_, data, _, _) => data
  }

  /** The classification without any cache. */
  function Fresh(cfg: Config, req: Request): ClassificationResult {
    if !cfg.hasClassifier || Payload(req) == "" || req.llm.Error? then NOTHING
    else Parse(cfg.runes, CLASSES, req.llm.response)
  }

  datatype State = State(cache: map<string, ClassificationResult>, calls: seq<string>, audit: seq<Audit>)

  /** Effects of classifying the payload: one classifier call and, on an answer, one audit event. */
  function Consult(cfg: Config, s: State, req: Request): State {
    if !cfg.hasClassifier || Payload(req) == "" then s
    else if req.llm.Said? && cfg.hasCallback then
      s.(calls := s.calls + [req.url], audit := s.audit + [Audit(req.url, Fresh(cfg, req))])
    else s.(calls := s.calls + [req.url])
  }

  function Step(cfg: Config, s: State, req: Request): (State, ClassificationResult) {
    if !cfg.hasClassifier then (s, NOTHING)
    else if !cfg.hasCache then (Consult(cfg, s, req), Fresh(cfg, req))
    else if cfg.key(req.url) in s.cache then (s, s.cache[cfg.key(req.url)])
    else
      var s' := Consult(cfg, s, req);
      (s'.(cache := s'.cache[cfg.key(req.url) := Fresh(cfg, req)]), Fresh(cfg, req))
  }

  /** The configured object; its methods update the cache and call the outside world. */
  class Session {
    const cfg: Config
    var cache: map<string, ClassificationResult>
    var calls: seq<string>
    var audit: seq<Audit>

    ghost function Now(): State
      reads this
    {
      State(cache, calls, audit)
    }

    constructor (cfg: Config)
      ensures this.cfg == cfg && Now() == State(map[], [], [])
    {
      this.cfg := cfg;
      cache, calls, audit := map[], [], [];
    }

    method ClassifyFromData(url: string, data: string, llm: Llm) returns (r: ClassificationResult)
      requires cfg.hasClassifier
      modifies this`calls, this`audit
      ensures r == Fresh(cfg, Predownloaded(url, data, "", llm))
      ensures Now() == Consult(cfg, old(Now()), Predownloaded(url, data, "", llm))
    {
      if data == "" {
        return NOTHING;
      }
      calls := calls + [url];
      if llm.Error? {
        return NOTHING;
      }
      r := ParseClassificationResult(cfg.runes, llm.response);
      if cfg.hasCallback {
        audit := audit + [Audit(url, r)];
      }
    }

    method DoClassifyFull(url: string, download: Download, llm: Llm) returns (r: ClassificationResult)
      requires cfg.hasClassifier
      modifies this`calls, this`audit
      ensures r == Fresh(cfg, Full(url, download, llm))
      ensures Now() == Consult(cfg, old(Now()), Full(url, download, llm))
    {
      if download.Unavailable? {
        return NOTHING;
      }
      r := ClassifyFromData(url, download.data, llm);
    }

    method ClassifyImageFull(url: string, download: Download, llm: Llm) returns (r: ClassificationResult)
      modifies this
      ensures (Now(), r) == Step(cfg, old(Now()), Full(url, download, llm))
    {
      if !cfg.hasClassifier {
        return NOTHING;
      }
      if cfg.hasCache {
        var cacheKey := cfg.key(url);
        if cacheKey in cache {
          return cache[cacheKey];
        }
        r := DoClassifyFull(url, download, llm);
        cache := cache[cacheKey := r];
      } else {
        r := DoClassifyFull(url, download, llm);
      }
    }

    method ClassifyPredownloaded(url: string, data: string, mimeType: string, llm: Llm) returns (r: ClassificationResult)
      modifies this
      ensures (Now(), r) == Step(cfg, old(Now()), Predownloaded(url, data, mimeType, llm))
    {
      if !cfg.hasClassifier {
        return NOTHING;
      }
      if cfg.hasCache {
        var cacheKey := cfg.key(url);
        if cacheKey in cache {
          return cache[cacheKey];
        }
        r := ClassifyFromData(url, data, llm);
        cache := cache[cacheKey := r];
      } else {
        r := ClassifyFromData(url, data, llm);
      }
    }
  }

  // ---- What a fresh classification is

  /** Nothing to classify, no classifier or an error degrade to the empty result; an answer is parsed. */
  lemma FreshExactly(cfg: Config, req: Request)
    ensures !cfg.hasClassifier || req.llm.Error? ==> Fresh(cfg, req) == ClassificationResult("", Finite(0.0))
    ensures req.Full? && req.download.Unavailable? ==> Fresh(cfg, req) == ClassificationResult("", Finite(0.0))
    ensures req.Full? && req.download.Got? && req.download.data == "" ==> Fresh(cfg, req) == ClassificationResult("", Finite(0.0))
    ensures req.Predownloaded? && req.data == "" ==> Fresh(cfg, req) == ClassificationResult("", Finite(0.0))
    ensures Answers(cfg, req) ==> Fresh(cfg, req) == Parse(cfg.runes, CLASSES, req.llm.response)
  {
  }

  /** The classifier is called with data and answers. */
  predicate Answers(cfg: Config, req: Request) {
    && cfg.hasClassifier && req.llm.Said?
    && (match req
        case Full(_, download, _) => download.Got? && download.data != ""
        case Predownloaded(_, data, _, _) => data != "")
  }

  /** Without a classifier nothing happens; without a cache every call with data asks; a cached answer asks nobody. */
  lemma StepExactly(cfg: Config, s: State, req: Request)
    ensures !cfg.hasClassifier ==> Step(cfg, s, req) == (s, ClassificationResult("", Finite(0.0)))
    ensures cfg.hasClassifier && !cfg.hasCache ==>
              && Step(cfg, s, req).1 == Fresh(cfg, req) && Step(cfg, s, req).0.cache == s.cache
              && Step(cfg, s, req).0.calls == s.calls + (if Payload(req) == "" then [] else [req.url])
              && Step(cfg, s, req).0.audit ==
                 s.audit + (if cfg.hasCallback && Answers(cfg, req) then [Audit(req.url, Fresh(cfg, req))] else [])
    ensures cfg.hasClassifier && cfg.hasCache && cfg.key(req.url) in s.cache ==>
              Step(cfg, s, req) == (s, s.cache[cfg.key(req.url)])
  {
  }

  // ---- Sequences of calls

  function After(cfg: Config, reqs: seq<Request>): State {
    if reqs == [] then State(map[], [], [])
    else Step(cfg, After(cfg, reqs[..|reqs| - 1]), reqs[|reqs| - 1]).0
  }

  /** The result of the k-th call. */
  function ResultOf(cfg: Config, reqs: seq<Request>, k: nat): ClassificationResult
    requires k < |reqs|
  {
    Step(cfg, After(cfg, reqs[..k]), reqs[k]).1
  }

  ghost predicate InjectiveKeys(cfg: Config) {
    forall u, v :: cfg.key(u) == cfg.key(v) ==> u == v
  }

  /** Index of the first call for the URL. */
  function FirstFor(reqs: seq<Request>, url: string): (k: nat)
    ensures k <= |reqs|
    ensures k < |reqs| ==> reqs[k].url == url
    ensures forall m | 0 <= m < k :: reqs[m].url != url
  {
    if reqs == [] then 0
    else
      var front := FirstFor(reqs[..|reqs| - 1], url);
      if front < |reqs| - 1 || reqs[|reqs| - 1].url == url then front else |reqs|
  }

  lemma FirstForPrefix(reqs: seq<Request>, more: seq<Request>, url: string)
    requires reqs <= more && FirstFor(reqs, url) < |reqs|
    ensures FirstFor(more, url) == FirstFor(reqs, url)
  {
    assert more[FirstFor(reqs, url)].url == url;
  }

  /** The cache remembers, for every URL asked about, the fresh answer to the first question. */
  ghost predicate Remembers(cfg: Config, reqs: seq<Request>, s: State) {
    forall u :: if FirstFor(reqs, u) < |reqs| then cfg.key(u) in s.cache && s.cache[cfg.key(u)] == Fresh(cfg, reqs[FirstFor(reqs, u)])
                else cfg.key(u) !in s.cache
  }

  /** No URL twice, and only URLs that were asked about. */
  ghost predicate OnceEach(reqs: seq<Request>, urls: seq<string>) {
    && (forall a, b | 0 <= a < b < |urls| :: urls[a] != urls[b])
    && (forall a | 0 <= a < |urls| :: FirstFor(reqs, urls[a]) < |reqs|)
  }

  function Urls(audit: seq<Audit>): seq<string> {
    seq(|audit|, k requires 0 <= k < |audit| => audit[k].url)
  }

  ghost predicate CalledOnce(reqs: seq<Request>, s: State) {
    OnceEach(reqs, s.calls) && OnceEach(reqs, Urls(s.audit))
  }

  lemma RemembersMore(cfg: Config, reqs: seq<Request>, s: State, req: Request)
    requires cfg.hasCache && cfg.hasClassifier && InjectiveKeys(cfg) && Remembers(cfg, reqs, s)
    ensures Remembers(cfg, reqs + [req], Step(cfg, s, req).0)
  {
    var more := reqs + [req];
    assert more[..|more| - 1] == reqs;
    var s' := Step(cfg, s, req).0;
    forall u
      ensures if FirstFor(more, u) < |more| then cfg.key(u) in s'.cache && s'.cache[cfg.key(u)] == Fresh(cfg, more[FirstFor(more, u)])
              else cfg.key(u) !in s'.cache
    {
      if FirstFor(reqs, u) < |reqs| {
        FirstForPrefix(reqs, more, u);
      }
    }
  }

  lemma FirstForGrows(reqs: seq<Request>, req: Request, url: string)
    ensures FirstFor(reqs, url) < |reqs| || req.url == url ==> FirstFor(reqs + [req], url) < |reqs + [req]|
  {
    var more := reqs + [req];
    assert more[|reqs|].url == req.url;
    if FirstFor(reqs, url) < |reqs| {
      FirstForPrefix(reqs, more, url);
    }
  }

  lemma OnceMore(reqs: seq<Request>, req: Request, urls: seq<string>, urls': seq<string>)
    requires OnceEach(reqs, urls)
    requires urls' == urls || (urls' == urls + [req.url] && FirstFor(reqs, req.url) == |reqs|)
    ensures OnceEach(reqs + [req], urls')
  {
    StillAsked(reqs, req, urls);
    if urls' != urls {
      FirstForGrows(reqs, req, req.url);
      assert forall a | 0 <= a < |urls| :: urls[a] != req.url;
    }
  }

  lemma StillAsked(reqs: seq<Request>, req: Request, urls: seq<string>)
    requires forall a | 0 <= a < |urls| :: FirstFor(reqs, urls[a]) < |reqs|
    ensures forall a | 0 <= a < |urls| :: FirstFor(reqs + [req], urls[a]) < |reqs + [req]|
  {
    forall a | 0 <= a < |urls|
      ensures FirstFor(reqs + [req], urls[a]) < |reqs + [req]|
    {
      FirstForGrows(reqs, req, urls[a]);
    }
  }

  /** A call consults the classifier at most once, and only when the cache has no answer. */
  lemma StepEffects(cfg: Config, s: State, req: Request)
    ensures
      var s' := Step(cfg, s, req).0;
      && (s'.calls == s.calls || s'.calls == s.calls + [req.url])
      && (Urls(s'.audit) == Urls(s.audit) || Urls(s'.audit) == Urls(s.audit) + [req.url])
      && (cfg.hasCache && cfg.key(req.url) in s.cache ==> s' == s)
  {
  }

  lemma CalledOnceMore(cfg: Config, reqs: seq<Request>, s: State, req: Request)
    requires cfg.hasCache && cfg.hasClassifier && Remembers(cfg, reqs, s) && CalledOnce(reqs, s)
    ensures CalledOnce(reqs + [req], Step(cfg, s, req).0)
  {
    var s' := Step(cfg, s, req).0;
    StepEffects(cfg, s, req);
    assert FirstFor(reqs, req.url) < |reqs| ==> s' == s;
    OnceMore(reqs, req, s.calls, s'.calls);
    OnceMore(reqs, req, Urls(s.audit), Urls(s'.audit));
  }

  lemma {:induction false} CacheInvariant(cfg: Config, reqs: seq<Request>)
    requires cfg.hasCache && cfg.hasClassifier && InjectiveKeys(cfg)
    ensures Remembers(cfg, reqs, After(cfg, reqs)) && CalledOnce(reqs, After(cfg, reqs))
  {
    if reqs != [] {
      var front, last := reqs[..|reqs| - 1], reqs[|reqs| - 1];
      CacheInvariant(cfg, front);
      assert reqs == front + [last];
      RemembersMore(cfg, front, After(cfg, front), last);
      CalledOnceMore(cfg, front, After(cfg, front), last);
    }
  }

  lemma AskedOnce(cfg: Config, reqs: seq<Request>)
    requires cfg.hasCache && cfg.hasClassifier && InjectiveKeys(cfg)
    ensures
      var s := After(cfg, reqs);
      && (forall a, b | 0 <= a < b < |s.calls| :: s.calls[a] != s.calls[b])
      && (forall a, b | 0 <= a < b < |s.audit| :: s.audit[a].url != s.audit[b].url)
  {
    CacheInvariant(cfg, reqs);
    var audit := After(cfg, reqs).audit;
    forall a, b | 0 <= a < b < |audit|
      ensures audit[a].url != audit[b].url
    {
      assert Urls(audit)[a] != Urls(audit)[b];
    }
  }

  /**
   * In any mix of the two entry points every call for a URL returns the fresh answer to the first
   * call for it, and the classifier and the audit log see each URL at most once.
   */
  lemma FirstAnswerSticks(cfg: Config, reqs: seq<Request>, k: nat)
    requires cfg.hasCache && cfg.hasClassifier && InjectiveKeys(cfg) && k < |reqs|
    ensures FirstFor(reqs, reqs[k].url) <= k
    ensures ResultOf(cfg, reqs, k) == Fresh(cfg, reqs[FirstFor(reqs, reqs[k].url)])
    ensures
      var s := After(cfg, reqs);
      && (forall a, b | 0 <= a < b < |s.calls| :: s.calls[a] != s.calls[b])
      && (forall a, b | 0 <= a < b < |s.audit| :: s.audit[a].url != s.audit[b].url)
  {
    AskedOnce(cfg, reqs);
    CacheInvariant(cfg, reqs[..k]);
    var u := reqs[k].url;
    if FirstFor(reqs[..k], u) < k {
      FirstForPrefix(reqs[..k], reqs, u);
    } else {
      FirstIsHere(reqs, k);
    }
  }

  lemma FirstIsHere(reqs: seq<Request>, k: nat)
    requires k < |reqs| && FirstFor(reqs[..k], reqs[k].url) == k
    ensures FirstFor(reqs, reqs[k].url) == k
  {
    var f := FirstFor(reqs, reqs[k].url);
    forall m | 0 <= m < k
      ensures reqs[m].url != reqs[k].url
    {
      assert reqs[..k][m] == reqs[m];
    }
  }

  /**
   * The audit log, exactly: with a callback, the parsed answer of each first call for a URL that was
   * answered; without one, nothing.
   */
  lemma {:induction false} AuditExactly(cfg: Config, reqs: seq<Request>, e: Audit)
    requires cfg.hasCache && cfg.hasClassifier && InjectiveKeys(cfg)
    ensures e in After(cfg, reqs).audit <==>
            && cfg.hasCallback && FirstFor(reqs, e.url) < |reqs|
            && Answers(cfg, reqs[FirstFor(reqs, e.url)])
            && e.result == Parse(cfg.runes, CLASSES, reqs[FirstFor(reqs, e.url)].llm.response)
  {
    if reqs != [] {
      var front, last := reqs[..|reqs| - 1], reqs[|reqs| - 1];
      assert reqs == front + [last];
      AuditExactly(cfg, front, e);
      CacheInvariant(cfg, front);
      AuditStep(cfg, After(cfg, front), last, e);
      if FirstFor(front, e.url) < |front| {
        FirstForPrefix(front, reqs, e.url);
      }
    }
  }

  /** A call adds to the log exactly when the cache has no answer and the classifier has. */
  lemma AuditStep(cfg: Config, s: State, req: Request, e: Audit)
    requires cfg.hasCache && cfg.hasClassifier
    ensures e in Step(cfg, s, req).0.audit <==>
            || e in s.audit
            || (&& cfg.key(req.url) !in s.cache && cfg.hasCallback && Answers(cfg, req)
                && e == Audit(req.url, Parse(cfg.runes, CLASSES, req.llm.response)))
  {
  }

  /** The classifier is asked about a URL exactly when its first call brought data. */
  lemma {:induction false} CallsExactly(cfg: Config, reqs: seq<Request>, url: string)
    requires cfg.hasCache && cfg.hasClassifier && InjectiveKeys(cfg)
    ensures url in After(cfg, reqs).calls <==>
            FirstFor(reqs, url) < |reqs| && Payload(reqs[FirstFor(reqs, url)]) != ""
  {
    if reqs != [] {
      var front, last := reqs[..|reqs| - 1], reqs[|reqs| - 1];
      assert reqs == front + [last];
      CallsExactly(cfg, front, url);
      CacheInvariant(cfg, front);
      if FirstFor(front, url) < |front| {
        FirstForPrefix(front, reqs, url);
      }
    }
  }

  /** When download and classifier depend on the URL only, caching is unobservable in the results. */
  lemma CacheIsTransparent(cfg: Config, reqs: seq<Request>, k: nat)
    requires cfg.hasCache && cfg.hasClassifier && InjectiveKeys(cfg) && k < |reqs|
    requires forall a, b | 0 <= a < |reqs| && 0 <= b < |reqs| && reqs[a].url == reqs[b].url ::
               Fresh(cfg, reqs[a]) == Fresh(cfg, reqs[b])
    ensures ResultOf(cfg, reqs, k) == ResultOf(cfg.(hasCache := false), reqs, k)
  {
    FirstAnswerSticks(cfg, reqs, k);
  }
}
