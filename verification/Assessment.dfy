/** The multi-signal license verdict: Blocked over Safe over Unknown. */
module Assessment {
  import opened Domain
  import opened Metadata
  import opened LicenseRules

  datatype Config = Config(extraBlocked: seq<string>, extraSafe: seq<string>)

  datatype SignalSource = Domain | ExtraDomain | MetadataStock | MetadataCC

  datatype Signal = Signal(source: SignalSource, license: License)

  datatype LicenseAssessment = LicenseAssessment(license: License, signals: seq<Signal>)

  // ---- Declarative verdict

  predicate HasUrl(cand: Candidate) {
    cand.imgURL != "" || cand.source != ""
  }

  predicate ExtrasConfigured(cfg: Config) {
    cfg.extraBlocked != [] || cfg.extraSafe != []
  }

  /** The extended domain check, when extra lists make it run. */
  function Extended(env: Env, cfg: Config, cand: Candidate): License {
    if ExtrasConfigured(cfg) then Classify(env, cand.imgURL, cand.source, cfg.extraBlocked, cfg.extraSafe) else Unknown
  }

  ghost predicate MustBlock(env: Env, cfg: Config, cand: Candidate, meta: Option<ImageMetadata>) {
    (HasUrl(cand) && cand.license.Blocked?) || Extended(env, cfg, cand).Blocked? || IsStock(env.lower, meta)
  }

  ghost predicate MayTrust(env: Env, cfg: Config, cand: Candidate, meta: Option<ImageMetadata>) {
    (HasUrl(cand) && cand.license.Safe?) || Extended(env, cfg, cand).Safe? || IsCC(env.lower, meta)
  }

  ghost function Verdict(env: Env, cfg: Config, cand: Candidate, meta: Option<ImageMetadata>): License {
    if MustBlock(env, cfg, cand, meta) then Blocked
    else if MayTrust(env, cfg, cand, meta) then Safe
    else Unknown
  }

  // ---- Resolution of signals

  predicate Says(signals: seq<Signal>, l: License) {
    exists k | 0 <= k < |signals| :: signals[k].license == l
  }

  function Resolve(signals: seq<Signal>): License {
    if Says(signals, Blocked) then Blocked else if Says(signals, Safe) then Safe else Unknown
  }

  method ResolveSignals(signals: seq<Signal>) returns (final: License)
    ensures final == Resolve(signals)
  {
    final := Unknown;
    for k := 0 to |signals|
      invariant !Says(signals[..k], Blocked)
      invariant final == Resolve(signals[..k])
    {
      assert signals[..k + 1] == signals[..k] + [signals[k]];
      SaysConcat(signals[..k], [signals[k]], Blocked);
      SaysConcat(signals[..k], [signals[k]], Safe);
      SaysOne(signals[k], Blocked);
      SaysOne(signals[k], Safe);
      if signals[k].license == Blocked {
        assert signals[k].license == Blocked;
        final := Blocked;
        return;
      }
      if signals[k].license == Safe {
        final := Safe;
      }
    }
    assert signals[..|signals|] == signals;
  }

  lemma SaysMembership(signals: seq<Signal>, l: License)
    ensures Says(signals, l) <==> exists sig :: sig in multiset(signals) && sig.license == l
  {
    if Says(signals, l) {
      var k :| 0 <= k < |signals| && signals[k].license == l;
      assert signals[k] in multiset(signals);
    }
  }

  /** The verdict does not depend on the order in which the signals were collected. */
  lemma ResolveIgnoresOrder(a: seq<Signal>, b: seq<Signal>)
    requires multiset(a) == multiset(b)
    ensures Resolve(a) == Resolve(b)
  {
    SaysMembership(a, Blocked);
    SaysMembership(b, Blocked);
    SaysMembership(a, Safe);
    SaysMembership(b, Safe);
  }

  // ---- The assessment

  function DomainSignals(cand: Candidate): seq<Signal> {
    if HasUrl(cand) && !cand.license.Unknown? then [Signal(Domain, cand.license)] else []
  }

  /** An extended classification that repeats the search-time license, or says nothing, is suppressed. */
  function ExtraSignals(env: Env, cfg: Config, cand: Candidate): seq<Signal> {
    var ext := Extended(env, cfg, cand);
    if ext != cand.license && ext != Unknown then [Signal(ExtraDomain, ext)] else []
  }

  ghost function MetadataSignals(env: Env, meta: Option<ImageMetadata>): seq<Signal> {
    (if IsStock(env.lower, meta) then [Signal(MetadataStock, Blocked)] else []) +
    (if IsCC(env.lower, meta) then [Signal(MetadataCC, Safe)] else [])
  }

  /** Signals 1 and 2: search-time and extended domain classification. */
  method CollectDomainSignals(env: Env, cfg: Config, cand: Candidate) returns (signals: seq<Signal>)
    ensures signals == DomainSignals(cand) + ExtraSignals(env, cfg, cand)
  {
    signals := [];
    if cand.imgURL != "" || cand.source != "" {
      match cand.license {
        case Blocked => signals := signals + [Signal(Domain, Blocked)];
        case Safe => signals := signals + [Signal(Domain, Safe)];
        case Unknown =>
      }
    }
    assert signals == DomainSignals(cand);
    if |cfg.extraBlocked| > 0 || |cfg.extraSafe| > 0 {
      var ext := CheckLicenseWith(env, cand.imgURL, cand.source, cfg.extraBlocked, cfg.extraSafe);
      if ext != cand.license && ext != Unknown {
        signals := signals + [Signal(ExtraDomain, ext)];
      }
    }
  }

  method AssessLicense(env: Env, cfg: Config, cand: Candidate, meta: Option<ImageMetadata>) returns (r: LicenseAssessment)
    ensures r.signals == DomainSignals(cand) + ExtraSignals(env, cfg, cand) + MetadataSignals(env, meta)
    ensures r.license == Verdict(env, cfg, cand, meta)
  {
    var signals := CollectDomainSignals(env, cfg, cand);
    ghost var domain := signals;
    var stock := IsStockByMetadata(env.lower, meta);
    if stock {
      signals := signals + [Signal(MetadataStock, Blocked)];
    }
    var cc := IsCCByMetadata(env.lower, meta);
    if cc {
      signals := signals + [Signal(MetadataCC, Safe)];
    }
    assert signals == domain + MetadataSignals(env, meta);
    var final := ResolveSignals(signals);
    r := LicenseAssessment(final, signals);
    VerdictIsResolution(env, cfg, cand, meta);
  }

  lemma SaysConcat(a: seq<Signal>, b: seq<Signal>, l: License)
    ensures Says(a + b, l) <==> Says(a, l) || Says(b, l)
  {
    forall k | 0 <= k < |a| && a[k].license == l
      ensures Says(a + b, l)
    {
      assert (a + b)[k].license == l;
    }
    forall k | 0 <= k < |b| && b[k].license == l
      ensures Says(a + b, l)
    {
      assert (a + b)[|a| + k].license == l;
    }
  }

  lemma SaysOne(sig: Signal, l: License)
    ensures Says([sig], l) <==> sig.license == l
    ensures !Says([], l)
  {
    assert [sig][0] == sig;
  }

  /** Suppressing an extended signal that repeats the search-time license loses no evidence. */
  lemma SuppressionIsHarmless(env: Env, cfg: Config, cand: Candidate, l: License)
    requires !l.Unknown?
    ensures Says(DomainSignals(cand) + ExtraSignals(env, cfg, cand), l) <==>
            (HasUrl(cand) && cand.license == l) || Extended(env, cfg, cand) == l
  {
    NoUrlNoEvidence(env, cand, cfg.extraBlocked, cfg.extraSafe);
    SaysConcat(DomainSignals(cand), ExtraSignals(env, cfg, cand), l);
    SaysOne(Signal(Domain, cand.license), l);
    SaysOne(Signal(ExtraDomain, Extended(env, cfg, cand)), l);
  }

  lemma MetadataSays(env: Env, meta: Option<ImageMetadata>)
    ensures Says(MetadataSignals(env, meta), Blocked) <==> IsStock(env.lower, meta)
    ensures Says(MetadataSignals(env, meta), Safe) <==> IsCC(env.lower, meta)
  {
    var stock := if IsStock(env.lower, meta) then [Signal(MetadataStock, Blocked)] else [];
    var cc := if IsCC(env.lower, meta) then [Signal(MetadataCC, Safe)] else [];
    SaysConcat(stock, cc, Blocked);
    SaysConcat(stock, cc, Safe);
    SaysOne(Signal(MetadataStock, Blocked), Blocked);
    SaysOne(Signal(MetadataStock, Blocked), Safe);
    SaysOne(Signal(MetadataCC, Safe), Safe);
    SaysOne(Signal(MetadataCC, Safe), Blocked);
  }

  lemma VerdictIsResolution(env: Env, cfg: Config, cand: Candidate, meta: Option<ImageMetadata>)
    ensures Resolve(DomainSignals(cand) + ExtraSignals(env, cfg, cand) + MetadataSignals(env, meta)) ==
            Verdict(env, cfg, cand, meta)
  {
    var domain := DomainSignals(cand) + ExtraSignals(env, cfg, cand);
    SaysConcat(domain, MetadataSignals(env, meta), Blocked);
    SaysConcat(domain, MetadataSignals(env, meta), Safe);
    SuppressionIsHarmless(env, cfg, cand, Blocked);
    SuppressionIsHarmless(env, cfg, cand, Safe);
    MetadataSays(env, meta);
  }

  lemma NoUrlNoEvidence(env: Env, cand: Candidate, eb: seq<string>, es: seq<string>)
    ensures !Classify(env, cand.imgURL, cand.source, eb, es).Unknown? ==> HasUrl(cand)
  {
  }

  // ---- What decides the verdict

  /** The verdict, spelled out: which evidence blocks, and which frees what is not blocked. */
  lemma VerdictExactly(env: Env, cfg: Config, cand: Candidate, meta: Option<ImageMetadata>)
    ensures
      var configured := cfg.extraBlocked != [] || cfg.extraSafe != [];
      var extended := Classify(env, cand.imgURL, cand.source, cfg.extraBlocked, cfg.extraSafe);
      var v := Verdict(env, cfg, cand, meta);
      && (v == Blocked <==>
            || ((cand.imgURL != "" || cand.source != "") && cand.license == Blocked)
            || (configured && extended == Blocked)
            || IsStock(env.lower, meta))
      && (v == Safe <==>
            && v != Blocked
            && (|| ((cand.imgURL != "" || cand.source != "") && cand.license == Safe)
                || (configured && extended == Safe)
                || IsCC(env.lower, meta)))
  {
  }

  /** A host that matches an extra safe entry makes a candidate without blocking evidence Safe. */
  lemma ExtraSafeFrees(env: Env, cfg: Config, cand: Candidate, meta: Option<ImageMetadata>, url: string, d: string)
    requires (url == cand.imgURL || url == cand.source) && d in cfg.extraSafe && d != "" && HostHas(env, url, d)
    requires Classify(env, cand.imgURL, cand.source, cfg.extraBlocked, []) != Blocked && cand.license != Blocked && !IsStock(env.lower, meta)
    ensures Verdict(env, cfg, cand, meta) == Safe
  {
    EvidenceFrees(env, cand.imgURL, cand.source, url, cfg.extraBlocked, cfg.extraSafe, d);
    VerdictExactly(env, cfg, cand, meta);
  }

  /** A host that matches an extra blocked entry blocks, whatever the metadata and the search-time license. */
  lemma ExtraBlockedBlocks(env: Env, cfg: Config, cand: Candidate, meta: Option<ImageMetadata>, url: string, d: string)
    requires (url == cand.imgURL || url == cand.source) && d in cfg.extraBlocked && d != "" && HostHas(env, url, d)
    ensures Verdict(env, cfg, cand, meta) == Blocked && PreCheckRejects(env, cfg, cand)
  {
    EvidenceBlocks(env, cand.imgURL, cand.source, url, cfg.extraBlocked, cfg.extraSafe, d);
    EvidenceBlocks(env, cand.imgURL, cand.source, url, cfg.extraBlocked, [], d);
    VerdictExactly(env, cfg, cand, meta);
  }

  /** Position of a source in the report. */
  function SourceRank(s: SignalSource): nat {
    match s
    case Domain => 0
    case ExtraDomain => 1
    case MetadataStock => 2
    case MetadataCC => 3
  }

  /** Exactly these signals are reported, each at most once and in this order. */
  lemma SignalsExactly(env: Env, cfg: Config, cand: Candidate, meta: Option<ImageMetadata>)
    ensures
      var extended := Classify(env, cand.imgURL, cand.source, cfg.extraBlocked, cfg.extraSafe);
      var signals := DomainSignals(cand) + ExtraSignals(env, cfg, cand) + MetadataSignals(env, meta);
      && (forall sig :: sig in signals <==>
            || (sig == Signal(Domain, cand.license) && (cand.imgURL != "" || cand.source != "") && cand.license != Unknown)
            || (&& sig == Signal(ExtraDomain, extended) && (cfg.extraBlocked != [] || cfg.extraSafe != [])
                && extended != cand.license && extended != Unknown)
            || (sig == Signal(MetadataStock, Blocked) && IsStock(env.lower, meta))
            || (sig == Signal(MetadataCC, Safe) && IsCC(env.lower, meta)))
      && (forall a, b | 0 <= a < b < |signals| :: SourceRank(signals[a].source) < SourceRank(signals[b].source))
  {
    var one, two, three := DomainSignals(cand), ExtraSignals(env, cfg, cand), MetadataSignals(env, meta);
    assert |one| <= 1 && |two| <= 1 && |three| <= 2;
    assert |three| == 2 ==> three[0].source == MetadataStock && three[1].source == MetadataCC;
  }

  // ---- Pre-check and monotonicity

  /** isBlockedByExtraDomains */
  predicate PreCheckRejects(env: Env, cfg: Config, cand: Candidate) {
    cfg.extraBlocked != [] && Classify(env, cand.imgURL, cand.source, cfg.extraBlocked, []).Blocked?
  }

  method IsBlockedByExtraDomains(env: Env, cfg: Config, cand: Candidate) returns (blocked: bool)
    ensures blocked <==> PreCheckRejects(env, cfg, cand)
  {
    if |cfg.extraBlocked| == 0 {
      return false;
    }
    var license := CheckLicenseWith(env, cand.imgURL, cand.source, cfg.extraBlocked, []);
    return license == Blocked;
  }

  lemma SameBlockedList(env: Env, cand: Candidate, eb: seq<string>, es: seq<string>, es': seq<string>)
    ensures Classify(env, cand.imgURL, cand.source, eb, es).Blocked? <==> Classify(env, cand.imgURL, cand.source, eb, es').Blocked?
  {
  }

  /** The shortcut is sound: what it rejects would be assessed Blocked, whatever the metadata and the safe list. */
  lemma PreCheckSound(env: Env, cfg: Config, cand: Candidate, meta: Option<ImageMetadata>, extraSafe: seq<string>)
    requires PreCheckRejects(env, cfg, cand)
    ensures Verdict(env, cfg.(extraSafe := extraSafe), cand, meta).Blocked?
  {
    SameBlockedList(env, cand, cfg.extraBlocked, [], extraSafe);
  }

  /** The shortcut is as strong as it can be: past it, only search-time or metadata evidence can still block. */
  lemma PreCheckComplete(env: Env, cfg: Config, cand: Candidate, meta: Option<ImageMetadata>)
    requires cfg.extraBlocked != []
    ensures Verdict(env, cfg, cand, meta).Blocked? <==>
            PreCheckRejects(env, cfg, cand) || (HasUrl(cand) && cand.license.Blocked?) || IsStock(env.lower, meta)
  {
    SameBlockedList(env, cand, cfg.extraBlocked, [], cfg.extraSafe);
  }

  /** Enlarging either extra list never un-blocks a candidate. */
  lemma VerdictMonotone(env: Env, cfg: Config, cfg': Config, cand: Candidate, meta: Option<ImageMetadata>)
    requires Extends(cfg'.extraBlocked, cfg.extraBlocked) && Extends(cfg'.extraSafe, cfg.extraSafe)
    ensures Verdict(env, cfg, cand, meta).Blocked? ==> Verdict(env, cfg', cand, meta).Blocked?
  {
    if Extended(env, cfg, cand).Blocked? {
      assert ExtrasConfigured(cfg') by {
        if cfg.extraBlocked != [] {
          assert cfg.extraBlocked[0] in cfg.extraBlocked;
        } else {
          assert cfg.extraSafe[0] in cfg.extraSafe;
        }
      }
      ClassifyMonotone(env, cand.imgURL, cand.source, cfg.extraBlocked, cfg.extraSafe, cfg'.extraBlocked, cfg'.extraSafe);
    }
  }
}
