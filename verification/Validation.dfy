/** The pipeline instantiated with the real license logic. */
module Validation {
  import opened Domain
  import opened Dedup
  import opened Metadata
  import opened LicenseRules
  import opened Assessment
  import opened Pipeline
  import opened PipelineTheorems

  /** What the network, the decoder, the reverse search and the vision model answer for one candidate. */
  datatype Observation = Observation(
    probe: bool,
    hash: Option<Hash>,
    meta: Option<ImageMetadata>,
    reverseStock: bool,
    answer: ClassificationResult,
    panicAt: Option<Stage>)

  ghost function FactsOf(env: Env, cfg: Config, cand: Candidate, obs: Observation): Facts {
    Facts(obs.probe, PreCheckRejects(env, cfg, cand), obs.hash, Verdict(env, cfg, cand, obs.meta),
          obs.reverseStock, obs.answer, obs.panicAt)
  }

  /** The license stages as they run: pre-check before the download, assessment after it. */
  method Examine(env: Env, cfg: Config, cand: Candidate, obs: Observation) returns (f: Facts)
    ensures f == FactsOf(env, cfg, cand, obs)
  {
    var pre := IsBlockedByExtraDomains(env, cfg, cand);
    var assessment := AssessLicense(env, cfg, cand, obs.meta);
    f := Facts(obs.probe, pre, obs.hash, assessment.license, obs.reverseStock, obs.answer, obs.panicAt);
  }

  /** The pre-check never rejects an image that the rest of the pipeline would have accepted. */
  lemma PreCheckOnlySavesWork(env: Env, cfg: Config, cand: Candidate, obs: Observation)
    ensures
      var f := FactsOf(env, cfg, cand, obs);
      Acceptable(f) <==> Acceptable(f.(preBlocked := false))
  {
    if PreCheckRejects(env, cfg, cand) {
      PreCheckSound(env, cfg, cand, obs.meta, cfg.extraSafe);
    }
  }

  /**
   * A rejected image still occupies the deduplication list: a blocked image that reached the
   * comparison offers its hash although it can never be returned.
   */
  lemma BlockedStillOffers(env: Env, cfg: Config, cand: Candidate, obs: Observation)
    requires obs.probe && obs.hash.Some? && obs.panicAt.None? && !PreCheckRejects(env, cfg, cand)
    ensures Offers(FactsOf(env, cfg, cand, obs))
    ensures IsStock(env.lower, obs.meta) ==> !Acceptable(FactsOf(env, cfg, cand, obs))
  {
  }

  /** The validation job for candidates with these observations. */
  ghost function JobFor(env: Env, cfg: Config, cands: seq<Candidate>, obs: seq<Observation>, maxResults: int, callback: bool): Job
    requires |cands| == |obs|
  {
    Job(seq(|cands|, k requires 0 <= k < |cands| => FactsOf(env, cfg, cands[k], obs[k])), maxResults, callback)
  }

  /**
   * No blocking evidence of any kind: no agency in the metadata, no blocked verdict of the extended
   * lists, no search-time block; and unless there is positive evidence that the image is free, it
   * passed the reverse search and the vision model. No call that was made for it panicked.
   */
  ghost predicate Clean(env: Env, cfg: Config, cand: Candidate, obs: Observation) {
    && obs.probe
    && !IsStock(env.lower, obs.meta)
    && !Extended(env, cfg, cand).Blocked? && !PreCheckRejects(env, cfg, cand)
    && (HasUrl(cand) ==> !cand.license.Blocked?)
    && (|| (&& MayTrust(env, cfg, cand, obs.meta)
            && (obs.panicAt.None? || obs.panicAt == Some(Reverse) || obs.panicAt == Some(Stage.Classify)))
        || (&& !MayTrust(env, cfg, cand, obs.meta) && obs.panicAt.None?
            && !obs.reverseStock && (obs.answer.cls == "PHOTO" || obs.answer.cls == "")))
  }

  /** Passing every filter and being clean are the same thing. */
  lemma PassedIsClean(env: Env, cfg: Config, cand: Candidate, obs: Observation)
    ensures PassedEveryFilter(FactsOf(env, cfg, cand, obs)) <==> Clean(env, cfg, cand, obs)
  {
  }

  /** Whatever the interleaving, a returned image is clean. */
  lemma ReturnedIsClean(env: Env, cfg: Config, cands: seq<Candidate>, obs: seq<Observation>, maxResults: int,
                        callback: bool, schedule: seq<Action>, v: nat)
    requires |cands| == |obs| && IsRun(JobFor(env, cfg, cands, obs, maxResults, callback), schedule)
    requires v in Exec(JobFor(env, cfg, cands, obs, maxResults, callback), schedule).validated
    ensures v < |cands| && Clean(env, cfg, cands[v], obs[v])
  {
    SafetyInEveryState(JobFor(env, cfg, cands, obs, maxResults, callback), schedule);
    PassedIsClean(env, cfg, cands[v], obs[v]);
  }

  /** Metadata that names an agency in any of its eight fields keeps an image out of every result. */
  lemma AgencyIsNeverReturned(env: Env, cfg: Config, cands: seq<Candidate>, obs: seq<Observation>, maxResults: int,
                              callback: bool, schedule: seq<Action>, v: nat, m: ImageMetadata, field: string, kw: string)
    requires |cands| == |obs| && IsRun(JobFor(env, cfg, cands, obs, maxResults, callback), schedule)
    requires v < |obs| && obs[v].meta == Some(m)
    requires field in {m.exifCopyright, m.exifArtist, m.iptcCopyright, m.iptcCredit, m.iptcSource, m.iptcByline,
                       m.dcRights, m.dcCreator}
    requires field != "" && kw in STOCK_METADATA_KEYWORDS && HasWord(env.lower(field), kw)
    ensures v !in Exec(JobFor(env, cfg, cands, obs, maxResults, callback), schedule).validated
  {
    OneKeywordIsEnough(env.lower, m, field, kw);
    if v in Exec(JobFor(env, cfg, cands, obs, maxResults, callback), schedule).validated {
      ReturnedIsClean(env, cfg, cands, obs, maxResults, callback, schedule, v);
    }
  }

  /** A reachable image with positive and no blocking evidence passes, whatever reverse search and model would say. */
  lemma FreeNeedsNoModel(env: Env, cfg: Config, cand: Candidate, obs: Observation)
    requires obs.probe && obs.panicAt.None? && Verdict(env, cfg, cand, obs.meta) == Safe
    ensures Acceptable(FactsOf(env, cfg, cand, obs))
  {
    PreCheckOnlySavesWork(env, cfg, cand, obs);
    AcceptableExactly(FactsOf(env, cfg, cand, obs));
    AcceptableExactly(FactsOf(env, cfg, cand, obs).(preBlocked := false));
  }
}
