# Verified model of go-imagefy

go-imagefy finds editorial images. It queries search providers concurrently, extracts
images from a page, merges and sorts the candidates by license, and pushes them through a
concurrent filter pipeline: HTTP probe, domain pre-check, download, perceptual
deduplication, license assessment, reverse search, vision classification. This project
models that logic in Dafny and proves what it guarantees on every input and, for the
concurrent parts, on every interleaving.

How the parts fit together:

- `Pipeline` is the transition system of `validate_pipeline.go`: one spawner, one worker per
  spawned input, a three-slot semaphore, and shared lists that are touched under locks.
  Every lock region is one step. What the outside world says about an input position (probe,
  hash, license verdict, reverse search, classification, and the stage at which a call
  panics) is a `Facts` record fixed per position. Whether the model itself answered a
  classification, and not the cache or nobody, is left to the schedule. `PipelineInvariant`
  proves what every step keeps, `PipelineTheorems` what whole runs guarantee.
- `Sieve` is the sequential reference: candidates filtered one after the other in a given order.
  `PipelineSequential` proves that the interleavings return exactly what the reference returns
  over all orders, and with that which results and how many of them are possible.
  `PipelineOrder` says in which orders results can come back.
- `Dedup` holds the 64-bit hashes, the Hamming metric, the filter object and the greedy
  filter that specifies it.
- `LicenseRules`, `Metadata` and `Assessment` hold the license decision. `Validation` plugs
  them into the pipeline.
- `Gather` models concurrent gathering and the stable in-place sort, `Find` composes
  everything, the license logic included, into `FindImages`. `Fallback` models nested fallback
  providers.
- `UrlNorm`, `Thumbnails`, `Ranking` and `ContentSearch` model content-image extraction.
- `VisionParser` and `ClassifyCache` model the answer parser and the classification cache.
  `Query` models the query builder. `Text` and `Words` hold the string operations they share,
  `Listings` lists of positions.

An entry of a candidate list is a `Lead`: a candidate and a tag. Two entries with equal
candidates can carry different tags, and the outside world answers per entry, so they may fare
differently.

URL parsing, case mapping, HTML unescaping and number parsing are function parameters.
Extracted tags, network answers, model answers and panics are inputs. Strings are sequences
of bytes in the license and URL modules and of runes in `Query` and `VisionParser`.

Where the code and its documentation disagree, the model follows the code, and a theorem says
exactly when the documented behaviour holds:

- Results are documented as sorted with safe licenses first (search.go:27). Workers append in
  completion order, so this holds on every schedule exactly when any two candidates that can
  be returned together have the same license (`Find.SortedResultsExactly`), and
  `Find.UnsortedExample` is a call that returns an unsorted list.
- How many images come back can depend on the schedule (`PipelineOrder.ChainExample`). It does
  not exactly when all maximal sets of images no two of which look alike leave equally many
  survivors up to the limit (`PipelineSequential.SizeFixedExactly`, `Find.FindSizeFixedExactly`).
- `containsWord` documents word boundaries but drops the left neighbour when it re-slices. It
  is exact for every text precisely for words that are neither empty nor a run of one
  alphanumeric byte (`Metadata.ScanExactness`). All agency keywords are of that kind.
- The confidence is documented as 0 or in (0,1]. A NaN in the answer gets through, and nothing
  else does (`VisionParser.ConfidenceRange`, `VisionParser.NaNPasses`).
- `normalizeImgURL` strips one size suffix only, so it is idempotent exactly on URLs without a
  second suffix underneath (`UrlNorm.IdempotentExactly`).
- `parseIntFast` wraps around. It equals the decimal value exactly when that value fits into 64
  bits (`Thumbnails.IntFastExactly`, `Thumbnails.OverflowReadsTiny`).
- Nesting fallback providers preserves results and calls, but the reported error exactly when
  no all-empty group masks an earlier failure (`Fallback.ErrorIdentity`).

## Model

| member | source | states |
|---|---|---|
| PipelineTheorems.SafetyInEveryState | validate_pipeline.go:11-38 | in every reachable state: the cap on results, slots held equal workers inside and never exceed 3, spawned positions form a prefix, results are distinct positions that passed probe, pre-check and license and were Safe or not reverse-stock and PHOTO or unclassified |
| PipelineInvariant.RunInv | validate_pipeline.go:12-101 | every interleaving keeps the full invariant of phases, slots, results, deduplication list and audit log |
| PipelineInvariant.SlotsKept | validate_pipeline.go:28-33 | taking and releasing slots keeps the count equal to the workers inside, also when a stage panics |
| PipelineInvariant.ResultsKept | validate_pipeline.go:150-157 | the append step keeps the list capped, duplicate-free and equal to the accepted positions; a dropped append means the list is full |
| PipelineInvariant.ComparedKept | validate_pipeline.go:70-73 | the stored hashes stay the greedy filter of the hashes in lock order |
| PipelineInvariant.ReportedKept | validate_pipeline.go:104-148 | each step keeps at most one event per position and every owed event reported |
| PipelineTheorems.Progress | validate_pipeline.go:27-35 | every reachable state that is not final has an enabled step |
| PipelineTheorems.RunsAreBounded | validate_pipeline.go:17-35 | a well-founded measure drops on every step; n inputs allow at most 13n+1 steps |
| PipelineTheorems.FinalReleasesSlots | validate_pipeline.go:30-35 | when everything has stopped, every slot is free |
| PipelineTheorems.CanFinish | validate_pipeline.go:17-37 | every reachable state can complete, and completion only appends to the results |
| PipelineTheorems.NothingIsLost | validate_pipeline.go:18-101 | a run that returns fewer than asked spawned every position, dropped no append and has a justified rejection for each missing position, with a stored look-alike for duplicates |
| PipelineTheorems.ExactResult | validate_pipeline.go:11-38 | the result of any complete run is the set of survivors of all filters, or as many of them as were asked for |
| PipelineTheorems.SizeIgnoresSchedule | validate_pipeline.go:11-38 | without look-alikes the result size is min(max(0, limit), acceptable positions) on every schedule |
| PipelineTheorems.AcceptableExactly | validate_pipeline.go:60-100 | what the stages let through, spelled out: probed, not pre-blocked, and Safe, or Unknown and not reverse-stock and classed PHOTO or not at all, with no panic in a stage it gets to; in both directions |
| PipelineTheorems.OffersExactly | validate_pipeline.go:60-73 | which positions take part in deduplication: probed, not pre-blocked, downloaded and hashed, whatever their license |
| PipelineTheorems.RoomForAll | validate_pipeline.go:11-101 | with hashes ten bits apart and room for all, every schedule returns exactly the positions that pass the filters |
| PipelineTheorems.OneCandidate | validate_pipeline.go:11-101 | a single candidate comes back on every schedule exactly when it passes the filters |
| PipelineTheorems.ResultsAreFarApart | validate_pipeline.go:70-73 | storage is the greedy filter in lock order, and any two hashed results are at least 10 bits apart |
| PipelineTheorems.AuditLog | validate_pipeline.go:84-136 | at most one event per position; a validated position's event is PHOTO or unclassified; with a callback, a domain, license or reverse rejection has exactly its STOCK event and a license-safe result exactly its PHOTO event |
| PipelineTheorems.EventsExactly | validate_pipeline.go:84-136 | the log of a finished position from its facts: class, confidence and source label of each report, and when there is none |
| PipelineTheorems.AnswerIsReported | classify.go:99-103 | when the model itself answers, its class and confidence are reported with source llm; otherwise nothing is |
| PipelineTheorems.EarlyExit | validate_pipeline.go:18-26 | after the cap is reached at most the one position that already passed its check is still spawned |
| PipelineTheorems.NothingAskedNothingDone | validate_pipeline.go:18-24 | a non-positive limit spawns nothing and reports nothing |
| PipelineTheorems.ValidateCandidates | validate_pipeline.go:11-38 | under an arbitrary scheduler the pipeline halts with the result of a complete run |
| PipelineSequential.ConcurrentIsSequential | validate_pipeline.go:11-38 | the lists that the interleavings return are exactly the lists that filtering one position after the other returns over all orders of the input |
| PipelineSequential.ResultsExactly | validate_pipeline.go:11-101 | a list can be returned if and only if, for some maximal set of offered hashes no two of which look alike, it lists in any order as many of the survivors as fit |
| PipelineSequential.SizesExactly | validate_pipeline.go:70-75 | n results can come back if and only if some lock order, or some maximal set of hashes no two of which look alike, leaves n survivors up to the limit |
| PipelineSequential.SizeFixedExactly | validate_pipeline.go:70-75 | the number of results is the same on every schedule if and only if all those maximal sets leave equally many survivors up to the limit |
| PipelineSequential.SizeFixedByLockOrder | validate_pipeline.go:70-75 | the same condition over all lock orders of the input |
| PipelineSequential.ThreeAtOnce | validate_pipeline.go:9-33 | three workers can hold a slot at once, and then no fourth can take one |
| Sieve.LockOrdersKeepMaximal | dedup.go:37-48 | the sets of stored positions over all lock orders are exactly the maximal sets no two of which look alike |
| Sieve.KeptExactly | validate_pipeline.go:51-101 | what sequential filtering keeps over all orders, described by maximal sets and without any order |
| PipelineOrder.BeginningsExactly | validate_pipeline.go:27-33 | a list is the beginning of some returned list if and only if its positions are distinct, acceptable, pairwise not look-alikes and no more than the limit |
| PipelineOrder.OrderIsFree | validate_pipeline.go:27-33 | two positions can be returned in a given order if and only if both are acceptable, not look-alikes and the limit is at least 2 |
| PipelineOrder.SafeFirstExactly | search.go:25-29 | results are ordered by rank on every schedule if and only if positions that can be returned together have equal rank |
| PipelineOrder.TwoImages | validate_pipeline.go:70-73 | of two images that pass the filters every schedule returns both, or one if their hashes differ in nine bits or fewer |
| PipelineOrder.SizeCanDependOnSchedule | validate_pipeline.go:70-75 | for every chain of look-alikes one schedule returns one image and another returns two, so the size is not fixed; the exact condition is PipelineSequential.SizeFixedExactly |
| PipelineOrder.ChainExample | validate_pipeline.go:70-75 | three freely licensed images with hashes nine bits apart form such a chain, so their number of results is not fixed |
| Dedup.DedupFilter.constructor | validate_pipeline.go:15 | a new filter has seen nothing |
| Dedup.DedupFilter.IsDuplicate | dedup.go:30-49 | rejects exactly hashes nearer than 10 to a stored one, stores the others, accepts without storing when hashing failed, and keeps storage equal to the greedy filter |
| Dedup.DistanceMetric | dedup.go:16-18 | Hamming distance is a metric |
| Dedup.NearExactly | dedup.go:16-18 | near means that at most nine of the 64 bits differ |
| Dedup.ThresholdExactly | dedup.go:37-48 | the second of two arrivals is dropped up to distance 9 and stored from distance 10 on |
| Dedup.TenBitsExample | dedup.go:14-48 | a pair ten bits apart is kept, a pair nine bits apart is not |
| Dedup.GreedySpread | dedup.go:40-48 | stored hashes are pairwise far apart, come from the arrivals, and every rejected arrival is near a stored one |
| Dedup.GreedyKeepsSpread | dedup.go:40-48 | arrivals that are pairwise far apart are all stored |
| Dedup.LockOrderMatters | dedup.go:37-48 | for any three hashes of which only neighbours are near, the ends survive in one lock order and only the middle in another |
| Validation.PreCheckOnlySavesWork | validate_pipeline.go:64-66 | dropping the pre-check would accept the same images |
| Validation.BlockedStillOffers | validate_pipeline.go:70-78 | an image rejected by its metadata has still offered its hash |
| Validation.Examine | validate_pipeline.go:64-78 | running the pre-check and the assessment gives exactly the declarative facts |
| Validation.PassedIsClean | validate_pipeline.go:60-100 | passing every filter is the same as carrying no blocking evidence and, without positive evidence, having passed reverse search and vision model |
| Validation.ReturnedIsClean | validate_pipeline.go:51-136 | whatever the interleaving, a returned image carries no blocking evidence, without positive evidence it passed reverse search and vision model, and no call made for it panicked |
| Validation.AgencyIsNeverReturned | metadata.go:57-83 | an image whose metadata names an agency in any of the eight fields is in no result of any run |
| Validation.FreeNeedsNoModel | validate_pipeline.go:128-133 | a reachable image assessed Safe passes whatever reverse search and model would say |
| Metadata.ContainsWord | metadata.go:87-101 | the re-slicing loop accepts exactly occurrences clear on the right that are clear on the left or preceded by an overlapping occurrence; for words that are not deceptive that is standing alone in the original text |
| Metadata.ScanExactness | metadata.go:85-101 | the scan has its documented meaning on every text if and only if the word is not empty and not a run of one alphanumeric byte |
| Metadata.TrapWorks | metadata.go:99 | for every other word there is a text on which the scan reports a word that is not there |
| Metadata.KeywordsAreExact | metadata.go:29-53 | no agency keyword is deceptive |
| Metadata.IsStockByMetadata | metadata.go:57-83 | stock exactly when a keyword stands alone in some lower-cased field |
| Metadata.HasWordExactly | metadata.go:85-106 | standing alone means no ASCII letter or digit directly before or after |
| Metadata.StockFieldsExactly | metadata.go:61-70 | the eight fields that count, by name, and no others |
| Metadata.OneKeywordIsEnough | metadata.go:71-80 | one keyword standing alone in one of the eight fields makes the image stock |
| Metadata.StockNeedsKeyword | metadata.go:71-80 | and an image is stock only then |
| Metadata.XmpIsNotStock | metadata.go:57-70 | XMP fields never make an image stock, nor does missing metadata |
| Metadata.MetadataStockDetail | assessment.go:95-120 | the detail is the first field naming an agency, and empty exactly when the metadata is not stock |
| Metadata.FirstFieldExactly | assessment.go:99-108 | the fields are looked at in the order EXIF, IPTC, Dublin Core |
| Metadata.IsCCByMetadata | metadata.go:110-125 | Creative Commons exactly when a license field mentions a license path |
| Metadata.CCFieldsExactly | metadata.go:114-119 | the four fields that count, by name, and the two license paths |
| LicenseRules.IsBlockedWith | license.go:110-138 | blocked exactly when the host mentions a built-in or extra domain or the path mentions a pattern |
| LicenseRules.IsSafeWith | license.go:142-158 | safe exactly when a non-empty host mentions a built-in or extra safe domain |
| LicenseRules.CheckLicenseWith | license.go:94-106 | Blocked if either URL is blocked, else Safe if either is safe, else Unknown |
| LicenseRules.ClassifySymmetric | license.go:94-106 | image URL and source page count alike |
| LicenseRules.EvidenceBlocks | license.go:94-138 | an agency or an extra blocked entry in either host, or a stock path in either URL, blocks whatever the other URL and the lists are |
| LicenseRules.EvidenceFrees | license.go:94-158 | a free source or an extra safe entry in either host makes what is not blocked Safe |
| LicenseRules.NoOtherEvidence | license.go:94-158 | nothing else blocks or frees |
| LicenseRules.StockPageExample | license.go:85-99 | an image on a neutral host whose source page is on www.shutterstock.com is Blocked |
| LicenseRules.ClassifyMonotone | license.go:94-106 | a larger blocked list with any safe list never un-blocks |
| Assessment.AssessLicense | assessment.go:21-91 | the signals collected, and the declarative verdict: Blocked on any blocking evidence, else Safe on any trusting evidence |
| Assessment.VerdictExactly | assessment.go:21-91 | which evidence blocks and which frees, spelled out in both directions |
| Assessment.ExtraSafeFrees | assessment.go:44-55 | a host matching an extra safe entry makes a candidate without blocking evidence Safe |
| Assessment.ExtraBlockedBlocks | assessment.go:44-55 | a host matching an extra blocked entry blocks and is caught by the pre-check, whatever else is known |
| Assessment.SignalsExactly | assessment.go:24-72 | exactly which signals are reported, each at most once and in a fixed order |
| Assessment.ResolveSignals | assessment.go:75-85 | Blocked over Safe over Unknown |
| Assessment.VerdictIsResolution | assessment.go:21-91 | resolving the collected signals gives the declarative verdict |
| Assessment.SuppressionIsHarmless | assessment.go:45-55 | suppressing an extended signal that repeats the search-time license loses no evidence |
| Assessment.ResolveIgnoresOrder | assessment.go:75-85 | the verdict is independent of signal order |
| Assessment.VerdictMonotone | assessment.go:44-55 | enlarging either extra list never un-blocks a candidate |
| Assessment.IsBlockedByExtraDomains | validate_pipeline.go:104-114 | rejects exactly when extra blocked domains are configured and classify the candidate Blocked |
| Assessment.PreCheckSound | validate_pipeline.go:104-114 | a pre-checked rejection is assessed Blocked for every metadata and every safe list |
| Assessment.PreCheckComplete | validate_pipeline.go:104-114 | past the pre-check only search-time or metadata evidence can block |
| Gather.MultisetIgnoresOrder | search.go:88-108 | what is gathered is, as a multiset, the same for every completion order |
| Gather.ProvidersKeepTheirOrder | search.go:101-103 | within a license class the list is the providers' own lists, whole and in their own order |
| Gather.StableSortIsUnique | search.go:61-63 | the only stable sort is Safe, Unknown, Blocked, each in input order |
| Gather.OfIsMultiset | search.go:61-63 | the sort neither adds nor loses a candidate |
| Gather.SafeComesFirst | search.go:60-63 | in the sorted list only Safe candidates stand before a Safe one and no Blocked one before an Unknown one |
| Gather.SortByLicense | search.go:60-63 | the in-place sort produces that list |
| Find.FindImages | find.go:29-72 | merges, sorts, runs the license logic on every entry and validates; its result is one that the completion order and an interleaving yield |
| Find.FindIsSafe | find.go:29-72 | for every provider order and interleaving: at most the limit, a sub-multiset of the merged list, no result with any blocking evidence, hashed results far apart |
| Find.FindOnlyOnOffer | find.go:29-72 | every result was given by the caller, found by a provider for a query, or extracted from the page with no content or og provider configured; at most the limit, which defaults to 3 |
| Find.FindIsComplete | find.go:29-72 | a call that returns fewer than asked for returns every clean entry on offer, unless another entry on offer differs from it in nine bits or fewer |
| Find.FreeIsStartedFirst | find.go:66-71 | at every moment of every run, no free candidate waits to be started while an unknown or blocked one has been |
| Find.HandedList | find.go:66-71 | the list that is validated is the merged one, stably sorted by license |
| Find.FindSizeIsFixed | find.go:29-72 | without look-alikes neither provider order nor interleaving changes the number of results |
| Find.FindIsSequential | find.go:29-72 | over all provider orders and interleavings a call returns exactly what filtering the merged list sequentially returns over all its permutations |
| Find.FindSizesExactly | find.go:29-72 | the possible numbers of results are the numbers of survivors up to the limit over all maximal sets of merged entries no two of which look alike |
| Find.FindSizeFixedExactly | find.go:29-72 | neither provider order nor interleaving changes the number of results if and only if all those maximal sets leave equally many survivors up to the limit |
| Find.SortedResultsExactly | search.go:60-65 | the list handed to validation is sorted; the returned one is, for every provider order and interleaving, if and only if merged entries that can be returned together share a license |
| Find.AnyOrderComesBack | find.go:66-71 | when every image is reachable, unhashed and a photo, every permutation of a short list without blocked candidates can come back |
| Find.ExternalsComeBack | find.go:60-71 | candidates given by the caller alone come back as given, up to the limit or three |
| Find.PageImagesComeBack | find.go:49-57 | images of the page come back when no content or og provider is configured, and not otherwise |
| Find.ProviderItemsComeBack | find.go:38-47 | what a provider finds comes back when there is a query, and is not asked for without one |
| Find.UnsortedExample | search.go:25-29 | a concrete call for two images, a free one found before an unknown one, that returns the unknown one first |
| Fallback.Session.Search | orchestrator.go:33-52 | outcome and log of leaf calls of the loop over nested providers |
| Fallback.NestingIsFlat | orchestrator.go:33-52 | any nesting gives the results, the success and the exact leaf calls of the flat provider; success is never empty |
| Fallback.CalledIsPrefix | orchestrator.go:35-46 | calls are a prefix of the leaves that ends at the winner |
| Fallback.ErrorIdentity | orchestrator.go:48-51 | the reported error survives nesting if and only if no all-empty group masks a failure |
| Fallback.MaskingExample | orchestrator.go:48-51 | a concrete nesting that hides a failure |
| UrlNorm.NormalizeIsLocal | provider_content.go:324-331 | only the last path component changes, the extension is kept, any change is strictly shorter |
| UrlNorm.SizeVariantsShareKey | provider_content.go:321-331 | every size variant stem-WxH normalises to the same URL |
| UrlNorm.NormalizeExactly | provider_content.go:324-331 | a URL changes exactly when it has the shape stem-WxH.ext, and then to stem.ext |
| UrlNorm.BaseCorners | provider_content.go:327 | the last path component of the empty path, of slashes only and before trailing slashes |
| UrlNorm.SizeMatchExact | provider_content.go:31 | the suffix expression has at most one match and the scan finds it |
| UrlNorm.IdempotentExactly | provider_content.go:324-331 | normalising twice is normalising once if and only if there is no second size suffix underneath |
| UrlNorm.TwoSuffixes | provider_content.go:324-331 | the family of URLs, with or without an extension, on which it is not idempotent |
| Thumbnails.ParseIntFast | provider_content.go:343-352 | 0 on a non-digit, otherwise the decimal value with 64-bit wrap-around |
| Thumbnails.IntFastExactly | provider_content.go:343-352 | equals the decimal value if and only if that value is below 2^63, and is 0 for anything but digits |
| Thumbnails.EighteenDigitsFit | provider_content.go:345-350 | up to 18 digits no prefix overflows, and the value is below 2^63 |
| Thumbnails.ParsePrinted | provider_content.go:343-352 | parsing inverts decimal printing for every non-negative 64-bit int |
| Thumbnails.OverflowReadsTiny | provider_content.go:343-352 | 2^64+1 reads as 1 |
| Thumbnails.TinyInRange | provider_content.go:297-319 | for every URL whose numbers fit into 64 bits: tiny exactly when both suffix or both attribute dimensions lie in 1..199 |
| Thumbnails.TinyExactly | provider_content.go:297-319 | the same for dir/stem-WxH.ext spelled out, with or without an extension |
| Ranking.BucketOfFirstDiscovery | provider_content.go:95-118 | a bucket holds exactly the presentable first discoveries of a key made in it, in discovery order |
| Ranking.RankedOrigins | provider_content.go:176-186 | the merged, capped list traces back to kept discoveries with pairwise distinct keys, in the order slug, content, JSON-LD, social and by discovery within a bucket; a kept discovery is missing only when eight better ones are there |
| ContentSearch.Collector.constructor | provider_content.go:88-93 | nothing seen, four empty buckets |
| ContentSearch.Collector.AddIfNew | provider_content.go:95-118 | key set and buckets stay those of all discoveries so far |
| ContentSearch.Search | provider_content.go:75-187 | the first eight of slug, content, JSON-LD and social images of the page's discoveries |
| ContentSearch.AddTag | provider_content.go:140-174 | an image tag is collected exactly when it is on the page's domain, content-like and not tiny, by its full-size URL |
| ContentSearch.SearchGuarantees | provider_content.go:75-187 | at most eight, distinct keys, none Blocked or logo-like, each the first discovery of its key |
| ContentSearch.SearchExactly | provider_content.go:95-186 | each result is made from a showable discovery with a new key, in ranking order, and such a discovery is missing only when eight that rank before it are there |
| ContentSearch.DiscoveriesExactly | provider_content.go:120-174 | everything found on a page and the bucket it is put in; social tags are read before JSON-LD and JSON-LD before image tags |
| ContentSearch.ReadInPageOrder | provider_content.go:134-174 | image tags and JSON-LD blocks are read in page order |
| ContentSearch.OneVariantSurvives | provider_content.go:100-104 | of an image without a size suffix and all its size variants at most one survives |
| VisionParser.ParseClassificationResult | classify_types.go:102-131 | the loop computes the declarative parse and never indexes an empty field list |
| VisionParser.LabelsArePrefixFree | classify_types.go:78-82 | no label is a prefix of another |
| VisionParser.LabelOrderIsIrrelevant | classify_types.go:78-82 | any ordering of the labels parses every answer alike |
| VisionParser.ParseRendered | classify_types.go:102-131 | any spelling, padding, number in (0,1] and trailing noise parses back to label and number |
| VisionParser.ConfidenceRange | classify_types.go:126-128 | the confidence is in [0,1] if and only if the number field does not read as NaN |
| VisionParser.ConfidenceExactly | classify_types.go:119-130 | the confidence for every answer: 0 without label, without number, for an unreadable number and outside (0,1], otherwise the number |
| VisionParser.LabelExactly | classify_types.go:102-117 | each of the seven labels is the class exactly when the trimmed, upper-cased answer starts with it |
| VisionParser.UnrecognisedExactly | classify_types.go:104-117 | an answer that starts with no label, and no other, gives the zero result |
| VisionParser.BareLabel | classify_types.go:119-122 | a bare label in any spelling and padding has confidence 0 |
| VisionParser.NaNPasses | classify_types.go:126-130 | NaN passes the range test |
| VisionParser.LegacyAgrees | classify_types.go:137-149 | the legacy parser is the new one's class restricted to PHOTO, STOCK and REJECT |
| ClassifyCache.Session.constructor | imagefy.go:30-33 | an empty cache and no calls |
| ClassifyCache.Session.ClassifyImageFull | classify.go:13-32 | result and effects of the downloading entry point |
| ClassifyCache.Session.ClassifyPredownloaded | classify.go:60-79 | result and effects of the entry point for downloaded data |
| ClassifyCache.Session.DoClassifyFull | classify.go:47-56 | an unavailable download is accepted without a call |
| ClassifyCache.Session.ClassifyFromData | classify.go:82-106 | one classifier call for non-empty data and an event exactly for an answer |
| ClassifyCache.FirstAnswerSticks | classify.go:13-79 | in any mix of entry points all calls for a URL return the fresh answer to the first, with at most one classifier call and one event per URL |
| ClassifyCache.FreshExactly | classify.go:47-106 | no classifier, no data, no download or an error give the empty result; an answer is parsed |
| ClassifyCache.StepExactly | classify.go:13-79 | without a classifier nothing happens, without a cache every call with data asks, a cached answer asks nobody |
| ClassifyCache.AuditExactly | classify.go:99-103 | the audit log holds exactly the parsed answers of first calls that were answered, and nothing without a callback |
| ClassifyCache.CallsExactly | classify.go:13-97 | the classifier is asked about a URL exactly when its first call brought data |
| ClassifyCache.CacheIsTransparent | classify.go:13-79 | if answers depend on the URL only, results equal those without a cache |
| Query.BuildImageQueryLang | query.go:43-77 | the loop computes the declarative query |
| Query.MeaningfulExactly | query.go:53-68 | every qualifying word, at the position of its rank among the qualifying words, and nothing else |
| Query.TitleWordsReadBack | query.go:69-72 | the title part is exactly the first five qualifying words, or all if there are fewer, and splitting gives them back |
| Query.QualifiesExactly | query.go:55-66 | a word counts with at least three runes and if it is no stop word in lower case |
| Query.WordsAreClean | query.go:55-58 | query words carry no outer punctuation |
| Query.JoinedBySpace | query.go:72 | words are joined by single spaces |
| Query.LanguageExactly | query.go:44-52 | the English list exactly for primary subtag en in any letter case, the Russian one for every other tag and for none |
| Query.EnglishTitle | query.go:50-66 | no word of an English query is an English stop word or shorter than three runes |
| Query.CityExactly | query.go:73-75 | the city is appended behind one space exactly when the query does not contain it in some letter case |
| Query.QueryIsIdempotent | query.go:43-77 | without a city the function is idempotent |
| Query.CityIsMentioned | query.go:73-75 | a non-empty city is contained case-insensitively |
| Query.OnlyPrimarySubtagMatters | query.go:44-52 | two language tags, bare or with further subtags, whose primary subtags differ in letter case only give the same query (sections 2.1.1 and 2.2.1 of RFC 5646) |

## Left out

- HTTP clients, provider fetching, downloads, image decoding, hash computation and metadata decoding: outside calls; their outcomes are inputs of the model.
- Timeouts, context cancellation, logging and a panic raised by the panic callback itself: every outside call is taken to return or to panic once.
- Regular expressions over HTML, JSON-LD parsing, HTML unescaping, registrable domains and slug tokens: extracted URLs, cleaned texts and tokens are inputs.
- Floating-point rounding: confidences are reals extended with NaN and infinities, so a decimal that rounds to 0 or to 1 is not modelled.
- Facts: a position's classification is fixed per position; two positions with the same URL whose cached answer differs from their own are not modelled, because only the cache module has the cache as state.
- Find.FindImages: what the outside world answers for a list entry is fixed for the call; an answer that changes with the moment at which a worker asks is not modelled.
- Gather.SortByLicense: the library sort is modelled by its insertion pass; the block merging it adds on long inputs is not, because its result is the unique stable sort anyway.
- PipelineTheorems.ValidateCandidates: runs the transition system under a scheduler given as functions; goroutines, the wait group and mutexes appear as steps, not as objects.
- SearchImagesWithOpts beyond gathering, sorting and validation (its timeout, default provider and search callback), ValidateCandidates' entry check, PreClassify, IsRealPhoto, base64 and data URLs: single-branch helpers that would add only easy members.
