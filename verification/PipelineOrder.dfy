/**
 * In which order results can come back. Workers append in completion order, so sorting the input does
 * not sort the output; this module says exactly which orders are possible.
 */
module PipelineOrder {
  import opened Domain
  import opened Listings
  import opened Dedup
  import opened Sieve
  import opened Pipeline
  import opened PipelineInvariant
  import opened PipelineTheorems
  import opened PipelineSequential

  ghost predicate CanBegin(job: Job, xs: seq<nat>) {
    exists schedule :: IsCompleteRun(job, schedule) && xs <= Exec(job, schedule).validated
  }

  lemma Build(job: Job, xs: seq<nat>) returns (full: seq<Action>)
    requires Keepable(Items(job), job.maxResults, xs)
    ensures IsCompleteRun(job, full) && xs <= Exec(job, full).validated
  {
    var rest := Complete(|job.facts|, xs);
    ApartAllKept(Items(job), job.maxResults, xs);
    FilteredGrows(Items(job), job.maxResults, xs, rest);
    full := SequentialRuns(job, xs + rest);
  }

  lemma RunKeepable(job: Job, schedule: seq<Action>)
    requires IsRun(job, schedule)
    ensures Keepable(Items(job), job.maxResults, Exec(job, schedule).validated)
  {
    RunInv(job, schedule);
    ResultsKeepable(job, Exec(job, schedule));
  }

  lemma PrefixKeepable(items: seq<Item>, limit: int, xs: seq<nat>, ys: seq<nat>)
    requires xs <= ys && Keepable(items, limit, ys)
    ensures Keepable(items, limit, xs)
  {
  }

  /**
   * Completion order is completely free: a list is the beginning of some returned list exactly when
   * its positions are distinct and acceptable, no two look alike, and there are not too many.
   */
  lemma BeginningsExactly(job: Job, xs: seq<nat>)
    ensures CanBegin(job, xs) <==> Keepable(Items(job), job.maxResults, xs)
  {
    if Keepable(Items(job), job.maxResults, xs) {
      var full := Build(job, xs);
    }
    forall schedule | IsCompleteRun(job, schedule) && xs <= Exec(job, schedule).validated
      ensures Keepable(Items(job), job.maxResults, xs)
    {
      RunKeepable(job, schedule);
      PrefixKeepable(Items(job), job.maxResults, xs, Exec(job, schedule).validated);
    }
  }

  // ---- Pairs

  ghost predicate Before(xs: seq<nat>, i: nat, j: nat) {
    exists a, b :: 0 <= a < b < |xs| && xs[a] == i && xs[b] == j
  }

  /** Both positions can be returned by one call. */
  predicate Compatible(job: Job, i: nat, j: nat)
    requires i < |job.facts| && j < |job.facts|
  {
    var f, g := job.facts[i], job.facts[j];
    && job.maxResults >= 2
    && Acceptable(f) && Acceptable(g)
    && (f.hash.Some? && g.hash.Some? ==> !Near(g.hash.value, f.hash.value))
  }

  lemma AcceptableOffers(f: Facts)
    requires Acceptable(f)
    ensures ItemOf(f).good && ItemOf(f).hash == f.hash
  {
  }

  lemma BuildOrder(job: Job, i: nat, j: nat) returns (full: seq<Action>)
    requires i < |job.facts| && j < |job.facts| && i != j && Compatible(job, i, j)
    ensures IsCompleteRun(job, full) && Before(Exec(job, full).validated, i, j)
  {
    AcceptableOffers(job.facts[i]);
    AcceptableOffers(job.facts[j]);
    full := Build(job, [i, j]);
    var xs := Exec(job, full).validated;
    assert xs[0] == [i, j][0] && xs[1] == [i, j][1];
  }

  lemma OrderNeedsCompatible(job: Job, schedule: seq<Action>, a: nat, b: nat)
    requires IsRun(job, schedule) && a < b < |Exec(job, schedule).validated|
    ensures
      var i, j := Exec(job, schedule).validated[a], Exec(job, schedule).validated[b];
      i != j && i < |job.facts| && j < |job.facts| && Compatible(job, i, j)
  {
    RunKeepable(job, schedule);
    var i, j := Exec(job, schedule).validated[a], Exec(job, schedule).validated[b];
    assert Items(job)[i].good && Items(job)[j].good;
    AcceptableOffers(job.facts[i]);
    AcceptableOffers(job.facts[j]);
    assert !Clash(Items(job)[j], Items(job)[i]);
  }

  /** Any two compatible positions, and no others, can come back in either order. */
  lemma OrderIsFree(job: Job, i: nat, j: nat)
    requires i < |job.facts| && j < |job.facts| && i != j
    ensures (exists schedule :: IsCompleteRun(job, schedule) && Before(Exec(job, schedule).validated, i, j))
            <==> Compatible(job, i, j)
  {
    if Compatible(job, i, j) {
      var full := BuildOrder(job, i, j);
    }
    forall schedule | IsCompleteRun(job, schedule) && Before(Exec(job, schedule).validated, i, j)
      ensures Compatible(job, i, j)
    {
      var xs := Exec(job, schedule).validated;
      var a, b :| 0 <= a < b < |xs| && xs[a] == i && xs[b] == j;
      OrderNeedsCompatible(job, schedule, a, b);
    }
  }

  // ---- Sorted results

  ghost predicate RankSorted(xs: seq<nat>, rank: nat -> nat) {
    forall a, b | 0 <= a < b < |xs| :: rank(xs[a]) <= rank(xs[b])
  }

  /** Positions that can be returned together have the same rank. */
  ghost predicate RanksAgree(job: Job, rank: nat -> nat) {
    forall i: nat, j: nat | i < |job.facts| && j < |job.facts| && Compatible(job, i, j) && i != j :: rank(i) == rank(j)
  }

  /**
   * The documentation promises results with safe licenses first. The code delivers that for every
   * schedule exactly when no two compatible positions have different ranks.
   */
  lemma SafeFirstExactly(job: Job, rank: nat -> nat)
    ensures (forall schedule | IsCompleteRun(job, schedule) :: RankSorted(Exec(job, schedule).validated, rank))
            <==> RanksAgree(job, rank)
  {
    if forall schedule | IsCompleteRun(job, schedule) :: RankSorted(Exec(job, schedule).validated, rank) {
      forall i: nat, j: nat | i < |job.facts| && j < |job.facts| && Compatible(job, i, j) && i != j
        ensures rank(i) == rank(j)
      {
        CompatibleSymmetric(job, i, j);
        var one := BuildOrder(job, i, j);
        var two := BuildOrder(job, j, i);
        assert rank(i) <= rank(j) && rank(j) <= rank(i);
      }
    }
    if RanksAgree(job, rank) {
      forall schedule, a, b | IsCompleteRun(job, schedule) && 0 <= a < b < |Exec(job, schedule).validated|
        ensures rank(Exec(job, schedule).validated[a]) <= rank(Exec(job, schedule).validated[b])
      {
        OrderNeedsCompatible(job, schedule, a, b);
      }
    }
  }

  lemma CompatibleSymmetric(job: Job, i: nat, j: nat)
    requires i < |job.facts| && j < |job.facts| && Compatible(job, i, j)
    ensures Compatible(job, j, i)
  {
    if job.facts[i].hash.Some? && job.facts[j].hash.Some? {
      DistanceMetric(job.facts[i].hash.value, job.facts[j].hash.value, job.facts[i].hash.value);
    }
  }

  // ---- Two images

  /** Two images that pass the filters: both come back on every schedule, or one if nine bits or fewer tell them apart. */
  lemma TwoImages(job: Job, schedule: seq<Action>)
    requires IsCompleteRun(job, schedule) && |job.facts| == 2 && job.maxResults >= 2
    requires PassedEveryFilter(job.facts[0]) && PassedEveryFilter(job.facts[1])
    requires job.facts[0].hash.Some? && job.facts[1].hash.Some?
    ensures |Exec(job, schedule).validated| ==
            if Distance(job.facts[0].hash.value, job.facts[1].hash.value) <= 9 then 1 else 2
  {
    var items := Items(job);
    forall i | 0 <= i < 2
      ensures items[i] == Item(job.facts[i].hash, true)
    {
      AcceptableExactly(job.facts[i]);
      AcceptableOffers(job.facts[i]);
    }
    var q := RunSize(job, schedule);
    var kept := Owners(Stored(items, q));
    StoredIsMaximal(items, q);
    PairSets(items, kept);
  }

  lemma PairSets(items: seq<Item>, kept: set<nat>)
    requires |items| == 2 && Maximal(items, kept) && forall i | 0 <= i < 2 :: items[i].good && items[i].hash.Some?
    ensures |Sieve.Survivors(items, kept)| == if Clash(items[0], items[1]) then 1 else 2
  {
    ClashSymmetric(items[0], items[1]);
    assert Sieve.Survivors(items, kept) == kept;
    if Clash(items[0], items[1]) {
      assert kept == {0} || kept == {1};
    } else {
      assert kept == {0, 1};
    }
  }

  // ---- A chain of look-alikes

  /** Three acceptable images, the second of which looks like both others, which do not look alike. */
  predicate Chain(job: Job) {
    && |job.facts| == 3 && job.maxResults >= 2
    && (forall i | 0 <= i < 3 :: Acceptable(job.facts[i]) && job.facts[i].hash.Some?)
    && Near(job.facts[0].hash.value, job.facts[1].hash.value)
    && Near(job.facts[2].hash.value, job.facts[1].hash.value)
    && !Near(job.facts[2].hash.value, job.facts[0].hash.value)
  }

  /** Without the no-look-alikes condition even the number of results depends on the schedule. */
  lemma SizeCanDependOnSchedule(job: Job)
    requires Chain(job)
    ensures CanReturnMany(job, 1) && CanReturnMany(job, 2) && !SizeIsFixed(job)
  {
    var items := Items(job);
    forall i | 0 <= i < 3
      ensures items[i] == Item(job.facts[i].hash, true)
    {
      AcceptableOffers(job.facts[i]);
    }
    ChainSets(items);
    SizesExactly(job, 1);
    SizesExactly(job, 2);
    assert SizeWith(job, {1}) == 1 && SizeWith(job, {0, 2}) == 2;
  }

  /** The middle alone and the two ends are both maximal. */
  lemma ChainSets(items: seq<Item>)
    requires |items| == 3 && forall i | 0 <= i < 3 :: items[i].good && items[i].hash.Some?
    requires Clash(items[0], items[1]) && Clash(items[2], items[1]) && !Clash(items[2], items[0])
    ensures Maximal(items, {1}) && Sieve.Survivors(items, {1}) == {1}
    ensures Maximal(items, {0, 2}) && Sieve.Survivors(items, {0, 2}) == {0, 2}
  {
    ClashSymmetric(items[0], items[1]);
    ClashSymmetric(items[0], items[2]);
    assert Suppressed(items, {1}, 0) && Suppressed(items, {1}, 2) && Suppressed(items, {0, 2}, 1);
  }

  function ChainLink(k: nat): Facts {
    Facts(true, false, Some(Ones(k)), Safe, false, ClassificationResult("", Finite(0.0)), None)
  }

  /** Three freely licensed images whose hashes differ in nine bits from one to the next. */
  function ChainJob(): Job {
    Job([ChainLink(0), ChainLink(9), ChainLink(18)], 3, false)
  }

  lemma ChainExample()
    ensures Chain(ChainJob()) && !SizeIsFixed(ChainJob())
  {
    OnesDistance(0, 9);
    OnesDistance(9, 18);
    OnesDistance(0, 18);
    SizeCanDependOnSchedule(ChainJob());
  }
}
