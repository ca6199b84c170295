/** First-wins ranking of discovered images into four buckets, independent of how a discovery is judged. */
module Ranking {
  import opened Domain

  const CONTENT_MAX_RESULTS: nat := 8

  datatype Bucket = Slug | Content | JsonLd | Social

  /** One discovery, judged: whether it can be fetched, its deduplication key, whether it may be shown. */
  datatype Item = Item(fetchable: bool, key: string, presentable: bool, bucket: Bucket, candidate: Candidate)

  /** Item `i` is the first fetchable one with its key. */
  ghost predicate First(xs: seq<Item>, i: nat)
    requires i < |xs|
  {
    xs[i].fetchable && forall j | 0 <= j < i && xs[j].fetchable :: xs[j].key != xs[i].key
  }

  ghost predicate Kept(xs: seq<Item>, i: nat)
    requires i < |xs|
  {
    First(xs, i) && xs[i].presentable
  }

  /** Positions of the kept items of one bucket among the first `n`, in discovery order. */
  ghost function Origins(xs: seq<Item>, b: Bucket, n: nat): seq<nat>
    requires n <= |xs|
  {
    if n == 0 then []
    else if Kept(xs, n - 1) && xs[n - 1].bucket == b then Origins(xs, b, n - 1) + [n - 1]
    else Origins(xs, b, n - 1)
  }

  ghost function Candidates(xs: seq<Item>, origins: seq<nat>): seq<Candidate>
    requires forall k | 0 <= k < |origins| :: origins[k] < |xs|
  {
    seq(|origins|, k requires 0 <= k < |origins| => xs[origins[k]].candidate)
  }

  lemma {:induction false} OriginsSpec(xs: seq<Item>, b: Bucket, n: nat)
    requires n <= |xs|
    ensures
      var os := Origins(xs, b, n);
      && (forall k | 0 <= k < |os| :: os[k] < n && Kept(xs, os[k]) && xs[os[k]].bucket == b)
      && (forall j, k | 0 <= j < k < |os| :: os[j] < os[k])
      && (forall i | 0 <= i < n && Kept(xs, i) && xs[i].bucket == b :: i in os)
  {
    if n > 0 {
      OriginsSpec(xs, b, n - 1);
    }
  }

  /** The candidates of a bucket. */
  ghost function Filled(xs: seq<Item>, b: Bucket): seq<Candidate> {
    OriginsSpec(xs, b, |xs|);
    Candidates(xs, Origins(xs, b, |xs|))
  }

  ghost function Merge(xs: seq<Item>): seq<Candidate> {
    Filled(xs, Slug) + Filled(xs, Content) + Filled(xs, JsonLd) + Filled(xs, Social)
  }

  /** The first eight of slug, content, JSON-LD and social images, in that order. */
  ghost function Ranked(xs: seq<Item>): seq<Candidate> {
    Merge(xs)[..Min(CONTENT_MAX_RESULTS, |Merge(xs)|)]
  }

  ghost predicate SeenIs(xs: seq<Item>, seen: set<string>) {
    forall key :: key in seen <==> exists i :: 0 <= i < |xs| && xs[i].fetchable && xs[i].key == key
  }

  // ---- One more item

  lemma {:induction false} OriginsPrefix(xs: seq<Item>, more: seq<Item>, b: Bucket, n: nat)
    requires n <= |xs| && xs <= more
    ensures Origins(xs, b, n) == Origins(more, b, n)
  {
    if n > 0 {
      OriginsPrefix(xs, more, b, n - 1);
    }
  }

  /** One more item extends its own bucket if it is kept, and changes nothing else. */
  lemma FilledMore(xs: seq<Item>, x: Item, b: Bucket)
    ensures Filled(xs + [x], b) == Filled(xs, b) + (if Kept(xs + [x], |xs|) && x.bucket == b then [x.candidate] else [])
  {
    OriginsPrefix(xs, xs + [x], b, |xs|);
    OriginsSpec(xs, b, |xs|);
  }

  lemma SeenMore(xs: seq<Item>, x: Item, seen: set<string>)
    requires SeenIs(xs, seen)
    ensures SeenIs(xs + [x], if x.fetchable then seen + {x.key} else seen)
    ensures First(xs + [x], |xs|) <==> x.fetchable && x.key !in seen
  {
    var more := xs + [x];
    var seen' := if x.fetchable then seen + {x.key} else seen;
    assert more[|xs|] == x;
    forall key
      ensures key in seen' <==> exists i :: 0 <= i < |more| && more[i].fetchable && more[i].key == key
    {
      if key in seen {
        var i :| 0 <= i < |xs| && xs[i].fetchable && xs[i].key == key;
        assert more[i] == xs[i];
      }
    }
    if x.fetchable && x.key in seen {
      var i :| 0 <= i < |xs| && xs[i].fetchable && xs[i].key == x.key;
      assert more[i] == xs[i];
    }
  }

  /** What one more item does to the key set and to each bucket. */
  lemma OneMore(xs: seq<Item>, x: Item, seen: set<string>)
    requires SeenIs(xs, seen)
    ensures
      var isNew := x.fetchable && x.key !in seen;
      && SeenIs(xs + [x], if isNew then seen + {x.key} else seen)
      && forall b :: Filled(xs + [x], b) ==
           Filled(xs, b) + if isNew && x.presentable && x.bucket == b then [x.candidate] else []
  {
    SeenMore(xs, x, seen);
    assert x.key in seen ==> seen + {x.key} == seen;
    forall b
      ensures Filled(xs + [x], b) ==
              Filled(xs, b) + if Kept(xs + [x], |xs|) && x.bucket == b then [x.candidate] else []
    {
      FilledMore(xs, x, b);
    }
  }

  // ---- Guarantees

  ghost predicate Good(xs: seq<Item>, b: Bucket, os: seq<nat>) {
    && (forall k | 0 <= k < |os| :: os[k] < |xs| && Kept(xs, os[k]) && xs[os[k]].bucket == b)
    && (forall j, k | 0 <= j < k < |os| :: os[j] != os[k])
  }

  /** All origins, bucket by bucket. */
  ghost function AllOrigins(xs: seq<Item>): seq<nat> {
    Origins(xs, Slug, |xs|) + Origins(xs, Content, |xs|) + Origins(xs, JsonLd, |xs|) + Origins(xs, Social, |xs|)
  }

  lemma GoodOrigins(xs: seq<Item>, b: Bucket)
    ensures Good(xs, b, Origins(xs, b, |xs|))
  {
    OriginsSpec(xs, b, |xs|);
  }

  lemma FourGood(xs: seq<Item>, s: seq<nat>, c: seq<nat>, j: seq<nat>, o: seq<nat>)
    requires Good(xs, Slug, s) && Good(xs, Content, c) && Good(xs, JsonLd, j) && Good(xs, Social, o)
    ensures
      var all := s + c + j + o;
      && (forall k | 0 <= k < |all| :: all[k] < |xs| && Kept(xs, all[k]))
      && (forall x, y | 0 <= x < y < |all| :: all[x] != all[y])
      && Candidates(xs, s) + Candidates(xs, c) + Candidates(xs, j) + Candidates(xs, o) == Candidates(xs, all)
  {
  }

  lemma MergeOrigins(xs: seq<Item>)
    ensures
      var all := AllOrigins(xs);
      && (forall k | 0 <= k < |all| :: all[k] < |xs| && Kept(xs, all[k]))
      && (forall x, y | 0 <= x < y < |all| :: all[x] != all[y])
      && Merge(xs) == Candidates(xs, all)
  {
    GoodOrigins(xs, Slug);
    GoodOrigins(xs, Content);
    GoodOrigins(xs, JsonLd);
    GoodOrigins(xs, Social);
    FourGood(xs, Origins(xs, Slug, |xs|), Origins(xs, Content, |xs|), Origins(xs, JsonLd, |xs|), Origins(xs, Social, |xs|));
  }

  /** Slug matches come first, then content images, then JSON-LD, then social tags. */
  function Priority(b: Bucket): nat {
    match b
    case Slug => 0
    case Content => 1
    case JsonLd => 2
    case Social => 3
  }

  /** Discovery `i` ranks before discovery `j`: a better bucket, or the same one and found earlier. */
  predicate Precedes(xs: seq<Item>, i: nat, j: nat)
    requires i < |xs| && j < |xs|
  {
    Priority(xs[i].bucket) < Priority(xs[j].bucket) || (xs[i].bucket == xs[j].bucket && i < j)
  }

  /** One bucket's origins, ascending. */
  ghost predicate Ascending(xs: seq<Item>, b: Bucket, os: seq<nat>) {
    && (forall k | 0 <= k < |os| :: os[k] < |xs| && xs[os[k]].bucket == b)
    && (forall j, k | 0 <= j < k < |os| :: os[j] < os[k])
  }

  lemma FourAscending(xs: seq<Item>, s: seq<nat>, c: seq<nat>, j: seq<nat>, o: seq<nat>)
    requires Ascending(xs, Slug, s) && Ascending(xs, Content, c) && Ascending(xs, JsonLd, j) && Ascending(xs, Social, o)
    ensures
      var all := s + c + j + o;
      && (forall k | 0 <= k < |all| :: all[k] < |xs|)
      && (forall x, y | 0 <= x < y < |all| :: Precedes(xs, all[x], all[y]))
  {
  }

  /** All kept discoveries, each once, in ranking order. */
  lemma AllOriginsRanked(xs: seq<Item>)
    ensures
      var all := AllOrigins(xs);
      && (forall k | 0 <= k < |all| :: all[k] < |xs|)
      && (forall x, y | 0 <= x < y < |all| :: Precedes(xs, all[x], all[y]))
      && (forall i: nat | i < |xs| && Kept(xs, i) :: i in all)
  {
    forall b: Bucket
      ensures Ascending(xs, b, Origins(xs, b, |xs|))
      ensures forall i: nat | i < |xs| && Kept(xs, i) && xs[i].bucket == b :: i in Origins(xs, b, |xs|)
    {
      OriginsSpec(xs, b, |xs|);
    }
    FourAscending(xs, Origins(xs, Slug, |xs|), Origins(xs, Content, |xs|), Origins(xs, JsonLd, |xs|), Origins(xs, Social, |xs|));
  }

  /**
   * Where each ranked candidate was discovered. Origins are kept discoveries with distinct keys in
   * ranking order, and a kept discovery is missing only when eight better ones are there.
   */
  lemma RankedOrigins(xs: seq<Item>) returns (os: seq<nat>)
    ensures |os| == |Ranked(xs)| <= 8
    ensures forall k | 0 <= k < |os| :: os[k] < |xs| && Kept(xs, os[k]) && Ranked(xs)[k] == xs[os[k]].candidate
    ensures forall x, y | 0 <= x < y < |os| :: xs[os[x]].key != xs[os[y]].key
    ensures forall x, y | 0 <= x < y < |os| :: Precedes(xs, os[x], os[y])
    ensures forall i: nat | i < |xs| && Kept(xs, i) && i !in os ::
              |os| == 8 && forall x | 0 <= x < |os| :: Precedes(xs, os[x], i)
  {
    MergeOrigins(xs);
    AllOriginsRanked(xs);
    os := AllOrigins(xs)[..|Ranked(xs)|];
    forall x, y | 0 <= x < y < |os|
      ensures xs[os[x]].key != xs[os[y]].key
    {
      KeptKeysDiffer(xs, os[x], os[y]);
    }
    forall i: nat | i < |xs| && Kept(xs, i) && i !in os
      ensures |os| == 8 && forall x | 0 <= x < |os| :: Precedes(xs, os[x], i)
    {
      CutOff(xs, AllOrigins(xs), |os|, i);
    }
  }

  lemma CutOff(xs: seq<Item>, all: seq<nat>, n: nat, i: nat)
    requires n <= |all| && i in all && i !in all[..n]
    requires forall k | 0 <= k < |all| :: all[k] < |xs|
    requires forall x, y | 0 <= x < y < |all| :: Precedes(xs, all[x], all[y])
    ensures n < |all| && i < |xs| && forall x | 0 <= x < n :: Precedes(xs, all[x], i)
  {
    var m :| 0 <= m < |all| && all[m] == i;
    forall x | 0 <= x < n
      ensures all[x] != i
    {
      assert all[..n][x] in all[..n];
    }
  }

  lemma KeptKeysDiffer(xs: seq<Item>, i: nat, j: nat)
    requires i < |xs| && j < |xs| && i != j && Kept(xs, i) && Kept(xs, j)
    ensures xs[i].key != xs[j].key
  {
  }

  /** A bucket holds exactly the candidates whose key was first discovered in it, in discovery order. */
  lemma BucketOfFirstDiscovery(xs: seq<Item>, b: Bucket)
    ensures
      var os := Origins(xs, b, |xs|);
      && |Filled(xs, b)| == |os|
      && (forall j, k | 0 <= j < k < |os| :: os[j] < os[k])
      && (forall k | 0 <= k < |os| :: os[k] < |xs| && Filled(xs, b)[k] == xs[os[k]].candidate)
      && (forall i: nat | i < |xs| :: i in os <==> First(xs, i) && xs[i].presentable && xs[i].bucket == b)
  {
    OriginsSpec(xs, b, |xs|);
  }
}
