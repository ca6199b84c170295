/** Perceptual deduplication: 64-bit difference hashes, Hamming distance, first-come-first-kept storage. */
module Dedup {
  import opened Domain

  const DEDUP_THRESHOLD: nat := 10

  /** A difference hash as its 64 bits. */
  type Hash = bits: seq<bool> | |bits| == 64 witness seq(64, i => false)

  /** Number of positions below `n` at which the two bit vectors differ. */
  function DiffCount(a: seq<bool>, b: seq<bool>, n: nat): (c: nat)
    requires n <= |a| && n <= |b|
    ensures c <= n
  {
    if n == 0 then 0 else DiffCount(a, b, n - 1) + (if a[n - 1] != b[n - 1] then 1 else 0)
  }

  /** Hamming distance: the number of one bits of the exclusive or. */
  function Distance(a: Hash, b: Hash): (d: nat)
    ensures d <= 64
  {
    DiffCount(a, b, |a|)
  }

  // ---- Hamming distance is a metric

  lemma {:induction false} DiffCountMetric(a: seq<bool>, b: seq<bool>, c: seq<bool>, n: nat)
    requires n <= |a| && n <= |b| && n <= |c|
    ensures DiffCount(a, b, n) == DiffCount(b, a, n)
    ensures DiffCount(a, c, n) <= DiffCount(a, b, n) + DiffCount(b, c, n)
    ensures DiffCount(a, b, n) == 0 <==> a[..n] == b[..n]
  {
    if n > 0 {
      DiffCountMetric(a, b, c, n - 1);
      assert a[..n] == a[..n - 1] + [a[n - 1]];
      assert b[..n] == b[..n - 1] + [b[n - 1]];
    }
  }

  lemma DistanceMetric(a: Hash, b: Hash, c: Hash)
    ensures Distance(a, b) == Distance(b, a)
    ensures Distance(a, c) <= Distance(a, b) + Distance(b, c)
    ensures Distance(a, b) == 0 <==> a == b
  {
    DiffCountMetric(a, b, c, |a|);
    assert a[..|a|] == a && b[..|a|] == b;
  }

  predicate Near(a: Hash, b: Hash) {
    Distance(a, b) < DEDUP_THRESHOLD
  }

  /** Hashes are near exactly when they differ in at most nine places. */
  lemma NearExactly(a: Hash, b: Hash)
    ensures Near(a, b) <==> |Differences(a, b, 64)| <= 9
  {
    DifferencesCounted(a, b, 64);
  }

  /** The places below `n` at which the vectors differ. */
  ghost function Differences(a: seq<bool>, b: seq<bool>, n: nat): set<nat>
    requires n <= |a| && n <= |b|
  {
    set k: nat | k < n && a[k] != b[k]
  }

  lemma {:induction false} DifferencesCounted(a: seq<bool>, b: seq<bool>, n: nat)
    requires n <= |a| && n <= |b|
    ensures DiffCount(a, b, n) == |Differences(a, b, n)|
  {
    if n == 0 {
      assert Differences(a, b, n) == {};
    } else {
      DifferencesCounted(a, b, n - 1);
      var rest := Differences(a, b, n - 1);
      assert Differences(a, b, n) == if a[n - 1] != b[n - 1] then rest + {n - 1} else rest;
    }
  }

  // ---- The stored list

  /** A hash together with the input position that offered it; the position is never consulted. */
  datatype Entry = Entry(owner: nat, hash: Hash)

  /** Some stored hash makes `h` a duplicate. */
  predicate HasNear(stored: seq<Entry>, h: Hash) {
    exists k | 0 <= k < |stored| :: Near(h, stored[k].hash)
  }

  /** The list after `e` was offered under the lock. */
  function Offer(stored: seq<Entry>, e: Entry): seq<Entry> {
    if HasNear(stored, e.hash) then stored else stored + [e]
  }

  /** The pure greedy filter over a sequence of arrivals. */
  function Greedy(arrivals: seq<Entry>): seq<Entry> {
    if arrivals == [] then [] else Offer(Greedy(arrivals[..|arrivals| - 1]), arrivals[|arrivals| - 1])
  }

  ghost predicate Spread(es: seq<Entry>) {
    forall i, j | 0 <= i < |es| && 0 <= j < |es| && i != j :: !Near(es[i].hash, es[j].hash)
  }

  /** The concurrent-use filter object; one call holds the lock from the scan to the append. */
  class DedupFilter {
    var hashes: seq<Entry>
    ghost var arrivals: seq<Entry>

    ghost predicate Valid()
      reads this
    {
      hashes == Greedy(arrivals)
    }

    constructor ()
      ensures Valid() && arrivals == []
    {
      hashes, arrivals := [], [];
    }

    /** A failed hash computation (None) accepts the image and stores nothing. */
    method IsDuplicate(owner: nat, hash: Option<Hash>) returns (dup: bool)
      requires Valid()
      modifies this
      ensures Valid()
      ensures arrivals == if hash.None? then old(arrivals) else old(arrivals) + [Entry(owner, hash.value)]
      ensures dup <==> hash.Some? && HasNear(old(hashes), hash.value)
      ensures hashes == if hash.None? || dup then old(hashes) else old(hashes) + [Entry(owner, hash.value)]
    {
      if hash.None? {
        return false;
      }
      arrivals := arrivals + [Entry(owner, hash.value)];
      GreedySnoc(old(arrivals), Entry(owner, hash.value));
      var k := 0;
      while k < |hashes|
        invariant 0 <= k <= |hashes| && hashes == old(hashes)
        invariant arrivals == old(arrivals) + [Entry(owner, hash.value)]
        invariant forall m | 0 <= m < k :: !Near(hash.value, hashes[m].hash)
      {
        if Distance(hash.value, hashes[k].hash) < DEDUP_THRESHOLD {
          return true;
        }
        k := k + 1;
      }
      hashes := hashes + [Entry(owner, hash.value)];
      return false;
    }
  }

  // ---- What the greedy filter guarantees

  /**
   * Kept hashes are pairwise at least the threshold apart; an arrival is absent exactly when it
   * is near a kept hash other than itself, and what is kept is a subset of what arrived.
   */
  lemma {:induction false} GreedySpread(arrivals: seq<Entry>)
    ensures Spread(Greedy(arrivals))
    ensures forall e | e in Greedy(arrivals) :: e in arrivals
    ensures forall e | e in arrivals :: e in Greedy(arrivals) || exists k :: k in Greedy(arrivals) && Near(e.hash, k.hash)
  {
    if arrivals != [] {
      var front, last := arrivals[..|arrivals| - 1], arrivals[|arrivals| - 1];
      GreedySpread(front);
      assert arrivals == front + [last];
      var kept := Greedy(front);
      if !HasNear(kept, last.hash) {
        forall k | 0 <= k < |kept|
          ensures !Near(last.hash, kept[k].hash) && !Near(kept[k].hash, last.hash)
        {
          DistanceMetric(last.hash, kept[k].hash, last.hash);
        }
        forall i, j | 0 <= i < |Greedy(arrivals)| && 0 <= j < |Greedy(arrivals)| && i != j
          ensures !Near(Greedy(arrivals)[i].hash, Greedy(arrivals)[j].hash)
        {
        }
      }
      forall e | e in arrivals
        ensures e in Greedy(arrivals) || exists k :: k in Greedy(arrivals) && Near(e.hash, k.hash)
      {
        if e in front && e !in kept {
          var k :| k in kept && Near(e.hash, k.hash);
          assert k in Greedy(arrivals);
        }
      }
    }
  }

  /** When no two arrivals are near, nothing is dropped. */
  lemma {:induction false} GreedyKeepsSpread(arrivals: seq<Entry>)
    requires Spread(arrivals)
    ensures Greedy(arrivals) == arrivals
  {
    if arrivals != [] {
      var front, last := arrivals[..|arrivals| - 1], arrivals[|arrivals| - 1];
      assert Spread(front) by {
        forall i, j | 0 <= i < |front| && 0 <= j < |front| && i != j
          ensures !Near(front[i].hash, front[j].hash)
        {
          assert !Near(arrivals[i].hash, arrivals[j].hash);
        }
      }
      GreedyKeepsSpread(front);
      forall k | 0 <= k < |front|
        ensures !Near(last.hash, front[k].hash)
      {
        assert !Near(arrivals[|front|].hash, arrivals[k].hash);
      }
      assert front + [last] == arrivals;
    }
  }

  /** The hash whose lowest `k` bits are set. */
  function Ones(k: nat): Hash {
    seq(64, i => i < k)
  }

  lemma {:induction false} OnesDiff(p: nat, q: nat, n: nat)
    requires p <= q && n <= 64
    ensures DiffCount(Ones(p), Ones(q), n) == Min(n, q) - Min(n, p)
  {
    if n > 0 {
      OnesDiff(p, q, n - 1);
    }
  }

  lemma OnesDistance(p: nat, q: nat)
    requires p <= q <= 64
    ensures Distance(Ones(p), Ones(q)) == Distance(Ones(q), Ones(p)) == q - p
  {
    OnesDiff(p, q, |Ones(p)|);
    DistanceMetric(Ones(p), Ones(q), Ones(q));
  }

  lemma GreedyOne(a: Entry)
    ensures Greedy([a]) == [a]
  {
  }

  lemma GreedySnoc(front: seq<Entry>, last: Entry)
    ensures Greedy(front + [last]) == Offer(Greedy(front), last)
  {
    assert (front + [last])[..|front|] == front;
  }

  /** The threshold on two arrivals: the second is dropped at distance 9 and stored at distance 10. */
  lemma ThresholdExactly(a: Entry, b: Entry)
    ensures Greedy([a, b]) == if Distance(b.hash, a.hash) <= 9 then [a] else [a, b]
  {
    assert [a, b] == [a] + [b];
    GreedyOne(a);
    GreedySnoc([a], b);
    assert HasNear([a], b.hash) <==> Near(b.hash, [a][0].hash);
  }

  /** Ten bits apart is far enough, nine bits is not. */
  lemma TenBitsExample()
    ensures Greedy([Entry(0, Ones(0)), Entry(1, Ones(10))]) == [Entry(0, Ones(0)), Entry(1, Ones(10))]
    ensures Greedy([Entry(0, Ones(0)), Entry(1, Ones(9))]) == [Entry(0, Ones(0))]
  {
    OnesDistance(0, 9);
    OnesDistance(0, 10);
    ThresholdExactly(Entry(0, Ones(0)), Entry(1, Ones(10)));
    ThresholdExactly(Entry(0, Ones(0)), Entry(1, Ones(9)));
  }

  /**
   * Nearness is not transitive, so how many images survive depends on the lock order:
   * the middle of a chain suppresses both ends, while the ends suppress only the middle.
   */
  lemma LockOrderMatters(a: Entry, b: Entry, c: Entry)
    requires Near(a.hash, b.hash) && Near(b.hash, c.hash) && !Near(a.hash, c.hash)
    ensures Greedy([a, b, c]) == [a, c]
    ensures Greedy([b, a, c]) == [b]
  {
    DistanceMetric(a.hash, b.hash, c.hash);
    DistanceMetric(b.hash, c.hash, b.hash);
    DistanceMetric(a.hash, c.hash, a.hash);
    GreedyThree(a, b, c);
    GreedyThree(b, a, c);
    assert Near(b.hash, [a][0].hash) && Near(a.hash, [b][0].hash) && Near(c.hash, [b][0].hash);
  }

  lemma GreedyThree(a: Entry, b: Entry, c: Entry)
    ensures Greedy([a, b, c]) == Offer(Offer([a], b), c)
  {
    assert [a, b] == [a] + [b] && [a, b, c] == [a, b] + [c];
    GreedyOne(a);
    GreedySnoc([a], b);
    GreedySnoc([a, b], c);
  }
}
