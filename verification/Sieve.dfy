/**
 * The sequential reference of the validation pipeline: candidates are filtered one after the other in
 * a given order. It knows of a candidate only the hash it offers and whether the other filters pass it.
 */
module Sieve {
  import opened Domain
  import opened Listings
  import opened Dedup

  datatype Item = Item(hash: Option<Hash>, good: bool)

  /** The hashes offered to deduplication, in this order. */
  function Entries(items: seq<Item>, q: seq<nat>): seq<Entry>
    requires InRange(q, |items|)
  {
    if q == [] then []
    else
      var front, i := q[..|q| - 1], q[|q| - 1];
      if items[i].hash.Some? then Entries(items, front) + [Entry(i, items[i].hash.value)] else Entries(items, front)
  }

  /** What deduplication has stored after this order. */
  function Stored(items: seq<Item>, q: seq<nat>): seq<Entry>
    requires InRange(q, |items|)
  {
    Greedy(Entries(items, q))
  }

  /** The item passes every filter when its hash is compared with what is stored. */
  predicate Passes(stored: seq<Entry>, x: Item) {
    x.good && (x.hash.Some? ==> !HasNear(stored, x.hash.value))
  }

  /** One candidate at a time: keep it if it passes and there is room. */
  function Filtered(items: seq<Item>, limit: int, q: seq<nat>): (r: seq<nat>)
    requires InRange(q, |items|)
    ensures InRange(r, |items|)
  {
    if q == [] then []
    else
      var front, i := q[..|q| - 1], q[|q| - 1];
      var results := Filtered(items, limit, front);
      if Passes(Stored(items, front), items[i]) && |results| < limit then results + [i] else results
  }

  lemma StoredSnoc(items: seq<Item>, q: seq<nat>, i: nat)
    requires InRange(q, |items|) && i < |items|
    ensures InRange(q + [i], |items|)
    ensures
      var x := items[i];
      && Entries(items, q + [i]) == (if x.hash.Some? then Entries(items, q) + [Entry(i, x.hash.value)] else Entries(items, q))
      && Stored(items, q + [i]) == if x.hash.Some? then Offer(Stored(items, q), Entry(i, x.hash.value)) else Stored(items, q)
  {
    assert (q + [i])[..|q|] == q;
    if items[i].hash.Some? {
      GreedySnoc(Entries(items, q), Entry(i, items[i].hash.value));
    }
  }

  lemma FilteredSnoc(items: seq<Item>, limit: int, q: seq<nat>, i: nat)
    requires InRange(q, |items|) && i < |items|
    ensures InRange(q + [i], |items|)
    ensures
      var results := Filtered(items, limit, q);
      Filtered(items, limit, q + [i]) ==
      if Passes(Stored(items, q), items[i]) && |results| < limit then results + [i] else results
  {
    assert (q + [i])[..|q|] == q;
  }

  // ---- Items that do not look alike

  predicate Clash(x: Item, y: Item) {
    x.hash.Some? && y.hash.Some? && Near(x.hash.value, y.hash.value)
  }

  lemma ClashSymmetric(x: Item, y: Item)
    ensures Clash(x, y) <==> Clash(y, x)
  {
    if x.hash.Some? && y.hash.Some? {
      DistanceMetric(x.hash.value, y.hash.value, x.hash.value);
    }
  }

  /** No two of the listed positions look alike. */
  ghost predicate Apart(items: seq<Item>, q: seq<nat>)
    requires InRange(q, |items|)
  {
    forall a, b | 0 <= a < b < |q| :: !Clash(items[q[b]], items[q[a]])
  }

  lemma {:induction false} EntriesMembers(items: seq<Item>, q: seq<nat>, e: Entry)
    requires InRange(q, |items|)
    ensures e in Entries(items, q) <==> e.owner in q && items[e.owner].hash == Some(e.hash)
  {
    if q != [] {
      var front, i := q[..|q| - 1], q[|q| - 1];
      assert q == front + [i];
      EntriesMembers(items, front, e);
    }
  }

  lemma NothingNear(items: seq<Item>, q: seq<nat>, x: Item)
    requires InRange(q, |items|) && x.hash.Some?
    requires forall k | 0 <= k < |q| :: !Clash(x, items[q[k]])
    ensures !HasNear(Entries(items, q), x.hash.value)
  {
    var es := Entries(items, q);
    forall k | 0 <= k < |es|
      ensures !Near(x.hash.value, es[k].hash)
    {
      EntriesMembers(items, q, es[k]);
    }
  }

  lemma {:induction false} ApartAllStored(items: seq<Item>, q: seq<nat>)
    requires InRange(q, |items|) && Apart(items, q)
    ensures Stored(items, q) == Entries(items, q)
  {
    if q != [] {
      var front, i := q[..|q| - 1], q[|q| - 1];
      assert q == front + [i];
      assert Apart(items, front);
      ApartAllStored(items, front);
      StoredSnoc(items, front, i);
      if items[i].hash.Some? {
        NothingNear(items, front, items[i]);
      }
    }
  }

  /** Good items that are apart and fit are all kept, in the given order. */
  lemma {:induction false} ApartAllKept(items: seq<Item>, limit: int, q: seq<nat>)
    requires InRange(q, |items|) && Apart(items, q) && |q| <= Max(0, limit)
    requires forall k | 0 <= k < |q| :: items[q[k]].good
    ensures Filtered(items, limit, q) == q
  {
    if q != [] {
      var front, i := q[..|q| - 1], q[|q| - 1];
      assert q == front + [i];
      assert Apart(items, front);
      ApartAllKept(items, limit, front);
      ApartAllStored(items, front);
      if items[i].hash.Some? {
        NothingNear(items, front, items[i]);
      }
      FilteredSnoc(items, limit, front, i);
    }
  }

  // ---- Longer orders

  lemma SnocAll(q: seq<nat>, more: seq<nat>)
    requires more != []
    ensures q + more == (q + more[..|more| - 1]) + [more[|more| - 1]]
  {
    assert more == more[..|more| - 1] + [more[|more| - 1]];
  }

  lemma {:induction false} StoredGrows(items: seq<Item>, q: seq<nat>, more: seq<nat>)
    requires InRange(q, |items|) && InRange(more, |items|)
    ensures InRange(q + more, |items|)
    ensures Stored(items, q) <= Stored(items, q + more)
  {
    if more == [] {
      assert q + more == q;
    } else {
      var front := more[..|more| - 1];
      SnocAll(q, more);
      StoredGrows(items, q, front);
      StoredSnoc(items, q + front, more[|more| - 1]);
    }
  }

  lemma {:induction false} FilteredGrows(items: seq<Item>, limit: int, q: seq<nat>, more: seq<nat>)
    requires InRange(q, |items|) && InRange(more, |items|)
    ensures InRange(q + more, |items|)
    ensures Filtered(items, limit, q) <= Filtered(items, limit, q + more)
  {
    if more == [] {
      assert q + more == q;
    } else {
      var front := more[..|more| - 1];
      SnocAll(q, more);
      FilteredGrows(items, limit, q, front);
      FilteredSnoc(items, limit, q + front, more[|more| - 1]);
    }
  }

  lemma StillNear(stored: seq<Entry>, more: seq<Entry>, h: Hash)
    requires stored <= more && HasNear(stored, h)
    ensures HasNear(more, h)
  {
    var k :| 0 <= k < |stored| && Near(h, stored[k].hash);
    assert Near(h, more[k].hash);
  }

  /** What cannot be kept after `q` cannot be kept later either. */
  lemma {:induction false} HopelessStay(items: seq<Item>, limit: int, q: seq<nat>, more: seq<nat>)
    requires InRange(q, |items|) && InRange(more, |items|)
    requires |Filtered(items, limit, q)| >= limit || forall k | 0 <= k < |more| :: !Passes(Stored(items, q), items[more[k]])
    ensures InRange(q + more, |items|)
    ensures Filtered(items, limit, q + more) == Filtered(items, limit, q)
  {
    if more == [] {
      assert q + more == q;
    } else {
      var front, x := more[..|more| - 1], items[more[|more| - 1]];
      SnocAll(q, more);
      HopelessStay(items, limit, q, front);
      StoredGrows(items, q, front);
      if x.hash.Some? && HasNear(Stored(items, q), x.hash.value) {
        StillNear(Stored(items, q), Stored(items, q + front), x.hash.value);
      }
      FilteredSnoc(items, limit, q + front, more[|more| - 1]);
    }
  }

  // ---- What the filter keeps, declaratively

  ghost function Owners(es: seq<Entry>): set<nat> {
    set k | 0 <= k < |es| :: es[k].owner
  }

  /** Good positions that are not suppressed when exactly the positions in `stored` have stored their hash. */
  ghost function Survivors(items: seq<Item>, stored: set<nat>): set<nat> {
    set i: nat | i < |items| && items[i].good && (items[i].hash.Some? ==> i in stored)
  }

  ghost function SurvivorsIn(items: seq<Item>, q: seq<nat>): set<nat>
    requires InRange(q, |items|)
  {
    Survivors(items, Owners(Stored(items, q))) * Elements(q)
  }

  lemma StoredOwners(items: seq<Item>, q: seq<nat>)
    requires InRange(q, |items|)
    ensures forall e | e in Stored(items, q) :: e.owner in q && items[e.owner].hash == Some(e.hash)
    ensures Owners(Stored(items, q)) <= Elements(q)
  {
    GreedySpread(Entries(items, q));
    forall e | e in Stored(items, q)
      ensures e.owner in q && items[e.owner].hash == Some(e.hash)
    {
      EntriesMembers(items, q, e);
    }
  }

  lemma OwnersSnoc(es: seq<Entry>, e: Entry)
    ensures Owners(es + [e]) == Owners(es) + {e.owner}
  {
    var more := es + [e];
    assert more[|es|] == e;
    assert forall k | 0 <= k < |es| :: more[k] == es[k];
  }

  lemma SurvivorsStep(items: seq<Item>, stored: set<nat>, stored': set<nat>, seen: set<nat>, i: nat)
    requires i < |items| && i !in seen && stored <= seen
    requires stored' == stored || stored' == stored + {i}
    ensures Survivors(items, stored') * (seen + {i}) ==
            Survivors(items, stored) * seen + if i in Survivors(items, stored') then {i} else {}
  {
  }

  /** Offering the hash of `i` stores it exactly when nothing stored is near. */
  lemma OwnersOffer(items: seq<Item>, q: seq<nat>, i: nat)
    requires InRange(q, |items|) && i < |items| && i !in q
    ensures InRange(q + [i], |items|)
    ensures
      var before, after := Owners(Stored(items, q)), Owners(Stored(items, q + [i]));
      && before <= Elements(q)
      && (after == before || after == before + {i})
      && (items[i].hash.Some? ==> (i in after <==> !HasNear(Stored(items, q), items[i].hash.value)))
  {
    StoredSnoc(items, q, i);
    StoredOwners(items, q);
    if items[i].hash.Some? {
      OwnersSnoc(Stored(items, q), Entry(i, items[i].hash.value));
    }
    assert i !in Elements(q);
  }

  lemma SurvivorsSnoc(items: seq<Item>, q: seq<nat>, i: nat)
    requires InRange(q, |items|) && i < |items| && i !in q
    ensures InRange(q + [i], |items|)
    ensures SurvivorsIn(items, q + [i]) ==
            SurvivorsIn(items, q) + if Passes(Stored(items, q), items[i]) then {i} else {}
  {
    OwnersOffer(items, q, i);
    ElementsSnoc(q, i);
    SurvivorsStep(items, Owners(Stored(items, q)), Owners(Stored(items, q + [i])), Elements(q), i);
  }

  /** The results so far, against the set of survivors so far. */
  ghost predicate Sized(results: seq<nat>, survivors: set<nat>, limit: int) {
    |results| == Min(Max(0, limit), |survivors|) && Elements(results) <= survivors && Distinct(results)
  }

  lemma SizedMore(results: seq<nat>, survivors: set<nat>, limit: int, i: nat)
    requires Sized(results, survivors, limit) && i !in survivors
    ensures Sized(if |results| < limit then results + [i] else results, survivors + {i}, limit)
  {
    ElementsSnoc(results, i);
    forall k | 0 <= k < |results|
      ensures results[k] != i
    {
      assert results[k] in Elements(results);
    }
  }

  lemma {:induction false} FilteredSize(items: seq<Item>, limit: int, q: seq<nat>)
    requires InRange(q, |items|) && Distinct(q)
    ensures Sized(Filtered(items, limit, q), SurvivorsIn(items, q), limit)
  {
    if q == [] {
      assert SurvivorsIn(items, q) == {};
    } else {
      var front, i := q[..|q| - 1], q[|q| - 1];
      assert q == front + [i];
      FilteredSize(items, limit, front);
      SurvivorsSnoc(items, front, i);
      FilteredSnoc(items, limit, front, i);
      assert i !in Elements(front);
      if Passes(Stored(items, front), items[i]) {
        SizedMore(Filtered(items, limit, front), SurvivorsIn(items, front), limit, i);
      } else {
        assert SurvivorsIn(items, q) == SurvivorsIn(items, front);
      }
    }
  }

  /** As many of the survivors as fit, each at most once. */
  ghost predicate Chosen(items: seq<Item>, limit: int, xs: seq<nat>, stored: set<nat>) {
    Sized(xs, Survivors(items, stored), limit)
  }

  lemma OrderChooses(items: seq<Item>, limit: int, q: seq<nat>)
    requires IsOrder(|items|, q)
    ensures Chosen(items, limit, Filtered(items, limit, q), Owners(Stored(items, q)))
  {
    FilteredSize(items, limit, q);
    assert SurvivorsIn(items, q) == Survivors(items, Owners(Stored(items, q)));
  }

  /** No two of the positions look alike. */
  ghost predicate Independent(items: seq<Item>, kept: set<nat>) {
    && (forall k | k in kept :: k < |items| && items[k].hash.Some?)
    && (forall a, b | a in kept && b in kept && a != b :: !Clash(items[a], items[b]))
  }

  /** Independent, and every other position with a hash looks like one of them. */
  ghost predicate Maximal(items: seq<Item>, kept: set<nat>) {
    && Independent(items, kept)
    && forall i: nat | i < |items| && items[i].hash.Some? && i !in kept :: Suppressed(items, kept, i)
  }

  ghost predicate Suppressed(items: seq<Item>, kept: set<nat>, i: nat)
    requires i < |items|
  {
    exists k :: k in kept && k < |items| && Clash(items[i], items[k])
  }

  lemma StoredIsMaximal(items: seq<Item>, q: seq<nat>)
    requires IsOrder(|items|, q)
    ensures Maximal(items, Owners(Stored(items, q)))
  {
    var stored := Stored(items, q);
    GreedySpread(Entries(items, q));
    StoredOwners(items, q);
    forall a, b | a in Owners(stored) && b in Owners(stored) && a != b
      ensures !Clash(items[a], items[b])
    {
      var x :| 0 <= x < |stored| && stored[x].owner == a;
      var y :| 0 <= y < |stored| && stored[y].owner == b;
      assert stored[x] in stored && stored[y] in stored;
      assert !Near(stored[x].hash, stored[y].hash);
    }
    forall i: nat | i < |items| && items[i].hash.Some? && i !in Owners(stored)
      ensures Suppressed(items, Owners(stored), i)
    {
      var e := Entry(i, items[i].hash.value);
      EntriesMembers(items, q, e);
      assert e !in stored;
      var k :| k in stored && Near(e.hash, k.hash);
      assert k.owner in Owners(stored);
    }
  }

  lemma {:induction false} StoredStays(items: seq<Item>, q: seq<nat>, more: seq<nat>)
    requires InRange(q, |items|) && InRange(more, |items|)
    requires forall k | 0 <= k < |more| && items[more[k]].hash.Some? :: HasNear(Stored(items, q), items[more[k]].hash.value)
    ensures InRange(q + more, |items|) && Stored(items, q + more) == Stored(items, q)
  {
    if more == [] {
      assert q + more == q;
    } else {
      SnocAll(q, more);
      StoredStays(items, q, more[..|more| - 1]);
      StoredSnoc(items, q + more[..|more| - 1], more[|more| - 1]);
    }
  }

  lemma IndependentApart(items: seq<Item>, kept: set<nat>, q: seq<nat>)
    requires InRange(q, |items|) && Distinct(q) && Independent(items, kept)
    requires forall k | 0 <= k < |q| && items[q[k]].hash.Some? :: q[k] in kept
    ensures Apart(items, q)
  {
  }

  /** A suppressed position finds a look-alike once all of `kept` is stored. */
  lemma SuppressedIsNear(items: seq<Item>, kept: set<nat>, q: seq<nat>, i: nat)
    requires InRange(q, |items|) && Apart(items, q) && kept <= Elements(q) && Independent(items, kept)
    requires i < |items| && Suppressed(items, kept, i)
    ensures items[i].hash.Some? && HasNear(Stored(items, q), items[i].hash.value)
  {
    var k :| k in kept && k < |items| && Clash(items[i], items[k]);
    ApartAllStored(items, q);
    EntriesMembers(items, q, Entry(k, items[k].hash.value));
  }

  /** The stored positions, over all lock orders, are exactly the maximal independent sets. */
  lemma LockOrdersKeepMaximal(items: seq<Item>, kept: set<nat>)
    ensures Maximal(items, kept) <==> exists q :: IsOrder(|items|, q) && Owners(Stored(items, q)) == kept
  {
    if Maximal(items, kept) {
      var first := Enumerate(kept);
      ListingOf(items, kept, first);
      IndependentApart(items, kept, first);
      var rest := Complete(|items|, first);
      forall k | 0 <= k < |rest| && items[rest[k]].hash.Some?
        ensures HasNear(Stored(items, first), items[rest[k]].hash.value)
      {
        assert rest[k] in rest;
        SuppressedIsNear(items, kept, first, rest[k]);
      }
      StoredStays(items, first, rest);
      StoredExactly(items, kept, first);
    }
    forall q | IsOrder(|items|, q) && Owners(Stored(items, q)) == kept
      ensures Maximal(items, kept)
    {
      StoredIsMaximal(items, q);
    }
  }

  lemma ListingOf(items: seq<Item>, kept: set<nat>, q: seq<nat>)
    requires Independent(items, kept) && Elements(q) == kept
    ensures InRange(q, |items|) && forall k | 0 <= k < |q| :: q[k] in kept
  {
    assert forall k | 0 <= k < |q| :: q[k] in Elements(q);
  }

  lemma StoredExactly(items: seq<Item>, kept: set<nat>, q: seq<nat>)
    requires InRange(q, |items|) && Apart(items, q) && Elements(q) == kept && Independent(items, kept)
    ensures Owners(Stored(items, q)) == kept
  {
    StoredOwners(items, q);
    ApartAllStored(items, q);
    forall k | k in kept
      ensures k in Owners(Stored(items, q))
    {
      var e := Entry(k, items[k].hash.value);
      EntriesMembers(items, q, e);
      var x :| 0 <= x < |Stored(items, q)| && Stored(items, q)[x] == e;
    }
  }

  // ---- Which lists some order keeps

  /** The list may be kept: good positions, no two alike, and it fits. */
  ghost predicate Keepable(items: seq<Item>, limit: int, xs: seq<nat>) {
    && InRange(xs, |items|) && Distinct(xs) && Apart(items, xs) && |xs| <= Max(0, limit)
    && forall k | 0 <= k < |xs| :: items[xs[k]].good
  }

  /** The list is full, or nothing could be added to it once `kept` is stored. */
  ghost predicate Exhaustive(items: seq<Item>, limit: int, xs: seq<nat>, kept: set<nat>) {
    |xs| >= limit ||
    (&& Independent(items, kept)
     && (forall i: nat | i < |items| && items[i].hash.Some? && i in xs :: i in kept)
     && (forall i: nat | i < |items| && items[i].good && i !in xs :: i !in kept && Suppressed(items, kept, i)))
  }

  /** An order that keeps exactly this list. */
  lemma Realise(items: seq<Item>, limit: int, xs: seq<nat>, kept: set<nat>) returns (q: seq<nat>)
    requires Keepable(items, limit, xs) && Exhaustive(items, limit, xs, kept)
    ensures IsOrder(|items|, q) && Filtered(items, limit, q) == xs
  {
    ApartAllKept(items, limit, xs);
    if |xs| >= limit {
      var rest := Complete(|items|, xs);
      HopelessStay(items, limit, xs, rest);
      q := xs + rest;
    } else {
      var blockers := Blockers(items, limit, xs, kept);
      var rest := Complete(|items|, xs + blockers);
      forall k | 0 <= k < |rest|
        ensures !Passes(Stored(items, xs + blockers), items[rest[k]])
      {
        assert rest[k] in rest;
        if items[rest[k]].good {
          SuppressedIsNear(items, kept, xs + blockers, rest[k]);
        }
      }
      HopelessStay(items, limit, xs + blockers, rest);
      q := xs + blockers + rest;
    }
  }

  /** The stored positions that are not results, to be run after them. */
  lemma Blockers(items: seq<Item>, limit: int, xs: seq<nat>, kept: set<nat>) returns (blockers: seq<nat>)
    requires Keepable(items, limit, xs) && Exhaustive(items, limit, xs, kept) && |xs| < limit
    requires Filtered(items, limit, xs) == xs
    ensures InRange(xs + blockers, |items|) && Distinct(xs + blockers) && Apart(items, xs + blockers)
    ensures kept <= Elements(xs + blockers) && Filtered(items, limit, xs + blockers) == xs
  {
    blockers := Enumerate(kept - Elements(xs));
    forall k | 0 <= k < |blockers|
      ensures blockers[k] in kept && blockers[k] !in xs
    {
      assert blockers[k] in Elements(blockers);
    }
    HopelessStay(items, limit, xs, blockers);
    var all := xs + blockers;
    forall k | 0 <= k < |all| && items[all[k]].hash.Some?
      ensures all[k] in kept
    {
      assert k < |xs| ==> all[k] in xs;
    }
    IndependentApart(items, kept, all);
    forall k | k in kept
      ensures k in Elements(all)
    {
      assert k in xs || k in Elements(blockers);
    }
  }

  /** The lists that some order keeps: from a maximal set of stored positions, as many survivors as fit, in any order. */
  lemma KeptExactly(items: seq<Item>, limit: int, xs: seq<nat>)
    ensures (exists q :: IsOrder(|items|, q) && Filtered(items, limit, q) == xs) <==>
            (exists kept :: Maximal(items, kept) && Chosen(items, limit, xs, kept))
  {
    forall q | IsOrder(|items|, q) && Filtered(items, limit, q) == xs
      ensures exists kept :: Maximal(items, kept) && Chosen(items, limit, xs, kept)
    {
      StoredIsMaximal(items, q);
      OrderChooses(items, limit, q);
      assert Chosen(items, limit, xs, Owners(Stored(items, q)));
    }
    forall kept | Maximal(items, kept) && Chosen(items, limit, xs, kept)
      ensures exists q :: IsOrder(|items|, q) && Filtered(items, limit, q) == xs
    {
      ChosenIsKeepable(items, limit, xs, kept);
      var q := Realise(items, limit, xs, kept);
    }
  }

  lemma ChosenIsKeepable(items: seq<Item>, limit: int, xs: seq<nat>, kept: set<nat>)
    requires Maximal(items, kept) && Chosen(items, limit, xs, kept)
    ensures Keepable(items, limit, xs) && Exhaustive(items, limit, xs, kept)
  {
    forall k | 0 <= k < |xs|
      ensures xs[k] in Survivors(items, kept)
    {
      assert xs[k] in Elements(xs);
    }
    IndependentApart(items, kept, xs);
    DistinctCardinality(xs);
    if |xs| < limit {
      SubsetCardinality(Elements(xs), Survivors(items, kept));
      forall i: nat | i < |items| && items[i].good && i !in xs
        ensures i !in kept && Suppressed(items, kept, i)
      {
        assert i !in Elements(xs);
      }
    }
  }

  // ---- Reordering the list instead of listing an order

  function Permuted(items: seq<Item>, q: seq<nat>): seq<Item>
    requires InRange(q, |items|)
  {
    seq(|q|, k requires 0 <= k < |q| => items[q[k]])
  }

  /** What filtering keeps of the list in its own order. */
  function Kept(items: seq<Item>, limit: int): seq<nat> {
    Filtered(items, limit, Upto(|items|))
  }

  ghost predicate SameHashes(a: seq<Entry>, b: seq<Entry>) {
    |a| == |b| && forall k | 0 <= k < |a| :: a[k].hash == b[k].hash
  }

  lemma OfferSameHashes(a: seq<Entry>, b: seq<Entry>, e: Entry, e': Entry)
    requires SameHashes(a, b) && e.hash == e'.hash
    ensures HasNear(a, e.hash) <==> HasNear(b, e.hash)
    ensures SameHashes(Offer(a, e), Offer(b, e'))
  {
    forall k | 0 <= k < |a|
      ensures Near(e.hash, a[k].hash) <==> Near(e.hash, b[k].hash)
    {
    }
  }

  /** Order `q` of `items` and order `r` of `p` agree up to renaming positions by `names`. */
  ghost predicate Agree(items: seq<Item>, p: seq<Item>, limit: int, q: seq<nat>, r: seq<nat>, names: seq<nat>)
    requires InRange(q, |items|) && InRange(r, |p|)
  {
    && InRange(Filtered(p, limit, r), |names|)
    && Filtered(items, limit, q) == Through(names, Filtered(p, limit, r))
    && SameHashes(Stored(items, q), Stored(p, r))
  }

  lemma AgreeMore(items: seq<Item>, p: seq<Item>, limit: int, q: seq<nat>, r: seq<nat>, names: seq<nat>, j: nat)
    requires InRange(q, |items|) && InRange(r, |p|) && Agree(items, p, limit, q, r, names)
    requires j < |p| == |names| && names[j] < |items| && items[names[j]] == p[j]
    ensures InRange(q + [names[j]], |items|) && InRange(r + [j], |p|)
    ensures Agree(items, p, limit, q + [names[j]], r + [j], names)
  {
    var i := names[j];
    StoredSnoc(items, q, i);
    StoredSnoc(p, r, j);
    FilteredSnoc(items, limit, q, i);
    FilteredSnoc(p, limit, r, j);
    if p[j].hash.Some? {
      OfferSameHashes(Stored(items, q), Stored(p, r), Entry(i, p[j].hash.value), Entry(j, p[j].hash.value));
    }
    ThroughSnoc(names, Filtered(p, limit, r), j);
  }

  lemma AgreeAtStart(items: seq<Item>, p: seq<Item>, limit: int, names: seq<nat>)
    ensures Agree(items, p, limit, [], [], names)
  {
  }

  lemma {:induction false} Renamed(items: seq<Item>, p: seq<Item>, limit: int, names: seq<nat>, q: seq<nat>, r: seq<nat>)
    requires InRange(names, |items|) && |p| == |names| && forall k | 0 <= k < |names| :: p[k] == items[names[k]]
    requires InRange(q, |items|) && InRange(r, |p|)
    requires |q| == |r| <= |names| && q == names[..|q|] && r == Upto(|q|)
    ensures Agree(items, p, limit, q, r, names)
  {
    if q == [] {
      AgreeAtStart(items, p, limit, names);
    } else {
      var m := |q| - 1;
      UptoSnoc(m);
      assert q == q[..m] + [names[m]] && q[..m] == names[..m];
      Renamed(items, p, limit, names, q[..m], Upto(m));
      AgreeMore(items, p, limit, q[..m], Upto(m), names, m);
    }
  }

  /** Filtering in order `q` keeps what filtering the reordered list keeps. */
  lemma FilteredIsKept(items: seq<Item>, limit: int, q: seq<nat>)
    requires InRange(q, |items|)
    ensures InRange(Kept(Permuted(items, q), limit), |q|)
    ensures Filtered(items, limit, q) == Through(q, Kept(Permuted(items, q), limit))
  {
    assert q[..|q|] == q;
    Renamed(items, Permuted(items, q), limit, q, q, Upto(|q|));
  }
}
