/** Concurrent gathering from providers, and the stable sort by license that follows it. */
module Gather {
  import opened Domain
  import opened Listings

  datatype Reply = Found(items: seq<Lead>) | Failed

  function Contribution(r: Reply): seq<Lead> {
    if r.Found? then r.items else []
  }

  // ---- Every provider goroutine appends its answer once, under the lock, in completion order

  /** What is gathered when the providers finish in the given order. */
  function Gathered(replies: seq<Reply>, order: seq<nat>): seq<Lead>
    requires InRange(order, |replies|)
  {
    if order == [] then []
    else Gathered(replies, order[..|order| - 1]) + Contribution(replies[order[|order| - 1]])
  }

  /** What the first `n` providers contribute if they are in `done`. */
  ghost function Total(replies: seq<Reply>, done: set<nat>, n: nat): multiset<Lead>
    requires n <= |replies|
  {
    if n == 0 then multiset{}
    else if n - 1 in done then Total(replies, done, n - 1) + multiset(Contribution(replies[n - 1]))
    else Total(replies, done, n - 1)
  }

  lemma {:induction false} TotalAdds(replies: seq<Reply>, done: set<nat>, k: nat, n: nat)
    requires n <= |replies| && k !in done
    ensures Total(replies, done + {k}, n) ==
            Total(replies, done, n) + (if k < n then multiset(Contribution(replies[k])) else multiset{})
  {
    if n > 0 {
      TotalAdds(replies, done, k, n - 1);
      var last := multiset(Contribution(replies[n - 1]));
      if k == n - 1 {
        assert Total(replies, done + {k}, n) == Total(replies, done, n - 1) + last;
      } else if n - 1 in done {
        assert Total(replies, done + {k}, n) == Total(replies, done + {k}, n - 1) + last;
      } else {
        assert Total(replies, done + {k}, n) == Total(replies, done + {k}, n - 1);
      }
    }
  }

  lemma {:induction false} GatheredTotal(replies: seq<Reply>, order: seq<nat>)
    requires InRange(order, |replies|) && Distinct(order)
    ensures multiset(Gathered(replies, order)) == Total(replies, Elements(order), |replies|)
  {
    if order == [] {
      TotalOfNone(replies, |replies|);
      assert Elements(order) == {};
    } else {
      var front, last := order[..|order| - 1], order[|order| - 1];
      GatheredTotal(replies, front);
      assert order == front + [last];
      ElementsSnoc(front, last);
      TotalAdds(replies, Elements(front), last, |replies|);
    }
  }

  lemma {:induction false} TotalOfNone(replies: seq<Reply>, n: nat)
    requires n <= |replies|
    ensures Total(replies, {}, n) == multiset{}
  {
    if n > 0 {
      TotalOfNone(replies, n - 1);
    }
  }

  lemma {:induction false} TotalAgree(replies: seq<Reply>, done: set<nat>, done': set<nat>, n: nat)
    requires n <= |replies|
    requires forall k: nat | k < n :: k in done && k in done'
    ensures Total(replies, done, n) == Total(replies, done', n)
  {
    if n > 0 {
      TotalAgree(replies, done, done', n - 1);
    }
  }

  /** What is gathered, as a multiset, does not depend on which provider finishes first. */
  lemma MultisetIgnoresOrder(replies: seq<Reply>, order: seq<nat>, order': seq<nat>)
    requires IsOrder(|replies|, order) && IsOrder(|replies|, order')
    ensures multiset(Gathered(replies, order)) == multiset(Gathered(replies, order'))
  {
    GatheredTotal(replies, order);
    GatheredTotal(replies, order');
    TotalAgree(replies, Elements(order), Elements(order'), |replies|);
  }

  // ---- Stable sort by license

  /** The candidates of one license class, in order. */
  function Of(cs: seq<Lead>, l: License): seq<Lead> {
    if cs == [] then []
    else if cs[|cs| - 1].candidate.license == l then Of(cs[..|cs| - 1], l) + [cs[|cs| - 1]]
    else Of(cs[..|cs| - 1], l)
  }

  ghost predicate Sorted(cs: seq<Lead>) {
    forall a, b | 0 <= a < b < |cs| :: cs[a].candidate.license.Rank() <= cs[b].candidate.license.Rank()
  }

  /** Sorted by license, and within a class nothing added, lost or reordered. */
  ghost predicate StablySorted(input: seq<Lead>, output: seq<Lead>) {
    Sorted(output) && forall l :: Of(output, l) == Of(input, l)
  }

  /** Safe, then Unknown, then Blocked, each class in input order. */
  function SafeFirst(cs: seq<Lead>): seq<Lead> {
    Of(cs, Safe) + Of(cs, Unknown) + Of(cs, Blocked)
  }

  lemma {:induction false} OfConcat(a: seq<Lead>, b: seq<Lead>, l: License)
    ensures Of(a + b, l) == Of(a, l) + Of(b, l)
  {
    if b == [] {
      assert a + b == a;
    } else {
      var front, last := b[..|b| - 1], b[|b| - 1];
      assert (a + b)[..|a + b| - 1] == a + front;
      OfConcat(a, front, l);
    }
  }

  predicate AllOf(cs: seq<Lead>, l: License) {
    forall k | 0 <= k < |cs| :: cs[k].candidate.license == l
  }

  lemma {:induction false} OfMembers(cs: seq<Lead>, l: License)
    ensures AllOf(Of(cs, l), l)
  {
    if cs != [] {
      OfMembers(cs[..|cs| - 1], l);
    }
  }

  lemma {:induction false} OfAll(cs: seq<Lead>, m: License, l: License)
    requires AllOf(cs, m)
    ensures Of(cs, l) == if l == m then cs else []
  {
    if cs != [] {
      var front, last := cs[..|cs| - 1], cs[|cs| - 1];
      assert cs == front + [last];
      assert AllOf(front, m);
      OfAll(front, m, l);
    }
  }

  lemma {:induction false} OfNone(cs: seq<Lead>, l: License)
    requires forall k | 0 <= k < |cs| :: cs[k].candidate.license != l
    ensures Of(cs, l) == []
  {
    if cs != [] {
      OfNone(cs[..|cs| - 1], l);
    }
  }

  lemma {:induction false} ClassesAddUp(cs: seq<Lead>)
    ensures multiset(Of(cs, Safe)) + multiset(Of(cs, Unknown)) + multiset(Of(cs, Blocked)) == multiset(cs)
  {
    if cs != [] {
      var front, last := cs[..|cs| - 1], cs[|cs| - 1];
      assert cs == front + [last];
      ClassesAddUp(front);
      AddUpStep(Of(front, Safe), Of(front, Unknown), Of(front, Blocked), front, last);
    }
  }

  lemma AddUpStep(s: seq<Lead>, u: seq<Lead>, b: seq<Lead>, front: seq<Lead>, last: Lead)
    requires multiset(s) + multiset(u) + multiset(b) == multiset(front)
    ensures multiset(s + [last]) + multiset(u) + multiset(b) == multiset(front + [last])
    ensures multiset(s) + multiset(u + [last]) + multiset(b) == multiset(front + [last])
    ensures multiset(s) + multiset(u) + multiset(b + [last]) == multiset(front + [last])
  {
  }

  lemma OfIsMultiset(cs: seq<Lead>)
    ensures multiset(SafeFirst(cs)) == multiset(cs)
  {
    ClassesAddUp(cs);
    assert multiset(Of(cs, Safe) + Of(cs, Unknown)) == multiset(Of(cs, Safe)) + multiset(Of(cs, Unknown));
  }

  lemma ClassesOfParts(s: seq<Lead>, u: seq<Lead>, b: seq<Lead>, l: License)
    requires AllOf(s, Safe) && AllOf(u, Unknown) && AllOf(b, Blocked)
    ensures Of(s + u + b, l) == (match l case Safe => s case Unknown => u case Blocked => b)
  {
    OfConcat(s + u, b, l);
    OfConcat(s, u, l);
    OfAll(s, Safe, l);
    OfAll(u, Unknown, l);
    OfAll(b, Blocked, l);
    assert Of(s + u + b, l) == Of(s, l) + Of(u, l) + Of(b, l);
  }

  lemma SafeFirstClasses(cs: seq<Lead>, l: License)
    ensures Of(SafeFirst(cs), l) == Of(cs, l)
  {
    OfMembers(cs, Safe);
    OfMembers(cs, Unknown);
    OfMembers(cs, Blocked);
    ClassesOfParts(Of(cs, Safe), Of(cs, Unknown), Of(cs, Blocked), l);
  }

  lemma ClassesInOrder(s: seq<Lead>, u: seq<Lead>, b: seq<Lead>)
    requires AllOf(s, Safe) && AllOf(u, Unknown) && AllOf(b, Blocked)
    ensures Sorted(s + u + b)
  {
  }

  lemma SafeFirstIsStable(cs: seq<Lead>)
    ensures StablySorted(cs, SafeFirst(cs))
  {
    OfMembers(cs, Safe);
    OfMembers(cs, Unknown);
    OfMembers(cs, Blocked);
    ClassesInOrder(Of(cs, Safe), Of(cs, Unknown), Of(cs, Blocked));
    forall l
      ensures Of(SafeFirst(cs), l) == Of(cs, l)
    {
      SafeFirstClasses(cs, l);
    }
  }

  lemma NoneAbove(cs: seq<Lead>, l: License)
    requires cs != [] && Sorted(cs) && cs[|cs| - 1].candidate.license.Rank() < l.Rank()
    ensures Of(cs[..|cs| - 1], l) == []
  {
    forall k | 0 <= k < |cs| - 1
      ensures cs[k].candidate.license != l
    {
      assert cs[k].candidate.license.Rank() <= cs[|cs| - 1].candidate.license.Rank();
    }
    OfNone(cs[..|cs| - 1], l);
  }

  lemma SortedFront(cs: seq<Lead>)
    requires cs != [] && Sorted(cs)
    ensures Sorted(cs[..|cs| - 1])
    ensures cs[|cs| - 1].candidate.license.Safe? ==> Of(cs[..|cs| - 1], Unknown) == []
    ensures !cs[|cs| - 1].candidate.license.Blocked? ==> Of(cs[..|cs| - 1], Blocked) == []
  {
    if cs[|cs| - 1].candidate.license.Safe? {
      NoneAbove(cs, Unknown);
    }
    if !cs[|cs| - 1].candidate.license.Blocked? {
      NoneAbove(cs, Blocked);
    }
  }

  lemma SafeFirstSnoc(front: seq<Lead>, last: Lead)
    ensures
      var s, u, b := Of(front, Safe), Of(front, Unknown), Of(front, Blocked);
      SafeFirst(front + [last]) ==
      (match last.candidate.license
       case Safe => s + [last] + u + b
       case Unknown => s + (u + [last]) + b
       case Blocked => s + u + (b + [last]))
  {
    assert (front + [last])[..|front|] == front;
  }

  lemma {:induction false} SortedIsSafeFirst(cs: seq<Lead>)
    requires Sorted(cs)
    ensures cs == SafeFirst(cs)
  {
    if cs != [] {
      var front, last := cs[..|cs| - 1], cs[|cs| - 1];
      SortedFront(cs);
      SortedIsSafeFirst(front);
      assert cs == front + [last];
      SafeFirstAppend(front, last);
    }
  }

  lemma SafeFirstAppend(front: seq<Lead>, last: Lead)
    requires front == SafeFirst(front)
    requires last.candidate.license.Safe? ==> Of(front, Unknown) == []
    requires !last.candidate.license.Blocked? ==> Of(front, Blocked) == []
    ensures front + [last] == SafeFirst(front + [last])
  {
    SafeFirstSnoc(front, last);
    AppendLast(Of(front, Safe), Of(front, Unknown), Of(front, Blocked), last);
  }

  lemma AppendLast(s: seq<Lead>, u: seq<Lead>, b: seq<Lead>, last: Lead)
    requires last.candidate.license.Safe? ==> u == [] && b == []
    requires last.candidate.license.Unknown? ==> b == []
    ensures s + u + b + [last] ==
            (match last.candidate.license
             case Safe => s + [last] + u + b
             case Unknown => s + (u + [last]) + b
             case Blocked => s + u + (b + [last]))
  {
  }

  /** There is exactly one stable sort: the three classes in order. */
  lemma StableSortIsUnique(input: seq<Lead>, output: seq<Lead>)
    ensures StablySorted(input, output) <==> output == SafeFirst(input)
  {
    if StablySorted(input, output) {
      SortedIsSafeFirst(output);
    }
    SafeFirstIsStable(input);
  }

  lemma OfSwap(front: seq<Lead>, x: Lead, y: Lead, back: seq<Lead>, l: License)
    requires x.candidate.license != y.candidate.license
    ensures Of(front + [x, y] + back, l) == Of(front + [y, x] + back, l)
  {
    OfConcat(front + [x, y], back, l);
    OfConcat(front + [y, x], back, l);
    OfConcat(front, [x, y], l);
    OfConcat(front, [y, x], l);
    assert [x, y][..1] == [x] && [y, x][..1] == [y] && [x][..0] == [] && [y][..0] == [];
    assert Of([], l) == [];
    assert Of([x], l) == Of([], l) + if x.candidate.license == l then [x] else [];
    assert Of([y], l) == Of([], l) + if y.candidate.license == l then [y] else [];
  }

  lemma SwapKeepsClasses(before: seq<Lead>, after: seq<Lead>, j: nat)
    requires 0 < j < |before| && after == before[j - 1 := before[j]][j := before[j - 1]]
    requires before[j].candidate.license != before[j - 1].candidate.license
    ensures forall l :: Of(after, l) == Of(before, l)
  {
    var front, back := before[..j - 1], before[j + 1..];
    assert before == front + [before[j - 1], before[j]] + back;
    assert after == front + [before[j], before[j - 1]] + back;
    forall l
      ensures Of(after, l) == Of(before, l)
    {
      OfSwap(front, before[j - 1], before[j], back, l);
    }
  }

  /** The in-place stable sort: each candidate sinks past neighbours of a strictly larger license rank. */
  method SortByLicense(a: array<Lead>)
    modifies a
    ensures a[..] == SafeFirst(old(a[..]))
  {
    var i := 0;
    while i < a.Length
      invariant 0 <= i <= a.Length
      invariant Sorted(a[..i])
      invariant forall l :: Of(a[..], l) == Of(old(a[..]), l)
    {
      Sink(a, i);
      i := i + 1;
    }
    assert a[..a.Length] == a[..];
    StableSortIsUnique(old(a[..]), a[..]);
  }

  /** Candidate `i` joins the sorted part before it. */
  method Sink(a: array<Lead>, i: nat)
    requires i < a.Length && Sorted(a[..i])
    modifies a
    ensures Sorted(a[..i + 1])
    ensures forall l :: Of(a[..], l) == Of(old(a[..]), l)
  {
    var j := i;
    assert forall p, q | 0 <= p < q < i :: a[..i][p] == a[p] && a[..i][q] == a[q];
    while j > 0 && a[j].candidate.license.Rank() < a[j - 1].candidate.license.Rank()
      invariant 0 <= j <= i < a.Length
      invariant forall p, q | 0 <= p < q <= i && q != j :: a[p].candidate.license.Rank() <= a[q].candidate.license.Rank()
      invariant forall l :: Of(a[..], l) == Of(old(a[..]), l)
    {
      ghost var before := a[..];
      a[j], a[j - 1] := a[j - 1], a[j];
      SwapKeepsClasses(before, a[..], j);
      j := j - 1;
    }
  }

  /** In the sorted list nothing stands before a Safe candidate but Safe ones, and no Blocked one before an Unknown one. */
  lemma SafeComesFirst(cs: seq<Lead>, a: nat, b: nat)
    requires a < b < |SafeFirst(cs)|
    ensures SafeFirst(cs)[b].candidate.license == Safe ==> SafeFirst(cs)[a].candidate.license == Safe
    ensures SafeFirst(cs)[b].candidate.license == Unknown ==> SafeFirst(cs)[a].candidate.license != Blocked
  {
    OfMembers(cs, Safe);
    OfMembers(cs, Unknown);
    OfMembers(cs, Blocked);
  }

  // ---- Gathering and sorting together

  function OnlyClass(replies: seq<Reply>, l: License): seq<Reply> {
    seq(|replies|, k requires 0 <= k < |replies| => Found(Of(Contribution(replies[k]), l)))
  }

  /**
   * Within a license class the sorted list is the providers' own lists one after another, in
   * completion order and each in its own order.
   */
  lemma {:induction false} ProvidersKeepTheirOrder(replies: seq<Reply>, order: seq<nat>, l: License)
    requires InRange(order, |replies|)
    ensures Of(Gathered(replies, order), l) == Gathered(OnlyClass(replies, l), order)
  {
    if order != [] {
      var front, last := order[..|order| - 1], order[|order| - 1];
      ProvidersKeepTheirOrder(replies, front, l);
      OfConcat(Gathered(replies, front), Contribution(replies[last]), l);
    }
  }
}
