/** Lists of positions: distinct entries, orders of all positions below a bound. */
module Listings {

  ghost predicate Distinct(xs: seq<nat>) {
    forall a, b | 0 <= a < b < |xs| :: xs[a] != xs[b]
  }

  ghost function Elements(xs: seq<nat>): set<nat> {
    set x | x in xs
  }

  predicate InRange(q: seq<nat>, n: nat) {
    forall k | 0 <= k < |q| :: q[k] < n
  }

  /** Every position once. */
  ghost predicate IsOrder(n: nat, q: seq<nat>) {
    InRange(q, n) && Distinct(q) && forall i: nat | i < n :: i in q
  }

  lemma ElementsSnoc(q: seq<nat>, i: nat)
    ensures Elements(q + [i]) == Elements(q) + {i}
  {
  }

  lemma {:induction false} DistinctCardinality(xs: seq<nat>)
    requires Distinct(xs)
    ensures |Elements(xs)| == |xs|
  {
    if xs == [] {
      assert Elements(xs) == {};
    } else {
      var front, last := xs[..|xs| - 1], xs[|xs| - 1];
      DistinctCardinality(front);
      assert xs == front + [last];
      ElementsSnoc(front, last);
    }
  }

  lemma SubsetCardinality(a: set<nat>, b: set<nat>)
    requires a <= b
    ensures |a| <= |b| && (|a| == |b| ==> a == b)
  {
    assert b == a + (b - a);
  }

  lemma {:induction false} Enumerate(xs: set<nat>) returns (q: seq<nat>)
    ensures Distinct(q) && Elements(q) == xs
  {
    if xs == {} {
      q := [];
    } else {
      var x :| x in xs;
      var front := Enumerate(xs - {x});
      q := front + [x];
      assert x !in Elements(front);
      assert Elements(q) == Elements(front) + {x};
    }
  }

  /** Any listing is the beginning of an order of all positions. */
  lemma Complete(n: nat, q: seq<nat>) returns (rest: seq<nat>)
    requires InRange(q, n) && Distinct(q)
    ensures IsOrder(n, q + rest) && InRange(rest, n) && forall r | r in rest :: r !in q
  {
    var missing := set i: nat | i < n && i !in q;
    rest := Enumerate(missing);
    forall k | 0 <= k < |rest|
      ensures rest[k] < n && rest[k] !in q
    {
      assert rest[k] in Elements(rest);
    }
    forall i: nat | i < n
      ensures i in q + rest
    {
      assert i in q || i in Elements(rest);
    }
  }

  function Upto(n: nat): (q: seq<nat>)
    ensures InRange(q, n)
  {
    seq(n, k => k)
  }

  lemma UptoSnoc(n: nat)
    ensures Upto(n + 1) == Upto(n) + [n]
  {
  }

  lemma UptoIsOrder(n: nat)
    ensures IsOrder(n, Upto(n))
  {
    forall i: nat | i < n
      ensures i in Upto(n)
    {
      assert Upto(n)[i] == i;
    }
  }

  /** The entries of `q` at the listed indices. */
  function Through(q: seq<nat>, xs: seq<nat>): seq<nat>
    requires InRange(xs, |q|)
  {
    seq(|xs|, k requires 0 <= k < |xs| => q[xs[k]])
  }

  lemma ThroughSnoc(q: seq<nat>, xs: seq<nat>, x: nat)
    requires InRange(xs, |q|) && x < |q|
    ensures InRange(xs + [x], |q|) && Through(q, xs + [x]) == Through(q, xs) + [q[x]]
  {
  }
}
