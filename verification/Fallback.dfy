/** Fallback providers, arbitrarily nested: first non-empty answer wins, later providers are not called. */
module Fallback {
  import opened Domain

  /** What a leaf provider answers when called. */
  datatype Reply = Found(items: seq<Candidate>) | Failed(code: int)

  datatype Error = ProviderError(code: int) | AllProvidersFailed

  datatype Outcome = Results(items: seq<Candidate>) | Failure(error: Error)

  datatype Provider = Leaf(id: nat) | Group(children: seq<Provider>)

  /** Outcome and leaf calls of one search. */
  datatype Trace = Trace(outcome: Outcome, calls: seq<nat>)

  function SearchOne(reply: nat -> Reply, p: Provider): Trace
    decreases p, 0
  {
    match p
    case Leaf(id) =>
      (match reply(id)
       case Found(items) => Trace(Results(items), [id])
       case Failed(code) => Trace(Failure(ProviderError(code)), [id]))
    case Group(children) => SearchFrom(reply, children, None)
  }

  function SearchFrom(reply: nat -> Reply, ps: seq<Provider>, lastErr: Option<Error>): Trace
    decreases ps, 1
  {
    if ps == [] then Trace(Failure(if lastErr.Some? then lastErr.value else AllProvidersFailed), [])
    else
      var first := SearchOne(reply, ps[0]);
      match first.outcome
      case Failure(e) =>
        var rest := SearchFrom(reply, ps[1..], Some(e));
        rest.(calls := first.calls + rest.calls)
      case Results(items) =>
        if items != [] then first
        else
          var rest := SearchFrom(reply, ps[1..], lastErr);
          rest.(calls := first.calls + rest.calls)
  }

  /** The provider objects, with the log of leaf calls they make. */
  class Session {
    const reply: nat -> Reply
    var calls: seq<nat>

    constructor (reply: nat -> Reply)
      ensures this.reply == reply && calls == []
    {
      this.reply := reply;
      calls := [];
    }

    method Search(p: Provider) returns (outcome: Outcome)
      modifies this
      ensures outcome == SearchOne(reply, p).outcome
      ensures calls == old(calls) + SearchOne(reply, p).calls
      decreases p
    {
      match p
      case Leaf(id) =>
        calls := calls + [id];
        match reply(id) {
          case Found(items) => outcome := Results(items);
          case Failed(code) => outcome := Failure(ProviderError(code));
        }
      case Group(children) =>
        var lastErr: Option<Error> := None;
        var k := 0;
        ghost var whole := SearchFrom(reply, children, None);
        assert children[0..] == children;
        while k < |children|
          invariant 0 <= k <= |children|
          invariant whole.outcome == SearchFrom(reply, children[k..], lastErr).outcome
          invariant old(calls) + whole.calls == calls + SearchFrom(reply, children[k..], lastErr).calls
        {
          assert children[k..][1..] == children[k + 1..];
          outcome := Search(children[k]);
          k := k + 1;
          match outcome {
            case Failure(e) => lastErr := Some(e);
            case Results(items) =>
              if items != [] {
                return;
              }
          }
        }
        outcome := Failure(if lastErr.Some? then lastErr.value else AllProvidersFailed);
    }
  }

  // ---- Flattening

  function Leaves(p: Provider): seq<nat>
    decreases p, 0
  {
    match p
    case Leaf(id) => [id]
    case Group(children) => AllLeaves(children)
  }

  function AllLeaves(ps: seq<Provider>): seq<nat>
    decreases ps, 1
  {
    if ps == [] then [] else Leaves(ps[0]) + AllLeaves(ps[1..])
  }

  function Flat(ids: seq<nat>): seq<Provider> {
    seq(|ids|, k requires 0 <= k < |ids| => Leaf(ids[k]))
  }

  lemma {:induction false} FlatLeaves(ids: seq<nat>)
    ensures AllLeaves(Flat(ids)) == ids
  {
    if ids != [] {
      FlatLeaves(ids[1..]);
      assert Flat(ids)[1..] == Flat(ids[1..]);
    }
  }

  predicate Wins(reply: nat -> Reply, id: nat) {
    reply(id).Found? && reply(id).items != []
  }

  /** The first leaf with a non-empty answer. */
  function Winner(reply: nat -> Reply, ids: seq<nat>): Option<nat> {
    if ids == [] then None else if Wins(reply, ids[0]) then Some(ids[0]) else Winner(reply, ids[1..])
  }

  /** The leaves up to and including the winner; all of them without one. */
  function Called(reply: nat -> Reply, ids: seq<nat>): seq<nat> {
    if ids == [] then [] else [ids[0]] + if Wins(reply, ids[0]) then [] else Called(reply, ids[1..])
  }

  lemma {:induction false} ConcatWinner(reply: nat -> Reply, a: seq<nat>, b: seq<nat>)
    ensures Winner(reply, a + b) == if Winner(reply, a).Some? then Winner(reply, a) else Winner(reply, b)
    ensures Called(reply, a + b) == if Winner(reply, a).Some? then Called(reply, a) else Called(reply, a) + Called(reply, b)
  {
    if a == [] {
      assert a + b == b;
    } else {
      assert (a + b)[1..] == a[1..] + b;
      ConcatWinner(reply, a[1..], b);
      if !Wins(reply, a[0]) {
        var rest := Called(reply, a[1..]);
        assert [a[0]] + (rest + Called(reply, b)) == [a[0]] + rest + Called(reply, b);
      }
    }
  }

  /** Calls stop at the winner: what was called is a prefix of the leaves, and only its last element can win. */
  lemma {:induction false} CalledIsPrefix(reply: nat -> Reply, ids: seq<nat>)
    ensures Called(reply, ids) <= ids
    ensures forall k | 0 <= k < |Called(reply, ids)| - 1 :: !Wins(reply, Called(reply, ids)[k])
    ensures Winner(reply, ids).None? ==> Called(reply, ids) == ids
    ensures Winner(reply, ids).Some? ==> Called(reply, ids) != [] && Wins(reply, Winner(reply, ids).value) &&
                                         Called(reply, ids)[|Called(reply, ids)| - 1] == Winner(reply, ids).value
  {
    if ids != [] && !Wins(reply, ids[0]) {
      CalledIsPrefix(reply, ids[1..]);
      assert ids == [ids[0]] + ids[1..];
    }
  }

  /** `t` is a search over leaves `ids`: exactly those calls, the winner's items, or a failure. */
  ghost predicate Explains(reply: nat -> Reply, ids: seq<nat>, t: Trace) {
    && t.calls == Called(reply, ids)
    && (match Winner(reply, ids)
        case Some(id) => Wins(reply, id) && t.outcome == Results(reply(id).items)
        case None => t.outcome.Failure? || t.outcome == Results([]))
  }

  lemma {:induction false} OneIsExplained(reply: nat -> Reply, p: Provider)
    ensures Explains(reply, Leaves(p), SearchOne(reply, p))
    ensures p.Group? ==> SearchOne(reply, p).outcome != Results([])
    decreases p, 0
  {
    match p
    case Leaf(id) =>
      assert [id][1..] == [];
    case Group(children) =>
      FromIsExplained(reply, children, None);
  }

  lemma {:induction false} FromIsExplained(reply: nat -> Reply, ps: seq<Provider>, lastErr: Option<Error>)
    ensures Explains(reply, AllLeaves(ps), SearchFrom(reply, ps, lastErr))
    ensures SearchFrom(reply, ps, lastErr).outcome != Results([])
    decreases ps, 1
  {
    if ps != [] {
      OneIsExplained(reply, ps[0]);
      ConcatWinner(reply, Leaves(ps[0]), AllLeaves(ps[1..]));
      match SearchOne(reply, ps[0]).outcome
      case Failure(e) => FromIsExplained(reply, ps[1..], Some(e));
      case Results(items) => FromIsExplained(reply, ps[1..], lastErr);
    }
  }

  /** Nesting changes neither the results nor the success nor the exact sequence of leaf calls. */
  lemma NestingIsFlat(reply: nat -> Reply, children: seq<Provider>)
    ensures
      var nested, flat := SearchOne(reply, Group(children)), SearchOne(reply, Group(Flat(AllLeaves(children))));
      && nested.calls == flat.calls == Called(reply, AllLeaves(children))
      && (nested.outcome.Results? <==> flat.outcome.Results?)
      && (nested.outcome.Results? ==> nested.outcome == flat.outcome && nested.outcome.items != [])
  {
    OneIsExplained(reply, Group(children));
    OneIsExplained(reply, Group(Flat(AllLeaves(children))));
    FlatLeaves(AllLeaves(children));
    CalledIsPrefix(reply, AllLeaves(children));
  }

  // ---- Error identity, which nesting does not always preserve

  /** Some leaf fails, as opposed to answering with nothing. */
  predicate AnyFails(reply: nat -> Reply, ids: seq<nat>) {
    exists k | 0 <= k < |ids| :: reply(ids[k]).Failed?
  }

  /** The error the last failing leaf reports. */
  function FlatError(reply: nat -> Reply, ids: seq<nat>): Option<Error> {
    if ids == [] then None
    else
      var rest := FlatError(reply, ids[1..]);
      if rest.Some? then rest
      else if reply(ids[0]).Failed? then Some(ProviderError(reply(ids[0]).code))
      else None
  }

  /** The error left in `lastErr` after trying all of `ps` without success. */
  function NestedError(reply: nat -> Reply, ps: seq<Provider>): Option<Error>
    decreases ps, 1
  {
    if ps == [] then None
    else
      var rest := NestedError(reply, ps[1..]);
      if rest.Some? then rest else OwnError(reply, ps[0])
  }

  function OwnError(reply: nat -> Reply, p: Provider): Option<Error>
    decreases p, 0
  {
    match p
    case Leaf(id) => if reply(id).Failed? then Some(ProviderError(reply(id).code)) else None
    case Group(children) =>
      var inner := NestedError(reply, children);
      Some(if inner.Some? then inner.value else AllProvidersFailed)
  }

  /** An all-empty nested group comes after the last failing leaf and reports in its place. */
  predicate Masked(reply: nat -> Reply, ps: seq<Provider>)
    decreases ps
  {
    if ps == [] then false
    else if NestedError(reply, ps[1..]).None? then ps[0].Group? && Masked(reply, ps[0].children)
    else if AnyFails(reply, AllLeaves(ps[1..])) then Masked(reply, ps[1..])
    else AnyFails(reply, Leaves(ps[0]))
  }

  lemma {:induction false} ErrorOfFrom(reply: nat -> Reply, ps: seq<Provider>, lastErr: Option<Error>)
    requires Winner(reply, AllLeaves(ps)).None?
    ensures
      var e := NestedError(reply, ps);
      SearchFrom(reply, ps, lastErr).outcome ==
        Failure(if e.Some? then e.value else if lastErr.Some? then lastErr.value else AllProvidersFailed)
    decreases ps, 1
  {
    if ps != [] {
      ConcatWinner(reply, Leaves(ps[0]), AllLeaves(ps[1..]));
      ErrorOfOne(reply, ps[0]);
      match SearchOne(reply, ps[0]).outcome
      case Failure(e) => ErrorOfFrom(reply, ps[1..], Some(e));
      case Results(items) => ErrorOfFrom(reply, ps[1..], lastErr);
    }
  }

  lemma {:induction false} ErrorOfOne(reply: nat -> Reply, p: Provider)
    requires Winner(reply, Leaves(p)).None?
    ensures
      var e := OwnError(reply, p);
      SearchOne(reply, p).outcome == if e.Some? then Failure(e.value) else Results([])
    decreases p, 0
  {
    match p
    case Leaf(id) =>
    case Group(children) => ErrorOfFrom(reply, children, None);
  }

  lemma {:induction false} FlatErrorConcat(reply: nat -> Reply, a: seq<nat>, b: seq<nat>)
    ensures FlatError(reply, a + b) == if FlatError(reply, b).Some? then FlatError(reply, b) else FlatError(reply, a)
  {
    if a == [] {
      assert a + b == b;
    } else {
      assert (a + b)[1..] == a[1..] + b;
      FlatErrorConcat(reply, a[1..], b);
    }
  }

  lemma {:induction false} FlatErrorExists(reply: nat -> Reply, ids: seq<nat>)
    ensures FlatError(reply, ids).Some? <==> AnyFails(reply, ids)
    ensures FlatError(reply, ids).Some? ==> FlatError(reply, ids).value != AllProvidersFailed
  {
    if ids != [] {
      FlatErrorExists(reply, ids[1..]);
      if AnyFails(reply, ids[1..]) {
        var k :| 0 <= k < |ids[1..]| && reply(ids[1..][k]).Failed?;
        assert ids[k + 1] == ids[1..][k];
      }
      if AnyFails(reply, ids) && !reply(ids[0]).Failed? {
        var k :| 0 <= k < |ids| && reply(ids[k]).Failed?;
        assert ids[1..][k - 1] == ids[k];
      }
    }
  }

  function OrAllFailed(e: Option<Error>): Error {
    if e.Some? then e.value else AllProvidersFailed
  }

  /** A silent tail says nothing in the flattened form either; a speaking tail without failing leaf says AllProvidersFailed. */
  lemma {:induction false} TailError(reply: nat -> Reply, ps: seq<Provider>)
    ensures NestedError(reply, ps).None? ==> !AnyFails(reply, AllLeaves(ps))
    ensures !AnyFails(reply, AllLeaves(ps)) ==> OrAllFailed(NestedError(reply, ps)) == AllProvidersFailed
    decreases ps, 1
  {
    if ps != [] {
      TailError(reply, ps[1..]);
      TailErrorOne(reply, ps[0]);
      FlatErrorConcat(reply, Leaves(ps[0]), AllLeaves(ps[1..]));
      FlatErrorExists(reply, AllLeaves(ps));
      FlatErrorExists(reply, Leaves(ps[0]));
      FlatErrorExists(reply, AllLeaves(ps[1..]));
    }
  }

  lemma {:induction false} TailErrorOne(reply: nat -> Reply, p: Provider)
    ensures OwnError(reply, p).None? ==> !AnyFails(reply, Leaves(p))
    ensures !AnyFails(reply, Leaves(p)) ==> OrAllFailed(OwnError(reply, p)) == AllProvidersFailed
    decreases p, 0
  {
    match p
    case Leaf(id) =>
      assert Leaves(p)[0] == id;
    case Group(children) => TailError(reply, children);
  }

  lemma {:induction false} MaskedExactly(reply: nat -> Reply, ps: seq<Provider>)
    ensures OrAllFailed(NestedError(reply, ps)) == OrAllFailed(FlatError(reply, AllLeaves(ps))) <==> !Masked(reply, ps)
    decreases ps
  {
    if ps != [] {
      var head, rest := Leaves(ps[0]), AllLeaves(ps[1..]);
      FlatErrorConcat(reply, head, rest);
      FlatErrorExists(reply, head);
      FlatErrorExists(reply, rest);
      TailError(reply, ps[1..]);
      if NestedError(reply, ps[1..]).None? {
        match ps[0]
        case Leaf(id) =>
          assert [id][1..] == [];
        case Group(children) => MaskedExactly(reply, children);
      } else {
        MaskedExactly(reply, ps[1..]);
      }
    }
  }

  /** When every leaf fails or is empty, nesting preserves the reported error exactly when no group masks a failure. */
  lemma ErrorIdentity(reply: nat -> Reply, children: seq<Provider>)
    requires Winner(reply, AllLeaves(children)).None?
    ensures SearchOne(reply, Group(children)).outcome == SearchOne(reply, Group(Flat(AllLeaves(children)))).outcome
            <==> !Masked(reply, children)
  {
    var ids := AllLeaves(children);
    FlatLeaves(ids);
    ErrorOfFrom(reply, children, None);
    ErrorOfFrom(reply, Flat(ids), None);
    FlatNestedError(reply, ids);
    MaskedExactly(reply, children);
  }

  lemma {:induction false} FlatNestedError(reply: nat -> Reply, ids: seq<nat>)
    ensures NestedError(reply, Flat(ids)) == FlatError(reply, ids)
  {
    if ids != [] {
      FlatNestedError(reply, ids[1..]);
      assert Flat(ids)[1..] == Flat(ids[1..]);
    }
  }

  /** A failing provider followed by a nested group that finds nothing: the failure is no longer reported. */
  lemma MaskingExample(reply: nat -> Reply)
    requires reply(0) == Failed(7) && reply(1) == Found([])
    ensures SearchOne(reply, Group([Leaf(0), Group([Leaf(1)])])).outcome == Failure(AllProvidersFailed)
    ensures SearchOne(reply, Group([Leaf(0), Leaf(1)])).outcome == Failure(ProviderError(7))
  {
  }
}
