/**
 * The concurrent pipeline refines a sequential one: what some interleaving returns is exactly what
 * filtering one candidate after the other returns in some order. So the possible results, and how
 * many there are, are properties of the inputs alone.
 */
module PipelineSequential {
  import opened Domain
  import opened Listings
  import opened Dedup
  import opened Sieve
  import opened Pipeline
  import opened PipelineInvariant
  import opened PipelineTheorems

  function ItemOf(f: Facts): Item {
    Item(if Offers(f) then f.hash else None, Acceptable(f))
  }

  /** What the sequential reference needs to know of the input. */
  function Items(job: Job): seq<Item> {
    seq(|job.facts|, i requires 0 <= i < |job.facts| => ItemOf(job.facts[i]))
  }

  // ---- Building a run: spawn everything, then run the workers one after the other

  /** The state after spawning `k` workers and running none. */
  function Launched(job: Job, k: nat): State {
    State(Checking, k, seq(|job.facts|, i => if i < k then Waiting else Unspawned), 0, [], [], [], [])
  }

  lemma {:induction false} Launch(job: Job, k: nat) returns (schedule: seq<Action>)
    requires k <= |job.facts| && job.maxResults > 0
    ensures IsRun(job, schedule) && Exec(job, schedule) == Launched(job, k)
  {
    if k == 0 {
      schedule := [];
      assert Init(job).phases == Launched(job, 0).phases;
    } else {
      var shorter := Launch(job, k - 1);
      RunSnoc(job, shorter, Spawn);
      RunSnoc(job, shorter + [Spawn], Spawn);
      schedule := shorter + [Spawn] + [Spawn];
      assert Launched(job, k).phases == Launched(job, k - 1).phases[k - 1 := Waiting];
    }
  }

  function Own(f: Facts, i: nat, p: Phase): seq<Entry> {
    if Arrived(p) && Offers(f) then [Entry(i, f.hash.value)] else []
  }

  /** `s` is `s0`, in which the worker of `i` waits, after some steps of that worker alone. */
  ghost predicate Alone(job: Job, s0: State, s: State, i: nat)
    requires i < |job.facts|
  {
    && |s.phases| == |s0.phases| == |job.facts|
    && s.spawner == s0.spawner && s.next == s0.next
    && s.phases == s0.phases[i := s.phases[i]] && !s.phases[i].Unspawned?
    && s.tokens == s0.tokens + (if Holds(s.phases[i]) then 1 else 0)
    && s.validated == s0.validated + (if Ended(s.phases[i], Accepted) then [i] else [])
    && s.arrivals == s0.arrivals + Own(job.facts[i], i, s.phases[i])
  }

  lemma AloneStep(job: Job, s0: State, s: State, i: nat)
    requires i < |job.facts| && Alone(job, s0, s, i) && !s.phases[i].Finished?
    requires PhaseOk(job.facts[i], s.phases[i]) && s0.tokens < VALIDATION_SEMAPHORE
    ensures Enabled(job, s, Work(i, false))
    ensures Alone(job, s0, Next(job, s, Work(i, false)), i)
    ensures Weight(Next(job, s, Work(i, false)).phases[i]) < Weight(s.phases[i])
  {
    WorkFrame(job, s, i, false);
    WorkMoves(job, s, i, false);
    WorkTokens(job, s, i, false);
    WorkResults(job, s, i, false);
    WorkCompared(job, s, i, false);
    MovesLighter(job.facts[i], s.phases[i], WorkStep(job, s, i, false).phases[i]);
  }

  /** A worker that runs alone finishes. */
  lemma {:induction false} Solo(job: Job, schedule: seq<Action>, s0: State, i: nat) returns (longer: seq<Action>)
    requires IsRun(job, schedule) && s0.tokens < VALIDATION_SEMAPHORE
    requires i < |job.facts| && Alone(job, s0, Exec(job, schedule), i)
    ensures IsRun(job, longer) && Alone(job, s0, Exec(job, longer), i) && Exec(job, longer).phases[i].Finished?
    decreases Weight(Exec(job, schedule).phases[i])
  {
    var s := Exec(job, schedule);
    if s.phases[i].Finished? {
      longer := schedule;
    } else {
      RunInv(job, schedule);
      AloneStep(job, s0, s, i);
      RunSnoc(job, schedule, Work(i, false));
      longer := Solo(job, schedule + [Work(i, false)], s0, i);
    }
  }

  lemma SoloStored(job: Job, s0: State, s: State, i: nat)
    requires Compared(job, s0) && Sieved(job, s0) && Compared(job, s) && Sieved(job, s)
    requires i < |job.facts| && Offers(job.facts[i]) && s0.phases[i].Waiting?
    requires Alone(job, s0, s, i) && s.phases[i].Finished?
    ensures Ended(s.phases[i], Duplicate) <==> HasNear(s0.stored, job.facts[i].hash.value)
  {
    var e := Entry(i, job.facts[i].hash.value);
    GreedySnoc(s0.arrivals, e);
    assert s.stored == Offer(s0.stored, e);
    assert e !in s0.stored;
    if Ended(s.phases[i], Duplicate) {
      assert e !in s.stored;
    } else {
      assert e in s.stored;
    }
  }

  /** A worker that ran alone is accepted exactly when it passes and there was room. */
  lemma AcceptedAlone(f: Facts, o: Outcome, stored: seq<Entry>, room: bool)
    requires Justified(f, o) && (o.Accepted? ==> room) && (o.Dropped? ==> !room)
    requires Offers(f) ==> (o.Duplicate? <==> HasNear(stored, f.hash.value))
    ensures o.Accepted? <==> Passes(stored, ItemOf(f)) && room
  {
    if Acceptable(f) {
      AcceptableEnds(f, o);
    }
  }

  lemma CapFacts(job: Job, s: State, i: nat)
    requires Local(job, s) && Results(job, s) && i < |job.facts|
    ensures PhaseOk(job.facts[i], s.phases[i]) && |s.validated| <= Max(0, job.maxResults)
    ensures Ended(s.phases[i], Dropped) ==> |s.validated| >= job.maxResults
  {
  }

  /** What it leaves behind is what the sequential reference does with its position. */
  lemma SoloResult(job: Job, s0: State, s: State, i: nat)
    requires i < |job.facts| && Alone(job, s0, s, i) && s.phases[i].Finished?
    requires PhaseOk(job.facts[i], s.phases[i]) && |s.validated| <= Max(0, job.maxResults)
    requires Ended(s.phases[i], Dropped) ==> |s.validated| >= job.maxResults
    requires Offers(job.facts[i]) ==>
               (Ended(s.phases[i], Duplicate) <==> HasNear(s0.stored, job.facts[i].hash.value))
    ensures s.validated ==
            if Passes(s0.stored, ItemOf(job.facts[i])) && |s0.validated| < job.maxResults
            then s0.validated + [i] else s0.validated
  {
    AcceptedAlone(job.facts[i], s.phases[i].outcome, s0.stored, |s0.validated| < job.maxResults);
  }

  /** All workers of `q` have run one after the other; the others wait. */
  ghost predicate Queued(job: Job, s: State, q: seq<nat>)
    requires InRange(q, |job.facts|)
  {
    && s.spawner == Checking && s.next == |s.phases| == |job.facts| && s.tokens == 0
    && (forall i | 0 <= i < |s.phases| :: if i in q then s.phases[i].Finished? else s.phases[i].Waiting?)
    && s.arrivals == Entries(Items(job), q) && s.validated == Filtered(Items(job), job.maxResults, q)
  }

  lemma QueuedContents(job: Job, s0: State, s: State, q: seq<nat>, i: nat)
    requires InRange(q, |job.facts|) && i < |job.facts| && i !in q
    requires Inv(job, s0) && Inv(job, s) && Queued(job, s0, q)
    requires Alone(job, s0, s, i) && s.phases[i].Finished?
    ensures InRange(q + [i], |job.facts|)
    ensures s.arrivals == Entries(Items(job), q + [i])
    ensures s.validated == Filtered(Items(job), job.maxResults, q + [i])
  {
    if Offers(job.facts[i]) {
      SoloStored(job, s0, s, i);
    }
    CapFacts(job, s, i);
    SoloResult(job, s0, s, i);
    StoredSnoc(Items(job), q, i);
    FilteredSnoc(Items(job), job.maxResults, q, i);
  }

  lemma QueuedMore(job: Job, s0: State, s: State, q: seq<nat>, i: nat)
    requires InRange(q, |job.facts|) && InRange(q + [i], |job.facts|) && i < |job.facts|
    requires Queued(job, s0, q) && Alone(job, s0, s, i) && s.phases[i].Finished?
    requires s.arrivals == Entries(Items(job), q + [i]) && s.validated == Filtered(Items(job), job.maxResults, q + [i])
    ensures Queued(job, s, q + [i])
  {
  }

  lemma {:induction false} Queue(job: Job, q: seq<nat>) returns (schedule: seq<Action>)
    requires InRange(q, |job.facts|) && Distinct(q) && job.maxResults > 0
    ensures IsRun(job, schedule) && Queued(job, Exec(job, schedule), q)
  {
    if q == [] {
      schedule := Launch(job, |job.facts|);
    } else {
      var front, i := q[..|q| - 1], q[|q| - 1];
      assert q == front + [i];
      var shorter := Queue(job, front);
      var s0 := Exec(job, shorter);
      assert Alone(job, s0, s0, i);
      schedule := Solo(job, shorter, s0, i);
      RunInv(job, shorter);
      RunInv(job, schedule);
      QueuedContents(job, s0, Exec(job, schedule), front, i);
      QueuedMore(job, s0, Exec(job, schedule), front, i);
    }
  }

  /** The sequential reference is one of the concurrent pipeline's behaviours. */
  lemma SequentialRuns(job: Job, q: seq<nat>) returns (full: seq<Action>)
    requires IsOrder(|job.facts|, q)
    ensures IsCompleteRun(job, full) && Exec(job, full).validated == Filtered(Items(job), job.maxResults, q)
  {
    if job.maxResults > 0 {
      var queued := Queue(job, q);
      RunSnoc(job, queued, Spawn);
      full := queued + [Spawn];
    } else {
      full := CanFinish(job, []);
      RunAtEnd(job, full);
      FilteredSize(Items(job), job.maxResults, q);
    }
  }

  // ---- Three at a time

  /** The state after `k` of the launched workers took a slot. */
  function Started(job: Job, k: nat): State {
    Launched(job, |job.facts|).(
      phases := seq(|job.facts|, i => if i < k then Running(Probe) else Waiting), tokens := k)
  }

  lemma {:induction false} Start(job: Job, k: nat) returns (schedule: seq<Action>)
    requires k <= 3 && k <= |job.facts| && job.maxResults > 0
    ensures IsRun(job, schedule) && Exec(job, schedule) == Started(job, k)
  {
    if k == 0 {
      schedule := Launch(job, |job.facts|);
      assert Launched(job, |job.facts|).phases == Started(job, 0).phases;
    } else {
      var shorter := Start(job, k - 1);
      RunSnoc(job, shorter, Work(k - 1, false));
      schedule := shorter + [Work(k - 1, false)];
      assert Started(job, k).phases == Started(job, k - 1).phases[k - 1 := Running(Probe)];
    }
  }

  /** Three workers can hold a slot at once, and then no fourth can take one. */
  lemma ThreeAtOnce(job: Job) returns (schedule: seq<Action>)
    requires |job.facts| >= 3 && job.maxResults > 0
    ensures IsRun(job, schedule) && Exec(job, schedule).tokens == 3
    ensures forall i, b | 3 <= i < |job.facts| :: !Enabled(job, Exec(job, schedule), Work(i, b))
  {
    schedule := Start(job, 3);
  }

  // ---- Every run is sequential

  /** Results of a run are acceptable, no two alike, and fit. */
  lemma ResultsKeepable(job: Job, s: State)
    requires Inv(job, s)
    ensures Keepable(Items(job), job.maxResults, s.validated)
  {
    var items, xs := Items(job), s.validated;
    GreedySpread(s.arrivals);
    forall k | 0 <= k < |xs|
      ensures xs[k] < |items| && items[xs[k]].good && (items[xs[k]].hash.Some? ==> xs[k] in Owners(s.stored))
    {
      AcceptedIsStored(job, s, xs[k]);
    }
    StoredIndependent(job, s);
    IndependentApart(items, Owners(s.stored), xs);
  }

  lemma StoredIndependent(job: Job, s: State)
    requires Inv(job, s)
    ensures Independent(Items(job), Owners(s.stored))
  {
    GreedySpread(s.arrivals);
    var items, kept := Items(job), Owners(s.stored);
    forall k | 0 <= k < |s.stored|
      ensures s.stored[k].owner < |items| && items[s.stored[k].owner].hash == Some(s.stored[k].hash)
    {
      assert s.stored[k] in s.stored;
    }
  }

  /** A run that stopped below the limit left nothing that could be added. */
  lemma ResultsExhaustive(job: Job, s: State)
    requires AtEnd(job, s)
    ensures Exhaustive(Items(job), job.maxResults, s.validated, Owners(s.stored))
  {
    if |s.validated| < job.maxResults {
      var items, kept := Items(job), Owners(s.stored);
      StoredIndependent(job, s);
      forall i: nat | i < |items| && items[i].hash.Some? && i in s.validated
        ensures i in kept
      {
        AcceptedIsStored(job, s, i);
      }
      forall i: nat | i < |items| && items[i].good && i !in s.validated
        ensures i !in kept && Suppressed(items, kept, i)
      {
        MissingIsSuppressed(job, s, i);
      }
    }
  }

  lemma MissingIsSuppressed(job: Job, s: State, i: nat)
    requires AtEnd(job, s) && |s.validated| < job.maxResults
    requires i < |job.facts| && Acceptable(job.facts[i]) && i !in s.validated
    ensures i !in Owners(s.stored) && Suppressed(Items(job), Owners(s.stored), i)
  {
    EndAccounts(job, s, i);
    var o := s.phases[i].outcome;
    assert PhaseOk(job.facts[i], s.phases[i]);
    AcceptableEnds(job.facts[i], o);
    assert Ended(s.phases[i], o);
    forall k | 0 <= k < |s.stored|
      ensures s.stored[k].owner != i
    {
      assert s.stored[k] in s.stored;
    }
    var k :| 0 <= k < |s.stored| && Near(job.facts[i].hash.value, s.stored[k].hash);
    assert s.stored[k] in s.stored;
    assert s.stored[k].owner in Owners(s.stored);
    assert Clash(Items(job)[i], Items(job)[s.stored[k].owner]);
  }

  lemma RunIsSequential(job: Job, schedule: seq<Action>) returns (q: seq<nat>)
    requires IsCompleteRun(job, schedule)
    ensures IsOrder(|job.facts|, q) && Exec(job, schedule).validated == Filtered(Items(job), job.maxResults, q)
  {
    RunAtEnd(job, schedule);
    var s := Exec(job, schedule);
    ResultsKeepable(job, s);
    ResultsExhaustive(job, s);
    q := Realise(Items(job), job.maxResults, s.validated, Owners(s.stored));
  }

  // ---- The theorems

  ghost predicate CanReturn(job: Job, xs: seq<nat>) {
    exists schedule :: IsCompleteRun(job, schedule) && Exec(job, schedule).validated == xs
  }

  /**
   * The lists that the interleavings return are the lists that the sequential reference returns over
   * all orders of the input.
   */
  lemma ConcurrentIsSequential(job: Job, xs: seq<nat>)
    ensures CanReturn(job, xs) <==>
            exists q :: IsOrder(|job.facts|, q) && Filtered(Items(job), job.maxResults, q) == xs
  {
    forall schedule | IsCompleteRun(job, schedule) && Exec(job, schedule).validated == xs
      ensures exists q :: IsOrder(|job.facts|, q) && Filtered(Items(job), job.maxResults, q) == xs
    {
      var q := RunIsSequential(job, schedule);
    }
    forall q | IsOrder(|job.facts|, q) && Filtered(Items(job), job.maxResults, q) == xs
      ensures CanReturn(job, xs)
    {
      var full := SequentialRuns(job, q);
    }
  }

  /**
   * The same lists without any order: choose a maximal set of offered hashes no two of which look
   * alike; return, in any order, as many of its survivors as fit.
   */
  lemma ResultsExactly(job: Job, xs: seq<nat>)
    ensures CanReturn(job, xs) <==>
            exists kept :: Maximal(Items(job), kept) && Chosen(Items(job), job.maxResults, xs, kept)
  {
    ConcurrentIsSequential(job, xs);
    KeptExactly(Items(job), job.maxResults, xs);
  }

  /** How many results there are when exactly `kept` stored their hashes. */
  ghost function SizeWith(job: Job, kept: set<nat>): int {
    Min(Max(0, job.maxResults), |Sieve.Survivors(Items(job), kept)|)
  }

  /** How many results there are when hashes take the lock in order `q`. */
  ghost function SizeAfter(job: Job, q: seq<nat>): int
    requires InRange(q, |job.facts|)
  {
    SizeWith(job, Owners(Greedy(Entries(Items(job), q))))
  }

  lemma RunSize(job: Job, schedule: seq<Action>) returns (q: seq<nat>)
    requires IsCompleteRun(job, schedule)
    ensures IsOrder(|job.facts|, q) && |Exec(job, schedule).validated| == SizeAfter(job, q)
  {
    q := RunIsSequential(job, schedule);
    OrderChooses(Items(job), job.maxResults, q);
  }

  lemma SizeRuns(job: Job, q: seq<nat>) returns (full: seq<Action>)
    requires IsOrder(|job.facts|, q)
    ensures IsCompleteRun(job, full) && |Exec(job, full).validated| == SizeAfter(job, q)
  {
    full := SequentialRuns(job, q);
    OrderChooses(Items(job), job.maxResults, q);
  }

  ghost predicate CanReturnMany(job: Job, n: int) {
    exists schedule :: IsCompleteRun(job, schedule) && |Exec(job, schedule).validated| == n
  }

  /**
   * The possible numbers of results are the numbers of survivors, up to the limit, over all lock
   * orders, which is over all maximal sets of hashes no two of which look alike.
   */
  lemma SizesExactly(job: Job, n: int)
    ensures CanReturnMany(job, n) <==> exists q :: IsOrder(|job.facts|, q) && SizeAfter(job, q) == n
    ensures CanReturnMany(job, n) <==> exists kept :: Maximal(Items(job), kept) && SizeWith(job, kept) == n
  {
    forall schedule | IsCompleteRun(job, schedule) && |Exec(job, schedule).validated| == n
      ensures exists q :: IsOrder(|job.facts|, q) && SizeAfter(job, q) == n
    {
      var q := RunSize(job, schedule);
    }
    forall q | IsOrder(|job.facts|, q) && SizeAfter(job, q) == n
      ensures CanReturnMany(job, n) && exists kept :: Maximal(Items(job), kept) && SizeWith(job, kept) == n
    {
      var full := SizeRuns(job, q);
      StoredIsMaximal(Items(job), q);
    }
    forall kept | Maximal(Items(job), kept) && SizeWith(job, kept) == n
      ensures exists q :: IsOrder(|job.facts|, q) && SizeAfter(job, q) == n
    {
      LockOrdersKeepMaximal(Items(job), kept);
      var q :| IsOrder(|Items(job)|, q) && Owners(Stored(Items(job), q)) == kept;
      assert SizeAfter(job, q) == n;
    }
  }

  ghost predicate SizeIsFixed(job: Job) {
    forall m, n | CanReturnMany(job, m) && CanReturnMany(job, n) :: m == n
  }

  /**
   * The number of results is the same on every schedule exactly when every maximal set of hashes no
   * two of which look alike leaves equally many survivors up to the limit.
   */
  lemma SizeFixedExactly(job: Job)
    ensures SizeIsFixed(job) <==>
            forall a, b | Maximal(Items(job), a) && Maximal(Items(job), b) :: SizeWith(job, a) == SizeWith(job, b)
  {
    if SizeIsFixed(job) {
      forall a, b | Maximal(Items(job), a) && Maximal(Items(job), b)
        ensures SizeWith(job, a) == SizeWith(job, b)
      {
        SizesExactly(job, SizeWith(job, a));
        SizesExactly(job, SizeWith(job, b));
      }
    }
    if forall a, b | Maximal(Items(job), a) && Maximal(Items(job), b) :: SizeWith(job, a) == SizeWith(job, b) {
      forall m, n | CanReturnMany(job, m) && CanReturnMany(job, n)
        ensures m == n
      {
        SizesExactly(job, m);
        SizesExactly(job, n);
      }
    }
  }

  /** The same condition over lock orders. */
  lemma SizeFixedByLockOrder(job: Job)
    ensures SizeIsFixed(job) <==>
            forall q, r | IsOrder(|job.facts|, q) && IsOrder(|job.facts|, r) :: SizeAfter(job, q) == SizeAfter(job, r)
  {
    if SizeIsFixed(job) {
      forall q, r | IsOrder(|job.facts|, q) && IsOrder(|job.facts|, r)
        ensures SizeAfter(job, q) == SizeAfter(job, r)
      {
        SizesExactly(job, SizeAfter(job, q));
        SizesExactly(job, SizeAfter(job, r));
      }
    }
    if forall q, r | IsOrder(|job.facts|, q) && IsOrder(|job.facts|, r) :: SizeAfter(job, q) == SizeAfter(job, r) {
      forall m, n | CanReturnMany(job, m) && CanReturnMany(job, n)
        ensures m == n
      {
        SizesExactly(job, m);
        SizesExactly(job, n);
      }
    }
  }
}
