/** Guarantees over whole runs of the validation pipeline, for every interleaving. */
module PipelineTheorems {
  import opened Domain
  import opened Listings
  import opened Dedup
  import opened Pipeline
  import opened PipelineInvariant

  // ---- Safety in every reachable state

  ghost function Positions(ps: seq<Phase>, p: Phase -> bool): set<nat> {
    set i: nat | i < |ps| && p(ps[i])
  }

  lemma {:induction false} HeldIsCardinality(ps: seq<Phase>)
    ensures Held(ps) == |Positions(ps, Holds)|
  {
    if ps == [] {
      assert Positions(ps, Holds) == {};
    } else {
      var n := |ps| - 1;
      HeldIsCardinality(ps[..n]);
      var rest := Positions(ps[..n], Holds);
      assert Positions(ps, Holds) == if Holds(ps[n]) then rest + {n} else rest;
    }
  }

  /**
   * The filters, spelled out on the facts of one position. A position with a free license never gets
   * to the reverse search and the model, so a panic there cannot harm it.
   */
  predicate PassedEveryFilter(f: Facts) {
    && f.probe && !f.preBlocked
    && (|| (f.verdict == Safe && (f.panicAt.None? || f.panicAt == Some(Reverse) || f.panicAt == Some(Classify)))
        || (&& f.verdict == Unknown && f.panicAt.None? && !f.reverseStock
            && (f.answer.cls == "PHOTO" || f.answer.cls == "")))
  }

  /** What the stages let through, in either direction and without naming a stage. */
  lemma AcceptableExactly(f: Facts)
    ensures Acceptable(f) <==> PassedEveryFilter(f)
    ensures f.panicAt.None? ==>
              (Acceptable(f) <==>
                 && f.probe && !f.preBlocked
                 && (|| f.verdict.Safe?
                     || (f.verdict.Unknown? && !f.reverseStock && (f.answer.cls == "PHOTO" || f.answer.cls == ""))))
  {
    if f.panicAt.Some? {
      var at := f.panicAt.value;
      assert at.Probe? || at.Screen? || at.Fetch? || at.Compare? || at.Assess? || at.Reverse? || at.Classify? || at.Append?;
    }
  }

  /** What takes part in deduplication: everything that is probed, screened, downloaded and hashed. */
  lemma OffersExactly(f: Facts)
    ensures Offers(f) <==>
            && f.probe && !f.preBlocked && f.hash.Some?
            && (f.panicAt.None? || f.panicAt.value !in {Probe, Screen, Fetch, Compare})
  {
  }

  lemma ValidatedPassed(job: Job, s: State, v: nat)
    requires Shape(job, s) && Local(job, s) && Results(job, s) && v in s.validated
    ensures v < |job.facts| && v < s.next && PassedEveryFilter(job.facts[v])
  {
    assert Ended(s.phases[v], Accepted);
    assert PhaseOk(job.facts[v], s.phases[v]);
    AcceptableExactly(job.facts[v]);
  }

  lemma SafetyInEveryState(job: Job, schedule: seq<Action>)
    requires IsRun(job, schedule)
    ensures
      var s := Exec(job, schedule);
      && |s.validated| <= Max(0, job.maxResults)
      && s.tokens == |Positions(s.phases, Holds)| <= 3
      && |s.phases| == |job.facts|
      && (forall i | 0 <= i < |s.phases| :: s.phases[i].Unspawned? <==> s.next <= i)
      && (forall a, b | 0 <= a < b < |s.validated| :: s.validated[a] != s.validated[b])
      && (forall v | v in s.validated :: v < |job.facts| && v < s.next && PassedEveryFilter(job.facts[v]))
  {
    RunInv(job, schedule);
    var s := Exec(job, schedule);
    HeldIsCardinality(s.phases);
    forall v | v in s.validated
      ensures v < |job.facts| && v < s.next && PassedEveryFilter(job.facts[v])
    {
      ValidatedPassed(job, s, v);
    }
  }

  // ---- Progress and termination

  lemma Progress(job: Job, schedule: seq<Action>)
    requires IsRun(job, schedule) && !Final(Exec(job, schedule))
    ensures exists a :: Enabled(job, Exec(job, schedule), a)
  {
    RunInv(job, schedule);
    var s := Exec(job, schedule);
    if !s.spawner.Stopped? {
      assert Enabled(job, s, Spawn);
    } else {
      var i :| 0 <= i < |s.phases| && !s.phases[i].Unspawned? && !s.phases[i].Finished?;
      HeldNone(s.phases);
      if s.phases[i].Waiting? && s.tokens >= VALIDATION_SEMAPHORE {
        var j :| 0 <= j < |s.phases| && Holds(s.phases[j]);
        assert Enabled(job, s, Work(j, false));
      } else {
        assert Enabled(job, s, Work(i, false));
      }
    }
  }

  function Weight(p: Phase): nat {
    match p
    case Unspawned => 11
    case Waiting => 10
    case Running(stage) =>
      (match stage
       case Probe => 9
       case Screen => 8
       case Fetch => 7
       case Compare => 6
       case Assess => 5
       case Reverse => 4
       case Classify => 3
       case Append => 2)
    case Releasing(_) => 1
    case Finished(_) => 0
  }

  function TotalWeight(ps: seq<Phase>): nat {
    if ps == [] then 0 else TotalWeight(ps[..|ps| - 1]) + Weight(ps[|ps| - 1])
  }

  /** Work left: remaining loop iterations of the spawner plus remaining steps of the workers. */
  function Measure(job: Job, s: State): int {
    TotalWeight(s.phases) +
    match s.spawner
    case Checking => 2 * (|job.facts| - s.next) + 1
    case Spawning => 2 * (|job.facts| - s.next)
    case Stopped => 0
  }

  lemma {:induction false} WeightUpdate(ps: seq<Phase>, i: nat, p: Phase)
    requires i < |ps|
    ensures TotalWeight(ps[i := p]) + Weight(ps[i]) == TotalWeight(ps) + Weight(p)
  {
    var n := |ps| - 1;
    if i < n {
      assert ps[i := p][..n] == ps[..n][i := p];
      WeightUpdate(ps[..n], i, p);
    } else {
      assert ps[i := p][..n] == ps[..n];
    }
  }

  lemma {:induction false} InitialWeight(ps: seq<Phase>)
    requires forall i | 0 <= i < |ps| :: ps[i].Unspawned?
    ensures TotalWeight(ps) == 11 * |ps|
  {
    if ps != [] {
      InitialWeight(ps[..|ps| - 1]);
    }
  }

  lemma MovesLighter(f: Facts, p: Phase, p': Phase)
    requires Moves(f, p, p')
    ensures Weight(p') < Weight(p)
  {
  }

  lemma MeasureDrops(job: Job, s: State, a: Action)
    requires Inv(job, s) && Enabled(job, s, a)
    ensures 0 <= Measure(job, Next(job, s, a)) < Measure(job, s)
  {
    match a
    case Spawn =>
      if s.spawner.Spawning? {
        WeightUpdate(s.phases, s.next, Waiting);
      }
    case Work(i, answered) =>
      WorkFrame(job, s, i, answered);
      WorkMoves(job, s, i, answered);
      MovesLighter(job.facts[i], s.phases[i], WorkStep(job, s, i, answered).phases[i]);
      WeightUpdate(s.phases, i, WorkStep(job, s, i, answered).phases[i]);
  }

  /** Every interleaving stops within a bound linear in the input. */
  lemma {:induction false} RunsAreBounded(job: Job, schedule: seq<Action>)
    requires IsRun(job, schedule)
    ensures 0 <= Measure(job, Exec(job, schedule)) <= 13 * |job.facts| + 1 - |schedule|
  {
    if schedule == [] {
      InitialWeight(Init(job).phases);
    } else {
      var front := schedule[..|schedule| - 1];
      RunsAreBounded(job, front);
      RunInv(job, front);
      MeasureDrops(job, Exec(job, front), schedule[|schedule| - 1]);
    }
  }

  /** A run that stopped everywhere has given back every slot. */
  lemma FinalReleasesSlots(job: Job, schedule: seq<Action>)
    requires IsCompleteRun(job, schedule)
    ensures Exec(job, schedule).tokens == 0
  {
    RunInv(job, schedule);
    HeldNone(Exec(job, schedule).phases);
  }

  lemma ValidatedGrows(job: Job, s: State, a: Action)
    ensures s.validated <= Next(job, s, a).validated
  {
  }

  /** From every reachable state some continuation completes, and it only appends to the result. */
  lemma {:induction false} CanFinish(job: Job, schedule: seq<Action>) returns (full: seq<Action>)
    requires IsRun(job, schedule)
    ensures IsCompleteRun(job, full) && schedule <= full
    ensures Exec(job, schedule).validated <= Exec(job, full).validated
    decreases Measure(job, Exec(job, schedule))
  {
    RunsAreBounded(job, schedule);
    if Final(Exec(job, schedule)) {
      full := schedule;
    } else {
      RunInv(job, schedule);
      Progress(job, schedule);
      var a :| Enabled(job, Exec(job, schedule), a);
      RunSnoc(job, schedule, a);
      MeasureDrops(job, Exec(job, schedule), a);
      ValidatedGrows(job, Exec(job, schedule), a);
      full := CanFinish(job, schedule + [a]);
    }
  }

  // ---- Deduplication over whole runs

  /** Storage is the greedy filter over lock order, so any two hashed results are far apart. */
  lemma ResultsAreFarApart(job: Job, schedule: seq<Action>)
    requires IsRun(job, schedule)
    ensures
      var s := Exec(job, schedule);
      && s.stored == Greedy(s.arrivals) && Spread(s.stored)
      && (forall v | v in s.validated :: v < |job.facts|)
      && forall v, w | v in s.validated && w in s.validated && v != w &&
                       job.facts[v].hash.Some? && job.facts[w].hash.Some? ::
           Distance(job.facts[v].hash.value, job.facts[w].hash.value) >= 10
  {
    RunInv(job, schedule);
    var s := Exec(job, schedule);
    GreedySpread(s.arrivals);
    forall v, w | v in s.validated && w in s.validated && v != w &&
                  job.facts[v].hash.Some? && job.facts[w].hash.Some?
      ensures Distance(job.facts[v].hash.value, job.facts[w].hash.value) >= 10
    {
      AcceptedIsStored(job, s, v);
      AcceptedIsStored(job, s, w);
      var a :| 0 <= a < |s.stored| && s.stored[a] == Entry(v, job.facts[v].hash.value);
      var b :| 0 <= b < |s.stored| && s.stored[b] == Entry(w, job.facts[w].hash.value);
      assert !Near(s.stored[a].hash, s.stored[b].hash);
    }
  }

  lemma AcceptedIsStored(job: Job, s: State, v: nat)
    requires Inv(job, s) && v in s.validated
    ensures v < |job.facts| && Acceptable(job.facts[v])
    ensures job.facts[v].hash.Some? ==> Entry(v, job.facts[v].hash.value) in s.stored
  {
    assert Ended(s.phases[v], Accepted);
    assert PhaseOk(job.facts[v], s.phases[v]);
  }

  // ---- Accounting

  /** Positions that every filter lets through, given the hashes that deduplication stored. */
  ghost function Survivors(job: Job, stored: seq<Entry>): set<nat> {
    set i: nat | i < |job.facts| && Acceptable(job.facts[i]) &&
                 (job.facts[i].hash.Some? ==> Entry(i, job.facts[i].hash.value) in stored)
  }

  /** A recorded reason for a position that is not among the results. */
  ghost predicate Rejected(job: Job, s: State, i: nat)
    requires i < |job.facts| == |s.phases|
  {
    exists o :: s.phases[i] == Finished(o) && !o.Accepted? && !o.Dropped? && Justified(job.facts[i], o) &&
                (o.Duplicate? ==> HasNear(s.stored, job.facts[i].hash.value))
  }

  ghost predicate AtEnd(job: Job, s: State) {
    Inv(job, s) && Final(s)
  }

  lemma RunAtEnd(job: Job, schedule: seq<Action>)
    requires IsCompleteRun(job, schedule)
    ensures AtEnd(job, Exec(job, schedule))
  {
    RunInv(job, schedule);
  }

  lemma EndAccounts(job: Job, s: State, i: nat)
    requires AtEnd(job, s) && |s.validated| < job.maxResults && i < |job.facts|
    ensures s.phases[i].Finished? && s.phases[i] != Finished(Dropped)
    ensures i in s.validated || Rejected(job, s, i)
  {
    assert PhaseOk(job.facts[i], s.phases[i]);
    var o := s.phases[i].outcome;
    assert Ended(s.phases[i], o);
    if !o.Accepted? && !o.Dropped? {
      assert Rejected(job, s, i);
    }
  }

  /**
   * A run that returns fewer than asked for looked at every position, dropped no append, and
   * has a justified rejection on record for every position that is missing.
   */
  lemma NothingIsLost(job: Job, schedule: seq<Action>)
    requires IsCompleteRun(job, schedule) && |Exec(job, schedule).validated| < job.maxResults
    ensures
      var s := Exec(job, schedule);
      && s.next == |job.facts| == |s.phases|
      && (forall i | 0 <= i < |s.phases| :: s.phases[i] != Finished(Dropped))
      && (forall i | 0 <= i < |s.phases| :: i in s.validated || Rejected(job, s, i))
  {
    RunAtEnd(job, schedule);
    var s := Exec(job, schedule);
    forall i | 0 <= i < |s.phases|
      ensures s.phases[i] != Finished(Dropped) && (i in s.validated || Rejected(job, s, i))
    {
      EndAccounts(job, s, i);
    }
  }

  lemma AcceptableEnds(f: Facts, o: Outcome)
    requires Acceptable(f) && Justified(f, o)
    ensures o.Accepted? || o.Dropped? || (o.Duplicate? && f.hash.Some?)
  {
  }

  lemma ValidatedSurvive(job: Job, s: State)
    requires Inv(job, s)
    ensures Elements(s.validated) <= Survivors(job, s.stored)
  {
    forall v | v in s.validated
      ensures v in Survivors(job, s.stored)
    {
      AcceptedIsStored(job, s, v);
    }
  }

  lemma SurvivorIsValidated(job: Job, s: State, i: nat)
    requires AtEnd(job, s) && |s.validated| < job.maxResults && i in Survivors(job, s.stored)
    ensures i in s.validated
  {
    EndAccounts(job, s, i);
    assert PhaseOk(job.facts[i], s.phases[i]);
    AcceptableEnds(job.facts[i], s.phases[i].outcome);
    assert Ended(s.phases[i], s.phases[i].outcome);
  }

  /** Below the cap, the results are exactly the survivors. */
  lemma BelowCap(job: Job, s: State)
    requires AtEnd(job, s) && |s.validated| < job.maxResults
    ensures Elements(s.validated) == Survivors(job, s.stored)
  {
    ValidatedSurvive(job, s);
    forall i | i in Survivors(job, s.stored)
      ensures i in s.validated
    {
      SurvivorIsValidated(job, s, i);
    }
  }

  lemma EndCap(job: Job, s: State)
    requires AtEnd(job, s)
    ensures |Elements(s.validated)| == |s.validated| <= Max(0, job.maxResults)
  {
    DistinctCardinality(s.validated);
  }

  lemma EndSize(job: Job, s: State)
    requires AtEnd(job, s)
    ensures |s.validated| == Min(Max(0, job.maxResults), |Survivors(job, s.stored)|)
  {
    EndCap(job, s);
    ValidatedSurvive(job, s);
    SubsetCardinality(Elements(s.validated), Survivors(job, s.stored));
    if |s.validated| < job.maxResults {
      BelowCap(job, s);
    }
  }

  /** The exact result of any complete run: all survivors, or as many of them as were asked for. */
  lemma ExactResult(job: Job, schedule: seq<Action>)
    requires IsCompleteRun(job, schedule)
    ensures
      var s := Exec(job, schedule);
      && |s.validated| == Min(Max(0, job.maxResults), |Survivors(job, s.stored)|)
      && Elements(s.validated) <= Survivors(job, s.stored)
      && (|s.validated| < job.maxResults ==> Elements(s.validated) == Survivors(job, s.stored))
  {
    RunAtEnd(job, schedule);
    var s := Exec(job, schedule);
    EndSize(job, s);
    ValidatedSurvive(job, s);
    if |s.validated| < job.maxResults {
      BelowCap(job, s);
    }
  }

  ghost function AcceptablePositions(job: Job): set<nat> {
    set i: nat | i < |job.facts| && Acceptable(job.facts[i])
  }

  /** No two positions that take part in deduplication look alike. */
  ghost predicate HashesApart(job: Job) {
    forall i, j | 0 <= i < |job.facts| && 0 <= j < |job.facts| && i != j &&
                  Offers(job.facts[i]) && Offers(job.facts[j]) ::
      !Near(job.facts[i].hash.value, job.facts[j].hash.value)
  }

  lemma NoDuplicates(job: Job, s: State, i: nat)
    requires Inv(job, s) && HashesApart(job) && i < |job.facts|
    ensures !Ended(s.phases[i], Duplicate)
  {
  }

  lemma AllSurvive(job: Job, s: State)
    requires AtEnd(job, s) && HashesApart(job) && |s.validated| < job.maxResults
    ensures Survivors(job, s.stored) == AcceptablePositions(job)
  {
    forall i | i in AcceptablePositions(job)
      ensures i in Survivors(job, s.stored)
    {
      NoDuplicates(job, s, i);
      EndAccounts(job, s, i);
      assert Arrived(s.phases[i]);
    }
  }

  /** With no look-alikes the size of the result does not depend on the schedule at all. */
  lemma SizeIgnoresSchedule(job: Job, schedule: seq<Action>)
    requires IsCompleteRun(job, schedule) && HashesApart(job)
    ensures |Exec(job, schedule).validated| == Min(Max(0, job.maxResults), |AcceptablePositions(job)|)
  {
    RunAtEnd(job, schedule);
    var s := Exec(job, schedule);
    EndSize(job, s);
    SubsetCardinality(Survivors(job, s.stored), AcceptablePositions(job));
    if |s.validated| < job.maxResults {
      AllSurvive(job, s);
    }
  }

  /** The positions that every filter lets through. */
  ghost function PassingPositions(job: Job): set<nat> {
    set i: nat | i < |job.facts| && PassedEveryFilter(job.facts[i])
  }

  /**
   * With no two hashes closer than ten bits and room for all, every schedule returns exactly the
   * positions that pass the filters.
   */
  lemma RoomForAll(job: Job, schedule: seq<Action>)
    requires IsCompleteRun(job, schedule) && |PassingPositions(job)| <= job.maxResults
    requires forall i, j | 0 <= i < |job.facts| && 0 <= j < |job.facts| && i != j &&
                           job.facts[i].hash.Some? && job.facts[j].hash.Some? ::
               Distance(job.facts[i].hash.value, job.facts[j].hash.value) >= 10
    ensures Elements(Exec(job, schedule).validated) == PassingPositions(job)
    ensures |Exec(job, schedule).validated| == |PassingPositions(job)|
  {
    forall i: nat | i < |job.facts|
      ensures Acceptable(job.facts[i]) <==> PassedEveryFilter(job.facts[i])
    {
      AcceptableExactly(job.facts[i]);
    }
    assert AcceptablePositions(job) == PassingPositions(job);
    SizeIgnoresSchedule(job, schedule);
    ExactResult(job, schedule);
    RunAtEnd(job, schedule);
    EndCap(job, Exec(job, schedule));
    SubsetCardinality(Elements(Exec(job, schedule).validated), AcceptablePositions(job));
  }

  /** One candidate, one result asked for: it comes back on every schedule exactly when it passes. */
  lemma OneCandidate(job: Job, schedule: seq<Action>)
    requires IsCompleteRun(job, schedule) && |job.facts| == 1 && job.maxResults == 1
    ensures Exec(job, schedule).validated == if PassedEveryFilter(job.facts[0]) then [0] else []
  {
    assert PassingPositions(job) == if PassedEveryFilter(job.facts[0]) then {0} else {};
    RoomForAll(job, schedule);
    var xs := Exec(job, schedule).validated;
    if xs != [] {
      assert xs[0] in Elements(xs);
    }
  }

  // ---- The audit log over whole runs

  ghost function EventsOf(events: seq<Event>, i: nat): set<nat> {
    set k: nat | k < |events| && events[k].position == i
  }

  /** The stages that reject with a STOCK event, and its source label. */
  predicate StockReason(o: Outcome) {
    o.ExtraBlocked? || o.LicenseBlocked? || o.ReverseStock?
  }

  lemma EventsUnique(job: Job, s: State, i: nat, k: nat)
    requires Inv(job, s) && i < |job.facts| && k in EventsOf(s.events, i)
    ensures EventsOf(s.events, i) == {k} && EventOk(job.facts[i], s.phases[i], s.events[k])
  {
    assert s.events[k] in s.events;
    forall m | m in EventsOf(s.events, i)
      ensures m == k
    {
    }
  }

  /** The one event of a rejection by domain, license or reverse search. */
  function StockEvent(i: nat, o: Outcome): Event {
    Event(i, CLASS_STOCK, Finite(0.0), if o.ReverseStock? then "reverse_stock" else "license_assessment")
  }

  lemma OwedIsLogged(job: Job, s: State, i: nat, e: Event) returns (k: nat)
    requires Reported(job, s) && i < |job.facts| && job.callback && Owed(job.facts[i], i, s.phases[i]) == Some(e)
    ensures k in EventsOf(s.events, i) && s.events[k] == e
  {
    k :| 0 <= k < |s.events| && s.events[k] == e;
  }

  lemma UsableEvent(f: Facts, p: Phase, e: Event)
    requires EventOk(f, p, e) && PhaseOk(f, p) && Ended(p, Accepted)
    ensures e.cls == "PHOTO" || e.cls == ""
  {
  }

  /**
   * A position has at most one event, and a validated position's event is PHOTO or unclassified.
   * With a callback, a finished rejection by domain, license or reverse search has exactly its STOCK
   * event, and a position validated for its safe license exactly a PHOTO event.
   */
  ghost predicate Audited(job: Job, s: State, i: nat)
    requires i < |job.facts| == |s.phases|
  {
    var ks := EventsOf(s.events, i);
    && |ks| <= 1
    && (forall k | k in ks && i in s.validated :: s.events[k].cls == "PHOTO" || s.events[k].cls == "")
    && (s.phases[i].Finished? && StockReason(s.phases[i].outcome) && job.callback ==>
          |ks| == 1 && forall k | k in ks :: s.events[k] == StockEvent(i, s.phases[i].outcome))
    && (i in s.validated && job.facts[i].verdict.Safe? && job.callback ==>
          |ks| == 1 && forall k | k in ks :: s.events[k] == Event(i, CLASS_PHOTO, Finite(1.0), "license_assessment"))
    && (!job.callback ==> s.events == [])
  }

  lemma LoggedAlone(job: Job, s: State, i: nat, e: Event)
    requires Inv(job, s) && i < |job.facts| && job.callback && Owed(job.facts[i], i, s.phases[i]) == Some(e)
    ensures |EventsOf(s.events, i)| == 1 && forall k | k in EventsOf(s.events, i) :: s.events[k] == e
  {
    var k := OwedIsLogged(job, s, i, e);
    EventsUnique(job, s, i, k);
  }

  lemma AtMostOneEvent(job: Job, s: State, i: nat)
    requires Inv(job, s) && i < |job.facts|
    ensures |EventsOf(s.events, i)| <= 1
    ensures forall k | k in EventsOf(s.events, i) && i in s.validated :: s.events[k].cls == "PHOTO" || s.events[k].cls == ""
  {
    if EventsOf(s.events, i) != {} {
      var k :| k in EventsOf(s.events, i);
      EventsUnique(job, s, i, k);
      if i in s.validated {
        assert Ended(s.phases[i], Accepted);
        UsableEvent(job.facts[i], s.phases[i], s.events[k]);
      }
    }
  }

  lemma OwedEvents(f: Facts, i: nat, p: Phase)
    ensures p.Finished? && StockReason(p.outcome) ==> Owed(f, i, p) == Some(StockEvent(i, p.outcome))
    ensures Ended(p, Accepted) && f.verdict.Safe? ==>
              Owed(f, i, p) == Some(Event(i, CLASS_PHOTO, Finite(1.0), "license_assessment"))
  {
  }

  lemma AuditedState(job: Job, s: State, i: nat)
    requires Inv(job, s) && i < |job.facts|
    ensures Audited(job, s, i)
  {
    AtMostOneEvent(job, s, i);
    OwedEvents(job.facts[i], i, s.phases[i]);
    if job.callback && Owed(job.facts[i], i, s.phases[i]).Some? {
      LoggedAlone(job, s, i, Owed(job.facts[i], i, s.phases[i]).value);
    }
  }

  /** The audit log is right for every position at every moment of every run. */
  lemma AuditLog(job: Job, schedule: seq<Action>)
    requires IsRun(job, schedule)
    ensures |Exec(job, schedule).phases| == |job.facts|
    ensures forall i: nat | i < |job.facts| :: Audited(job, Exec(job, schedule), i)
  {
    RunInv(job, schedule);
    forall i: nat | i < |job.facts|
      ensures Audited(job, Exec(job, schedule), i)
    {
      AuditedState(job, Exec(job, schedule), i);
    }
  }

  /** What a position reported. */
  ghost function Log(s: State, i: nat): set<Event> {
    set k | k in EventsOf(s.events, i) :: s.events[k]
  }

  /** What a position that finished without a panic may have reported, from its facts alone. */
  ghost predicate RightLog(f: Facts, i: nat, duplicate: bool, log: set<Event>) {
    if !f.probe then log == {}
    else if f.preBlocked then log == {Event(i, "STOCK", Finite(0.0), "license_assessment")}
    else if duplicate then log == {}
    else
      match f.verdict
      case Blocked => log == {Event(i, "STOCK", Finite(0.0), "license_assessment")}
      case Safe => log == {Event(i, "PHOTO", Finite(1.0), "license_assessment")}
      case Unknown =>
        if f.reverseStock then log == {Event(i, "STOCK", Finite(0.0), "reverse_stock")}
        else log == {} || log == {Event(i, f.answer.cls, f.answer.confidence, "llm")}
  }

  lemma OwedByFacts(f: Facts, i: nat, o: Outcome, e: Event)
    requires Justified(f, o) && f.panicAt.None? && e.position == i
    ensures RightLog(f, i, o.Duplicate?, {e}) || !EventOk(f, Finished(o), e)
    ensures Owed(f, i, Finished(o)).None? ==> RightLog(f, i, o.Duplicate?, {})
  {
  }

  /** The log of a position, from its facts: what is reported, and what is not. */
  lemma EventsExactly(job: Job, schedule: seq<Action>, i: nat)
    requires IsRun(job, schedule) && job.callback && i < |job.facts| && job.facts[i].panicAt.None?
    requires |Exec(job, schedule).phases| == |job.facts| && Exec(job, schedule).phases[i].Finished?
    ensures RightLog(job.facts[i], i, Exec(job, schedule).phases[i] == Finished(Duplicate), Log(Exec(job, schedule), i))
  {
    RunInv(job, schedule);
    var s := Exec(job, schedule);
    var e := LogIsOne(job, s, i);
    assert PhaseOk(job.facts[i], s.phases[i]);
    OwedByFacts(job.facts[i], i, s.phases[i].outcome, e);
  }

  /** A position reported one accurate event, or none and owes none. */
  lemma LogIsOne(job: Job, s: State, i: nat) returns (e: Event)
    requires Inv(job, s) && job.callback && i < |job.facts|
    ensures e.position == i
    ensures || (Log(s, i) == {e} && EventOk(job.facts[i], s.phases[i], e))
            || (Log(s, i) == {} && Owed(job.facts[i], i, s.phases[i]).None?)
  {
    if k :| k in EventsOf(s.events, i) {
      EventsUnique(job, s, i, k);
      e := s.events[k];
      assert Log(s, i) == {e};
    } else {
      SilentOwesNothing(job, s, i);
      e := Event(i, "", NaN, "");
      assert Log(s, i) == {};
    }
  }

  lemma SilentOwesNothing(job: Job, s: State, i: nat)
    requires Reported(job, s) && job.callback && i < |job.facts| && EventsOf(s.events, i) == {}
    ensures Owed(job.facts[i], i, s.phases[i]).None?
  {
    if Owed(job.facts[i], i, s.phases[i]).Some? {
      var k := OwedIsLogged(job, s, i, Owed(job.facts[i], i, s.phases[i]).value);
    }
  }

  /** When the model itself answers, its answer is reported; when it does not, nothing is. */
  lemma AnswerIsReported(job: Job, s: State, i: nat, answered: bool)
    requires i < |s.phases| == |job.facts| && s.phases[i] == Running(Classify) && job.facts[i].panicAt != Some(Classify)
    ensures
      var a := job.facts[i].answer;
      Next(job, s, Work(i, answered)).events ==
      s.events + if answered && job.callback then [Event(i, a.cls, a.confidence, "llm")] else []
  {
  }

  // ---- The early exit of the spawner

  /** Positions spawned, counting one that passed its check but is not started yet. */
  function Committed(s: State): nat {
    s.next + if s.spawner.Spawning? then 1 else 0
  }

  lemma CommitStep(job: Job, s: State, a: Action)
    requires Inv(job, s) && Enabled(job, s, a) && |s.validated| >= job.maxResults
    ensures Committed(Next(job, s, a)) <= Committed(s)
  {
    match a
    case Spawn =>
    case Work(i, answered) => WorkFrame(job, s, i, answered);
  }

  /**
   * Once enough images are validated, at most the one position that already passed its check is
   * still spawned; in particular a non-positive limit spawns nothing at all.
   */
  lemma {:induction false} EarlyExit(job: Job, schedule: seq<Action>, more: seq<Action>)
    requires IsRun(job, schedule + more) && IsRun(job, schedule)
    requires |Exec(job, schedule).validated| >= job.maxResults
    ensures Committed(Exec(job, schedule + more)) <= Committed(Exec(job, schedule))
    ensures |Exec(job, schedule + more).validated| >= job.maxResults
  {
    if more == [] {
      assert schedule + more == schedule;
    } else {
      var front, a := more[..|more| - 1], more[|more| - 1];
      assert (schedule + more)[..|schedule + more| - 1] == schedule + front;
      EarlyExit(job, schedule, front);
      RunInv(job, schedule + front);
      CommitStep(job, Exec(job, schedule + front), a);
      ValidatedGrows(job, Exec(job, schedule + front), a);
    }
  }

  lemma NothingAskedNothingDone(job: Job, schedule: seq<Action>)
    requires IsRun(job, schedule) && job.maxResults <= 0
    ensures Exec(job, schedule).next == 0 && Exec(job, schedule).events == []
  {
    assert [] + schedule == schedule;
    EarlyExit(job, [], schedule);
    RunInv(job, schedule);
    UnspawnedAreSilent(job, Exec(job, schedule));
  }

  lemma UnspawnedAreSilent(job: Job, s: State)
    requires Shape(job, s) && Reported(job, s)
    ensures s.events == [] || s.next > 0
  {
    if s.events != [] {
      assert s.events[0] in s.events;
    }
  }

  // ---- An interpreter driven by an arbitrary scheduler

  /** The first enabled agent at or after `wish`, wrapping around; agent |facts| is the spawner. */
  method Choose(job: Job, s: State, wish: nat, answered: bool) returns (a: Action)
    requires |s.phases| == |job.facts|
    requires exists b :: Enabled(job, s, b)
    ensures Enabled(job, s, a)
  {
    var start := if wish < |s.phases| then wish else 0;
    a := Spawn;
    for i := start to |s.phases|
      invariant forall k, m | start <= k < i :: !Enabled(job, s, Work(k, m))
    {
      if Enabled(job, s, Work(i, answered)) {
        return Work(i, answered);
      }
    }
    if Enabled(job, s, Spawn) {
      return;
    }
    for i := 0 to start
      invariant forall k, m | 0 <= k < i :: !Enabled(job, s, Work(k, m))
    {
      if Enabled(job, s, Work(i, answered)) {
        return Work(i, answered);
      }
    }
    assert false;
  }

  /** Whatever the scheduler wishes, the pipeline halts, and its result is that of a complete run. */
  method ValidateCandidates(job: Job, wish: nat -> nat, answered: nat -> bool) returns (validated: seq<nat>)
    ensures exists schedule :: IsCompleteRun(job, schedule) && validated == Exec(job, schedule).validated
  {
    var s, step := Init(job), 0;
    ghost var schedule: seq<Action> := [];
    RunInv(job, schedule);
    RunsAreBounded(job, schedule);
    while !Final(s)
      invariant IsRun(job, schedule) && s == Exec(job, schedule)
      invariant Inv(job, s) && Measure(job, s) >= 0
      decreases Measure(job, s)
    {
      Progress(job, schedule);
      var a := Choose(job, s, wish(step), answered(step));
      RunSnoc(job, schedule, a);
      MeasureDrops(job, s, a);
      InvKept(job, s, a);
      schedule := schedule + [a];
      s, step := Next(job, s, a), step + 1;
    }
    validated := s.validated;
  }
}
