/** What every step of the validation pipeline keeps, for every interleaving. */
module PipelineInvariant {
  import opened Domain
  import opened Listings
  import opened Dedup
  import opened Pipeline

  // ---- The invariant, one concern at a time

  ghost predicate Shape(job: Job, s: State) {
    && |s.phases| == |job.facts|
    && s.next <= |job.facts|
    && (s.spawner.Spawning? ==> s.next < |job.facts|)
    && (forall i | 0 <= i < |s.phases| :: s.phases[i].Unspawned? <==> s.next <= i)
  }

  predicate PhaseOk(f: Facts, p: Phase) {
    match p
    case Running(stage) => Reaches(f, stage)
    case Releasing(o) => Justified(f, o)
    case Finished(o) => Justified(f, o)
    case _ => true
  }

  ghost predicate Local(job: Job, s: State) {
    && |s.phases| == |job.facts|
    && forall i | 0 <= i < |s.phases| :: PhaseOk(job.facts[i], s.phases[i])
  }

  predicate Holds(p: Phase) {
    p.Running? || p.Releasing?
  }

  /** Number of workers between taking and releasing a semaphore slot. */
  function Held(ps: seq<Phase>): nat {
    if ps == [] then 0 else Held(ps[..|ps| - 1]) + (if Holds(ps[|ps| - 1]) then 1 else 0)
  }

  ghost predicate Slots(s: State) {
    s.tokens == Held(s.phases) && s.tokens <= VALIDATION_SEMAPHORE
  }

  predicate Ended(p: Phase, o: Outcome) {
    p == Releasing(o) || p == Finished(o)
  }

  ghost predicate Results(job: Job, s: State) {
    && |s.validated| <= Max(0, job.maxResults)
    && (s.spawner.Stopped? ==> s.next == |job.facts| || |s.validated| >= job.maxResults)
    && Distinct(s.validated)
    && (forall v | v in s.validated :: v < |s.phases| && Ended(s.phases[v], Accepted))
    && (forall i | 0 <= i < |s.phases| && Ended(s.phases[i], Accepted) :: i in s.validated)
    && (forall i | 0 <= i < |s.phases| && Ended(s.phases[i], Dropped) :: |s.validated| >= job.maxResults)
  }

  /** The worker is past the comparison of hashes. */
  predicate Arrived(p: Phase) {
    match p
    case Running(stage) => stage.Assess? || stage.Reverse? || stage.Classify? || stage.Append?
    case Releasing(_) => true
    case Finished(_) => true
    case _ => false
  }

  ghost predicate ArrivalOk(job: Job, s: State, e: Entry)
    requires |s.phases| == |job.facts|
  {
    e.owner < |s.phases| && Arrived(s.phases[e.owner]) && Offers(job.facts[e.owner]) &&
    job.facts[e.owner].hash == Some(e.hash)
  }

  ghost predicate Compared(job: Job, s: State) {
    && |s.phases| == |job.facts|
    && s.stored == Greedy(s.arrivals)
    && (forall e | e in s.arrivals :: ArrivalOk(job, s, e))
    && (forall a, b | 0 <= a < b < |s.arrivals| :: s.arrivals[a].owner != s.arrivals[b].owner)
    && (forall i | 0 <= i < |s.phases| && Arrived(s.phases[i]) && Offers(job.facts[i]) ::
          Entry(i, job.facts[i].hash.value) in s.arrivals)
  }

  ghost predicate Sieved(job: Job, s: State) {
    && |s.phases| == |job.facts|
    && (forall e | e in s.stored :: ArrivalOk(job, s, e) && !Ended(s.phases[e.owner], Duplicate))
    && (forall i | 0 <= i < |s.phases| && Arrived(s.phases[i]) && Offers(job.facts[i]) ::
          if Ended(s.phases[i], Duplicate) then HasNear(s.stored, job.facts[i].hash.value)
          else Entry(i, job.facts[i].hash.value) in s.stored)
  }

  /** The event that a worker in this phase must already have reported, whoever answered its classification. */
  function Owed(f: Facts, i: nat, p: Phase): Option<Event> {
    if Ended(p, ExtraBlocked) || Ended(p, LicenseBlocked) then Some(Event(i, CLASS_STOCK, Finite(0.0), "license_assessment"))
    else if Ended(p, Pipeline.ReverseStock) then Some(Event(i, CLASS_STOCK, Finite(0.0), "reverse_stock"))
    else if f.verdict.Safe? && (p == Running(Append) || Ended(p, Accepted) || Ended(p, Dropped)) then
      Some(Event(i, CLASS_PHOTO, Finite(1.0), "license_assessment"))
    else None
  }

  /** Phases in which an unknown-license worker may have reported its model answer. */
  predicate Answered(p: Phase) {
    p == Running(Append) || Ended(p, Accepted) || Ended(p, Dropped) || Ended(p, WrongClass) || Ended(p, Panicked)
  }

  predicate EventOk(f: Facts, p: Phase, e: Event) {
    || Owed(f, e.position, p) == Some(e)
    || (&& f.verdict.Safe? && Ended(p, Panicked)
        && e == Event(e.position, CLASS_PHOTO, Finite(1.0), "license_assessment"))
    || (&& f.verdict.Unknown? && Answered(p)
        && e == Event(e.position, f.answer.cls, f.answer.confidence, "llm"))
  }

  ghost predicate Reported(job: Job, s: State) {
    && |s.phases| == |job.facts|
    && (!job.callback ==> s.events == [])
    && (forall e | e in s.events :: e.position < |s.phases| && EventOk(job.facts[e.position], s.phases[e.position], e))
    && (forall a, b | 0 <= a < b < |s.events| :: s.events[a].position != s.events[b].position)
    && (job.callback ==>
          forall i | 0 <= i < |s.phases| && Owed(job.facts[i], i, s.phases[i]).Some? ::
            Owed(job.facts[i], i, s.phases[i]).value in s.events)
  }

  ghost predicate Inv(job: Job, s: State) {
    Shape(job, s) && Local(job, s) && Slots(s) && Results(job, s) && Compared(job, s) && Sieved(job, s) && Reported(job, s)
  }

  // ---- Preservation

  lemma {:induction false} HeldUpdate(ps: seq<Phase>, i: nat, p: Phase)
    requires i < |ps|
    ensures Held(ps[i := p]) + (if Holds(ps[i]) then 1 else 0) == Held(ps) + (if Holds(p) then 1 else 0)
  {
    var n := |ps| - 1;
    if i < n {
      assert ps[i := p][..n] == ps[..n][i := p];
      HeldUpdate(ps[..n], i, p);
    } else {
      assert ps[i := p][..n] == ps[..n];
    }
  }

  lemma {:induction false} HeldNone(ps: seq<Phase>)
    ensures Held(ps) == 0 <==> forall i | 0 <= i < |ps| :: !Holds(ps[i])
  {
    if ps != [] {
      HeldNone(ps[..|ps| - 1]);
      assert ps == ps[..|ps| - 1] + [ps[|ps| - 1]];
    }
  }

  lemma InitInv(job: Job)
    ensures Inv(job, Init(job))
  {
    HeldNone(Init(job).phases);
  }

  /** A worker step changes the phase of its own position only, and never the spawner. */
  lemma WorkFrame(job: Job, s: State, i: nat, answered: bool)
    requires i < |s.phases| == |job.facts|
    ensures
      var s' := WorkStep(job, s, i, answered);
      && |s'.phases| == |s.phases| && s'.phases == s.phases[i := s'.phases[i]]
      && s'.spawner == s.spawner && s'.next == s.next
  {
  }

  /** Where one step can take a worker. */
  predicate Moves(f: Facts, p: Phase, p': Phase) {
    match p
    case Waiting => p' == Running(Probe)
    case Running(stage) =>
      || p' == After(f, stage)
      || (stage.Compare? && Survives(f, Compare) && f.hash.Some? && p' == Releasing(Duplicate))
      || (stage.Append? && Survives(f, Append) && p' == Releasing(Dropped))
    case Releasing(o) => p' == Finished(o)
    case _ => false
  }

  lemma WorkMoves(job: Job, s: State, i: nat, answered: bool)
    requires i < |s.phases| == |job.facts| && Enabled(job, s, Work(i, answered))
    ensures Moves(job.facts[i], s.phases[i], WorkStep(job, s, i, answered).phases[i])
  {
  }

  lemma MovesOk(f: Facts, p: Phase, p': Phase)
    requires Moves(f, p, p') && PhaseOk(f, p)
    ensures PhaseOk(f, p') && !p'.Unspawned? && !p.Unspawned?
  {
  }

  lemma ShapeKept(job: Job, s: State, a: Action)
    requires Shape(job, s) && Local(job, s) && Enabled(job, s, a)
    ensures Shape(job, Next(job, s, a)) && Local(job, Next(job, s, a))
  {
    match a
    case Spawn =>
    case Work(i, answered) =>
      WorkFrame(job, s, i, answered);
      WorkMoves(job, s, i, answered);
      MovesOk(job.facts[i], s.phases[i], WorkStep(job, s, i, answered).phases[i]);
  }

  lemma WorkTokens(job: Job, s: State, i: nat, answered: bool)
    requires i < |s.phases| == |job.facts| && Enabled(job, s, Work(i, answered))
    requires s.phases[i].Releasing? ==> s.tokens > 0
    ensures
      var s' := WorkStep(job, s, i, answered);
      && s'.tokens + (if Holds(s.phases[i]) then 1 else 0) == s.tokens + (if Holds(s'.phases[i]) then 1 else 0)
      && (s.tokens <= VALIDATION_SEMAPHORE ==> s'.tokens <= VALIDATION_SEMAPHORE)
  {
  }

  lemma SlotsKept(job: Job, s: State, a: Action)
    requires Shape(job, s) && Slots(s) && Enabled(job, s, a)
    ensures Slots(Next(job, s, a))
  {
    match a
    case Spawn =>
      if s.spawner.Spawning? {
        HeldUpdate(s.phases, s.next, Waiting);
      }
    case Work(i, answered) =>
      HeldNone(s.phases);
      WorkFrame(job, s, i, answered);
      WorkTokens(job, s, i, answered);
      HeldUpdate(s.phases, i, WorkStep(job, s, i, answered).phases[i]);
  }

  /** Only the append step of a worker changes the result list or decides between Accepted and Dropped. */
  lemma WorkResults(job: Job, s: State, i: nat, answered: bool)
    requires i < |s.phases| == |job.facts| && Enabled(job, s, Work(i, answered))
    ensures
      var s', p := WorkStep(job, s, i, answered), s.phases[i];
      var p' := s'.phases[i];
      || (&& s'.validated == s.validated
          && (Ended(p', Accepted) <==> Ended(p, Accepted))
          && (Ended(p', Dropped) ==> Ended(p, Dropped) || |s.validated| >= job.maxResults))
      || (&& s'.validated == s.validated + [i] && |s.validated| < job.maxResults
          && p == Running(Append) && Ended(p', Accepted))
  {
  }

  lemma ResultsKept(job: Job, s: State, a: Action)
    requires Shape(job, s) && Results(job, s) && Enabled(job, s, a)
    ensures Results(job, Next(job, s, a))
  {
    match a
    case Spawn =>
    case Work(i, answered) =>
      WorkFrame(job, s, i, answered);
      WorkResults(job, s, i, answered);
      var s' := WorkStep(job, s, i, answered);
      assert |s'.validated| > |s.validated| ==> i !in s.validated;
  }

  lemma AfterArrival(f: Facts, stage: Stage)
    requires Reaches(f, stage) && !stage.Compare?
    ensures Arrived(Running(stage)) ==> Arrived(After(f, stage))
    ensures Arrived(After(f, stage)) && Offers(f) ==> Arrived(Running(stage))
    ensures !Ended(After(f, stage), Duplicate)
  {
  }

  /** Only the compare step of a worker that offers a hash touches the deduplication list. */
  lemma WorkCompared(job: Job, s: State, i: nat, answered: bool)
    requires i < |s.phases| == |job.facts| && Enabled(job, s, Work(i, answered))
    requires PhaseOk(job.facts[i], s.phases[i])
    ensures
      var s', p, f := WorkStep(job, s, i, answered), s.phases[i], job.facts[i];
      var p' := s'.phases[i];
      && (Arrived(p) ==> Arrived(p'))
      && (|| (&& s'.stored == s.stored && s'.arrivals == s.arrivals
              && (Arrived(p') && Offers(f) ==> Arrived(p))
              && (Ended(p', Duplicate) <==> Ended(p, Duplicate)))
          || (&& Offers(f) && p == Running(Compare) && Arrived(p')
              && s'.arrivals == s.arrivals + [Entry(i, f.hash.value)]
              && s'.stored == Offer(s.stored, Entry(i, f.hash.value))
              && (Ended(p', Duplicate) <==> HasNear(s.stored, f.hash.value))))
  {
    if s.phases[i].Running? && !s.phases[i].stage.Compare? {
      AfterArrival(job.facts[i], s.phases[i].stage);
    }
  }

  lemma ComparedSame(job: Job, s: State, s': State, i: nat)
    requires Compared(job, s) && i < |s.phases|
    requires |s'.phases| == |s.phases| && s'.phases == s.phases[i := s'.phases[i]]
    requires s'.stored == s.stored && s'.arrivals == s.arrivals
    requires Arrived(s.phases[i]) ==> Arrived(s'.phases[i])
    requires Arrived(s'.phases[i]) && Offers(job.facts[i]) ==> Arrived(s.phases[i])
    ensures Compared(job, s')
  {
    forall e | e in s'.arrivals
      ensures ArrivalOk(job, s', e)
    {
      assert ArrivalOk(job, s, e);
    }
  }

  lemma ComparedMore(job: Job, s: State, s': State, i: nat, e: Entry)
    requires Compared(job, s) && i < |s.phases| && !Arrived(s.phases[i])
    requires |s'.phases| == |s.phases| && s'.phases == s.phases[i := s'.phases[i]]
    requires Offers(job.facts[i]) && e == Entry(i, job.facts[i].hash.value)
    requires s'.stored == Offer(s.stored, e) && s'.arrivals == s.arrivals + [e] && Arrived(s'.phases[i])
    ensures Compared(job, s')
  {
    GreedySnoc(s.arrivals, e);
    forall x | x in s'.arrivals
      ensures ArrivalOk(job, s', x)
    {
      assert x == e || ArrivalOk(job, s, x);
    }
    forall a, b | 0 <= a < b < |s'.arrivals|
      ensures s'.arrivals[a].owner != s'.arrivals[b].owner
    {
      assert s.arrivals[a] in s.arrivals;
      assert ArrivalOk(job, s, s.arrivals[a]);
    }
  }

  lemma ComparedSpawn(job: Job, s: State)
    requires Shape(job, s) && Compared(job, s) && s.spawner.Spawning?
    ensures Compared(job, SpawnStep(job, s))
  {
    ComparedSame(job, s, SpawnStep(job, s), s.next);
  }

  lemma ComparedKept(job: Job, s: State, a: Action)
    requires Shape(job, s) && Local(job, s) && Compared(job, s) && Enabled(job, s, a)
    ensures Compared(job, Next(job, s, a))
  {
    match a
    case Spawn =>
      if s.spawner.Spawning? {
        ComparedSpawn(job, s);
      }
    case Work(i, answered) =>
      WorkFrame(job, s, i, answered);
      WorkCompared(job, s, i, answered);
      var s' := WorkStep(job, s, i, answered);
      if s'.arrivals != s.arrivals {
        ComparedMore(job, s, s', i, Entry(i, job.facts[i].hash.value));
      } else {
        ComparedSame(job, s, s', i);
      }
  }

  lemma NearGrows(stored: seq<Entry>, e: Entry, h: Hash)
    ensures HasNear(stored, h) ==> HasNear(Offer(stored, e), h)
  {
    if HasNear(stored, h) {
      var k :| 0 <= k < |stored| && Near(h, stored[k].hash);
      assert Offer(stored, e)[k] == stored[k];
    }
  }

  lemma SievedKept(job: Job, s: State, a: Action)
    requires Shape(job, s) && Local(job, s) && Sieved(job, s) && Enabled(job, s, a)
    ensures Sieved(job, Next(job, s, a))
  {
    match a
    case Spawn =>
    case Work(i, answered) =>
      WorkFrame(job, s, i, answered);
      WorkCompared(job, s, i, answered);
      var s' := WorkStep(job, s, i, answered);
      if s'.arrivals != s.arrivals {
        var e := Entry(i, job.facts[i].hash.value);
        forall j | 0 <= j < |s.phases| && Offers(job.facts[j])
          ensures HasNear(s.stored, job.facts[j].hash.value) ==> HasNear(s'.stored, job.facts[j].hash.value)
        {
          NearGrows(s.stored, e, job.facts[j].hash.value);
        }
      }
  }

  /** The event, if any, that the worker's next step reports. */
  function NextReport(f: Facts, i: nat, p: Phase, answered: bool): Option<Event> {
    if p.Running? then Report(f, i, p.stage, answered) else None
  }

  lemma WorkEvents(job: Job, s: State, i: nat, answered: bool)
    requires i < |s.phases| == |job.facts|
    ensures WorkStep(job, s, i, answered).events == Emit(job, s.events, NextReport(job.facts[i], i, s.phases[i], answered))
  {
  }

  /** A step that reports is the first to do so, and reports what is then owed. */
  lemma ReportsOnce(f: Facts, i: nat, p: Phase, p': Phase, answered: bool, e: Event)
    requires Moves(f, p, p') && PhaseOk(f, p) && e.position == i && NextReport(f, i, p, answered).Some?
    ensures
      var r := NextReport(f, i, p, answered);
      && !EventOk(f, p, e) && EventOk(f, p', r.value) && r.value.position == i
      && (Owed(f, i, p').None? || Owed(f, i, p') == r)
  {
  }

  /** A silent step owes nothing new and keeps earlier reports accurate. */
  lemma SilenceKeeps(f: Facts, i: nat, p: Phase, p': Phase, answered: bool, e: Event)
    requires Moves(f, p, p') && PhaseOk(f, p) && e.position == i && NextReport(f, i, p, answered).None?
    ensures Owed(f, i, p').None? || Owed(f, i, p') == Owed(f, i, p)
    ensures EventOk(f, p, e) ==> EventOk(f, p', e)
  {
    OwedStays(f, i, p, p', answered);
    AnswerStays(f, p, p');
    if Owed(f, i, p).Some? && Owed(f, i, p').None? {
      assert p == Running(Append) && Ended(p', Panicked);
    }
  }

  lemma OwedStays(f: Facts, i: nat, p: Phase, p': Phase, answered: bool)
    requires Moves(f, p, p') && PhaseOk(f, p) && NextReport(f, i, p, answered).None?
    ensures Owed(f, i, p').None? || Owed(f, i, p') == Owed(f, i, p)
    ensures Owed(f, i, p).Some? && Owed(f, i, p').None? ==> p == Running(Append) && Ended(p', Panicked)
  {
  }

  /** Having answered, and having ended in a panic, are final. */
  lemma AnswerStays(f: Facts, p: Phase, p': Phase)
    requires Moves(f, p, p')
    ensures Answered(p) ==> Answered(p')
    ensures Ended(p, Panicked) ==> Ended(p', Panicked)
  {
  }

  lemma ReportStep(f: Facts, i: nat, p: Phase, p': Phase, answered: bool, e: Event)
    requires Moves(f, p, p') && PhaseOk(f, p) && e.position == i
    ensures
      var r := NextReport(f, i, p, answered);
      && (r.Some? ==> !EventOk(f, p, e) && EventOk(f, p', r.value) && r.value.position == i)
      && (r.Some? ==> Owed(f, i, p').None? || Owed(f, i, p') == r)
      && (r.None? ==> Owed(f, i, p').None? || Owed(f, i, p') == Owed(f, i, p))
      && (r.None? && EventOk(f, p, e) ==> EventOk(f, p', e))
  {
    if NextReport(f, i, p, answered).Some? {
      ReportsOnce(f, i, p, p', answered, e);
    } else {
      SilenceKeeps(f, i, p, p', answered, e);
    }
  }

  lemma ReportedUpdate(job: Job, s: State, s': State, i: nat, answered: bool)
    requires Local(job, s) && Reported(job, s) && i < |s.phases|
    requires |s'.phases| == |s.phases| && s'.phases == s.phases[i := s'.phases[i]]
    requires Moves(job.facts[i], s.phases[i], s'.phases[i])
    requires s'.events == Emit(job, s.events, NextReport(job.facts[i], i, s.phases[i], answered))
    ensures Reported(job, s')
  {
    var f, p, p' := job.facts[i], s.phases[i], s'.phases[i];
    var r := NextReport(f, i, p, answered);
    ReportStep(f, i, p, p', answered, Event(i, "", NaN, ""));
    forall e | e in s.events
      ensures e.position < |s.phases| && EventOk(job.facts[e.position], s'.phases[e.position], e)
      ensures r.Some? ==> e.position != i
    {
      if e.position == i {
        ReportStep(f, i, p, p', answered, e);
      }
    }
    forall k | 0 <= k < |s.events|
      ensures r.Some? ==> s.events[k].position != i
    {
      assert s.events[k] in s.events;
    }
  }

  /** A worker that has not started has nothing to report. */
  lemma QuietPhase(f: Facts, p: Phase, e: Event)
    requires p.Unspawned? || p.Waiting?
    ensures Owed(f, e.position, p).None? && !EventOk(f, p, e)
  {
  }

  lemma ReportedSpawn(job: Job, s: State)
    requires Shape(job, s) && Reported(job, s) && s.spawner.Spawning?
    ensures Reported(job, SpawnStep(job, s))
  {
    var f, s' := job.facts[s.next], SpawnStep(job, s);
    forall e | e in s.events
      ensures e.position != s.next
    {
      if e.position == s.next {
        QuietPhase(f, s.phases[s.next], e);
      }
    }
    QuietPhase(f, Waiting, Event(s.next, "", NaN, ""));
  }

  lemma ReportedKept(job: Job, s: State, a: Action)
    requires Shape(job, s) && Local(job, s) && Reported(job, s) && Enabled(job, s, a)
    ensures Reported(job, Next(job, s, a))
  {
    match a
    case Spawn =>
      if s.spawner.Spawning? {
        ReportedSpawn(job, s);
      }
    case Work(i, answered) =>
      WorkFrame(job, s, i, answered);
      WorkMoves(job, s, i, answered);
      WorkEvents(job, s, i, answered);
      ReportedUpdate(job, s, WorkStep(job, s, i, answered), i, answered);
  }

  lemma InvKept(job: Job, s: State, a: Action)
    requires Inv(job, s) && Enabled(job, s, a)
    ensures Inv(job, Next(job, s, a))
  {
    ShapeKept(job, s, a);
    SlotsKept(job, s, a);
    ResultsKept(job, s, a);
    ComparedKept(job, s, a);
    SievedKept(job, s, a);
    ReportedKept(job, s, a);
  }

  lemma {:induction false} RunInv(job: Job, schedule: seq<Action>)
    requires IsRun(job, schedule)
    ensures Inv(job, Exec(job, schedule))
  {
    if schedule == [] {
      InitInv(job);
    } else {
      var front, a := schedule[..|schedule| - 1], schedule[|schedule| - 1];
      RunInv(job, front);
      InvKept(job, Exec(job, front), a);
    }
  }
}
