/**
 * The concurrent validation pipeline as a transition system.
 *
 * One spawner walks the input, re-checking under the lock whether enough images were accepted;
 * one worker per spawned input takes a semaphore slot, runs the filter stages and releases the slot.
 * Every lock-protected region is one step, so a run is an arbitrary interleaving of agents' steps.
 */
module Pipeline {
  import opened Domain
  import opened Dedup

  const VALIDATION_SEMAPHORE: nat := 3

  /** The places where a worker performs an outside call (and where such a call may panic). */
  datatype Stage = Probe | Screen | Fetch | Compare | Assess | Reverse | Classify | Append

  /** What the outside world and the license logic say about one input position. */
  datatype Facts = Facts(
    probe: bool,            // the HTTP probe accepts the URL
    preBlocked: bool,       // the extra-domain pre-check rejects it
    hash: Option<Hash>,     // decoded and hashed; None when either failed
    verdict: License,       // AssessLicense on the downloaded metadata
    reverseStock: bool,     // the reverse image search found a stock site
    answer: ClassificationResult, // the vision classification
    panicAt: Option<Stage>) // the stage whose call panics, if any

  datatype Job = Job(facts: seq<Facts>, maxResults: int, callback: bool)

  datatype Outcome =
    | Accepted        // appended
    | Dropped         // passed every filter, but the result list was already full
    | ProbeFailed
    | ExtraBlocked
    | Duplicate
    | LicenseBlocked
    | ReverseStock
    | WrongClass
    | Panicked

  /** `Running` and `Releasing` hold a semaphore slot. */
  datatype Phase =
    | Unspawned
    | Waiting
    | Running(stage: Stage)
    | Releasing(outcome: Outcome)
    | Finished(outcome: Outcome)

  datatype Spawner = Checking | Spawning | Stopped

  datatype Event = Event(position: nat, cls: string, confidence: Float, source: string)

  /** `arrivals` is a history variable: the hashes in the order in which they were compared. */
  datatype State = State(
    spawner: Spawner,
    next: nat,
    phases: seq<Phase>,
    tokens: nat,
    validated: seq<nat>,
    stored: seq<Entry>,
    arrivals: seq<Entry>,
    events: seq<Event>)

  /**
   * The spawner, or the worker of one position. `answered` says that the model itself answered the
   * worker's classification: not the cache, and it was neither missing nor failing nor without data.
   */
  datatype Action = Spawn | Work(position: nat, answered: bool)

  function Init(job: Job): State {
    State(Checking, 0, seq(|job.facts|, i => Unspawned), 0, [], [], [], [])
  }

  predicate Usable(cls: string) {
    cls == CLASS_PHOTO || cls == ""
  }

  predicate Enabled(job: Job, s: State, a: Action) {
    match a
    case Spawn => !s.spawner.Stopped?
    case Work(i, _) =>
      && i < |s.phases|
      && match s.phases[i] {
           case Unspawned => false
           case Waiting => s.tokens < VALIDATION_SEMAPHORE
           case Running(_) => true
           case Releasing(_) => true
           case Finished(_) => false
         }
  }

  // ---- The steps

  function SpawnStep(job: Job, s: State): State {
    match s.spawner
    case Checking =>
      if s.next >= |job.facts| || |s.validated| >= job.maxResults then s.(spawner := Stopped)
      else s.(spawner := Spawning)
    case Spawning =>
      if s.next < |s.phases| then
        s.(spawner := Checking, next := s.next + 1, phases := s.phases[s.next := Waiting])
      else s
    case Stopped => s
  }

  /** Where the worker of a position with facts `f` goes from `stage`, as far as its own facts decide. */
  function After(f: Facts, stage: Stage): Phase {
    if f.panicAt == Some(stage) then Releasing(Panicked)
    else
      match stage
      case Probe => if f.probe then Running(Screen) else Releasing(ProbeFailed)
      case Screen => if f.preBlocked then Releasing(ExtraBlocked) else Running(Fetch)
      case Fetch => Running(Compare)
      case Compare => Running(Assess)
      case Assess =>
        (match f.verdict
         case Blocked => Releasing(LicenseBlocked)
         case Safe => Running(Append)
         case Unknown => Running(Reverse))
      case Reverse => if f.reverseStock then Releasing(ReverseStock) else Running(Classify)
      case Classify => if Usable(f.answer.cls) then Running(Append) else Releasing(WrongClass)
      case Append => Releasing(Accepted)
  }

  /** The audit event of leaving `stage`, if the stage reports one. */
  function Report(f: Facts, i: nat, stage: Stage, answered: bool): Option<Event> {
    if f.panicAt == Some(stage) then None
    else
      match stage
      case Screen => if f.preBlocked then Some(Event(i, CLASS_STOCK, Finite(0.0), "license_assessment")) else None
      case Assess =>
        (match f.verdict
         case Blocked => Some(Event(i, CLASS_STOCK, Finite(0.0), "license_assessment"))
         case Safe => Some(Event(i, CLASS_PHOTO, Finite(1.0), "license_assessment"))
         case Unknown => None)
      case Reverse => if f.reverseStock then Some(Event(i, CLASS_STOCK, Finite(0.0), "reverse_stock")) else None
      case Classify => if answered then Some(Event(i, f.answer.cls, f.answer.confidence, "llm")) else None
      case _ => None
  }

  function Emit(job: Job, events: seq<Event>, e: Option<Event>): seq<Event> {
    if job.callback && e.Some? then events + [e.value] else events
  }

  function CompareStep(f: Facts, s: State, i: nat): State
    requires i < |s.phases|
  {
    if f.panicAt == Some(Compare) || f.hash.None? then s.(phases := s.phases[i := After(f, Compare)])
    else
      var e := Entry(i, f.hash.value);
      s.(phases := s.phases[i := if HasNear(s.stored, e.hash) then Releasing(Duplicate) else Running(Assess)],
         stored := Offer(s.stored, e),
         arrivals := s.arrivals + [e])
  }

  function AppendStep(job: Job, f: Facts, s: State, i: nat): State
    requires i < |s.phases|
  {
    if f.panicAt == Some(Append) then s.(phases := s.phases[i := Releasing(Panicked)])
    else if |s.validated| < job.maxResults then
      s.(phases := s.phases[i := Releasing(Accepted)], validated := s.validated + [i])
    else s.(phases := s.phases[i := Releasing(Dropped)])
  }

  function RunStep(job: Job, f: Facts, s: State, i: nat, stage: Stage, answered: bool): State
    requires i < |s.phases|
  {
    match stage
    case Compare => CompareStep(f, s, i)
    case Append => AppendStep(job, f, s, i)
    case _ =>
      s.(phases := s.phases[i := After(f, stage)], events := Emit(job, s.events, Report(f, i, stage, answered)))
  }

  function WorkStep(job: Job, s: State, i: nat, answered: bool): State
    requires i < |s.phases| == |job.facts|
  {
    match s.phases[i]
    case Waiting => s.(phases := s.phases[i := Running(Probe)], tokens := s.tokens + 1)
    case Running(stage) => RunStep(job, job.facts[i], s, i, stage, answered)
    case Releasing(o) => s.(phases := s.phases[i := Finished(o)], tokens := Max(0, s.tokens - 1))
    case _ => s
  }

  function Next(job: Job, s: State, a: Action): State {
    match a
    case Spawn => SpawnStep(job, s)
    case Work(i, answered) => if i < |s.phases| == |job.facts| then WorkStep(job, s, i, answered) else s
  }

  // ---- Runs

  /** The state after the given interleaving. */
  function Exec(job: Job, schedule: seq<Action>): State {
    if schedule == [] then Init(job)
    else Next(job, Exec(job, schedule[..|schedule| - 1]), schedule[|schedule| - 1])
  }

  /** Every action of the interleaving was enabled when taken. */
  predicate IsRun(job: Job, schedule: seq<Action>) {
    schedule == [] ||
    (IsRun(job, schedule[..|schedule| - 1]) &&
     Enabled(job, Exec(job, schedule[..|schedule| - 1]), schedule[|schedule| - 1]))
  }

  /** The spawner has left its loop and the wait group is empty. */
  predicate Final(s: State) {
    s.spawner.Stopped? && forall i | 0 <= i < |s.phases| :: s.phases[i].Unspawned? || s.phases[i].Finished?
  }

  ghost predicate IsCompleteRun(job: Job, schedule: seq<Action>) {
    IsRun(job, schedule) && Final(Exec(job, schedule))
  }

  lemma RunSnoc(job: Job, schedule: seq<Action>, a: Action)
    requires IsRun(job, schedule) && Enabled(job, Exec(job, schedule), a)
    ensures IsRun(job, schedule + [a])
    ensures Exec(job, schedule + [a]) == Next(job, Exec(job, schedule), a)
  {
    assert (schedule + [a])[..|schedule|] == schedule;
  }

  // ---- What one position's facts entail

  predicate Survives(f: Facts, stage: Stage) {
    f.panicAt != Some(stage)
  }

  predicate Screened(f: Facts) {
    Survives(f, Probe) && f.probe && Survives(f, Screen) && !f.preBlocked
  }

  predicate Assessed(f: Facts) {
    Screened(f) && Survives(f, Fetch) && Survives(f, Compare) && Survives(f, Assess)
  }

  predicate Unjudged(f: Facts) {
    Assessed(f) && f.verdict.Unknown?
  }

  /** Assessed Safe, or unknown and then neither reverse-stock nor classed as something unusable. */
  predicate Cleared(f: Facts) {
    || (Assessed(f) && f.verdict.Safe?)
    || (Unjudged(f) && Survives(f, Reverse) && !f.reverseStock && Survives(f, Classify) && Usable(f.answer.cls))
  }

  /** The position's own facts let its worker reach `stage`. */
  predicate Reaches(f: Facts, stage: Stage) {
    match stage
    case Probe => true
    case Screen => Survives(f, Probe) && f.probe
    case Fetch => Screened(f)
    case Compare => Screened(f) && Survives(f, Fetch)
    case Assess => Screened(f) && Survives(f, Fetch) && Survives(f, Compare)
    case Reverse => Unjudged(f)
    case Classify => Unjudged(f) && Survives(f, Reverse) && !f.reverseStock
    case Append => Cleared(f)
  }

  /** Everything but deduplication and the result cap lets the position through. */
  predicate Acceptable(f: Facts) {
    Reaches(f, Append) && Survives(f, Append)
  }

  /** The position's hash takes part in deduplication. */
  predicate Offers(f: Facts) {
    Reaches(f, Compare) && Survives(f, Compare) && f.hash.Some?
  }

  /** The outcome is one that the position's own facts justify. */
  predicate Justified(f: Facts, o: Outcome) {
    match o
    case Accepted => Acceptable(f)
    case Dropped => Acceptable(f)
    case ProbeFailed => Survives(f, Probe) && !f.probe
    case ExtraBlocked => Reaches(f, Screen) && Survives(f, Screen) && f.preBlocked
    case Duplicate => Offers(f)
    case LicenseBlocked => Assessed(f) && f.verdict.Blocked?
    case ReverseStock => Unjudged(f) && Survives(f, Reverse) && f.reverseStock
    case WrongClass => Reaches(f, Classify) && Survives(f, Classify) && !Usable(f.answer.cls)
    case Panicked => f.panicAt.Some? && Reaches(f, f.panicAt.value)
  }
}
