// The resumable dispatcher of scripts/evaluate_note_models.py as a transition
// system. Every step is the code between two suspension points of one
// coroutine, or the start or the end of one process on the run directory.
module Dispatcher {
  import opened Wrappers
  import opened AttemptLog

  // The dispatch rules of a run.
  datatype Policy = Policy(
    maxRetries: nat,
    concurrency: nat,
    stopOnRateLimit: bool,
    documented: bool)

  // The pinned run inputs (manifest.json) that the protocol reads.
  datatype Manifest = Manifest(
    cases: seq<string>,
    variants: seq<(string, string)>,
    repeats: nat,
    policy: Policy)

  predicate PolicyOk(p: Policy) {
    && 1 <= p.concurrency <= 6
    && p.maxRetries <= 3
    && (p.documented ==> p.concurrency == 1 && p.maxRetries == 0)
  }

  // What evaluate() accepts before it touches the run directory.
  ghost predicate Accepted(m: Manifest) {
    && m.cases != [] && Distinct(m.cases)
    && m.variants != [] && Distinct(m.variants)
    && 1 <= m.repeats <= 10
    && PolicyOk(m.policy)
  }

  // The job product, in the order of the comprehension.
  function JobsOfCase(c: string, variants: seq<(string, string)>, repeat: nat): (r: seq<Job>)
    ensures |r| == |variants|
    ensures forall i :: 0 <= i < |r| ==> r[i] == Job(c, variants[i].0, variants[i].1, repeat)
  {
    if variants == [] then []
    else [Job(c, variants[0].0, variants[0].1, repeat)] + JobsOfCase(c, variants[1..], repeat)
  }

  function JobsOfRepeat(cases: seq<string>, variants: seq<(string, string)>, repeat: nat): seq<Job> {
    if cases == [] then []
    else JobsOfCase(cases[0], variants, repeat) + JobsOfRepeat(cases[1..], variants, repeat)
  }

  function JobsUpTo(cases: seq<string>, variants: seq<(string, string)>, repeats: nat): seq<Job> {
    if repeats == 0 then []
    else JobsUpTo(cases, variants, repeats - 1) + JobsOfRepeat(cases, variants, repeats)
  }

  function Jobs(m: Manifest): seq<Job> {
    JobsUpTo(m.cases, m.variants, m.repeats)
  }

  // Where a coroutine run(job) is suspended. `round` is the loop variable
  // `retry`; `attempt` the number run_once computed before it queued; `calls` the
  // provider calls this attempt has begun: one, and a second one when the first
  // output is to be repaired, or none when the attempt fails before its first.
  datatype Phase =
    | Idle
    | Waiting(round: nat, attempt: nat)
    | InFlight(round: nat, attempt: nat, calls: nat)
    | BackingOff(round: nat)
    | Done

  // The run directory (manifest, result writes, stopped-<model>.json); the
  // volatile state of the live process, if there is one; and four history
  // variables: attempts begun, provider calls begun, attempts whose result was
  // never written, and processes that ended.
  datatype State = State(
    manifest: Option<Manifest>,
    log: seq<Entry>,
    markers: set<string>,
    live: bool,
    retryFailed: bool,
    phases: map<Job, Phase>,
    rateLimited: bool,
    stopped: set<string>,
    attempts: nat,
    calls: nat,
    lostAttempts: nat,
    ended: nat)

  const INITIAL := State(None, [], {}, false, false, map[], false, {}, 0, 0, 0, 0)

  // Start and Stop are a process taking and leaving the run lock, however it
  // ends; the others are one coroutine running to its next suspension point.
  // `calling` says whether the attempt reaches its first provider call.
  datatype Step =
    | Start(manifest: Manifest, retryFailed: bool)
    | Stop
    | Enter(job: Job)
    | Acquire(job: Job, calling: bool)
    | AskRepair(job: Job)
    | Complete(job: Job, outcome: Outcome)
    | Wake(job: Job)

  function InFlightJobs(phases: map<Job, Phase>): set<Job> {
    set j | j in phases && phases[j].InFlight?
  }

  // Attempts that may still ask for a repair.
  function RepairableJobs(phases: map<Job, Phase>): set<Job> {
    set j | j in phases && phases[j].InFlight? && phases[j].calls == 1
  }

  // run_once up to the semaphore: the attempt number to queue for, if any.
  function Admit(p: Policy, log: seq<Entry>, job: Job, retryFailed: bool, retry: bool): Option<nat> {
    var previous := Listing(log, job);
    if previous != [] && (!(retryFailed || retry) || AnySucceeded(previous)) then None
    else if |previous| >= 1 + p.maxRetries then None
    else if previous != [] && !previous[|previous| - 1].outcome.Retryable() then None
    else Some(|previous| + 1)
  }

  function Queued(admitted: Option<nat>, round: nat): Phase {
    match admitted
    case None => Done
    case Some(attempt) => Waiting(round, attempt)
  }

  // run() after run_once returned the saved record.
  function AfterResult(p: Policy, outcome: Outcome, attempt: nat, round: nat, rateLimited: bool): Phase {
    if !outcome.Retryable() || rateLimited || attempt >= p.maxRetries + 1 then Done
    else BackingOff(round)
  }

  function MoveTo(s: State, job: Job, phase: Phase): State {
    s.(phases := s.phases[job := phase])
  }

  function EnterStep(p: Policy, s: State, job: Job): State {
    MoveTo(s, job, Queued(Admit(p, s.log, job, s.retryFailed, false), 0))
  }

  function AcquireStep(s: State, job: Job, calling: bool): State
    requires job in s.phases && s.phases[job].Waiting?
  {
    if s.rateLimited || job.model in s.stopped then MoveTo(s, job, Done)
    else
      var begun := if calling then 1 else 0;
      MoveTo(s, job, InFlight(s.phases[job].round, s.phases[job].attempt, begun))
        .(attempts := s.attempts + 1, calls := s.calls + begun)
  }

  // The service rejected the first output and calls the provider again. Neither
  // stop is looked at.
  function RepairStep(s: State, job: Job): State
    requires job in s.phases && s.phases[job].InFlight?
  {
    MoveTo(s, job, s.phases[job].(calls := 2)).(calls := s.calls + 1)
  }

  function CompleteStep(p: Policy, s: State, job: Job, outcome: Outcome): State
    requires job in s.phases && s.phases[job].InFlight?
  {
    var InFlight(round, attempt, _) := s.phases[job];
    var fatal := p.documented && outcome.Fatal();
    var limited := s.rateLimited || (p.stopOnRateLimit && outcome.RateLimited());
    MoveTo(s, job, AfterResult(p, outcome, attempt, round, limited))
      .(log := s.log + [Entry(job, attempt, outcome)],
        rateLimited := limited,
        markers := if fatal then s.markers + {job.model} else s.markers,
        stopped := if fatal then s.stopped + {job.model} else s.stopped)
  }

  function WakeStep(p: Policy, s: State, job: Job): State
    requires job in s.phases && s.phases[job].BackingOff?
  {
    var round := s.phases[job].round + 1;
    if round > p.maxRetries then MoveTo(s, job, Done)
    else MoveTo(s, job, Queued(Admit(p, s.log, job, s.retryFailed, true), round))
  }

  predicate Enabled(p: Policy, s: State, step: Step)
    requires !step.Start? && !step.Stop?
  {
    && step.job in s.phases
    && match step
       case Enter(job) => s.phases[job].Idle?
       case Acquire(job, _) => s.phases[job].Waiting? && |InFlightJobs(s.phases)| < p.concurrency
       case AskRepair(job) => job in RepairableJobs(s.phases)
       case Complete(job, _) => s.phases[job].InFlight?
       case Wake(job) => s.phases[job].BackingOff?
  }

  function JobStep(p: Policy, s: State, step: Step): State
    requires !step.Start? && !step.Stop? && Enabled(p, s, step)
  {
    match step
    case Enter(job) => EnterStep(p, s, job)
    case Acquire(job, calling) => AcquireStep(s, job, calling)
    case AskRepair(job) => RepairStep(s, job)
    case Complete(job, outcome) => CompleteStep(p, s, job, outcome)
    case Wake(job) => WakeStep(p, s, job)
  }

  // run_lock refuses a second process and prepare_run refuses other inputs.
  ghost predicate MayStart(s: State, m: Manifest) {
    !s.live && Accepted(m) && (s.manifest.Some? ==> s.manifest.value == m)
  }

  function StartStep(s: State, m: Manifest, retryFailed: bool): State {
    s.(manifest := Some(m),
       live := true,
       retryFailed := retryFailed,
       phases := map j | j in Elements(Jobs(m)) :: Idle,
       rateLimited := false,
       stopped := if m.policy.documented then s.markers else {})
  }

  function StopStep(s: State): State {
    s.(live := false,
       phases := map[],
       rateLimited := false,
       stopped := {},
       lostAttempts := s.lostAttempts + |InFlightJobs(s.phases)|,
       ended := s.ended + 1)
  }

  // A step that is not enabled leaves the state unchanged.
  ghost function Apply(s: State, step: Step): State {
    match step
    case Start(m, retryFailed) => if MayStart(s, m) then StartStep(s, m, retryFailed) else s
    case Stop => if s.live then StopStep(s) else s
    case _ =>
      if s.live && s.manifest.Some? && Enabled(s.manifest.value.policy, s, step)
      then JobStep(s.manifest.value.policy, s, step)
      else s
  }

  ghost function Execute(s: State, steps: seq<Step>): State
    decreases |steps|
  {
    if steps == [] then s
    else Apply(Execute(s, steps[..|steps| - 1]), steps[|steps| - 1])
  }
}
