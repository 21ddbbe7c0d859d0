// What every reachable state of the dispatcher satisfies, over every
// interleaving of the coroutines and every sequence of processes.
module DispatcherInvariant {
  import opened Wrappers
  import opened AttemptLog
  import opened Dispatcher

  // Nothing is left to try for the job.
  predicate Settled(p: Policy, files: seq<Entry>) {
    && files != []
    && (AnySucceeded(files) || !files[|files| - 1].outcome.Retryable() || |files| == 1 + p.maxRetries)
  }

  ghost predicate FilesOk(p: Policy, log: seq<Entry>) {
    forall j :: JobFilesOk(Listing(log, j), j, p.maxRetries)
  }

  // After a fatal result of a model no further result of that model is written.
  ghost predicate FatalLast(log: seq<Entry>) {
    forall i, j :: 0 <= i < j < |log| && log[i].outcome.Fatal() ==> log[i].job.model != log[j].job.model
  }

  ghost predicate HasFatal(log: seq<Entry>, model: string) {
    exists i :: 0 <= i < |log| && log[i].outcome.Fatal() && log[i].job.model == model
  }

  ghost predicate MarkersOk(p: Policy, log: seq<Entry>, markers: set<string>) {
    if p.documented then
      && FatalLast(log)
      && (forall model :: model in markers <==> HasFatal(log, model))
    else markers == {}
  }

  ghost predicate AttemptOk(p: Policy, files: seq<Entry>, round: nat, attempt: nat) {
    && attempt == |files| + 1 <= 1 + p.maxRetries
    && round <= |files|
    && !AnySucceeded(files)
    && (files != [] ==> files[|files| - 1].outcome.Retryable())
  }

  ghost predicate PhaseOk(p: Policy, s: State, job: Job, phase: Phase) {
    var files := Listing(s.log, job);
    match phase
    case Idle => true
    case Waiting(round, attempt) => AttemptOk(p, files, round, attempt)
    case InFlight(round, attempt, calls) =>
      calls <= 2 && AttemptOk(p, files, round, attempt) && (p.documented ==> job.model !in s.stopped)
    case BackingOff(round) => round + 1 <= |files| && files[|files| - 1].outcome.Retryable()
    case Done =>
      || s.rateLimited
      || job.model in s.stopped
      || Settled(p, files)
      || (!s.retryFailed && files != [])
  }

  ghost predicate PhasesOk(p: Policy, s: State) {
    forall j :: j in s.phases ==> PhaseOk(p, s, j, s.phases[j])
  }

  // The invariant of the protocol for a job list: the directory, the live
  // coroutines, and the attempts and provider calls begun so far.
  ghost predicate RunOk(p: Policy, jobs: seq<Job>, s: State) {
    && PolicyOk(p)
    && FilesOk(p, s.log)
    && Indexed(s.log)
    && WrittenBy(jobs, s.log)
    && ListedFiles(jobs, s.log) == |s.log|
    && MarkersOk(p, s.log, s.markers)
    && PhasesOk(p, s)
    && LiveOk(p, jobs, s)
    && CallsOk(s)
  }

  // An attempt makes at most two provider calls; one that may still be repaired
  // has made a single one.
  ghost predicate CallsOk(s: State) {
    s.calls + |RepairableJobs(s.phases)| <= 2 * s.attempts
  }

  ghost predicate WrittenBy(jobs: seq<Job>, log: seq<Entry>) {
    forall e :: e in log ==> e.job in jobs
  }

  ghost predicate LiveOk(p: Policy, jobs: seq<Job>, s: State) {
    && s.phases.Keys == (if s.live then Elements(jobs) else {})
    && |InFlightJobs(s.phases)| <= p.concurrency
    && s.stopped == (if s.live then s.markers else {})
    && s.attempts == |s.log| + |InFlightJobs(s.phases)| + s.lostAttempts
    && s.lostAttempts <= s.ended * p.concurrency
  }

  function ListedFiles(jobs: seq<Job>, log: seq<Entry>): nat {
    if jobs == [] then 0 else |Listing(log, jobs[0])| + ListedFiles(jobs[1..], log)
  }

  ghost predicate Inv(s: State) {
    match s.manifest
    case None => s == INITIAL
    case Some(m) => Accepted(m) && RunOk(m.policy, Jobs(m), s)
  }

  // ---- one coroutine changes its phase, nothing is written ----

  lemma {:induction false} PhaseChange(phases: map<Job, Phase>, job: Job, phase: Phase)
    requires job in phases
    ensures InFlightJobs(phases[job := phase]) ==
            if phase.InFlight? then InFlightJobs(phases) + {job} else InFlightJobs(phases) - {job}
    ensures RepairableJobs(phases[job := phase]) ==
            if phase.InFlight? && phase.calls == 1 then RepairableJobs(phases) + {job}
            else RepairableJobs(phases) - {job}
  {
  }

  // The step begins an attempt.
  predicate Launches(s: State, step: Step) {
    step.Acquire? && !s.rateLimited && step.job.model !in s.stopped
  }

  lemma {:induction false} NextPhase(p: Policy, s: State, step: Step)
    requires !step.Start? && !step.Stop? && Enabled(p, s, step)
    ensures var t := JobStep(p, s, step);
            && t.live == s.live && t.manifest == s.manifest
            && t.phases == s.phases[step.job := t.phases[step.job]]
            && (t.phases[step.job].InFlight? <==> Launches(s, step) || step.AskRepair?)
  {
  }

  lemma {:induction false} AdmitOk(p: Policy, s: State, job: Job, retry: bool, round: nat)
    requires FilesOk(p, s.log)
    requires round <= |Listing(s.log, job)|
    requires retry ==> Listing(s.log, job) != []
    ensures PhaseOk(p, s, job, Queued(Admit(p, s.log, job, s.retryFailed, retry), round))
  {
    assert JobFilesOk(Listing(s.log, job), job, p.maxRetries);
  }

  lemma {:induction false} MoveKeepsPhases(p: Policy, s: State, job: Job, phase: Phase)
    requires PhasesOk(p, s) && job in s.phases
    requires PhaseOk(p, s, job, phase)
    ensures PhasesOk(p, MoveTo(s, job, phase))
    ensures MoveTo(s, job, phase).phases.Keys == s.phases.Keys
  {
    var s' := MoveTo(s, job, phase);
    forall j | j in s'.phases ensures PhaseOk(p, s', j, s'.phases[j]) {
      assert PhaseOk(p, s, j, s'.phases[j]);
    }
  }

  // A coroutine that is not in flight and does not take off.
  lemma {:induction false} MoveKeepsInv(p: Policy, jobs: seq<Job>, s: State, job: Job, phase: Phase)
    requires RunOk(p, jobs, s) && job in s.phases
    requires !phase.InFlight? && !s.phases[job].InFlight?
    requires PhaseOk(p, s, job, phase)
    ensures RunOk(p, jobs, MoveTo(s, job, phase))
  {
    MoveKeepsPhases(p, s, job, phase);
    PhaseChange(s.phases, job, phase);
    assert InFlightJobs(s.phases) - {job} == InFlightJobs(s.phases);
    assert RepairableJobs(s.phases) - {job} == RepairableJobs(s.phases);
  }

  lemma {:induction false} EnterKeepsInv(p: Policy, jobs: seq<Job>, s: State, job: Job)
    requires RunOk(p, jobs, s) && Enabled(p, s, Enter(job))
    ensures RunOk(p, jobs, EnterStep(p, s, job))
  {
    AdmitOk(p, s, job, false, 0);
    MoveKeepsInv(p, jobs, s, job, Queued(Admit(p, s.log, job, s.retryFailed, false), 0));
  }

  lemma {:induction false} LaunchKeepsLive(p: Policy, jobs: seq<Job>, s: State, job: Job, calling: bool)
    requires LiveOk(p, jobs, s) && CallsOk(s) && Enabled(p, s, Acquire(job, calling))
    requires !s.rateLimited && job.model !in s.stopped
    ensures LiveOk(p, jobs, AcquireStep(s, job, calling)) && CallsOk(AcquireStep(s, job, calling))
  {
    PhaseChange(s.phases, job, AcquireStep(s, job, calling).phases[job]);
    assert job !in InFlightJobs(s.phases) && job !in RepairableJobs(s.phases);
    assert AcquireStep(s, job, calling).phases.Keys == s.phases.Keys;
    hide InFlightJobs, RepairableJobs;
  }

  lemma {:induction false} LaunchKeepsPhases(p: Policy, s: State, job: Job, calling: bool)
    requires PhasesOk(p, s) && Enabled(p, s, Acquire(job, calling))
    requires !s.rateLimited && job.model !in s.stopped
    ensures PhasesOk(p, AcquireStep(s, job, calling))
  {
    var s' := AcquireStep(s, job, calling);
    forall j | j in s'.phases ensures PhaseOk(p, s', j, s'.phases[j]) {
      assert PhaseOk(p, s, j, s.phases[j]);
    }
  }

  lemma {:induction false} AcquireKeepsInv(p: Policy, jobs: seq<Job>, s: State, job: Job, calling: bool)
    requires RunOk(p, jobs, s) && Enabled(p, s, Acquire(job, calling))
    ensures RunOk(p, jobs, AcquireStep(s, job, calling))
  {
    if s.rateLimited || job.model in s.stopped {
      MoveKeepsInv(p, jobs, s, job, Done);
    } else {
      LaunchKeepsLive(p, jobs, s, job, calling);
      LaunchKeepsPhases(p, s, job, calling);
    }
  }

  lemma {:induction false} RepairKeepsPhases(p: Policy, s: State, job: Job)
    requires PhasesOk(p, s) && Enabled(p, s, AskRepair(job))
    ensures PhasesOk(p, RepairStep(s, job))
  {
    var s' := RepairStep(s, job);
    forall j | j in s'.phases ensures PhaseOk(p, s', j, s'.phases[j]) {
      assert PhaseOk(p, s, j, s.phases[j]);
    }
  }

  lemma {:induction false} RepairKeepsLive(p: Policy, jobs: seq<Job>, s: State, job: Job)
    requires LiveOk(p, jobs, s) && CallsOk(s) && Enabled(p, s, AskRepair(job))
    ensures LiveOk(p, jobs, RepairStep(s, job)) && CallsOk(RepairStep(s, job))
  {
    PhaseChange(s.phases, job, RepairStep(s, job).phases[job]);
    assert InFlightJobs(s.phases) + {job} == InFlightJobs(s.phases);
    assert RepairStep(s, job).phases.Keys == s.phases.Keys;
    hide InFlightJobs, RepairableJobs;
  }

  lemma {:induction false} RepairKeepsInv(p: Policy, jobs: seq<Job>, s: State, job: Job)
    requires RunOk(p, jobs, s) && Enabled(p, s, AskRepair(job))
    ensures RunOk(p, jobs, RepairStep(s, job))
  {
    RepairKeepsLive(p, jobs, s, job);
    RepairKeepsPhases(p, s, job);
  }

  lemma {:induction false} WakeOk(p: Policy, s: State, job: Job)
    requires FilesOk(p, s.log) && PhasesOk(p, s) && Enabled(p, s, Wake(job))
    ensures PhaseOk(p, s, job, WakeStep(p, s, job).phases[job])
    ensures !WakeStep(p, s, job).phases[job].InFlight?
  {
    assert PhaseOk(p, s, job, s.phases[job]);
    assert JobFilesOk(Listing(s.log, job), job, p.maxRetries);
    AdmitOk(p, s, job, true, s.phases[job].round + 1);
  }

  lemma {:induction false} WakeKeepsInv(p: Policy, jobs: seq<Job>, s: State, job: Job)
    requires RunOk(p, jobs, s) && Enabled(p, s, Wake(job))
    ensures RunOk(p, jobs, WakeStep(p, s, job))
  {
    WakeOk(p, s, job);
    MoveKeepsInv(p, jobs, s, job, WakeStep(p, s, job).phases[job]);
  }

  // ---- a result is written ----

  lemma {:induction false} ListedAfterWrite(jobs: seq<Job>, log: seq<Entry>, e: Entry)
    requires Distinct(jobs)
    requires Listing(log + [e], e.job) == Listing(log, e.job) + [e]
    requires forall j :: j != e.job ==> Listing(log + [e], j) == Listing(log, j)
    ensures ListedFiles(jobs, log + [e]) == ListedFiles(jobs, log) + if e.job in jobs then 1 else 0
  {
    if jobs != [] {
      ListedAfterWrite(jobs[1..], log, e);
      assert e.job in jobs <==> e.job == jobs[0] || e.job in jobs[1..];
    }
  }

  lemma {:induction false} WriteKeepsFiles(p: Policy, log: seq<Entry>, e: Entry, round: nat)
    requires FilesOk(p, log)
    requires AttemptOk(p, Listing(log, e.job), round, e.attempt)
    ensures FilesOk(p, log + [e])
    ensures Listing(log + [e], e.job) == Listing(log, e.job) + [e]
    ensures forall j :: j != e.job ==> Listing(log + [e], j) == Listing(log, j)
  {
    var files := Listing(log, e.job);
    assert JobFilesOk(files, e.job, p.maxRetries);
    NextWrite(log, e, p.maxRetries);
    forall j ensures JobFilesOk(Listing(log + [e], j), j, p.maxRetries) {
      assert JobFilesOk(Listing(log, j), j, p.maxRetries);
    }
  }

  lemma {:induction false} WriteKeepsMarkers(p: Policy, log: seq<Entry>, markers: set<string>, e: Entry)
    requires MarkersOk(p, log, markers)
    requires p.documented ==> e.job.model !in markers
    ensures MarkersOk(p, log + [e],
                      if p.documented && e.outcome.Fatal() then markers + {e.job.model} else markers)
  {
    if p.documented {
      var log' := log + [e];
      forall i, j | 0 <= i < j < |log'| && log'[i].outcome.Fatal()
        ensures log'[i].job.model != log'[j].job.model
      {
        assert log'[i] == log[i];
        if j == |log| {
          assert HasFatal(log, log[i].job.model);
        }
      }
      forall model
        ensures HasFatal(log', model) <==> HasFatal(log, model) || (e.outcome.Fatal() && e.job.model == model)
      {
        if HasFatal(log, model) {
          var i :| 0 <= i < |log| && log[i].outcome.Fatal() && log[i].job.model == model;
          assert log'[i] == log[i];
        }
        if e.outcome.Fatal() && e.job.model == model {
          assert log'[|log|] == e;
        }
      }
    }
  }

  // With documented protocols the finished call was the only one in flight.
  lemma {:induction false} OnlyOneInFlight(phases: map<Job, Phase>, job: Job)
    requires job in phases && phases[job].InFlight? && |InFlightJobs(phases)| <= 1
    ensures forall j :: j in phases && phases[j].InFlight? ==> j == job
  {
    forall j | j in phases && phases[j].InFlight? ensures j == job {
      if j != job {
        SubsetSize({j, job}, InFlightJobs(phases));
      }
    }
  }

  lemma {:induction false} CompleteKeepsPhases(p: Policy, s: State, job: Job, outcome: Outcome)
    requires PolicyOk(p) && PhasesOk(p, s) && FilesOk(p, s.log)
    requires job in s.phases && s.phases[job].InFlight? && |InFlightJobs(s.phases)| <= p.concurrency
    ensures PhasesOk(p, CompleteStep(p, s, job, outcome))
  {
    hide FilesOk, Listing;
    var e := Entry(job, s.phases[job].attempt, outcome);
    var s' := CompleteStep(p, s, job, outcome);
    assert PhaseOk(p, s, job, s.phases[job]);
    WriteKeepsFiles(p, s.log, e, s.phases[job].round);
    if p.documented {
      OnlyOneInFlight(s.phases, job);
    }
    forall j | j in s'.phases ensures PhaseOk(p, s', j, s'.phases[j]) {
      if j != job {
        assert PhaseOk(p, s, j, s.phases[j]);
      } else {
        assert Listing(s'.log, job)[|Listing(s.log, job)|] == e;
      }
    }
  }

  ghost predicate DiskOk(p: Policy, jobs: seq<Job>, log: seq<Entry>, markers: set<string>) {
    && FilesOk(p, log)
    && Indexed(log)
    && WrittenBy(jobs, log)
    && ListedFiles(jobs, log) == |log|
    && MarkersOk(p, log, markers)
  }

  lemma {:induction false} WriteKeepsDisk(
      p: Policy, jobs: seq<Job>, log: seq<Entry>, markers: set<string>, e: Entry, round: nat)
    requires DiskOk(p, jobs, log, markers) && Distinct(jobs) && e.job in jobs
    requires AttemptOk(p, Listing(log, e.job), round, e.attempt)
    requires p.documented ==> e.job.model !in markers
    ensures DiskOk(p, jobs, log + [e], if p.documented && e.outcome.Fatal() then markers + {e.job.model} else markers)
  {
    NextAttempt(p, log, e, round);
    WrittenByGrows(jobs, log, e);
    hide FilesOk, Listing, MarkersOk, ListedFiles, Indexed, AttemptOk, Distinct, WrittenBy;
    WriteKeepsFiles(p, log, e, round);
    WriteKeepsMarkers(p, log, markers, e);
    NextWriteIndexed(log, e);
    ListedAfterWrite(jobs, log, e);
  }

  lemma {:induction false} WrittenByGrows(jobs: seq<Job>, log: seq<Entry>, e: Entry)
    requires WrittenBy(jobs, log) && e.job in jobs
    ensures WrittenBy(jobs, log + [e])
  {
  }

  lemma {:induction false} NextAttempt(p: Policy, log: seq<Entry>, e: Entry, round: nat)
    requires AttemptOk(p, Listing(log, e.job), round, e.attempt)
    ensures e.attempt == |Listing(log, e.job)| + 1
  {
  }

  lemma {:induction false} CompleteKeepsDisk(p: Policy, jobs: seq<Job>, s: State, job: Job, outcome: Outcome)
    requires DiskOk(p, jobs, s.log, s.markers) && Distinct(jobs) && Enabled(p, s, Complete(job, outcome))
    requires PhasesOk(p, s) && LiveOk(p, jobs, s)
    ensures var s' := CompleteStep(p, s, job, outcome);
            DiskOk(p, jobs, s'.log, s'.markers)
  {
    var e := Entry(job, s.phases[job].attempt, outcome);
    assert PhaseOk(p, s, job, s.phases[job]);
    assert job in Elements(jobs);
    hide DiskOk, Distinct, Listing, AttemptOk;
    WriteKeepsDisk(p, jobs, s.log, s.markers, e, s.phases[job].round);
  }

  lemma {:induction false} CompleteKeepsLive(p: Policy, jobs: seq<Job>, s: State, job: Job, outcome: Outcome)
    requires LiveOk(p, jobs, s) && CallsOk(s) && Enabled(p, s, Complete(job, outcome))
    ensures LiveOk(p, jobs, CompleteStep(p, s, job, outcome)) && CallsOk(CompleteStep(p, s, job, outcome))
  {
    var s' := CompleteStep(p, s, job, outcome);
    PhaseChange(s.phases, job, s'.phases[job]);
    assert job in InFlightJobs(s.phases);
    assert s'.phases.Keys == s.phases.Keys;
    SubsetSize(RepairableJobs(s.phases) - {job}, RepairableJobs(s.phases));
  }

  lemma {:induction false} CompleteKeepsInv(p: Policy, jobs: seq<Job>, s: State, job: Job, outcome: Outcome)
    requires RunOk(p, jobs, s) && Distinct(jobs) && Enabled(p, s, Complete(job, outcome))
    ensures RunOk(p, jobs, CompleteStep(p, s, job, outcome))
  {
    CompleteKeepsDisk(p, jobs, s, job, outcome);
    CompleteKeepsPhases(p, s, job, outcome);
    CompleteKeepsLive(p, jobs, s, job, outcome);
  }

  // ---- every step ----

  lemma {:induction false} JobStepKeepsInv(p: Policy, jobs: seq<Job>, s: State, step: Step)
    requires RunOk(p, jobs, s) && Distinct(jobs)
    requires !step.Start? && !step.Stop? && Enabled(p, s, step)
    ensures RunOk(p, jobs, JobStep(p, s, step))
    ensures JobStep(p, s, step).manifest == s.manifest
  {
    hide RunOk;
    match step
    case Enter(job) => EnterKeepsInv(p, jobs, s, job);
    case Acquire(job, calling) => AcquireKeepsInv(p, jobs, s, job, calling);
    case AskRepair(job) => RepairKeepsInv(p, jobs, s, job);
    case Complete(job, outcome) => CompleteKeepsInv(p, jobs, s, job, outcome);
    case Wake(job) => WakeKeepsInv(p, jobs, s, job);
  }

  lemma {:induction false} NothingListed(jobs: seq<Job>)
    ensures ListedFiles(jobs, []) == 0
  {
    if jobs != [] {
      NothingListed(jobs[1..]);
    }
  }

  lemma {:induction false} StartKeepsInv(s: State, m: Manifest, retryFailed: bool)
    requires Inv(s) && MayStart(s, m)
    ensures Inv(StartStep(s, m, retryFailed))
  {
    if s.manifest.None? {
      NothingListed(Jobs(m));
    }
    var s' := StartStep(s, m, retryFailed);
    assert s'.phases.Keys == Elements(Jobs(m));
    assert InFlightJobs(s'.phases) == {} == InFlightJobs(s.phases);
    assert RepairableJobs(s'.phases) == {} == RepairableJobs(s.phases);
  }

  lemma {:induction false} StopKeepsInv(p: Policy, jobs: seq<Job>, s: State)
    requires RunOk(p, jobs, s) && s.live
    ensures RunOk(p, jobs, StopStep(s))
  {
    hide FilesOk, Indexed, WrittenBy, ListedFiles, MarkersOk, PhasesOk, LiveOk, PolicyOk;
    assert RepairableJobs(map[]) == {};
    StopKeepsLive(p, jobs, s);
    StopKeepsPhases(p, s);
  }

  lemma {:induction false} StopKeepsPhases(p: Policy, s: State)
    ensures PhasesOk(p, StopStep(s))
  {
  }

  lemma {:induction false} StopKeepsLive(p: Policy, jobs: seq<Job>, s: State)
    requires LiveOk(p, jobs, s) && s.live
    ensures LiveOk(p, jobs, StopStep(s))
  {
    assert InFlightJobs(map[]) == {};
    OneMoreTime(s.ended, p.concurrency);
  }

  lemma {:induction false} OneMoreTime(n: nat, each: int)
    ensures (n + 1) * each == n * each + each
  {
  }

  lemma {:induction false} CoroutineKeepsInv(s: State, step: Step)
    requires Inv(s) && s.manifest.Some?
    requires !step.Start? && !step.Stop? && Enabled(s.manifest.value.policy, s, step)
    ensures Inv(JobStep(s.manifest.value.policy, s, step))
  {
    var m := s.manifest.value;
    JobsUpToDistinct(m.cases, m.variants, m.repeats);
    JobStepKeepsInv(m.policy, Jobs(m), s, step);
  }

  lemma {:induction false} StepKeepsInv(s: State, step: Step)
    requires Inv(s)
    ensures Inv(Apply(s, step))
  {
    match step
    case Start(m, retryFailed) =>
      if MayStart(s, m) {
        StartKeepsInv(s, m, retryFailed);
      }
    case Stop =>
      if s.live {
        StopKeepsInv(s.manifest.value.policy, Jobs(s.manifest.value), s);
      }
    case _ =>
      if s.live && Enabled(s.manifest.value.policy, s, step) {
        CoroutineKeepsInv(s, step);
      }
  }

  lemma {:induction false} RunKeepsInv(s: State, steps: seq<Step>)
    requires Inv(s)
    ensures Inv(Execute(s, steps))
    decreases |steps|
  {
    if steps != [] {
      RunKeepsInv(s, steps[..|steps| - 1]);
      StepKeepsInv(Execute(s, steps[..|steps| - 1]), steps[|steps| - 1]);
    }
  }

  // ---- the job product ----

  lemma {:induction false} CaseMember(c: string, variants: seq<(string, string)>, repeat: nat, j: Job)
    ensures j in JobsOfCase(c, variants, repeat) <==>
            j.repeat == repeat && j.caseId == c && (j.model, j.effort) in variants
  {
    if variants != [] {
      CaseMember(c, variants[1..], repeat, j);
      assert (j.model, j.effort) in variants <==>
             (j.model, j.effort) == variants[0] || (j.model, j.effort) in variants[1..];
    }
  }

  lemma {:induction false} CaseDistinct(c: string, variants: seq<(string, string)>, repeat: nat)
    requires Distinct(variants)
    ensures Distinct(JobsOfCase(c, variants, repeat))
  {
    if variants != [] {
      var r := JobsOfCase(c, variants, repeat);
      CaseDistinct(c, variants[1..], repeat);
      assert r[1..] == JobsOfCase(c, variants[1..], repeat);
      CaseMember(c, variants[1..], repeat, r[0]);
    }
  }

  lemma {:induction false} RepeatMember(cases: seq<string>, variants: seq<(string, string)>, repeat: nat, j: Job)
    ensures j in JobsOfRepeat(cases, variants, repeat) <==>
            j.repeat == repeat && j.caseId in cases && (j.model, j.effort) in variants
  {
    if cases != [] {
      RepeatMember(cases[1..], variants, repeat, j);
      CaseMember(cases[0], variants, repeat, j);
      assert j.caseId in cases <==> j.caseId == cases[0] || j.caseId in cases[1..];
    }
  }

  lemma {:induction false} RepeatDistinct(cases: seq<string>, variants: seq<(string, string)>, repeat: nat)
    requires Distinct(cases) && Distinct(variants)
    ensures Distinct(JobsOfRepeat(cases, variants, repeat))
    ensures |JobsOfRepeat(cases, variants, repeat)| == |cases| * |variants|
  {
    if cases != [] {
      var a, b := JobsOfCase(cases[0], variants, repeat), JobsOfRepeat(cases[1..], variants, repeat);
      RepeatDistinct(cases[1..], variants, repeat);
      CaseDistinct(cases[0], variants, repeat);
      forall j | j in a ensures j !in b {
        RepeatMember(cases[1..], variants, repeat, j);
      }
      hide Distinct, JobsOfCase;
      DistinctConcat(a, b);
      OneMoreTime(|cases[1..]|, |variants|);
    }
  }

  lemma {:induction false} JobMember(cases: seq<string>, variants: seq<(string, string)>, repeats: nat, j: Job)
    ensures j in JobsUpTo(cases, variants, repeats) <==>
            1 <= j.repeat <= repeats && j.caseId in cases && (j.model, j.effort) in variants
  {
    hide JobsOfRepeat;
    if repeats > 0 {
      JobMember(cases, variants, repeats - 1, j);
      RepeatMember(cases, variants, repeats, j);
    }
  }

  lemma {:induction false} JobsUpToLength(cases: seq<string>, variants: seq<(string, string)>, repeats: nat, each: nat)
    requires Distinct(cases) && Distinct(variants) && each == |cases| * |variants|
    ensures |JobsUpTo(cases, variants, repeats)| == repeats * each
  {
    if repeats > 0 {
      JobsUpToLength(cases, variants, repeats - 1, each);
      RepeatDistinct(cases, variants, repeats);
      assert repeats * each == (repeats - 1) * each + each;
    }
  }

  lemma {:induction false} EarlierRepeat(cases: seq<string>, variants: seq<(string, string)>, repeats: nat, j: Job)
    requires repeats > 0 && j in JobsUpTo(cases, variants, repeats - 1)
    ensures j !in JobsOfRepeat(cases, variants, repeats)
  {
    hide JobsUpTo, JobsOfRepeat;
    JobMember(cases, variants, repeats - 1, j);
    RepeatMember(cases, variants, repeats, j);
  }

  lemma {:induction false} JobsUpToDistinct(cases: seq<string>, variants: seq<(string, string)>, repeats: nat)
    requires Distinct(cases) && Distinct(variants)
    ensures Distinct(JobsUpTo(cases, variants, repeats))
  {
    if repeats > 0 {
      var a, b := JobsUpTo(cases, variants, repeats - 1), JobsOfRepeat(cases, variants, repeats);
      JobsUpToDistinct(cases, variants, repeats - 1);
      RepeatDistinct(cases, variants, repeats);
      hide Distinct, JobsOfRepeat;
      forall j | j in a ensures j !in b {
        EarlierRepeat(cases, variants, repeats, j);
      }
      DistinctConcat(a, b);
    }
  }

  // evaluate()'s job list is the product of repeats, cases and variants, each
  // combination exactly once.
  lemma {:induction false} JobProduct(m: Manifest)
    requires Accepted(m)
    ensures Distinct(Jobs(m))
    ensures |Jobs(m)| == m.repeats * (|m.cases| * |m.variants|)
    ensures forall j :: j in Jobs(m) <==>
              1 <= j.repeat <= m.repeats && j.caseId in m.cases && (j.model, j.effort) in m.variants
  {
    JobsUpToDistinct(m.cases, m.variants, m.repeats);
    JobsUpToLength(m.cases, m.variants, m.repeats, |m.cases| * |m.variants|);
    forall j
      ensures j in Jobs(m) <==>
              1 <= j.repeat <= m.repeats && j.caseId in m.cases && (j.model, j.effort) in m.variants
    {
      JobMember(m.cases, m.variants, m.repeats, j);
    }
  }
}
