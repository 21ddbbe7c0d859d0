// The main results about the dispatcher. `Execute(INITIAL, steps)` ranges over
// every reachable state: any interleaving, any outcomes, any number of processes
// with or without --retry-failed, ended at any point.
module DispatcherTheorems {
  import opened Wrappers
  import opened AttemptLog
  import opened Dispatcher
  import opened DispatcherInvariant

  // ---- attempts of one job ----

  // Every job's files are numbered 1..k with k within the budget, nothing
  // follows a success, and only retryable failures are followed.
  lemma {:induction false} SavedAttempts(steps: seq<Step>, job: Job)
    ensures var s := Execute(INITIAL, steps);
            s.manifest.Some? ==> JobFilesOk(Listing(s.log, job), job, s.manifest.value.policy.maxRetries)
  {
    RunKeepsInv(INITIAL, steps);
  }

  // Another attempt of a job only ever follows a timeout, an unavailable provider
  // or a rate limit whose last failed call was marked retryable.
  lemma {:induction false} FollowedOnlyIfTransient(steps: seq<Step>, job: Job, i: nat)
    requires i + 1 < |Listing(Execute(INITIAL, steps).log, job)|
    ensures var o := Listing(Execute(INITIAL, steps).log, job)[i].outcome;
            && !o.status.SUCCEEDED? && !o.Fatal()
            && o.errorCode in {
                 Some(PROVIDER_TIMEOUT_ERROR), Some(PROVIDER_UNAVAILABLE_ERROR), Some(PROVIDER_RATE_LIMIT_ERROR)}
            && (o.failures != [] ==> o.failures[|o.failures| - 1].retryable)
  {
    RunKeepsInv(INITIAL, steps);
    hide Execute, Listing;
    var s := Execute(INITIAL, steps);
    if s.manifest.None? {
      NothingWritten(job);
    } else {
      SavedAttempts(steps, job);
    }
  }

  lemma {:induction false} NothingWritten(job: Job)
    ensures Listing(INITIAL.log, job) == []
  {
  }

  // ---- runs ----

  lemma {:induction false} Extend(s: State, steps: seq<Step>, step: Step)
    ensures Execute(s, steps + [step]) == Apply(Execute(s, steps), step)
  {
    assert (steps + [step])[..|steps|] == steps;
  }

  lemma {:induction false} ExecuteConcat(s: State, a: seq<Step>, b: seq<Step>)
    ensures Execute(s, a + b) == Execute(Execute(s, a), b)
    decreases |b|
  {
    if b == [] {
      assert a + b == a;
    } else {
      ExecuteConcat(s, a, b[..|b| - 1]);
      assert a + b == (a + b[..|b| - 1]) + [b[|b| - 1]];
      Extend(s, a + b[..|b| - 1], b[|b| - 1]);
    }
  }

  // ---- what is saved stays, and the inputs stay pinned ----

  lemma {:induction false} StepIsAppend(s: State, step: Step)
    ensures s.log <= Apply(s, step).log
    ensures s.markers <= Apply(s, step).markers
    ensures s.manifest.Some? ==> Apply(s, step).manifest == s.manifest
  {
  }

  // A resume never rewrites a result, forgets a stop marker or changes the plan.
  lemma {:induction false} DirectoryOnlyGrows(s: State, steps: seq<Step>)
    ensures s.log <= Execute(s, steps).log
    ensures s.markers <= Execute(s, steps).markers
    ensures s.manifest.Some? ==> Execute(s, steps).manifest == s.manifest
    decreases |steps|
  {
    if steps != [] {
      DirectoryOnlyGrows(s, steps[..|steps| - 1]);
      StepIsAppend(Execute(s, steps[..|steps| - 1]), steps[|steps| - 1]);
    }
  }

  // ---- concurrency and the rate-limit stop ----

  lemma {:induction false} ConcurrencyBound(steps: seq<Step>)
    ensures var s := Execute(INITIAL, steps);
            s.manifest.Some? ==> |InFlightJobs(s.phases)| <= s.manifest.value.policy.concurrency
  {
    RunKeepsInv(INITIAL, steps);
  }

  ghost predicate SameProcess(steps: seq<Step>) {
    forall i :: 0 <= i < |steps| ==> !steps[i].Stop?
  }

  lemma {:induction false} LimitedStep(s: State, step: Step)
    requires s.live && s.rateLimited && !step.Stop?
    ensures var t := Apply(s, step);
            && t.live && t.rateLimited
            && InFlightJobs(t.phases) <= InFlightJobs(s.phases)
            && t.attempts == s.attempts
            && RepairableJobs(t.phases) <= RepairableJobs(s.phases)
            && t.calls + |RepairableJobs(t.phases)| <= s.calls + |RepairableJobs(s.phases)|
            && |t.log| + |InFlightJobs(t.phases)| == |s.log| + |InFlightJobs(s.phases)|
  {
    if Apply(s, step) != s {
      LimitedJobStep(s.manifest.value.policy, s, step);
    }
  }

  lemma {:induction false} LimitedJobStep(p: Policy, s: State, step: Step)
    requires s.rateLimited && !step.Start? && !step.Stop? && Enabled(p, s, step)
    ensures var t := JobStep(p, s, step);
            && t.live == s.live && t.rateLimited
            && InFlightJobs(t.phases) == InFlightJobs(s.phases) - (if step.AskRepair? then {} else {step.job})
            && RepairableJobs(t.phases) == RepairableJobs(s.phases) - {step.job}
            && t.attempts == s.attempts
            && t.calls == s.calls + (if step.AskRepair? then 1 else 0)
            && t.calls + |RepairableJobs(t.phases)| <= s.calls + |RepairableJobs(s.phases)|
            && |t.log| + |InFlightJobs(t.phases)| == |s.log| + |InFlightJobs(s.phases)|
  {
    NextPhase(p, s, step);
    var t := JobStep(p, s, step);
    PhaseChange(s.phases, step.job, t.phases[step.job]);
    assert step.job in InFlightJobs(s.phases) <==> step.Complete? || step.AskRepair?;
    assert step.AskRepair? ==> step.job in RepairableJobs(s.phases);
    SubsetSize(RepairableJobs(s.phases) - {step.job}, RepairableJobs(s.phases));
    hide InFlightJobs, RepairableJobs;
  }

  // Once the stop is set no attempt begins in that process and the attempts in
  // flight are exactly the results still to come. Each of them that has made one
  // provider call may still begin a second one, because a repair does not look at
  // the stop; no other call begins.
  lemma {:induction false} LimitedRun(s: State, steps: seq<Step>)
    requires s.live && s.rateLimited && SameProcess(steps)
    ensures var t := Execute(s, steps);
            && t.live && t.rateLimited
            && InFlightJobs(t.phases) <= InFlightJobs(s.phases)
            && t.attempts == s.attempts
            && RepairableJobs(t.phases) <= RepairableJobs(s.phases)
            && t.calls + |RepairableJobs(t.phases)| <= s.calls + |RepairableJobs(s.phases)|
            && |t.log| + |InFlightJobs(t.phases)| == |s.log| + |InFlightJobs(s.phases)|
    decreases |steps|
  {
    if steps != [] {
      LimitedRun(s, steps[..|steps| - 1]);
      LimitedStep(Execute(s, steps[..|steps| - 1]), steps[|steps| - 1]);
      hide InFlightJobs, RepairableJobs, Apply;
    }
  }

  // All of these calls can come: the stop never prevents a repair.
  lemma {:induction false} RepairsIgnoreStop(s: State) returns (steps: seq<Step>)
    requires s.live && s.manifest.Some?
    ensures var t := Execute(s, steps);
            && t.live && t.manifest == s.manifest && t.rateLimited == s.rateLimited && SameProcess(steps)
            && t.calls == s.calls + |RepairableJobs(s.phases)| && RepairableJobs(t.phases) == {}
    decreases |RepairableJobs(s.phases)|
  {
    if RepairableJobs(s.phases) == {} {
      steps := [];
    } else {
      var j :| j in RepairableJobs(s.phases);
      OneRepair(s, j);
      hide Execute, RepairableJobs;
      var rest := RepairsIgnoreStop(Execute(s, [AskRepair(j)]));
      ExecuteConcat(s, [AskRepair(j)], rest);
      steps := [AskRepair(j)] + rest;
    }
  }

  lemma {:induction false} OneRepair(s: State, j: Job)
    requires s.live && s.manifest.Some? && j in RepairableJobs(s.phases)
    ensures var t := Execute(s, [AskRepair(j)]);
            && t.live && t.manifest == s.manifest && t.rateLimited == s.rateLimited
            && t.calls == s.calls + 1 && |RepairableJobs(t.phases)| == |RepairableJobs(s.phases)| - 1
  {
    assert [AskRepair(j)] == [] + [AskRepair(j)];
    Extend(s, [], AskRepair(j));
    ApplyRepair(s, j);
    hide Execute, Apply;
    PhaseChange(s.phases, j, s.phases[j].(calls := 2));
    hide RepairableJobs;
  }

  lemma {:induction false} ApplyRepair(s: State, j: Job)
    requires s.live && s.manifest.Some? && j in RepairableJobs(s.phases)
    ensures Apply(s, AskRepair(j)) ==
            s.(phases := s.phases[j := s.phases[j].(calls := 2)], calls := s.calls + 1)
  {
  }

  // After a rate-limited result under a policy that stops on it, the same process
  // writes at most concurrency - 1 more results and begins at most as many provider
  // calls, whatever it still had queued or sleeping.
  lemma {:induction false} RateLimitStopsDispatch(before: seq<Step>, job: Job, o: Outcome, after: seq<Step>)
    requires SameProcess(after)
    requires var s := Execute(INITIAL, before);
             && s.live && s.manifest.Some? && s.manifest.value.policy.stopOnRateLimit
             && job in s.phases && s.phases[job].InFlight?
    requires o.errorCode == Some(PROVIDER_RATE_LIMIT_ERROR)
    ensures var s := Execute(INITIAL, before);
            var t := Execute(Apply(s, Complete(job, o)), after);
            && t.live && t.rateLimited
            && t.attempts == s.attempts
            && t.calls <= s.calls + (s.manifest.value.policy.concurrency - 1)
            && |t.log| <= |s.log| + 1 + (s.manifest.value.policy.concurrency - 1)
  {
    RunKeepsInv(INITIAL, before);
    hide *;
    var s := Execute(INITIAL, before);
    LiveManifest(s);
    ApplyComplete(s, job, o);
    TriggerLands(s.manifest.value.policy, s, job, o);
    RepairableFly(Apply(s, Complete(job, o)).phases);
    LimitedRun(Apply(s, Complete(job, o)), after);
  }

  lemma {:induction false} RepairableFly(phases: map<Job, Phase>)
    ensures |RepairableJobs(phases)| <= |InFlightJobs(phases)|
  {
    SubsetSize(RepairableJobs(phases), InFlightJobs(phases));
  }

  lemma {:induction false} LiveManifest(s: State)
    requires Inv(s) && s.live
    ensures s.manifest.Some? && |InFlightJobs(s.phases)| <= s.manifest.value.policy.concurrency
  {
    hide PhasesOk, MarkersOk, FilesOk, Indexed, WrittenBy, ListedFiles, Accepted, InFlightJobs;
  }

  // How many results the directory held when the live process started.
  ghost function SavedAtStart(steps: seq<Step>): nat
    decreases |steps|
  {
    if steps == [] then 0
    else
      var n := |steps| - 1;
      var s := Execute(INITIAL, steps[..n]);
      if !s.live && Execute(INITIAL, steps).live then |s.log| else SavedAtStart(steps[..n])
  }

  // The stop is set exactly when the policy asks for it and one of the results
  // written from position `from` on was rate limited.
  ghost predicate LimitOk(s: State, from: nat) {
    s.live ==>
      && s.manifest.Some? && from <= |s.log|
      && (s.rateLimited <==>
            && s.manifest.value.policy.stopOnRateLimit
            && exists i :: from <= i < |s.log| && s.log[i].outcome.errorCode == Some(PROVIDER_RATE_LIMIT_ERROR))
  }

  lemma {:induction false} StepKeepsLimit(s: State, step: Step, from: nat)
    requires LimitOk(s, from)
    ensures LimitOk(Apply(s, step), if !s.live && Apply(s, step).live then |s.log| else from)
  {
    var t := Apply(s, step);
    if s.live && t != s && step.Complete? {
      assert t.log[|s.log|].outcome == step.outcome;
      assert t.log[..|s.log|] == s.log;
    }
  }

  // In every reachable state of a live process the rate-limit stop is set if and
  // only if the policy stops on rate limits and this process saved such a result.
  lemma {:induction false} RateLimitedIff(steps: seq<Step>)
    ensures LimitOk(Execute(INITIAL, steps), SavedAtStart(steps))
    decreases |steps|
  {
    if steps != [] {
      var n := |steps| - 1;
      RateLimitedIff(steps[..n]);
      StepKeepsLimit(Execute(INITIAL, steps[..n]), steps[n], SavedAtStart(steps[..n]));
      hide Apply, LimitOk;
    }
  }

  lemma {:induction false} TriggerLands(p: Policy, s: State, job: Job, o: Outcome)
    requires job in s.phases && s.phases[job].InFlight? && |InFlightJobs(s.phases)| <= p.concurrency
    ensures var t := CompleteStep(p, s, job, o);
            && t.live == s.live && t.attempts == s.attempts && t.calls == s.calls && |t.log| == |s.log| + 1
            && |InFlightJobs(t.phases)| <= p.concurrency - 1
            && (p.stopOnRateLimit && o.errorCode == Some(PROVIDER_RATE_LIMIT_ERROR) ==> t.rateLimited)
  {
    var t := CompleteStep(p, s, job, o);
    PhaseChange(s.phases, job, t.phases[job]);
    assert job in InFlightJobs(s.phases);
  }

  // ---- documented protocols ----

  // An access or configuration rejection is the last result of its model, in
  // this process and in every later one, so there is at most one per model.
  lemma {:induction false} RejectionIsLast(steps: seq<Step>, i: nat, j: nat)
    requires var s := Execute(INITIAL, steps);
             s.manifest.Some? && s.manifest.value.policy.documented && i < |s.log| && j < |s.log|
    requires Rejected(Execute(INITIAL, steps).log[i].outcome)
    requires Execute(INITIAL, steps).log[j].job.model == Execute(INITIAL, steps).log[i].job.model
    ensures j <= i
    ensures Rejected(Execute(INITIAL, steps).log[j].outcome) ==> i == j
  {
    RunKeepsInv(INITIAL, steps);
    assert Execute(INITIAL, steps).log[i].outcome.Fatal();
  }

  // The provider refused access or the request itself.
  ghost predicate Rejected(o: Outcome) {
    o.errorCode in {Some(PROVIDER_AUTHENTICATION_ERROR), Some(PROVIDER_REQUEST_REJECTED)}
  }

  // With documented protocols a model has a stop marker, and is stopped in the live
  // process, exactly when one of its results was a rejection; without them no model
  // ever is.
  lemma {:induction false} MarkersTellRejections(steps: seq<Step>, model: string)
    requires Execute(INITIAL, steps).manifest.Some?
    ensures var s := Execute(INITIAL, steps);
            && (model in s.markers <==>
                  s.manifest.value.policy.documented
                  && exists i :: 0 <= i < |s.log| && Rejected(s.log[i].outcome) && s.log[i].job.model == model)
            && (s.live ==> (model in s.stopped <==> model in s.markers))
  {
    RunKeepsInv(INITIAL, steps);
    hide Execute;
    var s := Execute(INITIAL, steps);
    RejectedMeans(s.log, model);
    MarkedModels(s.manifest.value.policy, Jobs(s.manifest.value), s, model);
  }

  lemma {:induction false} RejectedMeans(log: seq<Entry>, model: string)
    ensures HasFatal(log, model) <==>
            exists i :: 0 <= i < |log| && Rejected(log[i].outcome) && log[i].job.model == model
  {
    if i :| 0 <= i < |log| && Rejected(log[i].outcome) && log[i].job.model == model {
      assert log[i].outcome.Fatal();
    }
    if HasFatal(log, model) {
      var i :| 0 <= i < |log| && log[i].outcome.Fatal() && log[i].job.model == model;
      assert Rejected(log[i].outcome);
    }
  }

  lemma {:induction false} MarkedModels(p: Policy, jobs: seq<Job>, s: State, model: string)
    requires RunOk(p, jobs, s)
    ensures model in s.markers <==> p.documented && HasFatal(s.log, model)
    ensures s.live ==> s.stopped == s.markers
  {
    hide HasFatal, FilesOk, PhasesOk, Indexed, WrittenBy, ListedFiles;
  }

  // ---- when a process starts and an attempt begins ----

  // The inputs evaluate() lets through: cases and variants without repetition, and
  // options in their ranges; documented protocols run serially and without retries.
  ghost predicate InRange(m: Manifest) {
    && m.cases != [] && (forall i, j :: 0 <= i < j < |m.cases| ==> m.cases[i] != m.cases[j])
    && m.variants != [] && (forall i, j :: 0 <= i < j < |m.variants| ==> m.variants[i] != m.variants[j])
    && m.repeats in {1, 2, 3, 4, 5, 6, 7, 8, 9, 10}
    && m.policy.concurrency in {1, 2, 3, 4, 5, 6}
    && m.policy.maxRetries in {0, 1, 2, 3}
    && (m.policy.documented ==> m.policy.concurrency == 1 && m.policy.maxRetries == 0)
  }

  lemma {:induction false} DistinctMeans<T>(s: seq<T>)
    ensures Distinct(s) <==> forall i, j :: 0 <= i < j < |s| ==> s[i] != s[j]
  {
    if s != [] {
      DistinctMeans(s[1..]);
      if Distinct(s) {
        forall i, j | 0 <= i < j < |s| ensures s[i] != s[j] {
          assert s[j] == s[1..][j - 1] && (i > 0 ==> s[i] == s[1..][i - 1]);
        }
      } else if forall i, j :: 0 <= i < j < |s| ==> s[i] != s[j] {
        forall i, j | 0 <= i < j < |s[1..]| ensures s[1..][i] != s[1..][j] {
          assert s[i + 1] != s[j + 1];
        }
      }
    }
  }

  // A process takes the run directory exactly when no other one holds it, its inputs
  // are in range, and the directory is new or was begun with the same inputs.
  lemma {:induction false} ProcessStartsIff(s: State, m: Manifest, retryFailed: bool)
    ensures var t := Apply(s, Start(m, retryFailed));
            && (t != s ==> t.live && t.manifest == Some(m) && t.retryFailed == retryFailed && t.log == s.log)
            && (!s.live ==> (t.live <==> InRange(m) && (s.manifest == None || s.manifest == Some(m))))
            && (s.live ==> t == s)
  {
    DistinctMeans(m.cases);
    DistinctMeans(m.variants);
    hide Jobs, Distinct;
  }

  // A waiting attempt with a slot to take begins unless this process has been rate
  // limited under a policy that stops on that, or a result of the job's model was a
  // rejection; then its coroutine returns.
  lemma {:induction false} AttemptBeginsIff(steps: seq<Step>, job: Job, calling: bool)
    requires var s := Execute(INITIAL, steps);
             && s.live && s.manifest.Some? && job in s.phases && s.phases[job].Waiting?
             && |InFlightJobs(s.phases)| < s.manifest.value.policy.concurrency
    ensures var s := Execute(INITIAL, steps);
            var p := s.manifest.value.policy;
            var t := Apply(s, Acquire(job, calling));
            var stopped :=
              || (p.stopOnRateLimit && exists i :: SavedAtStart(steps) <= i < |s.log|
                                                   && s.log[i].outcome.errorCode == Some(PROVIDER_RATE_LIMIT_ERROR))
              || (p.documented && exists i :: 0 <= i < |s.log| && Rejected(s.log[i].outcome)
                                              && s.log[i].job.model == job.model);
            && t.phases.Keys == s.phases.Keys && t.log == s.log
            && t.attempts == (if stopped then s.attempts else s.attempts + 1)
            && t.calls == (if stopped || !calling then s.calls else s.calls + 1)
            && t.phases[job].InFlight? == !stopped && t.phases[job].Done? == stopped
  {
    RateLimitedIff(steps);
    MarkersTellRejections(steps, job.model);
    hide Execute, SavedAtStart, InFlightJobs;
    var s := Execute(INITIAL, steps);
    assert Apply(s, Acquire(job, calling)) == AcquireStep(s, job, calling);
  }

  // A result is saved under the next number, and its coroutine backs off exactly when
  // the failure is transient, an attempt is left, and the process has not been rate
  // limited under a policy that stops on that; otherwise the coroutine returns.
  lemma {:induction false} WhatFollowsResult(steps: seq<Step>, job: Job, o: Outcome)
    requires var s := Execute(INITIAL, steps);
             s.live && s.manifest.Some? && job in s.phases && s.phases[job].InFlight?
    ensures var s := Execute(INITIAL, steps);
            var p := s.manifest.value.policy;
            var t := Apply(s, Complete(job, o));
            var attempt := |Listing(s.log, job)| + 1;
            var limited :=
              && p.stopOnRateLimit
              && (|| o.errorCode == Some(PROVIDER_RATE_LIMIT_ERROR)
                  || exists i :: SavedAtStart(steps) <= i < |s.log|
                                 && s.log[i].outcome.errorCode == Some(PROVIDER_RATE_LIMIT_ERROR));
            && t.log == s.log + [Entry(job, attempt, o)]
            && t.phases.Keys == s.phases.Keys
            && t.phases[job].BackingOff? == (Transient(o) && attempt <= p.maxRetries && !limited)
            && t.phases[job].Done? == !t.phases[job].BackingOff?
  {
    RunKeepsInv(INITIAL, steps);
    RateLimitedIff(steps);
    PhasesOfInv(Execute(INITIAL, steps));
    hide *;
    ResultLands(Execute(INITIAL, steps), SavedAtStart(steps), job, o);
  }

  lemma {:induction false} ResultLands(s: State, from: nat, job: Job, o: Outcome)
    requires s.live && s.manifest.Some? && job in s.phases && s.phases[job].InFlight?
    requires PhasesOk(s.manifest.value.policy, s) && LimitOk(s, from)
    ensures var p := s.manifest.value.policy;
            var t := Apply(s, Complete(job, o));
            var attempt := |Listing(s.log, job)| + 1;
            var limited :=
              && p.stopOnRateLimit
              && (|| o.errorCode == Some(PROVIDER_RATE_LIMIT_ERROR)
                  || exists i :: from <= i < |s.log| && s.log[i].outcome.errorCode == Some(PROVIDER_RATE_LIMIT_ERROR));
            && t.log == s.log + [Entry(job, attempt, o)]
            && t.phases.Keys == s.phases.Keys
            && t.phases[job].BackingOff? == (Transient(o) && attempt <= p.maxRetries && !limited)
            && t.phases[job].Done? == !t.phases[job].BackingOff?
  {
    hide *;
    FlyingAttempt(s.manifest.value.policy, s, job);
    LimitIs(s, from);
    ApplyComplete(s, job, o);
    Landed(s.manifest.value.policy, s, job, o);
  }

  lemma {:induction false} LimitIs(s: State, from: nat)
    requires LimitOk(s, from) && s.live && s.manifest.Some?
    ensures s.rateLimited <==>
            && s.manifest.value.policy.stopOnRateLimit
            && exists i :: from <= i < |s.log| && s.log[i].outcome.errorCode == Some(PROVIDER_RATE_LIMIT_ERROR)
  {
  }

  lemma {:induction false} ApplyComplete(s: State, job: Job, o: Outcome)
    requires s.live && s.manifest.Some? && job in s.phases && s.phases[job].InFlight?
    ensures Apply(s, Complete(job, o)) == CompleteStep(s.manifest.value.policy, s, job, o)
  {
  }

  lemma {:induction false} PhasesOfInv(s: State)
    requires Inv(s)
    ensures s.manifest.Some? ==> PhasesOk(s.manifest.value.policy, s)
  {
    hide PhasesOk, FilesOk, MarkersOk, Indexed, WrittenBy, ListedFiles, LiveOk, CallsOk, Accepted, Jobs;
  }

  lemma {:induction false} FlyingAttempt(p: Policy, s: State, job: Job)
    requires PhasesOk(p, s) && job in s.phases && s.phases[job].InFlight?
    ensures s.phases[job].attempt == |Listing(s.log, job)| + 1
  {
    hide Listing;
    assert PhaseOk(p, s, job, s.phases[job]);
  }

  lemma {:induction false} Landed(p: Policy, s: State, job: Job, o: Outcome)
    requires job in s.phases && s.phases[job].InFlight?
    ensures var t := CompleteStep(p, s, job, o);
            var attempt := s.phases[job].attempt;
            var limited :=
              s.rateLimited || (p.stopOnRateLimit && o.errorCode == Some(PROVIDER_RATE_LIMIT_ERROR));
            && t.log == s.log + [Entry(job, attempt, o)]
            && t.phases.Keys == s.phases.Keys
            && t.phases[job].BackingOff? == (Transient(o) && attempt <= p.maxRetries && !limited)
            && t.phases[job].Done? == !t.phases[job].BackingOff?
  {
    assert Transient(o) <==> o.Retryable();
    hide Transient;
  }

  // ---- termination and coverage ----

  // Five steps for every round still to come.
  function Left(p: Policy, round: nat): nat {
    if round > p.maxRetries then 0 else 5 * (p.maxRetries - round)
  }

  function Rank(p: Policy, phase: Phase): nat {
    match phase
    case Idle => 5 * (p.maxRetries + 1)
    case Waiting(round, _) => Left(p, round) + 4
    case InFlight(round, _, calls) => Left(p, round) + if calls < 2 then 3 else 2
    case BackingOff(round) => Left(p, round) + 1
    case Done => 0
  }

  function Measure(p: Policy, jobs: seq<Job>, phases: map<Job, Phase>): nat {
    if jobs == [] then 0
    else (if jobs[0] in phases then Rank(p, phases[jobs[0]]) else 0) + Measure(p, jobs[1..], phases)
  }

  lemma {:induction false} MeasureBound(p: Policy, jobs: seq<Job>, phases: map<Job, Phase>)
    ensures Measure(p, jobs, phases) <= |jobs| * (5 * (p.maxRetries + 1))
  {
    if jobs != [] {
      MeasureBound(p, jobs[1..], phases);
      OneMoreTime(|jobs[1..]|, 5 * (p.maxRetries + 1));
    }
  }

  lemma {:induction false} MeasureChange(p: Policy, jobs: seq<Job>, phases: map<Job, Phase>, job: Job, phase: Phase)
    requires job in phases && job in jobs
    requires Rank(p, phase) < Rank(p, phases[job])
    ensures Measure(p, jobs, phases[job := phase]) < Measure(p, jobs, phases)
  {
    if job in jobs[1..] {
      MeasureChange(p, jobs[1..], phases, job, phase);
    } else {
      MeasureFrame(p, jobs[1..], phases, job, phase);
    }
  }

  lemma {:induction false} MeasureFrame(p: Policy, jobs: seq<Job>, phases: map<Job, Phase>, job: Job, phase: Phase)
    requires job in phases && job !in jobs
    ensures Measure(p, jobs, phases[job := phase]) == Measure(p, jobs, phases)
  {
    if jobs != [] {
      MeasureFrame(p, jobs[1..], phases, job, phase);
    }
  }

  lemma {:induction false} RankDecreases(p: Policy, s: State, step: Step)
    requires !step.Start? && !step.Stop? && Enabled(p, s, step)
    requires PhaseOk(p, s, step.job, s.phases[step.job])
    ensures Rank(p, JobStep(p, s, step).phases[step.job]) < Rank(p, s.phases[step.job])
  {
    hide Listing, AnySucceeded;
    match step
    case Enter(job) =>
    case Acquire(job, _) =>
    case AskRepair(job) =>
    case Complete(job, outcome) =>
    case Wake(job) =>
  }

  // Every coroutine step uses up part of a finite measure.
  lemma {:induction false} StepDecreases(p: Policy, jobs: seq<Job>, s: State, step: Step)
    requires PhasesOk(p, s) && s.phases.Keys <= Elements(jobs)
    requires !step.Start? && !step.Stop? && Enabled(p, s, step)
    ensures Measure(p, jobs, JobStep(p, s, step).phases) < Measure(p, jobs, s.phases)
  {
    RankDecreases(p, s, step);
    NextPhase(p, s, step);
    hide JobStep;
    assert step.job in Elements(jobs);
    MeasureChange(p, jobs, s.phases, step.job, JobStep(p, s, step).phases[step.job]);
  }

  // Steps of one process that all do something.
  ghost predicate Busy(s: State, steps: seq<Step>)
    decreases |steps|
  {
    steps != [] ==>
      var n := |steps| - 1;
      var s' := Execute(s, steps[..n]);
      && Busy(s, steps[..n])
      && !steps[n].Start? && !steps[n].Stop?
      && s'.live && s'.manifest.Some? && Enabled(s'.manifest.value.policy, s', steps[n])
  }

  // The coroutine steps of the live process keep the invariant and the process.
  lemma {:induction false} BusyStep(m: Manifest, s: State, step: Step)
    requires Inv(s) && s.live && s.manifest == Some(m)
    requires !step.Start? && !step.Stop? && Enabled(m.policy, s, step)
    ensures var t := Apply(s, step);
            && Inv(t) && t.live && t.manifest == Some(m)
            && Measure(m.policy, Jobs(m), t.phases) < Measure(m.policy, Jobs(m), s.phases)
  {
    CoroutineKeepsInv(s, step);
    StepDecreases(m.policy, Jobs(m), s, step);
    StepIsAppend(s, step);
  }

  lemma {:induction false} BusyDecreases(m: Manifest, s: State, steps: seq<Step>)
    requires Inv(s) && s.live && s.manifest == Some(m) && Busy(s, steps)
    ensures var t := Execute(s, steps);
            && Inv(t) && t.live && t.manifest == Some(m)
            && |steps| + Measure(m.policy, Jobs(m), t.phases) <= Measure(m.policy, Jobs(m), s.phases)
    decreases |steps|
  {
    hide Inv;
    if steps != [] {
      var n := |steps| - 1;
      BusyDecreases(m, s, steps[..n]);
      BusyStep(m, Execute(s, steps[..n]), steps[n]);
    }
  }

  // A process takes at most 5 * (1 + max_retries) steps per planned job,
  // whatever the scheduler and the provider do.
  lemma {:induction false} ProcessTerminates(before: seq<Step>, steps: seq<Step>)
    requires var s := Execute(INITIAL, before); s.live && Busy(s, steps)
    ensures var m := Execute(INITIAL, before).manifest;
            && m.Some?
            && |steps| <= |Jobs(m.value)| * (5 * (m.value.policy.maxRetries + 1))
  {
    hide RunOk;
    RunKeepsInv(INITIAL, before);
    var s := Execute(INITIAL, before);
    var m := s.manifest.value;
    BusyDecreases(m, s, steps);
    MeasureBound(m.policy, Jobs(m), s.phases);
  }

  // No deadlock: while a coroutine is unfinished some step can be taken, and
  // which one does not depend on what the provider answers.
  lemma {:induction false} Progress(p: Policy, jobs: seq<Job>, s: State, outcome: Outcome) returns (step: Step)
    requires RunOk(p, jobs, s) && s.live
    requires exists j :: j in s.phases && !s.phases[j].Done?
    ensures !step.Start? && !step.Stop? && Enabled(p, s, step)
  {
    var j :| j in s.phases && !s.phases[j].Done?;
    if flying :| flying in s.phases && s.phases[flying].InFlight? {
      step := Complete(flying, outcome);
    } else {
      assert InFlightJobs(s.phases) == {};
      step := match s.phases[j]
              case Idle => Enter(j)
              case BackingOff(_) => Wake(j)
              case _ => Acquire(j, true);
    }
  }

  ghost predicate AllDone(s: State) {
    forall j :: j in s.phases ==> s.phases[j].Done?
  }

  // Nothing is left to try for a job with these files: it succeeded, its last
  // failure is not a transient one, or its budget is used up.
  ghost predicate NothingLeft(files: seq<Entry>, maxRetries: nat) {
    && files != []
    && (|| (exists i :: 0 <= i < |files| && files[i].outcome.status == SUCCEEDED)
        || !Transient(files[|files| - 1].outcome)
        || |files| == 1 + maxRetries)
  }

  // A timeout, an unavailable provider or a rate limit, unless the last failed call
  // was marked as not retryable.
  ghost predicate Transient(o: Outcome) {
    && o.errorCode in {
         Some(PROVIDER_TIMEOUT_ERROR), Some(PROVIDER_UNAVAILABLE_ERROR), Some(PROVIDER_RATE_LIMIT_ERROR)}
    && (o.failures != [] ==> o.failures[|o.failures| - 1].retryable)
  }

  lemma {:induction false} SettledMeans(p: Policy, files: seq<Entry>)
    ensures Settled(p, files) <==> NothingLeft(files, p.maxRetries)
  {
    if files != [] {
      assert Transient(files[|files| - 1].outcome) <==> files[|files| - 1].outcome.Retryable();
    }
    if i :| 0 <= i < |files| && files[i].outcome.status == SUCCEEDED {
      assert files[i].outcome.Succeeded();
    }
  }

  // When every coroutine has returned without a rate-limit stop, every planned job
  // of a model that was not stopped has a result. Nothing is left to try for it if
  // it had none when the process started, or if --retry-failed was given.
  lemma {:induction false} FinishedRunCoversPlan(steps: seq<Step>, job: Job)
    requires var s := Execute(INITIAL, steps);
             && s.live && AllDone(s) && !s.rateLimited && job.model !in s.stopped
             && s.manifest.Some? && job in Jobs(s.manifest.value)
    ensures var s := Execute(INITIAL, steps);
            && Listing(s.log, job) != []
            && SavedAtStart(steps) <= |s.log|
            && (s.retryFailed || Listing(s.log[..SavedAtStart(steps)], job) == [] ==>
                  NothingLeft(Listing(s.log, job), s.manifest.value.policy.maxRetries))
  {
    RunKeepsInv(INITIAL, steps);
    SinceStart(steps, job);
    var s := Execute(INITIAL, steps);
    SettledMeans(s.manifest.value.policy, Listing(s.log, job));
    hide Execute, SavedAtStart, Listing, Settled, NothingLeft;
    DoneMeans(s, job);
  }

  lemma {:induction false} DoneMeans(s: State, job: Job)
    requires Inv(s) && s.live && s.manifest.Some? && job in Jobs(s.manifest.value)
    requires !s.rateLimited && job.model !in s.stopped && job in s.phases ==> s.phases[job].Done?
    ensures job in s.phases
    ensures !s.rateLimited && job.model !in s.stopped ==>
              Settled(s.manifest.value.policy, Listing(s.log, job)) || (!s.retryFailed && Listing(s.log, job) != [])
  {
    hide Settled, Listing, MarkersOk, FilesOk, Indexed, WrittenBy, ListedFiles, Accepted, InFlightJobs;
    assert job in Elements(Jobs(s.manifest.value));
    if !s.rateLimited && job.model !in s.stopped {
      assert PhaseOk(s.manifest.value.policy, s, job, s.phases[job]);
    }
  }

  // Without --retry-failed a process leaves a job alone that had results when it
  // started, whatever those were.
  lemma {:induction false} ResumeLeavesResults(steps: seq<Step>, job: Job)
    requires var s := Execute(INITIAL, steps); s.live && !s.retryFailed
    ensures var s := Execute(INITIAL, steps);
            && SavedAtStart(steps) <= |s.log|
            && (Listing(s.log[..SavedAtStart(steps)], job) != [] ==>
                  && Listing(s.log, job) == Listing(s.log[..SavedAtStart(steps)], job)
                  && (job in s.phases ==> s.phases[job].Idle? || s.phases[job].Done?))
  {
    SinceStart(steps, job);
  }

  // What the live process makes of a job, given its files at the start.
  ghost predicate JobSinceStart(s: State, earlier: seq<Entry>, job: Job) {
    && s.manifest.Some?
    && (earlier == [] ==> FreshOk(s, job))
    && (earlier != [] && !s.retryFailed ==> HeldOk(s, earlier, job))
  }

  ghost predicate FreshOk(s: State, job: Job)
    requires s.manifest.Some?
  {
    job in s.phases ==>
      && (s.phases[job].Idle? ==> Listing(s.log, job) == [])
      && (s.phases[job].Done? ==>
            s.rateLimited || job.model in s.stopped || Settled(s.manifest.value.policy, Listing(s.log, job)))
  }

  ghost predicate HeldOk(s: State, earlier: seq<Entry>, job: Job) {
    Listing(s.log, job) == earlier && (job in s.phases ==> s.phases[job].Idle? || s.phases[job].Done?)
  }

  lemma {:induction false} SinceStart(steps: seq<Step>, job: Job)
    ensures var s := Execute(INITIAL, steps);
            s.live ==>
              && SavedAtStart(steps) <= |s.log|
              && JobSinceStart(s, Listing(s.log[..SavedAtStart(steps)], job), job)
    decreases |steps|
  {
    if steps != [] {
      var n := |steps| - 1;
      var s, t := Execute(INITIAL, steps[..n]), Execute(INITIAL, steps);
      SinceStart(steps[..n], job);
      RunKeepsInv(INITIAL, steps[..n]);
      StepIsAppend(s, steps[n]);
      hide JobSinceStart, Listing, Inv, Apply;
      if t.live && !s.live {
        FreshProcess(s, steps[n], job);
        assert t.log[..|s.log|] == s.log;
      } else if t.live {
        SinceStartStep(s, steps[n], Listing(s.log[..SavedAtStart(steps[..n])], job), job);
        assert t.log[..SavedAtStart(steps)] == s.log[..SavedAtStart(steps)];
      }
    }
  }

  lemma {:induction false} FreshProcess(s: State, step: Step, job: Job)
    requires Inv(s) && !s.live && Apply(s, step).live
    ensures Apply(s, step).log == s.log
    ensures JobSinceStart(Apply(s, step), Listing(s.log, job), job)
  {
    hide Inv, Listing;
  }

  lemma {:induction false} SinceStartStep(s: State, step: Step, earlier: seq<Entry>, job: Job)
    requires Inv(s) && s.live && Apply(s, step).live && JobSinceStart(s, earlier, job)
    ensures JobSinceStart(Apply(s, step), earlier, job)
  {
    if Apply(s, step) != s {
      SinceStartJobStep(s.manifest.value.policy, s, step, earlier, job);
    }
  }

  lemma {:induction false} SinceStartJobStep(p: Policy, s: State, step: Step, earlier: seq<Entry>, job: Job)
    requires FilesOk(p, s.log) && PhasesOk(p, s) && s.manifest.Some? && p == s.manifest.value.policy
    requires !step.Start? && !step.Stop? && Enabled(p, s, step) && JobSinceStart(s, earlier, job)
    ensures JobSinceStart(JobStep(p, s, step), earlier, job)
  {
    hide FilesOk, PhaseOk, Listing;
    if step.job != job {
      if step.Complete? {
        OtherFilesStay(p, s, step.job, step.outcome, job);
      }
    } else {
      OwnStep(p, s, step, earlier);
    }
  }

  lemma {:induction false} OwnStep(p: Policy, s: State, step: Step, earlier: seq<Entry>)
    requires FilesOk(p, s.log) && PhasesOk(p, s) && s.manifest.Some? && p == s.manifest.value.policy
    requires !step.Start? && !step.Stop? && Enabled(p, s, step) && JobSinceStart(s, earlier, step.job)
    ensures JobSinceStart(JobStep(p, s, step), earlier, step.job)
  {
    assert PhaseOk(p, s, step.job, s.phases[step.job]);
    hide FilesOk, Listing, PhasesOk;
    match step
    case Complete(job, o) => OwnResult(p, s, job, o, earlier);
    case AskRepair(job) =>
    case Enter(job) =>
    case Acquire(job, _) =>
    case Wake(job) =>
  }

  lemma {:induction false} OwnResult(p: Policy, s: State, job: Job, o: Outcome, earlier: seq<Entry>)
    requires FilesOk(p, s.log) && s.manifest.Some? && p == s.manifest.value.policy
    requires job in s.phases && s.phases[job].InFlight? && PhaseOk(p, s, job, s.phases[job])
    requires JobSinceStart(s, earlier, job)
    ensures JobSinceStart(CompleteStep(p, s, job, o), earlier, job)
  {
    hide FilesOk, Listing;
    WriteKeepsFiles(p, s.log, Entry(job, s.phases[job].attempt, o), s.phases[job].round);
  }

  // A settled job is never attempted again, by any later process.
  lemma {:induction false} SettledStaysSettled(s: State, steps: seq<Step>, job: Job)
    requires Inv(s) && !s.live && s.manifest.Some?
    requires Settled(s.manifest.value.policy, Listing(s.log, job))
    ensures Listing(Execute(s, steps).log, job) == Listing(s.log, job)
  {
    SettledRun(s, steps, job);
  }

  ghost predicate SettledIn(s: State, files: seq<Entry>, job: Job) {
    && Inv(s) && s.manifest.Some?
    && Listing(s.log, job) == files
    && Settled(s.manifest.value.policy, files)
    && (job in s.phases ==> s.phases[job].Idle? || s.phases[job].Done?)
  }

  lemma {:induction false} SettledRun(s: State, steps: seq<Step>, job: Job)
    requires SettledIn(s, Listing(s.log, job), job)
    ensures SettledIn(Execute(s, steps), Listing(s.log, job), job)
    decreases |steps|
  {
    if steps != [] {
      var s' := Execute(s, steps[..|steps| - 1]);
      SettledRun(s, steps[..|steps| - 1], job);
      SettledStep(s', steps[|steps| - 1], Listing(s.log, job), job);
    }
  }

  lemma {:induction false} SettledStep(s: State, step: Step, files: seq<Entry>, job: Job)
    requires SettledIn(s, files, job)
    ensures SettledIn(Apply(s, step), files, job)
  {
    StepKeepsInv(s, step);
    StepIsAppend(s, step);
    if Apply(s, step) != s && !step.Start? && !step.Stop? {
      SettledJobStep(s.manifest.value.policy, s, step, job);
    }
  }

  lemma {:induction false} SettledJobStep(p: Policy, s: State, step: Step, job: Job)
    requires FilesOk(p, s.log) && PhasesOk(p, s) && Settled(p, Listing(s.log, job))
    requires job in s.phases ==> s.phases[job].Idle? || s.phases[job].Done?
    requires !step.Start? && !step.Stop? && Enabled(p, s, step)
    ensures var t := JobStep(p, s, step);
            && Listing(t.log, job) == Listing(s.log, job)
            && (job in t.phases ==> t.phases[job].Idle? || t.phases[job].Done?)
  {
    hide FilesOk, PhaseOk, Listing;
    if step.Complete? {
      OtherFilesStay(p, s, step.job, step.outcome, job);
    }
  }

  lemma {:induction false} OtherFilesStay(p: Policy, s: State, writer: Job, outcome: Outcome, job: Job)
    requires FilesOk(p, s.log) && writer != job && Enabled(p, s, Complete(writer, outcome))
    requires PhaseOk(p, s, writer, s.phases[writer])
    ensures Listing(CompleteStep(p, s, writer, outcome).log, job) == Listing(s.log, job)
  {
    var e := Entry(writer, s.phases[writer].attempt, outcome);
    WriteKeepsFiles(p, s.log, e, s.phases[writer].round);
  }
}
