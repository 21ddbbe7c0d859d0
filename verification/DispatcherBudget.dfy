// How many attempts and provider calls a run directory can see, over all its
// processes: the budget bounds the saved results, and the attempts begun exactly up
// to those that were lost with a process; every attempt makes at most two calls.
module DispatcherBudget {
  import opened Wrappers
  import opened AttemptLog
  import opened Dispatcher
  import opened DispatcherInvariant
  import opened DispatcherTheorems

  lemma {:induction false} LoadBound(jobs: seq<Job>, log: seq<Entry>, flying: set<Job>, budget: nat)
    requires Distinct(jobs) && flying <= Elements(jobs)
    requires forall j :: |Listing(log, j)| + (if j in flying then 1 else 0) <= budget
    ensures ListedFiles(jobs, log) + |flying| <= |jobs| * budget
  {
    hide Listing;
    if jobs == [] {
      assert flying == {};
    } else {
      var rest := flying - {jobs[0]};
      forall j ensures |Listing(log, j)| + (if j in rest then 1 else 0) <= budget {
      }
      LoadBound(jobs[1..], log, rest, budget);
      OneMoreTime(|jobs[1..]|, budget);
      assert jobs[0] in flying ==> flying == rest + {jobs[0]};
      assert jobs[0] !in flying ==> flying == rest;
      assert |Listing(log, jobs[0])| + (if jobs[0] in flying then 1 else 0) <= budget;
    }
  }

  lemma {:induction false} JobLoad(p: Policy, s: State, j: Job)
    requires FilesOk(p, s.log) && PhasesOk(p, s)
    ensures |Listing(s.log, j)| + (if j in InFlightJobs(s.phases) then 1 else 0) <= 1 + p.maxRetries
  {
    assert JobFilesOk(Listing(s.log, j), j, p.maxRetries);
    if j in InFlightJobs(s.phases) {
      assert PhaseOk(p, s, j, s.phases[j]);
    }
  }

  lemma {:induction false} RunLoad(p: Policy, jobs: seq<Job>, s: State)
    requires RunOk(p, jobs, s) && Distinct(jobs)
    ensures |s.log| + |InFlightJobs(s.phases)| <= |jobs| * (1 + p.maxRetries)
  {
    hide Listing, FilesOk, MarkersOk, Indexed, WrittenBy, PhasesOk;
    forall j
      ensures |Listing(s.log, j)| + (if j in InFlightJobs(s.phases) then 1 else 0) <= 1 + p.maxRetries
    {
      JobLoad(p, s, j);
    }
    assert InFlightJobs(s.phases) <= Elements(jobs);
    LoadBound(jobs, s.log, InFlightJobs(s.phases), 1 + p.maxRetries);
  }

  function Planned(m: Manifest): nat {
    m.repeats * (|m.cases| * |m.variants|)
  }

  function Budget(m: Manifest): nat {
    Planned(m) * (1 + m.policy.maxRetries)
  }

  // Attempts whose process ended before their result was written.
  ghost function LostAttempts(steps: seq<Step>): nat
    decreases |steps|
  {
    if steps == [] then 0
    else
      var s := Execute(INITIAL, steps[..|steps| - 1]);
      LostAttempts(steps[..|steps| - 1])
      + if steps[|steps| - 1].Stop? && s.live then |InFlightJobs(s.phases)| else 0
  }

  // No process ends during an attempt.
  ghost predicate CleanStops(steps: seq<Step>)
    decreases |steps|
  {
    steps != [] ==>
      var s := Execute(INITIAL, steps[..|steps| - 1]);
      && CleanStops(steps[..|steps| - 1])
      && (steps[|steps| - 1].Stop? && s.live ==> InFlightJobs(s.phases) == {})
  }

  lemma {:induction false} StepLoses(s: State, step: Step)
    ensures Apply(s, step).lostAttempts == s.lostAttempts + if step.Stop? && s.live then |InFlightJobs(s.phases)| else 0
  {
  }

  lemma {:induction false} LostIsCounted(steps: seq<Step>)
    ensures Execute(INITIAL, steps).lostAttempts == LostAttempts(steps)
    ensures LostAttempts(steps) == 0 <==> CleanStops(steps)
    decreases |steps|
  {
    if steps != [] {
      var n := |steps| - 1;
      LostIsCounted(steps[..n]);
      StepLoses(Execute(INITIAL, steps[..n]), steps[n]);
      hide Apply;
    }
  }

  // Over all processes on one run directory: no result file is ever overwritten,
  // saved results and calls in flight stay within the planned budget together, and
  // every attempt begun is saved, in flight, or lost with the process that made it.
  // The provider calls begun are at most twice the attempts.
  lemma {:induction false} BudgetOverAllRuns(steps: seq<Step>)
    ensures var s := Execute(INITIAL, steps);
            && s.attempts == |s.log| + |InFlightJobs(s.phases)| + LostAttempts(steps)
            && (s.manifest.Some? ==>
                  && ListedFiles(Jobs(s.manifest.value), s.log) == |s.log|
                  && |s.log| + |InFlightJobs(s.phases)| <= Budget(s.manifest.value)
                  && s.attempts <= Budget(s.manifest.value) + LostAttempts(steps)
                  && s.calls <= 2 * (Budget(s.manifest.value) + LostAttempts(steps)))
            && s.calls <= 2 * s.attempts
  {
    RunKeepsInv(INITIAL, steps);
    LostIsCounted(steps);
    hide Execute, Budget, Jobs, ListedFiles, RunOk, Accepted, LostAttempts;
    var s := Execute(INITIAL, steps);
    if s.manifest.Some? {
      InvBudget(s, s.manifest.value);
    } else {
      assert InFlightJobs(map[]) == {};
    }
  }

  // While no process ends during an attempt, the attempts begun stay within the
  // budget and the provider calls within twice the budget.
  lemma {:induction false} CleanRunsStayInBudget(steps: seq<Step>)
    requires CleanStops(steps)
    ensures var s := Execute(INITIAL, steps);
            && s.attempts == |s.log| + |InFlightJobs(s.phases)|
            && (s.manifest.Some? ==> s.attempts <= Budget(s.manifest.value) && s.calls <= 2 * Budget(s.manifest.value))
  {
    BudgetOverAllRuns(steps);
    LostIsCounted(steps);
  }

  // A directory whose budget of results is used up has seen more attempts than the
  // budget exactly when some process ended during an attempt.
  lemma {:induction false} OverBudgetIffLost(steps: seq<Step>)
    requires var s := Execute(INITIAL, steps); s.manifest.Some? && |s.log| == Budget(s.manifest.value)
    ensures var s := Execute(INITIAL, steps);
            s.attempts > Budget(s.manifest.value) <==> !CleanStops(steps)
  {
    BudgetOverAllRuns(steps);
    LostIsCounted(steps);
  }

  lemma {:induction false} InvBudget(s: State, m: Manifest)
    requires Inv(s) && s.manifest == Some(m)
    ensures ListedFiles(Jobs(m), s.log) == |s.log|
    ensures |s.log| + |InFlightJobs(s.phases)| <= Budget(m)
    ensures s.attempts == |s.log| + |InFlightJobs(s.phases)| + s.lostAttempts
    ensures s.calls <= 2 * s.attempts
  {
    RunOfInv(s, m);
    hide *;
    PlannedJobs(m);
    RunBudget(m, s);
  }

  lemma {:induction false} RunOfInv(s: State, m: Manifest)
    requires Inv(s) && s.manifest == Some(m)
    ensures Accepted(m) && RunOk(m.policy, Jobs(m), s)
  {
    hide Accepted, RunOk, Jobs;
  }

  lemma {:induction false} BudgetOfJobs(m: Manifest)
    requires |Jobs(m)| == Planned(m)
    ensures Budget(m) == |Jobs(m)| * (1 + m.policy.maxRetries)
  {
    hide Planned, Jobs;
  }

  lemma {:induction false} RunBudget(m: Manifest, s: State)
    requires RunOk(m.policy, Jobs(m), s) && Distinct(Jobs(m)) && |Jobs(m)| == Planned(m)
    ensures ListedFiles(Jobs(m), s.log) == |s.log|
    ensures |s.log| + |InFlightJobs(s.phases)| <= Budget(m)
    ensures s.attempts == |s.log| + |InFlightJobs(s.phases)| + s.lostAttempts
    ensures s.calls <= 2 * s.attempts
  {
    RunLoad(m.policy, Jobs(m), s);
    BudgetOfJobs(m);
    hide FilesOk, MarkersOk, PhasesOk, Indexed, Distinct, Budget, Planned, Jobs, ListedFiles, InFlightJobs, WrittenBy;
    assert LiveOk(m.policy, Jobs(m), s) && CallsOk(s);
  }

  lemma {:induction false} PlannedJobs(m: Manifest)
    requires Accepted(m)
    ensures Distinct(Jobs(m)) && |Jobs(m)| == Planned(m)
  {
    JobProduct(m);
  }

  // ---- the bound is attained ----

  // A live process between attempts in which nothing was stopped.
  ghost predicate Calm(s: State, m: Manifest) {
    s.live && s.manifest == Some(m) && !s.rateLimited && s.stopped == {} && InFlightJobs(s.phases) == {}
  }

  const TIMEOUT := Outcome(NotSucceeded("ERROR"), Some(PROVIDER_TIMEOUT_ERROR), [], [], None)

  // The coroutine of the job is about to make attempt r + 1, all earlier ones timed out.
  ghost predicate Trying(s: State, m: Manifest, j: Job, r: nat) {
    && Calm(s, m) && j in s.phases && s.phases[j] == Waiting(r, r + 1)
    && TimedOut(Listing(s.log, j), j, r) && r <= m.policy.maxRetries
  }

  ghost predicate TimedOut(files: seq<Entry>, j: Job, n: nat) {
    |files| == n && forall i :: 0 <= i < n ==> files[i] == Entry(j, i + 1, TIMEOUT)
  }

  // Only job j moved; n attempts of it were begun and saved, with two calls each.
  ghost predicate Spent(s: State, t: State, m: Manifest, j: Job, n: nat) {
    && Calm(t, m) && j in t.phases && t.phases == s.phases[j := t.phases[j]]
    && t.attempts == s.attempts + n && t.calls == s.calls + 2 * n
    && t.lostAttempts == s.lostAttempts && t.ended == s.ended
    && forall k :: k != j ==> Listing(t.log, k) == Listing(s.log, k)
  }

  lemma {:induction false} SpentTwice(s: State, t: State, v: State, m: Manifest, j: Job, a: nat, b: nat)
    requires Spent(s, t, m, j, a) && Spent(t, v, m, j, b)
    ensures Spent(s, v, m, j, a + b)
  {
    hide Listing, Calm;
  }

  // The attempt of the waiting job: its first output is rejected, the repair times out.
  function Timeout(s: State, p: Policy, j: Job): State
    requires j in s.phases && s.phases[j].Waiting? && !s.rateLimited && j.model !in s.stopped
  {
    CompleteStep(p, RepairStep(AcquireStep(s, j, true), j), j, TIMEOUT)
  }

  function AttemptSteps(j: Job): seq<Step> {
    [Acquire(j, true), AskRepair(j), Complete(j, TIMEOUT)]
  }

  lemma {:induction false} TimeoutSteps(s: State, m: Manifest, j: Job, r: nat)
    requires Trying(s, m, j, r) && 1 <= m.policy.concurrency
    ensures Execute(s, AttemptSteps(j)) == Timeout(s, m.policy, j)
  {
    hide Listing;
    var a, b := [Acquire(j, true)], [Acquire(j, true), AskRepair(j)];
    assert b == a + [AskRepair(j)] && AttemptSteps(j) == b + [Complete(j, TIMEOUT)];
    OneStep(s, Acquire(j, true));
    Extend(s, a, AskRepair(j));
    Extend(s, b, Complete(j, TIMEOUT));
    hide Execute;
    AcquireFlies(s, m, j, r);
    var flying := Apply(s, Acquire(j, true));
    RepairFlies(flying, m, j);
    CompleteLands(Apply(flying, AskRepair(j)), m, j);
  }

  lemma {:induction false} AcquireFlies(s: State, m: Manifest, j: Job, r: nat)
    requires s.live && s.manifest == Some(m) && !s.rateLimited && s.stopped == {}
    requires j in s.phases && s.phases[j] == Waiting(r, r + 1) && |InFlightJobs(s.phases)| < m.policy.concurrency
    ensures Apply(s, Acquire(j, true)) == AcquireStep(s, j, true)
    ensures AcquireStep(s, j, true) ==
            s.(phases := s.phases[j := InFlight(r, r + 1, 1)], attempts := s.attempts + 1, calls := s.calls + 1)
  {
  }

  lemma {:induction false} RepairFlies(s: State, m: Manifest, j: Job)
    requires s.live && s.manifest == Some(m) && j in s.phases && s.phases[j].InFlight? && s.phases[j].calls == 1
    ensures Apply(s, AskRepair(j)) == RepairStep(s, j)
  {
  }

  lemma {:induction false} CompleteLands(s: State, m: Manifest, j: Job)
    requires s.live && s.manifest == Some(m) && j in s.phases && s.phases[j].InFlight?
    ensures Apply(s, Complete(j, TIMEOUT)) == CompleteStep(m.policy, s, j, TIMEOUT)
  {
  }

  lemma {:induction false} TimeoutSpends(s: State, m: Manifest, j: Job, r: nat)
    requires Trying(s, m, j, r)
    ensures var t := Timeout(s, m.policy, j);
            && Spent(s, t, m, j, 1)
            && TimedOut(Listing(t.log, j), j, r + 1)
            && t.phases[j] == if r == m.policy.maxRetries then Done else BackingOff(r)
  {
    TimeoutListed(s, m, j, r);
    TimeoutIs(s, m.policy, j, r);
    hide Listing, Timeout, TimedOut, Spent;
    SpentOne(s, m, j, if r == m.policy.maxRetries then Done else BackingOff(r), Entry(j, r + 1, TIMEOUT));
  }

  lemma {:induction false} SpentOne(s: State, m: Manifest, j: Job, phase: Phase, e: Entry)
    requires Calm(s, m) && j in s.phases && s.phases[j].Waiting? && !phase.InFlight?
    requires forall k :: k != j ==> Listing(s.log + [e], k) == Listing(s.log, k)
    ensures Spent(s, s.(phases := s.phases[j := phase], log := s.log + [e], attempts := s.attempts + 1,
                        calls := s.calls + 2), m, j, 1)
  {
    hide Listing;
    PhaseChange(s.phases, j, phase);
    assert j !in InFlightJobs(s.phases);
    hide InFlightJobs;
  }

  lemma {:induction false} TimeoutListed(s: State, m: Manifest, j: Job, r: nat)
    requires Trying(s, m, j, r)
    ensures var log := s.log + [Entry(j, r + 1, TIMEOUT)];
            && TimedOut(Listing(log, j), j, r + 1)
            && forall k :: k != j ==> Listing(log, k) == Listing(s.log, k)
  {
    NextWrite(s.log, Entry(j, r + 1, TIMEOUT), m.policy.maxRetries);
    hide Listing;
  }

  lemma {:induction false} TimeoutIs(s: State, p: Policy, j: Job, r: nat)
    requires j in s.phases && s.phases[j] == Waiting(r, r + 1) && !s.rateLimited && s.stopped == {}
    requires r <= p.maxRetries
    ensures Timeout(s, p, j) ==
            s.(phases := s.phases[j := if r == p.maxRetries then Done else BackingOff(r)],
               log := s.log + [Entry(j, r + 1, TIMEOUT)], attempts := s.attempts + 1, calls := s.calls + 2)
  {
    assert s.phases[j := InFlight(r, r + 1, 1)][j := InFlight(r, r + 1, 2)] == s.phases[j := InFlight(r, r + 1, 2)];
  }

  lemma {:induction false} WakeAgain(s: State, m: Manifest, j: Job, r: nat)
    requires Calm(s, m) && j in s.phases && s.phases[j] == BackingOff(r) && r < m.policy.maxRetries
    requires TimedOut(Listing(s.log, j), j, r + 1)
    ensures var t := Execute(s, [Wake(j)]); Trying(t, m, j, r + 1) && Spent(s, t, m, j, 0)
  {
    assert [Wake(j)] == [] + [Wake(j)];
    Extend(s, [], Wake(j));
    hide Listing, Execute;
    PhaseChange(s.phases, j, Waiting(r + 1, r + 2));
    assert WakeStep(m.policy, s, j) == MoveTo(s, j, Waiting(r + 1, r + 2));
  }

  lemma {:induction false} Attempts(s: State, m: Manifest, j: Job, r: nat) returns (steps: seq<Step>)
    requires Trying(s, m, j, r) && 1 <= m.policy.concurrency
    ensures var t := Execute(s, steps); Spent(s, t, m, j, m.policy.maxRetries + 1 - r)
    decreases m.policy.maxRetries - r
  {
    hide Execute, Spent, Trying, TimedOut, Listing;
    steps := AttemptSteps(j);
    TimeoutSteps(s, m, j, r);
    TimeoutSpends(s, m, j, r);
    TryingBound(s, m, j, r);
    var t := Execute(s, steps);
    if r < m.policy.maxRetries {
      SpentParts(s, t, m, j, 1);
      WakeAgain(t, m, j, r);
      var v := Execute(t, [Wake(j)]);
      var rest := Attempts(v, m, j, r + 1);
      SpentTwice(s, t, v, m, j, 1, 0);
      SpentTwice(s, v, Execute(v, rest), m, j, 1, m.policy.maxRetries - r);
      ExecuteConcat(t, [Wake(j)], rest);
      ExecuteConcat(s, steps, [Wake(j)] + rest);
      steps := steps + ([Wake(j)] + rest);
    }
  }

  lemma {:induction false} TryingBound(s: State, m: Manifest, j: Job, r: nat)
    requires Trying(s, m, j, r)
    ensures r <= m.policy.maxRetries
  {
  }

  lemma {:induction false} SpentParts(s: State, t: State, m: Manifest, j: Job, n: nat)
    requires Spent(s, t, m, j, n)
    ensures Calm(t, m) && j in t.phases
  {
  }

  // The coroutine of a job without results queues for its first attempt.
  lemma {:induction false} FirstEntry(s: State, m: Manifest, j: Job)
    requires Calm(s, m) && j in s.phases && s.phases[j].Idle? && Listing(s.log, j) == []
    ensures Execute(s, [Enter(j)]) == MoveTo(s, j, Waiting(0, 1))
    ensures InFlightJobs(MoveTo(s, j, Waiting(0, 1)).phases) == {}
  {
    OneStep(s, Enter(j));
    EnterQueues(s, m, j);
    hide *;
    WaitingFliesNot(s, m, j);
  }

  lemma {:induction false} WaitingFliesNot(s: State, m: Manifest, j: Job)
    requires Calm(s, m) && j in s.phases
    ensures InFlightJobs(MoveTo(s, j, Waiting(0, 1)).phases) == {}
  {
    PhaseChange(s.phases, j, Waiting(0, 1));
    hide InFlightJobs;
  }

  lemma {:induction false} OneStep(s: State, step: Step)
    ensures Execute(s, [step]) == Apply(s, step)
  {
    assert [step] == [] + [step];
    Extend(s, [], step);
    hide Apply;
  }

  lemma {:induction false} EnterQueues(s: State, m: Manifest, j: Job)
    requires s.live && s.manifest == Some(m) && j in s.phases && s.phases[j].Idle? && Listing(s.log, j) == []
    ensures Apply(s, Enter(j)) == MoveTo(s, j, Waiting(0, 1))
  {
    hide Listing;
  }

  // A job without results uses up its attempts.
  lemma {:induction false} Exhaust(s: State, m: Manifest, j: Job) returns (steps: seq<Step>)
    requires Calm(s, m) && j in s.phases && s.phases[j].Idle? && Listing(s.log, j) == []
    requires 1 <= m.policy.concurrency
    ensures Spent(s, Execute(s, steps), m, j, m.policy.maxRetries + 1)
  {
    FirstEntry(s, m, j);
    hide Execute, Listing;
    var t := Execute(s, [Enter(j)]);
    assert Trying(t, m, j, 0) && Spent(s, t, m, j, 0);
    var rest := Attempts(t, m, j, 0);
    SpentTwice(s, t, Execute(t, rest), m, j, 0, m.policy.maxRetries + 1);
    ExecuteConcat(s, [Enter(j)], rest);
    steps := [Enter(j)] + rest;
  }

  ghost predicate Untouched(s: State, jobs: seq<Job>) {
    forall j :: j in jobs ==> j in s.phases && s.phases[j].Idle? && Listing(s.log, j) == []
  }

  lemma {:induction false} ExhaustAll(s: State, m: Manifest, jobs: seq<Job>) returns (steps: seq<Step>)
    requires Calm(s, m) && Distinct(jobs) && Untouched(s, jobs) && 1 <= m.policy.concurrency
    ensures var t := Execute(s, steps);
            t.manifest == Some(m) && t.lostAttempts == s.lostAttempts && t.ended == s.ended
            && t.attempts == s.attempts + |jobs| * (1 + m.policy.maxRetries)
            && t.calls == s.calls + 2 * (|jobs| * (1 + m.policy.maxRetries))
    decreases |jobs|
  {
    if jobs == [] {
      steps := [];
    } else {
      assert jobs[0] in jobs;
      var first := Exhaust(s, m, jobs[0]);
      var t := Execute(s, first);
      StillUntouched(s, t, m, jobs);
      var rest := ExhaustAll(t, m, jobs[1..]);
      ExecuteConcat(s, first, rest);
      OneMoreTime(|jobs[1..]|, 1 + m.policy.maxRetries);
      steps := first + rest;
    }
  }

  lemma {:induction false} StillUntouched(s: State, t: State, m: Manifest, jobs: seq<Job>)
    requires jobs != [] && Distinct(jobs) && Untouched(s, jobs) && Spent(s, t, m, jobs[0], 1 + m.policy.maxRetries)
    ensures Untouched(t, jobs[1..]) && Distinct(jobs[1..])
  {
    hide Listing;
    forall j | j in jobs[1..] ensures j in t.phases && t.phases[j].Idle? && Listing(t.log, j) == [] {
      assert j in jobs && j != jobs[0];
    }
  }

  // No process is live and nothing was saved; `lost` processes ended, each during
  // the repair call of its only attempt.
  ghost predicate Interrupted(s: State, m: Manifest, lost: nat) {
    && MayStart(s, m) && s.log == [] && s.markers == {} && s.phases == map[]
    && s.attempts == s.lostAttempts == s.ended == lost && s.calls == 2 * lost
  }

  lemma {:induction false} StartCalm(s: State, m: Manifest, lost: nat)
    requires Interrupted(s, m, lost)
    ensures var t := Execute(s, [Start(m, false)]);
            && Calm(t, m) && Untouched(t, Jobs(m)) && t.log == [] && t.markers == {}
            && t.attempts == t.lostAttempts == t.ended == lost && t.calls == 2 * lost
  {
    OneStep(s, Start(m, false));
    assert Apply(s, Start(m, false)) == StartStep(s, m, false);
    hide Execute, Apply, Jobs, Accepted, MayStart;
    AllIdle(s, m);
  }

  lemma {:induction false} AllIdle(s: State, m: Manifest)
    requires s.log == [] && s.markers == {}
    ensures var t := StartStep(s, m, false); Calm(t, m) && Untouched(t, Jobs(m))
  {
    hide Jobs;
    assert forall j :: Listing([], j) == [];
    var t := StartStep(s, m, false);
    assert t.phases.Keys == Elements(Jobs(m));
  }

  lemma {:induction false} SomeJob(m: Manifest) returns (j: Job)
    requires Accepted(m)
    ensures j in Jobs(m) && 1 <= m.policy.concurrency
  {
    j := Job(m.cases[0], m.variants[0].0, m.variants[0].1, 1);
    JobMember(m.cases, m.variants, m.repeats, j);
  }

  lemma {:induction false} FirstAttempt(s: State, m: Manifest, j: Job)
    requires Calm(s, m) && j in s.phases && s.phases[j].Idle? && Listing(s.log, j) == [] && 1 <= m.policy.concurrency
    ensures Execute(s, [Enter(j), Acquire(j, true), AskRepair(j)]) ==
            s.(phases := s.phases[j := InFlight(0, 1, 2)], attempts := s.attempts + 1, calls := s.calls + 2)
  {
    var a, b, c := [Enter(j)], [Enter(j), Acquire(j, true)], [Enter(j), Acquire(j, true), AskRepair(j)];
    assert b == a + [Acquire(j, true)] && c == b + [AskRepair(j)];
    Extend(s, a, Acquire(j, true));
    Extend(s, b, AskRepair(j));
    FirstEntry(s, m, j);
    hide Execute, Listing, Apply, InFlightJobs;
    var waiting := MoveTo(s, j, Waiting(0, 1));
    AcquireFlies(waiting, m, j, 0);
    RepairFlies(AcquireStep(waiting, j, true), m, j);
    assert s.phases[j := Waiting(0, 1)][j := InFlight(0, 1, 1)][j := InFlight(0, 1, 2)] ==
           s.phases[j := InFlight(0, 1, 2)];
  }

  lemma {:induction false} StopDuringAttempt(s: State, j: Job)
    requires s.live && j in s.phases && InFlightJobs(s.phases) == {j}
    ensures Execute(s, [Stop]) == StopStep(s) && StopStep(s).lostAttempts == s.lostAttempts + 1
  {
    OneStep(s, Stop);
  }

  // One more process begins an attempt and ends during its repair call.
  lemma {:induction false} OneLoss(s: State, m: Manifest, lost: nat) returns (steps: seq<Step>)
    requires Interrupted(s, m, lost)
    ensures Interrupted(Execute(s, steps), m, lost + 1)
  {
    var j := SomeJob(m);
    StartCalm(s, m, lost);
    var begin, attempt := [Start(m, false)], [Enter(j), Acquire(j, true), AskRepair(j)];
    var t := Execute(s, begin);
    ExecuteConcat(s, begin, attempt);
    ExecuteConcat(s, begin + attempt, [Stop]);
    assert Accepted(m);
    hide Jobs, Accepted, Execute, Listing;
    FirstAttempt(t, m, j);
    PhaseChange(t.phases, j, InFlight(0, 1, 2));
    StopDuringAttempt(Execute(t, attempt), j);
    steps := begin + attempt + [Stop];
  }

  lemma {:induction false} Losses(m: Manifest, n: nat) returns (steps: seq<Step>)
    requires Accepted(m)
    ensures Interrupted(Execute(INITIAL, steps), m, n)
  {
    if n == 0 {
      steps := [];
    } else {
      var before := Losses(m, n - 1);
      hide Accepted, Interrupted, Execute;
      var last := OneLoss(Execute(INITIAL, before), m, n - 1);
      ExecuteConcat(INITIAL, before, last);
      steps := before + last;
    }
  }

  // For every plan and every n some run loses exactly n attempts, one in each of n
  // processes, begins exactly n attempts more than the budget, and makes two
  // provider calls in each of them: neither bound can be improved.
  lemma {:induction false} BoundIsAttained(m: Manifest, n: nat) returns (steps: seq<Step>)
    requires Accepted(m)
    ensures var s := Execute(INITIAL, steps);
            && s.manifest == Some(m) && s.ended == n && LostAttempts(steps) == n
            && s.attempts == Budget(m) + n
            && s.calls == 2 * (Budget(m) + n)
  {
    var lost := Losses(m, n);
    var j := SomeJob(m);
    PlannedJobs(m);
    BudgetOfJobs(m);
    hide *;
    var s := Execute(INITIAL, lost);
    StartCalm(s, m, n);
    var t := Execute(s, [Start(m, false)]);
    var rest := ExhaustAll(t, m, Jobs(m));
    ExecuteConcat(s, [Start(m, false)], rest);
    ExecuteConcat(INITIAL, lost, [Start(m, false)] + rest);
    steps := lost + ([Start(m, false)] + rest);
    LostIsCounted(steps);
  }
}
