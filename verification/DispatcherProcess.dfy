// One live process on a run directory, in the source's imperative form: the
// coroutines of evaluate() share a semaphore, a rate-limit event, the set of
// stopped models and the result files. Each method is the code between two
// suspension points and is proved against the transition system.
module DispatcherProcess {
  import opened Wrappers
  import opened AttemptLog
  import opened Dispatcher
  import opened DispatcherInvariant
  import opened DispatcherTheorems

  // The semaphore's counter and the calls in flight add up to its size.
  ghost predicate SlotsOk(s: State, slots: int) {
    s.manifest.Some? && slots + |InFlightJobs(s.phases)| == s.manifest.value.policy.concurrency
  }

  ghost predicate ProcessOk(s: State, slots: int) {
    Inv(s) && s.live && SlotsOk(s, slots)
  }

  lemma {:induction false} SlotsAfter(s: State, step: Step, slots: int)
    requires ProcessOk(s, slots)
    requires !step.Start? && !step.Stop? && Enabled(s.manifest.value.policy, s, step)
    ensures Apply(s, step) == JobStep(s.manifest.value.policy, s, step)
    ensures ProcessOk(Apply(s, step),
                      if step.Complete? then slots + 1 else if Launches(s, step) then slots - 1 else slots)
  {
    CoroutineKeepsInv(s, step);
    SlotsChange(s.manifest.value.policy, s, step);
  }

  lemma {:induction false} SlotsChange(p: Policy, s: State, step: Step)
    requires !step.Start? && !step.Stop? && Enabled(p, s, step)
    ensures var t := JobStep(p, s, step);
            && t.live == s.live && t.manifest == s.manifest
            && |InFlightJobs(t.phases)| ==
               |InFlightJobs(s.phases)| + if step.Complete? then -1 else if Launches(s, step) then 1 else 0
  {
    NextPhase(p, s, step);
    hide JobStep;
    PhaseChange(s.phases, step.job, JobStep(p, s, step).phases[step.job]);
    assert step.job in InFlightJobs(s.phases) <==> step.Complete? || step.AskRepair?;
  }

  class Process {
    const manifest: Manifest
    const retryFailed: bool
    var log: seq<Entry>
    var markers: set<string>
    var phases: map<Job, Phase>
    var slots: nat  // the semaphore's counter
    var rateLimited: bool
    var stopped: set<string>
    ghost var attempts: nat
    ghost var calls: nat
    ghost const lostAttempts: nat
    ghost const ended: nat

    ghost function View(): State
      reads this
    {
      State(Some(manifest), log, markers, true, retryFailed, phases, rateLimited, stopped,
            attempts, calls, lostAttempts, ended)
    }

    ghost predicate Valid()
      reads this
    {
      ProcessOk(View(), slots)
    }

    constructor (m: Manifest, retry: bool, files: seq<Entry>, stopMarkers: set<string>, ghost s: State)
      requires Inv(s) && MayStart(s, m) && files == s.log && stopMarkers == s.markers
      ensures Valid() && View() == StartStep(s, m, retry)
    {
      manifest, retryFailed := m, retry;
      log, markers := files, stopMarkers;
      phases := map j | j in Elements(Jobs(m)) :: Idle;
      slots := m.policy.concurrency;
      rateLimited := false;
      stopped := if m.policy.documented then stopMarkers else {};
      attempts, calls, lostAttempts, ended := s.attempts, s.calls, s.lostAttempts, s.ended;
      new;
      StartKeepsInv(s, m, retry);
      assert InFlightJobs(phases) == {};
    }

    // run_once up to `async with semaphore`.
    method QueueAttempt(job: Job)
      requires Valid() && Enabled(manifest.policy, View(), Enter(job))
      modifies this`phases
      ensures Valid() && View() == Apply(old(View()), Enter(job))
    {
      hide Inv;
      SlotsAfter(View(), Enter(job), slots);
      var queued := Queued(Admit(manifest.policy, log, job, retryFailed, false), 0);
      phases := phases[job := queued];
    }

    // The semaphore admits the coroutine: the stop gate, then the attempt begins,
    // with its first provider call if it gets that far.
    method TakeSlot(job: Job, calling: bool)
      requires Valid() && job in phases && phases[job].Waiting? && slots > 0
      modifies this`phases, this`slots, this`attempts, this`calls
      ensures Valid() && View() == Apply(old(View()), Acquire(job, calling))
    {
      hide Inv;
      SlotsAfter(View(), Acquire(job, calling), slots);
      if rateLimited || job.model in stopped {
        phases := phases[job := Done];
      } else {
        var begun := if calling then 1 else 0;
        var flying := InFlight(phases[job].round, phases[job].attempt, begun);
        slots := slots - 1;
        phases := phases[job := flying];
        attempts, calls := attempts + 1, calls + begun;
      }
    }

    // analyze() rejected the first output: the second turn of its loop.
    method AskForRepair(job: Job)
      requires Valid() && Enabled(manifest.policy, View(), AskRepair(job))
      modifies this`phases, this`calls
      ensures Valid() && View() == Apply(old(View()), AskRepair(job))
    {
      hide Inv;
      SlotsAfter(View(), AskRepair(job), slots);
      phases := phases[job := phases[job].(calls := 2)];
      calls := calls + 1;
    }

    // The call returned: save the result, raise the stops, free the slot, and let
    // run() decide whether to back off.
    method SaveResult(job: Job, outcome: Outcome)
      requires Valid() && Enabled(manifest.policy, View(), Complete(job, outcome))
      modifies this`log, this`markers, this`phases, this`slots, this`rateLimited, this`stopped
      ensures Valid() && View() == Apply(old(View()), Complete(job, outcome))
    {
      hide Inv;
      SlotsAfter(View(), Complete(job, outcome), slots);
      var InFlight(round, attempt, _) := phases[job];
      log := log + [Entry(job, attempt, outcome)];
      if manifest.policy.documented && outcome.Fatal() {
        stopped := stopped + {job.model};
        markers := markers + {job.model};
      }
      if manifest.policy.stopOnRateLimit && outcome.RateLimited() && !rateLimited {
        rateLimited := true;
      }
      var next := AfterResult(manifest.policy, outcome, attempt, round, rateLimited);
      phases := phases[job := next];
      slots := slots + 1;
    }

    // The back-off sleep ended: the next iteration of run()'s loop.
    method RetryAfterSleep(job: Job)
      requires Valid() && Enabled(manifest.policy, View(), Wake(job))
      modifies this`phases
      ensures Valid() && View() == Apply(old(View()), Wake(job))
    {
      hide Inv;
      SlotsAfter(View(), Wake(job), slots);
      var round := phases[job].round + 1;
      var next := Done;
      if round <= manifest.policy.maxRetries {
        next := Queued(Admit(manifest.policy, log, job, retryFailed, true), round);
      }
      phases := phases[job := next];
    }

    // asyncio.gather over all jobs with an arbitrary scheduler: whichever runnable
    // coroutine is resumed next, the loop ends with every coroutine returned.
    // `calling` and `malformed` say how far each attempt gets.
    method Gather(provider: (Job, nat) -> Outcome, calling: (Job, nat) -> bool, malformed: (Job, nat) -> bool)
      returns (ghost steps: seq<Step>)
      requires Valid()
      modifies this
      ensures Valid() && AllDone(View())
      ensures Busy(old(View()), steps) && View() == Execute(old(View()), steps)
    {
      hide Inv;
      steps := [];
      while exists j :: j in phases && !phases[j].Done?
        invariant Valid()
        invariant Busy(old(View()), steps) && View() == Execute(old(View()), steps)
        decreases Measure(manifest.policy, Jobs(manifest), phases)
      {
        ghost var before := View();
        assert exists j :: Runnable(j) by {
          SomeoneRuns();
        }
        var j :| j in phases && Runnable(j);
        ghost var step: Step;
        match phases[j] {
          case Idle =>
            step := Enter(j);
            QueueAttempt(j);
          case Waiting(_, attempt) =>
            step := Acquire(j, calling(j, attempt));
            TakeSlot(j, calling(j, attempt));
          case InFlight(_, attempt, begun) =>
            if begun == 1 && malformed(j, attempt) {
              step := AskRepair(j);
              AskForRepair(j);
            } else {
              step := Complete(j, provider(j, attempt));
              SaveResult(j, provider(j, attempt));
            }
          case BackingOff(_) =>
            step := Wake(j);
            RetryAfterSleep(j);
        }
        BusyStep(manifest, before, step);
        Extend(old(View()), steps, step);
        assert (steps + [step])[..|steps|] == steps;
        steps := steps + [step];
      }
    }

    predicate Runnable(j: Job)
      reads this
    {
      j in phases && !phases[j].Done? && (phases[j].Waiting? ==> slots > 0)
    }

    lemma {:induction false} SomeoneRuns()
      requires Valid() && exists j :: j in phases && !phases[j].Done?
      ensures exists j :: Runnable(j)
    {
      var step := Progress(manifest.policy, Jobs(manifest), View(), Outcome(SUCCEEDED, None, [], [], None));
      assert Runnable(step.job);
    }
  }
}
