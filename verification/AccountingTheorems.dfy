// Why the totals of summary.json and errors.json add up: they are computed over
// a directory that the dispatcher kept.
module AccountingTheorems {
  import opened Wrappers
  import opened AttemptLog
  import opened Dispatcher
  import opened DispatcherInvariant
  import opened DispatcherTheorems
  import opened Accounting

  // The attempt invariant, read off the set of files: file names are unique, and
  // only unsuccessful retryable attempts are followed by a later one.
  ghost predicate Sequenced(files: set<Entry>) {
    && NamesUnique(files)
    && (forall e, f :: e in files && f in files && e.job == f.job && e.attempt < f.attempt ==>
          !e.outcome.Succeeded() && e.outcome.Retryable())
  }

  function Firsts(files: set<Entry>): set<Entry> {
    set e | e in files && e.attempt == 1
  }

  // Attempts count from 1, and every job that was reached has its first attempt.
  ghost predicate FromFirst(files: set<Entry>) {
    && (forall e :: e in files ==> e.attempt >= 1)
    && Reached(files) == Reached(Firsts(files))
  }

  ghost predicate WellKept(files: set<Entry>) {
    Sequenced(files) && FromFirst(files)
  }

  lemma {:induction false} FilesSequenced(p: Policy, log: seq<Entry>)
    requires FilesOk(p, log) && Indexed(log)
    ensures Sequenced(Elements(log))
  {
    forall e, f | e in log && f in log && e.job == f.job && e.attempt < f.attempt
      ensures !e.outcome.Succeeded() && e.outcome.Retryable()
    {
      assert JobFilesOk(Listing(log, e.job), e.job, p.maxRetries);
    }
  }

  lemma {:induction false} FilesFromFirst(p: Policy, log: seq<Entry>)
    requires FilesOk(p, log) && Indexed(log)
    ensures FromFirst(Elements(log))
  {
    forall e | e in log ensures e.job in Reached(Firsts(Elements(log))) {
      assert JobFilesOk(Listing(log, e.job), e.job, p.maxRetries);
      ListedWasWritten(log, e.job);
      assert Listing(log, e.job)[0] in Firsts(Elements(log));
    }
  }

  // Every reachable run directory is well kept and holds planned jobs only.
  lemma {:induction false} DirectoryWellKept(steps: seq<Step>)
    ensures var s := Execute(INITIAL, steps);
            s.manifest.Some? ==>
              && WellKept(Elements(s.log))
              && (forall e :: e in s.log ==> e.job in Jobs(s.manifest.value))
  {
    RunKeepsInv(INITIAL, steps);
    hide Execute, Jobs;
    var s := Execute(INITIAL, steps);
    if s.manifest.Some? {
      FilesSequenced(s.manifest.value.policy, s.log);
      FilesFromFirst(s.manifest.value.policy, s.log);
    }
  }

  // ---- the totals of one group ----

  lemma {:induction false} JobsOfSuccesses(good: set<Entry>)
    requires forall e, f :: e in good && f in good && e.job == f.job ==> e == f
    ensures |Reached(good)| == |good|
  {
    if e :| e in good {
      JobsOfSuccesses(good - {e});
      assert Reached(good) == Reached(good - {e}) + {e.job};
    }
  }

  // A job has at most one success: nothing follows it.
  lemma {:induction false} OneSuccessPerJob(files: set<Entry>, mine: set<Entry>)
    requires Sequenced(files) && mine <= files
    ensures forall e, f :: e in Successes(mine) && f in Successes(mine) && e.job == f.job ==> e == f
  {
    forall e, f | e in Successes(mine) && f in Successes(mine) && e.job == f.job ensures e == f {
      assert e.attempt == f.attempt;
    }
  }

  // calls = failed attempts + completed jobs
  lemma {:induction false} CallsAddUp(
      files: set<Entry>, g: Group, model: string, effort: string, planned: int, verdicts: map<Job, Verdict>)
    requires Sequenced(files)
    requires Describes(g, Mine(files, model, effort), planned, verdicts)
    ensures g.calls == g.failedAttempts + g.completedJobs
  {
    var mine := Mine(files, model, effort);
    MineWithin(files, model, effort);
    hide Sequenced, Mine, Reached, Successes, Failed, CodeCounts, Usable, Judged;
    OneSuccessPerJob(files, mine);
    JobsOfSuccesses(Successes(mine));
    FailedOrSucceeded(mine);
  }

  lemma {:induction false} MineWithin(files: set<Entry>, model: string, effort: string)
    ensures Mine(files, model, effort) <= files
  {
  }

  lemma {:induction false} FailedOrSucceeded(mine: set<Entry>)
    ensures |mine| == |Failed(mine)| + |Successes(mine)|
  {
    assert mine == Failed(mine) + Successes(mine);
    assert Failed(mine) !! Successes(mine);
  }

  // completed + incapable + pending = planned, with no negative term when the
  // directory holds planned jobs only.
  lemma {:induction false} JobsAddUp(
      m: Manifest, files: set<Entry>, g: Group, variant: nat, verdicts: map<Job, Verdict>)
    requires Accepted(m) && variant < |m.variants|
    requires forall e :: e in files ==> e.job in Jobs(m)
    requires Describes(g, Mine(files, m.variants[variant].0, m.variants[variant].1), |m.cases| * m.repeats, verdicts)
    ensures g.completedJobs + g.incapableJobs + g.pendingJobs == g.plannedJobs == |m.cases| * m.repeats
    ensures g.incapableJobs >= 0 && g.pendingJobs >= 0
  {
    var model, effort := m.variants[variant].0, m.variants[variant].1;
    var mine := Mine(files, model, effort);
    PlannedForVariant(m, model, effort);
    var all := Elements(JobsUpTo(m.cases, [(model, effort)], m.repeats));
    forall j | j in Reached(mine) ensures j in all {
      JobMember(m.cases, m.variants, m.repeats, j);
      JobMember(m.cases, [(model, effort)], m.repeats, j);
    }
    SubsetSize(Reached(mine), all);
    SuccessesReached(mine);
    SubsetSize(Reached(Successes(mine)), Reached(mine));
  }

  lemma {:induction false} PlannedForVariant(m: Manifest, model: string, effort: string)
    requires Accepted(m)
    ensures |Elements(JobsUpTo(m.cases, [(model, effort)], m.repeats))| <= |m.cases| * m.repeats
  {
    var jobs := JobsUpTo(m.cases, [(model, effort)], m.repeats);
    JobsUpToLength(m.cases, [(model, effort)], m.repeats, |m.cases| * 1);
    ElementsSize(jobs);
  }

  function LateSuccesses(mine: set<Entry>): set<Entry> {
    set e | e in mine && e.outcome.Succeeded() && e.attempt > 1
  }

  // The recovered jobs are the completed jobs whose success was not attempt 1.
  lemma {:induction false} RecoveredAfterFailure(
      files: set<Entry>, g: Group, model: string, effort: string, planned: int, verdicts: map<Job, Verdict>)
    requires WellKept(files)
    requires Describes(g, Mine(files, model, effort), planned, verdicts)
    ensures g.recoveredJobs == |LateSuccesses(Mine(files, model, effort))|
  {
    var mine := Mine(files, model, effort);
    MineWithin(files, model, effort);
    OneLateSuccessPerJob(files, mine);
    hide WellKept, Reached, LateSuccesses, Successes, Failed, Mine, CodeCounts, Usable, Judged;
    JobsOfSuccesses(LateSuccesses(mine));
    forall j
      ensures j in Reached(LateSuccesses(mine)) <==> j in Reached(Successes(mine)) && j in Reached(Failed(mine))
    {
      LateJob(files, model, effort, j);
    }
    assert Reached(LateSuccesses(mine)) == Reached(Successes(mine)) * Reached(Failed(mine));
  }

  lemma {:induction false} OneLateSuccessPerJob(files: set<Entry>, mine: set<Entry>)
    requires Sequenced(files) && mine <= files
    ensures forall e, f :: e in LateSuccesses(mine) && f in LateSuccesses(mine) && e.job == f.job ==> e == f
  {
    OneSuccessPerJob(files, mine);
    hide Sequenced;
    assert LateSuccesses(mine) <= Successes(mine);
  }

  lemma {:induction false} LateJob(files: set<Entry>, model: string, effort: string, j: Job)
    requires WellKept(files)
    ensures var mine := Mine(files, model, effort);
            j in Reached(LateSuccesses(mine)) <==> j in Reached(Successes(mine)) && j in Reached(Failed(mine))
  {
    var mine := Mine(files, model, effort);
    if j in Reached(LateSuccesses(mine)) {
      FailureBefore(files, model, effort, j);
    }
    if j in Reached(Successes(mine)) && j in Reached(Failed(mine)) {
      LateSuccess(files, mine, j);
    }
  }

  lemma {:induction false} FailureBefore(files: set<Entry>, model: string, effort: string, j: Job)
    requires WellKept(files) && j in Reached(LateSuccesses(Mine(files, model, effort)))
    ensures var mine := Mine(files, model, effort); j in Reached(Successes(mine)) && j in Reached(Failed(mine))
  {
    var mine := Mine(files, model, effort);
    var e :| e in LateSuccesses(mine) && e.job == j;
    assert j in Reached(Firsts(files));
    var f :| f in Firsts(files) && f.job == j;
    assert e in Successes(mine) && f in Failed(mine);
  }

  lemma {:induction false} LateSuccess(files: set<Entry>, mine: set<Entry>, j: Job)
    requires WellKept(files) && mine <= files
    requires j in Reached(Successes(mine)) && j in Reached(Failed(mine))
    ensures j in Reached(LateSuccesses(mine))
  {
    var e :| e in Successes(mine) && e.job == j;
    var f :| f in Failed(mine) && f.job == j;
    assert e.attempt >= f.attempt;
    assert e in LateSuccesses(mine);
  }

  // Why the totals of a summary add up: whatever happened in all processes on the
  // run directory, each group satisfies the three equations.
  lemma {:induction false} SummaryOfReachableRun(steps: seq<Step>, g: Group, variant: nat, verdicts: map<Job, Verdict>)
    requires var s := Execute(INITIAL, steps);
             && s.manifest.Some? && variant < |s.manifest.value.variants|
             && var m := s.manifest.value;
                var mine := Mine(Elements(s.log), m.variants[variant].0, m.variants[variant].1);
                Describes(g, mine, |m.cases| * m.repeats, verdicts)
    ensures var s := Execute(INITIAL, steps);
            var m := s.manifest.value;
            && g.calls == g.failedAttempts + g.completedJobs
            && g.completedJobs + g.incapableJobs + g.pendingJobs == g.plannedJobs == |m.cases| * m.repeats
            && g.incapableJobs >= 0 && g.pendingJobs >= 0
            && g.recoveredJobs ==
               |LateSuccesses(Mine(Elements(s.log), m.variants[variant].0, m.variants[variant].1))|
  {
    DirectoryWellKept(steps);
    AcceptedPlan(steps);
    hide Execute, Describes, Mine, LateSuccesses, Accepted, Jobs, Sequenced, FromFirst;
    var s := Execute(INITIAL, steps);
    var m, files := s.manifest.value, Elements(s.log);
    var model, effort := m.variants[variant].0, m.variants[variant].1;
    CallsAddUp(files, g, model, effort, |m.cases| * m.repeats, verdicts);
    JobsAddUp(m, files, g, variant, verdicts);
    RecoveredAfterFailure(files, g, model, effort, |m.cases| * m.repeats, verdicts);
  }

  lemma {:induction false} AcceptedPlan(steps: seq<Step>)
    ensures Execute(INITIAL, steps).manifest.Some? ==> Accepted(Execute(INITIAL, steps).manifest.value)
  {
    RunKeepsInv(INITIAL, steps);
    hide Execute, Accepted, RunOk, Jobs;
  }

  // Completed jobs that passed their review but failed an exact check.
  ghost function PassedButFailing(mine: set<Entry>, verdicts: map<Job, Verdict>): set<Job> {
    set j | j in Judged(Reached(Successes(mine)), verdicts, PASS) && PickedFailing(mine, j)
  }

  ghost predicate PickedFailing(mine: set<Entry>, job: Job) {
    exists e :: Picked(mine, job, e) && Checks(e) > 0
  }

  lemma {:induction false} LatestAttempt(entries: set<Entry>) returns (e: Entry)
    requires entries != {}
    ensures e in entries && forall f :: f in entries ==> f.attempt <= e.attempt
  {
    e :| e in entries;
    if entries != {e} {
      var f := LatestAttempt(entries - {e});
      if f.attempt > e.attempt {
        e := f;
      }
    }
  }

  lemma {:induction false} PickedOnce(mine: set<Entry>, j: Job)
    requires NamesUnique(mine) && j in Reached(Successes(mine))
    ensures exists e :: Picked(mine, j, e)
    ensures forall e, f :: Picked(mine, j, e) && Picked(mine, j, f) ==> e == f
  {
    var own := set e | e in Successes(mine) && e.job == j;
    var x :| x in Successes(mine) && x.job == j;
    assert x in own;
    var e := LatestAttempt(own);
    assert Picked(mine, j, e);
  }

  lemma {:induction false} CleanOrFailing(mine: set<Entry>, j: Job)
    requires NamesUnique(mine) && j in Reached(Successes(mine)) && !Unchecked(mine, j)
    ensures PickedClean(mine, j) <==> !PickedFailing(mine, j)
  {
    PickedOnce(mine, j);
    hide Picked, Reached, Successes, NamesUnique;
    var e :| Picked(mine, j, e);
    assert e.outcome.failedScenarios.Some?;
  }

  // Completed = usable + semantic failures + review pending + jobs that passed
  // their review but failed an exact check.
  lemma {:induction false} ReviewsAddUp(mine: set<Entry>, g: Group, planned: int, verdicts: map<Job, Verdict>)
    requires Describes(g, mine, planned, verdicts) && NamesUnique(mine)
    requires forall j :: !Unchecked(mine, j)
    ensures g.completedJobs ==
            g.usableJobs + g.semanticFailures + g.reviewPending + |PassedButFailing(mine, verdicts)|
  {
    var good := Reached(Successes(mine));
    JudgedSplit(good, verdicts);
    PassSplit(mine, verdicts);
    hide *;
    assert Describes(g, mine, planned, verdicts);
    ReviewCounts(g, mine, planned, verdicts);
  }

  lemma {:induction false} ReviewCounts(g: Group, mine: set<Entry>, planned: int, verdicts: map<Job, Verdict>)
    requires Describes(g, mine, planned, verdicts)
    ensures var good := Reached(Successes(mine));
            && g.completedJobs == |good| && g.usableJobs == |Usable(mine, verdicts)|
            && g.semanticFailures == |Judged(good, verdicts, FAIL)|
            && g.reviewPending == |Judged(good, verdicts, Other)|
  {
    hide Reached, Successes, Judged, Usable;
  }

  lemma {:induction false} PassSplit(mine: set<Entry>, verdicts: map<Job, Verdict>)
    requires NamesUnique(mine) && forall j :: !Unchecked(mine, j)
    ensures |Judged(Reached(Successes(mine)), verdicts, PASS)| ==
            |Usable(mine, verdicts)| + |PassedButFailing(mine, verdicts)|
  {
    var pass := Judged(Reached(Successes(mine)), verdicts, PASS);
    forall j | j in pass ensures PickedClean(mine, j) <==> !PickedFailing(mine, j) {
      CleanOrFailing(mine, j);
    }
    hide PickedClean, PickedFailing, Judged, Reached, Successes;
    assert pass == Usable(mine, verdicts) + PassedButFailing(mine, verdicts);
    assert Usable(mine, verdicts) !! PassedButFailing(mine, verdicts);
  }

  lemma {:induction false} JudgedSplit(jobs: set<Job>, verdicts: map<Job, Verdict>)
    ensures |jobs| == |Judged(jobs, verdicts, PASS)| + |Judged(jobs, verdicts, FAIL)| + |Judged(jobs, verdicts, Other)|
  {
    var pass, fail, open := Judged(jobs, verdicts, PASS), Judged(jobs, verdicts, FAIL), Judged(jobs, verdicts, Other);
    assert jobs == pass + fail + open;
    assert pass !! fail;
    assert pass + fail !! open;
  }

  // ---- error_ledger ----

  datatype Event =
    | ATTEMPT_FAILED(job: Job, attempt: nat, code: ErrorCode)
    | PROVIDER_CALL_FAILED(job: Job, attempt: nat, providerCall: nat, retryable: bool)
    | OUTPUT_REJECTED_BEFORE_REPAIR(job: Job, attempt: nat, providerCall: nat, name: string, recovered: bool)
    | CONTENT_REVIEW_FAILED(job: Job)
    | AUXILIARY_CONTENT_DEFECT(job: Job, finding: string)

  // One entry of reviews.json.
  datatype Review = Review(job: Job, verdict: Verdict, auxiliary: seq<string>)

  function CallEvents(row: Entry, failures: seq<Failure>): seq<Event> {
    if failures == [] then []
    else
      var last := failures[|failures| - 1];
      CallEvents(row, failures[..|failures| - 1])
      + [PROVIDER_CALL_FAILED(row.job, row.attempt, last.providerCall, last.retryable)]
  }

  function RepairEvents(row: Entry, repairs: seq<Repair>): seq<Event> {
    if repairs == [] then []
    else
      var last := repairs[|repairs| - 1];
      RepairEvents(row, repairs[..|repairs| - 1])
      + [OUTPUT_REJECTED_BEFORE_REPAIR(row.job, row.attempt, last.providerCall, last.code, row.outcome.Succeeded())]
  }

  function RowEvents(row: Entry): seq<Event> {
    (if row.outcome.Succeeded() then [] else [ATTEMPT_FAILED(row.job, row.attempt, Label(row.outcome))])
    + CallEvents(row, row.outcome.failures) + RepairEvents(row, row.outcome.repairs)
  }

  function Ledger(rows: seq<Entry>): seq<Event> {
    if rows == [] then [] else Ledger(rows[..|rows| - 1]) + RowEvents(rows[|rows| - 1])
  }

  method ListCallEvents(row: Entry) returns (events: seq<Event>)
    ensures events == CallEvents(row, row.outcome.failures)
  {
    events := [];
    var failures := row.outcome.failures;
    for k := 0 to |failures|
      invariant events == CallEvents(row, failures[..k])
    {
      assert failures[..k + 1][..k] == failures[..k];
      events := events + [PROVIDER_CALL_FAILED(row.job, row.attempt, failures[k].providerCall, failures[k].retryable)];
    }
    assert failures[..|failures|] == failures;
  }

  method ListRepairEvents(row: Entry) returns (events: seq<Event>)
    ensures events == RepairEvents(row, row.outcome.repairs)
  {
    events := [];
    var repairs := row.outcome.repairs;
    for k := 0 to |repairs|
      invariant events == RepairEvents(row, repairs[..k])
    {
      assert repairs[..k + 1][..k] == repairs[..k];
      events := events + [OUTPUT_REJECTED_BEFORE_REPAIR(
        row.job, row.attempt, repairs[k].providerCall, repairs[k].code, row.outcome.Succeeded())];
    }
    assert repairs[..|repairs|] == repairs;
  }

  function DefectEvents(job: Job, findings: seq<string>): seq<Event> {
    if findings == [] then []
    else DefectEvents(job, findings[..|findings| - 1]) + [AUXILIARY_CONTENT_DEFECT(job, findings[|findings| - 1])]
  }

  function EventsOfReview(r: Review): seq<Event> {
    (if r.verdict.FAIL? then [CONTENT_REVIEW_FAILED(r.job)] else []) + DefectEvents(r.job, r.auxiliary)
  }

  function ReviewEvents(reviews: seq<Review>): seq<Event> {
    if reviews == [] then [] else ReviewEvents(reviews[..|reviews| - 1]) + EventsOfReview(reviews[|reviews| - 1])
  }

  // The events of every result file, then those of every review.
  method ErrorLedger(rows: seq<Entry>, reviews: seq<Review>) returns (events: seq<Event>)
    ensures events == Ledger(rows) + ReviewEvents(reviews)
  {
    events := ListRowEvents(rows);
    for i := 0 to |reviews|
      invariant events == Ledger(rows) + ReviewEvents(reviews[..i])
    {
      assert reviews[..i + 1][..i] == reviews[..i];
      var failed := if reviews[i].verdict.FAIL? then [CONTENT_REVIEW_FAILED(reviews[i].job)] else [];
      var defects := ListDefectEvents(reviews[i]);
      events := events + (failed + defects);
    }
    assert reviews[..|reviews|] == reviews;
  }

  method ListDefectEvents(review: Review) returns (events: seq<Event>)
    ensures events == DefectEvents(review.job, review.auxiliary)
  {
    events := [];
    var findings := review.auxiliary;
    for k := 0 to |findings|
      invariant events == DefectEvents(review.job, findings[..k])
    {
      assert findings[..k + 1][..k] == findings[..k];
      events := events + [AUXILIARY_CONTENT_DEFECT(review.job, findings[k])];
    }
    assert findings[..|findings|] == findings;
  }

  method ListRowEvents(rows: seq<Entry>) returns (events: seq<Event>)
    ensures events == Ledger(rows)
  {
    events := [];
    for i := 0 to |rows|
      invariant events == Ledger(rows[..i])
    {
      var row := rows[i];
      assert rows[..i + 1][..i] == rows[..i];
      var added := if row.outcome.Succeeded() then [] else [ATTEMPT_FAILED(row.job, row.attempt, Label(row.outcome))];
      var calls := ListCallEvents(row);
      var repairs := ListRepairEvents(row);
      events := events + (added + calls + repairs);
    }
    assert rows[..|rows|] == rows;
  }

  // The events of one result file, written out: the failed attempt if it was one, then
  // every failed call, then every rejected output, each list in its own order.
  lemma {:induction false} RowEventsMean(row: Entry)
    ensures row.outcome.status != SUCCEEDED ==> CountedUnder(row, Label(row.outcome))
    ensures var failures, repairs, succeeded :=
              row.outcome.failures, row.outcome.repairs, row.outcome.status == SUCCEEDED;
            RowEvents(row) ==
            (if succeeded then [] else [ATTEMPT_FAILED(row.job, row.attempt, Label(row.outcome))])
            + seq(|failures|, i requires 0 <= i < |failures| =>
                    PROVIDER_CALL_FAILED(row.job, row.attempt, failures[i].providerCall, failures[i].retryable))
            + seq(|repairs|, i requires 0 <= i < |repairs| =>
                    OUTPUT_REJECTED_BEFORE_REPAIR(
                      row.job, row.attempt, repairs[i].providerCall, repairs[i].code, succeeded))
  {
    CallEventsMean(row, row.outcome.failures);
    RepairEventsMean(row, row.outcome.repairs);
    hide CallEvents, RepairEvents;
  }

  lemma {:induction false} CallEventsMean(row: Entry, failures: seq<Failure>)
    ensures CallEvents(row, failures) ==
            seq(|failures|, i requires 0 <= i < |failures| =>
                  PROVIDER_CALL_FAILED(row.job, row.attempt, failures[i].providerCall, failures[i].retryable))
  {
    if failures != [] {
      CallEventsMean(row, failures[..|failures| - 1]);
    }
  }

  lemma {:induction false} RepairEventsMean(row: Entry, repairs: seq<Repair>)
    ensures RepairEvents(row, repairs) ==
            seq(|repairs|, i requires 0 <= i < |repairs| =>
                  OUTPUT_REJECTED_BEFORE_REPAIR(row.job, row.attempt, repairs[i].providerCall, repairs[i].code,
                                                row.outcome.status == SUCCEEDED))
  {
    if repairs != [] {
      RepairEventsMean(row, repairs[..|repairs| - 1]);
    }
  }

  // The events of one review: its failure if it failed, then every auxiliary finding.
  lemma {:induction false} ReviewEventsMean(r: Review)
    ensures EventsOfReview(r) ==
            (if r.verdict == FAIL then [CONTENT_REVIEW_FAILED(r.job)] else [])
            + seq(|r.auxiliary|, i requires 0 <= i < |r.auxiliary| => AUXILIARY_CONTENT_DEFECT(r.job, r.auxiliary[i]))
  {
    DefectEventsMean(r.job, r.auxiliary);
  }

  lemma {:induction false} DefectEventsMean(job: Job, findings: seq<string>)
    ensures DefectEvents(job, findings) ==
            seq(|findings|, i requires 0 <= i < |findings| => AUXILIARY_CONTENT_DEFECT(job, findings[i]))
  {
    if findings != [] {
      DefectEventsMean(job, findings[..|findings| - 1]);
    }
  }

  // The ledger runs through the files and the reviews in the order given.
  lemma {:induction false} LedgerConcat(a: seq<Entry>, b: seq<Entry>, row: Entry)
    ensures Ledger(a + b) == Ledger(a) + Ledger(b)
    ensures Ledger([row]) == RowEvents(row)
  {
    hide RowEvents;
    if b == [] {
      assert a + b == a;
    } else {
      assert (a + b)[..|a + b| - 1] == a + b[..|b| - 1];
      LedgerConcat(a, b[..|b| - 1], row);
    }
    assert [row][..0] == [];
  }

  lemma {:induction false} ReviewEventsConcat(a: seq<Review>, b: seq<Review>, r: Review)
    ensures ReviewEvents(a + b) == ReviewEvents(a) + ReviewEvents(b)
    ensures ReviewEvents([r]) == EventsOfReview(r)
  {
    hide EventsOfReview;
    if b == [] {
      assert a + b == a;
    } else {
      assert (a + b)[..|a + b| - 1] == a + b[..|b| - 1];
      ReviewEventsConcat(a, b[..|b| - 1], r);
    }
    assert [r][..0] == [];
  }

  // ATTEMPT_FAILED events of one variant with one code.
  function CountAttemptFailed(events: seq<Event>, model: string, effort: string, code: ErrorCode): nat {
    if events == [] then 0
    else
      var e := events[|events| - 1];
      CountAttemptFailed(events[..|events| - 1], model, effort, code)
      + if e.ATTEMPT_FAILED? && e.job.model == model && e.job.effort == effort && e.code == code then 1 else 0
  }

  lemma {:induction false} CountConcat(a: seq<Event>, b: seq<Event>, model: string, effort: string, code: ErrorCode)
    ensures CountAttemptFailed(a + b, model, effort, code) ==
            CountAttemptFailed(a, model, effort, code) + CountAttemptFailed(b, model, effort, code)
  {
    if b == [] {
      assert a + b == a;
    } else {
      assert (a + b)[..|a + b| - 1] == a + b[..|b| - 1];
      CountConcat(a, b[..|b| - 1], model, effort, code);
    }
  }

  lemma {:induction false} CallEventsCount(
      row: Entry, failures: seq<Failure>, model: string, effort: string, code: ErrorCode)
    ensures CountAttemptFailed(CallEvents(row, failures), model, effort, code) == 0
  {
    if failures != [] {
      CallEventsCount(row, failures[..|failures| - 1], model, effort, code);
    }
  }

  lemma {:induction false} RepairEventsCount(
      row: Entry, repairs: seq<Repair>, model: string, effort: string, code: ErrorCode)
    ensures CountAttemptFailed(RepairEvents(row, repairs), model, effort, code) == 0
  {
    if repairs != [] {
      RepairEventsCount(row, repairs[..|repairs| - 1], model, effort, code);
    }
  }

  lemma {:induction false} RowEventsCount(row: Entry, model: string, effort: string, code: ErrorCode)
    ensures CountAttemptFailed(RowEvents(row), model, effort, code) ==
            if !row.outcome.Succeeded() && OfVariant(row, model, effort) && Label(row.outcome) == code then 1 else 0
  {
    var head := if row.outcome.Succeeded() then [] else [ATTEMPT_FAILED(row.job, row.attempt, Label(row.outcome))];
    var calls, repairs := CallEvents(row, row.outcome.failures), RepairEvents(row, row.outcome.repairs);
    CountConcat(head + calls, repairs, model, effort, code);
    CountConcat(head, calls, model, effort, code);
    CallEventsCount(row, row.outcome.failures, model, effort, code);
    RepairEventsCount(row, row.outcome.repairs, model, effort, code);
  }

  lemma {:induction false} LedgerCount(rows: seq<Entry>, model: string, effort: string, code: ErrorCode)
    requires Distinct(rows)
    ensures CountAttemptFailed(Ledger(rows), model, effort, code) ==
            |FailedWith(Mine(Elements(rows), model, effort), code)|
  {
    if rows != [] {
      var n := |rows| - 1;
      DistinctPrefix(rows);
      DistinctAt(rows, n);
      LedgerCount(rows[..n], model, effort, code);
      CountConcat(Ledger(rows[..n]), RowEvents(rows[n]), model, effort, code);
      RowEventsCount(rows[n], model, effort, code);
      var before, after := Mine(Elements(rows[..n]), model, effort), Mine(Elements(rows), model, effort);
      assert Elements(rows) == Elements(rows[..n]) + {rows[n]};
      if OfVariant(rows[n], model, effort) {
        assert after == before + {rows[n]};
        FailedWithGrows(before, rows[n], code);
      } else {
        assert after == before;
      }
    }
  }

  lemma {:induction false} DistinctPrefix<T>(s: seq<T>)
    requires s != [] && Distinct(s)
    ensures Distinct(s[..|s| - 1])
  {
    if |s| > 1 {
      DistinctPrefix(s[1..]);
      var p := s[..|s| - 1];
      assert p[1..] == s[1..][..|s[1..]| - 1];
    }
  }

  // The ledger and the summary agree: per variant and per error code there are
  // exactly as many ATTEMPT_FAILED events as counted failures.
  lemma {:induction false} LedgerMatchesSummary(
      rows: seq<Entry>, reviews: seq<Review>, g: Group, model: string, effort: string, planned: int,
      verdicts: map<Job, Verdict>, code: ErrorCode)
    requires Distinct(rows)
    requires Describes(g, Mine(Elements(rows), model, effort), planned, verdicts)
    ensures CountAttemptFailed(Ledger(rows) + ReviewEvents(reviews), model, effort, code) ==
            if code in g.failureCodes then g.failureCodes[code] else 0
  {
    CountConcat(Ledger(rows), ReviewEvents(reviews), model, effort, code);
    ReviewEventsCount(reviews, model, effort, code);
    LedgerCount(rows, model, effort, code);
    CodesGrowNot(Mine(Elements(rows), model, effort), code);
    hide Mine, Reached, Successes, Failed, Judged, Usable, FailedChecks, PickedEntries, CodeCounts, Elements;
  }

  lemma {:induction false} DefectEventsCount(
      job: Job, findings: seq<string>, model: string, effort: string, code: ErrorCode)
    ensures CountAttemptFailed(DefectEvents(job, findings), model, effort, code) == 0
  {
    if findings != [] {
      DefectEventsCount(job, findings[..|findings| - 1], model, effort, code);
    }
  }

  lemma {:induction false} ReviewEventsCount(reviews: seq<Review>, model: string, effort: string, code: ErrorCode)
    ensures CountAttemptFailed(ReviewEvents(reviews), model, effort, code) == 0
  {
    if reviews != [] {
      var n := |reviews| - 1;
      var failed := if reviews[n].verdict.FAIL? then [CONTENT_REVIEW_FAILED(reviews[n].job)] else [];
      ReviewEventsCount(reviews[..n], model, effort, code);
      DefectEventsCount(reviews[n].job, reviews[n].auxiliary, model, effort, code);
      CountConcat(failed, DefectEvents(reviews[n].job, reviews[n].auxiliary), model, effort, code);
      CountConcat(ReviewEvents(reviews[..n]), EventsOfReview(reviews[n]), model, effort, code);
    }
  }

  // ---- review events against semantic failures ----

  // The results of reviews.json as a dictionary.
  function VerdictsOf(reviews: seq<Review>): map<Job, Verdict> {
    if reviews == [] then map[]
    else VerdictsOf(reviews[..|reviews| - 1])[reviews[|reviews| - 1].job := reviews[|reviews| - 1].verdict]
  }

  ghost predicate OnePerJob(reviews: seq<Review>) {
    forall i, j :: 0 <= i < j < |reviews| ==> reviews[i].job != reviews[j].job
  }

  // CONTENT_REVIEW_FAILED events of the given jobs.
  function CountReviewFailed(events: seq<Event>, jobs: set<Job>): nat {
    if events == [] then 0
    else
      var e := events[|events| - 1];
      CountReviewFailed(events[..|events| - 1], jobs) + if e.CONTENT_REVIEW_FAILED? && e.job in jobs then 1 else 0
  }

  lemma {:induction false} ReviewFailedConcat(a: seq<Event>, b: seq<Event>, jobs: set<Job>)
    ensures CountReviewFailed(a + b, jobs) == CountReviewFailed(a, jobs) + CountReviewFailed(b, jobs)
  {
    if b == [] {
      assert a + b == a;
    } else {
      assert (a + b)[..|a + b| - 1] == a + b[..|b| - 1];
      ReviewFailedConcat(a, b[..|b| - 1], jobs);
    }
  }

  ghost predicate NoReviewEvents(events: seq<Event>) {
    forall i :: 0 <= i < |events| ==> !events[i].CONTENT_REVIEW_FAILED?
  }

  lemma {:induction false} NoneCounted(events: seq<Event>, jobs: set<Job>)
    requires NoReviewEvents(events)
    ensures CountReviewFailed(events, jobs) == 0
  {
    if events != [] {
      NoneCounted(events[..|events| - 1], jobs);
    }
  }

  lemma {:induction false} CallsAreNoReviews(row: Entry, failures: seq<Failure>)
    ensures NoReviewEvents(CallEvents(row, failures))
  {
    if failures != [] {
      CallsAreNoReviews(row, failures[..|failures| - 1]);
    }
  }

  lemma {:induction false} RepairsAreNoReviews(row: Entry, repairs: seq<Repair>)
    ensures NoReviewEvents(RepairEvents(row, repairs))
  {
    if repairs != [] {
      RepairsAreNoReviews(row, repairs[..|repairs| - 1]);
    }
  }

  lemma {:induction false} RowsAreNoReviews(rows: seq<Entry>)
    ensures NoReviewEvents(Ledger(rows))
  {
    if rows != [] {
      var last := rows[|rows| - 1];
      RowsAreNoReviews(rows[..|rows| - 1]);
      CallsAreNoReviews(last, last.outcome.failures);
      RepairsAreNoReviews(last, last.outcome.repairs);
      hide CallEvents, RepairEvents;
    }
  }

  lemma {:induction false} DefectsAreNoReviews(job: Job, findings: seq<string>)
    ensures NoReviewEvents(DefectEvents(job, findings))
  {
    if findings != [] {
      DefectsAreNoReviews(job, findings[..|findings| - 1]);
    }
  }

  lemma {:induction false} OneReviewCounted(r: Review, jobs: set<Job>)
    ensures CountReviewFailed(EventsOfReview(r), jobs) == if r.verdict.FAIL? && r.job in jobs then 1 else 0
  {
    var failed := if r.verdict.FAIL? then [CONTENT_REVIEW_FAILED(r.job)] else [];
    DefectsAreNoReviews(r.job, r.auxiliary);
    NoneCounted(DefectEvents(r.job, r.auxiliary), jobs);
    ReviewFailedConcat(failed, DefectEvents(r.job, r.auxiliary), jobs);
  }

  lemma {:induction false} VerdictKeys(reviews: seq<Review>)
    ensures forall j :: j in VerdictsOf(reviews) <==> exists i :: 0 <= i < |reviews| && reviews[i].job == j
  {
    if reviews != [] {
      VerdictKeys(reviews[..|reviews| - 1]);
    }
  }

  lemma {:induction false} JudgedOneMore(jobs: set<Job>, verdicts: map<Job, Verdict>, j: Job, v: Verdict)
    requires j !in verdicts
    ensures |Judged(jobs, verdicts[j := v], FAIL)| ==
            |Judged(jobs, verdicts, FAIL)| + if v.FAIL? && j in jobs then 1 else 0
  {
    assert Judged(jobs, verdicts[j := v], FAIL) ==
           Judged(jobs, verdicts, FAIL) + if v.FAIL? && j in jobs then {j} else {};
  }

  lemma {:induction false} ReviewsCounted(reviews: seq<Review>, jobs: set<Job>)
    requires OnePerJob(reviews)
    ensures CountReviewFailed(ReviewEvents(reviews), jobs) == |Judged(jobs, VerdictsOf(reviews), FAIL)|
  {
    if reviews == [] {
      assert Judged(jobs, map[], FAIL) == {};
    } else {
      var n := |reviews| - 1;
      ReviewsCounted(reviews[..n], jobs);
      ReviewFailedConcat(ReviewEvents(reviews[..n]), EventsOfReview(reviews[n]), jobs);
      OneReviewCounted(reviews[n], jobs);
      VerdictKeys(reviews[..n]);
      JudgedOneMore(jobs, VerdictsOf(reviews[..n]), reviews[n].job, reviews[n].verdict);
    }
  }

  // The semantic failures of the summary are the failed reviews in the ledger
  // that concern completed jobs; reviews of other jobs are listed there as well.
  lemma {:induction false} SemanticFailuresMatchLedger(
      rows: seq<Entry>, reviews: seq<Review>, g: Group, mine: set<Entry>, planned: int)
    requires OnePerJob(reviews) && Describes(g, mine, planned, VerdictsOf(reviews))
    ensures CountReviewFailed(Ledger(rows) + ReviewEvents(reviews), Reached(Successes(mine))) == g.semanticFailures
  {
    var good := Reached(Successes(mine));
    ReviewCounts(g, mine, planned, VerdictsOf(reviews));
    hide *;
    RowsAreNoReviews(rows);
    NoneCounted(Ledger(rows), good);
    ReviewFailedConcat(Ledger(rows), ReviewEvents(reviews), good);
    ReviewsCounted(reviews, good);
  }

  lemma {:induction false} CodesGrowNot(mine: set<Entry>, code: ErrorCode)
    ensures code !in CodeCounts(mine) ==> FailedWith(mine, code) == {}
    ensures code in CodeCounts(mine) ==> CodeCounts(mine)[code] == |FailedWith(mine, code)|
  {
    forall e | e in FailedWith(mine, code) ensures code in Codes(mine) {
      assert e in Failed(mine);
    }
  }
}
