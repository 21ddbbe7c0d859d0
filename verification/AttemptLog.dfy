// The result files of one evaluation run directory
// (scripts/evaluate_note_models.py): what a saved attempt holds, which failures
// may be retried, and what `sorted(glob("result-<job>-*.json"))` lists.
module AttemptLog {
  import opened Wrappers

  datatype Job = Job(caseId: string, model: string, effort: string, repeat: nat)

  // One provider call that raised, as kept by ObservedProvider.failures.
  datatype Failure = Failure(providerCall: nat, retryable: bool)

  // One rejected output the service asked the model to repair.
  datatype Repair = Repair(providerCall: nat, code: string)

  // The statuses and error codes the protocol distinguishes; `text` and `name`
  // are whatever else the interpretation service reported.
  datatype Status = SUCCEEDED | NotSucceeded(text: string)

  datatype ErrorCode =
    | PROVIDER_TIMEOUT_ERROR
    | PROVIDER_UNAVAILABLE_ERROR
    | PROVIDER_RATE_LIMIT_ERROR
    | PROVIDER_AUTHENTICATION_ERROR
    | PROVIDER_REQUEST_REJECTED
    | OtherCode(name: string)

  // The outcome part of a saved record. `failedScenarios` counts the entries of
  // mechanical.failed_scenarios; it is None when no mechanical check was saved.
  datatype Outcome = Outcome(
    status: Status,
    errorCode: Option<ErrorCode>,
    failures: seq<Failure>,
    repairs: seq<Repair>,
    failedScenarios: Option<nat>)
  {
    predicate Succeeded() { status.SUCCEEDED? }

    // retryable_result
    predicate Retryable() {
      && errorCode.Some?
      && (|| errorCode.value.PROVIDER_TIMEOUT_ERROR?
          || errorCode.value.PROVIDER_UNAVAILABLE_ERROR?
          || errorCode.value.PROVIDER_RATE_LIMIT_ERROR?)
      && (failures == [] || failures[|failures| - 1].retryable)
    }

    // An access or configuration rejection.
    predicate Fatal() {
      && errorCode.Some?
      && (errorCode.value.PROVIDER_AUTHENTICATION_ERROR? || errorCode.value.PROVIDER_REQUEST_REJECTED?)
    }

    predicate RateLimited() {
      errorCode == Some(PROVIDER_RATE_LIMIT_ERROR)
    }
  }

  // One result file; its name is (job, attempt).
  datatype Entry = Entry(job: Job, attempt: nat, outcome: Outcome)

  // The files in name order after one more write; a write to an existing name
  // replaces that file.
  function Written(files: seq<Entry>, e: Entry): seq<Entry> {
    if files == [] then [e]
    else
      var n := |files| - 1;
      if files[n].attempt < e.attempt then files + [e]
      else if files[n].attempt == e.attempt then files[..n] + [e]
      else Written(files[..n], e) + [files[n]]
  }

  // `log` is every write in the order it happened; Listing is what the directory
  // then holds for one job, in name order.
  function Listing(log: seq<Entry>, job: Job): seq<Entry> {
    if log == [] then []
    else
      var n := |log| - 1;
      var before := Listing(log[..n], job);
      if log[n].job == job then Written(before, log[n]) else before
  }

  predicate AnySucceeded(files: seq<Entry>) {
    exists i :: 0 <= i < |files| && files[i].outcome.Succeeded()
  }

  // The attempt invariant of one job: its files are numbered 1..k without gaps,
  // k stays within the budget, and every file but the last is an unsuccessful,
  // retryable attempt.
  ghost predicate JobFilesOk(files: seq<Entry>, job: Job, maxRetries: nat) {
    && |files| <= 1 + maxRetries
    && (forall i :: 0 <= i < |files| ==> files[i].job == job && files[i].attempt == i + 1)
    && (forall i :: 0 <= i < |files| - 1 ==>
          files[i].outcome.Retryable() && !files[i].outcome.Succeeded())
  }

  // What the directory lists for a job: in ascending order of the attempt number, the
  // last write under every name.
  lemma {:induction false} ListingMeans(log: seq<Entry>, job: Job)
    ensures forall i, j :: 0 <= i < j < |Listing(log, job)| ==>
              Listing(log, job)[i].attempt < Listing(log, job)[j].attempt
    ensures forall e :: e in Listing(log, job) <==> e.job == job && LastWritten(log, e)
  {
    if log != [] {
      var n := |log| - 1;
      ListingMeans(log[..n], job);
      WrittenMeans(Listing(log[..n], job), log[n]);
      forall e
        ensures LastWritten(log, e) <==>
                e == log[n] || (LastWritten(log[..n], e) && !(e.job == log[n].job && e.attempt == log[n].attempt))
      {
        LastWrittenStep(log, e);
      }
      hide Written, LastWritten;
    }
  }

  ghost predicate LastWritten(log: seq<Entry>, e: Entry) {
    exists i :: 0 <= i < |log| && log[i] == e
                && forall k :: i < k < |log| ==> !(log[k].job == e.job && log[k].attempt == e.attempt)
  }

  lemma {:induction false} LastWrittenStep(log: seq<Entry>, e: Entry)
    requires log != []
    ensures var n := |log| - 1;
            LastWritten(log, e) <==>
            e == log[n] || (LastWritten(log[..n], e) && !(e.job == log[n].job && e.attempt == log[n].attempt))
  {
    var n := |log| - 1;
    if LastWritten(log, e) {
      var i :| 0 <= i < |log| && log[i] == e
               && forall k :: i < k < |log| ==> !(log[k].job == e.job && log[k].attempt == e.attempt);
      if i < n {
        assert log[..n][i] == e;
      }
    }
    if e == log[n] {
      assert log[n] == e;
    } else if LastWritten(log[..n], e) && !(e.job == log[n].job && e.attempt == log[n].attempt) {
      var i :| 0 <= i < n && log[..n][i] == e
               && forall k :: i < k < n ==> !(log[..n][k].job == e.job && log[..n][k].attempt == e.attempt);
      assert log[i] == e;
      assert forall k :: i < k < n ==> log[..n][k] == log[k];
    }
  }

  lemma {:induction false} WrittenMeans(files: seq<Entry>, e: Entry)
    requires forall i, j :: 0 <= i < j < |files| ==> files[i].attempt < files[j].attempt
    ensures var r := Written(files, e);
            && (forall i, j :: 0 <= i < j < |r| ==> r[i].attempt < r[j].attempt)
            && (forall f :: f in r <==> f == e || (f in files && f.attempt != e.attempt))
  {
    if files != [] {
      var n := |files| - 1;
      assert files == files[..n] + [files[n]];
      if files[n].attempt > e.attempt {
        WrittenMeans(files[..n], e);
      }
    }
  }

  // The write of the next attempt number extends the listing of its own job
  // and leaves every other job's files alone.
  lemma {:induction false} NextWrite(log: seq<Entry>, e: Entry, maxRetries: nat)
    requires JobFilesOk(Listing(log, e.job), e.job, maxRetries)
    requires e.attempt == |Listing(log, e.job)| + 1
    ensures Listing(log + [e], e.job) == Listing(log, e.job) + [e]
    ensures forall j :: j != e.job ==> Listing(log + [e], j) == Listing(log, j)
  {
    assert (log + [e])[..|log|] == log;
  }

  // Every write is still there, under its own attempt number.
  ghost predicate Indexed(log: seq<Entry>) {
    forall e :: e in log ==>
      && 1 <= e.attempt <= |Listing(log, e.job)|
      && Listing(log, e.job)[e.attempt - 1] == e
  }

  lemma {:induction false} NextWriteIndexed(log: seq<Entry>, e: Entry)
    requires Indexed(log)
    requires e.attempt == |Listing(log, e.job)| + 1
    requires Listing(log + [e], e.job) == Listing(log, e.job) + [e]
    requires forall j :: j != e.job ==> Listing(log + [e], j) == Listing(log, j)
    ensures Indexed(log + [e])
  {
    forall f | f in log + [e]
      ensures 1 <= f.attempt <= |Listing(log + [e], f.job)|
      ensures Listing(log + [e], f.job)[f.attempt - 1] == f
    {
      if f in log && f.job == e.job {
        assert (Listing(log, f.job) + [e])[f.attempt - 1] == Listing(log, f.job)[f.attempt - 1];
      }
    }
  }

  // Only a write puts a file in the listing.
  lemma {:induction false} ListedWasWritten(log: seq<Entry>, job: Job)
    ensures forall i :: 0 <= i < |Listing(log, job)| ==>
              Listing(log, job)[i] in log && Listing(log, job)[i].job == job
  {
    if log != [] {
      var n := |log| - 1;
      ListedWasWritten(log[..n], job);
      if log[n].job == job {
        WrittenElements(Listing(log[..n], job), log[n]);
      }
    }
  }

  lemma {:induction false} WrittenElements(files: seq<Entry>, e: Entry)
    ensures forall i :: 0 <= i < |Written(files, e)| ==>
              Written(files, e)[i] == e || Written(files, e)[i] in files
  {
    if files != [] && files[|files| - 1].attempt > e.attempt {
      WrittenElements(files[..|files| - 1], e);
    }
  }
}
