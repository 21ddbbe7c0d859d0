// summarize() and error_ledger() of scripts/evaluate_note_models.py: loops over
// the result files, specified by the set of files so that the order in which the
// directory lists them cannot matter.
module Accounting {
  import opened Wrappers
  import opened AttemptLog

  datatype Verdict = PASS | FAIL | Other

  datatype Group = Group(
    plannedJobs: int,
    calls: nat,
    completedJobs: nat,
    incapableJobs: int,
    pendingJobs: int,
    failedAttempts: nat,
    failureCodes: map<ErrorCode, nat>,
    recoveredJobs: nat,
    failedExactChecks: nat,
    semanticFailures: nat,
    reviewPending: nat,
    usableJobs: nat,
    assessmentComplete: bool)

  // row.get("error_code") or "UNKNOWN"
  function Label(o: Outcome): ErrorCode {
    if o.errorCode.None? || o.errorCode.value == OtherCode("") then OtherCode("UNKNOWN") else o.errorCode.value
  }

  // ---- specification over the set of files ----

  predicate OfVariant(e: Entry, model: string, effort: string) {
    e.job.model == model && e.job.effort == effort
  }

  function Mine(files: set<Entry>, model: string, effort: string): set<Entry> {
    set e | e in files && OfVariant(e, model, effort)
  }

  function Reached(mine: set<Entry>): set<Job> {
    set e | e in mine :: e.job
  }

  function Successes(mine: set<Entry>): set<Entry> {
    set e | e in mine && e.outcome.Succeeded()
  }

  function Failed(mine: set<Entry>): set<Entry> {
    set e | e in mine && !e.outcome.Succeeded()
  }

  function FailedWith(mine: set<Entry>, code: ErrorCode): set<Entry> {
    set e | e in mine && !e.outcome.Succeeded() && Label(e.outcome) == code
  }

  function FailedIn(mine: set<Entry>, codes: set<ErrorCode>): set<Entry> {
    set e | e in mine && !e.outcome.Succeeded() && Label(e.outcome) in codes
  }

  function Codes(mine: set<Entry>): set<ErrorCode> {
    set e | e in Failed(mine) :: Label(e.outcome)
  }

  function CodeCounts(mine: set<Entry>): map<ErrorCode, nat> {
    map c | c in Codes(mine) :: |FailedWith(mine, c)|
  }

  // A file is named by its job and attempt.
  ghost predicate NamesUnique(files: set<Entry>) {
    forall e, f :: e in files && f in files && e.job == f.job && e.attempt == f.attempt ==> e == f
  }

  // The success summarize() picks for a job.
  ghost predicate Picked(mine: set<Entry>, job: Job, e: Entry) {
    && e in Successes(mine) && e.job == job
    && (forall f :: f in Successes(mine) && f.job == job ==> f.attempt <= e.attempt)
  }

  ghost predicate PickedClean(mine: set<Entry>, job: Job) {
    exists e :: Picked(mine, job, e) && e.outcome.failedScenarios == Some(0)
  }

  // The successes picked, one for each completed job.
  ghost function PickedEntries(mine: set<Entry>): set<Entry> {
    set e | e in mine && Picked(mine, e.job, e)
  }

  // len(r["mechanical"]["failed_scenarios"])
  function Checks(e: Entry): nat {
    if e.outcome.failedScenarios.None? then 0 else e.outcome.failedScenarios.value
  }

  // One element for every failed scenario of the given attempts.
  function FailedChecks(entries: set<Entry>): set<(Entry, int)> {
    set e, i | e in entries && 0 <= i < Checks(e) :: (e, i)
  }

  function VerdictOf(verdicts: map<Job, Verdict>, job: Job): Verdict {
    if job in verdicts then verdicts[job] else Other
  }

  function Judged(jobs: set<Job>, verdicts: map<Job, Verdict>, v: Verdict): set<Job> {
    set j | j in jobs && VerdictOf(verdicts, j) == v
  }

  ghost function Usable(mine: set<Entry>, verdicts: map<Job, Verdict>): set<Job> {
    set j | j in Judged(Reached(Successes(mine)), verdicts, PASS) && PickedClean(mine, j)
  }

  ghost predicate Describes(g: Group, mine: set<Entry>, planned: int, verdicts: map<Job, Verdict>) {
    var good := Reached(Successes(mine));
    && g.plannedJobs == planned
    && g.calls == |mine|
    && g.completedJobs == |good|
    && g.incapableJobs == |Reached(mine)| - |good|
    && g.pendingJobs == planned - |Reached(mine)|
    && g.failedAttempts == |Failed(mine)|
    && g.failureCodes == CodeCounts(mine)
    && g.recoveredJobs == |good * Reached(Failed(mine))|
    && g.failedExactChecks == |FailedChecks(PickedEntries(mine))|
    && g.semanticFailures == |Judged(good, verdicts, FAIL)|
    && g.reviewPending == |Judged(good, verdicts, Other)|
    && g.usableJobs == |Usable(mine, verdicts)|
    && (g.assessmentComplete <==> g.reviewPending == 0 && |Reached(mine)| == planned)
  }

  // ---- sorted(selected, key=attempt) and the per-job lists ----

  function Insert(sorted: seq<Entry>, e: Entry): (r: seq<Entry>)
    ensures Elements(r) == Elements(sorted) + {e}
  {
    if sorted == [] then [e]
    else
      var n := |sorted| - 1;
      if sorted[n].attempt <= e.attempt then sorted + [e]
      else
        assert Elements(sorted) == Elements(sorted[..n]) + {sorted[n]};
        var r := Insert(sorted[..n], e) + [sorted[n]];
        assert Elements(r) == Elements(Insert(sorted[..n], e)) + {sorted[n]};
        r
  }

  function SortByAttempt(rows: seq<Entry>): (r: seq<Entry>)
    ensures Elements(r) == Elements(rows)
  {
    if rows == [] then []
    else
      var n := |rows| - 1;
      assert Elements(rows) == Elements(rows[..n]) + {rows[n]};
      Insert(SortByAttempt(rows[..n]), rows[n])
  }

  ghost predicate Ascending(rows: seq<Entry>) {
    forall i, j :: 0 <= i < j < |rows| ==> rows[i].attempt <= rows[j].attempt
  }

  lemma {:induction false} InsertAscending(sorted: seq<Entry>, e: Entry)
    requires Ascending(sorted)
    ensures Ascending(Insert(sorted, e))
  {
    if sorted != [] && sorted[|sorted| - 1].attempt > e.attempt {
      var n := |sorted| - 1;
      InsertAscending(sorted[..n], e);
      var r := Insert(sorted[..n], e);
      forall i | 0 <= i < |r| ensures r[i].attempt <= sorted[n].attempt {
        assert r[i] in Elements(sorted[..n]) + {e};
      }
      AscendingSnoc(r, sorted[n]);
    }
  }

  lemma {:induction false} AscendingSnoc(rows: seq<Entry>, e: Entry)
    requires Ascending(rows) && forall i :: 0 <= i < |rows| ==> rows[i].attempt <= e.attempt
    ensures Ascending(rows + [e])
  {
  }

  lemma {:induction false} SortAscending(rows: seq<Entry>)
    ensures Ascending(SortByAttempt(rows))
  {
    if rows != [] {
      SortAscending(rows[..|rows| - 1]);
      InsertAscending(SortByAttempt(rows[..|rows| - 1]), rows[|rows| - 1]);
    }
  }

  function FilesOf(rows: seq<Entry>, job: Job): seq<Entry> {
    if rows == [] then []
    else
      var rest := FilesOf(rows[..|rows| - 1], job);
      if rows[|rows| - 1].job == job then rest + [rows[|rows| - 1]] else rest
  }

  lemma {:induction false} FilesOfShape(rows: seq<Entry>, job: Job)
    ensures forall e :: e in FilesOf(rows, job) <==> e in rows && e.job == job
    ensures Ascending(rows) ==> Ascending(FilesOf(rows, job))
  {
    if rows != [] {
      FilesOfShape(rows[..|rows| - 1], job);
      assert forall e :: e in rows <==> e in rows[..|rows| - 1] || e == rows[|rows| - 1];
    }
  }

  // next((r for r in reversed(rs) if r["status"] == "SUCCEEDED"), None)
  function LastSuccess(files: seq<Entry>): Option<Entry> {
    if files == [] then None
    else if files[|files| - 1].outcome.Succeeded() then Some(files[|files| - 1])
    else LastSuccess(files[..|files| - 1])
  }

  lemma {:induction false} LastSuccessIsPicked(files: seq<Entry>)
    requires Ascending(files)
    ensures match LastSuccess(files)
            case None => !AnySucceeded(files)
            case Some(e) => e in files && e.outcome.Succeeded()
                            && forall f :: f in files && f.outcome.Succeeded() ==> f.attempt <= e.attempt
  {
    if files != [] && !files[|files| - 1].outcome.Succeeded() {
      LastSuccessIsPicked(files[..|files| - 1]);
      assert forall f :: f in files <==> f in files[..|files| - 1] || f == files[|files| - 1];
    }
  }

  // ---- the loops of summarize() ----

  lemma {:induction false} MineGrows(rows: seq<Entry>, i: nat, model: string, effort: string)
    requires i < |rows| && rows[i] !in rows[..i]
    ensures Mine(Elements(rows[..i + 1]), model, effort) ==
            Mine(Elements(rows[..i]), model, effort) + if OfVariant(rows[i], model, effort) then {rows[i]} else {}
    ensures rows[i] !in Mine(Elements(rows[..i]), model, effort)
  {
    assert Elements(rows[..i + 1]) == Elements(rows[..i]) + {rows[i]};
  }

  method SelectRows(rows: seq<Entry>, model: string, effort: string) returns (selected: seq<Entry>)
    requires Distinct(rows)
    ensures Elements(selected) == Mine(Elements(rows), model, effort)
    ensures |selected| == |Elements(selected)|
  {
    selected := [];
    for i := 0 to |rows|
      invariant Elements(selected) == Mine(Elements(rows[..i]), model, effort)
      invariant |selected| == |Elements(selected)|
    {
      DistinctAt(rows, i);
      MineGrows(rows, i, model, effort);
      hide Mine;
      if OfVariant(rows[i], model, effort) {
        assert Elements(selected + [rows[i]]) == Elements(selected) + {rows[i]};
        selected := selected + [rows[i]];
      }
    }
    assert rows[..|rows|] == rows;
  }

  lemma {:induction false} FilesOfNext(rows: seq<Entry>, i: nat)
    requires i < |rows|
    ensures forall j :: FilesOf(rows[..i + 1], j) == FilesOf(rows[..i], j) + if rows[i].job == j then [rows[i]] else []
    ensures Reached(Elements(rows[..i + 1])) == Reached(Elements(rows[..i])) + {rows[i].job}
  {
    assert rows[..i + 1][..i] == rows[..i];
    assert Elements(rows[..i + 1]) == Elements(rows[..i]) + {rows[i]};
  }

  method GroupByJob(ordered: seq<Entry>) returns (byJob: map<Job, seq<Entry>>)
    ensures byJob.Keys == Reached(Elements(ordered))
    ensures forall j :: j in byJob ==> byJob[j] == FilesOf(ordered, j)
  {
    byJob := map[];
    for i := 0 to |ordered|
      invariant byJob.Keys == Reached(Elements(ordered[..i]))
      invariant forall j :: FilesOf(ordered[..i], j) == if j in byJob then byJob[j] else []
    {
      var row := ordered[i];
      FilesOfNext(ordered, i);
      hide FilesOf, Reached;
      byJob := byJob[row.job := (if row.job in byJob then byJob[row.job] else []) + [row]];
    }
    assert ordered[..|ordered|] == ordered;
  }

  lemma {:induction false} FailedWithGrows(before: set<Entry>, row: Entry, c: ErrorCode)
    requires row !in before
    ensures |FailedWith(before + {row}, c)| ==
            |FailedWith(before, c)| + if !row.outcome.Succeeded() && Label(row.outcome) == c then 1 else 0
  {
    hide Label;
    if !row.outcome.Succeeded() && Label(row.outcome) == c {
      assert FailedWith(before + {row}, c) == FailedWith(before, c) + {row};
    } else {
      assert FailedWith(before + {row}, c) == FailedWith(before, c);
    }
  }

  lemma {:induction false} CodesGrow(before: set<Entry>, row: Entry)
    ensures Codes(before + {row}) == Codes(before) + if row.outcome.Succeeded() then {} else {Label(row.outcome)}
    ensures forall c :: c !in Codes(before) ==> FailedWith(before, c) == {}
  {
    assert Failed(before + {row}) == Failed(before) + if row.outcome.Succeeded() then {} else {row};
    forall c, e | e in FailedWith(before, c) ensures c in Codes(before) {
      assert e in Failed(before);
    }
  }

  lemma {:induction false} CountOneMore(before: set<Entry>, row: Entry)
    requires row !in before
    ensures var code := Label(row.outcome);
            CodeCounts(before + {row}) ==
              if row.outcome.Succeeded() then CodeCounts(before)
              else CodeCounts(before)[code := (if code in CodeCounts(before) then CodeCounts(before)[code] else 0) + 1]
  {
    hide FailedWith, Codes, Label;
    CodesGrow(before, row);
    forall c
      ensures |FailedWith(before + {row}, c)| ==
                |FailedWith(before, c)| + if !row.outcome.Succeeded() && Label(row.outcome) == c then 1 else 0
    {
      FailedWithGrows(before, row, c);
    }
  }

  method CountFailures(selected: seq<Entry>) returns (codes: map<ErrorCode, nat>)
    requires |selected| == |Elements(selected)|
    ensures codes == CodeCounts(Elements(selected))
  {
    codes := map[];
    for i := 0 to |selected|
      invariant codes == CodeCounts(Elements(selected[..i]))
    {
      var row := selected[i];
      NewRow(selected, i);
      assert Elements(selected[..i + 1]) == Elements(selected[..i]) + {row};
      CountOneMore(Elements(selected[..i]), row);
      hide CodeCounts;
      if !row.outcome.Succeeded() {
        var code := Label(row.outcome);
        codes := codes[code := (if code in codes then codes[code] else 0) + 1];
      }
    }
    assert selected[..|selected|] == selected;
  }

  lemma {:induction false} DistinctAt<T>(s: seq<T>, i: nat)
    requires Distinct(s) && i < |s|
    ensures s[i] !in s[..i]
  {
    if i > 0 {
      DistinctAt(s[1..], i - 1);
      assert s[..i] == [s[0]] + s[1..][..i - 1];
    }
  }

  lemma {:induction false} ElementsSize<T(!new)>(s: seq<T>)
    ensures |Elements(s)| <= |s|
  {
    if s != [] {
      ElementsSize(s[1..]);
      assert Elements(s) == Elements(s[1..]) + {s[0]};
    }
  }

  lemma {:induction false} RepeatShrinks(s: seq<Entry>, i: nat)
    requires i < |s| && s[i] in s[..i]
    ensures |Elements(s)| < |s|
  {
    var rest := s[..i] + s[i + 1..];
    assert s == s[..i] + [s[i]] + s[i + 1..];
    assert Elements(s) == Elements(rest);
    ElementsSize(rest);
  }

  // As many elements as positions means that no row occurred before.
  lemma {:induction false} NewRow(s: seq<Entry>, i: nat)
    requires |s| == |Elements(s)| && i < |s|
    ensures s[i] !in s[..i]
  {
    if s[i] in s[..i] {
      RepeatShrinks(s, i);
    }
  }

  lemma {:induction false} FailedInSplit(mine: set<Entry>, codes: set<ErrorCode>, c: ErrorCode)
    requires c in codes
    ensures |FailedIn(mine, codes)| == |FailedIn(mine, codes - {c})| + |FailedWith(mine, c)|
  {
    assert FailedIn(mine, codes) == FailedIn(mine, codes - {c}) + FailedWith(mine, c);
    assert FailedIn(mine, codes - {c}) !! FailedWith(mine, c);
  }

  lemma {:induction false} FailedInAll(mine: set<Entry>)
    ensures FailedIn(mine, Codes(mine)) == Failed(mine)
    ensures FailedIn(mine, {}) == {}
  {
    assert forall e :: e in Failed(mine) ==> Label(e.outcome) in Codes(mine);
  }

  // sum(failure_codes.values())
  method SumCodes(codes: map<ErrorCode, nat>, ghost mine: set<Entry>) returns (total: nat)
    requires codes == CodeCounts(mine)
    ensures total == |Failed(mine)|
  {
    total := 0;
    var keys := codes.Keys;
    FailedInAll(mine);
    assert keys == Codes(mine);
    hide FailedIn, Failed, FailedWith, Codes;
    while keys != {}
      invariant keys <= codes.Keys
      invariant total + |FailedIn(mine, keys)| == |Failed(mine)|
      decreases keys
    {
      var c :| c in keys;
      FailedInSplit(mine, keys, c);
      total := total + codes[c];
      keys := keys - {c};
    }
  }

  predicate AnyFailed(files: seq<Entry>) {
    exists i :: 0 <= i < |files| && !files[i].outcome.Succeeded()
  }

  // {j: last success of rs}, without the jobs that have none.
  function SuccessMap(byJob: map<Job, seq<Entry>>): map<Job, Entry> {
    map j | j in byJob && LastSuccess(byJob[j]).Some? :: LastSuccess(byJob[j]).value
  }

  ghost predicate Grouped(mine: set<Entry>, ordered: seq<Entry>, byJob: map<Job, seq<Entry>>) {
    && Elements(ordered) == mine && Ascending(ordered)
    && byJob.Keys == Reached(mine)
    && (forall j :: j in byJob ==> byJob[j] == FilesOf(ordered, j))
  }

  lemma {:induction false} JobOutcome(mine: set<Entry>, ordered: seq<Entry>, byJob: map<Job, seq<Entry>>, j: Job)
    requires Grouped(mine, ordered, byJob) && NamesUnique(mine) && j in byJob
    ensures match LastSuccess(byJob[j])
            case None => j !in Reached(Successes(mine))
            case Some(e) => Picked(mine, j, e) && forall f :: Picked(mine, j, f) ==> f == e
    ensures AnyFailed(byJob[j]) <==> j in Reached(Failed(mine))
  {
    FilesOfShape(ordered, j);
    LastSuccessIsPicked(byJob[j]);
    if j in Reached(Failed(mine)) {
      var e :| e in Failed(mine) && e.job == j;
      assert e in byJob[j];
    }
  }

  // What the map holds for one job, given what the search finds in its files.
  ghost predicate PickOk(mine: set<Entry>, byJob: map<Job, seq<Entry>>, j: Job) {
    && (j in byJob ==>
          match LastSuccess(byJob[j])
          case None => j !in Reached(Successes(mine))
          case Some(e) => Picked(mine, j, e) && forall f :: Picked(mine, j, f) ==> f == e)
    && (j !in byJob ==> j !in Reached(Successes(mine)))
  }

  lemma {:induction false} PickedReached(mine: set<Entry>, j: Job, e: Entry)
    requires Picked(mine, j, e)
    ensures j in Reached(Successes(mine))
  {
  }

  lemma {:induction false} SuccessMapAt(mine: set<Entry>, byJob: map<Job, seq<Entry>>, j: Job)
    requires PickOk(mine, byJob, j)
    ensures j in SuccessMap(byJob) <==> j in Reached(Successes(mine))
    ensures j in SuccessMap(byJob) ==> Picked(mine, j, SuccessMap(byJob)[j])
    ensures forall e :: Picked(mine, j, e) ==> j in SuccessMap(byJob) && SuccessMap(byJob)[j] == e
  {
    hide LastSuccess, Picked, Reached, Successes;
    forall e | Picked(mine, j, e) ensures j in SuccessMap(byJob) && SuccessMap(byJob)[j] == e {
      PickedReached(mine, j, e);
    }
    if j in SuccessMap(byJob) {
      PickedReached(mine, j, SuccessMap(byJob)[j]);
    }
  }

  lemma {:induction false} SuccessMapIsPicked(mine: set<Entry>, ordered: seq<Entry>, byJob: map<Job, seq<Entry>>)
    requires Grouped(mine, ordered, byJob) && NamesUnique(mine)
    ensures SuccessMap(byJob).Keys == Reached(Successes(mine))
    ensures forall j :: j in SuccessMap(byJob) ==> Picked(mine, j, SuccessMap(byJob)[j])
    ensures forall j, e :: Picked(mine, j, e) ==> j in SuccessMap(byJob) && SuccessMap(byJob)[j] == e
    ensures forall j :: j in byJob ==> (AnyFailed(byJob[j]) <==> j in Reached(Failed(mine)))
  {
    SuccessesReached(mine);
    forall j
      ensures PickOk(mine, byJob, j)
      ensures j in byJob ==> (AnyFailed(byJob[j]) <==> j in Reached(Failed(mine)))
    {
      if j in byJob {
        JobOutcome(mine, ordered, byJob, j);
      }
    }
    hide *;
    forall j
      ensures j in SuccessMap(byJob) <==> j in Reached(Successes(mine))
      ensures j in SuccessMap(byJob) ==> Picked(mine, j, SuccessMap(byJob)[j])
      ensures forall e :: Picked(mine, j, e) ==> j in SuccessMap(byJob) && SuccessMap(byJob)[j] == e
    {
      SuccessMapAt(mine, byJob, j);
    }
  }

  ghost predicate Unchecked(mine: set<Entry>, job: Job) {
    exists e :: Picked(mine, job, e) && e.outcome.failedScenarios.None?
  }

  // One group of summarize(). It depends on the set of files only, not on the
  // order the directory lists them in; a picked success without a saved
  // mechanical check makes the source raise.
  method SummarizeGroup(
      rows: seq<Entry>, planned: int, model: string, effort: string, verdicts: map<Job, Verdict>)
    returns (r: Option<Group>)
    requires Distinct(rows) && NamesUnique(Elements(rows))
    ensures r.None? <==> exists j :: Unchecked(Mine(Elements(rows), model, effort), j)
    ensures r.Some? ==> Describes(r.value, Mine(Elements(rows), model, effort), planned, verdicts)
  {
    var selected := SelectRows(rows, model, effort);
    ghost var mine := Elements(selected);
    assert NamesUnique(mine);
    var ordered := SortByAttempt(selected);
    SortAscending(selected);
    var byJob := GroupByJob(ordered);
    var success := SuccessMap(byJob);
    SuccessMapIsPicked(mine, ordered, byJob);
    var codes := CountFailures(selected);
    var failed := SumCodes(codes, mine);
    hide *;
    r := Assemble(mine, |selected|, planned, byJob, success, codes, failed, verdicts);
  }

  method Assemble(
      ghost mine: set<Entry>, calls: nat, planned: int, byJob: map<Job, seq<Entry>>, success: map<Job, Entry>,
      codes: map<ErrorCode, nat>, failed: nat, verdicts: map<Job, Verdict>)
    returns (r: Option<Group>)
    requires calls == |mine| && codes == CodeCounts(mine) && failed == |Failed(mine)|
    requires byJob.Keys == Reached(mine) && success.Keys == Reached(Successes(mine))
    requires forall j :: j in success ==> Picked(mine, j, success[j])
    requires forall j, e :: Picked(mine, j, e) ==> j in success && success[j] == e
    requires forall j :: j in byJob ==> (AnyFailed(byJob[j]) <==> j in Reached(Failed(mine)))
    ensures r.None? <==> exists j :: Unchecked(mine, j)
    ensures r.Some? ==> Describes(r.value, mine, planned, verdicts)
  {
    RecoveredJobs(mine, byJob, success);
    AllChecked(mine, success);
    hide CodeCounts, Failed, AnyFailed, Unchecked;
    if exists j :: j in success && success[j].outcome.failedScenarios.None? {
      return None;
    }
    var recovered := Recovered(byJob, success);
    PickedAreSuccesses(mine, success);
    var checks := SumChecks(success.Values);
    var usable := Clean(success, verdicts);
    UsableJobs(mine, success, verdicts);
    SuccessesReached(mine);
    hide *;
    var g := Group(
      planned, calls, |success.Keys|, |byJob.Keys| - |success.Keys|, planned - |byJob.Keys|, failed, codes,
      |recovered|, checks, |Judged(success.Keys, verdicts, FAIL)|, |Judged(success.Keys, verdicts, Other)|, |usable|,
      Judged(success.Keys, verdicts, Other) == {} && |byJob.Keys| == planned);
    Assembled(g, mine, planned, verdicts, success.Keys);
    r := Some(g);
  }

  lemma {:induction false} Assembled(
      g: Group, mine: set<Entry>, planned: int, verdicts: map<Job, Verdict>, good: set<Job>)
    requires good == Reached(Successes(mine))
    requires g.plannedJobs == planned && g.calls == |mine| && g.completedJobs == |good|
    requires g.incapableJobs == |Reached(mine)| - |good| && g.pendingJobs == planned - |Reached(mine)|
    requires g.failedAttempts == |Failed(mine)| && g.failureCodes == CodeCounts(mine)
    requires g.recoveredJobs == |good * Reached(Failed(mine))|
    requires g.failedExactChecks == |FailedChecks(PickedEntries(mine))|
    requires g.semanticFailures == |Judged(good, verdicts, FAIL)|
    requires g.reviewPending == |Judged(good, verdicts, Other)| && g.usableJobs == |Usable(mine, verdicts)|
    requires g.assessmentComplete <==> Judged(good, verdicts, Other) == {} && |Reached(mine)| == planned
    ensures Describes(g, mine, planned, verdicts)
  {
    hide Reached, Successes, Failed, CodeCounts, Judged, Usable, FailedChecks, PickedEntries;
  }

  // Completed jobs with an unsuccessful attempt.
  function Recovered(byJob: map<Job, seq<Entry>>, success: map<Job, Entry>): set<Job> {
    set j | j in success && j in byJob && AnyFailed(byJob[j])
  }

  // Completed jobs that passed their review and failed no exact check.
  function Clean(success: map<Job, Entry>, verdicts: map<Job, Verdict>): set<Job> {
    set j | j in success && j in Judged(success.Keys, verdicts, PASS) && success[j].outcome.failedScenarios == Some(0)
  }

  // sum(len(r["mechanical"]["failed_scenarios"]) for r in success.values())
  method SumChecks(picked: set<Entry>) returns (total: nat)
    ensures total == |FailedChecks(picked)|
  {
    total := 0;
    var rest := picked;
    while exists e :: e in rest
      invariant rest <= picked && total + |FailedChecks(rest)| == |FailedChecks(picked)|
      decreases rest
    {
      var e :| e in rest;
      ChecksSplit(rest, e);
      hide FailedChecks;
      total := total + Checks(e);
      rest := rest - {e};
    }
    assert FailedChecks(rest) == {};
  }

  lemma {:induction false} ChecksSplit(entries: set<Entry>, e: Entry)
    requires e in entries
    ensures |FailedChecks(entries)| == |FailedChecks(entries - {e})| + Checks(e)
  {
    var own := Numbered(e, Checks(e));
    assert FailedChecks(entries) == FailedChecks(entries - {e}) + own;
    assert FailedChecks(entries - {e}) !! own;
  }

  function Numbered(e: Entry, n: nat): (r: set<(Entry, int)>)
    ensures |r| == n
    ensures forall x :: x in r <==> x.0 == e && 0 <= x.1 < n
  {
    if n == 0 then {} else Numbered(e, n - 1) + {(e, n - 1)}
  }

  lemma {:induction false} PickedAreSuccesses(mine: set<Entry>, success: map<Job, Entry>)
    requires forall j :: j in success ==> Picked(mine, j, success[j])
    requires forall j, e :: Picked(mine, j, e) ==> j in success && success[j] == e
    ensures success.Values == PickedEntries(mine)
  {
    forall e | e in success.Values ensures e in PickedEntries(mine) {
      var j :| j in success && success[j] == e;
      assert Picked(mine, j, e);
    }
    forall e | e in PickedEntries(mine) ensures e in success.Values {
      assert Picked(mine, e.job, e);
    }
  }

  // A description leaves nothing open, so the order of the listing cannot show.
  lemma {:induction false} DescribesOnce(
      g: Group, h: Group, mine: set<Entry>, planned: int, verdicts: map<Job, Verdict>)
    requires Describes(g, mine, planned, verdicts) && Describes(h, mine, planned, verdicts)
    ensures g == h
  {
    hide Reached, Successes, Failed, CodeCounts, Judged, Usable, FailedChecks, PickedEntries;
  }

  // ---- the totals in terms of what the files and the reviews hold ----

  ghost predicate Completed(mine: set<Entry>, j: Job) {
    exists e :: e in mine && e.job == j && e.outcome.status == SUCCEEDED
  }

  ghost predicate FailedOnce(mine: set<Entry>, j: Job) {
    exists e :: e in mine && e.job == j && e.outcome.status != SUCCEEDED
  }

  // e is the latest success of its job.
  ghost predicate Latest(mine: set<Entry>, e: Entry) {
    && e in mine && e.outcome.status == SUCCEEDED
    && !exists f :: f in mine && f.job == e.job && f.outcome.status == SUCCEEDED && f.attempt > e.attempt
  }

  // The job's latest success failed no exact check.
  ghost predicate CompletedClean(mine: set<Entry>, j: Job) {
    exists e :: Latest(mine, e) && e.job == j && e.outcome.failedScenarios == Some(0)
  }

  // A failure counted under a code; a missing or empty one counts as UNKNOWN.
  ghost predicate CountedUnder(e: Entry, code: ErrorCode) {
    && e.outcome.status != SUCCEEDED
    && if e.outcome.errorCode in {None, Some(OtherCode(""))} then code == OtherCode("UNKNOWN")
       else e.outcome.errorCode == Some(code)
  }

  // The failed scenarios of the latest successes, numbered per file.
  ghost function FailedScenarios(mine: set<Entry>): set<(Entry, int)> {
    set e, i | e in mine && e.outcome.failedScenarios.Some? && 0 <= i < e.outcome.failedScenarios.value
               && Latest(mine, e) :: (e, i)
  }

  lemma {:induction false} SameJobs(mine: set<Entry>)
    ensures Reached(Successes(mine)) == set e | e in mine && Completed(mine, e.job) :: e.job
    ensures Reached(Successes(mine)) * Reached(Failed(mine)) ==
            set e | e in mine && Completed(mine, e.job) && FailedOnce(mine, e.job) :: e.job
  {
    var done := set e | e in mine && Completed(mine, e.job) :: e.job;
    forall j ensures j in Reached(Successes(mine)) <==> j in done {
      if j in done {
        var e :| e in mine && e.job == j && e.outcome.status == SUCCEEDED;
        assert e in Successes(mine);
      }
      if j in Reached(Successes(mine)) {
        var e :| e in Successes(mine) && e.job == j;
        assert Completed(mine, e.job);
      }
    }
    var both := set e | e in mine && Completed(mine, e.job) && FailedOnce(mine, e.job) :: e.job;
    forall j ensures j in done && j in Reached(Failed(mine)) <==> j in both {
      if j in both {
        var e :| e in mine && e.job == j && e.outcome.status != SUCCEEDED;
        assert e in Failed(mine);
      }
      if j in done && j in Reached(Failed(mine)) {
        var e :| e in Failed(mine) && e.job == j;
        assert FailedOnce(mine, e.job);
      }
    }
  }

  lemma {:induction false} SameFailures(mine: set<Entry>, code: ErrorCode)
    ensures FailedWith(mine, code) == set e | e in mine && CountedUnder(e, code)
    ensures code in Codes(mine) <==> exists e :: e in mine && CountedUnder(e, code)
  {
    assert forall e :: CountedUnder(e, code) <==> !e.outcome.Succeeded() && Label(e.outcome) == code;
    hide Label, CountedUnder;
    if e :| e in mine && CountedUnder(e, code) {
      assert e in Failed(mine);
    }
    if code in Codes(mine) {
      var e :| e in Failed(mine) && Label(e.outcome) == code;
      assert e in mine && CountedUnder(e, code);
    }
  }

  lemma {:induction false} LatestIsPicked(mine: set<Entry>, e: Entry)
    ensures Picked(mine, e.job, e) <==> Latest(mine, e)
  {
    assert forall f :: f in Successes(mine) <==> f in mine && f.outcome.status == SUCCEEDED;
  }

  lemma {:induction false} SamePicks(mine: set<Entry>)
    ensures PickedEntries(mine) == set e | e in mine && Latest(mine, e)
    ensures forall j :: PickedClean(mine, j) <==> CompletedClean(mine, j)
    ensures FailedChecks(PickedEntries(mine)) == FailedScenarios(mine)
  {
    forall e: Entry ensures Picked(mine, e.job, e) <==> Latest(mine, e) {
      LatestIsPicked(mine, e);
    }
    hide Latest;
    forall j ensures PickedClean(mine, j) <==> CompletedClean(mine, j) {
      if CompletedClean(mine, j) {
        var e :| Latest(mine, e) && e.job == j && e.outcome.failedScenarios == Some(0);
        assert Picked(mine, j, e);
      }
      if PickedClean(mine, j) {
        var e :| Picked(mine, j, e) && e.outcome.failedScenarios == Some(0);
        assert Latest(mine, e);
      }
    }
  }

  // Every count of the summary as a number of files or jobs: what the group of one
  // variant says about the files of that variant.
  lemma {:induction false} CountsMean(
      g: Group, files: set<Entry>, model: string, effort: string, planned: int, verdicts: map<Job, Verdict>)
    requires Describes(g, Mine(files, model, effort), planned, verdicts)
    ensures var mine := set e | e in files && e.job.model == model && e.job.effort == effort;
            var reached, done := set e | e in mine :: e.job, set e | e in mine && Completed(mine, e.job) :: e.job;
            && g.calls == |mine| && g.plannedJobs == planned
            && g.completedJobs == |done|
            && g.incapableJobs == |reached| - |done|
            && g.pendingJobs == planned - |reached|
            && g.failedAttempts == |set e | e in mine && e.outcome.status != SUCCEEDED|
            && (forall c :: c in g.failureCodes <==> exists e :: e in mine && CountedUnder(e, c))
            && (forall c :: c in g.failureCodes ==> g.failureCodes[c] == |set e | e in mine && CountedUnder(e, c)|)
            && g.recoveredJobs == |set e | e in mine && Completed(mine, e.job) && FailedOnce(mine, e.job) :: e.job|
            && g.failedExactChecks == |FailedScenarios(mine)|
  {
    var mine := set e | e in files && e.job.model == model && e.job.effort == effort;
    assert mine == Mine(files, model, effort);
    hide *;
    JobCountsMean(g, mine, planned, verdicts);
    CodeCountsMean(g, mine, planned, verdicts);
  }

  lemma {:induction false} JobCountsMean(g: Group, mine: set<Entry>, planned: int, verdicts: map<Job, Verdict>)
    requires Describes(g, mine, planned, verdicts)
    ensures var reached, done := set e | e in mine :: e.job, set e | e in mine && Completed(mine, e.job) :: e.job;
            && g.calls == |mine| && g.plannedJobs == planned
            && g.completedJobs == |done|
            && g.incapableJobs == |reached| - |done|
            && g.pendingJobs == planned - |reached|
            && g.failedAttempts == |set e | e in mine && e.outcome.status != SUCCEEDED|
            && g.recoveredJobs == |set e | e in mine && Completed(mine, e.job) && FailedOnce(mine, e.job) :: e.job|
            && g.failedExactChecks == |FailedScenarios(mine)|
  {
    SameJobs(mine);
    SamePicks(mine);
    assert Failed(mine) == set e | e in mine && e.outcome.status != SUCCEEDED;
    assert Reached(mine) == set e | e in mine :: e.job;
    hide Reached, Successes, Failed, CodeCounts, PickedEntries, FailedChecks, Judged, Usable;
    hide Completed, FailedOnce, Latest, FailedScenarios;
  }

  lemma {:induction false} CodeCountsMean(g: Group, mine: set<Entry>, planned: int, verdicts: map<Job, Verdict>)
    requires Describes(g, mine, planned, verdicts)
    ensures forall c :: c in g.failureCodes <==> exists e :: e in mine && CountedUnder(e, c)
    ensures forall c :: c in g.failureCodes ==> g.failureCodes[c] == |set e | e in mine && CountedUnder(e, c)|
  {
    assert g.failureCodes == CodeCounts(mine);
    hide Describes, FailedWith, Codes, CountedUnder;
    forall c
      ensures FailedWith(mine, c) == set e | e in mine && CountedUnder(e, c)
      ensures c in Codes(mine) <==> exists e :: e in mine && CountedUnder(e, c)
    {
      SameFailures(mine, c);
    }
  }

  // The reviews: a completed job is usable if its review passed and its latest success
  // failed no exact check, and pending as long as its review says neither.
  lemma {:induction false} ReviewsMean(g: Group, mine: set<Entry>, planned: int, verdicts: map<Job, Verdict>)
    requires Describes(g, mine, planned, verdicts)
    ensures var done := set e | e in mine && Completed(mine, e.job) :: e.job;
            && g.usableJobs == |set j | j in done && j in verdicts && verdicts[j] == PASS && CompletedClean(mine, j)|
            && g.semanticFailures == |set j | j in done && j in verdicts && verdicts[j] == FAIL|
            && g.reviewPending == |set j | j in done && (j !in verdicts || verdicts[j] !in {PASS, FAIL})|
            && (g.assessmentComplete <==>
                  && (forall j :: j in done ==> j in verdicts && verdicts[j] in {PASS, FAIL})
                  && |set e | e in mine :: e.job| == planned)
    ensures verdicts == map[] ==> g.usableJobs == 0 && g.reviewPending == g.completedJobs
  {
    SameJobs(mine);
    assert Reached(mine) == set e | e in mine :: e.job;
    SameVerdicts(mine, verdicts);
    NonePending(Reached(Successes(mine)), verdicts);
    hide Reached, Successes, Completed, CompletedClean, Judged, Usable, PickedEntries, FailedChecks, CodeCounts;
  }

  lemma {:induction false} NonePending(done: set<Job>, verdicts: map<Job, Verdict>)
    ensures |set j | j in done && (j !in verdicts || verdicts[j] !in {PASS, FAIL})| == 0 <==>
            forall j :: j in done ==> j in verdicts && verdicts[j] in {PASS, FAIL}
  {
    var pending := set j | j in done && (j !in verdicts || verdicts[j] !in {PASS, FAIL});
    if |pending| > 0 {
      var j :| j in pending;
    }
    assert forall j :: j in pending <==> j in done && !(j in verdicts && verdicts[j] in {PASS, FAIL});
  }

  lemma {:induction false} SameVerdicts(mine: set<Entry>, verdicts: map<Job, Verdict>)
    ensures var done := Reached(Successes(mine));
            && Usable(mine, verdicts) ==
               (set j | j in done && j in verdicts && verdicts[j] == PASS && CompletedClean(mine, j))
            && Judged(done, verdicts, FAIL) == (set j | j in done && j in verdicts && verdicts[j] == FAIL)
            && Judged(done, verdicts, Other) ==
               (set j | j in done && (j !in verdicts || verdicts[j] !in {PASS, FAIL}))
            && (verdicts == map[] ==> Usable(mine, verdicts) == {} && Judged(done, verdicts, Other) == done)
  {
    SamePicks(mine);
    hide Reached, Successes, CompletedClean, PickedClean, PickedEntries, FailedChecks, Latest;
  }

  lemma {:induction false} SuccessesReached(mine: set<Entry>)
    ensures Reached(Successes(mine)) <= Reached(mine)
  {
  }

  lemma {:induction false} AllChecked(mine: set<Entry>, success: map<Job, Entry>)
    requires forall j :: j in success ==> Picked(mine, j, success[j])
    requires forall j, e :: Picked(mine, j, e) ==> j in success && success[j] == e
    ensures (exists j :: Unchecked(mine, j)) <==> (exists j :: j in success && success[j].outcome.failedScenarios.None?)
  {
    hide Picked;
    if j :| j in success && success[j].outcome.failedScenarios.None? {
      assert Unchecked(mine, j);
    }
  }

  lemma {:induction false} RecoveredJobs(mine: set<Entry>, byJob: map<Job, seq<Entry>>, success: map<Job, Entry>)
    requires byJob.Keys == Reached(mine) && success.Keys == Reached(Successes(mine))
    requires forall j :: j in byJob ==> (AnyFailed(byJob[j]) <==> j in Reached(Failed(mine)))
    ensures success.Keys <= byJob.Keys
    ensures Recovered(byJob, success) == success.Keys * Reached(Failed(mine))
  {
    SuccessesReached(mine);
    hide AnyFailed, Reached, Successes, Failed;
  }

  lemma {:induction false} UsableJobs(mine: set<Entry>, success: map<Job, Entry>, verdicts: map<Job, Verdict>)
    requires success.Keys == Reached(Successes(mine))
    requires forall j :: j in success ==> Picked(mine, j, success[j])
    requires forall j, e :: Picked(mine, j, e) ==> j in success && success[j] == e
    ensures Usable(mine, verdicts) == Clean(success, verdicts)
  {
    hide Picked, Reached, Successes;
    assert forall j :: j in success ==>
        (PickedClean(mine, j) <==> success[j].outcome.failedScenarios == Some(0));
  }
}
