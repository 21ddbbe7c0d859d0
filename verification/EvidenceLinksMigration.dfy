// Migration 0073: new question columns and wider CHECKs, with a downgrade that
// refuses before any DDL when it would lose data.
module EvidenceLinksMigration {
  import opened Wrappers

  const PREVIOUS_KINDS: set<string> := {
    "thesis_revision", "assumption", "invalidation_condition", "open_question", "watchlist_item",
    "case_status_change", "trade_plan"}
  const CURRENT_KINDS := PREVIOUS_KINDS + {"evidence_impact"}

  const PREVIOUS_SOURCES: set<string> := {
    "CATALYST_AGENDA", "TRADE_RETRO", "SCORECARD_GAP", "AGENT_PENDING_ACTION", "BROKER_ORDER_INTENT",
    "DECISION_REVIEW_DUE", "OBSERVATION_REVIEW_DUE", "UNLINKED_ACTIVITY"}
  const CURRENT_SOURCES := PREVIOUS_SOURCES + {"OPEN_QUESTION_DUE"}

  // The top-level keys of the stored payload; text that is not JSON makes
  // json_type raise.
  datatype Payload = Malformed | Keys(keys: set<string>)

  datatype Candidate = Candidate(id: string, kind: string, payload: Payload)
  datatype Review = Review(id: string, sourceType: string)

  // The columns 0002 created, which 0073 copies as they are.
  datatype Question = Question(
    id: string, caseId: string, text: string, status: string, askedAt: string, answeredAt: Option<string>,
    answerSummary: Option<string>, closedReason: Option<string>, proposedBy: string)

  datatype Metadata = Metadata(
    version: int, requirements: string, dueAt: Option<string>, progressNote: Option<string>, sourceRefs: string,
    decisionIds: string)

  datatype Tracked = Tracked(question: Question, metadata: Metadata)

  // An evidence_impacts row; its columns are lost when the table is dropped.
  datatype Impact = Impact(id: string, version: int, candidateId: string)

  const DEFAULTS := Metadata(1, "[]", None, None, "[]", "[]")

  // The tables a migration touches, before and after 0073.
  datatype Tables72 = Tables72(questions: seq<Question>, candidates: seq<Candidate>, reviews: seq<Review>)
  datatype Tables73 = Tables73(
    questions: seq<Tracked>, candidates: seq<Candidate>, reviews: seq<Review>, impacts: seq<Impact>)

  predicate KindsIn(candidates: seq<Candidate>, kinds: set<string>) {
    forall i :: 0 <= i < |candidates| ==> candidates[i].kind in kinds
  }

  predicate SourcesIn(reviews: seq<Review>, sources: set<string>) {
    forall i :: 0 <= i < |reviews| ==> reviews[i].sourceType in sources
  }

  predicate VersionsOk(questions: seq<Tracked>) {
    forall i :: 0 <= i < |questions| ==> questions[i].metadata.version >= 1
  }

  predicate Valid72(t: Tables72) {
    KindsIn(t.candidates, PREVIOUS_KINDS) && SourcesIn(t.reviews, PREVIOUS_SOURCES)
  }

  predicate Valid73(t: Tables73) {
    KindsIn(t.candidates, CURRENT_KINDS) && SourcesIn(t.reviews, CURRENT_SOURCES) && VersionsOk(t.questions)
  }

  // ---- the migration as a function of the tables ----

  function AddColumns(questions: seq<Question>): (r: seq<Tracked>)
    ensures |r| == |questions|
    ensures forall i :: 0 <= i < |r| ==> r[i] == Tracked(questions[i], DEFAULTS)
  {
    seq(|questions|, i requires 0 <= i < |questions| => Tracked(questions[i], DEFAULTS))
  }

  function DropColumns(questions: seq<Tracked>): (r: seq<Question>)
    ensures |r| == |questions|
    ensures forall i :: 0 <= i < |r| ==> r[i] == questions[i].question
  {
    seq(|questions|, i requires 0 <= i < |questions| => questions[i].question)
  }

  function Widen(t: Tables72): Tables73 {
    Tables73(AddColumns(t.questions), t.candidates, t.reviews, [])
  }

  function Narrow(t: Tables73): Tables72 {
    Tables72(DropColumns(t.questions), t.candidates, t.reviews)
  }

  // ---- the guards ----

  datatype Guard = IMPACTS | IMPACT_CANDIDATES | QUESTION_CANDIDATES | QUESTION_METADATA | DUE_REVIEWS

  const NEW_KEYS: set<string> := {"evidence_requirements", "expected_version", "source_refs"}

  // What one row makes a guard query do.
  datatype Probe = Miss | Hit | Raise

  function ProbeCandidate(c: Candidate): Probe {
    if c.kind != "open_question" then Miss
    else if c.payload.Malformed? then Raise
    else if c.payload.keys * NEW_KEYS != {} then Hit
    else Miss
  }

  predicate Blank(text: string) {
    text == "[]" || text == ""
  }

  predicate HasMetadata(m: Metadata) {
    || m.version != 1 || !Blank(m.requirements) || m.dueAt.Some? || m.progressNote.Some?
    || !Blank(m.sourceRefs) || !Blank(m.decisionIds)
  }

  // SELECT 1 ... LIMIT 1 over the question candidates stops at the first row
  // that is hit or cannot be read.
  function FirstProbe(candidates: seq<Candidate>): Probe {
    if candidates == [] then Miss
    else if ProbeCandidate(candidates[0]).Miss? then FirstProbe(candidates[1..])
    else ProbeCandidate(candidates[0])
  }

  datatype Verdict = Pass | Refuse(guard: Guard) | Unreadable

  // The guards in the order of the code.
  function Check(t: Tables73): Verdict {
    if t.impacts != [] then Refuse(IMPACTS)
    else if exists i :: 0 <= i < |t.candidates| && t.candidates[i].kind == "evidence_impact" then
      Refuse(IMPACT_CANDIDATES)
    else if FirstProbe(t.candidates).Hit? then Refuse(QUESTION_CANDIDATES)
    else if FirstProbe(t.candidates).Raise? then Unreadable
    else if exists i :: 0 <= i < |t.questions| && HasMetadata(t.questions[i].metadata) then Refuse(QUESTION_METADATA)
    else if exists i :: 0 <= i < |t.reviews| && t.reviews[i].sourceType == "OPEN_QUESTION_DUE" then Refuse(DUE_REVIEWS)
    else Pass
  }

  // ---- statements over the database ----

  datatype Outcome = Done | Refused(guard: Guard) | JsonError | CheckFailed

  class Database {
    var questions: seq<Tracked>      // with the columns of 0073
    var narrow: seq<Question>        // without them
    var wide: bool                   // which of the two is the open_questions table
    var candidates: seq<Candidate>
    var kinds: set<string>           // ck_candidate_kind
    var reviews: seq<Review>
    var sources: set<string>         // ck_review_items_source_type
    var impacts: Option<seq<Impact>> // None: no such table

    ghost predicate At72(t: Tables72)
      reads this
    {
      && !wide && impacts.None? && kinds == PREVIOUS_KINDS && sources == PREVIOUS_SOURCES
      && t == Tables72(narrow, candidates, reviews)
    }

    ghost predicate At73(t: Tables73)
      reads this
    {
      && wide && impacts.Some? && kinds == CURRENT_KINDS && sources == CURRENT_SOURCES
      && t == Tables73(questions, candidates, reviews, impacts.value)
    }

    // Batch recreation copies every row into a table with the new CHECK.
    method RecreateCandidates(allowed: set<string>) returns (ok: bool)
      modifies `kinds
      ensures ok <==> KindsIn(candidates, allowed)
      ensures kinds == if ok then allowed else old(kinds)
    {
      for i := 0 to |candidates|
        invariant KindsIn(candidates[..i], allowed)
        invariant kinds == old(kinds)
      {
        if candidates[i].kind !in allowed {
          return false;
        }
      }
      kinds := allowed;
      return true;
    }

    method RecreateReviews(allowed: set<string>) returns (ok: bool)
      modifies `sources
      ensures ok <==> SourcesIn(reviews, allowed)
      ensures sources == if ok then allowed else old(sources)
    {
      for i := 0 to |reviews|
        invariant SourcesIn(reviews[..i], allowed)
        invariant sources == old(sources)
      {
        if reviews[i].sourceType !in allowed {
          return false;
        }
      }
      sources := allowed;
      return true;
    }

    method Upgrade(ghost before: Tables72) returns (r: Outcome)
      requires At72(before) && Valid72(before)
      modifies this
      ensures r == Done && At73(Widen(before)) && Valid73(Widen(before))
    {
      WideningFits(before);
      hide PREVIOUS_KINDS, CURRENT_KINDS, PREVIOUS_SOURCES, CURRENT_SOURCES, KindsIn, SourcesIn, Valid72, Valid73;
      wide, questions := true, AddColumns(narrow);
      narrow := [];
      var ok := RecreateCandidates(CURRENT_KINDS);
      if !ok {
        return CheckFailed;
      }
      ok := RecreateReviews(CURRENT_SOURCES);
      if !ok {
        return CheckFailed;
      }
      impacts := Some([]);
      return Done;
    }

    method ProbeCandidates() returns (probe: Probe)
      ensures probe == FirstProbe(candidates)
    {
      for i := 0 to |candidates|
        invariant FirstProbe(candidates) == FirstProbe(candidates[i..])
      {
        if !ProbeCandidate(candidates[i]).Miss? {
          return ProbeCandidate(candidates[i]);
        }
      }
      return Miss;
    }

    method RunGuards() returns (verdict: Verdict)
      requires impacts.Some?
      ensures verdict == Check(Tables73(questions, candidates, reviews, impacts.value))
    {
      if impacts.value != [] {
        return Refuse(IMPACTS);
      }
      if exists i :: 0 <= i < |candidates| && candidates[i].kind == "evidence_impact" {
        return Refuse(IMPACT_CANDIDATES);
      }
      var probe := ProbeCandidates();
      if probe.Hit? {
        return Refuse(QUESTION_CANDIDATES);
      }
      if probe.Raise? {
        return Unreadable;
      }
      if exists i :: 0 <= i < |questions| && HasMetadata(questions[i].metadata) {
        return Refuse(QUESTION_METADATA);
      }
      if exists i :: 0 <= i < |reviews| && reviews[i].sourceType == "OPEN_QUESTION_DUE" {
        return Refuse(DUE_REVIEWS);
      }
      return Pass;
    }

    // Either nothing changes at all, or every statement succeeds.
    method Downgrade(ghost before: Tables73) returns (r: Outcome)
      requires At73(before) && Valid73(before)
      modifies this
      ensures match Check(before)
              case Pass => r == Done && At72(Narrow(before)) && Valid72(Narrow(before))
              case Refuse(guard) => r == Refused(guard) && unchanged(this)
              case Unreadable => r == JsonError && unchanged(this)
    {
      hide PREVIOUS_KINDS, CURRENT_KINDS, PREVIOUS_SOURCES, CURRENT_SOURCES, KindsIn, SourcesIn, Valid73, Check;
      var verdict := RunGuards();
      match verdict {
        case Refuse(guard) => return Refused(guard);
        case Unreadable => return JsonError;
        case Pass =>
      }
      GuardsCoverChecks(before);
      impacts := None;
      var ok := RecreateReviews(PREVIOUS_SOURCES);
      if !ok {
        return CheckFailed;
      }
      ok := RecreateCandidates(PREVIOUS_KINDS);
      if !ok {
        return CheckFailed;
      }
      wide, narrow := false, DropColumns(questions);
      questions := [];
      return Done;
    }
  }

  // ---- what the guards guarantee ----

  lemma {:induction false} WideningFits(t: Tables72)
    requires Valid72(t)
    ensures Valid73(Widen(t))
    ensures KindsIn(t.candidates, CURRENT_KINDS) && SourcesIn(t.reviews, CURRENT_SOURCES)
  {
    assert PREVIOUS_KINDS <= CURRENT_KINDS && PREVIOUS_SOURCES <= CURRENT_SOURCES;
    hide PREVIOUS_KINDS, CURRENT_KINDS, PREVIOUS_SOURCES, CURRENT_SOURCES;
  }

  // A passing check leaves only rows the narrower CHECKs accept.
  lemma {:induction false} GuardsCoverChecks(t: Tables73)
    requires Valid73(t) && Check(t).Pass?
    ensures Valid72(Narrow(t))
  {
    forall i | 0 <= i < |t.candidates| ensures t.candidates[i].kind in PREVIOUS_KINDS {
      assert t.candidates[i].kind != "evidence_impact";
    }
    forall i | 0 <= i < |t.reviews| ensures t.reviews[i].sourceType in PREVIOUS_SOURCES {
      assert t.reviews[i].sourceType != "OPEN_QUESTION_DUE";
    }
  }

  // The rows of each table that the schema before and after 0073 accepts.
  lemma {:induction false} SchemasMean(t: Tables72, u: Tables73)
    ensures Valid72(t) <==>
            && (forall c :: c in t.candidates ==>
                  c.kind in {"thesis_revision", "assumption", "invalidation_condition", "open_question",
                             "watchlist_item", "case_status_change", "trade_plan"})
            && (forall r :: r in t.reviews ==>
                  r.sourceType in {"CATALYST_AGENDA", "TRADE_RETRO", "SCORECARD_GAP", "AGENT_PENDING_ACTION",
                                   "BROKER_ORDER_INTENT", "DECISION_REVIEW_DUE", "OBSERVATION_REVIEW_DUE",
                                   "UNLINKED_ACTIVITY"})
    ensures Valid73(u) <==>
            && (forall c :: c in u.candidates ==> c.kind == "evidence_impact" || c.kind in PREVIOUS_KINDS)
            && (forall r :: r in u.reviews ==> r.sourceType == "OPEN_QUESTION_DUE" || r.sourceType in PREVIOUS_SOURCES)
            && (forall q :: q in u.questions ==> q.metadata.version >= 1)
  {
  }

  // A candidate the guard cannot read, and one that already uses a key of 0073.
  ghost predicate Unread(c: Candidate) {
    c.kind == "open_question" && c.payload == Malformed
  }

  ghost predicate UsesNewKey(c: Candidate) {
    && c.kind == "open_question" && c.payload.Keys?
    && (|| "evidence_requirements" in c.payload.keys || "expected_version" in c.payload.keys
        || "source_refs" in c.payload.keys)
  }

  // A question on which a column of 0073 was used.
  ghost predicate UsesNewColumn(m: Metadata) {
    || m.version != 1 || m.requirements !in {"[]", ""} || m.dueAt != None || m.progressNote != None
    || m.sourceRefs !in {"[]", ""} || m.decisionIds !in {"[]", ""}
  }

  lemma {:induction false} ProbeMeans(c: Candidate)
    ensures ProbeCandidate(c) == if Unread(c) then Raise else if UsesNewKey(c) then Hit else Miss
  {
    if c.payload.Keys? {
      assert c.payload.keys * NEW_KEYS != {} <==> exists k :: k in NEW_KEYS && k in c.payload.keys by {
        if k :| k in NEW_KEYS && k in c.payload.keys {
          assert k in c.payload.keys * NEW_KEYS;
        }
      }
      assert forall k :: k in NEW_KEYS <==> k in ["evidence_requirements", "expected_version", "source_refs"];
    }
  }

  // The guards let a downgrade start exactly when nothing of 0073 is in use.
  lemma {:induction false} PassesIffUnused(t: Tables73)
    ensures Check(t).Pass? <==>
            && t.impacts == []
            && (forall c :: c in t.candidates ==> c.kind != "evidence_impact" && !Unread(c) && !UsesNewKey(c))
            && (forall q :: q in t.questions ==> !UsesNewColumn(q.metadata))
            && (forall r :: r in t.reviews ==> r.sourceType != "OPEN_QUESTION_DUE")
  {
    FirstProbeMeaning(t.candidates);
    forall c ensures ProbeCandidate(c) == if Unread(c) then Raise else if UsesNewKey(c) then Hit else Miss {
      ProbeMeans(c);
    }
    assert forall m :: HasMetadata(m) <==> UsesNewColumn(m);
    hide FirstProbe, ProbeCandidate, HasMetadata, UsesNewColumn, UsesNewKey, Unread;
  }

  ghost predicate FirstUse(candidates: seq<Candidate>, i: nat) {
    i < |candidates| && UsesNewKey(candidates[i]) && forall k :: 0 <= k < i ==> !Unread(candidates[k])
  }

  ghost predicate FirstUnread(candidates: seq<Candidate>, i: nat) {
    i < |candidates| && Unread(candidates[i]) && forall k :: 0 <= k < i ==> !UsesNewKey(candidates[k])
  }

  lemma {:induction false} FirstProbeIs(candidates: seq<Candidate>)
    ensures FirstProbe(candidates) == Hit <==> exists i: nat :: FirstUse(candidates, i)
    ensures FirstProbe(candidates) == Raise <==> exists i: nat :: FirstUnread(candidates, i)
  {
    FirstProbeMeaning(candidates);
    forall i | 0 <= i < |candidates|
      ensures ProbeCandidate(candidates[i]) ==
              if Unread(candidates[i]) then Raise else if UsesNewKey(candidates[i]) then Hit else Miss
    {
      ProbeMeans(candidates[i]);
    }
    assert forall c :: !(UsesNewKey(c) && Unread(c));
    hide FirstProbe, ProbeCandidate, UsesNewKey, Unread;
    if !FirstProbe(candidates).Miss? {
      var i :| 0 <= i < |candidates| && ProbeCandidate(candidates[i]) == FirstProbe(candidates)
               && forall k :: 0 <= k < i ==> ProbeCandidate(candidates[k]).Miss?;
      assert forall k :: 0 <= k < i ==> !UsesNewKey(candidates[k]) && !Unread(candidates[k]);
      if FirstProbe(candidates) == Hit {
        assert FirstUse(candidates, i);
        assert forall j: nat :: FirstUnread(candidates, j) ==> j >= i && j != i;
      } else {
        assert FirstUnread(candidates, i);
        assert forall j: nat :: FirstUse(candidates, j) ==> j >= i && j != i;
      }
    }
  }

  // Which guard refuses: the first one that something in the tables hits. The query
  // over the candidates stops at the first row that uses a key or cannot be read.
  lemma {:induction false} RefusalMeans(t: Tables73)
    ensures Check(t) == Refuse(IMPACTS) <==> t.impacts != []
    ensures Check(t) == Refuse(IMPACT_CANDIDATES) <==>
            t.impacts == [] && exists c :: c in t.candidates && c.kind == "evidence_impact"
    ensures Check(t) == Refuse(QUESTION_CANDIDATES) <==>
            t.impacts == [] && ImpactFree(t) && exists i: nat :: FirstUse(t.candidates, i)
    ensures Check(t) == Unreadable <==>
            t.impacts == [] && ImpactFree(t) && exists i: nat :: FirstUnread(t.candidates, i)
    ensures Check(t) == Refuse(QUESTION_METADATA) <==>
            t.impacts == [] && ImpactFree(t) && QuestionsReadable(t)
            && exists q :: q in t.questions && UsesNewColumn(q.metadata)
    ensures Check(t) == Refuse(DUE_REVIEWS) <==>
            t.impacts == [] && ImpactFree(t) && QuestionsReadable(t)
            && (forall q :: q in t.questions ==> !UsesNewColumn(q.metadata))
            && exists r :: r in t.reviews && r.sourceType == "OPEN_QUESTION_DUE"
  {
    FirstProbeIs(t.candidates);
    FirstProbeMeaning(t.candidates);
    forall c ensures ProbeCandidate(c) == if Unread(c) then Raise else if UsesNewKey(c) then Hit else Miss {
      ProbeMeans(c);
    }
    assert forall m :: HasMetadata(m) <==> UsesNewColumn(m);
    hide FirstProbe, ProbeCandidate, HasMetadata, UsesNewColumn, UsesNewKey, Unread, FirstUse, FirstUnread;
    assert QuestionsReadable(t) <==> FirstProbe(t.candidates) == Miss;
  }

  ghost predicate ImpactFree(t: Tables73) {
    forall c :: c in t.candidates ==> c.kind != "evidence_impact"
  }

  ghost predicate QuestionsReadable(t: Tables73) {
    forall c :: c in t.candidates ==> !Unread(c) && !UsesNewKey(c)
  }

  lemma {:induction false} FirstProbeMeaning(candidates: seq<Candidate>)
    ensures FirstProbe(candidates).Miss? <==>
            forall i :: 0 <= i < |candidates| ==> ProbeCandidate(candidates[i]).Miss?
    ensures !FirstProbe(candidates).Miss? ==>
              exists i :: 0 <= i < |candidates| && ProbeCandidate(candidates[i]) == FirstProbe(candidates)
                          && forall k :: 0 <= k < i ==> ProbeCandidate(candidates[k]).Miss?
  {
    if candidates != [] {
      var rest := candidates[1..];
      FirstProbeMeaning(rest);
      if ProbeCandidate(candidates[0]).Miss? {
        if !FirstProbe(rest).Miss? {
          var i :| 0 <= i < |rest| && ProbeCandidate(rest[i]) == FirstProbe(rest)
                   && forall k :: 0 <= k < i ==> ProbeCandidate(rest[k]).Miss?;
          assert ProbeCandidate(candidates[i + 1]) == FirstProbe(candidates);
          forall k | 0 <= k < i + 1 ensures ProbeCandidate(candidates[k]).Miss? {
            assert k > 0 ==> candidates[k] == rest[k - 1];
          }
        } else {
          forall k | 0 <= k < |candidates| ensures ProbeCandidate(candidates[k]).Miss? {
            assert k > 0 ==> candidates[k] == rest[k - 1];
          }
        }
      }
    }
  }

  // '' in a JSON column reads as the default.
  function Cleaned(m: Metadata): Metadata {
    m.(requirements := if m.requirements == "" then "[]" else m.requirements,
       sourceRefs := if m.sourceRefs == "" then "[]" else m.sourceRefs,
       decisionIds := if m.decisionIds == "" then "[]" else m.decisionIds)
  }

  function CleanedAll(questions: seq<Tracked>): (r: seq<Tracked>)
    ensures |r| == |questions|
    ensures forall i :: 0 <= i < |r| ==> r[i] == questions[i].(metadata := Cleaned(questions[i].metadata))
  {
    seq(|questions|, i requires 0 <= i < |questions| => questions[i].(metadata := Cleaned(questions[i].metadata)))
  }

  // The metadata guard is exact: it passes a question exactly when dropping and
  // re-adding the columns gives the question back up to empty JSON strings.
  lemma {:induction false} MetadataGuardIsExact(q: Tracked)
    ensures !HasMetadata(q.metadata) <==> Tracked(q.question, DEFAULTS) == q.(metadata := Cleaned(q.metadata))
  {
  }

  // A downgrade that passed its guards loses nothing: upgrading again gives the
  // same tables, an empty JSON string becoming "[]".
  lemma {:induction false} UpgradeRestores(t: Tables73)
    requires Check(t).Pass?
    ensures Widen(Narrow(t)) == t.(questions := CleanedAll(t.questions))
    ensures Widen(Narrow(t)) == t <==> forall i :: 0 <= i < |t.questions| ==> t.questions[i].metadata == DEFAULTS
  {
    var again := Widen(Narrow(t)).questions;
    var cleaned := CleanedAll(t.questions);
    forall i | 0 <= i < |again| ensures again[i] == cleaned[i] {
      MetadataGuardIsExact(t.questions[i]);
    }
    assert again == cleaned;
    if forall i :: 0 <= i < |t.questions| ==> t.questions[i].metadata == DEFAULTS {
      assert again == t.questions;
    }
    if Widen(Narrow(t)) == t {
      forall i | 0 <= i < |t.questions| ensures t.questions[i].metadata == DEFAULTS {
        assert again[i] == t.questions[i];
      }
    }
  }

  // The table guards are exact as well: without one of them the narrower tables
  // break a CHECK or rows are gone.
  lemma {:induction false} TableGuardsAreExact(t: Tables73)
    requires Valid73(t) && FirstProbe(t.candidates).Miss?
    ensures Check(t).Pass? <==>
            Valid72(Narrow(t)) && Widen(Narrow(t)) == t.(questions := CleanedAll(t.questions))
  {
    if Check(t).Pass? {
      GuardsCoverChecks(t);
      UpgradeRestores(t);
    } else if Valid72(Narrow(t)) {
      if exists i :: 0 <= i < |t.questions| && HasMetadata(t.questions[i].metadata) {
        var i :| 0 <= i < |t.questions| && HasMetadata(t.questions[i].metadata);
        MetadataGuardIsExact(t.questions[i]);
        assert AddColumns(DropColumns(t.questions))[i] != CleanedAll(t.questions)[i];
      }
    }
  }

  lemma {:induction false} FreshUpgradeProbe(t: Tables72)
    requires Valid72(t)
    ensures Check(Widen(t)).Pass? <==> FirstProbe(t.candidates).Miss?
  {
    hide FirstProbe;
    assert forall i :: 0 <= i < |t.candidates| ==> t.candidates[i].kind != "evidence_impact" by {
      assert "evidence_impact" !in PREVIOUS_KINDS;
    }
    assert forall i :: 0 <= i < |t.reviews| ==> t.reviews[i].sourceType != "OPEN_QUESTION_DUE" by {
      assert "OPEN_QUESTION_DUE" !in PREVIOUS_SOURCES;
    }
    assert !HasMetadata(DEFAULTS);
  }

  // A payload that is JSON and uses none of the new keys.
  predicate Untouched(c: Candidate) {
    c.payload.Keys? && c.payload.keys * NEW_KEYS == {}
  }

  // Undoing a fresh upgrade works exactly when no stored question candidate uses
  // one of the new payload keys already, and every one of them is JSON.
  lemma {:induction false} FreshUpgradeCanBeUndone(t: Tables72)
    requires Valid72(t)
    ensures Check(Widen(t)).Pass? <==>
            forall i :: 0 <= i < |t.candidates| && t.candidates[i].kind == "open_question" ==>
                Untouched(t.candidates[i])
    ensures Narrow(Widen(t)) == t
  {
    FreshUpgradeProbe(t);
    hide Check, FirstProbe, Valid72;
    FirstProbeMeaning(t.candidates);
    assert forall c: Candidate :: ProbeCandidate(c).Miss? <==> (c.kind == "open_question" ==> Untouched(c));
    hide ProbeCandidate, Untouched;
    assert DropColumns(AddColumns(t.questions)) == t.questions;
  }

  // Tables on which the downgrade is refused straight after the upgrade: an older
  // question candidate already carries source references.
  lemma {:induction false} FreshUpgradeRefused()
    ensures var t := Tables72([], [Candidate("c", "open_question", Keys({"source_refs"}))], []);
            Valid72(t) && Check(Widen(t)) == Refuse(QUESTION_CANDIDATES)
  {
    var t := Tables72([], [Candidate("c", "open_question", Keys({"source_refs"}))], []);
    assert "source_refs" in t.candidates[0].payload.keys * NEW_KEYS;
    assert t.candidates[0].kind != "evidence_impact" by {
      assert |"open_question"| != |"evidence_impact"|;
    }
  }
}
