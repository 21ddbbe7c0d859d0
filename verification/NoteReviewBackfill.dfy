// Migration 0071: the reviews inserted for note revisions that existing decisions
// refer to, chosen by ROW_NUMBER within the revision.
module NoteReviewBackfill {
  import opened Wrappers
  import opened TextOrder

  // The columns of decision_records the query reads; decision_id is its key.
  datatype Decision = Decision(
    caseId: string, decisionType: string, decidedBy: string, recordedAt: string, noteRevision: Option<string>)

  type Decisions = map<string, Decision>

  // external_note_revisions: the note of every revision.
  type Revisions = map<string, string>

  datatype Status = PENDING | DEFERRED | ADOPTED | NO_ACTION

  datatype Review = Review(
    id: string, version: int, noteRevision: string, noteId: string, status: Status, subjectId: Option<string>,
    decisionId: Option<string>, dueAt: Option<string>, actor: string, authorizationNote: string,
    idempotencyKey: string, createdAt: string)

  // ---- constraints of external_note_review_revisions ----

  predicate ReviewOk(r: Review) {
    && r.version >= 1
    && (if r.status.ADOPTED? || r.status.NO_ACTION? then r.subjectId.Some? && r.decisionId.Some?
        else r.decisionId.None?)
  }

  // Primary key, one version per note revision, one row per idempotency key.
  predicate Compatible(a: Review, b: Review) {
    && !(a.id == b.id && a.version == b.version)
    && !(a.noteRevision == b.noteRevision && a.version == b.version)
    && a.idempotencyKey != b.idempotencyKey
  }

  ghost predicate ValidReviews(t: seq<Review>) {
    && (forall i :: 0 <= i < |t| ==> ReviewOk(t[i]))
    && (forall i, j :: 0 <= i < j < |t| ==> Compatible(t[i], t[j]))
  }

  // A review that ends the matter names its case and decision, an open one names no
  // decision; and two reviews fit into one table unless they share a version of an id
  // or of a note revision, or an idempotency key.
  lemma {:induction false} ConstraintsMean(a: Review, b: Review)
    ensures ReviewOk(a) <==>
            && a.version >= 1
            && (a.status in {ADOPTED, NO_ACTION} ==> a.subjectId != None && a.decisionId != None)
            && (a.status in {PENDING, DEFERRED} ==> a.decisionId == None)
    ensures Compatible(a, b) <==>
            && (a.version == b.version ==> a.id != b.id && a.noteRevision != b.noteRevision)
            && a.idempotencyKey != b.idempotencyKey
  {
    match a.status
    case PENDING =>
    case DEFERRED =>
    case ADOPTED =>
    case NO_ACTION =>
  }

  // ---- the query ----

  // The rows of the join: decisions whose note revision exists.
  function Joined(ds: Decisions, rs: Revisions): set<string> {
    set d | d in ds && ds[d].noteRevision.Some? && ds[d].noteRevision.value in rs
  }

  function Partition(ds: Decisions, rs: Revisions, revision: string): set<string> {
    set d | d in Joined(ds, rs) && ds[d].noteRevision == Some(revision)
  }

  // ORDER BY recorded_at DESC, decision_id DESC
  predicate Before(ds: Decisions, a: string, b: string)
    requires a in ds && b in ds
  {
    Less(ds[b].recordedAt, ds[a].recordedAt) || (ds[a].recordedAt == ds[b].recordedAt && Less(b, a))
  }

  function Ahead(ds: Decisions, rs: Revisions, d: string): set<string>
    requires d in Joined(ds, rs)
  {
    set e | e in Partition(ds, rs, ds[d].noteRevision.value) && Before(ds, e, d)
  }

  // ROW_NUMBER()
  function Rank(ds: Decisions, rs: Revisions, d: string): nat
    requires d in Joined(ds, rs)
  {
    |Ahead(ds, rs, d)| + 1
  }

  function Selected(ds: Decisions, rs: Revisions): set<string> {
    set d | d in Joined(ds, rs) && Rank(ds, rs, d) == 1
  }

  const AUTHORIZATION := "Backfilled from an existing explicitly confirmed Decision."

  function ReviewId(d: string): string { "external_note_review_backfill_" + d }

  function ReviewKey(d: string): string { "migration:0071:" + d }

  function ReviewOf(ds: Decisions, rs: Revisions, d: string): Review
    requires d in Joined(ds, rs)
  {
    var row := ds[d];
    var revision := row.noteRevision.value;
    Review(ReviewId(d), 1, revision, rs[revision],
           if row.decisionType == "no_action" then NO_ACTION else ADOPTED,
           Some(row.caseId), Some(d), None, row.decidedBy, AUTHORIZATION, ReviewKey(d), row.recordedAt)
  }

  // ---- the INSERT ... SELECT ----

  class Database {
    var decisions: Decisions
    var revisions: Revisions
    var reviews: seq<Review>

    // order: the rows of the outer SELECT in whatever order the engine yields them.
    method Backfill(order: seq<string>) returns (ok: bool)
      requires reviews == []
      requires Elements(order) == Selected(decisions, revisions) && Distinct(order)
      modifies `reviews
      ensures ok && |reviews| == |order|
      ensures forall i :: 0 <= i < |order| ==>
                order[i] in Joined(decisions, revisions) && reviews[i] == ReviewOf(decisions, revisions, order[i])
      ensures ValidReviews(reviews)
      ensures forall i, j :: 0 <= i < j < |reviews| ==>
                && reviews[i].noteRevision != reviews[j].noteRevision
                && reviews[i].id != reviews[j].id && reviews[i].idempotencyKey != reviews[j].idempotencyKey
    {
      for i := 0 to |order|
        invariant |reviews| == i
        invariant forall k :: 0 <= k < i ==>
                    order[k] in Joined(decisions, revisions) && reviews[k] == ReviewOf(decisions, revisions, order[k])
        invariant ValidReviews(reviews)
      {
        NextCompatible(decisions, revisions, order, i);
        var row := ReviewOf(decisions, revisions, order[i]);
        hide Selected, Joined, ReviewOf, ReviewOk, Compatible, Distinct;
        if !ReviewOk(row) || exists k :: 0 <= k < |reviews| && !Compatible(reviews[k], row) {
          return false;
        }
        OneMoreReview(reviews, row);
        hide ValidReviews;
        reviews := reviews + [row];
      }
      NeverShared(reviews);
      return true;
    }
  }

  // One version per note revision, and every row is version 1.
  lemma {:induction false} NeverShared(t: seq<Review>)
    requires ValidReviews(t) && forall i :: 0 <= i < |t| ==> t[i].version == 1
    ensures forall i, j :: 0 <= i < j < |t| ==>
              t[i].noteRevision != t[j].noteRevision && t[i].id != t[j].id && t[i].idempotencyKey != t[j].idempotencyKey
  {
    assert forall i, j :: 0 <= i < j < |t| ==> Compatible(t[i], t[j]);
  }

  lemma {:induction false} OneMoreReview(t: seq<Review>, r: Review)
    requires ValidReviews(t) && ReviewOk(r) && forall k :: 0 <= k < |t| ==> Compatible(t[k], r)
    ensures ValidReviews(t + [r])
  {
    hide ReviewOk, Compatible;
  }

  lemma {:induction false} DistinctPair(s: seq<string>, i: nat, j: nat)
    requires Distinct(s) && i < j < |s|
    ensures s[i] != s[j]
  {
    if i > 0 {
      DistinctPair(s[1..], i - 1, j - 1);
    } else {
      assert s[j] == s[1..][j - 1];
    }
  }

  // ---- ROW_NUMBER picks one decision per revision ----

  lemma {:induction false} BeforeIsTotal(ds: Decisions, a: string, b: string)
    requires a in ds && b in ds
    ensures !Before(ds, a, a)
    ensures a != b ==> (Before(ds, a, b) <==> !Before(ds, b, a))
  {
    Trichotomy(ds[a].recordedAt, ds[b].recordedAt);
    Trichotomy(a, b);
    Trichotomy(ds[a].recordedAt, ds[a].recordedAt);
    Trichotomy(a, a);
  }

  lemma {:induction false} BeforeIsTransitive(ds: Decisions, a: string, b: string, c: string)
    requires a in ds && b in ds && c in ds && Before(ds, a, b) && Before(ds, b, c)
    ensures Before(ds, a, c)
  {
    var x, y, z := ds[a].recordedAt, ds[b].recordedAt, ds[c].recordedAt;
    if Less(z, y) && Less(y, x) {
      Transitive(z, y, x);
    }
    if Less(c, b) && Less(b, a) {
      Transitive(c, b, a);
    }
  }

  lemma {:induction false} RankOne(ds: Decisions, rs: Revisions, d: string)
    requires d in Joined(ds, rs)
    ensures d in Selected(ds, rs) <==> Ahead(ds, rs, d) == {}
  {
  }

  // The selected decision of a revision is the maximum by (recorded_at, decision_id).
  lemma {:induction false} SelectedIsMaximal(ds: Decisions, rs: Revisions, d: string)
    requires d in Joined(ds, rs)
    ensures d in Selected(ds, rs) <==>
            forall e :: e in Partition(ds, rs, ds[d].noteRevision.value) && e != d ==> Before(ds, d, e)
  {
    RankOne(ds, rs, d);
    hide Before, Selected;
    forall e | e in Partition(ds, rs, ds[d].noteRevision.value) && e != d
      ensures Before(ds, d, e) <==> e !in Ahead(ds, rs, d)
    {
      BeforeIsTotal(ds, d, e);
    }
    BeforeIsTotal(ds, d, d);
    if Ahead(ds, rs, d) != {} {
      var e :| e in Ahead(ds, rs, d);
      assert e != d;
    }
  }

  lemma {:induction false} OnePerRevision(ds: Decisions, rs: Revisions, a: string, b: string)
    requires a in Selected(ds, rs) && b in Selected(ds, rs) && ds[a].noteRevision == ds[b].noteRevision
    ensures a == b
  {
    if a != b {
      SelectedIsMaximal(ds, rs, a);
      SelectedIsMaximal(ds, rs, b);
      BeforeIsTotal(ds, a, b);
    }
  }

  // A nonempty finite set of decisions has one ahead of all the others.
  lemma {:induction false} Leader(ds: Decisions, s: set<string>) returns (d: string)
    requires s != {} && s <= ds.Keys
    ensures d in s && forall e :: e in s && e != d ==> Before(ds, d, e)
  {
    hide Before;
    var x :| x in s;
    if s == {x} {
      d := x;
    } else {
      var y := Leader(ds, s - {x});
      BeforeIsTotal(ds, x, y);
      if Before(ds, y, x) {
        d := y;
      } else {
        d := x;
        forall e | e in s && e != x && e != y ensures Before(ds, x, e) {
          BeforeIsTransitive(ds, x, y, e);
        }
      }
    }
  }

  // Some decision refers to the revision, which exists.
  ghost predicate Referenced(ds: Decisions, rs: Revisions, revision: string) {
    revision in rs && exists d :: d in ds && ds[d].noteRevision == Some(revision)
  }

  ghost predicate Reviews(ds: Decisions, rs: Revisions, revision: string, d: string) {
    d in Selected(ds, rs) && ds[d].noteRevision == Some(revision)
  }

  // Exactly one review per referenced note revision, and none for the others.
  lemma {:induction false} ExactlyOneReview(ds: Decisions, rs: Revisions, revision: string)
    ensures Referenced(ds, rs, revision) <==> exists d :: Reviews(ds, rs, revision, d)
    ensures forall a, b :: Reviews(ds, rs, revision, a) && Reviews(ds, rs, revision, b) ==> a == b
  {
    if Referenced(ds, rs, revision) {
      var x :| x in ds && ds[x].noteRevision == Some(revision);
      assert x in Partition(ds, rs, revision);
      var d := Leader(ds, Partition(ds, rs, revision));
      SelectedIsMaximal(ds, rs, d);
      assert Reviews(ds, rs, revision, d);
    }
    forall a, b | Reviews(ds, rs, revision, a) && Reviews(ds, rs, revision, b) ensures a == b {
      OnePerRevision(ds, rs, a, b);
    }
  }

  lemma {:induction false} SelectedCompatible(ds: Decisions, rs: Revisions, a: string, b: string)
    requires a in Selected(ds, rs) && b in Selected(ds, rs) && a != b
    ensures Compatible(ReviewOf(ds, rs, a), ReviewOf(ds, rs, b))
  {
    if ds[a].noteRevision == ds[b].noteRevision {
      OnePerRevision(ds, rs, a, b);
    }
    PrefixDiffers("external_note_review_backfill_", a, b);
    PrefixDiffers("migration:0071:", a, b);
  }

  lemma {:induction false} PrefixDiffers(prefix: string, a: string, b: string)
    requires a != b
    ensures prefix + a != prefix + b
  {
    assert (prefix + a)[|prefix|..] == a && (prefix + b)[|prefix|..] == b;
  }

  lemma {:induction false} NextCompatible(ds: Decisions, rs: Revisions, order: seq<string>, i: nat)
    requires Elements(order) == Selected(ds, rs) && Distinct(order) && i < |order|
    ensures forall k :: 0 <= k <= i ==> order[k] in Joined(ds, rs)
    ensures ReviewOk(ReviewOf(ds, rs, order[i]))
    ensures forall k :: 0 <= k < i ==> Compatible(ReviewOf(ds, rs, order[k]), ReviewOf(ds, rs, order[i]))
  {
    assert order[i] in Elements(order);
    forall k | 0 <= k < i
      ensures order[k] in Joined(ds, rs) && Compatible(ReviewOf(ds, rs, order[k]), ReviewOf(ds, rs, order[i]))
    {
      DistinctPair(order, k, i);
      assert order[k] in Elements(order);
      SelectedCompatible(ds, rs, order[k], order[i]);
    }
  }

  // A decision recorded later for one revision replaces that revision's review
  // and leaves every other one as it was.
  lemma {:induction false} LaterDecisionIsLocal(ds: Decisions, rs: Revisions, d: string, row: Decision, other: string)
    requires d !in ds && row.noteRevision.Some? && row.noteRevision.value in rs
    requires forall e :: e in Partition(ds, rs, row.noteRevision.value) ==> Less(ds[e].recordedAt, row.recordedAt)
    ensures d in Selected(ds[d := row], rs)
    ensures other != d ==>
              (other in Selected(ds[d := row], rs) <==>
                 other in Selected(ds, rs) && ds[other].noteRevision != row.noteRevision)
  {
    var after := ds[d := row];
    var revision := row.noteRevision.value;
    assert Partition(after, rs, revision) == Partition(ds, rs, revision) + {d};
    assert d in Joined(after, rs);
    SelectedIsMaximal(after, rs, d);
    if other != d && other in Joined(ds, rs) {
      SelectedIsMaximal(after, rs, other);
      SelectedIsMaximal(ds, rs, other);
      if ds[other].noteRevision == row.noteRevision {
        BeforeIsTotal(after, d, other);
      } else {
        OtherPartition(ds, rs, d, row, other);
      }
    }
  }

  lemma {:induction false} OtherPartition(ds: Decisions, rs: Revisions, d: string, row: Decision, other: string)
    requires d !in ds && row.noteRevision.Some? && other in Joined(ds, rs)
    requires ds[other].noteRevision != row.noteRevision
    ensures Partition(ds[d := row], rs, ds[other].noteRevision.value) == Partition(ds, rs, ds[other].noteRevision.value)
  {
  }

  // The review carries the data of its decision, which no other decision on the same
  // note revision follows by (recorded_at, decision_id).
  lemma {:induction false} ReviewIsLatest(ds: Decisions, rs: Revisions, d: string, e: string)
    requires d in Selected(ds, rs) && e in ds && ds[e].noteRevision == ds[d].noteRevision
    ensures e == d || Less(ds[e].recordedAt, ds[d].recordedAt)
            || (ds[e].recordedAt == ds[d].recordedAt && Less(e, d))
    ensures var r := ReviewOf(ds, rs, d);
            && r.id == "external_note_review_backfill_" + d && r.version == 1
            && ds[d].noteRevision == Some(r.noteRevision)
            && r.noteRevision in rs && r.noteId == rs[r.noteRevision]
            && r.status == (if ds[d].decisionType == "no_action" then NO_ACTION else ADOPTED)
            && r.subjectId == Some(ds[d].caseId) && r.decisionId == Some(d) && r.dueAt == None
            && r.actor == ds[d].decidedBy && r.createdAt == ds[d].recordedAt
            && r.authorizationNote == "Backfilled from an existing explicitly confirmed Decision."
            && r.idempotencyKey == "migration:0071:" + d
  {
    SelectedIsMaximal(ds, rs, d);
    assert e in Partition(ds, rs, ds[d].noteRevision.value);
    assert e == d || Before(ds, d, e);
  }
}
