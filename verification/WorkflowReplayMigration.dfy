// Migration 0022 on research_runs: per-row UPDATEs driven by a cursor, then the
// new constraints; and the way back. Tables are keyed by run_id.
module WorkflowReplayMigration {
  import opened Wrappers

  // Columns neither direction touches.
  datatype Core = Core(
    workflowType: string, caseId: Option<string>, instrumentId: Option<string>, requestedAsOf: string,
    reportId: Option<string>)

  datatype Run8 = Run8(core: Core, startedAt: string, completedAt: string, status: string)

  datatype Run22 = Run22(
    core: Core, startedAt: string, completedAt: Option<string>, status: string, idempotencyKey: Option<string>,
    payloadSha: Option<string>, heartbeatAt: Option<string>, leaseExpiresAt: Option<string>,
    missingCapabilities: string)

  type Table8 = map<string, Run8>
  type Table22 = map<string, Run22>

  // hashlib.sha256(...).hexdigest() of a text.
  type Digest = string -> string

  // length = 64, no upper case, only 0-9 and a-f
  predicate Hex64(s: string) {
    |s| == 64 && forall i :: 0 <= i < |s| ==> '0' <= s[i] <= '9' || 'a' <= s[i] <= 'f'
  }

  ghost predicate HexDigest(digest: Digest) {
    forall s :: Hex64(digest(s))
  }

  predicate RowOk8(r: Run8) {
    r.status == "complete" || r.status == "partial" || r.status == "failed"
  }

  predicate Open(status: string) {
    status == "started" || status == "running"
  }

  predicate Terminal(status: string) {
    status == "succeeded" || status == "partial" || status == "failed"
  }

  predicate NotNull(r: Run22) {
    r.idempotencyKey.Some? && r.payloadSha.Some? && r.heartbeatAt.Some? && r.leaseExpiresAt.Some?
  }

  predicate RowOk22(r: Run22) {
    && NotNull(r)
    && (Open(r.status) || Terminal(r.status))
    && ((Open(r.status) && r.completedAt.None?) || (Terminal(r.status) && r.completedAt.Some?))
    && Hex64(r.payloadSha.value)
  }

  predicate KeysUnique(t: Table22) {
    forall a, b :: a in t && b in t && a != b && t[a].idempotencyKey.Some? ==>
        t[a].idempotencyKey != t[b].idempotencyKey
  }

  predicate Valid8(t: Table8) {
    forall k :: k in t ==> RowOk8(t[k])
  }

  predicate Valid22(t: Table22) {
    (forall k :: k in t ==> RowOk22(t[k])) && KeysUnique(t)
  }

  // ---- the row mappings ----

  function LegacyKey(runId: string): string { "legacy-workflow-" + runId }

  function LegacySource(runId: string): string { "legacy-workflow:" + runId }

  // row["completed_at"] or row["started_at"]
  function Heartbeat(startedAt: string, completedAt: string): string {
    if completedAt == "" then startedAt else completedAt
  }

  function AddColumns(r: Run8): Run22 {
    Run22(r.core, r.startedAt, Some(r.completedAt), r.status, None, None, None, None, "[]")
  }

  // The UPDATE of one run, with the times of the row the cursor returned.
  function Claim(digest: Digest, runId: string, seen: Run8, r: Run22): Run22 {
    var heartbeat := Heartbeat(seen.startedAt, seen.completedAt);
    r.(idempotencyKey := Some(LegacyKey(runId)),
       payloadSha := Some(digest(LegacySource(runId))),
       heartbeatAt := Some(heartbeat),
       leaseExpiresAt := Some(heartbeat),
       status := if r.status == "complete" then "succeeded" else r.status)
  }

  function RowUp(digest: Digest, runId: string, r: Run8): Run22 {
    Claim(digest, runId, r, AddColumns(r))
  }

  // The single UPDATE of the downgrade, and the columns that are left. A NULL
  // completed_at stays out of the narrow table.
  function RowDown(r: Run22): Option<Run8> {
    var completedAt := if r.completedAt.Some? then r.completedAt else r.heartbeatAt;
    var status := if r.status == "succeeded" then "complete" else if Open(r.status) then "failed" else r.status;
    if completedAt.None? then None else Some(Run8(r.core, r.startedAt, completedAt.value, status))
  }

  function Upgraded(digest: Digest, t: Table8): Table22 {
    map k | k in t.Keys :: RowUp(digest, k, t[k])
  }

  function Downgraded(t: Table22): Table8
    requires forall k :: k in t ==> RowDown(t[k]).Some?
  {
    map k | k in t.Keys :: RowDown(t[k]).value
  }

  // ---- the migration as statements ----

  class Database {
    var runs8: Option<Table8>
    var runs22: Option<Table22>

    // cursor: the rows of the SELECT in the order the connection yields them
    // while the table is being updated; any order, any row more than once.
    method Upgrade(digest: Digest, cursor: seq<string>) returns (ok: bool)
      requires runs8.Some? && Valid8(runs8.value) && HexDigest(digest)
      requires Elements(cursor) == runs8.value.Keys
      modifies this
      ensures ok && runs8.None? && runs22 == Some(Upgraded(digest, old(runs8).value))
      ensures Valid22(runs22.value)
    {
      var before := runs8.value;
      var t := map k | k in before.Keys :: AddColumns(before[k]);
      for i := 0 to |cursor|
        invariant t == Visited(digest, before, Elements(cursor[..i]))
        invariant unchanged(this)
      {
        var runId := cursor[i];
        assert runId in Elements(cursor);
        assert Elements(cursor[..i + 1]) == Elements(cursor[..i]) + {runId};
        VisitOne(digest, before, Elements(cursor[..i]), runId);
        t := t[runId := Claim(digest, runId, before[runId], t[runId])];
      }
      assert cursor[..|cursor|] == cursor;
      VisitedAll(digest, before);
      UpgradeValid(digest, before);
      if !Valid22(t) {
        return false;
      }
      runs8, runs22 := None, Some(t);
      return true;
    }

    method Downgrade() returns (ok: bool)
      requires runs22.Some? && Valid22(runs22.value)
      modifies this
      ensures ok && runs22.None?
      ensures (forall k :: k in old(runs22).value ==> RowDown(old(runs22).value[k]).Some?)
              && runs8 == Some(Downgraded(old(runs22).value))
      ensures Valid8(runs8.value)
    {
      DowngradeValid(runs22.value);
      if exists k :: k in runs22.value && RowDown(runs22.value[k]).None? {
        return false;
      }
      var t := Downgraded(runs22.value);
      if !Valid8(t) {
        return false;
      }
      runs22, runs8 := None, Some(t);
      return true;
    }
  }

  // ---- the loop: order and repetition do not matter ----

  // The table once the given runs were visited at least once.
  function Visited(digest: Digest, t: Table8, done: set<string>): Table22 {
    map k | k in t.Keys :: if k in done then RowUp(digest, k, t[k]) else AddColumns(t[k])
  }

  lemma {:induction false} ClaimTwice(digest: Digest, runId: string, r: Run8)
    ensures Claim(digest, runId, r, RowUp(digest, runId, r)) == RowUp(digest, runId, r)
  {
  }

  lemma {:induction false} VisitOne(digest: Digest, t: Table8, done: set<string>, runId: string)
    requires runId in t
    ensures var v := Visited(digest, t, done);
            Visited(digest, t, done + {runId}) == v[runId := Claim(digest, runId, t[runId], v[runId])]
  {
    ClaimTwice(digest, runId, t[runId]);
  }

  lemma {:induction false} VisitedAll(digest: Digest, t: Table8)
    ensures Visited(digest, t, t.Keys) == Upgraded(digest, t)
  {
  }

  // ---- constraints ----

  lemma {:induction false} LegacyKeysDiffer(a: string, b: string)
    ensures LegacyKey(a) == LegacyKey(b) <==> a == b
  {
    var n := |"legacy-workflow-"|;
    assert LegacyKey(a)[n..] == a && LegacyKey(b)[n..] == b;
  }

  // NOT NULL, the terminal-time CHECK, the hash CHECK and the UNIQUE key hold on
  // every upgraded table.
  lemma {:induction false} UpgradeValid(digest: Digest, t: Table8)
    requires Valid8(t) && HexDigest(digest)
    ensures Valid22(Upgraded(digest, t))
  {
    var u := Upgraded(digest, t);
    forall k | k in u ensures RowOk22(u[k]) {
      assert RowOk8(t[k]);
      assert Hex64(digest(LegacySource(k)));
    }
    forall a, b | a in u && b in u && a != b ensures u[a].idempotencyKey != u[b].idempotencyKey {
      LegacyKeysDiffer(a, b);
    }
  }

  // Column by column what the upgrade stores for a run.
  lemma {:induction false} UpgradedColumns(digest: Digest, t: Table8, k: string)
    requires k in t
    ensures Upgraded(digest, t).Keys == t.Keys
    ensures var r, u := t[k], Upgraded(digest, t)[k];
            && u.core == r.core && u.startedAt == r.startedAt && u.completedAt == Some(r.completedAt)
            && u.status == (if r.status == "complete" then "succeeded" else r.status)
            && u.idempotencyKey == Some("legacy-workflow-" + k)
            && u.payloadSha == Some(digest("legacy-workflow:" + k))
            && u.heartbeatAt == u.leaseExpiresAt == Some(if r.completedAt != "" then r.completedAt else r.startedAt)
            && u.missingCapabilities == "[]"
  {
  }

  // A row upgrades into the new constraints exactly when it had an old status or was
  // already called succeeded, given a digest of 64 lower-case hexadecimal characters.
  lemma {:induction false} RowUpgradesIff(digest: Digest, runId: string, r: Run8)
    ensures RowOk22(RowUp(digest, runId, r)) <==>
            && r.status in {"complete", "partial", "failed", "succeeded"}
            && |digest("legacy-workflow:" + runId)| == 64
            && forall c :: c in digest("legacy-workflow:" + runId) ==> c in "0123456789abcdef"
  {
    var d := digest("legacy-workflow:" + runId);
    assert LegacySource(runId) == "legacy-workflow:" + runId;
    Hex64Means(d);
    hide Hex64;
  }

  lemma {:induction false} Hex64Means(s: string)
    ensures Hex64(s) <==> |s| == 64 && forall c :: c in s ==> c in "0123456789abcdef"
  {
    forall i | 0 <= i < |s| ensures s[i] in "0123456789abcdef" <==> '0' <= s[i] <= '9' || 'a' <= s[i] <= 'f' {
      HexCharacter(s[i]);
    }
    if Hex64(s) {
      forall c | c in s ensures c in "0123456789abcdef" {
        var i :| 0 <= i < |s| && s[i] == c;
      }
    } else if |s| == 64 {
      var i :| 0 <= i < |s| && !('0' <= s[i] <= '9' || 'a' <= s[i] <= 'f');
      assert s[i] in s;
    }
  }

  lemma {:induction false} HexCharacter(c: char)
    ensures c in "0123456789abcdef" <==> '0' <= c <= '9' || 'a' <= c <= 'f'
  {
    var s := "0123456789abcdef";
    if '0' <= c <= '9' {
      assert s[c as int - '0' as int] == c;
    }
    if 'a' <= c <= 'f' {
      assert s[10 + c as int - 'a' as int] == c;
    }
  }

  // What the new constraints say of a row: it is open exactly as long as it has no
  // completion time.
  lemma {:induction false} RowOkMeans(r: Run22)
    ensures RowOk22(r) <==>
            && r.idempotencyKey.Some? && r.heartbeatAt.Some? && r.leaseExpiresAt.Some?
            && r.status in {"started", "running", "succeeded", "partial", "failed"}
            && (r.completedAt.None? <==> r.status in {"started", "running"})
            && r.payloadSha.Some? && |r.payloadSha.value| == 64
            && forall c :: c in r.payloadSha.value ==> c in "0123456789abcdef"
  {
    if r.payloadSha.Some? {
      Hex64Means(r.payloadSha.value);
    }
    hide Hex64;
  }

  // And no two runs share an idempotency key.
  lemma {:induction false} ValidMeans(t: Table22)
    ensures Valid22(t) <==>
            && (forall k :: k in t ==> RowOk22(t[k]))
            && (forall a, b :: a in t && b in t && t[a].idempotencyKey == t[b].idempotencyKey ==> a == b)
  {
    assert forall k :: k in t && RowOk22(t[k]) ==> t[k].idempotencyKey.Some?;
    hide RowOk22;
  }

  // A row goes back under the old constraints exactly when some time is left to close
  // it with and its status is a known one.
  lemma {:induction false} RowDowngradesIff(r: Run22)
    ensures RowDown(r).Some? && RowOk8(RowDown(r).value) <==>
            && (r.completedAt.Some? || r.heartbeatAt.Some?)
            && r.status in {"started", "running", "succeeded", "partial", "failed", "complete"}
  {
  }

  // Any valid new table, started and running rows included, goes back under NOT
  // NULL and the three old statuses.
  lemma {:induction false} DowngradeValid(t: Table22)
    requires Valid22(t)
    ensures forall k :: k in t ==> RowDown(t[k]).Some?
    ensures Valid8(Downgraded(t))
  {
    forall k | k in t ensures RowDown(t[k]).Some? && RowOk8(RowDown(t[k]).value) {
      assert RowOk22(t[k]);
    }
  }

  // ---- round trips ----

  lemma {:induction false} DowngradeUndoesUpgrade(digest: Digest, t: Table8)
    requires Valid8(t)
    ensures forall k :: k in Upgraded(digest, t) ==> RowDown(Upgraded(digest, t)[k]).Some?
    ensures Downgraded(Upgraded(digest, t)) == t
  {
    var u := Upgraded(digest, t);
    forall k | k in t ensures RowDown(u[k]) == Some(t[k]) {
      assert RowOk8(t[k]);
    }
  }

  // A row as the upgrade writes them: finished, with the derived claim.
  predicate Legacy(digest: Digest, runId: string, r: Run22) {
    && Terminal(r.status) && r.completedAt.Some?
    && r.idempotencyKey == Some(LegacyKey(runId))
    && r.payloadSha == Some(digest(LegacySource(runId)))
    && r.heartbeatAt == Some(Heartbeat(r.startedAt, r.completedAt.value))
    && r.leaseExpiresAt == r.heartbeatAt
    && r.missingCapabilities == "[]"
  }

  lemma {:induction false} RowUpgradeUndoesDowngrade(digest: Digest, runId: string, r: Run22)
    requires RowOk22(r)
    ensures RowDown(r).Some?
    ensures RowUp(digest, runId, RowDown(r).value) == r <==> Legacy(digest, runId, r)
  {
  }

  // The other round trip is the identity exactly on tables of such rows.
  lemma {:induction false} UpgradeUndoesDowngradeIff(digest: Digest, t: Table22)
    requires Valid22(t)
    ensures forall k :: k in t ==> RowDown(t[k]).Some?
    ensures Upgraded(digest, Downgraded(t)) == t <==> forall k :: k in t ==> Legacy(digest, k, t[k])
  {
    DowngradeValid(t);
    hide Valid22, RowOk22, Legacy, RowUp, RowDown;
    var again := Upgraded(digest, Downgraded(t));
    forall k | k in t ensures again[k] == t[k] <==> Legacy(digest, k, t[k]) {
      ValidRow(t, k);
      RowUpgradeUndoesDowngrade(digest, k, t[k]);
    }
    assert again.Keys == t.Keys;
    if again == t {
      assert forall k :: k in t ==> Legacy(digest, k, t[k]);
    } else {
      assert exists k :: k in t && again[k] != t[k];
    }
  }

  lemma {:induction false} ValidRow(t: Table22, k: string)
    requires Valid22(t) && k in t
    ensures RowOk22(t[k])
  {
  }

  // Going down and up again closes every open run at its last heartbeat as
  // failed and keeps the outcome and times of every finished one.
  lemma {:induction false} OpenRunsCloseAtHeartbeat(digest: Digest, t: Table22, k: string)
    requires Valid22(t) && k in t
    ensures forall j :: j in t ==> RowDown(t[j]).Some?
    ensures var r := Upgraded(digest, Downgraded(t))[k];
            && r.core == t[k].core && r.startedAt == t[k].startedAt
            && r.completedAt == (if Open(t[k].status) then t[k].heartbeatAt else t[k].completedAt)
            && r.status == (if Open(t[k].status) then "failed" else t[k].status)
  {
    DowngradeValid(t);
    ValidRow(t, k);
  }
}
