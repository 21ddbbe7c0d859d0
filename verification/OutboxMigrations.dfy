// The notification outbox from migration 0024 through 0025 to 0030 and back: row
// mappings of the INSERT ... SELECT statements under the keys, UNIQUE and CHECK
// constraints of every version. NULL never conflicts in a UNIQUE constraint.
module OutboxMigrations {
  import opened Wrappers

  datatype Delivery = Delivery(
    title: string, body: string, status: string, attemptCount: int, nextAttemptAt: string, createdAt: string,
    lastAttemptAt: Option<string>, deliveredAt: Option<string>, providerMessageId: Option<string>,
    lastErrorCode: Option<string>)

  datatype Row24 = Row24(eventId: string, channel: string, delivery: Delivery)
  datatype Row25 = Row25(
    id: string, eventId: Option<string>, runId: Option<string>, channel: string, delivery: Delivery)

  datatype SourceType = MONITOR_EVENT | MONITOR_RUN | MANUAL | SYSTEM | OtherSource(text: string)
  datatype Row30 = Row30(
    id: string, sourceType: SourceType, sourceId: string, channel: string, delivery: Delivery,
    idempotencyKey: Option<string>, confirmedBy: Option<string>, authorizationNote: Option<string>,
    expiresAt: Option<string>)

  // ---- constraints ----

  predicate DeliveryOk(channel: string, d: Delivery) {
    && channel == "TELEGRAM"
    && (d.status == "PENDING" || d.status == "DELIVERED" || d.status == "DEAD_LETTER" || d.status == "EXPIRED")
    && d.attemptCount >= 0
  }

  // length(trim(x)) > 0
  predicate Nonblank(s: string) {
    exists i :: 0 <= i < |s| && s[i] != ' '
  }

  predicate RowOk24(r: Row24) { DeliveryOk(r.channel, r.delivery) }

  predicate Compatible24(a: Row24, b: Row24) { !(a.eventId == b.eventId && a.channel == b.channel) }

  predicate RowOk25(r: Row25) {
    DeliveryOk(r.channel, r.delivery) && (r.eventId.Some? <==> r.runId.None?)
  }

  predicate Compatible25(a: Row25, b: Row25) {
    && a.id != b.id
    && !(a.eventId.Some? && a.eventId == b.eventId && a.channel == b.channel)
    && !(a.runId.Some? && a.runId == b.runId && a.channel == b.channel)
  }

  // A CHECK rejects a row only when it is false; NULL operands make it unknown.
  datatype Sql = TRUE | FALSE | UNKNOWN

  function Known(b: bool): Sql { if b then TRUE else FALSE }

  function And(a: Sql, b: Sql): Sql {
    if a.FALSE? || b.FALSE? then FALSE else if a.TRUE? && b.TRUE? then TRUE else UNKNOWN
  }

  function Or(a: Sql, b: Sql): Sql {
    if a.TRUE? || b.TRUE? then TRUE else if a.FALSE? && b.FALSE? then FALSE else UNKNOWN
  }

  function Test(column: Option<string>, test: string -> bool): Sql {
    match column case None => UNKNOWN case Some(v) => Known(test(v))
  }

  // x IS NOT NULL AND length(trim(x)) > 0
  function Given(column: Option<string>): Sql {
    And(Known(column.Some?), Test(column, v => Nonblank(v)))
  }

  // ck_notification_outbox_manual_metadata
  function ManualMetadata(r: Row30): Sql {
    Or(Known(!r.sourceType.MANUAL?),
       And(Given(r.idempotencyKey),
           And(Test(r.idempotencyKey, v => r.sourceId == v),
               And(Test(r.confirmedBy, v => v == "user" || v == "external_agent"),
                   And(Given(r.authorizationNote), Given(r.expiresAt))))))
  }

  predicate RowOk30(r: Row30) {
    && !r.sourceType.OtherSource?
    && !ManualMetadata(r).FALSE?
    && (r.sourceType.MANUAL? || (r.confirmedBy.None? && r.authorizationNote.None?))
    && DeliveryOk(r.channel, r.delivery)
  }

  predicate Compatible30(a: Row30, b: Row30) {
    && a.id != b.id
    && !(a.sourceType == b.sourceType && a.sourceId == b.sourceId && a.channel == b.channel)
    && !(a.idempotencyKey.Some? && a.idempotencyKey == b.idempotencyKey)
  }

  ghost predicate Valid24(t: seq<Row24>) {
    (forall i :: 0 <= i < |t| ==> RowOk24(t[i])) && forall i, j :: 0 <= i < j < |t| ==> Compatible24(t[i], t[j])
  }

  ghost predicate Valid25(t: seq<Row25>) {
    (forall i :: 0 <= i < |t| ==> RowOk25(t[i])) && forall i, j :: 0 <= i < j < |t| ==> Compatible25(t[i], t[j])
  }

  ghost predicate Valid30(t: seq<Row30>) {
    (forall i :: 0 <= i < |t| ==> RowOk30(t[i])) && forall i, j :: 0 <= i < j < |t| ==> Compatible30(t[i], t[j])
  }

  // ---- the row mappings ----

  function RowUp25(r: Row24): Row25 { Row25(r.eventId, Some(r.eventId), None, r.channel, r.delivery) }

  function RowUp30(r: Row25): Option<Row30> {
    // A NULL source id would break NOT NULL; the 0025 CHECK rules it out.
    if r.eventId.Some? then
      Some(Row30(r.id, MONITOR_EVENT, r.eventId.value, r.channel, r.delivery, None, None, None, None))
    else if r.runId.Some? then
      Some(Row30(r.id, MONITOR_RUN, r.runId.value, r.channel, r.delivery, None, None, None, None))
    else None
  }

  predicate Monitor(r: Row30) { r.sourceType.MONITOR_EVENT? || r.sourceType.MONITOR_RUN? }

  function RowDown30(r: Row30): Row25 {
    Row25(r.id,
          if r.sourceType.MONITOR_EVENT? then Some(r.sourceId) else None,
          if r.sourceType.MONITOR_RUN? then Some(r.sourceId) else None,
          r.channel, r.delivery)
  }

  function RowDown25(r: Row25): Row24
    requires r.eventId.Some?
  {
    Row24(r.eventId.value, r.channel, r.delivery)
  }

  function Up25(t: seq<Row24>): seq<Row25> {
    if t == [] then [] else Up25(t[..|t| - 1]) + [RowUp25(t[|t| - 1])]
  }

  function Up30(t: seq<Row25>): seq<Row30> {
    if t == [] then []
    else
      var n := |t| - 1;
      Up30(t[..n]) + if RowUp30(t[n]).Some? then [RowUp30(t[n]).value] else []
  }

  function Down30(t: seq<Row30>): seq<Row25> {
    if t == [] then []
    else
      var n := |t| - 1;
      Down30(t[..n]) + if Monitor(t[n]) then [RowDown30(t[n])] else []
  }

  function Down25(t: seq<Row25>): seq<Row24> {
    if t == [] then []
    else
      var n := |t| - 1;
      Down25(t[..n]) + if t[n].eventId.Some? then [RowDown25(t[n])] else []
  }

  // ---- the migrations as statements ----

  class Database {
    var outbox24: Option<seq<Row24>>
    var outbox25: Option<seq<Row25>>
    var outbox30: Option<seq<Row30>>

    // Copy into monitor_notification_outbox_v2, drop, rename.
    method Upgrade25() returns (ok: bool)
      requires outbox24.Some? && Valid24(outbox24.value) && outbox25.None?
      modifies this
      ensures ok && outbox24.None? && outbox25 == Some(Up25(old(outbox24).value)) && outbox30 == old(outbox30)
      ensures Valid25(outbox25.value)
    {
      var source := outbox24.value;
      Up25Valid(source);
      var target: seq<Row25> := [];
      for i := 0 to |source|
        invariant target == Up25(source[..i])
        invariant unchanged(this)
      {
        assert source[..i + 1][..i] == source[..i];
        Up25Accepts(source, i);
        var row := RowUp25(source[i]);
        if !RowOk25(row) || exists k :: 0 <= k < |target| && !Compatible25(target[k], row) {
          return false;
        }
        target := target + [row];
      }
      assert source[..|source|] == source;
      outbox24, outbox25 := None, Some(target);
      return true;
    }

    // Copy into notification_outbox and drop the 0025 table when it exists.
    method Upgrade30() returns (ok: bool)
      requires outbox25.Some? ==> Valid25(outbox25.value)
      requires outbox30.None?
      modifies this
      ensures ok && outbox25.None? && outbox24 == old(outbox24)
      ensures outbox30 == Some(if old(outbox25).Some? then Up30(old(outbox25).value) else [])
      ensures Valid30(outbox30.value)
    {
      var target: seq<Row30> := [];
      if outbox25.Some? {
        var source := outbox25.value;
        Up30Valid(source);
        for i := 0 to |source|
          invariant target == Up30(source[..i])
          invariant unchanged(this)
        {
          assert source[..i + 1][..i] == source[..i];
          Up30Accepts(source, i);
          var row := RowUp30(source[i]);
          if row.None? || !RowOk30(row.value) || exists k :: 0 <= k < |target| && !Compatible30(target[k], row.value) {
            return false;
          }
          target := target + [row.value];
        }
        assert source[..|source|] == source;
      }
      outbox25, outbox30 := None, Some(target);
      return true;
    }

    method Downgrade30() returns (ok: bool)
      requires outbox30.Some? && Valid30(outbox30.value) && outbox25.None?
      modifies this
      ensures ok && outbox30.None? && outbox25 == Some(Down30(old(outbox30).value)) && outbox24 == old(outbox24)
      ensures Valid25(outbox25.value)
    {
      var source := outbox30.value;
      Down30Valid(source);
      hide RowOk25, Compatible25, RowOk30, Compatible30, RowDown30, Valid30, Valid25;
      var target: seq<Row25> := [];
      for i := 0 to |source|
        invariant target == Down30(source[..i])
        invariant unchanged(this)
      {
        Down30Next(source, i);
        hide Down30, Monitor;
        if Monitor(source[i]) {
          Down30Accepts(source, i);
          var row := RowDown30(source[i]);
          if !RowOk25(row) || exists k :: 0 <= k < |target| && !Compatible25(target[k], row) {
            return false;
          }
          target := target + [row];
        }
      }
      assert source[..|source|] == source;
      outbox30, outbox25 := None, Some(target);
      return true;
    }

    // The rebuilt 0024 table carries the primary key but none of the CHECKs; its
    // rows satisfy them all the same.
    method Downgrade25() returns (ok: bool)
      requires outbox25.Some? && Valid25(outbox25.value) && outbox24.None?
      modifies this
      ensures ok && outbox25.None? && outbox24 == Some(Down25(old(outbox25).value)) && outbox30 == old(outbox30)
      ensures Valid24(outbox24.value)
    {
      var source := outbox25.value;
      Down25Valid(source);
      var target: seq<Row24> := [];
      for i := 0 to |source|
        invariant target == Down25(source[..i])
        invariant unchanged(this)
      {
        assert source[..i + 1][..i] == source[..i];
        if source[i].eventId.Some? {
          Down25Accepts(source, i);
          var row := RowDown25(source[i]);
          if exists k :: 0 <= k < |target| && !Compatible24(target[k], row) {
            return false;
          }
          target := target + [row];
        }
      }
      assert source[..|source|] == source;
      outbox25, outbox24 := None, Some(target);
      return true;
    }
  }

  lemma {:induction false} Down30Next(t: seq<Row30>, i: nat)
    requires i < |t|
    ensures Down30(t[..i + 1]) == Down30(t[..i]) + if Monitor(t[i]) then [RowDown30(t[i])] else []
  {
    assert t[..i + 1][..i] == t[..i];
  }

  // ---- every migration keeps the constraints ----

  lemma {:induction false} Up25Rows(t: seq<Row24>)
    ensures |Up25(t)| == |t| && forall i :: 0 <= i < |t| ==> Up25(t)[i] == RowUp25(t[i])
  {
    if t != [] {
      Up25Rows(t[..|t| - 1]);
    }
  }

  // notification_id = source_event_id stays a key because 0024 knows one channel.
  lemma {:induction false} Up25Valid(t: seq<Row24>)
    requires Valid24(t)
    ensures Valid25(Up25(t))
  {
    Up25Rows(t);
    forall i, j | 0 <= i < j < |t| ensures Compatible25(Up25(t)[i], Up25(t)[j]) {
      assert RowOk24(t[i]) && RowOk24(t[j]) && Compatible24(t[i], t[j]);
    }
  }

  // Without the channel CHECK the new primary key holds exactly when no event
  // has rows on two channels.
  lemma {:induction false} SingleChannelNeeded(t: seq<Row24>)
    requires forall i, j :: 0 <= i < j < |t| ==> Compatible24(t[i], t[j])
    ensures (forall i, j :: 0 <= i < j < |t| ==> Up25Key(t, i) != Up25Key(t, j)) <==>
            (forall i, j :: 0 <= i < j < |t| && t[i].channel != t[j].channel ==> t[i].eventId != t[j].eventId)
  {
    Up25Rows(t);
    if forall i, j :: 0 <= i < j < |t| ==> Up25Key(t, i) != Up25Key(t, j) {
      forall i, j | 0 <= i < j < |t| && t[i].channel != t[j].channel ensures t[i].eventId != t[j].eventId {
        assert Up25Key(t, i) != Up25Key(t, j);
      }
    }
    if forall i, j :: 0 <= i < j < |t| && t[i].channel != t[j].channel ==> t[i].eventId != t[j].eventId {
      forall i, j | 0 <= i < j < |t| ensures Up25Key(t, i) != Up25Key(t, j) {
        assert Compatible24(t[i], t[j]);
      }
    }
  }

  function Up25Key(t: seq<Row24>, i: nat): string
    requires i < |t|
  {
    RowUp25(t[i]).id
  }

  // Every copied row comes from a row of the source.
  lemma {:induction false} Up30Source(t: seq<Row25>, k: nat) returns (i: nat)
    requires k < |Up30(t)|
    ensures i < |t| && RowUp30(t[i]) == Some(Up30(t)[k])
  {
    var n := |t| - 1;
    if k < |Up30(t[..n])| {
      i := Up30Source(t[..n], k);
      assert Up30(t)[k] == Up30(t[..n])[k];
    } else {
      i := n;
    }
  }

  lemma {:induction false} Down30Source(t: seq<Row30>, k: nat) returns (i: nat)
    requires k < |Down30(t)|
    ensures i < |t| && Monitor(t[i]) && RowDown30(t[i]) == Down30(t)[k]
  {
    var n := |t| - 1;
    if k < |Down30(t[..n])| {
      i := Down30Source(t[..n], k);
      assert Down30(t)[k] == Down30(t[..n])[k];
    } else {
      i := n;
    }
  }

  lemma {:induction false} Down25Source(t: seq<Row25>, k: nat) returns (i: nat)
    requires k < |Down25(t)|
    ensures i < |t| && t[i].eventId.Some? && RowDown25(t[i]) == Down25(t)[k]
  {
    var n := |t| - 1;
    if k < |Down25(t[..n])| {
      i := Down25Source(t[..n], k);
      assert Down25(t)[k] == Down25(t[..n])[k];
    } else {
      i := n;
    }
  }

  // The copy of a valid table accepts every row in turn.
  lemma {:induction false} Up30Accepts(t: seq<Row25>, i: nat)
    requires i < |t| && Valid25(t)
    ensures RowUp30(t[i]).Some? && RowOk30(RowUp30(t[i]).value)
    ensures forall k :: 0 <= k < |Up30(t[..i])| ==> Compatible30(Up30(t[..i])[k], RowUp30(t[i]).value)
  {
    assert RowOk25(t[i]);
    forall k | 0 <= k < |Up30(t[..i])| ensures Compatible30(Up30(t[..i])[k], RowUp30(t[i]).value) {
      var j := Up30Source(t[..i], k);
      assert Compatible25(t[j], t[i]) && RowOk25(t[j]);
    }
  }

  lemma {:induction false} Down30Accepts(t: seq<Row30>, i: nat)
    requires i < |t| && Valid30(t) && Monitor(t[i])
    ensures RowOk25(RowDown30(t[i]))
    ensures forall k :: 0 <= k < |Down30(t[..i])| ==> Compatible25(Down30(t[..i])[k], RowDown30(t[i]))
  {
    assert RowOk30(t[i]);
    forall k | 0 <= k < |Down30(t[..i])| ensures Compatible25(Down30(t[..i])[k], RowDown30(t[i])) {
      var j := Down30Source(t[..i], k);
      assert Compatible30(t[j], t[i]);
    }
  }

  lemma {:induction false} Down25Accepts(t: seq<Row25>, i: nat)
    requires i < |t| && Valid25(t) && t[i].eventId.Some?
    ensures RowOk24(RowDown25(t[i]))
    ensures forall k :: 0 <= k < |Down25(t[..i])| ==> Compatible24(Down25(t[..i])[k], RowDown25(t[i]))
  {
    assert RowOk25(t[i]);
    forall k | 0 <= k < |Down25(t[..i])| ensures Compatible24(Down25(t[..i])[k], RowDown25(t[i])) {
      var j := Down25Source(t[..i], k);
      assert Compatible25(t[j], t[i]);
    }
  }

  lemma {:induction false} Up25Accepts(t: seq<Row24>, i: nat)
    requires i < |t| && Valid24(t)
    ensures RowOk25(RowUp25(t[i]))
    ensures forall k :: 0 <= k < |Up25(t[..i])| ==> Compatible25(Up25(t[..i])[k], RowUp25(t[i]))
  {
    Up25Rows(t[..i]);
    assert RowOk24(t[i]);
    forall k | 0 <= k < i ensures Compatible25(Up25(t[..i])[k], RowUp25(t[i])) {
      assert Compatible24(t[k], t[i]) && RowOk24(t[k]);
    }
  }

  lemma {:induction false} Up30Valid(t: seq<Row25>)
    requires Valid25(t)
    ensures Valid30(Up30(t))
  {
    if t != [] {
      Up30Valid(t[..|t| - 1]);
      Up30Accepts(t, |t| - 1);
      hide RowOk30, Compatible30, RowUp30;
    }
  }

  lemma {:induction false} Down30Valid(t: seq<Row30>)
    requires Valid30(t)
    ensures Valid25(Down30(t))
  {
    if t != [] {
      Down30Valid(t[..|t| - 1]);
      if Monitor(t[|t| - 1]) {
        Down30Accepts(t, |t| - 1);
      }
      hide RowOk25, Compatible25, RowDown30, RowOk30, Compatible30;
    }
  }

  lemma {:induction false} Down25Valid(t: seq<Row25>)
    requires Valid25(t)
    ensures Valid24(Down25(t))
  {
    if t != [] {
      Down25Valid(t[..|t| - 1]);
      if t[|t| - 1].eventId.Some? {
        Down25Accepts(t, |t| - 1);
      }
      hide RowOk24, Compatible24, RowDown25, RowOk25, Compatible25;
    }
  }

  // ---- round trips ----

  lemma {:induction false} Undo25(t: seq<Row24>)
    ensures Down25(Up25(t)) == t
  {
    if t != [] {
      var n := |t| - 1;
      Undo25(t[..n]);
      assert (Up25(t[..n]) + [RowUp25(t[n])])[..|Up25(t[..n])|] == Up25(t[..n]);
      assert t == t[..n] + [t[n]];
    }
  }

  lemma {:induction false} Undo30(t: seq<Row25>)
    requires forall i :: 0 <= i < |t| ==> RowOk25(t[i])
    ensures Down30(Up30(t)) == t
  {
    if t != [] {
      var n := |t| - 1;
      Undo30(t[..n]);
      assert RowOk25(t[n]);
      assert (Up30(t[..n]) + [RowUp30(t[n]).value])[..|Up30(t[..n])|] == Up30(t[..n]);
      assert t == t[..n] + [t[n]];
    }
  }

  // 0025 up, 0030 up, 0030 down, 0025 down is the identity on every valid 0024
  // table, and every table on the way satisfies its constraints.
  lemma {:induction false} ChainIsIdentity(t: seq<Row24>)
    requires Valid24(t)
    ensures Valid25(Up25(t)) && Valid30(Up30(Up25(t)))
    ensures Down30(Up30(Up25(t))) == Up25(t)
    ensures Down25(Down30(Up30(Up25(t)))) == t
  {
    Up25Valid(t);
    Up30Valid(Up25(t));
    Undo30(Up25(t));
    Undo25(t);
  }

  // ---- the schemas and the copies, written out ----

  // A text with something other than blanks in it.
  ghost predicate Filled(column: Option<string>) {
    column.Some? && exists c :: c in column.value && c != ' '
  }

  ghost predicate Deliverable(channel: string, d: Delivery) {
    channel == "TELEGRAM" && d.attemptCount >= 0 && d.status in {"PENDING", "DELIVERED", "DEAD_LETTER", "EXPIRED"}
  }

  // SQL's three-valued logic: unknown unless one operand decides.
  lemma {:induction false} LogicMeans(a: Sql, b: Sql, test: string -> bool)
    ensures And(a, b) == (if a == FALSE || b == FALSE then FALSE else if a == b == TRUE then TRUE else UNKNOWN)
    ensures Or(a, b) == (if a == TRUE || b == TRUE then TRUE else if a == b == FALSE then FALSE else UNKNOWN)
    ensures Test(None, test) == UNKNOWN
    ensures forall v :: Test(Some(v), test) == if test(v) then TRUE else FALSE
  {
  }

  lemma {:induction false} GivenMeans(column: Option<string>)
    ensures Given(column) == if Filled(column) then TRUE else FALSE
  {
    if column.Some? {
      assert forall i :: 0 <= i < |column.value| ==> column.value[i] in column.value;
    }
  }

  // What the CHECK on manual rows enforces: key, note and expiry are given, but a
  // row whose confirmed_by is NULL passes although the list of confirmers has no
  // NULL.
  lemma {:induction false} ManualRowsAccepted(r: Row30)
    requires r.sourceType == MANUAL
    ensures RowOk30(r) <==>
            && Deliverable(r.channel, r.delivery)
            && Filled(r.idempotencyKey) && r.sourceId == r.idempotencyKey.value
            && Filled(r.authorizationNote) && Filled(r.expiresAt)
            && r.confirmedBy in {None, Some("user"), Some("external_agent")}
  {
    GivenMeans(r.idempotencyKey);
    GivenMeans(r.authorizationNote);
    GivenMeans(r.expiresAt);
    assert Filled(r.idempotencyKey) ==> r.idempotencyKey.Some?;
    hide Given, Filled;
    match r.confirmedBy
    case None =>
    case Some(confirmer) =>
  }

  // The rows the other CHECKs let through: exactly one source, and no authorisation
  // on a row that is not manual.
  lemma {:induction false} ChecksMean(a: Row24, b: Row25)
    ensures RowOk24(a) <==> Deliverable(a.channel, a.delivery)
    ensures RowOk25(b) <==>
            && Deliverable(b.channel, b.delivery)
            && ((b.eventId != None && b.runId == None) || (b.eventId == None && b.runId != None))
  {
  }

  lemma {:induction false} OtherRowsAccepted(r: Row30)
    requires r.sourceType != MANUAL
    ensures RowOk30(r) <==>
            && Deliverable(r.channel, r.delivery) && r.sourceType in {MONITOR_EVENT, MONITOR_RUN, SYSTEM}
            && r.confirmedBy == None && r.authorizationNote == None
  {
    var metadata := ManualMetadata(r);
    assert metadata == TRUE;
  }

  // The keys of two rows of one table: NULL is different from everything.
  lemma {:induction false} KeysMean(x: Row24, y: Row24, a: Row25, b: Row25, r: Row30, s: Row30)
    ensures Compatible24(x, y) <==> (x.eventId == y.eventId ==> x.channel != y.channel)
    ensures Compatible25(a, b) <==>
            && a.id != b.id
            && (a.channel == b.channel && a.eventId == b.eventId ==> a.eventId == None)
            && (a.channel == b.channel && a.runId == b.runId ==> a.runId == None)
    ensures Compatible30(r, s) <==>
            && r.id != s.id
            && (r.channel == s.channel && r.sourceType == s.sourceType ==> r.sourceId != s.sourceId)
            && (r.idempotencyKey == s.idempotencyKey ==> r.idempotencyKey == None)
  {
  }

  // Where a row goes on the way up: an event row keeps the event as its id and source,
  // a run summary names its run, and nothing is authorised by the copy.
  lemma {:induction false} CopiedUp(a: Row24, b: Row25)
    ensures RowUp25(a) == Row25(a.eventId, Some(a.eventId), None, a.channel, a.delivery)
    ensures RowOk25(b) ==>
              && RowUp30(b).Some? && (b.eventId != None <==> RowUp30(b).value.sourceType == MONITOR_EVENT)
              && (b.runId != None <==> RowUp30(b).value.sourceType == MONITOR_RUN)
              && Some(RowUp30(b).value.sourceId) == (if b.eventId != None then b.eventId else b.runId)
              && RowUp30(b).value.delivery == b.delivery && RowUp30(b).value.idempotencyKey == None
  {
  }

  lemma {:induction false} UnconfirmedManualRow(d: Delivery)
    requires DeliveryOk("TELEGRAM", d)
    ensures exists r :: RowOk30(r) && r.sourceType.MANUAL? && r.confirmedBy.None?
  {
    var r := Row30("n", MANUAL, "k", "TELEGRAM", d, Some("k"), None, Some("note"), Some("later"));
    assert "k"[0] != ' ' && "note"[0] != ' ' && "later"[0] != ' ';
    assert Nonblank("k") && Nonblank("note") && Nonblank("later");
    assert RowOk30(r);
  }

  // What the downgrades forget: re-upgrading gives the table back exactly when
  // it held nothing the older schema cannot express.
  predicate Expressible25(r: Row25) {
    r.eventId == Some(r.id) && r.runId.None?
  }

  predicate Expressible30(r: Row30) {
    && Monitor(r) && r.idempotencyKey.None? && r.confirmedBy.None? && r.authorizationNote.None? && r.expiresAt.None?
  }

  lemma {:induction false} SameLast<T>(a: seq<T>, x: T, b: seq<T>, y: T)
    requires |a| <= |b|
    ensures a + [x] == b + [y] <==> a == b && x == y
  {
    if a + [x] == b + [y] {
      assert |a| == |b|;
      assert (a + [x])[..|a|] == (b + [y])[..|a|];
      assert (a + [x])[|a|] == (b + [y])[|a|];
    }
  }

  ghost predicate AllExpressible25(t: seq<Row25>) {
    forall i :: 0 <= i < |t| ==> Expressible25(t[i])
  }

  ghost predicate AllExpressible30(t: seq<Row30>) {
    forall i :: 0 <= i < |t| ==> Expressible30(t[i])
  }

  lemma {:induction false} AllExpressible25Last(t: seq<Row25>, r: Row25)
    ensures AllExpressible25(t + [r]) <==> AllExpressible25(t) && Expressible25(r)
  {
    hide Expressible25;
    if AllExpressible25(t + [r]) {
      assert Expressible25((t + [r])[|t|]);
      forall i | 0 <= i < |t| ensures Expressible25(t[i]) {
        assert Expressible25((t + [r])[i]);
      }
    }
  }

  lemma {:induction false} AllExpressible30Last(t: seq<Row30>, r: Row30)
    ensures AllExpressible30(t + [r]) <==> AllExpressible30(t) && Expressible30(r)
  {
    hide Expressible30;
    if AllExpressible30(t + [r]) {
      assert Expressible30((t + [r])[|t|]);
      forall i | 0 <= i < |t| ensures Expressible30(t[i]) {
        assert Expressible30((t + [r])[i]);
      }
    }
  }

  lemma {:induction false} RowRedo25(r: Row25)
    requires r.eventId.Some?
    ensures RowUp25(RowDown25(r)) == r <==> Expressible25(r)
  {
  }

  lemma {:induction false} RowRedo30(r: Row30)
    requires Monitor(r)
    ensures RowUp30(RowDown30(r)).Some?
    ensures RowUp30(RowDown30(r)).value == r <==> Expressible30(r)
  {
  }

  lemma {:induction false} Redo25(t: seq<Row25>)
    ensures |Up25(Down25(t))| <= |t|
    ensures Up25(Down25(t)) == t <==> AllExpressible25(t)
  {
    if t != [] {
      var init, last := t[..|t| - 1], t[|t| - 1];
      assert t == init + [last];
      Redo25(init);
      AllExpressible25Last(init, last);
      Redo25Step(init, last);
    }
  }

  lemma {:induction false} Redo25Step(t: seq<Row25>, r: Row25)
    requires |Up25(Down25(t))| <= |t|
    ensures |Up25(Down25(t + [r]))| <= |t| + 1
    ensures Up25(Down25(t + [r])) == t + [r] <==> Up25(Down25(t)) == t && Expressible25(r)
  {
    if r.eventId.Some? {
      Redo25Last(t, r);
      RowRedo25(r);
      hide *;
      SameLast(Up25(Down25(t)), RowUp25(RowDown25(r)), t, r);
    } else {
      Redo25Skips(t, r);
    }
  }

  lemma {:induction false} Redo25Skips(t: seq<Row25>, r: Row25)
    requires r.eventId.None?
    ensures Down25(t + [r]) == Down25(t)
  {
    assert (t + [r])[..|t|] == t;
  }

  lemma {:induction false} Redo25Last(t: seq<Row25>, r: Row25)
    requires r.eventId.Some?
    ensures Up25(Down25(t + [r])) == Up25(Down25(t)) + [RowUp25(RowDown25(r))]
  {
    assert (t + [r])[..|t|] == t;
    assert (Down25(t) + [RowDown25(r)])[..|Down25(t)|] == Down25(t);
  }

  lemma {:induction false} Redo30(t: seq<Row30>)
    ensures |Up30(Down30(t))| <= |t|
    ensures Up30(Down30(t)) == t <==> AllExpressible30(t)
  {
    if t != [] {
      var init, last := t[..|t| - 1], t[|t| - 1];
      assert t == init + [last];
      Redo30(init);
      AllExpressible30Last(init, last);
      Redo30Step(init, last);
    }
  }

  lemma {:induction false} Redo30Step(t: seq<Row30>, r: Row30)
    requires |Up30(Down30(t))| <= |t|
    ensures |Up30(Down30(t + [r]))| <= |t| + 1
    ensures Up30(Down30(t + [r])) == t + [r] <==> Up30(Down30(t)) == t && Expressible30(r)
  {
    if Monitor(r) {
      Redo30Last(t, r);
      RowRedo30(r);
      hide *;
      SameLast(Up30(Down30(t)), RowUp30(RowDown30(r)).value, t, r);
    } else {
      Redo30Skips(t, r);
    }
  }

  lemma {:induction false} Redo30Skips(t: seq<Row30>, r: Row30)
    requires !Monitor(r)
    ensures Down30(t + [r]) == Down30(t)
  {
    assert (t + [r])[..|t|] == t;
  }

  lemma {:induction false} Redo30Last(t: seq<Row30>, r: Row30)
    requires Monitor(r)
    ensures RowUp30(RowDown30(r)).Some?
    ensures Up30(Down30(t + [r])) == Up30(Down30(t)) + [RowUp30(RowDown30(r)).value]
  {
    assert (t + [r])[..|t|] == t;
    assert (Down30(t) + [RowDown30(r)])[..|Down30(t)|] == Down30(t);
  }
}
