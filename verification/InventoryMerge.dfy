// build_map_from_inventories of scripts/generate_cninfo_org_map.py: two row lists
// merged into one dictionary by code, stopping at the first malformed or
// conflicting row, then sorted.
module InventoryMerge {
  import opened Wrappers
  import opened JsonValue
  import opened TextOrder

  datatype Source = SZSE | BJ

  datatype Entry = Entry(code: string, orgId: string, category: string, source: Source)

  datatype Fault = NotAnObject | UnhashableCategory | MalformedCode | MalformedOrg

  datatype Error =
    | RowFault(source: Source, index: nat, fault: Fault)
    | Conflict(code: string, previous: string, next: string)
    | TooFew(count: nat)

  const A_SHARE := "A\U{80A1}"
  const MIN_ENTRY_COUNT := 6000

  // \d for one character.
  type Digit = char -> bool

  // ^\d{6}$ as a full match
  predicate CodeOk(digit: Digit, s: string) {
    |s| == 6 && forall i :: 0 <= i < |s| ==> digit(s[i])
  }

  // ^[A-Za-z0-9]+$ as a full match
  predicate OrgOk(s: string) {
    && s != []
    && forall i :: 0 <= i < |s| ==> 'A' <= s[i] <= 'Z' || 'a' <= s[i] <= 'z' || '0' <= s[i] <= '9'
  }

  // What the loop body makes of a row before it looks at the dictionary.
  datatype Reading = Skip | Pair(code: string, orgId: string) | Bad(fault: Fault)

  function Read(digit: Digit, row: Json): Reading {
    if !row.Object? then Bad(NotAnObject)
    else
      var category, code, orgId := Get(row, "category"), Get(row, "code"), Get(row, "orgId");
      if category.Array? || category.Object? then Bad(UnhashableCategory)
      else if category != Text(A_SHARE) then Skip
      else if !code.Text? || !CodeOk(digit, code.s) then Bad(MalformedCode)
      else if !orgId.Text? || !OrgOk(orgId.s) then Bad(MalformedOrg)
      else Pair(code.s, orgId.s)
  }

  // ---- specification over the rows of both lists ----

  ghost predicate Readable(digit: Digit, rows: seq<Json>) {
    forall row :: row in rows ==> !Read(digit, row).Bad?
  }

  function PairsOf(digit: Digit, rows: seq<Json>): set<(string, string)> {
    set row | row in rows && Read(digit, row).Pair? :: (Read(digit, row).code, Read(digit, row).orgId)
  }

  function CodesOf(pairs: set<(string, string)>): set<string> {
    set p | p in pairs :: p.0
  }

  ghost predicate Functional(pairs: set<(string, string)>) {
    forall p, q :: p in pairs && q in pairs && p.0 == q.0 ==> p == q
  }

  ghost predicate Consistent(digit: Digit, rows: seq<Json>) {
    Readable(digit, rows) && Functional(PairsOf(digit, rows))
  }

  ghost predicate Acceptable(digit: Digit, rows: seq<Json>) {
    Consistent(digit, rows) && |CodesOf(PairsOf(digit, rows))| >= MIN_ENTRY_COUNT
  }

  function Codes(entries: seq<Entry>): seq<string> {
    seq(|entries|, i requires 0 <= i < |entries| => entries[i].code)
  }

  function Mapping(entries: seq<Entry>): seq<(string, string)> {
    seq(|entries|, i requires 0 <= i < |entries| => (entries[i].code, entries[i].orgId))
  }

  // The committed entries of two inventories.
  ghost predicate Describes(digit: Digit, szse: seq<Json>, bj: seq<Json>, entries: seq<Entry>) {
    var pairs := PairsOf(digit, szse + bj);
    && Ascending(Codes(entries))
    && Elements(Codes(entries)) == CodesOf(pairs)
    && (forall i :: 0 <= i < |entries| ==> EntryOk(digit, szse, pairs, entries[i]))
  }

  ghost predicate EntryOk(digit: Digit, szse: seq<Json>, pairs: set<(string, string)>, e: Entry) {
    && (e.code, e.orgId) in pairs
    && e.category == A_SHARE
    && (e.source.SZSE? <==> e.code in CodesOf(PairsOf(digit, szse)))
  }

  // The first row in reading order that stops the merge.
  ghost predicate StoppedBy(digit: Digit, szse: seq<Json>, bj: seq<Json>, error: Error) {
    var rows := szse + bj;
    match error
    case RowFault(source, index, fault) =>
      var at := if source.SZSE? then index else |szse| + index;
      && (source.SZSE? ==> index < |szse|) && at < |rows|
      && Consistent(digit, rows[..at]) && Read(digit, rows[at]) == Bad(fault)
    case Conflict(code, previous, next) =>
      exists at :: 0 <= at < |rows| && Consistent(digit, rows[..at]) && Read(digit, rows[at]) == Pair(code, next)
                   && (code, previous) in PairsOf(digit, rows[..at]) && previous != next
    case TooFew(count) =>
      Consistent(digit, rows) && count == |CodesOf(PairsOf(digit, rows))| < MIN_ENTRY_COUNT
  }

  // ---- the loops ----

  // by_code after the given rows; order is its insertion order.
  ghost predicate Holds(digit: Digit, byCode: map<string, Entry>, order: seq<string>, done: seq<Json>) {
    && Readable(digit, done)
    && Distinct(order) && Elements(order) == byCode.Keys
    && (forall p :: p in PairsOf(digit, done) ==> p.0 in byCode && byCode[p.0].orgId == p.1)
    && (forall c :: c in byCode ==> Stored(digit, c, byCode[c], done))
  }

  ghost predicate Stored(digit: Digit, code: string, e: Entry, done: seq<Json>) {
    (code, e.orgId) in PairsOf(digit, done) && e.code == code && e.category == A_SHARE
  }

  // Entries are labelled with the list that held their code first.
  ghost predicate Labelled(digit: Digit, szse: seq<Json>, byCode: map<string, Entry>) {
    forall c :: c in byCode ==> (byCode[c].source.SZSE? <==> c in CodesOf(PairsOf(digit, szse)))
  }

  method AddRows(digit: Digit, source: Source, rows: seq<Json>, before: map<string, Entry>, orderBefore: seq<string>,
                 ghost done: seq<Json>)
    returns (byCode: map<string, Entry>, order: seq<string>, error: Option<Error>)
    requires Holds(digit, before, orderBefore, done)
    ensures error.None? ==> Holds(digit, byCode, order, done + rows)
    ensures error.None? ==>
              forall c :: c in byCode ==> byCode[c] == if c in before then before[c] else byCode[c].(source := source)
    ensures error.None? ==> before.Keys <= byCode.Keys
    ensures error.Some? ==> !error.value.TooFew?
    ensures error.Some? && error.value.RowFault? ==>
              error.value.source == source && error.value.index < |rows|
              && Consistent(digit, done + rows[..error.value.index])
              && Read(digit, rows[error.value.index]) == Bad(error.value.fault)
    ensures error.Some? && error.value.Conflict? ==> exists i :: ConflictAt(digit, done, rows, i, error.value)
  {
    byCode, order := before, orderBefore;
    assert done + rows[..0] == done;
    for i := 0 to |rows|
      invariant Holds(digit, byCode, order, done + rows[..i])
      invariant before.Keys <= byCode.Keys
      invariant forall c :: c in byCode ==> byCode[c] == if c in before then before[c] else byCode[c].(source := source)
    {
      var row := rows[i];
      assert done + rows[..i + 1] == (done + rows[..i]) + [row];
      var reading := Read(digit, row);
      match reading {
        case Bad(fault) =>
          HoldsConsistent(digit, byCode, order, done + rows[..i]);
          return byCode, order, Some(RowFault(source, i, fault));
        case Skip =>
          SkipHolds(digit, byCode, order, done + rows[..i], row);
        case Pair(code, orgId) =>
          if code in byCode {
            var previous := byCode[code].orgId;
            if previous != orgId {
              HoldsConsistent(digit, byCode, order, done + rows[..i]);
              assert Stored(digit, code, byCode[code], done + rows[..i]);
              assert ConflictAt(digit, done, rows, i, Conflict(code, previous, orgId));
              return byCode, order, Some(Conflict(code, previous, orgId));
            }
            RepeatHolds(digit, byCode, order, done + rows[..i], row);
          } else {
            var entry := Entry(code, orgId, A_SHARE, source);
            NewHolds(digit, byCode, order, done + rows[..i], row, entry);
            byCode, order := byCode[code := entry], order + [code];
          }
      }
    }
    assert rows[..|rows|] == rows;
    error := None;
  }

  ghost predicate ConflictAt(digit: Digit, done: seq<Json>, rows: seq<Json>, i: int, e: Error) {
    && e.Conflict? && 0 <= i < |rows|
    && Consistent(digit, done + rows[..i]) && Read(digit, rows[i]) == Pair(e.code, e.next)
    && (e.code, e.previous) in PairsOf(digit, done + rows[..i]) && e.previous != e.next
  }

  lemma {:induction false} PairsGrow(digit: Digit, done: seq<Json>, row: Json)
    ensures PairsOf(digit, done + [row]) ==
            PairsOf(digit, done)
            + if Read(digit, row).Pair? then {(Read(digit, row).code, Read(digit, row).orgId)} else {}
    ensures Readable(digit, done + [row]) <==> Readable(digit, done) && !Read(digit, row).Bad?
  {
    hide Read;
    assert forall x :: x in done + [row] <==> x in done || x == row;
  }

  lemma {:induction false} HoldsConsistent(
      digit: Digit, byCode: map<string, Entry>, order: seq<string>, done: seq<Json>)
    requires Holds(digit, byCode, order, done)
    ensures Consistent(digit, done)
    ensures CodesOf(PairsOf(digit, done)) == byCode.Keys
  {
    hide PairsOf, Readable;
    forall c | c in byCode ensures c in CodesOf(PairsOf(digit, done)) {
      assert Stored(digit, c, byCode[c], done);
      assert (c, byCode[c].orgId).0 == c;
    }
  }

  lemma {:induction false} SkipHolds(
      digit: Digit, byCode: map<string, Entry>, order: seq<string>, done: seq<Json>, row: Json)
    requires Holds(digit, byCode, order, done) && Read(digit, row).Skip?
    ensures Holds(digit, byCode, order, done + [row])
  {
    PairsGrow(digit, done, row);
    hide PairsOf, Readable, Read;
    StoredStays(digit, byCode, done, row);
  }

  lemma {:induction false} StoredStays(digit: Digit, byCode: map<string, Entry>, done: seq<Json>, row: Json)
    requires forall c :: c in byCode ==> Stored(digit, c, byCode[c], done)
    ensures forall c :: c in byCode ==> Stored(digit, c, byCode[c], done + [row])
  {
    PairsGrow(digit, done, row);
    hide PairsOf, Read;
    forall c | c in byCode ensures Stored(digit, c, byCode[c], done + [row]) {
      assert Stored(digit, c, byCode[c], done);
    }
  }

  lemma {:induction false} RepeatHolds(
      digit: Digit, byCode: map<string, Entry>, order: seq<string>, done: seq<Json>, row: Json)
    requires Holds(digit, byCode, order, done) && Read(digit, row).Pair?
    requires Read(digit, row).code in byCode && byCode[Read(digit, row).code].orgId == Read(digit, row).orgId
    ensures Holds(digit, byCode, order, done + [row])
  {
    PairsGrow(digit, done, row);
    hide PairsOf, Readable, Read;
    StoredStays(digit, byCode, done, row);
  }

  lemma {:induction false} NewHolds(
      digit: Digit, byCode: map<string, Entry>, order: seq<string>, done: seq<Json>, row: Json, e: Entry)
    requires Holds(digit, byCode, order, done) && Read(digit, row) == Pair(e.code, e.orgId)
    requires e.code !in byCode && e.category == A_SHARE
    ensures Holds(digit, byCode[e.code := e], order + [e.code], done + [row])
  {
    PairsGrow(digit, done, row);
    hide PairsOf, Readable, Read;
    StoredStays(digit, byCode, done, row);
    hide Stored;
    assert e.code !in order by {
      assert e.code !in Elements(order);
    }
    DistinctConcat(order, [e.code]);
    assert Elements(order + [e.code]) == Elements(order) + {e.code};
    NewStored(digit, done, row, e);
  }

  lemma {:induction false} NewStored(digit: Digit, done: seq<Json>, row: Json, e: Entry)
    requires Read(digit, row) == Pair(e.code, e.orgId) && e.category == A_SHARE
    ensures Stored(digit, e.code, e, done + [row])
  {
    PairsGrow(digit, done, row);
  }

  // The merge succeeds exactly on acceptable inventories; otherwise the error is
  // the one of the first row that stops it.
  method BuildMap(digit: Digit, szse: seq<Json>, bj: seq<Json>) returns (r: Result<seq<Entry>, Error>)
    ensures r.Ok? <==> Acceptable(digit, szse + bj)
    ensures r.Ok? ==> Describes(digit, szse, bj, r.value)
    ensures r.Err? ==> StoppedBy(digit, szse, bj, r.error)
  {
    hide Read, PairsOf, Readable, CodesOf, Functional, Ascending, Distinct, Labelled;
    NothingHeld(digit);
    assert [] + szse == szse;
    var byCode, order, error := AddRows(digit, SZSE, szse, map[], [], []);
    if error.Some? {
      FirstListStops(digit, szse, bj, error.value);
      return Err(error.value);
    }
    ghost var first, firstOrder := byCode, order;
    byCode, order, error := AddRows(digit, BJ, bj, byCode, order, szse);
    if error.Some? {
      SecondListStops(digit, szse, bj, error.value);
      return Err(error.value);
    }
    FirstLabels(digit, szse, first, firstOrder, byCode);
    HoldsCount(digit, byCode, order, szse + bj);
    if |order| < MIN_ENTRY_COUNT {
      return Err(TooFew(|order|));
    }
    var sorted := Sorted(order);
    var entries := ListEntries(byCode, sorted);
    SortedDescribes(digit, szse, bj, byCode, order, entries);
    return Ok(entries);
  }

  lemma {:induction false} NothingHeld(digit: Digit)
    ensures Holds(digit, map[], [], [])
  {
  }

  lemma {:induction false} HoldsCount(digit: Digit, byCode: map<string, Entry>, order: seq<string>, done: seq<Json>)
    requires Holds(digit, byCode, order, done)
    ensures Consistent(digit, done) && |order| == |CodesOf(PairsOf(digit, done))|
  {
    hide PairsOf, Readable, CodesOf, Functional;
    HoldsConsistent(digit, byCode, order, done);
    DistinctSize(order);
  }

  lemma {:induction false} FirstLabels(digit: Digit, szse: seq<Json>, first: map<string, Entry>, order: seq<string>,
                                       byCode: map<string, Entry>)
    requires Holds(digit, first, order, szse)
    requires forall c :: c in first ==> first[c].source.SZSE?
    requires forall c :: c in byCode ==> byCode[c] == if c in first then first[c] else byCode[c].(source := BJ)
    ensures Labelled(digit, szse, byCode)
  {
    hide PairsOf, Readable, CodesOf, Functional, Holds;
    HoldsConsistent(digit, first, order, szse);
  }

  // [by_code[c] for c in sorted(by_code)]
  method ListEntries(byCode: map<string, Entry>, sorted: seq<string>) returns (entries: seq<Entry>)
    requires forall c :: c in sorted ==> c in byCode
    ensures |entries| == |sorted| && forall i :: 0 <= i < |sorted| ==> entries[i] == byCode[sorted[i]]
  {
    entries := [];
    for i := 0 to |sorted|
      invariant |entries| == i && forall k :: 0 <= k < i ==> entries[k] == byCode[sorted[k]]
    {
      entries := entries + [byCode[sorted[i]]];
    }
  }

  lemma {:induction false} SortedDescribes(digit: Digit, szse: seq<Json>, bj: seq<Json>, byCode: map<string, Entry>,
                                           order: seq<string>, entries: seq<Entry>)
    requires Holds(digit, byCode, order, szse + bj) && Labelled(digit, szse, byCode)
    requires forall c :: c in Sorted(order) ==> c in byCode
    requires |entries| == |Sorted(order)|
    requires forall i :: 0 <= i < |entries| ==> entries[i] == byCode[Sorted(order)[i]]
    ensures Describes(digit, szse, bj, entries)
  {
    hide PairsOf, Readable, Ascending, CodesOf;
    HoldsConsistent(digit, byCode, order, szse + bj);
    SortedAscends(order);
    forall i | 0 <= i < |entries|
      ensures entries[i].code == Sorted(order)[i] && EntryOk(digit, szse, PairsOf(digit, szse + bj), entries[i])
    {
      assert Sorted(order)[i] in byCode;
      assert Stored(digit, Sorted(order)[i], entries[i], szse + bj);
    }
    assert Codes(entries) == Sorted(order);
  }

  lemma {:induction false} FirstListStops(digit: Digit, szse: seq<Json>, bj: seq<Json>, e: Error)
    requires !e.TooFew?
    requires e.RowFault? ==> e.source.SZSE? && e.index < |szse| && Consistent(digit, [] + szse[..e.index])
                             && Read(digit, szse[e.index]) == Bad(e.fault)
    requires e.Conflict? ==> exists i :: ConflictAt(digit, [], szse, i, e)
    ensures StoppedBy(digit, szse, bj, e) && !Acceptable(digit, szse + bj)
  {
    hide Read, PairsOf, Readable, Functional;
    var rows := szse + bj;
    if e.RowFault? {
      assert rows[..e.index] == [] + szse[..e.index];
      FaultRejects(digit, rows, e.index);
    } else {
      var i :| ConflictAt(digit, [], szse, i, e);
      assert rows[..i] == [] + szse[..i];
      ConflictRejects(digit, rows, i, e);
    }
  }

  lemma {:induction false} SecondListStops(digit: Digit, szse: seq<Json>, bj: seq<Json>, e: Error)
    requires !e.TooFew?
    requires e.RowFault? ==> e.source.BJ? && e.index < |bj| && Consistent(digit, szse + bj[..e.index])
                             && Read(digit, bj[e.index]) == Bad(e.fault)
    requires e.Conflict? ==> exists i :: ConflictAt(digit, szse, bj, i, e)
    ensures StoppedBy(digit, szse, bj, e) && !Acceptable(digit, szse + bj)
  {
    hide Read, PairsOf, Readable, Functional;
    var rows := szse + bj;
    if e.RowFault? {
      assert rows[..|szse| + e.index] == szse + bj[..e.index];
      FaultRejects(digit, rows, |szse| + e.index);
    } else {
      var i :| ConflictAt(digit, szse, bj, i, e);
      assert rows[..|szse| + i] == szse + bj[..i];
      ConflictRejects(digit, rows, |szse| + i, e);
    }
  }

  lemma {:induction false} FaultRejects(digit: Digit, rows: seq<Json>, i: nat)
    requires i < |rows| && Read(digit, rows[i]).Bad?
    ensures !Acceptable(digit, rows)
  {
    assert rows[i] in rows;
  }

  lemma {:induction false} ConflictRejects(digit: Digit, rows: seq<Json>, i: nat, e: Error)
    requires e.Conflict? && i < |rows| && Read(digit, rows[i]) == Pair(e.code, e.next)
    requires (e.code, e.previous) in PairsOf(digit, rows[..i]) && e.previous != e.next
    ensures !Acceptable(digit, rows)
  {
    hide Read;
    assert rows[i] in rows;
    assert (e.code, e.next) in PairsOf(digit, rows);
    assert forall x :: x in rows[..i] ==> x in rows;
    assert (e.code, e.previous) in PairsOf(digit, rows);
  }

  // ---- the rows in terms of their JSON ----

  // A column of a row, which counts as null when it is missing.
  ghost predicate Has(row: Json, key: string, v: Json) {
    row.Object? && if key in row.fields then row.fields[key] == v else v == Null
  }

  ghost predicate SixDigits(digit: Digit, s: string) {
    |s| == 6 && forall c :: c in s ==> digit(c)
  }

  ghost predicate Alphanumeric(s: string) {
    s != "" && forall c :: c in s ==> 'A' <= c <= 'Z' || 'a' <= c <= 'z' || '0' <= c <= '9'
  }

  // A row of the category that gives a code its organisation.
  ghost predicate States(digit: Digit, row: Json, code: string, orgId: string) {
    && Has(row, "category", Text("A\U{80A1}")) && Has(row, "code", Text(code)) && Has(row, "orgId", Text(orgId))
    && SixDigits(digit, code) && Alphanumeric(orgId)
  }

  // A row that is no object, whose category is a list or an object, or which is of the
  // category but states nothing.
  ghost predicate Malformed(digit: Digit, row: Json) {
    || !row.Object?
    || (exists items :: Has(row, "category", Array(items)))
    || (exists fields :: Has(row, "category", Object(fields)))
    || (Has(row, "category", Text("A\U{80A1}")) && !exists code, orgId :: States(digit, row, code, orgId))
  }

  lemma {:induction false} GetIs(row: Json, key: string, v: Json)
    ensures Has(row, key, v) <==> row.Object? && Get(row, key) == v
  {
  }

  lemma {:induction false} PatternsMean(digit: Digit, s: string)
    ensures CodeOk(digit, s) <==> SixDigits(digit, s)
    ensures OrgOk(s) <==> Alphanumeric(s)
  {
    assert forall c :: c in s <==> exists i :: 0 <= i < |s| && s[i] == c;
    assert forall i :: 0 <= i < |s| ==> s[i] in s;
  }

  // What a row is read as.
  lemma {:induction false} ReadMeans(digit: Digit, row: Json)
    ensures forall code, orgId :: Read(digit, row) == Pair(code, orgId) <==> States(digit, row, code, orgId)
    ensures Read(digit, row).Bad? <==> Malformed(digit, row)
    ensures Read(digit, row) == Bad(NotAnObject) <==> !row.Object?
    ensures Read(digit, row) == Bad(MalformedCode) <==>
            Has(row, "category", Text("A\U{80A1}")) && !exists s :: Has(row, "code", Text(s)) && SixDigits(digit, s)
    ensures Read(digit, row) == Bad(MalformedOrg) <==>
            && Has(row, "category", Text("A\U{80A1}")) && (exists s :: Has(row, "code", Text(s)) && SixDigits(digit, s))
            && !exists s :: Has(row, "orgId", Text(s)) && Alphanumeric(s)
  {
    if row.Object? {
      forall key, v ensures Has(row, key, v) <==> Get(row, key) == v {
        GetIs(row, key, v);
      }
      forall s ensures CodeOk(digit, s) <==> SixDigits(digit, s) ensures OrgOk(s) <==> Alphanumeric(s) {
        PatternsMean(digit, s);
      }
      hide Has, Get, CodeOk, OrgOk, SixDigits, Alphanumeric;
      var category, code, orgId := Get(row, "category"), Get(row, "code"), Get(row, "orgId");
      assert category.Array? ==> category == Array(category.items);
      assert category.Object? ==> category == Object(category.fields);
      assert code.Text? ==> code == Text(code.s);
      assert orgId.Text? ==> orgId == Text(orgId.s);
    }
  }

  // When two inventories are accepted: no malformed row, one organisation per code, and
  // at least 6000 codes.
  lemma {:induction false} AcceptableIff(digit: Digit, rows: seq<Json>)
    ensures Acceptable(digit, rows) <==>
            && (forall row :: row in rows ==> !Malformed(digit, row))
            && (forall r, s, code, a, b ::
                  r in rows && s in rows && States(digit, r, code, a) && States(digit, s, code, b) ==> a == b)
            && |CodesOf(PairsOf(digit, rows))| >= 6000
  {
    forall row
      ensures Read(digit, row).Bad? <==> Malformed(digit, row)
      ensures forall code, orgId :: Read(digit, row) == Pair(code, orgId) <==> States(digit, row, code, orgId)
    {
      ReadMeans(digit, row);
    }
    hide Read, Malformed, States;
    forall r, code, a | r in rows && States(digit, r, code, a) ensures (code, a) in PairsOf(digit, rows) {
      assert Read(digit, r) == Pair(code, a);
    }
    forall p | p in PairsOf(digit, rows) ensures exists r :: r in rows && States(digit, r, p.0, p.1) {
      var r :| r in rows && Read(digit, r).Pair? && p == (Read(digit, r).code, Read(digit, r).orgId);
      assert Read(digit, r) == Pair(p.0, p.1);
    }
    hide PairsOf;
  }

  // ---- the error is determined ----

  // The row at this position is the first that cannot be merged.
  ghost predicate StopsAt(digit: Digit, rows: seq<Json>, at: nat) {
    at < |rows| && Consistent(digit, rows[..at]) && !Consistent(digit, rows[..at + 1])
  }

  lemma {:induction false} ShorterConsistent(digit: Digit, rows: seq<Json>, i: nat, j: nat)
    requires i <= j <= |rows| && Consistent(digit, rows[..j])
    ensures Consistent(digit, rows[..i])
  {
    hide Read;
    assert forall row :: row in rows[..i] ==> row in rows[..j];
    assert PairsOf(digit, rows[..i]) <= PairsOf(digit, rows[..j]);
  }

  lemma {:induction false} StopsOnce(digit: Digit, rows: seq<Json>, a: nat, b: nat)
    requires StopsAt(digit, rows, a) && StopsAt(digit, rows, b)
    ensures a == b
  {
    hide Consistent;
    if a < b {
      ShorterConsistent(digit, rows, a + 1, b);
    }
    if b < a {
      ShorterConsistent(digit, rows, b + 1, a);
    }
  }

  lemma {:induction false} BadStops(digit: Digit, rows: seq<Json>, at: nat)
    requires at < |rows| && Consistent(digit, rows[..at]) && Read(digit, rows[at]).Bad?
    ensures StopsAt(digit, rows, at)
  {
    assert rows[..at + 1][at] == rows[at];
  }

  lemma {:induction false} ConflictStops(digit: Digit, rows: seq<Json>, at: nat, code: string, a: string, b: string)
    requires at < |rows| && Consistent(digit, rows[..at]) && Read(digit, rows[at]) == Pair(code, b)
    requires (code, a) in PairsOf(digit, rows[..at]) && a != b
    ensures StopsAt(digit, rows, at)
  {
    assert rows[..at + 1] == rows[..at] + [rows[at]];
    PairsGrow(digit, rows[..at], rows[at]);
    assert (code, a) in PairsOf(digit, rows[..at + 1]) && (code, b) in PairsOf(digit, rows[..at + 1]);
    hide Read, PairsOf;
  }

  // Where a stopped merge stopped; None if it came to the end of the rows.
  ghost predicate StopOf(digit: Digit, szse: seq<Json>, bj: seq<Json>, e: Error, at: nat) {
    var rows := szse + bj;
    && StopsAt(digit, rows, at)
    && match e
       case RowFault(source, index, fault) =>
         at == (if source.SZSE? then index else |szse| + index) && (source.SZSE? <==> at < |szse|)
         && Read(digit, rows[at]) == Bad(fault)
       case Conflict(code, previous, next) =>
         Read(digit, rows[at]) == Pair(code, next) && (code, previous) in PairsOf(digit, rows[..at])
       case TooFew(_) => false
  }

  lemma {:induction false} StopIs(digit: Digit, szse: seq<Json>, bj: seq<Json>, e: Error) returns (at: nat)
    requires StoppedBy(digit, szse, bj, e) && !e.TooFew?
    ensures StopOf(digit, szse, bj, e, at)
  {
    var rows := szse + bj;
    hide Read, PairsOf, Consistent, StopsAt;
    match e
    case RowFault(source, index, fault) =>
      at := if source.SZSE? then index else |szse| + index;
      BadStops(digit, rows, at);
    case Conflict(code, previous, next) =>
      at :| 0 <= at < |rows| && Consistent(digit, rows[..at]) && Read(digit, rows[at]) == Pair(code, next)
            && (code, previous) in PairsOf(digit, rows[..at]) && previous != next;
      ConflictStops(digit, rows, at, code, previous, next);
  }

  // A merge that fails can fail in one way only.
  lemma {:induction false} OneError(digit: Digit, szse: seq<Json>, bj: seq<Json>, a: Error, b: Error)
    requires StoppedBy(digit, szse, bj, a) && StoppedBy(digit, szse, bj, b)
    ensures a == b
  {
    var rows := szse + bj;
    if !a.TooFew? && !b.TooFew? {
      var i := StopIs(digit, szse, bj, a);
      var j := StopIs(digit, szse, bj, b);
      StopsOnce(digit, rows, i, j);
      SameStop(digit, szse, bj, a, b, i);
    } else if !a.TooFew? {
      var i := StopIs(digit, szse, bj, a);
      WholeIsStopped(digit, rows, i);
    } else if !b.TooFew? {
      var j := StopIs(digit, szse, bj, b);
      WholeIsStopped(digit, rows, j);
    }
  }

  lemma {:induction false} SameStop(digit: Digit, szse: seq<Json>, bj: seq<Json>, a: Error, b: Error, at: nat)
    requires StopOf(digit, szse, bj, a, at) && StopOf(digit, szse, bj, b, at)
    ensures a == b
  {
    hide Read, PairsOf, Readable;
  }

  lemma {:induction false} WholeIsStopped(digit: Digit, rows: seq<Json>, at: nat)
    requires StopsAt(digit, rows, at)
    ensures !Consistent(digit, rows)
  {
    hide Consistent;
    if Consistent(digit, rows) {
      assert rows[..|rows|] == rows;
      ShorterConsistent(digit, rows, at + 1, |rows|);
    }
  }

  // ---- independence of order and of the list a row sits in ----

  // Two pairs of inventories with the same rows, in any order, with any
  // repetition and split between the lists in any way, are accepted alike and
  // give the same mapping from code to organisation.
  lemma {:induction false} MappingIndependentOfOrder(
      digit: Digit, szse: seq<Json>, bj: seq<Json>, szse': seq<Json>, bj': seq<Json>,
      entries: seq<Entry>, entries': seq<Entry>)
    requires Elements(szse + bj) == Elements(szse' + bj')
    ensures Acceptable(digit, szse + bj) <==> Acceptable(digit, szse' + bj')
    ensures (Acceptable(digit, szse + bj)
             && Describes(digit, szse, bj, entries) && Describes(digit, szse', bj', entries')) ==>
              Mapping(entries) == Mapping(entries')
  {
    SameRows(digit, szse + bj, szse' + bj');
    hide PairsOf, Readable;
    if Acceptable(digit, szse + bj) && Describes(digit, szse, bj, entries) && Describes(digit, szse', bj', entries') {
      AscendingUnique(Codes(entries), Codes(entries'));
      forall i | 0 <= i < |entries|
        ensures entries[i].code == entries'[i].code && entries[i].orgId == entries'[i].orgId
      {
        assert Codes(entries)[i] == Codes(entries')[i];
        assert EntryOk(digit, szse, PairsOf(digit, szse + bj), entries[i]);
        assert EntryOk(digit, szse', PairsOf(digit, szse + bj), entries'[i]);
      }
    }
  }

  lemma {:induction false} SameRows(digit: Digit, rows: seq<Json>, rows': seq<Json>)
    requires Elements(rows) == Elements(rows')
    ensures PairsOf(digit, rows) == PairsOf(digit, rows')
    ensures Readable(digit, rows) <==> Readable(digit, rows')
  {
    hide Read;
    assert forall x :: x in rows <==> x in rows' by {
      assert forall x :: x in Elements(rows) <==> x in Elements(rows');
    }
  }

  // The mapping is the relation the rows state, nothing added and nothing lost.
  lemma {:induction false} MappingIsTheRelation(digit: Digit, szse: seq<Json>, bj: seq<Json>, entries: seq<Entry>)
    requires Acceptable(digit, szse + bj) && Describes(digit, szse, bj, entries)
    ensures forall code, orgId :: (code, orgId) in Mapping(entries) <==>
              exists row :: row in szse + bj && States(digit, row, code, orgId)
  {
    MappingIsPairs(digit, szse, bj, entries);
    forall code, orgId
      ensures (code, orgId) in PairsOf(digit, szse + bj) <==>
              exists row :: row in szse + bj && States(digit, row, code, orgId)
    {
      PairIsStated(digit, szse + bj, code, orgId);
    }
    hide PairsOf, States, Mapping, Describes, Acceptable;
  }

  lemma {:induction false} PairIsStated(digit: Digit, rows: seq<Json>, code: string, orgId: string)
    ensures (code, orgId) in PairsOf(digit, rows) <==> exists row :: row in rows && States(digit, row, code, orgId)
  {
    forall row ensures Read(digit, row) == Pair(code, orgId) <==> States(digit, row, code, orgId) {
      ReadMeans(digit, row);
    }
    hide Read, States;
    if row :| row in rows && States(digit, row, code, orgId) {
      assert Read(digit, row) == Pair(code, orgId);
    }
    if (code, orgId) in PairsOf(digit, rows) {
      var row :| row in rows && Read(digit, row).Pair?
                 && (code, orgId) == (Read(digit, row).code, Read(digit, row).orgId);
      assert Read(digit, row) == Pair(code, orgId);
    }
  }

  lemma {:induction false} MappingIsPairs(digit: Digit, szse: seq<Json>, bj: seq<Json>, entries: seq<Entry>)
    requires Acceptable(digit, szse + bj) && Describes(digit, szse, bj, entries)
    ensures forall p :: p in Mapping(entries) <==> p in PairsOf(digit, szse + bj)
  {
    hide PairsOf, Readable;
    var pairs := PairsOf(digit, szse + bj);
    forall p | p in pairs ensures p in Mapping(entries) {
      assert p.0 in Elements(Codes(entries));
      var i :| 0 <= i < |Codes(entries)| && Codes(entries)[i] == p.0;
      assert EntryOk(digit, szse, pairs, entries[i]);
      assert Mapping(entries)[i] == p;
    }
    forall p | p in Mapping(entries) ensures p in pairs {
      var i :| 0 <= i < |Mapping(entries)| && Mapping(entries)[i] == p;
      assert EntryOk(digit, szse, pairs, entries[i]);
    }
  }

  // A committed entry comes from a row that states it, and is labelled with the list
  // that gave its code first.
  lemma {:induction false} EntriesAreWellFormed(
      digit: Digit, szse: seq<Json>, bj: seq<Json>, entries: seq<Entry>, i: nat)
    requires Describes(digit, szse, bj, entries) && i < |entries|
    ensures exists row :: row in szse + bj && States(digit, row, entries[i].code, entries[i].orgId)
    ensures entries[i].category == "A\U{80A1}"
    ensures entries[i].source == SZSE <==>
            exists row, orgId :: row in szse && States(digit, row, entries[i].code, orgId)
  {
    var e := entries[i];
    assert EntryOk(digit, szse, PairsOf(digit, szse + bj), e);
    PairIsStated(digit, szse + bj, e.code, e.orgId);
    forall orgId
      ensures (e.code, orgId) in PairsOf(digit, szse) <==>
              exists row :: row in szse && States(digit, row, e.code, orgId)
    {
      PairIsStated(digit, szse, e.code, orgId);
    }
    hide PairsOf, States;
    if e.code in CodesOf(PairsOf(digit, szse)) {
      var p :| p in PairsOf(digit, szse) && p.0 == e.code;
      assert (e.code, p.1) in PairsOf(digit, szse);
    }
    if row, orgId :| row in szse && States(digit, row, e.code, orgId) {
      assert (e.code, orgId).0 == e.code;
    }
  }

  // On acceptable inventories no row of the category is lost.
  lemma {:induction false} RowsOfCategoryAppear(
      digit: Digit, szse: seq<Json>, bj: seq<Json>, entries: seq<Entry>, row: Json)
    requires Acceptable(digit, szse + bj) && Describes(digit, szse, bj, entries)
    requires row in szse + bj
    ensures row.Object?
    ensures Has(row, "category", Text("A\U{80A1}")) ==>
              exists code, orgId :: States(digit, row, code, orgId) && (code, orgId) in Mapping(entries)
  {
    AcceptableIff(digit, szse + bj);
    MappingIsTheRelation(digit, szse, bj, entries);
    hide States, Mapping, Describes, Acceptable;
    assert !Malformed(digit, row);
  }
}
