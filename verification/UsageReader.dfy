// _read_usage of scripts/audit_capabilities.py: rows of a usage export are kept
// or ignored one by one, and a window is reported over the dated ones.
module UsageReader {
  import opened Wrappers
  import opened JsonValue
  import opened TextOrder

  // A date is its ordinal; parse is date.fromisoformat.
  datatype Context = Context(
    keys: set<(string, Option<string>)>, today: int, parse: string -> Option<int>)

  const USAGE_SOURCES: set<string> := {"MCP", "CONSOLE", "AGENT", "INTERNAL"}
  const USAGE_OUTCOMES: set<string> := {"OK", "TOOL_FAILURE", "INVALID_REQUEST", "DENIED", "ERROR", "CANCELLED"}

  datatype Row = Row(
    source: string, capability: Json, operation: Option<string>, outcome: string, calls: int, totalMs: int,
    maxMs: int, day: Option<int>)

  function TextOf(v: Json): string {
    if v.Text? then v.s else ""
  }

  // The day column: None is a row to ignore.
  function ReadDay(c: Context, day: Json): Option<Option<int>> {
    match day
    case Null => Some(None)
    case Text(s) => if c.parse(s).Some? && c.parse(s).value <= c.today then Some(Some(c.parse(s).value)) else None
    case _ => None
  }

  predicate Counts(calls: Json, totalMs: Json, maxMs: Json) {
    && calls.Integer? && calls.i >= 1 && totalMs.Integer? && totalMs.i >= 0 && maxMs.Integer? && maxMs.i >= 0
  }

  function ReadRow(c: Context, row: Json): Option<Row> {
    if !row.Object? || !Get(row, "operation").Text? then None
    else
      var name := Get(row, "operation").s;
      var operation := if name == "__direct__" then None else Some(name);
      var day := ReadDay(c, Get(row, "day"));
      var source, outcome := Get(row, "source"), Get(row, "outcome");
      var calls, totalMs, maxMs := Get(row, "calls"), Get(row, "total_elapsed_ms"), Get(row, "max_elapsed_ms");
      if (TextOf(Get(row, "capability")), operation) !in c.keys || day.None? then None
      else if !source.Text? || source.s !in USAGE_SOURCES || !outcome.Text? || outcome.s !in USAGE_OUTCOMES
              || !Counts(calls, totalMs, maxMs) then None
      else Some(Row(source.s, Get(row, "capability"), operation, outcome.s, calls.i, totalMs.i, maxMs.i, day.value))
  }

  function Accepted(c: Context, rows: seq<Json>): seq<Row> {
    if rows == [] then []
    else
      var n := |rows| - 1;
      Accepted(c, rows[..n]) + if ReadRow(c, rows[n]).Some? then [ReadRow(c, rows[n]).value] else []
  }

  method FilterRows(c: Context, rows: seq<Json>) returns (safe: seq<Row>, ignored: nat)
    ensures safe == Accepted(c, rows)
    ensures |safe| + ignored == |rows|
  {
    safe, ignored := [], 0;
    for i := 0 to |rows|
      invariant safe == Accepted(c, rows[..i])
      invariant |safe| + ignored == i
    {
      assert rows[..i + 1][..i] == rows[..i];
      var row := ReadRow(c, rows[i]);
      if row.None? {
        ignored := ignored + 1;
      } else {
        safe := safe + [row.value];
      }
    }
    assert rows[..|rows|] == rows;
  }

  // ---- safe_rows.sort(key=...) ----

  // How Python orders two values; None and a text raise.
  datatype Order = Before | Same | After | Raises

  function CompareText(a: string, b: string): Order {
    if a == b then Same else if Less(a, b) then Before else After
  }

  // row.get("day", ""), as ISO text: no day comes first, then by date.
  function CompareDay(a: Option<int>, b: Option<int>): Order {
    if a == b then Same
    else if a.None? || (b.Some? && a.value < b.value) then Before
    else After
  }

  function CompareOperation(a: Option<string>, b: Option<string>): Order {
    match (a, b)
    case (None, None) => Same
    case (Some(x), Some(y)) => CompareText(x, y)
    case _ => Raises
  }

  // Tuples are decided by their first unequal members.
  function Then(first: Order, second: Order): Order {
    if first.Same? then second else first
  }

  function CompareGroup(a: Row, b: Row): Order {
    Then(CompareDay(a.day, b.day),
         Then(CompareText(a.source, b.source), CompareText(TextOf(a.capability), TextOf(b.capability))))
  }

  function Compare(a: Row, b: Row): Order {
    Then(CompareGroup(a, b), Then(CompareOperation(a.operation, b.operation), CompareText(a.outcome, b.outcome)))
  }

  // Same day, source and capability, one direct and one named operation.
  predicate Clash(a: Row, b: Row) {
    CompareGroup(a, b).Same? && (a.operation.None? <==> b.operation.Some?)
  }

  ghost predicate Clashing(rows: seq<Row>) {
    exists i, j :: 0 <= i < j < |rows| && Clash(rows[i], rows[j])
  }

  ghost predicate Ordered(rows: seq<Row>) {
    forall i, j :: 0 <= i < j < |rows| ==> NotAfter(rows[i], rows[j])
  }

  predicate NotAfter(a: Row, b: Row) {
    Compare(a, b).Before? || Compare(a, b).Same?
  }

  // Insertion from the right, which keeps equal rows in place; None is a TypeError.
  function InsertRow(sorted: seq<Row>, r: Row): Option<seq<Row>> {
    if sorted == [] then Some([r])
    else
      var n := |sorted| - 1;
      match Compare(r, sorted[n])
      case Raises => None
      case Before =>
        var rest := InsertRow(sorted[..n], r);
        if rest.None? then None else Some(rest.value + [sorted[n]])
      case _ => Some(sorted + [r])
  }

  function SortRows(rows: seq<Row>): Option<seq<Row>> {
    if rows == [] then Some([])
    else
      var n := |rows| - 1;
      var sorted := SortRows(rows[..n]);
      if sorted.None? then None else InsertRow(sorted.value, rows[n])
  }

  function Flip(o: Order): Order {
    match o case Before => After case After => Before case _ => o
  }

  lemma {:induction false} CompareFlips(a: Row, b: Row)
    ensures CompareGroup(b, a) == Flip(CompareGroup(a, b))
    ensures Compare(b, a) == Flip(Compare(a, b))
  {
    Trichotomy(a.source, b.source);
    Trichotomy(TextOf(a.capability), TextOf(b.capability));
    Trichotomy(a.outcome, b.outcome);
    if a.operation.Some? && b.operation.Some? {
      Trichotomy(a.operation.value, b.operation.value);
    }
    hide Less, TextOf;
  }

  // A comparison of kept rows raises exactly on a clash.
  lemma {:induction false} RaisesOnClash(a: Row, b: Row)
    ensures Compare(a, b).Raises? <==> Clash(a, b)
  {
    hide Less, TextOf;
  }

  predicate Chains(ab: Order, bc: Order, ac: Order) {
    (ab.Before? || ab.Same?) && (bc.Before? || bc.Same?) && !ac.Raises? ==>
      ac == if ab.Same? && bc.Same? then Same else Before
  }

  lemma {:induction false} ThenChains(ab: Order, bc: Order, ac: Order, ab': Order, bc': Order, ac': Order)
    requires Chains(ab, bc, ac) && Chains(ab', bc', ac')
    ensures Chains(Then(ab, ab'), Then(bc, bc'), Then(ac, ac'))
  {
  }

  lemma {:induction false} TextChains(a: string, b: string, c: string)
    ensures Chains(CompareText(a, b), CompareText(b, c), CompareText(a, c))
  {
    if Less(a, b) && Less(b, c) {
      Transitive(a, b, c);
      Trichotomy(a, c);
    }
  }

  lemma {:induction false} OperationChains(a: Option<string>, b: Option<string>, c: Option<string>)
    ensures Chains(CompareOperation(a, b), CompareOperation(b, c), CompareOperation(a, c))
  {
    if a.Some? && b.Some? && c.Some? {
      TextChains(a.value, b.value, c.value);
    }
    hide CompareText;
  }

  lemma {:induction false} RowsChain(a: Row, b: Row, c: Row)
    ensures Chains(CompareGroup(a, b), CompareGroup(b, c), CompareGroup(a, c))
    ensures Chains(Compare(a, b), Compare(b, c), Compare(a, c))
  {
    var x, y, z := TextOf(a.capability), TextOf(b.capability), TextOf(c.capability);
    TextChains(a.source, b.source, c.source);
    TextChains(x, y, z);
    TextChains(a.outcome, b.outcome, c.outcome);
    OperationChains(a.operation, b.operation, c.operation);
    assert Chains(CompareDay(a.day, b.day), CompareDay(b.day, c.day), CompareDay(a.day, c.day));
    hide CompareText, CompareDay, CompareOperation, Chains, TextOf, Then;
    ThenChains(CompareText(a.source, b.source), CompareText(b.source, c.source), CompareText(a.source, c.source),
               CompareText(x, y), CompareText(y, z), CompareText(x, z));
    ThenChains(CompareDay(a.day, b.day), CompareDay(b.day, c.day), CompareDay(a.day, c.day),
               Then(CompareText(a.source, b.source), CompareText(x, y)),
               Then(CompareText(b.source, c.source), CompareText(y, z)),
               Then(CompareText(a.source, c.source), CompareText(x, z)));
    ThenChains(CompareOperation(a.operation, b.operation), CompareOperation(b.operation, c.operation),
               CompareOperation(a.operation, c.operation),
               CompareText(a.outcome, b.outcome), CompareText(b.outcome, c.outcome), CompareText(a.outcome, c.outcome));
    ThenChains(CompareGroup(a, b), CompareGroup(b, c), CompareGroup(a, c),
               Then(CompareOperation(a.operation, b.operation), CompareText(a.outcome, b.outcome)),
               Then(CompareOperation(b.operation, c.operation), CompareText(b.outcome, c.outcome)),
               Then(CompareOperation(a.operation, c.operation), CompareText(a.outcome, c.outcome)));
  }

  ghost predicate ClashesWith(rows: seq<Row>, r: Row) {
    exists i :: 0 <= i < |rows| && Clash(rows[i], r)
  }

  // Without a clash the row finds its place.
  lemma {:induction false} InsertOrders(sorted: seq<Row>, r: Row)
    requires Ordered(sorted) && !ClashesWith(sorted, r)
    ensures InsertRow(sorted, r).Some?
    ensures Ordered(InsertRow(sorted, r).value)
    ensures multiset(InsertRow(sorted, r).value) == multiset(sorted) + multiset{r}
  {
    if sorted != [] {
      var n := |sorted| - 1;
      var last := sorted[n];
      assert !Clash(last, r);
      ClashSymmetric(last, r);
      RaisesOnClash(r, last);
      CompareFlips(r, last);
      assert sorted == sorted[..n] + [last];
      hide Compare, Clash;
      if Compare(r, last).Before? {
        InsertOrders(sorted[..n], r);
        InsertedBefore(sorted[..n], r, last);
        OrderedSnoc(InsertRow(sorted[..n], r).value, last);
      } else {
        forall i | 0 <= i < n ensures NotAfter(sorted[i], r) {
          StaysBefore(sorted[i], last, r);
        }
        OrderedSnoc(sorted, r);
      }
    }
  }

  lemma {:induction false} ClashSymmetric(a: Row, b: Row)
    ensures Clash(a, b) <==> Clash(b, a)
  {
    CompareFlips(a, b);
    hide CompareGroup;
  }

  lemma {:induction false} StaysBefore(a: Row, b: Row, c: Row)
    requires NotAfter(a, b) && NotAfter(b, c) && !Clash(a, c)
    ensures NotAfter(a, c)
  {
    RowsChain(a, b, c);
    RaisesOnClash(a, c);
    hide Compare, Clash;
  }

  lemma {:induction false} InsertedBefore(sorted: seq<Row>, r: Row, last: Row)
    requires InsertRow(sorted, r).Some? && multiset(InsertRow(sorted, r).value) == multiset(sorted) + multiset{r}
    requires NotAfter(r, last) && forall i :: 0 <= i < |sorted| ==> NotAfter(sorted[i], last)
    ensures forall i :: 0 <= i < |InsertRow(sorted, r).value| ==> NotAfter(InsertRow(sorted, r).value[i], last)
  {
    hide NotAfter, InsertRow;
    var result := InsertRow(sorted, r).value;
    forall i | 0 <= i < |result| ensures NotAfter(result[i], last) {
      assert result[i] in multiset(result);
      assert result[i] in multiset(sorted) || result[i] == r;
    }
  }

  lemma {:induction false} OrderedSnoc(rows: seq<Row>, r: Row)
    requires Ordered(rows) && forall i :: 0 <= i < |rows| ==> NotAfter(rows[i], r)
    ensures Ordered(rows + [r])
  {
    hide NotAfter;
  }

  // With a clash the insertion reaches it and raises.
  lemma {:induction false} InsertRaises(sorted: seq<Row>, r: Row)
    requires Ordered(sorted) && !Clashing(sorted) && ClashesWith(sorted, r)
    ensures InsertRow(sorted, r).None?
  {
    InsertUnfolds(sorted, r);
    var n := |sorted| - 1;
    PrefixOf(sorted, n);
    ClashReached(sorted, r);
    hide *;
    if !Compare(r, sorted[n]).Raises? {
      InsertRaises(sorted[..n], r);
    }
  }

  lemma {:induction false} ClashReached(sorted: seq<Row>, r: Row)
    requires sorted != [] && Ordered(sorted) && !Clashing(sorted) && ClashesWith(sorted, r)
    ensures var n := |sorted| - 1;
            Compare(r, sorted[n]).Raises? || (Compare(r, sorted[n]).Before? && ClashesWith(sorted[..n], r))
  {
    var n := |sorted| - 1;
    var i :| 0 <= i < |sorted| && Clash(sorted[i], r);
    ClashSymmetric(sorted[i], r);
    RaisesOnClash(r, sorted[i]);
    hide Compare, Clash, NotAfter;
    if i < n && !Compare(r, sorted[n]).Raises? {
      assert NotAfter(sorted[i], sorted[n]) && !Clash(sorted[i], sorted[n]);
      ClashIsLeft(sorted[i], sorted[n], r);
      assert sorted[..n][i] == sorted[i];
    }
  }

  lemma {:induction false} InsertUnfolds(sorted: seq<Row>, r: Row)
    requires sorted != []
    ensures var n := |sorted| - 1;
            InsertRow(sorted, r).None? <==>
            Compare(r, sorted[n]).Raises? || (Compare(r, sorted[n]).Before? && InsertRow(sorted[..n], r).None?)
  {
    hide Compare;
  }

  lemma {:induction false} PrefixOf(sorted: seq<Row>, n: nat)
    requires n <= |sorted| && Ordered(sorted) && !Clashing(sorted)
    ensures Ordered(sorted[..n]) && !Clashing(sorted[..n])
  {
    hide Clash, NotAfter;
    forall i, j | 0 <= i < j < n ensures !Clash(sorted[..n][i], sorted[..n][j]) {
      assert !Clash(sorted[i], sorted[j]);
    }
  }

  // A row that r clashes with cannot stand left of one that r does not precede.
  lemma {:induction false} ClashIsLeft(x: Row, last: Row, r: Row)
    requires Clash(x, r) && NotAfter(x, last) && !Clash(x, last) && !Compare(r, last).Raises?
    ensures Compare(r, last).Before?
  {
    CompareFlips(r, last);
    CompareFlips(x, r);
    RowsChain(x, last, r);
    RowsChain(r, x, last);
    RaisesOnClash(r, last);
    GroupDecides(x, last);
    GroupDecides(r, last);
    GroupsRaiseNever(x, r);
    GroupsRaiseNever(r, last);
    GroupsRaiseNever(x, last);
    hide CompareGroup, Compare;
  }

  lemma {:induction false} GroupDecides(a: Row, b: Row)
    ensures !CompareGroup(a, b).Same? ==> Compare(a, b) == CompareGroup(a, b)
  {
  }

  lemma {:induction false} GroupsRaiseNever(a: Row, b: Row)
    ensures !CompareGroup(a, b).Raises?
  {
  }

  // The sort is defined exactly when no two rows clash, and then gives the same
  // rows in order.
  lemma {:induction false} SortDefinedIff(rows: seq<Row>)
    ensures SortRows(rows).None? <==> Clashing(rows)
    ensures SortRows(rows).Some? ==>
              Ordered(SortRows(rows).value) && multiset(SortRows(rows).value) == multiset(rows)
  {
    if rows != [] {
      var n := |rows| - 1;
      SortDefinedIff(rows[..n]);
      assert rows == rows[..n] + [rows[n]];
      ClashingLast(rows[..n], rows[n]);
      if SortRows(rows[..n]).Some? {
        var sorted := SortRows(rows[..n]).value;
        SameClashes(sorted, rows[..n], rows[n]);
        hide Clash, InsertRow, Ordered;
        if ClashesWith(sorted, rows[n]) {
          SortedClashFree(sorted, rows[..n]);
          InsertRaises(sorted, rows[n]);
        } else {
          InsertOrders(sorted, rows[n]);
        }
      }
    }
  }

  lemma {:induction false} ClashingLast(rows: seq<Row>, r: Row)
    ensures Clashing(rows + [r]) <==> Clashing(rows) || ClashesWith(rows, r)
  {
    hide Clash;
    if i, j :| 0 <= i < j < |rows + [r]| && Clash((rows + [r])[i], (rows + [r])[j]) {
      if j < |rows| {
        assert Clash(rows[i], rows[j]);
      } else {
        assert Clash(rows[i], r);
      }
    }
    if i, j :| 0 <= i < j < |rows| && Clash(rows[i], rows[j]) {
      assert Clash((rows + [r])[i], (rows + [r])[j]);
    }
    if i :| 0 <= i < |rows| && Clash(rows[i], r) {
      assert Clash((rows + [r])[i], (rows + [r])[|rows|]);
    }
  }

  lemma {:induction false} SameClashes(a: seq<Row>, b: seq<Row>, r: Row)
    requires multiset(a) == multiset(b)
    ensures ClashesWith(a, r) <==> ClashesWith(b, r)
  {
    hide Clash;
    forall x ensures x in a <==> x in b {
      assert x in multiset(a) <==> x in multiset(b);
    }
    if i :| 0 <= i < |a| && Clash(a[i], r) {
      assert a[i] in b;
    }
    if i :| 0 <= i < |b| && Clash(b[i], r) {
      assert b[i] in a;
    }
  }

  // No row clashes with itself, so a permutation of clash-free rows is clash-free.
  lemma {:induction false} SortedClashFree(a: seq<Row>, b: seq<Row>)
    requires multiset(a) == multiset(b) && !Clashing(b)
    ensures !Clashing(a)
  {
    forall i, j | 0 <= i < j < |a| ensures !Clash(a[i], a[j]) {
      assert a[i] in multiset(b) && a[j] in multiset(b);
      var x, y :| 0 <= x < |b| && 0 <= y < |b| && b[x] == a[i] && b[y] == a[j];
      ClashSymmetric(b[x], b[y]);
      if x == y {
        NoSelfClash(b[x]);
      }
    }
  }

  lemma {:induction false} NoSelfClash(r: Row)
    ensures !Clash(r, r)
  {
  }

  // ---- what the order and the rows mean ----

  // Less in two columns, read from left to right.
  ghost predicate DayBefore(a: Option<int>, b: Option<int>) {
    b.Some? && (a.None? || a.value < b.value)
  }

  ghost predicate SameGroup(a: Row, b: Row) {
    a.day == b.day && a.source == b.source && TextOf(a.capability) == TextOf(b.capability)
  }

  // Undated rows first, then by day, source and capability.
  ghost predicate GroupBefore(a: Row, b: Row) {
    || DayBefore(a.day, b.day)
    || (a.day == b.day && Less(a.source, b.source))
    || (a.day == b.day && a.source == b.source && Less(TextOf(a.capability), TextOf(b.capability)))
  }

  // Within a group by operation and outcome.
  ghost predicate NameBefore(a: Row, b: Row) {
    || (a.operation.Some? && b.operation.Some? && Less(a.operation.value, b.operation.value))
    || (a.operation == b.operation && Less(a.outcome, b.outcome))
  }

  lemma {:induction false} OrderMeans(a: Row, b: Row)
    ensures Clash(a, b) <==> SameGroup(a, b) && (a.operation == None) != (b.operation == None)
    ensures NotAfter(a, b) <==>
            || GroupBefore(a, b)
            || (SameGroup(a, b) && NameBefore(a, b))
            || (SameGroup(a, b) && a.operation == b.operation && a.outcome == b.outcome)
  {
    Trichotomy(a.source, b.source);
    Trichotomy(TextOf(a.capability), TextOf(b.capability));
    Trichotomy(a.outcome, b.outcome);
    if a.operation.Some? && b.operation.Some? {
      Trichotomy(a.operation.value, b.operation.value);
    }
    hide Less, TextOf;
  }

  // A column of a row of the export, which counts as null when it is missing.
  ghost predicate Has(row: Json, key: string, v: Json) {
    row.Object? && if key in row.fields then row.fields[key] == v else v == Null
  }

  ghost predicate HasOperation(row: Json, operation: Option<string>) {
    match operation
    case None => Has(row, "operation", Text("__direct__"))
    case Some(name) => name != "__direct__" && Has(row, "operation", Text(name))
  }

  // No day, or one that is a date no later than today.
  ghost predicate HasDay(c: Context, row: Json, day: Option<int>) {
    match day
    case None => Has(row, "day", Null)
    case Some(d) => d <= c.today && exists s :: Has(row, "day", Text(s)) && c.parse(s) == Some(d)
  }

  // The row of the export that a kept row comes from, column by column.
  ghost predicate Kept(c: Context, row: Json, r: Row) {
    && Has(row, "capability", r.capability) && HasOperation(row, r.operation)
    && (match r.capability case Text(s) => (s, r.operation) in c.keys case _ => ("", r.operation) in c.keys)
    && HasDay(c, row, r.day)
    && Has(row, "source", Text(r.source)) && r.source in {"MCP", "CONSOLE", "AGENT", "INTERNAL"}
    && Has(row, "outcome", Text(r.outcome))
    && r.outcome in {"OK", "TOOL_FAILURE", "INVALID_REQUEST", "DENIED", "ERROR", "CANCELLED"}
    && Has(row, "calls", Integer(r.calls)) && r.calls >= 1
    && Has(row, "total_elapsed_ms", Integer(r.totalMs)) && r.totalMs >= 0
    && Has(row, "max_elapsed_ms", Integer(r.maxMs)) && r.maxMs >= 0
  }

  lemma {:induction false} DayMeans(c: Context, row: Json, day: Option<int>)
    requires row.Object?
    ensures ReadDay(c, Get(row, "day")) == Some(day) <==> HasDay(c, row, day)
  {
    var v := Get(row, "day");
    assert forall s :: Has(row, "day", Text(s)) <==> v == Text(s);
    assert v.Text? ==> v == Text(v.s);
  }

  // A row is kept exactly when all of its columns are acceptable, and as they are.
  lemma {:induction false} ReadRowMeans(c: Context, row: Json, r: Row)
    ensures ReadRow(c, row) == Some(r) <==> Kept(c, row, r)
  {
    if row.Object? {
      DayMeans(c, row, r.day);
      forall key, v ensures Has(row, key, v) <==> Get(row, key) == v {
      }
      hide Has, Get, HasDay, ReadDay;
    }
  }

  // The positions at which the export has a row that is kept as r.
  ghost function KeptAt(c: Context, rows: seq<Json>, r: Row): set<int> {
    set i | 0 <= i < |rows| && Kept(c, rows[i], r)
  }

  lemma {:induction false} KeptAtLast(c: Context, rows: seq<Json>, r: Row)
    requires rows != []
    ensures var n := |rows| - 1;
            |KeptAt(c, rows, r)| == |KeptAt(c, rows[..n], r)| + if Kept(c, rows[n], r) then 1 else 0
  {
    hide Kept;
    var n := |rows| - 1;
    assert KeptAt(c, rows, r) == KeptAt(c, rows[..n], r) + if Kept(c, rows[n], r) then {n} else {};
  }

  lemma {:induction false} NoneKept(c: Context, r: Row)
    ensures KeptAt(c, [], r) == {}
  {
  }

  // Every row of the export that is acceptable is kept, as often as it occurs.
  lemma {:induction false} AcceptedMeans(c: Context, rows: seq<Json>, r: Row)
    ensures multiset(Accepted(c, rows))[r] == |KeptAt(c, rows, r)|
  {
    hide ReadRow, Kept, KeptAt;
    if rows == [] {
      NoneKept(c, r);
    } else {
      var n := |rows| - 1;
      AcceptedMeans(c, rows[..n], r);
      ReadRowMeans(c, rows[n], r);
      KeptAtLast(c, rows, r);
    }
  }

  // Rows are kept or ignored one by one, then sorted; None is the TypeError of a
  // direct and a named operation that tie on day, source and capability.
  method ReadRows(c: Context, rows: seq<Json>) returns (safe: Option<seq<Row>>, ignored: nat)
    ensures safe.None? <==> Clashing(Accepted(c, rows))
    ensures safe.Some? ==> Ordered(safe.value) && multiset(safe.value) == multiset(Accepted(c, rows))
    ensures |Accepted(c, rows)| + ignored == |rows|
  {
    var kept, count := FilterRows(c, rows);
    SortDefinedIff(kept);
    return SortRows(kept), count;
  }

  // ---- the window ----

  function Days(rows: seq<Row>): set<int> {
    set r | r in rows && r.day.Some? :: r.day.value
  }

  // The positions of the rows with a day.
  function Dated(rows: seq<Row>): set<int> {
    set i | 0 <= i < |rows| && rows[i].day.Some?
  }

  lemma {:induction false} DatedSplit(rows: seq<Row>, i: nat)
    requires i < |rows|
    ensures |Dated(rows[..i + 1])| == |Dated(rows[..i])| + if rows[i].day.Some? then 1 else 0
  {
    assert Dated(rows[..i + 1]) == Dated(rows[..i]) + if rows[i].day.Some? then {i} else {};
  }

  lemma {:induction false} DaysSplit(rows: seq<Row>, i: nat)
    requires i < |rows|
    ensures Days(rows[..i + 1]) == Days(rows[..i]) + if rows[i].day.Some? then {rows[i].day.value} else {}
  {
    assert rows[..i + 1] == rows[..i] + [rows[i]];
  }

  lemma {:induction false} DatedFits(rows: seq<Row>)
    ensures |Dated(rows)| <= |rows|
  {
    SubsetSize(Dated(rows), Calendar(0, |rows| - 1));
  }

  datatype Window = Window(first: int, last: int, dayCount: nat, span: int, dated: nat, undated: nat)

  // None stands for the window of an export without dated rows.
  ghost predicate Bounds(days: set<int>, first: int, last: int) {
    days != {} ==> first in days && last in days && forall d :: d in days ==> first <= d <= last
  }

  lemma {:induction false} BoundsGrow(days: set<int>, first: int, last: int, day: int)
    requires Bounds(days, first, last)
    ensures Bounds(days + {day}, if days == {} || day < first then day else first,
                   if days == {} || day > last then day else last)
  {
  }

  method Observe(rows: seq<Row>) returns (w: Option<Window>)
    ensures w.None? <==> Days(rows) == {}
    ensures w.Some? ==> Spans(w.value, Days(rows))
    ensures w.Some? ==> w.value.dated == |Dated(rows)| && w.value.dated + w.value.undated == |rows|
  {
    var days: set<int> := {};
    var dated, first, last := 0, 0, 0;
    for i := 0 to |rows|
      invariant days == Days(rows[..i])
      invariant dated == |Dated(rows[..i])|
      invariant Bounds(days, first, last)
    {
      DatedSplit(rows, i);
      DaysSplit(rows, i);
      hide Days, Dated, Bounds;
      if rows[i].day.Some? {
        var day := rows[i].day.value;
        BoundsGrow(days, first, last, day);
        if days == {} || day < first {
          first := day;
        }
        if days == {} || day > last {
          last := day;
        }
        days := days + {day};
        dated := dated + 1;
      }
    }
    assert rows[..|rows|] == rows;
    if days == {} {
      return None;
    }
    DatedFits(rows);
    return Some(Window(first, last, |days|, last - first + 1, dated, |rows| - dated));
  }

  ghost predicate Spans(w: Window, days: set<int>) {
    && w.first in days && w.last in days && (forall d :: d in days ==> w.first <= d <= w.last)
    && w.dayCount == |days| && w.span == w.last - w.first + 1
  }

  // The calendar days of a span.
  function Calendar(first: int, last: int): (r: set<int>)
    requires first <= last + 1
    ensures forall d :: d in r <==> first <= d <= last
    ensures |r| == last - first + 1
    decreases last + 1 - first
  {
    if first > last then {} else Calendar(first, last - 1) + {last}
  }

  // There are never more observed days than calendar days, and as many exactly
  // when no day of the window is missing.
  lemma {:induction false} DaysFitTheSpan(w: Window, days: set<int>)
    requires Spans(w, days)
    ensures 1 <= w.dayCount <= w.span
    ensures w.dayCount == w.span <==> forall d :: w.first <= d <= w.last ==> d in days
  {
    var all := Calendar(w.first, w.last);
    SubsetSize(days, all);
    SubsetSize({w.first}, days);
    assert all == days + (all - days);
    assert |all| == |days| + |all - days|;
    if w.dayCount == w.span {
      assert all - days == {};
      forall d | w.first <= d <= w.last ensures d in days {
        assert d in all;
      }
    } else {
      var d :| d in all - days;
      assert w.first <= d <= w.last && d !in days;
    }
  }

  lemma {:induction false} AcceptedDay(c: Context, rows: seq<Json>, r: Row)
    requires r in Accepted(c, rows)
    ensures r.day.Some? ==> r.day.value <= c.today
    ensures (TextOf(r.capability), r.operation) in c.keys && r.source in USAGE_SOURCES && r.outcome in USAGE_OUTCOMES
    ensures r.calls >= 1 && r.totalMs >= 0 && r.maxMs >= 0
  {
    var n := |rows| - 1;
    if r in Accepted(c, rows[..n]) {
      AcceptedDay(c, rows[..n], r);
    }
  }

  // The window of an accepted export never reaches past today.
  lemma {:induction false} WindowEndsByToday(c: Context, rows: seq<Json>, w: Window)
    requires Spans(w, Days(Accepted(c, rows)))
    ensures w.last <= c.today
  {
    var r :| r in Accepted(c, rows) && r.day == Some(w.last);
    AcceptedDay(c, rows, r);
  }
}
