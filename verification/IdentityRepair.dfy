// The table rewrites of migrations/versions/0069_journal_instrument_identity.py.
// `moves` says which observed id is rewritten to which; tables are maps from
// primary keys to the other columns.
module IdentityRepair {
  import opened Wrappers

  type PositionKey = (string, string)  // (snapshot_id, instrument_id)
  datatype Position = Position(side: string, quantity: string, columns: string)
  type Positions = map<PositionKey, Position>

  // (provider, account_ref, provider_transaction_id)
  datatype TransactionKey = TransactionKey(provider: string, account: string, id: string)
  datatype Transaction = Transaction(instrument: Option<string>, mappingVersion: string, columns: string)
  type Transactions = map<TransactionKey, Transaction>

  type Moves = string -> Option<string>

  // A rewritten id is never rewritten again.
  ghost predicate Settles(moves: Moves) {
    forall id :: moves(id).Some? ==> moves(id).value != id && moves(moves(id).value).None?
  }

  function Moved(moves: Moves, id: string): string {
    match moves(id) case None => id case Some(target) => target
  }

  // ---- one replacement source -> target ----

  // The new keys of the source rows whose snapshot has no row under the target.
  function RenamedKeys(keys: set<PositionKey>, source: string, target: string): (r: set<PositionKey>)
    ensures forall k :: k in r ==> (k.0, source) in keys
  {
    set k | k in keys && k.1 == source && (k.0, target) !in keys :: (k.0, target)
  }

  // DELETE the source rows whose snapshot has a row under the target, then UPDATE
  // the remaining source rows: a row already under the target wins.
  function AfterReplace(m: Positions, source: string, target: string): Positions {
    (map k | k in m && k.1 != source :: m[k])
    + (map k | k in RenamedKeys(m.Keys, source, target) :: m[(k.0, source)])
  }

  function TransactionAfter(k: TransactionKey, t: Transaction, source: string, target: string): Transaction {
    if t.instrument != Some(source) then t
    else t.(instrument := Some(target),
            mappingVersion := if k.provider == "moomoo" then "moomoo_deals_v2" else t.mappingVersion)
  }

  function ReplaceInTransactions(t: Transactions, source: string, target: string): Transactions {
    map k | k in t :: TransactionAfter(k, t[k], source, target)
  }

  // ---- the loop over the observed ids ----

  function RepairStep(moves: Moves, m: Positions, id: string): Positions {
    match moves(id) case None => m case Some(target) => AfterReplace(m, id, target)
  }

  function Repaired(moves: Moves, m: Positions, order: seq<string>): Positions
    decreases |order|
  {
    if order == [] then m
    else Repaired(moves, RepairStep(moves, m, order[0]), order[1..])
  }

  function TransactionStep(moves: Moves, t: Transactions, id: string): Transactions {
    match moves(id) case None => t case Some(target) => ReplaceInTransactions(t, id, target)
  }

  function RepairedTransactions(moves: Moves, t: Transactions, order: seq<string>): Transactions {
    if order == [] then t
    else RepairedTransactions(moves, TransactionStep(moves, t, order[0]), order[1..])
  }

  // ---- the key set ----

  function MovedKey(moves: Moves, observed: set<string>, k: PositionKey): PositionKey {
    (k.0, if k.1 in observed then Moved(moves, k.1) else k.1)
  }

  function ImageKeys(moves: Moves, observed: set<string>, keys: set<PositionKey>): set<PositionKey> {
    set k | k in keys :: MovedKey(moves, observed, k)
  }

  lemma {:induction false} StepKeys(moves: Moves, m: Positions, id: string)
    requires Settles(moves)
    ensures RepairStep(moves, m, id).Keys == ImageKeys(moves, {id}, m.Keys)
  {
    var m' := RepairStep(moves, m, id);
    forall k ensures k in m' <==> k in ImageKeys(moves, {id}, m.Keys) {
      if k in m' && k !in m {
        assert MovedKey(moves, {id}, (k.0, id)) == k;
      } else if k in m' {
        assert MovedKey(moves, {id}, k) == k;
      }
    }
  }

  lemma {:induction false} ImageCompose(moves: Moves, a: set<string>, b: set<string>, keys: set<PositionKey>)
    requires Settles(moves)
    ensures ImageKeys(moves, b, ImageKeys(moves, a, keys)) == ImageKeys(moves, a + b, keys)
  {
    forall k | k in keys ensures MovedKey(moves, b, MovedKey(moves, a, k)) == MovedKey(moves, a + b, k) {
    }
    forall x ensures x in ImageKeys(moves, b, ImageKeys(moves, a, keys)) <==> x in ImageKeys(moves, a + b, keys) {
      if x in ImageKeys(moves, a + b, keys) {
        var k :| k in keys && x == MovedKey(moves, a + b, k);
        assert MovedKey(moves, a, k) in ImageKeys(moves, a, keys);
      }
    }
  }

  // The repaired key set is exactly the image of the old one under the
  // canonicalisation of the observed ids; the loop order does not show.
  lemma {:induction false} RepairedKeys(moves: Moves, m: Positions, order: seq<string>)
    requires Settles(moves)
    ensures Repaired(moves, m, order).Keys == ImageKeys(moves, Elements(order), m.Keys)
    decreases |order|
  {
    if order == [] {
      assert forall k :: MovedKey(moves, {}, k) == k;
      assert forall k :: k in ImageKeys(moves, {}, m.Keys) <==> k in m;
    } else {
      StepKeys(moves, m, order[0]);
      RepairedKeys(moves, RepairStep(moves, m, order[0]), order[1..]);
      ImageCompose(moves, {order[0]}, Elements(order[1..]), m.Keys);
      assert Elements(order) == {order[0]} + Elements(order[1..]);
    }
  }

  // ---- which row survives ----

  // The source row of (snapshot, target): the row already there, else the row of
  // the first id in loop order that is rewritten to the target.
  function Survivor(moves: Moves, m: Positions, order: seq<string>, k: PositionKey): Option<Position> {
    if k in m then Some(m[k])
    else if order == [] then None
    else if moves(order[0]) == Some(k.1) && (k.0, order[0]) in m then Some(m[(k.0, order[0])])
    else Survivor(moves, m, order[1..], k)
  }

  // A key of the repaired table: its id is no longer rewritten by the loop.
  ghost predicate Final(moves: Moves, order: seq<string>, k: PositionKey) {
    k.1 in order ==> moves(k.1).None?
  }

  lemma {:induction false} SurvivorStep(moves: Moves, m: Positions, id: string, k: PositionKey)
    requires Settles(moves) && (k.1 == id ==> moves(id).None?)
    ensures var m' := RepairStep(moves, m, id);
            && (k in m ==> k in m' && m'[k] == m[k])
            && (k !in m && k in m' ==> moves(id) == Some(k.1) && (k.0, id) in m && m'[k] == m[(k.0, id)])
            && (moves(id) == Some(k.1) && (k.0, id) in m ==> k in m')
  {
    StepKeys(moves, m, id);
    var m' := RepairStep(moves, m, id);
    if k in m {
      assert MovedKey(moves, {id}, k) == k;
    }
    if moves(id) == Some(k.1) && (k.0, id) in m {
      assert MovedKey(moves, {id}, (k.0, id)) == k;
    }
  }

  lemma {:induction false} SurvivorFrame(moves: Moves, m: Positions, m': Positions, order: seq<string>, k: PositionKey)
    requires k !in m && k !in m'
    requires forall i :: 0 <= i < |order| && moves(order[i]) == Some(k.1) ==>
               ((k.0, order[i]) in m <==> (k.0, order[i]) in m')
               && ((k.0, order[i]) in m ==> m[(k.0, order[i])] == m'[(k.0, order[i])])
    ensures Survivor(moves, m, order, k) == Survivor(moves, m', order, k)
    decreases |order|
  {
    if order != [] {
      assert forall i :: 0 <= i < |order[1..]| ==> order[1..][i] == order[i + 1];
      SurvivorFrame(moves, m, m', order[1..], k);
    }
  }

  // Exactly what the loop leaves under every key, for every loop order.
  lemma {:induction false} RepairedRows(moves: Moves, m: Positions, order: seq<string>, k: PositionKey)
    requires Settles(moves) && Distinct(order) && Final(moves, order, k)
    ensures var r := Repaired(moves, m, order);
            && (k in r <==> Survivor(moves, m, order, k).Some?)
            && (k in r ==> r[k] == Survivor(moves, m, order, k).value)
    decreases |order|
  {
    if order != [] {
      var m' := RepairStep(moves, m, order[0]);
      assert order[0] in order;
      assert forall i :: 0 <= i < |order[1..]| ==> order[1..][i] in order;
      RepairedRows(moves, m', order[1..], k);
      SurvivorStep(moves, m, order[0], k);
      if k !in m && k !in m' {
        forall i | 0 <= i < |order[1..]| && moves(order[1..][i]) == Some(k.1)
          ensures (k.0, order[1..][i]) in m <==> (k.0, order[1..][i]) in m'
          ensures (k.0, order[1..][i]) in m ==> m[(k.0, order[1..][i])] == m'[(k.0, order[1..][i])]
        {
          OtherRowsStay(moves, m, order[0], k.0, order[1..][i]);
        }
        SurvivorFrame(moves, m, m', order[1..], k);
      }
    }
  }

  // Replacing one id does not touch the rows of another id still to be rewritten.
  lemma {:induction false} OtherRowsStay(moves: Moves, m: Positions, id: string, snapshot: string, other: string)
    requires Settles(moves) && other != id && moves(other).Some?
    ensures var m' := RepairStep(moves, m, id);
            && ((snapshot, other) in m <==> (snapshot, other) in m')
            && ((snapshot, other) in m ==> m[(snapshot, other)] == m'[(snapshot, other)])
  {
    StepKeys(moves, m, id);
    if (snapshot, other) in m {
      assert MovedKey(moves, {id}, (snapshot, other)) == (snapshot, other);
    }
  }

  // ---- does the loop order show in the surviving rows? ----

  // Two observed ids of one snapshot collapse onto an id without a row of its
  // own there, and their rows differ.
  ghost predicate Ambiguous(moves: Moves, m: Positions, observed: set<string>, s: string, a: string, b: string) {
    && a in observed && b in observed && a != b
    && moves(a).Some? && moves(a) == moves(b)
    && (s, moves(a).value) !in m
    && (s, a) in m && (s, b) in m && m[(s, a)] != m[(s, b)]
  }

  ghost predicate OrderShows(moves: Moves, m: Positions, observed: set<string>) {
    exists o1: seq<string>, o2: seq<string> ::
      && Distinct(o1) && Distinct(o2) && Elements(o1) == observed && Elements(o2) == observed
      && Repaired(moves, m, o1) != Repaired(moves, m, o2)
  }

  lemma {:induction false} SurvivorFromOrder(moves: Moves, m: Positions, order: seq<string>, k: PositionKey)
    ensures k !in m && Survivor(moves, m, order, k).Some? ==>
              exists id :: id in order && moves(id) == Some(k.1) && (k.0, id) in m
                           && m[(k.0, id)] == Survivor(moves, m, order, k).value
    ensures k !in m && Survivor(moves, m, order, k).None? ==>
              forall id :: id in order && moves(id) == Some(k.1) ==> (k.0, id) !in m
  {
    if order != [] && k !in m {
      SurvivorFromOrder(moves, m, order[1..], k);
      assert forall id :: id in order <==> id == order[0] || id in order[1..];
    }
  }

  lemma {:induction false} SameSurvivor(
      moves: Moves, m: Positions, observed: set<string>, o1: seq<string>, o2: seq<string>, k: PositionKey)
    requires Elements(o1) == observed && Elements(o2) == observed
    requires forall s, a, b :: !Ambiguous(moves, m, observed, s, a, b)
    ensures Survivor(moves, m, o1, k) == Survivor(moves, m, o2, k)
  {
    if k !in m {
      SurvivorFromOrder(moves, m, o1, k);
      SurvivorFromOrder(moves, m, o2, k);
      if Survivor(moves, m, o1, k).Some? && Survivor(moves, m, o2, k).Some? {
        var a :| a in o1 && moves(a) == Some(k.1) && (k.0, a) in m && m[(k.0, a)] == Survivor(moves, m, o1, k).value;
        var b :| b in o2 && moves(b) == Some(k.1) && (k.0, b) in m && m[(k.0, b)] == Survivor(moves, m, o2, k).value;
        assert !Ambiguous(moves, m, observed, k.0, a, b);
      }
    }
  }

  lemma {:induction false} KeysAreFinal(moves: Moves, m: Positions, order: seq<string>, k: PositionKey)
    requires Settles(moves) && k in Repaired(moves, m, order)
    ensures Final(moves, order, k)
  {
    RepairedKeys(moves, m, order);
    var k0 :| k0 in m && k == MovedKey(moves, Elements(order), k0);
  }

  lemma {:induction false} NoAmbiguityNoTrace(
      moves: Moves, m: Positions, observed: set<string>, o1: seq<string>, o2: seq<string>)
    requires Settles(moves) && Distinct(o1) && Distinct(o2)
    requires Elements(o1) == observed && Elements(o2) == observed
    requires forall s, a, b :: !Ambiguous(moves, m, observed, s, a, b)
    ensures Repaired(moves, m, o1) == Repaired(moves, m, o2)
  {
    var r1, r2 := Repaired(moves, m, o1), Repaired(moves, m, o2);
    RepairedKeys(moves, m, o1);
    RepairedKeys(moves, m, o2);
    forall k | k in r1 ensures r1[k] == r2[k] {
      KeysAreFinal(moves, m, o1, k);
      KeysAreFinal(moves, m, o2, k);
      RepairedRows(moves, m, o1, k);
      RepairedRows(moves, m, o2, k);
      SameSurvivor(moves, m, observed, o1, o2, k);
    }
  }

  lemma {:induction false} Enumerate(ids: set<string>) returns (order: seq<string>)
    ensures Distinct(order) && Elements(order) == ids
  {
    if ids == {} {
      order := [];
    } else {
      var id :| id in ids;
      var rest := Enumerate(ids - {id});
      order := [id] + rest;
      assert order[1..] == rest;
      assert Elements(order) == {id} + Elements(rest);
    }
  }

  // An order that starts with an observed id of the snapshot keeps that id's row.
  lemma {:induction false} FirstWins(moves: Moves, m: Positions, order: seq<string>, k: PositionKey)
    requires Settles(moves) && Distinct(order) && order != []
    requires k !in m && moves(order[0]) == Some(k.1) && (k.0, order[0]) in m
    ensures k in Repaired(moves, m, order) && Repaired(moves, m, order)[k] == m[(k.0, order[0])]
  {
    assert Final(moves, order, k);
    RepairedRows(moves, m, order, k);
    hide Repaired;
  }

  lemma {:induction false} OrderFrom(observed: set<string>, a: string) returns (order: seq<string>)
    requires a in observed
    ensures Distinct(order) && Elements(order) == observed && order != [] && order[0] == a
  {
    var rest := Enumerate(observed - {a});
    order := [a] + rest;
    assert order[1..] == rest;
    assert Elements(order) == {a} + Elements(rest);
  }

  lemma {:induction false} AmbiguityShows(
      moves: Moves, m: Positions, observed: set<string>, s: string, a: string, b: string)
    requires Settles(moves) && Ambiguous(moves, m, observed, s, a, b)
    ensures OrderShows(moves, m, observed)
  {
    var o1 := OrderFrom(observed, a);
    var o2 := OrderFrom(observed, b);
    var k := (s, moves(a).value);
    hide Repaired, Distinct, Elements;
    FirstWins(moves, m, o1, k);
    FirstWins(moves, m, o2, k);
  }

  // The rows that survive depend on the unspecified order of SELECT DISTINCT
  // exactly when some snapshot is ambiguous.
  lemma {:induction false} OrderShowsIffAmbiguous(moves: Moves, m: Positions, observed: set<string>)
    requires Settles(moves)
    ensures OrderShows(moves, m, observed) <==> exists s, a, b :: Ambiguous(moves, m, observed, s, a, b)
  {
    if s, a, b :| Ambiguous(moves, m, observed, s, a, b) {
      AmbiguityShows(moves, m, observed, s, a, b);
    } else if OrderShows(moves, m, observed) {
      var o1: seq<string>, o2: seq<string> :|
        && Distinct(o1) && Distinct(o2) && Elements(o1) == observed && Elements(o2) == observed
        && Repaired(moves, m, o1) != Repaired(moves, m, o2);
      NoAmbiguityNoTrace(moves, m, observed, o1, o2);
    }
  }

  // ---- transactions ----

  function MovedTransaction(moves: Moves, observed: set<string>, k: TransactionKey, t: Transaction): Transaction {
    if t.instrument.None? || t.instrument.value !in observed || moves(t.instrument.value).None? then t
    else TransactionAfter(k, t, t.instrument.value, moves(t.instrument.value).value)
  }

  // No transaction is lost, whatever the order: every row keeps its key and gets
  // the canonical id; only moomoo rows that were rewritten change their version.
  lemma {:induction false} RepairedTransactionRows(moves: Moves, t: Transactions, order: seq<string>)
    requires Settles(moves)
    ensures RepairedTransactions(moves, t, order) ==
            map k | k in t :: MovedTransaction(moves, Elements(order), k, t[k])
  {
    if order != [] {
      var t' := TransactionStep(moves, t, order[0]);
      RepairedTransactionRows(moves, t', order[1..]);
      assert Elements(order) == {order[0]} + Elements(order[1..]);
      assert t'.Keys == t.Keys;
      forall k | k in t
        ensures MovedTransaction(moves, Elements(order[1..]), k, t'[k]) ==
            MovedTransaction(moves, Elements(order), k, t[k])
      {
      }
    }
  }

  // The same column by column, without reference to the single statement.
  lemma {:induction false} RepairedTransactionColumns(
      moves: Moves, t: Transactions, order: seq<string>, k: TransactionKey)
    requires Settles(moves) && k in t
    ensures RepairedTransactions(moves, t, order).Keys == t.Keys
    ensures var before, after := t[k], RepairedTransactions(moves, t, order)[k];
            && after.columns == before.columns
            && after.instrument ==
               (if before.instrument.Some? && before.instrument.value in order && moves(before.instrument.value).Some?
                then moves(before.instrument.value) else before.instrument)
            && after.mappingVersion ==
               (if after.instrument != before.instrument && k.provider == "moomoo" then "moomoo_deals_v2"
                else before.mappingVersion)
  {
    RepairedTransactionRows(moves, t, order);
  }
}
