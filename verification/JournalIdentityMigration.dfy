// upgrade() of migrations/versions/0069_journal_instrument_identity.py, statement
// by statement, over the three tables it rewrites.
module JournalIdentityMigration {
  import opened Wrappers
  import opened IdentityRules
  import opened IdentityRepair

  const EQUITY_GDXU := "equity:US:GDXU"
  const ETF_GDXU := "etf:US:GDXU"

  // Ids _register_observed_instrument inserts when they are missing.
  predicate Registrable(id: string) {
    var parts := SplitId(id);
    parts.Some? && parts.value.market == "US"
    && (parts.value.asset == "equity" || parts.value.asset == "etf" || parts.value.asset == "option")
  }

  // A row of instruments: the columns of the UNIQUE constraint, and the name.
  datatype Instrument = Instrument(triple: Parts, name: string)

  type Instruments = map<string, Instrument>

  // uq_instruments_asset_type_market_symbol
  ghost predicate UniqueTriples(m: Instruments) {
    forall a, b :: a in m && b in m && m[a].triple == m[b].triple ==> a == b
  }

  function NewRow(id: string): Instrument
    requires Registrable(id)
  {
    var parts := SplitId(id).value;
    Instrument(parts, parts.symbol + " (account-observed)")
  }

  // A row under another id holds the triple of an id that is still to be inserted.
  predicate Collides(m: Instruments, id: string) {
    Registrable(id) && id !in m && exists r :: r in m && m[r].triple == NewRow(id).triple
  }

  ghost predicate Blocked(m: Instruments, ids: set<string>) {
    exists id :: id in ids && Collides(m, id)
  }

  function Missing(m: Instruments, ids: set<string>): set<string> {
    set id | id in ids && Registrable(id) && id !in m
  }

  // The table after registering the given ids.
  function Added(m: Instruments, ids: set<string>): Instruments {
    map id | id in m.Keys + Missing(m, ids) :: if id in m then m[id] else NewRow(id)
  }

  function Rewrite(u: Unicode): Moves {
    id => var c := Canonical(u, id); if c == Some(id) then None else c
  }

  lemma {:induction false} RewriteIs(u: Unicode, id: string)
    ensures Rewrite(u)(id) == if Canonical(u, id) == Some(id) then None else Canonical(u, id)
  {
    hide Canonical;
  }

  lemma {:induction false} RewriteSettles(u: Unicode)
    requires Sane(u)
    ensures Settles(Rewrite(u))
  {
    hide Sane;
    forall id | Rewrite(u)(id).Some?
      ensures Rewrite(u)(id).value != id && Rewrite(u)(Rewrite(u)(id).value).None?
    {
      CanonicalIdempotent(u, id);
    }
  }

  function Observed(t: Transactions): set<string> {
    set k | k in t && t[k].instrument.Some? :: t[k].instrument.value
  }

  // The tables after the GDXU replacement.
  function PositionsAfterGdxu(instruments: set<string>, m: Positions): Positions {
    if ETF_GDXU in instruments then AfterReplace(m, EQUITY_GDXU, ETF_GDXU) else m
  }

  function TransactionsAfterGdxu(instruments: set<string>, t: Transactions): Transactions {
    if ETF_GDXU in instruments then ReplaceInTransactions(t, EQUITY_GDXU, ETF_GDXU) else t
  }

  // The transactions upgrade() leaves, whatever the loop order.
  function FinalTransactions(u: Unicode, instruments: set<string>, t: Transactions): Transactions {
    var t1 := TransactionsAfterGdxu(instruments, t);
    map k | k in t1 :: MovedTransaction(Rewrite(u), Observed(t1), k, t1[k])
  }

  function FinalInstruments(u: Unicode, m: Instruments, t: Transactions): Instruments {
    WithoutDuplicate(Added(m, Observed(FinalTransactions(u, m.Keys, t))))
  }

  function WithoutDuplicate(m: Instruments): Instruments {
    if ETF_GDXU in m then m - {EQUITY_GDXU} else m
  }

  class Database {
    var transactions: Transactions
    var positions: Positions
    var instruments: Instruments

    // Fails when the INSERT breaks the UNIQUE constraint.
    method RegisterObserved(id: string) returns (ok: bool)
      modifies this`instruments
      ensures ok <==> !Collides(old(instruments), id)
      ensures instruments == if ok then Added(old(instruments), {id}) else old(instruments)
    {
      if id in instruments {
        return true;
      }
      var parts := SplitId(id);
      if parts.None? || (parts.value.asset != "equity" && parts.value.asset != "etf" && parts.value.asset != "option")
         || parts.value.market != "US" {
        return true;
      }
      if exists r :: r in instruments && instruments[r].triple == parts.value {
        return false;
      }
      instruments := instruments[id := Instrument(parts.value, parts.value.symbol + " (account-observed)")];
      return true;
    }

    // DELETE FROM account_positions ... EXISTS (canonical row)
    method DeleteShadowed(source: string, target: string)
      requires source != target
      modifies this`positions
      ensures positions ==
              map k | k in old(positions) && !(k.1 == source && (k.0, target) in old(positions)) :: old(positions)[k]
    {
      positions := map k | k in positions && !(k.1 == source && (k.0, target) in positions) :: positions[k];
    }

    // UPDATE account_positions SET instrument_id=target, one row at a time under
    // the primary key; a conflict aborts the statement.
    method RenamePositions(source: string, target: string) returns (ok: bool)
      requires source != target
      modifies this`positions
      ensures ok <==> forall k :: k in old(positions) && k.1 == source ==> (k.0, target) !in old(positions)
      ensures positions == if ok then AfterReplace(old(positions), source, target) else old(positions)
    {
      var before := positions;
      var pending := SourceRows(positions, source);
      ghost var all := pending;
      RenameNone(before, source, target);
      hide RenamedSoFar, AfterReplace;
      assert all - pending == {};
      while pending != {}
        invariant pending <= all
        invariant Free(before, all - pending, source, target)
        invariant positions == RenamedSoFar(before, all - pending, source, target)
        decreases pending
      {
        var k :| k in pending;
        assert k in all;
        RenameOne(before, all - pending, k, source, target);
        if (k.0, target) in positions {
          positions := before;
          return false;
        }
        positions := (positions - {k})[(k.0, target) := positions[k]];
        assert all - (pending - {k}) == (all - pending) + {k};
        pending := pending - {k};
      }
      assert all - pending == all;
      RenameAll(before, all, source, target);
      return true;
    }

    // _replace_account_identity: the DELETE leaves nothing the UPDATE could
    // collide with, so only the registration can fail.
    method ReplaceIdentity(source: string, target: string) returns (ok: bool)
      requires source != target
      modifies this
      ensures ok <==> !Collides(old(instruments), target)
      ensures !ok ==> unchanged(this)
      ensures ok ==> instruments == Added(old(instruments), {target})
      ensures ok ==> transactions == ReplaceInTransactions(old(transactions), source, target)
      ensures ok ==> positions == AfterReplace(old(positions), source, target)
    {
      ok := RegisterObserved(target);
      if !ok {
        return;
      }
      transactions := map k | k in transactions :: TransactionAfter(k, transactions[k], source, target);
      DeleteShadowed(source, target);
      ok := RenamePositions(source, target);
      DeleteThenRename(old(positions), source, target);
    }

    // An exception rolls the transaction of the migration back.
    method Upgrade(u: Unicode) returns (ok: bool, ghost order: seq<string>)
      requires Sane(u)
      modifies this
      ensures ok <==>
              !Blocked(old(instruments), Observed(FinalTransactions(u, old(instruments).Keys, old(transactions))))
      ensures !ok ==> instruments == old(instruments)
      ensures !ok ==> transactions == old(transactions) && positions == old(positions)
      ensures ok ==> Distinct(order)
      ensures ok ==> Elements(order) == Observed(TransactionsAfterGdxu(old(instruments).Keys, old(transactions)))
      ensures ok ==>
                positions == Repaired(Rewrite(u), PositionsAfterGdxu(old(instruments).Keys, old(positions)), order)
      ensures ok ==> transactions == FinalTransactions(u, old(instruments).Keys, old(transactions))
      ensures ok ==> instruments == FinalInstruments(u, old(instruments), old(transactions))
      ensures ok && UniqueTriples(old(instruments)) ==> UniqueTriples(instruments)
    {
      var rows, entries, holdings := instruments, transactions, positions;
      hide Canonical, Registrable, Collides, Added, UniqueTriples;
      RegisteredStays(instruments, ETF_GDXU);
      if ETF_GDXU in instruments {
        ok := ReplaceIdentity(EQUITY_GDXU, ETF_GDXU);
      }
      ghost var t1 := transactions;
      assert instruments == rows && t1 == TransactionsAfterGdxu(rows.Keys, entries);
      RewriteSettles(u);
      TargetsAreObserved(u, t1);
      UpgradeBlocked(u, rows, Targets(u, Observed(t1)), Observed(FinalTransactions(u, rows.Keys, entries)));
      ok, order := CanonicaliseObserved(u);
      if ok {
        RepairedTransactionRows(Rewrite(u), t1, order);
        ok := RegisterAll(Observed(transactions));
      }
      if !ok {
        instruments, transactions, positions := rows, entries, holdings;
        return;
      }
      instruments := WithoutDuplicate(instruments);
      UniqueAfterUpgrade(rows, Observed(transactions));
    }

    method RegisterAll(ids: set<string>) returns (ok: bool)
      modifies this`instruments
      ensures ok <==> !Blocked(old(instruments), ids)
      ensures ok ==> instruments == Added(old(instruments), ids)
    {
      var todo := ids;
      AddNothing(instruments);
      hide Collides, Added;
      assert ids - todo == {};
      while todo != {}
        invariant todo <= ids && !Blocked(old(instruments), ids - todo)
        invariant instruments == Added(old(instruments), ids - todo)
        decreases todo
      {
        var id :| id in todo;
        OneMoreId(old(instruments), ids - todo, id);
        ok := RegisterObserved(id);
        if !ok {
          return;
        }
        assert ids - (todo - {id}) == ids - todo + {id};
        todo := todo - {id};
      }
      assert ids - todo == ids;
      return true;
    }

    // The body of the loop over the observed ids.
    method CanonicaliseOne(u: Unicode, id: string) returns (ok: bool)
      modifies this
      ensures ok <==> (Rewrite(u)(id).Some? ==> !Collides(old(instruments), Rewrite(u)(id).value))
      ensures ok ==> instruments == RegisteredFor(u, old(instruments), id)
      ensures ok ==> transactions == TransactionStep(Rewrite(u), old(transactions), id)
      ensures ok ==> positions == RepairStep(Rewrite(u), old(positions), id)
    {
      RewriteIs(u, id);
      hide Canonical, Rewrite, Collides, Added;
      var canonical := Canonical(u, id);
      if canonical.Some? && canonical.value != id {
        ok := ReplaceIdentity(id, canonical.value);
      } else {
        ok := true;
      }
    }

    // The loop over SELECT DISTINCT instrument_id, in whatever order it arrives.
    // A NULL id is read as the text None, which has no canonical form.
    method CanonicaliseObserved(u: Unicode) returns (ok: bool, ghost order: seq<string>)
      requires Settles(Rewrite(u))
      modifies this
      ensures ok <==> !Blocked(old(instruments), Targets(u, Observed(old(transactions))))
      ensures ok ==> Distinct(order) && Elements(order) == Observed(old(transactions))
      ensures ok ==> positions == Repaired(Rewrite(u), old(positions), order)
      ensures ok ==> transactions == RepairedTransactions(Rewrite(u), old(transactions), order)
      ensures ok ==> instruments == Added(old(instruments), Targets(u, Observed(old(transactions))))
    {
      var todo := Observed(transactions);
      ghost var start, all, done: set<string> := Tables(positions, transactions, instruments), todo, {};
      ok, order := true, [];
      NothingDone(u, start);
      hide *;
      while todo != {}
        invariant ok && todo + done == all && todo !! done
        invariant Reached(u, start, order, done, Tables(positions, transactions, instruments))
        decreases todo
      {
        var id :| id in todo;
        OneTurn(u, start, order, done, Tables(positions, transactions, instruments), id);
        ok := CanonicaliseOne(u, id);
        if !ok {
          BlockedMore(u, start.instruments, done + {id}, all);
          return;
        }
        order, done, todo := order + [id], done + {id}, todo - {id};
      }
      AllDone(u, start, order, all, Tables(positions, transactions, instruments));
    }
  }

  // ---- the loop over the observed ids ----

  datatype Tables = Tables(positions: Positions, transactions: Transactions, instruments: Instruments)

  // The tables after visiting the ids of `done` in the given order.
  ghost predicate Reached(u: Unicode, start: Tables, order: seq<string>, done: set<string>, now: Tables) {
    && Lists(order, done)
    && now.positions == Repaired(Rewrite(u), start.positions, order)
    && now.transactions == RepairedTransactions(Rewrite(u), start.transactions, order)
    && !Blocked(start.instruments, Targets(u, done))
    && now.instruments == Added(start.instruments, Targets(u, done))
  }

  lemma {:induction false} NothingDone(u: Unicode, start: Tables)
    ensures Reached(u, start, [], {}, start)
  {
    AddNothing(start.instruments);
    NoTargets(u);
  }

  lemma {:induction false} OneTurn(
      u: Unicode, start: Tables, order: seq<string>, done: set<string>, now: Tables, id: string)
    requires Reached(u, start, order, done, now) && id !in done
    ensures Blocked(start.instruments, Targets(u, done + {id})) <==>
            Rewrite(u)(id).Some? && Collides(now.instruments, Rewrite(u)(id).value)
    ensures !Blocked(start.instruments, Targets(u, done + {id})) ==>
              Reached(u, start, order + [id], done + {id},
                      Tables(RepairStep(Rewrite(u), now.positions, id),
                             TransactionStep(Rewrite(u), now.transactions, id),
                             RegisteredFor(u, now.instruments, id)))
  {
    hide Lists, Repaired, RepairedTransactions, Blocked, Targets, Added, Collides, RepairStep, TransactionStep, Rewrite;
    hide RegisteredFor;
    LoopStep(Rewrite(u), start.positions, start.transactions, order, id);
    ListsOneMore(order, done, id);
    RegisterStep(u, start.instruments, done, id);
  }

  lemma {:induction false} AllDone(u: Unicode, start: Tables, order: seq<string>, all: set<string>, now: Tables)
    requires Reached(u, start, order, all, now)
    ensures Distinct(order) && Elements(order) == all
    ensures now.positions == Repaired(Rewrite(u), start.positions, order)
    ensures now.transactions == RepairedTransactions(Rewrite(u), start.transactions, order)
    ensures !Blocked(start.instruments, Targets(u, all))
    ensures now.instruments == Added(start.instruments, Targets(u, all))
  {
  }

  // An order in which the ids of a set are visited.
  ghost predicate Lists(order: seq<string>, ids: set<string>) {
    Distinct(order) && Elements(order) == ids
  }

  lemma {:induction false} ListsOneMore(order: seq<string>, ids: set<string>, id: string)
    requires Lists(order, ids) && id !in ids
    ensures Lists(order + [id], ids + {id})
  {
    DistinctConcat(order, [id]);
  }

  // ---- registration under the UNIQUE constraint ----

  // The triple of a new row is its id taken apart, so two new rows never clash.
  lemma {:induction false} NewRowsDiffer(a: string, b: string)
    requires Registrable(a) && Registrable(b) && NewRow(a).triple == NewRow(b).triple
    ensures a == b
  {
    JoinSplit(a);
    JoinSplit(b);
    hide SplitId;
  }

  lemma {:induction false} AddNothing(m: Instruments)
    ensures Added(m, {}) == m
    ensures !Blocked(m, {})
  {
  }

  lemma {:induction false} RegisteredStays(m: Instruments, id: string)
    ensures id in m ==> Added(m, {id}) == m && !Collides(m, id)
  {
  }

  // What is registered already does not change whether another id collides.
  lemma {:induction false} CollidesLater(m: Instruments, ids: set<string>, id: string)
    requires !Blocked(m, ids)
    ensures Collides(Added(m, ids), id) <==> Collides(m, id)
  {
    hide Registrable;
    var later := Added(m, ids);
    if Collides(m, id) {
      var r :| r in m && m[r].triple == NewRow(id).triple;
      assert r in later && later[r] == m[r] && id !in ids;
    }
    if Collides(later, id) {
      var r :| r in later && later[r].triple == NewRow(id).triple;
      if r !in m {
        NewRowsDiffer(r, id);
      }
    }
  }

  lemma {:induction false} OneMoreId(m: Instruments, ids: set<string>, id: string)
    requires !Blocked(m, ids)
    ensures Collides(Added(m, ids), id) <==> Blocked(m, ids + {id})
    ensures Added(Added(m, ids), {id}) == Added(m, ids + {id})
  {
    CollidesLater(m, ids, id);
    AddedTwice(m, ids, {id});
    hide *;
    if Blocked(m, ids + {id}) {
      BlockedMember(m, ids, id);
    }
    if Collides(m, id) {
      BlockedBy(m, ids + {id}, id);
    }
  }

  lemma {:induction false} BlockedBy(m: Instruments, ids: set<string>, id: string)
    requires id in ids && Collides(m, id)
    ensures Blocked(m, ids)
  {
  }

  lemma {:induction false} BlockedMember(m: Instruments, ids: set<string>, id: string)
    requires Blocked(m, ids + {id}) && !Blocked(m, ids)
    ensures Collides(m, id)
  {
    hide Collides;
  }

  lemma {:induction false} AddedTwice(m: Instruments, a: set<string>, b: set<string>)
    ensures Added(Added(m, a), b) == Added(m, a + b)
  {
    hide Registrable, NewRow;
  }

  lemma {:induction false} UpgradeBlocked(u: Unicode, m: Instruments, targets: set<string>, ids: set<string>)
    requires targets <= ids
    ensures Blocked(m, targets) ==> Blocked(m, ids)
    ensures !Blocked(m, targets) ==>
              (Blocked(Added(m, targets), ids) <==> Blocked(m, ids)) && Added(Added(m, targets), ids) == Added(m, ids)
  {
    if !Blocked(m, targets) {
      forall id ensures Collides(Added(m, targets), id) <==> Collides(m, id) {
        CollidesLater(m, targets, id);
      }
    }
    AddedTwice(m, targets, ids);
    assert targets + ids == ids;
    hide Registrable, Collides, Added;
  }

  // A free id clashes with no row of the table.
  lemma {:induction false} NewAndOldDiffer(m: Instruments, ids: set<string>, a: string, b: string)
    requires !Blocked(m, ids) && a in Missing(m, ids) && b in m
    ensures NewRow(a).triple != m[b].triple
  {
    hide Registrable;
    if NewRow(a).triple == m[b].triple {
      BlockedBy(m, ids, a);
    }
  }

  // The migration keeps the UNIQUE constraint.
  lemma {:induction false} UniqueAfterUpgrade(m: Instruments, ids: set<string>)
    ensures !Blocked(m, ids) && UniqueTriples(m) ==> UniqueTriples(WithoutDuplicate(Added(m, ids)))
  {
    hide Registrable;
    if !Blocked(m, ids) && UniqueTriples(m) {
      var all := Added(m, ids);
      forall a, b | a in all && b in all && all[a].triple == all[b].triple ensures a == b {
        if a !in m && b !in m {
          NewRowsDiffer(a, b);
        } else if a !in m {
          NewAndOldDiffer(m, ids, a, b);
        } else if b !in m {
          NewAndOldDiffer(m, ids, b, a);
        }
      }
    }
  }

  // The rule the application writes its ids by: asset type, market and symbol.
  ghost predicate NamedByTriple(m: Instruments) {
    forall id :: id in m ==> id == m[id].triple.asset + ":" + m[id].triple.market + ":" + m[id].triple.symbol
  }

  // Under that rule nothing ever blocks the migration.
  lemma {:induction false} NamedByTripleNeverBlocked(m: Instruments, ids: set<string>)
    requires NamedByTriple(m)
    ensures !Blocked(m, ids)
  {
    forall id | id in ids ensures !Collides(m, id) {
      if Collides(m, id) {
        JoinSplit(id);
      }
    }
  }

  // ---- statement-level facts ----

  function SourceRows(m: Positions, source: string): (r: set<PositionKey>)
    ensures forall k :: k in r <==> k in m && k.1 == source
  {
    set k | k in m && k.1 == source
  }

  // Source rows whose snapshot has no row under the target.
  ghost predicate Free(m: Positions, done: set<PositionKey>, source: string, target: string) {
    forall k :: k in done ==> k in m && k.1 == source && (k.0, target) !in m
  }

  lemma {:induction false} RenameNone(m: Positions, source: string, target: string)
    ensures RenamedSoFar(m, {}, source, target) == m
  {
  }

  // The table after the rows `done` have been renamed.
  function RenamedSoFar(m: Positions, done: set<PositionKey>, source: string, target: string): Positions
    requires forall k :: k in done ==> k in m && k.1 == source
  {
    (map k | k in m && k !in done :: m[k])
    + (map k | k in (set d | d in done :: (d.0, target)) :: m[(k.0, source)])
  }

  lemma {:induction false} RenameOne(
      m: Positions, done: set<PositionKey>, k: PositionKey, source: string, target: string)
    requires Free(m, done, source, target)
    requires source != target && k in m && k.1 == source && k !in done
    ensures var r := RenamedSoFar(m, done, source, target);
            && k in r
            && ((k.0, target) in r <==> (k.0, target) in m)
            && ((k.0, target) !in m ==>
                  (r - {k})[(k.0, target) := r[k]] == RenamedSoFar(m, done + {k}, source, target))
  {
    var r := RenamedSoFar(m, done, source, target);
    assert forall d :: d in done ==> d.0 != k.0;
    if (k.0, target) !in m {
      RenameOneRows(m, done, k, source, target);
    }
  }

  lemma {:induction false} RenameOneRows(
      m: Positions, done: set<PositionKey>, k: PositionKey, source: string, target: string)
    requires Free(m, done, source, target)
    requires source != target && k in m && k.1 == source && k !in done && (k.0, target) !in m
    requires k in RenamedSoFar(m, done, source, target)
    ensures var r := RenamedSoFar(m, done, source, target);
            (r - {k})[(k.0, target) := r[k]] == RenamedSoFar(m, done + {k}, source, target)
  {
    var r := RenamedSoFar(m, done, source, target);
    var a, b := (r - {k})[(k.0, target) := r[k]], RenamedSoFar(m, done + {k}, source, target);
    forall x ensures x in a <==> x in b {
      RenamedKey(m, done, source, target, x);
      RenamedKey(m, done + {k}, source, target, x);
    }
    forall x | x in a ensures a[x] == b[x] {
      RenamedKey(m, done, source, target, x);
      RenamedKey(m, done + {k}, source, target, x);
    }
  }

  lemma {:induction false} RenamedKey(
      m: Positions, done: set<PositionKey>, source: string, target: string, x: PositionKey)
    requires source != target && forall d :: d in done ==> d in m && d.1 == source
    ensures var r := RenamedSoFar(m, done, source, target);
            && (x in r <==> (x.1 == target && (x.0, source) in done) || (x in m && x !in done))
            && (x in r ==> r[x] == if x.1 == target && (x.0, source) in done then m[(x.0, source)] else m[x])
  {
    if x.1 == target && (x.0, source) in done {
      assert ((x.0, source).0, target) == x;
    }
  }

  lemma {:induction false} RenameAll(m: Positions, all: set<PositionKey>, source: string, target: string)
    requires source != target && all == SourceRows(m, source) && Free(m, all, source, target)
    ensures RenamedSoFar(m, all, source, target) == AfterReplace(m, source, target)
  {
    assert (set d | d in all :: (d.0, target)) == RenamedKeys(m.Keys, source, target);
  }

  lemma {:induction false} DeleteThenRename(m: Positions, source: string, target: string)
    requires source != target
    ensures var d := map k | k in m && !(k.1 == source && (k.0, target) in m) :: m[k];
            && (forall k :: k in d && k.1 == source ==> (k.0, target) !in d)
            && AfterReplace(d, source, target) == AfterReplace(m, source, target)
  {
    var d := map k | k in m && !(k.1 == source && (k.0, target) in m) :: m[k];
    forall x ensures x in AfterReplace(d, source, target) <==> x in AfterReplace(m, source, target) {
      ReplacedKey(d, source, target, x);
      ReplacedKey(m, source, target, x);
    }
    forall x | x in AfterReplace(d, source, target)
      ensures AfterReplace(d, source, target)[x] == AfterReplace(m, source, target)[x]
    {
      ReplacedKey(d, source, target, x);
      ReplacedKey(m, source, target, x);
    }
    hide AfterReplace;
  }

  lemma {:induction false} ReplacedKey(m: Positions, source: string, target: string, x: PositionKey)
    requires source != target
    ensures var r := AfterReplace(m, source, target);
            var renamed := x.1 == target && (x.0, source) in m && x !in m;
            && (x in r <==> renamed || (x in m && x.1 != source))
            && (x in r ==> r[x] == if renamed then m[(x.0, source)] else m[x])
  {
    if x.1 == target && (x.0, source) in m && x !in m {
      assert ((x.0, source).0, target) == x;
    }
  }

  lemma {:induction false} LoopStep(moves: Moves, m: Positions, t: Transactions, order: seq<string>, id: string)
    ensures Repaired(moves, m, order + [id]) == RepairStep(moves, Repaired(moves, m, order), id)
    ensures RepairedTransactions(moves, t, order + [id]) ==
            TransactionStep(moves, RepairedTransactions(moves, t, order), id)
    decreases |order|
  {
    if order == [] {
      assert [id][1..] == [];
    } else {
      assert (order + [id])[1..] == order[1..] + [id];
      LoopStep(moves, RepairStep(moves, m, order[0]), TransactionStep(moves, t, order[0]), order[1..], id);
    }
  }

  // The canonical ids the loop registers.
  function Targets(u: Unicode, ids: set<string>): set<string> {
    set id | id in ids && Rewrite(u)(id).Some? :: Rewrite(u)(id).value
  }

  lemma {:induction false} NoTargets(u: Unicode)
    ensures Targets(u, {}) == {}
  {
  }

  lemma {:induction false} BlockedMore(u: Unicode, m: Instruments, ids: set<string>, more: set<string>)
    requires ids <= more && Blocked(m, Targets(u, ids))
    ensures Blocked(m, Targets(u, more))
  {
    hide Rewrite, Collides;
    assert Targets(u, ids) <= Targets(u, more);
  }

  // The table after the registration that one loop turn makes.
  function RegisteredFor(u: Unicode, m: Instruments, id: string): Instruments {
    match Rewrite(u)(id) case None => m case Some(target) => Added(m, {target})
  }

  lemma {:induction false} RegisterStep(u: Unicode, m: Instruments, ids: set<string>, id: string)
    requires !Blocked(m, Targets(u, ids))
    ensures var now, next := Added(m, Targets(u, ids)), Targets(u, ids + {id});
            && RegisteredFor(u, now, id) == Added(m, next)
            && ((Rewrite(u)(id).Some? ==> !Collides(now, Rewrite(u)(id).value)) <==> !Blocked(m, next))
  {
    TargetsStep(u, ids, id);
    hide Rewrite, Targets, Blocked, Collides, Added;
    if Rewrite(u)(id).Some? {
      OneMoreId(m, Targets(u, ids), Rewrite(u)(id).value);
    }
  }

  lemma {:induction false} TargetsStep(u: Unicode, ids: set<string>, id: string)
    ensures Targets(u, ids + {id}) ==
            match Rewrite(u)(id)
            case None => Targets(u, ids)
            case Some(target) => Targets(u, ids) + {target}
  {
    hide Rewrite;
  }

  // Every registered target is the id of some rewritten transaction.
  lemma {:induction false} TargetsAreObserved(u: Unicode, t: Transactions)
    ensures Targets(u, Observed(t)) <= Observed(map k | k in t :: MovedTransaction(Rewrite(u), Observed(t), k, t[k]))
  {
    hide Rewrite, Observed;
    var r := map k | k in t :: MovedTransaction(Rewrite(u), Observed(t), k, t[k]);
    forall x | x in Targets(u, Observed(t)) ensures x in Observed(r) {
      var id :| id in Observed(t) && Rewrite(u)(id) == Some(x);
      MovedIsObserved(Rewrite(u), t, Observed(t), id, x);
    }
  }

  lemma {:induction false} MovedIsObserved(moves: Moves, t: Transactions, ids: set<string>, id: string, x: string)
    requires id in Observed(t) && id in ids && moves(id) == Some(x)
    ensures x in Observed(map k | k in t :: MovedTransaction(moves, ids, k, t[k]))
  {
    var r := map k | k in t :: MovedTransaction(moves, ids, k, t[k]);
    var k :| k in t && t[k].instrument == Some(id);
    assert r[k].instrument == Some(x);
  }

  // ---- a snapshot whose rows depend on the loop order ----

  // The id of an option recorded under some asset type with some padding.
  function Spelled(asset: string, root: string, blanks: string, tail: string): string {
    asset + ":" + "US" + ":" + (root + blanks + tail)
  }

  function Compact(root: string, tail: string): string {
    "option:US:" + (root + tail)
  }

  lemma {:induction false} SpellingsDiffer(root: string, tail: string)
    ensures Spelled("option", root, " ", tail) != Compact(root, tail)
    ensures Spelled("equity", root, "", tail) != Compact(root, tail)
    ensures Spelled("option", root, " ", tail) != Spelled("equity", root, "", tail)
  {
    var padded, mistyped, compact := Spelled("option", root, " ", tail), Spelled("equity", root, "", tail),
                                     Compact(root, tail);
    assert |padded| == |compact| + 1;
    assert padded[0] == compact[0] == 'o' && mistyped[0] == 'e';
  }

  // An option held in one snapshot under a padded and under a mistyped id, with
  // different rows: the loop order decides which row is left.
  lemma {:induction false} TwoSpellingsShow(u: Unicode, root: string, tail: string, s: string, p: Position, q: Position)
    requires Sane(u) && IsRoot(root) && IsTail(u, tail) && p != q
    ensures var padded, mistyped := Spelled("option", root, " ", tail), Spelled("equity", root, "", tail);
            OrderShows(Rewrite(u), map[(s, padded) := p, (s, mistyped) := q], {padded, mistyped})
  {
    var padded, mistyped := Spelled("option", root, " ", tail), Spelled("equity", root, "", tail);
    PaddedOptionIsPacked(u, "option", root, " ", tail);
    PaddedOptionIsPacked(u, "equity", root, "", tail);
    SpellingsDiffer(root, tail);
    RewriteIs(u, padded);
    RewriteIs(u, mistyped);
    RewriteSettles(u);
    hide *;
    TwoRowsShow(Rewrite(u), padded, mistyped, Compact(root, tail), s, p, q);
  }

  lemma {:induction false} TwoRowsShow(
      moves: Moves, a: string, b: string, target: string, s: string, p: Position, q: Position)
    requires Settles(moves) && moves(a) == moves(b) == Some(target)
    requires a != target && b != target && a != b && p != q
    ensures OrderShows(moves, map[(s, a) := p, (s, b) := q], {a, b})
  {
    AmbiguityShows(moves, map[(s, a) := p, (s, b) := q], {a, b}, s, a, b);
  }

  // Such options exist for every digit class that has the ten digits.
  lemma {:induction false} SomeOption(u: Unicode)
    requires forall c :: '0' <= c <= '9' ==> u.digit(c)
    ensures IsRoot("NIO") && IsTail(u, "260702C5000")
  {
    var tail := "260702C5000";
    assert AllDigits(u, tail[..6]) && AllDigits(u, tail[7..]);
  }

  // ---- what the upgrade establishes ----

  ghost predicate AllRegistered(instruments: set<string>, t: Transactions) {
    forall id :: id in Observed(t) && Registrable(id) ==> id in instruments
  }

  // The duplicate is deleted although its ETF was not registered when the GDXU
  // replacement was considered: the ETF id came in through a transaction.
  predicate LateEtf(instruments: set<string>, t: Transactions) {
    ETF_GDXU !in instruments && ETF_GDXU in Observed(t)
  }

  lemma {:induction false} PlainUsId(u: Unicode, id: string, asset: string)
    requires Sane(u) && id == asset + ":" + "US" + ":" + "GDXU" && ':' !in asset
    requires asset == "equity" || asset == "etf"
    ensures Rewrite(u)(id).None? && Registrable(id)
  {
    SplitJoined(asset, "US", "GDXU");
    hide SplitId;
    assert IsUpper('G') && IsUpper('D') && IsUpper('X') && IsUpper('U');
    assert forall i :: 0 <= i < 4 ==> u.upper("GDXU"[i]) == ["GDXU"[i]];
    hide Sane;
    ShortSymbolIsNoOption(u, id, asset, "GDXU");
    hide Canonical;
  }

  lemma {:induction false} EquityStays(u: Unicode)
    requires Sane(u)
    ensures Rewrite(u)(EQUITY_GDXU).None? && Registrable(EQUITY_GDXU)
  {
    assert EQUITY_GDXU == "equity" + ":" + "US" + ":" + "GDXU";
    hide Canonical, Registrable, Sane;
    PlainUsId(u, EQUITY_GDXU, "equity");
  }

  lemma {:induction false} EtfStays(u: Unicode)
    requires Sane(u)
    ensures Rewrite(u)(ETF_GDXU).None? && Registrable(ETF_GDXU)
  {
    assert ETF_GDXU == "etf" + ":" + "US" + ":" + "GDXU";
    hide Canonical, Registrable, Sane;
    PlainUsId(u, ETF_GDXU, "etf");
  }

  // Every canonical id is one the registration accepts.
  lemma {:induction false} CanonicalIsRegistrable(u: Unicode, id: string)
    requires Canonical(u, id).Some?
    ensures Registrable(Canonical(u, id).value)
  {
    hide Normalized, OptionSymbol, SplitId;
    var symbol := Normalized(u, SplitId(id).value.symbol);
    SplitJoined("option", "US", symbol);
    assert "option:US:" + symbol == "option" + ":" + "US" + ":" + symbol;
  }

  lemma {:induction false} TargetIsOption(u: Unicode, id: string)
    requires Rewrite(u)(id).Some?
    ensures |Rewrite(u)(id).value| > 0 && Rewrite(u)(id).value[0] == 'o'
  {
    hide Normalized, OptionSymbol, SplitId;
  }

  lemma {:induction false} GdxuIdsStay(u: Unicode)
    requires Sane(u)
    ensures Rewrite(u)(EQUITY_GDXU).None? && Rewrite(u)(ETF_GDXU).None?
    ensures forall id :: Rewrite(u)(id) != Some(EQUITY_GDXU) && Rewrite(u)(id) != Some(ETF_GDXU)
    ensures Registrable(EQUITY_GDXU) && Registrable(ETF_GDXU)
    ensures EQUITY_GDXU != ETF_GDXU
  {
    EquityStays(u);
    EtfStays(u);
    hide Canonical, Registrable, Sane;
    forall id ensures Rewrite(u)(id) != Some(EQUITY_GDXU) && Rewrite(u)(id) != Some(ETF_GDXU) {
      if Rewrite(u)(id).Some? {
        TargetIsOption(u, id);
      }
    }
  }

  lemma {:induction false} FinalIds(u: Unicode, instruments: set<string>, t: Transactions)
    requires Sane(u)
    ensures var ids := Observed(FinalTransactions(u, instruments, t));
            && (EQUITY_GDXU in ids <==> ETF_GDXU !in instruments && EQUITY_GDXU in Observed(t))
            && (ETF_GDXU in ids <==>
                  (ETF_GDXU in Observed(t) || (ETF_GDXU in instruments && EQUITY_GDXU in Observed(t))))
  {
    GdxuIdsStay(u);
    hide Canonical, Registrable, Sane;
    var t1 := TransactionsAfterGdxu(instruments, t);
    var t2 := FinalTransactions(u, instruments, t);
    FinalId(u, t1, EQUITY_GDXU);
    FinalId(u, t1, ETF_GDXU);
    GdxuReplaced(instruments, t);
  }

  // An id that is neither rewritten nor a target is used after the loop as before.
  lemma {:induction false} FinalId(u: Unicode, t: Transactions, id: string)
    requires Rewrite(u)(id).None? && forall x :: Rewrite(u)(x) != Some(id)
    ensures var r := map k | k in t :: MovedTransaction(Rewrite(u), Observed(t), k, t[k]);
            id in Observed(r) <==> id in Observed(t)
  {
    hide Canonical;
    var r := map k | k in t :: MovedTransaction(Rewrite(u), Observed(t), k, t[k]);
    if id in Observed(t) {
      var k :| k in t && t[k].instrument == Some(id);
      assert r[k].instrument == Some(id);
    }
    if id in Observed(r) {
      var k :| k in r && r[k].instrument == Some(id);
      assert t[k].instrument == Some(id);
    }
  }

  lemma {:induction false} GdxuReplaced(instruments: set<string>, t: Transactions)
    ensures var ids := Observed(TransactionsAfterGdxu(instruments, t));
            && (EQUITY_GDXU in ids <==> ETF_GDXU !in instruments && EQUITY_GDXU in Observed(t))
            && (ETF_GDXU in ids <==>
                  (ETF_GDXU in Observed(t) || (ETF_GDXU in instruments && EQUITY_GDXU in Observed(t))))
  {
    var r := TransactionsAfterGdxu(instruments, t);
    assert EQUITY_GDXU != ETF_GDXU;
    if ETF_GDXU in Observed(t) {
      var k :| k in t && t[k].instrument == Some(ETF_GDXU);
      assert r[k].instrument == Some(ETF_GDXU);
    }
    if ETF_GDXU in instruments && EQUITY_GDXU in Observed(t) {
      var k :| k in t && t[k].instrument == Some(EQUITY_GDXU);
      assert r[k].instrument == Some(ETF_GDXU);
    }
    if ETF_GDXU in Observed(r) {
      var k :| k in r && r[k].instrument == Some(ETF_GDXU);
      assert t[k].instrument == Some(ETF_GDXU) || t[k].instrument == Some(EQUITY_GDXU);
    }
  }

  lemma {:induction false} DeletedId(instruments: set<string>, ids: set<string>, equity: string, etf: string)
    requires equity != etf && Registrable(equity) && Registrable(etf)
    ensures var all := instruments + set id | id in ids && Registrable(id);
            var final := if etf in all then all - {equity} else all;
            && (etf in final <==> etf in instruments || etf in ids)
            && ((forall id :: id in ids && Registrable(id) ==> id in final) <==>
                !(equity in ids && (etf in instruments || etf in ids)))
  {
    hide Registrable;
  }

  // The ids registered afterwards.
  function RegisteredIds(u: Unicode, instruments: set<string>, t: Transactions): set<string> {
    var all := instruments + set id | id in Observed(FinalTransactions(u, instruments, t)) && Registrable(id);
    if ETF_GDXU in all then all - {EQUITY_GDXU} else all
  }

  lemma {:induction false} FinalKeys(u: Unicode, rows: Instruments, t: Transactions)
    ensures FinalInstruments(u, rows, t).Keys == RegisteredIds(u, rows.Keys, t)
  {
    hide Registrable, FinalTransactions, Observed, NewRow;
    var ids := Observed(FinalTransactions(u, rows.Keys, t));
    assert Added(rows, ids).Keys == rows.Keys + set id | id in ids && Registrable(id);
  }

  // The documented goal, that every US equity, ETF or option id of a transaction
  // is registered afterwards, is met exactly unless the ETF arrives late while
  // some transaction still uses the equity id.
  lemma {:induction false} RegisteredUnlessLateEtf(u: Unicode, rows: Instruments, t: Transactions)
    requires Sane(u)
    ensures AllRegistered(FinalInstruments(u, rows, t).Keys, FinalTransactions(u, rows.Keys, t)) <==>
            !(LateEtf(rows.Keys, t) && EQUITY_GDXU in Observed(t))
  {
    GdxuIdsStay(u);
    FinalKeys(u, rows, t);
    FinalIds(u, rows.Keys, t);
    DeletedId(rows.Keys, Observed(FinalTransactions(u, rows.Keys, t)), EQUITY_GDXU, ETF_GDXU);
    hide FinalTransactions, FinalInstruments, Registrable, Sane, Observed, Rewrite;
  }

  // Tables on which the goal is missed although the upgrade succeeds: both GDXU
  // ids traded, only the equity registered.
  lemma {:induction false} LateEtfExample(u: Unicode)
    requires Sane(u)
    ensures exists rows, t ::
              && NamedByTriple(rows) && !Blocked(rows, Observed(FinalTransactions(u, rows.Keys, t)))
              && !AllRegistered(FinalInstruments(u, rows, t).Keys, FinalTransactions(u, rows.Keys, t))
  {
    var t := BothTraded();
    var rows := EquityOnly();
    assert LateEtf(rows.Keys, t) by {
      hide Observed;
    }
    hide *;
    NamedByTripleNeverBlocked(rows, Observed(FinalTransactions(u, rows.Keys, t)));
    RegisteredUnlessLateEtf(u, rows, t);
  }

  lemma {:induction false} EquityOnly() returns (rows: Instruments)
    ensures NamedByTriple(rows) && ETF_GDXU !in rows
  {
    rows := map[EQUITY_GDXU := Instrument(Parts("equity", "US", "GDXU"), "GDXU")];
    assert EQUITY_GDXU == "equity" + ":" + "US" + ":" + "GDXU";
    assert EQUITY_GDXU != ETF_GDXU;
  }

  lemma {:induction false} BothTraded() returns (t: Transactions)
    ensures EQUITY_GDXU in Observed(t) && ETF_GDXU in Observed(t)
  {
    var a, b := TransactionKey("moomoo", "a", "1"), TransactionKey("moomoo", "a", "2");
    t := map[a := Transaction(Some(EQUITY_GDXU), "v1", ""), b := Transaction(Some(ETF_GDXU), "v1", "")];
    assert t[a].instrument == Some(EQUITY_GDXU) && t[b].instrument == Some(ETF_GDXU);
  }

  // Tables the schema allows on which the upgrade aborts: the instrument is
  // stored under a foreign id, and a transaction uses its canonical one.
  lemma {:induction false} BlockedExample(u: Unicode)
    requires Sane(u)
    ensures exists rows, t :: UniqueTriples(rows) && Blocked(rows, Observed(FinalTransactions(u, rows.Keys, t)))
  {
    var t := BothTraded();
    var rows: Instruments := map["x" := Instrument(Parts("equity", "US", "GDXU"), "GDXU")];
    assert "x" != ETF_GDXU && UniqueTriples(rows);
    FinalIds(u, rows.Keys, t);
    ForeignRowCollides(u, rows);
    hide *;
    BlockedBy(rows, Observed(FinalTransactions(u, rows.Keys, t)), EQUITY_GDXU);
  }

  lemma {:induction false} ForeignRowCollides(u: Unicode, rows: Instruments)
    requires Sane(u) && EQUITY_GDXU !in rows && "x" in rows && rows["x"].triple == Parts("equity", "US", "GDXU")
    ensures Collides(rows, EQUITY_GDXU)
  {
    EquityStays(u);
    EquityParts();
    hide Sane, Rewrite, SplitId, Registrable, EQUITY_GDXU;
    assert rows["x"].triple == NewRow(EQUITY_GDXU).triple;
  }

  lemma {:induction false} EquityParts()
    ensures SplitId(EQUITY_GDXU) == Some(Parts("equity", "US", "GDXU"))
  {
    hide SplitId;
    SplitJoined("equity", "US", "GDXU");
    assert EQUITY_GDXU == "equity" + ":" + "US" + ":" + "GDXU";
  }

  predicate UsesId(m: Positions, id: string) {
    exists k :: k in m && k.1 == id
  }

  // The deleted duplicate leaves no position behind exactly unless the ETF
  // arrives late while some position still uses the equity id.
  lemma {:induction false} PositionsUnlessLateEtf(
      u: Unicode, rows: Instruments, t: Transactions, m: Positions, order: seq<string>)
    requires Sane(u)
    requires Elements(order) == Observed(TransactionsAfterGdxu(rows.Keys, t))
    ensures var final := Repaired(Rewrite(u), PositionsAfterGdxu(rows.Keys, m), order);
            !(ETF_GDXU in FinalInstruments(u, rows, t) && UsesId(final, EQUITY_GDXU)) <==>
            !(LateEtf(rows.Keys, t) && UsesId(m, EQUITY_GDXU))
  {
    GdxuIdsStay(u);
    FinalKeys(u, rows, t);
    FinalIds(u, rows.Keys, t);
    DeletedId(rows.Keys, Observed(FinalTransactions(u, rows.Keys, t)), EQUITY_GDXU, ETF_GDXU);
    RewriteSettles(u);
    hide FinalTransactions, FinalInstruments, Registrable, Sane, Observed, Rewrite, Settles, Repaired;
    KeysOnFixedId(u, PositionsAfterGdxu(rows.Keys, m), order, EQUITY_GDXU);
    EquityPositions(rows.Keys, m);
  }

  lemma {:induction false} EquityPositions(instruments: set<string>, m: Positions)
    ensures UsesId(PositionsAfterGdxu(instruments, m), EQUITY_GDXU) <==>
            ETF_GDXU !in instruments && UsesId(m, EQUITY_GDXU)
  {
    assert EQUITY_GDXU != ETF_GDXU;
  }

  lemma {:induction false} KeysOnFixedId(u: Unicode, m: Positions, order: seq<string>, id: string)
    requires Settles(Rewrite(u)) && Rewrite(u)(id).None? && forall x :: Rewrite(u)(x) != Some(id)
    ensures UsesId(Repaired(Rewrite(u), m, order), id) <==> UsesId(m, id)
  {
    hide Canonical, Repaired;
    RepairedKeys(Rewrite(u), m, order);
    var final := Repaired(Rewrite(u), m, order);
    if UsesId(m, id) {
      var k :| k in m && k.1 == id;
      assert MovedKey(Rewrite(u), Elements(order), k) == k;
      assert k in final;
    }
    if UsesId(final, id) {
      var k :| k in final && k.1 == id;
      var k0 :| k0 in m.Keys && k == MovedKey(Rewrite(u), Elements(order), k0);
      assert k0.1 == id;
    }
  }

  // The whole upgrade moves position keys by one id mapping and nothing else.
  lemma {:induction false} UpgradeKeys(
      u: Unicode, instruments: set<string>, t: Transactions, m: Positions, order: seq<string>)
    requires Sane(u)
    requires Elements(order) == Observed(TransactionsAfterGdxu(instruments, t))
    ensures Repaired(Rewrite(u), PositionsAfterGdxu(instruments, m), order).Keys ==
            UpgradedKeys(u, instruments, Elements(order), m.Keys)
  {
    RewriteSettles(u);
    RepairedKeys(Rewrite(u), PositionsAfterGdxu(instruments, m), order);
    GdxuKeys(instruments, m);
    hide Rewrite, Sane, Settles, Repaired, Observed, PositionsAfterGdxu;
    ComposeKeys(u, instruments, Elements(order), m.Keys);
  }

  function GdxuImage(instruments: set<string>, keys: set<PositionKey>): set<PositionKey> {
    set k | k in keys :: (k.0, GdxuId(instruments, k.1))
  }

  function UpgradedKeys(
      u: Unicode, instruments: set<string>, observed: set<string>, keys: set<PositionKey>): set<PositionKey> {
    set k | k in keys :: (k.0, UpgradedId(u, instruments, observed, k.1))
  }

  lemma {:induction false} ComposeKeys(
      u: Unicode, instruments: set<string>, observed: set<string>, keys: set<PositionKey>)
    ensures ImageKeys(Rewrite(u), observed, GdxuImage(instruments, keys)) ==
        UpgradedKeys(u, instruments, observed, keys)
  {
    hide GdxuId, Rewrite, Moved;
    var left, right := ImageKeys(Rewrite(u), observed, GdxuImage(instruments, keys)),
                       UpgradedKeys(u, instruments, observed, keys);
    forall k | k in keys
      ensures MovedKey(Rewrite(u), observed, (k.0, GdxuId(instruments, k.1))) ==
              (k.0, UpgradedId(u, instruments, observed, k.1))
    {
    }
    forall x ensures x in left <==> x in right {
      if x in right {
        var k :| k in keys && x == (k.0, UpgradedId(u, instruments, observed, k.1));
        assert (k.0, GdxuId(instruments, k.1)) in GdxuImage(instruments, keys);
      }
    }
  }

  function GdxuId(instruments: set<string>, id: string): string {
    if ETF_GDXU in instruments && id == EQUITY_GDXU then ETF_GDXU else id
  }

  function UpgradedId(u: Unicode, instruments: set<string>, observed: set<string>, id: string): string {
    var id1 := GdxuId(instruments, id);
    if id1 in observed then Moved(Rewrite(u), id1) else id1
  }

  lemma {:induction false} GdxuKeys(instruments: set<string>, m: Positions)
    ensures PositionsAfterGdxu(instruments, m).Keys == GdxuImage(instruments, m.Keys)
  {
    var m1 := PositionsAfterGdxu(instruments, m);
    assert EQUITY_GDXU != ETF_GDXU;
    forall x ensures x in m1 <==> x in GdxuImage(instruments, m.Keys) {
      if x in m1 {
        var k := if (x in m && x.1 != EQUITY_GDXU) || ETF_GDXU !in instruments then x else (x.0, EQUITY_GDXU);
        assert k in m && x == (k.0, GdxuId(instruments, k.1));
      }
    }
  }

  // What the upgrade makes of the id of a transaction.
  function FinalTransactionId(u: Unicode, instruments: set<string>, id: string): string {
    if id == "equity:US:GDXU" && "etf:US:GDXU" in instruments then "etf:US:GDXU"
    else if Canonical(u, id).Some? then Canonical(u, id).value
    else id
  }

  // Column by column what the whole upgrade does to a transaction: no row is lost, the
  // id becomes its canonical form, and the mapping version is raised for exactly the
  // rewritten rows of moomoo.
  lemma {:induction false} FinalTransactionColumns(
      u: Unicode, instruments: set<string>, t: Transactions, k: TransactionKey)
    requires Sane(u) && k in t
    ensures FinalTransactions(u, instruments, t).Keys == t.Keys
    ensures var before, after := t[k], FinalTransactions(u, instruments, t)[k];
            && after.columns == before.columns
            && (before.instrument.None? ==> after.instrument.None?)
            && (before.instrument.Some? ==>
                  after.instrument == Some(FinalTransactionId(u, instruments, before.instrument.value)))
            && after.mappingVersion ==
               (if after.instrument != before.instrument && k.provider == "moomoo" then "moomoo_deals_v2"
                else before.mappingVersion)
  {
    var t1 := TransactionsAfterGdxu(instruments, t);
    GdxuRow(instruments, t, k);
    assert t1[k].instrument.Some? ==> t1[k].instrument.value in Observed(t1);
    MovedRow(Rewrite(u), Observed(t1), k, t1[k]);
    if t[k].instrument.Some? {
      IdInTwoSteps(u, instruments, t[k].instrument.value);
    }
    hide Canonical, Registrable, Sane, Rewrite, TransactionsAfterGdxu, MovedTransaction, Observed, GdxuId;
    hide FinalTransactionId;
  }

  lemma {:induction false} IdInTwoSteps(u: Unicode, instruments: set<string>, id: string)
    requires Sane(u)
    ensures var mid := GdxuId(instruments, id);
            && FinalTransactionId(u, instruments, id) == Moved(Rewrite(u), mid)
            && (FinalTransactionId(u, instruments, id) == id <==> mid == id && Rewrite(u)(id).None?)
  {
    GdxuIdsStay(u);
    RewriteIs(u, id);
    RewriteIs(u, GdxuId(instruments, id));
    hide Canonical, Registrable, Sane, Rewrite;
  }

  lemma {:induction false} GdxuRow(instruments: set<string>, t: Transactions, k: TransactionKey)
    requires k in t
    ensures TransactionsAfterGdxu(instruments, t).Keys == t.Keys
    ensures var before, after := t[k], TransactionsAfterGdxu(instruments, t)[k];
            && after.columns == before.columns
            && (before.instrument.None? ==> after == before)
            && (before.instrument.Some? ==> after.instrument == Some(GdxuId(instruments, before.instrument.value)))
            && after.mappingVersion ==
               if after.instrument != before.instrument && k.provider == "moomoo" then "moomoo_deals_v2"
               else before.mappingVersion
  {
    assert EQUITY_GDXU != ETF_GDXU;
  }

  lemma {:induction false} MovedRow(moves: Moves, observed: set<string>, k: TransactionKey, t: Transaction)
    ensures var after := MovedTransaction(moves, observed, k, t);
            var hit := t.instrument.Some? && t.instrument.value in observed && moves(t.instrument.value).Some?;
            && after.columns == t.columns
            && after.instrument == (if hit then moves(t.instrument.value) else t.instrument)
            && after.mappingVersion == if hit && k.provider == "moomoo" then "moomoo_deals_v2" else t.mappingVersion
  {
  }

  // ---- instruments, written out ----

  // The ids the migration registers, and what they say.
  ghost predicate Names(id: string, asset: string, symbol: string) {
    asset in {"equity", "etf", "option"} && id == asset + ":" + "US" + ":" + symbol
  }

  lemma {:induction false} RegistrableIff(id: string)
    ensures Registrable(id) <==> exists asset, symbol :: Names(id, asset, symbol)
    ensures forall asset, symbol :: Names(id, asset, symbol) ==>
              Registrable(id)
              && NewRow(id) == Instrument(Parts(asset, "US", symbol), symbol + " (account-observed)")
  {
    hide SplitId;
    forall asset, symbol | Names(id, asset, symbol) ensures SplitId(id) == Some(Parts(asset, "US", symbol)) {
      UsParts(id, asset, symbol);
    }
    if Registrable(id) {
      JoinSplit(id);
      assert Names(id, SplitId(id).value.asset, SplitId(id).value.symbol);
    }
  }

  // The upgrade is blocked exactly when a row under another id holds the asset type,
  // market and symbol that an id to be registered spells.
  lemma {:induction false} BlockedIff(m: Instruments, ids: set<string>)
    ensures Blocked(m, ids) <==>
            exists id, asset, symbol, r ::
              id in ids && id !in m && Names(id, asset, symbol) && r in m && m[r].triple == Parts(asset, "US", symbol)
  {
    hide Registrable, NewRow, Names;
    forall id ensures Collides(m, id) <==>
                      id !in m && exists asset, symbol, r ::
                        Names(id, asset, symbol) && r in m && m[r].triple == Parts(asset, "US", symbol)
    {
      RegistrableIff(id);
    }
    hide Collides;
  }

  // The instruments an upgrade leaves: the old rows as they were, and a new row for
  // every id of a transaction of the three kinds; without the duplicate if its ETF is
  // among them.
  lemma {:induction false} FinalInstrumentRows(u: Unicode, m: Instruments, t: Transactions, id: string)
    ensures var final, ids := FinalInstruments(u, m, t), Observed(FinalTransactions(u, m.Keys, t));
            && (id in m && id in final ==> final[id] == m[id])
            && (forall asset, symbol :: id !in m && Names(id, asset, symbol) && id in final ==>
                  final[id] == Instrument(Parts(asset, "US", symbol), symbol + " (account-observed)"))
            && (id in final <==>
                  && (id in m || (id in ids && exists asset, symbol :: Names(id, asset, symbol)))
                  && !(id == "equity:US:GDXU" && ("etf:US:GDXU" in m || "etf:US:GDXU" in ids)))
  {
    hide FinalTransactions, Observed, Added, Names;
    var ids := Observed(FinalTransactions(u, m.Keys, t));
    AddedRow(m, ids, id);
    AddedRow(m, ids, "etf:US:GDXU");
    EtfIsNamed();
    assert EQUITY_GDXU == "equity:US:GDXU" && ETF_GDXU == "etf:US:GDXU";
    hide EQUITY_GDXU, ETF_GDXU;
  }

  lemma {:induction false} EtfIsNamed()
    ensures Names("etf:US:GDXU", "etf", "GDXU")
  {
    assert "etf:US:GDXU" == "etf" + ":" + "US" + ":" + "GDXU";
  }

  lemma {:induction false} AddedRow(m: Instruments, ids: set<string>, id: string)
    ensures id in Added(m, ids) <==> id in m || (id in ids && exists asset, symbol :: Names(id, asset, symbol))
    ensures id in m ==> Added(m, ids)[id] == m[id]
    ensures forall asset, symbol :: id !in m && id in Added(m, ids) && Names(id, asset, symbol) ==>
              Added(m, ids)[id] == Instrument(Parts(asset, "US", symbol), symbol + " (account-observed)")
  {
    RegistrableIff(id);
    hide Registrable, NewRow, Names;
  }
}
