// The external-content full-text index of
// migrations/versions/0004_phase1c_research_memory.py: three triggers keep an
// inverted index in step with research_search_documents. The index is a multiset
// of postings, because FTS5 adds and removes postings without looking at the
// documents: a 'delete' command with the wrong values would leave or lose some.
module SearchIndex {
  import opened Wrappers

  datatype Document = Document(
    entityType: string,
    entityId: string,
    title: string,
    body: string,
    topicTags: string,
    otherColumns: string)

  datatype Column = Title | Body | TopicTags

  datatype Posting = Posting(term: string, rowid: int, column: Column, position: nat)

  // The tokenizer (unicode61): the terms of a text, in order.
  type Tokenizer = string -> seq<string>

  type Documents = map<int, Document>
  type Index = multiset<Posting>

  function Text(d: Document, c: Column): string {
    match c case Title => d.title case Body => d.body case TopicTags => d.topicTags
  }

  // ---- what FTS5 does with (rowid, title, body, topic_tags) ----

  function ColumnPostings(terms: seq<string>, rowid: int, c: Column): (r: Index)
    ensures forall p :: r[p] ==
              if p.rowid == rowid && p.column == c && p.position < |terms| && terms[p.position] == p.term then 1 else 0
  {
    if terms == [] then multiset{}
    else
      var n := |terms| - 1;
      ColumnPostings(terms[..n], rowid, c) + multiset{Posting(terms[n], rowid, c, n)}
  }

  function Postings(tokens: Tokenizer, rowid: int, title: string, body: string, topicTags: string): Index {
    ColumnPostings(tokens(title), rowid, Title)
    + ColumnPostings(tokens(body), rowid, Body)
    + ColumnPostings(tokens(topicTags), rowid, TopicTags)
  }

  // INSERT INTO research_search_fts(rowid, title, body, topic_tags)
  function FtsInsert(tokens: Tokenizer, index: Index, rowid: int, title: string, body: string, tags: string): Index {
    index + Postings(tokens, rowid, title, body, tags)
  }

  // INSERT INTO research_search_fts(research_search_fts, ...) VALUES ('delete', ...)
  function FtsDelete(tokens: Tokenizer, index: Index, rowid: int, title: string, body: string, tags: string): Index {
    index - Postings(tokens, rowid, title, body, tags)
  }

  // ---- the index that the documents call for ----

  predicate Occurs(tokens: Tokenizer, d: Document, p: Posting) {
    var terms := tokens(Text(d, p.column));
    p.position < |terms| && terms[p.position] == p.term
  }

  ghost function Expected(tokens: Tokenizer, documents: Documents, p: Posting): nat {
    if p.rowid in documents && Occurs(tokens, documents[p.rowid], p) then 1 else 0
  }

  ghost predicate Agrees(tokens: Tokenizer, documents: Documents, index: Index) {
    forall p :: index[p] == Expected(tokens, documents, p)
  }

  lemma {:induction false} PostingsOfDocument(tokens: Tokenizer, rowid: int, d: Document, p: Posting)
    ensures Postings(tokens, rowid, d.title, d.body, d.topicTags)[p] ==
            if p.rowid == rowid && Occurs(tokens, d, p) then 1 else 0
  {
    var a, b, c := ColumnPostings(tokens(d.title), rowid, Title), ColumnPostings(tokens(d.body), rowid, Body),
                   ColumnPostings(tokens(d.topicTags), rowid, TopicTags);
    assert (a + b + c)[p] == a[p] + b[p] + c[p];
    hide ColumnPostings;
  }

  // ---- statements on the documents table ----

  datatype Statement =
    | InsertRow(rowid: int, document: Document)
    | UpdateRow(rowid: int, newRowid: int, document: Document)
    | DeleteRow(rowid: int)

  const ENTITY_TYPES := {"evidence", "report", "event", "decision", "journal"}

  // Primary key, UNIQUE(entity_id) and the entity_type CHECK for a row joining
  // the others.
  predicate Accepts(documents: Documents, rowid: int, d: Document) {
    && rowid !in documents
    && d.entityType in ENTITY_TYPES
    && forall r :: r in documents ==> documents[r].entityId != d.entityId
  }

  predicate Legal(documents: Documents, s: Statement) {
    match s
    case InsertRow(rowid, d) => Accepts(documents, rowid, d)
    case UpdateRow(rowid, newRowid, d) => rowid in documents && Accepts(documents - {rowid}, newRowid, d)
    case DeleteRow(rowid) => rowid in documents
  }

  function ApplyRow(documents: Documents, s: Statement): Documents
    requires Legal(documents, s)
  {
    match s
    case InsertRow(rowid, d) => documents[rowid := d]
    case UpdateRow(rowid, newRowid, d) => (documents - {rowid})[newRowid := d]
    case DeleteRow(rowid) => documents - {rowid}
  }

  lemma {:induction false} InsertAgrees(tokens: Tokenizer, documents: Documents, index: Index, rowid: int, d: Document)
    requires Agrees(tokens, documents, index) && rowid !in documents
    ensures Agrees(tokens, documents[rowid := d], FtsInsert(tokens, index, rowid, d.title, d.body, d.topicTags))
  {
    var added := Postings(tokens, rowid, d.title, d.body, d.topicTags);
    forall p ensures index[p] + added[p] == Expected(tokens, documents[rowid := d], p) {
      PostingsOfDocument(tokens, rowid, d, p);
      assert index[p] == Expected(tokens, documents, p);
    }
    hide Postings, Occurs;
  }

  lemma {:induction false} DeleteAgrees(tokens: Tokenizer, documents: Documents, index: Index, rowid: int)
    requires Agrees(tokens, documents, index) && rowid in documents
    ensures var d := documents[rowid];
            Agrees(tokens, documents - {rowid}, FtsDelete(tokens, index, rowid, d.title, d.body, d.topicTags))
  {
    var d := documents[rowid];
    var gone := Postings(tokens, rowid, d.title, d.body, d.topicTags);
    forall p ensures gone[p] <= index[p] && index[p] - gone[p] == Expected(tokens, documents - {rowid}, p) {
      PostingsOfDocument(tokens, rowid, d, p);
      assert index[p] == Expected(tokens, documents, p);
      DropRow(tokens, documents, rowid, p);
    }
    hide Postings, Occurs;
  }

  lemma {:induction false} DropRow(tokens: Tokenizer, documents: Documents, rowid: int, p: Posting)
    ensures Expected(tokens, documents - {rowid}, p) == if p.rowid == rowid then 0 else Expected(tokens, documents, p)
  {
  }

  // The triggers of one accepted statement.
  function Fire(tokens: Tokenizer, documents: Documents, index: Index, s: Statement): Index
    requires Legal(documents, s)
  {
    match s
    case InsertRow(rowid, d) => FtsInsert(tokens, index, rowid, d.title, d.body, d.topicTags)
    case DeleteRow(rowid) =>
      var d := documents[rowid];
      FtsDelete(tokens, index, rowid, d.title, d.body, d.topicTags)
    case UpdateRow(rowid, newRowid, d) =>
      var was := documents[rowid];
      FtsInsert(tokens, FtsDelete(tokens, index, rowid, was.title, was.body, was.topicTags),
                newRowid, d.title, d.body, d.topicTags)
  }

  lemma {:induction false} LegalRows(documents: Documents, s: Statement)
    requires Legal(documents, s)
    ensures s.DeleteRow? || s.UpdateRow? ==> s.rowid in documents
  {
  }

  lemma {:induction false} FireAgrees(tokens: Tokenizer, documents: Documents, index: Index, s: Statement)
    requires Agrees(tokens, documents, index) && Legal(documents, s)
    ensures Agrees(tokens, ApplyRow(documents, s), Fire(tokens, documents, index, s))
  {
    hide Agrees, FtsInsert, FtsDelete;
    match s
    case InsertRow(rowid, d) => InsertAgrees(tokens, documents, index, rowid, d);
    case DeleteRow(rowid) => DeleteAgrees(tokens, documents, index, rowid);
    case UpdateRow(rowid, newRowid, d) =>
      var was := documents[rowid];
      DeleteAgrees(tokens, documents, index, rowid);
      InsertAgrees(tokens, documents - {rowid},
                   FtsDelete(tokens, index, rowid, was.title, was.body, was.topicTags), newRowid, d);
  }

  // What the schema demands of a table: known entity types, unique entity ids.
  ghost predicate TableOk(documents: Documents) {
    && (forall r :: r in documents ==>
          documents[r].entityType in {"evidence", "report", "event", "decision", "journal"})
    && (forall a, b :: a in documents && b in documents && a != b ==> documents[a].entityId != documents[b].entityId)
  }

  // The table a statement asks for: it addresses a row that exists, does not take the
  // row id of another one, and leaves every other row alone.
  ghost predicate Effect(before: Documents, s: Statement, after: Documents) {
    match s
    case InsertRow(rowid, d) =>
      && rowid !in before && after.Keys == before.Keys + {rowid} && after[rowid] == d
      && forall r :: r in before ==> after[r] == before[r]
    case UpdateRow(rowid, newRowid, d) =>
      && rowid in before && (newRowid == rowid || newRowid !in before)
      && after.Keys == before.Keys - {rowid} + {newRowid} && after[newRowid] == d
      && forall r :: r in before && r != rowid ==> r in after && after[r] == before[r]
    case DeleteRow(rowid) =>
      && rowid in before && after.Keys == before.Keys - {rowid}
      && forall r :: r in after ==> after[r] == before[r]
  }

  lemma {:induction false} EffectIsUnique(before: Documents, s: Statement, a: Documents, b: Documents)
    requires Effect(before, s, a) && Effect(before, s, b)
    ensures a == b
  {
    assert a.Keys == b.Keys;
    forall r | r in a ensures a[r] == b[r] {
    }
  }

  // A statement is accepted exactly when the table it asks for exists and satisfies
  // the constraints; an updated row does not compete with itself.
  lemma {:induction false} AcceptedIff(documents: Documents, s: Statement)
    requires TableOk(documents)
    ensures Legal(documents, s) <==> exists after :: Effect(documents, s, after) && TableOk(after)
    ensures Legal(documents, s) ==> Effect(documents, s, ApplyRow(documents, s)) && TableOk(ApplyRow(documents, s))
  {
    if Legal(documents, s) {
      assert Effect(documents, s, ApplyRow(documents, s)) && TableOk(ApplyRow(documents, s));
    }
    if after :| Effect(documents, s, after) && TableOk(after) {
      FittingIsLegal(documents, s, after);
    }
  }

  lemma {:induction false} FittingIsLegal(documents: Documents, s: Statement, after: Documents)
    requires Effect(documents, s, after) && TableOk(after)
    ensures Legal(documents, s)
  {
    match s
    case InsertRow(rowid, d) =>
      forall r | r in documents ensures documents[r].entityId != d.entityId {
        assert after[r] == documents[r] && r != rowid;
      }
    case UpdateRow(rowid, newRowid, d) =>
      forall r | r in documents - {rowid} ensures (documents - {rowid})[r].entityId != d.entityId {
        assert after[r] == documents[r] && r != newRowid;
      }
    case DeleteRow(_) =>
  }

  // Changing a row in place without touching its entity always succeeds.
  lemma {:induction false} InPlaceUpdate(documents: Documents, rowid: int, d: Document)
    requires TableOk(documents) && rowid in documents
    requires d.entityId == documents[rowid].entityId && d.entityType == documents[rowid].entityType
    ensures Legal(documents, UpdateRow(rowid, rowid, d))
    ensures ApplyRow(documents, UpdateRow(rowid, rowid, d)) == documents[rowid := d]
  {
    assert TableOk(documents[rowid := d]) && Effect(documents, UpdateRow(rowid, rowid, d), documents[rowid := d]);
    AcceptedIff(documents, UpdateRow(rowid, rowid, d));
  }

  lemma {:induction false} NothingIndexed(tokens: Tokenizer, index: Index)
    requires Agrees(tokens, map[], index)
    ensures index == multiset{}
  {
    assert forall p :: index[p] == 0;
  }

  // The documents table with its triggers.
  class Store {
    const tokens: Tokenizer
    var documents: Documents
    var index: Index

    ghost predicate Valid()
      reads this
    {
      Agrees(tokens, documents, index) && TableOk(documents)
    }

    constructor (tokenizer: Tokenizer)
      ensures Valid() && documents == map[] && index == multiset{} && tokens == tokenizer
    {
      tokens, documents, index := tokenizer, map[], multiset{};
    }

    // A statement that breaks a constraint is rolled back with its trigger effects.
    method Execute(s: Statement) returns (ok: bool)
      requires Valid()
      modifies this
      ensures Valid()
      ensures ok <==> exists after :: Effect(old(documents), s, after) && TableOk(after)
      ensures if ok then Effect(old(documents), s, documents) else documents == old(documents)
      ensures ok <==> Legal(old(documents), s)
      ensures index == if ok then Fire(tokens, old(documents), old(index), s) else old(index)
    {
      AcceptedIff(documents, s);
      if !Legal(documents, s) {
        return false;
      }
      LegalRows(documents, s);
      FireAgrees(tokens, documents, index, s);
      hide Agrees, FtsInsert, FtsDelete, Legal, TableOk, Effect;
      match s {
        case InsertRow(rowid, d) =>
          documents := documents[rowid := d];
          index := FtsInsert(tokens, index, rowid, d.title, d.body, d.topicTags);  // ..._ai
        case DeleteRow(rowid) =>
          var gone := documents[rowid];
          documents := documents - {rowid};
          index := FtsDelete(tokens, index, rowid, gone.title, gone.body, gone.topicTags);  // ..._ad
        case UpdateRow(rowid, newRowid, d) =>
          var was := documents[rowid];
          documents := (documents - {rowid})[newRowid := d];
          index := FtsDelete(tokens, index, rowid, was.title, was.body, was.topicTags);  // ..._au
          index := FtsInsert(tokens, index, newRowid, d.title, d.body, d.topicTags);
      }
      return true;
    }

    // DELETE FROM research_search_documents, with its trigger fired row by row.
    method DeleteAll()
      requires Valid()
      modifies this
      ensures Valid() && documents == map[] && index == multiset{}
    {
      hide Agrees;
      var rows := documents.Keys;
      while exists r :: r in rows
        invariant Valid() && documents.Keys == rows
        decreases rows
      {
        var rowid :| rowid in rows;
        var ok := Execute(DeleteRow(rowid));
        rows := rows - {rowid};
      }
      NothingIndexed(tokens, index);
    }

    // A phrase query on one column: the rows with the terms at consecutive positions.
    method Search(phrase: seq<string>, column: Column) returns (rows: set<int>)
      requires Valid() && phrase != []
      ensures rows == ScanFor(tokens, documents, phrase, column)
    {
      LookupIsScan(tokens, documents, index, phrase, column);
      rows := Lookup(index, phrase, column);
    }
  }

  // ---- the trigger-maintained index and the index built from scratch ----

  function ApplyAll(documents: Documents, statements: seq<Statement>): Documents {
    if statements == [] then documents
    else
      var n := |statements| - 1;
      var before := ApplyAll(documents, statements[..n]);
      if Legal(before, statements[n]) then ApplyRow(before, statements[n]) else before
  }

  function Maintained(tokens: Tokenizer, statements: seq<Statement>): Index {
    if statements == [] then multiset{}
    else
      var n := |statements| - 1;
      var documents := ApplyAll(map[], statements[..n]);
      var index := Maintained(tokens, statements[..n]);
      if Legal(documents, statements[n]) then Fire(tokens, documents, index, statements[n]) else index
  }

  lemma {:induction false} MaintainedAgrees(tokens: Tokenizer, statements: seq<Statement>)
    ensures Agrees(tokens, ApplyAll(map[], statements), Maintained(tokens, statements))
  {
    if statements != [] {
      var n := |statements| - 1;
      MaintainedAgrees(tokens, statements[..n]);
      var documents, index := ApplyAll(map[], statements[..n]), Maintained(tokens, statements[..n]);
      var s := statements[n];
      if Legal(documents, s) {
        FireAgrees(tokens, documents, index, s);
      }
    }
  }

  // Indexing the rows of a table one after the other, in any order.
  function BuiltFrom(tokens: Tokenizer, documents: Documents, rowids: seq<int>): Index
    requires Elements(rowids) <= documents.Keys
  {
    if rowids == [] then multiset{}
    else
      var n := |rowids| - 1;
      assert rowids[n] in Elements(rowids) && forall r :: r in rowids[..n] ==> r in Elements(rowids);
      var d := documents[rowids[n]];
      FtsInsert(tokens, BuiltFrom(tokens, documents, rowids[..n]), rowids[n], d.title, d.body, d.topicTags)
  }

  function Restrict(documents: Documents, rowids: set<int>): Documents {
    map r | r in documents && r in rowids :: documents[r]
  }

  lemma {:induction false} BuiltAgrees(tokens: Tokenizer, documents: Documents, rowids: seq<int>)
    requires Elements(rowids) <= documents.Keys
    requires forall i, j :: 0 <= i < j < |rowids| ==> rowids[i] != rowids[j]
    ensures Agrees(tokens, Restrict(documents, Elements(rowids)), BuiltFrom(tokens, documents, rowids))
  {
    if rowids != [] {
      var n := |rowids| - 1;
      var d := documents[rowids[n]];
      BuiltAgrees(tokens, documents, rowids[..n]);
      assert Elements(rowids) == Elements(rowids[..n]) + {rowids[n]};
      hide Agrees, FtsInsert;
      var before := Restrict(documents, Elements(rowids[..n]));
      RestrictLast(documents, Elements(rowids[..n]), rowids[n]);
      hide Restrict;
      InsertAgrees(tokens, before, BuiltFrom(tokens, documents, rowids[..n]), rowids[n], d);
    }
  }

  lemma {:induction false} RestrictLast(documents: Documents, rowids: set<int>, r: int)
    requires rowids <= documents.Keys && r in documents && r !in rowids
    ensures r !in Restrict(documents, rowids)
    ensures Restrict(documents, rowids + {r}) == Restrict(documents, rowids)[r := documents[r]]
  {
  }

  // After any run of statements, including row id changes and rejected ones, the
  // maintained index is the index built from scratch over the remaining rows.
  lemma {:induction false} MaintainedIsRebuilt(tokens: Tokenizer, statements: seq<Statement>, rowids: seq<int>)
    requires Elements(rowids) == ApplyAll(map[], statements).Keys
    requires forall i, j :: 0 <= i < j < |rowids| ==> rowids[i] != rowids[j]
    ensures Maintained(tokens, statements) == BuiltFrom(tokens, ApplyAll(map[], statements), rowids)
  {
    var documents := ApplyAll(map[], statements);
    MaintainedAgrees(tokens, statements);
    BuiltAgrees(tokens, documents, rowids);
    assert Restrict(documents, Elements(rowids)) == documents;
    SameIndex(tokens, documents, Maintained(tokens, statements), BuiltFrom(tokens, documents, rowids));
  }

  lemma {:induction false} SameIndex(tokens: Tokenizer, documents: Documents, a: Index, b: Index)
    requires Agrees(tokens, documents, a) && Agrees(tokens, documents, b)
    ensures a == b
  {
    forall p ensures a[p] == b[p] {
    }
  }

  // The constraints of the table survive every run.
  lemma {:induction false} RunsKeepTable(statements: seq<Statement>)
    ensures TableOk(ApplyAll(map[], statements))
  {
    if statements != [] {
      RunsKeepTable(statements[..|statements| - 1]);
    }
  }

  // ---- lookup against full scan ----

  predicate PhraseAt(index: Index, phrase: seq<string>, rowid: int, column: Column, at: nat) {
    forall i: nat :: i < |phrase| ==> Posting(phrase[i], rowid, column, at + i) in index
  }

  function Lookup(index: Index, phrase: seq<string>, column: Column): set<int>
    requires phrase != []
  {
    set p | p in index && p.term == phrase[0] && p.column == column
            && PhraseAt(index, phrase, p.rowid, column, p.position) :: p.rowid
  }

  predicate Contains(terms: seq<string>, phrase: seq<string>) {
    exists at: nat :: at <= |terms| && phrase <= terms[at..]
  }

  function ScanFor(tokens: Tokenizer, documents: Documents, phrase: seq<string>, column: Column): set<int> {
    set r | r in documents && Contains(tokens(Text(documents[r], column)), phrase)
  }

  lemma {:induction false} PhraseIsThere(
      tokens: Tokenizer, documents: Documents, index: Index, phrase: seq<string>, rowid: int, column: Column, at: nat)
    requires Agrees(tokens, documents, index) && phrase != []
    ensures PhraseAt(index, phrase, rowid, column, at) <==>
            (rowid in documents
             && var terms := tokens(Text(documents[rowid], column)); at <= |terms| && phrase <= terms[at..])
  {
    if PhraseAt(index, phrase, rowid, column, at) {
      var n := |phrase| - 1;
      assert Posting(phrase[0], rowid, column, at) in index by {
        assert at + 0 == at;
      }
      assert Posting(phrase[n], rowid, column, at + n) in index;
      var terms := tokens(Text(documents[rowid], column));
      forall i: nat | i < |phrase| ensures terms[at..][i] == phrase[i] {
        assert Posting(phrase[i], rowid, column, at + i) in index;
      }
    }
    if rowid in documents {
      var terms := tokens(Text(documents[rowid], column));
      if at <= |terms| && phrase <= terms[at..] {
        forall i: nat | i < |phrase| ensures Posting(phrase[i], rowid, column, at + i) in index {
          assert terms[at..][i] == phrase[i];
          assert Occurs(tokens, documents[rowid], Posting(phrase[i], rowid, column, at + i));
        }
      }
    }
  }

  // An index lookup returns exactly the rows a full scan would.
  lemma {:induction false} LookupIsScan(
      tokens: Tokenizer, documents: Documents, index: Index, phrase: seq<string>, column: Column)
    requires Agrees(tokens, documents, index) && phrase != []
    ensures Lookup(index, phrase, column) == ScanFor(tokens, documents, phrase, column)
  {
    forall r ensures r in Lookup(index, phrase, column) <==> r in ScanFor(tokens, documents, phrase, column) {
      if r in Lookup(index, phrase, column) {
        var p :| p in index && p.rowid == r && p.column == column && PhraseAt(index, phrase, r, column, p.position);
        PhraseIsThere(tokens, documents, index, phrase, r, column, p.position);
      }
      if r in ScanFor(tokens, documents, phrase, column) {
        var terms := tokens(Text(documents[r], column));
        var at: nat :| at <= |terms| && phrase <= terms[at..];
        PhraseIsThere(tokens, documents, index, phrase, r, column, at);
        assert Posting(phrase[0], r, column, at + 0) in index;
      }
    }
  }
}
