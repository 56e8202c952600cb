/** The document table and the two indexes kept beside it, and the search over them. */
module DocumentIndex {
  import opened Wrappers
  import opened Sorting
  import opened DocumentSearch

  datatype DocumentInput = DocumentInput(
    documentId: Id, canonicalPath: Id, relativePath: Id, filename: Id, extension: Id, size: nat, modifiedAt: int,
    contentType: Id)

  datatype Extraction = Extraction(text: string, parserName: Id, parserVersion: Id, locations: Id)

  datatype DocumentRow = DocumentRow(
    user: Id, root: Id, input: DocumentInput, status: Id, extraction: Extraction,
    extractedAt: int, indexedAt: Option<int>, createdAt: int, updatedAt: int)

  /** A row of `document_index` or of the full-text table. */
  datatype IndexRow = IndexRow(documentId: Id, user: Id, root: Id, relativePath: Id, content: string)

  /** `fts` is there only if SQLite could create the full-text table. */
  datatype Tables = Tables(documents: map<Id, DocumentRow>, index: map<Id, IndexRow>, fts: Option<seq<IndexRow>>)

  const EMPTY := Extraction("", Id("none"), Id("none"), Id("[]"))

  /** Another document lies on this path: the UNIQUE constraint refuses the row. */
  predicate PathTaken(documents: map<Id, DocumentRow>, id: Id, user: Id, root: Id, path: Id) {
    exists k | k in documents ::
      k != id && documents[k].user == user && documents[k].root == root && documents[k].input.canonicalPath == path
  }

  /** A document with another id has the user, the root and the path. */
  ghost predicate Occupied(documents: map<Id, DocumentRow>, d: DocumentInput, user: Id, root: Id) {
    exists k ::
      && k in documents && k != d.documentId
      && (documents[k].user, documents[k].root, documents[k].input.canonicalPath) == (user, root, d.canonicalPath)
  }

  function Delete(rows: seq<IndexRow>, id: Id): seq<IndexRow> {
    if rows == [] then [] else (if rows[0].documentId == id then [] else [rows[0]]) + Delete(rows[1..], id)
  }

  function RowFor(d: DocumentInput, user: Id, root: Id, text: string): IndexRow {
    IndexRow(d.documentId, user, root, d.relativePath, text)
  }

  function Extracted(
    was: Option<DocumentRow>, d: DocumentInput, user: Id, root: Id, e: Extraction, status: Id, now: int): DocumentRow
  {
    DocumentRow(user, root, d, status, e, now, Some(now), if was.Some? then was.value.createdAt else now, now)
  }

  /** The conflict branch of a failure leaves owner, root and path fields as they were. */
  function Failed(was: Option<DocumentRow>, d: DocumentInput, user: Id, root: Id, status: Id, now: int): DocumentRow {
    match was
    case None => DocumentRow(user, root, d, status, EMPTY, now, None, now, now)
    case Some(row) =>
      row.(input := row.input.(size := d.size, modifiedAt := d.modifiedAt), status := status, extraction := EMPTY,
           extractedAt := now, indexedAt := None, updatedAt := now)
  }

  function Lookup<V>(m: map<Id, V>, id: Id): Option<V> { if id in m then Some(m[id]) else None }

  // ------------------------------------------------------- the two writers

  datatype Write =
    | Upsert(document: DocumentInput, user: Id, root: Id, extraction: Extraction, status: Id, now: int)
    | RecordFailure(document: DocumentInput, user: Id, root: Id, status: Id, now: int)

  predicate Refused(t: Tables, w: Write) {
    var id := w.document.documentId;
    PathTaken(t.documents, id, w.user, w.root, w.document.canonicalPath) && (w.RecordFailure? ==> id !in t.documents)
  }

  /** A refused write changes nothing: it fails on its first statement. */
  function Next(t: Tables, w: Write): Tables {
    if Refused(t, w) then t else
      var id := w.document.documentId;
      var row := match w {
        case Upsert(d, user, root, e, status, now) => Extracted(Lookup(t.documents, id), d, user, root, e, status, now)
        case RecordFailure(d, user, root, status, now) => Failed(Lookup(t.documents, id), d, user, root, status, now)
      };
      var entry := RowFor(w.document, w.user, w.root, row.extraction.text);
      Tables(t.documents[id := row],
             if w.Upsert? then t.index[id := entry] else t.index - {id},
             if t.fts.None? then None
             else Some(Delete(t.fts.value, id) + if w.Upsert? then [entry] else []))
  }

  class Connection {
    var documents: map<Id, DocumentRow>
    var index: map<Id, IndexRow>
    var fts: Option<seq<IndexRow>>

    constructor (withFullText: bool)
      ensures Contents() == Tables(map[], map[], if withFullText then Some([]) else None)
    {
      documents, index, fts := map[], map[], if withFullText then Some([]) else None;
    }

    ghost function Contents(): Tables
      reads this
    {
      Tables(documents, index, fts)
    }

    method UpsertDocument(d: DocumentInput, user: Id, root: Id, e: Extraction, status: Id, now: int) returns (ok: bool)
      modifies this
      ensures Contents() == Next(old(Contents()), Upsert(d, user, root, e, status, now))
      ensures ok <==> !Occupied(old(documents), d, user, root)
    {
      var id := d.documentId;
      if PathTaken(documents, id, user, root, d.canonicalPath) {
        return false;
      }
      documents := documents[id := Extracted(Lookup(documents, id), d, user, root, e, status, now)];
      index := index - {id};
      index := index[id := RowFor(d, user, root, e.text)];
      if fts.Some? {
        fts := Some(Delete(fts.value, id));
        fts := Some(fts.value + [RowFor(d, user, root, e.text)]);
      }
      ok := true;
    }

    method RecordFailedDocument(d: DocumentInput, user: Id, root: Id, status: Id, now: int) returns (ok: bool)
      modifies this
      ensures Contents() == Next(old(Contents()), RecordFailure(d, user, root, status, now))
      ensures ok <==> d.documentId in old(documents) || !Occupied(old(documents), d, user, root)
    {
      var id := d.documentId;
      if id !in documents && PathTaken(documents, id, user, root, d.canonicalPath) {
        return false;
      }
      documents := documents[id := Failed(Lookup(documents, id), d, user, root, status, now)];
      index := index - {id};
      if fts.Some? {
        fts := Some(Delete(fts.value, id));
        assert fts.value + [] == fts.value;
      }
      ok := true;
    }

    /** `full` answers MATCH on a text; it is absent when SQLite refuses the MATCH expression. */
    method SearchDocuments(c: Query, query: string, limit: int, word: char -> bool) returns (found: seq<Id>)
      requires Consistent(Contents())
      ensures Terms(query, word) == [] ==> found == []
      ensures Terms(query, word) != [] ==>
        Answers(Contents(), found, Hits(Contents(), c, Terms(query, word)), limit)
    {
      var terms := Terms(query, word);
      if terms == [] {
        return [];
      }
      var t := Tables(documents, index, fts);
      var rows := [];
      if fts.Some? && c.full.Some? {
        rows := FullTextRows(t, c, terms, fts.value);
        FullTextRowsAreHits(t, c, terms);
      } else {
        var left := documents.Keys;
        while left != {}
          invariant left <= documents.Keys
          invariant multiset(rows) == multiset(set id | id in documents.Keys - left && Hit(t, c, terms, id))
          decreases left
        {
          var id :| id in left;
          ghost var before := set k | k in documents.Keys - left && Hit(t, c, terms, k);
          left := left - {id};
          ghost var after := set k | k in documents.Keys - left && Hit(t, c, terms, k);
          if Owned(t, c, id) && LowerLike(documents[id].extraction.text, LikeQuery(terms)) {
            rows := rows + [id];
            assert after == before + {id};
          } else {
            assert after == before;
          }
        }
        assert Hits(t, c, terms) == set id | id in documents.Keys - left && Hit(t, c, terms, id);
      }
      found := Limited(Sort(NewestFirst(t), rows), limit);
      FirstRowsAnswer(t, rows, Hits(t, c, terms), limit);
    }
  }

  // ------------------------------------------------------- the indexes mirror the documents

  /** The rows of a full-text table for one document. */
  function RowsOf(rows: seq<IndexRow>, id: Id): seq<IndexRow> {
    if rows == [] then [] else (if rows[0].documentId == id then [rows[0]] else []) + RowsOf(rows[1..], id)
  }

  /** What an index must hold for a document: one row if the document is indexed, otherwise none. */
  function Expected(t: Tables, id: Id): seq<IndexRow> {
    if id in t.documents && t.documents[id].indexedAt.Some? then
      var d := t.documents[id];
      [IndexRow(id, d.user, d.root, d.input.relativePath, d.extraction.text)]
    else []
  }

  ghost predicate AgreesAt(t: Tables, id: Id) {
    && (if id in t.index then [t.index[id]] else []) == Expected(t, id)
    && (t.fts.Some? ==> RowsOf(t.fts.value, id) == Expected(t, id))
    && (id in t.documents && t.documents[id].indexedAt.None? ==> t.documents[id].extraction.text == "")
  }

  ghost predicate Consistent(t: Tables) { forall id: Id :: AgreesAt(t, id) }

  lemma {:induction false} RowsAfterDelete(rows: seq<IndexRow>, deleted: Id, id: Id)
    ensures RowsOf(Delete(rows, deleted), id) == if id == deleted then [] else RowsOf(rows, id)
  {
    if rows != [] {
      RowsAfterDelete(rows[1..], deleted, id);
      RowsAppend(if rows[0].documentId == deleted then [] else [rows[0]], Delete(rows[1..], deleted), id);
    }
  }

  lemma {:induction false} RowsAppend(a: seq<IndexRow>, b: seq<IndexRow>, id: Id)
    ensures RowsOf(a + b, id) == RowsOf(a, id) + RowsOf(b, id)
  {
    if a == [] {
      assert a + b == b;
    } else {
      assert (a + b)[1..] == a[1..] + b;
      RowsAppend(a[1..], b, id);
    }
  }

  lemma NextKeepsConsistent(t: Tables, w: Write, id: Id)
    requires AgreesAt(t, id)
    ensures AgreesAt(Next(t, w), id)
  {
    if !Refused(t, w) && t.fts.Some? {
      var deleted := w.document.documentId;
      var entry := RowFor(w.document, w.user, w.root, if w.Upsert? then w.extraction.text else "");
      var added := if w.Upsert? then [entry] else [];
      RowsAfterDelete(t.fts.value, deleted, id);
      RowsAppend(Delete(t.fts.value, deleted), added, id);
      assert RowsOf(added, id) == if id == deleted then added else [] by { assert [entry][1..] == []; }
    }
  }

  function Written(withFullText: bool, writes: seq<Write>): Tables {
    if writes == [] then Tables(map[], map[], if withFullText then Some([]) else None)
    else Next(Written(withFullText, writes[..|writes| - 1]), writes[|writes| - 1])
  }

  /**
   After any run of upserts and recorded failures, each index holds exactly one row for each document whose
   `indexed_at` is set, with that document's owner, path and text, and no other row.
   */
  lemma {:induction false} IndexesMirrorDocuments(withFullText: bool, writes: seq<Write>)
    ensures Consistent(Written(withFullText, writes))
  {
    if writes != [] {
      var n := |writes| - 1;
      IndexesMirrorDocuments(withFullText, writes[..n]);
      forall id: Id ensures AgreesAt(Written(withFullText, writes), id) {
        NextKeepsConsistent(Written(withFullText, writes[..n]), writes[n], id);
      }
    }
  }

  lemma ExpectedAfter(t: Tables, w: Write, id: Id)
    ensures
      Expected(Next(t, w), id) ==
        if Refused(t, w) || w.document.documentId != id then Expected(t, id) else ExpectedOf(w)
  {
  }

  /** The index row that a write asks for: one after an upsert, none after a failure. */
  function ExpectedOf(w: Write): seq<IndexRow> {
    if w.Upsert? then [RowFor(w.document, w.user, w.root, w.extraction.text)] else []
  }

  /** The last write of the run under this id that was not refused. */
  function LastAccepted(withFullText: bool, writes: seq<Write>, id: Id): Option<Write> {
    if writes == [] then None
    else
      var n := |writes| - 1;
      var accepted := !Refused(Written(withFullText, writes[..n]), writes[n]);
      if writes[n].document.documentId == id && accepted then Some(writes[n])
      else LastAccepted(withFullText, writes[..n], id)
  }

  /** After any run each index holds, under every id, what the last write that was not refused asks for. */
  lemma {:induction false} LastWriteDecides(withFullText: bool, writes: seq<Write>, id: Id)
    ensures
      var t, last := Written(withFullText, writes), LastAccepted(withFullText, writes, id);
      var rows := if last.None? then [] else ExpectedOf(last.value);
      && (if id in t.index then [t.index[id]] else []) == rows
      && (t.fts.Some? ==> RowsOf(t.fts.value, id) == rows)
  {
    IndexesMirrorDocuments(withFullText, writes);
    assert AgreesAt(Written(withFullText, writes), id);
    LastExpected(withFullText, writes, id);
  }

  lemma {:induction false} LastExpected(withFullText: bool, writes: seq<Write>, id: Id)
    ensures
      var last := LastAccepted(withFullText, writes, id);
      Expected(Written(withFullText, writes), id) == if last.None? then [] else ExpectedOf(last.value)
  {
    if writes != [] {
      var n := |writes| - 1;
      LastExpected(withFullText, writes[..n], id);
      ExpectedAfter(Written(withFullText, writes[..n]), writes[n], id);
    }
  }

  // ------------------------------------------------------- what a document row tells

  /** No two documents lie on one path of one root of one user: the UNIQUE constraint. */
  ghost predicate PathsUnique(documents: map<Id, DocumentRow>) {
    forall j, k | j in documents && k in documents && j != k ::
      (documents[j].user, documents[j].root, documents[j].input.canonicalPath)
      != (documents[k].user, documents[k].root, documents[k].input.canonicalPath)
  }

  lemma RefusedIff(t: Tables, w: Write)
    ensures Refused(t, w)
            <==> Occupied(t.documents, w.document, w.user, w.root)
                 && (w.RecordFailure? ==> w.document.documentId !in t.documents)
  {
  }

  lemma NextKeepsPathsUnique(t: Tables, w: Write)
    requires PathsUnique(t.documents)
    ensures PathsUnique(Next(t, w).documents)
  {
    RefusedIff(t, w);
  }

  /** In every run paths stay unique, which only the refused writes would have broken. */
  lemma {:induction false} PathsStayUnique(withFullText: bool, writes: seq<Write>)
    ensures PathsUnique(Written(withFullText, writes).documents)
  {
    if writes != [] {
      PathsStayUnique(withFullText, writes[..|writes| - 1]);
      NextKeepsPathsUnique(Written(withFullText, writes[..|writes| - 1]), writes[|writes| - 1]);
    }
  }

  /** Write `n` of the run is for this id, and was not refused. */
  ghost predicate AcceptedAt(withFullText: bool, writes: seq<Write>, id: Id, n: int) {
    && 0 <= n < |writes| && writes[n].document.documentId == id
    && !Refused(Written(withFullText, writes[..n]), writes[n])
  }

  /** The accepted writes of an id that matter: the first, the last, and the one that set owner and path. */
  ghost predicate Deciding(withFullText: bool, writes: seq<Write>, id: Id, first: int, last: int, placed: int) {
    && AcceptedAt(withFullText, writes, id, first) && AcceptedAt(withFullText, writes, id, last)
    && AcceptedAt(withFullText, writes, id, placed)
    && (forall n | AcceptedAt(withFullText, writes, id, n) :: first <= n <= last)
    && (placed == first || writes[placed].Upsert?)
    && (forall n | AcceptedAt(withFullText, writes, id, n) && n > placed :: !writes[n].Upsert?)
  }

  /**
   The row of a document: created by the first accepted write; sizes, times, status and text of the last one, a failure
   leaving no text, no parser and no index time; owner, root, path and names of the last upsert, or else of the first.
   */
  ghost predicate RowTells(row: DocumentRow, first: Write, last: Write, placed: Write) {
    && row.createdAt == first.now && row.updatedAt == last.now && row.extractedAt == last.now
    && row.status == last.status
    && row.extraction == (if last.Upsert? then last.extraction else Extraction("", Id("none"), Id("none"), Id("[]")))
    && row.indexedAt == (if last.Upsert? then Some(last.now) else None)
    && row.input.size == last.document.size && row.input.modifiedAt == last.document.modifiedAt
    && row.user == placed.user && row.root == placed.root
    && row.input.(size := 0, modifiedAt := 0) == placed.document.(size := 0, modifiedAt := 0)
  }

  lemma FirstRowTells(t: Tables, w: Write)
    requires w.document.documentId !in t.documents && !Refused(t, w)
    ensures
      var id := w.document.documentId;
      id in Next(t, w).documents && RowTells(Next(t, w).documents[id], w, w, w)
  {
  }

  lemma NextRowTells(t: Tables, w: Write, first: Write, last: Write, placed: Write)
    requires w.document.documentId in t.documents && !Refused(t, w)
    requires RowTells(t.documents[w.document.documentId], first, last, placed)
    requires placed.document.documentId == w.document.documentId
    ensures
      var id := w.document.documentId;
      id in Next(t, w).documents && RowTells(Next(t, w).documents[id], first, w, if w.Upsert? then w else placed)
  {
  }

  lemma OtherRowStays(t: Tables, w: Write, id: Id)
    requires Refused(t, w) || w.document.documentId != id
    ensures id in Next(t, w).documents <==> id in t.documents
    ensures id in t.documents ==> Next(t, w).documents[id] == t.documents[id]
  {
  }

  /** The document is there since the first accepted write, and its row tells the writes. */
  ghost predicate Told(withFullText: bool, writes: seq<Write>, documents: map<Id, DocumentRow>, id: Id, first: int,
      last: int, placed: int)
  {
    if id in documents then
      && Deciding(withFullText, writes, id, first, last, placed)
      && RowTells(documents[id], writes[first], writes[last], writes[placed])
    else
      forall n :: !AcceptedAt(withFullText, writes, id, n)
  }

  lemma AcceptedOneMore(withFullText: bool, init: seq<Write>, w: Write, id: Id, n: int)
    ensures AcceptedAt(withFullText, init + [w], id, n)
            <==> AcceptedAt(withFullText, init, id, n)
                 || (n == |init| && w.document.documentId == id && !Refused(Written(withFullText, init), w))
  {
    var writes := init + [w];
    if 0 <= n <= |init| { assert writes[..n] == init[..n]; }
    assert init[..|init|] == init;
  }

  lemma DecidingOneMore(withFullText: bool, init: seq<Write>, w: Write, id: Id, first: int, last: int, placed: int)
    requires Deciding(withFullText, init, id, first, last, placed)
    requires AcceptedAt(withFullText, init + [w], id, |init|)
    ensures Deciding(withFullText, init + [w], id, first, |init|, if w.Upsert? then |init| else placed)
  {
    forall n ensures AcceptedAt(withFullText, init + [w], id, n)
                     <==> AcceptedAt(withFullText, init, id, n) || n == |init|
    {
      AcceptedOneMore(withFullText, init, w, id, n);
    }
    assert forall n | 0 <= n < |init| :: (init + [w])[n] == init[n];
  }

  lemma DecidingStays(withFullText: bool, init: seq<Write>, w: Write, id: Id, first: int, last: int, placed: int)
    requires Deciding(withFullText, init, id, first, last, placed)
    requires !AcceptedAt(withFullText, init + [w], id, |init|)
    ensures Deciding(withFullText, init + [w], id, first, last, placed)
  {
    forall n ensures AcceptedAt(withFullText, init + [w], id, n) <==> AcceptedAt(withFullText, init, id, n) {
      AcceptedOneMore(withFullText, init, w, id, n);
    }
    assert forall n | 0 <= n < |init| :: (init + [w])[n] == init[n];
  }

  lemma AcceptedStepTells(withFullText: bool, init: seq<Write>, w: Write, id: Id, first: int, last: int, placed: int)
    returns (first': int, last': int, placed': int)
    requires Told(withFullText, init, Written(withFullText, init).documents, id, first, last, placed)
    requires AcceptedAt(withFullText, init + [w], id, |init|)
    ensures Told(withFullText, init + [w], Next(Written(withFullText, init), w).documents, id, first', last', placed')
  {
    var t := Written(withFullText, init);
    AcceptedOneMore(withFullText, init, w, id, |init|);
    first', last', placed' := first, |init|, if w.Upsert? then |init| else placed;
    if id in t.documents {
      DecidingOneMore(withFullText, init, w, id, first, last, placed);
      NextRowTells(t, w, init[first], init[last], init[placed]);
    } else {
      first', placed' := |init|, |init|;
      FirstRowTells(t, w);
      forall n ensures AcceptedAt(withFullText, init + [w], id, n) <==> n == |init| {
        AcceptedOneMore(withFullText, init, w, id, n);
      }
    }
  }

  lemma OtherStepTells(withFullText: bool, init: seq<Write>, w: Write, id: Id, first: int, last: int, placed: int)
    requires Told(withFullText, init, Written(withFullText, init).documents, id, first, last, placed)
    requires !AcceptedAt(withFullText, init + [w], id, |init|)
    ensures Told(withFullText, init + [w], Next(Written(withFullText, init), w).documents, id, first, last, placed)
  {
    var t := Written(withFullText, init);
    AcceptedOneMore(withFullText, init, w, id, |init|);
    OtherRowStays(t, w, id);
    if id in t.documents {
      DecidingStays(withFullText, init, w, id, first, last, placed);
    } else {
      forall n ensures !AcceptedAt(withFullText, init + [w], id, n) { AcceptedOneMore(withFullText, init, w, id, n); }
    }
  }

  /** After any run a document is there exactly if some write for it was accepted, and its row tells those writes. */
  lemma {:induction false} DocumentTellsItsWrites(withFullText: bool, writes: seq<Write>, id: Id)
    returns (first: int, last: int, placed: int)
    ensures Told(withFullText, writes, Written(withFullText, writes).documents, id, first, last, placed)
  {
    first, last, placed := 0, 0, 0;
    if writes != [] {
      var init, w := writes[..|writes| - 1], writes[|writes| - 1];
      first, last, placed := DocumentTellsItsWrites(withFullText, init, id);
      SplitLast(writes);
      if AcceptedAt(withFullText, init + [w], id, |init|) {
        first, last, placed := AcceptedStepTells(withFullText, init, w, id, first, last, placed);
      } else {
        OtherStepTells(withFullText, init, w, id, first, last, placed);
      }
    }
  }

  // ------------------------------------------------------- search

  /** Who searches, which roots belong to whom, and how MATCH answers. */
  datatype Query = Query(user: Id, roots: map<Id, Id>, full: Option<(seq<string>, string) -> bool>)

  /** The joins: the searching user owns the document and its root. */
  predicate Owned(t: Tables, c: Query, id: Id) {
    id in t.documents && t.documents[id].user == c.user
    && t.documents[id].root in c.roots && c.roots[t.documents[id].root] == c.user
  }

  predicate Hit(t: Tables, c: Query, terms: seq<string>, id: Id) {
    Owned(t, c, id) &&
    var text := t.documents[id].extraction.text;
    if t.fts.Some? && c.full.Some? then t.documents[id].indexedAt.Some? && c.full.value(terms, text)
    else LowerLike(text, LikeQuery(terms))
  }

  function Hits(t: Tables, c: Query, terms: seq<string>): set<Id> {
    set id | id in t.documents && Hit(t, c, terms, id)
  }

  /** The full-text query selects a row of its own table, and joins it with the documents and the roots. */
  predicate Selected(t: Tables, c: Query, terms: seq<string>, row: IndexRow)
    requires c.full.Some?
  {
    && row.user == c.user && c.full.value(terms, row.content)
    && row.documentId in t.documents
    && t.documents[row.documentId].root in c.roots
    && c.roots[t.documents[row.documentId].root] == t.documents[row.documentId].user
  }

  function FullTextRows(t: Tables, c: Query, terms: seq<string>, rows: seq<IndexRow>): seq<Id>
    requires c.full.Some?
  {
    if rows == [] then []
    else (if Selected(t, c, terms, rows[0]) then [rows[0].documentId] else []) + FullTextRows(t, c, terms, rows[1..])
  }

  lemma {:induction false} FullTextRowsOnce(t: Tables, c: Query, terms: seq<string>, rows: seq<IndexRow>, id: Id)
    requires c.full.Some?
    ensures multiset(FullTextRows(t, c, terms, rows))[id] == |FullTextRows(t, c, terms, RowsOf(rows, id))|
  {
    if rows != [] {
      FullTextRowsOnce(t, c, terms, rows[1..], id);
      var more := RowsOf(rows[1..], id);
      if rows[0].documentId == id {
        assert ([rows[0]] + more)[1..] == more;
        assert RowsOf(rows, id) == [rows[0]] + more;
      } else {
        assert RowsOf(rows, id) == more;
      }
    }
  }

  /** Because the full-text table mirrors the documents, reading it finds each hit once and nothing else. */
  lemma FullTextRowsAreHits(t: Tables, c: Query, terms: seq<string>)
    requires Consistent(t) && t.fts.Some? && c.full.Some?
    ensures multiset(FullTextRows(t, c, terms, t.fts.value)) == multiset(Hits(t, c, terms))
  {
    forall id: Id ensures multiset(FullTextRows(t, c, terms, t.fts.value))[id] == multiset(Hits(t, c, terms))[id] {
      assert AgreesAt(t, id);
      FullTextRowsOnce(t, c, terms, t.fts.value, id);
      if Expected(t, id) != [] {
        assert Expected(t, id)[1..] == [];
      }
    }
  }

  /** Whichever path answers, a document whose extraction failed is not found. */
  lemma FailedIsNeverFound(t: Tables, c: Query, query: string, word: char -> bool, id: Id)
    requires Consistent(t) && !word('%') && Terms(query, word) != []
    requires id in Hits(t, c, Terms(query, word))
    ensures t.documents[id].indexedAt.Some?
  {
    assert AgreesAt(t, id);
    EmptyTextIsNotFound(query, word);
  }

  function Updated(t: Tables, id: Id): int {
    if id in t.documents then t.documents[id].updatedAt else 0
  }

  function NewestFirst(t: Tables): (Id, Id) -> bool { (a, b) => Updated(t, a) >= Updated(t, b) }

  lemma UpdatedIs(t: Tables, id: Id)
    requires id in t.documents
    ensures Updated(t, id) == t.documents[id].updatedAt
  {
  }

  /** The bound is the limit, moved into the range from 1 to 100. */
  lemma BoundIs(limit: int)
    ensures 1 <= Bound(limit) <= 100
    ensures (limit <= 1 ==> Bound(limit) == 1) && (limit >= 100 ==> Bound(limit) == 100)
    ensures 1 <= limit <= 100 ==> Bound(limit) == limit
  {
  }

  /**
   A hit is a document of the searching user, under a root that the user owns: indexed, and with a text that MATCH
   accepts, if there is full-text search; otherwise with a text that holds the terms in order, if none of them has an
   underscore.
   */
  lemma HitIff(t: Tables, c: Query, terms: seq<string>, id: Id)
    requires terms != [] && forall term | term in terms :: Plain(term)
    ensures id in Hits(t, c, terms)
            <==> && id in t.documents && t.documents[id].user == c.user
                 && t.documents[id].root in c.roots && c.roots[t.documents[id].root] == c.user
                 && var text := t.documents[id].extraction.text;
                 if t.fts == None || c.full == None then InOrder(terms, text)
                 else t.documents[id].indexedAt.Some? && c.full.value(terms, text)
  {
    if id in t.documents { FallbackMatchesInOrder(terms, t.documents[id].extraction.text); }
  }

  /** `max(1, min(limit, 100))`. */
  function Bound(limit: int): nat { if limit < 1 then 1 else if limit > 100 then 100 else limit }

  function Limited(rows: seq<Id>, limit: int): seq<Id> {
    if |rows| <= Bound(limit) then rows else rows[..Bound(limit)]
  }

  /** As many hits as the bound allows, no hit twice, newest first, and none left out that is newer. */
  ghost predicate Answers(t: Tables, found: seq<Id>, hits: set<Id>, limit: int) {
    && |found| == (if |hits| <= Bound(limit) then |hits| else Bound(limit))
    && (forall x | x in found :: x in hits)
    && (forall i, j | 0 <= i < j < |found| :: found[i] != found[j] && Updated(t, found[i]) >= Updated(t, found[j]))
    && (forall x, y | x in hits && x !in found && y in found :: Updated(t, y) >= Updated(t, x))
  }

  /** All hits, once each, newest first. */
  ghost predicate Lists(t: Tables, s: seq<Id>, hits: set<Id>) {
    && |s| == |hits|
    && (forall x :: x in s <==> x in hits)
    && (forall i, j | 0 <= i < j < |s| :: s[i] != s[j] && Updated(t, s[i]) >= Updated(t, s[j]))
  }

  lemma SortListsHits(t: Tables, rows: seq<Id>, hits: set<Id>)
    requires multiset(rows) == multiset(hits)
    ensures Lists(t, Sort(NewestFirst(t), rows), hits)
  {
    var le := NewestFirst(t);
    assert TotalPreorder(le);
    SortSorted(le, rows);
    var s := Sort(le, rows);
    assert |multiset(s)| == |s| && |multiset(hits)| == |hits|;
    forall x ensures x in s <==> x in hits { assert x in multiset(s) <==> x in multiset(hits); }
    forall i, j | 0 <= i < j < |s| ensures s[i] != s[j] && le(s[i], s[j]) { OnceInSet(s, hits, i, j); }
  }

  lemma LeftOutIsOlder(t: Tables, s: seq<Id>, k: nat, x: Id, y: Id)
    requires forall i, j | 0 <= i < j < |s| :: Updated(t, s[i]) >= Updated(t, s[j])
    requires k <= |s| && x in s && x !in s[..k] && y in s[..k]
    ensures Updated(t, y) >= Updated(t, x)
  {
    assert s == s[..k] + s[k..];
    var i :| 0 <= i < |s[k..]| && s[k..][i] == x;
    var j :| 0 <= j < k && s[..k][j] == y;
    assert s[k + i] == x && s[j] == y;
  }

  lemma TakeAnswers(t: Tables, s: seq<Id>, hits: set<Id>, limit: int)
    requires Lists(t, s, hits)
    ensures Answers(t, Limited(s, limit), hits, limit)
  {
    var found := Limited(s, limit);
    assert found == s[..|found|];
    forall x | x in found ensures x in hits { assert x in s; }
    forall x, y | x in hits && x !in found && y in found ensures Updated(t, y) >= Updated(t, x) {
      LeftOutIsOlder(t, s, |found|, x, y);
    }
  }

  lemma FirstRowsAnswer(t: Tables, rows: seq<Id>, hits: set<Id>, limit: int)
    requires multiset(rows) == multiset(hits)
    ensures Answers(t, Limited(Sort(NewestFirst(t), rows), limit), hits, limit)
  {
    SortListsHits(t, rows, hits);
    TakeAnswers(t, Sort(NewestFirst(t), rows), hits, limit);
  }

  lemma OnceInSet(s: seq<Id>, hits: set<Id>, i: nat, j: nat)
    requires multiset(s) == multiset(hits) && i < j < |s|
    ensures s[i] != s[j]
  {
    WithoutCount(s, j);
    assert Without(s, j)[i] == s[i];
    assert s[i] in multiset(Without(s, j));
    assert multiset(hits)[s[j]] <= 1;
  }
}
