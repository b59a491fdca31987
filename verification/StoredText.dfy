/**
 What an ingestion leaves in the tables, column by column: the pages as they were extracted, and
 chunks with index rows that tile them in rowid order.
 */
module StoredText {
  import opened Database
  import opened Documents
  import opened Ingestion
  import opened Ordering
  import opened Pipeline
  import opened Text
  import opened Wrappers
  import Chunking
  import ChunkTexts
  import Decimal
  import PageExtraction
  import SqliteStore

  function OfDocument(key: string): FtsRow -> bool {
    (row: FtsRow) => row.content.documentKey == key
  }

  /** The index rows of one document, in rowid order. */
  function RowsOf(fts: seq<FtsRow>, key: string): seq<FtsRow> {
    Filter(fts, OfDocument(key))
  }

  /** The index row says what the chunk says. */
  predicate RowHoldsChunk(row: FtsRow, key: string, doc: DocumentRow, chunk: ChunkInput) {
    var c := row.content;
    && c.documentKey == key && c.chunkId == chunk.chunkId && c.body == chunk.text
    && c.pageStart == chunk.pageStart && c.pageEnd == chunk.pageEnd
    && c.source == doc.source && c.title == doc.title
  }

  ghost predicate RowsHoldChunks(rows: seq<FtsRow>, key: string, doc: DocumentRow, chunks: seq<ChunkInput>) {
    |rows| == |chunks| && forall i :: 0 <= i < |rows| ==> RowHoldsChunk(rows[i], key, doc, chunks[i])
  }

  lemma {:induction false} InsertChunkAppends(
    tables: Indexed, key: string, doc: DocumentRow, chunk: ChunkInput, next: Indexed) returns (row: FtsRow)
    requires InsertChunk(tables, key, doc, chunk) == Ok(next)
    ensures next.fts == tables.fts + [row] && RowHoldsChunk(row, key, doc, chunk)
    ensures row.rowid == AfterLast(tables.fts)
  {
    row := next.fts[|tables.fts|];
  }

  /** One more than the last rowid, which is the largest. */
  function AfterLast(fts: seq<FtsRow>): nat {
    if |fts| == 0 then 1 else 1 + fts[|fts| - 1].rowid
  }

  /** The rows are numbered one by one from here. */
  predicate NumberedFrom(rows: seq<FtsRow>, first: nat) {
    forall i :: 0 <= i < |rows| ==> rows[i].rowid == first + i
  }

  lemma {:induction false} InsertChunksAppends(
    tables: Indexed, key: string, doc: DocumentRow, chunks: seq<ChunkInput>, after: Indexed)
    returns (rows: seq<FtsRow>)
    requires InsertChunks(tables, key, doc, chunks) == Ok(after)
    ensures after.fts == tables.fts + rows && RowsHoldChunks(rows, key, doc, chunks)
    ensures NumberedFrom(rows, AfterLast(tables.fts))
    decreases |chunks|
  {
    rows := [];
    if chunks != [] {
      var next := InsertChunk(tables, key, doc, chunks[0]).value;
      var row := InsertChunkAppends(tables, key, doc, chunks[0], next);
      var later := InsertChunksAppends(next, key, doc, chunks[1..], after);
      rows := [row] + later;
      RowsHoldFirst(row, later, key, doc, chunks);
      NumberedFirst(row, later);
    }
  }

  lemma {:induction false} NumberedFirst(row: FtsRow, later: seq<FtsRow>)
    requires NumberedFrom(later, row.rowid + 1)
    ensures NumberedFrom([row] + later, row.rowid)
  {
  }

  lemma {:induction false} RowsHoldFirst(
    row: FtsRow, later: seq<FtsRow>, key: string, doc: DocumentRow, chunks: seq<ChunkInput>)
    requires chunks != [] && RowHoldsChunk(row, key, doc, chunks[0])
    requires RowsHoldChunks(later, key, doc, chunks[1..])
    ensures RowsHoldChunks([row] + later, key, doc, chunks)
  {
  }

  lemma {:induction false} NothingOf(fts: seq<FtsRow>, key: string)
    ensures RowsOf(Filter(fts, NotOf(key)), key) == []
  {
    var kept := Filter(fts, NotOf(key));
    forall row | row in kept ensures !OfDocument(key)(row) {
      FilterMember(fts, NotOf(key), row);
    }
    FilterNone(kept, OfDocument(key));
  }

  lemma {:induction false} ReplacedRows(db: Db, key: string, pages: seq<PageInput>, chunks: seq<ChunkInput>)
    requires Replace(db, key, pages, chunks).Ok?
    ensures RowsHoldChunks(RowsOf(Replace(db, key, pages, chunks).value.fts, key), key, db.documents[key], chunks)
    ensures NumberedFrom(RowsOf(Replace(db, key, pages, chunks).value.fts, key), AfterLast(Filter(db.fts, NotOf(key))))
  {
    var doc := db.documents[key];
    var tables := Indexed(ChunksWithout(db, doc.id), Filter(db.fts, NotOf(key)));
    var rows := InsertChunksAppends(tables, key, doc, chunks, InsertChunks(tables, key, doc, chunks).value);
    NothingOf(db.fts, key);
    FilterConcat(tables.fts, rows, OfDocument(key));
    FilterAll(rows, OfDocument(key));
    assert [] + rows == rows;
  }

  // What an ingestion that succeeds leaves

  lemma {:induction false} IngestedTables(
    db: Db, document: UpsertDocument, pages: seq<Chunking.PageText>, source: TextSource, target: nat)
    requires TablesOk(db) && Ingest(db, document, pages, source, target).error.None?
    ensures
      var after, key := Ingest(db, document, pages, source, target).db, document.documentKey;
      && key in after.documents && StoresDocument(after.documents[key], document)
      && PagesStored(after.pages, after.documents[key].id, pages, source)
      && ChunksStored(after.chunks, after.documents[key].id, Chunking.ChunksFor(pages, target))
      && RowsHoldChunks(RowsOf(after.fts, key), key, after.documents[key], Prepare(pages, target).value)
  {
    var key, inputs := document.documentKey, Prepare(pages, target).value;
    var db1 := Upsert(db, document).value;
    UpsertMeaning(db, document);
    UpsertKeepsDocuments(db, document);
    UpsertKeepsIndex(db, document);
    var db2 := Replace(db1, key, PageInputs(pages, source), inputs).value;
    ReplaceMeaning(db1, key, PageInputs(pages, source), inputs);
    ReplacedHolds(db1, db2, key, pages, source, Chunking.ChunksFor(pages, target));
    ReplacedRows(db1, key, PageInputs(pages, source), inputs);
  }

  // Reading pages back

  /** A range is read exactly when it lies within the stored pages, and then these come back. */
  lemma {:induction false} StoredPagesRead(
    table: map<(nat, int), PageRow>, id: nat, pages: seq<Chunking.PageText>, source: TextSource,
    start: nat, end: nat, r: Result<seq<SqliteStore.StoredPageText>, StoreError>)
    requires PagesStored(table, id, pages, source) && pages != []
    requires Chunking.ConsecutiveNumbers(pages) && pages[0].pageNumber > 0
    requires SqliteStore.ReadsPages(table, id, start, end, r)
    ensures
      var first := pages[0].pageNumber;
      && (r.Ok? <==> first <= start <= end < first + |pages|)
      && (r.Ok? ==>
            && |r.value| == end - start + 1
            && forall i :: 0 <= i < |r.value| ==>
                 r.value[i] == SqliteStore.StoredPageText(start + i, pages[start - first + i].text, source))
  {
    forall n: int ensures AtNumber(table, id, pages, source, n) {
      NumberStored(table, id, pages, source, n);
    }
    ReadsByNumber(table, id, pages, source, start, end, r);
  }

  ghost predicate AtNumber(
    table: map<(nat, int), PageRow>, id: nat, pages: seq<Chunking.PageText>, source: TextSource, n: int)
    requires pages != []
  {
    var first := pages[0].pageNumber;
    if first <= n < first + |pages| then (id, n) in table && HoldsPage(table[(id, n)], pages[n - first], source)
    else (id, n) !in table
  }

  lemma {:induction false} ReadsByNumber(
    table: map<(nat, int), PageRow>, id: nat, pages: seq<Chunking.PageText>, source: TextSource,
    start: nat, end: nat, r: Result<seq<SqliteStore.StoredPageText>, StoreError>)
    requires pages != [] && pages[0].pageNumber > 0
    requires forall n: int :: AtNumber(table, id, pages, source, n)
    requires SqliteStore.ReadsPages(table, id, start, end, r)
    ensures
      var first := pages[0].pageNumber;
      && (r.Ok? <==> first <= start <= end < first + |pages|)
      && (r.Ok? ==>
            && |r.value| == end - start + 1
            && forall i :: 0 <= i < |r.value| ==>
                 r.value[i] == SqliteStore.StoredPageText(start + i, pages[start - first + i].text, source))
  {
    var first := pages[0].pageNumber;
    assert AtNumber(table, id, pages, source, start) && AtNumber(table, id, pages, source, end);
    if r.Ok? {
      forall i | 0 <= i < |r.value|
        ensures r.value[i] == SqliteStore.StoredPageText(start + i, pages[start - first + i].text, source)
      {
        assert AtNumber(table, id, pages, source, start + i);
      }
    } else if exists n :: start <= n <= end && (id, n) !in table {
      var n :| start <= n <= end && (id, n) !in table;
      assert AtNumber(table, id, pages, source, n);
    }
  }

  lemma {:induction false} NumberStored(
    table: map<(nat, int), PageRow>, id: nat, pages: seq<Chunking.PageText>, source: TextSource, n: int)
    requires PagesStored(table, id, pages, source) && pages != [] && Chunking.ConsecutiveNumbers(pages)
    ensures AtNumber(table, id, pages, source, n)
  {
    var first := pages[0].pageNumber;
    if (id, n) in table {
      var p :| p in pages && (id, n).1 == p.pageNumber;
      var i :| 0 <= i < |pages| && pages[i] == p;
      assert pages[i].pageNumber == first + i;
    }
    if first <= n < first + |pages| {
      assert pages[n - first] in pages && pages[n - first].pageNumber == n;
    }
  }

  // The chunk and index rows

  /** The page ranges of the rows follow each other without gap or overlap from `first` to `last`. */
  ghost predicate RowsTile(rows: seq<FtsRow>, first: int, last: int) {
    && rows != []
    && rows[0].content.pageStart == first
    && rows[|rows| - 1].content.pageEnd == last
    && (forall i :: 0 <= i < |rows| ==> rows[i].content.pageStart <= rows[i].content.pageEnd)
    && (forall i :: 0 < i < |rows| ==> rows[i].content.pageStart == rows[i - 1].content.pageEnd + 1)
  }

  /** The index row reads as the pages of its range, and its chunk row says the same and counts the words. */
  ghost predicate RowReads(db: Db, id: nat, row: FtsRow, number: nat, pages: seq<Chunking.PageText>)
    requires pages != []
  {
    var c, first := row.content, pages[0].pageNumber;
    && ChunkTexts.IsIdOf(c.chunkId, number)
    && first <= c.pageStart <= c.pageEnd < first + |pages|
    && ChunkTexts.ReadsAs(c.body, pages[c.pageStart - first..c.pageEnd - first + 1])
    && (id, c.chunkId) in db.chunks
    && var chunk := db.chunks[(id, c.chunkId)];
       && chunk.text == c.body && chunk.pageStart == c.pageStart && chunk.pageEnd == c.pageEnd
       && chunk.tokenEstimate == Some(if Words(c.body) == [] then 1 else |Words(c.body)|)
  }

  /** Every chunk row of the document has its index row. */
  ghost predicate AllIndexed(db: Db, id: nat, rows: seq<FtsRow>) {
    forall k :: k in db.chunks && k.0 == id ==> exists row :: row in rows && row.content.chunkId == k.1
  }

  lemma {:induction false} PreparedAre(pages: seq<Chunking.PageText>, target: nat, i: nat)
    requires Prepare(pages, target).Ok? && i < |Prepare(pages, target).value|
    ensures |Chunking.ChunksFor(pages, target)| == |Prepare(pages, target).value|
    ensures
      var chunk, input := Chunking.ChunksFor(pages, target)[i], Prepare(pages, target).value[i];
      && input.chunkId == chunk.chunkId && input.text == chunk.text
      && input.pageStart == chunk.pageStart && input.pageEnd == chunk.pageEnd
  {
  }

  lemma {:induction false} RowsFollowChunks(
    rows: seq<FtsRow>, key: string, doc: DocumentRow, pages: seq<Chunking.PageText>, target: nat)
    requires Prepare(pages, target).Ok? && RowsHoldChunks(rows, key, doc, Prepare(pages, target).value)
    ensures |rows| == |Chunking.ChunksFor(pages, target)|
    ensures forall i :: 0 <= i < |rows| ==> RowFollows(rows[i], Chunking.ChunksFor(pages, target)[i])
  {
    forall i | 0 <= i < |rows| ensures RowFollows(rows[i], Chunking.ChunksFor(pages, target)[i]) {
      PreparedAre(pages, target, i);
    }
  }

  predicate RowFollows(row: FtsRow, chunk: Chunking.Chunk) {
    var c := row.content;
    c.chunkId == chunk.chunkId && c.body == chunk.text && c.pageStart == chunk.pageStart && c.pageEnd == chunk.pageEnd
  }

  lemma {:induction false} FollowersTile(rows: seq<FtsRow>, chunks: seq<Chunking.Chunk>, first: nat, last: nat)
    requires |rows| == |chunks| && forall i :: 0 <= i < |rows| ==> RowFollows(rows[i], chunks[i])
    requires Chunking.Tiles(chunks, first, last)
    ensures RowsTile(rows, first, last)
  {
    forall i | 0 < i < |rows| ensures rows[i].content.pageStart == rows[i - 1].content.pageEnd + 1 {
      assert RowFollows(rows[i - 1], chunks[i - 1]);
    }
  }

  lemma {:induction false} FollowerReads(
    db: Db, id: nat, row: FtsRow, i: nat, pages: seq<Chunking.PageText>, target: nat)
    requires pages != [] && Chunking.ConsecutiveNumbers(pages) && i < |Chunking.ChunksFor(pages, target)|
    requires ChunksStored(db.chunks, id, Chunking.ChunksFor(pages, target))
    requires RowFollows(row, Chunking.ChunksFor(pages, target)[i])
    ensures RowReads(db, id, row, i + 1, pages)
  {
    var chunk := Chunking.ChunksFor(pages, target)[i];
    ChunkTexts.ChunkIdsCount(pages, target, i);
    ChunkTexts.ChunksHoldTheirPages(pages, target);
    assert chunk in Chunking.ChunksFor(pages, target);
    ReadsLikeChunk(db, id, row, i + 1, chunk, pages);
  }

  lemma {:induction false} ReadsLikeChunk(
    db: Db, id: nat, row: FtsRow, number: nat, chunk: Chunking.Chunk, pages: seq<Chunking.PageText>)
    requires pages != [] && ChunkTexts.IsOfItsPages(chunk, pages) && ChunkTexts.IsIdOf(chunk.chunkId, number)
    requires RowFollows(row, chunk)
    requires (id, chunk.chunkId) in db.chunks && HoldsChunk(db.chunks[(id, chunk.chunkId)], chunk)
    ensures RowReads(db, id, row, number, pages)
  {
  }

  /**
   After an ingestion of consecutive pages the document's rows, in rowid order, tile the pages from
   the first to the last; each row reads as the pages of its range, in the index as in the chunks.
   */
  lemma {:induction false} IngestedRowsTile(
    db: Db, document: UpsertDocument, pages: seq<Chunking.PageText>, source: TextSource, target: nat)
    requires TablesOk(db) && Ingest(db, document, pages, source, target).error.None?
    requires Chunking.ConsecutiveNumbers(pages)
    ensures
      var after, key := Ingest(db, document, pages, source, target).db, document.documentKey;
      var rows := RowsOf(after.fts, key);
      && pages != [] && key in after.documents
      && RowsTile(rows, pages[0].pageNumber, pages[|pages| - 1].pageNumber)
      && (forall i :: 0 <= i < |rows| ==>
            && RowReads(after, after.documents[key].id, rows[i], i + 1, pages)
            && rows[i].content.source == document.source && rows[i].content.title == document.title)
      && AllIndexed(after, after.documents[key].id, rows)
  {
    var after, key := Ingest(db, document, pages, source, target).db, document.documentKey;
    var rows, chunks := RowsOf(after.fts, key), Chunking.ChunksFor(pages, target);
    IngestedTables(db, document, pages, source, target);
    PreparedIsNonEmpty(pages, target);
    RowsFollowChunks(rows, key, after.documents[key], pages, target);
    Chunking.ChunksTile(pages, target);
    FollowersTile(rows, chunks, pages[0].pageNumber, pages[|pages| - 1].pageNumber);
    forall i | 0 <= i < |rows| ensures RowReads(after, after.documents[key].id, rows[i], i + 1, pages) {
      FollowerReads(after, after.documents[key].id, rows[i], i, pages, target);
    }
    FollowersIndex(after, after.documents[key].id, rows, chunks);
  }

  lemma {:induction false} FollowersIndex(db: Db, id: nat, rows: seq<FtsRow>, chunks: seq<Chunking.Chunk>)
    requires |rows| == |chunks| && forall i :: 0 <= i < |rows| ==> RowFollows(rows[i], chunks[i])
    requires ChunksStored(db.chunks, id, chunks)
    ensures AllIndexed(db, id, rows)
  {
    forall k | k in db.chunks && k.0 == id ensures exists row :: row in rows && row.content.chunkId == k.1 {
      var chunk :| chunk in chunks && k.1 == chunk.chunkId;
      var i :| 0 <= i < |chunks| && chunks[i] == chunk;
      assert RowFollows(rows[i], chunks[i]) && rows[i] in rows;
    }
  }

  // From raw text

  function Bodies(rows: seq<FtsRow>): seq<string> {
    if rows == [] then [] else [rows[0].content.body] + Bodies(rows[1..])
  }

  lemma {:induction false} FollowersWords(rows: seq<FtsRow>, chunks: seq<Chunking.Chunk>)
    requires |rows| == |chunks| && forall i :: 0 <= i < |rows| ==> RowFollows(rows[i], chunks[i])
    ensures AllWords(Bodies(rows)) == Chunking.ChunkWords(chunks)
  {
    if rows != [] {
      assert forall i :: 0 <= i < |rows[1..]| ==> rows[1..][i] == rows[i + 1] && chunks[1..][i] == chunks[i + 1];
      FollowersWords(rows[1..], chunks[1..]);
    }
  }

  /** End to end: the words of the raw text are the words of the document's index rows, in order. */
  lemma {:induction false} IndexHoldsTheWords(
    db: Db, document: UpsertDocument, text: string, extracted: PageExtraction.ExtractedText, source: TextSource, target: nat)
    requires TablesOk(db) && PageExtraction.ExtractFromFormFeed(text) == Ok(extracted)
    requires Ingest(db, document, extracted.pages, source, target).error.None?
    ensures
      var after := Ingest(db, document, extracted.pages, source, target).db;
      AllWords(Bodies(RowsOf(after.fts, document.documentKey))) == Words(text)
  {
    var pages, key := extracted.pages, document.documentKey;
    var after, chunks := Ingest(db, document, pages, source, target).db, Chunking.ChunksFor(pages, target);
    IngestedTables(db, document, pages, source, target);
    RowsFollowChunks(RowsOf(after.fts, key), key, after.documents[key], pages, target);
    FollowersWords(RowsOf(after.fts, key), chunks);
    PageExtraction.WordsSurviveIngestion(text, extracted, target, chunks);
  }

  /** Some page among these has text. */
  predicate AnyText(pieces: seq<string>) {
    exists i :: 0 <= i < |pieces| && !AllSpace(pieces[i])
  }

  /**
   End to end: after ingesting form-feed text, a page range is read exactly when there is text at or
   before its first and at or after its last page, and each page read holds the lines of the physical
   page of that number.
   */
  lemma {:induction false} PagesReadBack(
    db: Db, document: UpsertDocument, text: string, extracted: PageExtraction.ExtractedText, source: TextSource,
    target: nat, start: nat, end: nat, r: Result<seq<SqliteStore.StoredPageText>, StoreError>)
    requires TablesOk(db) && PageExtraction.ExtractFromFormFeed(text) == Ok(extracted)
    requires |Split(text, PageExtraction.FORM_FEED)| <= Decimal.U32_MAX
    requires Ingest(db, document, extracted.pages, source, target).error.None?
    requires
      var after := Ingest(db, document, extracted.pages, source, target).db;
      && document.documentKey in after.documents
      && SqliteStore.ReadsPages(after.pages, after.documents[document.documentKey].id, start, end, r)
    ensures ReadsPhysical(r, Split(text, PageExtraction.FORM_FEED), source, start, end)
  {
    var pages := extracted.pages;
    var after := Ingest(db, document, pages, source, target).db;
    var first := PageExtraction.ExtractionKeepsPages(text);
    IngestedTables(db, document, pages, source, target);
    PhysicalPagesRead(after.pages, after.documents[document.documentKey].id, pages,
                      Split(text, PageExtraction.FORM_FEED), first, source, start, end, r);
  }

  /** What is read is the physical pages from `start` to `end`. */
  ghost predicate ReadsPhysical(
    r: Result<seq<SqliteStore.StoredPageText>, StoreError>, pieces: seq<string>, source: TextSource, start: nat, end: nat)
  {
    && (r.Ok? <==> 0 < start <= end <= |pieces| && AnyText(pieces[..start]) && AnyText(pieces[end - 1..]))
    && (r.Ok? ==> AreLinesOf(r.value, pieces, source, start, end))
  }

  ghost predicate AreLinesOf(
    read: seq<SqliteStore.StoredPageText>, pieces: seq<string>, source: TextSource, start: nat, end: nat)
    requires 0 < start <= end <= |pieces|
  {
    && |read| == end - start + 1
    && forall i :: 0 <= i < |read| ==>
         && read[i].pageNumber == start + i && read[i].textSource == source
         && PageExtraction.KeepsLines(read[i].text, pieces[start + i - 1])
  }

  lemma {:induction false} PhysicalPagesRead(
    table: map<(nat, int), PageRow>, id: nat, pages: seq<Chunking.PageText>, pieces: seq<string>, first: nat,
    source: TextSource, start: nat, end: nat, r: Result<seq<SqliteStore.StoredPageText>, StoreError>)
    requires PagesStored(table, id, pages, source) && SqliteStore.ReadsPages(table, id, start, end, r)
    requires PageExtraction.PhysicalPages(pages, pieces, first) && pages != [] && |pieces| <= Decimal.U32_MAX
    ensures ReadsPhysical(r, pieces, source, start, end)
  {
    FirstNumber(pages, pieces, first);
    StoredPagesRead(table, id, pages, source, start, end, r);
    TextWithin(pages, pieces, first, start, end);
    if r.Ok? {
      SliceReads(r.value, pages, pieces, first, source, start, end);
    }
  }

  lemma {:induction false} FirstNumber(pages: seq<Chunking.PageText>, pieces: seq<string>, first: nat)
    requires PageExtraction.PhysicalPages(pages, pieces, first) && pages != [] && |pieces| <= Decimal.U32_MAX
    ensures Chunking.ConsecutiveNumbers(pages) && pages[0].pageNumber == first + 1
  {
    PageExtraction.PhysicalNumbers(pages, pieces, first);
  }

  lemma {:induction false} SliceReads(
    read: seq<SqliteStore.StoredPageText>, pages: seq<Chunking.PageText>, pieces: seq<string>, first: nat,
    source: TextSource, start: nat, end: nat)
    requires first < start <= end <= first + |pages| && |read| == end - start + 1
    requires PageExtraction.PhysicalPages(pages, pieces, first)
    requires forall i :: 0 <= i < |read| ==>
               read[i] == SqliteStore.StoredPageText(start + i, pages[start - (first + 1) + i].text, source)
    ensures AreLinesOf(read, pieces, source, start, end)
  {
    forall i | 0 <= i < |read| ensures PageExtraction.KeepsLines(read[i].text, pieces[start + i - 1]) {
      var k := start - (first + 1) + i;
      assert pieces[first + k] == pieces[start + i - 1];
    }
  }

  lemma {:induction false} TextWithin(
    pages: seq<Chunking.PageText>, pieces: seq<string>, first: nat, start: nat, end: nat)
    requires PageExtraction.PhysicalPages(pages, pieces, first) && pages != []
    ensures first < start <= end <= first + |pages|
       <==> 0 < start <= end <= |pieces| && AnyText(pieces[..start]) && AnyText(pieces[end - 1..])
  {
    var last := first + |pages| - 1;
    PageExtraction.KeptHasText(pages[0].text, pieces[first]);
    PageExtraction.KeptHasText(pages[|pages| - 1].text, pieces[last]);
    if first < start <= end <= first + |pages| {
      assert pieces[..start][first] == pieces[first];
      assert pieces[end - 1..][last - (end - 1)] == pieces[last];
    } else if 0 < start <= end <= |pieces| {
      if AnyText(pieces[..start]) {
        var i :| 0 <= i < |pieces[..start]| && !AllSpace(pieces[..start][i]);
        assert pieces[..start][i] == pieces[i] && first <= i;
      }
      if AnyText(pieces[end - 1..]) {
        var i :| 0 <= i < |pieces[end - 1..]| && !AllSpace(pieces[end - 1..][i]);
        assert pieces[end - 1..][i] == pieces[end - 1 + i] && end - 1 + i <= last;
      }
    }
  }
}
