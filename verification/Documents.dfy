/** Statements on documents, pages, chunks, the search index and assets (src/store/sqlite.rs). */
module Documents {
  import opened Wrappers
  import opened Database
  import opened Layout
  import opened Ordering
  import opened Text

  datatype UpsertDocument = UpsertDocument(
    publicId: string, documentKey: string, source: string, sourceId: string, title: string,
    metadataJson: string, notes: Notes)

  datatype PageInput = PageInput(
    pageNumber: int, text: string, textSource: TextSource, qualityScore: Option<real>, warningsJson: string)

  datatype ChunkInput = ChunkInput(
    chunkId: string, pageStart: int, pageEnd: int, text: string, tokenEstimate: Option<int>, metadataJson: string)

  datatype AssetInput = AssetInput(documentKey: string, assetUrl: string, role: AssetRole, row: AssetRow)

  predicate Bracketed(text: string, open: char, close: char) {
    var start, end := TrimStart(text), TrimEnd(text);
    start != "" && start[0] == open && end != "" && end[|end| - 1] == close
  }

  // upsert_document

  predicate TakenByAnother(db: Db, doc: UpsertDocument) {
    exists key :: key in db.documents && key != doc.documentKey
      && (|| db.documents[key].publicId == doc.publicId
          || (db.documents[key].source == doc.source && db.documents[key].sourceId == doc.sourceId))
  }

  function RowOf(id: nat, doc: UpsertDocument): DocumentRow {
    DocumentRow(id, doc.publicId, doc.source, doc.sourceId, doc.title, doc.metadataJson, doc.notes)
  }

  /** INSERT .. ON CONFLICT(document_key) DO UPDATE: the id of an existing row is kept. */
  function WriteDocument(db: Db, doc: UpsertDocument): Db {
    if doc.documentKey in db.documents then
      db.(documents := db.documents[doc.documentKey := RowOf(db.documents[doc.documentKey].id, doc)])
    else
      db.(documents := db.documents[doc.documentKey := RowOf(db.nextDocumentId, doc)],
          nextDocumentId := db.nextDocumentId + 1)
  }

  function Upsert(db: Db, doc: UpsertDocument): Result<Db, StoreError> {
    if !Bracketed(doc.metadataJson, '{', '}') then Err(InvalidJson("metadata_json", doc.metadataJson))
    else if doc.publicId == doc.documentKey || doc.sourceId == doc.documentKey then
      Err(InvalidDocumentKey(doc.documentKey))
    else if TakenByAnother(db, doc) then Err(ConstraintViolation("documents"))
    else Ok(WriteDocument(db, doc))
  }

  // replace_pages_and_chunks

  function PageRowOf(page: PageInput): PageRow {
    PageRow(page.text, page.textSource, page.qualityScore, page.warningsJson)
  }

  function InsertPages(
    table: map<(nat, int), PageRow>, id: nat, pages: seq<PageInput>): Result<map<(nat, int), PageRow>, StoreError>
    decreases |pages|
  {
    if pages == [] then Ok(table)
    else if !Bracketed(pages[0].warningsJson, '[', ']') then Err(InvalidJson("warnings_json", pages[0].warningsJson))
    else if pages[0].pageNumber <= 0 || (id, pages[0].pageNumber) in table then Err(ConstraintViolation("pages"))
    else InsertPages(table[(id, pages[0].pageNumber) := PageRowOf(pages[0])], id, pages[1..])
  }

  function ChunkRowOf(chunk: ChunkInput): ChunkRow {
    ChunkRow(chunk.pageStart, chunk.pageEnd, chunk.text, chunk.tokenEstimate, chunk.metadataJson)
  }

  // What a stored row says, column by column

  predicate StoresDocument(row: DocumentRow, doc: UpsertDocument) {
    && row.publicId == doc.publicId && row.source == doc.source && row.sourceId == doc.sourceId
    && row.title == doc.title && row.metadataJson == doc.metadataJson && row.notes == doc.notes
  }

  predicate StoresPage(row: PageRow, page: PageInput) {
    && row.text == page.text && row.textSource == page.textSource
    && row.qualityScore == page.qualityScore && row.warningsJson == page.warningsJson
  }

  predicate StoresChunk(row: ChunkRow, chunk: ChunkInput) {
    && row.pageStart == chunk.pageStart && row.pageEnd == chunk.pageEnd && row.text == chunk.text
    && row.tokenEstimate == chunk.tokenEstimate && row.metadataJson == chunk.metadataJson
  }

  function IndexContent(key: string, doc: DocumentRow, chunkId: string, chunk: ChunkRow): FtsContent {
    FtsContent(key, chunkId, doc.source, doc.title, chunk.text, chunk.pageStart, chunk.pageEnd)
  }

  /** SQLite gives a new row the largest rowid plus one. */
  function NextRowid(fts: seq<FtsRow>): nat {
    if fts == [] then 1 else fts[|fts| - 1].rowid + 1
  }

  datatype Indexed = Indexed(chunks: map<(nat, string), ChunkRow>, fts: seq<FtsRow>)

  function InsertChunk(
    tables: Indexed, key: string, doc: DocumentRow, chunk: ChunkInput): Result<Indexed, StoreError>
  {
    if !Bracketed(chunk.metadataJson, '{', '}') then Err(InvalidJson("metadata_json", chunk.metadataJson))
    else if chunk.pageStart <= 0 || chunk.pageEnd < chunk.pageStart || (doc.id, chunk.chunkId) in tables.chunks then
      Err(ConstraintViolation("chunks"))
    else
      var row := ChunkRowOf(chunk);
      Ok(Indexed(
        tables.chunks[(doc.id, chunk.chunkId) := row],
        tables.fts + [FtsRow(NextRowid(tables.fts), IndexContent(key, doc, chunk.chunkId, row))]))
  }

  function InsertChunks(
    tables: Indexed, key: string, doc: DocumentRow, chunks: seq<ChunkInput>): Result<Indexed, StoreError>
    decreases |chunks|
  {
    if chunks == [] then Ok(tables)
    else
      var next :- InsertChunk(tables, key, doc, chunks[0]);
      InsertChunks(next, key, doc, chunks[1..])
  }

  function NotOf(key: string): FtsRow -> bool {
    (row: FtsRow) => row.content.documentKey != key
  }

  function PagesWithout(db: Db, id: nat): map<(nat, int), PageRow> {
    map k | k in db.pages && k.0 != id :: db.pages[k]
  }

  function ChunksWithout(db: Db, id: nat): map<(nat, string), ChunkRow> {
    map k | k in db.chunks && k.0 != id :: db.chunks[k]
  }

  /** The whole transaction; on an error nothing is committed. */
  function Replace(db: Db, key: string, pages: seq<PageInput>, chunks: seq<ChunkInput>): Result<Db, StoreError> {
    if key !in db.documents then Err(MissingDocument(key))
    else
      var doc := db.documents[key];
      var pageTable :- InsertPages(PagesWithout(db, doc.id), doc.id, pages);
      var tables :- InsertChunks(Indexed(ChunksWithout(db, doc.id), Filter(db.fts, NotOf(key))), key, doc, chunks);
      Ok(db.(pages := pageTable, chunks := tables.chunks, fts := tables.fts))
  }

  // add_asset

  function AddAsset(db: Db, asset: AssetInput): Result<Db, StoreError> {
    if asset.documentKey !in db.documents then Err(MissingDocument(asset.documentKey))
    else
      var id := db.documents[asset.documentKey].id;
      Ok(db.(assets := db.assets[(id, asset.assetUrl, asset.role) := asset.row]))
  }

  // What the tables keep

  ghost predicate DocumentsOk(db: Db) {
    IdsOk(db) && UniqueColumns(db.documents)
  }

  ghost predicate IdsOk(db: Db) {
    && (forall k :: k in db.documents ==> db.documents[k].id < db.nextDocumentId)
    && (forall k, l :: k in db.documents && l in db.documents && db.documents[k].id == db.documents[l].id ==> k == l)
    && (forall k :: k in db.pages ==> k.0 < db.nextDocumentId)
    && (forall k :: k in db.chunks ==> k.0 < db.nextDocumentId)
  }

  /** UNIQUE(public_id) and UNIQUE(source, source_id). */
  ghost predicate UniqueColumns(documents: map<string, DocumentRow>) {
    forall k, l :: k in documents && l in documents && k != l ==>
      && documents[k].publicId != documents[l].publicId
      && (documents[k].source != documents[l].source || documents[k].sourceId != documents[l].sourceId)
  }

  /** Increasing rowids and no identity twice. */
  ghost predicate RowBefore(a: FtsRow, b: FtsRow) {
    a.rowid < b.rowid && a.content.Identity() != b.content.Identity()
  }

  /** The row repeats the body and page range of a stored chunk. */
  ghost predicate Backed(documents: map<string, DocumentRow>, chunks: map<(nat, string), ChunkRow>, c: FtsContent) {
    && c.documentKey in documents
    && (documents[c.documentKey].id, c.chunkId) in chunks
    && var chunk := chunks[(documents[c.documentKey].id, c.chunkId)];
       c.body == chunk.text && c.pageStart == chunk.pageStart && c.pageEnd == chunk.pageEnd
  }

  ghost predicate IsIndexed(fts: seq<FtsRow>, identity: ChunkIdentity) {
    exists row :: row in fts && row.content.Identity() == identity
  }

  /** `chunk_fts` and `chunks` are in bijection on their identities, with equal body and range. */
  ghost predicate IndexAgrees(documents: map<string, DocumentRow>, tables: Indexed) {
    && Sorted(tables.fts, RowBefore)
    && (forall row :: row in tables.fts ==> Backed(documents, tables.chunks, row.content))
    && (forall key, chunkId :: key in documents && (documents[key].id, chunkId) in tables.chunks ==>
          IsIndexed(tables.fts, ChunkIdentity(key, chunkId)))
  }

  ghost predicate TablesOk(db: Db) {
    DocumentsOk(db) && IndexAgrees(db.documents, Indexed(db.chunks, db.fts))
  }

  /** Rows of documents outside `dirty` also carry the current source and title. */
  ghost predicate FreshExcept(db: Db, dirty: set<string>) {
    forall row :: row in db.fts && row.content.documentKey in db.documents && row.content.documentKey !in dirty ==>
      && row.content.source == db.documents[row.content.documentKey].source
      && row.content.title == db.documents[row.content.documentKey].title
  }

  // What an upsert takes and writes

  /** Up to whitespace the text starts with one character and ends with the other. */
  ghost predicate Framed(text: string, open: char, close: char) {
    exists i, j ::
      && 0 <= i < |text| && AllSpace(text[..i]) && text[i] == open
      && 0 <= j < |text| && AllSpace(text[j + 1..]) && text[j] == close
  }

  lemma {:induction false} BracketedIff(text: string, open: char, close: char)
    requires !IsSpace(open) && !IsSpace(close)
    ensures Bracketed(text, open, close) <==> Framed(text, open, close)
  {
    if Bracketed(text, open, close) {
      var i := TrimStartIs(text);
      TrimEndIs(text);
      var j := |TrimEnd(text)| - 1;
      assert text[i] == open && text[j] == close;
    } else if Framed(text, open, close) {
      var i, j :| && 0 <= i < |text| && AllSpace(text[..i]) && text[i] == open
                  && 0 <= j < |text| && AllSpace(text[j + 1..]) && text[j] == close;
      StartsAfterSpace(text, i);
      EndsBeforeSpace(text, j);
    }
  }

  /** The rows with one written for the document, whatever its id. */
  ghost predicate CanHold(documents: map<string, DocumentRow>, doc: UpsertDocument) {
    exists row :: StoresDocument(row, doc) && UniqueColumns(documents[doc.documentKey := row])
  }

  lemma {:induction false} TakenIff(db: Db, doc: UpsertDocument)
    requires UniqueColumns(db.documents)
    ensures CanHold(db.documents, doc) <==> !TakenByAnother(db, doc)
  {
    if TakenByAnother(db, doc) {
      forall row | StoresDocument(row, doc) ensures !UniqueColumns(db.documents[doc.documentKey := row]) {
        var written := db.documents[doc.documentKey := row];
        var k :| k in db.documents && k != doc.documentKey
          && (|| db.documents[k].publicId == doc.publicId
              || (db.documents[k].source == doc.source && db.documents[k].sourceId == doc.sourceId));
        assert written[k] == db.documents[k] && written[doc.documentKey] == row;
      }
    } else {
      var row := DocumentRow(0, doc.publicId, doc.source, doc.sourceId, doc.title, doc.metadataJson, doc.notes);
      WriteKeepsUnique(db, doc, row);
      assert StoresDocument(row, doc) && UniqueColumns(db.documents[doc.documentKey := row]);
    }
  }

  /** The document's row says what the document says, under the id it had or a new one; nothing else changed. */
  ghost predicate Written(db: Db, after: Db, doc: UpsertDocument) {
    var key := doc.documentKey;
    && after == db.(documents := after.documents, nextDocumentId := after.nextDocumentId)
    && after.documents.Keys == db.documents.Keys + {key}
    && StoresDocument(after.documents[key], doc)
    && (key in db.documents ==> after.documents[key].id == db.documents[key].id)
    && (key !in db.documents ==> forall k :: k in db.documents ==> db.documents[k].id != after.documents[key].id)
    && forall k :: k in db.documents && k != key ==> after.documents[k] == db.documents[k]
  }

  lemma {:induction false} WriteMeaning(db: Db, doc: UpsertDocument)
    requires IdsOk(db)
    ensures Written(db, WriteDocument(db, doc), doc)
  {
  }

  /**
   An upsert is taken exactly when the metadata is framed like an object, the key is neither the
   public nor the source id, and the table stays unique.
   */
  lemma {:induction false} UpsertMeaning(db: Db, doc: UpsertDocument)
    requires DocumentsOk(db)
    ensures
      var r, named := Upsert(db, doc), doc.documentKey == doc.publicId || doc.documentKey == doc.sourceId;
      && (r.Ok? <==> Framed(doc.metadataJson, '{', '}') && !named && CanHold(db.documents, doc))
      && (r.Err? ==> r.error == if !Framed(doc.metadataJson, '{', '}') then InvalidJson("metadata_json", doc.metadataJson)
                                else if named then InvalidDocumentKey(doc.documentKey) else ConstraintViolation("documents"))
      && (r.Ok? ==> Written(db, r.value, doc))
  {
    BracketedIff(doc.metadataJson, '{', '}');
    TakenIff(db, doc);
    WriteMeaning(db, doc);
  }

  lemma {:induction false} UpsertKeepsDocuments(db: Db, doc: UpsertDocument)
    requires DocumentsOk(db) && !TakenByAnother(db, doc)
    ensures DocumentsOk(WriteDocument(db, doc))
  {
    UpsertKeepsIds(db, doc);
    WriteKeepsUnique(db, doc, WriteDocument(db, doc).documents[doc.documentKey]);
  }

  lemma {:induction false} UpsertKeepsIds(db: Db, doc: UpsertDocument)
    requires IdsOk(db)
    ensures IdsOk(WriteDocument(db, doc))
  {
  }

  lemma {:induction false} WriteKeepsUnique(db: Db, doc: UpsertDocument, row: DocumentRow)
    requires UniqueColumns(db.documents) && !TakenByAnother(db, doc) && StoresDocument(row, doc)
    ensures UniqueColumns(db.documents[doc.documentKey := row])
  {
  }

  /** An upsert renames nothing: existing documents keep their ids, and a new id owns no chunk. */
  lemma {:induction false} UpsertKeepsIndex(db: Db, doc: UpsertDocument)
    requires TablesOk(db)
    ensures IndexAgrees(WriteDocument(db, doc).documents, Indexed(db.chunks, db.fts))
  {
    var documents := WriteDocument(db, doc).documents;
    forall row | row in db.fts ensures Backed(documents, db.chunks, row.content) {
      assert Backed(db.documents, db.chunks, row.content);
    }
    forall key, chunkId | key in documents && (documents[key].id, chunkId) in db.chunks
      ensures IsIndexed(db.fts, ChunkIdentity(key, chunkId))
    {
      assert key in db.documents;
    }
  }

  lemma {:induction false} UpsertKeepsTables(db: Db, doc: UpsertDocument, dirty: set<string>)
    requires TablesOk(db) && FreshExcept(db, dirty) && !TakenByAnother(db, doc)
    ensures TablesOk(WriteDocument(db, doc))
    ensures FreshExcept(WriteDocument(db, doc), dirty + {doc.documentKey})
  {
    UpsertKeepsDocuments(db, doc);
    UpsertKeepsIndex(db, doc);
    forall row | row in db.fts ensures row.content.documentKey in db.documents {
      assert Backed(db.documents, db.chunks, row.content);
    }
  }

  lemma {:induction false} DeleteKeepsAgreement(db: Db, key: string)
    requires TablesOk(db) && key in db.documents
    ensures IndexAgrees(db.documents, Indexed(ChunksWithout(db, db.documents[key].id), Filter(db.fts, NotOf(key))))
    ensures forall row :: row in Filter(db.fts, NotOf(key)) <==> row in db.fts && row.content.documentKey != key
  {
    var kept := Filter(db.fts, NotOf(key));
    var chunks := ChunksWithout(db, db.documents[key].id);
    FilterSorted(db.fts, NotOf(key), RowBefore);
    forall row ensures row in kept <==> row in db.fts && row.content.documentKey != key {
      FilterMember(db.fts, NotOf(key), row);
    }
    forall k, chunkId | k in db.documents && (db.documents[k].id, chunkId) in chunks
      ensures IsIndexed(kept, ChunkIdentity(k, chunkId))
    {
      assert IsIndexed(db.fts, ChunkIdentity(k, chunkId));
      var row :| row in db.fts && row.content.Identity() == ChunkIdentity(k, chunkId);
      assert row in kept;
    }
  }

  lemma {:induction false} NextRowidIsLargest(fts: seq<FtsRow>, row: FtsRow)
    requires Sorted(fts, RowBefore) && row in fts
    ensures row.rowid < NextRowid(fts)
  {
    var i :| 0 <= i < |fts| && fts[i] == row;
    if i < |fts| - 1 {
      assert RowBefore(fts[i], fts[|fts| - 1]);
    }
  }

  lemma {:induction false} InsertChunkKeepsAgreement(
    documents: map<string, DocumentRow>, tables: Indexed, key: string, chunk: ChunkInput)
    requires IndexAgrees(documents, tables) && key in documents
    requires forall k :: k in documents && documents[k].id == documents[key].id ==> k == key
    requires InsertChunk(tables, key, documents[key], chunk).Ok?
    ensures IndexAgrees(documents, InsertChunk(tables, key, documents[key], chunk).value)
  {
    var doc := documents[key];
    var next := InsertChunk(tables, key, doc, chunk).value;
    var added := next.fts[|tables.fts|];
    forall row | row in tables.fts ensures RowBefore(row, added) {
      NextRowidIsLargest(tables.fts, row);
      assert Backed(documents, tables.chunks, row.content);
    }
    assert Sorted(next.fts, RowBefore);
    forall row | row in next.fts ensures Backed(documents, next.chunks, row.content) {
      if row in tables.fts {
        assert Backed(documents, tables.chunks, row.content);
      }
    }
    forall k, chunkId | k in documents && (documents[k].id, chunkId) in next.chunks
      ensures IsIndexed(next.fts, ChunkIdentity(k, chunkId))
    {
      if (documents[k].id, chunkId) in tables.chunks {
        assert IsIndexed(tables.fts, ChunkIdentity(k, chunkId));
        var row :| row in tables.fts && row.content.Identity() == ChunkIdentity(k, chunkId);
        assert row in next.fts;
      } else {
        assert k == key && added in next.fts;
      }
    }
  }

  ghost predicate InsertedChunks(
    id: nat, before: map<(nat, string), ChunkRow>, after: map<(nat, string), ChunkRow>, chunks: seq<ChunkInput>)
  {
    && (forall k :: k in before ==> k in after && after[k] == before[k])
    && (forall k :: k in after && k !in before ==> exists c :: c in chunks && k == (id, c.chunkId))
    && (forall c :: c in chunks ==> (id, c.chunkId) in after && StoresChunk(after[(id, c.chunkId)], c))
  }

  /** `after` is `before` with exactly `chunks` added to the document, each with its index row. */
  ghost predicate Inserted(key: string, doc: DocumentRow, before: Indexed, after: Indexed, chunks: seq<ChunkInput>) {
    && before.fts <= after.fts
    && (forall row :: row in after.fts && row !in before.fts ==>
          && row.content.documentKey == key
          && row.content.source == doc.source && row.content.title == doc.title)
    && InsertedChunks(doc.id, before.chunks, after.chunks, chunks)
  }

  lemma {:induction false} InsertedFirst(
    key: string, doc: DocumentRow, before: Indexed, next: Indexed, after: Indexed, chunks: seq<ChunkInput>)
    requires chunks != [] && InsertChunk(before, key, doc, chunks[0]) == Ok(next)
    requires Inserted(key, doc, next, after, chunks[1..])
    ensures Inserted(key, doc, before, after, chunks)
  {
    assert before.fts <= next.fts <= after.fts;
    forall k | k in after.chunks && k !in before.chunks
      ensures exists c :: c in chunks && k == (doc.id, c.chunkId)
    {
      if k in next.chunks {
        assert k == (doc.id, chunks[0].chunkId);
      } else {
        var c :| c in chunks[1..] && k == (doc.id, c.chunkId);
        assert c in chunks;
      }
    }
    forall c | c in chunks
      ensures (doc.id, c.chunkId) in after.chunks && StoresChunk(after.chunks[(doc.id, c.chunkId)], c)
    {
      if c != chunks[0] {
        assert c in chunks[1..];
      }
    }
  }

  lemma {:induction false} InsertChunksMeaning(
    documents: map<string, DocumentRow>, tables: Indexed, key: string, chunks: seq<ChunkInput>)
    requires IndexAgrees(documents, tables) && key in documents
    requires forall k :: k in documents && documents[k].id == documents[key].id ==> k == key
    requires InsertChunks(tables, key, documents[key], chunks).Ok?
    ensures IndexAgrees(documents, InsertChunks(tables, key, documents[key], chunks).value)
    ensures Inserted(key, documents[key], tables, InsertChunks(tables, key, documents[key], chunks).value, chunks)
    decreases |chunks|
  {
    if chunks != [] {
      var next := InsertChunk(tables, key, documents[key], chunks[0]).value;
      InsertChunkKeepsAgreement(documents, tables, key, chunks[0]);
      InsertChunksMeaning(documents, next, key, chunks[1..]);
      InsertedFirst(key, documents[key], tables, next,
                    InsertChunks(next, key, documents[key], chunks[1..]).value, chunks);
    }
  }

  ghost predicate InsertedPages(
    id: nat, before: map<(nat, int), PageRow>, after: map<(nat, int), PageRow>, pages: seq<PageInput>)
  {
    && (forall k :: k in before ==> k in after && after[k] == before[k])
    && (forall k :: k in after && k !in before ==> exists p :: p in pages && k == (id, p.pageNumber))
    && (forall p :: p in pages ==> (id, p.pageNumber) in after && StoresPage(after[(id, p.pageNumber)], p))
  }

  lemma {:induction false} InsertPagesMeaning(table: map<(nat, int), PageRow>, id: nat, pages: seq<PageInput>)
    requires InsertPages(table, id, pages).Ok?
    ensures InsertedPages(id, table, InsertPages(table, id, pages).value, pages)
    decreases |pages|
  {
    if pages != [] {
      var next := table[(id, pages[0].pageNumber) := PageRowOf(pages[0])];
      InsertPagesMeaning(next, id, pages[1..]);
      var after := InsertPages(table, id, pages).value;
      forall k | k in after && k !in table ensures exists p :: p in pages && k == (id, p.pageNumber) {
        if k in next {
          assert k == (id, pages[0].pageNumber);
        } else {
          var p :| p in pages[1..] && k == (id, p.pageNumber);
          assert p in pages;
        }
      }
      forall p | p in pages
        ensures (id, p.pageNumber) in after && StoresPage(after[(id, p.pageNumber)], p)
      {
        if p != pages[0] {
          assert p in pages[1..];
        }
      }
    }
  }

  /** After the transaction the document's pages and chunks are exactly the inputs; nothing else changed. */
  ghost predicate Replaced(db: Db, db': Db, key: string, pages: seq<PageInput>, chunks: seq<ChunkInput>)
    requires key in db.documents
  {
    var doc := db.documents[key];
    && db' == db.(pages := db'.pages, chunks := db'.chunks, fts := db'.fts)
    && InsertedPages(doc.id, PagesWithout(db, doc.id), db'.pages, pages)
    && Inserted(key, doc, Indexed(ChunksWithout(db, doc.id), Filter(db.fts, NotOf(key))),
                Indexed(db'.chunks, db'.fts), chunks)
  }

  lemma {:induction false} ReplaceMeaning(db: Db, key: string, pages: seq<PageInput>, chunks: seq<ChunkInput>)
    requires TablesOk(db)
    requires Replace(db, key, pages, chunks).Ok?
    ensures TablesOk(Replace(db, key, pages, chunks).value)
    ensures Replaced(db, Replace(db, key, pages, chunks).value, key, pages, chunks)
  {
    var doc := db.documents[key];
    DeleteKeepsAgreement(db, key);
    InsertPagesMeaning(PagesWithout(db, doc.id), doc.id, pages);
    InsertChunksMeaning(
      db.documents, Indexed(ChunksWithout(db, doc.id), Filter(db.fts, NotOf(key))), key, chunks);
    var db' := Replace(db, key, pages, chunks).value;
    assert DocumentsOk(db');
  }

  lemma {:induction false} ReplaceKeepsTables(
    db: Db, key: string, pages: seq<PageInput>, chunks: seq<ChunkInput>, dirty: set<string>)
    requires TablesOk(db) && FreshExcept(db, dirty)
    requires Replace(db, key, pages, chunks).Ok?
    ensures TablesOk(Replace(db, key, pages, chunks).value)
    ensures FreshExcept(Replace(db, key, pages, chunks).value, dirty - {key})
  {
    DeleteKeepsAgreement(db, key);
    ReplaceMeaning(db, key, pages, chunks);
    var kept := Filter(db.fts, NotOf(key));
    var db' := Replace(db, key, pages, chunks).value;
    forall row | row in db'.fts && row.content.documentKey !in dirty - {key}
      ensures row.content.documentKey in db.documents
      ensures row.content.source == db.documents[row.content.documentKey].source
      ensures row.content.title == db.documents[row.content.documentKey].title
    {
      assert Backed(db'.documents, db'.chunks, row.content);
      if row in kept {
        assert row in db.fts;
      }
    }
  }

  // When a replacement is taken

  ghost predicate NewPages(table: map<(nat, int), PageRow>, id: nat, pages: seq<PageInput>) {
    && (forall i :: 0 <= i < |pages| ==> (id, pages[i].pageNumber) !in table)
    && PagesFit(pages)
  }

  /** Positive numbers, none twice, and warnings framed like an array. */
  ghost predicate PagesFit(pages: seq<PageInput>) {
    && (forall i, j :: 0 <= i < j < |pages| ==> pages[i].pageNumber != pages[j].pageNumber)
    && (forall i :: 0 <= i < |pages| ==> 0 < pages[i].pageNumber && Framed(pages[i].warningsJson, '[', ']'))
  }

  lemma {:induction false} NewPagesFirst(table: map<(nat, int), PageRow>, id: nat, pages: seq<PageInput>, row: PageRow)
    requires pages != []
    ensures
      var key := (id, pages[0].pageNumber);
      NewPages(table, id, pages) <==>
        && key !in table && 0 < pages[0].pageNumber && Framed(pages[0].warningsJson, '[', ']')
        && NewPages(table[key := row], id, pages[1..])
  {
    var rest, next := pages[1..], table[(id, pages[0].pageNumber) := row];
    if NewPages(next, id, rest) {
      forall i | 0 < i < |pages|
        ensures pages[i].pageNumber != pages[0].pageNumber && (id, pages[i].pageNumber) !in table
        ensures 0 < pages[i].pageNumber && Framed(pages[i].warningsJson, '[', ']')
      {
        assert rest[i - 1] == pages[i];
      }
      forall i, j | 0 < i < j < |pages| ensures pages[i].pageNumber != pages[j].pageNumber {
        assert rest[i - 1] == pages[i] && rest[j - 1] == pages[j];
      }
    }
  }

  lemma {:induction false} InsertPagesIff(table: map<(nat, int), PageRow>, id: nat, pages: seq<PageInput>)
    ensures InsertPages(table, id, pages).Ok? <==> NewPages(table, id, pages)
    decreases |pages|
  {
    if pages != [] {
      BracketedIff(pages[0].warningsJson, '[', ']');
      NewPagesFirst(table, id, pages, PageRowOf(pages[0]));
      InsertPagesIff(table[(id, pages[0].pageNumber) := PageRowOf(pages[0])], id, pages[1..]);
    }
  }

  ghost predicate NewChunks(table: map<(nat, string), ChunkRow>, id: nat, chunks: seq<ChunkInput>) {
    && (forall i :: 0 <= i < |chunks| ==> (id, chunks[i].chunkId) !in table)
    && ChunksFit(chunks)
  }

  /** Ranges of positive numbers, no id twice, and metadata framed like an object. */
  ghost predicate ChunksFit(chunks: seq<ChunkInput>) {
    && (forall i, j :: 0 <= i < j < |chunks| ==> chunks[i].chunkId != chunks[j].chunkId)
    && (forall i :: 0 <= i < |chunks| ==>
          0 < chunks[i].pageStart <= chunks[i].pageEnd && Framed(chunks[i].metadataJson, '{', '}'))
  }

  lemma {:induction false} NewChunksFirst(
    table: map<(nat, string), ChunkRow>, id: nat, chunks: seq<ChunkInput>, row: ChunkRow)
    requires chunks != []
    ensures
      var key := (id, chunks[0].chunkId);
      NewChunks(table, id, chunks) <==>
        && key !in table && 0 < chunks[0].pageStart <= chunks[0].pageEnd
        && Framed(chunks[0].metadataJson, '{', '}')
        && NewChunks(table[key := row], id, chunks[1..])
  {
    var rest, next := chunks[1..], table[(id, chunks[0].chunkId) := row];
    if NewChunks(next, id, rest) {
      forall i | 0 < i < |chunks|
        ensures chunks[i].chunkId != chunks[0].chunkId && (id, chunks[i].chunkId) !in table
        ensures 0 < chunks[i].pageStart <= chunks[i].pageEnd && Framed(chunks[i].metadataJson, '{', '}')
      {
        assert rest[i - 1] == chunks[i];
      }
      forall i, j | 0 < i < j < |chunks| ensures chunks[i].chunkId != chunks[j].chunkId {
        assert rest[i - 1] == chunks[i] && rest[j - 1] == chunks[j];
      }
    }
  }

  lemma {:induction false} InsertChunksIff(tables: Indexed, key: string, doc: DocumentRow, chunks: seq<ChunkInput>)
    ensures InsertChunks(tables, key, doc, chunks).Ok? <==> NewChunks(tables.chunks, doc.id, chunks)
    decreases |chunks|
  {
    if chunks != [] {
      BracketedIff(chunks[0].metadataJson, '{', '}');
      NewChunksFirst(tables.chunks, doc.id, chunks, ChunkRowOf(chunks[0]));
      var first := InsertChunk(tables, key, doc, chunks[0]);
      if first.Ok? {
        InsertChunksIff(first.value, key, doc, chunks[1..]);
      }
    }
  }

  /** A replacement is taken exactly for a known document, numbered pages and ranged chunks that do not repeat. */
  lemma {:induction false} ReplaceSucceedsIff(db: Db, key: string, pages: seq<PageInput>, chunks: seq<ChunkInput>)
    ensures Replace(db, key, pages, chunks).Ok? <==> key in db.documents && PagesFit(pages) && ChunksFit(chunks)
  {
    if key in db.documents {
      var doc := db.documents[key];
      InsertPagesIff(PagesWithout(db, doc.id), doc.id, pages);
      InsertChunksIff(Indexed(ChunksWithout(db, doc.id), Filter(db.fts, NotOf(key))), key, doc, chunks);
    }
  }
}
