/** From extracted pages to the rows that are stored (src/ingest/pipeline.rs). */
module Pipeline {
  import opened Wrappers
  import opened Database
  import opened Documents
  import Chunking
  import Decimal

  datatype ExtractedText = ExtractedText(pages: seq<Chunking.PageText>, warnings: seq<string>, textSource: TextSource)

  datatype IngestError =
    | ChunkFailed(chunkError: Chunking.ChunkError)
    | TokenEstimateOverflow(chunkId: string, tokens: nat)
    | StoreFailed(storeError: StoreError)

  function PageInputs(pages: seq<Chunking.PageText>, textSource: TextSource): (inputs: seq<PageInput>)
    ensures |inputs| == |pages|
  {
    seq(|pages|, i requires 0 <= i < |pages| =>
      PageInput(pages[i].pageNumber, pages[i].text, textSource, None, "[]"))
  }

  function ChunkInputOf(chunk: Chunking.Chunk): ChunkInput {
    ChunkInput(chunk.chunkId, chunk.pageStart, chunk.pageEnd, chunk.text, Some(chunk.tokenEstimate), "{}")
  }

  function ChunkInputs(chunks: seq<Chunking.Chunk>): (r: Result<seq<ChunkInput>, IngestError>)
    ensures r.Ok? ==> |r.value| == |chunks| && forall i :: 0 <= i < |chunks| ==> r.value[i] == ChunkInputOf(chunks[i])
  {
    if chunks == [] then Ok([])
    else if chunks[0].tokenEstimate > Decimal.I64_MAX then
      Err(TokenEstimateOverflow(chunks[0].chunkId, chunks[0].tokenEstimate))
    else
      var rest :- ChunkInputs(chunks[1..]);
      Ok([ChunkInputOf(chunks[0])] + rest)
  }

  /** Everything that can fail before the first write. */
  function Prepare(pages: seq<Chunking.PageText>, targetTokens: nat): Result<seq<ChunkInput>, IngestError> {
    match Chunking.ChunkResult(pages, targetTokens)
    case Err(error) => Err(ChunkFailed(error))
    case Ok(chunks) => ChunkInputs(chunks)
  }

  /** A preparation that succeeds always yields at least one page and one chunk. */
  lemma {:induction false} PreparedIsNonEmpty(pages: seq<Chunking.PageText>, targetTokens: nat)
    requires Prepare(pages, targetTokens).Ok?
    ensures pages != [] && Prepare(pages, targetTokens).value != []
  {
    Chunking.ChunksNonEmpty(pages, targetTokens);
  }

  // What the stored rows then say

  predicate HoldsPage(row: PageRow, page: Chunking.PageText, source: TextSource) {
    row.text == page.text && row.textSource == source && row.qualityScore.None? && row.warningsJson == "[]"
  }

  predicate HoldsChunk(row: ChunkRow, chunk: Chunking.Chunk) {
    && row.pageStart == chunk.pageStart && row.pageEnd == chunk.pageEnd && row.text == chunk.text
    && row.tokenEstimate == Some(chunk.tokenEstimate) && row.metadataJson == "{}"
  }

  /** The rows of the document with this id are exactly these pages. */
  ghost predicate PagesStored(
    table: map<(nat, int), PageRow>, id: nat, pages: seq<Chunking.PageText>, source: TextSource)
  {
    && (forall k :: k in table && k.0 == id ==> exists p :: p in pages && k.1 == p.pageNumber)
    && (forall p :: p in pages ==>
          (id, p.pageNumber as int) in table && HoldsPage(table[(id, p.pageNumber as int)], p, source))
  }

  ghost predicate ChunksStored(table: map<(nat, string), ChunkRow>, id: nat, chunks: seq<Chunking.Chunk>) {
    && (forall k :: k in table && k.0 == id ==> exists c :: c in chunks && k.1 == c.chunkId)
    && (forall c :: c in chunks ==> (id, c.chunkId) in table && HoldsChunk(table[(id, c.chunkId)], c))
  }

  lemma {:induction false} InsertedPagesHold(
    id: nat, before: map<(nat, int), PageRow>, after: map<(nat, int), PageRow>,
    pages: seq<Chunking.PageText>, source: TextSource)
    requires InsertedPages(id, before, after, PageInputs(pages, source)) && forall k :: k in before ==> k.0 != id
    ensures PagesStored(after, id, pages, source)
  {
    var inputs := PageInputs(pages, source);
    forall k | k in after && k.0 == id ensures exists p :: p in pages && k.1 == p.pageNumber {
      var input :| input in inputs && k == (id, input.pageNumber);
      var i :| 0 <= i < |inputs| && inputs[i] == input;
      assert pages[i] in pages;
    }
    forall p | p in pages
      ensures (id, p.pageNumber as int) in after && HoldsPage(after[(id, p.pageNumber as int)], p, source)
    {
      var i :| 0 <= i < |pages| && pages[i] == p;
      assert inputs[i] in inputs;
    }
  }

  lemma {:induction false} InsertedChunksHold(
    id: nat, before: map<(nat, string), ChunkRow>, after: map<(nat, string), ChunkRow>,
    chunks: seq<Chunking.Chunk>, inputs: seq<ChunkInput>)
    requires |inputs| == |chunks| && forall i :: 0 <= i < |chunks| ==> inputs[i] == ChunkInputOf(chunks[i])
    requires InsertedChunks(id, before, after, inputs) && forall k :: k in before ==> k.0 != id
    ensures ChunksStored(after, id, chunks)
  {
    forall k | k in after && k.0 == id ensures exists c :: c in chunks && k.1 == c.chunkId {
      var input :| input in inputs && k == (id, input.chunkId);
      var i :| 0 <= i < |inputs| && inputs[i] == input;
      assert chunks[i] in chunks;
    }
    forall c | c in chunks ensures (id, c.chunkId) in after && HoldsChunk(after[(id, c.chunkId)], c) {
      var i :| 0 <= i < |chunks| && chunks[i] == c;
      assert inputs[i] in inputs;
    }
  }

  /** A replacement by these pages and chunks stores exactly them. */
  lemma {:induction false} ReplacedHolds(
    db: Db, db': Db, key: string, pages: seq<Chunking.PageText>, source: TextSource, chunks: seq<Chunking.Chunk>)
    requires key in db.documents && ChunkInputs(chunks).Ok?
    requires Replaced(db, db', key, PageInputs(pages, source), ChunkInputs(chunks).value)
    ensures PagesStored(db'.pages, db.documents[key].id, pages, source)
    ensures ChunksStored(db'.chunks, db.documents[key].id, chunks)
  {
    var doc := db.documents[key];
    InsertedPagesHold(doc.id, PagesWithout(db, doc.id), db'.pages, pages, source);
    InsertedChunksHold(doc.id, ChunksWithout(db, doc.id), db'.chunks, chunks, ChunkInputs(chunks).value);
  }
}
