/** Chunk, upsert, replace: `ingest_extracted_text` on a store (src/ingest/pipeline.rs). */
module Ingestion {
  import opened Wrappers
  import opened Database
  import opened Documents
  import opened Pipeline
  import opened SqliteStore
  import opened Text
  import Chunking
  import Decimal
  import PageExtraction
  import StoreRuns

  datatype IngestOutcome = IngestOutcome(documentKey: string, pageCount: nat, chunkCount: nat, warnings: seq<string>)

  datatype Ingested = Ingested(db: Db, error: Option<IngestError>)

  /**
   The database an ingestion leaves behind.  The two writes are separate transactions: when the
   second is refused, the document row of the first stays.
   */
  function Ingest(db: Db, document: UpsertDocument, pages: seq<Chunking.PageText>, source: TextSource, target: nat): Ingested {
    match Prepare(pages, target)
    case Err(error) => Ingested(db, Some(error))
    case Ok(inputs) =>
      match Upsert(db, document)
      case Err(error) => Ingested(db, Some(StoreFailed(error)))
      case Ok(db1) =>
        match Replace(db1, document.documentKey, PageInputs(pages, source), inputs)
        case Err(error) => Ingested(db1, Some(StoreFailed(error)))
        case Ok(db2) => Ingested(db2, None)
  }

  function Prefixed(inputs: seq<ChunkInput>, r: Result<seq<ChunkInput>, IngestError>)
    : Result<seq<ChunkInput>, IngestError>
  {
    match r case Ok(rest) => Ok(inputs + rest) case Err(error) => Err(error)
  }

  lemma {:induction false} PrefixedNone(r: Result<seq<ChunkInput>, IngestError>)
    ensures Prefixed([], r) == r
  {
    if r.Ok? {
      assert [] + r.value == r.value;
    }
  }

  lemma {:induction false} PrefixedMore(
    inputs: seq<ChunkInput>, chunks: seq<Chunking.Chunk>, i: nat)
    requires i < |chunks| && chunks[i].tokenEstimate <= Decimal.I64_MAX
    ensures Prefixed(inputs, ChunkInputs(chunks[i..]))
         == Prefixed(inputs + [ChunkInputOf(chunks[i])], ChunkInputs(chunks[i + 1..]))
  {
    assert chunks[i..][0] == chunks[i] && chunks[i..][1..] == chunks[i + 1..];
    var rest := ChunkInputs(chunks[i + 1..]);
    if rest.Ok? {
      assert inputs + ([ChunkInputOf(chunks[i])] + rest.value) == (inputs + [ChunkInputOf(chunks[i])]) + rest.value;
    }
  }

  method PrepareChunks(chunks: seq<Chunking.Chunk>) returns (r: Result<seq<ChunkInput>, IngestError>)
    ensures r == ChunkInputs(chunks)
  {
    var inputs: seq<ChunkInput> := [];
    assert chunks[0..] == chunks;
    PrefixedNone(ChunkInputs(chunks));
    for i := 0 to |chunks|
      invariant ChunkInputs(chunks) == Prefixed(inputs, ChunkInputs(chunks[i..]))
    {
      if chunks[i].tokenEstimate > Decimal.I64_MAX {
        assert chunks[i..][0] == chunks[i];
        return Err(TokenEstimateOverflow(chunks[i].chunkId, chunks[i].tokenEstimate));
      }
      PrefixedMore(inputs, chunks, i);
      inputs := inputs + [ChunkInputOf(chunks[i])];
    }
    assert chunks[|chunks|..] == [] && inputs + [] == inputs;
    return Ok(inputs);
  }

  /** What the caller sees is what `Ingest` says. */
  ghost predicate Delivers(
    before: Db, after: Db, document: UpsertDocument, extracted: ExtractedText, source: TextSource, target: nat,
    r: Result<IngestOutcome, IngestError>)
  {
    var ingested := Ingest(before, document, extracted.pages, source, target);
    && after == ingested.db
    && match ingested.error
       case Some(error) => r == Err(error)
       case None =>
         r == Ok(IngestOutcome(document.documentKey, |extracted.pages|,
                               |Chunking.ChunksFor(extracted.pages, target)|, extracted.warnings))
  }

  lemma {:induction false} DeliversUnprepared(
    db: Db, document: UpsertDocument, extracted: ExtractedText, source: TextSource, target: nat, error: IngestError)
    requires Prepare(extracted.pages, target) == Err(error)
    ensures Delivers(db, db, document, extracted, source, target, Err(error))
  {
  }

  lemma {:induction false} DeliversRefused(
    db: Db, db1: Db, document: UpsertDocument, extracted: ExtractedText, source: TextSource, target: nat)
    requires Prepare(extracted.pages, target).Ok? && Upsert(db, document).Err?
    requires db1 == StoreRuns.Next(db, StoreRuns.UpsertDocument(document))
    ensures Delivers(db, db1, document, extracted, source, target, Err(StoreFailed(Upsert(db, document).error)))
  {
  }

  lemma {:induction false} ReplaceStepIs(db: Db, key: string, pages: seq<PageInput>, inputs: seq<ChunkInput>)
    ensures StoreRuns.Next(db, StoreRuns.ReplacePagesAndChunks(key, pages, inputs))
         == match Replace(db, key, pages, inputs) case Ok(db2) => db2 case Err(_) => db
  {
  }

  lemma {:induction false} DeliversReplaced(
    db: Db, db1: Db, document: UpsertDocument, extracted: ExtractedText, source: TextSource, target: nat,
    inputs: seq<ChunkInput>)
    requires Prepare(extracted.pages, target) == Ok(inputs) && Upsert(db, document).Ok?
    requires db1 == StoreRuns.Next(db, StoreRuns.UpsertDocument(document))
    ensures
      var pages := PageInputs(extracted.pages, source);
      var db2 := StoreRuns.Next(db1, StoreRuns.ReplacePagesAndChunks(document.documentKey, pages, inputs));
      var result := match Replace(db1, document.documentKey, pages, inputs)
                    case Err(error) => Err(StoreFailed(error))
                    case Ok(_) => Ok(IngestOutcome(document.documentKey, |extracted.pages|, |inputs|, extracted.warnings));
      Delivers(db, db2, document, extracted, source, target, result)
  {
    assert Upsert(db, document) == Ok(db1);
    ReplaceStepIs(db1, document.documentKey, PageInputs(extracted.pages, source), inputs);
  }

  method IngestExtractedText(
    store: Store, document: UpsertDocument, documentSource: TextSource, targetTokens: nat,
    extracted: ExtractedText, textSource: Option<TextSource>)
    returns (r: Result<IngestOutcome, IngestError>)
    requires store.Valid()
    modifies store
    ensures store.Valid()
    ensures Delivers(old(store.View()), store.View(), document, extracted,
                     if textSource.Some? then textSource.value else documentSource, targetTokens, r)
  {
    var source := if textSource.Some? then textSource.value else documentSource;
    ghost var db := store.View();
    var chunked := Chunking.ChunkPages(extracted.pages, targetTokens);
    if chunked.Err? {
      DeliversUnprepared(db, document, extracted, source, targetTokens, ChunkFailed(chunked.error));
      return Err(ChunkFailed(chunked.error));
    }
    var prepared := PrepareChunks(chunked.value);
    if prepared.Err? {
      DeliversUnprepared(db, document, extracted, source, targetTokens, prepared.error);
      return Err(prepared.error);
    }
    var inputs := prepared.value;
    var pages := PageInputs(extracted.pages, source);
    var upserted := store.UpsertDocument(document);
    if upserted.Err? {
      DeliversRefused(db, store.View(), document, extracted, source, targetTokens);
      return Err(StoreFailed(upserted.error));
    }
    DeliversReplaced(db, store.View(), document, extracted, source, targetTokens, inputs);
    var replaced := store.ReplacePagesAndChunks(document.documentKey, pages, inputs);
    if replaced.Err? {
      return Err(StoreFailed(replaced.error));
    }
    return Ok(IngestOutcome(document.documentKey, |extracted.pages|, |inputs|, extracted.warnings));
  }

  // When the second write is accepted

  lemma {:induction false} LiteralsAreFramed()
    ensures Framed("[]", '[', ']') && Framed("{}", '{', '}')
  {
    assert "[]"[0] == '[' && "[]"[1] == ']' && AllSpace("[]"[..0]) && AllSpace("[]"[1 + 1..]);
    assert "{}"[0] == '{' && "{}"[1] == '}' && AllSpace("{}"[..0]) && AllSpace("{}"[1 + 1..]);
  }

  lemma {:induction false} PreparedIds(pages: seq<Chunking.PageText>, target: nat, i: nat, j: nat)
    requires Prepare(pages, target).Ok? && i < j < |Prepare(pages, target).value|
    ensures Prepare(pages, target).value[i].chunkId != Prepare(pages, target).value[j].chunkId
  {
    Chunking.BlocksAreValid(pages, target);
    Chunking.ChunkIdsDistinct(Chunking.BlocksFor(pages, target), i, j);
  }

  lemma {:induction false} PreparedRange(pages: seq<Chunking.PageText>, target: nat, i: nat)
    requires Prepare(pages, target).Ok? && i < |Prepare(pages, target).value| && Chunking.ConsecutiveNumbers(pages)
    ensures Prepare(pages, target).value[i].metadataJson == "{}"
    ensures 0 < Prepare(pages, target).value[i].pageStart <= Prepare(pages, target).value[i].pageEnd
  {
    Chunking.ChunksTile(pages, target);
    Chunking.BlocksAreValid(pages, target);
    ChunkStartsAtPage(pages, Chunking.BlocksFor(pages, target), i);
    assert Chunking.ChunksFor(pages, target)[i].pageStart <= Chunking.ChunksFor(pages, target)[i].pageEnd;
  }

  lemma {:induction false} PreparedChunksFit(pages: seq<Chunking.PageText>, target: nat)
    requires Prepare(pages, target).Ok? && Chunking.ConsecutiveNumbers(pages)
    ensures ChunksFit(Prepare(pages, target).value)
  {
    var inputs := Prepare(pages, target).value;
    forall i, j | 0 <= i < j < |inputs| ensures inputs[i].chunkId != inputs[j].chunkId {
      PreparedIds(pages, target, i, j);
    }
    forall i | 0 <= i < |inputs|
      ensures Framed(inputs[i].metadataJson, '{', '}') && 0 < inputs[i].pageStart <= inputs[i].pageEnd
    {
      PreparedRange(pages, target, i);
      LiteralsAreFramed();
    }
  }

  lemma {:induction false} ChunkStartsAtPage(pages: seq<Chunking.PageText>, blocks: seq<seq<Chunking.PageText>>, i: nat)
    requires Chunking.Flatten(blocks) == pages && !Chunking.HasInvalidNumber(pages)
    requires i < |blocks| && blocks[i] != []
    ensures Chunking.BuildChunks(blocks)[i].pageStart > 0
  {
    Chunking.BuildChunkFields(i + 1, blocks[i]);
    Chunking.FlattenMember(blocks, i, blocks[i][0]);
  }

  lemma {:induction false} ConsecutivePagesFit(pages: seq<Chunking.PageText>, source: TextSource)
    requires Chunking.ConsecutiveNumbers(pages) && !Chunking.HasInvalidNumber(pages)
    ensures PagesFit(PageInputs(pages, source))
  {
    LiteralsAreFramed();
    var inputs := PageInputs(pages, source);
    forall i, j | 0 <= i < j < |inputs| ensures inputs[i].pageNumber != inputs[j].pageNumber {
      assert pages[j].pageNumber == pages[i].pageNumber + (j - i);
    }
  }

  /** Consecutive pages are never refused by the second transaction: their chunk ids and numbers do not repeat. */
  lemma {:induction false} ReplaceAccepts(
    db: Db, key: string, pages: seq<Chunking.PageText>, source: TextSource, target: nat)
    requires key in db.documents && Prepare(pages, target).Ok? && Chunking.ConsecutiveNumbers(pages)
    ensures Replace(db, key, PageInputs(pages, source), Prepare(pages, target).value).Ok?
  {
    ConsecutivePagesFit(pages, source);
    PreparedChunksFit(pages, target);
    ReplaceSucceedsIff(db, key, PageInputs(pages, source), Prepare(pages, target).value);
  }

  // From raw text

  lemma {:induction false} IngestSucceedsForPages(
    db: Db, document: UpsertDocument, pages: seq<Chunking.PageText>, source: TextSource, target: nat)
    requires Chunking.ConsecutiveNumbers(pages)
    ensures
      var ingested := Ingest(db, document, pages, source, target);
      && (ingested.error.None? <==> Prepare(pages, target).Ok? && Upsert(db, document).Ok?)
      && (ingested.error.Some? ==> ingested.db == db)
  {
    if Prepare(pages, target).Ok? && Upsert(db, document).Ok? {
      ReplaceAccepts(Upsert(db, document).value, document.documentKey, pages, source, target);
    }
  }

  /**
   Text with fewer than 2^32 pages has something to ingest exactly when it has words.  What is
   extracted is then refused for two reasons only, a chunk too large to count in 64 bits or a document
   row the table does not take, and in both cases nothing is written.
   */
  lemma {:induction false} IngestSucceedsIff(db: Db, document: UpsertDocument, text: string, source: TextSource, target: nat)
    requires |Split(text, PageExtraction.FORM_FEED)| <= Decimal.U32_MAX
    ensures
      match PageExtraction.ExtractFromFormFeed(text)
      case Err(_) => Words(text) == []
      case Ok(extracted) =>
        var ingested := Ingest(db, document, extracted.pages, source, target);
        && Words(text) != []
        && (ingested.error.None? <==>
              Upsert(db, document).Ok? && ChunkInputs(Chunking.ChunksFor(extracted.pages, target)).Ok?)
        && (ingested.error.Some? ==> ingested.db == db)
  {
    var pages := PageExtraction.ExtractedPages(text);
    PageExtraction.ExtractionKeepsWords(text);
    var first := PageExtraction.ExtractionKeepsPages(text);
    PageExtraction.PhysicalNumbers(pages, Split(text, PageExtraction.FORM_FEED), first);
    IngestSucceedsForPages(db, document, pages, source, target);
    assert Chunking.ChunkResult(pages, target)
        == if pages == [] then Err(Chunking.EmptyPages) else Ok(Chunking.ChunksFor(pages, target));
  }
}
