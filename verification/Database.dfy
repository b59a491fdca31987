/**
 The tables of the local database (src/store/migrations/001_initial.sql) as a value.  Keys of
 the maps are the tables' UNIQUE columns; timestamps are integers, and the columns that only
 record when a row was written are not kept.
 */
module Database {
  import opened Wrappers

  datatype TextSource = EmbeddedPdfText | SourceOcr | LocalOcr | HtmlText | Tei | ApiText

  datatype AssetRole = PdfAsset | HtmlAsset | OcrTextAsset | TranscriptAsset | ImageAsset | OtherAsset

  /** The optional descriptive columns of a document. */
  datatype Notes = Notes(
    date: Option<string>, collection: Option<string>, recordGroup: Option<string>,
    description: Option<string>, originUrl: Option<string>, documentUrl: Option<string>,
    pdfUrl: Option<string>, citationNote: Option<string>, termsNote: Option<string>)

  datatype DocumentRow = DocumentRow(
    id: nat, publicId: string, source: string, sourceId: string, title: string, metadataJson: string, notes: Notes)

  datatype PageRow = PageRow(text: string, textSource: TextSource, qualityScore: Option<real>, warningsJson: string)

  datatype ChunkRow = ChunkRow(
    pageStart: int, pageEnd: int, text: string, tokenEstimate: Option<int>, metadataJson: string)

  datatype ChunkIdentity = ChunkIdentity(documentKey: string, chunkId: string)

  /** The columns of `chunk_fts`; also one row of the join of `chunks` and `documents`. */
  datatype FtsContent = FtsContent(
    documentKey: string, chunkId: string, source: string, title: string, body: string, pageStart: int, pageEnd: int)
  {
    function Identity(): ChunkIdentity {
      ChunkIdentity(documentKey, chunkId)
    }
  }

  datatype FtsRow = FtsRow(rowid: nat, content: FtsContent)

  datatype AssetRow = AssetRow(
    mimeType: Option<string>, sha256: Option<string>, sizeBytes: Option<int>, etag: Option<string>,
    lastModified: Option<string>, fetchedAt: Option<int>, cachePolicy: Option<string>)

  datatype Status = Queued | Running | Succeeded | Failed | Interrupted

  datatype Stage =
    | AtQueued | ResolvingSourceRecord | PlanningIngestion | DownloadingAsset | ExtractingText
    | PersistingDocument | PersistingAsset | AtSucceeded | AtFailed

  datatype JobRow = JobRow(
    id: nat, documentId: Option<nat>, source: string, sourceId: Option<string>, targetUrl: Option<string>,
    status: Status, stage: Stage, progress: real, attempts: nat,
    leaseOwner: Option<string>, leaseExpiresAt: Option<int>,
    error: Option<string>, warnings: seq<string>, updatedAt: int)

  /** Payload of an `ingestion.job.queued` message. */
  datatype OutboxRow = OutboxRow(
    jobKey: string, operation: string, source: string, sourceId: Option<string>, targetUrl: Option<string>)

  datatype Db = Db(
    documents: map<string, DocumentRow>,      // by document_key
    pages: map<(nat, int), PageRow>,          // by document_id, page_number
    chunks: map<(nat, string), ChunkRow>,     // by document_id, chunk_id
    fts: seq<FtsRow>,                         // in rowid order
    assets: map<(nat, string, AssetRole), AssetRow>,
    jobs: map<string, JobRow>,                // by job_key
    outbox: seq<OutboxRow>,
    nextDocumentId: nat,
    nextJobId: nat)

  const EMPTY_DB: Db := Db(map[], map[], map[], [], map[], map[], [], 1, 1)

  datatype StoreError =
    | ConstraintViolation(what: string)
    | InvalidDocumentKey(key: string)
    | InvalidJson(field: string, text: string)
    | InvalidIngestionJobProgress(progress: real)
    | InvalidIngestionJobState(jobKey: string)
    | InvalidPageRange
    | MissingDocument(key: string)
    | MissingIngestionJob(jobKey: string)
    | MissingPages(documentId: nat, pageStart: nat, pageEnd: nat)
    | NoCanonicalChunk(identity: ChunkIdentity)
}
