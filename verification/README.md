# A model of the document ingestion store and its repair tools

This project models the local ingestion pipeline of a document search server and proves what it
keeps. The server holds everything in one SQLite database plus a directory of files:

- **Jobs and executors.** Ingestion jobs are rows with a status, a stage, a lease and a list of
  warnings. Any number of executors claim them, walk a fixed list of stages, write documents, pages,
  chunks, index rows and assets in several separate transactions, and may be cancelled at nine
  checkpoints, lose their lease, or die between any two statements.
- **The search index.** `chunk_fts` repeats the join of `chunks` and `documents`. A detector reports
  drift, a planner turns reports into actions, and an applier rewrites rows in one transaction.
- **Derived files.** Text files repeat the stored pages. They have a detector, a planner and an
  applier too, but the applier works on a file system and can stop half way.
- **Text.** Form-feed text becomes numbered pages, pages become chunks, chunks become index bodies.
- **Downloads.** Assets come through an HTTP cache over a content-addressed file store; around it
  stand an HTML element scanner, a paginated search and the background worker's control loop.

## How the model is built

The database is a value, `Database.Db`, with one map or sequence per table and the UNIQUE and CHECK
constraints of `src/store/migrations/001_initial.sql`. Each SQL statement or transaction is one
function on it (`Documents`, `Jobs`, `FtsRepair`), `StoreRuns.StoreOp` lists them, and
`StoreRuns.Next` takes one step. `SqliteStore.Store` is the store object: its methods update table
fields and are proved to take exactly those steps. `Executor` gives an executor as a process that
issues one statement per step; a system is a database with any number of processes, and a run is any
sequence of steps, starts, crashes, enqueues and repairs. `ExecutorRun.QueuedIngestionExecutor` is
the same executor as the method it is, over the store object, proved to do what the process does.
Files are a map from paths to nodes; `ArtifactRepair.FileTree` records every state it passes through,
because each is a place to crash.

Results are stated a second time in the terms a caller sees, so that no building block vouches for
itself: table columns (`StoredText`, `JobColumns`), page lines and chunk texts (`Layout`,
`ChunkTexts`), header directives and cache rows (`CacheControl`, `CacheHistory`), the entries, words
and order of reports and plans (`FtsReports`, `ArtifactSays`), and the characters of tags (`HtmlTags`).

Timestamps are integers, progress is a real number, and page texts are strings encoded to bytes by
`Utf8`. What adapters, downloads, extraction and other processes answer is an input of the step in
which they are asked.

## What the proofs found

- **The asset half of "persist before complete" needs more than a lease.** Every succeeded job is
  linked to a stored document with pages, chunks and index rows, whatever the owner names. The document
  is sure to have its asset row exactly when live executors have distinct owner names or the planner can
  name at most one document for each job (`ExecutorOverlap.AssetsAreSafeIff`). Otherwise, for any job and
  any two of its documents, two workers of one name have a run that ends in a succeeded job whose
  document has no asset (`ExecutorOverlap.SharedOwnerLosesAsset`). The production worker always uses one
  constant name (src/ingest/worker.rs:121).
- **No warning is safe under a shared owner name.** Recording a warning reads the list, writes it back
  and checks the lease in three statements, and the check looks at the owner's name only. A succeeded job
  is sure to have its warnings exactly when live executors have distinct owner names or there are none to
  lose (`ExecutorLostWarnings.WarningsAreSafeIff`). Otherwise, for any job and any list of warnings, two
  executors of one name have a run that ends in a succeeded job without a single one
  (`ExecutorLostWarnings.WarningsCanBeLost`).
- **A repair can lose an orphan.** Temporary files are named by process id and a counter that starts
  again with the process. A leftover of a crash under the same process id is an orphan in the next
  report and overwritten by the repair that follows (`ArtifactLeftover.LeftoverVanishes`). Every other
  orphan stays: all do exactly when none bears a name the repair will use
  (`ArtifactTheorems.OrphansStayIff`). Success and current files do not depend on it
  (`ArtifactTheorems.RepairAfterCrash`).
- **Unreported totals repeat the last page.** When the search API reports no total, following the
  cursors yields every record once if and only if the limit divides the number of records
  (`Pagination.UntoldSearchIsExactIff`): offsets are turned into page numbers by division, so the
  offset after a short last page leads back into that page.
- **Cache keys rely on what sources contain.** Whatever URLs are accepted, requests of two sources can
  share a key exactly when one source continues the other with a separator and the start of such a URL,
  or with half a separator (`CacheKeys.SourcesCollideIff`); sources without NUL never do
  (`CacheKeys.PreimageInjective`).
- **Page numbers that agree modulo 2^32 claim one derived file** (`ArtifactPages.CollidingPagesShareAFile`),
  so all files of a document can be right at once exactly when such pages have one text
  (`ArtifactPages.CurrentAtOnceIff`). A number that truncates to 0 makes every repair of the document fail
  (`ArtifactPages.PageZeroIsRefused`). The pipeline writes 32-bit numbers; only a direct caller of
  `replace_pages_and_chunks`, whose page numbers have 64 bits, can store such ones.
- The schema allows the status `cancelled`, but no statement ever writes it.

## Model

| member | source | states |
|---|---|---|
| `Chunking.ChunkPages` | src/ingest/chunk.rs:46-77 | The one-pass loop returns the greedy grouping, or the error for an empty list or a page number 0 |
| `Chunking.GreedyIsValid` | src/ingest/chunk.rs:57-71 | The groups are contiguous, cover the page list, and each is one page or fits the target |
| `Chunking.ChunkingIsOptimal` | src/ingest/chunk.rs:46-77 | No division of the pages into single pages and fitting blocks has fewer blocks than the greedy one |
| `Chunking.ChunkWithinTarget` | src/ingest/chunk.rs:79-104 | The token estimate of a chunk is at most the target unless the chunk is one page |
| `Chunking.ChunkingKeepsWords` | src/ingest/chunk.rs:79-100 | The words of the chunk texts are the words of the pages, in order |
| `Chunking.ChunksTile` | src/ingest/chunk.rs:79-100 | For consecutive pages the chunk ranges follow each other without gap or overlap from first to last page |
| `Chunking.ChunkIdsDistinct` | src/ingest/chunk.rs:92-96 | Chunk ids of one run never repeat |
| `ChunkTexts.ChunksHoldTheirPages` | src/ingest/chunk.rs:79-104 | A chunk's text is the trimmed texts of exactly the pages of its range, blank ones left out, with an empty line between each two; its estimate is the number of its words, at least 1 |
| `ChunkTexts.ChunkIdsCount` | src/ingest/chunk.rs:92-96 | Chunk i is called `chunk-` and the number i + 1 in at least four digits |
| `PageExtraction.ExtractionKeepsWords` | src/ingest/pdf.rs:116-151 | The kept pages hold exactly the words of the raw text in order, and extraction fails exactly when there are none |
| `PageExtraction.ExtractionKeepsPages` | src/ingest/pdf.rs:116-142 | The kept pages are consecutive physical pages with their numbers in 32 bits and the lines of those pages; the pages cut off are blank, the first and the last kept are not |
| `PageExtraction.NormalizeKeepsLines` | src/ingest/pdf.rs:144-151 | Line i of a page's text is line k + i of the raw page without trailing whitespace, the first also without leading whitespace; all other raw lines are blank, and neither end of the text is |
| `Layout.SplitIs` | src/ingest/pdf.rs:116-124 | The pieces of a split hold no separator and, with one between each two, are the text |
| `Layout.SpacesListed` | src/ingest/pdf.rs:144-151 | What trimming takes for whitespace is the 25 code points of the Unicode property |
| `PageExtraction.PhysicalNumbers` | src/ingest/pdf.rs:116-124 | Below 2^32 pages the numbers count on from the first kept physical page and are never 0 |
| `PageExtraction.WordsSurviveIngestion` | src/ingest/pdf.rs:116-151 | The words of the chunk texts are those of the raw form-feed text |
| `PageExtraction.RangesTilePhysicalPages` | src/ingest/pdf.rs:116-142 | What is extracted from text with fewer than 2^32 pages chunks, and its ranges tile the physical pages kept |
| `PageExtraction.ExtractionWarnsIff` | src/ingest/pdf.rs:153-183 | One warning for blank pages and one when pages with text average below 40 visible characters, in this order and no other |
| `Ingestion.IngestExtractedText` | src/ingest/pipeline.rs:101-169 | Chunk, upsert, replace on the store object; each error leaves what the code leaves |
| `Ingestion.IngestSucceedsIff` | src/ingest/pipeline.rs:101-169 | Text with fewer than 2^32 pages has pages to ingest exactly when it has words; they are ingested exactly when the row is accepted and chunk sizes fit, and a refusal writes nothing |
| `Ingestion.ReplaceAccepts` | src/ingest/pipeline.rs:109-161 | The second transaction never refuses consecutive pages |
| `StoredText.IngestedTables` | src/ingest/pipeline.rs:101-169 | After ingestion the document row says the input, the page rows are the pages, the chunk rows the chunks and the index rows in rowid order the chunks again, each column compared by itself |
| `StoredText.IngestedRowsTile` | src/ingest/pipeline.rs:109-161 | The index rows of an ingested document, in rowid order, tile the pages from the first to the last; each reads as the pages of its range, and its chunk row has the same text and range and counts its words |
| `StoredText.PagesReadBack` | src/store/sqlite.rs:391-431 | After ingesting form-feed text, a range is read exactly when text stands at or before its first and at or after its last page, and each page read has its number, the source and the lines of that physical page |
| `StoredText.IndexHoldsTheWords` | src/ingest/pipeline.rs:101-169 | After ingestion the words of the document's index bodies in rowid order are the words of the raw text |
| `Documents.ReplaceMeaning` | src/store/sqlite.rs:538-613 | After the transaction the document's pages and chunks are exactly the inputs, column by column, each chunk indexed, and nothing else changed |
| `Documents.ReplaceSucceedsIff` | src/store/sqlite.rs:538-613 | A replacement is taken exactly for a known document with positive page numbers, ranges in order, object-like warnings and no number or chunk id twice |
| `Documents.UpsertMeaning` | src/store/sqlite.rs:297-351 | A row is taken exactly when its metadata is framed like an object, its key is neither the public nor the source id and no other document has its ids; then the columns are the input, and every other row is as it was |
| `Documents.UpsertKeepsTables` | src/store/sqlite.rs:297-351 | An upsert keeps the index in bijection with the chunks and makes at most its own document stale |
| `Documents.ReplaceKeepsTables` | src/store/sqlite.rs:538-613 | A replacement keeps the bijection and makes its document fresh again |
| `SqliteStore.Store.UpsertDocument` | src/store/sqlite.rs:297-351 | The method takes the upsert step, returns the row, and names the error when it is refused |
| `SqliteStore.Store.ReplacePagesAndChunks` | src/store/sqlite.rs:538-613 | The loops over a copy of the tables commit the whole replacement or nothing |
| `SqliteStore.Store.GetPageText` | src/store/sqlite.rs:391-431 | Exactly pages start..=end in order, or an error when the range is invalid or a page is missing |
| `SqliteStore.Store.AddAsset` | src/store/sqlite.rs:433-475 | One asset row per document, URL and role; an unknown document is an error |
| `SqliteStore.Store.CreateIngestionJob` | src/store/sqlite.rs:477-520 | A new key gets a row and an outbox message; an existing key changes nothing and returns its row |
| `SqliteStore.Store.SelectNextClaim` | src/ingest/jobs.rs:30-74 | The scan finds the first claimable row: queued before interrupted before expired, within a status the one touched longest ago, then the smallest id |
| `SqliteStore.Store.ClaimNextIngestionJob` | src/ingest/jobs.rs:30-74 | Claims that row for the lease, or nothing when none is claimable |
| `SqliteStore.Store.ClaimIngestionJob` | src/ingest/jobs.rs:76-124 | Succeeds exactly for a claimable row or the present holder, and says why not otherwise |
| `SqliteStore.Store.MarkIngestionJobStage` | src/ingest/jobs.rs:126-147 | Updates stage and progress for the holder only; anyone else gets an error and changes nothing |
| `SqliteStore.Store.RecordIngestionJobWarning` | src/ingest/jobs.rs:149-176 | Appends a warning that is not there yet, for the holder only |
| `SqliteStore.Store.RecordIngestionJobError` | src/ingest/jobs.rs:178-196 | Sets the error text for the holder only |
| `SqliteStore.Store.LinkIngestionJobDocument` | src/ingest/jobs.rs:198-225 | The link statement and the read that decides its result |
| `SqliteStore.LinkOutcome` | src/ingest/jobs.rs:198-225 | Linking succeeds exactly for the holder and a stored document, and then links that document |
| `SqliteStore.Store.FinishIngestionJob` | src/ingest/jobs.rs:317-374 | Ok exactly when the status already matches or the caller holds the job; an error changes nothing |
| `Jobs.NextClaimMeaning` | src/ingest/jobs.rs:30-74 | A job is chosen exactly when one is claimable, and it is first in the order |
| `Jobs.NextClaimUnique` | src/ingest/jobs.rs:30-74 | The order leaves no choice which |
| `Jobs.NextClaimOrder` | src/ingest/jobs.rs:51-63 | The job chosen is queued if any is, else interrupted if any is, else one whose lease ran out; within its status none was touched earlier, and none at the same time has a smaller id |
| `JobColumns.ColumnsAreLastWritten` | src/ingest/jobs.rs:30-374 | Over every run each column of a job row, the stage among them, is what the last statement that took effect and writes it wrote; the columns of the request never change, and attempts count the claims that are no renewals |
| `JobColumns.CreateWrites` | src/store/sqlite.rs:477-520 | Creating adds one fresh row under a new id and one message that say what was asked for, column by column; a known key changes nothing |
| `JobColumns.JobsCarryTheirRequest` | src/store/sqlite.rs:477-520 | Every job of a run goes back to the first create statement for its key; its row and its one message carry that request for good |
| `StoreRuns.RunKeepsInvariants` | src/store/sqlite.rs:297-613 | Over every sequence of statements: chunks and index rows stay in bijection with equal body and range, only documents upserted since their last replacement may be stale, job rows are well-formed and outbox messages match jobs |
| `StoreRuns.RepairKeepsAgreement` | src/index/reconcile_repair.rs:73-147 | An index repair keeps that bijection and writes only canonical rows |
| `LeaseProtocol.RowStep` | src/ingest/jobs.rs:30-374 | A statement changes a job row by claiming it or by a guarded update and in no other way |
| `LeaseProtocol.TerminalIsAbsorbing` | src/ingest/jobs.rs:317-374 | Succeeded and failed rows never change again, in any run |
| `LeaseProtocol.AttemptsCountClaims` | src/ingest/jobs.rs:30-124 | Attempts count the claims of a run that are not renewals |
| `LeaseProtocol.ProgressIsHighestMark` | src/ingest/jobs.rs:126-147 | Progress never falls, is the highest mark of the run, and is 1 on completion |
| `LeaseProtocol.LosingStep` | src/ingest/jobs.rs:30-374 | An owner stops holding a job only by finishing it or by a takeover after expiry |
| `LeaseProtocol.OwnershipPasses` | src/ingest/jobs.rs:30-124 | Between two owners of a run lies a release by the first or the expiry of its lease |
| `LeaseProtocol.FencedOwnerIsHarmless` | src/ingest/jobs.rs:301-374 | Once another owner holds the job, every guarded call of the old owner leaves the row alone and errs, except a finish, which answers Ok exactly when the job has that status at its end, or for an interruption at one of its reads |
| `FtsDrift.VerdictMeaning` | src/index/reconcile.rs:78-141 | No issue exactly for one matching row, Missing exactly for none, Stale otherwise |
| `FtsTool.ReconcileIndex` | src/index/reconcile.rs:54-169 | The loops over maps return the sorted list of issues, whatever the order of visiting rows |
| `FtsTool.Judge` | src/index/reconcile.rs:78-141 | The branches of the loop body give that verdict |
| `FtsTool.PlanRepairs` | src/index/reconcile_repair.rs:34-71 | The planning loop with its set of planned identities |
| `FtsTool.ApplyRepairPlan` | src/index/reconcile_repair.rs:73-101 | The transaction commits every rewrite or, on an unknown chunk, nothing |
| `FtsTool.RepairIndex` | src/mcp/fts_repair.rs:67-88 | Report, plan and apply always succeed, skip nothing, account for every issue, and leave the orphans of the first report as the next report |
| `FtsTheorems.ReportEmptyIffIndexIsJoin` | src/index/reconcile.rs:54-169 | The report is empty exactly when the multiset of index rows is the join |
| `FtsTheorems.ReportCounts` | src/index/reconcile.rs:78-155 | At most one Missing or Stale issue per chunk, and one issue per orphan row |
| `FtsReports.ReportSays` | src/index/reconcile.rs:54-169 | An issue is listed exactly when it is the entry of a chunk whose rows are not one row that repeats it, in the words that fit and with the columns that differ, or the entry of a row without a chunk |
| `FtsReports.ReportIsOrdered` | src/index/reconcile.rs:156-169 | Reports are ordered by document key, chunk id, Missing before Orphaned before Stale, and text; strings by their first difference |
| `FtsReports.PlanSays` | src/index/reconcile_repair.rs:34-71 | An action is planned exactly when an orphan calls for its review or the first other issue of an identity for its rewrite, each once, for the reason the issue gives |
| `FtsReports.PlanIsOrdered` | src/index/reconcile_repair.rs:63-69 | Plans are ordered by document key, chunk id, rewrites first, and reason |
| `FtsTheorems.PlanMeaning` | src/index/reconcile_repair.rs:34-71 | A rewrite is planned for exactly the identities with an issue |
| `FtsTheorems.FreshPlanApplies` | src/index/reconcile_repair.rs:73-147 | A fresh plan goes through, skips nothing, and makes every chunk current |
| `FtsTheorems.RepairConverges` | src/index/reconcile_repair.rs:34-147 | Reporting again returns exactly the Orphaned issues of the first report, in order |
| `FtsTheorems.RepairIsIdempotent` | src/index/reconcile_repair.rs:73-147 | Applying the same plan again rewrites nothing and changes nothing |
| `FtsTheorems.CountsAddUp` | src/mcp/fts_repair.rs:79-88 | Issues equal rewritten plus manual, with none skipped |
| `FtsRepair.ApplySucceedsIff` | src/index/reconcile_repair.rs:110-175 | A plan goes through exactly when every rewrite names a stored chunk |
| `FtsRepair.ApplyMeaning` | src/index/reconcile_repair.rs:73-147 | After any plan: planned identities current, all others and all orphans as they were, every action counted once |
| `Executor.EveryStepMoves` | src/ingest/executor.rs:118-363 | A run moves one stage at a time or out of it, and each later stage is entered only from the statement that earns it |
| `ExecutorStages.HolderFindsItsStage` | src/ingest/executor.rs:204-351 | In every run with distinct live owners, an executor that still holds its job finds in the row the stage it marked last, by name, and at least its progress; on the first attempt exactly that |
| `ExecutorAnswers.InterruptedIff` | src/ingest/executor.rs:184-363 | A run is interrupted exactly at a checkpoint that sees the cancellation with the lease still held, and the reason names the checkpoint |
| `ExecutorAnswers.AssetRowsAreDownloads` | src/ingest/executor.rs:326-351 | In every run each new asset row repeats a download of the run, under its URL and role, with its columns, for the document it was downloaded for |
| `ExecutorRun.QueuedIngestionExecutor.RunNext` | src/ingest/executor.rs:118-182 | The method leaves the store where the process takes it; the next claimable job ends succeeded after Ok, interrupted after a cancellation and failed after any other error |
| `ExecutorRun.QueuedIngestionExecutor.RunAndFinish` | src/ingest/executor.rs:140-181 | The claimed job is completed, interrupted or failed according to how it went, and finishing it cannot fail while no other executor intervenes |
| `ExecutorRun.QueuedIngestionExecutor.ExecuteClaimedJob` | src/ingest/executor.rs:184-363 | The stages in order, each only after the one before succeeded |
| `ExecutorRun.QueuedIngestionExecutor.MarkStage` | src/ingest/executor.rs:204-211 | A stage mark and the check that the lease is still held |
| `ExecutorRun.QueuedIngestionExecutor.PersistText` | src/ingest/executor.rs:278-300 | The checkpoint before persistence, then the two transactions of an ingestion |
| `ExecutorRun.QueuedIngestionExecutor.RecordWarnings` | src/ingest/executor.rs:321-323 | The loop records the extraction's warnings in order until the lease is lost |
| `ExecutorRun.QueuedIngestionExecutor.PersistAsset` | src/ingest/executor.rs:326-351 | The last checkpoint, then the asset row of the document just linked |
| `ExecutorReach.LeadsCan` | src/ingest/executor.rs:118-182 | Such a stretch of steps is a run of the whole system in which the others stand still, under any rule that admits its answers |
| `ExecutorPaths.LeadsHolds` | src/ingest/executor.rs:184-363 | By its own steps alone an executor never loses its job before the statement that finishes it |
| `ExecutorSafety.SucceededIsPersisted` | src/ingest/executor.rs:129-181 | In every run of any executors a succeeded job is linked to a document with a page, a chunk, and an index row for each chunk |
| `ExecutorAssets.SucceededHasPlannedAsset` | src/ingest/executor.rs:326-351 | With one planned document key per job, that document has an asset row |
| `ExecutorAssets.SucceededHasOwnAsset` | src/ingest/executor.rs:326-351 | With distinct live owner names, that document has an asset row |
| `ExecutorOverlap.AssetsAreSafeIff` | src/ingest/executor.rs:326-351 | Over all runs, a succeeded job's document is sure to have an asset row exactly when live owners are distinct or the planner can name at most one document for each job |
| `ExecutorOverlap.SharedOwnerLosesAsset` | src/ingest/worker.rs:114-133 | For any job and any two documents the planner can name: a run of two workers under one name from the empty store to a succeeded job whose document has no asset |
| `ExecutorExample.PageIsExtracted` | src/ingest/pdf.rs:116-142 | The page these runs store is what the extractor makes of a text of one word |
| `ExecutorProgress.NextJobCanSucceed` | src/ingest/executor.rs:118-363 | Whatever the others are in the middle of, an idle executor that gets good answers can take the next claimable job to succeeded by its own steps |
| `Confluence.ResumeIsConfluent` | src/ingest/executor.rs:184-363 | Two runs with any crashes, cancellations and interleavings store the same pages, chunks and index contents for a document; documents they never upserted keep pages, chunks and index rows, but that an index repair may refresh a source or title |
| `Confluence.SucceededIsSettled` | src/ingest/executor.rs:184-363 | A succeeded job's document is stored exactly as planned and extracted |
| `ExecutorWarnings.SucceededHasItsWarnings` | src/ingest/executor.rs:321-323 | With distinct owners, a succeeded job's warnings are the extraction's, each once, in order of first occurrence |
| `ExecutorLostWarnings.WarningsAreSafeIff` | src/ingest/jobs.rs:149-176 | Over all runs, a succeeded job is sure to have its warnings exactly when live owners are distinct or no job has any |
| `ExecutorLostWarnings.WarningsCanBeLost` | src/ingest/worker.rs:114-133 | For any job and any warnings: a run of two workers under one name from the empty store to success with no warning at all |
| `Utf8.EncodedIsUtf8` | src/ingest/reconcile_compare.rs:29-37 | The bytes of a text are its characters in order, each in the one to four bytes that section 3 of RFC 3629 gives it |
| `FileCompare.FileComparator.Consume` | src/ingest/reconcile_compare.rs:56-75 | True exactly when the expected bytes come next, for any length around the 8192-byte buffer |
| `FileCompare.FileMatchesBytes` | src/ingest/reconcile_compare.rs:10-16 | True exactly when the file is the expected bytes |
| `FileCompare.FileMatchesRenderedPages` | src/ingest/reconcile_compare.rs:18-46 | True exactly when the file is the rendered text of the pages |
| `FileCompare.RenderDocumentText` | src/ingest/reconcile_repair_apply.rs:197-216 | The push loop builds the combined text shown for a page range, and refuses an empty list |
| `FileCompare.CombinedTextLast` | src/mcp/support.rs:156-160 | The joined text grows by a separator and one page heading with its text |
| `ArtifactReport.ParseFileName` | src/ingest/reconcile.rs:342-345 | The name written for a page parses back to that page |
| `ArtifactReport.EntryVerdict` | src/ingest/reconcile.rs:290-337 | A directory entry is no orphan exactly when its name parses to an expected page |
| `ArtifactReport.ReconcileArtifacts` | src/ingest/reconcile.rs:68-143 | Each drifted file and each orphan once, sorted, whatever order the directory is read in; an error exactly for a page directory that is not one |
| `ArtifactTheorems.ReportMeaning` | src/ingest/reconcile.rs:68-143 | An issue is listed exactly when an expected file has drifted that way or an entry is an orphan |
| `ArtifactTheorems.ReportUnique` | src/ingest/reconcile.rs:137-143 | There is one report for a state of the files |
| `ArtifactSays.ReportSays` | src/ingest/reconcile.rs:68-143 | An issue is listed exactly when an expected file, given by path and content, is absent, a directory or different, when a page directory holds an entry for no expected page, or when a combined text is left of a document without pages; each in its words |
| `ArtifactSays.ReportIsOrdered` | src/ingest/reconcile.rs:137-143 | Reports are ordered by kind, problem, path component by component, page and text |
| `ArtifactSays.PlannedIff` | src/ingest/reconcile_repair_apply.rs:126-195 | The applier writes a file exactly when it is one of the expected ones, with the content expected there |
| `ArtifactSays.PlanSays` | src/ingest/reconcile_repair.rs:35-72 | Actions answer issues one to one: a rewrite for Missing or Stale, a review with the issue's text for an orphan |
| `ArtifactSays.PlanIsOrdered` | src/ingest/reconcile_repair.rs:35-47 | Plans are ordered rewrites first, then by kind, path, page, and reason or text |
| `ArtifactSays.TempNameSays` | src/ingest/reconcile_repair_apply.rs:296-310 | A temporary name says the process id, the reason and the number in the order of writing |
| `ArtifactTheorems.TargetIsExpected` | src/ingest/reconcile_repair_apply.rs:126-195 | What the detector expects at a path is what the applier writes there |
| `ArtifactRepair.PathDetermines` | src/ingest/reconcile_repair_apply.rs:126-155 | A canonical path belongs to one kind and page only |
| `ArtifactRepair.SafeFile` | src/ingest/reconcile_repair_apply.rs:230-294 | In every state a repair passes through, a planned file is as found, absent, or holds exactly its new content |
| `ArtifactRepair.RepairSession.WriteFileAtomic` | src/ingest/reconcile_repair_apply.rs:230-260 | Directories, temporary file in any portions, remove, rename: every state on the way is safe, and success leaves exactly the new file and no temporary one |
| `ArtifactRepair.ReplaceTargetFile` | src/ingest/reconcile_repair_apply.rs:281-294 | Between removal and rename the target is absent; afterwards it is new |
| `ArtifactApply.ApplyRepairs` | src/ingest/reconcile_repair_apply.rs:57-124 | Every state on the way is safe; without a fault it succeeds exactly when every action is canonical and nothing but files lies in its way; all actions are counted once |
| `ArtifactApply.ApplyAction` | src/ingest/reconcile_repair_apply.rs:72-121 | One action: review, refuse, find current exactly when nothing is left to do, or write |
| `ArtifactTheorems.RepairConverges` | src/ingest/reconcile_repair_apply.rs:57-124 | After a fresh plan every target is current, and the next report is exactly the orphans of the first, in order, that bore no name of a temporary file of this repair |
| `ArtifactTheorems.UsedAsNamed` | src/ingest/reconcile_repair_apply.rs:296-310 | A repair uses exactly the temporary names of its planned rewrites, numbered in order |
| `ArtifactTheorems.OrphansStayIff` | src/ingest/reconcile_repair_apply.rs:296-310 | The next report is all orphans of the first exactly when none bears a temporary name that can be read off the plan, the process id and the counter beforehand |
| `ArtifactLeftover.CrashLeavesOrphan` | src/ingest/reconcile_repair_apply.rs:245-260 | From repairable files, a crash right after the first temporary file is created leaves an orphan in the report |
| `ArtifactLeftover.LeftoverVanishes` | src/ingest/reconcile_repair_apply.rs:296-310 | The repair that follows under the same process id leaves no orphan to report |
| `ArtifactTheorems.FreshPlanAccepted` | src/ingest/reconcile_repair.rs:35-72 | A fresh plan for repairable files holds no action that is refused |
| `ArtifactTheorems.FreshPlanIsNeeded` | src/ingest/reconcile_repair.rs:35-72 | No rewrite of a fresh plan finds its file already current |
| `ArtifactTheorems.CrashStateIsRepairable` | src/ingest/reconcile_repair_apply.rs:230-294 | Any state a crash can leave is repairable again, by a process of any id and with any counter |
| `ArtifactTheorems.RepairArtifacts` | src/mcp/repair.rs:82-114 | Report, plan and apply together: repairable throughout, successful without faults, every target current, each drifted file rewritten once, each orphan left for review, and only kept orphans reported next |
| `ArtifactTheorems.RepairAfterCrash` | src/mcp/repair.rs:82-114 | From every state in the history of an earlier repair, a second one of any process id and counter succeeds without faults and leaves every target current |
| `ArtifactPages.LoadDocumentPages` | src/ingest/reconcile.rs:152-190 | The stored rows of the document in page order, numbers truncated to 32 bits |
| `ArtifactPages.NumberedIff` | src/ingest/reconcile.rs:175-179 | Loaded page numbers are positive and distinct exactly when the stored ones are nonzero and pairwise distinct after truncation to 32 bits |
| `ArtifactPages.LoadedNumberIs` | src/ingest/reconcile.rs:175-179 | Negative numbers become 0, numbers of 32 bits stay, larger ones wrap around |
| `ArtifactPages.CollidingPagesShareAFile` | src/ingest/reconcile.rs:175-179 | Two pages of different text whose numbers agree modulo 2^32 have one path, and in no state of the files are both current |
| `ArtifactPages.CurrentAtOnceIff` | src/ingest/reconcile.rs:68-143 | Some state of the files has every file current exactly when pages of one 32-bit number have one text |
| `ArtifactPages.PageZeroIsRefused` | src/ingest/reconcile_repair_apply.rs:126-195 | A page whose number truncates to zero makes every plan refused until its file is right |
| `BlobStore.ContentAddressedStore.PutReader` | src/store/files.rs:87-123 | Digest, size and path belong to all bytes read; existing blobs stay; an error stores nothing under a blob name |
| `BlobStore.ContentAddressedStore.Copy` | src/store/files.rs:96-105 | The buffered loop digests, writes and counts every byte once |
| `BlobStore.BlobPathInjective` | src/store/files.rs:125-131 | Blob paths differ for different kinds or digests |
| `BlobStore.PutKeepsNames` | src/store/files.rs:107-116 | Every blob's name stays the digest of its content |
| `CacheKeys.PreimageInjective` | src/ingest/download.rs:354-361 | For NUL-free sources the digested key text determines source and URL |
| `CacheKeys.SharedIff` | src/ingest/download.rs:354-361 | Two requests share the digested text exactly when they are equal or one source takes over part of the other's URL, across a separator or half of one |
| `CacheKeys.SourcesCollideIff` | src/ingest/download.rs:354-381 | For any set of accepted URLs: two sources can share a key exactly when one continues the other with a separator and the start of an accepted URL, or with half a separator |
| `Downloads.ReadBounded` | src/ingest/download.rs:333-351 | The whole body exactly when it fits the limit, otherwise the first running total above it |
| `Downloads.AssetDownloader.DownloadHttp` | src/ingest/download.rs:254-323 | What each kind of answer becomes and what it stores, with the exact error of each refusal |
| `Downloads.AssetDownloader.Download` | src/ingest/download.rs:234-243 | Load, ask, persist: the answer to the validators loaded decides result and blobs, and only a prepared download touches the rows |
| `DownloadResults.FetchThenLoad` | src/ingest/download_persist.rs:17-178 | A fetch says what the answer said; the next request for the same source and URL starts from exactly this fetch, if and only if it respects headers, is not forced, and the fetch respected headers and no directive of its `Cache-Control` is `no-store` or `private`; other keys are unaffected |
| `DownloadResults.RevalidationKeepsRows` | src/ingest/download_persist.rs:39-99 | A revalidation succeeds exactly when the cached row names a file that is there, returns that file with the answer's validators before the row's, and leaves every row as it was |
| `CacheControl.ForbidsIff` | src/ingest/download_persist.rs:181-201 | A header forbids keeping an answer exactly when one of its comma-separated directives is `no-store` or `private`, in any letter case and with whitespace around it |
| `CacheHistory.RowsAreLastFetches` | src/store/cache.rs:52-101 | Over every run, whatever the origin answers, a key has a row exactly when the fetch persisted last under it respected headers and its header forbade nothing; the row says what that answer said |
| `Downloads.PutThenGet` | src/store/cache.rs:52-138 | A row just written is read back unless it may not be kept or has expired, and other keys read as before |
| `CacheRuns.DownloadsAreCoherent` | src/ingest/download.rs:254-323 | In any interleaving against an honest origin, a download's path holds the representation the origin had when it answered, with matching digest and size |
| `CacheRuns.AssetKeysApart` | src/ingest/download.rs:354-361 | Without digest collisions the keys of different requests differ |
| `CacheRuns.AssetDownloadsAreCoherent` | src/ingest/download.rs:245-361 | The same coherence for the keys the code computes, from collision freedom and NUL-free sources alone |
| `CacheRuns.DeliveredStays` | src/store/files.rs:112-116 | In no continuation of a run do other downloads change the bytes behind a returned path |
| `CacheRuns.MethodTakesThisStep` | src/ingest/download.rs:254-323 | What the download method does on an answer is a step of the runs |
| `HtmlElements.ScanToClose` | src/sources/cia.rs:386-413 | The loop stops just behind the event at which open minus close tags first reaches zero, and fails exactly when it never does |
| `HtmlElements.ElementFromOpenTag` | src/sources/cia.rs:380-416 | A self-closing tag is its own element; otherwise the slice up to the balancing close tag |
| `HtmlElements.ElementIsBalanced` | src/sources/cia.rs:386-416 | That slice ends in a closing tag of the same name behind the opening tag, within the text |
| `HtmlElements.EventsOrdered` | src/sources/cia.rs:388-412 | The tags the scanner counts are found left to right without overlap |
| `HtmlTags.EventsAre` | src/sources/cia.rs:386-413 | The tags counted are, one behind the other, the first place where an opening or a closing tag begins, as long as a closing tag follows; an opening tag reaches to the next `>` and counts unless it ends in `/>` |
| `HtmlTags.TagNameIff` | src/sources/cia.rs:418-428 | A tag has a name exactly when letters or digits follow `<`, `/` and whitespace, any number of each; the name is all of them in small letters |
| `HtmlTags.SelfClosingIff` | src/sources/cia.rs:380-384 | A tag closes itself exactly when it ends in `/>`, up to whitespace |
| `HtmlTags.NextTagIff` | src/sources/cia.rs:326-330 | The next tag runs from the first `<` to the first `>` behind it |
| `HtmlElements.ElementsWhere` | src/sources/cia.rs:323-362 | In order, the element of every wanted tag that has one |
| `Pagination.CursorRoundTrip` | src/sources/nara.rs:501-510 | A cursor gives back its offset as far as 64 bits reach |
| `Pagination.CursorMeaning` | src/sources/nara.rs:501-506 | A cursor is read as the offset it names; whatever names none means the start |
| `Pagination.PageOfOffset` | src/sources/nara.rs:512-518 | The page asked for is the one that holds the record at the offset; without a limit it is the first |
| `Pagination.SearchIsExact` | src/sources/nara.rs:168-209 | With a reported total, following the cursors asks for pages 1, 2, 3, .. ceil(total / limit) and returns every record once in order |
| `Pagination.NothingToFind` | src/sources/nara.rs:185-192 | An empty result is one request and no cursor |
| `Pagination.UntoldSearchIsExactIff` | src/sources/nara.rs:168-209 | Without a reported total every record comes once if and only if the limit divides the total |
| `Worker.RunUntilShutdown` | src/ingest/worker.rs:135-176 | A kick once taken is followed by kicks, a run or shutdown and nothing else; it waits only after a run with nothing to do; shutdown ends it; otherwise every iteration runs |
| `Worker.KickIsAnswered` | src/ingest/worker.rs:135-176 | After a kick come only kicks until a run or the end |
| `Worker.Control.ShutdownRequested` | src/ingest/worker.rs:226-234 | Drains kicks up to the first shutdown and ends because the commands are finite |
| `Worker.Control.WaitForNextIteration` | src/ingest/worker.rs:236-245 | A command that is there ends the wait; a timeout means there was none |

## Left out

- HTTP transport, redirects and URL parsing: the behaviour lives in libraries; answers of the origin are inputs, and coherence is stated for downloads without redirects.
- External processes (`pdftotext`, `ocrmypdf`) and the choice between embedded text and OCR: extraction gives pages and warnings, an error, or a cancellation.
- SQLite itself, ranking, snippets and match expressions: each statement or transaction is atomic and either commits or leaves the tables alone.
- SHA-256: an arbitrary function; collision freedom is assumed only for the byte strings of the run in question.
- Tool plumbing, JSON output, configuration, and the `next_action` texts of job rows, which no statement reads back.
- The other source adapters, and JSON walks and record mapping of the modelled ones.
- Document lookup by public id or key: the model starts from the document's id or key.
- `SqliteStore.Store.AddAsset`: the id of the asset row it returns, and everywhere the columns that only record when a row was written.
- The executor's error texts: a failed job carries one fixed text per kind of failure where the code formats the error.
- `ExecutorRun.QueuedIngestionExecutor.RunNext`: the future is run to its end without other executors in between; interleavings and crashes are the business of the process form in `Executor`.
- The HTTP cache table is kept apart from the executor's database, whose statements never read it.
- Read errors while comparing or listing derived files; write errors are modelled at every primitive.
- Which URLs the URL parser accepts: a parameter of `CacheKeys`.
- The type that admits only safe document keys: document keys are any strings here.
- Executor runs hold no claim by job key and no ingestion outside a job, which no shipped component but the library interface issues; `StoreRuns` and `LeaseProtocol` cover those statements.
- `CacheRuns.DownloadsAreCoherent`: storing a blob is one atomic step, because two writers of one name write equal content.
- `Worker.RunUntilShutdown`: bounded by the number of run outcomes it is given, since a loop without end has no final state.
- The u32 sum in the page-range check cannot overflow, as page numbers start at 1; numbers are unbounded here.
