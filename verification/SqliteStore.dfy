/** The store object: tables that its methods update in place (src/store/sqlite.rs, src/ingest/jobs.rs). */
module SqliteStore {
  import opened Wrappers
  import opened Database
  import opened Ordering
  import opened Jobs
  import opened StoreRuns
  import Documents

  datatype StoredPageText = StoredPageText(pageNumber: int, text: string, textSource: TextSource)

  lemma {:induction false} ClaimNextIs(db: Db, lease: Lease, first: Option<string>)
    requires first == NextClaim(db, lease.now)
    ensures first.None? ==> Next(db, ClaimNextJob(lease)) == db
    ensures first.Some? && first.value in db.jobs ==>
              Next(db, ClaimNextJob(lease))
              == SetJob(db, first.value, ClaimedRow(db.jobs[first.value], lease, db.jobs[first.value].attempts + 1))
  {
  }

  /** The read that decides what linking returns. */
  function LinkResult(db: Db, jobKey: string, owner: string, documentKey: string): Result<JobRow, StoreError> {
    var row :- RequireRunning(db, jobKey, owner);
    if row.documentId.None? then Err(MissingDocument(documentKey)) else Ok(row)
  }

  /** Linking succeeds exactly for the holder and a stored document, and then links that document. */
  lemma {:induction false} LinkOutcome(db: Db, jobKey: string, owner: string, documentKey: string, now: int)
    ensures
      var after := Next(db, UpdateJob(jobKey, owner, Link(documentKey), now));
      var r := LinkResult(after, jobKey, owner, documentKey);
      && (r.Ok? <==> RequireRunning(db, jobKey, owner).Ok? && documentKey in db.documents)
      && (r.Ok? ==> r.value.documentId == Some(db.documents[documentKey].id))
      && (RequireRunning(db, jobKey, owner).Err? ==> after == db)
  {
  }

  lemma {:induction false} ClaimableIs(row: JobRow, lease: Lease)
    ensures ClaimableByKey(row, lease) <==>
              CanBeClaimed(row, lease.now) || (row.status == Running && row.leaseOwner == Some(lease.owner))
  {
  }

  lemma {:induction false} ClaimKeepsKeys(db: Db, jobKey: string, lease: Lease)
    ensures Next(db, ClaimJob(jobKey, lease)).jobs.Keys == db.jobs.Keys
  {
  }

  lemma {:induction false} FinishIs(db: Db, jobKey: string, owner: string, update: JobUpdate, now: int)
    requires jobKey in db.jobs && update.Finishes() && db.jobs[jobKey].status != update.FinalStatus()
    ensures
      var after := Next(db, UpdateJob(jobKey, owner, update, now));
      && jobKey in after.jobs
      && (after.jobs[jobKey].status == update.FinalStatus() <==> HeldBy(db.jobs[jobKey], owner))
      && (!HeldBy(db.jobs[jobKey], owner) ==> after == db)
  {
  }

  /** What reading a page range returns: the pages from start to end in order, or why it cannot. */
  ghost predicate ReadsPages(
    table: map<(nat, int), PageRow>, documentId: nat, pageStart: nat, pageEnd: nat,
    r: Result<seq<StoredPageText>, StoreError>)
  {
    if pageStart == 0 || pageEnd < pageStart then r == Err(InvalidPageRange)
    else if exists n :: pageStart <= n <= pageEnd && (documentId, n) !in table then
      r == Err(MissingPages(documentId, pageStart, pageEnd))
    else
      && r.Ok? && |r.value| == pageEnd - pageStart + 1
      && forall i :: 0 <= i < |r.value| ==>
           && (documentId, pageStart + i) in table
           && r.value[i].pageNumber == pageStart + i
           && r.value[i].text == table[(documentId, pageStart + i)].text
           && r.value[i].textSource == table[(documentId, pageStart + i)].textSource
  }

  class Store {
    var documents: map<string, DocumentRow>
    var pages: map<(nat, int), PageRow>
    var chunks: map<(nat, string), ChunkRow>
    var fts: seq<FtsRow>
    var assets: map<(nat, string, AssetRole), AssetRow>
    var jobs: map<string, JobRow>
    var outbox: seq<OutboxRow>
    var nextDocumentId: nat
    var nextJobId: nat

    function View(): Db
      reads this
    {
      Db(documents, pages, chunks, fts, assets, jobs, outbox, nextDocumentId, nextJobId)
    }

    ghost predicate Valid()
      reads this
    {
      DbOk(View())
    }

    constructor ()
      ensures Valid() && View() == EMPTY_DB
    {
      documents, pages, chunks, fts := map[], map[], map[], [];
      assets, jobs, outbox := map[], map[], [];
      nextDocumentId, nextJobId := 1, 1;
      new;
      EmptyDbOk();
    }

    method UpsertDocument(document: Documents.UpsertDocument) returns (r: Result<DocumentRow, StoreError>)
      requires Valid()
      modifies this
      ensures Valid() && View() == Next(old(View()), StoreOp.UpsertDocument(document))
      ensures r.Ok? <==> Documents.Upsert(old(View()), document).Ok?
      ensures r.Ok? ==> document.documentKey in documents && r.value == documents[document.documentKey]
      ensures r.Err? ==> r.error == Documents.Upsert(old(View()), document).error
    {
      StepKeepsDb(View(), StoreOp.UpsertDocument(document));
      if !Documents.Bracketed(document.metadataJson, '{', '}') {
        return Err(InvalidJson("metadata_json", document.metadataJson));
      }
      if document.publicId == document.documentKey || document.sourceId == document.documentKey {
        return Err(InvalidDocumentKey(document.documentKey));
      }
      if Documents.TakenByAnother(View(), document) {
        return Err(ConstraintViolation("documents"));
      }
      WriteDocument(document);
      return Ok(documents[document.documentKey]);
    }

    /** INSERT .. ON CONFLICT(document_key) DO UPDATE. */
    method WriteDocument(document: Documents.UpsertDocument)
      modifies this`documents, this`nextDocumentId
      ensures View() == Documents.WriteDocument(old(View()), document)
    {
      if document.documentKey in documents {
        documents := documents[document.documentKey := Documents.RowOf(documents[document.documentKey].id, document)];
      } else {
        documents := documents[document.documentKey := Documents.RowOf(nextDocumentId, document)];
        nextDocumentId := nextDocumentId + 1;
      }
    }

    /** One transaction: the new tables are built aside and committed only when every row went in. */
    method ReplacePagesAndChunks(
      documentKey: string, newPages: seq<Documents.PageInput>, newChunks: seq<Documents.ChunkInput>)
      returns (r: Result<(), StoreError>)
      requires Valid()
      modifies this
      ensures Valid() && View() == Next(old(View()), StoreOp.ReplacePagesAndChunks(documentKey, newPages, newChunks))
      ensures r == match Documents.Replace(old(View()), documentKey, newPages, newChunks)
                   case Ok(_) => Ok(())
                   case Err(error) => Err(error)
    {
      StepKeepsDb(View(), StoreOp.ReplacePagesAndChunks(documentKey, newPages, newChunks));
      if documentKey !in documents {
        return Err(MissingDocument(documentKey));
      }
      var doc := documents[documentKey];
      var pageResult := InsertPageRows(Documents.PagesWithout(View(), doc.id), doc.id, newPages);
      if pageResult.Err? {
        return Err(pageResult.error);
      }
      var tableResult := InsertChunkRows(
        Documents.Indexed(Documents.ChunksWithout(View(), doc.id), Filter(fts, Documents.NotOf(documentKey))),
        documentKey, doc, newChunks);
      if tableResult.Err? {
        return Err(tableResult.error);
      }
      pages := pageResult.value;
      chunks, fts := tableResult.value.chunks, tableResult.value.fts;
      return Ok(());
    }

    method InsertPageRows(table: map<(nat, int), PageRow>, id: nat, newPages: seq<Documents.PageInput>)
      returns (r: Result<map<(nat, int), PageRow>, StoreError>)
      ensures r == Documents.InsertPages(table, id, newPages)
    {
      var rows := table;
      assert newPages[0..] == newPages;
      for i := 0 to |newPages|
        invariant Documents.InsertPages(table, id, newPages) == Documents.InsertPages(rows, id, newPages[i..])
      {
        var page := newPages[i];
        assert newPages[i..][0] == page && newPages[i..][1..] == newPages[i + 1..];
        if !Documents.Bracketed(page.warningsJson, '[', ']') {
          return Err(InvalidJson("warnings_json", page.warningsJson));
        }
        if page.pageNumber <= 0 || (id, page.pageNumber) in rows {
          return Err(ConstraintViolation("pages"));
        }
        rows := rows[(id, page.pageNumber) := Documents.PageRowOf(page)];
      }
      return Ok(rows);
    }

    method InsertChunkRows(
      tables: Documents.Indexed, documentKey: string, doc: DocumentRow, newChunks: seq<Documents.ChunkInput>)
      returns (r: Result<Documents.Indexed, StoreError>)
      ensures r == Documents.InsertChunks(tables, documentKey, doc, newChunks)
    {
      var rows := tables;
      assert newChunks[0..] == newChunks;
      for i := 0 to |newChunks|
        invariant Documents.InsertChunks(tables, documentKey, doc, newChunks)
               == Documents.InsertChunks(rows, documentKey, doc, newChunks[i..])
      {
        var chunk := newChunks[i];
        assert newChunks[i..][0] == chunk && newChunks[i..][1..] == newChunks[i + 1..];
        if !Documents.Bracketed(chunk.metadataJson, '{', '}') {
          return Err(InvalidJson("metadata_json", chunk.metadataJson));
        }
        if chunk.pageStart <= 0 || chunk.pageEnd < chunk.pageStart || (doc.id, chunk.chunkId) in rows.chunks {
          return Err(ConstraintViolation("chunks"));
        }
        var row := Documents.ChunkRowOf(chunk);
        rows := Documents.Indexed(
          rows.chunks[(doc.id, chunk.chunkId) := row],
          rows.fts + [FtsRow(Documents.NextRowid(rows.fts),
                             Documents.IndexContent(documentKey, doc, chunk.chunkId, row))]);
      }
      return Ok(rows);
    }

    method AddAsset(asset: Documents.AssetInput) returns (r: Result<(), StoreError>)
      requires Valid()
      modifies this
      ensures Valid() && View() == Next(old(View()), StoreOp.AddAsset(asset))
      ensures r.Ok? <==> asset.documentKey in old(documents)
      ensures r.Ok? ==>
                assets == old(assets)[(documents[asset.documentKey].id, asset.assetUrl, asset.role) := asset.row]
      ensures r.Err? ==> r.error == MissingDocument(asset.documentKey)
    {
      StepKeepsDb(View(), StoreOp.AddAsset(asset));
      if asset.documentKey !in documents {
        return Err(MissingDocument(asset.documentKey));
      }
      assets := assets[(documents[asset.documentKey].id, asset.assetUrl, asset.role) := asset.row];
      return Ok(());
    }

    /**
     `SELECT .. BETWEEN .. ORDER BY page_number`, then the row count decides.  Counting is enough:
     distinct numbers within the range reach its length only when none is missing.
     */
    method GetPageText(documentId: nat, pageStart: nat, pageEnd: nat)
      returns (r: Result<seq<StoredPageText>, StoreError>)
      ensures ReadsPages(pages, documentId, pageStart, pageEnd, r)
    {
      if pageStart == 0 || pageEnd == 0 || pageStart > pageEnd {
        return Err(InvalidPageRange);
      }
      var rows: seq<StoredPageText> := [];
      ghost var gap: int := pageStart;
      for n := pageStart to pageEnd + 1
        invariant pageStart <= gap <= n
        invariant forall m :: pageStart <= m < gap ==> (documentId, m) in pages
        invariant gap < n ==> (documentId, gap) !in pages && |rows| < n - pageStart
        invariant |rows| >= gap - pageStart
        invariant gap == n ==> |rows| == n - pageStart
        invariant |rows| <= n - pageStart
        invariant forall i :: 0 <= i < |rows| && i < gap - pageStart ==>
                    && (documentId, pageStart + i) in pages
                    && var row := pages[(documentId, pageStart + i)];
                       rows[i] == StoredPageText(pageStart + i, row.text, row.textSource)
      {
        if (documentId, n) in pages {
          rows := rows + [StoredPageText(n, pages[(documentId, n)].text, pages[(documentId, n)].textSource)];
          if gap == n {
            gap := n + 1;
          }
        }
      }
      var expectedCount := pageEnd - pageStart + 1;
      if |rows| != expectedCount {
        return Err(MissingPages(documentId, pageStart, pageEnd));
      }
      return Ok(rows);
    }

    // Ingestion jobs

    method CreateIngestionJob(job: NewJob, now: int) returns (row: JobRow)
      requires Valid()
      modifies this
      ensures Valid() && View() == Next(old(View()), CreateJob(job, now))
      ensures job.jobKey in jobs && row == jobs[job.jobKey]
    {
      StepKeepsDb(View(), CreateJob(job, now));
      if job.jobKey !in jobs {
        InsertJob(job, now);
      }
      row := jobs[job.jobKey];
    }

    /** The row and its outbox message, in one transaction. */
    method InsertJob(job: NewJob, now: int)
      requires job.jobKey !in jobs
      modifies this`jobs, this`outbox, this`nextJobId
      ensures View() == Create(old(View()), job, now)
    {
      jobs := jobs[job.jobKey := CreatedRow(nextJobId, job, now)];
      outbox := outbox + [OutboxRow(job.jobKey, job.operation, job.source, job.sourceId, job.targetUrl)];
      nextJobId := nextJobId + 1;
    }

    /** One row changed by key. */
    method WriteJob(jobKey: string, row: JobRow)
      modifies this`jobs
      ensures View() == SetJob(old(View()), jobKey, row)
    {
      jobs := jobs[jobKey := row];
    }

    /** The first claimable row in the order the statement asks for. */
    method SelectNextClaim(now: int) returns (first: Option<string>)
      requires Valid()
      ensures first == NextClaim(View(), now)
      ensures first.Some? ==> first.value in jobs
    {
      first := None;
      var remaining := jobs.Keys;
      while remaining != {}
        invariant remaining <= jobs.Keys
        invariant first.Some? ==> first.value in jobs && Claimable(jobs[first.value], now)
        invariant forall k :: k in jobs && k !in remaining && Claimable(jobs[k], now) ==>
                    first.Some? && (k == first.value || Before(jobs[first.value], jobs[k]))
        decreases |remaining|
      {
        var key :| key in remaining;
        remaining := remaining - {key};
        if Claimable(jobs[key], now) {
          assert first.Some? && first.value != key ==> jobs[first.value].id != jobs[key].id;
          if first.None? || Before(jobs[key], jobs[first.value]) {
            first := Some(key);
          }
        }
      }
      NextClaimMeaning(View(), now);
      if first.Some? {
        assert IsNextClaim(View(), now, first.value);
        NextClaimUnique(View(), now, first.value);
      }
    }

    method ClaimNextIngestionJob(lease: Lease) returns (claimed: Option<(string, JobRow)>)
      requires Valid()
      modifies this
      ensures Valid() && View() == Next(old(View()), ClaimNextJob(lease))
      ensures claimed.None? <==> NextClaim(old(View()), lease.now).None?
      ensures claimed.Some? ==> NextClaim(old(View()), lease.now) == Some(claimed.value.0)
      ensures claimed.Some? ==> claimed.value.0 in jobs && jobs[claimed.value.0] == claimed.value.1
    {
      var first := SelectNextClaim(lease.now);
      ghost var before := View();
      if first.None? {
        ClaimNextIs(before, lease, first);
        return None;
      }
      var row := ClaimedRow(jobs[first.value], lease, jobs[first.value].attempts + 1);
      WriteJob(first.value, row);
      assert Next(before, ClaimNextJob(lease)) == View() by {
        ClaimNextIs(before, lease, first);
      }
      StepKeepsDb(before, ClaimNextJob(lease));
      return Some((first.value, row));
    }

    /** The UPDATE of `claim_ingestion_job` and the row it returns, if any. */
    method UpdateClaimed(jobKey: string, lease: Lease) returns (claimed: Option<JobRow>)
      requires Valid()
      modifies this
      ensures Valid() && View() == Next(old(View()), ClaimJob(jobKey, lease))
      ensures claimed.Some? <==> jobKey in old(jobs) && ClaimableByKey(old(jobs)[jobKey], lease)
      ensures claimed.Some? ==> jobKey in jobs && claimed.value == jobs[jobKey] && HeldBy(claimed.value, lease.owner)
    {
      StepKeepsDb(View(), ClaimJob(jobKey, lease));
      if jobKey !in jobs || !ClaimableByKey(jobs[jobKey], lease) {
        return None;
      }
      var row := jobs[jobKey];
      var row' := ClaimedRow(row, lease, if HeldBy(row, lease.owner) then row.attempts else row.attempts + 1);
      assert Next(View(), ClaimJob(jobKey, lease)) == SetJob(View(), jobKey, row');
      WriteJob(jobKey, row');
      return Some(row');
    }

    method ClaimIngestionJob(jobKey: string, lease: Lease) returns (r: Result<JobRow, StoreError>)
      requires Valid()
      modifies this
      ensures Valid() && View() == Next(old(View()), ClaimJob(jobKey, lease))
      ensures r.Ok? <==> && jobKey in old(jobs)
                         && var row := old(jobs)[jobKey];
                            || CanBeClaimed(row, lease.now)
                            || (row.status == Running && row.leaseOwner == Some(lease.owner))
      ensures r.Ok? ==> jobKey in jobs && r.value == jobs[jobKey] && HeldBy(r.value, lease.owner)
      ensures r.Err? ==> r.error == if jobKey in old(jobs) then InvalidIngestionJobState(jobKey)
                                    else MissingIngestionJob(jobKey)
    {
      ghost var before := View();
      if jobKey in jobs {
        ClaimableIs(jobs[jobKey], lease);
      }
      ClaimKeepsKeys(before, jobKey, lease);
      var claimed := UpdateClaimed(jobKey, lease);
      if claimed.Some? {
        return Ok(claimed.value);
      }
      if jobKey !in jobs {
        return Err(MissingIngestionJob(jobKey));
      }
      return Err(InvalidIngestionJobState(jobKey));
    }

    /** One guarded UPDATE. */
    method GuardedUpdate(jobKey: string, owner: string, update: JobUpdate, now: int)
      requires Valid() && (update.Mark? ==> ValidProgress(update.progress))
      modifies this
      ensures Valid() && View() == Next(old(View()), UpdateJob(jobKey, owner, update, now))
    {
      StepKeepsDb(View(), UpdateJob(jobKey, owner, update, now));
      if jobKey in jobs && HeldBy(jobs[jobKey], owner) {
        var row := UpdatedRow(View(), jobs[jobKey], update, now);
        assert Next(View(), UpdateJob(jobKey, owner, update, now)) == SetJob(View(), jobKey, row);
        WriteJob(jobKey, row);
      }
    }

    method MarkIngestionJobStage(jobKey: string, owner: string, stage: Stage, progress: real, now: int)
      returns (r: Result<JobRow, StoreError>)
      requires Valid()
      modifies this
      ensures Valid() && View() == Next(old(View()), UpdateJob(jobKey, owner, Mark(stage, progress), now))
      ensures r == if ValidProgress(progress) then RequireRunning(View(), jobKey, owner)
                   else Err(InvalidIngestionJobProgress(progress))
    {
      if !ValidProgress(progress) {
        return Err(InvalidIngestionJobProgress(progress));
      }
      GuardedUpdate(jobKey, owner, Mark(stage, progress), now);
      return RequireRunning(View(), jobKey, owner);
    }

    method RecordIngestionJobWarning(jobKey: string, owner: string, warning: string, now: int)
      returns (r: Result<JobRow, StoreError>)
      requires Valid()
      modifies this
      ensures Valid()
      ensures r.Ok? <==> RequireRunning(old(View()), jobKey, owner).Ok?
      ensures r.Ok? ==>
                var before := old(jobs)[jobKey].warnings;
                && jobKey in jobs && r.value == jobs[jobKey]
                && jobs[jobKey].warnings == (if warning in before then before else before + [warning])
                && View() == (if warning in before then old(View())
                              else Next(old(View()), UpdateJob(jobKey, owner, SetWarnings(before + [warning]), now)))
      ensures r.Err? ==> View() == old(View())
      ensures r == RequireRunning(View(), jobKey, owner)
    {
      var row :- RequireRunning(View(), jobKey, owner);
      if warning !in row.warnings {
        GuardedUpdate(jobKey, owner, SetWarnings(row.warnings + [warning]), now);
      }
      return RequireRunning(View(), jobKey, owner);
    }

    method RecordIngestionJobError(jobKey: string, owner: string, message: string, now: int)
      returns (r: Result<JobRow, StoreError>)
      requires Valid()
      modifies this
      ensures Valid() && View() == Next(old(View()), UpdateJob(jobKey, owner, SetError(message), now))
      ensures r == RequireRunning(View(), jobKey, owner)
    {
      GuardedUpdate(jobKey, owner, SetError(message), now);
      return RequireRunning(View(), jobKey, owner);
    }

    method LinkIngestionJobDocument(jobKey: string, owner: string, documentKey: string, now: int)
      returns (r: Result<JobRow, StoreError>)
      requires Valid()
      modifies this
      ensures Valid() && View() == Next(old(View()), UpdateJob(jobKey, owner, Link(documentKey), now))
      ensures r == LinkResult(View(), jobKey, owner, documentKey)
    {
      GuardedUpdate(jobKey, owner, Link(documentKey), now);
      var row :- RequireRunning(View(), jobKey, owner);
      if row.documentId.None? {
        return Err(MissingDocument(documentKey));
      }
      return Ok(row);
    }

    /** `complete`, `fail` and `interrupt` are this with their own update. */
    method FinishIngestionJob(jobKey: string, owner: string, update: JobUpdate, now: int)
      returns (r: Result<JobRow, StoreError>)
      requires Valid() && update.Finishes()
      modifies this
      ensures Valid() && View() == Next(old(View()), UpdateJob(jobKey, owner, update, now))
      ensures r.Ok? <==> jobKey in old(jobs)
                         && (old(jobs)[jobKey].status == update.FinalStatus() || HeldBy(old(jobs)[jobKey], owner))
      ensures r.Ok? ==> jobKey in jobs && r.value == jobs[jobKey] && r.value.status == update.FinalStatus()
      ensures r.Err? ==> View() == old(View())
    {
      var current :- GetJob(View(), jobKey);
      if current.status == update.FinalStatus() {
        return Ok(current);
      }
      FinishIs(View(), jobKey, owner, update, now);
      GuardedUpdate(jobKey, owner, update, now);
      return RequireStatus(View(), jobKey, update.FinalStatus());
    }
  }
}
