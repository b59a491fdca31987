/**
 Every statement that changes the database, as one atomic step, and what holds over every
 sequence of such steps, whoever issues them and however they interleave.
 */
module StoreRuns {
  import opened Wrappers
  import opened Database
  import opened Ordering
  import opened Jobs
  import Documents
  import FtsDrift
  import FtsRepair

  datatype StoreOp =
    | CreateJob(job: NewJob, now: int)
    | ClaimNextJob(lease: Lease)
    | ClaimJob(jobKey: string, lease: Lease)
    | UpdateJob(jobKey: string, owner: string, update: JobUpdate, now: int)
    | UpsertDocument(document: Documents.UpsertDocument)
    | ReplacePagesAndChunks(
        documentKey: string, pages: seq<Documents.PageInput>, chunks: seq<Documents.ChunkInput>)
    | AddAsset(asset: Documents.AssetInput)
    | RepairIndex(actions: seq<FtsRepair.Action>)

  ghost function OrElse(r: Result<Db, StoreError>, db: Db): Db {
    match r case Ok(db') => db' case Err(_) => db
  }

  /** The database after one step; a statement or transaction that fails leaves it as it was. */
  ghost function Next(db: Db, op: StoreOp): Db {
    match op
    case CreateJob(job, now) => Create(db, job, now)
    case ClaimNextJob(lease) => ClaimNext(db, lease)
    case ClaimJob(key, lease) => ClaimByKey(db, key, lease)
    case UpdateJob(key, owner, update, now) =>
      if update.Mark? && !ValidProgress(update.progress) then db else Update(db, key, owner, update, now)
    case UpsertDocument(document) => OrElse(Documents.Upsert(db, document), db)
    case ReplacePagesAndChunks(key, pages, chunks) => OrElse(Documents.Replace(db, key, pages, chunks), db)
    case AddAsset(asset) => OrElse(Documents.AddAsset(db, asset), db)
    case RepairIndex(actions) =>
      match FtsRepair.ApplyPlan(db, actions)
      case Ok(applied) => db.(fts := applied.fts)
      case Err(_) => db
  }

  ghost function Run(db: Db, ops: seq<StoreOp>): Db
    decreases |ops|
  {
    if ops == [] then db else Run(Next(db, ops[0]), ops[1..])
  }

  ghost predicate DbOk(db: Db) {
    Documents.TablesOk(db) && JobsOk(db)
  }

  // One step keeps the invariants

  lemma {:induction false} SetJobKeeps(db: Db, key: string, row: JobRow)
    requires JobsOk(db) && key in db.jobs
    requires RowOk(row) && row.id == db.jobs[key].id
    requires row.documentId.Some? ==> IsDocument(db.documents, row.documentId.value)
    ensures JobsOk(SetJob(db, key, row))
  {
    var jobs' := db.jobs[key := row];
    assert jobs'.Keys == db.jobs.Keys;
    assert RowsOk(jobs', db.nextJobId);
    assert LinksExist(db.documents, jobs');
  }

  lemma {:induction false} CreateKeepsOutbox(outbox: seq<OutboxRow>, keys: set<string>, message: OutboxRow)
    requires OutboxMatches(outbox, keys) && message.jobKey !in keys
    ensures OutboxMatches(outbox + [message], keys + {message.jobKey})
  {
    var outbox' := outbox + [message];
    assert outbox'[|outbox|] == message;
    forall k | k in keys + {message.jobKey} ensures IsAnnounced(outbox', k) {
      if k in keys {
        assert IsAnnounced(outbox, k);
        var i :| 0 <= i < |outbox| && outbox[i].jobKey == k;
        assert outbox'[i].jobKey == k;
      }
    }
  }

  lemma {:induction false} CreateKeeps(db: Db, job: NewJob, now: int)
    requires JobsOk(db)
    ensures JobsOk(Create(db, job, now))
  {
    if job.jobKey !in db.jobs {
      var message := OutboxRow(job.jobKey, job.operation, job.source, job.sourceId, job.targetUrl);
      var jobs' := db.jobs[job.jobKey := CreatedRow(db.nextJobId, job, now)];
      CreateKeepsOutbox(db.outbox, db.jobs.Keys, message);
      assert jobs'.Keys == db.jobs.Keys + {job.jobKey};
      assert RowsOk(jobs', db.nextJobId + 1);
      assert LinksExist(db.documents, jobs');
    }
  }

  lemma {:induction false} ClaimKeeps(db: Db, key: string, lease: Lease, attempts: nat)
    requires JobsOk(db) && key in db.jobs
    ensures JobsOk(SetJob(db, key, ClaimedRow(db.jobs[key], lease, attempts)))
  {
    SetJobKeeps(db, key, ClaimedRow(db.jobs[key], lease, attempts));
  }

  lemma {:induction false} UpdateKeeps(db: Db, key: string, owner: string, update: JobUpdate, now: int)
    requires JobsOk(db) && (update.Mark? ==> ValidProgress(update.progress))
    ensures JobsOk(Update(db, key, owner, update, now))
  {
    if key in db.jobs && HeldBy(db.jobs[key], owner) {
      assert RowOk(db.jobs[key]);
      SetJobKeeps(db, key, UpdatedRow(db, db.jobs[key], update, now));
    }
  }

  /** Every row is an old one or repeats its canonical chunk in all columns. */
  ghost predicate OldOrCanonical(db: Db, fts: seq<FtsRow>, fts': seq<FtsRow>) {
    forall row :: row in fts' ==>
      row in fts || FtsDrift.CanonicalRow(db, row.content.Identity()) == Some(row.content)
  }

  /** Index repair rewrites rows from the chunks, so the agreement it found is the agreement it leaves. */
  lemma {:induction false} RewriteKeepsAgreement(db: Db, fts: seq<FtsRow>, id: ChunkIdentity)
    requires Documents.DocumentsOk(db)
    requires Documents.IndexAgrees(db.documents, Documents.Indexed(db.chunks, fts))
    requires FtsDrift.CanonicalRow(db, id).Some?
    ensures Documents.IndexAgrees(
              db.documents, Documents.Indexed(db.chunks, FtsRepair.RewriteRow(db, fts, id).value.fts))
    ensures OldOrCanonical(db, fts, FtsRepair.RewriteRow(db, fts, id).value.fts)
  {
    var canonical := FtsDrift.CanonicalRow(db, id).value;
    if !FtsRepair.IsCurrent(FtsDrift.RowsFor(fts, id), canonical) {
      var kept := Filter(fts, FtsRepair.Lacks(id));
      var added := FtsRow(Documents.NextRowid(kept), canonical);
      var fts' := kept + [added];
      FilterSorted(fts, FtsRepair.Lacks(id), Documents.RowBefore);
      forall row ensures row in kept <==> row in fts && row.content.Identity() != id {
        FilterMember(fts, FtsRepair.Lacks(id), row);
      }
      forall row | row in kept ensures Documents.RowBefore(row, added) {
        Documents.NextRowidIsLargest(kept, row);
      }
      assert Sorted(fts', Documents.RowBefore);
      forall key, chunkId | key in db.documents && (db.documents[key].id, chunkId) in db.chunks
        ensures Documents.IsIndexed(fts', ChunkIdentity(key, chunkId))
      {
        if ChunkIdentity(key, chunkId) == id {
          assert added in fts';
        } else {
          assert Documents.IsIndexed(fts, ChunkIdentity(key, chunkId));
          var row :| row in fts && row.content.Identity() == ChunkIdentity(key, chunkId);
          assert row in fts';
        }
      }
    }
  }

  lemma {:induction false} ApplyFirst(
    db: Db, fts: seq<FtsRow>, actions: seq<FtsRepair.Action>, counts: FtsRepair.Counts)
    returns (fts': seq<FtsRow>, counts': FtsRepair.Counts)
    requires actions != [] && FtsRepair.ApplyActions(db, fts, actions, counts).Ok?
    ensures
      var id := actions[0].Identity();
      if actions[0].kind == FtsRepair.ManualReviewOrphan then fts' == fts
      else FtsDrift.CanonicalRow(db, id).Some? && fts' == FtsRepair.RewriteRow(db, fts, id).value.fts
    ensures FtsRepair.ApplyActions(db, fts, actions, counts)
         == FtsRepair.ApplyActions(db, fts', actions[1..], counts')
  {
    if actions[0].kind == FtsRepair.ManualReviewOrphan {
      fts', counts' := fts, counts.(manualReview := counts.manualReview + 1);
    } else {
      var rewrite := FtsRepair.RewriteRow(db, fts, actions[0].Identity()).value;
      fts' := rewrite.fts;
      counts' := if rewrite.changed then counts.(rewritten := counts.rewritten + 1)
                 else counts.(skipped := counts.skipped + 1);
    }
  }

  lemma {:induction false} RepairKeepsAgreement(
    db: Db, fts: seq<FtsRow>, actions: seq<FtsRepair.Action>, counts: FtsRepair.Counts)
    requires Documents.DocumentsOk(db)
    requires Documents.IndexAgrees(db.documents, Documents.Indexed(db.chunks, fts))
    requires FtsRepair.ApplyActions(db, fts, actions, counts).Ok?
    ensures Documents.IndexAgrees(
              db.documents,
              Documents.Indexed(db.chunks, FtsRepair.ApplyActions(db, fts, actions, counts).value.fts))
    ensures OldOrCanonical(db, fts, FtsRepair.ApplyActions(db, fts, actions, counts).value.fts)
    decreases |actions|
  {
    if actions != [] {
      var next, counts' := ApplyFirst(db, fts, actions, counts);
      if actions[0].kind != FtsRepair.ManualReviewOrphan {
        RewriteKeepsAgreement(db, fts, actions[0].Identity());
      }
      RepairKeepsAgreement(db, next, actions[1..], counts');
      OldOrCanonicalStep(db, fts, next, FtsRepair.ApplyActions(db, next, actions[1..], counts').value.fts);
    }
  }

  lemma {:induction false} OldOrCanonicalStep(db: Db, a: seq<FtsRow>, b: seq<FtsRow>, c: seq<FtsRow>)
    requires OldOrCanonical(db, a, b) && OldOrCanonical(db, b, c)
    ensures OldOrCanonical(db, a, c)
  {
  }

  lemma {:induction false} RepairKeepsTables(db: Db, actions: seq<FtsRepair.Action>, dirty: set<string>)
    requires Documents.TablesOk(db) && Documents.FreshExcept(db, dirty)
    ensures Documents.TablesOk(Next(db, RepairIndex(actions)))
    ensures Documents.FreshExcept(Next(db, RepairIndex(actions)), dirty)
  {
    if FtsRepair.ApplyPlan(db, actions).Ok? {
      var fts' := FtsRepair.ApplyPlan(db, actions).value.fts;
      RepairKeepsAgreement(db, db.fts, actions, FtsRepair.Counts(0, 0, 0));
      var db' := db.(fts := fts');
      assert Documents.DocumentsOk(db');
    }
  }

  /** Documents upserted and not replaced since: only their rows may carry an old source or title. */
  ghost function Dirtied(db: Db, op: StoreOp, dirty: set<string>): set<string> {
    match op
    case UpsertDocument(document) =>
      if Documents.Upsert(db, document).Ok? then dirty + {document.documentKey} else dirty
    case ReplacePagesAndChunks(key, pages, chunks) =>
      if Documents.Replace(db, key, pages, chunks).Ok? then dirty - {key} else dirty
    case _ => dirty
  }

  ghost function Dirty(db: Db, ops: seq<StoreOp>, dirty: set<string>): set<string>
    decreases |ops|
  {
    if ops == [] then dirty else Dirty(Next(db, ops[0]), ops[1..], Dirtied(db, ops[0], dirty))
  }

  lemma {:induction false} SameTables(db: Db, db': Db, dirty: set<string>)
    requires Documents.TablesOk(db) && Documents.FreshExcept(db, dirty)
    requires db'.documents == db.documents && db'.chunks == db.chunks && db'.fts == db.fts
    requires db'.pages == db.pages && db'.nextDocumentId == db.nextDocumentId
    ensures Documents.TablesOk(db') && Documents.FreshExcept(db', dirty)
  {
  }

  lemma {:induction false} UpsertStepKeepsTables(db: Db, document: Documents.UpsertDocument, dirty: set<string>)
    requires Documents.TablesOk(db) && Documents.FreshExcept(db, dirty)
    ensures Documents.TablesOk(Next(db, UpsertDocument(document)))
    ensures Documents.FreshExcept(Next(db, UpsertDocument(document)), Dirtied(db, UpsertDocument(document), dirty))
  {
    if Documents.Upsert(db, document).Ok? {
      Documents.UpsertKeepsTables(db, document, dirty);
    }
  }

  lemma {:induction false} ReplaceStepKeepsTables(
    db: Db, key: string, pages: seq<Documents.PageInput>, chunks: seq<Documents.ChunkInput>, dirty: set<string>)
    requires Documents.TablesOk(db) && Documents.FreshExcept(db, dirty)
    ensures
      var op := ReplacePagesAndChunks(key, pages, chunks);
      Documents.TablesOk(Next(db, op)) && Documents.FreshExcept(Next(db, op), Dirtied(db, op, dirty))
  {
    if Documents.Replace(db, key, pages, chunks).Ok? {
      Documents.ReplaceKeepsTables(db, key, pages, chunks, dirty);
    }
  }

  lemma {:induction false} StepKeepsTables(db: Db, op: StoreOp, dirty: set<string>)
    requires Documents.TablesOk(db) && Documents.FreshExcept(db, dirty)
    ensures Documents.TablesOk(Next(db, op)) && Documents.FreshExcept(Next(db, op), Dirtied(db, op, dirty))
  {
    match op {
      case UpsertDocument(document) => UpsertStepKeepsTables(db, document, dirty);
      case ReplacePagesAndChunks(key, pages, chunks) => ReplaceStepKeepsTables(db, key, pages, chunks, dirty);
      case RepairIndex(actions) => RepairKeepsTables(db, actions, dirty);
      case _ => SameTables(db, Next(db, op), dirty);
    }
  }

  lemma {:induction false} ClaimNextKeeps(db: Db, lease: Lease)
    requires JobsOk(db)
    ensures JobsOk(ClaimNext(db, lease))
  {
    NextClaimMeaning(db, lease.now);
    if NextClaim(db, lease.now).Some? {
      var key := NextClaim(db, lease.now).value;
      ClaimKeeps(db, key, lease, db.jobs[key].attempts + 1);
    }
  }

  lemma {:induction false} ClaimByKeyKeeps(db: Db, key: string, lease: Lease)
    requires JobsOk(db)
    ensures JobsOk(ClaimByKey(db, key, lease))
  {
    if key in db.jobs && ClaimableByKey(db.jobs[key], lease) {
      var attempts := if HeldBy(db.jobs[key], lease.owner) then db.jobs[key].attempts else db.jobs[key].attempts + 1;
      assert ClaimByKey(db, key, lease) == SetJob(db, key, ClaimedRow(db.jobs[key], lease, attempts));
      ClaimKeeps(db, key, lease, attempts);
    } else {
      assert ClaimByKey(db, key, lease) == db;
    }
  }

  predicate TouchesJobs(op: StoreOp) {
    op.CreateJob? || op.ClaimNextJob? || op.ClaimJob? || op.UpdateJob?
  }

  lemma {:induction false} ReplaceStep(
    db: Db, key: string, pages: seq<Documents.PageInput>, chunks: seq<Documents.ChunkInput>)
    ensures
      var db' := Next(db, ReplacePagesAndChunks(key, pages, chunks));
      db' == db.(pages := db'.pages, chunks := db'.chunks, fts := db'.fts)
  {
  }

  lemma {:induction false} TableStepsKeepJobs(db: Db, op: StoreOp)
    requires !TouchesJobs(op)
    ensures Next(db, op).jobs == db.jobs
    ensures Next(db, op).outbox == db.outbox && Next(db, op).nextJobId == db.nextJobId
    ensures forall d :: d in db.documents ==>
              d in Next(db, op).documents && Next(db, op).documents[d].id == db.documents[d].id
  {
    match op {
      case UpsertDocument(document) => WriteKeepsJobs(db, document);
      case ReplacePagesAndChunks(key, pages, chunks) => ReplaceStep(db, key, pages, chunks);
      case AddAsset(asset) =>
      case RepairIndex(actions) =>
    }
  }

  lemma {:induction false} WriteKeepsJobs(db: Db, document: Documents.UpsertDocument)
    ensures
      var db' := Documents.WriteDocument(db, document);
      && db'.jobs == db.jobs && db'.outbox == db.outbox && db'.nextJobId == db.nextJobId
      && forall d :: d in db.documents ==> d in db'.documents && db'.documents[d].id == db.documents[d].id
  {
  }

  lemma {:induction false} SameJobsKeep(db: Db, db': Db)
    requires JobsOk(db)
    requires db'.jobs == db.jobs && db'.outbox == db.outbox && db'.nextJobId == db.nextJobId
    requires forall d :: d in db.documents ==> d in db'.documents && db'.documents[d].id == db.documents[d].id
    ensures JobsOk(db')
  {
    forall k | k in db.jobs && db.jobs[k].documentId.Some?
      ensures IsDocument(db'.documents, db.jobs[k].documentId.value)
    {
      assert IsDocument(db.documents, db.jobs[k].documentId.value);
    }
  }

  lemma {:induction false} JobStepKeepsJobs(db: Db, op: StoreOp)
    requires JobsOk(db) && TouchesJobs(op)
    ensures JobsOk(Next(db, op))
  {
    match op {
      case CreateJob(job, now) => CreateKeeps(db, job, now);
      case ClaimNextJob(lease) => ClaimNextKeeps(db, lease);
      case ClaimJob(key, lease) => ClaimByKeyKeeps(db, key, lease);
      case UpdateJob(key, owner, update, now) =>
        if !update.Mark? || ValidProgress(update.progress) {
          UpdateKeeps(db, key, owner, update, now);
        }
    }
  }

  lemma {:induction false} StepKeepsJobs(db: Db, op: StoreOp)
    requires JobsOk(db)
    ensures JobsOk(Next(db, op))
  {
    if TouchesJobs(op) {
      JobStepKeepsJobs(db, op);
    } else {
      TableStepsKeepJobs(db, op);
      SameJobsKeep(db, Next(db, op));
    }
  }

  lemma {:induction false} StepKeepsDb(db: Db, op: StoreOp)
    requires DbOk(db)
    ensures DbOk(Next(db, op))
  {
    var all := set row | row in db.fts :: row.content.documentKey;
    assert Documents.FreshExcept(db, all);
    StepKeepsTables(db, op, all);
    StepKeepsJobs(db, op);
  }

  // Every run

  /** The invariants hold after any sequence of steps, and staleness is confined to dirty documents. */
  lemma {:induction false} RunKeepsInvariants(db: Db, ops: seq<StoreOp>, dirty: set<string>)
    requires DbOk(db) && Documents.FreshExcept(db, dirty)
    ensures DbOk(Run(db, ops)) && Documents.FreshExcept(Run(db, ops), Dirty(db, ops, dirty))
    decreases |ops|
  {
    if ops != [] {
      StepKeepsTables(db, ops[0], dirty);
      StepKeepsJobs(db, ops[0]);
      RunKeepsInvariants(Next(db, ops[0]), ops[1..], Dirtied(db, ops[0], dirty));
    }
  }

  lemma {:induction false} EmptyDbOk()
    ensures DbOk(EMPTY_DB) && Documents.FreshExcept(EMPTY_DB, {})
  {
  }
}
