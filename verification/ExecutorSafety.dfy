/**
 Persist before complete: in every run of any number of executors, whatever their owner names,
 a succeeded job is linked to a stored document with pages, chunks and an index row per chunk.
 */
module ExecutorSafety {
  import opened Wrappers
  import opened Database
  import opened Jobs
  import opened StoreRuns
  import opened Pipeline
  import opened Executor
  import LeaseProtocol
  import Documents

  ghost predicate HasPage(db: Db, id: nat) {
    exists n: int :: (id, n) in db.pages
  }

  ghost predicate HasChunk(db: Db, id: nat) {
    exists chunkId: string :: (id, chunkId) in db.chunks
  }

  /** The document exists and has at least one page and one chunk. */
  ghost predicate Stored(db: Db, key: string) {
    key in db.documents && HasPage(db, db.documents[key].id) && HasChunk(db, db.documents[key].id)
  }

  ghost predicate IsStored(db: Db, id: nat) {
    exists key :: Stored(db, key) && db.documents[key].id == id
  }

  /** Linked rows point at stored documents, and succeeded rows are linked. */
  ghost predicate RowPersisted(db: Db, row: JobRow) {
    && (row.documentId.Some? ==> IsStored(db, row.documentId.value))
    && (row.status == Succeeded ==> row.documentId.Some?)
  }

  ghost predicate JobsPersisted(db: Db) {
    forall k :: k in db.jobs ==> RowPersisted(db, db.jobs[k])
  }

  ghost predicate IsLinked(db: Db, key: string) {
    key in db.jobs && db.jobs[key].documentId.Some?
  }

  /** What an executor has already secured at its present point. */
  ghost predicate ProcOk(db: Db, p: Proc, target: nat) {
    && (FinishPoint(p.at) ==> p.at.update.Finishes())
    && (7 <= Reached(p.at) <= 8 ==> Prepare(p.text.pages, target).Ok?)
    && (9 <= Reached(p.at) ==> Stored(db, p.document.documentKey))
    && (11 <= Reached(p.at) ==> IsLinked(db, p.jobKey))
  }

  ghost predicate SysOk(sys: Sys, target: nat) {
    && DbOk(sys.db)
    && JobsPersisted(sys.db)
    && forall pid :: pid in sys.procs ==> ProcOk(sys.db, sys.procs[pid], target)
  }

  // Steps that respect what has been secured

  predicate StoresSomething(op: StoreOp) {
    op.ReplacePagesAndChunks? ==> op.pages != [] && op.chunks != []
  }

  ghost predicate GoodOp(db: Db, op: StoreOp) {
    && StoresSomething(op)
    && (op.UpdateJob? && op.update.Link? ==> Stored(db, op.update.documentKey))
    && (op.UpdateJob? && op.update.Complete? ==> IsLinked(db, op.jobKey))
  }

  lemma {:induction false} ReplaceKeepsStored(
    db: Db, key: string, pages: seq<Documents.PageInput>, chunks: seq<Documents.ChunkInput>, other: string)
    requires Documents.TablesOk(db) && Documents.Replace(db, key, pages, chunks).Ok?
    requires pages != [] && chunks != []
    ensures Stored(Documents.Replace(db, key, pages, chunks).value, key)
    ensures Stored(db, other) ==> Stored(Documents.Replace(db, key, pages, chunks).value, other)
  {
    var db' := Documents.Replace(db, key, pages, chunks).value;
    var id := db.documents[key].id;
    Documents.ReplaceMeaning(db, key, pages, chunks);
    assert pages[0] in pages && chunks[0] in chunks;
    assert (id, pages[0].pageNumber) in db'.pages && (id, chunks[0].chunkId) in db'.chunks;
    if Stored(db, other) && other != key {
      var otherId := db.documents[other].id;
      var n: int :| (otherId, n) in db.pages;
      var chunkId: string :| (otherId, chunkId) in db.chunks;
      assert (otherId, n) in Documents.PagesWithout(db, id);
      assert (otherId, chunkId) in Documents.ChunksWithout(db, id);
      assert (otherId, n) in db'.pages && (otherId, chunkId) in db'.chunks;
    }
  }

  /** No step that stores something undoes what is stored, and ids stay. */
  lemma {:induction false} StoredStays(db: Db, op: StoreOp, key: string)
    requires Documents.TablesOk(db) && Stored(db, key) && StoresSomething(op)
    ensures Stored(Next(db, op), key) && Next(db, op).documents[key].id == db.documents[key].id
  {
    match op {
      case ReplacePagesAndChunks(k, pages, chunks) =>
        ReplaceStep(db, k, pages, chunks);
        if Documents.Replace(db, k, pages, chunks).Ok? {
          ReplaceKeepsStored(db, k, pages, chunks, key);
        }
      case UpsertDocument(document) => UpsertKeepsStored(db, document, key);
      case _ => SameDocuments(db, op);
    }
  }

  lemma {:induction false} UpsertKeepsStored(db: Db, document: Documents.UpsertDocument, key: string)
    requires Stored(db, key)
    ensures
      var db' := Next(db, UpsertDocument(document));
      Stored(db', key) && db'.documents[key].id == db.documents[key].id
  {
    var db' := Next(db, UpsertDocument(document));
    assert db'.pages == db.pages && db'.chunks == db.chunks;
  }

  lemma {:induction false} SameDocuments(db: Db, op: StoreOp)
    requires !op.ReplacePagesAndChunks? && !op.UpsertDocument?
    ensures Next(db, op).documents == db.documents
    ensures Next(db, op).pages == db.pages && Next(db, op).chunks == db.chunks
  {
  }

  lemma {:induction false} IsStoredStays(db: Db, op: StoreOp, id: nat)
    requires Documents.TablesOk(db) && IsStored(db, id) && StoresSomething(op)
    ensures IsStored(Next(db, op), id)
  {
    var key :| Stored(db, key) && db.documents[key].id == id;
    StoredStays(db, op, key);
  }

  lemma {:induction false} RowStaysPersisted(db: Db, op: StoreOp, key: string)
    requires DbOk(db) && key in db.jobs && RowPersisted(db, db.jobs[key]) && GoodOp(db, op)
    ensures RowPersisted(Next(db, op), LeaseProtocol.RowNext(db, op, key))
    ensures db.jobs[key].documentId.Some? ==> LeaseProtocol.RowNext(db, op, key).documentId.Some?
  {
    var row := db.jobs[key];
    var row' := LeaseProtocol.RowNext(db, op, key);
    if row'.documentId.Some? {
      if row'.documentId != row.documentId {
        assert op.update.Link?;
        assert IsStored(db, row'.documentId.value);
      }
      IsStoredStays(db, op, row'.documentId.value);
    }
  }

  lemma {:induction false} NewRowPersisted(db: Db, op: StoreOp, key: string)
    requires JobsOk(db) && key !in db.jobs && key in Next(db, op).jobs
    ensures RowPersisted(Next(db, op), Next(db, op).jobs[key])
  {
    if !TouchesJobs(op) {
      TableStepsKeepJobs(db, op);
    } else if op.ClaimNextJob? {
      NextClaimMeaning(db, op.lease.now);
    }
  }

  lemma {:induction false} JobsStayPersisted(db: Db, op: StoreOp)
    requires DbOk(db) && JobsPersisted(db) && GoodOp(db, op)
    ensures JobsPersisted(Next(db, op))
  {
    forall k | k in Next(db, op).jobs ensures RowPersisted(Next(db, op), Next(db, op).jobs[k]) {
      if k in db.jobs {
        LeaseProtocol.RowStep(db, op, k);
        RowStaysPersisted(db, op, k);
      } else {
        NewRowPersisted(db, op, k);
      }
    }
  }

  lemma {:induction false} LinkedStays(db: Db, op: StoreOp, key: string)
    requires DbOk(db) && JobsPersisted(db) && GoodOp(db, op) && IsLinked(db, key)
    ensures IsLinked(Next(db, op), key)
  {
    LeaseProtocol.RowStep(db, op, key);
    RowStaysPersisted(db, op, key);
  }

  /** A good step by anyone leaves what other executors have secured. */
  lemma {:induction false} ProcStaysOk(db: Db, op: StoreOp, q: Proc, target: nat)
    requires DbOk(db) && JobsPersisted(db) && GoodOp(db, op) && ProcOk(db, q, target)
    ensures ProcOk(Next(db, op), q, target)
  {
    if 9 <= Reached(q.at) {
      StoredStays(db, op, q.document.documentKey);
    }
    if 11 <= Reached(q.at) {
      LinkedStays(db, op, q.jobKey);
    }
  }

  // An executor's own step

  lemma {:induction false} OwnOpIsGood(db: Db, p: Proc, input: Input, target: nat)
    requires ProcOk(db, p, target) && OpOf(p, input, target).Some?
    ensures GoodOp(db, OpOf(p, input, target).value)
  {
    if p.at.Replacing? {
      PreparedIsNonEmpty(p.text.pages, target);
    }
  }

  /** Only storing and linking earn new facts; every other move asks for what is there already. */
  lemma {:induction false} MoveOk(db: Db, db': Db, p: Proc, p': Proc, input: Input, target: nat)
    requires Moves(db, p, p', input, target) && ProcOk(db', p, target)
    requires Reached(p.at) == 8 && Reached(p'.at) == 9 ==> Stored(db', p.document.documentKey)
    requires Reached(p.at) == 10 && Reached(p'.at) == 11 ==> IsLinked(db', p.jobKey)
    ensures ProcOk(db', p', target)
  {
  }

  lemma {:induction false} OwnReplaceStores(db: Db, p: Proc, target: nat)
    requires Documents.TablesOk(db) && Prepare(p.text.pages, target).Ok? && ReplaceResult(db, p, target).Ok?
    ensures Stored(ReplaceResult(db, p, target).value, p.document.documentKey)
  {
    PreparedIsNonEmpty(p.text.pages, target);
    ReplaceKeepsStored(
      db, p.document.documentKey, PageInputs(p.text.pages, p.text.textSource), ChunkInputsOf(p, target),
      p.document.documentKey);
  }

  lemma {:induction false} ReplaceStepDb(db: Db, p: Proc, input: Input, target: nat)
    requires p.at.Replacing?
    ensures StepDb(db, OpOf(p, input, target)) == OrElse(ReplaceResult(db, p, target), db)
  {
  }

  /** Its own step moves an executor only to a point whose demands are met. */
  lemma {:induction false} OwnStepOk(db: Db, p: Proc, input: Input, target: nat)
    requires DbOk(db) && JobsPersisted(db) && ProcOk(db, p, target)
    ensures ProcOk(StepDb(db, OpOf(p, input, target)), ProcNext(db, p, input, target), target)
  {
    var db' := StepDb(db, OpOf(p, input, target));
    if OpOf(p, input, target).Some? {
      OwnOpIsGood(db, p, input, target);
      ProcStaysOk(db, OpOf(p, input, target).value, p, target);
    }
    if p.at.Replacing? && ReplaceResult(db, p, target).Ok? {
      OwnReplaceStores(db, p, target);
      ReplaceStepDb(db, p, input, target);
    }
    EveryStepMoves(db, p, input, target);
    MoveOk(db, db', p, ProcNext(db, p, input, target), input, target);
  }

  lemma {:induction false} SysStepOk(sys: Sys, event: Event, target: nat)
    requires SysOk(sys, target)
    ensures SysOk(SysNext(sys, event, target), target)
  {
    match event {
      case Act(pid, input) =>
        if pid in sys.procs {
          ActOk(sys, pid, input, target);
        }
      case Start(pid, owner) =>
      case Crash(pid) =>
      case Enqueue(job, now) => OutsideOk(sys, CreateJob(job, now), target);
      case Repair(actions) => OutsideOk(sys, RepairIndex(actions), target);
    }
  }

  lemma {:induction false} OutsideOk(sys: Sys, op: StoreOp, target: nat)
    requires SysOk(sys, target) && (op.CreateJob? || op.RepairIndex?)
    ensures SysOk(sys.(db := Next(sys.db, op)), target)
  {
    StepKeepsDb(sys.db, op);
    JobsStayPersisted(sys.db, op);
    forall q | q in sys.procs ensures ProcOk(Next(sys.db, op), sys.procs[q], target) {
      ProcStaysOk(sys.db, op, sys.procs[q], target);
    }
  }

  lemma {:induction false} ActOk(sys: Sys, pid: nat, input: Input, target: nat)
    requires SysOk(sys, target) && pid in sys.procs
    ensures SysOk(SysNext(sys, Act(pid, input), target), target)
  {
    var p := sys.procs[pid];
    OwnStepOk(sys.db, p, input, target);
    var sys' := SysNext(sys, Act(pid, input), target);
    if OpOf(p, input, target).Some? {
      var op := OpOf(p, input, target).value;
      OwnOpIsGood(sys.db, p, input, target);
      StepKeepsDb(sys.db, op);
      JobsStayPersisted(sys.db, op);
      forall q | q in sys.procs ensures ProcOk(sys'.db, sys.procs[q], target) {
        ProcStaysOk(sys.db, op, sys.procs[q], target);
      }
    }
  }

  lemma {:induction false} RunOk(sys: Sys, events: seq<Event>, target: nat)
    requires SysOk(sys, target)
    ensures SysOk(SysRun(sys, events, target), target)
    decreases |events|
  {
    if events != [] {
      SysStepOk(sys, events[0], target);
      RunOk(SysNext(sys, events[0], target), events[1..], target);
    }
  }

  /**
   In every run from a store without jobs, a succeeded job is linked to a document with at least
   one page and one chunk, and each of its chunks has its index row.
   */
  lemma {:induction false} SucceededIsPersisted(sys: Sys, events: seq<Event>, target: nat, job: string)
    returns (key: string)
    requires Initial(sys)
    requires StatusIs(SysRun(sys, events, target).db, job, Succeeded)
    ensures
      var db := SysRun(sys, events, target).db;
      && Stored(db, key)
      && db.jobs[job].documentId == Some(db.documents[key].id)
      && forall chunkId :: (db.documents[key].id, chunkId) in db.chunks ==>
           Documents.IsIndexed(db.fts, ChunkIdentity(key, chunkId))
  {
    assert SysOk(sys, target);
    RunOk(sys, events, target);
    var db := SysRun(sys, events, target).db;
    assert RowPersisted(db, db.jobs[job]);
    key :| Stored(db, key) && db.documents[key].id == db.jobs[job].documentId.value;
  }
}
