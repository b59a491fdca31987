/**
 Resuming is confluent.  When the source answers the same for the same document, what is stored
 for a document once some executor has stored it depends only on those answers: not on how often
 runs were cancelled, crashed, lost their lease or ran at the same time.
 */
module Confluence {
  import opened Wrappers
  import opened Database
  import opened Ordering
  import opened Jobs
  import opened StoreRuns
  import opened Pipeline
  import opened Executor
  import opened ExecutorSafety
  import Chunking
  import LeaseProtocol
  import Documents
  import FtsDrift
  import FtsRepair

  /** What the source, planner and extractor say about a document. */
  datatype Planned = Planned(document: Documents.UpsertDocument, text: ExtractedText)

  predicate AnsweredBy(content: string -> Planned, sys: Sys, event: Event) {
    event.Act? && event.pid in sys.procs ==>
      var p, answer := sys.procs[event.pid], event.input.answer;
      && (p.at == Marked(1) && answer.GotDocument? ==>
            answer.document == content(answer.document.documentKey).document)
      && (p.at == Marked(3) && answer.GotText? ==> answer.text == content(p.document.documentKey).text)
  }

  ghost predicate RunAnsweredBy(content: string -> Planned, sys: Sys, events: seq<Event>, target: nat)
    decreases |events|
  {
    || events == []
    || (AnsweredBy(content, sys, events[0])
        && RunAnsweredBy(content, SysNext(sys, events[0], target), events[1..], target))
  }

  /** Documents some executor has upserted, and those whose pages it has also replaced. */
  datatype History = History(touched: set<string>, settled: set<string>)

  ghost function HistoryNext(sys: Sys, event: Event, target: nat, h: History): History {
    if event.Act? && event.pid in sys.procs then
      var p := sys.procs[event.pid];
      var key := p.document.documentKey;
      if p.at.Upserting? && Documents.Upsert(sys.db, p.document).Ok? then h.(touched := h.touched + {key})
      else if p.at.Replacing? && ReplaceResult(sys.db, p, target).Ok? then h.(settled := h.settled + {key})
      else h
    else h
  }

  ghost function HistoryOf(sys: Sys, events: seq<Event>, target: nat, h: History): History
    decreases |events|
  {
    if events == [] then h
    else HistoryOf(SysNext(sys, events[0], target), events[1..], target, HistoryNext(sys, events[0], target, h))
  }

  // What is stored for a document

  /** The chunks an executor stores, if it gets that far. */
  function ChunksOf(text: ExtractedText, target: nat): seq<Chunking.Chunk> {
    if Prepare(text.pages, target).Ok? then Chunking.ChunksFor(text.pages, target) else []
  }

  ghost predicate IndexIsFresh(db: Db, key: string)
    requires key in db.documents
  {
    forall row :: row in db.fts && row.content.documentKey == key ==>
      row.content.source == db.documents[key].source && row.content.title == db.documents[key].title
  }

  ghost predicate DocumentIs(db: Db, key: string, planned: Planned) {
    key in db.documents && Documents.StoresDocument(db.documents[key], planned.document)
  }

  /** The tables hold exactly the planned document, its pages, its chunks and their index rows. */
  ghost predicate Settled(db: Db, key: string, planned: Planned, target: nat) {
    && DocumentIs(db, key, planned)
    && PagesStored(db.pages, db.documents[key].id, planned.text.pages, planned.text.textSource)
    && ChunksStored(db.chunks, db.documents[key].id, ChunksOf(planned.text, target))
    && IndexIsFresh(db, key)
  }

  /** The document, its pages and its chunks are what they were. */
  ghost predicate Untouched(db0: Db, db: Db, key: string) {
    && (key in db.documents <==> key in db0.documents)
    && (key in db0.documents ==>
          var id := db0.documents[key].id;
          && db.documents[key] == db0.documents[key]
          && (forall n: int :: (id, n) in db.pages <==> (id, n) in db0.pages)
          && (forall n: int :: (id, n) in db0.pages && (id, n) in db.pages ==> db.pages[(id, n)] == db0.pages[(id, n)])
          && (forall c: string :: (id, c) in db.chunks <==> (id, c) in db0.chunks)
          && (forall c: string :: (id, c) in db0.chunks && (id, c) in db.chunks ==>
                db.chunks[(id, c)] == db0.chunks[(id, c)]))
  }

  ghost function RowsOf(db: Db, key: string): set<FtsContent> {
    set row | row in db.fts && row.content.documentKey == key :: row.content
  }

  /** Its index rows are old ones, or what an index repair makes of them. */
  ghost predicate RowsUntouched(db0: Db, db: Db, key: string) {
    forall row :: row in RowsOf(db, key) ==>
      row in RowsOf(db0, key) || FtsDrift.CanonicalRow(db0, row.Identity()) == Some(row)
  }

  ghost predicate ProcAnswered(content: string -> Planned, h: History, p: Proc) {
    var r, key := Reached(p.at), p.document.documentKey;
    && (4 <= r ==> p.document == content(key).document)
    && (6 <= r ==> p.text == content(key).text)
    && (8 <= r ==> key in h.touched)
    && (9 <= r ==> key in h.settled)
  }

  ghost predicate DbConfluent(content: string -> Planned, db0: Db, db: Db, h: History, target: nat) {
    && h.settled <= h.touched
    && (forall key :: key in h.touched ==> DocumentIs(db, key, content(key)))
    && (forall key :: key in h.settled ==> Settled(db, key, content(key), target))
    && (forall key :: key !in h.touched ==> Untouched(db0, db, key) && RowsUntouched(db0, db, key))
  }

  ghost predicate SysConfluent(content: string -> Planned, db0: Db, sys: Sys, h: History, target: nat) {
    && DbConfluent(content, db0, sys.db, h, target)
    && forall pid :: pid in sys.procs ==> ProcAnswered(content, h, sys.procs[pid])
  }

  // Steps that write neither documents nor pages

  lemma {:induction false} QuietStep(
    content: string -> Planned, db0: Db, db: Db, db': Db, h: History, target: nat)
    requires DbConfluent(content, db0, db, h, target)
    requires db'.documents == db.documents && db'.pages == db.pages && db'.chunks == db.chunks
    requires forall key :: key in db.documents && IndexIsFresh(db, key) ==> IndexIsFresh(db', key)
    requires OldOrCanonical(db, db.fts, db'.fts)
    ensures DbConfluent(content, db0, db', h, target)
  {
    forall key | key in h.settled ensures Settled(db', key, content(key), target) {
      assert Settled(db, key, content(key), target);
    }
    forall key | key !in h.touched ensures Untouched(db0, db', key) && RowsUntouched(db0, db', key) {
      assert Untouched(db0, db, key);
      RowsStay(db0, db, db', key);
    }
  }

  lemma {:induction false} RowsStay(db0: Db, db: Db, db': Db, key: string)
    requires Untouched(db0, db, key) && RowsUntouched(db0, db, key) && OldOrCanonical(db, db.fts, db'.fts)
    ensures RowsUntouched(db0, db', key)
  {
    forall row | row in RowsOf(db', key)
      ensures row in RowsOf(db0, key) || FtsDrift.CanonicalRow(db0, row.Identity()) == Some(row)
    {
      var r :| r in db'.fts && r.content == row && row.documentKey == key;
      if r in db.fts {
        assert row in RowsOf(db, key);
      } else {
        assert FtsDrift.CanonicalRow(db, row.Identity()) == Some(row);
      }
    }
  }

  lemma {:induction false} RepairKeepsFresh(db: Db, actions: seq<FtsRepair.Action>, key: string)
    requires Documents.TablesOk(db) && key in db.documents && IndexIsFresh(db, key)
    ensures key in Next(db, RepairIndex(actions)).documents && IndexIsFresh(Next(db, RepairIndex(actions)), key)
  {
    RepairIsCanonical(db, actions);
  }

  lemma {:induction false} RepairIsCanonical(db: Db, actions: seq<FtsRepair.Action>)
    requires Documents.TablesOk(db)
    ensures OldOrCanonical(db, db.fts, Next(db, RepairIndex(actions)).fts)
  {
    if FtsRepair.ApplyPlan(db, actions).Ok? {
      RepairKeepsAgreement(db, db.fts, actions, FtsRepair.Counts(0, 0, 0));
    }
  }

  // An upsert writes what is planned, so a document already touched keeps its row

  lemma {:induction false} SettledSame(db: Db, db': Db, key: string, planned: Planned, target: nat)
    requires Settled(db, key, planned, target)
    requires key in db'.documents && db'.documents[key] == db.documents[key]
    requires db'.pages == db.pages && db'.chunks == db.chunks && db'.fts == db.fts
    ensures Settled(db', key, planned, target)
  {
  }

  lemma {:induction false} WrittenRow(db: Db, document: Documents.UpsertDocument, key: string)
    requires key in db.documents
    requires key == document.documentKey ==> Documents.StoresDocument(db.documents[key], document)
    ensures key in Documents.WriteDocument(db, document).documents
    ensures Documents.WriteDocument(db, document).documents[key] == db.documents[key]
  {
  }

  lemma {:induction false} WrittenTables(db: Db, document: Documents.UpsertDocument)
    ensures
      var db' := Documents.WriteDocument(db, document);
      db'.pages == db.pages && db'.chunks == db.chunks && db'.fts == db.fts
  {
  }

  lemma {:induction false} UpsertSettled(
    db: Db, document: Documents.UpsertDocument, key: string, planned: Planned, target: nat)
    requires Settled(db, key, planned, target)
    requires key == document.documentKey ==> document == planned.document
    ensures Settled(Documents.WriteDocument(db, document), key, planned, target)
  {
    assert DocumentIs(db, key, planned);
    WrittenRow(db, document, key);
    WrittenTables(db, document);
    SettledSame(db, Documents.WriteDocument(db, document), key, planned, target);
  }

  lemma {:induction false} UpsertUntouched(db0: Db, db: Db, document: Documents.UpsertDocument, key: string)
    requires Untouched(db0, db, key) && RowsUntouched(db0, db, key) && key != document.documentKey
    ensures Untouched(db0, Documents.WriteDocument(db, document), key)
    ensures RowsUntouched(db0, Documents.WriteDocument(db, document), key)
  {
    RowsStay(db0, db, Documents.WriteDocument(db, document), key);
  }

  lemma {:induction false} UpsertWrites(
    content: string -> Planned, db: Db, document: Documents.UpsertDocument, touched: set<string>)
    requires forall key :: key in touched ==> DocumentIs(db, key, content(key))
    requires document == content(document.documentKey).document
    ensures forall key :: key in touched + {document.documentKey} ==>
              DocumentIs(Documents.WriteDocument(db, document), key, content(key))
  {
  }

  lemma {:induction false} UpsertConfluent(
    content: string -> Planned, db0: Db, db: Db, document: Documents.UpsertDocument, h: History, target: nat)
    requires DbConfluent(content, db0, db, h, target)
    requires document == content(document.documentKey).document
    ensures DbConfluent(content, db0, Documents.WriteDocument(db, document),
                        h.(touched := h.touched + {document.documentKey}), target)
  {
    var db' := Documents.WriteDocument(db, document);
    UpsertWrites(content, db, document, h.touched);
    forall key | key in h.settled ensures Settled(db', key, content(key), target) {
      UpsertSettled(db, document, key, content(key), target);
    }
    forall key | key !in h.touched + {document.documentKey}
      ensures Untouched(db0, db', key) && RowsUntouched(db0, db', key)
    {
      UpsertUntouched(db0, db, document, key);
    }
  }

  // A replacement settles its document and leaves the others alone

  lemma {:induction false} ReplaceSettles(
    db: Db, db': Db, key: string, planned: Planned, target: nat)
    requires Documents.TablesOk(db) && DocumentIs(db, key, planned)
    requires ReplacedBy(db, db', key, planned.text, target)
    ensures Settled(db', key, planned, target)
  {
    ReplacedHolds(db, db', key, planned.text.pages, planned.text.textSource, ChunksOf(planned.text, target));
    forall row | row in db'.fts && row.content.documentKey == key
      ensures row.content.source == db.documents[key].source && row.content.title == db.documents[key].title
    {
      FilterMember(db.fts, Documents.NotOf(key), row);
    }
  }

  /** The replacement an executor makes with this text. */
  ghost predicate ReplacedBy(db: Db, db': Db, key: string, text: ExtractedText, target: nat) {
    && key in db.documents && ChunkInputs(ChunksOf(text, target)).Ok?
    && Documents.Replaced(
         db, db', key, PageInputs(text.pages, text.textSource), ChunkInputs(ChunksOf(text, target)).value)
  }

  /** Rows of other documents survive a replacement unchanged. */
  lemma {:induction false} ReplaceSpares(
    db: Db, db': Db, key: string, other: string, pages: seq<Documents.PageInput>, chunks: seq<Documents.ChunkInput>)
    requires Documents.TablesOk(db) && key in db.documents && other in db.documents && other != key
    requires Documents.Replaced(db, db', key, pages, chunks)
    ensures db'.documents == db.documents
    ensures
      var id := db.documents[other].id;
      && (forall n: int :: (id, n) in db'.pages <==> (id, n) in db.pages)
      && (forall n: int :: (id, n) in db.pages && (id, n) in db'.pages ==> db'.pages[(id, n)] == db.pages[(id, n)])
      && (forall c: string :: (id, c) in db'.chunks <==> (id, c) in db.chunks)
      && (forall c: string :: (id, c) in db.chunks && (id, c) in db'.chunks ==> db'.chunks[(id, c)] == db.chunks[(id, c)])
    ensures forall row :: row in db'.fts && row.content.documentKey == other ==> row in db.fts
  {
    var id, gone := db.documents[other].id, db.documents[key].id;
    assert id != gone;
    forall n: int ensures (id, n) in db'.pages <==> (id, n) in db.pages {
      assert (id, n) in Documents.PagesWithout(db, gone) <==> (id, n) in db.pages;
    }
    forall c: string ensures (id, c) in db'.chunks <==> (id, c) in db.chunks {
      assert (id, c) in Documents.ChunksWithout(db, gone) <==> (id, c) in db.chunks;
    }
    forall row | row in db'.fts && row.content.documentKey == other ensures row in db.fts {
      FilterMember(db.fts, Documents.NotOf(key), row);
    }
  }

  lemma {:induction false} ReplaceSparesRows(
    db0: Db, db: Db, db': Db, key: string, other: string,
    pages: seq<Documents.PageInput>, chunks: seq<Documents.ChunkInput>)
    requires Documents.TablesOk(db) && key in db.documents && other != key
    requires Documents.Replaced(db, db', key, pages, chunks) && RowsUntouched(db0, db, other)
    ensures RowsUntouched(db0, db', other)
  {
    forall row | row in RowsOf(db', other)
      ensures row in RowsOf(db0, other) || FtsDrift.CanonicalRow(db0, row.Identity()) == Some(row)
    {
      var r :| r in db'.fts && r.content == row && row.documentKey == other;
      FilterMember(db.fts, Documents.NotOf(key), r);
      assert row in RowsOf(db, other);
    }
  }

  lemma {:induction false} SettledPages(db: Db, db': Db, id: nat, pages: seq<Chunking.PageText>, source: TextSource)
    requires PagesStored(db.pages, id, pages, source)
    requires forall n: int :: (id, n) in db'.pages <==> (id, n) in db.pages
    requires forall n: int :: (id, n) in db.pages && (id, n) in db'.pages ==> db'.pages[(id, n)] == db.pages[(id, n)]
    ensures PagesStored(db'.pages, id, pages, source)
  {
    forall k | k in db'.pages && k.0 == id ensures exists p :: p in pages && k.1 == p.pageNumber {
      var n := k.1;
      assert k == (id, n);
      assert (id, n) in db.pages;
    }
  }

  lemma {:induction false} SettledChunks(db: Db, db': Db, id: nat, chunks: seq<Chunking.Chunk>)
    requires ChunksStored(db.chunks, id, chunks)
    requires forall c: string :: (id, c) in db'.chunks <==> (id, c) in db.chunks
    requires forall c: string :: (id, c) in db.chunks && (id, c) in db'.chunks ==>
               db'.chunks[(id, c)] == db.chunks[(id, c)]
    ensures ChunksStored(db'.chunks, id, chunks)
  {
    forall k | k in db'.chunks && k.0 == id ensures exists c :: c in chunks && k.1 == c.chunkId {
      var c := k.1;
      assert k == (id, c);
      assert (id, c) in db.chunks;
    }
  }

  lemma {:induction false} SettledCarries(db: Db, db': Db, key: string, planned: Planned, target: nat)
    requires Settled(db, key, planned, target) && db'.documents == db.documents
    requires
      var id := db.documents[key].id;
      && (forall n: int :: (id, n) in db'.pages <==> (id, n) in db.pages)
      && (forall n: int :: (id, n) in db.pages && (id, n) in db'.pages ==> db'.pages[(id, n)] == db.pages[(id, n)])
      && (forall c: string :: (id, c) in db'.chunks <==> (id, c) in db.chunks)
      && (forall c: string :: (id, c) in db.chunks && (id, c) in db'.chunks ==> db'.chunks[(id, c)] == db.chunks[(id, c)])
    requires forall row :: row in db'.fts && row.content.documentKey == key ==> row in db.fts
    ensures Settled(db', key, planned, target)
  {
    var id := db.documents[key].id;
    SettledPages(db, db', id, planned.text.pages, planned.text.textSource);
    SettledChunks(db, db', id, ChunksOf(planned.text, target));
  }

  lemma {:induction false} ReplaceConfluent(
    content: string -> Planned, db0: Db, db: Db, db': Db, key: string,
    pages: seq<Documents.PageInput>, chunks: seq<Documents.ChunkInput>, h: History, target: nat)
    requires Documents.TablesOk(db) && DbConfluent(content, db0, db, h, target) && key in h.touched
    requires key in db.documents && Documents.Replaced(db, db', key, pages, chunks)
    requires Settled(db', key, content(key), target)
    ensures DbConfluent(content, db0, db', h.(settled := h.settled + {key}), target)
  {
    forall other | other in h.settled && other != key ensures Settled(db', other, content(other), target) {
      assert Settled(db, other, content(other), target);
      OthersSettled(db, db', key, other, content(other), pages, chunks, target);
    }
    forall other | other !in h.touched ensures Untouched(db0, db', other) && RowsUntouched(db0, db', other) {
      OthersUntouched(db0, db, db', key, other, pages, chunks);
    }
  }

  lemma {:induction false} OthersSettled(
    db: Db, db': Db, key: string, other: string, planned: Planned,
    pages: seq<Documents.PageInput>, chunks: seq<Documents.ChunkInput>, target: nat)
    requires Documents.TablesOk(db) && key in db.documents && other != key
    requires Documents.Replaced(db, db', key, pages, chunks) && Settled(db, other, planned, target)
    ensures Settled(db', other, planned, target)
  {
    ReplaceSpares(db, db', key, other, pages, chunks);
    SettledCarries(db, db', other, planned, target);
  }

  lemma {:induction false} OthersUntouched(
    db0: Db, db: Db, db': Db, key: string, other: string,
    pages: seq<Documents.PageInput>, chunks: seq<Documents.ChunkInput>)
    requires Documents.TablesOk(db) && key in db.documents && other != key
    requires Documents.Replaced(db, db', key, pages, chunks)
    requires Untouched(db0, db, other) && RowsUntouched(db0, db, other)
    ensures Untouched(db0, db', other) && RowsUntouched(db0, db', other)
  {
    ReplaceSparesRows(db0, db, db', key, other, pages, chunks);
    if other in db.documents {
      ReplaceSpares(db, db', key, other, pages, chunks);
    }
  }

  // One step of the system

  /** Steps of executors other than an upsert or a replacement, and enqueuing, write no document. */
  predicate Quiet(op: StoreOp) {
    !op.UpsertDocument? && !op.ReplacePagesAndChunks?
  }

  lemma {:induction false} QuietOp(
    content: string -> Planned, db0: Db, db: Db, op: StoreOp, h: History, target: nat)
    requires Documents.TablesOk(db) && DbConfluent(content, db0, db, h, target) && Quiet(op)
    ensures DbConfluent(content, db0, Next(db, op), h, target)
  {
    SameDocuments(db, op);
    var db' := Next(db, op);
    forall key | key in db.documents && IndexIsFresh(db, key) ensures IndexIsFresh(db', key) {
      if op.RepairIndex? {
        RepairKeepsFresh(db, op.actions, key);
      } else {
        SameFts(db, op);
      }
    }
    if op.RepairIndex? {
      RepairIsCanonical(db, op.actions);
    } else {
      SameFts(db, op);
    }
    QuietStep(content, db0, db, db', h, target);
  }

  lemma {:induction false} SameFts(db: Db, op: StoreOp)
    requires Quiet(op) && !op.RepairIndex?
    ensures Next(db, op).fts == db.fts
  {
  }

  lemma {:induction false} OwnUpsertConfluent(
    content: string -> Planned, db0: Db, sys: Sys, pid: nat, input: Input, h: History, target: nat)
    requires DbConfluent(content, db0, sys.db, h, target)
    requires pid in sys.procs && ProcAnswered(content, h, sys.procs[pid]) && sys.procs[pid].at.Upserting?
    ensures DbConfluent(content, db0, StepDb(sys.db, OpOf(sys.procs[pid], input, target)),
                        HistoryNext(sys, Act(pid, input), target, h), target)
  {
    var p := sys.procs[pid];
    var op := UpsertDocument(p.document);
    assert OpOf(p, input, target) == Some(op);
    if Documents.Upsert(sys.db, p.document).Ok? {
      UpsertConfluent(content, db0, sys.db, p.document, h, target);
      assert Next(sys.db, op) == Documents.WriteDocument(sys.db, p.document);
    } else {
      assert Next(sys.db, op) == sys.db;
    }
  }

  lemma {:induction false} OwnReplacementConfluent(
    content: string -> Planned, db0: Db, sys: Sys, pid: nat, input: Input, h: History, target: nat)
    requires DbOk(sys.db) && DbConfluent(content, db0, sys.db, h, target)
    requires pid in sys.procs && ProcAnswered(content, h, sys.procs[pid]) && sys.procs[pid].at.Replacing?
    ensures DbConfluent(content, db0, StepDb(sys.db, OpOf(sys.procs[pid], input, target)),
                        HistoryNext(sys, Act(pid, input), target, h), target)
  {
    var p := sys.procs[pid];
    ReplaceStepDb(sys.db, p, input, target);
    if ReplaceResult(sys.db, p, target).Ok? {
      OwnReplaceConfluent(content, db0, sys.db, p, h, target);
    }
  }

  lemma {:induction false} OwnWriteConfluent(
    content: string -> Planned, db0: Db, sys: Sys, pid: nat, input: Input, h: History, target: nat)
    requires DbOk(sys.db) && DbConfluent(content, db0, sys.db, h, target)
    requires pid in sys.procs && ProcAnswered(content, h, sys.procs[pid])
    ensures DbConfluent(content, db0, StepDb(sys.db, OpOf(sys.procs[pid], input, target)),
                        HistoryNext(sys, Act(pid, input), target, h), target)
  {
    var p := sys.procs[pid];
    if p.at.Upserting? {
      OwnUpsertConfluent(content, db0, sys, pid, input, h, target);
    } else if p.at.Replacing? {
      OwnReplacementConfluent(content, db0, sys, pid, input, h, target);
    } else if OpOf(p, input, target).Some? {
      OwnOpQuiet(p, input, target);
      QuietOp(content, db0, sys.db, OpOf(p, input, target).value, h, target);
    }
  }

  lemma {:induction false} OwnOpQuiet(p: Proc, input: Input, target: nat)
    requires OpOf(p, input, target).Some? && !p.at.Upserting? && !p.at.Replacing?
    ensures Quiet(OpOf(p, input, target).value)
  {
  }

  lemma {:induction false} AnsweredInputs(content: string -> Planned, h: History, p: Proc, target: nat)
    requires p.at.Replacing? && ProcAnswered(content, h, p)
    ensures
      var key, text := p.document.documentKey, content(p.document.documentKey).text;
      && key in h.touched && ChunkInputs(ChunksOf(text, target)) == Ok(ChunkInputsOf(p, target))
      && PageInputs(p.text.pages, p.text.textSource) == PageInputs(text.pages, text.textSource)
  {
  }

  lemma {:induction false} OwnReplaceConfluent(
    content: string -> Planned, db0: Db, db: Db, p: Proc, h: History, target: nat)
    requires Documents.TablesOk(db) && DbConfluent(content, db0, db, h, target)
    requires p.at.Replacing? && ProcAnswered(content, h, p) && ReplaceResult(db, p, target).Ok?
    ensures DbConfluent(content, db0, ReplaceResult(db, p, target).value,
                        h.(settled := h.settled + {p.document.documentKey}), target)
  {
    var key := p.document.documentKey;
    var pages, chunks := PageInputs(p.text.pages, p.text.textSource), ChunkInputsOf(p, target);
    AnsweredInputs(content, h, p, target);
    Documents.ReplaceMeaning(db, key, pages, chunks);
    ReplaceSettles(db, ReplaceResult(db, p, target).value, key, content(key), target);
    ReplaceConfluent(content, db0, db, ReplaceResult(db, p, target).value, key, pages, chunks, h, target);
  }

  lemma {:induction false} MoveAnswered(
    content: string -> Planned, sys: Sys, pid: nat, p': Proc, input: Input, h: History, target: nat)
    requires pid in sys.procs && AnsweredBy(content, sys, Act(pid, input))
    requires ProcAnswered(content, h, sys.procs[pid])
    requires Moves(sys.db, sys.procs[pid], p', input, target)
    ensures ProcAnswered(content, HistoryNext(sys, Act(pid, input), target, h), p')
  {
  }

  lemma {:induction false} HistoryGrows(
    content: string -> Planned, sys: Sys, event: Event, h: History, target: nat, q: Proc)
    requires ProcAnswered(content, h, q)
    ensures ProcAnswered(content, HistoryNext(sys, event, target, h), q)
  {
  }

  lemma {:induction false} StepConfluent(
    content: string -> Planned, db0: Db, sys: Sys, event: Event, h: History, target: nat)
    requires DbOk(sys.db) && SysConfluent(content, db0, sys, h, target) && AnsweredBy(content, sys, event)
    ensures SysConfluent(content, db0, SysNext(sys, event, target), HistoryNext(sys, event, target, h), target)
  {
    match event {
      case Act(pid, input) =>
        if pid in sys.procs {
          ActConfluent(content, db0, sys, pid, input, h, target);
        }
      case Start(pid, owner) =>
      case Crash(pid) =>
      case Enqueue(job, now) => QuietOp(content, db0, sys.db, CreateJob(job, now), h, target);
      case Repair(actions) => QuietOp(content, db0, sys.db, RepairIndex(actions), h, target);
    }
  }

  lemma {:induction false} ActConfluent(
    content: string -> Planned, db0: Db, sys: Sys, pid: nat, input: Input, h: History, target: nat)
    requires DbOk(sys.db) && SysConfluent(content, db0, sys, h, target)
    requires pid in sys.procs && AnsweredBy(content, sys, Act(pid, input))
    ensures SysConfluent(content, db0, SysNext(sys, Act(pid, input), target),
                         HistoryNext(sys, Act(pid, input), target, h), target)
  {
    var p := sys.procs[pid];
    OwnWriteConfluent(content, db0, sys, pid, input, h, target);
    EveryStepMoves(sys.db, p, input, target);
    MoveAnswered(content, sys, pid, ProcNext(sys.db, p, input, target), input, h, target);
    forall q | q in sys.procs
      ensures ProcAnswered(content, HistoryNext(sys, Act(pid, input), target, h), sys.procs[q])
    {
      HistoryGrows(content, sys, Act(pid, input), h, target, sys.procs[q]);
    }
  }

  lemma {:induction false} RunConfluent(
    content: string -> Planned, db0: Db, sys: Sys, events: seq<Event>, h: History, target: nat)
    requires SysOk(sys, target) && SysConfluent(content, db0, sys, h, target)
    requires RunAnsweredBy(content, sys, events, target)
    ensures SysConfluent(content, db0, SysRun(sys, events, target), HistoryOf(sys, events, target, h), target)
    decreases |events|
  {
    if events != [] {
      SysStepOk(sys, events[0], target);
      StepConfluent(content, db0, sys, events[0], h, target);
      RunConfluent(content, db0, SysNext(sys, events[0], target), events[1..],
                   HistoryNext(sys, events[0], target, h), target);
    }
  }

  // The theorem

  /** Equal document, pages, chunks and index rows, up to the ids the database assigned. */
  ghost predicate SameContents(a: Db, b: Db, key: string) {
    && key in a.documents && key in b.documents
    && a.documents[key].(id := 0) == b.documents[key].(id := 0)
    && (forall n: int :: (a.documents[key].id, n) in a.pages <==> (b.documents[key].id, n) in b.pages)
    && (forall n: int :: (a.documents[key].id, n) in a.pages && (b.documents[key].id, n) in b.pages ==>
          a.pages[(a.documents[key].id, n)] == b.pages[(b.documents[key].id, n)])
    && (forall c: string :: (a.documents[key].id, c) in a.chunks <==> (b.documents[key].id, c) in b.chunks)
    && (forall c: string :: (a.documents[key].id, c) in a.chunks && (b.documents[key].id, c) in b.chunks ==>
          a.chunks[(a.documents[key].id, c)] == b.chunks[(b.documents[key].id, c)])
    && (forall r, s :: r in RowsOf(a, key) && s in RowsOf(b, key) && r.chunkId == s.chunkId ==> r == s)
    && SameIndexed(a, b, key)
  }

  lemma {:induction false} SamePages(a: Db, aid: nat, b: Db, bid: nat, pages: seq<Chunking.PageText>, source: TextSource)
    requires PagesStored(a.pages, aid, pages, source) && PagesStored(b.pages, bid, pages, source)
    ensures forall n: int :: (aid, n) in a.pages ==> (bid, n) in b.pages && a.pages[(aid, n)] == b.pages[(bid, n)]
  {
    forall n: int | (aid, n) in a.pages
      ensures (bid, n) in b.pages && a.pages[(aid, n)] == b.pages[(bid, n)]
    {
      var p :| p in pages && (aid, n).1 == p.pageNumber;
    }
  }

  lemma {:induction false} SameChunks(a: Db, aid: nat, b: Db, bid: nat, chunks: seq<Chunking.Chunk>)
    requires ChunksStored(a.chunks, aid, chunks) && ChunksStored(b.chunks, bid, chunks)
    ensures forall c: string :: (aid, c) in a.chunks ==>
              (bid, c) in b.chunks && a.chunks[(aid, c)] == b.chunks[(bid, c)]
  {
    forall c: string | (aid, c) in a.chunks
      ensures (bid, c) in b.chunks && a.chunks[(aid, c)] == b.chunks[(bid, c)]
    {
      var chunk :| chunk in chunks && (aid, c).1 == chunk.chunkId;
    }
  }

  lemma {:induction false} IndexedIff(db: Db, key: string, c: string)
    requires Documents.TablesOk(db) && key in db.documents
    ensures Documents.IsIndexed(db.fts, ChunkIdentity(key, c)) <==> (db.documents[key].id, c) in db.chunks
  {
    if Documents.IsIndexed(db.fts, ChunkIdentity(key, c)) {
      var row :| row in db.fts && row.content.Identity() == ChunkIdentity(key, c);
      assert Documents.Backed(db.documents, db.chunks, row.content);
    }
  }

  lemma {:induction false} SettledDetermines(a: Db, b: Db, key: string, planned: Planned, target: nat)
    requires Documents.TablesOk(a) && Documents.TablesOk(b)
    requires Settled(a, key, planned, target) && Settled(b, key, planned, target)
    ensures SameContents(a, b, key)
  {
    var aid, bid := a.documents[key].id, b.documents[key].id;
    var pages, source, chunks := planned.text.pages, planned.text.textSource, ChunksOf(planned.text, target);
    SamePages(a, aid, b, bid, pages, source);
    SamePages(b, bid, a, aid, pages, source);
    SameChunks(a, aid, b, bid, chunks);
    SameChunks(b, bid, a, aid, chunks);
    forall c: string
      ensures Documents.IsIndexed(a.fts, ChunkIdentity(key, c)) <==> Documents.IsIndexed(b.fts, ChunkIdentity(key, c))
    {
      IndexedIff(a, key, c);
      IndexedIff(b, key, c);
    }
    forall r, s | r in RowsOf(a, key) && s in RowsOf(b, key) && r.chunkId == s.chunkId ensures r == s {
      assert Documents.Backed(a.documents, a.chunks, r);
      assert Documents.Backed(b.documents, b.chunks, s);
    }
  }

  lemma {:induction false} InitialConfluent(content: string -> Planned, sys: Sys, target: nat)
    requires Initial(sys)
    ensures SysOk(sys, target) && SysConfluent(content, sys.db, sys, History({}, {}), target)
  {
  }

  /**
   Two runs from the same store under the same answers, with any crashes, cancellations and
   interleavings: a document both have stored is stored with the same contents, and a document one
   has never upserted is as it was in all its tables, but that an index repair may have refreshed the
   source and title of its index rows.
   */
  lemma {:induction false} ResumeIsConfluent(
    content: string -> Planned, sys: Sys, one: seq<Event>, two: seq<Event>, target: nat, key: string)
    requires Initial(sys)
    requires RunAnsweredBy(content, sys, one, target) && RunAnsweredBy(content, sys, two, target)
    ensures
      var h, k := HistoryOf(sys, one, target, History({}, {})), HistoryOf(sys, two, target, History({}, {}));
      var a, b := SysRun(sys, one, target).db, SysRun(sys, two, target).db;
      && (key in h.settled && key in k.settled ==> SameContents(a, b, key))
      && (key !in h.touched ==> Untouched(sys.db, a, key) && RowsUntouched(sys.db, a, key) && SameIndexed(sys.db, a, key))
  {
    InitialConfluent(content, sys, target);
    RunConfluent(content, sys.db, sys, one, History({}, {}), target);
    RunConfluent(content, sys.db, sys, two, History({}, {}), target);
    RunOk(sys, one, target);
    RunOk(sys, two, target);
    var h, k := HistoryOf(sys, one, target, History({}, {})), HistoryOf(sys, two, target, History({}, {}));
    var a, b := SysRun(sys, one, target).db, SysRun(sys, two, target).db;
    if key in h.settled && key in k.settled {
      SettledDetermines(a, b, key, content(key), target);
    }
    if key !in h.touched {
      UntouchedIndexed(sys.db, a, key);
    }
  }

  /** The same chunks of the document are indexed. */
  ghost predicate SameIndexed(a: Db, b: Db, key: string) {
    forall c: string ::
      Documents.IsIndexed(a.fts, ChunkIdentity(key, c)) <==> Documents.IsIndexed(b.fts, ChunkIdentity(key, c))
  }

  lemma {:induction false} UntouchedIndexed(db0: Db, db: Db, key: string)
    requires Documents.TablesOk(db0) && Documents.TablesOk(db) && Untouched(db0, db, key)
    ensures SameIndexed(db0, db, key)
  {
    forall c: string
      ensures Documents.IsIndexed(db0.fts, ChunkIdentity(key, c)) <==> Documents.IsIndexed(db.fts, ChunkIdentity(key, c))
    {
      if key in db0.documents {
        IndexedIff(db0, key, c);
        IndexedIff(db, key, c);
      }
    }
  }

  // A job that succeeded has settled its document

  ghost predicate IsSettled(db: Db, h: History, id: nat) {
    exists key :: key in h.settled && key in db.documents && db.documents[key].id == id
  }

  ghost predicate LinksSettled(db: Db, h: History) {
    forall k :: k in db.jobs && db.jobs[k].documentId.Some? ==> IsSettled(db, h, db.jobs[k].documentId.value)
  }

  lemma {:induction false} SettledIdStays(db: Db, op: StoreOp, h: History, h': History, id: nat)
    requires IsSettled(db, h, id) && h.settled <= h'.settled
    ensures IsSettled(Next(db, op), h', id)
  {
    var key :| key in h.settled && key in db.documents && db.documents[key].id == id;
    if !TouchesJobs(op) {
      TableStepsKeepJobs(db, op);
    }
    assert key in Next(db, op).documents && Next(db, op).documents[key].id == id;
  }

  lemma {:induction false} OpKeepsLinks(db: Db, op: StoreOp, h: History, h': History)
    requires JobsOk(db) && LinksSettled(db, h) && h.settled <= h'.settled
    requires op.UpdateJob? && op.update.Link? ==>
               op.update.documentKey in h.settled && op.update.documentKey in db.documents
    ensures LinksSettled(Next(db, op), h')
  {
    forall k | k in Next(db, op).jobs && Next(db, op).jobs[k].documentId.Some?
      ensures IsSettled(Next(db, op), h', Next(db, op).jobs[k].documentId.value)
    {
      if k in db.jobs {
        LeaseProtocol.RowStep(db, op, k);
        LinkOrigin(db, op, h, k);
        SettledIdStays(db, op, h, h', Next(db, op).jobs[k].documentId.value);
      } else {
        NewRowUnlinked(db, op, k);
      }
    }
  }

  lemma {:induction false} LinkOrigin(db: Db, op: StoreOp, h: History, key: string)
    requires key in db.jobs && LinksSettled(db, h) && LeaseProtocol.RowNext(db, op, key).documentId.Some?
    requires op.UpdateJob? && op.update.Link? ==>
               op.update.documentKey in h.settled && op.update.documentKey in db.documents
    ensures IsSettled(db, h, LeaseProtocol.RowNext(db, op, key).documentId.value)
  {
  }

  lemma {:induction false} NewRowUnlinked(db: Db, op: StoreOp, key: string)
    requires JobsOk(db) && key !in db.jobs && key in Next(db, op).jobs
    ensures Next(db, op).jobs[key].documentId.None?
  {
    if !TouchesJobs(op) {
      TableStepsKeepJobs(db, op);
    } else if op.ClaimNextJob? {
      NextClaimMeaning(db, op.lease.now);
    }
  }

  lemma {:induction false} OwnStepKeepsLinks(db: Db, p: Proc, input: Input, h: History, h': History, target: nat)
    requires JobsOk(db) && LinksSettled(db, h) && h.settled <= h'.settled
    requires ProcOk(db, p, target) && (9 <= Reached(p.at) ==> p.document.documentKey in h.settled)
    ensures LinksSettled(StepDb(db, OpOf(p, input, target)), h')
  {
    if OpOf(p, input, target).Some? {
      OwnLinkSettled(db, p, input, h, target);
      OpKeepsLinks(db, OpOf(p, input, target).value, h, h');
    } else {
      assert forall id :: IsSettled(db, h, id) ==> IsSettled(db, h', id);
    }
  }

  lemma {:induction false} StepKeepsLinks(content: string -> Planned, db0: Db, sys: Sys, event: Event, h: History, target: nat)
    requires SysOk(sys, target) && SysConfluent(content, db0, sys, h, target) && LinksSettled(sys.db, h)
    ensures LinksSettled(SysNext(sys, event, target).db, HistoryNext(sys, event, target, h))
  {
    var h' := HistoryNext(sys, event, target, h);
    match event {
      case Act(pid, input) =>
        if pid in sys.procs {
          assert ProcAnswered(content, h, sys.procs[pid]) && ProcOk(sys.db, sys.procs[pid], target);
          OwnStepKeepsLinks(sys.db, sys.procs[pid], input, h, h', target);
        }
      case Start(pid, owner) =>
      case Crash(pid) =>
      case Enqueue(job, now) => OpKeepsLinks(sys.db, CreateJob(job, now), h, h');
      case Repair(actions) => OpKeepsLinks(sys.db, RepairIndex(actions), h, h');
    }
  }

  lemma {:induction false} OwnLinkSettled(db: Db, p: Proc, input: Input, h: History, target: nat)
    requires ProcOk(db, p, target) && (9 <= Reached(p.at) ==> p.document.documentKey in h.settled)
    requires OpOf(p, input, target).Some?
    ensures
      var op := OpOf(p, input, target).value;
      op.UpdateJob? && op.update.Link? ==> op.update.documentKey in h.settled && op.update.documentKey in db.documents
  {
  }

  lemma {:induction false} RunKeepsLinks(
    content: string -> Planned, db0: Db, sys: Sys, events: seq<Event>, h: History, target: nat)
    requires SysOk(sys, target) && SysConfluent(content, db0, sys, h, target) && LinksSettled(sys.db, h)
    requires RunAnsweredBy(content, sys, events, target)
    ensures LinksSettled(SysRun(sys, events, target).db, HistoryOf(sys, events, target, h))
    decreases |events|
  {
    if events != [] {
      SysStepOk(sys, events[0], target);
      StepConfluent(content, db0, sys, events[0], h, target);
      StepKeepsLinks(content, db0, sys, events[0], h, target);
      RunKeepsLinks(content, db0, SysNext(sys, events[0], target), events[1..],
                    HistoryNext(sys, events[0], target, h), target);
    }
  }

  /** A succeeded job is linked to a document that is stored exactly as the source described it. */
  lemma {:induction false} SucceededIsSettled(
    content: string -> Planned, sys: Sys, events: seq<Event>, target: nat, job: string) returns (key: string)
    requires Initial(sys) && RunAnsweredBy(content, sys, events, target)
    requires StatusIs(SysRun(sys, events, target).db, job, Succeeded)
    ensures key in HistoryOf(sys, events, target, History({}, {})).settled
    ensures Settled(SysRun(sys, events, target).db, key, content(key), target)
    ensures ChunksOf(content(key).text, target) == Chunking.ChunksFor(content(key).text.pages, target)
    ensures
      var db := SysRun(sys, events, target).db;
      key in db.documents && db.jobs[job].documentId == Some(db.documents[key].id)
  {
    InitialConfluent(content, sys, target);
    RunConfluent(content, sys.db, sys, events, History({}, {}), target);
    RunKeepsLinks(content, sys.db, sys, events, History({}, {}), target);
    RunOk(sys, events, target);
    var db := SysRun(sys, events, target).db;
    var h := HistoryOf(sys, events, target, History({}, {}));
    assert RowPersisted(db, db.jobs[job]);
    key :| key in h.settled && key in db.documents && db.documents[key].id == db.jobs[job].documentId.value;
  }
}
