/**
 What the outside world's answers become (src/ingest/executor.rs): a cancellation becomes the reason
 an interrupted job gives, and a downloaded asset becomes an asset row of its own document.
 */
module ExecutorAnswers {
  import opened Database
  import opened Executor
  import opened ExecutorAssets
  import opened StoreRuns
  import opened Wrappers
  import Documents
  import LeaseProtocol

  // Cancellation

  /** The checkpoint at which an executor sees the cancellation, in the words of the job's error. */
  function CancelledWhere(p: Proc, input: Input): Option<string> {
    match p.at
    case Claimed => if input.cancelled then Some("after claim") else None
    case Marked(mark) =>
      if mark == 0 then
        if input.cancelled && !input.answer.Broken? then Some("after source resolution") else None
      else if mark == 1 then
        if input.cancelled && input.answer.GotDocument? then Some("after planning") else None
      else if mark == 2 then
        if input.cancelled then Some("before download")
        else if input.cancelledLater && input.answer.GotAsset? then Some("after download")
        else None
      else if mark == 3 then
        if input.cancelled then Some("before extraction")
        else if input.answer.ExtractionCancelled? then Some("during extraction")
        else None
      else if mark == 4 then if input.cancelled then Some("before persistence") else None
      else if input.cancelled then Some("before final asset provenance write")
      else None
    case _ => None
  }

  /**
   A run is interrupted exactly at a checkpoint that sees the cancellation, which only a lost lease
   forestalls, and says where.
   */
  lemma {:induction false} InterruptedIff(db: Db, p: Proc, input: Input, target: nat)
    requires !FinishPoint(p.at)
    ensures
      var p', where := ProcNext(db, p, input, target), CancelledWhere(p, input);
      var lost := p.at.Marked? && !LeaseProtocol.Held(db, p.jobKey, p.owner);
      && ((p'.at.FinishFirst? && p'.at.update.Interrupt?) <==> where.Some? && !lost)
      && (p'.at.FinishFirst? && p'.at.update.Interrupt? ==>
            p'.at.update.reason == Some("ingestion interrupted by cancellation " + where.value))
  {
    if p.at.Marked? {
      MarkInterrupted(db, p, p.at.mark, input, target);
    } else if !p.at.Claimed? {
      OthersGoOn(db, p, input, target);
    }
  }

  predicate InterruptedWhere(p': Proc, where: Option<string>) {
    && ((p'.at.FinishFirst? && p'.at.update.Interrupt?) <==> where.Some?)
    && (where.Some? ==> p'.at.update.reason == Some("ingestion interrupted by cancellation " + where.value))
  }

  lemma {:induction false} MarkInterrupted(db: Db, p: Proc, mark: nat, input: Input, target: nat)
    requires p.at == Marked(mark)
    ensures InterruptedWhere(AfterMark(p, mark, input, target), CancelledWhere(p, input))
  {
    if mark == 2 {
      DownloadInterrupted(p, input, target);
    } else if mark == 3 {
      ExtractionInterrupted(p, input, target);
    }
  }

  lemma {:induction false} DownloadInterrupted(p: Proc, input: Input, target: nat)
    requires p.at == Marked(2)
    ensures InterruptedWhere(AfterMark(p, 2, input, target), CancelledWhere(p, input))
  {
  }

  lemma {:induction false} ExtractionInterrupted(p: Proc, input: Input, target: nat)
    requires p.at == Marked(3)
    ensures InterruptedWhere(AfterMark(p, 3, input, target), CancelledWhere(p, input))
  {
  }

  lemma {:induction false} OthersGoOn(db: Db, p: Proc, input: Input, target: nat)
    requires !FinishPoint(p.at) && !p.at.Marked? && !p.at.Claimed?
    ensures
      var p' := ProcNext(db, p, input, target);
      !(p'.at.FinishFirst? && p'.at.update.Interrupt?)
  {
  }

  // Assets

  /** The downloads answered in the run so far, with the document each was for. */
  type Downloads = set<(string, Downloaded)>

  function Hear(sys: Sys, event: Event, heard: Downloads): Downloads {
    if event.Act? && event.pid in sys.procs && sys.procs[event.pid].at == Marked(2) && event.input.answer.GotAsset? then
      heard + {(sys.procs[event.pid].document.documentKey, event.input.answer.asset)}
    else heard
  }

  ghost function HeardIn(sys: Sys, events: seq<Event>, target: nat, heard: Downloads): Downloads
    decreases |events|
  {
    if events == [] then heard
    else HeardIn(SysNext(sys, events[0], target), events[1..], target, Hear(sys, events[0], heard))
  }

  /** The asset row of this key was there from the start, or repeats a download for its document. */
  ghost predicate RowHeard(db0: Db, db: Db, heard: Downloads, k: (nat, string, AssetRole)) {
    k in db.assets ==>
      || (k in db0.assets && db.assets[k] == db0.assets[k])
      || exists key, asset :: (key, asset) in heard && IsRowOf(db, k, key, asset)
  }

  predicate IsRowOf(db: Db, k: (nat, string, AssetRole), key: string, asset: Downloaded) {
    && key in db.documents && db.documents[key].id == k.0
    && asset.assetUrl == k.1 && asset.role == k.2 && k in db.assets && db.assets[k] == asset.row
  }

  predicate ProcHeard(heard: Downloads, p: Proc) {
    5 <= Reached(p.at) ==> (p.document.documentKey, p.asset) in heard
  }

  ghost predicate SysHeard(db0: Db, sys: Sys, heard: Downloads) {
    && (forall k :: RowHeard(db0, sys.db, heard, k))
    && (forall pid :: pid in sys.procs ==> ProcHeard(heard, sys.procs[pid]))
  }

  lemma {:induction false} OthersKeepAssets(db: Db, op: StoreOp)
    requires !op.AddAsset?
    ensures Next(db, op).assets == db.assets
  {
    match op {
      case ReplacePagesAndChunks(k, pages, chunks) => ReplaceStep(db, k, pages, chunks);
      case _ =>
    }
  }

  lemma {:induction false} RowStaysHeard(db0: Db, db: Db, db': Db, heard: Downloads, k: (nat, string, AssetRole))
    requires RowHeard(db0, db, heard, k) && k in db.assets && k in db'.assets && db'.assets[k] == db.assets[k]
    requires forall d :: d in db.documents ==> d in db'.documents && db'.documents[d].id == db.documents[d].id
    ensures RowHeard(db0, db', heard, k)
  {
    if key, asset :| (key, asset) in heard && IsRowOf(db, k, key, asset) {
      assert IsRowOf(db', k, key, asset);
    }
  }

  lemma {:induction false} DocumentIdsStay(db: Db, op: StoreOp)
    ensures forall d :: d in db.documents ==>
              d in Next(db, op).documents && Next(db, op).documents[d].id == db.documents[d].id
  {
    forall d | d in db.documents
      ensures d in Next(db, op).documents && Next(db, op).documents[d].id == db.documents[d].id
    {
      DocumentsStay(db, op, d);
    }
  }

  /** The asset to write is a download for its document. */
  predicate InputHeard(heard: Downloads, input: Documents.AssetInput) {
    exists fits :: (input.documentKey, Downloaded(input.assetUrl, input.role, input.row, fits)) in heard
  }

  lemma {:induction false} OpStaysHeard(db0: Db, db: Db, op: StoreOp, heard: Downloads)
    requires forall k :: RowHeard(db0, db, heard, k)
    requires op.AddAsset? ==> InputHeard(heard, op.asset)
    ensures forall k :: RowHeard(db0, Next(db, op), heard, k)
  {
    DocumentIdsStay(db, op);
    if !op.AddAsset? {
      OthersKeepAssets(db, op);
    }
    forall k ensures RowHeard(db0, Next(db, op), heard, k) {
      assert RowHeard(db0, db, heard, k);
      if op.AddAsset? && k in Next(db, op).assets && !(k in db.assets && Next(db, op).assets[k] == db.assets[k]) {
        AddedIsHeard(db, op.asset, heard, k);
      } else if k in Next(db, op).assets {
        RowStaysHeard(db0, db, Next(db, op), heard, k);
      }
    }
  }

  lemma {:induction false} AddedIsHeard(db: Db, input: Documents.AssetInput, heard: Downloads, k: (nat, string, AssetRole))
    requires k in Next(db, AddAsset(input)).assets
    requires !(k in db.assets && Next(db, AddAsset(input)).assets[k] == db.assets[k])
    ensures forall fits ::
              IsRowOf(Next(db, AddAsset(input)), k, input.documentKey,
                      Downloaded(input.assetUrl, input.role, input.row, fits))
  {
  }

  /** The asset is fixed by the downloader's answer. */
  lemma {:induction false} AssetMoves(db: Db, p: Proc, input: Input, target: nat)
    ensures
      var p' := ProcNext(db, p, input, target);
      5 <= Reached(p'.at) ==>
        if Reached(p.at) < 5 then
          p.at == Marked(2) && input.answer == GotAsset(p'.asset) && p'.document == p.document
        else p'.asset == p.asset && p'.document == p.document
  {
    EveryStepMoves(db, p, input, target);
    if p.at.Marked? {
      MarkedAssetMoves(p, p.at.mark, input, target);
    }
  }

  lemma {:induction false} MarkedAssetMoves(p: Proc, mark: nat, input: Input, target: nat)
    requires p.at == Marked(mark)
    ensures
      var p' := AfterMark(p, mark, input, target);
      5 <= Reached(p'.at) ==>
        if mark == 2 then input.answer == GotAsset(p'.asset) && p'.document == p.document
        else mark > 2 && p'.asset == p.asset && p'.document == p.document
  {
  }

  lemma {:induction false} MoreHeard(db0: Db, db: Db, heard: Downloads, heard': Downloads)
    requires heard <= heard' && forall k :: RowHeard(db0, db, heard, k)
    ensures forall k :: RowHeard(db0, db, heard', k)
  {
    forall k ensures RowHeard(db0, db, heard', k) {
      assert RowHeard(db0, db, heard, k);
    }
  }

  lemma {:induction false} OwnAssetIsHeard(p: Proc, input: Input, target: nat, heard: Downloads)
    requires ProcHeard(heard, p) && OpOf(p, input, target).Some? && OpOf(p, input, target).value.AddAsset?
    ensures InputHeard(heard, OpOf(p, input, target).value.asset)
  {
    assert p.asset == Downloaded(p.asset.assetUrl, p.asset.role, p.asset.row, p.asset.sizeFits);
  }

  lemma {:induction false} ActHeard(db0: Db, sys: Sys, pid: nat, input: Input, target: nat, heard: Downloads)
    requires SysHeard(db0, sys, heard) && pid in sys.procs
    ensures SysHeard(db0, SysNext(sys, Act(pid, input), target), Hear(sys, Act(pid, input), heard))
  {
    var p, event := sys.procs[pid], Act(pid, input);
    var heard', sys' := Hear(sys, event, heard), SysNext(sys, event, target);
    AssetMoves(sys.db, p, input, target);
    if OpOf(p, input, target).Some? {
      var op := OpOf(p, input, target).value;
      if op.AddAsset? {
        OwnAssetIsHeard(p, input, target, heard);
      }
      OpStaysHeard(db0, sys.db, op, heard);
    }
    MoreHeard(db0, sys'.db, heard, heard');
  }

  lemma {:induction false} StepHeard(db0: Db, sys: Sys, event: Event, target: nat, heard: Downloads)
    requires SysHeard(db0, sys, heard)
    ensures SysHeard(db0, SysNext(sys, event, target), Hear(sys, event, heard))
  {
    match event {
      case Act(pid, input) =>
        if pid in sys.procs {
          ActHeard(db0, sys, pid, input, target, heard);
        }
      case Start(pid, owner) =>
      case Crash(pid) =>
      case Enqueue(job, now) => OpStaysHeard(db0, sys.db, CreateJob(job, now), heard);
      case Repair(actions) => OpStaysHeard(db0, sys.db, RepairIndex(actions), heard);
    }
  }

  lemma {:induction false} RunHeard(db0: Db, sys: Sys, events: seq<Event>, target: nat, heard: Downloads)
    requires SysHeard(db0, sys, heard)
    ensures SysHeard(db0, SysRun(sys, events, target), HeardIn(sys, events, target, heard))
    decreases |events|
  {
    if events != [] {
      StepHeard(db0, sys, events[0], target, heard);
      RunHeard(db0, SysNext(sys, events[0], target), events[1..], target, Hear(sys, events[0], heard));
    }
  }

  /**
   In every run, an asset row that was not there from the start repeats a download of the run: under
   its URL and role, with its columns, for the document it was downloaded for.
   */
  lemma {:induction false} AssetRowsAreDownloads(sys: Sys, events: seq<Event>, target: nat, k: (nat, string, AssetRole))
    requires Initial(sys)
    ensures RowHeard(sys.db, SysRun(sys, events, target).db, HeardIn(sys, events, target, {}), k)
  {
    RunHeard(sys.db, sys, events, target, {});
  }
}
