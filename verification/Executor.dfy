/**
 Executors as processes (src/ingest/executor.rs).  Each executor is a value whose `at` says which
 statement it issues next; every statement on the shared database is one step, so any number of
 executors, enqueuers and operators interleave, and an executor may be cancelled at its
 checkpoints or crash anywhere.  What the outside world answers is an input of the step.
 */
module Executor {
  import opened Wrappers
  import opened Database
  import opened Jobs
  import opened StoreRuns
  import opened Pipeline
  import Documents
  import FtsRepair

  datatype Checkpoint =
    | AfterClaim | AfterSourceResolution | AfterPlanning | BeforeDownload | AfterDownload
    | BeforeExtraction | DuringExtraction | BeforePersistence | BeforeAssetProvenanceWrite

  /** `FinishFirst`, `FinishWrite` and `FinishLast` are the read, UPDATE and read of finish_ingestion_job. */
  datatype Point =
    | Idle
    | Claimed
    | Marking(mark: nat)
    | Marked(mark: nat)
    | Upserting
    | Replacing
    | WarnRead(i: nat)
    | WarnWrite(i: nat, read: seq<string>)
    | WarnCheck(i: nat)
    | Linking
    | LinkCheck
    | AssetWriting
    | FinishFirst(update: JobUpdate)
    | FinishWrite(update: JobUpdate)
    | FinishLast(update: JobUpdate)
    | Done(ok: bool)

  datatype Downloaded = Downloaded(assetUrl: string, role: AssetRole, row: AssetRow, sizeFits: bool)

  datatype Proc = Proc(
    owner: string, at: Point, jobKey: string,
    document: Documents.UpsertDocument, asset: Downloaded, text: ExtractedText)

  /** What adapters, planner, downloader and extractor answer at the point where they are asked. */
  datatype Answer =
    | Ready
    | GotDocument(document: Documents.UpsertDocument)
    | GotAsset(asset: Downloaded)
    | GotText(text: ExtractedText)
    | Broken(message: string)
    | ExtractionCancelled

  datatype Input = Input(now: int, expiresAt: int, cancelled: bool, cancelledLater: bool, answer: Answer)

  function StageOf(mark: nat): Stage {
    match mark
    case 0 => ResolvingSourceRecord
    case 1 => PlanningIngestion
    case 2 => DownloadingAsset
    case 3 => ExtractingText
    case 4 => PersistingDocument
    case _ => PersistingAsset
  }

  function ProgressOf(mark: nat): real {
    match mark
    case 0 => 0.10
    case 1 => 0.20
    case 2 => 0.35
    case 3 => 0.60
    case 4 => 0.80
    case _ => 0.90
  }

  function Stop(p: Proc, checkpoint: Checkpoint): Proc {
    p.(at := FinishFirst(Interrupt(Some("ingestion interrupted by cancellation " + CheckpointName(checkpoint)))))
  }

  function CheckpointName(checkpoint: Checkpoint): string {
    match checkpoint
    case AfterClaim => "after claim"
    case AfterSourceResolution => "after source resolution"
    case AfterPlanning => "after planning"
    case BeforeDownload => "before download"
    case AfterDownload => "after download"
    case BeforeExtraction => "before extraction"
    case DuringExtraction => "during extraction"
    case BeforePersistence => "before persistence"
    case BeforeAssetProvenanceWrite => "before final asset provenance write"
  }

  function Abandon(p: Proc, message: string): Proc {
    p.(at := FinishFirst(Fail(message)))
  }

  /** The work between the read that follows a stage mark and the next statement. */
  function AfterMark(p: Proc, mark: nat, input: Input, target: nat): Proc {
    match mark
    case 0 =>
      if input.answer.Broken? then Abandon(p, input.answer.message)
      else if input.cancelled then Stop(p, AfterSourceResolution)
      else p.(at := Marking(1))
    case 1 =>
      if !input.answer.GotDocument? then Abandon(p, "planning failed")
      else if input.cancelled then Stop(p, AfterPlanning)
      else p.(at := Marking(2), document := input.answer.document)
    case 2 =>
      if input.cancelled then Stop(p, BeforeDownload)
      else if !input.answer.GotAsset? then Abandon(p, "download failed")
      else if input.cancelledLater then Stop(p, AfterDownload)
      else p.(at := Marking(3), asset := input.answer.asset)
    case 3 =>
      if input.cancelled then Stop(p, BeforeExtraction)
      else if input.answer.ExtractionCancelled? then Stop(p, DuringExtraction)
      else if !input.answer.GotText? then Abandon(p, "extraction failed")
      else p.(at := Marking(4), text := input.answer.text)
    case 4 =>
      if input.cancelled then Stop(p, BeforePersistence)
      else if Prepare(p.text.pages, target).Err? then Abandon(p, "ingestion failed")
      else p.(at := Upserting)
    case _ =>
      if input.cancelled then Stop(p, BeforeAssetProvenanceWrite)
      else if !p.asset.sizeFits then Abandon(p, "asset size overflow")
      else p.(at := AssetWriting)
  }

  function NextWarning(p: Proc, i: nat): Proc {
    p.(at := if i < |p.text.warnings| then WarnRead(i) else Linking)
  }

  function StatusIs(db: Db, key: string, status: Status): bool {
    key in db.jobs && db.jobs[key].status == status
  }

  function ChunkInputsOf(p: Proc, target: nat): seq<Documents.ChunkInput> {
    match Prepare(p.text.pages, target) case Ok(inputs) => inputs case Err(_) => []
  }

  function AssetInputOf(p: Proc): Documents.AssetInput {
    Documents.AssetInput(p.document.documentKey, p.asset.assetUrl, p.asset.role, p.asset.row)
  }

  /** The statement issued at this point, if any. */
  function OpOf(p: Proc, input: Input, target: nat): Option<StoreOp> {
    match p.at
    case Idle => Some(ClaimNextJob(Lease(p.owner, input.now, input.expiresAt)))
    case Marking(mark) => Some(UpdateJob(p.jobKey, p.owner, Mark(StageOf(mark), ProgressOf(mark)), input.now))
    case Upserting => Some(UpsertDocument(p.document))
    case Replacing =>
      Some(ReplacePagesAndChunks(
        p.document.documentKey, PageInputs(p.text.pages, p.text.textSource), ChunkInputsOf(p, target)))
    case WarnWrite(i, read) =>
      if i < |p.text.warnings| then
        Some(UpdateJob(p.jobKey, p.owner, SetWarnings(read + [p.text.warnings[i]]), input.now))
      else None
    case Linking => Some(UpdateJob(p.jobKey, p.owner, Link(p.document.documentKey), input.now))
    case AssetWriting => Some(AddAsset(AssetInputOf(p)))
    case FinishWrite(update) => Some(UpdateJob(p.jobKey, p.owner, update, input.now))
    case _ => None
  }

  function ReplaceResult(db: Db, p: Proc, target: nat): Result<Db, StoreError> {
    Documents.Replace(
      db, p.document.documentKey, PageInputs(p.text.pages, p.text.textSource), ChunkInputsOf(p, target))
  }

  /** Where the executor goes after its statement on, or its read of, `db`. */
  ghost function ProcNext(db: Db, p: Proc, input: Input, target: nat): Proc {
    match p.at
    case Idle =>
      (match NextClaim(db, input.now)
       case None => p
       case Some(key) => p.(at := Claimed, jobKey := key))
    case Claimed =>
      if input.cancelled then Stop(p, AfterClaim)
      else if input.answer.Broken? then Abandon(p, input.answer.message)
      else if p.jobKey in db.jobs && db.jobs[p.jobKey].sourceId.None? && db.jobs[p.jobKey].targetUrl.None? then
        Abandon(p, "queued ingestion job has no source_id or target_url")
      else p.(at := Marking(0))
    case Marking(mark) => p.(at := Marked(mark))
    case Marked(mark) =>
      if RequireRunning(db, p.jobKey, p.owner).Err? then Abandon(p, "lease lost")
      else AfterMark(p, mark, input, target)
    case Upserting =>
      if Documents.Upsert(db, p.document).Err? then Abandon(p, "ingestion failed") else p.(at := Replacing)
    case Replacing =>
      if ReplaceResult(db, p, target).Err? then Abandon(p, "ingestion failed") else NextWarning(p, 0)
    case WarnRead(i) =>
      (match RequireRunning(db, p.jobKey, p.owner)
       case Err(_) => Abandon(p, "lease lost")
       case Ok(row) =>
         if i < |p.text.warnings| && p.text.warnings[i] !in row.warnings then p.(at := WarnWrite(i, row.warnings))
         else p.(at := WarnCheck(i)))
    case WarnWrite(i, _) => p.(at := WarnCheck(i))
    case WarnCheck(i) =>
      if RequireRunning(db, p.jobKey, p.owner).Err? then Abandon(p, "lease lost") else NextWarning(p, i + 1)
    case Linking => p.(at := LinkCheck)
    case LinkCheck =>
      (match RequireRunning(db, p.jobKey, p.owner)
       case Err(_) => Abandon(p, "lease lost")
       case Ok(row) => if row.documentId.Some? then p.(at := Marking(5)) else Abandon(p, "document not found"))
    case AssetWriting =>
      if Documents.AddAsset(db, AssetInputOf(p)).Err? then Abandon(p, "document not found")
      else p.(at := FinishFirst(Complete))
    case FinishFirst(update) =>
      if !update.Finishes() || p.jobKey !in db.jobs then p.(at := Done(false))
      else if StatusIs(db, p.jobKey, update.FinalStatus()) then p.(at := Done(true))
      else p.(at := FinishWrite(update))
    case FinishWrite(update) => p.(at := FinishLast(update))
    case FinishLast(update) =>
      p.(at := Done(update.Finishes() && StatusIs(db, p.jobKey, update.FinalStatus())))
    case Done(_) => p
  }

  // The system

  datatype Sys = Sys(db: Db, procs: map<nat, Proc>)

  datatype Event =
    | Act(pid: nat, input: Input)
    | Start(pid: nat, owner: string)
    | Crash(pid: nat)
    | Enqueue(job: NewJob, now: int)
    | Repair(actions: seq<FtsRepair.Action>)

  const NO_NOTES: Notes := Notes(None, None, None, None, None, None, None, None, None)

  function NewProc(owner: string): Proc {
    Proc(owner, Idle, "",
         Documents.UpsertDocument("", "", "", "", "", "", NO_NOTES),
         Downloaded("", OtherAsset, AssetRow(None, None, None, None, None, None, None), false),
         ExtractedText([], [], EmbeddedPdfText))
  }

  /** A worker may start a run when it has none or its last one returned. */
  predicate CanStart(sys: Sys, pid: nat) {
    pid !in sys.procs || sys.procs[pid].at.Done?
  }

  ghost function StepDb(db: Db, op: Option<StoreOp>): Db {
    match op case None => db case Some(o) => Next(db, o)
  }

  ghost function SysNext(sys: Sys, event: Event, target: nat): Sys {
    match event
    case Act(pid, input) =>
      if pid in sys.procs then
        var p := sys.procs[pid];
        Sys(StepDb(sys.db, OpOf(p, input, target)), sys.procs[pid := ProcNext(sys.db, p, input, target)])
      else sys
    case Start(pid, owner) =>
      if CanStart(sys, pid) then sys.(procs := sys.procs[pid := NewProc(owner)]) else sys
    case Crash(pid) => sys.(procs := map q | q in sys.procs && q != pid :: sys.procs[q])
    case Enqueue(job, now) => sys.(db := Next(sys.db, CreateJob(job, now)))
    case Repair(actions) => sys.(db := Next(sys.db, RepairIndex(actions)))
  }

  ghost function SysRun(sys: Sys, events: seq<Event>, target: nat): Sys
    decreases |events|
  {
    if events == [] then sys else SysRun(SysNext(sys, events[0], target), events[1..], target)
  }

  /** A store with any documents, in agreement with its index, and no jobs or executors yet. */
  ghost predicate Initial(sys: Sys) {
    DbOk(sys.db) && sys.db.jobs == map[] && sys.procs == map[]
  }

  /** How far a run has come; runs that are ending without success count as nothing. */
  function Reached(at: Point): nat {
    match at
    case Idle => 0
    case Claimed => 1
    case Marking(mark) => if mark >= 5 then 11 else 2 + mark
    case Marked(mark) => if mark >= 5 then 11 else 2 + mark
    case Upserting => 7
    case Replacing => 8
    case WarnRead(_) => 9
    case WarnWrite(_, _) => 9
    case WarnCheck(_) => 9
    case Linking => 9
    case LinkCheck => 10
    case AssetWriting => 11
    case FinishFirst(update) => if update.Complete? then 12 else 0
    case FinishWrite(update) => if update.Complete? then 12 else 0
    case FinishLast(update) => if update.Complete? then 12 else 0
    case Done(_) => 0
  }

  /**
   How a run moves: one stage at a time or out of it; its job stays; the document is fixed by the
   planner's answer, the text by the extractor's, and each later stage is entered only from the
   statement that earns it.
   */
  ghost predicate Moves(db: Db, p: Proc, p': Proc, input: Input, target: nat) {
    var r, r' := Reached(p.at), Reached(p'.at);
    && p'.owner == p.owner
    && (2 <= r' ==> 1 <= r <= r' <= r + 1 && p'.jobKey == p.jobKey)
    && (4 <= r && 4 <= r' ==> p'.document == p.document)
    && (6 <= r && 6 <= r' ==> p'.text == p.text)
    && (r == 3 && r' == 4 ==> p.at == Marked(1) && input.answer == GotDocument(p'.document))
    && (r == 5 && r' == 6 ==> p.at == Marked(3) && input.answer == GotText(p'.text))
    && (r == 6 && r' == 7 ==> Prepare(p.text.pages, target).Ok?)
    && (r == 7 && r' == 8 ==> p.at.Upserting? && Documents.Upsert(db, p.document).Ok?)
    && (r == 8 && r' == 9 ==> p.at.Replacing? && ReplaceResult(db, p, target).Ok?)
    && (r == 9 && r' == 10 ==> p.at.Linking?)
    && (r == 10 && r' == 11 ==> p.at.LinkCheck? && p.jobKey in db.jobs && db.jobs[p.jobKey].documentId.Some?
                                 && HeldBy(db.jobs[p.jobKey], p.owner))
    && (r == 11 && r' == 12 ==> p.at.AssetWriting? && Documents.AddAsset(db, AssetInputOf(p)).Ok?)
    && (FinishPoint(p'.at) && !FinishPoint(p.at) ==> p'.at.update.Finishes())
    && (FinishPoint(p'.at) && FinishPoint(p.at) ==> p'.at.update == p.at.update)
    && (r == r' == 8 ==> p'.at == p.at)
    && (r == r' == 7 ==> p'.at == p.at)
  }

  predicate FinishPoint(at: Point) {
    at.FinishFirst? || at.FinishWrite? || at.FinishLast?
  }

  lemma {:induction false} AfterMarkMoves(db: Db, p: Proc, mark: nat, input: Input, target: nat)
    requires p.at == Marked(mark)
    ensures Moves(db, p, AfterMark(p, mark, input, target), input, target)
  {
  }

  lemma {:induction false} MarkedMoves(db: Db, p: Proc, input: Input, target: nat)
    requires p.at.Marked?
    ensures Moves(db, p, ProcNext(db, p, input, target), input, target)
  {
    AfterMarkMoves(db, p, p.at.mark, input, target);
  }

  lemma {:induction false} WriteMoves(db: Db, p: Proc, input: Input, target: nat)
    requires OpOf(p, input, target).Some?
    ensures Moves(db, p, ProcNext(db, p, input, target), input, target)
  {
  }

  lemma {:induction false} FinishMoves(db: Db, p: Proc, input: Input, target: nat)
    requires p.at.FinishFirst? || p.at.FinishLast?
    ensures Moves(db, p, ProcNext(db, p, input, target), input, target)
  {
  }

  lemma {:induction false} WarningMoves(db: Db, p: Proc, input: Input, target: nat)
    requires p.at.WarnRead? || p.at.WarnWrite? || p.at.WarnCheck?
    ensures Moves(db, p, ProcNext(db, p, input, target), input, target)
  {
  }

  lemma {:induction false} ReadMoves(db: Db, p: Proc, input: Input, target: nat)
    requires p.at.Claimed? || p.at.LinkCheck? || p.at.Done?
    ensures Moves(db, p, ProcNext(db, p, input, target), input, target)
  {
  }

  lemma {:induction false} EveryStepMoves(db: Db, p: Proc, input: Input, target: nat)
    ensures Moves(db, p, ProcNext(db, p, input, target), input, target)
  {
    if p.at.Marked? {
      MarkedMoves(db, p, input, target);
    } else if p.at.FinishFirst? || p.at.FinishLast? {
      FinishMoves(db, p, input, target);
    } else if p.at.WarnRead? || p.at.WarnWrite? || p.at.WarnCheck? {
      WarningMoves(db, p, input, target);
    } else if OpOf(p, input, target).Some? {
      WriteMoves(db, p, input, target);
    } else {
      ReadMoves(db, p, input, target);
    }
  }
}
