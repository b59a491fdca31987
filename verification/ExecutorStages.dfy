/**
 What a running job reports: with distinct live owners, an executor that still holds its job finds
 in the row the stage it has announced, by name, and at least that stage's progress; on the first
 attempt exactly that (src/ingest/executor.rs).
 */
module ExecutorStages {
  import opened Database
  import opened Executor
  import opened ExecutorAssets
  import opened ExecutorSafety
  import opened Jobs
  import opened StoreRuns
  import opened Wrappers
  import LeaseProtocol

  datatype Report = Report(stage: Stage, progress: real)

  /** What an executor at this point has announced last. */
  function Announced(at: Point): Option<Report> {
    match at
    case Claimed => Some(Report(AtQueued, 0.0))
    case Marking(mark) =>
      if mark == 0 then Some(Report(AtQueued, 0.0))
      else if mark == 1 then Some(Report(ResolvingSourceRecord, 0.10))
      else if mark == 2 then Some(Report(PlanningIngestion, 0.20))
      else if mark == 3 then Some(Report(DownloadingAsset, 0.35))
      else if mark == 4 then Some(Report(ExtractingText, 0.60))
      else Some(Report(PersistingDocument, 0.80))
    case Marked(mark) =>
      if mark == 0 then Some(Report(ResolvingSourceRecord, 0.10))
      else if mark == 1 then Some(Report(PlanningIngestion, 0.20))
      else if mark == 2 then Some(Report(DownloadingAsset, 0.35))
      else if mark == 3 then Some(Report(ExtractingText, 0.60))
      else if mark == 4 then Some(Report(PersistingDocument, 0.80))
      else Some(Report(PersistingAsset, 0.90))
    case Upserting => Some(Report(PersistingDocument, 0.80))
    case Replacing => Some(Report(PersistingDocument, 0.80))
    case WarnRead(_) => Some(Report(PersistingDocument, 0.80))
    case WarnWrite(_, _) => Some(Report(PersistingDocument, 0.80))
    case WarnCheck(_) => Some(Report(PersistingDocument, 0.80))
    case Linking => Some(Report(PersistingDocument, 0.80))
    case LinkCheck => Some(Report(PersistingDocument, 0.80))
    case AssetWriting => Some(Report(PersistingAsset, 0.90))
    case _ => None
  }

  /**
   The row reports the stage and has come as far.  A job claimed again keeps what the earlier attempt
   reported until the first stage of the new one; its progress never falls.
   */
  predicate Reports(row: JobRow, report: Report) {
    && (report.stage == AtQueued || row.stage == report.stage)
    && row.progress >= report.progress
    && (row.attempts == 1 ==> row.stage == report.stage && row.progress == report.progress)
  }

  predicate ProcStaged(db: Db, p: Proc) {
    && (p.at.Marking? || p.at.Marked? ==> p.at.mark <= 5)
    && (LeaseProtocol.Held(db, p.jobKey, p.owner) && Announced(p.at).Some? ==>
          Reports(db.jobs[p.jobKey], Announced(p.at).value))
  }

  /** A queued job has not been tried; every other one has. */
  predicate RowCounted(row: JobRow) {
    if row.status == Queued then row.attempts == 0 && row.stage == AtQueued && row.progress == 0.0
    else row.attempts > 0
  }

  ghost predicate SysStaged(sys: Sys) {
    && DistinctOwners(sys)
    && (forall k :: k in sys.db.jobs ==> RowCounted(sys.db.jobs[k]))
    && (forall pid :: pid in sys.procs ==> ProcStaged(sys.db, sys.procs[pid]))
  }

  // Rows

  lemma {:induction false} RowStaysCounted(db: Db, op: StoreOp, key: string)
    requires JobsOk(db) && key in db.jobs && RowCounted(db.jobs[key])
    ensures RowCounted(LeaseProtocol.RowNext(db, op, key))
  {
    if op.ClaimNextJob? {
      NextClaimMeaning(db, op.lease.now);
    }
  }

  lemma {:induction false} NewRowCounted(db: Db, op: StoreOp, key: string)
    requires JobsOk(db) && key !in db.jobs && key in Next(db, op).jobs
    ensures RowCounted(Next(db, op).jobs[key])
  {
    if !TouchesJobs(op) {
      TableStepsKeepJobs(db, op);
    } else if op.ClaimNextJob? {
      NextClaimMeaning(db, op.lease.now);
    }
  }

  lemma {:induction false} RowsStayCounted(db: Db, op: StoreOp)
    requires JobsOk(db) && forall k :: k in db.jobs ==> RowCounted(db.jobs[k])
    ensures forall k :: k in Next(db, op).jobs ==> RowCounted(Next(db, op).jobs[k])
  {
    forall k | k in Next(db, op).jobs ensures RowCounted(Next(db, op).jobs[k]) {
      if k in db.jobs {
        LeaseProtocol.RowStep(db, op, k);
        RowStaysCounted(db, op, k);
      } else {
        NewRowCounted(db, op, k);
      }
    }
  }

  // Executors

  lemma {:induction false} ProcStaysStaged(db: Db, op: StoreOp, q: Proc)
    requires JobsOk(db) && ProcStaged(db, q) && ActsForNobodyElse(op, q.owner)
    ensures ProcStaged(Next(db, op), q)
  {
    if LeaseProtocol.Held(Next(db, op), q.jobKey, q.owner) {
      if q.jobKey in db.jobs {
        LeaseProtocol.RowStep(db, op, q.jobKey);
        OthersCannotTouch(db, op, q.jobKey, q.owner);
      } else {
        NewRowNotHeld(db, op, q.jobKey);
      }
    }
  }

  lemma {:induction false} ClaimStaged(db: Db, p: Proc, input: Input, target: nat)
    requires JobsOk(db) && p.at.Idle? && forall k :: k in db.jobs ==> RowCounted(db.jobs[k])
    ensures ProcStaged(StepDb(db, OpOf(p, input, target)), ProcNext(db, p, input, target))
  {
    NextClaimMeaning(db, input.now);
    var p', db' := ProcNext(db, p, input, target), StepDb(db, OpOf(p, input, target));
    if p'.at.Claimed? && LeaseProtocol.Held(db', p'.jobKey, p'.owner) {
      assert RowCounted(db.jobs[p'.jobKey]) && RowOk(db.jobs[p'.jobKey]);
    }
  }

  lemma {:induction false} MarkStaged(db: Db, p: Proc, input: Input, target: nat)
    requires JobsOk(db) && ProcStaged(db, p) && p.at.Marking?
    ensures ProcStaged(StepDb(db, OpOf(p, input, target)), ProcNext(db, p, input, target))
  {
    var op := OpOf(p, input, target).value;
    if LeaseProtocol.Held(Next(db, op), p.jobKey, p.owner) {
      if p.jobKey in db.jobs {
        LeaseProtocol.RowStep(db, op, p.jobKey);
        LeaseProtocol.FencedStepIfNotHeld(db, op, p.jobKey, p.owner);
      } else {
        NewRowNotHeld(db, op, p.jobKey);
      }
    }
  }

  /** The other statements leave what a row reports alone. */
  predicate KeepsReport(op: StoreOp) {
    !op.ClaimNextJob? && !op.ClaimJob? && (op.UpdateJob? ==> !op.update.Mark? && !op.update.Finishes())
  }

  lemma {:induction false} OwnOpKeepsReport(p: Proc, input: Input, target: nat)
    requires !p.at.Idle? && !p.at.Marking? && !FinishPoint(p.at) && OpOf(p, input, target).Some?
    ensures KeepsReport(OpOf(p, input, target).value)
  {
  }

  lemma {:induction false} ReportStays(db: Db, op: StoreOp, p: Proc)
    requires JobsOk(db) && ProcStaged(db, p) && KeepsReport(op)
    ensures ProcStaged(Next(db, op), p)
  {
    if LeaseProtocol.Held(Next(db, op), p.jobKey, p.owner) {
      if p.jobKey in db.jobs {
        LeaseProtocol.RowStep(db, op, p.jobKey);
      } else {
        NewRowNotHeld(db, op, p.jobKey);
      }
    }
  }

  /** The next point announces the same until the next mark. */
  predicate Continues(p: Proc, p': Proc) {
    && p'.owner == p.owner && p'.jobKey == p.jobKey
    && (Announced(p'.at).None? || Announced(p'.at) == Announced(p.at))
    && (p'.at.Marking? || p'.at.Marked? ==> p'.at.mark <= 5)
  }

  lemma {:induction false} MarkContinues(p: Proc, mark: nat, input: Input, target: nat)
    requires p.at == Marked(mark) && mark <= 5
    ensures Continues(p, AfterMark(p, mark, input, target))
  {
  }

  lemma {:induction false} FinishContinues(db: Db, p: Proc, input: Input, target: nat)
    requires FinishPoint(p.at) || p.at.Done?
    ensures Announced(ProcNext(db, p, input, target).at).None?
    ensures !ProcNext(db, p, input, target).at.Marking? && !ProcNext(db, p, input, target).at.Marked?
  {
  }

  lemma {:induction false} WarningContinues(db: Db, p: Proc, input: Input, target: nat)
    requires p.at.WarnRead? || p.at.WarnWrite? || p.at.WarnCheck?
    ensures Continues(p, ProcNext(db, p, input, target))
  {
  }

  lemma {:induction false} OtherContinues(db: Db, p: Proc, input: Input, target: nat)
    requires p.at.Claimed? || p.at.Linking? || p.at.LinkCheck?
    ensures Continues(p, ProcNext(db, p, input, target))
  {
  }

  lemma {:induction false} TablesContinue(db: Db, p: Proc, input: Input, target: nat)
    requires p.at.Upserting? || p.at.Replacing? || p.at.AssetWriting?
    ensures Continues(p, ProcNext(db, p, input, target))
  {
  }

  lemma {:induction false} QuietStepStaged(db: Db, p: Proc, input: Input, target: nat)
    requires JobsOk(db) && ProcStaged(db, p) && !p.at.Idle? && !p.at.Marking?
    ensures ProcStaged(StepDb(db, OpOf(p, input, target)), ProcNext(db, p, input, target))
  {
    if FinishPoint(p.at) || p.at.Done? {
      FinishContinues(db, p, input, target);
    } else {
      if OpOf(p, input, target).Some? {
        OwnOpKeepsReport(p, input, target);
        ReportStays(db, OpOf(p, input, target).value, p);
      }
      if p.at.Marked? {
        MarkContinues(p, p.at.mark, input, target);
      } else if p.at.WarnRead? || p.at.WarnWrite? || p.at.WarnCheck? {
        WarningContinues(db, p, input, target);
      } else if p.at.Upserting? || p.at.Replacing? || p.at.AssetWriting? {
        TablesContinue(db, p, input, target);
      } else {
        OtherContinues(db, p, input, target);
      }
    }
  }

  lemma {:induction false} OwnStepStaged(db: Db, p: Proc, input: Input, target: nat)
    requires JobsOk(db) && ProcStaged(db, p) && forall k :: k in db.jobs ==> RowCounted(db.jobs[k])
    ensures ProcStaged(StepDb(db, OpOf(p, input, target)), ProcNext(db, p, input, target))
  {
    if p.at.Idle? {
      ClaimStaged(db, p, input, target);
    } else if p.at.Marking? {
      MarkStaged(db, p, input, target);
    } else {
      QuietStepStaged(db, p, input, target);
    }
  }

  // Runs

  lemma {:induction false} ActStaged(sys: Sys, pid: nat, input: Input, target: nat)
    requires JobsOk(sys.db) && SysStaged(sys) && pid in sys.procs
    ensures SysStaged(SysNext(sys, Act(pid, input), target))
  {
    var p, sys' := sys.procs[pid], SysNext(sys, Act(pid, input), target);
    OwnStepStaged(sys.db, p, input, target);
    EveryStepMoves(sys.db, p, input, target);
    if OpOf(p, input, target).Some? {
      var op := OpOf(p, input, target).value;
      RowsStayCounted(sys.db, op);
      forall q | q in sys.procs && q != pid ensures ProcStaged(sys'.db, sys.procs[q]) {
        OwnOpActsForOwner(p, input, target, sys.procs[q].owner);
        ProcStaysStaged(sys.db, op, sys.procs[q]);
      }
    }
  }

  lemma {:induction false} OutsideStaged(sys: Sys, op: StoreOp)
    requires JobsOk(sys.db) && SysStaged(sys) && (op.CreateJob? || op.RepairIndex?)
    ensures SysStaged(sys.(db := Next(sys.db, op)))
  {
    RowsStayCounted(sys.db, op);
    forall q | q in sys.procs ensures ProcStaged(Next(sys.db, op), sys.procs[q]) {
      ProcStaysStaged(sys.db, op, sys.procs[q]);
    }
  }

  lemma {:induction false} SysStepStaged(sys: Sys, event: Event, target: nat)
    requires JobsOk(sys.db) && SysStaged(sys) && FreshOwner(sys, event)
    ensures SysStaged(SysNext(sys, event, target))
  {
    match event {
      case Act(pid, input) =>
        if pid in sys.procs {
          ActStaged(sys, pid, input, target);
        }
      case Start(pid, owner) =>
      case Crash(pid) =>
      case Enqueue(job, now) => OutsideStaged(sys, CreateJob(job, now));
      case Repair(actions) => OutsideStaged(sys, RepairIndex(actions));
    }
  }

  lemma {:induction false} RunStaged(sys: Sys, events: seq<Event>, target: nat)
    requires SysOk(sys, target) && SysStaged(sys) && RunFreshOwners(sys, events, target)
    ensures SysStaged(SysRun(sys, events, target))
    decreases |events|
  {
    if events != [] {
      SysStepOk(sys, events[0], target);
      SysStepStaged(sys, events[0], target);
      RunStaged(SysNext(sys, events[0], target), events[1..], target);
    }
  }

  /** In every run with distinct live owners, a holder finds in its row what it announced last. */
  lemma {:induction false} HolderFindsItsStage(sys: Sys, events: seq<Event>, target: nat, pid: nat)
    requires Initial(sys) && RunFreshOwners(sys, events, target)
    requires pid in SysRun(sys, events, target).procs
    ensures
      var db, p := SysRun(sys, events, target).db, SysRun(sys, events, target).procs[pid];
      LeaseProtocol.Held(db, p.jobKey, p.owner) && Announced(p.at).Some? ==>
        Reports(db.jobs[p.jobKey], Announced(p.at).value)
  {
    RunStaged(sys, events, target);
  }
}
