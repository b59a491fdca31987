/**
 The life of one job row over every run of store steps: what its columns record, when a lease
 can pass to another owner, and what an owner that lost it can still do.
 */
module LeaseProtocol {
  import opened Wrappers
  import opened Database
  import opened Jobs
  import opened StoreRuns

  function LeaseOf(op: StoreOp): Lease
    requires op.ClaimNextJob? || op.ClaimJob?
  {
    op.lease
  }

  /** The step claims this job. */
  ghost predicate Claims(db: Db, op: StoreOp, key: string)
    requires key in db.jobs
  {
    || (op.ClaimNextJob? && NextClaim(db, op.lease.now) == Some(key))
    || (op.ClaimJob? && op.jobKey == key
        && (CanBeClaimed(db.jobs[key], op.lease.now) || HeldBy(db.jobs[key], op.lease.owner)))
  }

  /** claim_ingestion_job by the present holder: a renewal, not a new attempt. */
  ghost predicate Renews(db: Db, op: StoreOp, key: string)
    requires key in db.jobs
  {
    op.ClaimJob? && op.jobKey == key && HeldBy(db.jobs[key], op.lease.owner)
  }

  /** The step is a guarded update of this job that takes effect. */
  predicate Updates(db: Db, op: StoreOp, key: string)
    requires key in db.jobs
  {
    && op.UpdateJob? && op.jobKey == key && HeldBy(db.jobs[key], op.owner)
    && (op.update.Mark? ==> ValidProgress(op.update.progress))
  }

  ghost function RowNext(db: Db, op: StoreOp, key: string): JobRow
    requires key in db.jobs
  {
    var row := db.jobs[key];
    if Claims(db, op, key) then
      ClaimedRow(row, LeaseOf(op), if Renews(db, op, key) then row.attempts else row.attempts + 1)
    else if Updates(db, op, key) then UpdatedRow(db, row, op.update, op.now)
    else row
  }

  lemma {:induction false} ClaimNextRow(db: Db, lease: Lease, key: string)
    requires JobsOk(db) && key in db.jobs
    ensures ClaimNext(db, lease).jobs.Keys == db.jobs.Keys
    ensures ClaimNext(db, lease).jobs[key] == RowNext(db, ClaimNextJob(lease), key)
  {
    NextClaimKnown(db, lease.now);
  }

  lemma {:induction false} NextClaimKnown(db: Db, now: int)
    ensures NextClaim(db, now).Some? ==> NextClaim(db, now).value in db.jobs
  {
    if key :| IsNextClaim(db, now, key) {
      assert NextClaim(db, now).Some?;
    }
  }

  lemma {:induction false} ClaimRow(db: Db, k: string, lease: Lease, key: string)
    requires key in db.jobs
    ensures ClaimByKey(db, k, lease).jobs.Keys == db.jobs.Keys
    ensures ClaimByKey(db, k, lease).jobs[key] == RowNext(db, ClaimJob(k, lease), key)
  {
  }

  lemma {:induction false} UpdateRow(db: Db, k: string, owner: string, update: JobUpdate, now: int, key: string)
    requires key in db.jobs
    ensures
      var op := UpdateJob(k, owner, update, now);
      && Next(db, op).jobs.Keys == db.jobs.Keys
      && Next(db, op).jobs[key] == RowNext(db, op, key)
  {
  }

  lemma {:induction false} JobRowStep(db: Db, op: StoreOp, key: string)
    requires JobsOk(db) && key in db.jobs && TouchesJobs(op)
    ensures key in Next(db, op).jobs && Next(db, op).jobs[key] == RowNext(db, op, key)
  {
    match op {
      case CreateJob(job, now) =>
      case ClaimNextJob(lease) => ClaimNextRow(db, lease, key);
      case ClaimJob(k, lease) => ClaimRow(db, k, lease, key);
      case UpdateJob(k, owner, update, now) => UpdateRow(db, k, owner, update, now, key);
    }
  }

  /** A step changes a row by claiming it or by a guarded update, and in no other way. */
  lemma {:induction false} RowStep(db: Db, op: StoreOp, key: string)
    requires JobsOk(db) && key in db.jobs
    ensures key in Next(db, op).jobs && Next(db, op).jobs[key] == RowNext(db, op, key)
  {
    if TouchesJobs(op) {
      JobRowStep(db, op, key);
    } else {
      TableStepsKeepJobs(db, op);
    }
  }

  /** The invariants hold at every point of a run, and no job disappears. */
  lemma {:induction false} RunKeepsJob(db: Db, ops: seq<StoreOp>, key: string)
    requires JobsOk(db) && key in db.jobs
    ensures JobsOk(Run(db, ops)) && key in Run(db, ops).jobs
    decreases |ops|
  {
    if ops != [] {
      StepKeepsJobs(db, ops[0]);
      RowStep(db, ops[0], key);
      RunKeepsJob(Next(db, ops[0]), ops[1..], key);
    }
  }

  // What the columns record

  predicate Terminal(row: JobRow) {
    row.status == Succeeded || row.status == Failed
  }

  lemma {:induction false} TerminalStep(db: Db, op: StoreOp, key: string)
    requires JobsOk(db) && key in db.jobs && Terminal(db.jobs[key])
    ensures RowNext(db, op, key) == db.jobs[key]
  {
    if op.ClaimNextJob? {
      NextClaimMeaning(db, op.lease.now);
    }
  }

  /** Succeeded and failed rows never change again. */
  lemma {:induction false} TerminalIsAbsorbing(db: Db, ops: seq<StoreOp>, key: string)
    requires JobsOk(db) && key in db.jobs && Terminal(db.jobs[key])
    ensures key in Run(db, ops).jobs && Run(db, ops).jobs[key] == db.jobs[key]
    decreases |ops|
  {
    if ops != [] {
      StepKeepsJobs(db, ops[0]);
      RowStep(db, ops[0], key);
      TerminalStep(db, ops[0], key);
      TerminalIsAbsorbing(Next(db, ops[0]), ops[1..], key);
    }
  }

  /** Number of claims of the job in the run that are not renewals. */
  ghost function AttemptsIn(db: Db, ops: seq<StoreOp>, key: string): nat
    requires key in db.jobs && JobsOk(db)
    decreases |ops|
  {
    if ops == [] then 0
    else
      StepKeepsJobs(db, ops[0]);
      RowStep(db, ops[0], key);
      (if Claims(db, ops[0], key) && !Renews(db, ops[0], key) then 1 else 0)
      + AttemptsIn(Next(db, ops[0]), ops[1..], key)
  }

  function MarkedProgress(db: Db, op: StoreOp, key: string, progress: real): real
    requires key in db.jobs
  {
    if Updates(db, op, key) && op.update.Mark? && op.update.progress > progress then op.update.progress else progress
  }

  /** Largest of `progress` and the marks that took effect in the run. */
  ghost function HighestMark(db: Db, ops: seq<StoreOp>, key: string, progress: real): real
    requires key in db.jobs && JobsOk(db)
    decreases |ops|
  {
    if ops == [] then progress
    else
      StepKeepsJobs(db, ops[0]);
      RowStep(db, ops[0], key);
      HighestMark(Next(db, ops[0]), ops[1..], key, MarkedProgress(db, ops[0], key, progress))
  }

  lemma {:induction false} AttemptsStep(db: Db, op: StoreOp, key: string)
    requires key in db.jobs
    ensures RowNext(db, op, key).attempts
         == db.jobs[key].attempts + if Claims(db, op, key) && !Renews(db, op, key) then 1 else 0
  {
  }

  /** Attempts count the claims of the run. */
  lemma {:induction false} AttemptsCountClaims(db: Db, ops: seq<StoreOp>, key: string)
    requires JobsOk(db) && key in db.jobs
    ensures key in Run(db, ops).jobs
    ensures Run(db, ops).jobs[key].attempts == db.jobs[key].attempts + AttemptsIn(db, ops, key)
    decreases |ops|
  {
    if ops != [] {
      StepKeepsJobs(db, ops[0]);
      RowStep(db, ops[0], key);
      AttemptsStep(db, ops[0], key);
      AttemptsCountClaims(Next(db, ops[0]), ops[1..], key);
    }
  }

  lemma {:induction false} ProgressStep(db: Db, op: StoreOp, key: string)
    requires JobsOk(db) && key in db.jobs
    ensures
      var row, row' := db.jobs[key], RowNext(db, op, key);
      && row'.progress >= row.progress
      && (row'.status != Succeeded ==> row'.progress == MarkedProgress(db, op, key, row.progress))
  {
    assert RowOk(db.jobs[key]);
  }

  /** Progress never falls; it is the highest mark of the run, and 1 once the job has succeeded. */
  lemma {:induction false} ProgressIsHighestMark(db: Db, ops: seq<StoreOp>, key: string)
    requires JobsOk(db) && key in db.jobs
    ensures key in Run(db, ops).jobs
    ensures Run(db, ops).jobs[key].progress >= db.jobs[key].progress
    ensures Run(db, ops).jobs[key].progress ==
              if Run(db, ops).jobs[key].status == Succeeded then 1.0
              else HighestMark(db, ops, key, db.jobs[key].progress)
    decreases |ops|
  {
    if ops == [] {
      assert RowOk(db.jobs[key]);
    } else {
      StepKeepsJobs(db, ops[0]);
      RowStep(db, ops[0], key);
      ProgressStep(db, ops[0], key);
      var db' := Next(db, ops[0]);
      ProgressIsHighestMark(db', ops[1..], key);
      if db'.jobs[key].status == Succeeded {
        TerminalIsAbsorbing(db', ops[1..], key);
      }
    }
  }

  // When a lease passes to another owner

  predicate Held(db: Db, key: string, owner: string) {
    key in db.jobs && HeldBy(db.jobs[key], owner)
  }

  /** The step takes the job over after its lease ran out. */
  ghost predicate TakesOverExpired(db: Db, op: StoreOp, key: string, owner: string) {
    key in db.jobs && Claims(db, op, key) && LeaseOf(op).owner != owner && Expired(db.jobs[key], LeaseOf(op).now)
  }

  /** The holder ends its own lease by completing, failing or interrupting. */
  predicate Releases(op: StoreOp, key: string, owner: string) {
    op.UpdateJob? && op.jobKey == key && op.owner == owner && op.update.Finishes()
  }

  /** An owner stops holding a job only by its own finishing call or by a takeover after expiry. */
  lemma {:induction false} LosingStep(db: Db, op: StoreOp, key: string, owner: string)
    requires JobsOk(db) && Held(db, key, owner) && !Held(Next(db, op), key, owner)
    ensures Releases(op, key, owner) || TakesOverExpired(db, op, key, owner)
  {
    RowStep(db, op, key);
    if op.ClaimNextJob? {
      NextClaimMeaning(db, op.lease.now);
    }
  }

  /** Over a run: between two owners there is a release by the first or an expiry of its lease. */
  lemma {:induction false} OwnershipPasses(db: Db, ops: seq<StoreOp>, key: string, owner: string) returns (i: nat)
    requires JobsOk(db) && Held(db, key, owner) && !Held(Run(db, ops), key, owner)
    ensures i < |ops|
    ensures Held(Run(db, ops[..i]), key, owner)
    ensures Releases(ops[i], key, owner) || TakesOverExpired(Run(db, ops[..i]), ops[i], key, owner)
    decreases |ops|
  {
    var db' := Next(db, ops[0]);
    if Held(db', key, owner) {
      StepKeepsJobs(db, ops[0]);
      var j := OwnershipPasses(db', ops[1..], key, owner);
      i := j + 1;
      assert ops[..i][1..] == ops[1..][..j];
    } else {
      LosingStep(db, ops[0], key, owner);
      i := 0;
      assert ops[..0] == [];
    }
  }

  // What an owner without the lease can do

  /** No claim of the job for this owner in the run. */
  ghost predicate NoClaimFor(db: Db, ops: seq<StoreOp>, key: string, owner: string)
    decreases |ops|
  {
    || ops == []
    || (&& (key in db.jobs && Claims(db, ops[0], key) ==> LeaseOf(ops[0]).owner != owner)
        && NoClaimFor(Next(db, ops[0]), ops[1..], key, owner))
  }

  lemma {:induction false} NoClaimPrefix(db: Db, ops: seq<StoreOp>, key: string, owner: string, i: nat)
    requires NoClaimFor(db, ops, key, owner) && i <= |ops|
    ensures NoClaimFor(db, ops[..i], key, owner)
    decreases |ops|
  {
    if i > 0 {
      NoClaimPrefix(Next(db, ops[0]), ops[1..], key, owner, i - 1);
      assert ops[..i][1..] == ops[1..][..i - 1];
    }
  }

  lemma {:induction false} FencedStep(db: Db, op: StoreOp, key: string, owner: string)
    requires key in db.jobs && !Held(db, key, owner)
    requires Claims(db, op, key) ==> LeaseOf(op).owner != owner
    ensures !HeldBy(RowNext(db, op, key), owner)
  {
  }

  /** An update cannot give an owner a lease it does not have. */
  lemma {:induction false} FencedStepIfNotHeld(db: Db, op: StoreOp, key: string, owner: string)
    requires key in db.jobs && op.UpdateJob?
    ensures HeldBy(RowNext(db, op, key), owner) ==> HeldBy(db.jobs[key], owner)
  {
  }

  lemma {:induction false} StaysFenced(db: Db, ops: seq<StoreOp>, key: string, owner: string)
    requires JobsOk(db) && key in db.jobs && !Held(db, key, owner)
    requires NoClaimFor(db, ops, key, owner)
    ensures !Held(Run(db, ops), key, owner)
    decreases |ops|
  {
    if ops != [] {
      StepKeepsJobs(db, ops[0]);
      RowStep(db, ops[0], key);
      FencedStep(db, ops[0], key, owner);
      StaysFenced(Next(db, ops[0]), ops[1..], key, owner);
    }
  }

  /** A call made of an UPDATE and, later, the read that decides its result. */
  function GuardedResult(read: Db, key: string, owner: string): Result<JobRow, StoreError> {
    RequireRunning(read, key, owner)
  }

  /** finish_ingestion_job: a first read that may already answer, an UPDATE, and a last read. */
  function FinishResult(first: Db, last: Db, key: string, status: Status): Result<JobRow, StoreError> {
    if key in first.jobs && first.jobs[key].status == status then Ok(first.jobs[key])
    else if key !in first.jobs then Err(MissingIngestionJob(key))
    else RequireStatus(last, key, status)
  }

  lemma {:induction false} RunConcat(db: Db, a: seq<StoreOp>, b: seq<StoreOp>)
    ensures Run(db, a + b) == Run(Run(db, a), b)
    decreases |a|
  {
    if a == [] {
      assert a + b == b;
    } else {
      assert (a + b)[0] == a[0] && (a + b)[1..] == a[1..] + b;
      RunConcat(Next(db, a[0]), a[1..], b);
    }
  }

  /** A finishing call with its reads at two points of a run: what its Ok says about the job at the end. */
  lemma {:induction false} FinishTells(db: Db, ops: seq<StoreOp>, key: string, j: nat, i: nat, status: Status)
    requires JobsOk(db) && key in db.jobs && j <= i <= |ops|
    ensures
      var first, last := Run(db, ops[..j]), Run(db, ops[..i]);
      && key in first.jobs && key in last.jobs
      && (FinishResult(first, last, key, status).Ok? <==>
            if status == Succeeded || status == Failed then last.jobs[key].status == status
            else first.jobs[key].status == status || last.jobs[key].status == status)
  {
    var first := Run(db, ops[..j]);
    RunKeepsJob(db, ops[..j], key);
    RunKeepsJob(db, ops[..i], key);
    assert ops[..i] == ops[..j] + ops[j..i];
    RunConcat(db, ops[..j], ops[j..i]);
    if Terminal(first.jobs[key]) {
      TerminalIsAbsorbing(first, ops[j..i], key);
    }
  }

  /**
   Until it claims the job again, an owner without the lease changes nothing: at every later point
   its updates leave the database as it is and its calls fail.  A finishing call, with its first read
   at `j` and its last at `i`, answers Ok only when the job has the status it asks for: at the end,
   if that is a final one, and otherwise at one of the two reads.
   */
  lemma {:induction false} FencedOwnerIsHarmless(
    db: Db, ops: seq<StoreOp>, key: string, owner: string, j: nat, i: nat, update: JobUpdate, now: int)
    requires JobsOk(db) && key in db.jobs && !Held(db, key, owner)
    requires NoClaimFor(db, ops, key, owner) && j <= i <= |ops|
    ensures Next(Run(db, ops[..i]), UpdateJob(key, owner, update, now)) == Run(db, ops[..i])
    ensures GuardedResult(Run(db, ops[..i]), key, owner) == Err(InvalidIngestionJobState(key))
    ensures (update.Complete? || update.Fail?) ==>
              (FinishResult(Run(db, ops[..j]), Run(db, ops[..i]), key, update.FinalStatus()).Ok?
               <==> StatusAt(db, ops, i, key) == Some(update.FinalStatus()))
    ensures update.Interrupt? ==>
              (FinishResult(Run(db, ops[..j]), Run(db, ops[..i]), key, Interrupted).Ok?
               <==> Some(Interrupted) == StatusAt(db, ops, j, key) || Some(Interrupted) == StatusAt(db, ops, i, key))
  {
    var init := ops[..i];
    NoClaimPrefix(db, ops, key, owner, i);
    StaysFenced(db, init, key, owner);
    RunKeepsJob(db, init, key);
    if update.Finishes() {
      FinishTells(db, ops, key, j, i, update.FinalStatus());
    }
  }

  ghost function StatusAt(db: Db, ops: seq<StoreOp>, i: nat, key: string): Option<Status>
    requires i <= |ops|
  {
    var rows := Run(db, ops[..i]).jobs;
    if key in rows then Some(rows[key].status) else None
  }
}
