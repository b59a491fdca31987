/**
 What the columns of a job row say after any run (src/ingest/jobs.rs): each column holds what the
 last statement that took effect and writes this column wrote, and the columns of the request never
 change.
 */
module JobColumns {
  import opened Database
  import opened Jobs
  import opened StoreRuns
  import opened Wrappers
  import LeaseProtocol

  /** A statement that took effect on a job; a link carries the id its document had then, if any. */
  datatype Effect =
    | Claim(lease: Lease, renewal: bool)
    | Change(update: JobUpdate, now: int, documentId: Option<nat>)

  predicate IsHolder(row: JobRow, owner: string) {
    row.status == Running && row.leaseOwner.Some? && row.leaseOwner.value == owner
  }

  ghost function EffectOf(db: Db, op: StoreOp, key: string): Option<Effect>
    requires key in db.jobs
  {
    var row := db.jobs[key];
    match op
    case ClaimNextJob(lease) => if NextClaim(db, lease.now) == Some(key) then Some(Claim(lease, false)) else None
    case ClaimJob(k, lease) =>
      if k == key && (CanBeClaimed(row, lease.now) || IsHolder(row, lease.owner)) then
        Some(Claim(lease, IsHolder(row, lease.owner)))
      else None
    case UpdateJob(k, owner, update, now) =>
      if k == key && IsHolder(row, owner) && (update.Mark? ==> 0.0 <= update.progress <= 1.0) then
        Some(Change(update, now,
                    if update.Link? && update.documentKey in db.documents
                    then Some(db.documents[update.documentKey].id) else None))
      else None
    case _ => None
  }

  /** The effects on the job in the run, in order. */
  ghost function Log(db: Db, ops: seq<StoreOp>, key: string): seq<Effect>
    requires JobsOk(db) && key in db.jobs
    decreases |ops|
  {
    if ops == [] then []
    else
      StepKeepsJobs(db, ops[0]);
      LeaseProtocol.RowStep(db, ops[0], key);
      var effect := EffectOf(db, ops[0], key);
      (if effect.Some? then [effect.value] else []) + Log(Next(db, ops[0]), ops[1..], key)
  }

  // Who writes which column

  type Column<T> = Effect -> Option<T>

  function StageOf(e: Effect): Option<Stage> {
    match e
    case Change(Mark(stage, _), _, _) => Some(stage)
    case Change(Complete, _, _) => Some(AtSucceeded)
    case Change(Fail(_), _, _) => Some(AtFailed)
    case _ => None
  }

  function StatusOf(e: Effect): Option<Status> {
    match e
    case Claim(_, _) => Some(Running)
    case Change(Complete, _, _) => Some(Succeeded)
    case Change(Fail(_), _, _) => Some(Failed)
    case Change(Interrupt(_), _, _) => Some(Interrupted)
    case _ => None
  }

  function OwnerOf(e: Effect): Option<Option<string>> {
    match e
    case Claim(lease, _) => Some(Some(lease.owner))
    case Change(update, _, _) => if update.Complete? || update.Fail? || update.Interrupt? then Some(None) else None
  }

  function ExpiryOf(e: Effect): Option<Option<int>> {
    match e
    case Claim(lease, _) => Some(Some(lease.expiresAt))
    case Change(update, _, _) => if update.Complete? || update.Fail? || update.Interrupt? then Some(None) else None
  }

  function ErrorOf(e: Effect): Option<Option<string>> {
    match e
    case Claim(_, _) => Some(None)
    case Change(SetError(message), _, _) => Some(Some(message))
    case Change(Complete, _, _) => Some(None)
    case Change(Fail(message), _, _) => Some(Some(message))
    case Change(Interrupt(reason), _, _) => Some(reason)
    case _ => None
  }

  function WarningsOf(e: Effect): Option<seq<string>> {
    match e case Change(SetWarnings(warnings), _, _) => Some(warnings) case _ => None
  }

  function DocumentOf(e: Effect): Option<Option<nat>> {
    match e case Change(Link(_), _, documentId) => Some(documentId) case _ => None
  }

  function TimeOf(e: Effect): Option<int> {
    match e case Claim(lease, _) => Some(lease.now) case Change(_, now, _) => Some(now)
  }

  /** Claims that are not renewals. */
  function NewClaims(log: seq<Effect>): nat {
    if log == [] then 0 else (if log[0].Claim? && !log[0].renewal then 1 else 0) + NewClaims(log[1..])
  }

  /** What the last effect that writes the column wrote, or what was there. */
  function Last<T>(log: seq<Effect>, column: Column<T>, initial: T): T
    decreases |log|
  {
    if log == [] then initial
    else if column(log[|log| - 1]).Some? then column(log[|log| - 1]).value
    else Last(log[..|log| - 1], column, initial)
  }

  lemma {:induction false} LastConcat<T>(a: seq<Effect>, b: seq<Effect>, column: Column<T>, initial: T)
    ensures Last(a + b, column, initial) == Last(b, column, Last(a, column, initial))
    decreases |b|
  {
    if b == [] {
      assert a + b == a;
    } else {
      assert (a + b)[..|a + b| - 1] == a + b[..|b| - 1];
      LastConcat(a, b[..|b| - 1], column, initial);
    }
  }

  ghost predicate ColumnsAre(row: JobRow, was: JobRow, log: seq<Effect>) {
    && row.id == was.id && row.source == was.source
    && row.sourceId == was.sourceId && row.targetUrl == was.targetUrl
    && row.stage == Last(log, StageOf, was.stage)
    && row.status == Last(log, StatusOf, was.status)
    && row.leaseOwner == Last(log, OwnerOf, was.leaseOwner)
    && row.leaseExpiresAt == Last(log, ExpiryOf, was.leaseExpiresAt)
    && row.error == Last(log, ErrorOf, was.error)
    && row.warnings == Last(log, WarningsOf, was.warnings)
    && row.documentId == Last(log, DocumentOf, was.documentId)
    && row.updatedAt == Last(log, TimeOf, was.updatedAt)
    && row.attempts == was.attempts + NewClaims(log)
  }

  lemma {:induction false} LastOfOne<T>(e: Effect, column: Column<T>, initial: T)
    ensures Last([e], column, initial) == if column(e).Some? then column(e).value else initial
  {
    assert [e][..0] == [];
  }

  /** One statement writes the columns its effect says, and no others. */
  lemma {:induction false} StepWrites(db: Db, op: StoreOp, key: string)
    requires JobsOk(db) && key in db.jobs
    ensures key in Next(db, op).jobs
    ensures
      var effect := EffectOf(db, op, key);
      ColumnsAre(Next(db, op).jobs[key], db.jobs[key], if effect.Some? then [effect.value] else [])
  {
    LeaseProtocol.RowStep(db, op, key);
    var row, row', effect := db.jobs[key], Next(db, op).jobs[key], EffectOf(db, op, key);
    if effect.Some? {
      OneWrites(db, op, key, effect.value);
    } else {
      assert row' == row;
    }
  }

  lemma {:induction false} OneWrites(db: Db, op: StoreOp, key: string, e: Effect)
    requires key in db.jobs && EffectOf(db, op, key) == Some(e)
    ensures ColumnsAre(LeaseProtocol.RowNext(db, op, key), db.jobs[key], [e])
  {
    var row := db.jobs[key];
    LastOfOne(e, StageOf, row.stage);
    LastOfOne(e, StatusOf, row.status);
    LastOfOne(e, OwnerOf, row.leaseOwner);
    LastOfOne(e, ExpiryOf, row.leaseExpiresAt);
    LastOfOne(e, ErrorOf, row.error);
    LastOfOne(e, WarningsOf, row.warnings);
    LastOfOne(e, DocumentOf, row.documentId);
    LastOfOne(e, TimeOf, row.updatedAt);
  }

  lemma {:induction false} ColumnsConcat(a: JobRow, b: JobRow, c: JobRow, first: seq<Effect>, rest: seq<Effect>)
    requires ColumnsAre(b, a, first) && ColumnsAre(c, b, rest)
    ensures ColumnsAre(c, a, first + rest)
  {
    LastConcat(first, rest, StageOf, a.stage);
    LastConcat(first, rest, StatusOf, a.status);
    LastConcat(first, rest, OwnerOf, a.leaseOwner);
    LastConcat(first, rest, ExpiryOf, a.leaseExpiresAt);
    LastConcat(first, rest, ErrorOf, a.error);
    LastConcat(first, rest, WarningsOf, a.warnings);
    LastConcat(first, rest, DocumentOf, a.documentId);
    LastConcat(first, rest, TimeOf, a.updatedAt);
    NewClaimsConcat(first, rest);
  }

  lemma {:induction false} NewClaimsConcat(a: seq<Effect>, b: seq<Effect>)
    ensures NewClaims(a + b) == NewClaims(a) + NewClaims(b)
  {
    if a == [] {
      assert a + b == b;
    } else {
      NewClaimsConcat(a[1..], b);
      assert (a + b)[1..] == a[1..] + b;
    }
  }

  /** Over every run each column is what the last effect on it wrote. */
  lemma {:induction false} ColumnsAreLastWritten(db: Db, ops: seq<StoreOp>, key: string)
    requires JobsOk(db) && key in db.jobs
    ensures key in Run(db, ops).jobs
    ensures ColumnsAre(Run(db, ops).jobs[key], db.jobs[key], Log(db, ops, key))
    decreases |ops|
  {
    if ops != [] {
      StepKeepsJobs(db, ops[0]);
      StepWrites(db, ops[0], key);
      var db' := Next(db, ops[0]);
      ColumnsAreLastWritten(db', ops[1..], key);
      var effect := EffectOf(db, ops[0], key);
      ColumnsConcat(db.jobs[key], db'.jobs[key], Run(db, ops).jobs[key],
                    if effect.Some? then [effect.value] else [], Log(db', ops[1..], key));
    }
  }

  // Where a job comes from

  predicate CarriesRequest(row: JobRow, job: NewJob) {
    row.source == job.source && row.sourceId == job.sourceId && row.targetUrl == job.targetUrl
  }

  predicate Announces(message: OutboxRow, job: NewJob) {
    && message.jobKey == job.jobKey && message.operation == job.operation && message.source == job.source
    && message.sourceId == job.sourceId && message.targetUrl == job.targetUrl
  }

  predicate IsFresh(row: JobRow, now: int) {
    && row.status == Queued && row.stage == AtQueued && row.progress == 0.0 && row.attempts == 0
    && row.documentId.None? && row.leaseOwner.None? && row.leaseExpiresAt.None? && row.error.None?
    && row.warnings == [] && row.updatedAt == now
  }

  /** Creating: a new key gets one fresh row under a new id and one message, a known key changes nothing. */
  lemma {:induction false} CreateWrites(db: Db, job: NewJob, now: int)
    requires JobsOk(db)
    ensures
      var db', key := Next(db, CreateJob(job, now)), job.jobKey;
      if key in db.jobs then db' == db
      else
        && db'.jobs.Keys == db.jobs.Keys + {key} && (forall k :: k in db.jobs ==> db'.jobs[k] == db.jobs[k])
        && CarriesRequest(db'.jobs[key], job) && IsFresh(db'.jobs[key], now)
        && (forall k :: k in db.jobs ==> db.jobs[k].id != db'.jobs[key].id)
        && |db'.outbox| == |db.outbox| + 1 && db.outbox <= db'.outbox && Announces(db'.outbox[|db.outbox|], job)
  {
  }

  lemma {:induction false} OutboxGrows(db: Db, op: StoreOp)
    ensures db.outbox <= Next(db, op).outbox
  {
    if !TouchesJobs(op) {
      TableStepsKeepJobs(db, op);
    }
  }

  /** The job and every message about it carry this request. */
  ghost predicate Requested(db: Db, job: NewJob) {
    && job.jobKey in db.jobs && CarriesRequest(db.jobs[job.jobKey], job)
    && exists i :: 0 <= i < |db.outbox| && Announces(db.outbox[i], job)
  }

  lemma {:induction false} RequestedStays(db: Db, ops: seq<StoreOp>, job: NewJob)
    requires JobsOk(db) && Requested(db, job)
    ensures Requested(Run(db, ops), job)
    decreases |ops|
  {
    if ops != [] {
      StepKeepsJobs(db, ops[0]);
      StepWrites(db, ops[0], job.jobKey);
      OutboxGrows(db, ops[0]);
      var db' := Next(db, ops[0]);
      var i :| 0 <= i < |db.outbox| && Announces(db.outbox[i], job);
      assert Announces(db'.outbox[i], job);
      RequestedStays(db', ops[1..], job);
    }
  }

  lemma {:induction false} OnlyCreateAdds(db: Db, op: StoreOp, key: string)
    requires JobsOk(db) && key !in db.jobs && key in Next(db, op).jobs
    ensures op.CreateJob? && op.job.jobKey == key
  {
    if !TouchesJobs(op) {
      TableStepsKeepJobs(db, op);
    } else if op.ClaimNextJob? {
      NextClaimMeaning(db, op.lease.now);
    }
  }

  /**
   Every job of a run was created by one statement of it, the first for its key; its row and its one
   message carry that statement's request for good.
   */
  lemma {:induction false} JobsCarryTheirRequest(db: Db, ops: seq<StoreOp>, key: string) returns (i: nat)
    requires JobsOk(db) && key !in db.jobs && key in Run(db, ops).jobs
    ensures i < |ops| && ops[i].CreateJob? && ops[i].job.jobKey == key
    ensures key !in Run(db, ops[..i]).jobs
    ensures Requested(Run(db, ops), ops[i].job)
    ensures forall m :: m in Run(db, ops).outbox && m.jobKey == key ==> Announces(m, ops[i].job)
    decreases |ops|
  {
    StepKeepsJobs(db, ops[0]);
    var db' := Next(db, ops[0]);
    if key in db'.jobs {
      i := 0;
      OnlyCreateAdds(db, ops[0], key);
      CreateWrites(db, ops[0].job, ops[0].now);
      RequestedStays(db', ops[1..], ops[0].job);
      LeaseProtocol.RunKeepsJob(db', ops[1..], key);
      OneMessage(Run(db, ops), ops[0].job);
      assert ops[..0] == [];
    } else {
      var j := JobsCarryTheirRequest(db', ops[1..], key);
      i := j + 1;
      assert ops[..i][1..] == ops[1..][..j];
    }
  }

  lemma {:induction false} OneMessage(db: Db, job: NewJob)
    requires JobsOk(db) && Requested(db, job)
    ensures forall m :: m in db.outbox && m.jobKey == job.jobKey ==> Announces(m, job)
  {
    var i :| 0 <= i < |db.outbox| && Announces(db.outbox[i], job);
    forall m | m in db.outbox && m.jobKey == job.jobKey ensures Announces(m, job) {
      var j :| 0 <= j < |db.outbox| && db.outbox[j] == m;
      assert i == j;
    }
  }
}
