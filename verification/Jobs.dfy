/** Statements on ingestion jobs: creation, leases and guarded updates (src/ingest/jobs.rs). */
module Jobs {
  import opened Wrappers
  import opened Database

  datatype Lease = Lease(owner: string, now: int, expiresAt: int)

  datatype NewJob = NewJob(
    jobKey: string, operation: string, source: string, sourceId: Option<string>, targetUrl: Option<string>)

  // create_ingestion_job: INSERT OR IGNORE, and an outbox message only for a new row

  function CreatedRow(id: nat, job: NewJob, now: int): JobRow {
    JobRow(id, None, job.source, job.sourceId, job.targetUrl, Queued, AtQueued, 0.0, 0, None, None, None, [], now)
  }

  function Create(db: Db, job: NewJob, now: int): Db {
    if job.jobKey in db.jobs then db
    else db.(
      jobs := db.jobs[job.jobKey := CreatedRow(db.nextJobId, job, now)],
      outbox := db.outbox + [OutboxRow(job.jobKey, job.operation, job.source, job.sourceId, job.targetUrl)],
      nextJobId := db.nextJobId + 1)
  }

  // Claims

  predicate HeldBy(row: JobRow, owner: string) {
    row.status == Running && row.leaseOwner == Some(owner)
  }

  predicate Expired(row: JobRow, now: int) {
    row.status == Running && row.leaseExpiresAt.Some? && row.leaseExpiresAt.value <= now
  }

  predicate Claimable(row: JobRow, now: int) {
    row.status == Queued || row.status == Interrupted || Expired(row, now)
  }

  function Rank(status: Status): nat {
    match status case Queued => 0 case Interrupted => 1 case _ => 2
  }

  /** ORDER BY rank, updated_at, id. */
  predicate Before(a: JobRow, b: JobRow) {
    if Rank(a.status) != Rank(b.status) then Rank(a.status) < Rank(b.status)
    else if a.updatedAt != b.updatedAt then a.updatedAt < b.updatedAt
    else a.id < b.id
  }

  ghost predicate IsNextClaim(db: Db, now: int, key: string) {
    && key in db.jobs && Claimable(db.jobs[key], now)
    && forall k :: k in db.jobs && k != key && Claimable(db.jobs[k], now) ==> Before(db.jobs[key], db.jobs[k])
  }

  ghost function NextClaim(db: Db, now: int): Option<string> {
    if exists key :: IsNextClaim(db, now, key) then
      var key :| IsNextClaim(db, now, key);
      Some(key)
    else None
  }

  function ClaimedRow(row: JobRow, lease: Lease, attempts: nat): JobRow {
    row.(status := Running, attempts := attempts, leaseOwner := Some(lease.owner),
         leaseExpiresAt := Some(lease.expiresAt), error := None, updatedAt := lease.now)
  }

  function SetJob(db: Db, key: string, row: JobRow): Db {
    db.(jobs := db.jobs[key := row])
  }

  ghost function ClaimNext(db: Db, lease: Lease): Db {
    match NextClaim(db, lease.now)
    case None => db
    case Some(key) => SetJob(db, key, ClaimedRow(db.jobs[key], lease, db.jobs[key].attempts + 1))
  }

  predicate ClaimableByKey(row: JobRow, lease: Lease) {
    row.status == Queued || row.status == Interrupted || HeldBy(row, lease.owner) || Expired(row, lease.now)
  }

  function ClaimByKey(db: Db, key: string, lease: Lease): Db {
    if key in db.jobs && ClaimableByKey(db.jobs[key], lease) then
      var row := db.jobs[key];
      SetJob(db, key, ClaimedRow(row, lease, if HeldBy(row, lease.owner) then row.attempts else row.attempts + 1))
    else db
  }

  // Updates guarded by `status = 'running' AND lease_owner = ?`

  datatype JobUpdate =
    | Mark(stage: Stage, progress: real)
    | SetWarnings(warnings: seq<string>)
    | SetError(message: string)
    | Link(documentKey: string)
    | Complete
    | Fail(message: string)
    | Interrupt(reason: Option<string>)
  {
    predicate Finishes() {
      Complete? || Fail? || Interrupt?
    }

    function FinalStatus(): Status
      requires Finishes()
    {
      match this case Complete => Succeeded case Fail(_) => Failed case _ => Interrupted
    }
  }

  predicate ValidProgress(progress: real) {
    0.0 <= progress <= 1.0
  }

  function MaxProgress(a: real, b: real): real {
    if a >= b then a else b
  }

  function DocumentIdOf(db: Db, documentKey: string): Option<nat> {
    if documentKey in db.documents then Some(db.documents[documentKey].id) else None
  }

  function UpdatedRow(db: Db, row: JobRow, update: JobUpdate, now: int): JobRow {
    match update
    case Mark(stage, progress) =>
      row.(stage := stage, progress := MaxProgress(row.progress, progress), updatedAt := now)
    case SetWarnings(warnings) => row.(warnings := warnings, updatedAt := now)
    case SetError(message) => row.(error := Some(message), updatedAt := now)
    case Link(documentKey) => row.(documentId := DocumentIdOf(db, documentKey), updatedAt := now)
    case Complete =>
      row.(status := Succeeded, stage := AtSucceeded, progress := 1.0,
           leaseOwner := None, leaseExpiresAt := None, error := None, updatedAt := now)
    case Fail(message) =>
      row.(status := Failed, stage := AtFailed,
           leaseOwner := None, leaseExpiresAt := None, error := Some(message), updatedAt := now)
    case Interrupt(reason) =>
      row.(status := Interrupted, leaseOwner := None, leaseExpiresAt := None, error := reason, updatedAt := now)
  }

  function Update(db: Db, key: string, owner: string, update: JobUpdate, now: int): Db {
    if key in db.jobs && HeldBy(db.jobs[key], owner) then SetJob(db, key, UpdatedRow(db, db.jobs[key], update, now))
    else db
  }

  // Reads that decide what a call returns

  function GetJob(db: Db, key: string): Result<JobRow, StoreError> {
    if key in db.jobs then Ok(db.jobs[key]) else Err(MissingIngestionJob(key))
  }

  /** `require_updated_running_job`. */
  function RequireRunning(db: Db, key: string, owner: string): Result<JobRow, StoreError> {
    var row :- GetJob(db, key);
    if HeldBy(row, owner) then Ok(row) else Err(InvalidIngestionJobState(key))
  }

  /** The read after a finishing UPDATE. */
  function RequireStatus(db: Db, key: string, status: Status): Result<JobRow, StoreError> {
    var row :- GetJob(db, key);
    if row.status == status then Ok(row) else Err(InvalidIngestionJobState(key))
  }

  // What the table keeps

  predicate RowOk(row: JobRow) {
    && ValidProgress(row.progress)
    && (row.status == Running <==> row.leaseOwner.Some?)
    && (row.status == Running <==> row.leaseExpiresAt.Some?)
    && (row.status == Succeeded ==> row.progress == 1.0 && row.stage == AtSucceeded)
    && (row.status == Failed ==> row.stage == AtFailed)
    && (row.status == Queued ==> row.attempts == 0 && row.progress == 0.0 && row.warnings == [] && row.documentId == None)
  }

  ghost predicate IsDocument(documents: map<string, DocumentRow>, id: nat) {
    exists d :: d in documents && documents[d].id == id
  }

  ghost predicate LinksExist(documents: map<string, DocumentRow>, jobs: map<string, JobRow>) {
    forall k :: k in jobs && jobs[k].documentId.Some? ==> IsDocument(documents, jobs[k].documentId.value)
  }

  ghost predicate IsAnnounced(outbox: seq<OutboxRow>, key: string) {
    exists i :: 0 <= i < |outbox| && outbox[i].jobKey == key
  }

  /** Outbox messages and jobs are in bijection. */
  ghost predicate OutboxMatches(outbox: seq<OutboxRow>, keys: set<string>) {
    && (forall i, j :: 0 <= i < j < |outbox| ==> outbox[i].jobKey != outbox[j].jobKey)
    && (forall i :: 0 <= i < |outbox| ==> outbox[i].jobKey in keys)
    && (forall k :: k in keys ==> IsAnnounced(outbox, k))
  }

  ghost predicate RowsOk(jobs: map<string, JobRow>, nextJobId: nat) {
    && (forall k :: k in jobs ==> RowOk(jobs[k]) && jobs[k].id < nextJobId)
    && (forall k, l :: k in jobs && l in jobs && jobs[k].id == jobs[l].id ==> k == l)
  }

  ghost predicate JobsOk(db: Db) {
    && RowsOk(db.jobs, db.nextJobId)
    && LinksExist(db.documents, db.jobs)
    && OutboxMatches(db.outbox, db.jobs.Keys)
  }

  // The choice made by claim_next_ingestion_job

  lemma {:induction false} ExistsFirst(db: Db, now: int, keys: set<string>) returns (first: string)
    requires JobsOk(db) && keys != {}
    requires forall k :: k in keys ==> k in db.jobs
    ensures first in keys
    ensures forall k :: k in keys && k != first ==> Before(db.jobs[first], db.jobs[k])
    decreases |keys|
  {
    var key :| key in keys;
    first := key;
    if keys != {key} {
      var other := ExistsFirst(db, now, keys - {key});
      first := if Before(db.jobs[other], db.jobs[key]) then other else key;
      assert db.jobs[other].id != db.jobs[key].id;
    }
  }

  /** A job is chosen exactly when one is claimable. */
  lemma {:induction false} NextClaimMeaning(db: Db, now: int)
    requires JobsOk(db)
    ensures NextClaim(db, now).Some? <==> exists k :: k in db.jobs && Claimable(db.jobs[k], now)
    ensures NextClaim(db, now).Some? ==> IsNextClaim(db, now, NextClaim(db, now).value)
  {
    var keys := set k | k in db.jobs && Claimable(db.jobs[k], now);
    if k :| k in db.jobs && Claimable(db.jobs[k], now) {
      assert k in keys;
      var first := ExistsFirst(db, now, keys);
      assert IsNextClaim(db, now, first);
    }
  }

  /** The order leaves no choice which. */
  lemma {:induction false} NextClaimUnique(db: Db, now: int, key: string)
    requires JobsOk(db) && IsNextClaim(db, now, key)
    ensures NextClaim(db, now) == Some(key)
  {
    var other := NextClaim(db, now).value;
    assert IsNextClaim(db, now, other);
    assert db.jobs[other].id == db.jobs[key].id ==> other == key;
  }

  /** Waiting jobs can be claimed at any time, running ones once their lease has run out. */
  predicate CanBeClaimed(row: JobRow, now: int) {
    match row.status
    case Queued => true
    case Interrupted => true
    case Running => row.leaseExpiresAt.Some? && row.leaseExpiresAt.value <= now
    case _ => false
  }

  ghost predicate AnyWith(db: Db, status: Status) {
    exists k :: k in db.jobs && db.jobs[k].status == status
  }

  /**
   The claim order in the columns themselves: a queued job if there is any, else an interrupted one
   if there is any, else one whose lease ran out; within a status the one touched longest ago, and
   the oldest id among those.
   */
  lemma {:induction false} NextClaimOrder(db: Db, now: int)
    requires JobsOk(db)
    ensures NextClaim(db, now).Some? <==> exists k :: k in db.jobs && CanBeClaimed(db.jobs[k], now)
    ensures
      match NextClaim(db, now)
      case None => true
      case Some(key) =>
        && key in db.jobs && CanBeClaimed(db.jobs[key], now)
        && (AnyWith(db, Queued) ==> db.jobs[key].status == Queued)
        && (!AnyWith(db, Queued) && AnyWith(db, Interrupted) ==> db.jobs[key].status == Interrupted)
        && forall k :: k in db.jobs && k != key && CanBeClaimed(db.jobs[k], now)
                       && db.jobs[k].status == db.jobs[key].status ==>
             || db.jobs[key].updatedAt < db.jobs[k].updatedAt
             || (db.jobs[key].updatedAt == db.jobs[k].updatedAt && db.jobs[key].id < db.jobs[k].id)
  {
    NextClaimMeaning(db, now);
    assert forall k :: k in db.jobs ==> (CanBeClaimed(db.jobs[k], now) <==> Claimable(db.jobs[k], now));
    if NextClaim(db, now).Some? {
      var key := NextClaim(db, now).value;
      forall status | (status == Queued || status == Interrupted) && AnyWith(db, status)
        ensures Rank(db.jobs[key].status) <= Rank(status)
      {
        var k :| k in db.jobs && db.jobs[k].status == status;
        assert k != key ==> Before(db.jobs[key], db.jobs[k]);
      }
    }
  }
}
