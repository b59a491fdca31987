/**
 The asset half of persist before complete.  It needs more than the rest: either the source
 always plans the same document for a job, or live executors have distinct owner names.  With
 neither, one executor's completion can follow another executor's link.
 */
module ExecutorAssets {
  import opened Wrappers
  import opened Database
  import opened Jobs
  import opened StoreRuns
  import opened Executor
  import opened ExecutorSafety
  import LeaseProtocol
  import Documents

  ghost predicate HasAsset(db: Db, id: nat) {
    exists url: string, role: AssetRole :: (id, url, role) in db.assets
  }

  ghost predicate AssetStored(db: Db, key: string) {
    key in db.documents && HasAsset(db, db.documents[key].id)
  }

  ghost predicate LinkedTo(db: Db, row: JobRow, key: string) {
    key in db.documents && row.documentId == Some(db.documents[key].id)
  }

  // What no step undoes

  lemma {:induction false} DocumentsStay(db: Db, op: StoreOp, key: string)
    requires key in db.documents
    ensures key in Next(db, op).documents && Next(db, op).documents[key].id == db.documents[key].id
  {
    if !TouchesJobs(op) {
      TableStepsKeepJobs(db, op);
    }
  }

  lemma {:induction false} AssetsOnlyGrow(db: Db, op: StoreOp, id: nat)
    ensures HasAsset(db, id) ==> HasAsset(Next(db, op), id)
  {
    if HasAsset(db, id) {
      var url: string, role: AssetRole :| (id, url, role) in db.assets;
      match op {
        case ReplacePagesAndChunks(k, pages, chunks) => ReplaceStep(db, k, pages, chunks);
        case _ =>
      }
      assert (id, url, role) in Next(db, op).assets;
    }
  }

  lemma {:induction false} AssetStays(db: Db, op: StoreOp, key: string)
    requires AssetStored(db, key)
    ensures AssetStored(Next(db, op), key)
  {
    DocumentsStay(db, op, key);
    AssetsOnlyGrow(db, op, db.documents[key].id);
  }

  lemma {:induction false} AddedAsset(db: Db, p: Proc)
    requires Documents.AddAsset(db, AssetInputOf(p)).Ok?
    ensures AssetStored(Next(db, AddAsset(AssetInputOf(p))), p.document.documentKey)
  {
    var db' := Next(db, AddAsset(AssetInputOf(p)));
    assert (db.documents[p.document.documentKey].id, p.asset.assetUrl, p.asset.role) in db'.assets;
  }

  // First hypothesis: the planned document key is a function of the job

  /** The planner's answer for a job names the document `keyOf` says. */
  predicate PlansBy(keyOf: string -> string, sys: Sys, event: Event) {
    event.Act? && event.pid in sys.procs && sys.procs[event.pid].at == Marked(1) && event.input.answer.GotDocument? ==>
      event.input.answer.document.documentKey == keyOf(sys.procs[event.pid].jobKey)
  }

  ghost predicate RunPlansBy(keyOf: string -> string, sys: Sys, events: seq<Event>, target: nat)
    decreases |events|
  {
    events == [] || (PlansBy(keyOf, sys, events[0]) && RunPlansBy(keyOf, SysNext(sys, events[0], target), events[1..], target))
  }

  ghost predicate ProcPlanned(keyOf: string -> string, db: Db, p: Proc) {
    && (4 <= Reached(p.at) ==> p.document.documentKey == keyOf(p.jobKey))
    && (12 <= Reached(p.at) ==> AssetStored(db, keyOf(p.jobKey)))
  }

  ghost predicate RowPlanned(keyOf: string -> string, db: Db, key: string, row: JobRow) {
    && (row.documentId.Some? ==> LinkedTo(db, row, keyOf(key)))
    && (row.status == Succeeded ==> AssetStored(db, keyOf(key)))
  }

  ghost predicate SysPlanned(keyOf: string -> string, sys: Sys) {
    && (forall k :: k in sys.db.jobs ==> RowPlanned(keyOf, sys.db, k, sys.db.jobs[k]))
    && (forall pid :: pid in sys.procs ==> ProcPlanned(keyOf, sys.db, sys.procs[pid]))
  }

  ghost predicate PlannedOp(keyOf: string -> string, db: Db, op: StoreOp) {
    op.UpdateJob? ==>
      && (op.update.Link? ==> op.update.documentKey == keyOf(op.jobKey))
      && (op.update.Complete? ==> AssetStored(db, keyOf(op.jobKey)))
  }

  lemma {:induction false} RowStaysPlanned(keyOf: string -> string, db: Db, op: StoreOp, key: string)
    requires JobsOk(db) && key in db.jobs && RowPlanned(keyOf, db, key, db.jobs[key]) && PlannedOp(keyOf, db, op)
    ensures RowPlanned(keyOf, Next(db, op), key, LeaseProtocol.RowNext(db, op, key))
  {
    if keyOf(key) in db.documents {
      DocumentsStay(db, op, keyOf(key));
      AssetsOnlyGrow(db, op, db.documents[keyOf(key)].id);
    }
    if op.ClaimNextJob? {
      NextClaimMeaning(db, op.lease.now);
    }
  }

  lemma {:induction false} NewRowPlanned(keyOf: string -> string, db: Db, op: StoreOp, key: string)
    requires JobsOk(db) && key !in db.jobs && key in Next(db, op).jobs
    ensures RowPlanned(keyOf, Next(db, op), key, Next(db, op).jobs[key])
  {
    if !TouchesJobs(op) {
      TableStepsKeepJobs(db, op);
    } else if op.ClaimNextJob? {
      NextClaimMeaning(db, op.lease.now);
    }
  }

  lemma {:induction false} RowsStayPlanned(keyOf: string -> string, db: Db, op: StoreOp)
    requires JobsOk(db) && PlannedOp(keyOf, db, op)
    requires forall k :: k in db.jobs ==> RowPlanned(keyOf, db, k, db.jobs[k])
    ensures forall k :: k in Next(db, op).jobs ==> RowPlanned(keyOf, Next(db, op), k, Next(db, op).jobs[k])
  {
    forall k | k in Next(db, op).jobs ensures RowPlanned(keyOf, Next(db, op), k, Next(db, op).jobs[k]) {
      if k in db.jobs {
        LeaseProtocol.RowStep(db, op, k);
        RowStaysPlanned(keyOf, db, op, k);
      } else {
        NewRowPlanned(keyOf, db, op, k);
      }
    }
  }

  lemma {:induction false} ProcStaysPlanned(keyOf: string -> string, db: Db, op: StoreOp, q: Proc)
    requires ProcPlanned(keyOf, db, q)
    ensures ProcPlanned(keyOf, Next(db, op), q)
  {
    if 12 <= Reached(q.at) {
      AssetStays(db, op, keyOf(q.jobKey));
    }
  }

  /** Where an executor's next point demands an asset, it has just written it or had it before. */
  lemma {:induction false} MovePlanned(
    keyOf: string -> string, db: Db, db': Db, p: Proc, p': Proc, input: Input, target: nat)
    requires Moves(db, p, p', input, target) && ProcPlanned(keyOf, db', p)
    requires p.at == Marked(1) && input.answer.GotDocument? ==>
               input.answer.document.documentKey == keyOf(p.jobKey)
    requires p.at.AssetWriting? && Documents.AddAsset(db, AssetInputOf(p)).Ok? ==>
               AssetStored(db', p.document.documentKey)
    ensures ProcPlanned(keyOf, db', p')
  {
  }

  lemma {:induction false} OwnStepPlanned(keyOf: string -> string, db: Db, p: Proc, input: Input, target: nat)
    requires ProcPlanned(keyOf, db, p) && (FinishPoint(p.at) ==> p.at.update.Finishes())
    requires p.at == Marked(1) && input.answer.GotDocument? ==>
               input.answer.document.documentKey == keyOf(p.jobKey)
    ensures OpOf(p, input, target).Some? ==> PlannedOp(keyOf, db, OpOf(p, input, target).value)
    ensures ProcPlanned(keyOf, StepDb(db, OpOf(p, input, target)), ProcNext(db, p, input, target))
  {
    var db' := StepDb(db, OpOf(p, input, target));
    if OpOf(p, input, target).Some? {
      ProcStaysPlanned(keyOf, db, OpOf(p, input, target).value, p);
    }
    if p.at.AssetWriting? && Documents.AddAsset(db, AssetInputOf(p)).Ok? {
      AddedAsset(db, p);
    }
    EveryStepMoves(db, p, input, target);
    MovePlanned(keyOf, db, db', p, ProcNext(db, p, input, target), input, target);
  }

  lemma {:induction false} OpStepPlanned(keyOf: string -> string, sys: Sys, op: StoreOp)
    requires JobsOk(sys.db) && SysPlanned(keyOf, sys) && PlannedOp(keyOf, sys.db, op)
    ensures SysPlanned(keyOf, sys.(db := Next(sys.db, op)))
  {
    RowsStayPlanned(keyOf, sys.db, op);
    forall q | q in sys.procs ensures ProcPlanned(keyOf, Next(sys.db, op), sys.procs[q]) {
      ProcStaysPlanned(keyOf, sys.db, op, sys.procs[q]);
    }
  }

  lemma {:induction false} SysStepPlanned(keyOf: string -> string, sys: Sys, event: Event, target: nat)
    requires SysOk(sys, target) && SysPlanned(keyOf, sys) && PlansBy(keyOf, sys, event)
    ensures SysPlanned(keyOf, SysNext(sys, event, target))
  {
    match event {
      case Act(pid, input) =>
        if pid in sys.procs {
          var p := sys.procs[pid];
          assert ProcOk(sys.db, p, target);
          OwnStepPlanned(keyOf, sys.db, p, input, target);
          if OpOf(p, input, target).Some? {
            OpStepPlanned(keyOf, sys, OpOf(p, input, target).value);
          }
        }
      case Start(pid, owner) =>
      case Crash(pid) =>
      case Enqueue(job, now) => OpStepPlanned(keyOf, sys, CreateJob(job, now));
      case Repair(actions) => OpStepPlanned(keyOf, sys, RepairIndex(actions));
    }
  }

  lemma {:induction false} RunPlanned(keyOf: string -> string, sys: Sys, events: seq<Event>, target: nat)
    requires SysOk(sys, target) && SysPlanned(keyOf, sys) && RunPlansBy(keyOf, sys, events, target)
    ensures SysPlanned(keyOf, SysRun(sys, events, target))
    decreases |events|
  {
    if events != [] {
      SysStepOk(sys, events[0], target);
      SysStepPlanned(keyOf, sys, events[0], target);
      RunPlanned(keyOf, SysNext(sys, events[0], target), events[1..], target);
    }
  }

  /** With a deterministic planner, a succeeded job's document has its asset, even under equal owner names. */
  lemma {:induction false} SucceededHasPlannedAsset(
    keyOf: string -> string, sys: Sys, events: seq<Event>, target: nat, job: string)
    requires Initial(sys) && RunPlansBy(keyOf, sys, events, target)
    requires StatusIs(SysRun(sys, events, target).db, job, Succeeded)
    ensures
      var db := SysRun(sys, events, target).db;
      LinkedTo(db, db.jobs[job], keyOf(job)) && AssetStored(db, keyOf(job))
  {
    RunOk(sys, events, target);
    RunPlanned(keyOf, sys, events, target);
    var db := SysRun(sys, events, target).db;
    assert RowPersisted(db, db.jobs[job]) && RowPlanned(keyOf, db, job, db.jobs[job]);
  }

  // Second hypothesis: live executors have distinct owner names

  predicate FreshOwner(sys: Sys, event: Event) {
    event.Start? && CanStart(sys, event.pid) ==>
      forall q :: q in sys.procs && q != event.pid ==> sys.procs[q].owner != event.owner
  }

  ghost predicate RunFreshOwners(sys: Sys, events: seq<Event>, target: nat)
    decreases |events|
  {
    events == [] || (FreshOwner(sys, events[0]) && RunFreshOwners(SysNext(sys, events[0], target), events[1..], target))
  }

  ghost predicate DistinctOwners(sys: Sys) {
    forall p, q :: p in sys.procs && q in sys.procs && p != q ==> sys.procs[p].owner != sys.procs[q].owner
  }

  /** From its link on, an executor that holds the lease sees its own link in the row. */
  ghost predicate ProcLinked(db: Db, p: Proc) {
    && (10 <= Reached(p.at) && LeaseProtocol.Held(db, p.jobKey, p.owner) ==>
          LinkedTo(db, db.jobs[p.jobKey], p.document.documentKey))
    && (12 <= Reached(p.at) ==> AssetStored(db, p.document.documentKey))
  }

  ghost predicate RowHasAsset(db: Db, row: JobRow) {
    row.status == Succeeded ==> row.documentId.Some? && HasAsset(db, row.documentId.value)
  }

  ghost predicate SysLinked(sys: Sys) {
    && DistinctOwners(sys)
    && (forall k :: k in sys.db.jobs ==> RowHasAsset(sys.db, sys.db.jobs[k]))
    && (forall pid :: pid in sys.procs ==> ProcLinked(sys.db, sys.procs[pid]))
  }

  /** The statement acts under another owner name. */
  predicate ActsForNobodyElse(op: StoreOp, owner: string) {
    && (op.UpdateJob? ==> op.owner != owner)
    && (op.ClaimNextJob? ==> op.lease.owner != owner)
    && !op.ClaimJob?
  }

  lemma {:induction false} OthersCannotTouch(db: Db, op: StoreOp, key: string, owner: string)
    requires JobsOk(db) && key in db.jobs && ActsForNobodyElse(op, owner)
    requires HeldBy(LeaseProtocol.RowNext(db, op, key), owner)
    ensures LeaseProtocol.RowNext(db, op, key) == db.jobs[key]
  {
  }

  lemma {:induction false} NewRowNotHeld(db: Db, op: StoreOp, key: string)
    requires JobsOk(db) && key !in db.jobs && key in Next(db, op).jobs
    ensures Next(db, op).jobs[key].status == Queued
  {
    if !TouchesJobs(op) {
      TableStepsKeepJobs(db, op);
    } else if op.ClaimNextJob? {
      NextClaimMeaning(db, op.lease.now);
    }
  }

  lemma {:induction false} ProcStaysLinked(db: Db, op: StoreOp, q: Proc)
    requires JobsOk(db) && ProcLinked(db, q) && ActsForNobodyElse(op, q.owner)
    ensures ProcLinked(Next(db, op), q)
  {
    var db' := Next(db, op);
    if 10 <= Reached(q.at) && LeaseProtocol.Held(db', q.jobKey, q.owner) {
      if q.jobKey in db.jobs {
        LeaseProtocol.RowStep(db, op, q.jobKey);
        OthersCannotTouch(db, op, q.jobKey, q.owner);
        DocumentsStay(db, op, q.document.documentKey);
      } else {
        NewRowNotHeld(db, op, q.jobKey);
      }
    }
    if 12 <= Reached(q.at) {
      AssetStays(db, op, q.document.documentKey);
    }
  }

  lemma {:induction false} RowKeepsAsset(db: Db, op: StoreOp, key: string)
    requires JobsOk(db) && key in db.jobs && RowHasAsset(db, db.jobs[key])
    requires op.UpdateJob? && op.update.Complete? && op.jobKey == key && HeldBy(db.jobs[key], op.owner) ==>
               db.jobs[key].documentId.Some? && HasAsset(db, db.jobs[key].documentId.value)
    ensures RowHasAsset(Next(db, op), LeaseProtocol.RowNext(db, op, key))
  {
    var row' := LeaseProtocol.RowNext(db, op, key);
    if row'.status == Succeeded {
      assert row'.documentId == db.jobs[key].documentId;
      AssetsOnlyGrow(db, op, row'.documentId.value);
    }
  }

  lemma {:induction false} RowsKeepAssets(db: Db, op: StoreOp)
    requires JobsOk(db) && forall k :: k in db.jobs ==> RowHasAsset(db, db.jobs[k])
    requires op.UpdateJob? && op.update.Complete? && LeaseProtocol.Held(db, op.jobKey, op.owner) ==>
               var row := db.jobs[op.jobKey]; row.documentId.Some? && HasAsset(db, row.documentId.value)
    ensures forall k :: k in Next(db, op).jobs ==> RowHasAsset(Next(db, op), Next(db, op).jobs[k])
  {
    forall k | k in Next(db, op).jobs ensures RowHasAsset(Next(db, op), Next(db, op).jobs[k]) {
      if k in db.jobs {
        LeaseProtocol.RowStep(db, op, k);
        RowKeepsAsset(db, op, k);
      } else {
        NewRowNotHeld(db, op, k);
      }
    }
  }

  lemma {:induction false} OwnOpActsForOwner(p: Proc, input: Input, target: nat, other: string)
    requires OpOf(p, input, target).Some? && other != p.owner
    ensures ActsForNobodyElse(OpOf(p, input, target).value, other)
  {
  }

  /** Marks, warnings and its own asset do not disturb an executor's link. */
  lemma {:induction false} OwnOpKeepsLink(db: Db, p: Proc, input: Input, target: nat)
    requires JobsOk(db) && ProcLinked(db, p) && 10 <= Reached(p.at) && OpOf(p, input, target).Some?
    requires !FinishPoint(p.at)
    ensures ProcLinked(Next(db, OpOf(p, input, target).value), p)
  {
    OwnLateOp(p, input, target);
    OpKeepsLink(db, OpOf(p, input, target).value, p);
  }

  lemma {:induction false} OwnLateOp(p: Proc, input: Input, target: nat)
    requires 10 <= Reached(p.at) && !FinishPoint(p.at) && OpOf(p, input, target).Some?
    ensures var op := OpOf(p, input, target).value; op.AddAsset? || (op.UpdateJob? && op.update.Mark?)
  {
  }

  lemma {:induction false} OpKeepsLink(db: Db, op: StoreOp, p: Proc)
    requires JobsOk(db) && ProcLinked(db, p) && Reached(p.at) < 12 && (op.AddAsset? || (op.UpdateJob? && op.update.Mark?))
    ensures ProcLinked(Next(db, op), p)
  {
    var db' := Next(db, op);
    if 10 <= Reached(p.at) && LeaseProtocol.Held(db', p.jobKey, p.owner) {
      if p.jobKey in db.jobs {
        LeaseProtocol.RowStep(db, op, p.jobKey);
        DocumentsStay(db, op, p.document.documentKey);
      } else {
        NewRowNotHeld(db, op, p.jobKey);
      }
    }
  }

  lemma {:induction false} LinkingLinks(db: Db, p: Proc, input: Input, target: nat)
    requires JobsOk(db) && p.at.Linking? && p.document.documentKey in db.documents
    ensures ProcLinked(StepDb(db, OpOf(p, input, target)), ProcNext(db, p, input, target))
  {
    var op := OpOf(p, input, target).value;
    if p.jobKey in db.jobs {
      LeaseProtocol.RowStep(db, op, p.jobKey);
      LeaseProtocol.FencedStepIfNotHeld(db, op, p.jobKey, p.owner);
    } else if p.jobKey in Next(db, op).jobs {
      NewRowNotHeld(db, op, p.jobKey);
    }
  }

  /** Finishing gives up the lease, or finds it already gone. */
  lemma {:induction false} FinishReleases(db: Db, op: StoreOp, key: string, owner: string)
    requires LeaseProtocol.Releases(op, key, owner)
    ensures !LeaseProtocol.Held(Next(db, op), key, owner)
  {
  }

  lemma {:induction false} FinishingReleases(p: Proc, input: Input, target: nat)
    requires p.at.FinishWrite? && p.at.update.Finishes()
    ensures LeaseProtocol.Releases(OpOf(p, input, target).value, p.jobKey, p.owner)
  {
  }

  /** Once linked, moving on needs no more than the link. */
  lemma {:induction false} MoveLinked(db: Db, db': Db, p: Proc, p': Proc, input: Input, target: nat)
    requires Moves(db, p, p', input, target) && ProcLinked(db', p) && !p.at.Linking?
    requires p.at.AssetWriting? && Documents.AddAsset(db, AssetInputOf(p)).Ok? ==>
               AssetStored(db', p.document.documentKey)
    ensures ProcLinked(db', p')
  {
  }

  lemma {:induction false} OwnStepLinked(db: Db, p: Proc, input: Input, target: nat)
    requires JobsOk(db) && ProcLinked(db, p) && ProcOk(db, p, target)
    ensures ProcLinked(StepDb(db, OpOf(p, input, target)), ProcNext(db, p, input, target))
  {
    if p.at.Linking? {
      LinkingLinks(db, p, input, target);
    } else {
      var db' := StepDb(db, OpOf(p, input, target));
      if OpOf(p, input, target).Some? && 10 <= Reached(p.at) {
        if FinishPoint(p.at) {
          FinishingReleases(p, input, target);
          FinishReleases(db, OpOf(p, input, target).value, p.jobKey, p.owner);
          AssetStays(db, OpOf(p, input, target).value, p.document.documentKey);
        } else {
          OwnOpKeepsLink(db, p, input, target);
        }
      }
      if p.at.AssetWriting? && Documents.AddAsset(db, AssetInputOf(p)).Ok? {
        AddedAsset(db, p);
      }
      EveryStepMoves(db, p, input, target);
      MoveLinked(db, db', p, ProcNext(db, p, input, target), input, target);
    }
  }

  lemma {:induction false} OwnOpBacked(db: Db, p: Proc, input: Input, target: nat)
    requires ProcLinked(db, p) && ProcOk(db, p, target) && OpOf(p, input, target).Some?
    ensures
      var op := OpOf(p, input, target).value;
      op.UpdateJob? && op.update.Complete? && LeaseProtocol.Held(db, op.jobKey, op.owner) ==>
        db.jobs[op.jobKey].documentId.Some? && HasAsset(db, db.jobs[op.jobKey].documentId.value)
  {
  }

  lemma {:induction false} ActLinked(sys: Sys, pid: nat, input: Input, target: nat)
    requires SysOk(sys, target) && SysLinked(sys) && pid in sys.procs
    ensures SysLinked(SysNext(sys, Act(pid, input), target))
  {
    var p := sys.procs[pid];
    var sys' := SysNext(sys, Act(pid, input), target);
    assert ProcOk(sys.db, p, target);
    OwnStepLinked(sys.db, p, input, target);
    EveryStepMoves(sys.db, p, input, target);
    if OpOf(p, input, target).Some? {
      var op := OpOf(p, input, target).value;
      OwnOpBacked(sys.db, p, input, target);
      RowsKeepAssets(sys.db, op);
      forall q | q in sys.procs && q != pid ensures ProcLinked(sys'.db, sys.procs[q]) {
        OwnOpActsForOwner(p, input, target, sys.procs[q].owner);
        ProcStaysLinked(sys.db, op, sys.procs[q]);
      }
    }
  }

  lemma {:induction false} OutsideLinked(sys: Sys, op: StoreOp)
    requires JobsOk(sys.db) && SysLinked(sys) && (op.CreateJob? || op.RepairIndex?)
    ensures SysLinked(sys.(db := Next(sys.db, op)))
  {
    RowsKeepAssets(sys.db, op);
    forall q | q in sys.procs ensures ProcLinked(Next(sys.db, op), sys.procs[q]) {
      ProcStaysLinked(sys.db, op, sys.procs[q]);
    }
  }

  lemma {:induction false} SysStepLinked(sys: Sys, event: Event, target: nat)
    requires SysOk(sys, target) && SysLinked(sys) && FreshOwner(sys, event)
    ensures SysLinked(SysNext(sys, event, target))
  {
    match event {
      case Act(pid, input) =>
        if pid in sys.procs {
          ActLinked(sys, pid, input, target);
        }
      case Start(pid, owner) =>
      case Crash(pid) =>
      case Enqueue(job, now) => OutsideLinked(sys, CreateJob(job, now));
      case Repair(actions) => OutsideLinked(sys, RepairIndex(actions));
    }
  }

  lemma {:induction false} RunLinked(sys: Sys, events: seq<Event>, target: nat)
    requires SysOk(sys, target) && SysLinked(sys) && RunFreshOwners(sys, events, target)
    ensures SysLinked(SysRun(sys, events, target))
    decreases |events|
  {
    if events != [] {
      SysStepOk(sys, events[0], target);
      SysStepLinked(sys, events[0], target);
      RunLinked(SysNext(sys, events[0], target), events[1..], target);
    }
  }

  /** With distinct live owners, a succeeded job's document has its asset, whatever the source answers. */
  lemma {:induction false} SucceededHasOwnAsset(sys: Sys, events: seq<Event>, target: nat, job: string)
    requires Initial(sys) && RunFreshOwners(sys, events, target)
    requires StatusIs(SysRun(sys, events, target).db, job, Succeeded)
    ensures
      var row := SysRun(sys, events, target).db.jobs[job];
      row.documentId.Some? && HasAsset(SysRun(sys, events, target).db, row.documentId.value)
  {
    RunLinked(sys, events, target);
    var db := SysRun(sys, events, target).db;
    assert RowHasAsset(db, db.jobs[job]);
  }
}
