/**
 Warnings survive resumption.  With distinct live owners and an extractor that warns the same
 about the same job, a succeeded job carries exactly the first occurrences of those warnings,
 however often earlier runs recorded some of them.
 */
module ExecutorWarnings {
  import opened Database
  import opened Jobs
  import opened StoreRuns
  import opened Executor
  import opened ExecutorSafety
  import opened ExecutorAssets
  import LeaseProtocol

  /** `seen`, followed by the elements of `s` not seen before, in order of first occurrence. */
  function DedupInto(seen: seq<string>, s: seq<string>): seq<string>
    decreases |s|
  {
    if s == [] then seen
    else DedupInto(if s[0] in seen then seen else seen + [s[0]], s[1..])
  }

  function Dedup(s: seq<string>): seq<string> {
    DedupInto([], s)
  }

  lemma {:induction false} DedupIntoSnoc(seen: seq<string>, s: seq<string>, x: string)
    ensures DedupInto(seen, s + [x]) == DedupInto(seen, s) + if x in DedupInto(seen, s) then [] else [x]
    decreases |s|
  {
    if s == [] {
      assert s + [x] == [x] && [x][1..] == [];
    } else {
      assert (s + [x])[0] == s[0] && (s + [x])[1..] == s[1..] + [x];
      DedupIntoSnoc(if s[0] in seen then seen else seen + [s[0]], s[1..], x);
    }
  }

  lemma {:induction false} DedupIntoMember(seen: seq<string>, s: seq<string>, x: string)
    ensures x in DedupInto(seen, s) <==> x in seen || x in s
    decreases |s|
  {
    if s != [] {
      DedupIntoMember(if s[0] in seen then seen else seen + [s[0]], s[1..], x);
    }
  }

  lemma {:induction false} DedupStep(w: seq<string>, i: nat)
    requires i < |w|
    ensures Dedup(w[..i + 1]) == Dedup(w[..i]) + if w[i] in Dedup(w[..i]) then [] else [w[i]]
  {
    assert w[..i + 1] == w[..i] + [w[i]];
    DedupIntoSnoc([], w[..i], w[i]);
  }

  /** The row has recorded the warnings up to some index from `least` on. */
  ghost predicate RecordedFrom(row: JobRow, w: seq<string>, least: nat) {
    exists k :: least <= k <= |w| && row.warnings == Dedup(w[..k])
  }

  predicate WarnsBy(warningsOf: string -> seq<string>, sys: Sys, event: Event) {
    event.Act? && event.pid in sys.procs && sys.procs[event.pid].at == Marked(3) && event.input.answer.GotText? ==>
      event.input.answer.text.warnings == warningsOf(sys.procs[event.pid].jobKey)
  }

  ghost predicate RunWarnsBy(warningsOf: string -> seq<string>, sys: Sys, events: seq<Event>, target: nat)
    decreases |events|
  {
    || events == []
    || (WarnsBy(warningsOf, sys, events[0])
        && RunWarnsBy(warningsOf, SysNext(sys, events[0], target), events[1..], target))
  }

  /** How many of the warnings a holder at this point has recorded. */
  function Recorded(p: Proc, w: seq<string>): nat {
    if Reached(p.at) < 9 then 0
    else match p.at
      case WarnRead(i) => i
      case WarnWrite(i, _) => i
      case WarnCheck(i) => i + 1
      case _ => |w|
  }

  ghost predicate ProcWarned(warningsOf: string -> seq<string>, db: Db, p: Proc) {
    var w := warningsOf(p.jobKey);
    && (6 <= Reached(p.at) ==> p.text.warnings == w)
    && (p.at.WarnRead? || p.at.WarnWrite? || p.at.WarnCheck? ==> p.at.i < |w|)
    && (LeaseProtocol.Held(db, p.jobKey, p.owner) ==> RecordedFrom(db.jobs[p.jobKey], w, Recorded(p, w)))
    && (p.at.WarnWrite? ==> w[p.at.i] !in p.at.read)
    && (p.at.WarnWrite? && LeaseProtocol.Held(db, p.jobKey, p.owner) ==> db.jobs[p.jobKey].warnings == p.at.read)
  }

  ghost predicate RowWarned(warningsOf: string -> seq<string>, key: string, row: JobRow) {
    && RecordedFrom(row, warningsOf(key), 0)
    && (row.status == Succeeded ==> row.warnings == Dedup(warningsOf(key)))
  }

  ghost predicate SysWarned(warningsOf: string -> seq<string>, sys: Sys) {
    && DistinctOwners(sys)
    && (forall k :: k in sys.db.jobs ==> RowWarned(warningsOf, k, sys.db.jobs[k]))
    && (forall pid :: pid in sys.procs ==> ProcWarned(warningsOf, sys.db, sys.procs[pid]))
  }

  lemma {:induction false} RecordedAll(row: JobRow, w: seq<string>)
    ensures RecordedFrom(row, w, |w|) <==> row.warnings == Dedup(w)
  {
    assert w[..|w|] == w;
  }

  /** A warning that is not in the list yet is the next one to record. */
  lemma {:induction false} NotYetRecorded(row: JobRow, w: seq<string>, i: nat)
    requires i < |w| && RecordedFrom(row, w, i) && w[i] !in row.warnings
    ensures row.warnings == Dedup(w[..i])
    ensures Dedup(w[..i + 1]) == row.warnings + [w[i]]
  {
    var k :| i <= k <= |w| && row.warnings == Dedup(w[..k]);
    if k > i {
      assert w[i] == w[..k][i];
      DedupIntoMember([], w[..k], w[i]);
    }
    DedupStep(w, i);
  }

  lemma {:induction false} AlreadyRecorded(row: JobRow, w: seq<string>, i: nat)
    requires i < |w| && RecordedFrom(row, w, i) && w[i] in row.warnings
    ensures RecordedFrom(row, w, i + 1)
  {
    var k :| i <= k <= |w| && row.warnings == Dedup(w[..k]);
    if k == i {
      DedupStep(w, i);
      assert row.warnings == Dedup(w[..i + 1]);
    }
  }

  // Others

  lemma {:induction false} ProcStaysWarned(warningsOf: string -> seq<string>, db: Db, op: StoreOp, q: Proc)
    requires JobsOk(db) && ProcWarned(warningsOf, db, q) && ActsForNobodyElse(op, q.owner)
    ensures ProcWarned(warningsOf, Next(db, op), q)
  {
    if LeaseProtocol.Held(Next(db, op), q.jobKey, q.owner) {
      if q.jobKey in db.jobs {
        LeaseProtocol.RowStep(db, op, q.jobKey);
        OthersCannotTouch(db, op, q.jobKey, q.owner);
      } else {
        NewRowNotHeld(db, op, q.jobKey);
      }
    }
  }

  lemma {:induction false} RowStaysWarned(warningsOf: string -> seq<string>, db: Db, op: StoreOp, key: string)
    requires JobsOk(db) && key in db.jobs && RowWarned(warningsOf, key, db.jobs[key])
    requires LeaseProtocol.Updates(db, op, key) && op.update.SetWarnings? ==>
               exists k :: 0 <= k <= |warningsOf(key)| && op.update.warnings == Dedup(warningsOf(key)[..k])
    requires LeaseProtocol.Updates(db, op, key) && op.update.Complete? ==>
               db.jobs[key].warnings == Dedup(warningsOf(key))
    ensures RowWarned(warningsOf, key, LeaseProtocol.RowNext(db, op, key))
  {
    if op.ClaimNextJob? {
      NextClaimMeaning(db, op.lease.now);
    }
  }

  lemma {:induction false} NewRowWarned(warningsOf: string -> seq<string>, db: Db, op: StoreOp, key: string)
    requires JobsOk(db) && key !in db.jobs && key in Next(db, op).jobs
    ensures RowWarned(warningsOf, key, Next(db, op).jobs[key])
  {
    if !TouchesJobs(op) {
      TableStepsKeepJobs(db, op);
    } else if op.ClaimNextJob? {
      NextClaimMeaning(db, op.lease.now);
    } else {
      assert Next(db, op).jobs[key].warnings == Dedup(warningsOf(key)[..0]);
    }
  }

  // An executor's own step

  lemma {:induction false} OwnWriteWarned(
    warningsOf: string -> seq<string>, db: Db, p: Proc, input: Input, target: nat)
    requires JobsOk(db) && ProcWarned(warningsOf, db, p) && OpOf(p, input, target).Some?
    requires FinishPoint(p.at) ==> p.at.update.Finishes()
    ensures
      var op, w := OpOf(p, input, target).value, warningsOf(p.jobKey);
      && (op.UpdateJob? && op.update.SetWarnings? && LeaseProtocol.Held(db, p.jobKey, p.owner) ==>
            op.update.warnings == Dedup(w[..p.at.i + 1]))
      && (op.UpdateJob? && op.update.Complete? && LeaseProtocol.Held(db, p.jobKey, p.owner) ==>
            db.jobs[p.jobKey].warnings == Dedup(w))
  {
    var w := warningsOf(p.jobKey);
    if LeaseProtocol.Held(db, p.jobKey, p.owner) {
      var row := db.jobs[p.jobKey];
      RecordedAll(row, w);
      if p.at.WarnWrite? {
        NotYetRecorded(row, w, p.at.i);
      }
    }
  }

  lemma {:induction false} RowsStayWarned(
    warningsOf: string -> seq<string>, db: Db, p: Proc, input: Input, target: nat)
    requires JobsOk(db) && ProcWarned(warningsOf, db, p) && OpOf(p, input, target).Some?
    requires FinishPoint(p.at) ==> p.at.update.Finishes()
    requires forall k :: k in db.jobs ==> RowWarned(warningsOf, k, db.jobs[k])
    ensures
      var db' := Next(db, OpOf(p, input, target).value);
      forall k :: k in db'.jobs ==> RowWarned(warningsOf, k, db'.jobs[k])
  {
    var op := OpOf(p, input, target).value;
    OwnWriteWarned(warningsOf, db, p, input, target);
    forall k | k in Next(db, op).jobs ensures RowWarned(warningsOf, k, Next(db, op).jobs[k]) {
      if k in db.jobs {
        LeaseProtocol.RowStep(db, op, k);
        RowStaysWarned(warningsOf, db, op, k);
      } else {
        NewRowWarned(warningsOf, db, op, k);
      }
    }
  }

  lemma {:induction false} OwnOpKind(p: Proc, input: Input, target: nat)
    requires 9 <= Reached(p.at) && OpOf(p, input, target).Some?
    ensures
      var op := OpOf(p, input, target).value;
      op.AddAsset? || (op.UpdateJob? && op.jobKey == p.jobKey && op.owner == p.owner)
  {
  }

  /** The holder's row after one of its statements, as far as warnings go. */
  lemma {:induction false} HeldRow(db: Db, op: StoreOp, key: string, owner: string)
    requires JobsOk(db) && key in db.jobs && LeaseProtocol.Held(Next(db, op), key, owner)
    requires op.AddAsset? || (op.UpdateJob? && op.jobKey == key && op.owner == owner)
    ensures LeaseProtocol.Held(db, key, owner)
    ensures Next(db, op).jobs[key].warnings ==
              if op.UpdateJob? && op.update.SetWarnings? then op.update.warnings else db.jobs[key].warnings
  {
    LeaseProtocol.RowStep(db, op, key);
  }

  lemma {:induction false} OwnRow(db: Db, p: Proc, input: Input, target: nat)
    requires JobsOk(db) && 9 <= Reached(p.at) && OpOf(p, input, target).Some?
    requires LeaseProtocol.Held(Next(db, OpOf(p, input, target).value), p.jobKey, p.owner)
    ensures LeaseProtocol.Held(db, p.jobKey, p.owner)
    ensures
      var op := OpOf(p, input, target).value;
      Next(db, op).jobs[p.jobKey].warnings ==
        if op.UpdateJob? && op.update.SetWarnings? then op.update.warnings else db.jobs[p.jobKey].warnings
  {
    var op := OpOf(p, input, target).value;
    OwnOpKind(p, input, target);
    if p.jobKey in db.jobs {
      HeldRow(db, op, p.jobKey, p.owner);
    } else {
      NewRowNotHeld(db, op, p.jobKey);
    }
  }

  /** Before its pages are stored an executor has recorded nothing, and nothing is asked of it. */
  lemma {:induction false} EarlyWarned(warningsOf: string -> seq<string>, db: Db, p: Proc)
    requires forall k :: k in db.jobs ==> RowWarned(warningsOf, k, db.jobs[k])
    requires Reached(p.at) < 9 && (6 <= Reached(p.at) ==> p.text.warnings == warningsOf(p.jobKey))
    ensures ProcWarned(warningsOf, db, p)
  {
  }

  lemma {:induction false} FirstWarning(warningsOf: string -> seq<string>, db: Db, p: Proc)
    requires forall k :: k in db.jobs ==> RowWarned(warningsOf, k, db.jobs[k])
    requires p.at.Replacing? && p.text.warnings == warningsOf(p.jobKey)
    ensures ProcWarned(warningsOf, db, NextWarning(p, 0))
  {
  }

  lemma {:induction false} WarnReadStep(warningsOf: string -> seq<string>, db: Db, p: Proc, input: Input, target: nat)
    requires ProcWarned(warningsOf, db, p) && p.at.WarnRead?
    requires forall k :: k in db.jobs ==> RowWarned(warningsOf, k, db.jobs[k])
    ensures ProcWarned(warningsOf, db, ProcNext(db, p, input, target))
  {
    if RequireRunning(db, p.jobKey, p.owner).Ok? {
      var row, w := db.jobs[p.jobKey], warningsOf(p.jobKey);
      assert RecordedFrom(row, w, p.at.i);
      if w[p.at.i] in row.warnings {
        AlreadyRecorded(row, w, p.at.i);
      }
    } else {
      EarlyWarned(warningsOf, db, ProcNext(db, p, input, target));
    }
  }

  lemma {:induction false} WarnWriteStep(warningsOf: string -> seq<string>, db: Db, p: Proc, input: Input, target: nat)
    requires JobsOk(db) && ProcWarned(warningsOf, db, p) && p.at.WarnWrite?
    ensures ProcWarned(warningsOf, StepDb(db, OpOf(p, input, target)), ProcNext(db, p, input, target))
  {
    var w := warningsOf(p.jobKey);
    var db' := StepDb(db, OpOf(p, input, target));
    OwnWriteWarned(warningsOf, db, p, input, target);
    if LeaseProtocol.Held(db', p.jobKey, p.owner) {
      OwnRow(db, p, input, target);
      assert db'.jobs[p.jobKey].warnings == Dedup(w[..p.at.i + 1]);
    }
  }

  lemma {:induction false} WarnCheckStep(warningsOf: string -> seq<string>, db: Db, p: Proc, input: Input, target: nat)
    requires ProcWarned(warningsOf, db, p) && p.at.WarnCheck?
    requires forall k :: k in db.jobs ==> RowWarned(warningsOf, k, db.jobs[k])
    ensures ProcWarned(warningsOf, db, ProcNext(db, p, input, target))
  {
    if RequireRunning(db, p.jobKey, p.owner).Err? {
      EarlyWarned(warningsOf, db, ProcNext(db, p, input, target));
    }
  }

  /** After the last warning, later statements leave the list alone. */
  lemma {:induction false} LateStep(
    warningsOf: string -> seq<string>, db: Db, p: Proc, p': Proc, input: Input, target: nat)
    requires JobsOk(db) && ProcWarned(warningsOf, db, p) && Moves(db, p, p', input, target)
    requires FinishPoint(p.at) ==> p.at.update.Finishes()
    requires 9 <= Reached(p.at) && !p.at.WarnRead? && !p.at.WarnWrite? && !p.at.WarnCheck?
    requires 10 <= Reached(p'.at)
    ensures ProcWarned(warningsOf, StepDb(db, OpOf(p, input, target)), p')
  {
    var db' := StepDb(db, OpOf(p, input, target));
    if LeaseProtocol.Held(db', p.jobKey, p.owner) && OpOf(p, input, target).Some? {
      OwnRow(db, p, input, target);
    }
  }

  lemma {:induction false} OwnStepWarned(
    warningsOf: string -> seq<string>, db: Db, p: Proc, input: Input, target: nat)
    requires JobsOk(db) && ProcWarned(warningsOf, db, p)
    requires FinishPoint(p.at) ==> p.at.update.Finishes()
    requires p.at == Marked(3) && input.answer.GotText? ==> input.answer.text.warnings == warningsOf(p.jobKey)
    requires forall k :: k in db.jobs ==> RowWarned(warningsOf, k, db.jobs[k])
    requires
      var db' := StepDb(db, OpOf(p, input, target));
      forall k :: k in db'.jobs ==> RowWarned(warningsOf, k, db'.jobs[k])
    ensures ProcWarned(warningsOf, StepDb(db, OpOf(p, input, target)), ProcNext(db, p, input, target))
  {
    var p', db' := ProcNext(db, p, input, target), StepDb(db, OpOf(p, input, target));
    EveryStepMoves(db, p, input, target);
    if p.at.WarnRead? {
      WarnReadStep(warningsOf, db, p, input, target);
    } else if p.at.WarnWrite? {
      WarnWriteStep(warningsOf, db, p, input, target);
    } else if p.at.WarnCheck? {
      WarnCheckStep(warningsOf, db, p, input, target);
    } else if Reached(p'.at) < 9 {
      EarlyWarned(warningsOf, db', p');
    } else if Reached(p.at) == 8 {
      ReplacedPoint(db, p, input, target);
      FirstWarning(warningsOf, db', p);
    } else {
      LinkingMoves(db, p, input, target);
      LateStep(warningsOf, db, p, p', input, target);
    }
  }

  lemma {:induction false} ReplacedPoint(db: Db, p: Proc, input: Input, target: nat)
    requires Reached(p.at) == 8 && Reached(ProcNext(db, p, input, target).at) == 9
    ensures p.at.Replacing? && ProcNext(db, p, input, target) == NextWarning(p, 0)
  {
  }

  lemma {:induction false} LinkingMoves(db: Db, p: Proc, input: Input, target: nat)
    requires p.at.Linking? || 10 <= Reached(p.at)
    requires 9 <= Reached(ProcNext(db, p, input, target).at)
    ensures 10 <= Reached(ProcNext(db, p, input, target).at)
  {
    EveryStepMoves(db, p, input, target);
  }

  // Runs

  lemma {:induction false} ActWarned(
    warningsOf: string -> seq<string>, sys: Sys, pid: nat, input: Input, target: nat)
    requires SysOk(sys, target) && SysWarned(warningsOf, sys) && pid in sys.procs
    requires WarnsBy(warningsOf, sys, Act(pid, input))
    ensures SysWarned(warningsOf, SysNext(sys, Act(pid, input), target))
  {
    var p := sys.procs[pid];
    var sys' := SysNext(sys, Act(pid, input), target);
    assert ProcOk(sys.db, p, target);
    if OpOf(p, input, target).Some? {
      RowsStayWarned(warningsOf, sys.db, p, input, target);
      forall q | q in sys.procs && q != pid ensures ProcWarned(warningsOf, sys'.db, sys.procs[q]) {
        OwnOpActsForOwner(p, input, target, sys.procs[q].owner);
        ProcStaysWarned(warningsOf, sys.db, OpOf(p, input, target).value, sys.procs[q]);
      }
    }
    OwnStepWarned(warningsOf, sys.db, p, input, target);
    EveryStepMoves(sys.db, p, input, target);
  }

  lemma {:induction false} OutsideWarned(warningsOf: string -> seq<string>, sys: Sys, op: StoreOp)
    requires JobsOk(sys.db) && SysWarned(warningsOf, sys) && (op.CreateJob? || op.RepairIndex?)
    ensures SysWarned(warningsOf, sys.(db := Next(sys.db, op)))
  {
    forall k | k in Next(sys.db, op).jobs ensures RowWarned(warningsOf, k, Next(sys.db, op).jobs[k]) {
      if k in sys.db.jobs {
        LeaseProtocol.RowStep(sys.db, op, k);
      } else {
        NewRowWarned(warningsOf, sys.db, op, k);
      }
    }
    forall q | q in sys.procs ensures ProcWarned(warningsOf, Next(sys.db, op), sys.procs[q]) {
      ProcStaysWarned(warningsOf, sys.db, op, sys.procs[q]);
    }
  }

  lemma {:induction false} SysStepWarned(warningsOf: string -> seq<string>, sys: Sys, event: Event, target: nat)
    requires SysOk(sys, target) && SysWarned(warningsOf, sys)
    requires FreshOwner(sys, event) && WarnsBy(warningsOf, sys, event)
    ensures SysWarned(warningsOf, SysNext(sys, event, target))
  {
    match event {
      case Act(pid, input) =>
        if pid in sys.procs {
          ActWarned(warningsOf, sys, pid, input, target);
        }
      case Start(pid, owner) =>
        if CanStart(sys, pid) {
          EarlyWarned(warningsOf, sys.db, NewProc(owner));
        }
      case Crash(pid) =>
      case Enqueue(job, now) => OutsideWarned(warningsOf, sys, CreateJob(job, now));
      case Repair(actions) => OutsideWarned(warningsOf, sys, RepairIndex(actions));
    }
  }

  lemma {:induction false} RunWarned(warningsOf: string -> seq<string>, sys: Sys, events: seq<Event>, target: nat)
    requires SysOk(sys, target) && SysWarned(warningsOf, sys)
    requires RunFreshOwners(sys, events, target) && RunWarnsBy(warningsOf, sys, events, target)
    ensures SysWarned(warningsOf, SysRun(sys, events, target))
    decreases |events|
  {
    if events != [] {
      SysStepOk(sys, events[0], target);
      SysStepWarned(warningsOf, sys, events[0], target);
      RunWarned(warningsOf, SysNext(sys, events[0], target), events[1..], target);
    }
  }

  /** A succeeded job's warnings are the extraction's, each once, in order of first occurrence. */
  lemma {:induction false} SucceededHasItsWarnings(
    warningsOf: string -> seq<string>, sys: Sys, events: seq<Event>, target: nat, job: string)
    requires Initial(sys)
    requires RunFreshOwners(sys, events, target) && RunWarnsBy(warningsOf, sys, events, target)
    requires StatusIs(SysRun(sys, events, target).db, job, Succeeded)
    ensures SysRun(sys, events, target).db.jobs[job].warnings == Dedup(warningsOf(job))
  {
    RunWarned(warningsOf, sys, events, target);
    assert RowWarned(warningsOf, job, SysRun(sys, events, target).db.jobs[job]);
  }
}
