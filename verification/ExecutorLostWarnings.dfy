/**
 When recorded warnings can be lost.  Distinct live owners keep every warning; under one owner name
 none is safe.  An executor reads the list, a second one takes the job over once the lease has run
 out and is cancelled, so the first one's write finds no lease and does nothing; when the second has
 claimed the job again, the first one's check passes, for it looks at the owner's name.
 */
module ExecutorLostWarnings {
  import opened Wrappers
  import opened Database
  import opened Jobs
  import opened StoreRuns
  import opened Executor
  import opened ExecutorPaths
  import opened ExecutorReach
  import opened ExecutorProgress
  import opened ExecutorWarnings
  import opened ExecutorAssets
  import opened ExecutorExample
  import LeaseProtocol

  /** The extractor warns about a job what `warningsOf` says; with `distinct`, live owners differ. */
  function Warning(warningsOf: string -> seq<string>, distinct: bool): Rule {
    (sys: Sys, event: Event) => WarnsBy(warningsOf, sys, event) && (distinct ==> FreshOwner(sys, event))
  }

  /** Whatever happens, a succeeded job has its warnings. */
  ghost predicate KeepsWarnings(warningsOf: string -> seq<string>, distinct: bool, target: nat) {
    forall sys: Sys, events: seq<Event>, job: string ::
      Initial(sys) && RunAllowed(Warning(warningsOf, distinct), sys, events, target)
      && StatusIs(SysRun(sys, events, target).db, job, Succeeded)
      ==> SysRun(sys, events, target).db.jobs[job].warnings == Dedup(warningsOf(job))
  }

  /** The rule is about extractions only. */
  ghost predicate Lenient(rule: Rule) {
    forall sys: Sys, event: Event :: (event.Act? ==> !event.input.answer.GotText?) ==> rule(sys, event)
  }

  // The second executor, always process 2, and one job

  /** Claims and interruptions change none of this. */
  ghost predicate Kept(db: Db, was: Db, key: string) {
    Alone(db, key) && Unmoved(db, was, key)
  }

  ghost predicate Unmoved(db: Db, was: Db, key: string) {
    && key in db.jobs && key in was.jobs && db.jobs.Keys == was.jobs.Keys
    && db.documents == was.documents && db.nextDocumentId == was.nextDocumentId && db.assets == was.assets
    && SameTarget(db.jobs[key], was.jobs[key]) && db.jobs[key].warnings == was.jobs[key].warnings
  }

  ghost predicate FirstUnmoved(sys: Sys, was: Sys) {
    1 in sys.procs && 1 in was.procs && sys.procs[1] == was.procs[1]
  }

  lemma {:induction false} LoneClaim(db: Db, key: string, lease: Lease)
    requires Alone(db, key) && Claimable(db.jobs[key], lease.now)
    ensures NextClaim(db, lease.now) == Some(key)
    ensures
      var db' := Next(db, ClaimNextJob(lease));
      Kept(db', db, key) && HeldBy(db'.jobs[key], lease.owner) && db'.jobs[key].leaseExpiresAt == Some(lease.expiresAt)
  {
    assert forall k :: k in db.jobs <==> k in db.jobs.Keys;
    assert IsNextClaim(db, lease.now, key);
    NextClaimUnique(db, lease.now, key);
    StepKeepsDb(db, ClaimNextJob(lease));
  }

  function Plain(now: int, expiresAt: int, cancelled: bool): Input {
    Input(now, expiresAt, cancelled, false, Ready)
  }

  lemma {:induction false} SecondStarts(rule: Rule, sys: Sys, owner: string, target: nat) returns (sys': Sys)
    requires Lenient(rule) && 1 in sys.procs
    ensures Can(rule, sys, sys', target) && FirstUnmoved(sys', sys) && sys'.db == sys.db
    ensures 2 in sys'.procs && sys'.procs[2] == NewProc(owner)
  {
    var crashed := SysNext(sys, Crash(2), target);
    sys' := SysNext(crashed, Start(2, owner), target);
    CanDo(rule, sys, Crash(2), target);
    CanDo(rule, crashed, Start(2, owner), target);
    CanThen(rule, sys, crashed, sys', target);
  }

  /** Started afresh, it claims the job. */
  lemma {:induction false} SecondClaims(rule: Rule, sys: Sys, key: string, lease: Lease, target: nat)
    returns (sys': Sys)
    requires Lenient(rule)
    requires 1 in sys.procs && Alone(sys.db, key) && Claimable(sys.db.jobs[key], lease.now)
    ensures Can(rule, sys, sys', target) && FirstUnmoved(sys', sys) && Kept(sys'.db, sys.db, key)
    ensures HeldBy(sys'.db.jobs[key], lease.owner) && sys'.db.jobs[key].leaseExpiresAt == Some(lease.expiresAt)
    ensures 2 in sys'.procs && sys'.procs[2] == NewProc(lease.owner).(at := Claimed, jobKey := key)
  {
    var started := SecondStarts(rule, sys, lease.owner, target);
    var claim := Act(2, Plain(lease.now, lease.expiresAt, false));
    LoneClaim(sys.db, key, lease);
    CanDo(rule, started, claim, target);
    sys' := SysNext(started, claim, target);
    CanThen(rule, sys, started, sys', target);
  }

  function Quitting(): JobUpdate {
    Interrupt(Some("ingestion interrupted by cancellation " + CheckpointName(AfterClaim)))
  }

  lemma {:induction false} InterruptsJob(db: Db, key: string, owner: string, now: int)
    requires Alone(db, key) && HeldBy(db.jobs[key], owner)
    ensures
      var db' := Next(db, UpdateJob(key, owner, Quitting(), now));
      Kept(db', db, key) && db'.jobs[key].status == Interrupted
  {
    StepKeepsDb(db, UpdateJob(key, owner, Quitting(), now));
  }

  lemma {:induction false} CancelledMoves(db: Db, p: Proc, target: nat)
    requires p.at == Claimed
    ensures ProcNext(db, p, Plain(0, 0, true), target) == p.(at := FinishFirst(Quitting()))
    ensures OpOf(p, Plain(0, 0, true), target).None?
  {
  }

  lemma {:induction false} QuittingMoves(db: Db, p: Proc, target: nat)
    requires p.at == FinishFirst(Quitting()) && Holds(db, p)
    ensures ProcNext(db, p, Plain(0, 0, true), target) == p.(at := FinishWrite(Quitting()))
    ensures OpOf(p, Plain(0, 0, true), target).None?
  {
  }

  lemma {:induction false} SecondSteps(rule: Rule, sys: Sys, p: Proc, db: Db, target: nat) returns (sys': Sys)
    requires Lenient(rule)
    requires 2 in sys.procs
    requires State(db, p) == StepWith(State(sys.db, sys.procs[2]), Plain(0, 0, true), target)
    ensures sys' == Sys(db, sys.procs[2 := p]) && Can(rule, sys, sys', target)
  {
    CanDo(rule, sys, Act(2, Plain(0, 0, true)), target);
    sys' := SysNext(sys, Act(2, Plain(0, 0, true)), target);
  }

  lemma {:induction false} SecondInterrupts(rule: Rule, sys: Sys, key: string, owner: string, target: nat)
    returns (sys': Sys)
    requires Lenient(rule)
    requires 1 in sys.procs && 2 in sys.procs
    requires sys.procs[2] == NewProc(owner).(at := FinishWrite(Quitting()), jobKey := key)
    requires Alone(sys.db, key) && HeldBy(sys.db.jobs[key], owner)
    ensures Can(rule, sys, sys', target) && FirstUnmoved(sys', sys) && Kept(sys'.db, sys.db, key)
    ensures sys'.db.jobs[key].status == Interrupted
  {
    InterruptsJob(sys.db, key, owner, 0);
    var p := sys.procs[2].(at := FinishLast(Quitting()));
    sys' := SecondSteps(rule, sys, p, Next(sys.db, UpdateJob(key, owner, Quitting(), 0)), target);
  }

  /** Cancelled after its claim, it interrupts the job. */
  lemma {:induction false} SecondGivesUp(rule: Rule, sys: Sys, key: string, owner: string, target: nat)
    returns (sys': Sys)
    requires Lenient(rule)
    requires 1 in sys.procs && 2 in sys.procs && sys.procs[2] == NewProc(owner).(at := Claimed, jobKey := key)
    requires Alone(sys.db, key) && HeldBy(sys.db.jobs[key], owner)
    ensures Can(rule, sys, sys', target) && FirstUnmoved(sys', sys) && Kept(sys'.db, sys.db, key)
    ensures sys'.db.jobs[key].status == Interrupted
  {
    var p := sys.procs[2];
    CancelledMoves(sys.db, p, target);
    var s1 := SecondSteps(rule, sys, p.(at := FinishFirst(Quitting())), sys.db, target);
    QuittingMoves(sys.db, s1.procs[2], target);
    var s2 := SecondSteps(rule, s1, p.(at := FinishWrite(Quitting())), sys.db, target);
    sys' := SecondInterrupts(rule, s2, key, owner, target);
    CanThen(rule, sys, s1, s2, target);
    CanThen(rule, sys, s2, sys', target);
  }

  // The first executor, always process 1

  /** It is to record warning `i`, and none is recorded. */
  ghost predicate Losing(was: Db, sys: Sys, a: Answers, i: nat, key: string) {
    && Alone(sys.db, key) && 1 in sys.procs && sys.procs[1].jobKey == key
    && i <= |a.text.warnings| && sys.procs[1] == NextWarning(sys.procs[1], i)
    && Well(was, State(sys.db, sys.procs[1]), a) && sys.db.jobs[key].warnings == []
  }

  lemma {:induction false} FirstReads(rule: Rule, was: Db, sys: Sys, a: Answers, i: nat, key: string, target: nat)
    requires Lenient(rule)
    requires Losing(was, sys, a, i, key) && i < |a.text.warnings|
    ensures
      var sys' := SysNext(sys, Act(1, Plain(0, 0, false)), target);
      && sys' == Sys(sys.db, sys.procs[1 := sys.procs[1].(at := WarnWrite(i, []))])
      && Can(rule, sys, sys', target)
  {
    CanDo(rule, sys, Act(1, Plain(0, 0, false)), target);
  }

  /** Without a lease its write does nothing. */
  lemma {:induction false} FirstWritesNothing(rule: Rule, sys: Sys, i: nat, read: seq<string>, target: nat)
    requires Lenient(rule)
    requires 1 in sys.procs && sys.procs[1].at == WarnWrite(i, read)
    requires !LeaseProtocol.Held(sys.db, sys.procs[1].jobKey, sys.procs[1].owner)
    ensures
      var sys' := SysNext(sys, Act(1, Plain(0, 0, false)), target);
      && sys' == Sys(sys.db, sys.procs[1 := sys.procs[1].(at := WarnCheck(i))])
      && Can(rule, sys, sys', target)
  {
    CanDo(rule, sys, Act(1, Plain(0, 0, false)), target);
  }

  /** Its check passes for any holder with its name. */
  lemma {:induction false} FirstGoesOn(rule: Rule, sys: Sys, i: nat, target: nat)
    requires Lenient(rule)
    requires 1 in sys.procs && sys.procs[1].at == WarnCheck(i) && Holds(sys.db, sys.procs[1])
    ensures
      var sys' := SysNext(sys, Act(1, Plain(0, 0, false)), target);
      && sys' == Sys(sys.db, sys.procs[1 := NextWarning(sys.procs[1], i + 1)])
      && Can(rule, sys, sys', target)
  {
    CanDo(rule, sys, Act(1, Plain(0, 0, false)), target);
  }

  lemma {:induction false} StillWell(was: Db, s: State, s': State, a: Answers, i: nat, expiresAt: int)
    requires Well(was, s, a) && s.p == NextWarning(s.p, i) && s'.p == NextWarning(s.p, i + 1)
    requires Unmoved(s'.db, s.db, s.p.jobKey) && Holds(s'.db, s'.p)
    requires s'.db.jobs[s.p.jobKey].leaseExpiresAt == Some(expiresAt)
    ensures Well(was, s', a.(expiresAt := expiresAt))
  {
    assert Reached(s.p.at) == Reached(s'.p.at) == 9;
  }

  lemma {:induction false} StillLosing(was: Db, sys: Sys, sys': Sys, a: Answers, i: nat, key: string)
    requires Losing(was, sys, a, i, key) && i < |a.text.warnings| && Kept(sys'.db, sys.db, key)
    requires 1 in sys'.procs && sys'.procs[1] == NextWarning(sys.procs[1], i + 1)
    requires HeldBy(sys'.db.jobs[key], sys.procs[1].owner)
    requires sys'.db.jobs[key].leaseExpiresAt == Some(a.expiresAt + 1)
    ensures Losing(was, sys', a.(expiresAt := a.expiresAt + 1), i + 1, key)
  {
    StillWell(was, State(sys.db, sys.procs[1]), State(sys'.db, sys'.procs[1]), a, i, a.expiresAt + 1);
  }

  lemma {:induction false} KeptTwice(a: Db, b: Db, c: Db, key: string)
    requires Kept(b, a, key) && Kept(c, b, key)
    ensures Kept(c, a, key)
  {
  }

  /** The job is taken over and given back between the read and the write. */
  lemma {:induction false} Robbed(rule: Rule, was: Db, sys: Sys, a: Answers, i: nat, key: string, target: nat)
    returns (sys': Sys)
    requires Lenient(rule)
    requires Losing(was, sys, a, i, key) && i < |a.text.warnings|
    ensures Can(rule, sys, sys', target) && Kept(sys'.db, sys.db, key)
    ensures 1 in sys'.procs && sys'.procs[1] == sys.procs[1].(at := WarnCheck(i))
    ensures sys'.db.jobs[key].status == Interrupted
  {
    var e, owner := a.expiresAt, sys.procs[1].owner;
    FirstReads(rule, was, sys, a, i, key, target);
    var s1 := SysNext(sys, Act(1, Plain(0, 0, false)), target);
    var s2 := SecondClaims(rule, s1, key, Lease(owner, e, e), target);
    var s3 := SecondGivesUp(rule, s2, key, owner, target);
    FirstWritesNothing(rule, s3, i, [], target);
    sys' := SysNext(s3, Act(1, Plain(0, 0, false)), target);
    KeptTwice(s1.db, s2.db, s3.db, key);
    CanThen(rule, sys, s1, s2, target);
    CanThen(rule, sys, s2, s3, target);
    CanThen(rule, sys, s3, sys', target);
  }

  /** One warning lost. */
  lemma {:induction false} LosesOne(rule: Rule, was: Db, sys: Sys, a: Answers, i: nat, key: string, target: nat)
    returns (sys': Sys)
    requires Lenient(rule)
    requires Losing(was, sys, a, i, key) && i < |a.text.warnings|
    ensures Can(rule, sys, sys', target) && Losing(was, sys', a.(expiresAt := a.expiresAt + 1), i + 1, key)
  {
    var robbed := Robbed(rule, was, sys, a, i, key, target);
    var lease := Lease(sys.procs[1].owner, a.expiresAt, a.expiresAt + 1);
    var reclaimed := SecondClaims(rule, robbed, key, lease, target);
    FirstGoesOn(rule, reclaimed, i, target);
    sys' := SysNext(reclaimed, Act(1, Plain(0, 0, false)), target);
    KeptTwice(sys.db, robbed.db, reclaimed.db, key);
    StillLosing(was, sys, sys', a, i, key);
    CanThen(rule, sys, robbed, reclaimed, target);
    CanThen(rule, sys, reclaimed, sys', target);
  }

  lemma {:induction false} LosesAll(rule: Rule, was: Db, sys: Sys, a: Answers, i: nat, key: string, target: nat)
    returns (sys': Sys, e: int)
    requires Lenient(rule)
    requires Losing(was, sys, a, i, key)
    ensures Can(rule, sys, sys', target) && Losing(was, sys', a.(expiresAt := e), |a.text.warnings|, key)
    decreases |a.text.warnings| - i
  {
    if i == |a.text.warnings| {
      sys', e := sys, a.expiresAt;
      CanStay(rule, sys, target);
    } else {
      var next := LosesOne(rule, was, sys, a, i, key, target);
      sys', e := LosesAll(rule, was, next, a.(expiresAt := a.expiresAt + 1), i + 1, key, target);
      CanThen(rule, sys, next, sys', target);
    }
  }

  // From the empty store to a succeeded job without warnings

  lemma {:induction false} Opens(rule: Rule, key: string, target: nat)
    requires Lenient(rule)
    ensures Can(rule, Sys(EMPTY_DB, map[]), Sys(OneJob(key), map[1 := NewProc("worker")]), target)
  {
    var enqueue := Enqueue(NewJob(key, "ingest", "source", Some("record"), None), 0);
    var s0 := Sys(EMPTY_DB, map[]);
    var s1 := SysNext(s0, enqueue, target);
    CanDo(rule, s0, enqueue, target);
    CanDo(rule, s1, Start(1, "worker"), target);
    CanThen(rule, s0, s1, SysNext(s1, Start(1, "worker"), target), target);
  }

  lemma {:induction false} AnswersAdmitted(warningsOf: string -> seq<string>, a: Answers, key: string)
    requires a.text.warnings == warningsOf(key)
    ensures AdmitsAll(Warning(warningsOf, false), 1, OutsideOf(a), key)
  {
    forall p: Proc | p.at == Idle || p.jobKey == key
      ensures Admits(Warning(warningsOf, false), 1, p, At(OutsideOf(a), p.at))
    {
    }
  }

  lemma {:induction false} Persists(db: Db, p: Proc, a: Answers, key: string, target: nat) returns (s: State)
    requires Alone(db, key) && p.at == Idle && NextClaim(db, a.now) == Some(key) && Named(db, key)
    requires Acceptable(db, a, target)
    ensures Reaches(State(db, p), s, a, target) && Well(db, s, a) && DbOk(s.db)
    ensures s.p == NextWarning(s.p, 0) && s.p.jobKey == key && SameWarnings(s.db, db, key)
  {
    var s0 := Extracted(State(db, p), a, target, key);
    s := Persisted(db, s0, a, target);
    ThenReaches(State(db, p), s0, s, a, target);
    LeadsKeepsDb(State(db, p), s, OutsideOf(a), target);
  }

  lemma {:induction false} BeginsToLose(was: Db, sys: Sys, a: Answers, key: string)
    requires 1 in sys.procs && Well(was, State(sys.db, sys.procs[1]), a) && DbOk(sys.db)
    requires Alone(was, key) && was.jobs[key].warnings == [] && SameWarnings(sys.db, was, key)
    requires sys.procs[1] == NextWarning(sys.procs[1], 0) && sys.procs[1].jobKey == key
    ensures Losing(was, sys, a, 0, key)
  {
  }

  /** Up to the first warning. */
  lemma {:induction false} Begins(rule: Rule, sys: Sys, a: Answers, key: string, target: nat) returns (sys': Sys)
    requires 1 in sys.procs && sys.procs[1].at == Idle && AdmitsAll(rule, 1, OutsideOf(a), key)
    requires Alone(sys.db, key) && NextClaim(sys.db, a.now) == Some(key) && Named(sys.db, key)
    requires sys.db.jobs[key].warnings == [] && Acceptable(sys.db, a, target)
    ensures Can(rule, sys, sys', target) && Losing(sys.db, sys', a, 0, key)
  {
    var s := Persists(sys.db, sys.procs[1], a, key, target);
    LeadsCan(rule, sys, 1, s, OutsideOf(a), target);
    sys' := Sys(s.db, sys.procs[1 := s.p]);
    BeginsToLose(sys.db, sys', a, key);
  }

  lemma {:induction false} Finishes(was: Db, s: State, a: Answers, target: nat) returns (s': State)
    requires Well(was, s, a) && s.p.at == Linking && Acceptable(was, a, target)
    ensures Reaches(s, s', a, target) && s'.p.jobKey == s.p.jobKey
    ensures StatusIs(s'.db, s.p.jobKey, Succeeded) && SameWarnings(s'.db, s.db, s.p.jobKey)
  {
    var s1 := LinkedUp(was, s, a, target);
    s' := Completed(was, s1, a, target);
    ThenReaches(s, s1, s', a, target);
  }

  /** From the last warning. */
  lemma {:induction false} Ends(rule: Rule, was: Db, sys: Sys, a: Answers, key: string, target: nat) returns (sys': Sys)
    requires Losing(was, sys, a, |a.text.warnings|, key) && Acceptable(was, a, target)
    requires AdmitsAll(rule, 1, OutsideOf(a), key)
    ensures Can(rule, sys, sys', target)
    ensures StatusIs(sys'.db, key, Succeeded) && sys'.db.jobs[key].warnings == []
  {
    assert sys.procs[1].at == Linking;
    var s := Finishes(was, State(sys.db, sys.procs[1]), a, target);
    LeadsCan(rule, sys, 1, s, OutsideOf(a), target);
    sys' := Sys(s.db, sys.procs[1 := s.p]);
  }

  /** Two executors of one name, any job, any warnings: a run that ends in success without a single one. */
  lemma {:induction false} WarningsCanBeLost(warningsOf: string -> seq<string>, job: string, target: nat)
    returns (events: seq<Event>)
    ensures
      var start := Sys(EMPTY_DB, map[]);
      && Initial(start) && RunAllowed(Warning(warningsOf, false), start, events, target)
      && StatusIs(SysRun(start, events, target).db, job, Succeeded)
      && SysRun(start, events, target).db.jobs[job].warnings == []
  {
    var rule, a := Warning(warningsOf, false), AnswersFor("document", 0, warningsOf(job));
    var start, s0 := Sys(EMPTY_DB, map[]), Sys(OneJob(job), map[1 := NewProc("worker")]);
    EmptyDbOk();
    OneJobIsNext(job);
    AnswersAcceptable(job, "document", 0, warningsOf(job), target);
    AnswersAdmitted(warningsOf, a, job);
    Opens(rule, job, target);
    var s1 := Begins(rule, s0, a, job, target);
    var s2, e := LosesAll(rule, s0.db, s1, a, 0, job, target);
    assert Acceptable(s0.db, a.(expiresAt := e), target);
    AnswersAdmitted(warningsOf, a.(expiresAt := e), job);
    var s3 := Ends(rule, s0.db, s2, a.(expiresAt := e), job, target);
    CanThen(rule, start, s0, s1, target);
    CanThen(rule, start, s1, s2, target);
    CanThen(rule, start, s2, s3, target);
    events :| RunAllowed(rule, start, events, target) && SysRun(start, events, target) == s3;
  }

  // Without warnings there is nothing to lose

  predicate Silent(p: Proc) {
    && (6 <= Reached(p.at) ==> p.text.warnings == []) && !p.at.WarnRead? && !p.at.WarnWrite? && !p.at.WarnCheck?
    && (FinishPoint(p.at) ==> p.at.update.Finishes())
  }

  ghost predicate NoneRecorded(jobs: map<string, JobRow>) {
    forall k :: k in jobs ==> jobs[k].warnings == []
  }

  lemma {:induction false} SilentStep(db: Db, p: Proc, input: Input, target: nat)
    requires Silent(p) && (p.at == Marked(3) && input.answer.GotText? ==> input.answer.text.warnings == [])
    ensures Silent(ProcNext(db, p, input, target))
  {
    EveryStepMoves(db, p, input, target);
  }

  lemma {:induction false} SilentOp(db: Db, op: StoreOp)
    requires NoneRecorded(db.jobs) && !(op.UpdateJob? && op.update.SetWarnings?)
    ensures NoneRecorded(Next(db, op).jobs)
  {
    if !TouchesJobs(op) {
      TableStepsKeepJobs(db, op);
    }
  }

  ghost predicate SilentSys(sys: Sys) {
    NoneRecorded(sys.db.jobs) && forall pid :: pid in sys.procs ==> Silent(sys.procs[pid])
  }

  ghost predicate NoWarnings(warningsOf: string -> seq<string>) {
    forall job :: warningsOf(job) == []
  }

  lemma {:induction false} SilentNext(warningsOf: string -> seq<string>, sys: Sys, event: Event, target: nat)
    requires SilentSys(sys) && NoWarnings(warningsOf) && WarnsBy(warningsOf, sys, event)
    ensures SilentSys(SysNext(sys, event, target))
  {
    match event {
      case Act(pid, input) =>
        if pid in sys.procs {
          var p := sys.procs[pid];
          SilentStep(sys.db, p, input, target);
          if OpOf(p, input, target).Some? {
            SilentOp(sys.db, OpOf(p, input, target).value);
          }
        }
      case Start(pid, owner) =>
      case Crash(pid) =>
      case Enqueue(job, now) => SilentOp(sys.db, CreateJob(job, now));
      case Repair(actions) => SilentOp(sys.db, RepairIndex(actions));
    }
  }

  lemma {:induction false} SilentRun(warningsOf: string -> seq<string>, sys: Sys, events: seq<Event>, target: nat)
    requires SilentSys(sys) && NoWarnings(warningsOf) && RunAllowed(Warning(warningsOf, false), sys, events, target)
    ensures SilentSys(SysRun(sys, events, target))
    decreases |events|
  {
    if events != [] {
      assert Warning(warningsOf, false)(sys, events[0]);
      SilentNext(warningsOf, sys, events[0], target);
      SilentRun(warningsOf, SysNext(sys, events[0], target), events[1..], target);
    }
  }

  lemma {:induction false} DistinctWarn(warningsOf: string -> seq<string>, sys: Sys, events: seq<Event>, target: nat)
    requires RunAllowed(Warning(warningsOf, true), sys, events, target)
    ensures RunFreshOwners(sys, events, target) && RunWarnsBy(warningsOf, sys, events, target)
    decreases |events|
  {
    if events != [] {
      assert Warning(warningsOf, true)(sys, events[0]);
      DistinctWarn(warningsOf, SysNext(sys, events[0], target), events[1..], target);
    }
  }

  lemma {:induction false} SafeWarnings(
    warningsOf: string -> seq<string>, distinct: bool, sys: Sys, events: seq<Event>, target: nat, job: string)
    requires distinct || NoWarnings(warningsOf)
    requires Initial(sys) && RunAllowed(Warning(warningsOf, distinct), sys, events, target)
    requires StatusIs(SysRun(sys, events, target).db, job, Succeeded)
    ensures SysRun(sys, events, target).db.jobs[job].warnings == Dedup(warningsOf(job))
  {
    if distinct {
      DistinctWarn(warningsOf, sys, events, target);
      SucceededHasItsWarnings(warningsOf, sys, events, target, job);
    } else {
      SilentRun(warningsOf, sys, events, target);
    }
  }

  /** Exactly when warnings are safe: when live executors have distinct owner names, or there are none to lose. */
  lemma {:induction false} WarningsAreSafeIff(warningsOf: string -> seq<string>, distinct: bool, target: nat)
    ensures KeepsWarnings(warningsOf, distinct, target) <==> distinct || NoWarnings(warningsOf)
  {
    if distinct || NoWarnings(warningsOf) {
      forall sys: Sys, events: seq<Event>, job: string |
        Initial(sys) && RunAllowed(Warning(warningsOf, distinct), sys, events, target)
        && StatusIs(SysRun(sys, events, target).db, job, Succeeded)
        ensures SysRun(sys, events, target).db.jobs[job].warnings == Dedup(warningsOf(job))
      {
        SafeWarnings(warningsOf, distinct, sys, events, target, job);
      }
    } else {
      var job :| warningsOf(job) != [];
      var events := WarningsCanBeLost(warningsOf, job, target);
      DedupIntoMember([], warningsOf(job), warningsOf(job)[0]);
      assert warningsOf(job)[0] in Dedup(warningsOf(job));
    }
  }
}
