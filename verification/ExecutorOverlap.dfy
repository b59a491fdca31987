/**
 Why the asset half of persist before complete needs a hypothesis: two executors that share an
 owner name and are told different documents for one job.  The first loses its lease to the second
 without noticing, the second links its own document, and the first completes the job.
 */
module ExecutorOverlap {
  import opened Wrappers
  import opened Database
  import opened Jobs
  import opened StoreRuns
  import opened Executor
  import opened ExecutorPaths
  import opened ExecutorReach
  import opened ExecutorProgress
  import opened ExecutorAssets
  import opened ExecutorExample
  import Documents
  import PageExtraction

  /** Any two executors with one owner name and any two documents, on a store with one job. */
  ghost predicate Clash(db: Db, p: Proc, q: Proc, a: Answers, b: Answers, target: nat, key: string) {
    && DbOk(db) && db.assets == map[] && db.jobs.Keys == {key}
    && p.at == Idle && q.at == Idle && p.owner == q.owner
    && NextClaim(db, a.now) == Some(key) && Named(db, key)
    && a.expiresAt <= b.now
    && Acceptable(db, a, target)
    && a.document.documentKey != b.document.documentKey
  }

  lemma {:induction false} IdleToLinked(db: Db, p: Proc, a: Answers, target: nat, key: string) returns (s: State)
    requires DbOk(db) && p.at == Idle && NextClaim(db, a.now) == Some(key) && Named(db, key)
    requires Acceptable(db, a, target)
    ensures Reaches(State(db, p), s, a, target) && Well(db, s, a) && LinkedToItsDocument(s)
    ensures s.p == p.(at := Marking(5), jobKey := key, document := a.document, asset := a.asset, text := a.text)
  {
    var s1 := Extracted(State(db, p), a, target, key);
    s := ToLinked(db, s1, a, target);
    ThenReaches(State(db, p), s1, s, a, target);
  }

  /** The first executor up to its last statement: it has linked its document and written its asset. */
  lemma {:induction false} FirstWorks(db: Db, p: Proc, a: Answers, target: nat, key: string) returns (s: State)
    requires DbOk(db) && p.at == Idle && NextClaim(db, a.now) == Some(key) && Named(db, key)
    requires Acceptable(db, a, target)
    ensures Reaches(State(db, p), s, a, target)
    ensures s.p.at == FinishFirst(Complete) && s.p.jobKey == key && s.p.owner == p.owner && Holds(s.db, s.p)
    ensures s.db.jobs.Keys == db.jobs.Keys && s.db.jobs[key].leaseExpiresAt == Some(a.expiresAt)
    ensures SameTarget(s.db.jobs[key], db.jobs[key])
    ensures s.db.documents == Documents.WriteDocument(db, a.document).documents
    ensures a.document.documentKey in s.db.documents
    ensures s.db.assets
         == db.assets[(s.db.documents[a.document.documentKey].id, a.asset.assetUrl, a.asset.role) := a.asset.row]
  {
    var s2 := IdleToLinked(db, p, a, target, key);
    ToFinish(db, s2, a, target);
    s := Steps(s2, a, target, 3);
    StepsLead(s2, a, target, 3);
    ThenReaches(State(db, p), s2, s, a, target);
  }

  lemma {:induction false} LinkedFacts(was: Db, s: State, a: Answers)
    requires Well(was, s, a) && s.p.at == Marking(5) && LinkedToItsDocument(s)
    ensures s.p.document == a.document && Holds(s.db, s.p)
    ensures s.db.documents == Documents.WriteDocument(was, a.document).documents && s.db.assets == was.assets
  {
  }

  /** The second executor claims the expired lease and links its own document. */
  lemma {:induction false} SecondLinks(db: Db, q: Proc, b: Answers, target: nat, key: string) returns (s: State)
    requires DbOk(db) && q.at == Idle && NextClaim(db, b.now) == Some(key) && Named(db, key)
    requires Acceptable(db, b, target)
    ensures Reaches(State(db, q), s, b, target)
    ensures s.p.jobKey == key && s.p.owner == q.owner && Holds(s.db, s.p)
    ensures s.db.documents == Documents.WriteDocument(db, b.document).documents && s.db.assets == db.assets
    ensures b.document.documentKey in s.db.documents
    ensures s.db.jobs[key].documentId == Some(s.db.documents[b.document.documentKey].id)
  {
    s := IdleToLinked(db, q, b, target, key);
    LinkedFacts(db, s, b);
  }

  /** A lone job whose lease has run out is the next claim. */
  lemma {:induction false} ExpiredIsNext(db: Db, key: string, now: int)
    requires DbOk(db) && db.jobs.Keys == {key} && Expired(db.jobs[key], now)
    ensures NextClaim(db, now) == Some(key)
  {
    assert forall k :: k in db.jobs <==> k in db.jobs.Keys;
    assert IsNextClaim(db, now, key);
    NextClaimUnique(db, now, key);
  }

  lemma {:induction false} OtherDocumentHasNoAsset(db: Db, a: string, b: string, url: string, role: AssetRole, row: AssetRow)
    requires Documents.DocumentsOk(db) && a in db.documents && b in db.documents && a != b
    requires db.assets == map[(db.documents[a].id, url, role) := row]
    ensures !HasAsset(db, db.documents[b].id)
  {
    assert db.documents[a].id != db.documents[b].id;
  }

  lemma {:induction false} FirstDocumentStays(db: Db, document: Documents.UpsertDocument, key: string)
    requires key in db.documents
    ensures
      var documents := Documents.WriteDocument(db, document).documents;
      key in documents && documents[key].id == db.documents[key].id
  {
  }

  /** The three parts of the run; the job ends succeeded and linked to a document without an asset. */
  lemma {:induction false} Overtaken(
    db: Db, p: Proc, q: Proc, a: Answers, b: Answers, target: nat, key: string)
    returns (s1: State, s2: State, s3: State)
    requires Clash(db, p, q, a, b, target, key)
    requires forall after: Db :: after.documents == Documents.WriteDocument(db, a.document).documents ==>
               Acceptable(after, b, target)
    ensures Reaches(State(db, p), s1, a, target)
    ensures Reaches(State(s1.db, q), s2, b, target)
    ensures Reaches(State(s2.db, s1.p), s3, a, target)
    ensures LosesAsset(s3.db, key) && s1.p.jobKey == key && s2.p.jobKey == key && s3.p.jobKey == key
  {
    s1 := FirstWorks(db, p, a, target, key);
    LeadsKeepsDb(State(db, p), s1, OutsideOf(a), target);
    ExpiredIsNext(s1.db, key, b.now);
    s2 := SecondLinks(s1.db, q, b, target, key);
    LeadsKeepsDb(State(s1.db, q), s2, OutsideOf(b), target);
    FinishSteps(State(s2.db, s1.p), a, target);
    s3 := Steps(State(s2.db, s1.p), a, target, 3);
    StepsLead(State(s2.db, s1.p), a, target, 3);
    FirstDocumentStays(s1.db, b.document, a.document.documentKey);
    OtherDocumentHasNoAsset(
      s2.db, a.document.documentKey, b.document.documentKey, a.asset.assetUrl, a.asset.role, a.asset.row);
  }

  ghost predicate LosesAsset(db: Db, key: string) {
    StatusIs(db, key, Succeeded) && db.jobs[key].documentId.Some? && !HasAsset(db, db.jobs[key].documentId.value)
  }

  // From the empty store

  /** Every document a planner names for a job is among these; with `distinct`, live owners differ. */
  function Planning(keysOf: string -> iset<string>, distinct: bool): Rule {
    (sys: Sys, event: Event) =>
      PlansWithin(keysOf, sys, event) && (distinct ==> FreshOwner(sys, event))
  }

  predicate PlansWithin(keysOf: string -> iset<string>, sys: Sys, event: Event) {
    event.Act? && event.pid in sys.procs && sys.procs[event.pid].at == Marked(1) && event.input.answer.GotDocument? ==>
      event.input.answer.document.documentKey in keysOf(sys.procs[event.pid].jobKey)
  }

  /** The asset half of persist before complete, over all runs under such planning. */
  ghost predicate KeepsAssets(keysOf: string -> iset<string>, distinct: bool, target: nat) {
    forall sys: Sys, events: seq<Event>, job: string ::
      Initial(sys) && RunAllowed(Planning(keysOf, distinct), sys, events, target)
      && StatusIs(SysRun(sys, events, target).db, job, Succeeded)
      ==> !LosesAsset(SysRun(sys, events, target).db, job)
  }

  lemma {:induction false} Opens(rule: Rule, key: string, target: nat)
    requires forall sys: Sys, event: Event :: event.Start? || event.Enqueue? ==> rule(sys, event)
    ensures Can(rule, Sys(EMPTY_DB, map[]),
                Sys(OneJob(key), map[1 := NewProc("worker"), 2 := NewProc("worker")]), target)
  {
    var enqueue := Enqueue(NewJob(key, "ingest", "source", Some("record"), None), 0);
    var s0 := Sys(EMPTY_DB, map[]);
    var s1 := SysNext(s0, enqueue, target);
    var s2 := SysNext(s1, Start(1, "worker"), target);
    var s3 := SysNext(s2, Start(2, "worker"), target);
    CanDo(rule, s0, enqueue, target);
    CanDo(rule, s1, Start(1, "worker"), target);
    CanDo(rule, s2, Start(2, "worker"), target);
    CanThen(rule, s0, s1, s2, target);
    CanThen(rule, s0, s2, s3, target);
  }

  lemma {:induction false} AnswersAdmitted(keysOf: string -> iset<string>, pid: nat, a: Answers, job: string)
    requires a.document.documentKey in keysOf(job)
    ensures AdmitsAll(Planning(keysOf, false), pid, OutsideOf(a), job)
  {
    forall p: Proc | p.at == Idle || p.jobKey == job
      ensures Admits(Planning(keysOf, false), pid, p, At(OutsideOf(a), p.at))
    {
    }
  }

  /** The three parts as a run of two processes of one name. */
  lemma {:induction false} Staged(
    keysOf: string -> iset<string>, job: string, s1: State, s2: State, s3: State, a: Answers, b: Answers, target: nat)
    requires a.document.documentKey in keysOf(job) && b.document.documentKey in keysOf(job)
    requires s1.p.jobKey == job && s2.p.jobKey == job && s3.p.jobKey == job
    requires Reaches(State(OneJob(job), NewProc("worker")), s1, a, target)
    requires Reaches(State(s1.db, NewProc("worker")), s2, b, target) && Reaches(State(s2.db, s1.p), s3, a, target)
    ensures Can(Planning(keysOf, false), Sys(EMPTY_DB, map[]), Sys(s3.db, map[1 := s3.p, 2 := s2.p]), target)
  {
    var rule, p := Planning(keysOf, false), NewProc("worker");
    var t0, t1 := Sys(OneJob(job), map[1 := p, 2 := p]), Sys(s1.db, map[1 := s1.p, 2 := p]);
    var t2, t3 := Sys(s2.db, map[1 := s1.p, 2 := s2.p]), Sys(s3.db, map[1 := s3.p, 2 := s2.p]);
    Opens(rule, job, target);
    AnswersAdmitted(keysOf, 1, a, job);
    AnswersAdmitted(keysOf, 2, b, job);
    LeadsCan(rule, t0, 1, s1, OutsideOf(a), target);
    LeadsCan(rule, t1, 2, s2, OutsideOf(b), target);
    LeadsCan(rule, t2, 1, s3, OutsideOf(a), target);
    assert t0.procs[1 := s1.p] == t1.procs && t1.procs[2 := s2.p] == t2.procs && t2.procs[1 := s3.p] == t3.procs;
    CanThen(rule, Sys(EMPTY_DB, map[]), t0, t1, target);
    CanThen(rule, Sys(EMPTY_DB, map[]), t1, t2, target);
    CanThen(rule, Sys(EMPTY_DB, map[]), t2, t3, target);
  }

  lemma {:induction false} Clashes(job: string, first: string, second: string, warnings: seq<string>, target: nat)
    requires first != second
    ensures
      var a, b, p := AnswersFor(first, 0, warnings), AnswersFor(second, 20, warnings), NewProc("worker");
      && Clash(OneJob(job), p, p, a, b, target, job)
      && forall after: Db :: after.documents == Documents.WriteDocument(OneJob(job), a.document).documents ==>
           Acceptable(after, b, target)
  {
    OneJobIsNext(job);
    AnswersAcceptable(job, first, 0, warnings, target);
    forall after: Db | after.documents == Documents.WriteDocument(OneJob(job), Document(first)).documents
      ensures Acceptable(after, AnswersFor(second, 20, warnings), target)
    {
      SecondAcceptable(after, job, first, second, 20, warnings, target);
    }
  }

  /** For any job and any two documents: two executors of one name, one told the one and one the other. */
  lemma {:induction false} SharedOwnerLosesAsset(
    keysOf: string -> iset<string>, job: string, first: string, second: string, target: nat) returns (events: seq<Event>)
    requires first in keysOf(job) && second in keysOf(job) && first != second
    ensures
      var start := Sys(EMPTY_DB, map[]);
      && Initial(start) && RunAllowed(Planning(keysOf, false), start, events, target)
      && LosesAsset(SysRun(start, events, target).db, job)
  {
    var p, start, warnings := NewProc("worker"), Sys(EMPTY_DB, map[]), PageExtraction.QualityWarnings([PAGE]);
    var a, b := AnswersFor(first, 0, warnings), AnswersFor(second, 20, warnings);
    EmptyDbOk();
    Clashes(job, first, second, warnings, target);
    var s1, s2, s3 := Overtaken(OneJob(job), p, p, a, b, target, job);
    Staged(keysOf, job, s1, s2, s3, a, b, target);
    events :| RunAllowed(Planning(keysOf, false), start, events, target)
      && SysRun(start, events, target) == Sys(s3.db, map[1 := s3.p, 2 := s2.p]);
  }

  // When it cannot happen

  ghost function TheKey(keysOf: string -> iset<string>, job: string): string {
    if exists k :: k in keysOf(job) then
      var k :| k in keysOf(job);
      k
    else ""
  }

  ghost predicate OneEach(keysOf: string -> iset<string>) {
    forall job, a, b :: a in keysOf(job) && b in keysOf(job) ==> a == b
  }

  lemma {:induction false} OneEachPlans(keysOf: string -> iset<string>, sys: Sys, events: seq<Event>, target: nat)
    requires OneEach(keysOf) && RunAllowed(Planning(keysOf, false), sys, events, target)
    ensures RunPlansBy((job: string) => TheKey(keysOf, job), sys, events, target)
    decreases |events|
  {
    if events != [] {
      assert Planning(keysOf, false)(sys, events[0]);
      OneEachPlans(keysOf, SysNext(sys, events[0], target), events[1..], target);
    }
  }

  lemma {:induction false} DistinctAreFresh(keysOf: string -> iset<string>, sys: Sys, events: seq<Event>, target: nat)
    requires RunAllowed(Planning(keysOf, true), sys, events, target)
    ensures RunFreshOwners(sys, events, target)
    decreases |events|
  {
    if events != [] {
      assert Planning(keysOf, true)(sys, events[0]);
      DistinctAreFresh(keysOf, SysNext(sys, events[0], target), events[1..], target);
    }
  }

  lemma {:induction false} SafePlanning(
    keysOf: string -> iset<string>, distinct: bool, sys: Sys, events: seq<Event>, target: nat, job: string)
    requires distinct || OneEach(keysOf)
    requires Initial(sys) && RunAllowed(Planning(keysOf, distinct), sys, events, target)
    requires StatusIs(SysRun(sys, events, target).db, job, Succeeded)
    ensures !LosesAsset(SysRun(sys, events, target).db, job)
  {
    if distinct {
      DistinctAreFresh(keysOf, sys, events, target);
      SucceededHasOwnAsset(sys, events, target, job);
    } else {
      OneEachPlans(keysOf, sys, events, target);
      SucceededHasPlannedAsset((j: string) => TheKey(keysOf, j), sys, events, target, job);
    }
  }

  /**
   Exactly when a succeeded job's document is sure to have its asset: when live executors have
   distinct owner names, or the planner can name at most one document for each job.
   */
  lemma {:induction false} AssetsAreSafeIff(keysOf: string -> iset<string>, distinct: bool, target: nat)
    ensures KeepsAssets(keysOf, distinct, target) <==> distinct || OneEach(keysOf)
  {
    if distinct || OneEach(keysOf) {
      forall sys: Sys, events: seq<Event>, job: string |
        Initial(sys) && RunAllowed(Planning(keysOf, distinct), sys, events, target)
        && StatusIs(SysRun(sys, events, target).db, job, Succeeded)
        ensures !LosesAsset(SysRun(sys, events, target).db, job)
      {
        SafePlanning(keysOf, distinct, sys, events, target, job);
      }
    } else {
      var job, a, b :| a in keysOf(job) && b in keysOf(job) && a != b;
      var events := SharedOwnerLosesAsset(keysOf, job, a, b, target);
    }
  }
}
