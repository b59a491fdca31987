/**
 A run left alone: an executor that is neither cancelled nor overtaken, and whose source, download
 and extractor answer, takes the next claimable job to `succeeded`.
 */
module ExecutorProgress {
  import opened Wrappers
  import opened Database
  import opened Jobs
  import opened StoreRuns
  import opened Pipeline
  import opened Executor
  import opened ExecutorPaths
  import opened ExecutorReach
  import Chunking
  import Documents
  import Ingestion

  /** What the outside answers during the run. */
  datatype Answers = Answers(
    now: int, expiresAt: int, document: Documents.UpsertDocument, asset: Downloaded, text: ExtractedText)

  function InputAt(a: Answers, at: Point): Input {
    Input(a.now, a.expiresAt, false, false,
          match at
          case Marked(mark) =>
            if mark == 1 then GotDocument(a.document)
            else if mark == 2 then GotAsset(a.asset)
            else if mark == 3 then GotText(a.text)
            else Ready
          case _ => Ready)
  }

  ghost function Step(s: State, a: Answers, target: nat): State {
    StepWith(s, InputAt(a, s.p.at), target)
  }

  function OutsideOf(a: Answers): Outside {
    (at: Point) => InputAt(a, at)
  }

  /** Some number of steps under these answers leads from `s` to `s'`. */
  ghost predicate Reaches(s: State, s': State, a: Answers, target: nat) {
    Leads(s, s', OutsideOf(a), target)
  }

  ghost function Iterate<T(!new)>(f: T -> T, x: T, n: nat): T {
    if n == 0 then x else Iterate(f, f(x), n - 1)
  }

  lemma {:induction false} IterateAdd<T(!new)>(f: T -> T, x: T, m: nat, n: nat)
    ensures Iterate(f, Iterate(f, x, m), n) == Iterate(f, x, m + n)
    decreases m
  {
    if m > 0 {
      IterateAdd(f, f(x), m - 1, n);
    }
  }

  ghost function Stepper(a: Answers, target: nat): State -> State {
    (s: State) => Step(s, a, target)
  }

  ghost function Steps(s: State, a: Answers, target: nat, n: nat): State {
    Iterate(Stepper(a, target), s, n)
  }

  lemma {:induction false} StepsAdd(s: State, a: Answers, target: nat, m: nat, n: nat)
    ensures Steps(Steps(s, a, target, m), a, target, n) == Steps(s, a, target, m + n)
  {
    IterateAdd(Stepper(a, target), s, m, n);
  }

  predicate SameTarget(row: JobRow, was: JobRow) {
    row.sourceId == was.sourceId && row.targetUrl == was.targetUrl
  }

  /** What a run that goes well has at each point; `was` is the database it found. */
  ghost predicate Well(was: Db, s: State, a: Answers) {
    && Holds(s.db, s.p) && s.db.jobs.Keys == was.jobs.Keys
    && s.db.jobs[s.p.jobKey].leaseExpiresAt == Some(a.expiresAt)
    && SameTarget(s.db.jobs[s.p.jobKey], was.jobs[s.p.jobKey])
    && (4 <= Reached(s.p.at) ==> s.p.document == a.document)
    && (5 <= Reached(s.p.at) ==> s.p.asset == a.asset)
    && (6 <= Reached(s.p.at) ==> s.p.text == a.text)
    && (Reached(s.p.at) <= 7 ==> s.db.documents == was.documents && s.db.nextDocumentId == was.nextDocumentId)
    && (8 <= Reached(s.p.at) ==> s.db.documents == Documents.WriteDocument(was, a.document).documents)
    && (Reached(s.p.at) <= 11 ==> s.db.assets == was.assets)
    && (Reached(s.p.at) <= 8 ==> s.db.jobs[s.p.jobKey].warnings == was.jobs[s.p.jobKey].warnings)
  }

  /** Everything the outside supplies is acceptable. */
  ghost predicate Acceptable(was: Db, a: Answers, target: nat) {
    && Documents.Upsert(was, a.document).Ok?
    && Prepare(a.text.pages, target).Ok? && Chunking.ConsecutiveNumbers(a.text.pages)
    && a.asset.sizeFits
  }

  // Own updates keep the job

  // One point to the next

  function Advanced(p: Proc, a: Answers, mark: nat): Proc {
    match mark
    case 0 => p.(at := Marking(1))
    case 1 => p.(at := Marking(2), document := a.document)
    case 2 => p.(at := Marking(3), asset := a.asset)
    case 3 => p.(at := Marking(4), text := a.text)
    case 4 => p.(at := Upserting)
    case _ => p.(at := AssetWriting)
  }

  lemma {:induction false} MarkedMoves(s: State, a: Answers, target: nat, mark: nat)
    requires Holds(s.db, s.p) && s.p.at == Marked(mark)
    ensures Step(s, a, target) == State(s.db, AfterMark(s.p, mark, InputAt(a, Marked(mark)), target))
  {
  }

  lemma {:induction false} MarkedStep(was: Db, s: State, a: Answers, target: nat, mark: nat)
    requires Well(was, s, a) && s.p.at == Marked(mark) && mark <= 5 && Acceptable(was, a, target)
    ensures Step(s, a, target) == State(s.db, Advanced(s.p, a, mark))
  {
    MarkedMoves(s, a, target, mark);
    if mark <= 3 {
    } else {
    }
  }

  lemma {:induction false} MarkingStep(was: Db, s: State, a: Answers, target: nat, mark: nat)
    requires Well(was, s, a) && s.p.at == Marking(mark) && mark <= 5
    ensures Well(was, Step(s, a, target), a)
    ensures Step(s, a, target).p == s.p.(at := Marked(mark))
  {
  }

  lemma {:induction false} MarkSteps(was: Db, s: State, a: Answers, target: nat, mark: nat)
    requires Well(was, s, a) && s.p.at == Marking(mark) && mark <= 5 && Acceptable(was, a, target)
    ensures Well(was, Steps(s, a, target, 2), a)
    ensures Steps(s, a, target, 2).p == Advanced(s.p.(at := Marked(mark)), a, mark)
  {
    MarkingStep(was, s, a, target, mark);
    MarkedStep(was, Step(s, a, target), a, target, mark);
    TwoSteps(s, a, target);
  }

  lemma {:induction false} TwoSteps(s: State, a: Answers, target: nat)
    ensures Steps(s, a, target, 2) == Step(Step(s, a, target), a, target)
  {
    StepsAdd(s, a, target, 1, 1);
  }

  // Claiming

  lemma {:induction false} ClaimStep(was: Db, s: State, a: Answers, target: nat, key: string)
    requires DbOk(s.db) && was == s.db && s.p.at == Idle && NextClaim(s.db, a.now) == Some(key)
    ensures Well(was, Step(s, a, target), a) && Step(s, a, target).p == s.p.(at := Claimed, jobKey := key)
  {
    var lease := Lease(s.p.owner, a.now, a.expiresAt);
    NextClaimMeaning(s.db, a.now);
    assert IsNextClaim(s.db, a.now, key);
  }

  ghost predicate Named(db: Db, key: string) {
    key in db.jobs && (db.jobs[key].sourceId.Some? || db.jobs[key].targetUrl.Some?)
  }

  lemma {:induction false} ClaimSteps(was: Db, s: State, a: Answers, target: nat, key: string)
    requires DbOk(s.db) && was == s.db && s.p.at == Idle && NextClaim(s.db, a.now) == Some(key) && Named(was, key)
    ensures Well(was, Steps(s, a, target, 2), a)
    ensures Steps(s, a, target, 2).p == s.p.(at := Marking(0), jobKey := key)
  {
    ClaimStep(was, s, a, target, key);
    TwoSteps(s, a, target);
  }

  // Persisting

  lemma {:induction false} UpsertSameDocuments(db: Db, db': Db, document: Documents.UpsertDocument)
    requires db.documents == db'.documents
    ensures Documents.Upsert(db, document).Ok? <==> Documents.Upsert(db', document).Ok?
  {
    assert Documents.TakenByAnother(db, document) <==> Documents.TakenByAnother(db', document);
  }

  lemma {:induction false} WritesAgree(was: Db, db: Db, document: Documents.UpsertDocument)
    requires db.documents == was.documents && db.nextDocumentId == was.nextDocumentId
    ensures
      var db' := Documents.WriteDocument(db, document);
      && db'.documents == Documents.WriteDocument(was, document).documents
      && db'.jobs == db.jobs && db'.assets == db.assets
  {
    var k := document.documentKey;
    if k in was.documents {
      assert Documents.WriteDocument(db, document).documents
          == was.documents[k := Documents.RowOf(was.documents[k].id, document)];
    } else {
      assert Documents.WriteDocument(db, document).documents
          == was.documents[k := Documents.RowOf(was.nextDocumentId, document)];
    }
  }

  lemma {:induction false} UpsertStep(was: Db, s: State, a: Answers, target: nat)
    requires Well(was, s, a) && s.p.at == Upserting && Acceptable(was, a, target)
    ensures Well(was, Step(s, a, target), a) && Step(s, a, target).p == s.p.(at := Replacing)
  {
    UpsertSameDocuments(was, s.db, a.document);
    WritesAgree(was, s.db, a.document);
  }

  lemma {:induction false} ReplaceMoves(s: State, a: Answers, target: nat)
    requires s.p.at == Replacing && ReplaceResult(s.db, s.p, target).Ok?
    ensures Step(s, a, target).p == NextWarning(s.p, 0)
    ensures Step(s, a, target).db == ReplaceResult(s.db, s.p, target).value
  {
  }

  lemma {:induction false} ReplaceResultKeeps(db: Db, p: Proc, target: nat)
    requires ReplaceResult(db, p, target).Ok?
    ensures
      var db' := ReplaceResult(db, p, target).value;
      db'.jobs == db.jobs && db'.documents == db.documents && db'.assets == db.assets
  {
  }

  lemma {:induction false} SameTablesWell(was: Db, s: State, s': State, a: Answers)
    requires Well(was, s, a) && s.p.at == Replacing && s'.p == NextWarning(s.p, 0)
    requires s'.db.jobs == s.db.jobs && s'.db.documents == s.db.documents && s'.db.assets == s.db.assets
    ensures Well(was, s', a)
  {
  }

  lemma {:induction false} ReplaceWorks(was: Db, s: State, a: Answers, target: nat)
    requires Well(was, s, a) && s.p.at == Replacing && Acceptable(was, a, target)
    ensures ReplaceResult(s.db, s.p, target).Ok?
  {
    AnswersAccepted(s.db, s.p, target);
  }

  lemma {:induction false} AnswersAccepted(db: Db, p: Proc, target: nat)
    requires p.document.documentKey in db.documents
    requires Prepare(p.text.pages, target).Ok? && Chunking.ConsecutiveNumbers(p.text.pages)
    ensures ReplaceResult(db, p, target).Ok?
  {
    Ingestion.ReplaceAccepts(db, p.document.documentKey, p.text.pages, p.text.textSource, target);
  }

  lemma {:induction false} ReplaceOne(was: Db, s: State, a: Answers, target: nat)
    requires Well(was, s, a) && s.p.at == Replacing && Acceptable(was, a, target)
    ensures Well(was, Step(s, a, target), a) && Step(s, a, target).p == NextWarning(s.p, 0)
    ensures SameWarnings(Step(s, a, target).db, was, s.p.jobKey)
  {
    ReplaceWorks(was, s, a, target);
    ReplaceMoves(s, a, target);
    ReplaceResultKeeps(s.db, s.p, target);
    SameTablesWell(was, s, Step(s, a, target), a);
  }

  // Warnings

  lemma {:induction false} WarnWriteStep(was: Db, s: State, a: Answers, target: nat, i: nat, read: seq<string>)
    requires Well(was, s, a) && s.p.at == WarnWrite(i, read) && i < |s.p.text.warnings|
    ensures Well(was, Step(s, a, target), a) && Step(s, a, target).p == s.p.(at := WarnCheck(i))
  {
  }

  /** One warning takes two or three steps. */
  lemma {:induction false} WarnSteps(was: Db, s: State, a: Answers, target: nat, i: nat) returns (n: nat)
    requires Well(was, s, a) && s.p.at == WarnRead(i) && i < |s.p.text.warnings|
    ensures Well(was, Steps(s, a, target, n), a) && Steps(s, a, target, n).p == NextWarning(s.p, i + 1)
  {
    var s1 := Step(s, a, target);
    if s1.p.at.WarnWrite? {
      WarnWriteStep(was, s1, a, target, i, s1.p.at.read);
      TwoSteps(s1, a, target);
      StepsAdd(s, a, target, 1, 2);
      n := 3;
    } else {
      TwoSteps(s, a, target);
      n := 2;
    }
  }

  lemma {:induction false} AllWarnings(was: Db, s: State, a: Answers, target: nat, i: nat) returns (n: nat)
    requires Well(was, s, a) && s.p == NextWarning(s.p, i) && i <= |s.p.text.warnings|
    ensures Well(was, Steps(s, a, target, n), a) && Steps(s, a, target, n).p == s.p.(at := Linking)
    decreases |s.p.text.warnings| - i
  {
    if i == |s.p.text.warnings| {
      n := 0;
    } else {
      var m := WarnSteps(was, s, a, target, i);
      var rest := AllWarnings(was, Steps(s, a, target, m), a, target, i + 1);
      StepsAdd(s, a, target, m, rest);
      n := m + rest;
    }
  }

  // Linking

  lemma {:induction false} LinkingMoves(s: State, a: Answers, target: nat)
    requires s.p.at == Linking
    ensures Step(s, a, target)
         == State(Next(s.db, UpdateJob(s.p.jobKey, s.p.owner, Link(s.p.document.documentKey), a.now)),
                 s.p.(at := LinkCheck))
  {
  }

  ghost predicate LinkedToItsDocument(s: State) {
    && s.p.jobKey in s.db.jobs && s.p.document.documentKey in s.db.documents
    && s.db.jobs[s.p.jobKey].documentId == Some(s.db.documents[s.p.document.documentKey].id)
  }

  predicate SameWarnings(db: Db, was: Db, key: string) {
    key in db.jobs && key in was.jobs && db.jobs[key].warnings == was.jobs[key].warnings
  }

  lemma {:induction false} LinkSteps(was: Db, s: State, a: Answers, target: nat)
    requires Well(was, s, a) && s.p.at == Linking
    ensures Well(was, Steps(s, a, target, 2), a) && Steps(s, a, target, 2).p == s.p.(at := Marking(5))
    ensures LinkedToItsDocument(Steps(s, a, target, 2))
    ensures SameWarnings(Steps(s, a, target, 2).db, s.db, s.p.jobKey)
  {
    LinkingMoves(s, a, target);
    TwoSteps(s, a, target);
  }

  // From idle to the last stage

  /** Six points in, the text is known. */
  lemma {:induction false} ToUpserting(was: Db, s: State, a: Answers, target: nat)
    requires Well(was, s, a) && s.p.at == Marking(0) && Acceptable(was, a, target)
    ensures Well(was, Steps(s, a, target, 10), a)
    ensures Steps(s, a, target, 10).p == s.p.(at := Upserting, document := a.document, asset := a.asset, text := a.text)
  {
    var s1 := Steps(s, a, target, 2);
    MarkSteps(was, s, a, target, 0);
    var s2 := Steps(s1, a, target, 2);
    MarkSteps(was, s1, a, target, 1);
    var s3 := Steps(s2, a, target, 2);
    MarkSteps(was, s2, a, target, 2);
    var s4 := Steps(s3, a, target, 2);
    MarkSteps(was, s3, a, target, 3);
    MarkSteps(was, s4, a, target, 4);
    StepsAdd(s, a, target, 2, 2);
    StepsAdd(s, a, target, 4, 2);
    StepsAdd(s, a, target, 6, 2);
    StepsAdd(s, a, target, 8, 2);
  }

  lemma {:induction false} StepReaches(s: State, a: Answers, target: nat)
    ensures Reaches(s, Step(s, a, target), a, target)
  {
    assert At(OutsideOf(a), s.p.at) == InputAt(a, s.p.at);
    StepLeads(s, Step(s, a, target), OutsideOf(a), target);
  }

  lemma {:induction false} ThenReaches(s: State, s1: State, s2: State, a: Answers, target: nat)
    requires Reaches(s, s1, a, target) && Reaches(s1, s2, a, target)
    ensures Reaches(s, s2, a, target)
  {
    ThenLeads(s, s1, s2, OutsideOf(a), target);
  }

  lemma {:induction false} StepsLead(s: State, a: Answers, target: nat, n: nat)
    ensures Reaches(s, Steps(s, a, target, n), a, target)
    decreases n
  {
    if n == 0 {
      StaysThere(s, OutsideOf(a), target);
    } else {
      StepReaches(s, a, target);
      StepsLead(Step(s, a, target), a, target, n - 1);
      ThenReaches(s, Step(s, a, target), Steps(Step(s, a, target), a, target, n - 1), a, target);
      StepsAdd(s, a, target, 1, n - 1);
    }
  }

  lemma {:induction false} Persisted(was: Db, s: State, a: Answers, target: nat) returns (s': State)
    requires Well(was, s, a) && s.p.at == Upserting && Acceptable(was, a, target)
    ensures Reaches(s, s', a, target) && Well(was, s', a) && s'.p == NextWarning(s.p, 0)
    ensures SameWarnings(s'.db, was, s.p.jobKey)
  {
    StepsLead(s, a, target, 2);
    UpsertStep(was, s, a, target);
    ReplaceOne(was, Step(s, a, target), a, target);
    TwoSteps(s, a, target);
    s' := Steps(s, a, target, 2);
  }

  lemma {:induction false} Warned(was: Db, s: State, a: Answers, target: nat) returns (s': State)
    requires Well(was, s, a) && s.p == NextWarning(s.p, 0)
    ensures Reaches(s, s', a, target) && Well(was, s', a) && s'.p == s.p.(at := Linking)
  {
    var n := AllWarnings(was, s, a, target, 0);
    s' := Steps(s, a, target, n);
    StepsLead(s, a, target, n);
  }

  lemma {:induction false} LinkedUp(was: Db, s: State, a: Answers, target: nat) returns (s': State)
    requires Well(was, s, a) && s.p.at == Linking
    ensures Reaches(s, s', a, target) && Well(was, s', a) && s'.p == s.p.(at := Marking(5)) && LinkedToItsDocument(s')
    ensures SameWarnings(s'.db, s.db, s.p.jobKey)
  {
    StepsLead(s, a, target, 2);
    LinkSteps(was, s, a, target);
    s' := Steps(s, a, target, 2);
  }

  lemma {:induction false} Extracted(s: State, a: Answers, target: nat, key: string) returns (s': State)
    requires DbOk(s.db) && s.p.at == Idle && NextClaim(s.db, a.now) == Some(key) && Named(s.db, key)
    requires Acceptable(s.db, a, target)
    ensures Reaches(s, s', a, target) && Well(s.db, s', a)
    ensures s'.p == s.p.(at := Upserting, jobKey := key, document := a.document, asset := a.asset, text := a.text)
  {
    ClaimSteps(s.db, s, a, target, key);
    var s1 := Steps(s, a, target, 2);
    ToUpserting(s.db, s1, a, target);
    s' := Steps(s1, a, target, 10);
    StepsLead(s, a, target, 2);
    StepsLead(s1, a, target, 10);
    ThenReaches(s, s1, s', a, target);
  }

  /** From the known text to the mark of the last stage: the job is linked to the stored document. */
  lemma {:induction false} ToLinked(was: Db, s: State, a: Answers, target: nat) returns (s': State)
    requires Well(was, s, a) && s.p.at == Upserting && Acceptable(was, a, target)
    ensures Reaches(s, s', a, target) && Well(was, s', a) && LinkedToItsDocument(s')
    ensures s'.p == s.p.(at := Marking(5))
  {
    var s1 := Persisted(was, s, a, target);
    var s2 := Warned(was, s1, a, target);
    s' := LinkedUp(was, s2, a, target);
    ThenReaches(s, s1, s2, a, target);
    ThenReaches(s, s2, s', a, target);
  }

  // The asset and the end

  /** Completing keeps the link the job has at that moment, whoever made it. */
  lemma {:induction false} FinishSteps(s: State, a: Answers, target: nat)
    requires s.p.at == FinishFirst(Complete) && Holds(s.db, s.p)
    ensures
      var s' := Steps(s, a, target, 3);
      && s'.p == s.p.(at := Done(true)) && StatusIs(s'.db, s.p.jobKey, Succeeded)
      && s'.db.jobs[s.p.jobKey].documentId == s.db.jobs[s.p.jobKey].documentId
      && s'.db.documents == s.db.documents && s'.db.assets == s.db.assets
      && SameWarnings(s'.db, s.db, s.p.jobKey)
  {
    var s1 := Step(s, a, target);
    var s2 := Step(s1, a, target);
    TwoSteps(s1, a, target);
    StepsAdd(s, a, target, 1, 2);
  }

  /** From the last mark to just before completion: the planned asset row is written. */
  lemma {:induction false} ToFinish(was: Db, s: State, a: Answers, target: nat)
    requires Well(was, s, a) && s.p.at == Marking(5) && Acceptable(was, a, target) && LinkedToItsDocument(s)
    ensures
      var s' := Steps(s, a, target, 3);
      && s'.p == s.p.(at := FinishFirst(Complete)) && Holds(s'.db, s'.p)
      && s'.db.documents == s.db.documents && s'.db.jobs.Keys == s.db.jobs.Keys
      && s'.db.jobs[s.p.jobKey].documentId == s.db.jobs[s.p.jobKey].documentId
      && s'.db.jobs[s.p.jobKey].leaseExpiresAt == Some(a.expiresAt)
      && SameWarnings(s'.db, s.db, s.p.jobKey)
      && SameTarget(s'.db.jobs[s.p.jobKey], was.jobs[s.p.jobKey])
      && s'.db.assets == was.assets[(s.db.documents[s.p.document.documentKey].id, s.p.asset.assetUrl, s.p.asset.role)
                                    := s.p.asset.row]
  {
    MarkSteps(was, s, a, target, 5);
    var s1 := Steps(s, a, target, 2);
    TwoSteps(s, a, target);
    MarkingStep(was, s, a, target, 5);
    MarkedStep(was, Step(s, a, target), a, target, 5);
    StepsAdd(s, a, target, 2, 1);
  }

  // The whole run

  lemma {:induction false} Completed(was: Db, s: State, a: Answers, target: nat) returns (s': State)
    requires Well(was, s, a) && s.p.at == Marking(5) && Acceptable(was, a, target) && LinkedToItsDocument(s)
    ensures Reaches(s, s', a, target)
    ensures s'.p == s.p.(at := Done(true)) && StatusIs(s'.db, s.p.jobKey, Succeeded)
    ensures s'.db.documents == s.db.documents && SameWarnings(s'.db, s.db, s.p.jobKey)
    ensures s'.db.jobs[s.p.jobKey].documentId == s.db.jobs[s.p.jobKey].documentId
    ensures s'.db.assets
         == was.assets[(s.db.documents[s.p.document.documentKey].id, s.p.asset.assetUrl, s.p.asset.role) := s.p.asset.row]
  {
    ToFinish(was, s, a, target);
    var s1 := Steps(s, a, target, 3);
    FinishSteps(s1, a, target);
    s' := Steps(s1, a, target, 3);
    StepsLead(s, a, target, 3);
    StepsLead(s1, a, target, 3);
    ThenReaches(s, s1, s', a, target);
  }

  ghost predicate Succeeds(db: Db, key: string, a: Answers) {
    && StatusIs(db, key, Succeeded) && a.document.documentKey in db.documents
    && var id := db.documents[a.document.documentKey].id;
       && db.jobs[key].documentId == Some(id)
       && (id, a.asset.assetUrl, a.asset.role) in db.assets
       && db.assets[(id, a.asset.assetUrl, a.asset.role)] == a.asset.row
  }

  lemma {:induction false} FromUpserting(was: Db, s: State, a: Answers, target: nat) returns (s': State)
    requires Well(was, s, a) && s.p.at == Upserting && Acceptable(was, a, target)
    ensures Reaches(s, s', a, target) && s'.p == s.p.(at := Done(true)) && Succeeds(s'.db, s.p.jobKey, a)
  {
    var s1 := ToLinked(was, s, a, target);
    s' := Completed(was, s1, a, target);
    ThenReaches(s, s1, s', a, target);
  }

  /**
   Left alone and answered, an executor takes the next claimable job to `succeeded`: linked to the
   planned document, with the planned asset.
   */
  lemma {:induction false} SoloSucceeds(s: State, a: Answers, target: nat, key: string) returns (s': State)
    requires DbOk(s.db) && s.p.at == Idle && NextClaim(s.db, a.now) == Some(key) && Named(s.db, key)
    requires Acceptable(s.db, a, target)
    ensures Reaches(s, s', a, target) && s'.p.at == Done(true) && Succeeds(s'.db, key, a)
  {
    var s1 := Extracted(s, a, target, key);
    s' := FromUpserting(s.db, s1, a, target);
    ThenReaches(s, s1, s', a, target);
  }

  /**
   Whatever the other executors are in the middle of, an idle one whose source, download and
   extraction answer well can take the next claimable job to `succeeded` by its own steps alone.
   */
  lemma {:induction false} NextJobCanSucceed(sys: Sys, pid: nat, a: Answers, target: nat, key: string)
    returns (events: seq<Event>)
    requires DbOk(sys.db) && pid in sys.procs && sys.procs[pid].at == Idle
    requires NextClaim(sys.db, a.now) == Some(key) && Named(sys.db, key) && Acceptable(sys.db, a, target)
    ensures
      var after := SysRun(sys, events, target);
      && Succeeds(after.db, key, a)
      && after.procs.Keys == sys.procs.Keys && after.procs[pid].at == Done(true)
      && forall q :: q in sys.procs && q != pid ==> after.procs[q] == sys.procs[q]
  {
    var s' := SoloSucceeds(State(sys.db, sys.procs[pid]), a, target, key);
    LeadsCan(Anything(), sys, pid, s', OutsideOf(a), target);
    events :| RunAllowed(Anything(), sys, events, target)
      && SysRun(sys, events, target) == Sys(s'.db, sys.procs[pid := s'.p]);
  }
}
