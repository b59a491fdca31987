/**
 The executor as the method it is (src/ingest/executor.rs): claim, walk the stages over the store,
 and finish the job according to how that went.  Run by itself it does what the process of
 `Executor` does, statement by statement, whatever the outside answers and whenever it is cancelled.
 */
module ExecutorRun {
  import opened Wrappers
  import opened Database
  import opened Jobs
  import opened StoreRuns
  import opened Pipeline
  import opened Executor
  import opened ExecutorPaths
  import opened SqliteStore
  import Documents
  import Ingestion

  /** Why a claimed job stops short. */
  datatype Halt = Cancelled(checkpoint: Checkpoint) | Broke(message: string)

  function HaltProc(p: Proc, halt: Halt): Proc {
    match halt case Cancelled(checkpoint) => Stop(p, checkpoint) case Broke(message) => Abandon(p, message)
  }

  // The statements of the process, one by one

  lemma {:induction false} ReplacingIs(db: Db, p: Proc, input: Input, target: nat)
    requires p.at == Replacing
    ensures
      var result := ReplaceResult(db, p, target);
      StepWith(State(db, p), input, target)
      == State(OrElse(result, db),
               if result.Ok? then NextWarning(p, 0) else HaltProc(p, Broke("ingestion failed")))
  {
  }

  lemma {:induction false} LinkingIs(db: Db, p: Proc, input: Input, target: nat)
    requires p.at == Linking
    ensures
      StepWith(State(db, p), input, target)
      == State(Next(db, UpdateJob(p.jobKey, p.owner, Link(p.document.documentKey), input.now)), p.(at := LinkCheck))
  {
  }

  lemma {:induction false} LinkCheckIs(db: Db, p: Proc, input: Input, target: nat)
    requires p.at == LinkCheck
    ensures
      StepWith(State(db, p), input, target)
      == State(db, match RequireRunning(db, p.jobKey, p.owner)
                   case Err(_) => HaltProc(p, Broke("lease lost"))
                   case Ok(row) =>
                     if row.documentId.Some? then p.(at := Marking(5)) else HaltProc(p, Broke("document not found")))
  {
  }

  lemma {:induction false} WarnCheckIs(db: Db, p: Proc, input: Input, target: nat, i: nat)
    requires p.at == WarnCheck(i)
    ensures
      StepWith(State(db, p), input, target)
      == State(db, if RequireRunning(db, p.jobKey, p.owner).Err? then HaltProc(p, Broke("lease lost"))
                   else NextWarning(p, i + 1))
  {
  }

  lemma {:induction false} FinishWriteIs(db: Db, p: Proc, input: Input, target: nat, update: JobUpdate)
    requires p.at == FinishWrite(update)
    ensures
      StepWith(State(db, p), input, target)
      == State(Next(db, UpdateJob(p.jobKey, p.owner, update, input.now)), p.(at := FinishLast(update)))
  {
  }

  lemma {:induction false} FinishLastIs(db: Db, p: Proc, input: Input, target: nat, update: JobUpdate)
    requires p.at == FinishLast(update) && update.Finishes()
    ensures
      StepWith(State(db, p), input, target)
      == State(db, p.(at := Done(StatusIs(db, p.jobKey, update.FinalStatus()))))
  {
  }

  /** After a stage mark that found the lease intact comes the work of the stage. */
  lemma {:induction false} StageWork(s: State, outside: Outside, target: nat, mark: nat) returns (s': State)
    requires s.p.at == Marked(mark) && RequireRunning(s.db, s.p.jobKey, s.p.owner).Ok?
    ensures s' == State(s.db, AfterMark(s.p, mark, At(outside, Marked(mark)), target))
    ensures Leads(s, s', outside, target)
  {
    s' := State(s.db, AfterMark(s.p, mark, At(outside, Marked(mark)), target));
    StepLeads(s, s', outside, target);
  }

  lemma {:induction false} ExtractingWork(p: Proc, input: Input, target: nat)
    requires p.at == Marked(3)
    ensures AfterMark(p, 3, input, target)
         == if input.cancelled then HaltProc(p, Cancelled(BeforeExtraction))
            else if input.answer.ExtractionCancelled? then HaltProc(p, Cancelled(DuringExtraction))
            else if !input.answer.GotText? then HaltProc(p, Broke("extraction failed"))
            else p.(at := Marking(4), text := input.answer.text)
  {
  }

  lemma {:induction false} DownloadingWork(p: Proc, input: Input, target: nat)
    requires p.at == Marked(2)
    ensures AfterMark(p, 2, input, target)
         == if input.cancelled then HaltProc(p, Cancelled(BeforeDownload))
            else if !input.answer.GotAsset? then HaltProc(p, Broke("download failed"))
            else if input.cancelledLater then HaltProc(p, Cancelled(AfterDownload))
            else p.(at := Marking(3), asset := input.answer.asset)
  {
  }

  lemma {:induction false} PersistingWork(p: Proc, input: Input, target: nat)
    requires p.at == Marked(4) && !input.cancelled
    ensures AfterMark(p, 4, input, target)
         == if Prepare(p.text.pages, target).Err? then HaltProc(p, Broke("ingestion failed")) else p.(at := Upserting)
  {
  }

  lemma {:induction false} AssetWork(p: Proc, input: Input, target: nat)
    requires p.at == Marked(5)
    ensures AfterMark(p, 5, input, target)
         == if input.cancelled then HaltProc(p, Cancelled(BeforeAssetProvenanceWrite))
            else if !p.asset.sizeFits then HaltProc(p, Broke("asset size overflow"))
            else p.(at := AssetWriting)
  {
  }

  // The method

  class QueuedIngestionExecutor {
    const owner: string
    const target: nat

    constructor (owner: string, target: nat)
      ensures this.owner == owner && this.target == target
    {
      this.owner, this.target := owner, target;
    }

    /** The process stands at `at` for this executor and job, over the store as it is. */
    ghost predicate Stands(store: Store, s: State, jobKey: string, at: Point)
      reads store
    {
      store.Valid() && s.db == store.View() && s.p.owner == owner && s.p.jobKey == jobKey && s.p.at == at
    }

    method MarkStage(store: Store, jobKey: string, mark: nat, outside: Outside, ghost s: State)
      returns (r: Result<(), Halt>, ghost s': State)
      requires Stands(store, s, jobKey, Marking(mark)) && mark <= 5
      modifies store
      ensures store.Valid() && s'.db == store.View() && Leads(s, s', outside, target)
      ensures r.Ok? ==> s'.p == s.p.(at := Marked(mark)) && RequireRunning(s'.db, jobKey, owner).Ok?
      ensures r.Err? ==> s'.p == HaltProc(s.p, r.error)
    {
      var input := At(outside, Marking(mark));
      assert ValidProgress(ProgressOf(mark));
      var marked := store.MarkIngestionJobStage(jobKey, owner, StageOf(mark), ProgressOf(mark), input.now);
      s' := MarkLeads(s, store.View(), mark, outside);
      if marked.Err? {
        return Err(Broke("lease lost")), s';
      }
      return Ok(()), s';
    }

    lemma {:induction false} MarkLeads(s: State, after: Db, mark: nat, outside: Outside) returns (s': State)
      requires s.p.at == Marking(mark)
      requires
        var update := Mark(StageOf(mark), ProgressOf(mark));
        after == Next(s.db, UpdateJob(s.p.jobKey, s.p.owner, update, At(outside, Marking(mark)).now))
      ensures s'.db == after && Leads(s, s', outside, target)
      ensures s'.p == if RequireRunning(after, s.p.jobKey, s.p.owner).Ok? then s.p.(at := Marked(mark))
                      else HaltProc(s.p, Broke("lease lost"))
    {
      s' := State(after, s.p.(at := Marked(mark)));
      StepLeads(s, s', outside, target);
      if RequireRunning(after, s.p.jobKey, s.p.owner).Err? {
        var halted := State(after, HaltProc(s'.p, Broke("lease lost")));
        StepLeads(s', halted, outside, target);
        ThenLeads(s, s', halted, outside, target);
        s' := halted;
      }
    }

    method ResolveSource(store: Store, jobKey: string, outside: Outside, ghost s: State)
      returns (r: Result<(), Halt>, ghost s': State)
      requires Stands(store, s, jobKey, Marking(0))
      modifies store
      ensures store.Valid() && s'.db == store.View() && Leads(s, s', outside, target)
      ensures r.Ok? ==> s'.p == s.p.(at := Marking(1))
      ensures r.Err? ==> s'.p == HaltProc(s.p, r.error)
    {
      r, s' := MarkStage(store, jobKey, 0, outside, s);
      if r.Err? {
        return;
      }
      var input := At(outside, Marked(0));
      ghost var worked := StageWork(s', outside, target, 0);
      ThenLeads(s, s', worked, outside, target);
      s' := worked;
      if input.answer.Broken? {
        return Err(Broke(input.answer.message)), s';
      }
      if input.cancelled {
        return Err(Cancelled(AfterSourceResolution)), s';
      }
    }

    method PlanIngestion(store: Store, jobKey: string, outside: Outside, ghost s: State)
      returns (r: Result<Documents.UpsertDocument, Halt>, ghost s': State)
      requires Stands(store, s, jobKey, Marking(1))
      modifies store
      ensures store.Valid() && s'.db == store.View() && Leads(s, s', outside, target)
      ensures r.Ok? ==> s'.p == s.p.(at := Marking(2), document := r.value)
      ensures r.Err? ==> s'.p == HaltProc(s.p, r.error)
    {
      var marked;
      marked, s' := MarkStage(store, jobKey, 1, outside, s);
      if marked.Err? {
        return Err(marked.error), s';
      }
      var input := At(outside, Marked(1));
      ghost var worked := StageWork(s', outside, target, 1);
      ThenLeads(s, s', worked, outside, target);
      s' := worked;
      if !input.answer.GotDocument? {
        return Err(Broke("planning failed")), s';
      }
      if input.cancelled {
        return Err(Cancelled(AfterPlanning)), s';
      }
      return Ok(input.answer.document), s';
    }

    method DownloadAsset(store: Store, jobKey: string, outside: Outside, ghost s: State)
      returns (r: Result<Downloaded, Halt>, ghost s': State)
      requires Stands(store, s, jobKey, Marking(2))
      modifies store
      ensures store.Valid() && s'.db == store.View() && Leads(s, s', outside, target)
      ensures r.Ok? ==> s'.p == s.p.(at := Marking(3), asset := r.value)
      ensures r.Err? ==> s'.p == HaltProc(s.p, r.error)
    {
      var marked;
      marked, s' := MarkStage(store, jobKey, 2, outside, s);
      if marked.Err? {
        return Err(marked.error), s';
      }
      var input := At(outside, Marked(2));
      ghost var worked := StageWork(s', outside, target, 2);
      DownloadingWork(s'.p, input, target);
      ThenLeads(s, s', worked, outside, target);
      s' := worked;
      if input.cancelled {
        return Err(Cancelled(BeforeDownload)), s';
      }
      if !input.answer.GotAsset? {
        return Err(Broke("download failed")), s';
      }
      if input.cancelledLater {
        return Err(Cancelled(AfterDownload)), s';
      }
      return Ok(input.answer.asset), s';
    }

    method ExtractText(store: Store, jobKey: string, outside: Outside, ghost s: State)
      returns (r: Result<ExtractedText, Halt>, ghost s': State)
      requires Stands(store, s, jobKey, Marking(3))
      modifies store
      ensures store.Valid() && s'.db == store.View() && Leads(s, s', outside, target)
      ensures r.Ok? ==> s'.p == s.p.(at := Marking(4), text := r.value)
      ensures r.Err? ==> s'.p == HaltProc(s.p, r.error)
    {
      var marked;
      marked, s' := MarkStage(store, jobKey, 3, outside, s);
      if marked.Err? {
        return Err(marked.error), s';
      }
      var input := At(outside, Marked(3));
      ghost var worked := StageWork(s', outside, target, 3);
      ExtractingWork(s'.p, input, target);
      ThenLeads(s, s', worked, outside, target);
      s' := worked;
      if input.cancelled {
        return Err(Cancelled(BeforeExtraction)), s';
      }
      if input.answer.ExtractionCancelled? {
        return Err(Cancelled(DuringExtraction)), s';
      }
      if !input.answer.GotText? {
        return Err(Broke("extraction failed")), s';
      }
      return Ok(input.answer.text), s';
    }

    method PersistText(store: Store, jobKey: string, document: Documents.UpsertDocument, text: ExtractedText,
                       outside: Outside, ghost s: State)
      returns (r: Result<(), Halt>, ghost s': State)
      requires Stands(store, s, jobKey, Marking(4)) && s.p.document == document && s.p.text == text
      modifies store
      ensures store.Valid() && s'.db == store.View() && Leads(s, s', outside, target)
      ensures r.Ok? ==> s'.p == NextWarning(s.p, 0)
      ensures r.Err? ==> s'.p == HaltProc(s.p, r.error)
    {
      r, s' := MarkStage(store, jobKey, 4, outside, s);
      if r.Err? {
        return;
      }
      ghost var marked := s';
      r, s' := IngestText(store, jobKey, document, text, outside, marked);
      ThenLeads(s, marked, s', outside, target);
    }

    /** The last checkpoint before the first write of content, then the two transactions. */
    method IngestText(store: Store, jobKey: string, document: Documents.UpsertDocument, text: ExtractedText,
                      outside: Outside, ghost s: State)
      returns (r: Result<(), Halt>, ghost s': State)
      requires Stands(store, s, jobKey, Marked(4)) && s.p.document == document && s.p.text == text
      requires RequireRunning(s.db, jobKey, owner).Ok?
      modifies store
      ensures store.Valid() && s'.db == store.View() && Leads(s, s', outside, target)
      ensures r.Ok? ==> s'.p == NextWarning(s.p, 0)
      ensures r.Err? ==> s'.p == HaltProc(s.p, r.error)
    {
      if At(outside, Marked(4)).cancelled {
        s' := CancelledBeforePersistence(s, outside);
        return Err(Cancelled(BeforePersistence)), s';
      }
      var ingested := Ingestion.IngestExtractedText(store, document, text.textSource, target, text, Some(text.textSource));
      s' := IngestLeads(s, store.View(), document, text, outside, ingested);
      if ingested.Err? {
        return Err(Broke("ingestion failed")), s';
      }
      return Ok(()), s';
    }

    lemma {:induction false} CancelledBeforePersistence(s: State, outside: Outside) returns (s': State)
      requires s.p.at == Marked(4) && RequireRunning(s.db, s.p.jobKey, s.p.owner).Ok?
      requires At(outside, Marked(4)).cancelled
      ensures s' == State(s.db, HaltProc(s.p, Cancelled(BeforePersistence))) && Leads(s, s', outside, target)
    {
      s' := StageWork(s, outside, target, 4);
    }

    lemma {:induction false} IngestLeads(
      s: State, after: Db, document: Documents.UpsertDocument, text: ExtractedText, outside: Outside,
      ingested: Result<Ingestion.IngestOutcome, IngestError>) returns (s': State)
      requires s.p.document == document && s.p.text == text
      requires s.p.at == Marked(4) && RequireRunning(s.db, s.p.jobKey, s.p.owner).Ok?
      requires !At(outside, Marked(4)).cancelled
      requires Ingestion.Delivers(s.db, after, document, text, text.textSource, target, ingested)
      ensures s'.db == after && Leads(s, s', outside, target)
      ensures ingested.Ok? ==> s'.p == NextWarning(s.p, 0)
      ensures ingested.Err? ==> s'.p == HaltProc(s.p, Broke("ingestion failed"))
    {
      var worked := StageWork(s, outside, target, 4);
      PersistingWork(s.p, At(outside, Marked(4)), target);
      s' := PersistingLeads(worked, after, document, text, outside, ingested);
      ThenLeads(s, worked, s', outside, target);
    }

    /** The two transactions of an ingestion are the two steps of the process. */
    lemma {:induction false} PersistingLeads(
      s: State, after: Db, document: Documents.UpsertDocument, text: ExtractedText, outside: Outside,
      ingested: Result<Ingestion.IngestOutcome, IngestError>) returns (s': State)
      requires s.p.document == document && s.p.text == text
      requires if Prepare(text.pages, target).Err? then s.p == HaltProc(s.p, Broke("ingestion failed"))
               else s.p.at == Upserting
      requires Ingestion.Delivers(s.db, after, document, text, text.textSource, target, ingested)
      ensures s'.db == after && Leads(s, s', outside, target)
      ensures ingested.Ok? ==> s'.p == NextWarning(s.p, 0)
      ensures ingested.Err? ==> s'.p == HaltProc(s.p, Broke("ingestion failed"))
    {
      if Prepare(text.pages, target).Err? {
        s' := s;
        StaysThere(s, outside, target);
        return;
      }
      match Documents.Upsert(s.db, document) {
        case Err(_) =>
          s' := State(s.db, HaltProc(s.p, Broke("ingestion failed")));
          StepLeads(s, s', outside, target);
        case Ok(db1) =>
          var s1 := State(db1, s.p.(at := Replacing));
          StepLeads(s, s1, outside, target);
          s' := ReplacingLeads(s1, after, outside);
          ThenLeads(s, s1, s', outside, target);
      }
    }

    lemma {:induction false} ReplacingLeads(s: State, after: Db, outside: Outside) returns (s': State)
      requires s.p.at == Replacing
      requires after == match ReplaceResult(s.db, s.p, target) case Ok(db2) => db2 case Err(_) => s.db
      ensures s'.db == after && Leads(s, s', outside, target)
      ensures s'.p == if ReplaceResult(s.db, s.p, target).Ok? then NextWarning(s.p, 0)
                      else HaltProc(s.p, Broke("ingestion failed"))
    {
      s' := StepWith(s, At(outside, Replacing), target);
      StepLeads(s, s', outside, target);
      ReplacingIs(s.db, s.p, At(outside, Replacing), target);
    }

    /** One warning: read, write if it is new, read again. */
    method RecordWarning(store: Store, jobKey: string, i: nat, text: ExtractedText, outside: Outside, ghost s: State)
      returns (r: Result<(), Halt>, ghost s': State)
      requires Stands(store, s, jobKey, WarnRead(i)) && s.p.text == text && i < |text.warnings|
      modifies store
      ensures store.Valid() && s'.db == store.View() && Leads(s, s', outside, target)
      ensures r.Ok? ==> s'.p == NextWarning(s.p, i + 1)
      ensures r.Err? ==> s'.p == HaltProc(s.p, r.error)
    {
      var recorded := store.RecordIngestionJobWarning(jobKey, owner, text.warnings[i], At(outside, WarnRead(i)).now);
      if recorded.Err? {
        s' := LostBeforeWarning(s, i, outside);
        return Err(Broke("lease lost")), s';
      }
      s' := WarningLeads(s, store.View(), i, outside);
      return Ok(()), s';
    }

    lemma {:induction false} LostBeforeWarning(s: State, i: nat, outside: Outside) returns (s': State)
      requires s.p.at == WarnRead(i) && i < |s.p.text.warnings| && RequireRunning(s.db, s.p.jobKey, s.p.owner).Err?
      ensures s' == State(s.db, HaltProc(s.p, Broke("lease lost"))) && Leads(s, s', outside, target)
    {
      s' := State(s.db, HaltProc(s.p, Broke("lease lost")));
      StepLeads(s, s', outside, target);
    }

    ghost predicate WarningWritten(s: State, after: Db, i: nat, now: int)
      requires i < |s.p.text.warnings|
    {
      && RequireRunning(s.db, s.p.jobKey, s.p.owner).Ok? && RequireRunning(after, s.p.jobKey, s.p.owner).Ok?
      && var read := s.db.jobs[s.p.jobKey].warnings;
         after == (if s.p.text.warnings[i] in read then s.db
                   else Next(s.db, UpdateJob(s.p.jobKey, s.p.owner, SetWarnings(read + [s.p.text.warnings[i]]), now)))
    }

    lemma {:induction false} WarningLeads(s: State, after: Db, i: nat, outside: Outside) returns (s': State)
      requires s.p.at == WarnRead(i) && i < |s.p.text.warnings|
      requires WarningWritten(s, after, i, At(outside, WarnRead(i)).now)
      ensures s' == State(after, NextWarning(s.p, i + 1)) && Leads(s, s', outside, target)
    {
      var read := s.db.jobs[s.p.jobKey].warnings;
      var check := State(after, s.p.(at := WarnCheck(i)));
      if s.p.text.warnings[i] in read {
        StepLeads(s, check, outside, target);
      } else {
        var write := State(s.db, s.p.(at := WarnWrite(i, read)));
        StepLeads(s, write, outside, target);
        StepLeads(write, check, outside, target);
        ThenLeads(s, write, check, outside, target);
      }
      WarnCheckIs(after, check.p, At(outside, WarnCheck(i)), target, i);
      s' := State(after, NextWarning(s.p, i + 1));
      StepLeads(check, s', outside, target);
      ThenLeads(s, check, s', outside, target);
    }

    method RecordWarnings(store: Store, jobKey: string, text: ExtractedText, outside: Outside, ghost s: State)
      returns (r: Result<(), Halt>, ghost s': State)
      requires store.Valid() && s.db == store.View() && s.p.owner == owner && s.p.jobKey == jobKey && s.p.text == text
      requires s.p == NextWarning(s.p, 0)
      modifies store
      ensures store.Valid() && s'.db == store.View() && Leads(s, s', outside, target)
      ensures r.Ok? ==> s'.p == s.p.(at := Linking)
      ensures r.Err? ==> s'.p == HaltProc(s.p, r.error)
    {
      s' := s;
      StaysThere(s, outside, target);
      for i := 0 to |text.warnings|
        invariant store.Valid() && s'.db == store.View() && Leads(s, s', outside, target)
        invariant s'.p == NextWarning(s.p, i)
      {
        ghost var before := s';
        r, s' := RecordWarning(store, jobKey, i, text, outside, before);
        ThenLeads(s, before, s', outside, target);
        if r.Err? {
          return;
        }
      }
      r := Ok(());
    }

    method LinkDocument(store: Store, jobKey: string, documentKey: string, outside: Outside, ghost s: State)
      returns (r: Result<(), Halt>, ghost s': State)
      requires Stands(store, s, jobKey, Linking) && s.p.document.documentKey == documentKey
      modifies store
      ensures store.Valid() && s'.db == store.View() && Leads(s, s', outside, target)
      ensures r.Ok? ==> s'.p == s.p.(at := Marking(5))
      ensures r.Err? ==> s'.p == HaltProc(s.p, r.error)
    {
      var linked := store.LinkIngestionJobDocument(jobKey, owner, documentKey, At(outside, Linking).now);
      s' := LinkLeads(s, store.View(), outside);
      if linked.Err? {
        return Err(if linked.error == MissingDocument(documentKey) then Broke("document not found")
                   else Broke("lease lost")), s';
      }
      return Ok(()), s';
    }

    lemma {:induction false} LinkLeads(s: State, after: Db, outside: Outside) returns (s': State)
      requires s.p.at == Linking
      requires
        after == Next(s.db, UpdateJob(s.p.jobKey, s.p.owner, Link(s.p.document.documentKey), At(outside, Linking).now))
      ensures s'.db == after && Leads(s, s', outside, target)
      ensures s'.p == match RequireRunning(after, s.p.jobKey, s.p.owner)
                      case Err(_) => HaltProc(s.p, Broke("lease lost"))
                      case Ok(row) =>
                        if row.documentId.Some? then s.p.(at := Marking(5))
                        else HaltProc(s.p, Broke("document not found"))
    {
      var check := State(after, s.p.(at := LinkCheck));
      LinkingIs(s.db, s.p, At(outside, Linking), target);
      StepLeads(s, check, outside, target);
      s' := StepWith(check, At(outside, LinkCheck), target);
      LinkCheckIs(after, check.p, At(outside, LinkCheck), target);
      StepLeads(check, s', outside, target);
      ThenLeads(s, check, s', outside, target);
    }

    method PersistAsset(store: Store, jobKey: string, documentKey: string, asset: Downloaded, outside: Outside, ghost s: State)
      returns (r: Result<(), Halt>, ghost s': State)
      requires Stands(store, s, jobKey, Marking(5)) && s.p.document.documentKey == documentKey && s.p.asset == asset
      modifies store
      ensures store.Valid() && s'.db == store.View() && Leads(s, s', outside, target)
      ensures r.Ok? ==> s'.p == s.p.(at := FinishFirst(Complete))
      ensures r.Err? ==> s'.p == HaltProc(s.p, r.error)
    {
      r, s' := MarkStage(store, jobKey, 5, outside, s);
      if r.Err? {
        return;
      }
      ghost var marked := s';
      r, s' := WriteProvenance(store, jobKey, documentKey, asset, outside, marked);
      ThenLeads(s, marked, s', outside, target);
    }

    /** The last checkpoint, and then the asset row. */
    method WriteProvenance(
      store: Store, jobKey: string, documentKey: string, asset: Downloaded, outside: Outside, ghost s: State)
      returns (r: Result<(), Halt>, ghost s': State)
      requires Stands(store, s, jobKey, Marked(5)) && s.p.document.documentKey == documentKey && s.p.asset == asset
      requires RequireRunning(s.db, jobKey, owner).Ok?
      modifies store
      ensures store.Valid() && s'.db == store.View() && Leads(s, s', outside, target)
      ensures r.Ok? ==> s'.p == s.p.(at := FinishFirst(Complete))
      ensures r.Err? ==> s'.p == HaltProc(s.p, r.error)
    {
      ghost var worked := StageWork(s, outside, target, 5);
      AssetWork(s.p, At(outside, Marked(5)), target);
      if At(outside, Marked(5)).cancelled {
        return Err(Cancelled(BeforeAssetProvenanceWrite)), worked;
      }
      if !asset.sizeFits {
        return Err(Broke("asset size overflow")), worked;
      }
      r, s' := WriteAsset(store, jobKey, documentKey, asset, outside, worked);
      ThenLeads(s, worked, s', outside, target);
    }

    method WriteAsset(store: Store, jobKey: string, documentKey: string, asset: Downloaded, outside: Outside, ghost s: State)
      returns (r: Result<(), Halt>, ghost s': State)
      requires Stands(store, s, jobKey, AssetWriting) && s.p.document.documentKey == documentKey && s.p.asset == asset
      modifies store
      ensures store.Valid() && s'.db == store.View() && Leads(s, s', outside, target)
      ensures r.Ok? ==> s'.p == s.p.(at := FinishFirst(Complete))
      ensures r.Err? ==> s'.p == HaltProc(s.p, r.error)
    {
      var added := store.AddAsset(Documents.AssetInput(documentKey, asset.assetUrl, asset.role, asset.row));
      s' := AssetLeads(s, store.View(), outside);
      if added.Err? {
        return Err(Broke("document not found")), s';
      }
      return Ok(()), s';
    }

    lemma {:induction false} AssetLeads(s: State, after: Db, outside: Outside) returns (s': State)
      requires s.p.at == AssetWriting && after == Next(s.db, AddAsset(AssetInputOf(s.p)))
      ensures s'.db == after && Leads(s, s', outside, target)
      ensures s'.p == if s.p.document.documentKey in s.db.documents then s.p.(at := FinishFirst(Complete))
                      else HaltProc(s.p, Broke("document not found"))
    {
      s' := StepWith(s, At(outside, AssetWriting), target);
      StepLeads(s, s', outside, target);
    }

    /** `execute_claimed_job`: the stages in order, each only after the one before. */
    method ExecuteClaimedJob(store: Store, jobKey: string, outside: Outside, ghost s: State)
      returns (r: Result<(), Halt>, ghost s': State)
      requires Stands(store, s, jobKey, Marking(0))
      modifies store
      ensures store.Valid() && s'.db == store.View() && Leads(s, s', outside, target)
      ensures Ends(s'.p, jobKey, r)
    {
      var planned;
      planned, s' := GatherDocument(store, jobKey, outside, s);
      if planned.Err? {
        return Err(planned.error), s';
      }
      ghost var s1 := s';
      var text, asset;
      text, asset, s' := GatherText(store, jobKey, outside, s1);
      ThenLeads(s, s1, s', outside, target);
      if text.Err? {
        return Err(text.error), s';
      }
      ghost var s2 := s';
      r, s' := PersistContent(store, jobKey, planned.value, text.value, outside, s2);
      ThenLeads(s, s2, s', outside, target);
      if r.Err? {
        return;
      }
      ghost var s3 := s';
      r, s' := PersistLinks(store, jobKey, planned.value, asset, outside, s3);
      ThenLeads(s, s3, s', outside, target);
    }

    /** The process is about to finish the job according to the result. */
    ghost predicate Ends(p: Proc, jobKey: string, r: Result<(), Halt>) {
      && p.owner == owner && p.jobKey == jobKey
      && p == match r case Ok(_) => p.(at := FinishFirst(Complete)) case Err(halt) => HaltProc(p, halt)
    }

    /** The process halted, or still runs this job for this executor. */
    ghost predicate HaltedOr(p: Proc, jobKey: string, halt: Option<Halt>, at: Point) {
      && p.owner == owner && p.jobKey == jobKey
      && p == match halt case None => p.(at := at) case Some(h) => HaltProc(p, h)
    }

    method GatherDocument(store: Store, jobKey: string, outside: Outside, ghost s: State)
      returns (r: Result<Documents.UpsertDocument, Halt>, ghost s': State)
      requires Stands(store, s, jobKey, Marking(0))
      modifies store
      ensures store.Valid() && s'.db == store.View() && Leads(s, s', outside, target)
      ensures HaltedOr(s'.p, jobKey, if r.Ok? then None else Some(r.error), Marking(2))
      ensures r.Ok? ==> s'.p.document == r.value
    {
      var resolved;
      resolved, s' := ResolveSource(store, jobKey, outside, s);
      if resolved.Err? {
        return Err(resolved.error), s';
      }
      ghost var s1 := s';
      r, s' := PlanIngestion(store, jobKey, outside, s1);
      ThenLeads(s, s1, s', outside, target);
    }

    method GatherText(store: Store, jobKey: string, outside: Outside, ghost s: State)
      returns (r: Result<ExtractedText, Halt>, asset: Downloaded, ghost s': State)
      requires Stands(store, s, jobKey, Marking(2))
      modifies store
      ensures store.Valid() && s'.db == store.View() && Leads(s, s', outside, target)
      ensures HaltedOr(s'.p, jobKey, if r.Ok? then None else Some(r.error), Marking(4))
      ensures r.Ok? ==> s'.p.text == r.value && s'.p.asset == asset && s'.p.document == s.p.document
    {
      asset := NewProc("").asset;
      var downloaded;
      downloaded, s' := DownloadAsset(store, jobKey, outside, s);
      if downloaded.Err? {
        return Err(downloaded.error), asset, s';
      }
      asset := downloaded.value;
      ghost var s1 := s';
      r, s' := ExtractText(store, jobKey, outside, s1);
      ThenLeads(s, s1, s', outside, target);
    }

    /** Document, pages and chunks, then the warnings. */
    method PersistContent(store: Store, jobKey: string, document: Documents.UpsertDocument, text: ExtractedText,
                          outside: Outside, ghost s: State)
      returns (r: Result<(), Halt>, ghost s': State)
      requires Stands(store, s, jobKey, Marking(4)) && s.p.document == document && s.p.text == text
      modifies store
      ensures store.Valid() && s'.db == store.View() && Leads(s, s', outside, target)
      ensures HaltedOr(s'.p, jobKey, if r.Ok? then None else Some(r.error), Linking)
      ensures r.Ok? ==> s'.p.document == document && s'.p.asset == s.p.asset
    {
      r, s' := PersistText(store, jobKey, document, text, outside, s);
      if r.Err? {
        return;
      }
      ghost var s1 := s';
      r, s' := RecordWarnings(store, jobKey, text, outside, s1);
      ThenLeads(s, s1, s', outside, target);
    }

    /** The link, then the asset. */
    method PersistLinks(store: Store, jobKey: string, document: Documents.UpsertDocument, asset: Downloaded,
                        outside: Outside, ghost s: State)
      returns (r: Result<(), Halt>, ghost s': State)
      requires Stands(store, s, jobKey, Linking) && s.p.document == document && s.p.asset == asset
      modifies store
      ensures store.Valid() && s'.db == store.View() && Leads(s, s', outside, target)
      ensures Ends(s'.p, jobKey, r)
    {
      r, s' := LinkDocument(store, jobKey, document.documentKey, outside, s);
      if r.Err? {
        return;
      }
      ghost var s1 := s';
      r, s' := PersistAsset(store, jobKey, document.documentKey, asset, outside, s1);
      ThenLeads(s, s1, s', outside, target);
    }

    /** `complete`, `interrupt` or `fail` at the end. */
    method Finish(store: Store, jobKey: string, update: JobUpdate, outside: Outside, ghost s: State)
      returns (ok: bool, ghost s': State)
      requires Stands(store, s, jobKey, FinishFirst(update)) && update.Finishes()
      modifies store
      ensures store.Valid() && s'.db == store.View() && Leads(s, s', outside, target)
      ensures s'.p.at == Done(ok) && (ok <==> StatusIs(store.View(), jobKey, update.FinalStatus()))
      ensures Holds(s.db, s.p) ==> ok
    {
      var finished := store.FinishIngestionJob(jobKey, owner, update, At(outside, FinishWrite(update)).now);
      s' := FinishLeads(s, store.View(), update, outside);
      ok := finished.Ok?;
    }

    lemma {:induction false} FinishLeads(s: State, after: Db, update: JobUpdate, outside: Outside) returns (s': State)
      requires s.p.at == FinishFirst(update) && update.Finishes()
      requires after == Next(s.db, UpdateJob(s.p.jobKey, s.p.owner, update, At(outside, FinishWrite(update)).now))
      ensures s'.db == after && Leads(s, s', outside, target)
      ensures s'.p.at == Done(StatusIs(after, s.p.jobKey, update.FinalStatus()))
    {
      if s.p.jobKey !in s.db.jobs || StatusIs(s.db, s.p.jobKey, update.FinalStatus()) {
        s' := StepWith(s, At(outside, FinishFirst(update)), target);
        StepLeads(s, s', outside, target);
      } else {
        var s1 := State(s.db, s.p.(at := FinishWrite(update)));
        StepLeads(s, s1, outside, target);
        FinishWriteIs(s1.db, s1.p, At(outside, FinishWrite(update)), target, update);
        var s2 := State(after, s.p.(at := FinishLast(update)));
        StepLeads(s1, s2, outside, target);
        FinishLastIs(s2.db, s2.p, At(outside, FinishLast(update)), target, update);
        s' := State(after, s.p.(at := Done(StatusIs(after, s.p.jobKey, update.FinalStatus()))));
        StepLeads(s2, s', outside, target);
        ThenLeads(s, s1, s2, outside, target);
        ThenLeads(s, s2, s', outside, target);
      }
    }

    /** The status a result leaves the job in. */
    function StatusFor(r: Result<(), Halt>): Status {
      match r
      case Ok(_) => Succeeded
      case Err(Cancelled(_)) => Interrupted
      case Err(Broke(_)) => Failed
    }

    /** How a job is finished. */
    function UpdateFor(r: Result<(), Halt>): (update: JobUpdate)
      ensures update.Finishes() && update.FinalStatus() == StatusFor(r)
    {
      match r
      case Ok(_) => Complete
      case Err(Cancelled(checkpoint)) =>
        Interrupt(Some("ingestion interrupted by cancellation " + CheckpointName(checkpoint)))
      case Err(Broke(message)) => Fail(message)
    }

    /** The job is still held when the executor comes to finish it. */
    lemma {:induction false} HeldAtEnd(s: State, ended: State, jobKey: string, r: Result<(), Halt>, outside: Outside)
      requires Leads(s, ended, outside, target) && Ends(ended.p, jobKey, r)
      requires s.p.at == Claimed && Holds(s.db, s.p)
      ensures ended.p.at == FinishFirst(UpdateFor(r)) && ended.p.owner == owner && ended.p.jobKey == jobKey
      ensures Holds(ended.db, ended.p)
    {
      LeadsHolds(s, ended, outside, target);
    }

    function Outcome(r: Result<Option<string>, Halt>): Result<(), Halt> {
      match r case Ok(_) => Ok(()) case Err(halt) => Err(halt)
    }

    /**
     `run_next_with_ocr_and_cancel`.  Without other executors in between, the store ends where the
     process of this executor takes it, and the next claimable job, if there is one, ends succeeded
     after a success, interrupted after a cancellation, and failed after anything else.
     */
    method RunNext(store: Store, outside: Outside)
      returns (r: Result<Option<string>, Halt>, ghost s': State)
      requires store.Valid()
      modifies store
      ensures store.Valid() && s'.db == store.View()
      ensures Leads(State(old(store.View()), NewProc(owner)), s', outside, target)
      ensures
        match NextClaim(old(store.View()), At(outside, Idle).now)
        case None => r == Ok(None) && s'.p.at == Idle && store.View() == old(store.View())
        case Some(key) =>
          && (r.Ok? ==> r.value == Some(key)) && s'.p.at == Done(true)
          && StatusIs(store.View(), key, StatusFor(Outcome(r)))
    {
      ghost var start := State(store.View(), NewProc(owner));
      var input := At(outside, Idle);
      s' := StepWith(start, input, target);
      StepLeads(start, s', outside, target);
      var claimed := store.ClaimNextIngestionJob(Lease(owner, input.now, input.expiresAt));
      if claimed.None? {
        return Ok(None), s';
      }
      ghost var taken := s';
      var result;
      result, s' := RunAndFinish(store, claimed.value.0, claimed.value.1, outside, taken);
      ThenLeads(start, taken, s', outside, target);
      if result.Err? {
        return Err(result.error), s';
      }
      return Ok(Some(claimed.value.0)), s';
    }

    method RunAndFinish(store: Store, jobKey: string, row: JobRow, outside: Outside, ghost s: State)
      returns (r: Result<(), Halt>, ghost s': State)
      requires Stands(store, s, jobKey, Claimed) && jobKey in store.jobs && store.jobs[jobKey] == row
      requires HeldBy(row, owner)
      modifies store
      ensures store.Valid() && s'.db == store.View() && Leads(s, s', outside, target)
      ensures s'.p.at == Done(true) && StatusIs(store.View(), jobKey, StatusFor(r))
    {
      r, s' := RunClaimed(store, jobKey, row, outside, s);
      ghost var ended := s';
      HeldAtEnd(s, ended, jobKey, r, outside);
      var ok;
      ok, s' := Finish(store, jobKey, UpdateFor(r), outside, ended);
      ThenLeads(s, ended, s', outside, target);
      if r.Ok? && !ok {
        return Err(Broke("lease lost")), s';
      }
    }

    /** The checks right after the claim, then the stages. */
    method RunClaimed(store: Store, jobKey: string, row: JobRow, outside: Outside, ghost s: State)
      returns (r: Result<(), Halt>, ghost s': State)
      requires Stands(store, s, jobKey, Claimed) && jobKey in store.jobs && store.jobs[jobKey] == row
      modifies store
      ensures store.Valid() && s'.db == store.View() && Leads(s, s', outside, target)
      ensures Ends(s'.p, jobKey, r)
    {
      var input := At(outside, Claimed);
      s' := StepWith(s, input, target);
      StepLeads(s, s', outside, target);
      if input.cancelled {
        return Err(Cancelled(AfterClaim)), s';
      }
      if input.answer.Broken? {
        return Err(Broke(input.answer.message)), s';
      }
      if row.sourceId.None? && row.targetUrl.None? {
        return Err(Broke("queued ingestion job has no source_id or target_url")), s';
      }
      ghost var ready := s';
      r, s' := ExecuteClaimedJob(store, jobKey, outside, ready);
      ThenLeads(s, ready, s', outside, target);
    }
  }
}
