/** A store with one job, and answers about it that are acceptable: the scene of the runs that fail. */
module ExecutorExample {
  import opened Wrappers
  import opened Database
  import opened Jobs
  import opened StoreRuns
  import opened Pipeline
  import opened Executor
  import opened ExecutorProgress
  import Chunking
  import Documents
  import Ingestion
  import PageExtraction
  import Text

  function Document(name: string): Documents.UpsertDocument {
    Documents.UpsertDocument("public-" + name, name, "source-" + name, "record-" + name, "title", "{}", NO_NOTES)
  }

  const PAGE: Chunking.PageText := Chunking.PageText(1, "word")

  const ASSET: Downloaded := Downloaded("url", PdfAsset, AssetRow(None, None, None, None, None, None, None), true)

  function AnswersFor(name: string, now: int, warnings: seq<string>): Answers {
    Answers(now, now + 10, Document(name), ASSET, ExtractedText([PAGE], warnings, EmbeddedPdfText))
  }

  lemma {:induction false} WordIsItself()
    ensures Text.Trim("word") == "word" && Text.TrimEnd("word") == "word"
    ensures Text.Lines("word") == ["word"] && Text.Split("word", PageExtraction.FORM_FEED) == ["word"]
  {
    assert Text.IndexOf("word", '\n') == 4;
    assert Text.IndexOf("word", PageExtraction.FORM_FEED) == 4;
  }

  /** The page is what a text of one word is extracted to. */
  lemma {:induction false} PageIsExtracted()
    ensures PageExtraction.ExtractedPages("word") == [PAGE]
  {
    WordIsItself();
    var lines := PageExtraction.TrimmedLines(["word"]);
    assert lines == ["word"] && ["word"][1..] == [];
    assert Text.Join(["word"], "\n") == "word";
    assert PageExtraction.NormalizePageText("word") == "word";
    var pages := PageExtraction.NumberedPages(["word"], 0);
    assert pages == [PAGE];
  }

  lemma {:induction false} PagePrepares(target: nat)
    ensures Prepare([PAGE], target).Ok? && Chunking.ConsecutiveNumbers([PAGE])
  {
    var pages := [PAGE];
    assert pages[1..] == [] && [] + [PAGE] == pages;
    assert Chunking.Greedy([], pages, Chunking.Max(target, 1)) == [pages];
    assert Chunking.BuildChunks([pages]) == [Chunking.BuildChunk(1, pages)];
    OneToken();
    var chunks := Chunking.ChunksFor(pages, target);
    assert chunks[1..] == [];
    assert ChunkInputs(chunks).Ok?;
  }

  lemma {:induction false} OneToken()
    ensures Chunking.BuildChunk(1, [PAGE]).tokenEstimate == 1
  {
    WordIsItself();
    OneWord();
    assert [PAGE][1..] == [] && Chunking.VisibleTexts([PAGE]) == ["word"];
    assert Text.Join(["word"], "\n\n") == "word";
  }

  lemma {:induction false} OneWord()
    ensures Text.Words("word") == ["word"]
  {
    assert Text.WordLength("word") == 4;
    assert "word"[..4] == "word" && "word"[4..] == "";
  }

  lemma {:induction false} DocumentAccepted(db: Db, name: string)
    requires forall k :: k in db.documents && k != name ==>
               db.documents[k].publicId != Document(name).publicId && db.documents[k].source != Document(name).source
    ensures Documents.Upsert(db, Document(name)).Ok?
  {
    Ingestion.LiteralsAreFramed();
    Documents.BracketedIff("{}", '{', '}');
    assert |Document(name).publicId| > |name| && |Document(name).sourceId| > |name|;
  }

  lemma {:induction false} NamesDiffer(a: string, b: string)
    requires a != b
    ensures Document(a).publicId != Document(b).publicId && Document(a).source != Document(b).source
  {
    assert Document(a).publicId[|"public-"|..] == a && Document(b).publicId[|"public-"|..] == b;
    assert Document(a).source[|"source-"|..] == a && Document(b).source[|"source-"|..] == b;
  }

  function OneJob(key: string): Db {
    Create(EMPTY_DB, NewJob(key, "ingest", "source", Some("record"), None), 0)
  }

  ghost predicate Alone(db: Db, key: string) {
    DbOk(db) && db.jobs.Keys == {key}
  }

  lemma {:induction false} OneJobIsNext(key: string)
    ensures Alone(OneJob(key), key) && OneJob(key).assets == map[] && OneJob(key).documents == map[]
    ensures NextClaim(OneJob(key), 0) == Some(key) && Named(OneJob(key), key)
    ensures OneJob(key).jobs[key].warnings == []
  {
    var db, job := OneJob(key), NewJob(key, "ingest", "source", Some("record"), None);
    EmptyDbOk();
    StepKeepsDb(EMPTY_DB, CreateJob(job, 0));
    assert db.jobs == map[key := CreatedRow(1, job, 0)];
    assert IsNextClaim(db, 0, key);
    NextClaimUnique(db, 0, key);
  }

  /** On the store with one job, and after another document is written there, the answers are acceptable. */
  lemma {:induction false} AnswersAcceptable(key: string, name: string, now: int, warnings: seq<string>, target: nat)
    ensures Acceptable(OneJob(key), AnswersFor(name, now, warnings), target)
  {
    OneJobIsNext(key);
    PagePrepares(target);
    DocumentAccepted(OneJob(key), name);
  }

  lemma {:induction false} SecondAcceptable(
    after: Db, key: string, first: string, name: string, now: int, warnings: seq<string>, target: nat)
    requires first != name
    requires after.documents == Documents.WriteDocument(OneJob(key), Document(first)).documents
    ensures Acceptable(after, AnswersFor(name, now, warnings), target)
  {
    OneJobIsNext(key);
    NamesDiffer(first, name);
    PagePrepares(target);
    assert after.documents == map[first := Documents.RowOf(OneJob(key).nextDocumentId, Document(first))];
    DocumentAccepted(after, name);
  }
}
