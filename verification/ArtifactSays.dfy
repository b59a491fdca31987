/**
 What a report on derived files and a repair plan say, entry by entry (src/ingest/reconcile.rs,
 src/ingest/reconcile_repair.rs): which files are expected and where, which entries there are, in
 which words, and in which order.
 */
module ArtifactSays {
  import opened ArtifactRepair
  import opened ArtifactReport
  import opened ArtifactTheorems
  import opened Database
  import opened FileCompare
  import opened Ordering
  import opened TextOrder
  import opened Utf8
  import opened Wrappers
  import Decimal

  // Expected files

  predicate IsDocumentFile(key: string, pages: seq<Page>, t: Target) {
    && pages != [] && t.kind == DocumentText && t.pageNumber.None?
    && t.path == ["text", "documents", key + ".txt"] && t.content == Encode(CombinedText(pages))
  }

  predicate IsPageFile(key: string, page: Page, t: Target) {
    && (t.kind == PageText || (t.kind == OcrPageText && page.textSource == LocalOcr))
    && t.path == [if t.kind == PageText then "text" else "ocr", "pages", key, Decimal.ToDecimal(page.number) + ".txt"]
    && t.pageNumber == Some(page.number) && t.content == Encode(page.text)
  }

  /** The combined text, one text file a page, and a second one for a page read by the local OCR. */
  ghost predicate IsExpectedFile(key: string, pages: seq<Page>, t: Target) {
    IsDocumentFile(key, pages, t) || exists page :: page in pages && IsPageFile(key, page, t)
  }

  lemma {:induction false} PageFilesAre(key: string, page: Page, t: Target)
    ensures t in TargetsOf(key, page) <==> IsPageFile(key, page, t)
  {
    if t.kind == PageText {
      assert IsPageFile(key, page, t) <==> t == PageTarget(PageText, key, page);
    } else if t.kind == OcrPageText {
      assert t == PageTarget(OcrPageText, key, page) <==>
        t.path == ["ocr", "pages", key, Decimal.ToDecimal(page.number) + ".txt"]
        && t.pageNumber == Some(page.number) && t.content == Encode(page.text);
    }
  }

  lemma {:induction false} AllPageFilesAre(key: string, pages: seq<Page>, t: Target)
    ensures t in PageTargets(key, pages) <==> exists page :: page in pages && IsPageFile(key, page, t)
  {
    if pages != [] {
      PageFilesAre(key, pages[0], t);
      AllPageFilesAre(key, pages[1..], t);
      assert pages == [pages[0]] + pages[1..];
    }
  }

  lemma {:induction false} TargetsAre(key: string, pages: seq<Page>, t: Target)
    ensures t in Targets(key, pages) <==> IsExpectedFile(key, pages, t)
  {
    AllPageFilesAre(key, pages, t);
    assert IsDocumentFile(key, pages, t) <==> pages != [] && t == DocumentTarget(key, pages);
  }

  /** The applier writes a file exactly when the detector expects it, with the content it expects. */
  lemma {:induction false} PlannedIff(key: string, pages: seq<Page>, action: Action, content: seq<byte>)
    requires Numbered(pages)
    ensures Planned(key, pages, action) == Some(content) <==>
              && action.Rewrite?
              && IsExpectedFile(key, pages, Target(action.kind, action.path, action.pageNumber, content))
  {
    var t := Target(action.kind, action.path, action.pageNumber, content);
    TargetsAre(key, pages, t);
    if Planned(key, pages, action) == Some(content) {
      if t.kind == DocumentText {
        assert IsDocumentFile(key, pages, t);
      } else {
        var page := PageByNumber(pages, t.pageNumber.value).value;
        assert IsPageFile(key, page, t);
      }
    }
    if IsExpectedFile(key, pages, t) {
      TargetIsExpected(key, pages, t);
    }
  }

  // The entries of a report

  /** The file is not as expected, and the issue says how. */
  predicate ReportsFile(tree: Tree, t: Target, issue: Issue) {
    && issue.kind == t.kind && issue.path == t.path && issue.pageNumber == t.pageNumber
    && if t.path !in tree then issue.issue == Missing && issue.detail == "expected derived artifact is absent"
       else if tree[t.path].Directory? then
         issue.issue == Stale && issue.detail == "derived artifact path is not a regular file"
       else
         && tree[t.path].content != t.content
         && issue.issue == Stale && issue.detail == "derived artifact content differs from SQLite page state"
  }

  lemma {:induction false} FileReported(tree: Tree, t: Target, issue: Issue)
    ensures Verdict(tree, t) == Some(issue) <==> ReportsFile(tree, t, issue)
  {
  }

  /** The name is a number and `.txt`. */
  ghost predicate NamesPage(name: string, n: nat) {
    && 0 < n <= Decimal.U32_MAX
    && exists stem: string :: name == stem + ".txt" && Decimal.IsNumeral(stem, n)
  }

  lemma {:induction false} ParsedIff(name: string, n: nat)
    ensures ParsePageNumber(name) == Some(n) <==> NamesPage(name, n)
  {
    if |name| >= 4 && name[|name| - 4..] == ".txt" {
      var stem := name[..|name| - 4];
      assert name == stem + ".txt";
      Decimal.ParseUnsignedIff(stem, Decimal.U32_MAX, n);
      forall other: string | name == other + ".txt" ensures other == stem {
        assert other == (other + ".txt")[..|name| - 4];
      }
    } else {
      forall stem: string ensures name != stem + ".txt" {
        assert (stem + ".txt")[|stem + ".txt"| - 4..] == ".txt";
      }
    }
  }

  /** The entry of a page directory names no page that belongs there, and the issue says why it is there for nothing. */
  ghost predicate ReportsEntry(tree: Tree, key: string, pages: seq<Page>, issue: Issue) {
    && |issue.path| == 4 && issue.path in tree && issue.issue == Orphaned
    && issue.path[0] == (if issue.kind == PageText then "text" else "ocr")
    && issue.path[1] == "pages" && issue.path[2] == key && issue.kind != DocumentText
    && (match issue.pageNumber
        case Some(n) =>
          && NamesPage(issue.path[3], n)
          && !(exists page :: page in pages && page.number == n && (issue.kind == PageText || page.textSource == LocalOcr))
        case None => forall n: nat :: !NamesPage(issue.path[3], n))
    && issue.detail ==
         if tree[issue.path].Directory? then "derived page artifact entry is not a regular file"
         else if issue.pageNumber.None? then "derived page artifact filename is not '<page>.txt'"
         else "no matching SQLite page state for derived artifact"
  }

  /** A combined text of a document without pages. */
  predicate ReportsLeftText(tree: Tree, key: string, pages: seq<Page>, issue: Issue) {
    && pages == [] && issue.path == ["text", "documents", key + ".txt"] && issue.path in tree
    && issue.kind == DocumentText && issue.issue == Orphaned && issue.pageNumber.None?
    && issue.detail == "document has no stored pages"
  }

  lemma {:induction false} ExpectedNumberIff(kind: ArtifactKind, pages: seq<Page>, n: nat)
    ensures n in ExpectedNumbers(kind, pages) <==>
              exists page :: page in pages && page.number == n && (kind == PageText || page.textSource == LocalOcr)
  {
    if page :| page in pages && page.number == n && (kind == PageText || page.textSource == LocalOcr) {
      var i :| 0 <= i < |pages| && pages[i] == page;
      assert pages[i].number in ExpectedNumbers(kind, pages);
    }
  }

  lemma {:induction false} NumberOf(name: string)
    ensures ParsePageNumber(name).None? <==> forall n: nat :: !NamesPage(name, n)
  {
    forall n: nat ensures ParsePageNumber(name) == Some(n) <==> NamesPage(name, n) {
      ParsedIff(name, n);
    }
    if ParsePageNumber(name).Some? {
      assert NamesPage(name, ParsePageNumber(name).value);
    }
  }

  lemma {:induction false} EntryReported(tree: Tree, key: string, pages: seq<Page>, issue: Issue)
    requires |issue.path| == 4 && issue.path in tree
    requires issue.path[1] == "pages" && issue.path[2] == key && (issue.path[0] == "text" || issue.path[0] == "ocr")
    ensures
      var kind := if issue.path[0] == "text" then PageText else OcrPageText;
      (EntryVerdict(kind, issue.path, tree[issue.path], ExpectedNumbers(kind, pages)) == Some(issue))
      <==> ReportsEntry(tree, key, pages, issue)
  {
    var kind := if issue.path[0] == "text" then PageText else OcrPageText;
    assert "text"[0] != "ocr"[0];
    NumberOf(issue.path[3]);
    if ParsePageNumber(issue.path[3]).Some? {
      ParsedIff(issue.path[3], ParsePageNumber(issue.path[3]).value);
      ExpectedNumberIff(kind, pages, ParsePageNumber(issue.path[3]).value);
    }
    if issue.pageNumber.Some? {
      ParsedIff(issue.path[3], issue.pageNumber.value);
    }
  }

  lemma {:induction false} InPageDir(key: string, path: Path, kind: ArtifactKind)
    requires kind != DocumentText
    ensures ChildOf(path, PageDir(kind, key)) <==>
              && |path| == 4 && path[0] == (if kind == PageText then "text" else "ocr")
              && path[1] == "pages" && path[2] == key
  {
    if |path| == 4 {
      assert path[..3] == [path[0], path[1], path[2]];
    }
  }

  lemma {:induction false} OrphanReported(tree: Tree, key: string, pages: seq<Page>, issue: Issue)
    ensures (OrphanVerdict(tree, key, pages, issue.path) == Some(issue))
       <==> ReportsEntry(tree, key, pages, issue) || ReportsLeftText(tree, key, pages, issue)
  {
    InPageDir(key, issue.path, PageText);
    InPageDir(key, issue.path, OcrPageText);
    assert "text"[0] != "ocr"[0];
    if issue.path in tree && (ChildOf(issue.path, PageDir(PageText, key)) || ChildOf(issue.path, PageDir(OcrPageText, key))) {
      EntryReported(tree, key, pages, issue);
    }
  }

  /**
   An issue is in the report exactly when an expected file is not as expected, a page directory holds
   an entry for no expected page, or the combined text is left of a document without pages.
   */
  lemma {:induction false} ReportSays(tree: Tree, key: string, pages: seq<Page>, issues: seq<Issue>, issue: Issue)
    requires IsReport(tree, key, pages, issues)
    ensures issue in issues <==>
              || (exists t :: IsExpectedFile(key, pages, t) && ReportsFile(tree, t, issue))
              || ReportsEntry(tree, key, pages, issue)
              || ReportsLeftText(tree, key, pages, issue)
  {
    ReportMeaning(tree, key, pages, issues, issue);
    OrphanReported(tree, key, pages, issue);
    forall t ensures (t in Targets(key, pages) && Verdict(tree, t) == Some(issue))
                <==> (IsExpectedFile(key, pages, t) && ReportsFile(tree, t, issue))
    {
      TargetsAre(key, pages, t);
      FileReported(tree, t, issue);
    }
  }

  // Order

  ghost predicate TextNotAfter(a: string, b: string) {
    a <= b || IsSmaller(a, b)
  }

  /** Component by component. */
  ghost predicate PathNotAfter(a: Path, b: Path) {
    a <= b || exists k: nat :: DiffersAt(a, b, k) && TextNotAfter(a[k], b[k])
  }

  predicate NumberNotAfter(a: Option<nat>, b: Option<nat>) {
    a.None? || (b.Some? && a.value <= b.value)
  }

  /**
   By kind, problem, path, page and text; combined texts come before page texts and OCR texts, Missing
   before Stale and Orphaned.
   */
  ghost predicate IssueNotAfter(a: Issue, b: Issue) {
    if a.kind != b.kind then a.kind == DocumentText || b.kind == OcrPageText
    else if a.issue != b.issue then a.issue == Missing || b.issue == Orphaned
    else if a.path != b.path then PathNotAfter(a.path, b.path)
    else if a.pageNumber != b.pageNumber then NumberNotAfter(a.pageNumber, b.pageNumber)
    else TextNotAfter(a.detail, b.detail)
  }

  /** Rewrites first, then by kind, path and page, and at last by reason or text. */
  ghost predicate ActionNotAfter(a: Action, b: Action) {
    if a.Rewrite? != b.Rewrite? then a.Rewrite?
    else if a.kind != b.kind then a.kind == DocumentText || b.kind == OcrPageText
    else if a.path != b.path then PathNotAfter(a.path, b.path)
    else if a.pageNumber != b.pageNumber then NumberNotAfter(a.pageNumber, b.pageNumber)
    else match a
      case Rewrite(_, _, _, reason) => reason == WasMissing || b.reason == WasStale
      case Review(_, _, _, detail) => TextNotAfter(detail, b.detail)
  }

  lemma {:induction false} PathOrderIs(a: Path, b: Path)
    ensures PathLe(a, b) <==> PathNotAfter(a, b)
  {
    LexLeIff(a, b, StringLe);
    forall k: nat | DiffersAt(a, b, k) ensures StringLe(a[k], b[k]) <==> TextNotAfter(a[k], b[k]) {
      StringLeIff(a[k], b[k]);
    }
  }

  lemma {:induction false} ReportIsOrdered(
    tree: Tree, key: string, pages: seq<Page>, issues: seq<Issue>, i: nat, j: nat)
    requires IsReport(tree, key, pages, issues) && i < j < |issues|
    ensures IssueNotAfter(issues[i], issues[j])
  {
    var a, b := issues[i], issues[j];
    assert IssueLe(a, b);
    PathOrderIs(a.path, b.path);
    StringLeIff(a.detail, b.detail);
  }

  lemma {:induction false} ActionTransitive(a: Action, b: Action, c: Action)
    requires TotalOrder(PathLe) && TotalOrder(StringLe)
    requires ActionLe(a, b) && ActionLe(b, c)
    ensures ActionLe(a, c)
  {
    if a.Rewrite? == b.Rewrite? == c.Rewrite? && a.kind == b.kind == c.kind {
      assert a.path != b.path ==> PathLe(a.path, b.path);
      assert b.path != c.path ==> PathLe(b.path, c.path);
    }
  }

  lemma {:induction false} ActionOrder()
    ensures TotalOrder(ActionLe)
  {
    PathOrder();
    StringOrder();
    forall a, b ensures ActionLe(a, b) || ActionLe(b, a) {
    }
    forall a, b | ActionLe(a, b) && ActionLe(b, a) ensures a == b {
    }
    forall a, b, c | ActionLe(a, b) && ActionLe(b, c) ensures ActionLe(a, c) {
      ActionTransitive(a, b, c);
    }
  }

  lemma {:induction false} PlanIsOrdered(issues: seq<Issue>, i: nat, j: nat)
    requires i < j < |PlanFor(issues)|
    ensures ActionNotAfter(PlanFor(issues)[i], PlanFor(issues)[j])
  {
    var a, b := PlanFor(issues)[i], PlanFor(issues)[j];
    ActionOrder();
    SortSorts(ActionsFor(issues), ActionLe);
    PathOrderIs(a.path, b.path);
    if a.Review? && b.Review? {
      StringLeIff(a.detail, b.detail);
    }
  }

  // The plan

  /** The action for this issue. */
  predicate Answers(action: Action, issue: Issue) {
    && action.kind == issue.kind && action.path == issue.path && action.pageNumber == issue.pageNumber
    && match issue.issue
       case Missing => action.Rewrite? && action.reason == WasMissing
       case Stale => action.Rewrite? && action.reason == WasStale
       case Orphaned => action.Review? && action.detail == issue.detail
  }

  lemma {:induction false} ActionAnswers(action: Action, issue: Issue)
    ensures action == ActionFor(issue) <==> Answers(action, issue)
  {
  }

  /** An action is planned exactly when it answers an issue, and there are as many actions as issues. */
  lemma {:induction false} PlanSays(issues: seq<Issue>, action: Action)
    ensures action in PlanFor(issues) <==> exists issue :: issue in issues && Answers(action, issue)
    ensures |PlanFor(issues)| == |issues|
  {
    ActionsForMember(issues, action);
    PlanLength(issues);
    forall issue ensures action == ActionFor(issue) <==> Answers(action, issue) {
      ActionAnswers(action, issue);
    }
    assert multiset(PlanFor(issues)) == multiset(ActionsFor(issues));
    assert action in multiset(PlanFor(issues)) <==> action in multiset(ActionsFor(issues));
  }

  /** The temporary name says which process writes, why, and its how-manieth file this is. */
  lemma {:induction false} TempNameSays(processId: nat, sequence: nat)
    ensures TempName(processId, WasMissing, sequence)
         == ".repair-apply-" + Decimal.ToDecimal(processId) + "-missing-" + Decimal.ToDecimal(sequence) + ".tmp"
    ensures TempName(processId, WasStale, sequence)
         == ".repair-apply-" + Decimal.ToDecimal(processId) + "-stale-" + Decimal.ToDecimal(sequence) + ".tmp"
  {
  }
}
