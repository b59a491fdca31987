/** Which derived text files have drifted from the stored pages (src/ingest/reconcile.rs). */
module ArtifactReport {
  import opened Database
  import opened FileCompare
  import opened Ordering
  import opened Utf8
  import opened Wrappers
  import Decimal

  // Files below the store's root, by path components

  type Path = seq<string>

  datatype Node = File(content: seq<byte>) | Directory

  type Tree = map<Path, Node>

  function FileName(number: nat): string {
    Decimal.ToDecimal(number) + ".txt"
  }

  function DocumentTextPath(key: string): Path {
    ["text", "documents", key + ".txt"]
  }

  datatype ArtifactKind = DocumentText | PageText | OcrPageText

  function PageDir(kind: ArtifactKind, key: string): Path {
    [if kind.OcrPageText? then "ocr" else "text", "pages", key]
  }

  function PagePath(kind: ArtifactKind, key: string, number: nat): Path {
    PageDir(kind, key) + [FileName(number)]
  }

  predicate ChildOf(path: Path, dir: Path) {
    |path| == |dir| + 1 && path[..|dir|] == dir
  }

  /** `strip_suffix(".txt")`, then `parse::<u32>`, then positive. */
  function ParsePageNumber(name: string): Option<nat> {
    if |name| < 4 || name[|name| - 4..] != ".txt" then None
    else
      match Decimal.ParseUnsigned(name[..|name| - 4], Decimal.U32_MAX)
      case Some(n) => if n > 0 then Some(n) else None
      case None => None
  }

  lemma {:induction false} ParseFileName(number: nat)
    requires 0 < number <= Decimal.U32_MAX
    ensures ParsePageNumber(FileName(number)) == Some(number)
  {
    var name, suffix := FileName(number), ".txt";
    assert name[..|name| - 4] == Decimal.ToDecimal(number) && name[|name| - 4..] == suffix;
    Decimal.ParseRoundTrip(number, Decimal.U32_MAX);
  }

  // Issues

  datatype IssueKind = Missing | Stale | Orphaned

  datatype Issue = Issue(
    kind: ArtifactKind, issue: IssueKind, path: Path, pageNumber: Option<nat>, detail: string)

  function KindRank(kind: ArtifactKind): nat {
    match kind case DocumentText => 0 case PageText => 1 case OcrPageText => 2
  }

  function IssueRank(issue: IssueKind): nat {
    match issue case Missing => 0 case Stale => 1 case Orphaned => 2
  }

  predicate PathLe(a: Path, b: Path) {
    LexLe(a, b, StringLe)
  }

  predicate NumberLe(a: Option<nat>, b: Option<nat>) {
    a.None? || (b.Some? && a.value <= b.value)
  }

  /** The derived `Ord`: field by field in declaration order. */
  predicate IssueLe(a: Issue, b: Issue) {
    if a.kind != b.kind then KindRank(a.kind) < KindRank(b.kind)
    else if a.issue != b.issue then IssueRank(a.issue) < IssueRank(b.issue)
    else if a.path != b.path then PathLe(a.path, b.path)
    else if a.pageNumber != b.pageNumber then NumberLe(a.pageNumber, b.pageNumber)
    else StringLe(a.detail, b.detail)
  }

  lemma {:induction false} PathOrder()
    ensures TotalOrder(PathLe)
  {
    StringOrder();
    forall a: Path, b: Path ensures PathLe(a, b) || PathLe(b, a) {
      LexTotal(a, b, StringLe);
    }
    forall a: Path, b: Path | PathLe(a, b) && PathLe(b, a) ensures a == b {
      LexAntisymmetric(a, b, StringLe);
    }
    forall a: Path, b: Path, c: Path | PathLe(a, b) && PathLe(b, c) ensures PathLe(a, c) {
      LexTransitive(a, b, c, StringLe);
    }
  }

  lemma {:induction false} IssueOrder()
    ensures TotalOrder(IssueLe)
  {
    PathOrder();
    StringOrder();
    forall a, b ensures IssueLe(a, b) || IssueLe(b, a) {
    }
    forall a, b | IssueLe(a, b) && IssueLe(b, a) ensures a == b {
    }
    forall a, b, c | IssueLe(a, b) && IssueLe(b, c) ensures IssueLe(a, c) {
      IssueTransitive(a, b, c);
    }
  }

  lemma {:induction false} IssueTransitive(a: Issue, b: Issue, c: Issue)
    requires TotalOrder(PathLe) && TotalOrder(StringLe)
    requires IssueLe(a, b) && IssueLe(b, c)
    ensures IssueLe(a, c)
  {
    if a.kind == b.kind == c.kind && a.issue == b.issue == c.issue {
      assert a.path != b.path ==> PathLe(a.path, b.path);
      assert b.path != c.path ==> PathLe(b.path, c.path);
    }
  }

  // Expected files

  datatype Target = Target(kind: ArtifactKind, path: Path, pageNumber: Option<nat>, content: seq<byte>)

  function DocumentTarget(key: string, pages: seq<Page>): Target {
    Target(DocumentText, DocumentTextPath(key), None, Encode(CombinedText(pages)))
  }

  function PageTarget(kind: ArtifactKind, key: string, page: Page): Target {
    Target(kind, PagePath(kind, key, page.number), Some(page.number), Encode(page.text))
  }

  function TargetsOf(key: string, page: Page): seq<Target> {
    [PageTarget(PageText, key, page)]
    + if page.textSource == LocalOcr then [PageTarget(OcrPageText, key, page)] else []
  }

  function PageTargets(key: string, pages: seq<Page>): seq<Target> {
    if pages == [] then [] else TargetsOf(key, pages[0]) + PageTargets(key, pages[1..])
  }

  /** Every file the stored pages call for. */
  function Targets(key: string, pages: seq<Page>): seq<Target> {
    (if pages == [] then [] else [DocumentTarget(key, pages)]) + PageTargets(key, pages)
  }

  function MissingDetail(): string {
    "expected derived artifact is absent"
  }

  function NotAFileDetail(): string {
    "derived artifact path is not a regular file"
  }

  function DiffersDetail(): string {
    "derived artifact content differs from SQLite page state"
  }

  predicate Current(tree: Tree, target: Target) {
    target.path in tree && tree[target.path] == File(target.content)
  }

  function Verdict(tree: Tree, target: Target): (issue: Option<Issue>)
    ensures issue.None? <==> Current(tree, target)
    ensures issue.Some? ==> issue.value.issue != Orphaned && issue.value.path == target.path
    ensures issue.Some? ==> issue.value.kind == target.kind && issue.value.pageNumber == target.pageNumber
  {
    if target.path !in tree then Some(Issue(target.kind, Missing, target.path, target.pageNumber, MissingDetail()))
    else if tree[target.path].Directory? then
      Some(Issue(target.kind, Stale, target.path, target.pageNumber, NotAFileDetail()))
    else if tree[target.path].content != target.content then
      Some(Issue(target.kind, Stale, target.path, target.pageNumber, DiffersDetail()))
    else None
  }

  function Listed(issue: Option<Issue>): seq<Issue> {
    if issue.Some? then [issue.value] else []
  }

  function Verdicts(tree: Tree, targets: seq<Target>): seq<Issue> {
    if targets == [] then [] else Listed(Verdict(tree, targets[0])) + Verdicts(tree, targets[1..])
  }

  // Entries that no stored page calls for

  function ExpectedNumbers(kind: ArtifactKind, pages: seq<Page>): set<nat> {
    set i | 0 <= i < |pages| && (kind.PageText? || pages[i].textSource == LocalOcr) :: pages[i].number
  }

  function OrphanIssue(kind: ArtifactKind, path: Path, number: Option<nat>, detail: string): Issue {
    Issue(kind, Orphaned, path, number, detail)
  }

  function NoPagesDetail(): string {
    "document has no stored pages"
  }

  function EntryDetail(node: Node, number: Option<nat>): string {
    if node.Directory? then "derived page artifact entry is not a regular file"
    else if number.None? then "derived page artifact filename is not '<page>.txt'"
    else "no matching SQLite page state for derived artifact"
  }

  /** The branches of `collect_orphaned_page_files` for one directory entry. */
  function EntryVerdict(kind: ArtifactKind, path: Path, node: Node, expected: set<nat>): (issue: Option<Issue>)
    requires path != []
    ensures issue.Some? ==> issue.value.path == path && issue.value.issue == Orphaned
    ensures issue.Some? ==> issue.value.kind == kind
    ensures issue.None? <==>
              var number := ParsePageNumber(path[|path| - 1]);
              number.Some? && number.value in expected
  {
    var number := ParsePageNumber(path[|path| - 1]);
    if node.Directory? then
      if number.Some? && number.value in expected then None
      else Some(OrphanIssue(kind, path, number, EntryDetail(node, number)))
    else if number.None? then Some(OrphanIssue(kind, path, None, EntryDetail(node, number)))
    else if number.value !in expected then Some(OrphanIssue(kind, path, number, EntryDetail(node, number)))
    else None
  }

  function OrphanVerdict(tree: Tree, key: string, pages: seq<Page>, path: Path): (issue: Option<Issue>)
    ensures issue.Some? ==> issue.value.path == path && issue.value.issue == Orphaned
  {
    if path !in tree then None
    else if ChildOf(path, PageDir(PageText, key)) then
      EntryVerdict(PageText, path, tree[path], ExpectedNumbers(PageText, pages))
    else if ChildOf(path, PageDir(OcrPageText, key)) then
      EntryVerdict(OcrPageText, path, tree[path], ExpectedNumbers(OcrPageText, pages))
    else if path == DocumentTextPath(key) && pages == [] then
      Some(OrphanIssue(DocumentText, path, None, NoPagesDetail()))
    else None
  }

  function OrphansAmong(paths: set<Path>, tree: Tree, key: string, pages: seq<Page>): set<Issue> {
    set p | p in paths && OrphanVerdict(tree, key, pages, p).Some? :: OrphanVerdict(tree, key, pages, p).value
  }

  /** Each drifted target and each orphan once, in the order of `sort`. */
  ghost predicate IsReport(tree: Tree, key: string, pages: seq<Page>, issues: seq<Issue>) {
    && Sorted(issues, IssueLe)
    && multiset(issues) == multiset(Verdicts(tree, Targets(key, pages)))
                           + multiset(OrphansAmong(tree.Keys, tree, key, pages))
  }

  // The report method

  datatype ReconcileError = NotADirectory(path: Path)

  /** `exists`, `is_file`, then the streaming comparison that fits the target. */
  method CheckBytes(tree: Tree, target: Target) returns (issue: Option<Issue>)
    ensures issue == Verdict(tree, target)
  {
    if target.path !in tree {
      return Some(Issue(target.kind, Missing, target.path, target.pageNumber, MissingDetail()));
    }
    if !tree[target.path].File? {
      return Some(Issue(target.kind, Stale, target.path, target.pageNumber, NotAFileDetail()));
    }
    var matches := FileMatchesBytes(tree[target.path].content, target.content);
    if !matches {
      return Some(Issue(target.kind, Stale, target.path, target.pageNumber, DiffersDetail()));
    }
    return None;
  }

  method CheckDocument(tree: Tree, key: string, pages: seq<Page>) returns (issue: Option<Issue>)
    ensures issue == Verdict(tree, DocumentTarget(key, pages))
  {
    var path := DocumentTextPath(key);
    if path !in tree {
      return Some(Issue(DocumentText, Missing, path, None, MissingDetail()));
    }
    if !tree[path].File? {
      return Some(Issue(DocumentText, Stale, path, None, NotAFileDetail()));
    }
    var matches := FileMatchesRenderedPages(tree[path].content, pages);
    if !matches {
      return Some(Issue(DocumentText, Stale, path, None, DiffersDetail()));
    }
    return None;
  }

  lemma {:induction false} VerdictsConcat(tree: Tree, a: seq<Target>, b: seq<Target>)
    ensures Verdicts(tree, a + b) == Verdicts(tree, a) + Verdicts(tree, b)
  {
    if a == [] {
      assert a + b == b;
    } else {
      VerdictsConcat(tree, a[1..], b);
      assert (a + b)[0] == a[0] && (a + b)[1..] == a[1..] + b;
    }
  }

  lemma {:induction false} VerdictsOne(tree: Tree, target: Target)
    ensures Verdicts(tree, [target]) == Listed(Verdict(tree, target))
  {
    assert [target][1..] == [];
  }

  lemma {:induction false} PageTargetsLast(key: string, pages: seq<Page>, page: Page)
    ensures PageTargets(key, pages + [page]) == PageTargets(key, pages) + TargetsOf(key, page)
  {
    if pages == [] {
      assert pages + [page] == [page] && [page][1..] == [];
    } else {
      PageTargetsLast(key, pages[1..], page);
      assert (pages + [page])[0] == pages[0] && (pages + [page])[1..] == pages[1..] + [page];
    }
  }

  lemma {:induction false} VerdictsLast(tree: Tree, key: string, pages: seq<Page>, i: nat)
    requires i < |pages|
    ensures Verdicts(tree, PageTargets(key, pages[..i + 1]))
         == Verdicts(tree, PageTargets(key, pages[..i])) + Verdicts(tree, TargetsOf(key, pages[i]))
  {
    assert pages[..i + 1] == pages[..i] + [pages[i]];
    PageTargetsLast(key, pages[..i], pages[i]);
    VerdictsConcat(tree, PageTargets(key, pages[..i]), TargetsOf(key, pages[i]));
  }

  method CheckPage(tree: Tree, key: string, page: Page) returns (issues: seq<Issue>)
    ensures issues == Verdicts(tree, TargetsOf(key, page))
  {
    var text := PageTarget(PageText, key, page);
    VerdictsOne(tree, text);
    var issue := CheckBytes(tree, text);
    issues := Listed(issue);
    if page.textSource == LocalOcr {
      var ocr := PageTarget(OcrPageText, key, page);
      VerdictsOne(tree, ocr);
      VerdictsConcat(tree, [text], [ocr]);
      var ocrIssue := CheckBytes(tree, ocr);
      issues := issues + Listed(ocrIssue);
    } else {
      assert TargetsOf(key, page) == [text];
    }
  }

  method CheckPages(tree: Tree, key: string, pages: seq<Page>)
    returns (issues: seq<Issue>, textPages: set<nat>, ocrPages: set<nat>)
    ensures issues == Verdicts(tree, PageTargets(key, pages))
    ensures textPages == ExpectedNumbers(PageText, pages) && ocrPages == ExpectedNumbers(OcrPageText, pages)
  {
    issues, textPages, ocrPages := [], {}, {};
    for i := 0 to |pages|
      invariant issues == Verdicts(tree, PageTargets(key, pages[..i]))
      invariant textPages == ExpectedNumbers(PageText, pages[..i])
      invariant ocrPages == ExpectedNumbers(OcrPageText, pages[..i])
    {
      var page := pages[i];
      assert pages[..i + 1] == pages[..i] + [page];
      VerdictsLast(tree, key, pages, i);
      NumbersLast(pages[..i], page);
      var found := CheckPage(tree, key, page);
      issues := issues + found;
      textPages := textPages + {page.number};
      if page.textSource == LocalOcr {
        ocrPages := ocrPages + {page.number};
      }
    }
    assert pages[..|pages|] == pages;
  }

  lemma {:induction false} NumbersLast(pages: seq<Page>, page: Page)
    ensures ExpectedNumbers(PageText, pages + [page]) == ExpectedNumbers(PageText, pages) + {page.number}
    ensures ExpectedNumbers(OcrPageText, pages + [page])
         == ExpectedNumbers(OcrPageText, pages) + if page.textSource == LocalOcr then {page.number} else {}
  {
    var more := pages + [page];
    assert more[|pages|] == page && forall i :: 0 <= i < |pages| ==> more[i] == pages[i];
    assert forall n :: n in ExpectedNumbers(PageText, pages) ==> n in ExpectedNumbers(PageText, more) by {
      forall n | n in ExpectedNumbers(PageText, pages) ensures n in ExpectedNumbers(PageText, more) {
        var i :| 0 <= i < |pages| && pages[i].number == n;
        assert more[i].number == n;
      }
    }
    assert forall n :: n in ExpectedNumbers(OcrPageText, pages) ==> n in ExpectedNumbers(OcrPageText, more) by {
      forall n | n in ExpectedNumbers(OcrPageText, pages) ensures n in ExpectedNumbers(OcrPageText, more) {
        var i :| 0 <= i < |pages| && pages[i].textSource == LocalOcr && pages[i].number == n;
        assert more[i].number == n;
      }
    }
    assert more[|pages|].number in ExpectedNumbers(PageText, more);
  }

  lemma {:induction false} OneMoreEntry(done: set<Path>, path: Path, tree: Tree, key: string, pages: seq<Page>)
    requires path !in done
    ensures multiset(OrphansAmong(done + {path}, tree, key, pages))
         == multiset(OrphansAmong(done, tree, key, pages)) + multiset(Listed(OrphanVerdict(tree, key, pages, path)))
  {
    var verdict := OrphanVerdict(tree, key, pages, path);
    if verdict.Some? {
      assert verdict.value !in OrphansAmong(done, tree, key, pages);
      assert OrphansAmong(done + {path}, tree, key, pages) == OrphansAmong(done, tree, key, pages) + {verdict.value};
    } else {
      assert OrphansAmong(done + {path}, tree, key, pages) == OrphansAmong(done, tree, key, pages);
    }
  }

  function ChildrenOf(tree: Tree, dir: Path): set<Path> {
    set p | p in tree && ChildOf(p, dir)
  }

  /** `read_dir` over one page directory, in whatever order it yields its entries. */
  method CollectOrphans(tree: Tree, kind: ArtifactKind, key: string, pages: seq<Page>, expected: set<nat>)
    returns (r: Result<seq<Issue>, ReconcileError>)
    requires !kind.DocumentText? && expected == ExpectedNumbers(kind, pages)
    ensures r.Err? <==> PageDir(kind, key) in tree && tree[PageDir(kind, key)].File?
    ensures r.Err? ==> r.error == NotADirectory(PageDir(kind, key))
    ensures r.Ok? && PageDir(kind, key) in tree ==>
              multiset(r.value) == multiset(OrphansAmong(ChildrenOf(tree, PageDir(kind, key)), tree, key, pages))
    ensures r.Ok? && PageDir(kind, key) !in tree ==> r.value == []
  {
    var dir := PageDir(kind, key);
    if dir !in tree {
      return Ok([]);
    }
    if tree[dir].File? {
      return Err(NotADirectory(dir));
    }
    var issues: seq<Issue> := [];
    var remaining := ChildrenOf(tree, dir);
    ghost var done: set<Path> := {};
    assert OrphansAmong({}, tree, key, pages) == {};
    while remaining != {}
      invariant done !! remaining && done + remaining == ChildrenOf(tree, dir)
      invariant multiset(issues) == multiset(OrphansAmong(done, tree, key, pages))
      decreases |remaining|
    {
      var path :| path in remaining;
      OneMoreEntry(done, path, tree, key, pages);
      EntryIsOrphan(tree, kind, key, pages, path);
      issues := issues + Listed(EntryVerdict(kind, path, tree[path], expected));
      remaining, done := remaining - {path}, done + {path};
    }
    return Ok(issues);
  }

  lemma {:induction false} DirsDiffer(key: string)
    ensures PageDir(PageText, key)[0] != PageDir(OcrPageText, key)[0]
    ensures PageDir(PageText, key)[1] != DocumentTextPath(key)[1]
  {
    assert "text"[0] != "ocr"[0] && "pages"[0] != "documents"[0];
  }

  lemma {:induction false} EntryIsOrphan(tree: Tree, kind: ArtifactKind, key: string, pages: seq<Page>, path: Path)
    requires !kind.DocumentText? && path in tree && ChildOf(path, PageDir(kind, key))
    ensures OrphanVerdict(tree, key, pages, path)
         == EntryVerdict(kind, path, tree[path], ExpectedNumbers(kind, pages))
  {
    DirsDiffer(key);
    assert path[..3][0] == path[0];
  }

  ghost predicate WellFormed(tree: Tree) {
    forall p, n: nat :: p in tree && 0 < n < |p| ==> p[..n] in tree && tree[p[..n]] == Directory
  }

  lemma {:induction false} NoDirNoChildren(tree: Tree, dir: Path)
    requires WellFormed(tree) && dir !in tree && dir != []
    ensures ChildrenOf(tree, dir) == {}
  {
    assert forall p :: p in tree && |p| > |dir| ==> p[..|dir|] in tree;
  }

  /** Orphans lie in the two page directories or at the path of the document text. */
  lemma {:induction false} OrphansByPlace(tree: Tree, key: string, pages: seq<Page>)
    ensures
      var texts, ocrs := ChildrenOf(tree, PageDir(PageText, key)), ChildrenOf(tree, PageDir(OcrPageText, key));
      multiset(OrphansAmong(tree.Keys, tree, key, pages))
      == multiset(OrphansAmong({DocumentTextPath(key)}, tree, key, pages))
         + multiset(OrphansAmong(texts, tree, key, pages)) + multiset(OrphansAmong(ocrs, tree, key, pages))
  {
    DirsDiffer(key);
    var texts, ocrs := ChildrenOf(tree, PageDir(PageText, key)), ChildrenOf(tree, PageDir(OcrPageText, key));
    forall p | p in texts ensures p !in ocrs && p != DocumentTextPath(key) {
      assert p[..3][0] == p[0];
    }
    forall p | p in ocrs ensures p != DocumentTextPath(key) {
    }
    OrphansApart(texts, ocrs, tree, key, pages);
    OrphansApart({DocumentTextPath(key)}, texts + ocrs, tree, key, pages);
    var all := {DocumentTextPath(key)} + (texts + ocrs);
    assert OrphansAmong(tree.Keys, tree, key, pages) == OrphansAmong(all, tree, key, pages);
  }

  lemma {:induction false} OrphansApart(a: set<Path>, b: set<Path>, tree: Tree, key: string, pages: seq<Page>)
    requires a !! b
    ensures multiset(OrphansAmong(a + b, tree, key, pages))
         == multiset(OrphansAmong(a, tree, key, pages)) + multiset(OrphansAmong(b, tree, key, pages))
  {
    var left, right := OrphansAmong(a, tree, key, pages), OrphansAmong(b, tree, key, pages);
    assert OrphansAmong(a + b, tree, key, pages) == left + right;
    forall issue | issue in left ensures issue !in right {
    }
  }

  method ReconcileArtifacts(tree: Tree, key: string, pages: seq<Page>)
    returns (r: Result<seq<Issue>, ReconcileError>)
    requires WellFormed(tree)
    ensures r.Ok? ==> IsReport(tree, key, pages, r.value)
    ensures r.Err? <==> exists kind: ArtifactKind ::
              !kind.DocumentText? && PageDir(kind, key) in tree && tree[PageDir(kind, key)].File?
  {
    var issues: seq<Issue> := [];
    var documentOrphans: seq<Issue> := [];
    if pages == [] {
      if DocumentTextPath(key) in tree {
        documentOrphans := [OrphanIssue(DocumentText, DocumentTextPath(key), None, NoPagesDetail())];
      }
    } else {
      var issue := CheckDocument(tree, key, pages);
      issues := Listed(issue);
    }
    var pageIssues, textPages, ocrPages := CheckPages(tree, key, pages);
    var textOrphans :- CollectOrphans(tree, PageText, key, pages, textPages);
    var ocrOrphans :- CollectOrphans(tree, OcrPageText, key, pages, ocrPages);
    var found := issues + pageIssues;
    var orphans := documentOrphans + textOrphans + ocrOrphans;
    r := Ok(Sort(found + orphans, IssueLe));
    IssueOrder();
    SortSorts(found + orphans, IssueLe);
    FoundAre(tree, key, pages, issues, pageIssues);
    OrphansAre(tree, key, pages, documentOrphans, textOrphans, ocrOrphans);
  }

  lemma {:induction false} FoundAre(
    tree: Tree, key: string, pages: seq<Page>, issues: seq<Issue>, pageIssues: seq<Issue>)
    requires issues == if pages == [] then [] else Listed(Verdict(tree, DocumentTarget(key, pages)))
    requires pageIssues == Verdicts(tree, PageTargets(key, pages))
    ensures issues + pageIssues == Verdicts(tree, Targets(key, pages))
  {
    if pages != [] {
      VerdictsOne(tree, DocumentTarget(key, pages));
      VerdictsConcat(tree, [DocumentTarget(key, pages)], PageTargets(key, pages));
    } else {
      assert Targets(key, pages) == [];
    }
  }

  lemma {:induction false} OrphansAre(
    tree: Tree, key: string, pages: seq<Page>,
    documentOrphans: seq<Issue>, textOrphans: seq<Issue>, ocrOrphans: seq<Issue>)
    requires WellFormed(tree)
    requires documentOrphans
          == if pages == [] && DocumentTextPath(key) in tree then
               [OrphanIssue(DocumentText, DocumentTextPath(key), None, NoPagesDetail())]
             else []
    requires FromDir(tree, PageText, key, pages, textOrphans) && FromDir(tree, OcrPageText, key, pages, ocrOrphans)
    ensures multiset(documentOrphans + textOrphans + ocrOrphans)
         == multiset(OrphansAmong(tree.Keys, tree, key, pages))
  {
    DirsDiffer(key);
    OrphansByPlace(tree, key, pages);
    DirOrphans(tree, PageText, key, pages, textOrphans);
    DirOrphans(tree, OcrPageText, key, pages, ocrOrphans);
    assert !ChildOf(DocumentTextPath(key), PageDir(PageText, key));
    assert !ChildOf(DocumentTextPath(key), PageDir(OcrPageText, key));
    OneMoreEntry({}, DocumentTextPath(key), tree, key, pages);
    assert OrphansAmong({}, tree, key, pages) == {};
    assert {} + {DocumentTextPath(key)} == {DocumentTextPath(key)};
    assert documentOrphans == Listed(OrphanVerdict(tree, key, pages, DocumentTextPath(key)));
  }

  ghost predicate FromDir(tree: Tree, kind: ArtifactKind, key: string, pages: seq<Page>, found: seq<Issue>) {
    if PageDir(kind, key) in tree then
      multiset(found) == multiset(OrphansAmong(ChildrenOf(tree, PageDir(kind, key)), tree, key, pages))
    else found == []
  }

  lemma {:induction false} DirOrphans(tree: Tree, kind: ArtifactKind, key: string, pages: seq<Page>, found: seq<Issue>)
    requires WellFormed(tree) && FromDir(tree, kind, key, pages, found)
    ensures multiset(found) == multiset(OrphansAmong(ChildrenOf(tree, PageDir(kind, key)), tree, key, pages))
  {
    if PageDir(kind, key) !in tree {
      NoDirNoChildren(tree, PageDir(kind, key));
      assert OrphansAmong({}, tree, key, pages) == {};
    }
  }
}
