/** What it means for the search index to drift from the chunks (src/index/reconcile.rs). */
module FtsDrift {
  import opened Wrappers
  import opened Database
  import opened Ordering
  import opened Text
  import Decimal
  import Documents

  datatype IssueKind = Missing | Orphaned | Stale

  datatype Issue = Issue(kind: IssueKind, documentKey: string, chunkId: string, detail: string) {
    function Identity(): ChunkIdentity {
      ChunkIdentity(documentKey, chunkId)
    }
  }

  datatype Report = Report(canonicalChunkCount: nat, chunkFtsRowCount: nat, issues: seq<Issue>)

  // Ordering of reports and plans

  datatype SortKey = SortKey(documentKey: string, chunkId: string, rank: nat, text: string)

  predicate KeyLe(a: SortKey, b: SortKey) {
    if a.documentKey != b.documentKey then StringLe(a.documentKey, b.documentKey)
    else if a.chunkId != b.chunkId then StringLe(a.chunkId, b.chunkId)
    else if a.rank != b.rank then a.rank < b.rank
    else StringLe(a.text, b.text)
  }

  lemma {:induction false} KeyOrder()
    ensures TotalOrder(KeyLe)
  {
    StringOrder();
    forall a, b ensures KeyLe(a, b) || KeyLe(b, a) {
    }
    forall a, b | KeyLe(a, b) && KeyLe(b, a) ensures a == b {
    }
    forall a, b, c | KeyLe(a, b) && KeyLe(b, c) ensures KeyLe(a, c) {
    }
  }

  function IssueKey(issue: Issue): SortKey {
    SortKey(
      issue.documentKey, issue.chunkId,
      match issue.kind case Missing => 0 case Orphaned => 1 case Stale => 2,
      issue.detail)
  }

  predicate IssueLe(a: Issue, b: Issue) {
    KeyLe(IssueKey(a), IssueKey(b))
  }

  lemma {:induction false} IssueOrder()
    ensures TotalOrder(IssueLe)
  {
    KeyOrder();
    forall a, b | IssueLe(a, b) && IssueLe(b, a) ensures a == b {
      assert IssueKey(a) == IssueKey(b);
    }
  }

  // The canonical side

  /** The row of the join of `chunks` and `documents` with this identity. */
  function CanonicalRow(db: Db, id: ChunkIdentity): Option<FtsContent> {
    if id.documentKey in db.documents && (db.documents[id.documentKey].id, id.chunkId) in db.chunks then
      var doc := db.documents[id.documentKey];
      Some(Documents.IndexContent(id.documentKey, doc, id.chunkId, db.chunks[(doc.id, id.chunkId)]))
    else None
  }

  /** The whole join, in any order. */
  ghost predicate IsCanonicalList(db: Db, canon: seq<FtsContent>) {
    && (forall c :: c in canon <==> CanonicalRow(db, c.Identity()) == Some(c))
    && (forall i, j :: 0 <= i < j < |canon| ==> canon[i].Identity() != canon[j].Identity())
  }

  // Observed rows and their grouping

  function HasIdentity(id: ChunkIdentity): FtsRow -> bool {
    (row: FtsRow) => row.content.Identity() == id
  }

  function Matches(canonical: FtsContent): FtsRow -> bool {
    (row: FtsRow) => row.content == canonical
  }

  function RowsFor(fts: seq<FtsRow>, id: ChunkIdentity): seq<FtsRow> {
    Filter(fts, HasIdentity(id))
  }

  function DifferingFields(canonical: FtsContent, observed: FtsContent): seq<string> {
    var fields :=
      (if canonical.source != observed.source then ["source"] else [])
      + (if canonical.title != observed.title then ["title"] else [])
      + (if canonical.body != observed.body then ["body"] else [])
      + (if canonical.pageStart != observed.pageStart then ["page_start"] else [])
      + (if canonical.pageEnd != observed.pageEnd then ["page_end"] else []);
    if fields == [] then ["duplicate_or_unexpected_row_shape"] else fields
  }

  /** `find`: the first observed row that differs. */
  function FirstDivergent(rows: seq<FtsRow>, canonical: FtsContent): Option<FtsRow> {
    if rows == [] then None
    else if rows[0].content != canonical then Some(rows[0])
    else FirstDivergent(rows[1..], canonical)
  }

  function PartlyMatchingDetail(rows: seq<FtsRow>, canonical: FtsContent): string {
    match FirstDivergent(rows, canonical)
    case Some(observed) =>
      "chunk_fts has " + Decimal.ToDecimal(|rows|)
      + " rows for one canonical chunk (expected 1); first divergent row differs in ["
      + Join(DifferingFields(canonical, observed.content), ", ") + "]"
    case None =>
      "chunk_fts has " + Decimal.ToDecimal(|rows|) + " matching rows for one canonical chunk (expected 1)"
  }

  function DivergentDetail(rows: seq<FtsRow>, canonical: FtsContent): string
    requires rows != []
  {
    "chunk_fts row differs from canonical chunk fields ["
    + Join(DifferingFields(canonical, rows[0].content), ", ") + "] ("
    + Decimal.ToDecimal(|rows|) + " observed row(s) for key)"
  }

  function MissingIssue(c: FtsContent): Issue {
    Issue(Missing, c.documentKey, c.chunkId, "missing chunk_fts row for canonical chunk")
  }

  function StaleIssue(c: FtsContent, detail: string): Issue {
    Issue(Stale, c.documentKey, c.chunkId, detail)
  }

  /** The verdict on one canonical chunk, given the index rows that carry its identity. */
  function Verdict(canonical: FtsContent, rows: seq<FtsRow>): Option<Issue> {
    var matching := |Filter(rows, Matches(canonical))|;
    if rows == [] then Some(MissingIssue(canonical))
    else if matching == 1 && |rows| == 1 then None
    else if matching > 0 then Some(StaleIssue(canonical, PartlyMatchingDetail(rows, canonical)))
    else Some(StaleIssue(canonical, DivergentDetail(rows, canonical)))
  }

  function CanonicalIssues(canon: seq<FtsContent>, fts: seq<FtsRow>): seq<Issue> {
    if canon == [] then []
    else
      (match Verdict(canon[0], RowsFor(fts, canon[0].Identity())) case None => [] case Some(issue) => [issue])
      + CanonicalIssues(canon[1..], fts)
  }

  function OrphanIssue(row: FtsRow): Issue {
    Issue(Orphaned, row.content.documentKey, row.content.chunkId,
          "chunk_fts row has no matching canonical chunk (rowid=" + Decimal.ToDecimal(row.rowid) + ")")
  }

  function IsOrphan(db: Db): FtsRow -> bool {
    (row: FtsRow) => CanonicalRow(db, row.content.Identity()).None?
  }

  function OrphanIssues(orphans: seq<FtsRow>): seq<Issue> {
    if orphans == [] then [] else [OrphanIssue(orphans[0])] + OrphanIssues(orphans[1..])
  }

  function IssuesFor(db: Db, canon: seq<FtsContent>): seq<Issue> {
    Sort(CanonicalIssues(canon, db.fts) + OrphanIssues(Filter(db.fts, IsOrphan(db))), IssueLe)
  }

  function IsKind(kind: IssueKind): Issue -> bool {
    (issue: Issue) => issue.kind == kind
  }

  // Small facts

  lemma {:induction false} VerdictMeaning(canonical: FtsContent, rows: seq<FtsRow>)
    ensures Verdict(canonical, rows).None? <==> |rows| == 1 && rows[0].content == canonical
    ensures Verdict(canonical, rows).Some? ==>
              && Verdict(canonical, rows).value.Identity() == canonical.Identity()
              && Verdict(canonical, rows).value.kind == if rows == [] then Missing else Stale
  {
    if |rows| == 1 {
      assert Filter(rows, Matches(canonical)) == (if rows[0].content == canonical then [rows[0]] else [])
                                                 + Filter(rows[1..], Matches(canonical));
    }
  }

  /** An issue list about canonical chunks: at most one per chunk, naming it, never Orphaned. */
  lemma {:induction false} CanonicalIssuesMeaning(canon: seq<FtsContent>, fts: seq<FtsRow>, id: ChunkIdentity)
    requires forall i, j :: 0 <= i < j < |canon| ==> canon[i].Identity() != canon[j].Identity()
    ensures
      var issues := Filter(CanonicalIssues(canon, fts), (issue: Issue) => issue.Identity() == id);
      && |issues| <= 1
      && (|issues| == 1 <==> exists c :: c in canon && c.Identity() == id && Verdict(c, RowsFor(fts, id)).Some?)
      && (|issues| == 1 ==> issues[0].kind != Orphaned)
  {
    var p := (issue: Issue) => issue.Identity() == id;
    if canon != [] {
      CanonicalIssuesMeaning(canon[1..], fts, id);
      var c := canon[0];
      var rows := RowsFor(fts, c.Identity());
      VerdictMeaning(c, rows);
      var head := match Verdict(c, rows) case None => [] case Some(issue) => [issue];
      FilterConcat(head, CanonicalIssues(canon[1..], fts), p);
      assert head != [] ==> Filter(head, p) == (if p(head[0]) then [head[0]] else []) + Filter(head[1..], p);
      if c.Identity() == id {
        forall d | d in canon[1..] ensures d.Identity() != id {
          var j :| 1 <= j < |canon| && canon[j] == d;
          assert canon[0].Identity() != canon[j].Identity();
        }
      }
    }
  }
}
