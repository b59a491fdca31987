/**
 What an index report and a repair plan say, entry by entry (src/index/reconcile.rs,
 src/index/reconcile_repair.rs): which entries there are, in which words, and in which order.
 */
module FtsReports {
  import opened Database
  import opened FtsDrift
  import opened FtsRepair
  import opened FtsTheorems
  import opened Ordering
  import opened Text
  import opened TextOrder
  import opened Wrappers
  import Decimal

  // Details

  const COLUMNS: seq<string> := ["source", "title", "body", "page_start", "page_end"]

  /** The names whose flag is set, in order. */
  function Picked(flags: seq<bool>, names: seq<string>): seq<string>
    requires |flags| == |names|
  {
    if flags == [] then [] else (if flags[0] then [names[0]] else []) + Picked(flags[1..], names[1..])
  }

  /** The columns in which two rows of one identity differ. */
  function Differences(a: FtsContent, b: FtsContent): seq<string> {
    Picked([a.source != b.source, a.title != b.title, a.body != b.body,
            a.pageStart != b.pageStart, a.pageEnd != b.pageEnd], COLUMNS)
  }

  function Chosen(flag: bool, name: string): seq<string> {
    if flag then [name] else []
  }

  lemma {:induction false} PickedLast(f: seq<bool>, n: seq<string>, flag: bool, name: string)
    requires |f| == |n|
    ensures Picked(f + [flag], n + [name]) == Picked(f, n) + Chosen(flag, name)
  {
    if f == [] {
      assert f + [flag] == [flag] && n + [name] == [name] && [flag][1..] == [] && [name][1..] == [];
    } else {
      assert (f + [flag])[1..] == f[1..] + [flag] && (n + [name])[1..] == n[1..] + [name];
      PickedLast(f[1..], n[1..], flag, name);
    }
  }

  lemma {:induction false} PickedFive(
    f0: bool, f1: bool, f2: bool, f3: bool, f4: bool, n0: string, n1: string, n2: string, n3: string, n4: string)
    ensures Picked([f0, f1, f2, f3, f4], [n0, n1, n2, n3, n4])
         == Chosen(f0, n0) + Chosen(f1, n1) + Chosen(f2, n2) + Chosen(f3, n3) + Chosen(f4, n4)
  {
    PickedTwo([f0], [n0], f1, n1, f2, n2);
    PickedTwo([f0, f1, f2], [n0, n1, n2], f3, n3, f4, n4);
    assert [f0] + [f1, f2] == [f0, f1, f2] && [f0, f1, f2] + [f3, f4] == [f0, f1, f2, f3, f4];
    assert [n0] + [n1, n2] == [n0, n1, n2] && [n0, n1, n2] + [n3, n4] == [n0, n1, n2, n3, n4];
    assert Picked([f0], [n0]) == Chosen(f0, n0);
  }

  lemma {:induction false} PickedTwo(
    f: seq<bool>, n: seq<string>, flag: bool, name: string, flag': bool, name': string)
    requires |f| == |n|
    ensures Picked(f + [flag, flag'], n + [name, name']) == Picked(f, n) + Chosen(flag, name) + Chosen(flag', name')
  {
    PickedLast(f, n, flag, name);
    PickedLast(f + [flag], n + [name], flag', name');
    assert f + [flag] + [flag'] == f + [flag, flag'] && n + [name] + [name'] == n + [name, name'];
  }

  /** Two rows of one identity that differ are described by exactly the columns in which they do. */
  lemma {:induction false} DifferencesAre(a: FtsContent, b: FtsContent)
    requires a.Identity() == b.Identity() && a != b
    ensures DifferingFields(a, b) == Differences(a, b)
  {
    PickedFive(a.source != b.source, a.title != b.title, a.body != b.body, a.pageStart != b.pageStart,
               a.pageEnd != b.pageEnd, "source", "title", "body", "page_start", "page_end");
  }

  /** How the detail of a Stale issue describes the rows found for a chunk. */
  ghost predicate Describes(detail: string, c: FtsContent, rows: seq<FtsRow>)
    requires rows != []
  {
    var count := Decimal.ToDecimal(|rows|);
    if forall i :: 0 <= i < |rows| ==> rows[i].content == c then
      detail == "chunk_fts has " + count + " matching rows for one canonical chunk (expected 1)"
    else if forall i :: 0 <= i < |rows| ==> rows[i].content != c then
      detail == "chunk_fts row differs from canonical chunk fields ["
                + Join(Differences(c, rows[0].content), ", ") + "] (" + count + " observed row(s) for key)"
    else
      exists k :: 0 <= k < |rows| && FirstOther(rows, c, k)
        && detail == "chunk_fts has " + count
                     + " rows for one canonical chunk (expected 1); first divergent row differs in ["
                     + Join(Differences(c, rows[k].content), ", ") + "]"
  }

  predicate FirstOther(rows: seq<FtsRow>, c: FtsContent, k: nat) {
    k < |rows| && rows[k].content != c && forall i :: 0 <= i < k ==> rows[i].content == c
  }

  lemma {:induction false} FirstDivergentIs(rows: seq<FtsRow>, c: FtsContent)
    ensures FirstDivergent(rows, c).None? <==> forall i :: 0 <= i < |rows| ==> rows[i].content == c
    ensures FirstDivergent(rows, c).Some? ==>
              exists k :: 0 <= k < |rows| && FirstOther(rows, c, k) && FirstDivergent(rows, c) == Some(rows[k])
  {
    if rows != [] {
      FirstDivergentIs(rows[1..], c);
      if rows[0].content != c {
        assert FirstOther(rows, c, 0);
      } else if FirstDivergent(rows, c).Some? {
        var k :| 0 <= k < |rows[1..]| && FirstOther(rows[1..], c, k)
                 && FirstDivergent(rows[1..], c) == Some(rows[1..][k]);
        var next := k + 1;
        assert FirstOther(rows, c, next);
      }
    }
  }

  lemma {:induction false} SomeMatch(rows: seq<FtsRow>, c: FtsContent)
    ensures |Filter(rows, Matches(c))| > 0 <==> exists i :: 0 <= i < |rows| && rows[i].content == c
  {
    if i :| 0 <= i < |rows| && rows[i].content == c {
      FilterMember(rows, Matches(c), rows[i]);
    }
    if |Filter(rows, Matches(c))| > 0 {
      var row := Filter(rows, Matches(c))[0];
      FilterMember(rows, Matches(c), row);
    }
  }

  /** The whole entry for one chunk: Missing when no row carries its identity, Stale with its description otherwise. */
  ghost predicate IsEntry(issue: Issue, c: FtsContent, rows: seq<FtsRow>) {
    && issue.documentKey == c.documentKey && issue.chunkId == c.chunkId
    && (if rows == [] then issue.kind == Missing && issue.detail == "missing chunk_fts row for canonical chunk"
        else issue.kind == Stale && Describes(issue.detail, c, rows))
  }

  lemma {:induction false} VerdictSays(c: FtsContent, rows: seq<FtsRow>)
    requires forall row :: row in rows ==> row.content.Identity() == c.Identity()
    ensures Verdict(c, rows).None? <==> |rows| == 1 && rows[0].content == c
    ensures Verdict(c, rows).Some? ==> IsEntry(Verdict(c, rows).value, c, rows)
  {
    VerdictMeaning(c, rows);
    if rows != [] {
      SomeMatch(rows, c);
      if forall i :: 0 <= i < |rows| ==> rows[i].content != c {
        DifferencesAre(c, rows[0].content);
      } else if Verdict(c, rows).Some? {
        FirstDivergentIs(rows, c);
        if FirstDivergent(rows, c).Some? {
          var k :| 0 <= k < |rows| && FirstOther(rows, c, k) && FirstDivergent(rows, c) == Some(rows[k]);
          DifferencesAre(c, rows[k].content);
        }
      }
    }
  }

  // The entries of a report

  /** A row of the join of chunks and documents. */
  predicate IsJoinRow(db: Db, c: FtsContent) {
    && c.documentKey in db.documents
    && var doc := db.documents[c.documentKey];
       && c.source == doc.source && c.title == doc.title
       && (doc.id, c.chunkId) in db.chunks
       && var chunk := db.chunks[(doc.id, c.chunkId)];
          c.body == chunk.text && c.pageStart == chunk.pageStart && c.pageEnd == chunk.pageEnd
  }

  lemma {:induction false} CanonicalIsJoinRow(db: Db, c: FtsContent)
    ensures CanonicalRow(db, c.Identity()) == Some(c) <==> IsJoinRow(db, c)
  {
  }

  predicate HasChunk(db: Db, id: ChunkIdentity) {
    id.documentKey in db.documents && (db.documents[id.documentKey].id, id.chunkId) in db.chunks
  }

  predicate IsOrphanEntry(issue: Issue, row: FtsRow) {
    && issue.kind == Orphaned
    && issue.documentKey == row.content.documentKey && issue.chunkId == row.content.chunkId
    && issue.detail == "chunk_fts row has no matching canonical chunk (rowid=" + Decimal.ToDecimal(row.rowid) + ")"
  }

  /** The chunk's rows are not exactly one row that repeats it, and the issue says so. */
  ghost predicate ReportsChunk(db: Db, issue: Issue, c: FtsContent) {
    var rows := RowsFor(db.fts, c.Identity());
    IsJoinRow(db, c) && !(|rows| == 1 && rows[0].content == c) && IsEntry(issue, c, rows)
  }

  predicate ReportsOrphan(db: Db, issue: Issue, row: FtsRow) {
    row in db.fts && !HasChunk(db, row.content.Identity()) && IsOrphanEntry(issue, row)
  }

  lemma {:induction false} EntryUnique(a: Issue, b: Issue, c: FtsContent, rows: seq<FtsRow>)
    requires IsEntry(a, c, rows) && IsEntry(b, c, rows)
    ensures a == b
  {
    if rows != [] && (exists i :: 0 <= i < |rows| && rows[i].content == c)
                  && (exists i :: 0 <= i < |rows| && rows[i].content != c) {
      forall k, l | 0 <= k < |rows| && 0 <= l < |rows| && FirstOther(rows, c, k) && FirstOther(rows, c, l)
        ensures k == l
      {
      }
    }
  }

  lemma {:induction false} RowsForMember(fts: seq<FtsRow>, id: ChunkIdentity)
    ensures forall row :: row in RowsFor(fts, id) ==> row.content.Identity() == id
  {
    forall row | row in RowsFor(fts, id) ensures row.content.Identity() == id {
      FilterMember(fts, HasIdentity(id), row);
    }
  }

  lemma {:induction false} ChunkReported(db: Db, canon: seq<FtsContent>, issue: Issue, c: FtsContent)
    requires IsCanonicalList(db, canon)
    ensures c in canon && Verdict(c, RowsFor(db.fts, c.Identity())) == Some(issue) <==> ReportsChunk(db, issue, c)
  {
    var rows := RowsFor(db.fts, c.Identity());
    CanonicalIsJoinRow(db, c);
    RowsForMember(db.fts, c.Identity());
    VerdictSays(c, rows);
    if ReportsChunk(db, issue, c) {
      EntryUnique(issue, Verdict(c, rows).value, c, rows);
    }
  }

  lemma {:induction false} OrphanListed(orphans: seq<FtsRow>, issue: Issue)
    ensures issue in OrphanIssues(orphans) <==> exists row :: row in orphans && IsOrphanEntry(issue, row)
  {
    if orphans != [] {
      OrphanListed(orphans[1..], issue);
      assert IsOrphanEntry(issue, orphans[0]) <==> issue == OrphanIssue(orphans[0]);
      assert orphans == [orphans[0]] + orphans[1..];
    }
  }

  lemma {:induction false} OrphanReported(db: Db, issue: Issue)
    ensures issue in OrphanIssues(Filter(db.fts, IsOrphan(db))) <==> exists row :: ReportsOrphan(db, issue, row)
  {
    var orphans := Filter(db.fts, IsOrphan(db));
    OrphanListed(orphans, issue);
    forall row ensures row in orphans && IsOrphanEntry(issue, row) <==> ReportsOrphan(db, issue, row) {
      FilterMember(db.fts, IsOrphan(db), row);
    }
  }

  /**
   An issue is in the report exactly when it is the entry of a chunk whose index rows are not one row
   that repeats it, or the entry of an index row without a chunk.
   */
  lemma {:induction false} ReportSays(db: Db, canon: seq<FtsContent>, issue: Issue)
    requires IsCanonicalList(db, canon)
    ensures issue in IssuesFor(db, canon) <==>
              (exists c :: ReportsChunk(db, issue, c)) || (exists row :: ReportsOrphan(db, issue, row))
  {
    CanonicalIssueMember(canon, db.fts, issue);
    OrphanReported(db, issue);
    forall c ensures c in canon && Verdict(c, RowsFor(db.fts, c.Identity())) == Some(issue)
                <==> ReportsChunk(db, issue, c)
    {
      ChunkReported(db, canon, issue, c);
    }
    SortMember(CanonicalIssues(canon, db.fts) + OrphanIssues(Filter(db.fts, IsOrphan(db))), IssueLe, issue);
  }

  lemma {:induction false} SortMember<T>(s: seq<T>, le: (T, T) -> bool, x: T)
    ensures x in Sort(s, le) <==> x in s
  {
    assert x in multiset(Sort(s, le)) <==> x in multiset(s);
  }

  // Order

  /** By document key, chunk id, kind and text; of the kinds, Missing before Orphaned before Stale. */
  ghost predicate IssueNotAfter(a: Issue, b: Issue) {
    if a.documentKey != b.documentKey then a.documentKey <= b.documentKey || IsSmaller(a.documentKey, b.documentKey)
    else if a.chunkId != b.chunkId then a.chunkId <= b.chunkId || IsSmaller(a.chunkId, b.chunkId)
    else if a.kind != b.kind then a.kind == Missing || b.kind == Stale
    else a.detail <= b.detail || IsSmaller(a.detail, b.detail)
  }

  /** By document key, chunk id, rewrites first, and reason. */
  ghost predicate ActionNotAfter(a: Action, b: Action) {
    if a.documentKey != b.documentKey then a.documentKey <= b.documentKey || IsSmaller(a.documentKey, b.documentKey)
    else if a.chunkId != b.chunkId then a.chunkId <= b.chunkId || IsSmaller(a.chunkId, b.chunkId)
    else if a.kind != b.kind then a.kind == RewriteFromCanonical
    else a.reason <= b.reason || IsSmaller(a.reason, b.reason)
  }

  lemma {:induction false} IssueOrderIs(a: Issue, b: Issue)
    ensures IssueLe(a, b) <==> IssueNotAfter(a, b)
  {
    StringLeIff(a.documentKey, b.documentKey);
    StringLeIff(a.chunkId, b.chunkId);
    StringLeIff(a.detail, b.detail);
  }

  lemma {:induction false} ActionOrderIs(a: Action, b: Action)
    ensures ActionLe(a, b) <==> ActionNotAfter(a, b)
  {
    StringLeIff(a.documentKey, b.documentKey);
    StringLeIff(a.chunkId, b.chunkId);
    StringLeIff(a.reason, b.reason);
  }

  /** Reports are in this order. */
  lemma {:induction false} ReportIsOrdered(db: Db, canon: seq<FtsContent>, i: nat, j: nat)
    requires i < j < |IssuesFor(db, canon)|
    ensures IssueNotAfter(IssuesFor(db, canon)[i], IssuesFor(db, canon)[j])
  {
    IssueOrder();
    SortSorts(CanonicalIssues(canon, db.fts) + OrphanIssues(Filter(db.fts, IsOrphan(db))), IssueLe);
    IssueOrderIs(IssuesFor(db, canon)[i], IssuesFor(db, canon)[j]);
  }

  lemma {:induction false} PlanIsOrdered(issues: seq<Issue>, i: nat, j: nat)
    requires i < j < |PlanFor(issues)|
    ensures ActionNotAfter(PlanFor(issues)[i], PlanFor(issues)[j])
  {
    ActionOrder();
    SortSorts(PlanActions(issues, {}), ActionLe);
    ActionOrderIs(PlanFor(issues)[i], PlanFor(issues)[j]);
  }

  // The plan

  /** Issue `i` calls for the action: every orphan for a review, the first other issue of an identity for a rewrite. */
  predicate Calls(issues: seq<Issue>, i: nat, action: Action) {
    && i < |issues|
    && action.documentKey == issues[i].documentKey && action.chunkId == issues[i].chunkId
    && action.reason == issues[i].detail
    && if issues[i].kind == Orphaned then action.kind == ManualReviewOrphan
       else action.kind == RewriteFromCanonical && !NamedBefore(issues, i)
  }

  predicate NamedBefore(issues: seq<Issue>, i: nat)
    requires i < |issues|
  {
    exists j :: 0 <= j < i && issues[j].kind != Orphaned
                && issues[j].documentKey == issues[i].documentKey && issues[j].chunkId == issues[i].chunkId
  }

  ghost predicate Planned(issues: seq<Issue>, planned: set<ChunkIdentity>, action: Action) {
    exists i: nat :: Calls(issues, i, action)
                     && (issues[i].kind == Orphaned || ChunkIdentity(action.documentKey, action.chunkId) !in planned)
  }

  lemma {:induction false} CallsMoves(issues: seq<Issue>, i: nat, action: Action)
    requires issues != [] && i < |issues[1..]|
    ensures Calls(issues, i + 1, action) <==>
              && Calls(issues[1..], i, action)
              && (issues[0].kind == Orphaned || issues[i + 1].kind == Orphaned
                  || issues[0].Identity() != issues[i + 1].Identity())
  {
    var rest := issues[1..];
    assert rest[i] == issues[i + 1];
    if NamedBefore(rest, i) {
      var j :| 0 <= j < i && rest[j].kind != Orphaned
               && rest[j].documentKey == rest[i].documentKey && rest[j].chunkId == rest[i].chunkId;
      assert issues[j + 1] == rest[j];
    }
    if NamedBefore(issues, i + 1) {
      var j :| 0 <= j < i + 1 && issues[j].kind != Orphaned
               && issues[j].documentKey == issues[i + 1].documentKey && issues[j].chunkId == issues[i + 1].chunkId;
      assert j > 0 ==> rest[j - 1] == issues[j];
    }
  }

  lemma {:induction false} PlannedFirst(issues: seq<Issue>, planned: set<ChunkIdentity>, action: Action)
    requires issues != []
    ensures
      var first := issues[0];
      var named := if first.kind == Orphaned then planned else planned + {first.Identity()};
      Planned(issues, planned, action) <==>
        || (Calls(issues, 0, action) && (first.kind == Orphaned || first.Identity() !in planned))
        || Planned(issues[1..], named, action)
  {
    var rest, first := issues[1..], issues[0];
    var named := if first.kind == Orphaned then planned else planned + {first.Identity()};
    if Planned(rest, named, action) {
      var i: nat :| Calls(rest, i, action)
                    && (rest[i].kind == Orphaned || ChunkIdentity(action.documentKey, action.chunkId) !in named);
      CallsMoves(issues, i, action);
      var next := i + 1;
      assert Calls(issues, next, action);
    } else if Planned(issues, planned, action) {
      var i: nat :| Calls(issues, i, action)
                    && (issues[i].kind == Orphaned || ChunkIdentity(action.documentKey, action.chunkId) !in planned);
      if i > 0 {
        CallsMoves(issues, i - 1, action);
        assert Calls(rest, i - 1, action);
      }
    }
  }

  lemma {:induction false} PlanActionsSay(issues: seq<Issue>, planned: set<ChunkIdentity>, action: Action)
    ensures action in PlanActions(issues, planned) <==> Planned(issues, planned, action)
    decreases |issues|
  {
    if issues != [] {
      var first := issues[0];
      PlannedFirst(issues, planned, action);
      assert first.Identity() in planned ==> planned + {first.Identity()} == planned;
      PlanActionsSay(issues[1..], if first.kind == Orphaned then planned else planned + {first.Identity()}, action);
      assert Calls(issues, 0, action) <==> action == ActionFor(first);
    }
  }

  /** An action is planned exactly when some issue calls for it. */
  lemma {:induction false} PlanSays(issues: seq<Issue>, action: Action)
    ensures action in PlanFor(issues) <==> exists i: nat :: Calls(issues, i, action)
  {
    PlanActionsSay(issues, {}, action);
    SortMember(PlanActions(issues, {}), ActionLe, action);
    if i: nat :| Calls(issues, i, action) {
      assert Planned(issues, {}, action);
    }
  }
}
