/**
 Detection is exact, plans cover every drifted chunk once, and report, plan and apply converge:
 what is left afterwards are the orphans of the first report, in the same order.
 */
module FtsTheorems {
  import opened Wrappers
  import opened Database
  import opened Ordering
  import opened FtsDrift
  import opened FtsRepair

  lemma {:induction false} SortFilterLength<T(!new)>(s: seq<T>, p: T -> bool, le: (T, T) -> bool)
    requires TotalOrder(le)
    ensures |Filter(Sort(s, le), p)| == |Filter(s, p)|
  {
    SortFilter(s, p, le);
    assert |multiset(Sort(Filter(s, p), le))| == |multiset(Filter(s, p))|;
  }

  // The two halves of a report

  ghost predicate Reports(canon: seq<FtsContent>, fts: seq<FtsRow>, issue: Issue) {
    exists c :: c in canon && Verdict(c, RowsFor(fts, c.Identity())) == Some(issue)
  }

  lemma {:induction false} CanonicalIssueMember(canon: seq<FtsContent>, fts: seq<FtsRow>, issue: Issue)
    ensures issue in CanonicalIssues(canon, fts) <==> Reports(canon, fts, issue)
  {
    if canon != [] {
      var first, rest := canon[0], canon[1..];
      CanonicalIssueMember(rest, fts, issue);
      if Reports(rest, fts, issue) {
        var c :| c in rest && Verdict(c, RowsFor(fts, c.Identity())) == Some(issue);
        assert c in canon;
      }
      if Reports(canon, fts, issue) {
        var c :| c in canon && Verdict(c, RowsFor(fts, c.Identity())) == Some(issue);
        assert c == first || c in rest;
      }
    }
  }

  lemma {:induction false} OrphanIssuesAreOrphaned(orphans: seq<FtsRow>, issue: Issue)
    requires issue in OrphanIssues(orphans)
    ensures issue.kind == Orphaned
    ensures exists row :: row in orphans && issue.Identity() == row.content.Identity()
  {
    if issue == OrphanIssue(orphans[0]) {
      assert orphans[0] in orphans;
    } else {
      OrphanIssuesAreOrphaned(orphans[1..], issue);
      assert forall row :: row in orphans[1..] ==> row in orphans;
    }
  }

  function NotOrphaned(): Issue -> bool {
    (issue: Issue) => issue.kind != Orphaned
  }

  lemma {:induction false} CanonicalIssuesNotOrphaned(canon: seq<FtsContent>, fts: seq<FtsRow>)
    ensures forall issue :: issue in CanonicalIssues(canon, fts) ==> issue.kind != Orphaned
  {
    forall issue | issue in CanonicalIssues(canon, fts) ensures issue.kind != Orphaned {
      CanonicalIssueMember(canon, fts, issue);
      var c :| c in canon && Verdict(c, RowsFor(fts, c.Identity())) == Some(issue);
      VerdictMeaning(c, RowsFor(fts, c.Identity()));
    }
  }

  lemma {:induction false} ReportHalves(db: Db, canon: seq<FtsContent>)
    ensures Filter(IssuesFor(db, canon), IsKind(Orphaned))
         == Sort(OrphanIssues(Filter(db.fts, IsOrphan(db))), IssueLe)
    ensures Filter(IssuesFor(db, canon), NotOrphaned()) == Sort(CanonicalIssues(canon, db.fts), IssueLe)
  {
    var orphans := Filter(db.fts, IsOrphan(db));
    CanonicalIssuesNotOrphaned(canon, db.fts);
    forall issue | issue in OrphanIssues(orphans) ensures issue.kind == Orphaned {
      OrphanIssuesAreOrphaned(orphans, issue);
    }
    SplitByKind(CanonicalIssues(canon, db.fts), OrphanIssues(orphans));
  }

  lemma {:induction false} FilterSortedIssues(issues: seq<Issue>, p: Issue -> bool)
    ensures Filter(Sort(issues, IssueLe), p) == Sort(Filter(issues, p), IssueLe)
    ensures |Filter(Sort(issues, IssueLe), p)| == |Filter(issues, p)|
  {
    IssueOrder();
    SortFilter(issues, p, IssueLe);
    SortFilterLength(issues, p, IssueLe);
  }

  lemma {:induction false} FilterSortedActions(actions: seq<Action>, p: Action -> bool)
    ensures |Filter(Sort(actions, ActionLe), p)| == |Filter(actions, p)|
  {
    ActionOrder();
    SortFilterLength(actions, p, ActionLe);
  }

  lemma {:induction false} SplitByKind(found: seq<Issue>, orphaned: seq<Issue>)
    requires forall issue :: issue in found ==> issue.kind != Orphaned
    requires forall issue :: issue in orphaned ==> issue.kind == Orphaned
    ensures Filter(Sort(found + orphaned, IssueLe), IsKind(Orphaned)) == Sort(orphaned, IssueLe)
    ensures Filter(Sort(found + orphaned, IssueLe), NotOrphaned()) == Sort(found, IssueLe)
  {
    Halves(found, orphaned, IsKind(Orphaned));
    FilterSortedIssues(found + orphaned, IsKind(Orphaned));
    FilterSortedIssues(found + orphaned, NotOrphaned());
    FilterConcat(found, orphaned, NotOrphaned());
    FilterAll(found, NotOrphaned());
    FilterNone(orphaned, NotOrphaned());
    assert found + [] == found;
  }

  lemma {:induction false} Halves(a: seq<Issue>, b: seq<Issue>, p: Issue -> bool)
    requires forall x :: x in a ==> !p(x)
    requires forall x :: x in b ==> p(x)
    ensures Filter(a + b, p) == b
  {
    FilterConcat(a, b, p);
    FilterNone(a, p);
    FilterAll(b, p);
  }

  // Detection is sound and complete

  function Contents(fts: seq<FtsRow>): seq<FtsContent> {
    if fts == [] then [] else [fts[0].content] + Contents(fts[1..])
  }

  lemma {:induction false} ContentsCons(row: FtsRow, rows: seq<FtsRow>)
    ensures Contents([row] + rows) == [row.content] + Contents(rows)
  {
    assert ([row] + rows)[1..] == rows;
  }

  lemma {:induction false} ContentsCount(fts: seq<FtsRow>, x: FtsContent)
    ensures multiset(Contents(fts))[x] == multiset(Contents(RowsFor(fts, x.Identity())))[x]
  {
    if fts != [] {
      ContentsCount(fts[1..], x);
      var tail := RowsFor(fts[1..], x.Identity());
      if fts[0].content.Identity() == x.Identity() {
        ContentsCons(fts[0], tail);
        assert RowsFor(fts, x.Identity()) == [fts[0]] + tail;
      } else {
        assert RowsFor(fts, x.Identity()) == tail;
      }
    }
  }

  lemma {:induction false} ContentsMember(fts: seq<FtsRow>, row: FtsRow)
    requires row in fts
    ensures row.content in Contents(fts)
  {
    if row != fts[0] {
      ContentsMember(fts[1..], row);
    }
  }

  lemma {:induction false} UniformContents(rows: seq<FtsRow>, x: FtsContent)
    requires forall row :: row in rows ==> row.content == x
    ensures multiset(Contents(rows))[x] == |rows|
  {
    if rows != [] {
      assert forall row :: row in rows[1..] ==> row in rows;
      UniformContents(rows[1..], x);
    }
  }

  /** An index in which every canonical chunk is current and no row is an orphan. */
  ghost predicate InStep(db: Db) {
    && (forall id :: CanonicalRow(db, id).Some? ==> IsCurrent(RowsFor(db.fts, id), CanonicalRow(db, id).value))
    && (forall row :: row in db.fts ==> !IsOrphan(db)(row))
  }

  lemma {:induction false} CanonCount(db: Db, canon: seq<FtsContent>, x: FtsContent)
    requires IsCanonicalList(db, canon)
    ensures multiset(canon)[x] == if CanonicalRow(db, x.Identity()) == Some(x) then 1 else 0
  {
    if x in canon {
      var i :| 0 <= i < |canon| && canon[i] == x;
      assert canon == canon[..i] + [x] + canon[i + 1..];
      assert x !in canon[..i] && x !in canon[i + 1..];
    }
  }

  lemma {:induction false} InStepCount(db: Db, canon: seq<FtsContent>, x: FtsContent)
    requires IsCanonicalList(db, canon) && InStep(db)
    ensures multiset(Contents(db.fts))[x] == multiset(canon)[x]
  {
    CanonCount(db, canon, x);
    ContentsCount(db.fts, x);
    var id := x.Identity();
    var rows := RowsFor(db.fts, id);
    if CanonicalRow(db, id).Some? {
      ContentsCons(rows[0], rows[1..]);
      assert rows == [rows[0]] + rows[1..];
    } else if rows != [] {
      FilterMember(db.fts, HasIdentity(id), rows[0]);
      assert false;
    }
  }

  lemma {:induction false} JoinIsInStep(db: Db, canon: seq<FtsContent>)
    requires IsCanonicalList(db, canon) && multiset(Contents(db.fts)) == multiset(canon)
    ensures InStep(db)
  {
    forall row | row in db.fts ensures CanonicalRow(db, row.content.Identity()) == Some(row.content) {
      ContentsMember(db.fts, row);
      assert row.content in multiset(canon);
    }
    forall id | CanonicalRow(db, id).Some?
      ensures IsCurrent(RowsFor(db.fts, id), CanonicalRow(db, id).value)
    {
      var c, rows := CanonicalRow(db, id).value, RowsFor(db.fts, id);
      forall row | row in rows ensures row.content == c {
        FilterMember(db.fts, HasIdentity(id), row);
      }
      UniformContents(rows, c);
      ContentsCount(db.fts, c);
      CanonCount(db, canon, c);
    }
  }

  lemma {:induction false} InStepIff(db: Db, canon: seq<FtsContent>)
    requires IsCanonicalList(db, canon)
    ensures InStep(db) <==> multiset(Contents(db.fts)) == multiset(canon)
  {
    if InStep(db) {
      forall x ensures multiset(Contents(db.fts))[x] == multiset(canon)[x] {
        InStepCount(db, canon, x);
      }
    }
    if multiset(Contents(db.fts)) == multiset(canon) {
      JoinIsInStep(db, canon);
    }
  }

  lemma {:induction false} NoCanonicalIssuesIff(canon: seq<FtsContent>, fts: seq<FtsRow>)
    ensures CanonicalIssues(canon, fts) == [] <==> forall c :: c in canon ==> IsCurrent(RowsFor(fts, c.Identity()), c)
  {
    if CanonicalIssues(canon, fts) == [] {
      forall c | c in canon ensures IsCurrent(RowsFor(fts, c.Identity()), c) {
        VerdictMeaning(c, RowsFor(fts, c.Identity()));
        if Verdict(c, RowsFor(fts, c.Identity())).Some? {
          CanonicalIssueMember(canon, fts, Verdict(c, RowsFor(fts, c.Identity())).value);
        }
      }
    } else {
      var issue := CanonicalIssues(canon, fts)[0];
      CanonicalIssueMember(canon, fts, issue);
      var c :| c in canon && Verdict(c, RowsFor(fts, c.Identity())) == Some(issue);
      VerdictMeaning(c, RowsFor(fts, c.Identity()));
    }
  }

  lemma {:induction false} NoOrphansIff(db: Db)
    ensures OrphanIssues(Filter(db.fts, IsOrphan(db))) == [] <==> forall row :: row in db.fts ==> !IsOrphan(db)(row)
  {
    var orphans := Filter(db.fts, IsOrphan(db));
    if orphans == [] {
      forall row | row in db.fts ensures !IsOrphan(db)(row) {
        FilterMember(db.fts, IsOrphan(db), row);
      }
    } else {
      FilterMember(db.fts, IsOrphan(db), orphans[0]);
    }
  }

  lemma {:induction false} NoIssuesIffInStep(db: Db, canon: seq<FtsContent>)
    requires IsCanonicalList(db, canon)
    ensures (CanonicalIssues(canon, db.fts) == [] && OrphanIssues(Filter(db.fts, IsOrphan(db))) == []) <==> InStep(db)
  {
    NoCanonicalIssuesIff(canon, db.fts);
    NoOrphansIff(db);
    forall id | CanonicalRow(db, id).Some? ensures CanonicalRow(db, id).value in canon {
      assert CanonicalRow(db, id).value.Identity() == id;
    }
    forall c | c in canon ensures CanonicalRow(db, c.Identity()) == Some(c) {
    }
  }

  /** The report is empty exactly when the index, as a multiset of rows, is the canonical join. */
  lemma {:induction false} ReportEmptyIffIndexIsJoin(db: Db, canon: seq<FtsContent>)
    requires IsCanonicalList(db, canon)
    ensures IssuesFor(db, canon) == [] <==> multiset(Contents(db.fts)) == multiset(canon)
  {
    var found, orphaned := CanonicalIssues(canon, db.fts), OrphanIssues(Filter(db.fts, IsOrphan(db)));
    NoIssuesIffInStep(db, canon);
    InStepIff(db, canon);
    EmptySort(found + orphaned);
  }

  lemma {:induction false} EmptySort(issues: seq<Issue>)
    ensures Sort(issues, IssueLe) == [] <==> issues == []
  {
    assert |multiset(Sort(issues, IssueLe))| == |multiset(issues)|;
  }

  lemma {:induction false} OrphanIssuesLength(orphans: seq<FtsRow>)
    ensures |OrphanIssues(orphans)| == |orphans|
  {
    if orphans != [] {
      OrphanIssuesLength(orphans[1..]);
    }
  }

  function About(id: ChunkIdentity): Issue -> bool {
    (issue: Issue) => issue.Identity() == id
  }

  /** One issue per orphan row, and at most one Missing or Stale issue per canonical chunk. */
  lemma {:induction false} ReportCounts(db: Db, canon: seq<FtsContent>, id: ChunkIdentity)
    requires IsCanonicalList(db, canon)
    ensures |Filter(IssuesFor(db, canon), IsKind(Orphaned))| == |Filter(db.fts, IsOrphan(db))|
    ensures |Filter(Filter(IssuesFor(db, canon), NotOrphaned()), About(id))|
         == if CanonicalRow(db, id).Some? && !IsCurrent(RowsFor(db.fts, id), CanonicalRow(db, id).value) then 1 else 0
  {
    ReportHalves(db, canon);
    OrphanIssuesLength(Filter(db.fts, IsOrphan(db)));
    assert |multiset(Sort(OrphanIssues(Filter(db.fts, IsOrphan(db))), IssueLe))|
        == |multiset(OrphanIssues(Filter(db.fts, IsOrphan(db))))|;
    FilterSortedIssues(CanonicalIssues(canon, db.fts), About(id));
    CanonicalIssuesMeaning(canon, db.fts, id);
    FilterSame(CanonicalIssues(canon, db.fts), About(id), (issue: Issue) => issue.Identity() == id);
    forall c | c in canon && c.Identity() == id
      ensures CanonicalRow(db, id) == Some(c)
      ensures Verdict(c, RowsFor(db.fts, id)).Some? <==> !IsCurrent(RowsFor(db.fts, id), c)
    {
      VerdictMeaning(c, RowsFor(db.fts, id));
    }
    if CanonicalRow(db, id).Some? {
      assert CanonicalRow(db, id).value in canon;
    }
  }

  // The planner, on any report

  function RewriteOf(id: ChunkIdentity): Action -> bool {
    (action: Action) => action.kind == RewriteFromCanonical && action.Identity() == id
  }

  ghost predicate Names(issues: seq<Issue>, id: ChunkIdentity) {
    exists issue :: issue in issues && issue.kind != Orphaned && issue.Identity() == id
  }

  lemma {:induction false} NamesCons(issues: seq<Issue>, id: ChunkIdentity)
    requires issues != []
    ensures Names(issues, id)
       <==> (issues[0].kind != Orphaned && issues[0].Identity() == id) || Names(issues[1..], id)
  {
    if Names(issues[1..], id) {
      var issue :| issue in issues[1..] && issue.kind != Orphaned && issue.Identity() == id;
      assert issue in issues;
    }
  }

  /** Each identity named by a Missing or Stale issue gets one rewrite; each orphan issue one review. */
  lemma {:induction false} PlanMeaning(issues: seq<Issue>, planned: set<ChunkIdentity>, id: ChunkIdentity)
    ensures |Filter(PlanActions(issues, planned), RewriteOf(id))| == if Names(issues, id) && id !in planned then 1 else 0
    ensures |Filter(PlanActions(issues, planned), IsActionKind(ManualReviewOrphan))|
         == |Filter(issues, IsKind(Orphaned))|
    decreases |issues|
  {
    if issues != [] {
      NamesCons(issues, id);
      if issues[0].kind == Orphaned || issues[0].Identity() in planned {
        PlanMeaning(issues[1..], planned, id);
      } else {
        PlanMeaning(issues[1..], planned + {issues[0].Identity()}, id);
      }
    }
  }

  lemma {:induction false} PlannedRewrites(issues: seq<Issue>, id: ChunkIdentity)
    ensures Rewrites(PlanFor(issues), id) <==> Names(issues, id)
    ensures |Filter(PlanFor(issues), RewriteOf(id))| <= 1
    ensures |Filter(PlanFor(issues), IsActionKind(ManualReviewOrphan))| == |Filter(issues, IsKind(Orphaned))|
  {
    PlanMeaning(issues, {}, id);
    FilterSortedActions(PlanActions(issues, {}), RewriteOf(id));
    FilterSortedActions(PlanActions(issues, {}), IsActionKind(ManualReviewOrphan));
    var plan := PlanFor(issues);
    if Rewrites(plan, id) {
      var a :| a in plan && a.kind == RewriteFromCanonical && a.Identity() == id;
      FilterMember(plan, RewriteOf(id), a);
    }
    if Names(issues, id) {
      var a := Filter(plan, RewriteOf(id))[0];
      FilterMember(plan, RewriteOf(id), a);
    }
  }

  lemma {:induction false} PlanIsDistinct(issues: seq<Issue>)
    ensures DistinctRewrites(PlanFor(issues))
  {
    var plan := PlanFor(issues);
    forall i, j | 0 <= i < j < |plan| && plan[i].kind == plan[j].kind == RewriteFromCanonical
      ensures plan[i].Identity() != plan[j].Identity()
    {
      if plan[i].Identity() == plan[j].Identity() {
        PlannedRewrites(issues, plan[i].Identity());
        FilterTwo(plan, RewriteOf(plan[i].Identity()), i, j);
      }
    }
  }

  // Report, plan and apply

  ghost predicate Drifted(db: Db, id: ChunkIdentity) {
    CanonicalRow(db, id).Some? && !IsCurrent(RowsFor(db.fts, id), CanonicalRow(db, id).value)
  }

  lemma {:induction false} ReportNamesDrifted(db: Db, canon: seq<FtsContent>, id: ChunkIdentity)
    requires IsCanonicalList(db, canon)
    ensures Names(IssuesFor(db, canon), id) <==> Drifted(db, id)
  {
    ReportCounts(db, canon, id);
    var issues := IssuesFor(db, canon);
    var found := Filter(Filter(issues, NotOrphaned()), About(id));
    if Names(issues, id) {
      var issue :| issue in issues && issue.kind != Orphaned && issue.Identity() == id;
      FilterMember(issues, NotOrphaned(), issue);
      FilterMember(Filter(issues, NotOrphaned()), About(id), issue);
    }
    if Drifted(db, id) {
      FilterMember(Filter(issues, NotOrphaned()), About(id), found[0]);
      FilterMember(issues, NotOrphaned(), found[0]);
    }
  }

  lemma {:induction false} FreshPlanRewritesDrifted(db: Db, canon: seq<FtsContent>, id: ChunkIdentity)
    requires IsCanonicalList(db, canon)
    ensures Rewrites(PlanFor(IssuesFor(db, canon)), id) <==> Drifted(db, id)
  {
    PlannedRewrites(IssuesFor(db, canon), id);
    ReportNamesDrifted(db, canon, id);
  }

  /** A fresh plan always goes through, skips nothing, and then the index is current everywhere. */
  lemma {:induction false} FreshPlanApplies(db: Db, canon: seq<FtsContent>)
    requires IsCanonicalList(db, canon)
    ensures ApplyPlan(db, PlanFor(IssuesFor(db, canon))).Ok?
    ensures
      var after := ApplyPlan(db, PlanFor(IssuesFor(db, canon))).value;
      && after.counts.skipped == 0
      && Filter(after.fts, IsOrphan(db)) == Filter(db.fts, IsOrphan(db))
      && forall id :: CanonicalRow(db, id).Some? ==> IsCurrent(RowsFor(after.fts, id), CanonicalRow(db, id).value)
  {
    var plan := PlanFor(IssuesFor(db, canon));
    PlanIsDistinct(IssuesFor(db, canon));
    forall a | a in plan && a.kind == RewriteFromCanonical ensures Drifted(db, a.Identity()) {
      assert Rewrites(plan, a.Identity());
      FreshPlanRewritesDrifted(db, canon, a.Identity());
    }
    AllDrifted(db, db.fts, plan, Counts(0, 0, 0));
    var after := ApplyPlan(db, plan).value;
    ApplyMeaning(db, db.fts, plan, Counts(0, 0, 0), ChunkIdentity("", ""));
    forall id | CanonicalRow(db, id).Some?
      ensures IsCurrent(RowsFor(after.fts, id), CanonicalRow(db, id).value)
    {
      ApplyMeaning(db, db.fts, plan, Counts(0, 0, 0), id);
      FreshPlanRewritesDrifted(db, canon, id);
    }
  }

  lemma {:induction false} SameJoin(db: Db, fts: seq<FtsRow>, canon: seq<FtsContent>)
    ensures forall id :: CanonicalRow(db.(fts := fts), id) == CanonicalRow(db, id)
    ensures IsCanonicalList(db.(fts := fts), canon) <==> IsCanonicalList(db, canon)
    ensures Filter(fts, IsOrphan(db.(fts := fts))) == Filter(fts, IsOrphan(db))
  {
    forall id ensures CanonicalRow(db.(fts := fts), id) == CanonicalRow(db, id) {
    }
    FilterSame(fts, IsOrphan(db.(fts := fts)), IsOrphan(db));
  }

  /** Reporting again after a fresh repair gives exactly the Orphaned issues of the first report, in order. */
  lemma {:induction false} RepairConverges(db: Db, canon: seq<FtsContent>, canon': seq<FtsContent>)
    requires IsCanonicalList(db, canon) && IsCanonicalList(db, canon')
    requires ApplyPlan(db, PlanFor(IssuesFor(db, canon))).Ok?
    ensures
      var db' := db.(fts := ApplyPlan(db, PlanFor(IssuesFor(db, canon))).value.fts);
      IssuesFor(db', canon') == Filter(IssuesFor(db, canon), IsKind(Orphaned))
  {
    var fts' := ApplyPlan(db, PlanFor(IssuesFor(db, canon))).value.fts;
    FreshPlanApplies(db, canon);
    SameJoin(db, fts', canon');
    NoCanonicalIssuesIff(canon', fts');
    ReportHalves(db, canon);
    var orphaned := OrphanIssues(Filter(fts', IsOrphan(db)));
    assert CanonicalIssues(canon', fts') + orphaned == orphaned;
  }

  lemma {:induction false} PlanIsCurrentAfterwards(db: Db, canon: seq<FtsContent>, db': Db)
    requires IsCanonicalList(db, canon)
    requires var r := ApplyPlan(db, PlanFor(IssuesFor(db, canon))); r.Ok? && db' == db.(fts := r.value.fts)
    ensures forall a :: a in PlanFor(IssuesFor(db, canon)) && a.kind == RewriteFromCanonical ==>
              && CanonicalRow(db', a.Identity()).Some?
              && IsCurrent(RowsFor(db'.fts, a.Identity()), CanonicalRow(db', a.Identity()).value)
  {
    var plan := PlanFor(IssuesFor(db, canon));
    FreshPlanApplies(db, canon);
    SameJoin(db, db'.fts, canon);
    forall a | a in plan && a.kind == RewriteFromCanonical
      ensures CanonicalRow(db, a.Identity()).Some?
    {
      assert Rewrites(plan, a.Identity());
      FreshPlanRewritesDrifted(db, canon, a.Identity());
    }
  }

  lemma {:induction false} ApplyCounts(db: Db, plan: seq<Action>)
    requires ApplyPlan(db, plan).Ok?
    ensures
      var counts := ApplyPlan(db, plan).value.counts;
      && counts.rewritten + counts.skipped == |Filter(plan, IsActionKind(RewriteFromCanonical))|
      && counts.manualReview == |Filter(plan, IsActionKind(ManualReviewOrphan))|
  {
    ApplyMeaning(db, db.fts, plan, Counts(0, 0, 0), ChunkIdentity("", ""));
  }

  lemma {:induction false} SecondApply(db: Db, plan: seq<Action>)
    requires forall a :: a in plan && a.kind == RewriteFromCanonical ==>
               && CanonicalRow(db, a.Identity()).Some?
               && IsCurrent(RowsFor(db.fts, a.Identity()), CanonicalRow(db, a.Identity()).value)
    ensures ApplyPlan(db, plan) == Ok(Applied(db.fts, Counts(
              0, |Filter(plan, IsActionKind(RewriteFromCanonical))|, |Filter(plan, IsActionKind(ManualReviewOrphan))|)))
  {
    AllCurrent(db, db.fts, plan, Counts(0, 0, 0));
    ApplyCounts(db, plan);
  }

  lemma {:induction false} FirstCounts(db: Db, canon: seq<FtsContent>)
    requires IsCanonicalList(db, canon)
    requires ApplyPlan(db, PlanFor(IssuesFor(db, canon))).Ok?
    ensures
      var plan := PlanFor(IssuesFor(db, canon));
      ApplyPlan(db, plan).value.counts == Counts(
        |Filter(plan, IsActionKind(RewriteFromCanonical))|, 0, |Filter(plan, IsActionKind(ManualReviewOrphan))|)
  {
    FreshPlanApplies(db, canon);
    ApplyCounts(db, PlanFor(IssuesFor(db, canon)));
  }

  /** Applying the same plan a second time rewrites nothing and leaves the index as it is. */
  lemma {:induction false} RepairIsIdempotent(db: Db, canon: seq<FtsContent>, db': Db)
    requires IsCanonicalList(db, canon)
    requires var r := ApplyPlan(db, PlanFor(IssuesFor(db, canon))); r.Ok? && db' == db.(fts := r.value.fts)
    ensures
      var plan := PlanFor(IssuesFor(db, canon));
      var counts := ApplyPlan(db, plan).value.counts;
      ApplyPlan(db', plan) == Ok(Applied(db'.fts, Counts(0, counts.rewritten, counts.manualReview)))
  {
    PlanIsCurrentAfterwards(db, canon, db');
    SecondApply(db', PlanFor(IssuesFor(db, canon)));
    FirstCounts(db, canon);
  }

  // The numbers shown to the operator

  ghost predicate DistinctNames(issues: seq<Issue>) {
    forall i, j :: 0 <= i < j < |issues| && issues[i].kind != Orphaned && issues[j].kind != Orphaned ==>
      issues[i].Identity() != issues[j].Identity()
  }

  lemma {:induction false} NothingDropped(issues: seq<Issue>, planned: set<ChunkIdentity>)
    requires DistinctNames(issues)
    requires forall id :: Names(issues, id) ==> id !in planned
    ensures |PlanActions(issues, planned)| == |issues|
    decreases |issues|
  {
    if issues != [] {
      var first, rest := issues[0], issues[1..];
      assert DistinctNames(rest) by {
        forall i, j | 0 <= i < j < |rest| && rest[i].kind != Orphaned && rest[j].kind != Orphaned
          ensures rest[i].Identity() != rest[j].Identity()
        {
          assert rest[i] == issues[i + 1] && rest[j] == issues[j + 1];
        }
      }
      forall id | Names(rest, id) ensures id !in planned && (first.kind != Orphaned ==> id != first.Identity()) {
        NamesCons(issues, id);
        var issue :| issue in rest && issue.kind != Orphaned && issue.Identity() == id;
        var j :| 0 <= j < |rest| && rest[j] == issue;
        assert issues[j + 1] == issue;
      }
      NamesCons(issues, first.Identity());
      NothingDropped(rest, if first.kind == Orphaned then planned else planned + {first.Identity()});
    }
  }

  lemma {:induction false} ReportIsDistinct(db: Db, canon: seq<FtsContent>)
    requires IsCanonicalList(db, canon)
    ensures DistinctNames(IssuesFor(db, canon))
  {
    var issues := IssuesFor(db, canon);
    forall i, j | 0 <= i < j < |issues| && issues[i].kind != Orphaned && issues[j].kind != Orphaned
      ensures issues[i].Identity() != issues[j].Identity()
    {
      if issues[i].Identity() == issues[j].Identity() {
        var id := issues[i].Identity();
        ReportCounts(db, canon, id);
        var both := (issue: Issue) => issue.kind != Orphaned && issue.Identity() == id;
        FilterTwo(issues, both, i, j);
        FilterTwice(issues, NotOrphaned(), About(id), both);
      }
    }
  }

  lemma {:induction false} FilterTwice(
    s: seq<Issue>, p: Issue -> bool, q: Issue -> bool, both: Issue -> bool)
    requires forall x :: both(x) == (p(x) && q(x))
    ensures Filter(Filter(s, p), q) == Filter(s, both)
  {
    if s != [] {
      FilterTwice(s[1..], p, q, both);
      FilterConcat(if p(s[0]) then [s[0]] else [], Filter(s[1..], p), q);
      assert Filter([s[0]], q) == (if q(s[0]) then [s[0]] else []) + Filter([s[0]][1..], q);
    }
  }

  lemma {:induction false} KindsPartition(actions: seq<Action>)
    ensures |actions| == |Filter(actions, IsActionKind(RewriteFromCanonical))|
                         + |Filter(actions, IsActionKind(ManualReviewOrphan))|
  {
    if actions != [] {
      KindsPartition(actions[1..]);
    }
  }

  /** On a fresh plan every issue is accounted for: rewritten or left for review, and none skipped. */
  lemma {:induction false} CountsAddUp(db: Db, canon: seq<FtsContent>)
    requires IsCanonicalList(db, canon)
    requires ApplyPlan(db, PlanFor(IssuesFor(db, canon))).Ok?
    ensures
      var issues := IssuesFor(db, canon);
      var counts := ApplyPlan(db, PlanFor(issues)).value.counts;
      && counts.skipped == 0
      && counts.manualReview == |Filter(db.fts, IsOrphan(db))|
      && counts.rewritten + counts.manualReview == |issues|
  {
    var issues := IssuesFor(db, canon);
    var plan := PlanFor(issues);
    FirstCounts(db, canon);
    ReportIsDistinct(db, canon);
    NothingDropped(issues, {});
    assert |multiset(plan)| == |multiset(PlanActions(issues, {}))|;
    KindsPartition(plan);
    PlannedRewrites(issues, ChunkIdentity("", ""));
    ReportCounts(db, canon, ChunkIdentity("", ""));
  }
}
