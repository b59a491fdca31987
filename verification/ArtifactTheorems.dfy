/**
 Reports, plans and repairs of derived files together: a report finds exactly what differs, a fresh
 plan is accepted and does each rewrite once, what remains afterwards are the orphans of the first
 report, and every state a crash can leave is again repairable.
 */
module ArtifactTheorems {
  import opened ArtifactApply
  import opened ArtifactRepair
  import opened ArtifactReport
  import opened FileCompare
  import opened Ordering
  import opened Wrappers
  import Decimal

  /** Page numbers as the tables keep them: positive, distinct, and within 32 bits. */
  predicate Numbered(pages: seq<Page>) {
    && (forall i :: 0 <= i < |pages| ==> 0 < pages[i].number <= Decimal.U32_MAX)
    && (forall i, j :: 0 <= i < j < |pages| ==> pages[i].number != pages[j].number)
  }

  // Reports

  lemma {:induction false} ReportUnique(tree: Tree, key: string, pages: seq<Page>, a: seq<Issue>, b: seq<Issue>)
    requires IsReport(tree, key, pages, a) && IsReport(tree, key, pages, b)
    ensures a == b
  {
    IssueOrder();
    SortedUnique(a, b, IssueLe);
  }

  lemma {:induction false} VerdictMember(tree: Tree, targets: seq<Target>, issue: Issue)
    ensures issue in Verdicts(tree, targets) <==> exists t :: t in targets && Verdict(tree, t) == Some(issue)
  {
    if targets != [] {
      VerdictMember(tree, targets[1..], issue);
      if Verdict(tree, targets[0]) == Some(issue) {
        assert targets[0] in targets;
      }
      forall t | t in targets && Verdict(tree, t) == Some(issue)
        ensures t == targets[0] || t in targets[1..]
      {
      }
    }
  }

  /** An issue is listed exactly when a target has drifted in that way or an entry is an orphan. */
  lemma {:induction false} ReportMeaning(tree: Tree, key: string, pages: seq<Page>, issues: seq<Issue>, issue: Issue)
    requires IsReport(tree, key, pages, issues)
    ensures issue in issues <==>
              || (exists t :: t in Targets(key, pages) && Verdict(tree, t) == Some(issue))
              || OrphanVerdict(tree, key, pages, issue.path) == Some(issue)
  {
    VerdictMember(tree, Targets(key, pages), issue);
    assert issue in issues <==> issue in multiset(issues);
    assert issue in OrphansAmong(tree.Keys, tree, key, pages)
      <==> OrphanVerdict(tree, key, pages, issue.path) == Some(issue);
  }

  function IsOrphanIssue(): Issue -> bool {
    (issue: Issue) => issue.issue == Orphaned
  }

  /** What a process plans for a report. */
  function FreshGoal(
    tree: Tree, key: string, pages: seq<Page>, issues: seq<Issue>, processId: nat, from: nat): Goal {
    Goal(tree, key, pages, PlanFor(issues), processId, from)
  }

  /** The orphans that no temporary file of the repair takes the name of. */
  ghost function IsKept(goal: Goal): Issue -> bool {
    (issue: Issue) => issue.issue == Orphaned && !UsedTemp(goal, |goal.actions|, issue.path)
  }

  lemma {:induction false} CurrentHasNoVerdicts(tree: Tree, targets: seq<Target>)
    requires forall t :: t in targets ==> Current(tree, t)
    ensures Verdicts(tree, targets) == []
  {
    if targets != [] {
      assert targets[0] in targets && forall t :: t in targets[1..] ==> t in targets;
      CurrentHasNoVerdicts(tree, targets[1..]);
    }
  }

  lemma {:induction false} KeptCount(goal: Goal, issues: seq<Issue>, issue: Issue)
    requires IsReport(goal.tree, goal.key, goal.pages, issues)
    ensures multiset(Filter(issues, IsKept(goal)))[issue]
         == if IsKept(goal)(issue) && OrphanVerdict(goal.tree, goal.key, goal.pages, issue.path) == Some(issue)
            then 1 else 0
  {
    var orphans := OrphansAmong(goal.tree.Keys, goal.tree, goal.key, goal.pages);
    FilterCount(issues, IsKept(goal), issue);
    VerdictMember(goal.tree, Targets(goal.key, goal.pages), issue);
    assert multiset(issues)[issue]
        == multiset(Verdicts(goal.tree, Targets(goal.key, goal.pages)))[issue] + multiset(orphans)[issue];
    if issue.issue == Orphaned {
      assert issue !in Verdicts(goal.tree, Targets(goal.key, goal.pages));
    }
  }

  /** The kept orphans, in order, are the next report when every target is current and no other orphan went or came. */
  lemma {:induction false} KeptAreReport(goal: Goal, tree': Tree, issues: seq<Issue>)
    requires IsReport(goal.tree, goal.key, goal.pages, issues)
    requires forall t :: t in Targets(goal.key, goal.pages) ==> Current(tree', t)
    requires forall path :: OrphanVerdict(tree', goal.key, goal.pages, path) == OrphanAfter(goal, path)
    ensures IsReport(tree', goal.key, goal.pages, Filter(issues, IsKept(goal)))
  {
    var kept := Filter(issues, IsKept(goal));
    var orphans := OrphansAmong(tree'.Keys, tree', goal.key, goal.pages);
    CurrentHasNoVerdicts(tree', Targets(goal.key, goal.pages));
    FilterSorted(issues, IsKept(goal), IssueLe);
    forall issue ensures multiset(kept)[issue] == multiset(orphans)[issue] {
      KeptCount(goal, issues, issue);
      assert issue in orphans <==> OrphanVerdict(tree', goal.key, goal.pages, issue.path) == Some(issue);
      assert OrphanVerdict(tree', goal.key, goal.pages, issue.path) == OrphanAfter(goal, issue.path);
    }
    assert multiset(kept) == multiset(orphans);
  }

  ghost function OrphanAfter(goal: Goal, path: Path): Option<Issue> {
    if UsedTemp(goal, |goal.actions|, path) then None else OrphanVerdict(goal.tree, goal.key, goal.pages, path)
  }

  // Targets and the actions for them

  lemma {:induction false} PageByNumberFinds(pages: seq<Page>, i: nat)
    requires Numbered(pages) && i < |pages|
    ensures PageByNumber(pages, pages[i].number) == Some(pages[i])
  {
    if i > 0 {
      assert pages[0].number != pages[i].number;
      assert pages[1..][i - 1] == pages[i];
      PageByNumberFinds(pages[1..], i - 1);
    }
  }

  lemma {:induction false} PageTargetMember(key: string, pages: seq<Page>, t: Target) returns (i: nat)
    requires t in PageTargets(key, pages)
    ensures i < |pages| && t in TargetsOf(key, pages[i])
  {
    if t in TargetsOf(key, pages[0]) {
      i := 0;
    } else {
      var j := PageTargetMember(key, pages[1..], t);
      i := j + 1;
    }
  }

  /** What the detector expects is what the applier writes. */
  lemma {:induction false} TargetIsExpected(key: string, pages: seq<Page>, t: Target)
    requires Numbered(pages) && t in Targets(key, pages)
    ensures ExpectedPath(key, t.kind, t.pageNumber) == Some(t.path)
    ensures ExpectedBytes(pages, t.kind, t.pageNumber) == Some(t.content)
  {
    if t in PageTargets(key, pages) {
      var i := PageTargetMember(key, pages, t);
      PageByNumberFinds(pages, i);
    } else {
      assert t == DocumentTarget(key, pages);
    }
  }

  lemma {:induction false} ActionsForMember(issues: seq<Issue>, action: Action)
    ensures action in ActionsFor(issues) <==> exists issue :: issue in issues && ActionFor(issue) == action
  {
    if issues != [] {
      ActionsForMember(issues[1..], action);
      if ActionFor(issues[0]) == action {
        assert issues[0] in issues;
      }
    }
  }

  lemma {:induction false} PlanMember(issues: seq<Issue>, action: Action)
    ensures action in PlanFor(issues) <==> exists issue :: issue in issues && ActionFor(issue) == action
  {
    ActionsForMember(issues, action);
    assert action in PlanFor(issues) <==> action in multiset(PlanFor(issues));
  }

  lemma {:induction false} DriftHasTarget(
    tree: Tree, key: string, pages: seq<Page>, issues: seq<Issue>, issue: Issue) returns (t: Target)
    requires IsReport(tree, key, pages, issues) && issue in issues && issue.issue != Orphaned
    ensures t in Targets(key, pages) && Verdict(tree, t) == Some(issue)
  {
    ReportMeaning(tree, key, pages, issues, issue);
    t :| t in Targets(key, pages) && Verdict(tree, t) == Some(issue);
  }

  /** A rewrite is planned for exactly the drifted targets. */
  lemma {:induction false} RewriteHasTarget(
    tree: Tree, key: string, pages: seq<Page>, issues: seq<Issue>, action: Action) returns (t: Target)
    requires Numbered(pages) && IsReport(tree, key, pages, issues) && action in PlanFor(issues) && action.Rewrite?
    ensures t in Targets(key, pages) && t.path == action.path && !Current(tree, t)
    ensures Planned(key, pages, action) == Some(t.content)
  {
    PlanMember(issues, action);
    var issue :| issue in issues && ActionFor(issue) == action;
    t := DriftHasTarget(tree, key, pages, issues, issue);
    TargetIsExpected(key, pages, t);
  }

  lemma {:induction false} PlannedIsRewritten(goal: Goal, action: Action)
    requires action in goal.actions && Planned(goal.key, goal.pages, action).Some?
    ensures Rewritten(goal, |goal.actions|, action.path)
  {
    var i :| 0 <= i < |goal.actions| && goal.actions[i] == action;
  }

  lemma {:induction false} DriftIsPlanned(
    tree: Tree, key: string, pages: seq<Page>, issues: seq<Issue>, t: Target)
    requires IsReport(tree, key, pages, issues) && t in Targets(key, pages) && !Current(tree, t)
    ensures ActionFor(Verdict(tree, t).value) in PlanFor(issues)
  {
    ReportMeaning(tree, key, pages, issues, Verdict(tree, t).value);
    PlanMember(issues, ActionFor(Verdict(tree, t).value));
  }

  lemma {:induction false} DriftedIsPlanned(
    tree: Tree, key: string, pages: seq<Page>, issues: seq<Issue>, t: Target) returns (action: Action)
    requires Numbered(pages) && IsReport(tree, key, pages, issues)
    requires t in Targets(key, pages) && !Current(tree, t)
    ensures action in PlanFor(issues) && action.path == t.path && Planned(key, pages, action) == Some(t.content)
  {
    var issue := Verdict(tree, t).value;
    action := ActionFor(issue);
    DriftIsPlanned(tree, key, pages, issues, t);
    TargetIsExpected(key, pages, t);
  }

  lemma {:induction false} DriftedIsRewritten(goal: Goal, issues: seq<Issue>, t: Target)
    requires IsFresh(goal, issues) && t in Targets(goal.key, goal.pages) && !Current(goal.tree, t)
    ensures Rewritten(goal, |goal.actions|, t.path)
  {
    var action := DriftedIsPlanned(goal.tree, goal.key, goal.pages, issues, t);
    PlannedIsRewritten(goal, action);
  }

  // Convergence

  lemma {:induction false} RewrittenIsCurrent(goal: Goal, tree: Tree, t: Target)
    requires IsNew(goal, tree, t.path)
    requires ExpectedPath(goal.key, t.kind, t.pageNumber) == Some(t.path)
    requires ExpectedBytes(goal.pages, t.kind, t.pageNumber) == Some(t.content)
    ensures Current(tree, t)
  {
    var kind, number := WantedPath(goal, t.path, tree[t.path].content);
    PathDetermines(goal.key, kind, number, t.kind, t.pageNumber);
  }

  /** The plan is the one for a report on the files. */
  ghost predicate IsFresh(goal: Goal, issues: seq<Issue>) {
    && Numbered(goal.pages) && IsReport(goal.tree, goal.key, goal.pages, issues)
    && goal.actions == PlanFor(issues)
  }

  lemma {:induction false} TargetsBecomeCurrent(goal: Goal, tree': Tree, issues: seq<Issue>, t: Target)
    requires IsFresh(goal, issues) && Progress(goal, tree', |goal.actions|) && t in Targets(goal.key, goal.pages)
    ensures Current(tree', t)
  {
    TargetIsExpected(goal.key, goal.pages, t);
    assert ProgressAt(goal, tree', |goal.actions|, t.path);
    if Rewritten(goal, |goal.actions|, t.path) {
      RewrittenIsCurrent(goal, tree', t);
    } else {
      if !Current(goal.tree, t) {
        DriftedIsRewritten(goal, issues, t);
      }
      TempIsNoTarget(goal.key, t.kind, t.pageNumber);
      if UsedTemp(goal, |goal.actions|, t.path) {
        UsedTempOwn(goal, |goal.actions|, t.path);
      }
    }
  }

  /** Expected files are never orphans. */
  lemma {:induction false} TargetIsNoOrphan(tree: Tree, key: string, pages: seq<Page>, t: Target)
    requires Numbered(pages) && t in Targets(key, pages)
    ensures OrphanVerdict(tree, key, pages, t.path).None?
  {
    DirsDiffer(key);
    if t in PageTargets(key, pages) {
      var i := PageTargetMember(key, pages, t);
      var kind := t.kind;
      assert t.path[..3] == PageDir(kind, key) && t.path[3] == FileName(pages[i].number);
      assert pages[i].number in ExpectedNumbers(kind, pages);
      ParseFileName(pages[i].number);
      if t.path in tree {
        EntryIsOrphan(tree, kind, key, pages, t.path);
      }
    } else {
      assert t == DocumentTarget(key, pages);
    }
  }

  lemma {:induction false} ParentIsNoOrphan(
    tree: Tree, key: string, pages: seq<Page>, path: Path, kind: ArtifactKind, number: Option<nat>)
    requires ExpectedPath(key, kind, number).Some? && ProperPrefix(path, ExpectedPath(key, kind, number).value)
    ensures OrphanVerdict(tree, key, pages, path).None?
  {
    DirsDiffer(key);
    var target := ExpectedPath(key, kind, number).value;
    assert |path| >= 2 ==> path[1] == target[1];
    assert |path| < 4;
  }

  lemma {:induction false} RewrittenIsNoOrphan(goal: Goal, tree: Tree, issues: seq<Issue>, path: Path)
    requires IsFresh(goal, issues) && Rewritten(goal, |goal.actions|, path)
    ensures OrphanVerdict(tree, goal.key, goal.pages, path).None?
  {
    var i := RewrittenBy(goal, |goal.actions|, path);
    var t := RewriteHasTarget(goal.tree, goal.key, goal.pages, issues, goal.actions[i]);
    TargetIsNoOrphan(tree, goal.key, goal.pages, t);
  }

  lemma {:induction false} NewParentIsNoOrphan(goal: Goal, tree: Tree, path: Path)
    requires IsNewParent(goal, tree, path)
    ensures OrphanVerdict(tree, goal.key, goal.pages, path).None?
  {
    var q :| Wanted(goal, q) && ProperPrefix(path, q);
    var content :| Wants(goal, q, content);
    var kind, number := WantedPath(goal, q, content);
    ParentIsNoOrphan(tree, goal.key, goal.pages, path, kind, number);
  }

  lemma {:induction false} OrphanMoves(goal: Goal, tree': Tree, issues: seq<Issue>, path: Path)
    requires IsFresh(goal, issues) && Progress(goal, tree', |goal.actions|)
    ensures OrphanVerdict(tree', goal.key, goal.pages, path) == OrphanAfter(goal, path)
  {
    assert ProgressAt(goal, tree', |goal.actions|, path);
    if Rewritten(goal, |goal.actions|, path) {
      RewrittenIsNoOrphan(goal, tree', issues, path);
      RewrittenIsNoOrphan(goal, goal.tree, issues, path);
    } else if AsFound(goal, tree', path) {
      SameEntrySameVerdict(goal.tree, tree', goal.key, goal.pages, path);
    } else if IsNewParent(goal, tree', path) {
      NewParentIsNoOrphan(goal, tree', path);
    }
  }

  lemma {:induction false} SameEntrySameVerdict(tree: Tree, tree': Tree, key: string, pages: seq<Page>, path: Path)
    requires if path in tree then path in tree' && tree'[path] == tree[path] else path !in tree'
    ensures OrphanVerdict(tree', key, pages, path) == OrphanVerdict(tree, key, pages, path)
  {
  }

  ghost predicate AllCurrent(tree: Tree, key: string, pages: seq<Page>) {
    forall t :: t in Targets(key, pages) ==> Current(tree, t)
  }

  /** Every target is current, and the orphans whose names were not needed are all that is left to report. */
  ghost predicate Repaired(goal: Goal, tree: Tree, issues: seq<Issue>) {
    && AllCurrent(tree, goal.key, goal.pages)
    && IsReport(tree, goal.key, goal.pages, Filter(issues, IsKept(goal)))
  }

  /**
   Repairing from a fresh plan makes every target current, and the next report is the orphans of the
   first one in order, without those that bore the name of a temporary file of the repair.
   */
  lemma {:induction false} RepairConverges(goal: Goal, tree': Tree, issues: seq<Issue>)
    requires IsFresh(goal, issues) && Progress(goal, tree', |goal.actions|)
    ensures Repaired(goal, tree', issues)
  {
    forall t | t in Targets(goal.key, goal.pages) ensures Current(tree', t) {
      TargetsBecomeCurrent(goal, tree', issues, t);
    }
    forall path ensures OrphanVerdict(tree', goal.key, goal.pages, path) == OrphanAfter(goal, path) {
      OrphanMoves(goal, tree', issues, path);
    }
    KeptAreReport(goal, tree', issues);
  }

  // A fresh plan is accepted, and every rewrite in it has something to do

  /**
   Directories can be listed, no directory lies where a file belongs or bears a temporary name beside
   it, and no file lies where a directory belongs.
   */
  ghost predicate Repairable(tree: Tree, key: string, pages: seq<Page>) {
    && WellFormed(tree)
    && !(PageDir(PageText, key) in tree && tree[PageDir(PageText, key)].File?)
    && !(PageDir(OcrPageText, key) in tree && tree[PageDir(OcrPageText, key)].File?)
    && (forall t :: t in Targets(key, pages) ==> Writable(tree, t))
    && (forall t, path :: t in Targets(key, pages) && Beside(path, t.path) && IsTemp(path) ==> !IsDirectory(tree, path))
  }

  ghost predicate Writable(tree: Tree, t: Target) {
    && (t.path in tree ==> tree[t.path].File?)
    && (t.path !in tree ==> !Blocked(tree, Parent(t.path)))
  }

  /** So a repair of such files is refused nothing. */
  lemma {:induction false} FreshPlanAccepted(goal: Goal, issues: seq<Issue>)
    requires IsFresh(goal, issues) && Repairable(goal.tree, goal.key, goal.pages)
    ensures AcceptedBefore(goal, |goal.actions|)
  {
    forall i | 0 <= i < |goal.actions| ensures Admitted(goal, i) {
      if goal.actions[i].Rewrite? {
        var t := RewriteHasTarget(goal.tree, goal.key, goal.pages, issues, goal.actions[i]);
        assert Writable(goal.tree, t);
        if Writes(goal, i) {
          TempPathOwn(goal, i);
        }
      }
    }
  }

  function AtPath(path: Path): Action -> bool {
    (action: Action) => action.Rewrite? && action.path == path
  }

  function VerdictAt(path: Path): Issue -> bool {
    (issue: Issue) => issue.issue != Orphaned && issue.path == path
  }

  lemma {:induction false} SameMultisetSameFilter<T(!new)>(a: seq<T>, b: seq<T>, p: T -> bool)
    requires multiset(a) == multiset(b)
    ensures |Filter(a, p)| == |Filter(b, p)|
  {
    forall x ensures multiset(Filter(a, p))[x] == multiset(Filter(b, p))[x] {
      FilterCount(a, p, x);
      FilterCount(b, p, x);
    }
    SameCounts(Filter(a, p), Filter(b, p));
  }

  lemma {:induction false} ActionsAtPath(issues: seq<Issue>, path: Path)
    ensures |Filter(ActionsFor(issues), AtPath(path))| == |Filter(issues, VerdictAt(path))|
  {
    if issues != [] {
      ActionsAtPath(issues[1..], path);
    }
  }

  lemma {:induction false} VerdictsAtPath(tree: Tree, targets: seq<Target>, path: Path)
    requires forall i, j :: 0 <= i < j < |targets| ==> targets[i].path != targets[j].path
    ensures |Filter(Verdicts(tree, targets), VerdictAt(path))| <= 1
    ensures (forall t :: t in targets ==> t.path != path) ==> |Filter(Verdicts(tree, targets), VerdictAt(path))| == 0
  {
    if targets != [] {
      var first := Listed(Verdict(tree, targets[0]));
      VerdictsAtPath(tree, targets[1..], path);
      FilterConcat(first, Verdicts(tree, targets[1..]), VerdictAt(path));
      assert first != [] ==> first[1..] == [];
      if targets[0].path == path {
        forall t | t in targets[1..] ensures t.path != path {
          var j :| 0 <= j < |targets[1..]| && targets[1..][j] == t;
          assert targets[0].path != targets[j + 1].path;
        }
      } else {
        assert Filter(first, VerdictAt(path)) == [];
        assert forall t :: t in targets[1..] ==> t in targets;
      }
    }
  }

  lemma {:induction false} PageTargetsDistinct(key: string, pages: seq<Page>)
    requires Numbered(pages)
    ensures forall i, j :: 0 <= i < j < |PageTargets(key, pages)| ==>
              PageTargets(key, pages)[i].path != PageTargets(key, pages)[j].path
  {
    if pages != [] {
      var rest := pages[1..];
      assert forall i, j :: 0 <= i < j < |rest| ==> rest[i] == pages[i + 1] && rest[j] == pages[j + 1];
      PageTargetsDistinct(key, rest);
      DirsDiffer(key);
      forall t, u | t in TargetsOf(key, pages[0]) && u in PageTargets(key, rest) ensures t.path != u.path {
        var j := PageTargetMember(key, rest, u);
        assert pages[j + 1].number != pages[0].number;
        if t.path == u.path {
          assert t.path[3] == FileName(pages[0].number) && u.path[3] == FileName(rest[j].number);
          SameNameSameNumber(pages[0].number, rest[j].number);
        }
      }
      assert PageTarget(PageText, key, pages[0]).path[0] != PageTarget(OcrPageText, key, pages[0]).path[0];
    }
  }

  lemma {:induction false} TargetsDistinct(key: string, pages: seq<Page>)
    requires Numbered(pages)
    ensures forall i, j :: 0 <= i < j < |Targets(key, pages)| ==>
              Targets(key, pages)[i].path != Targets(key, pages)[j].path
  {
    PageTargetsDistinct(key, pages);
    forall t | t in PageTargets(key, pages) ensures |t.path| == 4 {
      var i := PageTargetMember(key, pages, t);
    }
  }

  lemma {:induction false} VerdictCount(
    tree: Tree, key: string, pages: seq<Page>, issues: seq<Issue>, path: Path, issue: Issue)
    requires IsReport(tree, key, pages, issues)
    ensures multiset(Filter(issues, VerdictAt(path)))[issue]
         == multiset(Filter(Verdicts(tree, Targets(key, pages)), VerdictAt(path)))[issue]
  {
    FilterCount(issues, VerdictAt(path), issue);
    FilterCount(Verdicts(tree, Targets(key, pages)), VerdictAt(path), issue);
    assert multiset(issues)[issue] == multiset(Verdicts(tree, Targets(key, pages)))[issue]
                                      + multiset(OrphansAmong(tree.Keys, tree, key, pages))[issue];
    if issue.issue != Orphaned {
      assert issue !in OrphansAmong(tree.Keys, tree, key, pages);
    }
  }

  lemma {:induction false} SameCounts<T(!new)>(a: seq<T>, b: seq<T>)
    requires forall x :: multiset(a)[x] == multiset(b)[x]
    ensures |a| == |b|
  {
    assert multiset(a) == multiset(b);
    assert |multiset(a)| == |a| && |multiset(b)| == |b|;
  }

  lemma {:induction false} OneRewriteForPath(tree: Tree, key: string, pages: seq<Page>, issues: seq<Issue>, path: Path)
    requires Numbered(pages) && IsReport(tree, key, pages, issues)
    ensures |Filter(PlanFor(issues), AtPath(path))| <= 1
  {
    SameMultisetSameFilter(PlanFor(issues), ActionsFor(issues), AtPath(path));
    ActionsAtPath(issues, path);
    TargetsDistinct(key, pages);
    VerdictsAtPath(tree, Targets(key, pages), path);
    var found := Filter(issues, VerdictAt(path));
    var verdicts := Filter(Verdicts(tree, Targets(key, pages)), VerdictAt(path));
    forall issue ensures multiset(found)[issue] == multiset(verdicts)[issue] {
      VerdictCount(tree, key, pages, issues, path, issue);
    }
    SameCounts(found, verdicts);
  }

  lemma {:induction false} FreshRewrittenOnce(goal: Goal, issues: seq<Issue>, n: nat)
    requires IsFresh(goal, issues) && n < |goal.actions| && goal.actions[n].Rewrite?
    ensures !Rewritten(goal, n, goal.actions[n].path)
  {
    var path := goal.actions[n].path;
    OneRewriteForPath(goal.tree, goal.key, goal.pages, issues, path);
    if Rewritten(goal, n, path) {
      var i := RewrittenBy(goal, n, path);
      FilterTwo(goal.actions, AtPath(path), i, n);
    }
  }

  /** Every rewrite of a fresh plan has something to write. */
  lemma {:induction false} FreshPlanIsNeeded(goal: Goal, issues: seq<Issue>, n: nat)
    requires IsFresh(goal, issues) && n < |goal.actions|
    ensures !Redundant(goal, n) && (Writes(goal, n) <==> goal.actions[n].Rewrite?)
  {
    if goal.actions[n].Rewrite? {
      var t := RewriteHasTarget(goal.tree, goal.key, goal.pages, issues, goal.actions[n]);
      FreshRewrittenOnce(goal, issues, n);
    }
  }

  function IsRewrite(): Action -> bool {
    (action: Action) => action.Rewrite?
  }

  /** So the temporary file of a rewrite is numbered by the rewrites before it. */
  lemma {:induction false} FreshWritesBefore(goal: Goal, issues: seq<Issue>, n: nat)
    requires IsFresh(goal, issues) && n <= |goal.actions|
    ensures WritesBefore(goal, n) == |Filter(goal.actions[..n], IsRewrite())|
  {
    forall i | 0 <= i < n ensures Writes(goal, i) <==> goal.actions[i].Rewrite? {
      FreshPlanIsNeeded(goal, issues, i);
    }
    RewritesBefore(goal, n);
  }

  lemma {:induction false} RewritesBefore(goal: Goal, n: nat)
    requires n <= |goal.actions| && forall i :: 0 <= i < n ==> (Writes(goal, i) <==> goal.actions[i].Rewrite?)
    ensures WritesBefore(goal, n) == |Filter(goal.actions[..n], IsRewrite())|
  {
    if n > 0 {
      RewritesBefore(goal, n - 1);
      CountsOneMore(goal, n - 1);
    }
  }

  lemma {:induction false} CountsOneMore(goal: Goal, n: nat)
    requires n < |goal.actions| && (Writes(goal, n) <==> goal.actions[n].Rewrite?)
    requires WritesBefore(goal, n) == |Filter(goal.actions[..n], IsRewrite())|
    ensures WritesBefore(goal, n + 1) == |Filter(goal.actions[..n + 1], IsRewrite())|
  {
    FilterNext(goal.actions, n, IsRewrite());
  }

  /** The names the temporary files of a plan will have, known before it is carried out. */
  predicate WillName(actions: seq<Action>, processId: nat, from: nat, path: Path) {
    exists i :: 0 <= i < |actions| && actions[i].Rewrite? && path == PlannedTemp(actions, processId, from, i)
  }

  function PlannedTemp(actions: seq<Action>, processId: nat, from: nat, i: nat): Path
    requires i < |actions| && actions[i].Rewrite?
  {
    Parent(actions[i].path)
    + [TempName(processId, actions[i].reason, from + |Filter(actions[..i], IsRewrite())|)]
  }

  lemma {:induction false} TempAsPlanned(goal: Goal, issues: seq<Issue>, i: nat)
    requires IsFresh(goal, issues) && i < |goal.actions|
    ensures TempAgrees(goal, i)
  {
    FreshPlanIsNeeded(goal, issues, i);
    FreshWritesBefore(goal, issues, i);
    SameNumberAgrees(goal, i);
  }

  lemma {:induction false} SameNumberAgrees(goal: Goal, i: nat)
    requires i < |goal.actions| && (Writes(goal, i) <==> goal.actions[i].Rewrite?)
    requires WritesBefore(goal, i) == |Filter(goal.actions[..i], IsRewrite())|
    ensures TempAgrees(goal, i)
  {
  }

  ghost predicate TempAgrees(goal: Goal, i: nat)
    requires i < |goal.actions|
  {
    && (Writes(goal, i) <==> goal.actions[i].Rewrite?)
    && (goal.actions[i].Rewrite? ==>
          TempPath(goal, i) == PlannedTemp(goal.actions, goal.processId, goal.from, i))
  }

  lemma {:induction false} NamesAgree(goal: Goal, path: Path)
    requires forall i :: 0 <= i < |goal.actions| ==> TempAgrees(goal, i)
    ensures UsedTemp(goal, |goal.actions|, path) <==> WillName(goal.actions, goal.processId, goal.from, path)
  {
    if UsedTemp(goal, |goal.actions|, path) {
      var i :| 0 <= i < |goal.actions| && Writes(goal, i) && path == TempPath(goal, i);
      assert TempAgrees(goal, i);
    }
    if WillName(goal.actions, goal.processId, goal.from, path) {
      var i :| 0 <= i < |goal.actions| && goal.actions[i].Rewrite?
        && path == PlannedTemp(goal.actions, goal.processId, goal.from, i);
      assert TempAgrees(goal, i);
    }
  }

  lemma {:induction false} UsedAsNamed(goal: Goal, issues: seq<Issue>, path: Path)
    requires IsFresh(goal, issues)
    ensures UsedTemp(goal, |goal.actions|, path) <==> WillName(goal.actions, goal.processId, goal.from, path)
  {
    forall i | 0 <= i < |goal.actions| ensures TempAgrees(goal, i) {
      TempAsPlanned(goal, issues, i);
    }
    NamesAgree(goal, path);
  }

  /** All orphans stay exactly when none bears a name the plan will use. */
  lemma {:induction false} OrphansStayIff(goal: Goal, tree': Tree, issues: seq<Issue>)
    requires IsFresh(goal, issues) && Progress(goal, tree', |goal.actions|)
    ensures IsReport(tree', goal.key, goal.pages, Filter(issues, IsOrphanIssue())) <==>
            forall issue :: issue in issues && issue.issue == Orphaned ==>
              !WillName(goal.actions, goal.processId, goal.from, issue.path)
  {
    RepairConverges(goal, tree', issues);
    forall issue: Issue ensures UsedTemp(goal, |goal.actions|, issue.path)
                    <==> WillName(goal.actions, goal.processId, goal.from, issue.path) {
      UsedAsNamed(goal, issues, issue.path);
    }
    if forall issue :: issue in issues && issue.issue == Orphaned ==> !UsedTemp(goal, |goal.actions|, issue.path) {
      FilterSame(issues, IsKept(goal), IsOrphanIssue());
    }
    if IsReport(tree', goal.key, goal.pages, Filter(issues, IsOrphanIssue())) {
      ReportUnique(tree', goal.key, goal.pages, Filter(issues, IsOrphanIssue()), Filter(issues, IsKept(goal)));
      forall issue | issue in issues && issue.issue == Orphaned ensures !UsedTemp(goal, |goal.actions|, issue.path) {
        FilterMember(issues, IsOrphanIssue(), issue);
        FilterMember(issues, IsKept(goal), issue);
      }
    }
  }

  // Crashes

  /** Any state a crash can leave is repairable again, by a process of any id whose counter stands anywhere. */
  lemma {:induction false} CrashStateIsRepairable(goal: Goal, tree: Tree)
    requires Numbered(goal.pages) && Repairable(goal.tree, goal.key, goal.pages) && Safe(goal, tree)
    ensures Repairable(tree, goal.key, goal.pages)
  {
    DirIsFound(goal, tree, PageText);
    DirIsFound(goal, tree, OcrPageText);
    forall t | t in Targets(goal.key, goal.pages) ensures Writable(tree, t) {
      TargetIsExpected(goal.key, goal.pages, t);
      assert Writable(goal.tree, t);
      StillWritable(goal, tree, t);
    }
    forall t, path | t in Targets(goal.key, goal.pages) && Beside(path, t.path) && IsTemp(path)
      ensures !IsDirectory(tree, path)
    {
      assert SafeAt(goal, tree, path) && !IsDirectory(goal.tree, path);
      if IsNewParent(goal, tree, path) {
        TargetIsExpected(goal.key, goal.pages, t);
        var q :| Wanted(goal, q) && ProperPrefix(path, q);
        var content :| Wants(goal, q, content);
        var kind, number := WantedPath(goal, q, content);
        TargetsAreLeaves(goal.key, path, t.kind, t.pageNumber, kind, number);
        assert false;
      }
    }
  }

  /** A path that leads to a canonical one is as found or a new directory. */
  lemma {:induction false} LeadingPath(goal: Goal, tree: Tree, path: Path, kind: ArtifactKind, number: Option<nat>)
    requires Safe(goal, tree) && ExpectedPath(goal.key, kind, number).Some?
    requires ProperPrefix(path, ExpectedPath(goal.key, kind, number).value)
    ensures AsFound(goal, tree, path) || IsNewParent(goal, tree, path)
  {
    assert SafeAt(goal, tree, path);
    if IsScratch(goal, path) || Wanted(goal, path) {
      var t :| Wanted(goal, t) && Beside(path, t);
      var content :| Wants(goal, t, content);
      var a, m := WantedPath(goal, t, content);
      TargetsAreLeaves(goal.key, path, a, m, kind, number);
      assert false;
    }
  }

  lemma {:induction false} DirIsFound(goal: Goal, tree: Tree, kind: ArtifactKind)
    requires !kind.DocumentText? && Safe(goal, tree)
    ensures AsFound(goal, tree, PageDir(kind, goal.key)) || IsNewParent(goal, tree, PageDir(kind, goal.key))
  {
    assert PagePath(kind, goal.key, 1)[..3] == PageDir(kind, goal.key);
    LeadingPath(goal, tree, PageDir(kind, goal.key), kind, Some(1));
  }

  lemma {:induction false} StillWritable(goal: Goal, tree: Tree, t: Target)
    requires Safe(goal, tree) && WellFormed(goal.tree) && Writable(goal.tree, t)
    requires ExpectedPath(goal.key, t.kind, t.pageNumber) == Some(t.path)
    ensures Writable(tree, t)
  {
    assert SafeAt(goal, tree, t.path);
    if t.path in tree {
      TempIsNoTarget(goal.key, t.kind, t.pageNumber);
      if IsNewParent(goal, tree, t.path) {
        var q :| Wanted(goal, q) && ProperPrefix(t.path, q);
        var content :| Wants(goal, q, content);
        var kind, number := WantedPath(goal, q, content);
        TargetsAreLeaves(goal.key, t.path, t.kind, t.pageNumber, kind, number);
        assert false;
      }
    } else {
      forall k: nat | 0 < k <= |Parent(t.path)| && Parent(t.path)[..k] in tree
        ensures tree[Parent(t.path)[..k]].Directory?
      {
        assert Parent(t.path)[..k] == t.path[..k];
        LeadingPath(goal, tree, t.path[..k], t.kind, t.pageNumber);
        assert t.path in goal.tree ==> goal.tree[t.path[..k]] == Directory;
      }
    }
  }

  // Report, plan, apply

  datatype RepairError = ReportFailed(reconcileError: ReconcileError) | ApplyFailed(applyError: ApplyError)

  datatype RepairResponse = RepairResponse(issueCount: nat, rewritten: nat, alreadyCurrent: nat, manualReview: nat)

  lemma {:induction false} HistoryIsRepairable(goal: Goal, before: seq<Tree>, after: seq<Tree>)
    requires Numbered(goal.pages) && Repairable(goal.tree, goal.key, goal.pages) && Extends(goal, before, after)
    ensures forall i :: |before| <= i < |after| ==> Repairable(after[i], goal.key, goal.pages)
  {
    forall i | |before| <= i < |after| ensures Repairable(after[i], goal.key, goal.pages) {
      CrashStateIsRepairable(goal, after[i]);
    }
  }

  /** Every rewrite counts once, every orphan is left for review, and no file is found current. */
  lemma {:induction false} FreshCounts(goal: Goal, issues: seq<Issue>)
    requires IsFresh(goal, issues)
    ensures |goal.actions| == |issues|
    ensures WritesBefore(goal, |goal.actions|) + |Filter(issues, IsOrphanIssue())| == |issues|
    ensures |Filter(goal.actions, IsReview())| == |Filter(issues, IsOrphanIssue())|
  {
    FreshWritesBefore(goal, issues, |goal.actions|);
    assert goal.actions[..|goal.actions|] == goal.actions;
    PlanCounts(issues);
  }

  lemma {:induction false} PlanCounts(issues: seq<Issue>)
    ensures |PlanFor(issues)| == |issues|
    ensures |Filter(PlanFor(issues), IsReview())| == |Filter(issues, IsOrphanIssue())|
    ensures |Filter(PlanFor(issues), IsRewrite())| + |Filter(issues, IsOrphanIssue())| == |issues|
  {
    SameMultisetSameFilter(PlanFor(issues), ActionsFor(issues), IsReview());
    SameMultisetSameFilter(PlanFor(issues), ActionsFor(issues), IsRewrite());
    ActionsCount(issues);
    PlanLength(issues);
  }

  lemma {:induction false} ActionsCount(issues: seq<Issue>)
    ensures |Filter(ActionsFor(issues), IsReview())| == |Filter(issues, IsOrphanIssue())|
    ensures |Filter(ActionsFor(issues), IsRewrite())| + |Filter(issues, IsOrphanIssue())| == |issues|
  {
    if issues != [] {
      ActionsCount(issues[1..]);
    }
  }

  lemma {:induction false} RepairGoesThrough(goal: Goal, issues: seq<Issue>, before: seq<Tree>, after: seq<Tree>)
    requires IsFresh(goal, issues) && Repairable(goal.tree, goal.key, goal.pages) && Extends(goal, before, after)
    ensures AcceptedBefore(goal, |goal.actions|)
    ensures forall i :: |before| <= i < |after| ==> Repairable(after[i], goal.key, goal.pages)
  {
    FreshPlanAccepted(goal, issues);
    HistoryIsRepairable(goal, before, after);
  }

  lemma {:induction false} Applied(goal: Goal, tree: Tree, issues: seq<Issue>, report: ApplyReport)
    requires IsFresh(goal, issues) && Progress(goal, tree, |goal.actions|)
    requires report.rewritten == WritesBefore(goal, |goal.actions|)
    requires report.skippedManualReview == |Filter(goal.actions, IsReview())|
    requires report.rewritten + report.alreadyCurrent + report.skippedManualReview == |goal.actions|
    ensures Repaired(goal, tree, issues)
    ensures report.skippedManualReview == |Filter(issues, IsOrphanIssue())|
    ensures report.alreadyCurrent == 0 && report.rewritten + report.skippedManualReview == |issues|
  {
    FreshCounts(goal, issues);
    RepairConverges(goal, tree, issues);
  }

  /**
   The whole repair.  Every state on the way can be crashed in and repaired from; from repairable
   files it succeeds without faults; success makes every target current, does each rewrite once, and
   leaves for the next report the kept orphans alone.
   */
  method RepairArtifacts(session: RepairSession, key: string, pages: seq<Page>)
    returns (r: Result<RepairResponse, RepairError>, ghost issues: seq<Issue>)
    requires session.files.Valid()
    modifies session.files, session`counter
    ensures session.files.Valid()
    ensures (r.Err? && r.error.ReportFailed?) || IsReport(old(session.files.nodes), key, pages, issues)
    ensures
      var goal := FreshGoal(old(session.files.nodes), key, pages, issues, session.processId, old(session.counter));
      && Extends(goal, old(session.files.history), session.files.history)
      && (Numbered(pages) && r.Ok? ==> Repaired(goal, session.files.nodes, issues))
    ensures Numbered(pages) && r.Ok? ==>
              && r.value.manualReview == |Filter(issues, IsOrphanIssue())|
              && r.value.alreadyCurrent == 0 && r.value.rewritten + r.value.manualReview == r.value.issueCount
    ensures r.Ok? ==> r.value.issueCount == |issues|
    ensures Numbered(pages) && Repairable(old(session.files.nodes), key, pages) ==>
      && (forall i :: |old(session.files.history)| <= i < |session.files.history| ==>
            Repairable(session.files.history[i], key, pages))
      && (session.files.faults == old(session.files.faults) ==> r.Ok?)
  {
    ghost var tree, from := session.files.nodes, session.counter;
    ghost var history0 := session.files.history;
    issues := [];
    var found := ReconcileArtifacts(session.files.nodes, key, pages);
    if found.Err? {
      return Err(ReportFailed(found.error)), [];
    }
    issues := found.value;
    var plan := PlanFor(found.value);
    var applied := ApplyRepairs(session, key, pages, plan);
    ghost var goal := FreshGoal(tree, key, pages, issues, session.processId, from);
    if Numbered(pages) && Repairable(tree, key, pages) {
      RepairGoesThrough(goal, issues, history0, session.files.history);
    }
    if applied.Err? {
      return Err(ApplyFailed(applied.error)), issues;
    }
    if Numbered(pages) {
      Applied(goal, session.files.nodes, issues, applied.value);
    }
    r := Ok(RepairResponse(
      |found.value|, applied.value.rewritten, applied.value.alreadyCurrent, applied.value.skippedManualReview));
  }

  /**
   A repair after a crash.  Stopped in any state of an earlier repair's history, the files are put
   right by a second repair, whatever its process id and wherever its counter stands.
   */
  method RepairAfterCrash(session: RepairSession, key: string, pages: seq<Page>,
                          ghost earlier: Goal, ghost before: seq<Tree>, ghost after: seq<Tree>, ghost i: nat)
    returns (r: Result<RepairResponse, RepairError>)
    requires session.files.Valid() && Numbered(pages) && Repairable(earlier.tree, key, pages)
    requires earlier.key == key && earlier.pages == pages && Extends(earlier, before, after)
    requires |before| <= i < |after| && session.files.nodes == after[i]
    modifies session.files, session`counter
    ensures session.files.Valid()
    ensures session.files.faults == old(session.files.faults) ==> r.Ok?
    ensures r.Ok? ==> AllCurrent(session.files.nodes, key, pages)
  {
    CrashStateIsRepairable(earlier, after[i]);
    ghost var issues;
    r, issues := RepairArtifacts(session, key, pages);
  }

  lemma {:induction false} PlanLength(issues: seq<Issue>)
    ensures |PlanFor(issues)| == |issues|
  {
    ActionsLength(issues);
    assert |multiset(PlanFor(issues))| == |multiset(ActionsFor(issues))|;
  }

  lemma {:induction false} ActionsLength(issues: seq<Issue>)
    ensures |ActionsFor(issues)| == |issues|
  {
    if issues != [] {
      ActionsLength(issues[1..]);
    }
  }
}
