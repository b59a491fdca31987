/**
 A repair can lose an orphan.  A process that crashes after creating its first temporary file and
 starts again under the same process id, as process 1 of a container does, names its next temporary
 file the same: the leftover, an orphan of the report, is overwritten and gone afterwards.
 */
module ArtifactLeftover {
  import opened ArtifactApply
  import opened ArtifactRepair
  import opened ArtifactReport
  import opened ArtifactTheorems
  import opened Database
  import opened FileCompare
  import opened Ordering
  import opened Utf8
  import opened Wrappers

  /** The document text is current, and the file of the one page is missing. */
  function Found(key: string, page: Page): Tree {
    map[
      ["text"] := Directory,
      ["text", "documents"] := Directory,
      ["text", "pages"] := Directory,
      PageDir(PageText, key) := Directory,
      DocumentTextPath(key) := File(Encode(CombinedText([page])))]
  }

  function Leftover(key: string, processId: nat): Path {
    PageDir(PageText, key) + [TempName(processId, WasMissing, 0)]
  }

  function Crashed(key: string, page: Page, processId: nat): Tree {
    Found(key, page)[Leftover(key, processId) := File([])]
  }

  function PageMissing(key: string, page: Page): Issue {
    Issue(PageText, Missing, PagePath(PageText, key, page.number), Some(page.number), MissingDetail())
  }

  function LeftoverOrphaned(key: string, processId: nat): Issue {
    OrphanIssue(PageText, Leftover(key, processId), None, "derived page artifact filename is not '<page>.txt'")
  }

  function FirstGoal(key: string, page: Page, processId: nat): Goal {
    FreshGoal(Found(key, page), key, [page], [PageMissing(key, page)], processId, 0)
  }

  function SecondGoal(key: string, page: Page, processId: nat): Goal {
    FreshGoal(Crashed(key, page, processId), key, [page],
              [PageMissing(key, page), LeftoverOrphaned(key, processId)], processId, 0)
  }

  lemma {:induction false} LeftoverName(key: string, processId: nat)
    ensures
      var name := TempName(processId, WasMissing, 0);
      ParsePageNumber(name).None? && name != "documents" && name[|name| - 1] != 't'
    ensures IsTemp(Leftover(key, processId)) && Leftover(key, processId) !in {["text"]}
  {
    var name := TempName(processId, WasMissing, 0);
    assert name[|name| - 1] == ".tmp"[3] && ".txt"[3] == 't' && "documents"[8] == 's';
    assert |name| >= 4 ==> name[|name| - 4..][3] == name[|name| - 1];
    assert Leftover(key, processId)[3] == name;
  }

  lemma {:induction false} TwoTargets(key: string, page: Page)
    requires page.textSource != LocalOcr
    ensures Targets(key, [page]) == [DocumentTarget(key, [page]), PageTarget(PageText, key, page)]
  {
    var text := PageTarget(PageText, key, page);
    assert [page][1..] == [] && TargetsOf(key, page) == [text];
    assert PageTargets(key, [page]) == [text];
  }

  lemma {:induction false} OneTarget(tree: Tree, key: string, page: Page)
    requires page.textSource != LocalOcr && Current(tree, DocumentTarget(key, [page]))
    requires PagePath(PageText, key, page.number) !in tree
    ensures Verdicts(tree, Targets(key, [page])) == [PageMissing(key, page)]
  {
    var doc, text := DocumentTarget(key, [page]), PageTarget(PageText, key, page);
    TwoTargets(key, page);
    assert [doc] + [text] == [doc, text];
    VerdictsOne(tree, doc);
    VerdictsOne(tree, text);
    VerdictsConcat(tree, [doc], [text]);
  }

  lemma {:induction false} FoundReport(key: string, page: Page)
    requires page.textSource != LocalOcr
    ensures IsReport(Found(key, page), key, [page], [PageMissing(key, page)])
  {
    var tree := Found(key, page);
    assert forall p :: p in tree ==> |p| <= 3;
    OneTarget(tree, key, page);
    assert OrphansAmong(tree.Keys, tree, key, [page]) == {};
  }

  lemma {:induction false} NamesDiffer(key: string, page: Page, processId: nat)
    ensures Leftover(key, processId) != PagePath(PageText, key, page.number)
  {
    LeftoverName(key, processId);
    assert Leftover(key, processId)[3] == TempName(processId, WasMissing, 0);
    var name := PagePath(PageText, key, page.number)[3];
    assert name == FileName(page.number) && name[|name| - 1] == ".txt"[3];
  }

  lemma {:induction false} ShortPaths(key: string, page: Page)
    ensures forall p :: p in Found(key, page) ==> |p| <= 3
    ensures DocumentTextPath(key) in Found(key, page)
    ensures Found(key, page)[DocumentTextPath(key)] == File(Encode(CombinedText([page])))
    ensures PageDir(PageText, key) in Found(key, page) && Found(key, page)[PageDir(PageText, key)] == Directory
    ensures forall p :: p in Found(key, page) && p[0] != "text" ==> false
    ensures forall p :: p in Found(key, page) && |p| == 3 && p[1] == "documents" ==> p == DocumentTextPath(key)
  {
    DirsDiffer(key);
  }

  lemma {:induction false} CrashedOrphans(key: string, page: Page, processId: nat)
    ensures
      var tree := Crashed(key, page, processId);
      OrphansAmong(tree.Keys, tree, key, [page]) == {LeftoverOrphaned(key, processId)}
  {
    var tree, path, orphan := Crashed(key, page, processId), Leftover(key, processId), LeftoverOrphaned(key, processId);
    ShortPaths(key, page);
    LeftoverName(key, processId);
    assert tree[path] == File([]) && path[..3] == PageDir(PageText, key);
    EntryIsOrphan(tree, PageText, key, [page], path);
    assert OrphanVerdict(tree, key, [page], path) == Some(orphan);
    forall p | p in tree && p != path ensures OrphanVerdict(tree, key, [page], p).None? {
      assert |p| <= 3;
    }
  }

  lemma {:induction false} TwoIssues(a: Issue, b: Issue)
    requires IssueLe(a, b)
    ensures Sorted([a, b], IssueLe) && multiset([a, b]) == multiset([a]) + multiset({b})
  {
  }

  lemma {:induction false} CrashedVerdicts(key: string, page: Page, processId: nat)
    requires page.textSource != LocalOcr
    ensures Verdicts(Crashed(key, page, processId), Targets(key, [page])) == [PageMissing(key, page)]
  {
    ShortPaths(key, page);
    NamesDiffer(key, page, processId);
    OneTarget(Crashed(key, page, processId), key, page);
  }

  lemma {:induction false} CrashedReport(key: string, page: Page, processId: nat)
    requires page.textSource != LocalOcr
    ensures IsReport(Crashed(key, page, processId), key, [page],
                     [PageMissing(key, page), LeftoverOrphaned(key, processId)])
  {
    CrashedVerdicts(key, page, processId);
    CrashedOrphans(key, page, processId);
    TwoIssues(PageMissing(key, page), LeftoverOrphaned(key, processId));
  }

  lemma {:induction false} TreesWellFormed(key: string, page: Page, processId: nat)
    ensures WellFormed(Found(key, page)) && WellFormed(Crashed(key, page, processId))
  {
    var tree, path := Found(key, page), Leftover(key, processId);
    forall p, n: nat | p in tree && 0 < n < |p| ensures p[..n] in tree && tree[p[..n]] == Directory {
      assert n == 1 ==> p[..n] == ["text"];
      assert n == 2 ==> p[..n] == [p[0], p[1]];
    }
    assert path[..3] == PageDir(PageText, key);
    NewNodeKeeps(tree, path, File([]));
  }

  lemma {:induction false} NoDirectoryBeside(key: string, page: Page, t: Target, path: Path)
    requires t == DocumentTarget(key, [page]) || t == PageTarget(PageText, key, page)
    requires Beside(path, t.path)
    ensures !IsDirectory(Found(key, page), path)
  {
    ShortPaths(key, page);
    if t.kind.DocumentText? {
      assert path[1] == Parent(path)[1] == "documents";
    }
  }

  lemma {:induction false} PageWritable(key: string, page: Page)
    ensures Writable(Found(key, page), PageTarget(PageText, key, page))
  {
    var tree, dir := Found(key, page), Parent(PagePath(PageText, key, page.number));
    ShortPaths(key, page);
    assert dir == PageDir(PageText, key);
    forall k: nat | 0 < k <= 3 ensures dir[..k] in tree && tree[dir[..k]].Directory? {
      assert k == 1 ==> dir[..k] == ["text"];
      assert k == 2 ==> dir[..k] == ["text", "pages"];
      assert k == 3 ==> dir[..k] == dir;
    }
  }

  lemma {:induction false} TargetsRepairable(tree: Tree, key: string, page: Page)
    requires WellFormed(tree) && page.textSource != LocalOcr
    requires PageDir(OcrPageText, key) !in tree
    requires PageDir(PageText, key) in tree && tree[PageDir(PageText, key)].Directory?
    requires Writable(tree, DocumentTarget(key, [page])) && Writable(tree, PageTarget(PageText, key, page))
    requires forall t, path :: t in [DocumentTarget(key, [page]), PageTarget(PageText, key, page)] ==>
               Beside(path, t.path) ==> !IsDirectory(tree, path)
    ensures Repairable(tree, key, [page])
  {
    TwoTargets(key, page);
  }

  lemma {:induction false} FoundRepairable(key: string, page: Page)
    requires page.textSource != LocalOcr
    ensures Repairable(Found(key, page), key, [page])
  {
    TreesWellFormed(key, page, 0);
    ShortPaths(key, page);
    DirsDiffer(key);
    PageWritable(key, page);
    forall t, path | t in [DocumentTarget(key, [page]), PageTarget(PageText, key, page)] && Beside(path, t.path)
      ensures !IsDirectory(Found(key, page), path)
    {
      NoDirectoryBeside(key, page, t, path);
    }
    TargetsRepairable(Found(key, page), key, page);
  }

  /** One rewrite, with the first temporary name, in either repair. */
  lemma {:induction false} FirstTemp(goal: Goal, issues: seq<Issue>, path: Path)
    requires IsFresh(goal, issues) && goal.actions != [] && goal.actions[0].Rewrite?
    requires path == Parent(goal.actions[0].path) + [TempName(goal.processId, goal.actions[0].reason, goal.from)]
    ensures UsedTemp(goal, |goal.actions|, path) && IsScratch(goal, path)
  {
    FreshPlanIsNeeded(goal, issues, 0);
    assert Writes(goal, 0) && path == TempPath(goal, 0);
    UsedTempOwn(goal, |goal.actions|, path);
  }

  lemma {:induction false} PlansAre(key: string, page: Page, processId: nat)
    ensures
      var rewrite, review := ActionFor(PageMissing(key, page)), ActionFor(LeftoverOrphaned(key, processId));
      && FirstGoal(key, page, processId).actions == [rewrite]
      && SecondGoal(key, page, processId).actions == [rewrite, review]
  {
    var missing, orphan := PageMissing(key, page), LeftoverOrphaned(key, processId);
    var rewrite, review := ActionFor(missing), ActionFor(orphan);
    assert [missing][1..] == [] && [orphan][1..] == [] && [missing, orphan][1..] == [orphan];
    assert ActionsFor([orphan]) == [review] && ActionsFor([missing, orphan]) == [rewrite] + [review];
    assert [rewrite] + [review] == [rewrite, review] && [rewrite, review][1..] == [review];
    assert [rewrite][1..] == [] && [review][1..] == [];
    assert Sort([review], ActionLe) == [review];
  }

  /** The state after the crash is one the first repair passes through, by creating its temporary file. */
  lemma {:induction false} CrashIsSafe(key: string, page: Page, processId: nat)
    requires Numbered([page]) && page.textSource != LocalOcr
    ensures Safe(FirstGoal(key, page, processId), Crashed(key, page, processId))
  {
    var goal := FirstGoal(key, page, processId);
    FoundReport(key, page);
    PlansAre(key, page, processId);
    TempIs(key, page, processId);
    FirstTemp(goal, [PageMissing(key, page)], Leftover(key, processId));
    TreesWellFormed(key, page, processId);
    FoundIsSafe(goal);
    TempSafe(goal, Found(key, page), Crashed(key, page, processId), Leftover(key, processId));
  }

  lemma {:induction false} TempIs(key: string, page: Page, processId: nat)
    ensures Leftover(key, processId)
         == Parent(PagePath(PageText, key, page.number)) + [TempName(processId, WasMissing, 0)]
  {
    assert Parent(PagePath(PageText, key, page.number)) == PageDir(PageText, key);
  }

  lemma {:induction false} LeftoverIsUsed(key: string, page: Page, processId: nat)
    requires Numbered([page]) && page.textSource != LocalOcr
    ensures
      var goal := SecondGoal(key, page, processId);
      && |goal.actions| == 2 && UsedTemp(goal, 2, Leftover(key, processId))
      && IsFresh(goal, [PageMissing(key, page), LeftoverOrphaned(key, processId)])
  {
    var goal, issues := SecondGoal(key, page, processId), [PageMissing(key, page), LeftoverOrphaned(key, processId)];
    CrashedReport(key, page, processId);
    PlansAre(key, page, processId);
    TempIs(key, page, processId);
    FirstTemp(goal, issues, Leftover(key, processId));
  }

  lemma {:induction false} NeitherKept(goal: Goal, drift: Issue, orphan: Issue)
    requires drift.issue != Orphaned && UsedTemp(goal, |goal.actions|, orphan.path)
    ensures forall issue :: issue in [drift, orphan] ==> !IsKept(goal)(issue)
  {
  }

  lemma {:induction false} NothingKept(goal: Goal, tree': Tree, issues: seq<Issue>)
    requires IsFresh(goal, issues) && Progress(goal, tree', |goal.actions|)
    requires forall issue :: issue in issues ==> !IsKept(goal)(issue)
    ensures IsReport(tree', goal.key, goal.pages, [])
  {
    RepairConverges(goal, tree', issues);
    FilterNone(issues, IsKept(goal));
  }

  /** From repairable files, a crash of the first repair leaves an orphan. */
  lemma {:induction false} CrashLeavesOrphan(key: string, page: Page, processId: nat)
    requires Numbered([page]) && page.textSource != LocalOcr
    ensures IsReport(Found(key, page), key, [page], [PageMissing(key, page)]) && Repairable(Found(key, page), key, [page])
    ensures Safe(FirstGoal(key, page, processId), Crashed(key, page, processId))
    ensures IsReport(Crashed(key, page, processId), key, [page],
                     [PageMissing(key, page), LeftoverOrphaned(key, processId)])
  {
    FoundReport(key, page);
    FoundRepairable(key, page);
    CrashIsSafe(key, page, processId);
    CrashedReport(key, page, processId);
  }

  /** The repair that follows, under the same process id and with its counter at the start again, leaves none. */
  lemma {:induction false} LeftoverVanishes(key: string, page: Page, processId: nat, tree': Tree)
    requires Numbered([page]) && page.textSource != LocalOcr
    requires Progress(SecondGoal(key, page, processId), tree', 2)
    ensures IsReport(tree', key, [page], [])
  {
    var goal, missing, orphan := SecondGoal(key, page, processId), PageMissing(key, page), LeftoverOrphaned(key, processId);
    LeftoverIsUsed(key, page, processId);
    NeitherKept(goal, missing, orphan);
    NothingKept(goal, tree', [missing, orphan]);
  }
}
