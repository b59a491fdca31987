/** The loop over a repair plan (src/ingest/reconcile_repair_apply.rs) and what it leaves in the files. */
module ArtifactApply {
  import opened ArtifactRepair
  import opened ArtifactReport
  import opened FileCompare
  import opened Ordering
  import opened Utf8
  import opened Wrappers

  // Progress through the plan

  ghost predicate Rewritten(goal: Goal, n: nat, path: Path) {
    exists i :: 0 <= i < n && i < |goal.actions| && goal.actions[i].path == path
      && Planned(goal.key, goal.pages, goal.actions[i]).Some?
  }

  ghost predicate IsNew(goal: Goal, tree: Tree, path: Path) {
    path in tree && tree[path].File? && Wants(goal, path, tree[path].content)
  }

  /** The action has nothing left to do: its file was already right, or an earlier action wrote it. */
  ghost predicate Redundant(goal: Goal, n: nat) {
    && n < |goal.actions|
    && var action := goal.actions[n];
       && Planned(goal.key, goal.pages, action).Some?
       && (|| Rewritten(goal, n, action.path)
           || (action.path in goal.tree
               && goal.tree[action.path] == File(Planned(goal.key, goal.pages, action).value)))
  }

  /** The action writes its file. */
  ghost predicate Writes(goal: Goal, n: nat) {
    n < |goal.actions| && Planned(goal.key, goal.pages, goal.actions[n]).Some? && !Redundant(goal, n)
  }

  ghost function WritesBefore(goal: Goal, n: nat): nat {
    if n == 0 then 0 else WritesBefore(goal, n - 1) + if Writes(goal, n - 1) then 1 else 0
  }

  /** Where that action writes its temporary file: every write takes the next number. */
  ghost function TempPath(goal: Goal, n: nat): Path
    requires n < |goal.actions| && goal.actions[n].Rewrite?
  {
    var action := goal.actions[n];
    Parent(action.path) + [TempName(goal.processId, action.reason, goal.from + WritesBefore(goal, n))]
  }

  /** The path of a temporary file of the first `n` actions. */
  ghost predicate UsedTemp(goal: Goal, n: nat, path: Path) {
    exists i :: 0 <= i < n && Writes(goal, i) && path == TempPath(goal, i)
  }

  /** Files of the first `n` actions are new, their temporary files gone; all others are as found, apart from parents. */
  ghost predicate ProgressAt(goal: Goal, tree: Tree, n: nat, path: Path) {
    if Rewritten(goal, n, path) then IsNew(goal, tree, path)
    else if UsedTemp(goal, n, path) then path !in tree
    else AsFound(goal, tree, path) || IsNewParent(goal, tree, path)
  }

  ghost predicate Progress(goal: Goal, tree: Tree, n: nat) {
    forall path :: ProgressAt(goal, tree, n, path)
  }

  lemma {:induction false} TempPathOwn(goal: Goal, n: nat)
    requires Writes(goal, n)
    ensures
      var target, temp := goal.actions[n].path, TempPath(goal, n);
      && Beside(temp, target) && OwnTemp(goal, temp) && IsTemp(temp) && Wanted(goal, target) && IsScratch(goal, temp)
  {
    var action := goal.actions[n];
    var temp := TempPath(goal, n);
    assert temp[|temp| - 1] == TempName(goal.processId, action.reason, goal.from + WritesBefore(goal, n));
    assert Wants(goal, action.path, Planned(goal.key, goal.pages, action).value);
    assert Wanted(goal, action.path) && Beside(temp, action.path);
  }

  lemma {:induction false} UsedTempOwn(goal: Goal, n: nat, path: Path)
    requires UsedTemp(goal, n, path)
    ensures IsScratch(goal, path) && IsTemp(path)
  {
    var i :| 0 <= i < n && Writes(goal, i) && path == TempPath(goal, i);
    TempPathOwn(goal, i);
  }

  /** Neither a planned path nor one above it is ever used for a temporary file. */
  lemma {:induction false} UsedTempElsewhere(goal: Goal, n: nat, path: Path, target: Path)
    requires UsedTemp(goal, n, path) && Wanted(goal, target)
    ensures path != target && !ProperPrefix(path, target)
  {
    UsedTempOwn(goal, n, path);
    var t :| Wanted(goal, t) && Beside(path, t);
    WantedAreLeaves(goal, path, t, target);
    var content :| Wants(goal, target, content);
    var kind, number := WantedPath(goal, target, content);
    TempIsNoTarget(goal.key, kind, number);
  }

  lemma {:induction false} UsedTempNext(goal: Goal, n: nat, path: Path)
    ensures UsedTemp(goal, n + 1, path) <==> UsedTemp(goal, n, path) || (Writes(goal, n) && path == TempPath(goal, n))
  {
    if UsedTemp(goal, n, path) {
      var i :| 0 <= i < n && Writes(goal, i) && path == TempPath(goal, i);
      assert i < n + 1;
    }
  }

  lemma {:induction false} RewrittenNext(goal: Goal, n: nat, path: Path)
    requires n < |goal.actions|
    ensures Rewritten(goal, n + 1, path) <==>
              || Rewritten(goal, n, path)
              || (goal.actions[n].path == path && Planned(goal.key, goal.pages, goal.actions[n]).Some?)
  {
    if Rewritten(goal, n, path) {
      var i :| 0 <= i < n && i < |goal.actions| && goal.actions[i].path == path
        && Planned(goal.key, goal.pages, goal.actions[i]).Some?;
      assert i < n + 1;
    }
  }

  lemma {:induction false} RewrittenBy(goal: Goal, n: nat, path: Path) returns (i: nat)
    requires Rewritten(goal, n, path)
    ensures i < n && i < |goal.actions| && goal.actions[i].Rewrite? && goal.actions[i].path == path
    ensures Planned(goal.key, goal.pages, goal.actions[i]).Some?
  {
    i :| 0 <= i < n && i < |goal.actions| && goal.actions[i].path == path
      && Planned(goal.key, goal.pages, goal.actions[i]).Some?;
  }

  lemma {:induction false} RewrittenIsWanted(goal: Goal, n: nat, path: Path)
    requires Rewritten(goal, n, path)
    ensures Wanted(goal, path) && !IsTemp(path)
  {
    var i := RewrittenBy(goal, n, path);
    var action := goal.actions[i];
    assert Wants(goal, path, Planned(goal.key, goal.pages, action).value);
    TempIsNoTarget(goal.key, action.kind, action.pageNumber);
  }

  lemma {:induction false} ProgressWritten(goal: Goal, tree: Tree, tree': Tree, n: nat, bytes: seq<byte>)
    requires Progress(goal, tree, n) && Writes(goal, n)
    requires
      var action := goal.actions[n];
      && Planned(goal.key, goal.pages, action) == Some(bytes)
      && tree' == (AllDirsMade(tree, action.path) - {TempPath(goal, n)})[action.path := File(bytes)]
    ensures Progress(goal, tree', n + 1)
  {
    var target, temp := goal.actions[n].path, TempPath(goal, n);
    TempPathOwn(goal, n);
    assert Wants(goal, target, bytes);
    var next := n + 1;
    forall path ensures ProgressAt(goal, tree', next, path) {
      assert ProgressAt(goal, tree, n, path);
      RewrittenNext(goal, n, path);
      UsedTempNext(goal, n, path);
      DirsMadeMeaning(tree, Parent(target), |Parent(target)|, path);
      if path == temp {
        if Rewritten(goal, n + 1, path) {
          RewrittenIsWanted(goal, n + 1, path);
          assert false;
        }
      } else if path != target {
        ElsewhereProgress(goal, tree, tree', n, target, path);
      }
    }
  }

  lemma {:induction false} ElsewhereProgress(goal: Goal, tree: Tree, tree': Tree, n: nat, target: Path, path: Path)
    requires ProgressAt(goal, tree, n, path) && Wanted(goal, target)
    requires path in tree' <==> path in tree || LeadsTo(path, Parent(target), |Parent(target)|)
    requires path in tree' ==> tree'[path] == if path in tree then tree[path] else Directory
    ensures ProgressAt(goal, tree', n, path)
  {
    if path !in tree && path in tree' {
      assert ProperPrefix(path, target);
      if UsedTemp(goal, n, path) {
        UsedTempElsewhere(goal, n, path, target);
        assert false;
      }
    }
  }

  lemma {:induction false} ProgressUnchanged(goal: Goal, tree: Tree, n: nat)
    requires Progress(goal, tree, n) && n < |goal.actions| && !Writes(goal, n)
    requires Planned(goal.key, goal.pages, goal.actions[n]).Some? ==> IsNew(goal, tree, goal.actions[n].path)
    ensures Progress(goal, tree, n + 1)
  {
    var next := n + 1;
    forall path ensures ProgressAt(goal, tree, next, path) {
      assert ProgressAt(goal, tree, n, path);
      RewrittenNext(goal, n, path);
      UsedTempNext(goal, n, path);
    }
  }

  // Which actions are refused

  /** Decided on the files as found: the action is canonical, and nothing but files lies at its path or directories above it. */
  ghost predicate Accepted(goal: Goal, action: Action) {
    action.Rewrite? ==>
      && Planned(goal.key, goal.pages, action).Some?
      && (action.path in goal.tree ==> goal.tree[action.path].File?)
      && (action.path !in goal.tree ==> !Blocked(goal.tree, Parent(action.path)))
  }

  /** At a planned path the files hold what they held at the start, or the new content. */
  lemma {:induction false} AtTarget(goal: Goal, tree: Tree, n: nat, path: Path)
    requires Progress(goal, tree, n) && Wanted(goal, path)
    ensures if Rewritten(goal, n, path) then IsNew(goal, tree, path) else AsFound(goal, tree, path)
  {
    assert ProgressAt(goal, tree, n, path);
    if !Rewritten(goal, n, path) {
      if IsNewParent(goal, tree, path) {
        var q :| Wanted(goal, q) && ProperPrefix(path, q);
        WantedAreLeaves(goal, path, path, q);
        assert false;
      } else if UsedTemp(goal, n, path) {
        UsedTempElsewhere(goal, n, path, path);
        assert false;
      }
    }
  }

  /** Above a planned path the files are as found, or newly made directories. */
  lemma {:induction false} AboveTarget(
    goal: Goal, tree: Tree, n: nat, target: Path, path: Path)
    requires Progress(goal, tree, n) && Wanted(goal, target) && ProperPrefix(path, target)
    ensures AsFound(goal, tree, path) || IsNewParent(goal, tree, path)
  {
    assert ProgressAt(goal, tree, n, path);
    if Rewritten(goal, n, path) {
      RewrittenIsWanted(goal, n, path);
      WantedAreLeaves(goal, path, path, target);
      assert false;
    } else if UsedTemp(goal, n, path) {
      UsedTempElsewhere(goal, n, path, target);
      assert false;
    }
  }

  lemma {:induction false} BlockedAsFound(goal: Goal, tree: Tree, n: nat, target: Path)
    requires Progress(goal, tree, n) && Wanted(goal, target)
    ensures Blocked(tree, Parent(target)) <==> Blocked(goal.tree, Parent(target))
  {
    forall k: nat | 0 < k <= |Parent(target)|
      ensures AsFound(goal, tree, Parent(target)[..k]) || IsNewParent(goal, tree, Parent(target)[..k])
    {
      assert Parent(target)[..k] == target[..k];
      assert ProperPrefix(target[..k], target);
      AboveTarget(goal, tree, n, target, target[..k]);
    }
  }

  /** And no directory bears the name of its temporary file. */
  ghost predicate Admitted(goal: Goal, n: nat)
    requires n < |goal.actions|
  {
    Accepted(goal, goal.actions[n]) && (Writes(goal, n) ==> !IsDirectory(goal.tree, TempPath(goal, n)))
  }

  ghost predicate AcceptedBefore(goal: Goal, n: nat) {
    forall i :: 0 <= i < n && i < |goal.actions| ==> Admitted(goal, i)
  }

  lemma {:induction false} RewrittenAccepted(goal: Goal, n: nat, action: Action)
    requires AcceptedBefore(goal, n) && Rewritten(goal, n, action.path)
    requires Planned(goal.key, goal.pages, action).Some?
    ensures Accepted(goal, action)
  {
    var i := RewrittenBy(goal, n, action.path);
    assert Admitted(goal, i);
  }

  lemma {:induction false} CurrentIsAccepted(goal: Goal, tree: Tree, n: nat, action: Action)
    requires Progress(goal, tree, n) && AcceptedBefore(goal, n) && action in goal.actions
    requires Planned(goal.key, goal.pages, action).Some? && action.path in tree && tree[action.path].File?
    ensures Accepted(goal, action)
  {
    assert Wants(goal, action.path, Planned(goal.key, goal.pages, action).value);
    AtTarget(goal, tree, n, action.path);
    if Rewritten(goal, n, action.path) {
      RewrittenAccepted(goal, n, action);
    }
  }

  lemma {:induction false} WrittenIsAccepted(goal: Goal, tree: Tree, n: nat, action: Action)
    requires Progress(goal, tree, n) && AcceptedBefore(goal, n) && action in goal.actions
    requires Planned(goal.key, goal.pages, action).Some? && action.path !in tree
    requires !Blocked(tree, Parent(action.path))
    ensures Accepted(goal, action)
  {
    assert Wants(goal, action.path, Planned(goal.key, goal.pages, action).value);
    AtTarget(goal, tree, n, action.path);
    BlockedAsFound(goal, tree, n, action.path);
    if Rewritten(goal, n, action.path) {
      RewrittenAccepted(goal, n, action);
    }
  }

  lemma {:induction false} WrittenIsNotBlocked(tree: Tree, target: Path, temp: Path, node: Node)
    requires WellFormed((AllDirsMade(tree, target) - {temp})[target := node]) && Beside(temp, target)
    ensures !Blocked(tree, Parent(target))
  {
    var tree' := (AllDirsMade(tree, target) - {temp})[target := node];
    forall k | 0 < k <= |Parent(target)| && Parent(target)[..k] in tree
      ensures tree[Parent(target)[..k]] == Directory
    {
      assert Parent(target)[..k] == target[..k];
      assert tree'[target[..k]] == Directory;
      DirsMadeMeaning(tree, Parent(target), |Parent(target)|, target[..k]);
    }
  }

  /** A directory at the name of the temporary file was there at the start, and stays. */
  lemma {:induction false} TempAsFound(goal: Goal, tree: Tree, n: nat)
    requires Progress(goal, tree, n) && Writes(goal, n) && AcceptedBefore(goal, n)
    ensures IsDirectory(AllDirsMade(tree, goal.actions[n].path), TempPath(goal, n))
       <==> IsDirectory(goal.tree, TempPath(goal, n))
  {
    var target, temp := goal.actions[n].path, TempPath(goal, n);
    TempPathOwn(goal, n);
    assert ProgressAt(goal, tree, n, temp);
    DirsMadeMeaning(tree, Parent(target), |Parent(target)|, temp);
    if Rewritten(goal, n, temp) {
      RewrittenIsWanted(goal, n, temp);
      assert false;
    } else if UsedTemp(goal, n, temp) {
      var i :| 0 <= i < n && Writes(goal, i) && temp == TempPath(goal, i);
      assert Admitted(goal, i);
    } else if IsNewParent(goal, tree, temp) {
      var q :| Wanted(goal, q) && ProperPrefix(temp, q);
      WantedAreLeaves(goal, temp, target, q);
      assert false;
    }
  }

  /** A write that fails without a fault was in the way of something found at the start. */
  lemma {:induction false} FailedIsRefused(goal: Goal, tree: Tree, n: nat)
    requires Progress(goal, tree, n) && Writes(goal, n) && AcceptedBefore(goal, n) && WellFormed(goal.tree)
    requires || Blocked(tree, Parent(goal.actions[n].path))
             || IsDirectory(AllDirsMade(tree, goal.actions[n].path), TempPath(goal, n))
    ensures !Admitted(goal, n)
  {
    var target := goal.actions[n].path;
    TempPathOwn(goal, n);
    if Blocked(tree, Parent(target)) {
      BlockedAsFound(goal, tree, n, target);
      var k :| 0 < k <= |Parent(target)| && Parent(target)[..k] in goal.tree && goal.tree[Parent(target)[..k]].File?;
      assert Parent(target)[..k] == target[..k];
    } else {
      TempAsFound(goal, tree, n);
    }
  }

  lemma {:induction false} InTheWayIsRefused(goal: Goal, tree: Tree, n: nat, action: Action)
    requires Progress(goal, tree, n) && action in goal.actions
    requires Planned(goal.key, goal.pages, action).Some?
    requires action.path in tree && tree[action.path].Directory?
    ensures !Accepted(goal, action)
  {
    assert Wants(goal, action.path, Planned(goal.key, goal.pages, action).value);
    AtTarget(goal, tree, n, action.path);
  }

  // The loop

  datatype Outcome = Rewrote | WasCurrent | ForReview

  /** An action finds its file current exactly when it is redundant. */
  lemma {:induction false} CurrentIsRedundant(goal: Goal, tree: Tree, n: nat)
    requires Progress(goal, tree, n) && n < |goal.actions| && Planned(goal.key, goal.pages, goal.actions[n]).Some?
    ensures
      var action := goal.actions[n];
      Redundant(goal, n) <==>
        action.path in tree && tree[action.path] == File(Planned(goal.key, goal.pages, action).value)
  {
    var action := goal.actions[n];
    var content := Planned(goal.key, goal.pages, action).value;
    assert Wants(goal, action.path, content);
    AtTarget(goal, tree, n, action.path);
    if Rewritten(goal, n, action.path) {
      WantedOnce(goal, action.path, content, tree[action.path].content);
    }
  }

  ghost predicate OnTrack(goal: Goal, tree: Tree, n: nat) {
    Safe(goal, tree) && Progress(goal, tree, n) && AcceptedBefore(goal, n)
  }

  /** One iteration. */
  method ApplyAction(session: RepairSession, ghost goal: Goal, ghost n: nat,
                     key: string, pages: seq<Page>, action: Action)
    returns (r: Result<Outcome, ApplyError>)
    requires session.files.Valid() && WellFormed(goal.tree) && goal.processId == session.processId
    requires goal.key == key && goal.pages == pages && n < |goal.actions| && goal.actions[n] == action
    requires OnTrack(goal, session.files.nodes, n) && session.counter == goal.from + WritesBefore(goal, n)
    modifies session.files, session`counter
    ensures session.files.Valid()
    ensures Safe(goal, session.files.nodes) && Extends(goal, old(session.files.history), session.files.history)
    ensures session.files.faults >= old(session.files.faults)
    ensures r.Ok? ==> OnTrack(goal, session.files.nodes, n + 1)
    ensures r.Ok? ==> session.counter == goal.from + WritesBefore(goal, n + 1)
    ensures r.Ok? ==>
              r.value == if action.Review? then ForReview else if Redundant(goal, n) then WasCurrent else Rewrote
    ensures r.Err? && session.files.faults == old(session.files.faults) ==> !Admitted(goal, n)
  {
    ghost var tree := session.files.nodes;
    if action.Review? {
      ProgressUnchanged(goal, tree, n);
      return Ok(ForReview);
    }
    var path := action.path;
    if ExpectedPath(key, action.kind, action.pageNumber) != Some(path) {
      return Err(InvalidAction(action));
    }
    var expected := ExpectedBytes(pages, action.kind, action.pageNumber);
    if expected.None? {
      return Err(InvalidAction(action));
    }
    assert Planned(key, pages, action) == expected;
    assert Wants(goal, path, expected.value);
    CurrentIsRedundant(goal, tree, n);
    if path in session.files.nodes {
      if session.files.nodes[path].Directory? {
        InTheWayIsRefused(goal, tree, n, action);
        return Err(InvalidAction(action));
      }
      CurrentIsAccepted(goal, tree, n, action);
      var matches := FileMatchesBytes(session.files.nodes[path].content, expected.value);
      if matches {
        ProgressUnchanged(goal, tree, n);
        return Ok(WasCurrent);
      }
    }
    assert Writes(goal, n);
    var ok, temp := session.WriteFileAtomic(path, expected.value, action.reason, goal);
    assert temp == TempPath(goal, n);
    if !ok {
      if session.files.faults == old(session.files.faults) {
        FailedIsRefused(goal, tree, n);
      }
      return Err(WriteFailed(path));
    }
    ProgressTarget(goal, tree, n, expected.value);
    return Ok(Rewrote);
  }

  lemma {:induction false} ProgressTarget(goal: Goal, tree: Tree, n: nat, bytes: seq<byte>)
    requires Progress(goal, tree, n) && AcceptedBefore(goal, n) && Writes(goal, n)
    requires
      var action := goal.actions[n];
      && Planned(goal.key, goal.pages, action) == Some(bytes)
      && WellFormed((AllDirsMade(tree, action.path) - {TempPath(goal, n)})[action.path := File(bytes)])
      && (action.path in tree ==> tree[action.path].File?)
      && !IsDirectory(AllDirsMade(tree, action.path), TempPath(goal, n))
    ensures
      var action := goal.actions[n];
      && Admitted(goal, n)
      && Progress(goal, (AllDirsMade(tree, action.path) - {TempPath(goal, n)})[action.path := File(bytes)], n + 1)
  {
    var action := goal.actions[n];
    TempPathOwn(goal, n);
    TempAsFound(goal, tree, n);
    TempIsNoTarget(goal.key, action.kind, action.pageNumber);
    if action.path in tree {
      CurrentIsAccepted(goal, tree, n, action);
    } else {
      WrittenIsNotBlocked(tree, action.path, TempPath(goal, n), File(bytes));
      WrittenIsAccepted(goal, tree, n, action);
    }
    ProgressWritten(goal, tree, (AllDirsMade(tree, action.path) - {TempPath(goal, n)})[action.path := File(bytes)],
                    n, bytes);
  }

  lemma {:induction false} ExtendsTwice(goal: Goal, a: seq<Tree>, b: seq<Tree>, c: seq<Tree>)
    requires Extends(goal, a, b) && Extends(goal, b, c)
    ensures Extends(goal, a, c)
  {
    forall i | |a| <= i < |c| ensures Safe(goal, c[i]) {
      if i < |b| {
        assert c[i] == b[i];
      }
    }
  }

  lemma {:induction false} ProgressStart(goal: Goal)
    ensures Progress(goal, goal.tree, 0) && AcceptedBefore(goal, 0)
  {
  }

  function Count(report: ApplyReport, outcome: Outcome): ApplyReport {
    match outcome
    case Rewrote => report.(rewritten := report.rewritten + 1)
    case WasCurrent => report.(alreadyCurrent := report.alreadyCurrent + 1)
    case ForReview => report.(skippedManualReview := report.skippedManualReview + 1)
  }

  function IsReview(): Action -> bool {
    (action: Action) => action.Review?
  }

  /**
   Every state on the way is safe.  Without a fault the call succeeds exactly when every action is
   admissible; then all planned files are new and all temporary files gone.
   */
  method ApplyRepairs(session: RepairSession, key: string, pages: seq<Page>, actions: seq<Action>)
    returns (r: Result<ApplyReport, ApplyError>)
    requires session.files.Valid()
    modifies session.files, session`counter
    ensures session.files.Valid() && session.files.faults >= old(session.files.faults)
    ensures
      var goal := Goal(old(session.files.nodes), key, pages, actions, session.processId, old(session.counter));
      && Extends(goal, old(session.files.history), session.files.history)
      && (r.Ok? ==> Progress(goal, session.files.nodes, |actions|) && AcceptedBefore(goal, |actions|))
      && (r.Ok? ==> r.value.rewritten == WritesBefore(goal, |actions|))
      && (r.Err? && session.files.faults == old(session.files.faults) ==> !AcceptedBefore(goal, |actions|))
    ensures r.Ok? ==> r.value.rewritten + r.value.alreadyCurrent + r.value.skippedManualReview == |actions|
    ensures r.Ok? ==> r.value.skippedManualReview == |Filter(actions, IsReview())|
  {
    ghost var goal := Goal(session.files.nodes, key, pages, actions, session.processId, session.counter);
    ghost var history0 := session.files.history;
    FoundIsSafe(goal);
    ProgressStart(goal);
    var report := ApplyReport(0, 0, 0);
    for i := 0 to |actions|
      invariant session.files.Valid() && session.counter == goal.from + WritesBefore(goal, i)
      invariant OnTrack(goal, session.files.nodes, i)
      invariant Extends(goal, history0, session.files.history)
      invariant session.files.faults >= old(session.files.faults)
      invariant report.rewritten + report.alreadyCurrent + report.skippedManualReview == i
      invariant report.rewritten == WritesBefore(goal, i)
      invariant report.skippedManualReview == |Filter(actions[..i], IsReview())|
    {
      FilterNext(actions, i, IsReview());
      ghost var before := session.files.history;
      var outcome := ApplyAction(session, goal, i, key, pages, actions[i]);
      ExtendsTwice(goal, history0, before, session.files.history);
      if outcome.Err? {
        return Err(outcome.error);
      }
      ActionPlanned(goal, i);
      report := Count(report, outcome.value);
    }
    assert actions[..|actions|] == actions;
    return Ok(report);
  }

  lemma {:induction false} ActionPlanned(goal: Goal, n: nat)
    requires n < |goal.actions| && AcceptedBefore(goal, n + 1)
    ensures goal.actions[n].Rewrite? <==> Planned(goal.key, goal.pages, goal.actions[n]).Some?
  {
    assert Admitted(goal, n);
  }
}
