/** Planning and applying repairs of derived files (src/ingest/reconcile_repair.rs, reconcile_repair_apply.rs). */
module ArtifactRepair {
  import opened ArtifactReport
  import opened Database
  import opened FileCompare
  import opened Ordering
  import opened Utf8
  import opened Wrappers
  import Decimal

  // The plan

  datatype Reason = WasMissing | WasStale

  datatype Action =
    | Rewrite(kind: ArtifactKind, path: Path, pageNumber: Option<nat>, reason: Reason)
    | Review(kind: ArtifactKind, path: Path, pageNumber: Option<nat>, detail: string)

  function ActionFor(issue: Issue): Action {
    match issue.issue
    case Missing => Rewrite(issue.kind, issue.path, issue.pageNumber, WasMissing)
    case Stale => Rewrite(issue.kind, issue.path, issue.pageNumber, WasStale)
    case Orphaned => Review(issue.kind, issue.path, issue.pageNumber, issue.detail)
  }

  function ActionsFor(issues: seq<Issue>): seq<Action> {
    if issues == [] then [] else [ActionFor(issues[0])] + ActionsFor(issues[1..])
  }

  /** The derived `Ord`: rewrites first, then field by field. */
  predicate ActionLe(a: Action, b: Action) {
    if a.Rewrite? != b.Rewrite? then a.Rewrite?
    else if a.kind != b.kind then KindRank(a.kind) < KindRank(b.kind)
    else if a.path != b.path then PathLe(a.path, b.path)
    else if a.pageNumber != b.pageNumber then NumberLe(a.pageNumber, b.pageNumber)
    else if a.Rewrite? then a.reason.WasMissing? || (b.Rewrite? && b.reason.WasStale?)
    else b.Review? && StringLe(a.detail, b.detail)
  }

  function PlanFor(issues: seq<Issue>): seq<Action> {
    Sort(ActionsFor(issues), ActionLe)
  }

  // What a rewrite action may write

  function PageByNumber(pages: seq<Page>, number: nat): (page: Option<Page>)
    ensures page.Some? ==> page.value in pages && page.value.number == number
    ensures page.None? ==> forall p :: p in pages ==> p.number != number
  {
    if pages == [] then None
    else if pages[0].number == number then Some(pages[0])
    else PageByNumber(pages[1..], number)
  }

  /** `expected_path_for_action`; `None` is an invalid action. */
  function ExpectedPath(key: string, kind: ArtifactKind, number: Option<nat>): Option<Path> {
    if kind.DocumentText? then if number.None? then Some(DocumentTextPath(key)) else None
    else if number.Some? && number.value > 0 then Some(PagePath(kind, key, number.value))
    else None
  }

  /** `expected_bytes_for_action`; `None` is an invalid action. */
  function ExpectedBytes(pages: seq<Page>, kind: ArtifactKind, number: Option<nat>): Option<seq<byte>> {
    if kind.DocumentText? then if pages == [] then None else Some(Encode(CombinedText(pages)))
    else if number.None? || number.value == 0 then None
    else
      match PageByNumber(pages, number.value)
      case None => None
      case Some(page) =>
        if kind.OcrPageText? && page.textSource != LocalOcr then None else Some(Encode(page.text))
  }

  /** The content an action must give its path. */
  function Planned(key: string, pages: seq<Page>, action: Action): Option<seq<byte>> {
    if action.Rewrite? && ExpectedPath(key, action.kind, action.pageNumber) == Some(action.path) then
      ExpectedBytes(pages, action.kind, action.pageNumber)
    else None
  }

  lemma {:induction false} SameNameSameNumber(m: nat, n: nat)
    requires FileName(m) == FileName(n)
    ensures m == n
  {
    var a, b := Decimal.ToDecimal(m), Decimal.ToDecimal(n);
    assert FileName(m)[..|FileName(m)| - 4] == a && FileName(n)[..|FileName(n)| - 4] == b;
    Decimal.DecimalInjective(m, n);
  }

  /** A canonical path belongs to one kind and page only. */
  lemma {:induction false} PathDetermines(key: string, a: ArtifactKind, m: Option<nat>, b: ArtifactKind, n: Option<nat>)
    requires ExpectedPath(key, a, m).Some? && ExpectedPath(key, a, m) == ExpectedPath(key, b, n)
    ensures a == b && m == n
  {
    DirsDiffer(key);
    var path := ExpectedPath(key, a, m).value;
    if !a.DocumentText? && !b.DocumentText? {
      assert path[0] == PageDir(a, key)[0] && path[0] == PageDir(b, key)[0];
      assert path[3] == FileName(m.value) && path[3] == FileName(n.value);
      SameNameSameNumber(m.value, n.value);
    }
  }

  // What a crash may leave behind

  /** `unique_temp_name`. */
  function TempName(processId: nat, reason: Reason, sequence: nat): string {
    ".repair-apply-" + Decimal.ToDecimal(processId) + (if reason.WasMissing? then "-missing-" else "-stale-")
    + Decimal.ToDecimal(sequence) + ".tmp"
  }

  ghost predicate IsTemp(path: Path) {
    path != [] && exists processId, reason, sequence :: path[|path| - 1] == TempName(processId, reason, sequence)
  }

  function Parent(path: Path): Path {
    if path == [] then [] else path[..|path| - 1]
  }

  predicate IsDirectory(tree: Tree, path: Path) {
    path in tree && tree[path].Directory?
  }

  predicate Beside(p: Path, q: Path) {
    |p| == |q| && Parent(p) == Parent(q)
  }

  predicate ProperPrefix(p: Path, q: Path) {
    0 < |p| < |q| && p == q[..|p|]
  }

  /**
   What is being repaired: the files as found, the stored pages, and the plan; and where the
   temporary names of the process doing it start.
   */
  datatype Goal = Goal(
    tree: Tree, key: string, pages: seq<Page>, actions: seq<Action>, processId: nat, from: nat)

  /** `path` is rewritten by the plan, with this content. */
  ghost predicate Wants(goal: Goal, path: Path, content: seq<byte>) {
    exists a :: a in goal.actions && a.path == path && Planned(goal.key, goal.pages, a) == Some(content)
  }

  ghost predicate Wanted(goal: Goal, path: Path) {
    exists content :: Wants(goal, path, content)
  }

  ghost predicate AsFound(goal: Goal, tree: Tree, path: Path) {
    if path in goal.tree then path in tree && tree[path] == goal.tree[path] else path !in tree
  }

  ghost predicate IsNewParent(goal: Goal, tree: Tree, path: Path) {
    && path in tree && path !in goal.tree && tree[path].Directory?
    && exists q :: Wanted(goal, q) && ProperPrefix(path, q)
  }

  /** A temporary name this process may use from here on. */
  ghost predicate OwnTemp(goal: Goal, path: Path) {
    && path != []
    && exists reason, sequence ::
         goal.from <= sequence && path[|path| - 1] == TempName(goal.processId, reason, sequence)
  }

  /** Such a name next to a planned file. */
  ghost predicate IsScratch(goal: Goal, path: Path) {
    OwnTemp(goal, path) && exists t :: Wanted(goal, t) && Beside(path, t)
  }

  /** A planned file is as found, absent or completely new; own temporaries may come and go; the rest is as found. */
  ghost predicate SafeAt(goal: Goal, tree: Tree, path: Path) {
    || AsFound(goal, tree, path)
    || (IsScratch(goal, path) && (path in tree ==> tree[path].File?))
    || IsNewParent(goal, tree, path)
    || (Wanted(goal, path) && (path !in tree || (tree[path].File? && Wants(goal, path, tree[path].content))))
  }

  ghost predicate Safe(goal: Goal, tree: Tree) {
    && WellFormed(tree)
    && forall path :: SafeAt(goal, tree, path)
  }

  // The file system, one primitive at a time

  /** A tree of files; `history` holds every state it has been in, which is where a crash can stop. */
  class FileTree {
    var nodes: Tree
    ghost var history: seq<Tree>
    ghost var faults: nat

    ghost predicate Valid()
      reads this
    {
      WellFormed(nodes) && history != [] && history[|history| - 1] == nodes
    }

    constructor (found: Tree)
      requires WellFormed(found)
      ensures Valid() && nodes == found && history == [found] && faults == 0
    {
      nodes, history, faults := found, [found], 0;
    }

    /** The operating system refuses at will; each refusal counts as a fault. */
    method Attempt() returns (ok: bool)
      modifies this`faults
      ensures faults == old(faults) + if ok then 0 else 1
    {
      ok := *;
      if !ok {
        faults := faults + 1;
      }
    }

    /** One directory of `create_dir_all`. */
    method MakeDir(path: Path) returns (ok: bool)
      requires Valid() && path !in nodes && path != []
      requires |path| > 1 ==> path[..|path| - 1] in nodes && nodes[path[..|path| - 1]] == Directory
      modifies this
      ensures Valid() && faults == old(faults) + (if ok then 0 else 1)
      ensures ok ==> nodes == old(nodes)[path := Directory] && history == old(history) + [nodes]
      ensures !ok ==> nodes == old(nodes) && history == old(history)
    {
      ok := Attempt();
      if ok {
        NewNodeKeeps(nodes, path, Directory);
        nodes := nodes[path := Directory];
        history := history + [nodes];
      }
    }

    /** `File::create`: an empty file, in place of an old one. */
    method CreateFile(path: Path) returns (ok: bool)
      requires Valid() && path != []
      requires |path| > 1 ==> path[..|path| - 1] in nodes && nodes[path[..|path| - 1]] == Directory
      modifies this
      ensures Valid()
      ensures ok ==> nodes == old(nodes)[path := File([])] && history == old(history) + [nodes]
      ensures !ok ==> nodes == old(nodes) && history == old(history)
      ensures path in old(nodes) && old(nodes)[path].Directory? ==> !ok && faults == old(faults)
      ensures !(path in old(nodes) && old(nodes)[path].Directory?) ==> faults == old(faults) + if ok then 0 else 1
    {
      if path in nodes && nodes[path].Directory? {
        return false;
      }
      ok := Attempt();
      if ok {
        NewNodeKeeps(nodes, path, File([]));
        nodes := nodes[path := File([])];
        history := history + [nodes];
      }
    }

    /** One `write` call. */
    method Append(path: Path, bytes: seq<byte>) returns (ok: bool)
      requires Valid() && path != [] && path in nodes && nodes[path].File?
      modifies this
      ensures Valid() && faults == old(faults) + (if ok then 0 else 1)
      ensures ok ==> nodes == old(nodes)[path := File(old(nodes)[path].content + bytes)]
      ensures ok ==> history == old(history) + [nodes]
      ensures !ok ==> nodes == old(nodes) && history == old(history)
    {
      ok := Attempt();
      if ok {
        assert |path| > 1 ==> nodes[path[..|path| - 1]] == Directory;
        NewNodeKeeps(nodes, path, File(nodes[path].content + bytes));
        nodes := nodes[path := File(nodes[path].content + bytes)];
        history := history + [nodes];
      }
    }

    method RemoveFile(path: Path) returns (ok: bool)
      requires Valid()
      modifies this
      ensures Valid()
      ensures ok ==> nodes == old(nodes) - {path} && history == old(history) + [nodes]
      ensures ok ==> path in old(nodes) && old(nodes)[path].File?
      ensures !ok ==> nodes == old(nodes) && history == old(history)
      ensures path in old(nodes) && old(nodes)[path].File? ==> faults == old(faults) + if ok then 0 else 1
      ensures !(path in old(nodes) && old(nodes)[path].File?) ==> faults == old(faults)
    {
      if path !in nodes || nodes[path].Directory? {
        return false;
      }
      ok := Attempt();
      if ok {
        RemoveKeeps(nodes, path);
        nodes := nodes - {path};
        history := history + [nodes];
      }
    }

    /** `rename` onto a path that is not taken. */
    method Rename(from: Path, to: Path) returns (ok: bool)
      requires Valid() && from in nodes && nodes[from].File? && to !in nodes && to != []
      requires |to| > 1 ==> to[..|to| - 1] in nodes && nodes[to[..|to| - 1]] == Directory
      modifies this
      ensures Valid() && faults == old(faults) + (if ok then 0 else 1)
      ensures ok ==> nodes == (old(nodes) - {from})[to := old(nodes)[from]] && history == old(history) + [nodes]
      ensures !ok ==> nodes == old(nodes) && history == old(history)
    {
      ok := Attempt();
      if ok {
        var node := nodes[from];
        RemoveKeeps(nodes, from);
        NewNodeKeeps(nodes - {from}, to, node);
        nodes := (nodes - {from})[to := node];
        history := history + [nodes];
      }
    }
  }

  lemma {:induction false} NewNodeKeeps(tree: Tree, path: Path, node: Node)
    requires WellFormed(tree) && path != []
    requires |path| > 1 ==> path[..|path| - 1] in tree && tree[path[..|path| - 1]] == Directory
    requires path in tree ==> tree[path].File?
    ensures WellFormed(tree[path := node])
  {
    var tree' := tree[path := node];
    forall p, n: nat | p in tree' && 0 < n < |p| ensures p[..n] in tree' && tree'[p[..n]] == Directory {
      if p == path {
        var parent := path[..|path| - 1];
        if n < |parent| {
          assert parent[..n] == p[..n];
        } else {
          assert parent == p[..n];
        }
      } else {
        assert p[..n] in tree && tree[p[..n]] == Directory;
      }
    }
  }

  lemma {:induction false} RemoveKeeps(tree: Tree, path: Path)
    requires WellFormed(tree) && path in tree && tree[path].File?
    ensures WellFormed(tree - {path})
  {
    forall p, n: nat | p in tree - {path} && 0 < n < |p|
      ensures p[..n] in tree - {path} && (tree - {path})[p[..n]] == Directory
    {
      assert tree[p[..n]] == Directory;
    }
  }

  // Which steps keep a goal safe

  lemma {:induction false} TempIsNoTarget(key: string, kind: ArtifactKind, number: Option<nat>)
    requires ExpectedPath(key, kind, number).Some?
    ensures !IsTemp(ExpectedPath(key, kind, number).value)
  {
    var path := ExpectedPath(key, kind, number).value;
    var name := path[|path| - 1];
    assert name[|name| - 1] == ".txt"[3];
    forall processId, reason, sequence ensures name != TempName(processId, reason, sequence) {
      var temp := TempName(processId, reason, sequence);
      assert temp[|temp| - 1] == ".tmp"[3];
    }
  }

  /** Nothing in the directory of a canonical path leads to another canonical path. */
  lemma {:induction false} TargetsAreLeaves(
    key: string, p: Path, a: ArtifactKind, m: Option<nat>, b: ArtifactKind, n: Option<nat>)
    requires ExpectedPath(key, a, m).Some? && ExpectedPath(key, b, n).Some?
    requires Beside(p, ExpectedPath(key, a, m).value)
    ensures !ProperPrefix(p, ExpectedPath(key, b, n).value)
  {
    DirsDiffer(key);
    var t, q := ExpectedPath(key, a, m).value, ExpectedPath(key, b, n).value;
    assert p[1] == Parent(p)[1] == t[1];
    if |p| < |q| {
      assert q[..|p|][1] == q[1];
    }
  }

  lemma {:induction false} WantedAreLeaves(goal: Goal, p: Path, t: Path, q: Path)
    requires Wanted(goal, t) && Wanted(goal, q) && Beside(p, t)
    ensures !ProperPrefix(p, q)
  {
    var content :| Wants(goal, t, content);
    var content' :| Wants(goal, q, content');
    var a, m := WantedPath(goal, t, content);
    var b, n := WantedPath(goal, q, content');
    TargetsAreLeaves(goal.key, p, a, m, b, n);
  }

  lemma {:induction false} WantedPath(goal: Goal, path: Path, content: seq<byte>)
    returns (kind: ArtifactKind, number: Option<nat>)
    requires Wants(goal, path, content)
    ensures ExpectedPath(goal.key, kind, number) == Some(path)
    ensures ExpectedBytes(goal.pages, kind, number) == Some(content)
  {
    var a :| a in goal.actions && a.path == path && Planned(goal.key, goal.pages, a) == Some(content);
    kind, number := a.kind, a.pageNumber;
  }

  lemma {:induction false} WantedOnce(goal: Goal, path: Path, a: seq<byte>, b: seq<byte>)
    requires Wants(goal, path, a) && Wants(goal, path, b)
    ensures a == b
  {
    var kind, number := WantedPath(goal, path, a);
    var kind', number' := WantedPath(goal, path, b);
    PathDetermines(goal.key, kind, number, kind', number');
  }

  /** In a safe state a planned file is as found, absent, or holds exactly the content planned for it. */
  lemma {:induction false} SafeFile(goal: Goal, tree: Tree, action: Action)
    requires Safe(goal, tree) && action in goal.actions && Planned(goal.key, goal.pages, action).Some?
    ensures || AsFound(goal, tree, action.path)
            || action.path !in tree
            || tree[action.path] == File(Planned(goal.key, goal.pages, action).value)
  {
    var content := Planned(goal.key, goal.pages, action).value;
    assert SafeAt(goal, tree, action.path) && Wants(goal, action.path, content);
    TempIsNoTarget(goal.key, action.kind, action.pageNumber);
    if IsNewParent(goal, tree, action.path) {
      var q :| Wanted(goal, q) && ProperPrefix(action.path, q);
      WantedAreLeaves(goal, action.path, action.path, q);
    } else if action.path in tree && tree[action.path].File? && Wants(goal, action.path, tree[action.path].content) {
      WantedOnce(goal, action.path, content, tree[action.path].content);
    }
  }

  lemma {:induction false} FoundIsSafe(goal: Goal)
    requires WellFormed(goal.tree)
    ensures Safe(goal, goal.tree)
  {
  }

  lemma {:induction false} ElsewhereSafe(goal: Goal, tree: Tree, tree': Tree, path: Path)
    requires Safe(goal, tree) && WellFormed(tree') && SafeAt(goal, tree', path)
    requires forall p :: p != path ==> ((p in tree' <==> p in tree) && (p in tree ==> tree'[p] == tree[p]))
    ensures Safe(goal, tree')
  {
    forall p ensures SafeAt(goal, tree', p) {
      assert SafeAt(goal, tree, p);
    }
  }

  /** `after` continues `before`, and a crash in any of the added states is harmless. */
  ghost predicate Extends(goal: Goal, before: seq<Tree>, after: seq<Tree>) {
    && before <= after
    && forall i :: |before| <= i < |after| ==> Safe(goal, after[i])
  }

  function DirsMade(tree: Tree, dir: Path, n: nat): Tree
    requires n <= |dir|
  {
    if n == 0 then tree
    else
      var made := DirsMade(tree, dir, n - 1);
      if dir[..n] in made then made else made[dir[..n] := Directory]
  }

  ghost predicate Blocked(tree: Tree, dir: Path) {
    exists n :: 0 < n <= |dir| && dir[..n] in tree && tree[dir[..n]].File?
  }

  predicate LeadsTo(p: Path, dir: Path, n: nat) {
    0 < |p| <= n && |p| <= |dir| && p == dir[..|p|]
  }

  lemma {:induction false} DirsMadeMeaning(tree: Tree, dir: Path, n: nat, p: Path)
    requires n <= |dir|
    ensures p in DirsMade(tree, dir, n) <==> p in tree || LeadsTo(p, dir, n)
    ensures p in DirsMade(tree, dir, n) ==> DirsMade(tree, dir, n)[p] == if p in tree then tree[p] else Directory
  {
    if n > 0 {
      DirsMadeMeaning(tree, dir, n - 1, p);
      DirsMadeMeaning(tree, dir, n - 1, dir[..n]);
    }
  }

  /** `create_dir_all`. */
  method CreateDirAll(files: FileTree, dir: Path, ghost goal: Goal, ghost target: Path) returns (ok: bool)
    requires files.Valid() && Safe(goal, files.nodes)
    requires Wanted(goal, target) && |target| > 1 && dir == Parent(target)
    modifies files
    ensures files.Valid() && Safe(goal, files.nodes) && Extends(goal, old(files.history), files.history)
    ensures ok ==> files.nodes == DirsMade(old(files.nodes), dir, |dir|) && files.faults == old(files.faults)
    ensures ok ==> dir in files.nodes && files.nodes[dir] == Directory
    ensures !ok && files.faults == old(files.faults) ==> Blocked(old(files.nodes), dir)
    ensures files.faults >= old(files.faults)
  {
    ghost var found := files.nodes;
    assert DirsMade(found, dir, 0) == found;
    for n := 0 to |dir|
      invariant files.Valid() && Safe(goal, files.nodes) && Extends(goal, old(files.history), files.history)
      invariant files.nodes == DirsMade(found, dir, n) && files.faults == old(files.faults)
      invariant n > 0 ==> dir[..n] in files.nodes && files.nodes[dir[..n]] == Directory
    {
      var next := dir[..n + 1];
      DirsMadeMeaning(found, dir, n, next);
      assert Parent(next) == dir[..n];
      if next in files.nodes {
        if files.nodes[next].File? {
          assert found[next].File?;
          return false;
        }
      } else {
        ghost var before := files.nodes;
        var made := files.MakeDir(next);
        if !made {
          return false;
        }
        assert ProperPrefix(next, target);
        NewParentSafe(goal, before, files.nodes, next, target);
      }
    }
    assert dir[..|dir|] == dir;
    return true;
  }

  lemma {:induction false} NewParentSafe(goal: Goal, tree: Tree, tree': Tree, path: Path, target: Path)
    requires Safe(goal, tree) && WellFormed(tree') && path !in tree && tree' == tree[path := Directory]
    requires Wanted(goal, target) && ProperPrefix(path, target)
    ensures Safe(goal, tree')
  {
    assert SafeAt(goal, tree, path);
    if Wanted(goal, path) || IsScratch(goal, path) {
      var t :| Wanted(goal, t) && Beside(path, t);
      WantedAreLeaves(goal, path, t, target);
      assert false;
    }
    assert SafeAt(goal, tree', path);
    ElsewhereSafe(goal, tree, tree', path);
  }

  lemma {:induction false} TempSafe(goal: Goal, tree: Tree, tree': Tree, temp: Path)
    requires Safe(goal, tree) && WellFormed(tree') && IsScratch(goal, temp)
    requires temp in tree' ==> tree'[temp].File?
    requires forall p :: p != temp ==> ((p in tree' <==> p in tree) && (p in tree ==> tree'[p] == tree[p]))
    ensures Safe(goal, tree')
  {
    ElsewhereSafe(goal, tree, tree', temp);
  }

  /** `write_all`, in portions of any size. */
  method WriteAll(files: FileTree, temp: Path, bytes: seq<byte>, ghost goal: Goal) returns (ok: bool)
    requires files.Valid() && Safe(goal, files.nodes) && IsScratch(goal, temp)
    requires temp in files.nodes && files.nodes[temp] == File([])
    modifies files
    ensures files.Valid() && Safe(goal, files.nodes) && Extends(goal, old(files.history), files.history)
    ensures ok ==> files.nodes == old(files.nodes)[temp := File(bytes)]
    ensures ok <==> files.faults == old(files.faults)
    ensures files.faults >= old(files.faults)
  {
    ghost var found := files.nodes;
    var written := 0;
    assert found[temp := File([])] == found;
    while written < |bytes|
      invariant written <= |bytes|
      invariant files.Valid() && Safe(goal, files.nodes) && Extends(goal, old(files.history), files.history)
      invariant files.nodes == found[temp := File(bytes[..written])] && files.faults == old(files.faults)
    {
      var portion: nat :| 0 < portion <= |bytes| - written;
      ghost var before := files.nodes;
      ok := files.Append(temp, bytes[written..written + portion]);
      if !ok {
        return;
      }
      assert bytes[..written] + bytes[written..written + portion] == bytes[..written + portion];
      TempSafe(goal, before, files.nodes, temp);
      written := written + portion;
    }
    assert bytes[..|bytes|] == bytes;
    return true;
  }

  /** `create`, `write_all`, `sync_all`. */
  method WriteTempFile(files: FileTree, temp: Path, bytes: seq<byte>, ghost goal: Goal) returns (ok: bool)
    requires files.Valid() && Safe(goal, files.nodes) && IsScratch(goal, temp)
    requires |temp| > 1 && Parent(temp) in files.nodes && files.nodes[Parent(temp)] == Directory
    modifies files
    ensures files.Valid() && Safe(goal, files.nodes) && Extends(goal, old(files.history), files.history)
    ensures ok ==> files.nodes == old(files.nodes)[temp := File(bytes)] && files.faults == old(files.faults)
    ensures !ok && files.faults == old(files.faults) ==> IsDirectory(old(files.nodes), temp)
    ensures ok ==> !IsDirectory(old(files.nodes), temp)
    ensures files.faults >= old(files.faults)
  {
    ghost var found := files.nodes;
    ok := files.CreateFile(temp);
    if !ok {
      return;
    }
    TempSafe(goal, found, files.nodes, temp);
    ok := WriteAll(files, temp, bytes, goal);
    if !ok {
      return;
    }
    assert files.nodes == found[temp := File(bytes)];
    ok := files.Attempt();
  }

  lemma {:induction false} RemoveSafe(goal: Goal, tree: Tree, target: Path)
    requires Safe(goal, tree) && WellFormed(tree - {target}) && Wanted(goal, target)
    ensures Safe(goal, tree - {target})
  {
    ElsewhereSafe(goal, tree, tree - {target}, target);
  }

  lemma {:induction false} RenameSafe(goal: Goal, tree: Tree, temp: Path, target: Path, bytes: seq<byte>)
    requires Safe(goal, tree) && IsScratch(goal, temp) && Wants(goal, target, bytes) && temp != target
    requires WellFormed((tree - {temp})[target := File(bytes)])
    ensures Safe(goal, (tree - {temp})[target := File(bytes)])
  {
    var tree' := (tree - {temp})[target := File(bytes)];
    forall p ensures SafeAt(goal, tree', p) {
      assert SafeAt(goal, tree, p);
      if p == target {
        assert Wanted(goal, target);
      }
    }
  }

  /** Remove, then rename: between the two the target is absent. */
  method ReplaceTargetFile(files: FileTree, temp: Path, target: Path, ghost bytes: seq<byte>, ghost goal: Goal)
    returns (ok: bool)
    requires files.Valid() && Safe(goal, files.nodes)
    requires IsScratch(goal, temp) && temp != target && temp in files.nodes && files.nodes[temp] == File(bytes)
    requires Wants(goal, target, bytes) && |target| > 1
    requires Parent(target) in files.nodes && files.nodes[Parent(target)] == Directory
    requires target in files.nodes ==> files.nodes[target].File?
    modifies files
    ensures files.Valid() && Safe(goal, files.nodes) && Extends(goal, old(files.history), files.history)
    ensures ok ==> files.nodes == (old(files.nodes) - {temp})[target := File(bytes)]
    ensures ok <==> files.faults == old(files.faults)
    ensures files.faults >= old(files.faults)
  {
    ghost var found := files.nodes;
    assert Wanted(goal, target);
    if target in files.nodes {
      ok := files.RemoveFile(target);
      if !ok {
        return;
      }
      RemoveSafe(goal, found, target);
    }
    ghost var removed := files.nodes;
    ok := files.Rename(temp, target);
    if ok {
      RenameSafe(goal, removed, temp, target, bytes);
      assert files.nodes == (found - {temp})[target := File(bytes)];
    }
  }

  // The applier

  datatype ApplyReport = ApplyReport(rewritten: nat, alreadyCurrent: nat, skippedManualReview: nat)

  datatype ApplyError = InvalidAction(action: Action) | WriteFailed(path: Path)

  class RepairSession {
    const processId: nat
    const files: FileTree
    var counter: nat

    constructor (processId: nat, files: FileTree)
      ensures this.processId == processId && this.files == files && counter == 0
    {
      this.processId := processId;
      this.files := files;
      counter := 0;
    }

    method UniqueTempName(reason: Reason) returns (name: string)
      modifies this`counter
      ensures name == TempName(processId, reason, old(counter)) && counter == old(counter) + 1
    {
      name := TempName(processId, reason, counter);
      counter := counter + 1;
    }

    /** `write_temp_file` and `replace_target_file`; after an error the temporary file is removed if possible. */
    method WriteAndReplace(temp: Path, target: Path, bytes: seq<byte>, ghost goal: Goal) returns (ok: bool)
      requires files.Valid() && Safe(goal, files.nodes)
      requires Wants(goal, target, bytes) && |target| > 1 && |temp| > 1
      requires IsScratch(goal, temp) && temp != target && Parent(temp) == Parent(target)
      requires Parent(target) in files.nodes && files.nodes[Parent(target)] == Directory
      requires target in files.nodes ==> files.nodes[target].File?
      modifies files
      ensures files.Valid() && Safe(goal, files.nodes) && Extends(goal, old(files.history), files.history)
      ensures ok ==> files.nodes == (old(files.nodes) - {temp})[target := File(bytes)]
      ensures ok ==> files.faults == old(files.faults)
      ensures !ok && files.faults == old(files.faults) ==> IsDirectory(old(files.nodes), temp)
      ensures ok ==> !IsDirectory(old(files.nodes), temp)
      ensures files.faults >= old(files.faults)
    {
      ghost var found := files.nodes;
      ok := WriteTempFile(files, temp, bytes, goal);
      if ok {
        assert files.nodes - {temp} == found - {temp};
        ok := ReplaceTargetFile(files, temp, target, bytes, goal);
      }
      if !ok {
        RemoveLeftover(temp, goal);
      }
    }

    method RemoveLeftover(temp: Path, ghost goal: Goal)
      requires files.Valid() && Safe(goal, files.nodes) && IsScratch(goal, temp)
      modifies files
      ensures files.Valid() && Safe(goal, files.nodes) && Extends(goal, old(files.history), files.history)
      ensures files.faults >= old(files.faults)
    {
      ghost var left := files.nodes;
      var removed := files.RemoveFile(temp);
      if removed {
        TempSafe(goal, left, files.nodes, temp);
      }
    }

    /** `write_file_atomic`. */
    method WriteFileAtomic(target: Path, bytes: seq<byte>, reason: Reason, ghost goal: Goal)
      returns (ok: bool, ghost temp: Path)
      requires files.Valid() && Safe(goal, files.nodes)
      requires Wants(goal, target, bytes) && |target| > 1
      requires target in files.nodes ==> files.nodes[target].File?
      requires goal.processId == processId && goal.from <= counter
      modifies files, this`counter
      ensures files.Valid() && Safe(goal, files.nodes) && Extends(goal, old(files.history), files.history)
      ensures temp == Parent(target) + [TempName(processId, reason, old(counter))]
      ensures old(counter) <= counter <= old(counter) + 1 && (ok ==> counter == old(counter) + 1)
      ensures ok ==> files.nodes == (AllDirsMade(old(files.nodes), target) - {temp})[target := File(bytes)]
      ensures ok ==> files.faults == old(files.faults)
      ensures !ok && files.faults == old(files.faults) ==>
                || Blocked(old(files.nodes), Parent(target))
                || IsDirectory(AllDirsMade(old(files.nodes), target), temp)
      ensures ok ==> !IsDirectory(AllDirsMade(old(files.nodes), target), temp)
      ensures files.faults >= old(files.faults)
    {
      temp := Parent(target) + [TempName(processId, reason, counter)];
      assert Wanted(goal, target);
      DirsMadeMeaning(files.nodes, Parent(target), |Parent(target)|, target);
      ok := CreateDirAll(files, Parent(target), goal, target);
      if !ok {
        return;
      }
      var name := UniqueTempName(reason);
      var tempPath := Parent(target) + [name];
      assert tempPath[|tempPath| - 1] == name && IsTemp(tempPath) && Beside(tempPath, target);
      assert OwnTemp(goal, tempPath);
      var kind, number := WantedPath(goal, target, bytes);
      TempIsNoTarget(goal.key, kind, number);
      ok := WriteAndReplace(tempPath, target, bytes, goal);
    }
  }

  function AllDirsMade(tree: Tree, target: Path): Tree {
    DirsMade(tree, Parent(target), |Parent(target)|)
  }
}
