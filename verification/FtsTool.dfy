/** The report, plan and apply loops of src/index/reconcile.rs and src/index/reconcile_repair.rs over a store. */
module FtsTool {
  import opened Wrappers
  import opened Database
  import opened Ordering
  import opened FtsDrift
  import opened FtsRepair
  import opened SqliteStore
  import Documents
  import FtsTheorems
  import StoreRuns

  // load_canonical_rows

  /** The part of the join found so far: rows satisfying `seen`, each once. */
  ghost predicate PartOfJoin(db: Db, canon: seq<FtsContent>, seen: ChunkIdentity -> bool) {
    && (forall c :: c in canon <==> CanonicalRow(db, c.Identity()) == Some(c) && seen(c.Identity()))
    && (forall i, j :: 0 <= i < j < |canon| ==> canon[i].Identity() != canon[j].Identity())
  }

  ghost function SeenKeys(keys: set<string>): ChunkIdentity -> bool {
    (id: ChunkIdentity) => id.documentKey in keys
  }

  ghost function SeenChunks(keys: set<string>, key: string, chunkIds: set<string>): ChunkIdentity -> bool {
    (id: ChunkIdentity) => id.documentKey in keys || (id.documentKey == key && id.chunkId in chunkIds)
  }

  function ChunkIdsOf(chunks: map<(nat, string), ChunkRow>, id: nat): (ids: set<string>)
    ensures forall chunkId :: chunkId in ids <==> (id, chunkId) in chunks
  {
    set k | k in chunks && k.0 == id :: k.1
  }

  /** The rows of one document. */
  method JoinDocument(store: Store, canon: seq<FtsContent>, key: string, ghost keys: set<string>)
    returns (more: seq<FtsContent>)
    requires key in store.documents && key !in keys
    requires PartOfJoin(store.View(), canon, SeenKeys(keys))
    ensures PartOfJoin(store.View(), more, SeenKeys(keys + {key}))
  {
    ghost var db := store.View();
    var doc := store.documents[key];
    var remaining := ChunkIdsOf(store.chunks, doc.id);
    ghost var done: set<string> := {};
    more := canon;
    SameSeen(db, more, SeenKeys(keys), SeenChunks(keys, key, {}));
    while remaining != {}
      invariant remaining <= ChunkIdsOf(store.chunks, doc.id) && done == ChunkIdsOf(store.chunks, doc.id) - remaining
      invariant PartOfJoin(db, more, SeenChunks(keys, key, done))
      decreases |remaining|
    {
      var chunkId :| chunkId in remaining;
      var row := Documents.IndexContent(key, doc, chunkId, store.chunks[(doc.id, chunkId)]);
      AddToJoin(db, more, row, SeenChunks(keys, key, done), SeenChunks(keys, key, done + {chunkId}));
      remaining, done := remaining - {chunkId}, done + {chunkId};
      more := more + [row];
    }
    SameSeen(db, more, SeenChunks(keys, key, done), SeenKeys(keys + {key}));
  }

  lemma {:induction false} AddToJoin(
    db: Db, canon: seq<FtsContent>, row: FtsContent, seen: ChunkIdentity -> bool, seen': ChunkIdentity -> bool)
    requires PartOfJoin(db, canon, seen) && CanonicalRow(db, row.Identity()) == Some(row)
    requires !seen(row.Identity())
    requires forall id :: seen'(id) <==> seen(id) || id == row.Identity()
    ensures PartOfJoin(db, canon + [row], seen')
  {
    var canon' := canon + [row];
    forall i, j | 0 <= i < j < |canon'| ensures canon'[i].Identity() != canon'[j].Identity() {
      assert canon'[i] in canon;
    }
    forall c ensures c in canon' <==> CanonicalRow(db, c.Identity()) == Some(c) && seen'(c.Identity()) {
      assert c in canon <==> CanonicalRow(db, c.Identity()) == Some(c) && seen(c.Identity());
    }
  }

  lemma {:induction false} SameSeen(
    db: Db, canon: seq<FtsContent>, seen: ChunkIdentity -> bool, seen': ChunkIdentity -> bool)
    requires PartOfJoin(db, canon, seen)
    requires forall id :: CanonicalRow(db, id).Some? ==> seen(id) == seen'(id)
    ensures PartOfJoin(db, canon, seen')
  {
  }

  method LoadCanonicalRows(store: Store) returns (canon: seq<FtsContent>)
    ensures IsCanonicalList(store.View(), canon)
  {
    canon := [];
    var remaining := store.documents.Keys;
    ghost var done: set<string> := {};
    while remaining != {}
      invariant done + remaining == store.documents.Keys && done !! remaining
      invariant PartOfJoin(store.View(), canon, SeenKeys(done))
      decreases |remaining|
    {
      var key :| key in remaining;
      canon := JoinDocument(store, canon, key, done);
      remaining, done := remaining - {key}, done + {key};
    }
  }

  // Grouping index rows by identity

  /** `rows` under their identities, for the identities outside `taken`. */
  ghost predicate Grouped(groups: map<ChunkIdentity, seq<FtsRow>>, rows: seq<FtsRow>, taken: set<ChunkIdentity>) {
    && (forall id :: id in groups <==> id !in taken && RowsFor(rows, id) != [])
    && (forall id :: id in groups ==> groups[id] == RowsFor(rows, id))
  }

  lemma {:induction false} RowsForLast(rows: seq<FtsRow>, row: FtsRow, id: ChunkIdentity)
    ensures RowsFor(rows + [row], id) == RowsFor(rows, id) + if row.content.Identity() == id then [row] else []
  {
    RowsForConcat(rows, [row], id);
    assert [row][1..] == [];
    assert RowsFor([row], id) == (if row.content.Identity() == id then [row] else []) + RowsFor([], id);
  }

  method GroupByIdentity(rows: seq<FtsRow>) returns (groups: map<ChunkIdentity, seq<FtsRow>>)
    ensures Grouped(groups, rows, {})
  {
    groups := map[];
    for i := 0 to |rows|
      invariant Grouped(groups, rows[..i], {})
    {
      var row := rows[i];
      var id := row.content.Identity();
      assert rows[..i + 1] == rows[..i] + [row];
      forall other ensures RowsFor(rows[..i + 1], other)
                        == RowsFor(rows[..i], other) + if id == other then [row] else [] {
        RowsForLast(rows[..i], row, other);
      }
      groups := groups[id := (if id in groups then groups[id] else []) + [row]];
    }
    assert rows[..|rows|] == rows;
  }

  // The issue loops

  function Listed(issue: Option<Issue>): seq<Issue> {
    match issue case None => [] case Some(found) => [found]
  }

  lemma {:induction false} CanonicalIssuesFirst(canon: seq<FtsContent>, fts: seq<FtsRow>)
    requires canon != []
    ensures CanonicalIssues(canon, fts)
         == Listed(Verdict(canon[0], RowsFor(fts, canon[0].Identity()))) + CanonicalIssues(canon[1..], fts)
  {
  }

  lemma {:induction false} MoveLast<T>(a: seq<T>, b: seq<T>, c: seq<T>)
    ensures a + (b + c) == (a + b) + c
  {
  }

  lemma {:induction false} CanonicalIssuesLast(canon: seq<FtsContent>, c: FtsContent, fts: seq<FtsRow>)
    ensures CanonicalIssues(canon + [c], fts)
         == CanonicalIssues(canon, fts) + Listed(Verdict(c, RowsFor(fts, c.Identity())))
  {
    CanonicalIssuesFirst(canon + [c], fts);
    if canon == [] {
      assert canon + [c] == [c] && [c][1..] == [];
    } else {
      CanonicalIssuesLast(canon[1..], c, fts);
      CanonicalIssuesFirst(canon, fts);
      assert (canon + [c])[1..] == canon[1..] + [c];
      MoveLast(Listed(Verdict(canon[0], RowsFor(fts, canon[0].Identity()))), CanonicalIssues(canon[1..], fts),
               Listed(Verdict(c, RowsFor(fts, c.Identity()))));
    }
  }

  lemma {:induction false} TakeGroup(
    groups: map<ChunkIdentity, seq<FtsRow>>, fts: seq<FtsRow>, canon: seq<FtsContent>, i: nat)
    requires i < |canon| && Grouped(groups, fts, IdentitiesOf(canon[..i]))
    requires forall k :: 0 <= k < i ==> canon[k].Identity() != canon[i].Identity()
    ensures
      var id := canon[i].Identity();
      && RowsFor(fts, id) == (if id in groups then groups[id] else [])
      && Grouped(groups - {id}, fts, IdentitiesOf(canon[..i + 1]))
  {
    var id := canon[i].Identity();
    assert canon[..i + 1] == canon[..i] + [canon[i]];
    assert IdentitiesOf(canon[..i + 1]) == IdentitiesOf(canon[..i]) + {id};
    assert id !in IdentitiesOf(canon[..i]);
  }

  function IdentitiesOf(canon: seq<FtsContent>): set<ChunkIdentity> {
    set c | c in canon :: c.Identity()
  }

  /** Verdicts on the canonical chunks; what is left in `groups` belongs to no canonical chunk. */
  method JudgeCanonicalRows(
    canon: seq<FtsContent>, fts: seq<FtsRow>, allGroups: map<ChunkIdentity, seq<FtsRow>>)
    returns (issues: seq<Issue>, groups: map<ChunkIdentity, seq<FtsRow>>)
    requires Grouped(allGroups, fts, {})
    requires forall i, j :: 0 <= i < j < |canon| ==> canon[i].Identity() != canon[j].Identity()
    ensures issues == CanonicalIssues(canon, fts)
    ensures Grouped(groups, fts, IdentitiesOf(canon))
  {
    issues, groups := [], allGroups;
    for i := 0 to |canon|
      invariant issues == CanonicalIssues(canon[..i], fts)
      invariant Grouped(groups, fts, IdentitiesOf(canon[..i]))
    {
      var canonical := canon[i];
      var id := canonical.Identity();
      var rows := if id in groups then groups[id] else [];
      TakeGroup(groups, fts, canon, i);
      assert canon[..i + 1] == canon[..i] + [canonical];
      CanonicalIssuesLast(canon[..i], canonical, fts);
      groups := groups - {id};
      var issue := Judge(canonical, rows);
      if issue.Some? {
        issues := issues + [issue.value];
      }
    }
    assert canon[..|canon|] == canon;
  }

  /** The branches of the loop body; counting and searching are the library's `filter` and `find`. */
  method Judge(canonical: FtsContent, rows: seq<FtsRow>) returns (issue: Option<Issue>)
    ensures issue == Verdict(canonical, rows)
  {
    if rows == [] {
      return Some(MissingIssue(canonical));
    }
    var matching := 0;
    var divergent: Option<FtsRow> := None;
    assert rows[0..] == rows;
    for i := 0 to |rows|
      invariant matching + |Filter(rows[i..], Matches(canonical))| == |Filter(rows, Matches(canonical))|
      invariant (if divergent.Some? then divergent else FirstDivergent(rows[i..], canonical))
             == FirstDivergent(rows, canonical)
    {
      assert rows[i..][0] == rows[i] && rows[i..][1..] == rows[i + 1..];
      if rows[i].content == canonical {
        matching := matching + 1;
      } else if divergent.None? {
        divergent := Some(rows[i]);
      }
    }
    if matching == 1 && |rows| == 1 {
      return None;
    }
    if matching > 0 {
      return Some(StaleIssue(canonical, PartlyMatchingDetail(rows, canonical)));
    }
    return Some(StaleIssue(canonical, DivergentDetail(rows, canonical)));
  }

  function OrphansIn(ids: set<ChunkIdentity>): FtsRow -> bool {
    (row: FtsRow) => row.content.Identity() in ids
  }

  function Map<A, B>(f: A -> B, s: seq<A>): (r: seq<B>)
  {
    if s == [] then [] else [f(s[0])] + Map(f, s[1..])
  }

  lemma {:induction false} MapConcat<A, B>(f: A -> B, a: seq<A>, b: seq<A>)
    ensures Map(f, a + b) == Map(f, a) + Map(f, b)
  {
    if a == [] {
      assert a + b == b;
    } else {
      MapConcat(f, a[1..], b);
      assert (a + b)[0] == a[0] && (a + b)[1..] == a[1..] + b;
    }
  }

  lemma {:induction false} OrphanIssuesIsMap(rows: seq<FtsRow>)
    ensures Map(OrphanIssue, rows) == OrphanIssues(rows)
  {
    if rows != [] {
      OrphanIssuesIsMap(rows[1..]);
    }
  }

  lemma {:induction false} MapFilterFirst<A(!new), B>(f: A -> B, s: seq<A>, p: A -> bool)
    requires s != []
    ensures multiset(Map(f, Filter(s, p)))
         == (if p(s[0]) then multiset{f(s[0])} else multiset{}) + multiset(Map(f, Filter(s[1..], p)))
  {
    if p(s[0]) {
      assert Filter(s, p)[1..] == Filter(s[1..], p);
    } else {
      assert Filter(s, p) == Filter(s[1..], p);
    }
  }

  /** A list filtered by one of two exclusive conditions, seen through `f`. */
  lemma {:induction false} MapEither<A(!new), B>(f: A -> B, s: seq<A>, p: A -> bool, q: A -> bool, either: A -> bool)
    requires forall x :: x in s ==> (either(x) <==> p(x) || q(x)) && !(p(x) && q(x))
    ensures multiset(Map(f, Filter(s, either))) == multiset(Map(f, Filter(s, p))) + multiset(Map(f, Filter(s, q)))
  {
    if s != [] {
      assert forall y :: y in s[1..] ==> y in s;
      assert s[0] in s;
      MapEither(f, s[1..], p, q, either);
      MapFilterFirst(f, s, either);
      MapFilterFirst(f, s, p);
      MapFilterFirst(f, s, q);
    }
  }

  /** One issue for each row with an identity in `ids`, in any order. */
  ghost predicate Reports(issues: seq<Issue>, fts: seq<FtsRow>, ids: set<ChunkIdentity>) {
    multiset(issues) == multiset(Map(OrphanIssue, Filter(fts, OrphansIn(ids))))
  }

  lemma {:induction false} ReportsNone(fts: seq<FtsRow>)
    ensures Reports([], fts, {})
  {
    FilterNone(fts, OrphansIn({}));
  }

  lemma {:induction false} ReportsMore(
    issues: seq<Issue>, fts: seq<FtsRow>, ids: set<ChunkIdentity>, id: ChunkIdentity, found: seq<Issue>)
    requires Reports(issues, fts, ids) && id !in ids
    requires found == Map(OrphanIssue, RowsFor(fts, id))
    ensures Reports(issues + found, fts, ids + {id})
  {
    MapEither(OrphanIssue, fts, OrphansIn(ids), HasIdentity(id), OrphansIn(ids + {id}));
  }

  method ReportOrphans(fts: seq<FtsRow>, groups: map<ChunkIdentity, seq<FtsRow>>)
    returns (issues: seq<Issue>)
    requires forall id :: id in groups ==> groups[id] == RowsFor(fts, id)
    ensures Reports(issues, fts, groups.Keys)
  {
    issues := [];
    var done: set<ChunkIdentity> := {};
    ReportsNone(fts);
    while groups.Keys - done != {}
      invariant done <= groups.Keys
      invariant Reports(issues, fts, done)
      decreases groups.Keys - done
    {
      var id :| id in groups.Keys - done;
      var found := OrphanIssuesOf(groups[id]);
      ReportsMore(issues, fts, done, id, found);
      issues := issues + found;
      done := done + {id};
    }
    forall id | id in groups.Keys ensures id in done {
      assert id !in groups.Keys - done;
    }
    assert done == groups.Keys;
  }

  method OrphanIssuesOf(rows: seq<FtsRow>) returns (issues: seq<Issue>)
    ensures issues == Map(OrphanIssue, rows)
  {
    issues := [];
    for i := 0 to |rows|
      invariant issues == Map(OrphanIssue, rows[..i])
    {
      assert rows[..i + 1] == rows[..i] + [rows[i]];
      MapConcat(OrphanIssue, rows[..i], [rows[i]]);
      issues := issues + [OrphanIssue(rows[i])];
    }
    assert rows[..|rows|] == rows;
  }

  lemma {:induction false} LeftoverIsOrphan(db: Db, canon: seq<FtsContent>, groups: map<ChunkIdentity, seq<FtsRow>>)
    requires IsCanonicalList(db, canon)
    requires Grouped(groups, db.fts, IdentitiesOf(canon))
    ensures Filter(db.fts, OrphansIn(groups.Keys)) == Filter(db.fts, IsOrphan(db))
  {
    forall row | row in db.fts ensures OrphansIn(groups.Keys)(row) == IsOrphan(db)(row) {
      var id := row.content.Identity();
      FilterMember(db.fts, HasIdentity(id), row);
      assert RowsFor(db.fts, id) != [];
      var ids := IdentitiesOf(canon);
      if CanonicalRow(db, id).Some? {
        assert CanonicalRow(db, id).value in canon;
      }
      assert id in ids <==> CanonicalRow(db, id).Some?;
    }
    FilterSame(db.fts, OrphansIn(groups.Keys), IsOrphan(db));
  }

  lemma {:induction false} SortOfSame(a: seq<Issue>, b: seq<Issue>)
    requires multiset(a) == multiset(b)
    ensures Sort(a, IssueLe) == Sort(b, IssueLe)
  {
    IssueOrder();
    SortSorts(a, IssueLe);
    SortSorts(b, IssueLe);
    SortedUnique(Sort(a, IssueLe), Sort(b, IssueLe), IssueLe);
  }

  method ReconcileIndex(store: Store) returns (report: Report, canon: seq<FtsContent>)
    ensures IsCanonicalList(store.View(), canon)
    ensures report == Report(|canon|, |store.fts|, IssuesFor(store.View(), canon))
  {
    ghost var db := store.View();
    canon := LoadCanonicalRows(store);
    var rows := store.fts;
    var allGroups := GroupByIdentity(rows);
    var issues, groups := JudgeCanonicalRows(canon, rows, allGroups);
    var orphaned := ReportOrphans(rows, groups);
    LeftoverIsOrphan(db, canon, groups);
    OrphanIssuesIsMap(Filter(rows, IsOrphan(db)));
    SortOfSame(issues + orphaned, CanonicalIssues(canon, rows) + OrphanIssues(Filter(rows, IsOrphan(db))));
    report := Report(|canon|, |rows|, Sort(issues + orphaned, IssueLe));
  }

  // plan_sqlite_fts_repairs

  lemma {:induction false} PlanStep(issues: seq<Issue>, i: nat, planned: set<ChunkIdentity>)
    requires i < |issues|
    ensures
      var issue, rest := issues[i], issues[i + 1..];
      PlanActions(issues[i..], planned)
      == if issue.kind == Orphaned then [ActionFor(issue)] + PlanActions(rest, planned)
         else if issue.Identity() in planned then PlanActions(rest, planned)
         else [ActionFor(issue)] + PlanActions(rest, planned + {issue.Identity()})
  {
    assert issues[i..][0] == issues[i] && issues[i..][1..] == issues[i + 1..];
  }

  lemma {:induction false} MoveFirst<T>(before: seq<T>, x: T, after: seq<T>)
    ensures before + ([x] + after) == (before + [x]) + after
  {
  }

  method PlanRepairs(issues: seq<Issue>) returns (plan: seq<Action>)
    ensures plan == PlanFor(issues)
  {
    var planned: set<ChunkIdentity> := {};
    var actions: seq<Action> := [];
    assert issues[0..] == issues;
    for i := 0 to |issues|
      invariant PlanActions(issues, {}) == actions + PlanActions(issues[i..], planned)
    {
      var issue := issues[i];
      PlanStep(issues, i, planned);
      if issue.kind == Orphaned {
        MoveFirst(actions, ActionFor(issue), PlanActions(issues[i + 1..], planned));
        actions := actions + [ActionFor(issue)];
      } else if issue.Identity() !in planned {
        planned := planned + {issue.Identity()};
        MoveFirst(actions, ActionFor(issue), PlanActions(issues[i + 1..], planned));
        actions := actions + [ActionFor(issue)];
      }
    }
    assert issues[|issues|..] == [];
    assert actions == PlanActions(issues, {});
    plan := Sort(actions, ActionLe);
  }

  // apply_sqlite_fts_repair_plan

  method RewriteFromCanonicalRow(store: Store, rows: seq<FtsRow>, id: ChunkIdentity)
    returns (r: Result<Rewrite, StoreError>)
    ensures r == RewriteRow(store.View(), rows, id)
  {
    var canonical := CanonicalRow(store.View(), id);
    if canonical.None? {
      return Err(NoCanonicalChunk(id));
    }
    var observed := RowsFor(rows, id);
    if |observed| == 1 && observed[0].content == canonical.value {
      return Ok(Rewrite(false, rows));
    }
    var kept := Filter(rows, Lacks(id));
    return Ok(Rewrite(true, kept + [FtsRow(Documents.NextRowid(kept), canonical.value)]));
  }

  /** The transaction works on `rows` and is committed by the assignment to `store.fts`. */
  method ApplyRepairPlan(store: Store, plan: seq<Action>) returns (r: Result<Counts, StoreError>)
    requires store.Valid()
    modifies store
    ensures store.Valid() && store.View() == StoreRuns.Next(old(store.View()), StoreRuns.RepairIndex(plan))
    ensures match ApplyPlan(old(store.View()), plan)
            case Ok(applied) => r == Ok(applied.counts)
            case Err(error) => r == Err(error)
  {
    ghost var before := store.View();
    var rows, counts := store.fts, Counts(0, 0, 0);
    assert plan[0..] == plan;
    for i := 0 to |plan|
      invariant store.View() == before
      invariant ApplyPlan(before, plan) == ApplyActions(before, rows, plan[i..], counts)
    {
      assert plan[i..][0] == plan[i] && plan[i..][1..] == plan[i + 1..];
      if plan[i].kind == ManualReviewOrphan {
        counts := counts.(manualReview := counts.manualReview + 1);
      } else {
        var rewrite := RewriteFromCanonicalRow(store, rows, plan[i].Identity());
        if rewrite.Err? {
          return Err(rewrite.error);
        }
        if rewrite.value.changed {
          counts := counts.(rewritten := counts.rewritten + 1);
        } else {
          counts := counts.(skipped := counts.skipped + 1);
        }
        rows := rewrite.value.fts;
      }
    }
    store.fts := rows;
    assert store.View() == StoreRuns.Next(before, StoreRuns.RepairIndex(plan));
    StoreRuns.StepKeepsDb(before, StoreRuns.RepairIndex(plan));
    return Ok(counts);
  }

  // apply_sqlite_fts_repairs: report, plan, apply

  datatype ApplyResponse = ApplyResponse(issueCount: nat, rewritten: nat, alreadyCurrent: nat, manualReview: nat)

  /** `after` is what a repair of `before` should leave, and `response` what it should say. */
  ghost predicate Repaired(before: Db, after: Db, canon: seq<FtsContent>, response: ApplyResponse) {
    && after == before.(fts := after.fts)
    && Filter(after.fts, IsOrphan(after)) == Filter(before.fts, IsOrphan(before))
    && IssuesFor(after, canon) == Filter(IssuesFor(before, canon), IsKind(Orphaned))
    && response.issueCount == |IssuesFor(before, canon)|
    && response.alreadyCurrent == 0
    && response.manualReview == |Filter(after.fts, IsOrphan(after))|
    && response.issueCount == response.rewritten + response.manualReview
  }

  lemma {:induction false} FreshRepair(db: Db, canon: seq<FtsContent>)
    requires IsCanonicalList(db, canon)
    ensures ApplyPlan(db, PlanFor(IssuesFor(db, canon))).Ok?
    ensures
      var applied := ApplyPlan(db, PlanFor(IssuesFor(db, canon))).value;
      Repaired(db, db.(fts := applied.fts), canon, ApplyResponse(
        |IssuesFor(db, canon)|, applied.counts.rewritten, applied.counts.skipped, applied.counts.manualReview))
  {
    FtsTheorems.FreshPlanApplies(db, canon);
    FtsTheorems.RepairConverges(db, canon, canon);
    FtsTheorems.CountsAddUp(db, canon);
    FtsTheorems.SameJoin(db, ApplyPlan(db, PlanFor(IssuesFor(db, canon))).value.fts, canon);
  }

  lemma {:induction false} NextIsApplied(db: Db, plan: seq<Action>)
    requires ApplyPlan(db, plan).Ok?
    ensures StoreRuns.Next(db, StoreRuns.RepairIndex(plan)) == db.(fts := ApplyPlan(db, plan).value.fts)
  {
  }

  /** A fresh repair always succeeds, skips nothing, and leaves for the next report the orphans alone. */
  method RepairIndex(store: Store) returns (r: Result<ApplyResponse, StoreError>, ghost canon: seq<FtsContent>)
    requires store.Valid()
    modifies store
    ensures store.Valid() && IsCanonicalList(old(store.View()), canon)
    ensures r.Ok? && Repaired(old(store.View()), store.View(), canon, r.value)
  {
    ghost var before := store.View();
    var report, rows := ReconcileIndex(store);
    canon := rows;
    var plan := PlanRepairs(report.issues);
    var counts := ApplyRepairPlan(store, plan);
    FreshRepair(before, canon);
    NextIsApplied(before, plan);
    r := Ok(ApplyResponse(
      |report.issues|, counts.value.rewritten, counts.value.skipped, counts.value.manualReview));
  }
}
