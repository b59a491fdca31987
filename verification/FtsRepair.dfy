/** Planning and applying index repairs, and why they converge (src/index/reconcile_repair.rs). */
module FtsRepair {
  import opened Wrappers
  import opened Database
  import opened Ordering
  import opened FtsDrift
  import Documents

  datatype ActionKind = RewriteFromCanonical | ManualReviewOrphan

  datatype Action = Action(kind: ActionKind, documentKey: string, chunkId: string, reason: string) {
    function Identity(): ChunkIdentity {
      ChunkIdentity(documentKey, chunkId)
    }
  }

  datatype Counts = Counts(rewritten: nat, skipped: nat, manualReview: nat)

  function ActionKey(action: Action): SortKey {
    SortKey(action.documentKey, action.chunkId, if action.kind.RewriteFromCanonical? then 0 else 1, action.reason)
  }

  predicate ActionLe(a: Action, b: Action) {
    KeyLe(ActionKey(a), ActionKey(b))
  }

  lemma {:induction false} ActionOrder()
    ensures TotalOrder(ActionLe)
  {
    KeyOrder();
    forall a, b | ActionLe(a, b) && ActionLe(b, a) ensures a == b {
      assert ActionKey(a) == ActionKey(b);
    }
  }

  // The plan

  function ActionFor(issue: Issue): Action {
    Action(if issue.kind == Orphaned then ManualReviewOrphan else RewriteFromCanonical,
           issue.documentKey, issue.chunkId, issue.detail)
  }

  /** One action per orphan issue; one rewrite per identity not yet `planned`. */
  function PlanActions(issues: seq<Issue>, planned: set<ChunkIdentity>): seq<Action> {
    if issues == [] then []
    else if issues[0].kind == Orphaned then [ActionFor(issues[0])] + PlanActions(issues[1..], planned)
    else if issues[0].Identity() in planned then PlanActions(issues[1..], planned)
    else [ActionFor(issues[0])] + PlanActions(issues[1..], planned + {issues[0].Identity()})
  }

  function PlanFor(issues: seq<Issue>): seq<Action> {
    Sort(PlanActions(issues, {}), ActionLe)
  }

  // The transaction

  function Lacks(id: ChunkIdentity): FtsRow -> bool {
    (row: FtsRow) => row.content.Identity() != id
  }

  datatype Rewrite = Rewrite(changed: bool, fts: seq<FtsRow>)

  predicate IsCurrent(rows: seq<FtsRow>, canonical: FtsContent) {
    |rows| == 1 && rows[0].content == canonical
  }

  function RewriteRow(db: Db, fts: seq<FtsRow>, id: ChunkIdentity): Result<Rewrite, StoreError> {
    match CanonicalRow(db, id)
    case None => Err(NoCanonicalChunk(id))
    case Some(canonical) =>
      if IsCurrent(RowsFor(fts, id), canonical) then Ok(Rewrite(false, fts))
      else
        var kept := Filter(fts, Lacks(id));
        Ok(Rewrite(true, kept + [FtsRow(Documents.NextRowid(kept), canonical)]))
  }

  datatype Applied = Applied(fts: seq<FtsRow>, counts: Counts)

  function ApplyActions(db: Db, fts: seq<FtsRow>, actions: seq<Action>, counts: Counts): Result<Applied, StoreError>
    decreases |actions|
  {
    if actions == [] then Ok(Applied(fts, counts))
    else if actions[0].kind == ManualReviewOrphan then
      ApplyActions(db, fts, actions[1..], counts.(manualReview := counts.manualReview + 1))
    else
      var rewrite :- RewriteRow(db, fts, actions[0].Identity());
      var counts' := if rewrite.changed then counts.(rewritten := counts.rewritten + 1)
                     else counts.(skipped := counts.skipped + 1);
      ApplyActions(db, rewrite.fts, actions[1..], counts')
  }

  /** Commits only when every action went through; otherwise nothing changes. */
  function ApplyPlan(db: Db, actions: seq<Action>): Result<Applied, StoreError> {
    ApplyActions(db, db.fts, actions, Counts(0, 0, 0))
  }

  // Filters

  lemma {:induction false} RowsForConcat(a: seq<FtsRow>, b: seq<FtsRow>, id: ChunkIdentity)
    ensures RowsFor(a + b, id) == RowsFor(a, id) + RowsFor(b, id)
  {
    FilterConcat(a, b, HasIdentity(id));
  }

  lemma {:induction false} RowsForLacks(fts: seq<FtsRow>, id: ChunkIdentity, other: ChunkIdentity)
    ensures RowsFor(Filter(fts, Lacks(id)), other) == if other == id then [] else RowsFor(fts, other)
  {
    if fts != [] {
      RowsForLacks(fts[1..], id, other);
      RowsForConcat(if fts[0].content.Identity() != id then [fts[0]] else [], Filter(fts[1..], Lacks(id)), other);
      assert RowsFor([fts[0]], other) == (if fts[0].content.Identity() == other then [fts[0]] else [])
                                         + RowsFor([fts[0]][1..], other);
    }
  }

  lemma {:induction false} OrphansLack(db: Db, fts: seq<FtsRow>, id: ChunkIdentity)
    requires CanonicalRow(db, id).Some?
    ensures Filter(Filter(fts, Lacks(id)), IsOrphan(db)) == Filter(fts, IsOrphan(db))
  {
    if fts != [] {
      OrphansLack(db, fts[1..], id);
      FilterConcat(
        if fts[0].content.Identity() != id then [fts[0]] else [], Filter(fts[1..], Lacks(id)), IsOrphan(db));
      assert Filter([fts[0]], IsOrphan(db)) == (if IsOrphan(db)(fts[0]) then [fts[0]] else [])
                                               + Filter([fts[0]][1..], IsOrphan(db));
    }
  }

  /** One rewrite makes its own identity current and touches no other row. */
  lemma {:induction false} RewriteRowMeaning(db: Db, fts: seq<FtsRow>, id: ChunkIdentity, other: ChunkIdentity)
    requires CanonicalRow(db, id).Some?
    ensures
      var r := RewriteRow(db, fts, id);
      && r.Ok?
      && IsCurrent(RowsFor(r.value.fts, id), CanonicalRow(db, id).value)
      && (r.value.changed <==> !IsCurrent(RowsFor(fts, id), CanonicalRow(db, id).value))
      && (other != id ==> RowsFor(r.value.fts, other) == RowsFor(fts, other))
      && Filter(r.value.fts, IsOrphan(db)) == Filter(fts, IsOrphan(db))
  {
    var canonical := CanonicalRow(db, id).value;
    if !IsCurrent(RowsFor(fts, id), canonical) {
      var kept := Filter(fts, Lacks(id));
      var added := FtsRow(Documents.NextRowid(kept), canonical);
      AddedRow(db, added, id, other);
      RowsForLacks(fts, id, id);
      RowsForLacks(fts, id, other);
      RowsForConcat(kept, [added], id);
      RowsForConcat(kept, [added], other);
      OrphansLack(db, fts, id);
      FilterConcat(kept, [added], IsOrphan(db));
    }
  }

  lemma {:induction false} AddedRow(db: Db, added: FtsRow, id: ChunkIdentity, other: ChunkIdentity)
    requires CanonicalRow(db, id) == Some(added.content)
    ensures RowsFor([added], id) == [added]
    ensures other != id ==> RowsFor([added], other) == []
    ensures Filter([added], IsOrphan(db)) == []
  {
    assert added.content.Identity() == id;
    assert [added][1..] == [];
    assert RowsFor([], id) == [] && RowsFor([], other) == [];
  }

  // Applying any plan

  ghost predicate Rewrites(actions: seq<Action>, id: ChunkIdentity) {
    exists a :: a in actions && a.kind == RewriteFromCanonical && a.Identity() == id
  }

  function IsActionKind(kind: ActionKind): Action -> bool {
    (action: Action) => action.kind == kind
  }

  /** A plan goes through exactly when each chunk it rewrites still exists. */
  lemma {:induction false} ApplySucceedsIff(db: Db, fts: seq<FtsRow>, actions: seq<Action>, counts: Counts)
    ensures ApplyActions(db, fts, actions, counts).Ok?
       <==> forall id :: Rewrites(actions, id) ==> CanonicalRow(db, id).Some?
    decreases |actions|
  {
    if actions != [] {
      var first := actions[0];
      forall id ensures Rewrites(actions, id)
                   <==> (first.kind == RewriteFromCanonical && first.Identity() == id) || Rewrites(actions[1..], id)
      {
        RewritesCons(actions, id);
      }
      if first.kind == ManualReviewOrphan {
        ApplySucceedsIff(db, fts, actions[1..], counts.(manualReview := counts.manualReview + 1));
      } else if CanonicalRow(db, first.Identity()).Some? {
        var rewrite := RewriteRow(db, fts, first.Identity()).value;
        var counts' := if rewrite.changed then counts.(rewritten := counts.rewritten + 1)
                       else counts.(skipped := counts.skipped + 1);
        ApplySucceedsIff(db, rewrite.fts, actions[1..], counts');
      }
    }
  }

  lemma {:induction false} RewritesCons(actions: seq<Action>, id: ChunkIdentity)
    requires actions != []
    ensures Rewrites(actions, id)
       <==> (actions[0].kind == RewriteFromCanonical && actions[0].Identity() == id) || Rewrites(actions[1..], id)
  {
    if Rewrites(actions[1..], id) {
      var a :| a in actions[1..] && a.kind == RewriteFromCanonical && a.Identity() == id;
      assert a in actions;
    }
  }

  /**
   After any successful plan: rewritten identities are current, all others have the rows they had,
   orphans are as before, and every action is counted once.
   */
  lemma {:induction false} ApplyMeaning(
    db: Db, fts: seq<FtsRow>, actions: seq<Action>, counts: Counts, id: ChunkIdentity)
    requires ApplyActions(db, fts, actions, counts).Ok?
    ensures
      var after := ApplyActions(db, fts, actions, counts).value;
      && (if Rewrites(actions, id) then
            CanonicalRow(db, id).Some? && IsCurrent(RowsFor(after.fts, id), CanonicalRow(db, id).value)
          else RowsFor(after.fts, id) == RowsFor(fts, id))
      && Filter(after.fts, IsOrphan(db)) == Filter(fts, IsOrphan(db))
      && after.counts.rewritten + after.counts.skipped
         == counts.rewritten + counts.skipped + |Filter(actions, IsActionKind(RewriteFromCanonical))|
      && after.counts.manualReview == counts.manualReview + |Filter(actions, IsActionKind(ManualReviewOrphan))|
    decreases |actions|
  {
    if actions != [] {
      var first := actions[0];
      RewritesCons(actions, id);
      if first.kind == ManualReviewOrphan {
        ApplyMeaning(db, fts, actions[1..], counts.(manualReview := counts.manualReview + 1), id);
      } else {
        var rewrite := RewriteRow(db, fts, first.Identity()).value;
        var counts' := if rewrite.changed then counts.(rewritten := counts.rewritten + 1)
                       else counts.(skipped := counts.skipped + 1);
        RewriteRowMeaning(db, fts, first.Identity(), id);
        ApplyMeaning(db, rewrite.fts, actions[1..], counts', id);
      }
    }
  }

  // Counting what was rewritten

  ghost predicate DistinctRewrites(actions: seq<Action>) {
    forall i, j :: 0 <= i < j < |actions| && actions[i].kind == actions[j].kind == RewriteFromCanonical ==>
      actions[i].Identity() != actions[j].Identity()
  }

  /** When all planned chunks have drifted, each rewrite changes something. */
  lemma {:induction false} AllDrifted(db: Db, fts: seq<FtsRow>, actions: seq<Action>, counts: Counts)
    requires DistinctRewrites(actions)
    requires forall a :: a in actions && a.kind == RewriteFromCanonical ==>
               && CanonicalRow(db, a.Identity()).Some?
               && !IsCurrent(RowsFor(fts, a.Identity()), CanonicalRow(db, a.Identity()).value)
    ensures ApplyActions(db, fts, actions, counts).Ok?
    ensures ApplyActions(db, fts, actions, counts).value.counts.skipped == counts.skipped
    decreases |actions|
  {
    if actions != [] {
      var first, rest := actions[0], actions[1..];
      forall i, j | 0 <= i < j < |rest| && rest[i].kind == rest[j].kind == RewriteFromCanonical
        ensures rest[i].Identity() != rest[j].Identity()
      {
        assert rest[i] == actions[i + 1] && rest[j] == actions[j + 1];
      }
      if first.kind == ManualReviewOrphan {
        AllDrifted(db, fts, rest, counts.(manualReview := counts.manualReview + 1));
      } else {
        var rewrite := RewriteRow(db, fts, first.Identity()).value;
        forall a | a in rest && a.kind == RewriteFromCanonical
          ensures RowsFor(rewrite.fts, a.Identity()) == RowsFor(fts, a.Identity())
        {
          var j :| 0 <= j < |rest| && rest[j] == a;
          assert actions[0].Identity() != actions[j + 1].Identity();
          RewriteRowMeaning(db, fts, first.Identity(), a.Identity());
        }
        RewriteRowMeaning(db, fts, first.Identity(), first.Identity());
        AllDrifted(db, rewrite.fts, rest, counts.(rewritten := counts.rewritten + 1));
      }
    }
  }

  /** When all planned chunks are current, applying changes nothing. */
  lemma {:induction false} AllCurrent(db: Db, fts: seq<FtsRow>, actions: seq<Action>, counts: Counts)
    requires forall a :: a in actions && a.kind == RewriteFromCanonical ==>
               && CanonicalRow(db, a.Identity()).Some?
               && IsCurrent(RowsFor(fts, a.Identity()), CanonicalRow(db, a.Identity()).value)
    ensures ApplyActions(db, fts, actions, counts).Ok?
    ensures ApplyActions(db, fts, actions, counts).value.fts == fts
    ensures ApplyActions(db, fts, actions, counts).value.counts.rewritten == counts.rewritten
    decreases |actions|
  {
    if actions != [] {
      if actions[0].kind == ManualReviewOrphan {
        AllCurrent(db, fts, actions[1..], counts.(manualReview := counts.manualReview + 1));
      } else {
        AllCurrent(db, fts, actions[1..], counts.(skipped := counts.skipped + 1));
      }
    }
  }
}
