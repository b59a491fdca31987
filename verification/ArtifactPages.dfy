/** Loading the pages that derived files are checked against (src/ingest/reconcile.rs, reconcile_repair_apply.rs). */
module ArtifactPages {
  import opened ArtifactApply
  import opened ArtifactRepair
  import opened ArtifactReport
  import opened ArtifactTheorems
  import opened Database
  import opened FileCompare
  import opened SqliteStore
  import opened Utf8
  import opened Wrappers
  import Decimal

  /** `page_number.max(0) as u32`. */
  function LoadedNumber(n: int): nat {
    (if n < 0 then 0 else n) % (Decimal.U32_MAX + 1)
  }

  /** Negative numbers become zero, numbers of 32 bits stay, and larger ones wrap around. */
  lemma {:induction false} LoadedNumberIs(n: int)
    ensures n < 0 ==> LoadedNumber(n) == 0
    ensures 0 <= n < 0x1_0000_0000 ==> LoadedNumber(n) == n
    ensures n >= 0 ==> LoadedNumber(n + 0x1_0000_0000) == LoadedNumber(n)
  {
  }

  ghost predicate Increasing(numbers: seq<int>) {
    forall i, j :: 0 <= i < j < |numbers| ==> numbers[i] < numbers[j]
  }

  /** `ORDER BY page_number`: the stored rows of the document, each once. */
  ghost predicate AreLoaded(table: map<(nat, int), PageRow>, documentId: nat, numbers: seq<int>, pages: seq<Page>) {
    && Increasing(numbers) && |pages| == |numbers|
    && (forall n :: n in numbers <==> (documentId, n) in table)
    && forall i :: 0 <= i < |pages| ==>
         && (documentId, numbers[i]) in table
         && var row := table[(documentId, numbers[i])];
            pages[i] == Page(LoadedNumber(numbers[i]), row.text, row.textSource)
  }

  method Smallest(keys: set<(nat, int)>) returns (least: (nat, int))
    requires keys != {}
    ensures least in keys && forall k :: k in keys ==> least.1 <= k.1
  {
    least :| least in keys;
    var rest := keys - {least};
    ghost var seen := {least};
    while rest != {}
      invariant seen + rest == keys && least in keys
      invariant forall k :: k in seen ==> least.1 <= k.1
      decreases |rest|
    {
      var k :| k in rest;
      rest, seen := rest - {k}, seen + {k};
      if k.1 < least.1 {
        least := k;
      }
    }
  }

  method LoadDocumentPages(store: Store, documentId: nat) returns (pages: seq<Page>)
    ensures exists numbers :: AreLoaded(store.pages, documentId, numbers, pages)
  {
    pages := [];
    ghost var numbers: seq<int> := [];
    var rest := set k | k in store.pages && k.0 == documentId;
    ghost var all := rest;
    while rest != {}
      invariant rest <= all
      invariant forall n :: n in numbers <==> (documentId, n) in all - rest
      invariant forall m, n :: m in numbers && (documentId, n) in rest ==> m < n
      invariant Increasing(numbers) && |pages| == |numbers|
      invariant forall i :: 0 <= i < |pages| ==>
                  && (documentId, numbers[i]) in store.pages
                  && var row := store.pages[(documentId, numbers[i])];
                     pages[i] == Page(LoadedNumber(numbers[i]), row.text, row.textSource)
      decreases |rest|
    {
      var key := Smallest(rest);
      var row := store.pages[key];
      pages := pages + [Page(LoadedNumber(key.1), row.text, row.textSource)];
      numbers := numbers + [key.1];
      rest := rest - {key};
    }
    assert AreLoaded(store.pages, documentId, numbers, pages);
  }

  /** After truncation no stored number is zero and no two are the same. */
  ghost predicate ApartIn32Bits(table: map<(nat, int), PageRow>, documentId: nat) {
    && (forall n: int :: (documentId, n) in table ==> LoadedNumber(n) > 0)
    && (forall m: int, n: int :: (documentId, m) in table && (documentId, n) in table && m != n ==>
          LoadedNumber(m) != LoadedNumber(n))
  }

  lemma {:induction false} LoadedAt(
    table: map<(nat, int), PageRow>, documentId: nat, numbers: seq<int>, pages: seq<Page>, n: int) returns (i: nat)
    requires AreLoaded(table, documentId, numbers, pages) && (documentId, n) in table
    ensures i < |pages| && numbers[i] == n && pages[i].number == LoadedNumber(n)
    ensures pages[i].text == table[(documentId, n)].text
  {
    assert n in numbers;
    i :| 0 <= i < |numbers| && numbers[i] == n;
  }

  /** The repair theorems' demand on page numbers, in terms of what is stored. */
  lemma {:induction false} NumberedIff(
    table: map<(nat, int), PageRow>, documentId: nat, numbers: seq<int>, pages: seq<Page>)
    requires AreLoaded(table, documentId, numbers, pages)
    ensures Numbered(pages) <==> ApartIn32Bits(table, documentId)
  {
    if Numbered(pages) {
      forall n: int | (documentId, n) in table ensures LoadedNumber(n) > 0 {
        var i := LoadedAt(table, documentId, numbers, pages, n);
      }
      forall m: int, n: int | (documentId, m) in table && (documentId, n) in table && m != n
        ensures LoadedNumber(m) != LoadedNumber(n)
      {
        var i := LoadedAt(table, documentId, numbers, pages, m);
        var j := LoadedAt(table, documentId, numbers, pages, n);
        assert i < j || j < i;
      }
    }
  }

  /** Numbers that differ by a multiple of 2^32 claim one file, which can never be right for two texts. */
  lemma {:induction false} CollidingPagesShareAFile(
    table: map<(nat, int), PageRow>, documentId: nat, numbers: seq<int>, pages: seq<Page>, key: string, m: int, n: int)
    requires AreLoaded(table, documentId, numbers, pages) && (documentId, m) in table && (documentId, n) in table
    requires m != n && LoadedNumber(m) == LoadedNumber(n)
    requires table[(documentId, m)].text != table[(documentId, n)].text
    ensures exists s, t :: s in Targets(key, pages) && t in Targets(key, pages) && s.path == t.path
                           && forall tree :: !(Current(tree, s) && Current(tree, t))
  {
    var i := LoadedAt(table, documentId, numbers, pages, m);
    var j := LoadedAt(table, documentId, numbers, pages, n);
    var s, t := PageTarget(PageText, key, pages[i]), PageTarget(PageText, key, pages[j]);
    PageIsTargeted(key, pages, i, s);
    PageIsTargeted(key, pages, j, t);
    if s.content == t.content {
      EncodeInjective(pages[i].text, pages[j].text);
    }
  }

  lemma {:induction false} PageIsTargeted(key: string, pages: seq<Page>, i: nat, t: Target)
    requires i < |pages| && t in TargetsOf(key, pages[i])
    ensures t in Targets(key, pages)
    ensures t in PageTargets(key, pages)
  {
    if i > 0 {
      PageIsTargeted(key, pages[1..], i - 1, t);
    }
  }

  // When all files of a document can be right at once

  predicate SameNumberSameText(pages: seq<Page>) {
    forall i, j :: 0 <= i < |pages| && 0 <= j < |pages| && pages[i].number == pages[j].number ==>
      pages[i].text == pages[j].text
  }

  /** The directories above the files of a document. */
  function Directories(key: string): set<Path> {
    {["text"], ["text", "documents"], ["text", "pages"], PageDir(PageText, key),
     ["ocr"], ["ocr", "pages"], PageDir(OcrPageText, key)}
  }

  predicate Placed(key: string, t: Target) {
    |t.path| > 1 && Parent(t.path) in Directories(key) && t.path !in Directories(key)
  }

  function Filled(key: string, targets: seq<Target>): Tree {
    if targets == [] then map p | p in Directories(key) :: Directory
    else Filled(key, targets[1..])[targets[0].path := File(targets[0].content)]
  }

  lemma {:induction false} TargetPlaced(key: string, pages: seq<Page>, t: Target)
    requires t in Targets(key, pages)
    ensures Placed(key, t)
  {
    DirsDiffer(key);
    if t in PageTargets(key, pages) {
      var i := PageTargetMember(key, pages, t);
      assert Parent(t.path) == PageDir(t.kind, key);
    } else {
      assert Parent(t.path) == ["text", "documents"] && t.path[1] == "documents";
      assert key + ".txt" != "";
    }
  }

  lemma {:induction false} DirectoriesWellFormed(key: string)
    ensures WellFormed(Filled(key, []))
  {
    forall p, n: nat | p in Directories(key) && 0 < n < |p| ensures p[..n] in Directories(key) {
      assert n == 1 ==> p[..n] == [p[0]];
      assert n == 2 ==> p[..n] == [p[0], p[1]];
    }
  }

  lemma {:induction false} FilledWellFormed(key: string, targets: seq<Target>)
    requires forall t :: t in targets ==> Placed(key, t)
    ensures WellFormed(Filled(key, targets))
    ensures forall d :: d in Directories(key) ==> d in Filled(key, targets) && Filled(key, targets)[d] == Directory
    ensures forall p :: p in Filled(key, targets) && p !in Directories(key) ==> Filled(key, targets)[p].File?
  {
    if targets == [] {
      DirectoriesWellFormed(key);
    } else {
      var t, rest := targets[0], Filled(key, targets[1..]);
      assert Placed(key, t) && forall u :: u in targets[1..] ==> u in targets;
      FilledWellFormed(key, targets[1..]);
      assert Parent(t.path) == t.path[..|t.path| - 1];
      NewNodeKeeps(rest, t.path, File(t.content));
    }
  }

  lemma {:induction false} FilledCurrent(key: string, targets: seq<Target>, t: Target)
    requires t in targets
    requires forall a, b :: a in targets && b in targets && a.path == b.path ==> a.content == b.content
    ensures Current(Filled(key, targets), t)
  {
    assert forall u :: u in targets[1..] ==> u in targets;
    if t.path != targets[0].path {
      assert t in targets[1..];
      FilledCurrent(key, targets[1..], t);
    }
  }

  lemma {:induction false} SamePathSameContent(key: string, pages: seq<Page>, a: Target, b: Target)
    requires SameNumberSameText(pages) && a in Targets(key, pages) && b in Targets(key, pages) && a.path == b.path
    ensures a.content == b.content
  {
    DirsDiffer(key);
    if a in PageTargets(key, pages) && b in PageTargets(key, pages) {
      var i := PageTargetMember(key, pages, a);
      var j := PageTargetMember(key, pages, b);
      assert a.path[3] == FileName(pages[i].number) && b.path[3] == FileName(pages[j].number);
      SameNameSameNumber(pages[i].number, pages[j].number);
    } else if a in PageTargets(key, pages) {
      var i := PageTargetMember(key, pages, a);
    } else if b in PageTargets(key, pages) {
      var j := PageTargetMember(key, pages, b);
    }
  }

  /** All files of a document can be right at once exactly when pages of one 32-bit number have one text. */
  lemma {:induction false} CurrentAtOnceIff(key: string, pages: seq<Page>)
    ensures (exists tree :: WellFormed(tree) && AllCurrent(tree, key, pages)) <==> SameNumberSameText(pages)
  {
    if tree :| WellFormed(tree) && AllCurrent(tree, key, pages) {
      forall i, j | 0 <= i < |pages| && 0 <= j < |pages| && pages[i].number == pages[j].number
        ensures pages[i].text == pages[j].text
      {
        PageIsTargeted(key, pages, i, PageTarget(PageText, key, pages[i]));
        PageIsTargeted(key, pages, j, PageTarget(PageText, key, pages[j]));
        assert Encode(pages[i].text) == Encode(pages[j].text);
        EncodeInjective(pages[i].text, pages[j].text);
      }
    }
    if SameNumberSameText(pages) {
      FilledIsRight(key, pages);
    }
  }

  lemma {:induction false} FilledIsRight(key: string, pages: seq<Page>)
    requires SameNumberSameText(pages)
    ensures WellFormed(Filled(key, Targets(key, pages))) && AllCurrent(Filled(key, Targets(key, pages)), key, pages)
  {
    var targets := Targets(key, pages);
    forall t | t in targets ensures Placed(key, t) {
      TargetPlaced(key, pages, t);
    }
    FilledWellFormed(key, targets);
    forall a, b | a in targets && b in targets && a.path == b.path ensures a.content == b.content {
      SamePathSameContent(key, pages, a, b);
    }
    forall t | t in targets ensures Current(Filled(key, targets), t) {
      FilledCurrent(key, targets, t);
    }
  }

  lemma {:induction false} ZeroIsRefused(goal: Goal, action: Action)
    requires action in goal.actions && action.Rewrite? && !action.kind.DocumentText? && action.pageNumber == Some(0)
    ensures !AcceptedBefore(goal, |goal.actions|)
  {
    var n :| 0 <= n < |goal.actions| && goal.actions[n] == action;
    assert AcceptedBefore(goal, |goal.actions|) ==> Admitted(goal, n);
  }

  lemma {:induction false} ZeroIsPlanned(tree: Tree, key: string, pages: seq<Page>, issues: seq<Issue>, i: nat)
    returns (action: Action)
    requires IsReport(tree, key, pages, issues)
    requires i < |pages| && pages[i].number == 0 && !Current(tree, PageTarget(PageText, key, pages[i]))
    ensures action in PlanFor(issues)
    ensures action.Rewrite? && !action.kind.DocumentText? && action.pageNumber == Some(0)
  {
    var t := PageTarget(PageText, key, pages[i]);
    PageIsTargeted(key, pages, i, t);
    DriftIsPlanned(tree, key, pages, issues, t);
    action := ActionFor(Verdict(tree, t).value);
    ActionForDrift(tree, t);
  }

  lemma {:induction false} ActionForDrift(tree: Tree, t: Target)
    requires !Current(tree, t)
    ensures
      var action := ActionFor(Verdict(tree, t).value);
      action.Rewrite? && action.kind == t.kind && action.pageNumber == t.pageNumber
  {
  }

  /** A page whose number truncates to zero is never repaired: as long as its file is not right, every plan is refused. */
  lemma {:induction false} PageZeroIsRefused(goal: Goal, issues: seq<Issue>, i: nat)
    requires IsReport(goal.tree, goal.key, goal.pages, issues) && goal.actions == PlanFor(issues)
    requires i < |goal.pages| && goal.pages[i].number == 0
    requires !Current(goal.tree, PageTarget(PageText, goal.key, goal.pages[i]))
    ensures !AcceptedBefore(goal, |goal.actions|)
  {
    var action := ZeroIsPlanned(goal.tree, goal.key, goal.pages, issues, i);
    ZeroIsRefused(goal, action);
  }
}
