/** Offset cursors over a paged search API (src/sources/nara.rs). */
module Pagination {
  import opened Wrappers
  import Decimal

  // Cursors

  function StripPrefix(s: string, prefix: string): Option<string> {
    if prefix <= s then Some(s[|prefix|..]) else None
  }

  function ParseAfter(cursor: Option<string>, prefix: string): nat {
    match cursor
    case None => 0
    case Some(text) =>
      match StripPrefix(text, prefix)
      case None => 0
      case Some(digits) =>
        match Decimal.ParseUnsigned(digits, Decimal.U64_MAX) case None => 0 case Some(offset) => offset
  }

  /** Anything that is not a cursor of this source means the start. */
  function ParseCursor(cursor: Option<string>): nat {
    ParseAfter(cursor, "nara-offset-")
  }

  function MakeCursor(offset: nat): string {
    "nara-offset-" + Decimal.ToDecimal(offset)
  }

  lemma {:induction false} PrefixRoundTrip(prefix: string, offset: nat)
    ensures ParseAfter(Some(prefix + Decimal.ToDecimal(offset)), prefix)
         == if offset <= Decimal.U64_MAX then offset else 0
  {
    assert (prefix + Decimal.ToDecimal(offset))[|prefix|..] == Decimal.ToDecimal(offset);
    Decimal.ParseRoundTrip(offset, Decimal.U64_MAX);
  }

  /** Cursors come back as the offset they were made from, as far as `usize` reaches. */
  lemma {:induction false} CursorRoundTrip(offset: nat)
    ensures ParseCursor(Some(MakeCursor(offset))) == if offset <= Decimal.U64_MAX then offset else 0
  {
    PrefixRoundTrip("nara-offset-", offset);
  }

  /** The text is the prefix and a number of at most 64 bits. */
  ghost predicate NamesOffset(cursor: Option<string>, prefix: string, n: nat) {
    && cursor.Some? && n <= Decimal.U64_MAX
    && exists digits: string :: cursor.value == prefix + digits && Decimal.IsNumeral(digits, n)
  }

  lemma {:induction false} ParsedAfter(cursor: Option<string>, prefix: string)
    ensures forall n :: NamesOffset(cursor, prefix, n) ==> ParseAfter(cursor, prefix) == n
    ensures (forall n :: !NamesOffset(cursor, prefix, n)) ==> ParseAfter(cursor, prefix) == 0
  {
    if cursor.Some? && prefix <= cursor.value {
      var rest := cursor.value[|prefix|..];
      assert cursor.value == prefix + rest;
      forall n: nat
        ensures NamesOffset(cursor, prefix, n) <==> Decimal.ParseUnsigned(rest, Decimal.U64_MAX) == Some(n)
      {
        Decimal.ParseUnsignedIff(rest, Decimal.U64_MAX, n);
        forall digits: string | cursor.value == prefix + digits ensures digits == rest {
          assert digits == (prefix + digits)[|prefix|..];
        }
      }
    }
  }

  /** A cursor is read as the offset it names; whatever names none means the start. */
  lemma {:induction false} CursorMeaning(cursor: Option<string>)
    ensures forall n :: NamesOffset(cursor, "nara-offset-", n) ==> ParseCursor(cursor) == n
    ensures (forall n :: !NamesOffset(cursor, "nara-offset-", n)) ==> ParseCursor(cursor) == 0
  {
    ParsedAfter(cursor, "nara-offset-");
  }

  function PageFromOffset(offset: nat, limit: nat): nat {
    if limit == 0 then 1 else offset / limit + 1
  }

  /** The page that holds the record at this offset; without a limit there is one page. */
  lemma {:induction false} PageOfOffset(offset: nat, limit: nat)
    ensures
      var page := PageFromOffset(offset, limit);
      if limit == 0 then page == 1 else page > 0 && (page - 1) * limit <= offset < page * limit
  {
    if limit > 0 {
      assert offset == offset / limit * limit + offset % limit;
    }
  }

  // The API and one search

  function Slice<T>(s: seq<T>, from: nat, n: nat): (r: seq<T>)
    ensures |r| <= n
  {
    if from >= |s| then [] else if from + n <= |s| then s[from..from + n] else s[from..]
  }

  /** Full pages of `limit` records before the last one. */
  function ServerPage<T>(all: seq<T>, page: nat, limit: nat): (r: seq<T>)
    requires page > 0
    ensures |r| <= limit
  {
    Slice(all, (page - 1) * limit, limit)
  }

  datatype SearchPage<T> = SearchPage(page: nat, records: seq<T>, nextOffset: Option<nat>)

  function SearchAt<T>(all: seq<T>, limit: nat, offset: nat, reportsTotal: bool): SearchPage<T> {
    var page := PageFromOffset(offset, limit);
    var records := ServerPage(all, page, limit);
    var nextOffset := offset + |records|;
    SearchPage(
      page, records,
      if records == [] then None
      else if !reportsTotal || nextOffset < |all| then Some(nextOffset)
      else None)
  }

  /** `search`: the page asked for, its records, and where the next cursor points. */
  function Search<T>(all: seq<T>, limit: nat, cursor: Option<string>, reportsTotal: bool): SearchPage<T> {
    SearchAt(all, limit, ParseCursor(cursor), reportsTotal)
  }

  // Following the cursors

  /** The first offset whose page is empty. */
  function Beyond(total: nat, limit: nat): nat
    requires limit > 0
  {
    (total + limit - 1) / limit * limit
  }

  lemma {:induction false} SomethingBefore(total: nat, limit: nat, offset: nat)
    requires limit > 0 && offset / limit * limit < total
    ensures offset < Beyond(total, limit)
  {
    var q, b := offset / limit, (total + limit - 1) / limit;
    assert total + limit - 1 < b * limit + limit;
    assert q * limit < b * limit;
    MulOrder(q, b, limit);
    assert offset < q * limit + limit;
    assert (q + 1) * limit <= b * limit by {
      MulMono(q + 1, b, limit);
    }
  }

  lemma {:induction false} MulMono(a: nat, b: nat, n: nat)
    requires a <= b
    ensures a * n <= b * n
  {
  }

  lemma {:induction false} MulOrder(a: nat, b: nat, n: nat)
    requires a * n < b * n
    ensures a < b
  {
    if a >= b {
      MulMono(b, a, n);
    }
  }

  lemma {:induction false} OneMore(n: nat, limit: nat)
    ensures (n + 1) * limit == n * limit + limit
    ensures n > 0 ==> n * limit == (n - 1) * limit + limit
  {
  }

  lemma {:induction false} DivUnique(n: nat, limit: nat, q: nat, r: nat)
    requires limit > 0 && n == q * limit + r && r < limit
    ensures n / limit == q && n % limit == r
  {
    var a, b := n / limit, n % limit;
    assert n == a * limit + b && 0 <= b < limit;
    if a < q {
      MulMono(a + 1, q, limit);
      OneMore(a, limit);
    } else if a > q {
      MulMono(q + 1, a, limit);
      OneMore(q, limit);
    }
  }

  /** Every page visited from an offset on: what was asked for and what came back. */
  function Visits<T>(all: seq<T>, limit: nat, offset: nat, reportsTotal: bool): seq<SearchPage<T>>
    requires limit > 0
    decreases Beyond(|all|, limit) - offset
  {
    var found := SearchAt(all, limit, offset, reportsTotal);
    if found.nextOffset.None? then [found]
    else
      SomethingBefore(|all|, limit, offset);
      [found] + Visits(all, limit, found.nextOffset.value, reportsTotal)
  }

  /** The visits are what a client sees that sends no cursor first and then each cursor it is given. */
  ghost predicate FollowsCursors<T>(
    all: seq<T>, limit: nat, first: Option<string>, visits: seq<SearchPage<T>>, reportsTotal: bool)
    decreases |visits|
  {
    && visits != [] && visits[0] == Search(all, limit, first, reportsTotal)
    && if visits[0].nextOffset.None? then |visits| == 1
       else FollowsCursors(all, limit, Some(MakeCursor(visits[0].nextOffset.value)), visits[1..], reportsTotal)
  }

  lemma {:induction false} VisitsFollowCursors<T>(
    all: seq<T>, limit: nat, offset: nat, first: Option<string>, reportsTotal: bool)
    requires limit > 0 && ParseCursor(first) == offset
    requires offset <= Decimal.U64_MAX && Beyond(|all|, limit) + limit <= Decimal.U64_MAX
    ensures FollowsCursors(all, limit, first, Visits(all, limit, offset, reportsTotal), reportsTotal)
    decreases Beyond(|all|, limit) - offset
  {
    var found := SearchAt(all, limit, offset, reportsTotal);
    var visits := Visits(all, limit, offset, reportsTotal);
    if found.nextOffset.Some? {
      var next := found.nextOffset.value;
      SomethingBefore(|all|, limit, offset);
      CursorRoundTrip(next);
      VisitsFollowCursors(all, limit, next, Some(MakeCursor(next)), reportsTotal);
      assert visits[1..] == Visits(all, limit, next, reportsTotal);
    }
  }

  function Records<T>(visits: seq<SearchPage<T>>): seq<T> {
    if visits == [] then [] else visits[0].records + Records(visits[1..])
  }

  lemma {:induction false} RecordsCons<T>(found: SearchPage<T>, rest: seq<SearchPage<T>>)
    ensures Records([found] + rest) == found.records + Records(rest)
  {
    assert ([found] + rest)[1..] == rest;
  }

  lemma {:induction false} PageStart(offset: nat, limit: nat)
    requires limit > 0 && offset % limit == 0
    ensures offset / limit * limit == offset
    ensures (offset + limit) % limit == 0 && (offset + limit) / limit == offset / limit + 1
  {
    OneMore(offset / limit, limit);
    DivUnique(offset + limit, limit, offset / limit + 1, 0);
  }

  /** One visit at a page boundary. */
  lemma {:induction false} SearchAtBoundary<T>(all: seq<T>, limit: nat, offset: nat, reportsTotal: bool)
    requires limit > 0 && offset % limit == 0 && offset <= |all|
    ensures
      var found := SearchAt(all, limit, offset, reportsTotal);
      && found.page == offset / limit + 1
      && found.records == (if offset + limit <= |all| then all[offset..offset + limit] else all[offset..])
      && found.nextOffset == (if offset == |all| then None
                              else if offset + limit < |all| || (!reportsTotal && offset + limit == |all|) then
                                Some(offset + limit)
                              else if reportsTotal then None
                              else Some(|all|))
  {
    PageStart(offset, limit);
    assert (offset / limit + 1 - 1) * limit == offset;
  }

  /** The visits from a page boundary on, without the cursors in between. */
  lemma {:induction false} VisitsStep<T>(all: seq<T>, limit: nat, offset: nat, reportsTotal: bool)
    returns (found: SearchPage<T>)
    requires limit > 0 && offset % limit == 0 && offset <= |all|
    ensures found.page == offset / limit + 1
    ensures found.records == (if offset + limit <= |all| then all[offset..offset + limit] else all[offset..])
    ensures found.nextOffset == (if offset == |all| then None
                                 else if offset + limit < |all| || (!reportsTotal && offset + limit == |all|) then
                                   Some(offset + limit)
                                 else if reportsTotal then None
                                 else Some(|all|))
    ensures Visits(all, limit, offset, reportsTotal)
         == [found] + if found.nextOffset.None? then []
                      else Visits(all, limit, found.nextOffset.value, reportsTotal)
  {
    SearchAtBoundary(all, limit, offset, reportsTotal);
    found := SearchAt(all, limit, offset, reportsTotal);
  }

  /** Pages are asked for one after the other, starting at `first`. */
  ghost predicate Consecutive<T>(visits: seq<SearchPage<T>>, first: nat) {
    forall i :: 0 <= i < |visits| ==> visits[i].page == first + i
  }

  lemma {:induction false} ConsecutiveCons<T>(found: SearchPage<T>, rest: seq<SearchPage<T>>)
    requires Consecutive(rest, found.page + 1)
    ensures Consecutive([found] + rest, found.page)
  {
    var visits := [found] + rest;
    forall i | 0 < i < |visits| ensures visits[i].page == found.page + i {
      assert visits[i] == rest[i - 1];
    }
  }

  /** Requests needed for `n` records. */
  function Needed(n: nat, limit: nat): (requests: nat)
    requires limit > 0
    ensures requests > 0
    decreases n
  {
    if n <= limit then 1 else 1 + Needed(n - limit, limit)
  }

  lemma {:induction false} NeededIsCeiling(n: nat, limit: nat)
    requires limit > 0 && n > 0
    ensures Needed(n, limit) == (n + limit - 1) / limit
    decreases n
  {
    if n > limit {
      var m := n - limit + limit - 1;
      NeededIsCeiling(n - limit, limit);
      OneMore(m / limit, limit);
      DivUnique(n + limit - 1, limit, m / limit + 1, m % limit);
    } else {
      DivUnique(n + limit - 1, limit, 1, n - 1);
    }
  }

  ghost predicate Yields<T>(visits: seq<SearchPage<T>>, records: seq<T>) {
    Records(visits) == records
  }

  lemma {:induction false} YieldsFirst<T>(
    found: SearchPage<T>, rest: seq<SearchPage<T>>, visits: seq<SearchPage<T>>, left: seq<T>, records: seq<T>)
    requires visits == [found] + rest && Yields(rest, left) && records == found.records + left
    ensures Yields(visits, records)
  {
    RecordsCons(found, rest);
  }

  lemma {:induction false} SplitHere<T>(all: seq<T>, offset: nat, n: nat)
    requires offset + n <= |all|
    ensures all[offset..] == all[offset..offset + n] + all[offset + n..]
  {
  }

  /** With a reported total: the remaining records once each, in order. */
  lemma {:induction false} VisitsAreExact<T>(all: seq<T>, limit: nat, offset: nat)
    requires limit > 0 && offset % limit == 0 && offset < |all|
    ensures Yields(Visits(all, limit, offset, true), all[offset..])
    decreases |all| - offset
  {
    PageStart(offset, limit);
    var visits := Visits(all, limit, offset, true);
    var found := VisitsStep(all, limit, offset, true);
    if offset + limit < |all| {
      VisitsAreExact(all, limit, offset + limit);
      SplitHere(all, offset, limit);
      YieldsFirst(found, Visits(all, limit, offset + limit, true), visits, all[offset + limit..], all[offset..]);
    } else {
      YieldsFirst(found, [], visits, [], all[offset..]);
    }
  }

  /** .. in as many requests as it takes. */
  lemma {:induction false} VisitsAreNeeded<T>(all: seq<T>, limit: nat, offset: nat)
    requires limit > 0 && offset % limit == 0 && offset < |all|
    ensures |Visits(all, limit, offset, true)| == Needed(|all| - offset, limit)
    decreases |all| - offset
  {
    PageStart(offset, limit);
    var found := VisitsStep(all, limit, offset, true);
    if offset + limit < |all| {
      VisitsAreNeeded(all, limit, offset + limit);
    }
  }

  /** .. from the remaining pages once each, in order. */
  lemma {:induction false} PagesAreConsecutive<T>(all: seq<T>, limit: nat, offset: nat, page: nat)
    requires limit > 0 && offset % limit == 0 && offset < |all| && page == offset / limit + 1
    ensures Consecutive(Visits(all, limit, offset, true), page)
    decreases |all| - offset
  {
    PageStart(offset, limit);
    var found := VisitsStep(all, limit, offset, true);
    if offset + limit < |all| {
      PagesAreConsecutive(all, limit, offset + limit, page + 1);
      ConsecutiveCons(found, Visits(all, limit, offset + limit, true));
    } else {
      ConsecutiveCons(found, []);
    }
  }

  /** The whole search: ceil(total / limit) requests for pages 1, 2, 3, .. and every record once. */
  lemma {:induction false} SearchIsExact<T>(all: seq<T>, limit: nat)
    requires limit > 0 && all != [] && Beyond(|all|, limit) + limit <= Decimal.U64_MAX
    ensures
      var visits := Visits(all, limit, 0, true);
      && FollowsCursors(all, limit, None, visits, true)
      && Consecutive(visits, 1)
      && Records(visits) == all
      && |visits| == (|all| + limit - 1) / limit
  {
    VisitsFollowCursors(all, limit, 0, None, true);
    VisitsAreExact(all, limit, 0);
    VisitsAreNeeded(all, limit, 0);
    PagesAreConsecutive(all, limit, 0, 1);
    NeededIsCeiling(|all|, limit);
    assert 0 / limit == 0 && all[0..] == all;
  }

  lemma {:induction false} NothingToFind<T>(limit: nat)
    requires limit > 0
    ensures Visits<T>([], limit, 0, true) == [SearchPage(1, [], None)]
  {
    assert (limit - 1) / limit == 0 && Beyond(0, limit) == 0;
    SearchAtBoundary<T>([], limit, 0, true);
  }

  // Without a reported total

  /** `records` starts with what is left, and is no more than that exactly when the limit divides the total. */
  ghost predicate ExactIfDivides<T>(left: seq<T>, records: seq<T>, total: nat, limit: nat)
    requires limit > 0
  {
    left <= records && (records == left <==> total % limit == 0)
  }

  lemma {:induction false} FullPageFirst<T>(left: seq<T>, rest: seq<T>, total: nat, limit: nat)
    requires 0 < limit <= |left| && ExactIfDivides(left[limit..], rest, total, limit)
    ensures ExactIfDivides(left, left[..limit] + rest, total, limit)
  {
    assert left == left[..limit] + left[limit..];
    SamePrefix(left[..limit], left[limit..], rest);
  }

  lemma {:induction false} MoreFollows<T>(left: seq<T>, more: seq<T>, total: nat, limit: nat)
    requires limit > 0 && more != [] && total % limit != 0
    ensures ExactIfDivides(left, left + more, total, limit)
  {
    assert |left + more| > |left|;
  }

  /** An unreported total costs one empty request when the limit divides it; otherwise the last page comes twice. */
  lemma {:induction false} UntoldVisits<T>(all: seq<T>, limit: nat, offset: nat)
    requires limit > 0 && offset % limit == 0 && offset <= |all|
    ensures ExactIfDivides(all[offset..], Records(Visits(all, limit, offset, false)), |all|, limit)
    decreases |all| - offset
  {
    PageStart(offset, limit);
    var found := VisitsStep(all, limit, offset, false);
    var left := all[offset..];
    if offset == |all| {
      RecordsCons(found, []);
    } else if offset + limit <= |all| {
      UntoldVisits(all, limit, offset + limit);
      RecordsCons(found, Visits(all, limit, offset + limit, false));
      FullPageThenRest(all, limit, offset, found.records, Records(Visits(all, limit, offset + limit, false)));
    } else {
      LastPageAgain(all, limit, offset);
      RecordsCons(found, Visits(all, limit, |all|, false));
      MoreFollows(left, Records(Visits(all, limit, |all|, false)), |all|, limit);
    }
  }

  lemma {:induction false} FullPageThenRest<T>(all: seq<T>, limit: nat, offset: nat, page: seq<T>, rest: seq<T>)
    requires limit > 0 && offset + limit <= |all| && page == all[offset..offset + limit]
    requires ExactIfDivides(all[offset + limit..], rest, |all|, limit)
    ensures ExactIfDivides(all[offset..], page + rest, |all|, limit)
  {
    var left := all[offset..];
    assert left[limit..] == all[offset + limit..] && left[..limit] == page;
    FullPageFirst(left, rest, |all|, limit);
  }

  lemma {:induction false} SamePrefix<T>(a: seq<T>, b: seq<T>, c: seq<T>)
    ensures a + b == a + c <==> b == c
    ensures b <= c ==> a + b <= a + c
  {
    assert (a + b)[|a|..] == b && (a + c)[|a|..] == c;
    if b <= c {
      assert c == b + c[|b|..];
      assert a + c == (a + b) + c[|b|..];
    }
  }

  /** From the end of a short last page the cursor leads back into that page. */
  lemma {:induction false} LastPageAgain<T>(all: seq<T>, limit: nat, offset: nat)
    requires limit > 0 && offset % limit == 0 && offset < |all| < offset + limit
    ensures |all| % limit != 0
    ensures Records(Visits(all, limit, |all|, false)) != []
  {
    PageStart(offset, limit);
    var r := |all| - offset;
    assert |all| == offset / limit * limit + r;
    DivUnique(|all|, limit, offset / limit, r);
    var found := SearchAt(all, limit, |all|, false);
    assert found.page == offset / limit + 1;
    assert (found.page - 1) * limit == offset;
    assert found.records == all[offset..];
  }

  /** Without a reported total the search is exact if and only if the limit divides the total. */
  lemma {:induction false} UntoldSearchIsExactIff<T>(all: seq<T>, limit: nat)
    requires limit > 0 && Beyond(|all|, limit) + limit <= Decimal.U64_MAX
    ensures FollowsCursors(all, limit, None, Visits(all, limit, 0, false), false)
    ensures Records(Visits(all, limit, 0, false)) == all <==> |all| % limit == 0
  {
    VisitsFollowCursors(all, limit, 0, None, false);
    UntoldVisits(all, limit, 0);
    assert all[0..] == all;
  }
}
