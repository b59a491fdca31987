/** Element extraction by counting tags (src/sources/cia.rs). */
module HtmlElements {
  import opened Ascii
  import opened Text
  import opened Wrappers

  // Searching

  predicate OccursAt(s: string, pattern: string, i: nat) {
    i + |pattern| <= |s| && s[i..i + |pattern|] == pattern
  }

  /** `find` from a cursor on: the first occurrence. */
  function Find(s: string, pattern: string, from: nat): (r: Option<nat>)
    ensures r.Some? ==> from <= r.value && r.value + |pattern| <= |s|
    decreases |s| - from
  {
    if from > |s| then None
    else if OccursAt(s, pattern, from) then Some(from)
    else Find(s, pattern, from + 1)
  }

  lemma {:induction false} FindMeaning(s: string, pattern: string, from: nat, i: nat)
    ensures Find(s, pattern, from).Some? ==> OccursAt(s, pattern, Find(s, pattern, from).value)
    ensures from <= i && OccursAt(s, pattern, i) ==>
              Find(s, pattern, from).Some? && Find(s, pattern, from).value <= i
    decreases |s| - from
  {
    if from <= |s| && !OccursAt(s, pattern, from) {
      FindMeaning(s, pattern, from + 1, i);
    }
  }

  predicate EndsWith(s: string, suffix: string) {
    |s| >= |suffix| && s[|s| - |suffix|..] == suffix
  }

  predicate SelfClosing(open: string) {
    EndsWith(TrimEnd(open), "/>")
  }

  // Tag names

  function DropLeading(s: string, c: char): (r: string)
    ensures |r| <= |s|
  {
    if s != [] && s[0] == c then DropLeading(s[1..], c) else s
  }

  function TakeAlphanumeric(s: string): string {
    if s == [] || !IsAlphanumeric(s[0]) then [] else [s[0]] + TakeAlphanumeric(s[1..])
  }

  function TagName(open: string): (name: Option<string>)
    ensures name.Some? ==> name.value != ""
  {
    var name := TakeAlphanumeric(TrimStart(DropLeading(DropLeading(open, '<'), '/')));
    if name == "" then None else Some(Lower(name))
  }

  // What the scanner sees

  datatype Event =
    | Open(at: nat, end: nat)
    | SelfClosed(at: nat, end: nat)
    | Close(at: nat, end: nat)
  {
    function Delta(): int {
      match this case Open(_, _) => 1 case SelfClosed(_, _) => 0 case Close(_, _) => -1
    }
  }

  function OpenPattern(tag: string): string {
    "<" + tag
  }

  function ClosePattern(tag: string): (pattern: string)
    ensures |pattern| == |tag| + 3
  {
    "</" + tag + ">"
  }

  /** The next opening or closing tag; nothing once no closing tag is left. */
  function NextEvent(lower: string, tag: string, cursor: nat): (event: Option<Event>)
    ensures event.Some? ==> cursor <= event.value.at < event.value.end <= |lower|
    ensures event.Some? && event.value.Close? ==> event.value.end == event.value.at + |tag| + 3
  {
    var nextOpen := Find(lower, OpenPattern(tag), cursor);
    var nextClose := Find(lower, ClosePattern(tag), cursor);
    if nextClose.None? then None
    else if nextOpen.Some? && nextOpen.value < nextClose.value then
      var openEnd := Find(lower, ">", nextOpen.value);
      if openEnd.None? then None
      else if SelfClosing(lower[nextOpen.value..openEnd.value + 1]) then
        Some(SelfClosed(nextOpen.value, openEnd.value + 1))
      else
        Some(Open(nextOpen.value, openEnd.value + 1))
    else Some(Close(nextClose.value, nextClose.value + |tag| + 3))
  }

  /** Each kind of event is a place where its pattern occurs, and no other tag lies between. */
  lemma {:induction false} NextEventMeaning(lower: string, tag: string, cursor: nat, i: nat)
    requires NextEvent(lower, tag, cursor).Some?
    ensures
      var event := NextEvent(lower, tag, cursor).value;
      && OccursAt(lower, if event.Close? then ClosePattern(tag) else OpenPattern(tag), event.at)
      && (cursor <= i < event.at ==> !OccursAt(lower, OpenPattern(tag), i) && !OccursAt(lower, ClosePattern(tag), i))
  {
    FindMeaning(lower, OpenPattern(tag), cursor, i);
    FindMeaning(lower, ClosePattern(tag), cursor, i);
  }

  /** All of them, from a cursor to the end of the text. */
  function Events(lower: string, tag: string, cursor: nat): seq<Event>
    decreases |lower| - cursor
  {
    match NextEvent(lower, tag, cursor)
    case None => []
    case Some(event) => [event] + Events(lower, tag, event.end)
  }

  /** Opening minus closing tags among the first `n` events, counting the tag already open. */
  function Depth(events: seq<Event>, n: nat): int
    requires n <= |events|
  {
    if n == 0 then 1 else Depth(events, n - 1) + events[n - 1].Delta()
  }

  /** The first `n` events close what was open, and no fewer do. */
  predicate ClosesAt(events: seq<Event>, n: nat) {
    && 0 < n <= |events| && Depth(events, n) == 0
    && forall k :: 0 <= k < n ==> Depth(events, k) > 0
  }

  // One element

  predicate IsSlice(html: string, start: nat, open: string) {
    start + |open| <= |html| && html[start..start + |open|] == open
  }

  ghost predicate NeverCloses(events: seq<Event>) {
    forall n :: 0 <= n <= |events| ==> Depth(events, n) > 0
  }

  ghost predicate ClosesBefore(events: seq<Event>, end: nat) {
    exists n: nat :: ClosesAt(events, n) && events[n - 1].end == end
  }

  /** The first `n` events lie before the cursor, and none of them closed the element. */
  ghost predicate Scanned(lower: string, tag: string, all: seq<Event>, n: nat, cursor: nat) {
    && n <= |all| && cursor <= |lower|
    && all[n..] == Events(lower, tag, cursor)
    && (n > 0 ==> cursor == all[n - 1].end)
    && forall k :: 0 <= k < n ==> Depth(all, k) > 0
  }

  lemma {:induction false} ScanStep(lower: string, tag: string, all: seq<Event>, n: nat, cursor: nat, event: Event)
    requires Scanned(lower, tag, all, n, cursor) && Depth(all, n) > 0
    requires NextEvent(lower, tag, cursor) == Some(event)
    ensures n < |all| && all[n] == event && Scanned(lower, tag, all, n + 1, event.end)
    ensures Depth(all, n + 1) == Depth(all, n) + event.Delta()
  {
    assert all[n..] == [event] + Events(lower, tag, event.end);
    assert all[n] == all[n..][0] && all[n + 1..] == all[n..][1..];
  }

  lemma {:induction false} ScanEnd(lower: string, tag: string, all: seq<Event>, n: nat, cursor: nat)
    requires Scanned(lower, tag, all, n, cursor) && Depth(all, n) > 0
    requires NextEvent(lower, tag, cursor).None?
    ensures NeverCloses(all)
  {
    assert all[n..] == [];
  }

  /** The scanner's loop: it stops after the event at which the depth first returns to zero. */
  method ScanToClose(lower: string, tag: string, from: nat) returns (end: Option<nat>)
    requires from <= |lower|
    ensures end.None? <==> NeverCloses(Events(lower, tag, from))
    ensures end.Some? ==> from <= end.value <= |lower| && ClosesBefore(Events(lower, tag, from), end.value)
  {
    var cursor := from;
    var depth := 1;
    ghost var all := Events(lower, tag, from);
    ghost var n := 0;
    while depth > 0
      invariant from <= cursor && depth >= 0 && Scanned(lower, tag, all, n, cursor)
      invariant depth == Depth(all, n)
      decreases |lower| - cursor
    {
      var event := NextEvent(lower, tag, cursor);
      if event.None? {
        ScanEnd(lower, tag, all, n, cursor);
        return None;
      }
      ScanStep(lower, tag, all, n, cursor, event.value);
      match event.value {
        case Open(_, _) => depth := depth + 1;
        case SelfClosed(_, _) =>
        case Close(_, _) => depth := depth - 1;
      }
      cursor := event.value.end;
      n := n + 1;
    }
    assert ClosesAt(all, n);
    return Some(cursor);
  }

  /** `element` runs from `start` to just behind the closing tag that balances the tag ending at `from`. */
  ghost predicate IsBalanced(html: string, tag: string, start: nat, from: nat, element: string) {
    && start + |element| <= |html| && element == html[start..start + |element|]
    && ClosesBefore(Events(Lower(html), tag, from), start + |element|)
  }

  method ElementFromOpenTag(html: string, start: nat, open: string) returns (element: Option<string>)
    requires IsSlice(html, start, open)
    ensures TagName(open).None? ==> element.None?
    ensures TagName(open).Some? && SelfClosing(open) ==> element == Some(open)
    ensures TagName(open).Some? && !SelfClosing(open) && element.None? ==>
              NeverCloses(Events(Lower(html), TagName(open).value, start + |open|))
    ensures TagName(open).Some? && !SelfClosing(open) && element.Some? ==>
              IsBalanced(html, TagName(open).value, start, start + |open|, element.value)
  {
    var name := TagName(open);
    if name.None? {
      return None;
    }
    if SelfClosing(open) {
      return Some(open);
    }
    var end := ScanToClose(Lower(html), name.value, start + |open|);
    if end.None? {
      return None;
    }
    BalancedSlice(html, name.value, start, start + |open|, end.value);
    return Some(html[start..end.value]);
  }

  lemma {:induction false} BalancedSlice(html: string, tag: string, start: nat, from: nat, end: nat)
    requires start <= from <= end <= |html| && ClosesBefore(Events(Lower(html), tag, from), end)
    ensures IsBalanced(html, tag, start, from, html[start..end])
  {
    assert start + |html[start..end]| == end;
  }

  // What an element is

  /** The event that brings the depth to zero is a closing tag. */
  lemma {:induction false} EndsInCloseTag(events: seq<Event>, n: nat)
    requires ClosesAt(events, n)
    ensures events[n - 1].Close?
  {
    assert Depth(events, n - 1) > 0;
  }

  /** Events are found left to right without overlap. */
  lemma {:induction false} EventsOrdered(lower: string, tag: string, cursor: nat, i: nat)
    requires i < |Events(lower, tag, cursor)|
    ensures
      var events := Events(lower, tag, cursor);
      && events[i].at < events[i].end <= |lower|
      && (if i == 0 then cursor else events[i - 1].end) <= events[i].at
      && (events[i].Close? ==>
            OccursAt(lower, ClosePattern(tag), events[i].at) && events[i].end == events[i].at + |tag| + 3)
    decreases |lower| - cursor
  {
    var first := NextEvent(lower, tag, cursor).value;
    if i > 0 {
      EventsOrdered(lower, tag, first.end, i - 1);
    } else {
      NextEventMeaning(lower, tag, cursor, cursor);
    }
  }

  /** An element ends just after the closing tag that balances it, which lies behind its opening tag. */
  lemma {:induction false} ElementIsBalanced(lower: string, tag: string, from: nat, end: nat)
    requires ClosesBefore(Events(lower, tag, from), end)
    ensures from + |tag| + 3 <= end <= |lower|
    ensures exists at: nat :: at + |tag| + 3 == end && OccursAt(lower, ClosePattern(tag), at)
  {
    var events := Events(lower, tag, from);
    var n: nat :| ClosesAt(events, n) && events[n - 1].end == end;
    EndsInCloseTag(events, n);
    EventsOrdered(lower, tag, from, n - 1);
    AllAfter(lower, tag, from, n - 1);
    assert OccursAt(lower, ClosePattern(tag), events[n - 1].at);
  }

  lemma {:induction false} AllAfter(lower: string, tag: string, cursor: nat, i: nat)
    requires i < |Events(lower, tag, cursor)|
    ensures cursor <= Events(lower, tag, cursor)[i].at
    decreases |lower| - cursor
  {
    if i > 0 {
      var first := NextEvent(lower, tag, cursor).value;
      AllAfter(lower, tag, first.end, i - 1);
    }
  }

  // All elements

  datatype Span = Span(start: nat, end: nat)

  /** The next `<..>` from a cursor on. */
  function NextTag(html: string, cursor: nat): (span: Option<Span>)
    ensures span.Some? ==> cursor <= span.value.start < span.value.end <= |html|
  {
    match Find(html, "<", cursor)
    case None => None
    case Some(start) =>
      match Find(html, ">", start) case None => None case Some(openEnd) => Some(Span(start, openEnd + 1))
  }

  /** All of them, in order. */
  function Tags(html: string, cursor: nat): (tags: seq<Span>)
    ensures forall i :: 0 <= i < |tags| ==> cursor <= tags[i].start < tags[i].end <= |html|
    decreases |html| - cursor
  {
    match NextTag(html, cursor)
    case None => []
    case Some(span) => [span] + Tags(html, span.end)
  }

  ghost predicate IsElement(html: string, span: Span, element: string)
    requires span.start <= span.end <= |html|
  {
    var open := html[span.start..span.end];
    && TagName(open).Some?
    && if SelfClosing(open) then element == open
       else IsBalanced(html, TagName(open).value, span.start, span.end, element)
  }

  ghost predicate HasElement(html: string, span: Span)
    requires span.start <= span.end <= |html|
  {
    exists element :: IsElement(html, span, element)
  }

  lemma {:induction false} NoElement(html: string, span: Span)
    requires span.start <= span.end <= |html|
    requires
      var open := html[span.start..span.end];
      || TagName(open).None?
      || (!SelfClosing(open) && NeverCloses(Events(Lower(html), TagName(open).value, span.end)))
    ensures !HasElement(html, span)
  {
  }

  method ElementAt(html: string, span: Span) returns (element: Option<string>)
    requires span.start <= span.end <= |html|
    ensures element.Some? ==> IsElement(html, span, element.value)
    ensures element.None? ==> !HasElement(html, span)
  {
    var open := html[span.start..span.end];
    element := ElementFromOpenTag(html, span.start, open);
    if element.None? {
      NoElement(html, span);
    }
  }

  ghost predicate AllBefore(spans: seq<Span>, cursor: nat) {
    forall i :: 0 <= i < |spans| ==> spans[i].start <= spans[i].end <= cursor
  }

  ghost predicate InOrder(spans: seq<Span>) {
    forall i, j :: 0 <= i < j < |spans| ==> spans[i].end <= spans[j].start
  }

  lemma {:induction false} InOrderMore(spans: seq<Span>, cursor: nat, span: Span)
    requires InOrder(spans) && AllBefore(spans, cursor) && cursor <= span.start < span.end
    ensures InOrder(spans + [span]) && AllBefore(spans + [span], span.end) && AllBefore(spans, span.end)
  {
  }

  /** What the search has found among the tags `seen`. */
  ghost predicate Found(html: string, wanted: string -> bool, seen: seq<Span>, spans: seq<Span>, elements: seq<string>)
    requires AllBefore(seen, |html|)
  {
    && |spans| == |elements|
    && (forall i :: 0 <= i < |spans| ==>
          && spans[i] in seen && wanted(html[spans[i].start..spans[i].end]) && IsElement(html, spans[i], elements[i]))
    && (forall t :: t in seen && wanted(html[t.start..t.end]) && HasElement(html, t) ==> t in spans)
  }

  lemma {:induction false} FoundMore(
    html: string, wanted: string -> bool, seen: seq<Span>, spans: seq<Span>, elements: seq<string>,
    span: Span, element: Option<string>)
    requires AllBefore(seen, |html|) && span.start <= span.end <= |html|
    requires Found(html, wanted, seen, spans, elements)
    requires if wanted(html[span.start..span.end]) then
               if element.Some? then IsElement(html, span, element.value) else !HasElement(html, span)
             else element.None?
    ensures if element.Some? then Found(html, wanted, seen + [span], spans + [span], elements + [element.value])
            else Found(html, wanted, seen + [span], spans, elements)
  {
  }

  /**
   The loop both element searches share, with `wanted` looking at the opening tag: it yields, in
   order, the element of every wanted tag that has one.
   */
  method ElementsWhere(html: string, wanted: string -> bool) returns (elements: seq<string>)
    ensures exists spans :: Found(html, wanted, Tags(html, 0), spans, elements) && InOrder(spans)
  {
    elements := [];
    var cursor := 0;
    ghost var seen: seq<Span>, spans: seq<Span> := [], [];
    while true
      invariant cursor <= |html|
      invariant Tags(html, 0) == seen + Tags(html, cursor)
      invariant InOrder(seen) && AllBefore(seen, cursor) && InOrder(spans) && AllBefore(spans, cursor)
      invariant Found(html, wanted, seen, spans, elements)
      decreases |html| - cursor
    {
      var next := NextTag(html, cursor);
      if next.None? {
        assert Tags(html, 0) == seen;
        break;
      }
      var span := next.value;
      TagsStep(html, cursor, seen, span);
      var element: Option<string> := None;
      if wanted(html[span.start..span.end]) {
        element := ElementAt(html, span);
      }
      FoundMore(html, wanted, seen, spans, elements, span, element);
      InOrderMore(seen, cursor, span);
      InOrderMore(spans, cursor, span);
      if element.Some? {
        elements := elements + [element.value];
        spans := spans + [span];
      }
      seen := seen + [span];
      cursor := span.end;
    }
  }

  lemma {:induction false} TagsStep(html: string, cursor: nat, seen: seq<Span>, span: Span)
    requires NextTag(html, cursor) == Some(span)
    ensures seen + Tags(html, cursor) == (seen + [span]) + Tags(html, span.end)
  {
  }
}
