/** What the scanner takes for a tag, by the characters of the text (src/sources/cia.rs). */
module HtmlTags {
  import opened Ascii
  import opened HtmlElements
  import opened Layout
  import opened Text
  import opened Wrappers

  // Names

  predicate AllAre(s: string, c: char) {
    forall i :: 0 <= i < |s| ==> s[i] == c
  }

  predicate IsNameChar(c: char) {
    'a' <= c <= 'z' || 'A' <= c <= 'Z' || '0' <= c <= '9'
  }

  predicate AllNameChars(s: string) {
    forall i :: 0 <= i < |s| ==> IsNameChar(s[i])
  }

  /** `lower` is `s` with its capital letters made small. */
  predicate IsLowerOf(lower: string, s: string) {
    && |lower| == |s|
    && forall i :: 0 <= i < |s| ==>
         if 'A' <= s[i] <= 'Z' then lower[i] as int == s[i] as int + 32 else lower[i] == s[i]
  }

  /** The parts of an opening tag up to and behind its name. */
  datatype TagParts = TagParts(brackets: string, slashes: string, spaces: string, word: string, rest: string)

  /**
   The tag starts with any number of `<`, then of `/`, then whitespace; what follows up to the next
   character that is no letter or digit is the name.
   */
  predicate NameStands(open: string, name: string, parts: TagParts) {
    && open == parts.brackets + (parts.slashes + (parts.spaces + (parts.word + parts.rest)))
    && AllAre(parts.brackets, '<') && AllAre(parts.slashes, '/') && AllSpace(parts.spaces)
    && parts.word != "" && AllNameChars(parts.word)
    && (parts.rest == "" || !IsNameChar(parts.rest[0]))
    && IsLowerOf(name, parts.word)
  }

  lemma {:induction false} DropsPrefix(prefix: string, rest: string, c: char)
    requires AllAre(prefix, c) && (rest == "" || rest[0] != c)
    ensures DropLeading(prefix + rest, c) == rest
  {
    if prefix == "" {
      assert prefix + rest == rest;
    } else {
      DropsPrefix(prefix[1..], rest, c);
      assert (prefix + rest)[1..] == prefix[1..] + rest;
    }
  }

  lemma {:induction false} DropLeaves(s: string, c: char) returns (prefix: string)
    ensures s == prefix + DropLeading(s, c) && AllAre(prefix, c)
  {
    prefix := "";
    if s != "" && s[0] == c {
      var later := DropLeaves(s[1..], c);
      prefix := [c] + later;
      assert s == [c] + s[1..];
    }
  }

  lemma {:induction false} TrimsPrefix(prefix: string, rest: string)
    requires AllSpace(prefix) && (rest == "" || !IsSpace(rest[0]))
    ensures TrimStart(prefix + rest) == rest
  {
    if prefix == "" {
      assert prefix + rest == rest;
    } else {
      TrimsPrefix(prefix[1..], rest);
      assert (prefix + rest)[1..] == prefix[1..] + rest;
    }
  }

  lemma {:induction false} TakesPrefix(word: string, rest: string)
    requires AllNameChars(word) && (rest == "" || !IsNameChar(rest[0]))
    ensures TakeAlphanumeric(word + rest) == word
  {
    if word == "" {
      assert word + rest == rest;
    } else {
      TakesPrefix(word[1..], rest);
      assert (word + rest)[1..] == word[1..] + rest;
    }
  }

  lemma {:induction false} TakeLeaves(s: string) returns (rest: string)
    ensures s == TakeAlphanumeric(s) + rest && AllNameChars(TakeAlphanumeric(s))
    ensures rest == "" || !IsNameChar(rest[0])
  {
    rest := s;
    if s != "" && IsNameChar(s[0]) {
      rest := TakeLeaves(s[1..]);
      assert s == [s[0]] + s[1..];
    }
  }

  lemma {:induction false} LowerIs(s: string, lower: string)
    ensures lower == Lower(s) <==> IsLowerOf(lower, s)
  {
    forall i | 0 <= i < |s| ensures Lower(s)[i] == LowerChar(s[i]) {
      LowerAt(s, i);
    }
  }

  lemma {:induction false} StandingIsTaken(open: string, name: string, parts: TagParts)
    requires NameStands(open, name, parts)
    ensures TagName(open) == Some(name)
  {
    var named := parts.word + parts.rest;
    assert named[0] == parts.word[0] && IsNameChar(named[0]);
    var spaced := parts.spaces + named;
    var slashed := parts.slashes + spaced;
    assert spaced[0] == if parts.spaces == "" then named[0] else parts.spaces[0];
    assert slashed[0] == if parts.slashes == "" then spaced[0] else parts.slashes[0];
    DropsPrefix(parts.brackets, slashed, '<');
    DropsPrefix(parts.slashes, spaced, '/');
    TrimsPrefix(parts.spaces, named);
    TakesPrefix(parts.word, parts.rest);
    LowerIs(parts.word, name);
  }

  lemma {:induction false} TakenStands(open: string) returns (parts: TagParts)
    requires TagName(open).Some?
    ensures NameStands(open, TagName(open).value, parts)
  {
    var brackets := DropLeaves(open, '<');
    var slashed := DropLeading(open, '<');
    var slashes := DropLeaves(slashed, '/');
    var spaced := DropLeading(slashed, '/');
    var n := TrimStartIs(spaced);
    var rest := TakeLeaves(TrimStart(spaced));
    var word := TakeAlphanumeric(TrimStart(spaced));
    parts := TagParts(brackets, slashes, spaced[..n], word, rest);
    assert spaced == spaced[..n] + spaced[n..];
    LowerIs(word, TagName(open).value);
  }

  /** A tag's name is found exactly where it stands, in small letters. */
  lemma {:induction false} TagNameIff(open: string, name: string)
    ensures TagName(open) == Some(name) <==> exists parts :: NameStands(open, name, parts)
  {
    if TagName(open) == Some(name) {
      var parts := TakenStands(open);
    }
    forall parts | NameStands(open, name, parts) ensures TagName(open) == Some(name) {
      StandingIsTaken(open, name, parts);
    }
  }

  // Self-closing tags

  predicate SlashAt(open: string, i: nat) {
    i + 2 <= |open| && open[i] == '/' && open[i + 1] == '>' && AllSpace(open[i + 2..])
  }

  lemma {:induction false} SlashEnds(open: string, i: nat)
    requires SlashAt(open, i)
    ensures SelfClosing(open)
  {
    var end, last := TrimEnd(open), i + 1;
    EndsBeforeSpace(open, last);
    assert end[|end| - 2..] == "/>";
  }

  /** A tag closes itself exactly when it ends in `/>`, up to whitespace. */
  lemma {:induction false} SelfClosingIff(open: string)
    ensures SelfClosing(open) <==> exists i: nat :: SlashAt(open, i)
  {
    var end := TrimEnd(open);
    TrimEndIs(open);
    if SelfClosing(open) {
      var i := |end| - 2;
      assert end[i..] == "/>" && end[i] == end[i..][0] && end[i + 1] == end[i..][1];
      assert SlashAt(open, i);
    }
    forall i: nat | SlashAt(open, i) ensures SelfClosing(open) {
      SlashEnds(open, i);
    }
  }

  // Events

  predicate FirstAt(s: string, c: char, from: nat, at: nat) {
    from <= at < |s| && s[at] == c && forall i :: from <= i < at ==> s[i] != c
  }

  ghost predicate AnyAt(s: string, pattern: string, from: nat) {
    exists i: nat :: from <= i && OccursAt(s, pattern, i)
  }

  /** Neither an opening nor a closing tag begins in this stretch. */
  ghost predicate NoTagIn(lower: string, tag: string, from: nat, to: nat) {
    forall i :: from <= i < to ==> !OccursAt(lower, "<" + tag, i) && !OccursAt(lower, "</" + tag + ">", i)
  }

  /**
   The next event from the cursor on.  There is one only as long as a closing tag follows; it is the
   first place where an opening or a closing tag begins, and an opening tag reaches to the next `>`.
   */
  ghost predicate IsNextEvent(lower: string, tag: string, cursor: nat, event: Event) {
    && cursor <= event.at && AnyAt(lower, "</" + tag + ">", cursor) && NoTagIn(lower, tag, cursor, event.at)
    && if event.Close? then OccursAt(lower, "</" + tag + ">", event.at) && event.end == event.at + |tag| + 3
       else
         && OccursAt(lower, "<" + tag, event.at) && !OccursAt(lower, "</" + tag + ">", event.at)
         && event.end > 0 && FirstAt(lower, '>', event.at, event.end - 1)
         && (event.SelfClosed? <==> exists i: nat :: SlashAt(lower[event.at..event.end], i))
  }

  /** There is none: no closing tag follows, or an opening tag comes first and has no end. */
  ghost predicate NoNextEvent(lower: string, tag: string, cursor: nat) {
    || !AnyAt(lower, "</" + tag + ">", cursor)
    || exists at: nat :: UnclosedAt(lower, tag, cursor, at)
  }

  ghost predicate UnclosedAt(lower: string, tag: string, cursor: nat, at: nat) {
    && cursor <= at && NoTagIn(lower, tag, cursor, at)
    && OccursAt(lower, "<" + tag, at) && !OccursAt(lower, "</" + tag + ">", at)
    && forall i :: at <= i < |lower| ==> lower[i] != '>'
  }

  lemma {:induction false} FindIs(s: string, pattern: string, from: nat)
    ensures Find(s, pattern, from).Some? <==> AnyAt(s, pattern, from)
    ensures Find(s, pattern, from).Some? ==>
              && OccursAt(s, pattern, Find(s, pattern, from).value)
              && forall i :: from <= i < Find(s, pattern, from).value ==> !OccursAt(s, pattern, i)
  {
    forall i: nat ensures
      && (Find(s, pattern, from).Some? ==> OccursAt(s, pattern, Find(s, pattern, from).value))
      && (from <= i && OccursAt(s, pattern, i) ==>
            Find(s, pattern, from).Some? && Find(s, pattern, from).value <= i)
    {
      FindMeaning(s, pattern, from, i);
    }
  }

  lemma {:induction false} FindChar(s: string, from: nat, at: nat)
    requires from <= |s|
    ensures Find(s, ">", from) == Some(at) <==> FirstAt(s, '>', from, at)
    ensures Find(s, ">", from).None? <==> forall i :: from <= i < |s| ==> s[i] != '>'
  {
    FindIs(s, ">", from);
    forall i: nat ensures OccursAt(s, ">", i) <==> i < |s| && s[i] == '>' {
      if i < |s| {
        assert s[i..i + 1] == [s[i]];
      }
    }
  }

  lemma {:induction false} FoundIsNext(lower: string, tag: string, cursor: nat, event: Event)
    requires cursor <= |lower| && NextEvent(lower, tag, cursor) == Some(event)
    ensures IsNextEvent(lower, tag, cursor, event)
  {
    FindIs(lower, OpenPattern(tag), cursor);
    FindIs(lower, ClosePattern(tag), cursor);
    if !event.Close? {
      TagEnds(lower, tag, cursor, event);
    }
  }

  lemma {:induction false} TagEnds(lower: string, tag: string, cursor: nat, event: Event)
    requires cursor <= |lower| && NextEvent(lower, tag, cursor) == Some(event) && !event.Close?
    ensures FirstAt(lower, '>', event.at, event.end - 1)
    ensures event.SelfClosed? <==> exists i: nat :: SlashAt(lower[event.at..event.end], i)
  {
    FindChar(lower, event.at, event.end - 1);
    SelfClosingIff(lower[event.at..event.end]);
  }

  lemma {:induction false} NoneFound(lower: string, tag: string, cursor: nat)
    requires cursor <= |lower| && NextEvent(lower, tag, cursor).None?
    ensures NoNextEvent(lower, tag, cursor)
  {
    FindIs(lower, OpenPattern(tag), cursor);
    FindIs(lower, ClosePattern(tag), cursor);
    if AnyAt(lower, ClosePattern(tag), cursor) {
      var at := Find(lower, OpenPattern(tag), cursor).value;
      FindChar(lower, at, 0);
      assert UnclosedAt(lower, tag, cursor, at);
    }
  }

  /** The events are those from the cursor on, one behind the other, until there is none. */
  ghost predicate AreEvents(lower: string, tag: string, cursor: nat, events: seq<Event>)
    decreases |events|
  {
    if events == [] then NoNextEvent(lower, tag, cursor)
    else IsNextEvent(lower, tag, cursor, events[0]) && AreEvents(lower, tag, events[0].end, events[1..])
  }

  lemma {:induction false} EventsAre(lower: string, tag: string, cursor: nat)
    requires cursor <= |lower|
    ensures AreEvents(lower, tag, cursor, Events(lower, tag, cursor))
    decreases |lower| - cursor
  {
    match NextEvent(lower, tag, cursor) {
      case None => NoneFound(lower, tag, cursor);
      case Some(event) =>
        FoundIsNext(lower, tag, cursor, event);
        EventsAre(lower, tag, event.end);
    }
  }

  // Tags of any name

  /** From a `<` to the next `>`. */
  predicate IsNextTag(html: string, cursor: nat, span: Span) {
    span.end > 0 && FirstAt(html, '<', cursor, span.start) && FirstAt(html, '>', span.start, span.end - 1)
  }

  lemma {:induction false} FindBracket(s: string, from: nat, at: nat)
    requires from <= |s|
    ensures Find(s, "<", from) == Some(at) <==> FirstAt(s, '<', from, at)
  {
    FindIs(s, "<", from);
    forall i: nat ensures OccursAt(s, "<", i) <==> i < |s| && s[i] == '<' {
      if i < |s| {
        assert s[i..i + 1] == [s[i]];
      }
    }
  }

  lemma {:induction false} NextTagIff(html: string, cursor: nat, span: Span)
    requires cursor <= |html|
    ensures NextTag(html, cursor) == Some(span) <==> IsNextTag(html, cursor, span)
  {
    FindBracket(html, cursor, span.start);
    if span.end > 0 && span.start <= |html| {
      FindChar(html, span.start, span.end - 1);
    }
  }
}
