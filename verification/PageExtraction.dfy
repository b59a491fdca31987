/** From form-feed separated text to numbered pages (src/ingest/pdf.rs). */
module PageExtraction {
  import opened Wrappers
  import opened Text
  import opened Chunking
  import opened Layout
  import Decimal

  const FORM_FEED: char := 12 as char

  datatype ExtractedText = ExtractedText(pages: seq<PageText>, warnings: seq<string>)

  datatype ExtractionError = EmptyInput

  /** `(index + 1) as u32`: the physical page number, wrapped to 32 bits. */
  function PageNumber(index: nat): nat {
    (index + 1) % (Decimal.U32_MAX + 1)
  }

  function TrimmedLines(lines: seq<string>): seq<string> {
    if lines == [] then [] else [TrimEnd(lines[0])] + TrimmedLines(lines[1..])
  }

  function NormalizePageText(text: string): string {
    Trim(Join(TrimmedLines(Lines(text)), "\n"))
  }

  function NumberedPages(pieces: seq<string>, index: nat): (pages: seq<PageText>)
    ensures |pages| == |pieces|
    ensures forall i :: 0 <= i < |pieces| ==>
              pages[i] == PageText(PageNumber(index + i), NormalizePageText(pieces[i]))
  {
    if pieces == [] then []
    else [PageText(PageNumber(index), NormalizePageText(pieces[0]))] + NumberedPages(pieces[1..], index + 1)
  }

  /** `position`: index of the first page with text, or the page count. */
  function FirstWithText(pages: seq<PageText>): (n: nat)
    ensures n <= |pages|
    ensures forall i :: 0 <= i < n ==> pages[i].text == ""
    ensures n < |pages| ==> pages[n].text != ""
  {
    if pages == [] || pages[0].text != "" then 0 else 1 + FirstWithText(pages[1..])
  }

  /** One past `rposition`: end of the shortest prefix holding every page with text. */
  function EndOfText(pages: seq<PageText>): (n: nat)
    ensures n <= |pages|
    ensures forall i :: n <= i < |pages| ==> pages[i].text == ""
    ensures n > 0 ==> pages[n - 1].text != ""
  {
    if pages == [] || pages[|pages| - 1].text != "" then |pages| else EndOfText(pages[..|pages| - 1])
  }

  function CountBlank(pages: seq<PageText>): (n: nat)
    ensures n <= |pages|
  {
    if pages == [] then 0 else (if Trim(pages[0].text) == "" then 1 else 0) + CountBlank(pages[1..])
  }

  function VisibleChars(text: string): nat {
    if text == "" then 0 else (if IsSpace(text[0]) then 0 else 1) + VisibleChars(text[1..])
  }

  function TotalVisibleChars(pages: seq<PageText>): nat {
    if pages == [] then 0
    else (if Trim(pages[0].text) == "" then 0 else VisibleChars(pages[0].text)) + TotalVisibleChars(pages[1..])
  }

  function AverageVisibleChars(pages: seq<PageText>): nat
    requires CountBlank(pages) < |pages|
  {
    TotalVisibleChars(pages) / (|pages| - CountBlank(pages))
  }

  predicate LowDensity(pages: seq<PageText>) {
    CountBlank(pages) < |pages| && AverageVisibleChars(pages) < 40
  }

  /** Counts first, advice last. */
  function BlankWarning(blank: nat, total: nat): (text: string)
    ensures "embedded PDF text contains " + Decimal.ToDecimal(blank)
            + " blank page(s) among " + Decimal.ToDecimal(total) <= text
  {
    "embedded PDF text contains " + Decimal.ToDecimal(blank) + " blank page(s) among "
    + Decimal.ToDecimal(total) + " parsed page(s); OCR fallback may improve coverage"
  }

  function DensityWarning(average: nat): (text: string)
    ensures "embedded PDF text has low density (" + Decimal.ToDecimal(average) <= text
  {
    "embedded PDF text has low density (" + Decimal.ToDecimal(average)
    + " visible chars/page); OCR fallback may improve quality"
  }

  function QualityWarnings(pages: seq<PageText>): seq<string> {
    (if CountBlank(pages) > 0 then [BlankWarning(CountBlank(pages), |pages|)] else [])
    + (if LowDensity(pages) then [DensityWarning(AverageVisibleChars(pages))] else [])
  }

  /** The numbered pages from the first to the last one with text. */
  function ExtractedPages(text: string): seq<PageText> {
    var normalized := NumberedPages(Split(text, FORM_FEED), 0);
    var first := FirstWithText(normalized);
    var end := EndOfText(normalized);
    if first == |normalized| then []
    else
      assert normalized[first].text != "";
      normalized[first..end]
  }

  function ExtractFromFormFeed(text: string): Result<ExtractedText, ExtractionError> {
    var pages := ExtractedPages(text);
    if pages == [] then Err(EmptyInput) else Ok(ExtractedText(pages, QualityWarnings(pages)))
  }

  // Words

  lemma {:induction false} TrimmedLinesWords(lines: seq<string>)
    ensures AllWords(TrimmedLines(lines)) == AllWords(lines)
  {
    if lines != [] {
      TrimmedLinesWords(lines[1..]);
      TrimEndWords(lines[0]);
    }
  }

  lemma {:induction false} NormalizeWords(text: string)
    ensures Words(NormalizePageText(text)) == Words(text)
    ensures NormalizePageText(text) == "" <==> Words(text) == []
  {
    var lines := TrimmedLines(Lines(text));
    LinesWords(text);
    TrimmedLinesWords(Lines(text));
    JoinWords(lines, "\n");
    TrimWords(Join(lines, "\n"));
  }

  // Lines

  /**
   A page's text keeps a stretch of its lines, each without trailing whitespace, the first also
   without leading whitespace; the lines before and after the stretch are blank, its first and last
   line are not.
   */
  ghost predicate KeepsLinesFrom(kept: seq<string>, lines: seq<string>, k: nat) {
    && kept != [] && k + |kept| <= |lines|
    && kept[0] != "" && kept[|kept| - 1] != ""
    && IsTrimOf(kept[0], lines[k])
    && (forall i :: 0 < i < |kept| ==> IsRightTrimOf(kept[i], lines[k + i]))
    && (forall j :: 0 <= j < k || k + |kept| <= j < |lines| ==> AllSpace(lines[j]))
  }

  ghost predicate KeepsLines(text: string, raw: string) {
    if text == "" then AllSpace(raw)
    else exists k: nat :: KeepsLinesFrom(Split(text, '\n'), Split(raw, '\n'), k)
  }

  lemma {:induction false} TrimmedLinesAt(lines: seq<string>)
    ensures |TrimmedLines(lines)| == |lines|
    ensures forall i :: 0 <= i < |lines| ==> TrimmedLines(lines)[i] == TrimEnd(lines[i])
  {
    if lines != [] {
      TrimmedLinesAt(lines[1..]);
    }
  }

  lemma {:induction false} TrimmedFirst(line: string, rest: seq<string>)
    ensures TrimmedLines([line] + rest) == [TrimEnd(line)] + TrimmedLines(rest)
    ensures TrimEnd(StripCarriageReturn(line)) == TrimEnd(line)
  {
    assert ([line] + rest)[1..] == rest;
  }

  /** Trimmed, the lines are the pieces between line feeds, but that a last empty piece is no line. */
  lemma {:induction false} LinesArePieces(s: string) returns (last: seq<string>)
    ensures last == [] || last == [""]
    ensures TrimmedLines(Split(s, '\n')) == TrimmedLines(Lines(s)) + last
    decreases |s|
  {
    var n := IndexOf(s, '\n');
    if s == "" {
      last := [""];
      assert Split(s, '\n') == [""] && TrimmedLines([""]) == [""] + TrimmedLines([]);
    } else if n == |s| {
      last := [];
      assert Split(s, '\n') == [s] == Lines(s);
    } else {
      last := LinesArePieces(s[n + 1..]);
      TrimmedFirst(s[..n], Split(s[n + 1..], '\n'));
      TrimmedFirst(StripCarriageReturn(s[..n]), Lines(s[n + 1..]));
    }
  }

  lemma {:induction false} TrimStartConcat(a: string, b: string)
    requires a != "" && !IsSpace(a[|a| - 1])
    ensures TrimStart(a + b) == TrimStart(a) + b && TrimStart(a) != ""
    decreases |a|
  {
    if IsSpace(a[0]) {
      assert (a + b)[1..] == a[1..] + b;
      TrimStartConcat(a[1..], b);
    }
  }

  lemma {:induction false} TrimEndConcat(a: string, b: string)
    ensures TrimEnd(b) != "" ==> TrimEnd(a + b) == a + TrimEnd(b)
    ensures TrimEnd(b) == "" ==> TrimEnd(a + b) == TrimEnd(a)
    decreases |b|
  {
    if b == "" {
      assert a + b == a;
    } else if IsSpace(b[|b| - 1]) {
      assert (a + b)[..|a + b| - 1] == a + b[..|b| - 1];
      TrimEndConcat(a, b[..|b| - 1]);
    }
  }

  /** Blank lines in front disappear together with the space in front of the first line that has text. */
  lemma {:induction false} TrimStartOfJoin(lines: seq<string>, k: nat)
    requires k < |lines| && lines[k] != "" && TrimEnd(lines[k]) == lines[k] && forall i :: 0 <= i < k ==> lines[i] == ""
    ensures TrimStart(Join(lines, "\n")) == Join([TrimStart(lines[k])] + lines[k + 1..], "\n")
    decreases k
  {
    if k > 0 {
      var rest := lines[1..];
      TrimStartOfJoin(rest, k - 1);
      assert Join(lines, "\n") == "\n" + Join(rest, "\n");
      assert Join(lines, "\n")[1..] == Join(rest, "\n");
      assert lines[k + 1..] == rest[k..];
    } else if |lines| == 1 {
      assert [TrimStart(lines[0])] + lines[1..] == [TrimStart(lines[0])];
    } else {
      var later := "\n" + Join(lines[1..], "\n");
      TrimStartConcat(lines[0], later);
      assert Join(lines, "\n") == lines[0] + later;
      var first := TrimStart(lines[0]);
      assert ([first] + lines[1..])[1..] == lines[1..];
      assert Join([first] + lines[1..], "\n") == first + later;
    }
  }

  lemma {:induction false} JoinFirst(line: string, rest: seq<string>)
    requires rest != []
    ensures Join([line] + rest, "\n") == line + ("\n" + Join(rest, "\n"))
  {
    assert ([line] + rest)[1..] == rest;
  }

  lemma {:induction false} BlankJoin(lines: seq<string>)
    requires forall i :: 0 <= i < |lines| ==> lines[i] == ""
    ensures TrimEnd(Join(lines, "\n")) == ""
  {
    if |lines| > 1 {
      BlankJoin(lines[1..]);
      TrimEndConcat("\n", Join(lines[1..], "\n"));
      assert Join(lines, "\n") == "\n" + Join(lines[1..], "\n");
    }
  }

  lemma {:induction false} TrimEndOfLines(line: string, rest: seq<string>)
    requires rest != []
    ensures
      var end := TrimEnd(Join(rest, "\n"));
      && (end != "" ==> TrimEnd(Join([line] + rest, "\n")) == line + ("\n" + end))
      && (end == "" ==> TrimEnd(Join([line] + rest, "\n")) == TrimEnd(line))
  {
    var later := Join(rest, "\n");
    JoinFirst(line, rest);
    TrimEndConcat("\n", later);
    assert TrimEnd("\n") == TrimEnd("");
    TrimEndConcat(line, "\n" + later);
  }

  /** Blank lines at the end disappear. */
  lemma {:induction false} TrimEndOfJoin(lines: seq<string>, m: nat)
    requires m < |lines| && lines[m] != "" && TrimEnd(lines[m]) == lines[m]
    requires forall i :: m < i < |lines| ==> lines[i] == ""
    ensures TrimEnd(Join(lines, "\n")) == Join(lines[..m + 1], "\n") != ""
    decreases m
  {
    var line, rest := lines[0], lines[1..];
    assert lines == [line] + rest;
    if m > 0 {
      TrimEndOfJoin(rest, m - 1);
      TrimEndOfLines(line, rest);
      JoinFirst(line, rest[..m]);
      assert lines[..m + 1] == [line] + rest[..m];
    } else {
      assert lines[..1] == [line];
      if rest != [] {
        BlankJoin(rest);
        TrimEndOfLines(line, rest);
      }
    }
  }

  lemma {:induction false} BlankLinesHaveNoWords(lines: seq<string>)
    requires forall i :: 0 <= i < |lines| ==> lines[i] == ""
    ensures AllWords(lines) == []
  {
    if lines != [] {
      BlankLinesHaveNoWords(lines[1..]);
    }
  }

  lemma {:induction false} SomeLineHasText(lines: seq<string>) returns (k: nat, m: nat)
    requires AllWords(lines) != []
    ensures k <= m < |lines| && lines[k] != "" && lines[m] != ""
    ensures forall i :: 0 <= i < k || m < i < |lines| ==> lines[i] == ""
  {
    if forall i :: 0 <= i < |lines| ==> lines[i] == "" {
      BlankLinesHaveNoWords(lines);
      assert false;
    }
    k := 0;
    while lines[k] == ""
      invariant k < |lines| && forall i :: 0 <= i < k ==> lines[i] == ""
      decreases |lines| - k
    {
      k := k + 1;
    }
    m := |lines| - 1;
    while lines[m] == ""
      invariant k <= m < |lines| && forall i :: m < i < |lines| ==> lines[i] == ""
      decreases m
    {
      m := m - 1;
    }
  }

  /** The lines from the first to the last that has text, trimmed as a whole. */
  function Stretch(lines: seq<string>, k: nat, m: nat): seq<string>
    requires k <= m < |lines|
  {
    [TrimStart(lines[k])] + lines[k + 1..m + 1]
  }

  lemma {:induction false} TrimStartOfTrimmed(line: string)
    requires line != "" && TrimEnd(line) == line
    ensures TrimStart(line) != "" && TrimEnd(TrimStart(line)) == TrimStart(line)
  {
    TrimStartConcat(line, "");
    assert line + "" == line;
    var i := TrimStartIs(line);
    assert TrimStart(line)[|TrimStart(line)| - 1] == line[|line| - 1];
  }

  lemma {:induction false} TrimOfJoin(lines: seq<string>, k: nat, m: nat)
    requires k <= m < |lines| && lines[k] != "" && lines[m] != ""
    requires TrimEnd(lines[k]) == lines[k] && TrimEnd(lines[m]) == lines[m]
    requires forall i :: 0 <= i < k || m < i < |lines| ==> lines[i] == ""
    ensures Trim(Join(lines, "\n")) == Join(Stretch(lines, k, m), "\n")
    ensures Stretch(lines, k, m)[0] != "" && Stretch(lines, k, m)[m - k] != ""
  {
    var later := [TrimStart(lines[k])] + lines[k + 1..];
    TrimStartOfJoin(lines, k);
    TrimStartOfTrimmed(lines[k]);
    assert later[m - k] == if m == k then TrimStart(lines[k]) else lines[m];
    TrimEndOfJoin(later, m - k);
    assert lines[k + 1..][..m - k] == lines[k + 1..m + 1];
    assert later[..m - k + 1] == Stretch(lines, k, m);
  }

  lemma {:induction false} LinesHaveNoFeeds(s: string)
    ensures forall i :: 0 <= i < |Lines(s)| ==> '\n' !in Lines(s)[i]
    decreases |s|
  {
    var n := IndexOf(s, '\n');
    if n < |s| {
      LinesHaveNoFeeds(s[n + 1..]);
    }
  }

  lemma {:induction false} StretchHasNoFeeds(lines: seq<string>, trimmed: seq<string>, k: nat, m: nat)
    requires |trimmed| == |lines| && k <= m < |lines|
    requires forall i :: 0 <= i < |lines| ==> '\n' !in lines[i] && trimmed[i] == TrimEnd(lines[i])
    ensures forall i :: 0 <= i < |Stretch(trimmed, k, m)| ==> '\n' !in Stretch(trimmed, k, m)[i]
  {
    forall i | 0 <= i < |lines| ensures '\n' !in trimmed[i] {
      assert forall c :: c in trimmed[i] ==> c in lines[i];
    }
    var start := TrimStartIs(trimmed[k]);
    assert forall c :: c in TrimStart(trimmed[k]) ==> c in trimmed[k];
  }

  lemma {:induction false} TrimEndTwice(s: string)
    ensures TrimEnd(TrimEnd(s)) == TrimEnd(s)
  {
  }

  lemma {:induction false} TrimBothIs(s: string)
    ensures IsTrimOf(TrimStart(TrimEnd(s)), s)
  {
    var e := TrimEnd(s);
    TrimEndIs(s);
    var i := TrimStartIs(e);
    assert s[..i] == e[..i];
    assert TrimStart(e) == e[i..] <= s[i..];
    assert s[i..][|e[i..]|..] == s[|e|..];
    assert TrimStart(e) != "" ==> e[i..][|e[i..]| - 1] == e[|e| - 1];
    assert IsRightTrimOf(TrimStart(e), s[i..]);
  }

  lemma {:induction false} NothingLeft(s: string)
    requires TrimEnd(s) == ""
    ensures AllSpace(s)
  {
    TrimEndIs(s);
    assert s[0..] == s;
  }

  lemma {:induction false} StretchKeepsLines(trimmed: seq<string>, pieces: seq<string>, k: nat, m: nat)
    requires k <= m < |trimmed| <= |pieces|
    requires forall i :: 0 <= i < |trimmed| ==> trimmed[i] == TrimEnd(pieces[i])
    requires forall i :: |trimmed| <= i < |pieces| ==> TrimEnd(pieces[i]) == ""
    requires forall i :: 0 <= i < k || m < i < |trimmed| ==> trimmed[i] == ""
    requires Stretch(trimmed, k, m)[0] != "" && Stretch(trimmed, k, m)[m - k] != ""
    ensures KeepsLinesFrom(Stretch(trimmed, k, m), pieces, k)
  {
    var kept := Stretch(trimmed, k, m);
    TrimBothIs(pieces[k]);
    forall i | 0 < i < |kept| ensures IsRightTrimOf(kept[i], pieces[k + i]) {
      TrimEndIs(pieces[k + i]);
    }
    forall j | 0 <= j < k || k + |kept| <= j < |pieces| ensures AllSpace(pieces[j]) {
      assert TrimEnd(pieces[j]) == "";
      NothingLeft(pieces[j]);
    }
  }

  lemma {:induction false} NormalizeKeepsLines(text: string)
    ensures KeepsLines(NormalizePageText(text), text)
  {
    NormalizeWords(text);
    NoWordsIffAllSpace(text);
    if NormalizePageText(text) != "" {
      var trimmed, pieces := TrimmedLines(Lines(text)), Split(text, '\n');
      LinesWords(text);
      TrimmedLinesWords(Lines(text));
      var k, m := SomeLineHasText(trimmed);
      TrimmedLinesAt(Lines(text));
      TrimEndTwice(Lines(text)[k]);
      TrimEndTwice(Lines(text)[m]);
      TrimOfJoin(trimmed, k, m);
      LinesHaveNoFeeds(text);
      StretchHasNoFeeds(Lines(text), trimmed, k, m);
      SplitOfJoin(Stretch(trimmed, k, m), '\n');
      var last := LinesArePieces(text);
      TrimmedLinesAt(pieces);
      assert TrimmedLines(pieces) == trimmed + last;
      StretchKeepsLines(trimmed, pieces, k, m);
    }
  }

  lemma {:induction false} KeptHasText(text: string, raw: string)
    requires KeepsLines(text, raw) && text != ""
    ensures !AllSpace(raw)
  {
    var kept, lines := Split(text, '\n'), Split(raw, '\n');
    var k: nat :| KeepsLinesFrom(kept, lines, k);
    assert !AllSpace(lines[k]);
    SplitWords(raw, '\n');
    NoWordsIffAllSpace(lines[k]);
    NoWordsIffAllSpace(raw);
    SomeWords(lines, k);
  }

  lemma {:induction false} SomeWords(lines: seq<string>, k: nat)
    requires k < |lines| && Words(lines[k]) != []
    ensures AllWords(lines) != []
  {
    if k > 0 {
      SomeWords(lines[1..], k - 1);
    }
  }

  lemma {:induction false} NumberedPagesWords(pieces: seq<string>, index: nat)
    ensures PageWords(NumberedPages(pieces, index)) == AllWords(pieces)
  {
    if pieces != [] {
      NumberedPagesWords(pieces[1..], index + 1);
      NormalizeWords(pieces[0]);
    }
  }

  lemma {:induction false} BlankPagesHaveNoWords(pages: seq<PageText>)
    requires forall i :: 0 <= i < |pages| ==> pages[i].text == ""
    ensures PageWords(pages) == []
  {
    if pages != [] {
      BlankPagesHaveNoWords(pages[1..]);
    }
  }

  /** `pages[i]` is normalised physical page `first + i`. */
  ghost predicate PhysicalPages(pages: seq<PageText>, pieces: seq<string>, first: nat) {
    && first + |pages| <= |pieces|
    && (forall i :: 0 <= i < |pages| ==>
          && pages[i].pageNumber == (first + i + 1) % 0x1_0000_0000
          && KeepsLines(pages[i].text, pieces[first + i]))
    && (pages != [] ==> pages[0].text != "" && pages[|pages| - 1].text != "")
    && (forall j :: 0 <= j < first || first + |pages| <= j < |pieces| ==> AllSpace(pieces[j]))
  }

  /** Cutting pages without text off both ends loses no word. */
  lemma {:induction false} TrimmedPagesWords(pages: seq<PageText>, first: nat, end: nat)
    requires first <= end <= |pages|
    requires forall i :: 0 <= i < first || end <= i < |pages| ==> pages[i].text == ""
    ensures PageWords(pages[first..end]) == PageWords(pages)
  {
    assert pages == pages[..first] + (pages[first..end] + pages[end..]);
    PageWordsConcat(pages[..first], pages[first..end] + pages[end..]);
    PageWordsConcat(pages[first..end], pages[end..]);
    BlankPagesHaveNoWords(pages[..first]);
    BlankPagesHaveNoWords(pages[end..]);
  }

  lemma {:induction false} PageWithText(pages: seq<PageText>, i: nat)
    requires i < |pages| && Words(pages[i].text) != []
    ensures PageWords(pages) != []
  {
    assert pages == pages[..i] + ([pages[i]] + pages[i + 1..]);
    PageWordsConcat(pages[..i], [pages[i]] + pages[i + 1..]);
    assert ([pages[i]] + pages[i + 1..])[0] == pages[i];
  }

  lemma {:induction false} SomePageHasText(pieces: seq<string>, normalized: seq<PageText>)
    requires normalized == NumberedPages(pieces, 0)
    ensures FirstWithText(normalized) < |normalized| <==> AllWords(pieces) != []
  {
    NumberedPagesWords(pieces, 0);
    var first := FirstWithText(normalized);
    if first == |normalized| {
      BlankPagesHaveNoWords(normalized);
    } else {
      NormalizeWords(pieces[first]);
      PageWithText(normalized, first);
    }
  }

  lemma {:induction false} TextEnds(pages: seq<PageText>)
    requires FirstWithText(pages) < |pages|
    ensures FirstWithText(pages) < EndOfText(pages)
    ensures pages[FirstWithText(pages)].text != "" && pages[EndOfText(pages) - 1].text != ""
  {
    assert pages[FirstWithText(pages)].text != "";
  }

  lemma {:induction false} ExtractedAreNormalized(text: string, normalized: seq<PageText>) returns (first: nat, end: nat)
    requires normalized == NumberedPages(Split(text, FORM_FEED), 0)
    requires FirstWithText(normalized) < |normalized|
    ensures first < end <= |normalized| && ExtractedPages(text) == normalized[first..end]
    ensures normalized[first].text != "" && normalized[end - 1].text != ""
    ensures forall i :: 0 <= i < first || end <= i < |normalized| ==> normalized[i].text == ""
  {
    first, end := FirstWithText(normalized), EndOfText(normalized);
    TextEnds(normalized);
  }

  /** Extraction keeps every word of the raw text in order, and fails exactly when there is none. */
  lemma {:induction false} ExtractionKeepsWords(text: string)
    ensures ExtractFromFormFeed(text).Err? <==> Words(text) == []
    ensures ExtractFromFormFeed(text).Ok? ==> PageWords(ExtractFromFormFeed(text).value.pages) == Words(text)
    ensures PageWords(ExtractedPages(text)) == Words(text)
  {
    var normalized := NumberedPages(Split(text, FORM_FEED), 0);
    SplitWords(text, FORM_FEED);
    SomePageHasText(Split(text, FORM_FEED), normalized);
    if FirstWithText(normalized) < |normalized| {
      var first, end := ExtractedAreNormalized(text, normalized);
      NumberedPagesWords(Split(text, FORM_FEED), 0);
      TrimmedPagesWords(normalized, first, end);
    } else {
      assert ExtractedPages(text) == [];
    }
  }

  lemma {:induction false} NormalizedIsPhysical(pieces: seq<string>, normalized: seq<PageText>, i: nat)
    requires normalized == NumberedPages(pieces, 0) && i < |pieces|
    ensures normalized[i].pageNumber == (i + 1) % 0x1_0000_0000
    ensures KeepsLines(normalized[i].text, pieces[i])
  {
    NormalizeKeepsLines(pieces[i]);
  }

  /**
   The pages kept are consecutive physical pages carrying their physical numbers in 32 bits and the
   lines of those pages; the pages cut off are blank, and the first and the last one kept are not.
   */
  lemma {:induction false} ExtractionKeepsPages(text: string) returns (first: nat)
    ensures PhysicalPages(ExtractedPages(text), Split(text, FORM_FEED), first)
  {
    var pieces := Split(text, FORM_FEED);
    var normalized := NumberedPages(pieces, 0);
    forall i | 0 <= i < |pieces|
      ensures normalized[i].pageNumber == (i + 1) % 0x1_0000_0000 && KeepsLines(normalized[i].text, pieces[i])
    {
      NormalizedIsPhysical(pieces, normalized, i);
    }
    first := 0;
    if FirstWithText(normalized) < |normalized| {
      var end;
      first, end := ExtractedAreNormalized(text, normalized);
      SliceIsPhysical(pieces, normalized, first, end);
    } else {
      assert ExtractedPages(text) == [];
    }
  }

  lemma {:induction false} SliceIsPhysical(pieces: seq<string>, normalized: seq<PageText>, first: nat, end: nat)
    requires |normalized| == |pieces| && first < end <= |normalized|
    requires forall i :: 0 <= i < |pieces| ==>
               normalized[i].pageNumber == (i + 1) % 0x1_0000_0000 && KeepsLines(normalized[i].text, pieces[i])
    requires normalized[first].text != "" && normalized[end - 1].text != ""
    requires forall i :: 0 <= i < first || end <= i < |normalized| ==> normalized[i].text == ""
    ensures PhysicalPages(normalized[first..end], pieces, first)
  {
    var pages := normalized[first..end];
    forall i | 0 <= i < |pages|
      ensures pages[i].pageNumber == (first + i + 1) % 0x1_0000_0000 && KeepsLines(pages[i].text, pieces[first + i])
    {
      assert pages[i] == normalized[first + i];
    }
    forall j | 0 <= j < first || end <= j < |pieces| ensures AllSpace(pieces[j]) {
      assert KeepsLines(normalized[j].text, pieces[j]);
    }
  }

  /** Below the 32-bit limit the numbers run consecutively and are never zero. */
  lemma {:induction false} PhysicalNumbers(pages: seq<PageText>, pieces: seq<string>, first: nat)
    requires PhysicalPages(pages, pieces, first) && |pieces| <= Decimal.U32_MAX
    ensures ConsecutiveNumbers(pages)
    ensures forall i :: 0 <= i < |pages| ==> pages[i].pageNumber == first + i + 1
  {
    forall i | 0 <= i < |pages| ensures pages[i].pageNumber == first + i + 1 {
      SmallNumber(first + i + 1);
    }
    NumberedFrom(pages, first + 1);
  }

  lemma {:induction false} SmallNumber(n: nat)
    requires n <= Decimal.U32_MAX
    ensures n % 0x1_0000_0000 == n
  {
  }

  lemma {:induction false} NumberedFrom(pages: seq<PageText>, start: nat)
    requires forall i :: 0 <= i < |pages| ==> pages[i].pageNumber == start + i
    ensures ConsecutiveNumbers(pages)
  {
  }

  /** End to end: the words of the raw text are the words of the chunk texts, in order. */
  lemma {:induction false} WordsSurviveIngestion(
    text: string, extracted: ExtractedText, targetTokens: nat, chunks: seq<Chunk>)
    requires ExtractFromFormFeed(text) == Ok(extracted)
    requires ChunkResult(extracted.pages, targetTokens) == Ok(chunks)
    ensures ChunkWords(chunks) == Words(text)
  {
    ExtractionKeepsWords(text);
    ChunkingKeepsWords(extracted.pages, targetTokens);
  }

  /** What is extracted from text with fewer than 2^32 pages chunks, and the ranges tile its physical pages. */
  lemma {:induction false} RangesTilePhysicalPages(text: string, extracted: ExtractedText, targetTokens: nat)
    requires ExtractFromFormFeed(text) == Ok(extracted) && |Split(text, FORM_FEED)| <= Decimal.U32_MAX
    ensures
      var pages := extracted.pages;
      && ChunkResult(pages, targetTokens).Ok? && pages != []
      && Tiles(ChunksFor(pages, targetTokens), pages[0].pageNumber, pages[|pages| - 1].pageNumber)
  {
    var first := ExtractionKeepsPages(text);
    PhysicalPagesTile(extracted.pages, Split(text, FORM_FEED), first, targetTokens);
  }

  lemma {:induction false} PhysicalPagesTile(pages: seq<PageText>, pieces: seq<string>, first: nat, targetTokens: nat)
    requires PhysicalPages(pages, pieces, first) && |pieces| <= Decimal.U32_MAX && pages != []
    ensures ChunkResult(pages, targetTokens).Ok?
    ensures Tiles(ChunksFor(pages, targetTokens), pages[0].pageNumber, pages[|pages| - 1].pageNumber)
  {
    PhysicalNumbers(pages, pieces, first);
    ChunksTile(pages, targetTokens);
  }

  // Warnings

  ghost function BlankFrom(pages: seq<PageText>, k: nat): set<nat> {
    set i | k <= i < |pages| && AllSpace(pages[i].text)
  }

  lemma {:induction false} CountBlankFrom(pages: seq<PageText>, k: nat)
    requires k <= |pages|
    ensures CountBlank(pages[k..]) == |BlankFrom(pages, k)|
    decreases |pages| - k
  {
    if k < |pages| {
      CountBlankFrom(pages, k + 1);
      assert pages[k..][1..] == pages[k + 1..];
      TrimWords(pages[k].text);
      NoWordsIffAllSpace(pages[k].text);
      if AllSpace(pages[k].text) {
        assert BlankFrom(pages, k) == BlankFrom(pages, k + 1) + {k};
      } else {
        assert BlankFrom(pages, k) == BlankFrom(pages, k + 1);
      }
    }
  }

  /** Characters of a list of words. */
  function Letters(words: seq<string>): nat {
    if words == [] then 0 else |words[0]| + Letters(words[1..])
  }

  lemma {:induction false} LettersConcat(a: seq<string>, b: seq<string>)
    ensures Letters(a + b) == Letters(a) + Letters(b)
  {
    if a == [] {
      assert a + b == b;
    } else {
      LettersConcat(a[1..], b);
      assert (a + b)[1..] == a[1..] + b;
    }
  }

  lemma {:induction false} VisibleConcat(a: string, b: string)
    ensures VisibleChars(a + b) == VisibleChars(a) + VisibleChars(b)
  {
    if a == "" {
      assert a + b == b;
    } else {
      VisibleConcat(a[1..], b);
      assert (a + b)[1..] == a[1..] + b;
    }
  }

  lemma {:induction false} AllVisible(s: string)
    requires forall i :: 0 <= i < |s| ==> !IsSpace(s[i])
    ensures VisibleChars(s) == |s|
  {
    if s != "" {
      AllVisible(s[1..]);
    }
  }

  lemma {:induction false} VisibleAreLetters(s: string)
    ensures VisibleChars(s) == Letters(Words(s))
    decreases |s|
  {
    if s != "" {
      if IsSpace(s[0]) {
        VisibleAreLetters(s[1..]);
      } else {
        var n := WordLength(s);
        assert s == s[..n] + s[n..];
        VisibleConcat(s[..n], s[n..]);
        AllVisible(s[..n]);
        VisibleAreLetters(s[n..]);
      }
    }
  }

  lemma {:induction false} TotalAreLetters(pages: seq<PageText>)
    ensures TotalVisibleChars(pages) == Letters(PageWords(pages))
  {
    if pages != [] {
      TotalAreLetters(pages[1..]);
      VisibleAreLetters(pages[0].text);
      TrimWords(pages[0].text);
      LettersConcat(Words(pages[0].text), PageWords(pages[1..]));
    }
  }

  /** One warning if there are blank pages, and one if the others average below 40 letters. */
  ghost predicate WarnsOf(warnings: seq<string>, total: nat, blank: nat, letters: nat) {
    && blank < total
    && warnings ==
         (if blank > 0 then [BlankWarning(blank, total)] else [])
         + (if letters < 40 * (total - blank) then [DensityWarning(letters / (total - blank))] else [])
  }

  lemma {:induction false} WarningsOf(pages: seq<PageText>)
    requires CountBlank(pages) < |pages|
    ensures WarnsOf(QualityWarnings(pages), |pages|, |BlankFrom(pages, 0)|, Letters(PageWords(pages)))
  {
    CountBlankFrom(pages, 0);
    assert pages[0..] == pages;
    TotalAreLetters(pages);
    LowDensityIff(pages);
  }

  /**
   What an extraction warns about: blank pages, and pages with text that average below 40 characters
   in words, each in one warning with its count, and in this order.
   */
  lemma {:induction false} ExtractionWarnsIff(text: string, extracted: ExtractedText)
    requires ExtractFromFormFeed(text) == Ok(extracted)
    ensures WarnsOf(
              extracted.warnings, |extracted.pages|, |BlankFrom(extracted.pages, 0)|, Letters(Words(text)))
  {
    ExtractionKeepsWords(text);
    FirstIsNotBlank(text);
    WarningsOf(extracted.pages);
  }

  lemma {:induction false} FirstIsNotBlank(text: string)
    requires ExtractedPages(text) != []
    ensures CountBlank(ExtractedPages(text)) < |ExtractedPages(text)|
  {
    var pages := ExtractedPages(text);
    ExtractionKeepsWords(text);
    if CountBlank(pages) == |pages| {
      AllBlank(pages);
    }
  }

  lemma {:induction false} AllBlank(pages: seq<PageText>)
    requires CountBlank(pages) == |pages|
    ensures PageWords(pages) == []
  {
    if pages != [] {
      AllBlank(pages[1..]);
      TrimWords(pages[0].text);
    }
  }

  /** A page set is dense enough exactly when its pages with text average 40 visible characters. */
  lemma {:induction false} LowDensityIff(pages: seq<PageText>)
    ensures LowDensity(pages) <==> TotalVisibleChars(pages) < 40 * (|pages| - CountBlank(pages))
  {
    var n := |pages| - CountBlank(pages);
    if n > 0 {
      AverageBelow(TotalVisibleChars(pages), n, 40);
    }
  }

  lemma {:induction false} AverageBelow(total: nat, n: nat, bound: nat)
    requires n > 0
    ensures total / n < bound <==> total < bound * n
  {
    var q := total / n;
    assert total == n * q + total % n;
    if q < bound {
      assert n * q <= n * (bound - 1);
    } else {
      assert n * q >= n * bound;
    }
  }
}
