/**
 Streaming comparison of a file with stored text (src/ingest/reconcile_compare.rs) and the
 rendering it must agree with (src/ingest/reconcile_repair_apply.rs, src/mcp/support.rs).
 */
module FileCompare {
  import opened Database
  import opened Text
  import opened Utf8
  import opened Wrappers
  import Decimal

  datatype Page = Page(number: nat, text: string, textSource: TextSource)

  const BUFFER_SIZE: nat := 8192

  // The text of a whole document

  function RenderPage(page: Page): string {
    "[page " + Decimal.ToDecimal(page.number) + "]\n" + page.text
  }

  function RenderPages(pages: seq<Page>): seq<string> {
    if pages == [] then [] else [RenderPage(pages[0])] + RenderPages(pages[1..])
  }

  /** The combined text shown for a range of stored pages. */
  function CombinedText(pages: seq<Page>): string {
    Join(RenderPages(pages), "\n\n")
  }

  /** What the page at `index` adds to the text of the pages before it. */
  function PageLead(index: nat): string {
    if index > 0 then "\n\n" else ""
  }

  lemma {:induction false} JoinLast(parts: seq<string>, part: string, separator: string)
    ensures Join(parts + [part], separator)
         == Join(parts, separator) + (if parts == [] then "" else separator) + part
  {
    if |parts| == 0 {
      assert parts + [part] == [part];
    } else if |parts| == 1 {
      assert (parts + [part])[1..] == [part];
    } else {
      JoinLast(parts[1..], part, separator);
      assert (parts + [part])[1..] == parts[1..] + [part];
    }
  }

  lemma {:induction false} RenderPagesLast(pages: seq<Page>, page: Page)
    ensures |RenderPages(pages)| == |pages|
    ensures RenderPages(pages + [page]) == RenderPages(pages) + [RenderPage(page)]
  {
    if pages == [] {
      assert [page][1..] == [];
    } else {
      RenderPagesLast(pages[1..], page);
      assert (pages + [page])[1..] == pages[1..] + [page];
    }
  }

  lemma {:induction false} CombinedTextLast(pages: seq<Page>, i: nat)
    requires i < |pages|
    ensures CombinedText(pages[..i + 1]) == CombinedText(pages[..i]) + PageLead(i) + RenderPage(pages[i])
  {
    assert pages[..i + 1] == pages[..i] + [pages[i]];
    RenderPagesLast(pages[..i], pages[i]);
    JoinLast(RenderPages(pages[..i]), RenderPage(pages[i]), "\n\n");
  }

  datatype RenderError = NoStoredPages

  /** The push loop of `render_document_text`. */
  method RenderDocumentText(pages: seq<Page>) returns (r: Result<seq<byte>, RenderError>)
    ensures r == if pages == [] then Err(NoStoredPages) else Ok(Encode(CombinedText(pages)))
  {
    if pages == [] {
      return Err(NoStoredPages);
    }
    var rendered := "";
    for i := 0 to |pages|
      invariant rendered == CombinedText(pages[..i])
    {
      CombinedTextLast(pages, i);
      ghost var before := rendered;
      if i > 0 {
        rendered := rendered + "\n\n";
      }
      rendered := rendered + "[page ";
      rendered := rendered + Decimal.ToDecimal(pages[i].number);
      rendered := rendered + "]\n";
      rendered := rendered + pages[i].text;
      assert rendered == before + PageLead(i) + RenderPage(pages[i]);
    }
    assert pages[..|pages|] == pages;
    return Ok(Encode(rendered));
  }

  // The comparator

  class FileComparator {
    const content: seq<byte>
    var cursor: nat

    predicate Valid()
      reads this
    {
      cursor <= |content|
    }

    constructor Open(content: seq<byte>)
      ensures Valid() && this.content == content && cursor == 0
    {
      this.content := content;
      cursor := 0;
    }

    /** What the file still holds. */
    function Rest(): seq<byte>
      requires Valid()
      reads this
    {
      content[cursor..]
    }

    /** `read_exact`: too little left is an error, and the rest is consumed. */
    method ReadExact(buffer: array<byte>, count: nat) returns (ok: bool)
      requires Valid() && count <= buffer.Length
      modifies this`cursor, buffer
      ensures Valid()
      ensures ok <==> count <= |old(Rest())|
      ensures ok ==> buffer[..count] == old(Rest())[..count] && Rest() == old(Rest())[count..]
    {
      if |content| - cursor < count {
        cursor := |content|;
        return false;
      }
      for i := 0 to count
        modifies buffer
        invariant cursor + count <= |content|
        invariant buffer[..i] == content[cursor..cursor + i]
      {
        buffer[i] := content[cursor + i];
        assert buffer[..i + 1] == buffer[..i] + [content[cursor + i]];
      }
      cursor := cursor + count;
      return true;
    }

    /** Reads as much as `expected` holds, at most a buffer at a time. */
    method Consume(expected: seq<byte>) returns (matched: bool)
      requires Valid()
      modifies this`cursor
      ensures Valid()
      ensures matched <==> expected <= old(Rest())
      ensures matched ==> Rest() == old(Rest())[|expected|..]
    {
      var buffer := new byte[BUFFER_SIZE](_ => 0);
      var remaining := expected;
      ghost var done := 0;
      while remaining != []
        modifies this`cursor, buffer
        invariant Valid() && fresh(buffer) && buffer.Length == BUFFER_SIZE
        invariant done <= |expected| && remaining == expected[done..]
        invariant done <= |old(Rest())| && Rest() == old(Rest())[done..]
        invariant expected[..done] == old(Rest())[..done]
        decreases |remaining|
      {
        var readLen := if |remaining| < buffer.Length then |remaining| else buffer.Length;
        ghost var rest := Rest();
        var ok := ReadExact(buffer, readLen);
        if !ok {
          return false;
        }
        Portion(expected, old(Rest()), done, readLen);
        if buffer[..readLen] != remaining[..readLen] {
          return false;
        }
        remaining := remaining[readLen..];
        done := done + readLen;
      }
      return true;
    }

    /** One more byte must not be there. */
    method Finish() returns (atEnd: bool)
      requires Valid()
      modifies this`cursor
      ensures Valid() && (atEnd <==> old(Rest()) == [])
    {
      var trailing := new byte[1](_ => 0);
      var read := ReadExact(trailing, 1);
      return !read;
    }
  }

  /** Comparing the next `n` elements decides whether a matching prefix extends. */
  lemma {:induction false} Portion(expected: seq<byte>, actual: seq<byte>, done: nat, n: nat)
    requires done + n <= |expected| && done + n <= |actual| && expected[..done] == actual[..done]
    ensures expected[done..][..n] == actual[done..][..n] <==> expected[..done + n] == actual[..done + n]
    ensures expected <= actual ==> expected[..done + n] == actual[..done + n]
  {
    assert expected[..done + n] == expected[..done] + expected[done..][..n];
    assert actual[..done + n] == actual[..done] + actual[done..][..n];
    if expected[..done + n] == actual[..done + n] {
      assert expected[done..][..n] == expected[..done + n][done..];
      assert actual[done..][..n] == actual[..done + n][done..];
    }
    if expected <= actual {
      assert actual[..|expected|] == expected;
    }
  }

  method FileMatchesBytes(content: seq<byte>, expected: seq<byte>) returns (matches: bool)
    ensures matches <==> content == expected
  {
    var comparator := new FileComparator.Open(content);
    var matched := comparator.Consume(expected);
    if !matched {
      return false;
    }
    matches := comparator.Finish();
  }

  lemma {:induction false} PartDecides(content: seq<byte>, before: seq<byte>, part: seq<byte>, rest: seq<byte>, tail: seq<byte>)
    requires content == before + rest
    ensures part <= rest ==> content == (before + part) + rest[|part|..]
    ensures !(part <= rest) ==> content != before + part + tail
  {
    if part <= rest {
      assert rest == part + rest[|part|..];
    }
    if content == before + part + tail {
      assert rest == content[|before|..];
      assert part == rest[..|part|];
    }
  }

  lemma {:induction false} CombinedTextPrefix(pages: seq<Page>, i: nat)
    requires i <= |pages|
    ensures CombinedText(pages[..i]) <= CombinedText(pages)
    decreases |pages| - i
  {
    if i < |pages| {
      CombinedTextLast(pages, i);
      CombinedTextPrefix(pages, i + 1);
    } else {
      assert pages[..i] == pages;
    }
  }

  /** The file starts with `before` and the comparator stands right after it. */
  ghost predicate Past(comparator: FileComparator, before: string)
    reads comparator
  {
    comparator.Valid() && comparator.content == Encode(before) + comparator.Rest()
  }

  method ConsumeText(comparator: FileComparator, part: string, ghost before: string, ghost whole: string)
    returns (matched: bool)
    requires Past(comparator, before) && before + part <= whole
    modifies comparator`cursor
    ensures matched ==> Past(comparator, before + part)
    ensures comparator.Valid()
    ensures !matched ==> comparator.content != Encode(whole)
  {
    ghost var tail := whole[|before + part|..];
    assert whole == (before + part) + tail;
    EncodeConcat(before + part, tail);
    EncodeConcat(before, part);
    PartDecides(comparator.content, Encode(before), Encode(part), comparator.Rest(), Encode(tail));
    matched := comparator.Consume(Encode(part));
  }

  /** The consumes of one page; `false` as soon as one of them differs. */
  method ConsumePage(comparator: FileComparator, page: Page, index: nat, ghost before: string, ghost whole: string)
    returns (matched: bool)
    requires Past(comparator, before) && before + PageLead(index) + RenderPage(page) <= whole
    modifies comparator`cursor
    ensures matched ==> Past(comparator, before + PageLead(index) + RenderPage(page))
    ensures comparator.Valid()
    ensures !matched ==> comparator.content != Encode(whole)
  {
    ghost var lead := before + PageLead(index);
    ghost var heading := HeadingFits(lead, page, whole);
    if index > 0 {
      matched := ConsumeText(comparator, "\n\n", before, whole);
      if !matched {
        return;
      }
    } else {
      assert lead == before;
    }
    matched := ConsumeHeading(comparator, page.number, lead, heading, whole);
    if !matched {
      return;
    }
    matched := ConsumeText(comparator, page.text, heading, whole);
  }

  lemma {:induction false} HeadingFits(lead: string, page: Page, whole: string) returns (heading: string)
    requires lead + RenderPage(page) <= whole
    ensures heading == lead + "[page " + Decimal.ToDecimal(page.number) + "]\n"
    ensures heading + page.text == lead + RenderPage(page)
    ensures lead <= heading <= whole
  {
    heading := lead + "[page " + Decimal.ToDecimal(page.number) + "]\n";
    assert heading + page.text == lead + RenderPage(page);
  }

  method ConsumeHeading(
    comparator: FileComparator, number: nat, ghost lead: string, ghost heading: string, ghost whole: string)
    returns (matched: bool)
    requires Past(comparator, lead) && heading <= whole
    requires heading == lead + "[page " + Decimal.ToDecimal(number) + "]\n"
    modifies comparator`cursor
    ensures matched ==> Past(comparator, heading)
    ensures comparator.Valid()
    ensures !matched ==> comparator.content != Encode(whole)
  {
    ghost var opening := lead + "[page ";
    ghost var numbered := opening + Decimal.ToDecimal(number);
    assert opening <= numbered <= heading;
    matched := ConsumeText(comparator, "[page ", lead, whole);
    if !matched {
      return;
    }
    matched := ConsumeText(comparator, Decimal.ToDecimal(number), opening, whole);
    if !matched {
      return;
    }
    matched := ConsumeText(comparator, "]\n", numbered, whole);
  }

  /** The streaming comparison is equality with the rendered document. */
  method FileMatchesRenderedPages(content: seq<byte>, pages: seq<Page>) returns (matches: bool)
    ensures matches <==> content == Encode(CombinedText(pages))
  {
    var comparator := new FileComparator.Open(content);
    for i := 0 to |pages|
      invariant comparator.Valid() && comparator.content == content
      invariant Past(comparator, CombinedText(pages[..i]))
    {
      CombinedTextLast(pages, i);
      CombinedTextPrefix(pages, i + 1);
      var matched := ConsumePage(comparator, pages[i], i, CombinedText(pages[..i]), CombinedText(pages));
      if !matched {
        return false;
      }
    }
    assert pages[..|pages|] == pages;
    ghost var rest := comparator.Rest();
    matches := comparator.Finish();
    assert rest != [] ==> |content| > |Encode(CombinedText(pages))|;
  }
}
