/** What each chunk says: the texts of exactly the pages in its range (src/ingest/chunk.rs). */
module ChunkTexts {
  import opened Chunking
  import opened Layout
  import opened Text
  import Decimal

  /** The parts are the texts of the pages that have text, each trimmed, in order. */
  ghost predicate VisibleParts(parts: seq<string>, pages: seq<PageText>) {
    if pages == [] then parts == []
    else if AllSpace(pages[0].text) then VisibleParts(parts, pages[1..])
    else parts != [] && IsTrimOf(parts[0], pages[0].text) && VisibleParts(parts[1..], pages[1..])
  }

  /** The text is those parts with an empty line between each two. */
  ghost predicate ReadsAs(text: string, pages: seq<PageText>) {
    exists parts: seq<string> :: VisibleParts(parts, pages) && IsJoined(text, parts, "\n\n")
  }

  lemma {:induction false} BlankIffTrimmed(text: string)
    ensures Trim(text) == "" <==> AllSpace(text)
  {
    TrimWords(text);
    NoWordsIffAllSpace(text);
  }

  lemma {:induction false} VisibleTextsAre(pages: seq<PageText>)
    ensures VisibleParts(VisibleTexts(pages), pages)
  {
    if pages != [] {
      var text, rest := Trim(pages[0].text), VisibleTexts(pages[1..]);
      VisibleTextsAre(pages[1..]);
      BlankIffTrimmed(pages[0].text);
      if text == "" {
        assert VisibleTexts(pages) == rest;
      } else {
        TrimIs(pages[0].text);
        assert VisibleTexts(pages) == [text] + rest;
        assert VisibleTexts(pages)[1..] == rest;
      }
    }
  }

  /** A chunk holds the texts of the pages of its range, and counts the words it holds. */
  ghost predicate IsOfItsPages(chunk: Chunk, pages: seq<PageText>)
    requires pages != []
  {
    var first := pages[0].pageNumber;
    && first <= chunk.pageStart <= chunk.pageEnd < first + |pages|
    && ReadsAs(chunk.text, pages[chunk.pageStart - first..chunk.pageEnd - first + 1])
    && chunk.tokenEstimate == if Words(chunk.text) == [] then 1 else |Words(chunk.text)|
  }

  lemma {:induction false} BuildChunkReads(sequence: nat, pages: seq<PageText>)
    ensures ReadsAs(BuildChunk(sequence, pages).text, pages)
  {
    VisibleTextsAre(pages);
    JoinIs(VisibleTexts(pages), "\n\n");
  }

  lemma {:induction false} BlockReads(pages: seq<PageText>, blocks: seq<seq<PageText>>, i: nat)
    requires pages != [] && ConsecutiveNumbers(pages) && Flatten(blocks) == pages
    requires i < |blocks| && blocks[i] != []
    ensures IsOfItsPages(BuildChunk(i + 1, blocks[i]), pages)
  {
    var offset := FlattenSlice(blocks, i);
    var chunk := BuildChunk(i + 1, blocks[i]);
    BlockRange(pages, blocks, i);
    BuildChunkFields(i + 1, blocks[i]);
    BuildChunkReads(i + 1, blocks[i]);
    IsOfSlice(chunk, pages, offset, blocks[i]);
  }

  lemma {:induction false} IsOfSlice(chunk: Chunk, pages: seq<PageText>, offset: nat, block: seq<PageText>)
    requires block != [] && offset + |block| <= |pages| && pages[offset..offset + |block|] == block
    requires chunk.pageStart == pages[0].pageNumber + offset && chunk.pageEnd == chunk.pageStart + |block| - 1
    requires ReadsAs(chunk.text, block) && chunk.tokenEstimate == EstimateTokens(chunk.text)
    ensures IsOfItsPages(chunk, pages)
  {
  }

  lemma {:induction false} ChunksHoldTheirPages(pages: seq<PageText>, targetTokens: nat)
    requires pages != [] && ConsecutiveNumbers(pages)
    ensures forall chunk :: chunk in ChunksFor(pages, targetTokens) ==> IsOfItsPages(chunk, pages)
  {
    var blocks := BlocksFor(pages, targetTokens);
    BlocksAreValid(pages, targetTokens);
    forall i | 0 <= i < |blocks| ensures IsOfItsPages(BuildChunks(blocks)[i], pages) {
      BlockReads(pages, blocks, i);
    }
  }

  /** `chunk-` and the number in at least four digits. */
  ghost predicate IsIdOf(id: string, number: nat) {
    && |id| >= 10 && id[..6] == "chunk-"
    && Decimal.AllDigits(id[6..]) && Decimal.DigitsValue(id[6..]) == number
    && (|id| > 10 ==> id[6] != '0')
  }

  /** Chunk `i` carries the id of number `i + 1`. */
  lemma {:induction false} ChunkIdsCount(pages: seq<PageText>, targetTokens: nat, i: nat)
    requires i < |ChunksFor(pages, targetTokens)|
    ensures IsIdOf(ChunksFor(pages, targetTokens)[i].chunkId, i + 1)
  {
    BlocksAreValid(pages, targetTokens);
    BuildChunkFields(i + 1, BlocksFor(pages, targetTokens)[i]);
    Decimal.PaddedMeaning(i + 1, 4);
    var prefix := "chunk-";
    assert ChunkId(i + 1)[..6] == prefix && ChunkId(i + 1)[6..] == Decimal.PaddedDecimal(i + 1, 4);
  }
}
