/** Greedy grouping of pages into chunks (src/ingest/chunk.rs). */
module Chunking {
  import opened Text
  import opened Wrappers
  import Decimal

  datatype PageText = PageText(pageNumber: nat, text: string)

  datatype Chunk = Chunk(chunkId: string, pageStart: nat, pageEnd: nat, text: string, tokenEstimate: nat)

  datatype ChunkError = EmptyPages | InvalidPageNumber(page: nat)

  function Max(a: nat, b: nat): nat {
    if a >= b then a else b
  }

  function EstimateTokens(text: string): nat {
    Max(|Words(text)|, 1)
  }

  function ChunkId(sequence: nat): string {
    "chunk-" + Decimal.PaddedDecimal(sequence, 4)
  }

  lemma {:induction false} ChunkIdInjective(m: nat, n: nat)
    requires m != n
    ensures ChunkId(m) != ChunkId(n)
  {
    var prefix := "chunk-";
    assert (prefix + Decimal.PaddedDecimal(m, 4))[|prefix|..] == Decimal.PaddedDecimal(m, 4);
    assert (prefix + Decimal.PaddedDecimal(n, 4))[|prefix|..] == Decimal.PaddedDecimal(n, 4);
    if ChunkId(m) == ChunkId(n) {
      Decimal.PaddedInjective(m, n, 4);
    }
  }

  function VisibleTexts(pages: seq<PageText>): seq<string> {
    if pages == [] then []
    else
      var text := Trim(pages[0].text);
      (if text == "" then [] else [text]) + VisibleTexts(pages[1..])
  }

  function BuildChunk(sequence: nat, pages: seq<PageText>): Chunk {
    var pageStart := if pages == [] then 1 else pages[0].pageNumber;
    var pageEnd := if pages == [] then pageStart else pages[|pages| - 1].pageNumber;
    var text := Join(VisibleTexts(pages), "\n\n");
    Chunk(ChunkId(sequence), pageStart, pageEnd, text, EstimateTokens(text))
  }

  function BuildChunks(blocks: seq<seq<PageText>>): (chunks: seq<Chunk>)
    ensures |chunks| == |blocks|
    ensures forall i :: 0 <= i < |blocks| ==> chunks[i] == BuildChunk(i + 1, blocks[i])
  {
    seq(|blocks|, i requires 0 <= i < |blocks| => BuildChunk(i + 1, blocks[i]))
  }

  lemma {:induction false} BuildChunksSnoc(blocks: seq<seq<PageText>>, block: seq<PageText>)
    ensures BuildChunks(blocks + [block]) == BuildChunks(blocks) + [BuildChunk(|blocks| + 1, block)]
  {
  }

  lemma {:induction false} BuildChunkFields(sequence: nat, pages: seq<PageText>)
    requires pages != []
    ensures BuildChunk(sequence, pages).chunkId == ChunkId(sequence)
    ensures BuildChunk(sequence, pages).pageStart == pages[0].pageNumber
    ensures BuildChunk(sequence, pages).pageEnd == pages[|pages| - 1].pageNumber
  {
  }

  // The grouping, and the splits it competes with

  function TokenSum(pages: seq<PageText>): nat {
    if pages == [] then 0 else EstimateTokens(pages[0].text) + TokenSum(pages[1..])
  }

  function Flatten(blocks: seq<seq<PageText>>): seq<PageText> {
    if blocks == [] then [] else blocks[0] + Flatten(blocks[1..])
  }

  predicate Admissible(block: seq<PageText>, target: nat) {
    |block| == 1 || (block != [] && TokenSum(block) <= target)
  }

  /** A division of the page list into contiguous blocks that are single pages or fit the target. */
  ghost predicate ValidSplit(blocks: seq<seq<PageText>>, pages: seq<PageText>, target: nat) {
    && Flatten(blocks) == pages
    && forall i :: 0 <= i < |blocks| ==> Admissible(blocks[i], target)
  }

  /** Blocks still to be closed by the loop when `current` is the open one. */
  function Greedy(current: seq<PageText>, rest: seq<PageText>, target: nat): seq<seq<PageText>>
    decreases |rest|
  {
    if rest == [] then if current == [] then [] else [current]
    else if current != [] && TokenSum(current) + EstimateTokens(rest[0].text) > target then
      [current] + Greedy([rest[0]], rest[1..], target)
    else Greedy(current + [rest[0]], rest[1..], target)
  }

  function BlocksFor(pages: seq<PageText>, targetTokens: nat): seq<seq<PageText>> {
    Greedy([], pages, Max(targetTokens, 1))
  }

  function ChunksFor(pages: seq<PageText>, targetTokens: nat): seq<Chunk> {
    BuildChunks(BlocksFor(pages, targetTokens))
  }

  predicate HasInvalidNumber(pages: seq<PageText>) {
    exists i :: 0 <= i < |pages| && pages[i].pageNumber == 0
  }

  /** What `chunk_pages` returns; the loop below computes it and the lemmas say what it is worth. */
  function ChunkResult(pages: seq<PageText>, targetTokens: nat): Result<seq<Chunk>, ChunkError> {
    if pages == [] then Err(EmptyPages)
    else if HasInvalidNumber(pages) then Err(InvalidPageNumber(0))
    else Ok(ChunksFor(pages, targetTokens))
  }

  lemma {:induction false} TokenSumConcat(a: seq<PageText>, b: seq<PageText>)
    ensures TokenSum(a + b) == TokenSum(a) + TokenSum(b)
  {
    if a == [] {
      assert a + b == b;
    } else {
      assert (a + b)[0] == a[0] && (a + b)[1..] == a[1..] + b;
      TokenSumConcat(a[1..], b);
    }
  }

  lemma {:induction false} TokenSumSnoc(a: seq<PageText>, page: PageText)
    ensures TokenSum(a + [page]) == TokenSum(a) + EstimateTokens(page.text)
  {
    TokenSumConcat(a, [page]);
    assert TokenSum([page]) == EstimateTokens(page.text) + TokenSum([]);
  }

  /** Reading one page: the open block is closed first if the page would overfill it. */
  lemma {:induction false} ReadStep(
    closed: seq<seq<PageText>>, current: seq<PageText>, pages: seq<PageText>, i: nat, target: nat)
    requires i < |pages|
    ensures TokenSum(current + [pages[i]]) == TokenSum(current) + EstimateTokens(pages[i].text)
    ensures TokenSum([] + [pages[i]]) == EstimateTokens(pages[i].text)
    ensures closed + Greedy(current, pages[i..], target) ==
              if current != [] && TokenSum(current) + EstimateTokens(pages[i].text) > target then
                closed + [current] + Greedy([] + [pages[i]], pages[i + 1..], target)
              else closed + Greedy(current + [pages[i]], pages[i + 1..], target)
  {
    TokenSumSnoc(current, pages[i]);
    TokenSumSnoc([], pages[i]);
    assert pages[i..][1..] == pages[i + 1..];
    assert [] + [pages[i]] == [pages[i]];
    var later := Greedy([pages[i]], pages[i + 1..], target);
    assert closed + [current] + later == closed + ([current] + later);
  }

  lemma {:induction false} LastStep(
    closed: seq<seq<PageText>>, current: seq<PageText>, rest: seq<PageText>, target: nat)
    requires rest == []
    ensures closed + Greedy(current, rest, target) == if current == [] then closed else closed + [current]
  {
    assert closed + [] == closed;
  }

  method ChunkPages(pages: seq<PageText>, targetTokens: nat) returns (r: Result<seq<Chunk>, ChunkError>)
    ensures r == ChunkResult(pages, targetTokens)
  {
    if pages == [] {
      return Err(EmptyPages);
    }
    var target := Max(targetTokens, 1);
    var chunks: seq<Chunk> := [];
    var currentPages: seq<PageText> := [];
    var currentTokens := 0;
    ghost var closed: seq<seq<PageText>> := [];
    assert pages[0..] == pages;
    for i := 0 to |pages|
      invariant forall j :: 0 <= j < i ==> pages[j].pageNumber != 0
      invariant currentTokens == TokenSum(currentPages)
      invariant chunks == BuildChunks(closed)
      invariant closed + Greedy(currentPages, pages[i..], target) == BlocksFor(pages, targetTokens)
    {
      var page := pages[i];
      if page.pageNumber == 0 {
        assert HasInvalidNumber(pages);
        return Err(InvalidPageNumber(page.pageNumber));
      }
      var pageTokens := EstimateTokens(page.text);
      ReadStep(closed, currentPages, pages, i, target);
      BuildChunksSnoc(closed, currentPages);
      if currentPages != [] && currentTokens + pageTokens > target {
        chunks := chunks + [BuildChunk(|chunks| + 1, currentPages)];
        closed := closed + [currentPages];
        currentPages := [];
        currentTokens := 0;
      }
      currentTokens := currentTokens + pageTokens;
      currentPages := currentPages + [page];
    }
    assert !HasInvalidNumber(pages);
    LastStep(closed, currentPages, pages[|pages|..], target);
    BuildChunksSnoc(closed, currentPages);
    if currentPages != [] {
      chunks := chunks + [BuildChunk(|chunks| + 1, currentPages)];
      closed := closed + [currentPages];
    }
    return Ok(chunks);
  }

  // The greedy split is valid and no valid split is shorter

  lemma {:induction false} GreedyIsValid(current: seq<PageText>, rest: seq<PageText>, target: nat)
    requires |current| <= 1 || TokenSum(current) <= target
    ensures ValidSplit(Greedy(current, rest, target), current + rest, target)
    decreases |rest|
  {
    if rest == [] {
      assert current + rest == current;
      assert current != [] ==> Flatten([current]) == current + Flatten([]);
    } else {
      assert rest == [rest[0]] + rest[1..];
      if current != [] && TokenSum(current) + EstimateTokens(rest[0].text) > target {
        GreedyIsValid([rest[0]], rest[1..], target);
        FlattenCons(current, Greedy([rest[0]], rest[1..], target));
      } else {
        TokenSumSnoc(current, rest[0]);
        GreedyIsValid(current + [rest[0]], rest[1..], target);
        assert current + rest == current + [rest[0]] + rest[1..];
      }
    }
  }

  lemma {:induction false} FlattenCons(block: seq<PageText>, blocks: seq<seq<PageText>>)
    ensures Flatten([block] + blocks) == block + Flatten(blocks)
  {
    assert ([block] + blocks)[1..] == blocks;
  }

  /**
   `open` is what a competing split has still to cover of the pages already read.  The greedy
   block starts no earlier, so it is no longer and no heavier, and stays so.
   */
  lemma {:induction false} GreedyStaysAhead(
    open: seq<PageText>, current: seq<PageText>, rest: seq<PageText>, split: seq<seq<PageText>>, target: nat)
    requires |open| >= |current| && TokenSum(open) >= TokenSum(current)
    requires ValidSplit(split, open + rest, target)
    ensures |Greedy(current, rest, target)| <= |split|
    decreases |rest|
  {
    if rest == [] {
      assert current != [] ==> split != [];
    } else {
      var page, later := rest[0], rest[1..];
      assert open + rest == (open + [page]) + later;
      if current != [] && TokenSum(current) + EstimateTokens(page.text) > target {
        var k := |split[0]|;
        assert split[0] == (open + rest)[..k] && Flatten(split[1..]) == (open + rest)[k..];
        if k > |open| {
          OverfullBlock(open, page, later, k, target);
          assert false;
        }
        var open' := open[k..] + [page];
        assert (open + rest)[k..] == open' + later;
        TokenSumSnoc(open[k..], page);
        TokenSumSnoc([], page);
        assert [] + [page] == [page];
        GreedyStaysAhead(open', [page], later, split[1..], target);
      } else {
        TokenSumSnoc(open, page);
        TokenSumSnoc(current, page);
        GreedyStaysAhead(open + [page], current + [page], later, split, target);
      }
    }
  }

  lemma {:induction false} OverfullBlock(
    open: seq<PageText>, page: PageText, later: seq<PageText>, k: nat, target: nat)
    requires open != [] && TokenSum(open) + EstimateTokens(page.text) > target
    requires |open| < k <= |open| + 1 + |later|
    ensures !Admissible(((open + [page]) + later)[..k], target)
  {
    var extra := later[..k - |open| - 1];
    assert ((open + [page]) + later)[..k] == (open + [page]) + extra;
    TokenSumConcat(open + [page], extra);
    TokenSumSnoc(open, page);
  }

  lemma {:induction false} BlocksAreValid(pages: seq<PageText>, targetTokens: nat)
    ensures ValidSplit(BlocksFor(pages, targetTokens), pages, Max(targetTokens, 1))
  {
    GreedyIsValid([], pages, Max(targetTokens, 1));
    assert [] + pages == pages;
  }

  /** No division of the pages into admissible blocks has fewer blocks than there are chunks. */
  lemma {:induction false} ChunkingIsOptimal(pages: seq<PageText>, targetTokens: nat, split: seq<seq<PageText>>)
    requires ValidSplit(split, pages, Max(targetTokens, 1))
    ensures |ChunksFor(pages, targetTokens)| <= |split|
  {
    assert [] + pages == pages;
    GreedyStaysAhead([], [], pages, split, Max(targetTokens, 1));
  }

  // What the chunks contain

  function PageWords(pages: seq<PageText>): seq<string> {
    if pages == [] then [] else Words(pages[0].text) + PageWords(pages[1..])
  }

  function ChunkWords(chunks: seq<Chunk>): seq<string> {
    if chunks == [] then [] else Words(chunks[0].text) + ChunkWords(chunks[1..])
  }

  lemma {:induction false} PageWordsConcat(a: seq<PageText>, b: seq<PageText>)
    ensures PageWords(a + b) == PageWords(a) + PageWords(b)
  {
    if a == [] {
      assert a + b == b;
    } else {
      assert (a + b)[0] == a[0] && (a + b)[1..] == a[1..] + b;
      PageWordsConcat(a[1..], b);
    }
  }

  lemma {:induction false} VisibleTextsWords(pages: seq<PageText>)
    ensures AllWords(VisibleTexts(pages)) == PageWords(pages)
  {
    if pages != [] {
      VisibleTextsWords(pages[1..]);
      TrimWords(pages[0].text);
      var text := Trim(pages[0].text);
      AllWordsConcat(if text == "" then [] else [text], VisibleTexts(pages[1..]));
      assert AllWords([text]) == Words(text) + AllWords([]);
    }
  }

  lemma {:induction false} WordsWithinTokens(pages: seq<PageText>)
    ensures |PageWords(pages)| <= TokenSum(pages)
  {
    if pages != [] {
      WordsWithinTokens(pages[1..]);
    }
  }

  lemma {:induction false} BuildChunkMeaning(sequence: nat, pages: seq<PageText>)
    ensures Words(BuildChunk(sequence, pages).text) == PageWords(pages)
    ensures BuildChunk(sequence, pages).tokenEstimate == Max(|PageWords(pages)|, 1)
    ensures pages != [] ==> BuildChunk(sequence, pages).tokenEstimate <= TokenSum(pages)
  {
    VisibleTextsWords(pages);
    JoinWords(VisibleTexts(pages), "\n\n");
    WordsWithinTokens(pages);
  }

  /** Same words in each chunk as in its block, hence the same words overall. */
  lemma {:induction false} BlockWords(chunks: seq<Chunk>, blocks: seq<seq<PageText>>)
    requires |chunks| == |blocks|
    requires forall i :: 0 <= i < |blocks| ==> Words(chunks[i].text) == PageWords(blocks[i])
    ensures ChunkWords(chunks) == PageWords(Flatten(blocks))
  {
    if blocks != [] {
      BlockWords(chunks[1..], blocks[1..]);
      PageWordsConcat(blocks[0], Flatten(blocks[1..]));
    }
  }

  /** Chunking loses no word and keeps their order. */
  lemma {:induction false} ChunkingKeepsWords(pages: seq<PageText>, targetTokens: nat)
    ensures ChunkWords(ChunksFor(pages, targetTokens)) == PageWords(pages)
  {
    var blocks := BlocksFor(pages, targetTokens);
    BlocksAreValid(pages, targetTokens);
    forall i | 0 <= i < |blocks| ensures Words(BuildChunks(blocks)[i].text) == PageWords(blocks[i]) {
      BuildChunkMeaning(i + 1, blocks[i]);
    }
    BlockWords(BuildChunks(blocks), blocks);
  }

  /** A chunk's own estimate is within the target unless the chunk is exactly one of the pages. */
  lemma {:induction false} ChunkWithinTarget(pages: seq<PageText>, targetTokens: nat, i: nat)
    requires i < |ChunksFor(pages, targetTokens)|
    ensures
      var chunk := ChunksFor(pages, targetTokens)[i];
      || chunk.tokenEstimate <= Max(targetTokens, 1)
      || exists page :: page in pages && chunk.pageStart == page.pageNumber == chunk.pageEnd
                        && Words(chunk.text) == Words(page.text)
  {
    var block := BlocksFor(pages, targetTokens)[i];
    BlocksAreValid(pages, targetTokens);
    BuildChunkMeaning(i + 1, block);
    if |block| == 1 {
      FlattenMember(BlocksFor(pages, targetTokens), i, block[0]);
      assert PageWords(block) == Words(block[0].text) + PageWords(block[1..]);
    }
  }

  lemma {:induction false} FlattenMember(blocks: seq<seq<PageText>>, i: nat, page: PageText)
    requires i < |blocks| && page in blocks[i]
    ensures page in Flatten(blocks)
  {
    if i > 0 {
      FlattenMember(blocks[1..], i - 1, page);
    }
  }

  ghost predicate ConsecutiveNumbers(pages: seq<PageText>) {
    forall i, j :: 0 <= i <= j < |pages| ==> pages[j].pageNumber == pages[i].pageNumber + (j - i)
  }

  /** The ranges of the chunks follow each other without gap or overlap from `first` to `last`. */
  ghost predicate Tiles(chunks: seq<Chunk>, first: nat, last: nat) {
    && chunks != []
    && chunks[0].pageStart == first
    && chunks[|chunks| - 1].pageEnd == last
    && (forall i :: 0 <= i < |chunks| ==> chunks[i].pageStart <= chunks[i].pageEnd)
    && (forall i :: 0 < i < |chunks| ==> chunks[i].pageStart == chunks[i - 1].pageEnd + 1)
  }

  lemma {:induction false} FlattenSlice(blocks: seq<seq<PageText>>, i: nat) returns (offset: nat)
    requires i < |blocks|
    ensures offset == |Flatten(blocks[..i])|
    ensures offset + |blocks[i]| == |Flatten(blocks[..i + 1])| <= |Flatten(blocks)|
    ensures Flatten(blocks)[offset..offset + |blocks[i]|] == blocks[i]
  {
    if i == 0 {
      offset := 0;
      assert blocks[..1] == [blocks[0]] && Flatten([blocks[0]]) == blocks[0] + Flatten([]);
    } else {
      var inner := FlattenSlice(blocks[1..], i - 1);
      offset := |blocks[0]| + inner;
      assert blocks[..i][1..] == blocks[1..][..i - 1] && blocks[..i + 1][1..] == blocks[1..][..i];
    }
  }

  lemma {:induction false} ChunksTile(pages: seq<PageText>, targetTokens: nat)
    requires pages != [] && ConsecutiveNumbers(pages)
    ensures Tiles(ChunksFor(pages, targetTokens), pages[0].pageNumber, pages[|pages| - 1].pageNumber)
  {
    var blocks := BlocksFor(pages, targetTokens);
    BlocksAreValid(pages, targetTokens);
    TileBlocks(pages, blocks, BuildChunks(blocks));
  }

  /** Number of pages in the first `i` blocks. */
  ghost function PagesBefore(blocks: seq<seq<PageText>>, i: nat): nat
    requires i <= |blocks|
  {
    |Flatten(blocks[..i])|
  }

  lemma {:induction false} TileBlocks(pages: seq<PageText>, blocks: seq<seq<PageText>>, chunks: seq<Chunk>)
    requires pages != [] && ConsecutiveNumbers(pages) && Flatten(blocks) == pages
    requires forall i :: 0 <= i < |blocks| ==> blocks[i] != []
    requires chunks == BuildChunks(blocks)
    ensures Tiles(chunks, pages[0].pageNumber, pages[|pages| - 1].pageNumber)
  {
    var n := |blocks|;
    assert blocks[..n] == blocks && PagesBefore(blocks, 0) == 0;
    var bounds := seq(n + 1, i requires 0 <= i <= n => PagesBefore(blocks, i));
    BlocksMeetBounds(pages, blocks, bounds);
    TileRanges(chunks, bounds, pages[0].pageNumber);
  }

  lemma {:induction false} BlocksMeetBounds(pages: seq<PageText>, blocks: seq<seq<PageText>>, bounds: seq<nat>)
    requires pages != [] && ConsecutiveNumbers(pages) && Flatten(blocks) == pages
    requires forall i :: 0 <= i < |blocks| ==> blocks[i] != []
    requires |bounds| == |blocks| + 1 && forall i :: 0 <= i <= |blocks| ==> bounds[i] == PagesBefore(blocks, i)
    ensures forall i :: 0 <= i < |blocks| ==>
              && bounds[i] < bounds[i + 1]
              && BuildChunk(i + 1, blocks[i]).pageStart == pages[0].pageNumber + bounds[i]
              && BuildChunk(i + 1, blocks[i]).pageEnd == pages[0].pageNumber + bounds[i + 1] - 1
  {
    forall i | 0 <= i < |blocks|
      ensures bounds[i] < bounds[i + 1]
      ensures BuildChunk(i + 1, blocks[i]).pageStart == pages[0].pageNumber + bounds[i]
      ensures BuildChunk(i + 1, blocks[i]).pageEnd == pages[0].pageNumber + bounds[i + 1] - 1
    {
      ChunkRange(pages, blocks, i);
    }
  }

  lemma {:induction false} TileRanges(chunks: seq<Chunk>, bounds: seq<nat>, first: nat)
    requires |bounds| == |chunks| + 1 && chunks != [] && bounds[0] == 0 && bounds[|chunks|] > 0
    requires forall i :: 0 <= i < |chunks| ==>
               && bounds[i] < bounds[i + 1]
               && chunks[i].pageStart == first + bounds[i]
               && chunks[i].pageEnd == first + bounds[i + 1] - 1
    ensures Tiles(chunks, first, first + bounds[|chunks|] - 1)
  {
    var last := |chunks| - 1;
    assert bounds[0] < bounds[0 + 1];
    forall i | 0 <= i < |chunks| ensures chunks[i].pageStart <= chunks[i].pageEnd {
      assert bounds[i] < bounds[i + 1];
    }
    assert chunks[last].pageEnd == first + bounds[last + 1] - 1;
    forall i | 0 < i < |chunks| ensures chunks[i].pageStart == chunks[i - 1].pageEnd + 1 {
      var previous := i - 1;
      assert chunks[previous].pageEnd == first + bounds[previous + 1] - 1;
    }
  }

  lemma {:induction false} ChunkRange(pages: seq<PageText>, blocks: seq<seq<PageText>>, i: nat)
    requires pages != [] && ConsecutiveNumbers(pages) && Flatten(blocks) == pages
    requires i < |blocks| && blocks[i] != []
    ensures BuildChunk(i + 1, blocks[i]).pageStart == pages[0].pageNumber + PagesBefore(blocks, i)
    ensures BuildChunk(i + 1, blocks[i]).pageEnd == pages[0].pageNumber + PagesBefore(blocks, i + 1) - 1
    ensures PagesBefore(blocks, i) < PagesBefore(blocks, i + 1)
  {
    var offset := FlattenSlice(blocks, i);
    BlockRange(pages, blocks, i);
    BuildChunkFields(i + 1, blocks[i]);
  }

  lemma {:induction false} BlockRange(pages: seq<PageText>, blocks: seq<seq<PageText>>, i: nat)
    requires pages != [] && ConsecutiveNumbers(pages) && Flatten(blocks) == pages
    requires i < |blocks| && blocks[i] != []
    ensures blocks[i][0].pageNumber == pages[0].pageNumber + |Flatten(blocks[..i])|
    ensures blocks[i][|blocks[i]| - 1].pageNumber == pages[0].pageNumber + |Flatten(blocks[..i + 1])| - 1
  {
    var offset := FlattenSlice(blocks, i);
    assert blocks[i][0] == pages[offset];
    assert blocks[i][|blocks[i]| - 1] == pages[offset + |blocks[i]| - 1];
  }

  /** So the ids of one run never repeat. */
  lemma {:induction false} ChunkIdsDistinct(blocks: seq<seq<PageText>>, i: nat, j: nat)
    requires i < j < |blocks| && blocks[i] != [] && blocks[j] != []
    ensures BuildChunks(blocks)[i].chunkId != BuildChunks(blocks)[j].chunkId
  {
    ChunkIdInjective(i + 1, j + 1);
    BuildChunkFields(i + 1, blocks[i]);
    BuildChunkFields(j + 1, blocks[j]);
  }

  lemma {:induction false} ChunksNonEmpty(pages: seq<PageText>, targetTokens: nat)
    requires pages != []
    ensures ChunksFor(pages, targetTokens) != []
  {
    BlocksAreValid(pages, targetTokens);
  }
}
