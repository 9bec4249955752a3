/**
 * `chunk_document_blocks`: the ordered content blocks of a parsed document
 * become an ordered list of chunk records. Text blocks are cut into sentence
 * groups; table, image and any other block give exactly one chunk each. One
 * counter, shared by all blocks, numbers the chunks and feeds `make_chunk_id`.
 *
 * A block is a dictionary, so each of its keys may be missing: the model
 * keeps every field as an Option, and the `KeyError` that a missing key
 * raises (in the order the source reads the keys) as a `Failure`.
 */
module Chunker {
  import opened Wrappers
  import opened PyStr
  import opened ChunkKeys
  import opened SentenceGroups

  /** Default of `chunk_document_blocks`'s `max_sentences`. */
  const DefaultBlockMaxSentences := 8

  /** A content block as the document parser hands it over: `type`, `content`,
      `page`, `source` and the optional `image_path`, any of which may be absent. */
  datatype Block = Block(
    kind: Option<string>,
    content: Option<string>,
    page: Option<int>,
    source: Option<string>,
    imagePath: Option<string>)

  /** The normalised chunk type. Only an image chunk has an `image_path` entry,
      whose value is `b.get('image_path')` and so may be None. */
  datatype ChunkKind = TextChunk | TableChunk | ImageChunk(imagePath: Option<string>)

  /** The `type` string stored in a chunk record. */
  function TypeName(k: ChunkKind): string {
    match k
    case TextChunk => "text"
    case TableChunk => "table"
    case ImageChunk(_) => "image"
  }

  /** A chunk record: `chunk_id`, `type` (with `image_path` for images), `content`,
      `page`, `source` and `orig_block_type`. */
  datatype Chunk = Chunk(
    chunkId: string,
    kind: ChunkKind,
    content: string,
    page: int,
    source: string,
    origBlockType: string)

  /** `b.get('type', 'text')`. */
  function BlockType(b: Block): string {
    b.kind.GetOr("text")
  }

  /** The type a block's chunks get: table and image keep theirs, everything else is text. */
  function KindFor(b: Block): (k: ChunkKind)
    ensures TypeName(k) == if BlockType(b) in {"table", "image"} then BlockType(b) else "text"
    ensures k.ImageChunk? <==> BlockType(b) == "image"
    ensures k.ImageChunk? ==> k.imagePath == b.imagePath
  {
    match BlockType(b)
    case "table" => TableChunk
    case "image" => ImageChunk(b.imagePath)
    case _ => TextChunk
  }

  /** The `KeyError` raised when `b['source']` or `b['page']` is read, in that order. */
  function ProvenanceError(b: Block): Option<ChunkError> {
    if b.source.None? then Some(MissingKey("source"))
    else if b.page.None? then Some(MissingKey("page"))
    else None
  }

  /**
   * The exception a block raises, if any. A text block reads `b['content']`,
   * then `range()` rejects a zero step, and only a text block with at least
   * one chunk reads `source` and `page`. A table block reads `b['content']`
   * before `source` and `page`; image and other blocks read `source` and
   * `page` and take their content with `get`.
   */
  function BlockError(sentTokenize: string -> seq<string>, b: Block, m: int): Option<ChunkError> {
    var t := BlockType(b);
    if t == "text" then
      if b.content.None? then Some(MissingKey("content"))
      else if m == 0 then Some(ZeroStep)
      else if TextChunks(sentTokenize(b.content.value), m) == [] then None
      else ProvenanceError(b)
    else if t == "table" && b.content.None? then Some(MissingKey("content"))
    else ProvenanceError(b)
  }

  /** Each exception a block raises has its cause: a zero step only for a text block,
      a missing `content` only for a text or table block, a missing `page` only once
      `source` was found; an image or other block raises exactly when it lacks
      `source` or `page`. */
  lemma BlockErrorCauses(sentTokenize: string -> seq<string>, b: Block, m: int)
    ensures var e := BlockError(sentTokenize, b, m);
      && (e == Some(ZeroStep) ==> BlockType(b) == "text" && b.content.Some? && m == 0)
      && (e == Some(MissingKey("content")) ==> BlockType(b) in {"text", "table"} && b.content.None?)
      && (e == Some(MissingKey("source")) ==> b.source.None?)
      && (e == Some(MissingKey("page")) ==> b.source.Some? && b.page.None?)
      && (e.Some? ==> e.value in {ZeroStep, MissingKey("content"), MissingKey("source"), MissingKey("page")})
      && (BlockType(b) !in {"text", "table"} ==> (e.None? <==> b.source.Some? && b.page.Some?))
  {
  }

  /** How many chunks a block yields: the number of sentence-group texts for a
      text block (possibly none), exactly one for every other block. */
  function ChunkCount(sentTokenize: string -> seq<string>, b: Block, m: int): nat {
    if BlockType(b) == "text" then
      if b.content.None? || m == 0 then 0 else |TextChunks(sentTokenize(b.content.value), m)|
    else 1
  }

  /** The content of the single chunk of a non-text block: stripped for a table and
      for an unknown type (empty when absent), left as it is for an image. */
  function SingleContent(b: Block): string
    requires BlockType(b) == "table" ==> b.content.Some?
  {
    match BlockType(b)
    case "table" => Strip(b.content.value)
    case "image" => b.content.GetOr("")
    case _ => Strip(b.content.GetOr(""))
  }

  /** A chunk carries its block's page, source and (defaulted) type. */
  predicate Provenance(b: Block, c: Chunk) {
    b.page == Some(c.page) && b.source == Some(c.source) && c.origBlockType == BlockType(b)
  }

  /** What the j-th chunk of block b holds: provenance, normalised type, and the
      j-th sentence-group text or the block's single content. */
  predicate DerivedFrom(sentTokenize: string -> seq<string>, m: int, b: Block, j: nat, c: Chunk) {
    && Provenance(b, c)
    && c.kind == KindFor(b)
    && if BlockType(b) == "text" then
         b.content.Some? && m != 0
         && j < |TextChunks(sentTokenize(b.content.value), m)|
         && c.content == TextChunks(sentTokenize(b.content.value), m)[j]
       else
         j == 0 && (BlockType(b) == "table" ==> b.content.Some?) && c.content == SingleContent(b)
  }

  /** The chunks a well-formed block yields when the counter stands at `idx`. */
  function BlockChunks(sentTokenize: string -> seq<string>, md5: string -> HexDigest, b: Block, m: int, idx: nat)
    : (cs: seq<Chunk>)
    requires BlockError(sentTokenize, b, m).None?
    ensures |cs| == ChunkCount(sentTokenize, b, m)
    ensures forall j | 0 <= j < |cs| :: DerivedFrom(sentTokenize, m, b, j, cs[j])
    ensures NumberedFrom(md5, cs, idx)
  {
    var t := BlockType(b);
    if t == "text" then
      var texts := TextChunks(sentTokenize(b.content.value), m);
      seq(|texts|, j requires 0 <= j < |texts| =>
        Chunk(MakeChunkId(md5, b.source.value, b.page.value, idx + j), TextChunk, texts[j],
              b.page.value, b.source.value, t))
    else
      [Chunk(MakeChunkId(md5, b.source.value, b.page.value, idx), KindFor(b), SingleContent(b),
             b.page.value, b.source.value, t)]
  }

  /**
   * The result of `chunk_document_blocks(blocks, m)`: the chunks of all blocks
   * in block order, the counter carried from one block to the next (it always
   * equals the number of chunks so far), or the first block's exception.
   */
  function Segment(sentTokenize: string -> seq<string>, md5: string -> HexDigest, blocks: seq<Block>, m: int)
    : Result<seq<Chunk>, ChunkError>
    decreases |blocks|
  {
    if blocks == [] then Success([])
    else
      match Segment(sentTokenize, md5, blocks[..|blocks| - 1], m)
      case Failure(e) => Failure(e)
      case Success(prev) =>
        var b := blocks[|blocks| - 1];
        match BlockError(sentTokenize, b, m)
        case Some(e) => Failure(e)
        case None => Success(prev + BlockChunks(sentTokenize, md5, b, m, |prev|))
  }

  /** True when no block raises. */
  predicate WellFormed(sentTokenize: string -> seq<string>, blocks: seq<Block>, m: int) {
    forall i | 0 <= i < |blocks| :: BlockError(sentTokenize, blocks[i], m).None?
  }

  /** A non-empty block list is well formed exactly when the blocks before the last are
      and the last does not raise. */
  lemma WellFormedSnoc(sentTokenize: string -> seq<string>, blocks: seq<Block>, m: int)
    requires blocks != []
    ensures WellFormed(sentTokenize, blocks, m) <==>
      WellFormed(sentTokenize, blocks[..|blocks| - 1], m) && BlockError(sentTokenize, blocks[|blocks| - 1], m).None?
  {
    var n := |blocks| - 1;
    var front := blocks[..n];
    if WellFormed(sentTokenize, blocks, m) {
      forall i | 0 <= i < |front| ensures BlockError(sentTokenize, front[i], m).None? {
        assert front[i] == blocks[i];
      }
    }
    if WellFormed(sentTokenize, front, m) && BlockError(sentTokenize, blocks[n], m).None? {
      forall i | 0 <= i < |blocks| ensures BlockError(sentTokenize, blocks[i], m).None? {
        if i < n {
          assert blocks[i] == front[i];
        }
      }
    }
  }

  /** Segmentation succeeds exactly when no block raises. */
  lemma {:induction false} SegmentSucceedsIff(sentTokenize: string -> seq<string>, md5: string -> HexDigest,
                                              blocks: seq<Block>, m: int)
    ensures Segment(sentTokenize, md5, blocks, m).Success? <==> WellFormed(sentTokenize, blocks, m)
    decreases |blocks|
  {
    if blocks != [] {
      SegmentSucceedsIff(sentTokenize, md5, blocks[..|blocks| - 1], m);
      WellFormedSnoc(sentTokenize, blocks, m);
    }
  }

  /** When block i is the first that raises, segmentation fails with its exception:
      the chunks of the blocks before it are lost with the exception. */
  lemma {:induction false} SegmentFailsAtFirstError(sentTokenize: string -> seq<string>, md5: string -> HexDigest,
                                                    blocks: seq<Block>, m: int, i: nat)
    requires i < |blocks| && BlockError(sentTokenize, blocks[i], m).Some?
    requires WellFormed(sentTokenize, blocks[..i], m)
    ensures Segment(sentTokenize, md5, blocks, m) == Failure(BlockError(sentTokenize, blocks[i], m).value)
    decreases |blocks|
  {
    var front := blocks[..|blocks| - 1];
    if i == |blocks| - 1 {
      assert front == blocks[..i];
      SegmentSucceedsIff(sentTokenize, md5, front, m);
    } else {
      assert front[..i] == blocks[..i];
      SegmentFailsAtFirstError(sentTokenize, md5, front, m, i);
    }
  }

  /** The number of chunks all blocks yield together. */
  function TotalCount(sentTokenize: string -> seq<string>, blocks: seq<Block>, m: int): nat
    decreases |blocks|
  {
    if blocks == [] then 0
    else TotalCount(sentTokenize, blocks[..|blocks| - 1], m) + ChunkCount(sentTokenize, blocks[|blocks| - 1], m)
  }

  /** The output has one chunk per sentence group of each text block and one per other block. */
  lemma {:induction false} SegmentLength(sentTokenize: string -> seq<string>, md5: string -> HexDigest,
                                         blocks: seq<Block>, m: int)
    requires Segment(sentTokenize, md5, blocks, m).Success?
    ensures |Segment(sentTokenize, md5, blocks, m).value| == TotalCount(sentTokenize, blocks, m)
    decreases |blocks|
  {
    if blocks != [] {
      SegmentLength(sentTokenize, md5, blocks[..|blocks| - 1], m);
    }
  }

  /** A successful segmentation is the segmentation of all blocks but the last,
      followed by the last block's chunks numbered from the count so far. */
  lemma SegmentSnoc(sentTokenize: string -> seq<string>, md5: string -> HexDigest, blocks: seq<Block>, m: int)
    requires blocks != [] && Segment(sentTokenize, md5, blocks, m).Success?
    ensures var front := Segment(sentTokenize, md5, blocks[..|blocks| - 1], m);
      && front.Success?
      && BlockError(sentTokenize, blocks[|blocks| - 1], m).None?
      && Segment(sentTokenize, md5, blocks, m).value
           == front.value + BlockChunks(sentTokenize, md5, blocks[|blocks| - 1], m, |front.value|)
  {
  }

  /** Every chunk's id is made from its own source and page and its position counted
      from `start`. */
  predicate NumberedFrom(md5: string -> HexDigest, cs: seq<Chunk>, start: nat) {
    forall k | 0 <= k < |cs| :: cs[k].chunkId == MakeChunkId(md5, cs[k].source, cs[k].page, start + k)
  }

  /** Every chunk's id is made from its own source and page and its position. */
  predicate NumberedByPosition(md5: string -> HexDigest, cs: seq<Chunk>) {
    NumberedFrom(md5, cs, 0)
  }

  /** Chunks numbered from |prev| on extend a list numbered by position. */
  lemma NumberedAppend(md5: string -> HexDigest, prev: seq<Chunk>, last: seq<Chunk>)
    requires NumberedByPosition(md5, prev)
    requires NumberedFrom(md5, last, |prev|)
    ensures NumberedByPosition(md5, prev + last)
  {
    var cs := prev + last;
    forall k | 0 <= k < |cs| ensures cs[k].chunkId == MakeChunkId(md5, cs[k].source, cs[k].page, 0 + k) {
      if k >= |prev| {
        assert cs[k] == last[k - |prev|];
      } else {
        assert cs[k] == prev[k];
      }
    }
  }

  /** The shared counter: the chunk at output position k has the id made from its
      source, its page and k itself. */
  lemma {:induction false} SegmentIds(sentTokenize: string -> seq<string>, md5: string -> HexDigest,
                                      blocks: seq<Block>, m: int)
    requires Segment(sentTokenize, md5, blocks, m).Success?
    ensures NumberedByPosition(md5, Segment(sentTokenize, md5, blocks, m).value)
    decreases |blocks|
  {
    if blocks != [] {
      var front := blocks[..|blocks| - 1];
      SegmentSnoc(sentTokenize, md5, blocks, m);
      SegmentIds(sentTokenize, md5, front, m);
      var prev := Segment(sentTokenize, md5, front, m).value;
      NumberedAppend(md5, prev, BlockChunks(sentTokenize, md5, blocks[|blocks| - 1], m, |prev|));
    }
  }

  /** The hashed keys of the output chunks are pairwise distinct, whatever the
      blocks' sources and pages: ids can only collide through the hash. */
  lemma SegmentKeysDistinct(sentTokenize: string -> seq<string>, md5: string -> HexDigest,
                            blocks: seq<Block>, m: int, k1: nat, k2: nat)
    requires Segment(sentTokenize, md5, blocks, m).Success?
    requires k1 < k2 < |Segment(sentTokenize, md5, blocks, m).value|
    ensures var cs := Segment(sentTokenize, md5, blocks, m).value;
      ChunkKey(cs[k1].source, cs[k1].page, k1) != ChunkKey(cs[k2].source, cs[k2].page, k2)
  {
    var cs := Segment(sentTokenize, md5, blocks, m).value;
    ChunkKeyInjective(cs[k1].source, cs[k1].page, k1, cs[k2].source, cs[k2].page, k2);
  }

  /** Where an output chunk comes from: the index of its block, and its index among
      that block's chunks. */
  datatype Origin = Origin(block: nat, within: nat)

  /** The origins of the chunks of block n: (n, 0), (n, 1), ... */
  function BlockOrigins(n: nat, count: nat): seq<Origin> {
    seq(count, (j: int) requires j >= 0 => Origin(n, j))
  }

  /** The origin of every output chunk, in output order. */
  function Origins(sentTokenize: string -> seq<string>, blocks: seq<Block>, m: int): seq<Origin>
    decreases |blocks|
  {
    if blocks == [] then []
    else
      Origins(sentTokenize, blocks[..|blocks| - 1], m)
        + BlockOrigins(|blocks| - 1, ChunkCount(sentTokenize, blocks[|blocks| - 1], m))
  }

  /** Origins strictly increase: blocks in input order, and within a block its chunks in group order. */
  predicate InOrder(os: seq<Origin>) {
    forall k1, k2 | 0 <= k1 < k2 < |os| ::
      os[k1].block < os[k2].block || (os[k1].block == os[k2].block && os[k1].within < os[k2].within)
  }

  /** Each chunk is derived from the block its origin names. */
  predicate AllDerived(sentTokenize: string -> seq<string>, m: int, blocks: seq<Block>, os: seq<Origin>, cs: seq<Chunk>) {
    && |os| == |cs|
    && forall k | 0 <= k < |cs| ::
         os[k].block < |blocks| && DerivedFrom(sentTokenize, m, blocks[os[k].block], os[k].within, cs[k])
  }

  /** Appending the chunks of the last block keeps every chunk derived from its origin. */
  lemma AllDerivedAppend(sentTokenize: string -> seq<string>, m: int, blocks: seq<Block>,
                         prevOs: seq<Origin>, prev: seq<Chunk>, last: seq<Chunk>)
    requires blocks != []
    requires AllDerived(sentTokenize, m, blocks[..|blocks| - 1], prevOs, prev)
    requires forall j | 0 <= j < |last| :: DerivedFrom(sentTokenize, m, blocks[|blocks| - 1], j, last[j])
    ensures AllDerived(sentTokenize, m, blocks, prevOs + BlockOrigins(|blocks| - 1, |last|), prev + last)
  {
    var n := |blocks| - 1;
    var os, cs := prevOs + BlockOrigins(n, |last|), prev + last;
    forall k | 0 <= k < |cs|
      ensures os[k].block < |blocks| && DerivedFrom(sentTokenize, m, blocks[os[k].block], os[k].within, cs[k])
    {
      if k < |prev| {
        assert os[k] == prevOs[k] && cs[k] == prev[k];
        assert blocks[..n][prevOs[k].block] == blocks[prevOs[k].block];
      } else {
        assert os[k] == Origin(n, k - |prev|) && cs[k] == last[k - |prev|];
      }
    }
  }

  /** Origins of a later block, in group order, extend an ordered list. */
  lemma InOrderAppend(prevOs: seq<Origin>, n: nat, count: nat)
    requires InOrder(prevOs)
    requires forall k | 0 <= k < |prevOs| :: prevOs[k].block < n
    ensures InOrder(prevOs + BlockOrigins(n, count))
  {
    var os := prevOs + BlockOrigins(n, count);
    forall k1, k2 | 0 <= k1 < k2 < |os|
      ensures os[k1].block < os[k2].block || (os[k1].block == os[k2].block && os[k1].within < os[k2].within)
    {
      if k2 < |prevOs| {
        assert os[k1] == prevOs[k1] && os[k2] == prevOs[k2];
      } else if k1 < |prevOs| {
        assert os[k1] == prevOs[k1] && os[k2].block == n;
      } else {
        assert os[k1] == Origin(n, k1 - |prevOs|) && os[k2] == Origin(n, k2 - |prevOs|);
      }
    }
  }

  /**
   * Every output chunk is derived from the block it names: same page and source,
   * `orig_block_type` the block's type, the normalised type, and the matching
   * sentence-group text or single content; and the chunks appear in block order,
   * and within a text block in group order.
   */
  lemma {:induction false} SegmentProvenance(sentTokenize: string -> seq<string>, md5: string -> HexDigest,
                                             blocks: seq<Block>, m: int)
    requires Segment(sentTokenize, md5, blocks, m).Success?
    ensures AllDerived(sentTokenize, m, blocks, Origins(sentTokenize, blocks, m), Segment(sentTokenize, md5, blocks, m).value)
    ensures InOrder(Origins(sentTokenize, blocks, m))
    decreases |blocks|
  {
    if blocks != [] {
      var n := |blocks| - 1;
      var front := blocks[..n];
      SegmentSnoc(sentTokenize, md5, blocks, m);
      SegmentProvenance(sentTokenize, md5, front, m);
      var prev := Segment(sentTokenize, md5, front, m).value;
      var last := BlockChunks(sentTokenize, md5, blocks[n], m, |prev|);
      var prevOs := Origins(sentTokenize, front, m);
      AllDerivedAppend(sentTokenize, m, blocks, prevOs, prev, last);
      InOrderAppend(prevOs, n, |last|);
    }
  }

  /** A prefix one element longer is the shorter prefix followed by that element. */
  lemma PrefixExtend<T>(s: seq<T>, j: nat)
    requires j < |s|
    ensures s[..j + 1] == s[..j] + [s[j]]
  {
  }

  /** The j-th chunk of a text block that raises nothing: the j-th text, numbered idx + j. */
  lemma TextBlockChunk(sentTokenize: string -> seq<string>, md5: string -> HexDigest,
                       b: Block, m: int, idx: nat, j: nat)
    requires BlockType(b) == "text" && b.content.Some? && m != 0
    requires b.source.Some? && b.page.Some?
    requires j < |TextChunks(sentTokenize(b.content.value), m)|
    ensures BlockError(sentTokenize, b, m).None?
    ensures var whole := BlockChunks(sentTokenize, md5, b, m, idx);
      && j < |whole|
      && whole[j] == Chunk(MakeChunkId(md5, b.source.value, b.page.value, idx + j), TextChunk,
                           TextChunks(sentTokenize(b.content.value), m)[j], b.page.value, b.source.value, "text")
  {
  }

  /** A text block that yields a j-th text and has a source and a page raises nothing,
      and its j-th chunk holds that text, numbered idx + j. */
  lemma TextBlockChunkAt(sentTokenize: string -> seq<string>, md5: string -> HexDigest,
                         b: Block, m: int, idx: nat, j: nat)
    requires BlockType(b) == "text" && b.content.Some? && m != 0
    requires b.source.Some? && b.page.Some?
    requires j < |TextChunks(sentTokenize(b.content.value), m)|
    ensures BlockError(sentTokenize, b, m).None?
    ensures var whole := BlockChunks(sentTokenize, md5, b, m, idx);
      && j < |whole|
      && whole[..j + 1] == whole[..j]
           + [Chunk(MakeChunkId(md5, b.source.value, b.page.value, idx + j), TextChunk,
                    TextChunks(sentTokenize(b.content.value), m)[j], b.page.value, b.source.value, "text")]
  {
    TextBlockChunk(sentTokenize, md5, b, m, idx, j);
    PrefixExtend(BlockChunks(sentTokenize, md5, b, m, idx), j);
  }

  /**
   * The text branch of `chunk_document_blocks`'s loop over blocks: the sentence
   * groups of `b['content']`, each read together with `b['source']` and
   * `b['page']` as it is appended, or the exception raised on the way.
   */
  method TextBlockPass(sentTokenize: string -> seq<string>, md5: string -> HexDigest,
                       b: Block, maxSentences: int, idx: nat)
    returns (r: Result<seq<Chunk>, ChunkError>)
    requires BlockType(b) == "text"
    ensures BlockError(sentTokenize, b, maxSentences).Some? ==>
      r == Failure(BlockError(sentTokenize, b, maxSentences).value)
    ensures BlockError(sentTokenize, b, maxSentences).None? ==>
      r == Success(BlockChunks(sentTokenize, md5, b, maxSentences, idx))
  {
    ghost var error := BlockError(sentTokenize, b, maxSentences);
    if b.content.None? {
      return Failure(MissingKey("content"));
    }
    var textResult := ChunkTextBlock(sentTokenize, b.content.value, maxSentences);
    if textResult.Failure? {
      return Failure(textResult.error);
    }
    var textChunks := textResult.value;
    ghost var whole := if error.None? then BlockChunks(sentTokenize, md5, b, maxSentences, idx) else [];
    var chunks: seq<Chunk> := [];
    for j := 0 to |textChunks|
      invariant |chunks| == j
      invariant j > 0 ==> error.None?
      invariant error.None? ==> chunks == whole[..j]
    {
      if b.source.None? {
        return Failure(MissingKey("source"));
      }
      if b.page.None? {
        return Failure(MissingKey("page"));
      }
      var chunk := Chunk(MakeChunkId(md5, b.source.value, b.page.value, idx + j), TextChunk,
                         textChunks[j], b.page.value, b.source.value, "text");
      TextBlockChunkAt(sentTokenize, md5, b, maxSentences, idx, j);
      chunks := chunks + [chunk];
    }
    assert error.None? ==> chunks == whole[..|whole|] == whole;
    return Success(chunks);
  }

  /**
   * One pass of `chunk_document_blocks`'s loop over blocks: the chunks block b
   * appends when the counter stands at `idx`, or the exception it raises.
   */
  method ChunkBlock(sentTokenize: string -> seq<string>, md5: string -> HexDigest,
                    b: Block, maxSentences: int, idx: nat)
    returns (r: Result<seq<Chunk>, ChunkError>)
    ensures BlockError(sentTokenize, b, maxSentences).Some? ==>
      r == Failure(BlockError(sentTokenize, b, maxSentences).value)
    ensures BlockError(sentTokenize, b, maxSentences).None? ==>
      r == Success(BlockChunks(sentTokenize, md5, b, maxSentences, idx))
  {
    var btype := BlockType(b);
    if btype == "text" {
      r := TextBlockPass(sentTokenize, md5, b, maxSentences, idx);
      return;
    }
    if btype == "table" && b.content.None? {
      return Failure(MissingKey("content"));
    }
    var content := if btype == "table" then Strip(b.content.value)
                   else if btype == "image" then b.content.GetOr("")
                   else Strip(b.content.GetOr(""));
    if b.source.None? {
      return Failure(MissingKey("source"));
    }
    if b.page.None? {
      return Failure(MissingKey("page"));
    }
    var kind := if btype == "table" then TableChunk
                else if btype == "image" then ImageChunk(b.imagePath)
                else TextChunk;
    return Success([Chunk(MakeChunkId(md5, b.source.value, b.page.value, idx), kind, content,
                          b.page.value, b.source.value, btype)]);
  }

  /** `chunk_document_blocks(blocks, max_sentences)`. */
  method ChunkDocumentBlocks(sentTokenize: string -> seq<string>, md5: string -> HexDigest,
                             blocks: seq<Block>, maxSentences: int)
    returns (r: Result<seq<Chunk>, ChunkError>)
    ensures r == Segment(sentTokenize, md5, blocks, maxSentences)
  {
    var allChunks: seq<Chunk> := [];
    var idx: nat := 0;
    for i := 0 to |blocks|
      invariant Segment(sentTokenize, md5, blocks[..i], maxSentences) == Success(allChunks)
      invariant idx == |allChunks|
    {
      assert blocks[..i + 1][..i] == blocks[..i];
      var blockResult := ChunkBlock(sentTokenize, md5, blocks[i], maxSentences, idx);
      if blockResult.Failure? {
        SegmentSucceedsIff(sentTokenize, md5, blocks[..i], maxSentences);
        SegmentFailsAtFirstError(sentTokenize, md5, blocks, maxSentences, i);
        return Failure(blockResult.error);
      }
      allChunks := allChunks + blockResult.value;
      idx := idx + |blockResult.value|;
    }
    assert blocks[..|blocks|] == blocks;
    return Success(allChunks);
  }

  /** A table block with empty content, and an image or other block with empty or
      absent content, gives exactly one chunk; a table block without content raises
      instead; a text block whose sentences are all blank gives none. */
  lemma EmptyContentCounts(sentTokenize: string -> seq<string>, b: Block, m: int)
    ensures BlockType(b) != "text" ==> ChunkCount(sentTokenize, b, m) == 1
    ensures BlockType(b) == "table" && b.content.None? ==> BlockError(sentTokenize, b, m) == Some(MissingKey("content"))
    ensures BlockType(b) == "text" && b.content.Some? && m != 0 && AllBlank(sentTokenize(b.content.value))
      ==> ChunkCount(sentTokenize, b, m) == 0
  {
    if BlockType(b) == "text" && b.content.Some? && m > 0 && AllBlank(sentTokenize(b.content.value)) {
      BlankSentencesGiveNoText(sentTokenize(b.content.value), m, 0);
    }
  }

  /** A table block "Row1 | Row2" on page 3 of "reportA" comes back as one table
      chunk with that content, page and source. */
  lemma TableBlockExample(sentTokenize: string -> seq<string>, md5: string -> HexDigest)
    ensures Segment(sentTokenize, md5, [Block(Some("table"), Some("Row1 | Row2"), Some(3), Some("reportA"), None)],
                    DefaultBlockMaxSentences)
      == Success([Chunk(MakeChunkId(md5, "reportA", 3, 0), TableChunk, "Row1 | Row2", 3, "reportA", "table")])
  {
    var b := Block(Some("table"), Some("Row1 | Row2"), Some(3), Some("reportA"), None);
    assert [b][..0] == [];
    StripSpec("Row1 | Row2");
    assert BlockChunks(sentTokenize, md5, b, DefaultBlockMaxSentences, 0)
      == [Chunk(MakeChunkId(md5, "reportA", 3, 0), TableChunk, "Row1 | Row2", 3, "reportA", "table")];
    assert Segment(sentTokenize, md5, [], DefaultBlockMaxSentences) == Success([]);
    assert BlockError(sentTokenize, b, DefaultBlockMaxSentences) == None;
    assert Segment(sentTokenize, md5, [b], DefaultBlockMaxSentences)
      == Success([] + BlockChunks(sentTokenize, md5, b, DefaultBlockMaxSentences, 0));
    var expected := [Chunk(MakeChunkId(md5, "reportA", 3, 0), TableChunk, "Row1 | Row2", 3, "reportA", "table")];
    assert [] + expected == expected;
  }

  /** Three trimmed sentences cut in pairs give two texts: the first two joined
      by a space, then the third. */
  lemma ThreeSentencesInPairs(a: string, b: string, c: string)
    requires Trimmed(a) && Trimmed(b) && Trimmed(c)
    ensures TextChunks([a, b, c], 2) == [a + " " + b, c]
  {
    var sents := [a, b, c];
    var g0, g1 := sents[0..2], sents[2..3];
    assert g0 == [a, b] && g1 == [c];
    assert GroupsFrom(sents, 2, 2) == [g1] + GroupsFrom(sents, 2, 4);
    var gs := Groups(sents, 2);
    assert gs == [g0] + GroupsFrom(sents, 2, 2) == [g0, g1];
    var t0 := a + " " + b;
    assert Join(g0) == t0 by {
      assert Join(g0[1..]) == b;
    }
    assert t0[0] == a[0] && t0[|t0| - 1] == b[|b| - 1];
    StripSpec(t0);
    StripSpec(c);
    assert NonEmptyTexts(gs[1..]) == [c] + NonEmptyTexts([]);
    assert NonEmptyTexts(gs) == [t0] + NonEmptyTexts(gs[1..]);
  }

  /** A text block of three trimmed sentences with step 2: two text chunks, numbered
      0 and 1, both carrying the block's page and source. */
  lemma TextBlockInPairsExample(sentTokenize: string -> seq<string>, md5: string -> HexDigest,
                                content: string, a: string, b: string, c: string, source: string)
    requires sentTokenize(content) == [a, b, c]
    requires Trimmed(a) && Trimmed(b) && Trimmed(c)
    ensures Segment(sentTokenize, md5, [Block(Some("text"), Some(content), Some(1), Some(source), None)], 2)
      == Success([Chunk(MakeChunkId(md5, source, 1, 0), TextChunk, a + " " + b, 1, source, "text"),
                  Chunk(MakeChunkId(md5, source, 1, 1), TextChunk, c, 1, source, "text")])
  {
    var text := Block(Some("text"), Some(content), Some(1), Some(source), None);
    var textChunks := [Chunk(MakeChunkId(md5, source, 1, 0), TextChunk, a + " " + b, 1, source, "text"),
                       Chunk(MakeChunkId(md5, source, 1, 1), TextChunk, c, 1, source, "text")];
    ThreeSentencesInPairs(a, b, c);
    assert BlockChunks(sentTokenize, md5, text, 2, 0) == textChunks;
    assert [text][..0] == [];
    assert [] + textChunks == textChunks;
  }

  /**
   * A three-sentence text block on page 1 cut in pairs, followed by a table block
   * on page 2 of the same source: two text chunks and one table chunk holding the
   * stripped table, numbered 0, 1 and 2 across both blocks.
   */
  lemma TextThenTableExample(sentTokenize: string -> seq<string>, md5: string -> HexDigest,
                             content: string, a: string, b: string, c: string, table: string, source: string)
    requires sentTokenize(content) == [a, b, c]
    requires Trimmed(a) && Trimmed(b) && Trimmed(c)
    ensures Segment(sentTokenize, md5,
                    [Block(Some("text"), Some(content), Some(1), Some(source), None),
                     Block(Some("table"), Some(table), Some(2), Some(source), None)], 2)
      == Success([Chunk(MakeChunkId(md5, source, 1, 0), TextChunk, a + " " + b, 1, source, "text"),
                  Chunk(MakeChunkId(md5, source, 1, 1), TextChunk, c, 1, source, "text"),
                  Chunk(MakeChunkId(md5, source, 2, 2), TableChunk, Strip(table), 2, source, "table")])
  {
    var text := Block(Some("text"), Some(content), Some(1), Some(source), None);
    var tableBlock := Block(Some("table"), Some(table), Some(2), Some(source), None);
    var textChunks := [Chunk(MakeChunkId(md5, source, 1, 0), TextChunk, a + " " + b, 1, source, "text"),
                       Chunk(MakeChunkId(md5, source, 1, 1), TextChunk, c, 1, source, "text")];
    var tableChunks := [Chunk(MakeChunkId(md5, source, 2, 2), TableChunk, Strip(table), 2, source, "table")];
    TextBlockInPairsExample(sentTokenize, md5, content, a, b, c, source);
    assert BlockChunks(sentTokenize, md5, tableBlock, 2, 2) == tableChunks;
    assert [text, tableBlock][..1] == [text];
    assert textChunks + tableChunks == [textChunks[0], textChunks[1], tableChunks[0]];
  }
}
