/**
 * The `VectorStore` around a Chroma collection. `create_embeddings` keeps the
 * chunk list and adds one vector entry per chunk, whose id is the chunk's
 * position written in decimal; `search` turns the collection's answer to a
 * query into ranked result records.
 *
 * The collection is modelled as the sequence of entries added to it, in the
 * order they were added. The nearest-neighbour query runs inside Chroma and is
 * a parameter here: given the entries, the query text and `n_results`, it
 * returns the first row of `documents` and of `metadatas`.
 */
module VectorIndex {
  import opened Wrappers
  import opened PyStr
  import opened SentenceGroups
  import opened Chunker

  /** A metadata value: the index stores integer pages and string types and sources. */
  datatype MetaValue = IntValue(i: int) | StrValue(s: string)

  type Metadata = map<string, MetaValue>

  /** One vector entry of the collection: its id, its document text and its metadata. */
  datatype Entry = Entry(id: string, document: string, metadata: Metadata)

  /** `results["documents"][0]` and `results["metadatas"][0]` of a query. */
  datatype QueryAnswer = QueryAnswer(documents: seq<string>, metadatas: seq<Metadata>)

  /** The `chunk` part of a search result: the document text, and `meta.get(...)`
      of page, type and source, each None when the key is absent. */
  datatype ResultChunk = ResultChunk(content: string, page: Option<MetaValue>,
                                     kind: Option<MetaValue>, source: Option<MetaValue>)

  /** A search result record: the chunk, its score and its 1-based rank. */
  datatype SearchResult = SearchResult(chunk: ResultChunk, score: real, rank: nat)

  /** The score every result carries: the backend's distances are not read. */
  const PlaceholderScore: real := 1.0

  /** `meta.get(key)`. */
  function Get(meta: Metadata, key: string): (v: Option<MetaValue>)
    ensures v.Some? <==> key in meta
    ensures v.Some? ==> meta[key] == v.value
  {
    if key in meta then Some(meta[key]) else None
  }

  /** The metadata `create_embeddings` stores for a chunk: its page, type and source. */
  function ChunkMetadata(c: Chunk): Metadata {
    map["page" := IntValue(c.page), "type" := StrValue(TypeName(c.kind)), "source" := StrValue(c.source)]
  }

  /** The entries a single `add` of parallel id, document and metadata lists appends. */
  function AddedEntries(ids: seq<string>, docs: seq<string>, metas: seq<Metadata>): (es: seq<Entry>)
    requires |ids| == |docs| == |metas|
    ensures |es| == |ids|
    ensures forall i | 0 <= i < |es| :: es[i].id == ids[i] && es[i].document == docs[i] && es[i].metadata == metas[i]
  {
    seq(|ids|, i requires 0 <= i < |ids| => Entry(ids[i], docs[i], metas[i]))
  }

  /** True when entry i is the vector of chunk i: id `str(i)`, the chunk's content as
      document and the chunk's page, type and source as metadata. */
  predicate IndexedInOrder(chunks: seq<Chunk>, es: seq<Entry>) {
    && |es| == |chunks|
    && forall i | 0 <= i < |es| ::
         es[i] == Entry(NatToString(i), chunks[i].content, ChunkMetadata(chunks[i]))
  }

  /** The three parallel lists `create_embeddings` builds before its single `add`. */
  method BuildColumns(chunks: seq<Chunk>) returns (ids: seq<string>, docs: seq<string>, metas: seq<Metadata>)
    ensures |ids| == |docs| == |metas| == |chunks|
    ensures forall i | 0 <= i < |chunks| :: ids[i] == NatToString(i)
    ensures forall i | 0 <= i < |chunks| :: docs[i] == chunks[i].content
    ensures forall i | 0 <= i < |chunks| ::
      metas[i].Keys == {"page", "type", "source"}
      && metas[i]["page"] == IntValue(chunks[i].page)
      && metas[i]["type"] == StrValue(TypeName(chunks[i].kind))
      && metas[i]["source"] == StrValue(chunks[i].source)
  {
    ids, docs, metas := [], [], [];
    for i := 0 to |chunks|
      invariant |ids| == |docs| == |metas| == i
      invariant forall j | 0 <= j < i :: ids[j] == NatToString(j)
      invariant forall j | 0 <= j < i :: docs[j] == chunks[j].content
      invariant forall j | 0 <= j < i :: metas[j] == ChunkMetadata(chunks[j])
    {
      ids := ids + [NatToString(i)];
      docs := docs + [chunks[i].content];
      metas := metas + [ChunkMetadata(chunks[i])];
    }
  }

  /** Different positions get different ids, and an id gives back its position:
      the entry whose id is `str(i)` is the vector of chunk i. */
  lemma IdsLocateChunks(chunks: seq<Chunk>, es: seq<Entry>)
    requires IndexedInOrder(chunks, es)
    ensures forall i | 0 <= i < |es| :: ParseDigits(es[i].id) == i
    ensures forall i, j | 0 <= i < |es| && 0 <= j < |es| :: es[i].id == es[j].id <==> i == j
  {
    forall i | 0 <= i < |es| ensures ParseDigits(es[i].id) == i {
      ParseNatToString(i);
    }
    forall i, j | 0 <= i < |es| && 0 <= j < |es| ensures es[i].id == es[j].id <==> i == j {
      NatToStringInjective(i, j);
    }
  }

  /** The ranks of a result list run 1, 2, 3, ... and the score is the placeholder. */
  predicate RankedFromOne(results: seq<SearchResult>) {
    forall i | 0 <= i < |results| :: results[i].rank == i + 1 && results[i].score == PlaceholderScore
  }

  class VectorStore {
    /** The chunk list of the last build. */
    var chunks: seq<Chunk>
    /** The entries of the Chroma collection, in the order they were added. */
    var collection: seq<Entry>

    /** A store over the persisted collection `get_or_create_collection` opens, with
        no chunks yet. */
    constructor(persisted: seq<Entry>)
      ensures chunks == [] && collection == persisted
    {
      chunks := [];
      collection := persisted;
    }

    /** `create_embeddings(chunks)`: keep the chunk list and add one entry per chunk,
        in chunk order, with a single `add` appended to what the collection held. */
    method CreateEmbeddings(newChunks: seq<Chunk>)
      modifies this
      ensures chunks == newChunks
      ensures |collection| == |old(collection)| + |newChunks|
      ensures collection[..|old(collection)|] == old(collection)
      ensures IndexedInOrder(newChunks, collection[|old(collection)|..])
    {
      chunks := newChunks;
      var ids, docs, metas := BuildColumns(newChunks);
      var added := AddedEntries(ids, docs, metas);
      assert IndexedInOrder(newChunks, added) by {
        forall i | 0 <= i < |added|
          ensures added[i] == Entry(NatToString(i), newChunks[i].content, ChunkMetadata(newChunks[i]))
        {
          assert metas[i] == ChunkMetadata(newChunks[i]);
        }
      }
      collection := collection + added;
      assert collection[|old(collection)|..] == added;
    }

    /** `search(query, k)`: one result per (document, metadata) pair of the answer,
        up to the shorter of the two lists, ranked from 1 with the placeholder score. */
    method Search(nearest: (seq<Entry>, string, int) -> QueryAnswer, query: string, k: int)
      returns (formatted: seq<SearchResult>)
      ensures var answer := nearest(collection, query, k);
        && |formatted| == Min(|answer.documents|, |answer.metadatas|)
        && RankedFromOne(formatted)
        && forall i | 0 <= i < |formatted| ::
             var meta := answer.metadatas[i];
             formatted[i].chunk
               == ResultChunk(answer.documents[i], Get(meta, "page"), Get(meta, "type"), Get(meta, "source"))
    {
      var answer := nearest(collection, query, k);
      var docs := answer.documents;
      var metas := answer.metadatas;
      formatted := [];
      for rank := 0 to Min(|docs|, |metas|)
        invariant |formatted| == rank
        invariant RankedFromOne(formatted)
        invariant forall i | 0 <= i < rank ::
          formatted[i].chunk == ResultChunk(docs[i], Get(metas[i], "page"), Get(metas[i], "type"), Get(metas[i], "source"))
      {
        var doc, meta := docs[rank], metas[rank];
        var chunk := ResultChunk(doc, Get(meta, "page"), Get(meta, "type"), Get(meta, "source"));
        formatted := formatted + [SearchResult(chunk, PlaceholderScore, rank + 1)];
      }
    }
  }

  /**
   * The positional link between a build and a search: when the answer's i-th
   * document and metadata are those of the collection entry with id `str(j)`
   * from the last build, result i describes chunk j of that build.
   */
  lemma SearchResultDescribesChunk(chunks: seq<Chunk>, es: seq<Entry>, answer: QueryAnswer, i: nat, j: nat)
    requires IndexedInOrder(chunks, es)
    requires i < |answer.documents| && i < |answer.metadatas| && j < |es|
    requires answer.documents[i] == es[j].document && answer.metadatas[i] == es[j].metadata
    ensures var meta := answer.metadatas[i];
      ResultChunk(answer.documents[i], Get(meta, "page"), Get(meta, "type"), Get(meta, "source"))
        == ResultChunk(chunks[j].content, Some(IntValue(chunks[j].page)),
                       Some(StrValue(TypeName(chunks[j].kind))), Some(StrValue(chunks[j].source)))
  {
    assert es[j] == Entry(NatToString(j), chunks[j].content, ChunkMetadata(chunks[j]));
  }
}
