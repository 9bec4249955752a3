# Document segmentation and vector indexing of a multi-modal RAG pipeline

This project models, in Dafny, the two modules of the pipeline that turn parsed
documents into a searchable index:

- `chunker.py` cuts an ordered list of content blocks (text, table, image or any
  other type, each with a page and a source) into chunk records. Text blocks are
  cut into groups of at most `max_sentences` sentences. Every other block gives
  exactly one chunk. One counter, shared by all blocks, numbers the chunks and is
  hashed together with source and page into a 10-character `chunk_id`.
- `vector_store.py` keeps the chunk list. It adds one vector entry per chunk to a
  Chroma collection, with id `str(i)` for the chunk at position i. It shapes the
  collection's answer to a query into ranked result records.

Files:

- `wrappers.dfy`: the Option and Result types.
- `pystr.dfy`: the Python string operations the code relies on:
  - `str.strip()` over Python's whitespace set;
  - `" ".join`;
  - `str()` of an integer, with a parser that inverts it.
- `chunk_keys.dfy`: the chunk key `"{source}::page{page}::{idx}"`, a parser that
  inverts it, and `make_chunk_id`.
- `sentence_groups.dfy`: `chunk_text_block` as a loop method, and the group
  functions it is proved against.
- `chunker.py` is modelled in `chunker.dfy`:
  - `chunk_document_blocks` as a loop method;
  - the function `Segment` it is proved equal to;
  - the properties of `Segment`.
- `vector_store.dfy`: the `VectorStore` class with its `chunks` and
  `collection` fields, `create_embeddings` and `search`.

The library calls are parameters of the model:

- NLTK's `sent_tokenize` is a function `string -> seq<string>`.
- MD5's `hexdigest` is a function to 32-character lower-case hex strings.
- Chroma's nearest-neighbour query is a function from the collection, the query
  text and `n_results` to the first row of `documents` and of `metadatas`.

A block is a dictionary, so every field of `Block` is an Option, where None stands
for an absent key. The `KeyError` raised by `b[...]` on an absent key is a
`Failure(MissingKey(key))`. The `ValueError` that `range()` raises for
`max_sentences == 0` is `Failure(ZeroStep)`. The keys are read in the order the
code reads them:

- A text block reads `content` first. It reads `source` and then `page` only
  when it yields at least one chunk.
- A table block reads `content` before `source` and `page`.
- Image and other blocks look up only `source` and `page` with `b[...]`. They
  read `content`, and an image reads `image_path`, with `.get`, which never raises.

A negative `max_sentences` gives an empty `range` and so no text chunks.

The descriptions of this system and its code differ in three places. The model
follows the code in each:

- A malformed block raises a bare `KeyError`. Its position is not reported.
- `search` does not check that an index was built or loaded.
- `create_embeddings` adds to whatever the collection already holds. It does not
  replace it.

## Model

| member | source | states |
|---|---|---|
| `PyStr.Strip` | multi-model_assignment/multi-model_assignment/chunker.py:15 | defines `str.strip()`: the string without its leading and trailing characters from Python's whitespace set; its properties are `StripSpec` and `StripIdempotent` |
| `PyStr.TrimStartSpec` | multi-model_assignment/multi-model_assignment/chunker.py:15 | the left-stripped string is a suffix of the input; what it drops is all whitespace; it starts with a non-space character or is empty |
| `PyStr.TrimEndSpec` | multi-model_assignment/multi-model_assignment/chunker.py:15 | the right-stripped string is a prefix of the input; what it drops is all whitespace; it ends with a non-space character or is empty |
| `PyStr.StripSpec` | multi-model_assignment/multi-model_assignment/chunker.py:15 | `strip()` is empty exactly on an all-whitespace string; otherwise it starts and ends with non-space characters; a string already shaped so is returned unchanged |
| `PyStr.StripIdempotent` | multi-model_assignment/multi-model_assignment/chunker.py:15 | stripping twice gives what stripping once gives |
| `PyStr.Join` | multi-model_assignment/multi-model_assignment/chunker.py:15 | defines `" ".join(parts)`: the parts with one space between neighbours; a single part is returned as it is |
| `PyStr.JoinAllSpace` | multi-model_assignment/multi-model_assignment/chunker.py:15-16 | a space-joined group is blank exactly when every sentence in it is blank |
| `PyStr.NatToString` | multi-model_assignment/multi-model_assignment/chunker.py:8 | `str()` of a counter is a non-empty string of decimal digits |
| `PyStr.ParseNatToString` | multi-model_assignment/multi-model_assignment/vector_store.py:39 | the decimal id `str(i)` parses back to i |
| `PyStr.NatToStringInjective` | multi-model_assignment/multi-model_assignment/vector_store.py:39 | `str(i) == str(j)` exactly when i == j |
| `PyStr.IntToString` | multi-model_assignment/multi-model_assignment/chunker.py:8 | defines `str()` of a page: a minus sign for a negative value, then its decimal digits; the result is non-empty and holds only digits and `-` |
| `PyStr.ParseIntToString` | multi-model_assignment/multi-model_assignment/chunker.py:8 | `str(page)`, with a leading minus for negative pages, parses back to the page |
| `ChunkKeys.ChunkKey` | multi-model_assignment/multi-model_assignment/chunker.py:8 | defines the key `"{source}::page{page}::{idx}"`; its properties are `ParseChunkKeyRoundTrip` and `ChunkKeyInjective` |
| `ChunkKeys.ParseChunkKeyRoundTrip` | multi-model_assignment/multi-model_assignment/chunker.py:8 | the key `"{source}::page{page}::{idx}"` parses back to (source, page, idx), for any source string |
| `ChunkKeys.ChunkKeyInjective` | multi-model_assignment/multi-model_assignment/chunker.py:7-9 | two keys are equal exactly when their sources, pages and counters are |
| `ChunkKeys.MakeChunkId` | multi-model_assignment/multi-model_assignment/chunker.py:7-9 | the id is 10 lower-case hex characters, a prefix of the digest of the chunk key; it depends on nothing but (source, page, idx) |
| `SentenceGroups.GroupsFrom` | multi-model_assignment/multi-model_assignment/chunker.py:14-15 | defines the slices `sents[i:i+m]` for i = start, start + m, ... while i < len(sents), the last one cut at the end of the list |
| `SentenceGroups.GroupsFromCount` | multi-model_assignment/multi-model_assignment/chunker.py:14 | a positive step m over n sentences visits ceil(n/m) groups (the least c with c*m >= n) |
| `SentenceGroups.GroupsFromSizes` | multi-model_assignment/multi-model_assignment/chunker.py:14-15 | every group but the last holds exactly m sentences; the last holds between 1 and m |
| `SentenceGroups.GroupsFromFlatten` | multi-model_assignment/multi-model_assignment/chunker.py:14-15 | the groups laid end to end are the sentences in order: nothing lost, repeated or reordered |
| `SentenceGroups.SeventeenSentencesByEight` | multi-model_assignment/multi-model_assignment/chunker.py:14-15 | 17 sentences with step 8 give groups of 8, 8 and 1 |
| `SentenceGroups.GroupDroppedIffBlank` | multi-model_assignment/multi-model_assignment/chunker.py:15-17 | a group is dropped exactly when all its sentences are blank |
| `SentenceGroups.NonEmptyTexts` | multi-model_assignment/multi-model_assignment/chunker.py:16-17 | filtering keeps at most one text per group |
| `SentenceGroups.NonEmptyTextsStripped` | multi-model_assignment/multi-model_assignment/chunker.py:15-17 | no kept text is empty, and each is already stripped |
| `SentenceGroups.NothingDroppedWhenNoneBlank` | multi-model_assignment/multi-model_assignment/chunker.py:16-17 | when no group is blank, there is exactly one text per group, in group order |
| `SentenceGroups.BlankSentencesGiveNoText` | multi-model_assignment/multi-model_assignment/chunker.py:14-17 | all-blank sentences give no text at all |
| `SentenceGroups.TextChunks` | multi-model_assignment/multi-model_assignment/chunker.py:11-18 | defines what `chunk_text_block` returns for a non-zero step: nothing for a negative step, whose `range` is empty; otherwise the non-empty group texts in group order |
| `SentenceGroups.CollectTexts` | multi-model_assignment/multi-model_assignment/chunker.py:13-18 | the loop over groups returns exactly the non-empty group texts in group order |
| `SentenceGroups.ChunkTextBlock` | multi-model_assignment/multi-model_assignment/chunker.py:11-18 | fails with the zero-step error exactly when `max_sentences` is 0; otherwise returns the non-empty, stripped group texts in group order, at most one per group, and none for a negative step |
| `Chunker.KindFor` | multi-model_assignment/multi-model_assignment/chunker.py:28-68 | a missing type defaults to text; table and image keep their type; any other type becomes text; only image chunks carry `image_path`, taken from the block |
| `Chunker.BlockError` | multi-model_assignment/multi-model_assignment/chunker.py:28-74 | defines the exception a block raises: a text block reads `content`, then a zero step fails, then `source` and `page` are read only if some text survives; a table reads `content` first; other types read `source` then `page` |
| `Chunker.BlockErrorCauses` | multi-model_assignment/multi-model_assignment/chunker.py:28-74 | a zero step fails only a text block with content; a missing `content` fails only a text or table block; a missing `page` is reported only once `source` was found; an image or other block fails exactly when it lacks `source` or `page` |
| `Chunker.ChunkCount` | multi-model_assignment/multi-model_assignment/chunker.py:29-74 | defines how many chunks a block yields: the number of group texts for a text block, one for any other block |
| `Chunker.SingleContent` | multi-model_assignment/multi-model_assignment/chunker.py:43-69 | defines the content of a non-text chunk: stripped for a table and for an unknown type (empty when absent), unchanged for an image (empty when absent) |
| `Chunker.BlockChunks` | multi-model_assignment/multi-model_assignment/chunker.py:29-74 | a well-formed block yields as many chunks as `ChunkCount`: each one has the block's page, source and defaulted type as `orig_block_type`, the normalised type and the content rule of its type; chunk j is numbered idx + j |
| `Chunker.Segment` | multi-model_assignment/multi-model_assignment/chunker.py:20-75 | defines the result of `chunk_document_blocks`: the chunks of all blocks in block order, numbered by a counter that always equals the number of chunks so far, or the exception of the first block that raises |
| `Chunker.SegmentSucceedsIff` | multi-model_assignment/multi-model_assignment/chunker.py:27-75 | segmentation succeeds exactly when no block raises |
| `Chunker.SegmentFailsAtFirstError` | multi-model_assignment/multi-model_assignment/chunker.py:27-75 | the first block that raises decides the exception, and no chunks are returned |
| `Chunker.SegmentLength` | multi-model_assignment/multi-model_assignment/chunker.py:27-75 | the output length is the sum over blocks of the group-text count of each text block plus one for each other block |
| `Chunker.SegmentIds` | multi-model_assignment/multi-model_assignment/chunker.py:26-74 | the counter starts at 0, is never reset and goes up by one per chunk: the chunk at position k has `chunk_id == make_chunk_id(source, page, k)` |
| `Chunker.SegmentKeysDistinct` | multi-model_assignment/multi-model_assignment/chunker.py:26-40 | the keys hashed for two different output positions differ, so ids collide only through the hash |
| `Chunker.SegmentProvenance` | multi-model_assignment/multi-model_assignment/chunker.py:27-74 | every chunk is derived from the block it names (page, source, types, content); chunks come in block order, and within a text block in group order |
| `Chunker.EmptyContentCounts` | multi-model_assignment/multi-model_assignment/chunker.py:29-74 | a table block with empty content, and an image or other block with empty or absent content, gives exactly one chunk; a table block without `content` raises the `KeyError` instead; a text block of blank sentences gives none |
| `Chunker.TableBlockExample` | multi-model_assignment/multi-model_assignment/chunker.py:41-52 | a one-line, two-cell table block (cells Row1 and Row2) on page 3 of "reportA" becomes one table chunk with that content, page and source |
| `Chunker.ThreeSentencesInPairs` | multi-model_assignment/multi-model_assignment/chunker.py:11-18 | three trimmed sentences with step 2 give two texts: the first two joined by a space, then the third |
| `Chunker.TextBlockInPairsExample` | multi-model_assignment/multi-model_assignment/chunker.py:29-40 | a text block of three trimmed sentences with step 2 gives two text chunks, numbered 0 and 1, with the block's page and source |
| `Chunker.TextThenTableExample` | multi-model_assignment/multi-model_assignment/chunker.py:20-75 | that text block on page 1 followed by a table block on page 2 gives two text chunks and one table chunk with the stripped table, numbered 0, 1 and 2 across the blocks |
| `Chunker.TextBlockChunk` | multi-model_assignment/multi-model_assignment/chunker.py:31-39 | a text block with content, source and page and a j-th text raises nothing, and its j-th chunk holds that text, the block's page and source, and id number idx + j |
| `Chunker.TextBlockChunkAt` | multi-model_assignment/multi-model_assignment/chunker.py:31-40 | appending that j-th chunk to the first j chunks gives the first j + 1 chunks of the block |
| `Chunker.TextBlockPass` | multi-model_assignment/multi-model_assignment/chunker.py:29-40 | the text branch returns the block's exception, or exactly its chunks numbered from the current counter |
| `Chunker.ChunkBlock` | multi-model_assignment/multi-model_assignment/chunker.py:28-74 | one pass of the block loop returns the block's exception, or exactly the block's chunks numbered from the current counter; the text branch is `TextBlockPass` |
| `Chunker.ChunkDocumentBlocks` | multi-model_assignment/multi-model_assignment/chunker.py:20-75 | the loop over blocks computes `Segment`, so every `Segment` lemma above holds of its result |
| `VectorIndex.Get` | multi-model_assignment/multi-model_assignment/vector_store.py:72-74 | `meta.get(key)` is present exactly when the key is, and then holds the key's value |
| `VectorIndex.ChunkMetadata` | multi-model_assignment/multi-model_assignment/vector_store.py:41-45 | defines the metadata stored for a chunk: exactly its page, its type and its source |
| `VectorIndex.AddedEntries` | multi-model_assignment/multi-model_assignment/vector_store.py:49-53 | a single `add` of parallel lists gives one entry per position, holding the id, document and metadata at that position |
| `VectorIndex.BuildColumns` | multi-model_assignment/multi-model_assignment/vector_store.py:34-45 | the three lists have the chunk count as length; `ids[i] == str(i)`, `docs[i]` is chunk i's content, and `metas[i]` holds exactly chunk i's page, type and source |
| `VectorIndex.IdsLocateChunks` | multi-model_assignment/multi-model_assignment/vector_store.py:38-39 | ids of different positions differ, and id `str(i)` parses back to position i |
| `VectorIndex.VectorStore.constructor` | multi-model_assignment/multi-model_assignment/vector_store.py:23-28 | a new store has no chunks and the entries of the collection it opened |
| `VectorIndex.VectorStore.CreateEmbeddings` | multi-model_assignment/multi-model_assignment/vector_store.py:32-53 | the `chunks` field becomes the input list; the collection keeps its old entries and gains, in chunk order, entry i with id `str(i)`, chunk i's content and metadata |
| `VectorIndex.VectorStore.Search` | multi-model_assignment/multi-model_assignment/vector_store.py:58-80 | returns min(len(docs), len(metas)) results; result i has rank i + 1 and score 1.0, document i as content, and page, type and source looked up in metadata i; nothing in the store changes |
| `VectorIndex.SearchResultDescribesChunk` | multi-model_assignment/multi-model_assignment/vector_store.py:64-75 | a result shaped from the entry with id `str(j)` describes chunk j of that build: its content, page, type and source |

## Left out

- Printing, the embedding model, the Chroma client and the collection's creation are left out. These are `__init__` at multi-model_assignment/multi-model_assignment/vector_store.py:8-29; the constructor only takes the collection's existing entries.
- `save` and `load` (pickle file I/O) are left out.
- Default arguments are not modelled as constants, except `max_sentences=8` of `chunk_document_blocks` (`DefaultBlockMaxSentences`). The only call of `chunk_text_block`, at multi-model_assignment/multi-model_assignment/chunker.py:30, passes `max_sentences` explicitly, so its default of 10 never applies. `search`'s `k=5` only reaches the query backend, which is a parameter, so `k` is an argument of `Search`.
- The nearest-neighbour search inside `collection.query`, and the embeddings it compares, are left out because they are floating-point library code. The query is a parameter.
- `VectorIndex.VectorStore.Search`: does not promise at most k results or any order of relevance, because both come from the query backend. The score is the code's constant 1.0, hence non-increasing by rank.
- `VectorIndex.VectorStore.CreateEmbeddings`: `self.chunks = chunks` keeps the caller's own list, so later changes the caller makes to that list also change `self.chunks` and what `save` writes, but not the collection. The model stores a copy of the value, so that aliasing is not captured.
- `VectorIndex.VectorStore.CreateEmbeddings`: what Chroma does with ids that are already present is not modelled, nor its refusal of an empty `add`. The model appends every entry.
- The `image_path` of an image chunk is not stored in the index metadata, as in the code.
- The internals of NLTK's sentence tokenizer and of MD5 are not modelled. Both are parameters; the digest is known only to be 32 lower-case hex characters.
- Python's dynamic typing is narrowed. A block's `page` is an integer, and `content`, `source` and `type` are strings when present.
- A key present with the value None is outside the model's domain: the model reads it as an absent key. The code differs in four ways:
  - `type: None` is not defaulted to `'text'`, so the block takes the final `else` branch and gives one text chunk whose `orig_block_type` is None. The model splits it as a text block.
  - A None `source` or `page` raises nothing; `str(None)` makes the key `"None::pageNone::k"`. The model fails with `MissingKey`.
  - An image with None content keeps None as its content. The model gives the empty string.
  - `.strip()` on a None content raises `AttributeError`. The model treats the content as absent.
