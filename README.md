# Document question-answering pipeline, modelled in Dafny

This project models the core of a multi-tenant document question-answering
service. It has three parts:

- **Chunking and text extraction** (`app/utils.py`).
  - `chunk_text` runs a greedy loop over the raw chunks of an external text
    splitter. Each raw chunk, followed by a space, is appended to a buffer, and
    the buffer is measured with a tokenizer. Once it reaches `min_tokens`, the
    stripped buffer is emitted.
  - `extract_text_from_file` dispatches on the lower-cased extension.
- **The tenant-scoped vector store** (`app/vector_store.py`). The Chroma
  collection becomes a class `LangChainVectorStore` holding a sequence of
  entries (id, text, metadata). Adding stamps `user_id` on every chunk.
  Searching filters on `user_id` and keeps the `top_k` nearest. Deleting
  removes the entries matching `doc_id AND user_id`.
- **The handlers' logic** (`app/main.py`):
  - the delete guard (404, then 403, then delete);
  - the query pipeline: keep the results that have a record, first-seen dedup,
    and the `"\n"` join of all contents;
  - the batch upload: skip files that fail to extract; tag each chunk with a
    fresh document id and the file name; store a 2000-character preview.

Modules:

| file | module | source |
|---|---|---|
| wrappers.dfy | `Wrappers` | `Option` and `Result` |
| pystr.dfy | `PyStr` | Python's `str.strip`, `"\n".join`, `str.split("\n")` and `str.lower` |
| pypath.dfy | `PyPath` | `os.path.splitext` and `os.path.join` (posixpath) |
| positions.dfy | `Positions` | order-preserving selections by position, shared by the handlers' filters |
| chunking.dfy | `Chunking` | `chunk_text` |
| extraction.dfy | `Extraction` | `extract_text_from_file` |
| vector_store.dfy | `VectorIndex` | `LangChainVectorStore` |
| handlers.dfy | `Handlers` | `delete_doc`, `query_qa`, `query_qa_stream` and `add_documents` |

External services are parameters of the model:

- the text splitter: `(text, chunk_size, chunk_overlap) -> raw chunks`;
- the tokenizer: `text -> token count`;
- the embedding distance: `(query, text) -> int`;
- the three file readers, each parsing the bytes held by the staged file;
- the language model, both its answer form and its stream form;
- the uuid generator: one fresh document id per file position and one fresh
  token per chunk.

Chroma's ranking is modelled as a stable sort of the tenant's entries by that
distance, followed by taking the first `k`.

### Behaviour of the code worth knowing

- **Maximum chunk size is not enforced.** `max_tokens` only reaches the
  splitter as `chunk_size`, which the splitter counts in characters. The
  accumulation loop joins several raw chunks, so an emitted chunk may exceed
  `max_tokens` tokens. No bound on chunk size is claimed.
- **The trailing check never emits.** The check after the loop
  (`app/utils.py:33-34`) measures the same buffer with the same tokenizer. That
  buffer was last measured below `min_tokens` inside the loop (or is empty), so
  the check can never add a chunk: a short tail is always dropped
  (`Chunking.LeftoverNeverEmitted`, `Chunking.LoopExit`).
- **An unsupported file is skipped silently.** A file whose extension is
  unsupported, or whose reader fails, is skipped without being reported in the
  response.
- **A short document yields no chunks.** When the buffer never reaches 400
  tokens (an empty text among them), `chunk_text` returns no chunks, and the
  file's add to the vector store is an empty add. In the model that add changes
  nothing and the record is still committed. What Chroma does with an empty add
  is listed under "Left out".
- **Each upload is read from its own bytes.** Every pass writes the upload to
  its staged path and reads it back before the next upload, so two uploads with
  the same name in one batch are read separately (`Handlers.SameNameOwnText`).
- **Sources come from the database.** The query's sources are response
  documents built from database records, and only results whose `doc_id` has a
  record contribute one. The context, however, joins the contents of all
  results.
- **The streaming variant returns no sources.** It fetches the records and
  never uses them.

## Model

| member | source | states |
|---|---|---|
| `Chunking.Chunks` | app/utils.py:9-36 | The reference result of `chunk_text`: the stripped buffers of the greedy grouping of the raw chunks. Its properties are stated by `Chunking.ChunksAreGreedyGroups`. |
| `Chunking.ChunkText` | app/utils.py:9-36 | `chunk_text`'s loop returns exactly the reference greedy grouping's emitted chunks, for raw chunks split with `chunk_size = max_tokens` and overlap 50. An empty split gives no chunks. |
| `Chunking.ChunksAreGreedyGroups` | app/utils.py:24-30 | The emitted chunks come from consecutive groups that, together with a tail, make up the raw chunks in order. Each chunk is its group's buffer stripped, and that buffer measured at least `min_tokens`. Every proper prefix of a group measured below. There are no more chunks than raw chunks. The tail is empty or below the threshold. |
| `Chunking.GreedyIsGreedyGrouping` | app/utils.py:24-30 | The reference grouping (cut off the shortest prefix that reaches the threshold, then repeat) satisfies the declarative description: consecutive minimal groups followed by a below-threshold tail. |
| `Chunking.GroupingUnique` | app/utils.py:24-30 | At most one grouping satisfies that description, so the loop's grouping is determined by the raw chunks, the tokenizer and the threshold. |
| `Chunking.GreedyGroupingIsGreedy` | app/utils.py:24-30 | Any grouping that satisfies the description equals the reference grouping. |
| `Chunking.GroupingStep` | app/utils.py:24-30 | One iteration keeps the loop's state a greedy grouping of the chunks seen so far. When the threshold is reached, the buffer closes a minimal group. Otherwise the buffer stays below the threshold. |
| `Chunking.LeftoverNeverEmitted` | app/utils.py:32-34 | A leftover buffer is empty exactly when no raw chunk is left over, and it never reaches `min_tokens`. So the trailing check cannot fire. |
| `Chunking.LoopExit` | app/utils.py:24-34 | When the loop ends, its groups are the reference grouping's groups, and the leftover buffer fails the trailing check. |
| `Chunking.GroupCountBound` | app/utils.py:24-30 | Every group holds at least one raw chunk, so there are no more groups than raw chunks. |
| `Chunking.NonPositiveThresholdEmitsEach` | app/utils.py:24-30 | With `min_tokens <= 0`, every raw chunk becomes its own group and nothing is left over. |
| `PyStr.Strip` | app/utils.py:29 | `str.strip()`: leading whitespace is dropped, then trailing whitespace. What the result is, is stated by `PyStr.StripsOnlySpace`. |
| `PyStr.StripsOnlySpace` | app/utils.py:29 | `strip()` returns the slice of the buffer between a whitespace-only prefix and a whitespace-only suffix. That slice starts and ends with a non-whitespace character. |
| `PyStr.StripIdempotent` | app/utils.py:29 | Stripping a stripped chunk changes nothing. |
| `PyStr.SplitJoin` | app/main.py:133 | When no piece contains the separator, splitting a join on the separator gives the pieces back. |
| `PyStr.JoinLength` | app/main.py:133 | A join of `n` pieces is as long as their total length plus `n - 1` separators. |
| `PyStr.Lower` | app/utils.py:55 | `str.lower()` on ASCII: the result has the input's length. Each character is lowered on its own: an upper-case ASCII letter becomes the same letter in lower case (its code point plus 32), and every other character is kept. |
| `PyPath.SplitExt` | app/utils.py:55 | `splitext(p)` cuts `p` into stem and extension, whose concatenation is `p`. The extension is empty or starts with its only dot, and it contains no `/`. |
| `PyPath.SplitExtAtLastDot` | app/utils.py:55 | In a name without `/` that does not start with a dot, the extension is the text from the last dot on. |
| `PyPath.NoExtension` | app/utils.py:55 | A name without `/` has no extension when it has no dot, or when its only dot is its first character. |
| `PyPath.JoinPath` | app/main.py:177 | `os.path.join(a, b)` is `b` when `b` is absolute. Otherwise it is `b` behind a prefix that is empty or ends in `/`. |
| `PyPath.JoinKeepsExtension` | app/main.py:177-181 | Staging a file under any directory keeps the extension of its name, so the file type is decided by the uploaded file name. |
| `Extraction.LowerExt` | app/utils.py:55 | The compared extension is `splitext(path)[1].lower()`. For plain names, it is characterized by `Extraction.LowerExtAtLastDot` and `Extraction.NoExtensionRefused`. |
| `Extraction.KindOf` | app/utils.py:55-63 | The lower-cased extension `.pdf`, `.docx` or `.txt` selects a kind (if and only if). Anything else is the "Unsupported file type" error. |
| `Extraction.ExtractTextFromFile` | app/utils.py:54-63 | The selected reader's outcome on the bytes stored at the path is the result; an unsupported extension fails with "Unsupported file type". |
| `Extraction.LowerExtCaseInsensitive` | app/utils.py:55 | Two extensions that agree letter by letter up to case select the same kind. |
| `Extraction.LowerExtAtLastDot` | app/utils.py:55 | For a plain file name, the compared extension is the lower-cased text from the last dot on. |
| `Extraction.NoExtensionRefused` | app/utils.py:55-63 | A plain name without an extension is refused. |
| `Extraction.UpperCaseExtension` | app/utils.py:55-61 | `a.TXT` is read as text. |
| `Extraction.LastDotCounts` | app/utils.py:55-57 | `a.b.pdf` is read as PDF: only the last dot counts. |
| `Extraction.DocxExtension` | app/utils.py:55-59 | `a.docx` is read as DOCX. |
| `Extraction.UnsupportedExamples` | app/utils.py:55-63 | `a.pptx` is refused. `.pdf` is refused too, because a leading dot does not start an extension. |
| `VectorIndex.WithUserId` | app/vector_store.py:34 | `dict(chunk, user_id=...)` has the chunk's keys plus `user_id`. `user_id` is the caller's id, overriding any old value, and every other key keeps its value. |
| `VectorIndex.EntryId` | app/vector_store.py:35 | An entry id is the chunk's `doc_id`, then `_`, then the token. |
| `VectorIndex.NewEntries` | app/vector_store.py:33-36 | There is one entry per chunk, in order. Its text is the chunk's `content`, its metadata is the chunk with `user_id` set, and its id is built as above. |
| `VectorIndex.LangChainVectorStore.constructor` | app/vector_store.py:12-22 | The store attaches to the persistent collection and holds the entries it already has. Those entries are required to be chunk entries as this service stores them (see "Left out"). |
| `VectorIndex.LangChainVectorStore.AddDocumentChunks` | app/vector_store.py:24-36 | The store becomes the old entries followed by the new entries, and still holds only stored chunk entries. |
| `VectorIndex.LangChainVectorStore.Search` | app/vector_store.py:39-51 | The result is the metadata of the tenant's top-`k` entries, with scores dropped. There are at most `top_k` results, each carrying the caller's `user_id`. The store is not changed. |
| `VectorIndex.LangChainVectorStore.DeleteDocument` | app/vector_store.py:53-63 | The store becomes the old entries without those matching `doc_id AND user_id`. |
| `VectorIndex.TopK` | app/vector_store.py:49 | The hits are `min(k, n)` of the tenant's `n` entries, nearest first. Each is a stored entry of the tenant, and none is farther than any entry of the tenant that was left out. |
| `VectorIndex.SimilaritySearchWithScore` | app/vector_store.py:49 | Each hit is paired with its distance, in rank order. |
| `VectorIndex.SearchResults` | app/vector_store.py:49-51 | There are at most `top_k` results, and each carries the caller's `user_id`. |
| `VectorIndex.Rank` | app/vector_store.py:49 | The ranking is a permutation of the entries it is given, sorted by distance. |
| `VectorIndex.PrefixIsNearest` | app/vector_store.py:49 | The first `k` of a nearest-first order are no farther than any of the rest. |
| `VectorIndex.OwnedMembers` | app/vector_store.py:49 | The filter `{"user_id": id}` keeps exactly the entries that carry that id. |
| `VectorIndex.SearchSeesOnlyOwned` | app/vector_store.py:49 | Two stores with the same entries for a tenant give that tenant the same search results. |
| `VectorIndex.NewEntriesOwnedBy` | app/vector_store.py:34 | Every entry added for a user belongs to that user and to no other. |
| `VectorIndex.AddIsolation` | app/vector_store.py:34-49 | Adding chunks for user A leaves the search results of every other user B unchanged. |
| `VectorIndex.AddVisibleToOwner` | app/vector_store.py:34-49 | After an add, the owner's searchable entries are the old ones followed by the new ones. |
| `VectorIndex.RemoveMatchingMembers` | app/vector_store.py:62 | A delete keeps exactly the entries that do not match `doc_id AND user_id`. |
| `VectorIndex.RemoveMatchingCounts` | app/vector_store.py:62 | A delete keeps every non-matching entry as many times as it occurred. |
| `VectorIndex.RemoveNothingMatching` | app/vector_store.py:62 | When nothing matches, the store is unchanged. |
| `VectorIndex.RemoveKeepsOthers` | app/vector_store.py:62 | Deleting for user A keeps every entry of another user B, in order, even one under the same `doc_id`. |
| `VectorIndex.DeleteIsolation` | app/vector_store.py:49-62 | Deleting for user A leaves the search results of every other user B unchanged. |
| `VectorIndex.DeleteHidesDocument` | app/vector_store.py:49-62 | After a delete, the owner's searches return no chunk of that document. |
| `VectorIndex.NewEntryIdsDistinct` | app/vector_store.py:35 | With uuid4 tokens (all 36 characters long, pairwise distinct), the ids of one call are pairwise distinct. |
| `VectorIndex.VariableLengthTokensCanCollide` | app/vector_store.py:35 | Without the fixed token length, distinct tokens can produce the same id: `a_b` + `_c` and `a` + `_b_c`. |
| `VectorIndex.SearchResultsAreChunkDicts` | app/vector_store.py:34-51 | Search results from a store of chunk entries are chunk dictionaries with string `doc_id` and `content`. |
| `Handlers.Authorize` | app/main.py:101-105 | The delete is "not found" exactly when there is no record, "forbidden" exactly when the record's uploader is someone else, and allowed otherwise. |
| `Handlers.DeleteDoc` | app/main.py:101-109 | A refusal changes neither the vector store nor the table. Otherwise the vectors matching the document and the authenticated user's id are removed, then the record. |
| `Handlers.ResultDocIds` | app/main.py:123 | The set of ids holds every result's `doc_id` and nothing else. |
| `Handlers.FetchDocs` | app/main.py:124 | The fetched rows are exactly the table's rows whose id is asked for. |
| `Handlers.RecordPositions` | app/main.py:125 | The selected result positions are exactly those whose `doc_id` has a record. |
| `Handlers.Sources` | app/main.py:125 | There are no more sources than results, and each is the response view of a table record. |
| `Handlers.SourcesOfResults` | app/main.py:124-125 | There is one source per result that has a record, in result order, and results without a record are skipped. |
| `Handlers.SourcesFromFetched` | app/main.py:123-125 | Looking the results up among the fetched rows gives the same sources as looking them up in the whole table. |
| `Handlers.FirstPositions` | app/main.py:127-132 | The kept positions are exactly those holding the first occurrence of their id. |
| `Handlers.Dedup` | app/main.py:127-132 | The deduplicated list is no longer than its input, and it holds only documents of the input. |
| `Handlers.DedupSnoc` | app/main.py:129-132 | A document is appended to the deduplicated list exactly when its id has not been seen. |
| `Handlers.DedupProperties` | app/main.py:127-132 | The deduplicated sources have no repeated id and the same set of ids as the input. Each one is the first occurrence of its id, in input order. |
| `Handlers.UniqueSources` | app/main.py:127-132 | The `unique_sources`/`seen_ids` loop computes the first-seen dedup. |
| `Handlers.Context` | app/main.py:133 | No results give an empty context, and one result gives its content alone. |
| `Handlers.ContextHoldsEveryResult` | app/main.py:133 | The context is as long as all contents plus one newline between each two. When no content holds a newline, splitting the context on newlines gives every result's content back, in rank order. |
| `Handlers.NoResultsNoContext` | app/main.py:122-135 | An empty search gives an empty context, no sources and an empty dedup. |
| `Handlers.QueryQa` | app/main.py:111-135 | The search runs for the authenticated user with `top_k = 5`. The sources are the deduplicated results that have a record, and the answer is the model's answer on the joined contents of all results. |
| `Handlers.QueryQaStream` | app/main.py:137-155 | The streaming variant makes the same search and builds the same context; the response is the model's stream on that context. |
| `Handlers.TagChunks` | app/main.py:187-191 | There is one dictionary per chunk, with exactly the keys `doc_id`, `title` and `content`. Each carries the same document id and the file name as title. |
| `Handlers.TagChunksRoundTrip` | app/main.py:187-191 | The contents of the tagged chunks are the chunks, in order. |
| `Handlers.Preview` | app/main.py:194 | The preview is the first `min(len(text), 2000)` characters of the text. |
| `Handlers.ExtractAtUpload` | app/main.py:177-181 | Each upload is read by the reader its name's extension selects, from that upload's own bytes. An unsupported name fails with "Unsupported file type". |
| `Handlers.SameNameOwnText` | app/main.py:176-181 | Two uploads of one batch with the same supported name are read separately. When the reader that name selects reads their bytes differently, their texts differ. |
| `Handlers.Extracted` | app/main.py:176-184 | The files kept by the batch are exactly those whose own staged bytes extract, in upload order. |
| `Handlers.UnsupportedUploadSkipped` | app/main.py:177-184 | A file whose name has an unsupported extension is skipped. |
| `Handlers.AddDocuments` | app/main.py:157-200 | Without a user, the upload is refused with nothing changed. Otherwise the files whose own bytes extract, in upload order, are (1) returned as documents, (2) stored as the tagged chunks of their own text for the user, and (3) committed as records. |
| `Handlers.UploadOne` | app/main.py:176-199 | One iteration changes nothing for a file whose staged bytes do not extract. Otherwise it appends the file's entries to the store and its record to the returned records, and commits the record to the table under its id. |
| `Handlers.UploadStep` | app/main.py:176-199 | After one more file, the loop's records and entries are what they were, extended by that file's record and entries exactly when it extracts. |
| `Handlers.IngestFile` | app/main.py:185-198 | A file that extracts gets the chunks of the text read from its own bytes tagged and added for the user. Its record holds the fresh id, the file name, the preview of that text and the uploader. |
| `Handlers.Commit` | app/main.py:195-196 | After the commits, the table keeps every id it had and holds every committed id, and the last record committed is stored under its id. |
| `Handlers.CommitKeys` | app/main.py:195-196 | The table's ids after a batch of commits are exactly its old ids and the committed ones. |
| `Handlers.CommitFrame` | app/main.py:195-196 | An id that the batch does not commit keeps its old row. |
| `Handlers.CommitLatest` | app/main.py:194-196 | Every committed record that no later record of the batch overwrites is stored under its id. |
| `Handlers.UploadedDocuments` | app/main.py:185-198 | The committed records correspond to the files that extract, in upload order. Each record holds the file's fresh id, its name as title, the uploader's id and the 2000-character preview of that file's own text. The response holds each record's id and title. |
| `Handlers.FileEntriesTagged` | app/main.py:185-192 | Each chunk of a file is stored for the uploader under the file's fresh document id and name, and the stored texts are the file's chunks, in order. |
| `Positions.AccumulateWhere` | app/main.py:176-198 | A loop that appends something for each position satisfying a condition produces those contributions for the satisfying positions, in increasing order. |
| `Positions.WhereIncreasing` | app/main.py:125 | The selected positions come in increasing order, so every filter preserves order. |
| `Positions.IncreasingUnique` | app/main.py:124-125 | An increasing sequence of positions is determined by its set of elements. |

## Left out

- `Chunking.ChunkText`: the tokenizer is total here. tiktoken's `encode` (app/utils.py:26 and :33) raises on text holding a special-token string such as `<|endoftext|>`. `chunk_text` runs outside the per-file `try` (app/main.py:180-186), so such an upload would end the batch in the HTTP 500 path, with earlier files already committed. The model returns chunks instead.
- `VectorIndex.LangChainVectorStore.constructor`: requires the existing collection to hold only entries this service stores: a string `doc_id` and `content`, and an integer `user_id`. The source never checks this. `VectorIndex.SearchResultsAreChunkDicts`, and through it the `r["doc_id"]` lookups of app/main.py:123, rely on it.
- The tokenizer (tiktoken), the text splitter, the OpenAI embeddings and Chroma's nearest-neighbour search are external services. They are parameters, and floating-point scores become an integer distance.
- Chroma's order among entries at the same distance is modelled as insertion order.
- Chroma's handling of duplicate ids is not modelled: an add always appends.
- The PDF, DOCX and text readers, and the file staging (`open`, `shutil.copyfileobj`, `os.remove`), are file I/O. The readers are parameters applied to the upload's bytes, which stand for the staged file; a failed write or a leftover file is not modelled.
- The uuid4 generator is I/O; fresh ids and tokens are parameters.
- The language model calls and the asyncio streaming bridge in app/llm.py are concurrency around external calls. The model and the stream are parameters, and the streamed tokens are a sequence.
- Authentication (`get_current_user`), FastAPI routing and responses, SQLAlchemy sessions, `refresh`, and an id collision on commit are outside the core. The table is a map, and a commit is a map update.
- Wrapping exceptions raised during an upload into HTTP 500 (app/main.py:201-204) is not modelled, and neither is the lack of atomicity between an add to the vector store and the database commit.
- The module-level wrappers and the `lang_obj` singleton (app/vector_store.py:65-99) only delegate to the class methods modelled here.
- The `list_documents`, `register` and `login` endpoints are outside the core.
- `DocumentOut`'s `created_at` (a database clock default) and `uploader` (the related user row) are not modelled: the response view holds only `id` and `title`.
- `VectorIndex.LangChainVectorStore.AddDocumentChunks`: an add of no chunks is a no-op in the model. Whether Chroma accepts an empty `add_texts` is not modelled. If it refused one, the batch would end in the HTTP 500 path with earlier files already committed.
- `VectorIndex.TopK`: takes the exact `k` nearest entries, whereas Chroma's HNSW index searches approximately.
- `PyStr.Lower`: lowers ASCII letters only, because Python's full Unicode lowering is not modelled. This decides `.pdf`, `.docx` and `.txt` exactly, since only ASCII letters lower to those letters.
- `PyStr.IsSpace`: follows Python's `str.isspace` code points and is not derived from the Unicode database.
- `PyPath.SplitExt`: models the POSIX variant of `os.path.splitext`; Windows separators are not modelled.
- `VectorIndex.LangChainVectorStore.Search`: `top_k` is a natural number, so a negative `top_k` is not modelled.
