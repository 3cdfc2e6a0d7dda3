/**
 * The logic of the HTTP handlers, with the database, the vector store, the
 * language model and the uuid generator passed in: the delete guard, the
 * query pipeline (source filtering, first-seen dedup, context assembly) and
 * the batch upload (extraction, chunk tagging, preview, skip on failure).
 * Every call into the store uses the authenticated user's id; no request
 * type carries a user id.
 */
module Handlers {
  import opened Wrappers
  import PyStr
  import PyPath
  import Positions
  import Chunking
  import Extraction
  import opened VectorIndex

  const UploadDir := "./app/uploads"
  const PreviewLength := 2000
  const NotAuthenticated := "Not authenticated"

  datatype User = User(id: int, username: string)

  /** A row of the documents table; `content` holds the preview. */
  datatype DocRecord = DocRecord(id: string, title: string, content: string, uploaderId: int)

  /** The documents table, by primary key. */
  type Db = map<string, DocRecord>

  /** The response view of a document. */
  datatype DocumentOut = DocumentOut(id: string, title: string)

  datatype QueryRequest = QueryRequest(question: string)

  datatype QueryResponse = QueryResponse(answer: string, sources: seq<DocumentOut>)

  /** An uploaded file: its name and the bytes `shutil.copyfileobj` writes to the staged path. */
  datatype UploadFile = UploadFile(filename: string, content: Extraction.Bytes)

  /** The language model: (question, context) to an answer, or to a stream of tokens. */
  type Llm = (string, string) -> string
  type LlmStream = (string, string) -> seq<string>

  function ToOut(d: DocRecord): DocumentOut
  {
    DocumentOut(d.id, d.title)
  }

  // ---------------------------------------------------------------- delete

  datatype DeleteOutcome = Deleted | NotFound | Forbidden

  /** The guard of `delete_doc`: 404 with no record, 403 when the uploader is someone else. */
  function Authorize(db: Db, docId: string, userId: int): (r: DeleteOutcome)
    ensures r == NotFound <==> docId !in db
    ensures r == Forbidden <==> docId in db && db[docId].uploaderId != userId
    ensures r == Deleted <==> docId in db && db[docId].uploaderId == userId
  {
    if docId !in db then NotFound
    else if db[docId].uploaderId != userId then Forbidden
    else Deleted
  }

  /**
   * `delete_doc`: a refusal touches neither the vector store nor the
   * database; otherwise the user's vectors of the document go, then the record.
   */
  method DeleteDoc(store: LangChainVectorStore, docId: string, user: User, db: Db)
    returns (outcome: DeleteOutcome, db': Db)
    requires store.Valid()
    modifies store
    ensures store.Valid()
    ensures outcome == Authorize(db, docId, user.id)
    ensures outcome != Deleted ==> store.entries == old(store.entries) && db' == db
    ensures outcome == Deleted ==>
      store.entries == RemoveMatching(old(store.entries), docId, user.id) && db' == db - {docId}
  {
    if docId !in db {
      return NotFound, db;
    }
    if db[docId].uploaderId != user.id {
      return Forbidden, db;
    }
    store.DeleteDocument(docId, user.id);
    outcome, db' := Deleted, db - {docId};
  }

  // ----------------------------------------------------------------- query

  function DocIdOf(m: Metadata): string
    requires IsChunkDict(m)
  {
    m["doc_id"].s
  }

  /** `set(r["doc_id"] for r in results)`. */
  function ResultDocIds(results: seq<Metadata>): (ids: set<string>)
    requires AllChunkDicts(results)
    ensures forall i :: 0 <= i < |results| ==> DocIdOf(results[i]) in ids
    ensures forall id :: id in ids ==> exists i :: 0 <= i < |results| && DocIdOf(results[i]) == id
  {
    set i | 0 <= i < |results| :: DocIdOf(results[i])
  }

  /** The rows whose id is among `ids`, by id. */
  function FetchDocs(db: Db, ids: set<string>): (r: Db)
    ensures forall id :: id in r <==> id in ids && id in db
    ensures forall id :: id in r ==> r[id] == db[id]
  {
    map id | id in ids && id in db :: db[id]
  }

  /** Whether result `i` names a document that has a record. */
  function HasRecord(results: seq<Metadata>, docs: Db): nat -> bool
    requires AllChunkDicts(results)
  {
    (i: nat) => i < |results| && DocIdOf(results[i]) in docs
  }

  /** The positions of the results whose document has a record. */
  function RecordPositions(results: seq<Metadata>, docs: Db): (idx: seq<nat>)
    requires AllChunkDicts(results)
    ensures forall k :: 0 <= k < |idx| ==> idx[k] < |results|
    ensures forall i: nat :: i in idx <==> i < |results| && DocIdOf(results[i]) in docs
  {
    Positions.Where(|results|, HasRecord(results, docs))
  }

  /** The response views of the table's records. */
  function Views(docs: Db): set<DocumentOut>
  {
    set id | id in docs :: ToOut(docs[id])
  }

  /** The list `sources`: one response document per result that has a record, in result order. */
  function Sources(results: seq<Metadata>, docs: Db): (r: seq<DocumentOut>)
    requires AllChunkDicts(results)
    ensures |r| <= |results|
    ensures forall k :: 0 <= k < |r| ==> r[k] in Views(docs)
  {
    var idx := RecordPositions(results, docs);
    Positions.WhereIncreasing(|results|, HasRecord(results, docs));
    SubsetOfPositionsShorter(idx, |results|);
    var out := seq(|idx|, k requires 0 <= k < |idx| => ToOut(docs[DocIdOf(results[idx[k]])]));
    assert forall k :: 0 <= k < |out| ==> idx[k] in idx && DocIdOf(results[idx[k]]) in docs;
    out
  }

  /**
   * The sources keep exactly the results that have a record, in result
   * order, and the ones without a record are skipped.
   */
  lemma SourcesOfResults(results: seq<Metadata>, docs: Db)
    requires AllChunkDicts(results)
    ensures var idx := RecordPositions(results, docs);
      && |Sources(results, docs)| == |idx| <= |results|
      && (forall k :: 0 <= k < |idx| ==> Sources(results, docs)[k] == ToOut(docs[DocIdOf(results[idx[k]])]))
      && (forall i :: 0 <= i < |results| && DocIdOf(results[i]) !in docs ==> i !in idx)
  {
    var idx := RecordPositions(results, docs);
    var all := seq(|results|, i requires 0 <= i < |results| => i);
    forall i: nat | i in idx ensures i in all {
      assert all[i] == i;
    }
    Positions.WhereIncreasing(|results|, HasRecord(results, docs));
    SubsetOfPositionsShorter(idx, |results|);
  }

  lemma {:induction false} SubsetOfPositionsShorter(idx: seq<nat>, n: nat)
    requires Positions.Increasing(idx)
    requires forall k :: 0 <= k < |idx| ==> idx[k] < n
    ensures |idx| <= n
    decreases |idx|
  {
    if idx != [] {
      var init := idx[..|idx| - 1];
      var last := idx[|idx| - 1];
      assert forall k :: 0 <= k < |init| ==> init[k] < last;
      SubsetOfPositionsShorter(init, last);
    }
  }

  /**
   * Fetching only the rows named by the results loses nothing: the sources
   * are the same as if every result were looked up in the whole table.
   */
  lemma SourcesFromFetched(results: seq<Metadata>, db: Db)
    requires AllChunkDicts(results)
    ensures Sources(results, FetchDocs(db, ResultDocIds(results))) == Sources(results, db)
  {
    var fetched := FetchDocs(db, ResultDocIds(results));
    var a, b := RecordPositions(results, fetched), RecordPositions(results, db);
    forall i: nat ensures i in a <==> i in b {
      if i < |results| {
        assert DocIdOf(results[i]) in ResultDocIds(results);
      }
    }
    Positions.WhereIncreasing(|results|, HasRecord(results, fetched));
    Positions.WhereIncreasing(|results|, HasRecord(results, db));
    Positions.IncreasingUnique(a, b);
    var sa, sb := Sources(results, fetched), Sources(results, db);
    assert |sa| == |sb|;
    forall k | 0 <= k < |sa| ensures sa[k] == sb[k] {
      assert a[k] in a;
    }
  }

  predicate IsFirst(s: seq<DocumentOut>, i: nat)
    requires i < |s|
  {
    forall j :: 0 <= j < i ==> s[j].id != s[i].id
  }

  /** Whether position `i` holds the first occurrence of its document id. */
  function FirstAt(s: seq<DocumentOut>): nat -> bool
  {
    (i: nat) => i < |s| && IsFirst(s, i)
  }

  /** The positions where a document id occurs for the first time. */
  function FirstPositions(s: seq<DocumentOut>): (idx: seq<nat>)
    ensures forall k :: 0 <= k < |idx| ==> idx[k] < |s|
    ensures forall i: nat :: i in idx <==> i < |s| && IsFirst(s, i)
  {
    Positions.Where(|s|, FirstAt(s))
  }

  /** First-seen dedup by document id. */
  function Dedup(s: seq<DocumentOut>): (r: seq<DocumentOut>)
    ensures |r| <= |s|
    ensures forall k :: 0 <= k < |r| ==> r[k] in s
  {
    Positions.WhereIncreasing(|s|, FirstAt(s));
    SubsetOfPositionsShorter(FirstPositions(s), |s|);
    Positions.Pick(s, FirstPositions(s))
  }

  function Ids(s: seq<DocumentOut>): set<string>
  {
    set d | d in s :: d.id
  }

  /** Dedup of a longer list: the new element is kept exactly when its id is new. */
  lemma DedupSnoc(s: seq<DocumentOut>, x: DocumentOut)
    ensures Dedup(s + [x]) == Dedup(s) + (if x.id in Ids(s) then [] else [x])
  {
    var t := s + [x];
    var isNew := x.id !in Ids(s);
    assert IsFirst(t, |s|) <==> isNew by {
      if !isNew {
        var d :| d in s && d.id == x.id;
        var j :| 0 <= j < |s| && s[j] == d;
        assert t[j].id == t[|s|].id;
      }
    }
    forall i: nat | i < |s| ensures IsFirst(t, i) == IsFirst(s, i) {
      assert forall j :: 0 <= j <= i ==> t[j] == s[j];
    }
    var a, b := FirstPositions(t), FirstPositions(s);
    forall i ensures i in a <==> i in b || (isNew && i == |s|) {
      if i in b {
        assert i < |s|;
      }
    }
    Positions.WhereIncreasing(|t|, FirstAt(t));
    Positions.WhereIncreasing(|s|, FirstAt(s));
    Positions.SnocUnique(a, b, |s|, isNew);
    var r, r0 := Dedup(t), Dedup(s) + (if isNew then [x] else []);
    assert |r| == |r0|;
    forall k | 0 <= k < |r| ensures r[k] == r0[k] {
      if k < |b| {
        assert t[b[k]] == s[b[k]];
      }
    }
  }

  /**
   * First-seen dedup keeps one document per id: the output has no repeated
   * id, every input id is in it, and each element is the first occurrence
   * of its id, taken in input order.
   */
  lemma DedupProperties(s: seq<DocumentOut>)
    ensures var r := Dedup(s);
      && (forall k, l :: 0 <= k < l < |r| ==> r[k].id != r[l].id)
      && Ids(r) == Ids(s)
      && (forall k :: 0 <= k < |r| ==> r[k] == s[FirstPositions(s)[k]] && IsFirst(s, FirstPositions(s)[k]))
  {
    var r := Dedup(s);
    var idx := FirstPositions(s);
    Positions.WhereIncreasing(|s|, FirstAt(s));
    forall k, l | 0 <= k < l < |r| ensures r[k].id != r[l].id {
      assert idx[l] in idx;
      assert idx[k] < idx[l];
    }
    forall id | id in Ids(s) ensures id in Ids(r) {
      var d :| d in s && d.id == id;
      var i :| 0 <= i < |s| && s[i] == d;
      var j := FirstOf(s, i);
      assert j in idx;
      var k :| 0 <= k < |idx| && idx[k] == j;
      assert r[k] == s[j];
    }
    forall id | id in Ids(r) ensures id in Ids(s) {
      var d :| d in r && d.id == id;
      var k :| 0 <= k < |r| && r[k] == d;
      assert s[idx[k]] == d;
    }
    forall k | 0 <= k < |r| ensures IsFirst(s, idx[k]) {
      assert idx[k] in idx;
    }
  }

  /** The first position holding the id found at position `i`. */
  lemma {:induction false} FirstOf(s: seq<DocumentOut>, i: nat) returns (j: nat)
    requires i < |s|
    ensures j <= i && s[j].id == s[i].id && IsFirst(s, j)
    decreases i
  {
    if IsFirst(s, i) {
      j := i;
    } else {
      var k :| 0 <= k < i && s[k].id == s[i].id;
      j := FirstOf(s, k);
    }
  }

  /** The dedup loop of `query_qa`: `unique_sources` and `seen_ids`. */
  method UniqueSources(sources: seq<DocumentOut>) returns (unique: seq<DocumentOut>)
    ensures unique == Dedup(sources)
  {
    unique := [];
    var seenIds: set<string> := {};
    for i := 0 to |sources|
      invariant unique == Dedup(sources[..i])
      invariant seenIds == Ids(sources[..i])
    {
      var doc := sources[i];
      assert sources[..i + 1] == sources[..i] + [doc];
      DedupSnoc(sources[..i], doc);
      if doc.id !in seenIds {
        unique := unique + [doc];
        seenIds := seenIds + {doc.id};
      }
    }
    assert sources[..|sources|] == sources;
  }

  /** The contents of the results, in rank order. */
  function Contents(results: seq<Metadata>): (r: seq<string>)
    requires AllChunkDicts(results)
    ensures |r| == |results|
    ensures forall i :: 0 <= i < |r| ==> r[i] == results[i]["content"].s
  {
    seq(|results|, i requires 0 <= i < |results| => results[i]["content"].s)
  }

  /** `"\n".join([r["content"] for r in results])`. */
  function Context(results: seq<Metadata>): (r: string)
    requires AllChunkDicts(results)
    ensures results == [] ==> r == []
    ensures |results| == 1 ==> r == results[0]["content"].s
  {
    PyStr.Join(Contents(results), '\n')
  }

  /**
   * The context holds every result's content, in rank order: when no content
   * contains a newline, splitting it on newlines gives them back; its length
   * is their total length plus one separator between each two.
   */
  lemma ContextHoldsEveryResult(results: seq<Metadata>)
    requires AllChunkDicts(results) && results != []
    ensures |Context(results)| == PyStr.TotalLength(Contents(results)) + |results| - 1
    ensures (forall i :: 0 <= i < |results| ==> '\n' !in results[i]["content"].s) ==>
      PyStr.Split(Context(results), '\n') == Contents(results)
  {
    PyStr.JoinLength(Contents(results), '\n');
    if forall i :: 0 <= i < |results| ==> '\n' !in results[i]["content"].s {
      PyStr.SplitJoin(Contents(results), '\n');
    }
  }

  /** An empty search gives an empty context and no sources. */
  lemma NoResultsNoContext(db: Db)
    ensures Context([]) == [] && Sources([], db) == [] && Dedup([]) == []
  {
  }

  /**
   * `query_qa`: the search runs for the authenticated user with the default
   * `top_k`; the sources are the deduplicated results that have a record,
   * and the answer is the model's answer on the joined contents of all results.
   */
  method QueryQa(store: LangChainVectorStore, req: QueryRequest, user: User, db: Db,
                 distance: Distance, llm: Llm)
    returns (resp: QueryResponse)
    requires store.Valid()
    ensures var results := SearchResults(store.entries, req.question, user.id, DefaultTopK, distance);
      && AllChunkDicts(results)
      && resp.sources == Dedup(Sources(results, db))
      && resp.answer == llm(req.question, Context(results))
  {
    var results := store.Search(req.question, user.id, DefaultTopK, distance);
    SearchResultsAreChunkDicts(store.entries, req.question, user.id, DefaultTopK, distance);
    var docIds := ResultDocIds(results);
    var dbDocs := FetchDocs(db, docIds);
    var sources := Sources(results, dbDocs);
    SourcesFromFetched(results, db);
    var uniqueSources := UniqueSources(sources);
    var context := Context(results);
    var answer := llm(req.question, context);
    resp := QueryResponse(answer, uniqueSources);
  }

  /**
   * `query_qa_stream`: the same search and the same context as `query_qa`;
   * the response is the model's token stream on that context.
   */
  method QueryQaStream(store: LangChainVectorStore, req: QueryRequest, user: User, db: Db,
                       distance: Distance, stream: LlmStream)
    returns (tokens: seq<string>)
    requires store.Valid()
    ensures var results := SearchResults(store.entries, req.question, user.id, DefaultTopK, distance);
      && AllChunkDicts(results)
      && tokens == stream(req.question, Context(results))
  {
    var results := store.Search(req.question, user.id, DefaultTopK, distance);
    SearchResultsAreChunkDicts(store.entries, req.question, user.id, DefaultTopK, distance);
    var docIds := ResultDocIds(results);
    var dbDocs := FetchDocs(db, docIds);
    var context := Context(results);
    tokens := stream(req.question, context);
  }

  // ---------------------------------------------------------------- upload

  /** The chunk dictionaries of one document: its id, the file name as title, one chunk each. */
  function TagChunks(chunks: seq<string>, docId: string, title: string): (r: seq<ChunkDict>)
    ensures |r| == |chunks| && AllChunkDicts(r)
    ensures forall i :: 0 <= i < |r| ==>
      r[i].Keys == {"doc_id", "title", "content"} && r[i]["doc_id"] == Str(docId) && r[i]["title"] == Str(title)
  {
    seq(|chunks|, i requires 0 <= i < |chunks| =>
      map["doc_id" := Str(docId), "title" := Str(title), "content" := Str(chunks[i])])
  }

  /** Tagging keeps every chunk, in order: the contents of the tags are the chunks. */
  lemma TagChunksRoundTrip(chunks: seq<string>, docId: string, title: string)
    ensures Contents(TagChunks(chunks, docId, title)) == chunks
  {
  }

  /** `text[:2000]`. */
  function Preview(text: string): (p: string)
    ensures |p| == Min(|text|, PreviewLength)
    ensures p == text[..|p|]
  {
    if |text| <= PreviewLength then text else text[..PreviewLength]
  }

  function StagedPath(f: UploadFile): string
  {
    PyPath.JoinPath(UploadDir, f.filename)
  }

  function ExtractAt(files: seq<UploadFile>, readers: Extraction.Readers, i: int): Result<string, string>
    requires 0 <= i < |files|
  {
    Extraction.ExtractTextFromFile(StagedPath(files[i]), files[i].content, readers)
  }

  /** Whether the text of file `i` can be extracted. */
  function Extracts(files: seq<UploadFile>, readers: Extraction.Readers): nat -> bool
  {
    (i: nat) => i < |files| && ExtractAt(files, readers, i).Success?
  }

  /** The positions of the files whose text can be extracted, in upload order. */
  function Extracted(files: seq<UploadFile>, readers: Extraction.Readers): (idx: seq<nat>)
    ensures forall k :: 0 <= k < |idx| ==> idx[k] < |files|
    ensures forall i: nat :: i in idx <==> i < |files| && ExtractAt(files, readers, i).Success?
  {
    Positions.Where(|files|, Extracts(files, readers))
  }

  /**
   * Each pass stages the upload's own bytes under its own name and reads them
   * back: the reader the uploaded name selects parses that upload's content.
   */
  lemma ExtractAtUpload(files: seq<UploadFile>, readers: Extraction.Readers, i: nat)
    requires i < |files|
    ensures var f, r := files[i], ExtractAt(files, readers, i);
      && (Extraction.KindOf(f.filename).Failure? ==> r == Failure(Extraction.UnsupportedFileType))
      && (Extraction.KindOf(f.filename) == Success(Extraction.Pdf) ==> r == readers.pdf(f.content))
      && (Extraction.KindOf(f.filename) == Success(Extraction.Docx) ==> r == readers.docx(f.content))
      && (Extraction.KindOf(f.filename) == Success(Extraction.Txt) ==> r == readers.txt(f.content))
  {
    PyPath.JoinKeepsExtension(UploadDir, files[i].filename);
    assert Extraction.KindOf(StagedPath(files[i])) == Extraction.KindOf(files[i].filename);
  }

  /** Two uploads of one batch with the same name are read separately, each from its own bytes. */
  lemma SameNameOwnText(files: seq<UploadFile>, readers: Extraction.Readers, i: nat, j: nat)
    requires i < |files| && j < |files| && files[i].filename == files[j].filename
    requires Extraction.KindOf(files[i].filename).Success?
    requires var read := Extraction.ReaderFor(readers, Extraction.KindOf(files[i].filename).value);
      read(files[i].content) != read(files[j].content)
    ensures ExtractAt(files, readers, i) != ExtractAt(files, readers, j)
  {
    ExtractAtUpload(files, readers, i);
    ExtractAtUpload(files, readers, j);
  }

  /** The file type is decided by the uploaded name: an unsupported one is skipped. */
  lemma UnsupportedUploadSkipped(files: seq<UploadFile>, readers: Extraction.Readers, i: nat)
    requires i < |files| && Extraction.KindOf(files[i].filename).Failure?
    ensures i !in Extracted(files, readers)
  {
    PyPath.JoinKeepsExtension(UploadDir, files[i].filename);
  }

  /** Everything the upload of file `i` depends on besides the file itself. */
  datatype Ingest = Ingest(
    readers: Extraction.Readers,
    splitter: Chunking.Splitter,
    tokenLen: Chunking.TokenCounter,
    freshDocId: int -> string,
    freshToken: (int, int) -> string)

  /** The text extracted from file `i`, when there is one. */
  function TextAt(files: seq<UploadFile>, readers: Extraction.Readers, i: int): (text: string)
    requires 0 <= i < |files|
    ensures ExtractAt(files, readers, i).Success? ==> ExtractAt(files, readers, i) == Success(text)
  {
    match ExtractAt(files, readers, i)
    case Success(text) => text
    case Failure(_) => ""
  }

  function RecordFor(files: seq<UploadFile>, env: Ingest, userId: int, i: int): DocRecord
    requires 0 <= i < |files|
  {
    DocRecord(env.freshDocId(i), files[i].filename, Preview(TextAt(files, env.readers, i)), userId)
  }

  /** The chunk dictionaries `add_documents` builds for file `i`. */
  function ChunkDictsFor(files: seq<UploadFile>, env: Ingest, i: int): seq<ChunkDict>
    requires 0 <= i < |files|
  {
    var text := TextAt(files, env.readers, i);
    var chunks := Chunking.Chunks(text, env.splitter, env.tokenLen, Chunking.DefaultMinTokens, Chunking.DefaultMaxTokens);
    TagChunks(chunks, env.freshDocId(i), files[i].filename)
  }

  function TokensFor(env: Ingest, i: int, n: nat): seq<string>
  {
    seq(n, j requires 0 <= j < n => env.freshToken(i, j))
  }

  function EntriesFor(files: seq<UploadFile>, env: Ingest, userId: int, i: int): seq<Entry>
    requires 0 <= i < |files|
  {
    var dicts := ChunkDictsFor(files, env, i);
    NewEntries(dicts, userId, TokensFor(env, i, |dicts|))
  }

  /** The record of file `i`, as a one-element sequence. */
  function RecordsOf(files: seq<UploadFile>, env: Ingest, userId: int): nat -> seq<DocRecord>
  {
    (i: nat) => if i < |files| then [RecordFor(files, env, userId, i)] else []
  }

  /** The entries of file `i`. */
  function EntriesOf(files: seq<UploadFile>, env: Ingest, userId: int): nat -> seq<Entry>
  {
    (i: nat) => if i < |files| then EntriesFor(files, env, userId, i) else []
  }

  /** The records of the files at `idx`, in that order. */
  function RecordsFor(files: seq<UploadFile>, env: Ingest, userId: int, idx: seq<nat>): seq<DocRecord>
  {
    Positions.ConcatAt(idx, RecordsOf(files, env, userId))
  }

  /** The entries added for the files at `idx`, file after file. */
  function EntriesForAll(files: seq<UploadFile>, env: Ingest, userId: int, idx: seq<nat>): seq<Entry>
  {
    Positions.ConcatAt(idx, EntriesOf(files, env, userId))
  }

  /** The table after committing `recs` one by one. */
  function Commit(db: Db, recs: seq<DocRecord>): (r: Db)
    ensures forall id :: id in db ==> id in r
    ensures forall k :: 0 <= k < |recs| ==> recs[k].id in r
    ensures recs != [] ==> r[recs[|recs| - 1].id] == recs[|recs| - 1]
  {
    if recs == [] then db else Commit(db, recs[..|recs| - 1])[recs[|recs| - 1].id := recs[|recs| - 1]]
  }

  /**
   * `add_documents`: files whose text cannot be extracted are skipped; every
   * other file, in upload order, gets a fresh document id, its chunks are
   * tagged and added for the user, and a record with the 2000-character
   * preview is committed.
   */
  method AddDocuments(store: LangChainVectorStore, files: seq<UploadFile>, user: Option<User>, db: Db, env: Ingest)
    returns (result: Result<seq<DocumentOut>, string>, db': Db)
    requires store.Valid()
    modifies store
    ensures store.Valid()
    ensures user.None? ==> result == Failure(NotAuthenticated) && store.entries == old(store.entries) && db' == db
    ensures user.Some? ==>
      var idx := Extracted(files, env.readers);
      var recs := RecordsFor(files, env, user.value.id, idx);
      && result == Success(seq(|recs|, k requires 0 <= k < |recs| => ToOut(recs[k])))
      && store.entries == old(store.entries) + EntriesForAll(files, env, user.value.id, idx)
      && db' == Commit(db, recs)
  {
    if user.None? {
      return Failure(NotAuthenticated), db;
    }
    var userId := user.value.id;
    ghost var ok, records, entries := Extracts(files, env.readers), RecordsOf(files, env, userId), EntriesOf(files, env, userId);
    var docs: seq<DocRecord> := [];
    db' := db;
    for i := 0 to |files|
      invariant store.Valid()
      invariant docs == Positions.Accumulate(i, ok, records)
      invariant db' == Commit(db, docs)
      invariant store.entries == old(store.entries) + Positions.Accumulate(i, ok, entries)
    {
      ghost var prev := docs;
      docs, db' := UploadOne(store, files, env, userId, i, docs, db');
      UploadStep(files, env, userId, i);
      if ExtractAt(files, env.readers, i).Success? {
        CommitSnoc(db, prev, RecordFor(files, env, userId, i));
        Positions.AppendAssoc(old(store.entries), Positions.Accumulate(i, ok, entries), EntriesFor(files, env, userId, i));
      }
    }
    Positions.AccumulateWhere(|files|, ok, records);
    Positions.AccumulateWhere(|files|, ok, entries);
    result := Success(seq(|docs|, k requires 0 <= k < |docs| => ToOut(docs[k])));
  }

  /**
   * One file of the `add_documents` loop: a file that does not extract is
   * skipped; otherwise its chunks are stored and its record is added and
   * committed.
   */
  method UploadOne(store: LangChainVectorStore, files: seq<UploadFile>, env: Ingest, userId: int, i: nat,
                   docs: seq<DocRecord>, db: Db)
    returns (docs': seq<DocRecord>, db': Db)
    requires store.Valid() && i < |files|
    modifies store
    ensures store.Valid()
    ensures ExtractAt(files, env.readers, i).Failure? ==>
      store.entries == old(store.entries) && docs' == docs && db' == db
    ensures ExtractAt(files, env.readers, i).Success? ==>
      var rec := RecordFor(files, env, userId, i);
      && store.entries == old(store.entries) + EntriesFor(files, env, userId, i)
      && docs' == docs + [rec]
      && db' == db[rec.id := rec]
  {
    var file := files[i];
    var filePath := PyPath.JoinPath(UploadDir, file.filename);
    var extracted := Extraction.ExtractTextFromFile(filePath, file.content, env.readers);
    if extracted.Failure? {
      return docs, db;
    }
    var dbDoc := IngestFile(store, files, env, userId, i);
    docs' := docs + [dbDoc];
    db' := db[dbDoc.id := dbDoc];
  }

  /** One more file extends the loop's records and entries by that file's, or by nothing when it does not extract. */
  lemma UploadStep(files: seq<UploadFile>, env: Ingest, userId: int, i: nat)
    requires i < |files|
    ensures var ok := Extracts(files, env.readers);
      ExtractAt(files, env.readers, i).Failure? ==>
        && Positions.Accumulate(i + 1, ok, RecordsOf(files, env, userId))
           == Positions.Accumulate(i, ok, RecordsOf(files, env, userId))
        && Positions.Accumulate(i + 1, ok, EntriesOf(files, env, userId))
           == Positions.Accumulate(i, ok, EntriesOf(files, env, userId))
    ensures var ok := Extracts(files, env.readers);
      ExtractAt(files, env.readers, i).Success? ==>
        && Positions.Accumulate(i + 1, ok, RecordsOf(files, env, userId))
           == Positions.Accumulate(i, ok, RecordsOf(files, env, userId)) + [RecordFor(files, env, userId, i)]
        && Positions.Accumulate(i + 1, ok, EntriesOf(files, env, userId))
           == Positions.Accumulate(i, ok, EntriesOf(files, env, userId)) + EntriesFor(files, env, userId, i)
  {
  }

  /** The successful branch of one file of `add_documents`: chunk, tag, store; return the record. */
  method IngestFile(store: LangChainVectorStore, files: seq<UploadFile>, env: Ingest, userId: int, i: nat)
    returns (dbDoc: DocRecord)
    requires store.Valid()
    requires i < |files| && ExtractAt(files, env.readers, i).Success?
    modifies store
    ensures store.Valid()
    ensures store.entries == old(store.entries) + EntriesFor(files, env, userId, i)
    ensures dbDoc == RecordFor(files, env, userId, i)
  {
    var file := files[i];
    var text := ExtractAt(files, env.readers, i).value;
    var docId := env.freshDocId(i);
    var chunks := Chunking.ChunkText(text, env.splitter, env.tokenLen, Chunking.DefaultMinTokens, Chunking.DefaultMaxTokens);
    var chunkDicts := TagChunks(chunks, docId, file.filename);
    assert chunkDicts == ChunkDictsFor(files, env, i);
    store.AddDocumentChunks(chunkDicts, userId, TokensFor(env, i, |chunkDicts|));
    dbDoc := DocRecord(docId, file.filename, Preview(text), userId);
  }

  /** Whether some record of `recs` has id `id`. */
  predicate CommitsId(recs: seq<DocRecord>, id: string)
  {
    exists k :: 0 <= k < |recs| && recs[k].id == id
  }

  /** The ids a batch commits, after one more record. */
  lemma CommitsIdSnoc(recs: seq<DocRecord>, id: string)
    requires recs != []
    ensures CommitsId(recs, id) <==> CommitsId(recs[..|recs| - 1], id) || recs[|recs| - 1].id == id
  {
    var init := recs[..|recs| - 1];
    if CommitsId(recs, id) {
      var k :| 0 <= k < |recs| && recs[k].id == id;
      if k < |init| {
        assert init[k] == recs[k];
      }
    }
    if CommitsId(init, id) {
      var k :| 0 <= k < |init| && init[k].id == id;
      assert recs[k] == init[k];
    }
  }

  /** After a batch of commits the table holds exactly the old ids and the committed ones. */
  lemma {:induction false} CommitKeys(db: Db, recs: seq<DocRecord>, id: string)
    ensures id in Commit(db, recs) <==> id in db || CommitsId(recs, id)
    decreases |recs|
  {
    if recs != [] {
      CommitKeys(db, recs[..|recs| - 1], id);
      CommitsIdSnoc(recs, id);
    }
  }

  /** An id that the batch does not commit keeps its old row. */
  lemma {:induction false} CommitFrame(db: Db, recs: seq<DocRecord>, id: string)
    requires id in db && !CommitsId(recs, id)
    ensures Commit(db, recs)[id] == db[id]
    decreases |recs|
  {
    if recs != [] {
      CommitsIdSnoc(recs, id);
      CommitFrame(db, recs[..|recs| - 1], id);
    }
  }

  /** A record that no later record of the batch overwrites is stored under its id. */
  lemma {:induction false} CommitLatest(db: Db, recs: seq<DocRecord>, k: nat)
    requires k < |recs|
    requires forall l :: k < l < |recs| ==> recs[l].id != recs[k].id
    ensures Commit(db, recs)[recs[k].id] == recs[k]
    decreases |recs|
  {
    var init := recs[..|recs| - 1];
    if k < |init| {
      assert init[k] == recs[k];
      assert forall l :: k < l < |init| ==> init[l] == recs[l];
      CommitLatest(db, init, k);
    }
  }

  lemma CommitSnoc(db: Db, recs: seq<DocRecord>, d: DocRecord)
    ensures Commit(db, recs + [d]) == Commit(db, recs)[d.id := d]
  {
    assert (recs + [d])[..|recs|] == recs;
  }

  /**
   * The documents `add_documents` returns are the files that extract, in
   * upload order, each titled with its file name and carrying its fresh id.
   */
  lemma UploadedDocuments(files: seq<UploadFile>, env: Ingest, userId: int)
    ensures var idx := Extracted(files, env.readers);
      var recs := RecordsFor(files, env, userId, idx);
      && |recs| == |idx|
      && forall k :: 0 <= k < |idx| ==>
        && recs[k].title == files[idx[k]].filename
        && recs[k].id == env.freshDocId(idx[k])
        && recs[k].uploaderId == userId
        && ExtractAt(files, env.readers, idx[k]).Success?
        && recs[k].content == Preview(ExtractAt(files, env.readers, idx[k]).value)
  {
    var idx := Extracted(files, env.readers);
    Positions.ConcatAtSingletons(idx, RecordsOf(files, env, userId));
    forall k | 0 <= k < |idx| ensures ExtractAt(files, env.readers, idx[k]).Success? {
      assert idx[k] in idx;
    }
  }

  /**
   * Every chunk a file contributes is stored for the uploading user, under
   * the file's fresh document id and its name as title, and the stored texts
   * are that file's chunks, in order.
   */
  lemma FileEntriesTagged(files: seq<UploadFile>, env: Ingest, userId: int, i: nat)
    requires i < |files| && ExtractAt(files, env.readers, i).Success?
    ensures var es := EntriesFor(files, env, userId, i);
      var text := ExtractAt(files, env.readers, i).value;
      && |es| == |Chunking.Chunks(text, env.splitter, env.tokenLen, Chunking.DefaultMinTokens, Chunking.DefaultMaxTokens)|
      && (forall j :: 0 <= j < |es| ==>
            && es[j].text == Chunking.Chunks(text, env.splitter, env.tokenLen, Chunking.DefaultMinTokens, Chunking.DefaultMaxTokens)[j]
            && es[j].metadata["user_id"] == Int(userId)
            && es[j].metadata["doc_id"] == Str(env.freshDocId(i))
            && es[j].metadata["title"] == Str(files[i].filename))
  {
    var dicts := ChunkDictsFor(files, env, i);
    var es := EntriesFor(files, env, userId, i);
    forall j | 0 <= j < |es| ensures es[j].metadata["doc_id"] == Str(env.freshDocId(i)) {
      assert es[j].metadata == WithUserId(dicts[j], userId);
    }
  }
}
