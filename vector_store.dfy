/**
 * `LangChainVectorStore`: a Chroma collection reduced to the sequence of
 * entries it holds, in insertion order. Every entry carries its chunk text
 * and a metadata dictionary; `user_id` in that dictionary is the tenant.
 *
 * Embeddings and similarity are abstract: `Distance(query, text)` stands for
 * the distance between the two embeddings, and a search ranks the caller's
 * entries by it (ties keep insertion order) and keeps the first `k`.
 */
module VectorIndex {

  /** The metadata values the pipeline stores: strings and the integer user id. */
  datatype Value = Str(s: string) | Int(i: int)

  type Metadata = map<string, Value>

  /** A chunk dictionary as the handlers build it: "doc_id", "title", "content". */
  type ChunkDict = map<string, Value>

  datatype Entry = Entry(id: string, text: string, metadata: Metadata)

  /** Distance between the embeddings of a query and of a stored text. */
  type Distance = (string, string) -> int

  const DefaultTopK := 5

  /** Length of `str(uuid.uuid4())`. */
  const UuidLength := 36

  /** The keys `add_document_chunks` reads from each chunk, with string values. */
  predicate IsChunkDict(c: ChunkDict)
  {
    "doc_id" in c && c["doc_id"].Str? && "content" in c && c["content"].Str?
  }

  predicate AllChunkDicts(chunks: seq<ChunkDict>)
  {
    forall i :: 0 <= i < |chunks| ==> IsChunkDict(chunks[i])
  }

  /** `dict(chunk, user_id=userId)`: the chunk with `user_id` set, overriding any old value. */
  function WithUserId(chunk: ChunkDict, userId: int): (m: Metadata)
    ensures m.Keys == chunk.Keys + {"user_id"}
    ensures m["user_id"] == Int(userId)
    ensures forall k :: k in chunk && k != "user_id" ==> m[k] == chunk[k]
  {
    chunk["user_id" := Int(userId)]
  }

  /** `chunk["doc_id"] + "_" + token`. */
  function EntryId(chunk: ChunkDict, token: string): (id: string)
    requires IsChunkDict(chunk)
    ensures |id| == |chunk["doc_id"].s| + 1 + |token|
    ensures id[..|chunk["doc_id"].s| + 1] == chunk["doc_id"].s + "_"
    ensures |id| >= |token| && id[|id| - |token|..] == token
  {
    var d := chunk["doc_id"].s;
    assert (d + "_" + token)[..|d| + 1] == d + "_";
    d + "_" + token
  }

  /** The entries `add_document_chunks(chunks, userId)` adds, given the fresh tokens. */
  function NewEntries(chunks: seq<ChunkDict>, userId: int, tokens: seq<string>): (r: seq<Entry>)
    requires |tokens| == |chunks| && AllChunkDicts(chunks)
    ensures |r| == |chunks|
    ensures forall i :: 0 <= i < |r| ==> r[i].text == chunks[i]["content"].s
    ensures forall i :: 0 <= i < |r| ==> r[i].metadata == WithUserId(chunks[i], userId)
    ensures forall i :: 0 <= i < |r| ==> r[i].id == EntryId(chunks[i], tokens[i])
  {
    seq(|chunks|, i requires 0 <= i < |chunks| && IsChunkDict(chunks[i]) =>
      Entry(EntryId(chunks[i], tokens[i]), chunks[i]["content"].s, WithUserId(chunks[i], userId)))
  }

  /** Chroma's filter `{"user_id": userId}`. */
  predicate OwnedBy(e: Entry, userId: int)
  {
    "user_id" in e.metadata && e.metadata["user_id"] == Int(userId)
  }

  /** Chroma's filter `{"$and": [{"doc_id": docId}, {"user_id": userId}]}`. */
  predicate Matches(e: Entry, docId: string, userId: int)
  {
    "doc_id" in e.metadata && e.metadata["doc_id"] == Str(docId) && OwnedBy(e, userId)
  }

  /** The entries of one tenant, in store order. */
  function Owned(es: seq<Entry>, userId: int): (r: seq<Entry>)
    ensures |r| <= |es|
  {
    if es == [] then [] else Owned(es[..|es| - 1], userId) + KeepOwned(es[|es| - 1], userId)
  }

  function KeepOwned(e: Entry, userId: int): seq<Entry>
  {
    if OwnedBy(e, userId) then [e] else []
  }

  /** The tenant's entries are exactly the entries that carry its id. */
  lemma {:induction false} OwnedMembers(es: seq<Entry>, userId: int)
    ensures forall e :: e in Owned(es, userId) <==> e in es && OwnedBy(e, userId)
    decreases |es|
  {
    if es != [] {
      var init, last := es[..|es| - 1], es[|es| - 1];
      OwnedMembers(init, userId);
      assert es == init + [last];
      assert Owned(es, userId) == Owned(init, userId) + KeepOwned(last, userId);
    }
  }

  /** The store after `delete(where=doc_id AND user_id)`. */
  function RemoveMatching(es: seq<Entry>, docId: string, userId: int): (r: seq<Entry>)
    ensures |r| <= |es|
  {
    if es == [] then []
    else
      var init := es[..|es| - 1];
      var last := es[|es| - 1];
      assert es == init + [last];
      RemoveMatching(init, docId, userId) + KeepUnmatched(last, docId, userId)
  }

  function KeepUnmatched(e: Entry, docId: string, userId: int): seq<Entry>
  {
    if Matches(e, docId, userId) then [] else [e]
  }

  /** A delete keeps exactly the entries that do not match. */
  lemma {:induction false} RemoveMatchingMembers(es: seq<Entry>, docId: string, userId: int)
    ensures forall e :: e in RemoveMatching(es, docId, userId) <==> e in es && !Matches(e, docId, userId)
    decreases |es|
  {
    if es != [] {
      var init, last := es[..|es| - 1], es[|es| - 1];
      RemoveMatchingMembers(init, docId, userId);
      assert es == init + [last];
      assert RemoveMatching(es, docId, userId) == RemoveMatching(init, docId, userId) + KeepUnmatched(last, docId, userId);
    }
  }

  /** A delete keeps every non-matching entry as often as it occurred. */
  lemma {:induction false} RemoveMatchingCounts(es: seq<Entry>, docId: string, userId: int)
    ensures forall e :: !Matches(e, docId, userId) ==>
      multiset(RemoveMatching(es, docId, userId))[e] == multiset(es)[e]
    decreases |es|
  {
    if es != [] {
      var init, last := es[..|es| - 1], es[|es| - 1];
      var rest, kept := RemoveMatching(init, docId, userId), KeepUnmatched(last, docId, userId);
      RemoveMatchingCounts(init, docId, userId);
      assert es == init + [last];
      assert multiset(es) == multiset(init) + multiset{last};
      assert RemoveMatching(es, docId, userId) == rest + kept;
      assert multiset(rest + kept) == multiset(rest) + multiset(kept);
      forall e | !Matches(e, docId, userId)
        ensures multiset(rest + kept)[e] == multiset(es)[e]
      {
        if Matches(last, docId, userId) {
          assert kept == [] && e != last;
        } else {
          assert kept == [last];
        }
      }
    }
  }

  predicate NoneMatch(es: seq<Entry>, docId: string, userId: int)
  {
    forall i :: 0 <= i < |es| ==> !Matches(es[i], docId, userId)
  }

  /** A delete that matches nothing leaves the store as it was. */
  lemma {:induction false} RemoveNothingMatching(es: seq<Entry>, docId: string, userId: int)
    requires NoneMatch(es, docId, userId)
    ensures RemoveMatching(es, docId, userId) == es
    decreases |es|
  {
    if es != [] {
      var init, last := es[..|es| - 1], es[|es| - 1];
      assert NoneMatch(init, docId, userId) by {
        forall i | 0 <= i < |init| ensures !Matches(init[i], docId, userId) {
          assert init[i] == es[i];
        }
      }
      RemoveNothingMatching(init, docId, userId);
      assert !Matches(last, docId, userId);
      assert RemoveMatching(es, docId, userId) == RemoveMatching(init, docId, userId) + KeepUnmatched(last, docId, userId);
      assert es == init + [last];
    }
  }

  predicate SortedByDistance(s: seq<Entry>, query: string, distance: Distance)
  {
    forall i, j :: 0 <= i < j < |s| ==> distance(query, s[i].text) <= distance(query, s[j].text)
  }

  /** Inserts `e` in front of the first entry that is not strictly nearer. */
  function Insert(e: Entry, s: seq<Entry>, query: string, distance: Distance): (r: seq<Entry>)
    requires SortedByDistance(s, query, distance)
    ensures multiset(r) == multiset(s) + multiset{e}
    ensures SortedByDistance(r, query, distance)
  {
    if s == [] || distance(query, e.text) <= distance(query, s[0].text) then
      PrependNearest(e, s, query, distance);
      [e] + s
    else
      var tail := Insert(e, s[1..], query, distance);
      assert s == [s[0]] + s[1..];
      InsertedNotNearer(s, e, tail, query, distance);
      [s[0]] + tail
  }

  /** An entry no farther than the head of a nearest-first order can go in front of it. */
  lemma PrependNearest(e: Entry, s: seq<Entry>, query: string, distance: Distance)
    requires SortedByDistance(s, query, distance)
    requires s == [] || distance(query, e.text) <= distance(query, s[0].text)
    ensures SortedByDistance([e] + s, query, distance)
  {
    var r := [e] + s;
    forall i, j | 0 <= i < j < |r| ensures distance(query, r[i].text) <= distance(query, r[j].text) {
      assert r[j] == s[j - 1];
      if i > 0 {
        assert r[i] == s[i - 1];
      } else if j > 1 {
        assert distance(query, s[0].text) <= distance(query, s[j - 1].text);
      }
    }
  }

  /** Every entry of the tail built by Insert is at least as far as the head it goes behind. */
  lemma InsertedNotNearer(s: seq<Entry>, e: Entry, tail: seq<Entry>, query: string, distance: Distance)
    requires s != [] && SortedByDistance(s, query, distance)
    requires distance(query, s[0].text) < distance(query, e.text)
    requires multiset(tail) == multiset(s[1..]) + multiset{e}
    requires SortedByDistance(tail, query, distance)
    ensures SortedByDistance([s[0]] + tail, query, distance)
  {
    var d0 := distance(query, s[0].text);
    forall j | 0 <= j < |tail| ensures d0 <= distance(query, tail[j].text) {
      var x := tail[j];
      assert x in multiset(tail);
      if x != e {
        assert x in multiset(s[1..]);
        var k :| 0 <= k < |s[1..]| && s[1..][k] == x;
        assert s[k + 1] == x;
      }
    }
    var r := [s[0]] + tail;
    forall i, j | 0 <= i < j < |r| ensures distance(query, r[i].text) <= distance(query, r[j].text) {
      assert r[j] == tail[j - 1];
      if i > 0 {
        assert r[i] == tail[i - 1];
      }
    }
  }

  /** The nearest-first order of a set of entries (ties in insertion order). */
  function Rank(s: seq<Entry>, query: string, distance: Distance): (r: seq<Entry>)
    ensures multiset(r) == multiset(s)
    ensures SortedByDistance(r, query, distance)
  {
    if s == [] then []
    else
      assert s == [s[0]] + s[1..];
      Insert(s[0], Rank(s[1..], query, distance), query, distance)
  }

  function Min(a: int, b: int): int
  {
    if a <= b then a else b
  }

  lemma SplitMultiset(ranked: seq<Entry>, n: nat)
    requires n <= |ranked|
    ensures multiset(ranked[..n]) <= multiset(ranked)
    ensures multiset(ranked) - multiset(ranked[..n]) == multiset(ranked[n..])
  {
    assert ranked == ranked[..n] + ranked[n..];
  }

  /** The first `n` of a nearest-first order are no farther than any of the others. */
  lemma PrefixIsNearest(ranked: seq<Entry>, n: nat, query: string, distance: Distance)
    requires n <= |ranked| && SortedByDistance(ranked, query, distance)
    ensures SortedByDistance(ranked[..n], query, distance)
    ensures multiset(ranked[..n]) <= multiset(ranked)
    ensures forall e, t :: e in multiset(ranked) - multiset(ranked[..n]) && t in ranked[..n] ==>
      distance(query, t.text) <= distance(query, e.text)
  {
    SplitMultiset(ranked, n);
    forall e, t | e in multiset(ranked[n..]) && t in ranked[..n]
      ensures distance(query, t.text) <= distance(query, e.text)
    {
      var i :| 0 <= i < n && ranked[..n][i] == t;
      assert e in ranked[n..];
      var j :| 0 <= j < |ranked| - n && ranked[n..][j] == e;
      assert ranked[i] == t && ranked[n + j] == e;
    }
    forall i, j | 0 <= i < j < n
      ensures distance(query, ranked[..n][i].text) <= distance(query, ranked[..n][j].text)
    {
      assert ranked[..n][i] == ranked[i] && ranked[..n][j] == ranked[j];
    }
  }

  /**
   * The entries `similarity_search_with_score(query, k, filter={"user_id": userId})`
   * finds: `k` of the tenant's entries (fewer if it has fewer), nearest first,
   * none of them farther than any of the tenant's entries left out.
   */
  function TopK(entries: seq<Entry>, query: string, userId: int, k: nat, distance: Distance): (top: seq<Entry>)
    ensures |top| == Min(k, |Owned(entries, userId)|)
    ensures forall e :: e in top ==> e in entries && OwnedBy(e, userId)
    ensures SortedByDistance(top, query, distance)
    ensures multiset(top) <= multiset(Owned(entries, userId))
    ensures forall e, t :: e in multiset(Owned(entries, userId)) - multiset(top) && t in top ==>
      distance(query, t.text) <= distance(query, e.text)
  {
    var owned := Owned(entries, userId);
    var ranked := Rank(owned, query, distance);
    var n := Min(k, |ranked|);
    OwnedMembers(entries, userId);
    PrefixIsNearest(ranked, n, query, distance);
    assert forall e :: e in ranked[..n] ==> e in multiset(owned);
    ranked[..n]
  }

  /** `similarity_search_with_score`: the hits, each with its score. */
  function SimilaritySearchWithScore(entries: seq<Entry>, query: string, k: nat, userId: int, distance: Distance)
    : (r: seq<(Entry, int)>)
    ensures |r| == |TopK(entries, query, userId, k, distance)|
    ensures forall i :: 0 <= i < |r| ==>
      r[i] == (TopK(entries, query, userId, k, distance)[i], distance(query, TopK(entries, query, userId, k, distance)[i].text))
  {
    var top := TopK(entries, query, userId, k, distance);
    seq(|top|, i requires 0 <= i < |top| => (top[i], distance(query, top[i].text)))
  }

  /** What `search(query, userId, topK)` returns: the hits' metadata, scores dropped. */
  function SearchResults(entries: seq<Entry>, query: string, userId: int, topK: nat, distance: Distance)
    : (r: seq<Metadata>)
    ensures |r| <= topK
    ensures forall i :: 0 <= i < |r| ==> "user_id" in r[i] && r[i]["user_id"] == Int(userId)
  {
    var top := TopK(entries, query, userId, topK, distance);
    var hits := SimilaritySearchWithScore(entries, query, topK, userId, distance);
    var r := seq(|hits|, i requires 0 <= i < |hits| => hits[i].0.metadata);
    forall i | 0 <= i < |r| ensures "user_id" in r[i] && r[i]["user_id"] == Int(userId) {
      assert hits[i].0 == top[i] && top[i] in top;
    }
    r
  }

  lemma {:induction false} OwnedAppend(a: seq<Entry>, b: seq<Entry>, userId: int)
    ensures Owned(a + b, userId) == Owned(a, userId) + Owned(b, userId)
    decreases |b|
  {
    if b == [] {
      assert a + b == a;
    } else {
      var ab, b' := a + b, b[..|b| - 1];
      assert ab[..|ab| - 1] == a + b';
      assert ab[|ab| - 1] == b[|b| - 1];
      OwnedAppend(a, b', userId);
      calc {
        Owned(ab, userId);
        Owned(a + b', userId) + KeepOwned(b[|b| - 1], userId);
        Owned(a, userId) + Owned(b', userId) + KeepOwned(b[|b| - 1], userId);
        Owned(a, userId) + Owned(b, userId);
      }
    }
  }

  /** A search only looks at the caller's own entries. */
  lemma SearchSeesOnlyOwned(e1: seq<Entry>, e2: seq<Entry>, query: string, userId: int, topK: nat, distance: Distance)
    requires Owned(e1, userId) == Owned(e2, userId)
    ensures SearchResults(e1, query, userId, topK, distance) == SearchResults(e2, query, userId, topK, distance)
  {
    assert TopK(e1, query, userId, topK, distance) == TopK(e2, query, userId, topK, distance);
  }

  /** Every entry added for a user carries that user's id, and only that one. */
  lemma NewEntriesOwnedBy(chunks: seq<ChunkDict>, userId: int, tokens: seq<string>, other: int)
    requires |tokens| == |chunks| && AllChunkDicts(chunks)
    ensures Owned(NewEntries(chunks, userId, tokens), userId) == NewEntries(chunks, userId, tokens)
    ensures other != userId ==> Owned(NewEntries(chunks, userId, tokens), other) == []
  {
    var r := NewEntries(chunks, userId, tokens);
    assert AllOwnedBy(r, userId) by {
      assert forall i :: 0 <= i < |r| ==> r[i].metadata["user_id"] == Int(userId);
    }
    OwnsAll(r, userId);
    if other != userId {
      OwnsNone(r, other);
    }
  }

  predicate AllOwnedBy(es: seq<Entry>, userId: int)
  {
    forall i :: 0 <= i < |es| ==> OwnedBy(es[i], userId)
  }

  lemma {:induction false} OwnsAll(es: seq<Entry>, userId: int)
    requires AllOwnedBy(es, userId)
    ensures Owned(es, userId) == es
    decreases |es|
  {
    if es != [] {
      var init, last := es[..|es| - 1], es[|es| - 1];
      assert AllOwnedBy(init, userId) by {
        forall i | 0 <= i < |init| ensures OwnedBy(init[i], userId) {
          assert init[i] == es[i];
        }
      }
      OwnsAll(init, userId);
      assert OwnedBy(last, userId);
      assert Owned(es, userId) == Owned(init, userId) + KeepOwned(last, userId);
      assert es == init + [last];
    }
  }

  lemma {:induction false} OwnsNone(es: seq<Entry>, userId: int)
    requires forall i :: 0 <= i < |es| ==> !OwnedBy(es[i], userId)
    ensures Owned(es, userId) == []
    decreases |es|
  {
    if es != [] {
      OwnsNone(es[..|es| - 1], userId);
    }
  }

  /**
   * Tenant isolation of `add_document_chunks`: what user B's search returns
   * is the same before and after chunks are added for another user A.
   */
  lemma AddIsolation(entries: seq<Entry>, chunks: seq<ChunkDict>, a: int, tokens: seq<string>,
                     b: int, query: string, topK: nat, distance: Distance)
    requires a != b
    requires |tokens| == |chunks| && AllChunkDicts(chunks)
    ensures SearchResults(entries + NewEntries(chunks, a, tokens), query, b, topK, distance)
         == SearchResults(entries, query, b, topK, distance)
  {
    var added := NewEntries(chunks, a, tokens);
    OwnedAppend(entries, added, b);
    NewEntriesOwnedBy(chunks, a, tokens, b);
    assert Owned(entries, b) + [] == Owned(entries, b);
    SearchSeesOnlyOwned(entries + added, entries, query, b, topK, distance);
  }

  /** The chunks just added are among the entries the owner's searches rank. */
  lemma AddVisibleToOwner(entries: seq<Entry>, chunks: seq<ChunkDict>, userId: int, tokens: seq<string>)
    requires |tokens| == |chunks| && AllChunkDicts(chunks)
    ensures Owned(entries + NewEntries(chunks, userId, tokens), userId)
         == Owned(entries, userId) + NewEntries(chunks, userId, tokens)
  {
    OwnedAppend(entries, NewEntries(chunks, userId, tokens), userId);
    NewEntriesOwnedBy(chunks, userId, tokens, userId);
  }

  /** Deleting for user A leaves every entry of another user B, in order. */
  lemma {:induction false} RemoveKeepsOthers(es: seq<Entry>, docId: string, a: int, b: int)
    requires a != b
    ensures Owned(RemoveMatching(es, docId, a), b) == Owned(es, b)
    decreases |es|
  {
    if es != [] {
      var init, last := es[..|es| - 1], es[|es| - 1];
      RemoveKeepsOthers(init, docId, a, b);
      var kept := KeepUnmatched(last, docId, a);
      OwnedAppend(RemoveMatching(init, docId, a), kept, b);
      assert [last][..0] == [];
      assert Owned(kept, b) == KeepOwned(last, b);
    }
  }

  /**
   * Tenant isolation of `delete_document`: even for the same document id,
   * user B's searches return the same after user A deletes.
   */
  lemma DeleteIsolation(entries: seq<Entry>, docId: string, a: int, b: int,
                        query: string, topK: nat, distance: Distance)
    requires a != b
    ensures SearchResults(RemoveMatching(entries, docId, a), query, b, topK, distance)
         == SearchResults(entries, query, b, topK, distance)
  {
    RemoveKeepsOthers(entries, docId, a, b);
    SearchSeesOnlyOwned(RemoveMatching(entries, docId, a), entries, query, b, topK, distance);
  }

  /** After a delete, the owner's searches no longer return chunks of that document. */
  lemma DeleteHidesDocument(entries: seq<Entry>, docId: string, userId: int,
                            query: string, topK: nat, distance: Distance)
    ensures forall m :: m in SearchResults(RemoveMatching(entries, docId, userId), query, userId, topK, distance) ==>
      !("doc_id" in m && m["doc_id"] == Str(docId))
  {
    var es := RemoveMatching(entries, docId, userId);
    RemoveMatchingMembers(entries, docId, userId);
    var top := TopK(es, query, userId, topK, distance);
    var hits := SimilaritySearchWithScore(es, query, topK, userId, distance);
    var r := SearchResults(es, query, userId, topK, distance);
    assert r == seq(|hits|, i requires 0 <= i < |hits| => hits[i].0.metadata);
    forall m | m in r ensures !("doc_id" in m && m["doc_id"] == Str(docId)) {
      var i :| 0 <= i < |r| && r[i] == m;
      assert hits[i].0 == top[i] && top[i] in top;
      assert top[i] in es && OwnedBy(top[i], userId);
    }
  }

  /**
   * With uuid4 tokens (all the same length, pairwise distinct) the ids of
   * one call are pairwise distinct, whatever the document ids are.
   */
  lemma NewEntryIdsDistinct(chunks: seq<ChunkDict>, userId: int, tokens: seq<string>)
    requires |tokens| == |chunks| && AllChunkDicts(chunks)
    requires forall i :: 0 <= i < |tokens| ==> |tokens[i]| == UuidLength
    requires forall i, j :: 0 <= i < j < |tokens| ==> tokens[i] != tokens[j]
    ensures var r := NewEntries(chunks, userId, tokens);
      forall i, j :: 0 <= i < j < |r| ==> r[i].id != r[j].id
  {
    var r := NewEntries(chunks, userId, tokens);
    forall i, j | 0 <= i < j < |r| ensures r[i].id != r[j].id {
      var x, y := r[i].id, r[j].id;
      assert x[|x| - UuidLength..] == tokens[i];
      assert y[|y| - UuidLength..] == tokens[j];
    }
  }

  /** Without the fixed token length, distinct tokens do not give distinct ids. */
  lemma VariableLengthTokensCanCollide()
    ensures var chunks := [map["doc_id" := Str("a_b"), "content" := Str("")],
                           map["doc_id" := Str("a"), "content" := Str("")]];
      var r := NewEntries(chunks, 1, ["c", "b_c"]);
      r[0].id == r[1].id
  {
    var chunks := [map["doc_id" := Str("a_b"), "content" := Str("")],
                   map["doc_id" := Str("a"), "content" := Str("")]];
    assert AllChunkDicts(chunks);
    assert "a_b" + "_" + "c" == "a" + "_" + "b_c";
  }

  /** What every entry of the store carries: a chunk dictionary and an integer `user_id`. */
  predicate StoredEntry(e: Entry)
  {
    IsChunkDict(e.metadata) && "user_id" in e.metadata && e.metadata["user_id"].Int?
  }

  predicate AllStored(es: seq<Entry>)
  {
    forall i :: 0 <= i < |es| ==> StoredEntry(es[i])
  }

  /** Search results from a store of chunk entries are chunk dictionaries. */
  lemma SearchResultsAreChunkDicts(entries: seq<Entry>, query: string, userId: int, topK: nat, distance: Distance)
    requires AllStored(entries)
    ensures AllChunkDicts(SearchResults(entries, query, userId, topK, distance))
  {
    var top := TopK(entries, query, userId, topK, distance);
    var hits := SimilaritySearchWithScore(entries, query, topK, userId, distance);
    var r := SearchResults(entries, query, userId, topK, distance);
    assert r == seq(|hits|, i requires 0 <= i < |hits| => hits[i].0.metadata);
    forall i | 0 <= i < |r| ensures IsChunkDict(r[i]) {
      assert hits[i].0 == top[i] && top[i] in top;
      var j :| 0 <= j < |entries| && entries[j] == top[i];
      assert StoredEntry(entries[j]);
    }
  }

  class LangChainVectorStore {
    /** The collection's entries, in insertion order. */
    var entries: seq<Entry>

    ghost predicate Valid()
      reads this
    {
      AllStored(entries)
    }

    /**
     * `__init__` connects to the persistent collection `my_collection`, which
     * keeps whatever earlier runs stored: `initial` is that content.
     */
    constructor (initial: seq<Entry>)
      requires AllStored(initial)
      ensures Valid() && entries == initial
    {
      entries := initial;
    }

    /** `add_document_chunks(chunks, user_id)`, with the uuid4 tokens as a parameter. */
    method AddDocumentChunks(chunks: seq<ChunkDict>, userId: int, tokens: seq<string>)
      requires Valid()
      requires |tokens| == |chunks| && AllChunkDicts(chunks)
      modifies this
      ensures Valid()
      ensures entries == old(entries) + NewEntries(chunks, userId, tokens)
    {
      var texts := seq(|chunks|, i requires 0 <= i < |chunks| && IsChunkDict(chunks[i]) => chunks[i]["content"].s);
      var metadatas := seq(|chunks|, i requires 0 <= i < |chunks| => WithUserId(chunks[i], userId));
      var ids := seq(|chunks|, i requires 0 <= i < |chunks| && IsChunkDict(chunks[i]) => EntryId(chunks[i], tokens[i]));
      var added := seq(|chunks|, i requires 0 <= i < |chunks| => Entry(ids[i], texts[i], metadatas[i]));
      assert added == NewEntries(chunks, userId, tokens);
      entries := entries + added;
      assert forall i :: 0 <= i < |added| ==> StoredEntry(added[i]);
    }

    /** `search(query, user_id, top_k)`: reads the store, changes nothing. */
    method Search(query: string, userId: int, topK: nat, distance: Distance) returns (results: seq<Metadata>)
      ensures results == SearchResults(entries, query, userId, topK, distance)
      ensures |results| <= topK
      ensures forall i :: 0 <= i < |results| ==> "user_id" in results[i] && results[i]["user_id"] == Int(userId)
    {
      var hits := SimilaritySearchWithScore(entries, query, topK, userId, distance);
      results := seq(|hits|, i requires 0 <= i < |hits| => hits[i].0.metadata);
    }

    /** `delete_document(doc_id, user_id)`. */
    method DeleteDocument(docId: string, userId: int)
      requires Valid()
      modifies this
      ensures Valid()
      ensures entries == RemoveMatching(old(entries), docId, userId)
    {
      entries := RemoveMatching(entries, docId, userId);
      RemoveMatchingMembers(old(entries), docId, userId);
      forall i | 0 <= i < |entries| ensures StoredEntry(entries[i]) {
        assert entries[i] in old(entries);
      }
    }
  }
}
