/** The vector store: a collection of points keyed by id, scanned in id order page by page. */
module VectorStore {
  import opened PyText
  import opened Ids
  import opened KeyedStore

  type Vector = seq<real>

  datatype StoredChunk = StoredChunk(
    chunkId: PointId, documentId: string, corpusId: string, clientId: string,
    chunkIndex: int, charStart: int, charEnd: int, text: string, fileType: string, vector: Vector)

  datatype RetrievedChunk = RetrievedChunk(
    chunkId: PointId, documentId: string, corpusId: string, clientId: string,
    chunkIndex: int, charStart: int, charEnd: int, text: string, fileType: string, score: real)

  type Points = map<PointId, StoredChunk>

  const NO_COLLECTION := "collection not found"

  const PAGE_LIMIT: int := 512

  /** A scanned point: its payload, unscored. */
  function Retrieved(c: StoredChunk): RetrievedChunk {
    RetrievedChunk(c.chunkId, c.documentId, c.corpusId, c.clientId,
                   c.chunkIndex, c.charStart, c.charEnd, c.text, c.fileType, 0.0)
  }

  // ---------- Operations on the points ----------

  function IdOf(c: StoredChunk): PointId { c.chunkId }

  /** Write the chunks one by one; a later chunk replaces an earlier one with its id. */
  function Put(points: Points, chunks: seq<StoredChunk>): Points {
    PutAll(points, chunks, IdOf)
  }

  predicate BelongsTo(c: StoredChunk, clientId: string, documentId: string) {
    c.clientId == clientId && c.documentId == documentId
  }

  function DocumentFilter(clientId: string, documentId: string): StoredChunk -> bool {
    (c: StoredChunk) => BelongsTo(c, clientId, documentId)
  }

  /** Remove every point of the document. */
  function Wipe(points: Points, clientId: string, documentId: string): Points {
    Without(points, DocumentFilter(clientId, documentId))
  }

  /** Exactly the points of that client's document are gone. */
  ghost predicate Removed(before: Points, after: Points, clientId: string, documentId: string) {
    && (forall id ::
          id in after <==> id in before && !(before[id].clientId == clientId && before[id].documentId == documentId))
    && (forall id :: id in after ==> after[id] == before[id])
  }

  lemma {:induction false} WipeRemoves(points: Points, clientId: string, documentId: string)
    ensures Removed(points, Wipe(points, clientId, documentId), clientId, documentId)
    ensures Count(points, DocumentFilter(clientId, documentId)) == |points| - |Wipe(points, clientId, documentId)|
  {
    CountIsRemoved(points, DocumentFilter(clientId, documentId));
  }

  predicate InScope(c: StoredChunk, clientId: string, corpusIds: seq<string>) {
    c.clientId == clientId && c.corpusId in corpusIds
  }

  function ScopeFilter(clientId: string, corpusIds: seq<string>): StoredChunk -> bool {
    (c: StoredChunk) => InScope(c, clientId, corpusIds)
  }

  /** The first `limit` points in scope, in id order. */
  function ListedChunks(points: Points, clientId: string, corpusIds: seq<string>, limit: int): seq<RetrievedChunk> {
    MapAll(Retrieved, Scan(points, ScopeFilter(clientId, corpusIds), limit))
  }

  /** A scan that has mapped the first `limit` matches, or all of them, is finished. */
  lemma {:induction false} ListedIs(
    points: Points, clientId: string, corpusIds: seq<string>, limit: nat, out: seq<RetrievedChunk>)
    requires var all := Matching(points, ScopeFilter(clientId, corpusIds));
      Mapped(Retrieved, all, out) && |out| == Min(limit, |all|)
    ensures out == ListedChunks(points, clientId, corpusIds, limit)
  {
    MappedIsMapAll(Retrieved, Matching(points, ScopeFilter(clientId, corpusIds)), out);
  }

  /** One call of the client's scroll, seen from the scan that has `k` matches behind it. */
  method ScrollPage(points: Points, filter: StoredChunk -> bool, n: nat, offset: Option<PointId>, ghost k: nat)
    returns (scrolled: seq<StoredChunk>, next: Option<PointId>)
    requires BeginsAt(points, filter, offset, k)
    ensures |scrolled| == Min(n, |Matching(points, filter)| - k) && PartFrom(Matching(points, filter), k, scrolled)
    ensures if next.None? then |Matching(points, filter)| <= k + n
            else |scrolled| == n && BeginsAt(points, filter, next, k + n)
  {
    PageAt(points, filter, n, offset, k);
    NextPageAt(points, filter, n, offset, k);
    var page := Scroll(points, filter, n, offset);
    return page.points, page.next;
  }

  /** The inner loop of the scan: append the points of one page. */
  method AppendPage(before: seq<RetrievedChunk>, scrolled: seq<StoredChunk>, ghost all: seq<StoredChunk>)
    returns (out: seq<RetrievedChunk>)
    requires Mapped(Retrieved, all, before) && PartFrom(all, |before|, scrolled)
    ensures Mapped(Retrieved, all, out) && |out| == |before| + |scrolled|
  {
    out := before;
    for i := 0 to |scrolled|
      invariant |out| == |before| + i && Mapped(Retrieved, all, out)
    {
      MapNext(Retrieved, all, out, scrolled[i]);
      out := out + [Retrieved(scrolled[i])];
    }
  }

  // ---------- The store ----------

  /** A collection that was never created holds no points. */
  function Contents(collection: Option<Points>): Points {
    if collection.None? then map[] else collection.value
  }

  class QdrantVectorStore {
    /** None until the collection is created. */
    var collection: Option<Points>

    constructor ()
      ensures collection == None
    {
      collection := None;
    }

    method EnsureCollection()
      modifies this
      ensures collection == Some(Contents(old(collection)))
    {
      if collection.Some? {
        return;
      }
      collection := Some(map[]);
    }

    method Upsert(chunks: seq<StoredChunk>) returns (r: Result<nat, string>)
      modifies this
      ensures chunks == [] ==> r == Ok(0) && collection == old(collection)
      ensures chunks != [] && old(collection).None? ==> r == Err(NO_COLLECTION) && collection == None
      ensures chunks != [] && old(collection).Some? ==>
        r == Ok(|chunks|) && collection == Some(Put(old(collection).value, chunks))
    {
      if chunks == [] {
        return Ok(0);
      }
      if collection.None? {
        return Err(NO_COLLECTION);
      }
      collection := Some(Put(collection.value, chunks));
      return Ok(|chunks|);
    }

    /** The paged scan returns exactly the first `limit` points in scope, in id order. */
    method ListChunksForCorpora(clientId: string, corpusIds: seq<string>, limit: int)
      returns (r: Result<seq<RetrievedChunk>, string>)
      ensures corpusIds == [] || limit <= 0 ==> r == Ok([])
      ensures corpusIds != [] && limit > 0 && collection.None? ==> r == Err(NO_COLLECTION)
      ensures corpusIds != [] && limit > 0 && collection.Some? ==>
        r == Ok(ListedChunks(collection.value, clientId, corpusIds, limit))
    {
      if corpusIds == [] || limit <= 0 {
        return Ok([]);
      }
      if collection.None? {
        return Err(NO_COLLECTION);
      }
      var points, filter := collection.value, ScopeFilter(clientId, corpusIds);
      ghost var all := Matching(points, filter);
      var out: seq<RetrievedChunk> := [];
      var nextOffset: Option<PointId> := None;
      var page := Min(limit, PAGE_LIMIT);
      while |out| < limit
        invariant |out| <= limit && Mapped(Retrieved, all, out)
        invariant BeginsAt(points, filter, nextOffset, |out|)
        decreases limit - |out|
      {
        var n: nat := Min(page, limit - |out|);
        ghost var k := |out|;
        var scrolled, next := ScrollPage(points, filter, n, nextOffset, k);
        out := AppendPage(out, scrolled, all);
        nextOffset := next;
        if nextOffset.None? {
          break;
        }
      }
      ListedIs(points, clientId, corpusIds, limit, out);
      return Ok(out);
    }

    method DeleteByDocument(clientId: string, documentId: string) returns (r: Result<nat, string>)
      modifies this
      ensures old(collection).None? ==> r == Err(NO_COLLECTION) && collection == None
      ensures old(collection).Some? ==>
        && collection == Some(Wipe(old(collection).value, clientId, documentId))
        && r == Ok(Count(old(collection).value, DocumentFilter(clientId, documentId)))
      ensures old(collection).Some? ==>
        && Removed(old(collection).value, collection.value, clientId, documentId)
        && r == Ok(|old(collection).value| - |collection.value|)
    {
      if collection.None? {
        return Err(NO_COLLECTION);
      }
      var points := collection.value;
      WipeRemoves(points, clientId, documentId);
      var count := Count(points, DocumentFilter(clientId, documentId));
      if count == 0 {
        WithoutNone(points, DocumentFilter(clientId, documentId));
        return Ok(0);
      }
      collection := Some(Wipe(points, clientId, documentId));
      return Ok(count);
    }
  }
}
