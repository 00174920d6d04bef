/** Indexing a document again without deleting it first: stale chunks of the earlier text stay behind, and
    the rebuilt document is the new text exactly when none of them reaches beyond its end. */
module Reindex {
  import opened PyText
  import opened Ids
  import opened KeyedStore
  import CL = ChunkLaws
  import CS = ChunkSpec
  import Chunking
  import opened VectorStore
  import opened Query
  import opened QueryLaws
  import opened Jobs
  import opened Worker
  import opened Services
  import opened Pipeline
  import opened PipelineLaws
  import opened Effects
  import opened Rounds
  import opened SequentialSpec
  import opened History
  import opened RoundTrip

  // ---------- Joining in two parts ----------

  /** How far a joined text reaches. */
  function Reach(cs: seq<RetrievedChunk>, cursor: int): int {
    if cs == [] then cursor else Reach(cs[1..], Max(cursor, cs[0].charEnd))
  }

  lemma {:induction false} JoinSplit(a: seq<RetrievedChunk>, b: seq<RetrievedChunk>, cursor: int)
    ensures Join(a + b, cursor) == Join(a, cursor) + Join(b, Reach(a, cursor))
    decreases |a|
  {
    if a == [] {
      assert a + b == b;
    } else {
      assert (a + b)[1..] == a[1..] + b;
      JoinSplit(a[1..], b, Max(cursor, a[0].charEnd));
    }
  }

  lemma {:induction false} JoinSplitAt(cs: seq<RetrievedChunk>, m: nat, cursor: int)
    requires m <= |cs|
    ensures Join(cs, cursor) == Join(cs[..m], cursor) + Join(cs[m..], Reach(cs[..m], cursor))
  {
    assert cs == cs[..m] + cs[m..];
    JoinSplit(cs[..m], cs[m..], cursor);
  }

  lemma {:induction false} ReachIs(cs: seq<RetrievedChunk>, cursor: int, top: int)
    requires cursor <= top && forall i :: 0 <= i < |cs| ==> cs[i].charEnd <= top
    requires cursor == top || exists i :: 0 <= i < |cs| && cs[i].charEnd == top
    ensures Reach(cs, cursor) == top
    decreases |cs|
  {
    if cs != [] {
      var next := Max(cursor, cs[0].charEnd);
      if next != top {
        var i :| 0 <= i < |cs| && cs[i].charEnd == top;
        assert cs[1..][i - 1].charEnd == top;
      }
      ReachIs(cs[1..], next, top);
    }
  }

  /** A chunk's span is non-empty and as long as its text. */
  predicate Sound(c: RetrievedChunk) {
    0 <= c.charStart < c.charEnd && |c.text| == c.charEnd - c.charStart
  }

  /** Further chunks add nothing exactly when none of them reaches beyond the cursor. */
  lemma {:induction false} JoinNothing(cs: seq<RetrievedChunk>, cursor: int)
    requires forall i :: 0 <= i < |cs| ==> Sound(cs[i])
    ensures Join(cs, cursor) == "" <==> forall i :: 0 <= i < |cs| ==> cs[i].charEnd <= cursor
    decreases |cs|
  {
    if cs != [] {
      var c := cs[0];
      assert Sound(c);
      assert Tail(c, cursor) == "" <==> c.charEnd <= cursor;
      if c.charEnd <= cursor {
        JoinNothing(cs[1..], cursor);
        assert forall i :: 0 < i < |cs| ==> cs[i] == cs[1..][i - 1];
      }
    }
  }

  /** Sorted chunks split where the index reaches `n`. */
  lemma {:induction false} SplitAtIndex(cs: seq<RetrievedChunk>, n: int) returns (m: nat)
    requires SortedByIndex(cs)
    ensures m <= |cs|
    ensures forall i :: 0 <= i < |cs| ==> (i < m <==> cs[i].chunkIndex < n)
    decreases |cs|
  {
    if cs == [] || cs[|cs| - 1].chunkIndex < n {
      m := |cs|;
    } else {
      m := SplitAtIndex(cs[..|cs| - 1], n);
      assert forall i :: 0 <= i < |cs| - 1 ==> cs[..|cs| - 1][i] == cs[i];
    }
  }

  // ---------- New chunks followed by stale ones ----------

  /** Below `n` the chunks are those of the text, all of them; from `n` on they are anything sound. */
  predicate NewThenStale(s: Setup, text: string, cs: seq<RetrievedChunk>)
    requires s.chunker.Valid()
  {
    var n := |s.chunker.ChunksOf(text)|;
    && HasEveryChunk(s, text, cs)
    && forall i :: 0 <= i < |cs| ==>
         Sound(cs[i]) && 0 <= cs[i].chunkIndex && (cs[i].chunkIndex < n ==> IsChunkOf(s, text, cs[i]))
  }

  /** Sorting keeps the chunks, so it keeps what each of them satisfies. */
  lemma {:induction false} SortedElements(cs: seq<RetrievedChunk>)
    ensures forall c :: c in SortByIndex(cs) <==> c in cs
  {
    SortSorts(cs);
    assert forall c :: c in SortByIndex(cs) <==> c in multiset(SortByIndex(cs));
    assert forall c :: c in cs <==> c in multiset(cs);
  }

  /** The part of the sorted chunks below `n` rebuilds the new text and reaches to its end. */
  lemma {:induction false} NewPart(s: Setup, text: string, part: seq<RetrievedChunk>)
    requires s.chunker.Valid() && text != "" && SortedByIndex(part)
    requires AllChunksOf(s, text, part) && HasEveryChunk(s, text, part)
    ensures Join(part, 0) == text && Reach(part, 0) == |text|
  {
    ChunksArePartsInOrder(s, text, part);
    JoinIsKept(text, part, 0);
    forall x | 0 <= x < |text| ensures Covered(part, x) {
      EveryChunkCovers(s, text, part, x);
    }
    KeptAll(text, part, 0, |text|);
    EveryChunkCovers(s, text, part, |text| - 1);
    var i :| 0 <= i < |part| && part[i].charStart <= |text| - 1 < part[i].charEnd;
    ReachIs(part, 0, |text|);
  }

  /** Sorted by index, the chunks below `n` are the new text's, all of them. */
  lemma {:induction false} NewerPart(
    s: Setup, text: string, cs: seq<RetrievedChunk>, sorted: seq<RetrievedChunk>, m: nat)
    requires s.chunker.Valid() && NewThenStale(s, text, cs)
    requires m <= |sorted| && forall c :: c in sorted <==> c in cs
    requires forall i :: 0 <= i < |sorted| ==> (i < m <==> sorted[i].chunkIndex < |s.chunker.ChunksOf(text)|)
    ensures AllChunksOf(s, text, sorted[..m]) && HasEveryChunk(s, text, sorted[..m])
  {
    var newer := sorted[..m];
    forall i | 0 <= i < |newer| ensures IsChunkOf(s, text, newer[i]) {
      assert newer[i] == sorted[i] && sorted[i] in cs;
    }
    forall i | 0 <= i < |s.chunker.ChunksOf(text)| ensures HasIndex(newer, i) {
      assert HasIndex(cs, i);
      var j :| 0 <= j < |cs| && cs[j].chunkIndex == i;
      assert cs[j] in sorted;
      var k :| 0 <= k < |sorted| && sorted[k] == cs[j];
      assert newer[k].chunkIndex == i;
    }
  }

  lemma {:induction false} StaleSound(
    s: Setup, text: string, cs: seq<RetrievedChunk>, sorted: seq<RetrievedChunk>, m: nat)
    requires s.chunker.Valid() && NewThenStale(s, text, cs)
    requires m <= |sorted| && forall c :: c in sorted <==> c in cs
    ensures forall i :: 0 <= i < |sorted[m..]| ==> Sound(sorted[m..][i])
  {
    forall i | 0 <= i < |sorted[m..]| ensures Sound(sorted[m..][i]) {
      assert sorted[m..][i] == sorted[m + i] && sorted[m + i] in cs;
    }
  }

  /** The tail of sorted chunks from index `n` on. */
  function From(cs: seq<RetrievedChunk>, n: int): seq<RetrievedChunk> {
    if cs == [] || cs[0].chunkIndex >= n then cs else From(cs[1..], n)
  }

  lemma {:induction false} FromIs(cs: seq<RetrievedChunk>, n: int, m: nat)
    requires m <= |cs| && forall i :: 0 <= i < |cs| ==> (i < m <==> cs[i].chunkIndex < n)
    ensures From(cs, n) == cs[m..]
    decreases |cs|
  {
    if cs != [] && cs[0].chunkIndex < n {
      FromIs(cs[1..], n, m - 1);
    }
  }

  /** The rebuilt text is the new text, followed by what the chunks from index `n` on add to it. */
  lemma {:induction false} NewThenStaleText(s: Setup, text: string, cs: seq<RetrievedChunk>) returns (m: nat)
    requires s.chunker.Valid() && text != "" && NewThenStale(s, text, cs)
    ensures var n, sorted := |s.chunker.ChunksOf(text)|, SortByIndex(cs);
      && m <= |sorted| && (forall i :: 0 <= i < |sorted| ==> (i < m <==> sorted[i].chunkIndex < n))
      && From(sorted, n) == sorted[m..]
      && Join(sorted, 0) == text + Join(From(sorted, n), |text|)
  {
    var n, sorted := |s.chunker.ChunksOf(text)|, SortByIndex(cs);
    SortSorts(cs);
    SortedElements(cs);
    m := SplitAtIndex(sorted, n);
    FromIs(sorted, n, m);
    NewerPart(s, text, cs, sorted, m);
    NewPart(s, text, sorted[..m]);
    JoinSplitAt(sorted, m, 0);
  }

  /** It is the new text exactly when no chunk from index `n` on ends beyond it. */
  lemma {:induction false} NewThenStaleJoins(s: Setup, text: string, cs: seq<RetrievedChunk>)
    requires s.chunker.Valid() && text != "" && NewThenStale(s, text, cs)
    ensures Join(SortByIndex(cs), 0) == text <==>
      forall i :: 0 <= i < |cs| && cs[i].chunkIndex >= |s.chunker.ChunksOf(text)| ==> cs[i].charEnd <= |text|
  {
    var n, sorted := |s.chunker.ChunksOf(text)|, SortByIndex(cs);
    SortedElements(cs);
    var m := NewThenStaleText(s, text, cs);
    StaleSound(s, text, cs, sorted, m);
    JoinNothing(sorted[m..], |text|);
    StaleSame(cs, sorted, m, n, |text|);
  }

  lemma {:induction false} StaleSame(cs: seq<RetrievedChunk>, sorted: seq<RetrievedChunk>, m: nat, n: int, top: int)
    requires m <= |sorted| && (forall c :: c in sorted <==> c in cs)
    requires forall i :: 0 <= i < |sorted| ==> (i < m <==> sorted[i].chunkIndex < n)
    ensures (forall i :: 0 <= i < |sorted[m..]| ==> sorted[m..][i].charEnd <= top)
       <==> (forall i :: 0 <= i < |cs| && cs[i].chunkIndex >= n ==> cs[i].charEnd <= top)
  {
    if forall i :: 0 <= i < |sorted[m..]| ==> sorted[m..][i].charEnd <= top {
      forall i | 0 <= i < |cs| && cs[i].chunkIndex >= n ensures cs[i].charEnd <= top {
        assert cs[i] in sorted;
        var j :| 0 <= j < |sorted| && sorted[j] == cs[i];
        assert sorted[m..][j - m] == cs[i];
      }
    } else {
      var i :| 0 <= i < |sorted[m..]| && sorted[m..][i].charEnd > top;
      assert sorted[m + i] in cs;
      var j :| 0 <= j < |cs| && cs[j] == sorted[m + i];
    }
  }

  // ---------- Chunks of two texts ----------

  /** What the chunks of `first` from index `n` on add to a text of the given length: the characters of `first`
      from there on, as far as these chunks cover them. */
  function Beyond(s: Setup, first: string, n: nat, length: nat): string
    requires s.chunker.Valid()
  {
    var chunks := s.chunker.ChunksOf(first);
    if n < |chunks| && length < |first| then Slice(first, Max(length, chunks[n].charStart), |first|) else ""
  }

  lemma {:induction false} TailCovers(s: Setup, first: string, stale: seq<RetrievedChunk>, n: nat, x: nat)
    requires s.chunker.Valid() && AllChunksOf(s, first, stale) && n < |s.chunker.ChunksOf(first)| && x < |first|
    requires forall j :: n <= j < |s.chunker.ChunksOf(first)| ==> HasIndex(stale, j)
    requires forall i :: 0 <= i < |stale| ==> stale[i].chunkIndex >= n
    ensures Covered(stale, x) <==> s.chunker.ChunksOf(first)[n].charStart <= x
  {
    var chunks := s.chunker.ChunksOf(first);
    if chunks[n].charStart <= x {
      var i := ChunkAt(s, first, x);
      var j := if i < n then n else i;
      ChunksGrow(s, first, i, j);
      assert HasIndex(stale, j);
      var k :| 0 <= k < |stale| && stale[k].chunkIndex == j;
      assert IsChunkOf(s, first, stale[k]);
    }
    forall i | 0 <= i < |stale| ensures chunks[n].charStart <= stale[i].charStart {
      assert IsChunkOf(s, first, stale[i]);
      ChunksGrow(s, first, n, stale[i].chunkIndex);
    }
  }

  /** Sorted parts of a text that cover exactly its characters from `from` on add those beyond the cursor. */
  lemma {:induction false} SuffixAdds(text: string, cs: seq<RetrievedChunk>, from: nat, cursor: nat)
    requires PartsOf(text, cs) && Monotone(cs) && SortedByIndex(cs) && from <= |text| && cursor <= |text|
    requires forall x :: 0 <= x < |text| ==> (Covered(cs, x) <==> from <= x)
    ensures Join(cs, cursor) == Slice(text, Max(cursor, from), |text|)
  {
    var lo := Max(cursor, from);
    JoinIsKept(text, cs, cursor);
    KeptSplit(text, cs, cursor, lo, |text|);
    KeptNone(text, cs, cursor, lo);
    KeptAll(text, cs, lo, |text|);
  }

  lemma {:induction false} ChunksInRange(s: Setup, first: string, cs: seq<RetrievedChunk>)
    requires s.chunker.Valid() && AllChunksOf(s, first, cs)
    ensures forall i :: 0 <= i < |cs| ==> 0 <= cs[i].chunkIndex < |s.chunker.ChunksOf(first)|
  {
    forall i | 0 <= i < |cs| ensures 0 <= cs[i].chunkIndex < |s.chunker.ChunksOf(first)| {
      assert IsChunkOf(s, first, cs[i]);
    }
  }

  /** Sorted chunks of `first`, all those from index `n` on and no others, add what lies beyond. */
  lemma {:induction false} TailAdds(s: Setup, first: string, stale: seq<RetrievedChunk>, n: nat, length: nat)
    requires s.chunker.Valid() && AllChunksOf(s, first, stale) && SortedByIndex(stale)
    requires forall j :: n <= j < |s.chunker.ChunksOf(first)| ==> HasIndex(stale, j)
    requires forall i :: 0 <= i < |stale| ==> stale[i].chunkIndex >= n
    ensures Join(stale, length) == Beyond(s, first, n, length)
  {
    var chunks := s.chunker.ChunksOf(first);
    ChunksArePartsInOrder(s, first, stale);
    if length >= |first| {
      JoinNothing(stale, length);
    } else if n < |chunks| {
      CL.OverlapLaw(s.chunker.chunkSize, s.chunker.chunkOverlap, s.chunker.separators, first, n);
      forall x | 0 <= x < |first| ensures Covered(stale, x) <==> chunks[n].charStart <= x {
        TailCovers(s, first, stale, n, x);
      }
      SuffixAdds(first, stale, chunks[n].charStart, length);
    } else {
      ChunksInRange(s, first, stale);
    }
  }

  /** The chunks from index `n` on are those of `first`, all of them. */
  predicate StaleOf(s: Setup, first: string, cs: seq<RetrievedChunk>, n: nat)
    requires s.chunker.Valid()
  {
    && (forall i :: 0 <= i < |cs| && cs[i].chunkIndex >= n ==> IsChunkOf(s, first, cs[i]))
    && (forall j :: n <= j < |s.chunker.ChunksOf(first)| ==> HasIndex(cs, j))
  }

  lemma {:induction false} StaleOfTail(s: Setup, first: string, cs: seq<RetrievedChunk>, n: nat, m: nat)
    requires s.chunker.Valid() && StaleOf(s, first, cs, n)
    requires var sorted := SortByIndex(cs);
      m <= |sorted| && forall i :: 0 <= i < |sorted| ==> (i < m <==> sorted[i].chunkIndex < n)
    ensures var stale := SortByIndex(cs)[m..];
      && AllChunksOf(s, first, stale) && SortedByIndex(stale)
      && (forall j :: n <= j < |s.chunker.ChunksOf(first)| ==> HasIndex(stale, j))
      && (forall i :: 0 <= i < |stale| ==> stale[i].chunkIndex >= n)
  {
    var sorted := SortByIndex(cs);
    var stale := sorted[m..];
    SortSorts(cs);
    SortedElements(cs);
    forall i | 0 <= i < |stale| ensures stale[i].chunkIndex >= n && IsChunkOf(s, first, stale[i]) {
      assert stale[i] == sorted[m + i] && sorted[m + i] in cs;
    }
    forall j | n <= j < |s.chunker.ChunksOf(first)| ensures HasIndex(stale, j) {
      assert HasIndex(cs, j);
      var i :| 0 <= i < |cs| && cs[i].chunkIndex == j;
      assert cs[i] in sorted;
      var k :| 0 <= k < |sorted| && sorted[k] == cs[i];
      assert stale[k - m].chunkIndex == j;
    }
  }

  /** New chunks followed by stale ones of `first` rebuild the new text and what of `first` lies beyond it. */
  lemma {:induction false} TwoTexts(s: Setup, text: string, first: string, cs: seq<RetrievedChunk>)
    requires s.chunker.Valid() && text != "" && NewThenStale(s, text, cs)
    requires StaleOf(s, first, cs, |s.chunker.ChunksOf(text)|)
    ensures Join(SortByIndex(cs), 0) == text + Beyond(s, first, |s.chunker.ChunksOf(text)|, |text|)
  {
    var n := |s.chunker.ChunksOf(text)|;
    var m := NewThenStaleText(s, text, cs);
    StaleOfTail(s, first, cs, n, m);
    TailAdds(s, first, SortByIndex(cs)[m..], n, |text|);
  }

  // ---------- Re-indexing in the store ----------

  /** No earlier chunk of the document that a scan finds after re-indexing ends beyond the new text. */
  predicate NoStaleTail(
    points: Points, clientId: string, corpusIds: seq<string>, documentId: string, n: nat, length: nat)
  {
    forall id ::
      id in points && points[id].documentId == documentId && InScope(points[id], clientId, corpusIds)
        && points[id].chunkIndex >= n ==>
      points[id].charEnd <= length
  }

  /** The stored form of one of the new chunks, at its own id. */
  ghost predicate NewPoint(s: Setup, e: JobEnvelope, text: string, vectors: seq<Vector>, id: PointId, c: StoredChunk)
    requires s.chunker.Valid() && |vectors| == |s.chunker.ChunksOf(text)|
  {
    exists i ::
      0 <= i < |vectors| && id == ChunkIdFor(s.uuid5, e.documentId, i) && c == StoredAt(s, e, text, vectors, i)
  }

  /** What re-indexing leaves of the document: exactly the new chunks and the earlier points from index `n` on. */
  lemma {:induction false} ReindexedPoints(
    s: Setup, points: Points, e: JobEnvelope, text: string, vectors: seq<Vector>, id: PointId, c: StoredChunk)
    requires s.chunker.Valid() && Injective(s.uuid5) && |vectors| == |s.chunker.ChunksOf(text)|
    requires AllSlotted(s, points) && c.documentId == e.documentId
    ensures var after := ApplyOp(s, points, Indexed(e, text, vectors));
      (id in after && after[id] == c) <==>
        || NewPoint(s, e, text, vectors, id, c)
        || (id in points && points[id] == c && c.chunkIndex >= |vectors|)
  {
    var after := ApplyOp(s, points, Indexed(e, text, vectors));
    if NewPoint(s, e, text, vectors, id, c) {
      var i :|
        0 <= i < |vectors| && id == ChunkIdFor(s.uuid5, e.documentId, i) && c == StoredAt(s, e, text, vectors, i);
      IndexedSlot(s, points, e, text, vectors, e.documentId, i);
    } else if id in points && points[id] == c {
      assert Slotted(s, id, c);
      IndexedSlot(s, points, e, text, vectors, e.documentId, c.chunkIndex);
    } else if id in after && after[id] == c {
      var i := WrittenPoint(s, points, e, text, vectors, id);
    }
  }

  /** `later` holds the points of the document as they were after it was indexed again. */
  predicate SinceReindexed(
    s: Setup, points: Points, e: JobEnvelope, text: string, vectors: seq<Vector>, later: Points)
    requires s.chunker.Valid() && |vectors| == |s.chunker.ChunksOf(text)|
  {
    && AllSlotted(s, points) && AllSlotted(s, later)
    && SameOwn(ApplyOp(s, points, Indexed(e, text, vectors)), later, e.clientId, e.documentId)
  }

  /** The document's listed chunks after re-indexing: the new chunks followed by stale ones. */
  lemma {:induction false} ReindexedListing(
    s: Setup, points: Points, e: JobEnvelope, text: string, vectors: seq<Vector>, later: Points,
    corpusIds: seq<string>, limit: int)
    requires s.chunker.Valid() && Injective(s.uuid5) && |vectors| == |s.chunker.ChunksOf(text)|
    requires SinceReindexed(s, points, e, text, vectors, later) && e.corpusId in corpusIds
    requires |Matching(later, ScopeFilter(e.clientId, corpusIds))| <= limit
    ensures NewThenStale(s, text, OfDoc(ListedChunks(later, e.clientId, corpusIds, limit), e.documentId))
  {
    var after := ApplyOp(s, points, Indexed(e, text, vectors));
    var listed := ListedChunks(later, e.clientId, corpusIds, limit);
    var cs := OfDoc(listed, e.documentId);
    OfDocElements(listed, e.documentId);
    forall i | 0 <= i < |cs|
      ensures Sound(cs[i]) && 0 <= cs[i].chunkIndex && (cs[i].chunkIndex < |vectors| ==> IsChunkOf(s, text, cs[i]))
    {
      assert cs[i] in cs;
      var id := ListedIsStored(later, e.clientId, corpusIds, limit, cs[i]);
      assert Slotted(s, id, later[id]) && BelongsTo(later[id], e.clientId, e.documentId);
      if cs[i].chunkIndex < |vectors| {
        IndexedSlot(s, points, e, text, vectors, e.documentId, cs[i].chunkIndex);
        StoredAtIsChunk(s, e, text, vectors, cs[i].chunkIndex);
      }
    }
    forall i | 0 <= i < |vectors| ensures HasIndex(cs, i) {
      var k := ChunkIdFor(s.uuid5, e.documentId, i);
      IndexedSlot(s, points, e, text, vectors, e.documentId, i);
      ChunkIndexIs(s, text, i);
      assert BelongsTo(after[k], e.clientId, e.documentId);
      StoredIsListed(later, e.clientId, corpusIds, limit, k);
      assert Retrieved(later[k]) in cs;
      var j :| 0 <= j < |cs| && cs[j] == Retrieved(later[k]);
    }
  }

  /** A listed chunk from index `n` on is an earlier point of the document. */
  lemma {:induction false} ListedIsStale(
    s: Setup, points: Points, e: JobEnvelope, text: string, vectors: seq<Vector>, later: Points, id: PointId)
    requires s.chunker.Valid() && |vectors| == |s.chunker.ChunksOf(text)|
    requires SinceReindexed(s, points, e, text, vectors, later)
    requires id in later && BelongsTo(later[id], e.clientId, e.documentId) && later[id].chunkIndex >= |vectors|
    ensures id in points && points[id] == later[id]
  {
    var after := ApplyOp(s, points, Indexed(e, text, vectors));
    if !(id in points && after[id] == points[id]) {
      var j := WrittenPoint(s, points, e, text, vectors, id);
      ChunkIndexIs(s, text, j);
    }
  }

  lemma {:induction false} StaleIsListed(
    s: Setup, points: Points, e: JobEnvelope, text: string, vectors: seq<Vector>, later: Points, id: PointId)
    requires s.chunker.Valid() && Injective(s.uuid5) && |vectors| == |s.chunker.ChunksOf(text)|
    requires SinceReindexed(s, points, e, text, vectors, later)
    requires id in points && BelongsTo(points[id], e.clientId, e.documentId) && points[id].chunkIndex >= |vectors|
    ensures id in later && later[id] == points[id]
  {
    assert Slotted(s, id, points[id]);
    IndexedSlot(s, points, e, text, vectors, e.documentId, points[id].chunkIndex);
  }

  /** Listed chunks from index `n` on are the document's earlier points in scope from index `n` on. */
  lemma {:induction false} StaleListed(
    s: Setup, points: Points, e: JobEnvelope, text: string, vectors: seq<Vector>, later: Points,
    corpusIds: seq<string>, limit: int, length: nat)
    requires s.chunker.Valid() && Injective(s.uuid5) && |vectors| == |s.chunker.ChunksOf(text)|
    requires SinceReindexed(s, points, e, text, vectors, later)
    requires |Matching(later, ScopeFilter(e.clientId, corpusIds))| <= limit
    ensures var cs := OfDoc(ListedChunks(later, e.clientId, corpusIds, limit), e.documentId);
      NoStaleTail(points, e.clientId, corpusIds, e.documentId, |vectors|, length) <==>
        forall i :: 0 <= i < |cs| && cs[i].chunkIndex >= |vectors| ==> cs[i].charEnd <= length
  {
    var listed := ListedChunks(later, e.clientId, corpusIds, limit);
    var cs := OfDoc(listed, e.documentId);
    OfDocElements(listed, e.documentId);
    if NoStaleTail(points, e.clientId, corpusIds, e.documentId, |vectors|, length) {
      forall i | 0 <= i < |cs| && cs[i].chunkIndex >= |vectors| ensures cs[i].charEnd <= length {
        assert cs[i] in cs;
        var id := ListedIsStored(later, e.clientId, corpusIds, limit, cs[i]);
        ListedIsStale(s, points, e, text, vectors, later, id);
      }
    } else {
      var id :| id in points && points[id].documentId == e.documentId && InScope(points[id], e.clientId, corpusIds)
                && points[id].chunkIndex >= |vectors| && points[id].charEnd > length;
      StaleIsListed(s, points, e, text, vectors, later, id);
      StoredIsListed(later, e.clientId, corpusIds, limit, id);
      assert Retrieved(later[id]) in cs;
      var i :| 0 <= i < |cs| && cs[i] == Retrieved(later[id]);
    }
  }

  /** Re-indexing, exactly: as long as nothing else touches the document, scanning and assembling gives the
      new text if and only if no earlier chunk in scope beyond the number of new chunks ends beyond the end of
      the new text. */
  lemma {:induction false} ReindexExact(
    s: Setup, points: Points, e: JobEnvelope, text: string, vectors: seq<Vector>, later: Points,
    corpusIds: seq<string>, limit: int)
    requires s.chunker.Valid() && Injective(s.uuid5) && |vectors| == |s.chunker.ChunksOf(text)| && text != ""
    requires SinceReindexed(s, points, e, text, vectors, later) && e.corpusId in corpusIds
    requires |Matching(later, ScopeFilter(e.clientId, corpusIds))| <= limit
    ensures (DocText(ListedChunks(later, e.clientId, corpusIds, limit), e.documentId) == text) <==>
      NoStaleTail(points, e.clientId, corpusIds, e.documentId, |vectors|, |text|)
  {
    ReindexedListing(s, points, e, text, vectors, later, corpusIds, limit);
    StaleListed(s, points, e, text, vectors, later, corpusIds, limit, |text|);
    var listed := ListedChunks(later, e.clientId, corpusIds, limit);
    NewThenStaleJoins(s, text, OfDoc(listed, e.documentId));
    DocTextIs(listed, e.documentId);
  }

  lemma {:induction false} DocTextIs(listed: seq<RetrievedChunk>, documentId: string)
    ensures DocText(listed, documentId) == Join(SortByIndex(OfDoc(listed, documentId)), 0)
  {
  }

  /** At once after the index job. */
  lemma {:induction false} AtOnce(s: Setup, points: Points, e: JobEnvelope, text: string, vectors: seq<Vector>)
    requires s.chunker.Valid() && |vectors| == |s.chunker.ChunksOf(text)| && AllSlotted(s, points)
    ensures SinceReindexed(s, points, e, text, vectors, ApplyOp(s, points, Indexed(e, text, vectors)))
  {
    ApplySlotted(s, points, Indexed(e, text, vectors));
  }

  // ---------- One text after another ----------

  /** The chunks of the first text that the second one did not overwrite hide it: they are in the scan, there
      are more of them, and they reach further. */
  predicate Hides(
    s: Setup, e: JobEnvelope, first: string, clientId: string, corpusIds: seq<string>, n: nat, length: nat)
    requires s.chunker.Valid()
  {
    e.clientId == clientId && e.corpusId in corpusIds && |s.chunker.ChunksOf(first)| > n && |first| > length
  }

  /** What a scan still finds of the first text after a second one of `n` chunks and the given length. */
  function Leftover(
    s: Setup, e: JobEnvelope, first: string, clientId: string, corpusIds: seq<string>, n: nat, length: nat): string
    requires s.chunker.Valid()
  {
    if e.clientId == clientId && e.corpusId in corpusIds then Beyond(s, first, n, length) else ""
  }

  /** Something is left exactly when the first text hides the second. */
  lemma {:induction false} LeftoverIffHides(
    s: Setup, e: JobEnvelope, first: string, clientId: string, corpusIds: seq<string>, n: nat, length: nat)
    requires s.chunker.Valid()
    ensures Leftover(s, e, first, clientId, corpusIds, n, length) != "" <==>
      Hides(s, e, first, clientId, corpusIds, n, length)
  {
    if n < |s.chunker.ChunksOf(first)| && length < |first| {
      CL.OverlapLaw(s.chunker.chunkSize, s.chunker.chunkOverlap, s.chunker.separators, first, n);
    }
  }

  /** Before the second job, its client's points of the document are the first text, or there are none. */
  predicate FirstOnly(
    s: Setup, points: Points, e1: JobEnvelope, first: string, firstVectors: seq<Vector>, e2: JobEnvelope)
    requires s.chunker.Valid()
  {
    && e1.documentId == e2.documentId
    && if e1.clientId == e2.clientId then Holds(s, points, e1, first, firstVectors)
       else Absent(points, e2.clientId, e2.documentId)
  }

  /** A stale chunk in the scan is a chunk of the first text, which is then visible. */
  lemma {:induction false} StaleIsOfFirst(
    s: Setup, points: Points, e1: JobEnvelope, first: string, firstVectors: seq<Vector>,
    e: JobEnvelope, text: string, vectors: seq<Vector>, later: Points, corpusIds: seq<string>, limit: int,
    c: RetrievedChunk)
    requires s.chunker.Valid() && |vectors| == |s.chunker.ChunksOf(text)|
    requires SinceReindexed(s, points, e, text, vectors, later) && FirstOnly(s, points, e1, first, firstVectors, e)
    requires c in ListedChunks(later, e.clientId, corpusIds, limit) && c.documentId == e.documentId
    requires c.chunkIndex >= |vectors|
    ensures e1.clientId == e.clientId && e1.corpusId in corpusIds && IsChunkOf(s, first, c)
  {
    var id := ListedIsStored(later, e.clientId, corpusIds, limit, c);
    ListedIsStale(s, points, e, text, vectors, later, id);
    assert BelongsTo(points[id], e.clientId, e.documentId);
    StoredAtIsChunk(s, e1, first, firstVectors, points[id].chunkIndex);
  }

  /** A chunk of the first text that was not overwritten is in the scan, if the first text is visible. */
  lemma {:induction false} StaleHasIndex(
    s: Setup, points: Points, e1: JobEnvelope, first: string, firstVectors: seq<Vector>,
    e: JobEnvelope, text: string, vectors: seq<Vector>, later: Points, corpusIds: seq<string>, limit: int, j: nat)
    requires s.chunker.Valid() && Injective(s.uuid5) && |vectors| == |s.chunker.ChunksOf(text)|
    requires SinceReindexed(s, points, e, text, vectors, later) && FirstOnly(s, points, e1, first, firstVectors, e)
    requires e1.clientId == e.clientId && e1.corpusId in corpusIds && |vectors| <= j < |s.chunker.ChunksOf(first)|
    requires |Matching(later, ScopeFilter(e.clientId, corpusIds))| <= limit
    ensures HasIndex(OfDoc(ListedChunks(later, e.clientId, corpusIds, limit), e.documentId), j)
  {
    var listed := ListedChunks(later, e.clientId, corpusIds, limit);
    var cs := OfDoc(listed, e.documentId);
    var k := ChunkIdFor(s.uuid5, e1.documentId, j);
    ChunkIndexIs(s, first, j);
    StaleIsListed(s, points, e, text, vectors, later, k);
    StoredIsListed(later, e.clientId, corpusIds, limit, k);
    OfDocElements(listed, e.documentId);
    assert Retrieved(later[k]) in cs;
    var i :| 0 <= i < |cs| && cs[i] == Retrieved(later[k]);
  }

  /** One text after another: the rebuilt document is the second text followed by what is left of the first. */
  lemma {:induction false} SecondThenLeftover(
    s: Setup, points: Points, e1: JobEnvelope, first: string, firstVectors: seq<Vector>,
    e: JobEnvelope, text: string, vectors: seq<Vector>, later: Points, corpusIds: seq<string>, limit: int)
    requires s.chunker.Valid() && Injective(s.uuid5) && |vectors| == |s.chunker.ChunksOf(text)| && text != ""
    requires SinceReindexed(s, points, e, text, vectors, later) && FirstOnly(s, points, e1, first, firstVectors, e)
    requires e.corpusId in corpusIds && |Matching(later, ScopeFilter(e.clientId, corpusIds))| <= limit
    ensures DocText(ListedChunks(later, e.clientId, corpusIds, limit), e.documentId)
         == text + Leftover(s, e1, first, e.clientId, corpusIds, |vectors|, |text|)
  {
    var listed := ListedChunks(later, e.clientId, corpusIds, limit);
    var cs := OfDoc(listed, e.documentId);
    ReindexedListing(s, points, e, text, vectors, later, corpusIds, limit);
    DocTextIs(listed, e.documentId);
    OfDocElements(listed, e.documentId);
    forall i | 0 <= i < |cs| && cs[i].chunkIndex >= |vectors|
      ensures e1.clientId == e.clientId && e1.corpusId in corpusIds && IsChunkOf(s, first, cs[i])
    {
      assert cs[i] in cs;
      StaleIsOfFirst(s, points, e1, first, firstVectors, e, text, vectors, later, corpusIds, limit, cs[i]);
    }
    if e1.clientId == e.clientId && e1.corpusId in corpusIds {
      forall j | |vectors| <= j < |s.chunker.ChunksOf(first)| ensures HasIndex(cs, j) {
        StaleHasIndex(s, points, e1, first, firstVectors, e, text, vectors, later, corpusIds, limit, j);
      }
      TwoTexts(s, text, first, cs);
    } else {
      NewThenStaleJoins(s, text, cs);
    }
  }

  /** Two jobs, of any clients and corpora, index a document of which their clients have no points: the rebuilt
      document is the second text followed by what is left of the first. It is the second text if and only if
      the first one's chunks do not hide it. */
  lemma {:induction false} IndexTwiceExact(
    s: Setup, points: Points, e1: JobEnvelope, first: string, firstVectors: seq<Vector>,
    e2: JobEnvelope, second: string, vectors: seq<Vector>, corpusIds: seq<string>, limit: int)
    requires s.chunker.Valid() && Injective(s.uuid5) && e1.documentId == e2.documentId && e2.corpusId in corpusIds
    requires |firstVectors| == |s.chunker.ChunksOf(first)| && |vectors| == |s.chunker.ChunksOf(second)| && second != ""
    requires AllSlotted(s, points)
    requires Absent(points, e1.clientId, e1.documentId) && Absent(points, e2.clientId, e2.documentId)
    requires var once := ApplyOp(s, points, Indexed(e1, first, firstVectors));
      var twice := ApplyOp(s, once, Indexed(e2, second, vectors));
      |Matching(twice, ScopeFilter(e2.clientId, corpusIds))| <= limit
    ensures var once := ApplyOp(s, points, Indexed(e1, first, firstVectors));
      var twice := ApplyOp(s, once, Indexed(e2, second, vectors));
      var rebuilt := DocText(ListedChunks(twice, e2.clientId, corpusIds, limit), e2.documentId);
      && rebuilt == second + Leftover(s, e1, first, e2.clientId, corpusIds, |vectors|, |second|)
      && (rebuilt == second <==> !Hides(s, e1, first, e2.clientId, corpusIds, |vectors|, |second|))
  {
    var once := ApplyOp(s, points, Indexed(e1, first, firstVectors));
    var twice := ApplyOp(s, once, Indexed(e2, second, vectors));
    AtOnce(s, points, e1, first, firstVectors);
    AtOnce(s, once, e2, second, vectors);
    if e1.clientId == e2.clientId {
      IndexFresh(s, points, e1, first, firstVectors);
    } else {
      AbsentKept(s, points, Indexed(e1, first, firstVectors), e2.clientId, e2.documentId);
    }
    SecondThenLeftover(s, once, e1, first, firstVectors, e2, second, vectors, twice, corpusIds, limit);
    LeftoverIffHides(s, e1, first, e2.clientId, corpusIds, |vectors|, |second|);
  }

  // ---------- Re-indexing in runs ----------

  /** From the rows: an index job of the document SUCCEEDED, and no job has touched the document since. */
  predicate LastIndexed(st: State, n: nat) {
    && StatusOf(st, n, Succeeded) && st.published[n].jobType.IndexDocument?
    && KnownElsewhere(st, n, |st.published|, st.published[n].clientId, st.published[n].documentId)
  }

  /** The store before job `n` was worked on. */
  function StoreBefore(s: Setup, es: seq<Event>, n: nat): Points
    requires s.chunker.Valid() && Run(s, es).Some?
    requires n <= |Outsides(es)| <= |Run(s, es).value.published|
  {
    Contents(Sequential(s, Run(s, es).value.published, Outsides(es)[..n]))
  }

  lemma {:induction false} StoreBeforeIsReplay(s: Setup, es: seq<Event>, n: nat)
    requires s.chunker.Valid() && Run(s, es).Some? && n <= |Run(s, es).value.ops|
    ensures var st := Run(s, es).value;
      && |Outsides(es)| == |st.ops| <= |st.published| && OpsOk(s, st.ops)
      && StoreBefore(s, es, n) == Replay(s, st.ops[..n])
  {
    var st, os := Run(s, es).value, Outsides(es);
    SequentialRefinement(s, es);
    RunReplayed(s, es);
    forall i | 0 <= i < n ensures st.ops[..n][i] == OpAt(s, st.published, os[..n], i) {
      assert os[..n][..i] == os[..i];
    }
    SequentialIsReplay(s, st.published, os[..n], st.ops[..n]);
  }

  /** Job `n` indexed the text it extracted, into the store as it was, and the document is as it left it. */
  lemma {:induction false} SinceLastIndexed(s: Setup, es: seq<Event>, n: nat) returns (vectors: seq<Vector>)
    requires s.chunker.Valid() && Injective(s.uuid5) && Run(s, es).Some? && Punctual(es)
    requires LastIndexed(Run(s, es).value, n)
    ensures var st := Run(s, es).value;
      && n < |st.ops| == |Outsides(es)| <= |st.published| && Extracted(es, n).Some?
      && var text := Extracted(es, n).value;
         && st.ops[n] == Indexed(st.published[n], text, vectors) && |vectors| == |s.chunker.ChunksOf(text)|
         && SinceReindexed(s, StoreBefore(s, es, n), st.published[n], text, vectors, Contents(st.collection))
  {
    var st := Run(s, es).value;
    var e := st.published[n];
    RunReplayed(s, es);
    SucceededReturned(s, es, n);
    RecordedIsExtracted(s, es, n);
    StoreBeforeIsReplay(s, es, n);
    assert OpOk(s, st.ops[n]);
    vectors := st.ops[n].vectors;
    forall i | n < i < |st.ops| ensures Elsewhere(st.ops[i], e.clientId, e.documentId) {
      KnownElsewhereIs(s, es, n, |st.published|, e.clientId, e.documentId, i);
    }
    ReplayUpTo(s, st.ops, n);
    ElsewhereThrough(s, st.ops, n + 1, e.clientId, e.documentId);
    ReplaySlotted(s, st.ops[..n]);
    ReplaySlotted(s, st.ops);
  }

  /** In every punctual run, from the rows: after an index job SUCCEEDED, and while no job touches the document, each
      chunk of the extracted text is stored with the vector that the worker got for it, under the job's client,
      corpus, document and file type. */
  lemma {:induction false} RunIndexedFields(s: Setup, es: seq<Event>, n: nat, i: nat)
    requires s.chunker.Valid() && Injective(s.uuid5) && Run(s, es).Some? && Punctual(es)
    requires LastIndexed(Run(s, es).value, n)
    requires Extracted(es, n).Some? && i < |s.chunker.ChunksOf(Extracted(es, n).value)|
    ensures Embedded(es, n).Some? && i < |Embedded(es, n).value|
    ensures var st := Run(s, es).value; var points, e := Contents(st.collection), st.published[n];
      var k := ChunkIdFor(s.uuid5, e.documentId, i);
      && k in points
      && IsStored(points[k], k, e, i, s.chunker.ChunksOf(Extracted(es, n).value)[i], Embedded(es, n).value[i])
  {
    var st := Run(s, es).value;
    var e, text := st.published[n], Extracted(es, n).value;
    var vectors := SinceLastIndexed(s, es, n);
    var points := StoreBefore(s, es, n);
    RecordedIsExtracted(s, es, n);
    IndexedFields(s, points, e, text, vectors, i);
    var k, after := ChunkIdFor(s.uuid5, e.documentId, i), ApplyOp(s, points, Indexed(e, text, vectors));
    assert BelongsTo(after[k], e.clientId, e.documentId);
  }

  /** What is listed of the document, up to the number of its chunks, carries the job's corpus and file type, and the
      text and span of its chunk. */
  lemma {:induction false} RunListedAgain(
    s: Setup, es: seq<Event>, n: nat, corpusIds: seq<string>, limit: int, c: RetrievedChunk)
    requires s.chunker.Valid() && Injective(s.uuid5) && Run(s, es).Some? && Punctual(es)
    requires LastIndexed(Run(s, es).value, n) && Extracted(es, n).Some?
    requires var st := Run(s, es).value;
      && c in ListedChunks(Contents(st.collection), st.published[n].clientId, corpusIds, limit)
      && c.documentId == st.published[n].documentId && c.chunkIndex < |s.chunker.ChunksOf(Extracted(es, n).value)|
    ensures var e := Run(s, es).value.published[n];
      && c.clientId == e.clientId && c.corpusId == e.corpusId && c.fileType == e.fileType
      && IsChunkOf(s, Extracted(es, n).value, c)
  {
    var st := Run(s, es).value;
    var points := Contents(st.collection);
    RunReplayed(s, es);
    ReplaySlotted(s, st.ops);
    ListedFields(s, points, st.published[n].clientId, corpusIds, limit, c);
    assert Slotted(s, c.chunkId, points[c.chunkId]);
    RunIndexedFields(s, es, n, c.chunkIndex);
  }

  /** Re-indexing in every punctual run, exactly and from the rows: after an index job SUCCEEDED, and while no
      job touches the document, it is rebuilt as the text extracted for that job if and only if the store held no
      stale tail when the worker got to the job. */
  lemma {:induction false} RunReindexed(s: Setup, es: seq<Event>, n: nat, corpusIds: seq<string>, limit: int)
    requires s.chunker.Valid() && Injective(s.uuid5) && Run(s, es).Some? && Punctual(es)
    requires LastIndexed(Run(s, es).value, n) && Run(s, es).value.published[n].corpusId in corpusIds
    requires var st := Run(s, es).value;
      |Matching(Contents(st.collection), ScopeFilter(st.published[n].clientId, corpusIds))| <= limit
    ensures var st := Run(s, es).value; var e := st.published[n];
      && n <= |Outsides(es)| <= |st.published| && Extracted(es, n).Some?
      && var text := Extracted(es, n).value;
         var rebuilt := DocText(ListedChunks(Contents(st.collection), e.clientId, corpusIds, limit), e.documentId);
         (text != "" ==>
           (rebuilt == text <==>
             NoStaleTail(StoreBefore(s, es, n), e.clientId, corpusIds, e.documentId,
                         |s.chunker.ChunksOf(text)|, |text|)))
  {
    var st := Run(s, es).value;
    var vectors := SinceLastIndexed(s, es, n);
    var text := Extracted(es, n).value;
    if text != "" {
      ReindexExact(s, StoreBefore(s, es, n), st.published[n], text, vectors, Contents(st.collection), corpusIds, limit);
    }
  }

  /** In every punctual run in which a document was indexed by job `m`, when its client had no chunks of it, and
      then by job `n`, and no other job has touched it: the rebuilt document is the later text, followed by what
      is left of the earlier one. It is the later text if and only if the earlier one's chunks do not hide it. */
  lemma {:induction false} RunIndexedTwice(
    s: Setup, es: seq<Event>, from: nat, m: nat, n: nat, corpusIds: seq<string>, limit: int)
    requires s.chunker.Valid() && Injective(s.uuid5) && Run(s, es).Some? && Punctual(es) && m < n
    requires LastIndexed(Run(s, es).value, n) && Run(s, es).value.published[n].corpusId in corpusIds
    requires var st := Run(s, es).value; var e := st.published[n];
      && StatusOf(st, m, Succeeded) && JobOf(st.published[m], IndexDocument, e.clientId, e.documentId)
      && KnownAbsent(st, from, m, e.clientId, e.documentId) && KnownElsewhere(st, m, n, e.clientId, e.documentId)
      && |Matching(Contents(st.collection), ScopeFilter(e.clientId, corpusIds))| <= limit
    ensures var st := Run(s, es).value; var e := st.published[n];
      && Extracted(es, m).Some? && Extracted(es, n).Some?
      && var first, second := Extracted(es, m).value, Extracted(es, n).value;
         var count := |s.chunker.ChunksOf(second)|;
         var rebuilt := DocText(ListedChunks(Contents(st.collection), e.clientId, corpusIds, limit), e.documentId);
         (second != "" ==>
           && rebuilt == second + Leftover(s, st.published[m], first, e.clientId, corpusIds, count, |second|)
           && (rebuilt == second <==> !Hides(s, st.published[m], first, e.clientId, corpusIds, count, |second|)))
  {
    var st := Run(s, es).value;
    var e := st.published[n];
    var vectors := SinceLastIndexed(s, es, n);
    RunReplayed(s, es);
    SucceededReturned(s, es, m);
    RecordedIsExtracted(s, es, m);
    KnownAbsentIs(s, es, from, m, e.clientId, e.documentId);
    HeldUntil(s, es, m, n);
    StoreBeforeIsReplay(s, es, n);
    var first, second := st.ops[m], Extracted(es, n).value;
    if second != "" {
      SecondThenLeftover(s, StoreBefore(s, es, n), st.published[m], first.text, first.vectors, e, second, vectors,
                         Contents(st.collection), corpusIds, limit);
      LeftoverIffHides(s, st.published[m], first.text, e.clientId, corpusIds, |vectors|, |second|);
    }
  }

  lemma {:induction false} HeldUntil(s: Setup, es: seq<Event>, m: nat, n: nat)
    requires s.chunker.Valid() && Injective(s.uuid5) && Run(s, es).Some? && Punctual(es)
    requires var st := Run(s, es).value;
      && OpsOk(s, st.ops) && m < n <= |st.ops| <= |st.published|
      && st.ops[m].Indexed? && st.ops[m].envelope == st.published[m]
      && Absent(Replay(s, st.ops[..m]), st.published[m].clientId, st.published[m].documentId)
      && KnownElsewhere(st, m, n, st.published[m].clientId, st.published[m].documentId)
    ensures var st := Run(s, es).value;
      Holds(s, Replay(s, st.ops[..n]), st.published[m], st.ops[m].text, st.ops[m].vectors)
  {
    var st := Run(s, es).value;
    var e, op, ops := st.published[m], st.ops[m], st.ops[..n];
    forall i | m < i < |ops| ensures Elsewhere(ops[i], e.clientId, e.documentId) {
      KnownElsewhereIs(s, es, m, n, e.clientId, e.documentId, i);
    }
    assert ops[..m] == st.ops[..m];
    IndexedOnce(s, ops, m, Document(e, op.text, op.vectors));
  }

  // ---------- Two jobs that index a shorter text ----------

  /** Outside calls that return a text and its vectors. */
  function Extracting(text: string, vectors: seq<Vector>): Outside {
    Outside(Ok(text), Ok(vectors), None, None)
  }

  lemma {:induction false} IndexWorks(
    s: Setup, e: JobEnvelope, text: string, vectors: seq<Vector>, collection: Option<Points>)
    requires s.chunker.Valid() && |vectors| == |s.chunker.ChunksOf(text)| && text != ""
    requires e.jobType.IndexDocument? && e.filePath.Some? && e.filePath.value != ""
    ensures var w := WorkOn(s, e, Extracting(text, vectors), collection);
      w.result.Ok? && w.op == Indexed(e, text, vectors)
  {
    CL.ChunksEmpty(s.chunker.chunkSize, s.chunker.chunkOverlap, s.chunker.separators, text);
  }

  /** One calm round of an index job in a resting pipeline. */
  lemma {:induction false} IndexRound(
    s: Setup, es: seq<Event>, q: IndexRequest, e: JobEnvelope, text: string, vectors: seq<Vector>)
    returns (round: seq<Event>)
    requires s.chunker.Valid() && Run(s, es).Some? && Resting(Run(s, es).value)
    requires IndexSubmission(q, e.jobId, e.documentId) == Ok(e) && e.jobId !in Run(s, es).value.rows
    requires |vectors| == |s.chunker.ChunksOf(text)| && text != ""
    ensures Calm(round) && Punctual(round) && Run(s, es + round).Some?
    ensures var st, st' := Run(s, es).value, Run(s, es + round).value;
      && Resting(st') && st'.published == st.published + [e] && st'.ops == st.ops + [Indexed(e, text, vectors)]
      && st'.rows == st.rows[e.jobId := NewRow(e).(status := Succeeded)]
  {
    IndexWorks(s, e, text, vectors, Run(s, es).value.collection);
    round := RoundSucceeds(s, es, CreateIndex(q, e.jobId, e.documentId), e, Extracting(text, vectors));
  }

  /** Any two texts can be indexed for one document by two calm jobs of one run. */
  lemma {:induction false} TwoIndexJobs(
    s: Setup, q: IndexRequest, e1: JobEnvelope, first: string, firstVectors: seq<Vector>,
    e2: JobEnvelope, second: string, vectors: seq<Vector>)
    returns (es: seq<Event>)
    requires s.chunker.Valid() && e1.jobId != e2.jobId && first != "" && second != ""
    requires IndexSubmission(q, e1.jobId, e1.documentId) == Ok(e1)
    requires IndexSubmission(q, e2.jobId, e2.documentId) == Ok(e2)
    requires |firstVectors| == |s.chunker.ChunksOf(first)| && |vectors| == |s.chunker.ChunksOf(second)|
    ensures Run(s, es).Some? && Calm(es) && Punctual(es)
    ensures var st := Run(s, es).value;
      && st.published == [e1, e2] && StatusOf(st, 0, Succeeded) && StatusOf(st, 1, Succeeded)
      && st.ops == [Indexed(e1, first, firstVectors), Indexed(e2, second, vectors)]
  {
    var one := IndexRound(s, [], q, e1, first, firstVectors);
    assert [] + one == one;
    var two := IndexRound(s, one, q, e2, second, vectors);
    es := one + two;
  }

  lemma {:induction false} TwoJobsRebuild(
    s: Setup, es: seq<Event>, e1: JobEnvelope, e2: JobEnvelope, corpusIds: seq<string>, limit: int)
    requires s.chunker.Valid() && Injective(s.uuid5) && Run(s, es).Some? && Punctual(es) && e2.corpusId in corpusIds
    requires JobOf(e1, IndexDocument, e2.clientId, e2.documentId) && e2.jobType.IndexDocument?
    requires var st := Run(s, es).value;
      && st.published == [e1, e2] && StatusOf(st, 0, Succeeded) && StatusOf(st, 1, Succeeded)
      && |st.ops| == 2 && st.ops[0].Indexed? && st.ops[1].Indexed? && st.ops[1].text != ""
      && |Matching(Contents(st.collection), ScopeFilter(e2.clientId, corpusIds))| <= limit
    ensures var st := Run(s, es).value; var first, second := st.ops[0].text, st.ops[1].text;
      DocText(ListedChunks(Contents(st.collection), e2.clientId, corpusIds, limit), e2.documentId) == second <==>
        !Hides(s, e1, first, e2.clientId, corpusIds, |s.chunker.ChunksOf(second)|, |second|)
  {
    RecordedIsExtracted(s, es, 0);
    RecordedIsExtracted(s, es, 1);
    RunIndexedTwice(s, es, 0, 0, 1, corpusIds, limit);
  }

  /** The run of two index jobs, both SUCCEEDED, after which the document is not rebuilt as the second text. */
  predicate Spoils(
    s: Setup, es: seq<Event>, e1: JobEnvelope, first: string, e2: JobEnvelope, second: string, limit: int)
    requires s.chunker.Valid()
  {
    && Run(s, es).Some? && Calm(es) && Punctual(es)
    && var st := Run(s, es).value;
       && st.published == [e1, e2] && StatusOf(st, 0, Succeeded) && StatusOf(st, 1, Succeeded)
       && Extracted(es, 0) == Some(first) && Extracted(es, 1) == Some(second)
       && (|Matching(Contents(st.collection), ScopeFilter(e2.clientId, [e2.corpusId]))| <= limit ==>
             DocText(ListedChunks(Contents(st.collection), e2.clientId, [e2.corpusId], limit), e2.documentId) != second)
  }

  /** Whenever the second text is shorter and has fewer chunks, such a run exists. */
  lemma {:induction false} ShorterTextSpoils(
    s: Setup, q: IndexRequest, e1: JobEnvelope, first: string, firstVectors: seq<Vector>,
    e2: JobEnvelope, second: string, vectors: seq<Vector>, limit: int)
    returns (es: seq<Event>)
    requires s.chunker.Valid() && Injective(s.uuid5) && e1.documentId == e2.documentId && e1.jobId != e2.jobId
    requires IndexSubmission(q, e1.jobId, e1.documentId) == Ok(e1)
    requires IndexSubmission(q, e2.jobId, e2.documentId) == Ok(e2)
    requires |firstVectors| == |s.chunker.ChunksOf(first)| && |vectors| == |s.chunker.ChunksOf(second)|
    requires |first| > |second| > 0 && |firstVectors| > |vectors|
    ensures Spoils(s, es, e1, first, e2, second, limit)
  {
    es := TwoIndexJobs(s, q, e1, first, firstVectors, e2, second, vectors);
    var st := Run(s, es).value;
    RecordedIsExtracted(s, es, 0);
    RecordedIsExtracted(s, es, 1);
    if |Matching(Contents(st.collection), ScopeFilter(e2.clientId, [e2.corpusId]))| <= limit {
      TwoJobsRebuild(s, es, e1, e2, [e2.corpusId], limit);
    }
  }

  /** The documentation says that re-indexing overwrites the old points. It does not when the text gets
      shorter: with windows of one character, and whatever the separators, "ab" and then "c" rebuild something
      else than "c". */
  lemma {:induction false} ReindexCounterexample(
    uuid5: string -> PointId, seps: seq<string>, q: IndexRequest, e1: JobEnvelope, e2: JobEnvelope, v: Vector,
    limit: int)
    returns (es: seq<Event>)
    requires Injective(uuid5) && e1.documentId == e2.documentId && e1.jobId != e2.jobId
    requires IndexSubmission(q, e1.jobId, e1.documentId) == Ok(e1)
    requires IndexSubmission(q, e2.jobId, e2.documentId) == Ok(e2)
    ensures Spoils(Setup(Chunking.RecursiveCharacterChunker(1, 0, seps), uuid5), es, e1, "ab", e2, "c", limit)
  {
    UnitChunks(seps, "ab");
    UnitChunks(seps, "c");
    es := ShorterTextSpoils(
      Setup(Chunking.RecursiveCharacterChunker(1, 0, seps), uuid5), q, e1, "ab", [v, v], e2, "c", [v], limit);
  }

  /** With windows of one character there are as many chunks as characters. */
  lemma {:induction false} UnitChunks(seps: seq<string>, text: string)
    ensures |CS.Chunks(1, 0, seps, text)| == |text|
  {
    CL.WindowsPartition(1, seps, text);
    CL.ChunksAreStretched(1, 0, seps, text);
    UnitTiles(CS.Windows(1, seps, text), 0, |text|);
  }

  lemma {:induction false} UnitTiles(ws: seq<CS.Span>, lo: nat, hi: nat)
    requires CL.Partition(ws, 1, lo, hi)
    ensures |ws| == hi - lo
    decreases |ws|
  {
    if ws != [] {
      assert ws[0] in ws && ws[0].Len() == 1;
      assert forall w :: w in ws[1..] ==> w in ws;
      UnitTiles(ws[1..], ws[0].end, hi);
    }
  }

  // ---------- Clients that use the same document id ----------

  /** Keys ignore the client. What one client's index job does to another client's scan, exactly: the scan is
      as before if and only if the other client had no chunk of a document with that id, in scope and below the
      number of new chunks. */
  lemma {:induction false} OtherClientsScan(
    s: Setup, points: Points, e: JobEnvelope, text: string, vectors: seq<Vector>,
    other: string, corpusIds: seq<string>, limit: int)
    requires s.chunker.Valid() && Injective(s.uuid5) && |vectors| == |s.chunker.ChunksOf(text)|
    requires AllSlotted(s, points) && other != e.clientId
    requires |Matching(points, ScopeFilter(other, corpusIds))| <= limit
    ensures var after := ApplyOp(s, points, Indexed(e, text, vectors));
      (ListedChunks(after, other, corpusIds, limit) == ListedChunks(points, other, corpusIds, limit)) <==>
        forall id :: id in points && points[id].documentId == e.documentId && InScope(points[id], other, corpusIds) ==>
          points[id].chunkIndex >= |vectors|
  {
    var after := ApplyOp(s, points, Indexed(e, text, vectors));
    if id :| id in points && points[id].documentId == e.documentId && InScope(points[id], other, corpusIds)
             && points[id].chunkIndex < |vectors| {
      assert Slotted(s, id, points[id]);
      IndexedSlot(s, points, e, text, vectors, e.documentId, points[id].chunkIndex);
      StoredIsListed(points, other, corpusIds, limit, id);
      ApplySlotted(s, points, Indexed(e, text, vectors));
      ListedAtId(s, after, other, corpusIds, limit, Retrieved(points[id]));
    } else {
      OthersKept(s, points, e, text, vectors, other, corpusIds);
      MatchingSame(points, after, ScopeFilter(other, corpusIds));
    }
  }

  lemma {:induction false} ListedAtId(
    s: Setup, points: Points, clientId: string, corpusIds: seq<string>, limit: int, c: RetrievedChunk)
    requires AllSlotted(s, points)
    ensures c in ListedChunks(points, clientId, corpusIds, limit) ==>
      c.chunkId in points && points[c.chunkId].clientId == clientId
  {
    if c in ListedChunks(points, clientId, corpusIds, limit) {
      var id := ListedIsStored(points, clientId, corpusIds, limit, c);
      assert Slotted(s, id, points[id]);
    }
  }

  lemma {:induction false} OthersKept(
    s: Setup, points: Points, e: JobEnvelope, text: string, vectors: seq<Vector>, other: string, corpusIds: seq<string>)
    requires s.chunker.Valid() && Injective(s.uuid5) && |vectors| == |s.chunker.ChunksOf(text)|
    requires AllSlotted(s, points) && other != e.clientId
    requires forall id ::
      id in points && points[id].documentId == e.documentId && InScope(points[id], other, corpusIds) ==>
        points[id].chunkIndex >= |vectors|
    ensures var after := ApplyOp(s, points, Indexed(e, text, vectors));
      && (forall id :: id in points && InScope(points[id], other, corpusIds) ==> id in after && after[id] == points[id])
      && (forall id :: id in after && InScope(after[id], other, corpusIds) ==> id in points && points[id] == after[id])
  {
    var after := ApplyOp(s, points, Indexed(e, text, vectors));
    forall id | id in points && InScope(points[id], other, corpusIds) ensures id in after && after[id] == points[id] {
      assert Slotted(s, id, points[id]);
      IndexedSlot(s, points, e, text, vectors, points[id].documentId, points[id].chunkIndex);
    }
    forall id | id in after && InScope(after[id], other, corpusIds) ensures id in points && points[id] == after[id] {
      if !(id in points && after[id] == points[id]) {
        var i := WrittenPoint(s, points, e, text, vectors, id);
      }
    }
  }
}
