/** From a text to the store and back: what a scan of the store rebuilds. */
module RoundTrip {
  import opened PyText
  import opened Ids
  import opened KeyedStore
  import CS = ChunkSpec
  import CL = ChunkLaws
  import opened VectorStore
  import opened Query
  import opened QueryLaws
  import opened Jobs
  import opened Worker
  import opened Pipeline
  import opened PipelineLaws
  import opened Effects
  import opened SequentialSpec
  import opened History

  // ---------- Chunks of one text ----------

  /** A retrieved chunk that is one of the text's chunks. */
  predicate IsChunkOf(s: Setup, text: string, c: RetrievedChunk)
    requires s.chunker.Valid()
  {
    var chunks := s.chunker.ChunksOf(text);
    && 0 <= c.chunkIndex < |chunks| && c.text == chunks[c.chunkIndex].text
    && c.charStart == chunks[c.chunkIndex].charStart && c.charEnd == chunks[c.chunkIndex].charEnd
  }

  predicate AllChunksOf(s: Setup, text: string, cs: seq<RetrievedChunk>)
    requires s.chunker.Valid()
  {
    forall i :: 0 <= i < |cs| ==> IsChunkOf(s, text, cs[i])
  }

  lemma {:induction false} ChunksGrowNext(s: Setup, text: string, i: nat)
    requires s.chunker.Valid() && i + 1 < |s.chunker.ChunksOf(text)|
    ensures var chunks := s.chunker.ChunksOf(text);
      chunks[i].charStart <= chunks[i + 1].charStart && chunks[i].charEnd < chunks[i + 1].charEnd
  {
    CL.OverlapLaw(s.chunker.chunkSize, s.chunker.chunkOverlap, s.chunker.separators, text, i);
  }

  /** Starts and ends grow with the index. */
  lemma {:induction false} ChunksGrow(s: Setup, text: string, i: nat, j: nat)
    requires s.chunker.Valid() && i <= j < |s.chunker.ChunksOf(text)|
    ensures var chunks := s.chunker.ChunksOf(text);
      chunks[i].charStart <= chunks[j].charStart && chunks[i].charEnd <= chunks[j].charEnd
    decreases j - i
  {
    if i < j {
      ChunksGrow(s, text, i, j - 1);
      ChunksGrowNext(s, text, j - 1);
    }
  }

  lemma {:induction false} ChunksArePartsInOrder(s: Setup, text: string, cs: seq<RetrievedChunk>)
    requires s.chunker.Valid() && AllChunksOf(s, text, cs)
    ensures PartsOf(text, cs) && Monotone(cs)
  {
    forall i | 0 <= i < |cs|
      ensures 0 <= cs[i].charStart < cs[i].charEnd <= |text| && cs[i].text == text[cs[i].charStart..cs[i].charEnd]
    {
      assert IsChunkOf(s, text, cs[i]);
      CL.OverlapLaw(s.chunker.chunkSize, s.chunker.chunkOverlap, s.chunker.separators, text, cs[i].chunkIndex);
    }
    forall i, j | 0 <= i < |cs| && 0 <= j < |cs| && cs[i].chunkIndex <= cs[j].chunkIndex
      ensures cs[i].charStart <= cs[j].charStart && cs[i].charEnd <= cs[j].charEnd
    {
      assert IsChunkOf(s, text, cs[i]) && IsChunkOf(s, text, cs[j]);
      ChunksGrow(s, text, cs[i].chunkIndex, cs[j].chunkIndex);
    }
  }

  /** Partial assembly for the chunker: any of a text's chunks, in any order and number, rebuild exactly
      the characters they cover. */
  lemma {:induction false} ChunksRebuildCovered(s: Setup, text: string, cs: seq<RetrievedChunk>)
    requires s.chunker.Valid() && AllChunksOf(s, text, cs)
    ensures Join(SortByIndex(cs), 0) == Kept(text, cs, 0, |text|)
  {
    ChunksArePartsInOrder(s, text, cs);
    PartialAssembly(text, cs);
  }

  /** Every position of the text lies in some window, hence in some chunk. */
  lemma {:induction false} WindowOf(ws: seq<CS.Span>, lo: nat, hi: nat, x: nat) returns (i: nat)
    requires CS.Tiles(ws, lo, hi) && lo <= x < hi
    ensures i < |ws| && ws[i].start <= x < ws[i].end
    decreases |ws|
  {
    if x < ws[0].end {
      i := 0;
    } else {
      i := WindowOf(ws[1..], ws[0].end, hi, x);
      i := i + 1;
    }
  }

  lemma {:induction false} ChunkAt(s: Setup, text: string, x: nat) returns (i: nat)
    requires s.chunker.Valid() && x < |text|
    ensures i < |s.chunker.ChunksOf(text)|
    ensures s.chunker.ChunksOf(text)[i].charStart <= x < s.chunker.ChunksOf(text)[i].charEnd
  {
    var c := s.chunker;
    CL.WindowsPartition(c.chunkSize, c.separators, text);
    CL.ChunksAreStretched(c.chunkSize, c.chunkOverlap, c.separators, text);
    i := WindowOf(CS.Windows(c.chunkSize, c.separators, text), 0, |text|, x);
    CL.OverlapLaw(c.chunkSize, c.chunkOverlap, c.separators, text, i);
  }

  predicate HasIndex(cs: seq<RetrievedChunk>, i: int) {
    exists j :: 0 <= j < |cs| && cs[j].chunkIndex == i
  }

  predicate HasEveryChunk(s: Setup, text: string, cs: seq<RetrievedChunk>)
    requires s.chunker.Valid()
  {
    forall i :: 0 <= i < |s.chunker.ChunksOf(text)| ==> HasIndex(cs, i)
  }

  lemma {:induction false} EveryChunkCovers(s: Setup, text: string, cs: seq<RetrievedChunk>, x: nat)
    requires s.chunker.Valid() && AllChunksOf(s, text, cs) && HasEveryChunk(s, text, cs) && x < |text|
    ensures Covered(cs, x)
  {
    var i := ChunkAt(s, text, x);
    assert HasIndex(cs, i);
    var j :| 0 <= j < |cs| && cs[j].chunkIndex == i;
    assert IsChunkOf(s, text, cs[j]);
  }

  /** All chunks of a text, in any order and with any repeats, rebuild the text: the overlap arithmetic of
      the chunker is exactly undone. */
  lemma {:induction false} ChunksRebuildText(s: Setup, text: string, cs: seq<RetrievedChunk>)
    requires s.chunker.Valid() && AllChunksOf(s, text, cs) && HasEveryChunk(s, text, cs)
    ensures Join(SortByIndex(cs), 0) == text
  {
    ChunksRebuildCovered(s, text, cs);
    forall x | 0 <= x < |text| ensures Covered(cs, x) {
      EveryChunkCovers(s, text, cs, x);
    }
    KeptAll(text, cs, 0, |text|);
  }

  // ---------- What a scan lists ----------

  /** Listed chunks are stored points in scope. */
  lemma {:induction false} ListedIsStored(
    points: Points, clientId: string, corpusIds: seq<string>, limit: int, c: RetrievedChunk)
    returns (id: PointId)
    requires c in ListedChunks(points, clientId, corpusIds, limit)
    ensures id in points && InScope(points[id], clientId, corpusIds) && c == Retrieved(points[id])
  {
    var filter := ScopeFilter(clientId, corpusIds);
    var ids, found := MatchingIds(points, filter), Scan(points, filter, limit);
    var j :| 0 <= j < |MapAll(Retrieved, found)| && MapAll(Retrieved, found)[j] == c;
    MapAt(Retrieved, found, j);
    PointsAtIndex(points, ids, j);
    id := ids[j];
  }

  /** With room for all matches, every stored point in scope is listed. */
  lemma {:induction false} StoredIsListed(
    points: Points, clientId: string, corpusIds: seq<string>, limit: int, id: PointId)
    requires id in points && InScope(points[id], clientId, corpusIds)
    requires |Matching(points, ScopeFilter(clientId, corpusIds))| <= limit
    ensures Retrieved(points[id]) in ListedChunks(points, clientId, corpusIds, limit)
  {
    var filter := ScopeFilter(clientId, corpusIds);
    var ids, found := MatchingIds(points, filter), Scan(points, filter, limit);
    assert id in Candidates(points, filter, None);
    var j :| 0 <= j < |ids| && ids[j] == id;
    PointsAtIndex(points, ids, j);
    MapAt(Retrieved, found, j);
    assert MapAll(Retrieved, found)[j] == Retrieved(points[id]);
  }

  /** A listed chunk agrees with a point on every field of the payload. */
  predicate SamePayload(c: RetrievedChunk, p: StoredChunk) {
    && c.chunkId == p.chunkId && c.documentId == p.documentId && c.corpusId == p.corpusId && c.clientId == p.clientId
    && c.chunkIndex == p.chunkIndex && c.charStart == p.charStart && c.charEnd == p.charEnd
    && c.text == p.text && c.fileType == p.fileType
  }

  /** A scan lists only chunks of the asking client and the requested corpora, each with the payload of the point
      stored at its id, and unscored. */
  lemma {:induction false} ListedFields(
    s: Setup, points: Points, clientId: string, corpusIds: seq<string>, limit: int, c: RetrievedChunk)
    requires AllSlotted(s, points) && c in ListedChunks(points, clientId, corpusIds, limit)
    ensures c.clientId == clientId && c.corpusId in corpusIds && c.score == 0.0
    ensures c.chunkId in points && SamePayload(c, points[c.chunkId])
  {
    var id := ListedIsStored(points, clientId, corpusIds, limit, c);
    assert Slotted(s, id, points[id]);
  }

  /** A scan that leaves out a point in scope is full, and lists only points before it in id order. */
  lemma {:induction false} ListedFirst(
    s: Setup, points: Points, clientId: string, corpusIds: seq<string>, limit: nat, id: PointId)
    requires AllSlotted(s, points) && id in points && InScope(points[id], clientId, corpusIds)
    requires forall c :: c in ListedChunks(points, clientId, corpusIds, limit) ==> c.chunkId != id
    ensures |ListedChunks(points, clientId, corpusIds, limit)| == limit
    ensures forall c :: c in ListedChunks(points, clientId, corpusIds, limit) ==> c.chunkId < id
  {
    var filter := ScopeFilter(clientId, corpusIds);
    var ids, found := MatchingIds(points, filter), Scan(points, filter, limit);
    forall j | 0 <= j < |found| ensures MapAll(Retrieved, found)[j].chunkId == ids[j] && ids[j] != id {
      MapAt(Retrieved, found, j);
      PointsAtIndex(points, ids, j);
      assert Slotted(s, ids[j], points[ids[j]]);
      assert MapAll(Retrieved, found)[j] in MapAll(Retrieved, found);
    }
    ScanIsFirst(points, filter, limit, id);
  }

  lemma {:induction false} StoredAtIsChunk(s: Setup, e: JobEnvelope, text: string, vectors: seq<Vector>, i: nat)
    requires s.chunker.Valid() && |vectors| == |s.chunker.ChunksOf(text)| && i < |vectors|
    ensures IsChunkOf(s, text, Retrieved(StoredAt(s, e, text, vectors, i)))
  {
    ChunkIndexIs(s, text, i);
  }

  /** What is listed of a held document are chunks of its text. */
  lemma {:induction false} ListedChunksOfText(
    s: Setup, points: Points, e: JobEnvelope, text: string, vectors: seq<Vector>, corpusIds: seq<string>, limit: int)
    requires s.chunker.Valid() && Holds(s, points, e, text, vectors)
    ensures AllChunksOf(s, text, OfDoc(ListedChunks(points, e.clientId, corpusIds, limit), e.documentId))
  {
    var listed := ListedChunks(points, e.clientId, corpusIds, limit);
    var cs := OfDoc(listed, e.documentId);
    OfDocElements(listed, e.documentId);
    forall i | 0 <= i < |cs| ensures IsChunkOf(s, text, cs[i]) {
      assert cs[i] in cs;
      var id := ListedIsStored(points, e.clientId, corpusIds, limit, cs[i]);
      StoredAtIsChunk(s, e, text, vectors, points[id].chunkIndex);
    }
  }

  /** A scan cut short by its limit still gives, for each held document, exactly the original characters
      that the listed chunks cover, each once and in order. */
  lemma {:induction false} TruncatedScan(
    s: Setup, points: Points, e: JobEnvelope, text: string, vectors: seq<Vector>, corpusIds: seq<string>, limit: int)
    requires s.chunker.Valid() && Holds(s, points, e, text, vectors)
    ensures var listed := ListedChunks(points, e.clientId, corpusIds, limit);
      DocText(listed, e.documentId) == Kept(text, OfDoc(listed, e.documentId), 0, |text|)
  {
    ListedChunksOfText(s, points, e, text, vectors, corpusIds, limit);
    ChunksRebuildCovered(s, text, OfDoc(ListedChunks(points, e.clientId, corpusIds, limit), e.documentId));
  }

  /** A full scan rebuilds every held document in scope: the original text, character for character. */
  lemma {:induction false} FullScanRebuilds(
    s: Setup, points: Points, e: JobEnvelope, text: string, vectors: seq<Vector>, corpusIds: seq<string>, limit: int)
    requires s.chunker.Valid() && Holds(s, points, e, text, vectors) && text != "" && e.corpusId in corpusIds
    requires |Matching(points, ScopeFilter(e.clientId, corpusIds))| <= limit
    ensures (e.documentId, text) in Assemble(ListedChunks(points, e.clientId, corpusIds, limit))
  {
    var listed := ListedChunks(points, e.clientId, corpusIds, limit);
    var cs := OfDoc(listed, e.documentId);
    ListedChunksOfText(s, points, e, text, vectors, corpusIds, limit);
    OfDocElements(listed, e.documentId);
    forall i | 0 <= i < |vectors| ensures HasIndex(cs, i) {
      var k := ChunkIdFor(s.uuid5, e.documentId, i);
      ChunkIndexIs(s, text, i);
      StoredIsListed(points, e.clientId, corpusIds, limit, k);
      assert Retrieved(points[k]) in cs;
      var j :| 0 <= j < |cs| && cs[j] == Retrieved(points[k]);
    }
    ChunksRebuildText(s, text, cs);
    CL.ChunksEmpty(s.chunker.chunkSize, s.chunker.chunkOverlap, s.chunker.separators, text);
    DocOrderElements(listed);
    ListedDocument(listed, e.documentId);
  }

  lemma {:induction false} ListedDocument(chunks: seq<RetrievedChunk>, d: string)
    requires OfDoc(chunks, d) != []
    ensures (d, DocText(chunks, d)) in Assemble(chunks)
  {
    DocOrderElements(chunks);
    var i :| 0 <= i < |DocOrder(chunks)| && DocOrder(chunks)[i] == d;
    TextsAt(chunks, DocOrder(chunks), i);
    assert Assemble(chunks)[i] == (d, DocText(chunks, d));
  }

  /** Every assembled entry is a listed document with its text, and no document occurs twice. */
  lemma {:induction false} AssembledDocuments(chunks: seq<RetrievedChunk>)
    ensures var docs := Assemble(chunks);
      && (forall i :: 0 <= i < |docs| ==> OfDoc(chunks, docs[i].0) != [] && docs[i].1 == DocText(chunks, docs[i].0))
      && (forall i, j :: 0 <= i < j < |docs| ==> docs[i].0 != docs[j].0)
  {
    var order := DocOrder(chunks);
    DocOrderElements(chunks);
    forall i | 0 <= i < |order|
      ensures Assemble(chunks)[i] == (order[i], DocText(chunks, order[i])) && order[i] in order
    {
      TextsAt(chunks, order, i);
    }
  }

  // ---------- End to end ----------

  /** A document to index: its envelope, its text, and one vector for each chunk. */
  datatype Document = Document(envelope: JobEnvelope, text: string, vectors: seq<Vector>)

  predicate Fits(s: Setup, d: Document)
    requires s.chunker.Valid()
  {
    |d.vectors| == |s.chunker.ChunksOf(d.text)|
  }

  /** Non-empty texts, distinct document ids, one client, and corpora among the given ones. */
  predicate Ready(s: Setup, docs: seq<Document>, clientId: string, corpusIds: seq<string>)
    requires s.chunker.Valid()
  {
    && (forall i :: 0 <= i < |docs| ==>
          && Fits(s, docs[i]) && docs[i].text != ""
          && docs[i].envelope.clientId == clientId && docs[i].envelope.corpusId in corpusIds)
    && (forall i, j :: 0 <= i < j < |docs| ==> docs[i].envelope.documentId != docs[j].envelope.documentId)
  }

  function OpOf(d: Document): StoreOp { Indexed(d.envelope, d.text, d.vectors) }

  /** Index the documents one after the other. */
  function IndexOps(s: Setup, docs: seq<Document>): (ops: seq<StoreOp>)
    requires s.chunker.Valid() && forall i :: 0 <= i < |docs| ==> Fits(s, docs[i])
    ensures OpsOk(s, ops) && |ops| == |docs| && forall i :: 0 <= i < |docs| ==> ops[i] == OpOf(docs[i])
  {
    if docs == [] then []
    else
      var n := |docs| - 1;
      assert Fits(s, docs[n]) && OpOk(s, OpOf(docs[n]));
      IndexOps(s, docs[..n]) + [OpOf(docs[n])]
  }

  lemma {:induction false} HeldOnceIndexed(s: Setup, ops: seq<StoreOp>, n: nat, d: Document)
    requires s.chunker.Valid() && Injective(s.uuid5) && OpsOk(s, ops) && n < |ops| && ops[n] == OpOf(d)
    requires Absent(Replay(s, ops[..n]), d.envelope.clientId, d.envelope.documentId)
    ensures Fits(s, d) && Holds(s, Replay(s, ops[..n + 1]), d.envelope, d.text, d.vectors)
  {
    assert OpOk(s, ops[n]);
    ReplayUpTo(s, ops, n);
    IndexFresh(s, Replay(s, ops[..n]), d.envelope, d.text, d.vectors);
  }

  /** A document indexed when its client had no points of it is held until a later effect touches it. */
  lemma {:induction false} IndexedOnce(s: Setup, ops: seq<StoreOp>, n: nat, d: Document)
    requires s.chunker.Valid() && Injective(s.uuid5) && OpsOk(s, ops) && n < |ops| && ops[n] == OpOf(d)
    requires Absent(Replay(s, ops[..n]), d.envelope.clientId, d.envelope.documentId)
    requires forall i :: n < i < |ops| ==> Elsewhere(ops[i], d.envelope.clientId, d.envelope.documentId)
    ensures Fits(s, d) && Holds(s, Replay(s, ops), d.envelope, d.text, d.vectors)
  {
    HeldOnceIndexed(s, ops, n, d);
    ElsewhereThrough(s, ops, n + 1, d.envelope.clientId, d.envelope.documentId);
    HoldsSame(s, Replay(s, ops[..n + 1]), Replay(s, ops), d.envelope, d.text, d.vectors);
  }

  /** Each document indexed once, from an empty store, is held in the end. */
  lemma {:induction false} EachHeld(s: Setup, docs: seq<Document>, clientId: string, corpusIds: seq<string>, i: nat)
    requires s.chunker.Valid() && Injective(s.uuid5) && Ready(s, docs, clientId, corpusIds) && i < |docs|
    ensures Holds(s, Replay(s, IndexOps(s, docs)), docs[i].envelope, docs[i].text, docs[i].vectors)
  {
    var ops := IndexOps(s, docs);
    AbsentThrough(s, ops[..i], 0, docs[i].envelope.clientId, docs[i].envelope.documentId);
    IndexedOnce(s, ops, i, docs[i]);
  }

  /** Whatever is found in the store belongs to one of the documents. */
  lemma {:induction false} PointOfSome(
    s: Setup, docs: seq<Document>, clientId: string, corpusIds: seq<string>, id: PointId)
    requires s.chunker.Valid() && Ready(s, docs, clientId, corpusIds)
    requires id in Replay(s, IndexOps(s, docs))
    ensures exists i :: 0 <= i < |docs| && docs[i].envelope.documentId == Replay(s, IndexOps(s, docs))[id].documentId
    decreases |docs|
  {
    if docs != [] {
      var n := |docs| - 1;
      var before, op := IndexOps(s, docs)[..n], IndexOps(s, docs)[n];
      var points, after := Replay(s, before), Replay(s, IndexOps(s, docs));
      assert before == IndexOps(s, docs[..n]);
      if id in points && after[id] == points[id] {
        PointOfSome(s, docs[..n], clientId, corpusIds, id);
        var i :| 0 <= i < n && docs[..n][i].envelope.documentId == points[id].documentId;
        assert docs[i].envelope.documentId == after[id].documentId;
      } else {
        var i := WrittenPoint(s, points, op.envelope, op.text, op.vectors, id);
      }
    }
  }

  /** End-to-end identity: chunk each document, key and upsert its chunks, scan the store by pages with
      room for all, and assemble. The result is each document with its original text, nothing else, and
      no document twice. */
  lemma {:induction false} EndToEnd(s: Setup, docs: seq<Document>, clientId: string, corpusIds: seq<string>, limit: int)
    requires s.chunker.Valid() && Injective(s.uuid5) && Ready(s, docs, clientId, corpusIds)
    requires |Matching(Replay(s, IndexOps(s, docs)), ScopeFilter(clientId, corpusIds))| <= limit
    ensures var out := Assemble(ListedChunks(Replay(s, IndexOps(s, docs)), clientId, corpusIds, limit));
      && (forall i :: 0 <= i < |docs| ==> (docs[i].envelope.documentId, docs[i].text) in out)
      && (forall pair :: pair in out ==>
            exists i :: 0 <= i < |docs| && pair == (docs[i].envelope.documentId, docs[i].text))
      && (forall i, j :: 0 <= i < j < |out| ==> out[i].0 != out[j].0)
  {
    var points := Replay(s, IndexOps(s, docs));
    var listed := ListedChunks(points, clientId, corpusIds, limit);
    var out := Assemble(listed);
    AssembledDocuments(listed);
    forall i | 0 <= i < |docs| ensures (docs[i].envelope.documentId, docs[i].text) in out {
      EachHeld(s, docs, clientId, corpusIds, i);
      FullScanRebuilds(s, points, docs[i].envelope, docs[i].text, docs[i].vectors, corpusIds, limit);
    }
    forall pair | pair in out
      ensures exists i :: 0 <= i < |docs| && pair == (docs[i].envelope.documentId, docs[i].text)
    {
      var i := EntryOfSome(s, docs, clientId, corpusIds, limit, pair.0);
      var same := (docs[i].envelope.documentId, docs[i].text);
      assert same in out && same.0 == pair.0;
    }
  }

  lemma {:induction false} EntryOfSome(
    s: Setup, docs: seq<Document>, clientId: string, corpusIds: seq<string>, limit: int, d: string)
    returns (i: nat)
    requires s.chunker.Valid() && Ready(s, docs, clientId, corpusIds)
    requires OfDoc(ListedChunks(Replay(s, IndexOps(s, docs)), clientId, corpusIds, limit), d) != []
    ensures i < |docs| && docs[i].envelope.documentId == d
  {
    var points := Replay(s, IndexOps(s, docs));
    var listed := ListedChunks(points, clientId, corpusIds, limit);
    OfDocElements(listed, d);
    var c := OfDoc(listed, d)[0];
    assert c in OfDoc(listed, d);
    var id := ListedIsStored(points, clientId, corpusIds, limit, c);
    PointOfSome(s, docs, clientId, corpusIds, id);
    i :| 0 <= i < |docs| && docs[i].envelope.documentId == points[id].documentId;
  }

  // ---------- What a client knows from the rows ----------

  /** The row says that the job has had no effect so far. */
  predicate Inert(st: State, i: nat) { StatusOf(st, i, Queued) || StatusOf(st, i, Failed) }

  predicate JobOf(e: JobEnvelope, jobType: JobType, clientId: string, documentId: string) {
    e.jobType == jobType && e.clientId == clientId && e.documentId == documentId
  }

  /** The job could write to the document, or remove points of the client's document. */
  predicate Touches(e: JobEnvelope, clientId: string, documentId: string) {
    e.documentId == documentId && (e.jobType.IndexDocument? || e.clientId == clientId)
  }

  /** From the rows: before job `n` the client has no chunks of the document. There is no earlier index job of
      it, except before a successful delete and except jobs that are queued or failed. */
  predicate KnownAbsent(st: State, from: nat, n: nat, clientId: string, documentId: string) {
    && from <= n <= |st.published|
    && (from > 0 ==>
          JobOf(st.published[from - 1], DeleteDocument, clientId, documentId) && StatusOf(st, from - 1, Succeeded))
    && forall i :: from <= i < n && JobOf(st.published[i], IndexDocument, clientId, documentId) ==> Inert(st, i)
  }

  /** From the rows: no job between `n` and `m` has touched the client's document. */
  predicate KnownElsewhere(st: State, n: nat, m: nat, clientId: string, documentId: string) {
    m <= |st.published| && forall i :: n < i < m && Touches(st.published[i], clientId, documentId) ==> Inert(st, i)
  }

  lemma {:induction false} KnownElsewhereIs(
    s: Setup, es: seq<Event>, n: nat, m: nat, clientId: string, documentId: string, i: nat)
    requires s.chunker.Valid() && Run(s, es).Some? && Punctual(es) && n < i < m && i < |Run(s, es).value.ops|
    requires KnownElsewhere(Run(s, es).value, n, m, clientId, documentId)
    ensures Elsewhere(Run(s, es).value.ops[i], clientId, documentId)
  {
    var st := Run(s, es).value;
    RunReplayed(s, es);
    if Touches(st.published[i], clientId, documentId) {
      InertUntouched(s, es, i);
    }
  }

  lemma {:induction false} KnownAbsentIs(
    s: Setup, es: seq<Event>, from: nat, n: nat, clientId: string, documentId: string)
    requires s.chunker.Valid() && Run(s, es).Some? && Punctual(es)
    requires KnownAbsent(Run(s, es).value, from, n, clientId, documentId)
    requires n <= |Run(s, es).value.ops| && OpsOk(s, Run(s, es).value.ops)
    ensures Absent(Replay(s, Run(s, es).value.ops[..n]), clientId, documentId)
  {
    var st := Run(s, es).value;
    RunReplayed(s, es);
    forall i | from <= i < n ensures !IndexesDoc(st.ops[i], clientId, documentId) {
      if JobOf(st.published[i], IndexDocument, clientId, documentId) {
        InertUntouched(s, es, i);
      }
    }
    if from == 0 {
      AbsentThrough(s, st.ops[..n], 0, clientId, documentId);
    } else {
      SucceededReturned(s, es, from - 1);
      DeletedUntilIndexed(s, st.ops[..n], from - 1, clientId, documentId);
    }
  }

  /** In every punctual run, from the rows alone: if an index job SUCCEEDED when its client had no chunks of the
      document, and no job has touched the document since, then scanning the store as it is now rebuilds exactly
      the text that the worker extracted for that job. */
  lemma {:induction false} RunRoundTrip(
    s: Setup, es: seq<Event>, from: nat, n: nat, corpusIds: seq<string>, limit: int)
    requires s.chunker.Valid() && Injective(s.uuid5) && Run(s, es).Some? && Punctual(es)
    requires var st := Run(s, es).value;
      && StatusOf(st, n, Succeeded) && st.published[n].jobType.IndexDocument? && st.published[n].corpusId in corpusIds
      && KnownAbsent(st, from, n, st.published[n].clientId, st.published[n].documentId)
      && KnownElsewhere(st, n, |st.published|, st.published[n].clientId, st.published[n].documentId)
      && |Matching(Contents(st.collection), ScopeFilter(st.published[n].clientId, corpusIds))| <= limit
    ensures var st := Run(s, es).value; var e, text := st.published[n], Extracted(es, n);
      && text.Some?
      && var listed := ListedChunks(Contents(st.collection), e.clientId, corpusIds, limit);
         (text.value != "" ==> (e.documentId, text.value) in Assemble(listed))
  {
    var st := Run(s, es).value;
    var e := st.published[n];
    RunReplayed(s, es);
    SucceededReturned(s, es, n);
    var op := st.ops[n];
    RecordedIsExtracted(s, es, n);
    KnownAbsentIs(s, es, from, n, e.clientId, e.documentId);
    forall i | n < i < |st.ops| ensures Elsewhere(st.ops[i], e.clientId, e.documentId) {
      KnownElsewhereIs(s, es, n, |st.published|, e.clientId, e.documentId, i);
    }
    IndexedOnce(s, st.ops, n, Document(e, op.text, op.vectors));
    if op.text != "" {
      FullScanRebuilds(s, Contents(st.collection), e, op.text, op.vectors, corpusIds, limit);
    }
  }

  /** So it is in every run. */
  lemma {:induction false} RunListedFields(
    s: Setup, es: seq<Event>, clientId: string, corpusIds: seq<string>, limit: int, c: RetrievedChunk)
    requires s.chunker.Valid() && Run(s, es).Some?
    requires c in ListedChunks(Contents(Run(s, es).value.collection), clientId, corpusIds, limit)
    ensures c.clientId == clientId && c.corpusId in corpusIds && c.score == 0.0
    ensures var points := Contents(Run(s, es).value.collection);
      c.chunkId in points && SamePayload(c, points[c.chunkId])
  {
    RunReplayed(s, es);
    ReplaySlotted(s, Run(s, es).value.ops);
    ListedFields(s, Contents(Run(s, es).value.collection), clientId, corpusIds, limit, c);
  }

  /** In every punctual run, from the rows alone: once a delete job SUCCEEDED, the store holds no point of that
      client's document unless a later index job of it got beyond QUEUED without failing. */
  lemma {:induction false} RunDeleted(s: Setup, es: seq<Event>, n: nat, clientId: string, documentId: string)
    requires s.chunker.Valid() && Run(s, es).Some? && Punctual(es)
    requires var st := Run(s, es).value;
      n < |st.published| && KnownAbsent(st, n + 1, |st.published|, clientId, documentId)
    ensures Absent(Contents(Run(s, es).value.collection), clientId, documentId)
  {
    var st := Run(s, es).value;
    RunReplayed(s, es);
    SucceededReturned(s, es, n);
    assert KnownAbsent(st, n + 1, |st.ops|, clientId, documentId);
    KnownAbsentIs(s, es, n + 1, |st.ops|, clientId, documentId);
    assert st.ops[..|st.ops|] == st.ops;
  }

  /** Citations of a document whose listed chunks are chunks of one text. */
  lemma {:induction false} CitationOfText(s: Setup, chunks: seq<RetrievedChunk>, i: nat, text: string)
    requires s.chunker.Valid() && i < |FullDocCitations(chunks)|
    requires AllChunksOf(s, text, OfDoc(chunks, DocOrder(chunks)[i]))
    ensures var c, doc := FullDocCitations(chunks)[i], Assemble(chunks)[i];
      var cs := OfDoc(chunks, doc.0);
      && c.documentId == doc.0 && cs != [] && c == Cite(doc.0, HullOf(cs))
      && doc.1 == Kept(text, cs, 0, |text|)
      && (|doc.1| == c.charEnd - c.charStart <==> forall x :: c.charStart <= x < c.charEnd ==> Covered(cs, x))
  {
    ChunksArePartsInOrder(s, text, OfDoc(chunks, DocOrder(chunks)[i]));
    CitationHull(chunks, i, text);
    TextsAt(chunks, DocOrder(chunks), i);
    PartialAssembly(text, OfDoc(chunks, DocOrder(chunks)[i]));
  }

  /** In every run, a scan tells chunks of one document apart by their indices, so every reordering of the
      scan rebuilds the same documents. */
  lemma {:induction false} ScanOrderIrrelevant(
    s: Setup, es: seq<Event>, clientId: string, corpusIds: seq<string>, limit: int, shuffled: seq<RetrievedChunk>,
    d: string)
    requires s.chunker.Valid() && Run(s, es).Some?
    requires var listed := ListedChunks(Contents(Run(s, es).value.collection), clientId, corpusIds, limit);
      multiset(shuffled) == multiset(listed)
    ensures var listed := ListedChunks(Contents(Run(s, es).value.collection), clientId, corpusIds, limit);
      DocText(shuffled, d) == DocText(listed, d) && (d in DocOrder(shuffled) <==> d in DocOrder(listed))
  {
    var points := Contents(Run(s, es).value.collection);
    var listed := ListedChunks(points, clientId, corpusIds, limit);
    RunInv(s, es);
    ReplaySlotted(s, Run(s, es).value.ops);
    forall x, y | x in listed && y in listed && x.documentId == y.documentId && x.chunkIndex == y.chunkIndex
      ensures x == y
    {
      var a := ListedIsStored(points, clientId, corpusIds, limit, x);
      var b := ListedIsStored(points, clientId, corpusIds, limit, y);
      assert Slotted(s, a, points[a]) && Slotted(s, b, points[b]);
    }
    AssembleForgetsOrder(listed, shuffled, d);
  }
}
