/** What the store holds after any history of effects: re-indexing, deleting, and what neither touches. */
module History {
  import opened PyText
  import opened Ids
  import opened KeyedStore
  import CS = ChunkSpec
  import CL = ChunkLaws
  import opened VectorStore
  import opened Jobs
  import opened Worker
  import opened PipelineLaws

  /** The stored form of a document's `i`-th chunk. */
  function StoredAt(s: Setup, e: JobEnvelope, text: string, vectors: seq<Vector>, i: nat): StoredChunk
    requires s.chunker.Valid() && |vectors| == |s.chunker.ChunksOf(text)| && i < |vectors|
  {
    StoredOne(s.uuid5, e, s.chunker.ChunksOf(text)[i], vectors[i])
  }

  lemma {:induction false} StoredChunksAt(
    uuid5: string -> PointId, e: JobEnvelope, chunks: seq<CS.Chunk>, vectors: seq<Vector>, i: nat)
    requires |chunks| == |vectors| && i < |chunks|
    ensures StoredChunks(uuid5, e, chunks, vectors)[i] == StoredOne(uuid5, e, chunks[i], vectors[i])
    decreases |chunks|
  {
    var n := |chunks| - 1;
    if i < n {
      StoredChunksAt(uuid5, e, chunks[..n], vectors[..n], i);
    }
  }

  /** Chunk `i` has index `i`, so it is stored under the id of its document and index. */
  lemma {:induction false} ChunkIndexIs(s: Setup, text: string, i: nat)
    requires s.chunker.Valid() && i < |s.chunker.ChunksOf(text)|
    ensures s.chunker.ChunksOf(text)[i].chunkIndex == i
  {
    CL.OverlapLaw(s.chunker.chunkSize, s.chunker.chunkOverlap, s.chunker.separators, text, i);
  }

  /** What indexing does to each slot of the store: slots below the number of chunks of that document are
      overwritten, every other slot of every document keeps what it held, stale tail chunks included. */
  lemma {:induction false} IndexedSlot(
    s: Setup, points: Points, e: JobEnvelope, text: string, vectors: seq<Vector>, d: string, i: nat)
    requires s.chunker.Valid() && Injective(s.uuid5) && |vectors| == |s.chunker.ChunksOf(text)|
    ensures var k, after := ChunkIdFor(s.uuid5, d, i), ApplyOp(s, points, Indexed(e, text, vectors));
      if d == e.documentId && i < |vectors| then k in after && after[k] == StoredAt(s, e, text, vectors, i)
      else (k in after <==> k in points) && (k in points ==> after[k] == points[k])
  {
    var k, chunks := ChunkIdFor(s.uuid5, d, i), s.chunker.ChunksOf(text);
    var stored := StoredChunks(s.uuid5, e, chunks, vectors);
    PutLookup(points, stored, IdOf, k);
    forall j | 0 <= j < |stored| ensures stored[j] == StoredAt(s, e, text, vectors, j)
      && (IdOf(stored[j]) == k <==> d == e.documentId && i == j)
    {
      StoredChunksAt(s.uuid5, e, chunks, vectors, j);
      ChunkIndexIs(s, text, j);
      if IdOf(stored[j]) == k {
        ChunkIdInjective(s.uuid5, e.documentId, j, d, i);
      }
    }
    if d == e.documentId && i < |vectors| {
      assert IdOf(stored[i]) == k;
      var l := Latest(stored, IdOf, k).value;
      var j :| 0 <= j < |stored| && stored[j] == l;
      assert j == i;
    }
  }

  /** A stored point, field by field. */
  predicate IsStored(p: StoredChunk, id: PointId, e: JobEnvelope, i: nat, c: CS.Chunk, v: Vector) {
    && p.chunkId == id && p.chunkIndex == i && p.vector == v
    && p.documentId == e.documentId && p.clientId == e.clientId && p.corpusId == e.corpusId && p.fileType == e.fileType
    && p.text == c.text && p.charStart == c.charStart && p.charEnd == c.charEnd
  }

  /** After indexing, the point of each chunk carries the chunk, its vector and what the envelope says. */
  lemma {:induction false} IndexedFields(
    s: Setup, points: Points, e: JobEnvelope, text: string, vectors: seq<Vector>, i: nat)
    requires s.chunker.Valid() && Injective(s.uuid5) && |vectors| == |s.chunker.ChunksOf(text)| && i < |vectors|
    ensures var k, after := ChunkIdFor(s.uuid5, e.documentId, i), ApplyOp(s, points, Indexed(e, text, vectors));
      k in after && IsStored(after[k], k, e, i, s.chunker.ChunksOf(text)[i], vectors[i])
  {
    ChunkIndexIs(s, text, i);
    IndexedSlot(s, points, e, text, vectors, e.documentId, i);
  }

  /** The point is that of one of the document's first `n` chunks. */
  ghost predicate IsSlot(s: Setup, e: JobEnvelope, n: nat, id: PointId) {
    exists i :: 0 <= i < n && id == ChunkIdFor(s.uuid5, e.documentId, i)
  }

  ghost predicate OthersSame(s: Setup, e: JobEnvelope, n: nat, before: Points, after: Points) {
    forall id :: !IsSlot(s, e, n, id) ==> (id in after <==> id in before) && (id in before ==> after[id] == before[id])
  }

  lemma {:induction false} IndexedOthers(s: Setup, points: Points, e: JobEnvelope, text: string, vectors: seq<Vector>)
    requires s.chunker.Valid() && |vectors| == |s.chunker.ChunksOf(text)|
    ensures OthersSame(s, e, |vectors|, points, ApplyOp(s, points, Indexed(e, text, vectors)))
  {
    var after := ApplyOp(s, points, Indexed(e, text, vectors));
    var stored := StoredChunks(s.uuid5, e, s.chunker.ChunksOf(text), vectors);
    forall id | !IsSlot(s, e, |vectors|, id)
      ensures (id in after <==> id in points) && (id in points ==> after[id] == points[id])
    {
      PutLookup(points, stored, IdOf, id);
      if Latest(stored, IdOf, id).Some? {
        var i :| 0 <= i < |stored| && IdOf(stored[i]) == id;
        StoredChunksAt(s.uuid5, e, s.chunker.ChunksOf(text), vectors, i);
        ChunkIndexIs(s, text, i);
      }
    }
  }

  // ---------- How an index job ends ----------

  /** The job gets to its upsert: there is a path, the text is extracted, and each chunk has a vector. */
  predicate Embeds(s: Setup, e: JobEnvelope, o: Outside)
    requires s.chunker.Valid()
  {
    && e.filePath.Some? && e.filePath.value != "" && o.extracted.Ok? && o.extracted.value != ""
    && o.embedded.Ok? && |o.embedded.value| == |s.chunker.ChunksOf(o.extracted.value)| && o.ensureFault.None?
  }

  /** Every chunk of the text is stored with its vector, and every other point is as it was. */
  ghost predicate Stores(
    s: Setup, e: JobEnvelope, text: string, vectors: seq<Vector>, before: Points, after: Points)
    requires s.chunker.Valid() && |vectors| == |s.chunker.ChunksOf(text)|
  {
    && (forall i :: 0 <= i < |vectors| ==>
          var k := ChunkIdFor(s.uuid5, e.documentId, i);
          k in after && IsStored(after[k], k, e, i, s.chunker.ChunksOf(text)[i], vectors[i]))
    && OthersSame(s, e, |vectors|, before, after)
  }

  lemma {:induction false} IndexedStores(s: Setup, points: Points, e: JobEnvelope, text: string, vectors: seq<Vector>)
    requires s.chunker.Valid() && Injective(s.uuid5) && |vectors| == |s.chunker.ChunksOf(text)|
    ensures Stores(s, e, text, vectors, points, ApplyOp(s, points, Indexed(e, text, vectors)))
  {
    IndexedOthers(s, points, e, text, vectors);
    forall i | 0 <= i < |vectors|
      ensures var k, after := ChunkIdFor(s.uuid5, e.documentId, i), ApplyOp(s, points, Indexed(e, text, vectors));
        k in after && IsStored(after[k], k, e, i, s.chunker.ChunksOf(text)[i], vectors[i])
    {
      IndexedFields(s, points, e, text, vectors, i);
    }
  }

  lemma {:induction false} IndexReturns(s: Setup, e: JobEnvelope, o: Outside, collection: Option<Points>)
    requires s.chunker.Valid() && e.jobType.IndexDocument?
    ensures var w := WorkOn(s, e, o, collection);
      && (w.result.Ok? <==>
            || (e.filePath.Some? && e.filePath.value != "" && o.extracted == Ok(""))
            || (Embeds(s, e, o) && o.storeFault.None?))
      && (w.result.Ok? ==> w.result.value == |s.chunker.ChunksOf(o.extracted.value)|)
  {
    if o.extracted.Ok? {
      CL.ChunksEmpty(s.chunker.chunkSize, s.chunker.chunkOverlap, s.chunker.separators, o.extracted.value);
    }
  }

  /** How an index job ends: it returns the number of chunks exactly when there are none or all are stored. If the
      job gets to its upsert, and that takes effect, all chunks are stored; otherwise no point changes. */
  ghost predicate IndexEnds(
    s: Setup, e: JobEnvelope, o: Outside, before: Points, after: Points, r: Result<nat, string>)
    requires s.chunker.Valid()
  {
    && (r.Ok? <==>
          || (e.filePath.Some? && e.filePath.value != "" && o.extracted == Ok(""))
          || (Embeds(s, e, o) && o.storeFault.None?))
    && (r.Ok? ==> r.value == |s.chunker.ChunksOf(o.extracted.value)|)
    && if Embeds(s, e, o) && !Blocks(o.storeFault) then Stores(s, e, o.extracted.value, o.embedded.value, before, after)
       else after == before
  }

  /** An index job that raises, raises what the first failing step raised. */
  lemma {:induction false} IndexRaises(s: Setup, e: JobEnvelope, o: Outside, collection: Option<Points>)
    requires s.chunker.Valid() && e.jobType.IndexDocument?
    ensures var r, path := WorkOn(s, e, o, collection).result, e.filePath.Some? && e.filePath.value != "";
      && (!path ==> r == Err(NO_PATH))
      && (path && o.extracted.Err? ==> r == Err(o.extracted.error))
      && (path && o.extracted.Ok? && o.extracted.value != "" ==>
            && (o.embedded.Err? ==> r == Err(o.embedded.error))
            && (o.embedded.Ok? && o.ensureFault.Some? ==> r == Err(o.ensureFault.value.message))
            && (o.embedded.Ok? && |o.embedded.value| != |s.chunker.ChunksOf(o.extracted.value)| ==>
                  o.ensureFault.Some? || r == Err(ZIP_STRICT))
            && (Embeds(s, e, o) && o.storeFault.Some? ==> r == Err(o.storeFault.value.message)))
  {
    if o.extracted.Ok? {
      CL.ChunksEmpty(s.chunker.chunkSize, s.chunker.chunkOverlap, s.chunker.separators, o.extracted.value);
    }
  }

  lemma {:induction false} UpsertIs(s: Setup, e: JobEnvelope, o: Outside, collection: Option<Points>)
    requires s.chunker.Valid() && e.jobType.IndexDocument?
    ensures Contents(WorkOn(s, e, o, collection).collection) ==
      if Embeds(s, e, o) && !Blocks(o.storeFault) then
        ApplyOp(s, Contents(collection), Indexed(e, o.extracted.value, o.embedded.value))
      else Contents(collection)
  {
    if o.extracted.Ok? {
      CL.ChunksEmpty(s.chunker.chunkSize, s.chunker.chunkOverlap, s.chunker.separators, o.extracted.value);
    }
  }

  lemma {:induction false} IndexOutcome(s: Setup, e: JobEnvelope, o: Outside, collection: Option<Points>)
    requires s.chunker.Valid() && Injective(s.uuid5) && e.jobType.IndexDocument?
    ensures var w := WorkOn(s, e, o, collection);
      IndexEnds(s, e, o, Contents(collection), Contents(w.collection), w.result)
  {
    IndexReturns(s, e, o, collection);
    UpsertIs(s, e, o, collection);
    if Embeds(s, e, o) {
      IndexedStores(s, Contents(collection), e, o.extracted.value, o.embedded.value);
    }
  }

  /** Running the same index job again at once changes nothing. */
  lemma {:induction false} ReindexIdempotent(
    s: Setup, points: Points, e: JobEnvelope, text: string, vectors: seq<Vector>)
    requires s.chunker.Valid() && |vectors| == |s.chunker.ChunksOf(text)|
    ensures var op := Indexed(e, text, vectors);
      ApplyOp(s, ApplyOp(s, points, op), op) == ApplyOp(s, points, op)
  {
    PutTwice(points, StoredChunks(s.uuid5, e, s.chunker.ChunksOf(text), vectors), IdOf);
  }

  /** Indexing an empty text leaves the store as it is. */
  lemma {:induction false} EmptyIndex(s: Setup, points: Points, op: StoreOp)
    requires s.chunker.Valid() && OpOk(s, op) && op.Indexed? && op.text == ""
    ensures ApplyOp(s, points, op) == points
  {
    CL.ChunksEmpty(s.chunker.chunkSize, s.chunker.chunkOverlap, s.chunker.separators, "");
    ApplyNone(s, points, op);
  }

  /** A job whose text is empty succeeds and leaves every earlier chunk of the document in place. */
  lemma {:induction false} EmptyTextKeepsOldChunks(s: Setup, e: JobEnvelope, o: Outside, collection: Option<Points>)
    requires s.chunker.Valid() && e.jobType.IndexDocument? && e.filePath.Some? && e.filePath.value != ""
    requires o.extracted == Ok("")
    ensures WorkOn(s, e, o, collection) == Work(collection, Ok(0), Indexed(e, "", []))
    ensures OpOk(s, Indexed(e, "", []))
    ensures ApplyOp(s, Contents(collection), Indexed(e, "", [])) == Contents(collection)
  {
    CL.ChunksEmpty(s.chunker.chunkSize, s.chunker.chunkOverlap, s.chunker.separators, "");
    EmptyIndex(s, Contents(collection), Indexed(e, "", []));
  }

  // ---------- Every point sits in its own slot ----------

  /** A point in its slot: keyed by its own document and index, with a non-empty span as long as its text. */
  predicate Slotted(s: Setup, id: PointId, c: StoredChunk) {
    && 0 <= c.chunkIndex && id == c.chunkId == ChunkIdFor(s.uuid5, c.documentId, c.chunkIndex)
    && 0 <= c.charStart < c.charEnd && |c.text| == c.charEnd - c.charStart
  }

  predicate AllSlotted(s: Setup, points: Points) {
    forall id :: id in points ==> Slotted(s, id, points[id])
  }

  /** Each written point is one of the document's chunks in stored form. */
  lemma {:induction false} WrittenPoint(
    s: Setup, points: Points, e: JobEnvelope, text: string, vectors: seq<Vector>, id: PointId)
    returns (i: nat)
    requires s.chunker.Valid() && |vectors| == |s.chunker.ChunksOf(text)|
    requires var after := ApplyOp(s, points, Indexed(e, text, vectors));
      id in after && !(id in points && after[id] == points[id])
    ensures i < |vectors| && id == ChunkIdFor(s.uuid5, e.documentId, i)
    ensures ApplyOp(s, points, Indexed(e, text, vectors))[id] == StoredAt(s, e, text, vectors, i)
  {
    var chunks := s.chunker.ChunksOf(text);
    var stored := StoredChunks(s.uuid5, e, chunks, vectors);
    PutLookup(points, stored, IdOf, id);
    var l := Latest(stored, IdOf, id).value;
    i :| 0 <= i < |stored| && stored[i] == l;
    StoredChunksAt(s.uuid5, e, chunks, vectors, i);
    ChunkIndexIs(s, text, i);
  }

  lemma {:induction false} StoredAtSlotted(s: Setup, e: JobEnvelope, text: string, vectors: seq<Vector>, i: nat)
    requires s.chunker.Valid() && |vectors| == |s.chunker.ChunksOf(text)| && i < |vectors|
    ensures Slotted(s, ChunkIdFor(s.uuid5, e.documentId, i), StoredAt(s, e, text, vectors, i))
  {
    CL.OverlapLaw(s.chunker.chunkSize, s.chunker.chunkOverlap, s.chunker.separators, text, i);
  }

  lemma {:induction false} ApplySlotted(s: Setup, points: Points, op: StoreOp)
    requires s.chunker.Valid() && OpOk(s, op) && AllSlotted(s, points)
    ensures AllSlotted(s, ApplyOp(s, points, op))
  {
    if op.Indexed? {
      var after := ApplyOp(s, points, op);
      forall id | id in after ensures Slotted(s, id, after[id]) {
        if !(id in points && after[id] == points[id]) {
          var i := WrittenPoint(s, points, op.envelope, op.text, op.vectors, id);
          StoredAtSlotted(s, op.envelope, op.text, op.vectors, i);
        }
      }
    }
  }

  /** After any history every point sits in the slot of its own document and index, so the indices of a
      document's points are distinct. */
  lemma {:induction false} ReplaySlotted(s: Setup, ops: seq<StoreOp>)
    requires s.chunker.Valid() && OpsOk(s, ops)
    ensures AllSlotted(s, Replay(s, ops))
    decreases |ops|
  {
    if ops != [] {
      ReplaySlotted(s, ops[..|ops| - 1]);
      ApplySlotted(s, Replay(s, ops[..|ops| - 1]), ops[|ops| - 1]);
    }
  }

  // ---------- Deleting ----------

  predicate Absent(points: Points, clientId: string, documentId: string) {
    forall id :: id in points ==> !BelongsTo(points[id], clientId, documentId)
  }

  /** An index job of that client's document that wrote chunks. */
  predicate IndexesDoc(op: StoreOp, clientId: string, documentId: string) {
    op.Indexed? && op.text != "" && op.envelope.clientId == clientId && op.envelope.documentId == documentId
  }

  lemma {:induction false} AbsentKept(s: Setup, points: Points, op: StoreOp, clientId: string, documentId: string)
    requires s.chunker.Valid() && OpOk(s, op) && !IndexesDoc(op, clientId, documentId)
    requires Absent(points, clientId, documentId)
    ensures Absent(ApplyOp(s, points, op), clientId, documentId)
  {
    if op.Indexed? {
      if op.text == "" {
        EmptyIndex(s, points, op);
      }
      var after := ApplyOp(s, points, op);
      forall id | id in after ensures !BelongsTo(after[id], clientId, documentId) {
        if !(id in points && after[id] == points[id]) {
          var i := WrittenPoint(s, points, op.envelope, op.text, op.vectors, id);
        }
      }
    }
  }

  /** A client's document without points has none until that client indexes it. */
  lemma {:induction false} AbsentThrough(s: Setup, ops: seq<StoreOp>, n: nat, clientId: string, documentId: string)
    requires s.chunker.Valid() && OpsOk(s, ops) && n <= |ops|
    requires OpsOk(s, ops[..n]) && Absent(Replay(s, ops[..n]), clientId, documentId)
    requires forall i :: n <= i < |ops| ==> !IndexesDoc(ops[i], clientId, documentId)
    ensures Absent(Replay(s, ops), clientId, documentId)
    decreases |ops|
  {
    if n == |ops| {
      assert ops[..n] == ops;
    } else {
      var before := ops[..|ops| - 1];
      assert before[..n] == ops[..n];
      AbsentThrough(s, before, n, clientId, documentId);
      AbsentKept(s, Replay(s, before), ops[|ops| - 1], clientId, documentId);
    }
  }

  /** After a delete no point of that client's document exists until the document is indexed again. */
  lemma {:induction false} DeletedUntilIndexed(
    s: Setup, ops: seq<StoreOp>, n: nat, clientId: string, documentId: string)
    requires s.chunker.Valid() && OpsOk(s, ops) && n < |ops| && ops[n] == Deleted(clientId, documentId)
    requires forall i :: n < i < |ops| ==> !IndexesDoc(ops[i], clientId, documentId)
    ensures Absent(Replay(s, ops), clientId, documentId)
  {
    assert ops[..n + 1][..n] == ops[..n];
    assert Absent(Replay(s, ops[..n + 1]), clientId, documentId);
    AbsentThrough(s, ops, n + 1, clientId, documentId);
  }

  // ---------- Exactly one text ----------

  /** The client's points of the document are exactly the chunks of the text. */
  predicate Holds(s: Setup, points: Points, e: JobEnvelope, text: string, vectors: seq<Vector>)
    requires s.chunker.Valid()
  {
    && |vectors| == |s.chunker.ChunksOf(text)|
    && (forall i :: 0 <= i < |vectors| ==>
          var k := ChunkIdFor(s.uuid5, e.documentId, i); k in points && points[k] == StoredAt(s, e, text, vectors, i))
    && (forall id :: id in points && BelongsTo(points[id], e.clientId, e.documentId) ==>
          0 <= points[id].chunkIndex < |vectors| && id == ChunkIdFor(s.uuid5, e.documentId, points[id].chunkIndex))
  }

  /** Indexing a document of which the client has no points leaves exactly the chunks of the text. */
  lemma {:induction false} IndexFresh(s: Setup, points: Points, e: JobEnvelope, text: string, vectors: seq<Vector>)
    requires s.chunker.Valid() && Injective(s.uuid5) && |vectors| == |s.chunker.ChunksOf(text)|
    requires Absent(points, e.clientId, e.documentId)
    ensures Holds(s, ApplyOp(s, points, Indexed(e, text, vectors)), e, text, vectors)
  {
    var after := ApplyOp(s, points, Indexed(e, text, vectors));
    forall i | 0 <= i < |vectors|
      ensures var k := ChunkIdFor(s.uuid5, e.documentId, i); k in after && after[k] == StoredAt(s, e, text, vectors, i)
    {
      IndexedSlot(s, points, e, text, vectors, e.documentId, i);
    }
    forall id | id in after && BelongsTo(after[id], e.clientId, e.documentId)
      ensures 0 <= after[id].chunkIndex < |vectors| && id == ChunkIdFor(s.uuid5, e.documentId, after[id].chunkIndex)
    {
      var i := WrittenPoint(s, points, e, text, vectors, id);
      ChunkIndexIs(s, text, i);
    }
  }

  /** Delete, then index: exactly the chunks of the new text, whatever was there before. */
  lemma {:induction false} DeleteThenIndex(s: Setup, points: Points, e: JobEnvelope, text: string, vectors: seq<Vector>)
    requires s.chunker.Valid() && Injective(s.uuid5) && |vectors| == |s.chunker.ChunksOf(text)|
    ensures var wiped := ApplyOp(s, points, Deleted(e.clientId, e.documentId));
      Holds(s, ApplyOp(s, wiped, Indexed(e, text, vectors)), e, text, vectors)
  {
    IndexFresh(s, ApplyOp(s, points, Deleted(e.clientId, e.documentId)), e, text, vectors);
  }

  // ---------- Effects elsewhere ----------

  /** An effect that touches no point of that client's document: it writes to other documents, or deletes
      other documents or those of other clients. Keys ignore the client, so an index job of another client
      for the same document id is not elsewhere. */
  predicate Elsewhere(op: StoreOp, clientId: string, documentId: string) {
    match op
    case Untouched => true
    case Indexed(e, text, _) => e.documentId != documentId || text == ""
    case Deleted(c, d) => d != documentId || c != clientId
  }

  /** The two stores hold the same points of the client's document. */
  predicate SameOwn(p: Points, q: Points, clientId: string, documentId: string) {
    && (forall id :: id in p && BelongsTo(p[id], clientId, documentId) ==> id in q && q[id] == p[id])
    && (forall id :: id in q && BelongsTo(q[id], clientId, documentId) ==> id in p && p[id] == q[id])
  }

  lemma {:induction false} ElsewhereKeeps(s: Setup, points: Points, op: StoreOp, clientId: string, documentId: string)
    requires s.chunker.Valid() && Injective(s.uuid5) && OpOk(s, op) && Elsewhere(op, clientId, documentId)
    requires AllSlotted(s, points)
    ensures SameOwn(points, ApplyOp(s, points, op), clientId, documentId)
  {
    if op.Indexed? {
      if op.text == "" {
        EmptyIndex(s, points, op);
      } else {
        var after := ApplyOp(s, points, op);
        forall id | id in points && BelongsTo(points[id], clientId, documentId)
          ensures id in after && after[id] == points[id]
        {
          assert Slotted(s, id, points[id]);
          IndexedSlot(s, points, op.envelope, op.text, op.vectors, documentId, points[id].chunkIndex);
        }
        forall id | id in after && BelongsTo(after[id], clientId, documentId)
          ensures id in points && after[id] == points[id]
        {
          if !(id in points && after[id] == points[id]) {
            var i := WrittenPoint(s, points, op.envelope, op.text, op.vectors, id);
          }
        }
      }
    }
  }

  /** The points of a client's document stay while all effects are elsewhere. */
  lemma {:induction false} ElsewhereThrough(s: Setup, ops: seq<StoreOp>, n: nat, clientId: string, documentId: string)
    requires s.chunker.Valid() && Injective(s.uuid5) && OpsOk(s, ops) && n <= |ops| && OpsOk(s, ops[..n])
    requires forall i :: n <= i < |ops| ==> Elsewhere(ops[i], clientId, documentId)
    ensures SameOwn(Replay(s, ops[..n]), Replay(s, ops), clientId, documentId)
    decreases |ops|
  {
    if n == |ops| {
      assert ops[..n] == ops;
    } else {
      var before := ops[..|ops| - 1];
      assert before[..n] == ops[..n];
      ElsewhereThrough(s, before, n, clientId, documentId);
      ReplaySlotted(s, before);
      ElsewhereKeeps(s, Replay(s, before), ops[|ops| - 1], clientId, documentId);
    }
  }

  lemma {:induction false} HoldsSame(
    s: Setup, p: Points, q: Points, e: JobEnvelope, text: string, vectors: seq<Vector>)
    requires s.chunker.Valid() && Holds(s, p, e, text, vectors) && SameOwn(p, q, e.clientId, e.documentId)
    ensures Holds(s, q, e, text, vectors)
  {
    forall i | 0 <= i < |vectors|
      ensures var k := ChunkIdFor(s.uuid5, e.documentId, i); k in q && q[k] == StoredAt(s, e, text, vectors, i)
    {
      assert BelongsTo(p[ChunkIdFor(s.uuid5, e.documentId, i)], e.clientId, e.documentId);
    }
  }
}
