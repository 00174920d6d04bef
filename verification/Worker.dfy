/** The worker: what one job does to the rows and to the vector store, the queue, and the consumer that
    feeds the worker one message at a time. Failures of the outside world are inputs. */
module Worker {
  import opened PyText
  import opened Ids
  import opened KeyedStore
  import CS = ChunkSpec
  import opened Chunking
  import opened VectorStore
  import opened Jobs

  // ---------- The chunks of a document as they are stored ----------

  function StoredOne(uuid5: string -> PointId, e: JobEnvelope, c: CS.Chunk, v: Vector): StoredChunk {
    StoredChunk(ChunkIdFor(uuid5, e.documentId, c.chunkIndex), e.documentId, e.corpusId, e.clientId,
                c.chunkIndex, c.charStart, c.charEnd, c.text, e.fileType, v)
  }

  /** One stored chunk per chunk, each with its vector. */
  function StoredChunks(uuid5: string -> PointId, e: JobEnvelope, chunks: seq<CS.Chunk>, vectors: seq<Vector>)
    : (r: seq<StoredChunk>)
    requires |chunks| == |vectors|
    ensures |r| == |chunks|
  {
    if chunks == [] then []
    else
      var n := |chunks| - 1;
      StoredChunks(uuid5, e, chunks[..n], vectors[..n]) + [StoredOne(uuid5, e, chunks[n], vectors[n])]
  }

  // ---------- Effects on the store ----------

  /** What a job did to the store, if its upsert or delete took effect; an index job without chunks needs no
      upsert and counts as one that indexed none. */
  datatype StoreOp =
    | Untouched
    | Indexed(envelope: JobEnvelope, text: string, vectors: seq<Vector>)
    | Deleted(clientId: string, documentId: string)

  /** The fixed parts of the worker. */
  datatype Setup = Setup(chunker: RecursiveCharacterChunker, uuid5: string -> PointId)

  /** The indexed chunks have one vector each. */
  predicate OpOk(s: Setup, op: StoreOp)
    requires s.chunker.Valid()
  {
    op.Indexed? ==> |op.vectors| == |s.chunker.ChunksOf(op.text)|
  }

  function ApplyOp(s: Setup, points: Points, op: StoreOp): Points
    requires s.chunker.Valid() && OpOk(s, op)
  {
    match op
    case Untouched => points
    case Indexed(e, text, vectors) => Put(points, StoredChunks(s.uuid5, e, s.chunker.ChunksOf(text), vectors))
    case Deleted(clientId, documentId) => Wipe(points, clientId, documentId)
  }

  /** How the outside world behaves while one job is worked on: the extracted text, the embeddings, and
      store calls that raise, before or after they took effect. */
  datatype Outside = Outside(
    extracted: Result<string, string>, embedded: Result<seq<Vector>, string>,
    ensureFault: Option<Fault>, storeFault: Option<Fault>)

  datatype Work = Work(collection: Option<Points>, result: Result<nat, string>, op: StoreOp)

  const NO_PATH := "INDEX_DOCUMENT envelope missing file_path"
  const ZIP_STRICT := "zip() arguments have different lengths"

  function IndexWork(s: Setup, e: JobEnvelope, o: Outside, collection: Option<Points>): Work
    requires s.chunker.Valid()
  {
    if e.filePath.None? || e.filePath.value == "" then Work(collection, Err(NO_PATH), Untouched)
    else if o.extracted.Err? then Work(collection, Err(o.extracted.error), Untouched)
    else
      var chunks := s.chunker.ChunksOf(o.extracted.value);
      if chunks == [] then Work(collection, Ok(0), Indexed(e, o.extracted.value, []))
      else if o.embedded.Err? then Work(collection, Err(o.embedded.error), Untouched)
      else if Blocks(o.ensureFault) then Work(collection, Err(o.ensureFault.value.message), Untouched)
      else
        var created := Some(Contents(collection));
        if o.ensureFault.Some? then Work(created, Err(o.ensureFault.value.message), Untouched)
        else if |o.embedded.value| != |chunks| then Work(created, Err(ZIP_STRICT), Untouched)
        else if Blocks(o.storeFault) then Work(created, Err(o.storeFault.value.message), Untouched)
        else
          var op := Indexed(e, o.extracted.value, o.embedded.value);
          Work(Some(ApplyOp(s, Contents(collection), op)), Answer(|chunks|, o.storeFault), op)
  }

  /** The count of a call that took effect, unless it raises all the same. */
  function Answer(count: nat, fault: Option<Fault>): Result<nat, string> {
    if fault.Some? then Err(fault.value.message) else Ok(count)
  }

  function DeleteWork(e: JobEnvelope, o: Outside, collection: Option<Points>): Work {
    if Blocks(o.storeFault) then Work(collection, Err(o.storeFault.value.message), Untouched)
    else if collection.None? then Work(None, Err(NO_COLLECTION), Untouched)
    else
      var count := Count(collection.value, DocumentFilter(e.clientId, e.documentId));
      Work(Some(Wipe(collection.value, e.clientId, e.documentId)), Answer(count, o.storeFault),
           Deleted(e.clientId, e.documentId))
  }

  /** How a delete job ends: with every point of the client's document gone, all others as they were, and their
      number, or an error although they are gone; or with an error and the store as it was. */
  ghost predicate DeleteEnds(
    e: JobEnvelope, o: Outside, before: Option<Points>, after: Option<Points>, r: Result<nat, string>)
  {
    if before.Some? && !Blocks(o.storeFault) then
      && after.Some? && Removed(before.value, after.value, e.clientId, e.documentId)
      && r == if o.storeFault.None? then Ok(|before.value| - |after.value|) else Err(o.storeFault.value.message)
    else after == before && r == Err(if Blocks(o.storeFault) then o.storeFault.value.message else NO_COLLECTION)
  }

  lemma {:induction false} DeleteOutcome(e: JobEnvelope, o: Outside, collection: Option<Points>)
    ensures var w := DeleteWork(e, o, collection);
      && DeleteEnds(e, o, collection, w.collection, w.result)
      && (w.op.Untouched? <==> collection.None? || Blocks(o.storeFault))
  {
    if collection.Some? {
      WipeRemoves(collection.value, e.clientId, e.documentId);
    }
  }

  /** What a job does to the store, with the count it returns or the error it raises. */
  function WorkOn(s: Setup, e: JobEnvelope, o: Outside, collection: Option<Points>): Work
    requires s.chunker.Valid()
  {
    if e.jobType.IndexDocument? then IndexWork(s, e, o, collection) else DeleteWork(e, o, collection)
  }

  /** The effect is that of the envelope's own job: its index of some text, or its delete. */
  predicate JobDone(op: StoreOp, e: JobEnvelope) {
    if e.jobType.IndexDocument? then op.Indexed? && op.envelope == e else op == Deleted(e.clientId, e.documentId)
  }

  lemma {:induction false} ApplyNone(s: Setup, points: Points, op: StoreOp)
    requires s.chunker.Valid() && OpOk(s, op) && (op.Indexed? ==> op.vectors == [])
    requires !op.Deleted?
    ensures ApplyOp(s, points, op) == points
  {
  }

  lemma {:induction false} IndexOpOk(s: Setup, e: JobEnvelope, o: Outside, collection: Option<Points>)
    requires s.chunker.Valid()
    ensures OpOk(s, IndexWork(s, e, o, collection).op)
    ensures var w := IndexWork(s, e, o, collection);
      && (w.op.Untouched? ==> w.result.Err?) && (!w.op.Untouched? ==> w.result.Ok? || Late(o.storeFault))
  {
  }

  /** What an index job records is what it extracted, with the embeddings of its chunks. */
  lemma {:induction false} IndexedIsExtracted(s: Setup, e: JobEnvelope, o: Outside, collection: Option<Points>)
    requires s.chunker.Valid() && !IndexWork(s, e, o, collection).op.Untouched?
    ensures var op := IndexWork(s, e, o, collection).op;
      && op.Indexed? && op.envelope == e && o.extracted == Ok(op.text)
      && (op.vectors == [] || o.embedded == Ok(op.vectors))
  {
  }

  lemma {:induction false} IndexNothing(s: Setup, e: JobEnvelope, o: Outside, collection: Option<Points>)
    requires s.chunker.Valid()
    requires var op := IndexWork(s, e, o, collection).op; op.Untouched? || (op.Indexed? && op.vectors == [])
    ensures Contents(IndexWork(s, e, o, collection).collection) == Contents(collection)
  {
  }

  lemma {:induction false} IndexUpserted(s: Setup, e: JobEnvelope, o: Outside, collection: Option<Points>)
    requires s.chunker.Valid() && OpOk(s, IndexWork(s, e, o, collection).op)
    requires var op := IndexWork(s, e, o, collection).op; op.Indexed? && op.vectors != []
    ensures IndexWork(s, e, o, collection).collection
         == Some(ApplyOp(s, Contents(collection), IndexWork(s, e, o, collection).op))
  {
  }

  lemma {:induction false} IndexContents(s: Setup, e: JobEnvelope, o: Outside, collection: Option<Points>)
    requires s.chunker.Valid() && OpOk(s, IndexWork(s, e, o, collection).op)
    ensures var w := IndexWork(s, e, o, collection);
      Contents(w.collection) == ApplyOp(s, Contents(collection), w.op)
  {
    IndexOpOk(s, e, o, collection);
    var op := IndexWork(s, e, o, collection).op;
    if op.Untouched? || op.vectors == [] {
      ApplyNone(s, Contents(collection), op);
      IndexNothing(s, e, o, collection);
    } else {
      IndexUpserted(s, e, o, collection);
    }
  }

  /** The new contents are exactly the recorded effect on the old ones. A job that returns has done its upsert
      or delete. A job that raises has done nothing, unless its store call took effect first. */
  lemma {:induction false} WorkIsOp(s: Setup, e: JobEnvelope, o: Outside, collection: Option<Points>)
    requires s.chunker.Valid()
    ensures var w := WorkOn(s, e, o, collection);
      && OpOk(s, w.op) && Contents(w.collection) == ApplyOp(s, Contents(collection), w.op)
      && (w.op.Untouched? ==> w.result.Err?)
      && (!w.op.Untouched? ==> JobDone(w.op, e) && (w.result.Ok? || Late(o.storeFault)))
  {
    if e.jobType.IndexDocument? {
      IndexOpOk(s, e, o, collection);
      IndexContents(s, e, o, collection);
      if !IndexWork(s, e, o, collection).op.Untouched? {
        IndexedIsExtracted(s, e, o, collection);
      }
    }
  }

  // ---------- One job from start to end ----------

  datatype World = World(rows: Rows, collection: Option<Points>)

  /** The repository calls that raise. */
  datatype RepoFaults = RepoFaults(running: Option<Fault>, succeeded: Option<Fault>, failed: Option<Fault>)

  /** The end of a job: SUCCEEDED, or FAILED with the clipped message. A raising `mark_succeeded`, whether it
      took effect or not, is itself a failure of the job. */
  function Finished(
    rows: Rows, jobId: string, result: Result<nat, string>, f: RepoFaults): (Rows, Result<nat, string>)
  {
    var marked := if result.Ok? then Attempted(rows, jobId, Succeeded, SetTo(None), f.succeeded) else rows;
    if result.Ok? && f.succeeded.None? then (marked, result)
    else
      var message := if result.Err? then result.error else f.succeeded.value.message;
      (Attempted(marked, jobId, Failed, SetTo(Some(Clipped(message))), f.failed),
       Err(if f.failed.Some? then f.failed.value.message else message))
  }

  /** Everything one message does. */
  function Handled(s: Setup, w: World, payload: Payload, o: Outside, f: RepoFaults): (World, Result<nat, string>)
    requires s.chunker.Valid()
  {
    var parsed := FromPayload(payload);
    if parsed.Err? then (w, Err(parsed.error))
    else
      var e := parsed.value;
      var rows := Attempted(w.rows, e.jobId, Running, Keep, f.running);
      if Blocks(f.running) then (w, Err(f.running.value.message))
      else if e.jobId !in w.rows then (w, Err(NOT_FOUND))
      else if f.running.Some? then (World(rows, w.collection), Err(f.running.value.message))
      else
        var work := WorkOn(s, e, o, w.collection);
        var (ended, result) := Finished(rows, e.jobId, work.result, f);
        (World(ended, work.collection), result)
  }

  /** When only `mark_succeeded` raises, before or after its commit, the row says FAILED although the store
      has changed. */
  lemma {:induction false} LateFailure(s: Setup, w: World, payload: Payload, o: Outside, f: RepoFaults)
    requires s.chunker.Valid() && f.running.None? && f.succeeded.Some? && f.failed.None?
    requires FromPayload(payload).Ok? && FromPayload(payload).value.jobId in w.rows
    requires WorkOn(s, FromPayload(payload).value, o, w.collection).result.Ok?
    ensures var e, w' := FromPayload(payload).value, Handled(s, w, payload, o, f).0;
      && w'.rows[e.jobId].status == Failed && w'.rows[e.jobId].errorMessage == Some(Clipped(f.succeeded.value.message))
      && Contents(w'.collection) == ApplyOp(s, Contents(w.collection), WorkOn(s, e, o, w.collection).op)
  {
    WorkIsOp(s, FromPayload(payload).value, o, w.collection);
  }

  /** The worker gets to the job: the envelope parses, its row exists, and `mark_running` returns. */
  predicate Begins(w: World, payload: Payload, f: RepoFaults) {
    FromPayload(payload).Ok? && FromPayload(payload).value.jobId in w.rows && f.running.None?
  }

  /** What `handle` answers: it returns exactly when every call returns, with the job's count and a SUCCEEDED row. A job
      that raises is marked FAILED, and what was raised last is raised on. */
  lemma {:induction false} HandledAnswers(s: Setup, w: World, payload: Payload, o: Outside, f: RepoFaults)
    requires s.chunker.Valid() && Begins(w, payload, f)
    ensures var e, (w', r) := FromPayload(payload).value, Handled(s, w, payload, o, f);
      var work := WorkOn(s, e, o, w.collection);
      && e.jobId in w'.rows && w'.collection == work.collection
      && (r.Ok? <==> work.result.Ok? && f.succeeded.None?)
      && (r.Ok? ==> r == work.result && w'.rows[e.jobId].status.Succeeded? && w'.rows[e.jobId].errorMessage.None?)
      && (f.failed.Some? && r.Err? ==> r.error == f.failed.value.message)
      && (f.failed.None? && r.Err? ==>
            && r.error == (if work.result.Err? then work.result.error else f.succeeded.value.message)
            && w'.rows[e.jobId].status.Failed? && w'.rows[e.jobId].errorMessage == Some(Clipped(r.error)))
  {
  }

  /** A message that does not get to its job changes no row but its own, and nothing in the store, and raises. */
  lemma {:induction false} HandledEarly(s: Setup, w: World, payload: Payload, o: Outside, f: RepoFaults)
    requires s.chunker.Valid() && !Begins(w, payload, f)
    ensures var (w', r) := Handled(s, w, payload, o, f);
      && r.Err? && w'.collection == w.collection && w'.rows.Keys == w.rows.Keys
      && forall id :: id in w.rows && w'.rows[id] != w.rows[id] ==>
           && FromPayload(payload).Ok? && id == FromPayload(payload).value.jobId && Late(f.running)
           && w'.rows[id] == w.rows[id].(status := Running)
  {
  }

  class DocumentWorker {
    const repo: JobRepository
    const store: QdrantVectorStore
    const setup: Setup

    constructor (repo: JobRepository, store: QdrantVectorStore, setup: Setup)
      requires setup.chunker.Valid()
      ensures this.repo == repo && this.store == store && this.setup == setup
    {
      this.repo, this.store, this.setup := repo, store, setup;
    }

    function Now(): World
      reads repo, store
    {
      World(repo.rows, store.collection)
    }

    method Handle(payload: Payload, o: Outside, f: RepoFaults) returns (r: Result<nat, string>)
      requires setup.chunker.Valid()
      modifies repo, store
      ensures (Now(), r) == Handled(setup, old(Now()), payload, o, f)
    {
      var parsed := FromPayload(payload);
      if parsed.Err? {
        return Err(parsed.error);
      }
      var e := parsed.value;
      var running := repo.MarkRunning(e.jobId, f.running);
      if running.Err? {
        return Err(running.error);
      }
      var done: Result<nat, string>;
      if e.jobType.IndexDocument? {
        done := HandleIndex(e, o);
      } else {
        done := HandleDelete(e, o);
      }
      if done.Ok? {
        var succeeded := repo.MarkSucceeded(e.jobId, f.succeeded);
        if succeeded.Err? {
          done := Err(succeeded.error);
        }
      }
      if done.Err? {
        var failed := repo.MarkFailed(e.jobId, done.error, f.failed);
        if failed.Err? {
          return Err(failed.error);
        }
      }
      return done;
    }

    method HandleIndex(e: JobEnvelope, o: Outside) returns (r: Result<nat, string>)
      requires setup.chunker.Valid()
      modifies store
      ensures var w := IndexWork(setup, e, o, old(store.collection)); store.collection == w.collection && r == w.result
    {
      if e.filePath.None? || e.filePath.value == "" {
        return Err(NO_PATH);
      }
      if o.extracted.Err? {
        return Err(o.extracted.error);
      }
      var chunks := setup.chunker.Chunk(o.extracted.value);
      if chunks == [] {
        return Ok(0);
      }
      if o.embedded.Err? {
        return Err(o.embedded.error);
      }
      if Blocks(o.ensureFault) {
        return Err(o.ensureFault.value.message);
      }
      store.EnsureCollection();
      if o.ensureFault.Some? {
        return Err(o.ensureFault.value.message);
      }
      if |o.embedded.value| != |chunks| {
        return Err(ZIP_STRICT);
      }
      var stored := StoredChunks(setup.uuid5, e, chunks, o.embedded.value);
      if Blocks(o.storeFault) {
        return Err(o.storeFault.value.message);
      }
      r := store.Upsert(stored);
      if r.Ok? {
        r := Answer(r.value, o.storeFault);
      }
    }

    method HandleDelete(e: JobEnvelope, o: Outside) returns (r: Result<nat, string>)
      modifies store
      ensures var w := DeleteWork(e, o, old(store.collection)); store.collection == w.collection && r == w.result
      ensures DeleteEnds(e, o, old(store.collection), store.collection, r)
    {
      if Blocks(o.storeFault) {
        return Err(o.storeFault.value.message);
      }
      r := store.DeleteByDocument(e.clientId, e.documentId);
      if r.Ok? {
        r := Answer(r.value, o.storeFault);
      }
    }
  }

  // ---------- The queue and its consumer ----------

  class MessageQueue {
    var messages: seq<Payload>

    constructor ()
      ensures messages == []
    {
      messages := [];
    }

    method Publish(payload: Payload)
      modifies this
      ensures messages == old(messages) + [payload]
    {
      messages := messages + [payload];
    }

    method Take() returns (payload: Payload)
      requires messages != []
      modifies this
      ensures payload == old(messages)[0] && messages == old(messages)[1..]
    {
      payload := messages[0];
      messages := messages[1..];
    }
  }

  /** How the outside world behaves for one message. */
  datatype Circumstances = Circumstances(outside: Outside, faults: RepoFaults)

  /** What happens next around the consumer: a handler inserts a row, a publisher appends a message, or it is
      the consumer's own turn. */
  datatype Turn = Insertion(job: JobEnvelope) | Arrival(message: Payload) | Handling(circumstances: Circumstances)

  /** The world and the waiting messages after one turn. The consumer handles the first waiting message, if
      there is one, whatever its result. */
  function AfterTurn(s: Setup, w: World, messages: seq<Payload>, turn: Turn): (World, seq<Payload>)
    requires s.chunker.Valid()
  {
    match turn
    case Insertion(e) => (if e.jobId in w.rows then w else w.(rows := w.rows[e.jobId := NewRow(e)]), messages)
    case Arrival(message) => (w, messages + [message])
    case Handling(c) =>
      if messages == [] then (w, messages)
      else (Handled(s, w, messages[0], c.outside, c.faults).0, messages[1..])
  }

  function Consumed(s: Setup, w: World, messages: seq<Payload>, turns: seq<Turn>): (World, seq<Payload>)
    requires s.chunker.Valid()
  {
    if turns == [] then (w, messages)
    else
      var n := |turns| - 1;
      var (before, waiting) := Consumed(s, w, messages, turns[..n]);
      AfterTurn(s, before, waiting, turns[n])
  }

  class RabbitMQConsumer {
    /** Take, handle and ack or drop one message after the other while handlers insert rows and publish. A
        failing message is dropped, not requeued, and does not stop the loop. */
    method Consume(queue: MessageQueue, worker: DocumentWorker, turns: seq<Turn>)
      requires worker.setup.chunker.Valid()
      modifies queue, worker.repo, worker.store
      ensures (worker.Now(), queue.messages)
           == Consumed(worker.setup, old(worker.Now()), old(queue.messages), turns)
    {
      for i := 0 to |turns|
        invariant (worker.Now(), queue.messages)
               == Consumed(worker.setup, old(worker.Now()), old(queue.messages), turns[..i])
      {
        assert turns[..i + 1][..i] == turns[..i];
        match turns[i]
        case Insertion(e) =>
          var inserted := worker.repo.Create(e, None);
        case Arrival(message) =>
          queue.Publish(message);
        case Handling(c) =>
          if queue.messages != [] {
            var payload := queue.Take();
            var result := worker.Handle(payload, c.outside, c.faults);
          }
      }
      assert turns[..|turns|] == turns;
    }
  }
}
