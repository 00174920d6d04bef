# doccontext: text round trip and job pipeline, verified

This project models two linked parts of doccontext in Dafny and proves what they promise.

**Text round trip.** `RecursiveCharacterChunker` cuts a text into overlapping chunks by mutual recursion over ever
finer separators. The worker keys each chunk by a hash of `document:index` and upserts it into the vector store. A
full-document query scans the store page by page in id order, which is not chunk order, and `_assemble_documents`
rebuilds each text. The main results: the chunker's windows always partition the text; they cut inside a line, sentence
or word only when it is too long for one, the separators being tried in their order; a scan with room for all chunks
rebuilds every text character for character, a truncated scan rebuilds exactly the characters it covers; and re-indexing
without deleting gives the new text followed by what the scan still finds of the old one beyond its end.

**Job pipeline.** Request handlers write a QUEUED row and then publish an envelope; one worker takes envelopes in
order, marks rows RUNNING, changes the store, and marks rows SUCCEEDED or FAILED. Handlers and worker interleave
freely, and any outside call may raise; a repository or store call may raise before or after it took effect. The main
results hold in every run: the store is that of working on the published jobs one after the other, with what the worker
met outside; every run that leaves the worker idle ends as the consumer's loop does; every message has a row that agrees
with it; rows move in the order of the life cycle; a row has a message exactly when it is FAILED; and without new
requests the pipeline comes to rest within a bounded number of steps. Where a law has exceptions, they are given
exactly: terminal rows that change, rows that never end, rows that hide what their job did. In punctual runs, in which no
`mark_succeeded` raises and no store call raises after it took effect, the rows alone tell a client when a scan
rebuilds the text that the worker extracted for a job, and when it finds nothing.

## Files

| file | content |
|---|---|
| `PyText.dfy` | the Python string conventions that are used |
| `ChunkSpec.dfy` | what the chunker computes: cut, group greedily, expand what is too long, stretch back |
| `ChunkLaws.dfy`, `ChunkCounts.dfy`, `ChunkGroups.dfy`, `ChunkLengths.dfy` | partition and overlap law, optimality and linear count, greedy grouping as the only one, lengths |
| `ChunkDescent.dfy`, `ChunkCuts.dfy` | the order of the separators: where a chunk can end, and what that means for lines, sentences and words |
| `Chunking.dfy` | the chunker with its loops, proved to compute `ChunkSpec` |
| `Ids.dfy`, `KeyedStore.dfy`, `VectorStore.dfy` | chunk ids, a keyed store with a paged scan, the vector store class |
| `Query.dfy`, `QueryLaws.dfy` | assembling and citing with their loops, and what they give |
| `Jobs.dfy`, `Worker.dfy`, `Services.dfy` | envelopes, rows and repository; worker, queue and consumer; request handlers |
| `Pipeline.dfy`, `PipelineLaws.dfy` | the interleaved transition system, and what every run keeps |
| `Serial.dfy`, `SequentialSpec.dfy` | every run as the consumer's loop, and its store as that of one job after another |
| `Lifecycle.dfy`, `Effects.dfy`, `Endings.dfy` | what the rows say, what the jobs did, and how jobs end, with the exact exceptions |
| `Draining.dfy`, `Rounds.dfy`, `Outcomes.dfy` | how runs come to rest, runs that exist, what single jobs leave behind |
| `History.dfy`, `RoundTrip.dfy`, `Reindex.dfy` | histories of the store, from text to store and back, re-indexing and shared document ids |

A loop of the program is a method; the function that its `ensures` names is what the laws are about. Python strings are
sequences of characters. Timing-dependent and outside behaviour (extracted text, embeddings, failing calls, fresh ids)
are parameters or freely chosen events. UUIDv5 (section 5.5 of RFC 9562) is a parameter `uuid5` from strings to numbers;
where collisions would matter a lemma requires `Injective(uuid5)`, while the injectivity of the hashed string is proved.
Lemmas switch off automatic induction, so every inductive step is written out.

## Where the code and its documentation differ

- The documentation says that re-indexing a document overwrites its points (README.md:106-108). `_handle_index` does not
  delete first, so a shorter text leaves stale chunks: `Reindex.ReindexCounterexample` is a concrete case and
  `Reindex.ReindexExact` the exact condition. An empty text leaves everything (`History.EmptyTextKeepsOldChunks`).
- The job table's life cycle QUEUED, RUNNING, SUCCEEDED or FAILED is not checked by the repository, which allows any
  move; its order is a theorem about the whole pipeline (`Endings.LifecycleOrder`). It is broken in one way:
  `mark_succeeded` commits, raises in the refresh, and the job is marked FAILED (`Rounds.LateSuccessOverturned`). And not
  every row gets to its end: when `mark_running` or `mark_failed` raises, the message is dropped and the row can stay
  QUEUED or RUNNING for ever (`Endings.AllEndExactly` and `Endings.OneRunning` say exactly when).
- FAILED does not mean that nothing happened: the store may have changed before the failure. `Endings.RowsTellExactly`
  says when the rows tell what their jobs did.

## Model

Rows that begin with "step:" state a fact on the way to the others.

| member | source | states |
|---|---|---|
| Chunking.RecursiveCharacterChunker.Create | src/doccontext/chunking/recursive.py:30-44 | a chunker exists exactly for a positive size and an overlap from 0 to below the size; otherwise an error |
| Chunking.RecursiveCharacterChunker.Chunk | src/doccontext/chunking/recursive.py:48-52 | the chunks of any text, none for the empty text |
| Chunking.RecursiveCharacterChunker.PickSeparator | src/doccontext/chunking/recursive.py:56-60 | the loop finds the first separator that is empty or occurs in the text |
| Chunking.RecursiveCharacterChunker.SplitWithPositions | src/doccontext/chunking/recursive.py:62-80 | the loop yields all pieces with their positions, the empty last piece included |
| Chunking.RecursiveCharacterChunker.BuildWindows | src/doccontext/chunking/recursive.py:82-122 | separator, pieces and loop together give textbook greedy grouping followed by expansion, and the windows partition the text |
| Chunking.RecursiveCharacterChunker.GroupPieces | src/doccontext/chunking/recursive.py:89-122 | the loop over the pieces with its current window, both oversized branches and the last window |
| Chunking.RecursiveCharacterChunker.OpenWindow | src/doccontext/chunking/recursive.py:92-117 | step: a window is opened at a piece, or, when the piece is oversized, its expansion is added at once and no window is open |
| Chunking.RecursiveCharacterChunker.RestIsRefined | src/doccontext/chunking/recursive.py:89-122 | from every state, the loop, which drops its window at each oversized piece, ends as grouping first and expanding afterwards does |
| Chunking.RecursiveCharacterChunker.ExpandOversized | src/doccontext/chunking/recursive.py:124-142 | the windows of an oversized piece by a chunker with the finer separators, with the fallback to the empty separator |
| Chunking.RecursiveCharacterChunker.AddOverlap | src/doccontext/chunking/recursive.py:144-168 | the overlap loop with its skip guard, for any windows |
| Chunking.GreedyFlush | src/doccontext/chunking/recursive.py:99-117 | starting over after an oversized window and keeping it as the current window give the same groups |
| ChunkSpec.FinerRank | src/doccontext/chunking/recursive.py:124-142 | every oversized expansion leaves strictly fewer non-empty separators, even when the piece is the whole text: the recursion ends |
| ChunkDescent.CutsAreCutPieces | src/doccontext/chunking/recursive.py:71-80 | each piece is its part of the text, ends with the separator or with the text, and holds no earlier separator |
| ChunkSpec.PiecesSpell | src/doccontext/chunking/recursive.py:62-80 | the pieces, one after the other, spell the text |
| ChunkLaws.WindowsPartition | src/doccontext/chunking/recursive.py:48-142 | for every text, size and separators the windows are non-empty, adjacent, at most the size, and cover the text exactly |
| ChunkLaws.EmitClosed | src/doccontext/chunking/recursive.py:144-168 | on adjacent windows the skip guard never fires: one chunk per window, numbered from 0 |
| ChunkLaws.OverlapLaw | src/doccontext/chunking/recursive.py:144-168 | each chunk is its window stretched back by the overlap; ends strictly increase, starts never fall, the rewind is exactly min(overlap, previous end), length at most size plus overlap |
| ChunkLengths.ChunkLength | src/doccontext/chunking/recursive.py:144-168 | each chunk is as long as its window and the overlap, as far as there is text before the window |
| ChunkLengths.ChunksFitExactly | src/doccontext/chunking/recursive.py:16-22 | cut into characters, all chunks keep to the size if and only if there is no overlap or the text is short enough |
| ChunkLengths.SecondChunk | src/doccontext/chunking/recursive.py:19-22 | the second chunk of a longer text has its window's length and the overlap |
| ChunkLaws.ChunksEmpty | src/doccontext/chunking/recursive.py:48-52 | a text has no chunks exactly when it is empty |
| ChunkCounts.GreedyOptimal | src/doccontext/chunking/recursive.py:82-122 | when all pieces fit, the windows group consecutive pieces and no such grouping has fewer windows |
| ChunkGroups.GreedyExactly | src/doccontext/chunking/recursive.py:89-122 | a grouping of the pieces, oversized ones included, is the greedy one if and only if no group could have taken the next piece and only single pieces are too long |
| ChunkGroups.GroupsAreKept | src/doccontext/chunking/recursive.py:89-122 | a group that fits is a window, and no window reaches over the ends of a group: what is left of an oversized piece is not joined with what follows |
| ChunkCounts.ShortTextOneWindow | src/doccontext/chunking/recursive.py:16-22 | a non-empty text that fits is one window, whatever the separators |
| ChunkCounts.WindowsLinear | src/doccontext/chunking/recursive.py:82-142 | with k windows and d non-empty separators, (k - 1) * (size + 1) <= (2 + 2d) * length |
| ChunkDescent.DescentLaw | src/doccontext/chunking/recursive.py:124-142 | the separators are tried in their order: for any separators and any number n of them, a chunk ends at the end of the text, where one of the first n ends, or strictly inside a stretch between them that holds none of them and is longer than a window; if only characters are left to try, after a number of full windows |
| ChunkCuts.LineCuts | src/doccontext/chunking/recursive.py:7-10 | when the first n separators are those of lines, a chunk ends inside a line only if the line, its line break included, is longer than a window |
| ChunkCuts.DefaultLineCuts | src/doccontext/chunking/recursive.py:7-10 | the same for the default separators |
| ChunkCuts.SentenceCuts | src/doccontext/chunking/recursive.py:7-10 | when the first n separators are those of lines and sentences, a chunk ends inside a sentence only if the sentence, with what closes it, is longer than a window |
| ChunkCuts.DefaultSentenceCuts | src/doccontext/chunking/recursive.py:7-10 | the same for the default separators |
| ChunkCuts.WordCuts | src/doccontext/chunking/recursive.py:7-10 | the same for words, when only characters are left behind their separators, with the exact places of the cuts |
| ChunkCuts.NaturalCuts | src/doccontext/chunking/recursive.py:56-142 | with separators that end in breaks and try space and newline first, a chunk ends inside a word only if the word is longer than the size, and then a number of full windows from the word's beginning |
| ChunkCuts.DefaultNaturalCuts | src/doccontext/chunking/recursive.py:7-10 | the default separators never cut a word that would fit, and cut a longer one only after full windows |
| Ids.ChunkKeyReads | src/doccontext/ids.py:24-26 | the hashed string is the document id, a colon and the decimal digits that denote the index, without leading zeros |
| Ids.ChunkKeyInjective | src/doccontext/ids.py:24-26 | the hashed string determines document and index, even when document ids contain colons |
| KeyedStore.OrderUnique | src/doccontext/vector_stores/qdrant.py:149-181 | there is one ascending listing of a set of ids, so the scan order is well defined |
| KeyedStore.PageAt | src/doccontext/vector_stores/qdrant.py:154-162 | a page holds exactly the matches that follow those already read |
| KeyedStore.NextPageAt | src/doccontext/vector_stores/qdrant.py:154-180 | the next offset is where the next page begins, and absent exactly at the end: no gap and no repeat |
| KeyedStore.PutLookup | src/doccontext/vector_stores/qdrant.py:57-79 | after an upsert a key holds the last item written to it, or what it held before |
| KeyedStore.CountIsRemoved | src/doccontext/vector_stores/qdrant.py:193-205 | step: the count that a delete returns is the number of points that go |
| VectorStore.QdrantVectorStore.ListChunksForCorpora | src/doccontext/vector_stores/qdrant.py:130-181 | the paged loop ends and returns exactly the first `limit` points in scope in id order; nothing for no corpora or no limit |
| VectorStore.QdrantVectorStore.EnsureCollection | src/doccontext/vector_stores/qdrant.py:39-48 | creates an empty collection only when there is none |
| VectorStore.QdrantVectorStore.Upsert | src/doccontext/vector_stores/qdrant.py:57-79 | writes all chunks and returns their number; no chunks, no call; no collection, an error |
| VectorStore.QdrantVectorStore.DeleteByDocument | src/doccontext/vector_stores/qdrant.py:183-205 | removes exactly the points whose client and document are those asked for, keeps every other point as it is, and returns how many fewer there are |
| Query.JoinDocument | src/doccontext/services/query_service.py:249-258 | the loop over pieces and cursor joins the chunks without the parts already there |
| Query.AssembleDocuments | src/doccontext/services/query_service.py:236-259 | the loops group by document in first-seen order, sort and join |
| Query.CitationsForFullDoc | src/doccontext/services/query_service.py:276-304 | the loop over spans gives one citation per document in first-seen order |
| QueryLaws.SortSorts | src/doccontext/services/query_service.py:248 | sorting orders by chunk index and keeps every chunk as often as it occurs |
| QueryLaws.SortStable | src/doccontext/services/query_service.py:248 | sorting keeps the order of chunks with the same index |
| QueryLaws.JoinIsKept | src/doccontext/services/query_service.py:249-258 | joining ordered parts of a text gives its covered characters from the cursor on |
| QueryLaws.PartialAssembly | src/doccontext/services/query_service.py:247-258 | any chunks of a text, in any order and with repeats, rebuild exactly the covered characters, each once and in order |
| QueryLaws.AssembleForgetsOrder | src/doccontext/services/query_service.py:243-258 | when indices tell a document's chunks apart, every order of the same scan rebuilds the same text |
| QueryLaws.HullExact | src/doccontext/services/query_service.py:281-293 | the cited index and span bound all chunks of the document and each bound is met |
| QueryLaws.CitationFields | src/doccontext/services/query_service.py:276-304 | each citation, field by field: the corpus of its document's first listed chunk, the least index, least start and greatest end of the document's chunks, each met by one of them, and no score |
| QueryLaws.CitationHull | src/doccontext/services/query_service.py:276-304 | citations and rebuilt documents name the same documents in the same order; rebuilt length equals span length exactly when there is no gap |
| Jobs.EnvelopeRoundTrip | src/doccontext/workers/envelope.py:26-57 | step: the trip through the queue keeps an envelope if and only if its file path is not the empty string |
| Jobs.PayloadFields | src/doccontext/workers/envelope.py:49-57 | the wire format: seven keys, each with the field of its name, and the names of the job types |
| Jobs.ParsedFields | src/doccontext/workers/envelope.py:26-47 | a payload is malformed exactly when a required key is missing or the type is unknown; otherwise each field is read from the key of its name, a missing, null or empty path being none |
| Jobs.JobRepository.Create | src/doccontext/repositories/job.py:83-112 | inserts a QUEUED row without message; a taken id is refused; a raising call may have committed, and says which |
| Jobs.JobRepository.Get | src/doccontext/repositories/job.py:114-117 | the row, or nothing |
| Jobs.JobRepository.Transition | src/doccontext/repositories/job.py:132-149 | changes status and, when given, message of that one row from any old status; a missing row is an error; a call that raises before the commit changes nothing, one that raises in the refresh has changed the row |
| Jobs.JobRepository.MarkRunning | src/doccontext/repositories/job.py:119-120 | RUNNING, message kept |
| Jobs.JobRepository.MarkSucceeded | src/doccontext/repositories/job.py:122-125 | SUCCEEDED, message cleared |
| Jobs.JobRepository.MarkFailed | src/doccontext/repositories/job.py:127-130 | FAILED with the first 2048 characters of the message |
| Worker.DocumentWorker.HandleIndex | src/doccontext/workers/document_worker.py:83-115 | the store after an index job for every way it can succeed, stop early or fail, store calls that take effect and raise included; `History.IndexOutcome` says field by field what is then stored |
| Worker.DocumentWorker.HandleDelete | src/doccontext/workers/document_worker.py:117-122 | with a collection and no raising call no point of the client's document is left, every other point is as it was, and the answer is how many fewer there are; otherwise the error, and the store as it was unless the call took effect before it raised |
| Worker.DocumentWorker.Handle | src/doccontext/workers/document_worker.py:45-81 | rows, store and result of one message, for every failure of the outside world and of the repository |
| Worker.HandledAnswers | src/doccontext/workers/document_worker.py:45-81 | once a job begins, `handle` returns exactly when every call does, with the count of the job and a SUCCEEDED row without message; otherwise the row is FAILED with the beginning of what was raised, and what was raised last is raised on |
| Worker.HandledEarly | src/doccontext/workers/document_worker.py:45-55 | a message that does not begin a job raises, leaves the store, and changes at most its own row, to RUNNING |
| Worker.WorkIsOp | src/doccontext/workers/document_worker.py:56-73 | step: the new contents are exactly the recorded effect on the old ones; a job that returns has had its own effect, and one that raises none, unless its store call took effect first |
| Worker.IndexedIsExtracted | src/doccontext/workers/document_worker.py:83-115 | step: the effect of an index job is that of the text it extracted with the embeddings of its chunks |
| Worker.LateFailure | src/doccontext/workers/document_worker.py:74-81 | step: when only `mark_succeeded` raises, before or after its commit, the row says FAILED although the store has changed |
| Worker.MessageQueue.Publish | src/doccontext/queue/rabbitmq.py:43-54 | appends the payload to the queue |
| Worker.RabbitMQConsumer.Consume | src/doccontext/queue/rabbitmq.py:58-83 | the loop handles one message after the other while handlers insert rows and publishers add messages; a failing message is dropped and the loop goes on |
| Services.IndexDocumentHandler.Handle | src/doccontext/services/index_service.py:38-102 | row first, envelope second; a refused request or taken id changes nothing; either call may raise before or after it took effect |
| Services.DeleteDocumentHandler.Handle | src/doccontext/services/delete_service.py:33-90 | the same two steps for delete jobs, without corpus and file |
| Services.SubmissionsWellFormed | src/doccontext/services/index_service.py:45-87 | step: accepted index envelopes carry a non-empty path, delete envelopes none |
| Services.IndexAccepted | src/doccontext/services/index_service.py:45-87 | an index request is accepted exactly when client, corpus and path are given and the file type is one of three; the envelope carries them, with the given document id or else the fresh one |
| Services.DeleteAccepted | src/doccontext/services/delete_service.py:33-75 | a delete request is accepted exactly when client and document are given; the envelope carries them and nothing else |
| Pipeline.ServeIsHandled | src/doccontext/workers/document_worker.py:45-81 | step: the worker's atomic steps, taken without interruption, do what `handle` does |
| Serial.MovesAreConsumed | src/doccontext/queue/rabbitmq.py:65-83 | step: handlers' steps in between whole messages served is what the consumer's loop does |
| Serial.Serializable | src/doccontext/queue/rabbitmq.py:65-83 | whatever the interleaving of worker and handlers and whatever raises, the same handlers' steps in the same order, with whole messages served in between, lead to the same state, but for the message under way |
| Serial.RunIsConsumed | src/doccontext/queue/rabbitmq.py:65-83 | every interleaved run after which the worker is idle ends, in rows, store and queue, as the consumer's loop does in some turns with the same handlers' steps in the same order |
| Pipeline.SubmissionIsSteps | src/doccontext/services/index_service.py:69-91 | step: what a handler leaves behind is nothing, its first atomic step, or both |
| PipelineLaws.RunInv | src/doccontext/workers/document_worker.py:45-137 | every state of every run keeps single in-order delivery, rows before envelopes and the replayed store, whatever fails |
| PipelineLaws.RowBeforeEnvelope | src/doccontext/services/index_service.py:69-91 | every waiting or received message parses and its row agrees with it, so a malformed envelope or missing row cannot stop a job |
| SequentialSpec.SequentialRefinement | src/doccontext/queue/rabbitmq.py:65-83 | in every interleaving and whatever raises, the store is that of working on the published jobs one after the other, each with the text, embeddings and failures that the worker met; every recorded effect is that of this work; a SUCCEEDED row is that of a job whose work returned |
| SequentialSpec.RecordedIsExtracted | src/doccontext/workers/document_worker.py:83-115 | the text that a job of a run put into the store is the text that the worker extracted for it |
| Effects.EffectExactlyWhenSucceeded | src/doccontext/workers/document_worker.py:55-81 | in punctual runs a finished job has had its effect exactly when its row says SUCCEEDED, and every other finished job has had none |
| Endings.RowsTellExactly | src/doccontext/workers/document_worker.py:55-81 | in every run: the rows tell of every finished job whether it had its effect, if and only if no job was marked FAILED, or left unmarked, after its upsert or delete took effect |
| Endings.LifecycleOrder | src/doccontext/repositories/job.py:119-149 | in every run and at every event a row begins QUEUED, stays, and only its status and message change: from QUEUED to RUNNING, from RUNNING to SUCCEEDED or FAILED, and from SUCCEEDED to FAILED only after a `mark_succeeded` that committed and raised |
| Lifecycle.PlaceStatus | src/doccontext/workers/document_worker.py:45-81 | in every run every row is waiting to be published, queued, with the worker or finished, with the matching status; finished jobs are terminal when no repository call raises |
| Endings.OneRunning | src/doccontext/queue/rabbitmq.py:65-83 | in every run: the only RUNNING row is that of the message the worker holds, if and only if no `mark_running` raised after its commit and no `mark_failed` of a RUNNING row raised before its commit |
| Endings.AllEndExactly | src/doccontext/workers/document_worker.py:45-81 | in every run: the row of every job the worker is done with says SUCCEEDED or FAILED, if and only if no `mark_running` raised and no `mark_failed` of a RUNNING row raised before its commit |
| Lifecycle.MessageExactlyWhenFailed | src/doccontext/repositories/job.py:122-130 | in every run, whatever raises, a row has a message exactly when it is FAILED, and then of at most 2048 characters |
| Lifecycle.StickyEndings | src/doccontext/repositories/job.py:132-149 | in every run terminal rows never change again if and only if no job is marked FAILED after its `mark_succeeded` committed and raised |
| Lifecycle.StickyUnlessLate | src/doccontext/repositories/job.py:147-149 | endings are final, whatever else raises, unless some `mark_succeeded` raises after its commit |
| Rounds.LateSuccessOverturned | src/doccontext/workers/document_worker.py:74-81 | a run in which a row goes from SUCCEEDED to FAILED |
| Draining.StepsDescend | src/doccontext/workers/document_worker.py:45-81 | step: each step of a handler or of the worker that is not a new request lowers the measure, also when it raises |
| Draining.DrainBound | src/doccontext/queue/rabbitmq.py:65-83 | without new requests, whatever steps are taken in whatever order and whatever raises, no more follow than the measure says |
| Draining.IdleIsDrained | src/doccontext/services/index_service.py:69-91 | when the queue is empty, the worker idle and no repository call raised, every published job has ended, and every job whose handler has not published it, or stopped before, waits |
| Draining.QuietIsDrained | src/doccontext/services/index_service.py:69-91 | hence, when nothing but a new request can happen and no repository call raised, every row has ended |
| Draining.Drains | src/doccontext/queue/rabbitmq.py:65-83 | from any run, steps that do not raise lead to such an end, however the outside world behaves |
| Outcomes.WorkOutcome | src/doccontext/workers/document_worker.py:56-73 | in every run, whatever raises, each work on a message ends as `History.IndexOutcome` says of an index job, or as `HandleDelete` does |
| Outcomes.FailedSays | src/doccontext/repositories/job.py:127-130 | in every run, a row that is marked FAILED says the beginning of the error that the job's work or its `mark_succeeded` raised, all of it or its first 2048 characters |
| Outcomes.DeleteRound | src/doccontext/workers/document_worker.py:117-122 | from any resting pipeline whose collection exists, a delete request leads calmly to a SUCCEEDED job, with the client's document gone and everything else in place |
| Outcomes.FailedRound | src/doccontext/workers/document_worker.py:74-81 | from any resting pipeline a request whose work raises leads to a FAILED job with the beginning of the error |
| Outcomes.DeleteWithoutCollection | src/doccontext/vector_stores/qdrant.py:193-196 | before anything was indexed a delete job fails, although there is nothing to delete |
| History.IndexedSlot | src/doccontext/workers/document_worker.py:83-115 | indexing overwrites exactly the slots below the number of chunks; every other slot of every document stays |
| History.IndexedFields | src/doccontext/workers/document_worker.py:100-115 | after indexing, the point at the id of each chunk has the chunk's text, span and index, its vector, and the envelope's client, corpus, document and file type |
| History.IndexOutcome | src/doccontext/workers/document_worker.py:83-115 | an index job returns the number of its chunks exactly when there are none or all are stored; if its upsert takes effect all chunks are stored with their fields and every other point is as it was; otherwise no point changes |
| History.IndexRaises | src/doccontext/workers/document_worker.py:83-115 | step: an index job that raises, raises what its first failing step raised |
| History.ReindexIdempotent | src/doccontext/workers/document_worker.py:100-115 | running the same index job again at once changes nothing |
| History.EmptyTextKeepsOldChunks | src/doccontext/workers/document_worker.py:89-91 | step: an empty text succeeds and leaves every earlier chunk |
| History.ReplaySlotted | src/doccontext/ids.py:24-26 | after any history each point sits in the slot of its own document and index |
| History.DeletedUntilIndexed | src/doccontext/vector_stores/qdrant.py:183-205 | after a delete no point of that client's document exists until that client indexes a non-empty text for it |
| History.DeleteThenIndex | src/doccontext/workers/document_worker.py:83-122 | delete then index leaves, of the client's points, exactly the chunks of the new text, whatever was there before |
| RoundTrip.ChunksRebuildText | src/doccontext/services/query_service.py:247-258 | all chunks of a text, in any order, rebuild it: the overlap is exactly undone |
| RoundTrip.ListedIsStored | src/doccontext/vector_stores/qdrant.py:139-148 | a scan lists only stored points of the asking client and the requested corpora |
| RoundTrip.ListedFields | src/doccontext/vector_stores/qdrant.py:164-178 | every listed chunk is of the asking client and a requested corpus, is unscored, and agrees with the point stored at its id on every field of the payload |
| RoundTrip.RunListedFields | src/doccontext/vector_stores/qdrant.py:164-178 | so it is in every run |
| RoundTrip.ListedFirst | src/doccontext/vector_stores/qdrant.py:149-181 | a scan that leaves out a point in scope is full and lists only points before it in id order |
| RoundTrip.TruncatedScan | src/doccontext/vector_stores/qdrant.py:154-180 | a scan cut by its limit still rebuilds exactly the characters of the listed chunks |
| RoundTrip.FullScanRebuilds | src/doccontext/services/query_service.py:236-259 | a scan with room for all rebuilds each held document in scope |
| RoundTrip.EndToEnd | src/doccontext/workers/document_worker.py:83-115 | index any documents with distinct ids and non-empty texts, scan by pages, assemble: exactly those ids with those texts |
| RoundTrip.RunRoundTrip | src/doccontext/workers/document_worker.py:83-115 | in punctual runs, from the rows: a document whose index job SUCCEEDED when its client had no chunks of it, and that no job touched since, is rebuilt from the store as it is now, as exactly the text extracted for that job |
| RoundTrip.RunDeleted | src/doccontext/workers/document_worker.py:117-122 | in punctual runs, from the rows: after a delete job SUCCEEDED the client's document stays absent while later index jobs of it are queued or failed |
| RoundTrip.ScanOrderIrrelevant | src/doccontext/services/query_service.py:243-258 | in every run, every reordering of a scan rebuilds the same documents |
| RoundTrip.CitationOfText | src/doccontext/services/query_service.py:276-304 | the span of a document's citation is the hull of its listed chunks, and as long as the rebuilt text exactly when they leave no gap |
| Reindex.ReindexedPoints | src/doccontext/workers/document_worker.py:83-115 | after indexing, the document's points are exactly the new chunks and the earlier points from the number of new chunks on |
| Reindex.RunIndexedFields | src/doccontext/workers/document_worker.py:100-115 | in punctual runs, from the rows: after an index job SUCCEEDED, and while nothing touches the document, each chunk of the extracted text is stored with the vector the worker got for it, under the job's client, corpus, document and file type |
| Reindex.RunListedAgain | src/doccontext/workers/document_worker.py:83-115 | what is then listed of the document, up to the number of its chunks, carries the job's corpus and file type and the text and span of its chunk |
| Reindex.ReindexExact | src/doccontext/workers/document_worker.py:83-115 | after indexing a document again, and while nothing touches it, the rebuilt text is the new one if and only if no earlier chunk in scope beyond the number of new chunks ends beyond its end |
| Reindex.TwoTexts | src/doccontext/services/query_service.py:247-258 | chunks of a new text, and all chunks of an earlier one from the number of new chunks on, rebuild the new text followed by the earlier text's characters beyond its end that those chunks cover |
| Reindex.IndexTwiceExact | src/doccontext/workers/document_worker.py:83-115 | two jobs, of any clients and corpora: the second text is rebuilt, followed by what the scan still finds of the first; nothing follows if and only if the first one's chunks are out of the scan, no more than the new ones, or reach no further |
| Reindex.RunReindexed | src/doccontext/workers/document_worker.py:83-115 | the exact condition in every punctual run, for the document's last index job and the text extracted for it, on the store as it was when the worker got to that job |
| Reindex.RunIndexedTwice | src/doccontext/workers/document_worker.py:83-115 | in every punctual run with two successful index jobs of a document that nothing else touched: the later extracted text is rebuilt, followed by what is left of the earlier one, and alone if and only if the earlier one's chunks do not hide it |
| Reindex.ShorterTextSpoils | src/doccontext/workers/document_worker.py:83-115 | for every shorter text with fewer chunks there is such a run in which it is not rebuilt |
| Reindex.ReindexCounterexample | src/doccontext/workers/document_worker.py:83-115 | for any separators, the default ones included, a calm run with a concrete pair of texts, both jobs SUCCEEDED, after which re-indexing does not give the new text |
| Reindex.OtherClientsScan | src/doccontext/ids.py:24-26 | one client's index job leaves another client's scan as it was if and only if that client had no chunk of the same document id, in scope, below the number of new chunks |

## Left out

- gRPC plumbing, settings, logging and timing, and the `created_at` / `updated_at` columns.
- The status request, the language model client, prompts, router, answer parsing and history trimming.
- The query semaphore, whose guarantee is that of asyncio.
- Similarity search and scores: vectors are opaque values, one per chunk.
- Text extraction and embedding: results or errors that come from outside.
- The insides of Qdrant, PostgreSQL and RabbitMQ: a keyed map scanned in id order, rows changed atomically, a FIFO queue.
- Column lengths other than that of the error message, and points with missing payload fields, which this store never writes.
- Partly applied upserts or deletes: a store call that returns has its full effect, one that raises has its full effect or none.
- Redelivery after a broker crash: runs deliver each message once; `History.ReindexIdempotent` covers a repeated index job.
- Worker.RabbitMQConsumer.Consume: the endless loop as a loop over any finite number of turns; waiting for a message is a turn without one.
- A handler that stops between its two steps, because a call raised: its row stays QUEUED, as a handler whose publish never comes.
- Chunking.RecursiveCharacterChunker: a value, because its fields never change after construction.
