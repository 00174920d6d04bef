/** What single jobs leave behind in runs: the effect of each work on the store, what a FAILED row says, and runs in
    which a delete succeeds or a job fails. */
module Outcomes {
  import opened PyText
  import opened Ids
  import opened VectorStore
  import opened Jobs
  import opened Worker
  import opened Services
  import opened Pipeline
  import opened PipelineLaws
  import opened Lifecycle
  import opened Effects
  import opened History
  import opened Rounds

  /** In every run, whatever raises, each work on a message ends as an index or delete job should. */
  lemma {:induction false} WorkOutcome(s: Setup, es: seq<Event>, k: nat)
    requires s.chunker.Valid() && Injective(s.uuid5) && Run(s, es).Some? && k < |es| && es[k].DoWork?
    ensures Run(s, es[..k]).Some? && Run(s, es[..k + 1]).Some?
    ensures var st, st', o := Run(s, es[..k]).value, Run(s, es[..k + 1]).value, es[k].outside;
      && st.worker.Working? && st'.worker.Ending? && st'.worker.done == st.worker.envelope && st'.rows == st.rows
      && var e, r := st.worker.envelope, st'.worker.result;
         if e.jobType.IndexDocument? then IndexEnds(s, e, o, Contents(st.collection), Contents(st'.collection), r)
         else DeleteEnds(e, o, st.collection, st'.collection, r)
  {
    RunNext(s, es, k);
    var st := Run(s, es[..k]).value;
    if st.worker.envelope.jobType.IndexDocument? {
      IndexOutcome(s, st.worker.envelope, es[k].outside, st.collection);
    } else {
      DeleteOutcome(st.worker.envelope, es[k].outside, st.collection);
    }
  }

  // ---------- What a FAILED row says ----------

  /** The event raises the error: the work on the message does, or `mark_succeeded`. */
  predicate Raises(s: Setup, st: State, ev: Event, error: string)
    requires s.chunker.Valid()
  {
    match ev
    case DoWork(o) => st.worker.Working? && WorkOn(s, st.worker.envelope, o, st.collection).result == Err(error)
    case MarkSucceeded(fault) => fault.Some? && fault.value.message == error
    case _ => false
  }

  predicate RaisedBy(s: Setup, es: seq<Event>, j: nat, error: string)
    requires s.chunker.Valid() && j < |es|
  {
    Run(s, es[..j]).Some? && Raises(s, Run(s, es[..j]).value, es[j], error)
  }

  /** The worker is about to mark the job FAILED with the error. */
  predicate FailsWith(st: State, error: string) { st.worker.Ending? && st.worker.result == Err(error) }

  lemma {:induction false} StepBlame(s: Setup, st: State, ev: Event, st': State, error: string)
    requires s.chunker.Valid() && Recorded(st) && Enabled(st, ev) && st' == Step(s, st, ev) && FailsWith(st', error)
    ensures if WorkerEvent(ev) then Raises(s, st, ev, error) else FailsWith(st, error)
  {
  }

  predicate FailsAfter(s: Setup, es: seq<Event>, k: nat, error: string)
    requires s.chunker.Valid() && k <= |es|
  {
    Run(s, es[..k]).Some? && FailsWith(Run(s, es[..k]).value, error)
  }

  lemma {:induction false} LastBlame(s: Setup, es: seq<Event>, k: nat, error: string)
    requires s.chunker.Valid() && Run(s, es).Some? && k < |es| && FailsAfter(s, es, k + 1, error)
    ensures if WorkerEvent(es[k]) then RaisedBy(s, es, k, error) else FailsAfter(s, es, k, error)
  {
    RunNext(s, es, k);
    StepBlame(s, Run(s, es[..k]).value, es[k], Run(s, es[..k + 1]).value, error);
  }

  lemma {:induction false} NotAtFirst(s: Setup, es: seq<Event>, error: string)
    requires s.chunker.Valid()
    ensures !FailsAfter(s, es, 0, error)
  {
    assert es[..0] == [];
  }

  predicate NoWorkerEvent(es: seq<Event>, from: nat, to: nat)
    requires to <= |es|
  {
    forall i :: from <= i < to ==> !WorkerEvent(es[i])
  }

  /** The error that the worker holds was raised by its last step. */
  lemma {:induction false} Blame(s: Setup, es: seq<Event>, k: nat, error: string) returns (j: nat)
    requires s.chunker.Valid() && Run(s, es).Some? && k <= |es| && FailsAfter(s, es, k, error)
    ensures j < k && RaisedBy(s, es, j, error) && NoWorkerEvent(es, j + 1, k)
    decreases k
  {
    NotAtFirst(s, es, error);
    LastBlame(s, es, k - 1, error);
    if WorkerEvent(es[k - 1]) {
      j := k - 1;
    } else {
      j := Blame(s, es, k - 1, error);
    }
  }

  /** What a FAILED row says, in every run: the beginning of the error that the job's work raised, or that its
      `mark_succeeded` raised, all of it or its first 2048 characters. */
  lemma {:induction false} FailedSays(s: Setup, es: seq<Event>, k: nat) returns (j: nat, error: string)
    requires s.chunker.Valid() && Run(s, es).Some? && k < |es| && es[k].MarkFailed? && !Blocks(es[k].fault)
    ensures j < k && RaisedBy(s, es, j, error) && NoWorkerEvent(es, j + 1, k)
    ensures Run(s, es[..k]).Some? && Run(s, es[..k]).value.worker.Ending?
    ensures var row := RowAfter(s, es, k + 1, Run(s, es[..k]).value.worker.done.jobId);
      && row.Some? && row.value.status.Failed? && row.value.errorMessage.Some?
      && row.value.errorMessage.value <= error && |row.value.errorMessage.value| == Min(|error|, ERROR_LIMIT)
  {
    RunNext(s, es, k);
    var st := Run(s, es[..k]).value;
    RunInv(s, es[..k]);
    error := st.worker.result.error;
    j := Blame(s, es, k, error);
    ClippedIsPrefix(error);
    var e := HeldEnvelope(st);
  }

  // ---------- Runs that exist ----------

  /** From any resting pipeline whose collection exists, a delete request with a fresh job id leads calmly to a
      SUCCEEDED job, with the client's document gone and everything else in place. */
  lemma {:induction false} DeleteRound(
    s: Setup, es: seq<Event>, q: DeleteRequest, e: JobEnvelope, o: Outside) returns (round: seq<Event>)
    requires s.chunker.Valid() && Run(s, es).Some? && Resting(Run(s, es).value)
    requires DeleteSubmission(q, e.jobId) == Ok(e) && e.jobId !in Run(s, es).value.rows
    requires Run(s, es).value.collection.Some? && o.storeFault.None?
    ensures Calm(round) && Punctual(round) && Run(s, es + round).Some?
    ensures var st, st' := Run(s, es).value, Run(s, es + round).value;
      && Resting(st') && e.jobId in st'.rows && st'.rows[e.jobId].status.Succeeded? && st'.collection.Some?
      && Removed(st.collection.value, st'.collection.value, q.clientId, q.documentId)
      && Absent(st'.collection.value, q.clientId, q.documentId)
  {
    var st := Run(s, es).value;
    DeleteOutcome(e, o, st.collection);
    round := RoundSucceeds(s, es, CreateDelete(q, e.jobId), e, o);
  }

  lemma {:induction false} EndsFailed(s: Setup, es: seq<Event>, st: State, e: JobEnvelope, o: Outside, error: string)
    requires s.chunker.Valid() && Resting(st) && Run(s, es) == Some(Begun(s, st, e, o))
    requires WorkOn(s, e, o, st.collection).result == Err(error)
    ensures Run(s, es + [MarkFailed(None)]).Some?
    ensures var st' := Run(s, es + [MarkFailed(None)]).value;
      && Resting(st') && st'.collection == WorkOn(s, e, o, st.collection).collection
      && st'.rows == st.rows[e.jobId := NewRow(e).(status := Failed, errorMessage := Some(Clipped(error)))]
  {
    RunSnoc(s, es, MarkFailed(None));
  }

  /** From any resting pipeline a request with a fresh job id whose work raises leads to a FAILED job with the
      beginning of the error. */
  lemma {:induction false} FailedRound(
    s: Setup, es: seq<Event>, create: Event, e: JobEnvelope, o: Outside, error: string) returns (round: seq<Event>)
    requires s.chunker.Valid() && Run(s, es).Some? && Resting(Run(s, es).value)
    requires Requests(create, e) && e.jobId !in Run(s, es).value.rows
    requires WorkOn(s, e, o, Run(s, es).value.collection).result == Err(error)
    ensures Run(s, es + round).Some?
    ensures var st' := Run(s, es + round).value;
      && Resting(st') && e.jobId in st'.rows && st'.rows[e.jobId].status.Failed?
      && st'.rows[e.jobId].errorMessage.Some? && st'.rows[e.jobId].errorMessage.value <= error
      && |st'.rows[e.jobId].errorMessage.value| == Min(|error|, ERROR_LIMIT)
  {
    round := Beginning(create, e, o) + [MarkFailed(None)];
    RoundBegins(s, es, create, e, o);
    EndsFailed(s, es + Beginning(create, e, o), Run(s, es).value, e, o, error);
    ClippedIsPrefix(error);
    assert es + round == es + Beginning(create, e, o) + [MarkFailed(None)];
  }

  /** Without a collection a delete job fails, although there is nothing to delete. */
  lemma {:induction false} DeleteWithoutCollection(
    s: Setup, es: seq<Event>, q: DeleteRequest, e: JobEnvelope, o: Outside) returns (round: seq<Event>)
    requires s.chunker.Valid() && Run(s, es).Some? && Resting(Run(s, es).value)
    requires DeleteSubmission(q, e.jobId) == Ok(e) && e.jobId !in Run(s, es).value.rows
    requires Run(s, es).value.collection.None? && o.storeFault.None?
    ensures Run(s, es + round).Some?
    ensures var st' := Run(s, es + round).value;
      Resting(st') && e.jobId in st'.rows && st'.rows[e.jobId].status.Failed?
  {
    round := FailedRound(s, es, CreateDelete(q, e.jobId), e, o, NO_COLLECTION);
  }
}
