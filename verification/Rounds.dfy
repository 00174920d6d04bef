/** Runs that exist: a resting pipeline takes one request to its end. */
module Rounds {
  import opened PyText
  import opened Jobs
  import opened Worker
  import opened Services
  import opened Pipeline
  import opened PipelineLaws
  import opened Lifecycle
  import opened Effects

  /** No handler, message or job is under way. */
  predicate Resting(st: State) { st.unpublished == map[] && st.queue == [] && st.worker.Idle? }

  /** The request that is accepted with the envelope. */
  predicate Requests(ev: Event, e: JobEnvelope) {
    match ev
    case CreateIndex(q, jobId, freshId) => IndexSubmission(q, jobId, freshId) == Ok(e)
    case CreateDelete(q, jobId) => DeleteSubmission(q, jobId) == Ok(e)
    case _ => false
  }

  /** A resting pipeline after a request was created, published, taken and worked on. */
  function Begun(s: Setup, st: State, e: JobEnvelope, o: Outside): State
    requires s.chunker.Valid()
  {
    var w := WorkOn(s, e, o, st.collection);
    st.(rows := st.rows[e.jobId := NewRow(e).(status := Running)], worker := Ending(e, w.result),
        collection := w.collection, published := st.published + [e], ops := st.ops + [w.op])
  }

  function Beginning(create: Event, e: JobEnvelope, o: Outside): seq<Event> {
    [create, Publish(e.jobId), Take, MarkRunning(None), DoWork(o)]
  }

  /** The state after the request was created and published. */
  function Requested(st: State, e: JobEnvelope): State {
    st.(rows := st.rows[e.jobId := NewRow(e)], queue := [ToPayload(e)], published := st.published + [e])
  }

  lemma {:induction false} Submits(s: Setup, st: State, create: Event, e: JobEnvelope)
    requires s.chunker.Valid() && Recorded(st) && Resting(st) && Requests(create, e) && e.jobId !in st.rows
    ensures Enabled(st, create) && Enabled(Step(s, st, create), Publish(e.jobId))
    ensures Step(s, Step(s, st, create), Publish(e.jobId)) == Requested(st, e)
  {
    assert map[e.jobId := e] - {e.jobId} == map[];
    assert [] + [ToPayload(e)] == [ToPayload(e)];
  }

  lemma {:induction false} Starts(s: Setup, st: State, e: JobEnvelope)
    requires s.chunker.Valid() && Recorded(st) && st.worker.Idle? && st.queue == [ToPayload(e)] && WellFormed(e)
    requires e.jobId in st.rows && st.rows[e.jobId] == NewRow(e)
    ensures Enabled(st, Take) && Enabled(Step(s, st, Take), MarkRunning(None))
    ensures Step(s, Step(s, st, Take), MarkRunning(None)) ==
      st.(rows := st.rows[e.jobId := NewRow(e).(status := Running)], queue := [], worker := Working(e),
          ops := st.ops + [Untouched])
  {
    EnvelopeRoundTrip(e);
    assert st.queue[1..] == [];
  }

  lemma {:induction false} Works(s: Setup, st: State, e: JobEnvelope, o: Outside, ops: seq<StoreOp>)
    requires s.chunker.Valid() && st.worker == Working(e) && st.ops == ops + [Untouched]
    ensures Enabled(st, DoWork(o))
    ensures var w := WorkOn(s, e, o, st.collection);
      Step(s, st, DoWork(o)) == st.(collection := w.collection, worker := Ending(e, w.result), ops := ops + [w.op])
  {
  }

  lemma {:induction false} RequestWellFormed(create: Event, e: JobEnvelope)
    requires Requests(create, e)
    ensures WellFormed(e)
  {
  }

  lemma {:induction false} RunTwo(s: Setup, es: seq<Event>, st: State, a: Event, b: Event, st': State)
    requires s.chunker.Valid() && Run(s, es) == Some(st) && Recorded(st) && Enabled(st, a)
    requires Enabled(Step(s, st, a), b) && st' == Step(s, Step(s, st, a), b)
    ensures Run(s, es + [a] + [b]) == Some(st')
  {
    RunSnoc(s, es, a);
    RunSnoc(s, es + [a], b);
  }

  /** The state after the request was taken up. */
  function TakenUp(st: State, e: JobEnvelope): State {
    st.(rows := st.rows[e.jobId := NewRow(e).(status := Running)], worker := Working(e),
        published := st.published + [e], ops := st.ops + [Untouched])
  }

  lemma {:induction false} RoundSubmits(s: Setup, es: seq<Event>, create: Event, e: JobEnvelope)
    requires s.chunker.Valid() && Run(s, es).Some? && Resting(Run(s, es).value)
    requires Requests(create, e) && e.jobId !in Run(s, es).value.rows
    ensures Run(s, es + [create] + [Publish(e.jobId)]) == Some(Requested(Run(s, es).value, e))
  {
    Submits(s, Run(s, es).value, create, e);
    RunTwo(s, es, Run(s, es).value, create, Publish(e.jobId), Requested(Run(s, es).value, e));
  }

  lemma {:induction false} BeginningSteps(es: seq<Event>, create: Event, e: JobEnvelope, o: Outside)
    ensures es + Beginning(create, e, o)
         == es + [create] + [Publish(e.jobId)] + [Take] + [MarkRunning(None)] + [DoWork(o)]
  {
  }

  lemma {:induction false} TakesUp(s: Setup, es: seq<Event>, st: State, e: JobEnvelope)
    requires s.chunker.Valid() && Recorded(st) && Resting(st) && WellFormed(e)
    requires Run(s, es) == Some(Requested(st, e))
    ensures Run(s, es + [Take] + [MarkRunning(None)]) == Some(TakenUp(st, e))
  {
    Starts(s, Requested(st, e), e);
    assert st.rows[e.jobId := NewRow(e)][e.jobId := NewRow(e).(status := Running)]
        == st.rows[e.jobId := NewRow(e).(status := Running)];
    RunTwo(s, es, Requested(st, e), Take, MarkRunning(None), TakenUp(st, e));
  }

  lemma {:induction false} TakesOn(s: Setup, es: seq<Event>, st: State, e: JobEnvelope, o: Outside)
    requires s.chunker.Valid() && Run(s, es) == Some(TakenUp(st, e))
    ensures Run(s, es + [DoWork(o)]) == Some(Begun(s, st, e, o))
  {
    Works(s, TakenUp(st, e), e, o, st.ops);
    RunSnoc(s, es, DoWork(o));
  }

  /** Any accepted request with a fresh job id can be taken to the end of its work. */
  lemma {:induction false} RoundBegins(s: Setup, es: seq<Event>, create: Event, e: JobEnvelope, o: Outside)
    requires s.chunker.Valid() && Run(s, es).Some? && Resting(Run(s, es).value)
    requires Requests(create, e) && e.jobId !in Run(s, es).value.rows
    ensures Run(s, es + Beginning(create, e, o)) == Some(Begun(s, Run(s, es).value, e, o))
  {
    var st := Run(s, es).value;
    var two := es + [create] + [Publish(e.jobId)];
    RequestWellFormed(create, e);
    RoundSubmits(s, es, create, e);
    TakesUp(s, two, st, e);
    TakesOn(s, two + [Take] + [MarkRunning(None)], st, e, o);
    BeginningSteps(es, create, e, o);
  }

  lemma {:induction false} Succeeds(s: Setup, es: seq<Event>, st: State, e: JobEnvelope, o: Outside)
    requires s.chunker.Valid() && Resting(st) && Run(s, es) == Some(Begun(s, st, e, o))
    requires WorkOn(s, e, o, st.collection).result.Ok?
    ensures Run(s, es + [MarkSucceeded(None)]).Some?
    ensures var st' := Run(s, es + [MarkSucceeded(None)]).value;
      && Resting(st') && st'.published == st.published + [e]
      && st'.ops == st.ops + [WorkOn(s, e, o, st.collection).op]
      && st'.collection == WorkOn(s, e, o, st.collection).collection
      && st'.rows == st.rows[e.jobId := NewRow(e).(status := Succeeded)]
  {
    RunSnoc(s, es, MarkSucceeded(None));
  }

  lemma {:induction false} CalmBeginning(create: Event, e: JobEnvelope, o: Outside)
    requires Requests(create, e)
    ensures Calm(Beginning(create, e, o) + [MarkSucceeded(None)])
    ensures !Late(o.storeFault) ==> Punctual(Beginning(create, e, o) + [MarkSucceeded(None)])
  {
  }

  /** A job whose work returns ends SUCCEEDED, and the pipeline rests again. */
  lemma {:induction false} RoundSucceeds(s: Setup, es: seq<Event>, create: Event, e: JobEnvelope, o: Outside)
    returns (round: seq<Event>)
    requires s.chunker.Valid() && Run(s, es).Some? && Resting(Run(s, es).value)
    requires Requests(create, e) && e.jobId !in Run(s, es).value.rows
    requires WorkOn(s, e, o, Run(s, es).value.collection).result.Ok?
    ensures Calm(round) && (!Late(o.storeFault) ==> Punctual(round)) && Run(s, es + round).Some?
    ensures var st, st' := Run(s, es).value, Run(s, es + round).value;
      && Resting(st') && st'.published == st.published + [e]
      && st'.ops == st.ops + [WorkOn(s, e, o, st.collection).op]
      && st'.collection == WorkOn(s, e, o, st.collection).collection
      && st'.rows == st.rows[e.jobId := NewRow(e).(status := Succeeded)]
  {
    round := Beginning(create, e, o) + [MarkSucceeded(None)];
    CalmBeginning(create, e, o);
    RoundBegins(s, es, create, e, o);
    Succeeds(s, es + Beginning(create, e, o), Run(s, es).value, e, o);
    assert es + round == es + Beginning(create, e, o) + [MarkSucceeded(None)];
  }

  /** From the end of its work, a late `mark_succeeded` and a `mark_failed` take the row to SUCCEEDED and on to
      FAILED. */
  lemma {:induction false} LateMarks(s: Setup, st: State, e: JobEnvelope, v: string)
    requires s.chunker.Valid() && Recorded(st) && st.worker.Ending? && st.worker.done == e && st.worker.result.Ok?
    requires e.jobId in st.rows && st.rows[e.jobId] == NewRow(e).(status := Running)
    ensures Enabled(st, MarkSucceeded(Some(Fault(v, true))))
    ensures var late := Step(s, st, MarkSucceeded(Some(Fault(v, true))));
      && e.jobId in late.rows && late.rows[e.jobId] == NewRow(e).(status := Succeeded)
      && Enabled(late, MarkFailed(None))
      && var failed := Step(s, late, MarkFailed(None));
         e.jobId in failed.rows
         && failed.rows[e.jobId] == NewRow(e).(status := Failed, errorMessage := Some(Clipped(v)))
  {
  }

  lemma {:induction false} EmptyTextRound(s: Setup, q: IndexRequest, e: JobEnvelope, freshId: string)
    returns (begun: seq<Event>)
    requires s.chunker.Valid() && IndexSubmission(q, e.jobId, freshId) == Ok(e)
    ensures |begun| == 5 && Run(s, begun).Some?
    ensures var st := Run(s, begun).value;
      && st.worker.Ending? && st.worker.done == e && st.worker.result.Ok?
      && e.jobId in st.rows && st.rows[e.jobId] == NewRow(e).(status := Running)
  {
    var create, o := CreateIndex(q, e.jobId, freshId), Outside(Ok(""), Ok([]), None, None);
    begun := Beginning(create, e, o);
    assert [] + begun == begun;
    RoundBegins(s, [], create, e, o);
  }

  /** Endings are not final in every run: an index job of an empty text whose `mark_succeeded` raises after
      its commit goes from SUCCEEDED to FAILED. */
  lemma {:induction false} LateSuccessOverturned(s: Setup, q: IndexRequest, e: JobEnvelope, freshId: string, v: string)
    returns (es: seq<Event>)
    requires s.chunker.Valid() && IndexSubmission(q, e.jobId, freshId) == Ok(e)
    ensures Run(s, es).Some? && |es| == 7
    ensures RowAfter(s, es, 6, e.jobId) == Some(NewRow(e).(status := Succeeded))
    ensures RowAfter(s, es, 7, e.jobId) == Some(NewRow(e).(status := Failed, errorMessage := Some(Clipped(v))))
    ensures !Sticky(s, es)
  {
    var begun := EmptyTextRound(s, q, e, freshId);
    var late := MarkSucceeded(Some(Fault(v, true)));
    es := begun + [late] + [MarkFailed(None)];
    LateMarks(s, Run(s, begun).value, e, v);
    RunSnoc(s, begun, late);
    RunSnoc(s, begun + [late], MarkFailed(None));
    assert es[..6] == begun + [late] && es[..7] == es;
    assert EndedAfter(s, es, 6, e.jobId);
  }
}
