/** The whole job pipeline as a transition system: request handlers that create a row and later publish
    its envelope, a FIFO queue, one worker that takes one message at a time, and the vector store.
    Handlers and worker interleave in any way. */
module Pipeline {
  import opened PyText
  import opened VectorStore
  import opened Jobs
  import opened Worker
  import opened Services

  /** Where the worker stands with its message. */
  datatype WorkerState =
    | Idle
    | Received(payload: Payload)
    | Working(envelope: JobEnvelope)
    | Ending(done: JobEnvelope, result: Result<nat, string>)

  /** `unpublished` holds the envelopes of handlers between their two steps. The last two fields record the
      run: all envelopes in the order they were published, and for each message taken so far, in order,
      what its job did to the store. */
  datatype State = State(
    rows: Rows, unpublished: map<string, JobEnvelope>, queue: seq<Payload>, worker: WorkerState,
    collection: Option<Points>, published: seq<JobEnvelope>, ops: seq<StoreOp>)

  const INITIAL := State(map[], map[], [], Idle, None, [], [])

  /** One atomic step of a handler or of the worker; faults and the outside world are chosen freely. */
  datatype Event =
    | CreateIndex(index: IndexRequest, jobId: string, freshId: string)
    | CreateDelete(delete: DeleteRequest, jobId: string)
    | Publish(id: string)
    | Take
    | MarkRunning(fault: Option<Fault>)
    | DoWork(outside: Outside)
    | MarkSucceeded(fault: Option<Fault>)
    | MarkFailed(fault: Option<Fault>)

  predicate Enabled(st: State, ev: Event) {
    match ev
    case CreateIndex(_, _, _) => true
    case CreateDelete(_, _) => true
    case Publish(id) => id in st.unpublished
    case Take => st.worker.Idle? && st.queue != []
    case MarkRunning(_) => st.worker.Received?
    case DoWork(_) => st.worker.Working?
    case MarkSucceeded(_) => st.worker.Ending? && st.worker.result.Ok?
    case MarkFailed(_) => st.worker.Ending? && st.worker.result.Err?
  }

  /** A handler's first step; a refused request or a taken job id changes nothing. */
  function AfterCreate(st: State, submission: Result<JobEnvelope, string>): State {
    if submission.Err? || submission.value.jobId in st.rows then st
    else
      var e := submission.value;
      st.(rows := st.rows[e.jobId := NewRow(e)], unpublished := st.unpublished[e.jobId := e])
  }

  function AfterPublish(st: State, id: string): State
    requires id in st.unpublished
  {
    var e := st.unpublished[id];
    st.(unpublished := st.unpublished - {id}, queue := st.queue + [ToPayload(e)], published := st.published + [e])
  }

  /** `from_payload`, then `mark_running`; when either raises, the message is dropped. */
  function AfterMarkRunning(st: State, fault: Option<Fault>): State
    requires st.worker.Received?
  {
    var parsed := FromPayload(st.worker.payload);
    if parsed.Err? then st.(worker := Idle)
    else
      var e := parsed.value;
      var begun := fault.None? && e.jobId in st.rows;
      st.(rows := Attempted(st.rows, e.jobId, Running, Keep, fault), worker := if begun then Working(e) else Idle)
  }

  function AfterWork(s: Setup, st: State, o: Outside): State
    requires s.chunker.Valid() && st.worker.Working? && st.ops != []
  {
    var w := WorkOn(s, st.worker.envelope, o, st.collection);
    st.(collection := w.collection, worker := Ending(st.worker.envelope, w.result), ops := st.ops[|st.ops| - 1 := w.op])
  }

  /** A raising `mark_succeeded`, whether it took effect or not, turns the end into a failure. */
  function AfterMarkSucceeded(st: State, fault: Option<Fault>): State
    requires st.worker.Ending?
  {
    var e := st.worker.done;
    st.(rows := Attempted(st.rows, e.jobId, Succeeded, SetTo(None), fault),
        worker := if fault.Some? then Ending(e, Err(fault.value.message)) else Idle)
  }

  function AfterMarkFailed(st: State, fault: Option<Fault>): State
    requires st.worker.Ending? && st.worker.result.Err?
  {
    var message := Clipped(st.worker.result.error);
    st.(rows := Attempted(st.rows, st.worker.done.jobId, Failed, SetTo(Some(message)), fault), worker := Idle)
  }

  /** Busy workers have taken a message. */
  predicate Recorded(st: State) {
    st.worker.Idle? || st.ops != []
  }

  function Step(s: Setup, st: State, ev: Event): (st': State)
    requires s.chunker.Valid() && Recorded(st) && Enabled(st, ev)
    ensures Recorded(st')
  {
    match ev
    case CreateIndex(q, jobId, freshId) => AfterCreate(st, IndexSubmission(q, jobId, freshId))
    case CreateDelete(q, jobId) => AfterCreate(st, DeleteSubmission(q, jobId))
    case Publish(id) => AfterPublish(st, id)
    case Take => st.(queue := st.queue[1..], worker := Received(st.queue[0]), ops := st.ops + [Untouched])
    case MarkRunning(fault) => AfterMarkRunning(st, fault)
    case DoWork(o) => AfterWork(s, st, o)
    case MarkSucceeded(fault) => AfterMarkSucceeded(st, fault)
    case MarkFailed(fault) => AfterMarkFailed(st, fault)
  }

  /** The state that a run leads to, if each of its events is enabled where it happens. */
  function Run(s: Setup, es: seq<Event>): (r: Option<State>)
    requires s.chunker.Valid()
    ensures r.Some? ==> Recorded(r.value)
  {
    if es == [] then Some(INITIAL)
    else
      var before := Run(s, es[..|es| - 1]);
      if before.None? || !Enabled(before.value, es[|es| - 1]) then None
      else Some(Step(s, before.value, es[|es| - 1]))
  }

  /** No repository call raises. */
  predicate Calm(es: seq<Event>) {
    forall ev :: ev in es ==> CalmEvent(ev)
  }

  predicate CalmEvent(ev: Event) {
    (ev.MarkRunning? || ev.MarkSucceeded? || ev.MarkFailed?) ==> ev.fault.None?
  }

  predicate WorkerEvent(ev: Event) {
    ev.Take? || ev.MarkRunning? || ev.DoWork? || ev.MarkSucceeded? || ev.MarkFailed?
  }

  // ---------- One message, step by step ----------

  /** What the worker's steps do with one message, from taking it to dropping it. */
  function Serve(s: Setup, st: State, c: Circumstances): State
    requires s.chunker.Valid() && st.worker.Idle? && st.queue != []
  {
    var received := Step(s, st, Take);
    var begun := Step(s, received, MarkRunning(c.faults.running));
    if begun.worker.Idle? then begun
    else
      var ended := Step(s, begun, DoWork(c.outside));
      var marked := if ended.worker.result.Ok? then Step(s, ended, MarkSucceeded(c.faults.succeeded)) else ended;
      if marked.worker.Idle? then marked else Step(s, marked, MarkFailed(c.faults.failed))
  }

  /** After taking a message the worker's steps leave queue and handlers alone. */
  lemma {:induction false} WorkFrame(s: Setup, st: State, ev: Event)
    requires s.chunker.Valid() && Recorded(st) && Enabled(st, ev)
    requires ev.MarkRunning? || ev.DoWork? || ev.MarkSucceeded? || ev.MarkFailed?
    ensures var st' := Step(s, st, ev);
      st'.queue == st.queue && st'.unpublished == st.unpublished && st'.published == st.published
  {
  }

  lemma {:induction false} ServeFrame(s: Setup, st: State, c: Circumstances)
    requires s.chunker.Valid() && st.worker.Idle? && st.queue != []
    ensures var st' := Serve(s, st, c);
      && st'.worker.Idle? && st'.queue == st.queue[1..]
      && st'.unpublished == st.unpublished && st'.published == st.published
  {
    var received := Step(s, st, Take);
    var begun := Step(s, received, MarkRunning(c.faults.running));
    WorkFrame(s, received, MarkRunning(c.faults.running));
    if !begun.worker.Idle? {
      var ended := Step(s, begun, DoWork(c.outside));
      WorkFrame(s, begun, DoWork(c.outside));
      if ended.worker.result.Ok? {
        WorkFrame(s, ended, MarkSucceeded(c.faults.succeeded));
      }
      var marked := if ended.worker.result.Ok? then Step(s, ended, MarkSucceeded(c.faults.succeeded)) else ended;
      if !marked.worker.Idle? {
        WorkFrame(s, marked, MarkFailed(c.faults.failed));
      }
    }
  }

  function WorldOf(st: State): World { World(st.rows, st.collection) }

  /** Marking the end of a job, step by step. */
  lemma {:induction false} MarkedIsFinished(s: Setup, st: State, f: RepoFaults)
    requires s.chunker.Valid() && Recorded(st) && st.worker.Ending?
    ensures var marked := if st.worker.result.Ok? then Step(s, st, MarkSucceeded(f.succeeded)) else st;
      var dropped := if marked.worker.Idle? then marked else Step(s, marked, MarkFailed(f.failed));
      && dropped.rows == Finished(st.rows, st.worker.done.jobId, st.worker.result, f).0
      && dropped.collection == st.collection
  {
  }

  /** The atomic steps of the pipeline, taken without interruption, do to rows and store exactly what the
      worker's `handle` does with the message. */
  lemma {:induction false} ServeIsHandled(s: Setup, st: State, c: Circumstances)
    requires s.chunker.Valid() && st.worker.Idle? && st.queue != []
    ensures WorldOf(Serve(s, st, c)) == Handled(s, WorldOf(st), st.queue[0], c.outside, c.faults).0
  {
    var begun := Step(s, Step(s, st, Take), MarkRunning(c.faults.running));
    if !begun.worker.Idle? {
      MarkedIsFinished(s, Step(s, begun, DoWork(c.outside)), c.faults);
    }
  }

  /** What a request handler leaves behind is nothing, its first step, or its two steps. A handler that
      stops in between is one whose `Publish` never comes. */
  lemma {:induction false} SubmissionIsSteps(
    st: State, submission: Result<JobEnvelope, string>, createFault: Option<Fault>, publishFault: Option<Fault>,
    rows: Rows, messages: seq<Payload>, r: Result<JobStatus, string>)
    requires Submitted(submission, createFault, publishFault, st.rows, rows, st.queue, messages, r)
    ensures var created := AfterCreate(st, submission);
      || (rows == st.rows && messages == st.queue && r.Err?)
      || (rows == created.rows && messages == created.queue && r.Err?)
      || (submission.Ok? && submission.value.jobId in created.unpublished
          && var done := AfterPublish(created, submission.value.jobId);
             rows == done.rows && messages == done.queue && (r.Ok? || publishFault.Some?))
  {
  }
}
