/** What every run of the pipeline keeps. */
module PipelineLaws {
  import opened PyText
  import opened VectorStore
  import opened Jobs
  import opened Worker
  import opened Services
  import opened Pipeline

  // ---------- The invariant of all runs ----------

  /** The job of the envelope has had no effect, or its own. */
  predicate OpFits(op: StoreOp, e: JobEnvelope) {
    op.Untouched? || JobDone(op, e)
  }

  predicate OpsOk(s: Setup, ops: seq<StoreOp>)
    requires s.chunker.Valid()
  {
    forall i :: 0 <= i < |ops| ==> OpOk(s, ops[i])
  }

  /** The effects applied one after the other to an empty store: the sequential specification. */
  function Replay(s: Setup, ops: seq<StoreOp>): Points
    requires s.chunker.Valid() && OpsOk(s, ops)
  {
    if ops == [] then map[] else ApplyOp(s, Replay(s, ops[..|ops| - 1]), ops[|ops| - 1])
  }

  /** Single delivery in order: the messages taken so far and the queue are the published envelopes. */
  predicate Fifo(st: State) {
    && |st.ops| + |st.queue| == |st.published|
    && (forall i :: 0 <= i < |st.queue| ==> st.queue[i] == ToPayload(st.published[|st.ops| + i]))
    && match st.worker
       case Idle => true
       case Received(p) => st.ops != [] && p == ToPayload(st.published[|st.ops| - 1]) && st.ops[|st.ops| - 1].Untouched?
       case Working(e) => st.ops != [] && e == st.published[|st.ops| - 1] && st.ops[|st.ops| - 1].Untouched?
       case Ending(e, _) => st.ops != [] && e == st.published[|st.ops| - 1]
  }

  /** The envelope has a row that agrees with it. */
  predicate HasRow(rows: Rows, e: JobEnvelope) {
    WellFormed(e) && e.jobId in rows && Agrees(rows[e.jobId], e)
  }

  predicate Published(st: State, id: string) {
    exists i :: 0 <= i < |st.published| && st.published[i].jobId == id
  }

  predicate AllHaveRows(rows: Rows, published: seq<JobEnvelope>, unpublished: map<string, JobEnvelope>) {
    && (forall i :: 0 <= i < |published| ==> HasRow(rows, published[i]))
    && (forall id :: id in unpublished ==> unpublished[id].jobId == id && HasRow(rows, unpublished[id]))
  }

  predicate NoneTwice(published: seq<JobEnvelope>, unpublished: map<string, JobEnvelope>) {
    && (forall i, j :: 0 <= i < j < |published| ==> published[i].jobId != published[j].jobId)
    && (forall i :: 0 <= i < |published| ==> published[i].jobId !in unpublished)
  }

  /** Every envelope has its row, no job is published twice, and every row is of one job. */
  predicate RowsFirst(st: State) {
    && AllHaveRows(st.rows, st.published, st.unpublished) && NoneTwice(st.published, st.unpublished)
    && (forall id :: id in st.rows ==> id in st.unpublished || Published(st, id))
  }

  /** The store is the sequential specification applied to the recorded effects. */
  predicate Replayed(s: Setup, st: State)
    requires s.chunker.Valid()
  {
    && OpsOk(s, st.ops) && Contents(st.collection) == Replay(s, st.ops)
    && |st.ops| <= |st.published| && forall i :: 0 <= i < |st.ops| ==> OpFits(st.ops[i], st.published[i])
  }

  predicate Inv(s: Setup, st: State)
    requires s.chunker.Valid()
  {
    Fifo(st) && RowsFirst(st) && Replayed(s, st)
  }

  lemma {:induction false} FifoPublished(st: State, id: string)
    requires Fifo(st) && id in st.unpublished
    ensures Fifo(AfterPublish(st, id))
  {
    var st' := AfterPublish(st, id);
    forall i | 0 <= i < |st'.queue| ensures st'.queue[i] == ToPayload(st'.published[|st'.ops| + i]) {
      if i < |st.queue| {
        assert st'.queue[i] == st.queue[i] && st'.published[|st.ops| + i] == st.published[|st.ops| + i];
      }
    }
  }

  lemma {:induction false} FifoTaken(st: State, st': State)
    requires Fifo(st) && st.queue != []
    requires st' == st.(queue := st.queue[1..], worker := Received(st.queue[0]), ops := st.ops + [Untouched])
    ensures Fifo(st')
  {
    assert st.queue[0] == ToPayload(st.published[|st.ops| + 0]);
    forall i | 0 <= i < |st'.queue| ensures st'.queue[i] == ToPayload(st'.published[|st'.ops| + i]) {
      assert st'.queue[i] == st.queue[i + 1];
    }
  }

  /** Steps that leave queue, history length and held envelope as they are. */
  lemma {:induction false} FifoHeld(st: State, st': State)
    requires Fifo(st) && st'.queue == st.queue && st'.published == st.published && |st'.ops| == |st.ops|
    requires || st'.worker.Idle? || (st'.worker == st.worker && st'.ops == st.ops)
             || (st.ops != [] && match st'.worker
                                 case Working(e) => e == st.published[|st.ops| - 1] && st'.ops[|st.ops| - 1].Untouched?
                                 case Ending(e, _) => e == st.published[|st.ops| - 1]
                                 case _ => false)
    ensures Fifo(st')
  {
  }

  /** A busy worker holds the last envelope taken, and that envelope has its row. */
  lemma {:induction false} HeldEnvelope(st: State) returns (e: JobEnvelope)
    requires Fifo(st) && RowsFirst(st) && !st.worker.Idle?
    ensures st.ops != [] && e == st.published[|st.ops| - 1] && HasRow(st.rows, e)
  {
    e := st.published[|st.ops| - 1];
  }

  /** The envelope parses and its row exists, so only a fault keeps the worker from starting on it. */
  lemma {:induction false} BegunIs(st: State, fault: Option<Fault>) returns (e: JobEnvelope)
    requires Fifo(st) && RowsFirst(st) && st.worker.Received?
    ensures st.ops != [] && e == st.published[|st.ops| - 1] && HasRow(st.rows, e)
    ensures AfterMarkRunning(st, fault) ==
      st.(rows := Attempted(st.rows, e.jobId, Running, Keep, fault), worker := if fault.None? then Working(e) else Idle)
  {
    e := HeldEnvelope(st);
    EnvelopeRoundTrip(e);
  }

  lemma {:induction false} FifoKeptOtherwise(s: Setup, st: State, ev: Event)
    requires s.chunker.Valid() && Recorded(st) && Enabled(st, ev) && Fifo(st) && !ev.MarkRunning?
    ensures Fifo(Step(s, st, ev))
  {
    if ev.Publish? {
      FifoPublished(st, ev.id);
    } else if ev.Take? {
      FifoTaken(st, Step(s, st, ev));
    } else {
      FifoHeld(st, Step(s, st, ev));
    }
  }

  lemma {:induction false} FifoKept(s: Setup, st: State, ev: Event)
    requires s.chunker.Valid() && Recorded(st) && Enabled(st, ev) && Fifo(st) && RowsFirst(st)
    ensures Fifo(Step(s, st, ev))
  {
    if ev.MarkRunning? {
      var e := BegunIs(st, ev.fault);
      FifoHeld(st, AfterMarkRunning(st, ev.fault));
    } else {
      FifoKeptOtherwise(s, st, ev);
    }
  }

  /** Only status and message of a row ever change. */
  lemma {:induction false} MarkedAgrees(
    rows: Rows, jobId: string, status: JobStatus, update: MessageUpdate, e: JobEnvelope)
    requires HasRow(rows, e)
    ensures HasRow(Marked(rows, jobId, status, update), e)
  {
  }

  lemma {:induction false} MarkedHasRows(
    rows: Rows, published: seq<JobEnvelope>, unpublished: map<string, JobEnvelope>,
    jobId: string, status: JobStatus, update: MessageUpdate)
    requires AllHaveRows(rows, published, unpublished)
    ensures AllHaveRows(Marked(rows, jobId, status, update), published, unpublished)
  {
    forall i | 0 <= i < |published| ensures HasRow(Marked(rows, jobId, status, update), published[i]) {
      MarkedAgrees(rows, jobId, status, update, published[i]);
    }
    forall id | id in unpublished ensures HasRow(Marked(rows, jobId, status, update), unpublished[id]) {
      MarkedAgrees(rows, jobId, status, update, unpublished[id]);
    }
  }

  lemma {:induction false} AttemptedRowsFirst(
    st: State, jobId: string, status: JobStatus, update: MessageUpdate, fault: Option<Fault>, w: WorkerState)
    requires RowsFirst(st)
    ensures RowsFirst(st.(rows := Attempted(st.rows, jobId, status, update, fault), worker := w))
  {
    if !Blocks(fault) {
      MarkedHasRows(st.rows, st.published, st.unpublished, jobId, status, update);
    }
  }

  lemma {:induction false} CreatedHasRows(
    rows: Rows, published: seq<JobEnvelope>, unpublished: map<string, JobEnvelope>, e: JobEnvelope)
    requires AllHaveRows(rows, published, unpublished) && NoneTwice(published, unpublished)
    requires WellFormed(e) && e.jobId !in rows
    ensures AllHaveRows(rows[e.jobId := NewRow(e)], published, unpublished[e.jobId := e])
    ensures NoneTwice(published, unpublished[e.jobId := e])
  {
    forall i | 0 <= i < |published|
      ensures HasRow(rows[e.jobId := NewRow(e)], published[i]) && published[i].jobId != e.jobId
    {
      assert HasRow(rows, published[i]);
    }
    forall id | id in unpublished ensures HasRow(rows[e.jobId := NewRow(e)], unpublished[id]) {
      assert HasRow(rows, unpublished[id]);
    }
  }

  lemma {:induction false} CreateRowsFirst(st: State, submission: Result<JobEnvelope, string>)
    requires RowsFirst(st) && (submission.Ok? ==> WellFormed(submission.value))
    ensures RowsFirst(AfterCreate(st, submission))
  {
    if submission.Ok? && submission.value.jobId !in st.rows {
      CreatedHasRows(st.rows, st.published, st.unpublished, submission.value);
    }
  }

  lemma {:induction false} PublishedGrows(st: State, id: string, k: string)
    requires id in st.unpublished && st.unpublished[id].jobId == id
    ensures Published(st, k) || k == id ==> Published(AfterPublish(st, id), k)
  {
    var st' := AfterPublish(st, id);
    assert st'.published[|st.published|].jobId == id;
    if Published(st, k) {
      var i :| 0 <= i < |st.published| && st.published[i].jobId == k;
      assert st'.published[i].jobId == k;
    }
  }

  lemma {:induction false} PublishedHasRows(
    rows: Rows, published: seq<JobEnvelope>, unpublished: map<string, JobEnvelope>, id: string)
    requires AllHaveRows(rows, published, unpublished) && id in unpublished
    ensures AllHaveRows(rows, published + [unpublished[id]], unpublished - {id})
  {
  }

  lemma {:induction false} PublishedOnce(published: seq<JobEnvelope>, unpublished: map<string, JobEnvelope>, id: string)
    requires NoneTwice(published, unpublished) && id in unpublished && unpublished[id].jobId == id
    ensures NoneTwice(published + [unpublished[id]], unpublished - {id})
  {
  }

  lemma {:induction false} PublishRowsFirst(st: State, id: string)
    requires RowsFirst(st) && id in st.unpublished
    ensures RowsFirst(AfterPublish(st, id))
  {
    PublishedHasRows(st.rows, st.published, st.unpublished, id);
    PublishedOnce(st.published, st.unpublished, id);
    forall k | k in st.rows && (k == id || Published(st, k)) ensures Published(AfterPublish(st, id), k) {
      PublishedGrows(st, id, k);
    }
  }

  lemma {:induction false} RowsFirstKept(s: Setup, st: State, ev: Event)
    requires s.chunker.Valid() && Recorded(st) && Enabled(st, ev) && RowsFirst(st)
    ensures RowsFirst(Step(s, st, ev))
  {
    match ev
    case CreateIndex(q, jobId, freshId) =>
      SubmissionsWellFormed(q, DeleteRequest("", ""), jobId, freshId);
      CreateRowsFirst(st, IndexSubmission(q, jobId, freshId));
    case CreateDelete(q, jobId) =>
      SubmissionsWellFormed(IndexRequest("", "", "", "", Unspecified), q, jobId, "");
      CreateRowsFirst(st, DeleteSubmission(q, jobId));
    case Publish(id) => PublishRowsFirst(st, id);
    case MarkRunning(fault) =>
      var parsed := FromPayload(st.worker.payload);
      if parsed.Ok? {
        var next := if fault.None? && parsed.value.jobId in st.rows then Working(parsed.value) else Idle;
        AttemptedRowsFirst(st, parsed.value.jobId, Running, Keep, fault, next);
      }
    case MarkSucceeded(fault) =>
      var next := if fault.Some? then Ending(st.worker.done, Err(fault.value.message)) else Idle;
      AttemptedRowsFirst(st, st.worker.done.jobId, Succeeded, SetTo(None), fault, next);
    case MarkFailed(fault) =>
      AttemptedRowsFirst(st, st.worker.done.jobId, Failed, SetTo(Some(Clipped(st.worker.result.error))), fault, Idle);
    case Take =>
    case DoWork(o) =>
  }

  /** Appending or replacing the last effect. */
  lemma {:induction false} ReplayLast(s: Setup, ops: seq<StoreOp>, op: StoreOp)
    requires s.chunker.Valid() && OpsOk(s, ops) && OpOk(s, op)
    ensures OpsOk(s, ops + [op]) && Replay(s, ops + [op]) == ApplyOp(s, Replay(s, ops), op)
  {
    assert (ops + [op])[..|ops|] == ops;
  }

  lemma {:induction false} ReplayUpTo(s: Setup, ops: seq<StoreOp>, n: nat)
    requires s.chunker.Valid() && OpsOk(s, ops) && n < |ops|
    ensures Replay(s, ops[..n + 1]) == ApplyOp(s, Replay(s, ops[..n]), ops[n])
  {
    assert ops[..n + 1][..n] == ops[..n];
  }

  /** Recording the effect of the job under way, in place of `Untouched`. */
  lemma {:induction false} ReplayRecorded(s: Setup, ops: seq<StoreOp>, n: nat, op: StoreOp)
    requires s.chunker.Valid() && OpsOk(s, ops) && OpOk(s, op) && |ops| == n + 1 && ops[n].Untouched?
    ensures OpsOk(s, ops[n := op]) && Replay(s, ops[n := op]) == ApplyOp(s, Replay(s, ops), op)
  {
    assert ops[n := op][..n] == ops[..n];
    assert Replay(s, ops) == Replay(s, ops[..n]);
  }

  lemma {:induction false} WorkReplayed(s: Setup, st: State, o: Outside)
    requires s.chunker.Valid() && Fifo(st) && Replayed(s, st) && st.worker.Working?
    ensures Replayed(s, AfterWork(s, st, o))
  {
    var n, w := |st.ops| - 1, WorkOn(s, st.worker.envelope, o, st.collection);
    WorkIsOp(s, st.worker.envelope, o, st.collection);
    ReplayRecorded(s, st.ops, n, w.op);
    WorkFits(s, st.worker.envelope, o, st.collection);
  }

  lemma {:induction false} WorkFits(s: Setup, e: JobEnvelope, o: Outside, collection: Option<Points>)
    requires s.chunker.Valid()
    ensures OpFits(WorkOn(s, e, o, collection).op, e)
  {
    WorkIsOp(s, e, o, collection);
  }

  lemma {:induction false} ReplayedKept(s: Setup, st: State, ev: Event)
    requires s.chunker.Valid() && Recorded(st) && Enabled(st, ev) && Fifo(st) && Replayed(s, st)
    ensures Replayed(s, Step(s, st, ev))
  {
    if ev.Take? {
      ReplayLast(s, st.ops, Untouched);
    } else if ev.DoWork? {
      WorkReplayed(s, st, ev.outside);
    }
  }

  /** Every state of every run satisfies the invariant, whatever fails and however the steps interleave. */
  lemma {:induction false} RunInv(s: Setup, es: seq<Event>)
    requires s.chunker.Valid() && Run(s, es).Some?
    ensures Inv(s, Run(s, es).value)
    decreases |es|
  {
    if es != [] {
      var n := |es| - 1;
      RunInv(s, es[..n]);
      var st := Run(s, es[..n]).value;
      FifoKept(s, st, es[n]);
      RowsFirstKept(s, st, es[n]);
      ReplayedKept(s, st, es[n]);
    }
  }

  lemma {:induction false} PublishedPayload(st: State, p: Payload) returns (i: nat)
    requires Fifo(st) && (p in st.queue || (st.worker.Received? && st.worker.payload == p))
    ensures i < |st.published| && p == ToPayload(st.published[i])
  {
    if p in st.queue {
      var k :| 0 <= k < |st.queue| && st.queue[k] == p;
      i := |st.ops| + k;
    } else {
      i := |st.ops| - 1;
    }
  }

  /** Row before envelope: every message in the queue or with the worker parses to an envelope whose row
      exists and agrees with it, so neither a malformed envelope nor a missing row can stop a job. */
  lemma {:induction false} RowBeforeEnvelope(s: Setup, es: seq<Event>, p: Payload)
    requires s.chunker.Valid() && Run(s, es).Some?
    requires var st := Run(s, es).value; p in st.queue || (st.worker.Received? && st.worker.payload == p)
    ensures FromPayload(p).Ok? && HasRow(Run(s, es).value.rows, FromPayload(p).value)
  {
    var st := Run(s, es).value;
    RunInv(s, es);
    var i := PublishedPayload(st, p);
    EnvelopeRoundTrip(st.published[i]);
  }

  // ---------- Longer and shorter runs ----------

  /** A run extended by one event. */
  lemma {:induction false} RunSnoc(s: Setup, es: seq<Event>, ev: Event)
    requires s.chunker.Valid()
    ensures Run(s, es + [ev]) ==
      if Run(s, es).Some? && Enabled(Run(s, es).value, ev) then Some(Step(s, Run(s, es).value, ev)) else None
  {
    assert (es + [ev])[..|es|] == es;
  }

  lemma {:induction false} RunPrefix(s: Setup, es: seq<Event>, k: nat)
    requires s.chunker.Valid() && Run(s, es).Some? && k <= |es|
    ensures Run(s, es[..k]).Some?
    decreases |es|
  {
    if k < |es| {
      RunPrefix(s, es[..|es| - 1], k);
      assert es[..|es| - 1][..k] == es[..k];
    } else {
      assert es[..k] == es;
    }
  }

  lemma {:induction false} RunNext(s: Setup, es: seq<Event>, k: nat)
    requires s.chunker.Valid() && Run(s, es).Some? && k < |es|
    ensures Run(s, es[..k]).Some? && Enabled(Run(s, es[..k]).value, es[k])
    ensures Run(s, es[..k + 1]) == Some(Step(s, Run(s, es[..k]).value, es[k]))
  {
    RunPrefix(s, es, k + 1);
    assert es[..k + 1] == es[..k] + [es[k]];
    RunSnoc(s, es[..k], es[k]);
  }
}
