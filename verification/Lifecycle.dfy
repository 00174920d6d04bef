/** What the rows of the jobs say in every run, whatever raises. */
module Lifecycle {
  import opened PyText
  import opened Jobs
  import opened Worker
  import opened Services
  import opened Pipeline
  import opened PipelineLaws

  // ---------- Where a job is and what its row says ----------

  predicate Waiting(row: Job) { row.status == Queued && row.errorMessage.None? }

  predicate UnderWay(row: Job) { row.status == Running && row.errorMessage.None? }

  predicate Done(row: Job) { row.status == Succeeded && row.errorMessage.None? }

  /** SUCCEEDED without a message, or FAILED with a message of at most 2048 characters. */
  predicate Ended(row: Job) { MessageFits(row) && Terminal(row.status) }

  /** A message exactly on FAILED rows, and then of at most 2048 characters. */
  predicate MessageFits(row: Job) {
    && (row.errorMessage.Some? <==> row.status == Failed)
    && (row.errorMessage.Some? ==> |row.errorMessage.value| <= ERROR_LIMIT)
  }

  /** What the row of the last message taken says while the worker is at `w`. When repository calls may raise
      (`calm` is false), a job can be dropped at any status, and a late `mark_succeeded` leaves SUCCEEDED. */
  predicate RowSuits(row: Job, w: WorkerState, calm: bool) {
    match w
    case Idle => if calm then Ended(row) else MessageFits(row)
    case Received(_) => Waiting(row)
    case Working(_) => UnderWay(row)
    case Ending(_, r) => UnderWay(row) || (!calm && r.Err? && Done(row))
  }

  /** The job of the `i`-th published envelope: in the queue, with the worker, or finished. */
  predicate StatusFits(st: State, i: nat, calm: bool)
    requires i < |st.published| && st.published[i].jobId in st.rows
  {
    var row := st.rows[st.published[i].jobId];
    if i >= |st.ops| then Waiting(row) else RowSuits(row, if i == |st.ops| - 1 then st.worker else Idle, calm)
  }

  predicate Placed(st: State, calm: bool)
    requires RowsFirst(st)
  {
    && (forall id :: id in st.unpublished ==> Waiting(st.rows[id]))
    && (forall i :: 0 <= i < |st.published| ==> StatusFits(st, i, calm))
  }

  /** Marking the job of one envelope leaves the rows of all others. */
  lemma {:induction false} RowElsewhere(
    st: State, n: nat, i: nat, status: JobStatus, update: MessageUpdate, fault: Option<Fault>)
    requires RowsFirst(st) && i < |st.published| && n < |st.published| && i != n
    ensures var id, rows := st.published[i].jobId, Attempted(st.rows, st.published[n].jobId, status, update, fault);
      id in st.rows && id in rows && rows[id] == st.rows[id]
  {
    assert HasRow(st.rows, st.published[i]);
  }

  lemma {:induction false} PlacedElsewhere(
    st: State, i: nat, status: JobStatus, update: MessageUpdate, fault: Option<Fault>, w: WorkerState, calm: bool)
    requires RowsFirst(st) && st.ops != [] && |st.ops| <= |st.published|
    requires i < |st.published| && i != |st.ops| - 1 && StatusFits(st, i, calm)
    ensures var rows := Attempted(st.rows, st.published[|st.ops| - 1].jobId, status, update, fault);
      st.published[i].jobId in rows && StatusFits(st.(rows := rows, worker := w), i, calm)
  {
    RowElsewhere(st, |st.ops| - 1, i, status, update, fault);
  }

  lemma {:induction false} PlacedWhenAttempted(
    st: State, e: JobEnvelope, status: JobStatus, update: MessageUpdate, fault: Option<Fault>, w: WorkerState,
    calm: bool)
    requires Fifo(st) && RowsFirst(st) && Placed(st, calm) && !st.worker.Idle? && e == st.published[|st.ops| - 1]
    requires e.jobId in st.rows && RowSuits(Attempted(st.rows, e.jobId, status, update, fault)[e.jobId], w, calm)
    ensures var st' := st.(rows := Attempted(st.rows, e.jobId, status, update, fault), worker := w);
      RowsFirst(st') && Placed(st', calm)
  {
    var st' := st.(rows := Attempted(st.rows, e.jobId, status, update, fault), worker := w);
    AttemptedRowsFirst(st, e.jobId, status, update, fault, w);
    forall i | 0 <= i < |st.published| ensures StatusFits(st', i, calm) {
      if i != |st.ops| - 1 {
        PlacedElsewhere(st, i, status, update, fault, w, calm);
      }
    }
  }

  lemma {:induction false} PlacedCreated(st: State, submission: Result<JobEnvelope, string>, calm: bool)
    requires RowsFirst(st) && Placed(st, calm) && RowsFirst(AfterCreate(st, submission))
    ensures Placed(AfterCreate(st, submission), calm)
  {
    var st' := AfterCreate(st, submission);
    forall i | 0 <= i < |st'.published| ensures StatusFits(st', i, calm) {
      assert StatusFits(st, i, calm);
    }
  }

  lemma {:induction false} PlacedPublished(st: State, id: string, calm: bool)
    requires Fifo(st) && RowsFirst(st) && Placed(st, calm) && id in st.unpublished && RowsFirst(AfterPublish(st, id))
    ensures Placed(AfterPublish(st, id), calm)
  {
    var st' := AfterPublish(st, id);
    forall i | 0 <= i < |st'.published| ensures StatusFits(st', i, calm) {
      assert i < |st.published| ==> StatusFits(st, i, calm);
      assert i == |st.published| ==> st'.published[i].jobId == id;
    }
  }

  lemma {:induction false} PlacedTaken(s: Setup, st: State, calm: bool)
    requires s.chunker.Valid() && Fifo(st) && RowsFirst(st) && Placed(st, calm) && Enabled(st, Take)
    requires RowsFirst(Step(s, st, Take))
    ensures Placed(Step(s, st, Take), calm)
  {
    var st' := Step(s, st, Take);
    forall i | 0 <= i < |st'.published| ensures StatusFits(st', i, calm) {
      assert StatusFits(st, i, calm);
    }
  }

  lemma {:induction false} PlacedWorked(s: Setup, st: State, o: Outside, calm: bool)
    requires s.chunker.Valid() && Fifo(st) && RowsFirst(st) && Placed(st, calm) && st.worker.Working?
    requires RowsFirst(AfterWork(s, st, o))
    ensures Placed(AfterWork(s, st, o), calm)
  {
    var st' := AfterWork(s, st, o);
    forall i | 0 <= i < |st'.published| ensures StatusFits(st', i, calm) {
      assert StatusFits(st, i, calm);
    }
  }

  lemma {:induction false} PlacedBegun(st: State, fault: Option<Fault>, calm: bool)
    requires Fifo(st) && RowsFirst(st) && Placed(st, calm) && st.worker.Received? && (calm ==> fault.None?)
    ensures RowsFirst(AfterMarkRunning(st, fault)) && Placed(AfterMarkRunning(st, fault), calm)
  {
    var e := BegunIs(st, fault);
    assert StatusFits(st, |st.ops| - 1, calm);
    PlacedWhenAttempted(st, e, Running, Keep, fault, if fault.None? then Working(e) else Idle, calm);
  }

  lemma {:induction false} PlacedSucceeded(st: State, fault: Option<Fault>, calm: bool)
    requires Fifo(st) && RowsFirst(st) && Placed(st, calm) && (calm ==> fault.None?)
    requires st.worker.Ending? && st.worker.result.Ok?
    ensures RowsFirst(AfterMarkSucceeded(st, fault)) && Placed(AfterMarkSucceeded(st, fault), calm)
  {
    var e := HeldEnvelope(st);
    var next := if fault.Some? then Ending(e, Err(fault.value.message)) else Idle;
    assert StatusFits(st, |st.ops| - 1, calm);
    PlacedWhenAttempted(st, e, Succeeded, SetTo(None), fault, next, calm);
  }

  lemma {:induction false} PlacedFailed(st: State, fault: Option<Fault>, calm: bool)
    requires Fifo(st) && RowsFirst(st) && Placed(st, calm) && (calm ==> fault.None?)
    requires st.worker.Ending? && st.worker.result.Err?
    ensures RowsFirst(AfterMarkFailed(st, fault)) && Placed(AfterMarkFailed(st, fault), calm)
  {
    var e := HeldEnvelope(st);
    assert StatusFits(st, |st.ops| - 1, calm);
    PlacedWhenAttempted(st, e, Failed, SetTo(Some(Clipped(st.worker.result.error))), fault, Idle, calm);
  }

  lemma {:induction false} PlacedKept(s: Setup, st: State, ev: Event, calm: bool)
    requires s.chunker.Valid() && Recorded(st) && Enabled(st, ev) && Fifo(st) && RowsFirst(st) && Placed(st, calm)
    requires calm ==> CalmEvent(ev)
    ensures RowsFirst(Step(s, st, ev)) && Placed(Step(s, st, ev), calm)
  {
    RowsFirstKept(s, st, ev);
    match ev
    case CreateIndex(q, jobId, freshId) => PlacedCreated(st, IndexSubmission(q, jobId, freshId), calm);
    case CreateDelete(q, jobId) => PlacedCreated(st, DeleteSubmission(q, jobId), calm);
    case Publish(id) => PlacedPublished(st, id, calm);
    case Take => PlacedTaken(s, st, calm);
    case DoWork(o) => PlacedWorked(s, st, o, calm);
    case MarkRunning(fault) => PlacedBegun(st, fault, calm);
    case MarkSucceeded(fault) => PlacedSucceeded(st, fault, calm);
    case MarkFailed(fault) => PlacedFailed(st, fault, calm);
  }

  /** Place and status in every run: every row is of exactly one job that is between the two steps of its
      handler, in the queue, with the worker or finished, and its status says so; finished jobs have ended
      when no repository call raises. */
  lemma {:induction false} PlaceStatus(s: Setup, es: seq<Event>, calm: bool)
    requires s.chunker.Valid() && Run(s, es).Some? && (calm ==> Calm(es))
    ensures Inv(s, Run(s, es).value) && Placed(Run(s, es).value, calm)
    decreases |es|
  {
    RunInv(s, es);
    if es != [] {
      var n := |es| - 1;
      RunInv(s, es[..n]);
      PlaceStatus(s, es[..n], calm);
      assert es[n] in es;
      PlacedKept(s, Run(s, es[..n]).value, es[n], calm);
    }
  }

  lemma {:induction false} RowMessageFits(st: State, id: string)
    requires RowsFirst(st) && Placed(st, false) && id in st.rows
    ensures MessageFits(st.rows[id])
  {
    if id !in st.unpublished {
      var i :| 0 <= i < |st.published| && st.published[i].jobId == id;
      assert StatusFits(st, i, false);
    }
  }

  /** Error messages in every run, whatever raises: present exactly on FAILED rows, and then at most 2048
      characters long. */
  lemma {:induction false} MessageExactlyWhenFailed(s: Setup, es: seq<Event>, id: string)
    requires s.chunker.Valid() && Run(s, es).Some? && id in Run(s, es).value.rows
    ensures MessageFits(Run(s, es).value.rows[id])
  {
    PlaceStatus(s, es, false);
    RowMessageFits(Run(s, es).value, id);
  }

  // ---------- Only the held row moves ----------

  lemma {:induction false} HandlerRowStays(s: Setup, st: State, ev: Event, id: string)
    requires s.chunker.Valid() && Recorded(st) && Enabled(st, ev) && id in st.rows
    requires !WorkerEvent(ev) || ev.Take? || ev.DoWork?
    ensures id in Step(s, st, ev).rows && Step(s, st, ev).rows[id] == st.rows[id]
  {
  }

  lemma {:induction false} StartedRowStays(st: State, fault: Option<Fault>, id: string)
    requires Fifo(st) && RowsFirst(st) && st.worker.Received? && id in st.rows && id != st.published[|st.ops| - 1].jobId
    ensures id in AfterMarkRunning(st, fault).rows && AfterMarkRunning(st, fault).rows[id] == st.rows[id]
  {
    var held := BegunIs(st, fault);
  }

  /** Whatever the worker does, only the row of the job it holds changes. */
  lemma {:induction false} OtherRowStays(s: Setup, st: State, ev: Event, id: string)
    requires s.chunker.Valid() && Recorded(st) && Enabled(st, ev) && Fifo(st) && RowsFirst(st) && id in st.rows
    requires st.worker.Idle? || !WorkerEvent(ev) || id != st.published[|st.ops| - 1].jobId
    ensures id in Step(s, st, ev).rows && Step(s, st, ev).rows[id] == st.rows[id]
  {
    if !WorkerEvent(ev) || ev.Take? || ev.DoWork? {
      HandlerRowStays(s, st, ev, id);
    } else if ev.MarkRunning? {
      StartedRowStays(st, ev.fault, id);
    }
  }

  // ---------- Endings are final ----------

  /** Marking the job FAILED changes a row that says SUCCEEDED. */
  predicate Overturns(st: State, ev: Event, id: string) {
    && ev.MarkFailed? && !Blocks(ev.fault) && st.worker.Ending? && st.worker.done.jobId == id
    && id in st.rows && st.rows[id].status.Succeeded?
  }

  lemma {:induction false} EndedHeld(st: State, id: string)
    requires Fifo(st) && RowsFirst(st) && Placed(st, false) && !st.worker.Idle?
    requires id == st.published[|st.ops| - 1].jobId && id in st.rows && Terminal(st.rows[id].status)
    ensures st.worker.Ending? && st.worker.result.Err? && st.worker.done.jobId == id && st.rows[id].status.Succeeded?
  {
    assert StatusFits(st, |st.ops| - 1, false);
  }

  lemma {:induction false} EndedMarked(st: State, fault: Option<Fault>, id: string)
    requires st.worker.Ending? && st.worker.result.Err? && st.worker.done.jobId == id
    requires id in st.rows && st.rows[id].status.Succeeded?
    ensures var rows := AfterMarkFailed(st, fault).rows; id in rows && (rows[id] == st.rows[id] <==> Blocks(fault))
  {
  }

  /** The one way in which a terminal row changes. */
  lemma {:induction false} EndedKept(s: Setup, st: State, ev: Event, id: string)
    requires s.chunker.Valid() && Recorded(st) && Enabled(st, ev) && Fifo(st) && RowsFirst(st) && Placed(st, false)
    requires id in st.rows && Terminal(st.rows[id].status)
    ensures id in Step(s, st, ev).rows
    ensures Step(s, st, ev).rows[id] == st.rows[id] <==> !Overturns(st, ev, id)
  {
    if st.worker.Idle? || !WorkerEvent(ev) || id != st.published[|st.ops| - 1].jobId {
      OtherRowStays(s, st, ev, id);
    } else {
      EndedHeld(st, id);
      EndedMarked(st, ev.fault, id);
    }
  }

  /** The worker's last event is a `mark_succeeded` that took effect and raised. */
  predicate LateEnd(es: seq<Event>) {
    es != [] &&
      var ev := es[|es| - 1];
      if WorkerEvent(ev) then ev.MarkSucceeded? && Late(ev.fault) else LateEnd(es[..|es| - 1])
  }

  /** While a job is about to be marked, its row says SUCCEEDED exactly if `late`. */
  predicate EndingSays(st: State, late: bool) {
    st.worker.Ending? ==>
      st.worker.done.jobId in st.rows && (st.rows[st.worker.done.jobId].status.Succeeded? <==> late)
  }

  lemma {:induction false} EndingUnmoved(s: Setup, st: State, ev: Event, late: bool)
    requires s.chunker.Valid() && Recorded(st) && Enabled(st, ev) && !WorkerEvent(ev) && EndingSays(st, late)
    ensures EndingSays(Step(s, st, ev), late)
  {
  }

  lemma {:induction false} EndingReached(s: Setup, st: State, o: Outside)
    requires s.chunker.Valid() && Fifo(st) && RowsFirst(st) && Placed(st, false) && st.worker.Working?
    ensures EndingSays(AfterWork(s, st, o), false)
  {
    var e := HeldEnvelope(st);
    assert StatusFits(st, |st.ops| - 1, false);
  }

  lemma {:induction false} EndingMarked(st: State, fault: Option<Fault>)
    requires Fifo(st) && RowsFirst(st) && Placed(st, false) && st.worker.Ending? && st.worker.result.Ok?
    ensures EndingSays(AfterMarkSucceeded(st, fault), Late(fault))
  {
    var e := HeldEnvelope(st);
    assert StatusFits(st, |st.ops| - 1, false);
  }

  lemma {:induction false} EndingMoved(s: Setup, st: State, ev: Event)
    requires s.chunker.Valid() && Recorded(st) && Enabled(st, ev) && WorkerEvent(ev)
    requires Fifo(st) && RowsFirst(st) && Placed(st, false)
    ensures EndingSays(Step(s, st, ev), ev.MarkSucceeded? && Late(ev.fault))
  {
    if ev.DoWork? {
      EndingReached(s, st, ev.outside);
    } else if ev.MarkSucceeded? {
      EndingMarked(st, ev.fault);
    }
  }

  /** That is the case exactly after a late `mark_succeeded`. */
  lemma {:induction false} EndingStatus(s: Setup, es: seq<Event>)
    requires s.chunker.Valid() && Run(s, es).Some?
    ensures EndingSays(Run(s, es).value, LateEnd(es))
    decreases |es|
  {
    if es != [] {
      var n := |es| - 1;
      RunNext(s, es, n);
      assert es[..n + 1] == es;
      EndingStatus(s, es[..n]);
      PlaceStatus(s, es[..n], false);
      if WorkerEvent(es[n]) {
        EndingMoved(s, Run(s, es[..n]).value, es[n]);
      } else {
        EndingUnmoved(s, Run(s, es[..n]).value, es[n], LateEnd(es[..n]));
      }
    }
  }

  /** Event `k` marks a job FAILED whose `mark_succeeded` took effect and raised. */
  predicate Overturned(es: seq<Event>, k: nat)
    requires k < |es|
  {
    es[k].MarkFailed? && !Blocks(es[k].fault) && LateEnd(es[..k])
  }

  /** The row after the first `k` events. */
  function RowAfter(s: Setup, es: seq<Event>, k: nat, id: string): Option<Job>
    requires s.chunker.Valid() && k <= |es|
  {
    var st := Run(s, es[..k]);
    if st.Some? && id in st.value.rows then Some(st.value.rows[id]) else None
  }

  predicate EndedAfter(s: Setup, es: seq<Event>, k: nat, id: string)
    requires s.chunker.Valid() && k <= |es|
  {
    RowAfter(s, es, k, id).Some? && Terminal(RowAfter(s, es, k, id).value.status)
  }

  /** The worker is about to mark the job after the first `k` events. */
  predicate EndingAfter(s: Setup, es: seq<Event>, k: nat, id: string)
    requires s.chunker.Valid() && k <= |es|
  {
    var st := Run(s, es[..k]);
    st.Some? && st.value.worker.Ending? && st.value.worker.done.jobId == id
  }

  lemma {:induction false} EndedNext(s: Setup, es: seq<Event>, k: nat, id: string)
    requires s.chunker.Valid() && Run(s, es).Some? && k < |es| && EndedAfter(s, es, k, id)
    ensures RowAfter(s, es, k + 1, id) == RowAfter(s, es, k, id) <==> !(Overturned(es, k) && EndingAfter(s, es, k, id))
  {
    RunNext(s, es, k);
    var st := Run(s, es[..k]).value;
    PlaceStatus(s, es[..k], false);
    EndedKept(s, st, es[k], id);
    if es[k].MarkFailed? {
      EndingStatus(s, es[..k]);
    }
  }

  lemma {:induction false} EndedOneMore(s: Setup, es: seq<Event>, k: nat, id: string)
    requires s.chunker.Valid() && Run(s, es).Some? && k < |es| && EndedAfter(s, es, k, id) && !Overturned(es, k)
    ensures EndedAfter(s, es, k + 1, id) && RowAfter(s, es, k + 1, id) == RowAfter(s, es, k, id)
  {
    EndedNext(s, es, k, id);
  }

  lemma {:induction false} EndedStays(s: Setup, es: seq<Event>, i: nat, j: nat, id: string)
    requires s.chunker.Valid() && Run(s, es).Some? && i <= j <= |es| && EndedAfter(s, es, i, id)
    requires forall k :: 0 <= k < |es| ==> !Overturned(es, k)
    ensures RowAfter(s, es, j, id) == RowAfter(s, es, i, id)
    decreases j - i
  {
    if i < j {
      EndedOneMore(s, es, i, id);
      EndedStays(s, es, i + 1, j, id);
    }
  }

  /** No terminal row ever changes again. */
  ghost predicate Sticky(s: Setup, es: seq<Event>)
    requires s.chunker.Valid()
  {
    forall i, j, id :: 0 <= i <= j <= |es| && EndedAfter(s, es, i, id) ==>
      RowAfter(s, es, j, id) == RowAfter(s, es, i, id)
  }

  /** Sticky endings, exactly, in every run: terminal rows never change again if and only if no job is marked
      FAILED after its `mark_succeeded` took effect and raised. The repository itself allows any move. */
  lemma {:induction false} StickyEndings(s: Setup, es: seq<Event>)
    requires s.chunker.Valid() && Run(s, es).Some?
    ensures Sticky(s, es) <==> forall k :: 0 <= k < |es| ==> !Overturned(es, k)
  {
    if forall k :: 0 <= k < |es| ==> !Overturned(es, k) {
      forall i, j, id | 0 <= i <= j <= |es| && EndedAfter(s, es, i, id)
        ensures RowAfter(s, es, j, id) == RowAfter(s, es, i, id)
      {
        EndedStays(s, es, i, j, id);
      }
    } else {
      var k :| 0 <= k < |es| && Overturned(es, k);
      RunNext(s, es, k);
      EndingStatus(s, es[..k]);
      var id := Run(s, es[..k]).value.worker.done.jobId;
      assert EndedAfter(s, es, k, id);
      EndedNext(s, es, k, id);
    }
  }

  lemma {:induction false} NeverLate(es: seq<Event>)
    requires forall ev :: ev in es && ev.MarkSucceeded? ==> !Late(ev.fault)
    ensures !LateEnd(es)
    decreases |es|
  {
    if es != [] {
      assert es[|es| - 1] in es;
      NeverLate(es[..|es| - 1]);
    }
  }

  /** Whatever else raises: endings are final unless some `mark_succeeded` raises after its commit. */
  lemma {:induction false} StickyUnlessLate(s: Setup, es: seq<Event>)
    requires s.chunker.Valid() && Run(s, es).Some?
    requires forall ev :: ev in es && ev.MarkSucceeded? ==> !Late(ev.fault)
    ensures Sticky(s, es)
  {
    forall k | 0 <= k < |es| ensures !Overturned(es, k) {
      NeverLate(es[..k]);
    }
    StickyEndings(s, es);
  }
}
