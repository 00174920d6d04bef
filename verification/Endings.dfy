/** How rows move and how jobs end, in every run: the order of the life cycle, rows that never end, and rows
    that hide what their job did. */
module Endings {
  import opened PyText
  import opened Jobs
  import opened Worker
  import opened Pipeline
  import opened PipelineLaws
  import opened Lifecycle
  import opened Effects

  // ---------- The order of the life cycle ----------

  /** QUEUED, RUNNING, then SUCCEEDED or FAILED; and from SUCCEEDED to FAILED if `overturned`. */
  predicate MayFollow(before: JobStatus, after: JobStatus, overturned: bool) {
    || after == before
    || (before.Queued? && after.Running?)
    || (before.Running? && Terminal(after))
    || (before.Succeeded? && after.Failed? && overturned)
  }

  /** The rows' identity never changes, and their statuses follow one another. */
  predicate RowMoves(before: Job, after: Job, overturned: bool) {
    && after == before.(status := after.status, errorMessage := after.errorMessage)
    && MayFollow(before.status, after.status, overturned)
  }

  lemma {:induction false} HeldRowMoves(s: Setup, st: State, ev: Event, e: JobEnvelope)
    requires s.chunker.Valid() && Recorded(st) && Enabled(st, ev) && Fifo(st) && RowsFirst(st) && Placed(st, false)
    requires !st.worker.Idle? && e == st.published[|st.ops| - 1] && e.jobId in st.rows && WorkerEvent(ev)
    ensures e.jobId in Step(s, st, ev).rows
    ensures RowMoves(st.rows[e.jobId], Step(s, st, ev).rows[e.jobId], Overturns(st, ev, e.jobId))
  {
    assert StatusFits(st, |st.ops| - 1, false);
    if ev.MarkRunning? {
      var held := BegunIs(st, ev.fault);
    }
  }

  lemma {:induction false} NewRowWaits(s: Setup, st: State, ev: Event, id: string)
    requires s.chunker.Valid() && Recorded(st) && Enabled(st, ev)
    requires id !in st.rows && id in Step(s, st, ev).rows
    ensures Waiting(Step(s, st, ev).rows[id])
  {
  }

  /** Lifecycle order, in every run and at every event, although the repository checks nothing: a row begins
      QUEUED, stays, and only its status and message change. The status moves from QUEUED to RUNNING, from
      RUNNING to SUCCEEDED or FAILED, and in no other way, except from SUCCEEDED to FAILED when `mark_succeeded`
      committed and raised. */
  lemma {:induction false} LifecycleOrder(s: Setup, es: seq<Event>, k: nat, id: string)
    requires s.chunker.Valid() && Run(s, es).Some? && k < |es|
    ensures var before, after := RowAfter(s, es, k, id), RowAfter(s, es, k + 1, id);
      if before.None? then after.Some? ==> Waiting(after.value)
      else after.Some? && RowMoves(before.value, after.value, Overturned(es, k))
  {
    RunNext(s, es, k);
    var st := Run(s, es[..k]).value;
    PlaceStatus(s, es[..k], false);
    EndingStatus(s, es[..k]);
    if id !in st.rows {
      if id in Step(s, st, es[k]).rows {
        NewRowWaits(s, st, es[k], id);
      }
    } else if st.worker.Idle? || !WorkerEvent(es[k]) || id != st.published[|st.ops| - 1].jobId {
      OtherRowStays(s, st, es[k], id);
    } else {
      HeldRowMoves(s, st, es[k], st.published[|st.ops| - 1]);
    }
  }

  // ---------- Finished jobs ----------

  /** The worker is done with message `i`. */
  predicate FinishedJob(st: State, i: nat) {
    i < |st.ops| && (i < |st.ops| - 1 || st.worker.Idle?)
  }

  /** Nothing changes any more for a finished job, neither its row nor its effect. */
  lemma {:induction false} FinishedStays(s: Setup, st: State, ev: Event, i: nat)
    requires s.chunker.Valid() && Recorded(st) && Enabled(st, ev) && Fifo(st) && RowsFirst(st) && FinishedJob(st, i)
    ensures var st', id := Step(s, st, ev), st.published[i].jobId;
      && FinishedJob(st', i) && i < |st'.published| && st'.published[i] == st.published[i] && st'.ops[i] == st.ops[i]
      && id in st.rows && id in st'.rows && st'.rows[id] == st.rows[id]
  {
    if WorkerEvent(ev) {
      WorkerElsewhere(s, st, ev, i);
    } else {
      HandlerElsewhere(s, st, ev, i);
    }
  }

  /** A job gets finished when the worker drops its message. */
  lemma {:induction false} FinishedNow(s: Setup, st: State, ev: Event, i: nat)
    requires s.chunker.Valid() && Recorded(st) && Enabled(st, ev) && Fifo(st)
    requires FinishedJob(Step(s, st, ev), i) && !FinishedJob(st, i)
    ensures i == |st.ops| - 1 && (ev.MarkRunning? || ev.MarkSucceeded? || ev.MarkFailed?)
    ensures !st.worker.Idle? && Step(s, st, ev).worker.Idle?
    ensures Step(s, st, ev).ops == st.ops && Step(s, st, ev).published == st.published
  {
  }

  // ---------- Rows left behind ----------

  /** The job of message `i` is finished and its row still says `status`. */
  predicate StrandedAt(st: State, i: nat, status: JobStatus) {
    FinishedJob(st, i) && StatusOf(st, i, status)
  }

  /** The event drops a job and leaves its row at `status`: `mark_running` raises, before its commit or after it,
      or `mark_failed` raises before its commit, unless `mark_succeeded` had committed before (`late`). */
  predicate Leaves(ev: Event, late: bool, status: JobStatus) {
    match ev
    case MarkRunning(fault) => fault.Some? && status == if Late(fault) then Running else Queued
    case MarkFailed(fault) => Blocks(fault) && !late && status == Running
    case _ => false
  }

  predicate Strands(es: seq<Event>, k: nat, status: JobStatus)
    requires k < |es|
  {
    Leaves(es[k], LateEnd(es[..k]), status)
  }

  /** What the row of a job says when the worker drops it; `late` if `mark_succeeded` had committed. */
  function DroppedTo(ev: Event, late: bool): JobStatus {
    match ev
    case MarkRunning(fault) => if Late(fault) then Running else Queued
    case MarkFailed(fault) => if !Blocks(fault) then Failed else if late then Succeeded else Running
    case _ => Succeeded
  }

  lemma {:induction false} DroppedAtStart(st: State, fault: Option<Fault>)
    requires Fifo(st) && RowsFirst(st) && Placed(st, false) && st.worker.Received? && fault.Some?
    ensures StatusOf(AfterMarkRunning(st, fault), |st.ops| - 1, if Late(fault) then Running else Queued)
  {
    var e := BegunIs(st, fault);
    assert StatusFits(st, |st.ops| - 1, false);
  }

  lemma {:induction false} DroppedAtEnd(st: State, fault: Option<Fault>, late: bool)
    requires Fifo(st) && RowsFirst(st) && Placed(st, false) && EndingSays(st, late)
    requires st.worker.Ending? && st.worker.result.Err?
    ensures StatusOf(AfterMarkFailed(st, fault), |st.ops| - 1, DroppedTo(MarkFailed(fault), late))
  {
    var e := HeldEnvelope(st);
    assert StatusFits(st, |st.ops| - 1, false);
  }

  lemma {:induction false} Dropped(s: Setup, st: State, ev: Event, late: bool)
    requires s.chunker.Valid() && Recorded(st) && Enabled(st, ev) && Fifo(st) && RowsFirst(st) && Placed(st, false)
    requires EndingSays(st, late) && !st.worker.Idle? && Step(s, st, ev).worker.Idle?
    ensures ev.MarkRunning? || ev.MarkSucceeded? || ev.MarkFailed?
    ensures StatusOf(Step(s, st, ev), |st.ops| - 1, DroppedTo(ev, late))
  {
    var e := HeldEnvelope(st);
    if ev.MarkRunning? {
      var held := BegunIs(st, ev.fault);
      DroppedAtStart(st, ev.fault);
    } else if ev.MarkFailed? {
      DroppedAtEnd(st, ev.fault, late);
    }
  }

  lemma {:induction false} DroppedLeaves(s: Setup, st: State, ev: Event, late: bool, status: JobStatus)
    requires s.chunker.Valid() && Recorded(st) && Enabled(st, ev) && Fifo(st) && RowsFirst(st) && Placed(st, false)
    requires EndingSays(st, late) && !st.worker.Idle? && Step(s, st, ev).worker.Idle?
    requires StatusOf(Step(s, st, ev), |st.ops| - 1, status) && !Terminal(status)
    ensures Leaves(ev, late, status)
  {
    Dropped(s, st, ev, late);
    if ev.MarkRunning? {
      var held := BegunIs(st, ev.fault);
    }
  }

  /** Job `i` is stranded after the first `k` events. */
  predicate StrandedAfter(s: Setup, es: seq<Event>, k: nat, i: nat, status: JobStatus)
    requires s.chunker.Valid() && k <= |es|
  {
    Run(s, es[..k]).Some? && StrandedAt(Run(s, es[..k]).value, i, status)
  }

  lemma {:induction false} StrandedNow(s: Setup, es: seq<Event>, k: nat, status: JobStatus) returns (i: nat)
    requires s.chunker.Valid() && Run(s, es).Some? && k < |es| && Strands(es, k, status)
    ensures StrandedAfter(s, es, k + 1, i, status)
  {
    RunNext(s, es, k);
    var st := Run(s, es[..k]).value;
    PlaceStatus(s, es[..k], false);
    EndingStatus(s, es[..k]);
    if es[k].MarkRunning? {
      var held := BegunIs(st, es[k].fault);
    }
    Dropped(s, st, es[k], LateEnd(es[..k]));
    i := |st.ops| - 1;
  }

  lemma {:induction false} StrandedKept(s: Setup, st: State, ev: Event, i: nat, status: JobStatus)
    requires s.chunker.Valid() && Recorded(st) && Enabled(st, ev) && Fifo(st) && RowsFirst(st) && FinishedJob(st, i)
    ensures StrandedAt(Step(s, st, ev), i, status) <==> StrandedAt(st, i, status)
  {
    FinishedStays(s, st, ev, i);
  }

  lemma {:induction false} StrandedOneMore(s: Setup, es: seq<Event>, k: nat, i: nat, status: JobStatus)
    requires s.chunker.Valid() && Run(s, es).Some? && k < |es| && StrandedAfter(s, es, k, i, status)
    ensures StrandedAfter(s, es, k + 1, i, status)
  {
    RunNext(s, es, k);
    RunInv(s, es[..k]);
    StrandedKept(s, Run(s, es[..k]).value, es[k], i, status);
  }

  lemma {:induction false} StrandedStays(s: Setup, es: seq<Event>, j: nat, k: nat, i: nat, status: JobStatus)
    requires s.chunker.Valid() && Run(s, es).Some? && j <= k <= |es| && StrandedAfter(s, es, j, i, status)
    ensures StrandedAfter(s, es, k, i, status)
    decreases k - j
  {
    if j < k {
      StrandedOneMore(s, es, j, i, status);
      StrandedStays(s, es, j + 1, k, i, status);
    }
  }

  /** If a job is stranded that was not before, the event strands it. */
  lemma {:induction false} StrandedFrom(s: Setup, es: seq<Event>, k: nat, i: nat, status: JobStatus)
    requires s.chunker.Valid() && Run(s, es).Some? && k < |es| && StrandedAfter(s, es, k + 1, i, status)
    requires !Terminal(status)
    ensures StrandedAfter(s, es, k, i, status) || Strands(es, k, status)
  {
    RunNext(s, es, k);
    var st := Run(s, es[..k]).value;
    PlaceStatus(s, es[..k], false);
    if FinishedJob(st, i) {
      StrandedKept(s, st, es[k], i, status);
    } else {
      EndingStatus(s, es[..k]);
      FinishedNow(s, st, es[k], i);
      DroppedLeaves(s, st, es[k], LateEnd(es[..k]), status);
    }
  }

  lemma {:induction false} StrandedBy(s: Setup, es: seq<Event>, k: nat, i: nat, status: JobStatus) returns (j: nat)
    requires s.chunker.Valid() && Run(s, es).Some? && k <= |es| && StrandedAfter(s, es, k, i, status)
    requires !Terminal(status)
    ensures j < k && Strands(es, j, status)
    decreases k
  {
    StrandedFrom(s, es, k - 1, i, status);
    if Strands(es, k - 1, status) {
      j := k - 1;
    } else {
      j := StrandedBy(s, es, k - 1, i, status);
    }
  }

  /** Every RUNNING row is that of the message the worker holds. */
  predicate OnlyHeldRuns(st: State) {
    forall id :: id in st.rows && st.rows[id].status == Running ==>
      !st.worker.Idle? && 0 < |st.ops| <= |st.published| && st.published[|st.ops| - 1].jobId == id
  }

  /** The message of a RUNNING row is held, or finished and stranded. */
  lemma {:induction false} RunningIs(st: State, id: string) returns (i: nat)
    requires Fifo(st) && RowsFirst(st) && Placed(st, false) && id in st.rows && st.rows[id].status == Running
    ensures i < |st.ops| <= |st.published| && st.published[i].jobId == id
    ensures StrandedAt(st, i, Running) || (!st.worker.Idle? && i == |st.ops| - 1)
  {
    i :| 0 <= i < |st.published| && st.published[i].jobId == id;
    assert StatusFits(st, i, false);
  }

  lemma {:induction false} StrandedNotHeld(st: State, i: nat)
    requires Fifo(st) && RowsFirst(st) && StrandedAt(st, i, Running)
    ensures !OnlyHeldRuns(st)
  {
    assert HasRow(st.rows, st.published[i]);
  }

  /** One job at a time, exactly, in every run: the only RUNNING row is that of the message the worker holds, if
      and only if no event left a dropped row RUNNING. */
  lemma {:induction false} OneRunning(s: Setup, es: seq<Event>)
    requires s.chunker.Valid() && Run(s, es).Some?
    ensures OnlyHeldRuns(Run(s, es).value) <==> forall k :: 0 <= k < |es| ==> !Strands(es, k, Running)
  {
    var st := Run(s, es).value;
    PlaceStatus(s, es, false);
    assert es[..|es|] == es;
    if k :| 0 <= k < |es| && Strands(es, k, Running) {
      var i := StrandedNow(s, es, k, Running);
      StrandedStays(s, es, k + 1, |es|, i, Running);
      StrandedNotHeld(st, i);
    } else {
      forall id | id in st.rows && st.rows[id].status == Running
        ensures !st.worker.Idle? && 0 < |st.ops| <= |st.published| && st.published[|st.ops| - 1].jobId == id
      {
        var i := RunningIs(st, id);
        if StrandedAt(st, i, Running) {
          var k := StrandedBy(s, es, |es|, i, Running);
        }
      }
    }
  }

  /** The rows of all finished jobs have ended. */
  predicate AllEnd(st: State) {
    forall i :: 0 <= i < |st.ops| && FinishedJob(st, i) ==> StatusOf(st, i, Succeeded) || StatusOf(st, i, Failed)
  }

  lemma {:induction false} StrandedNotEnded(st: State, i: nat, status: JobStatus)
    requires StrandedAt(st, i, status) && !Terminal(status)
    ensures !AllEnd(st)
  {
  }

  /** Jobs that end, exactly, in every run: every finished job's row says SUCCEEDED or FAILED, if and only if no
      event left a dropped row QUEUED or RUNNING. */
  lemma {:induction false} AllEndExactly(s: Setup, es: seq<Event>)
    requires s.chunker.Valid() && Run(s, es).Some?
    ensures AllEnd(Run(s, es).value) <==>
      forall k :: 0 <= k < |es| ==> !Strands(es, k, Queued) && !Strands(es, k, Running)
  {
    var st := Run(s, es).value;
    RunInv(s, es);
    assert es[..|es|] == es;
    if k :| 0 <= k < |es| && (Strands(es, k, Queued) || Strands(es, k, Running)) {
      var status := if Strands(es, k, Queued) then Queued else Running;
      var i := StrandedNow(s, es, k, status);
      StrandedStays(s, es, k + 1, |es|, i, status);
      StrandedNotEnded(st, i, status);
    } else {
      forall i | 0 <= i < |st.ops| && FinishedJob(st, i)
        ensures StatusOf(st, i, Succeeded) || StatusOf(st, i, Failed)
      {
        assert HasRow(st.rows, st.published[i]);
        if StrandedAt(st, i, Queued) {
          var k := StrandedBy(s, es, |es|, i, Queued);
        } else if StrandedAt(st, i, Running) {
          var k := StrandedBy(s, es, |es|, i, Running);
        }
      }
    }
  }

  // ---------- Rows that hide an effect ----------

  /** A finished job had its effect, and its row does not say SUCCEEDED. */
  predicate HiddenAt(st: State, i: nat) {
    FinishedJob(st, i) && !st.ops[i].Untouched? && !StatusOf(st, i, Succeeded)
  }

  /** Event `k` drops a job after its upsert or delete took effect: it marks the row FAILED, or leaves it although
      `mark_succeeded` did not commit. */
  predicate Conceals(s: Setup, es: seq<Event>, k: nat)
    requires s.chunker.Valid() && k < |es|
  {
    var st := Run(s, es[..k]);
    && es[k].MarkFailed? && !(LateEnd(es[..k]) && Blocks(es[k].fault))
    && st.Some? && st.value.ops != [] && !st.value.ops[|st.value.ops| - 1].Untouched?
  }

  lemma {:induction false} DroppedHidden(s: Setup, st: State, ev: Event, late: bool)
    requires s.chunker.Valid() && Recorded(st) && Enabled(st, ev) && Fifo(st) && RowsFirst(st) && Placed(st, false)
    requires EndingSays(st, late) && !st.worker.Idle? && Step(s, st, ev).worker.Idle?
    ensures !st.ops[|st.ops| - 1].Untouched? && !StatusOf(Step(s, st, ev), |st.ops| - 1, Succeeded) <==>
      ev.MarkFailed? && !(late && Blocks(ev.fault)) && !st.ops[|st.ops| - 1].Untouched?
  {
    Dropped(s, st, ev, late);
  }

  lemma {:induction false} HiddenKept(s: Setup, st: State, ev: Event, i: nat)
    requires s.chunker.Valid() && Recorded(st) && Enabled(st, ev) && Fifo(st) && RowsFirst(st) && FinishedJob(st, i)
    ensures HiddenAt(Step(s, st, ev), i) <==> HiddenAt(st, i)
  {
    FinishedStays(s, st, ev, i);
  }

  /** Job `i` is hidden after the first `k` events. */
  predicate HiddenAfter(s: Setup, es: seq<Event>, k: nat, i: nat)
    requires s.chunker.Valid() && k <= |es|
  {
    Run(s, es[..k]).Some? && HiddenAt(Run(s, es[..k]).value, i)
  }

  lemma {:induction false} HiddenNow(s: Setup, es: seq<Event>, k: nat) returns (i: nat)
    requires s.chunker.Valid() && Run(s, es).Some? && k < |es| && Conceals(s, es, k)
    ensures HiddenAfter(s, es, k + 1, i)
  {
    RunNext(s, es, k);
    var st := Run(s, es[..k]).value;
    PlaceStatus(s, es[..k], false);
    EndingStatus(s, es[..k]);
    DroppedHidden(s, st, es[k], LateEnd(es[..k]));
    i := |st.ops| - 1;
  }

  lemma {:induction false} HiddenOneMore(s: Setup, es: seq<Event>, k: nat, i: nat)
    requires s.chunker.Valid() && Run(s, es).Some? && k < |es| && HiddenAfter(s, es, k, i)
    ensures HiddenAfter(s, es, k + 1, i)
  {
    RunNext(s, es, k);
    RunInv(s, es[..k]);
    HiddenKept(s, Run(s, es[..k]).value, es[k], i);
  }

  lemma {:induction false} HiddenStays(s: Setup, es: seq<Event>, j: nat, k: nat, i: nat)
    requires s.chunker.Valid() && Run(s, es).Some? && j <= k <= |es| && HiddenAfter(s, es, j, i)
    ensures HiddenAfter(s, es, k, i)
    decreases k - j
  {
    if j < k {
      HiddenOneMore(s, es, j, i);
      HiddenStays(s, es, j + 1, k, i);
    }
  }

  /** If a job is hidden that was not before, the event conceals it. */
  lemma {:induction false} HiddenFrom(s: Setup, es: seq<Event>, k: nat, i: nat)
    requires s.chunker.Valid() && Run(s, es).Some? && k < |es| && HiddenAfter(s, es, k + 1, i)
    ensures HiddenAfter(s, es, k, i) || Conceals(s, es, k)
  {
    RunNext(s, es, k);
    var st := Run(s, es[..k]).value;
    PlaceStatus(s, es[..k], false);
    if FinishedJob(st, i) {
      HiddenKept(s, st, es[k], i);
    } else {
      EndingStatus(s, es[..k]);
      FinishedNow(s, st, es[k], i);
      DroppedHidden(s, st, es[k], LateEnd(es[..k]));
    }
  }

  lemma {:induction false} HiddenBy(s: Setup, es: seq<Event>, k: nat, i: nat) returns (j: nat)
    requires s.chunker.Valid() && Run(s, es).Some? && k <= |es| && HiddenAfter(s, es, k, i)
    ensures j < k && Conceals(s, es, j)
    decreases k
  {
    HiddenFrom(s, es, k - 1, i);
    if Conceals(s, es, k - 1) {
      j := k - 1;
    } else {
      j := HiddenBy(s, es, k - 1, i);
    }
  }

  /** A finished job had its effect if and only if its row says SUCCEEDED. */
  predicate RowsTell(st: State) {
    forall i :: 0 <= i < |st.ops| && FinishedJob(st, i) ==> (!st.ops[i].Untouched? <==> StatusOf(st, i, Succeeded))
  }

  /** What the rows tell, exactly, in every run: they tell of every finished job whether it had its effect, if
      and only if no job was marked FAILED, or left unmarked, after its upsert or delete took effect. */
  lemma {:induction false} RowsTellExactly(s: Setup, es: seq<Event>)
    requires s.chunker.Valid() && Run(s, es).Some?
    ensures RowsTell(Run(s, es).value) <==> forall k :: 0 <= k < |es| ==> !Conceals(s, es, k)
  {
    var st := Run(s, es).value;
    assert es[..|es|] == es;
    if k :| 0 <= k < |es| && Conceals(s, es, k) {
      var i := HiddenNow(s, es, k);
      HiddenStays(s, es, k + 1, |es|, i);
    } else {
      forall i | 0 <= i < |st.ops| && FinishedJob(st, i) ensures !st.ops[i].Untouched? <==> StatusOf(st, i, Succeeded) {
        if StatusOf(st, i, Succeeded) {
          SucceededReturned(s, es, i);
        } else if HiddenAt(st, i) {
          var k := HiddenBy(s, es, |es|, i);
        }
      }
    }
  }
}
