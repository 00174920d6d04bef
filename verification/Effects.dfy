/** What the jobs of a run did to the store, and how their rows tell. */
module Effects {
  import opened PyText
  import opened VectorStore
  import opened Jobs
  import opened Worker
  import opened Pipeline
  import opened PipelineLaws
  import opened Lifecycle

  // ---------- What the jobs did ----------

  /** No `mark_succeeded` raises, and no upsert or delete raises after it took effect. */
  predicate Punctual(es: seq<Event>) {
    forall ev :: ev in es ==> PunctualEvent(ev)
  }

  predicate PunctualEvent(ev: Event) {
    (ev.MarkSucceeded? ==> ev.fault.None?) && (ev.DoWork? ==> !Late(ev.outside.storeFault))
  }

  /** A job whose row says SUCCEEDED, or that is about to be marked so, has done its upsert or delete, and that
      returned. In punctual runs any other job has done nothing. */
  predicate EffectFits(st: State, i: nat, returned: bool, punctual: bool)
    requires i < |st.ops| <= |st.published| && st.published[i].jobId in st.rows
  {
    var status := st.rows[st.published[i].jobId].status;
    var held := i == |st.ops| - 1 && st.worker.Ending?;
    && (status.Succeeded? || (held && st.worker.result.Ok?) ==> JobDone(st.ops[i], st.published[i]) && returned)
    && (punctual && !status.Succeeded? && !(held && st.worker.result.Ok?) ==> st.ops[i].Untouched?)
    && (punctual && held ==> !status.Succeeded?)
  }

  predicate Effects(st: State, returned: seq<bool>, punctual: bool)
    requires RowsFirst(st) && |returned| == |st.ops| <= |st.published|
  {
    forall i :: 0 <= i < |st.ops| ==> EffectFits(st, i, returned[i], punctual)
  }

  /** Whether the work on the held message returned, after one more event. */
  function ReturnedHeld(returned: bool, ev: Event, st': State): bool {
    if ev.DoWork? then st'.worker.Ending? && st'.worker.result.Ok? else returned
  }

  /** Whether the work on each message taken returned, after one more event. */
  function ReturnedNext(returned: seq<bool>, ev: Event, st': State): seq<bool> {
    if ev.Take? then returned + [false]
    else if ev.DoWork? && returned != [] then returned[|returned| - 1 := ReturnedHeld(false, ev, st')]
    else returned
  }

  function Returned(s: Setup, es: seq<Event>): (r: seq<bool>)
    requires s.chunker.Valid() && Run(s, es).Some?
    ensures |r| == |Run(s, es).value.ops|
  {
    if es == [] then []
    else ReturnedNext(Returned(s, es[..|es| - 1]), es[|es| - 1], Run(s, es).value)
  }

  /** A step of the worker leaves row and effect of every job but the one it holds. */
  lemma {:induction false} WorkerElsewhere(s: Setup, st: State, ev: Event, i: nat)
    requires s.chunker.Valid() && Recorded(st) && Enabled(st, ev) && Fifo(st) && RowsFirst(st)
    requires WorkerEvent(ev) && i < |st.ops| && (i < |st.ops| - 1 || st.worker.Idle?)
    ensures var st', id := Step(s, st, ev), st.published[i].jobId;
      && st'.published == st.published && i < |st'.ops| && st'.ops[i] == st.ops[i]
      && id in st.rows && id in st'.rows && st'.rows[id] == st.rows[id]
  {
    assert HasRow(st.rows, st.published[i]);
    OtherRowStays(s, st, ev, st.published[i].jobId);
  }

  /** A step of a handler leaves every job that was taken. */
  lemma {:induction false} HandlerElsewhere(s: Setup, st: State, ev: Event, i: nat)
    requires s.chunker.Valid() && Recorded(st) && Enabled(st, ev) && Fifo(st) && RowsFirst(st)
    requires !WorkerEvent(ev) && i < |st.ops|
    ensures var st', id := Step(s, st, ev), st.published[i].jobId;
      && i < |st'.published| && st'.published[i] == st.published[i] && st'.ops == st.ops && st'.worker == st.worker
      && id in st.rows && id in st'.rows && st'.rows[id] == st.rows[id]
  {
    assert HasRow(st.rows, st.published[i]);
  }

  /** Only the job that the worker holds can change its row or its effect. */
  lemma {:induction false} EffectElsewhere(
    s: Setup, st: State, ev: Event, i: nat, returned: bool, punctual: bool)
    requires s.chunker.Valid() && Recorded(st) && Enabled(st, ev) && Fifo(st) && RowsFirst(st)
    requires RowsFirst(Step(s, st, ev)) && Fifo(Step(s, st, ev))
    requires i < |st.ops| && EffectFits(st, i, returned, punctual)
    requires i < |st.ops| - 1 || st.worker.Idle? || !WorkerEvent(ev)
    ensures EffectFits(Step(s, st, ev), i, returned, punctual)
  {
    if WorkerEvent(ev) {
      WorkerElsewhere(s, st, ev, i);
    } else {
      HandlerElsewhere(s, st, ev, i);
    }
  }

  lemma {:induction false} BegunInert(st: State, fault: Option<Fault>)
    requires Fifo(st) && RowsFirst(st) && st.worker.Received? && Placed(st, false)
    ensures var st', n := AfterMarkRunning(st, fault), |st.ops| - 1; var id := st.published[n].jobId;
      && st'.published == st.published && st'.ops == st.ops && st.ops[n].Untouched? && !st'.worker.Ending?
      && id in st'.rows && !st'.rows[id].status.Succeeded?
  {
    var e := BegunIs(st, fault);
    assert StatusFits(st, |st.ops| - 1, false);
  }

  lemma {:induction false} EffectBegun(st: State, fault: Option<Fault>, returned: bool, punctual: bool)
    requires Fifo(st) && RowsFirst(st) && st.worker.Received? && RowsFirst(AfterMarkRunning(st, fault))
    requires Placed(st, false)
    ensures EffectFits(AfterMarkRunning(st, fault), |st.ops| - 1, returned, punctual)
  {
    BegunInert(st, fault);
  }

  lemma {:induction false} EffectWorked(s: Setup, st: State, o: Outside, punctual: bool)
    requires s.chunker.Valid() && Fifo(st) && RowsFirst(st) && st.worker.Working? && RowsFirst(AfterWork(s, st, o))
    requires Placed(st, false) && (punctual ==> !Late(o.storeFault))
    ensures var st' := AfterWork(s, st, o); EffectFits(st', |st.ops| - 1, st'.worker.result.Ok?, punctual)
  {
    var e := HeldEnvelope(st);
    assert StatusFits(st, |st.ops| - 1, false);
    WorkIsOp(s, e, o, st.collection);
  }

  lemma {:induction false} EffectSucceeded(st: State, fault: Option<Fault>, returned: bool, punctual: bool)
    requires Fifo(st) && RowsFirst(st) && st.worker.Ending? && st.worker.result.Ok?
    requires Placed(st, false) && EffectFits(st, |st.ops| - 1, returned, punctual) && (punctual ==> fault.None?)
    requires RowsFirst(AfterMarkSucceeded(st, fault))
    ensures EffectFits(AfterMarkSucceeded(st, fault), |st.ops| - 1, returned, punctual)
  {
    var e := HeldEnvelope(st);
    assert StatusFits(st, |st.ops| - 1, false);
  }

  lemma {:induction false} EffectFailed(st: State, fault: Option<Fault>, returned: bool, punctual: bool)
    requires Fifo(st) && RowsFirst(st) && st.worker.Ending? && st.worker.result.Err?
    requires EffectFits(st, |st.ops| - 1, returned, punctual) && RowsFirst(AfterMarkFailed(st, fault))
    ensures EffectFits(AfterMarkFailed(st, fault), |st.ops| - 1, returned, punctual)
  {
    var e := HeldEnvelope(st);
  }

  lemma {:induction false} EffectsTaken(s: Setup, st: State, punctual: bool)
    requires s.chunker.Valid() && Fifo(st) && RowsFirst(st) && Placed(st, false) && Enabled(st, Take)
    requires RowsFirst(Step(s, st, Take)) && Fifo(Step(s, st, Take))
    ensures EffectFits(Step(s, st, Take), |st.ops|, false, punctual)
  {
    assert HasRow(st.rows, st.published[|st.ops|]) && StatusFits(st, |st.ops|, false);
  }

  lemma {:induction false} EffectHeld(s: Setup, st: State, ev: Event, returned: bool, punctual: bool)
    requires s.chunker.Valid() && Recorded(st) && Enabled(st, ev) && Fifo(st) && RowsFirst(st) && Placed(st, false)
    requires !st.worker.Idle? && WorkerEvent(ev) && EffectFits(st, |st.ops| - 1, returned, punctual)
    requires punctual ==> PunctualEvent(ev)
    requires RowsFirst(Step(s, st, ev)) && Fifo(Step(s, st, ev))
    ensures EffectFits(Step(s, st, ev), |st.ops| - 1, ReturnedHeld(returned, ev, Step(s, st, ev)), punctual)
  {
    if ev.MarkRunning? {
      EffectBegun(st, ev.fault, returned, punctual);
    } else if ev.DoWork? {
      EffectWorked(s, st, ev.outside, punctual);
    } else if ev.MarkSucceeded? {
      EffectSucceeded(st, ev.fault, returned, punctual);
    } else {
      EffectFailed(st, ev.fault, returned, punctual);
    }
  }

  lemma {:induction false} ReturnedEach(returned: seq<bool>, ev: Event, st': State, i: nat)
    requires i < |returned|
    ensures i < |ReturnedNext(returned, ev, st')|
    ensures ReturnedNext(returned, ev, st')[i]
         == if i < |returned| - 1 then returned[i] else ReturnedHeld(returned[i], ev, st')
  {
  }

  lemma {:induction false} OthersAfter(
    s: Setup, st: State, ev: Event, returned: seq<bool>, punctual: bool, i: nat)
    requires s.chunker.Valid() && Recorded(st) && Enabled(st, ev) && Fifo(st) && RowsFirst(st)
    requires |returned| == |st.ops| && i < |st.ops| && EffectFits(st, i, returned[i], punctual)
    requires i < |st.ops| - 1 || st.worker.Idle? || !WorkerEvent(ev)
    requires RowsFirst(Step(s, st, ev)) && Fifo(Step(s, st, ev))
    ensures i < |ReturnedNext(returned, ev, Step(s, st, ev))|
    ensures EffectFits(Step(s, st, ev), i, ReturnedNext(returned, ev, Step(s, st, ev))[i], punctual)
  {
    ReturnedEach(returned, ev, Step(s, st, ev), i);
    EffectElsewhere(s, st, ev, i, returned[i], punctual);
  }

  lemma {:induction false} HeldAfter(
    s: Setup, st: State, ev: Event, st': State, returned: seq<bool>, punctual: bool, i: nat)
    requires s.chunker.Valid() && Recorded(st) && Enabled(st, ev) && Fifo(st) && RowsFirst(st) && Placed(st, false)
    requires |returned| == |st.ops| && i < |st.ops| && EffectFits(st, i, returned[i], punctual)
    requires i == |st.ops| - 1 && !st.worker.Idle? && WorkerEvent(ev) && (punctual ==> PunctualEvent(ev))
    requires st' == Step(s, st, ev) && RowsFirst(st') && Fifo(st') && i < |st'.ops|
    ensures i < |ReturnedNext(returned, ev, st')| && EffectFits(st', i, ReturnedNext(returned, ev, st')[i], punctual)
  {
    ReturnedEach(returned, ev, st', i);
    EffectHeld(s, st, ev, returned[i], punctual);
  }

  lemma {:induction false} ReturnedLength(s: Setup, st: State, ev: Event, returned: seq<bool>)
    requires s.chunker.Valid() && Recorded(st) && Enabled(st, ev) && |returned| == |st.ops|
    ensures |ReturnedNext(returned, ev, Step(s, st, ev))| == |Step(s, st, ev).ops|
    ensures ev.Take? ==> !ReturnedNext(returned, ev, Step(s, st, ev))[|st.ops|]
    ensures |Step(s, st, ev).ops| == |st.ops| + if ev.Take? then 1 else 0
  {
  }

  lemma {:induction false} EffectsKept(s: Setup, st: State, ev: Event, returned: seq<bool>, punctual: bool)
    requires s.chunker.Valid() && Recorded(st) && Enabled(st, ev) && Fifo(st) && RowsFirst(st) && Placed(st, false)
    requires |returned| == |st.ops| && Effects(st, returned, punctual) && (punctual ==> PunctualEvent(ev))
    requires RowsFirst(Step(s, st, ev)) && Fifo(Step(s, st, ev))
    ensures var st' := Step(s, st, ev); var returned' := ReturnedNext(returned, ev, st');
      |returned'| == |st'.ops| && Effects(st', returned', punctual)
  {
    var st' := Step(s, st, ev);
    var returned' := ReturnedNext(returned, ev, st');
    ReturnedLength(s, st, ev, returned);
    forall i | 0 <= i < |st'.ops| ensures EffectFits(st', i, returned'[i], punctual) {
      if i == |st.ops| {
        EffectsTaken(s, st, punctual);
      } else if i < |st.ops| - 1 || st.worker.Idle? || !WorkerEvent(ev) {
        OthersAfter(s, st, ev, returned, punctual, i);
      } else {
        HeldAfter(s, st, ev, st', returned, punctual, i);
      }
    }
  }

  lemma {:induction false} RunEffects(s: Setup, es: seq<Event>, punctual: bool)
    requires s.chunker.Valid() && Run(s, es).Some? && (punctual ==> Punctual(es))
    ensures Inv(s, Run(s, es).value) && Effects(Run(s, es).value, Returned(s, es), punctual)
    decreases |es|
  {
    RunInv(s, es);
    if es != [] {
      var n := |es| - 1;
      PlaceStatus(s, es[..n], false);
      RunEffects(s, es[..n], punctual);
      assert es[n] in es;
      EffectsKept(s, Run(s, es[..n]).value, es[n], Returned(s, es[..n]), punctual);
    }
  }

  predicate StatusOf(st: State, i: nat, status: JobStatus) {
    i < |st.published| && st.published[i].jobId in st.rows && st.rows[st.published[i].jobId].status == status
  }

  lemma {:induction false} SucceededReturned(s: Setup, es: seq<Event>, i: nat)
    requires s.chunker.Valid() && Run(s, es).Some? && StatusOf(Run(s, es).value, i, Succeeded)
    ensures i < |Returned(s, es)| && Returned(s, es)[i]
    ensures var st := Run(s, es).value; |st.ops| <= |st.published| && JobDone(st.ops[i], st.published[i])
  {
    var st := Run(s, es).value;
    RunEffects(s, es, false);
    PlaceStatus(s, es, false);
    assert StatusFits(st, i, false);
    assert EffectFits(st, i, Returned(s, es)[i], false);
  }

  /** The store is also what the recorded effects leave behind, and each of them is that of its own job or
      none. */
  lemma {:induction false} RunReplayed(s: Setup, es: seq<Event>)
    requires s.chunker.Valid() && Run(s, es).Some?
    ensures var st := Run(s, es).value;
      && OpsOk(s, st.ops) && |st.ops| <= |st.published| && Contents(st.collection) == Replay(s, st.ops)
      && (forall i :: 0 <= i < |st.ops| ==> st.ops[i].Untouched? || JobDone(st.ops[i], st.published[i]))
  {
    var st := Run(s, es).value;
    RunInv(s, es);
    forall i | 0 <= i < |st.ops| ensures st.ops[i].Untouched? || JobDone(st.ops[i], st.published[i]) {
      assert OpFits(st.ops[i], st.published[i]);
    }
  }

  /** In punctual runs a finished job has had its effect exactly when its row says SUCCEEDED, and every other
      finished job, FAILED or dropped, has had none. */
  lemma {:induction false} EffectExactlyWhenSucceeded(s: Setup, es: seq<Event>, i: nat)
    requires s.chunker.Valid() && Run(s, es).Some? && Punctual(es)
    requires var st := Run(s, es).value; i < |st.ops| && (i < |st.ops| - 1 || st.worker.Idle?)
    ensures var st := Run(s, es).value;
      && i < |st.published|
      && if StatusOf(st, i, Succeeded) then JobDone(st.ops[i], st.published[i]) else st.ops[i].Untouched?
  {
    var st := Run(s, es).value;
    RunEffects(s, es, true);
    assert EffectFits(st, i, Returned(s, es)[i], true) && HasRow(st.rows, st.published[i]);
  }

  /** In punctual runs a row that says QUEUED or FAILED belongs to a job without effect. */
  lemma {:induction false} InertUntouched(s: Setup, es: seq<Event>, i: nat)
    requires s.chunker.Valid() && Run(s, es).Some? && Punctual(es) && i < |Run(s, es).value.ops|
    requires var st := Run(s, es).value; StatusOf(st, i, Queued) || StatusOf(st, i, Failed)
    ensures Run(s, es).value.ops[i].Untouched?
  {
    var st := Run(s, es).value;
    RunEffects(s, es, true);
    PlaceStatus(s, es, false);
    assert EffectFits(st, i, Returned(s, es)[i], true) && StatusFits(st, i, false);
  }
}
