/** The store of every run is that of working on the published jobs one after the other. */
module SequentialSpec {
  import opened PyText
  import opened VectorStore
  import opened Jobs
  import opened Worker
  import opened Pipeline
  import opened PipelineLaws
  import opened Effects

  /** From the events alone: how the outside world behaved for each message taken, in order, if the worker got
      to work on it. */
  function Outsides(es: seq<Event>): seq<Option<Outside>> {
    if es == [] then []
    else
      var n := |es| - 1;
      var before := Outsides(es[..n]);
      match es[n]
      case Take => before + [None]
      case DoWork(o) => if before == [] then before else before[|before| - 1 := Some(o)]
      case _ => before
  }

  /** The store after working on the jobs one after the other. */
  function Sequential(s: Setup, jobs: seq<JobEnvelope>, os: seq<Option<Outside>>): Option<Points>
    requires s.chunker.Valid() && |os| <= |jobs|
    decreases |os|
  {
    if os == [] then None
    else
      var n := |os| - 1;
      var before := Sequential(s, jobs, os[..n]);
      if os[n].None? then before else WorkOn(s, jobs[n], os[n].value, before).collection
  }

  /** The work on job `i`, when the jobs are worked on one after the other. */
  function WorkAt(s: Setup, jobs: seq<JobEnvelope>, os: seq<Option<Outside>>, i: nat): Work
    requires s.chunker.Valid() && i < |os| <= |jobs| && os[i].Some?
  {
    WorkOn(s, jobs[i], os[i].value, Sequential(s, jobs, os[..i]))
  }

  function OpAt(s: Setup, jobs: seq<JobEnvelope>, os: seq<Option<Outside>>, i: nat): StoreOp
    requires s.chunker.Valid() && i < |os| <= |jobs|
  {
    if os[i].None? then Untouched else WorkAt(s, jobs, os, i).op
  }

  /** Job `i` was worked on, its upsert or delete included, and that returned. */
  predicate ReturnedAt(s: Setup, jobs: seq<JobEnvelope>, os: seq<Option<Outside>>, i: nat)
    requires s.chunker.Valid()
  {
    i < |os| <= |jobs| && os[i].Some? && WorkAt(s, jobs, os, i).result.Ok?
  }

  /** The store, the recorded effects, and which work returned, are those of working on the jobs one after the
      other. */
  predicate Refines(
    s: Setup, collection: Option<Points>, ops: seq<StoreOp>, returned: seq<bool>,
    jobs: seq<JobEnvelope>, os: seq<Option<Outside>>)
    requires s.chunker.Valid()
  {
    && |ops| == |returned| == |os| <= |jobs| && collection == Sequential(s, jobs, os)
    && (forall i :: 0 <= i < |ops| ==> ops[i] == OpAt(s, jobs, os, i))
    && (forall i :: 0 <= i < |ops| ==> returned[i] == ReturnedAt(s, jobs, os, i))
  }

  lemma {:induction false} SequentialSame(
    s: Setup, jobs: seq<JobEnvelope>, more: seq<JobEnvelope>, os: seq<Option<Outside>>)
    requires s.chunker.Valid() && |os| <= |jobs|
    ensures Sequential(s, jobs + more, os) == Sequential(s, jobs, os)
    decreases |os|
  {
    if os != [] {
      SequentialSame(s, jobs, more, os[..|os| - 1]);
    }
  }

  lemma {:induction false} RefinesPublished(
    s: Setup, collection: Option<Points>, ops: seq<StoreOp>, returned: seq<bool>,
    jobs: seq<JobEnvelope>, os: seq<Option<Outside>>, e: JobEnvelope)
    requires s.chunker.Valid() && Refines(s, collection, ops, returned, jobs, os)
    ensures Refines(s, collection, ops, returned, jobs + [e], os)
  {
    SequentialSame(s, jobs, [e], os);
    forall i | 0 <= i < |ops|
      ensures ops[i] == OpAt(s, jobs + [e], os, i) && returned[i] == ReturnedAt(s, jobs + [e], os, i)
    {
      SequentialSame(s, jobs, [e], os[..i]);
    }
  }

  lemma {:induction false} RefinesTaken(
    s: Setup, collection: Option<Points>, ops: seq<StoreOp>, returned: seq<bool>,
    jobs: seq<JobEnvelope>, os: seq<Option<Outside>>)
    requires s.chunker.Valid() && Refines(s, collection, ops, returned, jobs, os) && |os| < |jobs|
    ensures Refines(s, collection, ops + [Untouched], returned + [false], jobs, os + [None])
  {
    var later := os + [None];
    assert later[..|os|] == os;
    forall i | 0 <= i < |ops|
      ensures ops[i] == OpAt(s, jobs, later, i) && returned[i] == ReturnedAt(s, jobs, later, i)
    {
      assert later[..i] == os[..i] && later[i] == os[i];
    }
  }

  lemma {:induction false} RefinesWorked(
    s: Setup, collection: Option<Points>, ops: seq<StoreOp>, returned: seq<bool>,
    jobs: seq<JobEnvelope>, os: seq<Option<Outside>>, n: nat, o: Outside)
    requires s.chunker.Valid() && Refines(s, collection, ops, returned, jobs, os) && |os| == n + 1 && os[n].None?
    ensures var w := WorkOn(s, jobs[n], o, collection);
      Refines(s, w.collection, ops[n := w.op], returned[n := w.result.Ok?], jobs, os[n := Some(o)])
  {
    var later := os[n := Some(o)];
    assert later[..n] == os[..n];
    forall i | 0 <= i < n
      ensures ops[i] == OpAt(s, jobs, later, i) && returned[i] == ReturnedAt(s, jobs, later, i)
    {
      assert later[..i] == os[..i] && later[i] == os[i];
    }
  }

  /** While the worker has not got to work on its message, nothing is recorded for it. */
  predicate NotYet(st: State, os: seq<Option<Outside>>) {
    st.worker.Received? || st.worker.Working? ==> os != [] && os[|os| - 1].None?
  }

  lemma {:induction false} RefinesKept(
    s: Setup, st: State, ev: Event, returned: seq<bool>, os: seq<Option<Outside>>)
    requires s.chunker.Valid() && Recorded(st) && Enabled(st, ev) && Fifo(st)
    requires Refines(s, st.collection, st.ops, returned, st.published, os) && NotYet(st, os)
    ensures var st' := Step(s, st, ev);
      var os' := if ev.Take? then os + [None] else if ev.DoWork? then os[|os| - 1 := Some(ev.outside)] else os;
      && Refines(s, st'.collection, st'.ops, ReturnedNext(returned, ev, st'), st'.published, os')
      && NotYet(st', os')
  {
    if ev.Publish? {
      RefinesPublished(s, st.collection, st.ops, returned, st.published, os, st.unpublished[ev.id]);
    } else if ev.Take? {
      RefinesTaken(s, st.collection, st.ops, returned, st.published, os);
    } else if ev.DoWork? {
      RefinesWorked(s, st.collection, st.ops, returned, st.published, os, |os| - 1, ev.outside);
    }
  }

  lemma {:induction false} RunRefines(s: Setup, es: seq<Event>)
    requires s.chunker.Valid() && Run(s, es).Some?
    ensures var st := Run(s, es).value;
      && Refines(s, st.collection, st.ops, Returned(s, es), st.published, Outsides(es))
      && NotYet(st, Outsides(es))
    decreases |es|
  {
    if es != [] {
      var n := |es| - 1;
      RunInv(s, es[..n]);
      RunRefines(s, es[..n]);
      RefinesKept(s, Run(s, es[..n]).value, es[n], Returned(s, es[..n]), Outsides(es[..n]));
    }
  }

  /** Sequential refinement, in every run, whatever the interleaving and whatever raises: the store is that of
      working on the published jobs one after the other, each with the text, the embeddings and the failures
      that the worker met. The recorded effects are those of that work. A job whose row says SUCCEEDED is one
      whose work returned. */
  lemma {:induction false} SequentialRefinement(s: Setup, es: seq<Event>)
    requires s.chunker.Valid() && Run(s, es).Some?
    ensures var st, os := Run(s, es).value, Outsides(es);
      && |os| == |st.ops| <= |st.published| && st.collection == Sequential(s, st.published, os)
      && (forall i :: 0 <= i < |os| ==> st.ops[i] == OpAt(s, st.published, os, i))
      && (forall i :: 0 <= i < |st.published| && StatusOf(st, i, Succeeded) ==> ReturnedAt(s, st.published, os, i))
  {
    RunRefines(s, es);
    forall i | 0 <= i < |Run(s, es).value.published| && StatusOf(Run(s, es).value, i, Succeeded)
      ensures ReturnedAt(s, Run(s, es).value.published, Outsides(es), i)
    {
      SucceededReturned(s, es, i);
    }
  }

  /** The store as it was before job `n` is the replay of the effects before it. */
  lemma {:induction false} SequentialIsReplay(
    s: Setup, jobs: seq<JobEnvelope>, os: seq<Option<Outside>>, ops: seq<StoreOp>)
    requires s.chunker.Valid() && |ops| == |os| <= |jobs| && OpsOk(s, ops)
    requires forall i :: 0 <= i < |ops| ==> ops[i] == OpAt(s, jobs, os, i)
    ensures Contents(Sequential(s, jobs, os)) == Replay(s, ops)
    decreases |os|
  {
    if os != [] {
      var n := |os| - 1;
      forall i | 0 <= i < n ensures ops[i] == OpAt(s, jobs, os[..n], i) {
        assert os[..n][..i] == os[..i];
      }
      SequentialIsReplay(s, jobs, os[..n], ops[..n]);
      if os[n].Some? {
        WorkIsOp(s, jobs[n], os[n].value, Sequential(s, jobs, os[..n]));
      }
    }
  }

  /** The text that the worker extracted for job `n`, if it got that far. */
  function Extracted(es: seq<Event>, n: nat): Option<string> {
    if n < |Outsides(es)| && Outsides(es)[n].Some? && Outsides(es)[n].value.extracted.Ok? then
      Some(Outsides(es)[n].value.extracted.value)
    else None
  }

  /** The vectors that the worker got for job `n`, if it got that far. */
  function Embedded(es: seq<Event>, n: nat): Option<seq<Vector>> {
    if n < |Outsides(es)| && Outsides(es)[n].Some? && Outsides(es)[n].value.embedded.Ok? then
      Some(Outsides(es)[n].value.embedded.value)
    else None
  }

  /** What an index job recorded is what it extracted, with the vectors that it got. */
  lemma {:induction false} RecordedIsExtracted(s: Setup, es: seq<Event>, n: nat)
    requires s.chunker.Valid() && Run(s, es).Some? && n < |Run(s, es).value.ops|
    requires Run(s, es).value.ops[n].Indexed?
    ensures Extracted(es, n) == Some(Run(s, es).value.ops[n].text)
    ensures Run(s, es).value.ops[n].vectors != [] ==> Embedded(es, n) == Some(Run(s, es).value.ops[n].vectors)
  {
    var st, os := Run(s, es).value, Outsides(es);
    RunRefines(s, es);
    assert st.ops[n] == OpAt(s, st.published, os, n);
    if st.published[n].jobType.IndexDocument? {
      IndexedIsExtracted(s, st.published[n], os[n].value, Sequential(s, st.published, os[..n]));
    }
  }
}
