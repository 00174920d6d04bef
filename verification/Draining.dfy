/** Every run without new requests comes to an end, and what holds there. */
module Draining {
  import opened PyText
  import opened Worker
  import opened Pipeline
  import opened PipelineLaws
  import opened Lifecycle

  // ---------- Draining ----------

  predicate NewRequest(ev: Event) { ev.CreateIndex? || ev.CreateDelete? }

  /** The steps the worker still has to take for what was published, at most. */
  function Measure(st: State): nat {
    5 * |st.queue| + match st.worker
                     case Idle => 0
                     case Received(_) => 4
                     case Working(_) => 3
                     case Ending(_, r) => if r.Ok? then 2 else 1
  }

  /** The steps that handlers and worker still have to take, at most. */
  function Left(st: State): nat { 6 * |st.unpublished| + Measure(st) }

  lemma {:induction false} OneFewer<T>(m: map<string, T>, id: string)
    requires id in m
    ensures |m - {id}| == |m| - 1
  {
    assert (m - {id}).Keys == m.Keys - {id};
    assert |m.Keys| == |m| && |(m - {id}).Keys| == |m - {id}|;
  }

  /** Each step that is not a new request brings the end nearer, also when a call raises. */
  lemma {:induction false} StepsDescend(s: Setup, st: State, ev: Event)
    requires s.chunker.Valid() && Recorded(st) && Enabled(st, ev) && !NewRequest(ev)
    ensures Left(Step(s, st, ev)) < Left(st)
  {
    if ev.Publish? {
      OneFewer(st.unpublished, ev.id);
    }
  }

  /** Without new requests every run ends: whatever steps handlers and worker take, in whatever order and
      whatever raises, at most `Left` of them follow. */
  lemma {:induction false} DrainBound(s: Setup, es: seq<Event>, more: seq<Event>)
    requires s.chunker.Valid() && Run(s, es + more).Some? && forall ev :: ev in more ==> !NewRequest(ev)
    ensures Run(s, es).Some? && |more| + Left(Run(s, es + more).value) <= Left(Run(s, es).value)
    decreases |more|
  {
    if more == [] {
      assert es + more == es;
    } else {
      var n := |more| - 1;
      var before := es + more[..n];
      assert es + more == before + [more[n]];
      RunSnoc(s, before, more[n]);
      DrainBound(s, es, more[..n]);
      assert more[n] in more;
      StepsDescend(s, Run(s, before).value, more[n]);
    }
  }

  /** Only new requests can happen. */
  ghost predicate Quiet(st: State) {
    forall ev :: Enabled(st, ev) ==> NewRequest(ev)
  }

  /** A step that is not a new request and does not raise, with the outside world as it may be. */
  function NextStep(st: State, o: Outside): Option<Event> {
    match st.worker
    case Received(_) => Some(MarkRunning(None))
    case Working(_) => Some(DoWork(o))
    case Ending(_, r) => Some(if r.Ok? then MarkSucceeded(None) else MarkFailed(None))
    case Idle => if st.queue == [] then None else Some(Take)
  }

  /** The pipeline is quiet exactly when nothing is left to do. */
  lemma {:induction false} QuietIsNothingLeft(st: State)
    ensures Quiet(st) <==> Left(st) == 0
  {
    if Quiet(st) {
      forall id ensures id !in st.unpublished {
        assert Enabled(st, Publish(id)) <==> id in st.unpublished;
      }
      assert st.unpublished == map[];
      var o := Outside(Err(""), Err(""), None, None);
      if NextStep(st, o).Some? {
        assert Enabled(st, NextStep(st, o).value);
      }
    } else {
      var ev :| Enabled(st, ev) && !NewRequest(ev);
      assert ev.Publish? ==> ev.id in st.unpublished.Keys;
    }
  }

  /** When the queue is empty, the worker idle, and no repository call raised, every published job has ended,
      and every job whose handler has not published it, or stopped before, waits. */
  lemma {:induction false} IdleIsDrained(s: Setup, es: seq<Event>, id: string)
    requires s.chunker.Valid() && Run(s, es).Some? && Calm(es) && id in Run(s, es).value.rows
    requires Run(s, es).value.queue == [] && Run(s, es).value.worker.Idle?
    ensures var st := Run(s, es).value;
      if id in st.unpublished then Waiting(st.rows[id]) else Ended(st.rows[id])
  {
    var st := Run(s, es).value;
    PlaceStatus(s, es, true);
    if id !in st.unpublished {
      var i :| 0 <= i < |st.published| && st.published[i].jobId == id;
      assert StatusFits(st, i, true);
    }
  }

  /** When nothing but a new request can happen and no repository call raised, every row has ended. */
  lemma {:induction false} QuietIsDrained(s: Setup, es: seq<Event>, id: string)
    requires s.chunker.Valid() && Run(s, es).Some? && Calm(es) && Quiet(Run(s, es).value)
    requires id in Run(s, es).value.rows
    ensures Ended(Run(s, es).value.rows[id])
  {
    QuietIsNothingLeft(Run(s, es).value);
    IdleIsDrained(s, es, id);
  }

  lemma {:induction false} SomeStep(st: State, o: Outside) returns (ev: Event)
    requires Left(st) > 0
    ensures Enabled(st, ev) && CalmEvent(ev) && (ev.Publish? || WorkerEvent(ev))
  {
    if st.unpublished != map[] {
      var id :| id in st.unpublished;
      ev := Publish(id);
    } else {
      ev := NextStep(st, o).value;
    }
  }

  /** Steps of handlers and worker, none of them raising, after which only new requests can happen. */
  ghost predicate Settles(s: Setup, es: seq<Event>, more: seq<Event>)
    requires s.chunker.Valid()
  {
    && Run(s, es + more).Some? && Quiet(Run(s, es + more).value)
    && forall ev :: ev in more ==> CalmEvent(ev) && (ev.Publish? || WorkerEvent(ev))
  }

  lemma {:induction false} SettlesFrom(s: Setup, es: seq<Event>, ev: Event, rest: seq<Event>)
    requires s.chunker.Valid() && Settles(s, es + [ev], rest) && CalmEvent(ev) && (ev.Publish? || WorkerEvent(ev))
    ensures Settles(s, es, [ev] + rest)
  {
    assert es + ([ev] + rest) == (es + [ev]) + rest;
  }

  /** The pipeline can always get there: from any run, calm steps alone lead to the quiet end, however the
      outside world behaves in each state. */
  lemma {:induction false} Drains(s: Setup, es: seq<Event>, outside: State -> Outside) returns (more: seq<Event>)
    requires s.chunker.Valid() && Run(s, es).Some?
    ensures Settles(s, es, more)
    decreases Left(Run(s, es).value)
  {
    var st := Run(s, es).value;
    if Left(st) == 0 {
      QuietIsNothingLeft(st);
      more := [];
      assert es + more == es;
    } else {
      var ev := SomeStep(st, outside(st));
      RunSnoc(s, es, ev);
      StepsDescend(s, st, ev);
      var rest := Drains(s, es + [ev], outside);
      more := [ev] + rest;
      SettlesFrom(s, es, ev, rest);
    }
  }
}
