/** Interleaved runs and the consumer's loop: the steps of handlers and worker can be rearranged so that the
    worker serves each message without interruption, with the same outcome. */
module Serial {
  import opened PyText
  import opened Jobs
  import opened Worker
  import opened Services
  import opened Pipeline

  /** A handler's step, or the worker serving a whole message. */
  datatype Move = Handler(event: Event) | Serves(circumstances: Circumstances)

  function AfterMove(s: Setup, st: State, m: Move): (st': State)
    requires s.chunker.Valid() && st.worker.Idle?
    ensures st'.worker.Idle?
  {
    match m
    case Handler(ev) => if !WorkerEvent(ev) && Enabled(st, ev) then Step(s, st, ev) else st
    case Serves(c) => if st.queue == [] then st else ServeFrame(s, st, c); Serve(s, st, c)
  }

  function AfterMoves(s: Setup, moves: seq<Move>): (st: State)
    requires s.chunker.Valid()
    ensures st.worker.Idle?
  {
    if moves == [] then INITIAL else AfterMove(s, AfterMoves(s, moves[..|moves| - 1]), moves[|moves| - 1])
  }

  // ---------- Moves are the consumer's turns ----------

  function InsertionOf(submission: Result<JobEnvelope, string>): seq<Turn> {
    if submission.Ok? then [Insertion(submission.value)] else []
  }

  /** A move as the consumer sees it. */
  function TurnOf(st: State, m: Move): seq<Turn> {
    match m
    case Handler(CreateIndex(q, jobId, freshId)) => InsertionOf(IndexSubmission(q, jobId, freshId))
    case Handler(CreateDelete(q, jobId)) => InsertionOf(DeleteSubmission(q, jobId))
    case Handler(Publish(id)) => if id in st.unpublished then [Arrival(ToPayload(st.unpublished[id]))] else []
    case Serves(c) => [Handling(c)]
    case _ => []
  }

  function TurnsOf(s: Setup, moves: seq<Move>): seq<Turn>
    requires s.chunker.Valid()
  {
    if moves == [] then []
    else
      var n := |moves| - 1;
      TurnsOf(s, moves[..n]) + TurnOf(AfterMoves(s, moves[..n]), moves[n])
  }

  const EMPTY_WORLD: World := World(map[], None)

  lemma {:induction false} ConsumedLast(s: Setup, turns: seq<Turn>, more: seq<Turn>)
    requires s.chunker.Valid() && |more| <= 1
    ensures var (w, waiting) := Consumed(s, EMPTY_WORLD, [], turns);
      Consumed(s, EMPTY_WORLD, [], turns + more)
        == if more == [] then (w, waiting) else AfterTurn(s, w, waiting, more[0])
  {
    if more == [] {
      assert turns + more == turns;
    } else {
      assert (turns + more)[..|turns|] == turns && (turns + more)[|turns|] == more[0];
    }
  }

  lemma {:induction false} MoveIsTurn(s: Setup, st: State, m: Move)
    requires s.chunker.Valid() && st.worker.Idle?
    ensures var st', turn := AfterMove(s, st, m), TurnOf(st, m);
      |turn| <= 1 && (WorldOf(st'), st'.queue) ==
        if turn == [] then (WorldOf(st), st.queue) else AfterTurn(s, WorldOf(st), st.queue, turn[0])
  {
    if m.Serves? && st.queue != [] {
      ServeFrame(s, st, m.circumstances);
      ServeIsHandled(s, st, m.circumstances);
    }
  }

  /** What the moves do to rows, store and queue is what the consumer's loop does in those turns. */
  lemma {:induction false} MovesAreConsumed(s: Setup, moves: seq<Move>)
    requires s.chunker.Valid()
    ensures var st := AfterMoves(s, moves);
      (WorldOf(st), st.queue) == Consumed(s, EMPTY_WORLD, [], TurnsOf(s, moves))
    decreases |moves|
  {
    if moves != [] {
      var n := |moves| - 1;
      MovesAreConsumed(s, moves[..n]);
      var st := AfterMoves(s, moves[..n]);
      MoveIsTurn(s, st, moves[n]);
      ConsumedLast(s, TurnsOf(s, moves[..n]), TurnOf(st, moves[n]));
    }
  }

  // ---------- Worker steps and handler steps commute ----------

  /** One more step of a message that is not finished with it. */
  function Onward(s: Setup, st: Option<State>, ev: Event): (r: Option<State>)
    requires s.chunker.Valid() && (st.Some? ==> Recorded(st.value))
    ensures r.Some? ==> Recorded(r.value)
  {
    if st.None? || !WorkerEvent(ev) || !Enabled(st.value, ev) || Step(s, st.value, ev).worker.Idle? then None
    else Some(Step(s, st.value, ev))
  }

  /** The state in the middle of serving a message. */
  function Midway(s: Setup, base: State, ws: seq<Event>): (r: Option<State>)
    requires s.chunker.Valid() && base.worker.Idle?
    ensures r.Some? ==> Recorded(r.value)
  {
    if ws == [] then Some(base) else Onward(s, Midway(s, base, ws[..|ws| - 1]), ws[|ws| - 1])
  }

  /** The job that the worker has started has a row. */
  predicate Rooted(st: State) {
    match st.worker
    case Working(e) => e.jobId in st.rows
    case Ending(e, _) => e.jobId in st.rows
    case _ => true
  }

  lemma {:induction false} OnwardRooted(s: Setup, st: State, ev: Event)
    requires s.chunker.Valid() && Recorded(st) && Rooted(st) && Onward(s, Some(st), ev).Some?
    ensures Rooted(Onward(s, Some(st), ev).value)
  {
  }

  lemma {:induction false} TakeCommutes(s: Setup, st: State, h: Event)
    requires s.chunker.Valid() && Recorded(st) && !WorkerEvent(h) && Enabled(st, h) && Enabled(st, Take)
    ensures Enabled(Step(s, st, h), Take) && Enabled(Step(s, st, Take), h)
    ensures Step(s, Step(s, st, h), Take) == Step(s, Step(s, st, Take), h)
  {
    if h.Publish? {
      var m := [ToPayload(st.unpublished[h.id])];
      assert (st.queue + m)[1..] == st.queue[1..] + m;
    }
  }

  lemma {:induction false} MarkCommutes(
    rows: Rows, job: JobEnvelope, jobId: string, status: JobStatus, update: MessageUpdate)
    requires jobId in rows && job.jobId !in rows
    ensures Marked(rows[job.jobId := NewRow(job)], jobId, status, update)
         == Marked(rows, jobId, status, update)[job.jobId := NewRow(job)]
  {
  }

  lemma {:induction false} WorkAndPublish(s: Setup, st: State, w: Event, h: Event)
    requires s.chunker.Valid() && Recorded(st) && Rooted(st) && !WorkerEvent(h) && Enabled(st, h)
    requires Onward(s, Some(st), w).Some? && !w.Take? && h.Publish?
    ensures Onward(s, Some(Step(s, st, h)), w) == Some(Step(s, Step(s, st, w), h)) && Enabled(Step(s, st, w), h)
  {
  }

  lemma {:induction false} WorkAndCreate(s: Setup, st: State, w: Event, h: Event)
    requires s.chunker.Valid() && Recorded(st) && Rooted(st) && !WorkerEvent(h) && Enabled(st, h)
    requires Onward(s, Some(st), w).Some? && !w.Take? && !h.Publish?
    ensures Onward(s, Some(Step(s, st, h)), w) == Some(Step(s, Step(s, st, w), h)) && Enabled(Step(s, st, w), h)
  {
    var submission := if h.CreateIndex? then IndexSubmission(h.index, h.jobId, h.freshId)
                      else DeleteSubmission(h.delete, h.jobId);
    if submission.Ok? && submission.value.jobId !in st.rows {
      if w.MarkRunning? {
        MarkCommutes(st.rows, submission.value, FromPayload(st.worker.payload).value.jobId, Running, Keep);
      } else if w.MarkSucceeded? {
        MarkCommutes(st.rows, submission.value, st.worker.done.jobId, Succeeded, SetTo(None));
      }
    }
  }

  /** A handler's step can as well come before a step of the worker. */
  lemma {:induction false} WorkCommutes(s: Setup, st: State, w: Event, h: Event)
    requires s.chunker.Valid() && Recorded(st) && Rooted(st) && !WorkerEvent(h) && Enabled(st, h)
    requires Onward(s, Some(st), w).Some?
    ensures Onward(s, Some(Step(s, st, h)), w) == Some(Step(s, Step(s, st, w), h)) && Enabled(Step(s, st, w), h)
  {
    if w.Take? {
      TakeCommutes(s, st, h);
    } else if h.Publish? {
      WorkAndPublish(s, st, w, h);
    } else {
      WorkAndCreate(s, st, w, h);
    }
  }

  lemma {:induction false} MidwayRooted(s: Setup, base: State, ws: seq<Event>)
    requires s.chunker.Valid() && base.worker.Idle? && Midway(s, base, ws).Some?
    ensures Rooted(Midway(s, base, ws).value)
    decreases |ws|
  {
    if ws != [] {
      MidwayRooted(s, base, ws[..|ws| - 1]);
      OnwardRooted(s, Midway(s, base, ws[..|ws| - 1]).value, ws[|ws| - 1]);
    }
  }

  lemma {:induction false} HandlerComesFirst(s: Setup, base: State, ws: seq<Event>, h: Event)
    requires s.chunker.Valid() && base.worker.Idle? && Midway(s, base, ws).Some?
    requires !WorkerEvent(h) && Enabled(Midway(s, base, ws).value, h)
    ensures Enabled(base, h) && Step(s, base, h).worker.Idle?
    ensures Midway(s, Step(s, base, h), ws) == Some(Step(s, Midway(s, base, ws).value, h))
    decreases |ws|
  {
    if ws != [] {
      var n := |ws| - 1;
      var st := Midway(s, base, ws[..n]).value;
      HandlerStays(s, st, ws[n], h);
      HandlerComesFirst(s, base, ws[..n], h);
      MidwayRooted(s, base, ws[..n]);
      WorkCommutes(s, st, ws[n], h);
    }
  }

  /** The worker does not touch what handlers still have to publish. */
  lemma {:induction false} HandlerStays(s: Setup, st: State, w: Event, h: Event)
    requires s.chunker.Valid() && Recorded(st) && WorkerEvent(w) && Enabled(st, w)
    requires !WorkerEvent(h) && Enabled(Step(s, st, w), h)
    ensures Enabled(st, h)
  {
  }

  // ---------- Every run is a sequence of moves ----------

  /** The state after `k` steps of serving a message in these circumstances. */
  predicate Halfway(s: Setup, base: State, c: Circumstances, k: nat, st: State)
    requires s.chunker.Valid() && base.worker.Idle?
  {
    base.queue != [] &&
    var received := Step(s, base, Take);
    var begun := Step(s, received, MarkRunning(c.faults.running));
    if k == 1 then st == received
    else
      begun.worker.Working? &&
      if k == 2 then st == begun
      else
        var ended := Step(s, begun, DoWork(c.outside));
        if k == 3 then st == ended
        else
          && k == 4 && ended.worker.result.Ok? && c.faults.succeeded.Some?
          && st == Step(s, ended, MarkSucceeded(c.faults.succeeded))
  }

  /** The circumstances in which event `ev` is the next step. */
  function Meeting(c: Circumstances, ev: Event): Circumstances {
    match ev
    case MarkRunning(fault) => c.(faults := c.faults.(running := fault))
    case DoWork(o) => c.(outside := o)
    case MarkSucceeded(fault) => c.(faults := c.faults.(succeeded := fault))
    case MarkFailed(fault) => c.(faults := c.faults.(failed := fault))
    case _ => c
  }

  lemma {:induction false} HalfwayNext(s: Setup, base: State, c: Circumstances, k: nat, st: State, ev: Event)
    requires s.chunker.Valid() && base.worker.Idle? && Halfway(s, base, c, k, st) && Recorded(st)
    requires Onward(s, Some(st), ev).Some?
    ensures Halfway(s, base, Meeting(c, ev), k + 1, Step(s, st, ev))
  {
  }

  lemma {:induction false} ServingEnds(s: Setup, base: State, c: Circumstances, k: nat, st: State, ev: Event)
    requires s.chunker.Valid() && base.worker.Idle? && Halfway(s, base, c, k, st) && Recorded(st)
    requires WorkerEvent(ev) && Enabled(st, ev) && Step(s, st, ev).worker.Idle?
    ensures Serve(s, base, Meeting(c, ev)) == Step(s, st, ev)
  {
  }

  lemma {:induction false} MidwayIsHalfway(s: Setup, base: State, ws: seq<Event>) returns (c: Circumstances)
    requires s.chunker.Valid() && base.worker.Idle? && Midway(s, base, ws).Some? && ws != []
    ensures Halfway(s, base, c, |ws|, Midway(s, base, ws).value)
    decreases |ws|
  {
    var n := |ws| - 1;
    if n == 0 {
      c := Circumstances(Outside(Err(""), Err(""), None, None), RepoFaults(None, None, None));
    } else {
      var before := MidwayIsHalfway(s, base, ws[..n]);
      HalfwayNext(s, base, before, n, Midway(s, base, ws[..n]).value, ws[n]);
      c := Meeting(before, ws[n]);
    }
  }

  /** The handlers' steps, in order. */
  function HandlerEvents(es: seq<Event>): seq<Event> {
    if es == [] then []
    else
      var n := |es| - 1;
      HandlerEvents(es[..n]) + if WorkerEvent(es[n]) then [] else [es[n]]
  }

  function HandlerMoves(moves: seq<Move>): seq<Event> {
    if moves == [] then []
    else
      var n := |moves| - 1;
      HandlerMoves(moves[..n]) + if moves[n].Handler? then [moves[n].event] else []
  }

  lemma {:induction false} AfterOneMore(s: Setup, moves: seq<Move>, m: Move)
    requires s.chunker.Valid()
    ensures AfterMoves(s, moves + [m]) == AfterMove(s, AfterMoves(s, moves), m)
    ensures HandlerMoves(moves + [m]) == HandlerMoves(moves) + if m.Handler? then [m.event] else []
  {
    assert (moves + [m])[..|moves|] == moves;
  }

  lemma {:induction false} MidwayOneMore(s: Setup, base: State, ws: seq<Event>, w: Event)
    requires s.chunker.Valid() && base.worker.Idle?
    ensures Midway(s, base, ws + [w]) == Onward(s, Midway(s, base, ws), w)
  {
    assert (ws + [w])[..|ws|] == ws;
  }

  /** The moves, and the steps `ws` of the message under way, lead to the state. */
  predicate Arranged(s: Setup, st: State, moves: seq<Move>, ws: seq<Event>)
    requires s.chunker.Valid()
  {
    Midway(s, AfterMoves(s, moves), ws) == Some(st)
  }

  lemma {:induction false} ArrangeHandler(s: Setup, st: State, moves: seq<Move>, ws: seq<Event>, h: Event)
    requires s.chunker.Valid() && Recorded(st) && Arranged(s, st, moves, ws) && !WorkerEvent(h) && Enabled(st, h)
    ensures Arranged(s, Step(s, st, h), moves + [Handler(h)], ws)
  {
    HandlerComesFirst(s, AfterMoves(s, moves), ws, h);
    AfterOneMore(s, moves, Handler(h));
  }

  lemma {:induction false} ArrangeWorker(s: Setup, st: State, moves: seq<Move>, ws: seq<Event>, w: Event)
    returns (moves': seq<Move>, ws': seq<Event>)
    requires s.chunker.Valid() && Recorded(st) && Arranged(s, st, moves, ws) && WorkerEvent(w) && Enabled(st, w)
    ensures Arranged(s, Step(s, st, w), moves', ws') && HandlerMoves(moves') == HandlerMoves(moves)
  {
    var base := AfterMoves(s, moves);
    if Step(s, st, w).worker.Idle? {
      var c := MidwayIsHalfway(s, base, ws);
      ServingEnds(s, base, c, |ws|, st, w);
      moves', ws' := moves + [Serves(Meeting(c, w))], [];
      AfterOneMore(s, moves, Serves(Meeting(c, w)));
    } else {
      moves', ws' := moves, ws + [w];
      MidwayOneMore(s, base, ws, w);
    }
  }

  /** Serializability: whatever the interleaving and whatever raises, the handlers' steps in their order, with
      whole messages served in between, lead to the same state, but for the steps of the message under way. */
  lemma {:induction false} Serializable(s: Setup, es: seq<Event>) returns (moves: seq<Move>, ws: seq<Event>)
    requires s.chunker.Valid() && Run(s, es).Some?
    ensures Arranged(s, Run(s, es).value, moves, ws) && HandlerMoves(moves) == HandlerEvents(es)
    decreases |es|
  {
    if es == [] {
      moves, ws := [], [];
    } else {
      var n := |es| - 1;
      var before, serving := Serializable(s, es[..n]);
      var st := Run(s, es[..n]).value;
      if WorkerEvent(es[n]) {
        moves, ws := ArrangeWorker(s, st, before, serving, es[n]);
      } else {
        ArrangeHandler(s, st, before, serving, es[n]);
        moves, ws := before + [Handler(es[n])], serving;
        AfterOneMore(s, before, Handler(es[n]));
      }
    }
  }

  /** Every interleaved run after which the worker is idle ends, in rows, store and queue, as the consumer's
      loop does in some sequence of turns with the same handlers' steps in the same order. */
  lemma {:induction false} RunIsConsumed(s: Setup, es: seq<Event>) returns (moves: seq<Move>)
    requires s.chunker.Valid() && Run(s, es).Some? && Run(s, es).value.worker.Idle?
    ensures HandlerMoves(moves) == HandlerEvents(es) && AfterMoves(s, moves) == Run(s, es).value
    ensures var st := Run(s, es).value;
      (WorldOf(st), st.queue) == Consumed(s, EMPTY_WORLD, [], TurnsOf(s, moves))
  {
    var ws;
    moves, ws := Serializable(s, es);
    MovesAreConsumed(s, moves);
    assert ws == [];
  }
}
