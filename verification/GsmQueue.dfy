/**
 The simulation of one cell over the calendar queue as a value: which event comes out is settled, and so
 is the turn in which the queue has no width to resize to. `GsmLoop` does the same in place.
 */
module GsmQueue {
  import opened Wrappers
  import opened Calendar
  import opened CalendarContents
  import opened CalendarRuns
  import opened Gsm
  import Channels

  /** As many buckets as a calendar of at most 1001 events can come to need. */
  const MOST_BUCKETS := 512

  /** The random draws the handler of one event makes, in the order it makes them. */
  type Draws = d: (real, real) | d.0 >= 0.0 && d.1 >= 0.0 witness (0.0, 0.0)

  /** How the loop ends, or that the draws end before it does. */
  datatype Ending = Finished | StillRunning | NoWidth | NoEvents | WrongCell | Aborted

  /** How far the loop came: how it stands, and the cell and the queue before the turn it stopped in, or
      after the last turn when it did not stop early. */
  datatype Progress = Progress(ending: Ending, cell: Option<Cell>, queue: Queue<Msg>)

  ghost function WorldAt(id: int, cell: Option<Cell>, v: Queue<Msg>): World {
    World(id, cell, Bag(v))
  }

  /** A cell and its queue between two turns. */
  ghost predicate Ready(id: int, cell: Option<Cell>, v: Queue<Msg>) {
    && Resting(v) && |v.buckets| <= MOST_BUCKETS
    && Inv(WorldAt(id, cell, v)) && Running(WorldAt(id, cell, v))
  }

  /** One turn: get an event, check that it is meant for this cell, react to it, and put what that posts. */
  ghost function Advance(id: int, cell: Option<Cell>, v: Queue<Msg>, d: Draws): Progress
    requires Ready(id, cell, v)
  {
    match Calendar.Get(v)
    case Degenerate => Progress(NoWidth, cell, v)
    case Fine((None, _)) => Progress(NoEvents, cell, v)
    case Fine((Some(e), v1)) =>
      if e.payload.receiver != id then Progress(WrongCell, cell, v)
      else
        Taken(id, cell, v);
        var r := React(id, cell, e.payload, d.0, d.1);
        if r.verdict == Aborts then Progress(Aborted, cell, v)
        else
          match CalendarRuns.Run(v1, PutCalls(r.posts))
          case Degenerate => Progress(NoWidth, cell, v)
          case Fine((_, v2)) => Progress(if r.verdict == Done then Finished else StillRunning, r.cell, v2)
  }

  /** The loop over as many turns as there are draws. */
  ghost function Simulate(id: int, cell: Option<Cell>, v: Queue<Msg>, draws: seq<Draws>): Progress
    requires Ready(id, cell, v)
    decreases |draws|
  {
    if draws == [] then Progress(StillRunning, cell, v)
    else
      var p := Advance(id, cell, v, draws[0]);
      if p.ending != StillRunning then p
      else
        AdvanceKeeps(id, cell, v, draws[0]);
        Simulate(id, p.cell, p.queue, draws[1..])
  }

  /** The events the loop handles, in its order. */
  ghost function Handled(id: int, cell: Option<Cell>, v: Queue<Msg>, draws: seq<Draws>): seq<Event<Msg>>
    requires Ready(id, cell, v)
    decreases |draws|
  {
    if draws == [] then []
    else
      AdvanceKeeps(id, cell, v, draws[0]);
      var p := Advance(id, cell, v, draws[0]);
      if p.ending == NoWidth then []
      else
        [Calendar.Get(v).value.0.value] +
        if p.ending == StillRunning then Handled(id, p.cell, p.queue, draws[1..]) else []
  }

  // ---------- one turn ----------

  lemma MostBuckets()
    ensures PowerOfTwo(MOST_BUCKETS)
  {
    assert PowerOfTwo(2) && PowerOfTwo(4) && PowerOfTwo(8) && PowerOfTwo(16) && PowerOfTwo(32);
    assert PowerOfTwo(64) && PowerOfTwo(128) && PowerOfTwo(256);
  }

  /** The event a get takes out, if it goes through: one of those pending. */
  lemma Taken(id: int, cell: Option<Cell>, v: Queue<Msg>)
    requires Ready(id, cell, v) && Calendar.Get(v).Fine?
    ensures var (e, v1) := Calendar.Get(v).value;
            && e.Some? && e.value in Bag(v) && Bag(v1) == Bag(v) - multiset{e.value}
            && e.value.payload.receiver == id && e.value.payload.timestamp >= 0.0
            && Resting(v1) && v1.qsize <= Channels.CHANNELS_PER_CELL && |v1.buckets| <= MOST_BUCKETS
  {
    hide Filed, OnGrid, Drain, Bag, Calendar.Get, PowerOfTwo, Inv, Running;
    NeverEmpty(WorldAt(id, cell, v));
    assert Step(v, GetCall).Fine?;
    GetKeeps(v);
    GetResting(v);
    BagCounted(v);
    MostBuckets();
    BucketsBounded(v, GetCall, MOST_BUCKETS);
    Known(WorldAt(id, cell, v), Calendar.Get(v).value.0.value);
  }

  lemma BagCounted(v: Queue<Msg>)
    requires Resting(v)
    ensures |Bag(v)| == v.qsize
  {
    hide Filed, OnGrid, Drain;
  }

  lemma TurnFor(w: World, e: Event<Msg>, d: Draws)
    requires Inv(w) && Running(w) && e in w.queue
    ensures e.payload.receiver == w.id && e.payload.timestamp >= 0.0
    ensures var r := React(w.id, w.cell, e.payload, d.0, d.1);
            var w' := World(w.id, r.cell, w.queue - multiset{e} + multiset(r.posts));
            && r.verdict != Aborts && NonNegative(r.posts) && |r.posts| <= 2
            && Handle(w, e, d.0, d.1) == (w', r.verdict)
            && Inv(w') && (r.verdict == GoesOn <==> Running(w'))
  {
    hide Inv, Running;
    Known(w, e);
    TurnKeeps(w, e, d.0, d.1);
  }

  /** A turn goes on, ends the loop with the last call, or stops at a queue without a width; if it does
      not stop, it is a turn of the cell with the event that came out. */
  lemma AdvanceKeeps(id: int, cell: Option<Cell>, v: Queue<Msg>, d: Draws)
    requires Ready(id, cell, v)
    ensures var p := Advance(id, cell, v, d);
            && (p.ending == Finished || p.ending == StillRunning || p.ending == NoWidth)
            && (p.ending == StillRunning ==> Ready(id, p.cell, p.queue))
            && (p.ending == Finished ==>
                  && Resting(p.queue) && |p.queue.buckets| <= MOST_BUCKETS
                  && Inv(WorldAt(id, p.cell, p.queue)) && !Running(WorldAt(id, p.cell, p.queue)))
            && (p.ending == NoWidth ==> p.cell == cell && p.queue == v)
            && (p.ending != NoWidth ==>
                  && Calendar.Get(v).Fine? && Calendar.Get(v).value.0.Some?
                  && var e := Calendar.Get(v).value.0.value;
                  && e in Bag(v)
                  && Handle(WorldAt(id, cell, v), e, d.0, d.1) ==
                     (WorldAt(id, p.cell, p.queue), if p.ending == Finished then Done else GoesOn))
  {
    hide Resting, Bag, Calendar.Get, PowerOfTwo, Inv, Running, React, Handle, CalendarRuns.Run, PutCalls;
    RestingUsable(v);
    if Calendar.Get(v).Fine? {
      Taken(id, cell, v);
      var e, v1 := Calendar.Get(v).value.0.value, Calendar.Get(v).value.1;
      TurnFor(WorldAt(id, cell, v), e, d);
      MostBuckets();
      var posts := React(id, cell, e.payload, d.0, d.1).posts;
      if CalendarRuns.Run(v1, PutCalls(posts)).Fine? {
        PutsKeep(v1, posts, MOST_BUCKETS);
      }
    }
  }

  // ---------- whole runs ----------

  /** The queue before the first turn: the INIT event and nothing else. */
  ghost function Opened(id: int): Outcome<Queue<Msg>> {
    Put(Init<Msg>(), FirstEvent(id))
  }

  lemma OpenedReady(id: int)
    ensures Resting(Init<Msg>()) && Opened(id).Fine? && Ready(id, None, Opened(id).value)
    ensures Bag(Opened(id).value) == Start(id).queue
  {
    hide Filed, OnGrid, Drain, PowerOfTwo;
    InitResting<Msg>();
    PutKeeps(Init<Msg>(), FirstEvent(id));
    PutResting(Init<Msg>(), FirstEvent(id));
  }

  /** `main_loop` for one cell. */
  ghost function Play(id: int, draws: seq<Draws>): Progress {
    OpenedReady(id);
    Simulate(id, None, Opened(id).value, draws)
  }

  ghost function PlayHandled(id: int, draws: seq<Draws>): seq<Event<Msg>> {
    OpenedReady(id);
    Handled(id, None, Opened(id).value, draws)
  }

  lemma PlayBegins(id: int, v: Queue<Msg>, draws: seq<Draws>)
    requires Opened(id) == Fine(v)
    ensures Ready(id, None, v) && Play(id, draws) == Simulate(id, None, v, draws[0..])
  {
    hide Ready, Simulate, Put, Init, Resting;
    OpenedReady(id);
    assert draws[0..] == draws;
  }

  lemma SimulateStep(id: int, cell: Option<Cell>, v: Queue<Msg>, draws: seq<Draws>, turn: nat)
    requires Ready(id, cell, v) && turn < |draws|
    ensures var p := Advance(id, cell, v, draws[turn]);
            && (p.ending == StillRunning ==>
                  && Ready(id, p.cell, p.queue)
                  && Simulate(id, cell, v, draws[turn..]) == Simulate(id, p.cell, p.queue, draws[turn + 1..]))
            && (p.ending != StillRunning ==> Simulate(id, cell, v, draws[turn..]) == p)
  {
    hide Ready, Advance;
    AdvanceKeeps(id, cell, v, draws[turn]);
    assert draws[turn..][0] == draws[turn] && draws[turn..][1..] == draws[turn + 1..];
  }

  lemma SimulateEnds(id: int, cell: Option<Cell>, v: Queue<Msg>, draws: seq<Draws>)
    requires Ready(id, cell, v)
    ensures Simulate(id, cell, v, draws[|draws|..]) == Progress(StillRunning, cell, v)
  {
    hide Ready;
    assert draws[|draws|..] == [];
  }

  lemma {:induction false} SimulateKeeps(id: int, cell: Option<Cell>, v: Queue<Msg>, draws: seq<Draws>)
    requires Ready(id, cell, v)
    ensures var p := Simulate(id, cell, v, draws);
            && (p.ending == Finished || p.ending == StillRunning || p.ending == NoWidth)
            && Resting(p.queue) && |p.queue.buckets| <= MOST_BUCKETS && Inv(WorldAt(id, p.cell, p.queue))
            && (p.ending == Finished <==> !Running(WorldAt(id, p.cell, p.queue)))
    decreases |draws|
  {
    hide Resting, Bag, Inv, Running, Advance;
    if draws != [] {
      AdvanceKeeps(id, cell, v, draws[0]);
      var p := Advance(id, cell, v, draws[0]);
      if p.ending == StillRunning {
        SimulateKeeps(id, p.cell, p.queue, draws[1..]);
      }
    }
  }

  /** The turns handle these events and make these draws, in their order. */
  ghost predicate Plays(turns: seq<Turn>, events: seq<Event<Msg>>, draws: seq<Draws>) {
    && |turns| == |events| <= |draws|
    && forall i :: 0 <= i < |turns| ==> turns[i] == Turn(events[i], draws[i].0, draws[i].1)
  }

  /** The turns the loop takes are a run of the cell over a queue that may hand out any event. */
  lemma {:induction false} SimulateIsRun(id: int, cell: Option<Cell>, v: Queue<Msg>, draws: seq<Draws>)
    returns (turns: seq<Turn>)
    requires Ready(id, cell, v)
    ensures Plays(turns, Handled(id, cell, v, draws), draws)
    ensures var p := Simulate(id, cell, v, draws);
            && Gsm.Run(WorldAt(id, cell, v), turns) ==
               (WorldAt(id, p.cell, p.queue), if p.ending == Finished then Done else GoesOn)
            && (p.ending == StillRunning ==> |turns| == |draws|)
    ensures Took(WorldAt(id, cell, v), turns) == turns
    decreases |draws|
  {
    hide Resting, Bag, Inv, Running, Advance, Calendar.Get, Handle;
    turns := [];
    if draws != [] {
      AdvanceKeeps(id, cell, v, draws[0]);
      var p := Advance(id, cell, v, draws[0]);
      if p.ending != NoWidth {
        RestingUsable(v) by {
          assert Ready(id, cell, v);
        }
        var turn := Turn(Calendar.Get(v).value.0.value, draws[0].0, draws[0].1);
        var rest: seq<Turn> := [];
        if p.ending == StillRunning {
          rest := SimulateIsRun(id, p.cell, p.queue, draws[1..]);
        }
        turns := [turn] + rest;
        FirstTurn(WorldAt(id, cell, v), turn, rest);
        assert rest == [] ==> turns == [turn];
        hide Gsm.Run, Took;
      }
    }
  }

  lemma PlayIsRun(id: int, draws: seq<Draws>) returns (turns: seq<Turn>)
    ensures Plays(turns, PlayHandled(id, draws), draws)
    ensures var p := Play(id, draws);
            && Gsm.Run(Start(id), turns) ==
               (WorldAt(id, p.cell, p.queue), if p.ending == Finished then Done else GoesOn)
            && (p.ending == StillRunning ==> |turns| == |draws|)
    ensures Took(Start(id), turns) == turns
  {
    hide Ready, Simulate, Opened, Gsm.Run, Took, Plays, Bag, Resting, Init, Handled;
    OpenedReady(id);
    turns := SimulateIsRun(id, None, Opened(id).value, draws);
  }

  /** Whatever the draws: the loop ends, is still running or stops for want of a width; it never finds the
      queue empty, gets an event of another cell or aborts. */
  lemma PlayKeeps(id: int, draws: seq<Draws>)
    ensures var p := Play(id, draws);
            && (p.ending == Finished || p.ending == StillRunning || p.ending == NoWidth)
            && Resting(p.queue) && Inv(WorldAt(id, p.cell, p.queue))
            && |p.queue.buckets| <= MOST_BUCKETS && 1 <= p.queue.qsize <= Channels.CHANNELS_PER_CELL + 1
            && (p.ending == Finished <==> p.cell.Some? && p.cell.value.completeCalls == COMPLETE_CALLS)
  {
    hide Ready, Simulate, Put, Resting, Bag;
    OpenedReady(id);
    SimulateKeeps(id, None, Opened(id).value, draws);
    var p := Play(id, draws);
    NeverEmpty(WorldAt(id, p.cell, p.queue));
    BagCounted(p.queue);
  }

  // ---------- the calls the loop makes ----------

  /** The calls of one turn: a get and, if that goes through, the puts of what it posts. */
  ghost function TurnCalls(id: int, cell: Option<Cell>, v: Queue<Msg>, d: Draws): seq<Call<Msg>>
    requires Ready(id, cell, v)
  {
    match Calendar.Get(v)
    case Degenerate => [GetCall]
    case Fine((e, _)) =>
      Taken(id, cell, v);
      [GetCall] + PutCalls(React(id, cell, e.value.payload, d.0, d.1).posts)
  }

  ghost function Calls(id: int, cell: Option<Cell>, v: Queue<Msg>, draws: seq<Draws>): seq<Call<Msg>>
    requires Ready(id, cell, v)
    decreases |draws|
  {
    if draws == [] then []
    else
      var p := Advance(id, cell, v, draws[0]);
      AdvanceKeeps(id, cell, v, draws[0]);
      TurnCalls(id, cell, v, draws[0]) +
      if p.ending == StillRunning then Calls(id, p.cell, p.queue, draws[1..]) else []
  }

  /** A turn stops exactly when one of its calls has no width to resize to. */
  lemma AdvanceStops(id: int, cell: Option<Cell>, v: Queue<Msg>, d: Draws)
    requires Ready(id, cell, v)
    ensures var calls, p := TurnCalls(id, cell, v, d), Advance(id, cell, v, d);
            && Legal(calls)
            && (p.ending == NoWidth <==> !AllWide(v, calls))
            && (p.ending != NoWidth ==>
                  CalendarRuns.Run(v, calls).Fine? && CalendarRuns.Run(v, calls).value.1 == p.queue)
  {
    hide Bag, Calendar.Get, Put, PowerOfTwo, Inv, Running, React, Handle, Wide, Filed, OnGrid, Drain, PutCalls;
    StepFineIff(v, GetCall);
    AdvanceKeeps(id, cell, v, d);
    if Calendar.Get(v).Fine? {
      Taken(id, cell, v);
      var (e, v1) := Calendar.Get(v).value;
      TurnFor(WorldAt(id, cell, v), e.value, d);
      var puts := PutCalls(React(id, cell, e.value.payload, d.0, d.1).posts);
      RunFineIff(v1, puts);
      var calls := [GetCall] + puts;
      assert calls[0] == GetCall && calls[1..] == puts;
    }
  }

  lemma {:induction false} SimulateStops(id: int, cell: Option<Cell>, v: Queue<Msg>, draws: seq<Draws>)
    requires Ready(id, cell, v)
    ensures var calls, p := Calls(id, cell, v, draws), Simulate(id, cell, v, draws);
            && Legal(calls)
            && (p.ending == NoWidth <==> !AllWide(v, calls))
            && (p.ending != NoWidth ==>
                  CalendarRuns.Run(v, calls).Fine? && CalendarRuns.Run(v, calls).value.1 == p.queue)
    decreases |draws|
  {
    hide Bag, PowerOfTwo, Inv, Running, Wide, Filed, OnGrid, Drain, Advance, TurnCalls, Step;
    if draws != [] {
      AdvanceKeeps(id, cell, v, draws[0]);
      AdvanceStops(id, cell, v, draws[0]);
      var p := Advance(id, cell, v, draws[0]);
      var first := TurnCalls(id, cell, v, draws[0]);
      if p.ending == StillRunning {
        SimulateStops(id, p.cell, p.queue, draws[1..]);
        RunSplit(v, first, Calls(id, p.cell, p.queue, draws[1..]));
      } else {
        assert first + [] == first;
      }
    }
  }

  /** Every call the loop makes, from `calqueue_init` on. */
  ghost function PlayCalls(id: int, draws: seq<Draws>): seq<Call<Msg>> {
    OpenedReady(id);
    [PutCall(FirstEvent(id))] + Calls(id, None, Opened(id).value, draws)
  }

  /** The loop stops early exactly when some resize among its own calls has no width; otherwise its queue
      is the one those calls lead to. */
  lemma PlayStops(id: int, draws: seq<Draws>)
    ensures Resting(Init<Msg>()) && Legal(PlayCalls(id, draws))
    ensures var calls, p := PlayCalls(id, draws), Play(id, draws);
            && (p.ending == NoWidth <==> !AllWide(Init(), calls))
            && (p.ending != NoWidth ==>
                  CalendarRuns.Run(Init(), calls).Fine? && CalendarRuns.Run(Init(), calls).value.1 == p.queue)
  {
    hide Resting, Bag, Inv, Running, Wide, Put, Simulate, Calls, Init, Ready;
    OpenedReady(id);
    var v := Opened(id).value;
    var rest := Calls(id, None, v, draws);
    SimulateStops(id, None, v, draws);
    RestingUsable(Init<Msg>());
    StepFineIff(Init<Msg>(), PutCall(FirstEvent(id)));
    var calls := PlayCalls(id, draws);
    assert calls[0] == PutCall(FirstEvent(id)) && calls[1..] == rest;
  }
}
