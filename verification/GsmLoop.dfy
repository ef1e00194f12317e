/**
 The cell simulation in place: the counters and channels of `lp_state_type`, the handler that updates
 them, and the loop that takes every event from the calendar queue.
 */
module GsmLoop {
  import opened Wrappers
  import opened Calendar
  import opened CalendarContents
  import opened CalendarRuns
  import opened CalQueue
  import opened Channels
  import opened Gsm
  import opened GsmQueue
  import opened GsmLedger

  // ---------- the queue ----------

  /** A queue between two calls. */
  ghost predicate Idle(q: CalendarQueue<Msg>)
    reads q, q.calq
  {
    q.Framed() && q.Valid() && Resting(q.View())
  }

  ghost function Events(q: CalendarQueue<Msg>): multiset<Event<Msg>>
    reads q, q.calq
    requires q.Framed()
  {
    Bag(q.View())
  }

  /** Put a message at its time stamp. */
  method Schedule(q: CalendarQueue<Msg>, m: Msg) returns (fine: bool)
    requires Idle(q) && m.timestamp >= 0.0
    modifies q, q.calq
    ensures fine == Wide(old(q.View()), PutCall(Stamped(m)))
    ensures Step(old(q.View()), PutCall(Stamped(m))).Fine? == fine
    ensures fine ==> Idle(q) && Step(old(q.View()), PutCall(Stamped(m))) == Fine(([], q.View()))
    ensures fine ==> Events(q) == old(Events(q)) + multiset{Stamped(m)}
  {
    hide Filed, OnGrid, Drain, Bag, Calendar.Put, Calendar.Get, PowerOfTwo, Wide;
    StepFineIff(q.View(), PutCall(Stamped(m)));
    ghost var v := q.View();
    fine := q.Put(m.timestamp, m);
    if fine {
      PutKeeps(v, Stamped(m));
      PutResting(v, Stamped(m));
    }
  }

  /** Take an event out; the caller sees its message. */
  method Next(q: CalendarQueue<Msg>) returns (m: Option<Msg>, fine: bool)
    requires Idle(q)
    modifies q, q.calq
    ensures fine == Wide(old(q.View()), GetCall)
    ensures Calendar.Get(old(q.View())).Fine? == fine
    ensures fine ==> Idle(q) && q.View() == Calendar.Get(old(q.View())).value.1
    ensures fine ==> m == Message(Calendar.Get(old(q.View())).value.0) && (m.None? <==> old(Events(q)) == multiset{})
  {
    hide Filed, OnGrid, Drain, Bag, Calendar.Put, Calendar.Get, PowerOfTwo, Wide;
    ghost var v := q.View();
    StepFineIff(v, GetCall);
    m, fine := q.Get();
    if fine {
      GetKeeps(v);
      GetResting(v);
    }
  }

  function Message(e: Option<Event<Msg>>): Option<Msg> {
    if e.None? then None else Some(e.value.payload)
  }

  // ---------- the cell ----------

  /** Queue and channels share no object; their arrays have different lengths. */
  lemma Apart(q: CalendarQueue<Msg>, table: ChannelTable)
    requires Idle(q) && table.Valid()
    ensures q.calq as object != table.words as object
  {
    assert q.calq.Length == CALQSPACE && table.words.Length == ALLOCATED_WORDS;
  }

  ghost predicate IsLeastFree(busy: set<int>, index: int) {
    0 <= index < CHANNELS_PER_CELL && index !in busy && forall i :: 0 <= i < index ==> i in busy
  }

  /** The cases of an arriving call. */
  lemma ArriveIs(id: int, c: Cell, now: real, duration: real, gap: real)
    ensures var next := Stamped(PackEvent(id, START_CALL, now + gap, -1));
            var c1 := c.(arrivingCalls := c.arrivingCalls + 1);
            && (c.channelCounter == 0 ==>
                  Arrive(id, c, now, duration, gap) ==
                  Reaction(Some(c1.(blockedOnSetup := c1.blockedOnSetup + 1)), GoesOn, [next]))
            && (c.channelCounter != 0 && (forall i :: 0 <= i < CHANNELS_PER_CELL ==> i in c.busy) ==>
                  Arrive(id, c, now, duration, gap) == Reaction(Some(c), Aborts, []))
            && (forall index :: (c.channelCounter != 0 && IsLeastFree(c.busy, index)) ==>
                  var end := Stamped(PackEvent(id, END_CALL, now + duration, index));
                  Arrive(id, c, now, duration, gap) ==
                  Reaction(Some(c1.(channelCounter := c.channelCounter - 1, busy := c.busy + {index})), GoesOn,
                           [end, next]))
  {
    hide LeastFree;
    forall index | IsLeastFree(c.busy, index)
      ensures LeastFree(c.busy, 0) == index
    {
      LeastFreeIs(c.busy, index);
    }
  }

  lemma LeastFreeIs(busy: set<int>, index: int)
    requires IsLeastFree(busy, index)
    ensures LeastFree(busy, 0) == index
  {
  }

  lemma NoPut(v: Queue<Msg>)
    requires Resting(v)
    ensures CalendarRuns.Run(v, PutCalls([])) == Fine(([], v))
  {
  }

  /** The run of one put, and of two. */
  lemma OnePut(v: Queue<Msg>, e: Event<Msg>)
    requires Resting(v) && e.priority >= 0.0
    ensures Usable(v) && Counted(v)
    ensures CalendarRuns.Run(v, PutCalls([e])) == Step(v, PutCall(e))
  {
    hide Step, Usable, Filed, OnGrid, Counted, PowerOfTwo;
    RestingUsable(v);
    var calls: seq<Call<Msg>> := PutCalls([e]);
    assert [e][1..] == [] && PutCalls<Msg>([]) == [];
    assert calls == [PutCall(e)] && calls[0] in calls && calls[1..] == [];
    if Step(v, PutCall(e)).Fine? {
      StepResting(v, calls[0]);
      assert Step(v, PutCall(e)).value.0 + [] == Step(v, PutCall(e)).value.0;
    }
  }

  lemma TwoPuts(v: Queue<Msg>, a: Event<Msg>, b: Event<Msg>)
    requires Resting(v) && a.priority >= 0.0 && b.priority >= 0.0
    ensures Usable(v) && Counted(v)
    ensures var s := Step(v, PutCall(a));
            var r := CalendarRuns.Run(v, PutCalls([a, b]));
            && (s.Degenerate? ==> r.Degenerate?)
            && (s.Fine? ==>
                  && Resting(s.value.1) && Usable(s.value.1) && Counted(s.value.1)
                  && (r.Degenerate? <==> Step(s.value.1, PutCall(b)).Degenerate?)
                  && (r.Fine? ==> r.value.1 == Step(s.value.1, PutCall(b)).value.1))
  {
    hide Step, Filed, OnGrid, Drain, PowerOfTwo;
    RestingUsable(v);
    var calls: seq<Call<Msg>> := PutCalls([a, b]);
    assert [a, b][1..] == [b];
    assert calls[0] == PutCall(a) && calls[0] in calls && calls[1..] == PutCalls([b]);
    if Step(v, PutCall(a)).Fine? {
      StepResting(v, calls[0]);
      OnePut(Step(v, PutCall(a)).value.1, b);
    }
  }

  /** `lp_state_type`, without the statistics that are never read. */
  class CellState {
    var channelCounter: int
    var arrivingCalls: int
    var completeCalls: int
    var blockedOnSetup: int
    var executedEvents: int
    const table: ChannelTable

    ghost predicate Valid()
      reads this, table, table.words, table.list
    {
      table.Valid()
    }

    ghost function View(): Cell
      reads this, table
    {
      Cell(channelCounter, arrivingCalls, completeCalls, blockedOnSetup, executedEvents, table.Busy())
    }

    /** INIT. */
    constructor ()
      ensures Valid() && View() == FreshCell() && fresh(table) && fresh(table.words) && table.list == []
    {
      channelCounter, arrivingCalls, completeCalls, blockedOnSetup, executedEvents := CHANNELS_PER_CELL, 0, 0, 0, 0;
      table := new ChannelTable();
    }

    /** START_CALL: the cell as the value specification has it, and its puts made on the queue. */
    method StartCall(id: int, now: real, duration: real, gap: real, q: CalendarQueue<Msg>) returns (r: Outcome<Verdict>)
      requires Valid() && Idle(q) && now >= 0.0 && duration >= 0.0 && gap >= 0.0
      modifies this, table, table.words, table.list, q, q.calq
      ensures var a := Arrive(id, old(View()), now, duration, gap);
              var puts := CalendarRuns.Run(old(q.View()), PutCalls(a.posts));
              && (r.Degenerate? <==> puts.Degenerate?)
              && (r.Fine? ==> r.value == a.verdict)
              && (r.Fine? && r.value != Aborts ==>
                    Valid() && Idle(q) && Some(View()) == a.cell && q.View() == puts.value.1)
      ensures r.Fine? && r.value != Aborts ==> fresh(set c <- table.list | c !in old(table.list))
    {
      hide Wide, Resting, Bag, Arrive, LeastFree, ChannelTable.Valid, CalendarQueue.Valid, CalendarQueue.View, IdSet;
      hide Step, CalendarRuns.Run, PutCalls;
      ArriveIs(id, View(), now, duration, gap);
      Apart(q, table);
      ghost var v, busy := q.View(), table.Busy();
      var next := PackEvent(id, START_CALL, now + gap, -1);
      arrivingCalls := arrivingCalls + 1;
      if channelCounter == 0 {
        blockedOnSetup := blockedOnSetup + 1;
        OnePut(v, Stamped(next));
      } else {
        channelCounter := channelCounter - 1;
        assert busy == table.Busy();
        var index, found := table.Allocation();
        if !found {
          assert forall i :: 0 <= i < CHANNELS_PER_CELL ==> i in busy;
          NoPut(v);
          return Fine(Aborts);
        }
        assert IsLeastFree(busy, index);
        var end := PackEvent(id, END_CALL, now + duration, index);
        TwoPuts(v, Stamped(end), Stamped(next));
        var fine := Schedule(q, end);
        if !fine {
          return Degenerate;
        }
      }
      var fine := Schedule(q, next);
      r := if fine then Fine(GoesOn) else Degenerate;
    }

    /** END_CALL. */
    method EndCall(channel: int) returns (r: Verdict)
      requires Valid()
      modifies this, table, table.words, table.list
      ensures r == Complete(old(View()), channel).verdict
      ensures r != Aborts ==>
                && Valid() && Some(View()) == Complete(old(View()), channel).cell
                && forall c <- table.list :: c in old(table.list)
    {
      hide ChannelTable.Valid, IdSet;
      channelCounter := channelCounter + 1;
      completeCalls := completeCalls + 1;
      ghost var busy := table.Busy();
      assert busy == old(table.Busy());
      var found := table.Deallocation(channel);
      r := if !found then Aborts else if completeCalls == COMPLETE_CALLS then Done else GoesOn;
    }
  }

  /** The objects a cell is made of. */
  ghost function Footprint(state: CellState?): set<object>
    reads state, if state == null then null else state.table
  {
    if state == null then {}
    else {state, state.table, state.table.words} + set c <- state.table.list
  }

  ghost function CellOf(state: CellState?): Option<Cell>
    reads state, if state == null then null else state.table
  {
    if state == null then None else Some(state.View())
  }

  /** `ProcessEvent`; INIT answers with a new cell. */
  method ProcessEvent(id: int, m: Msg, state: CellState?, q: CalendarQueue<Msg>, first: real, second: real)
    returns (r: Outcome<Verdict>, next: CellState?)
    requires Idle(q) && (state != null ==> state.Valid())
    requires m.timestamp >= 0.0 && first >= 0.0 && second >= 0.0
    modifies Footprint(state), q, q.calq
    ensures var a := React(id, old(CellOf(state)), m, first, second);
            var puts := CalendarRuns.Run(old(q.View()), PutCalls(a.posts));
            && (r.Degenerate? <==> puts.Degenerate?)
            && (r.Fine? ==> r.value == a.verdict)
            && (r.Fine? && r.value != Aborts ==>
                  && Idle(q) && next != null && next.Valid()
                  && CellOf(next) == a.cell && q.View() == puts.value.1)
    ensures r.Fine? && r.value != Aborts ==> fresh(Footprint(next) - old(Footprint(state)))
  {
    hide Wide, Resting, Bag, Arrive, LeastFree, ChannelTable.Valid, CalendarQueue.Valid, CalendarQueue.View,
         IdSet, Step, CalendarRuns.Run, PutCalls;
    ghost var v := q.View();
    NoPut(v);
    next := state;
    if state != null {
      Apart(q, state.table);
      state.executedEvents := state.executedEvents + 1;
      assert CellOf(state) == Some(Executed(old(CellOf(state)).value));
    }
    if m.kind == INIT {
      next := new CellState();
      var start := PackEvent(id, START_CALL, first, -1);
      OnePut(v, Stamped(start));
      var fine := Schedule(q, start);
      r := if fine then Fine(GoesOn) else Degenerate;
    } else if state == null {
      r := Fine(Aborts);
    } else if m.kind == START_CALL {
      r := state.StartCall(id, m.timestamp, first, second, q);
    } else if m.kind == END_CALL {
      var end := state.EndCall(m.channel);
      r := Fine(end);
    } else {
      r := Fine(Aborts);
    }
  }

  // ---------- the loop ----------

  /** The queue before the first turn: the INIT event and nothing else. */
  method Open(id: int) returns (q: CalendarQueue<Msg>)
    ensures fresh(q) && fresh(q.calq) && Idle(q) && Opened(id) == Fine(q.View())
  {
    hide Filed, OnGrid, Drain, PowerOfTwo, Calendar.Put, Calendar.Init, Inv, Running;
    q := new CalendarQueue<Msg>();
    OpenedReady(id);
    var fine := Schedule(q, FirstEvent(id).payload);
  }

  /** One turn of the loop, with its three checks in their order. */
  method OneTurn(id: int, state: CellState?, q: CalendarQueue<Msg>, draws: Draws)
    returns (ending: Ending, next: CellState?)
    requires Idle(q) && (state != null ==> state.Valid()) && Ready(id, CellOf(state), q.View())
    modifies Footprint(state), q, q.calq
    ensures var p := Advance(id, old(CellOf(state)), old(q.View()), draws);
            && ending == p.ending
            && (ending == Finished || ending == StillRunning ==>
                  && Idle(q) && next != null && next.Valid() && CellOf(next) == p.cell && q.View() == p.queue)
    ensures ending == Finished || ending == StillRunning ==> fresh(Footprint(next) - old(Footprint(state)))
  {
    hide Wide, Resting, Bag, React, ChannelTable.Valid, CalendarQueue.Valid, CalendarQueue.View, IdSet,
         CalendarRuns.Run, PutCalls, Calendar.Get, Inv, Running;
    ghost var v, cell := q.View(), CellOf(state);
    RestingUsable(v);
    if state != null {
      Apart(q, state.table);
    }
    var m, fine := Next(q);
    if !fine {
      return NoWidth, state;
    }
    Taken(id, cell, v);
    TurnFor(WorldAt(id, cell, v), Calendar.Get(v).value.0.value, draws);
    if m.None? {
      return NoEvents, state;
    }
    if m.value.receiver != id {
      return WrongCell, state;
    }
    assert CellOf(state) == cell;
    var r;
    r, next := ProcessEvent(id, m.value, state, q, draws.0, draws.1);
    match r
    case Degenerate => ending := NoWidth;
    case Fine(verdict) =>
      ending := if verdict == Aborts then Aborted else if verdict == Done then Finished else StillRunning;
  }

  /** Turn after turn, as many as there are draws. */
  method Turns(id: int, q: CalendarQueue<Msg>, draws: seq<Draws>) returns (ending: Ending, state: CellState?)
    requires Idle(q) && Ready(id, None, q.View())
    modifies q, q.calq
    ensures var p := Simulate(id, None, old(q.View()), draws);
            && ending == p.ending
            && (ending == Finished || ending == StillRunning ==>
                  Idle(q) && (state != null ==> state.Valid()) && CellOf(state) == p.cell && q.View() == p.queue)
  {
    hide Resting, Bag, ChannelTable.Valid, CalendarQueue.Valid, CalendarQueue.View, IdSet;
    hide Inv, Running, Ready, Advance, Simulate, WorldAt;
    assert CellOf(null) == None && Footprint(null) == {};
    hide CellOf, Footprint;
    ghost var p, cell, v := Simulate(id, None, q.View(), draws), None, q.View();
    assert draws[0..] == draws;
    state, ending := null, StillRunning;
    var turn := 0;
    while ending == StillRunning && turn < |draws|
      invariant 0 <= turn <= |draws| && (ending == StillRunning || ending == Finished)
      invariant Idle(q) && (state != null ==> state.Valid()) && fresh(Footprint(state))
      invariant cell == CellOf(state) && v == q.View()
      invariant ending == StillRunning ==> Ready(id, cell, v) && p == Simulate(id, cell, v, draws[turn..])
      invariant ending == Finished ==> p == Progress(Finished, cell, v)
      decreases |draws| - turn
    {
      SimulateStep(id, cell, v, draws, turn);
      ghost var before := Footprint(state);
      ending, state := OneTurn(id, state, q, draws[turn]);
      if ending != StillRunning && ending != Finished {
        return ending, state;
      }
      assert fresh(Footprint(state) - before);
      cell, v, turn := CellOf(state), q.View(), turn + 1;
    }
    if ending == StillRunning {
      SimulateEnds(id, cell, v, draws);
    }
  }

  /** The loop of `main_loop` over the events of one cell, for as many events as there are draws: what it
      comes to is the simulation over the queue's value. */
  method MainLoop(id: int, draws: seq<Draws>)
    returns (ending: Ending, state: CellState?, q: CalendarQueue<Msg>, ghost turns: seq<Turn>)
    ensures ending == Play(id, draws).ending
    ensures ending == Finished || ending == StillRunning || ending == NoWidth
    ensures ending != NoWidth ==>
              && Idle(q) && (state != null ==> state.Valid())
              && CellOf(state) == Play(id, draws).cell && q.View() == Play(id, draws).queue
    ensures ending != NoWidth ==> q.qsize <= CHANNELS_PER_CELL + 1 && q.nbuckets <= MOST_BUCKETS
    ensures ending == Finished ==> state != null && state.completeCalls == COMPLETE_CALLS
    ensures Inv(WorldAt(id, Play(id, draws).cell, Play(id, draws).queue))
    ensures Plays(turns, PlayHandled(id, draws), draws) && (ending == StillRunning ==> |turns| == |draws|)
    ensures Gsm.Run(Start(id), turns) ==
            (WorldAt(id, Play(id, draws).cell, Play(id, draws).queue), if ending == Finished then Done else GoesOn)
    ensures ending == Finished <==> Count(turns, 21) == 15000
  {
    hide Resting, Bag, ChannelTable.Valid, CalendarQueue.Valid, CalendarQueue.View, IdSet;
    hide Inv, Running, Ready, Advance, Simulate, Play, PlayHandled, Plays, Gsm.Run, Took, Start, Opened, WorldAt, Count;
    turns := LoopIsBooks(id, draws);
    PlayKeeps(id, draws);
    q := Open(id);
    PlayBegins(id, q.View(), draws);
    assert draws[0..] == draws;
    ending, state := Turns(id, q, draws);
    if ending != NoWidth {
      Shown(state, q);
    }
  }

  lemma Shown(state: CellState?, q: CalendarQueue<Msg>)
    requires q.Framed()
    ensures q.View().qsize == q.qsize && |q.View().buckets| == q.nbuckets
    ensures CellOf(state).Some? ==> state != null && CellOf(state).value.completeCalls == state.completeCalls
  {
  }
}
