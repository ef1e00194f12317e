/**
 The simulation of one GSM cell: its counters, its busy channels and its pending events, with the
 queue as a bag that hands out any of its events and the random draws as arbitrary non-negative reals.
 So what holds here holds whatever order events come out in.
 */
module Gsm {
  import opened Wrappers
  import opened Calendar
  import opened Counting
  import Channels

  const INIT := 0
  const START_CALL := 20
  const END_CALL := 21
  const COMPLETE_CALLS := 15000

  datatype Msg = Msg(sender: int, receiver: int, kind: int, timestamp: real, channel: int)

  function PackEvent(cell: int, kind: int, stamp: real, channel: int): Msg {
    Msg(cell, cell, kind, stamp, channel)
  }

  /** The event that carries a message: its priority is the time stamp. */
  function Stamped(m: Msg): Event<Msg> {
    Event(m.timestamp, m)
  }

  datatype Cell = Cell(
    channelCounter: int,
    arrivingCalls: int,
    completeCalls: int,
    blockedOnSetup: int,
    executedEvents: int,
    busy: set<int>)

  datatype World = World(id: int, cell: Option<Cell>, queue: multiset<Event<Msg>>)

  /** How the handling of an event ends: the loop goes on, the cell is done, or the program aborts. */
  datatype Verdict = GoesOn | Done | Aborts

  function FreshCell(): Cell {
    Cell(Channels.CHANNELS_PER_CELL, 0, 0, 0, 0, {})
  }

  function FirstEvent(id: int): Event<Msg> {
    Event(0.0, Msg(id, id, INIT, 0.0, 0))
  }

  function Start(id: int): World {
    World(id, None, multiset{FirstEvent(id)})
  }

  /** The least channel from `i` on that is not busy, or the number of channels. */
  function LeastFree(busy: set<int>, i: int): (r: int)
    requires 0 <= i <= Channels.CHANNELS_PER_CELL
    ensures i <= r <= Channels.CHANNELS_PER_CELL && (r < Channels.CHANNELS_PER_CELL ==> r !in busy)
    ensures forall k :: i <= k < r ==> k in busy
    decreases Channels.CHANNELS_PER_CELL - i
  {
    if i == Channels.CHANNELS_PER_CELL || i !in busy then i else LeastFree(busy, i + 1)
  }

  function Executed(c: Cell): Cell {
    c.(executedEvents := c.executedEvents + 1)
  }

  /** What handling a message comes to: the cell after it, how it ends, and the events it schedules, in
      order. A reaction that aborts schedules nothing. */
  datatype Reaction = Reaction(cell: Option<Cell>, verdict: Verdict, posts: seq<Event<Msg>>)

  /** A call arrives: it is blocked, or takes a channel and schedules its end; then the next arrival is
      scheduled. */
  function Arrive(id: int, c: Cell, now: real, duration: real, gap: real): (r: Reaction)
    ensures now >= 0.0 && duration >= 0.0 && gap >= 0.0 ==> NonNegative(r.posts)
  {
    var next := Stamped(PackEvent(id, START_CALL, now + gap, -1));
    var c1 := c.(arrivingCalls := c.arrivingCalls + 1);
    if c1.channelCounter == 0 then
      Reaction(Some(c1.(blockedOnSetup := c1.blockedOnSetup + 1)), GoesOn, [next])
    else
      var index := LeastFree(c1.busy, 0);
      if index == Channels.CHANNELS_PER_CELL then Reaction(Some(c), Aborts, [])
      else
        Reaction(Some(c1.(channelCounter := c1.channelCounter - 1, busy := c1.busy + {index})), GoesOn,
                 [Stamped(PackEvent(id, END_CALL, now + duration, index)), next])
  }

  /** A call ends and gives its channel back. */
  function Complete(c: Cell, channel: int): Reaction {
    if channel !in c.busy then Reaction(Some(c), Aborts, [])
    else
      var c1 := c.(channelCounter := c.channelCounter + 1, completeCalls := c.completeCalls + 1,
                   busy := c.busy - {channel});
      Reaction(Some(c1), if c1.completeCalls == COMPLETE_CALLS then Done else GoesOn, [])
  }

  /** `ProcessEvent`. Before INIT there is no cell whose counters could be touched. */
  function React(id: int, cell: Option<Cell>, m: Msg, first: real, second: real): (r: Reaction)
    ensures m.timestamp >= 0.0 && first >= 0.0 && second >= 0.0 ==> NonNegative(r.posts)
  {
    if m.kind == INIT then Reaction(Some(FreshCell()), GoesOn, [Stamped(PackEvent(id, START_CALL, first, -1))])
    else if cell.None? then Reaction(cell, Aborts, [])
    else if m.kind == START_CALL then Arrive(id, Executed(cell.value), m.timestamp, first, second)
    else if m.kind == END_CALL then Complete(Executed(cell.value), m.channel)
    else Reaction(cell, Aborts, [])
  }

  /** The same with the pending events: what is scheduled joins them. */
  ghost function Process(w: World, m: Msg, first: real, second: real): (World, Verdict) {
    var r := React(w.id, w.cell, m, first, second);
    (World(w.id, r.cell, w.queue + multiset(r.posts)), r.verdict)
  }

  /** One turn of the loop: the event taken out of the queue, the check that it is meant for this cell,
      and its handling with the draws that makes. */
  ghost function Handle(w: World, e: Event<Msg>, first: real, second: real): (World, Verdict) {
    var w1 := w.(queue := w.queue - multiset{e});
    if e.payload.receiver != w.id then (w1, Aborts) else Process(w1, e.payload, first, second)
  }

  // ---------- what every turn keeps ----------

  /** Every pending event is a single START_CALL or END_CALL of this cell, with its time stamp as priority. */
  ghost predicate EventsOk(q: multiset<Event<Msg>>, id: int) {
    forall e :: e in q ==> EventOk(q, id, e)
  }

  ghost predicate EventOk(q: multiset<Event<Msg>>, id: int, e: Event<Msg>) {
    && q[e] == 1 && e.payload.receiver == id && e == Stamped(e.payload) && e.priority >= 0.0
    && (e.payload.kind == START_CALL || e.payload.kind == END_CALL)
  }

  ghost predicate NoArrival(q: multiset<Event<Msg>>) {
    forall e :: e in q ==> e.payload.kind != START_CALL
  }

  ghost predicate OneArrival(q: multiset<Event<Msg>>) {
    exists e :: e in q && e.payload.kind == START_CALL && NoArrival(q - multiset{e})
  }

  ghost predicate EndFor(q: multiset<Event<Msg>>, channel: int, e: Event<Msg>) {
    e in q && e.payload.kind == END_CALL && e.payload.channel == channel
  }

  /** The END_CALLs and the busy channels correspond one to one. */
  ghost predicate EndsMatch(q: multiset<Event<Msg>>, busy: set<int>) {
    && (forall c :: c in busy <==> exists e :: EndFor(q, c, e))
    && (forall c, e, f :: EndFor(q, c, e) && EndFor(q, c, f) ==> e == f)
  }

  /** The counters. */
  ghost predicate Conserved(c: Cell) {
    && c.channelCounter == Channels.CHANNELS_PER_CELL - |c.busy|
    && c.arrivingCalls == c.completeCalls + c.blockedOnSetup + |c.busy|
    && c.executedEvents == c.arrivingCalls + c.completeCalls
    && 0 <= c.completeCalls <= COMPLETE_CALLS && 0 <= c.blockedOnSetup
  }

  ghost predicate Inv(w: World) {
    match w.cell
    case None => w.queue == multiset{FirstEvent(w.id)}
    case Some(c) =>
      && (forall i :: i in c.busy ==> 0 <= i < Channels.CHANNELS_PER_CELL)
      && Conserved(c) && EventsOk(w.queue, w.id) && OneArrival(w.queue) && EndsMatch(w.queue, c.busy)
      && |w.queue| == 1 + |c.busy|
  }

  /** More events to come: the loop is still running. */
  ghost predicate Running(w: World) {
    w.cell.Some? ==> w.cell.value.completeCalls < COMPLETE_CALLS
  }

  lemma StartInv(id: int)
    ensures Inv(Start(id)) && Running(Start(id))
  {
  }

  lemma NeverEmpty(w: World)
    requires Inv(w)
    ensures w.queue != multiset{}
    ensures |w.queue| <= Channels.CHANNELS_PER_CELL + 1
  {
    if w.cell.Some? {
      var c := w.cell.value;
      assert |w.queue| >= 1;
      assert c.busy <= UpTo(Channels.CHANNELS_PER_CELL);
      Subset(c.busy, UpTo(Channels.CHANNELS_PER_CELL));
    }
  }

  /** While the counter says a channel is free, the search finds one. */
  lemma FreeChannel(c: Cell)
    requires Conserved(c) && c.channelCounter != 0 && forall i :: i in c.busy ==> 0 <= i < Channels.CHANNELS_PER_CELL
    ensures LeastFree(c.busy, 0) < Channels.CHANNELS_PER_CELL
  {
    assert c.busy <= UpTo(Channels.CHANNELS_PER_CELL);
    Subset(c.busy, UpTo(Channels.CHANNELS_PER_CELL));
    SomeFree(c.busy, Channels.CHANNELS_PER_CELL);
  }

  // ---------- taking an event out and putting events in ----------

  lemma TakeArrival(q: multiset<Event<Msg>>, id: int, busy: set<int>, e: Event<Msg>)
    requires EventsOk(q, id) && OneArrival(q) && EndsMatch(q, busy) && e in q && e.payload.kind == START_CALL
    ensures var r := q - multiset{e}; EventsOk(r, id) && NoArrival(r) && EndsMatch(r, busy) && |r| == |q| - 1
  {
    hide EndsMatch;
    TakeOk(q, id, e);
    var r := q - multiset{e};
    var a :| a in q && a.payload.kind == START_CALL && NoArrival(q - multiset{a});
    assert a == e by {
      assert a != e ==> e in q - multiset{a};
    }
    forall c, x
      ensures EndFor(r, c, x) <==> EndFor(q, c, x)
    {
    }
    SameEnds(q, r, busy);
  }

  lemma SameEnds(q: multiset<Event<Msg>>, r: multiset<Event<Msg>>, busy: set<int>)
    requires EndsMatch(q, busy) && forall c, x :: EndFor(r, c, x) <==> EndFor(q, c, x)
    ensures EndsMatch(r, busy)
  {
    hide EndFor;
  }

  lemma TakeOk(q: multiset<Event<Msg>>, id: int, e: Event<Msg>)
    requires EventsOk(q, id) && e in q
    ensures EventsOk(q - multiset{e}, id) && e !in q - multiset{e} && |q - multiset{e}| == |q| - 1
  {
    assert EventOk(q, id, e);
    forall x | x in q - multiset{e}
      ensures EventOk(q - multiset{e}, id, x)
    {
      assert EventOk(q, id, x);
    }
  }

  lemma PutOk(q: multiset<Event<Msg>>, id: int, e: Event<Msg>)
    requires EventsOk(q, id) && e !in q && EventOk(multiset{e}, id, e)
    ensures EventsOk(q + multiset{e}, id)
  {
    forall x | x in q + multiset{e}
      ensures EventOk(q + multiset{e}, id, x)
    {
      assert x in q ==> EventOk(q, id, x);
    }
  }

  lemma PutArrival(q: multiset<Event<Msg>>, id: int, busy: set<int>, e: Event<Msg>)
    requires EventsOk(q, id) && NoArrival(q) && EndsMatch(q, busy)
    requires EventOk(multiset{e}, id, e) && e.payload.kind == START_CALL
    ensures var r := q + multiset{e}; EventsOk(r, id) && OneArrival(r) && EndsMatch(r, busy) && |r| == |q| + 1
  {
    hide EndsMatch;
    PutOk(q, id, e);
    var r := q + multiset{e};
    assert r - multiset{e} == q;
    assert e in r;
    forall c, x
      ensures EndFor(r, c, x) <==> EndFor(q, c, x)
    {
    }
    SameEnds(q, r, busy);
  }

  lemma PutEnd(q: multiset<Event<Msg>>, id: int, busy: set<int>, e: Event<Msg>)
    requires EventsOk(q, id) && NoArrival(q) && EndsMatch(q, busy)
    requires EventOk(multiset{e}, id, e) && e.payload.kind == END_CALL && e.payload.channel !in busy
    ensures var r := q + multiset{e};
            EventsOk(r, id) && NoArrival(r) && EndsMatch(r, busy + {e.payload.channel}) && |r| == |q| + 1
  {
    hide EventsOk, EventOk;
    var r := q + multiset{e};
    var ch := e.payload.channel;
    assert e !in q by {
      assert e in q ==> EndFor(q, ch, e);
    }
    PutOk(q, id, e);
    forall c, x
      ensures EndFor(r, c, x) <==> EndFor(q, c, x) || (x == e && c == ch)
    {
    }
    MoreEnds(q, r, busy, e);
  }

  lemma MoreEnds(q: multiset<Event<Msg>>, r: multiset<Event<Msg>>, busy: set<int>, e: Event<Msg>)
    requires EndsMatch(q, busy) && e.payload.channel !in busy
    requires forall c, x :: EndFor(r, c, x) <==> EndFor(q, c, x) || (x == e && c == e.payload.channel)
    ensures EndsMatch(r, busy + {e.payload.channel})
  {
    hide EndFor;
    var ch := e.payload.channel;
    assert EndFor(r, ch, e);
    forall c
      ensures c in busy + {ch} <==> exists x :: EndFor(r, c, x)
    {
      if c in busy {
        var x :| EndFor(q, c, x);
        assert EndFor(r, c, x);
      }
    }
  }

  lemma TakeEnd(q: multiset<Event<Msg>>, id: int, busy: set<int>, e: Event<Msg>)
    requires EventsOk(q, id) && OneArrival(q) && EndsMatch(q, busy) && e in q && e.payload.kind == END_CALL
    ensures e.payload.channel in busy
    ensures var r := q - multiset{e};
            EventsOk(r, id) && OneArrival(r) && EndsMatch(r, busy - {e.payload.channel}) && |r| == |q| - 1
  {
    hide EventsOk, EventOk;
    var r := q - multiset{e};
    TakeOk(q, id, e);
    var a :| a in q && a.payload.kind == START_CALL && NoArrival(q - multiset{a});
    assert a in r && NoArrival(r - multiset{a}) by {
      assert forall x :: x in r - multiset{a} ==> x in q - multiset{a};
    }
    assert EndFor(q, e.payload.channel, e);
    forall c, x
      ensures EndFor(r, c, x) <==> EndFor(q, c, x) && x != e
    {
    }
    FewerEnds(q, r, busy, e);
  }

  lemma FewerEnds(q: multiset<Event<Msg>>, r: multiset<Event<Msg>>, busy: set<int>, e: Event<Msg>)
    requires EndsMatch(q, busy) && EndFor(q, e.payload.channel, e)
    requires forall c, x :: EndFor(r, c, x) <==> EndFor(q, c, x) && x != e
    ensures EndsMatch(r, busy - {e.payload.channel})
  {
    var ch := e.payload.channel;
    forall c
      ensures c in busy - {ch} <==> exists x :: EndFor(r, c, x)
    {
      if c in busy - {ch} {
        var x :| EndFor(q, c, x);
        assert EndFor(r, c, x);
      }
    }
  }

  // ---------- one turn ----------

  lemma InitTurn(w: World, e: Event<Msg>, first: real, second: real)
    requires Inv(w) && e in w.queue && w.cell.None? && first >= 0.0 && second >= 0.0
    ensures var (w', v) := Handle(w, e, first, second); v == GoesOn && Inv(w') && Running(w')
  {
    assert e == FirstEvent(w.id);
    assert w.queue - multiset{e} == multiset{};
    var next := Stamped(PackEvent(w.id, START_CALL, first, -1));
    PutArrival(multiset{}, w.id, {}, next);
  }

  lemma Known(w: World, e: Event<Msg>)
    requires Inv(w) && e in w.queue
    ensures w.cell.Some? ==> e.payload.kind == START_CALL || e.payload.kind == END_CALL
    ensures e.payload.receiver == w.id && e.payload.timestamp >= 0.0
  {
    assert w.cell.Some? ==> EventOk(w.queue, w.id, e);
  }

  /** The reaction goes on to a world that keeps everything. */
  ghost predicate Leads(w: World, r: Reaction) {
    var w' := World(w.id, r.cell, w.queue + multiset(r.posts));
    r.verdict == GoesOn && Inv(w') && Running(w')
  }

  lemma ArrivalTurn(w: World, e: Event<Msg>, first: real, second: real)
    requires Inv(w) && Running(w) && e in w.queue && w.cell.Some? && e.payload.kind == START_CALL
    requires first >= 0.0 && second >= 0.0
    ensures var (w', v) := Handle(w, e, first, second); v == GoesOn && Inv(w') && Running(w')
  {
    hide EventsOk, OneArrival, NoArrival, EndsMatch, Conserved, LeastFree, Arrive, EventOk;
    var c := w.cell.value;
    Known(w, e);
    TakeArrival(w.queue, w.id, c.busy, e);
    var w1 := w.(queue := w.queue - multiset{e});
    if c.channelCounter == 0 {
      Blocked(w1, c, e.payload.timestamp, first, second);
    } else {
      Accepted(w1, c, e.payload.timestamp, first, second);
    }
  }

  lemma Blocked(w: World, c: Cell, now: real, duration: real, gap: real)
    requires EventsOk(w.queue, w.id) && NoArrival(w.queue) && EndsMatch(w.queue, c.busy) && |w.queue| == |c.busy|
    requires Conserved(c) && c.completeCalls < COMPLETE_CALLS
    requires forall i :: i in c.busy ==> 0 <= i < Channels.CHANNELS_PER_CELL
    requires now >= 0.0 && duration >= 0.0 && gap >= 0.0 && c.channelCounter == 0
    ensures Leads(w, Arrive(w.id, Executed(c), now, duration, gap))
  {
    hide EventsOk, OneArrival, NoArrival, EndsMatch;
    var next := Stamped(PackEvent(w.id, START_CALL, now + gap, -1));
    assert multiset([next]) == multiset{next};
    PutArrival(w.queue, w.id, c.busy, next);
  }

  lemma Accepted(w: World, c: Cell, now: real, duration: real, gap: real)
    requires EventsOk(w.queue, w.id) && NoArrival(w.queue) && EndsMatch(w.queue, c.busy) && |w.queue| == |c.busy|
    requires Conserved(c) && c.completeCalls < COMPLETE_CALLS
    requires forall i :: i in c.busy ==> 0 <= i < Channels.CHANNELS_PER_CELL
    requires now >= 0.0 && duration >= 0.0 && gap >= 0.0 && c.channelCounter != 0
    ensures Leads(w, Arrive(w.id, Executed(c), now, duration, gap))
  {
    hide EventsOk, OneArrival, NoArrival, EndsMatch, LeastFree;
    FreeChannel(c);
    var index := LeastFree(c.busy, 0);
    var end := Stamped(PackEvent(w.id, END_CALL, now + duration, index));
    var next := Stamped(PackEvent(w.id, START_CALL, now + gap, -1));
    assert w.queue + multiset([end, next]) == w.queue + multiset{end} + multiset{next};
    PutEnd(w.queue, w.id, c.busy, end);
    PutArrival(w.queue + multiset{end}, w.id, c.busy + {index}, next);
    assert |c.busy + {index}| == |c.busy| + 1;
  }

  lemma EndTurn(w: World, e: Event<Msg>, first: real, second: real)
    requires Inv(w) && Running(w) && e in w.queue && w.cell.Some? && e.payload.kind == END_CALL
    ensures var (w', v) := Handle(w, e, first, second); v != Aborts && Inv(w') && (v == GoesOn <==> Running(w'))
  {
    hide EventsOk, OneArrival, NoArrival, EndsMatch;
    var c := w.cell.value;
    Known(w, e);
    TakeEnd(w.queue, w.id, c.busy, e);
    assert |c.busy - {e.payload.channel}| == |c.busy| - 1;
    assert w.queue - multiset{e} + multiset([]) == w.queue - multiset{e};
  }

  /** Whichever pending event is handled: nothing aborts, and the loop ends exactly when the last call
      completes. */
  lemma TurnKeeps(w: World, e: Event<Msg>, first: real, second: real)
    requires Inv(w) && Running(w) && e in w.queue && first >= 0.0 && second >= 0.0
    ensures var (w', v) := Handle(w, e, first, second);
            v != Aborts && Inv(w') && (v == GoesOn <==> Running(w'))
  {
    hide Inv, Handle, Running;
    if w.cell.None? {
      InitTurn(w, e, first, second);
    } else {
      Known(w, e);
      if e.payload.kind == END_CALL {
        EndTurn(w, e, first, second);
      } else {
        ArrivalTurn(w, e, first, second);
      }
    }
  }

  // ---------- whole runs ----------

  /** One turn: the event the queue hands out and the draws its handler makes. */
  datatype Turn = Turn(event: Event<Msg>, first: real, second: real)

  ghost predicate Possible(w: World, turn: Turn) {
    turn.event in w.queue && turn.first >= 0.0 && turn.second >= 0.0
  }

  /** The loop over a list of turns; a turn whose event is not pending does not happen. */
  ghost function Run(w: World, turns: seq<Turn>): (World, Verdict)
    decreases |turns|
  {
    if turns == [] then (w, GoesOn)
    else if !Possible(w, turns[0]) then Run(w, turns[1..])
    else
      var (w', v) := Handle(w, turns[0].event, turns[0].first, turns[0].second);
      if v == GoesOn then Run(w', turns[1..]) else (w', v)
  }

  /** The turns of a list that happen. */
  ghost function Took(w: World, turns: seq<Turn>): (took: seq<Turn>)
    ensures |took| <= |turns|
    decreases |turns|
  {
    if turns == [] then []
    else if !Possible(w, turns[0]) then Took(w, turns[1..])
    else
      var (w', v) := Handle(w, turns[0].event, turns[0].first, turns[0].second);
      [turns[0]] + if v == GoesOn then Took(w', turns[1..]) else []
  }

  /** A turn that happens comes first. */
  lemma FirstTurn(w: World, turn: Turn, rest: seq<Turn>)
    requires Possible(w, turn)
    ensures var (w', v) := Handle(w, turn.event, turn.first, turn.second);
            && Run(w, [turn] + rest) == (if v == GoesOn then Run(w', rest) else (w', v))
            && Took(w, [turn] + rest) == [turn] + if v == GoesOn then Took(w', rest) else []
  {
    hide Handle;
    assert ([turn] + rest)[1..] == rest;
  }

  lemma {:induction false} RunKeeps(w: World, turns: seq<Turn>)
    requires Inv(w) && Running(w)
    ensures var (w', v) := Run(w, turns); v != Aborts && Inv(w') && (v == GoesOn <==> Running(w'))
    decreases |turns|
  {
    hide Inv, Handle, Running;
    if turns != [] {
      if Possible(w, turns[0]) {
        TurnKeeps(w, turns[0].event, turns[0].first, turns[0].second);
        RunKeeps(if Handle(w, turns[0].event, turns[0].first, turns[0].second).1 == GoesOn
                 then Handle(w, turns[0].event, turns[0].first, turns[0].second).0 else w, turns[1..]);
      } else {
        RunKeeps(w, turns[1..]);
      }
    }
  }

  /** Over every run from the start: no abort, never an empty queue, at most 1001 events; and once
      initialised, calls are conserved and the pending END_CALLs are exactly the busy channels. */
  lemma SimulationConserves(id: int, turns: seq<Turn>)
    ensures var (w, v) := Run(Start(id), turns);
            && v != Aborts && w.queue != multiset{} && |w.queue| <= Channels.CHANNELS_PER_CELL + 1
            && (v == Done <==> w.cell.Some? && w.cell.value.completeCalls == COMPLETE_CALLS)
            && (w.cell.Some? ==>
                  Conserved(w.cell.value) && OneArrival(w.queue) && EndsMatch(w.queue, w.cell.value.busy))
  {
    StartInv(id);
    RunKeeps(Start(id), turns);
    NeverEmpty(Run(Start(id), turns).0);
  }
}
