/**
 When a cell sees its events in the order of their times. What it schedules is never before the event it
 handles, so the one thing that can break the order is a get that leaves the queue's position behind.
 */
module GsmOrder {
  import opened Wrappers
  import opened Calendar
  import opened CalendarContents
  import opened CalendarOrder
  import opened CalendarRuns
  import opened Gsm
  import opened GsmQueue

  /** A queue from which every get is sure to return a minimum. */
  ghost predicate InTime(v: Queue<Msg>) {
    Usable(v) && Monotone(v) && OrderSafe(v)
  }

  /** Every post is at the time of the event handled or later. */
  lemma PostsLater(id: int, cell: Option<Cell>, m: Msg, first: real, second: real)
    requires m.timestamp >= 0.0 && first >= 0.0 && second >= 0.0
    requires cell.None? ==> m == FirstEvent(id).payload
    requires m.kind == INIT ==> m.timestamp == 0.0
    ensures forall e <- React(id, cell, m, first, second).posts :: e.priority >= m.timestamp
  {
  }

  /** Puts that are not early keep the queue in time. */
  lemma {:induction false} PutsInTime(v: Queue<Msg>, es: seq<Event<Msg>>)
    requires Resting(v) && NonNegative(es) && InTime(v) && CalendarRuns.Run(v, PutCalls(es)).Fine?
    requires forall e <- es :: e.priority >= v.lastprio
    ensures var v' := CalendarRuns.Run(v, PutCalls(es)).value.1; InTime(v') && v'.lastprio == v.lastprio
    decreases |es|
  {
    hide Filed, OnGrid, Drain, Monotone, OrderSafe, PowerOfTwo, Put, Wide;
    if es != [] {
      var c := PutCall(es[0]);
      assert PutCalls(es)[0] == c && PutCalls(es)[1..] == PutCalls(es[1..]);
      assert c in PutCalls(es) && es[0] in es;
      RestingUsable(v);
      StepFineIff(v, c);
      StepResting(v, c);
      LateStep(v, c);
      PutSafe(v, es[0]);
      PutKeeps(v, es[0]);
      PutsInTime(Step(v, c).value.1, es[1..]);
    }
  }

  /** A turn whose get does not leave the position behind handles an earliest event, and leaves the queue in
      time at the time of that event. */
  lemma TurnInTime(id: int, cell: Option<Cell>, v: Queue<Msg>, d: Draws)
    requires Ready(id, cell, v) && InTime(v)
    requires Usable(v) && Counted(v) && Steady(v, GetCall)
    requires Advance(id, cell, v, d).ending != NoWidth
    ensures Calendar.Get(v).Fine? && Calendar.Get(v).value.0.Some?
    ensures var e, p := Calendar.Get(v).value.0.value, Advance(id, cell, v, d);
            && IsMinimum(e, Bag(v)) && v.lastprio <= e.priority == p.queue.lastprio && InTime(p.queue)
  {
    hide Filed, OnGrid, Drain, Bag, PowerOfTwo, Calendar.Get, Steady, Inv, Running, React, CalendarRuns.Run, PutCalls,
         OrderSafe, IsMinimum;
    AdvanceKeeps(id, cell, v, d);
    Taken(id, cell, v);
    var e, v1 := Calendar.Get(v).value.0.value, Calendar.Get(v).value.1;
    StepFineIff(v, GetCall);
    MonotoneAhead(v);
    StepOrder(v, GetCall);
    LateStep(v, GetCall);
    Stamps(WorldAt(id, cell, v), e);
    PostsLater(id, cell, e.payload, d.0, d.1);
    TurnFor(WorldAt(id, cell, v), e, d);
    PutsInTime(v1, React(id, cell, e.payload, d.0, d.1).posts);
  }

  lemma Stamps(w: World, e: Event<Msg>)
    requires Inv(w) && e in w.queue
    ensures e.priority == e.payload.timestamp >= 0.0
    ensures w.cell.None? ==> e == FirstEvent(w.id)
    ensures e.payload.kind == INIT ==> e.priority == 0.0
  {
    assert w.cell.Some? ==> EventOk(w.queue, w.id, e);
  }

  /** No get of the loop leaves the position behind, unless it halves the calendar. */
  ghost predicate AllSettled(id: int, cell: Option<Cell>, v: Queue<Msg>, draws: seq<Draws>)
    requires Ready(id, cell, v)
    decreases |draws|
  {
    draws == [] ||
    (&& Steady(v, GetCall)
     && (AdvanceKeeps(id, cell, v, draws[0]);
         var p := Advance(id, cell, v, draws[0]);
         p.ending == StillRunning ==> AllSettled(id, p.cell, p.queue, draws[1..])))
  }

  predicate Chronological(es: seq<Event<Msg>>, from: real) {
    && (forall e <- es :: from <= e.priority)
    && (forall i, j :: 0 <= i < j < |es| ==> es[i].priority <= es[j].priority)
  }

  lemma {:induction false} SimulateInTime(id: int, cell: Option<Cell>, v: Queue<Msg>, draws: seq<Draws>)
    requires Ready(id, cell, v) && InTime(v) && AllSettled(id, cell, v, draws)
    ensures Chronological(Handled(id, cell, v, draws), v.lastprio)
    decreases |draws|
  {
    hide Resting, Bag, Inv, Running, Advance, Calendar.Get, InTime, Steady, IsMinimum;
    if draws != [] {
      AdvanceKeeps(id, cell, v, draws[0]);
      var p := Advance(id, cell, v, draws[0]);
      if p.ending != NoWidth {
        RestingUsable(v);
        TurnInTime(id, cell, v, draws[0]);
        if p.ending == StillRunning {
          SimulateInTime(id, p.cell, p.queue, draws[1..]);
        }
      }
    }
  }

  /** Unless a get leaves the position behind, a cell handles its events in the order of their times. */
  lemma PlayInTime(id: int, draws: seq<Draws>)
    ensures Opened(id).Fine? && Ready(id, None, Opened(id).value)
    ensures AllSettled(id, None, Opened(id).value, draws) ==> Chronological(PlayHandled(id, draws), 0.0)
  {
    hide Ready, Put, Bag, AllSettled, Handled, Chronological, Monotone, OrderSafe, Init;
    OpenedReady(id);
    OpenedInTime(id);
    var v := Opened(id).value;
    if AllSettled(id, None, v, draws) {
      SimulateInTime(id, None, v, draws);
    }
  }

  lemma OpenedInTime(id: int)
    ensures Opened(id).Fine? && InTime(Opened(id).value) && Opened(id).value.lastprio == 0.0
  {
    hide Filed, OnGrid, Drain, PowerOfTwo, Put, Wide, OrderSafe, Monotone;
    OpenedReady(id);
    InitResting<Msg>();
    var c := PutCall(FirstEvent(id));
    assert Step(Init<Msg>(), c).Fine?;
    StepFineIff(Init<Msg>(), c);
    LateStep(Init<Msg>(), c);
    PutSafe(Init<Msg>(), FirstEvent(id));
    PutKeeps(Init<Msg>(), FirstEvent(id));
  }
}
