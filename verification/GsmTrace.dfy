/**
 Draws for which the simulation of a cell stops: its queue comes to hold five events of one time, and
 the resize they need finds no width.
 */
module GsmTrace {
  import opened Wrappers
  import opened Grid
  import opened Calendar
  import opened CalendarContents
  import opened CalendarOrder
  import opened CalendarRuns
  import opened Gsm
  import opened GsmQueue
  import CalendarTrace
  import Channels

  /** Two buckets, with the limit where it belongs and nothing taken out but at time zero. */
  ghost predicate Poised(v: Queue<Msg>) {
    Resting(v) && |v.buckets| == 2 && Slack(v) == 0 && v.lastprio == 0.0
  }

  lemma PoisedInit()
    ensures Poised(Init<Msg>()) && Init<Msg>().qsize == 0
  {
    hide Filed, Drain, Positioned, SlackOf, PowerOfTwo;
    InitResting<Msg>();
    LocalInitKeeps<Msg>(0, 2, 1.0, 0.0, true);
  }

  /** A put that does not fill the two buckets past their threshold. */
  lemma PutPoised(v: Queue<Msg>, e: Event<Msg>)
    requires Poised(v) && v.qsize < 4 && e.priority >= 0.0
    ensures Put(v, e).Fine? && Poised(Put(v, e).value)
  {
    hide Slot, Positioned, SlackOf, Filed, Drain, Insert, PowerOfTwo;
    InsertKeeps(v, e);
    assert Put(v, e) == Fine(Insert(v, e));
    PutResting(v, e);
  }

  lemma AheadOfZero(v: Queue<Msg>)
    requires WellFormed(v) && v.lastprio == 0.0
    ensures Ahead(v)
  {
    hide OnGrid, Filed, Drain, Ahead;
    DrainNonNegative(v);
    MonotoneAhead(v);
  }

  /** An event at time zero comes out first, by the scan. */
  lemma GetPoised(v: Queue<Msg>, x: Event<Msg>)
    requires Poised(v) && x in Bag(v) && x.priority == 0.0
    ensures Get(v).Fine? && Poised(Get(v).value.1) && Get(v).value.1.qsize == v.qsize - 1
    ensures Get(v).value.0.Some? && Get(v).value.0.value.priority == 0.0
  {
    hide VirtualBucket, OnGrid, Filed, Drain, SlackOf, Ahead, PowerOfTwo, ScanFrom, Remove, Found, NonEmpty;
    AheadOfZero(v);
    assert |Drain(v.buckets)| > 0;
    NonEmptyIff(v);
    NotSkipped(v, x);
    ScanMinimum(v);
    RemoveKeeps(v);
    FoundInBag(v);
    assert Get(v) == Fine((Some(Found(v)), Remove(v)));
    GetResting(v);
  }

  /** The cell is poised with `k` calls going on: all of them end at `t`, and the next one arrives at zero. */
  ghost predicate Loaded(id: int, cell: Option<Cell>, v: Queue<Msg>, t: real, k: nat) {
    && Ready(id, cell, v) && Poised(v) && cell.Some? && |cell.value.busy| == k && v.qsize == 1 + k
    && forall e <- Bag(v) :: e.priority == if e.payload.kind == START_CALL then 0.0 else t
  }

  /** What a loaded cell takes out: the arrival, so that all that is left is at `t`. */
  lemma LoadedGet(id: int, cell: Option<Cell>, v: Queue<Msg>, t: real, k: nat)
    requires Loaded(id, cell, v, t, k) && t > 0.0
    ensures Get(v).Fine? && Get(v).value.0.Some?
    ensures var (e, v1) := Get(v).value;
            && Poised(v1) && v1.qsize == k && e.value in Bag(v) && Bag(v1) == Bag(v) - multiset{e.value}
            && e.value.payload.kind == START_CALL && e.value.payload.timestamp == 0.0
            && forall x <- Bag(v1) :: x.priority == t
  {
    hide Resting, Get, Bag, EndsMatch, Conserved, Slack;
    RestingUsable(v) by {
      assert Poised(v);
    }
    var a := Arrival(WorldAt(id, cell, v));
    GetPoised(v, a);
    Taken(id, cell, v);
    assert Bag(v)[a] == 1 by {
      assert EventOk(Bag(v), id, a);
    }
    assert EventOk(Bag(v), id, Get(v).value.0.value);
  }

  /** The one arrival that is pending. */
  lemma Arrival(w: World) returns (a: Event<Msg>)
    requires Inv(w) && w.cell.Some?
    ensures a in w.queue && a.payload.kind == START_CALL && a.payload.receiver == w.id
    ensures forall x <- w.queue :: x.payload.kind == START_CALL ==> x == a
  {
    hide EndsMatch, Conserved;
    a :| a in w.queue && a.payload.kind == START_CALL && NoArrival(w.queue - multiset{a});
    assert EventOk(w.queue, w.id, a);
    forall x | x in w.queue && x.payload.kind == START_CALL
      ensures x == a
    {
      assert x != a ==> x in w.queue - multiset{a};
    }
  }

  /** An arrival at zero while channels are free. */
  lemma Accepts(id: int, c: Cell, m: Msg, d: Draws)
    requires Conserved(c) && (forall i :: i in c.busy ==> 0 <= i < Channels.CHANNELS_PER_CELL)
    requires m.kind == START_CALL && m.timestamp == 0.0 && |c.busy| <= 3
    ensures var r := React(id, Some(c), m, d.0, d.1);
            && r.verdict == GoesOn && r.cell.Some? && |r.cell.value.busy| == |c.busy| + 1
            && |r.posts| == 2 && r.posts[0].payload.kind == END_CALL && r.posts[1].payload.kind == START_CALL
            && r.posts[0].priority == d.0 && r.posts[1].priority == d.1
  {
    hide LeastFree;
    FreeChannel(c);
  }

  /** Two puts that fit. */
  lemma TwoPuts(v: Queue<Msg>, es: seq<Event<Msg>>)
    requires Poised(v) && v.qsize <= 2 && NonNegative(es) && |es| == 2
    ensures var r := CalendarRuns.Run(v, PutCalls(es));
            r.Fine? && Poised(r.value.1) && r.value.1.qsize == v.qsize + 2
            && Bag(r.value.1) == Bag(v) + multiset(es)
  {
    hide Resting, Bag, Slack, Step, CalendarRuns.Run;
    var v1 := PutFine(v, es[0]);
    var v2 := PutFine(v1, es[1]);
    var calls: seq<Call<Msg>> := PutCalls(es);
    assert calls[1..] == PutCalls(es[1..]) && calls[1..][1..] == PutCalls(es[1..][1..]) == [];
    RunNothing(v2);
    CalendarTrace.RunStep(v1, calls[1..], [], v2);
    CalendarTrace.RunStep(v, calls, [], v1);
    assert es == [es[0]] + [es[1]];
  }

  lemma RunNothing(v: Queue<Msg>)
    requires Poised(v)
    ensures CalendarRuns.Run(v, []) == Fine(([], v))
  {
  }

  lemma PutFine(v: Queue<Msg>, e: Event<Msg>) returns (v': Queue<Msg>)
    requires Poised(v) && v.qsize < 4 && e.priority >= 0.0
    ensures Usable(v) && Counted(v) && Step(v, PutCall(e)) == Fine(([], v'))
    ensures Poised(v') && v'.qsize == v.qsize + 1 && Bag(v') == Bag(v) + multiset{e}
  {
    hide VirtualBucket, OnGrid, Filed, Drain, SlackOf, PowerOfTwo, Put, Slack;
    PutPoised(v, e);
    PutKeeps(v, e);
    v' := Put(v, e).value;
  }

  /** A call that ends at `t` and the next arrival at zero. */
  lemma LoadedTurn(id: int, cell: Option<Cell>, v: Queue<Msg>, t: real, k: nat)
    requires Loaded(id, cell, v, t, k) && t > 0.0 && k <= 2
    ensures var p := Advance(id, cell, v, (t, 0.0));
            p.ending == StillRunning && Loaded(id, p.cell, p.queue, t, k + 1)
  {
    hide Resting, Get, Bag, Inv, Running, Poised, CalendarRuns.Run, PutCalls, React;
    LoadedGet(id, cell, v, t, k);
    Taken(id, cell, v);
    RestingUsable(v);
    var e, v1 := Get(v).value.0.value, Get(v).value.1;
    Accepting(id, cell, v, e, (t, 0.0), k);
    var r := React(id, cell, e.payload, t, 0.0);
    TwoPuts(v1, r.posts);
    AdvanceKeeps(id, cell, v, (t, 0.0));
    var p := Advance(id, cell, v, (t, 0.0));
    forall x | x in Bag(p.queue)
      ensures x.priority == if x.payload.kind == START_CALL then 0.0 else t
    {
      assert x in Bag(v1) || x == r.posts[0] || x == r.posts[1];
    }
  }

  lemma Accepting(id: int, cell: Option<Cell>, v: Queue<Msg>, e: Event<Msg>, d: Draws, k: nat)
    requires Ready(id, cell, v) && cell.Some? && |cell.value.busy| == k <= 3
    requires e in Bag(v) && e.payload.kind == START_CALL && e.payload.timestamp == 0.0
    ensures e.payload.receiver == id
    ensures var r := React(id, cell, e.payload, d.0, d.1);
            && r.verdict == GoesOn && r.cell.Some? && |r.cell.value.busy| == k + 1 && NonNegative(r.posts)
            && |r.posts| == 2 && r.posts[0].payload.kind == END_CALL && r.posts[1].payload.kind == START_CALL
            && r.posts[0].priority == d.0 && r.posts[1].priority == d.1
  {
    hide Resting, Bag, React, EventsOk, EndsMatch, OneArrival, Conserved;
    TurnFor(WorldAt(id, cell, v), e, d);
    Accepts(id, cell.value, e.payload, d);
  }

  /** With three calls going on, a fourth that ends at `t`, and the next arrival at `t`: five ties. */
  lemma LoadedStops(id: int, cell: Option<Cell>, v: Queue<Msg>, t: real)
    requires Loaded(id, cell, v, t, 3) && t > 0.0
    ensures Advance(id, cell, v, (t, t)).ending == NoWidth
  {
    hide Resting, Get, Bag, Inv, Running, CalendarRuns.Run, PutCalls, React;
    LoadedGet(id, cell, v, t, 3);
    Taken(id, cell, v);
    RestingUsable(v);
    var e, v1 := Get(v).value.0.value, Get(v).value.1;
    Accepting(id, cell, v, e, (t, t), 3);
    CalendarTrace.TiedPuts(v1, React(id, cell, e.payload, t, t).posts, t);
  }

  /** INIT, with the first arrival at zero. */
  lemma FirstTurn(id: int, v: Queue<Msg>, t: real)
    requires t > 0.0 && Ready(id, None, v) && Poised(v) && v.qsize == 1 && Bag(v) == multiset{FirstEvent(id)}
    ensures var p := Advance(id, None, v, (0.0, 0.0));
            p.ending == StillRunning && Loaded(id, p.cell, p.queue, t, 0)
  {
    hide Resting, Get, Put, Bag, Inv, Running, Slack, Step, CalendarRuns.Run;
    GetPoised(v, FirstEvent(id));
    Taken(id, None, v);
    RestingUsable(v);
    var v1 := Get(v).value.1;
    AdvanceKeeps(id, None, v, (0.0, 0.0));
    var next := Stamped(PackEvent(id, START_CALL, 0.0, -1));
    assert Get(v).value.0 == Some(FirstEvent(id));
    var v2 := PutFine(v1, next);
    assert PutCalls([next]) == [PutCall(next)] && [PutCall(next)][1..] == [];
    RunNothing(v2);
    CalendarTrace.RunStep(v1, PutCalls([next]), [], v2);
    assert Bag(v2) == multiset{next};
  }

  lemma OpenedIs(id: int)
    ensures Opened(id).Fine?
    ensures var v := Opened(id).value; Poised(v) && v.qsize == 1 && Bag(v) == multiset{FirstEvent(id)}
  {
    hide Resting, Put, Bag, Slack;
    PoisedInit();
    OpenedReady(id);
    InitResting<Msg>();
    var v := PutFine(Init<Msg>(), FirstEvent(id));
  }

  /** For any t > 0, five turns with these draws: the first four go on, and in the fifth the queue has no
      width to resize to. */
  lemma StoppingDraws(id: int, t: real)
    requires t > 0.0
    ensures var draws: seq<Draws> := [(0.0, 0.0), (t, 0.0), (t, 0.0), (t, 0.0), (t, t)];
            Play(id, draws).ending == NoWidth && Play(id, draws[..4]).ending == StillRunning
  {
    hide Play;
    StoppingRun(id, t, [(t, t)]);
    StoppingRun(id, t, []);
    assert Ends(t, 1) == [(t, 0.0)] + Ends(t, 0) && Ends(t, 2) == [(t, 0.0)] + Ends(t, 1);
    assert Ends(t, 3) == [(t, 0.0), (t, 0.0), (t, 0.0)];
    var draws: seq<Draws> := [(0.0, 0.0), (t, 0.0), (t, 0.0), (t, 0.0), (t, t)];
    assert draws == [(0.0, 0.0)] + (Ends(t, 3) + [(t, t)]);
    assert draws[..4] == [(0.0, 0.0)] + (Ends(t, 3) + []);
  }

  lemma StoppingRun(id: int, t: real, last: seq<Draws>)
    requires t > 0.0 && (last == [] || last == [(t, t)])
    ensures Play(id, [(0.0, 0.0)] + (Ends(t, 3) + last)).ending == if last == [] then StillRunning else NoWidth
  {
    hide Loaded, Ready, Advance, Poised, Bag, Opened, Simulate, Play, Resting, Init;
    OpenedReady(id);
    OpenedIs(id);
    var v := Opened(id).value;
    FirstTurn(id, v, t);
    var p := Advance(id, None, v, (0.0, 0.0));
    LoadedRun(id, p.cell, p.queue, t, 0, last);
    var draws: seq<Draws> := [(0.0, 0.0)] + (Ends(t, 3) + last);
    PlayBegins(id, v, draws);
    SimulateStep(id, None, v, draws, 0);
    assert draws[1..] == Ends(t, 3) + last;
  }

  /** Draws for `n` calls that end at `t`, each followed by an arrival at zero. */
  function Ends(t: real, n: nat): seq<Draws>
    requires t > 0.0
  {
    if n == 0 then [] else [(t, 0.0)] + Ends(t, n - 1)
  }

  lemma {:induction false} LoadedRun(id: int, cell: Option<Cell>, v: Queue<Msg>, t: real, k: nat, last: seq<Draws>)
    requires Loaded(id, cell, v, t, k) && t > 0.0 && k <= 3 && (last == [] || last == [(t, t)])
    ensures Ready(id, cell, v)
    ensures Simulate(id, cell, v, Ends(t, 3 - k) + last).ending == if last == [] then StillRunning else NoWidth
    decreases 3 - k
  {
    hide Loaded, Ready, Advance;
    assert Ready(id, cell, v) by {
      LoadedReady(id, cell, v, t, k);
    }
    var draws := Ends(t, 3 - k) + last;
    if k < 3 {
      LoadedTurn(id, cell, v, t, k);
      var p := Advance(id, cell, v, (t, 0.0));
      LoadedRun(id, p.cell, p.queue, t, k + 1, last);
      assert draws[0] == (t, 0.0) && draws[1..] == Ends(t, 3 - (k + 1)) + last;
    } else if last != [] {
      LoadedStops(id, cell, v, t);
      assert draws == last;
    }
  }

  lemma LoadedReady(id: int, cell: Option<Cell>, v: Queue<Msg>, t: real, k: nat)
    requires Loaded(id, cell, v, t, k)
    ensures Ready(id, cell, v)
  {
    hide Ready;
  }
}
