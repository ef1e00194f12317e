/**
 The books of a cell, kept from nothing but the events it handles and the draws it makes: when the next
 call arrives, which calls are going on and when each ends, and how many calls there were. The cell and
 its pending events agree with them on every run.
 */
module GsmLedger {
  import opened Wrappers
  import opened Calendar
  import opened Gsm
  import opened GsmQueue

  /** `ongoing` gives the time at which the call on a channel ends. */
  datatype Books = Books(next: real, ongoing: map<int, real>, arrived: nat, completed: nat, blocked: nat)

  function Opening(): Books {
    Books(0.0, map[], 0, 0, 0)
  }

  /** INIT draws the first arrival. A call that arrives while 1000 are going on is blocked; any other takes the
      least free channel for the time drawn; either way the next arrival is drawn. A call that ends gives its
      channel back. */
  function Enter(b: Books, t: Turn): Books {
    var e := t.event;
    if e.payload.kind == 0 then Opening().(next := t.first)
    else if e.payload.kind == 20 then
      var b1 := b.(arrived := b.arrived + 1, next := e.priority + t.second);
      if |b.ongoing| == 1000 then b1.(blocked := b.blocked + 1)
      else b1.(ongoing := b.ongoing[LeastFree(b.ongoing.Keys, 0) := e.priority + t.first])
    else b.(completed := b.completed + 1, ongoing := b.ongoing - {e.payload.channel})
  }

  function Entered(b: Books, took: seq<Turn>): Books
    decreases |took|
  {
    if took == [] then b else Entered(Enter(b, took[0]), took[1..])
  }

  predicate CellAgrees(c: Cell, b: Books) {
    && c.busy == b.ongoing.Keys && c.channelCounter == 1000 - |b.ongoing|
    && c.arrivingCalls == b.arrived && c.completeCalls == b.completed && c.blockedOnSetup == b.blocked
    && c.executedEvents == b.arrived + b.completed
  }

  /** The counters and channels of the cell are those of the books, and every pending event is one the books
      expect, at the time they say. */
  ghost predicate Agree(w: World, b: Books) {
    && w.cell.Some? && CellAgrees(w.cell.value, b)
    && forall e :: e in w.queue ==> Expected(w.id, b, e)
  }

  /** The arrival at the next time, or the end of a call that is going on: messages of the cell to itself. */
  ghost predicate Expected(id: int, b: Books, e: Event<Msg>) {
    || e == Event(b.next, Msg(id, id, 20, b.next, -1))
    || (e.payload.channel in b.ongoing
        && (var t := b.ongoing[e.payload.channel]; e == Event(t, Msg(id, id, 21, t, e.payload.channel))))
  }

  // ---------- one turn ----------

  lemma InitAgrees(w: World, t: Turn)
    requires Inv(w) && Possible(w, t) && w.cell.None?
    ensures Agree(Handle(w, t.event, t.first, t.second).0, Enter(Opening(), t))
  {
    assert t.event == FirstEvent(w.id);
    assert w.queue - multiset{t.event} == multiset{};
    var next := Stamped(PackEvent(w.id, START_CALL, t.first, -1));
    assert multiset([next]) == multiset{next};
  }

  /** Beside a pending arrival there are only calls that end. */
  lemma OthersEnd(w: World, e: Event<Msg>)
    requires Inv(w) && w.cell.Some? && e in w.queue && e.payload.kind == START_CALL
    ensures e.priority == e.payload.timestamp
    ensures forall x :: x in w.queue - multiset{e} ==> x in w.queue && x.payload.kind == END_CALL
  {
    hide EndsMatch, Conserved;
    assert EventOk(w.queue, w.id, e);
    var a :| a in w.queue && a.payload.kind == START_CALL && NoArrival(w.queue - multiset{a});
    assert a == e by {
      assert a != e ==> e in w.queue - multiset{a};
    }
    forall x | x in w.queue - multiset{e}
      ensures x in w.queue && x.payload.kind == END_CALL
    {
      assert EventOk(w.queue, w.id, x);
    }
  }

  /** Beside the end of a call there is no other for its channel. */
  lemma OthersElsewhere(w: World, e: Event<Msg>)
    requires Inv(w) && w.cell.Some? && e in w.queue && e.payload.kind == END_CALL
    ensures e.payload.channel in w.cell.value.busy
    ensures forall x :: x in w.queue - multiset{e} ==>
              x in w.queue && (x.payload.kind == START_CALL || x.payload.channel != e.payload.channel)
  {
    hide OneArrival, Conserved;
    assert EventOk(w.queue, w.id, e);
    assert EndFor(w.queue, e.payload.channel, e);
    forall x | x in w.queue - multiset{e}
      ensures x in w.queue && (x.payload.kind == START_CALL || x.payload.channel != e.payload.channel)
    {
      assert EventOk(w.queue, w.id, x);
      assert x != e;
      assert x.payload.kind == END_CALL ==> EndFor(w.queue, x.payload.channel, x);
    }
  }

  /** An arriving call: what the books expect afterwards is what is posted, and what they expected of calls. */
  lemma ArriveAgrees(id: int, c: Cell, b: Books, t: Turn)
    requires CellAgrees(c, b) && t.event.payload.kind == START_CALL
    requires c.channelCounter != 0 ==> LeastFree(c.busy, 0) < 1000
    ensures var r, b' := Arrive(id, Executed(c), t.event.priority, t.first, t.second), Enter(b, t);
            && r.verdict == GoesOn && r.cell.Some? && CellAgrees(r.cell.value, b')
            && (forall x <- r.posts :: Expected(id, b', x))
            && forall x: Event<Msg> :: x.payload.kind == END_CALL && Expected(id, b, x) ==> Expected(id, b', x)
  {
    hide LeastFree;
    assert |b.ongoing.Keys| == |b.ongoing|;
    if c.channelCounter != 0 {
      LeastFreeOutside(c.busy);
      MoreKeys(b.ongoing, LeastFree(c.busy, 0), t.event.priority + t.first);
    }
  }

  lemma MoreKeys(m: map<int, real>, i: int, x: real)
    requires i !in m
    ensures m[i := x].Keys == m.Keys + {i} && |m[i := x]| == |m| + 1
  {
    assert |m[i := x].Keys| == |m.Keys + {i}|;
  }

  lemma LeastFreeOutside(busy: set<int>)
    ensures LeastFree(busy, 0) < 1000 ==> LeastFree(busy, 0) !in busy
  {
  }

  lemma StartAgrees(w: World, b: Books, t: Turn)
    requires Inv(w) && Running(w) && Possible(w, t) && Agree(w, b) && t.event.payload.kind == START_CALL
    ensures Agree(Handle(w, t.event, t.first, t.second).0, Enter(b, t))
  {
    var e, c := t.event, w.cell.value;
    Known(w, e);
    OthersEnd(w, e);
    if c.channelCounter != 0 {
      FreeChannel(c);
    }
    ArriveAgrees(w.id, c, b, t);
    hide Inv, LeastFree, Arrive, Enter, CellAgrees, Expected;
    var r, b' := Arrive(w.id, Executed(c), e.priority, t.first, t.second), Enter(b, t);
    assert Handle(w, e, t.first, t.second).0 == World(w.id, r.cell, w.queue - multiset{e} + multiset(r.posts));
    forall x | x in w.queue - multiset{e} + multiset(r.posts)
      ensures Expected(w.id, b', x)
    {
      assert x in r.posts || x in w.queue - multiset{e};
    }
  }

  lemma EndAgrees(w: World, b: Books, t: Turn)
    requires Inv(w) && Running(w) && Possible(w, t) && Agree(w, b) && t.event.payload.kind == END_CALL
    ensures Agree(Handle(w, t.event, t.first, t.second).0, Enter(b, t))
  {
    var e, c := t.event, w.cell.value;
    Known(w, e);
    OthersElsewhere(w, e);
    assert |c.busy| == |b.ongoing.Keys| == |b.ongoing|;
    hide Inv;
    var b' := Enter(b, t);
    assert b'.ongoing.Keys == b.ongoing.Keys - {e.payload.channel};
    assert |b'.ongoing| == |b'.ongoing.Keys| == |b.ongoing| - 1;
    assert w.queue - multiset{e} + multiset([]) == w.queue - multiset{e};
    forall x | x in w.queue - multiset{e}
      ensures Expected(w.id, b', x)
    {
      assert Expected(w.id, b, x);
    }
  }

  lemma TurnAgrees(w: World, b: Books, t: Turn)
    requires Inv(w) && Running(w) && Possible(w, t) && (w.cell.Some? ==> Agree(w, b))
    requires w.cell.None? ==> b == Opening()
    ensures Agree(Handle(w, t.event, t.first, t.second).0, Enter(b, t))
    ensures Enter(b, t).arrived == b.arrived + Count([t], 20)
    ensures Enter(b, t).completed == b.completed + Count([t], 21)
  {
    hide Agree, Handle, Running;
    Known(w, t.event);
    if w.cell.None? {
      InitAgrees(w, t);
      assert t.event == FirstEvent(w.id);
    } else {
      hide Inv;
      if t.event.payload.kind == START_CALL {
        StartAgrees(w, b, t);
      } else {
        EndAgrees(w, b, t);
      }
    }
    CountOne(t, 20);
    CountOne(t, 21);
  }

  lemma CountOne(t: Turn, kind: int)
    ensures Count([t], kind) == if t.event.payload.kind == kind then 1 else 0
  {
    assert [t][1..] == [];
  }

  // ---------- whole runs ----------

  /** How many events of this kind were handled. */
  function Count(took: seq<Turn>, kind: int): nat {
    if took == [] then 0 else Count(took[1..], kind) + if took[0].event.payload.kind == kind then 1 else 0
  }

  lemma {:induction false} RunAgrees(w: World, b: Books, turns: seq<Turn>)
    requires Inv(w) && Running(w) && (w.cell.Some? ==> Agree(w, b)) && (w.cell.None? ==> b == Opening())
    ensures var w', took := Run(w, turns).0, Took(w, turns);
            && (w'.cell.Some? ==> Agree(w', Entered(b, took)))
            && (w'.cell.None? ==> took == [] && w.cell.None?)
            && Entered(b, took).arrived == b.arrived + Count(took, 20)
            && Entered(b, took).completed == b.completed + Count(took, 21)
    decreases |turns|
  {
    hide Inv, Handle, Running, Agree, Enter;
    if turns != [] {
      var t := turns[0];
      if Possible(w, t) {
        TurnKeeps(w, t.event, t.first, t.second);
        TurnAgrees(w, b, t);
        assert turns == [t] + turns[1..];
        Gsm.FirstTurn(w, t, turns[1..]);
        var (w', v) := Handle(w, t.event, t.first, t.second);
        HasCell(w', Enter(b, t));
        var rest := if v == GoesOn then Took(w', turns[1..]) else [];
        EnteredFirst(b, t, rest);
        if v == GoesOn {
          RunAgrees(w', Enter(b, t), turns[1..]);
        }
        hide Run, Took;
        assert Took(w, turns) == [t] + rest;
      } else {
        RunAgrees(w, b, turns[1..]);
      }
    }
  }

  lemma EnteredFirst(b: Books, t: Turn, rest: seq<Turn>)
    ensures Entered(b, [t] + rest) == Entered(Enter(b, t), rest)
    ensures rest == [] ==> Entered(Enter(b, t), rest) == Enter(b, t)
    ensures forall kind :: Count([t] + rest, kind) == Count(rest, kind) + Count([t], kind)
  {
    hide Enter;
    assert ([t] + rest)[1..] == rest && [t][1..] == [];
  }

  lemma HasCell(w: World, b: Books)
    requires Agree(w, b)
    ensures w.cell.Some?
  {
  }

  /** On every run, with any queue: the cell and its pending events are as the books say, its counters are the
      numbers of events handled, and it is done exactly when it has handled 15000 ends of calls. */
  lemma CellIsBooks(id: int, turns: seq<Turn>)
    ensures var (w, v) := Run(Start(id), turns);
            var took := Took(Start(id), turns);
            && (w.cell.None? ==> took == [])
            && (w.cell.Some? ==>
                  && Agree(w, Entered(Opening(), took))
                  && w.cell.value.arrivingCalls == Count(took, 20) && w.cell.value.completeCalls == Count(took, 21)
                  && w.cell.value.executedEvents == Count(took, 20) + Count(took, 21))
            && (v == Done <==> Count(took, 21) == 15000)
  {
    hide Run, Took, Inv, Entered, Expected;
    StartInv(id);
    SimulationConserves(id, turns);
    RunAgrees(Start(id), Opening(), turns);
  }

  /** The same for the loop over the calendar queue, whose turns are those of the events that come out. */
  lemma LoopIsBooks(id: int, draws: seq<Draws>) returns (turns: seq<Turn>)
    ensures Plays(turns, PlayHandled(id, draws), draws)
    ensures var p := Play(id, draws);
            && Run(Start(id), turns) ==
               (WorldAt(id, p.cell, p.queue), if p.ending == Finished then Done else GoesOn)
            && (p.ending == StillRunning ==> |turns| == |draws|)
            && (p.cell.Some? ==>
                  && Agree(WorldAt(id, p.cell, p.queue), Entered(Opening(), turns))
                  && p.cell.value.arrivingCalls == Count(turns, 20) && p.cell.value.completeCalls == Count(turns, 21)
                  && p.cell.value.executedEvents == Count(turns, 20) + Count(turns, 21))
            && (p.ending == Finished <==> Count(turns, 21) == 15000)
  {
    hide Run, Took, Entered, Expected, Play, PlayHandled, Plays, Start, Agree, Count;
    turns := PlayIsRun(id, draws);
    CellIsBooks(id, turns);
  }
}
