/**
 Whole runs of the fiber protocol: contexts survive, fiber-local storage stays with its fiber.
 */
module FiberRuns {
  import opened Fibers
  import opened FiberInvariant
  import opened FiberSimulation

  /** The atomic run beside an interleaved one: the same actions, each switch granted or refused alike. */
  ghost function AtomicRun(s: System, a: Atomic, actions: seq<Action>): Atomic
    requires Inv(s)
    decreases |actions|
  {
    if actions == [] then a
    else if !Enabled(s, actions[0]) then AtomicRun(s, a, actions[1..])
    else
      NextKeeps(s, actions[0]);
      AtomicRun(Next(s, actions[0]), AtomicNext(a, actions[0], Granted(s, actions[0])), actions[1..])
  }

  /** Every interleaved run simulates the run in which switches are indivisible. */
  lemma {:induction false} RunSimulates(s: System, a: Atomic, actions: seq<Action>)
    requires Inv(s) && Simulates(s, a)
    ensures Simulates(Run(s, actions), AtomicRun(s, a, actions))
    decreases |actions|
  {
    hide Inv, Simulates, Next, AtomicNext, Granted, Enabled;
    if actions != [] {
      if Enabled(s, actions[0]) {
        NextKeeps(s, actions[0]);
        NextSimulates(s, a, actions[0]);
        RunSimulates(Next(s, actions[0]), AtomicNext(a, actions[0], Granted(s, actions[0])), actions[1..]);
      } else {
        RunSimulates(s, a, actions[1..]);
      }
    }
  }

  // ---------- contexts ----------

  /** No action of the run obtains the lock of `f` or ends the process. */
  ghost predicate LeavesParked(s: System, actions: seq<Action>, f: int)
    requires Inv(s)
    decreases |actions|
  {
    actions == [] ||
    (if !Enabled(s, actions[0]) then LeavesParked(s, actions[1..], f)
     else
       NextKeeps(s, actions[0]);
       && !(Granted(s, actions[0]) && actions[0].fiber == f)
       && Next(s, actions[0]).present
       && LeavesParked(Next(s, actions[0]), actions[1..], f))
  }

  lemma {:induction false} ParkedStays(s: System, a: Atomic, actions: seq<Action>, f: int, c: Context)
    requires Inv(s) && Simulates(s, a) && f in a.slots && a.slots[f] == Parked(c) && LeavesParked(s, actions, f)
    ensures var a' := AtomicRun(s, a, actions); f in a'.slots && a'.slots[f] == Parked(c)
    decreases |actions|
  {
    hide Inv, Simulates, Next, Granted, Enabled, AtomicNext;
    if actions != [] {
      if Enabled(s, actions[0]) {
        NextKeeps(s, actions[0]);
        NextSimulates(s, a, actions[0]);
        ParkedStep(s, a, actions[0], f);
        ParkedStays(Next(s, actions[0]), AtomicNext(a, actions[0], Granted(s, actions[0])), actions[1..], f, c);
      } else {
        ParkedStays(s, a, actions[1..], f, c);
      }
    }
  }

  lemma ParkedStep(s: System, a: Atomic, x: Action, f: int)
    requires Inv(s) && Simulates(s, a) && Enabled(s, x) && f in a.slots && a.slots[f].Parked?
    requires !(Granted(s, x) && x.fiber == f)
    requires x.Advance? ==> x.pid in s.cpu
    requires Next(s, x).present
    ensures var a' := AtomicNext(a, x, Granted(s, x)); f in a'.slots && a'.slots[f] == a.slots[f]
  {
    SlotCount(s, a);
    ParkedId(s, a, f);
    if x.Exit? && x.pid in s.threads && s.activeThreads == 1 {
      DisappearsIff(s, x);
      OnlyThread(s, x.pid);
    }
    assert !x.Close?;
    hide Inv, Next, Granted;
    assert forall t :: t in a.current ==> a.current[t] in a.slots && a.slots[a.current[t]] == Running(t);
    hide Simulates;
    AtomicParked(a, x, Granted(s, x), f);
  }

  lemma ParkedId(s: System, a: Atomic, f: int)
    requires Inv(s) && Simulates(s, a) && f in a.slots
    ensures f in s.fibers && f <= s.lastFiberId
  {
    hide Ownership;
    assert a.slots.Keys == s.fibers.Keys;
  }

  /** In the atomic reading a parked fiber stays parked until it is switched to. */
  lemma AtomicParked(a: Atomic, x: Action, granted: bool, f: int)
    requires f in a.slots && a.slots[f].Parked? && f <= |a.slots|
    requires forall t :: t in a.current ==> a.current[t] in a.slots && a.slots[a.current[t]] == Running(t)
    requires !(x.Switch? && granted && x.fiber == f) && !x.Close?
    requires x.Exit? && x.pid in a.current ==> |a.current| != 1
    ensures var a' := AtomicNext(a, x, granted); f in a'.slots && a'.slots[f] == a.slots[f]
  {
  }

  /** No action of the run changes the user context of `u`: it neither runs, exits nor obtains a lock. */
  ghost predicate LeavesAlone(s: System, actions: seq<Action>, u: int)
    requires Inv(s)
    decreases |actions|
  {
    actions == [] ||
    (if !Enabled(s, actions[0]) then LeavesAlone(s, actions[1..], u)
     else
       NextKeeps(s, actions[0]);
       && !(actions[0].RunUser? && actions[0].pid == u) && !(actions[0].Exit? && actions[0].pid == u)
       && !(Granted(s, actions[0]) && actions[0].pid == u)
       && LeavesAlone(Next(s, actions[0]), actions[1..], u))
  }

  lemma {:induction false} ContextStays(s: System, a: Atomic, actions: seq<Action>, u: int)
    requires Inv(s) && Simulates(s, a) && u in a.cpu && LeavesAlone(s, actions, u)
    ensures var a' := AtomicRun(s, a, actions); u in a'.cpu && a'.cpu[u] == a.cpu[u]
    decreases |actions|
  {
    hide Inv, Simulates, Next, Enabled;
    if actions != [] {
      if Enabled(s, actions[0]) {
        NextKeeps(s, actions[0]);
        NextSimulates(s, a, actions[0]);
        ContextStays(Next(s, actions[0]), AtomicNext(a, actions[0], Granted(s, actions[0])), actions[1..], u);
      } else {
        ContextStays(s, a, actions[1..], u);
      }
    }
  }

  /** The action leaves fiber `f` with context `c`: its thread switches away or exits, or it is created. */
  ghost predicate LeftWith(s: System, x: Action, f: int, c: Context)
    requires Inv(s) && Enabled(s, x)
  {
    match x
    case Switch(pid, _) => Granted(s, x) && HasFiber(s, pid) && Selected(s, pid) == f && c == s.cpu[pid]
    case Exit(pid) => HasFiber(s, pid) && Selected(s, pid) == f && s.activeThreads != 1 && c == s.cpu[pid]
    case Create(pid, stack, size, start, parameter) =>
      Registered(s, pid) && f == s.lastFiberId + 1 && c == InitialContext(s.cpu[pid], stack, size, start, parameter)
    case _ => false
  }

  lemma LeftIsParked(s: System, a: Atomic, x: Action, f: int, c: Context)
    requires Inv(s) && Simulates(s, a) && Enabled(s, x) && LeftWith(s, x, f, c)
    ensures var a' := AtomicNext(a, x, Granted(s, x)); f in a'.slots && a'.slots[f] == Parked(c)
  {
    SlotCount(s, a);
    assert x.pid in s.threads && x.pid !in s.calls;
    assert a.cpu[x.pid] == UserView(s, x.pid) == s.cpu[x.pid];
    assert a.current[x.pid] == Current(s, x.pid) == Selected(s, x.pid);
    if x.Switch? {
      GrantSimulates(s, a, x.pid, x.fiber);
    }
    hide Ownership;
  }

  /** Context integrity. A fiber is left with context `c` by a switch, by the exit of its thread or by its
      creation. Any threads then do anything but obtain its lock. When some thread `u` obtains it, then
      whatever the others do before `u` has finished its switch, `u` comes out of it with exactly `c`. */
  lemma ContextIntegrity(before: seq<Action>, x: Action, between: seq<Action>, u: int, f: int, during: seq<Action>,
                         c: Context)
    requires Enabled(Reach(before), x) && LeftWith(Reach(before), x, f, c)
    requires LeavesParked(After(Reach(before), x), between, f)
    requires var s2 := Run(After(Reach(before), x), between);
             Enabled(s2, Switch(u, f)) && Granted(s2, Switch(u, f)) && LeavesAlone(After(s2, Switch(u, f)), during, u)
    ensures var s4 := Run(After(Run(After(Reach(before), x), between), Switch(u, f)), during);
            u in s4.cpu && (u !in s4.calls ==> s4.cpu[u] == c)
  {
    hide Inv, LeavesAlone, LeavesParked, AtomicRun;
    InitInv();
    InitSimulates();
    var s, a := Reach(before), AtomicRun(Init(), AtomicInit(), before);
    RunSimulates(Init(), AtomicInit(), before);
    var s1, a1 := After(s, x), AtomicNext(a, x, Granted(s, x));
    NextSimulates(s, a, x);
    LeftIsParked(s, a, x, f, c);
    var s2, a2 := Run(s1, between), AtomicRun(s1, a1, between);
    RunSimulates(s1, a1, between);
    ParkedStays(s1, a1, between, f, c);
    ResumedWith(s2, a2, u, f, during, c);
  }

  lemma ResumedWith(s: System, a: Atomic, u: int, f: int, during: seq<Action>, c: Context)
    requires Inv(s) && Simulates(s, a) && f in a.slots && a.slots[f] == Parked(c)
    requires Enabled(s, Switch(u, f)) && Granted(s, Switch(u, f)) && LeavesAlone(After(s, Switch(u, f)), during, u)
    ensures var s' := Run(After(s, Switch(u, f)), during);
            u in s'.cpu && (u !in s'.calls ==> s'.cpu[u] == c)
  {
    var y := Switch(u, f);
    assert u in s.threads && u in s.cpu;
    hide Inv, LeavesAlone, AtomicRun;
    var s3, a3 := After(s, y), AtomicNext(a, y, true);
    NextSimulates(s, a, y);
    assert a3.cpu[u] == c;
    RunSimulates(s3, a3, during);
    ContextStays(s3, a3, during, u);
    var s4 := Run(s3, during);
    assert u in s4.cpu ==> AtomicRun(s3, a3, during).cpu[u] == UserView(s4, u);
  }

  /** A switch that has its lock is never stuck: each of its own steps brings it one stage further, and
      the eighth ends it. */
  lemma SwitchAdvances(s: System, u: int)
    requires Inv(s) && u in s.calls
    ensures u in s.cpu && Enabled(s, Advance(u))
    ensures var s' := AdvanceStep(s, u);
            if s.calls[u].stage == REGS_LOADED then u !in s'.calls
            else u in s'.calls && s'.calls[u].stage == s.calls[u].stage + 1 && s'.calls[u].target == s.calls[u].target
  {
    AdvanceHasContext(s, Advance(u));
    assert CallOk(s, u);
    if s.calls[u].stage == LOCKED {
      NeverAlreadyAttached(s, u);
    }
    hide Inv;
  }

  /** Nothing but its own steps moves a switch on. */
  lemma OthersWait(s: System, x: Action, u: int)
    requires Inv(s) && Enabled(s, x) && u in s.calls && x != Advance(u)
    ensures x.Advance? ==> x.pid in s.cpu
    ensures u in Next(s, x).calls && Next(s, x).calls[u] == s.calls[u]
  {
    AdvanceHasContext(s, x);
    hide Inv, Fls.Fresh, Fls.Valid;
  }

  /** How many steps of `u` a list of actions holds. */
  function StepsOf(actions: seq<Action>, u: int): nat {
    if actions == [] then 0 else StepsOf(actions[1..], u) + if actions[0] == Advance(u) then 1 else 0
  }

  /** Whatever other threads do in between, a run with as many steps of `u` as its switch has left ends
      the switch: eight from the trylock on. */
  lemma {:induction false} SwitchEnds(s: System, actions: seq<Action>, u: int) returns (k: nat)
    requires Inv(s) && u in s.calls && StepsOf(actions, u) >= REGS_LOADED + 1 - s.calls[u].stage
    ensures k <= |actions| && u !in Run(s, actions[..k]).calls
    decreases |actions|
  {
    assert s.calls[u].stage <= REGS_LOADED by {
      assert CallOk(s, u);
    }
    hide Inv, Next, Enabled, AdvanceStep;
    var x := actions[0];
    if !Enabled(s, x) {
      SwitchAdvances(s, u);
      k := SwitchEnds(s, actions[1..], u);
      Unroll(s, actions, k);
      k := k + 1;
    } else {
      NextKeeps(s, x);
      if x == Advance(u) {
        SwitchAdvances(s, u);
      } else {
        OthersWait(s, x, u);
      }
      if u !in Next(s, x).calls {
        k := 0;
      } else {
        k := SwitchEnds(Next(s, x), actions[1..], u);
      }
      Unroll(s, actions, k);
      k := k + 1;
    }
  }

  lemma Unroll(s: System, actions: seq<Action>, k: nat)
    requires Inv(s) && k < |actions|
    ensures !Enabled(s, actions[0]) ==> Run(s, actions[..k + 1]) == Run(s, actions[1..][..k])
    ensures Enabled(s, actions[0]) ==> Run(s, actions[..k + 1]) == Run(After(s, actions[0]), actions[1..][..k])
  {
    hide Inv, Next, Enabled;
    assert actions[..k + 1][0] == actions[0] && actions[..k + 1][1..] == actions[1..][..k];
  }

  /** In every reachable state, with the atomic state beside it: a switch is refused exactly when its
      thread is not registered, its target does not exist or is running, or a thread is still leaving it. */
  lemma RefusedIff(before: seq<Action>, x: Action)
    requires x.Switch? && Enabled(Reach(before), x)
    ensures var s, a := Reach(before), AtomicRun(Init(), AtomicInit(), before);
            !Granted(s, x) <==>
            || x.pid !in a.current || x.fiber !in a.slots || a.slots[x.fiber].Running?
            || exists t :: Leaving(s, t, x.fiber)
  {
    hide Inv, Simulates, Granted, Leaving, AtomicRun;
    InitInv();
    InitSimulates();
    RunSimulates(Init(), AtomicInit(), before);
    GrantedIff(Reach(before), AtomicRun(Init(), AtomicInit(), before), x);
  }

  // ---------- fiber-local storage ----------

  /** The storage of a fiber changes only in an FLS call of the thread that has it selected. */
  lemma FlsBelongsToFiber(s: System, x: Action, f: int)
    requires Inv(s) && Enabled(s, x) && f in s.fibers
    requires !((x.FlsAlloc? || x.FlsFree? || x.FlsSet?) && HasFiber(s, x.pid) && Selected(s, x.pid) == f)
    ensures x.Advance? ==> x.pid in s.cpu
    ensures f in Next(s, x).fibers ==> Next(s, x).fibers[f].fls == s.fibers[f].fls
  {
    AdvanceHasContext(s, x);
    hide Ownership, Fls.Fresh;
  }

  /** No action of the run is an FLS call by the thread on `f`, and `f` outlives it. */
  ghost predicate NoFlsCall(s: System, actions: seq<Action>, f: int)
    requires Inv(s)
    decreases |actions|
  {
    actions == [] ||
    (if !Enabled(s, actions[0]) then NoFlsCall(s, actions[1..], f)
     else
       var x := actions[0];
       NextKeeps(s, x);
       && !((x.FlsAlloc? || x.FlsFree? || x.FlsSet?) && HasFiber(s, x.pid) && Selected(s, x.pid) == f)
       && f in Next(s, x).fibers
       && NoFlsCall(Next(s, x), actions[1..], f))
  }

  /** So it survives any number of switches, on any threads. */
  lemma {:induction false} FlsSurvives(s: System, actions: seq<Action>, f: int)
    requires Inv(s) && f in s.fibers && NoFlsCall(s, actions, f)
    ensures f in Run(s, actions).fibers && Run(s, actions).fibers[f].fls == s.fibers[f].fls
    decreases |actions|
  {
    hide Inv, Next;
    if actions != [] {
      if Enabled(s, actions[0]) {
        NextKeeps(s, actions[0]);
        FlsBelongsToFiber(s, actions[0], f);
        FlsSurvives(Next(s, actions[0]), actions[1..], f);
      } else {
        FlsSurvives(s, actions[1..], f);
      }
    }
  }
}
