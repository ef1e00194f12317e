/**
 The interleaved protocol behaves as if a switch were one indivisible step, taken where the lock of the
 target is obtained: the context of the thread is parked in the fiber it leaves, and the context parked
 in the target becomes that of the thread.
 */
module FiberSimulation {
  import opened Wrappers
  import opened Fibers
  import opened FiberInvariant

  /** A fiber is running on a thread, or parked with the context it will resume with. */
  datatype Slot = Parked(ctx: Context) | Running(pid: int)

  datatype Atomic = Atomic(slots: map<int, Slot>, current: map<int, int>, cpu: map<int, Context>)

  function AtomicInit(): Atomic {
    Atomic(map[], map[], map[])
  }

  function AtomicSwitch(a: Atomic, pid: int, fiber: int): Atomic {
    if pid in a.current && pid in a.cpu && fiber in a.slots && a.slots[fiber].Parked? then
      a.(slots := a.slots[a.current[pid] := Parked(a.cpu[pid])][fiber := Running(pid)],
         current := a.current[pid := fiber],
         cpu := a.cpu[pid := a.slots[fiber].ctx])
    else a
  }

  /** One indivisible step; whether a switch is granted or refused is not decided here. */
  function AtomicNext(a: Atomic, x: Action, granted: bool): Atomic {
    match x
    case RunUser(pid, ctx) => a.(cpu := a.cpu[pid := ctx])
    case Convert(pid) =>
      if pid in a.current then a
      else
        var id := |a.slots| + 1;
        a.(slots := a.slots[id := Running(pid)], current := a.current[pid := id])
    case Create(pid, stack, size, start, parameter) =>
      if pid in a.current && pid in a.cpu then
        a.(slots := a.slots[|a.slots| + 1 := Parked(InitialContext(a.cpu[pid], stack, size, start, parameter))])
      else a
    case Switch(pid, fiber) => if granted then AtomicSwitch(a, pid, fiber) else a
    case Exit(pid) =>
      if pid !in a.current || pid !in a.cpu then a.(cpu := a.cpu - {pid})
      else if |a.current| == 1 then Atomic(map[], map[], a.cpu - {pid})
      else Atomic(a.slots[a.current[pid] := Parked(a.cpu[pid])], a.current - {pid}, a.cpu - {pid})
    case Close => a.(slots := map[], current := map[])
    case _ => a
  }

  // ---------- reading the interleaved state as an atomic one ----------

  /** The fiber a thread counts as running: from the moment it has its lock. */
  function Current(s: System, t: int): int
    requires t in s.threads && s.threads[t].selectedFiber.Some?
  {
    if t in s.calls then s.calls[t].target else s.threads[t].selectedFiber.value
  }

  /** The context a thread counts as having: what it will have when its switch is through. */
  function UserView(s: System, t: int): Context
    requires t in s.cpu
  {
    if t in s.calls && s.calls[t].target in s.fibers then
      var f := s.fibers[s.calls[t].target];
      Context(if s.calls[t].stage < REGS_LOADED then f.registers else s.cpu[t].regs, f.fpu)
    else s.cpu[t]
  }

  /** A fiber its thread has not let go of yet. */
  predicate Leaving(s: System, t: int, f: int) {
    && t in s.calls && t in s.threads && t in s.cpu
    && (var c := s.calls[t];
        (c.stage < RESELECTED && s.threads[t].selectedFiber == Some(f))
          || (RESELECTED <= c.stage < UNLOCKED && c.prev == f))
  }

  /** The context such a fiber is left with: partly saved already, partly still on the CPU. */
  function LeftContext(s: System, t: int, f: int): Context
    requires Leaving(s, t, f) && f in s.fibers
  {
    var stage := s.calls[t].stage;
    Context(if stage < REGS_SAVED then s.cpu[t].regs else s.fibers[f].registers,
            if stage < FPU_SAVED then s.cpu[t].fpu else s.fibers[f].fpu)
  }

  function Saved(f: Fiber): Context {
    Context(f.registers, f.fpu)
  }

  ghost predicate SameKeys(s: System, a: Atomic) {
    a.slots.Keys == s.fibers.Keys && a.current.Keys == s.threads.Keys && a.cpu.Keys == s.cpu.Keys
  }

  ghost predicate Simulates(s: System, a: Atomic) {
    && SameKeys(s, a)
    && (forall t :: t in s.threads ==> s.threads[t].selectedFiber.Some?)
    && (forall t :: t in s.threads ==>
          a.current[t] == Current(s, t) && Current(s, t) in s.fibers && a.slots[Current(s, t)] == Running(t))
    && (forall t :: t in s.cpu ==> a.cpu[t] == UserView(s, t))
    && (forall f :: f in s.fibers && a.slots[f].Running? ==>
          a.slots[f].pid in s.threads && Current(s, a.slots[f].pid) == f)
    && (forall t, f :: Leaving(s, t, f) && f in s.fibers ==> a.slots[f] == Parked(LeftContext(s, t, f)))
    && (forall f :: f in s.fibers && !s.fibers[f].locked ==> a.slots[f] == Parked(Saved(s.fibers[f])))
  }

  lemma InitSimulates()
    ensures Simulates(Init(), AtomicInit())
  {
  }

  lemma CurrentIsHeld(s: System, t: int)
    requires Inv(s) && t in s.threads
    ensures s.threads[t].selectedFiber.Some? && Holds(s, t, Current(s, t)) && Current(s, t) in s.fibers
  {
    if t in s.calls {
      assert CallOk(s, t);
    }
  }

  lemma LeavingIsHeld(s: System, t: int, f: int)
    requires Inv(s) && Leaving(s, t, f)
    ensures Holds(s, t, f) && f in s.fibers && f != Current(s, t)
  {
    assert CallOk(s, t);
  }

  /** What `t` contributes to the atomic reading is the same in both states. */
  ghost predicate SameReading(s: System, s': System, t: int) {
    && (t in s'.threads <==> t in s.threads) && (t in s'.cpu <==> t in s.cpu)
    && (t in s.threads && s.threads[t].selectedFiber.Some? ==>
          s'.threads[t].selectedFiber.Some? && Current(s', t) == Current(s, t))
    && (t in s.cpu ==> UserView(s', t) == UserView(s, t))
    && (forall f :: f in s.fibers && f in s'.fibers && Leaving(s', t, f) ==>
          Leaving(s, t, f) && LeftContext(s', t, f) == LeftContext(s, t, f))
  }

  /** A step of `pid` that writes no saved context but that of `g`, which no other thread holds. */
  lemma OthersSame(s: System, s': System, pid: int, g: int, t: int)
    requires Inv(s) && t != pid && !Holds(s, t, g)
    requires (t in s'.threads <==> t in s.threads) && (t in s'.cpu <==> t in s.cpu) && (t in s'.calls <==> t in s.calls)
    requires t in s.threads ==> s'.threads[t] == s.threads[t]
    requires t in s.cpu ==> s'.cpu[t] == s.cpu[t]
    requires t in s.calls ==> s'.calls[t] == s.calls[t]
    requires forall f :: f in s.fibers && f != g ==> f in s'.fibers && Saved(s'.fibers[f]) == Saved(s.fibers[f])
    ensures SameReading(s, s', t)
  {
    if t in s.calls {
      assert CallOk(s, t);
      assert Holds(s, t, s.calls[t].target);
      forall f | f in s.fibers && f in s'.fibers && Leaving(s', t, f)
        ensures Leaving(s, t, f) && LeftContext(s', t, f) == LeftContext(s, t, f)
      {
        assert Holds(s, t, f);
      }
    }
  }

  /** A step that changes no reading, and unlocks no fiber but one whose context is saved in full. */
  lemma StutterStep(s: System, s': System, a: Atomic)
    requires Simulates(s, a)
    requires s'.fibers.Keys == s.fibers.Keys
    requires forall t :: SameReading(s, s', t)
    requires forall f :: f in s.fibers && !s'.fibers[f].locked ==>
               (!s.fibers[f].locked && Saved(s'.fibers[f]) == Saved(s.fibers[f]))
               || (exists t :: Leaving(s, t, f) && LeftContext(s, t, f) == Saved(s'.fibers[f]))
    ensures Simulates(s', a)
  {
    hide Current, UserView, Leaving, LeftContext, Saved;
    forall t
      ensures t in s'.threads <==> t in s.threads
    {
      assert SameReading(s, s', t);
    }
    forall t
      ensures t in s'.cpu <==> t in s.cpu
    {
      assert SameReading(s, s', t);
    }
    forall t
      ensures t in s.threads && s.threads[t].selectedFiber.Some? ==>
                s'.threads[t].selectedFiber.Some? && Current(s', t) == Current(s, t)
      ensures t in s.cpu ==> UserView(s', t) == UserView(s, t)
    {
      assert SameReading(s, s', t);
    }
    forall t, f | f in s.fibers && Leaving(s', t, f)
      ensures Leaving(s, t, f) && LeftContext(s', t, f) == LeftContext(s, t, f)
    {
      assert SameReading(s, s', t);
    }
    assert s'.threads.Keys == s.threads.Keys && s'.cpu.Keys == s.cpu.Keys;
  }

  /** A change that leaves everything the atomic reading depends on alone. */
  lemma StutterFrame(s: System, s': System, a: Atomic)
    requires Inv(s) && Simulates(s, a)
    requires s'.threads == s.threads && s'.calls == s.calls && s'.cpu == s.cpu && s'.fibers.Keys == s.fibers.Keys
    requires forall f :: f in s.fibers ==>
               s'.fibers[f].locked == s.fibers[f].locked && Saved(s'.fibers[f]) == Saved(s.fibers[f])
    ensures Simulates(s', a)
  {
    hide Inv;
    assert forall t, f :: Leaving(s', t, f) == Leaving(s, t, f);
  }

  lemma RunUserSimulates(s: System, a: Atomic, pid: int, ctx: Context)
    requires Inv(s) && Simulates(s, a) && Enabled(s, RunUser(pid, ctx))
    ensures Simulates(Next(s, RunUser(pid, ctx)), AtomicNext(a, RunUser(pid, ctx), false))
  {
    hide Inv;
    var s' := s.(cpu := s.cpu[pid := ctx]);
    forall t, f | Leaving(s', t, f)
      ensures Leaving(s, t, f) && (f in s.fibers ==> LeftContext(s', t, f) == LeftContext(s, t, f))
    {
    }
    assert UserView(s', pid) == ctx && forall t :: t in s.cpu && t != pid ==> UserView(s', t) == UserView(s, t);
    assert forall t :: t in s.threads && s.threads[t].selectedFiber.Some? ==> Current(s', t) == Current(s, t);
    hide UserView, Leaving, LeftContext, Current;
    assert s'.cpu.Keys == s.cpu.Keys + {pid} && a.cpu[pid := ctx].Keys == a.cpu.Keys + {pid};
    assert Simulates(s', a.(cpu := a.cpu[pid := ctx]));
  }

  /** The ids given out are counted by the slots. */
  lemma SlotCount(s: System, a: Atomic)
    requires Inv(s) && SameKeys(s, a)
    ensures |a.slots| == s.lastFiberId && |a.current| == s.activeThreads
  {
    hide Ownership;
    IdsInterval(s.fibers.Keys, s.lastFiberId);
    assert |a.slots| == |a.slots.Keys| && |a.current| == |a.current.Keys|;
  }

  /** A new fiber that is parked. */
  lemma NewParked(s: System, s': System, a: Atomic, id: int, fiber: Fiber)
    requires Simulates(s, a) && id !in s.fibers && !fiber.locked
    requires s'.fibers == s.fibers[id := fiber] && s'.cpu == s.cpu && s'.threads == s.threads
    requires forall t :: SameReading(s, s', t)
    requires forall t :: !Leaving(s', t, id)
    ensures Simulates(s', a.(slots := a.slots[id := Parked(Saved(fiber))]))
  {
    hide Current, UserView, Leaving, LeftContext, Saved;
    forall t | t in s.threads
      ensures s'.threads[t].selectedFiber.Some? && Current(s', t) == Current(s, t)
    {
      assert SameReading(s, s', t);
    }
    forall t | t in s.cpu
      ensures UserView(s', t) == UserView(s, t)
    {
      assert SameReading(s, s', t);
    }
    forall t, f | f in s.fibers && Leaving(s', t, f)
      ensures Leaving(s, t, f) && LeftContext(s', t, f) == LeftContext(s, t, f)
    {
      assert SameReading(s, s', t);
    }
    assert s'.fibers.Keys == s.fibers.Keys + {id};
    assert a.slots[id := Parked(Saved(fiber))].Keys == a.slots.Keys + {id};
  }

  /** A new fiber that is running on a new thread. */
  lemma NewRunning(s: System, s': System, a: Atomic, id: int, fiber: Fiber, pid: int)
    requires Simulates(s, a) && id !in s.fibers && fiber.locked && pid !in s.threads
    requires s'.fibers == s.fibers[id := fiber] && s'.cpu == s.cpu && s'.threads == s.threads[pid := Thread(Some(id))]
    requires Current(s', pid) == id && (pid in s.cpu ==> UserView(s', pid) == UserView(s, pid))
    requires forall f :: !Leaving(s', pid, f)
    requires forall t :: t != pid ==> SameReading(s, s', t)
    requires forall t :: !Leaving(s', t, id)
    ensures Simulates(s', a.(slots := a.slots[id := Running(pid)], current := a.current[pid := id]))
  {
    hide Current, UserView, Leaving, LeftContext, Saved;
    forall t | t != pid && t in s.threads
      ensures s'.threads[t].selectedFiber.Some? && Current(s', t) == Current(s, t)
    {
      assert SameReading(s, s', t);
    }
    forall t | t != pid && t in s.cpu
      ensures UserView(s', t) == UserView(s, t)
    {
      assert SameReading(s, s', t);
    }
    forall t, f | t != pid && f in s.fibers && Leaving(s', t, f)
      ensures Leaving(s, t, f) && LeftContext(s', t, f) == LeftContext(s, t, f)
    {
      assert SameReading(s, s', t);
    }
    assert s'.fibers.Keys == s.fibers.Keys + {id} && s'.threads.Keys == s.threads.Keys + {pid};
    assert a.slots[id := Running(pid)].Keys == a.slots.Keys + {id};
    assert a.current[pid := id].Keys == a.current.Keys + {pid};
  }

  lemma SimulatesKeys(s: System, a: Atomic)
    requires Simulates(s, a)
    ensures SameKeys(s, a)
  {
  }

  lemma NoSwitchBy(s: System, pid: int)
    requires Inv(s) && pid !in s.threads
    ensures pid !in s.calls
  {
    assert pid in s.calls ==> CallOk(s, pid);
  }

  lemma NotLeavingNew(s: System, t: int, id: int)
    requires Inv(s) && id !in s.fibers
    ensures t in s.calls && t in s.threads ==>
              s.threads[t].selectedFiber != Some(id) && !(RESELECTED <= s.calls[t].stage && s.calls[t].prev == id)
  {
    if t in s.calls {
      assert CallOk(s, t);
    }
  }

  lemma ConvertSimulates(s: System, a: Atomic, pid: int)
    requires Inv(s) && Simulates(s, a) && Enabled(s, Convert(pid))
    ensures Simulates(Next(s, Convert(pid)), AtomicNext(a, Convert(pid), false))
  {
    hide Fls.Fresh, Fls.Valid, Simulates;
    assert SameKeys(s, a) by {
      SimulatesKeys(s, a);
    }
    SlotCount(s, a);
    var s' := Next(s, Convert(pid));
    var id := s.lastFiberId + 1;
    if pid !in s.threads {
      ConvertShape(s, pid);
      assert s'.cpu == s.cpu;
      hide ConvertStep, Ownership, Tables;
      NoSwitchBy(s, pid);
      ConvertReadings(s, s', pid, id);
      NewRunning(s, s', a, id, s'.fibers[id], pid);
    }
  }

  /** To the other threads a new thread on a new fiber makes no difference. */
  lemma ConvertReadings(s: System, s': System, pid: int, id: int)
    requires Inv(s) && pid !in s.threads && id !in s.fibers && id in s'.fibers
    requires s'.fibers == s.fibers[id := s'.fibers[id]] && s'.threads == s.threads[pid := Thread(Some(id))]
    requires s'.cpu == s.cpu && s'.calls == s.calls
    ensures forall t :: t != pid ==> SameReading(s, s', t)
    ensures forall t :: !Leaving(s', t, id)
  {
    forall t | t != pid
      ensures SameReading(s, s', t)
    {
      assert !Holds(s, t, id) by {
        assert t in s.calls ==> CallOk(s, t);
      }
      hide Inv, SameReading;
      OthersSame(s, s', pid, id, t);
    }
    NoSwitchBy(s, pid);
    forall t
      ensures !Leaving(s', t, id)
    {
      NotLeavingNew(s, t, id);
    }
  }

  lemma CreateSimulates(s: System, a: Atomic, x: Action)
    requires Inv(s) && Simulates(s, a) && x.Create? && Enabled(s, x)
    ensures Simulates(Next(s, x), AtomicNext(a, x, false))
  {
    hide Fls.Fresh, Fls.Valid, Simulates;
    assert SameKeys(s, a) by {
      SimulatesKeys(s, a);
    }
    SlotCount(s, a);
    var s' := Next(s, x);
    var id := s.lastFiberId + 1;
    if Registered(s, x.pid) {
      hide Ownership, Tables;
      CreateReadings(s, s', id);
      assert a.cpu[x.pid] == s.cpu[x.pid] by {
        ReadFromCpu(s, a, x.pid);
      }
      NewParked(s, s', a, id, s'.fibers[id]);
    }
  }

  lemma ReadFromCpu(s: System, a: Atomic, pid: int)
    requires Simulates(s, a) && pid in s.cpu && pid !in s.calls
    ensures pid in a.cpu && a.cpu[pid] == s.cpu[pid]
  {
    assert UserView(s, pid) == s.cpu[pid];
  }

  /** To all threads a new parked fiber makes no difference. */
  lemma CreateReadings(s: System, s': System, id: int)
    requires Inv(s) && id !in s.fibers && id in s'.fibers && s'.fibers == s.fibers[id := s'.fibers[id]]
    requires s'.threads == s.threads && s'.cpu == s.cpu && s'.calls == s.calls
    ensures forall t :: SameReading(s, s', t) && !Leaving(s', t, id)
  {
    forall t
      ensures SameReading(s, s', t) && !Leaving(s', t, id)
    {
      NotLeavingNew(s, t, id);
      assert !Holds(s, t, id) by {
        assert t in s.calls ==> CallOk(s, t);
      }
      hide Inv, SameReading;
      OthersSame(s, s', t + 1, id, t);
    }
  }

  /** No thread is on, or on its way to, a fiber that is unlocked. */
  lemma UnlockedIsFree(s: System, fiber: int, t: int)
    requires Inv(s) && fiber in s.fibers && !s.fibers[fiber].locked
    ensures t in s.threads ==> s.threads[t].selectedFiber.Some? && Current(s, t) != fiber
    ensures !Leaving(s, t, fiber) && !Holds(s, t, fiber)
  {
    if t in s.threads {
      CurrentIsHeld(s, t);
    }
    if Leaving(s, t, fiber) {
      LeavingIsHeld(s, t, fiber);
    }
  }

  /** The trylock is the point where the switch happens. */
  lemma GrantSimulates(s: System, a: Atomic, pid: int, fiber: int)
    requires Inv(s) && Simulates(s, a) && Enabled(s, Switch(pid, fiber)) && Granted(s, Switch(pid, fiber))
    ensures fiber in a.slots && a.slots[fiber].Parked?
    ensures Simulates(Next(s, Switch(pid, fiber)), AtomicNext(a, Switch(pid, fiber), true))
  {
    var s' := Next(s, Switch(pid, fiber));
    var prev := Current(s, pid);
    forall t
      ensures t in s.threads ==> s.threads[t].selectedFiber.Some? && Current(s, t) != fiber
      ensures !Leaving(s, t, fiber) && !Holds(s, t, fiber)
    {
      UnlockedIsFree(s, fiber, t);
    }
    forall t | t != pid
      ensures SameReading(s, s', t)
    {
      OthersSame(s, s', pid, fiber, t);
    }
    CurrentIsHeld(s, pid);
    forall t | t != pid && t in s.threads
      ensures Current(s, t) != prev && !Leaving(s, t, prev)
    {
      CurrentIsHeld(s, t);
      if Leaving(s, t, prev) {
        LeavingIsHeld(s, t, prev);
      }
    }
    assert Current(s', pid) == fiber && UserView(s', pid) == Saved(s.fibers[fiber]);
    assert forall f :: Leaving(s', pid, f) <==> f == prev;
    assert LeftContext(s', pid, prev) == s.cpu[pid] == UserView(s, pid);
    assert forall f :: f in s.fibers ==> Saved(s'.fibers[f]) == Saved(s.fibers[f]);
    GrantMaps(s, s', a, pid, fiber);
  }

  lemma GrantMaps(s: System, s': System, a: Atomic, pid: int, fiber: int)
    requires Simulates(s, a) && s'.fibers.Keys == s.fibers.Keys && s'.threads == s.threads && s'.cpu.Keys == s.cpu.Keys
    requires pid in s.threads && pid in s.cpu && fiber in s.fibers && !s.fibers[fiber].locked
             && s.fibers[Current(s, pid)].locked
    requires forall t :: t != pid ==> SameReading(s, s', t)
    requires forall t :: t in s.threads ==> Current(s, t) != fiber
    requires forall t :: !Leaving(s, t, fiber)
    requires forall t :: t != pid && t in s.threads ==>
               Current(s, t) != Current(s, pid) && !Leaving(s, t, Current(s, pid))
    requires forall t, f :: Leaving(s, t, f) ==> t in s.threads
    requires Current(s', pid) == fiber && UserView(s', pid) == Saved(s.fibers[fiber])
    requires forall f :: Leaving(s', pid, f) <==> f == Current(s, pid)
    requires LeftContext(s', pid, Current(s, pid)) == UserView(s, pid)
    requires forall f :: f in s.fibers && f != fiber ==> s'.fibers[f].locked == s.fibers[f].locked
    requires s'.fibers[fiber].locked
    requires forall f :: f in s.fibers ==> Saved(s'.fibers[f]) == Saved(s.fibers[f])
    ensures a.slots[fiber].Parked?
    ensures Simulates(s', AtomicSwitch(a, pid, fiber))
  {
    hide Current, UserView, Leaving, LeftContext, Saved;
    GrantKeys(s, s', a, pid, fiber);
    forall t | t != pid
      ensures t in s.threads && s.threads[t].selectedFiber.Some? ==> Current(s', t) == Current(s, t)
      ensures t in s.cpu ==> UserView(s', t) == UserView(s, t)
    {
      assert SameReading(s, s', t);
    }
    forall t, f | t != pid && f in s.fibers && Leaving(s', t, f)
      ensures Leaving(s, t, f) && LeftContext(s', t, f) == LeftContext(s, t, f)
    {
      assert SameReading(s, s', t);
    }
    hide AtomicSwitch, SameReading;
    var a' := AtomicSwitch(a, pid, fiber);
    assert forall f :: f in s.fibers && f != fiber && f != Current(s, pid) ==> a'.slots[f] == a.slots[f];
    assert forall t :: t in s.threads && t != pid ==> Current(s, t) != fiber && Current(s, t) != Current(s, pid);
  }

  lemma GrantKeys(s: System, s': System, a: Atomic, pid: int, fiber: int)
    requires Simulates(s, a) && pid in s.threads && pid in s.cpu && fiber in s.fibers && !s.fibers[fiber].locked
    requires s'.fibers.Keys == s.fibers.Keys && s'.threads == s.threads && s'.cpu.Keys == s.cpu.Keys
    ensures SameKeys(s', AtomicSwitch(a, pid, fiber))
    ensures a.slots[fiber].Parked?
    ensures AtomicSwitch(a, pid, fiber) ==
            Atomic(a.slots[Current(s, pid) := Parked(UserView(s, pid))][fiber := Running(pid)],
                   a.current[pid := fiber], a.cpu[pid := Saved(s.fibers[fiber])])
  {
    hide Current, UserView, Leaving, LeftContext, Saved;
    var a' := AtomicSwitch(a, pid, fiber);
    assert a'.slots.Keys == a.slots.Keys && a'.current.Keys == a.current.Keys && a'.cpu.Keys == a.cpu.Keys;
  }

  lemma SwitchSimulates(s: System, a: Atomic, pid: int, fiber: int)
    requires Inv(s) && Simulates(s, a) && Enabled(s, Switch(pid, fiber))
    ensures Simulates(Next(s, Switch(pid, fiber)), AtomicNext(a, Switch(pid, fiber), Granted(s, Switch(pid, fiber))))
  {
    hide Inv, Simulates;
    if Granted(s, Switch(pid, fiber)) {
      GrantSimulates(s, a, pid, fiber);
    } else {
      StutterFrame(s, Next(s, Switch(pid, fiber)), a);
    }
  }

  lemma FlsSimulates(s: System, a: Atomic, x: Action)
    requires Inv(s) && Simulates(s, a) && (x.FlsAlloc? || x.FlsFree? || x.FlsSet?) && Enabled(s, x)
    ensures Simulates(Next(s, x), AtomicNext(a, x, false))
  {
    hide Inv, Simulates;
    if FlsReady(s, x.pid) {
      StutterFrame(s, Next(s, x), a);
    }
  }

  lemma CloseSimulates(s: System, a: Atomic)
    requires Inv(s) && Simulates(s, a) && Enabled(s, Close)
    ensures Simulates(Next(s, Close), AtomicNext(a, Close, false))
  {
    hide Inv;
  }

  /** A thread that exits parks its fiber with the context it had. */
  lemma LeaveSimulates(s: System, a: Atomic, pid: int)
    requires Inv(s) && Simulates(s, a) && Enabled(s, Exit(pid)) && Registered(s, pid) && s.activeThreads != 1
    ensures Simulates(Next(s, Exit(pid)), AtomicNext(a, Exit(pid), false))
  {
    hide Fls.Valid;
    SlotCount(s, a);
    var s' := Next(s, Exit(pid));
    var id := Selected(s, pid);
    assert Holds(s, pid, id) && Current(s, pid) == id;
    forall t | t != pid
      ensures SameReading(s, s', t)
    {
      OthersSame(s, s', pid, id, t);
    }
    forall t | t in s.threads && t != pid
      ensures Current(s, t) != id
    {
      CurrentIsHeld(s, t);
    }
    forall t | t != pid
      ensures !Leaving(s', t, id)
    {
      assert SameReading(s, s', t);
      if Leaving(s, t, id) {
        LeavingIsHeld(s, t, id);
      }
    }
    assert forall f :: !Leaving(s', pid, f);
    assert Saved(s'.fibers[id]) == UserView(s, pid);
    assert forall f :: f in s.fibers && f != id ==> s'.fibers[f] == s.fibers[f];
    hide Inv;
    LeaveMaps(s, s', a, pid);
  }

  lemma LeaveMaps(s: System, s': System, a: Atomic, pid: int)
    requires Simulates(s, a) && pid in s.threads && pid in s.cpu && Current(s, pid) in s.fibers
    requires s'.fibers.Keys == s.fibers.Keys && s'.threads.Keys == s.threads.Keys - {pid}
             && s'.cpu.Keys == s.cpu.Keys - {pid}
    requires forall t :: t != pid ==> SameReading(s, s', t)
    requires forall t :: t in s.threads && t != pid ==> Current(s, t) != Current(s, pid)
    requires forall t :: t != pid ==> !Leaving(s', t, Current(s, pid))
    requires forall f :: !Leaving(s', pid, f)
    requires Saved(s'.fibers[Current(s, pid)]) == UserView(s, pid)
    requires forall f :: f in s.fibers && f != Current(s, pid) ==> s'.fibers[f] == s.fibers[f]
    ensures Simulates(s', Atomic(a.slots[a.current[pid] := Parked(a.cpu[pid])], a.current - {pid}, a.cpu - {pid}))
  {
    hide Current, UserView, Leaving, LeftContext, Saved;
    forall t | t != pid && t in s.threads
      ensures s'.threads[t].selectedFiber.Some? && Current(s', t) == Current(s, t)
    {
      assert SameReading(s, s', t);
    }
    forall t | t != pid && t in s.cpu
      ensures UserView(s', t) == UserView(s, t)
    {
      assert SameReading(s, s', t);
    }
    forall t, f | t != pid && f in s.fibers && Leaving(s', t, f)
      ensures Leaving(s, t, f) && LeftContext(s', t, f) == LeftContext(s, t, f)
    {
      assert SameReading(s, s', t);
    }
    assert a.slots[a.current[pid] := Parked(a.cpu[pid])].Keys == a.slots.Keys;
    assert (a.current - {pid}).Keys == a.current.Keys - {pid} && (a.cpu - {pid}).Keys == a.cpu.Keys - {pid};
  }

  lemma StrangerExitSimulates(s: System, a: Atomic, pid: int)
    requires Inv(s) && Simulates(s, a) && Enabled(s, Exit(pid)) && !Registered(s, pid)
    ensures Simulates(Next(s, Exit(pid)), AtomicNext(a, Exit(pid), false))
  {
    NoSwitchBy(s, pid);
    hide Inv;
    assert pid !in a.current && s.(cpu := s.cpu - {pid}) == Next(s, Exit(pid));
    hide ExitStep, Simulates;
    StrangerLeaves(s, a, pid);
  }

  lemma StrangerLeaves(s: System, a: Atomic, pid: int)
    requires Simulates(s, a) && pid !in s.threads && pid !in s.calls
    ensures Simulates(s.(cpu := s.cpu - {pid}), a.(cpu := a.cpu - {pid}))
  {
    var s' := s.(cpu := s.cpu - {pid});
    forall t, f | Leaving(s', t, f)
      ensures Leaving(s, t, f) && (f in s.fibers ==> LeftContext(s', t, f) == LeftContext(s, t, f))
    {
    }
    assert forall t :: t in s'.cpu ==> t in s.cpu && UserView(s', t) == UserView(s, t);
    assert forall t :: t in s.threads && s.threads[t].selectedFiber.Some? ==> Current(s', t) == Current(s, t);
    hide UserView, Leaving, LeftContext, Current;
    assert s'.cpu.Keys == s.cpu.Keys - {pid} && (a.cpu - {pid}).Keys == a.cpu.Keys - {pid};
  }

  lemma LastExitSimulates(s: System, a: Atomic, pid: int)
    requires Inv(s) && Simulates(s, a) && Enabled(s, Exit(pid)) && Registered(s, pid) && s.activeThreads == 1
    ensures Simulates(Next(s, Exit(pid)), AtomicNext(a, Exit(pid), false))
  {
    SlotCount(s, a);
    OnlyThread(s, pid);
    hide Inv;
    var s' := Next(s, Exit(pid));
    var a' := AtomicNext(a, Exit(pid), false);
    assert s'.cpu.Keys == s.cpu.Keys - {pid} && a'.cpu.Keys == a.cpu.Keys - {pid};
  }

  lemma ExitSimulates(s: System, a: Atomic, pid: int)
    requires Inv(s) && Simulates(s, a) && Enabled(s, Exit(pid))
    ensures Simulates(Next(s, Exit(pid)), AtomicNext(a, Exit(pid), false))
  {
    hide Inv, Simulates;
    if !Registered(s, pid) {
      StrangerExitSimulates(s, a, pid);
    } else if s.activeThreads == 1 {
      LastExitSimulates(s, a, pid);
    } else {
      LeaveSimulates(s, a, pid);
    }
  }

  // ---------- the steps after the lock change nothing in the atomic reading ----------

  /** The reading of the thread that takes the step. */
  lemma AdvanceOwnReading(s: System, pid: int)
    requires Inv(s) && pid in s.calls && pid in s.cpu
    ensures SameReading(s, AdvanceStep(s, pid), pid)
  {
    assert CallOk(s, pid);
    if s.calls[pid].stage == LOCKED {
      NeverAlreadyAttached(s, pid);
    }
    hide Inv;
  }

  /** A step of a switch touches no other thread. */
  lemma AdvanceAlone(s: System, pid: int)
    requires Inv(s) && pid in s.calls && pid in s.cpu
    ensures var s' := AdvanceStep(s, pid);
            && (forall t :: t != pid ==>
                  (t in s'.threads <==> t in s.threads) && (t in s'.cpu <==> t in s.cpu)
                    && (t in s'.calls <==> t in s.calls))
            && (forall t :: t != pid && t in s.threads ==> s'.threads[t] == s.threads[t])
            && (forall t :: t != pid && t in s.cpu ==> s'.cpu[t] == s.cpu[t])
            && (forall t :: t != pid && t in s.calls ==> s'.calls[t] == s.calls[t])
  {
    assert CallOk(s, pid);
    hide Inv;
  }

  /** It writes no saved context but that of the fiber it leaves, and unlocks no other. */
  lemma AdvanceWrites(s: System, pid: int)
    requires Inv(s) && pid in s.calls && pid in s.cpu
    ensures var s' := AdvanceStep(s, pid);
            && s'.fibers.Keys == s.fibers.Keys
            && (forall f ::
                  f in s.fibers
                    && (f != s.calls[pid].prev || s.calls[pid].stage >= UNLOCKED || s.calls[pid].stage < RESELECTED)
                  ==> Saved(s'.fibers[f]) == Saved(s.fibers[f]) && s'.fibers[f].locked == s.fibers[f].locked)
            && (s.calls[pid].stage != DETACHED ==>
                  forall f :: f in s.fibers ==> s'.fibers[f].locked == s.fibers[f].locked)
            && (s.calls[pid].stage == DETACHED ==>
                  Saved(s'.fibers[s.calls[pid].prev]) == Saved(s.fibers[s.calls[pid].prev]))
  {
    assert CallOk(s, pid);
    hide Inv;
  }

  /** Only the thread that leaves a fiber writes its saved context, only while it still holds it, and
      saving precedes unlocking. */
  lemma AdvanceSimulates(s: System, a: Atomic, pid: int)
    requires Inv(s) && Simulates(s, a) && pid in s.calls && pid in s.cpu
    ensures Simulates(AdvanceStep(s, pid), a)
  {
    hide AdvanceStep, Saved;
    var s' := AdvanceStep(s, pid);
    var c := s.calls[pid];
    AdvanceOwnReading(s, pid);
    AdvanceAlone(s, pid);
    AdvanceWrites(s, pid);
    assert CallOk(s, pid);
    var g := if RESELECTED <= c.stage < UNLOCKED then c.prev else c.target;
    assert Holds(s, pid, g);
    forall t
      ensures SameReading(s, s', t)
    {
      if t != pid {
        OthersSame(s, s', pid, g, t);
      }
    }
    if c.stage == DETACHED {
      WholeContext(s, pid);
    }
    forall f | f in s.fibers && !s'.fibers[f].locked
           && !(!s.fibers[f].locked && Saved(s'.fibers[f]) == Saved(s.fibers[f]))
      ensures exists t :: Leaving(s, t, f) && LeftContext(s, t, f) == Saved(s'.fibers[f])
    {
      assert Leaving(s, pid, f) && LeftContext(s, pid, f) == Saved(s'.fibers[f]);
    }
    hide Inv, Simulates, SameReading, Leaving, LeftContext;
    StutterStep(s, s', a);
  }

  /** By the time a fiber is unlocked both halves of its context are saved in it. */
  lemma WholeContext(s: System, pid: int)
    requires Inv(s) && pid in s.calls && pid in s.cpu && s.calls[pid].stage == DETACHED
    ensures var prev := s.calls[pid].prev;
            prev in s.fibers && Leaving(s, pid, prev) && LeftContext(s, pid, prev) == Saved(s.fibers[prev])
  {
    assert CallOk(s, pid);
  }

  // ---------- when a switch is granted ----------

  /** Whoever holds a fiber is running it, or has not let go of it yet. */
  lemma HeldIsBusy(s: System, a: Atomic, f: int, t: int)
    requires Inv(s) && Simulates(s, a) && f in s.fibers && Holds(s, t, f)
    ensures a.slots[f] == Running(t) || Leaving(s, t, f)
  {
    hide Fls.Valid;
    assert t in s.calls ==> CallOk(s, t);
    assert Current(s, t) == f ==> a.slots[f] == Running(t);
  }

  /** A switch is refused only for a reason the atomic state knows, but for a thread that is just leaving
      the target. */
  lemma GrantedIff(s: System, a: Atomic, x: Action)
    requires Inv(s) && Simulates(s, a) && x.Switch? && Enabled(s, x)
    ensures Granted(s, x) <==>
            && x.pid in a.current && x.fiber in a.slots && a.slots[x.fiber].Parked?
            && forall t :: !Leaving(s, t, x.fiber)
  {
    hide Fls.Valid, Leaving, Holds;
    if Granted(s, x) {
      forall t
        ensures !Leaving(s, t, x.fiber)
      {
        UnlockedIsFree(s, x.fiber, t);
      }
    } else if x.pid in a.current && x.fiber in a.slots {
      var t :| Holds(s, t, x.fiber);
      HeldIsBusy(s, a, x.fiber, t);
    }
  }

  // ---------- whole runs ----------

  /** Every step of the interleaved protocol is matched by one atomic step, or by none; a switch is granted
      exactly when its target is parked and no thread is still leaving it. */
  lemma NextSimulates(s: System, a: Atomic, x: Action)
    requires Inv(s) && Simulates(s, a) && Enabled(s, x)
    ensures x.Advance? ==> x.pid in s.cpu
    ensures Simulates(Next(s, x), AtomicNext(a, x, Granted(s, x)))
    ensures x.Switch? ==>
              (Granted(s, x) <==>
               && x.pid in a.current && x.fiber in a.slots && a.slots[x.fiber].Parked?
               && forall t :: !Leaving(s, t, x.fiber))
  {
    AdvanceHasContext(s, x);
    if x.Switch? {
      GrantedIff(s, a, x);
    }
    hide Inv, Simulates, ConvertStep, CreateStep, SwitchStep, AdvanceStep, ExitStep, FlsStep;
    match x
    case RunUser(pid, ctx) => RunUserSimulates(s, a, pid, ctx);
    case Convert(pid) => ConvertSimulates(s, a, pid);
    case Create(_, _, _, _, _) => CreateSimulates(s, a, x);
    case Switch(pid, fiber) => SwitchSimulates(s, a, pid, fiber);
    case Advance(pid) => AdvanceSimulates(s, a, pid);
    case FlsAlloc(_) => FlsSimulates(s, a, x);
    case FlsFree(_, _) => FlsSimulates(s, a, x);
    case FlsSet(_, _, _) => FlsSimulates(s, a, x);
    case Exit(pid) => ExitSimulates(s, a, pid);
    case Close => CloseSimulates(s, a);
  }
}
