/**
 What every interleaving keeps: who owns which fiber, and that the tables agree with each other.
 */
module FiberInvariant {
  import opened Wrappers
  import opened Fibers

  /** Thread `t` is selected on `f`, on its way there, or still leaving it. */
  predicate Holds(s: System, t: int, f: int) {
    && t in s.threads
    && (s.threads[t].selectedFiber == Some(f)
        || (t in s.calls && (var c := s.calls[t]; c.target == f || (RESELECTED <= c.stage < UNLOCKED && c.prev == f))))
  }

  /** Thread `t` is the one `f` points back to. */
  predicate Attaches(s: System, t: int, f: int) {
    && t in s.threads
    && (s.threads[t].selectedFiber == Some(f)
        || (t in s.calls && (var c := s.calls[t];
              (c.stage >= ATTACHED && c.target == f) || (RESELECTED <= c.stage < DETACHED && c.prev == f))))
  }

  /** Every thread has a fiber of the table selected. */
  ghost predicate AllSelected(s: System) {
    forall t :: t in s.threads ==> s.threads[t].selectedFiber.Some? && s.threads[t].selectedFiber.value in s.fibers
  }

  /** The tables of the process. */
  ghost predicate Tables(s: System) {
    && (s.present <==> s.threads != map[])
    && (!s.present ==> s.lastFiberId == 0)
    && s.activeThreads == |s.threads|
    && s.lastFiberId >= 0
    && (forall f :: f in s.fibers <==> 1 <= f <= s.lastFiberId)
    && (forall t :: t in s.threads ==> t in s.cpu) && AllSelected(s)
    && (forall f :: f in s.fibers ==> Fls.Valid(s.fibers[f].fls))
  }

  ghost predicate CallOk(s: System, t: int)
    requires t in s.calls
  {
    var c := s.calls[t];
    && t in s.threads && LOCKED <= c.stage <= REGS_LOADED && c.target in s.fibers
    && (c.stage < RESELECTED ==> s.threads[t].selectedFiber != Some(c.target))
    && (c.stage >= RESELECTED ==>
          s.threads[t].selectedFiber == Some(c.target) && c.prev in s.fibers && c.prev != c.target)
  }

  /** Locks and owners. */
  ghost predicate Ownership(s: System) {
    && (forall t :: t in s.calls ==> CallOk(s, t))
    && (forall t, f :: Holds(s, t, f) ==> f in s.fibers && s.fibers[f].locked)
    && (forall f :: f in s.fibers && s.fibers[f].locked ==> exists t :: Holds(s, t, f))
    && (forall t, u, f :: Holds(s, t, f) && Holds(s, u, f) ==> t == u)
    && (forall t, f :: f in s.fibers ==> (s.fibers[f].attachedThread == Some(t) <==> Attaches(s, t, f)))
  }

  ghost predicate Inv(s: System) {
    Tables(s) && Ownership(s)
  }

  lemma TablesSelect(s: System)
    requires Tables(s)
    ensures AllSelected(s) && s.lastFiberId + 1 !in s.fibers
  {
  }

  lemma InitInv()
    ensures Inv(Init())
  {
  }

  /** A thread in the middle of a switch is a thread of the process. */
  lemma AdvanceHasContext(s: System, a: Action)
    requires Inv(s) && Enabled(s, a)
    ensures a.Advance? ==> a.pid in s.cpu
  {
    if a.Advance? {
      assert CallOk(s, a.pid);
    }
  }

  /** A change that touches neither threads nor switches nor the owner fields of any fiber. */
  lemma OwnershipFrame(s: System, s': System)
    requires Ownership(s) && s'.threads == s.threads && s'.calls == s.calls
    requires forall f :: f in s.fibers ==> f in s'.fibers && s'.fibers[f].locked == s.fibers[f].locked
                                           && s'.fibers[f].attachedThread == s.fibers[f].attachedThread
    requires forall f :: f in s'.fibers && f !in s.fibers ==>
               !s'.fibers[f].locked && s'.fibers[f].attachedThread == None
    requires AllSelected(s)
    ensures Ownership(s')
  {
    assert forall t, f :: Holds(s', t, f) == Holds(s, t, f) && Attaches(s', t, f) == Attaches(s, t, f);
    assert forall t :: t in s.calls ==> CallOk(s, t);
    forall t, f | Attaches(s', t, f)
      ensures f in s.fibers
    {
      if t in s.calls {
        assert CallOk(s, t);
      }
    }
  }

  /** A change that touches no owner field of any fiber, and nobody's ownership. */
  lemma SameOwners(s: System, s': System)
    requires Ownership(s) && s'.fibers.Keys == s.fibers.Keys
    requires forall f :: f in s.fibers ==> s'.fibers[f].locked == s.fibers[f].locked
                                           && s'.fibers[f].attachedThread == s.fibers[f].attachedThread
    requires forall t :: t in s'.calls ==> CallOk(s', t)
    requires forall t, f :: Holds(s', t, f) == Holds(s, t, f) && Attaches(s', t, f) == Attaches(s, t, f)
    ensures Ownership(s')
  {
    hide Holds, Attaches, CallOk;
  }

  lemma RunUserKeeps(s: System, pid: int, ctx: Context)
    requires Inv(s) && Enabled(s, RunUser(pid, ctx))
    ensures Inv(Next(s, RunUser(pid, ctx)))
  {
    hide Ownership;
    OwnershipFrame(s, Next(s, RunUser(pid, ctx)));
  }

  /** A thread that converts appears together with one new fiber, which it owns. */
  lemma ConvertKeeps(s: System, pid: int)
    requires Inv(s) && Enabled(s, Convert(pid))
    ensures Inv(Next(s, Convert(pid)))
  {
    ConvertShape(s, pid);
    ConvertTables(s, pid);
    hide Tables, Ownership, ConvertStep;
    if pid !in s.threads {
      var s', id := Next(s, Convert(pid)), s.lastFiberId + 1;
      TablesSelect(s);
      ConvertOwnership(s, s', pid, id, s'.fibers[id]);
    }
  }

  lemma ConvertTables(s: System, pid: int)
    requires Inv(s) && Enabled(s, Convert(pid))
    ensures Tables(Next(s, Convert(pid)))
  {
    hide Ownership, Fls.Fresh, Fls.Valid;
    ConvertShape(s, pid);
    if pid !in s.threads {
      var s' := Next(s, Convert(pid));
      assert Fls.Valid(s'.fibers[s.lastFiberId + 1].fls);
      assert s'.lastFiberId == s.lastFiberId + 1 && s'.activeThreads == s.activeThreads + 1 && s'.present;
      hide Tables, ConvertStep;
      MoreTables(s, s', pid, s'.fibers[s.lastFiberId + 1]);
    }
  }

  lemma MoreTables(s: System, s': System, pid: int, fiber: Fiber)
    requires Tables(s) && pid !in s.threads && pid in s.cpu && Fls.Valid(fiber.fls)
    requires s'.lastFiberId == s.lastFiberId + 1 && s'.activeThreads == s.activeThreads + 1 && s'.present
    requires s'.cpu == s.cpu && s'.threads == s.threads[pid := Thread(Some(s.lastFiberId + 1))]
    requires s'.fibers == s.fibers[s.lastFiberId + 1 := fiber]
    ensures Tables(s')
  {
    hide Fls.Valid;
    OneMoreThread(s.threads, pid, Thread(Some(s.lastFiberId + 1)));
  }

  lemma OneMoreThread(threads: map<int, Thread>, pid: int, t: Thread)
    requires pid !in threads
    ensures |threads[pid := t]| == |threads| + 1 && threads[pid := t] != map[]
  {
    assert threads[pid := t].Keys == threads.Keys + {pid};
  }

  lemma ConvertShape(s: System, pid: int)
    requires Inv(s) && Enabled(s, Convert(pid))
    ensures pid in s.threads ==> Next(s, Convert(pid)) == s
    ensures pid !in s.threads ==>
              var s' := Next(s, Convert(pid));
              && s'.threads == s.threads[pid := Thread(Some(s.lastFiberId + 1))] && s'.calls == s.calls
              && s.lastFiberId + 1 in s'.fibers
                 && s'.fibers == s.fibers[s.lastFiberId + 1 := s'.fibers[s.lastFiberId + 1]]
              && s'.fibers[s.lastFiberId + 1].locked && s'.fibers[s.lastFiberId + 1].attachedThread == Some(pid)
  {
    hide Ownership, Fls.Fresh, Fls.Valid;
    if !s.present {
      assert forall f :: f !in s.fibers;
      assert s.fibers == map[];
    }
  }

  lemma ConvertOwnership(s: System, s': System, pid: int, id: int, fiber: Fiber)
    requires Ownership(s) && AllSelected(s)
    requires pid !in s.threads && id !in s.fibers && fiber.locked && fiber.attachedThread == Some(pid)
    requires s'.threads == s.threads[pid := Thread(Some(id))] && s'.calls == s.calls
    requires s'.fibers == s.fibers[id := fiber]
    ensures Ownership(s')
  {
    assert forall t :: t in s.calls ==> CallOk(s, t);
    assert forall t :: t in s.calls ==> CallOk(s', t);
    assert forall t, f :: Holds(s', t, f) == (Holds(s, t, f) || (t == pid && f == id));
    assert forall t, f :: Attaches(s', t, f) == (Attaches(s, t, f) || (t == pid && f == id));
    assert Holds(s', pid, id);
    AttachedExists(s);
  }

  /** What is held or attached is a fiber of the table. */
  lemma AttachedExists(s: System)
    requires Ownership(s) && AllSelected(s)
    ensures forall t, f :: Attaches(s, t, f) ==> f in s.fibers
  {
    forall t, f | Attaches(s, t, f)
      ensures f in s.fibers
    {
      if t in s.calls {
        assert CallOk(s, t);
      }
    }
  }

  lemma CreateKeeps(s: System, a: Action)
    requires Inv(s) && a.Create? && Enabled(s, a)
    ensures Inv(Next(s, a))
  {
    hide Ownership, Fls.Fresh, Fls.Valid;
    OwnershipFrame(s, Next(s, a));
  }

  /** An unlocked fiber has no owner, so the thread that locks it becomes the only one. */
  lemma GrantKeeps(s: System, pid: int, fiber: int)
    requires Inv(s) && Enabled(s, Switch(pid, fiber)) && Granted(s, Switch(pid, fiber))
    ensures Inv(Next(s, Switch(pid, fiber)))
  {
    hide Fls.Valid;
    var s' := Next(s, Switch(pid, fiber));
    assert forall t :: t in s.calls ==> CallOk(s, t);
    assert Holds(s, pid, s.threads[pid].selectedFiber.value);
    assert forall t :: !Holds(s, t, fiber);
    assert forall t, f :: Holds(s', t, f) == (Holds(s, t, f) || (t == pid && f == fiber));
    assert forall t, f :: Attaches(s', t, f) == Attaches(s, t, f);
    assert Holds(s', pid, fiber);
  }

  lemma SwitchKeeps(s: System, pid: int, fiber: int)
    requires Inv(s) && Enabled(s, Switch(pid, fiber))
    ensures Inv(Next(s, Switch(pid, fiber)))
  {
    hide Fls.Valid;
    var a := Switch(pid, fiber);
    if Granted(s, a) {
      GrantKeeps(s, pid, fiber);
    } else {
      hide Ownership;
      OwnershipFrame(s, Next(s, a));
    }
  }

  lemma FlsKeeps(s: System, a: Action)
    requires Inv(s) && (a.FlsAlloc? || a.FlsFree? || a.FlsSet?) && Enabled(s, a)
    ensures Inv(Next(s, a))
  {
    hide Ownership, FlsStep;
    if FlsReady(s, a.pid) {
      var area := FlsArea(s, a);
      OwnershipFrame(s, Next(s, a));
    } else {
      assert FlsStep(s, a) == s by {
        NotReady(s, a);
      }
    }
  }

  lemma NotReady(s: System, a: Action)
    requires (a.FlsAlloc? || a.FlsFree? || a.FlsSet?) && !FlsReady(s, a.pid)
    ensures FlsStep(s, a) == s
  {
  }

  /** An FLS call gives the selected fiber another valid area. */
  lemma FlsArea(s: System, a: Action) returns (area: Fls.Area)
    requires (a.FlsAlloc? || a.FlsFree? || a.FlsSet?) && FlsReady(s, a.pid)
    ensures Fls.Valid(area) && FlsStep(s, a) == WithFls(s, a.pid, area)
  {
    var old_area := s.fibers[Selected(s, a.pid)].fls;
    area := match a
      case FlsAlloc(_) => Fls.Alloc(old_area).1
      case FlsFree(_, index) => Fls.Free(old_area, index).1
      case FlsSet(_, index, value) => Fls.Set(old_area, index, value)
      case _ => old_area;
  }

  lemma CloseKeeps(s: System)
    requires Inv(s) && Enabled(s, Close)
    ensures Inv(Next(s, Close))
  {
    var s' := Next(s, Close);
    assert forall t, f :: !Holds(s', t, f) && !Attaches(s', t, f);
  }

  lemma ExitKeeps(s: System, pid: int)
    requires Inv(s) && Enabled(s, Exit(pid))
    ensures Inv(Next(s, Exit(pid)))
  {
    var s' := Next(s, Exit(pid));
    if !Registered(s, pid) {
      assert forall t :: t in s.calls ==> CallOk(s, t);
      assert forall t, f :: Holds(s', t, f) == Holds(s, t, f) && Attaches(s', t, f) == Attaches(s, t, f);
    } else if s.activeThreads == 1 {
      OnlyThread(s, pid);
      assert forall t, f :: !Holds(s', t, f) && !Attaches(s', t, f);
    } else {
      LeaveKeeps(s, pid);
    }
  }

  /** A thread that is not the last one leaves its fiber unlocked and detached. */
  lemma LeaveKeeps(s: System, pid: int)
    requires Inv(s) && Enabled(s, Exit(pid)) && Registered(s, pid) && s.activeThreads != 1
    ensures Inv(Next(s, Exit(pid)))
  {
    LeaveTables(s, pid);
    var id := Selected(s, pid);
    var s' := Next(s, Exit(pid));
    assert s'.fibers == s.fibers[id := s'.fibers[id]] && s'.calls == s.calls && s'.threads == s.threads - {pid};
    hide ExitStep;
    LeaveOwnership(s, s', pid, s'.fibers[id]);
  }

  lemma LeaveOwnership(s: System, s': System, pid: int, fiber: Fiber)
    requires Ownership(s) && AllSelected(s) && pid in s.threads && pid !in s.calls
    requires !fiber.locked && fiber.attachedThread == None
    requires s'.threads == s.threads - {pid} && s'.calls == s.calls
    requires s'.fibers == s.fibers[s.threads[pid].selectedFiber.value := fiber]
    ensures Ownership(s')
  {
    var id := s.threads[pid].selectedFiber.value;
    assert forall t :: t in s.calls ==> CallOk(s, t);
    assert Holds(s, pid, id) && Attaches(s, pid, id);
    assert forall f :: Holds(s, pid, f) <==> f == id;
    assert forall t, f :: Holds(s', t, f) == (Holds(s, t, f) && t != pid);
    assert forall t, f :: Attaches(s', t, f) == (Attaches(s, t, f) && t != pid);
  }

  lemma LeaveTables(s: System, pid: int)
    requires Tables(s) && Enabled(s, Exit(pid)) && Registered(s, pid) && s.activeThreads != 1
    ensures Tables(Next(s, Exit(pid)))
  {
    var s' := Next(s, Exit(pid));
    assert s'.threads.Keys == s.threads.Keys - {pid};
    assert |s'.threads| == |s.threads| - 1;
  }

  /** The last registered thread is the only one, so no switch is in progress when it exits. */
  lemma OnlyThread(s: System, pid: int)
    requires Inv(s) && pid in s.threads && s.activeThreads == 1
    ensures s.threads.Keys == {pid}
    ensures pid !in s.calls ==> s.calls == map[]
  {
    var others := s.threads.Keys - {pid};
    assert |s.threads.Keys| == 1;
    assert |others| == 0;
    assert others == {};
    forall t | t in s.calls
      ensures t == pid
    {
      assert CallOk(s, t);
      assert t !in others;
    }
  }

  // ---------- the steps of a switch ----------

  /** Attached fibers are held. */
  lemma AttachedIsHeld(s: System, t: int, f: int)
    requires Inv(s) && Attaches(s, t, f)
    ensures Holds(s, t, f)
  {
    if t in s.calls {
      assert CallOk(s, t);
    }
  }

  /** A target whose lock was just taken points to no thread: the leak on the second half of the test in
      `do_SwitchToFiber` does not happen. */
  lemma NeverAlreadyAttached(s: System, pid: int)
    requires Inv(s) && pid in s.calls && s.calls[pid].stage == LOCKED
    ensures s.calls[pid].target in s.fibers && s.fibers[s.calls[pid].target].attachedThread == None
  {
    var f := s.calls[pid].target;
    assert CallOk(s, pid);
    assert Holds(s, pid, f);
    if s.fibers[f].attachedThread.Some? {
      var t := s.fibers[f].attachedThread.value;
      assert Attaches(s, t, f);
      AttachedIsHeld(s, t, f);
    }
  }

  lemma AttachOwns(s: System, pid: int)
    requires Inv(s) && pid in s.calls && pid in s.cpu && s.calls[pid].stage == LOCKED
    ensures Ownership(AdvanceStep(s, pid))
  {
    hide Fls.Valid;
    NeverAlreadyAttached(s, pid);
    var s' := AdvanceStep(s, pid);
    var target := s.calls[pid].target;
    assert forall t :: t in s.calls ==> CallOk(s, t);
    assert forall t, f :: Holds(s', t, f) == Holds(s, t, f);
    assert forall t, f :: Attaches(s', t, f) == (Attaches(s, t, f) || (t == pid && f == target));
    assert forall t :: !Attaches(s, t, target);
  }

  lemma ReselectOwns(s: System, pid: int)
    requires Inv(s) && pid in s.calls && pid in s.cpu && s.calls[pid].stage == ATTACHED
    ensures Ownership(AdvanceStep(s, pid))
  {
    hide Fls.Valid;
    var s' := AdvanceStep(s, pid);
    assert forall t :: t in s.calls ==> CallOk(s, t);
    assert forall t, f :: Holds(s', t, f) == Holds(s, t, f);
    assert forall t, f :: Attaches(s', t, f) == Attaches(s, t, f);
  }

  lemma SaveOwns(s: System, pid: int)
    requires Inv(s) && pid in s.calls && pid in s.cpu
    requires s.calls[pid].stage == RESELECTED || s.calls[pid].stage == REGS_SAVED
    ensures Ownership(AdvanceStep(s, pid))
  {
    hide Fls.Valid;
    var s' := AdvanceStep(s, pid);
    assert forall t :: t in s.calls ==> CallOk(s, t);
    assert forall t :: t in s'.calls ==> CallOk(s', t);
    assert forall t, f :: Holds(s', t, f) == Holds(s, t, f) && Attaches(s', t, f) == Attaches(s, t, f);
    SameOwners(s, s');
  }

  lemma DetachOwns(s: System, pid: int)
    requires Inv(s) && pid in s.calls && pid in s.cpu && s.calls[pid].stage == FPU_SAVED
    ensures Ownership(AdvanceStep(s, pid))
  {
    hide Fls.Valid;
    var s' := AdvanceStep(s, pid);
    var prev := s.calls[pid].prev;
    assert forall t :: t in s.calls ==> CallOk(s, t);
    assert Attaches(s, pid, prev);
    assert forall t, f :: Holds(s', t, f) == Holds(s, t, f);
    assert forall t, f :: Attaches(s', t, f) == (Attaches(s, t, f) && !(t == pid && f == prev));
  }

  lemma UnlockOwns(s: System, pid: int)
    requires Inv(s) && pid in s.calls && pid in s.cpu && s.calls[pid].stage == DETACHED
    ensures Ownership(AdvanceStep(s, pid))
  {
    hide Fls.Valid;
    var s' := AdvanceStep(s, pid);
    var prev := s.calls[pid].prev;
    assert forall t :: t in s.calls ==> CallOk(s, t);
    assert Holds(s, pid, prev);
    assert forall t, f :: Holds(s', t, f) == (Holds(s, t, f) && !(t == pid && f == prev));
    assert forall t, f :: Attaches(s', t, f) == Attaches(s, t, f);
  }

  lemma LoadOwns(s: System, pid: int)
    requires Inv(s) && pid in s.calls && pid in s.cpu && s.calls[pid].stage >= UNLOCKED
    ensures Ownership(AdvanceStep(s, pid))
  {
    hide Fls.Valid;
    var s' := AdvanceStep(s, pid);
    assert forall t :: t in s.calls ==> CallOk(s, t);
    assert forall t :: t in s'.calls ==> CallOk(s', t);
    assert forall t, f :: Holds(s', t, f) == Holds(s, t, f) && Attaches(s', t, f) == Attaches(s, t, f);
    SameOwners(s, s');
  }

  /** No step of a switch adds or removes a fiber or a thread. */
  lemma AdvanceTables(s: System, pid: int)
    requires Inv(s) && pid in s.calls && pid in s.cpu
    ensures Tables(AdvanceStep(s, pid))
  {
    assert CallOk(s, pid);
    hide Ownership, Fls.Valid;
    assert AdvanceStep(s, pid).threads.Keys == s.threads.Keys;
  }

  lemma AdvanceKeeps(s: System, pid: int)
    requires Inv(s) && pid in s.calls && pid in s.cpu
    ensures Inv(AdvanceStep(s, pid))
  {
    AdvanceTables(s, pid);
    hide Holds, Attaches, Tables, AdvanceStep;
    assert CallOk(s, pid);
    var stage := s.calls[pid].stage;
    if stage == LOCKED {
      AttachOwns(s, pid);
    } else if stage == ATTACHED {
      ReselectOwns(s, pid);
    } else if stage <= REGS_SAVED {
      SaveOwns(s, pid);
    } else if stage == FPU_SAVED {
      DetachOwns(s, pid);
    } else if stage == DETACHED {
      UnlockOwns(s, pid);
    } else {
      LoadOwns(s, pid);
    }
  }

  // ---------- whole runs ----------

  lemma NextKeeps(s: System, a: Action)
    requires Inv(s) && Enabled(s, a)
    ensures (a.Advance? ==> a.pid in s.cpu) && Inv(Next(s, a))
  {
    AdvanceHasContext(s, a);
    hide Inv, ConvertStep, CreateStep, SwitchStep, AdvanceStep, ExitStep, FlsStep;
    match a
    case RunUser(pid, ctx) => RunUserKeeps(s, pid, ctx);
    case Convert(pid) => ConvertKeeps(s, pid);
    case Create(_, _, _, _, _) => CreateKeeps(s, a);
    case Switch(pid, fiber) => SwitchKeeps(s, pid, fiber);
    case Advance(pid) => AdvanceKeeps(s, pid);
    case FlsAlloc(_) => FlsKeeps(s, a);
    case FlsFree(_, _) => FlsKeeps(s, a);
    case FlsSet(_, _, _) => FlsKeeps(s, a);
    case Exit(pid) => ExitKeeps(s, pid);
    case Close => CloseKeeps(s);
  }

  /** The state after the enabled actions of a list; an action that is not enabled does not happen. */
  ghost function Run(s: System, actions: seq<Action>): (s': System)
    requires Inv(s)
    ensures Inv(s')
    decreases |actions|
  {
    if actions == [] then s
    else if !Enabled(s, actions[0]) then Run(s, actions[1..])
    else
      NextKeeps(s, actions[0]);
      Run(Next(s, actions[0]), actions[1..])
  }

  /** The state after one enabled action. */
  ghost function After(s: System, a: Action): (s': System)
    requires Inv(s) && Enabled(s, a)
    ensures Inv(s')
  {
    NextKeeps(s, a);
    Next(s, a)
  }

  /** The states a process can get into. */
  ghost function Reach(actions: seq<Action>): (s: System)
    ensures Inv(s)
  {
    InitInv();
    Run(Init(), actions)
  }

  /** Under every interleaving: a fiber has at most one owner, its lock is held exactly while some thread
      owns it, and the two pointers between a resting thread and its fiber are inverse to each other. */
  lemma OneOwner(actions: seq<Action>)
    ensures var s := Reach(actions);
            && (forall t, u, f :: Holds(s, t, f) && Holds(s, u, f) ==> t == u)
            && (forall f :: f in s.fibers ==> (s.fibers[f].locked <==> exists t :: Holds(s, t, f)))
            && (forall t, f :: t in s.threads && t !in s.calls && f in s.fibers ==>
                  (s.threads[t].selectedFiber == Some(f) <==> s.fibers[f].attachedThread == Some(t)))
  {
    var s := Reach(actions);
    forall t, f | t in s.threads && t !in s.calls && f in s.fibers
      ensures s.threads[t].selectedFiber == Some(f) <==> s.fibers[f].attachedThread == Some(t)
    {
      assert Attaches(s, t, f) <==> s.threads[t].selectedFiber == Some(f);
    }
  }

  lemma IdsInterval(ids: set<int>, n: int)
    requires n >= 0 && forall f :: f in ids <==> 1 <= f <= n
    ensures |ids| == n
  {
    if n == 0 {
      assert forall f :: f !in ids;
      assert ids == {};
    } else {
      assert forall f :: f in ids - {n} <==> 1 <= f <= n - 1;
      IdsInterval(ids - {n}, n - 1);
    }
  }

  /** The counters agree with the tables: the table of fibers has as many entries as ids were given out,
      which is the size of the array the /proc directory is built in. */
  lemma TablesAgree(actions: seq<Action>)
    ensures var s := Reach(actions);
            && s.activeThreads == |s.threads| && s.lastFiberId == |s.fibers|
            && (forall f :: f in s.fibers <==> 1 <= f <= s.lastFiberId)
            && (s.present <==> s.threads != map[])
            && (forall t :: Registered(s, t) ==> HasFiber(s, t))
  {
    var s := Reach(actions);
    IdsInterval(s.fibers.Keys, s.lastFiberId);
  }

  /** A process disappears exactly when its last registered thread exits or the device is closed. */
  lemma DisappearsIff(s: System, a: Action)
    requires Inv(s) && Enabled(s, a) && s.present
    ensures a.Advance? ==> a.pid in s.cpu
    ensures !Next(s, a).present <==> a.Close? || (a.Exit? && s.threads.Keys == {a.pid})
  {
    AdvanceHasContext(s, a);
    if a.Exit? && a.pid in s.threads && s.activeThreads == 1 {
      OnlyThread(s, a.pid);
    }
    if a.Exit? && s.threads.Keys == {a.pid} {
      assert |s.threads.Keys| == 1;
    }
    if a.Advance? {
      hide AdvanceStep;
      AdvancePresent(s, a.pid);
    }
  }

  lemma AdvancePresent(s: System, pid: int)
    requires pid in s.calls && pid in s.cpu
    ensures AdvanceStep(s, pid).present == s.present
  {
  }
}
