/**
 A switch that no other thread comes in between of, as one step, and the proof that the nine steps of
 `Fibers` add up to it.
 */
module FiberCalls {
  import opened Wrappers
  import opened Fibers
  import opened FiberInvariant

  /** What `do_SwitchToFiber` does and answers when it runs alone. */
  function Uninterrupted(s: System, pid: int, fiber: int): (System, int)
    requires pid in s.cpu
  {
    if !HasFiber(s, pid) || fiber !in s.fibers then (s, -1)
    else
      var f := s.fibers[fiber];
      if f.locked then
        (s.(fibers := s.fibers[fiber := f.(failedActivationCounter := f.failedActivationCounter + 1)]), -1)
      else
        var prev, ctx := Selected(s, pid), s.cpu[pid];
        var taken := s.fibers[fiber := f.(locked := true, attachedThread := Some(pid),
                     activationCounter := f.activationCounter + 1)];
        var left := taken[prev].(registers := ctx.regs, fpu := ctx.fpu, attachedThread := None, locked := false);
        (s.(fibers := taken[prev := left], threads := s.threads[pid := Thread(Some(fiber))],
            cpu := s.cpu[pid := Context(f.registers, f.fpu)]), 0)
  }

  function Advances(pid: int, n: nat): seq<Action> {
    if n == 0 then [] else [Advance(pid)] + Advances(pid, n - 1)
  }

  lemma RunAdvances(s: System, pid: int, n: nat)
    requires Inv(s) && n > 0
    ensures pid in s.calls ==>
              Enabled(s, Advance(pid)) && Run(s, Advances(pid, n)) == Run(After(s, Advance(pid)), Advances(pid, n - 1))
    ensures pid !in s.calls ==> Run(s, Advances(pid, n)) == Run(s, Advances(pid, n - 1))
  {
    hide Inv, Next;
    assert Advances(pid, n)[0] == Advance(pid) && Advances(pid, n)[1..] == Advances(pid, n - 1);
  }

  lemma {:induction false} Idles(s: System, pid: int, n: nat)
    requires Inv(s) && pid !in s.calls
    ensures Run(s, Advances(pid, n)) == s
  {
    hide Inv, Next, Enabled;
    if n > 0 {
      RunAdvances(s, pid, n);
      Idles(s, pid, n - 1);
    }
  }

  // ---------- the nine steps ----------

  /** After the trylock, the attaching and the reselection. */
  function Entered(s: System, pid: int, fiber: int): System
    requires HasFiber(s, pid) && fiber in s.fibers
  {
    var f := s.fibers[fiber];
    s.(fibers := s.fibers[fiber := f.(locked := true, attachedThread := Some(pid),
      activationCounter := f.activationCounter + 1)],
       threads := s.threads[pid := Thread(Some(fiber))],
       calls := s.calls[pid := Switching(RESELECTED, fiber, Selected(s, pid))])
  }

  /** After the fiber left behind is saved, detached and unlocked. */
  function Left(s: System, pid: int, prev: int): System
    requires pid in s.cpu && pid in s.calls && prev in s.fibers
  {
    var ctx := s.cpu[pid];
    s.(fibers := s.fibers[prev := s.fibers[prev].(registers := ctx.regs, fpu := ctx.fpu, attachedThread := None,
      locked := false)],
       calls := s.calls[pid := s.calls[pid].(stage := UNLOCKED)])
  }

  function Loaded(s: System, pid: int, fiber: int): System
    requires fiber in s.fibers
  {
    s.(cpu := s.cpu[pid := Context(s.fibers[fiber].registers, s.fibers[fiber].fpu)], calls := s.calls - {pid})
  }

  lemma Enter(s: System, pid: int, fiber: int)
    requires HasFiber(s, pid) && fiber in s.fibers && pid in s.cpu
    requires !s.fibers[fiber].locked && s.fibers[fiber].attachedThread == None
    ensures var s0 := SwitchStep(s, pid, fiber);
            && pid in s0.calls && pid in s0.cpu
            && (var s1 := AdvanceStep(s0, pid);
                pid in s1.calls && pid in s1.cpu && AdvanceStep(s1, pid) == Entered(s, pid, fiber))
  {
    var s1 := AdvanceStep(SwitchStep(s, pid, fiber), pid);
    var s2, e := AdvanceStep(s1, pid), Entered(s, pid, fiber);
    assert s2.fibers == e.fibers && s2.calls == e.calls;
  }

  /** One of the four steps that leave `prev`. */
  lemma LeaveStep(s: System, pid: int)
    requires pid in s.calls && pid in s.cpu && pid in s.threads && RESELECTED <= s.calls[pid].stage <= DETACHED
    requires s.calls[pid].target in s.fibers && s.calls[pid].prev in s.fibers
    ensures var c, ctx, f := s.calls[pid], s.cpu[pid], s.fibers[s.calls[pid].prev];
            AdvanceStep(s, pid) ==
            s.(fibers := s.fibers[c.prev :=
                 if c.stage == RESELECTED then f.(registers := ctx.regs)
                 else if c.stage == REGS_SAVED then f.(fpu := ctx.fpu)
                 else if c.stage == FPU_SAVED then f.(attachedThread := None)
                 else f.(locked := false)],
               calls := s.calls[pid := c.(stage := c.stage + 1)])
  {
  }

  predicate Leaving(s: System, pid: int, stage: int) {
    && pid in s.calls && pid in s.cpu && pid in s.threads && s.calls[pid].stage == stage
    && s.calls[pid].target in s.fibers && s.calls[pid].prev in s.fibers
  }

  lemma Leave(s: System, pid: int)
    requires Leaving(s, pid, RESELECTED)
    ensures var s1 := AdvanceStep(s, pid);
            && Leaving(s1, pid, REGS_SAVED)
            && (var s2 := AdvanceStep(s1, pid);
                && Leaving(s2, pid, FPU_SAVED)
                && (var s3 := AdvanceStep(s2, pid);
                    && Leaving(s3, pid, DETACHED)
                    && AdvanceStep(s3, pid) == Left(s, pid, s.calls[pid].prev)))
  {
    hide AdvanceStep;
    LeaveStep(s, pid);
    var s1 := AdvanceStep(s, pid);
    LeaveStep(s1, pid);
    var s2 := AdvanceStep(s1, pid);
    LeaveStep(s2, pid);
    var s3 := AdvanceStep(s2, pid);
    LeaveStep(s3, pid);
    var s4, l := AdvanceStep(s3, pid), Left(s, pid, s.calls[pid].prev);
    assert s4.fibers == l.fibers && s4.calls == l.calls;
  }

  lemma Load(s: System, pid: int)
    requires Leaving(s, pid, UNLOCKED)
    ensures var s1 := AdvanceStep(s, pid);
            && Leaving(s1, pid, REGS_LOADED)
            && AdvanceStep(s1, pid) == Loaded(s, pid, s.calls[pid].target)
  {
    var s2, l := AdvanceStep(AdvanceStep(s, pid), pid), Loaded(s, pid, s.calls[pid].target);
    assert s2.cpu == l.cpu && s2.calls == l.calls;
  }

  lemma StepRun(s: System, pid: int, n: nat)
    requires Inv(s) && pid in s.calls && pid in s.cpu && n > 0
    ensures Inv(AdvanceStep(s, pid)) && Run(s, Advances(pid, n)) == Run(AdvanceStep(s, pid), Advances(pid, n - 1))
  {
    hide Inv, AdvanceStep;
    NextKeeps(s, Advance(pid));
    RunAdvances(s, pid, n);
  }

  lemma RunEnters(s: System, pid: int, fiber: int)
    requires Inv(s) && HasFiber(s, pid) && fiber in s.fibers && pid in s.cpu && pid !in s.calls
    requires !s.fibers[fiber].locked && s.fibers[fiber].attachedThread == None
    ensures Inv(Entered(s, pid, fiber))
    ensures Run(s, [Switch(pid, fiber)] + Advances(pid, 8)) == Run(Entered(s, pid, fiber), Advances(pid, 6))
  {
    hide Inv, AdvanceStep, SwitchStep, Entered, HasFiber;
    var all := [Switch(pid, fiber)] + Advances(pid, 8);
    assert all[0] == Switch(pid, fiber) && all[1..] == Advances(pid, 8);
    NextKeeps(s, Switch(pid, fiber));
    Enter(s, pid, fiber);
    var s0 := SwitchStep(s, pid, fiber);
    StepRun(s0, pid, 8);
    StepRun(AdvanceStep(s0, pid), pid, 7);
  }

  lemma RunLeaves(s: System, pid: int)
    requires Inv(s) && Leaving(s, pid, RESELECTED)
    ensures Inv(Left(s, pid, s.calls[pid].prev))
    ensures Run(s, Advances(pid, 6)) == Run(Left(s, pid, s.calls[pid].prev), Advances(pid, 2))
  {
    hide Inv, AdvanceStep, Left;
    Leave(s, pid);
    var s1 := AdvanceStep(s, pid);
    var s2 := AdvanceStep(s1, pid);
    StepRun(s, pid, 6);
    StepRun(s1, pid, 5);
    StepRun(s2, pid, 4);
    StepRun(AdvanceStep(s2, pid), pid, 3);
  }

  lemma RunLoads(s: System, pid: int)
    requires Inv(s) && Leaving(s, pid, UNLOCKED)
    ensures Run(s, Advances(pid, 2)) == Loaded(s, pid, s.calls[pid].target)
  {
    hide Inv, AdvanceStep, Loaded;
    Load(s, pid);
    StepRun(s, pid, 2);
    StepRun(AdvanceStep(s, pid), pid, 1);
  }

  /** Whoever is selected on a fiber holds its lock. */
  lemma SelectedFacts(s: System, pid: int)
    requires Inv(s) && pid in s.threads && s.present
    ensures HasFiber(s, pid) && s.fibers[Selected(s, pid)].locked
  {
    assert Holds(s, pid, s.threads[pid].selectedFiber.value);
  }

  lemma FreeIsDetached(s: System, pid: int, fiber: int)
    requires Inv(s) && Enabled(s, Switch(pid, fiber)) && Granted(s, Switch(pid, fiber))
    ensures s.fibers[fiber].attachedThread == None
  {
    hide Inv;
    NextKeeps(s, Switch(pid, fiber));
    NeverAlreadyAttached(SwitchStep(s, pid, fiber), pid);
  }

  /** A switch that runs alone is its nine steps. */
  lemma UninterruptedIsRun(s: System, pid: int, fiber: int)
    requires Inv(s) && Enabled(s, Switch(pid, fiber))
    ensures Run(s, [Switch(pid, fiber)] + Advances(pid, 8)) == Uninterrupted(s, pid, fiber).0
  {
    hide Inv, Entered, Left, Loaded;
    var all := [Switch(pid, fiber)] + Advances(pid, 8);
    assert all[0] == Switch(pid, fiber) && all[1..] == Advances(pid, 8);
    if Registered(s, pid) {
      SelectedFacts(s, pid);
    }
    if Granted(s, Switch(pid, fiber)) {
      FreeIsDetached(s, pid, fiber);
      RunEnters(s, pid, fiber);
      var e := Entered(s, pid, fiber);
      EnteredIs(s, pid, fiber);
      RunLeaves(e, pid);
      var l := Left(e, pid, Selected(s, pid));
      LeftIs(e, pid);
      RunLoads(l, pid);
      Whole(s, pid, fiber);
    } else {
      NextKeeps(s, Switch(pid, fiber));
      Idles(SwitchStep(s, pid, fiber), pid, 8);
    }
  }

  lemma UninterruptedKeeps(s: System, pid: int, fiber: int)
    requires Inv(s) && Enabled(s, Switch(pid, fiber))
    ensures Inv(Uninterrupted(s, pid, fiber).0)
  {
    hide Inv, Uninterrupted;
    UninterruptedIsRun(s, pid, fiber);
  }

  lemma EnteredIs(s: System, pid: int, fiber: int)
    requires HasFiber(s, pid) && fiber in s.fibers && pid in s.cpu
    ensures var e := Entered(s, pid, fiber);
            Leaving(e, pid, RESELECTED) && e.calls[pid] == Switching(RESELECTED, fiber, Selected(s, pid))
  {
  }

  lemma LeftIs(s: System, pid: int)
    requires Leaving(s, pid, RESELECTED)
    ensures var l := Left(s, pid, s.calls[pid].prev);
              Leaving(l, pid, UNLOCKED) && l.calls[pid].target == s.calls[pid].target
  {
  }

  lemma Whole(s: System, pid: int, fiber: int)
    requires HasFiber(s, pid) && fiber in s.fibers && pid in s.cpu && pid !in s.calls
    requires !s.fibers[fiber].locked && Selected(s, pid) != fiber
    ensures Loaded(Left(Entered(s, pid, fiber), pid, Selected(s, pid)), pid, fiber) == Uninterrupted(s, pid, fiber).0
  {
    var l, u := Loaded(Left(Entered(s, pid, fiber), pid, Selected(s, pid)), pid, fiber), Uninterrupted(s, pid, fiber).0;
    assert l.calls == u.calls && l.fibers == u.fibers && l.cpu == u.cpu;
  }
}
