/**
 What the calls of the module answer, and what they leave behind, written out: the ids that are given out,
 the registers a new fiber starts with, and when a switch reports success.
 */
module FiberAnswers {
  import opened Wrappers
  import opened Fibers
  import opened FiberInvariant
  import opened FiberRuns
  import opened FiberCalls
  import Fls

  /** Storage in which nothing is allocated and every value is zero. */
  ghost predicate EmptyStorage(area: Fls.Area) {
    Fls.Valid(area) && Fls.Visible(area) == map[] && forall k :: 0 <= k < 4096 ==> area.values[k] == 0
  }

  lemma FreshIsEmpty()
    ensures EmptyStorage(Fls.Fresh())
  {
  }

  // ---------- converting ----------

  /** The answer is -1 exactly for a thread that is registered already, and then nothing changes. Otherwise it
      is the least id not given out, and the thread has a new fiber of that id, locked and attached. */
  lemma ConvertAnswers(s: System, pid: int)
    requires Inv(s) && Enabled(s, Convert(pid))
    ensures var (s', r) := ConvertStep(s, pid);
            && (r == -1 <==> pid in s.threads)
            && (r == -1 ==> s' == s)
            && (r != -1 ==>
                  && r == |s.fibers| + 1 && r !in s.fibers && r in s'.fibers
                  && HasFiber(s', pid) && Selected(s', pid) == r
                  && s'.fibers[r].locked && s'.fibers[r].attachedThread == Some(pid)
                  && s'.fibers[r].activationCounter == 1 && s'.fibers[r].failedActivationCounter == 0
                  && s'.fibers[r].registers == s.cpu[pid].regs && s'.fibers[r].fpu == s.cpu[pid].fpu
                  && EmptyStorage(s'.fibers[r].fls)
                  && s'.fibers - {r} == s.fibers && s'.threads - {pid} == s.threads
                  && s'.cpu == s.cpu && s'.calls == s.calls)
  {
    hide Ownership, Fls.Fresh, EmptyStorage;
    FreshIsEmpty();
    IdsInterval(s.fibers.Keys, s.lastFiberId);
    ConvertShape(s, pid);
  }

  // ---------- creating ----------

  /** The answer is -1 exactly for a thread that is not registered, and then nothing changes. Otherwise it is
      the least id not given out, and a new fiber of that id lies unlocked and detached. */
  lemma CreateAnswers(s: System, pid: int, stack: int, size: int, start: int, parameter: int)
    requires Inv(s) && Enabled(s, Create(pid, stack, size, start, parameter))
    ensures var (s', r) := CreateStep(s, pid, stack, size, start, parameter);
            && (r == -1 <==> pid !in s.threads)
            && (r == -1 ==> s' == s)
            && (r != -1 ==>
                  && r == |s.fibers| + 1 && r !in s.fibers && r in s'.fibers
                  && !s'.fibers[r].locked && s'.fibers[r].attachedThread == None
                  && s'.fibers[r].activationCounter == 0 && s'.fibers[r].failedActivationCounter == 0
                  && StartsAt(s'.fibers[r].registers, s.cpu[pid].regs, stack, size, start, parameter)
                  && s'.fibers[r].fpu == s.cpu[pid].fpu && EmptyStorage(s'.fibers[r].fls)
                  && s'.fibers - {r} == s.fibers && s'.threads == s.threads
                  && s'.cpu == s.cpu && s'.calls == s.calls)
  {
    hide Ownership, Fls.Fresh, EmptyStorage;
    FreshIsEmpty();
    IdsInterval(s.fibers.Keys, s.lastFiberId);
  }

  /** At the start of the function, with its parameter, on an empty stack, and otherwise as the creator. */
  predicate StartsAt(regs: Regs, creator: Regs, stack: int, size: int, start: int, parameter: int) {
    && regs.ip == start && regs.di == parameter
    && regs.sp == stack + size - 8 && regs.bp == stack + size - 8 && regs.others == creator.others
  }

  /** Whoever is the first to switch to a created fiber, and whatever other threads do meanwhile, comes out of
      the switch at the start of its function. */
  lemma CreatedStarts(before: seq<Action>, x: Action, between: seq<Action>, u: int, f: int, during: seq<Action>)
    requires Enabled(Reach(before), x) && CreatesNext(Reach(before), x, f)
    requires LeavesParked(After(Reach(before), x), between, f)
    requires var s2 := Run(After(Reach(before), x), between);
             Enabled(s2, Switch(u, f)) && Granted(s2, Switch(u, f)) && LeavesAlone(After(s2, Switch(u, f)), during, u)
    ensures var s4 := Run(After(Run(After(Reach(before), x), between), Switch(u, f)), during);
            u in s4.cpu && (u !in s4.calls ==> StartsAs(Reach(before), x, s4.cpu[u]))
  {
    hide Inv, LeavesAlone, LeavesParked, Next, Run, Reach;
    var s := Reach(before);
    assert x.pid in s.cpu && Registered(s, x.pid) by {
      Tabled(s, x.pid);
    }
    TablesAgree(before);
    var c := InitialContext(s.cpu[x.pid], x.stack, x.size, x.start, x.parameter);
    ContextIntegrity(before, x, between, u, f, during, c);
  }

  /** The action creates fiber `f`. */
  predicate CreatesNext(s: System, x: Action, f: int) {
    x.Create? && x.pid in s.threads && f == |s.fibers| + 1
  }

  predicate StartsAs(s: System, x: Action, c: Context)
    requires x.Create?
  {
    && x.pid in s.cpu && StartsAt(c.regs, s.cpu[x.pid].regs, x.stack, x.size, x.start, x.parameter)
    && c.fpu == s.cpu[x.pid].fpu
  }

  lemma Tabled(s: System, pid: int)
    requires Inv(s) && pid in s.threads
    ensures Registered(s, pid) && pid in s.cpu
  {
  }

  // ---------- switching ----------

  /** The answer of a switch is 0 exactly if the target is there and free, and then the thread leaves its
      fiber for it; otherwise it is -1, and all that can change is the count of refusals. */
  lemma SwitchAnswers(s: System, pid: int, fiber: int)
    requires Inv(s) && Enabled(s, Switch(pid, fiber))
    ensures var (s', r) := Uninterrupted(s, pid, fiber);
            && (r == 0 || r == -1)
            && (r == 0 <==> pid in s.threads && fiber in s.fibers && !s.fibers[fiber].locked)
            && (r == 0 <==> HasFiber(s', pid) && Selected(s', pid) == fiber
                            && !(HasFiber(s, pid) && Selected(s, pid) == fiber))
            && (r == -1 ==> s'.threads == s.threads && s'.cpu == s.cpu && s'.calls == s.calls)
            && (r == -1 && pid in s.threads && fiber in s.fibers ==>
                  var f := s.fibers[fiber];
                  s'.fibers == s.fibers[fiber := f.(failedActivationCounter := f.failedActivationCounter + 1)])
            && (r == -1 && !(pid in s.threads && fiber in s.fibers) ==> s' == s)
  {
    if pid in s.threads {
      Tabled(s, pid);
      SelectedFacts(s, pid);
    }
    hide Inv;
  }

  /** Which is exactly when the switch is granted. */
  lemma SwitchGranted(s: System, pid: int, fiber: int)
    requires Inv(s) && Enabled(s, Switch(pid, fiber))
    ensures Uninterrupted(s, pid, fiber).1 == 0 <==> Granted(s, Switch(pid, fiber))
  {
    hide Inv;
    if pid in s.threads {
      Tabled(s, pid);
      SelectedFacts(s, pid);
    }
  }

  // ---------- leaving ----------

  /** A thread that exits is gone. If it had a fiber and others remain, the fiber keeps its context and lies
      unlocked and detached; the last one takes the tables with it. */
  lemma ExitLeaves(s: System, pid: int)
    requires Inv(s) && Enabled(s, Exit(pid))
    ensures var s' := Next(s, Exit(pid));
            && pid !in s'.threads && s'.cpu == s.cpu - {pid} && s'.calls == s.calls
            && (pid !in s.threads ==> s' == s.(cpu := s.cpu - {pid}))
            && (s.threads.Keys == {pid} ==>
                  !s'.present && s'.threads == map[] && s'.fibers == map[] && s'.lastFiberId == 0)
            && (pid in s.threads && s.threads.Keys != {pid} ==>
                  && HasFiber(s, pid) && Selected(s, pid) in s'.fibers
                  && var id := Selected(s, pid);
                  && s'.threads == s.threads - {pid} && s'.fibers - {id} == s.fibers - {id}
                  && s'.lastFiberId == s.lastFiberId && s'.present
                  && s'.fibers[id] == s.fibers[id].(registers := s.cpu[pid].regs, fpu := s.cpu[pid].fpu,
                                                    attachedThread := None, locked := false))
  {
    if pid in s.threads {
      Tabled(s, pid);
      SelectedFacts(s, pid);
      assert |s.threads| == |s.threads.Keys|;
      if s.activeThreads == 1 {
        OnlyThread(s, pid);
      }
    }
    hide Ownership;
  }
}
