/**
 The fiber protocol of one process (one tgid) as a state machine over many threads. Every table of the
 module is keyed by tgid first, so processes do not share state.

 `do_SwitchToFiber` is cut into the steps another thread can come between; the other calls are single
 steps. A fiber id is used only after the call that created it has returned, and the device is closed
 only when no switch is in progress.
 */
module Fibers {
  import opened Wrappers
  import Fls

  /** `struct pt_regs`, as far as the module looks into it, and the FPU state. */
  datatype Regs = Regs(ip: int, sp: int, bp: int, di: int, others: int)

  datatype Context = Context(regs: Regs, fpu: int)

  datatype Fiber = Fiber(
    locked: bool,
    attachedThread: Option<int>,
    registers: Regs,
    fpu: int,
    fls: Fls.Area,
    activationCounter: nat,
    failedActivationCounter: nat)

  datatype Thread = Thread(selectedFiber: Option<int>)

  // How far a switch in progress has come: the step it did last.
  const LOCKED := 1
  const ATTACHED := 2
  const RESELECTED := 3
  const REGS_SAVED := 4
  const FPU_SAVED := 5
  const DETACHED := 6
  const UNLOCKED := 7
  const REGS_LOADED := 8

  /** A switch in progress: its last step, the fiber it goes to and, once reselected, the one it leaves. */
  datatype Switching = Switching(stage: int, target: int, prev: int)

  /** `cpu` is the user context of every thread of the process, on the CPU or on its kernel stack. */
  datatype System = System(
    present: bool,
    lastFiberId: int,
    activeThreads: int,
    threads: map<int, Thread>,
    fibers: map<int, Fiber>,
    cpu: map<int, Context>,
    calls: map<int, Switching>)

  function Init(): System {
    System(false, 0, 0, map[], map[], map[], map[])
  }

  datatype Action =
    | RunUser(pid: int, ctx: Context)
    | Convert(pid: int)
    | Create(pid: int, stack: int, size: int, start: int, parameter: int)
    | Switch(pid: int, fiber: int)
    | Advance(pid: int)
    | FlsAlloc(pid: int)
    | FlsFree(pid: int, index: int)
    | FlsSet(pid: int, index: int, value: int)
    | Exit(pid: int)
    | Close

  /** A thread does one thing at a time, and the device is closed while no switch is in progress. */
  predicate Enabled(s: System, a: Action) {
    match a
    case RunUser(pid, _) => pid !in s.calls
    case Advance(pid) => pid in s.calls
    case Close => s.calls == map[]
    case _ => a.pid in s.cpu && a.pid !in s.calls
  }

  /** The process and the thread are registered. */
  predicate Registered(s: System, pid: int) {
    s.present && pid in s.threads
  }

  /** `t->selected_fiber` leads to a fiber. */
  predicate HasFiber(s: System, pid: int) {
    Registered(s, pid) && s.threads[pid].selectedFiber.Some? && s.threads[pid].selectedFiber.value in s.fibers
  }

  function Selected(s: System, pid: int): int
    requires HasFiber(s, pid)
  {
    s.threads[pid].selectedFiber.value
  }

  // ---------- convert and create ----------

  function ConvertStep(s: System, pid: int): (System, int)
    requires pid in s.cpu
  {
    var s1 := if s.present then s else s.(present := true, lastFiberId := 0, activeThreads := 0, threads := map[],
              fibers := map[]);
    if pid in s1.threads then (s1, -1)
    else
      var id := s1.lastFiberId + 1;
      var ctx := s1.cpu[pid];
      (s1.(activeThreads := s1.activeThreads + 1,
           lastFiberId := id,
           threads := s1.threads[pid := Thread(Some(id))],
           fibers := s1.fibers[id := Fiber(true, Some(pid), ctx.regs, ctx.fpu, Fls.Fresh(), 1, 0)]), id)
  }

  /** The context a created fiber starts with: that of its creator, at the top of the new stack and at
      the start of its function. */
  function InitialContext(creator: Context, stack: int, size: int, start: int, parameter: int): Context {
    var top := stack + size - 8;
    Context(creator.regs.(sp := top, bp := top, ip := start, di := parameter), creator.fpu)
  }

  function CreateStep(s: System, pid: int, stack: int, size: int, start: int, parameter: int): (System, int)
    requires pid in s.cpu
  {
    if !Registered(s, pid) then (s, -1)
    else
      var id := s.lastFiberId + 1;
      var ctx := InitialContext(s.cpu[pid], stack, size, start, parameter);
      (s.(lastFiberId := id,
          fibers := s.fibers[id := Fiber(false, None, ctx.regs, ctx.fpu, Fls.Fresh(), 0, 0)]), id)
  }

  // ---------- switching ----------

  /** Look everything up and try the lock of the target. */
  function SwitchStep(s: System, pid: int, fiber: int): System {
    if !Registered(s, pid) || fiber !in s.fibers then s
    else
      var f := s.fibers[fiber];
      if f.locked then s.(fibers := s.fibers[fiber := f.(failedActivationCounter := f.failedActivationCounter + 1)])
      else s.(fibers := s.fibers[fiber := f.(locked := true)], calls := s.calls[pid := Switching(LOCKED, fiber, 0)])
  }

  /** The lock was free. */
  predicate Granted(s: System, a: Action) {
    a.Switch? && Registered(s, a.pid) && a.fiber in s.fibers && !s.fibers[a.fiber].locked
  }

  /** The next step of a switch whose target is locked. */
  function AdvanceStep(s: System, pid: int): System
    requires pid in s.calls && pid in s.cpu
  {
    var c := s.calls[pid];
    if c.target !in s.fibers || pid !in s.threads || (c.stage >= RESELECTED && c.prev !in s.fibers) then s
    else
      var f := s.fibers[c.target];
      if c.stage == LOCKED then
        if f.attachedThread.Some? then
          // the lock is not given back on this path
          s.(fibers := s.fibers[c.target := f.(failedActivationCounter := f.failedActivationCounter + 1)],
             calls := s.calls - {pid})
        else
          s.(fibers := s.fibers[c.target := f.(attachedThread := Some(pid),
            activationCounter := f.activationCounter + 1)],
             calls := s.calls[pid := c.(stage := ATTACHED)])
      else if c.stage == ATTACHED then
        var prev := s.threads[pid].selectedFiber;
        s.(threads := s.threads[pid := Thread(Some(c.target))],
           calls := s.calls[pid := Switching(RESELECTED, c.target, if prev.Some? then prev.value else 0)])
      else if c.stage == RESELECTED then
        s.(fibers := s.fibers[c.prev := s.fibers[c.prev].(registers := s.cpu[pid].regs)],
           calls := s.calls[pid := c.(stage := REGS_SAVED)])
      else if c.stage == REGS_SAVED then
        s.(fibers := s.fibers[c.prev := s.fibers[c.prev].(fpu := s.cpu[pid].fpu)],
           calls := s.calls[pid := c.(stage := FPU_SAVED)])
      else if c.stage == FPU_SAVED then
        s.(fibers := s.fibers[c.prev := s.fibers[c.prev].(attachedThread := None)],
           calls := s.calls[pid := c.(stage := DETACHED)])
      else if c.stage == DETACHED then
        s.(fibers := s.fibers[c.prev := s.fibers[c.prev].(locked := false)],
           calls := s.calls[pid := c.(stage := UNLOCKED)])
      else if c.stage == UNLOCKED then
        s.(cpu := s.cpu[pid := s.cpu[pid].(regs := f.registers)],
           calls := s.calls[pid := c.(stage := REGS_LOADED)])
      else
        s.(cpu := s.cpu[pid := s.cpu[pid].(fpu := f.fpu)],
           calls := s.calls - {pid})
  }

  // ---------- fiber-local storage ----------

  function WithFls(s: System, pid: int, area: Fls.Area): System
    requires HasFiber(s, pid)
  {
    var id := Selected(s, pid);
    s.(fibers := s.fibers[id := s.fibers[id].(fls := area)])
  }

  predicate FlsReady(s: System, pid: int) {
    HasFiber(s, pid) && Fls.Valid(s.fibers[Selected(s, pid)].fls)
  }

  function FlsStep(s: System, a: Action): System
    requires a.FlsAlloc? || a.FlsFree? || a.FlsSet?
  {
    if !FlsReady(s, a.pid) then s
    else
      var area := s.fibers[Selected(s, a.pid)].fls;
      match a
      case FlsAlloc(pid) => WithFls(s, pid, Fls.Alloc(area).1)
      case FlsFree(pid, index) => WithFls(s, pid, Fls.Free(area, index).1)
      case FlsSet(pid, index, value) => WithFls(s, pid, Fls.Set(area, index, value))
      case _ => s
  }

  // ---------- exit and close ----------

  function Cleared(s: System): System {
    s.(present := false, lastFiberId := 0, activeThreads := 0, threads := map[], fibers := map[])
  }

  /** The last registered thread takes the process with it; any other saves and frees its fiber. */
  function ExitStep(s: System, pid: int): System
    requires pid in s.cpu
  {
    var gone := s.(cpu := s.cpu - {pid});
    if !Registered(s, pid) then gone
    else
      var ret := s.activeThreads - 1;
      var s1 := gone.(activeThreads := ret, threads := s.threads - {pid});
      if ret == 0 then Cleared(s1)
      else if !HasFiber(s, pid) then s1
      else
        var id := Selected(s, pid);
        var ctx := s.cpu[pid];
        s1.(fibers := s1.fibers[id := s1.fibers[id].(registers := ctx.regs, fpu := ctx.fpu, attachedThread := None,
          locked := false)])
  }

  function Next(s: System, a: Action): System
    requires Enabled(s, a) && (a.Advance? ==> a.pid in s.cpu)
  {
    match a
    case RunUser(pid, ctx) => s.(cpu := s.cpu[pid := ctx])
    case Convert(pid) => ConvertStep(s, pid).0
    case Create(pid, stack, size, start, parameter) => CreateStep(s, pid, stack, size, start, parameter).0
    case Switch(pid, fiber) => SwitchStep(s, pid, fiber)
    case Advance(pid) => AdvanceStep(s, pid)
    case FlsAlloc(_) => FlsStep(s, a)
    case FlsFree(_, _) => FlsStep(s, a)
    case FlsSet(_, _, _) => FlsStep(s, a)
    case Exit(pid) => ExitStep(s, pid)
    case Close => Cleared(s)
  }
}
