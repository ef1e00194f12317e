/**
 The calls of the module on the structures they update in place: processes, threads and fibers that
 point at each other. Each call, run by one thread without another in between, does to them what the
 steps of `Fibers` do to their values.
 */
module FiberObjects {
  import opened Wrappers
  import opened Fibers
  import opened FiberCalls
  import opened FiberInvariant
  import opened FlsStore

  const DEFAULT_STACK_SIZE := 1

  /** `struct fiber`. */
  class FiberObject {
    const fiberId: int
    const storage: Store
    var locked: bool
    var attachedThread: ThreadObject?
    var registers: Regs
    var fpu: int
    var activationCounter: nat
    var failedActivationCounter: nat

    /** `init_fiber`, up to the registration under an id. */
    constructor (id: int, current: Task, stack: int, size: int)
      ensures fiberId == id && !locked && attachedThread == null && activationCounter == 0
              && failedActivationCounter == 0
      ensures registers == current.regs.(sp := stack + size - 8, bp := stack + size - 8) && fpu == current.fpu
      ensures storage.Sized() && storage.View() == Fls.Fresh() && fresh(storage.fls) && fresh(storage.bitmap)
      ensures View() == Fiber(false, None, registers, fpu, Fls.Fresh(), 0, 0)
    {
      fiberId, locked, attachedThread, activationCounter, failedActivationCounter := id, false, null, 0, 0;
      registers := current.regs.(sp := stack + size - 8, bp := stack + size - 8);
      fpu := current.fpu;
      storage := new Store();
    }

    ghost function View(): Fiber
      reads this, storage.fls, storage.bitmap
      requires storage.Sized()
    {
      Fiber(locked, if attachedThread == null then None else Some(attachedThread.threadId), registers, fpu,
            storage.View(), activationCounter, failedActivationCounter)
    }

    lemma Fields()
      requires storage.Sized()
      ensures View().registers == registers && View().fpu == fpu && View().fls == storage.View()
      ensures View().attachedThread.None? <==> attachedThread == null
    {
    }
  }

  /** `struct thread`. */
  class ThreadObject {
    const threadId: int
    var selectedFiber: FiberObject?

    constructor (id: int)
      ensures threadId == id && selectedFiber == null
    {
      threadId, selectedFiber := id, null;
    }

    ghost function View(): Thread
      reads this
    {
      Thread(if selectedFiber == null then None else Some(selectedFiber.fiberId))
    }

    lemma Chosen()
      ensures View().selectedFiber == if selectedFiber == null then None else Some(selectedFiber.fiberId)
    {
    }
  }

  /** `struct process`; the two hash tables are maps. */
  class ProcessObject {
    var lastFiberId: int
    var activeThreads: int
    var threads: map<int, ThreadObject>
    var fibers: map<int, FiberObject>

    constructor ()
      ensures lastFiberId == 0 && activeThreads == 0 && threads == map[] && fibers == map[]
    {
      lastFiberId, activeThreads, threads, fibers := 0, 0, map[], map[];
    }
  }

  /** The calling thread: its saved user registers and its FPU state. */
  class Task {
    const pid: int
    var regs: Regs
    var fpu: int

    ghost function View(): Context
      reads this
    {
      Context(regs, fpu)
    }

    constructor (pid: int, ctx: Context)
      ensures this.pid == pid && View() == ctx
    {
      this.pid, regs, fpu := pid, ctx.regs, ctx.fpu;
    }
  }

  function WithFiber(s: System, id: int, v: Fiber): System {
    s.(fibers := s.fibers[id := v])
  }

  /** A new thread and, as the fiber it is running, a new fiber. */
  function Converted(s: System, pid: int, ctx: Context): System {
    var id := s.lastFiberId + 1;
    s.(activeThreads := s.activeThreads + 1, lastFiberId := id, threads := s.threads[pid := Thread(Some(id))],
       fibers := s.fibers[id := Fiber(true, Some(pid), ctx.regs, ctx.fpu, Fls.Fresh(), 1, 0)])
  }

  /** Thread `pid` off `prev`, which is saved and free, and on `fiber`, whose lock it holds. */
  function Moved(s: System, pid: int, fiber: int, prev: int, ctx: Context): System
    requires fiber in s.fibers && prev in s.fibers
  {
    var f := s.fibers[fiber];
    var taken := s.fibers[fiber := f.(attachedThread := Some(pid), activationCounter := f.activationCounter + 1)];
    s.(fibers := taken[prev := taken[prev].(registers := ctx.regs, fpu := ctx.fpu, attachedThread := None,
      locked := false)],
       threads := s.threads[pid := Thread(Some(fiber))])
  }

  function Gone(s: System, pid: int, fiber: int, prev: int): System
    requires pid in s.cpu && fiber in s.fibers && prev in s.fibers
  {
    var f := s.fibers[fiber];
    Moved(s, pid, fiber, prev, s.cpu[pid]).(cpu := s.cpu[pid := Context(f.registers, f.fpu)])
  }

  /** The storage of the fiber a thread has selected, as large as `struct fiber` makes it. */
  function FlsOf(s: System, pid: int): (a: Fls.Area)
    requires FlsReady(s, pid)
    ensures Fls.Valid(a)
  {
    s.fibers[Selected(s, pid)].fls
  }

  lemma GoneIs(s: System, pid: int, fiber: int)
    requires HasFiber(s, pid) && fiber in s.fibers && pid in s.cpu && !s.fibers[fiber].locked
             && Selected(s, pid) != fiber
    ensures var s1 := WithFiber(s, fiber, s.fibers[fiber].(locked := true));
            (Gone(s1, pid, fiber, Selected(s, pid)), 0) == Uninterrupted(s, pid, fiber)
  {
    var s1 := WithFiber(s, fiber, s.fibers[fiber].(locked := true));
    assert Gone(s1, pid, fiber, Selected(s, pid)).fibers == Uninterrupted(s, pid, fiber).0.fibers;
  }

  /** The steps of an exit, one after another. */
  function Released(s: System, pid: int): System
    requires pid in s.cpu
  {
    var s1 := s.(activeThreads := s.activeThreads - 1);
    if !HasFiber(s, pid) || s1.activeThreads == 0 then s1
    else
      var id, ctx := Selected(s, pid), s.cpu[pid];
      WithFiber(s1, id, s.fibers[id].(registers := ctx.regs, fpu := ctx.fpu, attachedThread := None, locked := false))
  }

  function Departed(s: System, pid: int): System
    requires pid in s.cpu
  {
    var s2 := Released(s, pid);
    var s3 := s2.(threads := s2.threads - {pid}, cpu := s2.cpu - {pid});
    if s3.activeThreads == 0 then Cleared(s3) else s3
  }

  lemma DepartedIs(s: System, pid: int)
    requires Registered(s, pid) && pid in s.cpu
    ensures Departed(s, pid) == ExitStep(s, pid)
  {
  }

  lemma ConvertedIs(s: System, pid: int, ctx: Context, v: Fiber)
    ensures var id := s.lastFiberId + 1;
            var made := WithFiber(s.(activeThreads := s.activeThreads + 1, threads := s.threads[pid := Thread(None)],
                                     lastFiberId := id), id, v);
            WithFiber(made.(threads := made.threads[pid := Thread(Some(id))]), id,
                      Fiber(true, Some(pid), ctx.regs, ctx.fpu, Fls.Fresh(), 1, 0)) == Converted(s, pid, ctx)
  {
    var id, w := s.lastFiberId + 1, Fiber(true, Some(pid), ctx.regs, ctx.fpu, Fls.Fresh(), 1, 0);
    assert s.fibers[id := v][id := w] == s.fibers[id := w];
    assert s.threads[pid := Thread(None)][pid := Thread(Some(id))] == s.threads[pid := Thread(Some(id))];
  }

  lemma Twice(s: System, id: int, v: Fiber, w: Fiber)
    ensures WithFiber(WithFiber(s, id, v), id, w) == WithFiber(s, id, w)
  {
    assert s.fibers[id := v][id := w] == s.fibers[id := w];
  }

  // ---------- the tables and the values they stand for ----------

  ghost predicate Housed(f: FiberObject, id: int, last: int, repr: set<object>) {
    && f in repr && f.fiberId == id && 1 <= id <= last && f.storage.Sized()
    && f.storage.fls in repr && f.storage.bitmap in repr
  }

  /** Fibers do not share their storage. */
  ghost predicate Apart(f: FiberObject, g: FiberObject) {
    && f.storage.fls as object != g.storage.bitmap as object
    && (f.fiberId != g.fiberId ==> f != g && f.storage.fls != g.storage.fls && f.storage.bitmap != g.storage.bitmap)
  }

  ghost predicate AllHoused(fibers: map<int, FiberObject>, last: int, repr: set<object>) {
    && (forall id :: id in fibers ==> Housed(fibers[id], id, last, repr))
    && (forall i, j :: i in fibers && j in fibers ==> Apart(fibers[i], fibers[j]))
  }

  ghost predicate Listed(fibers: map<int, FiberObject>, f: FiberObject) {
    f.fiberId in fibers && fibers[f.fiberId] == f
  }

  ghost predicate FibersOk(fibers: map<int, FiberObject>, views: map<int, Fiber>, last: int, repr: set<object>)
    reads repr
  {
    && fibers.Keys == views.Keys && AllHoused(fibers, last, repr)
    && forall id :: id in fibers ==> fibers[id].View() == views[id]
  }

  /** The same without what `f` holds. */
  ghost predicate OthersOk(fibers: map<int, FiberObject>, views: map<int, Fiber>, last: int, repr: set<object>,
                           f: FiberObject)
    reads repr - {f, f.storage.fls, f.storage.bitmap}
  {
    && fibers.Keys == views.Keys && AllHoused(fibers, last, repr) && Listed(fibers, f)
    && forall id :: id in fibers && id != f.fiberId ==>
         (Apart(fibers[id], f) && Apart(f, fibers[id]) ==> fibers[id].View() == views[id])
  }

  ghost predicate ThreadOk(t: ThreadObject, id: int, fibers: map<int, FiberObject>, v: Thread)
    reads t
  {
    t.threadId == id && t.View() == v && (t.selectedFiber != null ==> Listed(fibers, t.selectedFiber))
  }

  ghost predicate ThreadsOk(threads: map<int, ThreadObject>, fibers: map<int, FiberObject>, views: map<int, Thread>,
                            repr: set<object>)
    reads repr
  {
    threads.Keys == views.Keys && forall id :: id in threads ==>
        threads[id] in repr && ThreadOk(threads[id], id, fibers, views[id])
  }

  ghost predicate OtherThreadsOk(threads: map<int, ThreadObject>, fibers: map<int, FiberObject>,
                                 views: map<int, Thread>, repr: set<object>, t: ThreadObject)
    reads repr - {t}
  {
    && threads.Keys == views.Keys && t.threadId in threads && threads[t.threadId] == t && t in repr
    && forall id :: id in threads && id != t.threadId ==>
         threads[id] in repr && threads[id] != t && ThreadOk(threads[id], id, fibers, views[id])
  }

  // ---------- one entry at a time ----------

  lemma FiberAdded(fibers: map<int, FiberObject>, views: map<int, Fiber>, last: int, repr: set<object>, f: FiberObject)
    requires FibersOk(fibers, views, last, repr) && last >= 0
    requires f.fiberId == last + 1 && f.storage.Sized() && f !in repr && f.storage.fls !in repr
             && f.storage.bitmap !in repr
    requires f.storage.fls as object != f.storage.bitmap as object
    ensures last + 1 !in fibers
    ensures FibersOk(fibers[last + 1 := f], views[last + 1 := f.View()], last + 1,
            repr + {f, f.storage.fls, f.storage.bitmap})
  {
    hide FiberObject.View;
    var all, more := fibers[last + 1 := f], repr + {f, f.storage.fls, f.storage.bitmap};
    forall id | id in fibers
      ensures id != last + 1 && Housed(fibers[id], id, last + 1, more)
      ensures Apart(fibers[id], f) && Apart(f, fibers[id])
    {
      assert Housed(fibers[id], id, last, repr);
    }
    assert Housed(f, last + 1, last + 1, more);
    assert forall i, j :: i in all && j in all ==> Apart(all[i], all[j]);
  }

  /** Before a change to one fiber, and after it. */
  lemma WithoutFiber(fibers: map<int, FiberObject>, views: map<int, Fiber>, last: int, repr: set<object>,
                     f: FiberObject)
    requires FibersOk(fibers, views, last, repr) && Listed(fibers, f)
    ensures OthersOk(fibers, views, last, repr, f)
    ensures f in repr && f.storage.Sized() && f.fiberId in views && f.View() == views[f.fiberId]
    ensures f.storage.fls in repr && f.storage.bitmap in repr && f.storage.fls as object != f.storage.bitmap as object
  {
    hide FiberObject.View;
    assert Housed(f, f.fiberId, last, repr);
    assert Apart(f, f);
  }

  lemma FiberBack(fibers: map<int, FiberObject>, views: map<int, Fiber>, last: int, repr: set<object>, f: FiberObject)
    requires OthersOk(fibers, views, last, repr, f) && f.storage.Sized()
    ensures FibersOk(fibers, views[f.fiberId := f.View()], last, repr)
  {
    hide FiberObject.View;
    var shown := views[f.fiberId := f.View()];
    forall id | id in fibers
      ensures fibers[id].View() == shown[id]
    {
      assert Apart(fibers[id], f) && Apart(f, fibers[id]);
    }
  }

  lemma ThreadsKeepFibers(threads: map<int, ThreadObject>, fibers: map<int, FiberObject>, views: map<int, Thread>,
                          repr: set<object>, more: map<int, FiberObject>)
    requires ThreadsOk(threads, fibers, views, repr)
    requires fibers.Keys <= more.Keys && forall id :: id in fibers ==> more[id] == fibers[id]
    ensures ThreadsOk(threads, more, views, repr)
  {
    forall id | id in threads
      ensures ThreadOk(threads[id], id, more, views[id])
    {
      assert ThreadOk(threads[id], id, fibers, views[id]);
    }
  }

  lemma ThreadAdded(threads: map<int, ThreadObject>, fibers: map<int, FiberObject>, views: map<int, Thread>,
                    repr: set<object>, t: ThreadObject)
    requires ThreadsOk(threads, fibers, views, repr) && t.selectedFiber == null
    ensures ThreadsOk(threads[t.threadId := t], fibers, views[t.threadId := Thread(None)], repr + {t})
  {
  }

  lemma ThreadRemoved(threads: map<int, ThreadObject>, fibers: map<int, FiberObject>, views: map<int, Thread>,
                      repr: set<object>, id: int)
    requires ThreadsOk(threads, fibers, views, repr)
    ensures ThreadsOk(threads - {id}, fibers, views - {id}, repr)
  {
  }

  /** Before a change to one thread, and after it. */
  lemma WithoutThread(threads: map<int, ThreadObject>, fibers: map<int, FiberObject>, views: map<int, Thread>,
                      repr: set<object>, id: int)
    requires ThreadsOk(threads, fibers, views, repr) && id in threads
    ensures OtherThreadsOk(threads, fibers, views, repr, threads[id]) && threads[id].threadId == id && id in views
    ensures threads[id].View() == views[id]
    ensures threads[id].selectedFiber != null ==> Listed(fibers, threads[id].selectedFiber)
  {
    assert ThreadOk(threads[id], id, fibers, views[id]);
    forall i | i in threads && i != id
      ensures threads[i] != threads[id]
    {
      assert ThreadOk(threads[i], i, fibers, views[i]);
    }
  }

  lemma ThreadBack(threads: map<int, ThreadObject>, fibers: map<int, FiberObject>, views: map<int, Thread>,
                   repr: set<object>, t: ThreadObject)
    requires OtherThreadsOk(threads, fibers, views, repr, t)
    requires t.selectedFiber != null ==> Listed(fibers, t.selectedFiber)
    ensures ThreadsOk(threads, fibers, views[t.threadId := t.View()], repr)
  {
  }

  /** The entry of `processes` for one tgid, beside the state it stands for. */
  class Module {
    var process: ProcessObject?
    ghost var model: System
    ghost var threadRepr: set<object>
    ghost var fiberRepr: set<object>

    ghost predicate Valid()
      reads this, process, threadRepr, fiberRepr
    {
      && Separate() && (process != null <==> model.present)
      && (process != null ==>
            && 0 <= process.lastFiberId == model.lastFiberId && process.activeThreads == model.activeThreads
            && ThreadsOk(process.threads, process.fibers, model.threads, threadRepr)
            && FibersOk(process.fibers, model.fibers, model.lastFiberId, fiberRepr))
    }

    ghost predicate Separate()
      reads this
    {
      && this !in threadRepr && this !in fiberRepr && threadRepr !! fiberRepr
      && (process != null ==> process !in threadRepr && process !in fiberRepr)
    }

    /** No process yet, and threads that run with any contexts. */
    constructor (ghost cpu: map<int, Context>)
      ensures Valid() && model == Init().(cpu := cpu) && threadRepr == {} && fiberRepr == {}
    {
      process, model, threadRepr, fiberRepr := null, Init().(cpu := cpu), {}, {};
    }

    /** The calling thread runs with the context the state says. */
    ghost predicate Running(current: Task)
      reads this, current
    {
      && current !in threadRepr && current !in fiberRepr
      && current.pid in model.cpu && model.cpu[current.pid] == current.View() && current.pid !in model.calls
    }

    // ---------- converting and creating ----------

    /** `init_process`, unless there is one. */
    method EnsureProcess()
      requires Valid()
      modifies this`process, this`model, this`threadRepr, this`fiberRepr
      ensures Valid() && process != null
              && (old(process) == null ==> fresh(process) && threadRepr == {} && fiberRepr == {})
      ensures old(process) != null ==>
                process == old(process) && threadRepr == old(threadRepr) && fiberRepr == old(fiberRepr)
      ensures model == if old(model).present then old(model) else Cleared(old(model)).(present := true)
    {
      if process == null {
        process := new ProcessObject();
        threadRepr, fiberRepr := {}, {};
        model := Cleared(model).(present := true);
      }
    }

    /** `init_thread`. */
    method NewThread(pid: int) returns (t: ThreadObject)
      requires Valid() && process != null && pid !in process.threads
      modifies this`threadRepr, this`model, process
      ensures Valid() && fresh(t) && threadRepr == old(threadRepr) + {t} && process.fibers == old(process.fibers)
      ensures process.threads == old(process.threads)[pid := t] && t.threadId == pid && t.selectedFiber == null
      ensures model == old(model).(activeThreads := old(model).activeThreads + 1,
                                   threads := old(model).threads[pid := Thread(None)])
    {
      hide FibersOk, ThreadsOk;
      t := new ThreadObject(pid);
      process.activeThreads := process.activeThreads + 1;
      ThreadAdded(process.threads, process.fibers, model.threads, threadRepr, t);
      process.threads := process.threads[pid := t];
      threadRepr := threadRepr + {t};
      model := model.(activeThreads := model.activeThreads + 1, threads := model.threads[pid := Thread(None)]);
    }

    /** `init_fiber`. */
    method NewFiber(current: Task, stack: int, size: int) returns (f: FiberObject)
      requires Valid() && process != null
      modifies this`fiberRepr, this`model, process
      ensures Valid() && fresh(f) && fresh(fiberRepr - old(fiberRepr)) && f in fiberRepr
      ensures process.threads == old(process.threads) && Listed(process.fibers, f)
              && f.fiberId == old(model).lastFiberId + 1
      ensures f.registers == current.regs.(sp := stack + size - 8, bp := stack + size - 8) && f.fpu == current.fpu
      ensures f.storage.Sized()
      ensures f.View() == Fiber(false, None, f.registers, f.fpu, Fls.Fresh(), 0, 0)
      ensures model == WithFiber(old(model).(lastFiberId := f.fiberId), f.fiberId, f.View())
    {
      hide FibersOk, ThreadsOk, FiberObject.View;
      f := new FiberObject(process.lastFiberId + 1, current, stack, size);
      FiberAdded(process.fibers, model.fibers, process.lastFiberId, fiberRepr, f);
      process.lastFiberId := process.lastFiberId + 1;
      ghost var fibers := process.fibers;
      process.fibers := process.fibers[f.fiberId := f];
      ThreadsKeepFibers(process.threads, fibers, model.threads, threadRepr, process.fibers);
      fiberRepr := fiberRepr + {f, f.storage.fls, f.storage.bitmap};
      model := model.(lastFiberId := f.fiberId, fibers := model.fibers[f.fiberId := f.View()]);
    }

    // ---------- one change at a time ----------

    ghost predicate Has(f: FiberObject)
      reads this, process
    {
      process != null && Listed(process.fibers, f)
    }

    ghost predicate HasThread(t: ThreadObject)
      reads this, process
    {
      process != null && t.threadId in process.threads && process.threads[t.threadId] == t
    }

    lemma Known()
      requires Valid() && process != null
      ensures process.threads.Keys == model.threads.Keys && process.fibers.Keys == model.fibers.Keys
    {
    }

    method Refuse(f: FiberObject)
      requires Valid() && Has(f)
      modifies this`model, f
      ensures Valid() && f.fiberId in old(model).fibers
      ensures var v := old(model).fibers[f.fiberId];
              model == WithFiber(old(model), f.fiberId,
                                 v.(failedActivationCounter := v.failedActivationCounter + 1))
    {
      hide FibersOk, ThreadsOk, OthersOk, Store.View;
      WithoutFiber(process.fibers, model.fibers, model.lastFiberId, fiberRepr, f);
      f.failedActivationCounter := f.failedActivationCounter + 1;
      FiberBack(process.fibers, model.fibers, model.lastFiberId, fiberRepr, f);
      model := WithFiber(model, f.fiberId, f.View());
    }

    /** `spin_trylock`. */
    method TryLock(f: FiberObject) returns (ok: bool)
      requires Valid() && Has(f)
      modifies this`model, f
      ensures Valid() && f.fiberId in old(model).fibers
      ensures ok == !old(model).fibers[f.fiberId].locked
      ensures var v := old(model).fibers[f.fiberId]; model == WithFiber(old(model), f.fiberId, v.(locked := true))
    {
      hide FibersOk, ThreadsOk, OthersOk, Store.View;
      WithoutFiber(process.fibers, model.fibers, model.lastFiberId, fiberRepr, f);
      ok := !f.locked;
      f.locked := true;
      FiberBack(process.fibers, model.fibers, model.lastFiberId, fiberRepr, f);
      model := WithFiber(model, f.fiberId, f.View());
    }

    method Attach(f: FiberObject, t: ThreadObject)
      requires Valid() && Has(f)
      modifies this`model, f
      ensures Valid() && f.fiberId in old(model).fibers
      ensures var v := old(model).fibers[f.fiberId];
              model == WithFiber(old(model), f.fiberId,
                                 v.(attachedThread := Some(t.threadId), activationCounter := v.activationCounter + 1))
    {
      hide FibersOk, ThreadsOk, OthersOk, Store.View;
      WithoutFiber(process.fibers, model.fibers, model.lastFiberId, fiberRepr, f);
      f.attachedThread := t;
      f.activationCounter := f.activationCounter + 1;
      FiberBack(process.fibers, model.fibers, model.lastFiberId, fiberRepr, f);
      model := WithFiber(model, f.fiberId, f.View());
    }

    /** Save the context of the running thread in the fiber it leaves, detach the fiber and unlock it. */
    method Leave(f: FiberObject, current: Task)
      requires Valid() && Has(f)
      modifies this`model, f
      ensures Valid() && f.fiberId in old(model).fibers
      ensures var v := old(model).fibers[f.fiberId];
              model == WithFiber(old(model), f.fiberId,
                                 v.(registers := current.regs, fpu := current.fpu,
                                    attachedThread := None, locked := false))
    {
      hide FibersOk, ThreadsOk, OthersOk, Store.View;
      WithoutFiber(process.fibers, model.fibers, model.lastFiberId, fiberRepr, f);
      f.registers := current.regs;
      f.fpu := current.fpu;
      f.attachedThread := null;
      f.locked := false;
      FiberBack(process.fibers, model.fibers, model.lastFiberId, fiberRepr, f);
      model := WithFiber(model, f.fiberId, f.View());
    }

    method SetRegisters(f: FiberObject, regs: Regs)
      requires Valid() && Has(f)
      modifies this`model, f
      ensures Valid() && f.fiberId in old(model).fibers
      ensures var v := old(model).fibers[f.fiberId]; model == WithFiber(old(model), f.fiberId, v.(registers := regs))
    {
      hide FibersOk, ThreadsOk, OthersOk, Store.View;
      WithoutFiber(process.fibers, model.fibers, model.lastFiberId, fiberRepr, f);
      f.registers := regs;
      FiberBack(process.fibers, model.fibers, model.lastFiberId, fiberRepr, f);
      model := WithFiber(model, f.fiberId, f.View());
    }

    method Select(t: ThreadObject, f: FiberObject)
      requires Valid() && Has(f) && HasThread(t)
      modifies this`model, t
      ensures Valid() && model == old(model).(threads := old(model).threads[t.threadId := Thread(Some(f.fiberId))])
    {
      hide FibersOk, ThreadsOk, OtherThreadsOk;
      WithoutThread(process.threads, process.fibers, model.threads, threadRepr, t.threadId);
      t.selectedFiber := f;
      ThreadBack(process.threads, process.fibers, model.threads, threadRepr, t);
      model := model.(threads := model.threads[t.threadId := t.View()]);
    }

    // ---------- the calls ----------

    /** The end of `do_ConvertThreadToFiber`: the new fiber is what the new thread is running. */
    method Adopt(f: FiberObject, t: ThreadObject, current: Task) returns (ok: bool)
      requires Valid() && Has(f) && HasThread(t) && f.fiberId in model.fibers
      requires f.registers.(sp := current.regs.sp, bp := current.regs.bp) == current.regs
      modifies this`model, f, t
      ensures Valid()
      ensures var v, s := old(model).fibers[f.fiberId], old(model);
              && ok == !v.locked
              && model == WithFiber(s.(threads := s.threads[t.threadId := Thread(Some(f.fiberId))]), f.fiberId,
                                    v.(registers := current.regs, attachedThread := Some(t.threadId),
                                       activationCounter := v.activationCounter + 1, locked := true))
    {
      hide FibersOk, ThreadsOk, FiberObject.View, ThreadObject.View;
      ghost var s, v := model, model.fibers[f.fiberId];
      SetRegisters(f, f.registers.(sp := current.regs.sp, bp := current.regs.bp));
      ghost var v1 := model.fibers[f.fiberId];
      Attach(f, t);
      ghost var v2 := model.fibers[f.fiberId];
      Twice(s, f.fiberId, v1, v2);
      Select(t, f);
      ok := TryLock(f);
      Twice(s.(threads := s.threads[t.threadId := Thread(Some(f.fiberId))]), f.fiberId, v2, model.fibers[f.fiberId]);
    }

    method Register(current: Task) returns (r: int)
      requires Valid() && process != null && current.pid !in process.threads
      modifies this`model, this`threadRepr, this`fiberRepr, process
      ensures Valid() && fresh(threadRepr - old(threadRepr)) && fresh(fiberRepr - old(fiberRepr))
      ensures model == Converted(old(model), current.pid, current.View()) && r == model.lastFiberId
    {
      hide FibersOk, ThreadsOk, FiberObject.View, ThreadObject.View;
      hide Converted, Fls.Fresh, Fls.Valid;
      ghost var s := model;
      var t := NewThread(current.pid);
      var f := NewFiber(current, 0, DEFAULT_STACK_SIZE);
      ConvertedIs(s, current.pid, current.View(), f.View());
      var ok := Adopt(f, t, current);
      r := if ok then f.fiberId else -1;
    }

    /** `do_ConvertThreadToFiber`. */
    method Convert(current: Task) returns (r: int)
      requires Valid() && Running(current)
      modifies this, process, threadRepr, fiberRepr
      ensures Valid() && Running(current)
      ensures (model, r) == ConvertStep(old(model), current.pid)
      ensures fresh(threadRepr - old(threadRepr)) && fresh(fiberRepr - old(fiberRepr))
      ensures process != old(process) ==> fresh(process)
    {
      hide FibersOk, ThreadsOk;
      EnsureProcess();
      Known();
      if current.pid in process.threads {
        return -1;
      }
      r := Register(current);
    }

    /** `do_CreateFiber`. */
    method Create(current: Task, stack: int, size: int, start: int, parameter: int) returns (r: int)
      requires Valid() && Running(current)
      modifies this, process, threadRepr, fiberRepr
      ensures Valid() && Running(current)
      ensures (model, r) == CreateStep(old(model), current.pid, stack, size, start, parameter)
      ensures fresh(threadRepr - old(threadRepr)) && fresh(fiberRepr - old(fiberRepr))
      ensures process != old(process) ==> fresh(process)
    {
      hide FibersOk, ThreadsOk, FiberObject.View, ThreadObject.View;
      if process == null {
        return -1;
      }
      Known();
      if current.pid !in process.threads {
        return -1;
      }
      var f := NewFiber(current, stack, size);
      ghost var v := f.View();
      SetRegisters(f, f.registers.(ip := start, di := parameter));
      r := f.fiberId;
      Twice(old(model).(lastFiberId := r), r, v, model.fibers[r]);
    }

    lemma KnownFiber(id: int)
      requires Valid() && process != null && id in process.fibers
      ensures Has(process.fibers[id]) && process.fibers[id].fiberId == id && id in model.fibers
      ensures process.fibers[id].storage.Sized() && process.fibers[id].View() == model.fibers[id]
      ensures process.fibers[id] in fiberRepr
    {
      assert Housed(process.fibers[id], id, model.lastFiberId, fiberRepr);
    }

    lemma KnownThread(id: int)
      requires Valid() && process != null && id in process.threads
      ensures HasThread(process.threads[id]) && process.threads[id].threadId == id && id in model.threads
      ensures process.threads[id].View() == model.threads[id] && process.threads[id] in threadRepr
      ensures process.threads[id].selectedFiber != null ==> Has(process.threads[id].selectedFiber)
    {
      WithoutThread(process.threads, process.fibers, model.threads, threadRepr, id);
    }

    /** The part of a switch behind a successful trylock, up to the unlocking of the fiber left behind. */
    method Move(f: FiberObject, tp: ThreadObject, prev: FiberObject, current: Task)
      requires Valid() && Has(f) && HasThread(tp) && Has(prev)
      requires tp.threadId == current.pid && tp.selectedFiber == prev
      modifies this`model, tp, f, prev
      ensures Valid() && f.fiberId in old(model).fibers && prev.fiberId in old(model).fibers
      ensures model == Moved(old(model), current.pid, f.fiberId, prev.fiberId, current.View())
    {
      hide FibersOk, ThreadsOk, FiberObject.View, ThreadObject.View;
      Attach(f, tp);
      Select(tp, f);
      Leave(prev, current);
    }

    method GoTo(f: FiberObject, tp: ThreadObject, prev: FiberObject, current: Task)
      requires Valid() && Running(current) && Has(f) && HasThread(tp) && Has(prev) && f.fiberId != prev.fiberId
      requires tp.threadId == current.pid && tp.selectedFiber == prev
      requires f in fiberRepr && tp in threadRepr && prev in fiberRepr
      modifies this`model, tp, f, prev, current
      ensures Valid() && Running(current) && f.fiberId in old(model).fibers && prev.fiberId in old(model).fibers
      ensures model == Gone(old(model), current.pid, f.fiberId, prev.fiberId)
    {
      hide FibersOk, ThreadsOk, FiberObject.View, ThreadObject.View;
      Move(f, tp, prev, current);
      KnownFiber(f.fiberId);
      f.Fields();
      current.regs := f.registers;
      current.fpu := f.fpu;
      model := model.(cpu := model.cpu[current.pid := current.View()]);
    }

    /** `do_SwitchToFiber`. */
    method Switch(fiber: int, current: Task) returns (r: int)
      requires Valid() && Running(current) && Inv(model)
      modifies this`model, threadRepr, fiberRepr, current
      ensures Valid() && Running(current)
      ensures (model, r) == Uninterrupted(old(model), current.pid, fiber)
    {
      hide FibersOk, ThreadsOk, FiberObject.View, ThreadObject.View, Inv;
      if process == null {
        return -1;
      }
      Known();
      if current.pid !in process.threads {
        return -1;
      }
      var tp := process.threads[current.pid];
      KnownThread(current.pid);
      SelectedFacts(model, current.pid);
      if fiber !in process.fibers {
        return -1;
      }
      var f := process.fibers[fiber];
      KnownFiber(fiber);
      ghost var s, v := model, f.View();
      if !v.locked {
        FreeIsDetached(s, current.pid, fiber);
      }
      var free := TryLock(f);
      ghost var v1 := model.fibers[fiber];
      KnownFiber(fiber);
      f.Fields();
      if !free || f.attachedThread != null {
        Refuse(f);
        Twice(s, fiber, v1, model.fibers[fiber]);
        return -1;
      }
      tp.Chosen();
      var prev := tp.selectedFiber;
      KnownFiber(prev.fiberId);
      GoneIs(s, current.pid, fiber);
      hide Uninterrupted, Gone;
      GoTo(f, tp, prev, current);
      r := 0;
    }

    // ---------- fiber-local storage ----------

    /** The fiber the calling thread has selected, if there is one. */
    method Current(current: Task) returns (f: FiberObject?)
      requires Valid() && Running(current)
      ensures f == null <==> !HasFiber(model, current.pid)
      ensures f != null ==> process != null && Has(f) && f.fiberId == Selected(model, current.pid)
    {
      hide FibersOk, ThreadsOk, FiberObject.View, ThreadObject.View;
      if process == null {
        return null;
      }
      Known();
      if current.pid !in process.threads {
        return null;
      }
      var t := process.threads[current.pid];
      KnownThread(current.pid);
      t.Chosen();
      f := t.selectedFiber;
    }

    /** `do_FlsAlloc`. */
    method FlsAlloc(current: Task) returns (index: int)
      requires Valid() && Running(current)
      modifies this`model, fiberRepr
      ensures Valid() && Running(current)
      ensures model == FlsStep(old(model), Action.FlsAlloc(current.pid))
      ensures HasFiber(old(model), current.pid) <==> FlsReady(old(model), current.pid)
      ensures index == if FlsReady(old(model), current.pid) then Fls.Alloc(FlsOf(old(model), current.pid)).0 else -1
    {
      hide FibersOk, ThreadsOk, OthersOk, Store.View, Fls.Alloc, Fls.Free, Fls.Set, Fls.Valid;
      var f := Current(current);
      if f == null {
        return -1;
      }
      KnownFiber(f.fiberId);
      WithoutFiber(process.fibers, model.fibers, model.lastFiberId, fiberRepr, f);
      index := f.storage.Alloc();
      FiberBack(process.fibers, model.fibers, model.lastFiberId, fiberRepr, f);
      model := WithFiber(model, f.fiberId, f.View());
    }

    /** `do_FlsFree`. */
    method FlsFree(index: int, current: Task) returns (ok: bool)
      requires Valid() && Running(current)
      modifies this`model, fiberRepr
      ensures Valid() && Running(current)
      ensures model == FlsStep(old(model), Action.FlsFree(current.pid, index))
      ensures HasFiber(old(model), current.pid) <==> FlsReady(old(model), current.pid)
      ensures ok == (FlsReady(old(model), current.pid) && Fls.Free(FlsOf(old(model), current.pid), index).0)
    {
      hide FibersOk, ThreadsOk, OthersOk, Store.View, Fls.Alloc, Fls.Free, Fls.Set, Fls.Valid;
      var f := Current(current);
      if f == null {
        return false;
      }
      KnownFiber(f.fiberId);
      WithoutFiber(process.fibers, model.fibers, model.lastFiberId, fiberRepr, f);
      ok := f.storage.Free(index);
      FiberBack(process.fibers, model.fibers, model.lastFiberId, fiberRepr, f);
      model := WithFiber(model, f.fiberId, f.View());
    }

    /** `do_FlsSetValue`. */
    method FlsSetValue(index: int, value: int, current: Task)
      requires Valid() && Running(current)
      modifies this`model, fiberRepr
      ensures Valid() && Running(current)
      ensures model == FlsStep(old(model), Action.FlsSet(current.pid, index, value))
    {
      hide FibersOk, ThreadsOk, OthersOk, Store.View, Fls.Alloc, Fls.Free, Fls.Set, Fls.Valid;
      var f := Current(current);
      if f == null {
        return;
      }
      KnownFiber(f.fiberId);
      WithoutFiber(process.fibers, model.fibers, model.lastFiberId, fiberRepr, f);
      f.storage.SetValue(index, value);
      FiberBack(process.fibers, model.fibers, model.lastFiberId, fiberRepr, f);
      model := WithFiber(model, f.fiberId, f.View());
    }

    /** `do_FlsGetValue`. */
    method FlsGetValue(index: int, current: Task) returns (value: int)
      requires Valid() && Running(current)
      ensures HasFiber(model, current.pid) <==> FlsReady(model, current.pid)
      ensures value == if FlsReady(model, current.pid) then Fls.Get(FlsOf(model, current.pid), index) else -1
    {
      hide FibersOk, ThreadsOk, Store.View, Fls.Get, Fls.Valid;
      var f := Current(current);
      if f == null {
        return -1;
      }
      KnownFiber(f.fiberId);
      value := f.storage.GetValue(index);
    }

    // ---------- exit and close ----------

    /** `atomic64_dec_return` on the count of threads. */
    method CountDown() returns (ret: int)
      requires Valid() && process != null
      modifies this`model, process`activeThreads
      ensures Valid() && ret == old(model).activeThreads - 1 && model == old(model).(activeThreads := ret)
    {
      hide FibersOk, ThreadsOk;
      process.activeThreads := process.activeThreads - 1;
      model := model.(activeThreads := model.activeThreads - 1);
      ret := process.activeThreads;
    }

    method Unregister(pid: int)
      requires Valid() && process != null
      modifies this`model, process`threads
      ensures Valid() && model == old(model).(threads := old(model).threads - {pid})
    {
      hide FibersOk, ThreadsOk;
      ThreadRemoved(process.threads, process.fibers, model.threads, threadRepr, pid);
      process.threads := process.threads - {pid};
      model := model.(threads := model.threads - {pid});
    }

    /** The count of threads goes down, and a thread that is not the last one leaves its fiber. */
    method Release(f: FiberObject?, current: Task) returns (ret: int)
      requires Valid() && Running(current) && process != null
      requires f == null <==> !HasFiber(model, current.pid)
      requires f != null ==> Has(f) && f in fiberRepr && f.fiberId == Selected(model, current.pid)
      modifies this`model, process`activeThreads, fiberRepr
      ensures Valid() && model == Released(old(model), current.pid) && ret == model.activeThreads
    {
      hide FibersOk, ThreadsOk, FiberObject.View, ThreadObject.View;
      ret := CountDown();
      if f != null && ret != 0 {
        Leave(f, current);
      }
    }

    method Depart(f: FiberObject?, current: Task)
      requires Valid() && Running(current) && process != null && current.pid in process.threads
      requires f == null <==> !HasFiber(model, current.pid)
      requires f != null ==> Has(f) && f in fiberRepr && f.fiberId == Selected(model, current.pid)
      modifies this`process, this`model, process, fiberRepr
      ensures Valid() && model == ExitStep(old(model), current.pid)
    {
      hide FibersOk, ThreadsOk, FiberObject.View, ThreadObject.View;
      Known();
      DepartedIs(model, current.pid);
      hide ExitStep, Cleared, Released, HasFiber;
      var ret := Release(f, current);
      Unregister(current.pid);
      model := model.(cpu := model.cpu - {current.pid});
      if ret == 0 {
        Cleanup();
      }
    }

    /** `exit_cleanup`, for a thread whose user context goes with it. */
    method Exit(current: Task)
      requires Valid() && Running(current)
      modifies this`process, this`model, process, fiberRepr
      ensures Valid() && model == ExitStep(old(model), current.pid)
    {
      hide FibersOk, ThreadsOk, FiberObject.View, ThreadObject.View;
      if process == null {
        model := model.(cpu := model.cpu - {current.pid});
        return;
      }
      var f := Current(current);
      Known();
      if current.pid !in process.threads {
        model := model.(cpu := model.cpu - {current.pid});
        return;
      }
      if f != null {
        KnownFiber(f.fiberId);
      }
      Depart(f, current);
    }

    /** `process_cleanup`: the device is closed. */
    method Cleanup()
      requires Valid()
      modifies this`process, this`model
      ensures Valid() && model == Cleared(old(model))
    {
      process := null;
      model := Cleared(model);
    }
  }
}
