/**
 The activation counters of a live process against a record of what happened to it.
 */
module FiberAccounting {
  import opened Fibers
  import opened FiberInvariant

  /** What happened to one fiber since it was made: it was given to a thread, left by one, refused. */
  datatype Entry = Entry(given: nat, left: nat, refused: nat)

  /** The entries of the fibers, and the successful calls that gave one to a thread. */
  datatype Books = Books(entries: map<int, Entry>, converts: nat, switches: nat)

  function EmptyBooks(): Books {
    Books(map[], 0, 0)
  }

  function EntryOf(b: Books, f: int): Entry {
    if f in b.entries then b.entries[f] else Entry(0, 0, 0)
  }

  /** Record an action; the books are closed when the process disappears. */
  function Record(s: System, b: Books, x: Action): Books {
    match x
    case Convert(pid) =>
      if pid in s.threads then b
      else b.(entries := b.entries[s.lastFiberId + 1 := Entry(1, 0, 0)], converts := b.converts + 1)
    case Create(pid, _, _, _, _) =>
      if Registered(s, pid) then b.(entries := b.entries[s.lastFiberId + 1 := Entry(0, 0, 0)]) else b
    case Switch(pid, f) =>
      if Registered(s, pid) && f in s.fibers && !Granted(s, x) then
        b.(entries := b.entries[f := EntryOf(b, f).(refused := EntryOf(b, f).refused + 1)])
      else b
    case Advance(pid) =>
      if pid !in s.calls then b
      else
        var c := s.calls[pid];
        if c.stage == LOCKED then
          b.(entries := b.entries[c.target := EntryOf(b, c.target).(given := EntryOf(b, c.target).given + 1)],
             switches := b.switches + 1)
        else if c.stage == FPU_SAVED then
          b.(entries := b.entries[c.prev := EntryOf(b, c.prev).(left := EntryOf(b, c.prev).left + 1)])
        else b
    case Exit(pid) =>
      if !HasFiber(s, pid) then b
      else if s.activeThreads == 1 then EmptyBooks()
      else
        var f := Selected(s, pid);
        b.(entries := b.entries[f := EntryOf(b, f).(left := EntryOf(b, f).left + 1)])
    case Close => EmptyBooks()
    case _ => b
  }

  /** The activations of fibers 1 to `n`. */
  function Activations(fibers: map<int, Fiber>, n: int): nat
    decreases n
  {
    if n <= 0 then 0
    else Activations(fibers, n - 1) + if n in fibers then fibers[n].activationCounter else 0
  }

  ghost predicate Agrees(fiber: Fiber, e: Entry) {
    && fiber.activationCounter == e.given && fiber.failedActivationCounter == e.refused
    && e.given == e.left + if fiber.attachedThread.Some? then 1 else 0
  }

  ghost predicate Balanced(s: System, b: Books) {
    && b.entries.Keys == s.fibers.Keys
    && (forall f :: f in s.fibers ==> Agrees(s.fibers[f], b.entries[f]))
    && Activations(s.fibers, s.lastFiberId) == b.converts + b.switches
  }

  lemma {:induction false} ActivationsFrame(fibers: map<int, Fiber>, fibers': map<int, Fiber>, n: int)
    requires forall f :: 1 <= f <= n ==> (f in fibers <==> f in fibers')
    requires forall f :: 1 <= f <= n && f in fibers ==> fibers'[f].activationCounter == fibers[f].activationCounter
    ensures Activations(fibers', n) == Activations(fibers, n)
    decreases n
  {
    if n > 0 {
      ActivationsFrame(fibers, fibers', n - 1);
    }
  }

  lemma {:induction false} ActivationsUpdate(fibers: map<int, Fiber>, f: int, fiber: Fiber, n: int)
    requires 1 <= f <= n && f in fibers
    ensures Activations(fibers[f := fiber], n)
         == Activations(fibers, n) + fiber.activationCounter - fibers[f].activationCounter
    decreases n
  {
    if f == n {
      ActivationsFrame(fibers, fibers[f := fiber], n - 1);
    } else {
      ActivationsUpdate(fibers, f, fiber, n - 1);
    }
  }

  /** One fiber of the table changes, and its entry with it. */
  lemma OneEntry(s: System, s': System, b: Books, b': Books, f: int)
    requires Balanced(s, b) && f in s.fibers && 1 <= f <= s.lastFiberId && s'.lastFiberId == s.lastFiberId
    requires f in s'.fibers && s'.fibers == s.fibers[f := s'.fibers[f]]
    requires f in b'.entries && b'.entries == b.entries[f := b'.entries[f]] && Agrees(s'.fibers[f], b'.entries[f])
    requires b'.converts + b'.switches - b.converts - b.switches
             == s'.fibers[f].activationCounter - s.fibers[f].activationCounter
    ensures Balanced(s', b')
  {
    hide Agrees;
    ActivationsUpdate(s.fibers, f, s'.fibers[f], s.lastFiberId);
  }

  /** One fiber is added at the end of the table. */
  lemma NewEntry(s: System, s': System, b: Books, b': Books)
    requires Balanced(s, b) && s.lastFiberId >= 0 && s'.lastFiberId == s.lastFiberId + 1
    requires s.lastFiberId + 1 !in s.fibers && s.lastFiberId + 1 in s'.fibers && s.lastFiberId + 1 in b'.entries
    requires s'.fibers == s.fibers[s.lastFiberId + 1 := s'.fibers[s.lastFiberId + 1]]
    requires b'.entries == b.entries[s.lastFiberId + 1 := b'.entries[s.lastFiberId + 1]]
    requires Agrees(s'.fibers[s.lastFiberId + 1], b'.entries[s.lastFiberId + 1])
    requires b'.converts + b'.switches - b.converts - b.switches == s'.fibers[s.lastFiberId + 1].activationCounter
    ensures Balanced(s', b')
  {
    hide Agrees;
    ActivationsFrame(s.fibers, s'.fibers, s.lastFiberId);
  }

  /** Nothing the books are about changes. */
  lemma NoEntry(s: System, s': System, b: Books)
    requires Balanced(s, b) && s'.lastFiberId == s.lastFiberId && s'.fibers == s.fibers
    ensures Balanced(s', b)
  {
  }

  lemma ConvertBalanced(s: System, b: Books, x: Action)
    requires Inv(s) && Balanced(s, b) && x.Convert? && Enabled(s, x)
    ensures Balanced(Next(s, x), Record(s, b, x))
  {
    hide Ownership, Balanced, Fls.Fresh, Fls.Valid;
    if x.pid in s.threads {
      NoEntry(s, Next(s, x), b);
    } else {
      ConvertShape(s, x.pid);
      NewEntry(s, Next(s, x), b, Record(s, b, x));
    }
  }

  lemma CreateBalanced(s: System, b: Books, x: Action)
    requires Inv(s) && Balanced(s, b) && x.Create? && Enabled(s, x)
    ensures Balanced(Next(s, x), Record(s, b, x))
  {
    hide Ownership, Balanced, Fls.Fresh, Fls.Valid;
    if Registered(s, x.pid) {
      NewEntry(s, Next(s, x), b, Record(s, b, x));
    } else {
      NoEntry(s, Next(s, x), b);
    }
  }

  lemma EntryAgrees(s: System, b: Books, f: int)
    requires Balanced(s, b) && f in s.fibers
    ensures f in b.entries && EntryOf(b, f) == b.entries[f] && Agrees(s.fibers[f], EntryOf(b, f))
  {
  }

  lemma SwitchBalanced(s: System, b: Books, x: Action)
    requires Inv(s) && Balanced(s, b) && x.Switch? && Enabled(s, x)
    ensures Balanced(Next(s, x), Record(s, b, x))
  {
    hide Ownership, Balanced, Fls.Valid;
    if Registered(s, x.pid) && x.fiber in s.fibers {
      EntryAgrees(s, b, x.fiber);
      var b' := Record(s, b, x).(entries := Record(s, b, x).entries[x.fiber := EntryOf(Record(s, b, x), x.fiber)]);
      assert b'.entries == Record(s, b, x).entries;
      OneEntry(s, Next(s, x), b, b', x.fiber);
    } else {
      NoEntry(s, Next(s, x), b);
    }
  }

  lemma FlsBalanced(s: System, b: Books, x: Action)
    requires Inv(s) && Balanced(s, b) && (x.FlsAlloc? || x.FlsFree? || x.FlsSet?) && Enabled(s, x)
    ensures Balanced(Next(s, x), Record(s, b, x))
  {
    hide Ownership, Balanced, Fls.Alloc, Fls.Free, Fls.Set;
    if FlsReady(s, x.pid) {
      var f := Selected(s, x.pid);
      EntryAgrees(s, b, f);
      assert b.entries == b.entries[f := b.entries[f]];
      OneEntry(s, Next(s, x), b, b, f);
    }
  }

  lemma ExitBalanced(s: System, b: Books, x: Action)
    requires Inv(s) && Balanced(s, b) && x.Exit? && Enabled(s, x)
    ensures Balanced(Next(s, x), Record(s, b, x))
  {
    if HasFiber(s, x.pid) && s.activeThreads != 1 {
      var f := Selected(s, x.pid);
      EntryAgrees(s, b, f);
      assert Attaches(s, x.pid, f);
      hide Ownership, Balanced, Fls.Valid;
      OneEntry(s, Next(s, x), b, Record(s, b, x), f);
    }
  }

  /** Attaching counts one activation, detaching one departure; the other steps count nothing. */
  lemma AdvanceBalanced(s: System, b: Books, pid: int)
    requires Inv(s) && Balanced(s, b) && pid in s.calls && pid in s.cpu
    ensures Balanced(AdvanceStep(s, pid), Record(s, b, Advance(pid)))
  {
    var c := s.calls[pid];
    assert CallOk(s, pid);
    EntryAgrees(s, b, c.target);
    if c.stage == LOCKED {
      NeverAlreadyAttached(s, pid);
      hide Ownership, Balanced, Fls.Valid;
      OneEntry(s, AdvanceStep(s, pid), b, Record(s, b, Advance(pid)), c.target);
    } else if RESELECTED <= c.stage <= DETACHED {
      EntryAgrees(s, b, c.prev);
      assert c.stage == FPU_SAVED ==> Attaches(s, pid, c.prev);
      hide Ownership, Balanced, Fls.Valid;
      var b' := Record(s, b, Advance(pid));
      var b'' := b'.(entries := b'.entries[c.prev := EntryOf(b', c.prev)]);
      assert b''.entries == b'.entries;
      OneEntry(s, AdvanceStep(s, pid), b, b'', c.prev);
    } else {
      hide Ownership, Balanced;
      NoEntry(s, AdvanceStep(s, pid), b);
    }
  }

  lemma NextBalanced(s: System, b: Books, x: Action)
    requires Inv(s) && Balanced(s, b) && Enabled(s, x)
    ensures Balanced(After(s, x), Record(s, b, x))
  {
    AdvanceHasContext(s, x);
    match x {
      case RunUser(_, _) =>
        hide Ownership, Balanced;
        NoEntry(s, After(s, x), b);
      case Convert(_) => ConvertBalanced(s, b, x);
      case Create(_, _, _, _, _) => CreateBalanced(s, b, x);
      case Switch(_, _) => SwitchBalanced(s, b, x);
      case Advance(pid) => AdvanceBalanced(s, b, pid);
      case FlsAlloc(_) => FlsBalanced(s, b, x);
      case FlsFree(_, _) => FlsBalanced(s, b, x);
      case FlsSet(_, _, _) => FlsBalanced(s, b, x);
      case Exit(_) => ExitBalanced(s, b, x);
      case Close =>
    }
  }

  ghost function RunBooks(s: System, b: Books, actions: seq<Action>): Books
    requires Inv(s)
    decreases |actions|
  {
    if actions == [] then b
    else if !Enabled(s, actions[0]) then RunBooks(s, b, actions[1..])
    else RunBooks(After(s, actions[0]), Record(s, b, actions[0]), actions[1..])
  }

  lemma {:induction false} RunBalanced(s: System, b: Books, actions: seq<Action>)
    requires Inv(s) && Balanced(s, b)
    ensures Balanced(Run(s, actions), RunBooks(s, b, actions))
    decreases |actions|
  {
    hide Inv, Balanced, Next, Record, Enabled;
    if actions != [] {
      if Enabled(s, actions[0]) {
        NextBalanced(s, b, actions[0]);
        RunBalanced(After(s, actions[0]), Record(s, b, actions[0]), actions[1..]);
      } else {
        RunBalanced(s, b, actions[1..]);
      }
    }
  }

  /** On every run: the activations of all fibers together are the converts and switches that succeeded,
      each fiber's activations exceed its departures by one exactly while it is attached, and its failed
      activations are the switches to it that were refused. */
  lemma ActivationAccounting(actions: seq<Action>)
    ensures var s, b := Reach(actions), RunBooks(Reach([]), EmptyBooks(), actions);
            && Activations(s.fibers, s.lastFiberId) == b.converts + b.switches
            && (forall f :: f in s.fibers ==> f in b.entries && Agrees(s.fibers[f], b.entries[f]))
  {
    InitInv();
    assert Balanced(Init(), EmptyBooks());
    hide Inv, Run, RunBooks, Agrees, Activations;
    RunBalanced(Init(), EmptyBooks(), actions);
  }

  // ---------- granted switches ----------

  /** The threads that have the lock of their target and have not attached it yet. */
  function Waiting(calls: map<int, Switching>): set<int> {
    set t | t in calls && calls[t].stage == LOCKED
  }

  /** How many switches were granted, counted where the lock is obtained, since the process was made. */
  ghost function RunGrants(s: System, n: nat, actions: seq<Action>): nat
    requires Inv(s)
    decreases |actions|
  {
    if actions == [] then n
    else if !Enabled(s, actions[0]) then RunGrants(s, n, actions[1..])
    else
      var s' := After(s, actions[0]);
      RunGrants(s', if s.present && !s'.present then 0 else n + if Granted(s, actions[0]) then 1 else 0, actions[1..])
  }

  lemma CallsNext(s: System, x: Action)
    requires Inv(s) && Enabled(s, x) && !x.Advance?
    ensures After(s, x).calls == if Granted(s, x) then s.calls[x.pid := Switching(LOCKED, x.fiber, 0)] else s.calls
  {
    hide Inv, Fls.Fresh, Fls.Valid;
  }

  lemma CallsAdvance(s: System, pid: int)
    requires Inv(s) && pid in s.calls
    ensures pid in s.cpu
    ensures var calls := AdvanceStep(s, pid).calls;
            || calls == s.calls - {pid}
            || (pid in calls && calls[pid].stage > LOCKED && calls == s.calls[pid := calls[pid]])
  {
    AdvanceHasContext(s, Advance(pid));
    assert CallOk(s, pid);
    if s.calls[pid].stage == LOCKED {
      NeverAlreadyAttached(s, pid);
    }
    hide Inv;
  }

  /** A thread waits from the granting of its switch to the next step of its own. */
  lemma WaitingNext(s: System, x: Action)
    requires Inv(s) && Enabled(s, x)
    ensures Waiting(After(s, x).calls) ==
            (if Granted(s, x) then Waiting(s.calls) + {x.pid}
             else if x.Advance? then Waiting(s.calls) - {x.pid}
             else Waiting(s.calls))
    ensures Granted(s, x) ==> x.pid !in Waiting(s.calls)
  {
    hide Inv, AdvanceStep, ConvertStep, CreateStep, SwitchStep, ExitStep, FlsStep, Waiting;
    if x.Advance? {
      CallsAdvance(s, x.pid);
      WaitingLess(s.calls, After(s, x).calls, x.pid);
    } else {
      CallsNext(s, x);
      if Granted(s, x) {
        WaitingMore(s.calls, x.pid, x.fiber);
      }
    }
  }

  lemma WaitingMore(calls: map<int, Switching>, pid: int, fiber: int)
    requires pid !in calls
    ensures Waiting(calls[pid := Switching(LOCKED, fiber, 0)]) == Waiting(calls) + {pid} && pid !in Waiting(calls)
  {
  }

  lemma WaitingLess(calls: map<int, Switching>, calls': map<int, Switching>, pid: int)
    requires pid in calls
    requires calls' == calls - {pid}
          || (pid in calls' && calls'[pid].stage > LOCKED && calls' == calls[pid := calls'[pid]])
    ensures Waiting(calls') == Waiting(calls) - {pid}
  {
  }

  /** Every granted switch is counted, or its thread has not taken its next step yet. */
  ghost predicate GrantsAgree(s: System, b: Books, n: nat) {
    n == b.switches + |Waiting(s.calls)| && (!s.present ==> b.switches == 0 && Waiting(s.calls) == {})
  }

  /** When the process disappears nobody waits. */
  lemma NobodyWaits(s: System, x: Action)
    requires Inv(s) && Enabled(s, x) && s.present && !After(s, x).present
    ensures forall b :: Record(s, b, x).switches == 0
    ensures Waiting(After(s, x).calls) == {}
  {
    DisappearsIff(s, x);
    if x.Exit? {
      assert |s.threads.Keys| == 1;
      OnlyThread(s, x.pid);
      assert HasFiber(s, x.pid);
    }
    hide Inv;
  }

  /** The next step of a waiting thread is what the books count. */
  lemma RecordSwitches(s: System, b: Books, x: Action)
    requires Inv(s) && Enabled(s, x)
    requires s.present ==> After(s, x).present
    requires !s.present ==> b.switches == 0
    ensures Record(s, b, x).switches == b.switches + if x.Advance? && x.pid in Waiting(s.calls) then 1 else 0
    ensures !s.present ==> !Granted(s, x) && Waiting(s.calls) == {}
    ensures !After(s, x).present ==> !s.present
  {
    if s.present {
      DisappearsIff(s, x);
      if x.Exit? && x.pid in s.threads && s.activeThreads == 1 {
        OnlyThread(s, x.pid);
      }
    } else {
      forall t | t in s.calls
        ensures false
      {
        assert CallOk(s, t);
      }
    }
    hide Inv, Next;
  }

  lemma GrantsNext(s: System, b: Books, n: nat, x: Action)
    requires Inv(s) && Enabled(s, x) && GrantsAgree(s, b, n)
    ensures var s' := After(s, x);
            GrantsAgree(s', Record(s, b, x),
                        if s.present && !s'.present then 0 else n + if Granted(s, x) then 1 else 0)
  {
    var s' := After(s, x);
    if s.present && !s'.present {
      NobodyWaits(s, x);
    } else {
      WaitingNext(s, x);
      RecordSwitches(s, b, x);
      hide Inv, Record, Next, Waiting;
    }
  }

  lemma {:induction false} RunGrantsAgree(s: System, b: Books, n: nat, actions: seq<Action>)
    requires Inv(s) && GrantsAgree(s, b, n)
    ensures GrantsAgree(Run(s, actions), RunBooks(s, b, actions), RunGrants(s, n, actions))
    decreases |actions|
  {
    hide Inv, GrantsAgree, Next, Record, Enabled, Granted;
    if actions != [] {
      var x := actions[0];
      if Enabled(s, x) {
        var s' := After(s, x);
        GrantsNext(s, b, n, x);
        RunGrantsAgree(s', Record(s, b, x),
                       if s.present && !s'.present then 0 else n + if Granted(s, x) then 1 else 0, actions[1..]);
      } else {
        RunGrantsAgree(s, b, n, actions[1..]);
      }
    }
  }

  /** On every run: the activations of all fibers together are the converts and the granted switches, less
      the threads that have a lock and have not attached its fiber yet. */
  lemma GrantAccounting(actions: seq<Action>)
    ensures var s, b := Reach(actions), RunBooks(Reach([]), EmptyBooks(), actions);
            var grants := RunGrants(Reach([]), 0, actions);
            && grants == b.switches + |Waiting(s.calls)|
            && Activations(s.fibers, s.lastFiberId) == b.converts + grants - |Waiting(s.calls)|
  {
    InitInv();
    ActivationAccounting(actions);
    assert GrantsAgree(Init(), EmptyBooks(), 0);
    hide Inv, Run, RunBooks, RunGrants, Activations, Waiting;
    RunGrantsAgree(Init(), EmptyBooks(), 0, actions);
  }
}
