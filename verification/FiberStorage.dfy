/**
 Fiber-local storage in the state machine: what each call does to what its thread can see, and that a
 value is read back by whichever thread has the fiber later.
 */
module FiberStorage {
  import opened Fibers
  import opened FiberInvariant
  import opened FiberRuns
  import Fls

  /** What the storage of fiber `f` shows: the value of every allocated index. */
  ghost function Shown(s: System, f: int): map<int, int>
    requires f in s.fibers && Fls.Valid(s.fibers[f].fls)
  {
    Fls.Visible(s.fibers[f].fls)
  }

  /** What thread `pid` can see: the storage of the fiber it has selected. */
  ghost function Seen(s: System, pid: int): map<int, int>
    requires FlsReady(s, pid)
  {
    Shown(s, Selected(s, pid))
  }

  /** Nothing but the storage of `f` is different. */
  ghost predicate OnlyStorage(s: System, s': System, f: int) {
    && f in s.fibers && f in s'.fibers
    && s' == s.(fibers := s.fibers[f := s.fibers[f].(fls := s'.fibers[f].fls)])
  }

  /** An allocation adds the least of the 4096 indices that is not there yet, with the value left in the
      array, and does nothing exactly when all are there. */
  lemma AllocSeen(s: System, pid: int) returns (i: int)
    requires Inv(s) && Enabled(s, FlsAlloc(pid)) && HasFiber(s, pid)
    ensures FlsReady(s, pid)
    ensures var s' := Next(s, FlsAlloc(pid));
            && OnlyStorage(s, s', Selected(s, pid)) && FlsReady(s', pid) && Selected(s', pid) == Selected(s, pid)
            && s'.fibers[Selected(s, pid)].fls.values == s.fibers[Selected(s, pid)].fls.values
            && (i == -1 <==> forall k :: 0 <= k < 4096 ==> k in Seen(s, pid))
            && (i == -1 ==> s' == s)
            && (i != -1 ==>
                  && 0 <= i < 4096 && i !in Seen(s, pid) && (forall k :: 0 <= k < i ==> k in Seen(s, pid))
                  && Seen(s', pid) == Seen(s, pid)[i := s.fibers[Selected(s, pid)].fls.values[i]])
  {
    hide Fls.Alloc, Fls.Free, Fls.Set, Fls.Visible, Ownership;
    var area := s.fibers[Selected(s, pid)].fls;
    Fls.AllocVisible(area);
    assert Seen(s, pid) == Fls.Visible(area);
    i := Fls.Alloc(area).0;
  }

  /** Freeing hides the index. */
  lemma FreeSeen(s: System, pid: int, index: int)
    requires Inv(s) && Enabled(s, FlsFree(pid, index)) && HasFiber(s, pid)
    ensures FlsReady(s, pid)
    ensures var s' := Next(s, FlsFree(pid, index));
            && OnlyStorage(s, s', Selected(s, pid)) && FlsReady(s', pid) && Selected(s', pid) == Selected(s, pid)
            && s'.fibers[Selected(s, pid)].fls.values == s.fibers[Selected(s, pid)].fls.values
            && Seen(s', pid) == Seen(s, pid) - {index}
  {
    hide Fls.Alloc, Fls.Free, Fls.Set, Fls.Visible, Ownership;
    Fls.FreeVisible(s.fibers[Selected(s, pid)].fls, index);
  }

  /** Setting changes the value at an index that is there, and nothing at one that is not. */
  lemma SetSeen(s: System, pid: int, index: int, value: int)
    requires Inv(s) && Enabled(s, FlsSet(pid, index, value)) && HasFiber(s, pid)
    ensures FlsReady(s, pid)
    ensures var s' := Next(s, FlsSet(pid, index, value));
            && OnlyStorage(s, s', Selected(s, pid)) && FlsReady(s', pid) && Selected(s', pid) == Selected(s, pid)
            && Seen(s', pid) == if index in Seen(s, pid) then Seen(s, pid)[index := value] else Seen(s, pid)
  {
    hide Fls.Alloc, Fls.Free, Fls.Set, Fls.Visible, Ownership;
    Fls.SetVisible(s.fibers[Selected(s, pid)].fls, index, value);
  }

  /** A thread without a fiber changes nothing. */
  lemma NothingSeen(s: System, x: Action)
    requires (x.FlsAlloc? || x.FlsFree? || x.FlsSet?) && Enabled(s, x) && !HasFiber(s, x.pid)
    ensures Next(s, x) == s
  {
  }

  // ---------- a value is read back ----------

  /** The action frees or sets index `i` of fiber `f`. */
  predicate Disturbs(s: System, x: Action, f: int, i: int) {
    (x.FlsFree? || x.FlsSet?) && x.index == i && HasFiber(s, x.pid) && Selected(s, x.pid) == f
  }

  /** No action of the run does, and `f` outlives it. */
  ghost predicate Undisturbed(s: System, actions: seq<Action>, f: int, i: int)
    requires Inv(s)
    decreases |actions|
  {
    actions == [] ||
    (if !Enabled(s, actions[0]) then Undisturbed(s, actions[1..], f, i)
     else
       && !Disturbs(s, actions[0], f, i) && f in After(s, actions[0]).fibers
       && Undisturbed(After(s, actions[0]), actions[1..], f, i))
  }

  ghost predicate Holding(s: System, f: int, i: int, v: int) {
    f in s.fibers && Fls.Valid(s.fibers[f].fls) && i in Shown(s, f) && Shown(s, f)[i] == v
  }

  lemma HoldingNext(s: System, x: Action, f: int, i: int, v: int)
    requires Inv(s) && Enabled(s, x) && Holding(s, f, i, v)
    requires !Disturbs(s, x, f, i) && f in After(s, x).fibers
    ensures Holding(After(s, x), f, i, v)
  {
    hide Next, Ownership, Fls.Visible;
    if (x.FlsAlloc? || x.FlsFree? || x.FlsSet?) && HasFiber(s, x.pid) && Selected(s, x.pid) == f {
      match x
      case FlsAlloc(pid) => var _ := AllocSeen(s, pid);
      case FlsFree(pid, index) => FreeSeen(s, pid, index);
      case FlsSet(pid, index, value) => SetSeen(s, pid, index, value);
    } else {
      FlsBelongsToFiber(s, x, f);
    }
  }

  lemma {:induction false} HoldingRun(s: System, actions: seq<Action>, f: int, i: int, v: int)
    requires Inv(s) && Holding(s, f, i, v) && Undisturbed(s, actions, f, i)
    ensures Holding(Run(s, actions), f, i, v)
    decreases |actions|
  {
    hide Inv, Next, Enabled, Holding, Disturbs;
    if actions != [] {
      if Enabled(s, actions[0]) {
        HoldingNext(s, actions[0], f, i, v);
        HoldingRun(After(s, actions[0]), actions[1..], f, i, v);
      } else {
        HoldingRun(s, actions[1..], f, i, v);
      }
    }
  }

  /** A value that `pid` sets is read back by whichever thread `u` then has the fiber, after any actions of
      any threads that neither free nor set its index on it. */
  lemma SetThenRead(s: System, pid: int, i: int, v: int, actions: seq<Action>, u: int)
    requires Inv(s) && Enabled(s, FlsSet(pid, i, v)) && HasFiber(s, pid) && i in Seen(s, pid)
    requires Undisturbed(After(s, FlsSet(pid, i, v)), actions, Selected(s, pid), i)
    requires var s' := Run(After(s, FlsSet(pid, i, v)), actions); HasFiber(s', u) && Selected(s', u) == Selected(s, pid)
    ensures var s' := Run(After(s, FlsSet(pid, i, v)), actions);
            && FlsReady(s', u) && i in Seen(s', u) && Seen(s', u)[i] == v
            && Fls.Get(s'.fibers[Selected(s', u)].fls, i) == v
  {
    hide Inv, Next, Undisturbed, Fls.Get, Fls.Visible;
    var s1 := After(s, FlsSet(pid, i, v));
    SetSeen(s, pid, i, v);
    HoldingRun(s1, actions, Selected(s, pid), i, v);
    var s' := Run(s1, actions);
    Fls.SetVisible(s'.fibers[Selected(s', u)].fls, i, v);
  }
}
