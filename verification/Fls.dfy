/**
 Fiber-local storage: an array of 4096 values and a bitmap that says which of them are allocated.
 A value stays in the array when its index is freed.
 */
module Fls {

  const MAX_FLS_POINTERS := 4096

  datatype Area = Area(values: seq<int>, used: seq<bool>)

  predicate Valid(a: Area) {
    |a.values| == MAX_FLS_POINTERS && |a.used| == MAX_FLS_POINTERS
  }

  function Fresh(): (a: Area)
    ensures Valid(a)
  {
    Area(seq(MAX_FLS_POINTERS, _ => 0), seq(MAX_FLS_POINTERS, _ => false))
  }

  /** The first index from `i` on whose bit is clear; 4096 when there is none. */
  function FirstZero(used: seq<bool>, i: nat): (r: nat)
    requires i <= |used|
    ensures i <= r <= |used|
    ensures r < |used| ==> !used[r]
    ensures forall k :: i <= k < r ==> used[k]
    decreases |used| - i
  {
    if i == |used| || !used[i] then i else FirstZero(used, i + 1)
  }

  predicate Allocated(a: Area, index: int)
    requires Valid(a)
  {
    0 <= index < MAX_FLS_POINTERS && a.used[index]
  }

  function Alloc(a: Area): (r: (int, Area))
    requires Valid(a)
    ensures Valid(r.1)
  {
    var index: int := FirstZero(a.used, 0);
    if index == MAX_FLS_POINTERS then (-1, a) else (index, a.(used := a.used[index := !a.used[index]]))
  }

  function Free(a: Area, index: int): (r: (bool, Area))
    requires Valid(a)
    ensures Valid(r.1)
  {
    if !Allocated(a, index) then (false, a) else (true, a.(used := a.used[index := !a.used[index]]))
  }

  function Get(a: Area, index: int): int
    requires Valid(a)
  {
    if !Allocated(a, index) then -1 else a.values[index]
  }

  function Set(a: Area, index: int, value: int): (r: Area)
    requires Valid(a)
    ensures Valid(r)
  {
    if !Allocated(a, index) then a else a.(values := a.values[index := value])
  }

  // ---------- the area as a partial map ----------

  /** What a fiber can see: the value of every allocated index. */
  ghost function Visible(a: Area): map<int, int>
    requires Valid(a)
  {
    map i | 0 <= i < MAX_FLS_POINTERS && a.used[i] :: a.values[i]
  }

  /** Allocation adds the least index outside the map, with whatever value was left there, and fails
      exactly when the map is total. */
  lemma AllocVisible(a: Area)
    requires Valid(a)
    ensures var (i, a') := Alloc(a);
            && (i == -1 <==> forall k :: 0 <= k < MAX_FLS_POINTERS ==> k in Visible(a))
            && (i == -1 ==> a' == a)
            && (i != -1 ==>
                  && 0 <= i < MAX_FLS_POINTERS && i !in Visible(a)
                  && (forall k :: 0 <= k < i ==> k in Visible(a))
                  && Visible(a') == Visible(a)[i := a.values[i]] && a'.values == a.values)
  {
    var index := FirstZero(a.used, 0);
    if index < MAX_FLS_POINTERS {
      assert index !in Visible(a);
    }
  }

  lemma FreeVisible(a: Area, index: int)
    requires Valid(a)
    ensures var (ok, a') := Free(a, index);
            ok == (index in Visible(a)) && Visible(a') == Visible(a) - {index} && a'.values == a.values
  {
    var a' := Free(a, index).1;
    assert Visible(a').Keys == Visible(a).Keys - {index};
  }

  lemma SetVisible(a: Area, index: int, value: int)
    requires Valid(a)
    ensures Visible(Set(a, index, value)) == if index in Visible(a) then Visible(a)[index := value] else Visible(a)
    ensures Get(a, index) == if index in Visible(a) then Visible(a)[index] else -1
  {
    var a' := Set(a, index, value);
    if index in Visible(a) {
      assert Visible(a').Keys == Visible(a)[index := value].Keys;
    }
  }

  /** A fiber that has made no call yet gets 0, then 1: the two slots the simulation keeps its queue and
      its cell in. */
  lemma FirstTwo()
    ensures var (i, a) := Alloc(Fresh()); i == 0 && Alloc(a).0 == 1
  {
    var a := Alloc(Fresh()).1;
    assert FirstZero(Fresh().used, 0) == 0;
    assert a.used[0] && !a.used[1];
    assert FirstZero(a.used, 0) == FirstZero(a.used, 1) == 1;
  }

  // ---------- runs of calls by one fiber ----------

  datatype Op = AllocOp | FreeOp(index: int) | SetOp(index: int, value: int)

  function Apply(a: Area, op: Op): (r: Area)
    requires Valid(a)
    ensures Valid(r)
  {
    match op
    case AllocOp => Alloc(a).1
    case FreeOp(i) => Free(a, i).1
    case SetOp(i, v) => Set(a, i, v)
  }

  function ApplyAll(a: Area, ops: seq<Op>): (r: Area)
    requires Valid(a)
    ensures Valid(r)
    decreases |ops|
  {
    if ops == [] then a else ApplyAll(Apply(a, ops[0]), ops[1..])
  }

  /** No call of the run stores at `index`. */
  predicate NeverSet(ops: seq<Op>, index: int) {
    forall op <- ops :: !(op.SetOp? && op.index == index)
  }

  predicate NeverFreed(ops: seq<Op>, index: int) {
    FreeOp(index) !in ops
  }

  /** A value set can be read back after any calls that neither free nor set its index. */
  lemma SetThenGet(a: Area, index: int, value: int, ops: seq<Op>)
    requires Valid(a) && Allocated(a, index) && NeverSet(ops, index) && NeverFreed(ops, index)
    ensures Get(ApplyAll(Set(a, index, value), ops), index) == value
  {
    ValueStays(Set(a, index, value), index, ops);
    AllocatedStays(Set(a, index, value), index, ops);
  }

  lemma {:induction false} ValueStays(a: Area, index: int, ops: seq<Op>)
    requires Valid(a) && 0 <= index < MAX_FLS_POINTERS && NeverSet(ops, index)
    ensures ApplyAll(a, ops).values[index] == a.values[index]
    decreases |ops|
  {
    if ops != [] {
      assert ops[0] in ops;
      ValueStays(Apply(a, ops[0]), index, ops[1..]);
    }
  }

  lemma {:induction false} AllocatedStays(a: Area, index: int, ops: seq<Op>)
    requires Valid(a) && Allocated(a, index) && NeverFreed(ops, index)
    ensures Allocated(ApplyAll(a, ops), index)
    decreases |ops|
  {
    if ops != [] {
      assert ops[0] in ops;
      AllocatedStays(Apply(a, ops[0]), index, ops[1..]);
    }
  }

  /** A freed index that is handed out again still holds its old value, as long as nothing was stored there. */
  lemma StaleValue(a: Area, index: int, ops: seq<Op>)
    requires Valid(a) && Allocated(a, index) && NeverSet(ops, index)
    requires Allocated(ApplyAll(Free(a, index).1, ops), index)
    ensures Get(Free(a, index).1, index) == -1
    ensures Get(ApplyAll(Free(a, index).1, ops), index) == Get(a, index)
  {
    ValueStays(Free(a, index).1, index, ops);
  }
}
