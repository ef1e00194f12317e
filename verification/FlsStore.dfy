/**
 The same storage updated in place: the array and the bitmap of one `struct fiber`.
 */
module FlsStore {
  import Fls

  class Store {
    const fls: array<int>
    const bitmap: array<bool>

    ghost predicate Sized() {
      fls.Length == Fls.MAX_FLS_POINTERS && bitmap.Length == Fls.MAX_FLS_POINTERS
    }

    ghost function View(): (a: Fls.Area)
      reads fls, bitmap
      requires Sized()
      ensures Fls.Valid(a)
    {
      Fls.Area(fls[..], bitmap[..])
    }

    constructor ()
      ensures Sized() && View() == Fls.Fresh() && fresh(fls) && fresh(bitmap)
    {
      fls := new int[Fls.MAX_FLS_POINTERS](_ => 0);
      bitmap := new bool[Fls.MAX_FLS_POINTERS](_ => false);
      new;
      assert fls[..] == Fls.Fresh().values && bitmap[..] == Fls.Fresh().used;
    }

    /** `do_FlsAlloc`: find the first zero bit and flip it. */
    method Alloc() returns (index: int)
      requires Sized()
      modifies bitmap
      ensures (index, View()) == Fls.Alloc(old(View()))
    {
      index := 0;
      while index < Fls.MAX_FLS_POINTERS && bitmap[index]
        invariant 0 <= index <= Fls.MAX_FLS_POINTERS
        invariant Fls.FirstZero(bitmap[..], 0) == Fls.FirstZero(bitmap[..], index)
      {
        index := index + 1;
      }
      if index == Fls.MAX_FLS_POINTERS {
        return -1;
      }
      bitmap[index] := !bitmap[index];
    }

    /** `do_FlsFree`. */
    method Free(index: int) returns (ok: bool)
      requires Sized()
      modifies bitmap
      ensures (ok, View()) == Fls.Free(old(View()), index)
    {
      if index >= Fls.MAX_FLS_POINTERS || index < 0 {
        return false;
      }
      if !bitmap[index] {
        return false;
      }
      bitmap[index] := !bitmap[index];
      return true;
    }

    /** `do_FlsGetValue`. */
    method GetValue(index: int) returns (value: int)
      requires Sized()
      ensures value == Fls.Get(View(), index)
    {
      if index >= Fls.MAX_FLS_POINTERS || index < 0 {
        return -1;
      }
      if !bitmap[index] {
        return -1;
      }
      return fls[index];
    }

    /** `do_FlsSetValue`. */
    method SetValue(index: int, value: int)
      requires Sized()
      modifies fls
      ensures View() == Fls.Set(old(View()), index, value)
    {
      if index >= Fls.MAX_FLS_POINTERS || index < 0 {
        return;
      }
      if !bitmap[index] {
        return;
      }
      fls[index] := value;
    }
  }
}
