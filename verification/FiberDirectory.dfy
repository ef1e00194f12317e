/**
 The directory of a process: an array with one entry for every id given out, filled from the table of
 fibers, in whatever order the table is walked.
 */
module FiberDirectory {
  import opened Fibers
  import opened FiberInvariant

  /** The table of fibers walked once, each fiber met exactly once. */
  ghost predicate Walks(order: seq<int>, fibers: map<int, Fiber>) {
    && (forall i :: 0 <= i < |order| ==> order[i] in fibers)
    && (forall f :: f in fibers ==> f in order)
    && (forall i, j :: 0 <= i < j < |order| ==> order[i] != order[j])
  }

  function Members(order: seq<int>): (s: set<int>)
    ensures forall f :: f in s <==> f in order
  {
    if order == [] then {} else Members(order[1..]) + {order[0]}
  }

  lemma {:induction false} WalkLength(order: seq<int>)
    requires forall i, j :: 0 <= i < j < |order| ==> order[i] != order[j]
    ensures |Members(order)| == |order|
  {
    if order != [] {
      WalkLength(order[1..]);
      assert order[0] !in order[1..];
    }
  }

  /** A walk meets as many fibers as ids were given out. */
  lemma WalkFills(s: System, order: seq<int>)
    requires Inv(s) && Walks(order, s.fibers)
    ensures |order| == s.lastFiberId
  {
    hide Ownership;
    WalkLength(order);
    IdsInterval(Members(order), s.lastFiberId);
  }

  /** The fill loop of `proc_fiber_base_readdir`: it stays inside the array, leaves no entry empty and lists
      every fiber once. */
  method Fill(s: System, order: seq<int>) returns (entries: array<int>)
    requires Inv(s) && s.present && Walks(order, s.fibers)
    ensures fresh(entries) && entries.Length == s.lastFiberId && entries[..] == order
    ensures forall f :: 1 <= f <= s.lastFiberId <==> f in entries[..]
  {
    hide Ownership;
    WalkFills(s, order);
    var nents := s.lastFiberId;
    entries := new int[nents](_ => 0);
    var counter := 0;
    while counter < |order|
      invariant 0 <= counter <= |order| && entries[..counter] == order[..counter]
    {
      entries[counter] := order[counter];
      counter := counter + 1;
    }
  }
}
