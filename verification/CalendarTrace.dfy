/**
 Two short runs from a fresh calendar: three events that come out in the wrong order, and five of one
 priority, for which the resize finds no width.
 */
module CalendarTrace {
  import opened Wrappers
  import opened Grid
  import opened Calendar
  import opened CalendarContents
  import opened CalendarWidth
  import opened CalendarRuns

  const Early := Event(3.2, 1)
  const Middling := Event(3.7, 2)
  const Late := Event(4.3, 3)

  /** The calendar of `calqueue_init` with these buckets and this position. */
  function At(even: Bucket<int>, odd: Bucket<int>, lastbucket: int, lastprio: real, buckettop: real): (q: Queue<int>)
    requires 0 <= lastbucket < 2
    ensures Usable(q) && Counted(q)
  {
    assert [even, odd][..1] == [even] && [even][..0] == [];
    assert Drain([even]) == even;
    assert Drain([even, odd]) == odd + even;
    Queue(0, [even, odd], |even| + |odd|, lastbucket, lastprio, buckettop, 1.0, 4, -1, true)
  }

  lemma UnitWidth(p: real)
    ensures VirtualBucket(p, 1.0) == p.Floor
  {
    assert p / 1.0 == p;
  }

  lemma Slots()
    ensures Slot(3.2, 1.0, 2) == 1 && Slot(3.7, 1.0, 2) == 1 && Slot(4.3, 1.0, 2) == 0
  {
    UnitWidth(3.2);
    UnitWidth(3.7);
    UnitWidth(4.3);
  }

  lemma Puts()
    ensures Init<int>() == At([], [], 0, 0.0, 1.5)
    ensures Put(At([], [], 0, 0.0, 1.5), Early) == Fine(At([], [Early], 0, 0.0, 1.5))
    ensures Put(At([], [Early], 0, 0.0, 1.5), Middling) == Fine(At([], [Early, Middling], 0, 0.0, 1.5))
    ensures Put(At([], [Early, Middling], 0, 0.0, 1.5), Late) == Fine(At([Late], [Early, Middling], 0, 0.0, 1.5))
  {
    Slots();
    UnitWidth(0.0);
    assert EmptyBuckets<int>(2) == [[], []];
    assert InsertSorted([], Early) == [Early] && InsertSorted([], Late) == [Late];
    assert Insert(At([], [], 0, 0.0, 1.5), Early).buckets == [[], [Early]];
    assert InsertSorted([Early], Middling) == [Early, Middling];
    assert Insert(At([], [Early], 0, 0.0, 1.5), Middling).buckets == [[], [Early, Middling]];
    assert Insert(At([], [Early, Middling], 0, 0.0, 1.5), Late).buckets == [[Late], [Early, Middling]];
  }

  /** No hit on the first tour: the direct search takes 3.2 and leaves the limit at 3.5. */
  lemma FirstGet()
    ensures Get(At([Late], [Early, Middling], 0, 0.0, 1.5)) == Fine((Some(Early), At([Late], [Middling], 1, 3.2, 3.5)))
  {
    var q := At([Late], [Early, Middling], 0, 0.0, 1.5);
    assert !Hit(q, 0) && !Hit(q, 1);
    assert ScanFrom(q, 2) == 2 && ScanFrom(q, 1) == 2;
    assert Lowest(q.buckets, 1) == 0 && Lowest(q.buckets, 2) == 1;
    assert Remove(q).buckets == [[Late], [Middling]];
  }

  /** 3.7 is not below 3.5, but 4.3 is below 4.5. */
  lemma SecondGet()
    ensures Get(At([Late], [Middling], 1, 3.2, 3.5)) == Fine((Some(Late), At([], [Middling], 0, 4.3, 4.5)))
  {
    var q := At([Late], [Middling], 1, 3.2, 3.5);
    assert !Hit(q, 0) && Hit(q, 1);
    assert ScanFrom(q, 1) == 1;
    assert [Late][1..] == [];
    assert Remove(q).buckets == [[], [Middling]];
  }

  lemma ThirdGet()
    ensures Get(At([], [Middling], 0, 4.3, 4.5)) == Fine((Some(Middling), At([], [], 1, 3.7, 5.5)))
  {
    var q := At([], [Middling], 0, 4.3, 4.5);
    assert !Hit(q, 0) && Hit(q, 1);
    assert ScanFrom(q, 1) == 1;
    assert [Middling][1..] == [];
    assert Remove(q).buckets == [[], []];
  }

  const Calls := [PutCall(Early), PutCall(Middling), PutCall(Late), GetCall, GetCall, GetCall]

  lemma RunStep<T>(q: Queue<T>, calls: seq<Call<T>>, r: seq<Reply<T>>, q': Queue<T>)
    requires Resting(q) && Legal(calls) && calls != []
    requires Step(q, calls[0]) == Fine((r, q'))
    ensures Resting(q') && Legal(calls[1..])
    ensures Run(q', calls[1..]).Fine? ==>
              Run(q, calls) == Fine((r + Run(q', calls[1..]).value.0, Run(q', calls[1..]).value.1))
  {
    hide Step, Resting;
    assert calls[0] in calls;
    StepResting(q, calls[0]);
  }

  /** Order is not kept on every run: the second get returns 4.3 while 3.7 is stored. */
  lemma OutOfOrder()
    ensures Resting(Init<int>()) && Legal(Calls)
    ensures Run(Init<int>(), Calls).Fine?
    ensures Run(Init<int>(), Calls).value.0 == [Some(Early), Some(Late), Some(Middling)]
    ensures !Ascending(Run(Init<int>(), Calls).value.0)
  {
    hide Put, Get, Resting, Init;
    InitResting<int>();
    Puts();
    FirstGet();
    SecondGet();
    ThirdGet();
    RunStep(Init<int>(), Calls, [], At([], [Early], 0, 0.0, 1.5));
    RunStep(At([], [Early], 0, 0.0, 1.5), Calls[1..], [], At([], [Early, Middling], 0, 0.0, 1.5));
    RunStep(At([], [Early, Middling], 0, 0.0, 1.5), Calls[1..][1..], [], At([Late], [Early, Middling], 0, 0.0, 1.5));
    assert Calls[1..][1..][1..] == Calls[3..];
    RunStep(At([Late], [Early, Middling], 0, 0.0, 1.5), Calls[3..], [Some(Early)], At([Late], [Middling], 1, 3.2, 3.5));
    RunStep(At([Late], [Middling], 1, 3.2, 3.5), Calls[3..][1..], [Some(Late)], At([], [Middling], 0, 4.3, 4.5));
    RunStep(At([], [Middling], 0, 4.3, 4.5), Calls[3..][1..][1..], [Some(Middling)], At([], [], 1, 3.7, 5.5));
    var rs := Run(Init<int>(), Calls).value.0;
    assert rs[0] == Some(Early) && rs[1] == Some(Late) && rs[2] == Some(Middling);
  }

  // ---------- five ties ----------

  ghost predicate AllAt<T>(bag: multiset<Event<T>>, p: real) {
    forall x <- bag :: x.priority == p
  }

  /** A put into two buckets that does not fill them past the threshold files its event and no more; one
      that does would divide zero by zero when all events tie. */
  lemma TiedPut<T>(q: Queue<T>, e: Event<T>)
    requires Resting(q) && |q.buckets| == 2 && e.priority >= 0.0 && AllAt(Bag(q) + multiset{e}, e.priority)
    ensures q.qsize < 4 ==>
              && Step(q, PutCall(e)) == Fine(([], Insert(q, e))) && Resting(Insert(q, e))
              && |Insert(q, e).buckets| == 2 && Insert(q, e).qsize == q.qsize + 1
              && Bag(Insert(q, e)) == Bag(q) + multiset{e}
    ensures q.qsize == 4 ==> Step(q, PutCall(e)).Degenerate?
  {
    hide Slot, Positioned, SlackOf, Filed, Drain, Insert, LocalInit, InsertAll, NewWidth, Bag;
    InsertKeeps(q, e);
    if q.qsize == 4 {
      TiedDegenerates(Insert(q, e), 4, e.priority);
    } else if q.qsize < 4 {
      PutResting(q, e);
    }
  }

  lemma {:induction false} TiedPuts<T>(q: Queue<T>, es: seq<Event<T>>, p: real)
    requires Resting(q) && |q.buckets| == 2 && p >= 0.0 && AllAt(Bag(q), p) && forall e <- es :: e.priority == p
    requires q.qsize + |es| <= 5 && q.qsize <= 4
    ensures Legal(PutCalls(es))
    ensures Run(q, PutCalls(es)).Fine? <==> q.qsize + |es| <= 4
    decreases |es|
  {
    hide Step, Resting, Bag, Insert;
    if es != [] {
      var calls := PutCalls(es);
      assert calls[0] == PutCall(es[0]) && calls[1..] == PutCalls(es[1..]);
      assert calls[0] in calls;
      assert es[0] in es;
      TiedPut(q, es[0]);
      RestingUsable(q);
      if q.qsize < 4 {
        TiedPuts(Insert(q, es[0]), es[1..], p);
      }
    }
  }

  /** Five events of one priority, whatever it is: four can be put into a fresh queue, and the fifth put
      resizes it and divides zero by zero. */
  lemma FiveTies<T>(es: seq<Event<T>>, p: real)
    requires |es| == 5 && p >= 0.0 && forall e <- es :: e.priority == p
    ensures Resting(Init<T>()) && Legal(PutCalls(es)) && Legal(PutCalls(es[..4]))
    ensures Run(Init<T>(), PutCalls(es[..4])).Fine?
    ensures Run(Init<T>(), PutCalls(es)).Degenerate?
  {
    hide Step, Resting, Bag;
    InitResting<T>();
    TiedPuts(Init<T>(), es, p);
    TiedPuts(Init<T>(), es[..4], p);
  }
}
