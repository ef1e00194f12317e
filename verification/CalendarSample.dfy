/**
 The sample a resize takes, told from the stored events alone: when removals come out in order, and that
 they then take the events with the least priorities.
 */
module CalendarSample {
  import opened Wrappers
  import opened Grid
  import opened Calendar
  import opened CalendarContents
  import opened CalendarOrder
  import opened CalendarWidth

  /** Some of the events of the bag, in order, none of them later than any other event of the bag. */
  ghost predicate LeastOf<T>(bag: multiset<Event<T>>, es: seq<Event<T>>) {
    && multiset(es) <= bag && Ordered(es)
    && forall e, x :: e in es && x in bag - multiset(es) ==> e.priority <= x.priority
  }

  ghost predicate SamePriorities<T>(a: seq<Event<T>>, b: seq<Event<T>>) {
    |a| == |b| && forall i :: 0 <= i < |a| ==> a[i].priority == b[i].priority
  }

  lemma {:induction false} OrderedBetween<T>(es: seq<Event<T>>, i: int, j: int)
    requires Ordered(es) && 0 <= i <= j < |es|
    ensures es[i].priority <= es[j].priority
    decreases j
  {
    if i < j {
      OrderedBetween(es, i, j - 1);
    }
  }

  lemma Fewer<T>(a: multiset<T>, b: multiset<T>)
    requires a <= b
    ensures |a| <= |b|
  {
    assert b == a + (b - a);
  }

  /** All events before the i-th least are among the first `i`. */
  lemma Earlier<T>(bag: multiset<Event<T>>, es: seq<Event<T>>, i: int, x: Event<T>)
    requires LeastOf(bag, es) && 0 <= i < |es| && x.priority < es[i].priority
    ensures bag[x] <= multiset(es[..i])[x]
  {
    hide Ordered;
    assert es == es[..i] + es[i..];
    assert multiset(es) == multiset(es[..i]) + multiset(es[i..]);
    assert es[i] in es && x !in bag - multiset(es);
    if x in es[i..] {
      var j :| i <= j < |es| && es[j] == x;
      OrderedBetween(es, i, j);
      assert false;
    }
    assert x !in multiset(es[i..]);
  }

  /** The i-th least priority of `a` is not less than that of `b`. */
  lemma LeastNotLess<T>(bag: multiset<Event<T>>, a: seq<Event<T>>, b: seq<Event<T>>, i: int)
    requires LeastOf(bag, a) && LeastOf(bag, b) && 0 <= i < |a| && i < |b|
    ensures a[i].priority >= b[i].priority
  {
    hide Ordered;
    if a[i].priority < b[i].priority {
      assert a == a[..i + 1] + a[i + 1..];
      assert multiset(a[..i + 1]) <= multiset(a);
      forall x | x in multiset(a[..i + 1])
        ensures multiset(a[..i + 1])[x] <= multiset(b[..i])[x]
      {
        var k :| 0 <= k <= i && a[k] == x;
        OrderedBetween(a, k, i);
        Earlier(bag, b, i, x);
        assert multiset(a[..i + 1])[x] <= multiset(a)[x] <= bag[x];
      }
      hide LeastOf;
      Fewer(multiset(a[..i + 1]), multiset(b[..i]));
      assert |a[..i + 1]| == i + 1 && |b[..i]| == i;
      assert false;
    }
  }

  /** The n least priorities of a bag are the same, however ties are broken. */
  lemma LeastUnique<T>(bag: multiset<Event<T>>, a: seq<Event<T>>, b: seq<Event<T>>)
    requires LeastOf(bag, a) && LeastOf(bag, b) && |a| == |b|
    ensures SamePriorities(a, b)
  {
    forall i | 0 <= i < |a|
      ensures a[i].priority == b[i].priority
    {
      LeastNotLess(bag, a, b, i);
      LeastNotLess(bag, b, a, i);
    }
  }

  lemma SomeMinimum<T>(bag: multiset<Event<T>>) returns (e: Event<T>)
    requires bag != multiset{}
    ensures IsMinimum(e, bag)
    decreases |bag|
  {
    e :| e in bag;
    var rest := bag - multiset{e};
    if rest != multiset{} {
      var m := SomeMinimum(rest);
      e := if m.priority < e.priority then m else e;
    }
  }

  /** There are such events. */
  lemma {:induction false} LeastExists<T>(bag: multiset<Event<T>>, n: nat) returns (es: seq<Event<T>>)
    requires n <= |bag|
    ensures LeastOf(bag, es) && |es| == n
    decreases n
  {
    es := [];
    if n > 0 {
      var e := SomeMinimum(bag);
      var rest := bag - multiset{e};
      assert IsMinimum(e, bag);
      var more := LeastExists(rest, n - 1);
      es := [e] + more;
      assert multiset(es) == multiset{e} + multiset(more);
      assert bag - multiset(es) == rest - multiset(more);
    }
  }

  // ---------- the first of them ----------

  /** Any event that is a minimum can stand first. */
  lemma Exchange<T>(bag: multiset<Event<T>>, es: seq<Event<T>>, f: Event<T>) returns (r: seq<Event<T>>)
    requires LeastOf(bag, es) && es != [] && IsMinimum(f, bag)
    ensures LeastOf(bag, r) && SamePriorities(es, r) && r[0] == f
  {
    hide Ordered;
    if f in es {
      var j :| 0 <= j < |es| && es[j] == f;
      r := ToFront(bag, es, j);
    } else {
      r := InFront(bag, es, f);
    }
  }

  lemma ToFront<T>(bag: multiset<Event<T>>, es: seq<Event<T>>, j: int) returns (r: seq<Event<T>>)
    requires LeastOf(bag, es) && 0 <= j < |es| && IsMinimum(es[j], bag)
    ensures LeastOf(bag, r) && SamePriorities(es, r) && r[0] == es[j]
  {
    assert es[0] in multiset(es);
    assert es[0].priority == es[j].priority by {
      OrderedBetween(es, 0, j);
    }
    r := es[0 := es[j]][j := es[0]];
    SamePrioritiesOrdered(es, r);
    hide Ordered;
    Swapped(es, j);
    assert forall e :: e in r ==> e in multiset(r);
    assert forall e :: e in multiset(es) ==> e in es;
  }

  lemma Swapped<T>(es: seq<T>, j: int)
    requires 0 <= j < |es|
    ensures multiset(es[0 := es[j]][j := es[0]]) == multiset(es)
  {
  }

  lemma InFront<T>(bag: multiset<Event<T>>, es: seq<Event<T>>, f: Event<T>) returns (r: seq<Event<T>>)
    requires LeastOf(bag, es) && es != [] && f !in es && IsMinimum(f, bag)
    ensures LeastOf(bag, r) && SamePriorities(es, r) && r[0] == f
  {
    hide Ordered;
    assert f in bag - multiset(es);
    forall e | e in es
      ensures e.priority == f.priority
    {
      assert e in multiset(es);
    }
    r := es[0 := f];
    SamePrioritiesOrdered(es, r);
    hide LeastOf;
    OneForAnother(bag, es, f);
    AllMinimal(bag, r, f);
  }

  lemma OneForAnother<T>(bag: multiset<T>, es: seq<T>, f: T)
    requires es != [] && multiset(es) <= bag && f in bag - multiset(es)
    ensures multiset(es[0 := f]) <= bag
  {
    var rest := es[1..];
    assert es == [es[0]] + rest && es[0 := f] == [f] + rest;
    assert multiset(es[0 := f]) == multiset{f} + multiset(rest) <= bag - multiset(es) + multiset(es);
  }

  lemma AllMinimal<T>(bag: multiset<Event<T>>, es: seq<Event<T>>, f: Event<T>)
    requires multiset(es) <= bag && Ordered(es) && IsMinimum(f, bag) && forall e <- es :: e.priority == f.priority
    ensures LeastOf(bag, es)
  {
    hide Ordered;
  }

  lemma SamePrioritiesOrdered<T>(a: seq<Event<T>>, b: seq<Event<T>>)
    requires SamePriorities(a, b) && Ordered(a)
    ensures Ordered(b)
  {
  }

  lemma LeastTail<T>(bag: multiset<Event<T>>, es: seq<Event<T>>)
    requires LeastOf(bag, es) && es != []
    ensures es[0] in bag && LeastOf(bag - multiset{es[0]}, es[1..])
  {
    assert es == [es[0]] + es[1..];
    assert multiset(es) == multiset{es[0]} + multiset(es[1..]);
    assert bag - multiset{es[0]} - multiset(es[1..]) == bag - multiset(es);
  }

  // ---------- where removals leave the position ----------

  /** What becomes of the slack when the next event lies in virtual bucket `u` and the last one lay in `n`:
      it stays within a tour, and a direct search takes off it what the event lies further ahead. */
  function NextSlack(n: int, slack: int, u: int, nb: int): int {
    if slack >= 0 && u < n + nb then slack else n + slack + nb - u
  }

  lemma SlackStep<T>(q: Queue<T>)
    requires WellFormed(q) && NonEmpty(q) && Ahead(q) && OrderSafe(q)
    ensures Slack(Remove(q)) ==
            NextSlack(VirtualBucket(q.lastprio, q.cwidth), Slack(q), VirtualBucket(Found(q).priority, q.cwidth),
                      |q.buckets|)
    ensures Spoils(q) <==> Slack(Remove(q)) == -1
  {
    hide SlackOf, Positioned, VirtualBucket, Drain, Filed, ScanFrom, Remove, Found, Ahead;
    assert |Remove(q).buckets| == |q.buckets|;
    if ScanSucceeds(q) {
      ScanMinimum(q);
      ScanEnds(q);
    } else {
      DirectSearchFar(q);
      SpoilsIff(q);
    }
  }

  /** None of these removals but the last leaves the position one bucket behind. */
  predicate Clear<T>(es: seq<Event<T>>, n: int, slack: int, nb: int, width: real)
    requires width > 0.0
    decreases |es|
  {
    |es| <= 1 ||
    (var u := VirtualBucket(es[0].priority, width);
     var next := NextSlack(n, slack, u, nb);
     next != -1 && Clear(es[1..], u, next, nb, width))
  }

  lemma {:induction false} ClearSame<T>(a: seq<Event<T>>, b: seq<Event<T>>, n: int, slack: int, nb: int, width: real)
    requires width > 0.0 && SamePriorities(a, b)
    ensures Clear(a, n, slack, nb, width) <==> Clear(b, n, slack, nb, width)
    decreases |a|
  {
    if |a| > 1 {
      var u := VirtualBucket(a[0].priority, width);
      ClearSame(a[1..], b[1..], u, NextSlack(n, slack, u, nb), nb, width);
    }
  }

  ghost predicate ClearFrom<T>(q: Queue<T>, es: seq<Event<T>>)
    requires Usable(q)
  {
    Clear(es, VirtualBucket(q.lastprio, q.cwidth), Slack(q), |q.buckets|, q.cwidth)
  }

  /** From a safe position on contents ahead of it, whether the next removals come out in order is a matter
      of arithmetic on the least stored priorities. */
  lemma {:induction false} SamplesInOrderIff<T>(q: Queue<T>, es: seq<Event<T>>)
    requires WellFormed(q) && Ahead(q) && OrderSafe(q) && LeastOf(Bag(q), es) && |es| <= q.qsize
    ensures SamplesInOrder(q, |es|) <==> ClearFrom(q, es)
    decreases |es|
  {
    hide SlackOf, Positioned, VirtualBucket, Slot, Filed, Drain, Found, Remove, Spoils, OrderSafe, Bag, NonEmpty,
         Ahead, LeastOf, NextSlack;
    if |es| == 1 {
      NonEmptyIff(q);
      RemoveCounted(q);
      assert SamplesInOrder(Remove(q), 0);
    } else if |es| > 1 {
      NonEmptyIff(q);
      RemoveKeeps(q);
      RemoveOrder(q);
      SlackStep(q);
      var r := Exchange(Bag(q), es, Found(q));
      ClearSame(es, r, VirtualBucket(q.lastprio, q.cwidth), Slack(q), |q.buckets|, q.cwidth);
      LeastTail(Bag(q), r);
      var q1 := Remove(q);
      assert Bag(q) - multiset{Found(q)} == Bag(q1);
      if !Spoils(q) {
        MonotoneAhead(q1);
        assert |q1.buckets| == |q.buckets|;
        SamplesInOrderIff(q1, r[1..]);
      }
    }
  }

  // ---------- the sample ----------

  /** A sample that comes out in order takes the events with the least priorities. */
  lemma SampleLeast<T>(q: Queue<T>, n: int)
    requires WellFormed(q) && Ahead(q) && OrderSafe(q) && 0 <= n <= q.qsize && SamplesInOrder(q, n)
    ensures LeastOf(Bag(q), Sample(q, n).0)
  {
    hide OnGrid, Filed, Drain, Sample, Ordered, Ahead, OrderSafe, SamplesInOrder, Bag;
    SampleInOrder(q, n);
    SampleKeeps(q, n);
    var es := Sample(q, n).0;
    assert Bag(q) - multiset(es) == Bag(Sample(q, n).1);
  }

  lemma {:induction false} SameSums<T>(a: seq<Event<T>>, b: seq<Event<T>>, limit: real, n: int)
    requires SamePriorities(a, b) && 0 <= n <= |a|
    ensures GapSum(a, n) == GapSum(b, n) && SmallSum(a, limit, n) == SmallSum(b, limit, n)
  {
    if n > 1 {
      SameSums(a, b, limit, n - 1);
    }
  }

  /** The least stored events, as many as a resize samples, where removals come out in order. */
  ghost predicate Samples<T>(q: Queue<T>, es: seq<Event<T>>)
    requires Usable(q)
  {
    LeastOf(Bag(q), es) && |es| == SampleCount(q.qsize) && ClearFrom(q, es)
  }

  /** From a safe position on contents ahead of it, whether a resize has a width can be told from the least
      stored events, without taking a sample. */
  lemma WidthOfLeast<T>(q: Queue<T>, es: seq<Event<T>>)
    requires WellFormed(q) && Ahead(q) && OrderSafe(q) && q.qsize >= 2 && Samples(q, es)
    ensures |es| >= 2 && SamePriorities(es, Sampling(q))
    ensures HasWidth(q) <==> SmallSum(es, Average(es) * 2.0, |es|) > 0.0
  {
    hide OnGrid, Filed, Drain, SlackOf, SampleCount, Ahead, OrderSafe, Bag, Sample, SamplesInOrder, Clear, LeastOf,
         SmallSum, GapSum;
    SampleFits(q.qsize);
    QuietSame(q);
    SamplesInOrderIff(Quiet(q), es);
    SampleLeast(Quiet(q), |es|);
    LeastUnique(Bag(q), es, Sampling(q));
    SameSums(es, Sampling(q), Average(es) * 2.0, |es|);
  }

  /** Any least stored events of that number decide whether there are such, and `LeastExists` says that there
      always are least events. */
  lemma LeastDecides<T(!new)>(q: Queue<T>, es: seq<Event<T>>)
    requires Usable(q) && LeastOf(Bag(q), es) && |es| == SampleCount(q.qsize)
    ensures ClearFrom(q, es) <==> exists r :: Samples(q, r)
  {
    hide LeastOf, Clear, VirtualBucket, SlackOf;
    if r :| Samples(q, r) {
      LeastUnique(Bag(q), es, r);
      ClearSame(es, r, VirtualBucket(q.lastprio, q.cwidth), Slack(q), |q.buckets|, q.cwidth);
    }
    assert ClearFrom(q, es) ==> Samples(q, es);
  }

  lemma QuietSame<T>(q: Queue<T>)
    requires WellFormed(q)
    ensures WellFormed(Quiet(q)) && Bag(Quiet(q)) == Bag(q) && (Ahead(Quiet(q)) <==> Ahead(q))
    ensures (OrderSafe(Quiet(q)) <==> OrderSafe(q)) && Slack(Quiet(q)) == Slack(q)
  {
    hide Positioned, Filed, Drain, SlackOf;
  }

  /** No two stored events share a priority. */
  ghost predicate Distinct<T>(bag: multiset<Event<T>>) {
    && (forall x <- bag :: bag[x] == 1)
    && (forall x, y :: x in bag && y in bag && x != y ==> x.priority != y.priority)
  }

  /** A condition on the stored events alone: distinct priorities in a safe position, the least of them
      removed in order. */
  ghost predicate Spread<T(!new)>(q: Queue<T>)
    requires Usable(q)
  {
    && Ahead(q) && OrderSafe(q) && Distinct(Bag(q))
    && (q.qsize >= 2 ==> exists es :: Samples(q, es))
  }

  /** A queue that is spread out has a width, so a resize finds it. */
  lemma SpreadWide<T(!new)>(q: Queue<T>)
    requires WellFormed(q) && Spread(q)
    ensures HasWidth(q)
  {
    hide OnGrid, Filed, Drain, Width, SampleCount, Average, SmallSum, Ahead, OrderSafe, Bag, HasWidth, Distinct,
         ClearFrom;
    if q.qsize >= 2 {
      var es :| Samples(q, es);
      WidthOfLeast(q, es);
      LeastDistinct(Bag(q), es);
      StrictWidth(es);
      WidthPositive(es);
    } else {
      FewHaveWidth(q);
    }
  }

  lemma FewHaveWidth<T>(q: Queue<T>)
    requires WellFormed(q) && q.qsize < 2
    ensures HasWidth(q)
  {
  }

  lemma LeastDistinct<T>(bag: multiset<Event<T>>, es: seq<Event<T>>)
    requires Distinct(bag) && LeastOf(bag, es)
    ensures StrictlyOrdered(es)
  {
    forall i | 1 <= i < |es|
      ensures es[i - 1].priority < es[i].priority
    {
      assert es == es[..i] + es[i..] && es[i - 1] in es[..i] && es[i] in es[i..];
      assert multiset(es) == multiset(es[..i]) + multiset(es[i..]);
      if es[i - 1] == es[i] {
        assert multiset(es)[es[i]] >= 2;
      }
      assert es[i - 1] in multiset(es) && es[i] in multiset(es);
    }
  }

  lemma ResizeFine<T(!new)>(q: Queue<T>, newsize: int)
    requires WellFormed(q) && Spread(q) && newsize > 0
    ensures Resize(q, newsize).Fine?
  {
    hide Filed, OnGrid, Drain, HasWidth, Spread, NewWidth, LocalInit, InsertAll;
    SpreadWide(q);
    if q.resizeEnabled {
      ResizeFineExact(q, newsize);
    }
  }
}
