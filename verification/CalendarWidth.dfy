/**
 The sample a resize takes and the bucket width it computes: when that width is a positive number.
 */
module CalendarWidth {
  import opened Wrappers
  import opened Calendar
  import opened CalendarContents
  import opened CalendarOrder

  /** The sample is never larger than the queue, has a gap whenever one is taken, and fits the array of 25. */
  lemma SampleFits(qsize: int)
    requires qsize >= 2
    ensures 2 <= SampleCount(qsize) <= qsize && SampleCount(qsize) <= 25
  {
  }

  predicate Ordered<T>(es: seq<Event<T>>) {
    forall i :: 1 <= i < |es| ==> es[i - 1].priority <= es[i].priority
  }

  predicate AllTied<T>(es: seq<Event<T>>) {
    forall i :: 1 <= i < |es| ==> es[i - 1].priority == es[i].priority
  }

  predicate StrictlyOrdered<T>(es: seq<Event<T>>) {
    forall i :: 1 <= i < |es| ==> es[i - 1].priority < es[i].priority
  }

  function Gap<T>(es: seq<Event<T>>, i: int): real
    requires 1 <= i < |es|
  {
    es[i].priority - es[i - 1].priority
  }

  /** A gap that counts and contributes. */
  predicate UsefulGap<T>(es: seq<Event<T>>, limit: real, i: int)
    requires 1 <= i < |es|
  {
    0.0 < Gap(es, i) < limit
  }

  lemma {:induction false} GapSumPositive<T>(es: seq<Event<T>>, n: int)
    requires Ordered(es) && 1 <= n <= |es|
    ensures GapSum(es, n) == es[n - 1].priority - es[0].priority >= 0.0
    ensures GapSum(es, n) == 0.0 <==> forall i :: 1 <= i < n ==> Gap(es, i) == 0.0
  {
    if n > 1 {
      GapSumPositive(es, n - 1);
      assert Gap(es, n - 1) >= 0.0;
    }
  }

  /** If every gap exceeded a bound, so would their sum exceed that many times the bound. */
  lemma {:induction false} GapSumBound<T>(es: seq<Event<T>>, bound: real, n: int)
    requires 1 <= n <= |es| && forall i :: 1 <= i < n ==> Gap(es, i) > bound
    ensures n == 1 || GapSum(es, n) > (n - 1) as real * bound
    ensures n == 1 ==> GapSum(es, n) == 0.0
  {
    if n > 1 {
      GapSumBound(es, bound, n - 1);
      assert Gap(es, n - 1) > bound;
      assert (n - 1) as real == (n - 2) as real + 1.0;
      assert (n - 1) as real * bound == (n - 2) as real * bound + bound;
    }
  }

  ghost predicate SomeSmall<T>(es: seq<Event<T>>, limit: real, n: int)
    requires 1 <= n <= |es|
  {
    exists i :: 1 <= i < n && Gap(es, i) < limit
  }

  ghost predicate SomeUseful<T>(es: seq<Event<T>>, limit: real, n: int)
    requires 1 <= n <= |es|
  {
    exists i :: 1 <= i < n && UsefulGap(es, limit, i)
  }

  lemma {:induction false} SmallCountIff<T>(es: seq<Event<T>>, limit: real, n: int)
    requires 1 <= n <= |es|
    ensures SmallCount(es, limit, n) > 0 <==> SomeSmall(es, limit, n)
  {
    if n > 1 {
      SmallCountIff(es, limit, n - 1);
      assert Gap(es, n - 1) < limit ==> SomeSmall(es, limit, n);
    }
  }

  lemma {:induction false} SmallSumIff<T>(es: seq<Event<T>>, limit: real, n: int)
    requires Ordered(es) && 1 <= n <= |es|
    ensures SmallSum(es, limit, n) >= 0.0
    ensures SmallSum(es, limit, n) > 0.0 <==> SomeUseful(es, limit, n)
  {
    if n > 1 {
      SmallSumIff(es, limit, n - 1);
      assert Gap(es, n - 1) >= 0.0;
      assert UsefulGap(es, limit, n - 1) ==> SomeUseful(es, limit, n);
    }
  }

  lemma {:induction false} SmallSumBelow<T>(es: seq<Event<T>>, limit: real, n: int)
    requires 1 <= n <= |es|
    ensures SmallCount(es, limit, n) == 0 ==> SmallSum(es, limit, n) == 0.0
    ensures SmallCount(es, limit, n) > 0 ==> SmallSum(es, limit, n) < SmallCount(es, limit, n) as real * limit
  {
    if n > 1 {
      SmallSumBelow(es, limit, n - 1);
      OneMore(SmallCount(es, limit, n - 1), limit);
    }
  }

  lemma OneMore(j: nat, limit: real)
    ensures (j + 1) as real * limit == j as real * limit + limit
  {
    assert (j + 1) as real == j as real + 1.0;
  }

  lemma DivPositive(a: real, b: real)
    requires b > 0.0
    ensures (a / b) * b == a
    ensures a > 0.0 <==> a / b > 0.0
    ensures a >= 0.0 <==> a / b >= 0.0
  {
  }

  lemma DivBelow(a: real, b: real, c: real)
    requires b > 0.0 && a < b * c
    ensures a / b < c
  {
    DivPositive(b * c - a, b);
    assert (b * c - a) / b == c - a / b;
  }

  lemma AverageZero<T>(es: seq<Event<T>>)
    requires |es| >= 2 && Ordered(es)
    ensures Average(es) >= 0.0
    ensures Average(es) == 0.0 <==> AllTied(es)
  {
    GapSumPositive(es, |es|);
    DivPositive(GapSum(es, |es|), (|es| - 1) as real);
    hide Average, GapSum;
    forall i | 1 <= i < |es|
      ensures Gap(es, i) == 0.0 <==> es[i - 1].priority == es[i].priority
    {
    }
  }

  /** Some gap is no larger than the average. */
  lemma SomeGapBelowAverage<T>(es: seq<Event<T>>)
    requires |es| >= 2
    ensures exists i :: 1 <= i < |es| && Gap(es, i) <= Average(es)
  {
    DivPositive(GapSum(es, |es|), (|es| - 1) as real);
    if forall i :: 1 <= i < |es| ==> Gap(es, i) > Average(es) {
      GapSumBound(es, Average(es), |es|);
    }
  }

  /** On an ordered sample the division is by zero exactly when all sampled priorities are equal. */
  lemma NoWidthIff<T>(es: seq<Event<T>>)
    requires |es| >= 2 && Ordered(es)
    ensures Width(es).None? <==> AllTied(es)
  {
    hide Average, SmallSum, SmallCount;
    var limit := Average(es) * 2.0;
    AverageZero(es);
    SmallCountIff(es, limit, |es|);
    if AllTied(es) {
      forall i | 1 <= i < |es|
        ensures !(Gap(es, i) < limit)
      {
        assert es[i - 1].priority == es[i].priority;
      }
    } else {
      SomeGapBelowAverage(es);
    }
  }

  /** Otherwise the width is less than six times the average gap, and it is positive exactly when some
      positive gap lies below twice the average. */
  lemma WidthBounds<T>(es: seq<Event<T>>)
    requires |es| >= 2 && Ordered(es) && !AllTied(es)
    ensures Width(es).Some? && 0.0 <= Width(es).value < 6.0 * Average(es)
    ensures Width(es).value > 0.0 <==> SomeUseful(es, Average(es) * 2.0, |es|)
  {
    hide Average, SmallSum, SmallCount, SomeUseful;
    var limit := Average(es) * 2.0;
    NoWidthIff(es);
    SmallSumIff(es, limit, |es|);
    SmallSumBelow(es, limit, |es|);
    var sum, j := SmallSum(es, limit, |es|), SmallCount(es, limit, |es|) as real;
    DivPositive(sum, j);
    DivBelow(sum, j, limit);
  }

  /** Strictly increasing samples always give a usable width. */
  lemma StrictWidth<T>(es: seq<Event<T>>)
    requires |es| >= 2 && StrictlyOrdered(es)
    ensures Width(es).Some? && Width(es).value > 0.0
  {
    SomeGapBelowAverage(es);
    AverageZero(es);
    var i :| 1 <= i < |es| && Gap(es, i) <= Average(es);
    assert es[0].priority < es[1].priority;
    assert es[i - 1].priority < es[i].priority;
    assert UsefulGap(es, Average(es) * 2.0, i);
    WidthBounds(es);
  }

  // ---------- when a resize finds a width ----------

  /** None of the next `n` removals ends in the spoiling window. */
  predicate SamplesInOrder<T>(q: Queue<T>, n: int)
    requires Usable(q) && Counted(q) && 0 <= n <= q.qsize
    decreases n
  {
    if n == 0 then true
    else
      NonEmptyIff(q);
      RemoveCounted(q);
      (n > 1 ==> !Spoils(q)) && SamplesInOrder(Remove(q), n - 1)
  }

  /** From a safe position on non-early contents a sample without a spoiling removal comes out in order. */
  lemma {:induction false} SampleInOrder<T>(q: Queue<T>, n: int)
    requires WellFormed(q) && Ahead(q) && OrderSafe(q) && 0 <= n <= q.qsize && SamplesInOrder(q, n)
    ensures Ordered(Sample(q, n).0)
    ensures forall e <- Sample(q, n).0 :: e in Bag(q)
    ensures forall e, x :: e in Sample(q, n).0 && x in Bag(Sample(q, n).1) ==> e.priority <= x.priority
    decreases n
  {
    hide SlackOf, Slot, Positioned, Filed, Drain, Found, NonEmpty, Spoils, OrderSafe, Remove, AheadOf;
    if n > 0 {
      NonEmptyIff(q);
      RemoveCounted(q);
      RemoveKeeps(q);
      RemoveOrder(q);
      assert Found(q) in Bag(q);
      MonotoneAhead(Remove(q));
      if n > 1 {
        SampleInOrder(Remove(q), n - 1);
        assert Sample(Remove(q), n - 1).0[0] in Sample(Remove(q), n - 1).0;
        assert Sample(q, n).0 == [Found(q)] + Sample(Remove(q), n - 1).0;
      }
    }
  }

  lemma PositiveIff<T>(es: seq<Event<T>>)
    requires |es| >= 2 && Ordered(es)
    ensures Width(es).Some? && Width(es).value > 0.0 <==> SomeUseful(es, Average(es) * 2.0, |es|)
  {
    hide Average, Width;
    NoWidthIff(es);
    if !AllTied(es) {
      WidthBounds(es);
    }
  }

  /** The sample a resize of `q` takes. */
  function Sampling<T>(q: Queue<T>): (es: seq<Event<T>>)
    requires Usable(q) && Counted(q) && q.qsize >= 2
    ensures |es| >= 2
  {
    SampleFits(q.qsize);
    Sample(Quiet(q), SampleCount(q.qsize)).0
  }

  lemma SamplingWidth<T>(q: Queue<T>)
    requires Usable(q) && Counted(q) && q.qsize >= 2
    ensures NewWidth(q).0 == Width(Sampling(q))
  {
  }

  /** On a sample in order, a resize has a width exactly when some positive gap of the sample is below
      twice the average gap. */
  lemma ResizeFineIff<T>(q: Queue<T>, newsize: int)
    requires Usable(q) && Counted(q) && q.resizeEnabled && q.qsize >= 2 && newsize > 0 && Ordered(Sampling(q))
    ensures Resize(q, newsize).Fine? <==> SomeUseful(Sampling(q), Average(Sampling(q)) * 2.0, |Sampling(q)|)
  {
    hide Width, NewWidth, Sampling, Average, SomeUseful, Ordered, LocalInit, InsertAll, Drain;
    SamplingWidth(q);
    PositiveIff(Sampling(q));
  }

  /** The gaps of the sample that count add up to something. */
  predicate HasWidth<T>(q: Queue<T>)
    requires Usable(q) && Counted(q)
  {
    q.qsize < 2 || SmallSum(Sampling(q), Average(Sampling(q)) * 2.0, |Sampling(q)|) > 0.0
  }

  lemma WidthPositive<T>(es: seq<Event<T>>)
    requires |es| >= 2
    ensures Width(es).Some? && Width(es).value > 0.0 <==> SmallSum(es, Average(es) * 2.0, |es|) > 0.0
  {
    hide Average, SmallSum, SmallCount;
    var limit := Average(es) * 2.0;
    SmallSumBelow(es, limit, |es|);
    var sum, j := SmallSum(es, limit, |es|), SmallCount(es, limit, |es|);
    if j > 0 {
      DivPositive(sum, j as real);
    }
  }

  /** For every queue, in whatever order its sample comes: a resize finds a width exactly when it has one. */
  lemma ResizeFineExact<T>(q: Queue<T>, newsize: int)
    requires Usable(q) && Counted(q) && q.resizeEnabled && newsize > 0
    ensures Resize(q, newsize).Fine? <==> HasWidth(q)
  {
    hide Width, Sampling, Average, SmallSum, LocalInit, InsertAll, Drain, Sample;
    if q.qsize >= 2 {
      hide NewWidth;
      SamplingWidth(q);
      WidthPositive(Sampling(q));
    }
  }

  lemma SamplingInBag<T>(q: Queue<T>)
    requires WellFormed(q) && q.qsize >= 2
    ensures multiset(Sampling(q)) <= Bag(q)
  {
    hide SlackOf, Slot, Positioned, Filed, Drain, Sample, SampleCount;
    SampleFits(q.qsize);
    assert WellFormed(Quiet(q)) && Bag(Quiet(q)) == Bag(q);
    SampleKeeps(Quiet(q), SampleCount(q.qsize));
  }

  lemma TiedSampling<T>(q: Queue<T>, p: real)
    requires WellFormed(q) && q.qsize >= 2 && forall x <- Bag(q) :: x.priority == p
    ensures AllTied(Sampling(q)) && Ordered(Sampling(q))
  {
    hide OnGrid, Filed, Drain, Bag, Sampling;
    SamplingInBag(q);
    var es := Sampling(q);
    forall i | 0 <= i < |es|
      ensures es[i].priority == p
    {
      assert es[i] in multiset(es);
    }
  }

  /** Events that all tie leave no gap to count: a resize of at least two of them divides zero by zero. */
  lemma TiedDegenerates<T>(q: Queue<T>, newsize: int, p: real)
    requires WellFormed(q) && q.resizeEnabled && q.qsize >= 2 && newsize > 0
    requires forall x <- Bag(q) :: x.priority == p
    ensures Resize(q, newsize).Degenerate? && NewWidth(q).0 == None
  {
    hide OnGrid, Filed, Drain, Bag, Sampling, Width, NewWidth, LocalInit, InsertAll, AllTied, Ordered;
    TiedSampling(q, p);
    NoWidthIff(Sampling(q));
    SamplingWidth(q);
  }
}
