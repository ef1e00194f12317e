/**
 The numbers of the calendar written out: when a call changes the number of buckets, how many events a
 resize samples, and what width it takes from them.
 */
module CalendarSizes {
  import opened Wrappers
  import opened Calendar
  import opened CalendarContents
  import opened CalendarWidth
  import opened CalendarRuns

  // ---------- when the number of buckets changes ----------

  /** A put that leaves more than twice as many events as buckets doubles the buckets, up to 32768. A get that
      leaves fewer events than half the buckets less two halves them. No other call changes their number or
      their width, and one that does copies everything. */
  lemma BucketNumbers<T>(q: Queue<T>, c: Call<T>)
    requires Resting(q) && Legal([c]) && Step(q, c).Fine?
    ensures var n, q' := |q.buckets|, Step(q, c).value.1;
            && (c.PutCall? ==>
                  |q'.buckets| == if q.qsize + 1 > 2 * n && n < 32768 then 2 * n else n)
            && (c.GetCall? ==>
                  |q'.buckets| == if q.qsize > 0 && q.qsize - 1 < n / 2 - 2 then n / 2 else n)
            && (|q'.buckets| == n ==> q'.cwidth == q.cwidth && q'.firstsub == q.firstsub)
            && Copied(q, c) == if |q'.buckets| == n then 0 else q'.qsize
  {
    hide Slot, Positioned, SlackOf, Filed, Insert, Remove, Found, NonEmpty, InsertAll, NewWidth, LocalInit, Drain;
    hide PowerOfTwo;
    assert c in [c];
    match c
    case PutCall(e) =>
      InsertKeeps(q, e);
      if Grows(Insert(q, e)) {
        ResizeKeeps(Insert(q, e), 2 * |q.buckets|);
      }
    case GetCall =>
      if q.qsize > 0 {
        NonEmptyIff(q);
        RemoveKeeps(q);
        if Shrinks(Remove(q)) {
          ResizeKeeps(Remove(q), |q.buckets| / 2);
        }
      }
  }

  // ---------- how much is sampled ----------

  /** All of up to five events, five and a tenth of them beyond, and never more than 25. */
  lemma SampleSize<T>(q: Queue<T>)
    requires Usable(q) && Counted(q) && q.qsize >= 2
    ensures var k := |Sampling(q)|;
            && (q.qsize <= 5 ==> k == q.qsize)
            && (q.qsize >= 200 ==> k == 25)
            && (5 < q.qsize < 200 ==> 10 * (k - 5) <= q.qsize < 10 * (k - 4))
  {
    hide Sample, Drain;
  }

  // ---------- the width ----------

  /** The gaps of a list of events, in order. */
  function Gaps<T>(es: seq<Event<T>>): (gaps: seq<real>)
    requires |es| >= 1
    ensures |gaps| == |es| - 1
    ensures forall i :: 0 <= i < |gaps| ==> gaps[i] == es[i + 1].priority - es[i].priority
  {
    seq(|es| - 1, i requires 0 <= i < |es| - 1 => es[i + 1].priority - es[i].priority)
  }

  function Sum(xs: seq<real>): real {
    if xs == [] then 0.0 else Sum(xs[..|xs| - 1]) + xs[|xs| - 1]
  }

  function Mean(xs: seq<real>): real
    requires xs != []
  {
    Sum(xs) / |xs| as real
  }

  /** Those below a limit, in order. */
  function Below(xs: seq<real>, limit: real): seq<real> {
    if xs == [] then []
    else Below(xs[..|xs| - 1], limit) + if xs[|xs| - 1] < limit then [xs[|xs| - 1]] else []
  }

  /** The gaps that count: those below twice the mean gap. */
  function Counting<T>(es: seq<Event<T>>): seq<real>
    requires |es| >= 2
  {
    Below(Gaps(es), 2.0 * Mean(Gaps(es)))
  }

  lemma OneMore(xs: seq<real>, x: real, limit: real)
    ensures Sum(xs + [x]) == Sum(xs) + x
    ensures Below(xs + [x], limit) == Below(xs, limit) + if x < limit then [x] else []
  {
    assert (xs + [x])[..|xs|] == xs;
  }

  /** The gaps of the first `n` events. */
  function GapsUpTo<T>(es: seq<Event<T>>, n: int): seq<real>
    requires 1 <= n <= |es|
  {
    Gaps(es)[..n - 1]
  }

  lemma OneMoreGap<T>(es: seq<Event<T>>, n: int, limit: real)
    requires 1 < n <= |es|
    ensures var gap := es[n - 1].priority - es[n - 2].priority;
            var before := Below(GapsUpTo(es, n - 1), limit);
            && Sum(GapsUpTo(es, n)) == Sum(GapsUpTo(es, n - 1)) + gap
            && Below(GapsUpTo(es, n), limit) == (if gap < limit then before + [gap] else before)
            && Sum(before + [gap]) == Sum(before) + gap
  {
    var gap := es[n - 1].priority - es[n - 2].priority;
    assert Gaps(es)[..n - 1] == Gaps(es)[..n - 2] + [gap];
    OneMore(GapsUpTo(es, n - 1), gap, limit);
    OneMore(Below(GapsUpTo(es, n - 1), limit), gap, limit);
  }

  lemma {:induction false} SumsAre<T>(es: seq<Event<T>>, limit: real, n: int)
    requires 1 <= n <= |es|
    ensures GapSum(es, n) == Sum(GapsUpTo(es, n))
    ensures SmallSum(es, limit, n) == Sum(Below(GapsUpTo(es, n), limit))
    ensures SmallCount(es, limit, n) == |Below(GapsUpTo(es, n), limit)|
  {
    if n > 1 {
      hide Sum, Below, GapsUpTo;
      SumsAre(es, limit, n - 1);
      OneMoreGap(es, n, limit);
    }
  }

  lemma AverageIsMean<T>(es: seq<Event<T>>)
    requires |es| >= 2
    ensures Average(es) == Mean(Gaps(es)) && Average(es) * 2.0 == 2.0 * Mean(Gaps(es))
  {
    assert GapsUpTo(es, |es|) == Gaps(es);
    hide GapsUpTo, Gaps, Sum, GapSum;
    SumsAre(es, 0.0, |es|);
  }

  /** The width is three times the mean of the gaps that count; there is none when no gap does. */
  lemma WidthIsMean<T>(es: seq<Event<T>>)
    requires |es| >= 2
    ensures Width(es) == if Counting(es) == [] then None else Some(3.0 * Mean(Counting(es)))
  {
    assert GapsUpTo(es, |es|) == Gaps(es);
    AverageIsMean(es);
    hide GapsUpTo, Gaps, Below, Sum, GapSum, SmallSum, SmallCount, Average;
    SumsAre(es, Average(es) * 2.0, |es|);
  }

  /** A resize of fewer than two events takes the width 1. One of more goes through exactly if the gaps that
      count have a positive mean, and takes three times that mean. */
  lemma ResizedWidth<T>(q: Queue<T>, newsize: int)
    requires WellFormed(q) && q.resizeEnabled && newsize >= 2
    ensures q.qsize < 2 ==> Resize(q, newsize).Fine? && Resize(q, newsize).value.cwidth == 1.0
    ensures q.qsize >= 2 ==>
              var counting := Counting(Sampling(q));
              && (Resize(q, newsize).Fine? <==> counting != [] && Mean(counting) > 0.0)
              && (Resize(q, newsize).Fine? ==> Resize(q, newsize).value.cwidth == 3.0 * Mean(counting))
  {
    hide OnGrid, Filed, Drain, Width, Sampling, LocalInit, InsertAll, Counting, Mean, Sample;
    if Resize(q, newsize).Fine? {
      ResizeKeeps(q, newsize);
    }
    if q.qsize >= 2 {
      SamplingWidth(q);
      WidthIsMean(Sampling(q));
    }
  }

  /** A resize samples the events the next gets would take out, were there no further resizes. */
  lemma {:induction false} SampleIsNext<T>(q: Queue<T>, n: int, k: int)
    requires Usable(q) && Counted(q) && 0 <= k < n <= q.qsize && !q.resizeEnabled
    ensures var q' := Sample(q, k).1;
            && Sample(q, n).0[..k] == Sample(q, k).0
            && Get(q').Fine? && Get(q').value.0 == Some(Sample(q, n).0[k])
    decreases k
  {
    hide Found, NonEmpty, Drain, FoundBucket, LimitAt, ScanFrom, Usable;
    NonEmptyIff(q);
    RemoveCounted(q);
    if k > 0 {
      SampleIsNext(Remove(q), n - 1, k - 1);
    }
  }
}
