/**
 What the calendar keeps: every event filed in the sorted bucket of its priority, nothing lost or
 invented by a resize, and the order of events of equal priority.
 */
module CalendarContents {
  import opened Wrappers
  import opened Grid
  import opened Calendar

  predicate Sorted<T>(b: Bucket<T>) {
    forall i, j :: 0 <= i < j < |b| ==> b[i].priority <= b[j].priority
  }

  ghost predicate Placed<T>(b: Bucket<T>, i: int, width: real, n: int)
    requires width > 0.0 && n > 0
  {
    forall e <- b :: e.priority >= 0.0 && Slot(e.priority, width, n) == i
  }

  /** Every bucket is sorted and holds only events whose priority belongs there. */
  ghost predicate Filed<T>(bs: seq<Bucket<T>>, width: real)
    requires width > 0.0
  {
    forall i :: 0 <= i < |bs| ==> Sorted(bs[i]) && Placed(bs[i], i, width, |bs|)
  }

  lemma FiledUpdate<T>(bs: seq<Bucket<T>>, width: real, i: int, b: Bucket<T>)
    requires width > 0.0 && Filed(bs, width) && 0 <= i < |bs|
    requires Sorted(b) && Placed(b, i, width, |bs|)
    ensures Filed(bs[i := b], width)
  {
    hide Sorted, Placed;
  }

  /** The middle of virtual bucket `m + 1`. */
  function Middle(m: int, width: real): real {
    (m as real + 1.5) * width
  }

  /** By how many buckets the limit runs ahead of the bucket of the last priority. */
  function SlackOf(lastprio: real, buckettop: real, width: real): int
    requires width > 0.0
  {
    (buckettop / width - 1.5).Floor - VirtualBucket(lastprio, width)
  }

  /** The position is a bucket of the grid, and the limit the middle of one. */
  predicate Positioned(lastbucket: int, lastprio: real, buckettop: real, width: real, n: int)
    requires width > 0.0 && n > 0
  {
    && lastbucket == Slot(lastprio, width, n)
    && buckettop == Middle(VirtualBucket(lastprio, width) + SlackOf(lastprio, buckettop, width), width)
  }

  function Slack<T>(q: Queue<T>): int
    requires Usable(q)
  {
    SlackOf(q.lastprio, q.buckettop, q.cwidth)
  }

  predicate OnGrid<T>(q: Queue<T>)
    requires Usable(q)
  {
    Positioned(q.lastbucket, q.lastprio, q.buckettop, q.cwidth, |q.buckets|)
  }

  lemma DivideBack(x: real, w: real)
    requires w > 0.0
    ensures (x * w) / w == x
  {
  }

  lemma SlackIs(lastprio: real, buckettop: real, width: real, s: int)
    requires width > 0.0 && buckettop == Middle(VirtualBucket(lastprio, width) + s, width)
    ensures SlackOf(lastprio, buckettop, width) == s
  {
    var v := VirtualBucket(lastprio, width);
    var x := (v + s) as real + 1.5;
    DivideBack(x, width);
    assert buckettop / width == x;
  }

  lemma MiddleStep(m: int, k: int, width: real)
    ensures Middle(m, width) + k as real * width == Middle(m + k, width)
  {
    assert (m + k) as real == m as real + k as real;
  }

  ghost predicate WellFormed<T>(q: Queue<T>) {
    Usable(q) && |q.buckets| >= 2 && Counted(q) && Filed(q.buckets, q.cwidth) && OnGrid(q) && q.lastprio >= 0.0
  }

  ghost function Bag<T>(q: Queue<T>): multiset<Event<T>> {
    multiset(Drain(q.buckets))
  }

  /** An event of the bag sits in the bucket of its priority, and nowhere else. */
  lemma InBag<T>(q: Queue<T>, e: Event<T>)
    requires Usable(q) && Filed(q.buckets, q.cwidth)
    ensures e in Bag(q) <==> e in q.buckets[Slot(e.priority, q.cwidth, |q.buckets|)]
    ensures e in Bag(q) ==> e.priority >= 0.0
  {
    var i := Slot(e.priority, q.cwidth, |q.buckets|);
    if e in q.buckets[i] {
      DrainUpdate(q.buckets, i, []);
      assert e in multiset(q.buckets[i]);
    }
    if e in Bag(q) {
      InDrain(q.buckets, e);
      var k :| 0 <= k < |q.buckets| && e in q.buckets[k];
    }
  }

  lemma {:induction false} InDrain<T>(bs: seq<Bucket<T>>, e: Event<T>)
    requires e in Drain(bs)
    ensures exists i :: 0 <= i < |bs| && e in bs[i]
  {
    var n := |bs| - 1;
    if e in bs[n] {
    } else {
      InDrain(bs[..n], e);
      var i :| 0 <= i < n && e in bs[..n][i];
      assert e in bs[i];
    }
  }

  // ---------- inserting ----------

  lemma {:induction false} InsertSortedKeeps<T>(b: Bucket<T>, e: Event<T>)
    requires Sorted(b)
    ensures Sorted(InsertSorted(b, e))
    ensures forall k :: 0 <= k < |InsertSorted(b, e)| ==> InsertSorted(b, e)[k] == e || InsertSorted(b, e)[k] in b
  {
    if b == [] || b[0].priority > e.priority {
    } else {
      InsertSortedKeeps(b[1..], e);
      var r := InsertSorted(b[1..], e);
      forall k | 0 <= k < |r|
        ensures b[0].priority <= r[k].priority && (r[k] == e || r[k] in b)
      {
        if r[k] != e {
          var m :| 0 <= m < |b[1..]| && b[1..][m] == r[k];
          assert b[m + 1] == r[k];
        }
      }
    }
  }

  lemma InsertFiled<T>(bs: seq<Bucket<T>>, width: real, e: Event<T>)
    requires |bs| > 0 && width > 0.0 && Filed(bs, width) && e.priority >= 0.0
    ensures var i := Slot(e.priority, width, |bs|); Filed(bs[i := InsertSorted(bs[i], e)], width)
  {
    hide Slot, Sorted, InsertSorted;
    var i := Slot(e.priority, width, |bs|);
    InsertSortedKeeps(bs[i], e);
    assert Sorted(bs[i]) && Placed(bs[i], i, width, |bs|);
    assert Placed(InsertSorted(bs[i], e), i, width, |bs|);
    FiledUpdate(bs, width, i, InsertSorted(bs[i], e));
  }

  lemma InsertKeeps<T>(q: Queue<T>, e: Event<T>)
    requires WellFormed(q) && e.priority >= 0.0
    ensures WellFormed(Insert(q, e))
    ensures Bag(Insert(q, e)) == Bag(q) + multiset{e}
    ensures Slack(Insert(q, e)) == Slack(q)
    ensures Insert(q, e) == q.(buckets := Insert(q, e).buckets, qsize := q.qsize + 1)
  {
    hide Slot, Positioned, SlackOf, VirtualBucket, Sorted, Placed, Filed, InsertSorted;
    var i := Slot(e.priority, q.cwidth, |q.buckets|);
    InsertCounted(q, e);
    InsertSortedContents(q.buckets[i], e);
    InsertFiled(q.buckets, q.cwidth, e);
    DrainUpdate(q.buckets, i, InsertSorted(q.buckets[i], e));
  }

  lemma {:induction false} InsertAllKeeps<T>(q: Queue<T>, es: seq<Event<T>>)
    requires WellFormed(q) && forall e <- es :: e.priority >= 0.0
    ensures WellFormed(InsertAll(q, es))
    ensures Bag(InsertAll(q, es)) == Bag(q) + multiset(es)
    ensures InsertAll(q, es) == q.(buckets := InsertAll(q, es).buckets, qsize := q.qsize + |es|)
    decreases |es|
  {
    if es != [] {
      InsertKeeps(q, es[0]);
      InsertAllKeeps(Insert(q, es[0]), es[1..]);
      assert es == [es[0]] + es[1..];
    }
  }

  // ---------- removing ----------

  lemma FoundInBag<T>(q: Queue<T>)
    requires WellFormed(q) && NonEmpty(q)
    ensures Found(q) in Bag(q) && Found(q).priority >= 0.0
    ensures FoundBucket(q) == Slot(Found(q).priority, q.cwidth, |q.buckets|)
  {
    var b := q.buckets[FoundBucket(q)];
    assert b[0] in b;
    InBag(q, b[0]);
  }

  lemma RemoveFiled<T>(bs: seq<Bucket<T>>, width: real, i: int)
    requires width > 0.0 && Filed(bs, width) && 0 <= i < |bs| && bs[i] != []
    ensures Filed(bs[i := bs[i][1..]], width)
  {
    hide Slot;
    assert Sorted(bs[i]) && Placed(bs[i], i, width, |bs|);
    assert Sorted(bs[i][1..]);
    FiledUpdate(bs, width, i, bs[i][1..]);
  }

  /** Removing takes out exactly the found event. */
  lemma RemoveContents<T>(q: Queue<T>)
    requires WellFormed(q) && NonEmpty(q)
    ensures Counted(Remove(q)) && Filed(Remove(q).buckets, q.cwidth)
    ensures Bag(q) == Bag(Remove(q)) + multiset{Found(q)}
  {
    hide Slot, Positioned, SlackOf, VirtualBucket, ScanFrom, FoundBucket, Sorted, Placed, Filed, Drain;
    var i := FoundBucket(q);
    RemoveCounted(q);
    HeadOut(q.buckets, i);
    RemoveFiled(q.buckets, q.cwidth, i);
  }

  lemma HeadOut<T>(bs: seq<Bucket<T>>, i: int)
    requires 0 <= i < |bs| && bs[i] != []
    ensures multiset(Drain(bs)) == multiset(Drain(bs[i := bs[i][1..]])) + multiset{bs[i][0]}
  {
    hide Drain;
    var b := bs[i];
    DrainUpdate(bs, i, b[1..]);
    assert b == [b[0]] + b[1..];
    assert multiset(b) == multiset{b[0]} + multiset(b[1..]);
  }

  /** Removing leaves the limit on the grid: the buckets the scan went over are added to the old
      slack, those the position moved ahead are taken off it. */
  lemma RemovePosition<T>(q: Queue<T>)
    requires WellFormed(q) && NonEmpty(q)
    ensures OnGrid(Remove(q))
    ensures Slack(Remove(q)) == VirtualBucket(q.lastprio, q.cwidth) + Slack(q) + ScanFrom(q, 0)
                                - VirtualBucket(Found(q).priority, q.cwidth)
  {
    hide Slot, SlackOf, VirtualBucket, ScanFrom, FoundBucket, Filed, Middle, Drain;
    FoundInBag(q);
    var n, k, u := VirtualBucket(q.lastprio, q.cwidth), ScanFrom(q, 0), VirtualBucket(Found(q).priority, q.cwidth);
    MiddleStep(n + Slack(q), k, q.cwidth);
    SlackIs(Found(q).priority, Remove(q).buckettop, q.cwidth, n + Slack(q) + k - u);
  }

  lemma RemoveKeeps<T>(q: Queue<T>)
    requires WellFormed(q) && NonEmpty(q)
    ensures WellFormed(Remove(q))
    ensures Bag(q) == Bag(Remove(q)) + multiset{Found(q)}
    ensures Remove(q).lastprio == Found(q).priority && Remove(q).qsize == q.qsize - 1
    ensures Remove(q).resizeEnabled == q.resizeEnabled && Remove(q).firstsub == q.firstsub
    ensures Remove(q).cwidth == q.cwidth
  {
    hide Slot, Positioned, SlackOf, VirtualBucket, ScanFrom, FoundBucket, Filed, Drain;
    RemoveContents(q);
    RemovePosition(q);
    FoundInBag(q);
  }

  // ---------- sampling and resizing ----------

  lemma {:induction false} SampleKeeps<T>(q: Queue<T>, n: int)
    requires WellFormed(q) && 0 <= n <= q.qsize
    ensures WellFormed(Sample(q, n).1)
    ensures Bag(q) == Bag(Sample(q, n).1) + multiset(Sample(q, n).0)
    ensures forall e <- Sample(q, n).0 :: e.priority >= 0.0
    ensures Sample(q, n).1.cwidth == q.cwidth && Sample(q, n).1.resizeEnabled == q.resizeEnabled
    ensures Sample(q, n).1.firstsub == q.firstsub
    decreases n
  {
    hide Slot, Positioned, SlackOf, VirtualBucket, Filed, Drain, Remove, Found, NonEmpty;
    if n > 0 {
      NonEmptyIff(q);
      RemoveKeeps(q);
      RemoveCounted(q);
      FoundInBag(q);
      SampleKeeps(Remove(q), n - 1);
      var es := Sample(Remove(q), n - 1).0;
      assert multiset([Found(q)] + es) == multiset{Found(q)} + multiset(es);
    }
  }

  /** Choosing a width changes nothing but the order of events inside the buckets. */
  lemma NewWidthKeeps<T>(q: Queue<T>)
    requires WellFormed(q) && q.resizeEnabled
    ensures WellFormed(NewWidth(q).1)
    ensures Bag(NewWidth(q).1) == Bag(q)
    ensures NewWidth(q).1 == q.(buckets := NewWidth(q).1.buckets)
    ensures Slack(NewWidth(q).1) == Slack(q)
  {
    hide Slot, Positioned, SlackOf, VirtualBucket, Sorted, Filed, Width;
    if q.qsize >= 2 {
      var n := SampleCount(q.qsize);
      SampleKeeps(Quiet(q), n);
      var (es, q1) := Sample(Quiet(q), n);
      InsertAllKeeps(q1, es);
    }
  }

  lemma LocalInitKeeps<T>(base: int, n: int, w: real, startprio: real, enabled: bool)
    requires n >= 2 && w > 0.0 && startprio >= 0.0
    ensures var q: Queue<T> := LocalInit(base, n, w, startprio, enabled);
            WellFormed(q) && Bag(q) == multiset{} && Slack(q) == 0
  {
    var q: Queue<T> := LocalInit(base, n, w, startprio, enabled);
    var v := VirtualBucket(startprio, w);
    assert q.buckettop == Middle(v + 0, w);
    SlackIs(startprio, q.buckettop, w, 0);
    DrainOfEmpty<T>(n);
  }

  lemma {:induction false} DrainOfEmpty<T>(n: nat)
    ensures Drain(EmptyBuckets<T>(n)) == []
  {
    if n > 0 {
      assert EmptyBuckets<T>(n)[..n - 1] == EmptyBuckets<T>(n - 1);
      DrainOfEmpty<T>(n - 1);
    }
  }

  lemma DrainNonNegative<T>(q: Queue<T>)
    requires WellFormed(q)
    ensures forall e <- Drain(q.buckets) :: e.priority >= 0.0
  {
    forall e | e in Drain(q.buckets)
      ensures e.priority >= 0.0
    {
      assert e in Bag(q);
      InBag(q, e);
    }
  }

  /** A resize keeps the bag, leaves the limit one and a half buckets past the last priority, and
      chooses the other end of the calendar space. */
  lemma ResizeKeeps<T>(q: Queue<T>, newsize: int)
    requires WellFormed(q) && newsize >= 2 && Resize(q, newsize).Fine? && q.resizeEnabled
    ensures var q' := Resize(q, newsize).value;
            && WellFormed(q') && Bag(q') == Bag(q) && q'.qsize == q.qsize && Slack(q') == 0
            && |q'.buckets| == newsize && q'.lastprio == q.lastprio
            && q'.resizeEnabled && q'.firstsub == NewBase(q, newsize)
            && NewWidth(q).0 == Some(q'.cwidth)
  {
    hide Slot, Positioned, SlackOf, VirtualBucket, Sorted, Filed, Width;
    NewWidthKeeps(q);
    var (w, q1) := NewWidth(q);
    var q2 := LocalInit(NewBase(q, newsize), newsize, w.value, q1.lastprio, true);
    LocalInitKeeps<T>(NewBase(q, newsize), newsize, w.value, q1.lastprio, true);
    DrainNonNegative(q1);
    InsertAllKeeps(q2, Drain(q1.buckets));
  }

  /** Conservation: a put adds exactly its event. */
  lemma PutKeeps<T>(q: Queue<T>, e: Event<T>)
    requires WellFormed(q) && e.priority >= 0.0 && Put(q, e).Fine?
    ensures var q' := Put(q, e).value;
            && WellFormed(q') && Bag(q') == Bag(q) + multiset{e} && q'.qsize == q.qsize + 1
            && q'.lastprio == q.lastprio && q'.resizeEnabled == q.resizeEnabled
  {
    hide Slot, Positioned, SlackOf, VirtualBucket, Sorted, Filed, Insert, NewWidth, InsertAll, LocalInit;
    InsertKeeps(q, e);
    var q1 := Insert(q, e);
    if Grows(q1) && q.resizeEnabled {
      ResizeKeeps(q1, 2 * |q1.buckets|);
    }
  }

  /** Conservation: a get removes exactly the event it returns, and returns one unless the queue is empty. */
  lemma GetKeeps<T>(q: Queue<T>)
    requires WellFormed(q) && Get(q).Fine?
    ensures var (r, q') := Get(q).value;
            && WellFormed(q') && q'.resizeEnabled == q.resizeEnabled
            && (r.None? <==> Bag(q) == multiset{})
            && (r.None? ==> q' == q)
            && (r.Some? ==> Bag(q) == Bag(q') + multiset{r.value} && q'.lastprio == r.value.priority >= 0.0)
            && (r.Some? ==> q'.qsize == q.qsize - 1)
  {
    hide Slot, Positioned, SlackOf, VirtualBucket, Sorted, Filed, Remove, Found, NonEmpty, NewWidth, InsertAll,
         LocalInit, Drain;
    if q.qsize > 0 {
      NonEmptyIff(q);
      RemoveKeeps(q);
      RemoveCounted(q);
      FoundInBag(q);
      var q1 := Remove(q);
      if Shrinks(q1) && q1.resizeEnabled {
        ResizeKeeps(q1, |q1.buckets| / 2);
      }
    }
  }

  // ---------- events of equal priority ----------

  /** The events of priority `p`, in order. */
  function Ties<T>(es: seq<Event<T>>, p: real): seq<Event<T>> {
    if es == [] then []
    else if es[0].priority == p then [es[0]] + Ties(es[1..], p)
    else Ties(es[1..], p)
  }

  /** The waiting line of priority `p`: the stored events of that priority, next one first. */
  function Line<T>(q: Queue<T>, p: real): seq<Event<T>>
    requires Usable(q)
  {
    Ties(q.buckets[Slot(p, q.cwidth, |q.buckets|)], p)
  }

  lemma {:induction false} TiesConcat<T>(a: seq<Event<T>>, b: seq<Event<T>>, p: real)
    ensures Ties(a + b, p) == Ties(a, p) + Ties(b, p)
  {
    if a == [] {
      assert a + b == b;
    } else {
      assert (a + b)[1..] == a[1..] + b;
      TiesConcat(a[1..], b, p);
    }
  }

  lemma {:induction false} NoTies<T>(es: seq<Event<T>>, p: real)
    requires forall e <- es :: e.priority != p
    ensures Ties(es, p) == []
  {
    if es != [] {
      NoTies(es[1..], p);
    }
  }

  lemma {:induction false} InsertSortedTies<T>(b: Bucket<T>, e: Event<T>, p: real)
    requires Sorted(b)
    ensures Ties(InsertSorted(b, e), p) == Ties(b, p) + if e.priority == p then [e] else []
  {
    if b == [] {
    } else if b[0].priority > e.priority {
      if e.priority == p {
        NoTies(b, p);
      }
      assert ([e] + b)[1..] == b;
    } else {
      InsertSortedTies(b[1..], e, p);
      assert InsertSorted(b, e)[1..] == InsertSorted(b[1..], e);
    }
  }

  /** A new event joins the end of the line of its priority and touches no other line. */
  lemma InsertLine<T>(q: Queue<T>, e: Event<T>, p: real)
    requires WellFormed(q)
    ensures Line(Insert(q, e), p) == Line(q, p) + if e.priority == p then [e] else []
  {
    InsertSortedTies(q.buckets[Slot(e.priority, q.cwidth, |q.buckets|)], e, p);
  }

  lemma {:induction false} InsertAllLine<T>(q: Queue<T>, es: seq<Event<T>>, p: real)
    requires WellFormed(q) && forall e <- es :: e.priority >= 0.0
    ensures Line(InsertAll(q, es), p) == Line(q, p) + Ties(es, p)
    decreases |es|
  {
    hide Slot, Positioned, SlackOf, VirtualBucket, Sorted, Filed;
    if es != [] {
      InsertKeeps(q, es[0]);
      InsertLine(q, es[0], p);
      InsertAllLine(Insert(q, es[0]), es[1..], p);
    }
  }

  /** The event removed is the first of its line, and no other line moves. */
  lemma RemoveLine<T>(q: Queue<T>, p: real)
    requires WellFormed(q) && NonEmpty(q)
    ensures Line(q, p) == (if Found(q).priority == p then [Found(q)] else []) + Line(Remove(q), p)
  {
    FoundInBag(q);
  }

  lemma {:induction false} SampleLine<T>(q: Queue<T>, n: int, p: real)
    requires WellFormed(q) && 0 <= n <= q.qsize
    ensures Line(q, p) == Ties(Sample(q, n).0, p) + Line(Sample(q, n).1, p)
    decreases n
  {
    hide Slot, Positioned, SlackOf, VirtualBucket, Sorted, Filed, Remove, Found, NonEmpty, Drain;
    if n > 0 {
      NonEmptyIff(q);
      RemoveKeeps(q);
      RemoveLine(q, p);
      SampleLine(Remove(q), n - 1, p);
      var es := Sample(Remove(q), n - 1).0;
      assert ([Found(q)] + es)[1..] == es;
    }
  }

  /** How many events of priority `p` a resize of `q` would sample. */
  function Sampled<T>(q: Queue<T>, p: real): nat
    requires Usable(q) && Counted(q)
  {
    if q.qsize < 2 then 0 else |Ties(Sample(Quiet(q), SampleCount(q.qsize)).0, p)|
  }

  /** Putting a sample back rotates each line by the number of its events that were sampled. */
  lemma NewWidthLine<T>(q: Queue<T>, p: real)
    requires WellFormed(q)
    ensures Sampled(q, p) <= |Line(q, p)|
    ensures Line(NewWidth(q).1, p) == Line(q, p)[Sampled(q, p)..] + Line(q, p)[..Sampled(q, p)]
  {
    hide Slot, Positioned, SlackOf, VirtualBucket, Sorted, Filed, Width;
    if q.qsize >= 2 {
      var n := SampleCount(q.qsize);
      SampleKeeps(Quiet(q), n);
      SampleLine(Quiet(q), n, p);
      var (es, q1) := Sample(Quiet(q), n);
      InsertAllLine(q1, es, p);
      assert NewWidth(q).1.buckets == InsertAll(q1, es).buckets;
    }
  }

  lemma {:induction false} DrainTies<T>(bs: seq<Bucket<T>>, i: int, p: real)
    requires 0 <= i < |bs|
    requires forall k, e :: 0 <= k < |bs| && k != i && e in bs[k] ==> e.priority != p
    ensures Ties(Drain(bs), p) == Ties(bs[i], p)
  {
    var n := |bs| - 1;
    TiesConcat(bs[n], Drain(bs[..n]), p);
    if i == n {
      forall e | e in Drain(bs[..n])
        ensures e.priority != p
      {
        InDrain(bs[..n], e);
        var k :| 0 <= k < n && e in bs[..n][k];
        assert e in bs[k];
      }
      NoTies(Drain(bs[..n]), p);
    } else {
      NoTies(bs[n], p);
      DrainTies(bs[..n], i, p);
    }
  }

  /** The copy loop keeps every line; only the sample put back before it has rotated them. */
  lemma ResizeLine<T>(q: Queue<T>, newsize: int, p: real)
    requires WellFormed(q) && newsize >= 2 && q.resizeEnabled && Resize(q, newsize).Fine?
    ensures Sampled(q, p) <= |Line(q, p)|
    ensures Line(Resize(q, newsize).value, p) == Line(q, p)[Sampled(q, p)..] + Line(q, p)[..Sampled(q, p)]
  {
    hide Positioned, SlackOf, VirtualBucket, Sorted, Width;
    NewWidthKeeps(q);
    NewWidthLine(q, p);
    var (w, q1) := NewWidth(q);
    var q2 := LocalInit(NewBase(q, newsize), newsize, w.value, q1.lastprio, true);
    LocalInitKeeps<T>(NewBase(q, newsize), newsize, w.value, q1.lastprio, true);
    DrainNonNegative(q1);
    InsertAllLine(q2, Drain(q1.buckets), p);
    var i := Slot(p, q1.cwidth, |q1.buckets|);
    forall k, e | 0 <= k < |q1.buckets| && k != i && e in q1.buckets[k]
      ensures e.priority != p
    {
      assert Slot(e.priority, q1.cwidth, |q1.buckets|) == k;
    }
    DrainTies(q1.buckets, i, p);
  }
}
