/**
 The calendar queue as calqueue.c keeps it: one space of 65536 buckets, of which a window is in use,
 and a position that every call updates in place. Each method is proved to do to the fields what the
 function of the same name in `Calendar` does to their values.
 */
module CalQueue {
  import opened Wrappers
  import opened Grid
  import opened Calendar
  import opened CalendarContents
  import opened CalendarRuns

  class CalendarQueue<T> {
    const calq: array<Bucket<T>>
    var firstsub: int
    var nbuckets: int
    var qsize: int
    var lastbucket: int
    var resizeEnabled: bool
    var topThreshold: int
    var botThreshold: int
    var lastprio: real
    var buckettop: real
    var cwidth: real

    /** The window in use lies inside the calendar space. */
    ghost predicate Framed()
      reads this
    {
      calq.Length == CALQSPACE && 0 <= firstsub && 0 < nbuckets && firstsub + nbuckets <= CALQSPACE
    }

    ghost function View(): Queue<T>
      reads this, calq
      requires Framed()
    {
      Queue(firstsub, calq[firstsub..firstsub + nbuckets], qsize, lastbucket, lastprio, buckettop, cwidth,
            topThreshold, botThreshold, resizeEnabled)
    }

    ghost predicate Valid()
      reads this, calq
    {
      && Framed() && WellFormed(View())
      && (firstsub == 0 || firstsub == CALQSPACE - nbuckets)
      && PowerOfTwo(nbuckets) && 2 <= nbuckets <= MAXNBUCKETS
    }

    /** How far the mutual recursion can still go. */
    ghost function PutRank(): int
      reads this
    {
      if resizeEnabled && qsize + 1 > topThreshold && nbuckets < MAXNBUCKETS then 4 else 1
    }

    ghost function DeqRank(): int
      reads this
    {
      if resizeEnabled && qsize - 1 < botThreshold then 4 else 1
    }

    /** Empty the window of `nbucks` buckets at `qbase` and put the position at `startprio`. */
    method LocalInit(qbase: int, nbucks: int, bwidth: real, startprio: real)
      requires calq.Length == CALQSPACE && 0 <= qbase && 0 < nbucks && qbase + nbucks <= CALQSPACE
      requires bwidth > 0.0
      modifies this, calq
      ensures Framed() && View() == Calendar.LocalInit(qbase, nbucks, bwidth, startprio, old(resizeEnabled))
      ensures forall k :: 0 <= k < CALQSPACE && !(qbase <= k < qbase + nbucks) ==> calq[k] == old(calq[k])
    {
      hide VirtualBucket, StartLimit;
      firstsub := qbase;
      cwidth := bwidth;
      nbuckets := nbucks;
      qsize := 0;
      Clear();
      lastprio := startprio;
      var n := VirtualBucket(startprio, cwidth);
      lastbucket := n % nbuckets;
      buckettop := StartLimit(n, cwidth);
      botThreshold := nbuckets / 2 - 2;
      topThreshold := 2 * nbuckets;
    }

    method Clear()
      requires Framed()
      modifies calq
      ensures calq[firstsub..firstsub + nbuckets] == EmptyBuckets(nbuckets)
      ensures forall k :: 0 <= k < CALQSPACE && !(firstsub <= k < firstsub + nbuckets) ==> calq[k] == old(calq[k])
    {
      for i := 0 to nbuckets
        invariant forall k :: firstsub <= k < firstsub + i ==> calq[k] == []
        invariant forall k :: 0 <= k < CALQSPACE && !(firstsub <= k < firstsub + nbuckets) ==> calq[k] == old(calq[k])
      {
        calq[firstsub + i] := [];
      }
    }

    /** `calqueue_init`. */
    constructor ()
      ensures Valid() && View() == Calendar.Init() && Resting(View()) && fresh(calq)
    {
      hide Slot, Positioned, SlackOf, Filed, Drain, VirtualBucket, Calendar.LocalInit;
      calq := new Bucket<T>[CALQSPACE](_ => []);
      firstsub, nbuckets, qsize, lastbucket := 0, 2, 0, 0;
      topThreshold, botThreshold := 0, 0;
      lastprio, buckettop, cwidth := 0.0, 0.0, 1.0;
      resizeEnabled := true;
      new;
      LocalInit(0, 2, 1.0, 0.0);
      InitResting<T>();
    }

    /** The part of `calqueue_put` that walks the bucket to the place behind the last event that is not
        later, and links the new event in there. */
    method Place(priority: real, payload: T)
      requires Framed() && Usable(View())
      modifies this`qsize, calq
      ensures Framed() && View() == Insert(old(View()), Event(priority, payload))
      ensures forall k :: 0 <= k < CALQSPACE && !(firstsub <= k < firstsub + nbuckets) ==> calq[k] == old(calq[k])
    {
      hide VirtualBucket;
      ghost var q := View();
      var e := Event(priority, payload);
      var i := VirtualBucket(priority, cwidth) % nbuckets;
      assert i == Slot(priority, cwidth, |q.buckets|);
      var traverse := calq[firstsub + i];
      assert traverse == q.buckets[i];
      if traverse == [] || traverse[0].priority > priority {
        calq[firstsub + i] := [e] + traverse;
      } else {
        var t := 0;
        while t + 1 < |traverse| && traverse[t + 1].priority <= priority
          invariant 0 <= t < |traverse|
          invariant forall j :: 0 <= j <= t ==> traverse[j].priority <= priority
        {
          t := t + 1;
        }
        InsertSortedAt(traverse, e, t + 1);
        calq[firstsub + i] := traverse[..t + 1] + [e] + traverse[t + 1..];
      }
      qsize := qsize + 1;
      assert calq[firstsub..firstsub + nbuckets] == q.buckets[i := InsertSorted(q.buckets[i], e)];
    }

    /** Put an event, then double the calendar if it is too full. */
    method Put(priority: real, payload: T) returns (fine: bool)
      requires Valid() && priority >= 0.0
      requires resizeEnabled ==> qsize <= topThreshold || nbuckets == MAXNBUCKETS
      modifies this, calq
      ensures fine == Calendar.Put(old(View()), Event(priority, payload)).Fine?
      ensures fine ==> Valid() && View() == Calendar.Put(old(View()), Event(priority, payload)).value
      ensures old(PutRank()) == 1 ==> fine && firstsub == old(firstsub) && nbuckets == old(nbuckets)
      ensures old(PutRank()) == 1 ==>
                forall k :: 0 <= k < CALQSPACE && !(firstsub <= k < firstsub + nbuckets) ==> calq[k] == old(calq[k])
      decreases PutRank(), 0
    {
      hide Slot, Positioned, SlackOf, Filed, Drain, Insert, Calendar.LocalInit, Calendar.NewWidth, InsertAll,
           PowerOfTwo;
      InsertKeeps(View(), Event(priority, payload));
      Place(priority, payload);
      fine := true;
      if qsize > topThreshold && nbuckets < MAXNBUCKETS {
        PowerOfTwoMax();
        PowersApart(nbuckets, MAXNBUCKETS);
        PowerOfTwoDouble(nbuckets);
        fine := Resize(2 * nbuckets);
      }
    }

    /** Copy everything into a window of `newsize` buckets at the other end of the calendar space. */
    method Resize(newsize: int) returns (fine: bool)
      requires Valid()
      requires resizeEnabled ==>
                 && PowerOfTwo(newsize) && 2 <= newsize <= MAXNBUCKETS && qsize <= 2 * newsize
                 && (newsize == 2 * nbuckets || newsize == nbuckets / 2)
      modifies this, calq
      ensures fine == (old(resizeEnabled) ==> Calendar.Resize(old(View()), newsize).Fine?)
      ensures fine && old(resizeEnabled) ==> Valid() && View() == Calendar.Resize(old(View()), newsize).value
      ensures !old(resizeEnabled) ==> unchanged(this) && unchanged(calq)
      decreases if resizeEnabled then 3 else 0, 0
    {
      hide Usable, Filed, OnGrid, Counted, Calendar.NewWidth, Calendar.LocalInit, InsertAll, PowerOfTwo, Drain;
      fine := true;
      if !resizeEnabled {
        return;
      }
      NewWidthKeeps(View());
      var bwidth := NewWidth();
      if bwidth.None? || bwidth.value <= 0.0 {
        return false;
      }
      Rebuild(newsize, bwidth.value);
    }

    /** The resize itself, once its width is known. */
    method Rebuild(newsize: int, bwidth: real)
      requires Valid() && resizeEnabled && bwidth > 0.0
      requires PowerOfTwo(newsize) && 2 <= newsize <= MAXNBUCKETS && qsize <= 2 * newsize
      requires newsize == 2 * nbuckets || newsize == nbuckets / 2
      modifies this, calq
      ensures Valid()
      ensures var q := old(View());
              View() == InsertAll(Calendar.LocalInit(NewBase(q, newsize), newsize, bwidth, q.lastprio, true),
                                  Drain(q.buckets))
      decreases 2, 2
    {
      hide Filed, Positioned, SlackOf, Slot, VirtualBucket, InsertAll, PowerOfTwo, Drain, StartLimit;
      ghost var bs := View().buckets;
      PingPong(View(), newsize);
      DrainNonNegative(View());
      assert NonNegative(Drain(bs));
      var oldsub, oldnbuckets := firstsub, nbuckets;
      if firstsub == 0 {
        LocalInit(CALQSPACE - newsize, newsize, bwidth, lastprio);
      } else {
        LocalInit(0, newsize, bwidth, lastprio);
      }
      LocalInitKeeps<T>(firstsub, newsize, bwidth, lastprio, true);
      assert forall k :: oldsub <= k < oldsub + oldnbuckets ==> calq[k] == old(calq[k]) == bs[k - oldsub];
      assert calq[oldsub..oldsub + oldnbuckets] == bs;
      Copy(oldsub, oldnbuckets);
    }

    /** The copy loop: put every event of the old window, last bucket first. No put resizes again. */
    method Copy(oldsub: int, oldnbuckets: int)
      requires Valid() && 0 <= oldsub && 0 < oldnbuckets && oldsub + oldnbuckets <= CALQSPACE
      requires firstsub + nbuckets <= oldsub || oldsub + oldnbuckets <= firstsub
      requires NonNegative(Drain(calq[oldsub..oldsub + oldnbuckets]))
      requires qsize == 0 && |Drain(calq[oldsub..oldsub + oldnbuckets])| <= topThreshold
      modifies this, calq
      ensures Valid() && firstsub == old(firstsub)
      ensures View() == InsertAll(old(View()), Drain(old(calq[oldsub..oldsub + oldnbuckets])))
      decreases 2, 1
    {
      hide Usable, Filed, OnGrid, Counted, Insert, Calendar.Resize, PowerOfTwo, Drain, NonNegative, InsertAll, Grows;
      ghost var q := View();
      ghost var bs := calq[oldsub..oldsub + oldnbuckets];
      var i := oldnbuckets;
      assert bs[..i] == bs;
      while i > 0
        invariant 0 <= i <= oldnbuckets && Valid()
        invariant firstsub == old(firstsub) && nbuckets == old(nbuckets) && topThreshold == old(topThreshold)
        invariant calq[oldsub..oldsub + oldnbuckets] == bs
        invariant qsize + |Drain(bs[..i])| <= topThreshold
        invariant NonNegative(Drain(bs[..i]))
        invariant InsertAll(View(), Drain(bs[..i])) == InsertAll(q, Drain(bs))
      {
        i := i - 1;
        DrainStep(bs, i);
        assert forall k :: oldsub <= k < oldsub + oldnbuckets ==> calq[k] == bs[k - oldsub];
        CopyBucket(calq[oldsub + i], Drain(bs[..i]));
        assert forall k :: oldsub <= k < oldsub + oldnbuckets ==> calq[k] == bs[k - oldsub];
        assert calq[oldsub..oldsub + oldnbuckets] == bs;
      }
      assert bs[..0] == [];
      DrainNothing<T>();
      InsertNone(View(), []);
    }

    method CopyBucket(bucket: Bucket<T>, ghost rest: seq<Event<T>>)
      requires Valid() && NonNegative(bucket + rest) && qsize + |bucket| <= topThreshold
      modifies this, calq
      ensures Valid() && firstsub == old(firstsub) && nbuckets == old(nbuckets) && topThreshold == old(topThreshold)
      ensures NonNegative(rest) && qsize == old(qsize) + |bucket|
      ensures InsertAll(View(), rest) == InsertAll(old(View()), bucket + rest)
      ensures forall k :: 0 <= k < CALQSPACE && !(firstsub <= k < firstsub + nbuckets) ==> calq[k] == old(calq[k])
      decreases 2, 0
    {
      hide Usable, Filed, OnGrid, Counted, Insert, Calendar.Resize, PowerOfTwo, Drain, NonNegative, InsertAll;
      ghost var q := View();
      var temp := bucket;
      while temp != []
        invariant Valid() && firstsub == old(firstsub) && nbuckets == old(nbuckets) && topThreshold == old(topThreshold)
        invariant qsize + |temp| == old(qsize) + |bucket|
        invariant NonNegative(temp + rest)
        invariant InsertAll(View(), temp + rest) == InsertAll(q, bucket + rest)
        invariant forall k :: 0 <= k < CALQSPACE && !(firstsub <= k < firstsub + nbuckets) ==> calq[k] == old(calq[k])
      {
        InsertFirst(View(), temp, rest);
        PutPlain(View(), temp[0]);
        var fine := Put(temp[0].priority, temp[0].payload);
        temp := temp[1..];
      }
      assert temp + rest == rest;
    }

    /** The width for the next calendar, from a sample taken out of this one and put back. */
    method NewWidth() returns (w: Option<real>)
      requires Valid() && resizeEnabled
      modifies this, calq
      ensures Framed() && firstsub == old(firstsub) && nbuckets == old(nbuckets)
      ensures (w, View()) == Calendar.NewWidth(old(View()))
      decreases 2, 2
    {
      hide Filed, OnGrid, Counted, PowerOfTwo, InsertAll, Sample, Width;
      ghost var q := View();
      if qsize < 2 {
        return Some(1.0);
      }
      var nsamples := if qsize <= 5 then qsize else 5 + qsize / 10;
      if nsamples > 25 {
        nsamples := 25;
      }
      var templastbucket, templastprio, tempbuckettop := lastbucket, lastprio, buckettop;
      resizeEnabled := false;
      QuietKeeps(q);
      w := Measure(nsamples);
      lastbucket, lastprio, buckettop := templastbucket, templastprio, tempbuckettop;
      resizeEnabled := true;
    }

    /** Take `nsamples` events out, put them back, and compute a width from their gaps. */
    method Measure(nsamples: int) returns (w: Option<real>)
      requires Valid() && !resizeEnabled && 2 <= nsamples <= 25 && nsamples <= qsize
      modifies this, calq
      ensures Framed() && firstsub == old(firstsub) && nbuckets == old(nbuckets)
      ensures var (es, q1) := Sample(old(View()), nsamples);
              w == Width(es) && View() == InsertAll(q1, es)
      decreases 2, 1
    {
      hide Filed, OnGrid, Counted, PowerOfTwo, InsertAll, Sample, Average, SmallCount, SmallSum, Width;
      ghost var es := Sample(View(), nsamples).0;
      SampleKeeps(View(), nsamples);
      assert NonNegative(es);
      var temp := new Option<Event<T>>[25](_ => None);
      var average := TakeSample(temp, nsamples);
      average := average / (nsamples - 1) as real;
      AverageIs(es, average);
      var newaverage, j := PutBack(temp, nsamples, average, es);
      w := if j == 0 then None else Some(newaverage / j as real * 3.0);
      WidthIs(es, average, w);
    }

    /** Dequeue the sample into `temp` and sum up its gaps. */
    method TakeSample(temp: array<Option<Event<T>>>, nsamples: int) returns (average: real)
      requires Valid() && !resizeEnabled && 2 <= nsamples <= temp.Length && nsamples <= qsize && temp as object != calq
      modifies this, calq, temp
      ensures Valid() && !resizeEnabled && firstsub == old(firstsub) && nbuckets == old(nbuckets)
      ensures View() == Sample(old(View()), nsamples).1
      ensures forall k :: 0 <= k < nsamples ==> temp[k] == Some(Sample(old(View()), nsamples).0[k])
      ensures average == GapSum(Sample(old(View()), nsamples).0, nsamples)
      decreases 2, 0
    {
      hide Filed, OnGrid, PowerOfTwo, Sample, Remove, Found, Calendar.Get, NonEmpty, GapSum, Counted;
      ghost var (all, emptied) := Sample(View(), nsamples);
      average := 0.0;
      GapSumStep(all, 0);
      for i := 0 to nsamples
        invariant Valid() && !resizeEnabled && firstsub == old(firstsub) && nbuckets == old(nbuckets)
        invariant nsamples - i <= qsize
        invariant forall k :: 0 <= k < i ==> temp[k] == Some(all[k])
        invariant Sample(View(), nsamples - i) == (all[i..], emptied)
        invariant average == GapSum(all, i)
      {
        SampleFirst(View(), nsamples - i);
        GetPlain(View());
        assert all[i..][0] == all[i] && all[i..][1..] == all[i + 1..];
        var e, _ := Deq();
        temp[i] := e;
        GapSumStep(all, i + 1);
        if i > 0 {
          average := average + (temp[i].value.priority - temp[i - 1].value.priority);
        }
      }
      SampleNone(View());
    }

    /** Put the sample back, summing up and counting the gaps below twice the average. */
    method PutBack(temp: array<Option<Event<T>>>, nsamples: int, average: real, ghost es: seq<Event<T>>)
      returns (newaverage: real, j: nat)
      requires Valid() && !resizeEnabled && 2 <= nsamples == |es| <= temp.Length && temp as object != calq
      requires NonNegative(es) && forall k :: 0 <= k < nsamples ==> temp[k] == Some(es[k])
      modifies this, calq
      ensures Valid() && !resizeEnabled && firstsub == old(firstsub) && nbuckets == old(nbuckets)
      ensures View() == InsertAll(old(View()), es)
      ensures newaverage == SmallSum(es, average * 2.0, nsamples) && j == SmallCount(es, average * 2.0, nsamples)
      decreases 2, 0
    {
      hide Filed, OnGrid, PowerOfTwo, InsertAll, Drain, Insert, Calendar.Resize;
      newaverage, j := 0.0, 0;
      ghost var q := View();
      InsertAt(q, es, 0);
      PutPlain(q, es[0]);
      var _ := Put(temp[0].value.priority, temp[0].value.payload);
      for i := 1 to nsamples
        invariant Valid() && !resizeEnabled && firstsub == old(firstsub) && nbuckets == old(nbuckets)
        invariant InsertAll(View(), es[i..]) == InsertAll(q, es)
        invariant newaverage == SmallSum(es, average * 2.0, i) && j == SmallCount(es, average * 2.0, i)
      {
        if temp[i].value.priority - temp[i - 1].value.priority < average * 2.0 {
          newaverage := newaverage + (temp[i].value.priority - temp[i - 1].value.priority);
          j := j + 1;
        }
        InsertAt(View(), es, i);
        PutPlain(View(), es[i]);
        var _ := Put(temp[i].value.priority, temp[i].value.payload);
      }
      InsertNone(View(), es[nsamples..]);
    }

    /** One tour from the current position, raising the limit at every step that does not hit. */
    method Scan() returns (i: int, hit: bool)
      requires Framed() && Usable(View())
      modifies this`buckettop
      ensures View() == old(View()).(buckettop := LimitAt(old(View()), ScanFrom(old(View()), 0)))
      ensures hit == ScanSucceeds(old(View()))
      ensures hit ==> i == TourBucket(old(View()), ScanFrom(old(View()), 0))
    {
      hide Usable, TourBucket, ScanFrom, Hit, LimitAt;
      ghost var q := View();
      ghost var k := 0;
      i := lastbucket;
      TourIs(q, 0);
      LimitStep(q, 0);
      while true
        invariant 0 <= k < nbuckets && i == TourBucket(q, k)
        invariant buckettop == LimitAt(q, k)
        invariant ScanFrom(q, 0) == ScanFrom(q, k)
        decreases nbuckets - k
      {
        ScanStep(q, k);
        assert calq[firstsub + i] == q.buckets[i];
        if calq[firstsub + i] != [] && calq[firstsub + i][0].priority < buckettop {
          return i, true;
        }
        NextStep(lastbucket, k, nbuckets);
        TourIs(q, k);
        TourIs(q, k + 1);
        LimitStep(q, k);
        i := i + 1;
        if i == nbuckets {
          i := 0;
        }
        k := k + 1;
        buckettop := buckettop + cwidth;
        if i == lastbucket {
          ScanEnd(q);
          return i, false;
        }
      }
    }

    /** The first bucket with the lowest head. */
    method DirectSearch() returns (i: int)
      requires Framed()
      ensures i == Lowest(View().buckets, nbuckets)
    {
      hide VirtualBucket, Slot;
      ghost var bs: seq<Bucket<T>> := View().buckets;
      var temp2 := -1;
      var lowest := LLONG_MAX;
      for n := 0 to nbuckets
        invariant -1 <= temp2 < nbuckets && temp2 == Lowest(bs, n)
        invariant temp2 >= 0 ==> bs[temp2] != [] && lowest == bs[temp2][0].priority
      {
        assert calq[firstsub + n] == bs[n];
        if calq[firstsub + n] != [] && (temp2 == -1 || calq[firstsub + n][0].priority < lowest) {
          temp2 := n;
          lowest := calq[firstsub + n][0].priority;
        }
      }
      i := temp2;
    }

    /** Unlink the head of bucket `i` and move the position there. */
    method Unlink(i: int) returns (e: Event<T>)
      requires Framed() && 0 <= i < nbuckets && calq[firstsub + i] != []
      modifies this`lastbucket, this`lastprio, this`qsize, calq
      ensures Framed() && e == old(calq[firstsub + i][0])
      ensures var q := old(View());
              View() == q.(buckets := q.buckets[i := q.buckets[i][1..]], qsize := q.qsize - 1,
                           lastbucket := i, lastprio := e.priority)
    {
      ghost var q := View();
      e := calq[firstsub + i][0];
      lastbucket := i;
      lastprio := e.priority;
      qsize := qsize - 1;
      calq[firstsub + i] := calq[firstsub + i][1..];
      assert calq[firstsub..firstsub + nbuckets] == q.buckets[i := q.buckets[i][1..]];
    }

    /** The part of `calqueue_deq` that finds the next event and takes it out. */
    method TakeOut() returns (e: Event<T>)
      requires Framed() && Usable(View()) && NonEmpty(View())
      modifies this`buckettop, this`lastbucket, this`lastprio, this`qsize, calq
      ensures Framed() && View() == Remove(old(View())) && e == Found(old(View()))
    {
      hide ScanFrom, TourBucket, Lowest, ScanSucceeds, LimitAt, Usable;
      ghost var q := View();
      var i, hit := Scan();
      if !hit {
        i := DirectSearch();
      }
      assert i == FoundBucket(q) && View().buckets == q.buckets;
      e := Unlink(i);
    }

    /** Take out the next event, then halve the calendar if it is too empty. */
    method Deq() returns (e: Option<Event<T>>, fine: bool)
      requires Valid()
      modifies this, calq
      ensures fine == Calendar.Get(old(View())).Fine?
      ensures fine ==> Valid() && (e, View()) == Calendar.Get(old(View())).value
      ensures old(DeqRank()) == 1 ==> fine && firstsub == old(firstsub) && nbuckets == old(nbuckets)
      decreases DeqRank(), 0
    {
      hide Filed, OnGrid, Drain, Calendar.LocalInit, Calendar.NewWidth, InsertAll, PowerOfTwo, Remove, Found, NonEmpty;
      if qsize == 0 {
        return None, true;
      }
      NonEmptyIff(View());
      RemoveKeeps(View());
      RemoveCounted(View());
      var node := TakeOut();
      e, fine := Some(node), true;
      if qsize < botThreshold {
        PowerOfTwoDouble(nbuckets);
        fine := Resize(nbuckets / 2);
      }
    }

    /** The payload alone; a node that is gone is gone for good. */
    method Get() returns (payload: Option<T>, fine: bool)
      requires Valid()
      modifies this, calq
      ensures fine == Calendar.Get(old(View())).Fine?
      ensures fine ==> Valid() && View() == Calendar.Get(old(View())).value.1
      ensures fine ==> (payload.None? <==> Calendar.Get(old(View())).value.0.None?)
      ensures fine && payload.Some? ==> payload.value == Calendar.Get(old(View())).value.0.value.payload
    {
      var e, f := Deq();
      fine := f;
      payload := if e.None? then None else Some(e.value.payload);
    }
  }

  /** The successor of a step of the tour, with the wrap-around written out. */
  lemma NextStep(a: int, k: int, n: int)
    requires 0 <= a < n && 0 <= k < n
    ensures var i := (a + k) % n;
            && (a + k + 1) % n == (if i + 1 == n then 0 else i + 1)
            && ((a + k + 1) % n == a <==> k + 1 == n)
  {
    SmallMod(a + k, n);
    SmallMod(a + k + 1, n);
  }

  lemma TourIs<T>(q: Queue<T>, k: int)
    requires Usable(q)
    ensures TourBucket(q, k) == (q.lastbucket + k) % |q.buckets|
    ensures k == 0 ==> TourBucket(q, k) == q.lastbucket
  {
    SmallMod(q.lastbucket, |q.buckets|);
  }

  lemma SmallMod(x: int, n: int)
    requires 0 <= x < 2 * n
    ensures x % n == if x < n then x else x - n
  {
    if x < n {
      QuotientUnique(x, 0, x, n);
    } else {
      QuotientUnique(x, 1, x - n, n);
    }
  }

  lemma QuietKeeps<T>(q: Queue<T>)
    requires WellFormed(q)
    ensures WellFormed(Quiet(q))
  {
    hide Positioned, Filed, Drain;
  }

  lemma WidthIs<T>(es: seq<Event<T>>, average: real, w: Option<real>)
    requires |es| >= 2 && average == Average(es)
    requires w == (var j := SmallCount(es, average * 2.0, |es|);
                   if j == 0 then None else Some(SmallSum(es, average * 2.0, |es|) / j as real * 3.0))
    ensures Width(es) == w
  {
  }

  lemma LimitStep<T>(q: Queue<T>, k: int)
    ensures LimitAt(q, 0) == q.buckettop
    ensures LimitAt(q, k + 1) == LimitAt(q, k) + q.cwidth
  {
    assert (k + 1) as real == k as real + 1.0;
  }

  lemma DrainStep<T>(bs: seq<Bucket<T>>, i: int)
    requires 0 <= i < |bs|
    ensures Drain(bs[..i + 1]) == bs[i] + Drain(bs[..i])
  {
    assert bs[..i + 1][..i] == bs[..i];
  }

  lemma DrainNothing<T>()
    ensures Drain<T>([]) == []
  {
  }

  lemma InsertNone<T>(q: Queue<T>, es: seq<Event<T>>)
    requires Usable(q) && es == []
    ensures InsertAll(q, es) == q
  {
  }

  lemma InsertFirst<T>(q: Queue<T>, es: seq<Event<T>>, rest: seq<Event<T>>)
    requires Usable(q) && es != [] && NonNegative(es + rest)
    ensures InsertAll(q, es + rest) == InsertAll(Insert(q, es[0]), es[1..] + rest)
    ensures es[0].priority >= 0.0 && NonNegative(es[1..] + rest)
  {
    assert (es + rest)[0] == es[0] && (es + rest)[1..] == es[1..] + rest;
  }

  lemma InsertAt<T>(q: Queue<T>, es: seq<Event<T>>, i: int)
    requires Usable(q) && 0 <= i < |es|
    ensures InsertAll(q, es[i..]) == InsertAll(Insert(q, es[i]), es[i + 1..])
  {
    assert es[i..][1..] == es[i + 1..];
  }

  lemma SampleFirst<T>(q: Queue<T>, n: int)
    requires Usable(q) && Counted(q) && 0 < n <= q.qsize
    ensures NonEmpty(q) && Counted(Remove(q)) && Remove(q).qsize == q.qsize - 1 >= n - 1
    ensures Sample(q, n).0[0] == Found(q)
    ensures Sample(Remove(q), n - 1) == (Sample(q, n).0[1..], Sample(q, n).1)
  {
    NonEmptyIff(q);
    RemoveCounted(q);
  }

  lemma GapSumStep<T>(es: seq<Event<T>>, n: int)
    requires 0 <= n <= |es|
    ensures GapSum(es, n) == if n <= 1 then 0.0 else GapSum(es, n - 1) + (es[n - 1].priority - es[n - 2].priority)
  {
  }

  lemma SampleNone<T>(q: Queue<T>)
    requires Usable(q) && Counted(q)
    ensures Sample(q, 0) == ([], q)
  {
    assert q.qsize >= 0;
  }

  /** With resizing off a get only removes its event. */
  lemma GetPlain<T>(q: Queue<T>)
    requires Usable(q) && Counted(q) && NonEmpty(q) && !q.resizeEnabled
    ensures Get(q) == Fine((Some(Found(q)), Remove(q)))
    ensures !Remove(q).resizeEnabled
  {
    NonEmptyIff(q);
  }

  lemma AverageIs<T>(es: seq<Event<T>>, average: real)
    requires |es| >= 2 && average == GapSum(es, |es|) / (|es| - 1) as real
    ensures Average(es) == average
  {
  }

  lemma ScanStep<T>(q: Queue<T>, k: int)
    requires Usable(q) && 0 <= k < |q.buckets|
    ensures ScanFrom(q, k) == if Hit(q, k) then k else ScanFrom(q, k + 1)
    ensures Hit(q, k) <==> (var b := q.buckets[TourBucket(q, k)]; b != [] && b[0].priority < LimitAt(q, k))
  {
  }

  lemma ScanEnd<T>(q: Queue<T>)
    requires Usable(q)
    ensures ScanFrom(q, |q.buckets|) == |q.buckets|
  {
  }

  /** Without a resize a put only files its event. */
  lemma PutPlain<T>(q: Queue<T>, e: Event<T>)
    requires Usable(q) && Counted(q)
    ensures Insert(q, e).qsize == q.qsize + 1 && Insert(q, e).topThreshold == q.topThreshold
    ensures Insert(q, e).resizeEnabled == q.resizeEnabled
    ensures !q.resizeEnabled || q.qsize < q.topThreshold ==> Put(q, e) == Fine(Insert(q, e))
  {
  }

  lemma PowerOfTwoDouble(n: int)
    requires PowerOfTwo(n) && n >= 2
    ensures PowerOfTwo(2 * n) && PowerOfTwo(n / 2)
  {
    assert (2 * n) / 2 == n && (2 * n) % 2 == 0;
  }
}
