/**
 Which event comes out. The answer depends on one integer, the slack: how many buckets the limit
 `buckettop` runs ahead of the bucket of the last priority. The direct search does not reset the
 limit, so the slack drifts, and at some values the scan can skip the smallest event.
 */
module CalendarOrder {
  import opened Grid
  import opened Calendar
  import opened CalendarContents

  /** Nothing stored is earlier than the last event taken out. */
  ghost predicate Monotone<T>(q: Queue<T>) {
    forall x <- Bag(q) :: x.priority >= q.lastprio
  }

  /** No event of the bag lies in an earlier virtual bucket than `p`. */
  ghost predicate AheadOf<T>(bag: multiset<Event<T>>, p: real, width: real)
    requires width > 0.0
  {
    forall x <- bag :: VirtualBucket(p, width) <= VirtualBucket(x.priority, width)
  }

  /** Nothing stored lies in an earlier virtual bucket than the last event taken out. */
  ghost predicate Ahead<T>(q: Queue<T>)
    requires Usable(q)
  {
    AheadOf(Bag(q), q.lastprio, q.cwidth)
  }

  lemma MonotoneAhead<T>(q: Queue<T>)
    requires Usable(q) && Monotone(q)
    ensures Ahead(q)
  {
    hide VirtualBucket, Drain;
    forall x | x in Bag(q)
      ensures VirtualBucket(q.lastprio, q.cwidth) <= VirtualBucket(x.priority, q.cwidth)
    {
      BucketMono(q.lastprio, x.priority, q.cwidth);
    }
  }

  ghost predicate IsMinimum<T>(e: Event<T>, bag: multiset<Event<T>>) {
    e in bag && forall x <- bag :: e.priority <= x.priority
  }

  /** The positions from which a get is sure to return a minimum, whatever is stored. */
  predicate OrderSafe<T>(q: Queue<T>)
    requires Usable(q)
  {
    Slack(q) != -1 && Slack(q) <= |q.buckets| - 2
  }

  // ---------- one step of the scan ----------

  /** The head of the bucket of priority `p`, which exists and is not later than any event of priority `p`. */
  lemma HeadOf<T>(q: Queue<T>, x: Event<T>)
    requires WellFormed(q) && x in Bag(q)
    ensures var b := q.buckets[Slot(x.priority, q.cwidth, |q.buckets|)];
            b != [] && b[0].priority <= x.priority && b[0] in Bag(q)
            && Slot(b[0].priority, q.cwidth, |q.buckets|) == Slot(x.priority, q.cwidth, |q.buckets|)
  {
    hide SlackOf, Positioned, VirtualBucket;
    var i := Slot(x.priority, q.cwidth, |q.buckets|);
    InBag(q, x);
    assert Sorted(q.buckets[i]) && Placed(q.buckets[i], i, q.cwidth, |q.buckets|);
    assert q.buckets[i][0] in q.buckets[i];
    InBag(q, q.buckets[i][0]);
  }

  /** Step `k` compares the head of its bucket with the middle of virtual bucket `n + slack + k + 1`. */
  lemma HitMiddle<T>(q: Queue<T>, k: int)
    requires WellFormed(q) && 0 <= k
    ensures var n := VirtualBucket(q.lastprio, q.cwidth);
            var b := q.buckets[TourBucket(q, k)];
            && TourBucket(q, k) == (n + k) % |q.buckets|
            && (Hit(q, k) <==> b != [] && b[0].priority < Middle(n + Slack(q) + k, q.cwidth))
  {
    hide SlackOf, VirtualBucket, Filed, Drain;
    var n := VirtualBucket(q.lastprio, q.cwidth);
    ModShift(n, k, |q.buckets|);
    MiddleStep(n + Slack(q), k, q.cwidth);
  }

  lemma HitBounds<T>(q: Queue<T>, k: int)
    requires WellFormed(q) && 0 <= k
    ensures var n := VirtualBucket(q.lastprio, q.cwidth);
            var b := q.buckets[TourBucket(q, k)];
            && TourBucket(q, k) == (n + k) % |q.buckets|
            && (Hit(q, k) ==> b != [] && VirtualBucket(b[0].priority, q.cwidth) <= n + Slack(q) + k + 1)
            && (b != [] && VirtualBucket(b[0].priority, q.cwidth) <= n + Slack(q) + k ==> Hit(q, k))
  {
    hide SlackOf, VirtualBucket, Filed, Drain;
    var n := VirtualBucket(q.lastprio, q.cwidth);
    var b := q.buckets[TourBucket(q, k)];
    HitMiddle(q, k);
    if b != [] {
      BelowMiddle(b[0].priority, q.cwidth, n + Slack(q) + k);
    }
  }

  /** From a safe position a step that hits finds an event of exactly the bucket it stands for. */
  lemma HitExact<T>(q: Queue<T>, k: int)
    requires WellFormed(q) && Ahead(q) && OrderSafe(q) && 0 <= k < |q.buckets| && Hit(q, k)
    ensures Slack(q) >= 0
    ensures VirtualBucket(q.buckets[TourBucket(q, k)][0].priority, q.cwidth) == VirtualBucket(q.lastprio, q.cwidth) + k
  {
    hide SlackOf, Positioned, VirtualBucket, Drain;
    HitBounds(q, k);
    var i := TourBucket(q, k);
    var b := q.buckets[i];
    var n, u := VirtualBucket(q.lastprio, q.cwidth), VirtualBucket(b[0].priority, q.cwidth);
    assert Placed(b, i, q.cwidth, |q.buckets|) && b[0] in b;
    InBag(q, b[0]);
    assert u % |q.buckets| == (n + k) % |q.buckets|;
    if Slack(q) < 0 {
      assert n <= u <= n + k - 1;
      SameResidue(u, n + k, |q.buckets|);
    } else {
      assert n <= u <= n + k + |q.buckets| - 1;
      SameResidue(u, n + k, |q.buckets|);
    }
  }

  // ---------- the event that comes out ----------

  /** The direct search finds a global minimum of any well-formed queue. */
  lemma DirectSearchMinimum<T>(q: Queue<T>)
    requires WellFormed(q) && NonEmpty(q) && !ScanSucceeds(q)
    ensures IsMinimum(Found(q), Bag(q))
  {
    hide SlackOf, Positioned, VirtualBucket, Drain, Slot, ScanFrom;
    FoundInBag(q);
    forall x | x in Bag(q)
      ensures Found(q).priority <= x.priority
    {
      HeadOf(q, x);
    }
  }

  /** With a slack that is not negative, the scan does not go past an event within one tour. */
  lemma NotSkipped<T>(q: Queue<T>, x: Event<T>)
    requires WellFormed(q) && Ahead(q) && Slack(q) >= 0 && x in Bag(q)
    ensures var j := VirtualBucket(x.priority, q.cwidth) - VirtualBucket(q.lastprio, q.cwidth);
            j >= 0 && (j < |q.buckets| ==> ScanFrom(q, 0) <= j)
  {
    hide SlackOf, Positioned, VirtualBucket, Drain, Filed, ScanFrom;
    HeadOf(q, x);
    var j := VirtualBucket(x.priority, q.cwidth) - VirtualBucket(q.lastprio, q.cwidth);
    if j < |q.buckets| {
      HitBounds(q, j);
      BucketMono(q.buckets[TourBucket(q, j)][0].priority, x.priority, q.cwidth);
      assert Hit(q, j);
    }
  }

  /** A scan that succeeds from a safe position finds a global minimum, and keeps the slack. */
  lemma ScanMinimum<T>(q: Queue<T>)
    requires WellFormed(q) && NonEmpty(q) && Ahead(q) && OrderSafe(q) && ScanSucceeds(q)
    ensures IsMinimum(Found(q), Bag(q))
    ensures VirtualBucket(Found(q).priority, q.cwidth) == VirtualBucket(q.lastprio, q.cwidth) + ScanFrom(q, 0)
    ensures Slack(Remove(q)) == Slack(q) >= 0
  {
    hide SlackOf, Positioned, VirtualBucket, Drain, Filed, ScanFrom;
    HitExact(q, ScanFrom(q, 0));
    FoundInBag(q);
    RemovePosition(q);
    forall x | x in Bag(q)
      ensures Found(q).priority <= x.priority
    {
      NotSkipped(q, x);
      HeadOf(q, x);
      if VirtualBucket(Found(q).priority, q.cwidth) < VirtualBucket(x.priority, q.cwidth) {
        BucketOrder(Found(q).priority, x.priority, q.cwidth);
      }
    }
  }

  /** A direct search that starts from a safe position was needed: with a slack that is not negative,
      everything stored is at least one whole tour away. */
  lemma DirectSearchFar<T>(q: Queue<T>)
    requires WellFormed(q) && NonEmpty(q) && Ahead(q) && OrderSafe(q) && !ScanSucceeds(q)
    ensures var n := VirtualBucket(q.lastprio, q.cwidth);
            var u := VirtualBucket(Found(q).priority, q.cwidth);
            && u >= n && (Slack(q) >= 0 ==> u >= n + |q.buckets|)
            && Slack(Remove(q)) == n + Slack(q) + |q.buckets| - u <= |q.buckets| - 2
  {
    hide SlackOf, Positioned, VirtualBucket, Drain, Filed, ScanFrom;
    FoundInBag(q);
    RemovePosition(q);
    if Slack(q) >= 0 {
      NotSkipped(q, Found(q));
    }
  }

  /** The direct search ended in the one window that spoils the position: the priority it found lies
      within half a bucket width of where the scan left the limit. */
  predicate Spoils<T>(q: Queue<T>)
    requires Usable(q) && NonEmpty(q)
  {
    var limit := LimitAt(q, |q.buckets|);
    && !ScanSucceeds(q)
    && limit - q.cwidth / 2.0 <= Found(q).priority < limit + q.cwidth / 2.0
  }

  lemma SpoilsIff<T>(q: Queue<T>)
    requires WellFormed(q) && NonEmpty(q) && !ScanSucceeds(q)
    ensures Spoils(q) <==> Slack(Remove(q)) == -1
  {
    hide SlackOf, VirtualBucket, Drain, Filed, ScanFrom, Middle, Found;
    RemovePosition(q);
    var n, nb, p := VirtualBucket(q.lastprio, q.cwidth), |q.buckets|, Found(q).priority;
    var limit := LimitAt(q, nb);
    var m := n + Slack(q) + nb + 1;
    MiddleStep(n + Slack(q), nb, q.cwidth);
    MiddleHalves(m - 1, q.cwidth);
    InsideBucket(p, q.cwidth);
    if Spoils(q) {
      BucketUnique(p, q.cwidth, m);
    }
  }

  /** Half a bucket to either side of where a whole tour leaves the limit. */
  lemma TourLimit<T>(q: Queue<T>)
    requires WellFormed(q)
    ensures var limit := q.buckettop + |q.buckets| as real * q.cwidth;
            var m := VirtualBucket(q.lastprio, q.cwidth) + Slack(q) + |q.buckets| + 1;
            limit == LimitAt(q, |q.buckets|)
            && limit - q.cwidth / 2.0 == m as real * q.cwidth && limit + q.cwidth / 2.0 == (m + 1) as real * q.cwidth
  {
    hide SlackOf, VirtualBucket, Drain, Filed, Middle;
    var n, nb := VirtualBucket(q.lastprio, q.cwidth), |q.buckets|;
    MiddleStep(n + Slack(q), nb, q.cwidth);
    MiddleHalves(n + Slack(q) + nb, q.cwidth);
  }

  /** What spoils a safe position, in terms of the least stored priority alone. */
  lemma SpoilsByLeast<T>(q: Queue<T>, e: Event<T>)
    requires WellFormed(q) && NonEmpty(q) && Ahead(q) && OrderSafe(q) && IsMinimum(e, Bag(q))
    ensures var limit := q.buckettop + |q.buckets| as real * q.cwidth;
            Spoils(q) <==> limit - q.cwidth / 2.0 <= e.priority < limit + q.cwidth / 2.0
  {
    hide OnGrid, Filed, SlackOf, VirtualBucket, Drain, ScanFrom, Found, Ahead, Remove, ScanSucceeds, LimitAt, NonEmpty;
    RemoveOrder(q);
    TourLimit(q);
    assert Found(q).priority == e.priority;
    if ScanSucceeds(q) {
      ScanMinimum(q);
      ScanEnds(q);
      var m := VirtualBucket(q.lastprio, q.cwidth) + Slack(q) + |q.buckets| + 1;
      if m as real * q.cwidth <= e.priority < (m + 1) as real * q.cwidth {
        BucketUnique(e.priority, q.cwidth, m);
      }
    }
  }

  lemma ScanEnds<T>(q: Queue<T>)
    requires Usable(q) && ScanSucceeds(q)
    ensures ScanFrom(q, 0) < |q.buckets|
  {
  }

  lemma MiddleHalves(m: int, w: real)
    ensures Middle(m, w) - w / 2.0 == (m + 1) as real * w
    ensures Middle(m, w) + w / 2.0 == (m + 2) as real * w
  {
    assert (m + 1) as real == m as real + 1.0 && (m + 2) as real == m as real + 2.0;
  }

  /** From a safe position on contents ahead of it the next event is a minimum and the rest is not
      earlier; the position stays safe exactly when the search does not end in the spoiling window. */
  lemma RemoveOrder<T>(q: Queue<T>)
    requires WellFormed(q) && NonEmpty(q) && Ahead(q) && OrderSafe(q)
    ensures IsMinimum(Found(q), Bag(q))
    ensures WellFormed(Remove(q)) && Monotone(Remove(q))
    ensures OrderSafe(Remove(q)) <==> !Spoils(q)
  {
    hide SlackOf, Positioned, VirtualBucket, Drain, Filed, ScanFrom, Remove, Found, ScanSucceeds;
    RemoveKeeps(q);
    assert |Remove(q).buckets| == |q.buckets|;
    if ScanSucceeds(q) {
      ScanMinimum(q);
    } else {
      DirectSearchMinimum(q);
      DirectSearchFar(q);
      SpoilsIff(q);
    }
    forall x | x in Bag(Remove(q))
      ensures x.priority >= Found(q).priority
    {
      assert x in Bag(q);
    }
  }

  // ---------- the exact condition ----------

  ghost predicate SamePosition<T>(q: Queue<T>, q': Queue<T>) {
    && |q'.buckets| == |q.buckets| && q'.lastbucket == q.lastbucket && q'.lastprio == q.lastprio
    && q'.buckettop == q.buckettop && q'.cwidth == q.cwidth
  }

  lemma EmptyFiled<T>(n: nat, width: real)
    requires width > 0.0
    ensures Filed(EmptyBuckets<T>(n), width)
  {
  }

  /** Two events in different buckets of an otherwise empty calendar. */
  lemma TwoEvents<T>(q: Queue<T>, x: Event<T>, y: Event<T>) returns (r: Queue<T>)
    requires WellFormed(q) && x.priority >= q.lastprio && y.priority >= q.lastprio
    requires Slot(x.priority, q.cwidth, |q.buckets|) != Slot(y.priority, q.cwidth, |q.buckets|)
    ensures SamePosition(q, r) && WellFormed(r) && Slack(r) == Slack(q) && Monotone(r)
    ensures Bag(r) == multiset{x, y}
    ensures r.buckets[Slot(x.priority, q.cwidth, |q.buckets|)] == [x]
    ensures r.buckets[Slot(y.priority, q.cwidth, |q.buckets|)] == [y]
  {
    hide SlackOf, Positioned, VirtualBucket, Slot, Filed, Drain;
    var q0 := q.(buckets := EmptyBuckets(|q.buckets|), qsize := 0);
    DrainOfEmpty<T>(|q.buckets|);
    EmptyFiled<T>(|q.buckets|, q.cwidth);
    InsertKeeps(q0, x);
    InsertKeeps(Insert(q0, x), y);
    r := Insert(Insert(q0, x), y);
  }

  lemma QuarterPoints(n: int, w: real)
    requires w > 0.0
    ensures n as real * w < Middle(n - 1, w) < (n as real + 0.75) * w < (n + 1) as real * w
    ensures (n + 1) as real * w < (n as real + 1.25) * w < Middle(n, w) < (n + 2) as real * w
  {
    assert (n + 1) as real == n as real + 1.0 && (n + 2) as real == n as real + 2.0
           && (n - 1) as real == n as real - 1.0;
    MulMono(n as real, n as real + 0.5, w);
    MulMono(n as real + 0.5, n as real + 0.75, w);
    MulMono(n as real + 0.75, n as real + 1.0, w);
    MulMono(n as real + 1.0, n as real + 1.25, w);
    MulMono(n as real + 1.25, n as real + 1.5, w);
    MulMono(n as real + 1.5, n as real + 2.0, w);
  }

  lemma MiddleMono(a: int, b: int, w: real)
    requires w > 0.0 && a <= b
    ensures Middle(a, w) <= Middle(b, w)
  {
    MulMono(a as real + 1.5, b as real + 1.5, w);
  }

  lemma FirstHit<T>(q: Queue<T>, k: int)
    requires Usable(q) && 0 <= k < |q.buckets| && Hit(q, k) && forall j :: 0 <= j < k ==> !Hit(q, j)
    ensures ScanFrom(q, 0) == k
  {
    var r := ScanFrom(q, 0);
    assert r <= k;
  }

  lemma LateEvent(lastprio: real, w: real, n: int) returns (p: real)
    requires w > 0.0 && VirtualBucket(lastprio, w) == n
    ensures p >= lastprio && VirtualBucket(p, w) == n && Middle(n - 1, w) <= p
    ensures VirtualBucket((n as real + 1.25) * w, w) == n + 1
    ensures p < (n as real + 1.25) * w < Middle(n, w)
  {
    hide VirtualBucket, Middle;
    var late := (n as real + 0.75) * w;
    p := if lastprio > late then lastprio else late;
    InsideBucket(lastprio, w);
    QuarterPoints(n, w);
    BucketUnique(p, w, n);
    BucketUnique((n as real + 1.25) * w, w, n + 1);
  }

  /** When the limit lags one bucket behind, an event in the late half of its bucket is passed over. */
  lemma LaggingWitness<T>(q: Queue<T>, t: T) returns (r: Queue<T>)
    requires WellFormed(q) && Slack(q) == -1
    ensures SamePosition(q, r) && WellFormed(r) && NonEmpty(r) && Monotone(r)
    ensures !IsMinimum(Found(r), Bag(r))
  {
    hide SlackOf, VirtualBucket, Filed, Drain, ScanFrom, Middle, Positioned;
    var n, w, nb := VirtualBucket(q.lastprio, q.cwidth), q.cwidth, |q.buckets|;
    var p := LateEvent(q.lastprio, w, n);
    var x, y := Event(p, t), Event((n as real + 1.25) * w, t);
    if n % nb == (n + 1) % nb {
      SameResidue(n, n + 1, nb);
    }
    r := TwoEvents(q, x, y);
    HitMiddle(r, 0);
    HitMiddle(r, 1);
    FirstHit(r, 1);
    assert Found(r) == y && x in Bag(r);
  }

  /** When the limit runs a whole tour ahead, an event of the next tour is taken too early. */
  lemma LeadingWitness<T>(q: Queue<T>, t: T) returns (r: Queue<T>)
    requires WellFormed(q) && Slack(q) >= |q.buckets| - 1
    ensures SamePosition(q, r) && WellFormed(r) && NonEmpty(r) && Monotone(r)
    ensures !IsMinimum(Found(r), Bag(r))
  {
    hide SlackOf, VirtualBucket, Filed, Drain, ScanFrom, Middle, Positioned;
    var n, w, nb := VirtualBucket(q.lastprio, q.cwidth), q.cwidth, |q.buckets|;
    InsideBucket(q.lastprio, w);
    var m := n + nb - 1;
    var x := Event((n as real + 1.25) * w, t);
    var y := Event((m as real + 1.25) * w, t);
    QuarterPoints(n, w);
    QuarterPoints(m, w);
    BucketUnique(x.priority, w, n + 1);
    BucketUnique(y.priority, w, n + nb);
    BucketOrder(x.priority, y.priority, w);
    ModPlusN(n, nb);
    if n % nb == (n + 1) % nb {
      SameResidue(n, n + 1, nb);
    }
    r := TwoEvents(q, x, y);
    HitMiddle(r, 0);
    MiddleMono(m, n + Slack(q), w);
    FirstHit(r, 0);
    assert Found(r) == y && x in Bag(r);
  }

  /** A position is safe if and only if the next get returns a minimum whatever the calendar holds in
      the virtual bucket of the last priority and later ones. */
  lemma SafeIff<T>(q: Queue<T>, t: T)
    requires WellFormed(q)
    ensures OrderSafe(q) <==>
            forall r: Queue<T> :: SamePosition(q, r) && WellFormed(r) && NonEmpty(r) && Ahead(r)
                                  ==> IsMinimum(Found(r), Bag(r))
  {
    hide SlackOf, Positioned, VirtualBucket, Filed, Drain, FoundBucket, AheadOf;
    if OrderSafe(q) {
      forall r: Queue<T> | SamePosition(q, r) && WellFormed(r) && NonEmpty(r) && Ahead(r)
        ensures IsMinimum(Found(r), Bag(r))
      {
        RemoveOrder(r);
      }
    } else if Slack(q) == -1 {
      var r := LaggingWitness(q, t);
      MonotoneAhead(r);
    } else {
      var r := LeadingWitness(q, t);
      MonotoneAhead(r);
    }
  }

  // ---------- alignment ----------

  /** The limit stands one and a half buckets past some bucket the position can be read as. */
  predicate Aligned<T>(q: Queue<T>)
    requires Usable(q)
  {
    Slack(q) <= 0 && Slack(q) % |q.buckets| == 0
  }

  ghost predicate AlignedAt<T>(q: Queue<T>, n: int)
    requires Usable(q)
  {
    q.buckettop == Middle(n, q.cwidth) && q.lastbucket == n % |q.buckets| && n as real * q.cwidth <= q.lastprio
  }

  lemma MiddleInjective(a: int, b: int, w: real)
    requires w > 0.0 && Middle(a, w) == Middle(b, w)
    ensures a == b
  {
    MulMono(a as real + 1.5, b as real + 1.5, w);
  }

  lemma AlignedSome<T>(q: Queue<T>)
    requires WellFormed(q) && Aligned(q)
    ensures AlignedAt(q, VirtualBucket(q.lastprio, q.cwidth) + Slack(q))
  {
    hide SlackOf, VirtualBucket, Filed, Drain, Middle;
    var w, nb, v, s := q.cwidth, |q.buckets|, VirtualBucket(q.lastprio, q.cwidth), Slack(q);
    InsideBucket(q.lastprio, w);
    assert s == (s / nb) * nb;
    ModAddMultiple(v, s / nb, nb);
    MulMono((v + s) as real, v as real, w);
  }

  lemma AlignedOnly<T>(q: Queue<T>, n: int)
    requires WellFormed(q) && AlignedAt(q, n)
    ensures Aligned(q)
  {
    hide SlackOf, VirtualBucket, Filed, Drain, Middle;
    var w, nb, v, s := q.cwidth, |q.buckets|, VirtualBucket(q.lastprio, q.cwidth), Slack(q);
    InsideBucket(q.lastprio, w);
    MiddleInjective(n, v + s, w);
    if s > 0 {
      MulMono((v + 1) as real, n as real, w);
    }
    assert (v + s) % nb == v % nb;
    ResidueDifference(v + s, v, nb);
  }

  lemma AlignedIff<T>(q: Queue<T>)
    requires WellFormed(q)
    ensures Aligned(q) <==> exists n :: AlignedAt(q, n)
  {
    hide Aligned, AlignedAt, VirtualBucket, Filed, Drain;
    if Aligned(q) {
      AlignedSome(q);
    }
    if n :| AlignedAt(q, n) {
      AlignedOnly(q, n);
    }
  }

  /** An aligned position is safe, and a direct search keeps it aligned exactly when it finds the next
      event in the bucket where the scan began. */
  lemma AlignedStep<T>(q: Queue<T>)
    requires WellFormed(q) && NonEmpty(q) && Ahead(q) && Aligned(q)
    ensures OrderSafe(q)
    ensures ScanSucceeds(q) ==> Aligned(Remove(q))
    ensures !ScanSucceeds(q) ==> (Aligned(Remove(q)) <==> FoundBucket(q) == q.lastbucket)
  {
    hide SlackOf, VirtualBucket, Filed, Drain, Middle, ScanFrom, ScanSucceeds, FoundBucket;
    var nb, n, s := |q.buckets|, VirtualBucket(q.lastprio, q.cwidth), Slack(q);
    assert |Remove(q).buckets| == nb;
    assert s == (s / nb) * nb;
    NonZeroMultiple(s / nb, nb);
    if ScanSucceeds(q) {
      ScanMinimum(q);
    } else {
      DirectSearchFar(q);
      FoundInBag(q);
      var u := VirtualBucket(Found(q).priority, q.cwidth);
      var s' := n + s + nb - u;
      ModAddMultiple(n - u, s / nb + 1, nb);
      assert (s / nb + 1) * nb == s + nb;
      assert s' % nb == (n - u) % nb;
      ResidueDifference(n, u, nb);
    }
  }
}
