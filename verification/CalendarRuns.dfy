/**
 Whole runs of the interface, from `calqueue_init` on: sizes, amortised cost, conservation and order.
 A run stops at a resize without a width, and a condition on the calls says exactly when it does not.
 */
module CalendarRuns {
  import opened Wrappers
  import opened Grid
  import opened Calendar
  import opened CalendarContents
  import opened CalendarOrder
  import opened CalendarWidth
  import opened CalendarSample

  // ---------- sizes ----------

  predicate PowerOfTwo(n: int) {
    n == 1 || (n > 1 && n % 2 == 0 && PowerOfTwo(n / 2))
  }

  /** Between two powers of two there is at least a factor of two. */
  lemma {:induction false} PowersApart(n: int, m: int)
    requires PowerOfTwo(n) && PowerOfTwo(m) && n < m
    ensures 2 * n <= m
  {
    if n > 1 {
      PowersApart(n / 2, m / 2);
    }
  }

  lemma PowerOfTwoMax()
    ensures PowerOfTwo(MAXNBUCKETS)
  {
    assert PowerOfTwo(8);
    assert PowerOfTwo(64);
    assert PowerOfTwo(512);
    assert PowerOfTwo(4096);
  }

  /** What holds whenever no call is in progress. */
  ghost predicate Resting<T>(q: Queue<T>) {
    && WellFormed(q) && q.resizeEnabled
    && PowerOfTwo(|q.buckets|) && 2 <= |q.buckets| <= MAXNBUCKETS
    && (q.firstsub == 0 || q.firstsub == CALQSPACE - |q.buckets|)
    && q.botThreshold <= q.qsize
    && (q.qsize <= q.topThreshold || |q.buckets| == MAXNBUCKETS)
  }

  lemma InitResting<T>()
    ensures Resting(Init<T>()) && Bag(Init<T>()) == multiset{} && OrderSafe(Init<T>()) && Monotone(Init<T>())
  {
    hide Slot, Positioned, SlackOf, Filed, Drain;
    LocalInitKeeps<T>(0, 2, 1.0, 0.0, true);
  }

  /** The two bucket arrays of a resize do not overlap inside the calendar space. */
  lemma PingPong<T>(q: Queue<T>, newsize: int)
    requires 2 <= |q.buckets| <= MAXNBUCKETS && 2 <= newsize <= MAXNBUCKETS
    requires newsize == 2 * |q.buckets| || newsize == |q.buckets| / 2
    requires q.firstsub == 0 || q.firstsub == CALQSPACE - |q.buckets|
    ensures var base := NewBase(q, newsize);
            && 0 <= base && base + newsize <= CALQSPACE && (base == 0 || base == CALQSPACE - newsize)
            && (base + newsize <= q.firstsub || q.firstsub + |q.buckets| <= base)
  {
  }

  /** A put that doubles the calendar leaves room to spare on both sides. */
  lemma PutResting<T>(q: Queue<T>, e: Event<T>)
    requires Resting(q) && e.priority >= 0.0 && Put(q, e).Fine?
    ensures Resting(Put(q, e).value)
  {
    hide Slot, Positioned, SlackOf, Filed, Insert, InsertAll, NewWidth, LocalInit, Drain;
    PutKeeps(q, e);
    InsertKeeps(q, e);
    var q1 := Insert(q, e);
    if Grows(q1) {
      PowerOfTwoMax();
      PowersApart(|q.buckets|, MAXNBUCKETS);
      ResizeKeeps(q1, 2 * |q1.buckets|);
      assert PowerOfTwo(2 * |q.buckets|);
    }
  }

  lemma GetResting<T>(q: Queue<T>)
    requires Resting(q) && Get(q).Fine?
    ensures Resting(Get(q).value.1)
  {
    hide Slot, Positioned, SlackOf, Filed, Remove, Found, NonEmpty, InsertAll, NewWidth, LocalInit, Drain;
    if q.qsize > 0 {
      GetKeeps(q);
      NonEmptyIff(q);
      RemoveKeeps(q);
      var q1 := Remove(q);
      if Shrinks(q1) {
        ResizeKeeps(q1, |q1.buckets| / 2);
      }
    }
  }

  /** While it copies, a resize meets neither threshold: the copy loop starts no second resize. */
  lemma {:induction false} CopyNeverGrows<T>(q: Queue<T>, newsize: int, width: real, k: nat)
    requires Counted(q) && width > 0.0 && k <= q.qsize
    requires (newsize == 2 * |q.buckets| && q.qsize == 2 * |q.buckets| + 1 > 1)
          || (newsize == |q.buckets| / 2 && q.qsize == |q.buckets| / 2 - 3 >= 0)
    ensures var empty := LocalInit(NewBase(q, newsize), newsize, width, q.lastprio, true);
            var part := InsertAll(empty, Drain(q.buckets)[..k]);
            !Grows(part) && (k == q.qsize ==> !Shrinks(part))
  {
    var empty: Queue<T> := LocalInit(NewBase(q, newsize), newsize, width, q.lastprio, true);
    DrainOfEmpty<T>(newsize);
    InsertAllCounted(empty, Drain(q.buckets)[..k]);
    InsertAllSettings(empty, Drain(q.buckets)[..k]);
  }

  lemma {:induction false} InsertAllSettings<T>(q: Queue<T>, es: seq<Event<T>>)
    requires Usable(q)
    ensures InsertAll(q, es).topThreshold == q.topThreshold && InsertAll(q, es).botThreshold == q.botThreshold
    decreases |es|
  {
    if es != [] {
      InsertAllSettings(Insert(q, es[0]), es[1..]);
    }
  }

  // ---------- runs ----------

  datatype Call<T> = PutCall(event: Event<T>) | GetCall

  type Reply<T> = Option<Event<T>>

  ghost predicate Legal<T>(calls: seq<Call<T>>) {
    forall c <- calls :: c.PutCall? ==> c.event.priority >= 0.0
  }

  /** One put after another. */
  function PutCalls<T>(es: seq<Event<T>>): (calls: seq<Call<T>>)
    ensures NonNegative(es) ==> Legal(calls)
  {
    if es == [] then [] else [PutCall(es[0])] + PutCalls(es[1..])
  }

  function Step<T>(q: Queue<T>, c: Call<T>): Outcome<(seq<Reply<T>>, Queue<T>)>
    requires Usable(q) && Counted(q)
  {
    match c
    case PutCall(e) => (match Put(q, e) case Degenerate => Degenerate case Fine(q') => Fine(([], q')))
    case GetCall => (match Get(q) case Degenerate => Degenerate case Fine((r, q')) => Fine(([r], q')))
  }

  lemma StepResting<T>(q: Queue<T>, c: Call<T>)
    requires Resting(q) && Legal([c]) && Step(q, c).Fine?
    ensures Resting(Step(q, c).value.1)
  {
    assert c in [c];
    match c
    case PutCall(e) => PutResting(q, e);
    case GetCall => GetResting(q);
  }

  /** If the call resizes the calendar, there is a width to resize it to. */
  predicate Wide<T>(q: Queue<T>, c: Call<T>)
    requires Usable(q) && Counted(q)
  {
    match c
    case PutCall(e) =>
      InsertCounted(q, e);
      Grows(Insert(q, e)) ==> HasWidth(Insert(q, e))
    case GetCall =>
      q.qsize == 0
      || (NonEmptyIff(q);
          RemoveCounted(q);
          Shrinks(Remove(q)) ==> HasWidth(Remove(q)))
  }

  lemma StepFineIff<T>(q: Queue<T>, c: Call<T>)
    requires Usable(q) && Counted(q) && q.resizeEnabled
    ensures Step(q, c).Fine? <==> Wide(q, c)
  {
    hide Slot, HasWidth, NewWidth, LocalInit, InsertAll, Drain, Resize, NonEmpty, Found;
    match c
    case PutCall(e) =>
      InsertCounted(q, e);
      if Grows(Insert(q, e)) {
        ResizeFineExact(Insert(q, e), 2 * |q.buckets|);
      }
    case GetCall =>
      if q.qsize > 0 {
        NonEmptyIff(q);
        RemoveCounted(q);
        if Shrinks(Remove(q)) {
          ResizeFineExact(Remove(q), |q.buckets| / 2);
        }
      }
  }

  /** The replies of the gets of a run and the queue it ends with. */
  ghost function Run<T>(q: Queue<T>, calls: seq<Call<T>>): Outcome<(seq<Reply<T>>, Queue<T>)>
    requires Resting(q) && Legal(calls)
    decreases |calls|
  {
    if calls == [] then Fine(([], q))
    else
      assert calls[0] in calls;
      match Step(q, calls[0])
      case Degenerate => Degenerate
      case Fine((r, q')) =>
        StepResting(q, calls[0]);
        match Run(q', calls[1..])
        case Degenerate => Degenerate
        case Fine((rs, q'')) => Fine((r + rs, q''))
  }

  /** Every resize of the run finds a width. */
  ghost predicate AllWide<T>(q: Queue<T>, calls: seq<Call<T>>)
    requires Resting(q) && Legal(calls)
    decreases |calls|
  {
    calls == [] ||
    (&& Wide(q, calls[0])
     && (assert calls[0] in calls;
         StepFineIff(q, calls[0]);
         StepResting(q, calls[0]);
         AllWide(Step(q, calls[0]).value.1, calls[1..])))
  }

  /** The exact condition under which a run goes through to its end. */
  lemma {:induction false} RunFineIff<T>(q: Queue<T>, calls: seq<Call<T>>)
    requires Resting(q) && Legal(calls)
    ensures Run(q, calls).Fine? <==> AllWide(q, calls)
    decreases |calls|
  {
    hide Step, Wide, PowerOfTwo, Filed, OnGrid, Drain;
    if calls != [] {
      assert calls[0] in calls;
      StepFineIff(q, calls[0]);
      if Wide(q, calls[0]) {
        StepResting(q, calls[0]);
        RunFineIff(Step(q, calls[0]).value.1, calls[1..]);
      }
    }
  }

  /** A condition on a call that takes no sample: what it resizes is spread out. */
  ghost predicate Roomy<T(!new)>(q: Queue<T>, c: Call<T>)
    requires Usable(q) && Counted(q)
  {
    match c
    case PutCall(e) =>
      InsertCounted(q, e);
      Grows(Insert(q, e)) ==> Spread(Insert(q, e))
    case GetCall =>
      q.qsize == 0
      || (NonEmptyIff(q);
          RemoveCounted(q);
          Shrinks(Remove(q)) ==> Spread(Remove(q)))
  }

  lemma RoomyWide<T(!new)>(q: Queue<T>, c: Call<T>)
    requires Resting(q) && Legal([c]) && Roomy(q, c)
    ensures Wide(q, c)
  {
    hide Slot, Positioned, SlackOf, Filed, Drain, HasWidth, Spread, Insert, Remove, NonEmpty;
    assert c in [c];
    match c
    case PutCall(e) =>
      InsertKeeps(q, e);
      if Grows(Insert(q, e)) {
        SpreadWide(Insert(q, e));
      }
    case GetCall =>
      if q.qsize > 0 {
        NonEmptyIff(q);
        RemoveKeeps(q);
        if Shrinks(Remove(q)) {
          SpreadWide(Remove(q));
        }
      }
  }

  ghost predicate AllRoomy<T(!new)>(q: Queue<T>, calls: seq<Call<T>>)
    requires Resting(q) && Legal(calls)
    decreases |calls|
  {
    calls == [] ||
    (&& Roomy(q, calls[0])
     && (assert calls[0] in calls;
         RoomyWide(q, calls[0]);
         StepFineIff(q, calls[0]);
         StepResting(q, calls[0]);
         AllRoomy(Step(q, calls[0]).value.1, calls[1..])))
  }

  /** A run that only ever resizes what is spread out goes through to its end. */
  lemma {:induction false} RoomyRun<T(!new)>(q: Queue<T>, calls: seq<Call<T>>)
    requires Resting(q) && Legal(calls) && AllRoomy(q, calls)
    ensures AllWide(q, calls) && Run(q, calls).Fine?
    decreases |calls|
  {
    hide Step, Wide, Roomy, PowerOfTwo, Filed, OnGrid, Drain;
    RunFineIff(q, calls);
    if calls != [] {
      assert calls[0] in calls;
      RoomyWide(q, calls[0]);
      StepFineIff(q, calls[0]);
      StepResting(q, calls[0]);
      RoomyRun(Step(q, calls[0]).value.1, calls[1..]);
    }
  }

  lemma {:induction false} RunResting<T>(q: Queue<T>, calls: seq<Call<T>>)
    requires Resting(q) && Legal(calls) && AllWide(q, calls)
    ensures Run(q, calls).Fine? && Resting(Run(q, calls).value.1)
    decreases |calls|
  {
    hide Step, Wide, PowerOfTwo;
    if calls != [] {
      assert calls[0] in calls;
      StepFineIff(q, calls[0]);
      StepResting(q, calls[0]);
      RunResting(Step(q, calls[0]).value.1, calls[1..]);
    }
  }

  // ---------- cost ----------

  /** Events moved by the copy loop of a resize, if the call starts one. */
  function Copied<T>(q: Queue<T>, c: Call<T>): nat
    requires Usable(q) && Counted(q)
  {
    match c
    case PutCall(e) => if Grows(Insert(q, e)) then q.qsize + 1 else 0
    case GetCall =>
      if q.qsize == 0 then 0
      else
        NonEmptyIff(q);
        if Shrinks(Remove(q)) then q.qsize - 1 else 0
  }

  ghost function RunCopied<T>(q: Queue<T>, calls: seq<Call<T>>): nat
    requires Resting(q) && Legal(calls)
    decreases |calls|
  {
    if calls == [] then 0
    else
      assert calls[0] in calls;
      match Step(q, calls[0])
      case Degenerate => 0
      case Fine((r, q')) =>
        StepResting(q, calls[0]);
        Copied(q, calls[0]) + RunCopied(q', calls[1..])
  }

  /** What the sizes have saved up: three for every step towards either threshold. */
  function Potential(qsize: int, n: int): nat {
    var up, down := qsize - n - 1, n - 3 - qsize;
    3 * (if up > 0 then up else if down > 0 then down else 0)
  }

  lemma StepCost<T>(q: Queue<T>, c: Call<T>)
    requires Resting(q) && Legal([c]) && Step(q, c).Fine?
    ensures var q' := Step(q, c).value.1;
            Copied(q, c) + Potential(q'.qsize, |q'.buckets|) <= Potential(q.qsize, |q.buckets|) + 3
  {
    hide Slot, Positioned, SlackOf, Filed, Insert, Remove, Found, NonEmpty, InsertAll, NewWidth, LocalInit, Drain;
    assert c in [c];
    match c
    case PutCall(e) =>
      InsertKeeps(q, e);
      if Grows(Insert(q, e)) {
        ResizeKeeps(Insert(q, e), 2 * |q.buckets|);
      }
    case GetCall =>
      if q.qsize > 0 {
        NonEmptyIff(q);
        RemoveKeeps(q);
        if Shrinks(Remove(q)) {
          ResizeKeeps(Remove(q), |q.buckets| / 2);
        }
      }
  }

  lemma {:induction false} RunCost<T>(q: Queue<T>, calls: seq<Call<T>>)
    requires Resting(q) && Legal(calls)
    ensures RunCopied(q, calls) <= 3 * |calls| + Potential(q.qsize, |q.buckets|)
    decreases |calls|
  {
    hide Step, PowerOfTwo, Copied;
    if calls != [] {
      assert calls[0] in calls;
      if Step(q, calls[0]).Fine? {
        StepResting(q, calls[0]);
        StepCost(q, calls[0]);
        RunCost(Step(q, calls[0]).value.1, calls[1..]);
      }
    }
  }

  /** From initialisation, `k` calls move at most `3k` events from one calendar to the next. */
  lemma AmortisedCost<T>(calls: seq<Call<T>>)
    requires Legal(calls)
    ensures Resting(Init<T>()) && RunCopied(Init<T>(), calls) <= 3 * |calls|
  {
    InitResting<T>();
    RunCost(Init<T>(), calls);
  }

  /** A calendar that never holds more than `2 * cap` events never needs more than `cap` buckets. */
  lemma BucketsBounded<T>(q: Queue<T>, c: Call<T>, cap: int)
    requires Resting(q) && Legal([c]) && Step(q, c).Fine?
    requires PowerOfTwo(cap) && |q.buckets| <= cap && Step(q, c).value.1.qsize <= 2 * cap
    ensures |Step(q, c).value.1.buckets| <= cap
  {
    hide Slot, Positioned, SlackOf, Filed, Insert, Remove, Found, NonEmpty, InsertAll, NewWidth, LocalInit, Drain;
    assert c in [c];
    match c
    case PutCall(e) =>
      InsertKeeps(q, e);
      if Grows(Insert(q, e)) {
        ResizeKeeps(Insert(q, e), 2 * |q.buckets|);
        PowersApart(|q.buckets|, cap);
      }
    case GetCall =>
      if q.qsize > 0 {
        NonEmptyIff(q);
        RemoveKeeps(q);
        if Shrinks(Remove(q)) {
          ResizeKeeps(Remove(q), |q.buckets| / 2);
        }
      }
  }

  /** After no call of the run does the queue hold more than `limit` events. */
  ghost predicate NeverOver<T>(q: Queue<T>, calls: seq<Call<T>>, limit: int)
    requires Resting(q) && Legal(calls) && AllWide(q, calls)
    decreases |calls|
  {
    calls == [] ||
    (assert calls[0] in calls;
     StepFineIff(q, calls[0]);
     StepResting(q, calls[0]);
     var q' := Step(q, calls[0]).value.1;
     q'.qsize <= limit && NeverOver(q', calls[1..], limit))
  }

  lemma {:induction false} RunBuckets<T>(q: Queue<T>, calls: seq<Call<T>>, cap: int)
    requires Resting(q) && Legal(calls) && AllWide(q, calls) && NeverOver(q, calls, 2 * cap)
    requires PowerOfTwo(cap) && |q.buckets| <= cap
    ensures Run(q, calls).Fine? && |Run(q, calls).value.1.buckets| <= cap
    decreases |calls|
  {
    hide Step, Wide, PowerOfTwo, Filed, OnGrid, Drain;
    if calls != [] {
      assert calls[0] in calls;
      StepFineIff(q, calls[0]);
      StepResting(q, calls[0]);
      BucketsBounded(q, calls[0], cap);
      RunBuckets(Step(q, calls[0]).value.1, calls[1..], cap);
    }
  }

  // ---------- a bag that hands out its events ----------

  /** The replies are those of a bag: a get returns one of the events put and not yet returned, and
      nothing only when there is none. With `smallest`, it returns one of the smallest. */
  ghost predicate Serves<T>(bag: multiset<Event<T>>, calls: seq<Call<T>>, replies: seq<Reply<T>>, smallest: bool)
    decreases |calls|
  {
    if calls == [] then replies == []
    else if calls[0].PutCall? then Serves(bag + multiset{calls[0].event}, calls[1..], replies, smallest)
    else
      && replies != []
      && (replies[0].None? <==> bag == multiset{})
      && (replies[0].None? ==> Serves(bag, calls[1..], replies[1..], smallest))
      && (replies[0].Some? ==>
            && replies[0].value in bag
            && (smallest ==> IsMinimum(replies[0].value, bag))
            && Serves(bag - multiset{replies[0].value}, calls[1..], replies[1..], smallest))
  }

  /** What one call does to the bag. */
  lemma StepBag<T>(q: Queue<T>, c: Call<T>)
    requires Resting(q) && Legal([c]) && Step(q, c).Fine?
    ensures var (r, q') := Step(q, c).value;
            && (c.PutCall? ==> r == [] && Bag(q') == Bag(q) + multiset{c.event})
            && (c.GetCall? ==> |r| == 1 && (r[0].None? <==> Bag(q) == multiset{}))
            && (c.GetCall? && r[0].None? ==> q' == q)
            && (c.GetCall? && r[0].Some? ==> r[0].value in Bag(q) && Bag(q') == Bag(q) - multiset{r[0].value})
  {
    hide Slot, Positioned, SlackOf, Filed, Put, Get, Drain;
    assert c in [c];
    match c
    case PutCall(e) => PutKeeps(q, e);
    case GetCall => GetKeeps(q);
  }

  /** Conservation over whole runs, resizes included. */
  lemma {:induction false} RunServes<T>(q: Queue<T>, calls: seq<Call<T>>)
    requires Resting(q) && Legal(calls) && AllWide(q, calls)
    ensures Run(q, calls).Fine? && Serves(Bag(q), calls, Run(q, calls).value.0, false)
    decreases |calls|
  {
    hide Step, Wide, Positioned, Filed, Bag, PowerOfTwo;
    if calls != [] {
      assert calls[0] in calls;
      StepFineIff(q, calls[0]);
      StepResting(q, calls[0]);
      StepBag(q, calls[0]);
      var (r, q') := Step(q, calls[0]).value;
      RunServes(q', calls[1..]);
      assert (r + Run(q', calls[1..]).value.0)[|r|..] == Run(q', calls[1..]).value.0;
    }
  }

  // ---------- order ----------

  /** The call keeps order: what it puts lies in no earlier bucket than the last priority, a put that
      doubles the calendar leaves nothing in an earlier bucket of the new width, and a get does not leave
      the position in the spoiling window, unless it halves the calendar and so resets the position. */
  ghost predicate Steady<T>(q: Queue<T>, c: Call<T>)
    requires Usable(q) && Counted(q)
  {
    match c
    case PutCall(e) =>
      InsertCounted(q, e);
      if Grows(Insert(q, e)) then
        match NewWidth(Insert(q, e)).0
        case None => false
        case Some(w) => w > 0.0 && AheadOf(Bag(q) + multiset{e}, q.lastprio, w)
      else
        VirtualBucket(q.lastprio, q.cwidth) <= VirtualBucket(e.priority, q.cwidth)
    case GetCall =>
      q.qsize == 0 || (NonEmptyIff(q); Spoils(q) ==> Shrinks(Remove(q)))
  }

  lemma PutOrder<T>(q: Queue<T>, e: Event<T>)
    requires Resting(q) && e.priority >= 0.0 && Put(q, e).Fine? && Ahead(q) && OrderSafe(q)
    ensures var q' := Put(q, e).value;
            && (Usable(q') && Ahead(q') && OrderSafe(q') <==> Steady(q, PutCall(e)))
            && q'.lastprio == q.lastprio
  {
    hide VirtualBucket, Slot, Positioned, SlackOf, Filed, Insert, InsertAll, NewWidth, LocalInit, Drain, PowerOfTwo;
    InsertKeeps(q, e);
    var q1, q' := Insert(q, e), Put(q, e).value;
    assert |q1.buckets| == |q.buckets|;
    if Grows(q1) {
      ResizeKeeps(q1, 2 * |q.buckets|);
      assert Bag(q') == Bag(q) + multiset{e};
    } else {
      assert e in Bag(q1) && forall x :: x in Bag(q1) <==> x in Bag(q) || x == e;
    }
  }

  lemma GetOrder<T>(q: Queue<T>)
    requires Resting(q) && Get(q).Fine? && Ahead(q) && OrderSafe(q)
    ensures var (r, q') := Get(q).value;
            && (Usable(q') && Ahead(q') && OrderSafe(q') <==> Steady(q, GetCall))
            && (r.Some? ==> IsMinimum(r.value, Bag(q)) && q'.lastprio == r.value.priority && Monotone(q'))
            && (r.None? ==> q' == q)
  {
    hide VirtualBucket, Slot, Positioned, SlackOf, Filed, Remove, Found, NonEmpty, InsertAll, NewWidth, LocalInit;
    hide Drain, Spoils, AheadOf, PowerOfTwo;
    if q.qsize > 0 {
      NonEmptyIff(q);
      RemoveKeeps(q);
      RemoveOrder(q);
      MonotoneAhead(Remove(q));
      if Shrinks(Remove(q)) {
        ResizeKeeps(Remove(q), |q.buckets| / 2);
        assert Monotone(Get(q).value.1);
        MonotoneAhead(Get(q).value.1);
      }
    }
  }

  /** From a safe position on contents ahead of it every get returns a minimum, and a call leaves the
      queue in such a state exactly when it is steady. */
  lemma StepOrder<T>(q: Queue<T>, c: Call<T>)
    requires Resting(q) && Legal([c]) && Wide(q, c) && Ahead(q) && OrderSafe(q)
    ensures Step(q, c).Fine?
    ensures var (r, q') := Step(q, c).value;
            && (Usable(q') && Ahead(q') && OrderSafe(q') <==> Steady(q, c))
            && (r != [] && r[0].Some? ==> IsMinimum(r[0].value, Bag(q)) && q'.lastprio == r[0].value.priority)
  {
    hide Resting, Wide, Steady, Ahead, OrderSafe, Put, Get;
    assert Usable(q) && Counted(q) && q.resizeEnabled by {
      RestingUsable(q);
    }
    StepFineIff(q, c);
    assert c in [c];
    match c
    case PutCall(e) => PutOrder(q, e);
    case GetCall => GetOrder(q);
  }

  /** A put keeps an aligned position aligned. A get does exactly if the scan finds its event, or the direct
      search finds it in the bucket where the scan began, or the call halves the calendar. */
  lemma AlignedCall<T>(q: Queue<T>, c: Call<T>)
    requires Resting(q) && Legal([c]) && Wide(q, c) && Ahead(q) && Aligned(q)
    ensures Step(q, c).Fine? && Usable(Step(q, c).value.1) && (NonEmpty(q) <==> q.qsize > 0)
    ensures Aligned(Step(q, c).value.1) <==>
            c.PutCall? || q.qsize == 0 || ScanSucceeds(q) || FoundBucket(q) == q.lastbucket || Shrinks(Remove(q))
  {
    hide Slot, Positioned, SlackOf, Filed, Drain, PowerOfTwo, Wide, ScanSucceeds, FoundBucket, Ahead, Remove, Insert,
         NonEmpty, NewWidth, LocalInit, InsertAll, VirtualBucket;
    assert c in [c];
    StepFineIff(q, c);
    NonEmptyIff(q);
    match c
    case PutCall(e) =>
      InsertKeeps(q, e);
      if Grows(Insert(q, e)) {
        ResizeKeeps(Insert(q, e), 2 * |q.buckets|);
      }
    case GetCall =>
      if q.qsize > 0 {
        RemoveKeeps(q);
        AlignedStep(q);
        if Shrinks(Remove(q)) {
          ResizeKeeps(Remove(q), |q.buckets| / 2);
        }
      }
  }

  lemma RestingUsable<T>(q: Queue<T>)
    requires Resting(q)
    ensures Usable(q) && Counted(q) && q.resizeEnabled
  {
  }

  /** Every call of the run is steady, and every resize finds a width. */
  ghost predicate AllSteady<T>(q: Queue<T>, calls: seq<Call<T>>)
    requires Resting(q) && Legal(calls)
    decreases |calls|
  {
    calls == [] ||
    (&& Wide(q, calls[0]) && Steady(q, calls[0])
     && (assert calls[0] in calls;
         StepFineIff(q, calls[0]);
         StepResting(q, calls[0]);
         AllSteady(Step(q, calls[0]).value.1, calls[1..])))
  }

  /** A steady run is a priority queue: it goes through, and every get returns a minimum of what is stored. */
  lemma {:induction false} SteadyRun<T>(q: Queue<T>, calls: seq<Call<T>>)
    requires Resting(q) && Legal(calls) && Ahead(q) && OrderSafe(q) && AllSteady(q, calls)
    ensures Run(q, calls).Fine? && Serves(Bag(q), calls, Run(q, calls).value.0, true)
    decreases |calls|
  {
    hide Step, Wide, Positioned, Filed, Bag, PowerOfTwo, Steady, OrderSafe, Ahead, IsMinimum;
    if calls != [] {
      assert calls[0] in calls;
      StepFineIff(q, calls[0]);
      StepResting(q, calls[0]);
      StepBag(q, calls[0]);
      StepOrder(q, calls[0]);
      var (r, q') := Step(q, calls[0]).value;
      SteadyRun(q', calls[1..]);
      var rs := Run(q', calls[1..]).value.0;
      assert (r + rs)[|r|..] == rs;
    }
  }

  // ---------- runs one after another ----------

  /** A run of a list of calls and then of another. */
  lemma {:induction false} RunSplit<T>(q: Queue<T>, a: seq<Call<T>>, b: seq<Call<T>>)
    requires Resting(q) && Legal(a) && Legal(b)
    ensures Legal(a + b)
    ensures AllWide(q, a) ==> Run(q, a).Fine? && Resting(Run(q, a).value.1)
    ensures AllWide(q, a + b) <==> AllWide(q, a) && AllWide(Run(q, a).value.1, b)
    ensures AllWide(q, a + b) ==>
              && Run(q, a + b).Fine? && Run(Run(q, a).value.1, b).Fine?
              && Run(q, a + b).value.1 == Run(Run(q, a).value.1, b).value.1
    decreases |a|
  {
    hide Step, Wide, PowerOfTwo, Filed, OnGrid, Drain;
    RunFineIff(q, a);
    if a == [] {
      assert a + b == b;
      RunFineIff(q, b);
    } else {
      assert (a + b)[0] == a[0] && (a + b)[1..] == a[1..] + b;
      assert a[0] in a;
      StepFineIff(q, a[0]);
      if Wide(q, a[0]) {
        StepResting(q, a[0]);
        RunSplit(Step(q, a[0]).value.1, a[1..], b);
      }
    }
  }

  /** A run that does not go through stops at one call: the first that has no width to resize to. */
  lemma {:induction false} StoppingCall<T>(q: Queue<T>, calls: seq<Call<T>>) returns (k: nat)
    requires Resting(q) && Legal(calls) && !AllWide(q, calls)
    ensures k < |calls| && AllWide(q, calls[..k])
    ensures Run(q, calls[..k]).Fine? && Usable(Run(q, calls[..k]).value.1) && Counted(Run(q, calls[..k]).value.1)
    ensures !Wide(Run(q, calls[..k]).value.1, calls[k])
    decreases |calls|
  {
    hide Step, Wide, PowerOfTwo, Filed, OnGrid, Drain;
    assert calls[0] in calls;
    if !Wide(q, calls[0]) {
      k := 0;
    } else {
      StepFineIff(q, calls[0]);
      StepResting(q, calls[0]);
      k := StoppingCall(Step(q, calls[0]).value.1, calls[1..]);
      assert calls[..k + 1][0] == calls[0] && calls[..k + 1][1..] == calls[1..][..k];
      k := k + 1;
    }
  }

  /** What a run of puts adds. */
  lemma {:induction false} PutsKeep<T>(q: Queue<T>, es: seq<Event<T>>, cap: int)
    requires Resting(q) && NonNegative(es) && Run(q, PutCalls(es)).Fine?
    requires PowerOfTwo(cap) && |q.buckets| <= cap && q.qsize + |es| <= 2 * cap
    ensures var q' := Run(q, PutCalls(es)).value.1;
            Resting(q') && Bag(q') == Bag(q) + multiset(es) && q'.qsize == q.qsize + |es| && |q'.buckets| <= cap
    decreases |es|
  {
    hide Step, PowerOfTwo, Filed, OnGrid, Drain, Bag;
    if es != [] {
      var c := PutCall(es[0]);
      assert PutCalls(es)[0] == c && PutCalls(es)[1..] == PutCalls(es[1..]);
      assert c in PutCalls(es);
      StepResting(q, c);
      StepBag(q, c);
      PutCounts(q, es[0]);
      BucketsBounded(q, c, cap);
      PutsKeep(Step(q, c).value.1, es[1..], cap);
      assert es == [es[0]] + es[1..];
    }
  }

  lemma PutCounts<T>(q: Queue<T>, e: Event<T>)
    requires Resting(q) && e.priority >= 0.0 && Step(q, PutCall(e)).Fine?
    ensures Step(q, PutCall(e)).value.1.qsize == q.qsize + 1
  {
    hide Filed, OnGrid, Drain, Put, PowerOfTwo;
    PutKeeps(q, e);
  }

  // ---------- ascending order ----------

  predicate Ascending<T>(replies: seq<Reply<T>>) {
    forall i, j :: 0 <= i < j < |replies| && replies[i].Some? && replies[j].Some?
                   ==> replies[i].value.priority <= replies[j].value.priority
  }

  ghost predicate NotBefore<T>(replies: seq<Reply<T>>, p: real) {
    forall i :: 0 <= i < |replies| && replies[i].Some? ==> p <= replies[i].value.priority
  }

  /** Nothing is put before the last priority, as a simulation never does. */
  predicate Late<T>(q: Queue<T>, c: Call<T>) {
    c.PutCall? ==> q.lastprio <= c.event.priority
  }

  /** On contents that are not early, a late put is steady, and late calls keep them so. */
  lemma LateStep<T>(q: Queue<T>, c: Call<T>)
    requires Resting(q) && Legal([c]) && Wide(q, c) && Monotone(q) && OrderSafe(q) && Late(q, c)
    ensures c.PutCall? ==> Steady(q, c)
    ensures Step(q, c).Fine?
    ensures var (r, q') := Step(q, c).value; Monotone(q') && q.lastprio <= q'.lastprio
  {
    hide VirtualBucket, Slot, Positioned, SlackOf, Filed, Drain, Wide, Steady, OrderSafe, Put, Get, PowerOfTwo;
    assert c in [c];
    StepFineIff(q, c);
    MonotoneAhead(q);
    match c
    case PutCall(e) =>
      PutKeeps(q, e);
      PutOrder(q, e);
      MonotoneAhead(Put(q, e).value);
      PutSafe(q, e);
    case GetCall =>
      GetOrder(q);
      GetKeeps(q);
  }

  /** A put does not move the position, and a resize resets it. */
  lemma PutSafe<T>(q: Queue<T>, e: Event<T>)
    requires Resting(q) && e.priority >= 0.0 && Put(q, e).Fine? && OrderSafe(q)
    ensures Usable(Put(q, e).value) && OrderSafe(Put(q, e).value)
  {
    hide VirtualBucket, Slot, Positioned, SlackOf, Filed, Insert, InsertAll, NewWidth, LocalInit, Drain, PowerOfTwo;
    InsertKeeps(q, e);
    var q1 := Insert(q, e);
    assert |q1.buckets| == |q.buckets|;
    if Grows(q1) {
      ResizeKeeps(q1, 2 * |q.buckets|);
    }
  }

  ghost predicate AllLate<T>(q: Queue<T>, calls: seq<Call<T>>)
    requires Resting(q) && Legal(calls) && AllSteady(q, calls)
    decreases |calls|
  {
    calls == [] ||
    (assert calls[0] in calls;
     StepFineIff(q, calls[0]);
     StepResting(q, calls[0]);
     Late(q, calls[0]) && AllLate(Step(q, calls[0]).value.1, calls[1..]))
  }

  /** A steady run that puts nothing early returns its events in ascending order. */
  lemma {:induction false} AscendingRun<T>(q: Queue<T>, calls: seq<Call<T>>)
    requires Resting(q) && Legal(calls) && Monotone(q) && OrderSafe(q) && AllSteady(q, calls) && AllLate(q, calls)
    ensures Run(q, calls).Fine?
    ensures Ascending(Run(q, calls).value.0) && NotBefore(Run(q, calls).value.0, q.lastprio)
    decreases |calls|
  {
    hide Step, Wide, Positioned, Filed, Bag, PowerOfTwo, Steady, OrderSafe, IsMinimum, Monotone, Ahead;
    if calls != [] {
      assert calls[0] in calls;
      StepFineIff(q, calls[0]);
      StepResting(q, calls[0]);
      MonotoneAhead(q);
      StepBag(q, calls[0]);
      StepOrder(q, calls[0]);
      LateStep(q, calls[0]);
      var (r, q') := Step(q, calls[0]).value;
      AscendingRun(q', calls[1..]);
      AscendingFrom(r, Run(q', calls[1..]).value.0, q'.lastprio);
    }
  }

  lemma AscendingFrom<T>(r: seq<Reply<T>>, rs: seq<Reply<T>>, p: real)
    requires |r| <= 1 && (r != [] && r[0].Some? ==> r[0].value.priority == p)
    requires Ascending(rs) && NotBefore(rs, p)
    ensures Ascending(r + rs)
    ensures forall p' :: p' <= p ==> NotBefore(r + rs, p')
  {
    if r == [] {
      assert r + rs == rs;
    }
  }
}
