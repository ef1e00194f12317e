/**
 The calendar queue as a value: what each operation of calqueue.c does to the position, the sizes
 and the sorted buckets. `double` is `real` here, so rounding and overflow are not modelled;
 a resize whose sampled width is not a positive number is reported as `Degenerate`.
 */
module Calendar {
  import opened Wrappers
  import opened Grid

  const CALQSPACE := 65536
  const MAXNBUCKETS := 32768
  const LLONG_MAX := 9223372036854775807.0

  /** The result of an operation that may resize: its new state, or a width that is no width. */
  datatype Outcome<+T> = Fine(value: T) | Degenerate

  datatype Event<T> = Event(priority: real, payload: T)

  type Bucket<T> = seq<Event<T>>

  predicate NonNegative<T>(es: seq<Event<T>>) {
    forall k :: 0 <= k < |es| ==> es[k].priority >= 0.0
  }

  datatype Queue<T> = Queue(
    firstsub: int,
    buckets: seq<Bucket<T>>,
    qsize: int,
    lastbucket: int,
    lastprio: real,
    buckettop: real,
    cwidth: real,
    topThreshold: int,
    botThreshold: int,
    resizeEnabled: bool)

  /** Enough for bucket indices to make sense: some buckets, a usable width, a position inside them,
      and the thresholds that belong to this number of buckets. */
  predicate Usable<T>(q: Queue<T>) {
    && |q.buckets| > 0 && q.cwidth > 0.0 && 0 <= q.lastbucket < |q.buckets|
    && q.topThreshold == 2 * |q.buckets| && q.botThreshold == |q.buckets| / 2 - 2
  }

  function EmptyBuckets<T>(n: nat): (bs: seq<Bucket<T>>)
    ensures |bs| == n
    ensures forall i :: 0 <= i < n ==> bs[i] == []
  {
    seq(n, _ => [])
  }

  /** The bucket an event of this priority belongs to. */
  function Slot(priority: real, width: real, n: int): (i: int)
    requires width > 0.0 && n > 0
    ensures 0 <= i < n
  {
    VirtualBucket(priority, width) % n
  }

  /** One and a half buckets past the start of virtual bucket `n`. */
  function StartLimit(n: int, width: real): real {
    (n + 1) as real * width + 0.5 * width
  }

  function LocalInit<T>(qbase: int, nbucks: int, bwidth: real, startprio: real, enabled: bool): Queue<T>
    requires nbucks > 0 && bwidth > 0.0
  {
    var n := VirtualBucket(startprio, bwidth);
    Queue(qbase, EmptyBuckets(nbucks), 0, n % nbucks, startprio,
          StartLimit(n, bwidth), bwidth,
          2 * nbucks, nbucks / 2 - 2, enabled)
  }

  function Init<T>(): Queue<T> {
    LocalInit(0, 2, 1.0, 0.0, true)
  }

  // ---------- inserting ----------

  /** Before the first event of a greater priority, so after every equal one. */
  function InsertSorted<T>(b: Bucket<T>, e: Event<T>): Bucket<T> {
    if b == [] || b[0].priority > e.priority then [e] + b
    else [b[0]] + InsertSorted(b[1..], e)
  }

  lemma {:induction false} InsertSortedAt<T>(b: Bucket<T>, e: Event<T>, t: int)
    requires 0 <= t <= |b|
    requires forall j :: 0 <= j < t ==> b[j].priority <= e.priority
    requires t == |b| || b[t].priority > e.priority
    ensures InsertSorted(b, e) == b[..t] + [e] + b[t..]
  {
    if t > 0 {
      InsertSortedAt(b[1..], e, t - 1);
      assert b == [b[0]] + b[1..];
      assert b[1..][..t - 1] == b[1..t] && b[1..][t - 1..] == b[t..];
      assert [b[0]] + (b[1..t] + [e] + b[t..]) == b[..t] + [e] + b[t..];
    }
  }

  /** `calqueue_put` up to its resize test. */
  function Insert<T>(q: Queue<T>, e: Event<T>): (q': Queue<T>)
    requires Usable(q)
    ensures Usable(q') && |q'.buckets| == |q.buckets|
  {
    var i := Slot(e.priority, q.cwidth, |q.buckets|);
    q.(buckets := q.buckets[i := InsertSorted(q.buckets[i], e)], qsize := q.qsize + 1)
  }

  function InsertAll<T>(q: Queue<T>, es: seq<Event<T>>): (q': Queue<T>)
    requires Usable(q)
    ensures Usable(q') && |q'.buckets| == |q.buckets|
    decreases |es|
  {
    if es == [] then q else InsertAll(Insert(q, es[0]), es[1..])
  }

  // ---------- removing ----------

  /** Bucket number `k` of the tour that starts at the current position. */
  function TourBucket<T>(q: Queue<T>, k: int): (i: int)
    requires Usable(q)
    ensures 0 <= i < |q.buckets|
  {
    (q.lastbucket + k) % |q.buckets|
  }

  /** The limit at step `k` of the tour. */
  function LimitAt<T>(q: Queue<T>, k: int): real {
    q.buckettop + k as real * q.cwidth
  }

  /** The bucket visited at step `k` has an event below the limit for that step. */
  predicate Hit<T>(q: Queue<T>, k: int)
    requires Usable(q)
  {
    var b := q.buckets[TourBucket(q, k)];
    b != [] && b[0].priority < LimitAt(q, k)
  }

  /** The first step of the tour, from `k` on, that hits; the number of buckets when none does. */
  function ScanFrom<T>(q: Queue<T>, k: int): (r: int)
    requires Usable(q) && 0 <= k <= |q.buckets|
    ensures k <= r <= |q.buckets|
    ensures r < |q.buckets| ==> Hit(q, r)
    ensures forall j :: k <= j < r ==> !Hit(q, j)
    decreases |q.buckets| - k
  {
    if k == |q.buckets| || Hit(q, k) then k else ScanFrom(q, k + 1)
  }

  predicate ScanSucceeds<T>(q: Queue<T>)
    requires Usable(q)
  {
    ScanFrom(q, 0) < |q.buckets|
  }

  /** The direct search over the first `k` buckets: the first one with the lowest head, or -1. */
  function Lowest<T>(bs: seq<Bucket<T>>, k: int): (r: int)
    requires 0 <= k <= |bs|
    ensures -1 <= r < k
    ensures r == -1 ==> forall i :: 0 <= i < k ==> bs[i] == []
    ensures r >= 0 ==> bs[r] != []
    ensures r >= 0 ==> forall i :: 0 <= i < k && bs[i] != [] ==> bs[r][0].priority <= bs[i][0].priority
    ensures r >= 0 ==> forall i :: 0 <= i < r && bs[i] != [] ==> bs[r][0].priority < bs[i][0].priority
  {
    if k == 0 then -1
    else
      var r := Lowest(bs, k - 1);
      if bs[k - 1] != [] && (r == -1 || bs[k - 1][0].priority < bs[r][0].priority) then k - 1 else r
  }

  predicate NonEmpty<T>(q: Queue<T>) {
    exists i :: 0 <= i < |q.buckets| && q.buckets[i] != []
  }

  /** The bucket the next event is taken from. */
  function FoundBucket<T>(q: Queue<T>): (i: int)
    requires Usable(q) && NonEmpty(q)
    ensures 0 <= i < |q.buckets| && q.buckets[i] != []
  {
    if ScanSucceeds(q) then TourBucket(q, ScanFrom(q, 0)) else Lowest(q.buckets, |q.buckets|)
  }

  function Found<T>(q: Queue<T>): Event<T>
    requires Usable(q) && NonEmpty(q)
  {
    q.buckets[FoundBucket(q)][0]
  }

  /** `calqueue_deq` on a queue that holds something, up to its resize test. The limit keeps what the
      scan added to it, also when the direct search then jumps to another bucket. */
  function Remove<T>(q: Queue<T>): (q': Queue<T>)
    requires Usable(q) && NonEmpty(q)
    ensures Usable(q') && |q'.buckets| == |q.buckets|
  {
    var i := FoundBucket(q);
    q.(buckets := q.buckets[i := q.buckets[i][1..]],
       qsize := q.qsize - 1,
       lastbucket := i,
       lastprio := q.buckets[i][0].priority,
       buckettop := LimitAt(q, ScanFrom(q, 0)))
  }

  // ---------- choosing a width ----------

  function SampleCount(qsize: int): int {
    var n := if qsize <= 5 then qsize else 5 + qsize / 10;
    if n > 25 then 25 else n
  }

  /** The events still stored, bucket by bucket from the last one down. */
  function Drain<T>(bs: seq<Bucket<T>>): seq<Event<T>> {
    if bs == [] then [] else bs[|bs| - 1] + Drain(bs[..|bs| - 1])
  }

  lemma {:induction false} DrainNonEmpty<T>(bs: seq<Bucket<T>>)
    requires Drain(bs) != []
    ensures exists i :: 0 <= i < |bs| && bs[i] != []
  {
    if bs != [] && bs[|bs| - 1] == [] {
      DrainNonEmpty(bs[..|bs| - 1]);
      var i :| 0 <= i < |bs| - 1 && bs[..|bs| - 1][i] != [];
      assert bs[i] != [];
    }
  }

  /** Replacing one bucket replaces its events in the drained sequence. */
  lemma {:induction false} DrainUpdate<T>(bs: seq<Bucket<T>>, i: int, b: Bucket<T>)
    requires 0 <= i < |bs|
    ensures multiset(bs[i]) <= multiset(Drain(bs))
    ensures multiset(Drain(bs[i := b])) == multiset(Drain(bs)) - multiset(bs[i]) + multiset(b)
    ensures |Drain(bs[i := b])| == |Drain(bs)| - |bs[i]| + |b|
  {
    hide Drain;
    var n := |bs| - 1;
    var bs' := bs[i := b];
    DrainLast(bs);
    DrainLast(bs');
    if i == n {
      assert bs'[..n] == bs[..n];
    } else {
      assert bs'[..n] == bs[..n][i := b];
      DrainUpdate(bs[..n], i, b);
    }
  }

  lemma DrainLast<T>(bs: seq<Bucket<T>>)
    requires bs != []
    ensures multiset(Drain(bs)) == multiset(bs[|bs| - 1]) + multiset(Drain(bs[..|bs| - 1]))
    ensures |Drain(bs)| == |bs[|bs| - 1]| + |Drain(bs[..|bs| - 1])|
  {
  }

  /** What `qsize` is meant to be. */
  predicate Counted<T>(q: Queue<T>) {
    q.qsize == |Drain(q.buckets)|
  }

  lemma InsertCounted<T>(q: Queue<T>, e: Event<T>)
    requires Usable(q) && Counted(q)
    ensures Counted(Insert(q, e))
  {
    var i := Slot(e.priority, q.cwidth, |q.buckets|);
    InsertSortedContents(q.buckets[i], e);
    DrainUpdate(q.buckets, i, InsertSorted(q.buckets[i], e));
  }

  lemma {:induction false} InsertSortedContents<T>(b: Bucket<T>, e: Event<T>)
    ensures multiset(InsertSorted(b, e)) == multiset(b) + multiset{e}
    ensures |InsertSorted(b, e)| == |b| + 1
  {
    if b == [] || b[0].priority > e.priority {
    } else {
      InsertSortedContents(b[1..], e);
      assert b == [b[0]] + b[1..];
    }
  }

  lemma {:induction false} InsertAllCounted<T>(q: Queue<T>, es: seq<Event<T>>)
    requires Usable(q) && Counted(q)
    ensures Counted(InsertAll(q, es)) && InsertAll(q, es).qsize == q.qsize + |es|
    decreases |es|
  {
    if es != [] {
      InsertCounted(q, es[0]);
      InsertAllCounted(Insert(q, es[0]), es[1..]);
    }
  }

  lemma RemoveCounted<T>(q: Queue<T>)
    requires Usable(q) && NonEmpty(q) && Counted(q)
    ensures Counted(Remove(q)) && Remove(q).qsize >= 0
  {
    var i := FoundBucket(q);
    DrainUpdate(q.buckets, i, q.buckets[i][1..]);
  }

  lemma NonEmptyIff<T>(q: Queue<T>)
    requires Counted(q)
    ensures NonEmpty(q) <==> q.qsize > 0
  {
    if q.qsize > 0 {
      DrainNonEmpty(q.buckets);
    }
    if NonEmpty(q) {
      var i :| 0 <= i < |q.buckets| && q.buckets[i] != [];
      DrainUpdate(q.buckets, i, []);
    }
  }

  /** Dequeue `n` events with resizing off. */
  function Sample<T>(q: Queue<T>, n: int): (r: (seq<Event<T>>, Queue<T>))
    requires Usable(q) && Counted(q) && 0 <= n <= q.qsize
    ensures |r.0| == n && Usable(r.1) && Counted(r.1) && |r.1.buckets| == |q.buckets|
    ensures r.1.qsize == q.qsize - n
    decreases n
  {
    if n == 0 then ([], q)
    else
      NonEmptyIff(q);
      RemoveCounted(q);
      var (es, q') := Sample(Remove(q), n - 1);
      ([Found(q)] + es, q')
  }

  /** The sums over the gaps of the sampled priorities: all of them, and those under `limit` with their number. */
  function GapSum<T>(es: seq<Event<T>>, n: int): real
    requires 0 <= n <= |es|
  {
    if n <= 1 then 0.0 else GapSum(es, n - 1) + (es[n - 1].priority - es[n - 2].priority)
  }

  function SmallSum<T>(es: seq<Event<T>>, limit: real, n: int): real
    requires 0 <= n <= |es|
  {
    if n <= 1 then 0.0
    else
      var gap := es[n - 1].priority - es[n - 2].priority;
      if gap < limit then SmallSum(es, limit, n - 1) + gap else SmallSum(es, limit, n - 1)
  }

  function SmallCount<T>(es: seq<Event<T>>, limit: real, n: int): (j: nat)
    requires 0 <= n <= |es|
    ensures j <= n
  {
    if n <= 1 then 0
    else if es[n - 1].priority - es[n - 2].priority < limit then SmallCount(es, limit, n - 1) + 1
    else SmallCount(es, limit, n - 1)
  }

  function Average<T>(es: seq<Event<T>>): real
    requires |es| >= 2
  {
    GapSum(es, |es|) / (|es| - 1) as real
  }

  /** Three times the average of the gaps below twice the average; nothing when there is no such gap,
      where the C code divides zero by zero. */
  function Width<T>(es: seq<Event<T>>): Option<real>
    requires |es| >= 2
  {
    var limit := Average(es) * 2.0;
    var j := SmallCount(es, limit, |es|);
    if j == 0 then None else Some(SmallSum(es, limit, |es|) / j as real * 3.0)
  }

  /** Resizing switched off, as it is while a sample is taken and put back. */
  function Quiet<T>(q: Queue<T>): Queue<T> {
    q.(resizeEnabled := false)
  }

  /** Sample the queue, put the sample back, restore the position and switch resizing on again. */
  function NewWidth<T>(q: Queue<T>): (r: (Option<real>, Queue<T>))
    requires Usable(q) && Counted(q)
    ensures Usable(r.1) && |r.1.buckets| == |q.buckets|
  {
    if q.qsize < 2 then (Some(1.0), q)
    else
      var (es, q1) := Sample(Quiet(q), SampleCount(q.qsize));
      var q2 := InsertAll(q1, es);
      (Width(es), q2.(lastbucket := q.lastbucket, lastprio := q.lastprio, buckettop := q.buckettop,
        resizeEnabled := true))
  }

  // ---------- resizing ----------

  /** The old and the new bucket array take turns at the two ends of the calendar space. */
  function NewBase<T>(q: Queue<T>, newsize: int): int {
    if q.firstsub == 0 then CALQSPACE - newsize else 0
  }

  function Resize<T>(q: Queue<T>, newsize: int): Outcome<Queue<T>>
    requires Usable(q) && Counted(q) && newsize > 0
  {
    if !q.resizeEnabled then Fine(q)
    else
      var (w, q1) := NewWidth(q);
      if w.None? || w.value <= 0.0 then Degenerate
      else
        Fine(InsertAll(LocalInit(NewBase(q, newsize), newsize, w.value, q1.lastprio, true), Drain(q1.buckets)))
  }

  // ---------- the interface ----------

  predicate Grows<T>(q: Queue<T>) {
    q.qsize > q.topThreshold && |q.buckets| < MAXNBUCKETS
  }

  predicate Shrinks<T>(q: Queue<T>) {
    q.qsize < q.botThreshold
  }

  function Put<T>(q: Queue<T>, e: Event<T>): Outcome<Queue<T>>
    requires Usable(q) && Counted(q)
  {
    var q1 := Insert(q, e);
    InsertCounted(q, e);
    if Grows(q1) then Resize(q1, 2 * |q1.buckets|) else Fine(q1)
  }

  /** Nothing on an empty queue; otherwise the event found and the queue without it. */
  function Get<T>(q: Queue<T>): Outcome<(Option<Event<T>>, Queue<T>)>
    requires Usable(q) && Counted(q)
  {
    if q.qsize == 0 then Fine((None, q))
    else
      NonEmptyIff(q);
      RemoveCounted(q);
      var q1 := Remove(q);
      if Shrinks(q1) then
        match Resize(q1, |q1.buckets| / 2)
        case Degenerate => Degenerate
        case Fine(q2) => Fine((Some(Found(q)), q2))
      else Fine((Some(Found(q)), q1))
  }
}
