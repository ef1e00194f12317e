/**
 The arithmetic under the calendar: priorities are cut into virtual buckets of a fixed width,
 and virtual buckets are folded onto the actual ones modulo their number.
 */
module Grid {

  /** The C cast `(long)(priority / width)`, for the non-negative priorities the queue is used with. */
  function VirtualBucket(priority: real, width: real): int
    requires width > 0.0
  {
    (priority / width).Floor
  }

  lemma DivMul(p: real, w: real)
    requires w > 0.0
    ensures (p / w) * w == p
  {
  }

  lemma MulMono(a: real, b: real, w: real)
    requires w > 0.0
    ensures a <= b <==> a * w <= b * w
    ensures a < b <==> a * w < b * w
  {
    if a < b {
      assert (b - a) * w > 0.0;
    } else if b < a {
      assert (a - b) * w > 0.0;
    }
  }

  /** A priority lies inside its virtual bucket ... */
  lemma InsideBucket(p: real, w: real)
    requires w > 0.0
    ensures VirtualBucket(p, w) as real * w <= p < (VirtualBucket(p, w) + 1) as real * w
  {
    var x := p / w;
    DivMul(p, w);
    assert x.Floor as real <= x < (x.Floor + 1) as real;
    assert x * w == p;
    MulMono(x.Floor as real, x, w);
    MulMono(x, (x.Floor + 1) as real, w);
    assert p < (x.Floor + 1) as real * w;
  }

  /** ... and that is the only virtual bucket it lies inside. */
  lemma BucketUnique(p: real, w: real, v: int)
    requires w > 0.0
    requires v as real * w <= p < (v + 1) as real * w
    ensures VirtualBucket(p, w) == v
  {
    var x := p / w;
    DivMul(p, w);
    var lo, hi := v as real, (v + 1) as real;
    assert lo * w <= x * w < hi * w;
    MulMono(lo, x, w);
    MulMono(x, hi, w);
    assert lo <= x < hi;
  }

  lemma BucketMono(p: real, q: real, w: real)
    requires w > 0.0 && p <= q
    ensures VirtualBucket(p, w) <= VirtualBucket(q, w)
  {
    DivMul(p, w);
    DivMul(q, w);
    MulMono(p / w, q / w, w);
  }

  lemma BucketOrder(p: real, q: real, w: real)
    requires w > 0.0 && VirtualBucket(p, w) < VirtualBucket(q, w)
    ensures p < q
  {
    DivMul(p, w);
    DivMul(q, w);
    MulMono(p / w, q / w, w);
  }

  /** Priorities below the middle of virtual bucket `m + 1` lie in bucket `m + 1` or an earlier one,
      and every priority of bucket `m` or an earlier one is below that middle. */
  lemma BelowMiddle(p: real, w: real, m: int)
    requires w > 0.0
    ensures p < (m as real + 1.5) * w ==> VirtualBucket(p, w) <= m + 1
    ensures VirtualBucket(p, w) <= m ==> p < (m as real + 1.5) * w
  {
    DivMul(p, w);
    MulMono(p / w, m as real + 1.5, w);
  }

  // ---------- folding modulo the number of buckets ----------

  lemma ModShift(a: int, k: int, n: int)
    requires n > 0
    ensures (a % n + k) % n == (a + k) % n
  {
    var x := a / n;
    assert a == x * n + a % n;
    ModAddMultiple(a % n + k, x, n);
    assert a + k == (a % n + k) + x * n;
  }

  lemma ModAddMultiple(a: int, x: int, n: int)
    requires n > 0
    ensures (a + x * n) % n == a % n
    decreases if x < 0 then -x else x
  {
    if x > 0 {
      ModAddMultiple(a, x - 1, n);
      ModPlusN(a + (x - 1) * n, n);
      assert a + x * n == a + (x - 1) * n + n;
    } else if x < 0 {
      ModAddMultiple(a, x + 1, n);
      ModPlusN(a + x * n, n);
      assert a + (x + 1) * n == a + x * n + n;
    }
  }

  lemma ModPlusN(a: int, n: int)
    requires n > 0
    ensures (a + n) % n == a % n
  {
    var q, r := a / n, a % n;
    assert a + n == (q + 1) * n + r;
    QuotientUnique(a + n, q + 1, r, n);
  }

  lemma NonZeroMultiple(d: int, n: int)
    requires n > 0
    ensures d == 0 || d * n >= n || d * n <= -n
  {
    if d > 0 {
      assert (d - 1) * n >= 0;
    } else if d < 0 {
      assert (-d - 1) * n >= 0;
    }
  }

  lemma QuotientUnique(a: int, q: int, r: int, n: int)
    requires n > 0 && a == q * n + r && 0 <= r < n
    ensures a / n == q && a % n == r
  {
    var d := a / n - q;
    assert a == (a / n) * n + a % n;
    assert d * n == r - a % n by {
      assert d * n == (a / n) * n - q * n;
    }
    NonZeroMultiple(d, n);
  }

  /** Two numbers in the same residue class that are less than `n` apart are equal. */
  lemma SameResidue(a: int, b: int, n: int)
    requires n > 0 && a % n == b % n && -n < a - b < n
    ensures a == b
  {
    var d := a / n - b / n;
    assert a == (a / n) * n + a % n && b == (b / n) * n + b % n;
    assert a - b == d * n by {
      assert d * n == (a / n) * n - (b / n) * n;
    }
    NonZeroMultiple(d, n);
  }

  lemma ResidueDifference(a: int, b: int, n: int)
    requires n > 0
    ensures a % n == b % n <==> (a - b) % n == 0
  {
    ModShift(a - b, b, n);
    var x, y := a / n, b / n;
    assert a == x * n + a % n && b == y * n + b % n;
    if a % n == b % n {
      assert a - b == (x - y) * n;
      MultipleOf(x - y, n, a - b);
    }
  }

  lemma MultipleOf(d: int, n: int, a: int)
    requires n > 0 && a == d * n
    ensures a % n == 0
  {
    ModAddMultiple(0, d, n);
  }
}
