/**
 The uniform generator of numerical.c: two multiply-with-carry streams in the halves of a 64-bit seed.
 Machine words are integers with their wrap-around written out.
 */
module Marsaglia {

  const BASE := 65536
  const WORD := 0x1_0000_0000
  const RANDOM_RANGE := 0x8000_0000
  const MULTIPLIER1 := 36969
  const MULTIPLIER2 := 18000

  datatype Seeds = Seeds(seed1: int, seed2: int)

  predicate Words(s: Seeds) {
    0 <= s.seed1 < WORD && 0 <= s.seed2 < WORD
  }

  /** One step of a stream on 32-bit words. */
  function Step(a: int, s: int): int {
    (a * (s % BASE) + s / BASE) % WORD
  }

  function Modulus(a: int): int {
    a * BASE - 1
  }

  /** The two halves added to a 32-bit word; `<<` drops what leaves the word. */
  function Mixed(s: Seeds): int {
    ((s.seed1 * BASE) % WORD + s.seed1 / BASE + s.seed2) % WORD
  }

  function Uniform(s: Seeds): real {
    (Mixed(s) as real + 1.0) * 0.0000000002328306435454494
  }

  /** A seed of zero is replaced by `seed`, which fills the low half; then both streams move on. */
  function Next(s: Seeds, seed: int): Seeds {
    var s1 := if s == Seeds(0, 0) then Seeds(seed % WORD, seed / WORD) else s;
    Seeds(Step(MULTIPLIER1, s1.seed1), Step(MULTIPLIER2, s1.seed2))
  }

  /** The seed of one thread. */
  class Generator {
    var seed1: int
    var seed2: int

    ghost function View(): Seeds
      reads this
    {
      Seeds(seed1, seed2)
    }

    constructor ()
      ensures View() == Seeds(0, 0)
    {
      seed1, seed2 := 0, 0;
    }

    /** `Random`, with the value `random()` would return. */
    method Random(seed: int) returns (r: real)
      requires Words(View()) && 0 <= seed < RANDOM_RANGE
      modifies this
      ensures View() == Next(old(View()), seed) && Words(View())
      ensures r == Uniform(View()) && 0.0 < r < 1.0
    {
      if seed1 == 0 && seed2 == 0 {
        seed1, seed2 := seed % WORD, seed / WORD;
      }
      seed1 := (MULTIPLIER1 * (seed1 % BASE) + seed1 / BASE) % WORD;
      seed2 := (MULTIPLIER2 * (seed2 % BASE) + seed2 / BASE) % WORD;
      r := (((seed1 * BASE) % WORD + seed1 / BASE + seed2) % WORD) as real + 1.0;
      r := r * 0.0000000002328306435454494;
      StrictlyInside(View());
    }
  }

  lemma StrictlyInside(s: Seeds)
    requires Words(s)
    ensures 0.0 < Uniform(s) < 1.0
  {
  }

  // ---------- what a step does ----------

  /** No step leaves the word, so the wrap-around never happens; and only zero leads to zero. */
  lemma StepFits(a: int, s: int)
    requires 0 < a <= MULTIPLIER1 && 0 <= s < WORD
    ensures Step(a, s) == a * (s % BASE) + s / BASE
    ensures Step(a, s) == 0 <==> s == 0
  {
    var low, high := s % BASE, s / BASE;
    assert s == BASE * high + low;
    assert 0 <= low <= 65535 && 0 <= high <= 65535;
    assert 0 <= a * low <= MULTIPLIER1 * 65535 by {
      ProductOrder(a, MULTIPLIER1, low, 65535);
    }
    assert a * low == 0 ==> low == 0 by {
      if low > 0 {
        ProductOrder(1, a, 1, low);
      }
    }
  }

  lemma ProductOrder(a: int, b: int, c: int, d: int)
    requires 0 <= a <= b && 0 <= c <= d
    ensures 0 <= a * c <= b * d
  {
    assert a * c <= b * c <= b * d;
  }

  /** A step divides by 65536 modulo `Modulus(a)`. */
  lemma StepDivides(a: int, s: int)
    requires 0 < a <= MULTIPLIER1 && 0 <= s < WORD
    ensures BASE * Step(a, s) == s + (s % BASE) * Modulus(a)
  {
    StepFits(a, s);
    var low, high := s % BASE, s / BASE;
    assert s == BASE * high + low;
    assert BASE * (a * low) == low * (a * BASE);
  }

  /** Below the modulus a step is multiplication by `a`, and stays below the modulus. */
  lemma StepMultiplies(a: int, s: int)
    requires 0 < a <= MULTIPLIER1 && 0 < s < Modulus(a)
    ensures 0 < Step(a, s) < Modulus(a)
    ensures Step(a, s) == (a * s) % Modulus(a)
  {
    var m := Modulus(a);
    var low, high := s % BASE, s / BASE;
    assert s == BASE * high + low;
    assert m <= MULTIPLIER1 * BASE < WORD;
    StepFits(a, s);
    var t := Step(a, s);
    assert a * s == high * m + t by {
      assert a * (BASE * high) == high * (a * BASE);
      assert a * s == a * (BASE * high) + a * low;
    }
    assert high <= a - 1;
    assert a * low <= a * 65535 by {
      ProductOrder(a, a, low, 65535);
    }
    assert t <= m;
    assert t == m ==> low == 65535 && high == a - 1 by {
      if low < 65535 {
        ProductOrder(a, a, low, 65534);
      }
    }
    Remainder(a * s, m, high, t);
  }

  lemma Remainder(x: int, m: int, q: int, r: int)
    requires m > 0 && x == q * m + r && 0 <= r < m
    ensures x % m == r
  {
    Unique(q, r, x / m, x % m, m);
  }

  lemma Unique(q1: int, r1: int, q2: int, r2: int, m: int)
    requires q1 * m + r1 == q2 * m + r2 && 0 <= r1 < m && 0 <= r2 < m
    ensures r1 == r2
  {
    assert (q1 - q2) * m == q1 * m - q2 * m;
    if q1 > q2 {
      ProductOrder(1, q1 - q2, m, m);
    } else if q1 < q2 {
      assert (q2 - q1) * m == q2 * m - q1 * m;
      ProductOrder(1, q2 - q1, m, m);
    }
  }

  // ---------- many steps ----------

  function Power(b: int, k: nat): int {
    if k == 0 then 1 else b * Power(b, k - 1)
  }

  function Steps(a: int, s: int, k: nat): int {
    if k == 0 then s else Step(a, Steps(a, s, k - 1))
  }

  /** `m` divides `x`. */
  ghost predicate Divides(m: int, x: int) {
    exists q :: x == q * m
  }

  /** From any word, `k` steps divide by the `k`-th power of 65536. */
  lemma {:induction false} StepsDivide(a: int, s: int, k: nat)
    requires 0 < a <= MULTIPLIER1 && 0 <= s < WORD
    ensures 0 <= Steps(a, s, k) < WORD
    ensures Divides(Modulus(a), Power(BASE, k) * Steps(a, s, k) - s)
  {
    hide Step, Modulus;
    var m := Modulus(a);
    if k == 0 {
      assert Power(BASE, 0) * Steps(a, s, 0) - s == 0 * m;
    } else {
      StepsDivide(a, s, k - 1);
      var t, p := Steps(a, s, k - 1), Power(BASE, k - 1);
      var q :| p * t - s == q * m;
      StepDivides(a, t);
      StepWord(a, t);
      var u := Step(a, t);
      Divided(p, t, u, s, m, q, t % BASE);
      assert Power(BASE, k) * u - s == (q + p * (t % BASE)) * m;
    }
  }

  lemma Divided(p: int, t: int, u: int, s: int, m: int, q: int, c: int)
    requires p * t - s == q * m && BASE * u == t + c * m
    ensures (BASE * p) * u - s == (q + p * c) * m
  {
    assert (BASE * p) * u == p * (BASE * u);
    assert p * (t + c * m) == p * t + (p * c) * m;
  }

  lemma StepWord(a: int, s: int)
    ensures 0 <= Step(a, s) < WORD
  {
  }

  /** Below the modulus, `k` steps are one multiplication by the `k`-th power of `a`. */
  lemma {:induction false} StepsMultiply(a: int, s: int, k: nat)
    requires 0 < a <= MULTIPLIER1 && 0 < s < Modulus(a)
    ensures 0 < Steps(a, s, k) < Modulus(a)
    ensures Steps(a, s, k) == (Power(a, k) * s) % Modulus(a)
  {
    hide Step, Modulus;
    var m := Modulus(a);
    if k == 0 {
      Remainder(s, m, 0, s);
    } else {
      StepsMultiply(a, s, k - 1);
      var t, x := Steps(a, s, k - 1), Power(a, k - 1) * s;
      StepMultiplies(a, t);
      var u := Step(a, t);
      var q, h := x / m, (a * t) / m;
      assert x == q * m + t;
      assert a * t == h * m + u;
      Multiplied(a, Power(a, k - 1), s, q, t, h, u, m);
      Remainder(Power(a, k) * s, m, a * q + h, u);
    }
  }

  lemma Multiplied(a: int, p: int, s: int, q: int, t: int, h: int, u: int, m: int)
    requires p * s == q * m + t && a * t == h * m + u
    ensures (a * p) * s == (a * q + h) * m + u
  {
    assert (a * p) * s == a * (p * s);
    assert a * (q * m + t) == (a * q) * m + a * t;
  }

  // ---------- runs of the generator ----------

  /** The seeds after one draw for each of the values that `random()` has ready. */
  function Draws(s: Seeds, seeds: seq<int>): Seeds
    decreases |seeds|
  {
    if seeds == [] then s else Next(Draws(s, seeds[..|seeds| - 1]), seeds[|seeds| - 1])
  }

  /** In a thread whose first call draws a non-zero seed, the seed never becomes zero again, so no other
      is ever drawn; `k` draws put the first stream at `36969^k` times the seed, modulo 36969 * 65536 - 1.
      A seed fills only the low half, so the second stream stays at zero. */
  lemma {:induction false} OneStream(seeds: seq<int>)
    requires seeds != [] && 0 < seeds[0] < RANDOM_RANGE
    ensures Draws(Seeds(0, 0), seeds) ==
            Seeds((Power(MULTIPLIER1, |seeds|) * seeds[0]) % Modulus(MULTIPLIER1), 0)
    ensures Draws(Seeds(0, 0), seeds).seed1 != 0
    decreases |seeds|
  {
    assert RANDOM_RANGE < Modulus(MULTIPLIER1);
    hide Power, Modulus, Step;
    assert Step(MULTIPLIER2, 0) == 0 by {
      StepFits(MULTIPLIER2, 0);
    }
    StepsMultiply(MULTIPLIER1, seeds[0], |seeds|);
    StepsMultiply(MULTIPLIER1, seeds[0], |seeds| - 1);
    var before := seeds[..|seeds| - 1];
    if before == [] {
      assert seeds[|seeds| - 1] == seeds[0];
      assert Draws(Seeds(0, 0), before) == Seeds(0, 0);
      assert Steps(MULTIPLIER1, seeds[0], 1) == Step(MULTIPLIER1, Steps(MULTIPLIER1, seeds[0], 0));
    } else {
      OneStream(before);
    }
  }

  /** So two draws give the same number only from the same seed: the first stream, its halves swapped. */
  lemma OutputsApart(s: int, t: int)
    requires 0 <= s < WORD && 0 <= t < WORD && s != t
    ensures Uniform(Seeds(s, 0)) != Uniform(Seeds(t, 0))
  {
    Swapped(s);
    Swapped(t);
  }

  lemma Swapped(s: int)
    requires 0 <= s < WORD
    ensures Mixed(Seeds(s, 0)) % BASE == s / BASE && Mixed(Seeds(s, 0)) / BASE == s % BASE
  {
    var low, high := s % BASE, s / BASE;
    assert s * BASE == high * WORD + low * BASE;
    Remainder(s * BASE, WORD, high, low * BASE);
  }

  // ---------- the numbers themselves ----------

  /** A draw, in numbers: the two streams divide by 65536 modulo 36969 * 65536 - 1 and 18000 * 65536 - 1, which
      on words below these moduli is to multiply by 36969 and 18000. */
  lemma NextInNumbers(s: Seeds, seed: int)
    requires Words(s) && s != Seeds(0, 0)
    ensures var t := Next(s, seed);
            && Words(t)
            && 65536 * t.seed1 == s.seed1 + (s.seed1 % 65536) * 2422800383
            && 65536 * t.seed2 == s.seed2 + (s.seed2 % 65536) * 1179647999
            && (s.seed1 < 2422800383 ==> t.seed1 == (36969 * s.seed1) % 2422800383)
            && (s.seed2 < 1179647999 ==> t.seed2 == (18000 * s.seed2) % 1179647999)
  {
    hide Step;
    StepDivides(MULTIPLIER1, s.seed1);
    StepDivides(MULTIPLIER2, s.seed2);
    StepWord(MULTIPLIER1, s.seed1);
    StepWord(MULTIPLIER2, s.seed2);
    StepFits(MULTIPLIER1, s.seed1);
    StepFits(MULTIPLIER2, s.seed2);
    if 0 < s.seed1 < 2422800383 {
      StepMultiplies(MULTIPLIER1, s.seed1);
    }
    if 0 < s.seed2 < 1179647999 {
      StepMultiplies(MULTIPLIER2, s.seed2);
    }
  }

  /** The first draw of a thread, from what `random()` returns. */
  lemma FirstInNumbers(seed: int)
    requires 0 <= seed < 0x8000_0000
    ensures Next(Seeds(0, 0), seed) == Seeds((36969 * seed) % 2422800383, 0)
  {
    hide Step;
    StepFits(MULTIPLIER1, seed);
    StepFits(MULTIPLIER2, 0);
    if seed > 0 {
      StepMultiplies(MULTIPLIER1, seed);
    }
  }

  /** The number returned: the halves of the first stream swapped, plus the second stream, as a 32-bit word,
      plus one, over 2^32 + 2 up to one part in ten to the fifteen. */
  lemma UniformInNumbers(s: Seeds)
    requires Words(s)
    ensures var word := ((s.seed1 % 65536) * 65536 + s.seed1 / 65536 + s.seed2) % 4294967296;
            && Mixed(s) == word
            && -0.00001 < Uniform(s) * 4294967298.0 - (word as real + 1.0) < 0.00001
  {
    var low, high := s.seed1 % BASE, s.seed1 / BASE;
    assert s.seed1 * BASE == high * WORD + low * BASE;
    Remainder(s.seed1 * BASE, WORD, high, low * BASE);
  }
}
