/**
 Single bits of 32-bit words, as the channel macros of model.h set, reset and check them.
 */
module Bits {

  function Mask(k: int): bv32
    requires 0 <= k < 32
  {
    (1 as bv32) << k
  }

  /** `CHECK_CHANNEL_BIT`, `SET_CHANNEL_BIT` and `RESET_CHANNEL_BIT`, by the mask. */
  predicate Has(w: bv32, m: bv32) {
    w & m != 0
  }

  function With(w: bv32, m: bv32): bv32 {
    w | m
  }

  function Without(w: bv32, m: bv32): bv32 {
    w & !m
  }

  lemma IndexAsWord(k: int)
    requires 0 <= k < 32
    ensures (k as bv32) as int == k
    ensures k as bv32 < 32
  {
  }

  lemma DifferentWords(k: int, j: int)
    requires 0 <= k < 32 && 0 <= j < 32 && k != j
    ensures k as bv32 != j as bv32
  {
    IndexAsWord(k);
    IndexAsWord(j);
  }

  lemma MaskAsWord(k: int)
    requires 0 <= k < 32
    ensures k as bv32 < 32
    ensures Mask(k) == (1 as bv32) << (k as bv32)
  {
    IndexAsWord(k);
  }

  lemma WordMasksApart(b: bv32, c: bv32)
    requires b < 32 && c < 32 && b != c
    ensures ((1 as bv32) << b) & ((1 as bv32) << c) == 0
  {
  }

  lemma WordMaskNonZero(b: bv32)
    requires b < 32
    ensures (1 as bv32) << b != 0
  {
  }

  predicate Apart(m: bv32, n: bv32) {
    m & n == 0
  }

  lemma MasksApart(k: int, j: int)
    requires 0 <= k < 32 && 0 <= j < 32 && k != j
    ensures Apart(Mask(k), Mask(j))
  {
    MaskAsWord(k);
    MaskAsWord(j);
    DifferentWords(k, j);
    hide Mask;
    WordMasksApart(k as bv32, j as bv32);
  }

  lemma MaskNonZero(k: int)
    requires 0 <= k < 32
    ensures Mask(k) != 0
  {
    MaskAsWord(k);
    hide Mask;
    WordMaskNonZero(k as bv32);
  }

  lemma OtherBits(w: bv32, m: bv32, n: bv32)
    requires m & n == 0
    ensures (w | m) & n == w & n
    ensures (w & !m) & n == w & n
  {
  }

  lemma OtherBit(w: bv32, m: bv32, n: bv32)
    requires Apart(m, n)
    ensures Has(With(w, m), n) == Has(w, n)
    ensures Has(Without(w, m), n) == Has(w, n)
  {
    OtherBits(w, m, n);
  }

  lemma OwnBit(w: bv32, m: bv32)
    requires m != 0
    ensures Has(With(w, m), m) && !Has(Without(w, m), m)
  {
  }

  /** Setting or resetting one bit of a word leaves the other bits alone. */
  lemma BitUpdates(w: bv32, k: int, j: int)
    requires 0 <= k < 32 && 0 <= j < 32
    ensures Has(With(w, Mask(k)), Mask(j)) <==> j == k || Has(w, Mask(j))
    ensures Has(Without(w, Mask(k)), Mask(j)) <==> j != k && Has(w, Mask(j))
  {
    hide Mask, Has, With, Without, Apart;
    if j == k {
      MaskNonZero(k);
      OwnBit(w, Mask(k));
    } else {
      MasksApart(k, j);
      OtherBit(w, Mask(k), Mask(j));
    }
  }

  lemma NoBits(m: bv32)
    ensures !Has(0, m)
  {
  }
}
