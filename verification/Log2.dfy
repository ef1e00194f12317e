/**
 The integer logarithm of prova.c: smear the highest bit down, isolate it, and look its position up by a
 multiplication that sends the 64 powers of two to 64 different table entries.
 */
module Log2 {

  /** `tab64`, by rows. */
  const TAB64: seq<seq<int>> := [
    [63, 0, 58, 1, 59, 47, 53, 2],
    [60, 39, 48, 27, 54, 33, 42, 3],
    [61, 51, 37, 40, 49, 18, 28, 20],
    [55, 30, 34, 11, 43, 14, 22, 4],
    [62, 57, 46, 52, 38, 26, 32, 41],
    [50, 36, 17, 19, 29, 10, 13, 21],
    [56, 45, 25, 31, 35, 16, 9, 12],
    [44, 24, 15, 8, 23, 7, 6, 5]]

  function Smear(v: bv64): bv64 {
    var v1 := v | (v >> 1);
    var v2 := v1 | (v1 >> 2);
    var v3 := v2 | (v2 >> 4);
    var v4 := v3 | (v3 >> 8);
    var v5 := v4 | (v4 >> 16);
    v5 | (v5 >> 32)
  }

  function Top(s: bv64): bv64 {
    s - (s >> 1)
  }

  /** The top six bits of the product. */
  function Hash(t: bv64): (h: bv64)
    ensures h < 64
  {
    (t * 0x07EDD5E59A4E28C2) >> 58
  }

  function Entry(t: bv64): int {
    Small(Hash(t));
    TAB64[Hash(t) as int / 8][Hash(t) as int % 8]
  }

  lemma Small(h: bv64)
    requires h < 64
    ensures 0 <= h as int < 64
  {
  }

  /** `log2_64`. */
  function Log(v: bv64): int {
    Entry(Top(Smear(v)))
  }

  /** `r` is where the highest bit of `v` is: 2^r <= v < 2^(r+1). */
  predicate Highest(v: bv64, r: int) {
    0 <= r < 64 && v >> r == 1
  }

  // ---------- the 64 places of the highest bit ----------

  lemma ShiftsToOne(v: bv64)
    requires v != 0
    ensures v >> 0 == 1 || v >> 1 == 1 || v >> 2 == 1 || v >> 3 == 1 ||
            v >> 4 == 1 || v >> 5 == 1 || v >> 6 == 1 || v >> 7 == 1 ||
            v >> 8 == 1 || v >> 9 == 1 || v >> 10 == 1 || v >> 11 == 1 ||
            v >> 12 == 1 || v >> 13 == 1 || v >> 14 == 1 || v >> 15 == 1 ||
            v >> 16 == 1 || v >> 17 == 1 || v >> 18 == 1 || v >> 19 == 1 ||
            v >> 20 == 1 || v >> 21 == 1 || v >> 22 == 1 || v >> 23 == 1 ||
            v >> 24 == 1 || v >> 25 == 1 || v >> 26 == 1 || v >> 27 == 1 ||
            v >> 28 == 1 || v >> 29 == 1 || v >> 30 == 1 || v >> 31 == 1 ||
            v >> 32 == 1 || v >> 33 == 1 || v >> 34 == 1 || v >> 35 == 1 ||
            v >> 36 == 1 || v >> 37 == 1 || v >> 38 == 1 || v >> 39 == 1 ||
            v >> 40 == 1 || v >> 41 == 1 || v >> 42 == 1 || v >> 43 == 1 ||
            v >> 44 == 1 || v >> 45 == 1 || v >> 46 == 1 || v >> 47 == 1 ||
            v >> 48 == 1 || v >> 49 == 1 || v >> 50 == 1 || v >> 51 == 1 ||
            v >> 52 == 1 || v >> 53 == 1 || v >> 54 == 1 || v >> 55 == 1 ||
            v >> 56 == 1 || v >> 57 == 1 || v >> 58 == 1 || v >> 59 == 1 ||
            v >> 60 == 1 || v >> 61 == 1 || v >> 62 == 1 || v >> 63 == 1
  {
  }

  lemma Place(v: bv64) returns (k: int)
    requires v != 0
    ensures Highest(v, k)
  {
    ShiftsToOne(v);
    if v >> 0 == 1 { return 0; } if v >> 1 == 1 { return 1; } if v >> 2 == 1 { return 2; } if v >> 3 == 1 { return 3; }
    if v >> 4 == 1 { return 4; } if v >> 5 == 1 { return 5; } if v >> 6 == 1 { return 6; } if v >> 7 == 1 { return 7; }
    if v >> 8 == 1 { return 8; } if v >> 9 == 1 { return 9; }
    if v >> 10 == 1 { return 10; } if v >> 11 == 1 { return 11; }
    if v >> 12 == 1 { return 12; } if v >> 13 == 1 { return 13; }
    if v >> 14 == 1 { return 14; } if v >> 15 == 1 { return 15; }
    if v >> 16 == 1 { return 16; } if v >> 17 == 1 { return 17; }
    if v >> 18 == 1 { return 18; } if v >> 19 == 1 { return 19; }
    if v >> 20 == 1 { return 20; } if v >> 21 == 1 { return 21; }
    if v >> 22 == 1 { return 22; } if v >> 23 == 1 { return 23; }
    if v >> 24 == 1 { return 24; } if v >> 25 == 1 { return 25; }
    if v >> 26 == 1 { return 26; } if v >> 27 == 1 { return 27; }
    if v >> 28 == 1 { return 28; } if v >> 29 == 1 { return 29; }
    if v >> 30 == 1 { return 30; } if v >> 31 == 1 { return 31; }
    if v >> 32 == 1 { return 32; } if v >> 33 == 1 { return 33; }
    if v >> 34 == 1 { return 34; } if v >> 35 == 1 { return 35; }
    if v >> 36 == 1 { return 36; } if v >> 37 == 1 { return 37; }
    if v >> 38 == 1 { return 38; } if v >> 39 == 1 { return 39; }
    if v >> 40 == 1 { return 40; } if v >> 41 == 1 { return 41; }
    if v >> 42 == 1 { return 42; } if v >> 43 == 1 { return 43; }
    if v >> 44 == 1 { return 44; } if v >> 45 == 1 { return 45; }
    if v >> 46 == 1 { return 46; } if v >> 47 == 1 { return 47; }
    if v >> 48 == 1 { return 48; } if v >> 49 == 1 { return 49; }
    if v >> 50 == 1 { return 50; } if v >> 51 == 1 { return 51; }
    if v >> 52 == 1 { return 52; } if v >> 53 == 1 { return 53; }
    if v >> 54 == 1 { return 54; } if v >> 55 == 1 { return 55; }
    if v >> 56 == 1 { return 56; } if v >> 57 == 1 { return 57; }
    if v >> 58 == 1 { return 58; } if v >> 59 == 1 { return 59; }
    if v >> 60 == 1 { return 60; } if v >> 61 == 1 { return 61; }
    if v >> 62 == 1 { return 62; } if v >> 63 == 1 { return 63; }
  }

  lemma FirstSmears(v: bv64)
    ensures (Highest(v, 0) ==> Smear(v) == 0x1) && (Highest(v, 1) ==> Smear(v) == 0x3)
    ensures (Highest(v, 2) ==> Smear(v) == 0x7) && (Highest(v, 3) ==> Smear(v) == 0xf)
    ensures (Highest(v, 4) ==> Smear(v) == 0x1f) && (Highest(v, 5) ==> Smear(v) == 0x3f)
    ensures (Highest(v, 6) ==> Smear(v) == 0x7f) && (Highest(v, 7) ==> Smear(v) == 0xff)
    ensures (Highest(v, 8) ==> Smear(v) == 0x1ff) && (Highest(v, 9) ==> Smear(v) == 0x3ff)
    ensures (Highest(v, 10) ==> Smear(v) == 0x7ff) && (Highest(v, 11) ==> Smear(v) == 0xfff)
    ensures (Highest(v, 12) ==> Smear(v) == 0x1fff) && (Highest(v, 13) ==> Smear(v) == 0x3fff)
    ensures (Highest(v, 14) ==> Smear(v) == 0x7fff) && (Highest(v, 15) ==> Smear(v) == 0xffff)
  {
  }

  lemma SecondSmears(v: bv64)
    ensures (Highest(v, 16) ==> Smear(v) == 0x1ffff) && (Highest(v, 17) ==> Smear(v) == 0x3ffff)
    ensures (Highest(v, 18) ==> Smear(v) == 0x7ffff) && (Highest(v, 19) ==> Smear(v) == 0xfffff)
    ensures (Highest(v, 20) ==> Smear(v) == 0x1fffff) && (Highest(v, 21) ==> Smear(v) == 0x3fffff)
    ensures (Highest(v, 22) ==> Smear(v) == 0x7fffff) && (Highest(v, 23) ==> Smear(v) == 0xffffff)
    ensures (Highest(v, 24) ==> Smear(v) == 0x1ffffff) && (Highest(v, 25) ==> Smear(v) == 0x3ffffff)
    ensures (Highest(v, 26) ==> Smear(v) == 0x7ffffff) && (Highest(v, 27) ==> Smear(v) == 0xfffffff)
    ensures (Highest(v, 28) ==> Smear(v) == 0x1fffffff) && (Highest(v, 29) ==> Smear(v) == 0x3fffffff)
    ensures (Highest(v, 30) ==> Smear(v) == 0x7fffffff) && (Highest(v, 31) ==> Smear(v) == 0xffffffff)
  {
  }

  lemma ThirdSmears(v: bv64)
    ensures (Highest(v, 32) ==> Smear(v) == 0x1ffffffff) && (Highest(v, 33) ==> Smear(v) == 0x3ffffffff)
    ensures (Highest(v, 34) ==> Smear(v) == 0x7ffffffff) && (Highest(v, 35) ==> Smear(v) == 0xfffffffff)
    ensures (Highest(v, 36) ==> Smear(v) == 0x1fffffffff) && (Highest(v, 37) ==> Smear(v) == 0x3fffffffff)
    ensures (Highest(v, 38) ==> Smear(v) == 0x7fffffffff) && (Highest(v, 39) ==> Smear(v) == 0xffffffffff)
    ensures (Highest(v, 40) ==> Smear(v) == 0x1ffffffffff) && (Highest(v, 41) ==> Smear(v) == 0x3ffffffffff)
    ensures (Highest(v, 42) ==> Smear(v) == 0x7ffffffffff) && (Highest(v, 43) ==> Smear(v) == 0xfffffffffff)
    ensures (Highest(v, 44) ==> Smear(v) == 0x1fffffffffff) && (Highest(v, 45) ==> Smear(v) == 0x3fffffffffff)
    ensures (Highest(v, 46) ==> Smear(v) == 0x7fffffffffff) && (Highest(v, 47) ==> Smear(v) == 0xffffffffffff)
  {
  }

  lemma FourthSmears(v: bv64)
    ensures (Highest(v, 48) ==> Smear(v) == 0x1ffffffffffff) && (Highest(v, 49) ==> Smear(v) == 0x3ffffffffffff)
    ensures (Highest(v, 50) ==> Smear(v) == 0x7ffffffffffff) && (Highest(v, 51) ==> Smear(v) == 0xfffffffffffff)
    ensures (Highest(v, 52) ==> Smear(v) == 0x1fffffffffffff) && (Highest(v, 53) ==> Smear(v) == 0x3fffffffffffff)
    ensures (Highest(v, 54) ==> Smear(v) == 0x7fffffffffffff) && (Highest(v, 55) ==> Smear(v) == 0xffffffffffffff)
    ensures (Highest(v, 56) ==> Smear(v) == 0x1ffffffffffffff) && (Highest(v, 57) ==> Smear(v) == 0x3ffffffffffffff)
    ensures (Highest(v, 58) ==> Smear(v) == 0x7ffffffffffffff) && (Highest(v, 59) ==> Smear(v) == 0xfffffffffffffff)
    ensures (Highest(v, 60) ==> Smear(v) == 0x1fffffffffffffff) && (Highest(v, 61) ==> Smear(v) == 0x3fffffffffffffff)
    ensures (Highest(v, 62) ==> Smear(v) == 0x7fffffffffffffff) && (Highest(v, 63) ==> Smear(v) == 0xffffffffffffffff)
  {
  }

  lemma Tops()
    ensures Top(0x1) == 0x1 && Top(0x3) == 0x2
    ensures Top(0x7) == 0x4 && Top(0xf) == 0x8
    ensures Top(0x1f) == 0x10 && Top(0x3f) == 0x20
    ensures Top(0x7f) == 0x40 && Top(0xff) == 0x80
    ensures Top(0x1ff) == 0x100 && Top(0x3ff) == 0x200
    ensures Top(0x7ff) == 0x400 && Top(0xfff) == 0x800
    ensures Top(0x1fff) == 0x1000 && Top(0x3fff) == 0x2000
    ensures Top(0x7fff) == 0x4000 && Top(0xffff) == 0x8000
    ensures Top(0x1ffff) == 0x10000 && Top(0x3ffff) == 0x20000
    ensures Top(0x7ffff) == 0x40000 && Top(0xfffff) == 0x80000
    ensures Top(0x1fffff) == 0x100000 && Top(0x3fffff) == 0x200000
    ensures Top(0x7fffff) == 0x400000 && Top(0xffffff) == 0x800000
    ensures Top(0x1ffffff) == 0x1000000 && Top(0x3ffffff) == 0x2000000
    ensures Top(0x7ffffff) == 0x4000000 && Top(0xfffffff) == 0x8000000
    ensures Top(0x1fffffff) == 0x10000000 && Top(0x3fffffff) == 0x20000000
    ensures Top(0x7fffffff) == 0x40000000 && Top(0xffffffff) == 0x80000000
    ensures Top(0x1ffffffff) == 0x100000000 && Top(0x3ffffffff) == 0x200000000
    ensures Top(0x7ffffffff) == 0x400000000 && Top(0xfffffffff) == 0x800000000
    ensures Top(0x1fffffffff) == 0x1000000000 && Top(0x3fffffffff) == 0x2000000000
    ensures Top(0x7fffffffff) == 0x4000000000 && Top(0xffffffffff) == 0x8000000000
    ensures Top(0x1ffffffffff) == 0x10000000000 && Top(0x3ffffffffff) == 0x20000000000
    ensures Top(0x7ffffffffff) == 0x40000000000 && Top(0xfffffffffff) == 0x80000000000
    ensures Top(0x1fffffffffff) == 0x100000000000 && Top(0x3fffffffffff) == 0x200000000000
    ensures Top(0x7fffffffffff) == 0x400000000000 && Top(0xffffffffffff) == 0x800000000000
    ensures Top(0x1ffffffffffff) == 0x1000000000000 && Top(0x3ffffffffffff) == 0x2000000000000
    ensures Top(0x7ffffffffffff) == 0x4000000000000 && Top(0xfffffffffffff) == 0x8000000000000
    ensures Top(0x1fffffffffffff) == 0x10000000000000 && Top(0x3fffffffffffff) == 0x20000000000000
    ensures Top(0x7fffffffffffff) == 0x40000000000000 && Top(0xffffffffffffff) == 0x80000000000000
    ensures Top(0x1ffffffffffffff) == 0x100000000000000 && Top(0x3ffffffffffffff) == 0x200000000000000
    ensures Top(0x7ffffffffffffff) == 0x400000000000000 && Top(0xfffffffffffffff) == 0x800000000000000
    ensures Top(0x1fffffffffffffff) == 0x1000000000000000 && Top(0x3fffffffffffffff) == 0x2000000000000000
    ensures Top(0x7fffffffffffffff) == 0x4000000000000000 && Top(0xffffffffffffffff) == 0x8000000000000000
  {
  }

  // ---------- the 64 powers of two, each in its place of the table ----------

  lemma FirstEntries()
    ensures Entry(0x1) == 0 && Entry(0x2) == 1 && Entry(0x4) == 2 && Entry(0x8) == 3
    ensures Entry(0x10) == 4 && Entry(0x20) == 5 && Entry(0x40) == 6 && Entry(0x80) == 7
    ensures Entry(0x100) == 8 && Entry(0x200) == 9 && Entry(0x400) == 10 && Entry(0x800) == 11
    ensures Entry(0x1000) == 12 && Entry(0x2000) == 13 && Entry(0x4000) == 14 && Entry(0x8000) == 15
  {
    assert Hash(0x1) == 1; assert Hash(0x2) == 3; assert Hash(0x4) == 7; assert Hash(0x8) == 15;
    assert Hash(0x10) == 31; assert Hash(0x20) == 63; assert Hash(0x40) == 62; assert Hash(0x80) == 61;
    assert Hash(0x100) == 59; assert Hash(0x200) == 54; assert Hash(0x400) == 45; assert Hash(0x800) == 27;
    assert Hash(0x1000) == 55; assert Hash(0x2000) == 46; assert Hash(0x4000) == 29; assert Hash(0x8000) == 58;
  }

  lemma SecondEntries()
    ensures Entry(0x10000) == 16 && Entry(0x20000) == 17 && Entry(0x40000) == 18 && Entry(0x80000) == 19
    ensures Entry(0x100000) == 20 && Entry(0x200000) == 21 && Entry(0x400000) == 22 && Entry(0x800000) == 23
    ensures Entry(0x1000000) == 24 && Entry(0x2000000) == 25 && Entry(0x4000000) == 26 && Entry(0x8000000) == 27
    ensures Entry(0x10000000) == 28 && Entry(0x20000000) == 29 && Entry(0x40000000) == 30 && Entry(0x80000000) == 31
  {
    assert Hash(0x10000) == 53; assert Hash(0x20000) == 42; assert Hash(0x40000) == 21; assert Hash(0x80000) == 43;
    assert Hash(0x100000) == 23; assert Hash(0x200000) == 47; assert Hash(0x400000) == 30; assert Hash(0x800000) == 60;
    assert Hash(0x1000000) == 57; assert Hash(0x2000000) == 50;
    assert Hash(0x4000000) == 37; assert Hash(0x8000000) == 11;
    assert Hash(0x10000000) == 22; assert Hash(0x20000000) == 44;
    assert Hash(0x40000000) == 25; assert Hash(0x80000000) == 51;
  }

  lemma ThirdEntries()
    ensures Entry(0x100000000) == 32 && Entry(0x200000000) == 33 && Entry(0x400000000) == 34 && Entry(0x800000000) == 35
    ensures Entry(0x1000000000) == 36 && Entry(0x2000000000) == 37
    ensures Entry(0x4000000000) == 38 && Entry(0x8000000000) == 39
    ensures Entry(0x10000000000) == 40 && Entry(0x20000000000) == 41
    ensures Entry(0x40000000000) == 42 && Entry(0x80000000000) == 43
    ensures Entry(0x100000000000) == 44 && Entry(0x200000000000) == 45
    ensures Entry(0x400000000000) == 46 && Entry(0x800000000000) == 47
  {
    assert Hash(0x100000000) == 38; assert Hash(0x200000000) == 13;
    assert Hash(0x400000000) == 26; assert Hash(0x800000000) == 52;
    assert Hash(0x1000000000) == 41; assert Hash(0x2000000000) == 18;
    assert Hash(0x4000000000) == 36; assert Hash(0x8000000000) == 9;
    assert Hash(0x10000000000) == 19; assert Hash(0x20000000000) == 39;
    assert Hash(0x40000000000) == 14; assert Hash(0x80000000000) == 28;
    assert Hash(0x100000000000) == 56; assert Hash(0x200000000000) == 49;
    assert Hash(0x400000000000) == 34; assert Hash(0x800000000000) == 5;
  }

  lemma FourthEntries()
    ensures Entry(0x1000000000000) == 48 && Entry(0x2000000000000) == 49
    ensures Entry(0x4000000000000) == 50 && Entry(0x8000000000000) == 51
    ensures Entry(0x10000000000000) == 52 && Entry(0x20000000000000) == 53
    ensures Entry(0x40000000000000) == 54 && Entry(0x80000000000000) == 55
    ensures Entry(0x100000000000000) == 56 && Entry(0x200000000000000) == 57
    ensures Entry(0x400000000000000) == 58 && Entry(0x800000000000000) == 59
    ensures Entry(0x1000000000000000) == 60 && Entry(0x2000000000000000) == 61
    ensures Entry(0x4000000000000000) == 62 && Entry(0x8000000000000000) == 63
  {
    assert Hash(0x1000000000000) == 10; assert Hash(0x2000000000000) == 20;
    assert Hash(0x4000000000000) == 40; assert Hash(0x8000000000000) == 17;
    assert Hash(0x10000000000000) == 35; assert Hash(0x20000000000000) == 6;
    assert Hash(0x40000000000000) == 12; assert Hash(0x80000000000000) == 24;
    assert Hash(0x100000000000000) == 48; assert Hash(0x200000000000000) == 33;
    assert Hash(0x400000000000000) == 2; assert Hash(0x800000000000000) == 4;
    assert Hash(0x1000000000000000) == 8; assert Hash(0x2000000000000000) == 16;
    assert Hash(0x4000000000000000) == 32; assert Hash(0x8000000000000000) == 0;
  }

  // ---------- the highest bit, by comparison ----------

  /** 2 to the `r`, and the last word below the next power of two. */
  function Power(r: int): bv64
    requires 0 <= r < 64
  {
    (1 as bv64) << r
  }

  function Last(r: int): bv64
    requires 0 <= r < 64
  {
    Power(r) + (Power(r) - 1)
  }

  lemma AtLeast(v: bv64, r: int)
    requires Highest(v, r)
    ensures Power(r) <= v
  {
  }

  lemma AtMost(v: bv64, r: int)
    requires Highest(v, r)
    ensures v <= Last(r)
  {
  }

  lemma Below(v: bv64, r: int)
    requires 0 <= r < 64 && v >> r == 0
    ensures v < (1 as bv64) << r
  {
  }

  lemma Above(v: bv64, r: int)
    requires 0 <= r < 64 && v >> r > 1
    ensures v > ((1 as bv64) << r) + (((1 as bv64) << r) - 1)
  {
  }

  lemma NotBelow(v: bv64, r: int)
    requires 0 <= r < 64 && Power(r) <= v
    ensures v >> r != 0
  {
    if v >> r == 0 {
      Below(v, r);
    }
  }

  lemma NotAbove(v: bv64, r: int)
    requires 0 <= r < 64 && v <= Last(r)
    ensures v >> r <= 1
  {
    if v >> r > 1 {
      Above(v, r);
    }
  }

  lemma OnlyOne(s: bv64)
    requires s != 0 && s <= 1
    ensures s == 1
  {
  }

  /** A shift to one is a comparison with two powers of two. */
  lemma HighestMeans(v: bv64, r: int)
    requires 0 <= r < 64
    ensures Highest(v, r) <==> Power(r) <= v <= Last(r)
  {
    hide Power, Last;
    if Power(r) <= v <= Last(r) {
      NotBelow(v, r);
      NotAbove(v, r);
      OnlyOne(v >> r);
    } else if Highest(v, r) {
      hide Highest;
      AtLeast(v, r);
      AtMost(v, r);
    }
  }

  // ---------- the logarithm ----------

  lemma FirstLogs(v: bv64, r: int)
    requires Highest(v, r) && 0 <= r < 16
    ensures Log(v) == r
  {
    hide Highest, Top, Smear, Entry, Hash;
    FirstSmears(v);
    Tops();
    FirstEntries();
  }

  lemma SecondLogs(v: bv64, r: int)
    requires Highest(v, r) && 16 <= r < 32
    ensures Log(v) == r
  {
    hide Highest, Top, Smear, Entry, Hash;
    SecondSmears(v);
    Tops();
    SecondEntries();
  }

  lemma ThirdLogs(v: bv64, r: int)
    requires Highest(v, r) && 32 <= r < 48
    ensures Log(v) == r
  {
    hide Highest, Top, Smear, Entry, Hash;
    ThirdSmears(v);
    Tops();
    ThirdEntries();
  }

  lemma FourthLogs(v: bv64, r: int)
    requires Highest(v, r) && 48 <= r < 64
    ensures Log(v) == r
  {
    hide Highest, Top, Smear, Entry, Hash;
    FourthSmears(v);
    Tops();
    FourthEntries();
  }

  lemma LogOfHighest(v: bv64, r: int)
    requires Highest(v, r)
    ensures Log(v) == r
  {
    hide Log;
    if r < 16 {
      FirstLogs(v, r);
    } else if r < 32 {
      SecondLogs(v, r);
    } else if r < 48 {
      ThirdLogs(v, r);
    } else {
      FourthLogs(v, r);
    }
  }

  /** The highest bit of a non-zero word is at its logarithm and nowhere else. */
  lemma LogIs(v: bv64, r: int)
    requires v != 0
    ensures Highest(v, r) <==> r == Log(v)
  {
    hide Highest, Log;
    var k := Place(v);
    LogOfHighest(v, k);
    if Highest(v, r) {
      LogOfHighest(v, r);
    }
  }

  /** The logarithm of a non-zero word is the one `r` with 2^r <= v <= 2^(r+1) - 1. */
  lemma LogMeans(v: bv64, r: int)
    requires v != 0 && 0 <= r < 64
    ensures r == Log(v) <==> Power(r) <= v <= Last(r)
  {
    hide Log, Highest, Power, Last;
    LogIs(v, r);
    HighestMeans(v, r);
  }
}
