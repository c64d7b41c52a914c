/**
 Scalars modulo the group order l = 2^252 + 27742317777372353535851937790883648493, as signed limbs in
 radix 2^21. Folding a limb of weight 2^252 or more subtracts a multiple of l; carries change nothing.
 The last two folds and the floor carries between them leave the canonical remainder.
 */
module Scalar {
  import opened CInts
  import opened Bytes

  const L: int := 0x1000_0000_0000_0000_0000_0000_0000_0000_14de_f9de_a2f7_9cd6_5812_631a_5cf5_d3ed

  ghost predicate CongL(a: int, b: int) {
    (a - b) % L == 0
  }

  lemma CongLIntro(a: int, b: int, k: int)
    requires a == b + L * k
    ensures CongL(a, b)
  {
  }

  lemma CongLTrans(a: int, b: int, c: int)
    requires CongL(a, b) && CongL(b, c)
    ensures CongL(a, c)
  {
  }

  lemma Canonical(a: int, b: int)
    requires CongL(a, b) && 0 <= a < L
    ensures a == b % L
  {
  }

  /** Twelve limbs. */
  ghost function S12(x0: int, x1: int, x2: int, x3: int, x4: int, x5: int, x6: int, x7: int, x8: int, x9: int, x10: int, x11: int): int {
    x0 + 0x20_0000 * x1 + 0x400_0000_0000 * x2 +
    0x8000_0000_0000_0000 * x3 + 0x10_0000_0000_0000_0000_0000 * x4 + 0x200_0000_0000_0000_0000_0000_0000 * x5 +
    0x4000_0000_0000_0000_0000_0000_0000_0000 * x6 + 0x8_0000_0000_0000_0000_0000_0000_0000_0000_0000 * x7 + 0x100_0000_0000_0000_0000_0000_0000_0000_0000_0000_0000 * x8 +
    0x2000_0000_0000_0000_0000_0000_0000_0000_0000_0000_0000_0000 * x9 + 0x4_0000_0000_0000_0000_0000_0000_0000_0000_0000_0000_0000_0000_0000 * x10 + 0x80_0000_0000_0000_0000_0000_0000_0000_0000_0000_0000_0000_0000_0000_0000 * x11
  }

  /** Twenty-four limbs. */
  ghost function S24(x0: int, x1: int, x2: int, x3: int, x4: int, x5: int, x6: int, x7: int, x8: int, x9: int, x10: int, x11: int,
                     x12: int, x13: int, x14: int, x15: int, x16: int, x17: int, x18: int, x19: int, x20: int, x21: int, x22: int, x23: int): int {
    S12(x0, x1, x2, x3, x4, x5, x6, x7, x8, x9, x10, x11)
    + 0x1000_0000_0000_0000_0000_0000_0000_0000_0000_0000_0000_0000_0000_0000_0000_0000 * S12(x12, x13, x14, x15, x16, x17, x18, x19, x20, x21, x22, x23)
  }

  predicate Within(x: int64, b: int) {
    -b <= x as int <= b
  }

  // ---------------------------------------------------------------- carries and folds

  /** `carry = (lo + 2^20) >> 21; hi += carry; lo -= carry * 2^21`: a centred carry. */
  method Carry(lo: int64, hi: int64) returns (lo': int64, hi': int64, ghost k: int)
    requires Within(lo, 0x1000_0000_0000_0000) && Within(hi, 0x1000_0000_0000_0000)
    ensures -0x10_0000 <= lo' < 0x10_0000
    ensures lo' as int == lo as int - 0x20_0000 * k && hi' as int == hi as int + k
  {
    var carry := (lo + 0x10_0000) / 0x20_0000;
    k := carry as int;
    hi' := hi + carry;
    lo' := lo - carry * 0x20_0000;
  }

  /** `carry = lo >> 21; hi += carry; lo -= carry * 2^21`: a floor carry. */
  method FloorCarry(lo: int64, hi: int64) returns (lo': int64, hi': int64, ghost k: int)
    requires Within(lo, 0x1000_0000_0000_0000) && Within(hi, 0x1000_0000_0000_0000)
    ensures 0 <= lo' < 0x20_0000
    ensures lo' as int == lo as int - 0x20_0000 * k && hi' as int == hi as int + k
  {
    var carry := lo / 0x20_0000;
    k := carry as int;
    hi' := hi + carry;
    lo' := lo - carry * 0x20_0000;
  }

  /** Folds limb `s` into the six limbs whose weights are 2^252 to 2^147 times smaller. */
  method Fold(s: int64, a0: int64, a1: int64, a2: int64, a3: int64, a4: int64, a5: int64)
    returns (b0: int64, b1: int64, b2: int64, b3: int64, b4: int64, b5: int64)
    requires Within(s, 0x10_0000_0000)
    requires Within(a0, 0x1000_0000_0000_0000) && Within(a1, 0x1000_0000_0000_0000) && Within(a2, 0x1000_0000_0000_0000) && Within(a3, 0x1000_0000_0000_0000) && Within(a4, 0x1000_0000_0000_0000) && Within(a5, 0x1000_0000_0000_0000)
    ensures b0 as int == a0 as int + 666643 * s as int
    ensures b1 as int == a1 as int + 470296 * s as int
    ensures b2 as int == a2 as int + 654183 * s as int
    ensures b3 as int == a3 as int - 997805 * s as int
    ensures b4 as int == a4 as int + 136657 * s as int
    ensures b5 as int == a5 as int - 683901 * s as int
  {
    b0 := a0 + s * 666643;
    b1 := a1 + s * 470296;
    b2 := a2 + s * 654183;
    b3 := a3 - s * 997805;
    b4 := a4 + s * 136657;
    b5 := a5 - s * 683901;
  }

  /** Folds limbs 23 to 18. */
  method FoldHigh(a0: int64, a1: int64, a2: int64, a3: int64, a4: int64, a5: int64, a6: int64, a7: int64, a8: int64, a9: int64, a10: int64, a11: int64,
                  a12: int64, a13: int64, a14: int64, a15: int64, a16: int64, a17: int64, a18: int64, a19: int64, a20: int64, a21: int64, a22: int64, a23: int64)
    returns (s6: int64, s7: int64, s8: int64, s9: int64, s10: int64, s11: int64, s12: int64, s13: int64, s14: int64, s15: int64, s16: int64, s17: int64)
    requires Within(a0, 0x1000_0000) && Within(a1, 0x1000_0000) && Within(a2, 0x1000_0000) && Within(a3, 0x1000_0000) && Within(a4, 0x1000_0000) && Within(a5, 0x1000_0000)
    requires Within(a6, 0x1000_0000) && Within(a7, 0x1000_0000) && Within(a8, 0x1000_0000) && Within(a9, 0x1000_0000) && Within(a10, 0x1000_0000) && Within(a11, 0x1000_0000)
    requires Within(a12, 0x1000_0000) && Within(a13, 0x1000_0000) && Within(a14, 0x1000_0000) && Within(a15, 0x1000_0000) && Within(a16, 0x1000_0000) && Within(a17, 0x1000_0000)
    requires Within(a18, 0x1000_0000) && Within(a19, 0x1000_0000) && Within(a20, 0x1000_0000) && Within(a21, 0x1000_0000) && Within(a22, 0x1000_0000)
    requires Within(a23, 0x2000_0000)
    ensures Within(s6, 0x8_0000_0000_0000) && Within(s7, 0x8_0000_0000_0000) && Within(s8, 0x8_0000_0000_0000) && Within(s9, 0x8_0000_0000_0000) && Within(s10, 0x8_0000_0000_0000) && Within(s11, 0x8_0000_0000_0000)
    ensures Within(s12, 0x8_0000_0000_0000) && Within(s13, 0x8_0000_0000_0000) && Within(s14, 0x8_0000_0000_0000) && Within(s15, 0x8_0000_0000_0000) && Within(s16, 0x8_0000_0000_0000)
    ensures Within(s17, 0x1000_0000)
    ensures CongL(S24(a0 as int, a1 as int, a2 as int, a3 as int, a4 as int, a5 as int, s6 as int, s7 as int, s8 as int, s9 as int, s10 as int, s11 as int,
        s12 as int, s13 as int, s14 as int, s15 as int, s16 as int, s17 as int, 0, 0, 0, 0, 0, 0),
      S24(a0 as int, a1 as int, a2 as int, a3 as int, a4 as int, a5 as int, a6 as int, a7 as int, a8 as int, a9 as int, a10 as int, a11 as int,
        a12 as int, a13 as int, a14 as int, a15 as int, a16 as int, a17 as int, a18 as int, a19 as int, a20 as int, a21 as int, a22 as int, a23 as int))
  {
    hide S12, S24, CongL;
    s6, s7, s8, s9, s10, s11, s12, s13, s14, s15, s16, s17 := a6, a7, a8, a9, a10, a11, a12, a13, a14, a15, a16, a17;
    s11, s12, s13, s14, s15, s16 := Fold(a23, s11, s12, s13, s14, s15, s16);
    s10, s11, s12, s13, s14, s15 := Fold(a22, s10, s11, s12, s13, s14, s15);
    s9, s10, s11, s12, s13, s14 := Fold(a21, s9, s10, s11, s12, s13, s14);
    s8, s9, s10, s11, s12, s13 := Fold(a20, s8, s9, s10, s11, s12, s13);
    s7, s8, s9, s10, s11, s12 := Fold(a19, s7, s8, s9, s10, s11, s12);
    s6, s7, s8, s9, s10, s11 := Fold(a18, s6, s7, s8, s9, s10, s11);
    FoldHighValue(a0 as int, a1 as int, a2 as int, a3 as int, a4 as int, a5 as int, a6 as int, a7 as int, a8 as int, a9 as int, a10 as int, a11 as int,
                  a12 as int, a13 as int, a14 as int, a15 as int, a16 as int, a17 as int, a18 as int, a19 as int, a20 as int, a21 as int, a22 as int, a23 as int,
                  s6 as int, s7 as int, s8 as int, s9 as int, s10 as int, s11 as int, s12 as int, s13 as int, s14 as int, s15 as int, s16 as int, s17 as int);
  }

  lemma FoldHighValue(a0: int, a1: int, a2: int, a3: int, a4: int, a5: int, a6: int, a7: int, a8: int, a9: int, a10: int, a11: int,
                      a12: int, a13: int, a14: int, a15: int, a16: int, a17: int, a18: int, a19: int, a20: int, a21: int, a22: int, a23: int,
        s6: int, s7: int, s8: int, s9: int, s10: int, s11: int, s12: int, s13: int, s14: int, s15: int, s16: int, s17: int)
    requires s6 == a6 + 666643 * a18
    requires s7 == a7 + 666643 * a19 + 470296 * a18
    requires s8 == a8 + 666643 * a20 + 470296 * a19 + 654183 * a18
    requires s9 == a9 + 666643 * a21 + 470296 * a20 + 654183 * a19 - 997805 * a18
    requires s10 == a10 + 666643 * a22 + 470296 * a21 + 654183 * a20 - 997805 * a19 + 136657 * a18
    requires s11 == a11 + 666643 * a23 + 470296 * a22 + 654183 * a21 - 997805 * a20 + 136657 * a19 - 683901 * a18
    requires s12 == a12 + 470296 * a23 + 654183 * a22 - 997805 * a21 + 136657 * a20 - 683901 * a19
    requires s13 == a13 + 654183 * a23 - 997805 * a22 + 136657 * a21 - 683901 * a20
    requires s14 == a14 - 997805 * a23 + 136657 * a22 - 683901 * a21
    requires s15 == a15 + 136657 * a23 - 683901 * a22
    requires s16 == a16 - 683901 * a23
    requires s17 == a17
    ensures CongL(S24(a0, a1, a2, a3, a4, a5, s6, s7, s8, s9, s10, s11,
        s12, s13, s14, s15, s16, s17, 0, 0, 0, 0, 0, 0),
      S24(a0, a1, a2, a3, a4, a5, a6, a7, a8, a9, a10, a11,
        a12, a13, a14, a15, a16, a17, a18, a19, a20, a21, a22, a23))
  {
    CongLIntro(S24(a0, a1, a2, a3, a4, a5, s6, s7, s8, s9, s10, s11,
        s12, s13, s14, s15, s16, s17, 0, 0, 0, 0, 0, 0),
      S24(a0, a1, a2, a3, a4, a5, a6, a7, a8, a9, a10, a11,
        a12, a13, a14, a15, a16, a17, a18, a19, a20, a21, a22, a23),
      -(0x4000_0000_0000_0000_0000_0000_0000_0000 * a18 + 0x8_0000_0000_0000_0000_0000_0000_0000_0000_0000 * a19 + 0x100_0000_0000_0000_0000_0000_0000_0000_0000_0000_0000 * a20 +
        0x2000_0000_0000_0000_0000_0000_0000_0000_0000_0000_0000_0000 * a21 + 0x4_0000_0000_0000_0000_0000_0000_0000_0000_0000_0000_0000_0000_0000 * a22 + 0x80_0000_0000_0000_0000_0000_0000_0000_0000_0000_0000_0000_0000_0000_0000 * a23));
  }

  /** Centred carries out of limbs 6, 8, .., 16 and then 7, 9, .., 15; limbs `r0` to `r5` are not touched. */
  method CarryHigh(ghost r0: int, ghost r1: int, ghost r2: int, ghost r3: int, ghost r4: int, ghost r5: int,
                   a6: int64, a7: int64, a8: int64, a9: int64, a10: int64, a11: int64, a12: int64, a13: int64, a14: int64, a15: int64, a16: int64, a17: int64)
    returns (s6: int64, s7: int64, s8: int64, s9: int64, s10: int64, s11: int64, s12: int64, s13: int64, s14: int64, s15: int64, s16: int64, s17: int64)
    requires Within(a6, 0x8_0000_0000_0000) && Within(a7, 0x8_0000_0000_0000) && Within(a8, 0x8_0000_0000_0000) && Within(a9, 0x8_0000_0000_0000) && Within(a10, 0x8_0000_0000_0000) && Within(a11, 0x8_0000_0000_0000)
    requires Within(a12, 0x8_0000_0000_0000) && Within(a13, 0x8_0000_0000_0000) && Within(a14, 0x8_0000_0000_0000) && Within(a15, 0x8_0000_0000_0000) && Within(a16, 0x8_0000_0000_0000)
    requires Within(a17, 0x1000_0000)
    ensures Within(s6, 0x8000_0000) && Within(s7, 0x8000_0000) && Within(s8, 0x8000_0000) && Within(s9, 0x8000_0000) && Within(s10, 0x8000_0000) && Within(s11, 0x8000_0000)
    ensures Within(s12, 0x8000_0000) && Within(s13, 0x8000_0000) && Within(s14, 0x8000_0000) && Within(s15, 0x8000_0000) && Within(s16, 0x8000_0000) && Within(s17, 0x8000_0000)
    ensures S24(r0, r1, r2, r3, r4, r5, s6 as int, s7 as int, s8 as int, s9 as int, s10 as int, s11 as int,
        s12 as int, s13 as int, s14 as int, s15 as int, s16 as int, s17 as int, 0, 0, 0, 0, 0, 0) ==
      S24(r0, r1, r2, r3, r4, r5, a6 as int, a7 as int, a8 as int, a9 as int, a10 as int, a11 as int,
        a12 as int, a13 as int, a14 as int, a15 as int, a16 as int, a17 as int, 0, 0, 0, 0, 0, 0)
  {
    hide S24;
    s6, s7, s8, s9, s10, s11, s12, s13, s14, s15, s16, s17 := a6, a7, a8, a9, a10, a11, a12, a13, a14, a15, a16, a17;
    ghost var k6, k7, k8, k9, k10, k11, k12, k13, k14, k15, k16;
    s6, s7, k6 := Carry(s6, s7);
    s8, s9, k8 := Carry(s8, s9);
    s10, s11, k10 := Carry(s10, s11);
    s12, s13, k12 := Carry(s12, s13);
    s14, s15, k14 := Carry(s14, s15);
    s16, s17, k16 := Carry(s16, s17);

    s7, s8, k7 := Carry(s7, s8);
    s9, s10, k9 := Carry(s9, s10);
    s11, s12, k11 := Carry(s11, s12);
    s13, s14, k13 := Carry(s13, s14);
    s15, s16, k15 := Carry(s15, s16);
    CarryHighValue(r0, r1, r2, r3, r4, r5,
      a6 as int, a7 as int, a8 as int, a9 as int, a10 as int, a11 as int, a12 as int, a13 as int, a14 as int, a15 as int, a16 as int, a17 as int,
      s6 as int, s7 as int, s8 as int, s9 as int, s10 as int, s11 as int, s12 as int, s13 as int, s14 as int, s15 as int, s16 as int, s17 as int,
      k6, k7, k8, k9, k10, k11, k12, k13, k14, k15, k16);
  }

  lemma CarryHighValue(r0: int, r1: int, r2: int, r3: int, r4: int, r5: int,
                       a6: int, a7: int, a8: int, a9: int, a10: int, a11: int, a12: int, a13: int, a14: int, a15: int, a16: int, a17: int,
                       s6: int, s7: int, s8: int, s9: int, s10: int, s11: int, s12: int, s13: int, s14: int, s15: int, s16: int, s17: int,
                       k6: int, k7: int, k8: int, k9: int, k10: int, k11: int, k12: int, k13: int, k14: int, k15: int, k16: int)
    requires s6 == a6 - 0x20_0000 * k6
    requires s7 == a7 - 0x20_0000 * k7 + k6
    requires s8 == a8 - 0x20_0000 * k8 + k7
    requires s9 == a9 - 0x20_0000 * k9 + k8
    requires s10 == a10 - 0x20_0000 * k10 + k9
    requires s11 == a11 - 0x20_0000 * k11 + k10
    requires s12 == a12 - 0x20_0000 * k12 + k11
    requires s13 == a13 - 0x20_0000 * k13 + k12
    requires s14 == a14 - 0x20_0000 * k14 + k13
    requires s15 == a15 - 0x20_0000 * k15 + k14
    requires s16 == a16 - 0x20_0000 * k16 + k15
    requires s17 == a17 + k16
    ensures S24(r0, r1, r2, r3, r4, r5, s6, s7, s8, s9, s10, s11,
        s12, s13, s14, s15, s16, s17, 0, 0, 0, 0, 0, 0) ==
      S24(r0, r1, r2, r3, r4, r5, a6, a7, a8, a9, a10, a11,
        a12, a13, a14, a15, a16, a17, 0, 0, 0, 0, 0, 0)
  {
  }

  /** Folds limbs 17 to 12. */
  method FoldMiddle(a0: int64, a1: int64, a2: int64, a3: int64, a4: int64, a5: int64, a6: int64, a7: int64, a8: int64, a9: int64, a10: int64, a11: int64,
                    a12: int64, a13: int64, a14: int64, a15: int64, a16: int64, a17: int64)
    returns (s0: int64, s1: int64, s2: int64, s3: int64, s4: int64, s5: int64, s6: int64, s7: int64, s8: int64, s9: int64, s10: int64, s11: int64)
    requires Within(a0, 0x1000_0000) && Within(a1, 0x1000_0000) && Within(a2, 0x1000_0000) && Within(a3, 0x1000_0000) && Within(a4, 0x1000_0000) && Within(a5, 0x1000_0000)
    requires Within(a6, 0x8000_0000) && Within(a7, 0x8000_0000) && Within(a8, 0x8000_0000) && Within(a9, 0x8000_0000) && Within(a10, 0x8000_0000) && Within(a11, 0x8000_0000)
    requires Within(a12, 0x8000_0000) && Within(a13, 0x8000_0000) && Within(a14, 0x8000_0000) && Within(a15, 0x8000_0000) && Within(a16, 0x8000_0000) && Within(a17, 0x8000_0000)
    ensures Within(s0, 0x80_0000_0000_0000) && Within(s1, 0x80_0000_0000_0000) && Within(s2, 0x80_0000_0000_0000) && Within(s3, 0x80_0000_0000_0000) && Within(s4, 0x80_0000_0000_0000) && Within(s5, 0x80_0000_0000_0000)
    ensures Within(s6, 0x80_0000_0000_0000) && Within(s7, 0x80_0000_0000_0000) && Within(s8, 0x80_0000_0000_0000) && Within(s9, 0x80_0000_0000_0000) && Within(s10, 0x80_0000_0000_0000) && Within(s11, 0x80_0000_0000_0000)
    ensures CongL(S12(s0 as int, s1 as int, s2 as int, s3 as int, s4 as int, s5 as int, s6 as int, s7 as int, s8 as int, s9 as int, s10 as int, s11 as int),
      S24(a0 as int, a1 as int, a2 as int, a3 as int, a4 as int, a5 as int, a6 as int, a7 as int, a8 as int, a9 as int, a10 as int, a11 as int,
        a12 as int, a13 as int, a14 as int, a15 as int, a16 as int, a17 as int, 0, 0, 0, 0, 0, 0))
  {
    hide S12, S24, CongL;
    s0, s1, s2, s3, s4, s5, s6, s7, s8, s9, s10, s11 := a0, a1, a2, a3, a4, a5, a6, a7, a8, a9, a10, a11;
    s5, s6, s7, s8, s9, s10 := Fold(a17, s5, s6, s7, s8, s9, s10);
    s4, s5, s6, s7, s8, s9 := Fold(a16, s4, s5, s6, s7, s8, s9);
    s3, s4, s5, s6, s7, s8 := Fold(a15, s3, s4, s5, s6, s7, s8);
    s2, s3, s4, s5, s6, s7 := Fold(a14, s2, s3, s4, s5, s6, s7);
    s1, s2, s3, s4, s5, s6 := Fold(a13, s1, s2, s3, s4, s5, s6);
    s0, s1, s2, s3, s4, s5 := Fold(a12, s0, s1, s2, s3, s4, s5);
    FoldMiddleValue(a0 as int, a1 as int, a2 as int, a3 as int, a4 as int, a5 as int, a6 as int, a7 as int, a8 as int, a9 as int, a10 as int, a11 as int,
                    a12 as int, a13 as int, a14 as int, a15 as int, a16 as int, a17 as int, 0, 0, 0, 0, 0, 0,
                    s0 as int, s1 as int, s2 as int, s3 as int, s4 as int, s5 as int, s6 as int, s7 as int, s8 as int, s9 as int, s10 as int, s11 as int);
  }

  lemma FoldMiddleValue(a0: int, a1: int, a2: int, a3: int, a4: int, a5: int, a6: int, a7: int, a8: int, a9: int, a10: int, a11: int,
                        a12: int, a13: int, a14: int, a15: int, a16: int, a17: int, a18: int, a19: int, a20: int, a21: int, a22: int, a23: int,
        s0: int, s1: int, s2: int, s3: int, s4: int, s5: int, s6: int, s7: int, s8: int, s9: int, s10: int, s11: int)
    requires s0 == a0 + 666643 * a12
    requires s1 == a1 + 666643 * a13 + 470296 * a12
    requires s2 == a2 + 666643 * a14 + 470296 * a13 + 654183 * a12
    requires s3 == a3 + 666643 * a15 + 470296 * a14 + 654183 * a13 - 997805 * a12
    requires s4 == a4 + 666643 * a16 + 470296 * a15 + 654183 * a14 - 997805 * a13 + 136657 * a12
    requires s5 == a5 + 666643 * a17 + 470296 * a16 + 654183 * a15 - 997805 * a14 + 136657 * a13 - 683901 * a12
    requires s6 == a6 + 470296 * a17 + 654183 * a16 - 997805 * a15 + 136657 * a14 - 683901 * a13
    requires s7 == a7 + 654183 * a17 - 997805 * a16 + 136657 * a15 - 683901 * a14
    requires s8 == a8 - 997805 * a17 + 136657 * a16 - 683901 * a15
    requires s9 == a9 + 136657 * a17 - 683901 * a16
    requires s10 == a10 - 683901 * a17
    requires s11 == a11
    requires a18 == 0 && a19 == 0 && a20 == 0 && a21 == 0 && a22 == 0 && a23 == 0
    ensures CongL(S12(s0, s1, s2, s3, s4, s5, s6, s7, s8, s9, s10, s11),
      S24(a0, a1, a2, a3, a4, a5, a6, a7, a8, a9, a10, a11,
        a12, a13, a14, a15, a16, a17, a18, a19, a20, a21, a22, a23))
  {
    CongLIntro(S12(s0, s1, s2, s3, s4, s5, s6, s7, s8, s9, s10, s11),
      S24(a0, a1, a2, a3, a4, a5, a6, a7, a8, a9, a10, a11,
        a12, a13, a14, a15, a16, a17, a18, a19, a20, a21, a22, a23),
      -(a12 + 0x20_0000 * a13 + 0x400_0000_0000 * a14 +
        0x8000_0000_0000_0000 * a15 + 0x10_0000_0000_0000_0000_0000 * a16 + 0x200_0000_0000_0000_0000_0000_0000 * a17));
  }

  /** Centred carries out of limbs 0, 2, .., 10 and then 1, 3, .., 11. */
  method CarryLow(a0: int64, a1: int64, a2: int64, a3: int64, a4: int64, a5: int64, a6: int64, a7: int64, a8: int64, a9: int64, a10: int64, a11: int64)
    returns (s0: int64, s1: int64, s2: int64, s3: int64, s4: int64, s5: int64, s6: int64, s7: int64, s8: int64, s9: int64, s10: int64, s11: int64, s12: int64)
    requires Within(a0, 0x80_0000_0000_0000) && Within(a1, 0x80_0000_0000_0000) && Within(a2, 0x80_0000_0000_0000) && Within(a3, 0x80_0000_0000_0000) && Within(a4, 0x80_0000_0000_0000) && Within(a5, 0x80_0000_0000_0000)
    requires Within(a6, 0x80_0000_0000_0000) && Within(a7, 0x80_0000_0000_0000) && Within(a8, 0x80_0000_0000_0000) && Within(a9, 0x80_0000_0000_0000) && Within(a10, 0x80_0000_0000_0000) && Within(a11, 0x80_0000_0000_0000)
    ensures Within(s1, 0x10_0000) && Within(s3, 0x10_0000) && Within(s5, 0x10_0000) && Within(s7, 0x10_0000) && Within(s9, 0x10_0000) && Within(s11, 0x10_0000)
    ensures Within(s0, 0x8_0000_0000) && Within(s2, 0x8_0000_0000) && Within(s4, 0x8_0000_0000) && Within(s6, 0x8_0000_0000) && Within(s8, 0x8_0000_0000) && Within(s10, 0x8_0000_0000)
    ensures Within(s12, 0x8_0000_0000)
    ensures S12(s0 as int, s1 as int, s2 as int, s3 as int, s4 as int, s5 as int, s6 as int, s7 as int, s8 as int, s9 as int, s10 as int, s11 as int)
            + 0x1000_0000_0000_0000_0000_0000_0000_0000_0000_0000_0000_0000_0000_0000_0000_0000 * s12 as int == S12(a0 as int, a1 as int, a2 as int, a3 as int, a4 as int, a5 as int, a6 as int, a7 as int, a8 as int, a9 as int, a10 as int, a11 as int)
  {
    hide S12;
    s0, s1, s2, s3, s4, s5, s6, s7, s8, s9, s10, s11 := a0, a1, a2, a3, a4, a5, a6, a7, a8, a9, a10, a11;
    s12 := 0;
    ghost var k0, k1, k2, k3, k4, k5, k6, k7, k8, k9, k10, k11;
    s0, s1, k0 := Carry(s0, s1);
    s2, s3, k2 := Carry(s2, s3);
    s4, s5, k4 := Carry(s4, s5);
    s6, s7, k6 := Carry(s6, s7);
    s8, s9, k8 := Carry(s8, s9);
    s10, s11, k10 := Carry(s10, s11);

    s1, s2, k1 := Carry(s1, s2);
    s3, s4, k3 := Carry(s3, s4);
    s5, s6, k5 := Carry(s5, s6);
    s7, s8, k7 := Carry(s7, s8);
    s9, s10, k9 := Carry(s9, s10);
    s11, s12, k11 := Carry(s11, s12);
    CarryLowValue(a0 as int, a1 as int, a2 as int, a3 as int, a4 as int, a5 as int, a6 as int, a7 as int, a8 as int, a9 as int, a10 as int, a11 as int,
      s0 as int, s1 as int, s2 as int, s3 as int, s4 as int, s5 as int, s6 as int, s7 as int, s8 as int, s9 as int, s10 as int, s11 as int, s12 as int,
      k0, k1, k2, k3, k4, k5, k6, k7, k8, k9, k10, k11);
  }

  lemma CarryLowValue(a0: int, a1: int, a2: int, a3: int, a4: int, a5: int, a6: int, a7: int, a8: int, a9: int, a10: int, a11: int,
                      s0: int, s1: int, s2: int, s3: int, s4: int, s5: int, s6: int, s7: int, s8: int, s9: int, s10: int, s11: int, s12: int,
                      k0: int, k1: int, k2: int, k3: int, k4: int, k5: int, k6: int, k7: int, k8: int, k9: int, k10: int, k11: int)
    requires s0 == a0 - 0x20_0000 * k0
    requires s1 == a1 - 0x20_0000 * k1 + k0
    requires s2 == a2 - 0x20_0000 * k2 + k1
    requires s3 == a3 - 0x20_0000 * k3 + k2
    requires s4 == a4 - 0x20_0000 * k4 + k3
    requires s5 == a5 - 0x20_0000 * k5 + k4
    requires s6 == a6 - 0x20_0000 * k6 + k5
    requires s7 == a7 - 0x20_0000 * k7 + k6
    requires s8 == a8 - 0x20_0000 * k8 + k7
    requires s9 == a9 - 0x20_0000 * k9 + k8
    requires s10 == a10 - 0x20_0000 * k10 + k9
    requires s11 == a11 - 0x20_0000 * k11 + k10
    requires s12 == k11
    ensures S12(s0, s1, s2, s3, s4, s5, s6, s7, s8, s9, s10, s11) + 0x1000_0000_0000_0000_0000_0000_0000_0000_0000_0000_0000_0000_0000_0000_0000_0000 * s12 == S12(a0, a1, a2, a3, a4, a5, a6, a7, a8, a9, a10, a11)
  {
  }

  /** Folds limb 12 into limbs 0 to 5. */
  method FoldLast(a0: int64, a1: int64, a2: int64, a3: int64, a4: int64, a5: int64, ghost r6: int, ghost r7: int, ghost r8: int, ghost r9: int, ghost r10: int, ghost r11: int, s12: int64)
    returns (s0: int64, s1: int64, s2: int64, s3: int64, s4: int64, s5: int64)
    requires Within(s12, 0x10_0000_0000)
    requires Within(a0, 0x1000_0000_0000_0000) && Within(a1, 0x1000_0000_0000_0000) && Within(a2, 0x1000_0000_0000_0000) && Within(a3, 0x1000_0000_0000_0000) && Within(a4, 0x1000_0000_0000_0000) && Within(a5, 0x1000_0000_0000_0000)
    ensures 666643 * -0x10_0000_0000 <= s0 as int - a0 as int <= 666643 * 0x10_0000_0000 && 470296 * -0x10_0000_0000 <= s1 as int - a1 as int <= 470296 * 0x10_0000_0000 && 654183 * -0x10_0000_0000 <= s2 as int - a2 as int <= 654183 * 0x10_0000_0000
    ensures 997805 * -0x10_0000_0000 <= s3 as int - a3 as int <= 997805 * 0x10_0000_0000 && 136657 * -0x10_0000_0000 <= s4 as int - a4 as int <= 136657 * 0x10_0000_0000 && 683901 * -0x10_0000_0000 <= s5 as int - a5 as int <= 683901 * 0x10_0000_0000
    ensures S12(s0 as int, s1 as int, s2 as int, s3 as int, s4 as int, s5 as int, r6, r7, r8, r9, r10, r11) ==
      S12(a0 as int, a1 as int, a2 as int, a3 as int, a4 as int, a5 as int, r6, r7, r8, r9, r10, r11) + (0x1000_0000_0000_0000_0000_0000_0000_0000_0000_0000_0000_0000_0000_0000_0000_0000 - L) * s12 as int
  {
    hide S12;
    s0, s1, s2, s3, s4, s5 := Fold(s12, a0, a1, a2, a3, a4, a5);
    FoldLastValue(a0 as int, a1 as int, a2 as int, a3 as int, a4 as int, a5 as int, r6, r7, r8, r9, r10, r11, s12 as int,
                  s0 as int, s1 as int, s2 as int, s3 as int, s4 as int, s5 as int);
  }

  lemma FoldLastValue(a0: int, a1: int, a2: int, a3: int, a4: int, a5: int, r6: int, r7: int, r8: int, r9: int, r10: int, r11: int, a12: int,
                      s0: int, s1: int, s2: int, s3: int, s4: int, s5: int)
    requires s0 == a0 + 666643 * a12
    requires s1 == a1 + 470296 * a12
    requires s2 == a2 + 654183 * a12
    requires s3 == a3 - 997805 * a12
    requires s4 == a4 + 136657 * a12
    requires s5 == a5 - 683901 * a12
    ensures S12(s0, s1, s2, s3, s4, s5, r6, r7, r8, r9, r10, r11) ==
      S12(a0, a1, a2, a3, a4, a5, r6, r7, r8, r9, r10, r11) + (0x1000_0000_0000_0000_0000_0000_0000_0000_0000_0000_0000_0000_0000_0000_0000_0000 - L) * a12
  {
  }

  /** Floor carries through limbs 0 to 11: what leaves limb 11 is the floor of the value by 2^252. */
  method FloorPass(a0: int64, a1: int64, a2: int64, a3: int64, a4: int64, a5: int64, a6: int64, a7: int64, a8: int64, a9: int64, a10: int64, a11: int64)
    returns (s0: int64, s1: int64, s2: int64, s3: int64, s4: int64, s5: int64, s6: int64, s7: int64, s8: int64, s9: int64, s10: int64, s11: int64, s12: int64)
    requires Within(a0, 0x800_0000_0000_0000) && Within(a1, 0x800_0000_0000_0000) && Within(a2, 0x800_0000_0000_0000) && Within(a3, 0x800_0000_0000_0000) && Within(a4, 0x800_0000_0000_0000) && Within(a5, 0x800_0000_0000_0000)
    requires Within(a6, 0x800_0000_0000_0000) && Within(a7, 0x800_0000_0000_0000) && Within(a8, 0x800_0000_0000_0000) && Within(a9, 0x800_0000_0000_0000) && Within(a10, 0x800_0000_0000_0000) && Within(a11, 0x800_0000_0000_0000)
    ensures 0 <= s0 < 0x20_0000 && 0 <= s1 < 0x20_0000 && 0 <= s2 < 0x20_0000 && 0 <= s3 < 0x20_0000 && 0 <= s4 < 0x20_0000 && 0 <= s5 < 0x20_0000
    ensures 0 <= s6 < 0x20_0000 && 0 <= s7 < 0x20_0000 && 0 <= s8 < 0x20_0000 && 0 <= s9 < 0x20_0000 && 0 <= s10 < 0x20_0000 && 0 <= s11 < 0x20_0000
    ensures Within(s12, 0x80_0000_0000)
    ensures S12(s0 as int, s1 as int, s2 as int, s3 as int, s4 as int, s5 as int, s6 as int, s7 as int, s8 as int, s9 as int, s10 as int, s11 as int)
            + 0x1000_0000_0000_0000_0000_0000_0000_0000_0000_0000_0000_0000_0000_0000_0000_0000 * s12 as int == S12(a0 as int, a1 as int, a2 as int, a3 as int, a4 as int, a5 as int, a6 as int, a7 as int, a8 as int, a9 as int, a10 as int, a11 as int)
    ensures 0 <= S12(s0 as int, s1 as int, s2 as int, s3 as int, s4 as int, s5 as int, s6 as int, s7 as int, s8 as int, s9 as int, s10 as int, s11 as int)
      < 0x1000_0000_0000_0000_0000_0000_0000_0000_0000_0000_0000_0000_0000_0000_0000_0000
  {
    hide S12;
    s0, s1, s2, s3, s4, s5, s6, s7, s8, s9, s10, s11 := a0, a1, a2, a3, a4, a5, a6, a7, a8, a9, a10, a11;
    s12 := 0;
    ghost var k0, k1, k2, k3, k4, k5, k6, k7, k8, k9, k10, k11;
    s0, s1, k0 := FloorCarry(s0, s1);
    s1, s2, k1 := FloorCarry(s1, s2);
    s2, s3, k2 := FloorCarry(s2, s3);
    s3, s4, k3 := FloorCarry(s3, s4);
    s4, s5, k4 := FloorCarry(s4, s5);
    s5, s6, k5 := FloorCarry(s5, s6);
    s6, s7, k6 := FloorCarry(s6, s7);
    s7, s8, k7 := FloorCarry(s7, s8);
    s8, s9, k8 := FloorCarry(s8, s9);
    s9, s10, k9 := FloorCarry(s9, s10);
    s10, s11, k10 := FloorCarry(s10, s11);
    s11, s12, k11 := FloorCarry(s11, s12);
    CarryLowValue(a0 as int, a1 as int, a2 as int, a3 as int, a4 as int, a5 as int, a6 as int, a7 as int, a8 as int, a9 as int, a10 as int, a11 as int,
      s0 as int, s1 as int, s2 as int, s3 as int, s4 as int, s5 as int, s6 as int, s7 as int, s8 as int, s9 as int, s10 as int, s11 as int, s12 as int,
      k0, k1, k2, k3, k4, k5, k6, k7, k8, k9, k10, k11);
    Digits(s0 as int, s1 as int, s2 as int, s3 as int, s4 as int, s5 as int, s6 as int, s7 as int, s8 as int, s9 as int, s10 as int, s11 as int);
  }

  lemma Digits(s0: int, s1: int, s2: int, s3: int, s4: int, s5: int, s6: int, s7: int, s8: int, s9: int, s10: int, s11: int)
    requires 0 <= s0 < 0x20_0000 && 0 <= s1 < 0x20_0000 && 0 <= s2 < 0x20_0000 && 0 <= s3 < 0x20_0000 && 0 <= s4 < 0x20_0000 && 0 <= s5 < 0x20_0000
    requires 0 <= s6 < 0x20_0000 && 0 <= s7 < 0x20_0000 && 0 <= s8 < 0x20_0000 && 0 <= s9 < 0x20_0000 && 0 <= s10 < 0x20_0000 && 0 <= s11 < 0x20_0000
    ensures 0 <= S12(s0, s1, s2, s3, s4, s5, s6, s7, s8, s9, s10, s11) < 0x1000_0000_0000_0000_0000_0000_0000_0000_0000_0000_0000_0000_0000_0000_0000_0000
  {
  }

  /** Floor carries through limbs 0 to 10, leaving the rest in limb 11. */
  method LastPass(a0: int64, a1: int64, a2: int64, a3: int64, a4: int64, a5: int64, a6: int64, a7: int64, a8: int64, a9: int64, a10: int64, a11: int64)
    returns (s0: int64, s1: int64, s2: int64, s3: int64, s4: int64, s5: int64, s6: int64, s7: int64, s8: int64, s9: int64, s10: int64, s11: int64)
    requires Within(a0, 0x800_0000_0000_0000) && Within(a1, 0x800_0000_0000_0000) && Within(a2, 0x800_0000_0000_0000) && Within(a3, 0x800_0000_0000_0000) && Within(a4, 0x800_0000_0000_0000) && Within(a5, 0x800_0000_0000_0000)
    requires Within(a6, 0x800_0000_0000_0000) && Within(a7, 0x800_0000_0000_0000) && Within(a8, 0x800_0000_0000_0000) && Within(a9, 0x800_0000_0000_0000) && Within(a10, 0x800_0000_0000_0000) && Within(a11, 0x800_0000_0000_0000)
    requires 0 <= S12(a0 as int, a1 as int, a2 as int, a3 as int, a4 as int, a5 as int, a6 as int, a7 as int, a8 as int, a9 as int, a10 as int, a11 as int) < L
    ensures 0 <= s0 < 0x20_0000 && 0 <= s1 < 0x20_0000 && 0 <= s2 < 0x20_0000 && 0 <= s3 < 0x20_0000 && 0 <= s4 < 0x20_0000 && 0 <= s5 < 0x20_0000
    ensures 0 <= s6 < 0x20_0000 && 0 <= s7 < 0x20_0000 && 0 <= s8 < 0x20_0000 && 0 <= s9 < 0x20_0000 && 0 <= s10 < 0x20_0000 && 0 <= s11 <= 0x20_0000
    ensures S12(s0 as int, s1 as int, s2 as int, s3 as int, s4 as int, s5 as int, s6 as int, s7 as int, s8 as int, s9 as int, s10 as int, s11 as int) == S12(a0 as int, a1 as int, a2 as int, a3 as int, a4 as int, a5 as int, a6 as int, a7 as int, a8 as int, a9 as int, a10 as int, a11 as int)
  {
    hide S12;
    s0, s1, s2, s3, s4, s5, s6, s7, s8, s9, s10, s11 := a0, a1, a2, a3, a4, a5, a6, a7, a8, a9, a10, a11;
    ghost var k0, k1, k2, k3, k4, k5, k6, k7, k8, k9, k10;
    s0, s1, k0 := FloorCarry(s0, s1);
    s1, s2, k1 := FloorCarry(s1, s2);
    s2, s3, k2 := FloorCarry(s2, s3);
    s3, s4, k3 := FloorCarry(s3, s4);
    s4, s5, k4 := FloorCarry(s4, s5);
    s5, s6, k5 := FloorCarry(s5, s6);
    s6, s7, k6 := FloorCarry(s6, s7);
    s7, s8, k7 := FloorCarry(s7, s8);
    s8, s9, k8 := FloorCarry(s8, s9);
    s9, s10, k9 := FloorCarry(s9, s10);
    s10, s11, k10 := FloorCarry(s10, s11);
    CarryLowValue(a0 as int, a1 as int, a2 as int, a3 as int, a4 as int, a5 as int, a6 as int, a7 as int, a8 as int, a9 as int, a10 as int, a11 as int,
      s0 as int, s1 as int, s2 as int, s3 as int, s4 as int, s5 as int, s6 as int, s7 as int, s8 as int, s9 as int, s10 as int, s11 as int, 0,
      k0, k1, k2, k3, k4, k5, k6, k7, k8, k9, k10, 0);
    TopLimb(s0 as int, s1 as int, s2 as int, s3 as int, s4 as int, s5 as int, s6 as int, s7 as int, s8 as int, s9 as int, s10 as int, s11 as int);
  }

  lemma TopLimb(s0: int, s1: int, s2: int, s3: int, s4: int, s5: int, s6: int, s7: int, s8: int, s9: int, s10: int, s11: int)
    requires 0 <= s0 < 0x20_0000 && 0 <= s1 < 0x20_0000 && 0 <= s2 < 0x20_0000 && 0 <= s3 < 0x20_0000 && 0 <= s4 < 0x20_0000 && 0 <= s5 < 0x20_0000
    requires 0 <= s6 < 0x20_0000 && 0 <= s7 < 0x20_0000 && 0 <= s8 < 0x20_0000 && 0 <= s9 < 0x20_0000 && 0 <= s10 < 0x20_0000
    requires 0 <= S12(s0, s1, s2, s3, s4, s5, s6, s7, s8, s9, s10, s11) < L
    ensures 0 <= s11 <= 0x20_0000
  {
    BelowTop(s0, s1, s2, s3, s4, s5, s6, s7, s8, s9, s10);
  }

  lemma BelowTop(s0: int, s1: int, s2: int, s3: int, s4: int, s5: int, s6: int, s7: int, s8: int, s9: int, s10: int)
    requires 0 <= s0 < 0x20_0000 && 0 <= s1 < 0x20_0000 && 0 <= s2 < 0x20_0000 && 0 <= s3 < 0x20_0000 && 0 <= s4 < 0x20_0000 && 0 <= s5 < 0x20_0000
    requires 0 <= s6 < 0x20_0000 && 0 <= s7 < 0x20_0000 && 0 <= s8 < 0x20_0000 && 0 <= s9 < 0x20_0000 && 0 <= s10 < 0x20_0000
    ensures 0 <= S12(s0, s1, s2, s3, s4, s5, s6, s7, s8, s9, s10, 0) < 0x80_0000_0000_0000_0000_0000_0000_0000_0000_0000_0000_0000_0000_0000_0000
  {
  }

  /**
   The tail that `x25519_sc_reduce` and `sc_muladd` share: from twenty-four limbs to the canonical twelve.
   After the centred pass the value has magnitude below 2^252, so the floor pass leaves a limb 12 that is
   0 or -1, and folding it adds 0 or l.
   */
  method ReduceLimbs(a0: int64, a1: int64, a2: int64, a3: int64, a4: int64, a5: int64, a6: int64, a7: int64, a8: int64, a9: int64, a10: int64, a11: int64,
                     a12: int64, a13: int64, a14: int64, a15: int64, a16: int64, a17: int64, a18: int64, a19: int64, a20: int64, a21: int64, a22: int64, a23: int64)
    returns (s0: int64, s1: int64, s2: int64, s3: int64, s4: int64, s5: int64, s6: int64, s7: int64, s8: int64, s9: int64, s10: int64, s11: int64)
    requires Within(a0, 0x1000_0000) && Within(a1, 0x1000_0000) && Within(a2, 0x1000_0000) && Within(a3, 0x1000_0000) && Within(a4, 0x1000_0000) && Within(a5, 0x1000_0000)
    requires Within(a6, 0x1000_0000) && Within(a7, 0x1000_0000) && Within(a8, 0x1000_0000) && Within(a9, 0x1000_0000) && Within(a10, 0x1000_0000) && Within(a11, 0x1000_0000)
    requires Within(a12, 0x1000_0000) && Within(a13, 0x1000_0000) && Within(a14, 0x1000_0000) && Within(a15, 0x1000_0000) && Within(a16, 0x1000_0000) && Within(a17, 0x1000_0000)
    requires Within(a18, 0x1000_0000) && Within(a19, 0x1000_0000) && Within(a20, 0x1000_0000) && Within(a21, 0x1000_0000) && Within(a22, 0x1000_0000)
    requires Within(a23, 0x2000_0000)
    ensures 0 <= s0 < 0x20_0000 && 0 <= s1 < 0x20_0000 && 0 <= s2 < 0x20_0000 && 0 <= s3 < 0x20_0000 && 0 <= s4 < 0x20_0000 && 0 <= s5 < 0x20_0000
    ensures 0 <= s6 < 0x20_0000 && 0 <= s7 < 0x20_0000 && 0 <= s8 < 0x20_0000 && 0 <= s9 < 0x20_0000 && 0 <= s10 < 0x20_0000 && 0 <= s11 <= 0x20_0000
    ensures S12(s0 as int, s1 as int, s2 as int, s3 as int, s4 as int, s5 as int, s6 as int, s7 as int, s8 as int, s9 as int, s10 as int, s11 as int) ==
      S24(a0 as int, a1 as int, a2 as int, a3 as int, a4 as int, a5 as int, a6 as int, a7 as int, a8 as int, a9 as int, a10 as int, a11 as int,
        a12 as int, a13 as int, a14 as int, a15 as int, a16 as int, a17 as int, a18 as int, a19 as int, a20 as int, a21 as int, a22 as int, a23 as int) % L
  {
    hide S12, S24, CongL;
    var b6, b7, b8, b9, b10, b11, b12, b13, b14, b15, b16, b17 :=
      FoldHigh(a0, a1, a2, a3, a4, a5, a6, a7, a8, a9, a10, a11,
               a12, a13, a14, a15, a16, a17, a18, a19, a20, a21, a22, a23);
    ghost var v1 := S24(a0 as int, a1 as int, a2 as int, a3 as int, a4 as int, a5 as int, b6 as int, b7 as int, b8 as int, b9 as int, b10 as int, b11 as int,
        b12 as int, b13 as int, b14 as int, b15 as int, b16 as int, b17 as int, 0, 0, 0, 0, 0, 0);
    b6, b7, b8, b9, b10, b11, b12, b13, b14, b15, b16, b17 :=
      CarryHigh(a0 as int, a1 as int, a2 as int, a3 as int, a4 as int, a5 as int,
                b6, b7, b8, b9, b10, b11, b12, b13, b14, b15, b16, b17);
    var c0, c1, c2, c3, c4, c5, c6, c7, c8, c9, c10, c11 :=
      FoldMiddle(a0, a1, a2, a3, a4, a5, b6, b7, b8, b9, b10, b11, b12, b13, b14, b15, b16, b17);
    ghost var v2 := S12(c0 as int, c1 as int, c2 as int, c3 as int, c4 as int, c5 as int, c6 as int, c7 as int, c8 as int, c9 as int, c10 as int, c11 as int);
    CongLTrans(v2, v1, S24(a0 as int, a1 as int, a2 as int, a3 as int, a4 as int, a5 as int, a6 as int, a7 as int, a8 as int, a9 as int, a10 as int, a11 as int,
        a12 as int, a13 as int, a14 as int, a15 as int, a16 as int, a17 as int, a18 as int, a19 as int, a20 as int, a21 as int, a22 as int, a23 as int));
    s0, s1, s2, s3, s4, s5, s6, s7, s8, s9, s10, s11 := ReduceTwelve(c0, c1, c2, c3, c4, c5, c6, c7, c8, c9, c10, c11);
    CongLTrans(S12(s0 as int, s1 as int, s2 as int, s3 as int, s4 as int, s5 as int, s6 as int, s7 as int, s8 as int, s9 as int, s10 as int, s11 as int), v2,
               S24(a0 as int, a1 as int, a2 as int, a3 as int, a4 as int, a5 as int, a6 as int, a7 as int, a8 as int, a9 as int, a10 as int, a11 as int,
        a12 as int, a13 as int, a14 as int, a15 as int, a16 as int, a17 as int, a18 as int, a19 as int, a20 as int, a21 as int, a22 as int, a23 as int));
    Canonical(S12(s0 as int, s1 as int, s2 as int, s3 as int, s4 as int, s5 as int, s6 as int, s7 as int, s8 as int, s9 as int, s10 as int, s11 as int),
              S24(a0 as int, a1 as int, a2 as int, a3 as int, a4 as int, a5 as int, a6 as int, a7 as int, a8 as int, a9 as int, a10 as int, a11 as int,
        a12 as int, a13 as int, a14 as int, a15 as int, a16 as int, a17 as int, a18 as int, a19 as int, a20 as int, a21 as int, a22 as int, a23 as int));
  }

  /** From twelve wide limbs to the canonical twelve. */
  method ReduceTwelve(a0: int64, a1: int64, a2: int64, a3: int64, a4: int64, a5: int64, a6: int64, a7: int64, a8: int64, a9: int64, a10: int64, a11: int64)
    returns (s0: int64, s1: int64, s2: int64, s3: int64, s4: int64, s5: int64, s6: int64, s7: int64, s8: int64, s9: int64, s10: int64, s11: int64)
    requires Within(a0, 0x80_0000_0000_0000) && Within(a1, 0x80_0000_0000_0000) && Within(a2, 0x80_0000_0000_0000) && Within(a3, 0x80_0000_0000_0000) && Within(a4, 0x80_0000_0000_0000) && Within(a5, 0x80_0000_0000_0000)
    requires Within(a6, 0x80_0000_0000_0000) && Within(a7, 0x80_0000_0000_0000) && Within(a8, 0x80_0000_0000_0000) && Within(a9, 0x80_0000_0000_0000) && Within(a10, 0x80_0000_0000_0000) && Within(a11, 0x80_0000_0000_0000)
    ensures 0 <= s0 < 0x20_0000 && 0 <= s1 < 0x20_0000 && 0 <= s2 < 0x20_0000 && 0 <= s3 < 0x20_0000 && 0 <= s4 < 0x20_0000 && 0 <= s5 < 0x20_0000
    ensures 0 <= s6 < 0x20_0000 && 0 <= s7 < 0x20_0000 && 0 <= s8 < 0x20_0000 && 0 <= s9 < 0x20_0000 && 0 <= s10 < 0x20_0000 && 0 <= s11 <= 0x20_0000
    ensures 0 <= S12(s0 as int, s1 as int, s2 as int, s3 as int, s4 as int, s5 as int, s6 as int, s7 as int, s8 as int, s9 as int, s10 as int, s11 as int) < L
    ensures CongL(S12(s0 as int, s1 as int, s2 as int, s3 as int, s4 as int, s5 as int, s6 as int, s7 as int, s8 as int, s9 as int, s10 as int, s11 as int),
                  S12(a0 as int, a1 as int, a2 as int, a3 as int, a4 as int, a5 as int, a6 as int, a7 as int, a8 as int, a9 as int, a10 as int, a11 as int))
  {
    hide S12, CongL;
    ghost var v := S12(a0 as int, a1 as int, a2 as int, a3 as int, a4 as int, a5 as int, a6 as int, a7 as int, a8 as int, a9 as int, a10 as int, a11 as int);
    var s12;
    s0, s1, s2, s3, s4, s5, s6, s7, s8, s9, s10, s11, s12 := CarryLow(a0, a1, a2, a3, a4, a5, a6, a7, a8, a9, a10, a11);
    ghost var t := s12 as int;
    AfterCentredPass(s0 as int, s1 as int, s2 as int, s3 as int, s4 as int, s5 as int, s6 as int, s7 as int, s8 as int, s9 as int, s10 as int, s11 as int, t);
    s0, s1, s2, s3, s4, s5 := FoldLast(s0, s1, s2, s3, s4, s5, s6 as int, s7 as int, s8 as int, s9 as int, s10 as int, s11 as int, s12);
    s0, s1, s2, s3, s4, s5, s6, s7, s8, s9, s10, s11, s12 := FloorPass(s0, s1, s2, s3, s4, s5, s6, s7, s8, s9, s10, s11);
    ghost var w, u := S12(s0 as int, s1 as int, s2 as int, s3 as int, s4 as int, s5 as int, s6 as int, s7 as int, s8 as int, s9 as int, s10 as int, s11 as int), s12 as int;
    LastFold(v, t, v - L * t, w, u);
    s0, s1, s2, s3, s4, s5 := FoldLast(s0, s1, s2, s3, s4, s5, s6 as int, s7 as int, s8 as int, s9 as int, s10 as int, s11 as int, s12);
    s0, s1, s2, s3, s4, s5, s6, s7, s8, s9, s10, s11 := LastPass(s0, s1, s2, s3, s4, s5, s6, s7, s8, s9, s10, s11);
  }

  /** The centred limbs, after folding limb 12, are worth less than 2^252 in magnitude. */
  lemma AfterCentredPass(s0: int, s1: int, s2: int, s3: int, s4: int, s5: int, s6: int, s7: int, s8: int, s9: int, s10: int, s11: int, t: int)
    requires -0x10_0000 <= s1 <= 0x10_0000 && -0x10_0000 <= s3 <= 0x10_0000 && -0x10_0000 <= s5 <= 0x10_0000 && -0x10_0000 <= s7 <= 0x10_0000 && -0x10_0000 <= s9 <= 0x10_0000 && -0x10_0000 <= s11 <= 0x10_0000
    requires -0x8_0000_0000 <= s0 <= 0x8_0000_0000 && -0x8_0000_0000 <= s2 <= 0x8_0000_0000 && -0x8_0000_0000 <= s4 <= 0x8_0000_0000
    requires -0x8_0000_0000 <= s6 <= 0x8_0000_0000 && -0x8_0000_0000 <= s8 <= 0x8_0000_0000 && -0x8_0000_0000 <= s10 <= 0x8_0000_0000
    requires -0x8_0000_0000 <= t <= 0x8_0000_0000
    ensures -0x1000_0000_0000_0000_0000_0000_0000_0000_0000_0000_0000_0000_0000_0000_0000_0000
      <= S12(s0, s1, s2, s3, s4, s5, s6, s7, s8, s9, s10, s11) + (0x1000_0000_0000_0000_0000_0000_0000_0000_0000_0000_0000_0000_0000_0000_0000_0000 - L) * t
      < 0x1000_0000_0000_0000_0000_0000_0000_0000_0000_0000_0000_0000_0000_0000_0000_0000
  {
  }

  /**
   The tight end of the argument. `x` is the value after the first fold of limb 12, `w + 2^252 u` the same
   value after the floor pass: `u` is 0 or -1, and the second fold lands in [0, l).
   */
  lemma LastFold(v: int, t: int, x: int, w: int, u: int)
    requires x == v - L * t
    requires -0x1000_0000_0000_0000_0000_0000_0000_0000_0000_0000_0000_0000_0000_0000_0000_0000 <= x < 0x1000_0000_0000_0000_0000_0000_0000_0000_0000_0000_0000_0000_0000_0000_0000_0000
    requires w + 0x1000_0000_0000_0000_0000_0000_0000_0000_0000_0000_0000_0000_0000_0000_0000_0000 * u == x
    requires 0 <= w < 0x1000_0000_0000_0000_0000_0000_0000_0000_0000_0000_0000_0000_0000_0000_0000_0000
    ensures u == 0 || u == -1
    ensures 0 <= w + (0x1000_0000_0000_0000_0000_0000_0000_0000_0000_0000_0000_0000_0000_0000_0000_0000 - L) * u < L
    ensures CongL(w + (0x1000_0000_0000_0000_0000_0000_0000_0000_0000_0000_0000_0000_0000_0000_0000_0000 - L) * u, v)
  {
    CongLIntro(w + (0x1000_0000_0000_0000_0000_0000_0000_0000_0000_0000_0000_0000_0000_0000_0000_0000 - L) * u, v, -t - u);
  }
}
