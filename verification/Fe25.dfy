/**
 Field elements as ten signed limbs in radix 2^25.5: limb i has weight 2^ceil(25.5 i). The bounds that
 the C comments give in units of 2^26 (even limbs) and 2^25 (odd limbs) are counted in 1/200 of a unit,
 so that 1.65*2^26, 1.65*2^25 is 330 and 1.01*2^25, 1.01*2^24 is 101.
 */
module Fe25 {
  import opened CInts
  import opened Bytes
  import opened Field
  import opened Products

  ghost function V10(h0: int, h1: int, h2: int, h3: int, h4: int, h5: int, h6: int, h7: int, h8: int, h9: int): int {
    h0 + 0x400_0000 * h1 + 0x8_0000_0000_0000 * h2 + 0x2000_0000_0000_0000_0000 * h3 + 0x40_0000_0000_0000_0000_0000_0000 * h4 +
    0x1_0000_0000_0000_0000_0000_0000_0000_0000 * h5 + 0x200_0000_0000_0000_0000_0000_0000_0000_0000_0000 * h6 + 0x8_0000_0000_0000_0000_0000_0000_0000_0000_0000_0000_0000 * h7 + 0x1000_0000_0000_0000_0000_0000_0000_0000_0000_0000_0000_0000_0000 * h8 + 0x40_0000_0000_0000_0000_0000_0000_0000_0000_0000_0000_0000_0000_0000_0000 * h9
  }

  /** The integer a limb vector stands for. */
  ghost function Val(h: seq<int32>): int
    requires |h| == 10
  {
    V10(h[0] as int, h[1] as int, h[2] as int, h[3] as int, h[4] as int,
        h[5] as int, h[6] as int, h[7] as int, h[8] as int, h[9] as int)
  }

  predicate EvenLimit(x: int, c: int) {
    -c * 0x400_0000 <= 200 * x <= c * 0x400_0000
  }

  predicate OddLimit(x: int, c: int) {
    -c * 0x200_0000 <= 200 * x <= c * 0x200_0000
  }

  /** Every limb is at most c/200 * 2^26 (even limbs) or c/200 * 2^25 (odd limbs) in magnitude. */
  predicate Limit(h: seq<int32>, c: int) {
    && |h| == 10
    && EvenLimit(h[0] as int, c) && OddLimit(h[1] as int, c) && EvenLimit(h[2] as int, c) && OddLimit(h[3] as int, c) && EvenLimit(h[4] as int, c)
    && OddLimit(h[5] as int, c) && EvenLimit(h[6] as int, c) && OddLimit(h[7] as int, c) && EvenLimit(h[8] as int, c) && OddLimit(h[9] as int, c)
  }

  const PRODUCT := 330    // what fe_mul and fe_sq accept: 1.65*2^26, 1.65*2^25
  const REDUCED := 101    // what they return: 1.01*2^25, 1.01*2^24

  lemma LimitMonotone(h: seq<int32>, c: int, d: int)
    requires Limit(h, c) && c <= d
    ensures Limit(h, d)
  {
  }

  // ---------------------------------------------------------------- products

  lemma Row(x: int, g0: int, g1: int, g2: int, g3: int, g4: int, g5: int, g6: int, g7: int, g8: int, g9: int)
    ensures x * V10(g0, g1, g2, g3, g4, g5, g6, g7, g8, g9)
      == Times(x, g0) + 0x400_0000 * Times(x, g1) + 0x8_0000_0000_0000 * Times(x, g2) + 0x2000_0000_0000_0000_0000 * Times(x, g3) + 0x40_0000_0000_0000_0000_0000_0000 * Times(x, g4) +
         0x1_0000_0000_0000_0000_0000_0000_0000_0000 * Times(x, g5) + 0x200_0000_0000_0000_0000_0000_0000_0000_0000_0000 * Times(x, g6) + 0x8_0000_0000_0000_0000_0000_0000_0000_0000_0000_0000_0000 * Times(x, g7) + 0x1000_0000_0000_0000_0000_0000_0000_0000_0000_0000_0000_0000_0000 * Times(x, g8) + 0x40_0000_0000_0000_0000_0000_0000_0000_0000_0000_0000_0000_0000_0000_0000 * Times(x, g9)
  {
  }

  /** Half of the rows of a product: the limbs f0..f4 times all of g. */
  lemma LowRows(f0: int, f1: int, f2: int, f3: int, f4: int, g0: int, g1: int, g2: int, g3: int, g4: int, g5: int, g6: int, g7: int, g8: int, g9: int,
                c0: int, c1: int, c2: int, c3: int, c4: int, c5: int, c6: int, c7: int, c8: int, c9: int,
                c10: int, c11: int, c12: int, c13: int)
    requires c0 == Times(f0, g0)
    requires c1 == Times(f0, g1) + Times(f1, g0)
    requires c2 == Times(f0, g2) + 2 * Times(f1, g1) + Times(f2, g0)
    requires c3 == Times(f0, g3) + Times(f1, g2) + Times(f2, g1) + Times(f3, g0)
    requires c4 == Times(f0, g4) + 2 * Times(f1, g3) + Times(f2, g2) + 2 * Times(f3, g1) + Times(f4, g0)
    requires c5 == Times(f0, g5) + Times(f1, g4) + Times(f2, g3) + Times(f3, g2) + Times(f4, g1)
    requires c6 == Times(f0, g6) + 2 * Times(f1, g5) + Times(f2, g4) + 2 * Times(f3, g3) + Times(f4, g2)
    requires c7 == Times(f0, g7) + Times(f1, g6) + Times(f2, g5) + Times(f3, g4) + Times(f4, g3)
    requires c8 == Times(f0, g8) + 2 * Times(f1, g7) + Times(f2, g6) + 2 * Times(f3, g5) + Times(f4, g4)
    requires c9 == Times(f0, g9) + Times(f1, g8) + Times(f2, g7) + Times(f3, g6) + Times(f4, g5)
    requires c10 == 2 * Times(f1, g9) + Times(f2, g8) + 2 * Times(f3, g7) + Times(f4, g6)
    requires c11 == Times(f2, g9) + Times(f3, g8) + Times(f4, g7)
    requires c12 == 2 * Times(f3, g9) + Times(f4, g8)
    requires c13 == Times(f4, g9)
    ensures Times(f0, V10(g0, g1, g2, g3, g4, g5, g6, g7, g8, g9)) + 0x400_0000 * Times(f1, V10(g0, g1, g2, g3, g4, g5, g6, g7, g8, g9)) +
            0x8_0000_0000_0000 * Times(f2, V10(g0, g1, g2, g3, g4, g5, g6, g7, g8, g9)) + 0x2000_0000_0000_0000_0000 * Times(f3, V10(g0, g1, g2, g3, g4, g5, g6, g7, g8, g9)) +
            0x40_0000_0000_0000_0000_0000_0000 * Times(f4, V10(g0, g1, g2, g3, g4, g5, g6, g7, g8, g9))
      == c0 + 0x400_0000 * c1 + 0x8_0000_0000_0000 * c2 + 0x2000_0000_0000_0000_0000 * c3 +
         0x40_0000_0000_0000_0000_0000_0000 * c4 + 0x1_0000_0000_0000_0000_0000_0000_0000_0000 * c5 + 0x200_0000_0000_0000_0000_0000_0000_0000_0000_0000 * c6 + 0x8_0000_0000_0000_0000_0000_0000_0000_0000_0000_0000_0000 * c7 +
         0x1000_0000_0000_0000_0000_0000_0000_0000_0000_0000_0000_0000_0000 * c8 + 0x40_0000_0000_0000_0000_0000_0000_0000_0000_0000_0000_0000_0000_0000_0000 * c9 + 0x8000_0000_0000_0000_0000_0000_0000_0000_0000_0000_0000_0000_0000_0000_0000_0000 * c10 + 0x200_0000_0000_0000_0000_0000_0000_0000_0000_0000_0000_0000_0000_0000_0000_0000_0000_0000 * c11 +
         0x4_0000_0000_0000_0000_0000_0000_0000_0000_0000_0000_0000_0000_0000_0000_0000_0000_0000_0000_0000 * c12 + 0x1000_0000_0000_0000_0000_0000_0000_0000_0000_0000_0000_0000_0000_0000_0000_0000_0000_0000_0000_0000_0000 * c13
  {
    hide Times;
    var y := V10(g0, g1, g2, g3, g4, g5, g6, g7, g8, g9);
    Row(f0, g0, g1, g2, g3, g4, g5, g6, g7, g8, g9);
    Row(f1, g0, g1, g2, g3, g4, g5, g6, g7, g8, g9);
    Row(f2, g0, g1, g2, g3, g4, g5, g6, g7, g8, g9);
    Row(f3, g0, g1, g2, g3, g4, g5, g6, g7, g8, g9);
    Row(f4, g0, g1, g2, g3, g4, g5, g6, g7, g8, g9);
    TimesIsProduct(f0, y); TimesIsProduct(f1, y); TimesIsProduct(f2, y); TimesIsProduct(f3, y); TimesIsProduct(f4, y);
  }

  lemma HighRows(f5: int, f6: int, f7: int, f8: int, f9: int, g0: int, g1: int, g2: int, g3: int, g4: int, g5: int, g6: int, g7: int, g8: int, g9: int,
                 c5: int, c6: int, c7: int, c8: int, c9: int, c10: int, c11: int, c12: int, c13: int, c14: int,
                 c15: int, c16: int, c17: int, c18: int)
    requires c5 == Times(f5, g0)
    requires c6 == 2 * Times(f5, g1) + Times(f6, g0)
    requires c7 == Times(f5, g2) + Times(f6, g1) + Times(f7, g0)
    requires c8 == 2 * Times(f5, g3) + Times(f6, g2) + 2 * Times(f7, g1) + Times(f8, g0)
    requires c9 == Times(f5, g4) + Times(f6, g3) + Times(f7, g2) + Times(f8, g1) + Times(f9, g0)
    requires c10 == 2 * Times(f5, g5) + Times(f6, g4) + 2 * Times(f7, g3) + Times(f8, g2) + 2 * Times(f9, g1)
    requires c11 == Times(f5, g6) + Times(f6, g5) + Times(f7, g4) + Times(f8, g3) + Times(f9, g2)
    requires c12 == 2 * Times(f5, g7) + Times(f6, g6) + 2 * Times(f7, g5) + Times(f8, g4) + 2 * Times(f9, g3)
    requires c13 == Times(f5, g8) + Times(f6, g7) + Times(f7, g6) + Times(f8, g5) + Times(f9, g4)
    requires c14 == 2 * Times(f5, g9) + Times(f6, g8) + 2 * Times(f7, g7) + Times(f8, g6) + 2 * Times(f9, g5)
    requires c15 == Times(f6, g9) + Times(f7, g8) + Times(f8, g7) + Times(f9, g6)
    requires c16 == 2 * Times(f7, g9) + Times(f8, g8) + 2 * Times(f9, g7)
    requires c17 == Times(f8, g9) + Times(f9, g8)
    requires c18 == 2 * Times(f9, g9)
    ensures 0x1_0000_0000_0000_0000_0000_0000_0000_0000 * Times(f5, V10(g0, g1, g2, g3, g4, g5, g6, g7, g8, g9)) + 0x200_0000_0000_0000_0000_0000_0000_0000_0000_0000 * Times(f6, V10(g0, g1, g2, g3, g4, g5, g6, g7, g8, g9)) +
            0x8_0000_0000_0000_0000_0000_0000_0000_0000_0000_0000_0000 * Times(f7, V10(g0, g1, g2, g3, g4, g5, g6, g7, g8, g9)) + 0x1000_0000_0000_0000_0000_0000_0000_0000_0000_0000_0000_0000_0000 * Times(f8, V10(g0, g1, g2, g3, g4, g5, g6, g7, g8, g9)) +
            0x40_0000_0000_0000_0000_0000_0000_0000_0000_0000_0000_0000_0000_0000_0000 * Times(f9, V10(g0, g1, g2, g3, g4, g5, g6, g7, g8, g9))
      == 0x1_0000_0000_0000_0000_0000_0000_0000_0000 * c5 + 0x200_0000_0000_0000_0000_0000_0000_0000_0000_0000 * c6 + 0x8_0000_0000_0000_0000_0000_0000_0000_0000_0000_0000_0000 * c7 + 0x1000_0000_0000_0000_0000_0000_0000_0000_0000_0000_0000_0000_0000 * c8 +
         0x40_0000_0000_0000_0000_0000_0000_0000_0000_0000_0000_0000_0000_0000_0000 * c9 + 0x8000_0000_0000_0000_0000_0000_0000_0000_0000_0000_0000_0000_0000_0000_0000_0000 * c10 + 0x200_0000_0000_0000_0000_0000_0000_0000_0000_0000_0000_0000_0000_0000_0000_0000_0000_0000 * c11 + 0x4_0000_0000_0000_0000_0000_0000_0000_0000_0000_0000_0000_0000_0000_0000_0000_0000_0000_0000_0000 * c12 +
         0x1000_0000_0000_0000_0000_0000_0000_0000_0000_0000_0000_0000_0000_0000_0000_0000_0000_0000_0000_0000_0000 * c13 + 0x20_0000_0000_0000_0000_0000_0000_0000_0000_0000_0000_0000_0000_0000_0000_0000_0000_0000_0000_0000_0000_0000_0000 * c14 + 0x8000_0000_0000_0000_0000_0000_0000_0000_0000_0000_0000_0000_0000_0000_0000_0000_0000_0000_0000_0000_0000_0000_0000_0000 * c15 + 0x100_0000_0000_0000_0000_0000_0000_0000_0000_0000_0000_0000_0000_0000_0000_0000_0000_0000_0000_0000_0000_0000_0000_0000_0000_0000 * c16 +
         0x4_0000_0000_0000_0000_0000_0000_0000_0000_0000_0000_0000_0000_0000_0000_0000_0000_0000_0000_0000_0000_0000_0000_0000_0000_0000_0000_0000 * c17 + 0x800_0000_0000_0000_0000_0000_0000_0000_0000_0000_0000_0000_0000_0000_0000_0000_0000_0000_0000_0000_0000_0000_0000_0000_0000_0000_0000_0000_0000 * c18
  {
    hide Times;
    var y := V10(g0, g1, g2, g3, g4, g5, g6, g7, g8, g9);
    Row(f5, g0, g1, g2, g3, g4, g5, g6, g7, g8, g9);
    Row(f6, g0, g1, g2, g3, g4, g5, g6, g7, g8, g9);
    Row(f7, g0, g1, g2, g3, g4, g5, g6, g7, g8, g9);
    Row(f8, g0, g1, g2, g3, g4, g5, g6, g7, g8, g9);
    Row(f9, g0, g1, g2, g3, g4, g5, g6, g7, g8, g9);
    TimesIsProduct(f5, y); TimesIsProduct(f6, y); TimesIsProduct(f7, y); TimesIsProduct(f8, y); TimesIsProduct(f9, y);
  }

  /** The nineteen coefficients of a product; two odd limbs contribute twice their product. */
  lemma Convolution(f0: int, f1: int, f2: int, f3: int, f4: int, f5: int, f6: int, f7: int, f8: int, f9: int,
                    g0: int, g1: int, g2: int, g3: int, g4: int, g5: int, g6: int, g7: int, g8: int, g9: int,
                    c0: int, c1: int, c2: int, c3: int, c4: int, c5: int, c6: int, c7: int, c8: int, c9: int,
                    c10: int, c11: int, c12: int, c13: int, c14: int, c15: int, c16: int, c17: int, c18: int)
    requires c0 == Times(f0, g0)
    requires c1 == Times(f0, g1) + Times(f1, g0)
    requires c2 == Times(f0, g2) + 2 * Times(f1, g1) + Times(f2, g0)
    requires c3 == Times(f0, g3) + Times(f1, g2) + Times(f2, g1) + Times(f3, g0)
    requires c4 == Times(f0, g4) + 2 * Times(f1, g3) + Times(f2, g2) + 2 * Times(f3, g1) + Times(f4, g0)
    requires c5 == Times(f0, g5) + Times(f1, g4) + Times(f2, g3) + Times(f3, g2) + Times(f4, g1) +
             Times(f5, g0)
    requires c6 == Times(f0, g6) + 2 * Times(f1, g5) + Times(f2, g4) + 2 * Times(f3, g3) + Times(f4, g2) +
             2 * Times(f5, g1) + Times(f6, g0)
    requires c7 == Times(f0, g7) + Times(f1, g6) + Times(f2, g5) + Times(f3, g4) + Times(f4, g3) +
             Times(f5, g2) + Times(f6, g1) + Times(f7, g0)
    requires c8 == Times(f0, g8) + 2 * Times(f1, g7) + Times(f2, g6) + 2 * Times(f3, g5) + Times(f4, g4) +
             2 * Times(f5, g3) + Times(f6, g2) + 2 * Times(f7, g1) + Times(f8, g0)
    requires c9 == Times(f0, g9) + Times(f1, g8) + Times(f2, g7) + Times(f3, g6) + Times(f4, g5) +
             Times(f5, g4) + Times(f6, g3) + Times(f7, g2) + Times(f8, g1) + Times(f9, g0)
    requires c10 == 2 * Times(f1, g9) + Times(f2, g8) + 2 * Times(f3, g7) + Times(f4, g6) + 2 * Times(f5, g5) +
             Times(f6, g4) + 2 * Times(f7, g3) + Times(f8, g2) + 2 * Times(f9, g1)
    requires c11 == Times(f2, g9) + Times(f3, g8) + Times(f4, g7) + Times(f5, g6) + Times(f6, g5) +
             Times(f7, g4) + Times(f8, g3) + Times(f9, g2)
    requires c12 == 2 * Times(f3, g9) + Times(f4, g8) + 2 * Times(f5, g7) + Times(f6, g6) + 2 * Times(f7, g5) +
             Times(f8, g4) + 2 * Times(f9, g3)
    requires c13 == Times(f4, g9) + Times(f5, g8) + Times(f6, g7) + Times(f7, g6) + Times(f8, g5) +
             Times(f9, g4)
    requires c14 == 2 * Times(f5, g9) + Times(f6, g8) + 2 * Times(f7, g7) + Times(f8, g6) + 2 * Times(f9, g5)
    requires c15 == Times(f6, g9) + Times(f7, g8) + Times(f8, g7) + Times(f9, g6)
    requires c16 == 2 * Times(f7, g9) + Times(f8, g8) + 2 * Times(f9, g7)
    requires c17 == Times(f8, g9) + Times(f9, g8)
    requires c18 == 2 * Times(f9, g9)
    ensures V10(f0, f1, f2, f3, f4, f5, f6, f7, f8, f9) * V10(g0, g1, g2, g3, g4, g5, g6, g7, g8, g9)
      == c0 + 0x400_0000 * c1 + 0x8_0000_0000_0000 * c2 +
         0x2000_0000_0000_0000_0000 * c3 + 0x40_0000_0000_0000_0000_0000_0000 * c4 + 0x1_0000_0000_0000_0000_0000_0000_0000_0000 * c5 +
         0x200_0000_0000_0000_0000_0000_0000_0000_0000_0000 * c6 + 0x8_0000_0000_0000_0000_0000_0000_0000_0000_0000_0000_0000 * c7 + 0x1000_0000_0000_0000_0000_0000_0000_0000_0000_0000_0000_0000_0000 * c8 +
         0x40_0000_0000_0000_0000_0000_0000_0000_0000_0000_0000_0000_0000_0000_0000 * c9 + 0x8000_0000_0000_0000_0000_0000_0000_0000_0000_0000_0000_0000_0000_0000_0000_0000 * c10 + 0x200_0000_0000_0000_0000_0000_0000_0000_0000_0000_0000_0000_0000_0000_0000_0000_0000_0000 * c11 +
         0x4_0000_0000_0000_0000_0000_0000_0000_0000_0000_0000_0000_0000_0000_0000_0000_0000_0000_0000_0000 * c12 + 0x1000_0000_0000_0000_0000_0000_0000_0000_0000_0000_0000_0000_0000_0000_0000_0000_0000_0000_0000_0000_0000 * c13 + 0x20_0000_0000_0000_0000_0000_0000_0000_0000_0000_0000_0000_0000_0000_0000_0000_0000_0000_0000_0000_0000_0000_0000 * c14 +
         0x8000_0000_0000_0000_0000_0000_0000_0000_0000_0000_0000_0000_0000_0000_0000_0000_0000_0000_0000_0000_0000_0000_0000_0000 * c15 + 0x100_0000_0000_0000_0000_0000_0000_0000_0000_0000_0000_0000_0000_0000_0000_0000_0000_0000_0000_0000_0000_0000_0000_0000_0000_0000 * c16 + 0x4_0000_0000_0000_0000_0000_0000_0000_0000_0000_0000_0000_0000_0000_0000_0000_0000_0000_0000_0000_0000_0000_0000_0000_0000_0000_0000_0000 * c17 +
         0x800_0000_0000_0000_0000_0000_0000_0000_0000_0000_0000_0000_0000_0000_0000_0000_0000_0000_0000_0000_0000_0000_0000_0000_0000_0000_0000_0000_0000 * c18
  {
    hide Times;
    LowRows(f0, f1, f2, f3, f4, g0, g1, g2, g3, g4, g5, g6, g7, g8, g9,
            Times(f0, g0),
            Times(f0, g1) + Times(f1, g0),
            Times(f0, g2) + 2 * Times(f1, g1) + Times(f2, g0),
            Times(f0, g3) + Times(f1, g2) + Times(f2, g1) + Times(f3, g0),
            Times(f0, g4) + 2 * Times(f1, g3) + Times(f2, g2) + 2 * Times(f3, g1) + Times(f4, g0),
            Times(f0, g5) + Times(f1, g4) + Times(f2, g3) + Times(f3, g2) + Times(f4, g1),
            Times(f0, g6) + 2 * Times(f1, g5) + Times(f2, g4) + 2 * Times(f3, g3) + Times(f4, g2),
            Times(f0, g7) + Times(f1, g6) + Times(f2, g5) + Times(f3, g4) + Times(f4, g3),
            Times(f0, g8) + 2 * Times(f1, g7) + Times(f2, g6) + 2 * Times(f3, g5) + Times(f4, g4),
            Times(f0, g9) + Times(f1, g8) + Times(f2, g7) + Times(f3, g6) + Times(f4, g5),
            2 * Times(f1, g9) + Times(f2, g8) + 2 * Times(f3, g7) + Times(f4, g6),
            Times(f2, g9) + Times(f3, g8) + Times(f4, g7),
            2 * Times(f3, g9) + Times(f4, g8),
            Times(f4, g9));
    HighRows(f5, f6, f7, f8, f9, g0, g1, g2, g3, g4, g5, g6, g7, g8, g9,
             Times(f5, g0),
             2 * Times(f5, g1) + Times(f6, g0),
             Times(f5, g2) + Times(f6, g1) + Times(f7, g0),
             2 * Times(f5, g3) + Times(f6, g2) + 2 * Times(f7, g1) + Times(f8, g0),
             Times(f5, g4) + Times(f6, g3) + Times(f7, g2) + Times(f8, g1) + Times(f9, g0),
             2 * Times(f5, g5) + Times(f6, g4) + 2 * Times(f7, g3) + Times(f8, g2) + 2 * Times(f9, g1),
             Times(f5, g6) + Times(f6, g5) + Times(f7, g4) + Times(f8, g3) + Times(f9, g2),
             2 * Times(f5, g7) + Times(f6, g6) + 2 * Times(f7, g5) + Times(f8, g4) + 2 * Times(f9, g3),
             Times(f5, g8) + Times(f6, g7) + Times(f7, g6) + Times(f8, g5) + Times(f9, g4),
             2 * Times(f5, g9) + Times(f6, g8) + 2 * Times(f7, g7) + Times(f8, g6) + 2 * Times(f9, g5),
             Times(f6, g9) + Times(f7, g8) + Times(f8, g7) + Times(f9, g6),
             2 * Times(f7, g9) + Times(f8, g8) + 2 * Times(f9, g7),
             Times(f8, g9) + Times(f9, g8),
             2 * Times(f9, g9));
    var y := V10(g0, g1, g2, g3, g4, g5, g6, g7, g8, g9);
    Row(y, f0, f1, f2, f3, f4, f5, f6, f7, f8, f9);
    TimesIsProduct(y, f0); TimesIsProduct(y, f1); TimesIsProduct(y, f2); TimesIsProduct(y, f3); TimesIsProduct(y, f4);
    TimesIsProduct(y, f5); TimesIsProduct(y, f6); TimesIsProduct(y, f7); TimesIsProduct(y, f8); TimesIsProduct(y, f9);
  }

  /** 2^255 is congruent to 19, so the upper coefficients fold back with a factor 19. */
  lemma Wrap(c0: int, c1: int, c2: int, c3: int, c4: int, c5: int, c6: int, c7: int, c8: int, c9: int,
             c10: int, c11: int, c12: int, c13: int, c14: int, c15: int, c16: int, c17: int, c18: int)
    ensures Cong(V10(c0 + 19 * c10, c1 + 19 * c11, c2 + 19 * c12, c3 + 19 * c13, c4 + 19 * c14, c5 + 19 * c15, c6 + 19 * c16, c7 + 19 * c17, c8 + 19 * c18, c9),
                 c0 + 0x400_0000 * c1 + 0x8_0000_0000_0000 * c2 +
                 0x2000_0000_0000_0000_0000 * c3 + 0x40_0000_0000_0000_0000_0000_0000 * c4 + 0x1_0000_0000_0000_0000_0000_0000_0000_0000 * c5 +
                 0x200_0000_0000_0000_0000_0000_0000_0000_0000_0000 * c6 + 0x8_0000_0000_0000_0000_0000_0000_0000_0000_0000_0000_0000 * c7 + 0x1000_0000_0000_0000_0000_0000_0000_0000_0000_0000_0000_0000_0000 * c8 +
                 0x40_0000_0000_0000_0000_0000_0000_0000_0000_0000_0000_0000_0000_0000_0000 * c9 + 0x8000_0000_0000_0000_0000_0000_0000_0000_0000_0000_0000_0000_0000_0000_0000_0000 * c10 + 0x200_0000_0000_0000_0000_0000_0000_0000_0000_0000_0000_0000_0000_0000_0000_0000_0000_0000 * c11 +
                 0x4_0000_0000_0000_0000_0000_0000_0000_0000_0000_0000_0000_0000_0000_0000_0000_0000_0000_0000_0000 * c12 + 0x1000_0000_0000_0000_0000_0000_0000_0000_0000_0000_0000_0000_0000_0000_0000_0000_0000_0000_0000_0000_0000 * c13 + 0x20_0000_0000_0000_0000_0000_0000_0000_0000_0000_0000_0000_0000_0000_0000_0000_0000_0000_0000_0000_0000_0000_0000 * c14 +
                 0x8000_0000_0000_0000_0000_0000_0000_0000_0000_0000_0000_0000_0000_0000_0000_0000_0000_0000_0000_0000_0000_0000_0000_0000 * c15 + 0x100_0000_0000_0000_0000_0000_0000_0000_0000_0000_0000_0000_0000_0000_0000_0000_0000_0000_0000_0000_0000_0000_0000_0000_0000_0000 * c16 + 0x4_0000_0000_0000_0000_0000_0000_0000_0000_0000_0000_0000_0000_0000_0000_0000_0000_0000_0000_0000_0000_0000_0000_0000_0000_0000_0000_0000 * c17 +
                 0x800_0000_0000_0000_0000_0000_0000_0000_0000_0000_0000_0000_0000_0000_0000_0000_0000_0000_0000_0000_0000_0000_0000_0000_0000_0000_0000_0000_0000 * c18)
  {
    ModulusValue();
    CongIntro(V10(c0 + 19 * c10, c1 + 19 * c11, c2 + 19 * c12, c3 + 19 * c13, c4 + 19 * c14, c5 + 19 * c15, c6 + 19 * c16, c7 + 19 * c17, c8 + 19 * c18, c9),
              c0 + 0x400_0000 * c1 + 0x8_0000_0000_0000 * c2 +
              0x2000_0000_0000_0000_0000 * c3 + 0x40_0000_0000_0000_0000_0000_0000 * c4 + 0x1_0000_0000_0000_0000_0000_0000_0000_0000 * c5 +
              0x200_0000_0000_0000_0000_0000_0000_0000_0000_0000 * c6 + 0x8_0000_0000_0000_0000_0000_0000_0000_0000_0000_0000_0000 * c7 + 0x1000_0000_0000_0000_0000_0000_0000_0000_0000_0000_0000_0000_0000 * c8 +
              0x40_0000_0000_0000_0000_0000_0000_0000_0000_0000_0000_0000_0000_0000_0000 * c9 + 0x8000_0000_0000_0000_0000_0000_0000_0000_0000_0000_0000_0000_0000_0000_0000_0000 * c10 + 0x200_0000_0000_0000_0000_0000_0000_0000_0000_0000_0000_0000_0000_0000_0000_0000_0000_0000 * c11 +
              0x4_0000_0000_0000_0000_0000_0000_0000_0000_0000_0000_0000_0000_0000_0000_0000_0000_0000_0000_0000 * c12 + 0x1000_0000_0000_0000_0000_0000_0000_0000_0000_0000_0000_0000_0000_0000_0000_0000_0000_0000_0000_0000_0000 * c13 + 0x20_0000_0000_0000_0000_0000_0000_0000_0000_0000_0000_0000_0000_0000_0000_0000_0000_0000_0000_0000_0000_0000_0000 * c14 +
              0x8000_0000_0000_0000_0000_0000_0000_0000_0000_0000_0000_0000_0000_0000_0000_0000_0000_0000_0000_0000_0000_0000_0000_0000 * c15 + 0x100_0000_0000_0000_0000_0000_0000_0000_0000_0000_0000_0000_0000_0000_0000_0000_0000_0000_0000_0000_0000_0000_0000_0000_0000_0000 * c16 + 0x4_0000_0000_0000_0000_0000_0000_0000_0000_0000_0000_0000_0000_0000_0000_0000_0000_0000_0000_0000_0000_0000_0000_0000_0000_0000_0000_0000 * c17 +
              0x800_0000_0000_0000_0000_0000_0000_0000_0000_0000_0000_0000_0000_0000_0000_0000_0000_0000_0000_0000_0000_0000_0000_0000_0000_0000_0000_0000_0000 * c18,
              -(c10 + 0x400_0000 * c11 + 0x8_0000_0000_0000 * c12 +
                0x2000_0000_0000_0000_0000 * c13 + 0x40_0000_0000_0000_0000_0000_0000 * c14 + 0x1_0000_0000_0000_0000_0000_0000_0000_0000 * c15 +
                0x200_0000_0000_0000_0000_0000_0000_0000_0000_0000 * c16 + 0x8_0000_0000_0000_0000_0000_0000_0000_0000_0000_0000_0000 * c17 + 0x1000_0000_0000_0000_0000_0000_0000_0000_0000_0000_0000_0000_0000 * c18));
  }

  // The ten columns of a product modulo p: column k collects the products of limbs i and j with i + j = k
  // or i + j = k + 10; the latter wrap around with a factor 19.
  ghost function Col0(f0: int, f1: int, f2: int, f3: int, f4: int, f5: int, f6: int, f7: int, f8: int, f9: int,
                     g0: int, g1: int, g2: int, g3: int, g4: int, g5: int, g6: int, g7: int, g8: int, g9: int): int {
    Times(f0, g0) + 38 * Times(f1, g9) + 19 * Times(f2, g8) + 38 * Times(f3, g7) + 19 * Times(f4, g6) +
    38 * Times(f5, g5) + 19 * Times(f6, g4) + 38 * Times(f7, g3) + 19 * Times(f8, g2) + 38 * Times(f9, g1)
  }

  ghost function Col1(f0: int, f1: int, f2: int, f3: int, f4: int, f5: int, f6: int, f7: int, f8: int, f9: int,
                     g0: int, g1: int, g2: int, g3: int, g4: int, g5: int, g6: int, g7: int, g8: int, g9: int): int {
    Times(f0, g1) + Times(f1, g0) + 19 * Times(f2, g9) + 19 * Times(f3, g8) + 19 * Times(f4, g7) +
    19 * Times(f5, g6) + 19 * Times(f6, g5) + 19 * Times(f7, g4) + 19 * Times(f8, g3) + 19 * Times(f9, g2)
  }

  ghost function Col2(f0: int, f1: int, f2: int, f3: int, f4: int, f5: int, f6: int, f7: int, f8: int, f9: int,
                     g0: int, g1: int, g2: int, g3: int, g4: int, g5: int, g6: int, g7: int, g8: int, g9: int): int {
    Times(f0, g2) + 2 * Times(f1, g1) + Times(f2, g0) + 38 * Times(f3, g9) + 19 * Times(f4, g8) +
    38 * Times(f5, g7) + 19 * Times(f6, g6) + 38 * Times(f7, g5) + 19 * Times(f8, g4) + 38 * Times(f9, g3)
  }

  ghost function Col3(f0: int, f1: int, f2: int, f3: int, f4: int, f5: int, f6: int, f7: int, f8: int, f9: int,
                     g0: int, g1: int, g2: int, g3: int, g4: int, g5: int, g6: int, g7: int, g8: int, g9: int): int {
    Times(f0, g3) + Times(f1, g2) + Times(f2, g1) + Times(f3, g0) + 19 * Times(f4, g9) +
    19 * Times(f5, g8) + 19 * Times(f6, g7) + 19 * Times(f7, g6) + 19 * Times(f8, g5) + 19 * Times(f9, g4)
  }

  ghost function Col4(f0: int, f1: int, f2: int, f3: int, f4: int, f5: int, f6: int, f7: int, f8: int, f9: int,
                     g0: int, g1: int, g2: int, g3: int, g4: int, g5: int, g6: int, g7: int, g8: int, g9: int): int {
    Times(f0, g4) + 2 * Times(f1, g3) + Times(f2, g2) + 2 * Times(f3, g1) + Times(f4, g0) +
    38 * Times(f5, g9) + 19 * Times(f6, g8) + 38 * Times(f7, g7) + 19 * Times(f8, g6) + 38 * Times(f9, g5)
  }

  ghost function Col5(f0: int, f1: int, f2: int, f3: int, f4: int, f5: int, f6: int, f7: int, f8: int, f9: int,
                     g0: int, g1: int, g2: int, g3: int, g4: int, g5: int, g6: int, g7: int, g8: int, g9: int): int {
    Times(f0, g5) + Times(f1, g4) + Times(f2, g3) + Times(f3, g2) + Times(f4, g1) +
    Times(f5, g0) + 19 * Times(f6, g9) + 19 * Times(f7, g8) + 19 * Times(f8, g7) + 19 * Times(f9, g6)
  }

  ghost function Col6(f0: int, f1: int, f2: int, f3: int, f4: int, f5: int, f6: int, f7: int, f8: int, f9: int,
                     g0: int, g1: int, g2: int, g3: int, g4: int, g5: int, g6: int, g7: int, g8: int, g9: int): int {
    Times(f0, g6) + 2 * Times(f1, g5) + Times(f2, g4) + 2 * Times(f3, g3) + Times(f4, g2) +
    2 * Times(f5, g1) + Times(f6, g0) + 38 * Times(f7, g9) + 19 * Times(f8, g8) + 38 * Times(f9, g7)
  }

  ghost function Col7(f0: int, f1: int, f2: int, f3: int, f4: int, f5: int, f6: int, f7: int, f8: int, f9: int,
                     g0: int, g1: int, g2: int, g3: int, g4: int, g5: int, g6: int, g7: int, g8: int, g9: int): int {
    Times(f0, g7) + Times(f1, g6) + Times(f2, g5) + Times(f3, g4) + Times(f4, g3) +
    Times(f5, g2) + Times(f6, g1) + Times(f7, g0) + 19 * Times(f8, g9) + 19 * Times(f9, g8)
  }

  ghost function Col8(f0: int, f1: int, f2: int, f3: int, f4: int, f5: int, f6: int, f7: int, f8: int, f9: int,
                     g0: int, g1: int, g2: int, g3: int, g4: int, g5: int, g6: int, g7: int, g8: int, g9: int): int {
    Times(f0, g8) + 2 * Times(f1, g7) + Times(f2, g6) + 2 * Times(f3, g5) + Times(f4, g4) +
    2 * Times(f5, g3) + Times(f6, g2) + 2 * Times(f7, g1) + Times(f8, g0) + 38 * Times(f9, g9)
  }

  ghost function Col9(f0: int, f1: int, f2: int, f3: int, f4: int, f5: int, f6: int, f7: int, f8: int, f9: int,
                     g0: int, g1: int, g2: int, g3: int, g4: int, g5: int, g6: int, g7: int, g8: int, g9: int): int {
    Times(f0, g9) + Times(f1, g8) + Times(f2, g7) + Times(f3, g6) + Times(f4, g5) +
    Times(f5, g4) + Times(f6, g3) + Times(f7, g2) + Times(f8, g1) + Times(f9, g0)
  }

  /** Columns that collect the right products stand for the product of the two values. */
  lemma Product(f0: int, f1: int, f2: int, f3: int, f4: int, f5: int, f6: int, f7: int, f8: int, f9: int,
                g0: int, g1: int, g2: int, g3: int, g4: int, g5: int, g6: int, g7: int, g8: int, g9: int,
                h0: int, h1: int, h2: int, h3: int, h4: int, h5: int, h6: int, h7: int, h8: int, h9: int)
    returns (v: int)
    requires h0 == Col0(f0, f1, f2, f3, f4, f5, f6, f7, f8, f9, g0, g1, g2, g3, g4, g5, g6, g7, g8, g9)
    requires h1 == Col1(f0, f1, f2, f3, f4, f5, f6, f7, f8, f9, g0, g1, g2, g3, g4, g5, g6, g7, g8, g9)
    requires h2 == Col2(f0, f1, f2, f3, f4, f5, f6, f7, f8, f9, g0, g1, g2, g3, g4, g5, g6, g7, g8, g9)
    requires h3 == Col3(f0, f1, f2, f3, f4, f5, f6, f7, f8, f9, g0, g1, g2, g3, g4, g5, g6, g7, g8, g9)
    requires h4 == Col4(f0, f1, f2, f3, f4, f5, f6, f7, f8, f9, g0, g1, g2, g3, g4, g5, g6, g7, g8, g9)
    requires h5 == Col5(f0, f1, f2, f3, f4, f5, f6, f7, f8, f9, g0, g1, g2, g3, g4, g5, g6, g7, g8, g9)
    requires h6 == Col6(f0, f1, f2, f3, f4, f5, f6, f7, f8, f9, g0, g1, g2, g3, g4, g5, g6, g7, g8, g9)
    requires h7 == Col7(f0, f1, f2, f3, f4, f5, f6, f7, f8, f9, g0, g1, g2, g3, g4, g5, g6, g7, g8, g9)
    requires h8 == Col8(f0, f1, f2, f3, f4, f5, f6, f7, f8, f9, g0, g1, g2, g3, g4, g5, g6, g7, g8, g9)
    requires h9 == Col9(f0, f1, f2, f3, f4, f5, f6, f7, f8, f9, g0, g1, g2, g3, g4, g5, g6, g7, g8, g9)
    ensures v == V10(h0, h1, h2, h3, h4, h5, h6, h7, h8, h9) && Cong(v, V10(f0, f1, f2, f3, f4, f5, f6, f7, f8, f9) * V10(g0, g1, g2, g3, g4, g5, g6, g7, g8, g9))
  {
    hide Times, Cong, V10;
    v := V10(h0, h1, h2, h3, h4, h5, h6, h7, h8, h9);
    var c0 := Times(f0, g0);
    var c1 := Times(f0, g1) + Times(f1, g0);
    var c2 := Times(f0, g2) + 2 * Times(f1, g1) + Times(f2, g0);
    var c3 := Times(f0, g3) + Times(f1, g2) + Times(f2, g1) + Times(f3, g0);
    var c4 := Times(f0, g4) + 2 * Times(f1, g3) + Times(f2, g2) + 2 * Times(f3, g1) + Times(f4, g0);
    var c5 := Times(f0, g5) + Times(f1, g4) + Times(f2, g3) + Times(f3, g2) + Times(f4, g1) +
           Times(f5, g0);
    var c6 := Times(f0, g6) + 2 * Times(f1, g5) + Times(f2, g4) + 2 * Times(f3, g3) + Times(f4, g2) +
           2 * Times(f5, g1) + Times(f6, g0);
    var c7 := Times(f0, g7) + Times(f1, g6) + Times(f2, g5) + Times(f3, g4) + Times(f4, g3) +
           Times(f5, g2) + Times(f6, g1) + Times(f7, g0);
    var c8 := Times(f0, g8) + 2 * Times(f1, g7) + Times(f2, g6) + 2 * Times(f3, g5) + Times(f4, g4) +
           2 * Times(f5, g3) + Times(f6, g2) + 2 * Times(f7, g1) + Times(f8, g0);
    var c9 := Times(f0, g9) + Times(f1, g8) + Times(f2, g7) + Times(f3, g6) + Times(f4, g5) +
           Times(f5, g4) + Times(f6, g3) + Times(f7, g2) + Times(f8, g1) + Times(f9, g0);
    var c10 := 2 * Times(f1, g9) + Times(f2, g8) + 2 * Times(f3, g7) + Times(f4, g6) + 2 * Times(f5, g5) +
           Times(f6, g4) + 2 * Times(f7, g3) + Times(f8, g2) + 2 * Times(f9, g1);
    var c11 := Times(f2, g9) + Times(f3, g8) + Times(f4, g7) + Times(f5, g6) + Times(f6, g5) +
           Times(f7, g4) + Times(f8, g3) + Times(f9, g2);
    var c12 := 2 * Times(f3, g9) + Times(f4, g8) + 2 * Times(f5, g7) + Times(f6, g6) + 2 * Times(f7, g5) +
           Times(f8, g4) + 2 * Times(f9, g3);
    var c13 := Times(f4, g9) + Times(f5, g8) + Times(f6, g7) + Times(f7, g6) + Times(f8, g5) +
           Times(f9, g4);
    var c14 := 2 * Times(f5, g9) + Times(f6, g8) + 2 * Times(f7, g7) + Times(f8, g6) + 2 * Times(f9, g5);
    var c15 := Times(f6, g9) + Times(f7, g8) + Times(f8, g7) + Times(f9, g6);
    var c16 := 2 * Times(f7, g9) + Times(f8, g8) + 2 * Times(f9, g7);
    var c17 := Times(f8, g9) + Times(f9, g8);
    var c18 := 2 * Times(f9, g9);
    Convolution(f0, f1, f2, f3, f4, f5, f6, f7, f8, f9, g0, g1, g2, g3, g4, g5, g6, g7, g8, g9,
                c0, c1, c2, c3, c4, c5, c6, c7, c8, c9,
                c10, c11, c12, c13, c14, c15, c16, c17, c18);
    Wrap(c0, c1, c2, c3, c4, c5, c6, c7, c8, c9, c10, c11, c12, c13, c14, c15, c16, c17, c18);
    assert h0 == c0 + 19 * c10 && h1 == c1 + 19 * c11 && h2 == c2 + 19 * c12;
    assert h3 == c3 + 19 * c13 && h4 == c4 + 19 * c14 && h5 == c5 + 19 * c15;
    assert h6 == c6 + 19 * c16 && h7 == c7 + 19 * c17 && h8 == c8 + 19 * c18 && h9 == c9;
  }

  lemma Int32Product(a: int, b: int)
    requires -0x8000_0000 <= a < 0x8000_0000 && -0x8000_0000 <= b < 0x8000_0000
    ensures -0x4000_0000_0000_0000 <= a * b <= 0x4000_0000_0000_0000
  {
    MagnitudeOfProduct(a, b, 0x8000_0000, 0x8000_0000);
  }

  /** `a * (int64_t)b` of two 32-bit values. */
  function Prod(a: int32, b: int32): (r: int64)
    ensures r as int == Times(a as int, b as int)
  {
    Int32Product(a as int, b as int);
    a as int64 * b as int64
  }

  // ---------------------------------------------------------------- carries

  predicate Wide(x: int64) {
    -0x7000_0000_0000_0000 <= x <= 0x7000_0000_0000_0000
  }

  /** `carry = lo + 2^25; hi += carry >> 26; lo -= carry & kTop38Bits`: a centred carry of 26 bits. */
  method Carry26(lo: int64, hi: int64) returns (lo': int64, hi': int64, ghost k: int)
    requires Wide(lo) && Wide(hi)
    ensures -0x200_0000 <= lo' < 0x200_0000
    ensures lo' as int == lo as int - 0x400_0000 * k && hi' as int == hi as int + k
  {
    var carry := lo + 0x200_0000;
    k := (carry / 0x400_0000) as int;
    hi' := hi + carry / 0x400_0000;
    lo' := lo - (carry - carry % 0x400_0000);
  }

  /** `carry = lo + 2^24; hi += carry >> 25; lo -= carry & kTop39Bits`: a centred carry of 25 bits. */
  method Carry25(lo: int64, hi: int64) returns (lo': int64, hi': int64, ghost k: int)
    requires Wide(lo) && Wide(hi)
    ensures -0x100_0000 <= lo' < 0x100_0000
    ensures lo' as int == lo as int - 0x200_0000 * k && hi' as int == hi as int + k
  {
    var carry := lo + 0x100_0000;
    k := (carry / 0x200_0000) as int;
    hi' := hi + carry / 0x200_0000;
    lo' := lo - (carry - carry % 0x200_0000);
  }

  /** `h0 += (carry >> 25) * 19`: the carry out of the top limb, which wraps around. */
  method CarryAround(h9: int64, h0: int64) returns (h9': int64, h0': int64, ghost k: int)
    requires Wide(h9) && -0x4000_0000_0000_0000 <= h0 <= 0x4000_0000_0000_0000
    ensures -0x100_0000 <= h9' < 0x100_0000
    ensures h9' as int == h9 as int - 0x200_0000 * k && h0' as int == h0 as int + 19 * k
  {
    var carry := h9 + 0x100_0000;
    k := (carry / 0x200_0000) as int;
    h0' := h0 + (carry / 0x200_0000) * 19;
    h9' := h9 - (carry - carry % 0x200_0000);
  }

  predicate Column(x: int64) {
    -0x5200_0000_0000_0000 <= x <= 0x5200_0000_0000_0000
  }

  /** The twelve carries that end `fe_mul`, `fe_sq` and `fe_sq2`. */
  method Reduce(h: array<int32>, a0: int64, a1: int64, a2: int64, a3: int64, a4: int64,
                a5: int64, a6: int64, a7: int64, a8: int64, a9: int64)
    requires h.Length == 10
    requires Column(a0) && Column(a1) && Column(a2) && Column(a3) && Column(a4)
    requires Column(a5) && Column(a6) && Column(a7) && Column(a8) && Column(a9)
    modifies h
    ensures Limit(h[..], REDUCED)
    ensures Cong(Val(h[..]), V10(a0 as int, a1 as int, a2 as int, a3 as int, a4 as int,
                                 a5 as int, a6 as int, a7 as int, a8 as int, a9 as int))
  {
    hide V10, Cong;
    var h0, h1, h2, h3, h4, h5, h6, h7, h8, h9 := a0, a1, a2, a3, a4, a5, a6, a7, a8, a9;
    ghost var k0, k1, k2, k3, k4, k5, k6, k7, k8, k9, l0, l4;

    h0, h1, k0 := Carry26(h0, h1);
    h4, h5, k4 := Carry26(h4, h5);

    h1, h2, k1 := Carry25(h1, h2);
    h5, h6, k5 := Carry25(h5, h6);

    h2, h3, k2 := Carry26(h2, h3);
    h6, h7, k6 := Carry26(h6, h7);

    h3, h4, k3 := Carry25(h3, h4);
    h7, h8, k7 := Carry25(h7, h8);

    h4, h5, l4 := Carry26(h4, h5);
    h8, h9, k8 := Carry26(h8, h9);

    h9, h0, k9 := CarryAround(h9, h0);

    h0, h1, l0 := Carry26(h0, h1);

    CarriesKeepValue(a0 as int, a1 as int, a2 as int, a3 as int, a4 as int,
                     a5 as int, a6 as int, a7 as int, a8 as int, a9 as int,
                     h0 as int, h1 as int, h2 as int, h3 as int, h4 as int,
                     h5 as int, h6 as int, h7 as int, h8 as int, h9 as int,
                     k0 + l0, k1, k2, k3, k4 + l4, k5, k6, k7, k8, k9);
    h[0], h[1], h[2], h[3], h[4] := h0 as int32, h1 as int32, h2 as int32, h3 as int32, h4 as int32;
    h[5], h[6], h[7], h[8], h[9] := h5 as int32, h6 as int32, h7 as int32, h8 as int32, h9 as int32;
  }

  /** Moving k units of a limb up is neutral; moving them around the top is neutral modulo p. */
  lemma CarriesKeepValue(a0: int, a1: int, a2: int, a3: int, a4: int, a5: int, a6: int, a7: int, a8: int, a9: int,
                         h0: int, h1: int, h2: int, h3: int, h4: int, h5: int, h6: int, h7: int, h8: int, h9: int,
                         k0: int, k1: int, k2: int, k3: int, k4: int, k5: int, k6: int, k7: int, k8: int, k9: int)
    requires h0 == a0 - 0x400_0000 * k0 + 19 * k9
    requires h1 == a1 - 0x200_0000 * k1 + k0 && h2 == a2 - 0x400_0000 * k2 + k1 && h3 == a3 - 0x200_0000 * k3 + k2
    requires h4 == a4 - 0x400_0000 * k4 + k3 && h5 == a5 - 0x200_0000 * k5 + k4 && h6 == a6 - 0x400_0000 * k6 + k5
    requires h7 == a7 - 0x200_0000 * k7 + k6 && h8 == a8 - 0x400_0000 * k8 + k7 && h9 == a9 - 0x200_0000 * k9 + k8
    ensures Cong(V10(h0, h1, h2, h3, h4, h5, h6, h7, h8, h9), V10(a0, a1, a2, a3, a4, a5, a6, a7, a8, a9))
  {
    ModulusValue();
    CongIntro(V10(h0, h1, h2, h3, h4, h5, h6, h7, h8, h9), V10(a0, a1, a2, a3, a4, a5, a6, a7, a8, a9), -k9);
  }

  /** The ten carries that end `fe_frombytes` and `fe_mul121666`: odd limbs first, then even ones. */
  method ReduceOddEven(h: array<int32>, a0: int64, a1: int64, a2: int64, a3: int64, a4: int64,
                       a5: int64, a6: int64, a7: int64, a8: int64, a9: int64)
    requires h.Length == 10
    requires -0x1000_0000_0000 <= a0 <= 0x1000_0000_0000 && -0x1000_0000_0000 <= a1 <= 0x1000_0000_0000 && -0x1000_0000_0000 <= a2 <= 0x1000_0000_0000
    requires -0x1000_0000_0000 <= a3 <= 0x1000_0000_0000 && -0x1000_0000_0000 <= a4 <= 0x1000_0000_0000 && -0x1000_0000_0000 <= a5 <= 0x1000_0000_0000
    requires -0x1000_0000_0000 <= a6 <= 0x1000_0000_0000 && -0x1000_0000_0000 <= a7 <= 0x1000_0000_0000 && -0x1000_0000_0000 <= a8 <= 0x1000_0000_0000
    requires -0x800_0000_0000 <= a9 <= 0x800_0000_0000
    modifies h
    ensures Limit(h[..], 110)
    ensures Cong(Val(h[..]), V10(a0 as int, a1 as int, a2 as int, a3 as int, a4 as int,
                                 a5 as int, a6 as int, a7 as int, a8 as int, a9 as int))
  {
    hide V10, Cong;
    var h0, h1, h2, h3, h4, h5, h6, h7, h8, h9 := a0, a1, a2, a3, a4, a5, a6, a7, a8, a9;
    ghost var k0, k1, k2, k3, k4, k5, k6, k7, k8, k9;

    h9, h0, k9 := CarryAround(h9, h0);
    h1, h2, k1 := Carry25(h1, h2);
    h3, h4, k3 := Carry25(h3, h4);
    h5, h6, k5 := Carry25(h5, h6);
    h7, h8, k7 := Carry25(h7, h8);

    h0, h1, k0 := Carry26(h0, h1);
    h2, h3, k2 := Carry26(h2, h3);
    h4, h5, k4 := Carry26(h4, h5);
    h6, h7, k6 := Carry26(h6, h7);
    h8, h9, k8 := Carry26(h8, h9);

    CarriesKeepValue(a0 as int, a1 as int, a2 as int, a3 as int, a4 as int,
                     a5 as int, a6 as int, a7 as int, a8 as int, a9 as int,
                     h0 as int, h1 as int, h2 as int, h3 as int, h4 as int,
                     h5 as int, h6 as int, h7 as int, h8 as int, h9 as int,
                     k0, k1, k2, k3, k4, k5, k6, k7, k8, k9);
    h[0], h[1], h[2], h[3], h[4] := h0 as int32, h1 as int32, h2 as int32, h3 as int32, h4 as int32;
    h[5], h[6], h[7], h[8], h[9] := h5 as int32, h6 as int32, h7 as int32, h8 as int32, h9 as int32;
  }

  /** Products of operands of magnitude up to `A` and `B`. */
  lemma ProdMagnitude(A: int, B: int)
    ensures forall a: int32, b: int32 {:trigger Prod(a, b)} ::
      -A <= a as int <= A && -B <= b as int <= B ==> -(A * B) <= Prod(a, b) as int <= A * B
  {
    hide Times;
    TimesMagnitude(A, B);
  }

  /** The even columns of `fe_mul`, before carrying. */
  method EvenColumns(f: seq<int32>, g: seq<int32>)
    returns (h0: int64, h2: int64, h4: int64, h6: int64, h8: int64)
    requires Limit(f, PRODUCT) && Limit(g, PRODUCT)
    ensures Column(h0) && Column(h2) && Column(h4) && Column(h6) && Column(h8)
    ensures h0 as int == Col0(f[0] as int, f[1] as int, f[2] as int, f[3] as int, f[4] as int,
                              f[5] as int, f[6] as int, f[7] as int, f[8] as int, f[9] as int,
                              g[0] as int, g[1] as int, g[2] as int, g[3] as int, g[4] as int,
                              g[5] as int, g[6] as int, g[7] as int, g[8] as int, g[9] as int)
    ensures h2 as int == Col2(f[0] as int, f[1] as int, f[2] as int, f[3] as int, f[4] as int,
                              f[5] as int, f[6] as int, f[7] as int, f[8] as int, f[9] as int,
                              g[0] as int, g[1] as int, g[2] as int, g[3] as int, g[4] as int,
                              g[5] as int, g[6] as int, g[7] as int, g[8] as int, g[9] as int)
    ensures h4 as int == Col4(f[0] as int, f[1] as int, f[2] as int, f[3] as int, f[4] as int,
                              f[5] as int, f[6] as int, f[7] as int, f[8] as int, f[9] as int,
                              g[0] as int, g[1] as int, g[2] as int, g[3] as int, g[4] as int,
                              g[5] as int, g[6] as int, g[7] as int, g[8] as int, g[9] as int)
    ensures h6 as int == Col6(f[0] as int, f[1] as int, f[2] as int, f[3] as int, f[4] as int,
                              f[5] as int, f[6] as int, f[7] as int, f[8] as int, f[9] as int,
                              g[0] as int, g[1] as int, g[2] as int, g[3] as int, g[4] as int,
                              g[5] as int, g[6] as int, g[7] as int, g[8] as int, g[9] as int)
    ensures h8 as int == Col8(f[0] as int, f[1] as int, f[2] as int, f[3] as int, f[4] as int,
                              f[5] as int, f[6] as int, f[7] as int, f[8] as int, f[9] as int,
                              g[0] as int, g[1] as int, g[2] as int, g[3] as int, g[4] as int,
                              g[5] as int, g[6] as int, g[7] as int, g[8] as int, g[9] as int)
  {
    hide Times;
    var f0, f1, f2, f3, f4, f5, f6, f7, f8, f9 := f[0], f[1], f[2], f[3], f[4], f[5], f[6], f[7], f[8], f[9];
    var g0, g1, g2, g3, g4, g5, g6, g7, g8, g9 := g[0], g[1], g[2], g[3], g[4], g[5], g[6], g[7], g[8], g[9];
    var g1_19 := 19 * g1;
    var g2_19 := 19 * g2;
    var g3_19 := 19 * g3;
    var g4_19 := 19 * g4;
    var g5_19 := 19 * g5;
    var g6_19 := 19 * g6;
    var g7_19 := 19 * g7;
    var g8_19 := 19 * g8;
    var g9_19 := 19 * g9;
    var f1_2 := 2 * f1;
    var f3_2 := 2 * f3;
    var f5_2 := 2 * f5;
    var f7_2 := 2 * f7;
    var f9_2 := 2 * f9;
    ProdMagnitude(110729625, 2103862875);
    ScaleRight(g1 as int, 19, g1_19 as int);
    ScaleRight(g2 as int, 19, g2_19 as int);
    ScaleRight(g3 as int, 19, g3_19 as int);
    ScaleRight(g4 as int, 19, g4_19 as int);
    ScaleRight(g5 as int, 19, g5_19 as int);
    ScaleRight(g6 as int, 19, g6_19 as int);
    ScaleRight(g7 as int, 19, g7_19 as int);
    ScaleRight(g8 as int, 19, g8_19 as int);
    ScaleRight(g9 as int, 19, g9_19 as int);
    ScaleLeft(f1 as int, 2, f1_2 as int);
    ScaleLeft(f3 as int, 2, f3_2 as int);
    ScaleLeft(f5 as int, 2, f5_2 as int);
    ScaleLeft(f7 as int, 2, f7_2 as int);
    ScaleLeft(f9 as int, 2, f9_2 as int);
    h0 := Prod(f0, g0) + Prod(f1_2, g9_19) + Prod(f2, g8_19) + Prod(f3_2, g7_19) + Prod(f4, g6_19) +
              Prod(f5_2, g5_19) + Prod(f6, g4_19) + Prod(f7_2, g3_19) + Prod(f8, g2_19) + Prod(f9_2, g1_19);
    h2 := Prod(f0, g2) + Prod(f1_2, g1) + Prod(f2, g0) + Prod(f3_2, g9_19) + Prod(f4, g8_19) +
              Prod(f5_2, g7_19) + Prod(f6, g6_19) + Prod(f7_2, g5_19) + Prod(f8, g4_19) + Prod(f9_2, g3_19);
    h4 := Prod(f0, g4) + Prod(f1_2, g3) + Prod(f2, g2) + Prod(f3_2, g1) + Prod(f4, g0) +
              Prod(f5_2, g9_19) + Prod(f6, g8_19) + Prod(f7_2, g7_19) + Prod(f8, g6_19) + Prod(f9_2, g5_19);
    h6 := Prod(f0, g6) + Prod(f1_2, g5) + Prod(f2, g4) + Prod(f3_2, g3) + Prod(f4, g2) +
              Prod(f5_2, g1) + Prod(f6, g0) + Prod(f7_2, g9_19) + Prod(f8, g8_19) + Prod(f9_2, g7_19);
    h8 := Prod(f0, g8) + Prod(f1_2, g7) + Prod(f2, g6) + Prod(f3_2, g5) + Prod(f4, g4) +
              Prod(f5_2, g3) + Prod(f6, g2) + Prod(f7_2, g1) + Prod(f8, g0) + Prod(f9_2, g9_19);
  }

  /** The odd columns of `fe_mul`, before carrying. */
  method OddColumns(f: seq<int32>, g: seq<int32>)
    returns (h1: int64, h3: int64, h5: int64, h7: int64, h9: int64)
    requires Limit(f, PRODUCT) && Limit(g, PRODUCT)
    ensures Column(h1) && Column(h3) && Column(h5) && Column(h7) && Column(h9)
    ensures h1 as int == Col1(f[0] as int, f[1] as int, f[2] as int, f[3] as int, f[4] as int,
                              f[5] as int, f[6] as int, f[7] as int, f[8] as int, f[9] as int,
                              g[0] as int, g[1] as int, g[2] as int, g[3] as int, g[4] as int,
                              g[5] as int, g[6] as int, g[7] as int, g[8] as int, g[9] as int)
    ensures h3 as int == Col3(f[0] as int, f[1] as int, f[2] as int, f[3] as int, f[4] as int,
                              f[5] as int, f[6] as int, f[7] as int, f[8] as int, f[9] as int,
                              g[0] as int, g[1] as int, g[2] as int, g[3] as int, g[4] as int,
                              g[5] as int, g[6] as int, g[7] as int, g[8] as int, g[9] as int)
    ensures h5 as int == Col5(f[0] as int, f[1] as int, f[2] as int, f[3] as int, f[4] as int,
                              f[5] as int, f[6] as int, f[7] as int, f[8] as int, f[9] as int,
                              g[0] as int, g[1] as int, g[2] as int, g[3] as int, g[4] as int,
                              g[5] as int, g[6] as int, g[7] as int, g[8] as int, g[9] as int)
    ensures h7 as int == Col7(f[0] as int, f[1] as int, f[2] as int, f[3] as int, f[4] as int,
                              f[5] as int, f[6] as int, f[7] as int, f[8] as int, f[9] as int,
                              g[0] as int, g[1] as int, g[2] as int, g[3] as int, g[4] as int,
                              g[5] as int, g[6] as int, g[7] as int, g[8] as int, g[9] as int)
    ensures h9 as int == Col9(f[0] as int, f[1] as int, f[2] as int, f[3] as int, f[4] as int,
                              f[5] as int, f[6] as int, f[7] as int, f[8] as int, f[9] as int,
                              g[0] as int, g[1] as int, g[2] as int, g[3] as int, g[4] as int,
                              g[5] as int, g[6] as int, g[7] as int, g[8] as int, g[9] as int)
  {
    hide Times;
    var f0, f1, f2, f3, f4, f5, f6, f7, f8, f9 := f[0], f[1], f[2], f[3], f[4], f[5], f[6], f[7], f[8], f[9];
    var g0, g1, g2, g3, g4, g5, g6, g7, g8, g9 := g[0], g[1], g[2], g[3], g[4], g[5], g[6], g[7], g[8], g[9];
    var g2_19 := 19 * g2;
    var g3_19 := 19 * g3;
    var g4_19 := 19 * g4;
    var g5_19 := 19 * g5;
    var g6_19 := 19 * g6;
    var g7_19 := 19 * g7;
    var g8_19 := 19 * g8;
    var g9_19 := 19 * g9;
    ProdMagnitude(110729625, 2103862875);
    ScaleRight(g2 as int, 19, g2_19 as int);
    ScaleRight(g3 as int, 19, g3_19 as int);
    ScaleRight(g4 as int, 19, g4_19 as int);
    ScaleRight(g5 as int, 19, g5_19 as int);
    ScaleRight(g6 as int, 19, g6_19 as int);
    ScaleRight(g7 as int, 19, g7_19 as int);
    ScaleRight(g8 as int, 19, g8_19 as int);
    ScaleRight(g9 as int, 19, g9_19 as int);
    h1 := Prod(f0, g1) + Prod(f1, g0) + Prod(f2, g9_19) + Prod(f3, g8_19) + Prod(f4, g7_19) +
              Prod(f5, g6_19) + Prod(f6, g5_19) + Prod(f7, g4_19) + Prod(f8, g3_19) + Prod(f9, g2_19);
    h3 := Prod(f0, g3) + Prod(f1, g2) + Prod(f2, g1) + Prod(f3, g0) + Prod(f4, g9_19) +
              Prod(f5, g8_19) + Prod(f6, g7_19) + Prod(f7, g6_19) + Prod(f8, g5_19) + Prod(f9, g4_19);
    h5 := Prod(f0, g5) + Prod(f1, g4) + Prod(f2, g3) + Prod(f3, g2) + Prod(f4, g1) +
              Prod(f5, g0) + Prod(f6, g9_19) + Prod(f7, g8_19) + Prod(f8, g7_19) + Prod(f9, g6_19);
    h7 := Prod(f0, g7) + Prod(f1, g6) + Prod(f2, g5) + Prod(f3, g4) + Prod(f4, g3) +
              Prod(f5, g2) + Prod(f6, g1) + Prod(f7, g0) + Prod(f8, g9_19) + Prod(f9, g8_19);
    h9 := Prod(f0, g9) + Prod(f1, g8) + Prod(f2, g7) + Prod(f3, g6) + Prod(f4, g5) +
              Prod(f5, g4) + Prod(f6, g3) + Prod(f7, g2) + Prod(f8, g1) + Prod(f9, g0);
  }

  /** `h = f * g`, where `h` may be `f` or `g`: every limb is read before the first one is written. */
  method Mul(h: array<int32>, f: seq<int32>, g: seq<int32>)
    requires h.Length == 10
    requires Limit(f, PRODUCT) && Limit(g, PRODUCT)
    modifies h
    ensures Limit(h[..], REDUCED)
    ensures Cong(Val(h[..]), Val(f) * Val(g))
  {
    ghost var y := Val(f) * Val(g);
    ghost var v := V10(0, 0, 0, 0, 0, 0, 0, 0, 0, 0);
    var h0, h2, h4, h6, h8 := EvenColumns(f, g);
    var h1, h3, h5, h7, h9 := OddColumns(f, g);
    hide *;
    v := Product(f[0] as int, f[1] as int, f[2] as int, f[3] as int, f[4] as int,
                 f[5] as int, f[6] as int, f[7] as int, f[8] as int, f[9] as int,
                 g[0] as int, g[1] as int, g[2] as int, g[3] as int, g[4] as int,
                 g[5] as int, g[6] as int, g[7] as int, g[8] as int, g[9] as int,
                 h0 as int, h1 as int, h2 as int, h3 as int, h4 as int,
                 h5 as int, h6 as int, h7 as int, h8 as int, h9 as int);
    Reduce(h, h0, h1, h2, h3, h4, h5, h6, h7, h8, h9);
    CongTrans(Val(h[..]), v, y);
  }

  /** The columns that `fe_sq` and `fe_sq2` share: each cross product once, with its factor. */
  method SquareColumns(f: seq<int32>)
    returns (h0: int64, h1: int64, h2: int64, h3: int64, h4: int64, h5: int64, h6: int64, h7: int64, h8: int64, h9: int64)
    requires Limit(f, PRODUCT)
    ensures HalfColumn(h0) && HalfColumn(h1) && HalfColumn(h2) && HalfColumn(h3) && HalfColumn(h4)
    ensures HalfColumn(h5) && HalfColumn(h6) && HalfColumn(h7) && HalfColumn(h8) && HalfColumn(h9)
    ensures Cong(V10(h0 as int, h1 as int, h2 as int, h3 as int, h4 as int,
                     h5 as int, h6 as int, h7 as int, h8 as int, h9 as int), Val(f) * Val(f))
  {
    hide Times, Cong, V10;
    var f0, f1, f2, f3, f4, f5, f6, f7, f8, f9 := f[0], f[1], f[2], f[3], f[4], f[5], f[6], f[7], f[8], f[9];
    var f0_2, f1_2, f2_2, f3_2 := 2 * f0, 2 * f1, 2 * f2, 2 * f3;
    var f4_2, f5_2, f6_2, f7_2 := 2 * f4, 2 * f5, 2 * f6, 2 * f7;
    var f5_38, f6_19, f7_38, f8_19, f9_38 := 38 * f5, 19 * f6, 38 * f7, 19 * f8, 38 * f9;
    ProdMagnitude(221459250, 2103862875);
    TimesSymmetric();
    ScaleLeft(f0 as int, 2, f0_2 as int);
    ScaleLeft(f1 as int, 2, f1_2 as int);
    ScaleLeft(f2 as int, 2, f2_2 as int);
    ScaleLeft(f3 as int, 2, f3_2 as int);
    ScaleLeft(f4 as int, 2, f4_2 as int);
    ScaleLeft(f5 as int, 2, f5_2 as int);
    ScaleLeft(f6 as int, 2, f6_2 as int);
    ScaleLeft(f7 as int, 2, f7_2 as int);
    ScaleRight(f5 as int, 38, f5_38 as int);
    ScaleRight(f6 as int, 19, f6_19 as int);
    ScaleRight(f7 as int, 38, f7_38 as int);
    ScaleRight(f8 as int, 19, f8_19 as int);
    ScaleRight(f9 as int, 38, f9_38 as int);
    ScaleRight(f3 as int, 2, f3_2 as int);
    ScaleRight(f5 as int, 2, f5_2 as int);
    ScaleRight(f7 as int, 2, f7_2 as int);
    h0 := Prod(f0, f0) + Prod(f1_2, f9_38) + Prod(f2_2, f8_19) + Prod(f3_2, f7_38) + Prod(f4_2, f6_19) + Prod(f5, f5_38);
    h1 := Prod(f0_2, f1) + Prod(f2, f9_38) + Prod(f3_2, f8_19) + Prod(f4, f7_38) + Prod(f5_2, f6_19);
    h2 := Prod(f0_2, f2) + Prod(f1_2, f1) + Prod(f3_2, f9_38) + Prod(f4_2, f8_19) + Prod(f5_2, f7_38) + Prod(f6, f6_19);
    h3 := Prod(f0_2, f3) + Prod(f1_2, f2) + Prod(f4, f9_38) + Prod(f5_2, f8_19) + Prod(f6, f7_38);
    h4 := Prod(f0_2, f4) + Prod(f1_2, f3_2) + Prod(f2, f2) + Prod(f5_2, f9_38) + Prod(f6_2, f8_19) + Prod(f7, f7_38);
    h5 := Prod(f0_2, f5) + Prod(f1_2, f4) + Prod(f2_2, f3) + Prod(f6, f9_38) + Prod(f7_2, f8_19);
    h6 := Prod(f0_2, f6) + Prod(f1_2, f5_2) + Prod(f2_2, f4) + Prod(f3_2, f3) + Prod(f7_2, f9_38) + Prod(f8, f8_19);
    h7 := Prod(f0_2, f7) + Prod(f1_2, f6) + Prod(f2_2, f5) + Prod(f3_2, f4) + Prod(f8, f9_38);
    h8 := Prod(f0_2, f8) + Prod(f1_2, f7_2) + Prod(f2_2, f6) + Prod(f3_2, f5_2) + Prod(f4, f4) + Prod(f9, f9_38);
    h9 := Prod(f0_2, f9) + Prod(f1_2, f8) + Prod(f2_2, f7) + Prod(f3_2, f6) + Prod(f4_2, f5);
    ghost var v := Product(f0 as int, f1 as int, f2 as int, f3 as int, f4 as int,
                           f5 as int, f6 as int, f7 as int, f8 as int, f9 as int,
                           f0 as int, f1 as int, f2 as int, f3 as int, f4 as int,
                           f5 as int, f6 as int, f7 as int, f8 as int, f9 as int,
                           h0 as int, h1 as int, h2 as int, h3 as int, h4 as int,
                           h5 as int, h6 as int, h7 as int, h8 as int, h9 as int);
  }

  predicate HalfColumn(x: int64) {
    -0x2900_0000_0000_0000 <= x <= 0x2900_0000_0000_0000
  }

  /** `h = f * f`; `h` may be `f`. */
  method Sq(h: array<int32>, f: seq<int32>)
    requires h.Length == 10
    requires Limit(f, PRODUCT)
    modifies h
    ensures Limit(h[..], REDUCED)
    ensures Cong(Val(h[..]), Val(f) * Val(f))
  {
    ghost var y := Val(f) * Val(f);
    hide V10, Cong, Limit;
    var h0, h1, h2, h3, h4, h5, h6, h7, h8, h9 := SquareColumns(f);
    Reduce(h, h0, h1, h2, h3, h4, h5, h6, h7, h8, h9);
    CongTrans(Val(h[..]), V10(h0 as int, h1 as int, h2 as int, h3 as int, h4 as int,
                              h5 as int, h6 as int, h7 as int, h8 as int, h9 as int), y);
  }

  /** `h = 2 * f * f`; `h` may be `f`. */
  method Sq2(h: array<int32>, f: seq<int32>)
    requires h.Length == 10
    requires Limit(f, PRODUCT)
    modifies h
    ensures Limit(h[..], REDUCED)
    ensures Cong(Val(h[..]), 2 * (Val(f) * Val(f)))
  {
    ghost var y := Val(f) * Val(f);
    hide V10, Cong, Limit;
    var h0, h1, h2, h3, h4, h5, h6, h7, h8, h9 := SquareColumns(f);
    DoubledColumns(h0 as int, h1 as int, h2 as int, h3 as int, h4 as int,
                   h5 as int, h6 as int, h7 as int, h8 as int, h9 as int, y);
    h0, h1, h2, h3, h4, h5, h6, h7, h8, h9 := h0 + h0, h1 + h1, h2 + h2, h3 + h3, h4 + h4, h5 + h5, h6 + h6, h7 + h7, h8 + h8, h9 + h9;
    Reduce(h, h0, h1, h2, h3, h4, h5, h6, h7, h8, h9);
    CongTrans(Val(h[..]), V10(h0 as int, h1 as int, h2 as int, h3 as int, h4 as int,
                              h5 as int, h6 as int, h7 as int, h8 as int, h9 as int), 2 * y);
  }

  lemma DoubledColumns(h0: int, h1: int, h2: int, h3: int, h4: int, h5: int, h6: int, h7: int, h8: int, h9: int, y: int)
    requires Cong(V10(h0, h1, h2, h3, h4, h5, h6, h7, h8, h9), y)
    ensures Cong(V10(h0 + h0, h1 + h1, h2 + h2, h3 + h3, h4 + h4, h5 + h5, h6 + h6, h7 + h7, h8 + h8, h9 + h9), 2 * y)
  {
    CongScale(V10(h0, h1, h2, h3, h4, h5, h6, h7, h8, h9), y, 2);
  }

  // ---------------------------------------------------------------- limbwise operations

  /** `h = f + g`; `h` may be `f` or `g`. The bounds add up. */
  method Add(h: array<int32>, f: array<int32>, g: array<int32>, ghost c: nat, ghost d: nat)
    requires h.Length == f.Length == g.Length == 10
    requires Limit(f[..], c) && Limit(g[..], d) && c <= 1500 && d <= 1500
    modifies h
    ensures Limit(h[..], c + d)
    ensures Val(h[..]) == old(Val(f[..]) + Val(g[..]))
  {
    hide Val, Limit;
    ghost var x, y := f[..], g[..];
    Magnitudes(x, c);
    Magnitudes(y, d);
    for i := 0 to 10
      invariant forall j :: 0 <= j < i ==> h[j] as int == x[j] as int + y[j] as int
      invariant forall j :: i <= j < 10 ==> f[j] == x[j] && g[j] == y[j]
    {
      h[i] := f[i] + g[i];
    }
    SumOfLimbs(h[..], x, y, c, d);
  }

  /** `h = f - g`; `h` may be `f` or `g`. The bounds add up. */
  method Sub(h: array<int32>, f: array<int32>, g: array<int32>, ghost c: nat, ghost d: nat)
    requires h.Length == f.Length == g.Length == 10
    requires Limit(f[..], c) && Limit(g[..], d) && c <= 1500 && d <= 1500
    modifies h
    ensures Limit(h[..], c + d)
    ensures Val(h[..]) == old(Val(f[..]) - Val(g[..]))
  {
    hide Val, Limit;
    ghost var x, y := f[..], g[..];
    Magnitudes(x, c);
    Magnitudes(y, d);
    for i := 0 to 10
      invariant forall j :: 0 <= j < i ==> h[j] as int == x[j] as int - y[j] as int
      invariant forall j :: i <= j < 10 ==> f[j] == x[j] && g[j] == y[j]
    {
      h[i] := f[i] - g[i];
    }
    DifferenceOfLimbs(h[..], x, y, c, d);
  }

  /** `h = -f`; `h` may be `f`. */
  method Neg(h: array<int32>, f: array<int32>, ghost c: nat)
    requires h.Length == f.Length == 10
    requires Limit(f[..], c) && c <= 1500
    modifies h
    ensures Limit(h[..], c)
    ensures Val(h[..]) == -old(Val(f[..]))
  {
    hide Val, Limit;
    ghost var x := f[..];
    Magnitudes(x, c);
    for i := 0 to 10
      invariant forall j :: 0 <= j < i ==> h[j] as int == -(x[j] as int)
      invariant forall j :: i <= j < 10 ==> f[j] == x[j]
    {
      h[i] := -f[i];
    }
    NegatedLimbs(h[..], x, c);
  }

  /** A limb under a small limit leaves room for one more operation. */
  lemma Magnitudes(x: seq<int32>, c: nat)
    requires Limit(x, c) && c <= 1500
    ensures forall j :: 0 <= j < 10 ==> -0x2000_0000 <= x[j] <= 0x2000_0000
  {
    assert -0x2000_0000 <= x[0] <= 0x2000_0000 && -0x2000_0000 <= x[1] <= 0x2000_0000;
    assert -0x2000_0000 <= x[2] <= 0x2000_0000 && -0x2000_0000 <= x[3] <= 0x2000_0000;
    assert -0x2000_0000 <= x[4] <= 0x2000_0000 && -0x2000_0000 <= x[5] <= 0x2000_0000;
    assert -0x2000_0000 <= x[6] <= 0x2000_0000 && -0x2000_0000 <= x[7] <= 0x2000_0000;
    assert -0x2000_0000 <= x[8] <= 0x2000_0000 && -0x2000_0000 <= x[9] <= 0x2000_0000;
  }

  lemma SumOfLimbs(h: seq<int32>, x: seq<int32>, y: seq<int32>, c: nat, d: nat)
    requires |h| == |x| == |y| == 10 && Limit(x, c) && Limit(y, d)
    requires forall j :: 0 <= j < 10 ==> h[j] as int == x[j] as int + y[j] as int
    ensures Limit(h, c + d) && Val(h) == Val(x) + Val(y)
  {
    LinearValue(h[0] as int, h[1] as int, h[2] as int, h[3] as int, h[4] as int,
                h[5] as int, h[6] as int, h[7] as int, h[8] as int, h[9] as int,
                x[0] as int, x[1] as int, x[2] as int, x[3] as int, x[4] as int,
                x[5] as int, x[6] as int, x[7] as int, x[8] as int, x[9] as int,
                y[0] as int, y[1] as int, y[2] as int, y[3] as int, y[4] as int,
                y[5] as int, y[6] as int, y[7] as int, y[8] as int, y[9] as int, 1);
  }

  lemma DifferenceOfLimbs(h: seq<int32>, x: seq<int32>, y: seq<int32>, c: nat, d: nat)
    requires |h| == |x| == |y| == 10 && Limit(x, c) && Limit(y, d)
    requires forall j :: 0 <= j < 10 ==> h[j] as int == x[j] as int - y[j] as int
    ensures Limit(h, c + d) && Val(h) == Val(x) - Val(y)
  {
    hide V10;
    LinearValue(h[0] as int, h[1] as int, h[2] as int, h[3] as int, h[4] as int,
                h[5] as int, h[6] as int, h[7] as int, h[8] as int, h[9] as int,
                x[0] as int, x[1] as int, x[2] as int, x[3] as int, x[4] as int,
                x[5] as int, x[6] as int, x[7] as int, x[8] as int, x[9] as int,
                y[0] as int, y[1] as int, y[2] as int, y[3] as int, y[4] as int,
                y[5] as int, y[6] as int, y[7] as int, y[8] as int, y[9] as int, -1);
  }

  lemma NegatedLimbs(h: seq<int32>, x: seq<int32>, c: nat)
    requires |h| == |x| == 10 && Limit(x, c)
    requires forall j :: 0 <= j < 10 ==> h[j] as int == -(x[j] as int)
    ensures Limit(h, c) && Val(h) == -Val(x)
  {
    hide V10;
    LinearValue(h[0] as int, h[1] as int, h[2] as int, h[3] as int, h[4] as int,
                h[5] as int, h[6] as int, h[7] as int, h[8] as int, h[9] as int,
                0, 0, 0, 0, 0, 0, 0, 0, 0, 0,
                x[0] as int, x[1] as int, x[2] as int, x[3] as int, x[4] as int,
                x[5] as int, x[6] as int, x[7] as int, x[8] as int, x[9] as int, -1);
    assert V10(0, 0, 0, 0, 0, 0, 0, 0, 0, 0) == 0 by { ZeroValue(); }
  }

  lemma ZeroValue()
    ensures V10(0, 0, 0, 0, 0, 0, 0, 0, 0, 0) == 0
  {
  }

  lemma LinearValue(h0: int, h1: int, h2: int, h3: int, h4: int, h5: int, h6: int, h7: int, h8: int, h9: int,
                    x0: int, x1: int, x2: int, x3: int, x4: int, x5: int, x6: int, x7: int, x8: int, x9: int,
                    y0: int, y1: int, y2: int, y3: int, y4: int, y5: int, y6: int, y7: int, y8: int, y9: int, s: int)
    requires s == 1 || s == -1
    requires h0 == x0 + s * y0 && h1 == x1 + s * y1 && h2 == x2 + s * y2 && h3 == x3 + s * y3 && h4 == x4 + s * y4
    requires h5 == x5 + s * y5 && h6 == x6 + s * y6 && h7 == x7 + s * y7 && h8 == x8 + s * y8 && h9 == x9 + s * y9
    ensures V10(h0, h1, h2, h3, h4, h5, h6, h7, h8, h9) ==
            V10(x0, x1, x2, x3, x4, x5, x6, x7, x8, x9) + s * V10(y0, y1, y2, y3, y4, y5, y6, y7, y8, y9)
  {
  }

  /** `memmove` of ten limbs. */
  method Copy(h: array<int32>, f: array<int32>)
    requires h.Length == f.Length == 10
    modifies h
    ensures h[..] == old(f[..])
  {
    ghost var x := f[..];
    forall i | 0 <= i < 10 { h[i] := f[i]; }
  }

  /** `fe_0` and `fe_1`. */
  method SetSmall(h: array<int32>, x: int32)
    requires h.Length == 10 && 0 <= x <= 1
    modifies h
    ensures Limit(h[..], 1) && Val(h[..]) == x as int
  {
    hide V10, Limit, Val;
    forall i | 0 <= i < 10 { h[i] := if i == 0 then x else 0; }
    SmallLimbs(h[..], x);
  }

  lemma SmallLimbs(h: seq<int32>, x: int32)
    requires |h| == 10 && h[0] == x && 0 <= x <= 1 && forall i :: 1 <= i < 10 ==> h[i] == 0
    ensures Limit(h, 1) && Val(h) == x as int
  {
    SmallValue(x as int, h[1] as int, h[2] as int, h[3] as int, h[4] as int,
               h[5] as int, h[6] as int, h[7] as int, h[8] as int, h[9] as int);
  }

  lemma SmallValue(h0: int, h1: int, h2: int, h3: int, h4: int, h5: int, h6: int, h7: int, h8: int, h9: int)
    requires h1 == 0 && h2 == 0 && h3 == 0 && h4 == 0 && h5 == 0 && h6 == 0 && h7 == 0 && h8 == 0 && h9 == 0
    ensures V10(h0, h1, h2, h3, h4, h5, h6, h7, h8, h9) == h0
  {
  }

  // ---------------------------------------------------------------- branch-free choice

  /** The two's complement word of a limb. */
  function Word(x: int32): (w: nat)
    ensures w < Pow2(32)
  {
    PowersOfTwo();
    x as int % 0x1_0000_0000
  }

  function Limb(w: nat): int32
    requires w < Pow2(32)
  {
    PowersOfTwo();
    (if w < 0x8000_0000 then w else w - 0x1_0000_0000) as int32
  }

  lemma LimbOfWord(x: int32)
    ensures Limb(Word(x)) == x
  {
    PowersOfTwo();
  }

  /** `f = b ? g : f`, by masking the exclusive or. */
  method CMov(f: array<int32>, g: seq<int32>, b: nat)
    requires f.Length == |g| == 10 && b <= 1
    modifies f
    ensures f[..] == if b == 1 then g else old(f[..])
  {
    hide Word, Limb, Choose, Pow2;
    for i := 0 to 10
      invariant forall j :: 0 <= j < 10 ==> f[j] == if j < i && b == 1 then g[j] else old(f[j])
    {
      LimbOfWord(f[i]);
      LimbOfWord(g[i]);
      f[i] := Limb(Choose(Word(f[i]), Word(g[i]), b, 32));
    }
  }

  /** The conditional swap. */
  method CSwap(f: array<int32>, g: array<int32>, b: nat)
    requires f.Length == g.Length == 10 && f != g && b <= 1
    modifies f, g
    ensures f[..] == (if b == 1 then old(g[..]) else old(f[..]))
    ensures g[..] == (if b == 1 then old(f[..]) else old(g[..]))
  {
    hide Word, Limb, BitXor, BitAnd, Mask, Pow2;
    for i := 0 to 10
      invariant forall j :: 0 <= j < 10 ==> f[j] == if j < i && b == 1 then old(g[j]) else old(f[j])
      invariant forall j :: 0 <= j < 10 ==> g[j] == if j < i && b == 1 then old(f[j]) else old(g[j])
    {
      LimbOfWord(f[i]);
      LimbOfWord(g[i]);
      ChooseValue(Word(f[i]), Word(g[i]), b, 32);
      var x := BitAnd(BitXor(Word(f[i]), Word(g[i])), Mask(b, 32));
      f[i], g[i] := Limb(BitXor(Word(f[i]), x)), Limb(BitXor(Word(g[i]), x));
    }
  }

  /** `h = 121666 * f`; `h` may be `f`. */
  method Mul121666(h: array<int32>, f: seq<int32>)
    requires h.Length == 10 && Limit(f, 220)
    modifies h
    ensures Limit(h[..], 110)
    ensures Cong(Val(h[..]), 121666 * Val(f))
  {
    ghost var y := Val(f);
    ScaledValue(f[0] as int, f[1] as int, f[2] as int, f[3] as int, f[4] as int,
                f[5] as int, f[6] as int, f[7] as int, f[8] as int, f[9] as int);
    hide V10, Cong;
    ReduceOddEven(h, f[0] as int64 * 121666, f[1] as int64 * 121666, f[2] as int64 * 121666, f[3] as int64 * 121666,
                  f[4] as int64 * 121666, f[5] as int64 * 121666, f[6] as int64 * 121666, f[7] as int64 * 121666,
                  f[8] as int64 * 121666, f[9] as int64 * 121666);
  }

  lemma ScaledValue(h0: int, h1: int, h2: int, h3: int, h4: int, h5: int, h6: int, h7: int, h8: int, h9: int)
    ensures V10(h0 * 121666, h1 * 121666, h2 * 121666, h3 * 121666, h4 * 121666,
                h5 * 121666, h6 * 121666, h7 * 121666, h8 * 121666, h9 * 121666)
         == 121666 * V10(h0, h1, h2, h3, h4, h5, h6, h7, h8, h9)
  {
  }
}
