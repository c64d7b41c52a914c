/** The byte strings of field elements in radix 2^25.5, and the tests that go through them. */
module Fe25Bytes {
  import opened CInts
  import opened Bytes
  import opened Field
  import opened Fe25

  // ---------------------------------------------------------------- loading

  /** Loads the low 255 bits of a 32-byte string. */
  method FromBytes(h: array<int32>, s: seq<uint8>)
    requires h.Length == 10 && |s| == 32
    modifies h
    ensures Limit(h[..], 110)
    ensures Cong(Val(h[..]), LE(s) % 0x8000_0000_0000_0000_0000_0000_0000_0000_0000_0000_0000_0000_0000_0000_0000_0000)
  {
    LoadedValue(s);
    SetLoads(h, Load4(s, 0), Load3(s, 4), Load3(s, 7), Load3(s, 10), Load3(s, 13),
             Load4(s, 16), Load3(s, 20), Load3(s, 23), Load3(s, 26), Load3(s, 29), LE(s));
  }

  /** Shifts the loads into place, without bit 255. */
  method SetLoads(h: array<int32>, l0: uint64, l1: uint64, l2: uint64, l3: uint64, l4: uint64,
                  l5: uint64, l6: uint64, l7: uint64, l8: uint64, l9: uint64, ghost v: int)
    requires h.Length == 10
    requires l0 < 0x1_0000_0000 && l1 < 0x100_0000 && l2 < 0x100_0000 && l3 < 0x100_0000 && l4 < 0x100_0000
    requires l5 < 0x1_0000_0000 && l6 < 0x100_0000 && l7 < 0x100_0000 && l8 < 0x100_0000 && l9 < 0x100_0000
    requires v == l0 as int + 0x1_0000_0000 * l1 as int + 0x100_0000_0000_0000 * l2 as int +
                  0x1_0000_0000_0000_0000_0000 * l3 as int + 0x100_0000_0000_0000_0000_0000_0000 * l4 as int + 0x1_0000_0000_0000_0000_0000_0000_0000_0000 * l5 as int +
                  0x1_0000_0000_0000_0000_0000_0000_0000_0000_0000_0000 * l6 as int + 0x100_0000_0000_0000_0000_0000_0000_0000_0000_0000_0000_0000 * l7 as int + 0x1_0000_0000_0000_0000_0000_0000_0000_0000_0000_0000_0000_0000_0000 * l8 as int +
                  0x100_0000_0000_0000_0000_0000_0000_0000_0000_0000_0000_0000_0000_0000_0000 * l9 as int
    modifies h
    ensures Limit(h[..], 110)
    ensures Cong(Val(h[..]), v % 0x8000_0000_0000_0000_0000_0000_0000_0000_0000_0000_0000_0000_0000_0000_0000_0000)
  {
    hide V10, Cong, Limit, Val;
    var m9 := l9 % 0x80_0000;
    LoadedLimbs(l0 as int, l1 as int, l2 as int, l3 as int, l4 as int, l5 as int, l6 as int, l7 as int, l8 as int, m9 as int,
                (l9 / 0x80_0000) as int);
    ReduceOddEven(h, l0 as int64, l1 as int64 * 64, l2 as int64 * 32, l3 as int64 * 8, l4 as int64 * 4,
                  l5 as int64, l6 as int64 * 128, l7 as int64 * 32, l8 as int64 * 16, m9 as int64 * 4);
  }

  /** The ten loads cover the string. */
  lemma LoadedValue(s: seq<uint8>)
    requires |s| == 32
    ensures LE(s) == Load4(s, 0) as int + 0x1_0000_0000 * Load3(s, 4) as int +
                     0x100_0000_0000_0000 * Load3(s, 7) as int + 0x1_0000_0000_0000_0000_0000 * Load3(s, 10) as int +
                     0x100_0000_0000_0000_0000_0000_0000 * Load3(s, 13) as int + 0x1_0000_0000_0000_0000_0000_0000_0000_0000 * Load4(s, 16) as int +
                     0x1_0000_0000_0000_0000_0000_0000_0000_0000_0000_0000 * Load3(s, 20) as int + 0x100_0000_0000_0000_0000_0000_0000_0000_0000_0000_0000_0000 * Load3(s, 23) as int +
                     0x1_0000_0000_0000_0000_0000_0000_0000_0000_0000_0000_0000_0000_0000 * Load3(s, 26) as int + 0x100_0000_0000_0000_0000_0000_0000_0000_0000_0000_0000_0000_0000_0000_0000 * Load3(s, 29) as int
  {
    hide LE, LEFrom, Sum32, Above;
    LE32(s);
    Sum32Loads(s[0] as int, s[1] as int, s[2] as int, s[3] as int, s[4] as int, s[5] as int, s[6] as int, s[7] as int,
               s[8] as int, s[9] as int, s[10] as int, s[11] as int, s[12] as int, s[13] as int, s[14] as int, s[15] as int,
               s[16] as int, s[17] as int, s[18] as int, s[19] as int, s[20] as int, s[21] as int, s[22] as int, s[23] as int,
               s[24] as int, s[25] as int, s[26] as int, s[27] as int, s[28] as int, s[29] as int, s[30] as int, s[31] as int,
               Load4(s, 0) as int, Load3(s, 4) as int, Load3(s, 7) as int, Load3(s, 10) as int, Load3(s, 13) as int,
               Load4(s, 16) as int, Load3(s, 20) as int, Load3(s, 23) as int, Load3(s, 26) as int, Load3(s, 29) as int);
  }

  lemma Sum32Loads(b0: int, b1: int, b2: int, b3: int, b4: int, b5: int, b6: int, b7: int, b8: int, b9: int, b10: int, b11: int, b12: int, b13: int, b14: int, b15: int,
                   b16: int, b17: int, b18: int, b19: int, b20: int, b21: int, b22: int, b23: int, b24: int, b25: int, b26: int, b27: int, b28: int, b29: int, b30: int, b31: int,
                   l0: int, l1: int, l2: int, l3: int, l4: int, l5: int, l6: int, l7: int, l8: int, l9: int)
    requires l0 == b0 + 0x100 * b1 + 0x1_0000 * b2 + 0x100_0000 * b3
    requires l1 == b4 + 0x100 * b5 + 0x1_0000 * b6
    requires l2 == b7 + 0x100 * b8 + 0x1_0000 * b9
    requires l3 == b10 + 0x100 * b11 + 0x1_0000 * b12
    requires l4 == b13 + 0x100 * b14 + 0x1_0000 * b15
    requires l5 == b16 + 0x100 * b17 + 0x1_0000 * b18 + 0x100_0000 * b19
    requires l6 == b20 + 0x100 * b21 + 0x1_0000 * b22
    requires l7 == b23 + 0x100 * b24 + 0x1_0000 * b25
    requires l8 == b26 + 0x100 * b27 + 0x1_0000 * b28
    requires l9 == b29 + 0x100 * b30 + 0x1_0000 * b31
    ensures Sum32(b0, b1, b2, b3, b4, b5, b6, b7, b8, b9, b10, b11, b12, b13, b14, b15,
                  b16, b17, b18, b19, b20, b21, b22, b23, b24, b25, b26, b27, b28, b29, b30, b31)
      == l0 + 0x1_0000_0000 * l1 + 0x100_0000_0000_0000 * l2 +
         0x1_0000_0000_0000_0000_0000 * l3 + 0x100_0000_0000_0000_0000_0000_0000 * l4 + 0x1_0000_0000_0000_0000_0000_0000_0000_0000 * l5 +
         0x1_0000_0000_0000_0000_0000_0000_0000_0000_0000_0000 * l6 + 0x100_0000_0000_0000_0000_0000_0000_0000_0000_0000_0000_0000 * l7 + 0x1_0000_0000_0000_0000_0000_0000_0000_0000_0000_0000_0000_0000_0000 * l8 +
         0x100_0000_0000_0000_0000_0000_0000_0000_0000_0000_0000_0000_0000_0000_0000 * l9
  {
  }

  /** Shifted into place, the loads without bit 255 have the value of the low 255 bits. */
  lemma LoadedLimbs(l0: int, l1: int, l2: int, l3: int, l4: int, l5: int, l6: int, l7: int, l8: int, l9: int, top: int)
    requires 0 <= l0 < 0x1_0000_0000 && 0 <= l1 < 0x100_0000 && 0 <= l2 < 0x100_0000 && 0 <= l3 < 0x100_0000 && 0 <= l4 < 0x100_0000 && 0 <= l5 < 0x1_0000_0000 && 0 <= l6 < 0x100_0000 && 0 <= l7 < 0x100_0000 && 0 <= l8 < 0x100_0000 && 0 <= l9 < 0x80_0000
    ensures V10(l0, l1 * 64, l2 * 32, l3 * 8, l4 * 4, l5, l6 * 128, l7 * 32, l8 * 16, l9 * 4)
      == (l0 + 0x1_0000_0000 * l1 + 0x100_0000_0000_0000 * l2 +
          0x1_0000_0000_0000_0000_0000 * l3 + 0x100_0000_0000_0000_0000_0000_0000 * l4 + 0x1_0000_0000_0000_0000_0000_0000_0000_0000 * l5 +
          0x1_0000_0000_0000_0000_0000_0000_0000_0000_0000_0000 * l6 + 0x100_0000_0000_0000_0000_0000_0000_0000_0000_0000_0000_0000 * l7 + 0x1_0000_0000_0000_0000_0000_0000_0000_0000_0000_0000_0000_0000_0000 * l8 +
          0x100_0000_0000_0000_0000_0000_0000_0000_0000_0000_0000_0000_0000_0000_0000 * (l9 + 0x80_0000 * top))
         % 0x8000_0000_0000_0000_0000_0000_0000_0000_0000_0000_0000_0000_0000_0000_0000_0000
  {
    var v := l0 + 0x1_0000_0000 * l1 + 0x100_0000_0000_0000 * l2 +
             0x1_0000_0000_0000_0000_0000 * l3 + 0x100_0000_0000_0000_0000_0000_0000 * l4 + 0x1_0000_0000_0000_0000_0000_0000_0000_0000 * l5 +
             0x1_0000_0000_0000_0000_0000_0000_0000_0000_0000_0000 * l6 + 0x100_0000_0000_0000_0000_0000_0000_0000_0000_0000_0000_0000 * l7 + 0x1_0000_0000_0000_0000_0000_0000_0000_0000_0000_0000_0000_0000_0000 * l8 +
             0x100_0000_0000_0000_0000_0000_0000_0000_0000_0000_0000_0000_0000_0000_0000 * l9;
    LoadedRange(l0, l1, l2, l3, l4, l5, l6, l7, l8, l9);
    LowBits(v, top);
  }

  lemma LoadedRange(l0: int, l1: int, l2: int, l3: int, l4: int, l5: int, l6: int, l7: int, l8: int, l9: int)
    requires 0 <= l0 < 0x1_0000_0000 && 0 <= l1 < 0x100_0000 && 0 <= l2 < 0x100_0000 && 0 <= l3 < 0x100_0000 && 0 <= l4 < 0x100_0000 && 0 <= l5 < 0x1_0000_0000 && 0 <= l6 < 0x100_0000 && 0 <= l7 < 0x100_0000 && 0 <= l8 < 0x100_0000 && 0 <= l9 < 0x80_0000
    ensures 0 <= l0 + 0x1_0000_0000 * l1 + 0x100_0000_0000_0000 * l2 +
                 0x1_0000_0000_0000_0000_0000 * l3 + 0x100_0000_0000_0000_0000_0000_0000 * l4 + 0x1_0000_0000_0000_0000_0000_0000_0000_0000 * l5 +
                 0x1_0000_0000_0000_0000_0000_0000_0000_0000_0000_0000 * l6 + 0x100_0000_0000_0000_0000_0000_0000_0000_0000_0000_0000_0000 * l7 + 0x1_0000_0000_0000_0000_0000_0000_0000_0000_0000_0000_0000_0000_0000 * l8 +
                 0x100_0000_0000_0000_0000_0000_0000_0000_0000_0000_0000_0000_0000_0000_0000 * l9
      < 0x8000_0000_0000_0000_0000_0000_0000_0000_0000_0000_0000_0000_0000_0000_0000_0000
  {
  }

  lemma LowBits(v: int, top: int)
    requires 0 <= v < 0x8000_0000_0000_0000_0000_0000_0000_0000_0000_0000_0000_0000_0000_0000_0000_0000
    ensures (v + 0x8000_0000_0000_0000_0000_0000_0000_0000_0000_0000_0000_0000_0000_0000_0000_0000 * top) % 0x8000_0000_0000_0000_0000_0000_0000_0000_0000_0000_0000_0000_0000_0000_0000_0000 == v
  {
  }

  // ---------------------------------------------------------------- storing

  /** The chain of floor divisions that estimates the quotient by p: it is exact. */
  method Quotient(h: seq<int32>) returns (q: int32)
    requires Limit(h, 220)
    ensures q as int == Val(h) / P && -2 <= q <= 1
  {
    ghost var q0, q1, q2, q3, q4, q5, q6, q7, q8, t;
    q := (19 * h[9] + 0x100_0000) / 0x200_0000;
    t := q as int;
    q := (h[0] + q) / 0x400_0000;
    q0 := q as int;
    q := (h[1] + q) / 0x200_0000;
    q1 := q as int;
    q := (h[2] + q) / 0x400_0000;
    q2 := q as int;
    q := (h[3] + q) / 0x200_0000;
    q3 := q as int;
    q := (h[4] + q) / 0x400_0000;
    q4 := q as int;
    q := (h[5] + q) / 0x200_0000;
    q5 := q as int;
    q := (h[6] + q) / 0x400_0000;
    q6 := q as int;
    q := (h[7] + q) / 0x200_0000;
    q7 := q as int;
    q := (h[8] + q) / 0x400_0000;
    q8 := q as int;
    q := (h[9] + q) / 0x200_0000;
    var f0, f1, f2, f3, f4 := h[0] as int, h[1] as int, h[2] as int, h[3] as int, h[4] as int;
    var f5, f6, f7, f8, f9 := h[5] as int, h[6] as int, h[7] as int, h[8] as int, h[9] as int;
    hide V10;
    NestedFloors(f0, f1, f2, f3, f4, f5, f6, f7, f8, f9, t, q0, q1, q2, q3, q4, q5, q6, q7, q8, q as int);
    RestOfValue(f0, f1, f2, f3, f4, f5, f6, f7, f8, f9);
    ExactQuotient(Val(h), f9, t, q as int);
  }

  /** The nested floors divide value plus first guess by 2^255. */
  lemma NestedFloors(h0: int, h1: int, h2: int, h3: int, h4: int, h5: int, h6: int, h7: int, h8: int, h9: int,
                     t: int, q0: int, q1: int, q2: int, q3: int, q4: int, q5: int, q6: int, q7: int, q8: int, q: int)
    requires q0 == (h0 + t) / 0x400_0000
    requires q1 == (h1 + q0) / 0x200_0000
    requires q2 == (h2 + q1) / 0x400_0000
    requires q3 == (h3 + q2) / 0x200_0000
    requires q4 == (h4 + q3) / 0x400_0000
    requires q5 == (h5 + q4) / 0x200_0000
    requires q6 == (h6 + q5) / 0x400_0000
    requires q7 == (h7 + q6) / 0x200_0000
    requires q8 == (h8 + q7) / 0x400_0000
    requires q == (h9 + q8) / 0x200_0000
    ensures 0 <= V10(h0, h1, h2, h3, h4, h5, h6, h7, h8, h9) + t - 0x8000_0000_0000_0000_0000_0000_0000_0000_0000_0000_0000_0000_0000_0000_0000_0000 * q < 0x8000_0000_0000_0000_0000_0000_0000_0000_0000_0000_0000_0000_0000_0000_0000_0000
  {
    var r0 := (h0 + t) % 0x400_0000;
    var r1 := (h1 + q0) % 0x200_0000;
    var r2 := (h2 + q1) % 0x400_0000;
    var r3 := (h3 + q2) % 0x200_0000;
    var r4 := (h4 + q3) % 0x400_0000;
    var r5 := (h5 + q4) % 0x200_0000;
    var r6 := (h6 + q5) % 0x400_0000;
    var r7 := (h7 + q6) % 0x200_0000;
    var r8 := (h8 + q7) % 0x400_0000;
    var r9 := (h9 + q8) % 0x200_0000;
    RemainderRange(r0, r1, r2, r3, r4, r5, r6, r7, r8, r9);
    RemainderValue(h0, h1, h2, h3, h4, h5, h6, h7, h8, h9, t, q0, q1, q2, q3, q4, q5, q6, q7, q8, q,
                   r0, r1, r2, r3, r4, r5, r6, r7, r8, r9);
  }

  lemma RemainderRange(r0: int, r1: int, r2: int, r3: int, r4: int, r5: int, r6: int, r7: int, r8: int, r9: int)
    requires 0 <= r0 < 0x400_0000 && 0 <= r1 < 0x200_0000 && 0 <= r2 < 0x400_0000 && 0 <= r3 < 0x200_0000 && 0 <= r4 < 0x400_0000
    requires 0 <= r5 < 0x200_0000 && 0 <= r6 < 0x400_0000 && 0 <= r7 < 0x200_0000 && 0 <= r8 < 0x400_0000 && 0 <= r9 < 0x200_0000
    ensures 0 <= V10(r0, r1, r2, r3, r4, r5, r6, r7, r8, r9) < 0x8000_0000_0000_0000_0000_0000_0000_0000_0000_0000_0000_0000_0000_0000_0000_0000
  {
  }

  lemma RemainderValue(h0: int, h1: int, h2: int, h3: int, h4: int, h5: int, h6: int, h7: int, h8: int, h9: int,
                       t: int, q0: int, q1: int, q2: int, q3: int, q4: int, q5: int, q6: int, q7: int, q8: int, q: int,
                       r0: int, r1: int, r2: int, r3: int, r4: int, r5: int, r6: int, r7: int, r8: int, r9: int)
    requires h0 + t == 0x400_0000 * q0 + r0
    requires h1 + q0 == 0x200_0000 * q1 + r1
    requires h2 + q1 == 0x400_0000 * q2 + r2
    requires h3 + q2 == 0x200_0000 * q3 + r3
    requires h4 + q3 == 0x400_0000 * q4 + r4
    requires h5 + q4 == 0x200_0000 * q5 + r5
    requires h6 + q5 == 0x400_0000 * q6 + r6
    requires h7 + q6 == 0x200_0000 * q7 + r7
    requires h8 + q7 == 0x400_0000 * q8 + r8
    requires h9 + q8 == 0x200_0000 * q + r9
    ensures V10(h0, h1, h2, h3, h4, h5, h6, h7, h8, h9) + t == 0x8000_0000_0000_0000_0000_0000_0000_0000_0000_0000_0000_0000_0000_0000_0000_0000 * q + V10(r0, r1, r2, r3, r4, r5, r6, r7, r8, r9)
  {
  }

  /** All limbs but the last are worth little. */
  lemma RestOfValue(h0: int, h1: int, h2: int, h3: int, h4: int, h5: int, h6: int, h7: int, h8: int, h9: int)
    requires EvenLimit(h0, 220) && OddLimit(h1, 220) && EvenLimit(h2, 220) && OddLimit(h3, 220) && EvenLimit(h4, 220) && OddLimit(h5, 220) && EvenLimit(h6, 220) && OddLimit(h7, 220) && EvenLimit(h8, 220)
    ensures -0x80_0000_0000_0000_0000_0000_0000_0000_0000_0000_0000_0000_0000_0000_0000 <= V10(h0, h1, h2, h3, h4, h5, h6, h7, h8, h9) - 0x40_0000_0000_0000_0000_0000_0000_0000_0000_0000_0000_0000_0000_0000_0000 * h9 <= 0x80_0000_0000_0000_0000_0000_0000_0000_0000_0000_0000_0000_0000_0000_0000
  {
  }

  /**
   The guess t = round(19 h9 / 2^25) makes floor((v + t) / 2^255) the exact quotient by p, because t is
   off from 19 q by no more than the remainder can bear.
   */
  lemma ExactQuotient(v: int, h9: int, t: int, q: int)
    requires OddLimit(h9, 220)
    requires t == (19 * h9 + 0x100_0000) / 0x200_0000
    requires -0x80_0000_0000_0000_0000_0000_0000_0000_0000_0000_0000_0000_0000_0000_0000 <= v - 0x40_0000_0000_0000_0000_0000_0000_0000_0000_0000_0000_0000_0000_0000_0000 * h9 <= 0x80_0000_0000_0000_0000_0000_0000_0000_0000_0000_0000_0000_0000_0000_0000
    requires 0 <= v + t - 0x8000_0000_0000_0000_0000_0000_0000_0000_0000_0000_0000_0000_0000_0000_0000_0000 * q < 0x8000_0000_0000_0000_0000_0000_0000_0000_0000_0000_0000_0000_0000_0000_0000_0000
    ensures q == v / P && -2 <= q <= 1
  {
    ModulusValue();
    var rest, r, d := v - 0x40_0000_0000_0000_0000_0000_0000_0000_0000_0000_0000_0000_0000_0000_0000 * h9, v + t - 0x8000_0000_0000_0000_0000_0000_0000_0000_0000_0000_0000_0000_0000_0000_0000_0000 * q, t - 19 * q;
    assert 0x200_0000 * t <= 19 * h9 + 0x100_0000 < 0x200_0000 * (t + 1);
    assert 0x8000_0000_0000_0000_0000_0000_0000_0000_0000_0000_0000_0000_0000_0000_0000_0000 * d <= 19 * (r - t - rest) + 0x4000_0000_0000_0000_0000_0000_0000_0000_0000_0000_0000_0000_0000_0000_0000_0000 < 0x8000_0000_0000_0000_0000_0000_0000_0000_0000_0000_0000_0000_0000_0000_0000_0000 * (d + 1);
    assert -30 <= t <= 30;
    assert 0 <= d <= 19;
    assert r < 19 ==> d == 0;
    assert r >= 0x8000_0000_0000_0000_0000_0000_0000_0000_0000_0000_0000_0000_0000_0000_0000_0000 - 19 ==> d == 19;
    assert v - P * q == r - d;
    assert 0 <= v - P * q < P;
  }

  /** The quotient -2 does occur within the stated bounds, although the comment on `fe_tobytes` argues with |q| <= 1. */
  lemma QuotientMinusTwo()
    ensures var h: seq<int32> := [0, 0, 0, 0, 0, 0, 0, 0, 0, -36909875]; Limit(h, 220) && Val(h) / P == -2
  {
    ModulusValue();
    hide P;
    ModUnique(-0x40_0000_0000_0000_0000_0000_0000_0000_0000_0000_0000_0000_0000_0000_0000 * 36909875, P, -2,
              2 * P - 0x40_0000_0000_0000_0000_0000_0000_0000_0000_0000_0000_0000_0000_0000_0000 * 36909875);
  }

  /** `hi += lo >> 26; lo &= kBottom26Bits`. */
  method FloorCarry26(lo: int32, hi: int32) returns (lo': int32, hi': int32, ghost k: int)
    requires -0x6000_0000 <= hi <= 0x6000_0000
    ensures 0 <= lo' < 0x400_0000
    ensures lo' as int == lo as int - 0x400_0000 * k && hi' as int == hi as int + k && -0x20 <= k <= 0x20
  {
    k := (lo / 0x400_0000) as int;
    hi' := hi + lo / 0x400_0000;
    lo' := lo % 0x400_0000;
  }

  /** `hi += lo >> 25; lo &= kBottom25Bits`. */
  method FloorCarry25(lo: int32, hi: int32) returns (lo': int32, hi': int32, ghost k: int)
    requires -0x6000_0000 <= hi <= 0x6000_0000
    ensures 0 <= lo' < 0x200_0000
    ensures lo' as int == lo as int - 0x200_0000 * k && hi' as int == hi as int + k && -0x40 <= k <= 0x40
  {
    k := (lo / 0x200_0000) as int;
    hi' := hi + lo / 0x200_0000;
    lo' := lo % 0x200_0000;
  }

  /** Subtracts q p: adds 19 q, carries, and drops what leaves bit 255. The limbs hold the value modulo p. */
  method SubtractModulus(h: seq<int32>, q: int32)
    returns (h0: int32, h1: int32, h2: int32, h3: int32, h4: int32, h5: int32, h6: int32, h7: int32, h8: int32, h9: int32)
    requires Limit(h, 220) && q as int == Val(h) / P && -2 <= q <= 1
    ensures 0 <= h0 < 0x400_0000 && 0 <= h1 < 0x200_0000 && 0 <= h2 < 0x400_0000 && 0 <= h3 < 0x200_0000 && 0 <= h4 < 0x400_0000
    ensures 0 <= h5 < 0x200_0000 && 0 <= h6 < 0x400_0000 && 0 <= h7 < 0x200_0000 && 0 <= h8 < 0x400_0000 && 0 <= h9 < 0x200_0000
    ensures V10(h0 as int, h1 as int, h2 as int, h3 as int, h4 as int, h5 as int, h6 as int, h7 as int, h8 as int, h9 as int) == Val(h) % P
  {
    hide V10;
    h0, h1, h2, h3, h4, h5, h6, h7, h8, h9 := h[0], h[1], h[2], h[3], h[4], h[5], h[6], h[7], h[8], h[9];
    ghost var k0, k1, k2, k3, k4, k5, k6, k7, k8;
    h0 := h0 + 19 * q;
    h0, h1, k0 := FloorCarry26(h0, h1);
    h1, h2, k1 := FloorCarry25(h1, h2);
    h2, h3, k2 := FloorCarry26(h2, h3);
    h3, h4, k3 := FloorCarry25(h3, h4);
    h4, h5, k4 := FloorCarry26(h4, h5);
    h5, h6, k5 := FloorCarry25(h5, h6);
    h6, h7, k6 := FloorCarry26(h6, h7);
    h7, h8, k7 := FloorCarry25(h7, h8);
    h8, h9, k8 := FloorCarry26(h8, h9);
    ghost var dropped := (h9 / 0x200_0000) as int;
    h9 := h9 % 0x200_0000;
    Carried(h[0] as int, h[1] as int, h[2] as int, h[3] as int, h[4] as int,
            h[5] as int, h[6] as int, h[7] as int, h[8] as int, h[9] as int,
            h0 as int, h1 as int, h2 as int, h3 as int, h4 as int,
            h5 as int, h6 as int, h7 as int, h8 as int, h9 as int, q as int,
            k0, k1, k2, k3, k4, k5, k6, k7, k8, dropped);
    RemainderRange(h0 as int, h1 as int, h2 as int, h3 as int, h4 as int, h5 as int, h6 as int, h7 as int, h8 as int, h9 as int);
    Remainder(Val(h), V10(h0 as int, h1 as int, h2 as int, h3 as int, h4 as int, h5 as int, h6 as int, h7 as int, h8 as int, h9 as int), q as int, dropped);
  }

  lemma Carried(a0: int, a1: int, a2: int, a3: int, a4: int, a5: int, a6: int, a7: int, a8: int, a9: int,
                h0: int, h1: int, h2: int, h3: int, h4: int, h5: int, h6: int, h7: int, h8: int, h9: int, q: int,
                k0: int, k1: int, k2: int, k3: int, k4: int, k5: int, k6: int, k7: int, k8: int, k9: int)
    requires h0 == a0 + 19 * q - 0x400_0000 * k0
    requires h1 == a1 + k0 - 0x200_0000 * k1
    requires h2 == a2 + k1 - 0x400_0000 * k2
    requires h3 == a3 + k2 - 0x200_0000 * k3
    requires h4 == a4 + k3 - 0x400_0000 * k4
    requires h5 == a5 + k4 - 0x200_0000 * k5
    requires h6 == a6 + k5 - 0x400_0000 * k6
    requires h7 == a7 + k6 - 0x200_0000 * k7
    requires h8 == a8 + k7 - 0x400_0000 * k8
    requires h9 == a9 + k8 - 0x200_0000 * k9
    ensures V10(a0, a1, a2, a3, a4, a5, a6, a7, a8, a9) + 19 * q == V10(h0, h1, h2, h3, h4, h5, h6, h7, h8, h9) + 0x8000_0000_0000_0000_0000_0000_0000_0000_0000_0000_0000_0000_0000_0000_0000_0000 * k9
  {
  }

  lemma Remainder(v: int, w: int, q: int, dropped: int)
    requires q == v / P && v + 19 * q == w + 0x8000_0000_0000_0000_0000_0000_0000_0000_0000_0000_0000_0000_0000_0000_0000_0000 * dropped
    requires 0 <= w < 0x8000_0000_0000_0000_0000_0000_0000_0000_0000_0000_0000_0000_0000_0000_0000_0000
    ensures w == v % P
  {
    ModulusValue();
  }

  /** The canonical encoding: the 32 bytes of the value modulo p, whatever the limbs. */
  method ToBytes(s: array<uint8>, h: seq<int32>)
    requires s.Length >= 32
    requires Limit(h, 220)
    modifies s
    ensures s[..32] == ToLE(Val(h) % P, 32)
    ensures s[32..] == old(s[32..])
  {
    var q := Quotient(h);
    var h0, h1, h2, h3, h4, h5, h6, h7, h8, h9 := SubtractModulus(h, q);
    var bytes := Pack(h0 as nat, h1 as nat, h2 as nat, h3 as nat, h4 as nat, h5 as nat, h6 as nat, h7 as nat, h8 as nat, h9 as nat);
    ToLEUnique(bytes);
    Store32(s, 0, bytes);
  }

  /** Whether the element is different from 0. */
  method IsNonzero(f: seq<int32>) returns (r: bool)
    requires Limit(f, 220)
    ensures r <==> Val(f) % P != 0
  {
    ghost var v := Val(f) % P;
    hide Val, Limit, LE, ToLE;
    var s := new uint8[32];
    ToBytes(s, f);
    assert s[..] == s[..32];
    FitsIn32Bytes(v);
    ToLEValue(v, 32);
    ZeroBytes(s[..]);
    r := exists i :: 0 <= i < 32 && s[i] != 0;
  }

  /** The sign of an element is the lowest bit of its canonical encoding. */
  method IsNegative(f: seq<int32>) returns (r: nat)
    requires Limit(f, 220)
    ensures r == Val(f) % P % 2
  {
    ghost var v := Val(f) % P;
    hide Val, Limit, LE, ToLE;
    var s := new uint8[32];
    ToBytes(s, f);
    assert s[..] == s[..32];
    FitsIn32Bytes(v);
    ToLEValue(v, 32);
    LowestBit(s[..]);
    r := (s[0] % 2) as nat;
  }

  lemma LowestBit(s: seq<uint8>)
    requires |s| > 0
    ensures LE(s) % 2 == s[0] as int % 2
  {
    LEStep(s, 0);
  }

  /** The 32 bytes of ten limbs of 26 and 25 bits. */
  method Pack(h0: nat, h1: nat, h2: nat, h3: nat, h4: nat, h5: nat, h6: nat, h7: nat, h8: nat, h9: nat)
    returns (s: seq<uint8>)
    requires h0 < 0x400_0000 && h1 < 0x200_0000 && h2 < 0x400_0000 && h3 < 0x200_0000 && h4 < 0x400_0000
    requires h5 < 0x200_0000 && h6 < 0x400_0000 && h7 < 0x200_0000 && h8 < 0x400_0000 && h9 < 0x200_0000
    ensures |s| == 32
    ensures LE(s) == V10(h0, h1, h2, h3, h4, h5, h6, h7, h8, h9)
  {
    hide *;
    PackRoom(h0, h1, h2, h3, h4, h5, h6, h7, h8, h9);
    s :=
      [ByteAt(h0, 0x1) as uint8, ByteAt(h0, 0x100) as uint8, ByteAt(h0, 0x1_0000) as uint8, Splice(High(h0, 0x100_0000), h1, 2),
       ByteAt(h1, 0x40) as uint8, ByteAt(h1, 0x4000) as uint8, Splice(High(h1, 0x40_0000), h2, 3),
       ByteAt(h2, 0x20) as uint8, ByteAt(h2, 0x2000) as uint8, Splice(High(h2, 0x20_0000), h3, 5),
       ByteAt(h3, 0x8) as uint8, ByteAt(h3, 0x800) as uint8, Splice(High(h3, 0x8_0000), h4, 6),
       ByteAt(h4, 0x4) as uint8, ByteAt(h4, 0x400) as uint8, ByteAt(h4, 0x4_0000) as uint8,
       ByteAt(h5, 0x1) as uint8, ByteAt(h5, 0x100) as uint8, ByteAt(h5, 0x1_0000) as uint8, Splice(High(h5, 0x100_0000), h6, 1),
       ByteAt(h6, 0x80) as uint8, ByteAt(h6, 0x8000) as uint8, Splice(High(h6, 0x80_0000), h7, 3),
       ByteAt(h7, 0x20) as uint8, ByteAt(h7, 0x2000) as uint8, Splice(High(h7, 0x20_0000), h8, 4),
       ByteAt(h8, 0x10) as uint8, ByteAt(h8, 0x1000) as uint8, Splice(High(h8, 0x10_0000), h9, 6),
       ByteAt(h9, 0x4) as uint8, ByteAt(h9, 0x400) as uint8, ByteAt(h9, 0x4_0000) as uint8];
    PackValue(s, h0, h1, h2, h3, h4, h5, h6, h7, h8, h9);
  }

  lemma PackRoom(h0: nat, h1: nat, h2: nat, h3: nat, h4: nat, h5: nat, h6: nat, h7: nat, h8: nat, h9: nat)
    requires h0 < 0x400_0000 && h1 < 0x200_0000 && h2 < 0x400_0000 && h3 < 0x200_0000 && h4 < 0x400_0000
    requires h5 < 0x200_0000 && h6 < 0x400_0000 && h7 < 0x200_0000 && h8 < 0x400_0000 && h9 < 0x200_0000
    ensures High(h0, 0x100_0000) < Pow2(2) == 4 && High(h1, 0x40_0000) < Pow2(3) == 8 && High(h2, 0x20_0000) < Pow2(5) == 32 && High(h3, 0x8_0000) < Pow2(6) == 64
    ensures High(h5, 0x100_0000) < Pow2(1) == 2 && High(h6, 0x80_0000) < Pow2(3) == 8 && High(h7, 0x20_0000) < Pow2(4) == 16 && High(h8, 0x10_0000) < Pow2(6) == 64
    ensures Pow2(2) == 4 && Pow2(3) == 8 && Pow2(4) == 16 && Pow2(5) == 32 && Pow2(6) == 64 && Pow2(7) == 128
  {
    hide Pow2;
    PowersOfTwo();
  }

  lemma PackValue(s: seq<uint8>, h0: nat, h1: nat, h2: nat, h3: nat, h4: nat, h5: nat, h6: nat, h7: nat, h8: nat, h9: nat)
    requires h4 < 0x400_0000 && h9 < 0x200_0000
    requires |s| == 32
    requires s[0] as int == ByteAt(h0, 0x1)
    requires s[1] as int == ByteAt(h0, 0x100)
    requires s[2] as int == ByteAt(h0, 0x1_0000)
    requires s[3] as int == High(h0, 0x100_0000) + 4 * Low(h1, 64)
    requires s[4] as int == ByteAt(h1, 0x40)
    requires s[5] as int == ByteAt(h1, 0x4000)
    requires s[6] as int == High(h1, 0x40_0000) + 8 * Low(h2, 32)
    requires s[7] as int == ByteAt(h2, 0x20)
    requires s[8] as int == ByteAt(h2, 0x2000)
    requires s[9] as int == High(h2, 0x20_0000) + 32 * Low(h3, 8)
    requires s[10] as int == ByteAt(h3, 0x8)
    requires s[11] as int == ByteAt(h3, 0x800)
    requires s[12] as int == High(h3, 0x8_0000) + 64 * Low(h4, 4)
    requires s[13] as int == ByteAt(h4, 0x4)
    requires s[14] as int == ByteAt(h4, 0x400)
    requires s[15] as int == ByteAt(h4, 0x4_0000)
    requires s[16] as int == ByteAt(h5, 0x1)
    requires s[17] as int == ByteAt(h5, 0x100)
    requires s[18] as int == ByteAt(h5, 0x1_0000)
    requires s[19] as int == High(h5, 0x100_0000) + 2 * Low(h6, 128)
    requires s[20] as int == ByteAt(h6, 0x80)
    requires s[21] as int == ByteAt(h6, 0x8000)
    requires s[22] as int == High(h6, 0x80_0000) + 8 * Low(h7, 32)
    requires s[23] as int == ByteAt(h7, 0x20)
    requires s[24] as int == ByteAt(h7, 0x2000)
    requires s[25] as int == High(h7, 0x20_0000) + 16 * Low(h8, 16)
    requires s[26] as int == ByteAt(h8, 0x10)
    requires s[27] as int == ByteAt(h8, 0x1000)
    requires s[28] as int == High(h8, 0x10_0000) + 64 * Low(h9, 4)
    requires s[29] as int == ByteAt(h9, 0x4)
    requires s[30] as int == ByteAt(h9, 0x400)
    requires s[31] as int == ByteAt(h9, 0x4_0000)
    ensures LE(s) == V10(h0, h1, h2, h3, h4, h5, h6, h7, h8, h9)
  {
    hide *;
    LE32(s);
    ByteStep(h0, 0x1); ByteStep(h0, 0x100); ByteStep(h0, 0x1_0000); HighLow(h0, 0x1);
    ByteStep(h1, 0x40); ByteStep(h1, 0x4000); HighLow(h1, 0x40);
    ByteStep(h2, 0x20); ByteStep(h2, 0x2000); HighLow(h2, 0x20);
    ByteStep(h3, 0x8); ByteStep(h3, 0x800); HighLow(h3, 0x8);
    ByteStep(h4, 0x4); ByteStep(h4, 0x400); ByteStep(h4, 0x4_0000); HighLow(h4, 0x4); HighLow(h4, 0x400_0000);
    ByteStep(h5, 0x1); ByteStep(h5, 0x100); ByteStep(h5, 0x1_0000); HighLow(h5, 0x1);
    ByteStep(h6, 0x80); ByteStep(h6, 0x8000); HighLow(h6, 0x80);
    ByteStep(h7, 0x20); ByteStep(h7, 0x2000); HighLow(h7, 0x20);
    ByteStep(h8, 0x10); ByteStep(h8, 0x1000); HighLow(h8, 0x10);
    ByteStep(h9, 0x4); ByteStep(h9, 0x400); ByteStep(h9, 0x4_0000); HighLow(h9, 0x4); HighLow(h9, 0x400_0000);
    PackedSum(s[0] as int, s[1] as int, s[2] as int, s[3] as int, s[4] as int, s[5] as int, s[6] as int, s[7] as int,
              s[8] as int, s[9] as int, s[10] as int, s[11] as int, s[12] as int, s[13] as int, s[14] as int, s[15] as int,
              s[16] as int, s[17] as int, s[18] as int, s[19] as int, s[20] as int, s[21] as int, s[22] as int, s[23] as int,
              s[24] as int, s[25] as int, s[26] as int, s[27] as int, s[28] as int, s[29] as int, s[30] as int, s[31] as int,
              h0, h1, h2, h3, h4, h5, h6, h7, h8, h9,
              High(h0, 0x100_0000), High(h1, 0x40_0000), High(h2, 0x20_0000), High(h3, 0x8_0000), High(h5, 0x100_0000), High(h6, 0x80_0000), High(h7, 0x20_0000), High(h8, 0x10_0000),
              Low(h1, 64), Low(h2, 32), Low(h3, 8), Low(h4, 4), Low(h6, 128), Low(h7, 32), Low(h8, 16), Low(h9, 4));
  }

  lemma PackedSum(b0: int, b1: int, b2: int, b3: int, b4: int, b5: int, b6: int, b7: int, b8: int, b9: int, b10: int, b11: int, b12: int, b13: int, b14: int, b15: int,
                  b16: int, b17: int, b18: int, b19: int, b20: int, b21: int, b22: int, b23: int, b24: int, b25: int, b26: int, b27: int, b28: int, b29: int, b30: int, b31: int,
                  h0: int, h1: int, h2: int, h3: int, h4: int, h5: int, h6: int, h7: int, h8: int, h9: int,
                  t0: int, t1: int, t2: int, t3: int, t5: int, t6: int, t7: int, t8: int,
                  u1: int, u2: int, u3: int, u4: int, u6: int, u7: int, u8: int, u9: int)
    requires b3 == t0 + 4 * u1
    requires b6 == t1 + 8 * u2
    requires b9 == t2 + 32 * u3
    requires b12 == t3 + 64 * u4
    requires b19 == t5 + 2 * u6
    requires b22 == t6 + 8 * u7
    requires b25 == t7 + 16 * u8
    requires b28 == t8 + 64 * u9
    requires h0 == b0 + 0x100 * b1 + 0x1_0000 * b2 + 0x100_0000 * t0
    requires h1 == u1 + 0x40 * b4 + 0x4000 * b5 + 0x40_0000 * t1
    requires h2 == u2 + 0x20 * b7 + 0x2000 * b8 + 0x20_0000 * t2
    requires h3 == u3 + 0x8 * b10 + 0x800 * b11 + 0x8_0000 * t3
    requires h4 == u4 + 0x4 * b13 + 0x400 * b14 + 0x4_0000 * b15
    requires h5 == b16 + 0x100 * b17 + 0x1_0000 * b18 + 0x100_0000 * t5
    requires h6 == u6 + 0x80 * b20 + 0x8000 * b21 + 0x80_0000 * t6
    requires h7 == u7 + 0x20 * b23 + 0x2000 * b24 + 0x20_0000 * t7
    requires h8 == u8 + 0x10 * b26 + 0x1000 * b27 + 0x10_0000 * t8
    requires h9 == u9 + 0x4 * b29 + 0x400 * b30 + 0x4_0000 * b31
    ensures Sum32(b0, b1, b2, b3, b4, b5, b6, b7, b8, b9, b10, b11, b12, b13, b14, b15,
                  b16, b17, b18, b19, b20, b21, b22, b23, b24, b25, b26, b27, b28, b29, b30, b31)
      == V10(h0, h1, h2, h3, h4, h5, h6, h7, h8, h9)
  {
  }
}
