/** The scalar operations on byte strings: `x25519_sc_reduce` and `sc_muladd`. */
module ScalarOps {
  import opened CInts
  import opened Bytes
  import opened Field
  import opened Products
  import opened Scalar

  // ---------------------------------------------------------------- loading

  lemma LimbBits0(v: int, b0: int, b1: int, b2: int)
    requires 0 <= b0 < 0x100 && 0 <= b1 < 0x100 && 0 <= b2 < 0x100
    requires v == b0 + 0x100 * b1 + 0x1_0000 * b2
    ensures v % 0x20_0000 == b0 + 0x100 * b1 + 0x1_0000 * (b2 % 32)
  {
  }

  /** `kBottom21Bits & load_3(s + i)`. */
  function Limb0(s: seq<uint8>, i: nat): (l: int64)
    requires i + 3 <= |s|
    ensures l as int == s[i] as int + 0x100 * s[i + 1] as int + 0x1_0000 * (s[i + 2] as int % 32)
    ensures 0 <= l < 0x20_0000
  {
    var v := Load3(s, i);
    LimbBits0(v as int, s[i] as int, s[i + 1] as int, s[i + 2] as int);
    (v % 0x20_0000) as int64
  }

  lemma LimbBits1(v: int, b0: int, b1: int, b2: int, b3: int)
    requires 0 <= b0 < 0x100 && 0 <= b1 < 0x100 && 0 <= b2 < 0x100 && 0 <= b3 < 0x100
    requires v == b0 + 0x100 * b1 + 0x1_0000 * b2 + 0x100_0000 * b3
    ensures v / 32 % 0x20_0000 == b0 / 32 + 0x8 * b1 + 0x800 * b2 + 0x8_0000 * (b3 % 4)
  {
  }

  /** `kBottom21Bits & (load_4(s + i) >> 5)`. */
  function Limb1(s: seq<uint8>, i: nat): (l: int64)
    requires i + 4 <= |s|
    ensures l as int == s[i] as int / 32 + 0x8 * s[i + 1] as int + 0x800 * s[i + 2] as int + 0x8_0000 * (s[i + 3] as int % 4)
    ensures 0 <= l < 0x20_0000
  {
    var v := Load4(s, i);
    LimbBits1(v as int, s[i] as int, s[i + 1] as int, s[i + 2] as int, s[i + 3] as int);
    (v / 32 % 0x20_0000) as int64
  }

  lemma LimbBits2(v: int, b0: int, b1: int, b2: int)
    requires 0 <= b0 < 0x100 && 0 <= b1 < 0x100 && 0 <= b2 < 0x100
    requires v == b0 + 0x100 * b1 + 0x1_0000 * b2
    ensures v / 4 % 0x20_0000 == b0 / 4 + 0x40 * b1 + 0x4000 * (b2 % 128)
  {
  }

  /** `kBottom21Bits & (load_3(s + i) >> 2)`. */
  function Limb2(s: seq<uint8>, i: nat): (l: int64)
    requires i + 3 <= |s|
    ensures l as int == s[i] as int / 4 + 0x40 * s[i + 1] as int + 0x4000 * (s[i + 2] as int % 128)
    ensures 0 <= l < 0x20_0000
  {
    var v := Load3(s, i);
    LimbBits2(v as int, s[i] as int, s[i + 1] as int, s[i + 2] as int);
    (v / 4 % 0x20_0000) as int64
  }

  lemma LimbBits3(v: int, b0: int, b1: int, b2: int, b3: int)
    requires 0 <= b0 < 0x100 && 0 <= b1 < 0x100 && 0 <= b2 < 0x100 && 0 <= b3 < 0x100
    requires v == b0 + 0x100 * b1 + 0x1_0000 * b2 + 0x100_0000 * b3
    ensures v / 128 % 0x20_0000 == b0 / 128 + 0x2 * b1 + 0x200 * b2 + 0x2_0000 * (b3 % 16)
  {
  }

  /** `kBottom21Bits & (load_4(s + i) >> 7)`. */
  function Limb3(s: seq<uint8>, i: nat): (l: int64)
    requires i + 4 <= |s|
    ensures l as int == s[i] as int / 128 + 0x2 * s[i + 1] as int + 0x200 * s[i + 2] as int + 0x2_0000 * (s[i + 3] as int % 16)
    ensures 0 <= l < 0x20_0000
  {
    var v := Load4(s, i);
    LimbBits3(v as int, s[i] as int, s[i + 1] as int, s[i + 2] as int, s[i + 3] as int);
    (v / 128 % 0x20_0000) as int64
  }

  lemma LimbBits4(v: int, b0: int, b1: int, b2: int, b3: int)
    requires 0 <= b0 < 0x100 && 0 <= b1 < 0x100 && 0 <= b2 < 0x100 && 0 <= b3 < 0x100
    requires v == b0 + 0x100 * b1 + 0x1_0000 * b2 + 0x100_0000 * b3
    ensures v / 16 % 0x20_0000 == b0 / 16 + 0x10 * b1 + 0x1000 * b2 + 0x10_0000 * (b3 % 2)
  {
  }

  /** `kBottom21Bits & (load_4(s + i) >> 4)`. */
  function Limb4(s: seq<uint8>, i: nat): (l: int64)
    requires i + 4 <= |s|
    ensures l as int == s[i] as int / 16 + 0x10 * s[i + 1] as int + 0x1000 * s[i + 2] as int + 0x10_0000 * (s[i + 3] as int % 2)
    ensures 0 <= l < 0x20_0000
  {
    var v := Load4(s, i);
    LimbBits4(v as int, s[i] as int, s[i + 1] as int, s[i + 2] as int, s[i + 3] as int);
    (v / 16 % 0x20_0000) as int64
  }

  lemma LimbBits5(v: int, b0: int, b1: int, b2: int)
    requires 0 <= b0 < 0x100 && 0 <= b1 < 0x100 && 0 <= b2 < 0x100
    requires v == b0 + 0x100 * b1 + 0x1_0000 * b2
    ensures v / 2 % 0x20_0000 == b0 / 2 + 0x80 * b1 + 0x8000 * (b2 % 64)
  {
  }

  /** `kBottom21Bits & (load_3(s + i) >> 1)`. */
  function Limb5(s: seq<uint8>, i: nat): (l: int64)
    requires i + 3 <= |s|
    ensures l as int == s[i] as int / 2 + 0x80 * s[i + 1] as int + 0x8000 * (s[i + 2] as int % 64)
    ensures 0 <= l < 0x20_0000
  {
    var v := Load3(s, i);
    LimbBits5(v as int, s[i] as int, s[i + 1] as int, s[i + 2] as int);
    (v / 2 % 0x20_0000) as int64
  }

  lemma LimbBits6(v: int, b0: int, b1: int, b2: int, b3: int)
    requires 0 <= b0 < 0x100 && 0 <= b1 < 0x100 && 0 <= b2 < 0x100 && 0 <= b3 < 0x100
    requires v == b0 + 0x100 * b1 + 0x1_0000 * b2 + 0x100_0000 * b3
    ensures v / 64 % 0x20_0000 == b0 / 64 + 0x4 * b1 + 0x400 * b2 + 0x4_0000 * (b3 % 8)
  {
  }

  /** `kBottom21Bits & (load_4(s + i) >> 6)`. */
  function Limb6(s: seq<uint8>, i: nat): (l: int64)
    requires i + 4 <= |s|
    ensures l as int == s[i] as int / 64 + 0x4 * s[i + 1] as int + 0x400 * s[i + 2] as int + 0x4_0000 * (s[i + 3] as int % 8)
    ensures 0 <= l < 0x20_0000
  {
    var v := Load4(s, i);
    LimbBits6(v as int, s[i] as int, s[i + 1] as int, s[i + 2] as int, s[i + 3] as int);
    (v / 64 % 0x20_0000) as int64
  }

  /** Seven limbs. */
  ghost function S7(l0: int, l1: int, l2: int, l3: int, l4: int, l5: int, l6: int): int {
    l0 + 0x20_0000 * l1 + 0x400_0000_0000 * l2 + 0x8000_0000_0000_0000 * l3 +
    0x10_0000_0000_0000_0000_0000 * l4 + 0x200_0000_0000_0000_0000_0000_0000 * l5 + 0x4000_0000_0000_0000_0000_0000_0000_0000 * l6
  }

  /** A byte that a limb boundary splits after bit 2, with what follows it: the part from bit 3 up. */
  ghost function Above3(b: int, tail: int): int {
    b / 8 + 32 * tail
  }

  /** The seven limbs that start at byte `o`; what follows starts with the upper five bits of byte `o + 18`. */
  method LoadSeven(s: seq<uint8>, o: nat) returns (l0: int64, l1: int64, l2: int64, l3: int64, l4: int64, l5: int64, l6: int64)
    requires o + 19 <= |s|
    ensures 0 <= l0 < 0x20_0000 && 0 <= l1 < 0x20_0000 && 0 <= l2 < 0x20_0000 && 0 <= l3 < 0x20_0000 && 0 <= l4 < 0x20_0000 && 0 <= l5 < 0x20_0000 && 0 <= l6 < 0x20_0000
    ensures LEFrom(s, o) == S7(l0 as int, l1 as int, l2 as int, l3 as int, l4 as int, l5 as int, l6 as int)
            + 0x8_0000_0000_0000_0000_0000_0000_0000_0000_0000 * Above3(s[o + 18] as int, LEFrom(s, o + 19))
  {
    hide LEFrom, S7, Word8, Limb0, Limb1, Limb2, Limb3, Limb4, Limb5, Limb6;
    ghost var v, rest := LEFrom(s, o), LEFrom(s, o + 19);
    l0 := Limb0(s, o);
    l1 := Limb1(s, o + 2);
    l2 := Limb2(s, o + 5);
    l3 := Limb3(s, o + 7);
    l4 := Limb4(s, o + 10);
    l5 := Limb5(s, o + 13);
    l6 := Limb6(s, o + 15);
    LE19(s, o);
    SevenLimbs(s[o] as int, s[o + 1] as int, s[o + 2] as int, s[o + 3] as int, s[o + 4] as int, s[o + 5] as int, s[o + 6] as int,
               s[o + 7] as int, s[o + 8] as int, s[o + 9] as int, s[o + 10] as int, s[o + 11] as int, s[o + 12] as int, s[o + 13] as int,
               s[o + 14] as int, s[o + 15] as int, s[o + 16] as int, s[o + 17] as int, s[o + 18] as int,
               s[o + 2] as int / 32, s[o + 2] as int % 32, s[o + 5] as int / 4, s[o + 5] as int % 4, s[o + 7] as int / 128, s[o + 7] as int % 128, s[o + 10] as int / 16, s[o + 10] as int % 16, s[o + 13] as int / 2, s[o + 13] as int % 2, s[o + 15] as int / 64, s[o + 15] as int % 64, s[o + 18] as int / 8, s[o + 18] as int % 8,
               l0 as int, l1 as int, l2 as int, l3 as int, l4 as int, l5 as int, l6 as int, v, rest, Above3(s[o + 18] as int, rest));
  }

  lemma LE19(s: seq<uint8>, o: nat)
    requires o + 19 <= |s|
    ensures LEFrom(s, o) == Word8(s[o] as int, s[o + 1] as int, s[o + 2] as int, s[o + 3] as int, s[o + 4] as int, s[o + 5] as int, s[o + 6] as int, s[o + 7] as int)
      + 0x1_0000_0000_0000_0000 * Word8(s[o + 8] as int, s[o + 9] as int, s[o + 10] as int, s[o + 11] as int, s[o + 12] as int, s[o + 13] as int, s[o + 14] as int, s[o + 15] as int)
      + 0x1_0000_0000_0000_0000_0000_0000_0000_0000 * s[o + 16] as int + 0x100_0000_0000_0000_0000_0000_0000_0000_0000 * s[o + 17] as int + 0x1_0000_0000_0000_0000_0000_0000_0000_0000_0000 * s[o + 18] as int
      + 0x100_0000_0000_0000_0000_0000_0000_0000_0000_0000 * LEFrom(s, o + 19)
  {
    hide LEFrom, Word8;
    LE8(s, o);
    LE8(s, o + 8);
    LEStep(s, o + 16);
    LEStep(s, o + 17);
    LEStep(s, o + 18);
  }

  /** Regrouping nineteen bytes into seven limbs, each byte on a boundary split into its two parts. */
  lemma SevenLimbs(b0: int, b1: int, b2: int, b3: int, b4: int, b5: int, b6: int, b7: int, b8: int, b9: int, b10: int, b11: int, b12: int, b13: int, b14: int, b15: int, b16: int, b17: int, b18: int,
                   q0: int, r0: int, q1: int, r1: int, q2: int, r2: int, q3: int, r3: int, q4: int, r4: int, q5: int, r5: int, q6: int, r6: int,
                   l0: int, l1: int, l2: int, l3: int, l4: int, l5: int, l6: int, v: int, rest: int, x: int)
    requires b2 == 32 * q0 + r0
    requires b5 == 4 * q1 + r1
    requires b7 == 128 * q2 + r2
    requires b10 == 16 * q3 + r3
    requires b13 == 2 * q4 + r4
    requires b15 == 64 * q5 + r5
    requires b18 == 8 * q6 + r6
    requires l0 == b0 + 0x100 * b1 + 0x1_0000 * r0
    requires l1 == q0 + 0x8 * b3 + 0x800 * b4 + 0x8_0000 * r1
    requires l2 == q1 + 0x40 * b6 + 0x4000 * r2
    requires l3 == q2 + 0x2 * b8 + 0x200 * b9 + 0x2_0000 * r3
    requires l4 == q3 + 0x10 * b11 + 0x1000 * b12 + 0x10_0000 * r4
    requires l5 == q4 + 0x80 * b14 + 0x8000 * r5
    requires l6 == q5 + 0x4 * b16 + 0x400 * b17 + 0x4_0000 * r6
    requires x == q6 + 32 * rest
    requires v == Word8(b0, b1, b2, b3, b4, b5, b6, b7) + 0x1_0000_0000_0000_0000 * Word8(b8, b9, b10, b11, b12, b13, b14, b15)
      + 0x1_0000_0000_0000_0000_0000_0000_0000_0000 * b16 + 0x100_0000_0000_0000_0000_0000_0000_0000_0000 * b17 + 0x1_0000_0000_0000_0000_0000_0000_0000_0000_0000 * b18 + 0x100_0000_0000_0000_0000_0000_0000_0000_0000_0000 * rest
    ensures v == S7(l0, l1, l2, l3, l4, l5, l6) + 0x8_0000_0000_0000_0000_0000_0000_0000_0000_0000 * x
  {
  }

  lemma MiddleBits(v: int, b0: int, b1: int, b2: int)
    requires 0 <= b0 < 0x100 && 0 <= b1 < 0x100 && 0 <= b2 < 0x100
    requires v == b0 + 0x100 * b1 + 0x1_0000 * b2
    ensures v / 8 % 0x20_0000 == b0 / 8 + 0x20 * b1 + 0x2000 * b2
  {
  }

  lemma TopBits(b0: int, b1: int, b2: int, b3: int)
    requires 0 <= b0 < 0x100 && 0 <= b1 < 0x100 && 0 <= b2 < 0x100 && 0 <= b3 < 0x100
    ensures (b0 + 0x100 * b1 + 0x1_0000 * b2 + 0x100_0000 * b3) / 8 == b0 / 8 + 0x20 * b1 + 0x2000 * b2 + 0x20_0000 * b3
    ensures (b0 + 0x100 * b1 + 0x1_0000 * b2 + 0x100_0000 * b3) / 128 == b0 / 128 + 2 * b1 + 0x200 * b2 + 0x2_0000 * b3
  {
  }

  /** `kBottom21Bits & (load_3(s + i) >> 3)`: the eighth limb ends on a byte boundary. */
  method LoadEighth(s: seq<uint8>, i: nat) returns (l: int64)
    requires i + 3 <= |s|
    ensures 0 <= l < 0x20_0000
    ensures Above3(s[i] as int, LEFrom(s, i + 1)) == l as int + 0x20_0000 * LEFrom(s, i + 3)
  {
    hide LEFrom;
    var v := Load3(s, i);
    MiddleBits(v as int, s[i] as int, s[i + 1] as int, s[i + 2] as int);
    l := (v / 8 % 0x20_0000) as int64;
    LEStep(s, i + 1);
    LEStep(s, i + 2);
  }

  /** `load_4(s + i) >> 3`: the last limb of 64 bytes keeps 29 bits. */
  method LoadTop(s: seq<uint8>, i: nat) returns (l: int64)
    requires i + 4 == |s|
    ensures 0 <= l < 0x2000_0000
    ensures Above3(s[i] as int, LEFrom(s, i + 1)) == l as int
  {
    hide LEFrom;
    l := (Load4(s, i) / 8) as int64;
    TopBits(s[i] as int, s[i + 1] as int, s[i + 2] as int, s[i + 3] as int);
    LEStep(s, i + 1);
    LEStep(s, i + 2);
    LEStep(s, i + 3);
    LEEmpty(s);
  }

  /** The twenty-four limbs of 64 bytes. */
  method Load64(s: seq<uint8>) returns (s0: int64, s1: int64, s2: int64, s3: int64, s4: int64, s5: int64, s6: int64, s7: int64, s8: int64, s9: int64, s10: int64, s11: int64, s12: int64, s13: int64, s14: int64, s15: int64, s16: int64, s17: int64, s18: int64, s19: int64, s20: int64, s21: int64, s22: int64, s23: int64)
    requires |s| == 64
    ensures 0 <= s0 < 0x20_0000 && 0 <= s1 < 0x20_0000 && 0 <= s2 < 0x20_0000 && 0 <= s3 < 0x20_0000 && 0 <= s4 < 0x20_0000 && 0 <= s5 < 0x20_0000 && 0 <= s6 < 0x20_0000 && 0 <= s7 < 0x20_0000 && 0 <= s8 < 0x20_0000 && 0 <= s9 < 0x20_0000 && 0 <= s10 < 0x20_0000 && 0 <= s11 < 0x20_0000 && 0 <= s12 < 0x20_0000 && 0 <= s13 < 0x20_0000 && 0 <= s14 < 0x20_0000 && 0 <= s15 < 0x20_0000 && 0 <= s16 < 0x20_0000 && 0 <= s17 < 0x20_0000 && 0 <= s18 < 0x20_0000 && 0 <= s19 < 0x20_0000 && 0 <= s20 < 0x20_0000 && 0 <= s21 < 0x20_0000 && 0 <= s22 < 0x20_0000
    ensures 0 <= s23 < 0x2000_0000
    ensures LE(s) == S24(s0 as int, s1 as int, s2 as int, s3 as int, s4 as int, s5 as int, s6 as int, s7 as int, s8 as int, s9 as int, s10 as int, s11 as int,
                         s12 as int, s13 as int, s14 as int, s15 as int, s16 as int, s17 as int, s18 as int, s19 as int, s20 as int, s21 as int, s22 as int, s23 as int)
  {
    hide *;
    LEEmpty(s);
    s0, s1, s2, s3, s4, s5, s6 := LoadSeven(s, 0);
    s7 := LoadEighth(s, 18);
    s8, s9, s10, s11, s12, s13, s14 := LoadSeven(s, 21);
    s15 := LoadEighth(s, 39);
    s16, s17, s18, s19, s20, s21, s22 := LoadSeven(s, 42);
    s23 := LoadTop(s, 60);
    ThreeGroups(s0 as int, s1 as int, s2 as int, s3 as int, s4 as int, s5 as int, s6 as int, s7 as int, s8 as int, s9 as int, s10 as int, s11 as int,
                s12 as int, s13 as int, s14 as int, s15 as int, s16 as int, s17 as int, s18 as int, s19 as int, s20 as int, s21 as int, s22 as int, s23 as int,
                LEFrom(s, 0), LEFrom(s, 21), LEFrom(s, 42));
  }

  lemma ThreeGroups(s0: int, s1: int, s2: int, s3: int, s4: int, s5: int, s6: int, s7: int, s8: int, s9: int, s10: int, s11: int,
                    s12: int, s13: int, s14: int, s15: int, s16: int, s17: int, s18: int, s19: int, s20: int, s21: int, s22: int, s23: int,
                    v0: int, v1: int, v2: int)
    requires v0 == S7(s0, s1, s2, s3, s4, s5, s6) + 0x8_0000_0000_0000_0000_0000_0000_0000_0000_0000 * (s7 + 0x20_0000 * v1)
    requires v1 == S7(s8, s9, s10, s11, s12, s13, s14) + 0x8_0000_0000_0000_0000_0000_0000_0000_0000_0000 * (s15 + 0x20_0000 * v2)
    requires v2 == S7(s16, s17, s18, s19, s20, s21, s22) + 0x8_0000_0000_0000_0000_0000_0000_0000_0000_0000 * s23
    ensures v0 == S24(s0, s1, s2, s3, s4, s5, s6, s7, s8, s9, s10, s11,
                      s12, s13, s14, s15, s16, s17, s18, s19, s20, s21, s22, s23)
  {
  }

  /** Twelve limbs as a 32-byte string gives them: 21 bits each, 25 bits in the last. */
  predicate Loaded(l: seq<int64>) {
    && |l| == 12
    && 0 <= l[0] < 0x20_0000 && 0 <= l[1] < 0x20_0000 && 0 <= l[2] < 0x20_0000 && 0 <= l[3] < 0x20_0000 && 0 <= l[4] < 0x20_0000 && 0 <= l[5] < 0x20_0000
    && 0 <= l[6] < 0x20_0000 && 0 <= l[7] < 0x20_0000 && 0 <= l[8] < 0x20_0000 && 0 <= l[9] < 0x20_0000 && 0 <= l[10] < 0x20_0000
    && 0 <= l[11] < 0x200_0000
  }

  ghost function Val(l: seq<int64>): int
    requires |l| == 12
  {
    S12(l[0] as int, l[1] as int, l[2] as int, l[3] as int, l[4] as int, l[5] as int,
        l[6] as int, l[7] as int, l[8] as int, l[9] as int, l[10] as int, l[11] as int)
  }

  /** The twelve limbs of 32 bytes, nothing masked off the last one. */
  method Load32(s: seq<uint8>) returns (l: seq<int64>)
    requires |s| == 32
    ensures Loaded(l) && Val(l) == LE(s)
  {
    hide LEFrom, LE, S7, S12, Above3, Limb0, Limb1, Limb2, Word8;
    LEEmpty(s);
    var l0, l1, l2, l3, l4, l5, l6 := LoadSeven(s, 0);
    var l7 := LoadEighth(s, 18);
    var l8, l9, l10, l11 := LoadLast(s);
    l := [l0, l1, l2, l3, l4, l5, l6, l7, l8, l9, l10, l11];
    TwoGroups(l0 as int, l1 as int, l2 as int, l3 as int, l4 as int, l5 as int, l6 as int, l7 as int, l8 as int, l9 as int, l10 as int, l11 as int, LEFrom(s, 0), LEFrom(s, 21));
  }

  lemma TwoGroups(l0: int, l1: int, l2: int, l3: int, l4: int, l5: int, l6: int, l7: int, l8: int, l9: int, l10: int, l11: int, v0: int, v1: int)
    requires v0 == S7(l0, l1, l2, l3, l4, l5, l6) + 0x8_0000_0000_0000_0000_0000_0000_0000_0000_0000 * (l7 + 0x20_0000 * v1)
    requires v1 == l8 + 0x20_0000 * l9 + 0x400_0000_0000 * l10 + 0x8000_0000_0000_0000 * l11
    ensures v0 == S12(l0, l1, l2, l3, l4, l5, l6, l7, l8, l9, l10, l11)
  {
  }

  /** The limbs 8 to 11, from the last eleven bytes. */
  method LoadLast(s: seq<uint8>) returns (l8: int64, l9: int64, l10: int64, l11: int64)
    requires |s| == 32
    ensures 0 <= l8 < 0x20_0000 && 0 <= l9 < 0x20_0000 && 0 <= l10 < 0x20_0000 && 0 <= l11 < 0x200_0000
    ensures LEFrom(s, 21) == l8 as int + 0x20_0000 * l9 as int + 0x400_0000_0000 * l10 as int + 0x8000_0000_0000_0000 * l11 as int
  {
    hide LEFrom, Limb0, Limb1, Limb2, Above, Word8;
    l8 := Limb0(s, 21);
    l9 := Limb1(s, 23);
    l10 := Limb2(s, 26);
    l11 := (Load4(s, 28) / 128) as int64;
    TopBits(s[28] as int, s[29] as int, s[30] as int, s[31] as int);
    LE8(s, 21);
    LEStep(s, 29); LEStep(s, 30); LEStep(s, 31);
    LEEmpty(s);
    FourLimbs(s[21] as int, s[22] as int, s[23] as int, s[24] as int, s[25] as int, s[26] as int, s[27] as int, s[28] as int, s[29] as int, s[30] as int, s[31] as int,
              s[23] as int / 32, s[23] as int % 32, s[26] as int / 4, s[26] as int % 4, s[28] as int / 128, s[28] as int % 128,
              l8 as int, l9 as int, l10 as int, l11 as int, LEFrom(s, 21));
  }

  lemma FourLimbs(b0: int, b1: int, b2: int, b3: int, b4: int, b5: int, b6: int, b7: int, b8: int, b9: int, b10: int,
                  q0: int, r0: int, q1: int, r1: int, q2: int, r2: int, l0: int, l1: int, l2: int, l3: int, v: int)
    requires b2 == 32 * q0 + r0 && b5 == 4 * q1 + r1 && b7 == 128 * q2 + r2
    requires l0 == b0 + 0x100 * b1 + 0x1_0000 * r0
    requires l1 == q0 + 0x8 * b3 + 0x800 * b4 + 0x8_0000 * r1
    requires l2 == q1 + 0x40 * b6 + 0x4000 * r2
    requires l3 == q2 + 2 * b8 + 0x200 * b9 + 0x2_0000 * b10
    requires v == Word8(b0, b1, b2, b3, b4, b5, b6, b7) + 0x1_0000_0000_0000_0000 * (b8 + 0x100 * (b9 + 0x100 * b10))
    ensures v == l0 + 0x20_0000 * l1 + 0x400_0000_0000 * l2 + 0x8000_0000_0000_0000 * l3
  {
  }

  // ---------------------------------------------------------------- storing

  /** The 32 bytes of twelve limbs of 21 bits; the last may be 2^21 itself. */
  method Pack(h0: nat, h1: nat, h2: nat, h3: nat, h4: nat, h5: nat, h6: nat, h7: nat, h8: nat, h9: nat, h10: nat, h11: nat) returns (s: seq<uint8>)
    requires h0 < 0x20_0000 && h1 < 0x20_0000 && h2 < 0x20_0000 && h3 < 0x20_0000 && h4 < 0x20_0000 && h5 < 0x20_0000 && h6 < 0x20_0000 && h7 < 0x20_0000 && h8 < 0x20_0000 && h9 < 0x20_0000 && h10 < 0x20_0000 && h11 <= 0x20_0000
    ensures |s| == 32
    ensures LE(s) == S12(h0, h1, h2, h3, h4, h5, h6, h7, h8, h9, h10, h11)
  {
    hide *;
    PackRoom(h0, h1, h2, h3, h4, h5, h6, h7, h8, h9, h10, h11);
    s :=
      [ByteAt(h0, 0x1) as uint8, ByteAt(h0, 0x100) as uint8, Splice(High(h0, 0x1_0000), h1, 5),
       ByteAt(h1, 0x8) as uint8, ByteAt(h1, 0x800) as uint8, Splice(High(h1, 0x8_0000), h2, 2),
       ByteAt(h2, 0x40) as uint8, Splice(High(h2, 0x4000), h3, 7), ByteAt(h3, 0x2) as uint8,
       ByteAt(h3, 0x200) as uint8, Splice(High(h3, 0x2_0000), h4, 4), ByteAt(h4, 0x10) as uint8,
       ByteAt(h4, 0x1000) as uint8, Splice(High(h4, 0x10_0000), h5, 1), ByteAt(h5, 0x80) as uint8,
       Splice(High(h5, 0x8000), h6, 6), ByteAt(h6, 0x4) as uint8, ByteAt(h6, 0x400) as uint8,
       Splice(High(h6, 0x4_0000), h7, 3), ByteAt(h7, 0x20) as uint8, ByteAt(h7, 0x2000) as uint8,
       ByteAt(h8, 0x1) as uint8, ByteAt(h8, 0x100) as uint8, Splice(High(h8, 0x1_0000), h9, 5),
       ByteAt(h9, 0x8) as uint8, ByteAt(h9, 0x800) as uint8, Splice(High(h9, 0x8_0000), h10, 2),
       ByteAt(h10, 0x40) as uint8, Splice(High(h10, 0x4000), h11, 7), ByteAt(h11, 0x2) as uint8,
       ByteAt(h11, 0x200) as uint8, ByteAt(h11, 0x2_0000) as uint8];
    PackValue(s, h0, h1, h2, h3, h4, h5, h6, h7, h8, h9, h10, h11);
  }

  lemma PackRoom(h0: nat, h1: nat, h2: nat, h3: nat, h4: nat, h5: nat, h6: nat, h7: nat, h8: nat, h9: nat, h10: nat, h11: nat)
    requires h0 < 0x20_0000 && h1 < 0x20_0000 && h2 < 0x20_0000 && h3 < 0x20_0000 && h4 < 0x20_0000 && h5 < 0x20_0000 && h6 < 0x20_0000 && h7 < 0x20_0000 && h8 < 0x20_0000 && h9 < 0x20_0000 && h10 < 0x20_0000 && h11 <= 0x20_0000
    ensures High(h0, 0x1_0000) < Pow2(5) == 32 && High(h1, 0x8_0000) < Pow2(2) == 4 && High(h2, 0x4000) < Pow2(7) == 128 && High(h3, 0x2_0000) < Pow2(4) == 16 && High(h4, 0x10_0000) < Pow2(1) == 2
    ensures High(h5, 0x8000) < Pow2(6) == 64 && High(h6, 0x4_0000) < Pow2(3) == 8 && High(h8, 0x1_0000) < Pow2(5) == 32 && High(h9, 0x8_0000) < Pow2(2) == 4 && High(h10, 0x4000) < Pow2(7) == 128
    ensures Pow2(1) == 2 && Pow2(2) == 4 && Pow2(3) == 8 && Pow2(4) == 16 && Pow2(5) == 32 && Pow2(6) == 64 && Pow2(7) == 128
  {
    hide Pow2;
    PowersOfTwo();
  }

  lemma PackValue(s: seq<uint8>, h0: nat, h1: nat, h2: nat, h3: nat, h4: nat, h5: nat, h6: nat, h7: nat, h8: nat, h9: nat, h10: nat, h11: nat)
    requires h11 <= 0x20_0000 && h7 < 0x20_0000
    requires |s| == 32
    requires s[0] as int == ByteAt(h0, 0x1)
    requires s[1] as int == ByteAt(h0, 0x100)
    requires s[2] as int == High(h0, 0x1_0000) + 32 * Low(h1, 8)
    requires s[3] as int == ByteAt(h1, 0x8)
    requires s[4] as int == ByteAt(h1, 0x800)
    requires s[5] as int == High(h1, 0x8_0000) + 4 * Low(h2, 64)
    requires s[6] as int == ByteAt(h2, 0x40)
    requires s[7] as int == High(h2, 0x4000) + 128 * Low(h3, 2)
    requires s[8] as int == ByteAt(h3, 0x2)
    requires s[9] as int == ByteAt(h3, 0x200)
    requires s[10] as int == High(h3, 0x2_0000) + 16 * Low(h4, 16)
    requires s[11] as int == ByteAt(h4, 0x10)
    requires s[12] as int == ByteAt(h4, 0x1000)
    requires s[13] as int == High(h4, 0x10_0000) + 2 * Low(h5, 128)
    requires s[14] as int == ByteAt(h5, 0x80)
    requires s[15] as int == High(h5, 0x8000) + 64 * Low(h6, 4)
    requires s[16] as int == ByteAt(h6, 0x4)
    requires s[17] as int == ByteAt(h6, 0x400)
    requires s[18] as int == High(h6, 0x4_0000) + 8 * Low(h7, 32)
    requires s[19] as int == ByteAt(h7, 0x20)
    requires s[20] as int == ByteAt(h7, 0x2000)
    requires s[21] as int == ByteAt(h8, 0x1)
    requires s[22] as int == ByteAt(h8, 0x100)
    requires s[23] as int == High(h8, 0x1_0000) + 32 * Low(h9, 8)
    requires s[24] as int == ByteAt(h9, 0x8)
    requires s[25] as int == ByteAt(h9, 0x800)
    requires s[26] as int == High(h9, 0x8_0000) + 4 * Low(h10, 64)
    requires s[27] as int == ByteAt(h10, 0x40)
    requires s[28] as int == High(h10, 0x4000) + 128 * Low(h11, 2)
    requires s[29] as int == ByteAt(h11, 0x2)
    requires s[30] as int == ByteAt(h11, 0x200)
    requires s[31] as int == ByteAt(h11, 0x2_0000)
    ensures LE(s) == S12(h0, h1, h2, h3, h4, h5, h6, h7, h8, h9, h10, h11)
  {
    hide *;
    LE32(s);
    ByteStep(h0, 0x1); ByteStep(h0, 0x100); HighLow(h0, 0x1);
    ByteStep(h1, 0x8); ByteStep(h1, 0x800); HighLow(h1, 0x8);
    ByteStep(h2, 0x40); HighLow(h2, 0x40);
    ByteStep(h3, 0x2); ByteStep(h3, 0x200); HighLow(h3, 0x2);
    ByteStep(h4, 0x10); ByteStep(h4, 0x1000); HighLow(h4, 0x10);
    ByteStep(h5, 0x80); HighLow(h5, 0x80);
    ByteStep(h6, 0x4); ByteStep(h6, 0x400); HighLow(h6, 0x4);
    ByteStep(h7, 0x20); ByteStep(h7, 0x2000); HighLow(h7, 0x20); HighLow(h7, 0x20_0000);
    ByteStep(h8, 0x1); ByteStep(h8, 0x100); HighLow(h8, 0x1);
    ByteStep(h9, 0x8); ByteStep(h9, 0x800); HighLow(h9, 0x8);
    ByteStep(h10, 0x40); HighLow(h10, 0x40);
    ByteStep(h11, 0x2); ByteStep(h11, 0x200); ByteStep(h11, 0x2_0000); HighLow(h11, 0x2); HighLow(h11, 0x200_0000);
    PackedSum(s[0] as int, s[1] as int, s[2] as int, s[3] as int, s[4] as int, s[5] as int, s[6] as int, s[7] as int,
              s[8] as int, s[9] as int, s[10] as int, s[11] as int, s[12] as int, s[13] as int, s[14] as int, s[15] as int,
              s[16] as int, s[17] as int, s[18] as int, s[19] as int, s[20] as int, s[21] as int, s[22] as int, s[23] as int,
              s[24] as int, s[25] as int, s[26] as int, s[27] as int, s[28] as int, s[29] as int, s[30] as int, s[31] as int,
              h0, h1, h2, h3, h4, h5, h6, h7, h8, h9, h10, h11,
              High(h0, 0x1_0000), High(h1, 0x8_0000), High(h2, 0x4000), High(h3, 0x2_0000), High(h4, 0x10_0000), High(h5, 0x8000), High(h6, 0x4_0000), High(h8, 0x1_0000), High(h9, 0x8_0000), High(h10, 0x4000),
              Low(h1, 8), Low(h2, 64), Low(h3, 2), Low(h4, 16), Low(h5, 128), Low(h6, 4), Low(h7, 32), Low(h9, 8), Low(h10, 64), Low(h11, 2));
  }

  lemma PackedSum(b0: int, b1: int, b2: int, b3: int, b4: int, b5: int, b6: int, b7: int, b8: int, b9: int, b10: int, b11: int, b12: int, b13: int, b14: int, b15: int,
                  b16: int, b17: int, b18: int, b19: int, b20: int, b21: int, b22: int, b23: int, b24: int, b25: int, b26: int, b27: int, b28: int, b29: int, b30: int, b31: int,
                  h0: int, h1: int, h2: int, h3: int, h4: int, h5: int, h6: int, h7: int, h8: int, h9: int, h10: int, h11: int,
                  t0: int, t1: int, t2: int, t3: int, t4: int, t5: int, t6: int, t8: int, t9: int, t10: int,
                  u1: int, u2: int, u3: int, u4: int, u5: int, u6: int, u7: int, u9: int, u10: int, u11: int)
    requires b2 == t0 + 32 * u1
    requires b5 == t1 + 4 * u2
    requires b7 == t2 + 128 * u3
    requires b10 == t3 + 16 * u4
    requires b13 == t4 + 2 * u5
    requires b15 == t5 + 64 * u6
    requires b18 == t6 + 8 * u7
    requires b23 == t8 + 32 * u9
    requires b26 == t9 + 4 * u10
    requires b28 == t10 + 128 * u11
    requires h0 == b0 + 0x100 * b1 + 0x1_0000 * t0
    requires h1 == u1 + 0x8 * b3 + 0x800 * b4 + 0x8_0000 * t1
    requires h2 == u2 + 0x40 * b6 + 0x4000 * t2
    requires h3 == u3 + 0x2 * b8 + 0x200 * b9 + 0x2_0000 * t3
    requires h4 == u4 + 0x10 * b11 + 0x1000 * b12 + 0x10_0000 * t4
    requires h5 == u5 + 0x80 * b14 + 0x8000 * t5
    requires h6 == u6 + 0x4 * b16 + 0x400 * b17 + 0x4_0000 * t6
    requires h7 == u7 + 0x20 * b19 + 0x2000 * b20
    requires h8 == b21 + 0x100 * b22 + 0x1_0000 * t8
    requires h9 == u9 + 0x8 * b24 + 0x800 * b25 + 0x8_0000 * t9
    requires h10 == u10 + 0x40 * b27 + 0x4000 * t10
    requires h11 == u11 + 0x2 * b29 + 0x200 * b30 + 0x2_0000 * b31
    ensures Sum32(b0, b1, b2, b3, b4, b5, b6, b7, b8, b9, b10, b11, b12, b13, b14, b15,
                  b16, b17, b18, b19, b20, b21, b22, b23, b24, b25, b26, b27, b28, b29, b30, b31)
      == S12(h0, h1, h2, h3, h4, h5, h6, h7, h8, h9, h10, h11)
  {
  }

  // ---------------------------------------------------------------- reduction

  lemma ScalarFits(x: int)
    requires 0 <= x < L
    ensures x < Pow2(256)
  {
    PowersOfTwo();
    Pow2Add(32, 32);
    Pow2Add(64, 64);
    Pow2Add(128, 128);
  }

  /** Reduces 64 bytes modulo l, in place: the first 32 bytes become the canonical remainder. */
  method ScReduce(s: array<uint8>)
    requires s.Length == 64
    modifies s
    ensures s[..32] == ToLE(LE(old(s[..])) % L, 32)
    ensures s[32..] == old(s[32..])
  {
    hide S12, S24, LE, ToLE;
    var s0, s1, s2, s3, s4, s5, s6, s7, s8, s9, s10, s11, s12, s13, s14, s15, s16, s17, s18, s19, s20, s21, s22, s23 := Load64(s[..]);
    var r0, r1, r2, r3, r4, r5, r6, r7, r8, r9, r10, r11 :=
      ReduceLimbs(s0, s1, s2, s3, s4, s5, s6, s7, s8, s9, s10, s11,
                  s12, s13, s14, s15, s16, s17, s18, s19, s20, s21, s22, s23);
    var bytes := Pack(r0 as nat, r1 as nat, r2 as nat, r3 as nat, r4 as nat, r5 as nat, r6 as nat, r7 as nat, r8 as nat, r9 as nat, r10 as nat, r11 as nat);
    ToLEUnique(bytes);
    Store32(s, 0, bytes);
  }

  // ---------------------------------------------------------------- multiplication

  lemma ProductBound(a: int, b: int)
    requires 0 <= a < 0x200_0000 && 0 <= b < 0x200_0000
    ensures 0 <= a * b < 0x4_0000_0000_0000
    ensures a < 0x20_0000 || b < 0x20_0000 ==> a * b < 0x4000_0000_0000
    ensures a < 0x20_0000 && b < 0x20_0000 ==> a * b < 0x400_0000_0000
  {
    Between(a, b, 0x1ff_ffff, 0x1ff_ffff);
    if a < 0x20_0000 { Between(a, b, 0x1f_ffff, 0x1ff_ffff); }
    if b < 0x20_0000 { Between(a, b, 0x1ff_ffff, 0x1f_ffff); }
    if a < 0x20_0000 && b < 0x20_0000 { Between(a, b, 0x1f_ffff, 0x1f_ffff); }
  }

  lemma Between(a: int, b: int, A: int, B: int)
    requires 0 <= a <= A && 0 <= b <= B
    ensures 0 <= a * b <= A * B
  {
    Monotone(a, A, b);
    Monotone(b, B, A);
    Monotone(0, a, b);
  }

  /** A product of two loaded limbs. */
  function Prod(a: int64, b: int64): (r: int64)
    requires 0 <= a < 0x200_0000 && 0 <= b < 0x200_0000
    ensures r as int == Times(a as int, b as int)
    ensures 0 <= r < 0x4_0000_0000_0000
    ensures a < 0x20_0000 || b < 0x20_0000 ==> r < 0x4000_0000_0000
    ensures a < 0x20_0000 && b < 0x20_0000 ==> r < 0x400_0000_0000
  {
    ProductBound(a as int, b as int);
    a * b
  }

  lemma Row(x: int, g0: int, g1: int, g2: int, g3: int, g4: int, g5: int, g6: int, g7: int, g8: int, g9: int, g10: int, g11: int)
    ensures x * S12(g0, g1, g2, g3, g4, g5, g6, g7, g8, g9, g10, g11)
      == Times(x, g0) + 0x20_0000 * Times(x, g1) + 0x400_0000_0000 * Times(x, g2) + 0x8000_0000_0000_0000 * Times(x, g3) +
         0x10_0000_0000_0000_0000_0000 * Times(x, g4) + 0x200_0000_0000_0000_0000_0000_0000 * Times(x, g5) + 0x4000_0000_0000_0000_0000_0000_0000_0000 * Times(x, g6) + 0x8_0000_0000_0000_0000_0000_0000_0000_0000_0000 * Times(x, g7) +
         0x100_0000_0000_0000_0000_0000_0000_0000_0000_0000_0000 * Times(x, g8) + 0x2000_0000_0000_0000_0000_0000_0000_0000_0000_0000_0000_0000 * Times(x, g9) + 0x4_0000_0000_0000_0000_0000_0000_0000_0000_0000_0000_0000_0000_0000 * Times(x, g10) + 0x80_0000_0000_0000_0000_0000_0000_0000_0000_0000_0000_0000_0000_0000_0000 * Times(x, g11)
  {
  }

  /** Four rows of the product of two numbers of twelve limbs. */
  lemma FourRows(f0: int, f1: int, f2: int, f3: int, g0: int, g1: int, g2: int, g3: int, g4: int, g5: int, g6: int, g7: int, g8: int, g9: int, g10: int, g11: int,
                 c0: int, c1: int, c2: int, c3: int, c4: int, c5: int, c6: int, c7: int, c8: int, c9: int, c10: int, c11: int, c12: int, c13: int, c14: int)
    requires c0 == Times(f0, g0)
    requires c1 == Times(f0, g1) + Times(f1, g0)
    requires c2 == Times(f0, g2) + Times(f1, g1) + Times(f2, g0)
    requires c3 == Times(f0, g3) + Times(f1, g2) + Times(f2, g1) + Times(f3, g0)
    requires c4 == Times(f0, g4) + Times(f1, g3) + Times(f2, g2) + Times(f3, g1)
    requires c5 == Times(f0, g5) + Times(f1, g4) + Times(f2, g3) + Times(f3, g2)
    requires c6 == Times(f0, g6) + Times(f1, g5) + Times(f2, g4) + Times(f3, g3)
    requires c7 == Times(f0, g7) + Times(f1, g6) + Times(f2, g5) + Times(f3, g4)
    requires c8 == Times(f0, g8) + Times(f1, g7) + Times(f2, g6) + Times(f3, g5)
    requires c9 == Times(f0, g9) + Times(f1, g8) + Times(f2, g7) + Times(f3, g6)
    requires c10 == Times(f0, g10) + Times(f1, g9) + Times(f2, g8) + Times(f3, g7)
    requires c11 == Times(f0, g11) + Times(f1, g10) + Times(f2, g9) + Times(f3, g8)
    requires c12 == Times(f1, g11) + Times(f2, g10) + Times(f3, g9)
    requires c13 == Times(f2, g11) + Times(f3, g10)
    requires c14 == Times(f3, g11)
    ensures (f0 + 0x20_0000 * f1 + 0x400_0000_0000 * f2 + 0x8000_0000_0000_0000 * f3) * S12(g0, g1, g2, g3, g4, g5, g6, g7, g8, g9, g10, g11)
      == c0 + 0x20_0000 * c1 + 0x400_0000_0000 * c2 + 0x8000_0000_0000_0000 * c3 +
         0x10_0000_0000_0000_0000_0000 * c4 + 0x200_0000_0000_0000_0000_0000_0000 * c5 + 0x4000_0000_0000_0000_0000_0000_0000_0000 * c6 + 0x8_0000_0000_0000_0000_0000_0000_0000_0000_0000 * c7 +
         0x100_0000_0000_0000_0000_0000_0000_0000_0000_0000_0000 * c8 + 0x2000_0000_0000_0000_0000_0000_0000_0000_0000_0000_0000_0000 * c9 + 0x4_0000_0000_0000_0000_0000_0000_0000_0000_0000_0000_0000_0000_0000 * c10 + 0x80_0000_0000_0000_0000_0000_0000_0000_0000_0000_0000_0000_0000_0000_0000 * c11 +
         0x1000_0000_0000_0000_0000_0000_0000_0000_0000_0000_0000_0000_0000_0000_0000_0000 * c12 + 0x2_0000_0000_0000_0000_0000_0000_0000_0000_0000_0000_0000_0000_0000_0000_0000_0000_0000 * c13 + 0x40_0000_0000_0000_0000_0000_0000_0000_0000_0000_0000_0000_0000_0000_0000_0000_0000_0000_0000 * c14
  {
    hide Times;
    var y := S12(g0, g1, g2, g3, g4, g5, g6, g7, g8, g9, g10, g11);
    Row(f0, g0, g1, g2, g3, g4, g5, g6, g7, g8, g9, g10, g11);
    Row(f1, g0, g1, g2, g3, g4, g5, g6, g7, g8, g9, g10, g11);
    Row(f2, g0, g1, g2, g3, g4, g5, g6, g7, g8, g9, g10, g11);
    Row(f3, g0, g1, g2, g3, g4, g5, g6, g7, g8, g9, g10, g11);
    hide S12;
    Distribute(f0, f1, f2, f3, y);
  }

  lemma Distribute(f0: int, f1: int, f2: int, f3: int, y: int)
    ensures (f0 + 0x20_0000 * f1 + 0x400_0000_0000 * f2 + 0x8000_0000_0000_0000 * f3) * y
         == f0 * y + 0x20_0000 * (f1 * y) + 0x400_0000_0000 * (f2 * y) + 0x8000_0000_0000_0000 * (f3 * y)
  {
  }

  /** The coefficients of a product plus an addend. */
  lemma Convolution(f0: int, f1: int, f2: int, f3: int, f4: int, f5: int, f6: int, f7: int, f8: int, f9: int, f10: int, f11: int,
                    g0: int, g1: int, g2: int, g3: int, g4: int, g5: int, g6: int, g7: int, g8: int, g9: int, g10: int, g11: int,
                    e0: int, e1: int, e2: int, e3: int, e4: int, e5: int, e6: int, e7: int, e8: int, e9: int, e10: int, e11: int,
                    s0: int, s1: int, s2: int, s3: int, s4: int, s5: int, s6: int, s7: int, s8: int, s9: int, s10: int, s11: int, s12: int, s13: int, s14: int, s15: int, s16: int, s17: int, s18: int, s19: int, s20: int, s21: int, s22: int)
    requires s0 == e0 + Times(f0, g0)
    requires s1 == e1 + Times(f0, g1) + Times(f1, g0)
    requires s2 == e2 + Times(f0, g2) + Times(f1, g1) + Times(f2, g0)
    requires s3 == e3 + Times(f0, g3) + Times(f1, g2) + Times(f2, g1) + Times(f3, g0)
    requires s4 == e4 + Times(f0, g4) + Times(f1, g3) + Times(f2, g2) + Times(f3, g1) + Times(f4, g0)
    requires s5 == e5 + Times(f0, g5) + Times(f1, g4) + Times(f2, g3) + Times(f3, g2) + Times(f4, g1) + Times(f5, g0)
    requires s6 == e6 + Times(f0, g6) + Times(f1, g5) + Times(f2, g4) + Times(f3, g3) + Times(f4, g2) + Times(f5, g1) + Times(f6, g0)
    requires s7 == e7 + Times(f0, g7) + Times(f1, g6) + Times(f2, g5) + Times(f3, g4) + Times(f4, g3) + Times(f5, g2) + Times(f6, g1) + Times(f7, g0)
    requires s8 == e8 + Times(f0, g8) + Times(f1, g7) + Times(f2, g6) + Times(f3, g5) + Times(f4, g4) + Times(f5, g3) + Times(f6, g2) + Times(f7, g1) + Times(f8, g0)
    requires s9 == e9 + Times(f0, g9) + Times(f1, g8) + Times(f2, g7) + Times(f3, g6) + Times(f4, g5) + Times(f5, g4) + Times(f6, g3) + Times(f7, g2) + Times(f8, g1) + Times(f9, g0)
    requires s10 == e10 + Times(f0, g10) + Times(f1, g9) + Times(f2, g8) + Times(f3, g7) + Times(f4, g6) + Times(f5, g5) + Times(f6, g4) + Times(f7, g3) + Times(f8, g2) + Times(f9, g1) + Times(f10, g0)
    requires s11 == e11 + Times(f0, g11) + Times(f1, g10) + Times(f2, g9) + Times(f3, g8) + Times(f4, g7) + Times(f5, g6) + Times(f6, g5) + Times(f7, g4) + Times(f8, g3) + Times(f9, g2) + Times(f10, g1) + Times(f11, g0)
    requires s12 == Times(f1, g11) + Times(f2, g10) + Times(f3, g9) + Times(f4, g8) + Times(f5, g7) + Times(f6, g6) + Times(f7, g5) + Times(f8, g4) + Times(f9, g3) + Times(f10, g2) + Times(f11, g1)
    requires s13 == Times(f2, g11) + Times(f3, g10) + Times(f4, g9) + Times(f5, g8) + Times(f6, g7) + Times(f7, g6) + Times(f8, g5) + Times(f9, g4) + Times(f10, g3) + Times(f11, g2)
    requires s14 == Times(f3, g11) + Times(f4, g10) + Times(f5, g9) + Times(f6, g8) + Times(f7, g7) + Times(f8, g6) + Times(f9, g5) + Times(f10, g4) + Times(f11, g3)
    requires s15 == Times(f4, g11) + Times(f5, g10) + Times(f6, g9) + Times(f7, g8) + Times(f8, g7) + Times(f9, g6) + Times(f10, g5) + Times(f11, g4)
    requires s16 == Times(f5, g11) + Times(f6, g10) + Times(f7, g9) + Times(f8, g8) + Times(f9, g7) + Times(f10, g6) + Times(f11, g5)
    requires s17 == Times(f6, g11) + Times(f7, g10) + Times(f8, g9) + Times(f9, g8) + Times(f10, g7) + Times(f11, g6)
    requires s18 == Times(f7, g11) + Times(f8, g10) + Times(f9, g9) + Times(f10, g8) + Times(f11, g7)
    requires s19 == Times(f8, g11) + Times(f9, g10) + Times(f10, g9) + Times(f11, g8)
    requires s20 == Times(f9, g11) + Times(f10, g10) + Times(f11, g9)
    requires s21 == Times(f10, g11) + Times(f11, g10)
    requires s22 == Times(f11, g11)
    ensures S24(s0, s1, s2, s3, s4, s5, s6, s7, s8, s9, s10, s11, s12, s13, s14, s15, s16, s17, s18, s19, s20, s21, s22, 0)
      == S12(f0, f1, f2, f3, f4, f5, f6, f7, f8, f9, f10, f11) * S12(g0, g1, g2, g3, g4, g5, g6, g7, g8, g9, g10, g11) + S12(e0, e1, e2, e3, e4, e5, e6, e7, e8, e9, e10, e11)
  {
    hide Times, S12, S24;
    var y := S12(g0, g1, g2, g3, g4, g5, g6, g7, g8, g9, g10, g11);
    var p0 := Times(f0, g0);
    var p1 := Times(f0, g1) + Times(f1, g0);
    var p2 := Times(f0, g2) + Times(f1, g1) + Times(f2, g0);
    var p3 := Times(f0, g3) + Times(f1, g2) + Times(f2, g1) + Times(f3, g0);
    var p4 := Times(f0, g4) + Times(f1, g3) + Times(f2, g2) + Times(f3, g1);
    var p5 := Times(f0, g5) + Times(f1, g4) + Times(f2, g3) + Times(f3, g2);
    var p6 := Times(f0, g6) + Times(f1, g5) + Times(f2, g4) + Times(f3, g3);
    var p7 := Times(f0, g7) + Times(f1, g6) + Times(f2, g5) + Times(f3, g4);
    var p8 := Times(f0, g8) + Times(f1, g7) + Times(f2, g6) + Times(f3, g5);
    var p9 := Times(f0, g9) + Times(f1, g8) + Times(f2, g7) + Times(f3, g6);
    var p10 := Times(f0, g10) + Times(f1, g9) + Times(f2, g8) + Times(f3, g7);
    var p11 := Times(f0, g11) + Times(f1, g10) + Times(f2, g9) + Times(f3, g8);
    var p12 := Times(f1, g11) + Times(f2, g10) + Times(f3, g9);
    var p13 := Times(f2, g11) + Times(f3, g10);
    var p14 := Times(f3, g11);
    FourRows(f0, f1, f2, f3, g0, g1, g2, g3, g4, g5, g6, g7, g8, g9, g10, g11,
             p0, p1, p2, p3, p4, p5, p6, p7, p8, p9, p10, p11, p12, p13, p14);
    var q0 := Times(f4, g0);
    var q1 := Times(f4, g1) + Times(f5, g0);
    var q2 := Times(f4, g2) + Times(f5, g1) + Times(f6, g0);
    var q3 := Times(f4, g3) + Times(f5, g2) + Times(f6, g1) + Times(f7, g0);
    var q4 := Times(f4, g4) + Times(f5, g3) + Times(f6, g2) + Times(f7, g1);
    var q5 := Times(f4, g5) + Times(f5, g4) + Times(f6, g3) + Times(f7, g2);
    var q6 := Times(f4, g6) + Times(f5, g5) + Times(f6, g4) + Times(f7, g3);
    var q7 := Times(f4, g7) + Times(f5, g6) + Times(f6, g5) + Times(f7, g4);
    var q8 := Times(f4, g8) + Times(f5, g7) + Times(f6, g6) + Times(f7, g5);
    var q9 := Times(f4, g9) + Times(f5, g8) + Times(f6, g7) + Times(f7, g6);
    var q10 := Times(f4, g10) + Times(f5, g9) + Times(f6, g8) + Times(f7, g7);
    var q11 := Times(f4, g11) + Times(f5, g10) + Times(f6, g9) + Times(f7, g8);
    var q12 := Times(f5, g11) + Times(f6, g10) + Times(f7, g9);
    var q13 := Times(f6, g11) + Times(f7, g10);
    var q14 := Times(f7, g11);
    FourRows(f4, f5, f6, f7, g0, g1, g2, g3, g4, g5, g6, g7, g8, g9, g10, g11,
             q0, q1, q2, q3, q4, q5, q6, q7, q8, q9, q10, q11, q12, q13, q14);
    var r0 := Times(f8, g0);
    var r1 := Times(f8, g1) + Times(f9, g0);
    var r2 := Times(f8, g2) + Times(f9, g1) + Times(f10, g0);
    var r3 := Times(f8, g3) + Times(f9, g2) + Times(f10, g1) + Times(f11, g0);
    var r4 := Times(f8, g4) + Times(f9, g3) + Times(f10, g2) + Times(f11, g1);
    var r5 := Times(f8, g5) + Times(f9, g4) + Times(f10, g3) + Times(f11, g2);
    var r6 := Times(f8, g6) + Times(f9, g5) + Times(f10, g4) + Times(f11, g3);
    var r7 := Times(f8, g7) + Times(f9, g6) + Times(f10, g5) + Times(f11, g4);
    var r8 := Times(f8, g8) + Times(f9, g7) + Times(f10, g6) + Times(f11, g5);
    var r9 := Times(f8, g9) + Times(f9, g8) + Times(f10, g7) + Times(f11, g6);
    var r10 := Times(f8, g10) + Times(f9, g9) + Times(f10, g8) + Times(f11, g7);
    var r11 := Times(f8, g11) + Times(f9, g10) + Times(f10, g9) + Times(f11, g8);
    var r12 := Times(f9, g11) + Times(f10, g10) + Times(f11, g9);
    var r13 := Times(f10, g11) + Times(f11, g10);
    var r14 := Times(f11, g11);
    FourRows(f8, f9, f10, f11, g0, g1, g2, g3, g4, g5, g6, g7, g8, g9, g10, g11,
             r0, r1, r2, r3, r4, r5, r6, r7, r8, r9, r10, r11, r12, r13, r14);
    FactorTwelve(f0, f1, f2, f3, f4, f5, f6, f7, f8, f9, f10, f11, y);
    Columns(p0, p1, p2, p3, p4, p5, p6, p7, p8, p9, p10, p11, p12, p13, p14,
            q0, q1, q2, q3, q4, q5, q6, q7, q8, q9, q10, q11, q12, q13, q14,
            r0, r1, r2, r3, r4, r5, r6, r7, r8, r9, r10, r11, r12, r13, r14,
            e0, e1, e2, e3, e4, e5, e6, e7, e8, e9, e10, e11, s0, s1, s2, s3, s4, s5, s6, s7, s8, s9, s10, s11, s12, s13, s14, s15, s16, s17, s18, s19, s20, s21, s22);
  }

  lemma FactorTwelve(f0: int, f1: int, f2: int, f3: int, f4: int, f5: int, f6: int, f7: int, f8: int, f9: int, f10: int, f11: int, y: int)
    ensures S12(f0, f1, f2, f3, f4, f5, f6, f7, f8, f9, f10, f11) * y
      == (f0 + 0x20_0000 * f1 + 0x400_0000_0000 * f2 + 0x8000_0000_0000_0000 * f3) * y
         + 0x10_0000_0000_0000_0000_0000 * ((f4 + 0x20_0000 * f5 + 0x400_0000_0000 * f6 + 0x8000_0000_0000_0000 * f7) * y)
         + 0x100_0000_0000_0000_0000_0000_0000_0000_0000_0000_0000 * ((f8 + 0x20_0000 * f9 + 0x400_0000_0000 * f10 + 0x8000_0000_0000_0000 * f11) * y)
  {
    var u, v, w := (f0 + 0x20_0000 * f1 + 0x400_0000_0000 * f2 + 0x8000_0000_0000_0000 * f3), (f4 + 0x20_0000 * f5 + 0x400_0000_0000 * f6 + 0x8000_0000_0000_0000 * f7), (f8 + 0x20_0000 * f9 + 0x400_0000_0000 * f10 + 0x8000_0000_0000_0000 * f11);
    assert S12(f0, f1, f2, f3, f4, f5, f6, f7, f8, f9, f10, f11) == u + 0x10_0000_0000_0000_0000_0000 * v + 0x100_0000_0000_0000_0000_0000_0000_0000_0000_0000_0000 * w;
    ThreeTerms(u, v, w, y);
  }

  lemma ThreeTerms(u: int, v: int, w: int, y: int)
    ensures (u + 0x10_0000_0000_0000_0000_0000 * v + 0x100_0000_0000_0000_0000_0000_0000_0000_0000_0000_0000 * w) * y
      == u * y + 0x10_0000_0000_0000_0000_0000 * (v * y) + 0x100_0000_0000_0000_0000_0000_0000_0000_0000_0000_0000 * (w * y)
  {
  }

  lemma Columns(p0: int, p1: int, p2: int, p3: int, p4: int, p5: int, p6: int, p7: int, p8: int, p9: int, p10: int, p11: int, p12: int, p13: int, p14: int,
                q0: int, q1: int, q2: int, q3: int, q4: int, q5: int, q6: int, q7: int, q8: int, q9: int, q10: int, q11: int, q12: int, q13: int, q14: int,
                r0: int, r1: int, r2: int, r3: int, r4: int, r5: int, r6: int, r7: int, r8: int, r9: int, r10: int, r11: int, r12: int, r13: int, r14: int,
                e0: int, e1: int, e2: int, e3: int, e4: int, e5: int, e6: int, e7: int, e8: int, e9: int, e10: int, e11: int,
                s0: int, s1: int, s2: int, s3: int, s4: int, s5: int, s6: int, s7: int, s8: int, s9: int, s10: int, s11: int, s12: int, s13: int, s14: int, s15: int, s16: int, s17: int, s18: int, s19: int, s20: int, s21: int, s22: int)
    requires s0 == e0 + p0
    requires s1 == e1 + p1
    requires s2 == e2 + p2
    requires s3 == e3 + p3
    requires s4 == e4 + p4 + q0
    requires s5 == e5 + p5 + q1
    requires s6 == e6 + p6 + q2
    requires s7 == e7 + p7 + q3
    requires s8 == e8 + p8 + q4 + r0
    requires s9 == e9 + p9 + q5 + r1
    requires s10 == e10 + p10 + q6 + r2
    requires s11 == e11 + p11 + q7 + r3
    requires s12 == p12 + q8 + r4
    requires s13 == p13 + q9 + r5
    requires s14 == p14 + q10 + r6
    requires s15 == q11 + r7
    requires s16 == q12 + r8
    requires s17 == q13 + r9
    requires s18 == q14 + r10
    requires s19 == r11
    requires s20 == r12
    requires s21 == r13
    requires s22 == r14
    ensures S24(s0, s1, s2, s3, s4, s5, s6, s7, s8, s9, s10, s11, s12, s13, s14, s15, s16, s17, s18, s19, s20, s21, s22, 0)
      == (p0 + 0x20_0000 * p1 + 0x400_0000_0000 * p2 + 0x8000_0000_0000_0000 * p3 +
         0x10_0000_0000_0000_0000_0000 * p4 + 0x200_0000_0000_0000_0000_0000_0000 * p5 + 0x4000_0000_0000_0000_0000_0000_0000_0000 * p6 + 0x8_0000_0000_0000_0000_0000_0000_0000_0000_0000 * p7 +
         0x100_0000_0000_0000_0000_0000_0000_0000_0000_0000_0000 * p8 + 0x2000_0000_0000_0000_0000_0000_0000_0000_0000_0000_0000_0000 * p9 + 0x4_0000_0000_0000_0000_0000_0000_0000_0000_0000_0000_0000_0000_0000 * p10 + 0x80_0000_0000_0000_0000_0000_0000_0000_0000_0000_0000_0000_0000_0000_0000 * p11 +
         0x1000_0000_0000_0000_0000_0000_0000_0000_0000_0000_0000_0000_0000_0000_0000_0000 * p12 + 0x2_0000_0000_0000_0000_0000_0000_0000_0000_0000_0000_0000_0000_0000_0000_0000_0000_0000 * p13 + 0x40_0000_0000_0000_0000_0000_0000_0000_0000_0000_0000_0000_0000_0000_0000_0000_0000_0000_0000 * p14)
         + 0x10_0000_0000_0000_0000_0000 * (q0 + 0x20_0000 * q1 + 0x400_0000_0000 * q2 + 0x8000_0000_0000_0000 * q3 +
         0x10_0000_0000_0000_0000_0000 * q4 + 0x200_0000_0000_0000_0000_0000_0000 * q5 + 0x4000_0000_0000_0000_0000_0000_0000_0000 * q6 + 0x8_0000_0000_0000_0000_0000_0000_0000_0000_0000 * q7 +
         0x100_0000_0000_0000_0000_0000_0000_0000_0000_0000_0000 * q8 + 0x2000_0000_0000_0000_0000_0000_0000_0000_0000_0000_0000_0000 * q9 + 0x4_0000_0000_0000_0000_0000_0000_0000_0000_0000_0000_0000_0000_0000 * q10 + 0x80_0000_0000_0000_0000_0000_0000_0000_0000_0000_0000_0000_0000_0000_0000 * q11 +
         0x1000_0000_0000_0000_0000_0000_0000_0000_0000_0000_0000_0000_0000_0000_0000_0000 * q12 + 0x2_0000_0000_0000_0000_0000_0000_0000_0000_0000_0000_0000_0000_0000_0000_0000_0000_0000 * q13 + 0x40_0000_0000_0000_0000_0000_0000_0000_0000_0000_0000_0000_0000_0000_0000_0000_0000_0000_0000 * q14)
         + 0x100_0000_0000_0000_0000_0000_0000_0000_0000_0000_0000 * (r0 + 0x20_0000 * r1 + 0x400_0000_0000 * r2 + 0x8000_0000_0000_0000 * r3 +
         0x10_0000_0000_0000_0000_0000 * r4 + 0x200_0000_0000_0000_0000_0000_0000 * r5 + 0x4000_0000_0000_0000_0000_0000_0000_0000 * r6 + 0x8_0000_0000_0000_0000_0000_0000_0000_0000_0000 * r7 +
         0x100_0000_0000_0000_0000_0000_0000_0000_0000_0000_0000 * r8 + 0x2000_0000_0000_0000_0000_0000_0000_0000_0000_0000_0000_0000 * r9 + 0x4_0000_0000_0000_0000_0000_0000_0000_0000_0000_0000_0000_0000_0000 * r10 + 0x80_0000_0000_0000_0000_0000_0000_0000_0000_0000_0000_0000_0000_0000_0000 * r11 +
         0x1000_0000_0000_0000_0000_0000_0000_0000_0000_0000_0000_0000_0000_0000_0000_0000 * r12 + 0x2_0000_0000_0000_0000_0000_0000_0000_0000_0000_0000_0000_0000_0000_0000_0000_0000_0000 * r13 + 0x40_0000_0000_0000_0000_0000_0000_0000_0000_0000_0000_0000_0000_0000_0000_0000_0000_0000_0000 * r14)
         + S12(e0, e1, e2, e3, e4, e5, e6, e7, e8, e9, e10, e11)
  {
  }

  method LowColumns(a: seq<int64>, b: seq<int64>, c: seq<int64>) returns (s0: int64, s1: int64, s2: int64, s3: int64, s4: int64, s5: int64, s6: int64, s7: int64, s8: int64)
    requires Loaded(a) && Loaded(b) && Loaded(c)
    ensures 0 <= s0 <= 0x1_0000_0000_0000 && s0 as int == c[0] as int + Times(a[0] as int, b[0] as int)
    ensures 0 <= s1 <= 0x1_0000_0000_0000 && s1 as int == c[1] as int + Times(a[0] as int, b[1] as int) + Times(a[1] as int, b[0] as int)
    ensures 0 <= s2 <= 0x1_0000_0000_0000 && s2 as int == c[2] as int + Times(a[0] as int, b[2] as int) + Times(a[1] as int, b[1] as int) + Times(a[2] as int, b[0] as int)
    ensures 0 <= s3 <= 0x1_0000_0000_0000 && s3 as int == c[3] as int + Times(a[0] as int, b[3] as int) + Times(a[1] as int, b[2] as int) + Times(a[2] as int, b[1] as int) + Times(a[3] as int, b[0] as int)
    ensures 0 <= s4 <= 0x1_0000_0000_0000 && s4 as int == c[4] as int + Times(a[0] as int, b[4] as int) + Times(a[1] as int, b[3] as int) + Times(a[2] as int, b[2] as int) + Times(a[3] as int, b[1] as int) + Times(a[4] as int, b[0] as int)
    ensures 0 <= s5 <= 0x1_0000_0000_0000 && s5 as int == c[5] as int + Times(a[0] as int, b[5] as int) + Times(a[1] as int, b[4] as int) + Times(a[2] as int, b[3] as int) + Times(a[3] as int, b[2] as int) + Times(a[4] as int, b[1] as int) + Times(a[5] as int, b[0] as int)
    ensures 0 <= s6 <= 0x1_0000_0000_0000 && s6 as int == c[6] as int + Times(a[0] as int, b[6] as int) + Times(a[1] as int, b[5] as int) + Times(a[2] as int, b[4] as int) + Times(a[3] as int, b[3] as int) + Times(a[4] as int, b[2] as int) + Times(a[5] as int, b[1] as int) + Times(a[6] as int, b[0] as int)
    ensures 0 <= s7 <= 0x1_0000_0000_0000 && s7 as int == c[7] as int + Times(a[0] as int, b[7] as int) + Times(a[1] as int, b[6] as int) + Times(a[2] as int, b[5] as int) + Times(a[3] as int, b[4] as int) + Times(a[4] as int, b[3] as int) + Times(a[5] as int, b[2] as int) + Times(a[6] as int, b[1] as int) + Times(a[7] as int, b[0] as int)
    ensures 0 <= s8 <= 0x1_0000_0000_0000 && s8 as int == c[8] as int + Times(a[0] as int, b[8] as int) + Times(a[1] as int, b[7] as int) + Times(a[2] as int, b[6] as int) + Times(a[3] as int, b[5] as int) + Times(a[4] as int, b[4] as int) + Times(a[5] as int, b[3] as int) + Times(a[6] as int, b[2] as int) + Times(a[7] as int, b[1] as int) + Times(a[8] as int, b[0] as int)
  {
    hide Prod, Times;
    s0 := c[0] + Prod(a[0], b[0]);
    s1 := c[1] + Prod(a[0], b[1]) + Prod(a[1], b[0]);
    s2 := c[2] + Prod(a[0], b[2]) + Prod(a[1], b[1]) + Prod(a[2], b[0]);
    s3 := c[3] + Prod(a[0], b[3]) + Prod(a[1], b[2]) + Prod(a[2], b[1]) + Prod(a[3], b[0]);
    s4 := c[4] + Prod(a[0], b[4]) + Prod(a[1], b[3]) + Prod(a[2], b[2]) + Prod(a[3], b[1]) + Prod(a[4], b[0]);
    s5 := c[5] + Prod(a[0], b[5]) + Prod(a[1], b[4]) + Prod(a[2], b[3]) + Prod(a[3], b[2]) + Prod(a[4], b[1]) + Prod(a[5], b[0]);
    s6 := c[6] + Prod(a[0], b[6]) + Prod(a[1], b[5]) + Prod(a[2], b[4]) + Prod(a[3], b[3]) + Prod(a[4], b[2]) + Prod(a[5], b[1]) + Prod(a[6], b[0]);
    s7 := c[7] + Prod(a[0], b[7]) + Prod(a[1], b[6]) + Prod(a[2], b[5]) + Prod(a[3], b[4]) + Prod(a[4], b[3]) + Prod(a[5], b[2]) + Prod(a[6], b[1]) + Prod(a[7], b[0]);
    s8 := c[8] + Prod(a[0], b[8]) + Prod(a[1], b[7]) + Prod(a[2], b[6]) + Prod(a[3], b[5]) + Prod(a[4], b[4]) + Prod(a[5], b[3]) + Prod(a[6], b[2]) + Prod(a[7], b[1]) + Prod(a[8], b[0]);
  }

  method MiddleColumns(a: seq<int64>, b: seq<int64>, c: seq<int64>) returns (s9: int64, s10: int64, s11: int64, s12: int64, s13: int64)
    requires Loaded(a) && Loaded(b) && Loaded(c)
    ensures 0 <= s9 <= 0x1_0000_0000_0000 && s9 as int == c[9] as int + Times(a[0] as int, b[9] as int) + Times(a[1] as int, b[8] as int) + Times(a[2] as int, b[7] as int) + Times(a[3] as int, b[6] as int) + Times(a[4] as int, b[5] as int) + Times(a[5] as int, b[4] as int) + Times(a[6] as int, b[3] as int) + Times(a[7] as int, b[2] as int) + Times(a[8] as int, b[1] as int) + Times(a[9] as int, b[0] as int)
    ensures 0 <= s10 <= 0x1_0000_0000_0000 && s10 as int == c[10] as int + Times(a[0] as int, b[10] as int) + Times(a[1] as int, b[9] as int) + Times(a[2] as int, b[8] as int) + Times(a[3] as int, b[7] as int) + Times(a[4] as int, b[6] as int) + Times(a[5] as int, b[5] as int) + Times(a[6] as int, b[4] as int) + Times(a[7] as int, b[3] as int) + Times(a[8] as int, b[2] as int) + Times(a[9] as int, b[1] as int) + Times(a[10] as int, b[0] as int)
    ensures 0 <= s11 <= 0x1_0000_0000_0000 && s11 as int == c[11] as int + Times(a[0] as int, b[11] as int) + Times(a[1] as int, b[10] as int) + Times(a[2] as int, b[9] as int) + Times(a[3] as int, b[8] as int) + Times(a[4] as int, b[7] as int) + Times(a[5] as int, b[6] as int) + Times(a[6] as int, b[5] as int) + Times(a[7] as int, b[4] as int) + Times(a[8] as int, b[3] as int) + Times(a[9] as int, b[2] as int) + Times(a[10] as int, b[1] as int) + Times(a[11] as int, b[0] as int)
    ensures 0 <= s12 <= 0x1_0000_0000_0000 && s12 as int == Times(a[1] as int, b[11] as int) + Times(a[2] as int, b[10] as int) + Times(a[3] as int, b[9] as int) + Times(a[4] as int, b[8] as int) + Times(a[5] as int, b[7] as int) + Times(a[6] as int, b[6] as int) + Times(a[7] as int, b[5] as int) + Times(a[8] as int, b[4] as int) + Times(a[9] as int, b[3] as int) + Times(a[10] as int, b[2] as int) + Times(a[11] as int, b[1] as int)
    ensures 0 <= s13 <= 0x1_0000_0000_0000 && s13 as int == Times(a[2] as int, b[11] as int) + Times(a[3] as int, b[10] as int) + Times(a[4] as int, b[9] as int) + Times(a[5] as int, b[8] as int) + Times(a[6] as int, b[7] as int) + Times(a[7] as int, b[6] as int) + Times(a[8] as int, b[5] as int) + Times(a[9] as int, b[4] as int) + Times(a[10] as int, b[3] as int) + Times(a[11] as int, b[2] as int)
  {
    hide Prod, Times;
    s9 := c[9] + Prod(a[0], b[9]) + Prod(a[1], b[8]) + Prod(a[2], b[7]) + Prod(a[3], b[6]) + Prod(a[4], b[5]) + Prod(a[5], b[4]) + Prod(a[6], b[3]) + Prod(a[7], b[2]) + Prod(a[8], b[1]) + Prod(a[9], b[0]);
    s10 := c[10] + Prod(a[0], b[10]) + Prod(a[1], b[9]) + Prod(a[2], b[8]) + Prod(a[3], b[7]) + Prod(a[4], b[6]) + Prod(a[5], b[5]) + Prod(a[6], b[4]) + Prod(a[7], b[3]) + Prod(a[8], b[2]) + Prod(a[9], b[1]) + Prod(a[10], b[0]);
    s11 := c[11] + Prod(a[0], b[11]) + Prod(a[1], b[10]) + Prod(a[2], b[9]) + Prod(a[3], b[8]) + Prod(a[4], b[7]) + Prod(a[5], b[6]) + Prod(a[6], b[5]) + Prod(a[7], b[4]) + Prod(a[8], b[3]) + Prod(a[9], b[2]) + Prod(a[10], b[1]) + Prod(a[11], b[0]);
    s12 := Prod(a[1], b[11]) + Prod(a[2], b[10]) + Prod(a[3], b[9]) + Prod(a[4], b[8]) + Prod(a[5], b[7]) + Prod(a[6], b[6]) + Prod(a[7], b[5]) + Prod(a[8], b[4]) + Prod(a[9], b[3]) + Prod(a[10], b[2]) + Prod(a[11], b[1]);
    s13 := Prod(a[2], b[11]) + Prod(a[3], b[10]) + Prod(a[4], b[9]) + Prod(a[5], b[8]) + Prod(a[6], b[7]) + Prod(a[7], b[6]) + Prod(a[8], b[5]) + Prod(a[9], b[4]) + Prod(a[10], b[3]) + Prod(a[11], b[2]);
  }

  method HighColumns(a: seq<int64>, b: seq<int64>) returns (s14: int64, s15: int64, s16: int64, s17: int64, s18: int64, s19: int64, s20: int64, s21: int64, s22: int64)
    requires Loaded(a) && Loaded(b)
    ensures 0 <= s14 <= 0x1_0000_0000_0000 && s14 as int == Times(a[3] as int, b[11] as int) + Times(a[4] as int, b[10] as int) + Times(a[5] as int, b[9] as int) + Times(a[6] as int, b[8] as int) + Times(a[7] as int, b[7] as int) + Times(a[8] as int, b[6] as int) + Times(a[9] as int, b[5] as int) + Times(a[10] as int, b[4] as int) + Times(a[11] as int, b[3] as int)
    ensures 0 <= s15 <= 0x1_0000_0000_0000 && s15 as int == Times(a[4] as int, b[11] as int) + Times(a[5] as int, b[10] as int) + Times(a[6] as int, b[9] as int) + Times(a[7] as int, b[8] as int) + Times(a[8] as int, b[7] as int) + Times(a[9] as int, b[6] as int) + Times(a[10] as int, b[5] as int) + Times(a[11] as int, b[4] as int)
    ensures 0 <= s16 <= 0x1_0000_0000_0000 && s16 as int == Times(a[5] as int, b[11] as int) + Times(a[6] as int, b[10] as int) + Times(a[7] as int, b[9] as int) + Times(a[8] as int, b[8] as int) + Times(a[9] as int, b[7] as int) + Times(a[10] as int, b[6] as int) + Times(a[11] as int, b[5] as int)
    ensures 0 <= s17 <= 0x1_0000_0000_0000 && s17 as int == Times(a[6] as int, b[11] as int) + Times(a[7] as int, b[10] as int) + Times(a[8] as int, b[9] as int) + Times(a[9] as int, b[8] as int) + Times(a[10] as int, b[7] as int) + Times(a[11] as int, b[6] as int)
    ensures 0 <= s18 <= 0x1_0000_0000_0000 && s18 as int == Times(a[7] as int, b[11] as int) + Times(a[8] as int, b[10] as int) + Times(a[9] as int, b[9] as int) + Times(a[10] as int, b[8] as int) + Times(a[11] as int, b[7] as int)
    ensures 0 <= s19 <= 0x1_0000_0000_0000 && s19 as int == Times(a[8] as int, b[11] as int) + Times(a[9] as int, b[10] as int) + Times(a[10] as int, b[9] as int) + Times(a[11] as int, b[8] as int)
    ensures 0 <= s20 <= 0x1_0000_0000_0000 && s20 as int == Times(a[9] as int, b[11] as int) + Times(a[10] as int, b[10] as int) + Times(a[11] as int, b[9] as int)
    ensures 0 <= s21 <= 0x1_0000_0000_0000 && s21 as int == Times(a[10] as int, b[11] as int) + Times(a[11] as int, b[10] as int)
    ensures 0 <= s22 <= 0x4_0000_0000_0000 && s22 as int == Times(a[11] as int, b[11] as int)
  {
    hide Prod, Times;
    s14 := Prod(a[3], b[11]) + Prod(a[4], b[10]) + Prod(a[5], b[9]) + Prod(a[6], b[8]) + Prod(a[7], b[7]) + Prod(a[8], b[6]) + Prod(a[9], b[5]) + Prod(a[10], b[4]) + Prod(a[11], b[3]);
    s15 := Prod(a[4], b[11]) + Prod(a[5], b[10]) + Prod(a[6], b[9]) + Prod(a[7], b[8]) + Prod(a[8], b[7]) + Prod(a[9], b[6]) + Prod(a[10], b[5]) + Prod(a[11], b[4]);
    s16 := Prod(a[5], b[11]) + Prod(a[6], b[10]) + Prod(a[7], b[9]) + Prod(a[8], b[8]) + Prod(a[9], b[7]) + Prod(a[10], b[6]) + Prod(a[11], b[5]);
    s17 := Prod(a[6], b[11]) + Prod(a[7], b[10]) + Prod(a[8], b[9]) + Prod(a[9], b[8]) + Prod(a[10], b[7]) + Prod(a[11], b[6]);
    s18 := Prod(a[7], b[11]) + Prod(a[8], b[10]) + Prod(a[9], b[9]) + Prod(a[10], b[8]) + Prod(a[11], b[7]);
    s19 := Prod(a[8], b[11]) + Prod(a[9], b[10]) + Prod(a[10], b[9]) + Prod(a[11], b[8]);
    s20 := Prod(a[9], b[11]) + Prod(a[10], b[10]) + Prod(a[11], b[9]);
    s21 := Prod(a[10], b[11]) + Prod(a[11], b[10]);
    s22 := Prod(a[11], b[11]);
  }

  /** One centred pass over the columns: the even limbs first, then the odd ones. */
  method CarryColumns(c0: int64, c1: int64, c2: int64, c3: int64, c4: int64, c5: int64, c6: int64, c7: int64, c8: int64, c9: int64, c10: int64, c11: int64, c12: int64, c13: int64, c14: int64, c15: int64, c16: int64, c17: int64, c18: int64, c19: int64, c20: int64, c21: int64, c22: int64)
    returns (s0: int64, s1: int64, s2: int64, s3: int64, s4: int64, s5: int64, s6: int64, s7: int64, s8: int64, s9: int64, s10: int64, s11: int64, s12: int64, s13: int64, s14: int64, s15: int64, s16: int64, s17: int64, s18: int64, s19: int64, s20: int64, s21: int64, s22: int64, s23: int64)
    requires 0 <= c0 <= 0x1_0000_0000_0000 && 0 <= c1 <= 0x1_0000_0000_0000 && 0 <= c2 <= 0x1_0000_0000_0000 && 0 <= c3 <= 0x1_0000_0000_0000 && 0 <= c4 <= 0x1_0000_0000_0000 && 0 <= c5 <= 0x1_0000_0000_0000 && 0 <= c6 <= 0x1_0000_0000_0000 && 0 <= c7 <= 0x1_0000_0000_0000 && 0 <= c8 <= 0x1_0000_0000_0000 && 0 <= c9 <= 0x1_0000_0000_0000 && 0 <= c10 <= 0x1_0000_0000_0000 && 0 <= c11 <= 0x1_0000_0000_0000 && 0 <= c12 <= 0x1_0000_0000_0000 && 0 <= c13 <= 0x1_0000_0000_0000 && 0 <= c14 <= 0x1_0000_0000_0000 && 0 <= c15 <= 0x1_0000_0000_0000 && 0 <= c16 <= 0x1_0000_0000_0000 && 0 <= c17 <= 0x1_0000_0000_0000 && 0 <= c18 <= 0x1_0000_0000_0000 && 0 <= c19 <= 0x1_0000_0000_0000 && 0 <= c20 <= 0x1_0000_0000_0000 && 0 <= c21 <= 0x1_0000_0000_0000
    requires 0 <= c22 <= 0x4_0000_0000_0000
    ensures Within(s0, 0x1000_0000) && Within(s1, 0x1000_0000) && Within(s2, 0x1000_0000) && Within(s3, 0x1000_0000) && Within(s4, 0x1000_0000) && Within(s5, 0x1000_0000) && Within(s6, 0x1000_0000) && Within(s7, 0x1000_0000) && Within(s8, 0x1000_0000) && Within(s9, 0x1000_0000) && Within(s10, 0x1000_0000) && Within(s11, 0x1000_0000) && Within(s12, 0x1000_0000) && Within(s13, 0x1000_0000) && Within(s14, 0x1000_0000) && Within(s15, 0x1000_0000) && Within(s16, 0x1000_0000) && Within(s17, 0x1000_0000) && Within(s18, 0x1000_0000) && Within(s19, 0x1000_0000) && Within(s20, 0x1000_0000) && Within(s21, 0x1000_0000) && Within(s22, 0x1000_0000)
    ensures Within(s23, 0x2000_0000)
    ensures S24(s0 as int, s1 as int, s2 as int, s3 as int, s4 as int, s5 as int, s6 as int, s7 as int, s8 as int, s9 as int, s10 as int, s11 as int,
                s12 as int, s13 as int, s14 as int, s15 as int, s16 as int, s17 as int, s18 as int, s19 as int, s20 as int, s21 as int, s22 as int, s23 as int)
         == S24(c0 as int, c1 as int, c2 as int, c3 as int, c4 as int, c5 as int, c6 as int, c7 as int, c8 as int, c9 as int, c10 as int, c11 as int,
                c12 as int, c13 as int, c14 as int, c15 as int, c16 as int, c17 as int, c18 as int, c19 as int, c20 as int, c21 as int, c22 as int, 0)
  {
    hide S24, S12;
    s0, s1, s2, s3, s4, s5, s6, s7, s8, s9, s10, s11, s12, s13, s14, s15, s16, s17, s18, s19, s20, s21, s22 :=
      c0, c1, c2, c3, c4, c5, c6, c7, c8, c9, c10, c11, c12, c13, c14, c15, c16, c17, c18, c19, c20, c21, c22;
    s23 := 0;
    ghost var k0, k1, k2, k3, k4, k5, k6, k7, k8, k9, k10, k11, k12, k13, k14, k15, k16, k17, k18, k19, k20, k21, k22;
    s0, s1, k0 := Carry(s0, s1);
    s2, s3, k2 := Carry(s2, s3);
    s4, s5, k4 := Carry(s4, s5);
    s6, s7, k6 := Carry(s6, s7);
    s8, s9, k8 := Carry(s8, s9);
    s10, s11, k10 := Carry(s10, s11);
    s12, s13, k12 := Carry(s12, s13);
    s14, s15, k14 := Carry(s14, s15);
    s16, s17, k16 := Carry(s16, s17);
    s18, s19, k18 := Carry(s18, s19);
    s20, s21, k20 := Carry(s20, s21);
    s22, s23, k22 := Carry(s22, s23);
    s1, s2, k1 := Carry(s1, s2);
    s3, s4, k3 := Carry(s3, s4);
    s5, s6, k5 := Carry(s5, s6);
    s7, s8, k7 := Carry(s7, s8);
    s9, s10, k9 := Carry(s9, s10);
    s11, s12, k11 := Carry(s11, s12);
    s13, s14, k13 := Carry(s13, s14);
    s15, s16, k15 := Carry(s15, s16);
    s17, s18, k17 := Carry(s17, s18);
    s19, s20, k19 := Carry(s19, s20);
    s21, s22, k21 := Carry(s21, s22);
    CarryColumnsValue(c0 as int, c1 as int, c2 as int, c3 as int, c4 as int, c5 as int, c6 as int, c7 as int, c8 as int, c9 as int, c10 as int, c11 as int, c12 as int, c13 as int, c14 as int, c15 as int, c16 as int, c17 as int, c18 as int, c19 as int, c20 as int, c21 as int, c22 as int,
      s0 as int, s1 as int, s2 as int, s3 as int, s4 as int, s5 as int, s6 as int, s7 as int, s8 as int, s9 as int, s10 as int, s11 as int, s12 as int, s13 as int, s14 as int, s15 as int, s16 as int, s17 as int, s18 as int, s19 as int, s20 as int, s21 as int, s22 as int, s23 as int,
      k0, k1, k2, k3, k4, k5, k6, k7, k8, k9, k10, k11, k12, k13, k14, k15, k16, k17, k18, k19, k20, k21, k22);
  }

  lemma CarryColumnsValue(c0: int, c1: int, c2: int, c3: int, c4: int, c5: int, c6: int, c7: int, c8: int, c9: int, c10: int, c11: int, c12: int, c13: int, c14: int, c15: int, c16: int, c17: int, c18: int, c19: int, c20: int, c21: int, c22: int,
                          s0: int, s1: int, s2: int, s3: int, s4: int, s5: int, s6: int, s7: int, s8: int, s9: int, s10: int, s11: int, s12: int, s13: int, s14: int, s15: int, s16: int, s17: int, s18: int, s19: int, s20: int, s21: int, s22: int, s23: int,
                          k0: int, k1: int, k2: int, k3: int, k4: int, k5: int, k6: int, k7: int, k8: int, k9: int, k10: int, k11: int, k12: int, k13: int, k14: int, k15: int, k16: int, k17: int, k18: int, k19: int, k20: int, k21: int, k22: int)
    requires s0 == c0 - 0x20_0000 * k0
    requires s1 == c1 + k0 - 0x20_0000 * k1
    requires s2 == c2 + k1 - 0x20_0000 * k2
    requires s3 == c3 + k2 - 0x20_0000 * k3
    requires s4 == c4 + k3 - 0x20_0000 * k4
    requires s5 == c5 + k4 - 0x20_0000 * k5
    requires s6 == c6 + k5 - 0x20_0000 * k6
    requires s7 == c7 + k6 - 0x20_0000 * k7
    requires s8 == c8 + k7 - 0x20_0000 * k8
    requires s9 == c9 + k8 - 0x20_0000 * k9
    requires s10 == c10 + k9 - 0x20_0000 * k10
    requires s11 == c11 + k10 - 0x20_0000 * k11
    requires s12 == c12 + k11 - 0x20_0000 * k12
    requires s13 == c13 + k12 - 0x20_0000 * k13
    requires s14 == c14 + k13 - 0x20_0000 * k14
    requires s15 == c15 + k14 - 0x20_0000 * k15
    requires s16 == c16 + k15 - 0x20_0000 * k16
    requires s17 == c17 + k16 - 0x20_0000 * k17
    requires s18 == c18 + k17 - 0x20_0000 * k18
    requires s19 == c19 + k18 - 0x20_0000 * k19
    requires s20 == c20 + k19 - 0x20_0000 * k20
    requires s21 == c21 + k20 - 0x20_0000 * k21
    requires s22 == c22 + k21 - 0x20_0000 * k22
    requires s23 == 0 + k22
    ensures S24(s0, s1, s2, s3, s4, s5, s6, s7, s8, s9, s10, s11, s12, s13, s14, s15, s16, s17, s18, s19, s20, s21, s22, s23)
         == S24(c0, c1, c2, c3, c4, c5, c6, c7, c8, c9, c10, c11, c12, c13, c14, c15, c16, c17, c18, c19, c20, c21, c22, 0)
  {
  }

  /** The limbs of a * b + c, carried once. */
  method MulAddLimbs(a: seq<int64>, b: seq<int64>, c: seq<int64>) returns (s0: int64, s1: int64, s2: int64, s3: int64, s4: int64, s5: int64, s6: int64, s7: int64, s8: int64, s9: int64, s10: int64, s11: int64, s12: int64, s13: int64, s14: int64, s15: int64, s16: int64, s17: int64, s18: int64, s19: int64, s20: int64, s21: int64, s22: int64, s23: int64)
    requires Loaded(a) && Loaded(b) && Loaded(c)
    ensures Within(s0, 0x1000_0000) && Within(s1, 0x1000_0000) && Within(s2, 0x1000_0000) && Within(s3, 0x1000_0000) && Within(s4, 0x1000_0000) && Within(s5, 0x1000_0000) && Within(s6, 0x1000_0000) && Within(s7, 0x1000_0000) && Within(s8, 0x1000_0000) && Within(s9, 0x1000_0000) && Within(s10, 0x1000_0000) && Within(s11, 0x1000_0000) && Within(s12, 0x1000_0000) && Within(s13, 0x1000_0000) && Within(s14, 0x1000_0000) && Within(s15, 0x1000_0000) && Within(s16, 0x1000_0000) && Within(s17, 0x1000_0000) && Within(s18, 0x1000_0000) && Within(s19, 0x1000_0000) && Within(s20, 0x1000_0000) && Within(s21, 0x1000_0000) && Within(s22, 0x1000_0000)
    ensures Within(s23, 0x2000_0000)
    ensures S24(s0 as int, s1 as int, s2 as int, s3 as int, s4 as int, s5 as int, s6 as int, s7 as int, s8 as int, s9 as int, s10 as int, s11 as int,
                s12 as int, s13 as int, s14 as int, s15 as int, s16 as int, s17 as int, s18 as int, s19 as int, s20 as int, s21 as int, s22 as int, s23 as int)
         == Val(a) * Val(b) + Val(c)
  {
    hide Times, S12, S24, Within;
    var c0, c1, c2, c3, c4, c5, c6, c7, c8 := LowColumns(a, b, c);
    var c9, c10, c11, c12, c13 := MiddleColumns(a, b, c);
    var c14, c15, c16, c17, c18, c19, c20, c21, c22 := HighColumns(a, b);
    Convolution(a[0] as int, a[1] as int, a[2] as int, a[3] as int, a[4] as int, a[5] as int, a[6] as int, a[7] as int, a[8] as int, a[9] as int, a[10] as int, a[11] as int,
                b[0] as int, b[1] as int, b[2] as int, b[3] as int, b[4] as int, b[5] as int, b[6] as int, b[7] as int, b[8] as int, b[9] as int, b[10] as int, b[11] as int,
                c[0] as int, c[1] as int, c[2] as int, c[3] as int, c[4] as int, c[5] as int, c[6] as int, c[7] as int, c[8] as int, c[9] as int, c[10] as int, c[11] as int,
                c0 as int, c1 as int, c2 as int, c3 as int, c4 as int, c5 as int, c6 as int, c7 as int, c8 as int, c9 as int, c10 as int, c11 as int, c12 as int, c13 as int, c14 as int, c15 as int, c16 as int, c17 as int, c18 as int, c19 as int, c20 as int, c21 as int, c22 as int);
    s0, s1, s2, s3, s4, s5, s6, s7, s8, s9, s10, s11, s12, s13, s14, s15, s16, s17, s18, s19, s20, s21, s22, s23 :=
      CarryColumns(c0, c1, c2, c3, c4, c5, c6, c7, c8, c9, c10, c11, c12, c13, c14, c15, c16, c17, c18, c19, c20, c21, c22);
  }

  /** Writes the canonical 32 bytes of (a * b + c) mod l at `s + at`, for every three strings of 32 bytes. */
  method ScMulAdd(s: array<uint8>, at: nat, a: seq<uint8>, b: seq<uint8>, c: seq<uint8>)
    requires at + 32 <= s.Length
    requires |a| == |b| == |c| == 32
    modifies s
    ensures s[at..at + 32] == ToLE((LE(a) * LE(b) + LE(c)) % L, 32)
    ensures s[..at] == old(s[..at]) && s[at + 32..] == old(s[at + 32..])
  {
    hide S12, S24, LE, ToLE, Loaded, Val, Within;
    var x := Load32(a);
    var y := Load32(b);
    var z := Load32(c);
    var s0, s1, s2, s3, s4, s5, s6, s7, s8, s9, s10, s11, s12, s13, s14, s15, s16, s17, s18, s19, s20, s21, s22, s23 := MulAddLimbs(x, y, z);
    var r0, r1, r2, r3, r4, r5, r6, r7, r8, r9, r10, r11 :=
      ReduceLimbs(s0, s1, s2, s3, s4, s5, s6, s7, s8, s9, s10, s11,
                  s12, s13, s14, s15, s16, s17, s18, s19, s20, s21, s22, s23);
    var bytes := Pack(r0 as nat, r1 as nat, r2 as nat, r3 as nat, r4 as nat, r5 as nat, r6 as nat, r7 as nat, r8 as nat, r9 as nat, r10 as nat, r11 as nat);
    ToLEUnique(bytes);
    Store32(s, at, bytes);
  }
}
