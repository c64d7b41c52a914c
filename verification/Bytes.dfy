/**
 Little-endian byte strings: the numbers they stand for, the small loads of the C source, and the
 canonical 32-byte string of a number.
 */
module Bytes {
  import opened CInts

  /** The number held by the bytes of `s` from index `i` on, least significant byte first. */
  ghost function LEFrom(s: seq<uint8>, i: nat): nat
    requires i <= |s|
    decreases |s| - i
  {
    if i == |s| then 0 else s[i] as int + 0x100 * LEFrom(s, i + 1)
  }

  ghost function LE(s: seq<uint8>): nat {
    LEFrom(s, 0)
  }

  lemma {:induction false} LEBound(s: seq<uint8>, i: nat)
    requires i <= |s|
    ensures LEFrom(s, i) < Pow2(8 * (|s| - i))
    decreases |s| - i
  {
    if i < |s| {
      hide LEFrom, Pow2;
      LEStep(s, i);
      LEBound(s, i + 1);
      PowersOfTwo();
      Pow2Add(8, 8 * (|s| - i - 1));
    } else {
      LEEmpty(s);
    }
  }

  lemma {:induction false} LEInjectiveFrom(s: seq<uint8>, t: seq<uint8>, i: nat)
    requires |s| == |t| && i <= |s|
    requires LEFrom(s, i) == LEFrom(t, i)
    ensures s[i..] == t[i..]
    decreases |s| - i
  {
    if i < |s| {
      assert s[i] == t[i];
      LEInjectiveFrom(s, t, i + 1);
      assert s[i..] == [s[i]] + s[i + 1..] && t[i..] == [t[i]] + t[i + 1..];
    }
  }

  /** Two byte strings of one length that hold the same number are the same string. */
  lemma LEInjective(s: seq<uint8>, t: seq<uint8>)
    requires |s| == |t| && LE(s) == LE(t)
    ensures s == t
  {
    LEInjectiveFrom(s, t, 0);
    assert s[0..] == s && t[0..] == t;
  }

  lemma {:induction false} LEFromSlice(s: seq<uint8>, i: nat, j: nat)
    requires i <= j <= |s|
    ensures LEFrom(s[i..], j - i) == LEFrom(s, j)
    decreases |s| - j
  {
    if j < |s| { LEFromSlice(s, i, j + 1); }
  }

  /** Cutting a string in two splits its number. */
  lemma {:induction false} LESplit(s: seq<uint8>, i: nat, k: nat)
    requires i <= k <= |s|
    ensures LEFrom(s, i) == LEFrom(s[..k], i) + Pow2(8 * (k - i)) * LEFrom(s, k)
    decreases k - i
  {
    hide LEFrom, Pow2;
    if i == k {
      LEEmpty(s[..k]);
      PowersOfTwo();
    } else {
      LEStep(s, i);
      LEStep(s[..k], i);
      LESplit(s, i + 1, k);
      var p, x := Pow2(8 * (k - i - 1)), LEFrom(s, k);
      assert Pow2(8 * (k - i)) == 0x100 * p by {
        PowersOfTwo();
        Pow2Add(8, 8 * (k - i - 1));
      }
      assert 0x100 * (p * x) == (0x100 * p) * x;
    }
  }

  /** The last of 32 bytes, and the 248 bits below it. */
  lemma LETop(s: seq<uint8>)
    requires |s| == 32
    ensures LE(s) == LE(s[..31]) + 0x100_0000_0000_0000_0000_0000_0000_0000_0000_0000_0000_0000_0000_0000_0000_0000 * s[31] as int
    ensures LE(s[..31]) < 0x100_0000_0000_0000_0000_0000_0000_0000_0000_0000_0000_0000_0000_0000_0000_0000
  {
    hide LEFrom, Pow2;
    LESplit(s, 0, 31);
    LEStep(s, 31);
    LEEmpty(s);
    LEBound(s[..31], 0);
    PowersOfTwo();
    Pow2Add(8, 16);
    Pow2Add(24, 32);
    Pow2Add(24, 40);
    Pow2Add(56, 64);
    Pow2Add(64, 64);
    Pow2Add(120, 128);
  }

  lemma LEStep(s: seq<uint8>, i: nat)
    requires i < |s|
    ensures LEFrom(s, i) == s[i] as int + 0x100 * LEFrom(s, i + 1)
  {
  }

  ghost function Word8(b0: int, b1: int, b2: int, b3: int, b4: int, b5: int, b6: int, b7: int): int {
    b0 + 0x100 * b1 + 0x1_0000 * b2 + 0x100_0000 * b3 +
    0x1_0000_0000 * b4 + 0x100_0000_0000 * b5 + 0x1_0000_0000_0000 * b6 + 0x100_0000_0000_0000 * b7
  }

  lemma LE8(s: seq<uint8>, i: nat)
    requires i + 8 <= |s|
    ensures LEFrom(s, i) == Word8(s[i] as int, s[i + 1] as int, s[i + 2] as int, s[i + 3] as int,
                                  s[i + 4] as int, s[i + 5] as int, s[i + 6] as int, s[i + 7] as int)
                            + 0x1_0000_0000_0000_0000 * LEFrom(s, i + 8)
  {
    hide LEFrom;
    LEStep(s, i); LEStep(s, i + 1); LEStep(s, i + 2); LEStep(s, i + 3);
    LEStep(s, i + 4); LEStep(s, i + 5); LEStep(s, i + 6); LEStep(s, i + 7);
  }

  /** The number written by 32 base-256 digits. */
  ghost function Sum32(b0: int, b1: int, b2: int, b3: int, b4: int, b5: int, b6: int, b7: int,
                           b8: int, b9: int, b10: int, b11: int, b12: int, b13: int, b14: int, b15: int,
                           b16: int, b17: int, b18: int, b19: int, b20: int, b21: int, b22: int, b23: int,
                           b24: int, b25: int, b26: int, b27: int, b28: int, b29: int, b30: int, b31: int): int {
    b0 + 0x100 * b1 + 0x10000 * b2 + 0x1000000 * b3 +
    0x100000000 * b4 + 0x10000000000 * b5 + 0x1000000000000 * b6 + 0x100000000000000 * b7 +
    0x10000000000000000 * b8 + 0x1000000000000000000 * b9 + 0x100000000000000000000 * b10 + 0x10000000000000000000000 * b11 +
    0x1000000000000000000000000 * b12 + 0x100000000000000000000000000 * b13 + 0x10000000000000000000000000000 * b14 + 0x1000000000000000000000000000000 * b15 +
    0x100000000000000000000000000000000 * b16 + 0x10000000000000000000000000000000000 * b17 + 0x1000000000000000000000000000000000000 * b18 + 0x100000000000000000000000000000000000000 * b19 +
    0x10000000000000000000000000000000000000000 * b20 + 0x1000000000000000000000000000000000000000000 * b21 + 0x100000000000000000000000000000000000000000000 * b22 + 0x10000000000000000000000000000000000000000000000 * b23 +
    0x1000000000000000000000000000000000000000000000000 * b24 + 0x100000000000000000000000000000000000000000000000000 * b25 + 0x10000000000000000000000000000000000000000000000000000 * b26 + 0x1000000000000000000000000000000000000000000000000000000 * b27 +
    0x100000000000000000000000000000000000000000000000000000000 * b28 + 0x10000000000000000000000000000000000000000000000000000000000 * b29 + 0x1000000000000000000000000000000000000000000000000000000000000 * b30 + 0x100000000000000000000000000000000000000000000000000000000000000 * b31
  }

  lemma Sum32FromWords(x0: int, x1: int, x2: int, x3: int,
                       b0: int, b1: int, b2: int, b3: int, b4: int, b5: int, b6: int, b7: int, b8: int, b9: int, b10: int, b11: int, b12: int, b13: int, b14: int, b15: int, b16: int, b17: int, b18: int, b19: int, b20: int, b21: int, b22: int, b23: int, b24: int, b25: int, b26: int, b27: int, b28: int, b29: int, b30: int, b31: int)
    requires x3 == Word8(b24, b25, b26, b27, b28, b29, b30, b31)
    requires x2 == Word8(b16, b17, b18, b19, b20, b21, b22, b23) + 0x1_0000_0000_0000_0000 * x3
    requires x1 == Word8(b8, b9, b10, b11, b12, b13, b14, b15) + 0x1_0000_0000_0000_0000 * x2
    requires x0 == Word8(b0, b1, b2, b3, b4, b5, b6, b7) + 0x1_0000_0000_0000_0000 * x1
    ensures x0 == Sum32(b0, b1, b2, b3, b4, b5, b6, b7, b8, b9, b10, b11, b12, b13, b14, b15, b16, b17, b18, b19, b20, b21, b22, b23, b24, b25, b26, b27, b28, b29, b30, b31)
  {
  }

  lemma LE32(s: seq<uint8>)
    requires |s| == 32
    ensures LE(s) ==
            Sum32(s[0] as int, s[1] as int, s[2] as int, s[3] as int, s[4] as int, s[5] as int, s[6] as int, s[7] as int,
                  s[8] as int, s[9] as int, s[10] as int, s[11] as int, s[12] as int, s[13] as int, s[14] as int, s[15] as int,
                  s[16] as int, s[17] as int, s[18] as int, s[19] as int, s[20] as int, s[21] as int, s[22] as int, s[23] as int,
                  s[24] as int, s[25] as int, s[26] as int, s[27] as int, s[28] as int, s[29] as int, s[30] as int, s[31] as int)
  {
    hide *;
    LEEmpty(s);
    LE8(s, 0); LE8(s, 8); LE8(s, 16); LE8(s, 24);
    Sum32FromWords(LEFrom(s, 0), LEFrom(s, 8), LEFrom(s, 16), LEFrom(s, 24),
                s[0] as int, s[1] as int, s[2] as int, s[3] as int, s[4] as int, s[5] as int, s[6] as int, s[7] as int,
                s[8] as int, s[9] as int, s[10] as int, s[11] as int, s[12] as int, s[13] as int, s[14] as int, s[15] as int,
                s[16] as int, s[17] as int, s[18] as int, s[19] as int, s[20] as int, s[21] as int, s[22] as int, s[23] as int,
                s[24] as int, s[25] as int, s[26] as int, s[27] as int, s[28] as int, s[29] as int, s[30] as int, s[31] as int);
  }

  lemma LEEmpty(s: seq<uint8>)
    ensures LEFrom(s, |s|) == 0 && LE(s) == LEFrom(s, 0)
  {
  }

  /** The 32-byte little-endian string of `n`. */
  ghost function ToLE(n: nat, len: nat): (s: seq<uint8>)
    ensures |s| == len
  {
    if len == 0 then [] else [(n % 0x100) as uint8] + ToLE(n / 0x100, len - 1)
  }

  lemma {:induction false} ToLEValue(n: nat, len: nat)
    requires n < Pow2(8 * len)
    ensures LE(ToLE(n, len)) == n
  {
    if len != 0 {
      Pow2Add(8, 8 * (len - 1));
      assert Pow2(8) == 0x100;
      ToLEValue(n / 0x100, len - 1);
      var s := ToLE(n, len);
      assert s[1..] == ToLE(n / 0x100, len - 1);
      LEFromSlice(s, 1, 1);
    }
  }

  /** A 32-byte string that holds `n` is the canonical one. */
  lemma ToLEUnique(s: seq<uint8>)
    ensures s == ToLE(LE(s), |s|)
  {
    LEBound(s, 0);
    ToLEValue(LE(s), |s|);
    LEInjective(s, ToLE(LE(s), |s|));
  }

  /** `lo | ((uint64_t)b << k)` for a byte `b` placed above the bits of `lo`. */
  function Above(lo: nat, b: uint8, k: nat): (r: nat)
    requires lo < Pow2(k)
    ensures r == lo + b as int * Pow2(k)
  {
    OrDisjoint(lo, b as int, k);
    BitOr(lo, b as int * Pow2(k))
  }

  function Load3(s: seq<uint8>, i: nat): (r: uint64)
    requires i + 3 <= |s|
    ensures r as int == s[i] as int + 0x100 * s[i + 1] as int + 0x1_0000 * s[i + 2] as int
  {
    PowersOfTwo();
    Above(Above(s[i] as int, s[i + 1], 8), s[i + 2], 16) as uint64
  }

  function Load4(s: seq<uint8>, i: nat): (r: uint64)
    requires i + 4 <= |s|
    ensures r as int == s[i] as int + 0x100 * s[i + 1] as int + 0x1_0000 * s[i + 2] as int + 0x100_0000 * s[i + 3] as int
  {
    PowersOfTwo();
    Above(Load3(s, i) as int, s[i + 3], 24) as uint64
  }

  function Load6(s: seq<uint8>, i: nat): (r: uint64)
    requires i + 6 <= |s|
    ensures r as int == s[i] as int + 0x100 * s[i + 1] as int + 0x1_0000 * s[i + 2] as int + 0x100_0000 * s[i + 3] as int
                        + 0x1_0000_0000 * s[i + 4] as int + 0x100_0000_0000 * s[i + 5] as int
  {
    PowersOfTwo();
    Above(Above(Load4(s, i) as int, s[i + 4], 32), s[i + 5], 40) as uint64
  }

  function Load7(s: seq<uint8>, i: nat): (r: uint64)
    requires i + 7 <= |s|
    ensures r as int == s[i] as int + 0x100 * s[i + 1] as int + 0x1_0000 * s[i + 2] as int + 0x100_0000 * s[i + 3] as int
                        + 0x1_0000_0000 * s[i + 4] as int + 0x100_0000_0000 * s[i + 5] as int
                        + 0x1_0000_0000_0000 * s[i + 6] as int
  {
    PowersOfTwo();
    Above(Load6(s, i) as int, s[i + 6], 48) as uint64
  }

  /** A string holds 0 exactly when all its bytes are 0. */
  lemma {:induction false} ZeroBytesFrom(s: seq<uint8>, i: nat)
    requires i <= |s|
    ensures LEFrom(s, i) == 0 <==> forall j :: i <= j < |s| ==> s[j] == 0
    decreases |s| - i
  {
    if i < |s| { ZeroBytesFrom(s, i + 1); }
  }

  lemma ZeroBytes(s: seq<uint8>)
    ensures LE(s) == 0 <==> forall j :: 0 <= j < |s| ==> s[j] == 0
  {
    ZeroBytesFrom(s, 0);
  }

  // ---------------------------------------------------------------- bits of byte strings

  /** Bit `t` of `k`. */
  ghost function Bit(k: nat, t: nat): (b: nat)
    ensures b <= 1
  {
    k / Pow2(t) % 2
  }

  /** Bit `pos` of a number is bit `pos & 7` of byte `pos >> 3`. */
  lemma {:induction false} BitOfBytes(s: seq<uint8>, i: nat, pos: nat)
    requires i + pos / 8 < |s|
    ensures Bit(LEFrom(s, i), pos) == Bit(s[i + pos / 8] as int, pos % 8)
    decreases pos
  {
    hide LEFrom, Pow2;
    var b, r := s[i] as int, LEFrom(s, i + 1);
    LEStep(s, i);
    PowersOfTwo();
    if pos < 8 {
      BitOfLowByte(b, r, pos);
    } else {
      BitOfBytes(s, i + 1, pos - 8);
      NestedDiv(b + 0x100 * r, 0x100, Pow2(pos - 8));
      Pow2Add(8, pos - 8);
      assert (pos - 8) / 8 == pos / 8 - 1 && (pos - 8) % 8 == pos % 8;
    }
  }

  lemma BitOfLowByte(b: nat, r: nat, t: nat)
    requires b < 0x100 && t < 8
    ensures Bit(b + 0x100 * r, t) == Bit(b, t)
  {
    hide Pow2;
    PowersOfTwo();
    Pow2Add(t, 8 - t);
    Pow2Add(1, 7 - t);
    var p, w := Pow2(t), Pow2(7 - t);
    EightBits(p, w, r);
    ModUnique(b + 0x100 * r, p, b / p + 2 * (w * r), b % p);
    ParityOfSum(b / p, w * r);
  }

  lemma EightBits(p: nat, w: nat, r: nat)
    requires p * (2 * w) == 0x100
    ensures 0x100 * r == (2 * (w * r)) * p
  {
    assert (p * (2 * w)) * r == (2 * (w * r)) * p;
  }

  lemma ParityOfSum(x: int, y: int)
    ensures (x + 2 * y) % 2 == x % 2
  {
  }

  /** Writes 32 bytes at `s + at`. */
  method Store32(s: array<uint8>, at: nat, bytes: seq<uint8>)
    requires |bytes| == 32 && at + 32 <= s.Length
    modifies s
    ensures s[at..at + 32] == bytes
    ensures s[..at] == old(s[..at]) && s[at + 32..] == old(s[at + 32..])
  {
    forall i | 0 <= i < 32 { s[at + i] := bytes[i]; }
  }
}
