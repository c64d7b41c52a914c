/**
 The X25519 function of section 5 of RFC 7748 on integers modulo p, and the textbook ladder it refines.
 Both radix implementations of the C source are proved against this module.
 */
module Rfc7748 {
  import opened CInts
  import opened Bytes
  import opened Field

  datatype Ladder = Ladder(x2: int, z2: int, x3: int, z3: int)

  ghost function Swapped(s: Ladder, b: nat): Ladder {
    if b == 1 then Ladder(s.x3, s.z3, s.x2, s.z2) else s
  }

  /** One round of the ladder, with the constant a24 = 121665. */
  ghost function Round(x1: int, s: Ladder): Ladder {
    var a := s.x2 + s.z2;
    var aa := a * a;
    var b := s.x2 - s.z2;
    var bb := b * b;
    var e := aa - bb;
    var c := s.x3 + s.z3;
    var d := s.x3 - s.z3;
    var da := d * a;
    var cb := c * b;
    Ladder((aa * bb) % P, (e * (aa + 121665 * e)) % P,
           ((da + cb) * (da + cb)) % P, (x1 * ((da - cb) * (da - cb))) % P)
  }

  /** The rounds for bits n-1 down to 0 with the deferred swaps of the standard. */
  ghost function Deferred(k: nat, x1: int, n: nat, s: Ladder, swap: nat): (Ladder, nat) {
    if n == 0 then (s, swap)
    else
      var b := Bit(k, n - 1);
      Deferred(k, x1, n - 1, Round(x1, Swapped(s, if swap == b then 0 else 1)), b)
  }

  // ---------------------------------------------------------------- the ladder without swaps

  /** A u coordinate as a fraction x/z. */
  datatype Ratio = Ratio(x: int, z: int)

  /** Doubling on v^2 = u^3 + 486662 u^2 + u, on u coordinates alone. */
  ghost function Doubled(q: Ratio): Ratio {
    Ratio(((q.x * q.x - q.z * q.z) * (q.x * q.x - q.z * q.z)) % P,
          (4 * (q.x * q.z) * (q.x * q.x + 486662 * (q.x * q.z) + q.z * q.z)) % P)
  }

  /** Addition of two u coordinates whose points differ by one with u coordinate x1. */
  ghost function DifferentialSum(x1: int, q: Ratio, r: Ratio): Ratio {
    Ratio((4 * ((q.x * r.x - q.z * r.z) * (q.x * r.x - q.z * r.z))) % P,
          (x1 * (4 * ((q.z * r.x - q.x * r.z) * (q.z * r.x - q.x * r.z)))) % P)
  }

  /**
   Montgomery's ladder: from the coordinates of m p and (m+1) p to those of 2m p and (2m+1) p, or of (2m+1) p
   and (2m+2) p, for each of the bits n-1 down to 0 of k.
   */
  ghost function Plain(k: nat, x1: int, n: nat, q: Ratio, r: Ratio): (Ratio, Ratio) {
    if n == 0 then (q, r)
    else if Bit(k, n - 1) == 0 then Plain(k, x1, n - 1, Doubled(q), DifferentialSum(x1, q, r))
    else Plain(k, x1, n - 1, DifferentialSum(x1, q, r), Doubled(r))
  }

  /** One round doubles the first fraction and adds the two, in either order. */
  lemma RoundIsDoubleAndAdd(x1: int, q: Ratio, r: Ratio)
    ensures var t, s := Doubled(q), DifferentialSum(x1, q, r);
            Round(x1, Ladder(q.x, q.z, r.x, r.z)) == Ladder(t.x, t.z, s.x, s.z)
    ensures var t, s := Doubled(r), DifferentialSum(x1, q, r);
            Round(x1, Ladder(r.x, r.z, q.x, q.z)) == Ladder(t.x, t.z, s.x, s.z)
  {
    hide *;
    OneOrder(x1, q, r);
    OneOrder(x1, r, q);
    SumIsSymmetric(x1, q, r);
  }

  lemma SumIsSymmetric(x1: int, q: Ratio, r: Ratio)
    ensures DifferentialSum(x1, q, r) == DifferentialSum(x1, r, q)
  {
    var a, b := q.x * r.x - q.z * r.z, q.z * r.x - q.x * r.z;
    assert r.x * q.x - r.z * q.z == a;
    assert r.z * q.x - r.x * q.z == -b;
    assert -b * -b == b * b;
  }

  lemma OneOrder(x1: int, q: Ratio, r: Ratio)
    ensures var t, s := Doubled(q), DifferentialSum(x1, q, r);
            Round(x1, Ladder(q.x, q.z, r.x, r.z)) == Ladder(t.x, t.z, s.x, s.z)
  {
    var a, b, c, d := q.x + q.z, q.x - q.z, r.x + r.z, r.x - r.z;
    DoublingTerms(q.x, q.z);
    LadderTerms(q.x, q.z, r.x, r.z);
    var f, g := q.x * r.x - q.z * r.z, q.z * r.x - q.x * r.z;
    FourSquares(d * a + c * b, f);
    FourSquares(d * a - c * b, g);
  }

  lemma DoublingTerms(x: int, z: int)
    ensures ((x + z) * (x + z)) * ((x - z) * (x - z)) == (x * x - z * z) * (x * x - z * z)
    ensures var aa, e := (x + z) * (x + z), (x + z) * (x + z) - (x - z) * (x - z);
            e * (aa + 121665 * e) == 4 * (x * z) * (x * x + 486662 * (x * z) + z * z)
  {
    var aa, e := (x + z) * (x + z), (x + z) * (x + z) - (x - z) * (x - z);
    assert (x + z) * (x - z) == x * x - z * z;
    SwapPairs(x + z, x + z, x - z, x - z);
    assert e == 4 * (x * z);
    assert aa + 121665 * e == x * x + 486662 * (x * z) + z * z;
  }

  lemma LadderTerms(x2: int, z2: int, x3: int, z3: int)
    ensures (x3 - z3) * (x2 + z2) + (x3 + z3) * (x2 - z2) == 2 * (x2 * x3 - z2 * z3)
    ensures (x3 - z3) * (x2 + z2) - (x3 + z3) * (x2 - z2) == 2 * (z2 * x3 - x2 * z3)
  {
  }

  lemma FourSquares(s: int, f: int)
    requires s == 2 * f
    ensures s * s == 4 * (f * f)
  {
  }

  /** The deferred swaps only decide which of the two fractions comes first. */
  lemma {:induction false} DeferredIsPlain(k: nat, x1: int, n: nat, s: Ladder, swap: nat, q: Ratio, r: Ratio)
    requires swap <= 1
    requires s == if swap == 1 then Ladder(r.x, r.z, q.x, q.z) else Ladder(q.x, q.z, r.x, r.z)
    ensures var (t, last) := Deferred(k, x1, n, s, swap);
            var (v, w) := Plain(k, x1, n, q, r);
            last <= 1 && t == if last == 1 then Ladder(w.x, w.z, v.x, v.z) else Ladder(v.x, v.z, w.x, w.z)
    decreases n
  {
    if n != 0 {
      hide Round, Doubled, DifferentialSum;
      var b := Bit(k, n - 1);
      RoundIsDoubleAndAdd(x1, q, r);
      var next := Round(x1, Swapped(s, if swap == b then 0 else 1));
      if b == 0 {
        DeferredIsPlain(k, x1, n - 1, next, b, Doubled(q), DifferentialSum(x1, q, r));
      } else {
        DeferredIsPlain(k, x1, n - 1, next, b, DifferentialSum(x1, q, r), Doubled(r));
      }
    }
  }

  /** The swap still pending at the end is the last bit of the scalar. */
  lemma {:induction false} PendingSwap(k: nat, x1: int, n: nat, s: Ladder, swap: nat)
    requires n > 0
    ensures Deferred(k, x1, n, s, swap).1 == k % 2
    decreases n
  {
    hide Round;
    var b := Bit(k, n - 1);
    if n == 1 {
      assert Pow2(0) == 1;
    } else {
      PendingSwap(k, x1, n - 1, Round(x1, Swapped(s, if swap == b then 0 else 1)), b);
    }
  }

  /** decodeScalar25519: clear the low three bits and bit 255, set bit 254. */
  ghost function DecodeScalar(s: seq<uint8>): nat {
    LE(s) % 0x4000_0000_0000_0000_0000_0000_0000_0000_0000_0000_0000_0000_0000_0000_0000_0000 / 8 * 8
    + 0x4000_0000_0000_0000_0000_0000_0000_0000_0000_0000_0000_0000_0000_0000_0000_0000
  }

  /** The scalar in other words: 2^254, and 8 times bits 3 to 253. */
  lemma ScalarFormula(s: seq<uint8>)
    ensures DecodeScalar(s)
      == 0x4000_0000_0000_0000_0000_0000_0000_0000_0000_0000_0000_0000_0000_0000_0000_0000
         + 8 * (LE(s) / 8 % 0x800_0000_0000_0000_0000_0000_0000_0000_0000_0000_0000_0000_0000_0000_0000_0000)
  {
    hide LE;
    var n, h := LE(s), 0x800_0000_0000_0000_0000_0000_0000_0000_0000_0000_0000_0000_0000_0000_0000_0000;
    var q, m := n / (8 * h), n % (8 * h);
    assert n == 8 * h * q + m;
    ModUnique(n, 8, h * q + m / 8, m % 8);
    ModUnique(n / 8, h, q, m / 8);
  }

  /** decodeUCoordinate: the low 255 bits. */
  ghost function DecodeU(s: seq<uint8>): nat {
    LE(s) % 0x8000_0000_0000_0000_0000_0000_0000_0000_0000_0000_0000_0000_0000_0000_0000_0000
  }

  ghost function Start(u: int): Ladder {
    Ladder(1, 0, u, 1)
  }

  /** X25519(k, u) as the standard writes it, for decoded inputs. */
  ghost function X25519(k: nat, u: int): (r: int)
    ensures 0 <= r < P
  {
    var (s, swap) := Deferred(k, u, 255, Start(u), 0);
    var t := Swapped(s, swap);
    (t.x2 * Inv(t.z2)) % P
  }

  /** The ladder without swaps, from 0 p = (1 : 0) and p = (u : 1), computes the same function. */
  lemma X25519IsPlainLadder(k: nat, u: int)
    ensures X25519(k, u) == (var q := Plain(k, u, 255, Ratio(1, 0), Ratio(u, 1)).0; (q.x * Inv(q.z)) % P)
  {
    hide Deferred, Plain, Inv;
    DeferredIsPlain(k, u, 255, Start(u), 0, Ratio(1, 0), Ratio(u, 1));
  }

  /** Bit 255 of the string is ignored, and every number below 2^255 is read back from its string. */
  lemma DecodedU(s: seq<uint8>, u: nat)
    requires |s| == 32 && u < Pow2(255)
    ensures DecodeU(ToLE(u, 32)) == u
    ensures DecodeU(s) == LE(s[..31] + [s[31] % 128])
  {
    hide LE, ToLE, Pow2;
    PowerOf255();
    Pow2Add(255, 1);
    assert Pow2(1) == 2 by { PowersOfTwo(); }
    ToLEValue(u, 32);
    var t := s[..31] + [s[31] % 128];
    assert t[..31] == s[..31];
    LETop(s);
    LETop(t);
    Below255(LE(s[..31]), s[31] as int);
  }

  lemma Below255(a: nat, b: nat)
    requires a < 0x100_0000_0000_0000_0000_0000_0000_0000_0000_0000_0000_0000_0000_0000_0000_0000 && b < 0x100
    ensures (a + 0x100_0000_0000_0000_0000_0000_0000_0000_0000_0000_0000_0000_0000_0000_0000_0000 * b)
            % 0x8000_0000_0000_0000_0000_0000_0000_0000_0000_0000_0000_0000_0000_0000_0000_0000
      == a + 0x100_0000_0000_0000_0000_0000_0000_0000_0000_0000_0000_0000_0000_0000_0000_0000 * (b % 128)
  {
  }

  /** A clamped scalar ends in a 0 bit, so the final swap of the standard does nothing. */
  lemma FinalSwapIsIdle(s: seq<uint8>, u: int)
    ensures Deferred(DecodeScalar(s), u, 255, Start(u), 0).1 == 0
  {
    hide Deferred;
    PendingSwap(DecodeScalar(s), u, 255, Start(u), 0);
  }

  // ---------------------------------------------------------------- the round of the C source

  /** The output, from the state after the last round when no swap is pending. */
  lemma OutputOf(k: nat, u: int, s: Ladder)
    requires Deferred(k, u, 255, Start(u), 0) == (s, 0)
    ensures X25519(k, u) == (s.x2 * Inv(s.z2)) % P
  {
    hide Deferred, Inv;
  }

  /** One round on integers: the C source adds 121666 E to BB where the standard adds 121665 E to AA. */
  lemma RoundValues(x1: int, s: Ladder, x2: int, z2: int, x3: int, z3: int,
                    d: int, b: int, a: int, c: int, da: int, cb: int, bb: int, aa: int, e: int,
                    nx2: int, u: int, uu: int, m: int, nx3: int, nz3: int, nz2: int)
    requires Cong(x2, s.x2) && Cong(z2, s.z2) && Cong(x3, s.x3) && Cong(z3, s.z3)
    requires Cong(d, x3 - z3) && Cong(b, x2 - z2) && a == x2 + z2 && c == x3 + z3
    requires Cong(da, d * a) && Cong(cb, c * b) && Cong(bb, b * b) && Cong(aa, a * a)
    requires Cong(nx2, aa * bb) && Cong(e, aa - bb)
    requires Cong(m, 121666 * e)
    requires Cong(u, da - cb) && Cong(uu, u * u)
    requires Cong(nx3, (da + cb) * (da + cb))
    requires Cong(nz3, x1 * uu)
    requires Cong(nz2, e * (bb + m))
    ensures Cong(nx2, Round(x1, s).x2) && Cong(nz2, Round(x1, s).z2)
    ensures Cong(nx3, Round(x1, s).x3) && Cong(nz3, Round(x1, s).z3)
  {
    hide *;
    DoublingValues(s.x2, s.z2, x2, z2, b, a, bb, aa, e, nx2, m, nz2);
    AdditionValues(x1, s.x2, s.z2, s.x3, s.z3, x2, z2, x3, z3, d, b, a, c, da, cb, u, uu, nx3, nz3);
    RoundResult(x1, s, nx2, nz2, nx3, nz3);
  }

  lemma DoublingValues(sx: int, sz: int, x: int, z: int, b: int, a: int, bb: int, aa: int, e: int, nx: int, m: int, nz: int)
    requires Cong(x, sx) && Cong(z, sz)
    requires Cong(b, x - z) && a == x + z && Cong(bb, b * b) && Cong(aa, a * a)
    requires Cong(nx, aa * bb) && Cong(e, aa - bb) && Cong(m, 121666 * e) && Cong(nz, e * (bb + m))
    ensures var aa', bb' := (sx + sz) * (sx + sz), (sx - sz) * (sx - sz);
      Cong(nx, aa' * bb') && Cong(nz, (aa' - bb') * (aa' + 121665 * (aa' - bb')))
  {
    hide *;
    var a', b' := sx + sz, sx - sz;
    var aa', bb' := a' * a', b' * b';
    CongLinear(x, sx, z, sz);
    CongDifference(b, x, z, sx, sz);
    CongProduct(bb, b, b, b', b');
    CongProduct(aa, a, a, a', a');
    CongProduct(nx, aa, bb, aa', bb');
    CongDifference(e, aa, bb, aa', bb');
    AddScaled(bb, m, e, bb', aa' - bb');
    CongProduct(nz, e, bb + m, aa' - bb', aa' + 121665 * (aa' - bb'));
  }

  lemma AdditionValues(x1: int, sx2: int, sz2: int, sx3: int, sz3: int, x2: int, z2: int, x3: int, z3: int,
                       d: int, b: int, a: int, c: int, da: int, cb: int, u: int, uu: int, nx: int, nz: int)
    requires Cong(x2, sx2) && Cong(z2, sz2) && Cong(x3, sx3) && Cong(z3, sz3)
    requires Cong(d, x3 - z3) && Cong(b, x2 - z2) && a == x2 + z2 && c == x3 + z3
    requires Cong(da, d * a) && Cong(cb, c * b) && Cong(u, da - cb) && Cong(uu, u * u)
    requires Cong(nx, (da + cb) * (da + cb)) && Cong(nz, x1 * uu)
    ensures var da', cb' := (sx3 - sz3) * (sx2 + sz2), (sx3 + sz3) * (sx2 - sz2);
      Cong(nx, (da' + cb') * (da' + cb')) && Cong(nz, x1 * ((da' - cb') * (da' - cb')))
  {
    hide *;
    var a', b', c', d' := sx2 + sz2, sx2 - sz2, sx3 + sz3, sx3 - sz3;
    var da', cb' := d' * a', c' * b';
    CongLinear(x2, sx2, z2, sz2);
    CongLinear(x3, sx3, z3, sz3);
    CongDifference(d, x3, z3, sx3, sz3);
    CongDifference(b, x2, z2, sx2, sz2);
    CongProduct(da, d, a, d', a');
    CongProduct(cb, c, b, c', b');
    CongLinear(da, da', cb, cb');
    CongProduct(nx, da + cb, da + cb, da' + cb', da' + cb');
    CongDifference(u, da, cb, da', cb');
    CongProduct(uu, u, u, da' - cb', da' - cb');
    CongRefl(x1);
    CongProduct(nz, x1, uu, x1, (da' - cb') * (da' - cb'));
  }

  lemma AddScaled(bb: int, m: int, e: int, bb': int, e': int)
    requires Cong(bb, bb') && Cong(m, 121666 * e) && Cong(e, e')
    ensures Cong(bb + m, bb' + e' + 121665 * e')
  {
    CongScale(e, e', 121666);
    CongTrans(m, 121666 * e, 121666 * e');
    CongLinear(bb, bb', m, 121666 * e');
  }

  lemma RoundResult(x1: int, s: Ladder, nx2: int, nz2: int, nx3: int, nz3: int)
    requires var a, b, c, d := s.x2 + s.z2, s.x2 - s.z2, s.x3 + s.z3, s.x3 - s.z3;
      var aa, bb, da, cb := a * a, b * b, d * a, c * b;
      && Cong(nx2, aa * bb) && Cong(nz2, (aa - bb) * (aa + 121665 * (aa - bb)))
      && Cong(nx3, (da + cb) * (da + cb)) && Cong(nz3, x1 * ((da - cb) * (da - cb)))
    ensures Cong(nx2, Round(x1, s).x2) && Cong(nz2, Round(x1, s).z2)
    ensures Cong(nx3, Round(x1, s).x3) && Cong(nz3, Round(x1, s).z3)
  {
    var a, b, c, d := s.x2 + s.z2, s.x2 - s.z2, s.x3 + s.z3, s.x3 - s.z3;
    var aa, bb, da, cb := a * a, b * b, d * a, c * b;
    ReducedCong(nx2, aa * bb);
    ReducedCong(nz2, (aa - bb) * (aa + 121665 * (aa - bb)));
    ReducedCong(nx3, (da + cb) * (da + cb));
    ReducedCong(nz3, x1 * ((da - cb) * (da - cb)));
  }

  lemma ReducedCong(x: int, y: int)
    requires Cong(x, y)
    ensures Cong(x, y % P)
  {
    CongMod(y);
    CongTrans(x, y, y % P);
  }

  /** A round depends on the residue of x1 only. */
  lemma RoundCong(x1: int, u: int, s: Ladder)
    requires Cong(x1, u)
    ensures Round(x1, s) == Round(u, s)
  {
    var da, cb := (s.x3 - s.z3) * (s.x2 + s.z2), (s.x3 + s.z3) * (s.x2 - s.z2);
    var y := (da - cb) * (da - cb);
    CongRefl(y);
    CongMul(x1, u, y, y);
    CongSame(x1 * y, u * y);
  }

  /** The last steps: the inverse of z2 times x2, reduced. */
  lemma Quotient25519(r: int, x2: int, i: int, z2: int, s: Ladder)
    requires Cong(r, x2 * i) && Cong(x2, s.x2) && Cong(i, Pow(z2, P - 2)) && Cong(z2, s.z2)
    ensures r % P == (s.x2 * Inv(s.z2)) % P
  {
    hide Pow, Cong;
    PowCong(z2, s.z2, P - 2);
    CongMod(Pow(s.z2, P - 2));
    CongTrans(i, Pow(z2, P - 2), Pow(s.z2, P - 2));
    CongTrans(i, Pow(s.z2, P - 2), Inv(s.z2));
    CongProduct(r, x2, i, s.x2, Inv(s.z2));
    CongSame(r, s.x2 * Inv(s.z2));
  }

  // ---------------------------------------------------------------- clamping

  /** Clamping the bytes clamps the number. */
  lemma ClampedValue(s: seq<uint8>, e: seq<uint8>)
    requires |s| == |e| == 32
    requires e[0] == s[0] - s[0] % 8
    requires e[31] == s[31] % 64 + 64
    requires forall i :: 1 <= i < 31 ==> e[i] == s[i]
    ensures LE(e) == DecodeScalar(s)
  {
    LEMiddle(s);
    LEMiddle(e);
    assert s[1..31] == e[1..31];
    ClampedNumber(LE(s), s[0] as int, LE(s[1..31]), s[31] as int, LE(e));
  }

  lemma ClampedNumber(n: nat, a: nat, m: nat, b: nat, k: nat)
    requires a < 0x100 && b < 0x100 && m < 0x1_0000_0000_0000_0000_0000_0000_0000_0000_0000_0000_0000_0000_0000_0000_0000
    requires n == a + 0x100 * m + 0x100_0000_0000_0000_0000_0000_0000_0000_0000_0000_0000_0000_0000_0000_0000_0000 * b
    requires k == a - a % 8 + 0x100 * m
                  + 0x100_0000_0000_0000_0000_0000_0000_0000_0000_0000_0000_0000_0000_0000_0000_0000 * (b % 64 + 64)
    ensures k == n % 0x4000_0000_0000_0000_0000_0000_0000_0000_0000_0000_0000_0000_0000_0000_0000_0000 / 8 * 8
                 + 0x4000_0000_0000_0000_0000_0000_0000_0000_0000_0000_0000_0000_0000_0000_0000_0000
  {
    var low := a + 0x100 * m + 0x100_0000_0000_0000_0000_0000_0000_0000_0000_0000_0000_0000_0000_0000_0000_0000 * (b % 64);
    BelowBit254(a, m, b % 64);
    RemainderOf(n, low, b / 64);
    ClearLowBits(a, 0x20 * m + 0x20_0000_0000_0000_0000_0000_0000_0000_0000_0000_0000_0000_0000_0000_0000_0000 * (b % 64));
  }

  lemma BelowBit254(a: nat, m: nat, c: nat)
    requires a < 0x100 && c < 64 && m < 0x1_0000_0000_0000_0000_0000_0000_0000_0000_0000_0000_0000_0000_0000_0000_0000
    ensures a + 0x100 * m + 0x100_0000_0000_0000_0000_0000_0000_0000_0000_0000_0000_0000_0000_0000_0000_0000 * c
      < 0x4000_0000_0000_0000_0000_0000_0000_0000_0000_0000_0000_0000_0000_0000_0000_0000
  {
  }

  lemma RemainderOf(n: nat, low: nat, q: nat)
    requires n == low + 0x4000_0000_0000_0000_0000_0000_0000_0000_0000_0000_0000_0000_0000_0000_0000_0000 * q
    requires low < 0x4000_0000_0000_0000_0000_0000_0000_0000_0000_0000_0000_0000_0000_0000_0000_0000
    ensures n % 0x4000_0000_0000_0000_0000_0000_0000_0000_0000_0000_0000_0000_0000_0000_0000_0000 == low
  {
  }

  lemma ClearLowBits(a: nat, r: nat)
    ensures (a + 8 * r) / 8 * 8 == a - a % 8 + 8 * r
  {
  }

  /** First byte, thirty middle bytes, last byte. */
  lemma LEMiddle(s: seq<uint8>)
    requires |s| == 32
    ensures LE(s) == s[0] as int + 0x100 * LE(s[1..31])
                     + 0x100_0000_0000_0000_0000_0000_0000_0000_0000_0000_0000_0000_0000_0000_0000_0000 * s[31] as int
    ensures LE(s[1..31]) < 0x1_0000_0000_0000_0000_0000_0000_0000_0000_0000_0000_0000_0000_0000_0000_0000
  {
    hide LEFrom, Pow2;
    LEStep(s, 0);
    LESplit(s, 1, 31);
    LEStep(s, 31);
    LEEmpty(s);
    LEFromSlice(s[..31], 1, 1);
    assert s[..31][1..] == s[1..31];
    LEBound(s[1..31], 0);
    PowersOfTwo();
    Pow2Add(40, 40);
    Pow2Add(80, 80);
    Pow2Add(160, 80);
  }

  /** `1 & (e[pos / 8] >> (pos & 7))` is bit `pos` of the scalar. */
  method ScalarBit(e: array<uint8>, pos: nat) returns (b: nat)
    requires e.Length == 32 && pos < 255
    ensures b == Bit(LE(e[..]), pos) && b <= 1
  {
    BitOfBytes(e[..], 0, pos);
    b := e[pos / 8] as nat / Pow2(pos % 8) % 2;
  }

  /** `memcpy(e, scalar, 32)` and the clamping of the copy. */
  method Clamp(scalar: seq<uint8>) returns (e: array<uint8>)
    requires |scalar| == 32
    ensures fresh(e) && e.Length == 32 && LE(e[..]) == DecodeScalar(scalar)
    ensures e[0] == scalar[0] - scalar[0] % 8 && e[31] == scalar[31] % 64 + 64 && e[1..31] == scalar[1..31]
  {
    hide LE, DecodeScalar, BitOr;
    e := new uint8[32](i requires 0 <= i < 32 => scalar[i]);
    e[0] := e[0] - e[0] % 8;
    e[31] := e[31] % 0x80;
    SetBit254(e[31]);
    e[31] := BitOr(e[31] as nat, 0x40) as uint8;
    ClampedValue(scalar, e[..]);
  }

  lemma SetBit254(x: uint8)
    requires x < 0x80
    ensures BitOr(x as nat, 0x40) == (x % 64 + 64) as nat
  {
    hide BitOr;
    PowersOfTwo();
    OrOneBit(x as nat, 6);
  }
}
