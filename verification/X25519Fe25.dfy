/** X25519 in radix 2^25.5, the build without 128-bit integers: the same ladder on ten signed limbs. */
module X25519Fe25 {
  import opened CInts
  import opened Bytes
  import opened Field
  import opened Rfc7748
  import opened Fe25
  import opened Fe25Bytes
  import Fe25Chains

  /** The four limb vectors represent the state of the standard's ladder. */
  ghost predicate Simulates(x2: seq<int32>, z2: seq<int32>, x3: seq<int32>, z3: seq<int32>, s: Ladder) {
    && Limit(x2, 110) && Limit(z2, 110) && Limit(x3, 110) && Limit(z3, 110)
    && Cong(Val(x2), s.x2) && Cong(Val(z2), s.z2) && Cong(Val(x3), s.x3) && Cong(Val(z3), s.z3)
  }

  /**
   First part of a round: the sums and differences, the two cross products and the two squares.
   The ghost parameters name the values on entry.
   */
  method CrossProducts(x2: array<int32>, z2: array<int32>, x3: array<int32>, z3: array<int32>,
                       tmp0: array<int32>, tmp1: array<int32>,
                       ghost vx2: int, ghost vz2: int, ghost vx3: int, ghost vz3: int)
    returns (ghost d: int, ghost b: int, ghost a: int, ghost c: int)
    requires x2.Length == z2.Length == x3.Length == z3.Length == tmp0.Length == tmp1.Length == 10
    requires Distinct(x2, z2, x3, z3, tmp0, tmp1)
    requires Limit(x2[..], 110) && Limit(z2[..], 110) && Limit(x3[..], 110) && Limit(z3[..], 110)
    requires Val(x2[..]) == vx2 && Val(z2[..]) == vz2 && Val(x3[..]) == vx3 && Val(z3[..]) == vz3
    modifies x2, z2, z3, tmp0, tmp1
    ensures Limit(z2[..], 110) && Limit(z3[..], 110) && Limit(tmp0[..], 110) && Limit(tmp1[..], 110)
    ensures Cong(d, vx3 - vz3) && Cong(b, vx2 - vz2) && a == vx2 + vz2 && c == vx3 + vz3
    ensures Cong(Val(z3[..]), d * a) && Cong(Val(z2[..]), c * b)
    ensures Cong(Val(tmp0[..]), b * b) && Cong(Val(tmp1[..]), a * a)
  {
    hide V10, Cong, Val, Limit;
    Wider();
    Sub(tmp0, x3, z3, 110, 110);
    d := Val(tmp0[..]);
    Sub(tmp1, x2, z2, 110, 110);
    b := Val(tmp1[..]);
    Add(x2, x2, z2, 110, 110);
    a := Val(x2[..]);
    Add(z2, x3, z3, 110, 110);
    c := Val(z2[..]);
    Mul(z3, tmp0[..], x2[..]);
    Mul(z2, z2[..], tmp1[..]);
    Sq(tmp0, tmp1[..]);
    Sq(tmp1, x2[..]);
    CongRefl(d);
    CongRefl(b);
  }

  /** From DA in z3, CB in z2, BB in tmp0 and AA in tmp1: DA + CB, (DA - CB)^2, AA BB and E. */
  method Combine(x2: array<int32>, z2: array<int32>, x3: array<int32>, z3: array<int32>,
                 tmp0: array<int32>, tmp1: array<int32>, ghost da: int, ghost cb: int, ghost bb: int, ghost aa: int)
    returns (ghost u: int, ghost e: int, ghost uu: int)
    requires x2.Length == z2.Length == x3.Length == z3.Length == tmp0.Length == tmp1.Length == 10
    requires Distinct(x2, z2, x3, z3, tmp0, tmp1)
    requires Limit(z2[..], 110) && Limit(z3[..], 110) && Limit(tmp0[..], 110) && Limit(tmp1[..], 110)
    requires Val(z3[..]) == da && Val(z2[..]) == cb && Val(tmp0[..]) == bb && Val(tmp1[..]) == aa
    modifies x2, z2, x3, tmp1
    ensures Limit(x2[..], 110) && Limit(z2[..], 110)
    ensures Limit(x3[..], 220) && Limit(tmp1[..], 220)
    ensures Cong(e, aa - bb) && Cong(u, da - cb) && Cong(uu, u * u) && Cong(Val(x2[..]), aa * bb)
    ensures Val(tmp1[..]) == e && Val(z2[..]) == uu && Val(x3[..]) == da + cb
  {
    hide V10, Cong, Val, Limit;
    Wider();
    Add(x3, z3, z2, 110, 110);
    Sub(z2, z3, z2, 110, 110);
    u := Val(z2[..]);
    Mul(x2, tmp1[..], tmp0[..]);
    Sub(tmp1, tmp1, tmp0, 110, 110);
    e := Val(tmp1[..]);
    Sq(z2, z2[..]);
    uu := Val(z2[..]);
    CongRefl(e);
    CongRefl(u);
  }

  /** The last products, from E in tmp1, (DA - CB)^2 in z2 and DA + CB in x3. */
  method Finish(x1: seq<int32>, z2: array<int32>, x3: array<int32>, z3: array<int32>,
                tmp0: array<int32>, tmp1: array<int32>, ghost v1: int, ghost e: int, ghost uu: int, ghost bb: int, ghost x: int)
    returns (ghost m: int)
    requires Limit(x1, 110) && Val(x1) == v1
    requires z2.Length == x3.Length == z3.Length == tmp0.Length == tmp1.Length == 10
    requires z2 != x3 && z2 != z3 && z2 != tmp0 && z2 != tmp1 && x3 != z3 && x3 != tmp0 && x3 != tmp1
    requires z3 != tmp0 && z3 != tmp1 && tmp0 != tmp1
    requires Limit(z2[..], 110) && Limit(tmp0[..], 110)
    requires Limit(x3[..], 220) && Limit(tmp1[..], 220)
    requires Val(tmp1[..]) == e && Val(z2[..]) == uu && Val(tmp0[..]) == bb && Val(x3[..]) == x
    modifies z2, x3, z3, tmp0
    ensures Limit(z2[..], 110) && Limit(x3[..], 110) && Limit(z3[..], 110)
    ensures Cong(m, 121666 * e) && Cong(Val(x3[..]), x * x)
    ensures Cong(Val(z3[..]), v1 * uu) && Cong(Val(z2[..]), e * (bb + m))
  {
    hide V10, Cong, Val, Limit;
    Wider();
    Mul121666(z3, tmp1[..]);
    m := Val(z3[..]);
    Sq(x3, x3[..]);
    Add(tmp0, tmp0, z3, 110, 110);
    Mul(z3, x1, z2[..]);
    Mul(z2, tmp1[..], tmp0[..]);
  }

  /** The body of the loop: one round on limbs simulates one round of the standard. */
  method LadderRound(x1: seq<int32>, x2: array<int32>, z2: array<int32>, x3: array<int32>, z3: array<int32>,
                     tmp0: array<int32>, tmp1: array<int32>, ghost s: Ladder)
    requires Limit(x1, 110)
    requires x2.Length == z2.Length == x3.Length == z3.Length == tmp0.Length == tmp1.Length == 10
    requires Distinct(x2, z2, x3, z3, tmp0, tmp1)
    requires Simulates(x2[..], z2[..], x3[..], z3[..], s)
    modifies x2, z2, x3, z3, tmp0, tmp1
    ensures Simulates(x2[..], z2[..], x3[..], z3[..], Round(Val(x1), s))
  {
    hide V10;
    ghost var v1 := Val(x1);
    hide Cong, Val, Limit, Round;
    ghost var vx2, vz2, vx3, vz3 := Val(x2[..]), Val(z2[..]), Val(x3[..]), Val(z3[..]);
    ghost var d, b, a, c := CrossProducts(x2, z2, x3, z3, tmp0, tmp1, vx2, vz2, vx3, vz3);
    ghost var da, cb, bb, aa := Val(z3[..]), Val(z2[..]), Val(tmp0[..]), Val(tmp1[..]);
    ghost var u, e, uu := Combine(x2, z2, x3, z3, tmp0, tmp1, da, cb, bb, aa);
    ghost var m := Finish(x1, z2, x3, z3, tmp0, tmp1, v1, e, uu, bb, da + cb);
    RoundValues(v1, s, vx2, vz2, vx3, vz3, d, b, a, c, da, cb, bb, aa, e,
                Val(x2[..]), u, uu, m, Val(x3[..]), Val(z3[..]), Val(z2[..]));
  }

  /** The two conditional swaps of a round. */
  method SwapBoth(x2: array<int32>, z2: array<int32>, x3: array<int32>, z3: array<int32>, swap: nat, ghost s: Ladder)
    requires x2.Length == z2.Length == x3.Length == z3.Length == 10 && swap <= 1
    requires x2 != z2 && x2 != x3 && x2 != z3 && z2 != x3 && z2 != z3 && x3 != z3
    requires Simulates(x2[..], z2[..], x3[..], z3[..], s)
    modifies x2, z2, x3, z3
    ensures Simulates(x2[..], z2[..], x3[..], z3[..], Swapped(s, swap))
  {
    hide V10, Limit, Cong, Val;
    CSwap(x2, x3, swap);
    CSwap(z2, z3, swap);
  }

  /** The loop: 255 rounds with deferred swaps, from bit 254 down to bit 0. */
  method Rounds(e: array<uint8>, x1: seq<int32>, x2: array<int32>, z2: array<int32>, x3: array<int32>, z3: array<int32>,
                ghost k: nat, ghost u: int)
    returns (ghost s: Ladder, ghost last: nat)
    requires e.Length == 32 && LE(e[..]) == k && Limit(x1, 110) && Cong(Val(x1), u)
    requires x2.Length == z2.Length == x3.Length == z3.Length == 10
    requires x2 != z2 && x2 != x3 && x2 != z3 && z2 != x3 && z2 != z3 && x3 != z3
    requires Simulates(x2[..], z2[..], x3[..], z3[..], Start(u))
    modifies x2, z2, x3, z3
    ensures Simulates(x2[..], z2[..], x3[..], z3[..], s)
    ensures (s, last) == Deferred(k, u, 255, Start(u), 0)
    ensures var (q, r) := Plain(k, u, 255, Ratio(1, 0), Ratio(u, 1));
            s == if last == 1 then Ladder(r.x, r.z, q.x, q.z) else Ladder(q.x, q.z, r.x, r.z)
  {
    hide V10;
    ghost var v1 := Val(x1);
    hide Round, Limit, Val, BitXor, Simulates, LE, Cong;
    var tmp0, tmp1 := new int32[10], new int32[10];
    var swap := 0;
    s := Start(u);
    for pos := 255 downto 0
      invariant swap <= 1 && LE(e[..]) == k
      invariant Simulates(x2[..], z2[..], x3[..], z3[..], s)
      invariant Deferred(k, u, 255, Start(u), 0) == Deferred(k, u, pos, s, swap)
    {
      var b := ScalarBit(e, pos);
      XorOfBits(swap, b);
      swap := BitXor(swap, b);
      SwapBoth(x2, z2, x3, z3, swap, s);
      s := Swapped(s, swap);
      swap := b;
      LadderRound(x1, x2, z2, x3, z3, tmp0, tmp1, s);
      RoundCong(v1, u, s);
      s := Round(u, s);
    }
    last := swap;
    DeferredIsPlain(k, u, 255, Start(u), 0, Ratio(1, 0), Ratio(u, 1));
  }

  /** The inversion, the last multiplication and the encoding. */
  method Output(out: array<uint8>, x2: array<int32>, z2: array<int32>, ghost s: Ladder)
    requires out.Length == 32 && x2.Length == z2.Length == 10 && x2 != z2
    requires Limit(x2[..], 110) && Limit(z2[..], 110) && Cong(Val(x2[..]), s.x2) && Cong(Val(z2[..]), s.z2)
    modifies out, x2, z2
    ensures out[..] == ToLE((s.x2 * Inv(s.z2)) % P, 32)
  {
    hide V10;
    ghost var vx2, vz2 := Val(x2[..]), Val(z2[..]);
    hide Val, Limit, Cong;
    Wider();
    Fe25Chains.Invert(z2, z2[..]);
    ghost var vi := Val(z2[..]);
    Mul(x2, x2[..], z2[..]);
    Quotient25519(Val(x2[..]), vx2, vi, vz2, s);
    ToBytes(out, x2[..]);
    assert out[..] == out[..32];
  }

  /** The state before the first round. */
  method Begin(x1: array<int32>, x2: array<int32>, z2: array<int32>, x3: array<int32>, z3: array<int32>, point: seq<uint8>)
    requires x1.Length == x2.Length == z2.Length == x3.Length == z3.Length == 10 && |point| == 32
    requires x1 != x2 && x1 != z2 && x1 != x3 && x1 != z3 && x2 != z2 && x2 != x3 && x2 != z3 && z2 != x3 && z2 != z3 && x3 != z3
    modifies x1, x2, z2, x3, z3
    ensures Limit(x1[..], 110) && Cong(Val(x1[..]), DecodeU(point))
    ensures Simulates(x2[..], z2[..], x3[..], z3[..], Start(DecodeU(point)))
  {
    ghost var u := DecodeU(point);
    assert u == LE(point) % 0x8000_0000_0000_0000_0000_0000_0000_0000_0000_0000_0000_0000_0000_0000_0000_0000;
    hide Val, Limit, Cong, DecodeU;
    FromBytes(x1, point);
    CongRefl(1);
    CongRefl(0);
    CongRefl(u);
    SetSmall(x2, 1);
    SetSmall(z2, 0);
    Copy(x3, x1);
    SetSmall(z3, 1);
    LimitMonotone(x2[..], 1, 110);
    LimitMonotone(z2[..], 1, 110);
    LimitMonotone(z3[..], 1, 110);
  }

  /**
   The whole function: 255 rounds with deferred swaps and no final swap, the inversion, one multiplication
   and the encoding produce the 32 bytes of X25519.
   */
  method ScalarMult(out: array<uint8>, scalar: seq<uint8>, point: seq<uint8>)
    requires out.Length == 32 && |scalar| == 32 && |point| == 32
    modifies out
    ensures out[..] == ToLE(X25519(DecodeScalar(scalar), DecodeU(point)), 32)
  {
    hide Val, Limit, Cong, Simulates, DecodeScalar, DecodeU, Deferred, X25519, LE, ToLE, Inv;
    var e := Clamp(scalar);
    var x1, x2, z2, x3, z3 := new int32[10], new int32[10], new int32[10], new int32[10], new int32[10];
    ghost var k, u := DecodeScalar(scalar), DecodeU(point);
    Begin(x1, x2, z2, x3, z3, point);
    ghost var s, last := Rounds(e, x1[..], x2, z2, x3, z3, k, u);
    FinalSwapIsIdle(scalar, u);
    OutputOf(k, u, s);
    SimulatedOutput(x2[..], z2[..], x3[..], z3[..], s);
    Output(out, x2, z2, s);
  }

  lemma SimulatedOutput(x2: seq<int32>, z2: seq<int32>, x3: seq<int32>, z3: seq<int32>, s: Ladder)
    requires Simulates(x2, z2, x3, z3, s)
    ensures Limit(x2, 110) && Limit(z2, 110) && Cong(Val(x2), s.x2) && Cong(Val(z2), s.z2)
  {
  }

  /** The bounds of results imply the bounds asked of operands. */
  lemma Wider()
    ensures forall h {:trigger Limit(h, REDUCED)} :: Limit(h, REDUCED) ==> Limit(h, 110) && Limit(h, 220) && Limit(h, PRODUCT)
    ensures forall h {:trigger Limit(h, 110)} :: Limit(h, 110) ==> Limit(h, 220) && Limit(h, PRODUCT)
    ensures forall h {:trigger Limit(h, 220)} :: Limit(h, 220) ==> Limit(h, PRODUCT)
  {
    forall h, c: int, d: int {:trigger Limit(h, c), Limit(h, d)} | Limit(h, c) && c <= d ensures Limit(h, d) {
      LimitMonotone(h, c, d);
    }
  }

  ghost predicate Distinct(a: object, b: object, c: object, d: object, e: object, f: object) {
    && a != b && a != c && a != d && a != e && a != f && b != c && b != d && b != e && b != f
    && c != d && c != e && c != f && d != e && d != f && e != f
  }
}
