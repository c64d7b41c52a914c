/** X25519 in radix 2^51: the Montgomery ladder, its final inversion and the shared-secret entry point. */
module X25519Fe51 {
  import opened CInts
  import opened Bytes
  import opened Field
  import opened Rfc7748
  import opened Fe51
  import Fe51Invert

  /** The four limb vectors represent the state of the standard's ladder. */
  ghost predicate Simulates(x2: seq<uint64>, z2: seq<uint64>, x3: seq<uint64>, z3: seq<uint64>, s: Ladder) {
    && Reduced(x2) && Reduced(z2) && Reduced(x3) && Reduced(z3)
    && Cong(Val(x2), s.x2) && Cong(Val(z2), s.z2) && Cong(Val(x3), s.x3) && Cong(Val(z3), s.z3)
  }

  /**
   First part of a round: the sums and differences, the two cross products and the two squares.
   The ghost parameters name the values on entry.
   */
  method CrossProducts(x2: array<uint64>, z2: array<uint64>, x3: array<uint64>, z3: array<uint64>,
                       tmp0: array<uint64>, tmp1: array<uint64>,
                       ghost vx2: int, ghost vz2: int, ghost vx3: int, ghost vz3: int)
    returns (ghost d: int, ghost b: int, ghost a: int, ghost c: int)
    requires x2.Length == z2.Length == x3.Length == z3.Length == tmp0.Length == tmp1.Length == 5
    requires Distinct(x2, z2, x3, z3, tmp0, tmp1)
    requires Reduced(x2[..]) && Reduced(z2[..]) && Reduced(x3[..]) && Reduced(z3[..])
    requires Val(x2[..]) == vx2 && Val(z2[..]) == vz2 && Val(x3[..]) == vx3 && Val(z3[..]) == vz3
    modifies x2, z2, z3, tmp0, tmp1
    ensures Reduced(z2[..]) && Reduced(z3[..]) && Reduced(tmp0[..]) && Reduced(tmp1[..])
    ensures Cong(d, vx3 - vz3) && Cong(b, vx2 - vz2) && a == vx2 + vz2 && c == vx3 + vz3
    ensures Cong(Val(z3[..]), d * a) && Cong(Val(z2[..]), c * b)
    ensures Cong(Val(tmp0[..]), b * b) && Cong(Val(tmp1[..]), a * a)
  {
    hide Cong, Val, Reduced, Below;
    Slack();
    Sub(tmp0, x3, z3);
    d := Val(tmp0[..]);
    Sub(tmp1, x2, z2);
    b := Val(tmp1[..]);
    Add(x2, x2, z2);
    a := Val(x2[..]);
    Add(z2, x3, z3);
    c := Val(z2[..]);
    Mul(z3, tmp0[..], x2[..]);
    Mul(z2, z2[..], tmp1[..]);
    Sq(tmp0, tmp1[..]);
    Sq(tmp1, x2[..]);
    Modulus(d, vx3 - vz3);
    Modulus(b, vx2 - vz2);
  }

  /** From DA in z3, CB in z2, BB in tmp0 and AA in tmp1: DA + CB, (DA - CB)^2, AA BB and E. */
  method Combine(x2: array<uint64>, z2: array<uint64>, x3: array<uint64>, z3: array<uint64>,
                 tmp0: array<uint64>, tmp1: array<uint64>, ghost da: int, ghost cb: int, ghost bb: int, ghost aa: int)
    returns (ghost u: int, ghost e: int, ghost uu: int)
    requires x2.Length == z2.Length == x3.Length == z3.Length == tmp0.Length == tmp1.Length == 5
    requires Distinct(x2, z2, x3, z3, tmp0, tmp1)
    requires Reduced(z2[..]) && Reduced(z3[..]) && Reduced(tmp0[..]) && Reduced(tmp1[..])
    requires Val(z3[..]) == da && Val(z2[..]) == cb && Val(tmp0[..]) == bb && Val(tmp1[..]) == aa
    modifies x2, z2, x3, tmp1
    ensures Reduced(x2[..]) && Reduced(z2[..])
    ensures Below(x3[..], 0x40_0000_0000_0000) && Below(tmp1[..], 0x20_0000_0000_0000)
    ensures Cong(e, aa - bb) && Cong(u, da - cb) && Cong(uu, u * u) && Cong(Val(x2[..]), aa * bb)
    ensures Val(tmp1[..]) == e && Val(z2[..]) == uu && Val(x3[..]) == da + cb
  {
    hide Cong, Val, Reduced, Below;
    Slack();
    Add(x3, z3, z2);
    Sub(z2, z3, z2);
    u := Val(z2[..]);
    Mul(x2, tmp1[..], tmp0[..]);
    Sub(tmp1, tmp1, tmp0);
    e := Val(tmp1[..]);
    Sq(z2, z2[..]);
    uu := Val(z2[..]);
    Modulus(e, aa - bb);
    Modulus(u, da - cb);
  }

  /** The last products, from E in tmp1, (DA - CB)^2 in z2 and DA + CB in x3. */
  method Finish(x1: seq<uint64>, z2: array<uint64>, x3: array<uint64>, z3: array<uint64>,
                tmp0: array<uint64>, tmp1: array<uint64>, ghost v1: int, ghost e: int, ghost uu: int, ghost bb: int, ghost x: int)
    returns (ghost m: int)
    requires Reduced(x1) && Val(x1) == v1
    requires z2.Length == x3.Length == z3.Length == tmp0.Length == tmp1.Length == 5
    requires z2 != x3 && z2 != z3 && z2 != tmp0 && z2 != tmp1 && x3 != z3 && x3 != tmp0 && x3 != tmp1
    requires z3 != tmp0 && z3 != tmp1 && tmp0 != tmp1
    requires Reduced(z2[..]) && Reduced(tmp0[..])
    requires Below(x3[..], 0x40_0000_0000_0000) && Below(tmp1[..], 0x20_0000_0000_0000)
    requires Val(tmp1[..]) == e && Val(z2[..]) == uu && Val(tmp0[..]) == bb && Val(x3[..]) == x
    modifies z2, x3, z3, tmp0
    ensures Reduced(z2[..]) && Reduced(x3[..]) && Reduced(z3[..])
    ensures Cong(m, 121666 * e) && Cong(Val(x3[..]), x * x)
    ensures Cong(Val(z3[..]), v1 * uu) && Cong(Val(z2[..]), e * (bb + m))
  {
    hide Cong, Val, Reduced, Below;
    Slack();
    Mul121666(z3, tmp1[..]);
    m := Val(z3[..]);
    Sq(x3, x3[..]);
    Add(tmp0, tmp0, z3);
    Mul(z3, x1, z2[..]);
    Mul(z2, tmp1[..], tmp0[..]);
  }

  /** The body of the loop: one round on limbs simulates one round of the standard. */
  method LadderRound(x1: seq<uint64>, x2: array<uint64>, z2: array<uint64>, x3: array<uint64>, z3: array<uint64>,
                     tmp0: array<uint64>, tmp1: array<uint64>, ghost s: Ladder)
    requires Reduced(x1)
    requires x2.Length == z2.Length == x3.Length == z3.Length == tmp0.Length == tmp1.Length == 5
    requires Distinct(x2, z2, x3, z3, tmp0, tmp1)
    requires Simulates(x2[..], z2[..], x3[..], z3[..], s)
    modifies x2, z2, x3, z3, tmp0, tmp1
    ensures Simulates(x2[..], z2[..], x3[..], z3[..], Round(Val(x1), s))
  {
    ghost var v1 := Val(x1);
    hide Cong, Val, Reduced, Round;
    ghost var vx2, vz2, vx3, vz3 := Val(x2[..]), Val(z2[..]), Val(x3[..]), Val(z3[..]);
    ghost var d, b, a, c := CrossProducts(x2, z2, x3, z3, tmp0, tmp1, vx2, vz2, vx3, vz3);
    ghost var da, cb, bb, aa := Val(z3[..]), Val(z2[..]), Val(tmp0[..]), Val(tmp1[..]);
    ghost var u, e, uu := Combine(x2, z2, x3, z3, tmp0, tmp1, da, cb, bb, aa);
    ghost var m := Finish(x1, z2, x3, z3, tmp0, tmp1, v1, e, uu, bb, da + cb);
    RoundValues(v1, s, vx2, vz2, vx3, vz3, d, b, a, c, da, cb, bb, aa, e,
                Val(x2[..]), u, uu, m, Val(x3[..]), Val(z3[..]), Val(z2[..]));
  }

  /** The two conditional swaps of a round. */
  method SwapBoth(x2: array<uint64>, z2: array<uint64>, x3: array<uint64>, z3: array<uint64>, swap: nat, ghost s: Ladder)
    requires x2.Length == z2.Length == x3.Length == z3.Length == 5 && swap <= 1
    requires x2 != z2 && x2 != x3 && x2 != z3 && z2 != x3 && z2 != z3 && x3 != z3
    requires Simulates(x2[..], z2[..], x3[..], z3[..], s)
    modifies x2, z2, x3, z3
    ensures Simulates(x2[..], z2[..], x3[..], z3[..], Swapped(s, swap))
  {
    hide Reduced, Cong, Val;
    CSwap(x2, x3, swap);
    CSwap(z2, z3, swap);
  }

  /** The loop: 255 rounds with deferred swaps, from bit 254 down to bit 0. */
  method Rounds(e: array<uint8>, x1: seq<uint64>, x2: array<uint64>, z2: array<uint64>, x3: array<uint64>, z3: array<uint64>,
                ghost k: nat, ghost u: int)
    returns (ghost s: Ladder, ghost last: nat)
    requires e.Length == 32 && LE(e[..]) == k && Reduced(x1) && Val(x1) == u
    requires x2.Length == z2.Length == x3.Length == z3.Length == 5
    requires x2 != z2 && x2 != x3 && x2 != z3 && z2 != x3 && z2 != z3 && x3 != z3
    requires Simulates(x2[..], z2[..], x3[..], z3[..], Start(u))
    modifies x2, z2, x3, z3
    ensures Simulates(x2[..], z2[..], x3[..], z3[..], s)
    ensures (s, last) == Deferred(k, u, 255, Start(u), 0)
    ensures var (q, r) := Plain(k, u, 255, Ratio(1, 0), Ratio(u, 1));
            s == if last == 1 then Ladder(r.x, r.z, q.x, q.z) else Ladder(q.x, q.z, r.x, r.z)
  {
    hide Round, Reduced, Val, BitXor, Simulates, LE;
    var tmp0, tmp1 := new uint64[5], new uint64[5];
    var swap := 0;
    s := Start(u);
    for pos := 255 downto 0
      invariant swap <= 1 && LE(e[..]) == k
      invariant Simulates(x2[..], z2[..], x3[..], z3[..], s)
      invariant Deferred(k, u, 255, Start(u), 0) == Deferred(k, u, pos, s, swap)
    {
      var b := ScalarBit(e, pos);
      XorOfBits(swap, b);
      swap := BitXor(swap, b);
      SwapBoth(x2, z2, x3, z3, swap, s);
      s := Swapped(s, swap);
      swap := b;
      LadderRound(x1, x2, z2, x3, z3, tmp0, tmp1, s);
      s := Round(u, s);
    }
    last := swap;
    DeferredIsPlain(k, u, 255, Start(u), 0, Ratio(1, 0), Ratio(u, 1));
  }

  /** The inversion, the last multiplication and the encoding. */
  method Output(out: array<uint8>, x2: array<uint64>, z2: array<uint64>, ghost s: Ladder)
    requires out.Length == 32 && x2.Length == z2.Length == 5 && x2 != z2
    requires Reduced(x2[..]) && Reduced(z2[..]) && Cong(Val(x2[..]), s.x2) && Cong(Val(z2[..]), s.z2)
    modifies out, x2, z2
    ensures out[..] == ToLE((s.x2 * Inv(s.z2)) % P, 32)
  {
    ghost var vx2, vz2 := Val(x2[..]), Val(z2[..]);
    hide Val, Reduced, Cong;
    Slack();
    Fe51Invert.Invert(z2, z2[..]);
    ghost var vi := Val(z2[..]);
    Mul(x2, x2[..], z2[..]);
    Quotient25519(Val(x2[..]), vx2, vi, vz2, s);
    ReducedValue(x2[..]);
    ToBytes(out, x2[..]);
    assert out[..] == out[..32];
  }

  /** The state before the first round. */
  method Begin(x1: array<uint64>, x2: array<uint64>, z2: array<uint64>, x3: array<uint64>, z3: array<uint64>, point: seq<uint8>)
    requires x1.Length == x2.Length == z2.Length == x3.Length == z3.Length == 5 && |point| == 32
    requires x1 != x2 && x1 != z2 && x1 != x3 && x1 != z3 && x2 != z2 && x2 != x3 && x2 != z3 && z2 != x3 && z2 != z3 && x3 != z3
    modifies x1, x2, z2, x3, z3
    ensures Reduced(x1[..]) && Val(x1[..]) == DecodeU(point)
    ensures Simulates(x2[..], z2[..], x3[..], z3[..], Start(DecodeU(point)))
  {
    ghost var u := DecodeU(point);
    assert u == LE(point) % 0x8000_0000_0000_0000_0000_0000_0000_0000_0000_0000_0000_0000_0000_0000_0000_0000;
    hide Val, Reduced, Below, Cong, DecodeU;
    FromBytes(x1, point);
    CongRefl(1);
    CongRefl(0);
    CongRefl(u);
    SetSmall(x2, 1);
    SetSmall(z2, 0);
    Copy(x3, x1);
    SetSmall(z3, 1);
  }

  /**
   The whole function: 255 rounds with deferred swaps and no final swap, the inversion, one multiplication
   and the encoding produce the 32 bytes of X25519.
   */
  method ScalarMult(out: array<uint8>, scalar: seq<uint8>, point: seq<uint8>)
    requires out.Length == 32 && |scalar| == 32 && |point| == 32
    modifies out
    ensures out[..] == ToLE(X25519(DecodeScalar(scalar), DecodeU(point)), 32)
  {
    hide Val, Reduced, Below, Cong, Simulates, DecodeScalar, DecodeU, Deferred, X25519, LE, ToLE, Inv;
    var e := Clamp(scalar);
    var x1, x2, z2, x3, z3 := new uint64[5], new uint64[5], new uint64[5], new uint64[5], new uint64[5];
    ghost var k, u := DecodeScalar(scalar), DecodeU(point);
    Begin(x1, x2, z2, x3, z3, point);
    ghost var s, last := Rounds(e, x1[..], x2, z2, x3, z3, k, u);
    FinalSwapIsIdle(scalar, u);
    OutputOf(k, u, s);
    SimulatedOutput(x2[..], z2[..], x3[..], z3[..], s);
    Output(out, x2, z2, s);
  }

  lemma SimulatedOutput(x2: seq<uint64>, z2: seq<uint64>, x3: seq<uint64>, z3: seq<uint64>, s: Ladder)
    requires Simulates(x2, z2, x3, z3, s)
    ensures Reduced(x2) && Reduced(z2) && Cong(Val(x2), s.x2) && Cong(Val(z2), s.z2)
  {
  }

  /** The shared secret, and whether it is anything but 32 zero bytes. */
  method OsslX25519(out: array<uint8>, privateKey: seq<uint8>, peer: seq<uint8>) returns (ok: bool)
    requires out.Length == 32 && |privateKey| == 32 && |peer| == 32
    modifies out
    ensures out[..] == ToLE(X25519(DecodeScalar(privateKey), DecodeU(peer)), 32)
    ensures ok <==> X25519(DecodeScalar(privateKey), DecodeU(peer)) != 0
  {
    ScalarMult(out, privateKey, peer);
    ghost var r := X25519(DecodeScalar(privateKey), DecodeU(peer));
    FitsIn32Bytes(r);
    ToLEValue(r, 32);
    ZeroBytes(out[..]);
    ok := exists i :: 0 <= i < 32 && out[i] != 0;
  }

  lemma Modulus(x: int, y: int)
    ensures x == y + 2 * P ==> Cong(x, y)
  {
    if x == y + 2 * P { CongIntro(x, y, 2); }
  }

  ghost predicate Distinct(a: object, b: object, c: object, d: object, e: object, f: object) {
    && a != b && a != c && a != d && a != e && a != f && b != c && b != d && b != e && b != f
    && c != d && c != e && c != f && d != e && d != f && e != f
  }
}
