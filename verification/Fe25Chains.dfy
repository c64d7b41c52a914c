/** Inversion and the square-root power in radix 2^25.5, by fixed chains of squarings and multiplications. */
module Fe25Chains {
  import opened CInts
  import opened Field
  import opened Fe25

  /** `t` represents z^e and can be multiplied. */
  ghost predicate IsPower(t: seq<int32>, z: int, e: nat) {
    Limit(t, PRODUCT) && Cong(Val(t), Pow(z, e))
  }

  lemma FirstPower(t: seq<int32>)
    requires Limit(t, PRODUCT)
    ensures IsPower(t, Val(t), 1)
  {
    PowOne(Val(t));
    CongRefl(Val(t));
  }

  lemma Reached(t: seq<int32>, z: int, e: nat)
    requires IsPower(t, z, e)
    ensures Cong(Val(t), Pow(z, e))
  {
    hide Cong, Val, Pow;
  }

  method MulPower(h: array<int32>, f: seq<int32>, g: seq<int32>, ghost z: int, ghost m: nat, ghost n: nat)
    requires h.Length == 10 && IsPower(f, z, m) && IsPower(g, z, n)
    modifies h
    ensures IsPower(h[..], z, m + n) && Limit(h[..], REDUCED)
  {
    hide V10;
    ghost var x, y := Val(f), Val(g);
    hide Pow, Cong, Val, Limit;
    Mul(h, f, g);
    LimitMonotone(h[..], REDUCED, PRODUCT);
    PowerProduct(Val(h[..]), x, y, z, m, n);
  }

  method SqPower(h: array<int32>, f: seq<int32>, ghost z: int, ghost m: nat)
    requires h.Length == 10 && IsPower(f, z, m)
    modifies h
    ensures IsPower(h[..], z, m + m)
  {
    hide V10;
    ghost var x := Val(f);
    hide Pow, Cong, Val, Limit;
    Sq(h, f);
    LimitMonotone(h[..], REDUCED, PRODUCT);
    PowerProduct(Val(h[..]), x, x, z, m, m);
  }

  /** `fe_sq(h, f)` followed by `n - 1` times `fe_sq(h, h)`. */
  method SqTimes(h: array<int32>, f: seq<int32>, n: nat, ghost z: int, ghost e: nat)
    requires h.Length == 10 && n >= 1 && IsPower(f, z, e)
    modifies h
    ensures IsPower(h[..], z, e * Pow2(n))
  {
    hide Pow, Pow2, Cong, Val, Limit, IsPower;
    PowersOfTwo();
    SqPower(h, f, z, e);
    ghost var d := e + e;
    for i := 1 to n
      invariant d == e * Pow2(i) && IsPower(h[..], z, d)
    {
      SqPower(h, h[..], z, d);
      Doubled(e, i);
      d := d + d;
    }
  }

  lemma Doubled(e: nat, i: nat)
    ensures e * Pow2(i + 1) == e * Pow2(i) + e * Pow2(i)
  {
  }

  /** The first steps: `t0 = z^11` and `t1 = z^(2^10 - 1)`. */
  method Rise(t0: array<int32>, t1: array<int32>, t2: array<int32>, z: seq<int32>)
    requires t0.Length == t1.Length == t2.Length == 10 && t0 != t1 && t0 != t2 && t1 != t2
    requires Limit(z, PRODUCT)
    modifies t0, t1, t2
    ensures IsPower(t0[..], Val(z), 11) && IsPower(t1[..], Val(z), 0x3ff)
  {
    hide V10;
    ghost var x := Val(z);
    hide Pow, Pow2, Cong, Val, IsPower, Limit;
    FirstPower(z);
    PowersOfTwo();

    SqTimes(t0, z, 1, x, 1);
    SqTimes(t1, t0[..], 2, x, 2);
    MulPower(t1, z, t1[..], x, 1, 8);
    MulPower(t0, t0[..], t1[..], x, 2, 9);
    SqTimes(t2, t0[..], 1, x, 11);
    MulPower(t1, t1[..], t2[..], x, 9, 22);
    SqTimes(t2, t1[..], 5, x, 0x1f);
    MulPower(t1, t2[..], t1[..], x, 0x3e0, 0x1f);
  }

  /** From exponent 2^10 - 1 to 2^250 - 1. */
  method Climb(t1: array<int32>, t2: array<int32>, t3: array<int32>, ghost x: int)
    requires t1.Length == t2.Length == t3.Length == 10 && t1 != t2 && t1 != t3 && t2 != t3
    requires IsPower(t1[..], x, 0x3ff)
    modifies t1, t2, t3
    ensures IsPower(t1[..], x, 0x3ff_ffff_ffff_ffff_ffff_ffff_ffff_ffff_ffff_ffff_ffff_ffff_ffff_ffff_ffff_ffff)
  {
    hide Pow, Pow2, Cong, Val, IsPower, Limit;
    ChainPowers();

    SqTimes(t2, t1[..], 10, x, 0x3ff);
    MulPower(t2, t2[..], t1[..], x, 0xf_fc00, 0x3ff);
    SqTimes(t3, t2[..], 20, x, 0xf_ffff);
    MulPower(t2, t3[..], t2[..], x, 0xff_fff0_0000, 0xf_ffff);
    SqTimes(t2, t2[..], 10, x, 0xff_ffff_ffff);
    MulPower(t1, t2[..], t1[..], x, 0x3_ffff_ffff_fc00, 0x3ff);
    SqTimes(t2, t1[..], 50, x, 0x3_ffff_ffff_ffff);
    MulPower(t2, t2[..], t1[..], x, 0xf_ffff_ffff_fffc_0000_0000_0000, 0x3_ffff_ffff_ffff);
    SqTimes(t3, t2[..], 100, x, 0xf_ffff_ffff_ffff_ffff_ffff_ffff);
    MulPower(t2, t3[..], t2[..], x,
             0xff_ffff_ffff_ffff_ffff_ffff_fff0_0000_0000_0000_0000_0000_0000, 0xf_ffff_ffff_ffff_ffff_ffff_ffff);
    SqTimes(t2, t2[..], 50, x, 0xff_ffff_ffff_ffff_ffff_ffff_ffff_ffff_ffff_ffff_ffff_ffff_ffff);
    MulPower(t1, t2[..], t1[..], x,
             0x3ff_ffff_ffff_ffff_ffff_ffff_ffff_ffff_ffff_ffff_ffff_ffff_fffc_0000_0000_0000, 0x3_ffff_ffff_ffff);
  }

  /** The whole chain, in given temporaries: the exponent reached is exactly 2^255 - 21. */
  method InvertWith(out: array<int32>, z: seq<int32>, t0: array<int32>, t1: array<int32>, t2: array<int32>, t3: array<int32>)
    requires t0.Length == t1.Length == t2.Length == t3.Length == 10
    requires t0 != t1 && t0 != t2 && t0 != t3 && t1 != t2 && t1 != t3 && t2 != t3
    requires out.Length == 10 && Limit(z, PRODUCT)
    modifies out, t0, t1, t2, t3
    ensures Limit(out[..], REDUCED)
    ensures Cong(Val(out[..]), Pow(Val(z), P - 2))
  {
    ModulusValue();
    hide V10;
    ghost var x := Val(z);
    hide Pow, Pow2, Cong, Val, IsPower, Limit;
    PowersOfTwo();

    Rise(t0, t1, t2, z);
    Climb(t1, t2, t3, x);
    SqTimes(t1, t1[..], 5, x, 0x3ff_ffff_ffff_ffff_ffff_ffff_ffff_ffff_ffff_ffff_ffff_ffff_ffff_ffff_ffff_ffff);
    MulPower(out, t1[..], t0[..], x,
             0x7fff_ffff_ffff_ffff_ffff_ffff_ffff_ffff_ffff_ffff_ffff_ffff_ffff_ffff_ffff_ffe0, 11);
    Reached(out[..], x, P - 2);
  }

  /** `out = z^(p-2)`. */
  method Invert(out: array<int32>, z: seq<int32>)
    requires out.Length == 10 && Limit(z, PRODUCT)
    modifies out
    ensures Limit(out[..], REDUCED)
    ensures Cong(Val(out[..]), Pow(Val(z), P - 2))
  {
    var t0, t1, t2, t3 := new int32[10], new int32[10], new int32[10], new int32[10];
    InvertWith(out, z, t0, t1, t2, t3);
  }

  /** `fe_pow22523` up to exponent 2^5 - 1, left in `t0`. */
  method RootStart(t0: array<int32>, t1: array<int32>, z: seq<int32>)
    requires t0.Length == t1.Length == 10 && t0 != t1 && Limit(z, PRODUCT)
    modifies t0, t1
    ensures IsPower(t0[..], Val(z), 0x1f)
  {
    hide V10;
    ghost var x := Val(z);
    hide Pow, Pow2, Cong, Val, IsPower, Limit;
    FirstPower(z);
    PowersOfTwo();

    SqTimes(t0, z, 1, x, 1);
    SqTimes(t1, t0[..], 2, x, 2);
    MulPower(t1, z, t1[..], x, 1, 8);
    MulPower(t0, t0[..], t1[..], x, 2, 9);
    SqTimes(t0, t0[..], 1, x, 11);
    MulPower(t0, t1[..], t0[..], x, 9, 22);
  }

  /** `fe_pow22523` up to exponent 2^50 - 1, left in `t0`. */
  method RootRise(t0: array<int32>, t1: array<int32>, t2: array<int32>, z: seq<int32>)
    requires t0.Length == t1.Length == t2.Length == 10 && t0 != t1 && t0 != t2 && t1 != t2
    requires Limit(z, PRODUCT)
    modifies t0, t1, t2
    ensures IsPower(t0[..], Val(z), 0x3_ffff_ffff_ffff)
  {
    hide V10;
    ghost var x := Val(z);
    hide Pow, Pow2, Cong, Val, IsPower, Limit;
    PowersOfTwo();
    ChainPowers();

    RootStart(t0, t1, z);
    SqTimes(t1, t0[..], 5, x, 0x1f);
    MulPower(t0, t1[..], t0[..], x, 0x3e0, 0x1f);
    SqTimes(t1, t0[..], 10, x, 0x3ff);
    MulPower(t1, t1[..], t0[..], x, 0xf_fc00, 0x3ff);
    SqTimes(t2, t1[..], 20, x, 0xf_ffff);
    MulPower(t1, t2[..], t1[..], x, 0xff_fff0_0000, 0xf_ffff);
    SqTimes(t1, t1[..], 10, x, 0xff_ffff_ffff);
    MulPower(t0, t1[..], t0[..], x, 0x3_ffff_ffff_fc00, 0x3ff);
  }

  /** From exponent 2^50 - 1 to 2^250 - 1, in `t0`. */
  method RootClimb(t0: array<int32>, t1: array<int32>, t2: array<int32>, ghost x: int)
    requires t0.Length == t1.Length == t2.Length == 10 && t0 != t1 && t0 != t2 && t1 != t2
    requires IsPower(t0[..], x, 0x3_ffff_ffff_ffff)
    modifies t0, t1, t2
    ensures IsPower(t0[..], x, 0x3ff_ffff_ffff_ffff_ffff_ffff_ffff_ffff_ffff_ffff_ffff_ffff_ffff_ffff_ffff_ffff)
  {
    hide Pow, Pow2, Cong, Val, IsPower, Limit;
    ChainPowers();

    SqTimes(t1, t0[..], 50, x, 0x3_ffff_ffff_ffff);
    MulPower(t1, t1[..], t0[..], x, 0xf_ffff_ffff_fffc_0000_0000_0000, 0x3_ffff_ffff_ffff);
    SqTimes(t2, t1[..], 100, x, 0xf_ffff_ffff_ffff_ffff_ffff_ffff);
    MulPower(t1, t2[..], t1[..], x, 0xff_ffff_ffff_ffff_ffff_ffff_fff0_0000_0000_0000_0000_0000_0000, 0xf_ffff_ffff_ffff_ffff_ffff_ffff);
    SqTimes(t1, t1[..], 50, x, 0xff_ffff_ffff_ffff_ffff_ffff_ffff_ffff_ffff_ffff_ffff_ffff_ffff);
    MulPower(t0, t1[..], t0[..], x, 0x3ff_ffff_ffff_ffff_ffff_ffff_ffff_ffff_ffff_ffff_ffff_ffff_fffc_0000_0000_0000, 0x3_ffff_ffff_ffff);
  }

  method Pow22523With(out: array<int32>, z: seq<int32>, t0: array<int32>, t1: array<int32>, t2: array<int32>)
    requires t0.Length == t1.Length == t2.Length == 10 && t0 != t1 && t0 != t2 && t1 != t2
    requires out.Length == 10 && Limit(z, PRODUCT)
    modifies out, t0, t1, t2
    ensures Limit(out[..], REDUCED)
    ensures Cong(Val(out[..]), Pow(Val(z), (P - 5) / 8))
  {
    ModulusValue();
    hide V10;
    ghost var x := Val(z);
    hide Pow, Pow2, Cong, Val, IsPower, Limit;
    FirstPower(z);
    PowersOfTwo();

    RootRise(t0, t1, t2, z);
    RootClimb(t0, t1, t2, x);
    SqTimes(t0, t0[..], 2, x, 0x3ff_ffff_ffff_ffff_ffff_ffff_ffff_ffff_ffff_ffff_ffff_ffff_ffff_ffff_ffff_ffff);
    MulPower(out, t0[..], z, x, 0xfff_ffff_ffff_ffff_ffff_ffff_ffff_ffff_ffff_ffff_ffff_ffff_ffff_ffff_ffff_fffc, 1);
    Reached(out[..], x, (P - 5) / 8);
  }

  /** `out = z^((p-5)/8)`: the exponent reached is exactly 2^252 - 3. */
  method Pow22523(out: array<int32>, z: seq<int32>)
    requires out.Length == 10 && Limit(z, PRODUCT)
    modifies out
    ensures Limit(out[..], REDUCED)
    ensures Cong(Val(out[..]), Pow(Val(z), (P - 5) / 8))
  {
    var t0, t1, t2 := new int32[10], new int32[10], new int32[10];
    Pow22523With(out, z, t0, t1, t2);
  }
}
