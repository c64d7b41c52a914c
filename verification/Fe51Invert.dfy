/** Inversion in radix 2^51 by a fixed chain of squarings and multiplications. */
module Fe51Invert {
  import opened CInts
  import opened Field
  import opened Fe51

  /** `t` is a reduced representation of z^e. */
  ghost predicate IsPower(t: seq<uint64>, z: int, e: nat) {
    Reduced(t) && Cong(Val(t), Pow(z, e))
  }

  lemma FirstPower(t: seq<uint64>)
    requires Reduced(t)
    ensures IsPower(t, Val(t), 1)
  {
    PowOne(Val(t));
    CongRefl(Val(t));
  }

  lemma Reached(t: seq<uint64>, z: int, e: nat)
    requires IsPower(t, z, e)
    ensures Reduced(t) && Cong(Val(t), Pow(z, e))
  {
    hide Reduced, Cong, Val, Pow;
  }

  method MulPower(h: array<uint64>, f: seq<uint64>, g: seq<uint64>, ghost z: int, ghost m: nat, ghost n: nat)
    requires h.Length == 5 && IsPower(f, z, m) && IsPower(g, z, n)
    modifies h
    ensures IsPower(h[..], z, m + n)
  {
    hide Pow, Cong, Val;
    Mul(h, f, g);
    PowerProduct(Val(h[..]), Val(f), Val(g), z, m, n);
  }

  method SqPower(h: array<uint64>, f: seq<uint64>, ghost z: int, ghost m: nat)
    requires h.Length == 5 && IsPower(f, z, m)
    modifies h
    ensures IsPower(h[..], z, m + m)
  {
    hide Pow, Cong, Val;
    Sq(h, f);
    PowerProduct(Val(h[..]), Val(f), Val(f), z, m, m);
  }

  /** `fe51_sq(h, f)` followed by `n - 1` times `fe51_sq(h, h)`. */
  method SqTimes(h: array<uint64>, f: seq<uint64>, n: nat, ghost z: int, ghost e: nat)
    requires h.Length == 5 && n >= 1 && IsPower(f, z, e)
    modifies h
    ensures IsPower(h[..], z, e * Pow2(n))
  {
    hide Pow, Pow2, Cong, Val, IsPower;
    PowersOfTwo();
    SqPower(h, f, z, e);
    ghost var d := e + e;
    for i := 1 to n
      invariant d == e * Pow2(i) && IsPower(h[..], z, d)
    {
      SqPower(h, h[..], z, d);
      Doubled(e, i);
      d := d + d;
    }
  }

  lemma Doubled(e: nat, i: nat)
    ensures e * Pow2(i + 1) == e * Pow2(i) + e * Pow2(i)
  {
  }

  /** The first steps: `t0 = z^11` and `t1 = z^(2^10 - 1)`. */
  method Rise(t0: array<uint64>, t1: array<uint64>, t2: array<uint64>, z: seq<uint64>)
    requires t0.Length == t1.Length == t2.Length == 5 && t0 != t1 && t0 != t2 && t1 != t2
    requires Reduced(z)
    modifies t0, t1, t2
    ensures IsPower(t0[..], Val(z), 11) && IsPower(t1[..], Val(z), 0x3ff)
  {
    hide V5;
    ghost var x := Val(z);
    hide Pow, Pow2, Cong, Val, IsPower, Reduced;
    FirstPower(z);
    PowersOfTwo();

    SqTimes(t0, z, 1, x, 1);
    SqTimes(t1, t0[..], 2, x, 2);
    MulPower(t1, z, t1[..], x, 1, 8);
    MulPower(t0, t0[..], t1[..], x, 2, 9);
    SqTimes(t2, t0[..], 1, x, 11);
    MulPower(t1, t1[..], t2[..], x, 9, 22);
    SqTimes(t2, t1[..], 5, x, 0x1f);
    MulPower(t1, t2[..], t1[..], x, 0x3e0, 0x1f);
  }

  /** From exponent 2^10 - 1 to 2^250 - 1. */
  method Climb(t1: array<uint64>, t2: array<uint64>, t3: array<uint64>, ghost x: int)
    requires t1.Length == t2.Length == t3.Length == 5 && t1 != t2 && t1 != t3 && t2 != t3
    requires IsPower(t1[..], x, 0x3ff)
    modifies t1, t2, t3
    ensures IsPower(t1[..], x, 0x3ff_ffff_ffff_ffff_ffff_ffff_ffff_ffff_ffff_ffff_ffff_ffff_ffff_ffff_ffff_ffff)
  {
    hide Pow, Pow2, Cong, Val, IsPower, Reduced;
    ChainPowers();

    SqTimes(t2, t1[..], 10, x, 0x3ff);
    MulPower(t2, t2[..], t1[..], x, 0xf_fc00, 0x3ff);
    SqTimes(t3, t2[..], 20, x, 0xf_ffff);
    MulPower(t2, t3[..], t2[..], x, 0xff_fff0_0000, 0xf_ffff);
    SqTimes(t2, t2[..], 10, x, 0xff_ffff_ffff);
    MulPower(t1, t2[..], t1[..], x, 0x3_ffff_ffff_fc00, 0x3ff);
    SqTimes(t2, t1[..], 50, x, 0x3_ffff_ffff_ffff);
    MulPower(t2, t2[..], t1[..], x, 0xf_ffff_ffff_fffc_0000_0000_0000, 0x3_ffff_ffff_ffff);
    SqTimes(t3, t2[..], 100, x, 0xf_ffff_ffff_ffff_ffff_ffff_ffff);
    MulPower(t2, t3[..], t2[..], x,
             0xff_ffff_ffff_ffff_ffff_ffff_fff0_0000_0000_0000_0000_0000_0000, 0xf_ffff_ffff_ffff_ffff_ffff_ffff);
    SqTimes(t2, t2[..], 50, x, 0xff_ffff_ffff_ffff_ffff_ffff_ffff_ffff_ffff_ffff_ffff_ffff_ffff);
    MulPower(t1, t2[..], t1[..], x,
             0x3ff_ffff_ffff_ffff_ffff_ffff_ffff_ffff_ffff_ffff_ffff_ffff_fffc_0000_0000_0000, 0x3_ffff_ffff_ffff);
  }

  /** The whole chain, in given temporaries: the exponent reached is exactly 2^255 - 21. */
  method InvertWith(out: array<uint64>, z: seq<uint64>, t0: array<uint64>, t1: array<uint64>, t2: array<uint64>, t3: array<uint64>)
    requires t0.Length == t1.Length == t2.Length == t3.Length == 5
    requires t0 != t1 && t0 != t2 && t0 != t3 && t1 != t2 && t1 != t3 && t2 != t3
    requires out.Length == 5 && Reduced(z)
    modifies out, t0, t1, t2, t3
    ensures Reduced(out[..])
    ensures Cong(Val(out[..]), Pow(Val(z), P - 2))
  {
    ModulusValue();
    hide V5;
    ghost var x := Val(z);
    hide Pow, Pow2, Cong, Val, IsPower, Reduced;
    PowersOfTwo();

    Rise(t0, t1, t2, z);
    Climb(t1, t2, t3, x);
    SqTimes(t1, t1[..], 5, x, 0x3ff_ffff_ffff_ffff_ffff_ffff_ffff_ffff_ffff_ffff_ffff_ffff_ffff_ffff_ffff_ffff);
    MulPower(out, t1[..], t0[..], x,
             0x7fff_ffff_ffff_ffff_ffff_ffff_ffff_ffff_ffff_ffff_ffff_ffff_ffff_ffff_ffff_ffe0, 11);
    Reached(out[..], x, P - 2);
  }

  /** `out = z^(p-2)`. */
  method Invert(out: array<uint64>, z: seq<uint64>)
    requires out.Length == 5 && Reduced(z)
    modifies out
    ensures Reduced(out[..])
    ensures Cong(Val(out[..]), Pow(Val(z), P - 2))
  {
    var t0, t1, t2, t3 := new uint64[5], new uint64[5], new uint64[5], new uint64[5];
    InvertWith(out, z, t0, t1, t2, t3);
  }
}
