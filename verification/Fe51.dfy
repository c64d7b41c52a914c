/**
 Field elements as five unsigned limbs in radix 2^51, with lazy carries: a limb may exceed 2^51, and
 each operation states how large its operands may be and how large its result is.
 */
module Fe51 {
  import opened CInts
  import opened Bytes
  import opened Field
  import opened Products

  ghost function V5(h0: int, h1: int, h2: int, h3: int, h4: int): int {
    h0 + 0x8_0000_0000_0000 * h1 + 0x40_0000_0000_0000_0000_0000_0000 * h2 + 0x200_0000_0000_0000_0000_0000_0000_0000_0000_0000 * h3 + 0x1000_0000_0000_0000_0000_0000_0000_0000_0000_0000_0000_0000_0000 * h4
  }

  /** The integer a limb vector stands for. */
  ghost function Val(h: seq<uint64>): int
    requires |h| == 5
  {
    V5(h[0] as int, h[1] as int, h[2] as int, h[3] as int, h[4] as int)
  }

  /** Every limb is below `b`. */
  predicate Below(h: seq<uint64>, b: int) {
    |h| == 5 && h[0] as int < b && h[1] as int < b && h[2] as int < b && h[3] as int < b && h[4] as int < b
  }

  /** What multiplication and squaring return: limbs below 2^51 plus a small slack. */
  predicate Reduced(h: seq<uint64>) {
    && |h| == 5
    && h[0] < 0x8_0000_0000_0000
    && h[1] < 0x8_0000_0000_2000
    && h[2] < 0x8_0000_0000_0000
    && h[3] < 0x8_0000_0000_2000
    && h[4] < 0x8_0000_0000_0000
  }

  /** The bounds of results imply the bounds asked of operands. */
  lemma Slack()
    ensures forall h {:trigger Reduced(h)} :: Reduced(h) ==> Below(h, 0x20_0000_0000_0000) && Below(h, 0x40_0000_0000_0000)
    ensures forall h {:trigger Below(h, 0x20_0000_0000_0000)} ::
        Below(h, 0x20_0000_0000_0000) ==> Below(h, 0x40_0000_0000_0000)
  {
  }

  lemma ReducedValue(h: seq<uint64>)
    requires Reduced(h)
    ensures Below(h, 0x10_0000_0000_0000) && Val(h) < 2 * P
  {
    ModulusValue();
  }

  // ---------------------------------------------------------------- products

  lemma Row(x: int, g0: int, g1: int, g2: int, g3: int, g4: int)
    ensures x * V5(g0, g1, g2, g3, g4) == Times(x, g0) + 0x8_0000_0000_0000 * Times(x, g1) + 0x40_0000_0000_0000_0000_0000_0000 * Times(x, g2) + 0x200_0000_0000_0000_0000_0000_0000_0000_0000_0000 * Times(x, g3) + 0x1000_0000_0000_0000_0000_0000_0000_0000_0000_0000_0000_0000_0000 * Times(x, g4)
  {
  }

  /** The nine coefficients of a product of two limb vectors. */
  lemma Convolution(f0: int, f1: int, f2: int, f3: int, f4: int, g0: int, g1: int, g2: int, g3: int, g4: int,
                    c0: int, c1: int, c2: int, c3: int, c4: int, c5: int, c6: int, c7: int, c8: int)
    requires c0 == Times(f0, g0)
    requires c1 == Times(f0, g1) + Times(f1, g0)
    requires c2 == Times(f0, g2) + Times(f1, g1) + Times(f2, g0)
    requires c3 == Times(f0, g3) + Times(f1, g2) + Times(f2, g1) + Times(f3, g0)
    requires c4 == Times(f0, g4) + Times(f1, g3) + Times(f2, g2) + Times(f3, g1) + Times(f4, g0)
    requires c5 == Times(f1, g4) + Times(f2, g3) + Times(f3, g2) + Times(f4, g1)
    requires c6 == Times(f2, g4) + Times(f3, g3) + Times(f4, g2)
    requires c7 == Times(f3, g4) + Times(f4, g3)
    requires c8 == Times(f4, g4)
    ensures V5(f0, f1, f2, f3, f4) * V5(g0, g1, g2, g3, g4)
      == c0 + 0x8_0000_0000_0000 * c1 + 0x40_0000_0000_0000_0000_0000_0000 * c2 + 0x200_0000_0000_0000_0000_0000_0000_0000_0000_0000 * c3 + 0x1000_0000_0000_0000_0000_0000_0000_0000_0000_0000_0000_0000_0000 * c4 + 0x8000_0000_0000_0000_0000_0000_0000_0000_0000_0000_0000_0000_0000_0000_0000_0000 * c5 + 0x4_0000_0000_0000_0000_0000_0000_0000_0000_0000_0000_0000_0000_0000_0000_0000_0000_0000_0000_0000 * c6 + 0x20_0000_0000_0000_0000_0000_0000_0000_0000_0000_0000_0000_0000_0000_0000_0000_0000_0000_0000_0000_0000_0000_0000 * c7 + 0x100_0000_0000_0000_0000_0000_0000_0000_0000_0000_0000_0000_0000_0000_0000_0000_0000_0000_0000_0000_0000_0000_0000_0000_0000_0000 * c8
  {
    hide Times;
    var y := V5(g0, g1, g2, g3, g4);
    Row(f0, g0, g1, g2, g3, g4); Row(f1, g0, g1, g2, g3, g4); Row(f2, g0, g1, g2, g3, g4); Row(f3, g0, g1, g2, g3, g4); Row(f4, g0, g1, g2, g3, g4);
    Row(y, f0, f1, f2, f3, f4);
    TimesIsProduct(y, f0); TimesIsProduct(y, f1); TimesIsProduct(y, f2); TimesIsProduct(y, f3); TimesIsProduct(y, f4);
  }

  /** 2^255 is congruent to 19, so the upper coefficients fold back with a factor 19. */
  lemma Wrap(c0: int, c1: int, c2: int, c3: int, c4: int, c5: int, c6: int, c7: int, c8: int)
    ensures Cong(V5(c0 + 19 * c5, c1 + 19 * c6, c2 + 19 * c7, c3 + 19 * c8, c4),
                 c0 + 0x8_0000_0000_0000 * c1 + 0x40_0000_0000_0000_0000_0000_0000 * c2 + 0x200_0000_0000_0000_0000_0000_0000_0000_0000_0000 * c3 + 0x1000_0000_0000_0000_0000_0000_0000_0000_0000_0000_0000_0000_0000 * c4 + 0x8000_0000_0000_0000_0000_0000_0000_0000_0000_0000_0000_0000_0000_0000_0000_0000 * c5 + 0x4_0000_0000_0000_0000_0000_0000_0000_0000_0000_0000_0000_0000_0000_0000_0000_0000_0000_0000_0000 * c6 + 0x20_0000_0000_0000_0000_0000_0000_0000_0000_0000_0000_0000_0000_0000_0000_0000_0000_0000_0000_0000_0000_0000_0000 * c7 + 0x100_0000_0000_0000_0000_0000_0000_0000_0000_0000_0000_0000_0000_0000_0000_0000_0000_0000_0000_0000_0000_0000_0000_0000_0000_0000 * c8)
  {
    ModulusValue();
    CongIntro(V5(c0 + 19 * c5, c1 + 19 * c6, c2 + 19 * c7, c3 + 19 * c8, c4),
              c0 + 0x8_0000_0000_0000 * c1 + 0x40_0000_0000_0000_0000_0000_0000 * c2 + 0x200_0000_0000_0000_0000_0000_0000_0000_0000_0000 * c3 + 0x1000_0000_0000_0000_0000_0000_0000_0000_0000_0000_0000_0000_0000 * c4 + 0x8000_0000_0000_0000_0000_0000_0000_0000_0000_0000_0000_0000_0000_0000_0000_0000 * c5 + 0x4_0000_0000_0000_0000_0000_0000_0000_0000_0000_0000_0000_0000_0000_0000_0000_0000_0000_0000_0000 * c6 + 0x20_0000_0000_0000_0000_0000_0000_0000_0000_0000_0000_0000_0000_0000_0000_0000_0000_0000_0000_0000_0000_0000_0000 * c7 + 0x100_0000_0000_0000_0000_0000_0000_0000_0000_0000_0000_0000_0000_0000_0000_0000_0000_0000_0000_0000_0000_0000_0000_0000_0000_0000 * c8,
              -(c5 + 0x8_0000_0000_0000 * c6 + 0x40_0000_0000_0000_0000_0000_0000 * c7 + 0x200_0000_0000_0000_0000_0000_0000_0000_0000_0000 * c8));
  }

  lemma WordProduct(a: int, b: int)
    requires 0 <= a < 0x1_0000_0000_0000_0000 && 0 <= b < 0x1_0000_0000_0000_0000
    ensures 0 <= a * b < 0x1_0000_0000_0000_0000_0000_0000_0000_0000
  {
    MagnitudeOfProduct(a, b, 0xffff_ffff_ffff_ffff, 0xffff_ffff_ffff_ffff);
    SignOfProduct(a, b);
  }

  lemma SignOfProduct(a: int, b: int)
    requires a >= 0 && b >= 0
    ensures a * b >= 0
  {
  }

  function Prod(a: uint64, b: uint64): (r: uint128)
    ensures r as int == Times(a as int, b as int)
  {
    WordProduct(a as int, b as int);
    a as uint128 * b as uint128
  }

  lemma LostMultiple(w: int, v: int, top: int)
    requires w == v - (0x8000_0000_0000_0000_0000_0000_0000_0000_0000_0000_0000_0000_0000_0000_0000_0000 - 19) * top
    ensures Cong(w, v)
  {
    ModulusValue();
    CongIntro(w, v, -top);
  }

  /** The carries out of 128-bit columns that end a multiplication, a squaring and `Mul121666`. */
  method LazyReduce(h: array<uint64>, a0: uint128, a1: uint128, a2: uint128, a3: uint128, a4: uint128)
    requires h.Length == 5
    requires a0 <= 0x4_d000_0000_0000_0000_0000_0000_0000 && a1 <= 0x4_d000_0000_0000_0000_0000_0000_0000 && a2 <= 0x4_d000_0000_0000_0000_0000_0000_0000 && a3 <= 0x4_d000_0000_0000_0000_0000_0000_0000
    requires a4 <= 0x5000_0000_0000_0000_0000_0000_0000
    modifies h
    ensures Reduced(h[..])
    ensures Cong(Val(h[..]), V5(a0 as int, a1 as int, a2 as int, a3 as int, a4 as int))
  {
    var h0, h1, h2, h3, h4 := a0, a1, a2, a3, a4;

    h3 := h3 + (h2 / 0x8_0000_0000_0000) as uint64 as uint128;
    var g2 := (h2 % 0x8_0000_0000_0000) as uint64;
    h1 := h1 + (h0 / 0x8_0000_0000_0000) as uint64 as uint128;
    var g0 := (h0 % 0x8_0000_0000_0000) as uint64;

    h4 := h4 + (h3 / 0x8_0000_0000_0000) as uint64 as uint128;
    var g3 := (h3 % 0x8_0000_0000_0000) as uint64;
    g2 := g2 + (h1 / 0x8_0000_0000_0000) as uint64;
    var g1 := (h1 % 0x8_0000_0000_0000) as uint64;

    ghost var top := (h4 / 0x8_0000_0000_0000) as int;
    g0 := g0 + (h4 / 0x8_0000_0000_0000) as uint64 * 19;
    var g4 := (h4 % 0x8_0000_0000_0000) as uint64;
    g3 := g3 + g2 / 0x8_0000_0000_0000;
    g2 := g2 % 0x8_0000_0000_0000;
    g1 := g1 + g0 / 0x8_0000_0000_0000;
    g0 := g0 % 0x8_0000_0000_0000;

    LostMultiple(V5(g0 as int, g1 as int, g2 as int, g3 as int, g4 as int),
                 V5(a0 as int, a1 as int, a2 as int, a3 as int, a4 as int), top);
    h[0], h[1], h[2], h[3], h[4] := g0, g1, g2, g3, g4;
  }

  /** `h = f * g`, where `h` may be `f` or `g`: every limb is read before the first one is written. */
  method Mul(h: array<uint64>, f: seq<uint64>, g: seq<uint64>)
    requires h.Length == 5
    requires Below(f, 0x40_0000_0000_0000) && Below(g, 0x40_0000_0000_0000)
    modifies h
    ensures Reduced(h[..])
    ensures Cong(Val(h[..]), Val(f) * Val(g))
  {
    hide Times, Cong;
    var g0, g1, g2, g3, g4 := g[0], g[1], g[2], g[3], g[4];
    ghost var x0, x1, x2, x3, x4 := f[0] as int, f[1] as int, f[2] as int, f[3] as int, f[4] as int;
    ghost var y0, y1, y2, y3, y4 := g[0] as int, g[1] as int, g[2] as int, g[3] as int, g[4] as int;
    TimesBound(0x40_0000_0000_0000, 0x40_0000_0000_0000);
    TimesBound(0x40_0000_0000_0000, 19 * 0x40_0000_0000_0000);

    var h0 := Prod(f[0], g0);
    var h1 := Prod(f[0], g1);
    var h2 := Prod(f[0], g2);
    var h3 := Prod(f[0], g3);
    var h4 := Prod(f[0], g4);

    g4 := g4 * 19;
    h0 := h0 + Prod(f[1], g4);
    h1 := h1 + Prod(f[1], g0);
    h2 := h2 + Prod(f[1], g1);
    h3 := h3 + Prod(f[1], g2);
    h4 := h4 + Prod(f[1], g3);

    g3 := g3 * 19;
    h0 := h0 + Prod(f[2], g3);
    h1 := h1 + Prod(f[2], g4);
    h2 := h2 + Prod(f[2], g0);
    h3 := h3 + Prod(f[2], g1);
    h4 := h4 + Prod(f[2], g2);

    g2 := g2 * 19;
    h0 := h0 + Prod(f[3], g2);
    h1 := h1 + Prod(f[3], g3);
    h2 := h2 + Prod(f[3], g4);
    h3 := h3 + Prod(f[3], g0);
    h4 := h4 + Prod(f[3], g1);

    g1 := g1 * 19;
    h0 := h0 + Prod(f[4], g1);
    h1 := h1 + Prod(f[4], g2);
    h2 := h2 + Prod(f[4], g3);
    h3 := h3 + Prod(f[4], g4);
    h4 := h4 + Prod(f[4], g0);

    ScaleRight(y1, 19, g1 as int); ScaleRight(y2, 19, g2 as int);
    ScaleRight(y3, 19, g3 as int); ScaleRight(y4, 19, g4 as int);
    ghost var v := Product(x0, x1, x2, x3, x4, y0, y1, y2, y3, y4,
                           h0 as int, h1 as int, h2 as int, h3 as int, h4 as int);
    LazyReduce(h, h0, h1, h2, h3, h4);
    CongTrans(Val(h[..]), v, Val(f) * Val(g));
  }

  /** Columns that collect the right products stand for the product of the two values. */
  lemma Product(f0: int, f1: int, f2: int, f3: int, f4: int, g0: int, g1: int, g2: int, g3: int, g4: int,
                h0: int, h1: int, h2: int, h3: int, h4: int)
    returns (v: int)
    requires h0 == Times(f0, g0) + 19 * Times(f1, g4) + 19 * Times(f2, g3) + 19 * Times(f3, g2) + 19 * Times(f4, g1)
    requires h1 == Times(f0, g1) + Times(f1, g0) + 19 * Times(f2, g4) + 19 * Times(f3, g3) + 19 * Times(f4, g2)
    requires h2 == Times(f0, g2) + Times(f1, g1) + Times(f2, g0) + 19 * Times(f3, g4) + 19 * Times(f4, g3)
    requires h3 == Times(f0, g3) + Times(f1, g2) + Times(f2, g1) + Times(f3, g0) + 19 * Times(f4, g4)
    requires h4 == Times(f0, g4) + Times(f1, g3) + Times(f2, g2) + Times(f3, g1) + Times(f4, g0)
    ensures v == V5(h0, h1, h2, h3, h4) && Cong(v, V5(f0, f1, f2, f3, f4) * V5(g0, g1, g2, g3, g4))
  {
    hide Times, Cong;
    v := V5(h0, h1, h2, h3, h4);
    var c0, c1, c2, c3, c4 := Times(f0, g0), Times(f0, g1) + Times(f1, g0), Times(f0, g2) + Times(f1, g1) + Times(f2, g0), Times(f0, g3) + Times(f1, g2) + Times(f2, g1) + Times(f3, g0), Times(f0, g4) + Times(f1, g3) + Times(f2, g2) + Times(f3, g1) + Times(f4, g0);
    var c5, c6, c7, c8 := Times(f1, g4) + Times(f2, g3) + Times(f3, g2) + Times(f4, g1), Times(f2, g4) + Times(f3, g3) + Times(f4, g2), Times(f3, g4) + Times(f4, g3), Times(f4, g4);
    Convolution(f0, f1, f2, f3, f4, g0, g1, g2, g3, g4, c0, c1, c2, c3, c4, c5, c6, c7, c8);
    Wrap(c0, c1, c2, c3, c4, c5, c6, c7, c8);
  }

  /** `h = f * f` by the dedicated squaring, which doubles and reuses cross products. */
  method Sq(h: array<uint64>, f: seq<uint64>)
    requires h.Length == 5
    requires Below(f, 0x40_0000_0000_0000)
    modifies h
    ensures Reduced(h[..])
    ensures Cong(Val(h[..]), Val(f) * Val(f))
  {
    hide Times, Cong;
    var g0, g1, g2, g3, g4 := f[0], f[1], f[2], f[3], f[4];
    ghost var x0, x1, x2, x3, x4 := f[0] as int, f[1] as int, f[2] as int, f[3] as int, f[4] as int;
    SquareBounds();
    TimesSymmetric();

    var h0 := Prod(g0, g0);
    g0 := g0 * 2;
    ScaleLeft(x0, 2, g0 as int);
    var h1 := Prod(g0, g1);
    var h2 := Prod(g0, g2);
    var h3 := Prod(g0, g3);
    var h4 := Prod(g0, g4);

    g0 := g4;
    g4 := g4 * 19;
    ScaleRight(x4, 19, g4 as int);
    h3 := h3 + Prod(g0, g4);

    h2 := h2 + Prod(g1, g1);
    g1 := g1 * 2;
    ScaleLeft(x1, 2, g1 as int);
    h3 := h3 + Prod(g1, g2);
    h4 := h4 + Prod(g1, g3);
    h0 := h0 + Prod(g1, g4);

    g0 := g3;
    g3 := g3 * 19;
    ScaleRight(x3, 19, g3 as int);
    ScaleLeft(x3, 2, (g0 * 2) as int);
    h1 := h1 + Prod(g0, g3);
    h2 := h2 + Prod(g0 * 2, g4);

    h4 := h4 + Prod(g2, g2);
    g2 := g2 * 2;
    ScaleLeft(x2, 2, g2 as int);
    h0 := h0 + Prod(g2, g3);
    h1 := h1 + Prod(g2, g4);

    ghost var v := Product(x0, x1, x2, x3, x4, x0, x1, x2, x3, x4,
                           h0 as int, h1 as int, h2 as int, h3 as int, h4 as int);
    LazyReduce(h, h0, h1, h2, h3, h4);
    CongTrans(Val(h[..]), v, Val(f) * Val(f));
  }

  lemma SquareBounds()
    ensures forall a, b {:trigger Times(a, b)} :: 0 <= a <= 0x40_0000_0000_0000 && 0 <= b <= 0x40_0000_0000_0000 ==>
        0 <= Times(a, b) <= 0x40_0000_0000_0000 * 0x40_0000_0000_0000
    ensures forall a, b {:trigger Times(a, b)} :: 0 <= a <= 0x80_0000_0000_0000 && 0 <= b <= 0x40_0000_0000_0000 ==>
        0 <= Times(a, b) <= 0x80_0000_0000_0000 * 0x40_0000_0000_0000
    ensures forall a, b {:trigger Times(a, b)} :: 0 <= a <= 0x40_0000_0000_0000 && 0 <= b <= 19 * 0x40_0000_0000_0000 ==>
        0 <= Times(a, b) <= 0x40_0000_0000_0000 * (19 * 0x40_0000_0000_0000)
    ensures forall a, b {:trigger Times(a, b)} :: 0 <= a <= 0x80_0000_0000_0000 && 0 <= b <= 19 * 0x40_0000_0000_0000 ==>
        0 <= Times(a, b) <= 0x80_0000_0000_0000 * (19 * 0x40_0000_0000_0000)
  {
    hide Times;
    TimesBound(0x40_0000_0000_0000, 0x40_0000_0000_0000);
    TimesBound(0x80_0000_0000_0000, 0x40_0000_0000_0000);
    TimesBound(0x40_0000_0000_0000, 19 * 0x40_0000_0000_0000);
    TimesBound(0x80_0000_0000_0000, 19 * 0x40_0000_0000_0000);
  }

  method Mul121666(h: array<uint64>, f: seq<uint64>)
    requires h.Length == 5
    requires Below(f, 0x40_0000_0000_0000)
    modifies h
    ensures Reduced(h[..])
    ensures Cong(Val(h[..]), 121666 * Val(f))
  {
    var h0 := f[0] as uint128 * 121666;
    var h1 := f[1] as uint128 * 121666;
    var h2 := f[2] as uint128 * 121666;
    var h3 := f[3] as uint128 * 121666;
    var h4 := f[4] as uint128 * 121666;
    LazyReduce(h, h0, h1, h2, h3, h4);
  }

  // ---------------------------------------------------------------- sums, differences, copies

  /** `h = f + g`; `h` may be `f` or `g`. */
  method Add(h: array<uint64>, f: array<uint64>, g: array<uint64>)
    requires h.Length == f.Length == g.Length == 5
    requires Below(f[..], 0x20_0000_0000_0000) && Below(g[..], 0x20_0000_0000_0000)
    modifies h
    ensures Below(h[..], 0x40_0000_0000_0000)
    ensures Val(h[..]) == old(Val(f[..]) + Val(g[..]))
  {
    h[0] := f[0] + g[0];
    h[1] := f[1] + g[1];
    h[2] := f[2] + g[2];
    h[3] := f[3] + g[3];
    h[4] := f[4] + g[4];
  }

  /**
   `h = f - g`, with 2p added to keep every limb nonnegative. No limb underflows because `g` comes out of
   a multiplication (or a load). `h` may be `f` or `g`.
   */
  method Sub(h: array<uint64>, f: array<uint64>, g: array<uint64>)
    requires h.Length == f.Length == g.Length == 5
    requires Reduced(f[..]) && Reduced(g[..])
    modifies h
    ensures Below(h[..], 0x20_0000_0000_0000)
    ensures Val(h[..]) == old(Val(f[..]) - Val(g[..])) + 2 * P
  {
    ModulusValue();
    h[0] := (f[0] + 0xfffffffffffda) - g[0];
    h[1] := (f[1] + 0xffffffffffffe) - g[1];
    h[2] := (f[2] + 0xffffffffffffe) - g[2];
    h[3] := (f[3] + 0xffffffffffffe) - g[3];
    h[4] := (f[4] + 0xffffffffffffe) - g[4];
  }

  method SetSmall(h: array<uint64>, x: uint64)
    requires h.Length == 5 && x <= 1
    modifies h
    ensures Reduced(h[..]) && Val(h[..]) == x as int
  {
    h[0] := x;
    h[1] := 0;
    h[2] := 0;
    h[3] := 0;
    h[4] := 0;
  }

  method Copy(h: array<uint64>, f: array<uint64>)
    requires h.Length == f.Length == 5
    modifies h
    ensures h[..] == old(f[..])
  {
    h[0] := f[0];
    h[1] := f[1];
    h[2] := f[2];
    h[3] := f[3];
    h[4] := f[4];
  }

  /** The branch-free conditional swap. */
  method CSwap(f: array<uint64>, g: array<uint64>, b: nat)
    requires f.Length == g.Length == 5 && f != g && b <= 1
    modifies f, g
    ensures f[..] == (if b == 1 then old(g[..]) else old(f[..]))
    ensures g[..] == (if b == 1 then old(f[..]) else old(g[..]))
  {
    hide BitXor, BitAnd, Mask, Pow2;
    Pow2Add(32, 32);
    PowersOfTwo();
    for i := 0 to 5
      invariant forall j :: 0 <= j < 5 ==> f[j] == if j < i && b == 1 then old(g[j]) else old(f[j])
      invariant forall j :: 0 <= j < 5 ==> g[j] == if j < i && b == 1 then old(f[j]) else old(g[j])
    {
      ChooseValue(f[i] as nat, g[i] as nat, b, 64);
      var x := BitAnd(BitXor(f[i] as nat, g[i] as nat), Mask(b, 64));
      f[i] := BitXor(f[i] as nat, x) as uint64;
      g[i] := BitXor(g[i] as nat, x) as uint64;
    }
  }

  // ---------------------------------------------------------------- bytes

  /** Loads the low 255 bits of a 32-byte string. */
  method FromBytes(h: array<uint64>, s: seq<uint8>)
    requires h.Length == 5 && |s| == 32
    modifies h
    ensures Below(h[..], 0x8_0000_0000_0000) && Reduced(h[..])
    ensures Val(h[..]) == LE(s) % 0x8000_0000_0000_0000_0000_0000_0000_0000_0000_0000_0000_0000_0000_0000_0000_0000
  {
    var l4 := Load6(s, 26) % 0x8000_0000_0000;
    LoadedValue(s);
    SetLoads(h, Load7(s, 0), Load6(s, 7), Load7(s, 13), Load6(s, 20), l4);
    LowBits(LE(s), Val(h[..]), (Load6(s, 26) / 0x8000_0000_0000) as int);
  }

  /** Splits loads of 56, 48, 56, 48 and 47 bits into limbs of 51 bits. */
  method SetLoads(h: array<uint64>, l0: uint64, l1: uint64, l2: uint64, l3: uint64, l4: uint64)
    requires h.Length == 5
    requires l0 < 0x100_0000_0000_0000 && l1 < 0x1_0000_0000_0000 && l2 < 0x100_0000_0000_0000 && l3 < 0x1_0000_0000_0000 && l4 < 0x8000_0000_0000
    modifies h
    ensures Below(h[..], 0x8_0000_0000_0000)
    ensures Val(h[..]) == l0 as int + 0x100_0000_0000_0000 * l1 as int + 0x100_0000_0000_0000_0000_0000_0000 * l2 as int
                          + 0x1_0000_0000_0000_0000_0000_0000_0000_0000_0000_0000 * l3 as int + 0x1_0000_0000_0000_0000_0000_0000_0000_0000_0000_0000_0000_0000_0000 * l4 as int
  {
    hide Pow2;
    PowersOfTwo();
    var h0 := l0;
    var h1 := Join(l1 as nat, (h0 / 0x8_0000_0000_0000) as nat, 5) as uint64;
    h0 := h0 % 0x8_0000_0000_0000;
    var h2 := Join(l2 as nat, (h1 / 0x8_0000_0000_0000) as nat, 2) as uint64;
    ghost var q1 := h1 / 0x8_0000_0000_0000;
    h1 := h1 % 0x8_0000_0000_0000;
    var h3 := Join(l3 as nat, (h2 / 0x8_0000_0000_0000) as nat, 7) as uint64;
    ghost var q2 := h2 / 0x8_0000_0000_0000;
    h2 := h2 % 0x8_0000_0000_0000;
    var h4 := Join(l4 as nat, (h3 / 0x8_0000_0000_0000) as nat, 4) as uint64;
    ghost var q3 := h3 / 0x8_0000_0000_0000;
    h3 := h3 % 0x8_0000_0000_0000;
    LoadedLimbs(l0 as int, l1 as int, l2 as int, l3 as int, l4 as int,
                (l0 / 0x8_0000_0000_0000) as int, q1 as int, q2 as int, q3 as int,
                h0 as int, h1 as int, h2 as int, h3 as int, h4 as int);
    h[0], h[1], h[2], h[3], h[4] := h0, h1, h2, h3, h4;
  }

  /** The five loads of `FromBytes` cover the string: 56, 48, 56, 48 and 48 bits. */
  lemma LoadedValue(s: seq<uint8>)
    requires |s| == 32
    ensures LE(s) == Load7(s, 0) as int + 0x100_0000_0000_0000 * Load6(s, 7) as int + 0x100_0000_0000_0000_0000_0000_0000 * Load7(s, 13) as int
                     + 0x1_0000_0000_0000_0000_0000_0000_0000_0000_0000_0000 * Load6(s, 20) as int + 0x1_0000_0000_0000_0000_0000_0000_0000_0000_0000_0000_0000_0000_0000 * Load6(s, 26) as int
  {
    hide LE, LEFrom, Sum32, Above;
    LE32(s);
    Sum32Loads(s[0] as int, s[1] as int, s[2] as int, s[3] as int, s[4] as int, s[5] as int, s[6] as int, s[7] as int, s[8] as int, s[9] as int, s[10] as int, s[11] as int, s[12] as int, s[13] as int, s[14] as int, s[15] as int, s[16] as int, s[17] as int, s[18] as int, s[19] as int, s[20] as int, s[21] as int, s[22] as int, s[23] as int, s[24] as int, s[25] as int, s[26] as int, s[27] as int, s[28] as int, s[29] as int, s[30] as int, s[31] as int,
               Load7(s, 0) as int, Load6(s, 7) as int, Load7(s, 13) as int, Load6(s, 20) as int, Load6(s, 26) as int);
  }

  lemma Sum32Loads(b0: int, b1: int, b2: int, b3: int, b4: int, b5: int, b6: int, b7: int, b8: int, b9: int, b10: int, b11: int, b12: int, b13: int, b14: int, b15: int, b16: int, b17: int, b18: int, b19: int, b20: int, b21: int, b22: int, b23: int, b24: int, b25: int, b26: int, b27: int, b28: int, b29: int, b30: int, b31: int,
                   l0: int, l1: int, l2: int, l3: int, l4: int)
    requires l0 == b0 + 0x100 * b1 + 0x1_0000 * b2 + 0x100_0000 * b3 + 0x1_0000_0000 * b4 + 0x100_0000_0000 * b5 + 0x1_0000_0000_0000 * b6
    requires l1 == b7 + 0x100 * b8 + 0x1_0000 * b9 + 0x100_0000 * b10 + 0x1_0000_0000 * b11 + 0x100_0000_0000 * b12
    requires l2 == b13 + 0x100 * b14 + 0x1_0000 * b15 + 0x100_0000 * b16 + 0x1_0000_0000 * b17 + 0x100_0000_0000 * b18 + 0x1_0000_0000_0000 * b19
    requires l3 == b20 + 0x100 * b21 + 0x1_0000 * b22 + 0x100_0000 * b23 + 0x1_0000_0000 * b24 + 0x100_0000_0000 * b25
    requires l4 == b26 + 0x100 * b27 + 0x1_0000 * b28 + 0x100_0000 * b29 + 0x1_0000_0000 * b30 + 0x100_0000_0000 * b31
    ensures Sum32(b0, b1, b2, b3, b4, b5, b6, b7, b8, b9, b10, b11, b12, b13, b14, b15, b16, b17, b18, b19, b20, b21, b22, b23, b24, b25, b26, b27, b28, b29, b30, b31)
      == l0 + 0x100_0000_0000_0000 * l1 + 0x100_0000_0000_0000_0000_0000_0000 * l2 + 0x1_0000_0000_0000_0000_0000_0000_0000_0000_0000_0000 * l3 + 0x1_0000_0000_0000_0000_0000_0000_0000_0000_0000_0000_0000_0000_0000 * l4
  {
  }

  lemma LoadedLimbs(l0: int, l1: int, l2: int, l3: int, l4: int, q0: int, q1: int, q2: int, q3: int,
                    h0: int, h1: int, h2: int, h3: int, h4: int)
    requires l0 == 0x8_0000_0000_0000 * q0 + h0
    requires 32 * l1 + q0 == 0x8_0000_0000_0000 * q1 + h1
    requires 4 * l2 + q1 == 0x8_0000_0000_0000 * q2 + h2
    requires 128 * l3 + q2 == 0x8_0000_0000_0000 * q3 + h3
    requires 16 * l4 + q3 == h4
    ensures V5(h0, h1, h2, h3, h4)
      == l0 + 0x100_0000_0000_0000 * l1 + 0x100_0000_0000_0000_0000_0000_0000 * l2 + 0x1_0000_0000_0000_0000_0000_0000_0000_0000_0000_0000 * l3 + 0x1_0000_0000_0000_0000_0000_0000_0000_0000_0000_0000_0000_0000_0000 * l4
  {
  }

  lemma LowBits(x: int, v: int, top: int)
    requires x == v + 0x8000_0000_0000_0000_0000_0000_0000_0000_0000_0000_0000_0000_0000_0000_0000_0000 * top && 0 <= v < 0x8000_0000_0000_0000_0000_0000_0000_0000_0000_0000_0000_0000_0000_0000_0000_0000
    ensures v == x % 0x8000_0000_0000_0000_0000_0000_0000_0000_0000_0000_0000_0000_0000_0000_0000_0000
  {
  }

  /** Compares with the modulus: 1 when the value is at least p, else 0. */
  method Quotient(h: seq<uint64>) returns (q: uint64)
    requires Below(h, 0x10_0000_0000_0000) && Val(h) < 2 * P
    ensures q as int == (Val(h) + 19) / 0x8000_0000_0000_0000_0000_0000_0000_0000_0000_0000_0000_0000_0000_0000_0000_0000
    ensures q <= 1 && (q == 1 <==> Val(h) >= P)
  {
    ModulusValue();
    q := (h[0] + 19) / 0x8_0000_0000_0000;
    q := (h[1] + q) / 0x8_0000_0000_0000;
    q := (h[2] + q) / 0x8_0000_0000_0000;
    q := (h[3] + q) / 0x8_0000_0000_0000;
    q := (h[4] + q) / 0x8_0000_0000_0000;
  }

  /** The canonical encoding: the 32 bytes of the value modulo p. */
  method ToBytes(s: array<uint8>, h: seq<uint64>)
    requires s.Length >= 32
    requires Below(h, 0x10_0000_0000_0000) && Val(h) < 2 * P
    modifies s
    ensures s[..32] == ToLE(Val(h) % P, 32)
    ensures s[32..] == old(s[32..])
  {
    var q := Quotient(h);
    var h0, h1, h2, h3, h4 := SubtractModulus(h, q);
    var bytes := Pack(h0 as nat, h1 as nat, h2 as nat, h3 as nat, h4 as nat);
    ToLEUnique(bytes);
    Store32(s, 0, bytes);
  }

  /** Adds 19 q, carries, and drops bit 255. */
  method SubtractModulus(h: seq<uint64>, q: uint64) returns (h0: uint64, h1: uint64, h2: uint64, h3: uint64, h4: uint64)
    requires Below(h, 0x10_0000_0000_0000) && Val(h) < 2 * P
    requires q as int == (Val(h) + 19) / 0x8000_0000_0000_0000_0000_0000_0000_0000_0000_0000_0000_0000_0000_0000_0000_0000
    ensures h0 < 0x8_0000_0000_0000 && h1 < 0x8_0000_0000_0000 && h2 < 0x8_0000_0000_0000
    ensures h3 < 0x8_0000_0000_0000 && h4 < 0x8_0000_0000_0000
    ensures V5(h0 as int, h1 as int, h2 as int, h3 as int, h4 as int) == Val(h) % P
  {
    ModulusValue();
    h0, h1, h2, h3, h4 := h[0], h[1], h[2], h[3], h[4];

    h0 := h0 + 19 * q;
    h1 := h1 + h0 / 0x8_0000_0000_0000;
    h0 := h0 % 0x8_0000_0000_0000;
    h2 := h2 + h1 / 0x8_0000_0000_0000;
    h1 := h1 % 0x8_0000_0000_0000;
    h3 := h3 + h2 / 0x8_0000_0000_0000;
    h2 := h2 % 0x8_0000_0000_0000;
    h4 := h4 + h3 / 0x8_0000_0000_0000;
    h3 := h3 % 0x8_0000_0000_0000;
    ghost var dropped := (h4 / 0x8_0000_0000_0000) as int;
    h4 := h4 % 0x8_0000_0000_0000;
    FullReduction(Val(h), V5(h0 as int, h1 as int, h2 as int, h3 as int, h4 as int), q as int, dropped);
  }

  /** With q = floor((h + 19) / 2^255), dropping bit 255 of h + 19 q leaves h mod p. */
  lemma FullReduction(v: int, w: int, q: int, dropped: int)
    requires 0 <= v < 2 * P
    requires q == (v + 19) / 0x8000_0000_0000_0000_0000_0000_0000_0000_0000_0000_0000_0000_0000_0000_0000_0000
    requires v + 19 * q == w + 0x8000_0000_0000_0000_0000_0000_0000_0000_0000_0000_0000_0000_0000_0000_0000_0000 * dropped
    requires 0 <= w < 0x8000_0000_0000_0000_0000_0000_0000_0000_0000_0000_0000_0000_0000_0000_0000_0000
    ensures w == v % P
  {
    ModulusValue();
  }

  /** The 32 bytes of five limbs of 51 bits. */
  method Pack(h0: nat, h1: nat, h2: nat, h3: nat, h4: nat) returns (s: seq<uint8>)
    requires h0 < 0x8_0000_0000_0000 && h1 < 0x8_0000_0000_0000 && h2 < 0x8_0000_0000_0000 && h3 < 0x8_0000_0000_0000 && h4 < 0x8_0000_0000_0000
    ensures |s| == 32
    ensures LE(s) == V5(h0, h1, h2, h3, h4)
  {
    hide *;
    PackRoom(h0, h1, h2, h3);
    s :=
      [ByteAt(h0, 0x1) as uint8, ByteAt(h0, 0x100) as uint8, ByteAt(h0, 0x1_0000) as uint8,
       ByteAt(h0, 0x100_0000) as uint8, ByteAt(h0, 0x1_0000_0000) as uint8, ByteAt(h0, 0x100_0000_0000) as uint8, Splice(High(h0, 0x1_0000_0000_0000), h1, 3),
       ByteAt(h1, 0x20) as uint8, ByteAt(h1, 0x2000) as uint8, ByteAt(h1, 0x20_0000) as uint8,
       ByteAt(h1, 0x2000_0000) as uint8, ByteAt(h1, 0x20_0000_0000) as uint8, Splice(High(h1, 0x2000_0000_0000), h2, 6),
       ByteAt(h2, 0x4) as uint8, ByteAt(h2, 0x400) as uint8, ByteAt(h2, 0x4_0000) as uint8,
       ByteAt(h2, 0x400_0000) as uint8, ByteAt(h2, 0x4_0000_0000) as uint8, ByteAt(h2, 0x400_0000_0000) as uint8, Splice(High(h2, 0x4_0000_0000_0000), h3, 1),
       ByteAt(h3, 0x80) as uint8, ByteAt(h3, 0x8000) as uint8, ByteAt(h3, 0x80_0000) as uint8,
       ByteAt(h3, 0x8000_0000) as uint8, ByteAt(h3, 0x80_0000_0000) as uint8, Splice(High(h3, 0x8000_0000_0000), h4, 4),
       ByteAt(h4, 0x10) as uint8, ByteAt(h4, 0x1000) as uint8, ByteAt(h4, 0x10_0000) as uint8,
       ByteAt(h4, 0x1000_0000) as uint8, ByteAt(h4, 0x10_0000_0000) as uint8, ByteAt(h4, 0x1000_0000_0000) as uint8];
    PackValue(s, h0, h1, h2, h3, h4);
  }

  lemma PackRoom(h0: nat, h1: nat, h2: nat, h3: nat)
    requires h0 < 0x8_0000_0000_0000 && h1 < 0x8_0000_0000_0000 && h2 < 0x8_0000_0000_0000 && h3 < 0x8_0000_0000_0000
    ensures High(h0, 0x1_0000_0000_0000) < Pow2(3) == 8 && High(h1, 0x2000_0000_0000) < Pow2(6) == 64 && High(h2, 0x4_0000_0000_0000) < Pow2(1) == 2 && High(h3, 0x8000_0000_0000) < Pow2(4) == 16
    ensures Pow2(5) == 32 && Pow2(2) == 4 && Pow2(7) == 128 && Pow2(4) == 16
  {
    PowersOfTwo();
  }

  lemma PackValue(s: seq<uint8>, h0: nat, h1: nat, h2: nat, h3: nat, h4: nat)
    requires h4 < 0x8_0000_0000_0000
    requires |s| == 32
    requires s[0] as int == ByteAt(h0, 0x1)
    requires s[1] as int == ByteAt(h0, 0x100)
    requires s[2] as int == ByteAt(h0, 0x1_0000)
    requires s[3] as int == ByteAt(h0, 0x100_0000)
    requires s[4] as int == ByteAt(h0, 0x1_0000_0000)
    requires s[5] as int == ByteAt(h0, 0x100_0000_0000)
    requires s[6] as int == High(h0, 0x1_0000_0000_0000) + 8 * Low(h1, 32)
    requires s[7] as int == ByteAt(h1, 0x20)
    requires s[8] as int == ByteAt(h1, 0x2000)
    requires s[9] as int == ByteAt(h1, 0x20_0000)
    requires s[10] as int == ByteAt(h1, 0x2000_0000)
    requires s[11] as int == ByteAt(h1, 0x20_0000_0000)
    requires s[12] as int == High(h1, 0x2000_0000_0000) + 64 * Low(h2, 4)
    requires s[13] as int == ByteAt(h2, 0x4)
    requires s[14] as int == ByteAt(h2, 0x400)
    requires s[15] as int == ByteAt(h2, 0x4_0000)
    requires s[16] as int == ByteAt(h2, 0x400_0000)
    requires s[17] as int == ByteAt(h2, 0x4_0000_0000)
    requires s[18] as int == ByteAt(h2, 0x400_0000_0000)
    requires s[19] as int == High(h2, 0x4_0000_0000_0000) + 2 * Low(h3, 128)
    requires s[20] as int == ByteAt(h3, 0x80)
    requires s[21] as int == ByteAt(h3, 0x8000)
    requires s[22] as int == ByteAt(h3, 0x80_0000)
    requires s[23] as int == ByteAt(h3, 0x8000_0000)
    requires s[24] as int == ByteAt(h3, 0x80_0000_0000)
    requires s[25] as int == High(h3, 0x8000_0000_0000) + 16 * Low(h4, 16)
    requires s[26] as int == ByteAt(h4, 0x10)
    requires s[27] as int == ByteAt(h4, 0x1000)
    requires s[28] as int == ByteAt(h4, 0x10_0000)
    requires s[29] as int == ByteAt(h4, 0x1000_0000)
    requires s[30] as int == ByteAt(h4, 0x10_0000_0000)
    requires s[31] as int == ByteAt(h4, 0x1000_0000_0000)
    ensures LE(s) == V5(h0, h1, h2, h3, h4)
  {
    hide *;
    LE32(s);
    ByteStep(h0, 0x1); ByteStep(h0, 0x100); ByteStep(h0, 0x1_0000); ByteStep(h0, 0x100_0000); ByteStep(h0, 0x1_0000_0000); ByteStep(h0, 0x100_0000_0000);
    HighLow(h0, 0x1);
    ByteStep(h1, 0x20); ByteStep(h1, 0x2000); ByteStep(h1, 0x20_0000); ByteStep(h1, 0x2000_0000); ByteStep(h1, 0x20_0000_0000);
    HighLow(h1, 0x20);
    ByteStep(h2, 0x4); ByteStep(h2, 0x400); ByteStep(h2, 0x4_0000); ByteStep(h2, 0x400_0000); ByteStep(h2, 0x4_0000_0000); ByteStep(h2, 0x400_0000_0000);
    HighLow(h2, 0x4);
    ByteStep(h3, 0x80); ByteStep(h3, 0x8000); ByteStep(h3, 0x80_0000); ByteStep(h3, 0x8000_0000); ByteStep(h3, 0x80_0000_0000);
    HighLow(h3, 0x80);
    ByteStep(h4, 0x10); ByteStep(h4, 0x1000); ByteStep(h4, 0x10_0000); ByteStep(h4, 0x1000_0000); ByteStep(h4, 0x10_0000_0000); ByteStep(h4, 0x1000_0000_0000);
    HighLow(h4, 0x10); HighLow(h4, 0x10_0000_0000_0000);
    PackedSum(s[0] as int, s[1] as int, s[2] as int, s[3] as int, s[4] as int, s[5] as int, s[6] as int, s[7] as int, s[8] as int, s[9] as int, s[10] as int, s[11] as int, s[12] as int, s[13] as int, s[14] as int, s[15] as int, s[16] as int, s[17] as int, s[18] as int, s[19] as int, s[20] as int, s[21] as int, s[22] as int, s[23] as int, s[24] as int, s[25] as int, s[26] as int, s[27] as int, s[28] as int, s[29] as int, s[30] as int, s[31] as int,
              h0, h1, h2, h3, h4, High(h0, 0x1_0000_0000_0000), High(h1, 0x2000_0000_0000), High(h2, 0x4_0000_0000_0000), High(h3, 0x8000_0000_0000),
              Low(h1, 32), Low(h2, 4), Low(h3, 128), Low(h4, 16));
  }

  lemma PackedSum(b0: int, b1: int, b2: int, b3: int, b4: int, b5: int, b6: int, b7: int, b8: int, b9: int, b10: int, b11: int, b12: int, b13: int, b14: int, b15: int, b16: int, b17: int, b18: int, b19: int, b20: int, b21: int, b22: int, b23: int, b24: int, b25: int, b26: int, b27: int, b28: int, b29: int, b30: int, b31: int,
                  h0: int, h1: int, h2: int, h3: int, h4: int, t0: int, t1: int, t2: int, t3: int,
                  u1: int, u2: int, u3: int, u4: int)
    requires b6 == t0 + 8 * u1
    requires b12 == t1 + 64 * u2
    requires b19 == t2 + 2 * u3
    requires b25 == t3 + 16 * u4
    requires h0 == b0 + 0x100 * b1 + 0x1_0000 * b2 + 0x100_0000 * b3 + 0x1_0000_0000 * b4 + 0x100_0000_0000 * b5 + 0x1_0000_0000_0000 * t0
    requires h1 == u1 + 0x20 * b7 + 0x2000 * b8 + 0x20_0000 * b9 + 0x2000_0000 * b10 + 0x20_0000_0000 * b11 + 0x2000_0000_0000 * t1
    requires h2 == u2 + 0x4 * b13 + 0x400 * b14 + 0x4_0000 * b15 + 0x400_0000 * b16 + 0x4_0000_0000 * b17 + 0x400_0000_0000 * b18 + 0x4_0000_0000_0000 * t2
    requires h3 == u3 + 0x80 * b20 + 0x8000 * b21 + 0x80_0000 * b22 + 0x8000_0000 * b23 + 0x80_0000_0000 * b24 + 0x8000_0000_0000 * t3
    requires h4 == u4 + 0x10 * b26 + 0x1000 * b27 + 0x10_0000 * b28 + 0x1000_0000 * b29 + 0x10_0000_0000 * b30 + 0x1000_0000_0000 * b31
    ensures Sum32(b0, b1, b2, b3, b4, b5, b6, b7, b8, b9, b10, b11, b12, b13, b14, b15, b16, b17, b18, b19, b20, b21, b22, b23, b24, b25, b26, b27, b28, b29, b30, b31) == V5(h0, h1, h2, h3, h4)
  {
  }

  /** Loading and storing gives back exactly the canonical strings: those that hold a number below p. */
  lemma CanonicalRoundTrip(s: seq<uint8>)
    requires |s| == 32
    ensures ToLE(LE(s) % 0x8000_0000_0000_0000_0000_0000_0000_0000_0000_0000_0000_0000_0000_0000_0000_0000 % P, 32) == s <==> LE(s) < P
  {
    ModulusValue();
    hide LE, ToLE;
    var r := LE(s) % 0x8000_0000_0000_0000_0000_0000_0000_0000_0000_0000_0000_0000_0000_0000_0000_0000 % P;
    FitsIn32Bytes(r);
    ToLEValue(r, 32);
    ToLEUnique(s);
  }
}
