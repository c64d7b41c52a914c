/**
 The fixed-width integers of the C source. Each operation on one of these types carries the obligation
 that its result fits, so a body that verifies has no overflow and no underflow.

 A right shift of a signed value is a floor division (Dafny's `/` by a positive constant), and masking
 with 2^k - 1 is a remainder. `|` and `^` are defined bit by bit.
 */
module CInts {
  newtype uint8 = x: int | 0 <= x < 0x100
  newtype int8 = x: int | -0x80 <= x < 0x80
  newtype uint32 = x: int | 0 <= x < 0x1_0000_0000
  newtype int32 = x: int | -0x8000_0000 <= x < 0x8000_0000
  newtype uint64 = x: int | 0 <= x < 0x1_0000_0000_0000_0000
  newtype int64 = x: int | -0x8000_0000_0000_0000 <= x < 0x8000_0000_0000_0000
  newtype uint128 = x: int | 0 <= x < 0x1_0000_0000_0000_0000_0000_0000_0000_0000

  function Pow2(k: nat): (r: nat)
    ensures r > 0
  {
    if k == 0 then 1 else 2 * Pow2(k - 1)
  }

  function BitOr(a: nat, b: nat): nat {
    if a == 0 && b == 0 then 0
    else (if a % 2 == 1 || b % 2 == 1 then 1 else 0) + 2 * BitOr(a / 2, b / 2)
  }

  function BitXor(a: nat, b: nat): nat {
    if a == 0 && b == 0 then 0
    else (if a % 2 != b % 2 then 1 else 0) + 2 * BitXor(a / 2, b / 2)
  }

  function BitAnd(a: nat, b: nat): nat {
    if a == 0 || b == 0 then 0
    else (if a % 2 == 1 && b % 2 == 1 then 1 else 0) + 2 * BitAnd(a / 2, b / 2)
  }

  lemma {:induction false} OrZero(a: nat)
    ensures BitOr(a, 0) == a == BitOr(0, a)
  {
    if a != 0 { OrZero(a / 2); }
  }

  /** Operands that occupy different bits are simply added. */
  lemma {:induction false} OrDisjoint(a: nat, b: nat, k: nat)
    requires a < Pow2(k)
    ensures BitOr(a, b * Pow2(k)) == a + b * Pow2(k) == BitOr(b * Pow2(k), a)
  {
    if k == 0 {
      OrZero(b);
    } else {
      var c := b * Pow2(k - 1);
      assert b * Pow2(k) == 2 * c;
      OrDisjoint(a / 2, b, k - 1);
      assert (2 * c) / 2 == c && (2 * c) % 2 == 0;
    }
  }

  /** Setting one bit. */
  lemma {:induction false} OrOneBit(x: nat, k: nat)
    ensures BitOr(x, Pow2(k)) == if x / Pow2(k) % 2 == 1 then x else x + Pow2(k)
  {
    if k == 0 {
      OrZero(x / 2);
    } else {
      hide BitOr;
      OrOneBit(x / 2, k - 1);
      NestedDiv(x, 2, Pow2(k - 1));
      OrStep(x, Pow2(k - 1));
    }
  }

  lemma OrStep(x: nat, m: nat)
    requires m > 0
    ensures BitOr(x, 2 * m) == x % 2 + 2 * BitOr(x / 2, m)
  {
    assert (2 * m) / 2 == m && (2 * m) % 2 == 0;
  }

  lemma {:induction false} XorZero(a: nat)
    ensures BitXor(a, 0) == a == BitXor(0, a)
  {
    if a != 0 { XorZero(a / 2); }
  }

  lemma {:induction false} XorDisjoint(a: nat, b: nat, k: nat)
    requires a < Pow2(k)
    ensures BitXor(a, b * Pow2(k)) == a + b * Pow2(k)
  {
    if k == 0 {
      XorZero(b);
    } else {
      var c := b * Pow2(k - 1);
      assert b * Pow2(k) == 2 * c;
      XorDisjoint(a / 2, b, k - 1);
      assert (2 * c) / 2 == c && (2 * c) % 2 == 0;
    }
  }

  /** Xor-ing twice with the same value gives the other one back: the basis of every conditional swap. */
  lemma {:induction false} XorTwice(a: nat, b: nat)
    ensures BitXor(a, BitXor(a, b)) == b
    ensures BitXor(b, BitXor(a, b)) == a
    ensures BitXor(a, b) == 0 <==> a == b
  {
    if a != 0 || b != 0 {
      XorTwice(a / 2, b / 2);
      var x := BitXor(a, b);
      assert x / 2 == BitXor(a / 2, b / 2) && x % 2 == (if a % 2 != b % 2 then 1 else 0);
      if a == 0 { XorZero(x); XorZero(b); }
      if b == 0 { XorZero(x); XorZero(a); }
      assert a == 2 * (a / 2) + a % 2 && b == 2 * (b / 2) + b % 2;
    }
  }

  lemma XorOfBits(a: nat, b: nat)
    requires a <= 1 && b <= 1
    ensures BitXor(a, b) == if a == b then 0 else 1
  {
    XorTwice(a, b);
  }

  lemma {:induction false} XorBelow(a: nat, b: nat, k: nat)
    requires a < Pow2(k) && b < Pow2(k)
    ensures BitXor(a, b) < Pow2(k)
  {
    if k != 0 { XorBelow(a / 2, b / 2, k - 1); }
  }

  /** Masking with 2^k - 1 is the remainder modulo 2^k. */
  lemma {:induction false} AndLowBits(a: nat, k: nat)
    ensures BitAnd(a, Pow2(k) - 1) == a % Pow2(k)
  {
    if k != 0 {
      var m := Pow2(k - 1);
      AndLowBits(a / 2, k - 1);
      assert (Pow2(k) - 1) / 2 == m - 1;
      var q, r := (a / 2) / m, (a / 2) % m;
      assert a == q * (2 * m) + (2 * r + a % 2);
      ModUnique(a, 2 * m, q, 2 * r + a % 2);
    }
  }

  lemma ProductAtLeast(x: int, m: int)
    requires x >= 1 && m > 0
    ensures x * m >= m
  {
    assert x * m == (x - 1) * m + m;
  }

  lemma ModUnique(a: int, m: int, q: int, r: int)
    requires m > 0 && a == q * m + r && 0 <= r < m
    ensures a / m == q && a % m == r
  {
    var d := q - a / m;
    assert d * m == q * m - (a / m) * m;
    assert d * m == a % m - r;
    if d >= 1 { ProductAtLeast(d, m); }
    if d <= -1 { ProductAtLeast(-d, m); }
  }

  lemma NestedDiv(x: nat, m: nat, n: nat)
    requires m > 0 && n > 0
    ensures m * n > 0 && (x / m) / n == x / (m * n)
  {
    var a, r := x / m, x % m;
    var q, t := a / n, a % n;
    ProductAtLeast(m, n);
    Monotone(t, n - 1, m);
    Expand(m, n, q, t);
    assert (n - 1) * m == m * n - m;
    ModUnique(x, m * n, q, t * m + r);
  }

  lemma Monotone(x: int, y: int, m: int)
    requires x <= y && m >= 0
    ensures x * m <= y * m
  {
  }

  lemma Expand(m: int, n: int, q: int, t: int)
    ensures m * (n * q + t) == q * (m * n) + t * m
  {
  }

  /** `(uint8_t)(x >> k)` for `m` = 2^k. */
  function ByteAt(x: nat, m: nat): (r: nat)
    requires m > 0
    ensures r < 0x100
  {
    x / m % 0x100
  }

  /** The bits of `x` from 2^k = `m` up. */
  function High(x: nat, m: nat): nat
    requires m > 0
  {
    x / m
  }

  /** The bits of `x` below 2^k = `m`. */
  function Low(x: nat, m: nat): nat
    requires m > 0
  {
    x % m
  }

  /** One byte of `x` and what lies above it. */
  lemma ByteStep(x: nat, m: nat)
    requires m > 0
    ensures High(x, m) == ByteAt(x, m) + 0x100 * High(x, 0x100 * m)
  {
    NestedDiv(x, m, 0x100);
  }

  lemma HighLow(x: nat, m: nat)
    requires m > 0
    ensures x == m * High(x, m) + Low(x, m) && 0 <= Low(x, m) < m
    ensures High(x, 1) == x
    ensures x < m ==> High(x, m) == 0
  {
    if x < m { ModUnique(x, m, 0, x); }
  }

  /** `(hi << k) | lo` for a `lo` that fits below. */
  function Join(hi: nat, lo: nat, k: nat): (r: nat)
    requires lo < Pow2(k)
    ensures r == hi * Pow2(k) + lo
  {
    OrDisjoint(lo, hi, k);
    BitOr(hi * Pow2(k), lo)
  }

  /** The mask `0 - b` of a word with `k` bits: all ones or all zeros. */
  function Mask(b: nat, k: nat): nat
    requires b <= 1
  {
    (Pow2(k) - b) % Pow2(k)
  }

  /** `x = f ^ g; x &= mask; f ^ x`: the branch-free choice between two words. */
  function Choose(f: nat, g: nat, b: nat, k: nat): (r: nat)
    requires b <= 1 && f < Pow2(k) && g < Pow2(k)
    ensures r == if b == 1 then g else f
  {
    ChooseValue(f, g, b, k);
    BitXor(f, BitAnd(BitXor(f, g), Mask(b, k)))
  }

  lemma ChooseValue(f: nat, g: nat, b: nat, k: nat)
    requires b <= 1 && f < Pow2(k) && g < Pow2(k)
    ensures BitXor(f, BitAnd(BitXor(f, g), Mask(b, k))) == if b == 1 then g else f
    ensures BitXor(g, BitAnd(BitXor(f, g), Mask(b, k))) == if b == 1 then f else g
  {
    if b == 1 {
      XorBelow(f, g, k);
      AndLowBits(BitXor(f, g), k);
      XorTwice(f, g);
      var x, m := BitXor(f, g), Pow2(k);
      ModUnique(x, m, 0, x);
      ModUnique(m - 1, m, 0, m - 1);
    } else {
      XorZero(f);
      XorZero(g);
      ModUnique(Pow2(k), Pow2(k), 1, 0);
    }
  }

  /**
   The byte `(uint8_t)(lo | ((uint32_t)hi << k))`, where `lo` is what is left of one limb: `k` low bits
   from `lo` and the other bits from `hi`.
   */
  function Splice(lo: nat, hi: nat, k: nat): (r: uint8)
    requires k <= 7 && lo < Pow2(k)
    ensures r as int == lo + Pow2(k) * Low(hi, Pow2(8 - k))
  {
    SpliceValue(lo, hi, k);
    (BitOr(lo, (hi * Pow2(k)) % 0x1_0000_0000) % 0x100) as uint8
  }

  lemma SpliceValue(lo: nat, hi: nat, k: nat)
    requires k <= 7 && lo < Pow2(k)
    ensures BitOr(lo, (hi * Pow2(k)) % 0x1_0000_0000) % 0x100 == lo + Pow2(k) * (hi % Pow2(8 - k)) < 0x100
  {
    hide BitOr, Pow2;
    PowersOfTwo();
    Pow2Add(k, 32 - k);
    Pow2Add(k, 8 - k);
    Pow2Add(8 - k, 24);
    var p, m, n := Pow2(k), Pow2(32 - k), Pow2(8 - k);
    var h := hi % m;
    Rescale(hi, p, m);
    assert (hi * p) % 0x1_0000_0000 == h * p;
    OrDisjoint(lo, h, k);
    LowByte(lo, h, p, n);
    NestedMod(hi, n, 0x100_0000);
    assert h % n == hi % n;
  }

  lemma LowByte(lo: nat, h: nat, p: nat, n: nat)
    requires lo < p && p * n == 0x100
    ensures n > 0 && (lo + h * p) % 0x100 == lo + p * (h % n) < 0x100
  {
    Rescale(h, p, n);
    var j := h % n;
    assert p * j <= p * (n - 1);
    ModUnique(lo + h * p, 0x100, h / n, lo + p * j);
  }

  lemma NestedMod(x: nat, n: nat, c: nat)
    requires n > 0 && c > 0
    ensures n * c > 0 && x % (n * c) % n == x % n
  {
    ProductAtLeast(n, c);
    var h := x % (n * c);
    var q := x / (n * c);
    assert x == q * (n * c) + h && h == (h / n) * n + h % n;
    Expand(n, c, q, h / n);
    ModUnique(x, n, q * c + h / n, h % n);
  }

  lemma Rescale(x: nat, p: nat, m: nat)
    requires p > 0 && m > 0
    ensures p * m > 0 && (x * p) % (p * m) == (x % m) * p && x * p == p * m * (x / m) + p * (x % m)
  {
    var q, r := x / m, x % m;
    ProductAtLeast(p, m);
    Monotone(r, m - 1, p);
    assert (m - 1) * p == p * m - p;
    Expand(p, m, q, r);
    ModUnique(x * p, p * m, q, r * p);
  }

  lemma PowersOfTwo()
    ensures Pow2(0) == 1 && Pow2(1) == 2 && Pow2(2) == 4 && Pow2(3) == 8 && Pow2(4) == 16 && Pow2(5) == 32
    ensures Pow2(6) == 64 && Pow2(7) == 128 && Pow2(8) == 256
    ensures Pow2(25) == 0x200_0000 && Pow2(26) == 0x400_0000 && Pow2(27) == 0x800_0000 && Pow2(28) == 0x1000_0000
    ensures Pow2(16) == 0x1_0000 && Pow2(24) == 0x100_0000 && Pow2(40) == 0x100_0000_0000 && Pow2(48) == 0x1_0000_0000_0000
    ensures Pow2(29) == 0x2000_0000 && Pow2(30) == 0x4000_0000 && Pow2(31) == 0x8000_0000 && Pow2(32) == 0x1_0000_0000
  {
    assert Pow2(8) == 0x100;
    assert Pow2(16) == 0x1_0000;
    assert Pow2(24) == 0x100_0000;
    assert Pow2(32) == 0x1_0000_0000;
    Pow2Add(8, 32);
    Pow2Add(16, 32);
  }

  lemma {:induction false} Pow2Add(a: nat, b: nat)
    ensures Pow2(a + b) == Pow2(a) * Pow2(b)
  {
    if a != 0 { Pow2Add(a - 1, b); }
  }

  /** The doublings used by the exponentiation chains. */
  lemma ChainPowers()
    ensures Pow2(10) == 0x400 && Pow2(20) == 0x10_0000
    ensures Pow2(50) == 0x4_0000_0000_0000 && Pow2(100) == 0x10_0000_0000_0000_0000_0000_0000
  {
    PowersOfTwo();
    Pow2Add(10, 10);
    Pow2Add(25, 25);
    Pow2Add(50, 50);
  }
}
