/**
 Arithmetic modulo p = 2^255 - 19. Field elements are integers taken up to congruence; a field element
 in reduced form lies in [0, p).

 That p is prime is used in one form only, Fermat's little theorem, and only where a lemma asks for it.
 */
module Field {
  import opened CInts

  /** p = 2^255 - 19, said without a numeral. */
  ghost predicate IsModulus(p: int) {
    p > 0 && exists k: nat {:trigger Pow2(k)} :: k == 255 && p + 19 == Pow2(k)
  }

  /** The modulus. Proofs about congruences use it as a symbol; `ModulusValue` says which number it is. */
  ghost function Modulus(): (p: int)
    ensures IsModulus(p) && p > 0
  {
    ModulusExists();
    var p :| IsModulus(p);
    p
  }

  ghost const P: int := Modulus()

  lemma ModulusExists()
    ensures IsModulus(0x7fffffffffffffffffffffffffffffffffffffffffffffffffffffffffffffed)
  {
    var k: nat := 255;
    PowerOf255();
    assert k == 255 && 0x7fffffffffffffffffffffffffffffffffffffffffffffffffffffffffffffed + 19 == Pow2(k);
  }

  lemma PowerOf255()
    ensures Pow2(255) == 0x8000000000000000000000000000000000000000000000000000000000000000
  {
    PowersOfTwo();
    hide Pow2;
    Pow2Add(31, 32);
    Pow2Add(63, 64);
    Pow2Add(32, 32);
    Pow2Add(64, 64);
    Pow2Add(127, 128);
  }

  lemma ModulusValue()
    ensures P == 0x7fffffffffffffffffffffffffffffffffffffffffffffffffffffffffffffed
  {
    PowerOf255();
  }

  /** a is k steps of p above b. */
  ghost predicate Apart(a: int, b: int, k: int)
    decreases if k >= 0 then k else -k
  {
    if k == 0 then a == b else if k > 0 then Apart(a, b + P, k - 1) else Apart(a, b - P, k + 1)
  }

  lemma {:induction false} ApartIs(a: int, b: int, k: int)
    ensures Apart(a, b, k) <==> a == b + P * k
    decreases if k >= 0 then k else -k
  {
    if k > 0 {
      ApartIs(a, b + P, k - 1);
      Distribute(P, k, 1);
    } else if k < 0 {
      ApartIs(a, b - P, k + 1);
      Distribute(P, k, 1);
    }
  }

  /** a and b differ by a multiple of p. */
  ghost predicate Cong(a: int, b: int) {
    exists k: int :: Apart(a, b, k)
  }

  /** The product by repeated addition, for definitions whose products proofs take as symbols until `MultIs` is called. */
  ghost function Mult(x: int, y: int): int
    decreases if y >= 0 then y else -y
  {
    if y == 0 then 0 else if y > 0 then Mult(x, y - 1) + x else Mult(x, y + 1) - x
  }

  lemma {:induction false} MultIs(x: int, y: int)
    ensures Mult(x, y) == x * y
    decreases if y >= 0 then y else -y
  {
    if y > 0 {
      MultIs(x, y - 1);
      Distribute(x, y, 1);
    } else if y < 0 {
      MultIs(x, y + 1);
      Distribute(x, y, 1);
    }
  }

  /** Multiplication under a name, so that proofs about sums of many products can keep it closed. */
  ghost function Times(x: int, y: int): int {
    x * y
  }

  lemma CongIntro(a: int, b: int, k: int)
    requires a == b + P * k
    ensures Cong(a, b)
  {
    ApartIs(a, b, k);
  }

  lemma CongElim(a: int, b: int) returns (k: int)
    requires Cong(a, b)
    ensures a == b + P * k
  {
    k :| Apart(a, b, k);
    ApartIs(a, b, k);
  }

  lemma CongRemainder(a: int, b: int)
    ensures Cong(a, b) <==> (a - b) % P == 0
  {
    if Cong(a, b) {
      var k := CongElim(a, b);
      assert P * k == k * P;
      ModUnique(a - b, P, k, 0);
    }
    if (a - b) % P == 0 {
      CongIntro(a, b, (a - b) / P);
    }
  }

  lemma CongRefl(a: int)
    ensures Cong(a, a)
  {
    CongIntro(a, a, 0);
  }

  lemma CongTrans(a: int, b: int, c: int)
    requires Cong(a, b) && Cong(b, c)
    ensures Cong(a, c)
  {
    var k := CongElim(a, b);
    var j := CongElim(b, c);
    Distribute(P, k, j);
    CongIntro(a, c, k + j);
  }

  lemma Distribute(p: int, k: int, j: int)
    ensures p * (k + j) == p * k + p * j && p * (k - j) == p * k - p * j && p * -k == -(p * k)
  {
  }

  lemma CongSwap(a: int, b: int)
    ensures Cong(a, b) <==> Cong(b, a)
  {
    if Cong(a, b) { var k := CongElim(a, b); Distribute(P, k, k); CongIntro(b, a, -k); }
    if Cong(b, a) { var k := CongElim(b, a); Distribute(P, k, k); CongIntro(a, b, -k); }
  }

  lemma CongMul(a: int, b: int, c: int, d: int)
    requires Cong(a, b) && Cong(c, d)
    ensures Cong(a * c, b * d)
  {
    var k := CongElim(a, b);
    var j := CongElim(c, d);
    hide Cong;
    ProductOfSums(P, b, k, d, j);
    CongIntro(a * c, b * d, k * d + b * j + P * (k * j));
  }

  lemma ProductOfSums(p: int, b: int, k: int, d: int, j: int)
    ensures (b + p * k) * (d + p * j) == b * d + p * (k * d + b * j + p * (k * j))
  {
  }

  lemma CongProduct(w: int, x: int, y: int, x': int, y': int)
    requires Cong(w, x * y) && Cong(x, x') && Cong(y, y')
    ensures Cong(w, x' * y')
  {
    CongMul(x, x', y, y');
    CongTrans(w, x * y, x' * y');
  }

  lemma CongDifference(w: int, x: int, y: int, x': int, y': int)
    requires Cong(w, x - y) && Cong(x, x') && Cong(y, y')
    ensures Cong(w, x' - y')
  {
    CongLinear(x, x', y, y');
    CongTrans(w, x - y, x' - y');
  }

  lemma CongLinear(a: int, b: int, c: int, d: int)
    requires Cong(a, b) && Cong(c, d)
    ensures Cong(a + c, b + d) && Cong(a - c, b - d) && Cong(-a, -b)
  {
    var k := CongElim(a, b);
    var j := CongElim(c, d);
    hide Cong;
    Distribute(P, k, j);
    CongIntro(a + c, b + d, k + j);
    CongIntro(a - c, b - d, k - j);
    CongIntro(-a, -b, -k);
  }

  lemma CongScale(a: int, b: int, k: int)
    requires Cong(a, b)
    ensures Cong(k * a, k * b)
  {
    CongRefl(k);
    CongMul(k, k, a, b);
  }

  lemma CongMod(a: int)
    ensures Cong(a % P, a) && Cong(a, a % P) && 0 <= a % P < P
  {
    CongIntro(a, a % P, a / P);
    CongSwap(a, a % P);
  }

  /** Congruent integers have the same remainder. */
  lemma CongSame(a: int, b: int)
    requires Cong(a, b)
    ensures a % P == b % P
    ensures 0 <= b < P ==> a % P == b
  {
    var k := CongElim(a, b);
    ModUnique(a, P, b / P + k, b % P);
    if 0 <= b < P { ModUnique(b, P, 0, b); }
  }

  lemma FitsIn32Bytes(r: int)
    requires 0 <= r < P
    ensures r < Pow2(256)
  {
    ModulusValue();
    PowersOfTwo();
    Pow2Add(32, 32);
    Pow2Add(64, 64);
    Pow2Add(128, 128);
  }

  // ---------------------------------------------------------------- powers

  ghost function Pow(z: int, n: nat): int
    decreases n, z
  {
    if n == 0 then 1 else z * Pow(z, n - 1)
  }

  lemma {:induction false} PowAdd(z: int, m: nat, n: nat)
    ensures Pow(z, m + n) == Pow(z, m) * Pow(z, n)
  {
    if m != 0 {
      PowAdd(z, m - 1, n);
      assert z * (Pow(z, m - 1) * Pow(z, n)) == (z * Pow(z, m - 1)) * Pow(z, n);
    }
  }

  lemma {:induction false} PowPow(z: int, m: nat, n: nat)
    ensures Pow(Pow(z, m), n) == Pow(z, m * n)
    decreases n
  {
    if n != 0 {
      PowPow(z, m, n - 1);
      assert m * n == m + m * (n - 1);
      PowAdd(z, m, m * (n - 1));
    }
  }

  lemma {:induction false} PowOfProduct(y: int, z: int, n: nat)
    ensures Pow(y * z, n) == Pow(y, n) * Pow(z, n)
    decreases n
  {
    if n != 0 {
      PowOfProduct(y, z, n - 1);
      SwapPairs(y, z, Pow(y, n - 1), Pow(z, n - 1));
    }
  }

  lemma SwapPairs(w: int, x: int, y: int, z: int)
    ensures (w * x) * (y * z) == (w * y) * (x * z)
  {
    assert (w * x) * (y * z) == w * (x * y) * z;
  }

  lemma {:induction false} PowCong(y: int, z: int, n: nat)
    requires Cong(y, z)
    ensures Cong(Pow(y, n), Pow(z, n))
    decreases n
  {
    if n == 0 {
      CongRefl(1);
    } else {
      PowCong(y, z, n - 1);
      CongMul(y, z, Pow(y, n - 1), Pow(z, n - 1));
    }
  }

  lemma PowOne(z: int)
    ensures Pow(z, 1) == z && Pow(z, 0) == 1
  {
    PowStep(z, 1);
  }

  /** Multiplying two powers of `z`, each known up to congruence. */
  lemma PowerProduct(w: int, x: int, y: int, z: int, m: nat, n: nat)
    requires Cong(x, Pow(z, m)) && Cong(y, Pow(z, n)) && Cong(w, x * y)
    ensures Cong(w, Pow(z, m + n))
  {
    hide Pow, Cong;
    PowAdd(z, m, n);
    CongMul(x, Pow(z, m), y, Pow(z, n));
    CongTrans(w, x * y, Pow(z, m + n));
  }

  // ---------------------------------------------------------------- inverses

  ghost predicate FermatAt(z: int) {
    z % P != 0 ==> Cong(Pow(z, P - 1), 1)
  }

  /** Fermat's little theorem for p: what the primality of p gives. */
  ghost predicate Fermat() {
    forall z {:trigger FermatAt(z)} :: FermatAt(z)
  }

  /** The inverse that RFC 7748 and RFC 8032 compute: z^(p-2), in reduced form; 0 has inverse 0. */
  ghost function Inv(z: int): (r: int)
    ensures 0 <= r < P
  {
    Pow(z, P - 2) % P
  }

  lemma InvTimes(z: int)
    requires Fermat() && z % P != 0
    ensures Cong(z * Inv(z), 1)
  {
    assert FermatAt(z);
    hide Pow, Cong;
    PowStep(z, P - 1);
    CongMod(Pow(z, P - 2));
    CongScale(Inv(z), Pow(z, P - 2), z);
    CongTrans(z * Inv(z), Pow(z, P - 1), 1);
  }

  lemma PowStep(z: int, n: nat)
    requires n > 0
    ensures Pow(z, n) == z * Pow(z, n - 1)
  {
  }

  /** A nonzero factor can be cancelled. */
  lemma Cancel(z: int, a: int, b: int)
    requires Fermat() && z % P != 0
    requires Cong(z * a, z * b)
    ensures Cong(a, b)
  {
    InvTimes(z);
    CancelBy(z, Inv(z), a, b);
  }

  lemma CancelBy(z: int, i: int, a: int, b: int)
    requires Cong(z * i, 1) && Cong(z * a, z * b)
    ensures Cong(a, b)
  {
    hide Cong;
    CongRefl(i);
    CongRefl(a);
    CongRefl(b);
    CongMul(z * a, z * b, i, i);
    SwapFactors(z, a, i);
    SwapFactors(z, b, i);
    CongMul(z * i, 1, a, a);
    CongMul(z * i, 1, b, b);
    Regroup((z * i) * a, (z * i) * b, a, b);
  }

  lemma Regroup(x: int, y: int, a: int, b: int)
    requires Cong(x, y) && Cong(x, a) && Cong(y, b)
    ensures Cong(a, b)
  {
    CongSwap(x, a);
    CongTrans(a, x, y);
    CongTrans(a, y, b);
  }

  lemma SwapFactors(x: int, y: int, z: int)
    ensures (x * y) * z == (x * z) * y
  {
  }

  lemma NonzeroProduct(y: int, z: int)
    requires Fermat() && y % P != 0 && z % P != 0
    ensures (y * z) % P != 0
  {
    hide Fermat;
    CongRemainder(y * z, 0);
    CongRemainder(z, 0);
    if (y * z) % P == 0 {
      hide Cong;
      assert y * 0 == 0;
      Cancel(y, z, 0);
    }
  }
}
