/**
 The twisted Edwards curve -x^2 + y^2 = 1 + d x^2 y^2 over the field of p elements, with the addition law of
 section 5.1.4 of RFC 8032. Points are affine and reduced.

 What is taken from number theory appears as two predicates that lemmas ask for: `Fermat` (p is prime) and
 `NonSquare` (d has no square root modulo p). From them it is proved here that the law is complete and closed
 and has an identity and inverses; module Associativity adds that it is associative.
 */
module Edwards {
  import opened CInts
  import opened Field

  const SQRTM1: int := 0x2b8324804fc1df0b2b4d00993dfbd7a72f431806ad2fe478c4ee1b274a0ea0b0

  lemma RootOfMinusOne()
    ensures Cong(SQRTM1 * SQRTM1, -1)
  {
    ModulusValue();
    CongRemainder(SQRTM1 * SQRTM1, -1);
  }

  ghost predicate IsCurveConstant(d: int) {
    0 <= d < P && Cong(121666 * d, -121665)
  }

  /** d = -121665/121666 modulo p. Proofs about points use it as a symbol; `ConstantValue` says which number it is. */
  ghost function CurveConstant(): (d: int)
    ensures IsCurveConstant(d)
  {
    ConstantExists();
    var d :| IsCurveConstant(d);
    d
  }

  ghost const D: int := CurveConstant()

  lemma ConstantExists()
    ensures IsCurveConstant(0x52036cee2b6ffe738cc740797779e89800700a4d4141d8ab75eb4dca135978a3)
  {
    ModulusValue();
    CongRemainder(121666 * 0x52036cee2b6ffe738cc740797779e89800700a4d4141d8ab75eb4dca135978a3, -121665);
  }

  /** Whatever has the property of d is congruent to d. */
  lemma ConstantUnique(e: int)
    requires Cong(121666 * e, -121665)
    ensures Cong(e, D)
  {
    ModulusValue();
    var i := 0x52036cee2b6ffe738cc740797779e89800700a4d4141d8ab75eb4dca135978a4;
    CongRemainder(121666 * i, 1);
    hide *;
    DefiningProperty();
    CongSwap(121666 * D, -121665);
    CongTrans(121666 * e, -121665, 121666 * D);
    CancelBy(121666, i, e, D);
  }

  lemma DefiningProperty()
    ensures IsCurveConstant(D) && 0 <= D < P && Cong(121666 * D, -121665)
  {
  }

  lemma ConstantValue()
    ensures D == 0x52036cee2b6ffe738cc740797779e89800700a4d4141d8ab75eb4dca135978a3
  {
    ModulusValue();
    var e := 0x52036cee2b6ffe738cc740797779e89800700a4d4141d8ab75eb4dca135978a3;
    ConstantExists();
    DefiningProperty();
    ConstantUnique(e);
    CongSame(e, D);
    ModUnique(e, P, 0, e);
  }

  ghost predicate SquareRootOf(r: int, z: int) {
    Cong(r * r, z)
  }

  /** d is not a square modulo p. */
  ghost predicate NonSquare() {
    forall r {:trigger SquareRootOf(r, D)} :: !SquareRootOf(r, D)
  }

  datatype Point = Point(x: int, y: int)

  /** -x^2 + y^2 = 1 + d x^2 y^2 */
  ghost predicate CurveEquation(x: int, y: int) {
    Cong(Mult(y, y) - Mult(x, x), 1 + Mult(D, Mult(Mult(x, x), Mult(y, y))))
  }

  lemma CurveMeaning(x: int, y: int)
    ensures CurveEquation(x, y) <==> Cong(y * y - x * x, 1 + D * ((x * x) * (y * y)))
  {
    hide Cong;
    MultIs(x, x);
    MultIs(y, y);
    MultIs(x * x, y * y);
    MultIs(D, (x * x) * (y * y));
  }

  ghost predicate OnCurve(p: Point) {
    && 0 <= p.x < P
    && 0 <= p.y < P
    && CurveEquation(p.x, p.y)
  }

  ghost function Cross(p: Point, q: Point): int {
    D * ((p.x * q.x) * (p.y * q.y))
  }

  ghost function XNumerator(p: Point, q: Point): int {
    p.x * q.y + q.x * p.y
  }

  ghost function YNumerator(p: Point, q: Point): int {
    p.y * q.y + p.x * q.x
  }

  /** The sum of two points: section 5.1.4 of RFC 8032. */
  ghost function Add(p: Point, q: Point): Point {
    Point((XNumerator(p, q) * Inv(1 + Cross(p, q))) % P, (YNumerator(p, q) * Inv(1 - Cross(p, q))) % P)
  }

  const O := Point(0, 1)

  ghost function Neg(p: Point): Point {
    Point((-p.x) % P, p.y)
  }

  // ---------------------------------------------------------------- congruences from identities

  /** A difference that is a multiple of something congruent to 0. */
  lemma ByMultiple(a: int, b: int, e: int, c: int)
    requires Cong(e, 0) && a - b == e * c
    ensures Cong(a, b)
  {
    var k := CongElim(e, 0);
    assert a == b + P * (k * c);
    CongIntro(a, b, k * c);
  }

  /** A difference that two such multiples make up. */
  lemma ByMultiples(a: int, b: int, e1: int, c1: int, e2: int, c2: int)
    requires Cong(e1, 0) && Cong(e2, 0) && a - b == e1 * c1 + e2 * c2
    ensures Cong(a, b)
  {
    ByMultiple(a, a - e1 * c1, e1, c1);
    ByMultiple(a - e1 * c1, b, e2, c2);
    CongTrans(a, a - e1 * c1, b);
  }

  lemma CongZero(a: int, b: int)
    ensures Cong(a, b) <==> Cong(a - b, 0)
    ensures Cong(a, 0) <==> a % P == 0
  {
    CongRemainder(a, 0);
    OffsetIsZero(a, b);
  }

  lemma OffsetIsZero(a: int, b: int)
    ensures Cong(a, b) <==> Cong(a - b, 0)
  {
    if Cong(a, b) { var k := CongElim(a, b); CongIntro(a - b, 0, k); }
    if Cong(a - b, 0) { var k := CongElim(a - b, 0); CongIntro(a, b, k); }
  }

  // ---------------------------------------------------------------- completeness

  /** The excess of the curve equation at (x, y). */
  ghost function Excess(x: int, y: int): int {
    y * y - x * x - 1 - D * ((x * x) * (y * y))
  }

  lemma ExcessIsZero(x: int, y: int)
    ensures CurveEquation(x, y) <==> Cong(Excess(x, y), 0)
  {
    CurveMeaning(x, y);
    hide CurveEquation, Cong;
    var a, b := y * y - x * x, 1 + D * ((x * x) * (y * y));
    OffsetIsZero(a, b);
    assert Excess(x, y) == a - b;
  }

  /**
   If d x1 x2 y1 y2 = e with e = 1 or -1, then (s x1 + e y1)^2 = d (x1 y1)^2 (y2 + s x2)^2 for each square
   root s of -1.
   */
  lemma SquareOfSum(x1: int, y1: int, x2: int, y2: int, s: int, e: int)
    requires CurveEquation(x1, y1) && CurveEquation(x2, y2)
    requires Cong(s * s, -1)
    requires e == 1 || e == -1
    requires Cong(D * ((x1 * x2) * (y1 * y2)), e)
    ensures Cong((s * x1 + e * y1) * (s * x1 + e * y1), D * ((x1 * y1) * (y2 + s * x2)) * ((x1 * y1) * (y2 + s * x2)))
  {
    var m, t := x1 * y1, D * ((x1 * x2) * (y1 * y2));
    var e1, e2 := Excess(x1, y1), Excess(x2, y2);
    ExcessIsZero(x1, y1);
    ExcessIsZero(x2, y2);
    CongZero(s * s, -1);
    CongZero(t, e);
    var a, b := (s * x1 + e * y1) * (s * x1 + e * y1), D * (m * (y2 + s * x2)) * (m * (y2 + s * x2));
    SquareIdentity(D, x1, y1, x2, y2, s, e);
    var c := a - (s * s + 1) * (x1 * x1 - D * (m * m) * (x2 * x2)) - e1 * 1;
    ByMultiples(a, c, s * s + 1, x1 * x1 - D * (m * m) * (x2 * x2), e1, 1);
    ByMultiples(c, b, e2, -D * (m * m), t - e, -(t + e) - 2 * s * m);
    CongTrans(a, c, b);
  }

  /** The identity behind it, over the integers. */
  lemma SquareIdentity(d: int, x1: int, y1: int, x2: int, y2: int, s: int, e: int)
    requires e == 1 || e == -1
    ensures (s * x1 + e * y1) * (s * x1 + e * y1) - d * ((x1 * y1) * (y2 + s * x2)) * ((x1 * y1) * (y2 + s * x2))
      == (s * s + 1) * (x1 * x1 - d * ((x1 * y1) * (x1 * y1)) * (x2 * x2))
         + (y1 * y1 - x1 * x1 - 1 - d * ((x1 * x1) * (y1 * y1)))
         + (y2 * y2 - x2 * x2 - 1 - d * ((x2 * x2) * (y2 * y2))) * (-d * ((x1 * y1) * (x1 * y1)))
         + (d * ((x1 * x2) * (y1 * y2)) - e) * (-(d * ((x1 * x2) * (y1 * y2)) + e) - 2 * s * (x1 * y1))
  {
    var m, u, t, z := x1 * y1, x2 * y2, d * ((x1 * x2) * (y1 * y2)), y2 + s * x2;
    var q, k := d * (m * m), d * ((x2 * x2) * (y2 * y2));
    assert (s * x1 + e * y1) * (s * x1 + e * y1) == (s * s) * (x1 * x1) + 2 * (e * (s * m)) + y1 * y1 by {
      if e == 1 { SquareOfBinomial(s, x1, y1); } else { SquareOfBinomial(s, x1, -y1); }
    }
    assert d * (m * z) * (m * z) == q * (z * z) by { Pull(d, m, z); }
    assert z * z == y2 * y2 + 2 * (s * u) + (s * s) * (x2 * x2) by { SquareOfBinomial(s, x2, y2); }
    assert d * ((x1 * x1) * (y1 * y1)) == q by { PairUp(x1, x1, y1, y1); }
    assert t == d * (m * u) by { PairUp(x1, x2, y1, y2); }
    assert k == d * (u * u) by { PairUp(x2, x2, y2, y2); }
    Powers(d, m, u);
    SquareTerms(q, k, s, m, u, t, e, x1 * x1, y1 * y1, x2 * x2, y2 * y2, s * s);
  }

  lemma SquareOfBinomial(s: int, x: int, y: int)
    ensures (s * x + y) * (s * x + y) == (s * s) * (x * x) + 2 * (s * (x * y)) + y * y
    ensures (y + s * x) * (y + s * x) == (s * x + y) * (s * x + y)
  {
    assert (s * x) * (s * x) == (s * s) * (x * x) by { SwapPairs(s, x, s, x); }
  }

  lemma Pull(d: int, m: int, z: int)
    ensures d * (m * z) * (m * z) == (d * (m * m)) * (z * z)
  {
    SwapPairs(m, z, m, z);
    assert d * (m * z) * (m * z) == d * ((m * z) * (m * z));
    assert d * ((m * m) * (z * z)) == (d * (m * m)) * (z * z);
  }

  lemma PairUp(a: int, b: int, c: int, e: int)
    ensures (a * b) * (c * e) == (a * c) * (b * e)
  {
    SwapPairs(a, b, c, e);
  }

  lemma Powers(d: int, m: int, u: int)
    ensures (d * (m * m)) * (d * (u * u)) == (d * (m * u)) * (d * (m * u))
    ensures (d * (m * m)) * u == (d * (m * u)) * m
  {
    SwapPairs(d, m * m, d, u * u);
    SwapPairs(d, m * u, d, m * u);
    SwapPairs(m, m, u, u);
  }

  lemma SquareTerms(q: int, k: int, s: int, m: int, u: int, t: int, e: int, X1: int, Y1: int, X2: int, Y2: int, S: int)
    requires q * k == t * t && q * u == t * m && e * e == 1
    ensures S * X1 + 2 * (e * (s * m)) + Y1 - q * (Y2 + 2 * (s * u) + S * X2)
      == (S + 1) * (X1 - q * X2) + (Y1 - X1 - 1 - q) + (Y2 - X2 - 1 - k) * -q + (t - e) * (-(t + e) - 2 * s * m)
  {
    assert q * (s * u) == s * (q * u);
    assert q * (S * X2) == S * (q * X2);
    assert (t - e) * (-(t + e) - 2 * s * m) == 1 - t * t - 2 * (s * (t * m)) + 2 * (e * (s * m));
  }

  /** If d times a nonzero square is a square, so is d. */
  lemma RootOfD(a: int, n: int)
    requires Fermat() && n % P != 0
    requires Cong(a * a, D * n * n)
    ensures SquareRootOf(a * Inv(n), D)
  {
    hide Inv, Fermat, Cong;
    InvTimes(n);
    ScaleSquares(D, a, n, Inv(n));
  }

  lemma ScaleSquares(d: int, a: int, n: int, i: int)
    requires Cong(a * a, d * n * n) && Cong(n * i, 1)
    ensures Cong((a * i) * (a * i), d)
  {
    hide Cong;
    CongMul(n * i, 1, n * i, 1);
    CongRefl(i * i);
    CongMul(a * a, d * n * n, i * i, i * i);
    CongScale((n * i) * (n * i), 1, d);
    assert (a * a) * (i * i) == (a * i) * (a * i) by { SwapPairs(a, a, i, i); }
    assert (d * n * n) * (i * i) == d * ((n * i) * (n * i)) by { Pull(d, n, i); }
    CongTrans((a * i) * (a * i), d * ((n * i) * (n * i)), d);
  }

  /** Two points never have d x1 x2 y1 y2 = 1 or -1. */
  lemma CrossIsNotUnit(p: Point, q: Point, e: int)
    requires Fermat() && NonSquare() && OnCurve(p) && OnCurve(q)
    requires e == 1 || e == -1
    ensures !Cong(Cross(p, q), e)
  {
    if Cong(Cross(p, q), e) {
      var s, m, t := SQRTM1, p.x * p.y, Cross(p, q);
      hide Inv, Cong, Fermat;
      RootOfMinusOne();
      SquareOfSum(p.x, p.y, q.x, q.y, s, e);
      SquareOfSum(p.x, p.y, q.x, q.y, -s, e);
      var n1, n2 := m * (q.y + s * q.x), m * (q.y + -s * q.x);
      assert (D * q.x) * (n1 + n2) == 2 * t by { TwiceCross(D, p.x, p.y, q.x, q.y, s); }
      TwiceUnit(t, e);
      if n1 % P != 0 {
        RootOfD(s * p.x + e * p.y, n1);
      } else if n2 % P != 0 {
        RootOfD(-s * p.x + e * p.y, n2);
      } else {
        ZeroSum(D * q.x, n1, n2);
      }
    }
  }

  lemma ZeroSum(k: int, n1: int, n2: int)
    requires n1 % P == 0 && n2 % P == 0
    ensures Cong(k * (n1 + n2), 0)
  {
    CongRemainder(n1, 0);
    CongRemainder(n2, 0);
    hide Cong;
    CongLinear(n1, 0, n2, 0);
    CongScale(n1 + n2, 0, k);
    assert k * 0 == 0;
  }

  lemma SumOfConjugates(m: int, y: int, z: int)
    ensures m * (y + z) + m * (y - z) == 2 * (m * y)
  {
  }

  lemma TwiceCross(d: int, x1: int, y1: int, x2: int, y2: int, s: int)
    ensures (d * x2) * ((x1 * y1) * (y2 + s * x2) + (x1 * y1) * (y2 + -s * x2)) == 2 * (d * ((x1 * x2) * (y1 * y2)))
  {
    assert -s * x2 == -(s * x2);
    SumOfConjugates(x1 * y1, y2, s * x2);
    assert (d * x2) * ((x1 * y1) * y2) == d * ((x1 * x2) * (y1 * y2)) by {
      assert x2 * ((x1 * y1) * y2) == (x1 * x2) * (y1 * y2);
    }
  }

  lemma TwiceUnit(t: int, e: int)
    requires Cong(t, e) && (e == 1 || e == -1)
    ensures !Cong(2 * t, 0)
  {
    CongScale(t, e, 2);
    CongRemainder(2 * e, 0);
    if Cong(2 * t, 0) {
      CongSwap(2 * t, 2 * e);
      CongTrans(2 * e, 2 * t, 0);
    }
  }

  /** The addition law is complete: its denominators are never 0. */
  lemma Complete(p: Point, q: Point)
    requires Fermat() && NonSquare() && OnCurve(p) && OnCurve(q)
    ensures (1 + Cross(p, q)) % P != 0
    ensures (1 - Cross(p, q)) % P != 0
  {
    var t := Cross(p, q);
    CrossIsNotUnit(p, q, 1);
    CrossIsNotUnit(p, q, -1);
    hide OnCurve, Cross, Fermat, NonSquare;
    NotUnit(t);
  }

  lemma NotUnit(t: int)
    requires !Cong(t, 1) && !Cong(t, -1)
    ensures (1 + t) % P != 0 && (1 - t) % P != 0
  {
    CongRemainder(t, -1);
    CongRemainder(t, 1);
    CongRemainder(1, t);
    CongSwap(1, t);
  }

  // ---------------------------------------------------------------- the law without division

  /** A quotient is the only reduced number that gives back its numerator. */
  lemma QuotientIs(x: int, n: int, k: int)
    requires Fermat() && k % P != 0
    ensures Cong((n * Inv(k)) % P * k, n)
    ensures 0 <= x < P && Cong(x * k, n) ==> (n * Inv(k)) % P == x
  {
    hide Inv, Cong, Fermat;
    var i, r := Inv(k), (n * Inv(k)) % P;
    InvTimes(k);
    CongMod(n * i);
    CongScale(r, n * i, k);
    CongScale(k * i, 1, n);
    assert n * (k * i) == k * (n * i) && n * 1 == n;
    CongTrans(k * r, k * (n * i), n);
    assert r * k == k * r && x * k == k * x;
    if 0 <= x < P && Cong(x * k, n) {
      CongSwap(n, k * x);
      CongTrans(k * r, n, k * x);
      Cancel(k, r, x);
      CongSame(r, x);
      ModUnique(r, P, 0, r);
    }
  }

  /** The sum is the one point whose coordinates give back the numerators. */
  lemma SumIs(p: Point, q: Point, r: Point)
    requires Fermat() && NonSquare() && OnCurve(p) && OnCurve(q)
    requires 0 <= r.x < P && 0 <= r.y < P
    requires Cong(r.x * (1 + Cross(p, q)), XNumerator(p, q))
    requires Cong(r.y * (1 - Cross(p, q)), YNumerator(p, q))
    ensures Add(p, q) == r
  {
    Complete(p, q);
    QuotientIs(r.x, XNumerator(p, q), 1 + Cross(p, q));
    QuotientIs(r.y, YNumerator(p, q), 1 - Cross(p, q));
  }

  lemma SumCoordinates(p: Point, q: Point)
    requires Fermat() && NonSquare() && OnCurve(p) && OnCurve(q)
    ensures 0 <= Add(p, q).x < P && 0 <= Add(p, q).y < P
    ensures Cong(Add(p, q).x * (1 + Cross(p, q)), XNumerator(p, q))
    ensures Cong(Add(p, q).y * (1 - Cross(p, q)), YNumerator(p, q))
  {
    Complete(p, q);
    QuotientIs(0, XNumerator(p, q), 1 + Cross(p, q));
    QuotientIs(0, YNumerator(p, q), 1 - Cross(p, q));
  }

  // ---------------------------------------------------------------- closure

  /**
   With every denominator multiplied out, the curve equation of a sum is the product of two factors, each
   congruent to 1 - t^2 when the two points are on the curve.
   */
  lemma SumIdentity(d: int, x1: int, y1: int, x2: int, y2: int, t: int, nx: int, ny: int, w1: int, w2: int, u1: int, u2: int)
    requires t == d * ((x1 * x2) * (y1 * y2))
    requires nx == x1 * y2 + x2 * y1 && ny == y1 * y2 + x1 * x2
    requires w1 == y1 * y1 - x1 * x1 && w2 == y2 * y2 - x2 * x2
    requires u1 == d * ((x1 * x1) * (y1 * y1)) && u2 == d * ((x2 * x2) * (y2 * y2))
    ensures (ny * ny) * ((1 + t) * (1 + t)) - (nx * nx) * ((1 - t) * (1 - t)) - d * ((nx * nx) * (ny * ny))
      == (w1 - u1 * w2) * (w2 - u2 * w1)
    ensures u1 * u2 == t * t
  {
    var v1, v2, s1, s2 := x1 * y1, x2 * y2, y1 * y1 + x1 * x1, y2 * y2 + x2 * x2;
    var m := v1 * v2;
    assert u1 == d * (v1 * v1) by { PairUp(x1, x1, y1, y1); }
    assert u2 == d * (v2 * v2) by { PairUp(x2, x2, y2, y2); }
    assert t == d * m by { PairUp(x1, x2, y1, y2); }
    Powers(d, v1, v2);
    assert ny * ny - nx * nx == w1 * w2 && ny * ny + nx * nx == s1 * s2 + 4 * m && nx * ny == v1 * s2 + v2 * s1 by {
      DifferenceOfSquares(x1, y1, x2, y2);
      SumOfSquares(x1, y1, x2, y2);
      ProductOfNumerators(x1, y1, x2, y2);
    }
    assert d * ((nx * nx) * (ny * ny)) == u1 * (s2 * s2) + u2 * (s1 * s1) + 2 * (t * (s1 * s2)) by {
      SwapPairs(nx, nx, ny, ny);
      SquareOfNumerators(d, v1, s2, v2, s1);
    }
    assert s1 * s1 == w1 * w1 + 4 * (v1 * v1) by { SumAndDifference(x1, y1); }
    assert s2 * s2 == w2 * w2 + 4 * (v2 * v2) by { SumAndDifference(x2, y2); }
    assert u1 * (v2 * v2) == t * m && u2 * (v1 * v1) == t * m by { CrossPowers(d, v1, v2); }
    SumTerms(ny * ny, nx * nx, t, m, w1, w2, u1, u2, s1 * s2, s1 * s1, s2 * s2, v1 * v1, v2 * v2);
  }

  lemma DifferenceOfSquares(x1: int, y1: int, x2: int, y2: int)
    ensures (y1 * y2 + x1 * x2) * (y1 * y2 + x1 * x2) - (x1 * y2 + x2 * y1) * (x1 * y2 + x2 * y1)
      == (y1 * y1 - x1 * x1) * (y2 * y2 - x2 * x2)
  {
  }

  lemma SumOfSquares(x1: int, y1: int, x2: int, y2: int)
    ensures (y1 * y2 + x1 * x2) * (y1 * y2 + x1 * x2) + (x1 * y2 + x2 * y1) * (x1 * y2 + x2 * y1)
      == (y1 * y1 + x1 * x1) * (y2 * y2 + x2 * x2) + 4 * ((x1 * y1) * (x2 * y2))
  {
  }

  lemma ProductOfNumerators(x1: int, y1: int, x2: int, y2: int)
    ensures (x1 * y2 + x2 * y1) * (y1 * y2 + x1 * x2)
      == (x1 * y1) * (y2 * y2 + x2 * x2) + (x2 * y2) * (y1 * y1 + x1 * x1)
  {
  }

  lemma SumAndDifference(x: int, y: int)
    ensures (y * y + x * x) * (y * y + x * x) == (y * y - x * x) * (y * y - x * x) + 4 * ((x * y) * (x * y))
  {
  }

  lemma SquareOfNumerators(d: int, v: int, s: int, w: int, r: int)
    ensures d * ((v * s + w * r) * (v * s + w * r))
      == (d * (v * v)) * (s * s) + (d * (w * w)) * (r * r) + 2 * ((d * (v * w)) * (r * s))
  {
    assert (v * s + w * r) * (v * s + w * r) == (v * s) * (v * s) + (w * r) * (w * r) + 2 * ((v * s) * (w * r));
    SwapPairs(v, s, v, s);
    SwapPairs(w, r, w, r);
    SwapPairs(v, s, w, r);
    assert d * ((v * v) * (s * s)) == (d * (v * v)) * (s * s);
    assert d * ((w * w) * (r * r)) == (d * (w * w)) * (r * r);
    assert d * ((v * w) * (s * r)) == (d * (v * w)) * (r * s);
  }

  lemma CrossPowers(d: int, v: int, w: int)
    ensures (d * (v * v)) * (w * w) == (d * (v * w)) * (v * w)
    ensures (d * (w * w)) * (v * v) == (d * (v * w)) * (v * w)
  {
    SwapPairs(v, v, w, w);
  }

  lemma SumTerms(M: int, N: int, t: int, m: int, w1: int, w2: int, u1: int, u2: int, s: int, S1: int, S2: int, V1: int, V2: int)
    requires M - N == w1 * w2 && M + N == s + 4 * m
    requires S1 == w1 * w1 + 4 * V1 && S2 == w2 * w2 + 4 * V2
    requires u1 * V2 == t * m && u2 * V1 == t * m && u1 * u2 == t * t
    ensures M * ((1 + t) * (1 + t)) - N * ((1 - t) * (1 - t)) - (u1 * S2 + u2 * S1 + 2 * (t * s))
      == (w1 - u1 * w2) * (w2 - u2 * w1)
  {
    assert M * ((1 + t) * (1 + t)) - N * ((1 - t) * (1 - t)) == (M - N) * (1 + t * t) + 2 * (t * (M + N));
    assert u1 * S2 == u1 * (w2 * w2) + 4 * (t * m);
    assert u2 * S1 == u2 * (w1 * w1) + 4 * (t * m);
    assert (w1 - u1 * w2) * (w2 - u2 * w1) == w1 * w2 - u2 * (w1 * w1) - u1 * (w2 * w2) + (u1 * u2) * (w1 * w2);
  }

  /** Multiplying the curve equation of a quotient point by its denominators. */
  lemma ClearedEquation(d: int, x: int, y: int, dx: int, dy: int, nx: int, ny: int)
    requires Cong(x * dx, nx) && Cong(y * dy, ny)
    requires Cong((ny * ny) * (dx * dx) - (nx * nx) * (dy * dy) - d * ((nx * nx) * (ny * ny)), (dx * dx) * (dy * dy))
    ensures Cong(((dx * dx) * (dy * dy)) * (y * y - x * x), ((dx * dx) * (dy * dy)) * (1 + d * ((x * x) * (y * y))))
  {
    hide Cong;
    var X, Y, N, M, A, B := (x * dx) * (x * dx), (y * dy) * (y * dy), nx * nx, ny * ny, dx * dx, dy * dy;
    CongMul(x * dx, nx, x * dx, nx);
    CongMul(y * dy, ny, y * dy, ny);
    CongRefl(A);
    CongRefl(B);
    CongMul(Y, M, A, A);
    CongMul(X, N, B, B);
    CongMul(X, N, Y, M);
    CongScale(X * Y, N * M, d);
    assert X == (x * x) * A by { SwapPairs(x, dx, x, dx); }
    assert Y == (y * y) * B by { SwapPairs(y, dy, y, dy); }
    ClearedTerms(d, x * x, y * y, A, B);
    CombineTerms(Y * A, X * B, d * (X * Y), M * A, N * B, d * (N * M), A * B,
                 (A * B) * (y * y - x * x), (A * B) * (1 + d * ((x * x) * (y * y))));
  }

  lemma ClearedTerms(d: int, x: int, y: int, A: int, B: int)
    ensures (A * B) * (y - x) == (y * B) * A - (x * A) * B
    ensures (A * B) * (1 + d * (x * y)) == A * B + d * ((x * A) * (y * B))
  {
    SwapPairs(x, A, y, B);
  }

  lemma CombineTerms(a: int, b: int, c: int, a': int, b': int, c': int, k: int, l: int, r: int)
    requires Cong(a, a') && Cong(b, b') && Cong(c, c') && Cong(a' - b' - c', k)
    requires l == a - b && r == k + c
    ensures Cong(l, r)
  {
    hide Cong;
    CongSwap(a' - b' - c', k);
    CongLinear(a, a', b, b');
    CongLinear(k, a' - b' - c', c, c');
    CongSwap(k + c, a' - b');
    CongTrans(a - b, a' - b', k + c);
  }

  /** The two factors of `SumIdentity` are both congruent to 1 - t^2. */
  lemma Factors(t: int, w1: int, w2: int, u1: int, u2: int)
    requires Cong(w1, 1 + u1) && Cong(w2, 1 + u2) && u1 * u2 == t * t
    ensures Cong((w1 - u1 * w2) * (w2 - u2 * w1), ((1 + t) * (1 + t)) * ((1 - t) * (1 - t)))
  {
    OneFactor(t, w1, w2, u1, u2);
    OneFactor(t, w2, w1, u2, u1);
    hide Cong;
    CongMul(w1 - u1 * w2, 1 - t * t, w2 - u2 * w1, 1 - t * t);
    assert (1 + t) * (1 - t) == 1 - t * t;
    SwapPairs(1 + t, 1 - t, 1 + t, 1 - t);
  }

  lemma OneFactor(t: int, w1: int, w2: int, u1: int, u2: int)
    requires Cong(w1, 1 + u1) && Cong(w2, 1 + u2) && u1 * u2 == t * t
    ensures Cong(w1 - u1 * w2, 1 - t * t)
  {
    hide Cong;
    CongScale(w2, 1 + u2, u1);
    CongLinear(w1, 1 + u1, u1 * w2, u1 * (1 + u2));
    assert u1 * (1 + u2) == u1 + t * t;
  }

  /** The sum of two points of the curve is on the curve. */
  lemma Closed(p: Point, q: Point)
    requires Fermat() && NonSquare() && OnCurve(p) && OnCurve(q)
    ensures OnCurve(Add(p, q))
  {
    SumCoordinates(p, q);
    Complete(p, q);
    SumOnCurve(p.x, p.y, q.x, q.y, Cross(p, q), Add(p, q).x, Add(p, q).y);
  }

  lemma SumOnCurve(x1: int, y1: int, x2: int, y2: int, t: int, x: int, y: int)
    requires Fermat() && CurveEquation(x1, y1) && CurveEquation(x2, y2)
    requires t == D * ((x1 * x2) * (y1 * y2))
    requires (1 + t) % P != 0 && (1 - t) % P != 0
    requires Cong(x * (1 + t), x1 * y2 + x2 * y1)
    requires Cong(y * (1 - t), y1 * y2 + x1 * x2)
    ensures CurveEquation(x, y)
  {
    CurveMeaning(x1, y1);
    CurveMeaning(x2, y2);
    CurveMeaning(x, y);
    hide CurveEquation;
    var nx, ny := x1 * y2 + x2 * y1, y1 * y2 + x1 * x2;
    var w1, w2 := y1 * y1 - x1 * x1, y2 * y2 - x2 * x2;
    var u1, u2 := D * ((x1 * x1) * (y1 * y1)), D * ((x2 * x2) * (y2 * y2));
    hide Cong, Fermat;
    SumIdentity(D, x1, y1, x2, y2, t, nx, ny, w1, w2, u1, u2);
    Factors(t, w1, w2, u1, u2);
    ClearedEquation(D, x, y, 1 + t, 1 - t, nx, ny);
    NonzeroProduct(1 + t, 1 + t);
    NonzeroProduct(1 - t, 1 - t);
    NonzeroProduct((1 + t) * (1 + t), (1 - t) * (1 - t));
    Cancel(((1 + t) * (1 + t)) * ((1 - t) * (1 - t)), y * y - x * x, 1 + D * ((x * x) * (y * y)));
  }

  // ---------------------------------------------------------------- identity and inverses

  lemma Commutes(p: Point, q: Point)
    ensures Add(p, q) == Add(q, p)
  {
    hide Inv;
    assert Cross(p, q) == Cross(q, p) by {
      assert p.x * q.x == q.x * p.x && p.y * q.y == q.y * p.y;
    }
    assert XNumerator(p, q) == XNumerator(q, p);
    assert YNumerator(p, q) == YNumerator(q, p) by {
      assert p.x * q.x == q.x * p.x && p.y * q.y == q.y * p.y;
    }
  }

  lemma OriginOnCurve()
    ensures OnCurve(O)
  {
    CurveMeaning(0, 1);
    CongRefl(1);
  }

  lemma NegOnCurve(p: Point)
    requires OnCurve(p)
    ensures OnCurve(Neg(p)) && Neg(Neg(p)) == p
    ensures Cong(Neg(p).x, -p.x) && Neg(p).y == p.y
  {
    var x := Neg(p).x;
    CongMod(-p.x);
    SameSquare(x, p.x);
    CurveFromSquare(x, p.x, p.y);
    Involution(p.x);
  }

  lemma SameSquare(x: int, z: int)
    requires Cong(x, -z)
    ensures Cong(x * x, z * z)
  {
    hide Cong;
    CongMul(x, -z, x, -z);
    assert -z * -z == z * z;
  }

  lemma CurveFromSquare(x: int, z: int, y: int)
    requires Cong(x * x, z * z) && CurveEquation(z, y)
    ensures CurveEquation(x, y)
  {
    CurveMeaning(z, y);
    CurveMeaning(x, y);
    hide CurveEquation;
    var X, Z, Y := x * x, z * z, y * y;
    hide Cong;
    CongRefl(Y);
    CongMul(X, Z, Y, Y);
    CongScale(X * Y, Z * Y, D);
    Transport(Y, X, Z, D * (X * Y), D * (Z * Y));
  }

  lemma Transport(Y: int, X: int, Z: int, a: int, b: int)
    requires Cong(X, Z) && Cong(a, b) && Cong(Y - Z, 1 + b)
    ensures Cong(Y - X, 1 + a)
  {
    hide Cong;
    CongRefl(Y);
    CongRefl(1);
    CongLinear(Y, Y, X, Z);
    CongLinear(1, 1, a, b);
    CongSwap(1 + a, 1 + b);
    CongTrans(Y - X, Y - Z, 1 + b);
    CongTrans(Y - X, 1 + b, 1 + a);
  }

  lemma Involution(x: int)
    requires 0 <= x < P
    ensures (-((-x) % P)) % P == x
  {
    if x == 0 {
      ModUnique(0, P, 0, 0);
    } else {
      ModUnique(-x, P, -1, P - x);
      ModUnique(-(P - x), P, -1, x);
    }
  }

  lemma AddOrigin(p: Point)
    requires Fermat() && NonSquare() && OnCurve(p)
    ensures Add(p, O) == p && Add(O, p) == p
  {
    OriginOnCurve();
    assert Cross(p, O) == 0 && XNumerator(p, O) == p.x && YNumerator(p, O) == p.y;
    CongRefl(p.x);
    CongRefl(p.y);
    SumIs(p, O, p);
    Commutes(p, O);
  }

  lemma AddNeg(p: Point)
    requires Fermat() && NonSquare() && OnCurve(p)
    ensures Add(p, Neg(p)) == O && Add(Neg(p), p) == O
  {
    var q := Neg(p);
    NegOnCurve(p);
    OriginOnCurve();
    NegCoordinates(p.x, p.y, q.x);
    SumIs(p, q, O);
    Commutes(p, q);
  }

  lemma NegCoordinates(x: int, y: int, z: int)
    requires Cong(z, -x) && CurveEquation(x, y)
    ensures Cong(0, x * y + z * y)
    ensures Cong(1 - D * ((x * z) * (y * y)), y * y + x * z)
  {
    CurveMeaning(x, y);
    hide CurveEquation;
    var X, Y := x * x, y * y;
    hide Cong;
    CongScale(z, -x, y);
    CongScale(z, -x, x);
    assert x * -x == -X && y * -x == -(x * y) && y * z == z * y;
    CongRefl(Y);
    CongMul(x * z, -X, Y, Y);
    assert -X * Y == -(X * Y);
    CongScale((x * z) * Y, -(X * Y), D);
    assert D * -(X * Y) == -(D * (X * Y));
    SumsOfNeg(x * y, z * y, Y, X, x * z, D * ((x * z) * Y), D * (X * Y));
  }

  lemma SumsOfNeg(a: int, b: int, Y: int, X: int, w: int, c: int, e: int)
    requires Cong(b, -a) && Cong(w, -X) && Cong(c, -e) && Cong(Y - X, 1 + e)
    ensures Cong(0, a + b) && Cong(1 - c, Y + w)
  {
    hide Cong;
    CongRefl(a);
    CongRefl(1);
    CongRefl(Y);
    CongLinear(a, a, b, -a);
    CongSwap(0, a + b);
    CongLinear(1, 1, c, -e);
    CongLinear(Y, Y, w, -X);
    CongTrans(Y + w, Y - X, 1 + e);
    CongSwap(Y + w, 1 + e);
    CongTrans(1 - c, 1 + e, Y + w);
  }

  /** Negation distributes over addition. */
  lemma NegAdd(p: Point, q: Point)
    requires Fermat() && NonSquare() && OnCurve(p) && OnCurve(q)
    ensures Add(Neg(p), Neg(q)) == Neg(Add(p, q))
  {
    var r := Add(p, q);
    NegOnCurve(p);
    NegOnCurve(q);
    Closed(p, q);
    NegOnCurve(r);
    SumCoordinates(p, q);
    NegatedSum(p.x, p.y, q.x, q.y, Neg(p).x, Neg(q).x, r.x, r.y, Neg(r).x);
    SumIs(Neg(p), Neg(q), Neg(r));
  }

  lemma NegatedSum(x1: int, y1: int, x2: int, y2: int, z1: int, z2: int, x: int, y: int, z: int)
    requires Cong(z1, -x1) && Cong(z2, -x2) && Cong(z, -x)
    requires Cong(x * (1 + D * ((x1 * x2) * (y1 * y2))), x1 * y2 + x2 * y1)
    requires Cong(y * (1 - D * ((x1 * x2) * (y1 * y2))), y1 * y2 + x1 * x2)
    ensures Cong(z * (1 + D * ((z1 * z2) * (y1 * y2))), z1 * y2 + z2 * y1)
    ensures Cong(y * (1 - D * ((z1 * z2) * (y1 * y2))), y1 * y2 + z1 * z2)
  {
    var t, s := D * ((x1 * x2) * (y1 * y2)), D * ((z1 * z2) * (y1 * y2));
    hide Cong;
    CongMul(z1, -x1, z2, -x2);
    assert -x1 * -x2 == x1 * x2;
    CongRefl(y1 * y2);
    CongMul(z1 * z2, x1 * x2, y1 * y2, y1 * y2);
    CongScale((z1 * z2) * (y1 * y2), (x1 * x2) * (y1 * y2), D);
    CongScale(z1, -x1, y2);
    CongScale(z2, -x2, y1);
    assert y2 * -x1 == -(x1 * y2) && y1 * -x2 == -(x2 * y1);
    CongRefl(1);
    CongLinear(1, 1, s, t);
    CongMul(z, -x, 1 + s, 1 + t);
    CongRefl(y);
    CongMul(y, y, 1 - s, 1 - t);
    assert -x * (1 + t) == -(x * (1 + t));
    assert y2 * z1 == z1 * y2 && y1 * z2 == z2 * y1;
    NegatedTerms(z * (1 + s), x * (1 + t), x1 * y2, x2 * y1, z1 * y2, z2 * y1,
                 y * (1 - s), y * (1 - t), y1 * y2, x1 * x2, z1 * z2);
  }

  lemma NegatedTerms(a: int, b: int, c: int, e: int, c': int, e': int, f: int, g: int, h: int, k: int, k': int)
    requires Cong(a, -b) && Cong(b, c + e) && Cong(c', -c) && Cong(e', -e)
    requires Cong(f, g) && Cong(g, h + k) && Cong(k', k)
    ensures Cong(a, c' + e') && Cong(f, h + k')
  {
    hide Cong;
    CongRefl(h);
    CongLinear(b, c + e, b, c + e);
    CongTrans(a, -b, -(c + e));
    CongLinear(c', -c, e', -e);
    CongSwap(c' + e', -c + -e);
    CongTrans(a, -c + -e, c' + e');
    CongTrans(f, g, h + k);
    CongLinear(h, h, k', k);
    CongSwap(h + k', h + k);
    CongTrans(f, h + k, h + k');
  }
}
