/**
 The group element structures and formulas. Each structure represents an affine point of the curve:
   GeP2     (X:Y:Z)          x = X/Z, y = Y/Z
   GeP3     (X:Y:Z:T)        x = X/Z, y = Y/Z, XY = ZT
   GeP1p1   ((X:Z), (Y:T))   x = X/Z, y = Y/T
   Precomp  (y+x, y-x, 2dxy)
   Cached   (Y+X, Y-X, Z, 2dT)
 The limb bounds are part of what it means to represent a point, so every formula also keeps them.
 */
module Ge {
  import opened CInts
  import opened Field
  import opened Edwards
  import F = Fe25

  const STORED := 110      // limbs of X, Y, Z and T in GeP2 and GeP3
  const COMPLETED := 330   // limbs of a completed point: what fe_mul accepts

  // ---------------------------------------------------------------- what the coordinates mean

  ghost predicate Projective(X: int, Y: int, Z: int, p: Point) {
    OnCurve(p) && Z % P != 0 && Cong(X, p.x * Z) && Cong(Y, p.y * Z)
  }

  ghost predicate Extended(X: int, Y: int, Z: int, T: int, p: Point) {
    Projective(X, Y, Z, p) && Cong(T, (p.x * p.y) * Z)
  }

  ghost predicate Completed(X: int, Y: int, Z: int, T: int, p: Point) {
    OnCurve(p) && Z % P != 0 && T % P != 0 && Cong(X, p.x * Z) && Cong(Y, p.y * T)
  }

  ghost predicate CachedOf(yplusx: int, yminusx: int, Z: int, T2d: int, p: Point) {
    && OnCurve(p)
    && Z % P != 0
    && Cong(yplusx, (p.y + p.x) * Z)
    && Cong(yminusx, (p.y - p.x) * Z)
    && Cong(T2d, (2 * (D * (p.x * p.y))) * Z)
  }

  /** Extended coordinates satisfy XY = ZT. */
  lemma ExtendedProduct(X: int, Y: int, Z: int, T: int, p: Point)
    requires Extended(X, Y, Z, T, p)
    ensures Cong(X * Y, Z * T)
  {
    hide Cong, OnCurve;
    CongMul(X, p.x * Z, Y, p.y * Z);
    CongScale(T, (p.x * p.y) * Z, Z);
    assert (p.x * Z) * (p.y * Z) == Z * ((p.x * p.y) * Z) by {
      SwapPairs(p.x, Z, p.y, Z);
      assert (p.x * p.y) * (Z * Z) == Z * ((p.x * p.y) * Z);
    }
    CongSwap(Z * T, Z * ((p.x * p.y) * Z));
    CongTrans(X * Y, Z * ((p.x * p.y) * Z), Z * T);
  }

  /** The represented point is determined by the coordinates. */
  lemma ProjectivePoint(X: int, Y: int, Z: int, p: Point)
    requires Fermat() && Projective(X, Y, Z, p)
    ensures p.x == (X * Inv(Z)) % P && p.y == (Y * Inv(Z)) % P
  {
    CongSwap(X, p.x * Z);
    CongSwap(Y, p.y * Z);
    QuotientIs(p.x, X, Z);
    QuotientIs(p.y, Y, Z);
  }

  // ---------------------------------------------------------------- the structures

  datatype Precomp = Precomp(yplusx: seq<int32>, yminusx: seq<int32>, xy2d: seq<int32>) {
    ghost predicate Represents(p: Point) {
      && F.Limit(yplusx, F.REDUCED) && F.Limit(yminusx, F.REDUCED) && F.Limit(xy2d, F.REDUCED)
      && CachedOf(F.Val(yplusx), F.Val(yminusx), 1, F.Val(xy2d), p)
    }
  }

  datatype Cached = Cached(YplusX: seq<int32>, YminusX: seq<int32>, Z: seq<int32>, T2d: seq<int32>) {
    ghost predicate Represents(p: Point) {
      && F.Limit(YplusX, 2 * STORED) && F.Limit(YminusX, 2 * STORED) && F.Limit(Z, STORED) && F.Limit(T2d, F.REDUCED)
      && CachedOf(F.Val(YplusX), F.Val(YminusX), F.Val(Z), F.Val(T2d), p)
    }
  }

  class GeP2 {
    const X: array<int32>
    const Y: array<int32>
    const Z: array<int32>

    ghost function Repr(): set<object> { {X, Y, Z} }

    ghost predicate Valid() {
      X.Length == Y.Length == Z.Length == 10 && X != Y && X != Z && Y != Z
    }

    ghost predicate Represents(p: Point)
      requires Valid()
      reads Repr()
    {
      && F.Limit(X[..], STORED) && F.Limit(Y[..], STORED) && F.Limit(Z[..], STORED)
      && Projective(F.Val(X[..]), F.Val(Y[..]), F.Val(Z[..]), p)
    }

    constructor ()
      ensures Valid() && fresh(Repr())
    {
      X, Y, Z := new int32[10], new int32[10], new int32[10];
    }
  }

  class GeP3 {
    const X: array<int32>
    const Y: array<int32>
    const Z: array<int32>
    const T: array<int32>

    ghost function Repr(): set<object> { {X, Y, Z, T} }

    ghost predicate Valid() {
      && X.Length == Y.Length == Z.Length == T.Length == 10
      && X != Y && X != Z && X != T && Y != Z && Y != T && Z != T
    }

    ghost predicate Represents(p: Point)
      requires Valid()
      reads Repr()
    {
      && F.Limit(X[..], STORED) && F.Limit(Y[..], STORED) && F.Limit(Z[..], STORED) && F.Limit(T[..], STORED)
      && Extended(F.Val(X[..]), F.Val(Y[..]), F.Val(Z[..]), F.Val(T[..]), p)
    }

    constructor ()
      ensures Valid() && fresh(Repr())
    {
      X, Y, Z, T := new int32[10], new int32[10], new int32[10], new int32[10];
    }
  }

  class GeP1p1 {
    const X: array<int32>
    const Y: array<int32>
    const Z: array<int32>
    const T: array<int32>

    ghost function Repr(): set<object> { {X, Y, Z, T} }

    ghost predicate Valid() {
      && X.Length == Y.Length == Z.Length == T.Length == 10
      && X != Y && X != Z && X != T && Y != Z && Y != T && Z != T
    }

    ghost predicate Represents(p: Point)
      requires Valid()
      reads Repr()
    {
      && F.Limit(X[..], COMPLETED) && F.Limit(Y[..], COMPLETED) && F.Limit(Z[..], COMPLETED) && F.Limit(T[..], COMPLETED)
      && Completed(F.Val(X[..]), F.Val(Y[..]), F.Val(Z[..]), F.Val(T[..]), p)
    }

    constructor ()
      ensures Valid() && fresh(Repr())
    {
      X, Y, Z, T := new int32[10], new int32[10], new int32[10], new int32[10];
    }
  }

  // ---------------------------------------------------------------- the formulas on integers

  /**
   The completed point that the addition formulas build from
     a = (y1 - x1)(y2 - x2) z, b = (y1 + x1)(y2 + x2) z, c = 2 d x1 x2 y1 y2 z, e = 2 z
   is the sum.
   */
  lemma SumCompleted(p: Point, q: Point, z: int, a: int, b: int, c: int, e: int)
    requires Fermat() && NonSquare() && OnCurve(p) && OnCurve(q) && z % P != 0
    requires Cong(a, ((p.y - p.x) * (q.y - q.x)) * z)
    requires Cong(b, ((p.y + p.x) * (q.y + q.x)) * z)
    requires Cong(c, (2 * Cross(p, q)) * z)
    requires Cong(e, 2 * z)
    ensures Completed(b - a, b + a, e + c, e - c, Add(p, q))
  {
    hide OnCurve, Add, Cross, Fermat, NonSquare, Cong;
    var t, r, nx, ny := Cross(p, q), Add(p, q), XNumerator(p, q), YNumerator(p, q);
    Complete(p, q);
    Closed(p, q);
    SumCoordinates(p, q);
    TwiceNumerators(p, q);
    hide XNumerator, YNumerator;
    SumTerms(z, t, nx, ny, r.x, r.y, (p.y - p.x) * (q.y - q.x), (p.y + p.x) * (q.y + q.x), a, b, c, e);
    ScaledNonzero(e + c, z, 1 + t);
    ScaledNonzero(e - c, z, 1 - t);
  }

  lemma TwiceNumerators(p: Point, q: Point)
    ensures (p.y + p.x) * (q.y + q.x) - (p.y - p.x) * (q.y - q.x) == 2 * XNumerator(p, q)
    ensures (p.y + p.x) * (q.y + q.x) + (p.y - p.x) * (q.y - q.x) == 2 * YNumerator(p, q)
  {
  }

  lemma SumTerms(z: int, t: int, nx: int, ny: int, x: int, y: int, m: int, n: int, a: int, b: int, c: int, e: int)
    requires n - m == 2 * nx && n + m == 2 * ny
    requires Cong(a, m * z) && Cong(b, n * z) && Cong(c, (2 * t) * z) && Cong(e, 2 * z)
    requires Cong(x * (1 + t), nx) && Cong(y * (1 - t), ny)
    ensures Cong(e + c, (2 * z) * (1 + t)) && Cong(e - c, (2 * z) * (1 - t))
    ensures Cong(b - a, x * (e + c)) && Cong(b + a, y * (e - c))
  {
    hide Cong;
    CongLinear(e, 2 * z, c, (2 * t) * z);
    CongLinear(b, n * z, a, m * z);
    assert 2 * z + (2 * t) * z == (2 * z) * (1 + t) && 2 * z - (2 * t) * z == (2 * z) * (1 - t);
    assert n * z - m * z == (2 * z) * nx && n * z + m * z == (2 * z) * ny;
    ScaledQuotient(b - a, 2 * z, nx, x, 1 + t, e + c);
    ScaledQuotient(b + a, 2 * z, ny, y, 1 - t, e - c);
  }

  /** From n = x k, up to congruence, to k' = w k and n' = w n having the same quotient. */
  lemma ScaledQuotient(n': int, w: int, n: int, x: int, k: int, k': int)
    requires Cong(n', w * n) && Cong(x * k, n) && Cong(k', w * k)
    ensures Cong(n', x * k')
  {
    hide Cong;
    CongScale(x * k, n, w);
    CongScale(k', w * k, x);
    assert x * (w * k) == w * (x * k);
    CongTrans(x * k', w * (x * k), w * n);
    CongSwap(x * k', w * n);
    CongTrans(n', w * n, x * k');
  }

  lemma ScaledNonzero(k': int, z: int, k: int)
    requires Fermat() && z % P != 0 && k % P != 0
    requires Cong(k', (2 * z) * k)
    ensures k' % P != 0
  {
    hide Fermat;
    Two(z);
    NonzeroProduct(2 * z, k);
    CongSame(k', (2 * z) * k);
  }

  lemma Two(z: int)
    requires z % P != 0
    ensures (2 * z) % P != 0
  {
    if (2 * z) % P == 0 { Half(z); }
  }

  lemma Half(z: int)
    requires (2 * z) % P == 0
    ensures z % P == 0
  {
    ModulusValue();
    CongRemainder(2 * z, 0);
    var k := CongElim(2 * z, 0);
    var j := z - (P / 2) * k;
    assert k == 2 * j;
    assert z == P * j;
  }

  /** The completed point that doubling builds is p + p. */
  lemma DoubleCompleted(p: Point, z: int, xx: int, yy: int, zz2: int, ss: int)
    requires Fermat() && NonSquare() && OnCurve(p) && z % P != 0
    requires Cong(xx, (p.x * p.x) * (z * z)) && Cong(yy, (p.y * p.y) * (z * z))
    requires Cong(zz2, 2 * (z * z)) && Cong(ss, ((p.x + p.y) * (p.x + p.y)) * (z * z))
    ensures Completed(ss - (yy + xx), yy + xx, yy - xx, zz2 - (yy - xx), Add(p, p))
  {
    var t, r, w := Cross(p, p), Add(p, p), z * z;
    Complete(p, p);
    Closed(p, p);
    SumCoordinates(p, p);
    var nx, ny := XNumerator(p, p), YNumerator(p, p);
    CurveMeaning(p.x, p.y);
    assert Cong(p.y * p.y - p.x * p.x, 1 + t);
    assert nx == 2 * (p.x * p.y) && ny == p.y * p.y + p.x * p.x;
    hide OnCurve, Add, Cross, Fermat, Cong, XNumerator, YNumerator;
    NonzeroProduct(z, z);
    DoubleTerms(p.x, p.y, w, t, nx, ny, r.x, r.y, xx, yy, zz2, ss);
    NonzeroScaled(yy - xx, w, 1 + t);
    NonzeroScaled(zz2 - (yy - xx), w, 1 - t);
  }

  lemma NonzeroScaled(k': int, w: int, k: int)
    requires Fermat() && w % P != 0 && k % P != 0 && Cong(k', w * k)
    ensures k' % P != 0
  {
    NonzeroProduct(w, k);
    CongSame(k', w * k);
  }

  lemma DoubleTerms(x1: int, y1: int, w: int, t: int, nx: int, ny: int, x: int, y: int, xx: int, yy: int, zz2: int, ss: int)
    requires Cong(xx, (x1 * x1) * w) && Cong(yy, (y1 * y1) * w)
    requires Cong(zz2, 2 * w) && Cong(ss, ((x1 + y1) * (x1 + y1)) * w)
    requires nx == 2 * (x1 * y1) && ny == y1 * y1 + x1 * x1 && Cong(y1 * y1 - x1 * x1, 1 + t)
    requires Cong(x * (1 + t), nx) && Cong(y * (1 - t), ny)
    ensures Cong(yy - xx, w * (1 + t)) && Cong(zz2 - (yy - xx), w * (1 - t))
    ensures Cong(ss - (yy + xx), x * (yy - xx)) && Cong(yy + xx, y * (zz2 - (yy - xx)))
  {
    hide Cong;
    CongLinear(yy, (y1 * y1) * w, xx, (x1 * x1) * w);
    CongLinear(ss, ((x1 + y1) * (x1 + y1)) * w, yy + xx, (y1 * y1) * w + (x1 * x1) * w);
    CongLinear(zz2, 2 * w, yy - xx, (y1 * y1) * w - (x1 * x1) * w);
    CongScale(y1 * y1 - x1 * x1, 1 + t, w);
    assert (y1 * y1) * w - (x1 * x1) * w == w * (y1 * y1 - x1 * x1);
    assert (y1 * y1) * w + (x1 * x1) * w == w * ny;
    assert (x1 + y1) * (x1 + y1) == x1 * x1 + y1 * y1 + nx;
    assert ((x1 + y1) * (x1 + y1)) * w - ((y1 * y1) * w + (x1 * x1) * w) == w * nx;
    CongTrans(yy - xx, w * (y1 * y1 - x1 * x1), w * (1 + t));
    CongRefl(2 * w);
    CongLinear(2 * w, 2 * w, w * (y1 * y1 - x1 * x1), w * (1 + t));
    assert 2 * w - w * (1 + t) == w * (1 - t);
    CongTrans(zz2 - (yy - xx), 2 * w - w * (y1 * y1 - x1 * x1), w * (1 - t));
    ScaledQuotient(ss - (yy + xx), w, nx, x, 1 + t, yy - xx);
    ScaledQuotient(yy + xx, w, ny, y, 1 - t, zz2 - (yy - xx));
  }

  // ---------------------------------------------------------------- constants

  const FE_D: seq<int32> := [-10913610, 13857413, -15372611, 6949391, 114729, -8787816, -6275908, -3247719, -18696448, -12055116]
  const FE_D2: seq<int32> := [-21827239, -5839606, -30745221, 13898782, 229458, 15978800, -12551817, -6495438, 29715968, 9444199]
  const FE_SQRTM1: seq<int32> := [-32595792, -7943725, 9377950, 3500415, 12389472, -272473, -25146209, -2005654, 326686, 11406482]

  lemma FieldConstants()
    ensures F.Limit(FE_D, F.REDUCED) && Cong(F.Val(FE_D), D)
    ensures F.Limit(FE_D2, F.REDUCED) && Cong(F.Val(FE_D2), 2 * D)
    ensures F.Limit(FE_SQRTM1, F.REDUCED) && Cong(F.Val(FE_SQRTM1), SQRTM1)
  {
    ModulusValue();
    ConstantValue();
    CongRemainder(F.Val(FE_D), D);
    CongRemainder(F.Val(FE_D2), 2 * D);
    CongRemainder(F.Val(FE_SQRTM1), SQRTM1);
  }

  // ---------------------------------------------------------------- the identity

  lemma ZeroCoordinates()
    ensures Extended(0, 1, 1, 0, O)
  {
    CongRefl(0);
    CongRefl(1);
    OriginOnCurve();
  }

  method P2Zero(h: GeP2)
    requires h.Valid()
    modifies h.Repr()
    ensures h.Represents(O)
  {
    hide F.Val, F.Limit, Cong, OnCurve;
    ZeroCoordinates();
    F.SetSmall(h.X, 0);
    F.SetSmall(h.Y, 1);
    F.SetSmall(h.Z, 1);
    F.LimitMonotone(h.X[..], 1, STORED);
    F.LimitMonotone(h.Y[..], 1, STORED);
    F.LimitMonotone(h.Z[..], 1, STORED);
  }

  method P3Zero(h: GeP3)
    requires h.Valid()
    modifies h.Repr()
    ensures h.Represents(O)
  {
    hide F.Val, F.Limit, Cong, OnCurve;
    ZeroCoordinates();
    F.SetSmall(h.X, 0);
    F.SetSmall(h.Y, 1);
    F.SetSmall(h.Z, 1);
    F.SetSmall(h.T, 0);
    F.LimitMonotone(h.X[..], 1, STORED);
    F.LimitMonotone(h.Y[..], 1, STORED);
    F.LimitMonotone(h.Z[..], 1, STORED);
    F.LimitMonotone(h.T[..], 1, STORED);
  }

  // ---------------------------------------------------------------- changes of representation

  method P3ToP2(r: GeP2, p: GeP3, ghost a: Point)
    requires r.Valid() && p.Valid() && r.Repr() !! p.Repr()
    requires p.Represents(a)
    modifies r.Repr()
    ensures r.Represents(a)
  {
    F.Copy(r.X, p.X);
    F.Copy(r.Y, p.Y);
    F.Copy(r.Z, p.Z);
  }

  method P1p1ToP2(r: GeP2, p: GeP1p1, ghost a: Point)
    requires r.Valid() && p.Valid() && r.Repr() !! p.Repr()
    requires Fermat() && p.Represents(a)
    modifies r.Repr()
    ensures r.Represents(a)
  {
    ghost var x, y, z, t := F.Val(p.X[..]), F.Val(p.Y[..]), F.Val(p.Z[..]), F.Val(p.T[..]);
    hide F.Val, F.Limit, Cong, OnCurve, Fermat;
    F.Mul(r.X, p.X[..], p.T[..]);
    F.Mul(r.Y, p.Y[..], p.Z[..]);
    F.Mul(r.Z, p.Z[..], p.T[..]);
    F.LimitMonotone(r.X[..], F.REDUCED, STORED);
    F.LimitMonotone(r.Y[..], F.REDUCED, STORED);
    F.LimitMonotone(r.Z[..], F.REDUCED, STORED);
    CommonDenominator(x, y, z, t, F.Val(r.X[..]), F.Val(r.Y[..]), F.Val(r.Z[..]), a);
  }

  method P1p1ToP3(r: GeP3, p: GeP1p1, ghost a: Point)
    requires r.Valid() && p.Valid() && r.Repr() !! p.Repr()
    requires Fermat() && p.Represents(a)
    modifies r.Repr()
    ensures r.Represents(a)
  {
    ghost var x, y, z, t := F.Val(p.X[..]), F.Val(p.Y[..]), F.Val(p.Z[..]), F.Val(p.T[..]);
    hide F.Val, F.Limit, Cong, OnCurve, Fermat;
    F.Mul(r.X, p.X[..], p.T[..]);
    F.Mul(r.Y, p.Y[..], p.Z[..]);
    F.Mul(r.Z, p.Z[..], p.T[..]);
    F.Mul(r.T, p.X[..], p.Y[..]);
    F.LimitMonotone(r.X[..], F.REDUCED, STORED);
    F.LimitMonotone(r.Y[..], F.REDUCED, STORED);
    F.LimitMonotone(r.Z[..], F.REDUCED, STORED);
    F.LimitMonotone(r.T[..], F.REDUCED, STORED);
    CommonDenominator(x, y, z, t, F.Val(r.X[..]), F.Val(r.Y[..]), F.Val(r.Z[..]), a);
    FourthCoordinate(x, y, z, t, F.Val(r.Z[..]), F.Val(r.T[..]), a);
  }

  lemma CommonDenominator(x: int, y: int, z: int, t: int, X: int, Y: int, Z: int, a: Point)
    requires Fermat() && Completed(x, y, z, t, a)
    requires Cong(X, x * t) && Cong(Y, y * z) && Cong(Z, z * t)
    ensures Projective(X, Y, Z, a)
  {
    hide Cong, Fermat, OnCurve;
    NonzeroProduct(z, t);
    CongSame(Z, z * t);
    SharedFactor(x, z, t, X, Z, a.x);
    assert z * t == t * z;
    SharedFactor(y, t, z, Y, Z, a.y);
  }

  lemma SharedFactor(x: int, z: int, t: int, X: int, Z: int, a: int)
    requires Cong(x, a * z) && Cong(X, x * t) && Cong(Z, z * t)
    ensures Cong(X, a * Z)
  {
    hide Cong;
    CongRefl(t);
    CongMul(x, a * z, t, t);
    CongScale(Z, z * t, a);
    assert (a * z) * t == a * (z * t);
    CongTrans(X, x * t, a * (z * t));
    CongSwap(a * Z, a * (z * t));
    CongTrans(X, a * (z * t), a * Z);
  }

  lemma FourthCoordinate(x: int, y: int, z: int, t: int, Z: int, T: int, a: Point)
    requires Completed(x, y, z, t, a)
    requires Cong(T, x * y) && Cong(Z, z * t)
    ensures Cong(T, (a.x * a.y) * Z)
  {
    hide Cong, OnCurve;
    CongMul(x, a.x * z, y, a.y * t);
    SwapPairs(a.x, z, a.y, t);
    CongScale(Z, z * t, a.x * a.y);
    CongSwap((a.x * a.y) * Z, (a.x * a.y) * (z * t));
    CongTrans(T, x * y, (a.x * a.y) * (z * t));
    CongTrans(T, (a.x * a.y) * (z * t), (a.x * a.y) * Z);
  }

  method P3ToCached(p: GeP3, ghost a: Point) returns (r: Cached)
    requires p.Valid() && p.Represents(a)
    ensures r.Represents(a)
  {
    ghost var x, y, z, t := F.Val(p.X[..]), F.Val(p.Y[..]), F.Val(p.Z[..]), F.Val(p.T[..]);
    hide F.Val, F.Limit, Cong, OnCurve, Extended, CachedOf;
    var yplusx, yminusx := SumAndDifference(p.Y, p.X);
    var t2d := TimesD2(p.T[..]);
    r := Cached(yplusx, yminusx, p.Z[..], t2d);
    CachedCoordinates(x, y, z, t, F.Val(yplusx), F.Val(yminusx), F.Val(t2d), a);
  }

  /** `fe_add(r->YplusX, p->Y, p->X); fe_sub(r->YminusX, p->Y, p->X)` */
  method SumAndDifference(f: array<int32>, g: array<int32>) returns (plus: seq<int32>, minus: seq<int32>)
    requires f.Length == g.Length == 10 && F.Limit(f[..], STORED) && F.Limit(g[..], STORED)
    ensures F.Limit(plus, 2 * STORED) && F.Val(plus) == F.Val(f[..]) + F.Val(g[..])
    ensures F.Limit(minus, 2 * STORED) && F.Val(minus) == F.Val(f[..]) - F.Val(g[..])
  {
    hide F.Val, F.Limit;
    var h := new int32[10];
    F.Add(h, f, g, STORED, STORED);
    plus := h[..];
    F.Sub(h, f, g, STORED, STORED);
    minus := h[..];
  }

  /** `fe_mul(r->T2d, p->T, d2)` */
  method TimesD2(t: seq<int32>) returns (r: seq<int32>)
    requires F.Limit(t, STORED)
    ensures F.Limit(r, F.REDUCED) && Cong(F.Val(r), F.Val(t) * (2 * D))
  {
    hide F.Val, F.Limit, Cong, FE_D2;
    FieldConstants();
    F.LimitMonotone(FE_D2, F.REDUCED, F.PRODUCT);
    F.LimitMonotone(t, STORED, F.PRODUCT);
    var h := new int32[10];
    F.Mul(h, t, FE_D2);
    r := h[..];
    CongRefl(F.Val(t));
    CongProduct(F.Val(r), F.Val(t), F.Val(FE_D2), F.Val(t), 2 * D);
  }

  lemma TwiceD(d: int, m: int, z: int)
    ensures (m * z) * (2 * d) == (2 * (d * m)) * z
  {
  }

  lemma CachedCoordinates(x: int, y: int, z: int, t: int, plus: int, minus: int, t2d: int, a: Point)
    requires Extended(x, y, z, t, a)
    requires plus == y + x && minus == y - x && Cong(t2d, t * (2 * D))
    ensures CachedOf(plus, minus, z, t2d, a)
  {
    hide Cong, OnCurve;
    CachedLinear(D, x, y, z, t, plus, minus, t2d, a.x, a.y);
  }

  lemma CachedLinear(d: int, x: int, y: int, z: int, t: int, plus: int, minus: int, t2d: int, px: int, py: int)
    requires Cong(x, px * z) && Cong(y, py * z) && Cong(t, (px * py) * z)
    requires plus == y + x && minus == y - x && Cong(t2d, t * (2 * d))
    ensures Cong(plus, (py + px) * z) && Cong(minus, (py - px) * z) && Cong(t2d, (2 * (d * (px * py))) * z)
  {
    hide Cong;
    CongLinear(y, py * z, x, px * z);
    assert py * z + px * z == (py + px) * z && py * z - px * z == (py - px) * z;
    CongRefl(2 * d);
    CongMul(t, (px * py) * z, 2 * d, 2 * d);
    TwiceD(d, px * py, z);
    CongTrans(t2d, t * (2 * d), (2 * (d * (px * py))) * z);
  }

  // ---------------------------------------------------------------- doubling

  /** r = 2 p. */
  method P2Dbl(r: GeP1p1, p: GeP2, ghost a: Point)
    requires r.Valid() && p.Valid() && r.Repr() !! p.Repr()
    requires Fermat() && NonSquare() && p.Represents(a)
    modifies r.Repr()
    ensures r.Represents(Edwards.Add(a, a))
  {
    hide F.Val, F.Limit, Cong, OnCurve, Fermat, NonSquare, Edwards.Add, Projective, Completed;
    var t0 := new int32[10];
    P2DblWith(r, p, t0, a);
  }

  method P2DblWith(r: GeP1p1, p: GeP2, t0: array<int32>, ghost a: Point)
    requires r.Valid() && p.Valid() && r.Repr() !! p.Repr() && t0.Length == 10 && t0 !in r.Repr() && t0 !in p.Repr()
    requires Fermat() && NonSquare() && p.Represents(a)
    modifies r.Repr(), t0
    ensures r.Represents(Edwards.Add(a, a))
  {
    ghost var x, y, z := F.Val(p.X[..]), F.Val(p.Y[..]), F.Val(p.Z[..]);
    hide F.Val, F.Limit, Cong, OnCurve, Fermat, NonSquare, Edwards.Add, Projective, Completed;
    F.LimitMonotone(p.X[..], STORED, F.PRODUCT);
    F.LimitMonotone(p.Y[..], STORED, F.PRODUCT);
    F.LimitMonotone(p.Z[..], STORED, F.PRODUCT);
    F.Sq(r.X, p.X[..]);
    F.Sq(r.Z, p.Y[..]);
    F.Sq2(r.T, p.Z[..]);
    F.Add(r.Y, p.X, p.Y, STORED, STORED);
    F.LimitMonotone(r.Y[..], 2 * STORED, F.PRODUCT);
    F.Sq(t0, r.Y[..]);
    ghost var s := F.Val(r.Y[..]);
    ghost var xx, yy, zz2, ss := F.Val(r.X[..]), F.Val(r.Z[..]), F.Val(r.T[..]), F.Val(t0[..]);
    F.Add(r.Y, r.Z, r.X, F.REDUCED, F.REDUCED);
    F.Sub(r.Z, r.Z, r.X, F.REDUCED, F.REDUCED);
    F.Sub(r.X, t0, r.Y, F.REDUCED, 2 * F.REDUCED);
    F.Sub(r.T, r.T, r.Z, F.REDUCED, 2 * F.REDUCED);
    F.LimitMonotone(r.X[..], 3 * F.REDUCED, COMPLETED);
    F.LimitMonotone(r.Y[..], 2 * F.REDUCED, COMPLETED);
    F.LimitMonotone(r.Z[..], 2 * F.REDUCED, COMPLETED);
    F.LimitMonotone(r.T[..], 3 * F.REDUCED, COMPLETED);
    DoubledFrom(x, y, z, xx, yy, zz2, s, ss, F.Val(r.X[..]), F.Val(r.Y[..]), F.Val(r.Z[..]), F.Val(r.T[..]), a);
  }

  lemma DoubledFrom(x: int, y: int, z: int, xx: int, yy: int, zz2: int, s: int, ss: int, X: int, Y: int, Z: int, T: int, a: Point)
    requires Fermat() && NonSquare() && Projective(x, y, z, a)
    requires Cong(xx, x * x) && Cong(yy, y * y) && Cong(zz2, 2 * (z * z)) && s == x + y && Cong(ss, s * s)
    requires X == ss - Y && Y == yy + xx && Z == yy - xx && T == zz2 - Z
    ensures Completed(X, Y, Z, T, Edwards.Add(a, a))
  {
    hide Cong, OnCurve, Fermat, NonSquare, Edwards.Add, Completed;
    SquaredCoordinates(x, y, z, xx, yy, zz2, ss, a);
    DoubleCompleted(a, z, xx, yy, zz2, ss);
  }

  lemma SquaredCoordinates(x: int, y: int, z: int, xx: int, yy: int, zz2: int, ss: int, a: Point)
    requires Projective(x, y, z, a)
    requires Cong(xx, x * x) && Cong(yy, y * y) && Cong(zz2, 2 * (z * z)) && Cong(ss, (x + y) * (x + y))
    ensures Cong(xx, (a.x * a.x) * (z * z)) && Cong(yy, (a.y * a.y) * (z * z))
    ensures Cong(ss, ((a.x + a.y) * (a.x + a.y)) * (z * z))
  {
    hide Cong, OnCurve;
    CongProduct(xx, x, x, a.x * z, a.x * z);
    CongProduct(yy, y, y, a.y * z, a.y * z);
    CongLinear(x, a.x * z, y, a.y * z);
    assert a.x * z + a.y * z == (a.x + a.y) * z;
    CongProduct(ss, x + y, x + y, (a.x + a.y) * z, (a.x + a.y) * z);
    SwapPairs(a.x, z, a.x, z);
    SwapPairs(a.y, z, a.y, z);
    SwapPairs(a.x + a.y, z, a.x + a.y, z);
  }

  /** r = 2 p. */
  method P3Dbl(r: GeP1p1, p: GeP3, ghost a: Point)
    requires r.Valid() && p.Valid() && r.Repr() !! p.Repr()
    requires Fermat() && NonSquare() && p.Represents(a)
    modifies r.Repr()
    ensures r.Represents(Edwards.Add(a, a))
  {
    hide F.Val, F.Limit, Cong, OnCurve, Fermat, NonSquare, Edwards.Add;
    var q := new GeP2();
    P3ToP2(q, p, a);
    P2Dbl(r, q, a);
  }

  // ---------------------------------------------------------------- addition and subtraction

  /** What the formulas compute from the coordinates of the two operands; `zz` is the product of the denominators. */
  lemma SumFrom(x: int, y: int, z: int, t: int, plus: int, minus: int, z2: int, t2d: int,
                f: int, g: int, m: int, n: int, c: int, zz: int, e: int, X: int, Y: int, Z: int, T: int, a: Point, b: Point)
    requires Fermat() && NonSquare() && Extended(x, y, z, t, a) && CachedOf(plus, minus, z2, t2d, b)
    requires f == y + x && g == y - x && Cong(n, f * plus) && Cong(m, g * minus) && Cong(c, t2d * t)
    requires Cong(zz, z * z2) && e == zz + zz
    requires X == n - m && Y == n + m && Z == e + c && T == e - c
    ensures Completed(X, Y, Z, T, Edwards.Add(a, b))
  {
    hide Cong, OnCurve, Fermat, NonSquare, Edwards.Add, Completed;
    CachedProducts(x, y, z, t, plus, minus, z2, t2d, m, n, c, z * z2, a, b);
    NonzeroProduct(z, z2);
    CongScale(zz, z * z2, 2);
    SumCompleted(a, b, z * z2, m, n, c, e);
  }

  lemma MixedSum(x: int, y: int, z: int, t: int, plus: int, minus: int, t2d: int,
                 f: int, g: int, m: int, n: int, c: int, e: int, X: int, Y: int, Z: int, T: int, a: Point, b: Point)
    requires Fermat() && NonSquare() && Extended(x, y, z, t, a) && CachedOf(plus, minus, 1, t2d, b)
    requires f == y + x && g == y - x && Cong(n, f * plus) && Cong(m, g * minus) && Cong(c, t2d * t) && e == z + z
    requires X == n - m && Y == n + m && Z == e + c && T == e - c
    ensures Completed(X, Y, Z, T, Edwards.Add(a, b))
  {
    hide Cong, OnCurve, Fermat, NonSquare, Edwards.Add, Completed, Extended, CachedOf;
    CongRefl(z);
    SumFrom(x, y, z, t, plus, minus, 1, t2d, f, g, m, n, c, z, e, X, Y, Z, T, a, b);
  }

  /** The entry of -b is that of b with its first two parts exchanged and the last one negated. */
  lemma NegatedEntry(plus: int, minus: int, z2: int, t2d: int, b: Point)
    requires CachedOf(plus, minus, z2, t2d, b)
    ensures CachedOf(minus, plus, z2, -t2d, Neg(b))
  {
    var x := Neg(b).x;
    NegOnCurve(b);
    hide OnCurve, Neg;
    NegatedLinear(D, plus, minus, z2, t2d, b.x, b.y, x);
  }

  lemma NegatedLinear(d: int, plus: int, minus: int, z: int, t: int, x: int, y: int, x': int)
    requires Cong(plus, (y + x) * z) && Cong(minus, (y - x) * z) && Cong(t, (2 * (d * (x * y))) * z) && Cong(x', -x)
    ensures Cong(minus, (y + x') * z) && Cong(plus, (y - x') * z) && Cong(-t, (2 * (d * (x' * y))) * z)
  {
    hide Cong;
    CongRefl(y);
    CongLinear(y, y, x', -x);
    CongRefl(z);
    CongMul(y + x', y - x, z, z);
    CongMul(y - x', y + x, z, z);
    CongMul(x', -x, y, y);
    NegatedTriple(d, x, y, z);
    CongScale(x' * y, -(x * y), d);
    CongScale(d * (x' * y), -(d * (x * y)), 2);
    CongMul(2 * (d * (x' * y)), -(2 * (d * (x * y))), z, z);
    CongLinear(t, (2 * (d * (x * y))) * z, t, (2 * (d * (x * y))) * z);
    CongSwap((y + x') * z, (y - x) * z);
    CongSwap((y - x') * z, (y + x) * z);
    CongSwap((2 * (d * (x' * y))) * z, -((2 * (d * (x * y))) * z));
    CongTrans(minus, (y - x) * z, (y + x') * z);
    CongTrans(plus, (y + x) * z, (y - x') * z);
    CongTrans(-t, -((2 * (d * (x * y))) * z), (2 * (d * (x' * y))) * z);
  }

  lemma NegatedTriple(d: int, x: int, y: int, z: int)
    ensures -x * y == -(x * y)
    ensures d * -(x * y) == -(d * (x * y))
    ensures 2 * -(d * (x * y)) == -(2 * (d * (x * y)))
    ensures -(2 * (d * (x * y))) * z == -((2 * (d * (x * y))) * z)
  {
  }

  lemma NegatedFactor(c: int, t2d: int, t: int)
    requires Cong(c, t2d * t)
    ensures Cong(-c, -t2d * t)
  {
    CongLinear(c, t2d * t, c, t2d * t);
    assert -t2d * t == -(t2d * t);
  }

  lemma MixedDifference(x: int, y: int, z: int, t: int, plus: int, minus: int, t2d: int,
                        f: int, g: int, m: int, n: int, c: int, e: int, X: int, Y: int, Z: int, T: int, a: Point, b: Point)
    requires Fermat() && NonSquare() && Extended(x, y, z, t, a) && CachedOf(plus, minus, 1, t2d, b)
    requires f == y + x && g == y - x && Cong(n, f * minus) && Cong(m, g * plus) && Cong(c, t2d * t) && e == z + z
    requires X == n - m && Y == n + m && Z == e - c && T == e + c
    ensures Completed(X, Y, Z, T, Edwards.Add(a, Neg(b)))
  {
    hide Cong, OnCurve, Fermat, NonSquare, Edwards.Add, Completed, Extended, CachedOf;
    NegatedEntry(plus, minus, 1, t2d, b);
    NegatedFactor(c, t2d, t);
    MixedSum(x, y, z, t, minus, plus, -t2d, f, g, m, n, -c, e, X, Y, Z, T, a, Neg(b));
  }

  lemma DifferenceFrom(x: int, y: int, z: int, t: int, plus: int, minus: int, z2: int, t2d: int,
                       f: int, g: int, m: int, n: int, c: int, zz: int, e: int, X: int, Y: int, Z: int, T: int, a: Point, b: Point)
    requires Fermat() && NonSquare() && Extended(x, y, z, t, a) && CachedOf(plus, minus, z2, t2d, b)
    requires f == y + x && g == y - x && Cong(n, f * minus) && Cong(m, g * plus) && Cong(c, t2d * t)
    requires Cong(zz, z * z2) && e == zz + zz
    requires X == n - m && Y == n + m && Z == e - c && T == e + c
    ensures Completed(X, Y, Z, T, Edwards.Add(a, Neg(b)))
  {
    hide Cong, OnCurve, Fermat, NonSquare, Edwards.Add, Completed, Extended, CachedOf;
    NegatedEntry(plus, minus, z2, t2d, b);
    NegatedFactor(c, t2d, t);
    SumFrom(x, y, z, t, minus, plus, z2, -t2d, f, g, m, n, -c, zz, e, X, Y, Z, T, a, Neg(b));
  }

  lemma CachedProducts(x: int, y: int, z: int, t: int, plus: int, minus: int, z2: int, t2d: int,
                       m: int, n: int, c: int, w: int, a: Point, b: Point)
    requires Extended(x, y, z, t, a) && CachedOf(plus, minus, z2, t2d, b) && w == z * z2
    requires Cong(n, (y + x) * plus) && Cong(m, (y - x) * minus) && Cong(c, t2d * t)
    ensures Cong(m, ((a.y - a.x) * (b.y - b.x)) * w)
    ensures Cong(n, ((a.y + a.x) * (b.y + b.x)) * w)
    ensures Cong(c, (2 * Cross(a, b)) * w)
  {
    hide Cong, OnCurve;
    CongLinear(y, a.y * z, x, a.x * z);
    assert a.y * z + a.x * z == (a.y + a.x) * z && a.y * z - a.x * z == (a.y - a.x) * z;
    CongProduct(n, y + x, plus, (a.y + a.x) * z, (b.y + b.x) * z2);
    CongProduct(m, y - x, minus, (a.y - a.x) * z, (b.y - b.x) * z2);
    SwapPairs(a.y + a.x, z, b.y + b.x, z2);
    SwapPairs(a.y - a.x, z, b.y - b.x, z2);
    CongProduct(c, t2d, t, (2 * (D * (b.x * b.y))) * z2, (a.x * a.y) * z);
    CrossProduct(a, b, z, z2);
  }

  lemma CrossProduct(a: Point, b: Point, z: int, z2: int)
    ensures ((2 * (D * (b.x * b.y))) * z2) * ((a.x * a.y) * z) == (2 * Cross(a, b)) * (z * z2)
  {
    SwapPairs(2 * (D * (b.x * b.y)), z2, a.x * a.y, z);
    SwapPairs(a.x, b.x, a.y, b.y);
    assert (2 * (D * (b.x * b.y))) * (a.x * a.y) == 2 * (D * ((a.x * a.y) * (b.x * b.y)));
    assert z2 * z == z * z2;
  }

  /** The steps that all four formulas start with: (Y+X) u, (Y-X) v and w T. */
  method FirstProducts(r: GeP1p1, p: GeP3, u: seq<int32>, v: seq<int32>, w: seq<int32>,
                       ghost x: int, ghost y: int, ghost t: int)
    returns (ghost f: int, ghost g: int)
    requires r.Valid() && p.Valid() && r.Repr() !! p.Repr()
    requires x == F.Val(p.X[..]) && y == F.Val(p.Y[..]) && t == F.Val(p.T[..])
    requires F.Limit(p.X[..], STORED) && F.Limit(p.Y[..], STORED) && F.Limit(p.T[..], STORED)
    requires F.Limit(u, F.PRODUCT) && F.Limit(v, F.PRODUCT) && F.Limit(w, F.PRODUCT)
    modifies r.Repr()
    ensures F.Limit(r.Z[..], F.REDUCED) && F.Limit(r.Y[..], F.REDUCED) && F.Limit(r.T[..], F.REDUCED)
    ensures f == y + x && g == y - x && p.Z[..] == old(p.Z[..])
    ensures Cong(F.Val(r.Z[..]), f * F.Val(u))
    ensures Cong(F.Val(r.Y[..]), g * F.Val(v))
    ensures Cong(F.Val(r.T[..]), F.Val(w) * t)
  {
    hide F.Val, F.Limit, Cong;
    F.LimitMonotone(p.T[..], STORED, F.PRODUCT);
    F.Add(r.X, p.Y, p.X, STORED, STORED);
    F.Sub(r.Y, p.Y, p.X, STORED, STORED);
    F.LimitMonotone(r.X[..], 2 * STORED, F.PRODUCT);
    F.LimitMonotone(r.Y[..], 2 * STORED, F.PRODUCT);
    f, g := F.Val(r.X[..]), F.Val(r.Y[..]);
    F.Mul(r.Z, r.X[..], u);
    F.Mul(r.Y, r.Y[..], v);
    F.Mul(r.T, w, p.T[..]);
  }

  /** The steps that a sum ends with. */
  method FinishSum(r: GeP1p1, t0: array<int32>, ghost m: int, ghost n: int, ghost c: int, ghost e: int)
    requires r.Valid() && t0.Length == 10 && t0 !in r.Repr()
    requires F.Limit(r.Z[..], F.REDUCED) && F.Limit(r.Y[..], F.REDUCED) && F.Limit(r.T[..], F.REDUCED) && F.Limit(t0[..], 2 * STORED)
    requires m == F.Val(r.Y[..]) && n == F.Val(r.Z[..]) && c == F.Val(r.T[..]) && e == F.Val(t0[..])
    modifies r.Repr()
    ensures F.Limit(r.X[..], COMPLETED) && F.Limit(r.Y[..], COMPLETED) && F.Limit(r.Z[..], COMPLETED) && F.Limit(r.T[..], COMPLETED)
    ensures F.Val(r.X[..]) == n - m && F.Val(r.Y[..]) == n + m
    ensures F.Val(r.Z[..]) == e + c && F.Val(r.T[..]) == e - c
  {
    hide F.Val, F.Limit;
    F.Sub(r.X, r.Z, r.Y, F.REDUCED, F.REDUCED);
    F.LimitMonotone(r.X[..], 2 * F.REDUCED, COMPLETED);
    F.Add(r.Y, r.Z, r.Y, F.REDUCED, F.REDUCED);
    F.LimitMonotone(r.Y[..], 2 * F.REDUCED, COMPLETED);
    F.Add(r.Z, t0, r.T, 2 * STORED, F.REDUCED);
    F.LimitMonotone(r.Z[..], 2 * STORED + F.REDUCED, COMPLETED);
    F.Sub(r.T, t0, r.T, 2 * STORED, F.REDUCED);
    F.LimitMonotone(r.T[..], 2 * STORED + F.REDUCED, COMPLETED);
  }

  /** The steps that a difference ends with. */
  method FinishDifference(r: GeP1p1, t0: array<int32>, ghost m: int, ghost n: int, ghost c: int, ghost e: int)
    requires r.Valid() && t0.Length == 10 && t0 !in r.Repr()
    requires F.Limit(r.Z[..], F.REDUCED) && F.Limit(r.Y[..], F.REDUCED) && F.Limit(r.T[..], F.REDUCED) && F.Limit(t0[..], 2 * STORED)
    requires m == F.Val(r.Y[..]) && n == F.Val(r.Z[..]) && c == F.Val(r.T[..]) && e == F.Val(t0[..])
    modifies r.Repr()
    ensures F.Limit(r.X[..], COMPLETED) && F.Limit(r.Y[..], COMPLETED) && F.Limit(r.Z[..], COMPLETED) && F.Limit(r.T[..], COMPLETED)
    ensures F.Val(r.X[..]) == n - m && F.Val(r.Y[..]) == n + m
    ensures F.Val(r.Z[..]) == e - c && F.Val(r.T[..]) == e + c
  {
    hide F.Val, F.Limit;
    F.Sub(r.X, r.Z, r.Y, F.REDUCED, F.REDUCED);
    F.LimitMonotone(r.X[..], 2 * F.REDUCED, COMPLETED);
    F.Add(r.Y, r.Z, r.Y, F.REDUCED, F.REDUCED);
    F.LimitMonotone(r.Y[..], 2 * F.REDUCED, COMPLETED);
    F.Sub(r.Z, t0, r.T, 2 * STORED, F.REDUCED);
    F.LimitMonotone(r.Z[..], 2 * STORED + F.REDUCED, COMPLETED);
    F.Add(r.T, t0, r.T, 2 * STORED, F.REDUCED);
    F.LimitMonotone(r.T[..], 2 * STORED + F.REDUCED, COMPLETED);
  }

  /** r = p + q. */
  method MAdd(r: GeP1p1, p: GeP3, q: Precomp, ghost a: Point, ghost b: Point)
    requires r.Valid() && p.Valid() && r.Repr() !! p.Repr()
    requires Fermat() && NonSquare() && p.Represents(a) && q.Represents(b)
    modifies r.Repr()
    ensures r.Represents(Edwards.Add(a, b))
  {
    hide F.Val, F.Limit, Cong, OnCurve, Fermat, NonSquare, Edwards.Add, Extended, CachedOf, Completed;
    var t0 := new int32[10];
    MAddWith(r, p, q, t0, a, b);
  }

  method MAddWith(r: GeP1p1, p: GeP3, q: Precomp, t0: array<int32>, ghost a: Point, ghost b: Point)
    requires r.Valid() && p.Valid() && r.Repr() !! p.Repr() && t0.Length == 10 && t0 !in r.Repr() && t0 !in p.Repr()
    requires Fermat() && NonSquare() && p.Represents(a) && q.Represents(b)
    modifies r.Repr(), t0
    ensures r.Represents(Edwards.Add(a, b))
  {
    ghost var x, y, z, t := F.Val(p.X[..]), F.Val(p.Y[..]), F.Val(p.Z[..]), F.Val(p.T[..]);
    ghost var plus, minus, t2d := F.Val(q.yplusx), F.Val(q.yminusx), F.Val(q.xy2d);
    hide F.Val, F.Limit, Cong, OnCurve, Fermat, NonSquare, Edwards.Add, Extended, CachedOf, Completed;
    F.LimitMonotone(q.yplusx, F.REDUCED, F.PRODUCT);
    F.LimitMonotone(q.yminusx, F.REDUCED, F.PRODUCT);
    F.LimitMonotone(q.xy2d, F.REDUCED, F.PRODUCT);
    ghost var f, g := FirstProducts(r, p, q.yplusx, q.yminusx, q.xy2d, x, y, t);
    F.Add(t0, p.Z, p.Z, STORED, STORED);
    ghost var m, n, c, e := F.Val(r.Y[..]), F.Val(r.Z[..]), F.Val(r.T[..]), F.Val(t0[..]);
    FinishSum(r, t0, m, n, c, e);
    MixedSum(x, y, z, t, plus, minus, t2d, f, g, m, n, c, e, F.Val(r.X[..]), F.Val(r.Y[..]), F.Val(r.Z[..]), F.Val(r.T[..]), a, b);
  }
  /** r = p - q. */
  method MSub(r: GeP1p1, p: GeP3, q: Precomp, ghost a: Point, ghost b: Point)
    requires r.Valid() && p.Valid() && r.Repr() !! p.Repr()
    requires Fermat() && NonSquare() && p.Represents(a) && q.Represents(b)
    modifies r.Repr()
    ensures r.Represents(Edwards.Add(a, Neg(b)))
  {
    hide F.Val, F.Limit, Cong, OnCurve, Fermat, NonSquare, Edwards.Add, Extended, CachedOf, Completed;
    var t0 := new int32[10];
    MSubWith(r, p, q, t0, a, b);
  }

  method MSubWith(r: GeP1p1, p: GeP3, q: Precomp, t0: array<int32>, ghost a: Point, ghost b: Point)
    requires r.Valid() && p.Valid() && r.Repr() !! p.Repr() && t0.Length == 10 && t0 !in r.Repr() && t0 !in p.Repr()
    requires Fermat() && NonSquare() && p.Represents(a) && q.Represents(b)
    modifies r.Repr(), t0
    ensures r.Represents(Edwards.Add(a, Neg(b)))
  {
    ghost var x, y, z, t := F.Val(p.X[..]), F.Val(p.Y[..]), F.Val(p.Z[..]), F.Val(p.T[..]);
    ghost var plus, minus, t2d := F.Val(q.yplusx), F.Val(q.yminusx), F.Val(q.xy2d);
    hide F.Val, F.Limit, Cong, OnCurve, Fermat, NonSquare, Edwards.Add, Extended, CachedOf, Completed;
    F.LimitMonotone(q.yplusx, F.REDUCED, F.PRODUCT);
    F.LimitMonotone(q.yminusx, F.REDUCED, F.PRODUCT);
    F.LimitMonotone(q.xy2d, F.REDUCED, F.PRODUCT);
    ghost var f, g := FirstProducts(r, p, q.yminusx, q.yplusx, q.xy2d, x, y, t);
    F.Add(t0, p.Z, p.Z, STORED, STORED);
    ghost var m, n, c, e := F.Val(r.Y[..]), F.Val(r.Z[..]), F.Val(r.T[..]), F.Val(t0[..]);
    FinishDifference(r, t0, m, n, c, e);
    MixedDifference(x, y, z, t, plus, minus, t2d, f, g, m, n, c, e, F.Val(r.X[..]), F.Val(r.Y[..]), F.Val(r.Z[..]), F.Val(r.T[..]), a, b);
  }
  /** r = p + q. */
  method AddCached(r: GeP1p1, p: GeP3, q: Cached, ghost a: Point, ghost b: Point)
    requires r.Valid() && p.Valid() && r.Repr() !! p.Repr()
    requires Fermat() && NonSquare() && p.Represents(a) && q.Represents(b)
    modifies r.Repr()
    ensures r.Represents(Edwards.Add(a, b))
  {
    hide F.Val, F.Limit, Cong, OnCurve, Fermat, NonSquare, Edwards.Add, Extended, CachedOf, Completed;
    var t0 := new int32[10];
    AddCachedWith(r, p, q, t0, a, b);
  }

  method AddCachedWith(r: GeP1p1, p: GeP3, q: Cached, t0: array<int32>, ghost a: Point, ghost b: Point)
    requires r.Valid() && p.Valid() && r.Repr() !! p.Repr() && t0.Length == 10 && t0 !in r.Repr() && t0 !in p.Repr()
    requires Fermat() && NonSquare() && p.Represents(a) && q.Represents(b)
    modifies r.Repr(), t0
    ensures r.Represents(Edwards.Add(a, b))
  {
    ghost var x, y, z, t := F.Val(p.X[..]), F.Val(p.Y[..]), F.Val(p.Z[..]), F.Val(p.T[..]);
    ghost var plus, minus, z2, t2d := F.Val(q.YplusX), F.Val(q.YminusX), F.Val(q.Z), F.Val(q.T2d);
    hide F.Val, F.Limit, Cong, OnCurve, Fermat, NonSquare, Edwards.Add, Extended, CachedOf, Completed;
    F.LimitMonotone(q.YplusX, 2 * STORED, F.PRODUCT);
    F.LimitMonotone(q.YminusX, 2 * STORED, F.PRODUCT);
    F.LimitMonotone(q.T2d, F.REDUCED, F.PRODUCT);
    F.LimitMonotone(q.Z, STORED, F.PRODUCT);
    F.LimitMonotone(p.Z[..], STORED, F.PRODUCT);
    ghost var f, g := FirstProducts(r, p, q.YplusX, q.YminusX, q.T2d, x, y, t);
    F.Mul(r.X, p.Z[..], q.Z);
    ghost var zz := F.Val(r.X[..]);
    F.Add(t0, r.X, r.X, F.REDUCED, F.REDUCED);
    ghost var m, n, c, e := F.Val(r.Y[..]), F.Val(r.Z[..]), F.Val(r.T[..]), F.Val(t0[..]);
    F.LimitMonotone(t0[..], 2 * F.REDUCED, 2 * STORED);
    FinishSum(r, t0, m, n, c, e);
    SumFrom(x, y, z, t, plus, minus, z2, t2d, f, g, m, n, c, zz, e, F.Val(r.X[..]), F.Val(r.Y[..]), F.Val(r.Z[..]), F.Val(r.T[..]), a, b);
  }
  /** r = p - q. */
  method SubCached(r: GeP1p1, p: GeP3, q: Cached, ghost a: Point, ghost b: Point)
    requires r.Valid() && p.Valid() && r.Repr() !! p.Repr()
    requires Fermat() && NonSquare() && p.Represents(a) && q.Represents(b)
    modifies r.Repr()
    ensures r.Represents(Edwards.Add(a, Neg(b)))
  {
    hide F.Val, F.Limit, Cong, OnCurve, Fermat, NonSquare, Edwards.Add, Extended, CachedOf, Completed;
    var t0 := new int32[10];
    SubCachedWith(r, p, q, t0, a, b);
  }

  method SubCachedWith(r: GeP1p1, p: GeP3, q: Cached, t0: array<int32>, ghost a: Point, ghost b: Point)
    requires r.Valid() && p.Valid() && r.Repr() !! p.Repr() && t0.Length == 10 && t0 !in r.Repr() && t0 !in p.Repr()
    requires Fermat() && NonSquare() && p.Represents(a) && q.Represents(b)
    modifies r.Repr(), t0
    ensures r.Represents(Edwards.Add(a, Neg(b)))
  {
    ghost var x, y, z, t := F.Val(p.X[..]), F.Val(p.Y[..]), F.Val(p.Z[..]), F.Val(p.T[..]);
    ghost var plus, minus, z2, t2d := F.Val(q.YplusX), F.Val(q.YminusX), F.Val(q.Z), F.Val(q.T2d);
    hide F.Val, F.Limit, Cong, OnCurve, Fermat, NonSquare, Edwards.Add, Extended, CachedOf, Completed;
    F.LimitMonotone(q.YplusX, 2 * STORED, F.PRODUCT);
    F.LimitMonotone(q.YminusX, 2 * STORED, F.PRODUCT);
    F.LimitMonotone(q.T2d, F.REDUCED, F.PRODUCT);
    F.LimitMonotone(q.Z, STORED, F.PRODUCT);
    F.LimitMonotone(p.Z[..], STORED, F.PRODUCT);
    ghost var f, g := FirstProducts(r, p, q.YminusX, q.YplusX, q.T2d, x, y, t);
    F.Mul(r.X, p.Z[..], q.Z);
    ghost var zz := F.Val(r.X[..]);
    F.Add(t0, r.X, r.X, F.REDUCED, F.REDUCED);
    ghost var m, n, c, e := F.Val(r.Y[..]), F.Val(r.Z[..]), F.Val(r.T[..]), F.Val(t0[..]);
    F.LimitMonotone(t0[..], 2 * F.REDUCED, 2 * STORED);
    FinishDifference(r, t0, m, n, c, e);
    DifferenceFrom(x, y, z, t, plus, minus, z2, t2d, f, g, m, n, c, zz, e, F.Val(r.X[..]), F.Val(r.Y[..]), F.Val(r.Z[..]), F.Val(r.T[..]), a, b);
  }
}
