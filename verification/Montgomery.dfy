/**
 What the ladder computes: u coordinates of multiples of points. The map u = (1 + y) / (1 - y) takes the twisted
 Edwards curve to v^2 = u^3 + 486662 u^2 + u; a fraction x/z stands for the u coordinate of a point when
 x (1 - y) = z (1 + y).
 */
module Montgomery {
  import opened CInts
  import opened Bytes
  import opened Field
  import opened Edwards
  import opened Multiples
  import opened Rfc7748
  import PointCodec
  import Ge

  /** The u coordinate of a point, 0 for the identity. */
  ghost function UCoordinate(p: Point): (u: int)
    ensures 0 <= u < P
  {
    ((1 + p.y) * Inv(1 - p.y)) % P
  }

  /** u is the u coordinate of p; there is none for the identity. */
  ghost predicate IsU(u: int, p: Point) {
    Cong(u * (1 - p.y), 1 + p.y)
  }

  ghost predicate RatioAt(x: int, z: int, y: int) {
    Cong(x * (1 - y), z * (1 + y)) && !(x % P == 0 && z % P == 0)
  }

  /** x/z stands for the u coordinate of p; (1 : 0) for the identity. */
  ghost predicate HasU(q: Ratio, p: Point) {
    RatioAt(q.x, q.z, p.y)
  }

  // ---------------------------------------------------------------- fractions and y coordinates

  lemma HalfZero(x: int, z: int)
    requires Cong(x + z, 0) && Cong(x - z, 0)
    ensures x % P == 0 && z % P == 0
  {
    CongLinear(x + z, 0, x - z, 0);
    CongRemainder(x + z + (x - z), 0);
    CongRemainder(x + z - (x - z), 0);
    hide Cong;
    if x % P != 0 { Ge.Two(x); }
    if z % P != 0 { Ge.Two(z); }
  }

  /** In terms of x + z and x - z the fraction says y. */
  lemma SumAndDifferenceOf(x: int, z: int, y: int)
    requires RatioAt(x, z, y)
    ensures (x + z) % P != 0 && Cong(x - z, y * (x + z))
  {
    OffsetIsZero(x * (1 - y), z * (1 + y));
    OffsetIsZero(x - z, y * (x + z));
    assert x * (1 - y) - z * (1 + y) == x - z - y * (x + z);
    if (x + z) % P == 0 {
      CongRemainder(x + z, 0);
      hide Cong;
      CongScale(x + z, 0, y);
      CongTrans(x - z, y * (x + z), 0);
      HalfZero(x, z);
    }
  }

  // ---------------------------------------------------------------- doubling

  lemma DoubledValues(x: int, z: int, y: int)
    requires Cong(x - z, y * (x + z))
    ensures var w2, t := (x + z) * (x + z), y * y;
      && Cong((x * x - z * z) * (x * x - z * z), (w2 * w2) * t)
      && Cong(4 * (x * z) * (x * x + 486662 * (x * z) + z * z), (w2 * w2) * ((1 - t) * (1 + 121665 * (1 - t))))
  {
    hide *;
    var w, v, t := x + z, x - z, y * y;
    var w2, v2 := w * w, v * v;
    CongMul(v, y * w, v, y * w);
    SwapPairs(y, w, y, w);
    CongRefl(w2);
    CongMul(w2, w2, v2, t * w2);
    assert (x * x - z * z) * (x * x - z * z) == w2 * v2 by { assert x * x - z * z == w * v; SwapPairs(w, v, w, v); }
    assert w2 * (t * w2) == (w2 * w2) * t;
    CongLinear(w2, w2, v2, t * w2);
    var g := w2 * (1 - t);
    assert w2 - t * w2 == g;
    assert w2 - v2 == 4 * (x * z);
    assert x * x + 486662 * (x * z) + z * z == w2 + 121665 * (w2 - v2);
    CongScale(w2 - v2, g, 121665);
    CongLinear(w2, w2, 121665 * (w2 - v2), 121665 * g);
    CongMul(w2 - v2, g, w2 + 121665 * (w2 - v2), w2 + 121665 * g);
    DoubledRegroup(w2, t);
  }

  lemma DoubledRegroup(w: int, t: int)
    ensures (w * (1 - t)) * (w + 121665 * (w * (1 - t))) == (w * w) * ((1 - t) * (1 + 121665 * (1 - t)))
  {
    var s := 1 - t;
    assert w + 121665 * (w * s) == w * (1 + 121665 * s);
    SwapPairs(w, s, w, 1 + 121665 * s);
  }

  /** The curve equation, solved with d = -121665/121666. */
  lemma InverseRelation(t: int, X: int)
    requires Cong(t - X, 1 + D * (X * t))
    ensures Cong((1 + 121665 * (1 - t)) * (1 + X), t)
  {
    DefiningProperty();
    OffsetIsZero(t - X, 1 + D * (X * t));
    OffsetIsZero(121666 * D, -121665);
    hide *;
    var e1, e2 := t - X - (1 + D * (X * t)), 121666 * D - -121665;
    InverseIdentity(D, t, X);
    ByMultiples((1 + 121665 * (1 - t)) * (1 + X), t, e1, -121666, e2, -(t * X));
  }

  lemma InverseIdentity(d: int, t: int, X: int)
    ensures (1 + 121665 * (1 - t)) * (1 + X) - t
      == (t - X - (1 + d * (X * t))) * -121666 + (121666 * d - -121665) * -(t * X)
  {
    assert (121666 * d + 121665) * (t * X) == 121666 * (d * (X * t)) + 121665 * (t * X);
    assert (1 + 121665 * (1 - t)) * (1 + X) == 121666 - 121665 * t + 121666 * X - 121665 * (t * X);
  }

  /** y3 (1 - e) = t + X with the curve equation, on both sides of the fraction. */
  lemma DoubledSides(t: int, X: int, e: int, y3: int)
    requires Cong(t - X, 1 + e) && Cong(y3 * (1 - e), t + X)
    ensures Cong((1 - y3) * (1 - e), 2 * (1 - t)) && Cong((1 + y3) * (1 - e), 2 * (1 + X))
  {
    OffsetIsZero(t - X, 1 + e);
    OffsetIsZero(y3 * (1 - e), t + X);
    hide *;
    var e1, e2 := t - X - (1 + e), y3 * (1 - e) - (t + X);
    assert (1 - y3) * (1 - e) - 2 * (1 - t) == e1 * 1 + e2 * -1;
    assert (1 + y3) * (1 - e) - 2 * (1 + X) == e1 * 1 + e2 * 1;
    ByMultiples((1 - y3) * (1 - e), 2 * (1 - t), e1, 1, e2, -1);
    ByMultiples((1 + y3) * (1 - e), 2 * (1 + X), e1, 1, e2, 1);
  }

  lemma DoubledBalance(a: int, b: int, W: int, t: int, X: int, f: int, l: int, r: int)
    requires Cong(a, W * t) && Cong(b, W * ((1 - t) * (1 + 121665 * (1 - t))))
    requires Cong(l * f, 2 * (1 - t)) && Cong(r * f, 2 * (1 + X))
    requires Cong((1 + 121665 * (1 - t)) * (1 + X), t)
    ensures Cong(f * (a * l), f * (b * r))
  {
    hide *;
    var s, g := 1 - t, 1 + 121665 * (1 - t);
    CongMul(a, W * t, l * f, 2 * s);
    CongMul(b, W * (s * g), r * f, 2 * (1 + X));
    CongScale(g * (1 + X), t, 2 * (W * s));
    assert (W * t) * (2 * s) == (2 * (W * s)) * t;
    assert (W * (s * g)) * (2 * (1 + X)) == (2 * (W * s)) * (g * (1 + X));
    assert a * (l * f) == f * (a * l) && b * (r * f) == f * (b * r);
    CongTrans(f * (b * r), (2 * (W * s)) * (g * (1 + X)), (2 * (W * s)) * t);
    CongSwap(f * (b * r), (2 * (W * s)) * t);
    CongTrans(f * (a * l), (2 * (W * s)) * t, f * (b * r));
  }

  lemma DoubledNonzero(a: int, b: int, W: int, t: int)
    requires Fermat() && W % P != 0
    requires Cong(a, W * t) && Cong(b, W * ((1 - t) * (1 + 121665 * (1 - t))))
    ensures !(a % P == 0 && b % P == 0)
  {
    CongRemainder(a, 0);
    CongRemainder(b, 0);
    hide *;
    if Cong(a, 0) && Cong(b, 0) {
      var s := 1 - t;
      CongRefl(1);
      CongSwap(a, W * t);
      CongTrans(W * t, a, 0);
      ZeroFactor(W, t);
      CongLinear(1, 1, t, 0);
      CongScale(s, 1, 121665);
      CongLinear(1, 1, 121665 * s, 121665 * 1);
      CongMul(s, 1, 1 + 121665 * s, 121666);
      CongScale(s * (1 + 121665 * s), 121666, W);
      CongTrans(b, W * (s * (1 + 121665 * s)), W * 121666);
      CongSwap(b, W * 121666);
      CongTrans(W * 121666, b, 0);
      ZeroFactor(W, 121666);
      SmallNonzero();
    }
  }

  lemma SmallNonzero()
    ensures !Cong(121666, 0) && !Cong(2, 0)
  {
    ModulusValue();
    CongRemainder(121666, 0);
    CongRemainder(2, 0);
  }

  lemma ZeroFactor(k: int, t: int)
    requires Fermat() && k % P != 0 && Cong(k * t, 0)
    ensures Cong(t, 0)
  {
    hide *;
    assert k * 0 == 0;
    Cancel(k, t, 0);
  }

  /** `Doubled` doubles. */
  lemma DoublingStep(q: Ratio, p: Point)
    requires Fermat() && NonSquare() && OnCurve(p) && HasU(q, p)
    ensures HasU(Doubled(q), Add(p, p))
  {
    var t, X, y3 := p.y * p.y, p.x * p.x, Add(p, p).y;
    Complete(p, p);
    SumCoordinates(p, p);
    CurveMeaning(p.x, p.y);
    assert Cross(p, p) == D * (X * t) && YNumerator(p, p) == t + X;
    DoubledAt(q.x, q.z, p.y, t, X, y3);
  }

  lemma DoubledAt(x: int, z: int, y: int, t: int, X: int, y3: int)
    requires Fermat() && RatioAt(x, z, y) && t == y * y
    requires Cong(t - X, 1 + D * (X * t)) && (1 - D * (X * t)) % P != 0
    requires Cong(y3 * (1 - D * (X * t)), t + X)
    ensures RatioAt(Doubled(Ratio(x, z)).x, Doubled(Ratio(x, z)).z, y3)
  {
    hide *;
    var w, e := x + z, D * (X * t);
    var a, b := (x * x - z * z) * (x * x - z * z), 4 * (x * z) * (x * x + 486662 * (x * z) + z * z);
    var W := (w * w) * (w * w);
    SumAndDifferenceOf(x, z, y);
    NonzeroProduct(w, w);
    NonzeroProduct(w * w, w * w);
    DoubledValues(x, z, y);
    InverseRelation(t, X);
    DoubledSides(t, X, e, y3);
    DoubledBalance(a, b, W, t, X, 1 - e, 1 - y3, 1 + y3);
    Cancel(1 - e, a * (1 - y3), b * (1 + y3));
    DoubledNonzero(a, b, W, t);
    ReducedRatio(a, b, y3);
    DoubledIs(x, z);
  }

  lemma DoubledIs(x: int, z: int)
    ensures Doubled(Ratio(x, z)).x == ((x * x - z * z) * (x * x - z * z)) % P
    ensures Doubled(Ratio(x, z)).z == (4 * (x * z) * (x * x + 486662 * (x * z) + z * z)) % P
  {
  }

  /** A fraction may be reduced. */
  lemma ReducedRatio(a: int, b: int, y: int)
    requires Cong(a * (1 - y), b * (1 + y)) && !(a % P == 0 && b % P == 0)
    ensures RatioAt(a % P, b % P, y)
  {
    CongMod(a);
    CongMod(b);
    CongRefl(1 - y);
    CongRefl(1 + y);
    CongSame(a % P, a);
    CongSame(b % P, b);
    hide Cong;
    CongMul(a % P, a, 1 - y, 1 - y);
    CongMul(b, b % P, 1 + y, 1 + y);
    CongTrans((a % P) * (1 - y), a * (1 - y), b * (1 + y));
    CongTrans((a % P) * (1 - y), b * (1 + y), (b % P) * (1 + y));
  }

  // ---------------------------------------------------------------- differential addition

  lemma SumValues(x2: int, z2: int, x3: int, z3: int, y1: int, y2: int)
    requires Cong(x2 - z2, y1 * (x2 + z2)) && Cong(x3 - z3, y2 * (x3 + z3))
    ensures var s := (x2 + z2) * (x3 + z3);
      && Cong(4 * ((x2 * x3 - z2 * z3) * (x2 * x3 - z2 * z3)), (s * s) * ((y1 + y2) * (y1 + y2)))
      && Cong(4 * ((z2 * x3 - x2 * z3) * (z2 * x3 - x2 * z3)), (s * s) * ((y1 - y2) * (y1 - y2)))
  {
    hide *;
    var s := (x2 + z2) * (x3 + z3);
    var f, g := x2 * x3 - z2 * z3, z2 * x3 - x2 * z3;
    CrossValues(x2 + z2, x2 - z2, x3 + z3, x3 - z3, y1, y2);
    LadderTerms(x2, z2, x3, z3);
    FourTimes(f, s, y1 + y2);
    CongLinear(2 * g, s * (y2 - y1), 2 * g, s * (y2 - y1));
    assert -(s * (y2 - y1)) == s * (y1 - y2) && -(2 * g) == 2 * -g && -g * -g == g * g;
    FourTimes(-g, s, y1 - y2);
  }

  lemma CrossValues(a: int, b: int, c: int, d: int, y1: int, y2: int)
    requires Cong(b, y1 * a) && Cong(d, y2 * c)
    ensures Cong(d * a + c * b, (a * c) * (y1 + y2)) && Cong(d * a - c * b, (a * c) * (y2 - y1))
  {
    hide *;
    var s := a * c;
    CongScale(d, y2 * c, a);
    CongScale(b, y1 * a, c);
    assert a * (y2 * c) == s * y2 && c * (y1 * a) == s * y1 && a * d == d * a;
    CongLinear(d * a, s * y2, c * b, s * y1);
    assert s * y2 + s * y1 == s * (y1 + y2) && s * y2 - s * y1 == s * (y2 - y1);
  }

  lemma FourTimes(f: int, s: int, y: int)
    requires Cong(2 * f, s * y)
    ensures Cong(4 * (f * f), (s * s) * (y * y))
  {
    hide *;
    CongMul(2 * f, s * y, 2 * f, s * y);
    SwapPairs(s, y, s, y);
    FourSquares(2 * f, f);
  }

  /** What the curve equation says of x^2 alone. */
  lemma SquareOfX(X: int, a: int)
    requires Cong(a - X, 1 + D * (X * a))
    ensures Cong(X * (1 + D * a), a - 1)
  {
    assert X * (1 + D * a) - (a - 1) == 1 + D * (X * a) - (a - X) by { assert X * (D * a) == D * (X * a); }
    PointCodec.OppositeDifferences(a - X, 1 + D * (X * a), X * (1 + D * a), a - 1);
  }

  /** With p = y1 y2 the terms in y1^2 y2^2 cancel. */
  lemma ProductIdentity(d: int, p: int, a: int, b: int)
    requires p * p == a * b
    ensures ((1 - p) * (1 - p)) * ((1 + d * a) * (1 + d * b)) - ((a - 1) * (b - 1)) * ((1 + d * p) * (1 + d * p))
      == ((1 + d) * (1 + d * (p * p))) * (a + b - 2 * p)
  {
    var c, s := p * p, a + b;
    assert (1 + d * a) * (1 + d * b) == 1 + d * s + (d * d) * c by {
      SwapPairs(d, a, d, b);
      assert d * a + d * b == d * s;
    }
    assert (a - 1) * (b - 1) == c - s + 1;
    assert (1 + d * p) * (1 + d * p) == 1 + 2 * (d * p) + (d * d) * c by { SwapPairs(d, p, d, p); }
    assert (1 - p) * (1 - p) == 1 - 2 * p + c;
    ProductExpansion(d, p, c, s);
  }

  lemma ProductExpansion(d: int, p: int, c: int, s: int)
    ensures (1 - 2 * p + c) * (1 + d * s + (d * d) * c) - (c - s + 1) * (1 + 2 * (d * p) + (d * d) * c)
      == ((1 + d) * (1 + d * c)) * (s - 2 * p)
  {
    var g, h := 1 + c, 1 + (d * d) * c;
    CrossTerms(g, h, d, s, 2 * p);
    assert d * (2 * p) == 2 * (d * p);
    assert g * d + h == (1 + d) * (1 + d * c) by { assert d * (d * c) == (d * d) * c; }
  }

  lemma CrossTerms(g: int, h: int, d: int, s: int, r: int)
    ensures (g - r) * (h + d * s) - (g - s) * (h + d * r) == (g * d + h) * (s - r)
  {
    assert r * (d * s) == s * (d * r);
    assert g * (d * s) == (g * d) * s && g * (d * r) == (g * d) * r;
    assert (g - r) * (h + d * s) == g * h + g * (d * s) - r * h - r * (d * s);
    assert (g - s) * (h + d * r) == g * h + g * (d * r) - s * h - s * (d * r);
    var k := g * d;
    assert (k + h) * (s - r) == k * s - k * r + h * s - h * r;
  }

  /** The product of the two denominators' complements, cleared of x. */
  lemma OneSide(p: int, q: int, X: int, Y: int, a: int, b: int)
    requires p * p == a * b && q * q == X * Y
    requires Cong(X * (1 + D * a), a - 1) && Cong(Y * (1 + D * b), b - 1)
    ensures var e := D * (q * p);
      Cong(((1 - e - p - q) * (1 + e - p + q)) * ((1 + D * a) * (1 + D * b)),
           ((1 + D) * (1 + D * (p * p))) * (a + b - 2 * p))
  {
    hide *;
    var e, k1, k2, h := D * (q * p), 1 + D * a, 1 + D * b, 1 + D * p;
    var K := k1 * k2;
    CongMul(X * k1, a - 1, Y * k2, b - 1);
    CongRefl(h * h);
    CongMul((X * k1) * (Y * k2), (a - 1) * (b - 1), h * h, h * h);
    var l := ((1 - p) * (1 - p)) * K;
    CongRefl(l);
    CongLinear(l, l, ((X * k1) * (Y * k2)) * (h * h), ((a - 1) * (b - 1)) * (h * h));
    ProductIdentity(D, p, a, b);
    SideTerms(D, p, q, h, e);
    SwapPairs(X, k1, Y, k2);
    assert ((q * q) * (h * h)) * K == ((X * k1) * (Y * k2)) * (h * h) by { assert (q * q) * K == (X * k1) * (Y * k2); }
    assert (((1 - p) * (1 - p)) - (q * q) * (h * h)) * K == l - ((q * q) * (h * h)) * K;
  }

  lemma SideTerms(d: int, p: int, q: int, h: int, e: int)
    requires h == 1 + d * p && e == d * (q * p)
    ensures (1 - e - p - q) * (1 + e - p + q) == (1 - p) * (1 - p) - (q * q) * (h * h)
  {
    assert e + q == q * h;
    SwapPairs(q, h, q, h);
    var u, v := 1 - p, e + q;
    assert (u - v) * (u + v) == u * u - v * v;
  }

  /** Both products at once: the roles of y1 + y2 and y1 - y2 are exchanged. */
  lemma BothSides(y1: int, y2: int, q: int, X: int, Y: int)
    requires q * q == X * Y
    requires Cong(X * (1 + D * (y1 * y1)), y1 * y1 - 1) && Cong(Y * (1 + D * (y2 * y2)), y2 * y2 - 1)
    ensures var p, K := y1 * y2, (1 + D * (y1 * y1)) * (1 + D * (y2 * y2));
      var e, m := D * (q * p), (1 + D) * (1 + D * (p * p));
      && Cong(((1 - e - p - q) * (1 + e - p + q)) * K, m * ((y1 - y2) * (y1 - y2)))
      && Cong(((1 - e + p + q) * (1 + e + p - q)) * K, m * ((y1 + y2) * (y1 + y2)))
  {
    hide *;
    var p, a, b := y1 * y2, y1 * y1, y2 * y2;
    var e := D * (q * p);
    assert p * p == a * b by { SwapPairs(y1, y2, y1, y2); }
    assert -p * -p == p * p;
    assert q * -p == -(q * p);
    assert D * -(q * p) == -e;
    OneSide(p, q, X, Y, a, b);
    OneSide(-p, q, X, Y, a, b);
    assert (1 - e + p + q) * (1 + e + p - q) == (1 + e + p - q) * (1 - e + p + q);
    assert a + b - 2 * p == (y1 - y2) * (y1 - y2) && a + b - 2 * -p == (y1 + y2) * (y1 + y2);
  }

  lemma SumBalance(s: int, g: int, h: int, u: int, l: int, r: int, f: int, n: int, c: int, f': int, k: int, m: int)
    requires Cong(u * n, c)
    requires Cong(((l * f) * (n * f')) * k, m * h) && Cong(((r * f) * (c * f')) * k, m * g)
    ensures var w := (n * (f * f')) * k;
      Cong(w * ((s * g) * l), w * ((u * (s * h)) * r))
  {
    hide *;
    var w := (n * (f * f')) * k;
    CongScale(((l * f) * (n * f')) * k, m * h, s * g);
    CongScale(((r * f) * (c * f')) * k, m * g, s * h);
    assert w * ((s * g) * l) == (s * g) * (((l * f) * (n * f')) * k) by { Seven(n, f, f', k, l, s * g); }
    assert (s * g) * (m * h) == (s * h) * (m * g);
    var v := (s * h) * (((r * f) * f') * k);
    CongRefl(v);
    CongMul(v, v, u * n, c);
    assert w * ((u * (s * h)) * r) == v * (u * n) by {
      Seven(n, f, f', k, r, u * (s * h));
      Pulled(r, f, n, f', k, u, s * h);
    }
    assert v * c == (s * h) * (((r * f) * (c * f')) * k) by { Placed(r, f, c, f', k, s * h); }
    CongTrans(v * (u * n), v * c, (s * h) * (m * g));
    CongSwap(v * (u * n), (s * h) * (m * g));
    CongTrans(w * ((s * g) * l), (s * h) * (m * g), v * (u * n));
  }

  lemma Seven(n: int, f: int, f': int, k: int, l: int, j: int)
    ensures ((n * (f * f')) * k) * (j * l) == j * (((l * f) * (n * f')) * k)
  {
    assert (l * f) * (n * f') == l * (n * (f * f'));
    var t := n * (f * f');
    assert (t * k) * (j * l) == j * ((l * t) * k);
  }

  lemma Placed(r: int, f: int, c: int, f': int, k: int, j: int)
    ensures (j * (((r * f) * f') * k)) * c == j * (((r * f) * (c * f')) * k)
  {
    var t := r * f;
    assert (t * f') * c == t * (c * f');
    assert (j * ((t * f') * k)) * c == j * (((t * f') * c) * k) by {
      var z := t * f';
      assert (j * (z * k)) * c == j * ((z * c) * k);
    }
  }

  lemma Pulled(r: int, f: int, n: int, f': int, k: int, u: int, j: int)
    ensures (u * j) * (((r * f) * (n * f')) * k) == (j * (((r * f) * f') * k)) * (u * n)
  {
    Placed(r, f, n, f', k, j);
    var t := ((r * f) * (n * f')) * k;
    assert (u * j) * t == u * (j * t);
    var z := j * (((r * f) * f') * k);
    assert u * (z * n) == z * (u * n);
  }

  lemma SquareZero(y: int)
    requires Fermat() && Cong(y * y, 0)
    ensures Cong(y, 0)
  {
    hide *;
    PointCodec.ZeroProduct(y, y);
  }

  lemma XSquaredAtZero(X: int, y: int)
    requires Cong(y, 0) && Cong(X * (1 + D * (y * y)), y * y - 1)
    ensures Cong(X, -1)
  {
    hide *;
    CongMul(y, 0, y, 0);
    CongScale(y * y, 0, D);
    assert D * 0 == 0;
    CongRefl(1);
    CongLinear(1, 1, D * (y * y), 0);
    CongLinear(y * y, 0, 1, 1);
    CongScale(1 + D * (y * y), 1, X);
    CongSwap(X * (1 + D * (y * y)), X);
    CongTrans(X, X * (1 + D * (y * y)), y * y - 1);
    CongTrans(X, y * y - 1, -1);
  }

  /** The difference of two points with y = 0 has y = 1 or -1. */
  lemma UnitDifference(y1: int, y2: int, q: int, X: int, Y: int, yr: int)
    requires Fermat() && Cong(y1, 0) && Cong(y2, 0) && q * q == X * Y && Cong(X, -1) && Cong(Y, -1)
    requires Cong(yr * (1 + D * (q * (y1 * y2))), y1 * y2 - q)
    ensures Cong(yr, 1) || Cong(yr, -1)
  {
    hide *;
    var p := y1 * y2;
    CongMul(y1, 0, y2, 0);
    CongScale(p, 0, q);
    CongScale(q * p, 0, D);
    assert q * 0 == 0 && D * 0 == 0;
    CongRefl(1);
    CongRefl(q);
    CongLinear(1, 1, D * (q * p), 0);
    CongLinear(p, 0, q, q);
    CongScale(1 + D * (q * p), 1, yr);
    CongSwap(yr * (1 + D * (q * p)), yr);
    CongTrans(yr, yr * (1 + D * (q * p)), p - q);
    CongTrans(yr, p - q, -q);
    CongMul(yr, -q, yr, -q);
    assert -q * -q == q * q;
    CongMul(X, -1, Y, -1);
    CongTrans(yr * yr, q * q, 1);
    PointCodec.SquareRoots(yr, 1);
  }

  /** Neither the identity nor, for u not 0, the point (0, -1) has u as its u coordinate. */
  lemma NotUnitY(u: int, y: int)
    requires Cong(u * (1 - y), 1 + y)
    ensures !Cong(y, 1)
    ensures u % P != 0 ==> !Cong(y, -1)
  {
    SmallNonzero();
    CongRemainder(2 * u, 0);
    hide Cong;
    CongRefl(1);
    if Cong(y, 1) {
      CongLinear(1, 1, y, 1);
      CongScale(1 - y, 0, u);
      assert u * 0 == 0;
      CongSwap(u * (1 - y), 1 + y);
      CongTrans(1 + y, u * (1 - y), 0);
      CongSwap(1 + y, 2);
      CongTrans(2, 1 + y, 0);
    }
    if Cong(y, -1) && u % P != 0 {
      CongLinear(1, 1, y, -1);
      CongScale(1 - y, 2, u);
      CongSwap(u * (1 - y), u * 2);
      CongTrans(u * 2, u * (1 - y), 1 + y);
      CongTrans(u * 2, 1 + y, 0);
      Ge.Two(u);
    }
  }

  lemma SumNonzero(a: int, b: int, s: int, y1: int, y2: int, u: int, q: int, X: int, Y: int, yr: int)
    requires Fermat() && s % P != 0 && u % P != 0 && q * q == X * Y
    requires Cong(a, s * ((y1 + y2) * (y1 + y2))) && Cong(b, u * (s * ((y1 - y2) * (y1 - y2))))
    requires Cong(u * (1 - yr), 1 + yr) && Cong(yr * (1 + D * (q * (y1 * y2))), y1 * y2 - q)
    requires Cong(X * (1 + D * (y1 * y1)), y1 * y1 - 1) && Cong(Y * (1 + D * (y2 * y2)), y2 * y2 - 1)
    ensures !(a % P == 0 && b % P == 0)
  {
    CongRemainder(a, 0);
    CongRemainder(b, 0);
    CongRemainder(y1, 0);
    CongRemainder(y2, 0);
    hide *;
    if Cong(a, 0) && Cong(b, 0) {
      var g, h := y1 + y2, y1 - y2;
      CongSwap(a, s * (g * g));
      CongTrans(s * (g * g), a, 0);
      CongSwap(b, u * (s * (h * h)));
      CongTrans(u * (s * (h * h)), b, 0);
      ZeroFactor(s, g * g);
      ZeroFactor(u, s * (h * h));
      ZeroFactor(s, h * h);
      SquareZero(g);
      SquareZero(h);
      HalfZero(y1, y2);
      XSquaredAtZero(X, y1);
      XSquaredAtZero(Y, y2);
      UnitDifference(y1, y2, q, X, Y, yr);
      NotUnitY(u, yr);
    }
  }

  /** The y coordinate of s - p, without division. */
  lemma DifferenceCoordinate(p: Point, s: Point)
    requires Fermat() && NonSquare() && OnCurve(p) && OnCurve(s)
    ensures var q, t := p.x * s.x, p.y * s.y;
      Cong(Add(s, Neg(p)).y * (1 + D * (q * t)), t - q)
  {
    NegOnCurve(p);
    SumCoordinates(s, Neg(p));
    var y := Add(s, Neg(p)).y;
    assert Cross(s, Neg(p)) == D * ((s.x * Neg(p).x) * (s.y * p.y));
    assert YNumerator(s, Neg(p)) == s.y * p.y + s.x * Neg(p).x;
    NegatedDifference(p.x, p.y, s.x, s.y, Neg(p).x, y);
  }

  lemma NegatedDifference(x1: int, y1: int, x2: int, y2: int, z: int, y: int)
    requires Cong(z, -x1) && Cong(y * (1 - D * ((x2 * z) * (y2 * y1))), y2 * y1 + x2 * z)
    ensures Cong(y * (1 + D * ((x1 * x2) * (y1 * y2))), y1 * y2 - x1 * x2)
  {
    hide *;
    var q, t := x1 * x2, y1 * y2;
    CongScale(z, -x1, x2);
    assert x2 * -x1 == -q;
    CongRefl(t);
    CongRefl(1);
    CongMul(x2 * z, -q, t, t);
    assert -q * t == -(q * t);
    CongScale((x2 * z) * t, -(q * t), D);
    assert D * -(q * t) == -(D * (q * t));
    CongLinear(1, 1, D * ((x2 * z) * t), -(D * (q * t)));
    CongScale(1 - D * ((x2 * z) * t), 1 + D * (q * t), y);
    CongSwap(y * (1 - D * ((x2 * z) * t)), y * (1 + D * (q * t)));
    CongTrans(y * (1 + D * (q * t)), y * (1 - D * ((x2 * z) * t)), t + x2 * z);
    CongLinear(t, t, x2 * z, -q);
    CongTrans(y * (1 + D * (q * t)), t + x2 * z, t - q);
  }

  /** `DifferentialSum` adds points whose difference has the u coordinate x1. */
  lemma SumStep(u: int, q: Ratio, r: Ratio, p: Point, s: Point)
    requires Fermat() && NonSquare() && OnCurve(p) && OnCurve(s) && HasU(q, p) && HasU(r, s)
    requires u % P != 0 && IsU(u, Add(s, Neg(p)))
    ensures HasU(DifferentialSum(u, q, r), Add(p, s))
  {
    Complete(p, s);
    SumCoordinates(p, s);
    DifferenceCoordinate(p, s);
    CurveMeaning(p.x, p.y);
    CurveMeaning(s.x, s.y);
    assert Cross(p, s) == D * ((p.x * s.x) * (p.y * s.y)) && YNumerator(p, s) == p.y * s.y + p.x * s.x;
    var yr, y3 := Add(s, Neg(p)).y, Add(p, s).y;
    hide Cong, OnCurve, Fermat, NonSquare, Add, Cross, YNumerator, Neg;
    SquareOfX(p.x * p.x, p.y * p.y);
    SquareOfX(s.x * s.x, s.y * s.y);
    SumAt(u, q.x, q.z, r.x, r.z, p.x, p.y, s.x, s.y, yr, y3);
  }

  lemma SumAt(u: int, x2: int, z2: int, x3: int, z3: int, px: int, y1: int, sx: int, y2: int, yr: int, y3: int)
    requires Fermat() && NonSquare() && RatioAt(x2, z2, y1) && RatioAt(x3, z3, y2)
    requires u % P != 0 && Cong(u * (1 - yr), 1 + yr)
    requires Cong((px * px) * (1 + D * (y1 * y1)), y1 * y1 - 1) && Cong((sx * sx) * (1 + D * (y2 * y2)), y2 * y2 - 1)
    requires var e := D * ((px * sx) * (y1 * y2));
      && (1 + e) % P != 0 && (1 - e) % P != 0
      && Cong(y3 * (1 - e), y1 * y2 + px * sx) && Cong(yr * (1 + e), y1 * y2 - px * sx)
    ensures var t := DifferentialSum(u, Ratio(x2, z2), Ratio(x3, z3)); RatioAt(t.x, t.z, y3)
  {
    hide *;
    var q, p, X, Y := px * sx, y1 * y2, px * px, sx * sx;
    var e, s := D * (q * p), (x2 + z2) * (x3 + z3);
    var g, h := (y1 + y2) * (y1 + y2), (y1 - y2) * (y1 - y2);
    var a := 4 * ((x2 * x3 - z2 * z3) * (x2 * x3 - z2 * z3));
    var c := 4 * ((z2 * x3 - x2 * z3) * (z2 * x3 - x2 * z3));
    assert q * q == X * Y by { SwapPairs(px, sx, px, sx); }
    SumAndDifferenceOf(x2, z2, y1);
    SumAndDifferenceOf(x3, z3, y2);
    NonzeroProduct(x2 + z2, x3 + z3);
    NonzeroProduct(s, s);
    SumValues(x2, z2, x3, z3, y1, y2);
    CongScale(c, (s * s) * h, u);
    SumNonzero(a, u * c, s * s, y1, y2, u, q, X, Y, yr);
    SumCleared(a, u * c, s * s, y1, y2, u, q, X, Y, yr, y3);
    ReducedRatio(a, u * c, y3);
    SumIsFraction(u, x2, z2, x3, z3);
  }

  lemma SumIsFraction(u: int, x2: int, z2: int, x3: int, z3: int)
    ensures var t := DifferentialSum(u, Ratio(x2, z2), Ratio(x3, z3));
      && t.x == (4 * ((x2 * x3 - z2 * z3) * (x2 * x3 - z2 * z3))) % P
      && t.z == (u * (4 * ((z2 * x3 - x2 * z3) * (z2 * x3 - x2 * z3)))) % P
  {
  }

  /** The fraction of the sum, after clearing every denominator. */
  lemma SumCleared(a: int, b: int, s: int, y1: int, y2: int, u: int, q: int, X: int, Y: int, yr: int, y3: int)
    requires Fermat() && NonSquare() && q * q == X * Y
    requires Cong(a, s * ((y1 + y2) * (y1 + y2))) && Cong(b, u * (s * ((y1 - y2) * (y1 - y2))))
    requires Cong(X * (1 + D * (y1 * y1)), y1 * y1 - 1) && Cong(Y * (1 + D * (y2 * y2)), y2 * y2 - 1)
    requires Cong(u * (1 - yr), 1 + yr)
    requires var e := D * (q * (y1 * y2));
      && (1 + e) % P != 0 && (1 - e) % P != 0
      && Cong(y3 * (1 - e), y1 * y2 + q) && Cong(yr * (1 + e), y1 * y2 - q)
    ensures Cong(a * (1 - y3), b * (1 + y3))
  {
    hide *;
    var p, k1, k2 := y1 * y2, 1 + D * (y1 * y1), 1 + D * (y2 * y2);
    var e, m := D * (q * p), (1 + D) * (1 + D * (p * p));
    var g, h := (y1 + y2) * (y1 + y2), (y1 - y2) * (y1 - y2);
    BothSides(y1, y2, q, X, Y);
    Complements(y3, 1 - e, p + q);
    Complements(yr, 1 + e, p - q);
    Replace((1 - y3) * (1 - e), 1 - e - p - q, (1 - yr) * (1 + e), 1 + e - p + q, k1 * k2, m * h);
    Replace((1 + y3) * (1 - e), 1 - e + p + q, (1 + yr) * (1 + e), 1 + e + p - q, k1 * k2, m * g);
    SumBalance(s, g, h, u, 1 - y3, 1 + y3, 1 - e, 1 - yr, 1 + yr, 1 + e, k1 * k2, m);
    FactorsNonzero(u, yr, y1, y2, 1 - e, 1 + e);
    Cancel(((1 - yr) * ((1 - e) * (1 + e))) * (k1 * k2), (s * g) * (1 - y3), (u * (s * h)) * (1 + y3));
    CongRefl(1 - y3);
    CongRefl(1 + y3);
    CongMul(a, s * g, 1 - y3, 1 - y3);
    CongMul(b, u * (s * h), 1 + y3, 1 + y3);
    CongTrans(a * (1 - y3), (s * g) * (1 - y3), (u * (s * h)) * (1 + y3));
    CongSwap(b * (1 + y3), (u * (s * h)) * (1 + y3));
    CongTrans(a * (1 - y3), (u * (s * h)) * (1 + y3), b * (1 + y3));
  }

  lemma Complements(y: int, f: int, n: int)
    requires Cong(y * f, n)
    ensures Cong((1 - y) * f, f - n) && Cong((1 + y) * f, f + n)
  {
    hide *;
    CongRefl(f);
    CongLinear(f, f, y * f, n);
    assert (1 - y) * f == f - y * f && (1 + y) * f == f + y * f;
  }

  lemma Replace(a: int, a': int, b: int, b': int, k: int, v: int)
    requires Cong(a, a') && Cong(b, b') && Cong((a' * b') * k, v)
    ensures Cong((a * b) * k, v)
  {
    hide *;
    CongMul(a, a', b, b');
    CongRefl(k);
    CongMul(a * b, a' * b', k, k);
    CongTrans((a * b) * k, (a' * b') * k, v);
  }

  lemma FactorsNonzero(u: int, yr: int, y1: int, y2: int, f: int, f': int)
    requires Fermat() && NonSquare() && Cong(u * (1 - yr), 1 + yr) && f % P != 0 && f' % P != 0
    ensures (((1 - yr) * (f * f')) * ((1 + D * (y1 * y1)) * (1 + D * (y2 * y2)))) % P != 0
  {
    NotUnitY(u, yr);
    CongRemainder(1, yr);
    CongSwap(1, yr);
    hide *;
    PointCodec.DenominatorNonzero(y1);
    PointCodec.DenominatorNonzero(y2);
    NonzeroProduct(f, f');
    NonzeroProduct(1 - yr, f * f');
    NonzeroProduct(1 + D * (y1 * y1), 1 + D * (y2 * y2));
    NonzeroProduct((1 - yr) * (f * f'), (1 + D * (y1 * y1)) * (1 + D * (y2 * y2)));
  }

  // ---------------------------------------------------------------- the ladder on points

  lemma TopBit(k: nat, n: nat, m: nat)
    requires n > 0
    ensures var b := Bit(k, n - 1);
      m * Pow2(n) + k % Pow2(n) == (2 * m + b) * Pow2(n - 1) + k % Pow2(n - 1)
  {
    var h, b := Pow2(n - 1), Bit(k, n - 1);
    var c, r := k / h / 2, k % h;
    assert Pow2(n) == 2 * h;
    hide Pow2;
    assert k == (2 * c + b) * h + r by { assert k == k / h * h + r; }
    assert (2 * c + b) * h == c * (2 * h) + b * h && (2 * m + b) * h == m * (2 * h) + b * h;
    assert 0 <= b * h <= h;
    ModUnique(k, 2 * h, c, b * h + r);
  }

  /** The points of one rung of the ladder. */
  lemma Rung(m: int, p: Point)
    requires Curve25519() && OnCurve(p)
    ensures var q, r := SMul(m, p), SMul(m + 1, p);
      && OnCurve(q) && OnCurve(r) && Edwards.Add(r, Neg(q)) == p
      && Edwards.Add(q, q) == SMul(2 * m, p) && Edwards.Add(q, r) == SMul(2 * m + 1, p)
      && Edwards.Add(r, r) == SMul(2 * m + 2, p)
  {
    hide *;
    CurveFacts();
    SMulOnCurve(m, p);
    SMulOnCurve(m + 1, p);
    SMulNeg(m, p);
    SMulAdd(m + 1, -m, p);
    assert m + 1 + -m == 1;
    FirstMultiple(p);
    SMulAdd(m, m, p);
    SMulAdd(m, m + 1, p);
    SMulAdd(m + 1, m + 1, p);
    assert m + m == 2 * m && m + (m + 1) == 2 * m + 1 && m + 1 + (m + 1) == 2 * m + 2;
  }

  lemma FirstMultiple(p: Point)
    requires Curve25519() && OnCurve(p)
    ensures SMul(1, p) == p && SMul(0, p) == O
  {
    hide OnCurve, Edwards.Add, Neg, Fermat, NonSquare;
    AddOrigin(p);
    SMulNext(0, p);
  }

  /** From m p and (m+1) p, reading n bits of k leads to (m 2^n + k mod 2^n) p. */
  lemma {:induction false} LadderMultiples(k: nat, u: int, n: nat, q: Ratio, r: Ratio, m: nat, p: Point)
    requires Curve25519() && OnCurve(p) && IsU(u, p) && u % P != 0
    requires HasU(q, SMul(m, p)) && HasU(r, SMul(m + 1, p))
    ensures HasU(Plain(k, u, n, q, r).0, SMul(m * Pow2(n) + k % Pow2(n), p))
    ensures HasU(Plain(k, u, n, q, r).1, SMul(m * Pow2(n) + k % Pow2(n) + 1, p))
    decreases n
  {
    hide Curve25519, Fermat, NonSquare, OnCurve, IsU, HasU, SMul, Edwards.Add, Neg, Doubled, DifferentialSum, Bit;
    if n == 0 {
      NoBits(k, m);
    } else {
      CurveFacts();
      Rung(m, p);
      SumStep(u, q, r, SMul(m, p), SMul(m + 1, p));
      TopBit(k, n, m);
      hide Pow2;
      if Bit(k, n - 1) == 0 {
        DoublingStep(q, SMul(m, p));
        LadderMultiples(k, u, n - 1, Doubled(q), DifferentialSum(u, q, r), 2 * m, p);
      } else {
        DoublingStep(r, SMul(m + 1, p));
        LadderMultiples(k, u, n - 1, DifferentialSum(u, q, r), Doubled(r), 2 * m + 1, p);
      }
    }
  }

  lemma NoBits(k: nat, m: nat)
    ensures m * Pow2(0) + k % Pow2(0) == m
  {
    assert Pow2(0) == 1;
  }

  // ---------------------------------------------------------------- the quotient at the end

  lemma InverseOfZero(z: int)
    requires Cong(z, 0)
    ensures Inv(z) == 0
  {
    PowStep(0, P - 2);
    PowCong(z, 0, P - 2);
    hide Cong, Pow;
    ModUnique(0, P, 0, 0);
    CongSame(Pow(z, P - 2), Pow(0, P - 2));
  }

  lemma ZeroTimes(x: int, z: int)
    requires Fermat() && Cong(x * z, 0)
    ensures (x * Inv(z)) % P == 0
  {
    hide Fermat, Cong, Inv;
    ModUnique(0, P, 0, 0);
    PointCodec.ZeroProduct(x, z);
    if Cong(z, 0) {
      InverseOfZero(z);
      assert x * 0 == 0;
    } else {
      CongScale(x, 0, Inv(z));
      assert Inv(z) * 0 == 0;
      CongSame(Inv(z) * x, 0);
      assert Inv(z) * x == x * Inv(z);
    }
  }

  /** The quotient of a fraction is the coordinate. */
  lemma QuotientIsU(q: Ratio, p: Point)
    requires Fermat() && HasU(q, p)
    ensures (q.x * Inv(q.z)) % P == UCoordinate(p)
  {
    QuotientAt(q.x, q.z, p.y);
  }

  lemma QuotientAt(x: int, z: int, y: int)
    requires Fermat() && RatioAt(x, z, y)
    ensures (x * Inv(z)) % P == ((1 + y) * Inv(1 - y)) % P
  {
    var r := ((1 + y) * Inv(1 - y)) % P;
    CongRemainder(z, 0);
    CongRemainder(x, 0);
    CongRemainder(1 - y, 0);
    hide *;
    if Cong(1 - y, 0) {
      ZeroDenominator(x, z, y);
      CongScale(1 - y, 0, 1 + y);
      assert (1 + y) * 0 == 0;
      ZeroTimes(1 + y, 1 - y);
    } else {
      QuotientIs(0, 1 + y, 1 - y);
      NonzeroDenominator(x, z, y);
      ClearQuotient(x, z, y, r);
      InverseReduced(1 + y, 1 - y);
      QuotientIs(r, x, z);
    }
  }

  lemma InverseReduced(n: int, k: int)
    ensures 0 <= (n * Inv(k)) % P < P
  {
  }

  lemma ZeroDenominator(x: int, z: int, y: int)
    requires Fermat() && RatioAt(x, z, y) && Cong(1 - y, 0)
    ensures (x * Inv(z)) % P == 0
  {
    hide Fermat, Cong, Inv;
    CongRefl(2);
    CongLinear(2, 2, 1 - y, 0);
    CongScale(1 - y, 0, x);
    assert x * 0 == 0;
    CongSwap(x * (1 - y), z * (1 + y));
    CongTrans(z * (1 + y), x * (1 - y), 0);
    CongScale(1 + y, 2, z);
    CongSwap(z * (1 + y), z * 2);
    CongTrans(z * 2, z * (1 + y), 0);
    PointCodec.ZeroProduct(z, 2);
    SmallNonzero();
    CongScale(z, 0, x);
    ZeroTimes(x, z);
  }

  lemma NonzeroDenominator(x: int, z: int, y: int)
    requires Fermat() && RatioAt(x, z, y) && !Cong(1 - y, 0)
    ensures z % P != 0
  {
    CongRemainder(z, 0);
    CongRemainder(x, 0);
    hide Fermat, Cong;
    if Cong(z, 0) {
      CongScale(z, 0, 1 + y);
      assert (1 + y) * z == z * (1 + y) && (1 + y) * 0 == 0;
      CongTrans(x * (1 - y), z * (1 + y), 0);
      PointCodec.ZeroProduct(x, 1 - y);
    }
  }

  lemma ClearQuotient(x: int, z: int, y: int, r: int)
    requires Fermat() && RatioAt(x, z, y) && (1 - y) % P != 0 && Cong(r * (1 - y), 1 + y)
    ensures Cong(r * z, x)
  {
    hide Fermat, Cong;
    CongSwap(x * (1 - y), z * (1 + y));
    CongScale(r * (1 - y), 1 + y, z);
    CongTrans(z * (r * (1 - y)), z * (1 + y), x * (1 - y));
    assert z * (r * (1 - y)) == (1 - y) * (r * z) && x * (1 - y) == (1 - y) * x;
    Cancel(1 - y, r * z, x);
  }

  // ---------------------------------------------------------------- u = 0

  /** From u = 0 every fraction of the ladder has a zero in it. */
  lemma {:induction false} ZeroLadder(k: nat, u: int, n: nat, q: Ratio, r: Ratio)
    requires Cong(u, 0) && Cong(q.x * q.z, 0) && Cong(r.x * r.z, 0)
    ensures var v := Plain(k, u, n, q, r).0; Cong(v.x * v.z, 0)
    decreases n
  {
    if n != 0 {
      ZeroDoubled(q);
      ZeroDoubled(r);
      ZeroSummed(u, q, r);
      hide Cong, Doubled, DifferentialSum, Bit;
      if Bit(k, n - 1) == 0 {
        ZeroLadder(k, u, n - 1, Doubled(q), DifferentialSum(u, q, r));
      } else {
        ZeroLadder(k, u, n - 1, DifferentialSum(u, q, r), Doubled(r));
      }
    }
  }

  lemma ZeroDoubled(q: Ratio)
    requires Cong(q.x * q.z, 0)
    ensures Cong(Doubled(q).x * Doubled(q).z, 0)
  {
    DoubledIs(q.x, q.z);
    var t, c := Doubled(q), q.x * q.x + 486662 * (q.x * q.z) + q.z * q.z;
    hide Cong, Doubled;
    CongScale(q.x * q.z, 0, 4 * c);
    assert 4 * c * 0 == 0 && 4 * c * (q.x * q.z) == 4 * (q.x * q.z) * c;
    ZeroRemainder(4 * (q.x * q.z) * c, t.x);
  }

  lemma ZeroSummed(u: int, q: Ratio, r: Ratio)
    requires Cong(u, 0)
    ensures Cong(DifferentialSum(u, q, r).x * DifferentialSum(u, q, r).z, 0)
  {
    SumIsFraction(u, q.x, q.z, r.x, r.z);
    var t, c := DifferentialSum(u, q, r), 4 * ((q.z * r.x - q.x * r.z) * (q.z * r.x - q.x * r.z));
    hide Cong, DifferentialSum;
    CongScale(u, 0, c);
    assert c * 0 == 0 && c * u == u * c;
    ZeroRemainder(u * c, t.x);
  }

  lemma ZeroRemainder(z: int, x: int)
    requires Cong(z, 0)
    ensures Cong(x * (z % P), 0)
  {
    CongMod(z);
    hide Cong;
    CongTrans(z % P, z, 0);
    CongScale(z % P, 0, x);
    assert x * 0 == 0;
  }

  /** X25519 of 0 is 0 for every scalar. */
  lemma X25519OfZero(k: nat, u: int)
    requires Fermat() && u % P == 0
    ensures X25519(k, u) == 0
  {
    CongRemainder(u, 0);
    hide Cong, Fermat, Plain, X25519, Inv;
    X25519IsPlainLadder(k, u);
    CongRefl(0);
    var q, r := Ratio(1, 0), Ratio(u, 1);
    ZeroLadder(k, u, 255, q, r);
    var v := Plain(k, u, 255, q, r).0;
    ZeroTimes(v.x, v.z);
  }

  /** The only points with u = 0 or without u are (0, -1) and the identity; their multiples are such points again. */
  lemma {:induction false} MultiplesOfOrderTwo(n: nat, p: Point)
    requires Curve25519() && OnCurve(p) && Cong(p.y, -1)
    ensures Cong(SMul(n, p).y, 1) || Cong(SMul(n, p).y, -1)
    decreases n
  {
    if n == 0 {
      CongRefl(1);
    } else {
      var q := SMul(n - 1, p);
      MultiplesOfOrderTwo(n - 1, p);
      CurveFacts();
      hide OnCurve, Edwards.Add, Fermat, NonSquare, Cong;
      SMulOnCurve(n - 1, p);
      Opposite(q, p);
      if Cong(q.y, 1) { NegatedUnit(SMul(n, p).y, q.y, 1); } else { NegatedUnit(SMul(n, p).y, q.y, -1); }
    }
  }

  lemma NegatedUnit(y: int, z: int, e: int)
    requires Cong(y, -z) && Cong(z, e)
    ensures Cong(y, -e)
  {
    hide *;
    CongLinear(z, e, z, e);
    CongTrans(y, -z, -e);
  }

  /** Adding (0, -1) changes the sign of y. */
  lemma Opposite(q: Point, p: Point)
    requires Fermat() && NonSquare() && OnCurve(p) && OnCurve(q) && Cong(p.y, -1)
    ensures Cong(Edwards.Add(q, p).y, -q.y)
  {
    UnitYMeansZeroX(p);
    SumCoordinates(q, p);
    assert Cross(q, p) == 0 && YNumerator(q, p) == q.y * p.y;
    hide *;
    var y := Edwards.Add(q, p).y;
    CongScale(p.y, -1, q.y);
    assert y * (1 - 0) == y && q.y * -1 == -q.y;
    CongTrans(y, q.y * p.y, -q.y);
  }

  lemma UnitYMeansZeroX(p: Point)
    requires Fermat() && NonSquare() && OnCurve(p) && (Cong(p.y, -1) || Cong(p.y, 1))
    ensures p.x == 0
  {
    CurveMeaning(p.x, p.y);
    CongRemainder(p.x, 0);
    ModUnique(p.x, P, 0, p.x);
    hide OnCurve, Fermat, NonSquare, Cong;
    var X, t := p.x * p.x, p.y * p.y;
    SquareOfX(X, t);
    PointCodec.DenominatorNonzero(p.y);
    if Cong(p.y, 1) { CongMul(p.y, 1, p.y, 1); } else { CongMul(p.y, -1, p.y, -1); }
    CongRefl(1);
    CongLinear(t, 1, 1, 1);
    CongTrans(X * (1 + D * t), t - 1, 0);
    assert X * (1 + D * t) == (D * t + 1) * X;
    ZeroFactor(D * t + 1, X);
    SquareZero(p.x);
  }

  // ---------------------------------------------------------------- what X25519 computes

  /** At a point with u = 0 the multiples have u = 0 or no u at all. */
  lemma ZeroCoordinate(n: nat, p: Point)
    requires Curve25519() && OnCurve(p) && Cong(p.y, -1)
    ensures UCoordinate(SMul(n, p)) == 0
  {
    MultiplesOfOrderTwo(n, p);
    CurveFacts();
    ZeroAtUnits(SMul(n, p).y);
  }

  lemma ZeroAtUnits(y: int)
    requires Fermat() && (Cong(y, 1) || Cong(y, -1))
    ensures ((1 + y) * Inv(1 - y)) % P == 0
  {
    hide Fermat, Cong, Inv;
    CongRefl(1);
    var a, b := 1 + y, 1 - y;
    if Cong(y, 1) {
      CongLinear(1, 1, y, 1);
      CongScale(b, 0, a);
      assert a * 0 == 0;
    } else {
      CongLinear(1, 1, y, -1);
      CongScale(a, 0, b);
      assert b * 0 == 0 && b * a == a * b;
    }
    ZeroTimes(a, b);
  }

  /**
   X25519 multiplies points: for a point of the curve with coordinate u, the result is the coordinate of the
   multiple by the low 255 bits of the scalar, and 0 if that is the identity.
   */
  lemma X25519IsMultiple(k: nat, u: int, p: Point)
    requires Curve25519() && OnCurve(p) && IsU(u, p)
    ensures X25519(k, u) == UCoordinate(SMul(k % Pow2(255), p))
  {
    var n := k % Pow2(255);
    if u % P == 0 {
      CurveFacts();
      X25519OfZero(k, u);
      OrderTwo(u, p);
      ZeroCoordinate(n, p);
    } else {
      hide Curve25519, OnCurve, IsU, Fermat, NonSquare, Cong, Plain, X25519, Inv, SMul, Pow2;
      CurveFacts();
      X25519IsPlainLadder(k, u);
      FirstMultiple(p);
      StartRatios(u, p);
      LadderMultiples(k, u, 255, Ratio(1, 0), Ratio(u, 1), 0, p);
      QuotientIsU(Plain(k, u, 255, Ratio(1, 0), Ratio(u, 1)).0, SMul(n, p));
    }
  }

  lemma OrderTwo(u: int, p: Point)
    requires u % P == 0 && IsU(u, p)
    ensures Cong(p.y, -1)
  {
    CongRemainder(u, 0);
    hide Cong;
    var y := p.y;
    CongScale(u, 0, 1 - y);
    assert (1 - y) * 0 == 0 && (1 - y) * u == u * (1 - y);
    CongSwap(u * (1 - y), 1 + y);
    CongTrans(1 + y, u * (1 - y), 0);
    CongRefl(1);
    CongLinear(1 + y, 0, 1, 1);
  }

  lemma StartRatios(u: int, p: Point)
    requires IsU(u, p)
    ensures HasU(Ratio(1, 0), O) && HasU(Ratio(u, 1), p)
  {
    ModulusValue();
    CongRefl(0);
    ModUnique(1, P, 0, 1);
  }

  /** A point other than the identity has the coordinate `UCoordinate` gives. */
  lemma CoordinateIsU(p: Point)
    requires Fermat() && !Cong(p.y, 1)
    ensures IsU(UCoordinate(p), p)
  {
    CongRemainder(1, p.y);
    CongSwap(1, p.y);
    hide Fermat, Cong, Inv;
    QuotientIs(0, 1 + p.y, 1 - p.y);
  }

  /** Two scalar multiplications in a row multiply the scalars. */
  lemma X25519Composed(a: nat, b: nat, u: int, p: Point)
    requires Curve25519() && OnCurve(p) && IsU(u, p) && a < Pow2(255) && b < Pow2(255)
    ensures X25519(a, X25519(b, u)) == UCoordinate(SMul(a * b, p))
  {
    hide Curve25519, OnCurve, IsU, Fermat, NonSquare, Cong, X25519, SMul, Pow2, UCoordinate;
    CurveFacts();
    var q := SMul(b, p);
    LowBits(a);
    LowBits(b);
    X25519IsMultiple(b, u, p);
    SMulOnCurve(b, p);
    SMulSMul(a, b, p);
    if Cong(q.y, 1) {
      NoCoordinate(q);
      X25519OfZero(a, 0);
      SMulOrigin(a);
    } else {
      CoordinateIsU(q);
      X25519IsMultiple(a, UCoordinate(q), q);
    }
  }

  lemma LowBits(k: nat)
    requires k < Pow2(255)
    ensures k % Pow2(255) == k
  {
    hide Pow2;
    ModUnique(k, Pow2(255), 0, k);
  }

  lemma NoCoordinate(q: Point)
    requires Fermat() && NonSquare() && OnCurve(q) && Cong(q.y, 1)
    ensures q == O && UCoordinate(O) == 0 && 0 % P == 0
  {
    UnitYMeansZeroX(q);
    CongSame(q.y, 1);
    ModulusValue();
    ModUnique(q.y, P, 0, q.y);
    ModUnique(0, P, 0, 0);
    CongRefl(1);
    ZeroAtUnits(1);
  }

  /** Both parties of a key exchange arrive at the same shared secret. */
  lemma SharedSecretsAgree(a: nat, b: nat, u: int, p: Point)
    requires Curve25519() && OnCurve(p) && IsU(u, p) && a < Pow2(255) && b < Pow2(255)
    ensures X25519(a, X25519(b, u)) == X25519(b, X25519(a, u))
  {
    hide *;
    X25519Composed(a, b, u, p);
    X25519Composed(b, a, u, p);
    assert a * b == b * a;
  }

  /** The base point has u = 9. */
  lemma BaseU()
    requires Fermat()
    ensures IsU(9, B)
  {
    PointCodec.FiveIsUnit();
    hide Fermat, Cong, OnCurve;
    PointCodec.BaseParts(B);
    NineAtBase(B.y);
  }

  lemma NineAtBase(y: int)
    requires Fermat() && 5 % P != 0 && Cong(5 * y, 4)
    ensures Cong(9 * (1 - y), 1 + y)
  {
    hide *;
    CongScale(5 * y, 4, 9);
    CongRefl(45);
    CongRefl(5);
    CongLinear(45, 45, 9 * (5 * y), 36);
    CongLinear(5, 5, 5 * y, 4);
    assert 5 * (9 * (1 - y)) == 45 - 9 * (5 * y) && 5 * (1 + y) == 5 + 5 * y;
    CongSwap(5 * (1 + y), 9);
    CongTrans(5 * (9 * (1 - y)), 9, 5 * (1 + y));
    Cancel(5, 9 * (1 - y), 1 + y);
  }
}
