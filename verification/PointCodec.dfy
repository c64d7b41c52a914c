/**
 The 32-byte encoding of points: y in the low 255 bits, the parity of x in the top bit (section 5.1.2 of
 RFC 8032), and the decoder of the source, which is more lenient than section 5.1.3: it takes y modulo p and
 ignores the parity bit when x is 0.
 */
module PointCodec {
  import opened CInts
  import opened Bytes
  import opened Field
  import opened Edwards
  import Multiples
  import opened Ge
  import opened Fe25Bytes
  import opened Fe25Chains
  import F = Fe25

  const TOP: int := 0x8000_0000_0000_0000_0000_0000_0000_0000_0000_0000_0000_0000_0000_0000_0000_0000   // 2^255

  ghost function Encode(p: Point): (s: seq<uint8>)
    requires OnCurve(p)
    ensures |s| == 32
  {
    ToLE(p.y + TOP * (p.x % 2), 32)
  }

  /** The y coordinate that a string stands for. */
  ghost function YOf(s: seq<uint8>): int {
    LE(s) % TOP
  }

  ghost function SignOf(s: seq<uint8>): int {
    LE(s) / TOP
  }

  /** What the decoder of the source takes `s` to mean. */
  ghost predicate IsDecodingOf(p: Point, s: seq<uint8>) {
    && OnCurve(p)
    && Cong(YOf(s), p.y)
    && (p.x == 0 || p.x % 2 == SignOf(s))
  }

  // ---------------------------------------------------------------- decoding and encoding are inverse

  lemma EncodedNumber(p: Point)
    requires OnCurve(p)
    ensures LE(Encode(p)) == p.y + TOP * (p.x % 2)
    ensures YOf(Encode(p)) == p.y && SignOf(Encode(p)) == p.x % 2
  {
    ModulusValue();
    TopIsPower();
    var b, n := p.x % 2, p.y + TOP * (p.x % 2);
    ToLEValue(n, 32);
    ModUnique(n, TOP, b, p.y);
  }

  lemma TopIsPower()
    ensures TOP == Pow2(255) && 2 * TOP == Pow2(256)
  {
    PowersOfTwo();
    Pow2Add(32, 32);
    Pow2Add(64, 64);
    Pow2Add(128, 128);
  }

  /** Every point decodes from its encoding. */
  lemma EncodingDecodes(p: Point)
    requires OnCurve(p)
    ensures IsDecodingOf(p, Encode(p))
  {
    EncodedNumber(p);
    CongRefl(p.y);
  }

  lemma DecodedY(p: Point, s: seq<uint8>)
    requires IsDecodingOf(p, s)
    ensures p.y == YOf(s) % P
  {
    hide Cong, YOf;
    CongSame(YOf(s), p.y);
    ModUnique(p.y, P, 0, p.y);
  }

  /** x^2 (d y^2 + 1) = y^2 - 1: the curve equation solved for x^2. */
  lemma CurveAsRoot(x: int, y: int)
    ensures CurveEquation(x, y) <==> Cong((D * (y * y) + 1) * (x * x), y * y - 1)
  {
    CurveMeaning(x, y);
    hide CurveEquation;
    var a, b := (D * (y * y) + 1) * (x * x), y * y - 1;
    assert a - b == (1 + D * ((x * x) * (y * y))) - (y * y - x * x) by { RootTerms(D, x * x, y * y); }
    OppositeDifferences(y * y - x * x, 1 + D * ((x * x) * (y * y)), a, b);
  }

  lemma RootTerms(d: int, X: int, Y: int)
    ensures (d * Y + 1) * X - (Y - 1) == (1 + d * (X * Y)) - (Y - X)
  {
    assert (d * Y) * X == d * (X * Y);
  }

  lemma OppositeDifferences(a: int, b: int, c: int, e: int)
    requires c - e == b - a
    ensures Cong(a, b) <==> Cong(c, e)
  {
    if Cong(a, b) { var k := CongElim(a, b); CongIntro(c, e, -k); }
    if Cong(c, e) { var k := CongElim(c, e); CongIntro(a, b, -k); }
  }

  lemma ZeroProduct(a: int, b: int)
    requires Fermat() && Cong(a * b, 0)
    ensures Cong(a, 0) || Cong(b, 0)
  {
    CongRemainder(a, 0);
    CongRemainder(b, 0);
    CongRemainder(a * b, 0);
    hide Cong, Fermat;
    if a % P != 0 && b % P != 0 { NonzeroProduct(a, b); }
  }

  /** Numbers with congruent squares are congruent up to sign. */
  lemma SquareRoots(x: int, z: int)
    requires Fermat() && Cong(x * x, z * z)
    ensures Cong(x, z) || Cong(x, -z)
  {
    hide Cong, Fermat;
    assert (x - z) * (x + z) == x * x - z * z;
    OffsetIsZero(x * x, z * z);
    ZeroProduct(x - z, x + z);
    OffsetIsZero(x, z);
    OffsetIsZero(x, -z);
    assert x - -z == x + z;
  }

  /** d y^2 + 1 is never 0, because -1 is a square and d is not. */
  lemma DenominatorNonzero(y: int)
    requires Fermat() && NonSquare()
    ensures (D * (y * y) + 1) % P != 0
  {
    if (D * (y * y) + 1) % P == 0 {
      hide Fermat;
      MinusOne(y);
      RootOfD(SQRTM1, y);
    }
  }

  lemma MinusOne(y: int)
    requires (D * (y * y) + 1) % P == 0
    ensures y % P != 0 && Cong(SQRTM1 * SQRTM1, D * y * y)
  {
    assert D * y * y == D * (y * y);
    if y % P == 0 {
      MultipleOfP(y);
    }
    RootOfMinusOne();
    hide Cong;
    BothMinusOne(SQRTM1 * SQRTM1, D * y * y);
  }

  lemma MultipleOfP(y: int)
    requires y % P == 0
    ensures (D * (y * y) + 1) % P != 0
  {
    CongRemainder(y, 0);
    var k := CongElim(y, 0);
    assert D * (y * y) == P * (k * (D * y)) by {
      assert y * (D * y) == D * (y * y);
      assert (P * k) * (D * y) == P * (k * (D * y));
    }
    ModUnique(D * (y * y) + 1, P, k * (D * y), 1);
  }

  lemma BothMinusOne(a: int, b: int)
    requires Cong(a, -1) && (b + 1) % P == 0
    ensures Cong(a, b)
  {
    CongRemainder(b, -1);
    CongSwap(b, -1);
    CongTrans(a, -1, b);
  }

  /** A string means at most one point. */
  lemma DecodingUnique(p: Point, q: Point, s: seq<uint8>)
    requires Fermat() && NonSquare()
    requires |s| == 32 && IsDecodingOf(p, s) && IsDecodingOf(q, s)
    ensures p == q
  {
    var v, u := D * (p.y * p.y) + 1, p.y * p.y - 1;
    CurveAsRoot(p.x, p.y);
    CurveAsRoot(q.x, q.y);
    DenominatorNonzero(p.y);
    DecodedY(p, s);
    DecodedY(q, s);
    hide Cong, Fermat, NonSquare;
    CongSwap(v * (q.x * q.x), u);
    CongTrans(v * (p.x * p.x), u, v * (q.x * q.x));
    Cancel(v, p.x * p.x, q.x * q.x);
    SquareRoots(p.x, q.x);
    SameParity(p.x, q.x, SignOf(s));
  }

  lemma SameParity(x: int, z: int, b: int)
    requires 0 <= x < P && 0 <= z < P
    requires Cong(x, z) || Cong(x, -z)
    requires (x == 0 || x % 2 == b) && (z == 0 || z % 2 == b)
    ensures x == z
  {
    ModulusValue();
    if Cong(x, z) { CongSame(x, z); }
    if Cong(x, -z) {
      var k := CongElim(x, -z);
      assert x + z == P * k;
    }
  }

  /**
   Where the decoder is more lenient than the standard: the strings that decode to p without being its
   encoding are those with y >= p, and those with the parity bit set although x = 0.
   */
  lemma CanonicalStrings(p: Point, s: seq<uint8>)
    requires |s| == 32 && IsDecodingOf(p, s)
    ensures s == Encode(p) <==> YOf(s) < P && !(p.x == 0 && SignOf(s) == 1)
  {
    hide *;
    OnTheCurve(p, s);
    EncodedNumber(p);
    DecodedY(p, s);
    StringParts(s);
    NumberParts(LE(s), YOf(s), SignOf(s), p.y, p.x);
    if LE(s) == LE(Encode(p)) { LEInjective(s, Encode(p)); }
  }

  lemma OnTheCurve(p: Point, s: seq<uint8>)
    requires IsDecodingOf(p, s)
    ensures OnCurve(p) && 0 <= p.x && (p.x == 0 || p.x % 2 == SignOf(s))
  {
  }

  lemma StringParts(s: seq<uint8>)
    requires |s| == 32
    ensures LE(s) == YOf(s) + TOP * SignOf(s) && 0 <= YOf(s) < TOP && (SignOf(s) == 0 || SignOf(s) == 1)
  {
    TopIsPower();
    LEBound(s, 0);
    LEEmpty(s);
    hide LE, LEFrom;
  }

  /** A string decodes exactly when its low 255 bits are, modulo p, the y coordinate of some point. */
  lemma Decodable(s: seq<uint8>)
    requires |s| == 32
    ensures (exists p :: IsDecodingOf(p, s)) <==> (exists q :: OnCurve(q) && q.y == LE(s) % TOP % P)
  {
    hide LE, OnCurve;
    if p :| IsDecodingOf(p, s) { DecodedY(p, s); }
    if q :| OnCurve(q) && q.y == LE(s) % TOP % P {
      EitherSign(q, s);
      assert IsDecodingOf(q, s) || IsDecodingOf(Neg(q), s);
    }
  }

  lemma EitherSign(q: Point, s: seq<uint8>)
    requires |s| == 32 && OnCurve(q) && q.y == YOf(s) % P
    ensures IsDecodingOf(q, s) || IsDecodingOf(Neg(q), s)
  {
    NegOnCurve(q);
    StringParts(s);
    CongMod(YOf(s));
    OtherParity(q.x);
    hide LE, YOf, SignOf, Cong, CurveEquation;
  }

  lemma OtherParity(x: int)
    requires 0 <= x < P
    ensures x != 0 ==> (-x) % P % 2 == 1 - x % 2
  {
    ModulusValue();
    if x != 0 { ModUnique(-x, P, -1, P - x); }
  }

  /** Two strings that section 5.1.3 of RFC 8032 rejects: (0, 1) with the top bit set, and with y = p + 1. */
  lemma LenientStrings()
    ensures IsDecodingOf(O, ToLE(TOP + 1, 32)) && IsDecodingOf(O, ToLE(P + 1, 32))
  {
    ModulusValue();
    TopIsPower();
    OriginOnCurve();
    hide LE, ToLE, OnCurve, Cong;
    ToLEValue(TOP + 1, 32);
    ToLEValue(P + 1, 32);
    CongRefl(1);
    CongIntro(P + 1, 1, 1);
  }

  /** A point is known by its encoding. */
  lemma EncodingInjective(p: Point, q: Point)
    requires Fermat() && NonSquare() && OnCurve(p) && OnCurve(q) && Encode(p) == Encode(q)
    ensures p == q
  {
    hide OnCurve, Encode, IsDecodingOf, Fermat, NonSquare;
    EncodingDecodes(p);
    EncodingDecodes(q);
    DecodingUnique(p, q, Encode(p));
  }

  /** The base point in numerals. */
  lemma BaseValue()
    requires Fermat() && NonSquare()
    ensures Multiples.B == Point(15112221349535400772501151409588531511454012693041857206046113283949847762202,
                                 46316835694926478169428394003475163141307993866256225615783033603165251855960)
  {
    var b, q := Multiples.B, Point(15112221349535400772501151409588531511454012693041857206046113283949847762202,
                                   46316835694926478169428394003475163141307993866256225615783033603165251855960);
    Multiples.BaseExists();
    BaseParts(b);
    BaseParts(q);
    FiveIsUnit();
    hide *;
    FourFifths(q.y, b.y);
    EncodedNumber(q);
    EvenDecoding(b, q);
    EvenDecoding(q, q);
    DecodingUnique(b, q, Encode(q));
  }

  lemma BaseParts(p: Point)
    requires Multiples.IsBasePoint(p)
    ensures OnCurve(p) && Cong(5 * p.y, 4) && p.x % 2 == 0
  {
  }

  lemma FiveIsUnit()
    ensures 5 % P != 0
  {
    ModulusValue();
  }

  lemma FourFifths(y: int, z: int)
    requires Fermat() && 5 % P != 0 && Cong(5 * y, 4) && Cong(5 * z, 4)
    ensures Cong(y, z) && Cong(y, y)
  {
    hide *;
    CongSwap(5 * z, 4);
    CongTrans(5 * y, 4, 5 * z);
    Cancel(5, y, z);
    CongRefl(y);
  }

  lemma EvenDecoding(p: Point, q: Point)
    requires OnCurve(p) && OnCurve(q) && p.x % 2 == q.x % 2 == 0 && Cong(q.y, p.y)
    requires YOf(Encode(q)) == q.y && SignOf(Encode(q)) == q.x % 2
    ensures IsDecodingOf(p, Encode(q))
  {
  }

  lemma NumberParts(n: nat, t: int, b: int, y: int, x: int)
    requires n == t + TOP * b && 0 <= t < TOP && (b == 0 || b == 1)
    requires y == t % P && 0 <= x && (x == 0 || x % 2 == b)
    ensures n == y + TOP * (x % 2) <==> t < P && !(x == 0 && b == 1)
  {
    if t < P { ModUnique(t, P, 0, t); }
  }

  // ---------------------------------------------------------------- square roots by a power

  /** With x = u (uv)^((p-5)/8): v x^2 = u e, where e = (uv)^((p-1)/4). */
  lemma Candidate(u: int, v: int, x: int)
    requires Cong(x, u * Pow(u * v, (P - 5) / 8))
    ensures Cong(v * (x * x), u * Pow(u * v, (P - 1) / 4))
  {
    ModulusValue();
    var w, k := u * v, (P - 5) / 8;
    var z := Pow(w, k);
    hide Pow, Cong;
    CongMul(x, u * z, x, u * z);
    CongScale(x * x, (u * z) * (u * z), v);
    PowAdd(w, k, k);
    PowAdd(w, k + k, 1);
    PowOne(w);
    assert k + k + 1 == (P - 1) / 4;
    assert v * ((u * z) * (u * z)) == u * ((z * z) * w) by {
      SwapPairs(u, z, u, z);
      assert v * ((u * u) * (z * z)) == u * ((z * z) * (u * v));
    }
  }

  /** If u is v times a square, e is 1 or -1 unless u is 0. */
  lemma QuarticResidue(u: int, v: int, r: int)
    requires Fermat() && Cong(v * (r * r), u)
    ensures Cong(u, 0) || Cong(Pow(u * v, (P - 1) / 4), 1) || Cong(Pow(u * v, (P - 1) / 4), -1)
  {
    ModulusValue();
    var w, n := v * r, (P - 1) / 4;
    var e := Pow(u * v, n);
    if w % P != 0 {
      assert FermatAt(w);
      hide Pow, Cong, Fermat;
      CongScale(v * (r * r), u, v);
      CongSwap(v * (v * (r * r)), v * u);
      assert v * (v * (r * r)) == w * w by { SwapPairs(v, r, v, r); assert v * (v * (r * r)) == (v * v) * (r * r); }
      assert v * u == u * v;
      PowCong(u * v, w * w, n);
      PowOfProduct(w, w, n);
      PowAdd(w, n, n);
      PowAdd(w, n + n, n + n);
      assert n + n + (n + n) == P - 1;
      var f := Pow(w, n + n);
      assert f * f == Pow(w, P - 1) && 1 * 1 == 1;
      SquareRoots(f, 1);
      if Cong(f, 1) { CongTrans(e, f, 1); } else { CongTrans(e, f, -1); }
    } else {
      ZeroTimes(v, r, u);
    }
  }

  lemma ZeroTimes(v: int, r: int, u: int)
    requires (v * r) % P == 0 && Cong(v * (r * r), u)
    ensures Cong(u, 0)
  {
    hide Cong;
    CongZero(v * r, 0);
    CongScale(v * r, 0, r);
    assert r * (v * r) == v * (r * r);
    CongSwap(v * (r * r), u);
    CongTrans(u, v * (r * r), 0);
  }

  /** The candidate fails both tests only if there is no root at all. */
  lemma NoRoot(u: int, v: int, x: int, r: int)
    requires Fermat() && Cong(x, u * Pow(u * v, (P - 5) / 8))
    requires !Cong(v * (x * x), u) && !Cong(v * (x * x), -u)
    ensures !Cong(v * (r * r), u)
  {
    if Cong(v * (r * r), u) {
      var e := Pow(u * v, (P - 1) / 4);
      Candidate(u, v, x);
      QuarticResidue(u, v, r);
      hide Pow, Cong, Fermat;
      if Cong(u, 0) {
        CongRefl(e);
        CongMul(u, 0, e, e);
        CongTrans(v * (x * x), u * e, 0);
        CongSwap(u, 0);
        CongTrans(v * (x * x), 0, u);
      } else if Cong(e, 1) {
        CongScale(e, 1, u);
        CongTrans(v * (x * x), u * e, u);
      } else {
        CongScale(e, -1, u);
        assert u * -1 == -u;
        CongTrans(v * (x * x), u * e, -u);
      }
    }
  }

  /** Multiplying a root of -u by a square root of -1 gives a root of u. */
  lemma Rotate(u: int, v: int, x: int, i: int, x': int)
    requires Cong(v * (x * x), -u) && Cong(i * i, -1) && Cong(x', x * i)
    ensures Cong(v * (x' * x'), u)
  {
    hide Cong;
    CongMul(x', x * i, x', x * i);
    CongScale(x' * x', (x * i) * (x * i), v);
    CongMul(v * (x * x), -u, i * i, -1);
    assert v * ((x * i) * (x * i)) == (v * (x * x)) * (i * i) by {
      SwapPairs(x, i, x, i);
      assert v * ((x * x) * (i * i)) == (v * (x * x)) * (i * i);
    }
    assert -u * -1 == u;
    CongTrans(v * (x' * x'), v * ((x * i) * (x * i)), u);
  }

  // ---------------------------------------------------------------- encoding

  /** The affine coordinates: X/Z and Y/Z by one inversion. */
  method ToAffine(X: seq<int32>, Y: seq<int32>, Z: seq<int32>, ghost p: Point) returns (x: seq<int32>, y: seq<int32>)
    requires F.Limit(X, STORED) && F.Limit(Y, STORED) && F.Limit(Z, STORED)
    requires Fermat() && Projective(F.Val(X), F.Val(Y), F.Val(Z), p)
    ensures F.Limit(x, F.REDUCED) && F.Limit(y, F.REDUCED)
    ensures F.Val(x) % P == p.x && F.Val(y) % P == p.y
  {
    hide F.Val, F.Limit, Projective, OnCurve, Fermat, Cong, Pow, Inv;
    F.LimitMonotone(X, STORED, F.PRODUCT);
    F.LimitMonotone(Y, STORED, F.PRODUCT);
    F.LimitMonotone(Z, STORED, F.PRODUCT);
    ProjectivePoint(F.Val(X), F.Val(Y), F.Val(Z), p);
    var a := new int32[10];
    Invert(a, Z);
    var recip := a[..];
    F.LimitMonotone(recip, F.REDUCED, F.PRODUCT);
    F.Mul(a, X, recip);
    x := a[..];
    F.Mul(a, Y, recip);
    y := a[..];
    InverseProduct(F.Val(x), F.Val(X), F.Val(recip), F.Val(Z));
    InverseProduct(F.Val(y), F.Val(Y), F.Val(recip), F.Val(Z));
  }

  lemma InverseProduct(x: int, X: int, i: int, Z: int)
    requires Cong(x, X * i) && Cong(i, Pow(Z, P - 2))
    ensures x % P == (X * Inv(Z)) % P
  {
    var j := Pow(Z, P - 2);
    CongMod(j);
    hide Pow, Cong;
    CongTrans(i, j, j % P);
    CongScale(i, j % P, X);
    CongTrans(x, X * i, X * Inv(Z));
    CongSame(x, X * Inv(Z));
  }

  /** The body of `ge_tobytes` and `ge_p3_tobytes`. */
  method EncodeCoordinates(s: array<uint8>, X: seq<int32>, Y: seq<int32>, Z: seq<int32>, ghost p: Point)
    requires s.Length >= 32
    requires F.Limit(X, STORED) && F.Limit(Y, STORED) && F.Limit(Z, STORED)
    requires Fermat() && Projective(F.Val(X), F.Val(Y), F.Val(Z), p)
    modifies s
    ensures s[..32] == Encode(p) && s[32..] == old(s[32..])
  {
    ProjectiveOnCurve(F.Val(X), F.Val(Y), F.Val(Z), p);
    hide F.Val, F.Limit, Projective, OnCurve, Fermat, ToLE, BitXor, Encode;
    var x, y := ToAffine(X, Y, Z, p);
    F.LimitMonotone(x, F.REDUCED, 220);
    F.LimitMonotone(y, F.REDUCED, 220);
    ToBytes(s, y);
    var negative := IsNegative(x);
    ghost var before := s[..32];
    YBytes(before, p);
    XorDisjoint(s[31] as nat, negative, 7);
    s[31] := BitXor(s[31] as nat, negative * 128) as uint8;
    SignedBytes(before, s[..32], p);
  }

  lemma ProjectiveOnCurve(X: int, Y: int, Z: int, p: Point)
    requires Projective(X, Y, Z, p)
    ensures OnCurve(p) && 0 <= p.x < P && 0 <= p.y < P
  {
  }

  lemma YBytes(s: seq<uint8>, p: Point)
    requires 0 <= p.y < P && s == ToLE(p.y, 32)
    ensures LE(s) == p.y && s[31] < 128 && Pow2(7) == 128
  {
    ModulusValue();
    hide ToLE, Pow2, LE;
    FitsIn32Bytes(p.y);
    ToLEValue(p.y, 32);
    LETop(s);
    PowersOfTwo();
  }

  lemma SignedBytes(s: seq<uint8>, e: seq<uint8>, p: Point)
    requires |s| == |e| == 32 && OnCurve(p) && LE(s) == p.y
    requires s[..31] == e[..31] && e[31] as int == s[31] as int + 128 * (p.x % 2)
    ensures e == Encode(p)
  {
    hide LE, ToLE, OnCurve;
    LETop(s);
    LETop(e);
    ToLEUnique(e);
  }

  method GeToBytes(s: array<uint8>, h: GeP2, ghost p: Point)
    requires h.Valid() && s.Length >= 32
    requires Fermat() && h.Represents(p)
    modifies s
    ensures OnCurve(p) && s[..32] == Encode(p) && s[32..] == old(s[32..])
  {
    hide F.Val, F.Limit, OnCurve, Fermat, Encode, Cong;
    EncodeCoordinates(s, h.X[..], h.Y[..], h.Z[..], p);
  }

  method GeP3ToBytes(s: array<uint8>, h: GeP3, ghost p: Point)
    requires h.Valid() && s.Length >= 32
    requires Fermat() && h.Represents(p)
    modifies s
    ensures OnCurve(p) && s[..32] == Encode(p) && s[32..] == old(s[32..])
  {
    hide F.Val, F.Limit, OnCurve, Fermat, Encode, Cong;
    EncodeCoordinates(s, h.X[..], h.Y[..], h.Z[..], p);
  }

  // ---------------------------------------------------------------- decoding

  ghost predicate IsRoot(r: int, u: int, v: int) {
    Cong(v * (r * r), u)
  }

  /** The power that yields a root if there is one. */
  ghost predicate IsCandidate(x: int, u: int, v: int) {
    Cong(x, u * Pow(u * v, (P - 5) / 8))
  }

  ghost predicate TimesSquare(c: int, v: int, x: int) {
    Cong(c, v * (x * x))
  }

  method LoadY(Y: array<int32>, s: seq<uint8>)
    requires Y.Length == 10 && |s| == 32
    modifies Y
    ensures F.Limit(Y[..], STORED) && Cong(F.Val(Y[..]), YOf(s))
  {
    hide F.Val, F.Limit, Cong, LE;
    FromBytes(Y, s);
  }

  /** Loads y and computes u = y^2 - 1 and v = d y^2 + 1. */
  method Numerators(Y: array<int32>, Z: array<int32>, u: array<int32>, v: array<int32>, s: seq<uint8>)
    requires Y.Length == Z.Length == u.Length == v.Length == 10 && |s| == 32
    requires Y != Z && Y != u && Y != v && Z != u && Z != v && u != v
    modifies Y, Z, u, v
    ensures F.Limit(Y[..], STORED) && F.Limit(Z[..], STORED) && F.Limit(u[..], 102) && F.Limit(v[..], 102)
    ensures Cong(F.Val(Y[..]), YOf(s)) && F.Val(Z[..]) == 1
    ensures Cong(F.Val(u[..]), YOf(s) * YOf(s) - 1) && Cong(F.Val(v[..]), D * (YOf(s) * YOf(s)) + 1)
  {
    hide F.Val, F.Limit, Cong, YOf, FE_D;
    ghost var y := YOf(s);
    LoadY(Y, s);
    F.SetSmall(Z, 1);
    F.LimitMonotone(Z[..], 1, STORED);
    F.LimitMonotone(Y[..], STORED, F.PRODUCT);
    ghost var yy := F.Val(Y[..]);
    F.Sq(u, Y[..]);
    ghost var u0 := F.Val(u[..]);
    F.LimitMonotone(u[..], F.REDUCED, F.PRODUCT);
    FieldConstants();
    F.LimitMonotone(FE_D, F.REDUCED, F.PRODUCT);
    F.Mul(v, u[..], FE_D);
    ghost var v0 := F.Val(v[..]);
    F.Sub(u, u, Z, F.REDUCED, 1);
    F.Add(v, v, Z, F.REDUCED, 1);
    NumeratorValues(yy, y, u0, F.Val(FE_D), v0);
  }

  lemma NumeratorValues(yy: int, y: int, u0: int, d: int, v0: int)
    requires Cong(yy, y) && Cong(u0, yy * yy) && Cong(d, D) && Cong(v0, u0 * d)
    ensures Cong(u0 - 1, y * y - 1) && Cong(v0 + 1, D * (y * y) + 1)
  {
    hide Cong;
    CongProduct(u0, yy, yy, y, y);
    CongProduct(v0, u0, d, y * y, D);
    assert (y * y) * D == D * (y * y);
    CongRefl(1);
    CongLinear(u0, y * y, 1, 1);
    CongLinear(v0, D * (y * y), 1, 1);
  }

  /** Finds x with v x^2 = u, or reports that there is none; `a` and `b` are the values of u and v. */
  method FindRoot(X: array<int32>, u: array<int32>, v: seq<int32>, w: array<int32>, vxx: array<int32>, check: array<int32>,
                  ghost a: int, ghost b: int)
    returns (ok: bool)
    requires X.Length == u.Length == w.Length == vxx.Length == check.Length == 10
    requires X != u && X != w && X != vxx && X != check && u != w && u != vxx && u != check && w != vxx && w != check && vxx != check
    requires F.Limit(u[..], 102) && F.Limit(v, 102) && a == F.Val(u[..]) && b == F.Val(v) && Fermat()
    modifies X, w, vxx, check
    ensures ok <==> exists r :: IsRoot(r, a, b)
    ensures ok ==> F.Limit(X[..], F.REDUCED) && IsRoot(F.Val(X[..]), a, b)
  {
    hide F.Val, F.Limit, Cong, Pow, Fermat, IsRoot, IsCandidate, TimesSquare;
    FirstRoot(X, u[..], v, w, vxx);
    ghost var x, bxx := F.Val(X[..]), F.Val(vxx[..]);
    var nonzero := Differs(check, vxx, u);
    if nonzero {
      nonzero := DiffersFromOpposite(check, vxx, u);
      if nonzero {
        NoRoots(a, b, x, bxx);
        return false;
      }
      TimesRootOfMinusOne(X);
      RotatedRoot(a, b, x, bxx, F.Val(X[..]));
    } else {
      FoundRoot(a, b, x, bxx);
    }
    ok := true;
  }

  /** `fe_mul(X, X, sqrtm1)` */
  method TimesRootOfMinusOne(X: array<int32>)
    requires X.Length == 10 && F.Limit(X[..], F.REDUCED)
    modifies X
    ensures F.Limit(X[..], F.REDUCED)
    ensures Cong(F.Val(X[..]), old(F.Val(X[..])) * SQRTM1)
  {
    ghost var x := F.Val(X[..]);
    hide F.Val, F.Limit, Cong, FE_SQRTM1;
    FieldConstants();
    F.LimitMonotone(FE_SQRTM1, F.REDUCED, F.PRODUCT);
    F.LimitMonotone(X[..], F.REDUCED, F.PRODUCT);
    F.Mul(X, X[..], FE_SQRTM1);
    CongRefl(x);
    CongProduct(F.Val(X[..]), x, F.Val(FE_SQRTM1), x, SQRTM1);
  }

  /** `fe_sub(check, f, g); fe_isnonzero(check)` */
  method Differs(check: array<int32>, f: array<int32>, g: array<int32>) returns (r: bool)
    requires check.Length == f.Length == g.Length == 10 && check != f && check != g
    requires F.Limit(f[..], F.REDUCED) && F.Limit(g[..], 102)
    modifies check
    ensures r <==> !Cong(F.Val(f[..]), F.Val(g[..]))
  {
    CongRemainder(F.Val(f[..]), F.Val(g[..]));
    hide F.Val, F.Limit, Cong;
    F.Sub(check, f, g, F.REDUCED, 102);
    F.LimitMonotone(check[..], F.REDUCED + 102, 220);
    r := IsNonzero(check[..]);
  }

  /** `fe_add(check, f, g); fe_isnonzero(check)` */
  method DiffersFromOpposite(check: array<int32>, f: array<int32>, g: array<int32>) returns (r: bool)
    requires check.Length == f.Length == g.Length == 10 && check != f && check != g
    requires F.Limit(f[..], F.REDUCED) && F.Limit(g[..], 102)
    modifies check
    ensures r <==> !Cong(F.Val(f[..]), -F.Val(g[..]))
  {
    CongRemainder(F.Val(f[..]), -F.Val(g[..]));
    hide F.Val, F.Limit, Cong;
    F.Add(check, f, g, F.REDUCED, 102);
    F.LimitMonotone(check[..], F.REDUCED + 102, 220);
    r := IsNonzero(check[..]);
  }

  /** x = u (uv)^((p-5)/8) and vxx = v x^2. */
  method FirstRoot(X: array<int32>, u: seq<int32>, v: seq<int32>, w: array<int32>, vxx: array<int32>)
    requires X.Length == w.Length == vxx.Length == 10 && X != w && X != vxx && w != vxx
    requires F.Limit(u, 102) && F.Limit(v, 102)
    modifies X, w, vxx
    ensures F.Limit(X[..], F.REDUCED) && F.Limit(vxx[..], F.REDUCED)
    ensures IsCandidate(F.Val(X[..]), F.Val(u), F.Val(v))
    ensures TimesSquare(F.Val(vxx[..]), F.Val(v), F.Val(X[..]))
  {
    ghost var a, b := F.Val(u), F.Val(v);
    hide F.Val, F.Limit, Cong, Pow;
    F.LimitMonotone(u, 102, F.PRODUCT);
    F.LimitMonotone(v, 102, F.PRODUCT);
    F.Mul(w, u, v);
    ghost var c := F.Val(w[..]);
    F.LimitMonotone(w[..], F.REDUCED, F.PRODUCT);
    Pow22523(X, w[..]);
    ghost var e := F.Val(X[..]);
    F.LimitMonotone(X[..], F.REDUCED, F.PRODUCT);
    F.Mul(X, X[..], u);
    ghost var x := F.Val(X[..]);
    F.LimitMonotone(X[..], F.REDUCED, F.PRODUCT);
    F.Sq(vxx, X[..]);
    ghost var xx := F.Val(vxx[..]);
    F.LimitMonotone(vxx[..], F.REDUCED, F.PRODUCT);
    F.Mul(vxx, vxx[..], v);
    FirstValues(a, b, c, e, x, xx, F.Val(vxx[..]));
  }

  lemma FirstValues(a: int, b: int, c: int, e: int, x: int, xx: int, bxx: int)
    requires Cong(c, a * b) && Cong(e, Pow(c, (P - 5) / 8)) && Cong(x, e * a) && Cong(xx, x * x) && Cong(bxx, xx * b)
    ensures Cong(x, a * Pow(a * b, (P - 5) / 8)) && Cong(bxx, b * (x * x))
  {
    hide Cong, Pow;
    PowCong(c, a * b, (P - 5) / 8);
    CongTrans(e, Pow(c, (P - 5) / 8), Pow(a * b, (P - 5) / 8));
    CongRefl(a);
    CongProduct(x, e, a, Pow(a * b, (P - 5) / 8), a);
    CongRefl(b);
    CongProduct(bxx, xx, b, x * x, b);
    assert Pow(a * b, (P - 5) / 8) * a == a * Pow(a * b, (P - 5) / 8) && (x * x) * b == b * (x * x);
  }

  lemma SameClass(c: int, d: int, a: int)
    requires Cong(c, d)
    ensures Cong(c, a) <==> Cong(d, a)
  {
    if Cong(c, a) { CongSwap(c, d); CongTrans(d, c, a); }
    if Cong(d, a) { CongTrans(c, d, a); }
  }

  lemma NoRoots(u: int, v: int, x: int, vxx: int)
    requires Fermat() && IsCandidate(x, u, v) && TimesSquare(vxx, v, x)
    requires !Cong(vxx, u) && !Cong(vxx, -u)
    ensures !exists r :: IsRoot(r, u, v)
  {
    SameClass(vxx, v * (x * x), u);
    SameClass(vxx, v * (x * x), -u);
    forall r ensures !IsRoot(r, u, v) {
      NoRoot(u, v, x, r);
    }
  }

  lemma FoundRoot(u: int, v: int, x: int, vxx: int)
    requires TimesSquare(vxx, v, x) && Cong(vxx, u)
    ensures IsRoot(x, u, v)
  {
    SameClass(vxx, v * (x * x), u);
  }

  lemma RotatedRoot(u: int, v: int, x: int, vxx: int, x': int)
    requires TimesSquare(vxx, v, x) && Cong(vxx, -u) && Cong(x', x * SQRTM1)
    ensures IsRoot(x', u, v)
  {
    SameClass(vxx, v * (x * x), -u);
    RootOfMinusOne();
    hide Cong;
    Rotate(u, v, x, SQRTM1, x');
  }

  /** Negates x if its parity is not the one wanted: the parity comes out right unless x is 0. */
  method FixSign(X: array<int32>, sign: nat)
    requires X.Length == 10 && F.Limit(X[..], F.REDUCED) && sign <= 1
    modifies X
    ensures F.Limit(X[..], F.REDUCED)
    ensures Cong(F.Val(X[..]) * F.Val(X[..]), old(F.Val(X[..]) * F.Val(X[..])))
    ensures F.Val(X[..]) % P == 0 || F.Val(X[..]) % P % 2 == sign
  {
    hide F.Val, F.Limit, Cong;
    ghost var x := F.Val(X[..]);
    F.LimitMonotone(X[..], F.REDUCED, 220);
    var negative := IsNegative(X[..]);
    CongRefl(x * x);
    if negative != sign {
      F.Neg(X, X, F.REDUCED);
      assert F.Val(X[..]) * F.Val(X[..]) == x * x;
      OppositeParity(x);
    }
  }

  lemma OppositeParity(x: int)
    ensures (-x) % P == 0 || (-x) % P % 2 == 1 - x % P % 2
  {
    ModulusValue();
    var k, r := x / P, x % P;
    if r == 0 {
      ModUnique(-x, P, -k, 0);
    } else {
      ModUnique(-x, P, -k - 1, P - r);
    }
  }

  /** The decoded point, from its coordinates. */
  lemma DecodedPoint(x: int, Y: int, t: int, u: int, v: int, x0: int, s: seq<uint8>) returns (p: Point)
    requires |s| == 32 && Cong(Y, YOf(s)) && Cong(t, x * Y)
    requires Cong(u, YOf(s) * YOf(s) - 1) && Cong(v, D * (YOf(s) * YOf(s)) + 1)
    requires IsRoot(x0, u, v) && Cong(x * x, x0 * x0)
    requires x % P == 0 || x % P % 2 == SignOf(s)
    ensures IsDecodingOf(p, s) && Extended(x, Y, 1, t, p)
  {
    var y := YOf(s);
    p := Point(x % P, y % P);
    CongMod(x);
    CongMod(y);
    RootToCurve(x0, x, p.x, y, p.y, u, v);
    hide Cong;
    CongTrans(Y, y, p.y);
    CongProduct(t, x, Y, p.x, p.y);
  }

  lemma RootToCurve(x0: int, x: int, px: int, y: int, py: int, u: int, v: int)
    requires IsRoot(x0, u, v) && Cong(x * x, x0 * x0) && Cong(px, x) && Cong(py, y)
    requires Cong(u, y * y - 1) && Cong(v, D * (y * y) + 1)
    ensures CurveEquation(px, py)
  {
    CurveAsRoot(px, py);
    hide Cong;
    CongMul(px, x, px, x);
    CongTrans(px * px, x * x, x0 * x0);
    CongMul(py, y, py, y);
    CongScale(py * py, y * y, D);
    CongRefl(1);
    CongLinear(D * (py * py), D * (y * y), 1, 1);
    CongLinear(py * py, y * y, 1, 1);
    CongSwap(v, D * (y * y) + 1);
    CongTrans(D * (py * py) + 1, D * (y * y) + 1, v);
    CongMul(D * (py * py) + 1, v, px * px, x0 * x0);
    CongTrans((D * (py * py) + 1) * (px * px), v * (x0 * x0), u);
    CongTrans((D * (py * py) + 1) * (px * px), u, y * y - 1);
    CongSwap(y * y - 1, py * py - 1);
    CongTrans((D * (py * py) + 1) * (px * px), y * y - 1, py * py - 1);
  }

  /** A point with this encoding would give a root. */
  lemma PointGivesRoot(p: Point, u: int, v: int, s: seq<uint8>)
    requires IsDecodingOf(p, s) && Cong(u, YOf(s) * YOf(s) - 1) && Cong(v, D * (YOf(s) * YOf(s)) + 1)
    ensures IsRoot(p.x, u, v)
  {
    var y := YOf(s);
    CongSwap(y, p.y);
    CurveAsRoot(p.x, p.y);
    hide Cong;
    CongMul(p.y, y, p.y, y);
    CongScale(p.y * p.y, y * y, D);
    CongRefl(1);
    CongLinear(D * (p.y * p.y), D * (y * y), 1, 1);
    CongLinear(p.y * p.y, y * y, 1, 1);
    CongSwap(D * (p.y * p.y) + 1, D * (y * y) + 1);
    CongTrans(v, D * (y * y) + 1, D * (p.y * p.y) + 1);
    CongRefl(p.x * p.x);
    CongMul(v, D * (p.y * p.y) + 1, p.x * p.x, p.x * p.x);
    CongTrans(v * (p.x * p.x), (D * (p.y * p.y) + 1) * (p.x * p.x), p.y * p.y - 1);
    CongTrans(v * (p.x * p.x), p.y * p.y - 1, y * y - 1);
    CongSwap(u, y * y - 1);
    CongTrans(v * (p.x * p.x), y * y - 1, u);
  }

  lemma NoPoint(u: int, v: int, s: seq<uint8>)
    requires Cong(u, YOf(s) * YOf(s) - 1) && Cong(v, D * (YOf(s) * YOf(s)) + 1)
    requires !exists r :: IsRoot(r, u, v)
    ensures !exists q :: IsDecodingOf(q, s)
  {
    hide Cong, IsRoot, IsDecodingOf;
    forall q ensures !IsDecodingOf(q, s) {
      if IsDecodingOf(q, s) { PointGivesRoot(q, u, v, s); }
    }
  }

  lemma SignBit(s: seq<uint8>)
    requires |s| == 32
    ensures SignOf(s) == s[31] as int / 128
  {
    hide LE;
    LETop(s);
  }

  /**
   `ge_frombytes_vartime`: accepts exactly the strings whose y, taken modulo p, belongs to a point, and
   yields the point with the parity that the top bit asks for.
   */
  method GeFromBytesVartime(h: GeP3, s: seq<uint8>) returns (ok: bool, ghost p: Point)
    requires h.Valid() && |s| == 32 && Fermat()
    modifies h.Repr()
    ensures ok <==> exists q :: IsDecodingOf(q, s)
    ensures ok ==> h.Represents(p) && IsDecodingOf(p, s) && F.Val(h.Z[..]) == 1
  {
    hide F.Val, F.Limit, Extended, IsDecodingOf, Fermat;
    var u, v, w, vxx, check := new int32[10], new int32[10], new int32[10], new int32[10], new int32[10];
    ok, p := DecodeWith(h, s, u, v, w, vxx, check);
  }

  method DecodeWith(h: GeP3, s: seq<uint8>, u: array<int32>, v: array<int32>, w: array<int32>, vxx: array<int32>, check: array<int32>)
    returns (ok: bool, ghost p: Point)
    requires h.Valid() && |s| == 32 && Fermat()
    requires u.Length == v.Length == w.Length == vxx.Length == check.Length == 10
    requires u != v && u != w && u != vxx && u != check && v != w && v != vxx && v != check && w != vxx && w != check && vxx != check
    requires {u, v, w, vxx, check} !! h.Repr()
    modifies h.Repr(), u, v, w, vxx, check
    ensures ok <==> exists q :: IsDecodingOf(q, s)
    ensures ok ==> h.Represents(p) && IsDecodingOf(p, s) && F.Val(h.Z[..]) == 1
  {
    hide F.Val, F.Limit, Cong, Extended, IsDecodingOf, Fermat, IsRoot, YOf, SignOf;
    Numerators(h.Y, h.Z, u, v, s);
    ghost var a, b, y := F.Val(u[..]), F.Val(v[..]), F.Val(h.Y[..]);
    ok := FindRoot(h.X, u, v[..], w, vxx, check, a, b);
    if !ok {
      NoPoint(a, b, s);
      return false, O;
    }
    ghost var x0 := F.Val(h.X[..]);
    SignBit(s);
    FixSign(h.X, (s[31] / 128) as nat);
    ghost var x := F.Val(h.X[..]);
    F.LimitMonotone(h.X[..], F.REDUCED, F.PRODUCT);
    F.LimitMonotone(h.Y[..], STORED, F.PRODUCT);
    F.Mul(h.T, h.X[..], h.Y[..]);
    F.LimitMonotone(h.X[..], F.REDUCED, STORED);
    F.LimitMonotone(h.T[..], F.REDUCED, STORED);
    p := DecodedPoint(x, y, F.Val(h.T[..]), a, b, x0, s);
  }
}
