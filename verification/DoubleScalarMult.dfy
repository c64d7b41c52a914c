/**
 `ge_double_scalarmult_vartime`: a A + b B by interleaved sliding windows. The table `Bi` is a parameter: it is
 fit for use when entry k represents (2k+1) B.
 */
module DoubleScalarMult {
  import opened CInts
  import opened Bytes
  import opened Field
  import opened Edwards
  import opened Associativity
  import opened Multiples
  import opened Ge
  import opened SlidingWindow
  import F = Fe25

  // ---------------------------------------------------------------- sums of multiples

  /** x A + y B. */
  ghost function Sum(x: int, a: Point, y: int): Point {
    Edwards.Add(SMul(x, a), SMul(y, B))
  }

  lemma SumOnCurve(x: int, a: Point, y: int)
    requires Curve25519() && OnCurve(a)
    ensures OnCurve(Sum(x, a, y)) && OnCurve(SMul(x, a)) && OnCurve(SMul(y, B))
  {
    BaseOnCurve();
    CurveFacts();
    hide OnCurve, Edwards.Add, SMul, Cong, Fermat, NonSquare;
    SMulOnCurve(x, a);
    SMulOnCurve(y, B);
    Closed(SMul(x, a), SMul(y, B));
  }

  lemma Exchange(p: Point, q: Point, r: Point)
    requires Curve25519() && OnCurve(p) && OnCurve(q) && OnCurve(r)
    ensures Edwards.Add(Edwards.Add(p, q), r) == Edwards.Add(Edwards.Add(p, r), q)
  {
    CurveFacts();
    hide OnCurve, Edwards.Add, Fermat, NonSquare;
    Associates(p, q, r);
    Commutes(q, r);
    Associates(p, r, q);
  }

  /** Adding a multiple of A to x A + y B. */
  lemma SumPlusA(x: int, a: Point, y: int, d: int)
    requires Curve25519() && OnCurve(a)
    ensures Edwards.Add(Sum(x, a, y), SMul(d, a)) == Sum(x + d, a, y)
  {
    SumOnCurve(x, a, y);
    SumOnCurve(d, a, y);
    hide OnCurve, Edwards.Add, SMul, Curve25519;
    Exchange(SMul(x, a), SMul(y, B), SMul(d, a));
    SMulAdd(x, d, a);
  }

  lemma SumPlusB(x: int, a: Point, y: int, d: int)
    requires Curve25519() && OnCurve(a)
    ensures Edwards.Add(Sum(x, a, y), SMul(d, B)) == Sum(x, a, y + d)
  {
    CurveFacts();
    BaseOnCurve();
    SumOnCurve(x, a, y);
    SumOnCurve(x, a, d);
    hide OnCurve, Edwards.Add, SMul, Curve25519, Fermat, NonSquare, Cong;
    Associates(SMul(x, a), SMul(y, B), SMul(d, B));
    SMulAdd(y, d, B);
  }

  lemma SumDoubled(x: int, a: Point, y: int)
    requires Curve25519() && OnCurve(a)
    ensures Edwards.Add(Sum(x, a, y), Sum(x, a, y)) == Sum(2 * x, a, 2 * y)
  {
    hide *;
    CurveFacts();
    SumOnCurve(x, a, y);
    SumIs(x, a, y);
    Associates(Sum(x, a, y), SMul(x, a), SMul(y, B));
    SumPlusA(x, a, y, x);
    SumPlusB(x + x, a, y, y);
    assert x + x == 2 * x && y + y == 2 * y;
  }

  lemma SumIs(x: int, a: Point, y: int)
    ensures Sum(x, a, y) == Edwards.Add(SMul(x, a), SMul(y, B))
  {
  }

  lemma SumZero(x: int, a: Point, y: int)
    requires Fermat() && NonSquare() && x == 0 && y == 0
    ensures Sum(x, a, y) == O
  {
    OriginOnCurve();
    AddOrigin(O);
  }

  // ---------------------------------------------------------------- tables of odd multiples

  ghost predicate CachedOdds(ai: seq<Cached>, a: Point) {
    |ai| == 8 && forall k :: 0 <= k < 8 ==> ai[k].Represents(SMul(2 * k + 1, a))
  }

  ghost predicate BaseOdds(bi: seq<Precomp>) {
    |bi| == 8 && forall k :: 0 <= k < 8 ==> bi[k].Represents(SMul(2 * k + 1, B))
  }

  /** One line of the table: from (2k-1) A to (2k+1) A, with A2 = 2 A. */
  method NextOdd(t: GeP1p1, u: GeP3, A2: GeP3, q: Cached, ghost n: int, ghost a: Point) returns (r: Cached)
    requires t.Valid() && u.Valid() && A2.Valid() && t.Repr() !! u.Repr() && t.Repr() !! A2.Repr() && u.Repr() !! A2.Repr()
    requires Curve25519() && OnCurve(a) && A2.Represents(SMul(2, a)) && q.Represents(SMul(n, a))
    modifies t.Repr(), u.Repr()
    ensures r.Represents(SMul(n + 2, a)) && A2.Represents(SMul(2, a))
  {
    hide F.Val, F.Limit, Cong, OnCurve, SMul, Edwards.Add, Curve25519, Fermat, NonSquare,
         Cached.Represents, GeP3.Represents, GeP1p1.Represents, GeP1p1.Repr;
    CurveFacts();
    AddCached(t, A2, q, SMul(2, a), SMul(n, a));
    SMulAdd(2, n, a);
    assert 2 + n == n + 2;
    P1p1ToP3(u, t, SMul(n + 2, a));
    r := P3ToCached(u, SMul(n + 2, a));
  }

  /** A, 3A, 5A, .., 15A. */
  method OddMultiples(A: GeP3, t: GeP1p1, u: GeP3, A2: GeP3, ghost a: Point) returns (ai: seq<Cached>)
    requires A.Valid() && t.Valid() && u.Valid() && A2.Valid() && t.Repr() !! u.Repr() && t.Repr() !! A2.Repr() && u.Repr() !! A2.Repr()
    requires A.Repr() !! t.Repr() && A.Repr() !! u.Repr() && A.Repr() !! A2.Repr()
    requires Curve25519() && OnCurve(a) && A.Represents(a)
    modifies t.Repr(), u.Repr(), A2.Repr()
    ensures CachedOdds(ai, a)
  {
    hide F.Val, F.Limit, Cong, OnCurve, SMul, Edwards.Add, Curve25519, Fermat, NonSquare,
         Cached.Represents, GeP3.Represents, GeP1p1.Represents, GeP1p1.Repr;
    CurveFacts();
    FirstMultiples(a);
    var a0 := P3ToCached(A, a);
    P3Dbl(t, A, a);
    P1p1ToP3(A2, t, SMul(2, a));
    var a1 := NextOdd(t, u, A2, a0, 1, a);
    var a2 := NextOdd(t, u, A2, a1, 3, a);
    var a3 := NextOdd(t, u, A2, a2, 5, a);
    var a4 := NextOdd(t, u, A2, a3, 7, a);
    var a5 := NextOdd(t, u, A2, a4, 9, a);
    var a6 := NextOdd(t, u, A2, a5, 11, a);
    var a7 := NextOdd(t, u, A2, a6, 13, a);
    ai := [a0, a1, a2, a3, a4, a5, a6, a7];
  }

  lemma FirstMultiples(a: Point)
    requires Fermat() && NonSquare() && OnCurve(a)
    ensures SMul(1, a) == a && SMul(2, a) == Edwards.Add(a, a)
  {
    hide OnCurve, Edwards.Add;
    AddOrigin(a);
  }

  // ---------------------------------------------------------------- one digit

  /** Adds |d| A or subtracts it, according to the sign of the digit; a zero digit changes nothing. */
  method DigitOfA(t: GeP1p1, u: GeP3, ai: seq<Cached>, d: int8, ghost x: int, ghost y: int, ghost a: Point)
    requires t.Valid() && u.Valid() && t.Repr() !! u.Repr() && WindowDigit(d)
    requires Curve25519() && OnCurve(a) && CachedOdds(ai, a) && t.Represents(Sum(x, a, y))
    modifies t.Repr(), u.Repr()
    ensures t.Represents(Sum(x + d as int, a, y))
  {
    hide F.Val, F.Limit, Cong, OnCurve, SMul, Edwards.Add, Curve25519, Fermat, NonSquare, Sum,
         Cached.Represents, GeP3.Represents, GeP1p1.Represents, GeP1p1.Repr, GeP3.Repr;
    CurveFacts();
    if d > 0 {
      P1p1ToP3(u, t, Sum(x, a, y));
      AddCached(t, u, ai[d / 2], Sum(x, a, y), SMul(2 * (d / 2) as int + 1, a));
      SumPlusA(x, a, y, d as int);
    } else if d < 0 {
      P1p1ToP3(u, t, Sum(x, a, y));
      SubCached(t, u, ai[-d / 2], Sum(x, a, y), SMul(2 * (-d / 2) as int + 1, a));
      SMulNeg(-d as int, a);
      SumPlusA(x, a, y, d as int);
    }
  }

  method DigitOfB(t: GeP1p1, u: GeP3, bi: seq<Precomp>, d: int8, ghost x: int, ghost y: int, ghost a: Point)
    requires t.Valid() && u.Valid() && t.Repr() !! u.Repr() && WindowDigit(d)
    requires Curve25519() && OnCurve(a) && BaseOdds(bi) && t.Represents(Sum(x, a, y))
    modifies t.Repr(), u.Repr()
    ensures t.Represents(Sum(x, a, y + d as int))
  {
    hide F.Val, F.Limit, Cong, OnCurve, SMul, Edwards.Add, Curve25519, Fermat, NonSquare, Sum, IsBasePoint, BasePoint,
         Precomp.Represents, GeP3.Represents, GeP1p1.Represents, GeP1p1.Repr, GeP3.Repr;
    CurveFacts();
    BaseOnCurve();
    if d > 0 {
      P1p1ToP3(u, t, Sum(x, a, y));
      MAdd(t, u, bi[d / 2], Sum(x, a, y), SMul(2 * (d / 2) as int + 1, B));
      SumPlusB(x, a, y, d as int);
    } else if d < 0 {
      P1p1ToP3(u, t, Sum(x, a, y));
      MSub(t, u, bi[-d / 2], Sum(x, a, y), SMul(2 * (-d / 2) as int + 1, B));
      SMulNeg(-d as int, B);
      SumPlusB(x, a, y, d as int);
    }
  }

  // ---------------------------------------------------------------- the loop

  /** The index of the highest nonzero digit of either recoding, or -1. */
  method HighestDigit(aslide: seq<int8>, bslide: seq<int8>) returns (i: int)
    requires |aslide| == |bslide| == 256
    ensures -1 <= i < 256
    ensures DigitsFrom(aslide, i + 1) == 0 && DigitsFrom(bslide, i + 1) == 0
  {
    i := 255;
    while i >= 0
      invariant -1 <= i < 256
      invariant DigitsFrom(aslide, i + 1) == 0 && DigitsFrom(bslide, i + 1) == 0
    {
      if aslide[i] != 0 || bslide[i] != 0 { break; }
      i := i - 1;
    }
  }

  /** The descending loop: the accumulator is the sum of the digits consumed so far. */
  method Accumulate(r: GeP2, aslide: seq<int8>, bslide: seq<int8>, ai: seq<Cached>, bi: seq<Precomp>,
                    t: GeP1p1, u: GeP3, ghost a: Point)
    requires r.Valid() && t.Valid() && u.Valid() && r.Repr() !! t.Repr() && r.Repr() !! u.Repr() && t.Repr() !! u.Repr()
    requires |aslide| == |bslide| == 256
    requires forall j :: 0 <= j < 256 ==> WindowDigit(aslide[j]) && WindowDigit(bslide[j])
    requires Curve25519() && OnCurve(a) && CachedOdds(ai, a) && BaseOdds(bi)
    modifies r.Repr(), t.Repr(), u.Repr()
    ensures r.Represents(Sum(Value(aslide), a, Value(bslide)))
  {
    hide F.Val, F.Limit, Cong, OnCurve, SMul, Edwards.Add, Curve25519, Fermat, NonSquare, Sum, CachedOdds, BaseOdds,
         GeP2.Represents, GeP3.Represents, GeP1p1.Represents, GeP1p1.Repr, GeP3.Repr, WindowDigit, DigitsFrom;
    CurveFacts();
    P2Zero(r);
    var i := HighestDigit(aslide, bslide);
    SumZero(DigitsFrom(aslide, i + 1), a, DigitsFrom(bslide, i + 1));
    while i >= 0
      invariant -1 <= i < 256
      invariant r.Represents(Sum(DigitsFrom(aslide, i + 1), a, DigitsFrom(bslide, i + 1)))
    {
      ghost var x, y := DigitsFrom(aslide, i + 1), DigitsFrom(bslide, i + 1);
      P2Dbl(t, r, Sum(x, a, y));
      SumDoubled(x, a, y);
      DigitOfA(t, u, ai, aslide[i], 2 * x, 2 * y, a);
      DigitOfB(t, u, bi, bslide[i], 2 * x + aslide[i] as int, 2 * y, a);
      HighStep(aslide, i);
      HighStep(bslide, i);
      P1p1ToP2(r, t, Sum(DigitsFrom(aslide, i), a, DigitsFrom(bslide, i)));
      i := i - 1;
    }
  }

  lemma HighStep(r: seq<int8>, i: nat)
    requires i < |r|
    ensures DigitsFrom(r, i) == 2 * DigitsFrom(r, i + 1) + r[i] as int
  {
  }

  /** r = a A + b B for all scalars below 2^255. */
  method GeDoubleScalarMult(r: GeP2, a: seq<uint8>, A: GeP3, b: seq<uint8>, bi: seq<Precomp>, ghost p: Point)
    requires r.Valid() && A.Valid() && r.Repr() !! A.Repr() && |a| == |b| == 32
    requires LE(a) < Pow2(255) && LE(b) < Pow2(255)
    requires Curve25519() && OnCurve(p) && A.Represents(p) && BaseOdds(bi)
    modifies r.Repr()
    ensures r.Represents(Edwards.Add(SMul(LE(a), p), SMul(LE(b), B)))
  {
    hide F.Val, F.Limit, Cong, OnCurve, SMul, Edwards.Add, Curve25519, Fermat, NonSquare, Sum, CachedOdds, BaseOdds,
         GeP2.Represents, GeP3.Represents, WindowDigit, Value, LE, Pow2;
    var aslide := SlideDigits(a);
    var bslide := SlideDigits(b);
    var t := new GeP1p1();
    var u := new GeP3();
    var A2 := new GeP3();
    var ai := OddMultiples(A, t, u, A2, p);
    SumIs(LE(a), p, LE(b));
    Accumulate(r, aslide, bslide, ai, bi, t, u, p);
  }

  /** The recoding of one scalar, in a local array. */
  method SlideDigits(a: seq<uint8>) returns (d: seq<int8>)
    requires |a| == 32 && LE(a) < Pow2(255)
    ensures |d| == 256 && Value(d) == LE(a)
    ensures forall j :: 0 <= j < 256 ==> WindowDigit(d[j])
  {
    hide WindowDigit, Value, LE, Pow2;
    var r := new int8[256];
    Slide(r, a);
    d := r[..];
  }
}
