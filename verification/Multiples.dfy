/** Multiples of a point, for every integer, and the base point. */
module Multiples {
  import opened CInts
  import opened Field
  import opened Edwards
  import opened Associativity

  /** What the proofs about multiples ask for: p is prime and d is not a square. */
  ghost predicate Curve25519() {
    Fermat() && NonSquare()
  }

  /** [n]p for every integer n. */
  ghost function SMul(n: int, p: Point): Point
    decreases if n >= 0 then n else -n
  {
    if n == 0 then O else if n > 0 then Add(SMul(n - 1, p), p) else Add(SMul(n + 1, p), Neg(p))
  }

  lemma {:induction false} SMulOnCurve(n: int, p: Point)
    requires Fermat() && NonSquare() && OnCurve(p)
    ensures OnCurve(SMul(n, p))
    decreases if n >= 0 then n else -n
  {
    hide OnCurve, Add, Neg;
    OriginOnCurve();
    NegOnCurve(p);
    if n > 0 {
      SMulOnCurve(n - 1, p);
      Closed(SMul(n - 1, p), p);
    } else if n < 0 {
      SMulOnCurve(n + 1, p);
      Closed(SMul(n + 1, p), Neg(p));
    }
  }

  lemma SMulNext(n: int, p: Point)
    requires Curve25519() && OnCurve(p)
    ensures SMul(n + 1, p) == Add(SMul(n, p), p)
    ensures SMul(n - 1, p) == Add(SMul(n, p), Neg(p))
  {
    hide OnCurve, Add, Neg, Fermat, NonSquare;
    NegOnCurve(p);
    AddNeg(p);
    if n < 0 {
      var s := SMul(n + 1, p);
      SMulOnCurve(n + 1, p);
      Associates(s, Neg(p), p);
      AddOrigin(s);
    }
    if n > 0 {
      var s := SMul(n - 1, p);
      SMulOnCurve(n - 1, p);
      Associates(s, p, Neg(p));
      AddOrigin(s);
    }
  }

  /** Multiples add up. */
  lemma {:induction false} SMulAdd(m: int, n: int, p: Point)
    requires Curve25519() && OnCurve(p)
    ensures SMul(m + n, p) == Add(SMul(m, p), SMul(n, p))
    decreases if n >= 0 then n else -n
  {
    hide OnCurve, Add, Neg, Curve25519;
    var s := SMul(m, p);
    CurveFacts();
    SMulOnCurve(m, p);
    if n == 0 {
      AddOrigin(s);
    } else if n > 0 {
      SMulAdd(m, n - 1, p);
      SMulOnCurve(n - 1, p);
      SMulNext(m + n - 1, p);
      Associates(s, SMul(n - 1, p), p);
    } else {
      SMulAdd(m, n + 1, p);
      SMulOnCurve(n + 1, p);
      NegOnCurve(p);
      SMulNext(m + n + 1, p);
      Associates(s, SMul(n + 1, p), Neg(p));
    }
  }

  lemma CurveFacts()
    requires Curve25519()
    ensures Fermat() && NonSquare()
  {
  }

  lemma {:induction false} SMulOrigin(n: int)
    requires Fermat() && NonSquare()
    ensures SMul(n, O) == O
    decreases if n >= 0 then n else -n
  {
    hide Add, OnCurve, Fermat, NonSquare;
    OriginOnCurve();
    AddOrigin(O);
    AddNeg(O);
    NegOrigin();
    hide Neg;
    if n > 0 { SMulOrigin(n - 1); }
    if n < 0 { SMulOrigin(n + 1); }
  }

  /** A multiple of a multiple. */
  lemma {:induction false} SMulSMul(m: int, n: int, p: Point)
    requires Curve25519() && OnCurve(p)
    ensures SMul(m, SMul(n, p)) == SMul(m * n, p)
    decreases if m >= 0 then m else -m
  {
    hide OnCurve, Add, Neg, Curve25519;
    CurveFacts();
    var q := SMul(n, p);
    SMulOnCurve(n, p);
    if m > 0 {
      SMulSMul(m - 1, n, p);
      SMulAdd((m - 1) * n, n, p);
      assert (m - 1) * n + n == m * n;
    } else if m < 0 {
      SMulSMul(m + 1, n, p);
      SMulNeg(n, p);
      SMulAdd((m + 1) * n, -n, p);
      assert (m + 1) * n + -n == m * n;
    }
  }

  lemma {:induction false} SMulNeg(n: int, p: Point)
    requires Fermat() && NonSquare() && OnCurve(p)
    ensures SMul(-n, p) == Neg(SMul(n, p)) == SMul(n, Neg(p))
    decreases if n >= 0 then n else -n
  {
    hide OnCurve, Add, Neg;
    NegOnCurve(p);
    if n == 0 {
      assert Neg(O) == O by { NegOrigin(); }
    } else if n > 0 {
      SMulNeg(n - 1, p);
      SMulOnCurve(n - 1, p);
      NegAdd(SMul(n - 1, p), p);
    } else {
      SMulNeg(n + 1, p);
      SMulOnCurve(n + 1, p);
      NegAdd(SMul(n + 1, p), Neg(p));
    }
  }

  lemma NegOrigin()
    ensures Neg(O) == O
  {
    ModUnique(0, P, 0, 0);
  }

  lemma Double(n: int, p: Point)
    requires Curve25519() && OnCurve(p)
    ensures SMul(2 * n, p) == Add(SMul(n, p), SMul(n, p))
  {
    SMulAdd(n, n, p);
  }

  // ---------------------------------------------------------------- the base point

  ghost predicate IsBasePoint(p: Point) {
    OnCurve(p) && Cong(5 * p.y, 4) && p.x % 2 == 0
  }

  /** The base point: y = 4/5, and the x that is even in reduced form. `PointCodec.BaseValue` gives the coordinates. */
  ghost function BasePoint(): (p: Point)
    ensures IsBasePoint(p)
  {
    BaseExists();
    var p :| IsBasePoint(p);
    p
  }

  ghost const B: Point := BasePoint()

  lemma BaseExists()
    ensures IsBasePoint(Point(15112221349535400772501151409588531511454012693041857206046113283949847762202,
                              46316835694926478169428394003475163141307993866256225615783033603165251855960))
  {
    CurveMeaning(15112221349535400772501151409588531511454012693041857206046113283949847762202,
                 46316835694926478169428394003475163141307993866256225615783033603165251855960);
    hide CurveEquation;
    ModulusValue();
    var x := 15112221349535400772501151409588531511454012693041857206046113283949847762202;
    var y := 46316835694926478169428394003475163141307993866256225615783033603165251855960;
    ConstantValue();
    CongRemainder(y * y - x * x, 1 + D * ((x * x) * (y * y)));
    CongRemainder(5 * y, 4);
  }

  lemma BaseOnCurve()
    ensures OnCurve(B)
  {
    hide OnCurve;
  }
}
