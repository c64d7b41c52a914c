/**
 Addition on the curve is associative.

 With denominators multiplied out, both bracketings of a sum of three points become combinations of the same
 four monomials (the classes below), and the two sides agree class by class because of the curve equation.
 Exchanging (X, Y) with (-Y, -X) leaves the equation Y - X = 1 + d X Y alone, so one class gives them all.
 Upper-case letters are squares of coordinates.
 */
module Associativity {
  import opened CInts
  import opened Field
  import opened Edwards

  // ---------------------------------------------------------------- one class

  ghost function Left(d: int, X1: int, Y1: int, X2: int, Y2: int, X3: int, Y3: int, b: int): int {
    (1 - d * (Y1 * X2)) * b + (d * (X2 + Y2)) * ((Y1 * X3) * (1 + d * (X1 * X2))) + (d * (X3 + Y3)) * ((Y1 * X2) * (1 - d * (X1 * Y2)))
  }

  ghost function Right(d: int, X1: int, Y1: int, X2: int, Y2: int, X3: int, Y3: int, b: int): int {
    (1 + d * (X3 * X2)) * b + (d * (X2 + Y2)) * ((Y1 * X3) * (1 - d * (Y3 * X2))) + (d * (X1 + Y1)) * ((X2 * X3) * (1 + d * (Y3 * Y2)))
  }

  /** What is left of the difference of the two sides after dividing by d X2, with u_i = d X_i Y_i. */
  ghost function Gap(X1: int, Y1: int, X2: int, Y2: int, X3: int, Y3: int, u1: int, u2: int, u3: int): int {
    (X3 + Y3) * Y1 - (X1 + Y1) * X3 - Y1 - X3
    + u3 * ((X2 + Y2) * Y1 - (X1 + Y1) * Y2 - Y2)
    + u1 * ((X2 + Y2) * X3 - (X3 + Y3) * Y2 + Y2)
    + (u2 * u3) * Y1 + (u1 * u2) * X3
  }

  /** On the curve u_i is Y_i - X_i - 1, and then nothing is left. */
  lemma GapVanishes(X1: int, Y1: int, X2: int, Y2: int, X3: int, Y3: int, v1: int, v2: int, v3: int)
    requires v1 == Y1 - X1 - 1 && v2 == Y2 - X2 - 1 && v3 == Y3 - X3 - 1
    ensures Gap(X1, Y1, X2, Y2, X3, Y3, v1, v2, v3) == 0
  {
    var a, b, c := (X3 + Y3) * Y1 - (X1 + Y1) * X3 - Y1 - X3, (X2 + Y2) * Y1 - (X1 + Y1) * Y2 - Y2, (X2 + Y2) * X3 - (X3 + Y3) * Y2 + Y2;
    assert Gap(X1, Y1, X2, Y2, X3, Y3, v1, v2, v3) == a + v3 * b + v1 * c + (v2 * v3) * Y1 + (v1 * v2) * X3;
    GapParts(X1, Y1, X2, Y2, X3, Y3, v1, v2, v3, a, b, c);
    hide Gap;
    RegroupGap(v1, v2, v3, b, c, Y1, Y2, X3);
  }

  lemma GapParts(X1: int, Y1: int, X2: int, Y2: int, X3: int, Y3: int, v1: int, v2: int, v3: int, a: int, b: int, c: int)
    requires v1 == Y1 - X1 - 1 && v2 == Y2 - X2 - 1 && v3 == Y3 - X3 - 1
    requires a == (X3 + Y3) * Y1 - (X1 + Y1) * X3 - Y1 - X3
    requires b == (X2 + Y2) * Y1 - (X1 + Y1) * Y2 - Y2
    requires c == (X2 + Y2) * X3 - (X3 + Y3) * Y2 + Y2
    ensures a == v3 * Y1 + v1 * X3
    ensures b + v2 * Y1 == Y2 * v1 - Y1
    ensures c + v2 * X3 == -(Y2 * v3) - X3
  {
  }

  lemma RegroupGap(v1: int, v2: int, v3: int, b: int, c: int, Y1: int, Y2: int, X3: int)
    requires b + v2 * Y1 == Y2 * v1 - Y1 && c + v2 * X3 == -(Y2 * v3) - X3
    ensures v3 * b + v1 * c + (v2 * v3) * Y1 + (v1 * v2) * X3 == -(v3 * Y1) - v1 * X3
  {
    assert v3 * (b + v2 * Y1) == v3 * b + (v2 * v3) * Y1 by { assert v3 * (v2 * Y1) == (v2 * v3) * Y1; }
    assert v1 * (c + v2 * X3) == v1 * c + (v1 * v2) * X3 by { assert v1 * (v2 * X3) == (v1 * v2) * X3; }
    assert v3 * (Y2 * v1 - Y1) == Y2 * (v1 * v3) - v3 * Y1;
    assert v1 * (-(Y2 * v3) - X3) == -(Y2 * (v1 * v3)) - v1 * X3;
  }

  lemma GapCong(X1: int, Y1: int, X2: int, Y2: int, X3: int, Y3: int, u1: int, u2: int, u3: int, v1: int, v2: int, v3: int)
    requires Cong(u1, v1) && Cong(u2, v2) && Cong(u3, v3)
    ensures Cong(Gap(X1, Y1, X2, Y2, X3, Y3, u1, u2, u3), Gap(X1, Y1, X2, Y2, X3, Y3, v1, v2, v3))
  {
    hide Cong;
    var a := (X3 + Y3) * Y1 - (X1 + Y1) * X3 - Y1 - X3;
    var b := (X2 + Y2) * Y1 - (X1 + Y1) * Y2 - Y2;
    var c := (X2 + Y2) * X3 - (X3 + Y3) * Y2 + Y2;
    CongRefl(a);
    CongRefl(b);
    CongRefl(c);
    CongRefl(Y1);
    CongRefl(X3);
    CongMul(u3, v3, b, b);
    CongMul(u1, v1, c, c);
    CongMul(u2, v2, u3, v3);
    CongMul(u1, v1, u2, v2);
    CongMul(u2 * u3, v2 * v3, Y1, Y1);
    CongMul(u1 * u2, v1 * v2, X3, X3);
    CongLinear(a, a, u3 * b, v3 * b);
    CongLinear(a + u3 * b, a + v3 * b, u1 * c, v1 * c);
    CongLinear(a + u3 * b + u1 * c, a + v3 * b + v1 * c, (u2 * u3) * Y1, (v2 * v3) * Y1);
    CongLinear(a + u3 * b + u1 * c + (u2 * u3) * Y1, a + v3 * b + v1 * c + (v2 * v3) * Y1, (u1 * u2) * X3, (v1 * v2) * X3);
  }

  lemma DifferenceIsGap(d: int, X1: int, Y1: int, X2: int, Y2: int, X3: int, Y3: int, u1: int, u2: int, u3: int)
    requires u1 == d * (X1 * Y1) && u2 == d * (X2 * Y2) && u3 == d * (X3 * Y3)
    ensures Left(d, X1, Y1, X2, Y2, X3, Y3, 1 - u2 * u3) - Right(d, X1, Y1, X2, Y2, X3, Y3, 1 - u1 * u2)
      == (d * X2) * Gap(X1, Y1, X2, Y2, X3, Y3, u1, u2, u3)
  {
    LeftIs(d, X1, Y1, X2, Y2, X3, Y3, 1 - u2 * u3);
    LeftIs(d, X1, Y1, X2, Y2, X3, Y3, 1 - u1 * u2);
    hide Left, Right, Gap;
    var k, s1, s2, s3 := d * X2, X1 + Y1, X2 + Y2, X3 + Y3;
    LeftTerms(d, k, X1, Y1, X2, Y2, X3, s2, s3, u1, u2, u3);
    RightTerms(d, k, Y1, X2, Y2, X3, Y3, s1, s2, u1, u2, u3);
    CollectGap(k, X1, Y1, X2, Y2, X3, Y3, u1, u2, u3);
  }

  lemma LeftTerms(d: int, k: int, X1: int, Y1: int, X2: int, Y2: int, X3: int, s2: int, s3: int, u1: int, u2: int, u3: int)
    requires k == d * X2 && u1 == d * (X1 * Y1) && u2 == d * (X2 * Y2)
    ensures (1 - d * (Y1 * X2)) * (1 - u2 * u3) == 1 - k * Y1 - k * (Y2 * u3) + k * (Y1 * (u2 * u3))
    ensures (d * s2) * ((Y1 * X3) * (1 + d * (X1 * X2))) == (d * s2) * (Y1 * X3) + k * (s2 * (u1 * X3))
    ensures (d * s3) * ((Y1 * X2) * (1 - d * (X1 * Y2))) == k * (s3 * Y1) - k * (s3 * (u1 * Y2))
  {
    assert u2 * u3 == k * (Y2 * u3) by { assert u2 == k * Y2; }
    assert d * (Y1 * X2) == k * Y1;
    Unit(k, Y1, u2 * u3, Y2 * u3);
    Second(d, s2, Y1, X3, X1, X2);
    Third(d, s3, Y1, X2, X1, Y2, -1);
  }

  lemma RightTerms(d: int, k: int, Y1: int, X2: int, Y2: int, X3: int, Y3: int, s1: int, s2: int, u1: int, u2: int, u3: int)
    requires k == d * X2 && u2 == d * (X2 * Y2) && u3 == d * (X3 * Y3)
    ensures (1 + d * (X3 * X2)) * (1 - u1 * u2) == 1 + k * X3 - k * (Y2 * u1) - k * (X3 * (u1 * u2))
    ensures (d * s2) * ((Y1 * X3) * (1 - d * (Y3 * X2))) == (d * s2) * (Y1 * X3) - k * (s2 * (Y1 * u3))
    ensures (d * s1) * ((X2 * X3) * (1 + d * (Y3 * Y2))) == k * (s1 * X3) + k * (s1 * (u3 * Y2))
  {
    FirstRight(d, k, X2, Y2, X3, u1, u2);
    SecondRight(d, s2, Y1, X3, Y3, X2);
    assert X2 * X3 == X3 * X2 && X3 * Y3 == Y3 * X3;
    Third(d, s1, X3, X2, Y3, Y2, 1);
  }

  lemma FirstRight(d: int, k: int, X2: int, Y2: int, X3: int, u1: int, u2: int)
    requires k == d * X2 && u2 == d * (X2 * Y2)
    ensures (1 + d * (X3 * X2)) * (1 - u1 * u2) == 1 + k * X3 - k * (Y2 * u1) - k * (X3 * (u1 * u2))
  {
    assert u1 * u2 == k * (Y2 * u1) by { assert u2 == k * Y2; }
    assert d * (X3 * X2) == k * X3;
    Unit(k, -X3, u1 * u2, Y2 * u1);
    assert k * -X3 == -(k * X3) && -X3 * (u1 * u2) == -(X3 * (u1 * u2));
    assert k * -(X3 * (u1 * u2)) == -(k * (X3 * (u1 * u2)));
  }

  lemma Unit(k: int, y: int, w: int, z: int)
    requires w == k * z
    ensures (1 - k * y) * (1 - w) == 1 - k * y - k * z + k * (y * w)
  {
  }

  lemma Second(d: int, s: int, y: int, x: int, a: int, b: int)
    ensures (d * s) * ((y * x) * (1 + d * (a * b))) == (d * s) * (y * x) + (d * b) * (s * ((d * (a * y)) * x))
  {
    assert (y * x) * (d * (a * b)) == b * ((d * (a * y)) * x);
    assert (d * s) * (b * ((d * (a * y)) * x)) == (d * b) * (s * ((d * (a * y)) * x));
  }

  lemma SecondRight(d: int, s: int, y: int, x: int, a: int, b: int)
    ensures (d * s) * ((y * x) * (1 - d * (a * b))) == (d * s) * (y * x) - (d * b) * (s * (y * (d * (x * a))))
  {
    assert (y * x) * (d * (a * b)) == b * (y * (d * (x * a)));
    assert (d * s) * (b * (y * (d * (x * a)))) == (d * b) * (s * (y * (d * (x * a))));
  }

  lemma Third(d: int, s: int, y: int, x: int, a: int, b: int, e: int)
    requires e == 1 || e == -1
    ensures (d * s) * ((y * x) * (1 + e * (d * (a * b)))) == (d * x) * (s * y) + e * ((d * x) * (s * ((d * (a * y)) * b)))
  {
    var w := d * (a * b);
    ThirdProducts(d, s, y, x, a, b);
    SplitOne(d * s, y * x, e, w);
  }

  lemma ThirdProducts(d: int, s: int, y: int, x: int, a: int, b: int)
    ensures (d * s) * (y * x) == (d * x) * (s * y)
    ensures (d * s) * ((y * x) * (d * (a * b))) == (d * x) * (s * ((d * (a * y)) * b))
  {
    assert (y * x) * (d * (a * b)) == x * ((d * (a * y)) * b);
    assert (d * s) * (x * ((d * (a * y)) * b)) == (d * x) * (s * ((d * (a * y)) * b));
  }

  lemma SplitOne(g: int, c: int, e: int, w: int)
    ensures g * (c * (1 + e * w)) == g * c + e * (g * (c * w))
  {
    assert c * (1 + e * w) == c + e * (c * w);
    assert g * (e * (c * w)) == e * (g * (c * w));
  }

  lemma CollectGap(k: int, X1: int, Y1: int, X2: int, Y2: int, X3: int, Y3: int, u1: int, u2: int, u3: int)
    ensures -k * Y1 - k * (Y2 * u3) + k * (Y1 * (u2 * u3)) - k * X3 + k * (Y2 * u1) + k * (X3 * (u1 * u2))
            + k * ((X2 + Y2) * (u1 * X3)) + k * ((X2 + Y2) * (Y1 * u3))
            + k * ((X3 + Y3) * Y1) - k * ((X3 + Y3) * (u1 * Y2))
            - k * ((X1 + Y1) * X3) - k * ((X1 + Y1) * (u3 * Y2))
      == k * Gap(X1, Y1, X2, Y2, X3, Y3, u1, u2, u3)
  {
    var s1, s2, s3 := X1 + Y1, X2 + Y2, X3 + Y3;
    var b, c := s2 * Y1 - s1 * Y2 - Y2, s2 * X3 - s3 * Y2 + Y2;
    assert Gap(X1, Y1, X2, Y2, X3, Y3, u1, u2, u3) == s3 * Y1 - s1 * X3 - Y1 - X3 + u3 * b + u1 * c + (u2 * u3) * Y1 + (u1 * u2) * X3;
    hide Gap;
    GapProducts(s1, s2, s3, Y1, Y2, X3, u1, u2, u3);
    SumTimes(k, s3 * Y1, s1 * X3, Y1, X3, s2 * (Y1 * u3), s1 * (u3 * Y2), Y2 * u3, s2 * (u1 * X3), s3 * (u1 * Y2), Y2 * u1,
             Y1 * (u2 * u3), X3 * (u1 * u2));
  }

  lemma GapProducts(s1: int, s2: int, s3: int, Y1: int, Y2: int, X3: int, u1: int, u2: int, u3: int)
    ensures u3 * (s2 * Y1 - s1 * Y2 - Y2) == s2 * (Y1 * u3) - s1 * (u3 * Y2) - Y2 * u3
    ensures u1 * (s2 * X3 - s3 * Y2 + Y2) == s2 * (u1 * X3) - s3 * (u1 * Y2) + Y2 * u1
    ensures (u2 * u3) * Y1 == Y1 * (u2 * u3) && (u1 * u2) * X3 == X3 * (u1 * u2)
  {
  }

  lemma SumTimes(k: int, a: int, b: int, c: int, e: int, f: int, g: int, h: int, i: int, j: int, l: int, m: int, n: int)
    ensures k * (a - b - c - e + (f - g - h) + (i - j + l) + m + n)
      == k * a - k * b - k * c - k * e + k * f - k * g - k * h + k * i - k * j + k * l + k * m + k * n
  {
  }

  /** The two sides of a class agree on the curve. */
  lemma ClassCong(d: int, X1: int, Y1: int, X2: int, Y2: int, X3: int, Y3: int, u1: int, u2: int, u3: int)
    requires u1 == d * (X1 * Y1) && u2 == d * (X2 * Y2) && u3 == d * (X3 * Y3)
    requires Cong(Y1 - X1, 1 + u1) && Cong(Y2 - X2, 1 + u2) && Cong(Y3 - X3, 1 + u3)
    ensures Cong(Left(d, X1, Y1, X2, Y2, X3, Y3, 1 - u2 * u3), Right(d, X1, Y1, X2, Y2, X3, Y3, 1 - u1 * u2))
  {
    hide Cong, Left, Right, Gap;
    var g := Gap(X1, Y1, X2, Y2, X3, Y3, u1, u2, u3);
    var l, r := Left(d, X1, Y1, X2, Y2, X3, Y3, 1 - u2 * u3), Right(d, X1, Y1, X2, Y2, X3, Y3, 1 - u1 * u2);
    LessOne(u1, Y1 - X1);
    LessOne(u2, Y2 - X2);
    LessOne(u3, Y3 - X3);
    GapVanishes(X1, Y1, X2, Y2, X3, Y3, Y1 - X1 - 1, Y2 - X2 - 1, Y3 - X3 - 1);
    GapCong(X1, Y1, X2, Y2, X3, Y3, u1, u2, u3, Y1 - X1 - 1, Y2 - X2 - 1, Y3 - X3 - 1);
    DifferenceIsGap(d, X1, Y1, X2, Y2, X3, Y3, u1, u2, u3);
    ByMultiple(l, r, g, d * X2);
  }

  lemma LessOne(u: int, w: int)
    requires Cong(w, 1 + u)
    ensures Cong(u, w - 1)
  {
    var k := CongElim(w, 1 + u);
    CongIntro(u, w - 1, -k);
  }

  // ---------------------------------------------------------------- the other classes, by exchanging squares

  lemma ExchangeFirstAndThird(d: int, X1: int, Y1: int, X2: int, Y2: int, X3: int, Y3: int, b: int)
    ensures Left(d, -Y1, -X1, X2, Y2, -Y3, -X3, b)
      == (1 + d * (X1 * X2)) * b + (d * (X2 + Y2)) * ((X1 * Y3) * (1 - d * (Y1 * X2))) + (d * (X3 + Y3)) * ((X1 * X2) * (1 + d * (Y1 * Y2)))
    ensures Right(d, -Y1, -X1, X2, Y2, -Y3, -X3, b)
      == (1 - d * (Y3 * X2)) * b + (d * (X2 + Y2)) * ((X1 * Y3) * (1 + d * (X3 * X2))) + (d * (X1 + Y1)) * ((X2 * Y3) * (1 - d * (X3 * Y2)))
  {
    Signs(d, X1, X2); Signs(d, Y1, X2); Signs(d, Y1, Y2); Signs(d, Y3, X2); Signs(d, X3, X2); Signs(d, X3, Y2);
    Signs(1, X1, X2); Signs(1, X1, Y3); Signs(1, X2, Y3);
    OppositeFactors(d * (X3 + Y3), X1 * X2, 1 + d * (Y1 * Y2));
    OppositeFactors(d * (X1 + Y1), X2 * Y3, 1 - d * (X3 * Y2));
    assert d * (-Y3 + -X3) == -(d * (X3 + Y3)) && d * (-Y1 + -X1) == -(d * (X1 + Y1));
  }

  lemma ExchangeFirstAndSecond(d: int, X1: int, Y1: int, X2: int, Y2: int, X3: int, Y3: int, b: int)
    ensures Left(d, -Y1, -X1, -Y2, -X2, X3, Y3, b)
      == (1 - d * (X1 * Y2)) * b + (d * (X2 + Y2)) * ((X1 * X3) * (1 + d * (Y1 * Y2))) + (d * (X3 + Y3)) * ((X1 * Y2) * (1 - d * (Y1 * X2)))
    ensures Right(d, -Y1, -X1, -Y2, -X2, X3, Y3, b)
      == (1 - d * (X3 * Y2)) * b + (d * (X2 + Y2)) * ((X1 * X3) * (1 + d * (Y3 * Y2))) + (d * (X1 + Y1)) * ((Y2 * X3) * (1 - d * (Y3 * X2)))
  {
    Signs(d, X1, Y2); Signs(d, Y1, Y2); Signs(d, Y1, X2); Signs(d, X3, Y2); Signs(d, Y3, Y2); Signs(d, Y3, X2);
    Signs(1, X1, X3); Signs(1, X1, Y2); Signs(1, Y2, X3);
    OppositeFactors(d * (X2 + Y2), X1 * X3, 1 + d * (Y1 * Y2));
    OppositeFactors(d * (X2 + Y2), X1 * X3, 1 + d * (Y3 * Y2));
    OppositeFactors(d * (X1 + Y1), Y2 * X3, 1 - d * (Y3 * X2));
    assert d * (-Y2 + -X2) == -(d * (X2 + Y2)) && d * (-Y1 + -X1) == -(d * (X1 + Y1));
  }

  lemma ExchangeSecondAndThird(d: int, X1: int, Y1: int, X2: int, Y2: int, X3: int, Y3: int, b: int)
    ensures Left(d, X1, Y1, -Y2, -X2, -Y3, -X3, b)
      == (1 + d * (Y1 * Y2)) * b + (d * (X2 + Y2)) * ((Y1 * Y3) * (1 - d * (X1 * Y2))) + (d * (X3 + Y3)) * ((Y1 * Y2) * (1 + d * (X1 * X2)))
    ensures Right(d, X1, Y1, -Y2, -X2, -Y3, -X3, b)
      == (1 + d * (Y3 * Y2)) * b + (d * (X2 + Y2)) * ((Y1 * Y3) * (1 - d * (X3 * Y2))) + (d * (X1 + Y1)) * ((Y2 * Y3) * (1 + d * (X3 * X2)))
  {
    Signs(d, Y1, Y2); Signs(d, X1, Y2); Signs(d, X1, X2); Signs(d, Y3, Y2); Signs(d, X3, Y2); Signs(d, X3, X2);
    Signs(1, Y1, Y3); Signs(1, Y1, Y2); Signs(1, Y2, Y3);
    OppositeFactors(d * (X2 + Y2), Y1 * Y3, 1 - d * (X1 * Y2));
    OppositeFactors(d * (X2 + Y2), Y1 * Y3, 1 - d * (X3 * Y2));
    OppositeFactors(d * (X3 + Y3), Y1 * Y2, 1 + d * (X1 * X2));
    assert d * (-Y2 + -X2) == -(d * (X2 + Y2)) && d * (-Y3 + -X3) == -(d * (X3 + Y3));
  }

  lemma Signs(d: int, a: int, b: int)
    ensures -a * b == -(a * b) && a * -b == -(a * b) && -a * -b == a * b
    ensures d * (-a * b) == -(d * (a * b)) && d * (a * -b) == -(d * (a * b)) && d * (-a * -b) == d * (a * b)
  {
  }

  lemma OppositeFactors(g: int, c: int, a: int)
    ensures -g * (-c * a) == g * (c * a)
  {
  }

  // ---------------------------------------------------------------- the four classes together

  /** One term of a product of sums: the class of `m` moves to that of `n`. */
  lemma Move(m: int, a: int, g: int, w: int, c: int, n: int)
    requires m * w == c * n
    ensures (m * a) * (g * w) == n * (g * (c * a))
  {
    assert (m * a) * (g * w) == (m * w) * (g * a);
    assert (c * n) * (g * a) == n * (g * (c * a));
  }

  lemma TwelveTerms(p0: int, p1: int, p2: int, p3: int, b: int, q: int, r: int)
    ensures (p1 + p2 + p3 + p0) * (b + q + r)
      == p1 * b + p2 * b + p3 * b + p0 * b + p1 * q + p2 * q + p3 * q + p0 * q + p1 * r + p2 * r + p3 * r + p0 * r
  {
  }

  lemma ThreeParts(m: int, a: int, b: int, x: int, y: int)
    ensures m * (a * b + x + y) == (m * a) * b + m * x + m * y
  {
  }

  /** The left side, class by class. */
  lemma LeftClasses(d: int, X1: int, Y1: int, X2: int, Y2: int, X3: int, Y3: int, b: int, m0: int, m1: int, m2: int, m3: int, w13: int, w12: int)
    requires m1 * w13 == (X1 * Y3) * m3 && m3 * w13 == (Y1 * X3) * m1 && m2 * w13 == (Y1 * Y3) * m0 && m0 * w13 == (X1 * X3) * m2
    requires m1 * w12 == (X1 * Y2) * m2 && m2 * w12 == (Y1 * X2) * m1 && m3 * w12 == (Y1 * Y2) * m0 && m0 * w12 == (X1 * X2) * m3
    ensures (m1 * (1 - d * (Y1 * X2)) + m2 * (1 - d * (X1 * Y2)) + m3 * (1 + d * (X1 * X2)) + m0 * (1 + d * (Y1 * Y2)))
            * (b + (d * (X2 + Y2)) * w13 + (d * (X3 + Y3)) * w12)
      == m1 * Left(d, X1, Y1, X2, Y2, X3, Y3, b) + m2 * Left(d, -Y1, -X1, -Y2, -X2, X3, Y3, b)
         + m3 * Left(d, -Y1, -X1, X2, Y2, -Y3, -X3, b) + m0 * Left(d, X1, Y1, -Y2, -X2, -Y3, -X3, b)
  {
    var a1, a2, a3, a0 := 1 - d * (Y1 * X2), 1 - d * (X1 * Y2), 1 + d * (X1 * X2), 1 + d * (Y1 * Y2);
    var g2, g3 := d * (X2 + Y2), d * (X3 + Y3);
    ExchangeFirstAndThird(d, X1, Y1, X2, Y2, X3, Y3, b);
    ExchangeFirstAndSecond(d, X1, Y1, X2, Y2, X3, Y3, b);
    ExchangeSecondAndThird(d, X1, Y1, X2, Y2, X3, Y3, b);
    LeftIs(d, X1, Y1, X2, Y2, X3, Y3, b);
    hide *;
    TwelveTerms(m0 * a0, m1 * a1, m2 * a2, m3 * a3, b, g2 * w13, g3 * w12);
    Move(m3, a3, g2, w13, Y1 * X3, m1); Move(m2, a2, g3, w12, Y1 * X2, m1);
    Move(m0, a0, g2, w13, X1 * X3, m2); Move(m1, a1, g3, w12, X1 * Y2, m2);
    Move(m1, a1, g2, w13, X1 * Y3, m3); Move(m0, a0, g3, w12, X1 * X2, m3);
    Move(m2, a2, g2, w13, Y1 * Y3, m0); Move(m3, a3, g3, w12, Y1 * Y2, m0);
    ThreeParts(m1, a1, b, g2 * ((Y1 * X3) * a3), g3 * ((Y1 * X2) * a2));
    ThreeParts(m2, a2, b, g2 * ((X1 * X3) * a0), g3 * ((X1 * Y2) * a1));
    ThreeParts(m3, a3, b, g2 * ((X1 * Y3) * a1), g3 * ((X1 * X2) * a0));
    ThreeParts(m0, a0, b, g2 * ((Y1 * Y3) * a2), g3 * ((Y1 * Y2) * a3));
  }

  lemma LeftIs(d: int, X1: int, Y1: int, X2: int, Y2: int, X3: int, Y3: int, b: int)
    ensures Left(d, X1, Y1, X2, Y2, X3, Y3, b)
      == (1 - d * (Y1 * X2)) * b + (d * (X2 + Y2)) * ((Y1 * X3) * (1 + d * (X1 * X2))) + (d * (X3 + Y3)) * ((Y1 * X2) * (1 - d * (X1 * Y2)))
    ensures Right(d, X1, Y1, X2, Y2, X3, Y3, b)
      == (1 + d * (X3 * X2)) * b + (d * (X2 + Y2)) * ((Y1 * X3) * (1 - d * (Y3 * X2))) + (d * (X1 + Y1)) * ((X2 * X3) * (1 + d * (Y3 * Y2)))
  {
  }

  /** The right side, class by class. */
  lemma RightClasses(d: int, X1: int, Y1: int, X2: int, Y2: int, X3: int, Y3: int, b: int, m0: int, m1: int, m2: int, m3: int, w13: int, v23: int)
    requires m1 * w13 == (X1 * Y3) * m3 && m3 * w13 == (Y1 * X3) * m1 && m2 * w13 == (Y1 * Y3) * m0 && m0 * w13 == (X1 * X3) * m2
    requires m1 * v23 == (Y2 * Y3) * m0 && m0 * v23 == (X2 * X3) * m1 && m2 * v23 == (X2 * Y3) * m3 && m3 * v23 == (Y2 * X3) * m2
    ensures (m1 * (1 + d * (X3 * X2)) + m2 * (1 - d * (X3 * Y2)) + m3 * (1 - d * (Y3 * X2)) + m0 * (1 + d * (Y3 * Y2)))
            * (b + (d * (X2 + Y2)) * w13 + (d * (X1 + Y1)) * v23)
      == m1 * Right(d, X1, Y1, X2, Y2, X3, Y3, b) + m2 * Right(d, -Y1, -X1, -Y2, -X2, X3, Y3, b)
         + m3 * Right(d, -Y1, -X1, X2, Y2, -Y3, -X3, b) + m0 * Right(d, X1, Y1, -Y2, -X2, -Y3, -X3, b)
  {
    var b1, b2, b3, b0 := 1 + d * (X3 * X2), 1 - d * (X3 * Y2), 1 - d * (Y3 * X2), 1 + d * (Y3 * Y2);
    var g2, g1 := d * (X2 + Y2), d * (X1 + Y1);
    ExchangeFirstAndThird(d, X1, Y1, X2, Y2, X3, Y3, b);
    ExchangeFirstAndSecond(d, X1, Y1, X2, Y2, X3, Y3, b);
    ExchangeSecondAndThird(d, X1, Y1, X2, Y2, X3, Y3, b);
    LeftIs(d, X1, Y1, X2, Y2, X3, Y3, b);
    hide *;
    TwelveTerms(m0 * b0, m1 * b1, m2 * b2, m3 * b3, b, g2 * w13, g1 * v23);
    Move(m3, b3, g2, w13, Y1 * X3, m1); Move(m0, b0, g1, v23, X2 * X3, m1);
    Move(m0, b0, g2, w13, X1 * X3, m2); Move(m3, b3, g1, v23, Y2 * X3, m2);
    Move(m1, b1, g2, w13, X1 * Y3, m3); Move(m2, b2, g1, v23, X2 * Y3, m3);
    Move(m2, b2, g2, w13, Y1 * Y3, m0); Move(m1, b1, g1, v23, Y2 * Y3, m0);
    ThreeParts(m1, b1, b, g2 * ((Y1 * X3) * b3), g1 * ((X2 * X3) * b0));
    ThreeParts(m2, b2, b, g2 * ((X1 * X3) * b0), g1 * ((Y2 * X3) * b3));
    ThreeParts(m3, b3, b, g2 * ((X1 * Y3) * b1), g1 * ((X2 * Y3) * b2));
    ThreeParts(m0, b0, b, g2 * ((Y1 * Y3) * b2), g1 * ((Y2 * Y3) * b1));
  }

  /** Both sides agree. */
  lemma ClassesAgree(d: int, X1: int, Y1: int, X2: int, Y2: int, X3: int, Y3: int, u1: int, u2: int, u3: int, m0: int, m1: int, m2: int, m3: int)
    requires u1 == d * (X1 * Y1) && u2 == d * (X2 * Y2) && u3 == d * (X3 * Y3)
    requires Cong(Y1 - X1, 1 + u1) && Cong(Y2 - X2, 1 + u2) && Cong(Y3 - X3, 1 + u3)
    ensures Cong(m1 * Left(d, X1, Y1, X2, Y2, X3, Y3, 1 - u2 * u3) + m2 * Left(d, -Y1, -X1, -Y2, -X2, X3, Y3, 1 - u2 * u3)
                 + m3 * Left(d, -Y1, -X1, X2, Y2, -Y3, -X3, 1 - u2 * u3) + m0 * Left(d, X1, Y1, -Y2, -X2, -Y3, -X3, 1 - u2 * u3),
                 m1 * Right(d, X1, Y1, X2, Y2, X3, Y3, 1 - u1 * u2) + m2 * Right(d, -Y1, -X1, -Y2, -X2, X3, Y3, 1 - u1 * u2)
                 + m3 * Right(d, -Y1, -X1, X2, Y2, -Y3, -X3, 1 - u1 * u2) + m0 * Right(d, X1, Y1, -Y2, -X2, -Y3, -X3, 1 - u1 * u2))
  {
    hide *;
    Signs(d, Y1, X1); Signs(d, Y2, X2); Signs(d, Y3, X3);
    assert Y1 * X1 == X1 * Y1 && Y2 * X2 == X2 * Y2 && Y3 * X3 == X3 * Y3;
    assert -X1 - -Y1 == Y1 - X1 && -X2 - -Y2 == Y2 - X2 && -X3 - -Y3 == Y3 - X3;
    ClassCong(d, X1, Y1, X2, Y2, X3, Y3, u1, u2, u3);
    ClassCong(d, -Y1, -X1, -Y2, -X2, X3, Y3, u1, u2, u3);
    ClassCong(d, -Y1, -X1, X2, Y2, -Y3, -X3, u1, u2, u3);
    ClassCong(d, X1, Y1, -Y2, -X2, -Y3, -X3, u1, u2, u3);
    FourTerms(m0, m1, m2, m3,
              Left(d, X1, Y1, -Y2, -X2, -Y3, -X3, 1 - u2 * u3), Left(d, X1, Y1, X2, Y2, X3, Y3, 1 - u2 * u3),
              Left(d, -Y1, -X1, -Y2, -X2, X3, Y3, 1 - u2 * u3), Left(d, -Y1, -X1, X2, Y2, -Y3, -X3, 1 - u2 * u3),
              Right(d, X1, Y1, -Y2, -X2, -Y3, -X3, 1 - u1 * u2), Right(d, X1, Y1, X2, Y2, X3, Y3, 1 - u1 * u2),
              Right(d, -Y1, -X1, -Y2, -X2, X3, Y3, 1 - u1 * u2), Right(d, -Y1, -X1, X2, Y2, -Y3, -X3, 1 - u1 * u2));
  }

  lemma FourTerms(m0: int, m1: int, m2: int, m3: int, l0: int, l1: int, l2: int, l3: int, r0: int, r1: int, r2: int, r3: int)
    requires Cong(l0, r0) && Cong(l1, r1) && Cong(l2, r2) && Cong(l3, r3)
    ensures Cong(m1 * l1 + m2 * l2 + m3 * l3 + m0 * l0, m1 * r1 + m2 * r2 + m3 * r3 + m0 * r0)
  {
    hide Cong;
    CongScale(l0, r0, m0);
    CongScale(l1, r1, m1);
    CongScale(l2, r2, m2);
    CongScale(l3, r3, m3);
    CongLinear(m1 * l1, m1 * r1, m2 * l2, m2 * r2);
    CongLinear(m1 * l1 + m2 * l2, m1 * r1 + m2 * r2, m3 * l3, m3 * r3);
    CongLinear(m1 * l1 + m2 * l2 + m3 * l3, m1 * r1 + m2 * r2 + m3 * r3, m0 * l0, m0 * r0);
  }

  // ---------------------------------------------------------------- sums of three points, denominators cleared

  ghost function CrossOf(d: int, x1: int, y1: int, x2: int, y2: int): int {
    d * ((x1 * x2) * (y1 * y2))
  }

  /** Numerator of the x coordinate of (p1 + p2) + p3. */
  ghost function TripleX(d: int, x1: int, y1: int, x2: int, y2: int, x3: int, y3: int): int {
    var t := CrossOf(d, x1, y1, x2, y2);
    ((x1 * y2 + x2 * y1) * (1 - t)) * y3 + ((y1 * y2 + x1 * x2) * (1 + t)) * x3
  }

  /** Numerator of the y coordinate. */
  ghost function TripleY(d: int, x1: int, y1: int, x2: int, y2: int, x3: int, y3: int): int {
    var t := CrossOf(d, x1, y1, x2, y2);
    ((y1 * y2 + x1 * x2) * (1 + t)) * y3 + ((x1 * y2 + x2 * y1) * (1 - t)) * x3
  }

  /** Denominator of the x coordinate (e = 1) or of the y coordinate (e = -1). */
  ghost function TripleDenominator(d: int, x1: int, y1: int, x2: int, y2: int, x3: int, y3: int, e: int): int {
    var t := CrossOf(d, x1, y1, x2, y2);
    (1 + t) * (1 - t) + e * (d * (((x1 * y2 + x2 * y1) * (y1 * y2 + x1 * x2)) * (x3 * y3)))
  }

  /** The numerators of a sum times the opposite denominators. */
  lemma NumeratorClasses(d: int, x1: int, y1: int, x2: int, y2: int, t: int)
    requires t == CrossOf(d, x1, y1, x2, y2)
    ensures (x1 * y2 + x2 * y1) * (1 - t)
      == (x1 * y2) * (1 - d * ((y1 * y1) * (x2 * x2))) + (y1 * x2) * (1 - d * ((x1 * x1) * (y2 * y2)))
    ensures (y1 * y2 + x1 * x2) * (1 + t)
      == (y1 * y2) * (1 + d * ((x1 * x1) * (x2 * x2))) + (x1 * x2) * (1 + d * ((y1 * y1) * (y2 * y2)))
  {
    assert (x1 * y2) * t == (y1 * x2) * (d * ((x1 * x1) * (y2 * y2))) by { Trade(d, x1, y2, x2, y1); }
    assert (y1 * x2) * t == (x1 * y2) * (d * ((y1 * y1) * (x2 * x2))) by { Trade(d, y1, x2, y2, x1); assert (x1 * x2) * (y1 * y2) == (y1 * y2) * (x2 * x1); }
    assert (y1 * y2) * t == (x1 * x2) * (d * ((y1 * y1) * (y2 * y2))) by { Trade(d, y1, y2, x2, x1); assert (x1 * x2) * (y1 * y2) == (y1 * x2) * (y2 * x1); }
    assert (x1 * x2) * t == (y1 * y2) * (d * ((x1 * x1) * (x2 * x2))) by { Trade(d, x1, x2, y2, y1); assert (x1 * x2) * (y1 * y2) == (x1 * y2) * (x2 * y1); }
    hide CrossOf;
    assert x2 * y1 == y1 * x2;
    SplitProducts(x1 * y2, y1 * x2, t);
    SplitProducts(y1 * y2, x1 * x2, -t);
  }

  lemma SplitProducts(a: int, b: int, t: int)
    ensures (a + b) * (1 - t) == a + b - a * t - b * t
  {
  }

  lemma Trade(d: int, a: int, b: int, c: int, e: int)
    ensures (a * b) * (d * ((a * c) * (b * e))) == (e * c) * (d * ((a * a) * (b * b)))
  {
    assert (a * c) * (b * e) == (a * b) * (e * c);
    assert (a * b) * (d * ((a * b) * (e * c))) == (e * c) * (d * ((a * b) * (a * b)));
    SwapPairs(a, b, a, b);
  }

  /** The denominator in terms of squares. */
  lemma DenominatorClasses(d: int, x1: int, y1: int, x2: int, y2: int, x3: int, y3: int, e: int, u1: int, u2: int)
    requires u1 == d * ((x1 * x1) * (y1 * y1)) && u2 == d * ((x2 * x2) * (y2 * y2))
    ensures TripleDenominator(d, x1, y1, x2, y2, x3, y3, e)
      == 1 - u1 * u2 + (d * (x2 * x2 + y2 * y2)) * (e * ((x1 * y1) * (x3 * y3)))
         + (e * (d * (x1 * x1 + y1 * y1))) * ((x2 * y2) * (x3 * y3))
  {
    var t, v1, v2, w := CrossOf(d, x1, y1, x2, y2), x1 * y1, x2 * y2, x3 * y3;
    var s1, s2 := y1 * y1 + x1 * x1, y2 * y2 + x2 * x2;
    assert t * t == u1 * u2 by {
      PairUp(x1, x1, y1, y1);
      PairUp(x2, x2, y2, y2);
      PairUp(x1, x2, y1, y2);
      Powers(d, v1, v2);
    }
    assert (1 + t) * (1 - t) == 1 - t * t;
    ProductOfNumerators(x1, y1, x2, y2);
    hide CrossOf;
    SpreadOut(d, v1, s2, v2, s1, w, e);
  }

  lemma SpreadOut(d: int, v1: int, s2: int, v2: int, s1: int, w: int, e: int)
    ensures e * (d * ((v1 * s2 + v2 * s1) * w)) == (d * s2) * (e * (v1 * w)) + (e * (d * s1)) * (v2 * w)
  {
    assert (v1 * s2 + v2 * s1) * w == s2 * (v1 * w) + s1 * (v2 * w);
    Spread(d, s2, v1 * w, s1, v2 * w, e);
  }

  lemma Spread(d: int, s2: int, a: int, s1: int, b: int, e: int)
    ensures e * (d * (s2 * a + s1 * b)) == (d * s2) * (e * a) + (e * (d * s1)) * b
  {
    assert d * (s2 * a + s1 * b) == (d * s2) * a + (d * s1) * b;
    assert e * ((d * s2) * a) == (d * s2) * (e * a) && e * ((d * s1) * b) == (e * (d * s1)) * b;
  }

  /** How multiplying by two of the products x y moves a monomial to another class. */
  lemma MoveFirstAndThird(p: int, q: int, x2: int, y2: int, x3: int, y3: int, s: int)
    ensures ((p * y2) * y3) * (s * ((p * q) * (x3 * y3))) == ((s * (p * p)) * (y3 * y3)) * ((q * y2) * x3)
    ensures ((q * y2) * x3) * (s * ((p * q) * (x3 * y3))) == ((s * (q * q)) * (x3 * x3)) * ((p * y2) * y3)
    ensures ((q * x2) * y3) * (s * ((p * q) * (x3 * y3))) == ((s * (q * q)) * (y3 * y3)) * ((p * x2) * x3)
    ensures ((p * x2) * x3) * (s * ((p * q) * (x3 * y3))) == ((s * (p * p)) * (x3 * x3)) * ((q * x2) * y3)
  {
    MoveTwo(p, y2, y3, s, q, x3);
    MoveTwo(q, y2, x3, s, p, y3);
    MoveTwo(q, x2, y3, s, p, x3);
    MoveTwo(p, x2, x3, s, q, y3);
    assert p * q == q * p && x3 * y3 == y3 * x3;
  }

  lemma MoveTwo(a: int, m: int, b: int, s: int, c: int, e: int)
    ensures ((a * m) * b) * (s * ((a * c) * (e * b))) == ((s * (a * a)) * (b * b)) * ((c * m) * e)
  {
    assert ((a * m) * b) * ((a * c) * (e * b)) == ((a * a) * (b * b)) * ((c * m) * e);
    MoveSign((a * m) * b, (a * c) * (e * b), (a * a) * (b * b), (c * m) * e, s, a * a, b * b);
  }

  lemma MoveSign(x: int, y: int, z: int, w: int, s: int, a: int, b: int)
    requires x * y == z * w && z == a * b
    ensures x * (s * y) == ((s * a) * b) * w
  {
    assert x * (s * y) == s * (x * y);
    assert ((s * a) * b) * w == s * ((a * b) * w);
  }

  lemma MoveFirstAndSecond(p: int, q: int, x2: int, y2: int, x3: int, y3: int, s: int)
    ensures ((p * y2) * y3) * (s * ((p * q) * (x2 * y2))) == ((s * (p * p)) * (y2 * y2)) * ((q * x2) * y3)
    ensures ((q * x2) * y3) * (s * ((p * q) * (x2 * y2))) == ((s * (q * q)) * (x2 * x2)) * ((p * y2) * y3)
    ensures ((q * y2) * x3) * (s * ((p * q) * (x2 * y2))) == ((s * (q * q)) * (y2 * y2)) * ((p * x2) * x3)
    ensures ((p * x2) * x3) * (s * ((p * q) * (x2 * y2))) == ((s * (p * p)) * (x2 * x2)) * ((q * y2) * x3)
  {
    MoveInner(p, y2, y3, s, q, x2);
    MoveInner(q, x2, y3, s, p, y2);
    MoveInner(q, y2, x3, s, p, x2);
    MoveInner(p, x2, x3, s, q, y2);
    assert p * q == q * p && x2 * y2 == y2 * x2;
  }

  lemma MoveInner(a: int, b: int, m: int, s: int, c: int, e: int)
    ensures ((a * b) * m) * (s * ((a * c) * (e * b))) == ((s * (a * a)) * (b * b)) * ((c * e) * m)
  {
    MoveTwo(a, m, b, s, c, e);
    assert (a * b) * m == (a * m) * b && (c * e) * m == (c * m) * e;
  }

  lemma MoveSecondAndThird(p: int, q: int, x2: int, y2: int, x3: int, y3: int)
    ensures ((p * y2) * y3) * ((x2 * y2) * (x3 * y3)) == ((y2 * y2) * (y3 * y3)) * ((p * x2) * x3)
    ensures ((p * x2) * x3) * ((x2 * y2) * (x3 * y3)) == ((x2 * x2) * (x3 * x3)) * ((p * y2) * y3)
    ensures ((q * x2) * y3) * ((x2 * y2) * (x3 * y3)) == ((x2 * x2) * (y3 * y3)) * ((q * y2) * x3)
    ensures ((q * y2) * x3) * ((x2 * y2) * (x3 * y3)) == ((y2 * y2) * (x3 * x3)) * ((q * x2) * y3)
  {
    MoveOuter(p, y2, y3, x2, x3);
    MoveOuter(p, x2, x3, y2, y3);
    MoveOuter(q, x2, y3, y2, x3);
    MoveOuter(q, y2, x3, x2, y3);
    assert x2 * y2 == y2 * x2 && x3 * y3 == y3 * x3;
  }

  lemma MoveOuter(p: int, a: int, b: int, c: int, e: int)
    ensures ((p * a) * b) * ((c * a) * (e * b)) == ((a * a) * (b * b)) * ((p * c) * e)
  {
  }

  /** The two bracketings agree after cross-multiplication; `s` and the roles of p and q tell x from y. */
  lemma SidesAgree(d: int, p: int, q: int, x2: int, y2: int, x3: int, y3: int, s: int,
                   X1: int, Y1: int, X2: int, Y2: int, X3: int, Y3: int, u1: int, u2: int, u3: int)
    requires X1 == s * (p * p) && Y1 == s * (q * q) && X2 == x2 * x2 && Y2 == y2 * y2 && X3 == x3 * x3 && Y3 == y3 * y3
    requires u1 == d * (X1 * Y1) && u2 == d * (X2 * Y2) && u3 == d * (X3 * Y3)
    requires Cong(Y1 - X1, 1 + u1) && Cong(Y2 - X2, 1 + u2) && Cong(Y3 - X3, 1 + u3)
    ensures var m1, m2, m3, m0 := (p * y2) * y3, (q * x2) * y3, (q * y2) * x3, (p * x2) * x3;
            var w13, w12, v23 := s * ((p * q) * (x3 * y3)), s * ((p * q) * (x2 * y2)), (x2 * y2) * (x3 * y3);
            Cong((m1 * (1 - d * (Y1 * X2)) + m2 * (1 - d * (X1 * Y2)) + m3 * (1 + d * (X1 * X2)) + m0 * (1 + d * (Y1 * Y2)))
                 * (1 - u2 * u3 + (d * (X2 + Y2)) * w13 + (d * (X3 + Y3)) * w12),
                 (m1 * (1 + d * (X3 * X2)) + m2 * (1 - d * (X3 * Y2)) + m3 * (1 - d * (Y3 * X2)) + m0 * (1 + d * (Y3 * Y2)))
                 * (1 - u1 * u2 + (d * (X2 + Y2)) * w13 + (d * (X1 + Y1)) * v23))
  {
    hide *;
    var m1, m2, m3, m0 := (p * y2) * y3, (q * x2) * y3, (q * y2) * x3, (p * x2) * x3;
    var w13, w12, v23 := s * ((p * q) * (x3 * y3)), s * ((p * q) * (x2 * y2)), (x2 * y2) * (x3 * y3);
    MoveFirstAndThird(p, q, x2, y2, x3, y3, s);
    MoveFirstAndSecond(p, q, x2, y2, x3, y3, s);
    MoveSecondAndThird(p, q, x2, y2, x3, y3);
    LeftClasses(d, X1, Y1, X2, Y2, X3, Y3, 1 - u2 * u3, m0, m1, m2, m3, w13, w12);
    RightClasses(d, X1, Y1, X2, Y2, X3, Y3, 1 - u1 * u2, m0, m1, m2, m3, w13, v23);
    ClassesAgree(d, X1, Y1, X2, Y2, X3, Y3, u1, u2, u3, m0, m1, m2, m3);
  }

  /** The numerators by classes. */
  lemma TripleXClasses(d: int, x1: int, y1: int, x2: int, y2: int, x3: int, y3: int)
    ensures TripleX(d, x1, y1, x2, y2, x3, y3)
      == ((x1 * y2) * y3) * (1 - d * ((y1 * y1) * (x2 * x2))) + ((y1 * x2) * y3) * (1 - d * ((x1 * x1) * (y2 * y2)))
         + ((y1 * y2) * x3) * (1 + d * ((x1 * x1) * (x2 * x2))) + ((x1 * x2) * x3) * (1 + d * ((y1 * y1) * (y2 * y2)))
    ensures TripleY(d, x1, y1, x2, y2, x3, y3)
      == ((y1 * y2) * y3) * (1 + d * ((x1 * x1) * (x2 * x2))) + ((x1 * x2) * y3) * (1 + d * ((y1 * y1) * (y2 * y2)))
         + ((x1 * y2) * x3) * (1 - d * ((y1 * y1) * (x2 * x2))) + ((y1 * x2) * x3) * (1 - d * ((x1 * x1) * (y2 * y2)))
  {
    var t := CrossOf(d, x1, y1, x2, y2);
    var a1, a2, a3, a0 := 1 - d * ((y1 * y1) * (x2 * x2)), 1 - d * ((x1 * x1) * (y2 * y2)), 1 + d * ((x1 * x1) * (x2 * x2)), 1 + d * ((y1 * y1) * (y2 * y2));
    NumeratorClasses(d, x1, y1, x2, y2, t);
    hide CrossOf;
    TwoTimes(x1 * y2, a1, y1 * x2, a2, y3);
    TwoTimes(y1 * y2, a3, x1 * x2, a0, x3);
    TwoTimes(y1 * y2, a3, x1 * x2, a0, y3);
    TwoTimes(x1 * y2, a1, y1 * x2, a2, x3);
  }

  lemma TwoTimes(m: int, a: int, n: int, b: int, z: int)
    ensures (m * a + n * b) * z == (m * z) * a + (n * z) * b
  {
  }

  lemma Rotations(a: int, b: int, c: int)
    ensures (a * b) * c == (c * b) * a
  {
  }

  lemma XSidesAgree(d: int, x1: int, y1: int, x2: int, y2: int, x3: int, y3: int)
    requires Cong(y1 * y1 - x1 * x1, 1 + d * ((x1 * x1) * (y1 * y1)))
    requires Cong(y2 * y2 - x2 * x2, 1 + d * ((x2 * x2) * (y2 * y2)))
    requires Cong(y3 * y3 - x3 * x3, 1 + d * ((x3 * x3) * (y3 * y3)))
    ensures Cong(TripleX(d, x1, y1, x2, y2, x3, y3) * TripleDenominator(d, x3, y3, x2, y2, x1, y1, 1),
                 TripleX(d, x3, y3, x2, y2, x1, y1) * TripleDenominator(d, x1, y1, x2, y2, x3, y3, 1))
  {
    hide *;
    var X1, Y1, X2, Y2, X3, Y3 := x1 * x1, y1 * y1, x2 * x2, y2 * y2, x3 * x3, y3 * y3;
    var u1, u2, u3 := d * (X1 * Y1), d * (X2 * Y2), d * (X3 * Y3);
    TripleXClasses(d, x1, y1, x2, y2, x3, y3);
    TripleXClasses(d, x3, y3, x2, y2, x1, y1);
    Rotations(x3, y2, y1); Rotations(y3, x2, y1); Rotations(y3, y2, x1); Rotations(x3, x2, x1);
    DenominatorClasses(d, x1, y1, x2, y2, x3, y3, 1, u1, u2);
    DenominatorClasses(d, x3, y3, x2, y2, x1, y1, 1, u3, u2);
    DenominatorOrder(d, u2, u3, X3 + Y3, 1, x1 * y1, x2 * y2, x3 * y3);
    assert 1 * X1 == X1 && 1 * Y1 == Y1 && 1 * (d * (X1 + Y1)) == d * (X1 + Y1);
    SidesAgree(d, x1, y1, x2, y2, x3, y3, 1, X1, Y1, X2, Y2, X3, Y3, u1, u2, u3);
  }

  lemma DenominatorOrder(d: int, u2: int, u3: int, s3: int, e: int, v1: int, v2: int, v3: int)
    ensures u3 * u2 == u2 * u3 && v3 * v1 == v1 * v3
    ensures (e * (d * s3)) * (v2 * v1) == (d * s3) * (e * (v1 * v2))
  {
  }

  lemma YSidesAgree(d: int, x1: int, y1: int, x2: int, y2: int, x3: int, y3: int)
    requires Cong(y1 * y1 - x1 * x1, 1 + d * ((x1 * x1) * (y1 * y1)))
    requires Cong(y2 * y2 - x2 * x2, 1 + d * ((x2 * x2) * (y2 * y2)))
    requires Cong(y3 * y3 - x3 * x3, 1 + d * ((x3 * x3) * (y3 * y3)))
    ensures Cong(TripleY(d, x1, y1, x2, y2, x3, y3) * TripleDenominator(d, x3, y3, x2, y2, x1, y1, -1),
                 TripleY(d, x3, y3, x2, y2, x1, y1) * TripleDenominator(d, x1, y1, x2, y2, x3, y3, -1))
  {
    hide *;
    var X1, Y1, X2, Y2, X3, Y3 := x1 * x1, y1 * y1, x2 * x2, y2 * y2, x3 * x3, y3 * y3;
    var u1, u2, u3 := d * (X1 * Y1), d * (X2 * Y2), d * (X3 * Y3);
    TripleXClasses(d, x1, y1, x2, y2, x3, y3);
    TripleXClasses(d, x3, y3, x2, y2, x1, y1);
    Rotations(x3, y2, x1); Rotations(y3, x2, x1); Rotations(y3, y2, y1); Rotations(x3, x2, y1);
    DenominatorClasses(d, x1, y1, x2, y2, x3, y3, -1, u1, u2);
    DenominatorClasses(d, x3, y3, x2, y2, x1, y1, -1, u3, u2);
    DenominatorOrder(d, u2, u3, X3 + Y3, -1, x1 * y1, x2 * y2, x3 * y3);
    assert -1 * X1 == -X1 && -1 * Y1 == -Y1;
    Signs(d, X1, X2); Signs(d, X1, Y2); Signs(d, Y1, X2); Signs(d, Y1, Y2); Signs(d, Y1, X1);
    assert Y1 * X1 == X1 * Y1 && x1 * y1 == y1 * x1;
    assert -1 * (d * (X1 + Y1)) == d * (-Y1 + -X1);
    SidesAgree(d, y1, x1, x2, y2, x3, y3, -1, -Y1, -X1, X2, Y2, X3, Y3, u1, u2, u3);
  }

  // ---------------------------------------------------------------- from cleared denominators to points

  /**
   A coordinate of a sum of three points, from the coordinates sx, sy of the inner sum: with n = sx u + sy w the
   numerator of the outer sum (u, w coordinates of the third point), z is the coordinate and c the outer cross term.
   */
  lemma Cleared(d: int, sx: int, sy: int, x3: int, y3: int, e: int, f: int, nx: int, ny: int, c: int, z: int, u: int, w: int, s: int)
    requires s == 1 || s == -1
    requires Cong(sx * e, nx) && Cong(sy * f, ny)
    requires c == d * ((sx * x3) * (sy * y3)) && Cong(z * (1 + s * c), sx * u + sy * w)
    ensures Cong((e * f) * (1 + s * c), e * f + s * (d * ((nx * ny) * (x3 * y3))))
    ensures Cong(z * (e * f + s * (d * ((nx * ny) * (x3 * y3)))), (nx * f) * u + (ny * e) * w)
  {
    hide Cong;
    var b := e * f + s * (d * ((nx * ny) * (x3 * y3)));
    CongMul(sx * e, nx, sy * f, ny);
    CongRefl(x3 * y3);
    CongMul((sx * e) * (sy * f), nx * ny, x3 * y3, x3 * y3);
    CongScale(((sx * e) * (sy * f)) * (x3 * y3), (nx * ny) * (x3 * y3), d);
    CongScale(d * (((sx * e) * (sy * f)) * (x3 * y3)), d * ((nx * ny) * (x3 * y3)), s);
    CongRefl(e * f);
    CongLinear(e * f, e * f, s * (d * (((sx * e) * (sy * f)) * (x3 * y3))), s * (d * ((nx * ny) * (x3 * y3))));
    OuterCross(d, sx, sy, x3, y3, e, f, s, c);
    CongSwap((e * f) * (1 + s * c), b);
    CongScale(b, (e * f) * (1 + s * c), z);
    CongScale(z * (1 + s * c), sx * u + sy * w, e * f);
    assert z * ((e * f) * (1 + s * c)) == (e * f) * (z * (1 + s * c));
    CongTrans(z * b, z * ((e * f) * (1 + s * c)), (e * f) * (sx * u + sy * w));
    CongRefl(f * u);
    CongRefl(e * w);
    CongMul(sx * e, nx, f * u, f * u);
    CongMul(sy * f, ny, e * w, e * w);
    CongLinear((sx * e) * (f * u), nx * (f * u), (sy * f) * (e * w), ny * (e * w));
    OuterNumerator(sx, sy, e, f, u, w, nx, ny);
    CongTrans(z * b, (e * f) * (sx * u + sy * w), (nx * f) * u + (ny * e) * w);
  }

  lemma OuterCross(d: int, sx: int, sy: int, x3: int, y3: int, e: int, f: int, s: int, c: int)
    requires c == d * ((sx * x3) * (sy * y3))
    ensures (e * f) * (1 + s * c) == e * f + s * (d * (((sx * e) * (sy * f)) * (x3 * y3)))
  {
    SwapPairs(sx, e, sy, f);
    SwapPairs(sx, x3, sy, y3);
    assert (e * f) * c == d * (((sx * sy) * (e * f)) * (x3 * y3)) by {
      assert (e * f) * ((sx * sy) * (x3 * y3)) == ((sx * sy) * (e * f)) * (x3 * y3);
      assert (e * f) * (d * ((sx * sy) * (x3 * y3))) == d * ((e * f) * ((sx * sy) * (x3 * y3)));
    }
    assert (e * f) * (s * c) == s * ((e * f) * c);
  }

  lemma OuterNumerator(sx: int, sy: int, e: int, f: int, u: int, w: int, nx: int, ny: int)
    ensures (e * f) * (sx * u + sy * w) == (sx * e) * (f * u) + (sy * f) * (e * w)
    ensures nx * (f * u) == (nx * f) * u && ny * (e * w) == (ny * e) * w
  {
    assert (e * f) * (sx * u) == (sx * e) * (f * u);
    assert (e * f) * (sy * w) == (sy * f) * (e * w);
  }

  /** The coordinates of (p + q) + r, without division. */
  lemma TripleSum(p: Point, q: Point, r: Point)
    requires Fermat() && NonSquare() && OnCurve(p) && OnCurve(q) && OnCurve(r)
    ensures var z := Add(Add(p, q), r);
            && 0 <= z.x < P && 0 <= z.y < P
            && TripleDenominator(D, p.x, p.y, q.x, q.y, r.x, r.y, 1) % P != 0
            && TripleDenominator(D, p.x, p.y, q.x, q.y, r.x, r.y, -1) % P != 0
            && Cong(z.x * TripleDenominator(D, p.x, p.y, q.x, q.y, r.x, r.y, 1), TripleX(D, p.x, p.y, q.x, q.y, r.x, r.y))
            && Cong(z.y * TripleDenominator(D, p.x, p.y, q.x, q.y, r.x, r.y, -1), TripleY(D, p.x, p.y, q.x, q.y, r.x, r.y))
  {
    var s, t := Add(p, q), Cross(p, q);
    var z, c := Add(s, r), Cross(s, r);
    var nx, ny := p.x * q.y + q.x * p.y, p.y * q.y + p.x * q.x;
    hide OnCurve, Add, Cong, Fermat, NonSquare;
    Closed(p, q);
    SumCoordinates(p, q);
    Complete(p, q);
    SumCoordinates(s, r);
    Complete(s, r);
    TripleIs(p, q, r, t, nx, ny);
    assert XNumerator(s, r) == s.x * r.y + s.y * r.x && YNumerator(s, r) == s.x * r.x + s.y * r.y by { NumeratorOrder(s, r); }
    assert c == D * ((s.x * r.x) * (s.y * r.y));
    hide Cross, XNumerator, YNumerator, TripleX, TripleY, TripleDenominator;
    assert 1 + 1 * c == 1 + c && 1 + -1 * c == 1 - c;
    Cleared(D, s.x, s.y, r.x, r.y, 1 + t, 1 - t, nx, ny, c, z.x, r.y, r.x, 1);
    Cleared(D, s.x, s.y, r.x, r.y, 1 + t, 1 - t, nx, ny, c, z.y, r.x, r.y, -1);
    NonzeroProduct(1 + t, 1 - t);
    StillNonzero((1 + t) * (1 - t), 1 + 1 * c, (1 + t) * (1 - t) + 1 * (D * ((nx * ny) * (r.x * r.y))));
    StillNonzero((1 + t) * (1 - t), 1 + -1 * c, (1 + t) * (1 - t) + -1 * (D * ((nx * ny) * (r.x * r.y))));
  }

  lemma TripleIs(p: Point, q: Point, r: Point, t: int, nx: int, ny: int)
    requires t == Cross(p, q) && nx == p.x * q.y + q.x * p.y && ny == p.y * q.y + p.x * q.x
    ensures TripleX(D, p.x, p.y, q.x, q.y, r.x, r.y) == (nx * (1 - t)) * r.y + (ny * (1 + t)) * r.x
    ensures TripleY(D, p.x, p.y, q.x, q.y, r.x, r.y) == (nx * (1 - t)) * r.x + (ny * (1 + t)) * r.y
    ensures TripleDenominator(D, p.x, p.y, q.x, q.y, r.x, r.y, 1) == (1 + t) * (1 - t) + 1 * (D * ((nx * ny) * (r.x * r.y)))
    ensures TripleDenominator(D, p.x, p.y, q.x, q.y, r.x, r.y, -1) == (1 + t) * (1 - t) + -1 * (D * ((nx * ny) * (r.x * r.y)))
  {
  }

  lemma NumeratorOrder(s: Point, r: Point)
    ensures XNumerator(s, r) == s.x * r.y + s.y * r.x && YNumerator(s, r) == s.x * r.x + s.y * r.y
  {
    assert r.x * s.y == s.y * r.x;
  }

  lemma StillNonzero(a: int, b: int, k: int)
    requires Fermat() && a % P != 0 && b % P != 0 && Cong(a * b, k)
    ensures k % P != 0
  {
    hide Fermat, Cong;
    NonzeroProduct(a, b);
    CongSame(a * b, k);
  }

  /** Fractions that agree after cross-multiplication are equal. */
  lemma EqualFractions(x: int, a: int, b: int, z: int, a': int, b': int)
    requires Fermat() && 0 <= x < P && 0 <= z < P && b % P != 0 && b' % P != 0
    requires Cong(x * b, a) && Cong(z * b', a') && Cong(a * b', a' * b)
    ensures x == z
  {
    hide Fermat, Cong;
    NonzeroProduct(b, b');
    CongRefl(b);
    CongRefl(b');
    CongMul(x * b, a, b', b');
    CongMul(z * b', a', b, b);
    CongTrans((x * b) * b', a * b', a' * b);
    CongSwap((z * b') * b, a' * b);
    CongTrans((x * b) * b', a' * b, (z * b') * b);
    assert (x * b) * b' == (b * b') * x && (z * b') * b == (b * b') * z;
    Cancel(b * b', x, z);
    CongSame(x, z);
    ModUnique(x, P, 0, x);
  }

  /** Addition is associative. */
  lemma Associates(p: Point, q: Point, r: Point)
    requires Fermat() && NonSquare() && OnCurve(p) && OnCurve(q) && OnCurve(r)
    ensures Add(Add(p, q), r) == Add(p, Add(q, r))
  {
    CurveEquations(p);
    CurveEquations(q);
    CurveEquations(r);
    hide OnCurve, Add, Cong, Fermat, NonSquare, TripleX, TripleY, TripleDenominator;
    TripleSum(p, q, r);
    TripleSum(r, q, p);
    Commutes(q, r);
    Commutes(p, Add(q, r));
    XSidesAgree(D, p.x, p.y, q.x, q.y, r.x, r.y);
    YSidesAgree(D, p.x, p.y, q.x, q.y, r.x, r.y);
    var z, w := Add(Add(p, q), r), Add(Add(r, q), p);
    EqualFractions(z.x, TripleX(D, p.x, p.y, q.x, q.y, r.x, r.y), TripleDenominator(D, p.x, p.y, q.x, q.y, r.x, r.y, 1),
                   w.x, TripleX(D, r.x, r.y, q.x, q.y, p.x, p.y), TripleDenominator(D, r.x, r.y, q.x, q.y, p.x, p.y, 1));
    EqualFractions(z.y, TripleY(D, p.x, p.y, q.x, q.y, r.x, r.y), TripleDenominator(D, p.x, p.y, q.x, q.y, r.x, r.y, -1),
                   w.y, TripleY(D, r.x, r.y, q.x, q.y, p.x, p.y), TripleDenominator(D, r.x, r.y, q.x, q.y, p.x, p.y, -1));
  }

  lemma CurveEquations(p: Point)
    requires OnCurve(p)
    ensures Cong(p.y * p.y - p.x * p.x, 1 + D * ((p.x * p.x) * (p.y * p.y)))
  {
    CurveMeaning(p.x, p.y);
  }
}
