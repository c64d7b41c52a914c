/** Facts about `Times` that limb multiplications share: bounds, constant factors and symmetry. */
module Products {
  import opened Field

  lemma TimesIsProduct(x: int, y: int)
    ensures Times(x, y) == x * y == Times(y, x)
  {
  }

  lemma TimesSymmetric()
    ensures forall x, y {:trigger Times(x, y)} :: Times(x, y) == Times(y, x)
  {
  }

  /** A factor of the left operand comes out of the product. */
  lemma ScaleLeft(x: int, k: int, kx: int)
    requires kx == k * x
    ensures forall y {:trigger Times(kx, y)} :: Times(kx, y) == k * Times(x, y)
  {
    forall y {:trigger Times(kx, y)} ensures Times(kx, y) == k * Times(x, y) {
      assert (k * x) * y == k * (x * y);
    }
  }

  lemma ScaleRight(y: int, k: int, ky: int)
    requires ky == k * y
    ensures forall x {:trigger Times(x, ky)} :: Times(x, ky) == k * Times(x, y)
  {
    forall x {:trigger Times(x, ky)} ensures Times(x, ky) == k * Times(x, y) {
      assert x * (k * y) == k * (x * y);
    }
  }

  /** Products of nonnegative operands up to `A` and `B`. */
  lemma TimesBound(A: int, B: int)
    ensures forall a, b {:trigger Times(a, b)} :: 0 <= a <= A && 0 <= b <= B ==> 0 <= Times(a, b) <= A * B
  {
    forall a, b {:trigger Times(a, b)} | 0 <= a <= A && 0 <= b <= B
      ensures 0 <= Times(a, b) <= A * B
    {
      assert a * b <= A * b <= A * B;
    }
  }

  /** Products of operands of magnitude up to `A` and `B`. */
  lemma TimesMagnitude(A: int, B: int)
    ensures forall a, b {:trigger Times(a, b)} :: -A <= a <= A && -B <= b <= B ==> -(A * B) <= Times(a, b) <= A * B
  {
    forall a, b {:trigger Times(a, b)} | -A <= a <= A && -B <= b <= B
      ensures -(A * B) <= Times(a, b) <= A * B
    {
      MagnitudeOfProduct(a, b, A, B);
    }
  }

  lemma MagnitudeOfProduct(a: int, b: int, A: int, B: int)
    requires -A <= a <= A && -B <= b <= B
    ensures -(A * B) <= a * b <= A * B
  {
    if a >= 0 {
      assert a * -B <= a * b <= a * B;
      assert a * B <= A * B;
    } else {
      assert -a * -B <= -a * b <= -a * B;
      assert -a * B <= A * B;
    }
  }
}
