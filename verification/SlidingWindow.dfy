/**
 The sliding-window recoding of `slide`: 256 signed digits, each 0 or odd and at most 15 in magnitude, with
 the value of the 32 bytes they were made from.
 */
module SlidingWindow {
  import opened CInts
  import opened Bytes

  /** The number written by the digits from index `i` on. */
  ghost function DigitsFrom(r: seq<int8>, i: nat): int
    requires i <= |r|
    decreases |r| - i
  {
    if i == |r| then 0 else r[i] as int + 2 * DigitsFrom(r, i + 1)
  }

  /** The number written by the digits below index `k`. */
  ghost function DigitsBelow(r: seq<int8>, k: nat): int
    requires k <= |r|
  {
    if k == 0 then 0 else DigitsBelow(r, k - 1) + r[k - 1] as int * Pow2(k - 1)
  }

  ghost function Value(r: seq<int8>): int {
    DigitsFrom(r, 0)
  }

  /** What the scalar multiplication can use as a digit. */
  predicate WindowDigit(d: int8) {
    d == 0 || (d % 2 == 1 && -15 <= d <= 15)
  }

  lemma {:induction false} Split(r: seq<int8>, k: nat)
    requires k <= |r|
    ensures Value(r) == DigitsBelow(r, k) + Pow2(k) * DigitsFrom(r, k)
  {
    if k > 0 {
      Split(r, k - 1);
      LowStep(r, k - 1);
      Twice(k - 1);
      hide *;
      Regroup(Pow2(k - 1), r[k - 1] as int, DigitsFrom(r, k));
    }
  }

  lemma Regroup(p: int, d: int, h: int)
    ensures p * (d + 2 * h) == d * p + (2 * p) * h
  {
  }

  lemma LowStep(r: seq<int8>, i: nat)
    requires i < |r|
    ensures DigitsBelow(r, i + 1) == DigitsBelow(r, i) + r[i] as int * Pow2(i)
  {
  }

  lemma Twice(k: nat)
    ensures Pow2(k + 1) == 2 * Pow2(k)
  {
  }

  lemma {:induction false} LowAgrees(r: seq<int8>, s: seq<int8>, k: nat)
    requires |r| == |s| && k <= |r| && r[..k] == s[..k]
    ensures DigitsBelow(r, k) == DigitsBelow(s, k)
  {
    if k > 0 {
      assert r[k - 1] == r[..k][k - 1] == s[..k][k - 1] == s[k - 1];
      assert r[..k - 1] == r[..k][..k - 1] == s[..k][..k - 1] == s[..k - 1];
      LowAgrees(r, s, k - 1);
    }
  }

  lemma {:induction false} HighAgrees(r: seq<int8>, s: seq<int8>, k: nat)
    requires |r| == |s| && k <= |r| && r[k..] == s[k..]
    ensures DigitsFrom(r, k) == DigitsFrom(s, k)
    decreases |r| - k
  {
    if k < |r| {
      assert r[k] == r[k..][0] == s[k..][0] == s[k];
      assert r[k + 1..] == r[k..][1..] == s[k..][1..] == s[k + 1..];
      HighAgrees(r, s, k + 1);
    }
  }

  /** Changing one digit. */
  lemma Update(r: seq<int8>, s: seq<int8>, m: nat)
    requires |r| == |s| && m < |r|
    requires forall j :: 0 <= j < |r| && j != m ==> s[j] == r[j]
    ensures Value(s) == Value(r) + (s[m] as int - r[m] as int) * Pow2(m)
  {
    Split(r, m);
    Split(s, m);
    LowAgrees(r, s, m);
    HighAgrees(r, s, m + 1);
    var p, h := Pow2(m), DigitsFrom(r, m + 1);
    assert p * (s[m] as int + 2 * h) == p * (r[m] as int + 2 * h) + (s[m] as int - r[m] as int) * p;
  }

  /** The digits from index `k` on are bits. */
  predicate AllBits(r: seq<int8>, k: nat) {
    forall j :: k <= j < |r| ==> r[j] == 0 || r[j] == 1
  }

  /** A run of equal bits. */
  lemma {:induction false} Zeros(r: seq<int8>, i: nat, k: nat)
    requires i <= k <= |r| && forall j :: i <= j < k ==> r[j] == 0
    ensures DigitsBelow(r, k) == DigitsBelow(r, i)
    decreases k
  {
    if i < k { Zeros(r, i, k - 1); }
  }

  lemma {:induction false} Ones(r: seq<int8>, i: nat, k: nat)
    requires i <= k <= |r| && forall j :: i <= j < k ==> r[j] == 1
    ensures DigitsBelow(r, k) == DigitsBelow(r, i) + Pow2(k) - Pow2(i)
    decreases k
  {
    if i < k { Ones(r, i, k - 1); }
  }

  // ---------------------------------------------------------------- the bits

  /** r[i] = 1 & (a[i >> 3] >> (i & 7)) */
  method Unpack(r: array<int8>, a: seq<uint8>)
    requires r.Length == 256 && |a| == 32
    modifies r
    ensures AllBits(r[..], 0) && Value(r[..]) == LE(a)
  {
    hide LE, LEFrom, Value, Bit, Pow2, AllBits;
    LEEmpty(a);
    for i := 0 to 256
      invariant forall j :: 0 <= j < i ==> r[j] as int == Bit(LE(a), j)
    {
      BitOfBytes(a, 0, i);
      r[i] := BitOfByte(a[i / 8], i % 8);
    }
    UnpackedValue(r[..], a);
  }

  function BitOfByte(x: uint8, k: nat): (b: int8)
    ensures b as int == Bit(x as int, k)
  {
    (x as nat / Pow2(k) % 2) as int8
  }

  lemma UnpackedValue(r: seq<int8>, a: seq<uint8>)
    requires |r| == 256 && |a| == 32
    requires forall j :: 0 <= j < 256 ==> r[j] as int == Bit(LE(a), j)
    ensures AllBits(r, 0) && Value(r) == LE(a)
  {
    hide LE, LEFrom, Bit, Pow2;
    LEEmpty(a);
    LEBound(a, 0);
    PowersOfTwo();
    BitsValue(r, LE(a), 0);
  }

  lemma {:induction false} BitsValue(r: seq<int8>, n: nat, i: nat)
    requires |r| == 256 && i <= 256 && n < Pow2(256)
    requires forall j :: 0 <= j < 256 ==> r[j] as int == Bit(n, j)
    ensures DigitsFrom(r, i) == n / Pow2(i)
    decreases 256 - i
  {
    hide Pow2;
    if i == 256 {
      ModUnique(n, Pow2(256), 0, n);
    } else {
      BitsValue(r, n, i + 1);
      Halve(n, i);
    }
  }

  lemma Halve(n: nat, i: nat)
    ensures n / Pow2(i) == Bit(n, i) + 2 * (n / Pow2(i + 1))
  {
    var p := Pow2(i);
    NestedDiv(n, p, 2);
    assert Pow2(i + 1) == p * 2;
  }

  // ---------------------------------------------------------------- the windows

  /** Adds 1 at index `p`, rippling through ones to the first zero; a ripple that finds none is lost. */
  method Ripple(r: array<int8>, p: nat) returns (ghost lost: bool)
    requires r.Length == 256 && p < 256 && AllBits(r[..], p)
    modifies r
    ensures forall j :: 0 <= j < p ==> r[j] == old(r[j])
    ensures AllBits(r[..], p)
    ensures old(r[p]) == 1 ==> r[p] == 0
    ensures !lost ==> Value(r[..]) == old(Value(r[..])) + Pow2(p)
    ensures lost ==> Value(r[..]) == old(Value(r[..])) + Pow2(p) - Pow2(256)
    ensures lost ==> forall j :: p <= j < 256 ==> old(r[j]) == 1 && r[j] == 0
  {
    hide Value, Pow2;
    var k := p;
    while k < 256
      invariant p <= k <= 256
      invariant forall j :: 0 <= j < p || k <= j < 256 ==> r[j] == old(r[j])
      invariant forall j :: p <= j < k ==> old(r[j]) == 1 && r[j] == 0
      invariant Value(r[..]) == old(Value(r[..])) + Pow2(p) - Pow2(k)
    {
      ghost var before := r[..];
      if r[k] == 0 {
        r[k] := 1;
        Update(before, r[..], k);
        return false;
      }
      r[k] := 0;
      Update(before, r[..], k);
      Twice(k);
      k := k + 1;
    }
    lost := true;
  }

  /**
   The state between windows: digits below `i` are final, those in [i, q) are 0, the others are still bits,
   and the part below `q` is worth at least -2^q. The value is `n`, or a carry out of the top was lost; that
   takes n >= 2^255.
   */
  ghost predicate Between(r: seq<int8>, i: nat, q: nat, n: nat) {
    && |r| == 256 && i <= q <= 256
    && (forall j :: 0 <= j < i ==> WindowDigit(r[j]))
    && (forall j :: i <= j < q ==> r[j] == 0)
    && AllBits(r, q)
    && DigitsBelow(r, q) + Pow2(q) >= 0
    && Kept(r, q, n)
  }

  ghost predicate Kept(r: seq<int8>, q: nat, n: nat) {
    || Value(r) == n
    || (Value(r) == n - Pow2(256) && n >= Pow2(255) && forall j :: q <= j < |r| ==> r[j] == 0)
  }

  /** The state inside the window of index `i`, with `q` the next index to look at. */
  ghost predicate Inside(r: seq<int8>, i: nat, q: nat, n: nat) {
    && |r| == 256 && i < q <= 256
    && (forall j :: 0 <= j <= i ==> WindowDigit(r[j])) && r[i] != 0
    && (forall j :: i < j < q ==> r[j] == 0)
    && AllBits(r, q)
    && DigitsBelow(r, i) + Pow2(i) >= 0
    && DigitsBelow(r, i + 1) + Pow2(q) >= 0
    && Kept(r, q, n)
  }

  lemma Enter(r: seq<int8>, i: nat, q: nat, n: nat)
    requires Between(r, i, q, n) && i < 256 && r[i] != 0
    ensures q == i && Inside(r, i, i + 1, n)
  {
  }

  lemma Leave(r: seq<int8>, i: nat, q: nat, n: nat)
    requires Inside(r, i, q, n)
    ensures Between(r, i + 1, q, n)
  {
    Zeros(r, i + 1, q);
  }

  lemma Skip(r: seq<int8>, i: nat, q: nat, n: nat)
    requires Between(r, i, q, n) && i < 256 && r[i] == 0
    ensures Between(r, i + 1, if q == i then i + 1 else q, n)
  {
  }

  lemma PassZero(r: seq<int8>, i: nat, q: nat, n: nat)
    requires Inside(r, i, q, n) && q < 256 && r[q] == 0
    ensures Inside(r, i, q + 1, n)
  {
  }

  /** The digit of the window changes from d to e; nothing below it does. */
  lemma LowChange(r: seq<int8>, s: seq<int8>, i: nat)
    requires |r| == |s| && i < |r| && forall j :: 0 <= j < i ==> s[j] == r[j]
    ensures DigitsBelow(s, i) == DigitsBelow(r, i)
    ensures DigitsBelow(s, i + 1) == DigitsBelow(r, i + 1) + (s[i] as int - r[i] as int) * Pow2(i)
  {
    LowAgrees(r, s, i);
    hide Pow2;
    Factor(s[i] as int, r[i] as int, Pow2(i));
  }

  lemma Factor(e: int, d: int, p: int)
    ensures (e - d) * p == e * p - d * p
  {
  }

  /** Taking the bit at `i + b` into the window leaves the value as it is. */
  lemma Merge(r: seq<int8>, s: seq<int8>, i: nat, b: nat, n: nat)
    requires b >= 1 && Inside(r, i, i + b, n) && i + b < 256 && r[i + b] == 1
    requires r[i] as int + Pow2(b) <= 15
    requires |s| == 256 && s[i] as int == r[i] as int + Pow2(b) && s[i + b] == 0
    requires forall j :: 0 <= j < 256 && j != i && j != i + b ==> s[j] == r[j]
    ensures Inside(s, i, i + b + 1, n)
  {
    hide Value, DigitsBelow, Pow2;
    var m := r[i := s[i]];
    Update(r, m, i);
    Update(m, s, i + b);
    LowChange(r, s, i);
    Pow2Add(b, i);
    Twice(i + b);
    Twice(b - 1);
    OddDigit(r[i] as int, s[i] as int, Pow2(b - 1));
    assert DigitsBelow(s, i + 1) == DigitsBelow(r, i + 1) + Pow2(b) * Pow2(i);
    assert Value(s) == Value(r);
  }

  lemma OddDigit(d: int, e: int, h: int)
    requires e == d + 2 * h || e == d - 2 * h
    ensures d % 2 == e % 2
  {
  }

  /** Taking the bit at `i + b` as a negative part costs a ripple; it is lost only if n >= 2^255. */
  lemma Borrow(r: seq<int8>, m: seq<int8>, s: seq<int8>, i: nat, b: nat, n: nat, lost: bool)
    requires b >= 1 && Inside(r, i, i + b, n) && i + b < 256 && r[i + b] == 1
    requires r[i] as int + Pow2(b) > 15 && r[i] as int - Pow2(b) >= -15
    requires |m| == 256 && m[i] as int == r[i] as int - Pow2(b) && forall j :: 0 <= j < 256 && j != i ==> m[j] == r[j]
    requires |s| == 256 && forall j :: 0 <= j < i + b ==> s[j] == m[j]
    requires AllBits(s, i + b) && s[i + b] == 0
    requires !lost ==> Value(s) == Value(m) + Pow2(i + b)
    requires lost ==> Value(s) == Value(m) + Pow2(i + b) - Pow2(256)
    requires lost ==> forall j :: i + b <= j < 256 ==> m[j] == 1 && s[j] == 0
    ensures Inside(s, i, i + b + 1, n)
  {
    hide Value, DigitsBelow, Pow2;
    Update(r, m, i);
    LowChange(r, s, i);
    LowStep(r, i);
    Pow2Add(b, i);
    Twice(i + b);
    Twice(b - 1);
    OddDigit(r[i] as int, s[i] as int, Pow2(b - 1));
    NegatedProduct(Pow2(b), Pow2(i));
    AtLeastOne(r[i] as int, Pow2(i));
    assert Value(m) == Value(r) - Pow2(i + b);
    assert DigitsBelow(r, i + 1) >= 0;
    assert Value(r) == n;
    if lost {
      Ones(r, i + b, 256);
      Zeros(r, i + 1, i + b);
      Split(r, 256);
      TopBits(i + b);
    }
  }

  lemma NegatedProduct(x: int, y: int)
    ensures -x * y == -(x * y)
  {
  }

  lemma AtLeastOne(d: int, p: nat)
    requires d >= 1
    ensures d * p >= p
  {
  }

  lemma TopBits(k: nat)
    requires k < 256
    ensures Pow2(256) - Pow2(k) >= Pow2(255)
  {
    Pow2Add(255 - k, k);
    hide Pow2;
    ProductAtLeast(Pow2(255 - k), Pow2(k));
    Twice(255);
  }

  /** The loop over `b`: fills the window of index `i`. */
  method FillWindow(r: array<int8>, i: nat, ghost n: nat) returns (ghost q: nat)
    requires r.Length == 256 && i < 256 && Inside(r[..], i, i + 1, n)
    modifies r
    ensures Inside(r[..], i, q, n)
  {
    hide Inside, Value, DigitsBelow, Pow2, AllBits;
    q := i + 1;
    var b := 1;
    while b <= 6 && i + b < 256
      invariant 1 <= b <= 7 && q == i + b && Inside(r[..], i, q, n)
    {
      InsideFacts(r[..], i, q, n);
      ghost var before := r[..];
      if r[i + b] != 0 {
        var x := r[i + b] as int * Pow2(b);
        SmallPowers(b);
        if r[i] as int + x <= 15 {
          r[i] := (r[i] as int + x) as int8;
          r[i + b] := 0;
          Merge(before, r[..], i, b, n);
        } else if r[i] as int - x >= -15 {
          r[i] := (r[i] as int - x) as int8;
          ghost var middle := r[..];
          BitsStay(before, middle, i, i + b);
          ghost var lost := Ripple(r, i + b);
          Borrow(before, middle, r[..], i, b, n, lost);
        } else {
          break;
        }
      } else {
        PassZero(r[..], i, q, n);
      }
      b := b + 1;
      q := q + 1;
    }
  }

  lemma InsideFacts(r: seq<int8>, i: nat, q: nat, n: nat)
    requires Inside(r, i, q, n)
    ensures |r| == 256 && i < q <= 256 && -15 <= r[i] <= 15
    ensures AllBits(r, q) && (q < 256 ==> r[q] == 0 || r[q] == 1)
  {
  }

  lemma BitsStay(r: seq<int8>, s: seq<int8>, i: nat, q: nat)
    requires |r| == |s| && i < q && AllBits(r, q) && forall j :: 0 <= j < |r| && j != i ==> s[j] == r[j]
    ensures AllBits(s, q)
  {
  }

  lemma SmallPowers(b: nat)
    requires 1 <= b <= 6
    ensures 2 <= Pow2(b) <= 64
  {
    PowersOfTwo();
  }

  /**
   `slide`: the digits are all usable and have the value of the input. Only an input of 2^255 or more can
   lose a carry, and then the value is short by exactly 2^256.
   */
  method Slide(r: array<int8>, a: seq<uint8>)
    requires r.Length == 256 && |a| == 32
    modifies r
    ensures forall j :: 0 <= j < 256 ==> WindowDigit(r[j])
    ensures LE(a) < Pow2(255) ==> Value(r[..]) == LE(a)
    ensures Value(r[..]) == LE(a) || Value(r[..]) == LE(a) - Pow2(256)
  {
    ghost var n := LE(a);
    hide Inside, Between, Value, DigitsBelow, Pow2, AllBits, LE;
    Unpack(r, a);
    ghost var q := 0;
    Start(r[..], n);
    for i := 0 to 256
      invariant Between(r[..], i, q, n)
    {
      BetweenFacts(r[..], i, q, n);
      if r[i] != 0 {
        Enter(r[..], i, q, n);
        q := FillWindow(r, i, n);
        Leave(r[..], i, q, n);
      } else {
        Skip(r[..], i, q, n);
        q := if q == i then i + 1 else q;
      }
    }
    Final(r[..], q, n);
  }

  lemma BetweenFacts(r: seq<int8>, i: nat, q: nat, n: nat)
    requires Between(r, i, q, n)
    ensures |r| == 256 && i <= q <= 256
  {
  }

  lemma Start(r: seq<int8>, n: nat)
    requires |r| == 256 && AllBits(r, 0) && Value(r) == n
    ensures Between(r, 0, 0, n)
  {
  }

  lemma Final(r: seq<int8>, q: nat, n: nat)
    requires Between(r, 256, q, n)
    ensures |r| == 256 && forall j :: 0 <= j < 256 ==> WindowDigit(r[j])
    ensures n < Pow2(255) ==> Value(r) == n
    ensures Value(r) == n || Value(r) == n - Pow2(256)
  {
  }
}
