/**
 Fixed-base scalar multiplication: signed radix-16 recoding, branch-free table lookup, and the comb that adds
 the odd digits, multiplies by 16 and adds the even ones.

 `k25519Precomp` is a parameter: a table is fit for use when entry (i, j) represents (j+1) 256^i B.
 */
module ScalarMultBase {
  import opened CInts
  import opened Bytes
  import opened Field
  import opened Edwards
  import opened Multiples
  import opened Ge
  import F = Fe25

  // ---------------------------------------------------------------- digits

  /** The number written in radix 16 by the digits from index `i` on. */
  ghost function HexFrom(e: seq<int8>, i: nat): int
    requires i <= |e|
    decreases |e| - i
  {
    if i == |e| then 0 else e[i] as int + 16 * HexFrom(e, i + 1)
  }

  ghost function Power256(k: nat): nat {
    if k == 0 then 1 else 256 * Power256(k - 1)
  }

  /** The part of the number that the even digits 0, 2, .., 2k-2 make up. */
  ghost function Evens(e: seq<int8>, k: nat): int
    requires 2 * k <= |e|
  {
    if k == 0 then 0 else Evens(e, k - 1) + e[2 * k - 2] as int * Power256(k - 1)
  }

  /** The odd digits 1, 3, .., 2k-1 in the same way; their part of the number is 16 times this. */
  ghost function Odds(e: seq<int8>, k: nat): int
    requires 2 * k <= |e|
  {
    if k == 0 then 0 else Odds(e, k - 1) + e[2 * k - 1] as int * Power256(k - 1)
  }

  lemma {:induction false} EvensAndOdds(e: seq<int8>, k: nat)
    requires 2 * k <= |e|
    ensures HexFrom(e, 0) == Evens(e, k) + 16 * Odds(e, k) + Power256(k) * HexFrom(e, 2 * k)
  {
    if k > 0 {
      EvensAndOdds(e, k - 1);
      Interleave(Power256(k - 1), e[2 * k - 2] as int, e[2 * k - 1] as int, HexFrom(e, 2 * k));
    }
  }

  lemma Interleave(p: int, d: int, e: int, h: int)
    ensures p * (d + 16 * (e + 16 * h)) == d * p + 16 * (e * p) + (256 * p) * h
  {
  }

  lemma {:induction false} HighAgrees(e: seq<int8>, f: seq<int8>, k: nat)
    requires |e| == |f| && k <= |e| && forall j :: k <= j < |e| ==> e[j] == f[j]
    ensures HexFrom(e, k) == HexFrom(f, k)
    decreases |e| - k
  {
    if k < |e| { HighAgrees(e, f, k + 1); }
  }

  /** Digits below index `i`, and the number above them with a carry. */
  ghost function WithCarry(e: seq<int8>, i: nat, j: nat, carry: int): int
    requires i <= j <= |e|
    decreases j - i
  {
    if i == j then HexFrom(e, j) + carry else e[i] as int + 16 * WithCarry(e, i + 1, j, carry)
  }

  lemma {:induction false} NoCarryYet(e: seq<int8>)
    ensures WithCarry(e, 0, 0, 0) == HexFrom(e, 0)
  {
  }

  lemma {:induction false} CarryMoves(e: seq<int8>, f: seq<int8>, i: nat, j: nat, c: int, c': int)
    requires i <= j < |e| == |f| && forall k :: 0 <= k < |e| && k != j ==> f[k] == e[k]
    requires f[j] as int == e[j] as int + c - 16 * c'
    ensures WithCarry(f, i, j + 1, c') == WithCarry(e, i, j, c)
    decreases j - i
  {
    if i == j {
      HighAgrees(e, f, j + 1);
    } else {
      CarryMoves(e, f, i + 1, j, c, c');
    }
  }

  lemma {:induction false} LastCarry(e: seq<int8>, i: nat)
    requires i <= |e|
    ensures WithCarry(e, i, |e|, 0) == HexFrom(e, i)
    decreases |e| - i
  {
    if i < |e| { LastCarry(e, i + 1); }
  }

  /** e[2i] = a[i] & 15; e[2i+1] = (a[i] >> 4) & 15 */
  method Nibbles(e: array<int8>, a: seq<uint8>)
    requires e.Length == 64 && |a| == 32 && a[31] <= 127
    modifies e
    ensures forall j :: 0 <= j < 64 ==> 0 <= e[j] <= 15
    ensures e[63] <= 7
    ensures HexFrom(e[..], 0) == LE(a)
  {
    for i := 0 to 32
      invariant forall j :: 0 <= j < i ==> e[2 * j] as int == a[j] as int % 16 && e[2 * j + 1] as int == a[j] as int / 16 % 16
    {
      e[2 * i] := (a[i] % 16) as int8;
      e[2 * i + 1] := (a[i] / 16 % 16) as int8;
    }
    NibblesValue(e[..], a, 0);
    hide LEFrom, HexFrom;
    LEEmpty(a);
    forall j | 0 <= j < 64 ensures 0 <= e[j] <= 15 {
      var i := j / 2;
      assert e[2 * i] as int == a[i] as int % 16 && e[2 * i + 1] as int == a[i] as int / 16 % 16;
      assert j == 2 * i || j == 2 * i + 1;
    }
    assert e[2 * 31 + 1] as int == a[31] as int / 16 % 16;
  }

  lemma {:induction false} NibblesValue(e: seq<int8>, a: seq<uint8>, i: nat)
    requires |e| == 64 && |a| == 32 && i <= 32
    requires forall j :: 0 <= j < 32 ==> e[2 * j] as int == a[j] as int % 16 && e[2 * j + 1] as int == a[j] as int / 16 % 16
    ensures HexFrom(e, 2 * i) == LEFrom(a, i)
    decreases 32 - i
  {
    if i < 32 {
      NibblesValue(e, a, i + 1);
      assert e[2 * i] as int == a[i] as int % 16 && e[2 * i + 1] as int == a[i] as int / 16 % 16;
    }
  }

  /** The signed digits: the same number, each digit between -8 and 8. */
  method Recode(a: seq<uint8>) returns (e: array<int8>)
    requires |a| == 32 && a[31] <= 127
    ensures fresh(e) && e.Length == 64
    ensures forall j :: 0 <= j < 64 ==> -8 <= e[j] <= 8
    ensures HexFrom(e[..], 0) == LE(a)
  {
    hide HexFrom, WithCarry, LE;
    e := new int8[64];
    Nibbles(e, a);
    ghost var n := LE(a);
    var carry: int8 := 0;
    NoCarryYet(e[..]);
    for i := 0 to 63
      invariant 0 <= carry <= 1
      invariant forall j :: 0 <= j < i ==> -8 <= e[j] <= 8
      invariant forall j :: i <= j < 64 ==> 0 <= e[j] <= 15
      invariant e[63] <= 7
      invariant WithCarry(e[..], 0, i, carry as int) == n
    {
      ghost var before, c := e[..], carry as int;
      e[i] := e[i] + carry;
      carry := (e[i] + 8) / 16;
      e[i] := e[i] - carry * 16;
      CarryMoves(before, e[..], 0, i, c, carry as int);
    }
    ghost var before := e[..];
    e[63] := e[63] + carry;
    CarryMoves(before, e[..], 0, 63, carry as int, 0);
    LastCarry(e[..], 0);
  }

  // ---------------------------------------------------------------- selection without branches

  /** `equal`: 1 if the arguments are equal, 0 otherwise, by a borrow out of 32 bits. */
  function Equal(b: int8, c: int8): (r: nat)
    ensures r == if b == c then 1 else 0
  {
    var ub, uc := b as int % 0x100, c as int % 0x100;
    XorOfBytes(ub, uc);
    var x := BitXor(ub, uc);
    BorrowBit(x);
    SameByte(b as int, c as int);
    (x - 1) % 0x1_0000_0000 / 0x8000_0000
  }

  lemma XorOfBytes(x: nat, y: nat)
    requires x < 0x100 && y < 0x100
    ensures BitXor(x, y) < 0x100 && (BitXor(x, y) == 0 <==> x == y)
  {
    hide BitXor, Pow2;
    PowersOfTwo();
    XorTwice(x, y);
    XorBelow(x, y, 8);
  }

  lemma BorrowBit(x: nat)
    requires x < 0x100
    ensures (x - 1) % 0x1_0000_0000 / 0x8000_0000 == if x == 0 then 1 else 0
  {
  }

  lemma SameByte(b: int, c: int)
    requires -0x80 <= b < 0x80 && -0x80 <= c < 0x80
    ensures b % 0x100 == c % 0x100 <==> b == c
  {
  }

  /** `negative`: the sign bit of the argument extended to 32 bits. */
  function Negative(b: int8): (r: nat)
    ensures r == if b < 0 then 1 else 0
  {
    b as int % 0x1_0000_0000 / 0x8000_0000
  }

  /** `b - ((uint8_t)((-bnegative) & b) << 1)` in 8 bits. */
  function Magnitude(b: int8): (r: nat)
    ensures r == if b < 0 then -(b as int) else b as int
  {
    var ub, n := b as int % 0x100, Negative(b);
    MaskedByte(ub, n);
    TwiceOff(b as int);
    (b as int - BitAnd(ub, Mask(n, 8)) * 2) % 0x100
  }

  lemma MaskedByte(ub: nat, n: nat)
    requires ub < 0x100 && n <= 1
    ensures BitAnd(ub, Mask(n, 8)) == if n == 1 then ub else 0
  {
    MaskValues();
    hide *;
    PowersOfTwo();
    if n == 1 { AndLowBits(ub, 8); } else { AndZero(ub); }
  }

  lemma MaskValues()
    ensures Mask(0, 8) == 0 && Mask(1, 8) == Pow2(8) - 1
  {
    hide Pow2;
    PowersOfTwo();
  }

  lemma AndZero(a: nat)
    ensures BitAnd(a, 0) == 0
  {
  }

  lemma TwiceOff(b: int)
    requires -0x80 <= b < 0x80
    ensures b < 0 ==> (b - (b % 0x100) * 2) % 0x100 == -b
    ensures b >= 0 ==> (b - 0 * 2) % 0x100 == b
  {
  }

  /** A table entry under construction. */
  class GePrecomp {
    const yplusx: array<int32>
    const yminusx: array<int32>
    const xy2d: array<int32>

    ghost function Repr(): set<object> { {yplusx, yminusx, xy2d} }

    ghost predicate Valid() {
      && yplusx.Length == yminusx.Length == xy2d.Length == 10
      && yplusx != yminusx && yplusx != xy2d && yminusx != xy2d
    }

    function Value(): Precomp
      reads Repr()
    {
      Precomp(yplusx[..], yminusx[..], xy2d[..])
    }

    constructor ()
      ensures Valid() && fresh(Repr())
    {
      yplusx, yminusx, xy2d := new int32[10], new int32[10], new int32[10];
    }
  }

  method PrecompZero(t: GePrecomp)
    requires t.Valid()
    modifies t.Repr()
    ensures t.Value().Represents(O)
  {
    hide F.Val, F.Limit, Cong, OnCurve;
    F.SetSmall(t.yplusx, 1);
    F.SetSmall(t.yminusx, 1);
    F.SetSmall(t.xy2d, 0);
    F.LimitMonotone(t.yplusx[..], 1, F.REDUCED);
    F.LimitMonotone(t.yminusx[..], 1, F.REDUCED);
    F.LimitMonotone(t.xy2d[..], 1, F.REDUCED);
    ZeroEntry();
  }

  lemma ZeroEntry()
    ensures CachedOf(1, 1, 1, 0, O)
  {
    CongRefl(0);
    CongRefl(1);
    OriginOnCurve();
  }

  method PrecompCMov(t: GePrecomp, u: Precomp, b: nat)
    requires t.Valid() && |u.yplusx| == |u.yminusx| == |u.xy2d| == 10 && b <= 1
    modifies t.Repr()
    ensures t.Value() == if b == 1 then u else old(t.Value())
  {
    F.CMov(t.yplusx, u.yplusx, b);
    F.CMov(t.yminusx, u.yminusx, b);
    F.CMov(t.xy2d, u.xy2d, b);
  }

  // ---------------------------------------------------------------- the table

  /** Entry (i, j) represents (j+1) 256^i B. */
  ghost predicate CombTable(table: seq<seq<Precomp>>) {
    && |table| == 32
    && forall i :: 0 <= i < 32 ==> |table[i]| == 8 && CombRow(table[i], i)
  }

  ghost predicate CombRow(row: seq<Precomp>, i: nat)
    requires |row| == 8
  {
    forall j :: 0 <= j < 8 ==> row[j].Represents(SMul((j + 1) * Power256(i), B))
  }

  /** `table_select`: the entry for digit `b` of weight 256^pos, computed without branching on `b`. */
  method TableSelect(t: GePrecomp, table: seq<seq<Precomp>>, pos: nat, b: int8)
    requires t.Valid() && CombTable(table) && pos < 32 && -8 <= b <= 8
    requires Fermat() && NonSquare()
    modifies t.Repr()
    ensures t.Value().Represents(SMul(b as int * Power256(pos), B))
  {
    hide F.Val, F.Limit, Cong, OnCurve, SMul, CachedOf, Fermat, NonSquare, Precomp.Represents, CombRow, GePrecomp.Repr, GePrecomp.Value;
    var row, bnegative, babs := table[pos], Negative(b), Magnitude(b) as int8;
    ghost var p := Power256(pos);
    assert CombRow(row, pos);
    EntryLengths(row, pos);
    PrecompZero(t);
    ghost var zero := t.Value();
    Lookup(t, row, babs);
    ghost var v := t.Value();
    Selected(v, zero, row, babs as nat, pos);
    var minust := NegatedCopy(t, SMul(babs as int * p, B));
    PrecompCMov(t, minust, bnegative);
    SelectedSign(b as int, babs as int, p);
  }

  lemma EntryLengths(row: seq<Precomp>, pos: nat)
    requires |row| == 8 && CombRow(row, pos)
    ensures forall j :: 0 <= j < 8 ==> |row[j].yplusx| == |row[j].yminusx| == |row[j].xy2d| == 10
  {
    hide SMul, CachedOf;
  }

  /** What the lookup holds after looking at the first `k` entries of a row for magnitude `m`. */
  ghost function Chosen(zero: Precomp, row: seq<Precomp>, m: nat, k: nat): Precomp
    requires k <= |row|
  {
    if 1 <= m <= k then row[m - 1] else zero
  }

  /** The eight conditional moves. */
  method Lookup(t: GePrecomp, row: seq<Precomp>, m: int8)
    requires t.Valid() && |row| == 8 && 0 <= m <= 8
    requires forall j :: 0 <= j < 8 ==> |row[j].yplusx| == |row[j].yminusx| == |row[j].xy2d| == 10
    modifies t.Repr()
    ensures t.Value() == Chosen(old(t.Value()), row, m as nat, 8)
  {
    hide GePrecomp.Repr, GePrecomp.Value;
    ghost var zero := t.Value();
    PrecompCMov(t, row[0], Equal(m, 1));
    assert t.Value() == Chosen(zero, row, m as nat, 1);
    PrecompCMov(t, row[1], Equal(m, 2));
    assert t.Value() == Chosen(zero, row, m as nat, 2);
    PrecompCMov(t, row[2], Equal(m, 3));
    assert t.Value() == Chosen(zero, row, m as nat, 3);
    PrecompCMov(t, row[3], Equal(m, 4));
    assert t.Value() == Chosen(zero, row, m as nat, 4);
    PrecompCMov(t, row[4], Equal(m, 5));
    assert t.Value() == Chosen(zero, row, m as nat, 5);
    PrecompCMov(t, row[5], Equal(m, 6));
    assert t.Value() == Chosen(zero, row, m as nat, 6);
    PrecompCMov(t, row[6], Equal(m, 7));
    assert t.Value() == Chosen(zero, row, m as nat, 7);
    PrecompCMov(t, row[7], Equal(m, 8));
    assert t.Value() == Chosen(zero, row, m as nat, 8);
  }

  lemma Selected(v: Precomp, zero: Precomp, row: seq<Precomp>, m: nat, pos: nat)
    requires |row| == 8 && CombRow(row, pos) && m <= 8 && zero.Represents(O)
    requires v == Chosen(zero, row, m, 8)
    ensures v.Represents(SMul(m * Power256(pos), B))
  {
    hide F.Limit, CachedOf;
    if m == 0 {
      assert 0 * Power256(pos) == 0;
    } else {
      hide SMul;
      var j := m - 1;
      assert row[j].Represents(SMul((j + 1) * Power256(pos), B));
    }
  }

  lemma SelectedSign(b: int, m: int, p: int)
    requires Fermat() && NonSquare() && m == if b < 0 then -b else b
    ensures SMul(b * p, B) == if b < 0 then Neg(SMul(m * p, B)) else SMul(m * p, B)
  {
    hide SMul, Fermat, NonSquare, OnCurve, Neg;
    if b < 0 {
      BaseOnCurve();
      SMulNeg(m * p, B);
      OppositeProduct(b, p);
    }
  }

  lemma OppositeProduct(b: int, p: int)
    ensures -(-b * p) == b * p
  {
  }

  /** `minust`: the entry of the opposite point. */
  method NegatedCopy(t: GePrecomp, ghost a: Point) returns (u: Precomp)
    requires t.Valid() && t.Value().Represents(a)
    ensures |u.yplusx| == |u.yminusx| == |u.xy2d| == 10 && u.Represents(Neg(a))
    ensures t.Value() == old(t.Value())
  {
    hide F.Val, F.Limit, Cong, OnCurve, CachedOf;
    ghost var v := t.Value();
    var minust := new int32[10];
    F.Neg(minust, t.xy2d, F.REDUCED);
    u := Precomp(t.yminusx[..], t.yplusx[..], minust[..]);
    NegatedEntry(F.Val(v.yplusx), F.Val(v.yminusx), 1, F.Val(v.xy2d), a);
  }

  // ---------------------------------------------------------------- the comb

  /** One digit: h = h + d 256^pos B. */
  method AddDigit(h: GeP3, table: seq<seq<Precomp>>, pos: nat, d: int8, r: GeP1p1, t: GePrecomp, ghost n: int)
    requires h.Valid() && r.Valid() && t.Valid() && h.Repr() !! r.Repr() && h.Repr() !! t.Repr() && r.Repr() !! t.Repr()
    requires Curve25519() && CombTable(table) && pos < 32 && -8 <= d <= 8
    requires h.Represents(SMul(n, B))
    modifies h.Repr(), r.Repr(), t.Repr()
    ensures h.Represents(SMul(n + d as int * Power256(pos), B))
  {
    hide F.Val, F.Limit, Cong, Extended, OnCurve, SMul, Add, Curve25519, Fermat, NonSquare, CachedOf, CombTable,
         Power256, Precomp.Represents, GeP3.Represents, GePrecomp.Value;
    CurveFacts();
    BaseOnCurve();
    ghost var m := d as int * Power256(pos);
    TableSelect(t, table, pos, d);
    AddEntry(h, r, t.Value(), SMul(n, B), SMul(m, B));
    SMulAdd(n, m, B);
  }

  method AddEntry(h: GeP3, r: GeP1p1, q: Precomp, ghost a: Point, ghost b: Point)
    requires h.Valid() && r.Valid() && h.Repr() !! r.Repr()
    requires Fermat() && NonSquare() && h.Represents(a) && q.Represents(b)
    modifies h.Repr(), r.Repr()
    ensures h.Represents(Add(a, b))
  {
    hide *;
    MAdd(r, h, q, a, b);
    P1p1ToP3(h, r, Add(a, b));
  }

  /** h = 16 h, by four doublings. */
  method TimesSixteen(h: GeP3, r: GeP1p1, s: GeP2, ghost n: int)
    requires h.Valid() && r.Valid() && s.Valid() && h.Repr() !! r.Repr() && h.Repr() !! s.Repr() && r.Repr() !! s.Repr()
    requires Curve25519() && h.Represents(SMul(n, B))
    modifies h.Repr(), r.Repr(), s.Repr()
    ensures h.Represents(SMul(16 * n, B))
  {
    hide *;
    CurveFacts();
    BaseOnCurve();
    FourDoublings(h, r, s, SMul(n, B));
    SixteenTimes(n);
  }

  method FourDoublings(h: GeP3, r: GeP1p1, s: GeP2, ghost a: Point)
    requires h.Valid() && r.Valid() && s.Valid() && h.Repr() !! r.Repr() && h.Repr() !! s.Repr() && r.Repr() !! s.Repr()
    requires Fermat() && NonSquare() && h.Represents(a)
    modifies h.Repr(), r.Repr(), s.Repr()
    ensures h.Represents(Twice(Twice(Twice(Twice(a)))))
  {
    hide *;
    TwiceIs(a);
    TwiceIs(Twice(a));
    TwiceIs(Twice(Twice(a)));
    TwiceIs(Twice(Twice(Twice(a))));
    P3Dbl(r, h, a);
    P1p1ToP2(s, r, Twice(a));
    P2Dbl(r, s, Twice(a));
    P1p1ToP2(s, r, Twice(Twice(a)));
    P2Dbl(r, s, Twice(Twice(a)));
    P1p1ToP2(s, r, Twice(Twice(Twice(a))));
    P2Dbl(r, s, Twice(Twice(Twice(a))));
    P1p1ToP3(h, r, Twice(Twice(Twice(Twice(a)))));
  }

  ghost function Twice(p: Point): Point {
    Add(p, p)
  }

  lemma TwiceIs(p: Point)
    ensures Twice(p) == Add(p, p)
  {
  }

  lemma SixteenTimes(n: int)
    requires Curve25519()
    ensures Twice(Twice(Twice(Twice(SMul(n, B))))) == SMul(16 * n, B)
  {
    BaseOnCurve();
    hide OnCurve, SMul, Add, Curve25519;
    Double(n, B);
    Double(2 * n, B);
    Double(2 * (2 * n), B);
    Double(2 * (2 * (2 * n)), B);
    assert 2 * (2 * (2 * (2 * n))) == 16 * n;
  }

  /** Both passes over the digits. */
  method Comb(h: GeP3, e: seq<int8>, table: seq<seq<Precomp>>, r: GeP1p1, s: GeP2, t: GePrecomp)
    requires h.Valid() && r.Valid() && s.Valid() && t.Valid()
    requires h.Repr() !! r.Repr() && h.Repr() !! s.Repr() && h.Repr() !! t.Repr()
    requires r.Repr() !! s.Repr() && r.Repr() !! t.Repr()
    requires Curve25519() && CombTable(table)
    requires |e| == 64 && forall j :: 0 <= j < 64 ==> -8 <= e[j] <= 8
    modifies h.Repr(), r.Repr(), s.Repr(), t.Repr()
    ensures h.Represents(SMul(HexFrom(e, 0), B))
  {
    hide F.Val, F.Limit, Extended, Projective, Completed, OnCurve, SMul, Curve25519, CombTable, HexFrom, Cong, Fermat, NonSquare, Power256, GeP3.Represents, GeP3.Repr, GeP1p1.Repr, GeP2.Repr, GePrecomp.Repr;
    P3Zero(h);
    SMulNone(B);
    for k := 0 to 32
      invariant h.Represents(SMul(Odds(e, k), B))
    {
      AddDigit(h, table, k, e[2 * k + 1], r, t, Odds(e, k));
    }
    ghost var n := Odds(e, 32);
    TimesSixteen(h, r, s, n);
    for k := 0 to 32
      invariant h.Represents(SMul(16 * n + Evens(e, k), B))
    {
      AddDigit(h, table, k, e[2 * k], r, t, 16 * n + Evens(e, k));
    }
    AllDigits(e);
  }

  lemma SMulNone(p: Point)
    ensures SMul(0, p) == O
  {
  }

  lemma AllDigits(e: seq<int8>)
    requires |e| == 64
    ensures HexFrom(e, 0) == 16 * Odds(e, 32) + Evens(e, 32)
  {
    EvensAndOdds(e, 32);
    hide Evens, Odds;
    assert HexFrom(e, 64) == 0;
  }

  /** `ge_scalarmult_base`: h = a B, for every a whose top bit is clear. */
  method GeScalarMultBase(h: GeP3, a: seq<uint8>, table: seq<seq<Precomp>>)
    requires h.Valid() && |a| == 32 && a[31] <= 127
    requires Curve25519() && CombTable(table)
    modifies h.Repr()
    ensures h.Represents(SMul(LE(a), B))
  {
    hide F.Val, F.Limit, Extended, OnCurve, SMul, Curve25519, CombTable, HexFrom, LE, IsBasePoint, BasePoint, GeP3.Represents;
    var e := Recode(a);
    var r := new GeP1p1();
    var s := new GeP2();
    var t := new GePrecomp();
    Comb(h, e[..], table, r, s, t);
  }
}
