/**
 The public key of X25519, computed on the Edwards curve: a fixed-base multiplication and the map
 u = (Z + Y) / (Z - Y) give the bytes that the ladder gives for u = 9.
 */
module X25519Public {
  import opened CInts
  import opened Bytes
  import opened Field
  import opened Edwards
  import opened Multiples
  import opened Rfc7748
  import opened Montgomery
  import opened Ge
  import F = Fe25
  import Fe25Bytes
  import Fe25Chains
  import SMB = ScalarMultBase

  /** Y/Z is the y coordinate of p. */
  ghost predicate YOver(Y: int, Z: int, p: Point) {
    Z % P != 0 && Cong(Y, p.y * Z)
  }

  /** The two sums of coordinates are a fraction for u. */
  lemma SumsHaveU(Y: int, Z: int, p: Point)
    requires YOver(Y, Z, p)
    ensures HasU(Ratio(Z + Y, Z - Y), p)
  {
    FractionAt(Y, Z, p.y);
  }

  lemma FractionAt(Y: int, Z: int, y: int)
    requires Z % P != 0 && Cong(Y, y * Z)
    ensures RatioAt(Z + Y, Z - Y, y)
  {
    CongRemainder(Z + Y, 0);
    CongRemainder(Z - Y, 0);
    hide Cong;
    CongRefl(Z);
    CongRefl(1 - y);
    CongRefl(1 + y);
    CongLinear(Z, Z, Y, y * Z);
    CongMul(Z + Y, Z + y * Z, 1 - y, 1 - y);
    CongMul(Z - Y, Z - y * Z, 1 + y, 1 + y);
    assert (Z + y * Z) * (1 - y) == (Z - y * Z) * (1 + y);
    CongSwap((Z - Y) * (1 + y), (Z - y * Z) * (1 + y));
    CongTrans((Z + Y) * (1 - y), (Z - y * Z) * (1 + y), (Z - Y) * (1 + y));
    if Cong(Z + Y, 0) && Cong(Z - Y, 0) { HalfZero(Z, Y); }
  }

  lemma CoordinatesOf(A: GeP3, p: Point)
    requires A.Valid() && A.Represents(p)
    ensures F.Limit(A.Y[..], STORED) && F.Limit(A.Z[..], STORED)
    ensures YOver(F.Val(A.Y[..]), F.Val(A.Z[..]), p)
  {
    hide F.Limit, F.Val, Cong;
  }

  /** The two sums. */
  method Sums(Y: array<int32>, Z: array<int32>, zplusy: array<int32>, zminusy: array<int32>)
    requires Y.Length == Z.Length == zplusy.Length == zminusy.Length == 10
    requires zplusy != zminusy && zplusy != Y && zplusy != Z && zminusy != Y && zminusy != Z
    requires F.Limit(Y[..], STORED) && F.Limit(Z[..], STORED)
    modifies zplusy, zminusy
    ensures F.Limit(zplusy[..], F.PRODUCT) && F.Limit(zminusy[..], F.PRODUCT)
    ensures F.Val(zplusy[..]) == F.Val(Z[..]) + F.Val(Y[..]) && F.Val(zminusy[..]) == F.Val(Z[..]) - F.Val(Y[..])
  {
    hide F.Val, F.Limit;
    F.Add(zplusy, Z, Y, STORED, STORED);
    F.Sub(zminusy, Z, Y, STORED, STORED);
    F.LimitMonotone(zplusy[..], 2 * STORED, F.PRODUCT);
    F.LimitMonotone(zminusy[..], 2 * STORED, F.PRODUCT);
  }

  /** The inverse and the product. */
  method Divide(x: array<int32>, z: array<int32>, ghost Y: int, ghost Z: int, ghost p: Point)
    requires x.Length == z.Length == 10 && x != z && F.Limit(x[..], F.PRODUCT) && F.Limit(z[..], F.PRODUCT)
    requires F.Val(x[..]) == Z + Y && F.Val(z[..]) == Z - Y && YOver(Y, Z, p) && Fermat()
    modifies x, z
    ensures F.Limit(x[..], 220) && F.Val(x[..]) % P == UCoordinate(p)
  {
    hide F.Val, F.Limit, Cong, Inv, Pow, YOver, UCoordinate, Fermat;
    Fe25Chains.Invert(z, z[..]);
    ghost var i := F.Val(z[..]);
    F.LimitMonotone(z[..], F.REDUCED, F.PRODUCT);
    F.Mul(x, x[..], z[..]);
    F.LimitMonotone(x[..], F.REDUCED, 220);
    QuotientOfSums(F.Val(x[..]), i, Y, Z, p);
  }

  lemma QuotientOfSums(r: int, i: int, Y: int, Z: int, p: Point)
    requires Fermat() && YOver(Y, Z, p)
    requires Cong(r, (Z + Y) * i) && Cong(i, Pow(Z - Y, P - 2))
    ensures r % P == UCoordinate(p)
  {
    hide Cong, Fermat, HasU, Inv, Pow, YOver, UCoordinate;
    SumsHaveU(Y, Z, p);
    QuotientIsU(Ratio(Z + Y, Z - Y), p);
    CongRefl(Z + Y);
    CongRefl(Z - Y);
    Quotient25519(r, Z + Y, i, Z - Y, Ladder(Z + Y, Z - Y, 0, 0));
  }

  /** The map to u, from the coordinates of a point, and the encoding. */
  method EncodeU(out: array<uint8>, A: GeP3, zplusy: array<int32>, zminusy: array<int32>, ghost p: Point)
    requires out.Length == 32 && zplusy.Length == zminusy.Length == 10 && zplusy != zminusy
    requires A.Valid() && A.Represents(p) && zplusy !in A.Repr() && zminusy !in A.Repr() && Fermat()
    modifies out, zplusy, zminusy
    ensures out[..] == ToLE(UCoordinate(p), 32)
  {
    ghost var Y, Z := F.Val(A.Y[..]), F.Val(A.Z[..]);
    CoordinatesOf(A, p);
    hide F.Val, F.Limit, GeP3.Represents, Fermat, UCoordinate, YOver, ToLE;
    Sums(A.Y, A.Z, zplusy, zminusy);
    Divide(zplusy, zminusy, Y, Z, p);
    Fe25Bytes.ToBytes(out, zplusy[..]);
    assert out[..] == out[..32];
  }

  /** The scalar is below 2^255, so the ladder reads all of it. */
  lemma ClampedBelow(s: seq<uint8>)
    ensures DecodeScalar(s) % Pow2(255) == DecodeScalar(s)
  {
    hide LE, Pow2;
    PowerOf255();
    LowBits(DecodeScalar(s));
  }

  /** What the 32 bytes of a private key do to the point behind the 32 bytes of a peer. */
  lemma SecretIsMultiple(privateKey: seq<uint8>, peer: seq<uint8>, p: Point)
    requires Curve25519() && OnCurve(p) && IsU(DecodeU(peer), p)
    ensures X25519(DecodeScalar(privateKey), DecodeU(peer)) == UCoordinate(SMul(
      0x4000_0000_0000_0000_0000_0000_0000_0000_0000_0000_0000_0000_0000_0000_0000_0000
      + 8 * (LE(privateKey) / 8 % 0x800_0000_0000_0000_0000_0000_0000_0000_0000_0000_0000_0000_0000_0000_0000_0000), p))
  {
    ScalarFormula(privateKey);
    hide LE, DecodeScalar, DecodeU, X25519, UCoordinate, SMul, IsU, OnCurve, Curve25519, Fermat, NonSquare, Pow2;
    ClampedBelow(privateKey);
    X25519IsMultiple(DecodeScalar(privateKey), DecodeU(peer), p);
  }

  /** The multiple of the base point has the coordinate that the ladder finds. */
  lemma PublicCoordinate(s: seq<uint8>)
    requires Curve25519()
    ensures X25519(DecodeScalar(s), 9) == UCoordinate(SMul(DecodeScalar(s), B))
  {
    CurveFacts();
    hide *;
    BaseOnCurve();
    BaseU();
    ClampedBelow(s);
    X25519IsMultiple(DecodeScalar(s), 9, B);
  }

  /** `ossl_x25519_public_from_private`: the bytes of X25519 for the private key and u = 9. */
  method OsslX25519PublicFromPrivate(out: array<uint8>, privateKey: seq<uint8>, table: seq<seq<Precomp>>)
    requires out.Length == 32 && |privateKey| == 32
    requires Curve25519() && SMB.CombTable(table)
    modifies out
    ensures out[..] == ToLE(X25519(DecodeScalar(privateKey), 9), 32)
  {
    hide Curve25519, Fermat, NonSquare, SMB.CombTable, LE, SMul, Edwards.Add, GeP3.Represents, DecodeScalar, X25519, ToLE,
         UCoordinate, IsBasePoint, BasePoint;
    CurveFacts();
    PublicCoordinate(privateKey);
    var e := Clamp(privateKey);
    var scalar := e[..];
    var A := new GeP3();
    SMB.GeScalarMultBase(A, scalar, table);
    var zplusy, zminusy := new int32[10], new int32[10];
    EncodeU(out, A, zplusy, zminusy, SMul(DecodeScalar(privateKey), B));
  }

  /** Each party's ladder on the other's public key gives the same 32 bytes. */
  lemma KeyExchange(a: seq<uint8>, b: seq<uint8>)
    requires Curve25519()
    ensures var x, y := DecodeScalar(a), DecodeScalar(b);
      var A, C := ToLE(X25519(x, 9), 32), ToLE(X25519(y, 9), 32);
      ToLE(X25519(x, DecodeU(C)), 32) == ToLE(X25519(y, DecodeU(A)), 32)
  {
    CurveFacts();
    hide Curve25519, Fermat, NonSquare, OnCurve, LE, ToLE, X25519, DecodeScalar, DecodeU, IsU, Pow2, IsBasePoint, BasePoint;
    var x, y := DecodeScalar(a), DecodeScalar(b);
    BaseOnCurve();
    BaseU();
    ClampedBelow(a);
    ClampedBelow(b);
    DecodedResult(X25519(x, 9));
    DecodedResult(X25519(y, 9));
    BelowBits(x);
    BelowBits(y);
    SharedSecretsAgree(x, y, 9, B);
  }

  lemma BelowBits(k: nat)
    requires k % Pow2(255) == k
    ensures k < Pow2(255)
  {
    hide Pow2;
    PowerOf255();
  }

  lemma DecodedResult(u: int)
    requires 0 <= u < P
    ensures DecodeU(ToLE(u, 32)) == u
  {
    PowerOf255();
    ModulusValue();
    hide LE, ToLE, DecodeU, Pow2;
    DecodedU(seq(32, i => 0), u);
  }
}
