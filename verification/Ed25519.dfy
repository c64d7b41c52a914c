/**
 Ed25519 key generation, signing and verification. SHA-512 is a parameter: any function from byte strings to
 64 bytes. The tables of multiples of B are parameters too.
 */
module Ed25519 {
  import opened CInts
  import opened Bytes
  import opened Field
  import opened Edwards
  import opened Multiples
  import opened Associativity
  import opened Ge
  import opened PointCodec
  import opened Rfc7748
  import F = Fe25
  import DSM = DoubleScalarMult
  import SMB = ScalarMultBase
  import Scalar
  import ScalarOps

  type Hash = seq<uint8> -> seq<uint8>

  ghost predicate HashesTo64(sha512: Hash) {
    forall m {:trigger sha512(m)} :: |sha512(m)| == 64
  }

  ghost predicate VanishesAt(n: int) {
    n == Scalar.L ==> SMul(n, B) == O
  }

  /** l B is the identity. */
  ghost predicate BaseOrder() {
    forall n {:trigger VanishesAt(n)} :: VanishesAt(n)
  }

  // ---------------------------------------------------------------- the scheme

  /** "SigEd25519 no Ed25519 collisions" */
  const DOMAIN: seq<uint8> := [
    0x53, 0x69, 0x67, 0x45, 0x64, 0x32, 0x35, 0x35, 0x31, 0x39, 0x20, 0x6e, 0x6f, 0x20, 0x45, 0x64,
    0x32, 0x35, 0x35, 0x31, 0x39, 0x20, 0x63, 0x6f, 0x6c, 0x6c, 0x69, 0x73, 0x69, 0x6f, 0x6e, 0x73]

  /** How a key and a message are to be hashed: the flags of the three variants and the context string. */
  datatype Mode = Mode(dom2flag: uint8, phflag: uint8, csflag: uint8, context: seq<uint8>) {
    /** The combinations that signing and verification accept. */
    predicate Accepted() {
      && (csflag != 0 ==> |context| > 0)
      && (dom2flag == 0 ==> |context| == 0)
      && |context| <= 255
    }

    /** dom2(F, C) of RFC 8032, or nothing. */
    function Prefix(): seq<uint8>
      requires |context| <= 255
    {
      if dom2flag == 0 then [] else DOMAIN + [if phflag >= 1 then 1 else 0, |context| as uint8] + context
    }
  }

  /** Plain Ed25519, Ed25519ctx with a context, and Ed25519ph with or without one are accepted. */
  lemma VariantsAccepted(context: seq<uint8>)
    ensures Mode(0, 0, 0, []).Accepted()
    ensures 1 <= |context| <= 255 ==> Mode(1, 0, 1, context).Accepted()
    ensures |context| <= 255 ==> Mode(1, 1, 0, context).Accepted()
  {
  }

  /** A scalar reduced modulo l. */
  ghost function ModL(n: int): nat {
    n % Scalar.L
  }

  ghost function SecretScalar(sha512: Hash, privateKey: seq<uint8>): nat
    requires HashesTo64(sha512)
  {
    DecodeScalar(sha512(privateKey)[..32])
  }

  ghost function ChallengeScalar(sha512: Hash, mode: Mode, R: seq<uint8>, publicKey: seq<uint8>, message: seq<uint8>): nat
    requires mode.Accepted()
  {
    ModL(LE(sha512(mode.Prefix() + R + publicKey + message)))
  }

  ghost function NonceScalar(sha512: Hash, mode: Mode, privateKey: seq<uint8>, message: seq<uint8>): nat
    requires HashesTo64(sha512) && mode.Accepted()
  {
    ModL(LE(sha512(mode.Prefix() + sha512(privateKey)[32..] + message)))
  }

  /** The encoding of n B. */
  ghost function EncodedMultiple(n: int): (s: seq<uint8>)
    requires Fermat() && NonSquare()
    ensures |s| == 32
  {
    BaseOnCurve();
    SMulOnCurve(n, B);
    Encode(SMul(n, B))
  }

  /** The public key of a private key: section 5.1.5 of RFC 8032. */
  ghost function PublicKey(sha512: Hash, privateKey: seq<uint8>): seq<uint8>
    requires HashesTo64(sha512) && Fermat() && NonSquare()
  {
    EncodedMultiple(SecretScalar(sha512, privateKey))
  }

  /** The second half of a signature. */
  ghost function ResponseScalar(k: nat, a: nat, r: nat): nat {
    ModL(k * a + r)
  }

  /** The signature: section 5.1.6 of RFC 8032. The public key is whatever the caller passes. */
  ghost function Signature(sha512: Hash, mode: Mode, privateKey: seq<uint8>, publicKey: seq<uint8>, message: seq<uint8>): (s: seq<uint8>)
    requires HashesTo64(sha512) && mode.Accepted() && Fermat() && NonSquare()
    ensures |s| == 64
  {
    var a := SecretScalar(sha512, privateKey);
    var r := NonceScalar(sha512, mode, privateKey, message);
    var R := EncodedMultiple(r);
    var k := ChallengeScalar(sha512, mode, R, publicKey, message);
    R + ToLE(ResponseScalar(k, a, r), 32)
  }

  /** h (-A) + s B encodes to R. */
  ghost predicate Equation(A: Point, h: int, s: int, R: seq<uint8>) {
    var p := Edwards.Add(SMul(h, Neg(A)), SMul(s, B));
    OnCurve(p) && Encode(p) == R
  }

  /** What verification accepts: section 5.1.7 of RFC 8032 with the cofactorless equation and the lenient decoder. */
  ghost predicate Verifies(sha512: Hash, mode: Mode, publicKey: seq<uint8>, message: seq<uint8>, signature: seq<uint8>)
    requires |signature| == 64
  {
    && mode.Accepted()
    && LE(signature[32..]) < Scalar.L
    && exists A :: IsDecodingOf(A, publicKey)
                   && Equation(A, ChallengeScalar(sha512, mode, signature[..32], publicKey, message), LE(signature[32..]), signature[..32])
  }

  // ---------------------------------------------------------------- signatures verify

  lemma OrderVanishes()
    requires BaseOrder()
    ensures SMul(Scalar.L, B) == O
  {
    hide SMul;
    assert VanishesAt(Scalar.L);
  }

  /** A multiple of the order can be added to the scalar. */
  lemma WholeTurns(q: int, l: int, r: int)
    requires Fermat() && NonSquare() && Curve25519() && SMul(l, B) == O
    ensures SMul(q * l + r, B) == SMul(r, B)
  {
    hide *;
    BaseOnCurve();
    SMulAdd(q * l, r, B);
    SMulSMul(q, l, B);
    SMulOrigin(q);
    SMulOnCurve(r, B);
    AddOrigin(SMul(r, B));
  }

  /** Multiples of B depend on the scalar modulo l only. */
  lemma ReducedMultiple(n: int)
    requires Curve25519() && BaseOrder()
    ensures SMul(ModL(n), B) == SMul(n, B)
  {
    hide *;
    CurveFacts();
    OrderVanishes();
    var q := Quotient(n);
    WholeTurns(q, Scalar.L, ModL(n));
  }

  lemma Quotient(n: int) returns (q: int)
    ensures q * Scalar.L + ModL(n) == n
  {
    q := n / Scalar.L;
  }

  lemma NegatedMultiple(h: int, a: int)
    requires Fermat() && NonSquare()
    ensures SMul(h, Neg(SMul(a, B))) == SMul(-(h * a), B)
  {
    hide *;
    CurveFrom();
    BaseOnCurve();
    SMulNeg(a, B);
    SMulSMul(h, -a, B);
    NegatedFactor(h, a);
  }

  lemma CurveFrom()
    requires Fermat() && NonSquare()
    ensures Curve25519()
  {
  }

  lemma NegatedFactor(h: int, a: int)
    ensures h * -a == -(h * a)
  {
  }

  lemma CancelMultiple(m: int, r: int)
    requires Curve25519() && BaseOrder()
    ensures Edwards.Add(SMul(-m, B), SMul(ModL(m + r), B)) == SMul(r, B)
  {
    hide *;
    ReducedMultiple(m + r);
    BaseOnCurve();
    SMulAdd(-m, m + r, B);
    assert -m + (m + r) == r;
  }

  /** The equation holds for s = h a + r modulo l, with A = a B and R = r B. */
  lemma EquationHolds(a: int, h: int, r: int)
    requires Curve25519() && BaseOrder()
    ensures Edwards.Add(SMul(h, Neg(SMul(a, B))), SMul(ModL(h * a + r), B)) == SMul(r, B)
  {
    hide *;
    CurveFacts();
    NegatedMultiple(h, a);
    CancelMultiple(h * a, r);
  }

  /** The pieces of a signature pass the test. */
  lemma PiecesVerify(a: nat, k: nat, r: nat, publicKey: seq<uint8>, R: seq<uint8>)
    requires Curve25519() && BaseOrder() && Fermat() && NonSquare()
    requires publicKey == EncodedMultiple(a) && R == EncodedMultiple(r)
    ensures IsDecodingOf(SMul(a, B), publicKey) && Equation(SMul(a, B), k, ResponseScalar(k, a, r), R)
    ensures 0 <= ResponseScalar(k, a, r) < Scalar.L
  {
    BaseOnCurve();
    hide OnCurve, Edwards.Add, SMul, Curve25519, Fermat, NonSquare, Cong, Neg, BaseOrder, Encode, IsDecodingOf;
    SMulOnCurve(a, B);
    SMulOnCurve(r, B);
    EncodingDecodes(SMul(a, B));
    EquationHolds(a, k, r);
  }

  /** Every signature is accepted under the public key of the private key that made it, in the same mode. */
  lemma SignaturesVerify(sha512: Hash, mode: Mode, privateKey: seq<uint8>, message: seq<uint8>)
    requires HashesTo64(sha512) && mode.Accepted() && Curve25519() && BaseOrder()
    ensures Fermat() && NonSquare()
    ensures var publicKey := PublicKey(sha512, privateKey);
            Verifies(sha512, mode, publicKey, message, Signature(sha512, mode, privateKey, publicKey, message))
  {
    CurveFacts();
    hide OnCurve, SMul, Curve25519, Fermat, NonSquare, BaseOrder, LE, ToLE, IsDecodingOf, Equation,
         SecretScalar, NonceScalar, ChallengeScalar, EncodedMultiple, ResponseScalar;
    var publicKey := PublicKey(sha512, privateKey);
    var a, r := SecretScalar(sha512, privateKey), NonceScalar(sha512, mode, privateKey, message);
    var R := EncodedMultiple(r);
    var k := ChallengeScalar(sha512, mode, R, publicKey, message);
    var s, sig := ResponseScalar(k, a, r), Signature(sha512, mode, privateKey, publicKey, message);
    PiecesVerify(a, k, r, publicKey, R);
    ScalarOps.ScalarFits(s);
    ToLEValue(s, 32);
    assert sig[..32] == R && sig[32..] == ToLE(s, 32);
  }

  // ---------------------------------------------------------------- what a signature is, and what verification means

  /** The two halves of a signature in terms of its own first half: r B, and k a + r modulo l. */
  lemma SignatureHalves(sha512: Hash, mode: Mode, privateKey: seq<uint8>, publicKey: seq<uint8>, message: seq<uint8>)
    requires HashesTo64(sha512) && mode.Accepted() && Fermat() && NonSquare()
    ensures var h, sig := sha512(privateKey), Signature(sha512, mode, privateKey, publicKey, message);
      var a := 0x4000_0000_0000_0000_0000_0000_0000_0000_0000_0000_0000_0000_0000_0000_0000_0000
               + 8 * (LE(h[..32]) / 8 % 0x800_0000_0000_0000_0000_0000_0000_0000_0000_0000_0000_0000_0000_0000_0000_0000);
      var r := ModL(LE(sha512(mode.Prefix() + h[32..] + message)));
      var k := ModL(LE(sha512(mode.Prefix() + sig[..32] + publicKey + message)));
      sig[..32] == EncodedMultiple(r) && LE(sig[32..]) == ModL(k * a + r)
  {
    hide LE, ToLE, EncodedMultiple, Fermat, NonSquare, DecodeScalar, Mode.Prefix, ModL;
    var h, sig := sha512(privateKey), Signature(sha512, mode, privateKey, publicKey, message);
    ScalarFormula(h[..32]);
    var a, r := SecretScalar(sha512, privateKey), NonceScalar(sha512, mode, privateKey, message);
    var R := EncodedMultiple(r);
    var k := ChallengeScalar(sha512, mode, R, publicKey, message);
    var s := ResponseScalar(k, a, r);
    assert sig[..32] == R && sig[32..] == ToLE(s, 32);
    ReducedFits(k * a + r);
  }

  lemma ReducedFits(n: int)
    ensures 0 <= ModL(n) < Scalar.L && LE(ToLE(ModL(n), 32)) == ModL(n)
  {
    var s := ModL(n);
    hide LE, ToLE, ModL;
    ReducedRange(n);
    ScalarOps.ScalarFits(s);
    ToLEValue(s, 32);
  }

  lemma ReducedRange(n: int)
    ensures 0 <= ModL(n) < Scalar.L
  {
  }

  /** h (-A) + s B = R exactly when s B = R + h A. */
  lemma MoveAcross(x: Point, y: Point, R: Point)
    requires Fermat() && NonSquare() && OnCurve(x) && OnCurve(y) && OnCurve(R)
    ensures Edwards.Add(Neg(x), y) == R <==> y == Edwards.Add(R, x)
  {
    hide OnCurve, Edwards.Add, Neg, Fermat, NonSquare;
    var n := Neg(x);
    NegOnCurve(x);
    AddNeg(x);
    AddOrigin(y);
    AddOrigin(R);
    Commutes(n, y);
    Associates(y, n, x);
    Associates(R, x, n);
  }

  /** The equation of section 5.1.7 of RFC 8032: s B = R + h A for the point R that the string encodes. */
  lemma EquationMeans(A: Point, h: int, s: int, R: seq<uint8>)
    requires Fermat() && NonSquare() && OnCurve(A)
    ensures Equation(A, h, s, R) <==>
            exists r :: OnCurve(r) && Encode(r) == R && SMul(s, B) == Edwards.Add(r, SMul(h, A))
  {
    var x, y := SMul(h, A), SMul(s, B);
    var q := Edwards.Add(SMul(h, Neg(A)), y);
    hide OnCurve, Edwards.Add, Neg, Fermat, NonSquare, SMul, Encode;
    BaseOnCurve();
    SMulOnCurve(h, A);
    SMulOnCurve(s, B);
    SMulNeg(h, A);
    NegOnCurve(x);
    Closed(Neg(x), y);
    MoveAcross(x, y, q);
    if r :| OnCurve(r) && Encode(r) == R && y == Edwards.Add(r, x) {
      MoveAcross(x, y, r);
    }
  }

  /**
   Verification in full: the flags, s < l, a key that decodes to a point A, and s B = R + k A for the point R
   whose encoding is the first half of the signature.
   */
  lemma VerifiesMeans(sha512: Hash, mode: Mode, publicKey: seq<uint8>, message: seq<uint8>, signature: seq<uint8>)
    requires HashesTo64(sha512) && Fermat() && NonSquare() && |signature| == 64
    ensures Verifies(sha512, mode, publicKey, message, signature) <==>
      && !(mode.csflag != 0 && mode.context == []) && !(mode.dom2flag == 0 && mode.context != []) && |mode.context| <= 255
      && LE(signature[32..]) < Scalar.L
      && exists A, R :: IsDecodingOf(A, publicKey) && OnCurve(R) && Encode(R) == signature[..32]
                        && (var k := ModL(LE(sha512(mode.Prefix() + signature[..32] + publicKey + message)));
                            SMul(LE(signature[32..]), B) == Edwards.Add(R, SMul(k, A)))
  {
    hide OnCurve, Edwards.Add, Fermat, NonSquare, SMul, Encode, LE, IsDecodingOf, Equation, Mode.Prefix;
    if mode.Accepted() {
      var k := ChallengeScalar(sha512, mode, signature[..32], publicKey, message);
      forall A | IsDecodingOf(A, publicKey)
        ensures Equation(A, k, LE(signature[32..]), signature[..32]) <==>
                exists R :: OnCurve(R) && Encode(R) == signature[..32] && SMul(LE(signature[32..]), B) == Edwards.Add(R, SMul(k, A))
      {
        DecodedOnCurve(A, publicKey);
        EquationMeans(A, k, LE(signature[32..]), signature[..32]);
      }
    }
  }

  ghost predicate OnlyAtOrder(n: int) {
    SMul(n, B) == O ==> ModL(n) == 0
  }

  /** Only multiples of l take B to the identity. */
  ghost predicate ExactOrder() {
    forall n {:trigger OnlyAtOrder(n)} :: OnlyAtOrder(n)
  }

  lemma SameMultiple(m: nat, n: nat)
    requires Curve25519() && ExactOrder() && m < Scalar.L && n < Scalar.L && SMul(m, B) == SMul(n, B)
    ensures m == n
  {
    hide *;
    DifferenceVanishes(m, n);
    DifferenceVanishes(n, m);
    if m >= n { OnlyZero(m - n); } else { OnlyZero(n - m); }
  }

  lemma OnlyZero(n: nat)
    requires ExactOrder() && n < Scalar.L && SMul(n, B) == O
    ensures n == 0
  {
    hide *;
    MultipleOfOrder(n);
    SmallMultiple(n);
  }

  lemma MultipleOfOrder(n: int)
    requires ExactOrder() && SMul(n, B) == O
    ensures ModL(n) == 0
  {
    hide SMul, IsBasePoint, BasePoint;
    assert OnlyAtOrder(n);
  }

  lemma SmallMultiple(n: nat)
    requires n < Scalar.L && ModL(n) == 0
    ensures n == 0
  {
  }

  lemma DifferenceVanishes(m: int, n: int)
    requires Curve25519() && SMul(m, B) == SMul(n, B)
    ensures SMul(m - n, B) == O
  {
    hide *;
    CurveFacts();
    BaseOnCurve();
    SMulAdd(m, -n, B);
    SMulNeg(n, B);
    SMulOnCurve(n, B);
    AddNeg(SMul(n, B));
  }

  /** Two responses to the same challenge for the same points are equal. */
  lemma SameResponse(A: Point, A': Point, R: Point, R': Point, k: nat, s: seq<uint8>, t: seq<uint8>, publicKey: seq<uint8>)
    requires Curve25519() && Fermat() && NonSquare() && ExactOrder() && |publicKey| == 32 && |s| == |t| == 32
    requires IsDecodingOf(A, publicKey) && IsDecodingOf(A', publicKey)
    requires OnCurve(R) && OnCurve(R') && Encode(R) == Encode(R')
    requires LE(s) < Scalar.L && LE(t) < Scalar.L
    requires SMul(LE(s), B) == Edwards.Add(R, SMul(k, A)) && SMul(LE(t), B) == Edwards.Add(R', SMul(k, A'))
    ensures s == t
  {
    hide *;
    DecodingUnique(A, A', publicKey);
    EncodingInjective(R, R');
    SameMultiple(LE(s), LE(t));
    LEInjective(s, t);
  }

  /** The points behind an accepted signature. */
  lemma AcceptedPoints(sha512: Hash, mode: Mode, publicKey: seq<uint8>, message: seq<uint8>, sig: seq<uint8>, k: nat)
    returns (A: Point, R: Point)
    requires HashesTo64(sha512) && Fermat() && NonSquare() && |sig| == 64
    requires Verifies(sha512, mode, publicKey, message, sig)
    requires k == ModL(LE(sha512(mode.Prefix() + sig[..32] + publicKey + message)))
    ensures LE(sig[32..]) < Scalar.L && IsDecodingOf(A, publicKey) && OnCurve(R) && Encode(R) == sig[..32]
    ensures SMul(LE(sig[32..]), B) == Edwards.Add(R, SMul(k, A))
  {
    VerifiesMeans(sha512, mode, publicKey, message, sig);
    hide OnCurve, Edwards.Add, Fermat, NonSquare, SMul, Encode, LE, IsDecodingOf, Verifies, Mode.Prefix, ModL;
    A, R :| IsDecodingOf(A, publicKey) && OnCurve(R) && Encode(R) == sig[..32]
            && SMul(LE(sig[32..]), B) == Edwards.Add(R, SMul(k, A));
  }

  /** The response is determined: for one key, message and mode no two accepted signatures share a first half. */
  lemma ResponseUnique(sha512: Hash, mode: Mode, publicKey: seq<uint8>, message: seq<uint8>, sig: seq<uint8>, other: seq<uint8>)
    requires HashesTo64(sha512) && Curve25519() && ExactOrder() && |publicKey| == 32
    requires |sig| == |other| == 64 && sig[..32] == other[..32]
    requires Verifies(sha512, mode, publicKey, message, sig) && Verifies(sha512, mode, publicKey, message, other)
    ensures sig == other
  {
    CurveFacts();
    hide OnCurve, Edwards.Add, Fermat, NonSquare, SMul, Encode, LE, IsDecodingOf, Equation, Mode.Prefix, Curve25519, ExactOrder, ModL, Neg,
         IsBasePoint, BasePoint;
    var k := ModL(LE(sha512(mode.Prefix() + sig[..32] + publicKey + message)));
    hide Verifies;
    var A, R := AcceptedPoints(sha512, mode, publicKey, message, sig, k);
    var A', R' := AcceptedPoints(sha512, mode, publicKey, message, other, k);
    SameResponse(A, A', R, R', k, sig[32..], other[32..], publicKey);
    SameHalves(sig, other);
  }

  lemma SameHalves(sig: seq<uint8>, other: seq<uint8>)
    requires |sig| == |other| == 64 && sig[..32] == other[..32] && sig[32..] == other[32..]
    ensures sig == other
  {
    assert sig == sig[..32] + sig[32..] && other == other[..32] + other[32..];
  }

  // ---------------------------------------------------------------- the range check on s

  /** 27742317777372353535851937790883648493, the low part of l. */
  const L_LOW: seq<uint8> := [0xED, 0xD3, 0xF5, 0x5C, 0x1A, 0x63, 0x12, 0x58, 0xD6, 0x9C, 0xF7, 0xA2, 0xDE, 0xF9, 0xDE, 0x14]

  /** Strings that agree above index i compare as their bytes at i do. */
  lemma CompareAt(s: seq<uint8>, t: seq<uint8>, i: nat)
    requires |s| == |t| && i < |s| && s[i] < t[i]
    requires forall j :: i < j < |s| ==> s[j] == t[j]
    ensures LE(s) < LE(t)
  {
    hide LEFrom, Pow2;
    LEEmpty(s);
    LEEmpty(t);
    SameTail(s, t, i + 1);
    LESplit(s, 0, i);
    LESplit(t, 0, i);
    LEStep(s, i);
    LEStep(t, i);
    LEBound(s[..i], 0);
    LEBound(t[..i], 0);
    LeadingDigit(Pow2(8 * i), LEFrom(s[..i], 0), LEFrom(s, i), LEFrom(t[..i], 0), LEFrom(t, i));
  }

  lemma {:induction false} SameTail(s: seq<uint8>, t: seq<uint8>, i: nat)
    requires |s| == |t| && i <= |s| && forall j :: i <= j < |s| ==> s[j] == t[j]
    ensures LEFrom(s, i) == LEFrom(t, i)
    decreases |s| - i
  {
    if i < |s| { SameTail(s, t, i + 1); }
  }

  lemma LeadingDigit(p: nat, a: nat, x: nat, b: nat, y: nat)
    requires a < p && x < y
    ensures a + p * x < b + p * y
  {
    Monotone(x + 1, y, p);
  }

  /** The low 16, middle 15 and top bytes of a 32-byte string. */
  lemma ThreeParts(s: seq<uint8>)
    requires |s| == 32
    ensures LE(s) == LE(s[..16]) + 0x1_0000_0000_0000_0000_0000_0000_0000_0000 * (LE(s[16..31])
            + 0x100_0000_0000_0000_0000_0000_0000_0000 * s[31] as int)
    ensures LE(s[..16]) < 0x1_0000_0000_0000_0000_0000_0000_0000_0000
    ensures LE(s[16..31]) < 0x100_0000_0000_0000_0000_0000_0000_0000
  {
    hide LEFrom, Pow2;
    LETop(s);
    var t := s[..31];
    LEEmpty(t);
    LESplit(t, 0, 16);
    LEFromSlice(t, 16, 16);
    assert t[..16] == s[..16] && t[16..] == s[16..31];
    LEBound(s[..16], 0);
    LEBound(s[16..31], 0);
    PowersOfTwo();
    Pow2Add(32, 32);
    Pow2Add(64, 64);
    Pow2Add(24, 32);
    Pow2Add(56, 64);
  }

  lemma LowPartOfL()
    ensures |L_LOW| == 16 && LE(L_LOW) == 27742317777372353535851937790883648493
    ensures Scalar.L == 0x1000_0000_0000_0000_0000_0000_0000_0000_0000_0000_0000_0000_0000_0000_0000_0000 + LE(L_LOW)
  {
    hide LEFrom;
    LEEmpty(L_LOW);
    LE8(L_LOW, 0);
    LE8(L_LOW, 8);
  }

  /** The byte-wise test that s < l. */
  method BelowOrder(s: seq<uint8>) returns (below: bool)
    requires |s| == 32
    ensures below <==> LE(s) < Scalar.L
  {
    hide LE;
    ThreeParts(s);
    LowPartOfL();
    if s[31] > 0x10 {
      return false;
    }
    if s[31] == 0x10 {
      ZeroBytes(s[16..31]);
      var zeroes := forall j :: 16 <= j < 31 ==> s[j] == 0;
      MiddleZero(s, zeroes);
      if !zeroes {
        return false;
      }
      below := LowBelow(s[..16]);
      return;
    }
    below := true;
  }

  lemma MiddleZero(s: seq<uint8>, zeroes: bool)
    requires |s| == 32 && (zeroes <==> forall j :: 16 <= j < 31 ==> s[j] == 0)
    ensures zeroes <==> LE(s[16..31]) == 0
  {
    hide LE;
    var m := s[16..31];
    ZeroBytes(m);
    if LE(m) == 0 {
      forall j | 16 <= j < 31 ensures s[j] == 0 { assert m[j - 16] == 0; }
    }
  }

  /** The loop from byte 15 down to the first difference. */
  method LowBelow(s: seq<uint8>) returns (below: bool)
    requires |s| == 16
    ensures below <==> LE(s) < LE(L_LOW)
  {
    hide LE;
    var i := 15;
    while i >= 0
      invariant -1 <= i < 16
      invariant forall j :: i < j < 16 ==> s[j] == L_LOW[j]
    {
      if s[i] < L_LOW[i] {
        CompareAt(s, L_LOW, i);
        return true;
      }
      if s[i] > L_LOW[i] {
        CompareAt(L_LOW, s, i);
        return false;
      }
      i := i - 1;
    }
    assert s == L_LOW;
    below := false;
  }

  // ---------------------------------------------------------------- the operations

  /** `hash_init_with_dom`: starts a hash; `absorbed` is what it has taken in so far. */
  method HashInitWithDom(mode: Mode) returns (ok: bool, absorbed: seq<uint8>)
    ensures ok <==> mode.dom2flag == 0 || |mode.context| <= 255
    ensures ok && mode.Accepted() ==> absorbed == mode.Prefix()
    ensures mode.dom2flag == 0 ==> absorbed == []
    ensures ok && mode.dom2flag != 0 ==>
      && |absorbed| == 34 + |mode.context|
      && (forall i :: 0 <= i < 32 ==> absorbed[i] as int == "SigEd25519 no Ed25519 collisions"[i] as int)
      && absorbed[32] == (if mode.phflag >= 1 then 1 else 0)
      && absorbed[33] as int == |mode.context|
      && absorbed[34..] == mode.context
  {
    if mode.dom2flag == 0 {
      return true, [];
    }
    if |mode.context| > 255 {
      return false, [];
    }
    var dom := [if mode.phflag >= 1 then 1 else 0, |mode.context| as uint8];
    return true, DOMAIN + dom + mode.context;
  }

  /** The clamping of the hashed private key, in place. */
  method ClampSecret(az: array<uint8>)
    requires az.Length == 64
    modifies az
    ensures LE(az[..32]) == DecodeScalar(old(az[..32])) && az[32..] == old(az[32..])
    ensures az[0] == old(az[0] - az[0] % 8) && az[31] == old(az[31]) % 64 + 64 && az[1..31] == old(az[1..31])
  {
    hide LE, DecodeScalar, BitOr;
    ghost var before := az[..32];
    az[0] := az[0] - az[0] % 8;
    az[31] := az[31] % 64;
    SetBit254(az[31]);
    az[31] := BitOr(az[31] as nat, 0x40) as uint8;
    ClampedValue(before, az[..32]);
  }

  /** `EVP_Digest` of the private key, clamped. */
  method HashedSecret(sha512: Hash, privateKey: seq<uint8>) returns (az: array<uint8>)
    requires HashesTo64(sha512)
    ensures fresh(az) && az.Length == 64 && LE(az[..32]) == SecretScalar(sha512, privateKey)
    ensures var h := sha512(privateKey);
      az[0] == h[0] - h[0] % 8 && az[1..31] == h[1..31] && az[31] == h[31] % 64 + 64 && az[32..] == h[32..]
  {
    hide LE, DecodeScalar;
    var digest := sha512(privateKey);
    az := new uint8[64](i requires 0 <= i < 64 => digest[i]);
    assert az[..32] == digest[..32] && az[32..] == digest[32..];
    ClampSecret(az);
  }

  /** A hash read as a scalar: `x25519_sc_reduce` on the 64 bytes. */
  method ReducedHash(sha512: Hash, input: seq<uint8>) returns (s: seq<uint8>)
    requires HashesTo64(sha512)
    ensures |s| == 32 && s[31] <= 127
    ensures LE(s) == ModL(LE(sha512(input))) < Scalar.L
  {
    hide LE, ToLE;
    var digest := sha512(input);
    var a := new uint8[64](i requires 0 <= i < 64 => digest[i]);
    assert a[..] == digest;
    ScalarOps.ScReduce(a);
    s := a[..32];
    ScalarOps.ScalarFits(LE(digest) % Scalar.L);
    ToLEValue(LE(digest) % Scalar.L, 32);
    LETop(s);
  }

  /** The encoding of a B, for a scalar whose top bit is clear. */
  method EncodeBaseMultiple(out: array<uint8>, a: seq<uint8>, table: seq<seq<Precomp>>)
    requires out.Length >= 32 && |a| == 32 && a[31] <= 127
    requires Curve25519() && Fermat() && NonSquare() && SMB.CombTable(table)
    modifies out
    ensures out[..32] == EncodedMultiple(LE(a)) && out[32..] == old(out[32..])
  {
    hide Curve25519, Fermat, NonSquare, SMB.CombTable, LE, SMul, Encode, OnCurve, GeP3.Represents;
    var h := new GeP3();
    SMB.GeScalarMultBase(h, a, table);
    GeP3ToBytes(out, h, SMul(LE(a), B));
  }

  /** The public key without the names of the scheme. */
  lemma PublicKeyIs(sha512: Hash, privateKey: seq<uint8>)
    requires HashesTo64(sha512) && Fermat() && NonSquare()
    ensures PublicKey(sha512, privateKey) == EncodedMultiple(
      0x4000_0000_0000_0000_0000_0000_0000_0000_0000_0000_0000_0000_0000_0000_0000_0000
      + 8 * (LE(sha512(privateKey)[..32]) / 8
             % 0x800_0000_0000_0000_0000_0000_0000_0000_0000_0000_0000_0000_0000_0000_0000_0000))
  {
    hide LE, EncodedMultiple, Fermat, NonSquare, DecodeScalar;
    ScalarFormula(sha512(privateKey)[..32]);
  }

  /** `ossl_ed25519_public_from_private` */
  method PublicFromPrivate(sha512: Hash, out: array<uint8>, privateKey: seq<uint8>, table: seq<seq<Precomp>>)
    requires HashesTo64(sha512) && out.Length == 32
    requires Curve25519() && Fermat() && NonSquare() && SMB.CombTable(table)
    modifies out
    ensures out[..] == PublicKey(sha512, privateKey)
    ensures out[..] == EncodedMultiple(
      0x4000_0000_0000_0000_0000_0000_0000_0000_0000_0000_0000_0000_0000_0000_0000_0000
      + 8 * (LE(sha512(privateKey)[..32]) / 8
             % 0x800_0000_0000_0000_0000_0000_0000_0000_0000_0000_0000_0000_0000_0000_0000_0000))
  {
    hide Curve25519, Fermat, NonSquare, SMB.CombTable, LE, EncodedMultiple, SecretScalar;
    PublicKeyIs(sha512, privateKey);
    var az := HashedSecret(sha512, privateKey);
    EncodeBaseMultiple(out, az[..32], table);
    assert out[..] == out[..32];
  }

  /**
   `ossl_ed25519_sign`: fails exactly for the modes that are not accepted, and then writes nothing; otherwise
   writes the signature.
   */
  method Sign(sha512: Hash, out: array<uint8>, message: seq<uint8>, publicKey: seq<uint8>, privateKey: seq<uint8>, mode: Mode,
              table: seq<seq<Precomp>>) returns (ok: bool)
    requires HashesTo64(sha512) && out.Length == 64 && |publicKey| == 32 && |privateKey| == 32
    requires Curve25519() && Fermat() && NonSquare() && SMB.CombTable(table)
    modifies out
    ensures ok <==> mode.Accepted()
    ensures ok <==> !(mode.csflag != 0 && mode.context == []) && !(mode.dom2flag == 0 && mode.context != [])
                    && (mode.dom2flag == 0 || |mode.context| <= 255)
    ensures ok ==> out[..] == Signature(sha512, mode, privateKey, publicKey, message)
    ensures !ok ==> out[..] == old(out[..])
  {
    if mode.csflag != 0 && |mode.context| == 0 {
      return false;
    }
    if mode.dom2flag == 0 && |mode.context| > 0 {
      return false;
    }
    hide Curve25519, Fermat, NonSquare, SMB.CombTable, LE, ToLE, ModL, SecretScalar, ResponseScalar, EncodedMultiple, Mode.Prefix, Signature;
    var az := HashedSecret(sha512, privateKey);
    var a, seed := az[..32], az[32..];
    var started, absorbed := HashInitWithDom(mode);
    if !started {
      return false;
    }
    var R, nonce := Commit(sha512, out, absorbed + seed + message, table);
    started, absorbed := HashInitWithDom(mode);
    var hram := ReducedHash(sha512, absorbed + out[..32] + publicKey + message);
    Respond(out, hram, a, nonce);
    SignatureIs(sha512, mode, privateKey, publicKey, message, out[..], R, LE(hram), LE(a), LE(nonce));
    ok := true;
  }

  /** The nonce and the first half of the signature. */
  method Commit(sha512: Hash, out: array<uint8>, input: seq<uint8>, table: seq<seq<Precomp>>) returns (ghost R: seq<uint8>, nonce: seq<uint8>)
    requires HashesTo64(sha512) && out.Length == 64
    requires Curve25519() && Fermat() && NonSquare() && SMB.CombTable(table)
    modifies out
    ensures |nonce| == 32 && LE(nonce) == ModL(LE(sha512(input)))
    ensures out[..32] == R == EncodedMultiple(LE(nonce))
  {
    hide Curve25519, Fermat, NonSquare, SMB.CombTable, LE, EncodedMultiple;
    nonce := ReducedHash(sha512, input);
    EncodeBaseMultiple(out, nonce, table);
    R := out[..32];
  }

  /** The second half of the signature. */
  method Respond(out: array<uint8>, k: seq<uint8>, a: seq<uint8>, r: seq<uint8>)
    requires out.Length == 64 && |k| == |a| == |r| == 32
    modifies out
    ensures out[..32] == old(out[..32]) && out[32..64] == ToLE(ResponseScalar(LE(k), LE(a), LE(r)), 32)
  {
    hide LE, ToLE;
    ScalarOps.ScMulAdd(out, 32, k, a, r);
  }

  lemma SignatureIs(sha512: Hash, mode: Mode, privateKey: seq<uint8>, publicKey: seq<uint8>, message: seq<uint8>,
                    out: seq<uint8>, R: seq<uint8>, k: nat, a: nat, r: nat)
    requires HashesTo64(sha512) && mode.Accepted() && Fermat() && NonSquare() && |out| == 64
    requires a == SecretScalar(sha512, privateKey)
    requires r == ModL(LE(sha512(mode.Prefix() + sha512(privateKey)[32..] + message)))
    requires k == ModL(LE(sha512(mode.Prefix() + R + publicKey + message)))
    requires out[..32] == R == EncodedMultiple(r) && out[32..64] == ToLE(ResponseScalar(k, a, r), 32)
    ensures out == Signature(sha512, mode, privateKey, publicKey, message)
  {
    hide LE, ToLE, EncodedMultiple, SecretScalar, Mode.Prefix;
    assert out == out[..32] + out[32..64];
  }

  /** `ossl_ed25519_pubkey_verify` */
  method PubkeyVerify(pub: seq<uint8>) returns (ok: bool)
    requires Fermat()
    ensures ok <==> |pub| == 32 && exists A :: IsDecodingOf(A, pub)
    ensures ok <==> |pub| == 32 && exists q :: OnCurve(q) && q.y == LE(pub) % TOP % P
  {
    if |pub| != 32 {
      return false;
    }
    hide IsDecodingOf, Fermat, OnCurve, LE;
    Decodable(pub);
    var h := new GeP3();
    ghost var p;
    ok, p := GeFromBytesVartime(h, pub);
  }

  /** `fe_neg(A.X, A.X); fe_neg(A.T, A.T)` */
  method NegatePoint(A: GeP3, ghost p: Point)
    requires A.Valid() && A.Represents(p)
    modifies A.Repr()
    ensures A.Represents(Neg(p))
  {
    ghost var x, y, z, t := F.Val(A.X[..]), F.Val(A.Y[..]), F.Val(A.Z[..]), F.Val(A.T[..]);
    hide F.Val, F.Limit, Extended;
    F.Neg(A.X, A.X, STORED);
    F.Neg(A.T, A.T, STORED);
    NegatedCoordinates(x, y, z, t, p);
  }

  lemma NegatedCoordinates(x: int, y: int, z: int, t: int, p: Point)
    requires Extended(x, y, z, t, p)
    ensures Extended(-x, y, z, -t, Neg(p))
  {
    NegOnCurve(p);
    hide OnCurve, Cong, Neg;
    NegatedExtended(x, z, t, p.x, p.y, Neg(p).x);
  }

  lemma NegatedExtended(x: int, z: int, t: int, px: int, py: int, nx: int)
    requires Cong(x, px * z) && Cong(t, (px * py) * z) && Cong(nx, -px)
    ensures Cong(-x, nx * z) && Cong(-t, (nx * py) * z)
  {
    hide Cong;
    CongRefl(z);
    CongRefl(py);
    CongMul(nx, -px, z, z);
    CongMul(nx, -px, py, py);
    CongMul(nx * py, -px * py, z, z);
    assert -px * z == -(px * z) && (-px * py) * z == -((px * py) * z) by { assert -px * py == -(px * py); }
    CongLinear(x, px * z, t, (px * py) * z);
    CongLinear(t, (px * py) * z, x, px * z);
    CongSwap(nx * z, -(px * z));
    CongSwap((nx * py) * z, -((px * py) * z));
    CongTrans(-x, -(px * z), nx * z);
    CongTrans(-t, -((px * py) * z), (nx * py) * z);
  }

  /** The encoding of h A + s B. */
  method CheckBytes(A: GeP3, h: seq<uint8>, s: seq<uint8>, bi: seq<Precomp>, ghost p: Point) returns (rcheck: seq<uint8>)
    requires A.Valid() && |h| == |s| == 32 && LE(h) < Scalar.L && LE(s) < Scalar.L
    requires Curve25519() && OnCurve(p) && A.Represents(p) && DSM.BaseOdds(bi)
    ensures var q := Edwards.Add(SMul(LE(h), p), SMul(LE(s), B)); OnCurve(q) && rcheck == Encode(q)
  {
    hide Curve25519, DSM.BaseOdds, LE, SMul, Encode, OnCurve, Edwards.Add, GeP3.Represents;
    var bytes := new uint8[32];
    var R := new GeP2();
    CombineAndEncode(bytes, R, A, h, s, bi, p);
    rcheck := bytes[..];
  }

  method CombineAndEncode(out: array<uint8>, R: GeP2, A: GeP3, h: seq<uint8>, s: seq<uint8>, bi: seq<Precomp>, ghost p: Point)
    requires out.Length == 32 && R.Valid() && A.Valid() && R.Repr() !! A.Repr()
    requires |h| == |s| == 32 && LE(h) < Scalar.L && LE(s) < Scalar.L
    requires Curve25519() && OnCurve(p) && A.Represents(p) && DSM.BaseOdds(bi)
    modifies out, R.Repr()
    ensures var q := Edwards.Add(SMul(LE(h), p), SMul(LE(s), B)); OnCurve(q) && out[..] == Encode(q)
  {
    CurveFacts();
    OrderBelow();
    hide Curve25519, Fermat, NonSquare, DSM.BaseOdds, LE, SMul, Encode, OnCurve, Edwards.Add, Pow2,
         GeP3.Represents, GeP2.Represents, GeP3.Repr, GeP2.Repr;
    DSM.GeDoubleScalarMult(R, h, A, s, bi, p);
    GeToBytes(out, R, Edwards.Add(SMul(LE(h), p), SMul(LE(s), B)));
    assert out[..] == out[..32];
  }

  lemma OrderBelow()
    ensures Scalar.L < Pow2(255)
  {
    TopIsPower();
  }

  /** The equation is tested with the one point that the public key decodes to. */
  lemma UniqueKey(A: Point, publicKey: seq<uint8>, h: int, s: int, R: seq<uint8>)
    requires Fermat() && NonSquare() && |publicKey| == 32 && IsDecodingOf(A, publicKey)
    ensures (exists Q :: IsDecodingOf(Q, publicKey) && Equation(Q, h, s, R)) <==> Equation(A, h, s, R)
  {
    hide IsDecodingOf, Equation, Fermat, NonSquare;
    if Q :| IsDecodingOf(Q, publicKey) && Equation(Q, h, s, R) {
      DecodingUnique(A, Q, publicKey);
    }
  }

  /** The comparison decides the verdict once the earlier tests are passed. */
  lemma Verdict(sha512: Hash, mode: Mode, message: seq<uint8>, signature: seq<uint8>, publicKey: seq<uint8>,
                A: Point, h: nat, rcheck: seq<uint8>)
    requires HashesTo64(sha512) && |signature| == 64 && |publicKey| == 32 && Fermat() && NonSquare()
    requires mode.Accepted() && LE(signature[32..]) < Scalar.L && IsDecodingOf(A, publicKey)
    requires h == ModL(LE(sha512(mode.Prefix() + signature[..32] + publicKey + message)))
    requires var q := Edwards.Add(SMul(h, Neg(A)), SMul(LE(signature[32..]), B)); OnCurve(q) && rcheck == Encode(q)
    ensures rcheck == signature[..32] <==> Verifies(sha512, mode, publicKey, message, signature)
  {
    hide Fermat, NonSquare, LE, Encode, OnCurve, Edwards.Add, Neg, SMul, IsDecodingOf, Equation, Mode.Prefix, ModL;
    EquationIs(A, h, LE(signature[32..]), signature[..32]);
    UniqueKey(A, publicKey, h, LE(signature[32..]), signature[..32]);
  }

  /** The decoded public key with its sign changed. */
  method NegatedKey(A: GeP3, publicKey: seq<uint8>) returns (ok: bool, ghost p: Point)
    requires A.Valid() && |publicKey| == 32 && Fermat()
    modifies A.Repr()
    ensures ok <==> exists q :: IsDecodingOf(q, publicKey)
    ensures ok ==> IsDecodingOf(p, publicKey) && OnCurve(Neg(p)) && A.Represents(Neg(p))
  {
    hide OnCurve, Neg, IsDecodingOf, GeP3.Represents, Fermat;
    ok, p := GeFromBytesVartime(A, publicKey);
    if ok {
      NegatePoint(A, p);
      DecodedOnCurve(p, publicKey);
    }
  }

  /** `ossl_ed25519_verify`: accepts exactly the signatures that verify. */
  method Verify(sha512: Hash, message: seq<uint8>, signature: seq<uint8>, publicKey: seq<uint8>, mode: Mode, bi: seq<Precomp>)
    returns (ok: bool)
    requires HashesTo64(sha512) && |signature| == 64 && |publicKey| == 32
    requires Curve25519() && DSM.BaseOdds(bi)
    ensures ok <==> Verifies(sha512, mode, publicKey, message, signature)
    ensures ok ==> LE(signature[32..]) < Scalar.L && exists A :: IsDecodingOf(A, publicKey)
    ensures ok ==> !(mode.csflag != 0 && mode.context == []) && !(mode.dom2flag == 0 && mode.context != [])
                   && (mode.dom2flag == 0 || |mode.context| <= 255)
  {
    if mode.csflag != 0 && |mode.context| == 0 {
      return false;
    }
    if mode.dom2flag == 0 && |mode.context| > 0 {
      return false;
    }
    CurveFacts();
    hide Curve25519, Fermat, NonSquare, DSM.BaseOdds, LE, Encode, OnCurve, Edwards.Add, Neg, SMul, IsDecodingOf, GeP3.Represents,
         Mode.Prefix, Equation, ModL, IsBasePoint, BasePoint;
    var r, s := signature[..32], signature[32..];
    var below := BelowOrder(s);
    if !below {
      return false;
    }
    var A := new GeP3();
    var decoded;
    ghost var p;
    decoded, p := NegatedKey(A, publicKey);
    if !decoded {
      return false;
    }
    var started, absorbed := HashInitWithDom(mode);
    if !started {
      return false;
    }
    hide Verifies;
    var h := ReducedHash(sha512, absorbed + r + publicKey + message);
    var rcheck := CheckBytes(A, h, s, bi, Neg(p));
    ok := rcheck == r;
    Verdict(sha512, mode, message, signature, publicKey, p, LE(h), rcheck);
  }

  lemma DecodedOnCurve(p: Point, s: seq<uint8>)
    requires IsDecodingOf(p, s)
    ensures OnCurve(p) && OnCurve(Neg(p))
  {
    NegOnCurve(p);
  }

  lemma EquationIs(A: Point, h: int, s: int, R: seq<uint8>)
    requires OnCurve(Edwards.Add(SMul(h, Neg(A)), SMul(s, B)))
    ensures Equation(A, h, s, R) <==> Encode(Edwards.Add(SMul(h, Neg(A)), SMul(s, B))) == R
  {
  }
}
