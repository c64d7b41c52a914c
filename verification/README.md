# Curve25519 and Ed25519 arithmetic, verified

`openssl_ref.c` is the portable C implementation of X25519 and Ed25519. It stacks limb arithmetic modulo
p = 2^255 - 19 in two radices, arithmetic modulo the group order l, point formulas in several coordinate systems,
scalar recodings, and the two protocols on top. This project models those layers in Dafny and proves that each one
refines a plain mathematical meaning, from the carries up to "every signature verifies".

The layers, bottom up:

- `CInts`, `Bytes`: fixed-width integers, so that every operation carries its own overflow obligation; bit operations;
  little-endian strings and the small loads.
- `Field`, `Products`: congruence modulo p, powers, inverses.
- `Fe51`, `Fe51Invert`: the radix 2^51 field. `Fe25`, `Fe25Bytes`, `Fe25Chains`: the radix 2^25.5 field.
- `Rfc7748`: the ladder of RFC 7748 on integers. `X25519Fe51`, `X25519Fe25`: both implementations against it.
- `Montgomery`: what the ladder computes, multiples of points of the Edwards curve. `X25519Public`: the public key by
  fixed-base multiplication, and key exchange.
- `Scalar`, `ScalarOps`: `x25519_sc_reduce` and `sc_muladd`.
- `Edwards`, `Associativity`, `Multiples`: the curve, its group law, multiples of points.
- `Ge`, `PointCodec`: the point structures and formulas; encoding and decoding.
- `SlidingWindow`, `ScalarMultBase`, `DoubleScalarMult`: recodings and scalar multiplications.
- `Ed25519`: key generation, signing, verification.

## Conventions

Buffers and field elements that the C code writes are arrays, written in place; the structures `ge_p2`, `ge_p3` and
`ge_p1p1` are classes whose fields are arrays. A signed right shift is a floor division and a mask is a remainder; `|`,
`^` and `&` on several operands are defined bit by bit. Limb bounds that the C comments give in units of 2^26 and 2^25
are counted in 1/200 of the unit, so that 1.65, 1.1 and 1.01/2 are the integers 330, 220 and 101. The ghost parameter of
a point method names the point that the coordinates represent.

The modulus, d and the base point are ghost constants that proofs treat as symbols: each is defined by its property
(p + 19 = 2^255, 121666 d = -121665, y = 4/5 with even x), and `ModulusValue`, `ConstantValue` and `BaseValue` give the
numbers. For the same reason congruence (`Cong`) and the curve equation are defined by repeated addition; `CongIntro`,
`CongElim` and `CurveMeaning` give them in products.

## What is taken as given

Every assumption is a named predicate in a `requires` clause.

- `Fermat`: z^(p-1) = 1 modulo p for z not 0, which is what the primality of p gives.
- `NonSquare`: d has no square root modulo p.
- `BaseOrder`: l B is the identity. Only the statement that signatures verify asks for it.
- `ExactOrder`: only multiples of l take B to the identity. Only the uniqueness of responses asks for it.
- `CombTable`, `BaseOdds`: entry (i, j) of `k25519Precomp` represents (j+1) 256^i B and entry k of `Bi` represents
  (2k+1) B, with limbs within 1.01*2^25, 1.01*2^24. The tables are parameters.
- `HashesTo64`: SHA-512 is some function from byte strings to 64 bytes.

Completeness, closure and associativity of the addition law are not assumed: they are proved from the first two.

## Where code and comments differ

- `fe_add` and `fe_sub` document operands within 1.1*2^25; `ge_p2_dbl` and the addition formulas chain two of them and
  pass more. The model follows the code: the bounds add up, and what reaches a multiplication stays within 1.65*2^26
  (in the code's alternating pattern), at most 1.605 of the unit in `ge_madd` and `ge_msub`.
- The comment on `fe_tobytes` argues with |q| <= 1; the quotient -2 occurs within the stated bounds
  (`Fe25Bytes.QuotientMinusTwo`), and the code handles it.
- `ge_frombytes_vartime` accepts strings that section 5.1.3 of RFC 8032 rejects: y not reduced modulo p, and x = 0 with
  the sign bit set. `PointCodec.CanonicalStrings` says that these are the only ones.

## Model

| member | source | states |
|---|---|---|
| Bytes.Load3 | openssl_ref.c:817-825 | the three bytes at an index as a number, least significant first |
| Bytes.Load4 | openssl_ref.c:827-836 | the same for four bytes |
| Bytes.Load6 | openssl_ref.c:302-314 | the same for six bytes |
| Bytes.Load7 | openssl_ref.c:287-300 | the same for seven bytes |
| CInts.ChooseValue | openssl_ref.c:1642-1659 | `x = (f ^ g) & mask; f ^= x; g ^= x` exchanges the words when the mask comes from 1 and keeps them when it comes from 0 |
| Fe51.FromBytes | openssl_ref.c:316-338 | the limbs are below 2^51 and hold the low 255 bits of the string |
| Fe51.ToBytes | openssl_ref.c:340-401 | for every value below 2p with limbs near 2^51, the 32 bytes are the canonical encoding of the value modulo p; the rest of the buffer is untouched |
| Fe51.SubtractModulus | openssl_ref.c:349-366 | adding 19q and dropping bit 255 leaves exactly the remainder modulo p |
| Fe51.CanonicalRoundTrip | openssl_ref.c:316-401 | load then store gives the canonical string of the value modulo p, which is the string itself exactly when it held a number below p |
| Fe51.Mul | openssl_ref.c:414-477 | operands with limbs below 2^54: no 64- or 128-bit operation wraps, the result is f g modulo p and its limbs are below 2^51 plus a small slack |
| Fe51.Sq | openssl_ref.c:479-541 | the dedicated squaring has the value f f modulo p under the same bounds |
| Fe51.Mul121666 | openssl_ref.c:543-574 | 121666 f modulo p, reduced, for limbs below 2^54 |
| Fe51.Add | openssl_ref.c:577-584 | limbwise sum: the values add, and the limb bound is the sum of the bounds |
| Fe51.Sub | openssl_ref.c:586-597 | the bias of 2p keeps every limb from going below zero and the value is f - g + 2p |
| Fe51.CSwap | openssl_ref.c:626-637 | exchanges the operands for b = 1 and leaves them for b = 0, with no branch |
| Fe51Invert.Invert | openssl_ref.c:639-728 | the chain of squarings and multiplications computes z^(p-2) |
| Rfc7748.DeferredIsPlain | openssl_ref.c:759-784 | swapping by the xor of successive bits gives the two fractions of the ladder that never swaps, in the order that the pending swap says |
| Rfc7748.RoundIsDoubleAndAdd | openssl_ref.c:766-783 | one round, with a24 = 121665, is doubling on v^2 = u^3 + 486662 u^2 + u and differential addition, whichever of the two fractions comes first |
| Rfc7748.DecodedU | openssl_ref.c:316-338 | bit 255 of the string is ignored, and numbers below 2^255 are read back from their strings |
| Rfc7748.X25519IsPlainLadder | openssl_ref.c:759-784 | the function with deferred swaps is Montgomery's ladder of doublings and differential additions from (1 : 0) and (u : 1) |
| Rfc7748.FinalSwapIsIdle | openssl_ref.c:734-791 | clamping clears bit 0, so no swap is pending after the last round and the missing final swap changes nothing |
| Rfc7748.Clamp | openssl_ref.c:749-752 | `e[0] &= 248; e[31] &= 127; e[31] |= 64`: the bytes, and the clamped scalar of section 5 of RFC 7748 that they hold |
| Rfc7748.RoundValues | openssl_ref.c:766-783 | the field operations of one iteration, in the order of the code, compute one round of the standard's ladder |
| X25519Fe51.LadderRound | openssl_ref.c:766-783 | one iteration on limbs refines one round of the standard's ladder and keeps the limb bounds |
| X25519Fe51.Rounds | openssl_ref.c:758-784 | after all 255 iterations, for every scalar and point, the four limb vectors represent the two fractions of the swap-free ladder, in the order of the pending swap |
| X25519Fe51.ScalarMult | openssl_ref.c:734-791 | for all inputs the 32 bytes written are those of X25519 in section 5 of RFC 7748 |
| X25519Fe51.OsslX25519 | openssl_ref.c:5851-5858 | writes the same bytes and reports failure exactly when the shared secret is zero |
| Montgomery.DoublingStep | openssl_ref.c:766-783 | doubling on u coordinates yields the u coordinate of p + p on the Edwards curve |
| Montgomery.SumStep | openssl_ref.c:766-783 | differential addition yields the u coordinate of p + s when s - p has the coordinate x1 |
| Montgomery.LadderMultiples | openssl_ref.c:759-784 | after the bits with value m the two fractions stand for m p and (m + 1) p |
| Montgomery.X25519IsMultiple | openssl_ref.c:734-791 | X25519(k, u) is the u coordinate of (k mod 2^255) p for the point p of the curve with coordinate u, and 0 if that is the identity |
| Montgomery.SharedSecretsAgree | openssl_ref.c:5851-5858 | X25519(a, X25519(b, u)) = X25519(b, X25519(a, u)) |
| Montgomery.BaseU | openssl_ref.c:5877-5881 | the base point has u = 9 |
| X25519Public.SecretIsMultiple | openssl_ref.c:5851-5858 | on strings: the result is the u coordinate of (2^254 + 8 (k / 8 mod 2^251)) p |
| X25519Public.EncodeU | openssl_ref.c:5872-5883 | (Z + Y) / (Z - Y) is the u coordinate of the represented point, written canonically |
| X25519Public.OsslX25519PublicFromPrivate | openssl_ref.c:5860-5886 | the fixed-base multiplication on the Edwards curve gives the bytes of the ladder for u = 9 |
| X25519Public.KeyExchange | openssl_ref.c:5851-5886 | each party's X25519 with the other's public key gives the same 32 bytes |
| Fe25.Carry26 | openssl_ref.c:1274-1276 | `(h + 2^25) >> 26` as a floor leaves a centred limb and moves the carry up |
| Fe25.Reduce | openssl_ref.c:1274-1350 | from column sums below 2^62 to limbs within 1.01*2^25, 1.01*2^24, with the same value modulo p |
| Fe25.Mul | openssl_ref.c:1082-1351 | limbs within 1.65*2^26, 1.65*2^25: no overflow of int32 or int64, the value f g modulo p, limbs within 1.01*2^25, 1.01*2^24 |
| Fe25.Sq | openssl_ref.c:1353-1520 | the value f f modulo p under the same bounds |
| Fe25.Sq2 | openssl_ref.c:1686-1864 | the value 2 f f modulo p under the same bounds |
| Fe25.Add | openssl_ref.c:1041-1059 | limbwise sum, operands and result may be the same array; bounds add |
| Fe25.Sub | openssl_ref.c:1061-1080 | limbwise difference in the same way, for the wider operands that the point formulas pass |
| Fe25.Neg | openssl_ref.c:1618-1634 | the opposite value within the same bounds |
| Fe25.CMov | openssl_ref.c:1636-1659 | replaces f by g for b = 1 only, with no branch |
| Fe25.CSwap | openssl_ref.c:4424-4451 | exchanges the operands for b = 1 only, with no branch |
| Fe25.Mul121666 | openssl_ref.c:4453-4529 | 121666 f modulo p, within 1.1*2^25, 1.1*2^24 |
| Fe25Bytes.FromBytes | openssl_ref.c:838-904 | the value is the low 255 bits of the string modulo p, within 1.1*2^25, 1.1*2^24 |
| Fe25Bytes.ExactQuotient | openssl_ref.c:906-929 | floor(2^-255 (h + round(19 h9 / 2^25))) is the exact quotient of h by p |
| Fe25Bytes.QuotientMinusTwo | openssl_ref.c:906-929 | the quotient can be -2, which the comment's |q| <= 1 leaves out |
| Fe25Bytes.Quotient | openssl_ref.c:930-955 | the chain of shifts computes floor(h / p) for every h within 1.1*2^26, 1.1*2^25 |
| Fe25Bytes.ToBytes | openssl_ref.c:930-1019 | the 32 bytes are the canonical encoding of the value modulo p, whatever the limbs |
| Fe25Bytes.IsNonzero | openssl_ref.c:1661-1672 | true exactly when the field element is not 0 |
| Fe25Bytes.IsNegative | openssl_ref.c:1674-1684 | the lowest bit of the canonical encoding |
| Fe25Chains.Invert | openssl_ref.c:1522-1616 | computes z^(p-2), bounds kept throughout |
| Fe25Chains.Pow22523 | openssl_ref.c:1866-1922 | computes z^((p-5)/8) = z^(2^252-3), bounds kept throughout |
| X25519Fe25.ScalarMult | openssl_ref.c:4531-4588 | the 25.5-bit build writes the same 32 bytes of X25519 for all inputs |
| Scalar.Carry | openssl_ref.c:4873-4875 | a centred carry moves weight between neighbouring limbs and keeps the value |
| Scalar.FoldHigh | openssl_ref.c:4825-4871 | folding limbs 18 to 23 changes the value by a multiple of l, inside int64 |
| Scalar.AfterCentredPass | openssl_ref.c:4956-5000 | after the last centred pass the value is below 2^252 in magnitude |
| Scalar.LastFold | openssl_ref.c:5002-5045 | the floor pass then leaves limb 12 at 0 or -1 and folding it lands in [0, l) |
| Scalar.ReduceLimbs | openssl_ref.c:4825-5079 | twenty-four limbs become the twelve limbs of the canonical remainder modulo l |
| ScalarOps.Load64 | openssl_ref.c:4783-4806 | the twenty-four limbs cut out of 64 bytes hold the number of the string |
| ScalarOps.Load32 | openssl_ref.c:5128-5139 | the twelve limbs cut out of 32 bytes do, with the last one unmasked |
| ScalarOps.Pack | openssl_ref.c:5080-5111 | twelve limbs are stored as the 32 bytes of their value, even when the last limb is 2^21 |
| ScalarOps.ScReduce | openssl_ref.c:4769-5113 | for every 64 bytes, the first 32 become the canonical bytes of the number modulo l, in place, inside int64 |
| ScalarOps.Convolution | openssl_ref.c:5212-5235 | the twenty-three column sums are the product plus the addend |
| ScalarOps.CarryColumns | openssl_ref.c:5237-5306 | one centred pass brings the columns within the bounds of the folds and keeps their value |
| ScalarOps.ScMulAdd | openssl_ref.c:5115-5596 | for all 32-byte a, b, c, also above l, writes the canonical bytes of (a b + c) modulo l |
| Edwards.CurveMeaning | openssl_ref.c:1927-1929 | the curve equation is -x^2 + y^2 = 1 + d x^2 y^2 modulo p |
| Edwards.Complete | openssl_ref.c:1924-1936 | the denominators 1 + d x1 x2 y1 y2 and 1 - d x1 x2 y1 y2 are never 0 on the curve |
| Edwards.Closed | openssl_ref.c:1924-1936 | the sum of two points of the curve is on the curve |
| Edwards.AddNeg | openssl_ref.c:1924-1936 | every point has an inverse, and (0, 1) is the identity it gives |
| Edwards.NegAdd | openssl_ref.c:1924-1936 | negation distributes over addition |
| Edwards.ConstantValue | openssl_ref.c:1928-1928 | d = -121665/121666 is one definite number |
| Associativity.Associates | openssl_ref.c:1924-1936 | addition of points is associative |
| Multiples.SMulAdd | openssl_ref.c:4359-4371 | (m + n) P = m P + n P for all integers |
| Multiples.SMulSMul | openssl_ref.c:4359-4371 | m (n P) = (m n) P for all integers |
| Ge.FieldConstants | openssl_ref.c:1996-2004 | the limbs of d, 2d and sqrt(-1) hold d, 2d and a square root of -1, within the bounds of products |
| Ge.ExtendedProduct | openssl_ref.c:1932-1934 | extended coordinates satisfy XY = ZT |
| Ge.P2Zero | openssl_ref.c:2045-2050 | represents the identity |
| Ge.P3Zero | openssl_ref.c:2052-2058 | represents the identity |
| Ge.P3ToP2 | openssl_ref.c:2067-2073 | represents the same point |
| Ge.P3ToCached | openssl_ref.c:2080-2087 | represents the same point as (Y+X, Y-X, Z, 2dT) |
| Ge.P1p1ToP2 | openssl_ref.c:2089-2095 | represents the same point, with limbs small enough for the next formula |
| Ge.P1p1ToP3 | openssl_ref.c:2097-2104 | represents the same point, with XY = ZT |
| Ge.DoubleCompleted | openssl_ref.c:2106-2120 | the doubling formula yields p + p under the addition law of section 5.1.4 of RFC 8032 |
| Ge.SumCompleted | openssl_ref.c:2130-2145 | the addition formulas yield the sum under that law |
| Ge.P2Dbl | openssl_ref.c:2106-2120 | r represents 2p; every operand of a multiplication or squaring is within 1.65*2^26, 1.65*2^25 |
| Ge.P3Dbl | openssl_ref.c:2122-2128 | r represents 2p |
| Ge.MAdd | openssl_ref.c:2130-2145 | r represents p + q for a table entry q, bounds kept |
| Ge.MSub | openssl_ref.c:2147-2162 | r represents p - q |
| Ge.AddCached | openssl_ref.c:2164-2180 | r represents p + q for a cached q, bounds kept |
| Ge.SubCached | openssl_ref.c:2182-2198 | r represents p - q |
| PointCodec.GeToBytes | openssl_ref.c:1970-1981 | writes the encoding of the represented point, whatever its coordinates |
| PointCodec.GeP3ToBytes | openssl_ref.c:1983-1994 | the same from extended coordinates |
| PointCodec.NoRoot | openssl_ref.c:2021-2032 | when both tests on v x^2 fail, u is not v times a square |
| PointCodec.GeFromBytesVartime | openssl_ref.c:2006-2043 | accepts exactly the strings whose y, modulo p, is that of a point; the result is that point with the parity of the top bit unless x = 0, Z = 1 and XY = ZT |
| PointCodec.EncodingDecodes | openssl_ref.c:1970-2043 | every point decodes from its encoding |
| PointCodec.DecodingUnique | openssl_ref.c:2006-2043 | a string stands for at most one point |
| PointCodec.CanonicalStrings | openssl_ref.c:2006-2043 | a string that decodes to p is its encoding exactly when y < p and not (x = 0 with the top bit set): the two leniencies of the decoder |
| ScalarMultBase.Recode | openssl_ref.c:4380-4395 | the 64 signed digits lie between -8 and 8 and write the number of a in radix 16 |
| ScalarMultBase.Equal | openssl_ref.c:2200-2209 | 1 when equal and 0 otherwise, from the borrow of a 32-bit subtraction |
| ScalarMultBase.Negative | openssl_ref.c:4334-4340 | the sign of the digit |
| ScalarMultBase.Magnitude | openssl_ref.c:4346-4346 | the absolute value of the digit in 8-bit arithmetic |
| ScalarMultBase.PrecompCMov | openssl_ref.c:2211-2216 | replaces the whole entry for b = 1 only |
| ScalarMultBase.TableSelect | openssl_ref.c:4342-4362 | yields the entry of digit * 256^pos * B for each digit from -8 to 8 |
| ScalarMultBase.EvensAndOdds | openssl_ref.c:4398-4418 | odd digits times 16 plus even digits are the number |
| ScalarMultBase.Comb | openssl_ref.c:4398-4418 | the two passes with four doublings between them reassemble the digits into a multiple of B |
| ScalarMultBase.GeScalarMultBase | openssl_ref.c:4364-4421 | h = a B for every a with a[31] <= 127 |
| SlidingWindow.Unpack | openssl_ref.c:4596-4598 | the 256 bits of a, lowest first |
| SlidingWindow.Merge | openssl_ref.c:4603-4606 | taking a bit into the window keeps the value and the digit usable |
| SlidingWindow.Borrow | openssl_ref.c:4607-4615 | taking it negatively and rippling keeps the value; the carry is lost only for a >= 2^255 |
| SlidingWindow.Ripple | openssl_ref.c:4609-4615 | adds 1 at an index, and says when no zero is found before index 256 |
| SlidingWindow.Slide | openssl_ref.c:4590-4623 | every digit is 0 or odd and at most 15 in magnitude; the value is a whenever a < 2^255, and in general a or a - 2^256 |
| DoubleScalarMult.OddMultiples | openssl_ref.c:4713-4736 | the table holds A, 3A, 5A, up to 15A |
| DoubleScalarMult.Accumulate | openssl_ref.c:4738-4766 | descending loop: the accumulator is the sum of the digits already consumed |
| DoubleScalarMult.GeDoubleScalarMult | openssl_ref.c:4692-4767 | r = a A + b B for all scalars below 2^255 |
| PointCodec.Decodable | openssl_ref.c:2006-2043 | a string decodes exactly when its low 255 bits are, modulo p, the y coordinate of a point |
| PointCodec.LenientStrings | openssl_ref.c:2006-2043 | (0, 1) with the top bit set and y = p + 1 both decode to the identity |
| PointCodec.BaseValue | openssl_ref.c:4364-4371 | the base point in numerals |
| Ed25519.HashInitWithDom | openssl_ref.c:5598-5631 | absorbs nothing without dom2; otherwise the 32 characters, the prehash flag as 0 or 1, the length and the context, byte by byte; fails exactly for a context over 255 bytes |
| Ed25519.VariantsAccepted | openssl_ref.c:5652-5657 | plain Ed25519, Ed25519ctx with 1 to 255 bytes of context and Ed25519ph with 0 to 255 are accepted |
| Ed25519.BelowOrder | openssl_ref.c:5760-5777 | the byte-wise test accepts exactly s < l |
| Ed25519.HashedSecret | openssl_ref.c:5662-5669 | the bytes of the hash with bits 0 to 2 and 255 cleared and bit 254 set in the first half, which then hold the secret scalar |
| Ed25519.PublicFromPrivate | openssl_ref.c:5821-5849 | writes the encoding of (2^254 + 8 (h / 8 mod 2^251)) B, with h the number in the first 32 bytes of the hash |
| Ed25519.PubkeyVerify | openssl_ref.c:5700-5712 | accepts exactly the 32-byte strings whose y, modulo p, is that of a point |
| Ed25519.Sign | openssl_ref.c:5633-5698 | fails exactly for csflag without context, a context without dom2flag, and a context over 255 bytes, and then leaves the output alone; otherwise writes the signature of section 5.1.6 of RFC 8032 |
| Ed25519.SignatureHalves | openssl_ref.c:5659-5692 | the halves of a signature are the encoding of r B and (k a + r) modulo l, with r and k hashed from exactly the strings of section 5.1.6 of RFC 8032 |
| Ed25519.CheckBytes | openssl_ref.c:5802-5804 | the encoding of h A + s B |
| Ed25519.NegatedKey | openssl_ref.c:5779-5784 | decodes the public key and negates it; fails exactly when the key does not decode |
| Ed25519.Verify | openssl_ref.c:5716-5819 | accepts exactly when the mode is accepted, s < l, the key decodes, and h (-A) + s B encodes to the first 32 bytes; in particular nothing with s >= l, a key that does not decode or a rejected mode |
| Ed25519.VerifiesMeans | openssl_ref.c:5716-5819 | acceptance in full: the flags, s < l, and points A and R behind the two strings with s B = R + k A |
| Ed25519.ResponseUnique | openssl_ref.c:5752-5777 | for one key, message and mode, no two accepted signatures share a first half |
| Ed25519.EquationHolds | openssl_ref.c:5802-5812 | h (-(a B)) + ((h a + r) mod l) B = r B |
| Ed25519.SignaturesVerify | openssl_ref.c:5633-5819 | every signature made for a private key is accepted under the public key of that private key, with the same flags and context |

## Left out

- The radix 2^64 build (openssl_ref.c:24-268): its arithmetic is assembly that is not part of this model.
- The assembly versions of the radix 2^51 multiplications: only the C versions are modelled.
- X25519 at a u that belongs to no point of the curve but to its quadratic twist: stated as the ladder of doublings and differential additions, not as multiples of a point.
- The entries of `k25519Precomp` and `Bi`: taken by their documented meaning, as parameters.
- Primality of p, non-squareness of d and the order of B: hypotheses, as listed above.
- Library calls: hashing is a function parameter; fetching algorithms, allocation failures and wiping of secrets have no counterpart.
- Constant-time behaviour: only inputs and outputs are in scope; the branch-free selections are modelled by what they compute.
- Overlap of `const` operands with the result in multiplications and squarings: such operands are passed as the limb sequences that the C code reads before it writes; additions, subtractions, negation and swaps work on arrays that may be the same.
- `ge_cached` and `ge_precomp` operands are values; only the entry that `table_select` builds is an object with arrays.
- SlidingWindow.Slide: for a >= 2^255 it says that the value is a or a - 2^256, not which; both callers stay below 2^253.
- DoubleScalarMult.GeDoubleScalarMult: asks for scalars below 2^255, because of `slide`; its caller passes scalars below l.
- Benchmarks, headers and platform documentation: no algorithm of their own.
