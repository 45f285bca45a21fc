/**
  What `verify` means, that it accepts what `sign` makes, and that it accepts one scalar only:
  sections 5.1.5 to 5.1.7 of RFC 8032.
 */
module Signatures {
  import opened Wrappers
  import opened NumberTheory
  import opened Bytes
  import opened Edwards
  import opened Ed25519
  import opened ExtendedCoordinates
  import opened PointCodec

  // ---------------------------------------------------------------- the named assumptions

  ghost predicate PIsPrime() {
    Prime(P)
  }

  ghost predicate DIsNoSquare() {
    forall u :: !IsRoot(u, D, P)
  }

  ghost predicate AdditionIsAssociative() {
    Associative(CURVE)
  }

  /** The base point exists and Q is its order. */
  ghost predicate BaseHasOrderQ() {
    RecoverX(G_Y, 0).Some? && HasOrder(CURVE, BASE, Q)
  }

  const BASE := Affine(G_X, G_Y)

  ghost predicate Assumptions() {
    PIsPrime() && DIsNoSquare() && AdditionIsAssociative() && BaseHasOrderQ()
  }

  lemma {:induction false} CurveIsSound()
    requires PIsPrime() && DIsNoSquare()
    ensures Sound(CURVE)
  {
    PFacts();
  }

  lemma {:induction false} BaseOnCurve()
    requires Assumptions()
    ensures OnCurve(CURVE, BASE) && Represents(G, BASE)
  {
    CurveIsSound();
    RecoverSound(G_Y, 0);
    NormalRepresents(BASE);
  }

  // ---------------------------------------------------------------- the meaning of verify

  /** The group equation of section 5.1.7, with the small-order keys out and s below the order. */
  ghost predicate Accepts(sha: Sha512, pub: seq<byte>, msg: seq<byte>, signature: seq<byte>, a: Affine, r: Affine) {
    && OnCurve(CURVE, a) && OnCurve(CURVE, r)
    && |signature| == 64 && pub == Encode(a) && signature[..32] == Encode(r)
    && Times(CURVE, 8, a) != NEUTRAL
    && FromBytes(signature[32..]) < Q
    && Times(CURVE, FromBytes(signature[32..]), BASE)
       == Add(CURVE, r, Times(CURVE, FromBytes(sha(signature[..32] + pub + msg)) % Q, a))
  }

  lemma {:induction false} SmallOrderTest(a: Affine)
    requires Assumptions() && OnCurve(CURVE, a)
    ensures PointEqual(Ladder(ORIGIN, Normal(a), 8), ORIGIN) <==> Times(CURVE, 8, a) == NEUTRAL
  {
    CurveIsSound();
    NormalRepresents(a);
    MulRefines(Normal(a), a, 8);
    OriginIsNeutral();
    NeutralOnCurve(CURVE);
    EqualRefines(Ladder(ORIGIN, Normal(a), 8), ORIGIN, Times(CURVE, 8, a), NEUTRAL);
  }

  lemma {:induction false} EquationTest(s: nat, h: nat, a: Affine, r: Affine)
    requires Assumptions() && OnCurve(CURVE, a) && OnCurve(CURVE, r)
    ensures PointEqual(Ladder(ORIGIN, G, s), PointAdd(Normal(r), Ladder(ORIGIN, Normal(a), h)))
       <==> Times(CURVE, s, BASE) == Add(CURVE, r, Times(CURVE, h, a))
  {
    CurveIsSound();
    BaseOnCurve();
    NormalRepresents(a);
    NormalRepresents(r);
    MulRefines(G, BASE, s);
    MulRefines(Normal(a), a, h);
    var ha := Times(CURVE, h, a);
    AddRefines(Normal(r), Ladder(ORIGIN, Normal(a), h), r, ha);
    Closed(CURVE, r, ha);
    EqualRefines(Ladder(ORIGIN, G, s), PointAdd(Normal(r), Ladder(ORIGIN, Normal(a), h)),
                 Times(CURVE, s, BASE), Add(CURVE, r, ha));
  }

  /** Verify accepts exactly the strings that satisfy the group equation, with the points decoded. */
  lemma {:induction false} VerifyMeaning(sha: Sha512, pub: seq<byte>, msg: seq<byte>, signature: seq<byte>)
    requires Assumptions()
    ensures Verify(sha, pub, msg, signature) <==> exists a, r :: Accepts(sha, pub, msg, signature, a, r)
  {
    CurveIsSound();
    if Verify(sha, pub, msg, signature) {
      var rs := signature[..32];
      DecompressMeaning(pub);
      DecompressMeaning(rs);
      var a, r := AffineOf(pub), AffineOf(rs);
      SmallOrderTest(a);
      EquationTest(FromBytes(signature[32..]), Sha512ModQ(sha, rs + pub + msg), a, r);
      assert Accepts(sha, pub, msg, signature, a, r);
    }
    if exists a, r :: Accepts(sha, pub, msg, signature, a, r) {
      var a, r :| Accepts(sha, pub, msg, signature, a, r);
      AcceptedIsVerified(sha, pub, msg, signature, a, r);
    }
  }

  function AffineOf(s: seq<byte>): Affine
    requires PointDecompress(s).Some?
  {
    var q := PointDecompress(s).value;
    Affine(q.X, q.Y)
  }

  lemma {:induction false} AcceptedIsVerified(sha: Sha512, pub: seq<byte>, msg: seq<byte>, signature: seq<byte>,
                                              a: Affine, r: Affine)
    requires Assumptions() && Accepts(sha, pub, msg, signature, a, r)
    ensures Verify(sha, pub, msg, signature)
  {
    CurveIsSound();
    DecompressEncode(a);
    DecompressEncode(r);
    SmallOrderTest(a);
    EquationTest(FromBytes(signature[32..]), Sha512ModQ(sha, signature[..32] + pub + msg), a, r);
  }

  // ---------------------------------------------------------------- the clamped scalar

  /** The secret scalar is a multiple of 8 in [2^254, 2^255), whatever the digest. */
  lemma {:induction false} ClampedScalar(sha: Sha512, seed: seq<byte>)
    requires |seed| == 32
    ensures SecretExpand(sha, seed).Ok?
    ensures var a := SecretExpand(sha, seed).value.0; a % 8 == 0 && Pow(2, 254) <= a < 2 * Pow(2, 254)
  {
    var n := FromBytes(sha(seed)[..32]);
    PowerFacts();
    ClampBits(n);
    MultipleOfEight(n, Pow(2, 254), Pow(2, 251));
  }

  lemma {:induction false} ClampBits(n: nat)
    ensures Pow(2, 254) >= 8
    ensures n % Pow(2, 254) >= n % 8
    ensures BitOr(BitAnd(n, Pow(2, 254) - 8), Pow(2, 254)) == n % Pow(2, 254) - n % 8 + Pow(2, 254)
  {
    hide Pow, BitAnd, BitOr;
    Eight();
    var m := Pow(2, 254);
    MaskBits(n, 254, 3);
    var low := n % m - n % 8;
    assert low < m by {
      assert n % m < m;
    }
    OrHighBits(low, 1, 254);
    assert 1 * m == m;
  }

  lemma {:induction false} Eight()
    ensures Pow(2, 3) == 8
  {
    assert Pow(2, 1) == 2 && Pow(2, 2) == 4;
  }

  lemma {:induction false} MultipleOfEight(n: nat, m: nat, k: nat)
    requires m == 8 * k && k > 0
    ensures (n % m - n % 8 + m) % 8 == 0
  {
    var q, r := Parts(n, m);
    assert m * q == 8 * (k * q);
    var u, v := Parts(n, 8);
    DivModUnique(r - v + m, 8, u - k * q + k, 0);
  }

  /** No multiple of 8 in [2^254, 2^255), times 8, is 0 modulo the odd Q, because 8Q > 2^255. */
  lemma {:induction false} ClampedNotSmallOrder(a: nat)
    requires a % 8 == 0 && Pow(2, 254) <= a < 2 * Pow(2, 254)
    ensures 8 * a % Q != 0
  {
    QFacts();
    PowerFacts();
    var m := a / 8;
    if 8 * a % Q == 0 {
      OddDividesDoubled(Q, 32 * m);
      OddDividesDoubled(Q, 16 * m);
      OddDividesDoubled(Q, 8 * m);
      OddDividesDoubled(Q, 4 * m);
      OddDividesDoubled(Q, 2 * m);
      OddDividesDoubled(Q, m);
      ModSmall(m, Q);
    }
  }

  lemma {:induction false} OddDividesDoubled(q: nat, x: nat)
    requires q % 2 == 1 && 2 * x % q == 0
    ensures x % q == 0
  {
    var k, r := Parts(2 * x, q);
    var h := q / 2;
    OddWitness(h, x, k);
    DivModUnique(x, q, x - h * k, 0);
  }

  lemma {:induction false} OddWitness(h: int, x: int, k: int)
    requires k * (2 * h + 1) == 2 * x
    ensures (x - h * k) * (2 * h + 1) == x
  {
    var q, hx := 2 * h + 1, h * x;
    Distribute(x, h * k, q);
    Associates(h, k, q);
    assert h * (2 * x) == 2 * hx;
    Distribute(2 * h, 1, x);
    assert (2 * h) * x == 2 * hx;
  }

  // ---------------------------------------------------------------- sign, then verify

  lemma {:induction false} SignedEquation(r: nat, h: nat, a: nat)
    requires Assumptions()
    ensures r + h * a >= 0
    ensures Times(CURVE, (r + h * a) % Q, BASE)
         == Add(CURVE, Times(CURVE, r, BASE), Times(CURVE, h, Times(CURVE, a, BASE)))
  {
    hide Times, Add, Sound, Associative, HasOrder, OnCurve, RecoverX, Represents;
    CurveIsSound();
    BaseOnCurve();
    TimesTimes(CURVE, h, a, BASE);
    TimesAdd(CURVE, r, h * a, BASE);
    TimesModOrder(CURVE, BASE, Q, r + h * a);
  }

  lemma {:induction false} KeyNotSmallOrder(a: nat)
    requires Assumptions() && 8 * a % Q != 0
    ensures Times(CURVE, 8, Times(CURVE, a, BASE)) != NEUTRAL
  {
    CurveIsSound();
    BaseOnCurve();
    TimesTimes(CURVE, 8, a, BASE);
    TimesInjective(CURVE, BASE, Q, 8 * a, 0);
    ModSmall(0, Q);
  }

  lemma {:induction false} CompressedMultiple(s: nat)
    requires Assumptions()
    ensures OnCurve(CURVE, Times(CURVE, s, BASE))
    ensures PointCompress(Ladder(ORIGIN, G, s)) == Encode(Times(CURVE, s, BASE))
  {
    CurveIsSound();
    BaseOnCurve();
    MulRefines(G, BASE, s);
    CompressIsEncode(Ladder(ORIGIN, G, s), Times(CURVE, s, BASE));
  }

  lemma {:induction false} ScalarBytes(s: nat)
    requires s < Q
    ensures FromBytes(ToBytes(s, 32)) == s
  {
    QFacts();
    EncodingBound();
    PowerFacts();
    FromToBytes(s, 32);
  }

  lemma {:induction false} AcceptedForm(sha: Sha512, msg: seq<byte>, a: Affine, r: Affine, s: nat)
    requires OnCurve(CURVE, a) && OnCurve(CURVE, r) && Times(CURVE, 8, a) != NEUTRAL && s < Q
    requires Times(CURVE, s, BASE) == Add(CURVE, r, Times(CURVE, Sha512ModQ(sha, Encode(r) + Encode(a) + msg), a))
    ensures Accepts(sha, Encode(a), msg, Encode(r) + ToBytes(s, 32), a, r)
  {
    ScalarBytes(s);
    var signature := Encode(r) + ToBytes(s, 32);
    assert signature[..32] == Encode(r) && signature[32..] == ToBytes(s, 32);
  }

  /** Of a digest, the bits from 3 up to 254 of its first half, and bit 254. */
  function SecretScalar(digest: seq<byte>): nat
    requires |digest| == 64
  {
    ClampBits(FromBytes(digest[..32]));
    FromBytes(digest[..32]) % Pow(2, 254) - FromBytes(digest[..32]) % 8 + Pow(2, 254)
  }

  lemma {:induction false} ExpandedSeed(sha: Sha512, seed: seq<byte>)
    requires |seed| == 32
    ensures SecretExpand(sha, seed) == Ok((SecretScalar(sha(seed)), sha(seed)[32..]))
  {
    hide FromBytes, BitAnd, BitOr, Pow;
    ClampBits(FromBytes(sha(seed)[..32]));
  }

  /** The string Sign puts together from a scalar, a nonce and a key. */
  function Assembled(sha: Sha512, pub: seq<byte>, rs: seq<byte>, msg: seq<byte>, r: nat, a: nat): (nat, seq<byte>) {
    var h := Sha512ModQ(sha, rs + pub + msg);
    var s := (r + h * a) % Q;
    (s, rs + ToBytes(s, 32))
  }

  lemma {:induction false} SignIsAssembled(sha: Sha512, seed: seq<byte>, msg: seq<byte>, a: nat, r: nat)
    requires |seed| == 32 && a == SecretScalar(sha(seed)) && r == Sha512ModQ(sha, sha(seed)[32..] + msg)
    ensures var pub, rs := PointCompress(Ladder(ORIGIN, G, a)), PointCompress(Ladder(ORIGIN, G, r));
      PublicKey(sha, seed) == Ok(pub) && Sign(sha, seed, msg) == Ok(Assembled(sha, pub, rs, msg, r, a).1)
  {
    hide PointCompress, ToBytes, FromBytes, SecretExpand, SecretScalar, Sha512ModQ, Ladder;
    ExpandedSeed(sha, seed);
  }

  lemma {:induction false} SignedParts(sha: Sha512, seed: seq<byte>, msg: seq<byte>) returns (a: nat, r: nat)
    requires |seed| == 32
    ensures a % 8 == 0 && Pow(2, 254) <= a < 2 * Pow(2, 254)
    ensures a == SecretScalar(sha(seed)) && r == FromBytes(sha(sha(seed)[32..] + msg)) % Q
    ensures var pub, rs := PointCompress(Ladder(ORIGIN, G, a)), PointCompress(Ladder(ORIGIN, G, r));
      PublicKey(sha, seed) == Ok(pub) && Sign(sha, seed, msg) == Ok(Assembled(sha, pub, rs, msg, r, a).1)
  {
    hide PointCompress, ToBytes, FromBytes, SecretExpand, SecretScalar, Ladder, PublicKey, Sign, Assembled;
    ClampedScalar(sha, seed);
    ExpandedSeed(sha, seed);
    a, r := SecretScalar(sha(seed)), Sha512ModQ(sha, sha(seed)[32..] + msg);
    SignIsAssembled(sha, seed, msg, a, r);
  }

  lemma {:induction false} AssembledAccepted(sha: Sha512, msg: seq<byte>, a: nat, r: nat)
    requires Assumptions() && a % 8 == 0 && Pow(2, 254) <= a < 2 * Pow(2, 254)
    ensures var pub, rs := PointCompress(Ladder(ORIGIN, G, a)), PointCompress(Ladder(ORIGIN, G, r));
      Verify(sha, pub, msg, Assembled(sha, pub, rs, msg, r, a).1)
  {
    hide PointCompress, ToBytes, Encode, Verify, Add, OnCurve, Represents;
    var aPt, rPt := Times(CURVE, a, BASE), Times(CURVE, r, BASE);
    CompressedMultiple(a);
    CompressedMultiple(r);
    var pub, rs := Encode(aPt), Encode(rPt);
    ClampedNotSmallOrder(a);
    KeyNotSmallOrder(a);
    SignedEquation(r, Sha512ModQ(sha, rs + pub + msg), a);
    var (s, signature) := Assembled(sha, pub, rs, msg, r, a);
    AcceptedForm(sha, msg, aPt, rPt, s);
    AcceptedIsVerified(sha, pub, msg, signature, aPt, rPt);
  }

  /** Every signature made from a 32-byte seed verifies under that seed's public key. */
  lemma {:induction false} SignThenVerify(sha: Sha512, seed: seq<byte>, msg: seq<byte>)
    requires Assumptions() && |seed| == 32
    ensures PublicKey(sha, seed).Ok? && Sign(sha, seed, msg).Ok?
    ensures Verify(sha, PublicKey(sha, seed).value, msg, Sign(sha, seed, msg).value)
  {
    var a, r := SignedParts(sha, seed, msg);
    AssembledAccepted(sha, msg, a, r);
  }

  lemma {:induction false} NotNegative(h: nat, a: nat)
    ensures h * a >= 0
  {
  }

  /**
    The key is the encoding of the secret scalar's multiple of the base point. The signature is R, the
    encoding of the nonce's multiple, and the nonce plus the scalar times the digest of R, the key and
    the message, modulo the order; the nonce is the digest of the seed digest's other half and the message.
   */
  lemma {:induction false} SignMeaning(sha: Sha512, seed: seq<byte>, msg: seq<byte>)
    requires Assumptions() && |seed| == 32
    ensures var a, r := SecretScalar(sha(seed)), FromBytes(sha(sha(seed)[32..] + msg)) % Q;
            var key, rs := Encode(Times(CURVE, a, BASE)), Encode(Times(CURVE, r, BASE));
            var h := FromBytes(sha(rs + key + msg)) % Q;
            && PublicKey(sha, seed) == Ok(key)
            && h * a >= 0 && Sign(sha, seed, msg) == Ok(rs + ToBytes((r + h * a) % Q, 32))
  {
    hide PointCompress, ToBytes, FromBytes, Encode, SecretScalar, Times, OnCurve, Assumptions, PublicKey, Sign;
    var a, r := SignedParts(sha, seed, msg);
    CompressedMultiple(a);
    CompressedMultiple(r);
    NotNegative(FromBytes(sha(Encode(Times(CURVE, r, BASE)) + Encode(Times(CURVE, a, BASE)) + msg)) % Q, a);
  }

  /** A seed of any other length is refused by both. */
  lemma {:induction false} WrongSeedRaises(sha: Sha512, seed: seq<byte>, msg: seq<byte>)
    ensures PublicKey(sha, seed).Raised? <==> |seed| != 32
    ensures Sign(sha, seed, msg).Raised? <==> |seed| != 32
  {
  }

  // ---------------------------------------------------------------- one scalar per R

  lemma {:induction false} EncodeInjective(a: Affine, b: Affine)
    requires PIsPrime() && DIsNoSquare() && OnCurve(CURVE, a) && OnCurve(CURVE, b) && Encode(a) == Encode(b)
    ensures a == b
  {
    CurveIsSound();
    DecompressEncode(a);
    DecompressEncode(b);
  }

  /** Accepted signatures of one message under one key that share R are the same string. */
  lemma {:induction false} SameRSameSignature(sha: Sha512, pub: seq<byte>, msg: seq<byte>, sig1: seq<byte>,
                                              sig2: seq<byte>)
    requires Assumptions()
    requires Verify(sha, pub, msg, sig1) && Verify(sha, pub, msg, sig2) && sig1[..32] == sig2[..32]
    ensures sig1 == sig2
  {
    VerifyMeaning(sha, pub, msg, sig1);
    VerifyMeaning(sha, pub, msg, sig2);
    var a1, r1 :| Accepts(sha, pub, msg, sig1, a1, r1);
    var a2, r2 :| Accepts(sha, pub, msg, sig2, a2, r2);
    EncodeInjective(a1, a2);
    EncodeInjective(r1, r2);
    CurveIsSound();
    BaseOnCurve();
    var s1, s2 := FromBytes(sig1[32..]), FromBytes(sig2[32..]);
    TimesInjective(CURVE, BASE, Q, s1, s2);
    ModSmall(s1, Q);
    ModSmall(s2, Q);
    ToFromBytes(sig1[32..]);
    ToFromBytes(sig2[32..]);
    assert sig1 == sig1[..32] + sig1[32..] && sig2 == sig2[..32] + sig2[32..];
  }
}
