/**
  The 32-byte point encoding of sections 5.1.2 and 5.1.3 of RFC 8032: the decoder accepts exactly
  the encodings of curve points, each in one form only.
 */
module PointCodec {
  import opened Wrappers
  import opened NumberTheory
  import opened Bytes
  import opened Edwards
  import opened Ed25519
  import opened ExtendedCoordinates

  /** y in 255 bits with the parity of x above them. */
  function Encode(a: Affine): seq<byte>
    requires 0 <= a.y && 0 <= a.x
  {
    PowPositive(2, 255);
    ToBytes(a.y + a.x % 2 * Pow(2, 255), 32)
  }

  lemma {:induction false} EncodingBound()
    ensures Pow(256, 32) == 2 * Pow(2, 255) && Pow(2, 255) > 0
  {
    PowMul(2, 8, 32);
    assert Pow(2, 8) == 256 by {
      PowMul(2, 4, 2);
      assert Pow(2, 4) == 16 && Pow(16, 2) == 256;
    }
    PowerFacts();
  }

  // ---------------------------------------------------------------- canonical encodings

  lemma {:induction false} XSquaredRange(y: int)
    ensures 0 <= XSquared(y) < P
  {
  }

  /** What RecoverX returns, from P odd and its own check of the root alone. */
  lemma {:induction false} RecoverRange(y: int, sign: int)
    requires RecoverX(y, sign).Some? && (sign == 0 || sign == 1)
    ensures var x := RecoverX(y, sign).value; y < P && 0 <= x < P && x % 2 == sign && Cong(x * x, XSquared(y), P)
  {
    hide XSquared, CandidateX, Cong;
    XSquaredRange(y);
    var x2 := XSquared(y);
    if x2 == 0 {
      CongItself(0 * 0, P);
    } else {
      PFacts();
      PickRoot(P, CandidateX(x2), x2, sign);
    }
  }

  /** A square root of x2 made to have the parity that was asked for. */
  lemma {:induction false} PickRoot(p: nat, x: int, x2: int, sign: int)
    requires p % 8 == 5 && 0 <= x < p && 0 < x2 < p && (x * x - x2) % p == 0 && (sign == 0 || sign == 1)
    ensures var r := if x % 2 != sign then p - x else x;
      0 < r < p && r % 2 == sign && Cong(r * r, x2, p)
  {
    ModSmall(0, p);
    ModSmall(x2, p);
    CongSubZero(x * x, x2, p);
    if x == 0 {
      assert false;
    }
    PickParity(p, x, sign);
  }

  /** Of the roots x and p - x, one has the wanted parity. */
  lemma {:induction false} PickParity(p: nat, x: int, sign: int)
    requires p % 8 == 5 && 0 < x < p && (sign == 0 || sign == 1)
    ensures var r := if x % 2 != sign then p - x else x;
      0 < r < p && r % 2 == sign && Cong(r * r, x * x, p)
  {
    NegatedRoot(p, x);
    FlipParity(p, x);
  }

  lemma {:induction false} NegatedRoot(p: nat, x: int)
    requires p > 0
    ensures Cong((p - x) * (p - x), x * x, p)
  {
    assert (p - x) * (p - x) == x * x + (p - 2 * x) * p;
    CongIntro((p - x) * (p - x), x * x, p - 2 * x, p);
  }

  lemma {:induction false} FlipParity(p: nat, x: int)
    requires p % 8 == 5
    ensures (p - x) % 2 == 1 - x % 2
  {
    var h := p / 8;
    DivModUnique(p - x, 2, 4 * h + 2 - x / 2, 1 - x % 2);
  }

  lemma {:induction false} SplitEncoding(s: seq<byte>)
    requires |s| == 32
    ensures var n, m := FromBytes(s), Pow(2, 255);
      m > 0 && n == n % m + n / m * m && (n / m == 0 || n / m == 1) && BitAnd(n, m - 1) == n % m
  {
    hide *;
    var n, m := FromBytes(s), Pow(2, 255);
    EncodingBound();
    FromBytesBound(s);
    MaskBits(n, 255, 0);
    PowOfNothing(n);
    SmallQuotient(n, m);
  }

  lemma {:induction false} SmallQuotient(n: nat, m: nat)
    requires n < 2 * m
    ensures n == n % m + n / m * m && (n / m == 0 || n / m == 1)
  {
    if n < m {
      DivModUnique(n, m, 0, n);
    } else {
      DivModUnique(n, m, 1, n - m);
    }
  }

  /** Every accepted string is what its point compresses to; so no point has two encodings. */
  lemma {:induction false} Canonical(s: seq<byte>)
    requires PointDecompress(s).Some?
    ensures PointCompress(PointDecompress(s).value) == s
  {
    hide FromBytes, ToBytes, RecoverX, BitAnd, PointCompress, Pow;
    var n, m := FromBytes(s), Pow(2, 255);
    SplitEncoding(s);
    var sign, y := n / m, n % m;
    RecoverRange(y, sign);
    CompressWithUnitZ(PointDecompress(s).value);
    ToFromBytes(s);
  }

  lemma {:induction false} CompressWithUnitZ(q: Point)
    requires 0 <= q.X < P && 0 <= q.Y < P && q.Z == 1
    ensures PointCompress(q) == Encode(Affine(q.X, q.Y))
  {
    PowOne(P - 2);
    ModSmall(1, P);
    ModSmall(q.X, P);
    ModSmall(q.Y, P);
    PackPoint(q, Affine(q.X, q.Y));
  }

  lemma {:induction false} PackPoint(q: Point, a: Affine)
    requires 0 <= a.x && 0 <= a.y < P
    requires var zinv := PowMod(q.Z, P - 2, P); q.X * zinv % P == a.x && q.Y * zinv % P == a.y
    ensures PointCompress(q) == Encode(a)
  {
    PFacts();
    OrHighBits(a.y, a.x % 2, 255);
  }

  lemma {:induction false} DecompressInjective(s: seq<byte>, t: seq<byte>)
    requires PointDecompress(s).Some? && PointDecompress(s) == PointDecompress(t)
    ensures s == t
  {
    Canonical(s);
    Canonical(t);
  }

  // ---------------------------------------------------------------- the root is on the curve

  /** d y^2 + 1 is never 0: -1 is a square and d is not. */
  lemma {:induction false} DenominatorOfX(y: int)
    requires Sound(CURVE)
    ensures !Cong(D * y * y + 1, 0, P)
  {
    hide Cong, Sound, Pow, PowMod;
    Associates(D, y, y);
    NoZeroDenominator(CURVE, y);
  }

  lemma {:induction false} NoZeroDenominator(c: Curve, y: int)
    requires Sound(c)
    ensures !Cong(c.d * (y * y) + 1, 0, c.p)
  {
    hide PowMod;
    var k, r := c.d * (y * y), PowMod(2, (c.p - 1) / 4, c.p);
    if Cong(k + 1, 0, c.p) {
      RootOfMinusOne(c.p);
      CongSub(k + 1, 0, 1, 1, c.p);
      NoRatio(c, r, y);
      ZeroTimes(c.p, y, y);
      ZeroTimes(c.p, c.d, y * y);
      UnitNotZero(c.p, -1);
      assert false;
    }
  }

  lemma {:induction false} GapFactors(d: int, x: int, y: int)
    ensures CurveGap(d, x, y) == (y * y - 1) - (x * x) * (d * y * y + 1)
  {
    Regroup(x, y, x, y);
    assert (x * x) * (d * y * y + 1) == d * ((x * x) * (y * y)) + x * x;
  }

  /** x is the abscissa of a curve point over y exactly when x^2 is the value RecoverX takes a root of. */
  lemma {:induction false} RootsAreAbscissas(x: int, y: int)
    requires Sound(CURVE)
    ensures Cong(CurveGap(D, x, y), 0, P) <==> Cong(x * x, XSquared(y), P)
  {
    var z := D * y * y + 1;
    DenominatorOfX(y);
    GapFactors(D, x, y);
    CongSubZero(y * y - 1, (x * x) * z, P);
    var r := x * x % P;
    ModIdem(x * x, P);
    Ratio(P, r, y * y - 1, z);
    CongMul(r, x * x, z, z, P);
    ModSmall(XSquared(y), P);
  }

  lemma {:induction false} RecoverSound(y: int, sign: int)
    requires Sound(CURVE) && 0 <= y && (sign == 0 || sign == 1) && RecoverX(y, sign).Some?
    ensures OnCurve(CURVE, Affine(RecoverX(y, sign).value, y))
  {
    RecoverRange(y, sign);
    RootsAreAbscissas(RecoverX(y, sign).value, y);
  }

  /** RecoverX finds every abscissa. */
  lemma {:induction false} RecoverComplete(a: Affine)
    requires Sound(CURVE) && OnCurve(CURVE, a)
    ensures RecoverX(a.y, a.x % 2) == Some(a.x)
  {
    var x2 := XSquared(a.y);
    RootsAreAbscissas(a.x, a.y);
    if x2 == 0 {
      ZeroRoot(P, a.x);
    } else {
      var x := CandidateX(x2);
      CandidateIsRoot(x2, a.x);
      ModSmall(0, P);
      CongSubZero(x * x, x2, P);
      SameUpToSign(x, a.x);
      if x == P - a.x {
        PFacts();
        FlipParity(P, x);
      }
    }
  }

  lemma {:induction false} ZeroRoot(p: nat, x: int)
    requires Prime(p) && 0 <= x < p && Cong(x * x, 0, p)
    ensures x == 0
  {
    Euclid(p, x, x);
    ModSmall(x, p);
    ModSmall(0, p);
  }

  /** The candidate is a root of every square. */
  lemma {:induction false} CandidateIsRoot(x2: int, r: int)
    requires Sound(CURVE) && Cong(r * r, x2, P)
    ensures Cong(CandidateX(x2) * CandidateX(x2), x2, P)
  {
    var c := PowMod(x2, (P + 3) / 8, P);
    CandidateRoot(P, x2, r);
    CongSubZero(c * c, x2, P);
    ModSmall(0, P);
    if !Cong(c * c, x2, P) {
      RotatedRoot(c, x2);
    }
  }

  lemma {:induction false} RotatedRoot(c: int, x2: int)
    requires Sound(CURVE) && Cong(c * c, -x2, P)
    ensures var x := c * SQRT_M1 % P; Cong(x * x, x2, P)
  {
    var i := SQRT_M1;
    var x := c * i % P;
    RootOfMinusOne(P);
    ModIdem(c * i, P);
    CongMul(x, c * i, x, c * i, P);
    Regroup(c, i, c, i);
    CongMul(c * c, -x2, i * i, -1, P);
    assert -x2 * -1 == x2;
  }

  lemma {:induction false} SameUpToSign(x: int, y: int)
    requires Sound(CURVE) && 0 <= x < P && 0 <= y < P && Cong(x * x, y * y, P)
    ensures x == y || x == P - y || (x == 0 && y == 0)
  {
    CongSubZero(x * x, y * y, P);
    assert x * x - y * y == (x - y) * (x + y);
    Euclid(P, x - y, x + y);
    CongSubZero(x, y, P);
    ModSmall(x, P);
    ModSmall(y, P);
    if Cong(x + y, 0, P) {
      SumOfResidues(P, x, y);
    }
  }

  lemma {:induction false} SumOfResidues(p: nat, x: int, y: int)
    requires 0 <= x < p && 0 <= y < p && Cong(x + y, 0, p)
    ensures x + y == 0 || x + y == p
  {
    ModSmall(0, p);
    if x + y < p {
      ModSmall(x + y, p);
    } else {
      DivModUnique(x + y, p, 1, x + y - p);
    }
  }

  // ---------------------------------------------------------------- the codec on points

  lemma {:induction false} CompressIsEncode(q: Point, a: Affine)
    requires Sound(CURVE) && OnCurve(CURVE, a) && Represents(q, a)
    ensures PointCompress(q) == Encode(a)
  {
    Unscale(P, q.X, a.x, q.Z);
    Unscale(P, q.Y, a.y, q.Z);
    PackPoint(q, a);
  }

  lemma {:induction false} Unscale(p: nat, n: int, r: int, z: int)
    requires Prime(p) && p > 2 && !Cong(z, 0, p) && Cong(n, r * z, p) && 0 <= r < p
    ensures n * PowMod(z, p - 2, p) % p == r
  {
    Ratio(p, r, n, z);
  }

  lemma {:induction false} EncodeParts(a: Affine)
    requires OnCurve(CURVE, a)
    ensures var n, m := FromBytes(Encode(a)), Pow(2, 255); m > 0 && n % m == a.y && n / m == a.x % 2
  {
    PFacts();
    EncodingBound();
    EncodedNumber(a.y, a.x % 2, Pow(2, 255));
  }

  lemma {:induction false} EncodedNumber(y: nat, b: nat, m: nat)
    requires y < m && b < 2 && Pow(256, 32) == 2 * m
    ensures b * m >= 0
    ensures var n := FromBytes(ToBytes(y + b * m, 32)); n % m == y && n / m == b
  {
    assert 0 <= b * m <= m;
    FromToBytes(y + b * m, 32);
    DivModUnique(y + b * m, m, b, y);
  }

  /** The affine point in the form PointDecompress returns. */
  function Normal(a: Affine): Point {
    Point(a.x, a.y, 1, a.x * a.y % P)
  }

  lemma {:induction false} NormalRepresents(a: Affine)
    ensures Represents(Normal(a), a)
  {
    UnitNotZero(P, 1);
    ModIdem(a.x * a.y, P);
    assert (a.x * a.y) * 1 == a.x * a.y;
  }

  lemma {:induction false} DecompressEncode(a: Affine)
    requires Sound(CURVE) && OnCurve(CURVE, a)
    ensures PointDecompress(Encode(a)) == Some(Normal(a))
  {
    EncodeParts(a);
    SplitEncoding(Encode(a));
    RecoverComplete(a);
  }

  /** The decoder accepts s just when s encodes a point of the curve, and returns that point. */
  lemma {:induction false} DecompressMeaning(s: seq<byte>)
    requires Sound(CURVE)
    ensures match PointDecompress(s)
      case Some(q) =>
        var a := Affine(q.X, q.Y); OnCurve(CURVE, a) && s == Encode(a) && q == Normal(a)
      case None => forall a :: OnCurve(CURVE, a) ==> s != Encode(a)
  {
    match PointDecompress(s)
    case Some(q) =>
      var n, m := FromBytes(s), Pow(2, 255);
      SplitEncoding(s);
      RecoverSound(n % m, n / m);
      var a := Affine(q.X, q.Y);
      NormalRepresents(a);
      CompressIsEncode(q, a);
      Canonical(s);
    case None =>
      forall a | OnCurve(CURVE, a)
        ensures s != Encode(a)
      {
        DecompressEncode(a);
      }
  }
}
