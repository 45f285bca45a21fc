/**
  Ed25519 signatures, section 5.1 of RFC 8032, as `_ed25519.py` computes them: extended
  coordinates, double-and-add, square-root recovery, the point codec, sign and verify.

  SHA-512 is a parameter.  Four facts about the constants are named assumptions: `PIsPrime`,
  `DIsNoSquare`, `AdditionIsAssociative` and `BaseHasOrderQ`.
 */
module Ed25519 {
  import opened Wrappers
  import opened NumberTheory
  import opened Bytes

  type Digest = s: seq<byte> | |s| == 64 witness seq(64, _ => 0)

  type Sha512 = seq<byte> -> Digest

  type Modulus = m: nat | m > 1000 witness 1001

  const P: Modulus := (PowerFacts(); Pow(2, 255) - 19)
  const Q: Modulus := (PowerFacts(); Pow(2, 252) + 27742317777372353535851937790883648493)
  const D: int := -121665 * PowMod(121666, P - 2, P) % P
  const SQRT_M1: int := PowMod(2, (P - 1) / 4, P)
  const G_Y: int := 4 * PowMod(5, P - 2, P) % P
  // The import of the module fails when the recovery does; BaseHasOrderQ rules that out.
  const G_X: int := match RecoverX(G_Y, 0) case Some(x) => x case None => 0
  const G: Point := Point(G_X, G_Y, 1, G_X * G_Y % P)

  /** A point (X : Y : Z : T) with x = X/Z, y = Y/Z and x y = T/Z. */
  datatype Point = Point(X: int, Y: int, Z: int, T: int)

  const ORIGIN := Point(0, 1, 1, 0)

  lemma {:induction false} Doublings(n: nat)
    ensures Pow(2, n + 1) == 2 * Pow(2, n) && Pow(2, n + 2) == 4 * Pow(2, n)
    ensures Pow(2, n + 3) == 8 * Pow(2, n) && Pow(2, n + 4) == 16 * Pow(2, n)
  {
  }

  lemma {:induction false} LargePower()
    ensures Pow(2, 128) == 0x1_0000_0000_0000_0000_0000_0000_0000_0000
  {
    PowMul(2, 4, 4);
    assert Pow(2, 4) == 16 && Pow(16, 4) == 0x10000;
    PowMul(2, 16, 8);
    assert Pow(0x10000, 8) == 0x1_0000_0000_0000_0000_0000_0000_0000_0000;
  }

  lemma {:induction false} PowerFacts()
    ensures Pow(2, 252) > 27742317777372353535851937790883648493 && Pow(2, 252) == 2 * Pow(2, 251)
    ensures Pow(2, 254) == 4 * Pow(2, 252) && Pow(2, 255) == 8 * Pow(2, 252) && Pow(2, 256) == 16 * Pow(2, 252)
  {
    Doublings(252);
    Doublings(251);
    LargePower();
    PowGrows(128, 252);
  }

  lemma {:induction false} PFacts()
    ensures P < Pow(2, 255) && P % 8 == 5
  {
    PowerFacts();
    DivModUnique(P, 8, Pow(2, 252) - 3, 5);
  }

  lemma {:induction false} QFacts()
    ensures Q % 2 == 1 && Pow(2, 255) < 8 * Q && Q < Pow(2, 256)
  {
    PowerFacts();
    DivModUnique(Q, 2, Pow(2, 251) + 13871158888686176767925968895441824246, 1);
  }

  // ---------------------------------------------------------------- the code

  function PointAdd(p1: Point, p2: Point): Point {
    var a := (p1.Y - p1.X) * (p2.Y - p2.X) % P;
    var b := (p1.Y + p1.X) * (p2.Y + p2.X) % P;
    var c := 2 * p1.T * p2.T * D % P;
    var dd := 2 * p1.Z * p2.Z % P;
    var e, f, g, h := b - a, dd - c, dd + c, b + a;
    Point(e * f % P, g * h % P, f * g % P, e * h % P)
  }

  /** The value the loop of PointMul computes from an accumulator and a running double. */
  function Ladder(q: Point, p1: Point, s: int): Point
    decreases s
  {
    if s <= 0 then q
    else Ladder(if s % 2 == 1 then PointAdd(q, p1) else q, PointAdd(p1, p1), s / 2)
  }

  method PointMul(s: int, p1: Point) returns (q: Point)
    ensures q == Ladder(ORIGIN, p1, s)
  {
    q := ORIGIN;
    var r, t := p1, s;
    while t > 0
      invariant Ladder(q, r, t) == Ladder(ORIGIN, p1, s)
    {
      if t % 2 == 1 {
        q := PointAdd(q, r);
      }
      r := PointAdd(r, r);
      t := t / 2;
    }
  }

  predicate PointEqual(p1: Point, p2: Point) {
    (p1.X * p2.Z - p2.X * p1.Z) % P == 0 && (p1.Y * p2.Z - p2.Y * p1.Z) % P == 0
  }

  /** (y^2 - 1) / (d y^2 + 1) modulo P, the square of x. */
  function XSquared(y: int): int {
    (y * y - 1) * PowMod(D * y * y + 1, P - 2, P) % P
  }

  /** x2^((P+3)/8), times the root of -1 when that is no root of x2. */
  function CandidateX(x2: int): (x: int)
    ensures 0 <= x < P
  {
    var c := PowMod(x2, (P + 3) / 8, P);
    if (c * c - x2) % P != 0 then c * SQRT_M1 % P else c
  }

  function RecoverX(y: int, sign: int): Option<int> {
    if y >= P then None
    else
      var x2 := XSquared(y);
      if x2 == 0 then if sign != 0 then None else Some(0)
      else
        var x := CandidateX(x2);
        if (x * x - x2) % P != 0 then None
        else if x % 2 != sign then Some(P - x)
        else Some(x)
  }

  function PointCompress(p1: Point): seq<byte> {
    PowPositive(2, 255);
    var zinv := PowMod(p1.Z, P - 2, P);
    var x := p1.X * zinv % P;
    var y := p1.Y * zinv % P;
    ToBytes(BitOr(y, x % 2 * Pow(2, 255)), 32)
  }

  function PointDecompress(s: seq<byte>): Option<Point> {
    if |s| != 32 then None
    else
      PowPositive(2, 255);
      var n := FromBytes(s);
      var sign, y := n / Pow(2, 255), BitAnd(n, Pow(2, 255) - 1);
      match RecoverX(y, sign)
      case None => None
      case Some(x) =>
        Some(Point(x, y, 1, x * y % P))
  }

  function Sha512ModQ(sha: Sha512, s: seq<byte>): nat {
    FromBytes(sha(s)) % Q
  }

  function SecretExpand(sha: Sha512, secret: seq<byte>): Result<(nat, seq<byte>)> {
    if |secret| != 32 then Raised
    else
      var h := sha(secret);
      PowGrows(3, 254);
      var a := BitAnd(FromBytes(h[..32]), Pow(2, 254) - 8);
      Ok((BitOr(a, Pow(2, 254)), h[32..]))
  }

  function PublicKey(sha: Sha512, seed: seq<byte>): Result<seq<byte>> {
    match SecretExpand(sha, seed)
    case Raised => Raised
    case Ok((a, _)) => Ok(PointCompress(Ladder(ORIGIN, G, a)))
  }

  function Sign(sha: Sha512, seed: seq<byte>, msg: seq<byte>): Result<seq<byte>> {
    match SecretExpand(sha, seed)
    case Raised => Raised
    case Ok((a, prefix)) =>
      var pub := PointCompress(Ladder(ORIGIN, G, a));
      var r := Sha512ModQ(sha, prefix + msg);
      var rs := PointCompress(Ladder(ORIGIN, G, r));
      var h := Sha512ModQ(sha, rs + pub + msg);
      var s := (r + h * a) % Q;
      Ok(rs + ToBytes(s, 32))
  }

  predicate Verify(sha: Sha512, pub: seq<byte>, msg: seq<byte>, signature: seq<byte>) {
    if |pub| != 32 || |signature| != 64 then false
    else
      match PointDecompress(pub)
      case None => false
      case Some(aPt) =>
        if PointEqual(Ladder(ORIGIN, aPt, 8), ORIGIN) then false
        else
          var rs := signature[..32];
          match PointDecompress(rs)
          case None => false
          case Some(rPt) =>
            var s := FromBytes(signature[32..]);
            if s >= Q then false
            else
              var h := Sha512ModQ(sha, rs + pub + msg);
              PointEqual(Ladder(ORIGIN, G, s), PointAdd(rPt, Ladder(ORIGIN, aPt, h)))
  }
}
