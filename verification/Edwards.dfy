/**
  The twisted Edwards curve -x^2 + y^2 = 1 + d x^2 y^2 over a prime field, in affine coordinates.

  Proved from two assumptions, that p is a prime 5 modulo 8 and that d is no square: the addition
  law never divides by zero, stays on the curve, is commutative and has (0, 1) as its neutral
  point.  Associativity is the named assumption `Associative`.
 */
module Edwards {
  import opened NumberTheory

  datatype Curve = Curve(p: nat, d: int)

  datatype Affine = Affine(x: int, y: int)

  const NEUTRAL := Affine(0, 1)

  ghost predicate IsRoot(u: int, v: int, p: nat)
    requires p > 0
  {
    Cong(u * u, v, p)
  }

  /** The two facts about the constants that the algebra rests on. */
  ghost predicate Sound(c: Curve) {
    Prime(c.p) && c.p % 8 == 5 && forall u :: !IsRoot(u, c.d, c.p)
  }

  ghost predicate OnCurve(c: Curve, a: Affine)
    requires c.p > 0
  {
    0 <= a.x < c.p && 0 <= a.y < c.p && Cong(CurveGap(c.d, a.x, a.y), 0, c.p)
  }

  /** Zero exactly on the curve. */
  function CurveGap(d: int, x: int, y: int): int {
    y * y - x * x - 1 - d * ((x * y) * (x * y))
  }

  /** d x1 x2 y1 y2, the term the two denominators share. */
  function Cross(c: Curve, a: Affine, b: Affine): int {
    c.d * ((a.x * a.y) * (b.x * b.y))
  }

  function Add(c: Curve, a: Affine, b: Affine): Affine
    requires c.p > 2
  {
    var k := Cross(c, a, b);
    Affine((a.x * b.y + b.x * a.y) * PowMod(1 + k, c.p - 2, c.p) % c.p,
           (a.y * b.y + a.x * b.x) * PowMod(1 - k, c.p - 2, c.p) % c.p)
  }

  /** s-fold repeated addition. */
  function Times(c: Curve, s: nat, a: Affine): Affine
    requires c.p > 2
  {
    if s == 0 then NEUTRAL else Add(c, Times(c, s - 1, a), a)
  }

  ghost predicate Associative(c: Curve)
    requires c.p > 2
  {
    forall a, b, e :: AssociativeAt(c, a, b, e)
  }

  ghost predicate AssociativeAt(c: Curve, a: Affine, b: Affine, e: Affine)
    requires c.p > 2
  {
    OnCurve(c, a) && OnCurve(c, b) && OnCurve(c, e) ==> Add(c, Add(c, a, b), e) == Add(c, a, Add(c, b, e))
  }

  // ---------------------------------------------------------------- combinations of zeros

  lemma {:induction false} ZeroTimes(p: nat, f: int, h: int)
    requires p > 0 && Cong(h, 0, p)
    ensures Cong(f * h, 0, p) && Cong(h * f, 0, p)
  {
    CongMul(f, f, h, 0, p);
  }

  lemma {:induction false} ZeroPlus(p: nat, g: int, h: int)
    requires p > 0 && Cong(g, 0, p) && Cong(h, 0, p)
    ensures Cong(g + h, 0, p) && Cong(g - h, 0, p)
  {
    CongAdd(g, 0, h, 0, p);
    CongSub(g, 0, h, 0, p);
  }

  // ---------------------------------------------------------------- completeness

  /** (y + e i x)^2 in terms of the curve equation, when e^2 = 1. */
  lemma {:induction false} SquareOfSum(d: int, x: int, y: int, i: int, e: int)
    requires e * e == 1
    ensures (y + e * i * x) * (y + e * i * x)
         == CurveGap(d, x, y) + 1 + d * ((x * y) * (x * y)) + 2 * e * i * (x * y) + (i * i + 1) * (x * x)
  {
    var m := x * y;
    calc {
      (y + e * i * x) * (y + e * i * x);
      y * y + 2 * (e * i * x) * y + (e * i * x) * (e * i * x);
      { assert (e * i * x) * (e * i * x) == (e * e) * (i * i) * (x * x); }
      y * y + 2 * (e * i * x) * y + (i * i) * (x * x);
      { assert (e * i * x) * y == e * i * m; }
      y * y + 2 * (e * i * m) + (i * i) * (x * x);
    }
    assert (i * i + 1) * (x * x) == (i * i) * (x * x) + x * x;
    assert 2 * e * i * m == 2 * (e * i * m);
  }

  /** The terms of U^2 - d m1^2 V^2 regrouped by the four quantities that vanish. */
  lemma {:induction false} GroupZeros(g1: int, g2: int, d: int, m1: int, m2: int, hi: int, s1: int, s2: int, i: int,
                                      e: int)
    requires e * e == 1
    ensures var k := d * (m1 * m2);
      (g1 + 1 + d * (m1 * m1) + 2 * e * i * m1 + hi * s1)
      - d * (m1 * m1) * (g2 + 1 + d * (m2 * m2) + 2 * 1 * i * m2 + hi * s2)
      == g1 - d * (m1 * m1) * g2 + hi * (s1 - d * (m1 * m1) * s2) - (k - e) * (k + e + 2 * (i * m1))
  {
    var k, w, im := d * (m1 * m2), d * (m1 * m1), i * m1;
    ScaledSquare(d, m1, m2, g2, hi * s2, i);
    TwoRoots(k, e, im);
    assert 2 * e * i * m1 == 2 * (e * im);
    TakenOut(hi, s1, w, s2);
  }

  lemma {:induction false} TwoRoots(k: int, e: int, im: int)
    ensures (k - e) * (k + e + 2 * im) == k * k - e * e + 2 * (im * k) - 2 * (e * im)
  {
  }

  lemma {:induction false} TakenOut(hi: int, s1: int, w: int, s2: int)
    ensures hi * (s1 - w * s2) == hi * s1 - w * (hi * s2)
  {
  }

  lemma {:induction false} ScaledSquare(d: int, m1: int, m2: int, g2: int, hs: int, i: int)
    ensures var k, w := d * (m1 * m2), d * (m1 * m1);
      w * (g2 + 1 + d * (m2 * m2) + 2 * 1 * i * m2 + hs) == w * g2 + w + k * k + 2 * ((i * m1) * k) + w * hs
  {
    var k, w := d * (m1 * m2), d * (m1 * m1);
    Distribute5(w, g2, d * (m2 * m2), i * m2, hs);
    assert w * (d * (m2 * m2)) == k * k;
    assert w * (i * m2) == (i * m1) * k;
    assert 2 * 1 * i * m2 == 2 * (i * m2);
  }

  lemma {:induction false} Distribute5(w: int, a: int, b: int, c: int, e: int)
    ensures w * (a + 1 + b + 2 * c + e) == w * a + w + w * b + 2 * (w * c) + w * e
  {
  }

  /** If the shared term were 1 or -1, then U^2 = d (m1 V)^2. */
  lemma {:induction false} RatioIsSquare(c: Curve, a: Affine, b: Affine, i: int, e: int)
    requires c.p > 0 && OnCurve(c, a) && OnCurve(c, b)
    requires Cong(i * i, -1, c.p) && e * e == 1 && Cong(Cross(c, a, b), e, c.p)
    ensures var v := (a.x * a.y) * (b.y + i * b.x);
      Cong((a.y + e * i * a.x) * (a.y + e * i * a.x), c.d * (v * v), c.p)
  {
    var p, d, m1, m2 := c.p, c.d, a.x * a.y, b.x * b.y;
    var u, v := a.y + e * i * a.x, m1 * (b.y + i * b.x);
    var w, k := d * (m1 * m1), Cross(c, a, b);
    RatioGap(d, a.x, a.y, b.x, b.y, i, e);
    CongSubZero(i * i, -1, p);
    CongSubZero(k, e, p);
    VanishingSum(p, CurveGap(d, a.x, a.y), w, CurveGap(d, b.x, b.y), i * i + 1, a.x * a.x - w * (b.x * b.x),
                 k - e, k + e + 2 * (i * m1));
    CongSubZero(u * u, d * (v * v), p);
  }

  lemma {:induction false} RatioGap(d: int, x1: int, y1: int, x2: int, y2: int, i: int, e: int)
    requires e * e == 1
    ensures var m1, m2 := x1 * y1, x2 * y2;
      var u, v, w, k := y1 + e * i * x1, m1 * (y2 + i * x2), d * (m1 * m1), d * (m1 * m2);
      u * u - d * (v * v) == CurveGap(d, x1, y1) - w * CurveGap(d, x2, y2) + (i * i + 1) * (x1 * x1 - w * (x2 * x2))
                             - (k - e) * (k + e + 2 * (i * m1))
  {
    var m1, m2, t := x1 * y1, x2 * y2, y2 + i * x2;
    SquareOfSum(d, x1, y1, i, e);
    assert t * t == (y2 + 1 * i * x2) * (y2 + 1 * i * x2);
    SquareOfSum(d, x2, y2, i, 1);
    GroupZeros(CurveGap(d, x1, y1), CurveGap(d, x2, y2), d, m1, m2, i * i + 1, x1 * x1, x2 * x2, i, e);
    assert d * ((m1 * t) * (m1 * t)) == d * (m1 * m1) * (t * t) by {
      Regroup(m1, t, m1, t);
    }
  }

  lemma {:induction false} VanishingSum(p: nat, g1: int, w: int, g2: int, h: int, s: int, r: int, t: int)
    requires p > 0 && Cong(g1, 0, p) && Cong(g2, 0, p) && Cong(h, 0, p) && Cong(r, 0, p)
    ensures Cong(g1 - w * g2 + h * s - r * t, 0, p)
  {
    ZeroTimes(p, w, g2);
    ZeroTimes(p, s, h);
    ZeroTimes(p, t, r);
    ZeroPlus(p, g1, w * g2);
    ZeroPlus(p, g1 - w * g2, h * s);
    ZeroPlus(p, g1 - w * g2 + h * s, r * t);
  }

  /** u^2 = d v^2 with v invertible makes d a square. */
  lemma {:induction false} RatioIsRoot(p: nat, d: int, u: int, v: int) returns (r: int)
    requires Prime(p) && Cong(u * u, d * (v * v), p) && !Cong(v, 0, p)
    ensures IsRoot(r, d, p)
  {
    var w := PowMod(v, p - 2, p);
    Inverse(p, v);
    r := u * w;
    var o := v * w;
    assert r * r == (u * u) * (w * w) by {
      Regroup(u, w, u, w);
    }
    CongMul(u * u, d * (v * v), w * w, w * w, p);
    assert (d * (v * v)) * (w * w) == d * (o * o) by {
      Regroup(v, v, w, w);
    }
    CongMul(o, 1, o, 1, p);
    CongMul(d, d, o * o, 1, p);
  }

  lemma {:induction false} NoRatio(c: Curve, u: int, v: int)
    requires Sound(c) && Cong(u * u, c.d * (v * v), c.p)
    ensures Cong(v, 0, c.p)
  {
    if !Cong(v, 0, c.p) {
      var r := RatioIsRoot(c.p, c.d, u, v);
      assert false;
    }
  }

  lemma {:induction false} CrossOfUnit(c: Curve, a: Affine, b: Affine, i: int, e: int)
    requires Sound(c) && OnCurve(c, a) && OnCurve(c, b) && e * e == 1
    requires Cong(i * i, -1, c.p) && Cong(Cross(c, a, b), e, c.p)
    ensures Cong((a.x * a.y) * (b.y + i * b.x), 0, c.p)
  {
    RatioIsSquare(c, a, b, i, e);
    NoRatio(c, a.y + e * i * a.x, (a.x * a.y) * (b.y + i * b.x));
  }

  lemma {:induction false} CrossNotUnit(c: Curve, a: Affine, b: Affine, e: int)
    requires Sound(c) && OnCurve(c, a) && OnCurve(c, b) && (e == 1 || e == -1)
    ensures !Cong(Cross(c, a, b), e, c.p)
  {
    hide OnCurve, PowMod, Cong;
    var p, m1, m2 := c.p, a.x * a.y, b.x * b.y;
    if Cong(Cross(c, a, b), e, p) {
      RootOfMinusOne(p);
      var i := PowMod(2, (p - 1) / 4, p);
      CrossOfUnit(c, a, b, i, e);
      assert (-i) * (-i) == i * i;
      CrossOfUnit(c, a, b, -i, e);
      OneFactorVanishes(p, m1, b.y + i * b.x, b.y + -i * b.x, b.x, b.y, i);
      CrossVanishes(p, c.d, m1, m2);
      NotBoth(Cross(c, a, b), e, p);
      assert false;
    }
  }

  lemma {:induction false} NotBoth(x: int, e: int, p: nat)
    requires p > 2 && (e == 1 || e == -1) && Cong(x, e, p)
    ensures !Cong(x, 0, p)
  {
    UnitNotZero(p, e);
  }

  lemma {:induction false} CrossVanishes(p: nat, d: int, m1: int, m2: int)
    requires p > 0 && (Cong(m1, 0, p) || Cong(m2, 0, p))
    ensures Cong(d * (m1 * m2), 0, p)
  {
    if Cong(m1, 0, p) {
      ZeroTimes(p, m2, m1);
    } else {
      ZeroTimes(p, m1, m2);
    }
    ZeroTimes(p, d, m1 * m2);
  }

  lemma {:induction false} UnitNotZero(p: nat, e: int)
    requires p > 2 && (e == 1 || e == -1)
    ensures !Cong(e, 0, p)
  {
    ModSmall(0, p);
    if e == 1 {
      ModSmall(1, p);
    } else {
      ModSmall(p - 1, p);
      ModShift(-1, 1, p);
    }
  }

  lemma {:induction false} OneFactorVanishes(p: nat, m1: int, v: int, v': int, x: int, y: int, i: int)
    requires Prime(p) && p > 2 && v == y + i * x && v' == y + -i * x
    requires Cong(m1 * v, 0, p) && Cong(m1 * v', 0, p)
    ensures Cong(m1, 0, p) || Cong(x * y, 0, p)
  {
    Euclid(p, m1, v);
    Euclid(p, m1, v');
    if !Cong(m1, 0, p) {
      ZeroPlus(p, v, v');
      assert v + v' == 2 * y;
      ModSmall(2, p);
      ModSmall(0, p);
      Euclid(p, 2, y);
      ZeroTimes(p, x, y);
    }
  }

  /** Neither denominator of the addition law vanishes. */
  lemma {:induction false} Complete(c: Curve, a: Affine, b: Affine)
    requires Sound(c) && OnCurve(c, a) && OnCurve(c, b)
    ensures !Cong(1 + Cross(c, a, b), 0, c.p) && !Cong(1 - Cross(c, a, b), 0, c.p)
  {
    var k := Cross(c, a, b);
    CrossNotUnit(c, a, b, 1);
    CrossNotUnit(c, a, b, -1);
    if Cong(1 + k, 0, c.p) {
      CongSub(1 + k, 0, 1, 1, c.p);
    }
    if Cong(1 - k, 0, c.p) {
      CongSub(1, 1, 1 - k, 0, c.p);
    }
  }

  // ---------------------------------------------------------------- the addition law

  /** The sum is the one reduced pair that satisfies the two cross-multiplied equations. */
  lemma {:induction false} AddIsRatio(c: Curve, a: Affine, b: Affine, r: Affine)
    requires Sound(c) && OnCurve(c, a) && OnCurve(c, b)
    requires 0 <= r.x < c.p && 0 <= r.y < c.p
    ensures r == Add(c, a, b) <==>
      && Cong(r.x * (1 + Cross(c, a, b)), a.x * b.y + b.x * a.y, c.p)
      && Cong(r.y * (1 - Cross(c, a, b)), a.y * b.y + a.x * b.x, c.p)
  {
    var k := Cross(c, a, b);
    Complete(c, a, b);
    Ratio(c.p, r.x, a.x * b.y + b.x * a.y, 1 + k);
    Ratio(c.p, r.y, a.y * b.y + a.x * b.x, 1 - k);
  }

  /** Division by z is multiplication by `pow(z, p-2, p)`. */
  lemma {:induction false} Ratio(p: nat, r: int, n: int, z: int)
    requires Prime(p) && p > 2 && !Cong(z, 0, p) && 0 <= r < p
    ensures r == n * PowMod(z, p - 2, p) % p <==> Cong(r * z, n, p)
  {
    var w := PowMod(z, p - 2, p);
    Inverse(p, z);
    assert Cong((n * w % p) * z, n, p) by {
      ModIdem(n * w, p);
      CongMul(n * w % p, n * w, z, z, p);
      assert (n * w) * z == n * (z * w);
      CongMul(n, n, z * w, 1, p);
    }
    if Cong(r * z, n, p) {
      Cancel(p, r, n * w % p, z);
      ModSmall(r, p);
      ModSmall(n * w % p, p);
    }
  }

  lemma {:induction false} AddInField(c: Curve, a: Affine, b: Affine)
    requires c.p > 2
    ensures var r := Add(c, a, b); 0 <= r.x < c.p && 0 <= r.y < c.p
  {
  }

  lemma {:induction false} Commutes(c: Curve, a: Affine, b: Affine)
    requires c.p > 2
    ensures Add(c, a, b) == Add(c, b, a)
  {
    assert (a.x * a.y) * (b.x * b.y) == (b.x * b.y) * (a.x * a.y);
    assert a.y * b.y == b.y * a.y && a.x * b.x == b.x * a.x;
  }

  lemma {:induction false} NeutralOnCurve(c: Curve)
    requires c.p > 2
    ensures OnCurve(c, NEUTRAL)
  {
    assert CurveGap(c.d, 0, 1) == 0;
  }

  lemma {:induction false} NeutralIsNeutral(c: Curve, a: Affine)
    requires Sound(c) && OnCurve(c, a)
    ensures Add(c, NEUTRAL, a) == a == Add(c, a, NEUTRAL)
  {
    NeutralOnCurve(c);
    assert Cross(c, NEUTRAL, a) == 0 by {
      assert (NEUTRAL.x * NEUTRAL.y) * (a.x * a.y) == 0;
    }
    AddIsRatio(c, NEUTRAL, a, a);
    Commutes(c, NEUTRAL, a);
  }

  // ---------------------------------------------------------------- closure

  lemma {:induction false} NumeratorNorms(x1: int, y1: int, x2: int, y2: int)
    ensures var n1, n2 := x1 * y2 + x2 * y1, y1 * y2 + x1 * x2;
      var s1, s2 := x1 * x1 + y1 * y1, x2 * x2 + y2 * y2;
      && n2 * n2 - n1 * n1 == (y1 * y1 - x1 * x1) * (y2 * y2 - x2 * x2)
      && n1 * n1 + n2 * n2 == s1 * s2 + 4 * ((x1 * y1) * (x2 * y2))
      && n1 * n2 == (x1 * y1) * s2 + (x2 * y2) * s1
  {
    DifferenceOfNorms(x1, y1, x2, y2);
    SumOfNorms(x1, y1, x2, y2);
    ProductOfNumerators(x1, y1, x2, y2);
  }

  lemma {:induction false} DifferenceOfNorms(x1: int, y1: int, x2: int, y2: int)
    ensures var n1, n2 := x1 * y2 + x2 * y1, y1 * y2 + x1 * x2;
      n2 * n2 - n1 * n1 == (y1 * y1 - x1 * x1) * (y2 * y2 - x2 * x2)
  {
  }

  lemma {:induction false} SumOfNorms(x1: int, y1: int, x2: int, y2: int)
    ensures var n1, n2 := x1 * y2 + x2 * y1, y1 * y2 + x1 * x2;
      n1 * n1 + n2 * n2 == (x1 * x1 + y1 * y1) * (x2 * x2 + y2 * y2) + 4 * ((x1 * y1) * (x2 * y2))
  {
  }

  lemma {:induction false} ProductOfNumerators(x1: int, y1: int, x2: int, y2: int)
    ensures (x1 * y2 + x2 * y1) * (y1 * y2 + x1 * x2)
         == (x1 * y1) * (x2 * x2 + y2 * y2) + (x2 * y2) * (x1 * x1 + y1 * y1)
  {
  }

  lemma {:induction false} SquaredNorm(x: int, y: int)
    ensures var s, b, m := x * x + y * y, y * y - x * x, x * y;
      s * s == b * b + 4 * (m * m)
  {
  }

  lemma {:induction false} SquareOfBinomial(a: int, b: int)
    ensures (a + b) * (a + b) == a * a + 2 * (a * b) + b * b
    ensures (a - b) * (a - b) == a * a - 2 * (a * b) + b * b
  {
  }

  /** What is left of the sum's curve equation, in b_i = y_i^2 - x_i^2 and c_i = d x_i^2 y_i^2. */
  function SumGap(b1: int, b2: int, c1: int, c2: int): int {
    (b1 * b2) * (1 + c1 * c2) - (1 - c1 * c2) * (1 - c1 * c2) - c1 * (b2 * b2) - c2 * (b1 * b1)
  }

  lemma {:induction false} SumGapVanishes(c1: int, c2: int)
    ensures SumGap(1 + c1, 1 + c2, c1, c2) == 0
  {
    var q := c1 * c2;
    var p := (1 + c1) * (1 + c2);
    assert p == 1 + c1 + c2 + q by {
      Distribute(1, c1, 1 + c2);
    }
    assert p * (1 + q) == p + q + q * c1 + q * c2 + q * q by {
      FourTimes(c1, c2, q);
    }
    assert (1 - q) * (1 - q) == 1 - 2 * q + q * q;
    ShiftedSquare(c1, c2);
    ShiftedSquare(c2, c1);
  }

  lemma {:induction false} FourTimes(c1: int, c2: int, q: int)
    ensures (1 + c1 + c2 + q) * (1 + q) == 1 + c1 + c2 + q + q + q * c1 + q * c2 + q * q
  {
    Distribute(1 + c1 + c2, q, 1 + q);
  }

  lemma {:induction false} ShiftedSquare(a: int, b: int)
    ensures a * ((1 + b) * (1 + b)) == a + 2 * (a * b) + (a * b) * b
  {
  }

  lemma {:induction false} SumGapCong(p: nat, b1: int, b2: int, b1': int, b2': int, c1: int, c2: int)
    requires p > 0 && Cong(b1, b1', p) && Cong(b2, b2', p)
    ensures Cong(SumGap(b1, b2, c1, c2), SumGap(b1', b2', c1, c2), p)
  {
    var w, z := 1 + c1 * c2, (1 - c1 * c2) * (1 - c1 * c2);
    CongMul(b1, b1', b2, b2', p);
    CongMul(b1 * b2, b1' * b2', w, w, p);
    CongMul(b1, b1', b1, b1', p);
    CongMul(b2, b2', b2, b2', p);
    CongMul(c1, c1, b2 * b2, b2' * b2', p);
    CongMul(c2, c2, b1 * b1, b1' * b1', p);
    CongSub((b1 * b2) * w, (b1' * b2') * w, z, z, p);
    CongSub((b1 * b2) * w - z, (b1' * b2') * w - z, c1 * (b2 * b2), c1 * (b2' * b2'), p);
    CongSub((b1 * b2) * w - z - c1 * (b2 * b2), (b1' * b2') * w - z - c1 * (b2' * b2'),
            c2 * (b1 * b1), c2 * (b1' * b1'), p);
  }

  /** The curve equation of the sum, multiplied out, is SumGap. */
  lemma {:induction false} ClearedEquation(d: int, x1: int, y1: int, x2: int, y2: int)
    ensures var m1, m2 := x1 * y1, x2 * y2;
      var n1, n2, k := x1 * y2 + x2 * y1, y1 * y2 + x1 * x2, d * (m1 * m2);
      (n2 * n2) * ((1 + k) * (1 + k)) - (n1 * n1) * ((1 - k) * (1 - k))
        - (1 - k * k) * (1 - k * k) - d * ((n1 * n2) * (n1 * n2))
      == SumGap(y1 * y1 - x1 * x1, y2 * y2 - x2 * x2, d * (m1 * m1), d * (m2 * m2))
  {
    var m1, m2 := x1 * y1, x2 * y2;
    var n1, n2, k := x1 * y2 + x2 * y1, y1 * y2 + x1 * x2, d * (m1 * m2);
    var b1, b2, s1, s2 := y1 * y1 - x1 * x1, y2 * y2 - x2 * x2, x1 * x1 + y1 * y1, x2 * x2 + y2 * y2;
    NumeratorNorms(x1, y1, x2, y2);
    SquaredNorm(x1, y1);
    SquaredNorm(x2, y2);
    SplitByK(n1 * n1, n2 * n2, k);
    CrossTerms(d, m1, m2, s1, s2, b1, b2);
    SquareOfCross(d, m1, m2);
    Assemble(b1 * b2, k * k, (d * (m1 * m1)) * (d * (m2 * m2)), 2 * k * (s1 * s2 + 4 * (m1 * m2)),
             d * ((n1 * n2) * (n1 * n2)), (d * (m1 * m1)) * (b2 * b2), (d * (m2 * m2)) * (b1 * b1));
  }

  lemma {:induction false} SquareOfCross(d: int, m1: int, m2: int)
    ensures (d * (m1 * m2)) * (d * (m1 * m2)) == (d * (m1 * m1)) * (d * (m2 * m2))
  {
    Regroup(d, m1 * m2, d, m1 * m2);
    Regroup(d, m1 * m1, d, m2 * m2);
    Regroup(m1, m2, m1, m2);
  }

  lemma {:induction false} Assemble(b: int, kk: int, q: int, ks: int, r: int, s: int, t: int)
    requires kk == q && ks - r == -s - t
    ensures b * (1 + kk) + ks - (1 - kk) * (1 - kk) - r == b * (1 + q) - (1 - q) * (1 - q) - s - t
  {
  }

  lemma {:induction false} SplitByK(u: int, v: int, k: int)
    ensures v * ((1 + k) * (1 + k)) - u * ((1 - k) * (1 - k)) == (v - u) * (1 + k * k) + 2 * k * (u + v)
  {
    SquareOfBinomial(1, k);
    Distribute(1 + k * k, 2 * k, v);
    Distribute(1 + k * k, 2 * k, u);
    Distribute(v, u, 1 + k * k);
    Distribute(u, v, 2 * k);
  }

  lemma {:induction false} CrossTerms(d: int, m1: int, m2: int, s1: int, s2: int, b1: int, b2: int)
    requires s1 * s1 == b1 * b1 + 4 * (m1 * m1) && s2 * s2 == b2 * b2 + 4 * (m2 * m2)
    ensures var k, n := d * (m1 * m2), m1 * s2 + m2 * s1;
      2 * k * (s1 * s2 + 4 * (m1 * m2)) - d * (n * n) == -(d * (m1 * m1)) * (b2 * b2) - (d * (m2 * m2)) * (b1 * b1)
  {
    var k, n := d * (m1 * m2), m1 * s2 + m2 * s1;
    var u, v, t, q := (m1 * m1) * (b2 * b2), (m2 * m2) * (b1 * b1), (m1 * m2) * (s1 * s2), (m1 * m1) * (m2 * m2);
    SquareOfNumerators(m1, m2, s1, s2, b1, b2);
    ScaledSum(d, u, v, t, q);
    assert k * (s1 * s2 + 4 * (m1 * m2)) == d * t + 4 * (d * q) by {
      ScaledProduct(d, m1, m2, s1 * s2);
    }
    Associates(d, m1 * m1, b2 * b2);
    Associates(d, m2 * m2, b1 * b1);
    assert d * (n * n) == d * u + d * v + 2 * (d * t) + 8 * (d * q);
    assert 2 * k * (s1 * s2 + 4 * (m1 * m2)) == 2 * (k * (s1 * s2 + 4 * (m1 * m2)));
    assert -(d * (m1 * m1)) * (b2 * b2) == -(d * u);
  }

  lemma {:induction false} Associates(a: int, b: int, c: int)
    ensures (a * b) * c == a * (b * c)
  {
  }

  lemma {:induction false} ScaledSum(d: int, u: int, v: int, t: int, q: int)
    ensures d * (u + v + 2 * t + 8 * q) == d * u + d * v + 2 * (d * t) + 8 * (d * q)
  {
  }

  lemma {:induction false} ScaledProduct(d: int, m1: int, m2: int, s: int)
    ensures (d * (m1 * m2)) * (s + 4 * (m1 * m2)) == d * ((m1 * m2) * s) + 4 * (d * ((m1 * m1) * (m2 * m2)))
  {
    var m := m1 * m2;
    Regroup(m1, m2, m1, m2);
    Distribute(s, 4 * m, d * m);
    Associates(d, m, s);
    Associates(d, m, m);
  }

  lemma {:induction false} SquareOfNumerators(m1: int, m2: int, s1: int, s2: int, b1: int, b2: int)
    requires s1 * s1 == b1 * b1 + 4 * (m1 * m1) && s2 * s2 == b2 * b2 + 4 * (m2 * m2)
    ensures (m1 * s2 + m2 * s1) * (m1 * s2 + m2 * s1)
         == (m1 * m1) * (b2 * b2) + (m2 * m2) * (b1 * b1) + 2 * ((m1 * m2) * (s1 * s2)) + 8 * ((m1 * m1) * (m2 * m2))
  {
    SquareOfBinomial(m1 * s2, m2 * s1);
    Regroup(m1, s2, m1, s2);
    Regroup(m2, s1, m2, s1);
    Regroup(m1, s2, m2, s1);
    Distribute(b2 * b2, 4 * (m2 * m2), m1 * m1);
    Distribute(b1 * b1, 4 * (m1 * m1), m2 * m2);
  }

  /** The left side of ClearedEquation for numerators n1, n2. */
  function Cleared(d: int, n1: int, n2: int, k: int): int {
    (n2 * n2) * ((1 + k) * (1 + k)) - (n1 * n1) * ((1 - k) * (1 - k))
    - (1 - k * k) * (1 - k * k) - d * ((n1 * n2) * (n1 * n2))
  }

  lemma {:induction false} ScaledGap(d: int, x: int, y: int, k: int)
    ensures CurveGap(d, x, y) * ((1 - k * k) * (1 - k * k)) == Cleared(d, x * (1 + k), y * (1 - k), k)
  {
    var u, v := 1 + k, 1 - k;
    var z := (u * u) * (v * v);
    assert u * v == 1 - k * k;
    assert (1 - k * k) * (1 - k * k) == z by {
      Regroup(u, v, u, v);
    }
    assert (y * y) * z == ((y * v) * (y * v)) * (u * u) by {
      Regroup(y, v, y, v);
    }
    assert (x * x) * z == ((x * u) * (x * u)) * (v * v) by {
      Regroup(x, u, x, u);
    }
    assert (d * ((x * y) * (x * y))) * z == d * (((x * u) * (y * v)) * ((x * u) * (y * v))) by {
      Regroup(x, u, y, v);
      Regroup(x * y, u * v, x * y, u * v);
    }
    Distribute4(y * y, x * x, d * ((x * y) * (x * y)), z);
  }

  lemma {:induction false} Distribute4(a: int, b: int, e: int, z: int)
    ensures (a - b - 1 - e) * z == a * z - b * z - z - e * z
  {
  }

  lemma {:induction false} ClearedCong(p: nat, d: int, n1: int, n2: int, n1': int, n2': int, k: int)
    requires p > 0 && Cong(n1, n1', p) && Cong(n2, n2', p)
    ensures Cong(Cleared(d, n1, n2, k), Cleared(d, n1', n2', k), p)
  {
    var u, v, z := (1 + k) * (1 + k), (1 - k) * (1 - k), (1 - k * k) * (1 - k * k);
    CongMul(n1, n1', n1, n1', p);
    CongMul(n2, n2', n2, n2', p);
    CongMul(n1, n1', n2, n2', p);
    CongMul(n1 * n2, n1' * n2', n1 * n2, n1' * n2', p);
    CongMul(n2 * n2, n2' * n2', u, u, p);
    CongMul(n1 * n1, n1' * n1', v, v, p);
    CongMul(d, d, (n1 * n2) * (n1 * n2), (n1' * n2') * (n1' * n2'), p);
    CongSub((n2 * n2) * u, (n2' * n2') * u, (n1 * n1) * v, (n1' * n1') * v, p);
    CongSub((n2 * n2) * u - (n1 * n1) * v, (n2' * n2') * u - (n1' * n1') * v, z, z, p);
    CongSub((n2 * n2) * u - (n1 * n1) * v - z, (n2' * n2') * u - (n1' * n1') * v - z,
            d * ((n1 * n2) * (n1 * n2)), d * ((n1' * n2') * (n1' * n2')), p);
  }

  lemma {:induction false} NormOnCurve(c: Curve, a: Affine)
    requires c.p > 0 && OnCurve(c, a)
    ensures Cong(a.y * a.y - a.x * a.x, 1 + c.d * ((a.x * a.y) * (a.x * a.y)), c.p)
  {
    CongSubZero(a.y * a.y - a.x * a.x, 1 + c.d * ((a.x * a.y) * (a.x * a.y)), c.p);
  }

  lemma {:induction false} NumeratorsVanish(c: Curve, a: Affine, b: Affine)
    requires c.p > 0 && OnCurve(c, a) && OnCurve(c, b)
    ensures Cong(Cleared(c.d, a.x * b.y + b.x * a.y, a.y * b.y + a.x * b.x, Cross(c, a, b)), 0, c.p)
  {
    var c1, c2 := c.d * ((a.x * a.y) * (a.x * a.y)), c.d * ((b.x * b.y) * (b.x * b.y));
    ClearedEquation(c.d, a.x, a.y, b.x, b.y);
    NormOnCurve(c, a);
    NormOnCurve(c, b);
    SumGapCong(c.p, a.y * a.y - a.x * a.x, b.y * b.y - b.x * b.x, 1 + c1, 1 + c2, c1, c2);
    SumGapVanishes(c1, c2);
  }

  /** The sum of two points of the curve is a point of the curve. */
  lemma {:induction false} Closed(c: Curve, a: Affine, b: Affine)
    requires Sound(c) && OnCurve(c, a) && OnCurve(c, b)
    ensures OnCurve(c, Add(c, a, b))
  {
    var p, r, k := c.p, Add(c, a, b), Cross(c, a, b);
    var g := CurveGap(c.d, r.x, r.y);
    AddInField(c, a, b);
    AddIsRatio(c, a, b, r);
    NumeratorsVanish(c, a, b);
    ClearedCong(p, c.d, r.x * (1 + k), r.y * (1 - k), a.x * b.y + b.x * a.y, a.y * b.y + a.x * b.x, k);
    ScaledGap(c.d, r.x, r.y, k);
    Complete(c, a, b);
    CancelSquare(p, g, k);
  }

  lemma {:induction false} CancelSquare(p: nat, g: int, k: int)
    requires Prime(p) && !Cong(1 + k, 0, p) && !Cong(1 - k, 0, p)
    requires Cong(g * ((1 - k * k) * (1 - k * k)), 0, p)
    ensures Cong(g, 0, p)
  {
    var z := 1 - k * k;
    assert z == (1 + k) * (1 - k);
    if Cong(z, 0, p) {
      Euclid(p, 1 + k, 1 - k);
      assert false;
    }
    Euclid(p, g, z * z);
    if !Cong(g, 0, p) {
      Euclid(p, z, z);
      assert false;
    }
  }

  // ---------------------------------------------------------------- scalar multiples

  lemma {:induction false} TimesOnCurve(c: Curve, s: nat, a: Affine)
    requires Sound(c) && OnCurve(c, a)
    ensures OnCurve(c, Times(c, s, a))
  {
    NeutralOnCurve(c);
    if s > 0 {
      TimesOnCurve(c, s - 1, a);
      Closed(c, Times(c, s - 1, a), a);
    }
  }

  lemma {:induction false} TimesAdd(c: Curve, s: nat, t: nat, a: Affine)
    requires Sound(c) && Associative(c) && OnCurve(c, a)
    ensures Times(c, s + t, a) == Add(c, Times(c, s, a), Times(c, t, a))
  {
    TimesOnCurve(c, s, a);
    if t == 0 {
      NeutralIsNeutral(c, Times(c, s, a));
    } else {
      TimesAdd(c, s, t - 1, a);
      TimesOnCurve(c, t - 1, a);
      assert AssociativeAt(c, Times(c, s, a), Times(c, t - 1, a), a);
    }
  }

  lemma {:induction false} TimesTimes(c: Curve, s: nat, t: nat, a: Affine)
    requires Sound(c) && Associative(c) && OnCurve(c, a)
    ensures s * t >= 0 && Times(c, s, Times(c, t, a)) == Times(c, s * t, a)
  {
    if s == 0 {
      assert s * t == 0;
    } else {
      TimesTimes(c, s - 1, t, a);
      assert s * t == (s - 1) * t + t;
      TimesAdd(c, (s - 1) * t, t, a);
    }
  }

  /** `q` is the order of `a`: the least positive multiple that is neutral. */
  ghost predicate HasOrder(c: Curve, a: Affine, q: nat)
    requires c.p > 2
  {
    q > 0 && Times(c, q, a) == NEUTRAL && forall k: nat :: 0 < k < q ==> Times(c, k, a) != NEUTRAL
  }

  lemma {:induction false} MultiplesOfOrder(c: Curve, a: Affine, q: nat, k: nat)
    requires Sound(c) && Associative(c) && OnCurve(c, a) && HasOrder(c, a, q)
    ensures q * k >= 0 && Times(c, q * k, a) == NEUTRAL
  {
    if k == 0 {
      assert q * k == 0;
    } else {
      MultiplesOfOrder(c, a, q, k - 1);
      assert q * k == q * (k - 1) + q;
      TimesAdd(c, q * (k - 1), q, a);
      NeutralOnCurve(c);
      NeutralIsNeutral(c, NEUTRAL);
    }
  }

  lemma {:induction false} Parts(s: nat, q: nat) returns (k: nat, r: nat)
    requires q > 0
    ensures s == q * k + r && r == s % q && r < q
  {
    k, r := s / q, s % q;
  }

  lemma {:induction false} DropMultiple(c: Curve, a: Affine, q: nat, k: nat, r: nat)
    requires Sound(c) && Associative(c) && OnCurve(c, a) && HasOrder(c, a, q)
    ensures q * k >= 0 && Times(c, q * k + r, a) == Times(c, r, a)
  {
    MultiplesOfOrder(c, a, q, k);
    TimesAdd(c, q * k, r, a);
    TimesOnCurve(c, r, a);
    NeutralIsNeutral(c, Times(c, r, a));
  }

  /** Scalars act modulo the order. */
  lemma {:induction false} TimesModOrder(c: Curve, a: Affine, q: nat, s: nat)
    requires Sound(c) && Associative(c) && OnCurve(c, a) && HasOrder(c, a, q)
    ensures Times(c, s, a) == Times(c, s % q, a)
  {
    var k, r := Parts(s, q);
    DropMultiple(c, a, q, k, r);
  }

  lemma {:induction false} SmallScalarsDiffer(c: Curve, a: Affine, q: nat, m: nat, n: nat)
    requires Sound(c) && Associative(c) && OnCurve(c, a) && HasOrder(c, a, q)
    requires m < n < q
    ensures Times(c, m, a) != Times(c, n, a)
  {
    TimesAdd(c, m, q - n, a);
    TimesAdd(c, n, q - n, a);
  }

  /** Two scalars have the same multiple exactly when they agree modulo the order. */
  lemma {:induction false} TimesInjective(c: Curve, a: Affine, q: nat, s: nat, t: nat)
    requires Sound(c) && Associative(c) && OnCurve(c, a) && HasOrder(c, a, q)
    ensures Times(c, s, a) == Times(c, t, a) <==> s % q == t % q
  {
    TimesModOrder(c, a, q, s);
    TimesModOrder(c, a, q, t);
    if s % q < t % q {
      SmallScalarsDiffer(c, a, q, s % q, t % q);
    } else if t % q < s % q {
      SmallScalarsDiffer(c, a, q, t % q, s % q);
    }
  }
}
