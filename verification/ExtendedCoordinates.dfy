/**
  The extended coordinates of section 5.1.4 of RFC 8032 refine the affine group law: a point
  (X : Y : Z : T) with Z not 0 stands for x = X/Z, y = Y/Z, and T carries x y.
 */
module ExtendedCoordinates {
  import opened NumberTheory
  import opened Edwards
  import opened Ed25519

  const CURVE := Curve(P, D)

  /** The fractions are the affine coordinates and X Y = Z T, in cross-multiplied form. */
  ghost predicate Represents(q: Point, a: Affine) {
    && !Cong(q.Z, 0, P)
    && Cong(q.X, a.x * q.Z, P)
    && Cong(q.Y, a.y * q.Z, P)
    && Cong(q.T, (a.x * a.y) * q.Z, P)
  }

  ghost predicate Reduced(q: Point) {
    0 <= q.X < P && 0 <= q.Y < P && 0 <= q.Z < P && 0 <= q.T < P
  }

  /** X Y = Z T for every representative. */
  lemma {:induction false} ProductInvariant(q: Point, a: Affine)
    requires Represents(q, a)
    ensures Cong(q.X * q.Y, q.Z * q.T, P)
  {
    CongMul(q.X, a.x * q.Z, q.Y, a.y * q.Z, P);
    CongMul(q.Z, q.Z, q.T, (a.x * a.y) * q.Z, P);
    Regroup(a.x, q.Z, a.y, q.Z);
    assert q.Z * ((a.x * a.y) * q.Z) == (a.x * a.y) * (q.Z * q.Z);
  }

  // ---------------------------------------------------------------- addition

  /** The products of PointAdd on exact representatives. */
  lemma {:induction false} ExactProducts(d: int, x1: int, y1: int, z1: int, x2: int, y2: int, z2: int)
    ensures var w, k := 2 * (z1 * z2), d * ((x1 * y1) * (x2 * y2));
      var a, b := (y1 * z1 - x1 * z1) * (y2 * z2 - x2 * z2), (y1 * z1 + x1 * z1) * (y2 * z2 + x2 * z2);
      var c, dd := 2 * ((x1 * y1) * z1) * ((x2 * y2) * z2) * d, 2 * z1 * z2;
      && b - a == w * (x1 * y2 + x2 * y1) && b + a == w * (y1 * y2 + x1 * x2)
      && dd - c == w * (1 - k) && dd + c == w * (1 + k)
  {
    var zz, m1, m2 := z1 * z2, x1 * y1, x2 * y2;
    assert (y1 * z1 - x1 * z1) * (y2 * z2 - x2 * z2) == ((y1 - x1) * (y2 - x2)) * zz by {
      Regroup(y1 - x1, z1, y2 - x2, z2);
      Distribute(y1, x1, z1);
      Distribute(y2, x2, z2);
    }
    assert (y1 * z1 + x1 * z1) * (y2 * z2 + x2 * z2) == ((y1 + x1) * (y2 + x2)) * zz by {
      Regroup(y1 + x1, z1, y2 + x2, z2);
      Distribute(y1, x1, z1);
      Distribute(y2, x2, z2);
    }
    assert 2 * (m1 * z1) * (m2 * z2) * d == (2 * zz) * (d * (m1 * m2)) by {
      Regroup(m1, z1, m2, z2);
      assert 2 * (m1 * z1) * (m2 * z2) * d == 2 * ((m1 * z1) * (m2 * z2)) * d;
    }
    SumAndDifference(x1, y1, x2, y2, zz);
  }

  lemma {:induction false} SumAndDifference(x1: int, y1: int, x2: int, y2: int, zz: int)
    ensures ((y1 + x1) * (y2 + x2)) * zz - ((y1 - x1) * (y2 - x2)) * zz == 2 * zz * (x1 * y2 + x2 * y1)
    ensures ((y1 + x1) * (y2 + x2)) * zz + ((y1 - x1) * (y2 - x2)) * zz == 2 * zz * (y1 * y2 + x1 * x2)
  {
    var s, t := (y1 + x1) * (y2 + x2), (y1 - x1) * (y2 - x2);
    assert s - t == 2 * (x1 * y2 + x2 * y1);
    assert s + t == 2 * (y1 * y2 + x1 * x2);
    Distribute(s, t, zz);
  }

  /** The four factors of PointAdd. */
  lemma {:induction false} Factors(p1: Point, p2: Point, a1: Affine, a2: Affine) returns (e: int, f: int, g: int,
                                   h: int)
    requires Represents(p1, a1) && Represents(p2, a2)
    ensures PointAdd(p1, p2) == Point(e * f % P, g * h % P, f * g % P, e * h % P)
    ensures var w, k := 2 * (p1.Z * p2.Z), Cross(CURVE, a1, a2);
      && Cong(e, w * (a1.x * a2.y + a2.x * a1.y), P) && Cong(h, w * (a1.y * a2.y + a1.x * a2.x), P)
      && Cong(f, w * (1 - k), P) && Cong(g, w * (1 + k), P)
  {
    hide Cong;
    e, f, g, h := Quarters(p1, p2);
    var z1, z2 := p1.Z, p2.Z;
    var x1, y1, x2, y2 := a1.x * z1, a1.y * z1, a2.x * z2, a2.y * z2;
    var t1, t2 := (a1.x * a1.y) * z1, (a2.x * a2.y) * z2;
    var a, a' := (p1.Y - p1.X) * (p2.Y - p2.X), (y1 - x1) * (y2 - x2);
    var b, b' := (p1.Y + p1.X) * (p2.Y + p2.X), (y1 + x1) * (y2 + x2);
    var c, c' := 2 * p1.T * p2.T * D, 2 * t1 * t2 * D;
    var dd := 2 * z1 * z2;
    DifferenceProducts(P, p1.X, p1.Y, p2.X, p2.Y, x1, y1, x2, y2);
    CrossProduct(P, p1.T, p2.T, t1, t2, D);
    ReducedSums(P, b, b', a, a');
    CongItself(dd, P);
    ReducedSums(P, dd, dd, c, c');
    ExactProducts(D, a1.x, a1.y, z1, a2.x, a2.y, z2);
  }

  lemma {:induction false} Quarters(p1: Point, p2: Point) returns (e: int, f: int, g: int, h: int)
    ensures PointAdd(p1, p2) == Point(e * f % P, g * h % P, f * g % P, e * h % P)
    ensures e == (p1.Y + p1.X) * (p2.Y + p2.X) % P - (p1.Y - p1.X) * (p2.Y - p2.X) % P
    ensures h == (p1.Y + p1.X) * (p2.Y + p2.X) % P + (p1.Y - p1.X) * (p2.Y - p2.X) % P
    ensures f == 2 * p1.Z * p2.Z % P - 2 * p1.T * p2.T * D % P
    ensures g == 2 * p1.Z * p2.Z % P + 2 * p1.T * p2.T * D % P
  {
    var a := (p1.Y - p1.X) * (p2.Y - p2.X) % P;
    var b := (p1.Y + p1.X) * (p2.Y + p2.X) % P;
    var c := 2 * p1.T * p2.T * D % P;
    var dd := 2 * p1.Z * p2.Z % P;
    e, f, g, h := b - a, dd - c, dd + c, b + a;
  }

  lemma {:induction false} CongItself(a: int, m: nat)
    requires m > 0
    ensures Cong(a, a, m)
  {
  }

  lemma {:induction false} ReducedSums(p: nat, b: int, b': int, a: int, a': int)
    requires p > 0 && Cong(b, b', p) && Cong(a, a', p)
    ensures Cong(b % p - a % p, b' - a', p) && Cong(b % p + a % p, b' + a', p)
  {
    ModIdem(a, p);
    ModIdem(b, p);
    CongSub(b % p, b', a % p, a', p);
    CongAdd(b % p, b', a % p, a', p);
  }

  lemma {:induction false} DifferenceProducts(p: nat, x1: int, y1: int, x2: int, y2: int, x1': int, y1': int,
                                              x2': int, y2': int)
    requires p > 0 && Cong(x1, x1', p) && Cong(y1, y1', p) && Cong(x2, x2', p) && Cong(y2, y2', p)
    ensures Cong((y1 - x1) * (y2 - x2), (y1' - x1') * (y2' - x2'), p)
    ensures Cong((y1 + x1) * (y2 + x2), (y1' + x1') * (y2' + x2'), p)
  {
    CongSub(y1, y1', x1, x1', p);
    CongSub(y2, y2', x2, x2', p);
    CongAdd(y1, y1', x1, x1', p);
    CongAdd(y2, y2', x2, x2', p);
    CongMul(y1 - x1, y1' - x1', y2 - x2, y2' - x2', p);
    CongMul(y1 + x1, y1' + x1', y2 + x2, y2' + x2', p);
  }

  lemma {:induction false} CrossProduct(p: nat, t1: int, t2: int, t1': int, t2': int, d: int)
    requires p > 0 && Cong(t1, t1', p) && Cong(t2, t2', p)
    ensures Cong(2 * t1 * t2 * d, 2 * t1' * t2' * d, p)
  {
    CongMul(2, 2, t1, t1', p);
    CongMul(2 * t1, 2 * t1', t2, t2', p);
    CongMul(2 * t1 * t2, 2 * t1' * t2', d, d, p);
  }

  /** n (1 -+ k) over (1 - k)(1 + k) is n / (1 +- k): the quotient of two of the four products. */
  lemma {:induction false} QuotientOfFactors(p: nat, n: int, u: int, v: int, r: int, e: int, f: int, g: int, w: int)
    requires p > 0 && Cong(r * v, n, p)
    requires Cong(e, w * n, p) && Cong(f, w * u, p) && Cong(g, w * v, p)
    ensures Cong(e * f % p, r * (f * g % p), p)
  {
    ModIdem(e * f, p);
    ModIdem(f * g, p);
    CongMul(r, r, f * g % p, f * g, p);
    CongMul(g, w * v, r, r, p);
    assert (w * v) * r == w * (r * v);
    CongMul(w, w, r * v, n, p);
    assert Cong(g * r, e, p);
    CongMul(g * r, e, f, f, p);
    assert r * (f * g) == (g * r) * f;
  }

  lemma {:induction false} ProductOfQuotients(p: nat, n1: int, n2: int, u: int, v: int, x: int, y: int, e: int,
                                              f: int, g: int, h: int, w: int)
    requires p > 0 && Cong(x * v, n1, p) && Cong(y * u, n2, p)
    requires Cong(e, w * n1, p) && Cong(h, w * n2, p) && Cong(f, w * u, p) && Cong(g, w * v, p)
    ensures Cong(e * h % p, (x * y) * (f * g % p), p)
  {
    hide Cong;
    OneQuotient(p, n1, v, x, e, g, w);
    OneQuotient(p, n2, u, y, h, f, w);
    CongMul(x * g, e, y * f, h, p);
    Regroup(x, g, y, f);
    Swapped(g, f);
    ReducedProduct(p, e * h, x * y, f * g);
  }

  lemma {:induction false} OneQuotient(p: nat, n: int, v: int, x: int, e: int, g: int, w: int)
    requires p > 0 && Cong(x * v, n, p) && Cong(e, w * n, p) && Cong(g, w * v, p)
    ensures Cong(x * g, e, p)
  {
    CongMul(x, x, g, w * v, p);
    CongMul(w, w, x * v, n, p);
    assert x * (w * v) == w * (x * v);
  }

  lemma {:induction false} Swapped(f: int, g: int)
    ensures f * g == g * f
  {
  }

  lemma {:induction false} ReducedProduct(p: nat, a: int, b: int, c: int)
    requires p > 0 && Cong(b * c, a, p)
    ensures Cong(a % p, b * (c % p), p)
  {
    ModIdem(a, p);
    ModIdem(c, p);
    CongMul(b, b, c % p, c, p);
  }

  lemma {:induction false} ProductNotZero(p: nat, a: int, b: int)
    requires Prime(p) && !Cong(a, 0, p) && !Cong(b, 0, p)
    ensures !Cong(a * b, 0, p)
  {
    if Cong(a * b, 0, p) {
      Euclid(p, a, b);
    }
  }

  lemma {:induction false} DenominatorNotZero(p: nat, f: int, g: int, w: int, u: int, v: int)
    requires Prime(p) && !Cong(w, 0, p) && !Cong(u, 0, p) && !Cong(v, 0, p)
    requires Cong(f, w * u, p) && Cong(g, w * v, p)
    ensures !Cong(f * g % p, 0, p)
  {
    ModIdem(f * g, p);
    ProductNotZero(p, w, u);
    ProductNotZero(p, w, v);
    ProductNotZero(p, f, g);
  }

  /** PointAdd is the affine group law on what its arguments represent. */
  lemma {:induction false} AddRefines(p1: Point, p2: Point, a1: Affine, a2: Affine)
    requires Sound(CURVE) && OnCurve(CURVE, a1) && OnCurve(CURVE, a2)
    requires Represents(p1, a1) && Represents(p2, a2)
    ensures Represents(PointAdd(p1, p2), Add(CURVE, a1, a2)) && Reduced(PointAdd(p1, p2))
  {
    var e, f, g, h := Factors(p1, p2, a1, a2);
    var r, k, w := Add(CURVE, a1, a2), Cross(CURVE, a1, a2), 2 * (p1.Z * p2.Z);
    var n1, n2 := a1.x * a2.y + a2.x * a1.y, a1.y * a2.y + a1.x * a2.x;
    Complete(CURVE, a1, a2);
    AddInField(CURVE, a1, a2);
    AddIsRatio(CURVE, a1, a2, r);
    TwoNotZero(P);
    ProductNotZero(P, p1.Z, p2.Z);
    ProductNotZero(P, 2, p1.Z * p2.Z);
    DenominatorNotZero(P, f, g, w, 1 - k, 1 + k);
    QuotientOfFactors(P, n1, 1 - k, 1 + k, r.x, e, f, g, w);
    QuotientOfFactors(P, n2, 1 + k, 1 - k, r.y, h, g, f, w);
    assert h * g == g * h && g * f == f * g;
    ProductOfQuotients(P, n1, n2, 1 - k, 1 + k, r.x, r.y, e, f, g, h, w);
  }

  lemma {:induction false} TwoNotZero(p: nat)
    requires p > 2
    ensures !Cong(2, 0, p)
  {
    ModSmall(2, p);
    ModSmall(0, p);
  }

  lemma {:induction false} OriginIsNeutral()
    ensures Represents(ORIGIN, NEUTRAL)
  {
    UnitNotZero(P, 1);
  }

  // ---------------------------------------------------------------- double-and-add

  /** The loop adds s copies of the running point to the accumulator. */
  lemma {:induction false} LadderRefines(q: Point, r: Point, s: int, a: Affine, b: Affine)
    requires Sound(CURVE) && Associative(CURVE) && OnCurve(CURVE, a) && OnCurve(CURVE, b)
    requires Represents(q, a) && Represents(r, b) && s >= 0
    ensures OnCurve(CURVE, Add(CURVE, a, Times(CURVE, s, b)))
    ensures Represents(Ladder(q, r, s), Add(CURVE, a, Times(CURVE, s, b)))
    decreases s
  {
    TimesOnCurve(CURVE, s, b);
    Closed(CURVE, a, Times(CURVE, s, b));
    if s == 0 {
      NeutralIsNeutral(CURVE, a);
    } else {
      var a', b' := if s % 2 == 1 then Add(CURVE, a, b) else a, Add(CURVE, b, b);
      AddRefines(r, r, b, b);
      AddRefines(q, r, a, b);
      Closed(CURVE, b, b);
      Closed(CURVE, a, b);
      LadderRefines(if s % 2 == 1 then PointAdd(q, r) else q, PointAdd(r, r), s / 2, a', b');
      LadderStep(s, a, b);
    }
  }

  lemma {:induction false} LadderStep(s: nat, a: Affine, b: Affine)
    requires Sound(CURVE) && Associative(CURVE) && OnCurve(CURVE, a) && OnCurve(CURVE, b)
    ensures var a', b' := if s % 2 == 1 then Add(CURVE, a, b) else a, Add(CURVE, b, b);
      Add(CURVE, a', Times(CURVE, s / 2, b')) == Add(CURVE, a, Times(CURVE, s, b))
  {
    var b' := Add(CURVE, b, b);
    assert Times(CURVE, 2, b) == b' by {
      TimesOne(b);
      assert Times(CURVE, 2, b) == Add(CURVE, Times(CURVE, 1, b), b);
    }
    TimesTimes(CURVE, s / 2, 2, b);
    var even := s / 2 * 2;
    if s % 2 == 1 {
      assert s == 1 + even;
      TimesOne(b);
      TimesAdd(CURVE, 1, even, b);
      TimesOnCurve(CURVE, even, b);
      assert AssociativeAt(CURVE, a, b, Times(CURVE, even, b));
    }
  }

  lemma {:induction false} TimesOne(b: Affine)
    requires Sound(CURVE) && OnCurve(CURVE, b)
    ensures Times(CURVE, 1, b) == b
  {
    assert Times(CURVE, 1, b) == Add(CURVE, Times(CURVE, 0, b), b);
    NeutralIsNeutral(CURVE, b);
  }

  /** PointMul is s-fold repeated addition, and the neutral point for a negative s. */
  lemma {:induction false} MulRefines(p1: Point, b: Affine, s: int)
    requires Sound(CURVE) && Associative(CURVE) && OnCurve(CURVE, b) && Represents(p1, b)
    ensures OnCurve(CURVE, Times(CURVE, if s < 0 then 0 else s, b))
    ensures Represents(Ladder(ORIGIN, p1, s), Times(CURVE, if s < 0 then 0 else s, b))
  {
    OriginIsNeutral();
    NeutralOnCurve(CURVE);
    if s >= 0 {
      LadderRefines(ORIGIN, p1, s, NEUTRAL, b);
      TimesOnCurve(CURVE, s, b);
      NeutralIsNeutral(CURVE, Times(CURVE, s, b));
    }
  }

  // ---------------------------------------------------------------- equality

  lemma {:induction false} FractionsEqual(p: nat, n1: int, z1: int, n2: int, z2: int, r1: int, r2: int)
    requires Prime(p) && !Cong(z1, 0, p) && !Cong(z2, 0, p)
    requires Cong(n1, r1 * z1, p) && Cong(n2, r2 * z2, p) && 0 <= r1 < p && 0 <= r2 < p
    ensures (n1 * z2 - n2 * z1) % p == 0 <==> r1 == r2
  {
    var zz := z1 * z2;
    CongMul(n1, r1 * z1, z2, z2, p);
    CongMul(n2, r2 * z2, z1, z1, p);
    assert (r1 * z1) * z2 == r1 * zz && (r2 * z2) * z1 == r2 * zz;
    CongSubZero(n1 * z2, n2 * z1, p);
    ModSmall(0, p);
    if Cong(r1 * zz, r2 * zz, p) {
      ProductNotZero(p, z1, z2);
      Cancel(p, r1, r2, zz);
      ModSmall(r1, p);
      ModSmall(r2, p);
    }
  }

  /** PointEqual compares the points, not their representatives. */
  lemma {:induction false} EqualRefines(p1: Point, p2: Point, a1: Affine, a2: Affine)
    requires Sound(CURVE) && OnCurve(CURVE, a1) && OnCurve(CURVE, a2)
    requires Represents(p1, a1) && Represents(p2, a2)
    ensures PointEqual(p1, p2) <==> a1 == a2
  {
    FractionsEqual(P, p1.X, p1.Z, p2.X, p2.Z, a1.x, a2.x);
    FractionsEqual(P, p1.Y, p1.Z, p2.Y, p2.Z, a1.y, a2.y);
  }
}
