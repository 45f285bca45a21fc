/**
  The arithmetic modulo a prime that Ed25519 rests on: congruences, Euclid's lemma, Fermat's
  little theorem, and the square roots modulo a prime that is 5 modulo 8.

  Everything here is proved for an arbitrary prime, from the absence of proper divisors alone.
 */
module NumberTheory {

  /** `a` and `b` leave the same remainder. */
  predicate Cong(a: int, b: int, m: nat)
    requires m > 0
  {
    a % m == b % m
  }

  ghost predicate Prime(p: nat) {
    p > 1 && forall k :: 1 < k < p ==> p % k != 0
  }

  /** Integer power; Python's three-argument `pow(b, e, m)` is its remainder. */
  function Pow(b: int, e: nat): int {
    if e == 0 then 1 else b * Pow(b, e - 1)
  }

  function PowMod(b: int, e: nat, m: nat): (r: int)
    requires m > 0
    ensures 0 <= r < m && Cong(r, Pow(b, e), m)
  {
    ModSmall(Pow(b, e) % m, m);
    Pow(b, e) % m
  }

  // ---------------------------------------------------------------- congruences

  lemma {:induction false} Sandwich(k: int, m: int)
    requires m > 0 && -m < k * m < m
    ensures k == 0
  {
  }

  lemma {:induction false} DivModUnique(x: int, m: int, q: int, r: int)
    requires m > 0 && x == q * m + r && 0 <= r < m
    ensures x / m == q && x % m == r
  {
    var d := q - x / m;
    assert d * m == x % m - r by {
      assert x == (x / m) * m + x % m;
    }
    Sandwich(d, m);
  }

  lemma {:induction false} ModSmall(r: int, m: int)
    requires 0 <= r < m
    ensures r % m == r
  {
    DivModUnique(r, m, 0, r);
  }

  lemma {:induction false} ModShift(a: int, k: int, m: int)
    requires m > 0
    ensures (a + k * m) % m == a % m
  {
    assert a + k * m == (a / m + k) * m + a % m;
    DivModUnique(a + k * m, m, a / m + k, a % m);
  }

  lemma {:induction false} ModIdem(a: int, m: int)
    requires m > 0
    ensures Cong(a % m, a, m)
  {
    ModSmall(a % m, m);
  }

  /** Congruent numbers differ by a multiple of the modulus. */
  lemma {:induction false} CongWitness(a: int, b: int, m: nat) returns (k: int)
    requires m > 0 && Cong(a, b, m)
    ensures a == b + k * m
  {
    k := a / m - b / m;
  }

  lemma {:induction false} CongIntro(a: int, b: int, k: int, m: nat)
    requires m > 0 && a == b + k * m
    ensures Cong(a, b, m)
  {
    ModShift(b, k, m);
  }

  lemma {:induction false} Distribute(k: int, l: int, m: int)
    ensures (k + l) * m == k * m + l * m && m * (k + l) == m * k + m * l
    ensures (k - l) * m == k * m - l * m && m * (k - l) == m * k - m * l
  {
  }

  lemma {:induction false} CongAdd(a: int, a': int, b: int, b': int, m: nat)
    requires m > 0 && Cong(a, a', m) && Cong(b, b', m)
    ensures Cong(a + b, a' + b', m)
  {
    var k := CongWitness(a, a', m);
    var l := CongWitness(b, b', m);
    Distribute(k, l, m);
    CongIntro(a + b, a' + b', k + l, m);
  }

  lemma {:induction false} CongSub(a: int, a': int, b: int, b': int, m: nat)
    requires m > 0 && Cong(a, a', m) && Cong(b, b', m)
    ensures Cong(a - b, a' - b', m)
  {
    var k := CongWitness(a, a', m);
    var l := CongWitness(b, b', m);
    Distribute(k, l, m);
    CongIntro(a - b, a' - b', k - l, m);
  }

  lemma {:induction false} ProductOfShifts(a: int, k: int, b: int, l: int, m: int)
    ensures (a + k * m) * (b + l * m) == a * b + (k * b + a * l + k * l * m) * m
  {
  }

  lemma {:induction false} CongMul(a: int, a': int, b: int, b': int, m: nat)
    requires m > 0 && Cong(a, a', m) && Cong(b, b', m)
    ensures Cong(a * b, a' * b', m)
  {
    var k := CongWitness(a, a', m);
    var l := CongWitness(b, b', m);
    ProductOfShifts(a', k, b', l, m);
    CongIntro(a * b, a' * b', k * b' + a' * l + k * l * m, m);
  }

  lemma {:induction false} CongPow(a: int, a': int, e: nat, m: nat)
    requires m > 0 && Cong(a, a', m)
    ensures Cong(Pow(a, e), Pow(a', e), m)
  {
    if e > 0 {
      CongPow(a, a', e - 1, m);
      CongMul(a, a', Pow(a, e - 1), Pow(a', e - 1), m);
    }
  }

  lemma {:induction false} CongSubZero(a: int, b: int, m: nat)
    requires m > 0
    ensures Cong(a, b, m) <==> Cong(a - b, 0, m)
  {
    if Cong(a, b, m) {
      CongSub(a, b, b, b, m);
    }
    if Cong(a - b, 0, m) {
      CongAdd(a - b, 0, b, b, m);
    }
  }

  lemma {:induction false} PowAdd(b: int, e: nat, f: nat)
    ensures Pow(b, e + f) == Pow(b, e) * Pow(b, f)
  {
    if e > 0 {
      PowAdd(b, e - 1, f);
      assert b * (Pow(b, e - 1) * Pow(b, f)) == (b * Pow(b, e - 1)) * Pow(b, f);
    }
  }

  lemma {:induction false} PowMul(b: int, e: nat, f: nat)
    ensures e * f >= 0 && Pow(b, e * f) == Pow(Pow(b, e), f)
  {
    if f == 0 {
      assert e * f == 0;
    } else {
      PowMul(b, e, f - 1);
      assert e * f == e + e * (f - 1);
      PowAdd(b, e, e * (f - 1));
    }
  }

  lemma {:induction false} Regroup(a: int, b: int, s: int, t: int)
    ensures (a * b) * (s * t) == (a * s) * (b * t)
  {
  }

  lemma {:induction false} PowProduct(a: int, b: int, e: nat)
    ensures Pow(a * b, e) == Pow(a, e) * Pow(b, e)
  {
    if e > 0 {
      PowProduct(a, b, e - 1);
      Regroup(a, b, Pow(a, e - 1), Pow(b, e - 1));
    }
  }

  lemma {:induction false} PowOne(e: nat)
    ensures Pow(1, e) == 1
  {
    if e > 0 {
      PowOne(e - 1);
    }
  }

  // ---------------------------------------------------------------- Euclid's lemma

  /** A prime dividing a product divides a factor: descent on the remainder of `p` by `a`. */
  lemma {:induction false} EuclidSmall(p: nat, a: int, b: int)
    requires Prime(p) && 0 < a < p && Cong(a * b, 0, p)
    ensures Cong(b, 0, p)
    decreases a
  {
    if a > 1 {
      var q, r := p / a, p % a;
      assert 0 < r < a;
      var k := CongWitness(a * b, 0, p);
      assert r * b == 0 + (b - q * k) * p by {
        assert r * b == p * b - q * (a * b);
      }
      ModShift(0, b - q * k, p);
      EuclidSmall(p, r, b);
    }
  }

  lemma {:induction false} Euclid(p: nat, a: int, b: int)
    requires Prime(p) && Cong(a * b, 0, p)
    ensures Cong(a, 0, p) || Cong(b, 0, p)
  {
    if !Cong(a, 0, p) {
      ModIdem(a, p);
      CongMul(a % p, a, b, b, p);
      EuclidSmall(p, a % p, b);
    }
  }

  lemma {:induction false} Cancel(p: nat, a: int, b: int, c: int)
    requires Prime(p) && !Cong(c, 0, p) && Cong(a * c, b * c, p)
    ensures Cong(a, b, p)
  {
    CongSubZero(a * c, b * c, p);
    assert a * c - b * c == (a - b) * c;
    Euclid(p, a - b, c);
    CongSubZero(a, b, p);
  }

  // ---------------------------------------------------------------- Fermat's little theorem

  function Choose(n: nat, k: nat): nat {
    if k == 0 then 1
    else if n == 0 then 0
    else Choose(n - 1, k - 1) + Choose(n - 1, k)
  }

  lemma {:induction false} ChooseBeyond(n: nat, k: nat)
    requires k > n
    ensures Choose(n, k) == 0
  {
    if n > 0 {
      ChooseBeyond(n - 1, k - 1);
      ChooseBeyond(n - 1, k);
    }
  }

  /** The step of the induction below, with the binomials named. */
  lemma {:induction false} AbsorbStep(n: int, k: int, u: int, v: int, s: int, t: int)
    requires k * v == (n - 1) * s && (k - 1) * u == (n - 1) * t && u == s + t
    ensures k * (u + v) == n * u
  {
    calc {
      k * (u + v);
      (k - 1) * u + u + k * v;
      (n - 1) * t + u + (n - 1) * s;
      { Distribute(t, s, n - 1); }
      (n - 1) * (t + s) + u;
    }
  }

  /** k C(n, k) = n C(n-1, k-1). */
  lemma {:induction false} Absorb(n: nat, k: nat)
    requires n > 0 && k > 0
    ensures k * Choose(n, k) == n * Choose(n - 1, k - 1)
  {
    if n == 1 {
      if k > 1 {
        ChooseBeyond(0, k - 1);
        ChooseBeyond(1, k);
      }
    } else {
      Absorb(n - 1, k);
      if k > 1 {
        Absorb(n - 1, k - 1);
      }
      AbsorbStep(n, k, Choose(n - 1, k - 1), Choose(n - 1, k), Choose(n - 2, k - 1),
                 if k > 1 then Choose(n - 2, k - 2) else 0);
    }
  }

  lemma {:induction false} ChoosePrime(p: nat, k: nat)
    requires Prime(p) && 0 < k < p
    ensures Cong(Choose(p, k), 0, p)
  {
    var c := Choose(p, k);
    assert Cong(k * c, 0, p) by {
      Absorb(p, k);
      var d := Choose(p - 1, k - 1);
      assert p * d == d * p;
      CongIntro(k * c, 0, d, p);
    }
    EuclidSmall(p, k, c);
  }

  /** The last terms, from the k-th, of the binomial expansion of (a+1)^n. */
  function Terms(a: int, n: nat, k: nat): int
    requires k <= n + 1
    decreases n + 1 - k
  {
    if k == n + 1 then 0 else Choose(n, k) * Pow(a, k) + Terms(a, n, k + 1)
  }

  lemma {:induction false} TermsAlgebra(a: int, x: int, u: int, v: int, t: int, t': int)
    ensures (u + v) * (a * x) + (t' + a * t) == (v * (a * x) + t') + a * (u * x + t)
  {
    Distribute(u, v, a * x);
    Distribute(u * x, t, a);
    assert a * (u * x) == u * (a * x);
  }

  lemma {:induction false} TermsStep(a: int, n: nat, k: nat)
    requires 1 <= k <= n + 1
    ensures Terms(a, n + 1, k) == Terms(a, n, k) + a * Terms(a, n, k - 1)
    decreases n + 1 - k
  {
    var x := Pow(a, k - 1);
    if k == n + 1 {
      ChooseBeyond(n, n + 1);
      assert Terms(a, n, n) == Choose(n, n) * x + Terms(a, n, n + 1);
      assert Terms(a, n + 1, n + 1) == Choose(n + 1, n + 1) * Pow(a, n + 1) + Terms(a, n + 1, n + 2);
      assert Choose(n + 1, n + 1) == Choose(n, n);
      assert Choose(n, n) * (a * x) == a * (Choose(n, n) * x);
    } else {
      TermsStep(a, n, k + 1);
      var u, v, t, t' := Choose(n, k - 1), Choose(n, k), Terms(a, n, k), Terms(a, n, k + 1);
      TermsAlgebra(a, x, u, v, t, t');
    }
  }

  lemma {:induction false} Binomial(a: int, n: nat)
    ensures Pow(a + 1, n) == Terms(a, n, 0)
  {
    if n == 0 {
      assert Terms(a, 0, 0) == Choose(0, 0) * Pow(a, 0) + Terms(a, 0, 1);
    } else {
      Binomial(a, n - 1);
      var t := Terms(a, n - 1, 0);
      assert (a + 1) * t == t + a * t;
      TermsStep(a, n - 1, 1);
      assert Terms(a, n, 0) == Choose(n, 0) * Pow(a, 0) + Terms(a, n, 1);
      assert t == Choose(n - 1, 0) * Pow(a, 0) + Terms(a, n - 1, 1);
    }
  }

  lemma {:induction false} MiddleTermsVanish(p: nat, a: int, k: nat)
    requires Prime(p) && 1 <= k <= p
    ensures Cong(Terms(a, p, k), Pow(a, p), p)
    decreases p - k
  {
    if k == p {
      ChooseTop(p);
      assert Terms(a, p, p) == Choose(p, p) * Pow(a, p) + Terms(a, p, p + 1);
    } else {
      MiddleTermsVanish(p, a, k + 1);
      ChoosePrime(p, k);
      CongMul(Choose(p, k), 0, Pow(a, k), Pow(a, k), p);
      CongAdd(Choose(p, k) * Pow(a, k), 0 * Pow(a, k), Terms(a, p, k + 1), Pow(a, p), p);
    }
  }

  lemma {:induction false} ChooseTop(n: nat)
    ensures Choose(n, n) == 1
  {
    if n > 0 {
      ChooseTop(n - 1);
      ChooseBeyond(n - 1, n);
    }
  }

  lemma {:induction false} FermatNat(p: nat, a: nat)
    requires Prime(p)
    ensures Cong(Pow(a, p), a, p)
  {
    if a == 0 {
      assert Pow(0, p) == 0 * Pow(0, p - 1);
    } else {
      FermatNat(p, a - 1);
      Binomial(a - 1, p);
      MiddleTermsVanish(p, a - 1, 1);
      var t := Terms(a - 1, p, 1);
      assert Pow(a, p) == 1 + t by {
        assert Terms(a - 1, p, 0) == Choose(p, 0) * Pow(a - 1, 0) + t;
      }
      CongAdd(1, 1, t, a - 1, p);
    }
  }

  lemma {:induction false} FermatInt(p: nat, a: int)
    requires Prime(p)
    ensures Cong(Pow(a, p), a, p)
  {
    var r := a % p;
    ModIdem(a, p);
    FermatNat(p, r);
    CongPow(a, r, p, p);
  }

  /** Fermat: a^(p-1) = 1 modulo p unless p divides a. */
  lemma {:induction false} Fermat(p: nat, a: int)
    requires Prime(p) && !Cong(a, 0, p)
    ensures Cong(Pow(a, p - 1), 1, p)
  {
    var q := Pow(a, p - 1);
    assert Cong(q * a, 1 * a, p) by {
      FermatInt(p, a);
      assert Pow(a, p) == a * q == q * a;
    }
    Cancel(p, q, 1, a);
  }

  /** `pow(z, p-2, p)` is the inverse of z. */
  lemma {:induction false} Inverse(p: nat, z: int)
    requires Prime(p) && !Cong(z, 0, p)
    ensures Cong(z * PowMod(z, p - 2, p), 1, p)
  {
    Fermat(p, z);
    CongMul(z, z, PowMod(z, p - 2, p), Pow(z, p - 2), p);
  }

  // ---------------------------------------------------------------- square roots, p = 5 mod 8

  /** A square that is 1 has root 1 or -1. */
  lemma {:induction false} RootOfOne(p: nat, r: int)
    requires Prime(p) && Cong(r * r, 1, p)
    ensures Cong(r, 1, p) || Cong(r, -1, p)
  {
    CongSubZero(r * r, 1, p);
    assert r * r - 1 == (r - 1) * (r + 1);
    Euclid(p, r - 1, r + 1);
    CongSubZero(r, 1, p);
    CongSubZero(r, -1, p);
  }

  function Factorial(n: nat): int {
    if n == 0 then 1 else n * Factorial(n - 1)
  }

  /** 2 * 4 * ... * 2n */
  function Evens(n: nat): int {
    if n == 0 then 1 else 2 * n * Evens(n - 1)
  }

  /** 1 * 3 * ... * (2n - 1) */
  function Odds(n: nat): int {
    if n == 0 then 1 else (2 * n - 1) * Odds(n - 1)
  }

  lemma {:induction false} FactorialSplits(n: nat)
    ensures Factorial(2 * n) == Odds(n) * Evens(n)
  {
    if n > 0 {
      FactorialSplits(n - 1);
      assert Factorial(2 * n) == 2 * n * Factorial(2 * n - 1);
      assert Factorial(2 * n - 1) == (2 * n - 1) * Factorial(2 * (n - 1));
      SplitAlgebra(2 * n, 2 * n - 1, Odds(n - 1), Evens(n - 1));
    }
  }

  lemma {:induction false} SplitAlgebra(a: int, b: int, o: int, e: int)
    ensures a * (b * (o * e)) == (b * o) * (a * e)
  {
  }

  lemma {:induction false} EvensAreDoubles(n: nat)
    ensures Evens(n) == Pow(2, n) * Factorial(n)
  {
    if n > 0 {
      EvensAreDoubles(n - 1);
      Regroup(2, n, Pow(2, n - 1), Factorial(n - 1));
    }
  }

  lemma {:induction false} FactorialNonzero(p: nat, n: nat)
    requires Prime(p) && n < p
    ensures !Cong(Factorial(n), 0, p)
  {
    ModSmall(0, p);
    if n == 0 {
      ModSmall(1, p);
    } else {
      FactorialNonzero(p, n - 1);
      ModSmall(n, p);
      if Cong(Factorial(n), 0, p) {
        Euclid(p, n, Factorial(n - 1));
      }
    }
  }

  lemma {:induction false} ReflectOne(p: nat, n: int, j: int, a: int, s: int, o: int)
    requires p > 0 && n == p - j
    ensures Cong((n * a) * (s * o), a * ((-1 * s) * (j * o)), p)
  {
    var w := a * (s * o);
    CongIntro(n, -j, 1, p);
    CongMul(n, -j, w, w, p);
    assert (n * a) * (s * o) == n * w;
    assert a * ((-1 * s) * (j * o)) == -j * w by {
      Regroup(-1, s, j, o);
    }
  }

  /** Modulo p = 4m + 1, the last i even numbers below p are the first i odd numbers, negated. */
  lemma {:induction false} EvensReflect(p: nat, m: nat, i: nat)
    requires p == 4 * m + 1 && i <= 2 * m
    ensures Cong(Evens(2 * m), Evens(2 * m - i) * (Pow(-1, i) * Odds(i)), p)
  {
    if i > 0 {
      EvensReflect(p, m, i - 1);
      ReflectOne(p, 2 * (2 * m - i + 1), 2 * i - 1, Evens(2 * m - i), Pow(-1, i - 1), Odds(i - 1));
    }
  }

  lemma {:induction false} PowMinusOne(e: nat)
    ensures Pow(-1, 2 * e + 1) == -1
  {
    if e > 0 {
      PowMinusOne(e - 1);
      assert Pow(-1, 2 * e + 1) == -1 * Pow(-1, 2 * e);
      assert Pow(-1, 2 * e) == -1 * Pow(-1, 2 * e - 1);
    }
  }

  lemma {:induction false} GaussSigns(p: nat, k: nat)
    requires p == 8 * k + 5
    ensures Cong(Pow(2, 2 * (2 * k + 1)) * Factorial(2 * (2 * k + 1)), -1 * Factorial(2 * (2 * k + 1)), p)
  {
    var m := 2 * k + 1;
    EvensAreDoubles(2 * m);
    EvensReflect(p, m, m);
    PowMinusOne(k);
    FactorialSplits(m);
    var e, o := Evens(m), Odds(m);
    assert e * (-1 * o) == -1 * (o * e);
  }

  /** 2 is no square modulo a prime that is 5 modulo 8 (Gauss's count of signs). */
  lemma {:induction false} TwoIsNonresidue(p: nat)
    requires Prime(p) && p % 8 == 5
    ensures Cong(Pow(2, (p - 1) / 2), -1, p)
  {
    var k := p / 8;
    assert (p - 1) / 2 == 2 * (2 * k + 1);
    GaussSigns(p, k);
    FactorialNonzero(p, 2 * (2 * k + 1));
    Cancel(p, Pow(2, 2 * (2 * k + 1)), -1, Factorial(2 * (2 * k + 1)));
  }

  /** `pow(2, (p-1)//4, p)` squares to -1. */
  lemma {:induction false} RootOfMinusOne(p: nat)
    requires Prime(p) && p % 8 == 5
    ensures var i := PowMod(2, (p - 1) / 4, p); Cong(i * i, -1, p)
  {
    var q := (p - 1) / 4;
    var i, w := PowMod(2, q, p), Pow(2, q);
    assert Cong(w * w, -1, p) by {
      TwoIsNonresidue(p);
      PowAdd(2, q, q);
      assert q + q == (p - 1) / 2;
    }
    CongMul(i, w, i, w, p);
  }

  /**
    For a square, the candidate root x^((p+3)/8) squares to it or to its negation, so that the
    candidate or its product with a root of -1 is a root.
   */
  lemma {:induction false} CandidateRoot(p: nat, x2: int, r: int)
    requires Prime(p) && p % 8 == 5 && Cong(r * r, x2, p)
    ensures var c := PowMod(x2, (p + 3) / 8, p); Cong(c * c, x2, p) || Cong(c * c, -x2, p)
  {
    var c, w := PowMod(x2, (p + 3) / 8, p), Pow(x2, (p + 3) / 8);
    var q := Pow(x2, (p - 1) / 4);
    CongMul(c, w, c, w, p);
    PowAdd(x2, (p + 3) / 8, (p + 3) / 8);
    assert 2 * ((p + 3) / 8) == 1 + (p - 1) / 4;
    assert w * w == x2 * q;
    if Cong(x2, 0, p) {
      CongMul(x2, 0, q, q, p);
    } else {
      if Cong(r, 0, p) {
        CongMul(r, 0, r, 0, p);
        assert false;
      }
      Fermat(p, r);
      PowAdd(x2, (p - 1) / 4, (p - 1) / 4);
      assert (p - 1) / 4 + (p - 1) / 4 == (p - 1) / 2;
      CongPow(x2, r * r, (p - 1) / 2, p);
      PowProduct(r, r, (p - 1) / 2);
      PowAdd(r, (p - 1) / 2, (p - 1) / 2);
      assert Cong(q * q, 1, p);
      RootOfOne(p, q);
      if Cong(q, 1, p) {
        CongMul(x2, x2, q, 1, p);
      } else {
        CongMul(x2, x2, q, -1, p);
        assert x2 * -1 == -x2;
      }
    }
  }
}
