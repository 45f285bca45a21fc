/** Little-endian byte strings and the bit operations on natural numbers that the codec uses. */
module Bytes {
  import opened NumberTheory

  type byte = x: int | 0 <= x < 256

  /** `int.from_bytes(s, "little")` */
  function FromBytes(s: seq<byte>): nat {
    if s == [] then 0 else s[0] + 256 * FromBytes(s[1..])
  }

  /** `int.to_bytes(n, k, "little")` for a number that fits. */
  function ToBytes(n: nat, k: nat): (s: seq<byte>)
    ensures |s| == k
  {
    if k == 0 then [] else [n % 256] + ToBytes(n / 256, k - 1)
  }

  lemma {:induction false} PowPositive(b: nat, e: nat)
    requires b > 0
    ensures Pow(b, e) > 0
  {
    if e > 0 {
      PowPositive(b, e - 1);
      assert b * Pow(b, e - 1) > 0;
    }
  }

  lemma {:induction false} FromBytesBound(s: seq<byte>)
    ensures FromBytes(s) < Pow(256, |s|)
  {
    if s != [] {
      FromBytesBound(s[1..]);
      assert |s[1..]| == |s| - 1;
    }
  }

  lemma {:induction false} FromToBytes(n: nat, k: nat)
    requires n < Pow(256, k)
    ensures FromBytes(ToBytes(n, k)) == n
  {
    if k > 0 {
      FromToBytes(n / 256, k - 1);
      assert ToBytes(n, k)[1..] == ToBytes(n / 256, k - 1);
    }
  }

  lemma {:induction false} ToFromBytes(s: seq<byte>)
    ensures ToBytes(FromBytes(s), |s|) == s
  {
    if s != [] {
      ToFromBytes(s[1..]);
      var n := FromBytes(s);
      assert n % 256 == s[0] && n / 256 == FromBytes(s[1..]);
      assert s == [s[0]] + s[1..];
    }
  }

  /** The first byte is the lowest: byte i counts 256^i. */
  lemma {:induction false} LittleEndian(a: seq<byte>, b: seq<byte>)
    ensures Pow(256, |a|) * FromBytes(b) >= 0 && FromBytes(a + b) == FromBytes(a) + Pow(256, |a|) * FromBytes(b)
    ensures forall x: byte :: FromBytes([x]) == x
  {
    if a == [] {
      assert a + b == b;
    } else {
      var p, f, g := Pow(256, |a| - 1), FromBytes(b), FromBytes(a[1..]);
      LittleEndian(a[1..], b);
      assert (a + b)[1..] == a[1..] + b && (a + b)[0] == a[0];
      assert (256 * p) * f == 256 * (p * f);
    }
  }

  // ---------------------------------------------------------------- bits

  function BitAnd(a: nat, b: nat): nat {
    if a == 0 || b == 0 then 0
    else 2 * BitAnd(a / 2, b / 2) + (if a % 2 == 1 && b % 2 == 1 then 1 else 0)
  }

  function BitOr(a: nat, b: nat): nat
    decreases a + b
  {
    if a == 0 then b
    else if b == 0 then a
    else 2 * BitOr(a / 2, b / 2) + (if a % 2 == 1 || b % 2 == 1 then 1 else 0)
  }

  lemma {:induction false} Halves(a: nat, n: nat)
    requires n > 0
    ensures Pow(2, n) > 0 && Pow(2, n - 1) > 0
    ensures a % Pow(2, n) == 2 * (a / 2 % Pow(2, n - 1)) + a % 2
    ensures a / Pow(2, n) == a / 2 / Pow(2, n - 1)
  {
    PowPositive(2, n);
    PowPositive(2, n - 1);
    var m, h := Pow(2, n - 1), a / 2;
    var q, r := h / m, h % m;
    assert a == q * (2 * m) + (2 * r + a % 2) by {
      assert h == q * m + r;
    }
    DivModUnique(a, 2 * m, q, 2 * r + a % 2);
  }

  /** `a & ((1 << n) - (1 << k))` keeps the bits from k up to n. */
  lemma {:induction false} MaskBits(a: nat, n: nat, k: nat)
    requires k <= n
    ensures Pow(2, n) >= Pow(2, k) > 0
    ensures a % Pow(2, n) >= a % Pow(2, k)
    ensures BitAnd(a, Pow(2, n) - Pow(2, k)) == a % Pow(2, n) - a % Pow(2, k)
    decreases n
  {
    hide BitAnd;
    PowGrows(k, n);
    if n == 0 {
      AndNothing(a);
    } else {
      Halves(a, n);
      PowDouble(n);
      MaskBits(a / 2, n - 1, if k == 0 then 0 else k - 1);
      if k == 0 {
        PowOfNothing(a);
        PowOfNothing(a / 2);
        AndOdd(a, Pow(2, n - 1) - 1);
      } else {
        Halves(a, k);
        PowDouble(k);
        AndEven(a, Pow(2, n - 1) - Pow(2, k - 1));
      }
    }
  }

  lemma {:induction false} PowDouble(n: nat)
    requires n > 0
    ensures Pow(2, n) == 2 * Pow(2, n - 1)
  {
  }

  lemma {:induction false} PowOfNothing(a: nat)
    ensures Pow(2, 0) == 1 && a % Pow(2, 0) == 0
  {
    DivModUnique(a, 1, a, 0);
  }

  lemma {:induction false} AndNothing(a: nat)
    ensures BitAnd(a, 0) == 0
  {
  }

  lemma {:induction false} AndEven(a: nat, b: nat)
    ensures BitAnd(a, 2 * b) == 2 * BitAnd(a / 2, b)
  {
  }

  lemma {:induction false} AndOdd(a: nat, b: nat)
    ensures BitAnd(a, 2 * b + 1) == 2 * BitAnd(a / 2, b) + a % 2
  {
  }

  lemma {:induction false} PowGrows(k: nat, n: nat)
    requires k <= n
    ensures 0 < Pow(2, k) <= Pow(2, n)
  {
    PowPositive(2, k);
    if k < n {
      PowGrows(k, n - 1);
    }
  }

  /** `a | (b << n)` adds when a has only n bits. */
  lemma {:induction false} OrHighBits(a: nat, b: nat, n: nat)
    requires a < Pow(2, n)
    ensures b * Pow(2, n) >= 0 && BitOr(a, b * Pow(2, n)) == a + b * Pow(2, n)
    decreases n
  {
    hide Pow, BitOr;
    PowPositive(2, n);
    Shifted(b, Pow(2, n));
    if n == 0 {
      PowOfNothing(a);
      OrNothing(b * Pow(2, n));
    } else {
      PowDouble(n);
      PowPositive(2, n - 1);
      Shifted(b, Pow(2, n - 1));
      OrHighBits(a / 2, b, n - 1);
      DoubleShift(b, Pow(2, n - 1));
      OrEven(a, b * Pow(2, n - 1));
    }
  }

  lemma {:induction false} Shifted(b: nat, p: nat)
    ensures b * p >= 0
  {
  }

  lemma {:induction false} DoubleShift(b: nat, p: nat)
    ensures b * (2 * p) == 2 * (b * p)
  {
  }

  lemma {:induction false} OrNothing(b: nat)
    ensures BitOr(0, b) == b
  {
  }

  lemma {:induction false} OrEven(a: nat, b: nat)
    ensures BitOr(a, 2 * b) == 2 * BitOr(a / 2, b) + a % 2
  {
  }
}
