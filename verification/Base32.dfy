/**
  The base32 encoder of the lookup worker: section 6 of RFC 4648, lower case, without padding.

  The accumulator is a 32-bit integer that wraps; it is carried as its unsigned value.
 */
module Base32 {
  import opened NumberTheory
  import opened Bytes

  const ABC := "abcdefghijklmnopqrstuvwxyz234567"
  const WORD := 0x1_0000_0000

  function Letter(d: nat): char
    requires d < 32
  {
    ABC[d]
  }

  /** The bytes as one number, most significant first. */
  function BigEndian(bytes: seq<byte>): nat {
    if bytes == [] then 0 else 256 * BigEndian(bytes[..|bytes| - 1]) + bytes[|bytes| - 1]
  }

  /** The last k digits of n in base 32, most significant first. */
  function Digits(n: nat, k: nat): (s: seq<nat>)
    ensures |s| == k && forall d :: d in s ==> d < 32
  {
    if k == 0 then [] else Digits(n / 32, k - 1) + [n % 32]
  }

  function Chars(digits: seq<nat>): (s: string)
    requires forall d :: d in digits ==> d < 32
    ensures |s| == |digits|
  {
    seq(|digits|, i requires 0 <= i < |digits| => assert digits[i] in digits; Letter(digits[i]))
  }

  function Text(n: nat, k: nat): (s: string)
    ensures |s| == k
  {
    Chars(Digits(n, k))
  }

  /** Characters for n bytes: five bits each, the last one filled up. */
  function Length(n: nat): nat {
    (8 * n + 4) / 5
  }

  /** The bits of the bytes in groups of five, zeros filling the last group. */
  function Encode(bytes: seq<byte>): string {
    var m := Length(|bytes|);
    PowPositive(2, 5 * m - 8 * |bytes|);
    Text(BigEndian(bytes) * Pow(2, 5 * m - 8 * |bytes|), m)
  }

  // ---------------------------------------------------------------- the accumulator

  /** `v >>> k` on a 32-bit value. */
  function ShiftRight(v: nat, k: nat): nat {
    PowPositive(2, k);
    v / Pow(2, k)
  }

  /** `v << k`, wrapping at 32 bits. */
  function ShiftLeft(v: nat, k: nat): nat {
    PowPositive(2, k);
    assert v * Pow(2, k) >= 0;
    v * Pow(2, k) % WORD
  }

  lemma {:induction false} SmallPowers()
    ensures Pow(2, 0) == 1 && Pow(2, 1) == 2 && Pow(2, 2) == 4 && Pow(2, 3) == 8 && Pow(2, 4) == 16
    ensures Pow(2, 5) == 32 && Pow(2, 6) == 64 && Pow(2, 7) == 128
  {
    assert Pow(2, 3) == 8;
    assert Pow(2, 4) == 2 * Pow(2, 3);
    assert Pow(2, 5) == 2 * Pow(2, 4);
    assert Pow(2, 6) == 2 * Pow(2, 5);
    assert Pow(2, 7) == 2 * Pow(2, 6);
  }

  lemma {:induction false} DivDiv(n: nat, a: nat, b: nat)
    requires a > 0 && b > 0
    ensures a * b > 0 && n / a / b == n / (a * b)
  {
    var q, r := Quotient(n, a);
    var s, t := Quotient(q, b);
    NestedRemainder(a, b, t, r);
    assert s * b * a == s * (a * b);
    Distribute(s * b, t, a);
    DivModUnique(n, a * b, s, t * a + r);
  }

  lemma {:induction false} Quotient(n: nat, a: nat) returns (q: nat, r: nat)
    requires a > 0
    ensures n == q * a + r && r < a && q == n / a && r == n % a
  {
    q, r := n / a, n % a;
  }

  lemma {:induction false} NestedRemainder(a: nat, b: nat, t: nat, r: nat)
    requires t < b && r < a
    ensures a * b > 0 && t * a + r < a * b
  {
    assert (t + 1) * a == t * a + a;
    assert (t + 1) * a <= b * a;
  }

  /** Only the low 12 bits are ever read, so what wrapped away does not matter. */
  lemma {:induction false} ReadsLowBits(n: nat, j: nat)
    requires j <= 7
    ensures ShiftRight(n % WORD, j) % 32 == ShiftRight(n, j) % 32
  {
    SmallPowers();
    var c := Pow(2, j);
    assert c == 1 || c == 2 || c == 4 || c == 8 || c == 16 || c == 32 || c == 64 || c == 128;
    assert WORD == (WORD / 32 / c * 32) * c;
    LowDigit(n, WORD / 32 / c, c);
  }

  lemma {:induction false} LowDigit(n: nat, w: nat, c: nat)
    requires c > 0 && w > 0
    ensures w * 32 * c > 0 && n % (w * 32 * c) / c % 32 == n / c % 32
  {
    var m := w * 32 * c;
    assert m > 0;
    var q, r := Quotient(n, m);
    assert q * m == (q * w * 32) * c;
    DivShift(r, q * w * 32, c);
    ModShift(r / c, q * w, 32);
  }

  lemma {:induction false} DivShift(r: nat, k: nat, c: nat)
    requires c > 0
    ensures (k * c + r) / c == k + r / c
  {
    var q, t := Quotient(r, c);
    Distribute(k, q, c);
    DivModUnique(k * c + r, c, k + q, t);
  }

  /** One more byte: the digits already taken stay the digits of the longer number. */
  lemma {:induction false} AppendByte(n: nat, b: byte, bits: nat)
    ensures ShiftRight(256 * n + b, bits + 8) == ShiftRight(n, bits)
  {
    PowPositive(2, bits);
    PowAdd(2, 8, bits);
    SmallPowers();
    assert Pow(2, 8) == 2 * Pow(2, 7);
    DivDiv(256 * n + b, 256, Pow(2, bits));
    assert (256 * n + b) / 256 == n;
  }

  /** The accumulator stays the number modulo 2^32. */
  lemma {:induction false} AppendWraps(n: nat, b: byte)
    ensures ShiftLeft(n % WORD, 8) + b == (256 * n + b) % WORD
  {
    SmallPowers();
    assert Pow(2, 8) == 2 * Pow(2, 7);
    var v := 0x100_0000;
    var q, r := Quotient(n, v);
    DivModUnique(256 * n + b, WORD, q, 256 * r + b);
    var q', r' := Quotient(n % WORD, v);
    assert r' == r;
    DivModUnique(256 * (n % WORD), WORD, q', 256 * r');
  }

  lemma {:induction false} TakeDigit(n: nat, bits: nat)
    requires bits >= 5
    ensures ShiftRight(n, bits - 5) / 32 == ShiftRight(n, bits)
  {
    PowPositive(2, bits - 5);
    PowPositive(2, bits);
    PowAdd(2, bits - 5, 5);
    SmallPowers();
    DivDiv(n, Pow(2, bits - 5), 32);
  }

  /** The last group: the remaining bits shifted up. */
  lemma {:induction false} FillUp(n: nat, bits: nat)
    requires 0 < bits < 5
    ensures n * Pow(2, 5 - bits) >= 0
    ensures n * Pow(2, 5 - bits) / 32 == ShiftRight(n, bits)
    ensures ShiftLeft(n % WORD, 5 - bits) % 32 == n * Pow(2, 5 - bits) % 32
  {
    SmallPowers();
    var a, b := Pow(2, bits), Pow(2, 5 - bits);
    assert a * b == 32 && b * a == 32;
    DivDiv(n * b, b, a);
    assert n * b / b == n by {
      DivModUnique(n * b, b, n, 0);
    }
    var q, r := n / WORD, n % WORD;
    assert n * b == r * b + (q * b * 134217728) * 32;
    ModShift(r * b, q * b * 134217728, 32);
    WordIsMultiple(r * b);
  }

  lemma {:induction false} WordIsMultiple(x: nat)
    ensures x % WORD % 32 == x % 32
  {
    var q, r := x / WORD, x % WORD;
    assert x == r + (q * 134217728) * 32;
    ModShift(r, q * 134217728, 32);
  }

  lemma {:induction false} AppendChar(digits: seq<nat>, d: nat)
    requires d < 32 && forall x :: x in digits ==> x < 32
    ensures Chars(digits + [d]) == Chars(digits) + [Letter(d)]
  {
  }

  lemma {:induction false} OneDigit(n: nat, bits: nat, out: string)
    requires 5 <= bits <= 12 && out == Text(ShiftRight(n, bits), |out|)
    ensures out + [Letter(ShiftRight(n % WORD, bits - 5) % 32)] == Text(ShiftRight(n, bits - 5), |out| + 1)
  {
    hide Text, ShiftRight, Letter;
    ReadsLowBits(n, bits - 5);
    TakeDigit(n, bits);
    ExtendChars(ShiftRight(n, bits - 5), |out|);
  }

  lemma {:induction false} ExtendChars(x: nat, k: nat)
    ensures Text(x / 32, k) + [Letter(x % 32)] == Text(x, k + 1)
  {
    AppendChar(Digits(x / 32, k), x % 32);
  }

  lemma {:induction false} LastDigit(n: nat, bits: nat, out: string)
    requires 0 < bits < 5 && out == Text(ShiftRight(n, bits), |out|)
    ensures n * Pow(2, 5 - bits) >= 0
    ensures out + [Letter(ShiftLeft(n % WORD, 5 - bits) % 32)] == Text(n * Pow(2, 5 - bits), |out| + 1)
  {
    hide Text, ShiftRight, ShiftLeft, Letter;
    FillUp(n, bits);
    ExtendChars(n * Pow(2, 5 - bits), |out|);
  }

  lemma {:induction false} BigEndianStep(bytes: seq<byte>, k: nat)
    requires k < |bytes|
    ensures BigEndian(bytes[..k + 1]) == 256 * BigEndian(bytes[..k]) + bytes[k]
  {
    assert bytes[..k + 1][..k] == bytes[..k];
  }

  method Base32(bytes: seq<byte>) returns (out: string)
    ensures out == Encode(bytes)
  {
    hide Text, BigEndian, Encode, ShiftRight, ShiftLeft, Letter;
    var bits: nat, value: nat := 0, 0;
    out := "";
    var k := 0;
    NothingYet(bytes);
    while k < |bytes|
      invariant 0 <= k <= |bytes| && bits < 5 && bits + 5 * |out| == 8 * k
      invariant value == BigEndian(bytes[..k]) % WORD
      invariant out == Text(ShiftRight(BigEndian(bytes[..k]), bits), |out|)
    {
      ghost var n := BigEndian(bytes[..k + 1]);
      BigEndianStep(bytes, k);
      AppendByte(BigEndian(bytes[..k]), bytes[k], bits);
      AppendWraps(BigEndian(bytes[..k]), bytes[k]);
      value := ShiftLeft(value, 8) + bytes[k];
      bits := bits + 8;
      while bits >= 5
        invariant bits <= 12 && bits + 5 * |out| == 8 * (k + 1)
        invariant value == n % WORD
        invariant out == Text(ShiftRight(n, bits), |out|)
      {
        OneDigit(n, bits, out);
        out := out + [Letter(ShiftRight(value, bits - 5) % 32)];
        bits := bits - 5;
      }
      k := k + 1;
    }
    assert bytes[..k] == bytes;
    Finished(bytes, bits, |out|);
    if bits > 0 {
      LastDigit(BigEndian(bytes), bits, out);
      out := out + [Letter(ShiftLeft(value, 5 - bits) % 32)];
    }
  }

  lemma {:induction false} NothingYet(bytes: seq<byte>)
    ensures BigEndian(bytes[..0]) == 0 && Text(ShiftRight(0, 0), 0) == ""
  {
  }

  lemma {:induction false} Finished(bytes: seq<byte>, bits: nat, length: nat)
    requires bits < 5 && bits + 5 * length == 8 * |bytes|
    ensures BigEndian(bytes) * Pow(2, 5 - bits) >= 0
    ensures Encode(bytes) == if bits == 0 then Text(ShiftRight(BigEndian(bytes), bits), length)
                             else Text(BigEndian(bytes) * Pow(2, 5 - bits), length + 1)
  {
    hide Text, BigEndian;
    PowPositive(2, 5 - bits);
    if bits == 0 {
      assert Length(|bytes|) == length;
      NoShift(BigEndian(bytes));
    } else {
      assert Length(|bytes|) == length + 1;
    }
  }

  lemma {:induction false} NoShift(n: nat)
    ensures n * Pow(2, 0) == n && ShiftRight(n, 0) == n
  {
  }

  // ---------------------------------------------------------------- the inverse

  function ValueOf(c: char): nat {
    if 'a' <= c <= 'z' then (c as int - 'a' as int) else if '2' <= c <= '7' then 26 + (c as int - '2' as int) else 0
  }

  lemma {:induction false} AlphabetInverse(d: nat)
    requires d < 32
    ensures ValueOf(Letter(d)) == d
  {
  }

  function Number(digits: seq<nat>): nat {
    if digits == [] then 0 else 32 * Number(digits[..|digits| - 1]) + digits[|digits| - 1]
  }

  function BytesOf(n: nat, k: nat): (s: seq<byte>)
    ensures |s| == k
  {
    if k == 0 then [] else BytesOf(n / 256, k - 1) + [n % 256]
  }

  /** Reads whole bytes from the groups of five bits and drops the filling. */
  function Decode(s: string): seq<byte> {
    var n := 5 * |s| / 8;
    BytesOf(ShiftRight(Number(seq(|s|, i requires 0 <= i < |s| => ValueOf(s[i]))), 5 * |s| - 8 * n), n)
  }

  lemma {:induction false} NumberOfDigits(n: nat, k: nat)
    requires n < Pow(32, k)
    ensures Number(Digits(n, k)) == n
  {
    if k > 0 {
      NumberOfDigits(n / 32, k - 1);
      assert Digits(n, k)[..k - 1] == Digits(n / 32, k - 1);
    }
  }

  lemma {:induction false} BytesOfBigEndian(bytes: seq<byte>)
    ensures BytesOf(BigEndian(bytes), |bytes|) == bytes
    ensures BigEndian(bytes) < Pow(256, |bytes|)
  {
    if bytes != [] {
      var k := |bytes| - 1;
      BytesOfBigEndian(bytes[..k]);
      assert BigEndian(bytes) / 256 == BigEndian(bytes[..k]);
      assert bytes == bytes[..k] + [bytes[k]];
    }
  }

  lemma {:induction false} PaddedBound(bytes: seq<byte>, pad: nat, m: nat)
    requires 8 * |bytes| + pad == 5 * m
    ensures Pow(2, pad) > 0 && BigEndian(bytes) * Pow(2, pad) < Pow(32, m)
  {
    var n := |bytes|;
    BytesOfBigEndian(bytes);
    PowPositive(2, pad);
    PowMul(2, 8, n);
    PowMul(2, 5, m);
    PowAdd(2, 8 * n, pad);
    SmallPowers();
    assert Pow(2, 8) == 2 * Pow(2, 7);
    Stretch(BigEndian(bytes), Pow(256, n), Pow(2, pad));
  }

  lemma {:induction false} Stretch(a: nat, b: nat, c: nat)
    requires a < b && c > 0
    ensures a * c < b * c
  {
  }

  /** The encoding loses nothing. */
  lemma {:induction false} DecodeEncode(bytes: seq<byte>)
    ensures Decode(Encode(bytes)) == bytes
  {
    hide Letter, ValueOf, Digits, BytesOf, BigEndian, Number, Pow;
    var n, m := |bytes|, Length(|bytes|);
    var pad := 5 * m - 8 * n;
    PaddedBound(bytes, pad, m);
    var x := BigEndian(bytes) * Pow(2, pad);
    var s := Text(x, m);
    assert 5 * m / 8 == n;
    ValuesOfText(x, m, seq(m, i requires 0 <= i < m => ValueOf(s[i])));
    NumberOfDigits(x, m);
    DivModUnique(x, Pow(2, pad), BigEndian(bytes), 0);
    BytesOfBigEndian(bytes);
  }

  lemma {:induction false} ValuesOfText(x: nat, m: nat, values: seq<nat>)
    requires |values| == m && forall i :: 0 <= i < m ==> values[i] == ValueOf(Text(x, m)[i])
    ensures values == Digits(x, m)
  {
    hide Letter, ValueOf;
    var digits := Digits(x, m);
    forall i | 0 <= i < m ensures values[i] == digits[i] {
      assert digits[i] in digits;
      AlphabetInverse(digits[i]);
    }
  }

  lemma {:induction false} EncodeInjective(bytes1: seq<byte>, bytes2: seq<byte>)
    requires Encode(bytes1) == Encode(bytes2)
    ensures bytes1 == bytes2
  {
    DecodeEncode(bytes1);
    DecodeEncode(bytes2);
  }

  /** An id: 26 characters of the alphabet for 16 bytes. */
  lemma {:induction false} IdShape(bytes: seq<byte>)
    requires |bytes| == 16
    ensures |Encode(bytes)| == 26 && forall c :: c in Encode(bytes) ==> 'a' <= c <= 'z' || '2' <= c <= '7'
  {
    var s := Encode(bytes);
    forall c | c in s
      ensures 'a' <= c <= 'z' || '2' <= c <= '7'
    {
      var i :| 0 <= i < |s| && s[i] == c;
      var d := Digits(BigEndian(bytes) * Pow(2, 2), 26)[i];
      assert d in Digits(BigEndian(bytes) * Pow(2, 2), 26);
      InAlphabet(d);
    }
  }

  lemma {:induction false} InAlphabet(d: nat)
    requires d < 32
    ensures 'a' <= Letter(d) <= 'z' || '2' <= Letter(d) <= '7'
  {
  }
}
