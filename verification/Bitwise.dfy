/** Unsigned machine words as natural numbers: powers of two, the bitwise
    operators written out bit by bit, and the two bit orders of deflate. */
module Bitwise {
  import opened Collections

  type byte = x: nat | x < 256

  function Pow2(n: nat): (p: nat)
    ensures p >= 1
  {
    if n == 0 then 1 else 2 * Pow2(n - 1)
  }

  /** `v << n` and `v >> n`, before any truncation to a word. */
  function Shl(v: nat, n: nat): nat {
    if n == 0 then v else 2 * Shl(v, n - 1)
  }

  function Shr(v: nat, n: nat): nat {
    if n == 0 then v else Shr(v / 2, n - 1)
  }

  function Or(a: nat, b: nat): nat
    decreases a + b
  {
    if a == 0 && b == 0 then 0
    else (if a % 2 == 1 || b % 2 == 1 then 1 else 0) + 2 * Or(a / 2, b / 2)
  }

  function And(a: nat, b: nat): nat
    decreases a + b
  {
    if a == 0 && b == 0 then 0
    else (if a % 2 == 1 && b % 2 == 1 then 1 else 0) + 2 * And(a / 2, b / 2)
  }

  function Xor(a: nat, b: nat): nat
    decreases a + b
  {
    if a == 0 && b == 0 then 0
    else (if a % 2 != b % 2 then 1 else 0) + 2 * Xor(a / 2, b / 2)
  }

  /** The low `n` bits of `v`, least significant first. */
  function Bits(v: nat, n: nat): (bits: seq<bool>)
    ensures |bits| == n
  {
    if n == 0 then [] else [v % 2 == 1] + Bits(v / 2, n - 1)
  }

  /** The low `n` bits of `v`, most significant first. */
  function MsbBits(v: nat, n: nat): (bits: seq<bool>)
    ensures |bits| == n
  {
    if n == 0 then [] else MsbBits(v / 2, n - 1) + [v % 2 == 1]
  }

  /** The number in the first `n` bits, least significant first. */
  function ReadLsb(bits: seq<bool>, n: nat): (v: nat)
    requires n <= |bits|
  {
    if n == 0 then 0 else (if bits[0] then 1 else 0) + 2 * ReadLsb(bits[1..], n - 1)
  }

  /** The number in the first `n` bits, most significant first. */
  function ReadMsb(bits: seq<bool>, n: nat): (v: nat)
    requires n <= |bits|
  {
    if n == 0 then 0 else 2 * ReadMsb(bits, n - 1) + (if bits[n - 1] then 1 else 0)
  }

  /** Bytes as bits, each byte's least significant bit first (RFC 1951, section 3.1.1). */
  function BytesBits(bytes: seq<byte>): (bits: seq<bool>)
    ensures |bits| == 8 * |bytes|
  {
    if bytes == [] then [] else Bits(bytes[0], 8) + BytesBits(bytes[1..])
  }

  lemma BitsNext(v: nat, n: nat)
    ensures Bits(v, 0) == [] && Bits(v, n + 1) == [v % 2 == 1] + Bits(v / 2, n)
  {
  }

  lemma {:induction false} Pow2Monotone(m: nat, n: nat)
    requires m <= n
    ensures Pow2(m) <= Pow2(n)
  {
    if m < n {
      Pow2Monotone(m, n - 1);
    }
  }

  lemma {:induction false} OrZero(b: nat)
    ensures Or(0, b) == b
  {
    if b > 0 {
      OrZero(b / 2);
    }
  }

  lemma {:induction false} OrCommutes(a: nat, b: nat)
    ensures Or(a, b) == Or(b, a)
    decreases a + b
  {
    if a > 0 || b > 0 {
      OrCommutes(a / 2, b / 2);
    }
  }

  /** An OR into the clear bits above a `k`-bit number is an addition. */
  lemma {:induction false} OrAbove(a: nat, b: nat, k: nat)
    requires a < Pow2(k)
    ensures Or(a, Shl(b, k)) == a + Shl(b, k)
  {
    if k == 0 {
      OrZero(b);
    } else {
      OrAbove(a / 2, b, k - 1);
    }
  }

  lemma {:induction false} ShlAdds(a: nat, b: nat, k: nat)
    ensures Shl(a + b, k) == Shl(a, k) + Shl(b, k)
  {
    if k > 0 {
      ShlAdds(a, b, k - 1);
    }
  }

  lemma {:induction false} ShlOne(v: nat, k: nat)
    ensures Shl(v, k + 1) == Shl(2 * v, k)
  {
    if k > 0 {
      ShlOne(v, k - 1);
    }
  }

  /** An `n`-bit number above an `m`-bit number takes `m + n` bits. */
  lemma {:induction false} StackBound(a: nat, b: nat, m: nat, n: nat)
    requires a < Pow2(m) && b < Pow2(n)
    ensures a + Shl(b, m) < Pow2(m + n)
  {
    if m > 0 {
      StackBound(a / 2, b, m - 1, n);
    }
  }

  /** Stacking a number above an `m`-bit number concatenates their bits. */
  lemma {:induction false} BitsStack(a: nat, b: nat, m: nat, n: nat)
    requires a < Pow2(m)
    ensures Bits(a + Shl(b, m), m + n) == Bits(a, m) + Bits(b, n)
  {
    if m > 0 {
      BitsStack(a / 2, b, m - 1, n);
    }
  }

  lemma Pow2Next(n: nat)
    ensures Pow2(0) == 1 && Pow2(n + 1) == 2 * Pow2(n)
  {
  }

  lemma Pow2Two(n: nat)
    ensures Pow2(n + 2) == 4 * Pow2(n)
  {
    hide Pow2;
    Pow2Next(n);
    Pow2Next(n + 1);
  }

  lemma Pow2Eight(n: nat)
    ensures Pow2(n + 8) == 256 * Pow2(n)
  {
    hide Pow2;
    Pow2Two(n);
    Pow2Two(n + 2);
    Pow2Two(n + 4);
    Pow2Two(n + 6);
  }

  lemma Pow2Bytes()
    ensures Pow2(8) == 0x100 && Pow2(16) == 0x1_0000 && Pow2(24) == 0x100_0000 && Pow2(32) == 0x1_0000_0000
  {
    hide Pow2;
    Pow2Next(0);
    Pow2Eight(0);
    Pow2Eight(8);
    Pow2Eight(16);
    Pow2Eight(24);
  }

  lemma Pow2Word()
    ensures Pow2(64) == 0x1_0000_0000_0000_0000
  {
    hide Pow2;
    Pow2Bytes();
    Pow2Eight(32);
    Pow2Eight(40);
    Pow2Eight(48);
    Pow2Eight(56);
  }

  /** A number of at most 64 bits survives truncation to a 64-bit word. */
  lemma WordFits(v: nat, n: nat)
    requires n <= 64 && v < Pow2(n)
    ensures v % 0x1_0000_0000_0000_0000 == v
  {
    hide Pow2;
    Pow2Monotone(n, 64);
    Pow2Word();
  }

  lemma ShlNext(v: nat, n: nat)
    ensures Shl(v, 0) == v && Shl(v, n + 1) == 2 * Shl(v, n)
  {
  }

  lemma ShlTwo(v: nat, n: nat)
    ensures Shl(v, n + 2) == 4 * Shl(v, n)
  {
    hide Shl;
    ShlNext(v, n);
    ShlNext(v, n + 1);
  }

  lemma ShlSeven(v: nat)
    ensures Shl(v, 7) == 128 * v
  {
    hide Shl;
    ShlNext(v, 0);
    ShlTwo(v, 1);
    ShlTwo(v, 3);
    ShlTwo(v, 5);
  }

  lemma ShlEight(v: nat)
    ensures Shl(v, 8) == 256 * v
  {
    hide Shl;
    ShlSeven(v);
    ShlNext(v, 7);
  }

  lemma BitsByte(v: nat, n: nat)
    requires n >= 8 && v < Pow2(n)
    ensures v / 256 < Pow2(n - 8)
    ensures Bits(v, n) == Bits(v % 256, 8) + Bits(v / 256, n - 8)
  {
    hide Pow2, Shl, Bits;
    Pow2Eight(n - 8);
    Pow2Bytes();
    ShlEight(v / 256);
    BitsStack(v % 256, v / 256, 8, n - 8);
  }

  lemma {:induction false} ShlZero(k: nat)
    ensures Shl(0, k) == 0
  {
    if k > 0 {
      ShlZero(k - 1);
    }
  }

  lemma BitsPadded(v: nat, n: nat)
    requires n <= 8 && v < Pow2(n)
    ensures v < 256 && Bits(v, 8) == Bits(v, n) + Bits(0, 8 - n)
  {
    hide Pow2, Shl, Bits;
    Pow2Bytes();
    Pow2Monotone(n, 8);
    ShlZero(n);
    BitsStack(v, 0, n, 8 - n);
  }

  /** Reading one more bit of a code puts the next higher bit first. */
  lemma {:induction false} MsbBitsNext(code: nat, n: nat)
    ensures MsbBits(code, n + 1) == [Shr(code, n) % 2 == 1] + MsbBits(code, n)
  {
    if n > 0 {
      MsbBitsNext(code / 2, n - 1);
    } else {
      assert MsbBits(code, 1) == MsbBits(code / 2, 0) + [code % 2 == 1];
    }
  }

  lemma {:induction false} ReadLsbBits(v: nat, n: nat, rest: seq<bool>)
    requires v < Pow2(n)
    ensures ReadLsb(Bits(v, n) + rest, n) == v
  {
    if n > 0 {
      ReadLsbBits(v / 2, n - 1, rest);
      assert (Bits(v, n) + rest)[1..] == Bits(v / 2, n - 1) + rest;
    }
  }

  lemma {:induction false} ReadMsbBits(v: nat, n: nat, rest: seq<bool>)
    requires v < Pow2(n)
    ensures ReadMsb(MsbBits(v, n) + rest, n) == v
  {
    if n > 0 {
      ReadMsbBits(v / 2, n - 1, [v % 2 == 1] + rest);
      assert MsbBits(v, n) + rest == MsbBits(v / 2, n - 1) + ([v % 2 == 1] + rest);
    }
  }

  lemma {:induction false} BytesBitsConcat(a: seq<byte>, b: seq<byte>)
    ensures BytesBits(a + b) == BytesBits(a) + BytesBits(b)
  {
    hide Bits, BytesBits;
    if a == [] {
      assert a + b == b;
      NoBytes(b);
    } else {
      BytesBitsConcat(a[1..], b);
      assert (a + b)[1..] == a[1..] + b;
      FirstByteBits(a);
      FirstByteBits(a + b);
      Regroup(Bits(a[0], 8), BytesBits(a[1..]), BytesBits(b));
    }
  }

  lemma NoBytes(b: seq<byte>)
    ensures BytesBits([]) + BytesBits(b) == BytesBits(b)
  {
  }

  lemma FirstByteBits(bytes: seq<byte>)
    requires bytes != []
    ensures BytesBits(bytes) == Bits(bytes[0], 8) + BytesBits(bytes[1..])
  {
  }

  lemma BytesBitsAppend(out: seq<byte>, last: byte)
    ensures BytesBits(out + [last]) == BytesBits(out) + Bits(last, 8)
  {
    BytesBitsConcat(out, [last]);
    assert BytesBits([last]) == Bits(last, 8);
  }

  lemma DivisionIs(a: nat, m: nat, q: nat, r: nat)
    requires a == q * m + r && r < m
    ensures a % m == r && a / m == q
  {
    var d := a / m - q;
    assert a == a / m * m + a % m;
    assert d * m == r - a % m;
    assert d >= 1 ==> d * m >= m;
    assert d <= -1 ==> d * m <= -(m as int);
  }

  lemma {:induction false} XorZero(a: nat)
    ensures Xor(a, 0) == a
  {
    if a > 0 {
      XorZero(a / 2);
    }
  }

  lemma XorHalves(a: nat, b: nat)
    ensures Xor(a, b) / 2 == Xor(a / 2, b / 2)
    ensures Xor(a, b) % 2 == if a % 2 == b % 2 then 0 else 1
  {
  }

  lemma {:induction false} XorAssociates(a: nat, b: nat, c: nat)
    ensures Xor(Xor(a, b), c) == Xor(a, Xor(b, c))
    decreases a + b + c
  {
    if a > 0 || b > 0 || c > 0 {
      hide Xor;
      XorHalves(a, b);
      XorHalves(Xor(a, b), c);
      XorHalves(b, c);
      XorHalves(a, Xor(b, c));
      XorAssociates(a / 2, b / 2, c / 2);
    }
  }

  lemma {:induction false} XorCommutes(a: nat, b: nat)
    ensures Xor(a, b) == Xor(b, a)
    decreases a + b
  {
    if a > 0 || b > 0 {
      XorCommutes(a / 2, b / 2);
    }
  }

  lemma {:induction false} XorBound(a: nat, b: nat, n: nat)
    requires a < Pow2(n) && b < Pow2(n)
    ensures Xor(a, b) < Pow2(n)
  {
    if n > 0 {
      XorBound(a / 2, b / 2, n - 1);
    }
  }

  lemma {:induction false} AndZero(a: nat)
    ensures And(a, 0) == 0
  {
    if a > 0 {
      AndZero(a / 2);
    }
  }

  lemma AndHalves(a: nat, b: nat)
    ensures And(a, b) == (if a % 2 == 1 && b % 2 == 1 then 1 else 0) + 2 * And(a / 2, b / 2)
  {
  }

  lemma AndOne(a: nat)
    ensures And(a, 1) == a % 2
  {
    assert And(a / 2, 0) == 0 by { AndZero(a / 2); }
  }

  lemma AndTwice(a: nat, m: nat)
    requires m > 0
    ensures And(a, 2 * m - 1) == a % 2 + 2 * And(a / 2, m - 1)
  {
  }

  lemma HalfModulo(a: nat, m: nat)
    requires m > 0
    ensures a % (2 * m) == a % 2 + 2 * (a / 2 % m)
  {
    var q, r := a / 2 / m, a / 2 % m;
    assert a == 2 * (q * m + r) + a % 2;
    assert 2 * (q * m) == q * (2 * m);
    DivisionIs(a, 2 * m, q, 2 * r + a % 2);
  }

  lemma {:induction false} AndMask(a: nat, n: nat)
    ensures And(a, Pow2(n) - 1) == a % Pow2(n)
  {
    hide And, Pow2;
    Pow2Next(0);
    if n == 0 {
      AndZero(a);
    } else {
      var m := Pow2(n - 1);
      Pow2Next(n - 1);
      AndMask(a / 2, n - 1);
      HalfModulo(a, m);
      AndTwice(a, m);
    }
  }

  /** Masking with 0xFF keeps the low byte. */
  lemma AndByte(a: nat)
    ensures And(a, 0xFF) == a % 256
  {
    hide And, Pow2;
    AndMask(a, 8);
    Pow2Bytes();
  }

  lemma ShrTwo(v: nat, n: nat)
    requires n >= 2
    ensures Shr(v, n) == Shr(v / 4, n - 2)
  {
  }

  lemma ShrNone(v: nat)
    ensures Shr(v, 0) == v
  {
  }

  lemma ShrEight(v: nat)
    ensures Shr(v, 8) == v / 256
  {
    hide Shr;
    ShrTwo(v, 8);
    ShrTwo(v / 4, 6);
    ShrTwo(v / 16, 4);
    ShrTwo(v / 64, 2);
    ShrNone(v / 256);
  }

  lemma {:induction false} XorShr(a: nat, b: nat, n: nat)
    ensures Shr(Xor(a, b), n) == Xor(Shr(a, n), Shr(b, n))
    decreases n
  {
    if n > 0 {
      XorHalves(a, b);
      XorShr(a / 2, b / 2, n - 1);
    }
  }

  lemma {:induction false} XorAbove(a: nat, b: nat, k: nat)
    requires a < Pow2(k)
    ensures Xor(a, Shl(b, k)) == a + Shl(b, k)
  {
    hide Xor, Shl, Pow2;
    ShlNext(b, 0);
    Pow2Next(0);
    if k == 0 {
      XorZero(b);
      XorCommutes(0, b);
    } else {
      Pow2Next(k - 1);
      ShlNext(b, k - 1);
      XorAbove(a / 2, b, k - 1);
      XorHalves(a, Shl(b, k));
    }
  }

  lemma {:induction false} ShlTwice(v: nat, m: nat, n: nat)
    ensures Shl(v, m + n) == Shl(Shl(v, m), n)
    decreases n
  {
    if n > 0 {
      ShlTwice(v, m, n - 1);
    }
  }

  lemma ShlSixteen(v: nat)
    ensures Shl(v, 16) == 0x1_0000 * v
  {
    hide Shl;
    ShlEight(v);
    ShlTwice(v, 8, 8);
    ShlEight(256 * v);
  }

  /** The bitwise operators work on the parts below and above a bit apart. */
  lemma {:induction false} SplitAnd(a: nat, b: nat, c: nat, d: nat, k: nat)
    requires a < Pow2(k) && c < Pow2(k)
    ensures And(a + Shl(b, k), c + Shl(d, k)) == And(a, c) + Shl(And(b, d), k)
    decreases k
  {
    hide And;
    if k > 0 {
      SplitAnd(a / 2, b, c / 2, d, k - 1);
      AndHalves(a + Shl(b, k), c + Shl(d, k));
      AndHalves(a, c);
    } else {
      AndZero(0);
    }
  }

  lemma {:induction false} SplitXor(a: nat, b: nat, c: nat, d: nat, k: nat)
    requires a < Pow2(k) && c < Pow2(k)
    ensures Xor(a + Shl(b, k), c + Shl(d, k)) == Xor(a, c) + Shl(Xor(b, d), k)
    decreases k
  {
    hide Xor;
    if k > 0 {
      SplitXor(a / 2, b, c / 2, d, k - 1);
      XorHalves(a + Shl(b, k), c + Shl(d, k));
      XorHalves(a, c);
    } else {
      XorZero(0);
    }
  }

  lemma {:induction false} ShrTwice(value: nat, m: nat, n: nat)
    ensures Shr(value, m + n) == Shr(Shr(value, m), n)
    decreases m
  {
    if m > 0 {
      ShrTwice(value / 2, m - 1, n);
    }
  }
}
