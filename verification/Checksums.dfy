/** The CRC-32 of PNG chunks and the Adler-32 of zlib streams. */
module Checksums {
  import opened Collections
  import opened Bitwise

  // The CRC as polynomial division -------------------------------------------

  /** The generator's coefficients below x^32, from x^31 down (PNG specification, section 5.5). */
  function Generator(): (g: seq<bool>)
    ensures |g| == 32
  {
    seq(32, i requires 0 <= i < 32 => 31 - i in {26, 23, 22, 16, 12, 11, 10, 8, 7, 5, 4, 2, 1, 0})
  }

  /** Adds `mask` to the leading coefficients of `bits`, modulo two. */
  function AddLeading(bits: seq<bool>, mask: seq<bool>): (r: seq<bool>)
    requires |mask| <= |bits|
    ensures |r| == |bits|
  {
    seq(|bits|, i requires 0 <= i < |bits| => if i < |mask| then bits[i] != mask[i] else bits[i])
  }

  /** The remainder of long division by the generator, highest coefficient first. */
  function LongDivide(bits: seq<bool>): (r: seq<bool>)
    requires |bits| >= 32
    ensures |r| == 32
    decreases |bits|
  {
    if |bits| == 32 then bits
    else LongDivide(if bits[0] then AddLeading(bits[1..], Generator()) else bits[1..])
  }

  /** The CRC that PNG defines: the message's bits, each byte's lowest first, and 32 zeros, with the
      leading 32 bits inverted, are divided by the generator, and the remainder is inverted. */
  function PngCrc(data: seq<byte>): seq<bool> {
    var message := BytesBits(data) + Repeated(false, 32);
    AddLeading(LongDivide(AddLeading(message, Repeated(true, 32))), Repeated(true, 32))
  }

  const POLYNOMIAL: nat := 0xEDB88320

  lemma BitsPair(v: nat, n: nat)
    requires n >= 2
    ensures Bits(v, n) == [v % 2 == 1, v / 2 % 2 == 1] + Bits(v / 4, n - 2)
  {
    hide Bits;
    BitsNext(v, n - 1);
    BitsNext(v / 2, n - 2);
  }

  lemma Quarters(v: nat)
    ensures v / 4 / 2 == v / 8 && v / 4 / 4 == v / 16
  {
  }

  lemma BitsNibble(v: nat, n: nat)
    requires n >= 4
    ensures Bits(v, n) == [v % 2 == 1, v / 2 % 2 == 1, v / 4 % 2 == 1, v / 8 % 2 == 1] + Bits(v / 16, n - 4)
  {
    hide Bits;
    BitsPair(v, n);
    BitsPair(v / 4, n - 2);
    Quarters(v);
  }

  lemma LowPolynomialBits(v: nat)
    requires v / 0x1_0000 == 0xEDB8 && v % 0x1_0000 == 0x8320
    ensures Bits(v, 32) == Generator()[..16] + Bits(0xEDB8, 16)
  {
    hide Bits;
    BitsNibble(0xEDB88320, 32);
    BitsNibble(0xEDB8832, 28);
    BitsNibble(0xEDB883, 24);
    BitsNibble(0xEDB88, 20);
  }

  lemma PolynomialBits()
    ensures Bits(POLYNOMIAL, 32) == Generator()
  {
    hide Bits;
    LowPolynomialBits(POLYNOMIAL);
    BitsNibble(0xEDB8, 16);
    BitsNibble(0xEDB, 12);
    BitsNibble(0xED, 8);
    BitsNibble(0xE, 4);
    BitsNext(0, 0);
  }

  lemma {:induction false} XorBits(a: nat, b: nat, n: nat)
    ensures Bits(Xor(a, b), n) == AddLeading(Bits(a, n), Bits(b, n))
  {
    hide Bits, Xor;
    BitsNext(a, 0);
    BitsNext(b, 0);
    BitsNext(Xor(a, b), 0);
    if n > 0 {
      XorBits(a / 2, b / 2, n - 1);
      XorHalves(a, b);
      BitsNext(a, n - 1);
      BitsNext(b, n - 1);
      BitsNext(Xor(a, b), n - 1);
    }
  }

  // One bit, and one byte, of the register -------------------------------------

  /** One step of the table's inner loop: divides by x, with the coefficient that leaves folded back in. */
  function Feed(value: nat): nat {
    if And(value, 1) != 0 then Xor(POLYNOMIAL, Shr(value, 1)) else Shr(value, 1)
  }

  function Feeds(value: nat, n: nat): nat
    decreases n
  {
    if n == 0 then value else Feeds(Feed(value), n - 1)
  }

  lemma FeedIs(value: nat)
    ensures Feed(value) == if value % 2 == 1 then Xor(POLYNOMIAL, value / 2) else value / 2
  {
    AndOne(value);
    assert Shr(value, 1) == Shr(value / 2, 0);
  }

  lemma FeedBound(value: nat)
    requires value < Pow2(32)
    ensures Feed(value) < Pow2(32)
  {
    hide Pow2, Xor;
    FeedIs(value);
    Pow2Bytes();
    XorBound(POLYNOMIAL, value / 2, 32);
  }

  /** What is fed in above the low bit comes out one place lower. */
  lemma FeedAbove(value: nat, above: nat)
    ensures Feed(Xor(value, 2 * above)) == Xor(Feed(value), above)
  {
    FeedIs(value);
    FeedIs(Xor(value, 2 * above));
    XorHalves(value, 2 * above);
    XorAssociates(POLYNOMIAL, value / 2, above);
  }

  lemma {:induction false} FeedsAbove(value: nat, above: nat, n: nat)
    ensures Feeds(Xor(value, Shl(above, n)), n) == Xor(Feeds(value, n), above)
    decreases n
  {
    if n > 0 {
      FeedAbove(value, Shl(above, n - 1));
      FeedsAbove(Feed(value), above, n - 1);
    }
  }

  /** The dividend when `register` has been added to the leading bits of what is left. */
  function Dividend(register: nat, bits: seq<bool>): (r: seq<bool>)
    ensures |r| == |bits| + 32
  {
    AddLeading(bits + Repeated(false, 32), Bits(register, 32))
  }

  lemma {:induction false} BitsExtra(v: nat, n: nat)
    requires v < Pow2(n)
    ensures Bits(v, n + 1) == Bits(v, n) + [false]
  {
    if n > 0 {
      BitsExtra(v / 2, n - 1);
    } else {
      assert Bits(0, 1) == [false] + Bits(0, 0);
    }
  }

  lemma BitsHalf(v: nat)
    requires v < Pow2(32)
    ensures Bits(v, 32) == [v % 2 == 1] + Bits(v / 2, 31)
    ensures Bits(v / 2, 32) == Bits(v / 2, 31) + [false]
  {
    BitsExtra(v / 2, 31);
  }

  lemma DropLead(h: bool, z: seq<bool>, b: bool, y: seq<bool>)
    requires |y| < |z|
    ensures AddLeading([h] + z, [b] + y)[0] == (h != b)
    ensures AddLeading([h] + z, [b] + y)[1..] == AddLeading(z, y + [false])
  {
  }

  lemma DivideStep(bits: seq<bool>)
    requires |bits| > 32
    ensures LongDivide(bits) == LongDivide(if bits[0] then AddLeading(bits[1..], Generator()) else bits[1..])
  {
  }

  /** The register after one bit, on its own. */
  lemma RegisterBits(register: nat, bit: nat)
    requires register < Pow2(32) && bit < 2
    ensures (Xor(register, bit) % 2 == 1) == ((bit == 1) != (register % 2 == 1))
    ensures Bits(Feed(Xor(register, bit)), 32) ==
      if Xor(register, bit) % 2 == 1 then AddLeading(Bits(register / 2, 32), Generator()) else Bits(register / 2, 32)
  {
    hide Bits, Xor, Feed, Generator, AddLeading, Pow2;
    XorHalves(register, bit);
    XorZero(register / 2);
    FeedIs(Xor(register, bit));
    XorCommutes(POLYNOMIAL, register / 2);
    XorBits(register / 2, POLYNOMIAL, 32);
    PolynomialBits();
  }

  /** One step of the division is one step of the register. */
  lemma BitStep(register: nat, bit: nat, rest: seq<bool>)
    requires register < Pow2(32) && bit < 2
    ensures LongDivide(Dividend(register, [bit == 1] + rest)) == LongDivide(Dividend(Feed(Xor(register, bit)), rest))
  {
    hide Bits, Xor, Feed, Generator, LongDivide, AddLeading, Pow2, Repeated;
    var z := rest + Repeated(false, 32);
    assert [bit == 1] + rest + Repeated(false, 32) == [bit == 1] + z;
    BitsHalf(register);
    DropLead(bit == 1, z, register % 2 == 1, Bits(register / 2, 31));
    DivideStep(Dividend(register, [bit == 1] + rest));
    RegisterBits(register, bit);
    AddTwice(z, Bits(register / 2, 32), Generator());
  }

  lemma AddTwice(s: seq<bool>, a: seq<bool>, b: seq<bool>)
    requires |a| == |b| <= |s|
    ensures AddLeading(AddLeading(s, a), b) == AddLeading(s, AddLeading(a, b))
  {
  }

  /** The bits of a number feed the register as the number does. */
  lemma {:induction false} BitsStep(register: nat, v: nat, n: nat, rest: seq<bool>)
    requires register < Pow2(32) && v < Pow2(n)
    ensures LongDivide(Dividend(register, Bits(v, n) + rest)) == LongDivide(Dividend(Feeds(Xor(register, v), n), rest))
    decreases n
  {
    hide Feed, Feeds, Xor, LongDivide, Dividend, Bits, Pow2;
    if n == 0 {
      Pow2Next(0);
      XorZero(register);
      NothingFed(register, v, rest);
    } else {
      Pow2Next(n - 1);
      var first := Feed(Xor(register, v % 2));
      BitsFirst(v, n, rest);
      BitStep(register, v % 2, Bits(v / 2, n - 1) + rest);
      LowBitFits(register, v);
      FeedBound(Xor(register, v % 2));
      BitsStep(first, v / 2, n - 1, rest);
      FedFirst(register, v, n);
    }
  }

  lemma NothingFed(register: nat, v: nat, rest: seq<bool>)
    ensures Bits(v, 0) + rest == rest && Feeds(register, 0) == register
  {
  }

  /** Feeding the low bit alone and the others after it comes to feeding the number. */
  lemma FedFirst(register: nat, v: nat, n: nat)
    requires n > 0
    ensures Feeds(Xor(register, v), n) == Feeds(Xor(Feed(Xor(register, v % 2)), v / 2), n - 1)
  {
    hide Feed, Xor;
    SplitLowBit(v);
    XorAssociates(register, v % 2, 2 * (v / 2));
    FeedAbove(Xor(register, v % 2), v / 2);
  }

  lemma BitsFirst(v: nat, n: nat, rest: seq<bool>)
    requires n > 0
    ensures Bits(v, n) + rest == [v % 2 == 1] + (Bits(v / 2, n - 1) + rest)
  {
    hide Bits;
    BitsNext(v, n - 1);
    Regroup([v % 2 == 1], Bits(v / 2, n - 1), rest);
  }

  lemma LowBitFits(register: nat, v: nat)
    requires register < Pow2(32)
    ensures Xor(register, v % 2) < Pow2(32)
  {
    hide Xor;
    Pow2Bytes();
    XorBound(register, v % 2, 32);
  }

  lemma SplitLowBit(v: nat)
    ensures Xor(v % 2, 2 * (v / 2)) == v
  {
    XorZero(v / 2);
    XorCommutes(0, v / 2);
    assert Xor(v % 2, 2 * (v / 2)) == v % 2 + 2 * Xor(0, v / 2);
  }

  /** A table entry and a shift do the work of eight steps. */
  lemma TableStep(crc: nat, b: byte)
    ensures Xor(Feeds(And(Xor(crc, b), 0xFF), 8), Shr(crc, 8)) == Feeds(Xor(crc, b), 8)
  {
    hide Xor, Feeds, And, Shl, Shr;
    var x := Xor(crc, b);
    AndByte(x);
    Pow2Bytes();
    ShrEight(crc);
    ShrEight(b);
    ShrEight(x);
    XorShr(crc, b, 8);
    XorZero(crc / 256);
    ShlEight(x / 256);
    XorAbove(x % 256, x / 256, 8);
    FeedsAbove(x % 256, x / 256, 8);
  }

  // The code -----------------------------------------------------------------

  method CrcTable() returns (values: array<nat>)
    ensures values.Length == 256 && forall i :: 0 <= i < 256 ==> values[i] == Feeds(i, 8)
  {
    hide Feeds;
    values := new nat[256](_ => 0);
    for index := 0 to 256
      invariant forall i :: 0 <= i < index ==> values[i] == Feeds(i, 8)
    {
      var value: nat := index;
      for bit := 0 to 8
        invariant Feeds(value, 8 - bit) == Feeds(index, 8)
        modifies {}
      {
        FeedsNext(value, 8 - bit);
        value := if And(value, 1) != 0 then Xor(0xEDB88320, Shr(value, 1)) else Shr(value, 1);
      }
      FeedsNone(value);
      values[index] := value;
    }
  }

  lemma FeedsNext(value: nat, n: nat)
    requires n > 0
    ensures Feeds(value, n) ==
      Feeds(if And(value, 1) != 0 then Xor(0xEDB88320, Shr(value, 1)) else Shr(value, 1), n - 1)
  {
  }

  lemma FeedsNone(value: nat)
    ensures Feeds(value, 0) == value
  {
  }

  function From(data: seq<byte>, from: nat): seq<byte> {
    if from <= |data| then data[from..] else []
  }

  /** The table-driven checksum is the remainder that PNG defines, for every string and start. */
  method Crc32(data: seq<byte>, from: nat) returns (r: nat)
    ensures r < 0x1_0000_0000
    ensures Bits(r, 32) == PngCrc(From(data, from))
  {
    hide Xor, Feeds, And, Shr, PngCrc, LongDivide, Dividend, Bits, BytesBits, Pow2;
    var table := CrcTable();
    Pow2Bytes();
    var crc: nat := 0xFFFFFFFF;
    var index: nat := from;
    while index < |data|
      invariant from <= index && (index <= |data| || index == from) && crc < Pow2(32)
      invariant LongDivide(Dividend(crc, BytesBits(From(data, index)))) ==
        LongDivide(Dividend(0xFFFFFFFF, BytesBits(From(data, from))))
      modifies {}
    {
      TableStep(crc, data[index]);
      RegisterStep(crc, data, index);
      MaskedIndex(Xor(crc, data[index]));
      crc := Xor(table[And(Xor(crc, data[index]), 0xFF)], Shr(crc, 8));
      index := index + 1;
    }
    DivideNothing(crc, data, index);
    Complement(crc, From(data, from));
    r := Xor(crc, 0xFFFFFFFF);
  }

  lemma MaskedIndex(x: nat)
    ensures And(x, 0xFF) < 256
  {
    AndByte(x);
  }

  lemma RegisterStep(crc: nat, data: seq<byte>, index: nat)
    requires crc < Pow2(32) && index < |data|
    ensures LongDivide(Dividend(crc, BytesBits(data[index..]))) ==
      LongDivide(Dividend(Feeds(Xor(crc, data[index]), 8), BytesBits(data[index + 1..])))
    ensures Feeds(Xor(crc, data[index]), 8) < Pow2(32)
  {
    hide Xor, Feeds, LongDivide, Dividend, Bits;
    Pow2Bytes();
    assert data[index..][1..] == data[index + 1..];
    BitsStep(crc, data[index], 8, BytesBits(data[index + 1..]));
    XorBound(crc, data[index], 32);
    FeedsBound(Xor(crc, data[index]), 8);
  }

  lemma {:induction false} FeedsBound(value: nat, n: nat)
    requires value < Pow2(32)
    ensures Feeds(value, n) < Pow2(32)
    decreases n
  {
    hide Pow2, Feed;
    if n > 0 {
      FeedBound(value);
      FeedsBound(Feed(value), n - 1);
    }
  }

  lemma DivideNothing(crc: nat, data: seq<byte>, index: nat)
    requires index >= |data|
    ensures LongDivide(Dividend(crc, BytesBits(From(data, index)))) == Bits(crc, 32)
  {
  }

  lemma {:induction false} AllOnes(n: nat)
    ensures Bits(Pow2(n) - 1, n) == Repeated(true, n)
  {
    if n > 0 {
      AllOnes(n - 1);
      assert (Pow2(n) - 1) % 2 == 1 && (Pow2(n) - 1) / 2 == Pow2(n - 1) - 1;
    }
  }

  lemma Complement(crc: nat, data: seq<byte>)
    requires crc < Pow2(32)
    requires Bits(crc, 32) == LongDivide(Dividend(0xFFFFFFFF, BytesBits(data)))
    ensures Bits(Xor(crc, 0xFFFFFFFF), 32) == PngCrc(data)
    ensures Xor(crc, 0xFFFFFFFF) < 0x1_0000_0000
  {
    hide Bits, LongDivide, Xor, BytesBits;
    AllOnes(32);
    Pow2Bytes();
    XorBits(crc, 0xFFFFFFFF, 32);
    XorBound(crc, 0xFFFFFFFF, 32);
  }

  // Adler-32 -----------------------------------------------------------------

  function Sum(data: seq<byte>): nat {
    if data == [] then 0 else Sum(data[..|data| - 1]) + data[|data| - 1]
  }

  /** Each byte times the number of bytes from it to the end. */
  function WeightedSum(data: seq<byte>, weight: nat): nat {
    if data == [] then 0 else WeightedSum(data[..|data| - 1], weight + 1) + weight * data[|data| - 1]
  }

  /** The closed form of section 2.2 of RFC 1950. */
  function Adler(data: seq<byte>): (r: nat) {
    var a, b := (1 + Sum(data)) % 65521, (|data| + WeightedSum(data, 1)) % 65521;
    b * 0x1_0000 + a
  }

  lemma AdlerBound(data: seq<byte>)
    ensures Adler(data) < 0x1_0000_0000
  {
  }

  lemma {:induction false} HeavierSum(data: seq<byte>, weight: nat)
    ensures WeightedSum(data, weight + 1) == WeightedSum(data, weight) + Sum(data)
  {
    if data != [] {
      HeavierSum(data[..|data| - 1], weight + 1);
      assert (weight + 1) * data[|data| - 1] == weight * data[|data| - 1] + data[|data| - 1];
    }
  }

  lemma AdlerNext(data: seq<byte>, next: byte)
    ensures Sum(data + [next]) == Sum(data) + next
    ensures WeightedSum(data + [next], 1) == WeightedSum(data, 1) + Sum(data) + next
  {
    assert (data + [next])[..|data|] == data;
    HeavierSum(data, 1);
  }

  lemma AddModulo(x: nat, y: nat, m: nat)
    requires m > 0
    ensures (x % m + y) % m == (x + y) % m
  {
    var q := x / m;
    assert x + y == q * m + (x % m + y);
    var r := (x % m + y) % m;
    var p := (x % m + y) / m;
    assert x + y == (q + p) * m + r;
    DivisionIs(x + y, m, q + p, r);
  }

  /** Reducing at every byte gives what reducing at the end gives. */
  lemma AdlerStep(data: seq<byte>, i: nat, a: nat, b: nat)
    requires i < |data|
    requires a == (1 + Sum(data[..i])) % 65521 && b == (i + WeightedSum(data[..i], 1)) % 65521
    ensures (a + data[i]) % 65521 == (1 + Sum(data[..i + 1])) % 65521
    ensures (b + (a + data[i]) % 65521) % 65521 == (i + 1 + WeightedSum(data[..i + 1], 1)) % 65521
  {
    hide Sum, WeightedSum;
    AdlerNext(data[..i], data[i]);
    assert data[..i + 1] == data[..i] + [data[i]];
    var x, y := 1 + Sum(data[..i + 1]), i + WeightedSum(data[..i], 1);
    AddModulo(1 + Sum(data[..i]), data[i], 65521);
    AddModulo(y, x % 65521, 65521);
    AddModulo(x, y, 65521);
  }

  method Adler32(data: seq<byte>) returns (value: nat)
    ensures value == Adler(data) < 0x1_0000_0000
    ensures value % 0x1_0000 == (1 + Sum(data)) % 65521
    ensures value / 0x1_0000 == (|data| + WeightedSum(data, 1)) % 65521
  {
    hide Sum, WeightedSum, Shl, Or;
    var a: nat, b: nat := 1, 0;
    EmptySums(data);
    for i := 0 to |data|
      invariant a == (1 + Sum(data[..i])) % 65521
      invariant b == (i + WeightedSum(data[..i], 1)) % 65521
    {
      AdlerStep(data, i, a, b);
      a := (a + data[i] as nat) % 65521;
      b := (b + a) % 65521;
    }
    assert data[..|data|] == data;
    value := PackAdler(a, b);
  }

  method PackAdler(a: nat, b: nat) returns (value: nat)
    requires a < 65521 && b < 65521
    ensures value == 0x1_0000 * b + a
  {
    hide Shl, Or;
    Pow2Bytes();
    ShlSixteen(b);
    OrAbove(a, b, 16);
    OrCommutes(a, Shl(b, 16));
    value := Or(Shl(b, 16), a);
  }

  lemma EmptySums(data: seq<byte>)
    ensures Sum(data[..0]) == 0 && WeightedSum(data[..0], 1) == 0
  {
  }

}
