/** The benchmarks' compressor, proved against the inflater of InflateSpec: its one block decodes to the
    data, and its bits are those of a greedy choice of matches. */
module Deflater {
  import opened Collections
  import opened Wrappers
  import opened Bitwise
  import opened InflateSpec

  const LENGTH_BASE: seq<nat> := [
    3, 4, 5, 6, 7, 8, 9, 10, 11, 13, 15, 17, 19, 23, 27,
    31, 35, 43, 51, 59, 67, 83, 99, 115, 131, 163, 195, 227, 258
  ]
  const LENGTH_EXTRA: seq<nat> := [
    0, 0, 0, 0, 0, 0, 0, 0, 1, 1, 1, 1, 2, 2, 2, 2, 3, 3, 3, 3, 4, 4, 4, 4, 5, 5, 5, 5, 0
  ]
  const DISTANCE_BASE: seq<nat> := [
    1, 2, 3, 4, 5, 7, 9, 13, 17, 25, 33, 49, 65, 97, 129, 193, 257, 385, 513, 769,
    1025, 1537, 2049, 3073, 4097, 6145, 8193, 12289, 16385, 24577
  ]
  const DISTANCE_EXTRA: seq<nat> := [
    0, 0, 0, 0, 1, 1, 2, 2, 3, 3, 4, 4, 5, 5, 6, 6, 7, 7, 8, 8, 9, 9, 10, 10,
    11, 11, 12, 12, 13, 13
  ]
  const WINDOW := 32768
  const MAX_MATCH := 258
  const UINT32 := 0x1_0000_0000
  const UINT64 := 0x1_0000_0000_0000_0000

  class BitWriter {
    var out: seq<byte>
    var buffer: nat  // uint64_t
    var filled: nat
    // Every bit written so far.
    ghost var stream: seq<bool>

    constructor ()
      ensures Valid() && stream == []
    {
      out, buffer, filled, stream := [], 0, 0, [];
    }

    ghost predicate Valid()
      reads this
    {
      && filled < 8 && buffer < Pow2(filled)
      && stream == BytesBits(out) + Bits(buffer, filled)
    }

    /** The stream grows by the value's bits; the word keeps those that do not fill a byte yet. */
    method Write(value: nat, count: nat)
      requires Valid() && count <= 32 && value < Pow2(count)
      modifies this
      ensures Valid() && stream == old(stream) + Bits(value, count)
    {
      hide Or, Shl, Bits, Pow2, BytesBits;
      WriteFits(buffer, value, filled, count);
      buffer := Or(buffer, Shl(value, filled) % UINT64);
      filled := filled + count;
      stream := stream + Bits(value, count);
      while filled >= 8
        invariant buffer < Pow2(filled) && stream == BytesBits(out) + Bits(buffer, filled)
        invariant stream == old(stream) + Bits(value, count)
      {
        SplitByte(out, buffer, filled);
        out := out + [buffer % 256];
        buffer := buffer / 256;
        filled := filled - 8;
      }
    }

    /** The stream grows by the code's bits, its top bit first. */
    method Code(code: nat, length: nat)
      requires Valid() && length <= 32 && code < Pow2(length)
      modifies this
      ensures Valid() && stream == old(stream) + MsbBits(code, length)
    {
      hide Or, Shl, Shr, Bits, MsbBits, Pow2;
      var reversed, bit := 0, 0;
      ghost var top: nat := 0;
      ShlZero(length);
      NothingReversed(code);
      while bit < length
        modifies {}
        invariant 0 <= bit <= length
        invariant reversed == Shl(top, length - bit)
        invariant top < Pow2(bit) && Bits(top, bit) == MsbBits(code, bit)
      {
        var next := Shr(code, bit) % 2;
        ReverseStep(code, bit, top, length);
        reversed := Or(reversed, Shl(next, length - 1 - bit));
        top := 2 * top + next;
        bit := bit + 1;
      }
      ShlNext(top, 0);
      Write(reversed, length);
    }

    /** Leaves nothing in the word: the bytes are the stream and fewer than eight zero bits. */
    method Flush() returns (ghost pad: nat)
      requires Valid()
      modifies this
      ensures Valid() && filled == 0 && pad < 8
      ensures stream == BytesBits(out) == old(stream) + Bits(0, pad)
    {
      pad := if filled == 0 then 0 else 8 - filled;
      FlushPads(out, buffer, filled, pad, stream);
      if filled > 0 {
        out := out + [buffer % 256];
      }
      buffer, filled := 0, 0;
      stream := stream + Bits(0, pad);
    }
  }

  /** The shift loses no bits of the word, and the OR stacks the value on the buffer. */
  lemma WriteFits(buffer: nat, value: nat, filled: nat, count: nat)
    requires filled < 8 && buffer < Pow2(filled) && count <= 32 && value < Pow2(count)
    ensures var word := Or(buffer, Shl(value, filled) % UINT64);
      word < Pow2(filled + count) && Bits(word, filled + count) == Bits(buffer, filled) + Bits(value, count)
  {
    ShiftFits(buffer, value, filled, count);
    WriteStacks(buffer, value, filled, count);
  }

  lemma ShiftFits(buffer: nat, value: nat, filled: nat, count: nat)
    requires filled < 8 && buffer < Pow2(filled) && count <= 32 && value < Pow2(count)
    ensures Shl(value, filled) % UINT64 == Shl(value, filled)
  {
    StackBound(buffer, value, filled, count);
    WordFits(Shl(value, filled), filled + count);
  }

  lemma WriteStacks(buffer: nat, value: nat, filled: nat, count: nat)
    requires buffer < Pow2(filled) && value < Pow2(count)
    ensures var word := Or(buffer, Shl(value, filled));
      word < Pow2(filled + count) && Bits(word, filled + count) == Bits(buffer, filled) + Bits(value, count)
  {
    StackBound(buffer, value, filled, count);
    OrAbove(buffer, value, filled);
    BitsStack(buffer, value, filled, count);
  }

  lemma FlushPads(out: seq<byte>, buffer: nat, filled: nat, pad: nat, stream: seq<bool>)
    requires filled < 8 && buffer < Pow2(filled) && pad == (if filled == 0 then 0 else 8 - filled)
    requires stream == BytesBits(out) + Bits(buffer, filled)
    ensures stream + Bits(0, pad) == BytesBits(if filled > 0 then out + [buffer % 256] else out)
  {
    hide Bits, BytesBits, Pow2;
    BitsNext(buffer, 0);
    BitsNext(0, 0);
    if filled > 0 {
      BitsPadded(buffer, filled);
      BytesBitsAppend(out, buffer);
      Regroup(BytesBits(out), Bits(buffer, filled), Bits(0, pad));
      assert buffer % 256 == buffer;
    } else {
      assert stream == BytesBits(out);
    }
  }

  /** Moving the low byte of the buffer to the output keeps the stream. */
  lemma SplitByte(out: seq<byte>, buffer: nat, filled: nat)
    requires filled >= 8 && buffer < Pow2(filled)
    ensures buffer / 256 < Pow2(filled - 8)
    ensures BytesBits(out + [buffer % 256]) + Bits(buffer / 256, filled - 8) == BytesBits(out) + Bits(buffer, filled)
  {
    BitsByte(buffer, filled);
    BytesBitsAppend(out, buffer % 256);
  }

  lemma NothingReversed(code: nat)
    ensures 0 < Pow2(0) && Bits(0, 0) == MsbBits(code, 0)
  {
  }

  /** One step of the reversal: the next higher code bit goes below those placed. */
  lemma ReverseStep(code: nat, bit: nat, top: nat, length: nat)
    requires bit < length && top < Pow2(bit) && Bits(top, bit) == MsbBits(code, bit)
    ensures var next := Shr(code, bit) % 2;
      && Or(Shl(top, length - bit), Shl(next, length - 1 - bit)) == Shl(2 * top + next, length - 1 - bit)
      && 2 * top + next < Pow2(bit + 1)
      && Bits(2 * top + next, bit + 1) == MsbBits(code, bit + 1)
  {
    hide Or, Shr, Shl, Pow2, Bits, MsbBits;
    var next := Shr(code, bit) % 2;
    MsbBitsNext(code, bit);
    OrBelow(top, next, length - 1 - bit);
    Pow2Next(bit);
    BitsNext(2 * top + next, bit);
    Halved(top, next);
  }

  lemma Halved(top: nat, next: nat)
    requires next < 2
    ensures (2 * top + next) / 2 == top && (2 * top + next) % 2 == next
  {
  }

  lemma OrBelow(top: nat, next: nat, shift: nat)
    requires next < 2
    ensures Or(Shl(top, shift + 1), Shl(next, shift)) == Shl(2 * top + next, shift)
  {
    hide Or, Shl, Pow2;
    ShlBit(next, shift);
    OrCommutes(Shl(top, shift + 1), Shl(next, shift));
    OrAbove(Shl(next, shift), top, shift + 1);
    ShlOne(top, shift);
    ShlAdds(2 * top, next, shift);
  }

  lemma {:induction false} ShlBit(bit: nat, shift: nat)
    requires bit < 2
    ensures Shl(bit, shift) < Pow2(shift + 1)
  {
    if shift > 0 {
      ShlBit(bit, shift - 1);
    }
  }

  // Symbols ----------------------------------------------------------------

  function SymbolCode(symbol: nat): nat {
    if symbol < 144 then 0x30 + symbol
    else if symbol < 256 then 0x190 + symbol - 144
    else if symbol < 280 then symbol - 256
    else 0xC0 + symbol - 280
  }

  function SymbolLength(symbol: nat): nat {
    if symbol < 144 then 8 else if symbol < 256 then 9 else if symbol < 280 then 7 else 8
  }

  ghost function SymbolBits(symbol: nat): seq<bool> {
    MsbBits(SymbolCode(symbol), SymbolLength(symbol))
  }

  lemma SymbolCodeFits(symbol: nat)
    requires symbol < 288
    ensures SymbolCode(symbol) < Pow2(SymbolLength(symbol))
  {
    hide Pow2;
    Pow2Bytes();
    Pow2Next(7);
    Pow2Next(8);
  }

  /** The number in one bit less is half the number. */
  lemma ReadLess(bits: seq<bool>, n: nat)
    requires n < |bits|
    ensures ReadMsb(bits, n) == ReadMsb(bits, n + 1) / 2
  {
  }

  /** The decoder reads back each symbol's code, whatever follows it: the fixed
      codes are uniquely decodable. */
  lemma DecodeSymbolBits(symbol: nat, rest: seq<bool>)
    requires symbol < 288
    ensures DecodeSymbol(SymbolBits(symbol) + rest) == Some(Read(symbol, rest))
  {
    hide MsbBits, ReadMsb, Pow2;
    var bits, code, length := SymbolBits(symbol) + rest, SymbolCode(symbol), SymbolLength(symbol);
    SymbolCodeFits(symbol);
    ReadMsbBits(code, length, rest);
    RestOf(SymbolBits(symbol), rest);
    ReadLess(bits, length - 1);
    ReadLess(bits, length - 2);
  }

  lemma RestOf(front: seq<bool>, rest: seq<bool>)
    ensures (front + rest)[|front|..] == rest
  {
  }

  method Literal(writer: BitWriter, symbol: nat)
    requires writer.Valid() && symbol < 288
    modifies writer
    ensures writer.Valid() && writer.stream == old(writer.stream) + SymbolBits(symbol)
  {
    hide MsbBits, Pow2;
    SymbolCodeFits(symbol);
    var code, length;
    if symbol < 144 {
      code, length := 0x30 + symbol, 8;
    } else if symbol < 256 {
      code, length := 0x190 + symbol - 144, 9;
    } else if symbol < 280 {
      code, length := symbol - 256, 7;
    } else {
      code, length := 0xC0 + symbol - 280, 8;
    }
    writer.Code(code, length);
  }

  // Matches ----------------------------------------------------------------

  /** `Pow2` on the extra-bit counts, as a table. */
  function Span(extra: nat): nat {
    if extra < 5 then
      if extra < 3 then if extra == 0 then 1 else if extra == 1 then 2 else 4
      else if extra == 3 then 8 else 16
    else if extra < 9 then
      if extra < 7 then if extra == 5 then 32 else 64
      else if extra == 7 then 128 else 256
    else if extra < 11 then if extra == 9 then 512 else 1024
    else if extra == 11 then 2048 else if extra == 12 then 4096 else 8192
  }

  lemma {:induction false} SpanIsPow2(extra: nat)
    requires extra <= 13
    ensures Span(extra) == Pow2(extra)
  {
    hide Pow2;
    Pow2Next(0);
    if extra > 0 {
      SpanIsPow2(extra - 1);
      Pow2Next(extra - 1);
    }
  }

  lemma LengthSteps(code: nat)
    requires code < 28
    ensures LENGTH_EXTRA[code] <= 5
    ensures code < 27 ==> LENGTH_BASE[code + 1] == LENGTH_BASE[code] + Span(LENGTH_EXTRA[code])
    ensures code == 27 ==> LENGTH_BASE[code] + Span(LENGTH_EXTRA[code]) == 259
  {
    if code < 14 {
      LengthStepsBelow(code);
    } else {
      LengthStepsAbove(code);
    }
  }

  lemma LengthStepsBelow(code: nat)
    requires code < 14
    ensures LENGTH_EXTRA[code] <= 5
    ensures LENGTH_BASE[code + 1] == LENGTH_BASE[code] + Span(LENGTH_EXTRA[code])
  {
  }

  lemma LengthStepsAbove(code: nat)
    requires 14 <= code < 28
    ensures LENGTH_EXTRA[code] <= 5
    ensures code < 27 ==> LENGTH_BASE[code + 1] == LENGTH_BASE[code] + Span(LENGTH_EXTRA[code])
    ensures code == 27 ==> LENGTH_BASE[code] + Span(LENGTH_EXTRA[code]) == 259
  {
  }

  lemma LengthExtras(code: nat)
    requires code < 29
    ensures LENGTH_EXTRA[code] == LengthExtra(257 + code)
  {
  }

  /** The source's length table is the one that section 3.2.5 generates, and its
      extra bits reach from each base to the next. */
  lemma {:induction false} LengthTable(code: nat)
    requires code < 29
    ensures LENGTH_BASE[code] == LengthBase(257 + code) && LENGTH_EXTRA[code] == LengthExtra(257 + code)
  {
    LengthExtras(code);
    if 0 < code < 28 {
      LengthTable(code - 1);
      LengthSteps(code - 1);
      SpanIsPow2(LENGTH_EXTRA[code - 1]);
    }
  }

  lemma DistanceSteps(code: nat)
    requires code < 30
    ensures DISTANCE_EXTRA[code] <= 13
    ensures code < 29 ==> DISTANCE_BASE[code + 1] == DISTANCE_BASE[code] + Span(DISTANCE_EXTRA[code])
    ensures code == 29 ==> DISTANCE_BASE[code] + Span(DISTANCE_EXTRA[code]) == 32769
  {
    DistanceExtras(code);
    if code < 16 {
      DistanceStepsBelow(code);
    } else {
      DistanceStepsAbove(code);
    }
  }

  lemma DistanceStepsBelow(code: nat)
    requires code < 16
    ensures DISTANCE_BASE[code + 1] == DISTANCE_BASE[code] + Span(DistanceExtra(code))
  {
  }

  lemma DistanceStepsAbove(code: nat)
    requires 16 <= code < 30
    ensures code < 29 ==> DISTANCE_BASE[code + 1] == DISTANCE_BASE[code] + Span(DistanceExtra(code))
    ensures code == 29 ==> DISTANCE_BASE[code] + Span(DistanceExtra(code)) == 32769
  {
  }

  lemma DistanceExtras(code: nat)
    requires code < 30
    ensures DISTANCE_EXTRA[code] == DistanceExtra(code)
  {
  }

  lemma {:induction false} DistanceTable(code: nat)
    requires code < 30
    ensures DISTANCE_BASE[code] == DistanceBase(code) && DISTANCE_EXTRA[code] == DistanceExtra(code)
  {
    DistanceExtras(code);
    if code > 0 {
      DistanceTable(code - 1);
      DistanceSteps(code - 1);
      SpanIsPow2(DISTANCE_EXTRA[code - 1]);
    }
  }

  /** `length` is one of the lengths that length code `code` covers. */
  ghost predicate LengthCode(code: nat, length: nat) {
    && code < 29 && LengthBase(257 + code) <= length
    && length - LengthBase(257 + code) < Pow2(LengthExtra(257 + code))
  }

  ghost predicate DistanceCode(code: nat, distance: nat) {
    && code < 30 && DistanceBase(code) <= distance
    && distance - DistanceBase(code) < Pow2(DistanceExtra(code))
  }

  ghost function LengthBits(code: nat, length: nat): seq<bool>
    requires LengthCode(code, length)
  {
    Bits(length - LengthBase(257 + code), LengthExtra(257 + code))
  }

  ghost function DistanceBits(code: nat, distance: nat): seq<bool>
    requires DistanceCode(code, distance)
  {
    Bits(distance - DistanceBase(code), DistanceExtra(code))
  }

  lemma LengthFits(code: nat, length: nat)
    requires code < 29 && LENGTH_BASE[code] <= length <= 258
    requires code < 28 ==> length < LENGTH_BASE[code + 1]
    ensures LengthCode(code, length)
  {
    LengthTable(code);
    if code < 28 {
      LengthSteps(code);
      SpanIsPow2(LENGTH_EXTRA[code]);
    }
  }

  lemma DistanceFits(code: nat, distance: nat)
    requires code < 30 && DISTANCE_BASE[code] <= distance <= 32768
    requires code < 29 ==> distance < DISTANCE_BASE[code + 1]
    ensures DistanceCode(code, distance)
  {
    DistanceTable(code);
    DistanceSteps(code);
    SpanIsPow2(DISTANCE_EXTRA[code]);
  }

  lemma DecodeLengthBits(code: nat, length: nat, rest: seq<bool>)
    requires LengthCode(code, length)
    ensures DecodeLength(257 + code, LengthBits(code, length) + rest) == Some(Read(length, rest))
  {
    var extra, count := length - LengthBase(257 + code), LengthExtra(257 + code);
    ReadLsbBits(extra, count, rest);
    assert (Bits(extra, count) + rest)[count..] == rest;
  }

  lemma DecodeDistanceBits(code: nat, distance: nat, rest: seq<bool>)
    requires DistanceCode(code, distance)
    ensures DecodeDistance(MsbBits(code, 5) + (DistanceBits(code, distance) + rest)) == Some(Read(distance, rest))
  {
    var extra, count := distance - DistanceBase(code), DistanceExtra(code);
    var tail := Bits(extra, count) + rest;
    SpanIsPow2(5);
    ReadMsbBits(code, 5, tail);
    assert (MsbBits(code, 5) + tail)[5..] == tail;
    ReadLsbBits(extra, count, rest);
    assert tail[count..] == rest;
  }

  /** The last entry of a table that does not exceed the value, from `code` down. */
  function LastAtMost(base: seq<nat>, value: nat, code: nat): (r: nat)
    requires code < |base|
    ensures r <= code
  {
    if code == 0 || base[code] <= value then code else LastAtMost(base, value, code - 1)
  }

  lemma {:induction false} LastAtMostIs(base: seq<nat>, value: nat, code: nat)
    requires code < |base| && base[0] <= value
    requires code + 1 < |base| ==> value < base[code + 1]
    ensures var r := LastAtMost(base, value, code); base[r] <= value && (r + 1 < |base| ==> value < base[r + 1])
  {
    if code > 0 && base[code] > value {
      LastAtMostIs(base, value, code - 1);
    }
  }

  method FindCode(base: seq<nat>, value: nat) returns (code: nat)
    requires |base| > 0 && base[0] <= value
    ensures code == LastAtMost(base, value, |base| - 1)
  {
    code := |base| - 1;
    while base[code] > value
      invariant 0 <= code < |base| && LastAtMost(base, value, code) == LastAtMost(base, value, |base| - 1)
      decreases code
    {
      code := code - 1;
    }
  }

  function LengthCodeOf(length: nat): nat {
    LastAtMost(LENGTH_BASE, length, 28)
  }

  function DistanceCodeOf(distance: nat): nat {
    LastAtMost(DISTANCE_BASE, distance, 29)
  }

  /** Every length from 3 to 258 and distance up to 32768 has a code, whose extra bits fit their field. */
  lemma CodesFit(length: nat, distance: nat)
    requires 3 <= length <= 258 && 1 <= distance <= 32768
    ensures LengthCode(LengthCodeOf(length), length) && DistanceCode(DistanceCodeOf(distance), distance)
  {
    LastAtMostIs(LENGTH_BASE, length, 28);
    LengthFits(LengthCodeOf(length), length);
    LastAtMostIs(DISTANCE_BASE, distance, 29);
    DistanceFits(DistanceCodeOf(distance), distance);
  }

  /** The bits of one match: the length's code and extra bits, then the distance's. */
  ghost function MatchBits(length: nat, distance: nat): seq<bool>
    requires 3 <= length <= 258 && 1 <= distance <= 32768
  {
    CodesFit(length, distance);
    var code, dcode := LengthCodeOf(length), DistanceCodeOf(distance);
    SymbolBits(257 + code) + LengthBits(code, length) + MsbBits(dcode, 5) + DistanceBits(dcode, distance)
  }

  method Match(writer: BitWriter, length: nat, distance: nat)
    requires writer.Valid() && 3 <= length <= 258 && 1 <= distance <= 32768
    modifies writer
    ensures writer.Valid() && writer.stream == old(writer.stream) + MatchBits(length, distance)
  {
    hide LengthCodeOf, DistanceCodeOf, LengthCode, DistanceCode, SymbolBits, LengthBits, DistanceBits, Bits, MsbBits;
    CodesFit(length, distance);
    var code := WriteLength(writer, length);
    var dcode := WriteDistance(writer, distance);
    Regroup5(old(writer.stream), SymbolBits(257 + code), LengthBits(code, length), MsbBits(dcode, 5), DistanceBits(dcode, distance));
  }

  method WriteLength(writer: BitWriter, length: nat) returns (code: nat)
    requires writer.Valid() && 3 <= length <= 258
    modifies writer
    ensures writer.Valid() && code == LengthCodeOf(length) && LengthCode(code, length)
    ensures writer.stream == old(writer.stream) + SymbolBits(257 + code) + LengthBits(code, length)
  {
    hide LengthCodeOf, SymbolBits, Bits, Pow2, LengthBase;
    var base, extra;
    code, base, extra := FindLength(length);
    Literal(writer, 257 + code);
    writer.Write(length - base, extra);
  }

  method WriteDistance(writer: BitWriter, distance: nat) returns (code: nat)
    requires writer.Valid() && 1 <= distance <= 32768
    modifies writer
    ensures writer.Valid() && code == DistanceCodeOf(distance) && DistanceCode(code, distance)
    ensures writer.stream == old(writer.stream) + MsbBits(code, 5) + DistanceBits(code, distance)
  {
    hide DistanceCodeOf, MsbBits, Bits, Pow2, DistanceBase;
    var base, extra;
    code, base, extra := FindDistance(distance);
    assert code < Pow2(5) by { SpanIsPow2(5); }
    writer.Code(code, 5);
    writer.Write(distance - base, extra);
  }

  lemma Regroup5(s: seq<bool>, a: seq<bool>, b: seq<bool>, c: seq<bool>, d: seq<bool>)
    ensures s + a + b + c + d == s + (a + b + c + d)
  {
  }

  method FindLength(length: nat) returns (code: nat, base: nat, extra: nat)
    requires 3 <= length <= 258
    ensures code == LengthCodeOf(length) && LengthCode(code, length)
    ensures base == LengthBase(257 + code) && extra == LengthExtra(257 + code)
  {
    code := FindCode(LENGTH_BASE, length);
    CodesFit(length, 1);
    LengthTable(code);
    base, extra := LENGTH_BASE[code], LENGTH_EXTRA[code];
  }

  method FindDistance(distance: nat) returns (code: nat, base: nat, extra: nat)
    requires 1 <= distance <= 32768
    ensures code == DistanceCodeOf(distance) && DistanceCode(code, distance)
    ensures base == DistanceBase(code) && extra == DistanceExtra(code)
  {
    code := FindCode(DISTANCE_BASE, distance);
    CodesFit(3, distance);
    DistanceTable(code);
    base, extra := DISTANCE_BASE[code], DISTANCE_EXTRA[code];
  }

  // Compression ------------------------------------------------------------

  /** The bits decode to `out`, and decoding goes on with whatever follows them. */
  ghost predicate Decodes(bits: seq<bool>, out: seq<byte>) {
    forall rest :: InflateSymbols(bits + rest, []) == InflateSymbols(rest, out)
  }

  lemma LiteralDecodes(bits: seq<bool>, out: seq<byte>, value: byte)
    requires Decodes(bits, out)
    ensures Decodes(bits + SymbolBits(value), out + [value])
  {
    hide SymbolBits, DecodeSymbol;
    forall rest ensures InflateSymbols(bits + SymbolBits(value) + rest, []) == InflateSymbols(rest, out + [value]) {
      Regroup(bits, SymbolBits(value), rest);
      DecodeSymbolBits(value, rest);
    }
  }

  lemma RegroupMatch(s: seq<bool>, a: seq<bool>, b: seq<bool>, c: seq<bool>, d: seq<bool>, rest: seq<bool>)
    ensures s + a + b + c + d + rest == s + (a + (b + (c + (d + rest)))) == s + (a + b + c + d + rest)
  {
  }

  /** Decoding one match from its four parts. */
  lemma InflateMatch(out: seq<byte>, code: nat, length: nat, distance: nat, b: seq<bool>, c: seq<bool>, rest: seq<bool>)
    requires code < 29 && 1 <= distance <= |out|
    requires DecodeLength(257 + code, b) == Some(Read(length, c))
    requires DecodeDistance(c) == Some(Read(distance, rest))
    ensures InflateSymbols(SymbolBits(257 + code) + b, out) == InflateSymbols(rest, CopyBack(out, length, distance))
  {
    DecodeSymbolBits(257 + code, b);
  }

  lemma MatchDecodes(bits: seq<bool>, out: seq<byte>, code: nat, length: nat, dcode: nat, distance: nat)
    requires Decodes(bits, out) && LengthCode(code, length) && DistanceCode(dcode, distance)
    requires 1 <= distance <= |out|
    ensures Decodes(bits + SymbolBits(257 + code) + LengthBits(code, length) + MsbBits(dcode, 5) + DistanceBits(dcode, distance),
                    CopyBack(out, length, distance))
  {
    hide Bits, MsbBits, InflateSymbols;
    var a, b, c, d := SymbolBits(257 + code), LengthBits(code, length), MsbBits(dcode, 5), DistanceBits(dcode, distance);
    forall rest ensures InflateSymbols(bits + a + b + c + d + rest, []) == InflateSymbols(rest, CopyBack(out, length, distance)) {
      var tail := c + (d + rest);
      RegroupMatch(bits, a, b, c, d, rest);
      DecodeLengthBits(code, length, tail);
      DecodeDistanceBits(dcode, distance, rest);
      InflateMatch(out, code, length, distance, b + tail, tail, rest);
      assert InflateSymbols(bits + (a + (b + tail)), []) == InflateSymbols(a + (b + tail), out);
    }
  }

  /** A match copies the bytes it matched, even where it overlaps itself. */
  lemma {:induction false} CopyBackMatches(data: seq<byte>, at: nat, length: nat, distance: nat)
    requires 1 <= distance <= at && at + length <= |data|
    requires forall i :: at <= i < at + length ==> data[i] == data[i - distance]
    ensures CopyBack(data[..at], length, distance) == data[..at + length]
    decreases length
  {
    if length > 0 {
      assert data[..at][at - distance] == data[at];
      assert data[..at] + [data[at]] == data[..at + 1];
      CopyBackMatches(data, at + 1, length - 1, distance);
    }
  }

  /** A 16-bit hash of three bytes, in 32-bit arithmetic. */
  function Hash(data: seq<byte>, at: nat): (slot: nat)
    requires at + 3 <= |data|
    ensures slot < 0x1_0000
  {
    var value := Or(Or(data[at], Shl(data[at + 1], 8)), Shl(data[at + 2], 16)) % UINT32;
    value * 2654435761 % UINT32 / 0x1_0000
  }

  /** In arithmetic: the bytes as a number, lowest first, times the constant, and of its low word the high half. */
  lemma HashIs(data: seq<byte>, at: nat, x: nat, y: nat, z: nat)
    requires at + 3 <= |data| && x == data[at] && y == data[at + 1] && z == data[at + 2]
    ensures Hash(data, at) == (x + 0x100 * y + 0x1_0000 * z) * 2654435761 % 0x1_0000_0000 / 0x1_0000
  {
    hide Or, Shl;
    hide Pow2;
    Pow2Bytes();
    ShlEight(y);
    ShlSixteen(z);
    OrAbove(x, y, 8);
    OrAbove(x + 0x100 * y, z, 16);
    HashOf(data, at, x + 0x100 * y + 0x1_0000 * z);
  }

  lemma HashOf(data: seq<byte>, at: nat, value: nat)
    requires at + 3 <= |data| && value < 0x1_0000_0000
    requires Or(Or(data[at], Shl(data[at + 1], 8)), Shl(data[at + 2], 16)) == value
    ensures Hash(data, at) == value * 2654435761 % 0x1_0000_0000 / 0x1_0000
  {
    hide Or, Shl;
  }

  /** The last place before `below` whose three bytes have this hash, or -1. */
  function LastWith(data: seq<byte>, slot: nat, below: nat): (p: int)
    ensures -1 <= p < below
    ensures p >= 0 ==> p + 3 <= |data| && Hash(data, p) == slot
  {
    if below == 0 then -1
    else if below + 2 <= |data| && Hash(data, below - 1) == slot then below - 1
    else LastWith(data, slot, below - 1)
  }

  lemma {:induction false} NothingToIndex(data: seq<byte>, slot: nat, from: nat, below: nat)
    requires from <= below && from + 3 > |data|
    ensures LastWith(data, slot, below) == LastWith(data, slot, from)
    decreases below
  {
    if from < below {
      NothingToIndex(data, slot, from, below - 1);
    }
  }

  /** The table holds, for each hash, the last place before `below` that has it. */
  ghost predicate Indexed(head: array<int>, data: seq<byte>, below: nat)
    reads head
  {
    head.Length == 0x1_0000 && forall slot :: 0 <= slot < head.Length ==> head[slot] == LastWith(data, slot, below)
  }

  /** `length` bytes at `at` repeat those at `from`, within the window. */
  ghost predicate Repeats(data: seq<byte>, at: nat, from: nat, length: nat) {
    && from < at <= from + 32768 && length <= 258 && at + length <= |data|
    && forall i :: at <= i < at + length ==> data[i] == data[i - (at - from)]
  }

  lemma NothingIndexed(head: array<int>, data: seq<byte>)
    requires head.Length == 0x1_0000 && forall slot :: 0 <= slot < head.Length ==> head[slot] == -1
    ensures Indexed(head, data, 0)
  {
  }

  /** The longest run that repeats the place: to the longest match, the end of the data, or the first difference. */
  ghost predicate Longest(data: seq<byte>, at: nat, from: nat, length: nat) {
    && Repeats(data, at, from, length)
    && (length == 258 || at + length == |data| || data[from + length] != data[at + length])
  }

  /** The last place before `at` with the hash of its three bytes. */
  function Candidate(data: seq<byte>, at: nat): (p: int)
    ensures -1 <= p < at
  {
    if at + 3 <= |data| then LastWith(data, Hash(data, at), at) else -1
  }

  function Limit(data: seq<byte>, at: nat): nat
    requires at <= |data|
  {
    if MAX_MATCH < |data| - at then MAX_MATCH else |data| - at
  }

  /** How far the bytes at `at` repeat those at `from`, from the `n`th on. */
  function Run(data: seq<byte>, from: nat, at: nat, n: nat): (r: nat)
    requires from < at <= |data| && n <= Limit(data, at)
    ensures n <= r <= Limit(data, at) && forall i :: at + n <= i < at + r ==> data[i] == data[i - (at - from)]
    ensures r < Limit(data, at) ==> data[from + r] != data[at + r]
    decreases Limit(data, at) - n
  {
    if n < Limit(data, at) && data[from + n] == data[at + n] then Run(data, from, at, n + 1) else n
  }

  /** The length of the match at `at`, or 0: the candidate must be inside the window and repeat three bytes. */
  function MatchLength(data: seq<byte>, at: nat): nat
    requires at <= |data|
  {
    var p := Candidate(data, at);
    if p < 0 || at - p > WINDOW then 0
    else
      var n := Run(data, p, at, 0);
      if n >= 3 then n else 0
  }

  /** A match repeats its candidate as far as it can, and only a candidate that cannot be repeated is passed over. */
  lemma MatchIsLongest(data: seq<byte>, at: nat)
    requires at < |data|
    ensures MatchLength(data, at) > 0 ==>
      Candidate(data, at) >= 0 && 3 <= MatchLength(data, at) && Longest(data, at, Candidate(data, at), MatchLength(data, at))
    ensures MatchLength(data, at) == 0 && Candidate(data, at) >= 0 ==>
      forall length :: length >= 3 ==> !Repeats(data, at, Candidate(data, at), length)
  {
    var p := Candidate(data, at);
    if p >= 0 && at - p <= WINDOW {
      var n := Run(data, p, at, 0);
      if n < 3 {
        forall length | length >= 3 ensures !Repeats(data, at, p, length) {
          assert n < Limit(data, at) ==> data[at + n] != data[at + n - (at - p)];
        }
      }
    }
  }

  /** The bits for the data from `at` on: at each place the match, or without one the byte. */
  ghost function GreedyBits(data: seq<byte>, at: nat): seq<bool>
    requires at <= |data|
    decreases |data| - at
  {
    if at == |data| then []
    else
      var n := MatchLength(data, at);
      MatchIsLongest(data, at);
      if n > 0 then MatchBits(n, at - Candidate(data, at)) + GreedyBits(data, at + n)
      else SymbolBits(data[at]) + GreedyBits(data, at + 1)
  }

  method RunLength(data: seq<byte>, from: nat, at: nat) returns (length: nat)
    requires from < at <= |data|
    ensures length == Run(data, from, at, 0)
  {
    var limit := if MAX_MATCH < |data| - at then MAX_MATCH else |data| - at;
    length := 0;
    while length < limit && data[from + length] == data[at + length]
      invariant length <= limit && Run(data, from, at, length) == Run(data, from, at, 0)
    {
      length := length + 1;
    }
  }

  lemma IndexedNext(head: array<int>, data: seq<byte>, at: nat)
    requires head.Length == 0x1_0000
    requires forall slot :: 0 <= slot < head.Length ==>
      head[slot] == if at + 3 <= |data| && slot == Hash(data, at) then at else LastWith(data, slot, at)
    ensures Indexed(head, data, at + 1)
  {
  }

  /** Looks for a match at `at`, and indexes it. */
  method FindMatch(data: seq<byte>, at: nat, head: array<int>) returns (best: nat, from: nat)
    requires at < |data| && Indexed(head, data, at)
    modifies head
    ensures Indexed(head, data, at + 1)
    ensures best == MatchLength(data, at) && (best > 0 ==> from == Candidate(data, at))
  {
    hide Hash, LastWith, Run;
    best, from := 0, 0;
    if at + 3 <= |data| {
      var slot := Hash(data, at);
      var candidate := head[slot];
      head[slot] := at;
      if candidate >= 0 && at - candidate <= WINDOW {
        from := candidate;
        var length := RunLength(data, from, at);
        if length >= 3 {
          best := length;
        }
      }
    }
    IndexedNext(head, data, at);
  }

  /** Moves the table from the match's first byte to its end: every hash then has its last place below that end. */
  method IndexMatched(data: seq<byte>, at: nat, best: nat, head: array<int>)
    requires 0 < best && at + best <= |data| && Indexed(head, data, at + 1)
    modifies head
    ensures Indexed(head, data, at + best)
  {
    hide Hash;
    var next := at + 1;
    while next < at + best && next + 3 <= |data|
      invariant at < next <= at + best && Indexed(head, data, next)
    {
      head[Hash(data, next)] := next;
      next := next + 1;
    }
    if next < at + best {
      forall slot | 0 <= slot < head.Length ensures head[slot] == LastWith(data, slot, at + best) {
        NothingToIndex(data, slot, next, at + best);
      }
    }
  }

  /** Bits that Inflate reads as the start of a final fixed-code block. */
  const HEADER: seq<bool> := [true, true, false]

  /** Whatever follows it, the stream gives back `data` and ends where it ends. */
  ghost predicate Compresses(out: seq<byte>, data: seq<byte>) {
    forall tail: seq<byte> :: Inflate(out + tail) == Some(Inflated(data, |out|))
  }

  lemma HeaderDecodes(bits: seq<bool>)
    ensures InflateBlocks(HEADER + bits, [])
         == InflateSymbols(bits, [])
  {
    var all := HEADER + bits;
    assert all[3..] == bits;
    assert ReadLsb(all[1..], 2) == 1 by {
      assert ReadLsb(all[1..], 2) == (if all[1] then 1 else 0) + 2 * ReadLsb(all[1..][1..], 1);
      assert ReadLsb(all[1..][1..], 1) == (if all[2] then 1 else 0) + 2 * ReadLsb(all[1..][1..][1..], 0);
    }
  }

  lemma EndDecodes(rest: seq<bool>, out: seq<byte>)
    ensures InflateSymbols(SymbolBits(256) + rest, out) == Some(Block(out, rest))
  {
    DecodeSymbolBits(256, rest);
  }

  lemma InflateStream(body: seq<bool>, after: seq<bool>, rest: seq<bool>, data: seq<byte>)
    requires Decodes(body, data) && InflateSymbols(after, data) == Some(Block(data, rest))
    ensures InflateBlocks(HEADER + (body + after), []) == Some(Block(data, rest))
  {
    HeaderDecodes(body + after);
    assert InflateSymbols(body + after, []) == InflateSymbols(after, data);
  }

  lemma StreamCompresses(out: seq<byte>, body: seq<bool>, end: seq<bool>, pad: seq<bool>, data: seq<byte>)
    requires Decodes(body, data) && end == SymbolBits(256) && |pad| < 8
    requires BytesBits(out) == HEADER + body + end + pad
    ensures Compresses(out, data)
  {
    hide InflateSymbols, InflateBlocks, SymbolBits, Decodes, BytesBits;
    forall tail: seq<byte> ensures Inflate(out + tail) == Some(Inflated(data, |out|)) {
      var rest := pad + BytesBits(tail);
      BytesBitsConcat(out, tail);
      RegroupStream(HEADER, body, end, pad, BytesBits(tail));
      EndDecodes(rest, data);
      InflateStream(body, end + rest, rest, data);
    }
  }

  lemma RegroupStream(a: seq<bool>, b: seq<bool>, c: seq<bool>, d: seq<bool>, e: seq<bool>)
    ensures a + b + c + d + e == a + (b + (c + (d + e)))
  {
  }

  lemma MatchTakes(code: nat, length: nat, dcode: nat, distance: nat)
    requires 3 <= length && LengthCode(code, length) && DistanceCode(dcode, distance)
    ensures |SymbolBits(257 + code)| + |LengthBits(code, length)| + 5 + |DistanceBits(dcode, distance)| <= 9 * length
  {
    if code > 0 {
      LengthBaseAbove(code);
    }
  }

  lemma {:induction false} LengthBaseAbove(code: nat)
    requires 1 <= code < 29
    ensures LengthBase(257 + code) >= 4
  {
    if 1 < code < 28 {
      LengthBaseAbove(code - 1);
    }
  }

  /** A stream of the header and then bits that decode to `out`, at most nine a byte. */
  ghost predicate Holds(stream: seq<bool>, body: seq<bool>, out: seq<byte>) {
    stream == HEADER + body && Decodes(body, out) && |body| <= 9 * |out|
  }

  lemma MatchHolds(stream: seq<bool>, body: seq<bool>, data: seq<byte>, at: nat, from: nat, best: nat)
    requires at < |data| && 3 <= best && Repeats(data, at, from, best) && Holds(stream, body, data[..at])
    ensures Holds(stream + MatchBits(best, at - from), body + MatchBits(best, at - from), data[..at + best])
  {
    hide Bits, MsbBits, InflateSymbols, LengthCodeOf, DistanceCodeOf;
    var distance := at - from;
    CodesFit(best, distance);
    var code, dcode := LengthCodeOf(best), DistanceCodeOf(distance);
    var a, b, c, d := SymbolBits(257 + code), LengthBits(code, best), MsbBits(dcode, 5), DistanceBits(dcode, distance);
    MatchDecodes(body, data[..at], code, best, dcode, distance);
    CopyBackMatches(data, at, best, distance);
    MatchTakes(code, best, dcode, distance);
    Regroup5(body, a, b, c, d);
    Regroup(HEADER, body, a + b + c + d);
  }

  lemma LiteralHolds(stream: seq<bool>, body: seq<bool>, data: seq<byte>, at: nat)
    requires at < |data| && Holds(stream, body, data[..at])
    ensures Holds(stream + SymbolBits(data[at]), body + SymbolBits(data[at]), data[..at + 1])
  {
    LiteralDecodes(body, data[..at], data[at]);
    assert data[..at] + [data[at]] == data[..at + 1];
    Regroup(HEADER, body, SymbolBits(data[at]));
  }

  lemma HeaderHolds(stream: seq<bool>)
    requires stream == [] + Bits(1, 1) + Bits(1, 2)
    ensures Holds(stream, [], [])
  {
    assert Bits(1, 1) == [true];
    assert Bits(1, 2) == [true] + Bits(0, 1);
    assert Bits(0, 1) == [false];
    assert stream == HEADER + [];
    forall rest ensures InflateSymbols([] + rest, []) == InflateSymbols(rest, []) {
      assert [] + rest == rest;
    }
  }

  lemma GreedyNext(data: seq<byte>, at: nat, body: seq<bool>)
    requires at < |data| && body + GreedyBits(data, at) == GreedyBits(data, 0)
    ensures var n := MatchLength(data, at);
      if n > 0 then
        Repeats(data, at, Candidate(data, at), n) && n >= 3 && at + n <= |data|
        && body + MatchBits(n, at - Candidate(data, at)) + GreedyBits(data, at + n) == GreedyBits(data, 0)
      else body + SymbolBits(data[at]) + GreedyBits(data, at + 1) == GreedyBits(data, 0)
  {
    hide MatchBits, SymbolBits, Candidate, MatchLength;
    MatchIsLongest(data, at);
    var n := MatchLength(data, at);
    if n > 0 {
      Regroup(body, MatchBits(n, at - Candidate(data, at)), GreedyBits(data, at + n));
    } else {
      Regroup(body, SymbolBits(data[at]), GreedyBits(data, at + 1));
    }
  }

  /** Up to `at` the stream holds the data, and its bits with those still to come are the greedy ones. */
  ghost predicate Reached(stream: seq<bool>, body: seq<bool>, data: seq<byte>, at: nat) {
    at <= |data| && Holds(stream, body, data[..at]) && body + GreedyBits(data, at) == GreedyBits(data, 0)
  }

  lemma MatchReaches(stream: seq<bool>, body: seq<bool>, data: seq<byte>, at: nat)
    requires at < |data| && Reached(stream, body, data, at) && MatchLength(data, at) > 0
    ensures var n, from := MatchLength(data, at), Candidate(data, at);
      && 3 <= n <= 258 && 1 <= at - from <= 32768 && at + n <= |data|
      && Reached(stream + MatchBits(n, at - from), body + MatchBits(n, at - from), data, at + n)
  {
    hide Holds, GreedyBits, MatchBits, Candidate, MatchLength, Repeats;
    GreedyNext(data, at, body);
    MatchIsLongest(data, at);
    MatchFits(data, at, Candidate(data, at), MatchLength(data, at));
    MatchHolds(stream, body, data, at, Candidate(data, at), MatchLength(data, at));
  }

  lemma LiteralReaches(stream: seq<bool>, body: seq<bool>, data: seq<byte>, at: nat)
    requires at < |data| && Reached(stream, body, data, at) && MatchLength(data, at) == 0
    ensures Reached(stream + SymbolBits(data[at]), body + SymbolBits(data[at]), data, at + 1)
  {
    hide Holds, GreedyBits, SymbolBits, MatchLength;
    GreedyNext(data, at, body);
    LiteralHolds(stream, body, data, at);
  }

  lemma NothingReached(stream: seq<bool>, data: seq<byte>)
    requires stream == [] + Bits(1, 1) + Bits(1, 2)
    ensures Reached(stream, [], data, 0)
  {
    hide Holds, GreedyBits, Bits;
    HeaderHolds(stream);
    assert [] + GreedyBits(data, 0) == GreedyBits(data, 0);
  }

  lemma AllReached(stream: seq<bool>, body: seq<bool>, data: seq<byte>)
    requires Reached(stream, body, data, |data|)
    ensures Holds(stream, body, data) && body == GreedyBits(data, 0)
  {
    hide Holds;
    assert data[..|data|] == data;
  }

  /** The whole stream: any inflater gets the data back, and the bits are those of the greedy matches. */
  method Deflate(data: seq<byte>) returns (out: seq<byte>)
    ensures Compresses(out, data)
    ensures 8 * |out| <= 9 * |data| + 17
    ensures exists pad: nat :: pad < 8 && BytesBits(out) == HEADER + GreedyBits(data, 0) + SymbolBits(256) + Bits(0, pad)
  {
    hide Bits, BytesBits, Holds, Indexed, GreedyBits, MatchBits, Candidate, MatchLength, SymbolBits, Reached, Compresses;
    SmallFits();
    var writer := new BitWriter();
    writer.Write(1, 1);
    writer.Write(1, 2);
    NothingReached(writer.stream, data);
    var head := new int[0x1_0000](_ => -1);
    NothingIndexed(head, data);
    var at := 0;
    ghost var body: seq<bool> := [];
    while at < |data|
      invariant at <= |data| && Indexed(head, data, at)
      invariant writer.Valid() && Reached(writer.stream, body, data, at)
    {
      var best, from := FindMatch(data, at, head);
      if best >= 3 {
        MatchReaches(writer.stream, body, data, at);
        Match(writer, best, at - from);
        body := body + MatchBits(best, at - from);
        IndexMatched(data, at, best, head);
        at := at + best;
      } else {
        NoMatch(data, at);
        LiteralReaches(writer.stream, body, data, at);
        Literal(writer, data[at]);
        body := body + SymbolBits(data[at]);
        at := at + 1;
      }
    }
    AllReached(writer.stream, body, data);
    ghost var stream := writer.stream;
    Literal(writer, 256);
    ghost var pad := writer.Flush();
    out := writer.out;
    HeldCompresses(out, stream, body, Bits(0, pad), data);
  }

  lemma SmallFits()
    ensures 1 < Pow2(1) && 1 < Pow2(2)
  {
  }

  lemma NoMatch(data: seq<byte>, at: nat)
    requires at < |data| && MatchLength(data, at) < 3
    ensures MatchLength(data, at) == 0
  {
  }

  lemma HeldCompresses(out: seq<byte>, stream: seq<bool>, body: seq<bool>, pad: seq<bool>, data: seq<byte>)
    requires Holds(stream, body, data) && |pad| < 8
    requires BytesBits(out) == stream + SymbolBits(256) + pad
    ensures stream == HEADER + body && Compresses(out, data)
    ensures 8 * |out| <= 9 * |data| + 17
  {
    StreamCompresses(out, body, SymbolBits(256), pad, data);
  }

  lemma MatchFits(data: seq<byte>, at: nat, from: nat, best: nat)
    requires at < |data| && 3 <= best && Repeats(data, at, from, best)
    ensures best <= 258 && 1 <= at - from <= 32768 && at + best <= |data|
  {
  }
}
