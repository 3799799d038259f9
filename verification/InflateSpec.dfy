/** The decompressor that RFC 1951 defines, for blocks with the fixed Huffman
    codes: bit order (section 3.1.1), block header (3.2.3), lengths and
    distances (3.2.5), and the fixed codes (3.2.6). */
module InflateSpec {
  import opened Wrappers
  import opened Bitwise

  datatype Read = Read(value: nat, rest: seq<bool>)

  datatype Block = Block(out: seq<byte>, rest: seq<bool>)

  datatype Inflated = Inflated(data: seq<byte>, used: nat)

  /** One literal/length symbol. The ranges are the code column of section 3.2.6. */
  function DecodeSymbol(bits: seq<bool>): (r: Option<Read>)
    ensures r.Some? ==> |r.value.rest| < |bits| && r.value.value < 288
  {
    if |bits| < 7 then None
    else if ReadMsb(bits, 7) < 24 then Some(Read(256 + ReadMsb(bits, 7), bits[7..]))
    else if |bits| < 8 then None
    else
      var eight := ReadMsb(bits, 8);
      if 48 <= eight < 192 then Some(Read(eight - 48, bits[8..]))
      else if 192 <= eight < 200 then Some(Read(280 + eight - 192, bits[8..]))
      else if |bits| < 9 then None
      else
        var nine := ReadMsb(bits, 9);
        if 400 <= nine < 512 then Some(Read(144 + nine - 400, bits[9..])) else None
  }

  /** `count` plain bits, least significant first. */
  function ReadExtra(bits: seq<bool>, count: nat): (r: Option<Read>)
    ensures r.Some? ==> |r.value.rest| == |bits| - count
  {
    if |bits| < count then None else Some(Read(ReadLsb(bits, count), bits[count..]))
  }

  function LengthExtra(symbol: nat): nat
    requires 257 <= symbol <= 285
  {
    if symbol < 265 || symbol == 285 then 0 else (symbol - 261) / 4
  }

  /** Each length code starts where the previous one ends; 285 is 258 alone. */
  function LengthBase(symbol: nat): nat
    requires 257 <= symbol <= 285
  {
    if symbol == 257 then 3
    else if symbol == 285 then 258
    else LengthBase(symbol - 1) + Pow2(LengthExtra(symbol - 1))
  }

  function DistanceExtra(code: nat): nat {
    if code < 2 then 0 else code / 2 - 1
  }

  function DistanceBase(code: nat): (base: nat)
    ensures base >= 1
  {
    if code == 0 then 1 else DistanceBase(code - 1) + Pow2(DistanceExtra(code - 1))
  }

  function DecodeLength(symbol: nat, bits: seq<bool>): (r: Option<Read>)
    requires 257 <= symbol
    ensures r.Some? ==> |r.value.rest| <= |bits|
  {
    if symbol > 285 then None
    else
      match ReadExtra(bits, LengthExtra(symbol))
      case None => None
      case Some(extra) => Some(Read(LengthBase(symbol) + extra.value, extra.rest))
  }

  function DecodeDistance(bits: seq<bool>): (r: Option<Read>)
    ensures r.Some? ==> |r.value.rest| <= |bits| && r.value.value >= 1
  {
    if |bits| < 5 || ReadMsb(bits, 5) > 29 then None
    else
      var code := ReadMsb(bits, 5);
      match ReadExtra(bits[5..], DistanceExtra(code))
      case None => None
      case Some(extra) => Some(Read(DistanceBase(code) + extra.value, extra.rest))
  }

  /** Repeats earlier output one byte at a time, so a match may overlap itself. */
  function CopyBack(out: seq<byte>, length: nat, distance: nat): (r: seq<byte>)
    requires 1 <= distance <= |out|
    ensures |r| == |out| + length
    decreases length
  {
    if length == 0 then out
    else CopyBack(out + [out[|out| - distance]], length - 1, distance)
  }

  function InflateSymbols(bits: seq<bool>, out: seq<byte>): (r: Option<Block>)
    ensures r.Some? ==> |r.value.rest| < |bits|
    decreases |bits|
  {
    match DecodeSymbol(bits)
    case None => None
    case Some(symbol) =>
      if symbol.value < 256 then InflateSymbols(symbol.rest, out + [symbol.value])
      else if symbol.value == 256 then Some(Block(out, symbol.rest))
      else
        match DecodeLength(symbol.value, symbol.rest)
        case None => None
        case Some(length) =>
          match DecodeDistance(length.rest)
          case None => None
          case Some(distance) =>
            if distance.value > |out| then None
            else InflateSymbols(distance.rest, CopyBack(out, length.value, distance.value))
  }

  /** Blocks up to the final one. Only block type 01 is specified here. */
  function InflateBlocks(bits: seq<bool>, out: seq<byte>): (r: Option<Block>)
    ensures r.Some? ==> |r.value.rest| < |bits|
    decreases |bits|
  {
    if |bits| < 3 || ReadLsb(bits[1..], 2) != 1 then None
    else
      match InflateSymbols(bits[3..], out)
      case None => None
      case Some(block) => if bits[0] then Some(block) else InflateBlocks(block.rest, block.out)
  }

  /** The data of a compressed stream, and how many bytes the stream takes. */
  function Inflate(bytes: seq<byte>): (r: Option<Inflated>)
    ensures r.Some? ==> r.value.used <= |bytes|
  {
    match InflateBlocks(BytesBits(bytes), [])
    case None => None
    case Some(block) => Some(Inflated(block.out, |bytes| - |block.rest| / 8))
  }
}
