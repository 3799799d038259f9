/** The PNG writer of rendered frames, and the reader that compares them. */
module Png {
  import opened Collections
  import opened Wrappers
  import opened Bitwise
  import opened InflateSpec
  import Checksums
  import Deflater

  datatype Image = Image(width: nat, height: nat, pixels: seq<byte>)

  datatype PngError = ShortField | BadStream | NoRow | BadFilter(filter: byte)

  const IHDR: seq<byte> := [0x49, 0x48, 0x44, 0x52]
  const IDAT: seq<byte> := [0x49, 0x44, 0x41, 0x54]
  const IEND: seq<byte> := [0x49, 0x45, 0x4E, 0x44]
  const SIGNATURE: seq<byte> := [0x89, 0x50, 0x4E, 0x47, 0x0D, 0x0A, 0x1A, 0x0A]

  // Big-endian numbers -------------------------------------------------------

  function FromBytes(bytes: seq<byte>): nat {
    if bytes == [] then 0 else 256 * FromBytes(bytes[..|bytes| - 1]) + bytes[|bytes| - 1]
  }

  /** The `n` low bytes of `value`, highest first. */
  function ToBytes(value: nat, n: nat): (bytes: seq<byte>)
    ensures |bytes| == n
  {
    if n == 0 then [] else ToBytes(value / 256, n - 1) + [value % 256]
  }

  lemma {:induction false} FromToBytes(value: nat, n: nat)
    requires value < Pow2(8 * n)
    ensures FromBytes(ToBytes(value, n)) == value
  {
    if n > 0 {
      Pow2Eight(8 * (n - 1));
      FromToBytes(value / 256, n - 1);
      assert ToBytes(value, n)[..n - 1] == ToBytes(value / 256, n - 1);
    }
  }

  lemma {:induction false} ToFromBytes(bytes: seq<byte>)
    ensures ToBytes(FromBytes(bytes), |bytes|) == bytes
    ensures FromBytes(bytes) < Pow2(8 * |bytes|)
  {
    if bytes != [] {
      ToFromBytes(bytes[..|bytes| - 1]);
      Pow2Eight(8 * (|bytes| - 1));
      assert bytes == bytes[..|bytes| - 1] + [bytes[|bytes| - 1]];
    }
  }

  function ByteAt(value: nat, shift: nat): byte {
    AndByte(Shr(value, shift));
    And(Shr(value, shift), 0xFF)
  }

  /** The four bytes of a word, written from the highest shift down. */
  method AppendBigEndian(out: seq<byte>, value: nat) returns (r: seq<byte>)
    requires value < 0x1_0000_0000
    ensures r == out + ToBytes(value, 4)
    ensures r == out + [value / 0x100_0000, value / 0x1_0000 % 0x100, value / 0x100 % 0x100, value % 0x100]
  {
    hide ToBytes, Shr, And;
    r := out;
    var shift := 24;
    WordBytes(value);
    FourBytes(value);
    while shift >= 0
      invariant -8 <= shift <= 24 && shift % 8 == 0
      invariant r == out + ToBytes(value, 4)[..3 - shift / 8]
    {
      r := r + [ByteAt(value, shift)];
      shift := shift - 8;
    }
  }

  lemma WordBytes(value: nat)
    ensures ToBytes(value, 4) == [ByteAt(value, 24), ByteAt(value, 16), ByteAt(value, 8), ByteAt(value, 0)]
  {
    hide ToBytes, Shr, And, ByteAt;
    ToBytesNext(value, 4);
    ToBytesNext(value / 256, 3);
    ToBytesNext(value / 256 / 256, 2);
    ToBytesNext(value / 256 / 256 / 256, 1);
    ByteIs(value, 0, value);
    ByteIs(value, 8, value / 256);
    ByteIs(value, 16, value / 256 / 256);
    ByteIs(value, 24, value / 256 / 256 / 256);
    ShrBytes(value);
  }

  lemma FourBytes(value: nat)
    requires value < 0x1_0000_0000
    ensures ToBytes(value, 4) == [value / 0x100_0000, value / 0x1_0000 % 0x100, value / 0x100 % 0x100, value % 0x100]
  {
    hide ToBytes;
    ToBytesNext(value, 4);
    ToBytesNext(value / 256, 3);
    ToBytesNext(value / 256 / 256, 2);
    ToBytesNext(value / 256 / 256 / 256, 1);
    Quotients(value);
  }

  lemma Quotients(value: nat)
    requires value < 0x1_0000_0000
    ensures value / 256 / 256 == value / 0x1_0000 && value / 256 / 256 / 256 == value / 0x100_0000 < 256
  {
  }

  lemma ToBytesNext(value: nat, n: nat)
    requires n > 0
    ensures ToBytes(value, 0) == []
    ensures ToBytes(value, n) == ToBytes(value / 256, n - 1) + [value % 256]
  {
  }

  lemma ByteIs(value: nat, shift: nat, v: nat)
    ensures Shr(value, shift) == v ==> ByteAt(value, shift) == v % 256
  {
    AndByte(v);
  }

  lemma ShrBytes(value: nat)
    ensures Shr(value, 0) == value && Shr(value, 8) == value / 256
    ensures Shr(value, 16) == value / 256 / 256 && Shr(value, 24) == value / 256 / 256 / 256
  {
    hide Shr;
    ShrNone(value);
    ShrEight(value);
    ShrEight(value / 256);
    ShrEight(value / 256 / 256);
    ShrTwice(value, 8, 8);
    ShrTwice(value, 16, 8);
  }

  // Adding rows --------------------------------------------------------------

  /** Byte by byte, modulo 256. */
  function AddBytes(a: seq<byte>, b: seq<byte>): (r: seq<byte>)
    requires |a| == |b|
    ensures |r| == |a| && forall i :: 0 <= i < |a| ==> r[i] == (a[i] as nat + b[i]) % 256
  {
    seq(|a|, i requires 0 <= i < |a| => (a[i] as nat + b[i]) % 256)
  }

  /** Adds two rows as numbers: the low seven bits of each byte, then the high bit without its carry. */
  function MaskedAdd(a: nat, b: nat, low: nat, high: nat): nat {
    Xor(And(a, low) + And(b, low), And(Xor(a, b), high))
  }

  lemma Pow2Seven()
    ensures Pow2(7) == 128 && Pow2(8) == 256
  {
  }

  lemma XorOfBits(x: nat, y: nat)
    requires x < 2 && y < 2
    ensures Xor(x, y) == (x + y) % 2
  {
  }

  /** The high bit of the sum without carries: one where the two high bits differ. */
  lemma HighBits(p: byte, q: byte)
    ensures And(Xor(p, q), 0x80) == 128 * ((p / 128 + q / 128) % 2)
    ensures Xor(p, q) < 256
  {
    hide And, Xor, Shl, Pow2;
    var x := (p / 128 + q / 128) % 2;
    Pow2Seven();
    ShlSeven(p / 128);
    ShlSeven(q / 128);
    ShlSeven(x);
    ShlSeven(1);
    SplitXor(p % 128, p / 128, q % 128, q / 128, 7);
    XorOfBits(p / 128, q / 128);
    var low := Xor(p % 128, q % 128);
    XorBound(p % 128, q % 128, 7);
    SplitAnd(low, x, 0, 1, 7);
    AndZero(low);
    AndOne(x);
    ShlSeven(And(x, 1));
  }

  /** One byte of the masked sum. */
  lemma MaskedByte(p: byte, q: byte)
    ensures Xor(And(p, 0x7F) + And(q, 0x7F), And(Xor(p, q), 0x80)) == (p as nat + q) % 256
    ensures And(p, 0x7F) + And(q, 0x7F) < 256
  {
    hide And, Xor, Shl, Pow2;
    Pow2Seven();
    AndMask(p, 7);
    AndMask(q, 7);
    HighBits(p, q);
    var s := p % 128 + q % 128;
    var x := (p / 128 + q / 128) % 2;
    ShlSeven(s / 128);
    ShlSeven(x);
    SplitXor(s % 128, s / 128, 0, x, 7);
    XorZero(s % 128);
    XorOfBits(s / 128, x);
    ShlSeven(Xor(s / 128, x));
    HighCarry(p, q);
  }

  lemma HighCarry(p: byte, q: byte)
    ensures var s := p % 128 + q % 128;
      (p as nat + q) % 256 == s % 128 + 128 * ((s / 128 + (p / 128 + q / 128) % 2) % 2)
  {
    CarryOut(p % 128, p / 128, q % 128, q / 128);
  }

  lemma CarryOut(pl: nat, ph: nat, ql: nat, qh: nat)
    requires pl < 128 && ql < 128 && ph < 2 && qh < 2
    ensures var s := pl + ql;
      (pl + 128 * ph + (ql + 128 * qh)) % 256 == s % 128 + 128 * ((s / 128 + (ph + qh) % 2) % 2)
  {
  }

  lemma MaskedStep(u: nat, p: byte, v: nat, q: byte, low: nat, high: nat)
    ensures MaskedAdd(256 * u + p, 256 * v + q, 256 * low + 0x7F, 256 * high + 0x80) ==
      256 * MaskedAdd(u, v, low, high) + (p as nat + q) % 256
  {
    hide And, Xor, Shl, Pow2;
    Pow2Seven();
    ShlEight(u);
    ShlEight(v);
    ShlEight(low);
    ShlEight(high);
    MaskedByte(p, q);
    HighBits(p, q);
    SplitAnd(p, u, 0x7F, low, 8);
    SplitAnd(q, v, 0x7F, low, 8);
    SplitXor(p, u, q, v, 8);
    ShlEight(And(u, low));
    ShlEight(And(v, low));
    ShlEight(Xor(u, v));
    SplitAnd(Xor(p, q), Xor(u, v), 0x80, high, 8);
    ShlEight(And(Xor(u, v), high));
    var sum, top := And(u, low) + And(v, low), And(Xor(u, v), high);
    ShlEight(sum);
    ShlEight(top);
    SplitXor(And(p, 0x7F) + And(q, 0x7F), sum, And(Xor(p, q), 0x80), top, 8);
    ShlEight(Xor(sum, top));
  }

  lemma FromBytesLast(front: seq<byte>, last: byte)
    ensures FromBytes(front + [last]) == 256 * FromBytes(front) + last
  {
  }

  lemma LastBytes(a: seq<byte>, p: byte, b: seq<byte>, q: byte)
    requires |a| == |b|
    ensures AddBytes(a + [p], b + [q]) == AddBytes(a, b) + [(p as nat + q) % 256]
    ensures Repeated<byte>(p, |a| + 1) == Repeated<byte>(p, |a|) + [p]
  {
  }

  lemma MaskedAddLast(a: seq<byte>, p: byte, b: seq<byte>, q: byte)
    requires |a| == |b|
    requires MaskedAdd(FromBytes(a), FromBytes(b), FromBytes(Repeated<byte>(0x7F, |a|)), FromBytes(Repeated<byte>(0x80, |a|))) ==
      FromBytes(AddBytes(a, b))
    ensures MaskedAdd(FromBytes(a + [p]), FromBytes(b + [q]),
                      FromBytes(Repeated<byte>(0x7F, |a| + 1)), FromBytes(Repeated<byte>(0x80, |a| + 1))) ==
      FromBytes(AddBytes(a + [p], b + [q]))
  {
    hide MaskedAdd, FromBytes, AddBytes, Repeated;
    LastBytes(a, p, b, q);
    LastBytes(a, 0x7F, a, 0);
    LastBytes(a, 0x80, a, 0);
    FromBytesLast(a, p);
    FromBytesLast(b, q);
    FromBytesLast(Repeated<byte>(0x7F, |a|), 0x7F);
    FromBytesLast(Repeated<byte>(0x80, |a|), 0x80);
    FromBytesLast(AddBytes(a, b), (p as nat + q) % 256);
    MaskedStep(FromBytes(a), p, FromBytes(b), q, FromBytes(Repeated<byte>(0x7F, |a|)), FromBytes(Repeated<byte>(0x80, |a|)));
  }

  lemma MaskedNothing()
    ensures MaskedAdd(FromBytes([]), FromBytes([]), FromBytes(Repeated<byte>(0x7F, 0)), FromBytes(Repeated<byte>(0x80, 0))) ==
      FromBytes(AddBytes([], []))
  {
  }

  /** The masked sum of two rows as numbers is their sum byte by byte, for rows of any length. */
  lemma {:induction false} MaskedAddIsBytewise(a: seq<byte>, b: seq<byte>)
    requires |a| == |b|
    ensures MaskedAdd(FromBytes(a), FromBytes(b), FromBytes(Repeated<byte>(0x7F, |a|)), FromBytes(Repeated<byte>(0x80, |a|))) ==
      FromBytes(AddBytes(a, b))
  {
    if a == [] {
      MaskedNothing();
    } else {
      hide *;
      var front, last, above, lastAbove := a[..|a| - 1], a[|a| - 1], b[..|b| - 1], b[|b| - 1];
      MaskedAddIsBytewise(front, above);
      MaskedAddLast(front, last, above, lastAbove);
      SplitLast(a);
      SplitLast(b);
    }
  }

  lemma {:induction false} Padding(k: nat, s: seq<byte>)
    ensures FromBytes(Repeated<byte>(0, k) + s) == FromBytes(s)
  {
    hide FromBytes;
    if s != [] {
      var n := |s| - 1;
      Padding(k, s[..n]);
      SplitLast(s);
      FromBytesLast(s[..n], s[n]);
      FromBytesLast(Repeated<byte>(0, k) + s[..n], s[n]);
      Regroup(Repeated<byte>(0, k), s[..n], [s[n]]);
    } else {
      assert Repeated<byte>(0, k) + [] == Repeated<byte>(0, k);
      NoValue(k);
    }
  }

  lemma {:induction false} NoValue(k: nat)
    ensures FromBytes(Repeated<byte>(0, k)) == FromBytes([])
  {
    hide FromBytes;
    if k > 0 {
      NoValue(k - 1);
      assert Repeated<byte>(0, k) == Repeated<byte>(0, k - 1) + [0];
      FromBytesLast(Repeated<byte>(0, k - 1), 0);
      NoBytesValue();
    } else {
      assert Repeated<byte>(0, 0) == [];
    }
  }

  lemma NoBytesValue()
    ensures FromBytes([]) == 0
  {
  }

  /** Where a row starts. */
  function Offset(row: nat, size: nat): nat {
    row * size
  }

  lemma NextOffset(row: nat, size: nat)
    ensures Offset(0, size) == 0
    ensures Offset(row + 1, size) == Offset(row, size) + size
  {
  }

  lemma {:induction false} OffsetInside(row: nat, height: nat, size: nat)
    ensures row <= height ==> Offset(row, size) <= Offset(height, size)
    ensures row < height ==> Offset(row, size) + size <= Offset(height, size)
  {
    hide Offset;
    if row < height {
      NextOffset(height - 1, size);
      OffsetInside(row, height - 1, size);
    }
  }

  // Filtering ----------------------------------------------------------------

  /** The byte above, or zero in the first row (PNG specification, section 9.2). */
  function Above(rgba: seq<byte>, stride: nat, row: nat, index: nat): byte
    requires index < stride && Offset(row, stride) + stride <= |rgba|
  {
    if row == 0 then 0
    else
      OffsetInside(row - 1, row, stride);
      rgba[Offset(row - 1, stride) + index]
  }

  /** A row as it is written: the filter's number, and each byte less the byte above it. */
  function FilteredRow(rgba: seq<byte>, stride: nat, row: nat): (r: seq<byte>)
    requires Offset(row, stride) + stride <= |rgba|
    ensures |r| == stride + 1
  {
    [2] + seq(stride, i requires 0 <= i < stride =>
      (rgba[Offset(row, stride) + i] as int - Above(rgba, stride, row, i)) % 256)
  }

  function FilteredRows(rgba: seq<byte>, stride: nat, rows: nat): (r: seq<byte>)
    requires Offset(rows, stride) <= |rgba|
    ensures |r| == Offset(rows, stride + 1)
  {
    if rows == 0 then []
    else
      NextOffset(rows - 1, stride);
      NextOffset(rows - 1, stride + 1);
      FilteredRows(rgba, stride, rows - 1) + FilteredRow(rgba, stride, rows - 1)
  }

  /** What is left of a slice whose bounds can lie beyond the end. */
  function Slice(s: seq<byte>, from: nat, to: nat): (r: seq<byte>)
    requires from <= to
    ensures |r| <= to - from && (to <= |s| ==> r == s[from..to])
  {
    if |s| <= from then [] else if |s| <= to then s[from..] else s[from..to]
  }

  /** A row that is cut short counts as the last bytes of a whole one. */
  function Padded(s: seq<byte>, n: nat): (r: seq<byte>)
    requires |s| <= n
    ensures |r| == n
  {
    Repeated<byte>(0, n - |s|) + s
  }

  function LastRow(pixels: seq<byte>, stride: nat): (r: seq<byte>)
    ensures |r| == stride
  {
    if |pixels| < stride then Repeated<byte>(0, stride) else pixels[|pixels| - stride..]
  }

  /** One more row: the filtered bytes from `start` on, added to the row above. */
  function UnfilteredRow(done: seq<byte>, raw: seq<byte>, start: nat, stride: nat): (r: Result<seq<byte>, PngError>)
    ensures r.Success? ==> |r.value| == |done| + stride
  {
    if start >= |raw| then Failure(NoRow)
    else if raw[start] != 2 then Failure(BadFilter(raw[start]))
    else
      var body := Padded(Slice(raw, start + 1, start + 1 + stride), stride);
      Success(done + AddBytes(body, LastRow(done, stride)))
  }

  /** The rows of an unfiltered image, or the first row's fault. */
  function Unfiltered(raw: seq<byte>, stride: nat, rows: nat): (r: Result<seq<byte>, PngError>)
    ensures r.Success? ==> |r.value| == Offset(rows, stride)
  {
    if rows == 0 then Success([])
    else
      NextOffset(rows - 1, stride);
      match Unfiltered(raw, stride, rows - 1)
      case Failure(error) => Failure(error)
      case Success(done) => UnfilteredRow(done, raw, Offset(rows - 1, stride + 1), stride)
  }

  lemma FilteredNext(rgba: seq<byte>, stride: nat, row: nat)
    requires Offset(row + 1, stride) <= |rgba|
    ensures Offset(row, stride) + stride <= |rgba|
    ensures FilteredRows(rgba, stride, row + 1) == FilteredRows(rgba, stride, row) + FilteredRow(rgba, stride, row)
  {
    hide Offset, FilteredRow;
    NextOffset(row, stride);
  }

  /** Fewer rows are a prefix of more rows. */
  lemma {:induction false} FilteredPrefix(rgba: seq<byte>, stride: nat, rows: nat, height: nat)
    requires rows <= height && Offset(height, stride) <= |rgba|
    ensures Offset(rows, stride) <= |rgba|
    ensures FilteredRows(rgba, stride, rows) <= FilteredRows(rgba, stride, height)
  {
    hide FilteredRows, FilteredRow, Offset;
    OffsetInside(rows, height, stride);
    if rows < height {
      OffsetInside(height - 1, height, stride);
      FilteredNext(rgba, stride, height - 1);
      FilteredPrefix(rgba, stride, rows, height - 1);
    }
  }

  /** Adding the row above back undoes its subtraction. */
  lemma RowRestored(rgba: seq<byte>, stride: nat, row: nat, above: seq<byte>)
    requires Offset(row, stride) + stride <= |rgba|
    requires |above| == stride && forall i :: 0 <= i < stride ==> above[i] == Above(rgba, stride, row, i)
    ensures AddBytes(FilteredRow(rgba, stride, row)[1..], above) == rgba[Offset(row, stride)..Offset(row, stride) + stride]
  {
    hide Offset, Above;
  }

  lemma RowGained(rgba: seq<byte>, stride: nat, row: nat, height: nat)
    requires row < height && Offset(height, stride) <= |rgba|
    ensures Offset(row, stride) + stride <= |rgba|
    ensures UnfilteredRow(rgba[..Offset(row, stride)], FilteredRows(rgba, stride, height), Offset(row, stride + 1), stride) ==
      Success(rgba[..Offset(row, stride) + stride])
  {
    hide Above, AddBytes, Slice, LastRow, FilteredRows, FilteredRow, Padded, Offset;
    RowOfFiltered(rgba, stride, row, height);
    LastRowIs(rgba, stride, row);
    RowRestored(rgba, stride, row, LastRow(rgba[..Offset(row, stride)], stride));
    Regain(rgba, Offset(row, stride), stride);
  }

  lemma UnfilteredNext(raw: seq<byte>, stride: nat, rows: nat)
    ensures Unfiltered(raw, stride, 0) == Success([])
    ensures Unfiltered(raw, stride, rows).Success? ==>
      Unfiltered(raw, stride, rows + 1) ==
        UnfilteredRow(Unfiltered(raw, stride, rows).value, raw, Offset(rows, stride + 1), stride)
  {
  }

  lemma UnfilteredRowsNext(raw: seq<byte>, stride: nat, rows: nat, before: seq<byte>, after: seq<byte>)
    requires Unfiltered(raw, stride, rows) == Success(before)
    requires UnfilteredRow(before, raw, Offset(rows, stride + 1), stride) == Success(after)
    ensures Unfiltered(raw, stride, rows + 1) == Success(after)
  {
    hide Unfiltered, UnfilteredRow, Offset;
    UnfilteredNext(raw, stride, rows);
  }

  /** The filter loses nothing: unfiltering the written rows gives the image's rows back. */
  lemma {:induction false} FilterRoundTrip(rgba: seq<byte>, stride: nat, rows: nat, height: nat)
    requires rows <= height && Offset(height, stride) <= |rgba|
    ensures Offset(rows, stride) <= |rgba|
    ensures Unfiltered(FilteredRows(rgba, stride, height), stride, rows) == Success(rgba[..Offset(rows, stride)])
  {
    hide Unfiltered, UnfilteredRow, FilteredRows, Offset;
    OffsetInside(rows, height, stride);
    var raw := FilteredRows(rgba, stride, height);
    NextOffset(0, stride);
    UnfilteredNext(raw, stride, 0);
    if rows > 0 {
      NextOffset(rows - 1, stride);
      FilterRoundTrip(rgba, stride, rows - 1, height);
      RowGained(rgba, stride, rows - 1, height);
      UnfilteredRowsNext(raw, stride, rows - 1, rgba[..Offset(rows - 1, stride)], rgba[..Offset(rows, stride)]);
    }
  }

  lemma Regain(rgba: seq<byte>, start: nat, n: nat)
    requires start + n <= |rgba|
    ensures rgba[..start] + rgba[start..start + n] == rgba[..start + n]
  {
  }

  lemma RowOfFiltered(rgba: seq<byte>, stride: nat, row: nat, height: nat)
    requires row < height && Offset(height, stride) <= |rgba|
    ensures Offset(row, stride) + stride <= |rgba|
    ensures var raw, start := FilteredRows(rgba, stride, height), Offset(row, stride + 1);
      && start + stride + 1 <= |raw| && raw[start] == 2
      && Padded(Slice(raw, start + 1, start + 1 + stride), stride) == FilteredRow(rgba, stride, row)[1..]
  {
    hide FilteredRows, FilteredRow, Padded, Slice, Offset;
    FilteredPrefix(rgba, stride, row + 1, height);
    FilteredNext(rgba, stride, row);
    FilteredStart(rgba, stride, row);
    RowInPrefix(FilteredRows(rgba, stride, height), FilteredRows(rgba, stride, row), FilteredRow(rgba, stride, row), stride);
  }

  lemma FilteredStart(rgba: seq<byte>, stride: nat, row: nat)
    requires Offset(row, stride) + stride <= |rgba|
    ensures FilteredRow(rgba, stride, row)[0] == 2
  {
    hide Offset, Above;
  }

  lemma RowInPrefix(raw: seq<byte>, before: seq<byte>, line: seq<byte>, stride: nat)
    requires before + line <= raw && |line| == stride + 1
    ensures raw[|before|] == line[0]
    ensures Padded(Slice(raw, |before| + 1, |before| + 1 + stride), stride) == line[1..]
  {
  }

  lemma LastRowIs(rgba: seq<byte>, stride: nat, row: nat)
    requires Offset(row, stride) + stride <= |rgba|
    ensures var above := LastRow(rgba[..Offset(row, stride)], stride);
      forall i :: 0 <= i < stride ==> above[i] == Above(rgba, stride, row, i)
  {
    hide Offset;
    NextOffset(0, stride);
    if row > 0 {
      NextOffset(row - 1, stride);
    }
  }

  /** Every row of the filtered image starts with its filter's number, and then has each byte's difference from
      the byte above it. */
  lemma FilteredAt(rgba: seq<byte>, stride: nat, height: nat, row: nat, i: nat)
    requires Offset(height, stride) <= |rgba| && row < height && i < stride
    ensures Offset(row, stride) + stride <= |rgba| && (row > 0 ==> Offset(row - 1, stride) + stride <= |rgba|)
    ensures var filtered, at := FilteredRows(rgba, stride, height), Offset(row, stride + 1);
      && at + 1 + i < |filtered| && filtered[at] == 2
      && filtered[at + 1 + i] ==
        (rgba[Offset(row, stride) + i] as int - if row == 0 then 0 else rgba[Offset(row - 1, stride) + i]) % 256
  {
    hide FilteredRows, Offset;
    FilteredPrefix(rgba, stride, row + 1, height);
    FilteredNext(rgba, stride, row);
    if row > 0 {
      OffsetInside(row - 1, row, stride);
    }
    var before, line := FilteredRows(rgba, stride, row), FilteredRow(rgba, stride, row);
    assert (before + line)[|before|] == line[0] && (before + line)[|before| + 1 + i] == line[1 + i];
  }

  /** Whether the row's filter byte is there and is the filter Up. */
  predicate RowStarts(raw: seq<byte>, stride: nat, row: nat) {
    Offset(row, stride + 1) < |raw| && raw[Offset(row, stride + 1)] == 2
  }

  predicate AllStart(raw: seq<byte>, stride: nat, rows: nat) {
    forall row :: 0 <= row < rows ==> RowStarts(raw, stride, row)
  }

  lemma NextStarts(raw: seq<byte>, stride: nat, rows: nat)
    ensures AllStart(raw, stride, 0)
    ensures AllStart(raw, stride, rows + 1) <==> AllStart(raw, stride, rows) && RowStarts(raw, stride, rows)
  {
  }

  lemma RowFault(done: seq<byte>, raw: seq<byte>, stride: nat, row: nat)
    ensures var r := UnfilteredRow(done, raw, Offset(row, stride + 1), stride);
      if RowStarts(raw, stride, row) then r.Success?
      else r == Failure(if |raw| <= Offset(row, stride + 1) then NoRow else BadFilter(raw[Offset(row, stride + 1)]))
  {
    hide Offset;
  }

  /** Rows are read exactly when each has its filter byte. */
  lemma {:induction false} RowsRead(raw: seq<byte>, stride: nat, rows: nat)
    ensures Unfiltered(raw, stride, rows).Success? <==> AllStart(raw, stride, rows)
  {
    hide Unfiltered, UnfilteredRow, RowStarts, AllStart, Offset;
    UnfilteredNext(raw, stride, 0);
    NextStarts(raw, stride, 0);
    if rows > 0 {
      var n := rows - 1;
      RowsRead(raw, stride, n);
      NextStarts(raw, stride, n);
      FaultPasses(raw, stride, n);
      if Unfiltered(raw, stride, n).Success? {
        UnfilteredNext(raw, stride, n);
        RowFault(Unfiltered(raw, stride, n).value, raw, stride, n);
      }
    }
  }

  /** The first row without it is the fault. */
  lemma FirstFault(raw: seq<byte>, stride: nat, row: nat, rows: nat)
    requires row < rows && AllStart(raw, stride, row) && !RowStarts(raw, stride, row)
    ensures Unfiltered(raw, stride, rows) ==
      Failure(if |raw| <= Offset(row, stride + 1) then NoRow else BadFilter(raw[Offset(row, stride + 1)]))
  {
    hide Unfiltered, UnfilteredRow, RowStarts, AllStart, Offset;
    RowsRead(raw, stride, row);
    UnfilteredNext(raw, stride, row);
    RowFault(Unfiltered(raw, stride, row).value, raw, stride, row);
    FaultStays(raw, stride, row + 1, rows);
  }

  lemma FaultPasses(raw: seq<byte>, stride: nat, rows: nat)
    ensures Unfiltered(raw, stride, rows).Failure? ==> Unfiltered(raw, stride, rows + 1) == Unfiltered(raw, stride, rows)
  {
  }

  lemma {:induction false} RowsKept(raw: seq<byte>, stride: nat, rows: nat, height: nat)
    requires rows <= height && Unfiltered(raw, stride, height).Success?
    ensures Unfiltered(raw, stride, rows).Success?
    ensures Offset(rows, stride) <= Offset(height, stride)
    ensures Unfiltered(raw, stride, rows).value == Unfiltered(raw, stride, height).value[..Offset(rows, stride)]
  {
    hide Offset, Unfiltered, UnfilteredRow;
    OffsetInside(rows, height, stride);
    if rows < height {
      FaultPasses(raw, stride, height - 1);
      RowsKept(raw, stride, rows, height - 1);
      UnfilteredNext(raw, stride, height - 1);
      var done := Unfiltered(raw, stride, height - 1).value;
      RowBehind(done, raw, Offset(height - 1, stride + 1), stride);
      PrefixOf(Unfiltered(raw, stride, height).value, done, Offset(rows, stride));
    }
  }

  lemma PrefixOf(s: seq<byte>, front: seq<byte>, n: nat)
    requires n <= |front| <= |s| && s[..|front|] == front
    ensures front[..n] == s[..n]
  {
  }

  lemma RowBehind(done: seq<byte>, raw: seq<byte>, start: nat, stride: nat)
    ensures UnfilteredRow(done, raw, start, stride).Success? ==> UnfilteredRow(done, raw, start, stride).value[..|done|] == done
  {
  }

  /** A read byte is its filtered byte added to the byte above it, modulo 256. */
  lemma ReadAt(raw: seq<byte>, stride: nat, height: nat, row: nat, pixels: seq<byte>, start: nat, at: nat, i: nat)
    requires Unfiltered(raw, stride, height) == Success(pixels) && row < height && i < stride
    requires start == Offset(row, stride + 1) && start + 1 + stride <= |raw| && at == Offset(row, stride)
    ensures at + stride <= |pixels| && (row > 0 ==> at >= stride)
    ensures pixels[at + i] == (raw[start + 1 + i] as int + if row == 0 then 0 else pixels[at - stride + i]) % 256
  {
    hide Offset, Unfiltered, UnfilteredRow;
    NextOffset(row, stride);
    RowsKept(raw, stride, row + 1, height);
    RowsKept(raw, stride, row, height);
    UnfilteredNext(raw, stride, row);
    if row > 0 {
      NextOffset(row - 1, stride);
    }
    RowAt(Unfiltered(raw, stride, row).value, raw, start, stride, i);
  }

  lemma RowAt(done: seq<byte>, raw: seq<byte>, start: nat, stride: nat, i: nat)
    requires i < stride && start + 1 + stride <= |raw| && (done == [] || |done| >= stride)
    requires UnfilteredRow(done, raw, start, stride).Success?
    ensures var after := UnfilteredRow(done, raw, start, stride).value;
      |done| + i < |after| &&
      after[|done| + i] == (raw[start + 1 + i] as int + if done == [] then 0 else done[|done| - stride + i]) % 256
  {
    hide LastRow, Padded, Slice;
    var body := raw[start + 1..start + 1 + stride];
    WholeRow(raw, start, stride);
    LastAt(done, stride, i);
    assert body[i] == raw[start + 1 + i];
  }

  lemma WholeRow(raw: seq<byte>, start: nat, stride: nat)
    requires start + 1 + stride <= |raw|
    ensures Slice(raw, start + 1, start + 1 + stride) == raw[start + 1..start + 1 + stride]
    ensures Padded(raw[start + 1..start + 1 + stride], stride) == raw[start + 1..start + 1 + stride]
  {
  }

  lemma LastAt(done: seq<byte>, stride: nat, i: nat)
    requires i < stride && (done == [] || |done| >= stride)
    ensures LastRow(done, stride)[i] == if done == [] then 0 else done[|done| - stride + i]
  {
  }

  method FilterImage(rgba: seq<byte>, stride: nat, height: nat) returns (filtered: seq<byte>)
    requires Offset(height, stride) <= |rgba|
    ensures filtered == FilteredRows(rgba, stride, height)
  {
    hide Above, Offset;
    NextOffset(0, stride);
    filtered := [];
    for row := 0 to height
      invariant Offset(row, stride) <= |rgba|
      invariant filtered == FilteredRows(rgba, stride, row)
    {
      NextOffset(row, stride);
      OffsetInside(row, height, stride);
      FilteredNext(rgba, stride, row);
      ghost var before := filtered;
      filtered := filtered + [2];
      for index := 0 to stride
        invariant filtered == before + FilteredRow(rgba, stride, row)[..index + 1]
      {
        var byte := (rgba[Offset(row, stride) + index] as int - Above(rgba, stride, row, index)) % 256;
        assert byte == FilteredRow(rgba, stride, row)[index + 1];
        filtered := filtered + [byte];
      }
    }
  }

  // Streams and chunks -------------------------------------------------------

  /** What decompressing a zlib stream gives (RFC 1950, section 2.2): the header and the checksum must fit. */
  function ZlibDecompress(bytes: seq<byte>): Option<seq<byte>> {
    if |bytes| < 2 || bytes[0] % 16 != 8 || bytes[0] / 16 > 7 then None
    else if (bytes[0] as nat * 256 + bytes[1]) % 31 != 0 || bytes[1] / 32 % 2 == 1 then None
    else
      match Inflate(bytes[2..])
      case None => None
      case Some(inflated) =>
        var check := Slice(bytes, 2 + inflated.used, 6 + inflated.used);
        if |check| == 4 && FromBytes(check) == Checksums.Adler(inflated.data) then Some(inflated.data) else None
  }

  /** Nothing but a stream with a zlib header without a preset dictionary decompresses. */
  lemma ZlibHeader(bytes: seq<byte>)
    requires ZlibDecompress(bytes).Some?
    ensures |bytes| > 2 && bytes[0] % 16 == 8 && bytes[0] / 16 <= 7 && bytes[1] / 32 % 2 == 0
    ensures (256 * bytes[0] as int + bytes[1]) % 31 == 0
  {
  }

  /** The last four bytes of a stream must be the checksum of its data. */
  lemma ZlibChecks(deflated: seq<byte>, data: seq<byte>, check: seq<byte>)
    requires Deflater.Compresses(deflated, data) && |check| == 4
    ensures ZlibDecompress([0x78, 0x01] + deflated + check) == if FromBytes(check) == Checksums.Adler(data) then Some(data) else None
  {
    hide Inflate, FromBytes;
    var stream := [0x78, 0x01] + deflated + check;
    assert stream[2..] == deflated + check;
    assert stream[2 + |deflated|..] == check;
  }

  lemma ZlibRoundTrip(deflated: seq<byte>, data: seq<byte>)
    requires Deflater.Compresses(deflated, data) && Checksums.Adler(data) < 0x1_0000_0000
    ensures ZlibDecompress([0x78, 0x01] + deflated + ToBytes(Checksums.Adler(data), 4)) == Some(data)
  {
    hide Inflate, ToBytes, FromBytes, ZlibDecompress;
    ZlibChecks(deflated, data, ToBytes(Checksums.Adler(data), 4));
    Pow2Bytes();
    FromToBytes(Checksums.Adler(data), 4);
  }

  /** A chunk's length, kind, body, and the CRC of kind and body (PNG specification, section 5.3). */
  ghost predicate IsChunk(chunk: seq<byte>, kind: seq<byte>, body: seq<byte>) {
    && |kind| == 4 && |chunk| == 12 + |body|
    && chunk[..4] == ToBytes(|body| % 0x1_0000_0000, 4)
    && chunk[4..8] == kind
    && chunk[8..8 + |body|] == body
    && Bits(FromBytes(chunk[8 + |body|..]), 32) == Checksums.PngCrc(kind + body)
  }

  method AppendChunk(out: seq<byte>, kind: seq<byte>, body: seq<byte>) returns (r: seq<byte>)
    requires |kind| == 4
    ensures |r| >= |out| && r[..|out|] == out && IsChunk(r[|out|..], kind, body)
  {
    hide Bits, ToBytes, FromBytes, Checksums.PngCrc;
    r := AppendBigEndian(out, |body| % 0x1_0000_0000);
    var start := |r|;
    r := r + kind + body;
    assert r[start..] == kind + body by { assert r[..start] + (kind + body) == r; }
    var crc := Checksums.Crc32(r, start);
    r := AppendBigEndian(r, crc);
    Pow2Bytes();
    FromToBytes(crc, 4);
    Assembled(out, ToBytes(|body| % 0x1_0000_0000, 4), kind, body, ToBytes(crc, 4));
  }

  lemma Assembled(out: seq<byte>, length: seq<byte>, kind: seq<byte>, body: seq<byte>, crc: seq<byte>)
    requires |length| == |kind| == |crc| == 4
    ensures var r := out + length + kind + body + crc; var chunk := r[|out|..];
      && r[..|out|] == out && |chunk| == 12 + |body|
      && chunk[..4] == length && chunk[4..8] == kind && chunk[8..8 + |body|] == body && chunk[8 + |body|..] == crc
  {
  }

  datatype Fields = Fields(width: nat, height: nat, idat: seq<byte>)

  function Tail(s: seq<byte>, from: nat): (r: seq<byte>)
    ensures |s| > from ==> |r| == |s| - from
  {
    if from <= |s| then s[from..] else []
  }

  /** The fields that the chunks from here on leave. The reader skips the CRC. */
  function ReadChunks(rest: seq<byte>, fields: Fields): Result<Fields, PngError>
    decreases |rest|
  {
    if rest == [] then Success(fields)
    else if |rest| < 4 then Failure(ShortField)
    else
      var length := FromBytes(rest[..4]);
      var kind, body := Slice(rest, 4, 8), Slice(rest, 8, 8 + length);
      var next := Tail(rest, 12 + length);
      if kind == IHDR then
        if |body| < 8 then Failure(ShortField)
        else ReadChunks(next, fields.(width := FromBytes(body[..4]), height := FromBytes(body[4..8])))
      else if kind == IDAT then ReadChunks(next, fields.(idat := fields.idat + body))
      else ReadChunks(next, fields)
  }

  /** What the reader makes of a file. */
  function Decoded(data: seq<byte>): Result<Image, PngError> {
    match ReadChunks(Tail(data, 8), Fields(0, 0, []))
    case Failure(error) => Failure(error)
    case Success(fields) =>
      match ZlibDecompress(fields.idat)
      case None => Failure(BadStream)
      case Some(raw) =>
        match Unfiltered(raw, fields.width * 4, fields.height)
        case Failure(error) => Failure(error)
        case Success(pixels) => Success(Image(fields.width, fields.height, pixels))
  }

  lemma ChunkReads(chunk: seq<byte>, kind: seq<byte>, body: seq<byte>, tail: seq<byte>, fields: Fields)
    requires IsChunk(chunk, kind, body) && |body| < 0x1_0000_0000
    ensures kind == IHDR && |body| >= 8 ==>
      ReadChunks(chunk + tail, fields) ==
        ReadChunks(tail, fields.(width := FromBytes(body[..4]), height := FromBytes(body[4..8])))
    ensures kind == IDAT ==> ReadChunks(chunk + tail, fields) == ReadChunks(tail, fields.(idat := fields.idat + body))
    ensures kind == IHDR && |body| < 8 ==> ReadChunks(chunk + tail, fields) == Failure(ShortField)
    ensures kind != IHDR && kind != IDAT ==> ReadChunks(chunk + tail, fields) == ReadChunks(tail, fields)
  {
    hide ToBytes, FromBytes, Bits, Checksums.PngCrc;
    var rest := chunk + tail;
    assert rest[..4] == chunk[..4] && rest[4..8] == chunk[4..8];
    assert rest[8..8 + |body|] == chunk[8..8 + |body|];
    assert rest[12 + |body|..] == tail;
    Pow2Bytes();
    FromToBytes(|body|, 4);
    assert FromBytes(rest[..4]) == |body|;
  }

  /** A file that ends inside a chunk: without its whole length it cannot be read, and of a data chunk's body what is
      there counts. */
  lemma ChunkCut(chunk: seq<byte>, kind: seq<byte>, body: seq<byte>, k: nat, fields: Fields)
    requires IsChunk(chunk, kind, body) && |body| < 0x1_0000_0000 && 0 < k <= 8 + |body|
    ensures k < 4 ==> ReadChunks(chunk[..k], fields) == Failure(ShortField)
    ensures kind == IDAT && k >= 8 ==> ReadChunks(chunk[..k], fields) == Success(fields.(idat := fields.idat + body[..k - 8]))
  {
    hide ToBytes, FromBytes, Bits, Checksums.PngCrc;
    if k >= 8 {
      var rest := chunk[..k];
      assert rest[..4] == chunk[..4] && rest[4..8] == chunk[4..8];
      assert rest[8..k] == body[..k - 8];
      Pow2Bytes();
      FromToBytes(|body|, 4);
      assert FromBytes(rest[..4]) == |body|;
      assert Slice(rest, 8, 8 + |body|) == body[..k - 8];
    }
  }

  function Header(width: nat, height: nat): seq<byte> {
    ToBytes(width, 4) + ToBytes(height, 4) + [0x08, 0x06, 0x00, 0x00, 0x00]
  }

  function Zlib(deflated: seq<byte>, data: seq<byte>): seq<byte> {
    [0x78, 0x01] + deflated + ToBytes(Checksums.Adler(data), 4)
  }

  /** The bytes of a frame: four for each pixel. */
  function FrameSize(width: nat, height: nat): nat {
    Offset(height, width * 4)
  }

  /** The file is the signature and three chunks: the header, the compressed `filtered`, and the end. */
  ghost predicate IsFile(png: seq<byte>, width: nat, height: nat, filtered: seq<byte>) {
    exists deflated, header, data, end ::
      && png == SIGNATURE + header + data + end
      && Deflater.Compresses(deflated, filtered) && 8 * |deflated| <= 9 * |filtered| + 17
      && IsChunk(header, IHDR, Header(width, height))
      && IsChunk(data, IDAT, Zlib(deflated, filtered))
      && IsChunk(end, IEND, [])
  }

  ghost predicate IsPng(png: seq<byte>, width: nat, height: nat, rgba: seq<byte>)
    requires FrameSize(width, height) <= |rgba|
  {
    IsFile(png, width, height, FilteredRows(rgba, width * 4, height))
  }

  lemma Joined(first: seq<byte>, second: seq<byte>, png: seq<byte>, n: nat)
    requires n <= |first| <= |second| <= |png|
    requires first == second[..|first|] && second == png[..|second|]
    ensures png == first[..n] + first[n..] + second[|first|..] + png[|second|..]
  {
    SplitAt(first, n);
    SplitAt(second, |first|);
    SplitAt(png, |second|);
  }

  lemma SplitAt(s: seq<byte>, n: nat)
    requires n <= |s|
    ensures s == s[..n] + s[n..]
  {
  }

  /** Three chunks appended to the signature make a file. */
  lemma FileOf(first: seq<byte>, second: seq<byte>, png: seq<byte>, width: nat, height: nat, deflated: seq<byte>, filtered: seq<byte>)
    requires 8 <= |first| <= |second| <= |png|
    requires first[..8] == SIGNATURE && first == second[..|first|] && second == png[..|second|]
    requires IsChunk(first[8..], IHDR, Header(width, height))
    requires IsChunk(second[|first|..], IDAT, Zlib(deflated, filtered))
    requires IsChunk(png[|second|..], IEND, [])
    requires Deflater.Compresses(deflated, filtered) && 8 * |deflated| <= 9 * |filtered| + 17
    ensures IsFile(png, width, height, filtered)
  {
    hide IsChunk, Header, Zlib, Deflater.Compresses;
    Joined(first, second, png, 8);
  }

  /** The two fields of the header chunk and what follows them. */
  method HeaderBody(width: nat, height: nat) returns (header: seq<byte>)
    requires width < 0x1_0000_0000 && height < 0x1_0000_0000
    ensures header == Header(width, height)
  {
    hide ToBytes;
    header := AppendBigEndian([], width);
    header := AppendBigEndian(header, height);
    header := header + [0x08, 0x06, 0x00, 0x00, 0x00];
  }

  method EncodePng(width: nat, height: nat, rgba: seq<byte>) returns (png: seq<byte>)
    requires width < 0x1_0000_0000 && height < 0x1_0000_0000
    requires FrameSize(width, height) <= |rgba|
    ensures IsPng(png, width, height, rgba)
    ensures |png| >= 59 && png[..8] == [0x89, 0x50, 0x4E, 0x47, 0x0D, 0x0A, 0x1A, 0x0A]
    ensures png[8..16] == [0, 0, 0, 13, 0x49, 0x48, 0x44, 0x52]
    ensures png[16..20] == [width / 0x100_0000, width / 0x1_0000 % 0x100, width / 0x100 % 0x100, width % 0x100]
    ensures png[20..24] == [height / 0x100_0000, height / 0x1_0000 % 0x100, height / 0x100 % 0x100, height % 0x100]
    ensures png[24..29] == [8, 6, 0, 0, 0]
    ensures png[37..43] == [0x49, 0x44, 0x41, 0x54, 0x78, 0x01]
    ensures png[|png| - 12..|png| - 4] == [0, 0, 0, 0, 0x49, 0x45, 0x4E, 0x44]
    ensures ZlibDecompress(png[41..|png| - 16]) == Some(FilteredRows(rgba, width * 4, height))
  {
    hide ToBytes, IsChunk, IsFile, FilteredRows, Header, Offset, Checksums.Adler, Deflater.Compresses;
    var stride := width * 4;
    var filtered := FilterImage(rgba, stride, height);
    var adler := Checksums.Adler32(filtered);
    var deflated := Deflater.Deflate(filtered);
    var zlib: seq<byte> := [0x78, 0x01];
    zlib := zlib + deflated;
    zlib := AppendBigEndian(zlib, adler);
    png := SIGNATURE;
    var header := HeaderBody(width, height);
    png := AppendChunk(png, IHDR, header);
    ghost var first := png;
    png := AppendChunk(png, IDAT, zlib);
    ghost var second := png;
    png := AppendChunk(png, IEND, []);
    FileOf(first, second, png, width, height, deflated, filtered);
    FileBytes(png, width, height, filtered);
  }

  /** Where everything is in a file, byte by byte (PNG specification, sections 5.2, 5.3 and 11.2.2). */
  lemma FileBytes(png: seq<byte>, width: nat, height: nat, filtered: seq<byte>)
    requires IsFile(png, width, height, filtered)
    requires width < 0x1_0000_0000 && height < 0x1_0000_0000
    ensures |png| >= 59 && png[..8] == [0x89, 0x50, 0x4E, 0x47, 0x0D, 0x0A, 0x1A, 0x0A]
    ensures png[8..16] == [0, 0, 0, 13, 0x49, 0x48, 0x44, 0x52]
    ensures png[16..20] == [width / 0x100_0000, width / 0x1_0000 % 0x100, width / 0x100 % 0x100, width % 0x100]
    ensures png[20..24] == [height / 0x100_0000, height / 0x1_0000 % 0x100, height / 0x100 % 0x100, height % 0x100]
    ensures png[24..29] == [8, 6, 0, 0, 0]
    ensures png[37..43] == [0x49, 0x44, 0x41, 0x54, 0x78, 0x01]
    ensures png[|png| - 12..|png| - 4] == [0, 0, 0, 0, 0x49, 0x45, 0x4E, 0x44]
    ensures ZlibDecompress(png[41..|png| - 16]) == Some(filtered)
  {
    hide ToBytes, IsChunk, Header, Zlib, Checksums.Adler, ZlibDecompress, Deflater.Compresses;
    var deflated, header, data, end :|
      && png == SIGNATURE + header + data + end
      && Deflater.Compresses(deflated, filtered) && 8 * |deflated| <= 9 * |filtered| + 17
      && IsChunk(header, IHDR, Header(width, height))
      && IsChunk(data, IDAT, Zlib(deflated, filtered))
      && IsChunk(end, IEND, []);
    HeaderBytes(header, width, height);
    DataBytes(data, deflated, filtered);
    EndBytes(end);
    Placed(png, SIGNATURE, header, data, end);
  }

  lemma Placed(png: seq<byte>, signature: seq<byte>, header: seq<byte>, data: seq<byte>, end: seq<byte>)
    requires |signature| == 8 && |header| == 25 && |data| >= 14 && |end| == 12 && png == signature + header + data + end
    ensures |png| == 45 + |data| && png[..8] == signature
    ensures png[8..16] == header[..8] && png[16..20] == header[8..12] && png[20..24] == header[12..16] && png[24..29] == header[16..21]
    ensures png[37..43] == data[4..10] && png[41..|png| - 16] == data[8..|data| - 4]
    ensures png[|png| - 12..|png| - 4] == end[..8]
  {
  }

  lemma HeaderBytes(chunk: seq<byte>, width: nat, height: nat)
    requires IsChunk(chunk, IHDR, Header(width, height)) && width < 0x1_0000_0000 && height < 0x1_0000_0000
    ensures |chunk| == 25 && chunk[..8] == [0, 0, 0, 13, 0x49, 0x48, 0x44, 0x52]
    ensures chunk[8..12] == [width / 0x100_0000, width / 0x1_0000 % 0x100, width / 0x100 % 0x100, width % 0x100]
    ensures chunk[12..16] == [height / 0x100_0000, height / 0x1_0000 % 0x100, height / 0x100 % 0x100, height % 0x100]
    ensures chunk[16..21] == [8, 6, 0, 0, 0]
  {
    hide ToBytes, FromBytes, Bits, Checksums.PngCrc;
    FourBytes(13);
    FourBytes(width);
    FourBytes(height);
    Halves(chunk[..8], chunk[..4], chunk[4..8]);
    Thirds(chunk[8..21], ToBytes(width, 4), ToBytes(height, 4), [8, 6, 0, 0, 0]);
    SliceOfSlice(chunk, 8, 21, 0, 4);
    SliceOfSlice(chunk, 8, 21, 4, 8);
    SliceOfSlice(chunk, 8, 21, 8, 13);
  }

  lemma SliceOfSlice(s: seq<byte>, from: nat, to: nat, i: nat, j: nat)
    requires from <= to <= |s| && i <= j <= to - from
    ensures s[from..to][i..j] == s[from + i..from + j]
  {
    var inner, outer := s[from..to][i..j], s[from + i..from + j];
    assert |inner| == |outer| && forall k :: 0 <= k < |inner| ==> inner[k] == outer[k];
  }

  lemma Halves(s: seq<byte>, a: seq<byte>, b: seq<byte>)
    requires |s| == 8 && s[..4] == a && s[4..] == b
    ensures s == a + b
  {
  }

  lemma Thirds(s: seq<byte>, a: seq<byte>, b: seq<byte>, c: seq<byte>)
    requires s == a + b + c && |a| == |b| == 4
    ensures s[..4] == a && s[4..8] == b && s[8..] == c
  {
  }

  lemma DataBytes(chunk: seq<byte>, deflated: seq<byte>, filtered: seq<byte>)
    requires IsChunk(chunk, IDAT, Zlib(deflated, filtered)) && Deflater.Compresses(deflated, filtered)
    ensures |chunk| >= 18 && chunk[4..10] == [0x49, 0x44, 0x41, 0x54, 0x78, 0x01]
    ensures ZlibDecompress(chunk[8..|chunk| - 4]) == Some(filtered)
  {
    hide ToBytes, FromBytes, Bits, Checksums.PngCrc, Checksums.Adler, ZlibDecompress, Deflater.Compresses;
    Checksums.AdlerBound(filtered);
    ZlibRoundTrip(deflated, filtered);
    assert chunk[8..|chunk| - 4] == Zlib(deflated, filtered);
    assert chunk[8..10] == Zlib(deflated, filtered)[..2] == [0x78, 0x01];
    assert chunk[4..10] == chunk[4..8] + chunk[8..10];
  }

  lemma EndBytes(chunk: seq<byte>)
    requires IsChunk(chunk, IEND, [])
    ensures |chunk| == 12 && chunk[..8] == [0, 0, 0, 0, 0x49, 0x45, 0x4E, 0x44]
  {
    hide ToBytes, FromBytes, Bits, Checksums.PngCrc;
    FourBytes(0);
    Halves(chunk[..8], chunk[..4], chunk[4..8]);
  }

  // The round trip -----------------------------------------------------------

  lemma HeaderFields(width: nat, height: nat)
    requires width < 0x1_0000_0000 && height < 0x1_0000_0000
    ensures FromBytes(Header(width, height)[..4]) == width
    ensures FromBytes(Header(width, height)[4..8]) == height
  {
    hide ToBytes, FromBytes;
    Pow2Bytes();
    FromToBytes(width, 4);
    FromToBytes(height, 4);
    assert Header(width, height)[..4] == ToBytes(width, 4);
    assert Header(width, height)[4..8] == ToBytes(height, 4);
  }

  lemma FileReads(header: seq<byte>, data: seq<byte>, end: seq<byte>, width: nat, height: nat, zlib: seq<byte>)
    requires width < 0x1_0000_0000 && height < 0x1_0000_0000 && |zlib| < 0x1_0000_0000
    requires IsChunk(header, IHDR, Header(width, height)) && IsChunk(data, IDAT, zlib) && IsChunk(end, IEND, [])
    ensures ReadChunks(header + data + end, Fields(0, 0, [])) == Success(Fields(width, height, zlib))
  {
    hide IsChunk, ReadChunks, ToBytes, FromBytes;
    HeaderFields(width, height);
    assert header + data + end == header + (data + (end + []));
    ChunkReads(header, IHDR, Header(width, height), data + (end + []), Fields(0, 0, []));
    ChunkReads(data, IDAT, zlib, end + [], Fields(width, height, []));
    ChunkReads(end, IEND, [], [], Fields(width, height, [] + zlib));
    assert [] + zlib == zlib;
    NothingReads(Fields(width, height, zlib));
  }

  lemma NothingReads(fields: Fields)
    ensures ReadChunks([], fields) == Success(fields)
  {
  }

  lemma ChunkSize(chunk: seq<byte>, kind: seq<byte>, body: seq<byte>)
    requires IsChunk(chunk, kind, body)
    ensures |chunk| == 12 + |body|
  {
  }

  lemma FileSize(png: seq<byte>, header: seq<byte>, data: seq<byte>, end: seq<byte>, zlib: seq<byte>, width: nat, height: nat)
    requires png == SIGNATURE + header + data + end
    requires IsChunk(header, IHDR, Header(width, height)) && IsChunk(data, IDAT, zlib) && IsChunk(end, IEND, [])
    ensures |png| == 57 + |zlib|
    ensures |png| >= 8 && png[8..] == header + data + end
  {
    hide IsChunk, ToBytes;
    ChunkSize(header, IHDR, Header(width, height));
    ChunkSize(data, IDAT, zlib);
    ChunkSize(end, IEND, []);
    var rest := header + data + end;
    assert png == SIGNATURE + rest;
  }

  /** A file whose data chunk's length fits its field gives its fields and filtered rows back. */
  lemma FileRoundTrip(png: seq<byte>, width: nat, height: nat, filtered: seq<byte>) returns (zlib: seq<byte>)
    requires width < 0x1_0000_0000 && height < 0x1_0000_0000
    requires IsFile(png, width, height, filtered) && |png| < 57 + 0x1_0000_0000
    ensures ReadChunks(Tail(png, 8), Fields(0, 0, [])) == Success(Fields(width, height, zlib))
    ensures ZlibDecompress(zlib) == Some(filtered)
  {
    hide IsChunk, ToBytes, FromBytes, ReadChunks, Checksums.Adler, ZlibDecompress, Deflater.Compresses;
    var deflated, header, data, end :|
      && png == SIGNATURE + header + data + end
      && Deflater.Compresses(deflated, filtered) && 8 * |deflated| <= 9 * |filtered| + 17
      && IsChunk(header, IHDR, Header(width, height))
      && IsChunk(data, IDAT, Zlib(deflated, filtered))
      && IsChunk(end, IEND, []);
    zlib := Zlib(deflated, filtered);
    FileSize(png, header, data, end, zlib, width, height);
    FileReads(header, data, end, width, height, zlib);
    Checksums.AdlerBound(filtered);
    ZlibRoundTrip(deflated, filtered);
  }

  /** The reader gives back the frame that the writer was given. */
  lemma RoundTrip(png: seq<byte>, width: nat, height: nat, rgba: seq<byte>)
    requires width < 0x1_0000_0000 && height < 0x1_0000_0000 && FrameSize(width, height) <= |rgba|
    requires IsPng(png, width, height, rgba) && |png| < 57 + 0x1_0000_0000
    ensures Decoded(png) == Success(Image(width, height, rgba[..FrameSize(width, height)]))
  {
    hide IsFile, ReadChunks, FilteredRows, Unfiltered, ZlibDecompress;
    var zlib := FileRoundTrip(png, width, height, FilteredRows(rgba, width * 4, height));
    FilterRoundTrip(rgba, width * 4, height, height);
  }

  /** A size that the caller can tell beforehand keeps every length in its field. */
  lemma SmallEnough(png: seq<byte>, width: nat, height: nat, rgba: seq<byte>)
    requires FrameSize(width, height) <= |rgba| && IsPng(png, width, height, rgba)
    requires 9 * (height * (width * 4 + 1)) + 65 < 8 * 0x1_0000_0000
    ensures |png| < 57 + 0x1_0000_0000
  {
    hide IsChunk, ToBytes, FilteredRows, Checksums.Adler, Deflater.Compresses;
    var filtered := FilteredRows(rgba, width * 4, height);
    var deflated, header, data, end :|
      && png == SIGNATURE + header + data + end
      && Deflater.Compresses(deflated, filtered) && 8 * |deflated| <= 9 * |filtered| + 17
      && IsChunk(header, IHDR, Header(width, height))
      && IsChunk(data, IDAT, Zlib(deflated, filtered))
      && IsChunk(end, IEND, []);
    FileSize(png, header, data, end, Zlib(deflated, filtered), width, height);
  }

  // The reader's loops -------------------------------------------------------

  lemma ReadChunksNext(rest: seq<byte>, fields: Fields)
    ensures |rest| > 0 ==>
      ReadChunks(rest, fields) ==
        if |rest| < 4 then Failure(ShortField)
        else
          var length := FromBytes(rest[..4]);
          var kind, body := Slice(rest, 4, 8), Slice(rest, 8, 8 + length);
          var next := Tail(rest, 12 + length);
          if kind == IHDR then
            if |body| < 8 then Failure(ShortField)
            else ReadChunks(next, fields.(width := FromBytes(body[..4]), height := FromBytes(body[4..8])))
          else if kind == IDAT then ReadChunks(next, fields.(idat := fields.idat + body))
          else ReadChunks(next, fields)
  {
  }

  lemma ShortSlice(data: seq<byte>, at: nat)
    requires at < |data|
    ensures |Slice(data, at, at + 4)| == if |data| - at < 4 then |data| - at else 4
  {
  }

  lemma NoTail(data: seq<byte>, at: nat)
    ensures at >= |data| ==> Tail(data, at) == []
  {
  }

  method ReadFields(data: seq<byte>) returns (r: Result<Fields, PngError>)
    ensures r == ReadChunks(Tail(data, 8), Fields(0, 0, []))
  {
    hide FromBytes, ReadChunks, Slice, Tail;
    var at, fields := 8, Fields(0, 0, []);
    while at < |data|
      invariant at >= 8
      invariant ReadChunks(Tail(data, 8), Fields(0, 0, [])) ==
        ReadChunks(Tail(data, at), fields)
      decreases |data| - at
    {
      var field := Slice(data, at, at + 4);
      ShortSlice(data, at);
      ReadChunksNext(Tail(data, at), fields);
      if |field| != 4 {
        return Failure(ShortField);
      }
      var length := FromBytes(field);
      var kind, body := Slice(data, at + 4, at + 8), Slice(data, at + 8, at + 8 + length);
      ChunkAt(data, at, length);
      if kind == IHDR {
        if |body| < 8 {
          return Failure(ShortField);
        }
        fields := fields.(width := FromBytes(body[..4]), height := FromBytes(body[4..8]));
      } else if kind == IDAT {
        fields := fields.(idat := fields.idat + body);
      }
      at := at + 12 + length;
    }
    NoTail(data, at);
    NothingReads(fields);
    r := Success(fields);
  }

  lemma ChunkAt(data: seq<byte>, at: nat, length: nat)
    requires at + 4 <= |data|
    ensures var rest := Tail(data, at);
      && |rest| >= 4 && rest[..4] == Slice(data, at, at + 4)
      && Slice(rest, 4, 8) == Slice(data, at + 4, at + 8)
      && Slice(rest, 8, 8 + length) == Slice(data, at + 8, at + 8 + length)
      && Tail(rest, 12 + length) == Tail(data, at + 12 + length)
  {
  }

  /** The sum of a row's bytes and the row above, by way of numbers. */
  lemma LineIs(body: seq<byte>, previous: seq<byte>, stride: nat)
    requires |body| <= stride && |previous| == stride
    ensures var low, high := FromBytes(Repeated<byte>(0x7F, stride)), FromBytes(Repeated<byte>(0x80, stride));
      && MaskedAdd(FromBytes(body), FromBytes(previous), low, high) < Pow2(8 * stride)
      && ToBytes(MaskedAdd(FromBytes(body), FromBytes(previous), low, high), stride) == AddBytes(Padded(body, stride), previous)
  {
    hide MaskedAdd, FromBytes, ToBytes, Pow2;
    Padding(stride - |body|, body);
    MaskedAddIsBytewise(Padded(body, stride), previous);
    ToFromBytes(AddBytes(Padded(body, stride), previous));
  }

  /** One row, given the row above and the two masks. */
  method AddRow(raw: seq<byte>, start: nat, stride: nat, previous: seq<byte>, low: nat, high: nat)
    returns (line: Result<seq<byte>, PngError>)
    requires |previous| == stride
    requires low == FromBytes(Repeated<byte>(0x7F, stride)) && high == FromBytes(Repeated<byte>(0x80, stride))
    ensures line.Success? ==> |line.value| == stride
    ensures forall done :: LastRow(done, stride) == previous ==>
      UnfilteredRow(done, raw, start, stride) == if line.Failure? then line else Success(done + line.value)
  {
    hide MaskedAdd, FromBytes, ToBytes, AddBytes, Pow2, LastRow;
    if start >= |raw| {
      return Failure(NoRow);
    }
    if raw[start] != 2 {
      return Failure(BadFilter(raw[start]));
    }
    var body := Slice(raw, start + 1, start + 1 + stride);
    var a, b := FromBytes(body), FromBytes(previous);
    LineIs(body, previous, stride);
    line := Success(ToBytes(MaskedAdd(a, b, low, high), stride));
  }

  lemma LastOfDone(done: seq<byte>, line: seq<byte>, stride: nat)
    requires |line| == stride
    ensures LastRow(done + line, stride) == line
    ensures LastRow([], stride) == Repeated<byte>(0, stride)
  {
  }

  method UnfilterRows(raw: seq<byte>, stride: nat, height: nat) returns (r: Result<seq<byte>, PngError>)
    ensures r == Unfiltered(raw, stride, height)
  {
    hide FromBytes, LastRow, Repeated, Unfiltered, UnfilteredRow, Offset;
    var pixels := new byte[Offset(height, stride)](_ => 0);
    var previous := Repeated<byte>(0, stride);
    var low, high := FromBytes(Repeated<byte>(0x7F, stride)), FromBytes(Repeated<byte>(0x80, stride));
    ghost var done: seq<byte> := [];
    UnfilteredNext(raw, stride, 0);
    NextOffset(0, stride);
    OffsetInside(0, height, stride);
    LastOfDone([], Repeated<byte>(0, stride), stride);
    for row := 0 to height
      invariant |done| == Offset(row, stride) <= pixels.Length && pixels[..|done|] == done
      invariant Unfiltered(raw, stride, row) == Success(done)
      invariant |previous| == stride && previous == LastRow(done, stride)
    {
      NextOffset(row, stride);
      OffsetInside(row, height, stride);
      UnfilteredNext(raw, stride, row);
      var line := AddRow(raw, Offset(row, stride + 1), stride, previous, low, high);
      if line.Failure? {
        FaultStays(raw, stride, row + 1, height);
        return Failure(line.error);
      }
      CopyLine(pixels, Offset(row, stride), line.value);
      LastOfDone(done, line.value, stride);
      done := done + line.value;
      previous := line.value;
    }
    assert pixels[..] == done;
    r := Success(pixels[..]);
  }

  method CopyLine(pixels: array<byte>, start: nat, line: seq<byte>)
    requires start + |line| <= pixels.Length
    modifies pixels
    ensures pixels[..start + |line|] == old(pixels[..start]) + line
    ensures pixels[start + |line|..] == old(pixels[start + |line|..])
  {
    forall i | 0 <= i < |line| {
      pixels[start + i] := line[i];
    }
  }

  lemma {:induction false} FaultStays(raw: seq<byte>, stride: nat, rows: nat, height: nat)
    requires rows <= height && Unfiltered(raw, stride, rows).Failure?
    ensures Unfiltered(raw, stride, height) == Unfiltered(raw, stride, rows)
  {
    if rows < height {
      FaultStays(raw, stride, rows, height - 1);
    }
  }

  method DecodePng(data: seq<byte>) returns (r: Result<Image, PngError>)
    ensures r == Decoded(data)
    ensures ReadChunks(Tail(data, 8), Fields(0, 0, [])).Failure? ==> r.Failure?
    ensures ReadChunks(Tail(data, 8), Fields(0, 0, [])).Success? ==>
      var fields := ReadChunks(Tail(data, 8), Fields(0, 0, [])).value;
      match ZlibDecompress(fields.idat)
      case None => r == Failure(BadStream)
      case Some(raw) => r.Success? <==> AllStart(raw, fields.width * 4, fields.height)
  {
    var fields := ReadFields(data);
    if fields.Failure? {
      return Failure(fields.error);
    }
    var raw := ZlibDecompress(fields.value.idat);
    if raw.None? {
      return Failure(BadStream);
    }
    hide Unfiltered, AllStart;
    var pixels := UnfilterRows(raw.value, fields.value.width * 4, fields.value.height);
    RowsRead(raw.value, fields.value.width * 4, fields.value.height);
    if pixels.Failure? {
      return Failure(pixels.error);
    }
    r := Success(Image(fields.value.width, fields.value.height, pixels.value));
  }

  // Keeping an image ---------------------------------------------------------

  const SIZE_T := 0x1_0000_0000_0000_0000

  /** What became of a frame. With `RowsMissing` the encoder is given fewer bytes than its rows need. */
  datatype Kept = Kept(images: map<string, seq<byte>>) | ReadbackEmpty | RowsMissing

  /**
   * Encodes a frame under its name; an empty readback is refused. The size is a 64-bit product, so it can
   * come out below what the rows need, but for a frame of 2^64 bytes or more only.
   */
  method KeepImage(images: map<string, seq<byte>>, name: string, image: Image) returns (r: Kept)
    requires image.width < 0x1_0000_0000 && image.height < 0x1_0000_0000
    ensures r.ReadbackEmpty? <==>
      image.width == 0 || |image.pixels| < image.width * image.height * 4 % 0x1_0000_0000_0000_0000
    ensures r.RowsMissing? ==> |image.pixels| < FrameSize(image.width, image.height) && SIZE_T <= FrameSize(image.width, image.height)
    ensures r.Kept? ==> FrameSize(image.width, image.height) <= |image.pixels|
    ensures r.Kept? ==>
      exists png :: IsPng(png, image.width, image.height, image.pixels) && r.images == images[name := png]
  {
    hide IsPng, Offset;
    var size := WrappedSize(image.width, image.height);
    if image.width == 0 || |image.pixels| < size {
      return ReadbackEmpty;
    }
    if |image.pixels| < FrameSize(image.width, image.height) {
      return RowsMissing;
    }
    var png := EncodePng(image.width, image.height, image.pixels);
    r := Kept(images[name := png]);
  }

  /** Each product wraps on its own, which comes to the same as wrapping once at the end. */
  method WrappedSize(width: nat, height: nat) returns (size: nat)
    ensures size == FrameSize(width, height) % SIZE_T == width * height * 4 % SIZE_T
    ensures FrameSize(width, height) < SIZE_T ==> size == FrameSize(width, height)
  {
    var pixels := Offset(width, height) % SIZE_T;
    size := pixels * 4 % SIZE_T;
    Products(width, height);
    WrapOnce(Offset(width, height));
  }

  lemma Products(width: nat, height: nat)
    ensures FrameSize(width, height) == Offset(width, height) * 4
  {
  }

  lemma WrapOnce(pixels: nat)
    ensures (pixels % SIZE_T) * 4 % SIZE_T == pixels * 4 % SIZE_T
  {
    var turns := pixels / SIZE_T;
    assert pixels * 4 == (pixels % SIZE_T) * 4 + SIZE_T * (4 * turns);
    Turns((pixels % SIZE_T) * 4, 4 * turns);
  }

  lemma {:induction false} Turns(x: nat, turns: nat)
    ensures (x + SIZE_T * turns) % SIZE_T == x % SIZE_T
  {
    if turns > 0 {
      Turns(x, turns - 1);
    }
  }
}
