/** The frames a run prints as base64 text, and the reader that collects them. */
module Frames {
  import opened Collections
  import opened Wrappers
  import opened Bitwise

  const UPPER: string := "ABCDEFGHIJKLMNOPQRSTUVWXYZ"
  const LOWER: string := "abcdefghijklmnopqrstuvwxyz"
  const ALPHABET: string := UPPER + LOWER + "0123456789+/"
  const IMAGE_BEGIN: string := "MLN_FFI_BENCH_IMAGE_BEGIN "
  const IMAGE_END: string := "MLN_FFI_BENCH_IMAGE_END"

  // Base64 -------------------------------------------------------------------

  predicate IsDigit(c: char) {
    'A' <= c <= 'Z' || 'a' <= c <= 'z' || '0' <= c <= '9' || c == '+' || c == '/'
  }

  function DigitOf(v: nat): (c: char)
    requires v < 64
    ensures IsDigit(c)
  {
    if v < 26 then 'A' + v as char
    else if v < 52 then 'a' + (v - 26) as char
    else if v < 62 then '0' + (v - 52) as char
    else if v == 62 then '+' else '/'
  }

  function ValueOf(c: char): (v: nat)
    requires IsDigit(c)
    ensures v < 64
  {
    if 'A' <= c <= 'Z' then c as nat - 'A' as nat
    else if 'a' <= c <= 'z' then c as nat - 'a' as nat + 26
    else if '0' <= c <= '9' then c as nat - '0' as nat + 52
    else if c == '+' then 62 else 63
  }

  lemma UpperAt(v: nat)
    requires v < 26
    ensures |UPPER| == 26 && UPPER[v] == DigitOf(v)
  {
  }

  lemma LowerAt(v: nat)
    requires v < 26
    ensures |LOWER| == 26 && LOWER[v] == DigitOf(v + 26)
  {
  }

  lemma RestAt(v: nat)
    requires v < 12
    ensures "0123456789+/"[v] == DigitOf(v + 52)
  {
  }

  /** The writer's table. */
  lemma AlphabetAt(v: nat)
    requires v < 64
    ensures |ALPHABET| == 64 && ALPHABET[v] == DigitOf(v)
  {
    UpperAt(0);
    LowerAt(0);
    if v < 26 {
      UpperAt(v);
    } else if v < 52 {
      LowerAt(v - 26);
    } else {
      RestAt(v - 52);
    }
  }

  type sextet = v: nat | v < 64

  /** Three bytes as four six-bit numbers, and a last group that is short as two or three. */
  function Sextets(bytes: seq<byte>): (s: seq<sextet>)
  {
    if bytes == [] then []
    else if |bytes| == 1 then [bytes[0] / 4, bytes[0] % 4 * 16]
    else if |bytes| == 2 then [bytes[0] / 4, bytes[0] % 4 * 16 + bytes[1] / 16, bytes[1] % 16 * 4]
    else Group(bytes[0], bytes[1], bytes[2]) + Sextets(bytes[3..])
  }

  function Group(a: byte, b: byte, c: byte): (s: seq<sextet>)
    ensures |s| == 4
  {
    [a / 4, a % 4 * 16 + b / 16, b % 16 * 4 + c / 64, c % 64]
  }

  function First(p: sextet, q: sextet): byte {
    p * 4 + q / 16
  }

  function Second(q: sextet, r: sextet): byte {
    q % 16 * 16 + r / 4
  }

  function Third(r: sextet, s: sextet): byte {
    r % 4 * 64 + s
  }

  /** The bytes of six-bit numbers: what a short last group leaves over is dropped. */
  function SextetBytes(s: seq<sextet>): seq<byte> {
    if |s| < 2 then []
    else if |s| == 2 then [First(s[0], s[1])]
    else if |s| == 3 then [First(s[0], s[1]), Second(s[1], s[2])]
    else [First(s[0], s[1]), Second(s[1], s[2]), Third(s[2], s[3])] + SextetBytes(s[4..])
  }

  function Chars(s: seq<sextet>): (r: string)
    ensures |r| == |s| && forall i :: 0 <= i < |s| ==> r[i] == DigitOf(s[i]) && IsDigit(r[i])
  {
    seq(|s|, i requires 0 <= i < |s| => DigitOf(s[i]))
  }

  function Values(s: string): (r: seq<sextet>)
    requires forall i :: 0 <= i < |s| ==> IsDigit(s[i])
    ensures |r| == |s| && forall i :: 0 <= i < |s| ==> r[i] == ValueOf(s[i])
  {
    seq(|s|, i requires 0 <= i < |s| && IsDigit(s[i]) => ValueOf(s[i]))
  }

  function Pads(bytes: seq<byte>): (s: string)
    ensures |s| <= 2 && forall i :: 0 <= i < |s| ==> s[i] == '='
  {
    if |bytes| % 3 == 1 then "==" else if |bytes| % 3 == 2 then "=" else ""
  }

  /** The encoding of section 4 of RFC 4648. */
  function Base64(bytes: seq<byte>): string {
    Chars(Sextets(bytes)) + Pads(bytes)
  }

  /** The digits before the first other character. */
  function DigitCount(s: string): (n: nat)
    ensures n <= |s| && (forall i :: 0 <= i < n ==> IsDigit(s[i])) && (n < |s| ==> !IsDigit(s[n]))
  {
    if s == [] || !IsDigit(s[0]) then 0 else 1 + DigitCount(s[1..])
  }

  /** Digits and then at most two pads. */
  predicate Padded(s: string) {
    |s| - DigitCount(s) <= 2 && forall i :: DigitCount(s) <= i < |s| ==> s[i] == '='
  }

  /** A last group of two digits takes two pads, of three digits one, and a whole one none; one digit is never enough. */
  function Base64Decode(s: string): Option<seq<byte>> {
    if !Padded(s) then None
    else
      var n := DigitCount(s);
      if n % 4 == 1 || |s| - n != (4 - n % 4) % 4 then None else Some(SextetBytes(Values(s[..n])))
  }

  lemma {:induction false} DigitCountOf(digits: string, rest: string)
    requires forall i :: 0 <= i < |digits| ==> IsDigit(digits[i])
    requires rest == [] || !IsDigit(rest[0])
    ensures DigitCount(digits + rest) == |digits|
  {
    if digits == [] {
      assert digits + rest == rest;
    } else {
      assert (digits + rest)[1..] == digits[1..] + rest;
      DigitCountOf(digits[1..], rest);
    }
  }

  lemma GroupBack(a: byte, b: byte, c: byte)
    ensures var g := Group(a, b, c); First(g[0], g[1]) == a && Second(g[1], g[2]) == b && Third(g[2], g[3]) == c
  {
  }

  lemma FourMore(g: seq<sextet>, rest: seq<sextet>)
    requires |g| == 4
    ensures SextetBytes(g + rest) == [First(g[0], g[1]), Second(g[1], g[2]), Third(g[2], g[3])] + SextetBytes(rest)
  {
  }

  lemma {:induction false} SextetsBack(bytes: seq<byte>)
    ensures SextetBytes(Sextets(bytes)) == bytes
  {
    if |bytes| > 2 {
      hide Sextets, Group, First, Second, Third, SextetBytes;
      SextetsMore(bytes);
      SextetsBack(bytes[3..]);
      GroupBack(bytes[0], bytes[1], bytes[2]);
      FourMore(Group(bytes[0], bytes[1], bytes[2]), Sextets(bytes[3..]));
      assert bytes == [bytes[0], bytes[1], bytes[2]] + bytes[3..];
    }
  }

  lemma {:induction false} SextetsLength(bytes: seq<byte>)
    ensures |Sextets(bytes)| + |Pads(bytes)| == (|bytes| + 2) / 3 * 4
  {
    hide Sextets, Pads;
    if |bytes| > 2 {
      SextetsLength(bytes[3..]);
      GroupLength(bytes);
    } else {
      ShortLength(bytes);
    }
  }

  lemma GroupLength(bytes: seq<byte>)
    requires |bytes| > 2
    ensures |Sextets(bytes)| == 4 + |Sextets(bytes[3..])| && Pads(bytes) == Pads(bytes[3..])
  {
    SamePads(bytes, bytes[3..]);
    hide Pads, Group;
    SextetsMore(bytes);
  }

  lemma SextetsMore(bytes: seq<byte>)
    requires |bytes| > 2
    ensures Sextets(bytes) == Group(bytes[0], bytes[1], bytes[2]) + Sextets(bytes[3..])
  {
  }

  lemma SamePads(a: seq<byte>, b: seq<byte>)
    requires |a| == |b| + 3
    ensures Pads(a) == Pads(b)
  {
  }

  lemma ShortLength(bytes: seq<byte>)
    requires |bytes| <= 2
    ensures |Sextets(bytes)| + |Pads(bytes)| == if bytes == [] then 0 else 4
  {
  }

  lemma ValuesBack(s: seq<sextet>)
    ensures Values(Chars(s)) == s
  {
  }

  /** What the writer encodes, the reader's decoder gives back. */
  lemma Base64RoundTrip(bytes: seq<byte>)
    ensures Base64Decode(Base64(bytes)) == Some(bytes)
  {
    hide Sextets, SextetBytes, Chars, Values;
    var digits, pads := Chars(Sextets(bytes)), Pads(bytes);
    SextetsLength(bytes);
    SextetsBack(bytes);
    ValuesBack(Sextets(bytes));
    DigitCountOf(digits, pads);
    assert (digits + pads)[..|digits|] == digits;
    assert forall i :: |digits| <= i < |digits + pads| ==> (digits + pads)[i] == pads[i - |digits|];
  }

  // Text ---------------------------------------------------------------------

  /** Where Python's splitlines ends a line. */
  predicate IsBreak(c: char) {
    '\n' <= c <= '\r' || '\U{1C}' <= c <= '\U{1E}' || c == '\U{85}' || '\U{2028}' <= c <= '\U{2029}'
  }

  /** What Python's strip takes off. */
  predicate IsSpace(c: char) {
    || IsBreak(c) || c == '\t' || c == '\U{1F}' || c == ' ' || c == '\U{A0}' || c == '\U{1680}'
    || '\U{2000}' <= c <= '\U{200A}' || c == '\U{202F}' || c == '\U{205F}' || c == '\U{3000}'
  }

  predicate OneLine(s: string) {
    forall i :: 0 <= i < |s| ==> !IsBreak(s[i])
  }

  function LineLength(text: string): (n: nat)
    ensures n <= |text| && OneLine(text[..n]) && (n < |text| ==> IsBreak(text[n]))
  {
    if text == [] || IsBreak(text[0]) then 0
    else
      var n := LineLength(text[1..]);
      assert text[..n + 1] == [text[0]] + text[1..][..n];
      1 + n
  }

  /** The lines of a text; a carriage return and a line feed end one line together. */
  function SplitLines(text: string): seq<string>
    decreases |text|
  {
    if text == [] then []
    else
      var n := LineLength(text);
      if n == |text| then [text]
      else
        var next := if text[n] == '\r' && n + 1 < |text| && text[n + 1] == '\n' then n + 2 else n + 1;
        [text[..n]] + SplitLines(text[next..])
  }

  /** The ten characters that end a line, by code point. */
  lemma BreaksAre(c: char)
    ensures IsBreak(c) <==> c as int in {0x0A, 0x0B, 0x0C, 0x0D, 0x1C, 0x1D, 0x1E, 0x85, 0x2028, 0x2029}
  {
  }

  /** White space is those, and these. */
  lemma SpacesAre(c: char)
    ensures IsSpace(c) && !IsBreak(c) <==>
      c as int in {0x09, 0x1F, 0x20, 0xA0, 0x1680, 0x202F, 0x205F, 0x3000} || 0x2000 <= c as int <= 0x200A
  {
  }

  /** A line ends at the first break, which a carriage return and the line feed behind it are together. */
  lemma SplitAt(line: string, c: char, rest: string)
    requires OneLine(line) && IsBreak(c)
    ensures SplitLines(line + [c] + rest) ==
      [line] + SplitLines(if c == '\r' && rest != [] && rest[0] == '\n' then rest[1..] else rest)
    ensures SplitLines(line) == if line == [] then [] else [line]
  {
    hide IsBreak, OneLine;
    var text := line + [c] + rest;
    WholeLine(line, c, rest);
    assert text[..|line|] == line && text[|line| + 1..] == rest;
    if rest != [] {
      assert text[|line| + 2..] == rest[1..];
    }
  }

  lemma {:induction false} WholeLine(line: string, c: char, rest: string)
    requires OneLine(line) && IsBreak(c)
    ensures LineLength(line + [c] + rest) == |line| && LineLength(line) == |line|
  {
    hide IsBreak;
    if line != [] {
      assert (line + [c] + rest)[1..] == line[1..] + [c] + rest;
      WholeLine(line[1..], c, rest);
    }
  }

  function Unlines(lines: seq<string>): string {
    if lines == [] then "" else lines[0] + "\n" + Unlines(lines[1..])
  }

  lemma {:induction false} LineLengthOf(line: string, rest: string)
    requires OneLine(line)
    ensures LineLength(line + "\n" + rest) == |line|
  {
    if line == [] {
      assert (line + "\n" + rest)[0] == '\n';
    } else {
      assert (line + "\n" + rest)[1..] == line[1..] + "\n" + rest;
      LineLengthOf(line[1..], rest);
    }
  }

  lemma {:induction false} SplitUnlines(lines: seq<string>)
    requires forall i :: 0 <= i < |lines| ==> OneLine(lines[i])
    ensures SplitLines(Unlines(lines)) == lines
  {
    if lines != [] {
      var line, rest := lines[0], Unlines(lines[1..]);
      SplitUnlines(lines[1..]);
      LineLengthOf(line, rest);
      var text := line + "\n" + rest;
      assert text[..|line|] == line && text[|line|] == '\n' && text[|line| + 1..] == rest;
    }
  }

  lemma {:induction false} UnlinesConcat(a: seq<string>, b: seq<string>)
    ensures Unlines(a + b) == Unlines(a) + Unlines(b)
  {
    if a == [] {
      assert a + b == b;
    } else {
      assert (a + b)[1..] == a[1..] + b;
      UnlinesConcat(a[1..], b);
    }
  }

  function TrimRight(s: string): (r: string)
    ensures r <= s
  {
    if s != [] && IsSpace(s[|s| - 1]) then TrimRight(s[..|s| - 1]) else s
  }

  function Strip(s: string): string {
    if s != [] && IsSpace(s[0]) then Strip(s[1..]) else TrimRight(s)
  }

  lemma StripKeeps(s: string)
    requires s == [] || (!IsSpace(s[0]) && !IsSpace(s[|s| - 1]))
    ensures Strip(s) == s
  {
  }

  ghost predicate AllSpaces(s: string) {
    forall i :: 0 <= i < |s| ==> IsSpace(s[i])
  }

  /** Stripping takes all white space off both ends, and nothing else. */
  lemma {:induction false} StripIs(before: string, s: string, behind: string)
    requires AllSpaces(before) && AllSpaces(behind)
    requires s == [] || (!IsSpace(s[0]) && !IsSpace(s[|s| - 1]))
    ensures Strip(before + s + behind) == s
    decreases |before| + |behind|
  {
    hide IsSpace;
    var text := before + s + behind;
    if before != [] {
      assert text[1..] == before[1..] + s + behind;
      StripIs(before[1..], s, behind);
    } else if s == [] && behind != [] {
      assert text[1..] == [] + s + behind[1..];
      StripIs([], s, behind[1..]);
    } else {
      assert text == s + behind;
      TrimIs(s, behind);
    }
  }

  lemma {:induction false} TrimIs(s: string, behind: string)
    requires AllSpaces(behind) && (s == [] || !IsSpace(s[|s| - 1]))
    ensures TrimRight(s + behind) == s
  {
    hide IsSpace;
    if behind == [] {
      assert s + behind == s;
    } else {
      assert (s + behind)[..|s + behind| - 1] == s + behind[..|behind| - 1];
      TrimIs(s, behind[..|behind| - 1]);
    }
  }

  // Lines of base64 ----------------------------------------------------------

  const LINE_WIDTH: nat := 76

  /** A text cut at every LINE_WIDTH characters. */
  function Wrapped(s: string): seq<string> {
    if s == [] then [] else if |s| < LINE_WIDTH then [s] else [s[..LINE_WIDTH]] + Wrapped(s[LINE_WIDTH..])
  }

  /** The reader's pattern: at least one digit, and at most two pads. */
  predicate Base64Line(s: string) {
    DigitCount(s) >= 1 && Padded(s)
  }

  lemma {:induction false} DigitCountIs(s: string, n: nat)
    requires n <= |s| && (forall i :: 0 <= i < n ==> IsDigit(s[i])) && (n < |s| ==> !IsDigit(s[n]))
    ensures DigitCount(s) == n
  {
  }

  /** Whole groups, with pads in the last one only. */
  predicate Grouped(s: string) {
    |s| % 4 == 0 && Padded(s)
  }

  lemma Base64Grouped(bytes: seq<byte>)
    ensures Grouped(Base64(bytes))
  {
    hide Sextets;
    var digits, pads := Chars(Sextets(bytes)), Pads(bytes);
    SextetsLength(bytes);
    DigitCountOf(digits, pads);
    assert forall i :: |digits| <= i < |digits + pads| ==> (digits + pads)[i] == pads[i - |digits|];
  }

  lemma CutGrouped(s: string)
    requires Grouped(s) && |s| >= LINE_WIDTH
    ensures Base64Line(s[..LINE_WIDTH]) && Grouped(s[LINE_WIDTH..])
  {
  }

  lemma DigitsAreInk(c: char)
    requires IsDigit(c) || c == '='
    ensures !IsSpace(c) && !IsBreak(c)
  {
  }

  lemma EndIsNot64()
    ensures !Base64Line(IMAGE_END)
  {
    DigitCountIs(IMAGE_END, 3);
  }

  lemma LineKept(s: string)
    requires Base64Line(s)
    ensures Strip(s) == s && s != IMAGE_END && OneLine(s)
  {
    hide IsSpace, IsBreak, IsDigit, Strip;
    forall i | 0 <= i < |s| ensures !IsSpace(s[i]) && !IsBreak(s[i]) {
      assert i < DigitCount(s) || s[i] == '=';
      DigitsAreInk(s[i]);
    }
    StripKeeps(s);
    EndIsNot64();
  }

  lemma {:induction false} WrappedLines(s: string)
    requires Grouped(s)
    ensures forall i :: 0 <= i < |Wrapped(s)| ==> Base64Line(Wrapped(s)[i])
  {
    hide Base64Line, Padded;
    if s == [] {
    } else if |s| < LINE_WIDTH {
      ShortLine(s);
    } else {
      CutGrouped(s);
      WrappedLines(s[LINE_WIDTH..]);
    }
  }

  lemma ShortLine(s: string)
    requires Grouped(s) && s != []
    ensures Base64Line(s)
  {
  }

  /** Every line but the last has 76 characters, and the last has one to 76. */
  lemma {:induction false} FullLines(s: string, i: nat)
    requires i < |Wrapped(s)|
    ensures 1 <= |Wrapped(s)[i]| <= 76 && (i + 1 < |Wrapped(s)| ==> |Wrapped(s)[i]| == 76)
  {
    if i > 0 {
      FullLines(s[LINE_WIDTH..], i - 1);
    }
  }

  /** `n` digits and then pads. */
  predicate DigitsAndPads(s: string, n: nat) {
    n <= |s| && (forall i :: 0 <= i < n ==> IsDigit(s[i])) && forall i :: n <= i < |s| ==> s[i] == '='
  }

  /** The pattern spelled out: some digits, at least one, and then up to two pads. */
  lemma Base64LineIs(s: string)
    ensures Base64Line(s) <==> exists n: nat :: DigitsAndPads(s, n) && 1 <= n && |s| <= n + 2
  {
    if Base64Line(s) {
      assert DigitsAndPads(s, DigitCount(s));
    }
    if n: nat :| DigitsAndPads(s, n) && 1 <= n && |s| <= n + 2 {
      PadIsNoDigit();
      hide IsDigit;
      DigitCountIs(s, n);
    }
  }

  // What decodes -------------------------------------------------------------

  function PadString(n: nat): (s: string)
    ensures |s| == n && forall i :: 0 <= i < n ==> s[i] == '='
  {
    seq(n, _ => '=')
  }

  /** Digits and pads decode exactly if at most two pads make up whole groups of four. */
  lemma DecodesWhen(digits: string, pads: nat)
    requires forall i :: 0 <= i < |digits| ==> IsDigit(digits[i])
    ensures Base64Decode(digits + PadString(pads)).Some? <==>
      pads <= 2 && (|digits| + pads) % 4 == 0
  {
    hide IsDigit;
    PadIsNoDigit();
    DigitCountOf(digits, PadString(pads));
  }

  lemma PadIsNoDigit()
    ensures !IsDigit('=')
  {
  }

  /** Nothing else decodes. */
  lemma DecodesOnly(s: string)
    requires Base64Decode(s).Some?
    ensures exists n :: 0 <= n <= |s| && (forall i :: 0 <= i < n ==> IsDigit(s[i])) && s[n..] == PadString(|s| - n)
  {
    var n := DigitCount(s);
    assert s[n..] == PadString(|s| - n);
  }

  lemma Base64Parts(bytes: seq<byte>)
    ensures var digits, pads := Chars(Sextets(bytes)), |Pads(bytes)|;
      && Base64(bytes) == digits + PadString(pads) && pads <= 2
      && |Base64(bytes)| == (|bytes| + 2) / 3 * 4 && (|digits| + pads) % 4 == 0
  {
    hide Sextets, Chars;
    SextetsLength(bytes);
    assert Pads(bytes) == PadString(|Pads(bytes)|);
  }

  /** An encoding that is cut short decodes only if whole groups are left, and then to their bytes. */
  lemma CutShort(bytes: seq<byte>, k: nat)
    requires k < |Base64(bytes)|
    ensures k % 4 != 0 ==> Base64Decode(Base64(bytes)[..k]) == None
    ensures k % 4 == 0 ==> k / 4 * 3 < |bytes| && Base64Decode(Base64(bytes)[..k]) == Some(bytes[..k / 4 * 3])
  {
    hide Base64, Base64Decode, Sextets, Chars, Pads;
    Base64Parts(bytes);
    if k % 4 != 0 {
      CutInside(Chars(Sextets(bytes)), |Pads(bytes)|, k);
    } else {
      var front, back := bytes[..k / 4 * 3], bytes[k / 4 * 3..];
      assert bytes == front + back;
      Base64Concat(front, back);
      Base64Parts(front);
      Base64RoundTrip(front);
    }
  }

  lemma CutInside(digits: string, pads: nat, k: nat)
    requires (forall i :: 0 <= i < |digits| ==> IsDigit(digits[i])) && pads <= 2 && (|digits| + pads) % 4 == 0
    requires k < |digits| + pads && k % 4 != 0
    ensures Base64Decode((digits + PadString(pads))[..k]) == None
  {
    hide Base64Decode, IsDigit;
    var whole := digits + PadString(pads);
    if k <= |digits| {
      assert whole[..k] == digits[..k] + PadString(0);
      DecodesWhen(digits[..k], 0);
    } else {
      assert whole[..k] == digits + PadString(k - |digits|);
      DecodesWhen(digits, k - |digits|);
    }
  }

  // The writer ---------------------------------------------------------------

  datatype Frame = Frame(name: string, png: seq<byte>)

  /** What printf's %s prints of a string: up to its first NUL. */
  function CStr(s: string): string {
    if s == [] || s[0] == '\0' then "" else [s[0]] + CStr(s[1..])
  }

  function FrameLines(frame: Frame): seq<string> {
    [IMAGE_BEGIN + CStr(frame.name)] + Wrapped(Base64(frame.png)) + [IMAGE_END]
  }

  function PrintedLines(frames: seq<Frame>): seq<string> {
    if frames == [] then [] else PrintedLines(frames[..|frames| - 1]) + FrameLines(frames[|frames| - 1])
  }

  function ByteOr(png: seq<byte>, at: nat): byte {
    if at < |png| then png[at] else 0
  }

  lemma ShrSix(v: nat)
    ensures Shr(v, 6) == v / 64 && Shr(v, 12) == v / 4096 && Shr(v, 18) == v / 262144 && Shr(v, 0) == v
  {
    hide Shr;
    ShrSixOnce(v);
    ShrSixOnce(v / 64);
    ShrSixOnce(v / 4096);
    ShrTwice(v, 6, 6);
    ShrTwice(v, 12, 6);
    ShrNone(v);
  }

  lemma ShrSixOnce(v: nat)
    ensures Shr(v, 6) == v / 64
  {
    hide Shr;
    ShrTwo(v, 6);
    ShrTwo(v / 4, 4);
    ShrTwo(v / 16, 2);
    ShrNone(v / 64);
  }

  lemma AndSix(v: nat)
    ensures And(v, 0x3F) == v % 64
  {
    hide And;
    AndMask(v, 6);
    assert Pow2(6) == 4 * Pow2(4) == 16 * Pow2(2);
  }

  /** Three bytes in a word. */
  lemma Packed(a: byte, b: byte, c: byte)
    ensures Or(Or(Shl(a, 16), Shl(b, 8)), c) == a as nat * 65536 + b as nat * 256 + c
  {
    hide Or, Shl;
    Pow2Bytes();
    ShlEight(b);
    ShlSixteen(a);
    OrAbove(256 * b, a, 16);
    OrCommutes(Shl(a, 16), Shl(b, 8));
    ShlEight(a as nat * 256 + b);
    OrAbove(c, a as nat * 256 + b, 8);
    OrCommutes(Shl(a as nat * 256 + b, 8), c);
  }

  lemma FourDigits(p: nat, q: nat, r: nat, s: nat)
    requires p < 64 && q < 64 && r < 64 && s < 64
    ensures var v := 262144 * p + 4096 * q + 64 * r + s;
      v / 262144 % 64 == p && v / 4096 % 64 == q && v / 64 % 64 == r && v % 64 == s
  {
    var v := 262144 * p + 4096 * q + 64 * r + s;
    assert v / 64 == 4096 * p + 64 * q + r;
    assert v / 4096 == 64 * p + q;
    assert v / 262144 == p;
  }

  lemma SextetsOfWord(a: byte, b: byte, c: byte)
    ensures var v := a as nat * 65536 + b as nat * 256 + c;
      && v / 262144 % 64 == a / 4 && v / 4096 % 64 == a % 4 * 16 + b / 16
      && v / 64 % 64 == b % 16 * 4 + c / 64 && v % 64 == c % 64
  {
    FourDigits(a / 4, a % 4 * 16 + b / 16, b % 16 * 4 + c / 64, c % 64);
  }

  function SextetAt(value: nat, shift: nat): char {
    AndSix(Shr(value, shift));
    AlphabetAt(0);
    ALPHABET[And(Shr(value, shift), 0x3F)]
  }

  lemma SextetAtIs(value: nat)
    ensures SextetAt(value, 18) == DigitOf(value / 262144 % 64) && SextetAt(value, 12) == DigitOf(value / 4096 % 64)
    ensures SextetAt(value, 6) == DigitOf(value / 64 % 64) && SextetAt(value, 0) == DigitOf(value % 64)
  {
    hide Shr, And, DigitOf;
    ShrSix(value);
    AndSix(value / 262144);
    AndSix(value / 4096);
    AndSix(value / 64);
    AndSix(value);
    AlphabetAt(value / 262144 % 64);
    AlphabetAt(value / 4096 % 64);
    AlphabetAt(value / 64 % 64);
    AlphabetAt(value % 64);
  }

  function Next(png: seq<byte>, at: nat): (end: nat)
    requires at <= |png|
    ensures at <= end <= |png|
  {
    if at + 3 <= |png| then at + 3 else |png|
  }

  /** The four characters for the bytes at `at`. */
  method Encode(png: seq<byte>, at: nat) returns (s: string)
    requires at < |png|
    ensures |s| == 4 && s == Base64(png[at..Next(png, at)])
  {
    hide Or, Shl, Shr, And, DigitOf, SextetAt, Base64;
    var a, b, c := png[at], ByteOr(png, at + 1), ByteOr(png, at + 2);
    var value := Or(Or(Shl(a, 16), Shl(b, 8)), c);
    Packed(a, b, c);
    SextetsOfWord(a, b, c);
    SextetAtIs(value);
    s := [SextetAt(value, 18), SextetAt(value, 12),
          if at + 1 < |png| then SextetAt(value, 6) else '=',
          if at + 2 < |png| then SextetAt(value, 0) else '='];
    EncodedGroup(png, at, a, b, c);
  }

  lemma EncodedGroup(png: seq<byte>, at: nat, a: byte, b: byte, c: byte)
    requires at < |png| && a == png[at] && b == ByteOr(png, at + 1) && c == ByteOr(png, at + 2)
    ensures Base64(png[at..Next(png, at)]) ==
      [DigitOf(a / 4), DigitOf(a % 4 * 16 + b / 16),
       if at + 1 < |png| then DigitOf(b % 16 * 4 + c / 64) else '=',
       if at + 2 < |png| then DigitOf(c % 64) else '=']
  {
    hide DigitOf;
    var bytes := png[at..Next(png, at)];
    if |bytes| == 3 {
      assert Sextets(bytes) == Group(a, b, c) + Sextets([]) by { assert bytes[3..] == []; }
    }
  }

  lemma {:induction false} SextetsConcat(a: seq<byte>, b: seq<byte>)
    requires |a| % 3 == 0
    ensures Sextets(a + b) == Sextets(a) + Sextets(b)
  {
    hide Group;
    if a == [] {
      assert a + b == b;
    } else {
      assert (a + b)[3..] == a[3..] + b;
      SextetsConcat(a[3..], b);
    }
  }

  lemma Base64Concat(a: seq<byte>, b: seq<byte>)
    requires |a| % 3 == 0
    ensures Base64(a + b) == Base64(a) + Base64(b)
  {
    hide Sextets;
    SextetsConcat(a, b);
    assert Chars(Sextets(a) + Sextets(b)) == Chars(Sextets(a)) + Chars(Sextets(b));
  }

  // Printing -----------------------------------------------------------------

  function Joined(parts: seq<string>): string {
    if parts == [] then "" else parts[0] + Joined(parts[1..])
  }

  lemma {:induction false} JoinedConcat(a: seq<string>, b: seq<string>)
    ensures Joined(a + b) == Joined(a) + Joined(b)
  {
    if a == [] {
      assert a + b == b;
    } else {
      assert (a + b)[1..] == a[1..] + b;
      JoinedConcat(a[1..], b);
    }
  }

  /** Full lines and then a shorter one are how their text wraps. */
  lemma {:induction false} WrappedOf(full: seq<string>, line: string)
    requires (forall i :: 0 <= i < |full| ==> |full[i]| == LINE_WIDTH) && |line| < LINE_WIDTH
    ensures Wrapped(Joined(full) + line) == full + if line == [] then [] else [line]
  {
    if full == [] {
      assert Joined(full) + line == line;
    } else {
      WrappedOf(full[1..], line);
      var text := Joined(full) + line;
      assert text == full[0] + (Joined(full[1..]) + line);
      assert text[..LINE_WIDTH] == full[0] && text[LINE_WIDTH..] == Joined(full[1..]) + line;
    }
  }

  method PrintFrame(frame: Frame) returns (text: string)
    ensures text == Unlines(FrameLines(frame))
  {
    hide Base64, Wrapped, CStr, Joined, Unlines;
    var png := frame.png;
    ghost var full: seq<string> := [];
    text := IMAGE_BEGIN + CStr(frame.name) + "\n";
    var line := "";
    var at := 0;
    NothingEncoded(png);
    while at < |png|
      invariant at % 3 == 0 || at >= |png|
      invariant text == IMAGE_BEGIN + CStr(frame.name) + "\n" + Unlines(full)
      invariant forall i :: 0 <= i < |full| ==> |full[i]| == LINE_WIDTH
      invariant |line| < LINE_WIDTH && |line| % 4 == 0
      invariant Joined(full) + line == Base64(png[..if at < |png| then at else |png|])
    {
      var part := Encode(png, at);
      EncodedStep(png, at, Joined(full), line, part);
      line := line + part;
      if |line| >= 76 {
        LineDone(full, line);
        assert Joined(full + [line]) + "" == Joined(full) + line;
        text := text + line + "\n";
        full := full + [line];
        line := "";
      }
      at := at + 3;
    }
    assert png[..|png|] == png;
    WrappedOf(full, line);
    if line != "" {
      LineDone(full, line);
      text := text + line + "\n";
      full := full + [line];
    }
    text := text + IMAGE_END + "\n";
    FrameText(frame, full);
  }

  lemma NothingEncoded(png: seq<byte>)
    ensures Joined([]) + "" == Base64(png[..0]) && Unlines([]) == ""
  {
  }

  lemma EncodedStep(png: seq<byte>, at: nat, done: string, line: string, part: string)
    requires at < |png| && at % 3 == 0 && done + line == Base64(png[..at]) && part == Base64(png[at..Next(png, at)])
    ensures done + (line + part) == Base64(png[..Next(png, at)])
  {
    hide Base64;
    var end := Next(png, at);
    assert png[..end] == png[..at] + png[at..end];
    Base64Concat(png[..at], png[at..end]);
    assert done + line + part == done + (line + part);
  }

  lemma LineDone(full: seq<string>, line: string)
    ensures Joined(full + [line]) == Joined(full) + line
    ensures Unlines(full + [line]) == Unlines(full) + line + "\n"
  {
    JoinedConcat(full, [line]);
    UnlinesConcat(full, [line]);
    assert Joined([line]) == line + Joined([]);
    assert Unlines([line]) == line + "\n" + Unlines([]);
  }

  lemma FrameText(frame: Frame, full: seq<string>)
    requires full == Wrapped(Base64(frame.png))
    ensures Unlines(FrameLines(frame)) == IMAGE_BEGIN + CStr(frame.name) + "\n" + Unlines(full) + (IMAGE_END + "\n")
  {
    hide Wrapped, CStr, Base64;
    UnlinesConcat([IMAGE_BEGIN + CStr(frame.name)] + full, [IMAGE_END]);
    UnlinesConcat([IMAGE_BEGIN + CStr(frame.name)], full);
    UnlinesOne(IMAGE_BEGIN + CStr(frame.name));
    UnlinesOne(IMAGE_END);
  }

  lemma UnlinesOne(line: string)
    ensures Unlines([line]) == line + "\n"
  {
  }

  /** Prints every kept frame. */
  method PrintImages(frames: seq<Frame>) returns (text: string)
    ensures text == Unlines(PrintedLines(frames))
  {
    hide FrameLines;
    text := "";
    for i := 0 to |frames|
      invariant text == Unlines(PrintedLines(frames[..i]))
    {
      var frame := PrintFrame(frames[i]);
      assert frames[..i + 1][..i] == frames[..i];
      UnlinesConcat(PrintedLines(frames[..i]), FrameLines(frames[i]));
      text := text + frame;
    }
    assert frames[..|frames|] == frames;
  }

  // The reader ---------------------------------------------------------------

  type Images = map<string, seq<byte>>

  /** Where the reader is: between frames, or inside one with the text it has collected. */
  datatype State =
    | Outside(images: Images)
    | Inside(images: Images, name: string, encoded: string)

  function Collected(images: Images, name: string, encoded: string): Images {
    match Base64Decode(encoded)
    case Some(bytes) => images[name := bytes]
    case None => images
  }

  predicate Begins(line: string) {
    IMAGE_BEGIN <= line
  }

  function NameOf(line: string): string
    requires Begins(line)
  {
    Strip(line[|IMAGE_BEGIN|..])
  }

  function Step(state: State, line: string): State {
    match state
    case Outside(images) => if Begins(line) then Inside(images, NameOf(line), "") else state
    case Inside(images, name, encoded) =>
      var part := Strip(line);
      if part == IMAGE_END then Outside(Collected(images, name, encoded))
      else if Base64Line(part) then Inside(images, name, encoded + part)
      else state
  }

  function Run(state: State, lines: seq<string>): State
    decreases |lines|
  {
    if lines == [] then state else Run(Step(state, lines[0]), lines[1..])
  }

  /** What the reader makes of a text. A frame that the text ends inside is left out. */
  function Parsed(text: string): Images {
    Run(Outside(map[]), SplitLines(text)).images
  }

  lemma {:induction false} RunConcat(state: State, a: seq<string>, b: seq<string>)
    ensures Run(state, a + b) == Run(Run(state, a), b)
    decreases |a|
  {
    if a == [] {
      assert a + b == b;
    } else {
      assert (a + b)[1..] == a[1..] + b;
      RunConcat(Step(state, a[0]), a[1..], b);
    }
  }

  lemma {:induction false} RunLines(images: Images, name: string, encoded: string, lines: seq<string>)
    requires forall i :: 0 <= i < |lines| ==> Base64Line(lines[i])
    ensures Run(Inside(images, name, encoded), lines) == Inside(images, name, encoded + Joined(lines))
    decreases |lines|
  {
    hide Base64Line, Run, Step, Joined;
    RunFirst(Inside(images, name, encoded), lines);
    JoinedNext(lines);
    if lines == [] {
      assert encoded + "" == encoded;
    } else {
      LineTaken(images, name, encoded, lines[0]);
      RunLines(images, name, encoded + lines[0], lines[1..]);
      Regroup(encoded, lines[0], Joined(lines[1..]));
    }
  }

  lemma RunFirst(state: State, lines: seq<string>)
    ensures Run(state, lines) == if lines == [] then state else Run(Step(state, lines[0]), lines[1..])
  {
  }

  lemma JoinedNext(lines: seq<string>)
    ensures Joined(lines) == if lines == [] then "" else lines[0] + Joined(lines[1..])
  {
  }

  lemma LineTaken(images: Images, name: string, encoded: string, line: string)
    requires Base64Line(line)
    ensures Step(Inside(images, name, encoded), line) == Inside(images, name, encoded + line)
  {
    hide Base64Line, Strip;
    LineKept(line);
  }

  lemma {:induction false} JoinedWrapped(s: string)
    ensures Joined(Wrapped(s)) == s
  {
    if |s| >= LINE_WIDTH {
      JoinedWrapped(s[LINE_WIDTH..]);
      assert s == s[..LINE_WIDTH] + s[LINE_WIDTH..];
    } else if s != [] {
      assert Joined([s]) == s + Joined([]);
    }
  }

  /** A name that is trimmed, on one line, and without a NUL. */
  predicate GoodName(name: string) {
    Strip(name) == name && OneLine(name) && forall i :: 0 <= i < |name| ==> name[i] != '\0'
  }

  lemma {:induction false} CStrKeeps(s: string)
    requires forall i :: 0 <= i < |s| ==> s[i] != '\0'
    ensures CStr(s) == s
  {
    if s != [] {
      CStrKeeps(s[1..]);
    }
  }

  lemma BeginRuns(images: Images, name: string)
    requires GoodName(name)
    ensures Step(Outside(images), IMAGE_BEGIN + CStr(name)) == Inside(images, name, "")
  {
    CStrKeeps(name);
    var line := IMAGE_BEGIN + name;
    assert line[..|IMAGE_BEGIN|] == IMAGE_BEGIN && line[|IMAGE_BEGIN|..] == name;
  }

  lemma EndRuns(images: Images, name: string, encoded: string)
    ensures Step(Inside(images, name, encoded), IMAGE_END) == Outside(Collected(images, name, encoded))
  {
    StripKeeps(IMAGE_END);
  }

  /** One printed frame adds its image under its name. */
  lemma FrameRuns(images: Images, frame: Frame)
    requires GoodName(frame.name)
    ensures Run(Outside(images), FrameLines(frame)) == Outside(images[frame.name := frame.png])
  {
    hide Base64, Base64Decode, Wrapped, GoodName, CStr, Step;
    var encoded := Base64(frame.png);
    var lines := Wrapped(encoded);
    var first, last := IMAGE_BEGIN + CStr(frame.name), IMAGE_END;
    Base64Grouped(frame.png);
    WrappedLines(encoded);
    JoinedWrapped(encoded);
    BeginRuns(images, frame.name);
    RunOne(Outside(images), first);
    RunLines(images, frame.name, "", lines);
    EndRuns(images, frame.name, encoded);
    RunOne(Inside(images, frame.name, encoded), last);
    RunConcat(Outside(images), [first], lines);
    RunConcat(Outside(images), [first] + lines, [last]);
    Base64RoundTrip(frame.png);
    assert "" + encoded == encoded;
  }

  lemma RunOne(state: State, line: string)
    ensures Run(state, [line]) == Step(state, line)
  {
  }

  function ImagesOf(frames: seq<Frame>): Images {
    if frames == [] then map[] else ImagesOf(frames[..|frames| - 1])[frames[|frames| - 1].name := frames[|frames| - 1].png]
  }

  lemma {:induction false} PrintedRuns(frames: seq<Frame>)
    requires forall i :: 0 <= i < |frames| ==> GoodName(frames[i].name)
    ensures Run(Outside(map[]), PrintedLines(frames)) == Outside(ImagesOf(frames))
  {
    if frames != [] {
      hide GoodName, FrameLines, Step;
      var front := frames[..|frames| - 1];
      PrintedRuns(front);
      RunConcat(Outside(map[]), PrintedLines(front), FrameLines(frames[|frames| - 1]));
      FrameRuns(ImagesOf(front), frames[|frames| - 1]);
    }
  }

  lemma {:induction false} PrintedOneLine(frames: seq<Frame>)
    requires forall i :: 0 <= i < |frames| ==> GoodName(frames[i].name)
    ensures forall i :: 0 <= i < |PrintedLines(frames)| ==> OneLine(PrintedLines(frames)[i])
  {
    if frames != [] {
      hide FrameLines, OneLine;
      PrintedOneLine(frames[..|frames| - 1]);
      FrameOneLine(frames[|frames| - 1]);
    }
  }

  lemma FrameOneLine(frame: Frame)
    requires GoodName(frame.name)
    ensures forall i :: 0 <= i < |FrameLines(frame)| ==> OneLine(FrameLines(frame)[i])
  {
    hide Base64, Wrapped, Base64Line, IsBreak;
    var lines := Wrapped(Base64(frame.png));
    Base64Grouped(frame.png);
    WrappedLines(Base64(frame.png));
    forall i | 0 <= i < |lines| ensures OneLine(lines[i]) { LineKept(lines[i]); }
    CStrKeeps(frame.name);
    MarkersOneLine();
  }

  lemma MarkersOneLine()
    ensures OneLine(IMAGE_BEGIN) && OneLine(IMAGE_END)
  {
  }

  /** The reader gives back the frames that the writer printed, by name. */
  lemma RoundTrip(frames: seq<Frame>)
    requires forall i :: 0 <= i < |frames| ==> GoodName(frames[i].name)
    ensures Parsed(Unlines(PrintedLines(frames))) == ImagesOf(frames)
  {
    hide GoodName, OneLine, Run, PrintedLines, ImagesOf, Unlines, SplitLines;
    PrintedRuns(frames);
    PrintedOneLine(frames);
    SplitUnlines(PrintedLines(frames));
  }

  // Noise --------------------------------------------------------------------

  /** A line that is neither base64 nor the end of a frame. */
  predicate Noise(line: string) {
    Strip(line) != IMAGE_END && !Base64Line(Strip(line))
  }

  /** `noisy` is `lines` with noise put in anywhere that the reader is inside a frame. */
  predicate Interleaved(state: State, lines: seq<string>, noisy: seq<string>)
    decreases |noisy|
  {
    if noisy == [] then lines == []
    else
      || (state.Inside? && Noise(noisy[0]) && Interleaved(state, lines, noisy[1..]))
      || (lines != [] && lines[0] == noisy[0] && Interleaved(Step(state, lines[0]), lines[1..], noisy[1..]))
  }

  lemma {:induction false} NoiseIgnored(state: State, lines: seq<string>, noisy: seq<string>)
    requires Interleaved(state, lines, noisy)
    ensures Run(state, noisy) == Run(state, lines)
    decreases |noisy|
  {
    if noisy != [] {
      if state.Inside? && Noise(noisy[0]) && Interleaved(state, lines, noisy[1..]) {
        NoiseIgnored(state, lines, noisy[1..]);
      } else {
        NoiseIgnored(Step(state, lines[0]), lines[1..], noisy[1..]);
      }
    }
  }

  /** Log lines inside frames do not change what is read. */
  lemma NoisyRoundTrip(frames: seq<Frame>, noisy: seq<string>)
    requires forall i :: 0 <= i < |frames| ==> GoodName(frames[i].name)
    requires forall i :: 0 <= i < |noisy| ==> OneLine(noisy[i])
    requires Interleaved(Outside(map[]), PrintedLines(frames), noisy)
    ensures Parsed(Unlines(noisy)) == ImagesOf(frames)
  {
    hide GoodName, OneLine, Interleaved;
    PrintedRuns(frames);
    SplitUnlines(noisy);
    NoiseIgnored(Outside(map[]), PrintedLines(frames), noisy);
  }

  // What is read of any text ---------------------------------------------------

  /** Whether the line at `n` comes inside a frame. */
  function Open(lines: seq<string>, n: nat): bool
    requires n <= |lines|
  {
    if n == 0 then false
    else if Open(lines, n - 1) then Strip(lines[n - 1]) != IMAGE_END
    else IMAGE_BEGIN <= lines[n - 1]
  }

  /** A whole frame: from a begin line outside any frame to the first end line after it. */
  ghost predicate FrameAt(lines: seq<string>, i: nat, j: nat) {
    && i < j < |lines| && !Open(lines, i) && IMAGE_BEGIN <= lines[i] && Strip(lines[j]) == IMAGE_END
    && forall k :: i < k < j ==> Strip(lines[k]) != IMAGE_END
  }

  /** The base64 lines among those from `from` to `to`, joined. */
  function Gathered(lines: seq<string>, from: nat, to: nat): string
    requires to <= |lines|
  {
    if to <= from then ""
    else
      var part := Strip(lines[to - 1]);
      Gathered(lines, from, to - 1) + if Base64Line(part) then part else ""
  }

  /** What the frame from `i` to `j` gives for a name. */
  ghost function Given(lines: seq<string>, i: nat, j: nat, name: string): Option<seq<byte>>
    requires j <= |lines|
  {
    if FrameAt(lines, i, j) && Strip(lines[i][|IMAGE_BEGIN|..]) == name then Base64Decode(Gathered(lines, i + 1, j)) else None
  }

  /** The entry of a name is what the last of its frames that decode gives, and there is none without such a frame. */
  ghost predicate EntryIs(lines: seq<string>, n: nat, name: string, entry: Option<seq<byte>>)
    requires n <= |lines|
  {
    match entry
    case None => forall i, j :: 0 <= i && 0 <= j < n ==> Given(lines, i, j, name) == None
    case Some(bytes) => exists i, j ::
      && 0 <= i && 0 <= j < n && Given(lines, i, j, name) == Some(bytes)
      && forall i', j' :: 0 <= i' && j < j' < n ==> Given(lines, i', j', name) == None
  }

  function EntryOf(images: Images, name: string): Option<seq<byte>> {
    if name in images then Some(images[name]) else None
  }

  /** Exactly the frames of a text that end and decode are read, each under its name, and the last one of a name counts. */
  ghost predicate ReadFrom(lines: seq<string>, n: nat, images: Images)
    requires n <= |lines|
  {
    forall name :: EntryIs(lines, n, name, EntryOf(images, name))
  }

  /** Where the frame that the line at `n` is inside began. */
  function Start(lines: seq<string>, n: nat): (i: nat)
    requires n <= |lines| && Open(lines, n)
    ensures i < n
  {
    if Open(lines, n - 1) then Start(lines, n - 1) else n - 1
  }

  lemma {:induction false} StartIs(lines: seq<string>, n: nat)
    requires n <= |lines| && Open(lines, n)
    ensures var i := Start(lines, n);
      && !Open(lines, i) && IMAGE_BEGIN <= lines[i] && forall k :: i < k < n ==> Strip(lines[k]) != IMAGE_END
  {
    hide Strip;
    if Open(lines, n - 1) {
      StartIs(lines, n - 1);
    }
  }

  lemma {:induction false} OpenSince(lines: seq<string>, i: nat, n: nat)
    requires i < n <= |lines| && !Open(lines, i) && IMAGE_BEGIN <= lines[i]
    requires forall k :: i < k < n ==> Strip(lines[k]) != IMAGE_END
    ensures Open(lines, n) && Start(lines, n) == i
    decreases n
  {
    hide Strip;
    if i + 1 < n {
      OpenSince(lines, i, n - 1);
    }
  }

  /** A frame ends at a line exactly if the line is an end line inside a frame, and it is then that frame. */
  lemma FrameEnds(lines: seq<string>, i: nat, j: nat)
    requires j < |lines|
    ensures FrameAt(lines, i, j) <==> Open(lines, j) && i == Start(lines, j) && Strip(lines[j]) == IMAGE_END
  {
    hide Strip, Open, Start;
    if FrameAt(lines, i, j) {
      OpenSince(lines, i, j);
    }
    if Open(lines, j) {
      StartIs(lines, j);
    }
  }

  /** Without a frame that decodes and ends at the line, every entry stays. */
  lemma EntryStays(lines: seq<string>, n: nat, name: string, entry: Option<seq<byte>>)
    requires n < |lines| && EntryIs(lines, n, name, entry)
    requires forall i :: 0 <= i ==> Given(lines, i, n, name) == None
    ensures EntryIs(lines, n + 1, name, entry)
  {
    hide Given;
    if entry.Some? {
      var i, j :| && 0 <= i && 0 <= j < n && Given(lines, i, j, name) == entry
        && forall i', j' :: 0 <= i' && j < j' < n ==> Given(lines, i', j', name) == None;
      forall i', j' | 0 <= i' && j < j' < n + 1 ensures Given(lines, i', j', name) == None {
      }
    }
  }

  lemma EntryNew(lines: seq<string>, n: nat, i: nat, name: string, bytes: seq<byte>)
    requires n < |lines| && Given(lines, i, n, name) == Some(bytes)
    ensures EntryIs(lines, n + 1, name, Some(bytes))
  {
    hide Given;
  }

  lemma NothingGiven(lines: seq<string>, n: nat, name: string)
    requires n < |lines| && !(Open(lines, n) && Strip(lines[n]) == IMAGE_END)
    ensures forall i :: 0 <= i ==> Given(lines, i, n, name) == None
  {
    hide Strip, Open, FrameAt, Base64Decode, Gathered;
    forall i: nat ensures !FrameAt(lines, i, n) {
      FrameEnds(lines, i, n);
    }
  }

  /** The state of the reader before the line at `n`. */
  ghost predicate ReaderAt(lines: seq<string>, n: nat, state: State)
    requires n <= |lines|
  {
    && ReadFrom(lines, n, state.images) && state.Inside? == Open(lines, n)
    && (state.Inside? ==>
          && IMAGE_BEGIN <= lines[Start(lines, n)]
          && state.name == Strip(lines[Start(lines, n)][|IMAGE_BEGIN|..])
          && state.encoded == Gathered(lines, Start(lines, n) + 1, n))
  }

  lemma FrameEnded(lines: seq<string>, n: nat, images: Images)
    requires n < |lines| && ReadFrom(lines, n, images) && Open(lines, n) && Strip(lines[n]) == IMAGE_END
    requires IMAGE_BEGIN <= lines[Start(lines, n)]
    ensures ReadFrom(lines, n + 1, Collected(images, Strip(lines[Start(lines, n)][|IMAGE_BEGIN|..]),
                                             Gathered(lines, Start(lines, n) + 1, n)))
  {
    hide Strip, Open, Start, Base64Decode, Gathered, EntryIs;
    var from := Start(lines, n);
    var own, given := Strip(lines[from][|IMAGE_BEGIN|..]), Base64Decode(Gathered(lines, from + 1, n));
    var after := Collected(images, own, Gathered(lines, from + 1, n));
    forall name ensures EntryIs(lines, n + 1, name, EntryOf(after, name)) {
      assert EntryIs(lines, n, name, EntryOf(images, name));
      forall i: nat ensures Given(lines, i, n, name) == if i == from && name == own then given else None {
        FrameEnds(lines, i, n);
      }
      if name == own && given.Some? {
        EntryNew(lines, n, from, name, given.value);
      } else {
        EntryStays(lines, n, name, EntryOf(images, name));
      }
    }
  }

  lemma NothingEnded(lines: seq<string>, n: nat, images: Images)
    requires n < |lines| && ReadFrom(lines, n, images) && !(Open(lines, n) && Strip(lines[n]) == IMAGE_END)
    ensures ReadFrom(lines, n + 1, images)
  {
    hide Strip, Open, EntryIs, Given;
    forall name ensures EntryIs(lines, n + 1, name, EntryOf(images, name)) {
      assert EntryIs(lines, n, name, EntryOf(images, name));
      NothingGiven(lines, n, name);
      EntryStays(lines, n, name, EntryOf(images, name));
    }
  }

  lemma ReaderStep(lines: seq<string>, n: nat, state: State)
    requires n < |lines| && ReaderAt(lines, n, state)
    ensures ReaderAt(lines, n + 1, Step(state, lines[n]))
  {
    hide Strip, ReadFrom, Base64Line, Collected;
    if state.Inside? && Strip(lines[n]) == IMAGE_END {
      FrameEnded(lines, n, state.images);
    } else {
      NothingEnded(lines, n, state.images);
      if state.Inside? {
        assert state.encoded + "" == state.encoded;
      }
    }
  }

  lemma {:induction false} ReaderRuns(lines: seq<string>, n: nat)
    requires n <= |lines|
    ensures ReaderAt(lines, n, Run(Outside(map[]), lines[..n]))
  {
    if n == 0 {
      assert lines[..0] == [];
    } else {
      hide ReaderAt, Run, Step;
      ReaderRuns(lines, n - 1);
      ReaderStep(lines, n - 1, Run(Outside(map[]), lines[..n - 1]));
      assert lines[..n] == lines[..n - 1] + [lines[n - 1]];
      RunConcat(Outside(map[]), lines[..n - 1], [lines[n - 1]]);
      RunOne(Run(Outside(map[]), lines[..n - 1]), lines[n - 1]);
    }
  }

  /** For any text: a name is read exactly if a whole frame of that name decodes, with the bytes of the last one. A
      frame that does not decode, or that the text ends inside, changes nothing. */
  lemma ParsedIs(output: string)
    ensures ReadFrom(SplitLines(output), |SplitLines(output)|, Parsed(output))
  {
    hide ReadFrom, Run, SplitLines;
    var lines := SplitLines(output);
    ReaderRuns(lines, |lines|);
    assert lines[..|lines|] == lines;
  }

  /** The reader's loop over lines, and its loop over the lines of a frame, share one position. */
  method ParseImages(output: string) returns (images: Images)
    ensures images == Parsed(output)
    ensures ReadFrom(SplitLines(output), |SplitLines(output)|, images)
  {
    hide Base64Decode, Base64Line, Strip, SplitLines, ReadFrom;
    ParsedIs(output);
    images := map[];
    var lines := SplitLines(output);
    var at := 0;
    while at < |lines|
      invariant at <= |lines|
      invariant Run(Outside(images), lines[at..]) == Run(Outside(map[]), lines)
    {
      var line := lines[at];
      RunNext(Outside(images), lines, at);
      at := at + 1;
      if !Begins(line) {
        continue;
      }
      var name := NameOf(line);
      var encoded: seq<string> := [];
      var ended := false;
      while at < |lines| && !ended
        invariant at <= |lines|
        invariant Run(if ended then Outside(Collected(images, name, Joined(encoded))) else Inside(images, name, Joined(encoded)),
                      lines[at..]) == Run(Outside(map[]), lines)
      {
        var part := Strip(lines[at]);
        RunNext(Inside(images, name, Joined(encoded)), lines, at);
        at := at + 1;
        if part == IMAGE_END {
          ended := true;
        } else if Base64Line(part) {
          JoinedLast(encoded, part);
          encoded := encoded + [part];
        }
      }
      if !ended {
        break;
      }
      match Base64Decode(Joined(encoded))
      case Some(bytes) => images := images[name := bytes];
      case None =>
    }
  }

  lemma RunNext(state: State, lines: seq<string>, at: nat)
    requires at < |lines|
    ensures Run(state, lines[at..]) == Run(Step(state, lines[at]), lines[at + 1..])
  {
  }

  lemma JoinedLast(parts: seq<string>, part: string)
    ensures Joined(parts + [part]) == Joined(parts) + part
  {
    JoinedConcat(parts, [part]);
    assert Joined([part]) == part + Joined([]);
  }
}
