/** Diagnostic messages in fixed buffers: where the cut falls, and what is written. */
module Diagnostics {
  import opened Wrappers
  import opened Bitwise

  /** The bytes of a C string, without the NUL that ends it. */
  type CString = s: seq<byte> | forall i :: 0 <= i < |s| ==> s[i] != 0

  // UTF-8 --------------------------------------------------------------------

  predicate Tail(b: byte) {
    0x80 <= b <= 0xBF
  }

  /** The length of the UTF-8 character that starts the bytes (RFC 3629, section 4), or 0 if none does. */
  function CharLength(s: seq<byte>): (n: nat)
    ensures n <= |s| && n <= 4
  {
    if |s| >= 1 && s[0] <= 0x7F then 1
    else if |s| >= 2 && 0xC2 <= s[0] <= 0xDF && Tail(s[1]) then 2
    else if |s| >= 3 && Tail(s[2]) && (
      || (s[0] == 0xE0 && 0xA0 <= s[1] <= 0xBF)
      || (0xE1 <= s[0] <= 0xEC && Tail(s[1]))
      || (s[0] == 0xED && 0x80 <= s[1] <= 0x9F)
      || (0xEE <= s[0] <= 0xEF && Tail(s[1]))) then 3
    else if |s| >= 4 && Tail(s[2]) && Tail(s[3]) && (
      || (s[0] == 0xF0 && 0x90 <= s[1] <= 0xBF)
      || (0xF1 <= s[0] <= 0xF3 && Tail(s[1]))
      || (s[0] == 0xF4 && 0x80 <= s[1] <= 0x8F)) then 4
    else 0
  }

  predicate Utf8(s: seq<byte>)
    decreases |s|
  {
    s == [] || (CharLength(s) > 0 && Utf8(s[CharLength(s)..]))
  }

  // What the table says, by the code points of section 3 of RFC 3629 ----------

  /** The code points that UTF-8 encodes: no surrogates. */
  predicate Scalar(c: nat) {
    c < 0xD800 || 0xDFFF < c <= 0x10FFFF
  }

  /** The bits of a code point, six to each continuation byte. */
  function Encoded(c: nat): seq<byte>
    requires Scalar(c)
  {
    if c < 0x80 then [c]
    else if c < 0x800 then [0xC0 + c / 0x40, 0x80 + c % 0x40]
    else if c < 0x1_0000 then [0xE0 + c / 0x1000, 0x80 + c / 0x40 % 0x40, 0x80 + c % 0x40]
    else [0xF0 + c / 0x4_0000, 0x80 + c / 0x1000 % 0x40, 0x80 + c / 0x40 % 0x40, 0x80 + c % 0x40]
  }

  function EncodedAll(cs: seq<nat>): seq<byte>
    requires forall i :: 0 <= i < |cs| ==> Scalar(cs[i])
  {
    if cs == [] then [] else Encoded(cs[0]) + EncodedAll(cs[1..])
  }

  ghost predicate Encodes(cs: seq<nat>, s: seq<byte>) {
    (forall i :: 0 <= i < |cs| ==> Scalar(cs[i])) && EncodedAll(cs) == s
  }

  lemma StartsChar(c: nat, rest: seq<byte>)
    requires Scalar(c)
    ensures CharLength(Encoded(c) + rest) == |Encoded(c)|
  {
    if c >= 0x1_0000 {
      StartsFour(c, rest);
    } else if c >= 0x800 {
      StartsThree(c, rest);
    }
  }

  lemma StartsThree(c: nat, rest: seq<byte>)
    requires Scalar(c) && 0x800 <= c < 0x1_0000
    ensures CharLength(Encoded(c) + rest) == 3
  {
    var s := Encoded(c) + rest;
    assert s[0] == 0xE0 + c / 0x1000 && s[1] == 0x80 + c / 0x40 % 0x40 && s[2] == 0x80 + c % 0x40;
  }

  lemma StartsFour(c: nat, rest: seq<byte>)
    requires Scalar(c) && c >= 0x1_0000
    ensures CharLength(Encoded(c) + rest) == 4
  {
    var s := Encoded(c) + rest;
    assert s[0] == 0xF0 + c / 0x4_0000 && s[1] == 0x80 + c / 0x1000 % 0x40;
    assert s[2] == 0x80 + c / 0x40 % 0x40 && s[3] == 0x80 + c % 0x40;
  }

  function JoinedBits(high: nat, y: nat, z: nat): nat
    requires 0x80 <= y <= 0xBF && 0x80 <= z <= 0xBF
  {
    0x1000 * high + 0x40 * (y - 0x80) + (z - 0x80)
  }

  /** The last two bytes of a code point. */
  lemma JoinedIs(high: nat, y: nat, z: nat)
    requires 0x80 <= y <= 0xBF && 0x80 <= z <= 0xBF
    ensures var c := JoinedBits(high, y, z); c / 0x1000 == high && 0x80 + c / 0x40 % 0x40 == y && 0x80 + c % 0x40 == z
  {
  }

  lemma TwoEncode(x: byte, y: byte) returns (c: nat)
    requires CharLength([x, y]) == 2
    ensures Scalar(c) && Encoded(c) == [x, y]
  {
    var high: nat, low: nat := x - 0xC0, y - 0x80;
    c := 0x40 * high + low;
    assert c / 0x40 == high && c % 0x40 == low;
  }

  lemma ThreeEncode(x: byte, y: byte, z: byte) returns (c: nat)
    requires CharLength([x, y, z]) == 3
    ensures Scalar(c) && Encoded(c) == [x, y, z]
  {
    var high: nat := x - 0xE0;
    JoinedIs(high, y, z);
    c := JoinedBits(high, y, z);
    assert c < 0x1_0000 && c >= 0x800 && Scalar(c);
  }

  lemma FourEncode(w: byte, x: byte, y: byte, z: byte) returns (c: nat)
    requires CharLength([w, x, y, z]) == 4
    ensures Scalar(c) && Encoded(c) == [w, x, y, z]
  {
    var top: nat, next: nat := w - 0xF0, x - 0x80;
    var high := 0x40 * top + next;
    assert 0x10 <= high <= 0x10F && high / 0x40 == top && high % 0x40 == next;
    JoinedIs(high, y, z);
    c := JoinedBits(high, y, z);
    FourBits(c, high, y, z);
  }

  lemma FourBits(c: nat, high: nat, y: byte, z: byte)
    requires 0x80 <= y <= 0xBF && 0x80 <= z <= 0xBF && c == JoinedBits(high, y, z) && 0x10 <= high <= 0x10F
    ensures 0x1_0000 <= c <= 0x10FFFF && c / 0x4_0000 == high / 0x40 && c / 0x1000 % 0x40 == high % 0x40
  {
  }

  lemma CharEncodes(s: seq<byte>) returns (c: nat)
    requires CharLength(s) > 0
    ensures Scalar(c) && Encoded(c) == s[..CharLength(s)]
  {
    hide Encoded, Scalar;
    var n := CharLength(s);
    CharPrefix(s, n);
    if n == 1 {
      c := s[0];
      OneEncodes(s[0]);
      assert s[..1] == [s[0]];
    } else if n == 2 {
      assert s[..2] == [s[0], s[1]];
      c := TwoEncode(s[0], s[1]);
    } else if n == 3 {
      assert s[..3] == [s[0], s[1], s[2]];
      c := ThreeEncode(s[0], s[1], s[2]);
    } else {
      assert s[..4] == [s[0], s[1], s[2], s[3]];
      c := FourEncode(s[0], s[1], s[2], s[3]);
    }
  }

  lemma OneEncodes(c: nat)
    requires c < 0x80
    ensures Scalar(c) && Encoded(c) == [c]
  {
  }

  /** Bytes are valid exactly when they encode some code points. */
  lemma {:induction false} Utf8Is(s: seq<byte>)
    ensures Utf8(s) <==> exists cs :: Encodes(cs, s)
    decreases |s|
  {
    hide CharLength, Encoded, Scalar;
    if s == [] {
      assert Encodes([], s);
    } else if Utf8(s) {
      var n := CharLength(s);
      Utf8Is(s[n..]);
      var c := CharEncodes(s);
      var cs :| Encodes(cs, s[n..]);
      Longer(c, cs, s[..n], s[n..]);
      assert s == s[..n] + s[n..];
    } else if exists cs :: Encodes(cs, s) {
      var cs :| Encodes(cs, s);
      var first, rest := Encoded(cs[0]), EncodedAll(cs[1..]);
      StartsChar(cs[0], rest);
      assert s == first + rest && s[|first|..] == rest;
      assert Encodes(cs[1..], rest);
      SomeBytes(cs[0]);
      Utf8Is(rest);
    }
  }

  lemma SomeBytes(c: nat)
    requires Scalar(c)
    ensures |Encoded(c)| > 0
  {
  }

  lemma Longer(c: nat, cs: seq<nat>, first: seq<byte>, rest: seq<byte>)
    requires Scalar(c) && Encoded(c) == first && Encodes(cs, rest)
    ensures Encodes([c] + cs, first + rest)
  {
    assert ([c] + cs)[1..] == cs;
  }

  lemma CharPrefix(s: seq<byte>, k: nat)
    requires k <= |s| && CharLength(s) > 0
    ensures k >= CharLength(s) ==> CharLength(s[..k]) == CharLength(s)
    ensures k < CharLength(s) ==> CharLength(s[..k]) == 0
    ensures 0 < k < CharLength(s) ==> Tail(s[k])
    ensures !Tail(s[0])
  {
  }

  /** A prefix of valid UTF-8 is valid exactly when it does not end before a continuation byte. */
  lemma {:induction false} ValidPrefix(s: seq<byte>, k: nat)
    requires Utf8(s) && k <= |s|
    ensures Utf8(s[..k]) <==> k == |s| || !Tail(s[k])
    decreases |s|
  {
    hide CharLength;
    if k == 0 {
      if s != [] {
        CharPrefix(s, k);
      }
    } else {
      var n := CharLength(s);
      CharPrefix(s, k);
      if k >= n {
        ValidPrefix(s[n..], k - n);
        assert s[..k][n..] == s[n..][..k - n];
      }
    }
  }

  lemma TopBits(b: byte)
    ensures And(b, 0xC0) == 0x80 <==> Tail(b)
  {
    hide And, Shl, Pow2;
    Pow2Next(0);
    Pow2Two(0);
    Pow2Two(2);
    Pow2Two(4);
    ShlSix(b / 64);
    ShlSix(3);
    SplitAnd(b % 64, b / 64, 0, 3, 6);
    AndZero(b % 64);
    AndMask(b / 64, 2);
    ShlSix(And(b / 64, 3));
  }

  lemma ShlSix(v: nat)
    ensures Shl(v, 6) == 64 * v
  {
    hide Shl;
    ShlNext(v, 0);
    ShlTwo(v, 0);
    ShlTwo(v, 2);
    ShlTwo(v, 4);
  }

  // Writing a message --------------------------------------------------------

  /** `text` is the longest prefix of the message, with room for a NUL, that is whole UTF-8. */
  ghost predicate LongestFit(message: seq<byte>, capacity: nat, text: seq<byte>) {
    && text <= message && |text| < capacity && Utf8(text)
    && forall k :: |text| < k <= |message| && k < capacity ==> !Utf8(message[..k])
  }

  predicate CutAt(message: seq<byte>, capacity: nat, length: nat)
    requires length < capacity <= |message|
  {
    && (length == 0 || !(0x80 <= message[length] <= 0xBF))
    && forall k :: length < k < capacity ==> 0x80 <= message[k] <= 0xBF
  }

  /** What is shown of any message; one in UTF-8 is cut at the last character boundary in reach. */
  ghost predicate Shows(message: seq<byte>, capacity: nat, text: seq<byte>) {
    && text <= message && |text| < capacity
    && (|message| < capacity ==> text == message)
    && (|message| >= capacity ==> CutAt(message, capacity, |text|))
    && (Utf8(message) ==> LongestFit(message, capacity, text))
  }

  method Truncated(message: CString, capacity: nat) returns (text: seq<byte>)
    requires capacity >= 1
    ensures Shows(message, capacity, text)
  {
    hide Utf8, And;
    if |message| < capacity {
      assert message[..|message|] == message;
      return message;
    }
    var length := capacity - 1;
    while length > 0 && And(message[length], 0xC0) == 0x80
      invariant length < capacity
      invariant forall k :: length < k < capacity ==> Tail(message[k])
    {
      TopBits(message[length]);
      length := length - 1;
    }
    text := message[..length];
    TopBits(message[length]);
    if Utf8(message) {
      FirstByte(message);
      ValidPrefix(message, length);
      forall k | length < k <= |message| && k < capacity ensures !Utf8(message[..k]) {
        ValidPrefix(message, k);
      }
    }
  }

  lemma FirstByte(s: seq<byte>)
    requires Utf8(s) && s != []
    ensures !Tail(s[0])
  {
  }

  /** The buffer's new content: the text, its NUL, and the rest as it was. */
  function Written(before: seq<byte>, text: seq<byte>): seq<byte>
    requires |text| < |before|
  {
    text + [0] + before[|text| + 1..]
  }

  method CopyText(buffer: array<byte>, text: seq<byte>)
    requires |text| < buffer.Length
    modifies buffer
    ensures buffer[..] == Written(old(buffer[..]), text)
  {
    for i := 0 to |text|
      invariant forall k :: 0 <= k < i ==> buffer[k] == text[k]
      invariant forall k :: i <= k < buffer.Length ==> buffer[k] == old(buffer[k])
    {
      buffer[i] := text[i];
    }
    buffer[|text|] := 0;
    WrittenIs(old(buffer[..]), text, buffer[..]);
  }

  /** A buffer is written when it has the text's bytes, a NUL, and elsewhere its old bytes. */
  lemma WrittenIs(before: seq<byte>, text: seq<byte>, after: seq<byte>)
    requires |text| < |before| == |after| && after[|text|] == 0
    requires forall k :: 0 <= k < |text| ==> after[k] == text[k]
    requires forall k :: |text| < k < |before| ==> after[k] == before[k]
    ensures after == Written(before, text)
  {
  }

  const DIAGNOSTIC_CAPACITY: nat := 4096

  /** The thread's last error; null clears it. */
  method SetThreadError(buffer: array<byte>, message: Option<CString>)
    requires buffer.Length == DIAGNOSTIC_CAPACITY
    modifies buffer
    ensures message.None? ==> buffer[..] == Written(old(buffer[..]), [])
    ensures message.Some? ==> exists text: seq<byte> ::
      Shows(message.value, 4096, text) && buffer[..] == Written(old(buffer[..]), text)
  {
    hide Utf8, LongestFit, CutAt;
    if message.None? {
      CopyText(buffer, []);
      return;
    }
    var text := Truncated(message.value, buffer.Length);
    CopyText(buffer, text);
  }

  /** A caller's struct: its `size` says how much of it the caller has. */
  class Diagnostic {
    const size: nat
    const message: array<byte>

    constructor (size: nat)
      ensures this.size == size && message.Length == DIAGNOSTIC_CAPACITY
    {
      this.size, message := size, new byte[DIAGNOSTIC_CAPACITY](_ => 0);
    }
  }

  /** Where the message starts in the struct, behind its 32-bit size. */
  const MESSAGE_OFFSET: nat := 4

  method WriteDiagnostic(diagnostic: Diagnostic?, message: CString)
    requires diagnostic != null ==> diagnostic.message.Length == DIAGNOSTIC_CAPACITY
    modifies if diagnostic != null then {diagnostic.message} else {}
    ensures diagnostic != null && diagnostic.size <= 4 ==> diagnostic.message[..] == old(diagnostic.message[..])
    ensures diagnostic != null && diagnostic.size > 4 ==> exists text: seq<byte> ::
      && Shows(message, if diagnostic.size - 4 < 4096 then diagnostic.size - 4 else 4096, text)
      && diagnostic.message[..] == Written(old(diagnostic.message[..]), text)
  {
    hide Utf8, LongestFit, CutAt;
    if diagnostic == null || diagnostic.size <= MESSAGE_OFFSET {
      return;
    }
    var room := diagnostic.size - MESSAGE_OFFSET;
    var capacity := if room < diagnostic.message.Length then room else diagnostic.message.Length;
    var text := Truncated(message, capacity);
    CopyText(diagnostic.message, text);
  }
}
