/** Copies of argument records: one pass over the record measures, a second writes into one allocation. */
module Capture {
  import opened Collections
  import opened Wrappers
  import opened Bitwise

  const SIZE_MAX: int := 0xFFFF_FFFF_FFFF_FFFF
  newtype size = x: int | 0 <= x <= SIZE_MAX

  /** A trivially copyable type. */
  datatype Unit = Unit(bytes: size, alignment: size)

  /** What a record holds besides plain values: spans, raw arrays and text or byte views. An element of a span is
      its plain bytes, and the slots in them that point to its fields' content. */
  datatype Field =
    | Span(missing: bool, unit: Unit, count: size, elements: Elements)
    | Bytes(missing: bool, unit: Unit, count: size, content: seq<byte>)
    | Buffer(missing: bool, count: size, content: seq<byte>, marked: bool)

  datatype Elements = NoElement | Element(plain: seq<byte>, slots: seq<nat>, fields: Fields, rest: Elements)

  datatype Fields = NoField | Next(field: Field, rest: Fields)

  datatype CopyError = BadAlloc | NullSource

  /** What a copied field points to. */
  datatype Pointer = Null | Sentinel | EmptyText | At(start: nat) | Lent

  /** A byte of memory: plain, or one of the bytes of a pointer. */
  datatype Cell = Data(value: byte) | Part(pointer: Pointer, index: nat)

  datatype Block = Block(start: nat, alignment: nat, content: seq<Cell>)

  /** Where a copy ends, its blocks, and what it gives whoever points to it. */
  datatype Placed<T> = Placed(end: nat, blocks: seq<Block>, value: T)

  const WORD_SIZE: nat := 8

  function Raw(content: seq<byte>): (r: seq<Cell>)
    ensures |r| == |content| && forall i :: 0 <= i < |r| ==> r[i] == Data(content[i])
  {
    seq(|content|, i requires 0 <= i < |content| => Data(content[i]))
  }

  function Word(pointer: Pointer): (r: seq<Cell>)
    ensures |r| == WORD_SIZE && forall i :: 0 <= i < WORD_SIZE ==> r[i] == Part(pointer, i)
  {
    seq(WORD_SIZE, i requires 0 <= i < WORD_SIZE => Part(pointer, i))
  }

  predicate SlotsFit(slots: seq<nat>, bytes: nat) {
    && (forall k :: 0 <= k < |slots| ==> slots[k] + WORD_SIZE <= bytes)
    && (forall j, k :: 0 <= j < k < |slots| ==> slots[j] + WORD_SIZE <= slots[k] || slots[k] + WORD_SIZE <= slots[j])
  }

  /** The cells with those from `at` on replaced. */
  function Overwritten(cells: seq<Cell>, at: nat, word: seq<Cell>): (r: seq<Cell>)
    requires at + |word| <= |cells|
    ensures |r| == |cells|
    ensures forall i :: 0 <= i < |r| ==> r[i] == if at <= i < at + |word| then word[i - at] else cells[i]
  {
    cells[..at] + word + cells[at + |word|..]
  }

  /** An element with its slots set one after the other. */
  function Converted(plain: seq<byte>, slots: seq<nat>, pointers: seq<Pointer>): (r: seq<Cell>)
    requires |slots| == |pointers| && SlotsFit(slots, |plain|)
    ensures |r| == |plain|
  {
    if slots == [] then Raw(plain)
    else
      var n := |slots| - 1;
      SlotsFront(slots, |plain|);
      Overwritten(Converted(plain, slots[..n], pointers[..n]), slots[n], Word(pointers[n]))
  }

  predicate InSlot(slots: seq<nat>, i: nat) {
    exists k :: 0 <= k < |slots| && slots[k] <= i < slots[k] + WORD_SIZE
  }

  lemma ConvertedNext(plain: seq<byte>, slots: seq<nat>, pointers: seq<Pointer>, i: nat)
    requires |slots| == |pointers| && slots != [] && SlotsFit(slots, |plain|) && i < |plain|
    ensures var n := |slots| - 1; var at := slots[n];
      && SlotsFit(slots[..n], |plain|)
      && Converted(plain, slots, pointers)[i] ==
        if at <= i < at + WORD_SIZE then Part(pointers[n], i - at) else Converted(plain, slots[..n], pointers[..n])[i]
  {
    hide SlotsFit, Converted, Overwritten, Word;
    ConvertedLast(plain, slots, pointers);
  }

  lemma ConvertedLast(plain: seq<byte>, slots: seq<nat>, pointers: seq<Pointer>)
    requires |slots| == |pointers| && slots != [] && SlotsFit(slots, |plain|)
    ensures var n := |slots| - 1;
      && SlotsFit(slots[..n], |plain|) && slots[n] + WORD_SIZE <= |plain|
      && Converted(plain, slots, pointers) == Overwritten(Converted(plain, slots[..n], pointers[..n]), slots[n], Word(pointers[n]))
  {
    hide SlotsFit, Overwritten, Word, Raw;
    SlotsFront(slots, |plain|);
  }

  /** In each slot an element has that slot's pointer. */
  lemma {:induction false} ConvertedSlot(plain: seq<byte>, slots: seq<nat>, pointers: seq<Pointer>, k: nat, j: nat)
    requires |slots| == |pointers| && SlotsFit(slots, |plain|) && k < |slots| && j < WORD_SIZE
    ensures slots[k] + WORD_SIZE <= |plain| && Converted(plain, slots, pointers)[slots[k] + j] == Part(pointers[k], j)
  {
    hide Converted, SlotsFit;
    var n := |slots| - 1;
    SlotsApart(slots, |plain|, k, n);
    SlotsFront(slots, |plain|);
    ConvertedNext(plain, slots, pointers, slots[k] + j);
    if k < n {
      ConvertedSlot(plain, slots[..n], pointers[..n], k, j);
    }
  }

  lemma SlotsApart(slots: seq<nat>, bytes: nat, j: nat, k: nat)
    requires SlotsFit(slots, bytes) && j <= k < |slots|
    ensures slots[j] + WORD_SIZE <= bytes
    ensures j < k ==> slots[j] + WORD_SIZE <= slots[k] || slots[k] + WORD_SIZE <= slots[j]
  {
  }

  /** Outside the slots an element keeps its plain bytes. */
  lemma {:induction false} ConvertedPlain(plain: seq<byte>, slots: seq<nat>, pointers: seq<Pointer>, i: nat)
    requires |slots| == |pointers| && SlotsFit(slots, |plain|) && i < |plain| && !InSlot(slots, i)
    ensures Converted(plain, slots, pointers)[i] == Data(plain[i])
  {
    if slots != [] {
      hide Converted, SlotsFit, InSlot;
      var n := |slots| - 1;
      SlotsFront(slots, |plain|);
      ConvertedNext(plain, slots, pointers, i);
      InFront(slots, i);
      ConvertedPlain(plain, slots[..n], pointers[..n], i);
    }
  }

  lemma SlotsFront(slots: seq<nat>, bytes: nat)
    requires slots != [] && SlotsFit(slots, bytes)
    ensures SlotsFit(slots[..|slots| - 1], bytes) && slots[|slots| - 1] + WORD_SIZE <= bytes
  {
  }

  lemma InFront(slots: seq<nat>, i: nat)
    requires slots != []
    ensures var n := |slots| - 1; InSlot(slots, i) <==> InSlot(slots[..n], i) || slots[n] <= i < slots[n] + WORD_SIZE
  {
    var n := |slots| - 1;
    if InSlot(slots[..n], i) {
      var k :| 0 <= k < n && slots[..n][k] <= i < slots[..n][k] + WORD_SIZE;
      assert slots[k] <= i < slots[k] + WORD_SIZE;
    }
    if InSlot(slots, i) {
      var k :| 0 <= k < |slots| && slots[k] <= i < slots[k] + WORD_SIZE;
      assert k < n ==> slots[..n][k] == slots[k];
    }
  }

  predicate ValidUnit(unit: Unit) {
    unit.bytes > 0 && unit.alignment > 0
  }

  /** The bytes that `count` values take. */
  function Extent(count: nat, bytes: nat): nat {
    count * bytes
  }

  function Count(elements: Elements): nat {
    if elements.NoElement? then 0 else 1 + Count(elements.rest)
  }

  function FieldCount(fields: Fields): nat {
    if fields.NoField? then 0 else 1 + FieldCount(fields.rest)
  }

  /** The counts that a record gives are those of what it points to. */
  predicate ValidField(f: Field)
    decreases f
  {
    match f
    case Span(_, unit, count, elements) => ValidUnit(unit) && Count(elements) == count as nat && ValidElements(elements, unit)
    case Bytes(_, unit, count, content) => ValidUnit(unit) && |content| == Extent(count as nat, unit.bytes as nat)
    case Buffer(_, count, content, _) => |content| == count as nat
  }

  predicate ValidElements(elements: Elements, unit: Unit)
    decreases elements
  {
    elements.Element? ==>
      && |elements.plain| == unit.bytes as nat && SlotsFit(elements.slots, |elements.plain|)
      && |elements.slots| == FieldCount(elements.fields)
      && ValidFields(elements.fields) && ValidElements(elements.rest, unit)
  }

  predicate ValidFields(fields: Fields)
    decreases fields
  {
    fields.Next? ==> ValidField(fields.field) && ValidFields(fields.rest)
  }

  // Where everything goes ----------------------------------------------------

  function AlignUp(offset: nat, alignment: nat): (r: nat)
    requires alignment > 0
    ensures offset <= r < offset + alignment
  {
    offset + (alignment - offset % alignment) % alignment
  }

  lemma AlignUpAligns(offset: nat, alignment: nat)
    requires alignment > 0
    ensures AlignUp(offset, alignment) % alignment == 0
  {
    var q, r := offset / alignment, offset % alignment;
    if r == 0 {
      DivisionIs(alignment, alignment, 1, 0);
    } else {
      DivisionIs(alignment - r, alignment, 0, alignment - r);
      Turns(offset, alignment, q, r);
      DivisionIs(offset - r + alignment, alignment, q + 1, 0);
    }
  }

  lemma Turns(offset: nat, alignment: nat, q: nat, r: nat)
    requires alignment > 0 && q == offset / alignment && r == offset % alignment
    ensures offset - r == q * alignment && offset - r + alignment == (q + 1) * alignment
  {
  }

  /** A block of the given content at the first aligned place, if it fits. */
  function Place(offset: nat, capacity: nat, alignment: nat, content: seq<Cell>): Result<Placed<Pointer>, CopyError>
    requires alignment > 0
  {
    var start := AlignUp(offset, alignment);
    if start + |content| > capacity then Failure(BadAlloc)
    else Success(Placed(start + |content|, [Block(start, alignment, content)], At(start)))
  }

  /** A span's own block before those of its elements. */
  function Around(start: nat, alignment: nat, inner: Placed<seq<Cell>>): Placed<Pointer> {
    Placed(inner.end, [Block(start, alignment, inner.value)] + inner.blocks, At(start))
  }

  function PlaceField(f: Field, offset: nat, capacity: nat, borrow: bool): (r: Result<Placed<Pointer>, CopyError>)
    requires ValidField(f)
    decreases f
  {
    match f
    case Span(missing, unit, count, elements) =>
      if count == 0 then Success(Placed(offset, [], if missing then Null else Sentinel))
      else if missing then Failure(NullSource)
      else
        var start := AlignUp(offset, unit.alignment as nat);
        var end := start + Extent(count as nat, unit.bytes as nat);
        if end > capacity then Failure(BadAlloc)
        else
          var inner := PlaceElements(elements, unit, end, capacity, borrow);
          if inner.Failure? then Failure(inner.error) else Success(Around(start, unit.alignment as nat, inner.value))
    case Bytes(missing, unit, count, content) =>
      if count == 0 then Success(Placed(offset, [], if missing then Null else Sentinel))
      else if missing then Failure(NullSource)
      else Place(offset, capacity, unit.alignment as nat, Raw(content))
    case Buffer(missing, count, content, marked) =>
      if count == 0 then Success(Placed(offset, [], EmptyText))
      else if missing then Failure(NullSource)
      else if marked && borrow then Success(Placed(offset, [], Lent))
      else Place(offset, capacity, 1, Raw(content + [0]))
  }

  /** The elements' blocks, and their images one behind the other. */
  function PlaceElements(elements: Elements, unit: Unit, offset: nat, capacity: nat, borrow: bool)
    : (r: Result<Placed<seq<Cell>>, CopyError>)
    requires ValidElements(elements, unit)
    decreases elements
  {
    if elements.NoElement? then Success(Placed(offset, [], []))
    else
      var first := PlaceFields(elements.fields, offset, capacity, borrow);
      if first.Failure? then Failure(first.error)
      else
        var rest := PlaceElements(elements.rest, unit, first.value.end, capacity, borrow);
        if rest.Failure? then rest
        else
          var image := Converted(elements.plain, elements.slots, first.value.value);
          Success(Placed(rest.value.end, first.value.blocks + rest.value.blocks, image + rest.value.value))
  }

  /** The fields' blocks, and the pointer to each. */
  function PlaceFields(fields: Fields, offset: nat, capacity: nat, borrow: bool): (r: Result<Placed<seq<Pointer>>, CopyError>)
    requires ValidFields(fields)
    ensures r.Success? ==> |r.value.value| == FieldCount(fields)
    decreases fields
  {
    if fields.NoField? then Success(Placed(offset, [], []))
    else
      match PlaceField(fields.field, offset, capacity, borrow)
      case Failure(error) => Failure(error)
      case Success(first) =>
        match PlaceFields(fields.rest, first.end, capacity, borrow)
        case Failure(error) => Failure(error)
        case Success(rest) => Success(Placed(rest.end, first.blocks + rest.blocks, [first.value] + rest.value))
  }

  /** As many bytes of images as the elements take. */
  lemma {:induction false} ImagesLength(elements: Elements, unit: Unit, offset: nat, capacity: nat, borrow: bool)
    requires ValidElements(elements, unit) && PlaceElements(elements, unit, offset, capacity, borrow).Success?
    ensures |PlaceElements(elements, unit, offset, capacity, borrow).value.value| == Extent(Count(elements), unit.bytes as nat)
    decreases elements
  {
    hide Extent, Converted, PlaceFields;
    ExtentNext(0, unit.bytes as nat);
    if elements.Element? {
      var first := PlaceFields(elements.fields, offset, capacity, borrow).value;
      ImagesLength(elements.rest, unit, first.end, capacity, borrow);
      ExtentNext(Count(elements.rest), unit.bytes as nat);
    }
  }

  /** Aligned blocks one after the other, between two offsets. */
  predicate Layout(blocks: seq<Block>, from: nat, to: nat)
    decreases |blocks|
  {
    if blocks == [] then from <= to
    else
      var b := blocks[0];
      && from <= b.start && b.alignment > 0 && b.start % b.alignment == 0
      && Layout(blocks[1..], b.start + |b.content|, to)
  }

  lemma {:induction false} LayoutGrows(blocks: seq<Block>, from: nat, to: nat)
    requires Layout(blocks, from, to)
    ensures from <= to
  {
    if blocks != [] {
      LayoutGrows(blocks[1..], blocks[0].start + |blocks[0].content|, to);
    }
  }

  lemma {:induction false} LayoutConcat(a: seq<Block>, b: seq<Block>, from: nat, middle: nat, to: nat)
    requires Layout(a, from, middle) && Layout(b, middle, to)
    ensures Layout(a + b, from, to)
  {
    if a == [] {
      assert a + b == b;
      LayoutLower(b, from, middle, to);
    } else {
      assert (a + b)[1..] == a[1..] + b;
      LayoutConcat(a[1..], b, a[0].start + |a[0].content|, middle, to);
    }
  }

  lemma LayoutLower(blocks: seq<Block>, from: nat, middle: nat, to: nat)
    requires from <= middle && Layout(blocks, middle, to)
    ensures Layout(blocks, from, to)
  {
  }

  /** What a layout means: aligned blocks, apart from each other, between the two offsets. */
  lemma {:induction false} LayoutMeans(blocks: seq<Block>, from: nat, to: nat, i: nat, j: nat)
    requires Layout(blocks, from, to) && i < j <= |blocks|
    ensures blocks[i].alignment > 0 && blocks[i].start % blocks[i].alignment == 0
    ensures from <= blocks[i].start && blocks[i].start + |blocks[i].content| <= to
    ensures j < |blocks| ==> blocks[i].start + |blocks[i].content| <= blocks[j].start
  {
    var end := blocks[0].start + |blocks[0].content|;
    LayoutGrows(blocks[1..], end, to);
    if i > 0 {
      LayoutMeans(blocks[1..], end, to, i - 1, j - 1);
    } else if 0 < j < |blocks| {
      LayoutMeans(blocks[1..], end, to, j - 1, j);
    }
  }

  /** A successful copy lays its blocks out between where it started and where it ended, and it comes
      out the same with any capacity that reaches its end. */
  lemma {:induction false} FieldPlaced(f: Field, offset: nat, capacity: nat, borrow: bool, other: nat)
    requires ValidField(f) && offset <= capacity && PlaceField(f, offset, capacity, borrow).Success?
    ensures var p := PlaceField(f, offset, capacity, borrow).value;
      && Layout(p.blocks, offset, p.end) && p.end <= capacity
      && (p.end <= other ==> PlaceField(f, offset, other, borrow) == Success(p))
      && (offset <= other < p.end ==> PlaceField(f, offset, other, borrow) == Failure(BadAlloc))
    decreases f
  {
    hide Place, Layout, Raw, Extent, PlaceElements, AlignUp;
    match f
    case Span(missing, unit, count, elements) =>
      if count == 0 {
        NoBlocks(offset);
      } else {
        var start := AlignUp(offset, unit.alignment as nat);
        var end := start + Extent(count as nat, unit.bytes as nat);
        ElementsPlaced(elements, unit, end, capacity, borrow, other);
        ImagesLength(elements, unit, end, capacity, borrow);
        var inner := PlaceElements(elements, unit, end, capacity, borrow).value;
        LayoutGrows(inner.blocks, end, inner.end);
        SpanPlaced(offset, unit.alignment as nat, inner);
      }
    case Bytes(missing, unit, count, content) =>
      if count != 0 {
        BlockPlaced(offset, capacity, unit.alignment as nat, Raw(content), other);
      } else {
        NoBlocks(offset);
      }
    case Buffer(missing, count, content, marked) =>
      if count != 0 && !(marked && borrow) {
        BlockPlaced(offset, capacity, 1, Raw(content + [0]), other);
      } else {
        NoBlocks(offset);
      }
  }

  lemma BlockPlaced(offset: nat, capacity: nat, alignment: nat, content: seq<Cell>, other: nat)
    requires alignment > 0 && Place(offset, capacity, alignment, content).Success?
    ensures var p := Place(offset, capacity, alignment, content).value;
      && Layout(p.blocks, offset, p.end) && p.end <= capacity
      && Place(offset, other, alignment, content) == if p.end <= other then Success(p) else Failure(BadAlloc)
  {
    hide AlignUp;
    AlignUpAligns(offset, alignment);
    var own := [Block(AlignUp(offset, alignment), alignment, content)];
    assert own[1..] == [];
  }

  lemma SpanPlaced(offset: nat, alignment: nat, inner: Placed<seq<Cell>>)
    requires alignment > 0
    requires Layout(inner.blocks, AlignUp(offset, alignment) + |inner.value|, inner.end)
    ensures Layout(Around(AlignUp(offset, alignment), alignment, inner).blocks, offset, inner.end)
  {
    AlignUpAligns(offset, alignment);
    hide AlignUp;
    var own := [Block(AlignUp(offset, alignment), alignment, inner.value)];
    assert (own + inner.blocks)[1..] == inner.blocks;
  }

  lemma NoBlocks(offset: nat)
    ensures Layout([], offset, offset)
  {
  }

  lemma {:induction false} ElementsPlaced(elements: Elements, unit: Unit, offset: nat, capacity: nat, borrow: bool, other: nat)
    requires ValidElements(elements, unit) && offset <= capacity
    requires PlaceElements(elements, unit, offset, capacity, borrow).Success?
    ensures var p := PlaceElements(elements, unit, offset, capacity, borrow).value;
      && Layout(p.blocks, offset, p.end) && p.end <= capacity
      && (p.end <= other ==> PlaceElements(elements, unit, offset, other, borrow) == Success(p))
      && (offset <= other < p.end ==> PlaceElements(elements, unit, offset, other, borrow) == Failure(BadAlloc))
    decreases elements
  {
    if elements.Element? {
      FieldsPlaced(elements.fields, offset, capacity, borrow, other);
      var first := PlaceFields(elements.fields, offset, capacity, borrow).value;
      ElementsPlaced(elements.rest, unit, first.end, capacity, borrow, other);
      var rest := PlaceElements(elements.rest, unit, first.end, capacity, borrow).value;
      LayoutGrows(rest.blocks, first.end, rest.end);
      LayoutConcat(first.blocks, rest.blocks, offset, first.end, rest.end);
    }
  }

  lemma {:induction false} FieldsPlaced(fields: Fields, offset: nat, capacity: nat, borrow: bool, other: nat)
    requires ValidFields(fields) && offset <= capacity && PlaceFields(fields, offset, capacity, borrow).Success?
    ensures var p := PlaceFields(fields, offset, capacity, borrow).value;
      && Layout(p.blocks, offset, p.end) && p.end <= capacity
      && (p.end <= other ==> PlaceFields(fields, offset, other, borrow) == Success(p))
      && (offset <= other < p.end ==> PlaceFields(fields, offset, other, borrow) == Failure(BadAlloc))
    decreases fields
  {
    if fields.Next? {
      FieldPlaced(fields.field, offset, capacity, borrow, other);
      var first := PlaceField(fields.field, offset, capacity, borrow).value;
      FieldsPlaced(fields.rest, first.end, capacity, borrow, other);
      var rest := PlaceFields(fields.rest, first.end, capacity, borrow).value;
      LayoutGrows(rest.blocks, first.end, rest.end);
      LayoutConcat(first.blocks, rest.blocks, offset, first.end, rest.end);
    }
  }

  // When a copy fails ----------------------------------------------------------

  /** No view that is not empty, here or in an element, lacks its storage. */
  predicate Present(f: Field)
    decreases f
  {
    f.count == 0 || (!f.missing && (f.Span? ==> ElementsPresent(f.elements)))
  }

  predicate ElementsPresent(elements: Elements)
    decreases elements
  {
    elements.Element? ==> FieldsPresent(elements.fields) && ElementsPresent(elements.rest)
  }

  predicate FieldsPresent(fields: Fields)
    decreases fields
  {
    fields.Next? ==> Present(fields.field) && FieldsPresent(fields.rest)
  }

  /** A copy that succeeds met no missing storage, and one that meets none fails for want of room only. */
  lemma {:induction false} FieldFaults(f: Field, offset: nat, capacity: nat, borrow: bool)
    requires ValidField(f)
    ensures var r := PlaceField(f, offset, capacity, borrow);
      (r.Success? ==> Present(f)) && (r.Failure? && Present(f) ==> r.error == BadAlloc)
    decreases f
  {
    hide Place, Raw, Extent, PlaceElements, AlignUp;
    if f.Span? && f.count != 0 {
      var end := AlignUp(offset, f.unit.alignment as nat) + Extent(f.count as nat, f.unit.bytes as nat);
      ElementsFaults(f.elements, f.unit, end, capacity, borrow);
    }
    PlaceFaults(offset, capacity);
  }

  lemma PlaceFaults(offset: nat, capacity: nat)
    ensures forall alignment: nat, content: seq<Cell> :: alignment > 0 && Place(offset, capacity, alignment, content).Failure? ==>
      Place(offset, capacity, alignment, content).error == BadAlloc
  {
  }

  lemma {:induction false} ElementsFaults(elements: Elements, unit: Unit, offset: nat, capacity: nat, borrow: bool)
    requires ValidElements(elements, unit)
    ensures var r := PlaceElements(elements, unit, offset, capacity, borrow);
      (r.Success? ==> ElementsPresent(elements)) && (r.Failure? && ElementsPresent(elements) ==> r.error == BadAlloc)
    decreases elements
  {
    if elements.Element? {
      FieldsFaults(elements.fields, offset, capacity, borrow);
      var first := PlaceFields(elements.fields, offset, capacity, borrow);
      if first.Success? {
        ElementsFaults(elements.rest, unit, first.value.end, capacity, borrow);
      }
    }
  }

  lemma {:induction false} FieldsFaults(fields: Fields, offset: nat, capacity: nat, borrow: bool)
    requires ValidFields(fields)
    ensures var r := PlaceFields(fields, offset, capacity, borrow);
      (r.Success? ==> FieldsPresent(fields)) && (r.Failure? && FieldsPresent(fields) ==> r.error == BadAlloc)
    decreases fields
  {
    hide PlaceField;
    if fields.Next? {
      FieldFaults(fields.field, offset, capacity, borrow);
      var first := PlaceField(fields.field, offset, capacity, borrow);
      if first.Success? {
        FieldsFaults(fields.rest, first.value.end, capacity, borrow);
      }
    }
  }

  /** There is an end that a copy with all its storage reaches. */
  lemma {:induction false} FieldFits(f: Field, offset: nat, borrow: bool) returns (end: nat)
    requires ValidField(f) && Present(f)
    ensures end >= offset && PlaceField(f, offset, end, borrow).Success?
    decreases f
  {
    hide Raw, Extent, PlaceElements, AlignUp;
    match f
    case Span(missing, unit, count, elements) =>
      end := offset;
      if count != 0 {
        end := ElementsFit(elements, unit, AlignUp(offset, unit.alignment as nat) + Extent(count as nat, unit.bytes as nat), borrow);
      }
    case Bytes(missing, unit, count, content) =>
      end := if count == 0 then offset else AlignUp(offset, unit.alignment as nat) + |content|;
    case Buffer(missing, count, content, marked) =>
      end := if count == 0 then offset else AlignUp(offset, 1) + |content| + 1;
  }

  lemma {:induction false} ElementsFit(elements: Elements, unit: Unit, offset: nat, borrow: bool) returns (end: nat)
    requires ValidElements(elements, unit) && ElementsPresent(elements)
    ensures end >= offset && PlaceElements(elements, unit, offset, end, borrow).Success?
    decreases elements
  {
    hide PlaceFields;
    end := offset;
    if elements.Element? {
      var near := FieldsFit(elements.fields, offset, borrow);
      var first := PlaceFields(elements.fields, offset, near, borrow).value;
      var middle := first.end;
      FieldsPlaced(elements.fields, offset, near, borrow, middle);
      LayoutGrows(first.blocks, offset, middle);
      var far := ElementsFit(elements.rest, unit, middle, borrow);
      FieldsPlaced(elements.fields, offset, near, borrow, far);
      end := far;
    }
  }

  lemma {:induction false} FieldsFit(fields: Fields, offset: nat, borrow: bool) returns (end: nat)
    requires ValidFields(fields) && FieldsPresent(fields)
    ensures end >= offset && PlaceFields(fields, offset, end, borrow).Success?
    decreases fields
  {
    hide PlaceField;
    end := offset;
    if fields.Next? {
      var near := FieldFits(fields.field, offset, borrow);
      var first := PlaceField(fields.field, offset, near, borrow).value;
      var middle := first.end;
      FieldPlaced(fields.field, offset, near, borrow, middle);
      LayoutGrows(first.blocks, offset, middle);
      var far := FieldsFit(fields.rest, middle, borrow);
      FieldPlaced(fields.field, offset, near, borrow, far);
      end := far;
    }
  }

  // Memory -------------------------------------------------------------------

  /** The memory holds every block's content. */
  ghost predicate Holds(memory: seq<Cell>, blocks: seq<Block>) {
    forall i :: 0 <= i < |blocks| ==>
      && blocks[i].start + |blocks[i].content| <= |memory|
      && memory[blocks[i].start..blocks[i].start + |blocks[i].content|] == blocks[i].content
  }

  ghost predicate Same(a: seq<Cell>, b: seq<Cell>, from: nat, to: nat) {
    |a| == |b| && forall i :: from <= i < to && i < |a| ==> a[i] == b[i]
  }

  /** A copy wrote its blocks, and touched nothing outside them and their padding. */
  ghost predicate Copied<T>(before: seq<Cell>, after: seq<Cell>, from: nat, p: Placed<T>) {
    && Layout(p.blocks, from, p.end) && p.end <= |after|
    && Holds(after, p.blocks)
    && Same(before, after, 0, from) && Same(before, after, p.end, |after|)
  }

  lemma HoldsKept(before: seq<Cell>, after: seq<Cell>, blocks: seq<Block>, from: nat, to: nat)
    requires Layout(blocks, from, to) && Holds(before, blocks) && Same(before, after, from, to)
    ensures Holds(after, blocks)
  {
    forall i | 0 <= i < |blocks|
      ensures blocks[i].start + |blocks[i].content| <= |after|
      ensures after[blocks[i].start..blocks[i].start + |blocks[i].content|] == blocks[i].content
    {
      LayoutMeans(blocks, from, to, i, |blocks|);
      assert before[blocks[i].start..blocks[i].start + |blocks[i].content|] == blocks[i].content;
      RangeKept(before, after, from, to, blocks[i].start, blocks[i].start + |blocks[i].content|);
    }
  }

  lemma RangeKept(before: seq<Cell>, after: seq<Cell>, from: nat, to: nat, i: nat, j: nat)
    requires Same(before, after, from, to) && from <= i <= j <= to && j <= |before|
    ensures after[i..j] == before[i..j]
  {
  }

  lemma HoldsBoth(memory: seq<Cell>, a: seq<Block>, b: seq<Block>)
    requires Holds(memory, a) && Holds(memory, b)
    ensures Holds(memory, a + b)
  {
  }

  /** One copy and then another behind it are a copy of both. */
  lemma CopiedBoth<T, U, V>(m0: seq<Cell>, m1: seq<Cell>, m2: seq<Cell>, from: nat, p: Placed<T>, q: Placed<U>, value: V)
    requires Copied(m0, m1, from, p) && Copied(m1, m2, p.end, q)
    ensures Copied(m0, m2, from, Placed(q.end, p.blocks + q.blocks, value))
  {
    hide Layout, Holds;
    LayoutGrows(p.blocks, from, p.end);
    LayoutGrows(q.blocks, p.end, q.end);
    LayoutConcat(p.blocks, q.blocks, from, p.end, q.end);
    HoldsKept(m1, m2, p.blocks, from, p.end);
    HoldsBoth(m2, p.blocks, q.blocks);
  }

  lemma CopiedBlock(before: seq<Cell>, after: seq<Cell>, from: nat, b: Block)
    requires b.alignment > 0 && b.start % b.alignment == 0 && from <= b.start && b.start + |b.content| <= |after|
    requires after[b.start..b.start + |b.content|] == b.content
    requires Same(before, after, 0, b.start) && Same(before, after, b.start + |b.content|, |after|)
    ensures Copied(before, after, from, Placed(b.start + |b.content|, [b], At(b.start)))
  {
    assert [b][1..] == [];
  }

  lemma CopiedNothing<T>(memory: seq<Cell>, from: nat, value: T)
    requires from <= |memory|
    ensures Copied(memory, memory, from, Placed(from, [], value))
  {
  }

  lemma RoomFor(count: nat, room: nat, bytes: nat)
    requires bytes > 0
    ensures count <= room / bytes <==> Extent(count, bytes) <= room
  {
    var q := room / bytes;
    assert q * bytes <= room < q * bytes + bytes;
    if count <= q {
      ExtentGrows(count, q, bytes);
    } else {
      ExtentGrows(q + 1, count, bytes);
      assert (q + 1) * bytes == q * bytes + bytes;
    }
  }

  lemma ExtentGrows(m: nat, n: nat, bytes: nat)
    requires m <= n
    ensures Extent(m, bytes) <= Extent(n, bytes)
  {
    assert n * bytes == m * bytes + (n - m) * bytes;
  }

  lemma ExtentNext(count: nat, bytes: nat)
    ensures Extent(0, bytes) == 0 && Extent(1 + count, bytes) == bytes + Extent(count, bytes)
    ensures Extent(count, 1) == count
  {
  }

  /** A span some of whose elements are converted: their images are written, and what they point to. */
  ghost predicate Spanning(m0: seq<Cell>, memory: seq<Cell>, from: nat, start: nat, end: nat, inner: Placed<seq<Cell>>) {
    var images := inner.value;
    && from <= start && start + |images| <= end && |m0| == |memory| && inner.end <= |memory|
    && Layout(inner.blocks, end, inner.end) && Holds(memory, inner.blocks)
    && memory[start..start + |images|] == images
    && Same(m0, memory, 0, from) && Same(m0, memory, inner.end, |memory|)
  }

  lemma SameBoth(m0: seq<Cell>, m1: seq<Cell>, m2: seq<Cell>, from: nat, to: nat)
    requires Same(m0, m1, from, to) && Same(m1, m2, from, to)
    ensures Same(m0, m2, from, to)
  {
  }

  lemma SameWithin(m0: seq<Cell>, m1: seq<Cell>, from: nat, to: nat, i: nat, j: nat)
    requires Same(m0, m1, from, to) && from <= i && j <= to
    ensures Same(m0, m1, i, j)
  {
  }

  lemma SpanStarts(memory: seq<Cell>, from: nat, start: nat, end: nat)
    requires from <= start <= end <= |memory|
    ensures Spanning(memory, memory, from, start, end, Placed(end, [], []))
  {
  }

  lemma SpanHolds<T>(m0: seq<Cell>, m1: seq<Cell>, m2: seq<Cell>, m3: seq<Cell>, from: nat, start: nat,
                     image: seq<Cell>, end: nat, inner: Placed<seq<Cell>>, p: Placed<T>)
    requires Spanning(m0, m1, from, start, end, inner) && start + |inner.value| + |image| <= end
    requires Copied(m1, m2, inner.end, p)
    requires Same(m2, m3, 0, start + |inner.value|) && Same(m2, m3, start + |inner.value| + |image|, |m2|)
    ensures |m0| == |m3| && p.end <= |m3| && Holds(m3, inner.blocks + p.blocks) && Layout(inner.blocks + p.blocks, end, p.end)
  {
    hide Layout, Holds, Same;
    var pos := start + |inner.value|;
    LayoutGrows(inner.blocks, end, inner.end);
    LayoutGrows(p.blocks, inner.end, p.end);
    LayoutConcat(inner.blocks, p.blocks, end, inner.end, p.end);
    SizesAgree(m0, m1, m2, m3, from, inner.end, pos);
    SameWithin(m1, m2, 0, inner.end, end, inner.end);
    HoldsKept(m1, m2, inner.blocks, end, inner.end);
    SameWithin(m2, m3, pos + |image|, |m2|, end, inner.end);
    HoldsKept(m2, m3, inner.blocks, end, inner.end);
    SameWithin(m2, m3, pos + |image|, |m2|, inner.end, p.end);
    HoldsKept(m2, m3, p.blocks, inner.end, p.end);
    HoldsBoth(m3, inner.blocks, p.blocks);
  }

  lemma SpanImages<T>(m0: seq<Cell>, m1: seq<Cell>, m2: seq<Cell>, m3: seq<Cell>, from: nat, start: nat,
                      image: seq<Cell>, end: nat, inner: Placed<seq<Cell>>, p: Placed<T>)
    requires Spanning(m0, m1, from, start, end, inner) && start + |inner.value| + |image| <= end
    requires Copied(m1, m2, inner.end, p)
    requires Same(m2, m3, 0, start + |inner.value|) && Same(m2, m3, start + |inner.value| + |image|, |m2|)
    requires m3[start + |inner.value|..start + |inner.value| + |image|] == image
    ensures m3[start..start + |inner.value + image|] == inner.value + image
  {
    hide Layout, Holds, Same;
    var pos := start + |inner.value|;
    LayoutGrows(inner.blocks, end, inner.end);
    SizesAgree(m0, m1, m2, m3, from, inner.end, pos);
    RangeKept(m1, m2, 0, inner.end, start, pos);
    RangeKept(m2, m3, 0, pos, start, pos);
    Adjacent(m3, start, inner.value, image);
  }

  lemma SpanSame<T>(m0: seq<Cell>, m1: seq<Cell>, m2: seq<Cell>, m3: seq<Cell>, from: nat, start: nat,
                    image: seq<Cell>, end: nat, inner: Placed<seq<Cell>>, p: Placed<T>)
    requires Spanning(m0, m1, from, start, end, inner) && start + |inner.value| + |image| <= end
    requires Copied(m1, m2, inner.end, p)
    requires Same(m2, m3, 0, start + |inner.value|) && Same(m2, m3, start + |inner.value| + |image|, |m2|)
    ensures Same(m0, m3, 0, from) && Same(m0, m3, p.end, |m3|)
  {
    hide Layout, Holds, Same;
    var pos := start + |inner.value|;
    LayoutGrows(inner.blocks, end, inner.end);
    LayoutGrows(p.blocks, inner.end, p.end);
    SizesAgree(m0, m1, m2, m3, from, inner.end, pos);
    SameWithin(m1, m2, 0, inner.end, 0, from);
    SameWithin(m2, m3, 0, pos, 0, from);
    SameBoth(m0, m1, m2, 0, from);
    SameBoth(m0, m2, m3, 0, from);
    SameWithin(m0, m1, inner.end, |m1|, p.end, |m1|);
    SameWithin(m2, m3, pos + |image|, |m2|, p.end, |m2|);
    SameBoth(m0, m1, m2, p.end, |m1|);
    SameBoth(m0, m2, m3, p.end, |m1|);
  }

  /** Converting an element writes behind the span, and then the element's image inside it. */
  lemma SpanStep<T>(m0: seq<Cell>, m1: seq<Cell>, m2: seq<Cell>, m3: seq<Cell>, from: nat, start: nat,
                    image: seq<Cell>, end: nat, inner: Placed<seq<Cell>>, p: Placed<T>)
    requires Spanning(m0, m1, from, start, end, inner) && start + |inner.value| + |image| <= end
    requires Copied(m1, m2, inner.end, p)
    requires Same(m2, m3, 0, start + |inner.value|) && Same(m2, m3, start + |inner.value| + |image|, |m2|)
    requires m3[start + |inner.value|..start + |inner.value| + |image|] == image
    ensures Spanning(m0, m3, from, start, end, Placed(p.end, inner.blocks + p.blocks, inner.value + image))
  {
    hide Layout, Holds, Same;
    SpanHolds(m0, m1, m2, m3, from, start, image, end, inner, p);
    SpanImages(m0, m1, m2, m3, from, start, image, end, inner, p);
    SpanSame(m0, m1, m2, m3, from, start, image, end, inner, p);
    LayoutGrows(inner.blocks + p.blocks, end, p.end);
  }

  lemma SizesAgree(m0: seq<Cell>, m1: seq<Cell>, m2: seq<Cell>, m3: seq<Cell>, from: nat, to: nat, pos: nat)
    requires Same(m0, m1, 0, from) && Same(m1, m2, 0, to) && Same(m2, m3, 0, pos)
    ensures |m0| == |m1| == |m2| == |m3|
  {
  }

  lemma Adjacent(memory: seq<Cell>, start: nat, a: seq<Cell>, b: seq<Cell>)
    requires start + |a| + |b| <= |memory|
    requires memory[start..start + |a|] == a && memory[start + |a|..start + |a| + |b|] == b
    ensures memory[start..start + |a + b|] == a + b
  {
  }

  lemma SpanDone(m0: seq<Cell>, memory: seq<Cell>, from: nat, start: nat, alignment: nat, inner: Placed<seq<Cell>>)
    requires Spanning(m0, memory, from, start, start + |inner.value|, inner)
    requires alignment > 0 && start % alignment == 0
    ensures Copied(m0, memory, from, Around(start, alignment, inner))
  {
    hide Same;
    var end := start + |inner.value|;
    var own := [Block(start, alignment, inner.value)];
    LayoutGrows(inner.blocks, end, inner.end);
    assert Layout(own, from, end) by { assert own[1..] == []; }
    LayoutConcat(own, inner.blocks, from, end, inner.end);
  }

  // The passes ---------------------------------------------------------------

  class Arena {
    const writing: bool
    const storage: array<Cell>
    var offset: size
    const capacity: size
    const borrow: bool

    /** A measuring pass has no storage to write to. */
    ghost predicate Valid()
      reads this
    {
      offset <= capacity && storage.Length == if writing then capacity as nat else 0
    }

    constructor Measuring(header: size, borrow: bool)
      ensures Valid() && !writing && offset == header && this.borrow == borrow
      ensures capacity == 0xFFFF_FFFF_FFFF_FFFF
      ensures fresh(storage)
    {
      writing, storage, offset, capacity, this.borrow := false, new Cell[0], header, SIZE_MAX as size, borrow;
    }

    constructor Writing(storage: array<Cell>, header: size, borrow: bool)
      requires header as nat <= storage.Length <= SIZE_MAX
      ensures Valid() && writing && offset == header && capacity as nat == storage.Length && this.borrow == borrow
      ensures this.storage == storage
    {
      writing, this.storage, offset, capacity, this.borrow := true, storage, header, storage.Length as size, borrow;
    }

    /** The next aligned place for `count` values; none of its sums and products wraps, for any count. */
    method Allocate(unit: Unit, count: size) returns (r: Result<Option<size>, CopyError>)
      requires Valid() && ValidUnit(unit)
      modifies `offset
      ensures Valid()
      ensures count == 0 ==> r == Success(None) && offset == old(offset)
      ensures count > 0 ==>
        var start := AlignUp(old(offset) as nat, unit.alignment as nat);
        var end := start + Extent(count as nat, unit.bytes as nat);
        if end <= capacity as nat then
          r.Success? && r.value.Some? && r.value.value as nat == start && offset as nat == end
        else r == Failure(BadAlloc)
    {
      hide AlignUp, Extent;
      if count == 0 {
        return Success(None);
      }
      var fits := Align(unit.alignment);
      if !fits {
        return Failure(BadAlloc);
      }
      var start := offset;
      var taken := Take(count, unit.bytes);
      if !taken {
        return Failure(BadAlloc);
      }
      r := Success(Some(start));
    }

    method Take(count: size, bytes: size) returns (fits: bool)
      requires Valid() && bytes > 0
      modifies `offset
      ensures Valid()
      ensures fits <==> old(offset) as nat + Extent(count as nat, bytes as nat) <= capacity as nat
      ensures fits ==> offset as nat == old(offset) as nat + Extent(count as nat, bytes as nat)
    {
      RoomFor(count as nat, (capacity - offset) as nat, bytes as nat);
      if count > (capacity - offset) / bytes {
        return false;
      }
      offset := offset + count * bytes;
      fits := true;
    }

    method Align(alignment: size) returns (fits: bool)
      requires Valid() && alignment > 0
      modifies `offset
      ensures Valid()
      ensures fits <==> AlignUp(old(offset) as nat, alignment as nat) <= capacity as nat
      ensures fits ==> offset as nat == AlignUp(old(offset) as nat, alignment as nat)
    {
      var padding := (alignment - offset % alignment) % alignment;
      if padding > capacity - offset {
        return false;
      }
      offset := offset + padding;
      fits := true;
    }

    method Write(start: size, content: seq<Cell>)
      requires writing && start as nat + |content| <= storage.Length
      modifies storage
      ensures storage[start as nat..start as nat + |content|] == content
      ensures Same(old(storage[..]), storage[..], 0, start as nat)
      ensures Same(old(storage[..]), storage[..], start as nat + |content|, storage.Length)
    {
      forall i | 0 <= i < |content| {
        storage[start as nat + i] := content[i];
      }
    }

    /** A block and, when writing, its content. */
    method CopyBlock(unit: Unit, count: size, content: seq<Cell>) returns (r: Result<Pointer, CopyError>)
      requires Valid() && ValidUnit(unit) && count > 0 && |content| == Extent(count as nat, unit.bytes as nat)
      modifies this, storage
      ensures Valid() && Outcome(old(storage[..]), storage[..], old(offset) as nat, offset as nat, r,
                                 Place(old(offset) as nat, capacity as nat, unit.alignment as nat, content))
    {
      hide AlignUp, Extent;
      var start := Allocate(unit, count);
      if start.Failure? {
        return Failure(start.error);
      }
      AlignUpAligns(old(offset) as nat, unit.alignment as nat);
      if writing {
        Write(start.value.value, content);
        var block := Block(start.value.value as nat, unit.alignment as nat, content);
        CopiedBlock(old(storage[..]), storage[..], old(offset) as nat, block);
      }
      r := Success(At(start.value.value as nat));
    }

    /** The method's result is the placement's, and a writing pass has copied it. */
    ghost predicate Outcome<T>(before: seq<Cell>, after: seq<Cell>, from: nat, to: nat,
                               r: Result<T, CopyError>, p: Result<Placed<T>, CopyError>) {
      match p
      case Failure(error) => r == Failure(error)
      case Success(placed) =>
        && r == Success(placed.value) && to == placed.end
        && (writing ==> Copied(before, after, from, placed))
    }

    /** One element: its fields, and then its image at its place in the span. */
    method CopyElement(element: Elements, at: size, ghost m0: seq<Cell>, ghost from: nat, ghost start: nat,
                       ghost end: nat, ghost inner: Placed<seq<Cell>>)
      returns (r: Result<(), CopyError>, ghost grown: Placed<seq<Cell>>)
      requires Valid() && element.Element? && ValidFields(element.fields)
      requires SlotsFit(element.slots, |element.plain|) && |element.slots| == FieldCount(element.fields)
      requires inner.end == offset as nat && at as nat == start + |inner.value|
      requires at as nat + |element.plain| <= end <= offset as nat
      requires writing ==> Spanning(m0, storage[..], from, start, end, inner)
      modifies this, storage
      ensures Valid()
      ensures match PlaceFields(element.fields, old(offset) as nat, capacity as nat, borrow)
        case Failure(error) => r == Failure(error)
        case Success(p) =>
          && r.Success? && offset as nat == p.end && grown == Grown(inner, element, p)
          && (writing ==> Spanning(m0, storage[..], from, start, end, grown))
      decreases element.fields, 1
    {
      hide Spanning, Copied, Converted;
      ghost var m1 := storage[..];
      grown := inner;
      var pointers := CopyFields(element.fields);
      if pointers.Failure? {
        return Failure(pointers.error), inner;
      }
      ghost var p := PlaceFields(element.fields, inner.end, capacity as nat, borrow).value;
      PlacedBeyond(element.fields, inner.end, capacity as nat, borrow);
      grown := Grown(inner, element, p);
      if writing {
        ghost var m2 := storage[..];
        var image := Converted(element.plain, element.slots, pointers.value);
        Write(at, image);
        SpanStep(m0, m1, m2, storage[..], from, start, image, end, inner, p);
      }
      r := Success(());
    }

    /** The loop of `span`: `at` is where the next element's image goes. */
    method CopyElements(elements: Elements, unit: Unit, start: size, ghost m0: seq<Cell>, ghost from: nat, ghost end: nat)
      returns (r: Result<(), CopyError>, ghost inner: Placed<seq<Cell>>)
      requires Valid() && ValidElements(elements, unit) && end == offset as nat
      requires from <= start as nat && start as nat + Extent(Count(elements), unit.bytes as nat) == end
      requires writing ==> Spanning(m0, storage[..], from, start as nat, end, Placed(end, [], []))
      modifies this, storage
      ensures Valid()
      ensures match PlaceElements(elements, unit, end, capacity as nat, borrow)
        case Failure(error) => r == Failure(error)
        case Success(placed) =>
          && r.Success? && inner == placed && offset as nat == inner.end
          && (writing ==> Spanning(m0, storage[..], from, start as nat, end, inner))
      decreases elements, 0
    {
      hide Spanning, Copied, AlignUp, PlaceElements, PlaceFields, Behind, Extent, ValidFields, Grown, SlotsFit;
      inner := Placed(end, [], []);
      BehindNothing(end, PlaceElements(elements, unit, end, capacity as nat, borrow));
      var at, rest := start, elements;
      while rest.Element?
        invariant Valid() && ValidElements(rest, unit) && (rest == elements || rest < elements)
        invariant at as nat == start as nat + |inner.value|
        invariant at as nat + Extent(Count(rest), unit.bytes as nat) == end
        invariant inner.end == offset as nat >= end
        invariant PlaceElements(elements, unit, end, capacity as nat, borrow) ==
          Behind(inner, PlaceElements(rest, unit, inner.end, capacity as nat, borrow))
        invariant writing ==> Spanning(m0, storage[..], from, start as nat, end, inner)
        decreases rest
      {
        ElementNext(rest, unit, inner, capacity as nat, borrow);
        PlacedBeyond(rest.fields, inner.end, capacity as nat, borrow);
        ExtentNext(Count(rest.rest), unit.bytes as nat);
        var copied;
        ghost var grown;
        copied, grown := CopyElement(rest, at, m0, from, start as nat, end, inner);
        if copied.Failure? {
          return Failure(copied.error), inner;
        }
        GrownIs(inner, rest, PlaceFields(rest.fields, inner.end, capacity as nat, borrow).value);
        inner := grown;
        at := at + unit.bytes;
        rest := rest.rest;
      }
      BehindEnd(rest, unit, inner, capacity as nat, borrow);
      r := Success(());
    }

    /** `span`: a block for the elements, each of which is converted and then stored in it. */
    method CopySpan(f: Field) returns (r: Result<Pointer, CopyError>)
      requires Valid() && ValidField(f) && f.Span? && !f.missing && f.count > 0
      modifies this, storage
      ensures Valid() && Outcome(old(storage[..]), storage[..], old(offset) as nat, offset as nat, r,
                                 PlaceField(f, old(offset) as nat, capacity as nat, borrow))
      decreases f, 0
    {
      hide Spanning, Copied, AlignUp, PlaceElements, PlaceFields, PlaceField, Place, Extent, Around;
      ghost var from, m0 := offset as nat, storage[..];
      SpanPlace(f, from, capacity as nat, borrow);
      var place := Allocate(f.unit, f.count);
      if place.Failure? {
        return Failure(place.error);
      }
      var start := place.value.value;
      AlignUpAligns(from, f.unit.alignment as nat);
      ghost var end := offset as nat;
      if writing {
        SpanStarts(m0, from, start as nat, end);
      }
      ghost var inner;
      var copied;
      copied, inner := CopyElements(f.elements, f.unit, start, m0, from, end);
      if copied.Failure? {
        return Failure(copied.error);
      }
      ImagesLength(f.elements, f.unit, end, capacity as nat, borrow);
      AroundIs(start as nat, f.unit.alignment as nat, inner);
      if writing {
        SpanDone(m0, storage[..], from, start as nat, f.unit.alignment as nat, inner);
      }
      r := Success(At(start as nat));
    }

    method CopyFields(fields: Fields) returns (r: Result<seq<Pointer>, CopyError>)
      requires Valid() && ValidFields(fields)
      modifies this, storage
      ensures Valid() && Outcome(old(storage[..]), storage[..], old(offset) as nat, offset as nat, r,
                                 PlaceFields(fields, old(offset) as nat, capacity as nat, borrow))
      decreases fields, 0
    {
      hide Copied;
      ghost var from, m0 := offset as nat, storage[..];
      if fields.NoField? {
        if writing {
          CopiedNothing<seq<Pointer>>(m0, from, []);
        }
        return Success([]);
      }
      var first := CopyField(fields.field);
      if first.Failure? {
        return Failure(first.error);
      }
      ghost var m1 := storage[..];
      ghost var p := PlaceField(fields.field, from, capacity as nat, borrow).value;
      var rest := CopyFields(fields.rest);
      if rest.Failure? {
        return rest;
      }
      ghost var q := PlaceFields(fields.rest, p.end, capacity as nat, borrow).value;
      if writing {
        CopiedBoth(m0, m1, storage[..], from, p, q, [p.value] + q.value);
      }
      r := Success([first.value] + rest.value);
    }

    /** One field, by what kind of view it is. */
    method CopyField(f: Field) returns (r: Result<Pointer, CopyError>)
      requires Valid() && ValidField(f)
      modifies this, storage
      ensures Valid() && Outcome(old(storage[..]), storage[..], old(offset) as nat, offset as nat, r,
                                 PlaceField(f, old(offset) as nat, capacity as nat, borrow))
      decreases f, 1
    {
      hide Copied, Place, Extent, ValidElements, Raw, Around;
      if writing && offset as nat <= |storage[..]| {
        CopiedNothing(storage[..], offset as nat, Null);
        CopiedNothing(storage[..], offset as nat, Sentinel);
        CopiedNothing(storage[..], offset as nat, EmptyText);
        CopiedNothing(storage[..], offset as nat, Lent);
      }
      match f
      case Span(missing, unit, count, elements) =>
        if count == 0 {
          return Success(if missing then Null else Sentinel);
        }
        if missing {
          return Failure(NullSource);
        }
        r := CopySpan(f);
      case Bytes(missing, unit, count, content) =>
        if count == 0 {
          return Success(if missing then Null else Sentinel);
        }
        if missing {
          return Failure(NullSource);
        }
        r := CopyBlock(unit, count, Raw(content));
      case Buffer(missing, count, content, marked) =>
        if count == 0 {
          return Success(EmptyText);
        }
        if missing {
          return Failure(NullSource);
        }
        if marked && borrow {
          return Success(Lent);
        }
        if count as int == SIZE_MAX {
          TooLong(offset as nat, capacity as nat, content);
          return Failure(BadAlloc);
        }
        ExtentNext(count as nat + 1, 1);
        r := CopyBlock(Unit(1, 1), count + 1, Raw(content + [0]));
    }
  }

  /** What has been placed, and one more element. */
  ghost function Grown(inner: Placed<seq<Cell>>, element: Elements, p: Placed<seq<Pointer>>): Placed<seq<Cell>>
    requires element.Element? && SlotsFit(element.slots, |element.plain|) && |element.slots| == |p.value|
  {
    Placed(p.end, inner.blocks + p.blocks, inner.value + Converted(element.plain, element.slots, p.value))
  }

  lemma GrownIs(inner: Placed<seq<Cell>>, element: Elements, p: Placed<seq<Pointer>>)
    requires element.Element? && SlotsFit(element.slots, |element.plain|) && |element.slots| == |p.value|
    ensures Grown(inner, element, p).end == p.end
    ensures |Grown(inner, element, p).value| == |inner.value| + |element.plain|
  {
    hide Converted;
  }

  function Behind(inner: Placed<seq<Cell>>, p: Result<Placed<seq<Cell>>, CopyError>): Result<Placed<seq<Cell>>, CopyError> {
    if p.Failure? then p else Success(Placed(p.value.end, inner.blocks + p.value.blocks, inner.value + p.value.value))
  }

  lemma ElementNext(elements: Elements, unit: Unit, inner: Placed<seq<Cell>>, capacity: nat, borrow: bool)
    requires elements.Element? && ValidElements(elements, unit)
    ensures var first := PlaceFields(elements.fields, inner.end, capacity, borrow);
      Behind(inner, PlaceElements(elements, unit, inner.end, capacity, borrow)) ==
        if first.Failure? then Failure(first.error)
        else
          Behind(Grown(inner, elements, first.value), PlaceElements(elements.rest, unit, first.value.end, capacity, borrow))
  {
    hide Converted;
    var first := PlaceFields(elements.fields, inner.end, capacity, borrow);
    if first.Success? {
      var rest := PlaceElements(elements.rest, unit, first.value.end, capacity, borrow);
      if rest.Success? {
        Regroup(inner.blocks, first.value.blocks, rest.value.blocks);
        Regroup(inner.value, Converted(elements.plain, elements.slots, first.value.value), rest.value.value);
      }
    }
  }

  lemma BehindNothing(end: nat, p: Result<Placed<seq<Cell>>, CopyError>)
    ensures Behind(Placed(end, [], []), p) == p
  {
    if p.Success? {
      assert [] + p.value.blocks == p.value.blocks && [] + p.value.value == p.value.value;
    }
  }

  lemma AroundIs(start: nat, alignment: nat, inner: Placed<seq<Cell>>)
    ensures Around(start, alignment, inner).value == At(start) && Around(start, alignment, inner).end == inner.end
  {
  }

  lemma SpanPlace(f: Field, offset: nat, capacity: nat, borrow: bool)
    requires ValidField(f) && f.Span? && !f.missing && f.count > 0
    ensures var start := AlignUp(offset, f.unit.alignment as nat);
      var end := start + Extent(f.count as nat, f.unit.bytes as nat);
      PlaceField(f, offset, capacity, borrow) ==
        if end > capacity then Failure(BadAlloc)
        else
          match PlaceElements(f.elements, f.unit, end, capacity, borrow)
          case Failure(error) => Failure(error)
          case Success(inner) => Success(Around(start, f.unit.alignment as nat, inner))
  {
    hide AlignUp, Extent, PlaceElements;
  }

  lemma BehindEnd(elements: Elements, unit: Unit, inner: Placed<seq<Cell>>, capacity: nat, borrow: bool)
    requires elements.NoElement?
    ensures Behind(inner, PlaceElements(elements, unit, inner.end, capacity, borrow)) == Success(inner)
  {
    assert inner.blocks + [] == inner.blocks && inner.value + [] == inner.value;
  }

  lemma PlacedBeyond(fields: Fields, offset: nat, capacity: nat, borrow: bool)
    requires ValidFields(fields) && offset <= capacity
    ensures var p := PlaceFields(fields, offset, capacity, borrow); p.Success? ==> offset <= p.value.end
  {
    if PlaceFields(fields, offset, capacity, borrow).Success? {
      FieldsPlaced(fields, offset, capacity, borrow, capacity);
      var p := PlaceFields(fields, offset, capacity, borrow).value;
      LayoutGrows(p.blocks, offset, p.end);
    }
  }

  lemma TooLong(offset: nat, capacity: nat, content: seq<byte>)
    requires |content| == SIZE_MAX && capacity <= SIZE_MAX
    ensures Place(offset, capacity, 1, Raw(content + [0])) == Failure(BadAlloc)
  {
  }

  // Reading a copy -------------------------------------------------------------

  /** The pointer that starts at a place in memory. */
  function PointerAt(memory: seq<Cell>, at: nat): Pointer {
    if at < |memory| && memory[at].Part? then memory[at].pointer else Null
  }

  /** What a reader that has only the copy finds when it follows `p`: the field's elements, values or text. */
  ghost predicate Reads(memory: seq<Cell>, f: Field, p: Pointer, borrow: bool)
    decreases f
  {
    match f
    case Span(missing, unit, count, elements) =>
      if count == 0 then p == if missing then Null else Sentinel
      else p.At? && ReadsElements(memory, elements, unit, p.start, borrow)
    case Bytes(missing, unit, count, content) =>
      if count == 0 then p == if missing then Null else Sentinel else ReadsCells(memory, p, Raw(content))
    case Buffer(missing, count, content, marked) =>
      if count == 0 then p == EmptyText
      else if marked && borrow then p == Lent
      else ReadsCells(memory, p, Raw(content + [0]))
  }

  ghost predicate ReadsCells(memory: seq<Cell>, p: Pointer, content: seq<Cell>) {
    p.At? && p.start + |content| <= |memory| && memory[p.start..p.start + |content|] == content
  }

  /** Each element has its plain bytes outside its slots, and in each slot a whole pointer to that field. */
  ghost predicate ReadsElements(memory: seq<Cell>, elements: Elements, unit: Unit, at: nat, borrow: bool)
    decreases elements
  {
    elements.Element? ==>
      && at + |elements.plain| <= |memory| && |elements.slots| == FieldCount(elements.fields)
      && (forall i :: 0 <= i < |elements.plain| && !InSlot(elements.slots, i) ==> memory[at + i] == Data(elements.plain[i]))
      && ReadsFields(memory, elements.fields, elements.slots, at, borrow)
      && ReadsElements(memory, elements.rest, unit, at + unit.bytes as nat, borrow)
  }

  ghost predicate ReadsFields(memory: seq<Cell>, fields: Fields, slots: seq<nat>, at: nat, borrow: bool)
    requires |slots| == FieldCount(fields)
    decreases fields
  {
    fields.Next? ==>
      var place := at + slots[0];
      && place + WORD_SIZE <= |memory| && memory[place..place + WORD_SIZE] == Word(PointerAt(memory, place))
      && Reads(memory, fields.field, PointerAt(memory, place), borrow)
      && ReadsFields(memory, fields.rest, slots[1..], at, borrow)
  }

  lemma HoldsParts(memory: seq<Cell>, a: seq<Block>, b: seq<Block>)
    requires Holds(memory, a + b)
    ensures Holds(memory, a) && Holds(memory, b)
  {
    forall i | 0 <= i < |a|
      ensures a[i].start + |a[i].content| <= |memory| && memory[a[i].start..a[i].start + |a[i].content|] == a[i].content
    {
      assert (a + b)[i] == a[i];
    }
    forall i | 0 <= i < |b|
      ensures b[i].start + |b[i].content| <= |memory| && memory[b[i].start..b[i].start + |b[i].content|] == b[i].content
    {
      assert (a + b)[|a| + i] == b[i];
    }
  }

  lemma HoldsOne(memory: seq<Cell>, b: Block)
    requires Holds(memory, [b])
    ensures b.start + |b.content| <= |memory| && memory[b.start..b.start + |b.content|] == b.content
  {
    assert [b][0] == b;
  }

  /** Memory that holds the blocks of a placement reads as the record that was placed. */
  lemma {:induction false} CopyReads(memory: seq<Cell>, f: Field, offset: nat, capacity: nat, borrow: bool)
    requires ValidField(f) && PlaceField(f, offset, capacity, borrow).Success?
    requires Holds(memory, PlaceField(f, offset, capacity, borrow).value.blocks)
    ensures Reads(memory, f, PlaceField(f, offset, capacity, borrow).value.value, borrow)
    decreases f
  {
    hide Holds, AlignUp, Extent, Raw, PlaceElements, ReadsElements;
    var p := PlaceField(f, offset, capacity, borrow).value;
    match f
    case Span(missing, unit, count, elements) =>
      if count != 0 {
        var start := AlignUp(offset, unit.alignment as nat);
        var end := start + Extent(count as nat, unit.bytes as nat);
        var inner := PlaceElements(elements, unit, end, capacity, borrow).value;
        var own := Block(start, unit.alignment as nat, inner.value);
        HoldsParts(memory, [own], inner.blocks);
        HoldsOne(memory, own);
        ElementsRead(memory, elements, unit, end, capacity, borrow, start);
      }
    case Bytes(missing, unit, count, content) =>
      if count != 0 {
        HoldsOne(memory, p.blocks[0]);
      }
    case Buffer(missing, count, content, marked) =>
      if count != 0 && !(marked && borrow) {
        HoldsOne(memory, p.blocks[0]);
      }
  }

  lemma Pieces(memory: seq<Cell>, at: nat, a: seq<Cell>, b: seq<Cell>)
    requires at + |a + b| <= |memory| && memory[at..at + |a + b|] == a + b
    ensures at + |a| + |b| <= |memory| && memory[at..at + |a|] == a && memory[at + |a|..at + |a| + |b|] == b
  {
    assert memory[at..at + |a|] == (a + b)[..|a|];
    assert memory[at + |a|..at + |a| + |b|] == (a + b)[|a|..];
  }

  lemma {:induction false} ElementsRead(memory: seq<Cell>, elements: Elements, unit: Unit, offset: nat, capacity: nat, borrow: bool,
                                        at: nat)
    requires ValidElements(elements, unit) && PlaceElements(elements, unit, offset, capacity, borrow).Success?
    requires var p := PlaceElements(elements, unit, offset, capacity, borrow).value;
      && Holds(memory, p.blocks) && at + |p.value| <= |memory| && memory[at..at + |p.value|] == p.value
    ensures ReadsElements(memory, elements, unit, at, borrow)
    decreases elements
  {
    hide Holds, Converted, PlaceFields, ReadsFields, ValidFields, InSlot;
    if elements.Element? {
      var first := PlaceFields(elements.fields, offset, capacity, borrow).value;
      var rest := PlaceElements(elements.rest, unit, first.end, capacity, borrow).value;
      var image := Converted(elements.plain, elements.slots, first.value);
      HoldsParts(memory, first.blocks, rest.blocks);
      Pieces(memory, at, image, rest.value);
      ElementsRead(memory, elements.rest, unit, first.end, capacity, borrow, at + |image|);
      ImageReads(memory, elements.plain, elements.slots, first.value, at);
      FieldsRead(memory, elements.fields, elements.slots, at, offset, capacity, borrow);
    }
  }

  /** The slots of an element in memory hold these pointers, whole. */
  ghost predicate Slotted(memory: seq<Cell>, slots: seq<nat>, pointers: seq<Pointer>, at: nat) {
    |slots| == |pointers| && forall k :: 0 <= k < |slots| ==>
      at + slots[k] + WORD_SIZE <= |memory| && memory[at + slots[k]..at + slots[k] + WORD_SIZE] == Word(pointers[k])
  }

  lemma ImageReads(memory: seq<Cell>, plain: seq<byte>, slots: seq<nat>, pointers: seq<Pointer>, at: nat)
    requires |slots| == |pointers| && SlotsFit(slots, |plain|) && at + |plain| <= |memory|
    requires memory[at..at + |plain|] == Converted(plain, slots, pointers)
    ensures forall i :: 0 <= i < |plain| && !InSlot(slots, i) ==> memory[at + i] == Data(plain[i])
    ensures Slotted(memory, slots, pointers, at)
  {
    hide InSlot, SlotsFit, Converted, Slotted;
    forall i | 0 <= i < |plain| && !InSlot(slots, i) ensures memory[at + i] == Data(plain[i]) {
      ConvertedPlain(plain, slots, pointers, i);
      CellAt(memory, at, Converted(plain, slots, pointers), i);
    }
    SlotsRead(memory, plain, slots, pointers, at);
  }

  lemma SlotsRead(memory: seq<Cell>, plain: seq<byte>, slots: seq<nat>, pointers: seq<Pointer>, at: nat)
    requires |slots| == |pointers| && SlotsFit(slots, |plain|) && at + |plain| <= |memory|
    requires memory[at..at + |plain|] == Converted(plain, slots, pointers)
    ensures Slotted(memory, slots, pointers, at)
  {
    hide Converted;
    forall k | 0 <= k < |slots|
      ensures at + slots[k] + WORD_SIZE <= |memory| && memory[at + slots[k]..at + slots[k] + WORD_SIZE] == Word(pointers[k])
    {
      SlotsApart(slots, |plain|, k, k);
      SlotReads(memory, plain, slots, pointers, at, k);
    }
  }

  lemma SlotReads(memory: seq<Cell>, plain: seq<byte>, slots: seq<nat>, pointers: seq<Pointer>, at: nat, k: nat)
    requires |slots| == |pointers| && SlotsFit(slots, |plain|) && at + |plain| <= |memory| && k < |slots|
    requires memory[at..at + |plain|] == Converted(plain, slots, pointers) && slots[k] + WORD_SIZE <= |plain|
    ensures memory[at + slots[k]..at + slots[k] + WORD_SIZE] == Word(pointers[k])
  {
    hide Converted, SlotsFit, InSlot;
    forall j | 0 <= j < WORD_SIZE ensures memory[at + slots[k] + j] == Part(pointers[k], j) {
      ConvertedSlot(plain, slots, pointers, k, j);
      CellAt(memory, at, Converted(plain, slots, pointers), slots[k] + j);
    }
  }

  lemma CellAt(memory: seq<Cell>, at: nat, image: seq<Cell>, i: nat)
    requires at + |image| <= |memory| && memory[at..at + |image|] == image && i < |image|
    ensures memory[at + i] == image[i]
  {
    assert memory[at + i] == memory[at..at + |image|][i];
  }

  lemma {:induction false} FieldsRead(memory: seq<Cell>, fields: Fields, slots: seq<nat>, at: nat, offset: nat, capacity: nat,
                                      borrow: bool)
    requires ValidFields(fields) && |slots| == FieldCount(fields) && PlaceFields(fields, offset, capacity, borrow).Success?
    requires var p := PlaceFields(fields, offset, capacity, borrow).value;
      Holds(memory, p.blocks) && Slotted(memory, slots, p.value, at)
    ensures ReadsFields(memory, fields, slots, at, borrow)
    decreases fields
  {
    hide Holds, PlaceField, Reads, Word;
    if fields.Next? {
      var first := PlaceField(fields.field, offset, capacity, borrow).value;
      var rest := PlaceFields(fields.rest, first.end, capacity, borrow).value;
      HoldsParts(memory, first.blocks, rest.blocks);
      SlotRead(memory, slots, [first.value] + rest.value, at);
      assert ([first.value] + rest.value)[1..] == rest.value;
      CopyReads(memory, fields.field, offset, capacity, borrow);
      FieldsRead(memory, fields.rest, slots[1..], at, first.end, capacity, borrow);
    }
  }

  lemma SlotRead(memory: seq<Cell>, slots: seq<nat>, pointers: seq<Pointer>, at: nat)
    requires Slotted(memory, slots, pointers, at) && slots != []
    ensures at + slots[0] + WORD_SIZE <= |memory| && PointerAt(memory, at + slots[0]) == pointers[0]
    ensures memory[at + slots[0]..at + slots[0] + WORD_SIZE] == Word(pointers[0])
    ensures Slotted(memory, slots[1..], pointers[1..], at)
  {
    assert memory[at + slots[0]] == memory[at + slots[0]..at + slots[0] + WORD_SIZE][0];
    hide Word;
    forall k | 0 <= k < |slots| - 1
      ensures at + slots[1..][k] + WORD_SIZE <= |memory|
      ensures memory[at + slots[1..][k]..at + slots[1..][k] + WORD_SIZE] == Word(pointers[1..][k])
    {
      assert slots[1..][k] == slots[k + 1] && pointers[1..][k] == pointers[k + 1];
    }
  }

  /** Measures a record behind a header and then writes it into an allocation of the measured size: the second
      pass cannot fail, fills exactly that allocation, and leaves a copy that reads as the record. */
  method MakeItem(header: size, record: Field, borrow: bool) returns (r: Result<array<Cell>, CopyError>)
    requires ValidField(record) && record.Span? && !record.missing && record.count == 1
    ensures r.Failure? ==> PlaceField(record, header as nat, SIZE_MAX as nat, borrow) == Failure(r.error)
    ensures r.Success? ==> Present(record)
    ensures r.Failure? && Present(record) ==> r.error == BadAlloc
    ensures r.Success? ==>
      var p := PlaceField(record, header as nat, SIZE_MAX as nat, borrow);
      && p.Success? && r.value.Length == p.value.end
      && Layout(p.value.blocks, header as nat, r.value.Length)
      && Holds(r.value[..], p.value.blocks)
      && Reads(r.value[..], record, p.value.value, borrow)
  {
    hide PlaceField, Copied, Layout, Holds, Reads, Present;
    FieldFaults(record, header as nat, SIZE_MAX as nat, borrow);
    var measure := new Arena.Measuring(header, borrow);
    var measured := measure.CopyField(record);
    if measured.Failure? {
      return Failure(measured.error);
    }
    ghost var p := PlaceField(record, header as nat, SIZE_MAX as nat, borrow).value;
    FieldPlaced(record, header as nat, SIZE_MAX as nat, borrow, p.end);
    LayoutGrows(p.blocks, header as nat, p.end);
    var storage := new Cell[measure.offset](_ => Data(0));
    var write := new Arena.Writing(storage, header, borrow);
    ghost var before := storage[..];
    var written := write.CopyField(record);
    CopiedHolds(before, storage[..], header as nat, p);
    CopyReads(storage[..], record, header as nat, SIZE_MAX as nat, borrow);
    r := Success(storage);
  }

  lemma CopiedHolds<T>(before: seq<Cell>, after: seq<Cell>, from: nat, p: Placed<T>)
    ensures Copied(before, after, from, p) ==> Holds(after, p.blocks) && Layout(p.blocks, from, p.end)
  {
  }
}
