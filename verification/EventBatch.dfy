/** The delivery item that a run of events shares: their texts grow one buffer, and views into it are
    made when the call runs. */
module EventBatch {
  import opened Wrappers
  import opened Bitwise

  datatype PayloadType = Glyphs | Sprite | StyleImage | TileAction | SourceChanged | NoText

  /** A payload's view of the string `index` of the strings `entry`, which stay where they are. */
  datatype StringView = StringView(entry: nat, index: nat, length: nat)

  /** An event's message: not yet placed, the empty text, or a place in the shared buffer. */
  datatype MessageData = Unplaced | EmptyText | At(offset: nat)

  datatype Event = Event(kind: PayloadType, size: nat, data: MessageData, payload: seq<StringView>)

  datatype Error = LengthError | LogicError | BadAlloc

  /** The vectors that an append reserves, any of which can run out of memory; with the glyph views first. */
  datatype Reservation = Views | Events | Strings | Messages

  /** What was appended. */
  datatype Appended = Appended(kind: PayloadType, message: seq<byte>, strings: seq<seq<byte>>)

  // Binding payload strings --------------------------------------------------

  function ViewsOf(strings: seq<seq<byte>>, entry: nat): (views: seq<StringView>)
    ensures |views| == |strings|
    ensures forall i :: 0 <= i < |strings| ==> views[i] == StringView(entry, i, |strings[i]|)
  {
    seq(|strings|, i requires 0 <= i < |strings| => StringView(entry, i, |strings[i]|))
  }

  /** `bind_event_strings`: a font stack takes any number of strings, and a sprite its ID and its URL. The glyphs'
      views are in a vector that can fail to grow. */
  method BindStrings(kind: PayloadType, strings: seq<seq<byte>>, entry: nat, failing: Option<Reservation>)
    returns (r: Result<seq<StringView>, Error>)
    ensures kind == Glyphs ==> (r.Success? <==> failing != Some(Views))
    ensures kind == Sprite ==> (r.Success? <==> |strings| == 2)
    ensures kind == NoText ==> r.Success?
    ensures kind == StyleImage || kind == TileAction || kind == SourceChanged ==> (r.Success? <==> |strings| == 1)
    ensures r.Success? ==> r.value == if kind == NoText then [] else ViewsOf(strings, entry)
    ensures r.Failure? ==> r.error == if kind == Glyphs then BadAlloc else LogicError
  {
    match kind
    case Glyphs =>
      if failing == Some(Views) {
        return Failure(BadAlloc);
      }
      var views: seq<StringView> := [];
      for i := 0 to |strings|
        invariant views == ViewsOf(strings, entry)[..i]
      {
        views := views + [StringView(entry, i, |strings[i]|)];
      }
      r := Success(views);
    case Sprite =>
      if |strings| != 2 {
        return Failure(LogicError);
      }
      r := Success([StringView(entry, 0, |strings[0]|), StringView(entry, 1, |strings[1]|)]);
    case NoText => r := Success([]);
    case _ =>
      if |strings| != 1 {
        return Failure(LogicError);
      }
      r := Success([StringView(entry, 0, |strings[0]|)]);
  }

  // The shared buffer --------------------------------------------------------

  function Terminated(message: seq<byte>): seq<byte> {
    if message == [] then [] else message + [0]
  }

  /** The texts one behind the other, each but the empty ones followed by a NUL. */
  function Joined(log: seq<Appended>): seq<byte> {
    if log == [] then [] else Joined(log[..|log| - 1]) + Terminated(log[|log| - 1].message)
  }

  /** The strings of the events that carry any, in order. */
  function Kept(log: seq<Appended>): seq<seq<seq<byte>>> {
    if log == [] then []
    else
      var front, last := Kept(log[..|log| - 1]), log[|log| - 1].strings;
      if last == [] then front else front + [last]
  }

  lemma {:induction false} JoinedPrefix(log: seq<Appended>, i: nat)
    requires i <= |log|
    ensures Joined(log[..i]) <= Joined(log) && Kept(log[..i]) <= Kept(log)
    decreases |log|
  {
    if i == |log| {
      assert log[..i] == log;
    } else {
      JoinedPrefix(log[..|log| - 1], i);
      assert log[..|log| - 1][..i] == log[..i];
    }
  }

  /** Each text stands behind those before it, with its NUL. */
  lemma TextInJoined(log: seq<Appended>, i: nat)
    requires i < |log|
    ensures var from, text := |Joined(log[..i])|, Terminated(log[i].message);
      from + |text| <= |Joined(log)| && Joined(log)[from..from + |text|] == text
  {
    hide Joined, Terminated;
    JoinedPrefix(log, i + 1);
    OneMore(log, i);
    LogGrows(log[..i], log[i]);
    PartOf(Joined(log), Joined(log[..i]), Terminated(log[i].message));
  }

  lemma OneMore(log: seq<Appended>, i: nat)
    requires i < |log|
    ensures log[..i + 1] == log[..i] + [log[i]]
  {
  }

  lemma PartOf(all: seq<byte>, front: seq<byte>, part: seq<byte>)
    requires front + part <= all
    ensures |front| + |part| <= |all| && all[|front|..|front| + |part|] == part
  {
    assert all[|front|..|front| + |part|] == (front + part)[|front|..];
  }

  lemma TextAdded(messages: seq<byte>, message: seq<byte>)
    ensures message != [] ==> messages + message + [0] == messages + Terminated(message)
    ensures message == [] ==> messages + Terminated(message) == messages
  {
  }

  lemma LogGrows(log: seq<Appended>, last: Appended)
    ensures Joined(log + [last]) == Joined(log) + Terminated(last.message)
    ensures Kept(log + [last]) == if last.strings == [] then Kept(log) else Kept(log) + [last.strings]
  {
  }

  /** The string that a view denotes. */
  function StringAt(strings: seq<seq<seq<byte>>>, view: StringView): Option<seq<byte>> {
    if view.entry < |strings| && view.index < |strings[view.entry]| then Some(strings[view.entry][view.index]) else None
  }

  /** The event is what was appended: its kind, its message's size, and views that denote its strings. */
  ghost predicate Matches(event: Event, a: Appended, strings: seq<seq<seq<byte>>>) {
    && event.kind == a.kind && event.size == |a.message|
    && |event.payload| == (if a.kind == NoText then 0 else |a.strings|)
    && forall j :: 0 <= j < |event.payload| ==>
      event.payload[j].length == |a.strings[j]| && StringAt(strings, event.payload[j]) == Some(a.strings[j])
  }

  lemma MatchesKept(event: Event, a: Appended, strings: seq<seq<seq<byte>>>, more: seq<seq<seq<byte>>>)
    requires Matches(event, a, strings) && strings <= more
    ensures Matches(event, a, more)
  {
  }

  /** The view of a message that the host sees: its bytes and the NUL behind them. */
  ghost predicate Placed(event: Event, a: Appended, messages: seq<byte>) {
    if a.message == [] then event.data == EmptyText
    else
      && event.data.At? && event.size == |a.message|
      && event.data.offset + event.size + 1 <= |messages|
      && messages[event.data.offset..event.data.offset + event.size + 1] == a.message + [0]
  }

  /** What the host is shown: the events' allocation and their number. */
  datatype BatchView = BatchView(place: nat, count: nat)

  /** The fields of an item that holds exactly these appends. */
  ghost predicate Holds(events: seq<Event>, messages: seq<byte>, strings: seq<seq<seq<byte>>>, log: seq<Appended>) {
    && |events| == |log|
    && messages == Joined(log) && strings == Kept(log)
    && forall i :: 0 <= i < |log| ==> Matches(events[i], log[i], strings)
  }

  class EventDeliveryItem {
    var events: seq<Event>
    var capacity: nat
    var place: nat           // which allocation holds the events
    var messages: seq<byte>
    var strings: seq<seq<seq<byte>>>
    var batch: BatchView
    ghost var log: seq<Appended>

    ghost predicate Valid()
      reads this
    {
      Holds(events, messages, strings, log) && |events| <= capacity && batch == BatchView(place, |events|)
    }

    constructor ()
      ensures Valid() && log == []
    {
      events, capacity, place, messages, strings, batch, log := [], 0, 0, [], [], BatchView(0, 0), [];
    }

    /** Appends an event, or throws and leaves every earlier event and text as it was. `failing` is the
        reservation that runs out of memory. The batch view follows the events wherever they moved to. */
    method Append(kind: PayloadType, message: seq<byte>, payload: seq<seq<byte>>, failing: Option<Reservation>)
      returns (error: Option<Error>)
      requires Valid()
      modifies this
      ensures Valid()
      ensures error.None? ==> log == old(log) + [Appended(kind, message, payload)]
      ensures error.Some? ==>
        log == old(log) && events == old(events) && messages == old(messages) && strings == old(strings)
      ensures |message| > 0xFFFF_FFFE ==> error == Some(LengthError)
      ensures |message| <= 0xFFFF_FFFE && |payload| != 2 && kind == Sprite ==> error == Some(LogicError)
      ensures |message| <= 0xFFFF_FFFE && |payload| != 1 && kind in {StyleImage, TileAction, SourceChanged} ==>
        error == Some(LogicError)
      ensures (
        && |message| <= 0xFFFF_FFFE
        && (kind == Sprite ==> |payload| == 2)
        && (kind in {StyleImage, TileAction, SourceChanged} ==> |payload| == 1)) ==>
        error ==
          if || (failing == Some(Views) && kind == Glyphs)
             || (failing == Some(Events) && |old(events)| == old(capacity))
             || (failing == Some(Strings) && payload != [])
             || (failing == Some(Messages) && message != [])
          then Some(BadAlloc) else None
      ensures events[..|old(events)|] == old(events)
    {
      hide Holds;
      if |message| > 0xFFFF_FFFF - 1 {
        return Some(LengthError);
      }
      var views := BindStrings(kind, payload, |strings|, failing);
      if views.Failure? {
        return Some(views.error);
      }
      var added := Add(Event(kind, |message|, Unplaced, views.value), message, payload, failing);
      Refresh();
      error := if added then None else Some(BadAlloc);
    }

    /** Makes every reservation before it changes any size. */
    method Add(event: Event, message: seq<byte>, payload: seq<seq<byte>>, failing: Option<Reservation>) returns (added: bool)
      requires Holds(events, messages, strings, log) && |events| <= capacity
      requires event.size == |message| && event.payload == if event.kind == NoText then [] else ViewsOf(payload, |strings|)
      modifies `events, `capacity, `place, `messages, `strings, `log
      ensures Holds(events, messages, strings, log) && |events| <= capacity
      ensures !added <==>
        || (failing == Some(Events) && |old(events)| == old(capacity))
        || (failing == Some(Strings) && payload != [])
        || (failing == Some(Messages) && message != [])
      ensures added ==> log == old(log) + [Appended(event.kind, message, payload)] && events == old(events) + [event]
      ensures !added ==>
        log == old(log) && events == old(events) && messages == old(messages) && strings == old(strings)
    {
      hide Holds, Terminated, ViewsOf;
      var room := MakeRoom(failing);
      if !room || (payload != [] && failing == Some(Strings)) {
        return false;
      }
      if message != [] {
        if failing == Some(Messages) {
          return false;
        }
      }
      AddTexts(message, payload);
      ghost var last := Appended(event.kind, message, payload);
      AppendHolds(events, old(messages), old(strings), log, event, last);
      events := events + [event];
      log := log + [last];
      added := true;
    }

    method AddTexts(message: seq<byte>, payload: seq<seq<byte>>)
      modifies `messages, `strings
      ensures messages == old(messages) + Terminated(message)
      ensures strings == if payload == [] then old(strings) else old(strings) + [payload]
    {
      TextAdded(messages, message);
      if message != [] {
        messages := messages + message;
        messages := messages + [0];
      }
      if payload != [] {
        strings := strings + [payload];
      }
    }

    /** Room for one more event; growing moves the events. */
    method MakeRoom(failing: Option<Reservation>) returns (room: bool)
      requires |events| <= capacity
      modifies `capacity, `place
      ensures room <==> !(|events| == old(capacity) && failing == Some(Events))
      ensures |events| <= capacity && (room ==> |events| < capacity)
    {
      if |events| == capacity {
        if failing == Some(Events) {
          return false;
        }
        capacity := if 16 > |events| * 2 then 16 else |events| * 2;
        place := place + 1;
      }
      room := true;
    }

    method Refresh()
      modifies `batch
      ensures batch == BatchView(place, |events|)
    {
      batch := BatchView(place, |events|);
    }

    /** Points every event's message into the buffer, which no longer moves. */
    method Finalize()
      requires Valid()
      modifies `events
      ensures Valid() && |events| == |old(events)|
      ensures forall i :: 0 <= i < |events| ==> Placed(events[i], log[i], messages)
      ensures forall i :: 0 <= i < |events| ==> SameButData(events[i], old(events)[i])
    {
      hide Joined, Kept, Matches, Placed;
      ghost var before := events;
      var offset := 0;
      JoinedNothing(log);
      for i := 0 to |events|
        invariant |events| == |before| == |log| && offset == |Joined(log[..i])|
        invariant forall j :: 0 <= j < i ==> Placed(events[j], log[j], messages)
        invariant forall j :: 0 <= j < |events| ==> SameButData(events[j], before[j])
        invariant messages == Joined(log)
      {
        PlaceOne(log, i, events[i], before[i], strings);
        if events[i].size == 0 {
          events := events[i := events[i].(data := EmptyText)];
        } else {
          events := events[i := events[i].(data := At(offset))];
          offset := offset + events[i].size + 1;
        }
      }
      forall i | 0 <= i < |log| ensures Matches(events[i], log[i], strings) {
        DataApart(before[i], events[i], log[i], strings);
      }
    }
  }

  predicate SameButData(a: Event, b: Event) {
    a == b.(data := a.data)
  }

  lemma PlaceOne(log: seq<Appended>, i: nat, event: Event, before: Event, strings: seq<seq<seq<byte>>>)
    requires i < |log| && Matches(before, log[i], strings) && SameButData(event, before)
    ensures event.size == 0 ==> Placed(event.(data := EmptyText), log[i], Joined(log))
    ensures event.size != 0 ==> Placed(event.(data := At(|Joined(log[..i])|)), log[i], Joined(log))
    ensures |Joined(log[..i + 1])| == |Joined(log[..i])| + if event.size == 0 then 0 else event.size + 1
  {
    hide Joined;
    TextInJoined(log, i);
    OneMore(log, i);
    LogGrows(log[..i], log[i]);
  }

  lemma AppendHolds(events: seq<Event>, messages: seq<byte>, strings: seq<seq<seq<byte>>>, log: seq<Appended>,
                    event: Event, last: Appended)
    requires Holds(events, messages, strings, log)
    requires event.kind == last.kind && event.size == |last.message|
    requires event.payload == if last.kind == NoText then [] else ViewsOf(last.strings, |strings|)
    ensures Holds(events + [event], messages + Terminated(last.message),
                  if last.strings == [] then strings else strings + [last.strings], log + [last])
  {
    hide Joined, Kept, Matches;
    var more := if last.strings == [] then strings else strings + [last.strings];
    LogGrows(log, last);
    NewMatches(event, last, strings, more);
    forall i | 0 <= i < |log| ensures Matches(events[i], log[i], more) {
      MatchesKept(events[i], log[i], strings, more);
    }
  }

  lemma NewMatches(event: Event, a: Appended, before: seq<seq<seq<byte>>>, after: seq<seq<seq<byte>>>)
    requires event.kind == a.kind && event.size == |a.message|
    requires event.payload == if a.kind == NoText then [] else ViewsOf(a.strings, |before|)
    requires after == if a.strings == [] then before else before + [a.strings]
    ensures Matches(event, a, after)
  {
  }

  lemma JoinedNothing(log: seq<Appended>)
    ensures Joined(log[..0]) == []
  {
  }

  lemma DataApart(event: Event, other: Event, a: Appended, strings: seq<seq<seq<byte>>>)
    requires Matches(event, a, strings) && other == event.(data := other.data)
    ensures Matches(other, a, strings)
  {
  }
}
