/** What the delivery queue holds, and each block that it runs under its lock,
    as a function from the queue before to the queue after. */
module DeliveryModel {
  import opened Collections
  import opened Wrappers

  /** A registration's node in the held list, and the user_data it stands for. */
  datatype Hold = Hold(id: nat, user: nat)

  /** A queued call, with the node that a last call settled, or a span of events
      of one registration. */
  datatype Item =
    | Call(user: nat, tag: nat, last: Option<nat>)
    | Batch(user: nat, callback: nat, events: seq<nat>)

  /** One call of a host function: what the host observes. */
  datatype HostCall =
    | Ran(user: nat, tag: nat)
    | Event(user: nat, callback: nat, event: nat)

  /** `head` is the pending list, and `running` the rest of the list that the dispatching thread detached. */
  datatype Queue = Queue(head: seq<Item>, running: seq<Item>, held: seq<Hold>, closed: bool)

  const EMPTY := Queue([], [], [], false)

  function Calls(item: Item): seq<HostCall> {
    match item
    case Call(user, tag, _) => [Ran(user, tag)]
    case Batch(user, callback, events) => seq(|events|, i requires 0 <= i < |events| => Event(user, callback, events[i]))
  }

  /** The host calls of a list of items, in order, one for each event. */
  function Flat(items: seq<Item>): seq<HostCall> {
    if items == [] then [] else Calls(items[0]) + Flat(items[1..])
  }

  /** The claim that a last call carries: its node, and the user_data it names. */
  function Last(item: Item): multiset<Hold> {
    if item.Call? && item.last.Some? then multiset{Hold(item.last.value, item.user)} else multiset{}
  }

  /** The claims that the last calls among the items carry. */
  function Lasts(items: seq<Item>): multiset<Hold> {
    if items == [] then multiset{} else Last(items[0]) + Lasts(items[1..])
  }

  /** The list without its first node `hold`. */
  function Unlink(held: seq<Hold>, hold: Hold): seq<Hold> {
    if held == [] then []
    else if held[0] == hold then held[1..]
    else [held[0]] + Unlink(held[1..], hold)
  }

  function Settled(item: Item, settled: Option<Hold>): Item {
    if item.Call? && settled.Some? then item.(last := Some(settled.value.id)) else item
  }

  // The locked blocks --------------------------------------------------------

  /** `append` on an open queue. */
  function Append(q: Queue, item: Item, settled: Option<Hold>): Queue {
    q.(head := q.head + [Settled(item, settled)],
       held := if settled.Some? then Unlink(q.held, settled.value) else q.held)
  }

  /** Whether an event joins the last pending item. */
  predicate Joins(q: Queue, user: nat, callback: nat) {
    |q.head| > 0 && q.head[|q.head| - 1].Batch?
    && q.head[|q.head| - 1].user == user && q.head[|q.head| - 1].callback == callback
  }

  /** `push_event` on an open queue: the tail span grows, or a new one starts. */
  function AppendEvent(q: Queue, user: nat, callback: nat, event: nat): Queue {
    if Joins(q, user, callback) then
      var n := |q.head| - 1;
      q.(head := q.head[..n] + [q.head[n].(events := q.head[n].events + [event])])
    else
      q.(head := q.head + [Batch(user, callback, [event])])
  }

  /** Consecutive pushes of one registration. */
  function AppendEvents(q: Queue, user: nat, callback: nat, events: seq<nat>): Queue {
    if events == [] then q
    else AppendEvent(AppendEvents(q, user, callback, events[..|events| - 1]), user, callback, events[|events| - 1])
  }

  lemma PushJoins(q: Queue, front: seq<Item>, user: nat, callback: nat, before: seq<nat>, event: nat)
    requires q.head == front + [Batch(user, callback, before)]
    ensures AppendEvent(q, user, callback, event) == q.(head := front + [Batch(user, callback, before + [event])])
  {
  }

  /** Behind a span of the same registration, pushes join it. */
  lemma {:induction false} RunJoins(q: Queue, front: seq<Item>, user: nat, callback: nat, before: seq<nat>, events: seq<nat>)
    requires q.head == front + [Batch(user, callback, before)]
    ensures AppendEvents(q, user, callback, events) == q.(head := front + [Batch(user, callback, before + events)])
  {
    if events == [] {
      assert before + events == before;
    } else {
      hide AppendEvent;
      var n := |events| - 1;
      RunJoins(q, front, user, callback, before, events[..n]);
      PushJoins(q.(head := front + [Batch(user, callback, before + events[..n])]), front, user, callback, before + events[..n], events[n]);
      assert before + events[..n] + [events[n]] == before + events;
    }
  }

  lemma FirstPush(q: Queue, user: nat, callback: nat, events: seq<nat>)
    requires |events| == 1 && !Joins(q, user, callback)
    ensures AppendEvents(q, user, callback, events) == q.(head := q.head + [Batch(user, callback, events)])
  {
    assert AppendEvents(q, user, callback, events[..0]) == q && events == [events[0]];
  }

  /** Behind a call, behind a span of another registration or on an empty list, they share one new item. */
  lemma {:induction false} RunStarts(q: Queue, user: nat, callback: nat, events: seq<nat>)
    requires events != []
    requires q.head == [] || (var last := q.head[|q.head| - 1]; last.Call? || last.user != user || last.callback != callback)
    ensures AppendEvents(q, user, callback, events) == q.(head := q.head + [Batch(user, callback, events)])
  {
    var n := |events| - 1;
    if n == 0 {
      FirstPush(q, user, callback, events);
    } else {
      hide AppendEvent;
      RunStarts(q, user, callback, events[..n]);
      PushJoins(q.(head := q.head + [Batch(user, callback, events[..n])]), q.head, user, callback, events[..n], events[n]);
      assert events[..n] + [events[n]] == events;
    }
  }

  /** A dispatch takes the pending list. */
  function Take(q: Queue): Queue {
    if q.closed then q else q.(head := [], running := q.head)
  }

  /** A dispatch takes its next call. */
  function Next(q: Queue): Queue
    requires q.running != []
  {
    q.(running := q.running[1..])
  }

  function Close(q: Queue): Queue {
    Queue([], [], [], true)
  }

  function AddHold(q: Queue, hold: Hold): Queue {
    if q.closed then q else q.(held := [hold] + q.held)
  }

  function Withdraw(q: Queue, hold: Hold): Queue {
    if q.closed then q else q.(held := Unlink(q.held, hold))
  }

  // Lists of items -----------------------------------------------------------

  lemma FirstOf(items: seq<Item>)
    requires items != []
    ensures Flat(items) == Calls(items[0]) + Flat(items[1..])
    ensures Lasts(items) == Last(items[0]) + Lasts(items[1..])
  {
  }

  lemma FlatNone()
    ensures Flat([]) == [] && Lasts([]) == multiset{}
  {
  }

  lemma TailOf(a: seq<Item>, b: seq<Item>)
    requires a != []
    ensures a + b != [] && (a + b)[0] == a[0] && (a + b)[1..] == a[1..] + b
  {
  }

  lemma {:induction false} FlatConcat(a: seq<Item>, b: seq<Item>)
    ensures Flat(a + b) == Flat(a) + Flat(b)
  {
    hide Calls, Flat;
    if a == [] {
      FlatNone();
      assert a + b == b && [] + Flat(b) == Flat(b);
    } else {
      FlatConcat(a[1..], b);
      FirstOf(a);
      FirstOf(a + b);
      TailOf(a, b);
      Regroup(Calls(a[0]), Flat(a[1..]), Flat(b));
    }
  }

  lemma {:induction false} LastsConcat(a: seq<Item>, b: seq<Item>)
    ensures Lasts(a + b) == Lasts(a) + Lasts(b)
  {
    hide Last, Lasts;
    if a == [] {
      FlatNone();
      assert a + b == b;
    } else {
      LastsConcat(a[1..], b);
      FirstOf(a);
      FirstOf(a + b);
      TailOf(a, b);
      Sums(Last(a[0]), Lasts(a[1..]), Lasts(b));
    }
  }

  lemma Sums(x: multiset<Hold>, y: multiset<Hold>, z: multiset<Hold>)
    ensures x + (y + z) == x + y + z
  {
  }

  lemma FlatOne(item: Item)
    ensures Flat([item]) == Calls(item) && Lasts([item]) == Last(item)
  {
  }

  lemma {:induction false} UnlinkRemoves(held: seq<Hold>, hold: Hold)
    requires hold in held
    ensures multiset(held) == multiset(Unlink(held, hold)) + multiset{hold}
  {
    if held[0] != hold {
      UnlinkRemoves(held[1..], hold);
    }
    assert held == [held[0]] + held[1..];
  }

  lemma {:induction false} UnlinkKeeps(held: seq<Hold>, hold: Hold, other: Hold)
    requires other in held && other != hold
    ensures other in Unlink(held, hold)
  {
    if held[0] != hold && held[0] != other {
      UnlinkKeeps(held[1..], hold, other);
    }
  }

  /** Whether an event joins the tail span or starts one, the flattened list gains that event at its end. */
  lemma AppendEventFlat(q: Queue, user: nat, callback: nat, event: nat)
    ensures Flat(AppendEvent(q, user, callback, event).head) == Flat(q.head) + [Event(user, callback, event)]
    ensures Lasts(AppendEvent(q, user, callback, event).head) == Lasts(q.head)
  {
    if Joins(q, user, callback) {
      hide Flat, Lasts;
      var n := |q.head| - 1;
      var front, tail := q.head[..n], q.head[n];
      var longer := tail.(events := tail.events + [event]);
      assert q.head == front + [tail];
      FlatConcat(front, [tail]);
      FlatConcat(front, [longer]);
      LastsConcat(front, [tail]);
      LastsConcat(front, [longer]);
      FlatOne(tail);
      FlatOne(longer);
      assert Calls(longer) == Calls(tail) + [Event(user, callback, event)];
    } else {
      hide Flat, Lasts;
      var item := Batch(user, callback, [event]);
      FlatConcat(q.head, [item]);
      LastsConcat(q.head, [item]);
      FlatOne(item);
      assert Calls(item) == [Event(user, callback, event)];
    }
  }

  lemma AppendFlat(q: Queue, item: Item, settled: Option<Hold>)
    ensures Flat(Append(q, item, settled).head) == Flat(q.head) + Calls(item)
    ensures Lasts(Append(q, item, settled).head) == Lasts(q.head) + Last(Settled(item, settled))
  {
    FlatConcat(q.head, [Settled(item, settled)]);
    LastsConcat(q.head, [Settled(item, settled)]);
    FlatOne(Settled(item, settled));
  }
}
