/** The delivery queue's linked lists. Each method is a block that the queue runs
    under its lock, proved against the function of the same step in DeliveryModel. */
module DeliveryQueue {
  import opened Wrappers
  import Model = DeliveryModel
  import opened DeliveryModel

  class DeliveryItem {
    var next: DeliveryItem?
    var call: Item

    constructor (call: Item)
      ensures this.call == call && next == null
    {
      this.call, next := call, null;
    }
  }

  class HeldUserData {
    var previous: HeldUserData?
    var next: HeldUserData?
    const hold: Hold

    constructor (hold: Hold)
      ensures this.hold == hold && previous == null && next == null
    {
      this.hold, previous, next := hold, null, null;
    }
  }

  /** `first` starts a null-terminated list of exactly these items. */
  ghost predicate Chain(first: DeliveryItem?, items: seq<DeliveryItem>)
    reads items
  {
    && first == (if items == [] then null else items[0])
    && (forall i, j :: 0 <= i < j < |items| ==> items[i] != items[j])
    && (forall i {:trigger items[i].next} :: 0 <= i < |items| ==> items[i].next == if i + 1 < |items| then items[i + 1] else null)
  }

  ghost function Values(items: seq<DeliveryItem>): (values: seq<Item>)
    reads items
    ensures |values| == |items| && forall i :: 0 <= i < |items| ==> values[i] == items[i].call
  {
    seq(|items|, i requires 0 <= i < |items| reads items => items[i].call)
  }

  /** `first` starts a doubly linked list of exactly these nodes. */
  ghost predicate DoubleChain(first: HeldUserData?, nodes: seq<HeldUserData>)
    reads nodes
  {
    && first == (if nodes == [] then null else nodes[0])
    && (forall i, j :: 0 <= i < j < |nodes| ==> nodes[i] != nodes[j] && nodes[i].hold != nodes[j].hold)
    && (forall i {:trigger nodes[i].next} :: 0 <= i < |nodes| ==> nodes[i].next == if i + 1 < |nodes| then nodes[i + 1] else null)
    && (forall i {:trigger nodes[i].previous} :: 0 <= i < |nodes| ==> nodes[i].previous == if i > 0 then nodes[i - 1] else null)
  }

  ghost function HoldsOf(nodes: seq<HeldUserData>): (holds: seq<Hold>)
    ensures |holds| == |nodes| && forall i :: 0 <= i < |nodes| ==> holds[i] == nodes[i].hold
  {
    seq(|nodes|, i requires 0 <= i < |nodes| => nodes[i].hold)
  }

  lemma {:induction false} UnlinkAt(held: seq<Hold>, k: nat)
    requires k < |held| && forall i, j :: 0 <= i < j < |held| ==> held[i] != held[j]
    ensures Unlink(held, held[k]) == held[..k] + held[k + 1..]
  {
    if k > 0 {
      UnlinkAt(held[1..], k - 1);
      assert held[1..][..k - 1] == held[1..k];
      assert [held[0]] + (held[1..k] + held[k + 1..]) == held[..k] + held[k + 1..];
    }
  }

  lemma WithoutNode(first: HeldUserData?, nodes: seq<HeldUserData>, k: nat)
    requires DoubleChain(first, nodes) && k < |nodes|
    ensures HoldsOf(nodes[..k] + nodes[k + 1..]) == Unlink(HoldsOf(nodes), nodes[k].hold)
    ensures nodes[k] !in nodes[..k] + nodes[k + 1..]
  {
    UnlinkAt(HoldsOf(nodes), k);
    assert HoldsOf(nodes[..k] + nodes[k + 1..]) == HoldsOf(nodes)[..k] + HoldsOf(nodes)[k + 1..];
  }

  /** `unlink_held`: takes one node out of the list that starts at `first`. */
  method UnlinkHeld(first: HeldUserData?, node: HeldUserData, ghost nodes: seq<HeldUserData>, ghost k: nat)
    returns (rest: HeldUserData?)
    requires DoubleChain(first, nodes) && k < |nodes| && nodes[k] == node
    modifies nodes
    ensures DoubleChain(rest, nodes[..k] + nodes[k + 1..])
  {
    assert node.previous == if k > 0 then nodes[k - 1] else null;
    assert node.next == if k + 1 < |nodes| then nodes[k + 1] else null;
    rest := first;
    if node.previous != null {
      node.previous.next := node.next;
    } else {
      rest := node.next;
    }
    if node.next != null {
      node.next.previous := node.previous;
    }
    forall i | 0 <= i < |nodes| && i != k
      ensures nodes[i].next == NodeAt(nodes, if i + 1 == k then k + 1 else i + 1)
      ensures nodes[i].previous == NodeAt(nodes, if i - 1 == k then k - 1 else i - 1)
    {
      assert old(nodes[i].next) == if i + 1 < |nodes| then nodes[i + 1] else null;
      assert old(nodes[i].previous) == if i > 0 then nodes[i - 1] else null;
    }
    Relinked(rest, nodes, k);
  }

  ghost function NodeAt(nodes: seq<HeldUserData>, i: int): HeldUserData? {
    if 0 <= i < |nodes| then nodes[i] else null
  }

  /** Nodes that skip the one at `k` in both directions are the list without it. */
  lemma Relinked(first: HeldUserData?, nodes: seq<HeldUserData>, k: nat)
    requires k < |nodes| && first == NodeAt(nodes, if k == 0 then 1 else 0)
    requires forall i, j :: 0 <= i < j < |nodes| ==> nodes[i] != nodes[j] && nodes[i].hold != nodes[j].hold
    requires forall i {:trigger nodes[i].next} :: 0 <= i < |nodes| && i != k ==>
      nodes[i].next == NodeAt(nodes, if i + 1 == k then k + 1 else i + 1)
    requires forall i {:trigger nodes[i].previous} :: 0 <= i < |nodes| && i != k ==>
      nodes[i].previous == NodeAt(nodes, if i - 1 == k then k - 1 else i - 1)
    ensures DoubleChain(first, nodes[..k] + nodes[k + 1..])
  {
    var all := nodes[..k] + nodes[k + 1..];
    forall i | 0 <= i < |all|
      ensures all[i].next == if i + 1 < |all| then all[i + 1] else null
      ensures all[i].previous == if i > 0 then all[i - 1] else null
    {
      var j := if i < k then i else i + 1;
      assert all[i] == nodes[j];
      assert nodes[j].next == NodeAt(nodes, if j + 1 == k then k + 1 else j + 1);
      assert nodes[j].previous == NodeAt(nodes, if j - 1 == k then k - 1 else j - 1);
    }
  }

  lemma HoldsFront(node: HeldUserData, nodes: seq<HeldUserData>)
    ensures HoldsOf([node] + nodes) == [node.hold] + HoldsOf(nodes)
    ensures node.hold !in HoldsOf(nodes) ==> forall i :: 0 <= i < |nodes| ==> nodes[i].hold != node.hold
  {
    assert forall i :: 0 <= i < |nodes| ==> HoldsOf(nodes)[i] == nodes[i].hold;
  }

  /** Links a node in front. */
  method LinkHeld(first: HeldUserData?, node: HeldUserData, ghost nodes: seq<HeldUserData>)
    requires DoubleChain(first, nodes) && node !in nodes && node.previous == null
    requires forall i :: 0 <= i < |nodes| ==> nodes[i].hold != node.hold
    modifies nodes, node
    ensures DoubleChain(node, [node] + nodes)
  {
    assert forall i :: 0 <= i < |nodes| ==> nodes[i] != node;
    node.next := first;
    if first != null {
      first.previous := node;
    }
    ghost var all := [node] + nodes;
    forall i | 0 <= i < |all|
      ensures all[i].next == if i + 1 < |all| then all[i + 1] else null
      ensures all[i].previous == if i > 0 then all[i - 1] else null
    {
      assert i > 0 ==> all[i] == nodes[i - 1];
      assert i > 0 ==> old(nodes[i - 1].next) == if i < |nodes| then nodes[i] else null;
      assert i > 0 ==> nodes[i - 1].next == old(nodes[i - 1].next);
      assert i > 1 ==> nodes[i - 1].previous == nodes[i - 2] == all[i - 1];
      assert i + 1 < |all| ==> all[i + 1] == nodes[i];
    }
  }

  /** Links an item behind the last one; returns the first item. */
  method LinkItem(first: DeliveryItem?, last: DeliveryItem?, item: DeliveryItem, ghost items: seq<DeliveryItem>)
    returns (start: DeliveryItem)
    requires Chain(first, items) && item !in items && last == (if items == [] then null else items[|items| - 1])
    modifies items, item
    ensures Chain(start, items + [item])
    ensures Values(items + [item]) == old(Values(items)) + [old(item.call)]
  {
    item.next := null;
    if last == null {
      start := item;
    } else {
      start := first;
      last.next := item;
    }
  }

  lemma NoItems()
    ensures Chain(null, []) && Values([]) == [] && DoubleChain(null, []) && HoldsOf([]) == []
  {
  }

  /** Detaches the first item of a list. */
  method PopItem(first: DeliveryItem, ghost items: seq<DeliveryItem>) returns (rest: DeliveryItem?)
    requires Chain(first, items)
    modifies first`next
    ensures items != [] && items[0] == first && first.next == null
    ensures Chain(rest, items[1..]) && Values(items[1..]) == old(Values(items))[1..] && first.call == old(first.call)
  {
    rest := first.next;
    first.next := null;
    ghost var left := items[1..];
    forall i | 0 <= i < |left| ensures left[i].next == if i + 1 < |left| then left[i + 1] else null {
      assert left[i] == items[i + 1] && items[i + 1] != items[0];
      assert old(items[i + 1].next) == if i + 2 < |items| then items[i + 2] else null;
    }
  }

  class DeliveryQueueState {
    var head: DeliveryItem?
    var tail: DeliveryItem?
    var running: DeliveryItem?
    var held: HeldUserData?
    var closed: bool
    ghost var pending: seq<DeliveryItem>
    ghost var taken: seq<DeliveryItem>
    ghost var nodes: seq<HeldUserData>

    ghost predicate Valid()
      reads this, pending, taken, nodes
    {
      && Chain(head, pending) && Chain(running, taken) && DoubleChain(held, nodes)
      && tail == (if pending == [] then null else pending[|pending| - 1])
      && (forall i :: 0 <= i < |taken| ==> taken[i] !in pending)
      && (closed ==> pending == [] && taken == [] && nodes == [])
    }

    ghost function View(): Queue
      reads this, pending, taken
    {
      Queue(Values(pending), Values(taken), HoldsOf(nodes), closed)
    }

    constructor ()
      ensures Valid() && View() == EMPTY
    {
      head, tail, running, held, closed := null, null, null, null, false;
      pending, taken, nodes := [], [], [];
    }

    /** The locked block of `hold_user_data`. A closed queue holds nothing. */
    method Hold(node: HeldUserData) returns (linked: bool)
      requires Valid() && node !in nodes && node.previous == null && node.hold !in View().held
      modifies this`held, this`nodes, nodes, node
      ensures Valid() && View() == Model.AddHold(old(View()), node.hold) && linked == !old(closed)
      ensures nodes == if linked then [node] + old(nodes) else old(nodes)
    {
      hide Chain, DoubleChain, Values, HoldsOf;
      if closed {
        return false;
      }
      HoldsFront(node, nodes);
      LinkHeld(held, node, nodes);
      held := node;
      nodes := [node] + nodes;
      return true;
    }

    /** Takes a node out of the held list of an open queue. */
    method Unlink(node: HeldUserData)
      requires Valid() && node in nodes
      modifies this`held, this`nodes, nodes
      ensures Valid() && View() == old(View()).(held := Model.Unlink(old(View()).held, node.hold))
      ensures node !in nodes
    {
      hide Chain, DoubleChain, Values, HoldsOf, Model.Unlink;
      ghost var k :| 0 <= k < |nodes| && nodes[k] == node;
      WithoutNode(held, nodes, k);
      held := UnlinkHeld(held, node, nodes, k);
      nodes := nodes[..k] + nodes[k + 1..];
    }

    /** The locked block of `withdraw`: the held list loses the node, and a closed queue has none to lose. */
    method Withdraw(node: HeldUserData)
      requires Valid() && (!closed ==> node in nodes)
      modifies this`held, this`nodes, nodes
      ensures Valid() && View() == Model.Withdraw(old(View()), node.hold)
    {
      if !closed {
        Unlink(node);
      }
    }

    /** Links an item behind the pending ones. */
    method LinkPending(item: DeliveryItem)
      requires Valid() && !closed && item !in pending && item !in taken
      modifies this`head, this`tail, this`pending, pending, item
      ensures Valid() && View() == old(View()).(head := old(View()).head + [old(item.call)])
      ensures pending == old(pending) + [item]
    {
      hide Chain, DoubleChain, Values, HoldsOf;
      assert forall i :: 0 <= i < |taken| ==> taken[i] !in pending && taken[i] != item;
      head := LinkItem(head, tail, item, pending);
      tail := item;
      pending := pending + [item];
      assert unchanged(taken);
    }

    /** The locked block of `append`. Refuses on a closed queue; wakes when the list was empty. */
    method Append(item: DeliveryItem, settled: HeldUserData?) returns (accepted: bool, wake: bool)
      requires Valid() && item !in pending && item !in taken
      requires settled != null && !closed ==> settled in nodes
      modifies this`head, this`tail, this`pending, this`held, this`nodes, pending, nodes, item
      ensures Valid() && accepted == !old(closed) && wake == (accepted && old(View()).head == [])
      ensures View() == if old(closed) then old(View())
                        else Model.Append(old(View()), old(item.call), if settled == null then None else Some(settled.hold))
    {
      hide Chain, DoubleChain, Model.Unlink, Settled;
      if closed {
        return false, false;
      }
      HeadIsNull();
      wake := head == null;
      if settled != null {
        Unlink(settled);
        SettleItem(item, settled.hold);
      }
      LinkPending(item);
      accepted := true;
      SettledNone(old(item.call));
    }

    /** Grows the tail span of an open queue. */
    method JoinTail(user: nat, callback: nat, event: nat)
      requires Valid() && tail != null && Joins(View(), user, callback)
      modifies pending
      ensures Valid() && View() == AppendEvent(old(View()), user, callback, event)
    {
      hide DoubleChain, HoldsOf;
      assert tail == pending[|pending| - 1];
      assert forall i :: 0 <= i < |pending| - 1 ==> pending[i] != tail;
      tail.call := tail.call.(events := tail.call.events + [event]);
      assert Values(pending) == old(Values(pending))[..|pending| - 1] + [tail.call];
      assert Values(taken) == old(Values(taken));
    }

    /** The locked block of `push_event`: the tail span grows, or a new one starts. An item's own append,
        which can throw, comes before any link changes. */
    method PushEvent(user: nat, callback: nat, event: nat, fails: bool) returns (wake: bool, thrown: bool)
      requires Valid()
      modifies this`head, this`tail, this`pending, pending
      ensures Valid() && thrown == (fails && !closed) && wake == (!closed && !fails && old(View()).head == [])
      ensures View() == if closed || fails then old(View()) else AppendEvent(old(View()), user, callback, event)
    {
      hide Chain, DoubleChain, HoldsOf;
      if closed {
        return false, false;
      }
      if fails {
        return false, true;
      }
      HeadIsNull();
      thrown := false;
      wake := head == null;
      if tail != null && tail.call.Batch? && tail.call.user == user && tail.call.callback == callback {
        JoinTail(user, callback, event);
      } else {
        var item := new DeliveryItem(Batch(user, callback, [event]));
        LinkPending(item);
      }
    }

    /** The first block of a dispatch: the pending list moves, unless the queue is closed. */
    method TakeCalls() returns (taking: bool)
      requires Valid() && View().running == []
      modifies this`head, this`tail, this`running, this`pending, this`taken
      ensures Valid() && View() == Take(old(View())) && taking == !closed
    {
      hide Chain, DoubleChain, Values, HoldsOf;
      NoItems();
      if closed {
        return false;
      }
      running, head, tail := head, null, null;
      taken, pending := pending, [];
      taking := true;
    }

    /** The block before each call: the next one, or none of a closed or empty queue. A process that exits
        takes the rest instead, to let go of without a call. */
    method NextCall(exiting: bool) returns (call: DeliveryItem?, dropped: DeliveryItem?, ghost rest: seq<DeliveryItem>)
      requires Valid()
      modifies this`running, this`taken, taken
      ensures Valid() && (closed || old(View()).running == [] ==> call == null && dropped == null && View() == old(View()))
      ensures !closed && old(View()).running != [] && exiting ==>
        && call == null && rest == old(taken) && Chain(dropped, rest) && View() == old(View()).(running := [])
      ensures !closed && old(View()).running != [] && !exiting ==>
        && call != null && dropped == null && call.call == old(View()).running[0] && call.next == null
        && View() == Next(old(View()))
    {
      hide Chain, DoubleChain, Values, HoldsOf;
      NoItems();
      call, dropped, rest := null, null, [];
      RunningIsNull();
      if closed || running == null {
        return;
      }
      if exiting {
        dropped, rest := running, taken;
        running, taken := null, [];
        return;
      }
      call := PopRunning();
    }

    /** Detaches the next call of the taken list. */
    method PopRunning() returns (call: DeliveryItem)
      requires Valid() && running != null && !closed
      modifies this`running, this`taken, taken
      ensures old(View()).running != [] && Valid() && View() == Next(old(View()))
      ensures call.call == old(View()).running[0] && call.next == null
    {
      hide Chain, DoubleChain, Values, HoldsOf;
      RunningIsNull();
      call := running;
      running := PopItem(call, taken);
      taken := taken[1..];
    }

    lemma RunningIsNull()
      requires Valid()
      ensures running == null <==> taken == []
      ensures running != null ==> running == taken[0] && running in taken
    {
    }

    /** The locked block of `close`: empties and closes the queue, and hands over its lists. */
    method TakeAll()
      returns (taking: DeliveryItem?, calls: DeliveryItem?, list: HeldUserData?,
               ghost took: seq<DeliveryItem>, ghost left: seq<DeliveryItem>, ghost linked: seq<HeldUserData>)
      requires Valid()
      modifies this
      ensures Valid() && View() == Model.Close(old(View()))
      ensures Chain(taking, took) && Chain(calls, left) && DoubleChain(list, linked)
      ensures took == old(taken) && left == old(pending) && linked == old(nodes)
    {
      hide Chain, DoubleChain, Values, HoldsOf;
      NoItems();
      taking, calls, list := running, head, held;
      took, left, linked := taken, pending, nodes;
      closed, running, head, tail, held := true, null, null, null, null;
      pending, taken, nodes := [], [], [];
    }

    /** `close`: the hook hears of the last calls that a dispatch had taken, of the pending ones, and of
        the nodes, in that order. `places` is where the reported calls are in the two lists together. */
    method Close(hook: bool, exitAt: int)
      returns (told: seq<nat>, ghost places: seq<nat>, ghost destroyed: seq<DeliveryItem>, ghost freed: seq<HeldUserData>)
      requires Valid()
      modifies this
      ensures Valid() && View() == Model.Close(old(View()))
      ensures destroyed == old(taken + pending) && freed == old(nodes)
      ensures !hook ==> told == []
      ensures hook ==>
        && |told| == |places| + |old(View()).held|
        && Tells(told[..|places|], places, old(View().running + View().head), exitAt)
        && forall k :: 0 <= k < |old(View()).held| ==> told[|places| + k] == old(View()).held[k].user
    {
      hide Valid, Chain, DoubleChain, Values, HoldsOf, Rises, Marks;
      var taking, calls, list, took, left, linked := TakeAll();
      var count, more, last, moreCount;
      told, count, places, destroyed := AbandonItems(taking, took, hook, exitAt);
      ghost var others, morePlaces;
      more, moreCount, morePlaces, others := AbandonItems(calls, left, hook, exitAt - count);
      if hook {
        TellsBoth(told, places, old(View().running), more, morePlaces, old(View().head), exitAt);
      }
      last, freed := AbandonNodes(list, linked, hook);
      places := places + Shifted(morePlaces, count);
      told, destroyed := told + more + last, destroyed + others;
    }

    lemma HeadIsNull()
      requires Valid()
      ensures head == null <==> pending == []
    {
    }

    /** Marks a call that is not in a list yet as its registration's last. */
    method SettleItem(item: DeliveryItem, hold: Hold)
      requires Valid() && item !in pending && item !in taken
      modifies item`call
      ensures Valid() && View() == old(View()) && item.call == Settled(old(item.call), Some(hold))
    {
      item.call := Settled(item.call, Some(hold));
    }
  }

  lemma SettledNone(item: Item)
    ensures Settled(item, None) == item
  {
  }

  predicate Rises(places: seq<nat>) {
    forall i, j :: 0 <= i < j < |places| ==> places[i] < places[j]
  }

  /** The last calls among the first `limit` items. */
  ghost predicate Marks(places: seq<nat>, items: seq<Item>, limit: int) {
    forall k: nat :: k in places <==> k < |items| && k < limit && items[k].Call? && items[k].last.Some?
  }

  predicate Names(told: seq<nat>, places: seq<nat>, items: seq<Item>) {
    && |told| == |places|
    && forall j :: 0 <= j < |places| ==> places[j] < |items| && items[places[j]].Call? && told[j] == items[places[j]].user
  }

  /** The hook hears of the last calls among the first `limit` items, by the user_data each names, in order:
      `places` is where they are. */
  ghost predicate Tells(told: seq<nat>, places: seq<nat>, items: seq<Item>, limit: int) {
    Rises(places) && Marks(places, items, limit) && Names(told, places, items)
  }

  lemma TellsNone(limit: int)
    ensures Tells([], [], [], limit)
  {
  }

  lemma TellsMore(told: seq<nat>, places: seq<nat>, items: seq<Item>, item: Item, limit: int)
    requires Tells(told, places, items, limit)
    ensures |items| < limit && item.Call? && item.last.Some? ==> Tells(told + [item.user], places + [|items|], items + [item], limit)
    ensures !(|items| < limit && item.Call? && item.last.Some?) ==> Tells(told, places, items + [item], limit)
  {
    forall j | 0 <= j < |places| ensures places[j] < |items| { assert places[j] in places; }
    if |items| < limit && item.Call? && item.last.Some? {
      forall k: nat ensures k in places + [|items|] <==> k in places || k == |items| {}
    }
  }

  function Shifted(places: seq<nat>, n: nat): (r: seq<nat>)
    ensures |r| == |places| && forall j :: 0 <= j < |places| ==> r[j] == places[j] + n
  {
    seq(|places|, j requires 0 <= j < |places| => places[j] + n)
  }

  lemma TellsBoth(told: seq<nat>, places: seq<nat>, items: seq<Item>,
                  more: seq<nat>, morePlaces: seq<nat>, others: seq<Item>, limit: int)
    requires Tells(told, places, items, limit) && Tells(more, morePlaces, others, limit - |items|)
    ensures Tells(told + more, places + Shifted(morePlaces, |items|), items + others, limit)
  {
    hide Rises, Marks;
    RisesBoth(places, morePlaces, |items|);
    hide Names;
    MarksBoth(places, items, morePlaces, others, limit);
    NamesBoth(told, places, items, more, morePlaces, others);
  }

  lemma RisesBoth(places: seq<nat>, morePlaces: seq<nat>, n: nat)
    requires Rises(places) && Rises(morePlaces) && forall j :: 0 <= j < |places| ==> places[j] < n
    ensures Rises(places + Shifted(morePlaces, n))
  {
  }

  lemma MarksBoth(places: seq<nat>, items: seq<Item>, morePlaces: seq<nat>, others: seq<Item>, limit: int)
    requires Marks(places, items, limit) && Marks(morePlaces, others, limit - |items|)
    ensures Marks(places + Shifted(morePlaces, |items|), items + others, limit)
  {
    var moved, both := Shifted(morePlaces, |items|), items + others;
    forall k: nat ensures k in places + moved <==> k < |both| && k < limit && both[k].Call? && both[k].last.Some? {
      InShifted(morePlaces, |items|, k);
      assert k < |items| ==> both[k] == items[k];
      assert |items| <= k < |both| ==> both[k] == others[k - |items|];
    }
  }

  lemma NamesBoth(told: seq<nat>, places: seq<nat>, items: seq<Item>, more: seq<nat>, morePlaces: seq<nat>, others: seq<Item>)
    requires Names(told, places, items) && Names(more, morePlaces, others)
    ensures Names(told + more, places + Shifted(morePlaces, |items|), items + others)
  {
    var moved := Shifted(morePlaces, |items|);
    forall j | 0 <= j < |morePlaces|
      ensures (items + others)[moved[j]] == others[morePlaces[j]] && moved[j] < |items + others|
    {
    }
  }

  lemma InShifted(places: seq<nat>, n: nat, k: nat)
    ensures k in Shifted(places, n) <==> k >= n && k - n in places
  {
    if k >= n && k - n in places {
      var i :| 0 <= i < |places| && places[i] == k - n;
      assert Shifted(places, n)[i] == k;
    }
  }

  /** `abandon_items`: destroys each item of a list once, in order. The process starts to exit after
      `exitAt` of them, and from then on the hook hears of none. */
  method AbandonItems(first: DeliveryItem?, ghost items: seq<DeliveryItem>, hook: bool, exitAt: int)
    returns (told: seq<nat>, count: nat, ghost places: seq<nat>, ghost destroyed: seq<DeliveryItem>)
    requires Chain(first, items)
    ensures if hook then Tells(told, places, Values(items), exitAt) else told == []
    ensures destroyed == items && count == |items|
  {
    hide Tells, Values;
    told, count, places, destroyed := [], 0, [], [];
    var item := first;
    ghost var values := Values(items);
    TellsNone(exitAt);
    while item != null
      invariant count <= |items| && item == (if count < |items| then items[count] else null)
      invariant destroyed == items[..count]
      invariant if hook then Tells(told, places, values[..count], exitAt) else told == []
      decreases |items| - count
    {
      var next := item.next;
      if hook {
        TellsMore(told, places, values[..count], values[count], exitAt);
        assert values[..count] + [values[count]] == values[..count + 1];
      }
      if count < exitAt && item.call.Call? && item.call.last.Some? && hook {
        told, places := told + [item.call.user], places + [count];
      }
      destroyed := destroyed + [item];
      item := next;
      count := count + 1;
    }
    assert values[..|items|] == values && items[..|items|] == items;
  }

  /** Frees each held node once, in list order, and tells the hook of its user_data. */
  method AbandonNodes(first: HeldUserData?, ghost nodes: seq<HeldUserData>, hook: bool)
    returns (told: seq<nat>, ghost freed: seq<HeldUserData>)
    requires DoubleChain(first, nodes)
    ensures |told| == if hook then |nodes| else 0
    ensures forall k :: 0 <= k < |told| ==> told[k] == nodes[k].hold.user
    ensures freed == nodes
  {
    told, freed := [], [];
    var node := first;
    while node != null
      invariant |freed| <= |nodes| && node == (if |freed| < |nodes| then nodes[|freed|] else null)
      invariant freed == nodes[..|freed|]
      invariant |told| == if hook then |freed| else 0
      invariant forall k :: 0 <= k < |told| ==> told[k] == nodes[k].hold.user
      decreases |nodes| - |freed|
    {
      if hook {
        told := told + [node.hold.user];
      }
      freed := freed + [node];
      node := node.next;
    }
  }
}
