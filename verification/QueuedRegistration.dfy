/** A callback registration on a queue: what it claims when it is made, and its one last call. */
module QueuedRegistration {
  import opened Wrappers
  import opened DeliveryModel
  import opened DeliveryQueue

  /** `hold_user_data`: a claim on the abandon hook of an open queue that has one. */
  method HoldUserData(queue: DeliveryQueueState, user: nat, hook: bool, id: nat) returns (held: HeldUserData?)
    requires queue.Valid() && Hold(id, user) !in queue.View().held
    modifies queue`held, queue`nodes, queue.nodes
    ensures queue.Valid() && (held != null <==> hook && !queue.closed)
    ensures held != null ==> held.hold == Hold(id, user) && held in queue.nodes && fresh(held)
    ensures queue.View() == if hook then AddHold(old(queue.View()), Hold(id, user)) else old(queue.View())
  {
    hide Chain, DoubleChain, Values;
    if !hook {
      return null;
    }
    var node := new HeldUserData(Hold(id, user));
    var linked := queue.Hold(node);
    held := if linked then node else null;
  }

  /** What a registration that has not retired has on its queue: a last call in no list, and a node of its own. */
  ghost predicate Claims(queue: DeliveryQueueState, user: nat, retired: DeliveryItem?, held: HeldUserData?)
    reads queue, retired
  {
    && (held != null ==> retired != null && held.hold.user == user && (!queue.closed ==> held in queue.nodes))
    && (retired != null ==> retired !in queue.pending && retired !in queue.taken)
    && (retired != null ==> retired.call.Call? && retired.call.user == user && retired.call.last.None?)
  }

  /** The last call is made first, so that retiring allocates nothing, and then the hold. */
  method MakeClaims(queue: DeliveryQueueState, user: nat, tag: nat, hook: bool, id: nat)
    returns (retired: DeliveryItem, held: HeldUserData?)
    requires queue.Valid() && Hold(id, user) !in queue.View().held
    modifies queue`held, queue`nodes, queue.nodes
    ensures queue.Valid() && Claims(queue, user, retired, held) && retired.call == Call(user, tag, None)
    ensures (held != null <==> hook && !queue.closed) && (held != null ==> held.hold == Hold(id, user))
    ensures queue.View() == if hook then AddHold(old(queue.View()), Hold(id, user)) else old(queue.View())
  {
    hide Chain, DoubleChain, Values, HoldsOf;
    ghost var before := queue.View();
    retired := NewCall(queue, user, tag);
    assert queue.View() == before;
    held := HoldUserData(queue, user, hook, id);
  }

  method NewCall(queue: DeliveryQueueState, user: nat, tag: nat) returns (retired: DeliveryItem)
    requires queue.Valid()
    ensures fresh(retired) && retired.call == Call(user, tag, None)
    ensures queue.Valid() && queue.View() == old(queue.View())
    ensures retired !in queue.pending && retired !in queue.taken
  {
    hide Chain, DoubleChain, Values, HoldsOf;
    retired := new DeliveryItem(Call(user, tag, None));
  }

  class Registration {
    const queue: DeliveryQueueState
    const user: nat
    var retired: DeliveryItem?
    var held: HeldUserData?

    ghost predicate Valid()
      reads this, queue, queue.pending, queue.taken, queue.nodes, retired
    {
      queue.Valid() && Claims(queue, user, retired, held)
    }

    /** With a release function, the registration makes its claims on the queue. */
    constructor (queue: DeliveryQueueState, user: nat, tag: nat, release: bool, hook: bool, id: nat)
      requires queue.Valid() && Hold(id, user) !in queue.View().held
      modifies queue`held, queue`nodes, queue.nodes
      ensures Valid() && this.queue == queue && this.user == user
      ensures (retired != null <==> release) && (held != null <==> release && hook && !queue.closed)
      ensures retired != null ==> retired.call == Call(user, tag, None)
      ensures held != null ==> held.hold == Hold(id, user)
      ensures queue.View() == if release && hook then AddHold(old(queue.View()), Hold(id, user)) else old(queue.View())
    {
      hide Chain, DoubleChain, Values, HoldsOf;
      var last, node := null, null;
      if release {
        last, node := MakeClaims(queue, user, tag, hook, id);
      }
      this.queue, this.user, retired, held := queue, user, last, node;
    }

    /** Queues the last call, which settles the hold. A queue that has closed refuses it, and has taken the hold. */
    method Retire() returns (queued: bool)
      requires Valid()
      modifies this, queue`head, queue`tail, queue`pending, queue`held, queue`nodes, queue.pending, queue.nodes, retired
      ensures queue.Valid() && retired == null && held == null
      ensures queued <==> old(retired) != null && !queue.closed
      ensures queue.View() ==
        if !queued then old(queue.View())
        else Append(old(queue.View()), old(retired.call), if old(held) == null then None else Some(old(held).hold))
    {
      hide Chain, DoubleChain, Values, Append, Unlink;
      if retired == null {
        return false;
      }
      var wake;
      queued, wake := queue.Append(retired, held);
      retired, held := null, null;
    }
  }

  /** A hold that is settled, or withdrawn, leaves the held list as it was. */
  lemma HoldEndsClean(q: Queue, hold: Hold, call: Item)
    requires !q.closed
    ensures Withdraw(AddHold(q, hold), hold) == q
    ensures Append(AddHold(q, hold), call, Some(hold)) == q.(head := q.head + [Settled(call, Some(hold))])
  {
  }
}
