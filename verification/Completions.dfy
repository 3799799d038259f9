/** One completion's own steps, and the queued delivery of its result. */
module Completions {
  import opened Wrappers
  import opened CompletionProtocol
  import ControlState

  /** What release() does, in order. */
  datatype Act = DropSink | ReleaseUserData | ResetLease

  /** The class of the source. `sink` is whether the sink still has its descriptor; the results and the
      trail record what the host was given and what release() did. */
  class Completion {
    var phase: Phase
    const queued: bool
    var sink: bool
    var fallback: bool
    var delivered: bool
    var lease: ControlState.State?
    ghost var results: seq<Outcome>
    ghost var trail: seq<Act>

    /** What holds whenever no member function runs. */
    ghost predicate Valid()
      reads this, lease
    {
      && delivered == (|results| == 1) && |results| <= 1 && (delivered <==> phase.Resolved?)
      && sink == !delivered && multiset(trail)[ReleaseUserData] == (if delivered && !queued then 1 else 0)
      && (lease != null ==> lease.Valid() && lease.submissions > 0 && !delivered)
    }

    constructor (queued: bool)
      ensures Valid() && phase.Created? && results == [] && trail == [] && lease == null && this.queued == queued
    {
      phase, this.queued, sink, fallback, delivered, lease := Created, queued, true, queued, false, null;
      results, trail := [], [];
    }

    /** Takes the lease of a submission that the handle has counted. */
    method SetSubmissionLease(lease: ControlState.State)
      requires Valid() && phase.Created? && this.lease == null && lease.Valid() && lease.submissions > 0
      modifies this`lease
      ensures Valid() && this.lease == lease
    {
      this.lease := lease;
    }

    method Accept()
      requires Valid()
      modifies this`phase
      ensures Valid() && phase == if old(phase).Created? then Accepted else old(phase)
    {
      if phase.Created? {
        phase := Accepted;
      }
    }

    /** `ControlLease::reset`: the handle counts one submission fewer, and runs what that drains. */
    method ResetLease() returns (run: Option<nat>)
      requires lease != null ==> lease.Valid() && lease.submissions > 0
      modifies this`lease, this`trail, lease
      ensures lease == null && Dropped(old(lease), run)
      ensures trail == old(trail) + if old(lease) == null then [] else [Act.ResetLease]
    {
      run := None;
      if lease != null {
        run := lease.ReleaseCount(false);
        lease := null;
        trail := trail + [Act.ResetLease];
      }
    }

    /** The handle's count and callback after one lease, or none, was given back. */
    twostate predicate Dropped(lease: ControlState.State?, new run: Option<nat>)
      reads lease
    {
      if lease == null then run == None
      else
        && old(lease.submissions) > 0 && lease.Valid()
        && lease.View() == ControlState.Release(old(lease.View()), false)
        && run == ControlState.Taken(old(lease.View()), false)
    }

    method Revoke() returns (run: Option<nat>)
      requires Valid()
      modifies this`phase, this`lease, this`trail, lease
      ensures Valid() && phase == if old(phase).Accepted? then Created else old(phase)
      ensures old(phase).Accepted? ==> lease == null && Dropped(old(lease), run)
      ensures !old(phase).Accepted? ==>
        lease == old(lease) && run == None && trail == old(trail) && (lease != null ==> lease.View() == old(lease.View()))
    {
      run := None;
      if phase.Accepted? {
        phase := Created;
        run := ResetLease();
      }
    }

    /** Hands the sink its result, however the delivery function ends. */
    method Deliver(ending: Ending)
      requires !delivered && results == []
      modifies this`delivered, this`results
      ensures delivered && results == [if ending.Throws? then Undelivered else Given]
    {
      if !ending.Throws? {
        HandOver(Given);
      }
      if !ending.Delivers? && !delivered {
        HandOver(Undelivered);
      }
    }

    method HandOver(outcome: Outcome)
      requires !delivered
      modifies this`delivered, this`results
      ensures delivered && results == old(results) + [outcome]
    {
      delivered := true;
      results := results + [outcome];
    }

    /** The sink and its fallback go first, then user_data that no queue releases, and the lease last. */
    method Release() returns (run: Option<nat>)
      requires sink && (lease != null ==> lease.Valid() && lease.submissions > 0)
      modifies this`sink, this`fallback, this`trail, this`lease, lease
      ensures !sink && !fallback && lease == null && Dropped(old(lease), run)
      ensures trail == old(trail) + Trail(old(lease) != null)
    {
      sink, fallback, trail := false, false, trail + [DropSink];
      if !queued {
        trail := trail + [ReleaseUserData];
      }
      run := ResetLease();
    }

    function Trail(leased: bool): (acts: seq<Act>)
      ensures acts != [] && acts[0] == DropSink
      ensures multiset(acts) == multiset{DropSink} + (if queued then multiset{} else multiset{ReleaseUserData})
        + if leased then multiset{Act.ResetLease} else multiset{}
      ensures leased ==> acts[|acts| - 1] == Act.ResetLease
    {
      [DropSink] + (if queued then [] else [ReleaseUserData]) + (if leased then [Act.ResetLease] else [])
    }

    /** Only the winner of the exchange delivers, once; the others change nothing. */
    method Resolve(ending: Ending) returns (won: bool, run: Option<nat>)
      requires Valid()
      modifies this`phase, this`delivered, this`results, this`sink, this`fallback, this`trail, this`lease, lease
      ensures Valid() && won == old(phase).Accepted?
      ensures won ==>
        && phase.Resolved? && results == [if ending.Throws? then Undelivered else Given] && lease == null
        && trail == old(trail) + Trail(old(lease) != null) && Dropped(old(lease), run)
      ensures !won ==>
        && phase == old(phase) && results == old(results) && trail == old(trail) && lease == old(lease) && run == None
        && (lease != null ==> lease.View() == old(lease.View()))
    {
      if !phase.Accepted? {
        return false, None;
      }
      phase := Resolved;
      Deliver(ending);
      run := Release();
      won := true;
    }

    /** The destructor: an accepted completion that nothing resolved is cancelled. */
    method Destroy() returns (run: Option<nat>)
      requires Valid()
      modifies this`delivered, this`results, this`sink, this`fallback, this`trail, this`lease, lease
      ensures lease == null && Dropped(old(lease), run)
      ensures |results| == if phase.Created? then 0 else 1
      ensures phase.Accepted? ==> results == [Cancelled] && trail == old(trail) + Trail(old(lease) != null)
      ensures multiset(trail)[ReleaseUserData] == if phase.Created? || queued then 0 else 1
    {
      if phase.Accepted? {
        HandOver(Cancelled);
        run := Release();
      } else {
        run := ResetLease();
      }
    }
  }

  // Queued delivery ----------------------------------------------------------

  const RESERVED := 256

  /** Where the copy of a result goes, and what the item then holds. */
  datatype Storage = Fallback | Allocated | Owning
  datatype Content = Copy(result: nat) | NativeError
  datatype Item = Item(storage: Storage, hasRecord: bool, content: Option<Content>)

  /** What can throw while a result is copied. */
  datatype Faults = Faults(measure: bool, allocate: bool, place: bool, write: bool)

  /** `deliver_queued`: whichever step of the copy throws, one item with a result is pushed,
      and without a throw it is the copy. The fallback item, whose record make_completion_sink()
      placed, makes that possible. */
  method DeliverQueued(result: nat, size: nat, borrow: bool, faults: Faults) returns (pushed: Item)
    ensures pushed.hasRecord && (pushed.content == Some(Copy(result)) || pushed.content == Some(NativeError))
    ensures faults.measure || faults.place || faults.write ==> pushed.content == Some(NativeError)
    ensures faults.allocate && (borrow || size > 256) ==> pushed.content == Some(NativeError)
    ensures !(faults.measure || faults.place || faults.write) && !(faults.allocate && (borrow || size > 256)) ==>
      pushed == Item(if borrow then Owning else if size <= 256 then Fallback else Allocated, true, Some(Copy(result)))
  {
    var fallback := Some(Item(Fallback, true, None));
    var item := None;
    var failed := faults.measure;
    if !failed {
      if borrow {
        if faults.allocate { failed := true; } else { item := Some(Item(Owning, false, None)); }
      } else if size <= RESERVED {
        item, fallback := fallback, None;
      } else {
        if faults.allocate { failed := true; } else { item := Some(Item(Allocated, false, None)); }
      }
    }
    if !failed {
      if faults.place {
        failed := true;
      } else {
        item := Some(item.value.(hasRecord := true));
        if faults.write { failed := true; } else { item := Some(item.value.(content := Some(Copy(result)))); }
      }
    }
    if failed {
      if item == None || !item.value.hasRecord {
        item, fallback := fallback, None;
      }
      item := Some(item.value.(content := Some(NativeError)));
    }
    pushed := item.value;
  }
}
