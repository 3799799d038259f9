/** Any number of completions whose submissions hold leases on one handle, under
    every order of acceptance, revocation, competing resolves, and destruction. */
module CompletionProtocol {
  import opened Wrappers
  import opened ControlState

  datatype Phase = Created | Accepted | Resolved

  /** How far the one thread that owes the result has come: the winner of the
      exchange to Resolved, or the destructor of an accepted completion. */
  datatype Work =
    | Idle
    | Delivering        // about to hand the result to the sink
    | Delivered         // about to drop the sink and release user_data
    | Released          // about to drop the lease
    | Done
    | Destroyed

  /** How a delivery function ends. It reaches the sink once, unless it throws first. */
  datatype Ending = Delivers | DeliversThenThrows | Throws

  datatype Outcome = Given | Undelivered | Cancelled

  datatype Completion = Completion(
    phase: Phase, lease: bool, work: Work,
    dying: bool,              // the destructor does the work
    revoking: bool,           // between revoke()'s exchange and its lease reset
    delivered: bool,          // delivered_
    results: seq<Outcome>,    // what the host was handed
    released: bool,           // user_data handed back, directly or with the queued call
    everAccepted: bool,
    covered: bool             // accepted on a lease that no revoke has dropped
  )

  const FRESH := Completion(Created, false, Idle, false, false, false, [], false, false, false)

  /** What has become of the callbacks of notify_when_drained(), each named by its call's number. */
  datatype Calls = Calls(
    number: nat,              // the calls so far
    replaced: multiset<nat>,  // stored callbacks that a later call wrote over
    early: Option<nat>,       // the stored callback that begin_close() found with nothing to count
    firing: multiset<nat>,    // callbacks taken and not run yet
    fired: multiset<nat>      // callbacks run
  )

  datatype State = State(
    control: Control,
    completions: map<nat, Completion>,
    others: nat,              // leases of work without a completion
    kids: nat,                // children that the handle retained and that are still there
    calls: Calls
  )

  datatype Step =
    | Make(id: nat)
    | Lease(id: nat)
    | Accept(id: nat)
    | Revoke(id: nat)
    | DropRevoked(id: nat)
    | Resolve(id: nat)
    | Deliver(id: nat, ending: Ending)
    | ReleaseSink(id: nat)
    | DropLease(id: nat)
    | Destroy(id: nat)
    | OtherAcquire
    | OtherRelease
    | RetainOne
    | ReleaseOne
    | Close(deferChildren: bool)
    | NotifyDrained
    | Fire(callback: nat)

  const INITIAL := State(OPEN, map[], 0, 0, Calls(0, multiset{}, None, multiset{}, multiset{}))

  function Put(s: State, id: nat, c: Completion): State {
    s.(completions := s.completions[id := c])
  }

  function Bag(callback: Option<nat>): multiset<nat> {
    if callback.Some? then multiset{callback.value} else multiset{}
  }

  function Take(calls: Calls, callback: Option<nat>): Calls {
    calls.(firing := calls.firing + Bag(callback))
  }

  /** A call on a drained handle runs its callback; on any other it writes over the stored one. */
  function Called(calls: Calls, control: Control): Calls {
    if Drained(control) then Take(calls, Some(calls.number)).(number := calls.number + 1)
    else calls.(number := calls.number + 1, replaced := calls.replaced + Bag(control.callback))
  }

  /** Closing a handle with nothing to count drains it, with a callback that an earlier call may have stored. */
  function Closed(calls: Calls, control: Control, deferChildren: bool): Calls {
    var closed := BeginClose(control, deferChildren);
    if CanClose(control, deferChildren) && Drained(closed) && closed.callback.Some? then calls.(early := closed.callback)
    else calls
  }

  /** Drops one submission lease, which can take the drained callback. */
  function Lowered(s: State): State
    requires s.control.submissions > 0
  {
    s.(control := Release(s.control, false), calls := Take(s.calls, Taken(s.control, false)))
  }

  predicate Alive(s: State, id: nat) {
    id in s.completions && !s.completions[id].work.Destroyed? && !s.completions[id].dying
  }

  /** The exchange of the destructor, then of resolve(): who owes the result. */
  function Begin(c: Completion, dying: bool): Completion {
    c.(phase := if dying then c.phase else Resolved, work := Delivering, dying := dying)
  }

  /** Handing over exactly one result, whatever the delivery function does. */
  function Handed(c: Completion, ending: Ending): Completion {
    if c.dying then c.(delivered := true, results := c.results + [Cancelled], work := Delivered)
    else if ending.Throws? then
      if c.delivered then c.(work := Delivered)
      else c.(delivered := true, results := c.results + [Undelivered], work := Delivered)
    else c.(delivered := true, results := c.results + [Given], work := Delivered)
  }

  function Next(s: State, step: Step): Option<State> {
    match step
    case Make(id) => if id in s.completions then None else Some(Put(s, id, FRESH))
    case Lease(id) =>
      if Alive(s, id) && s.completions[id].phase.Created? && !s.completions[id].lease
         && !s.completions[id].everAccepted && !s.control.closing then
        Some(Put(s, id, s.completions[id].(lease := true)).(control := Acquire(s.control)))
      else None
    case Accept(id) =>
      if !Alive(s, id) || s.completions[id].revoking then None
      else if s.completions[id].phase.Created? then
        Some(Put(s, id, s.completions[id].(phase := Accepted, everAccepted := true, covered := s.completions[id].lease)))
      else Some(s)
    case Revoke(id) =>
      if !Alive(s, id) || s.completions[id].revoking then None
      else if s.completions[id].phase.Accepted? then
        Some(Put(s, id, s.completions[id].(phase := Created, revoking := true, covered := false)))
      else Some(s)
    case DropRevoked(id) =>
      if !Alive(s, id) || !s.completions[id].revoking then None
      else
        var c := s.completions[id];
        var dropped := Put(s, id, c.(revoking := false, lease := false));
        if c.lease && s.control.submissions > 0 then Some(Lowered(dropped)) else Some(dropped)
    case Resolve(id) =>
      if !Alive(s, id) then None
      else if s.completions[id].phase.Accepted? then Some(Put(s, id, Begin(s.completions[id], false)))
      else Some(s)
    case Deliver(id, ending) =>
      if id in s.completions && s.completions[id].work.Delivering? then Some(Put(s, id, Handed(s.completions[id], ending)))
      else None
    case ReleaseSink(id) =>
      if id in s.completions && s.completions[id].work.Delivered? then
        Some(Put(s, id, s.completions[id].(released := true, work := Released)))
      else None
    case DropLease(id) =>
      if id in s.completions && s.completions[id].work.Released? then
        var c := s.completions[id];
        var dropped := Put(s, id, c.(lease := false, work := if c.dying then Destroyed else Done));
        if c.lease && s.control.submissions > 0 then Some(Lowered(dropped)) else Some(dropped)
      else None
    case Destroy(id) =>
      if !Alive(s, id) || s.completions[id].revoking then None
      else if s.completions[id].phase.Accepted? then Some(Put(s, id, Begin(s.completions[id], true)))
      else if s.completions[id].work.Idle? || s.completions[id].work.Done? then
        var c := s.completions[id];
        var dropped := Put(s, id, c.(lease := false, work := Destroyed));
        if c.lease && s.control.submissions > 0 then Some(Lowered(dropped)) else Some(dropped)
      else None
    case OtherAcquire =>
      if s.control.closing then None else Some(s.(control := Acquire(s.control), others := s.others + 1))
    case OtherRelease =>
      if s.others > 0 && s.control.submissions > 0 then Some(Lowered(s).(others := s.others - 1)) else None
    case RetainOne => if s.control.closing then None else Some(s.(control := RetainChild(s.control), kids := s.kids + 1))
    case ReleaseOne =>
      if s.kids > 0 && s.control.children > 0 then
        Some(s.(control := Release(s.control, true), kids := s.kids - 1, calls := Take(s.calls, Taken(s.control, true))))
      else None
    case Close(deferChildren) =>
      Some(s.(control := BeginClose(s.control, deferChildren), calls := Closed(s.calls, s.control, deferChildren)))
    case NotifyDrained => Some(s.(control := Notify(s.control, s.calls.number), calls := Called(s.calls, s.control)))
    case Fire(callback) =>
      if callback in s.calls.firing then
        Some(s.(calls := s.calls.(firing := s.calls.firing - multiset{callback}, fired := s.calls.fired + multiset{callback})))
      else None
  }

  // Invariants ---------------------------------------------------------------

  predicate Good(c: Completion) {
    && |c.results| <= 1 && c.delivered == (|c.results| == 1)
    && (c.work.Idle? || c.work.Delivering? ==> c.results == [] && !c.released)
    && (c.work.Delivered? || c.work.Released? || c.work.Done? ==> |c.results| == 1)
    && (c.work.Released? || c.work.Done? ==> c.released)
    && (c.work.Destroyed? ==> |c.results| == (if c.phase.Created? then 0 else 1) && c.released == !c.phase.Created?)
    && (c.dying ==> c.phase.Accepted? && !c.work.Idle? && !c.work.Done?)
    && (!c.dying && !c.work.Destroyed? ==> (c.phase.Resolved? <==> !c.work.Idle?))
    && (c.lease ==> !c.work.Done? && !c.work.Destroyed?)
    && (c.covered ==> c.lease || c.work.Done? || (c.work.Destroyed? && !c.phase.Created?))
    && (c.revoking ==> c.phase.Created? && c.work.Idle? && !c.covered)
    && (!c.phase.Created? ==> c.everAccepted)
    && (c.covered ==> !c.phase.Created?)
  }

  predicate AllGood(s: State) {
    forall id :: id in s.completions ==> Good(s.completions[id])
  }

  function Leases(completions: map<nat, Completion>): set<nat> {
    set id | id in completions && completions[id].lease
  }

  predicate Counted(s: State) {
    s.control.submissions == |Leases(s.completions)| + s.others && s.control.children == s.kids
  }

  /** How often a callback has been taken, lost to a later call, or is still stored. */
  function Places(calls: Calls, stored: Option<nat>, callback: nat): nat {
    calls.firing[callback] + calls.fired[callback] + calls.replaced[callback] + Bag(stored)[callback]
  }

  /** Each call's callback is in one place; only a drained handle has let one go, and a drained handle
      that still stores one is a handle that drained as it began to close. */
  ghost predicate Callbacks(control: Control, calls: Calls) {
    && (forall c: nat :: Places(calls, control.callback, c) == if c < calls.number then 1 else 0)
    && (!Drained(control) ==> calls.firing == calls.fired == multiset{})
    && calls.early == if Drained(control) then control.callback else None
  }

  ghost predicate Inv(s: State) {
    AllGood(s) && Counted(s) && Callbacks(s.control, s.calls)
  }

  lemma LeasesPut(completions: map<nat, Completion>, id: nat, c: Completion)
    ensures var now := Leases(completions[id := c]);
      && |now| == |Leases(completions)|
                  + (if c.lease then 1 else 0) - (if id in completions && completions[id].lease then 1 else 0)
      && (id in completions && completions[id].lease ==> |Leases(completions)| > 0)
  {
    var was, now := Leases(completions), Leases(completions[id := c]);
    if c.lease {
      assert now == was + {id};
    } else {
      assert now == was - {id};
    }
  }

  lemma PutGood(s: State, id: nat, c: Completion)
    requires AllGood(s) && Good(c)
    ensures AllGood(Put(s, id, c))
  {
  }

  /** A step on one completion that keeps its lease. */
  lemma PutKept(s: State, id: nat, c: Completion)
    requires Inv(s) && Good(c) && c.lease == (id in s.completions && s.completions[id].lease)
    ensures Inv(Put(s, id, c))
  {
    hide Good, Leases, Callbacks;
    LeasesPut(s.completions, id, c);
    PutGood(s, id, c);
  }

  /** A count that goes down takes the stored callback exactly when it was the last. */
  lemma ReleasedCallbacks(control: Control, calls: Calls, child: bool)
    requires Callbacks(control, calls) && if child then control.children > 0 else control.submissions > 0
    ensures Callbacks(Release(control, child), Take(calls, Taken(control, child)))
  {
    var now, later := Release(control, child), Take(calls, Taken(control, child));
    forall c: nat ensures Places(later, now.callback, c) == if c < later.number then 1 else 0 {
      assert Places(calls, control.callback, c) == if c < calls.number then 1 else 0;
    }
  }

  lemma CalledCallbacks(control: Control, calls: Calls)
    requires Callbacks(control, calls)
    ensures Callbacks(Notify(control, calls.number), Called(calls, control))
  {
    var now, later := Notify(control, calls.number), Called(calls, control);
    forall c: nat ensures Places(later, now.callback, c) == if c < later.number then 1 else 0 {
      assert Places(calls, control.callback, c) == if c < calls.number then 1 else 0;
    }
  }

  lemma FiredCallbacks(control: Control, calls: Calls, callback: nat)
    requires Callbacks(control, calls) && callback in calls.firing
    ensures Callbacks(control, calls.(firing := calls.firing - multiset{callback}, fired := calls.fired + multiset{callback}))
  {
    var later := calls.(firing := calls.firing - multiset{callback}, fired := calls.fired + multiset{callback});
    forall c: nat ensures Places(later, control.callback, c) == if c < later.number then 1 else 0 {
      assert Places(calls, control.callback, c) == if c < calls.number then 1 else 0;
    }
  }

  lemma ClosedCallbacks(control: Control, calls: Calls, deferChildren: bool)
    requires Callbacks(control, calls)
    ensures Callbacks(BeginClose(control, deferChildren), Closed(calls, control, deferChildren))
  {
    var now, later := BeginClose(control, deferChildren), Closed(calls, control, deferChildren);
    forall c: nat ensures Places(later, now.callback, c) == if c < later.number then 1 else 0 {
      assert Places(calls, control.callback, c) == if c < calls.number then 1 else 0;
    }
  }

  /** Nothing about callbacks changes while a count of an open handle rises. */
  lemma RaisedCallbacks(control: Control, calls: Calls)
    requires Callbacks(control, calls)
    ensures Callbacks(Acquire(control), calls) && Callbacks(RetainChild(control), calls)
  {
  }

  lemma LoweredCallbacks(s: State)
    requires Callbacks(s.control, s.calls) && s.control.submissions > 0
    ensures Callbacks(Lowered(s).control, Lowered(s).calls) && Lowered(s).control.submissions == s.control.submissions - 1
    ensures Lowered(s).completions == s.completions && Lowered(s).others == s.others
    ensures Lowered(s).control.children == s.control.children && Lowered(s).kids == s.kids
  {
    ReleasedCallbacks(s.control, s.calls, false);
  }

  /** A step that drops one completion's lease, if it has one. */
  lemma DropKept(s: State, id: nat, c: Completion)
    requires Inv(s) && id in s.completions && Good(c) && !c.lease
    ensures s.completions[id].lease ==> s.control.submissions > 0 && Inv(Lowered(Put(s, id, c)))
    ensures !s.completions[id].lease ==> Inv(Put(s, id, c))
  {
    hide Good, Leases, Callbacks;
    LeasesPut(s.completions, id, c);
    PutGood(s, id, c);
    if s.completions[id].lease {
      LoweredCallbacks(Put(s, id, c));
    }
  }

  lemma LeaseKept(s: State, id: nat, c: Completion)
    requires Inv(s) && id in s.completions && !s.completions[id].lease && Good(c) && c.lease && !s.control.closing
    ensures Inv(Put(s, id, c).(control := Acquire(s.control)))
  {
    hide Good, Leases, Callbacks;
    LeasesPut(s.completions, id, c);
    PutGood(s, id, c);
    RaisedCallbacks(s.control, s.calls);
  }

  lemma PhaseStepKept(s: State, step: Step)
    requires Inv(s) && Next(s, step).Some?
    requires step.Accept? || step.Revoke? || step.Resolve?
    ensures Inv(Next(s, step).value)
  {
    hide Leases, Inv;
    var id := step.id;
    var c := s.completions[id];
    GoodOf(s, id);
    match step
    case Accept(_) =>
      if c.phase.Created? {
        PutKept(s, id, c.(phase := Accepted, everAccepted := true, covered := c.lease));
      }
    case Revoke(_) =>
      if c.phase.Accepted? {
        PutKept(s, id, c.(phase := Created, revoking := true, covered := false));
      }
    case Resolve(_) =>
      if c.phase.Accepted? {
        PutKept(s, id, Begin(c, false));
      }
  }

  lemma GoodOf(s: State, id: nat)
    requires Inv(s) && id in s.completions
    ensures Good(s.completions[id])
  {
  }

  lemma WorkStepKept(s: State, step: Step)
    requires Inv(s) && Next(s, step).Some?
    requires step.Make? || step.Lease? || step.Deliver? || step.ReleaseSink?
    ensures Inv(Next(s, step).value)
  {
    hide Leases, Inv;
    var id := step.id;
    if id in s.completions {
      GoodOf(s, id);
    }
    match step
    case Make(_) => PutKept(s, id, FRESH);
    case Lease(_) => LeaseKept(s, id, s.completions[id].(lease := true));
    case Deliver(_, ending) => PutKept(s, id, Handed(s.completions[id], ending));
    case ReleaseSink(_) => PutKept(s, id, s.completions[id].(released := true, work := Released));
  }

  lemma DroppingStepKept(s: State, step: Step)
    requires Inv(s) && Next(s, step).Some?
    requires step.DropRevoked? || step.DropLease? || step.Destroy?
    ensures Inv(Next(s, step).value)
  {
    hide Leases, Inv, Lowered;
    var id := step.id;
    var c := s.completions[id];
    GoodOf(s, id);
    match step
    case DropRevoked(_) => DropKept(s, id, c.(revoking := false, lease := false));
    case DropLease(_) => DropKept(s, id, c.(lease := false, work := if c.dying then Destroyed else Done));
    case Destroy(_) =>
      if c.phase.Accepted? {
        PutKept(s, id, Begin(c, true));
      } else {
        DropKept(s, id, c.(lease := false, work := Destroyed));
      }
  }

  lemma ControlStepKept(s: State, step: Step)
    requires Inv(s) && Next(s, step).Some?
    requires step.OtherAcquire? || step.OtherRelease? || step.RetainOne? || step.ReleaseOne?
             || step.Close? || step.NotifyDrained? || step.Fire?
    ensures Inv(Next(s, step).value)
  {
    hide Good, Leases, Callbacks, Called, Closed, Take, Release;
    RaisedCallbacks(s.control, s.calls);
    match step
    case OtherRelease => LoweredCallbacks(s);
    case ReleaseOne => ReleasedCallbacks(s.control, s.calls, true); CountsAfter(s.control, true);
    case Close(deferChildren) => ClosedCallbacks(s.control, s.calls, deferChildren);
    case NotifyDrained => CalledCallbacks(s.control, s.calls);
    case Fire(callback) => FiredCallbacks(s.control, s.calls, callback);
    case _ =>
  }

  lemma CountsAfter(control: Control, child: bool)
    requires if child then control.children > 0 else control.submissions > 0
    ensures Release(control, child).submissions == control.submissions - if child then 0 else 1
    ensures Release(control, child).children == control.children - if child then 1 else 0
  {
  }

  lemma InvKept(s: State, step: Step)
    requires Inv(s) && Next(s, step).Some?
    ensures Inv(Next(s, step).value)
  {
    hide Inv, Next;
    if step.DropRevoked? || step.DropLease? || step.Destroy? {
      DroppingStepKept(s, step);
    } else if step.Accept? || step.Revoke? || step.Resolve? {
      PhaseStepKept(s, step);
    } else if step.Make? || step.Lease? || step.Deliver? || step.ReleaseSink? {
      WorkStepKept(s, step);
    } else {
      ControlStepKept(s, step);
    }
  }

  // Runs ---------------------------------------------------------------------

  function After(s: State, run: seq<Step>): Option<State>
    decreases |run|
  {
    if run == [] then Some(s)
    else
      match Next(s, run[0])
      case None => None
      case Some(next) => After(next, run[1..])
  }

  ghost predicate Reachable(s: State) {
    exists run :: After(INITIAL, run) == Some(s)
  }

  lemma {:induction false} InvAfter(s: State, run: seq<Step>)
    requires Inv(s) && After(s, run).Some?
    ensures Inv(After(s, run).value)
    decreases |run|
  {
    hide Inv, Next;
    if run != [] {
      InvKept(s, run[0]);
      InvAfter(Next(s, run[0]).value, run[1..]);
    }
  }

  lemma InvReachable(s: State)
    requires Reachable(s)
    ensures Inv(s)
  {
    var run :| After(INITIAL, run) == Some(s);
    InitialInv();
    InvAfter(INITIAL, run);
  }

  lemma InitialInv()
    ensures Inv(INITIAL)
  {
    assert Leases(INITIAL.completions) == {};
  }

  /** A destroyed completion handed over one result if it ended accepted, and none if it was never
      accepted or stayed revoked. Before that it handed over at most one. */
  lemma ExactlyOneResult(s: State, id: nat)
    requires Reachable(s) && id in s.completions
    ensures |s.completions[id].results| <= 1
    ensures s.completions[id].work.Destroyed? ==>
      |s.completions[id].results| == if s.completions[id].phase.Created? then 0 else 1
    ensures !s.completions[id].everAccepted ==> s.completions[id].results == []
  {
    InvReachable(s);
    GoodOf(s, id);
    hide Inv, Reachable;
  }

  /** An accepted completion keeps its lease until it has handed over its result and user_data. */
  lemma LeaseOutlivesDelivery(s: State, id: nat)
    requires Reachable(s) && id in s.completions && s.completions[id].covered && !s.completions[id].lease
    ensures |s.completions[id].results| == 1 && s.completions[id].released
  {
    InvReachable(s);
    GoodOf(s, id);
    hide Inv, Reachable;
  }

  lemma Leaseless(s: State, id: nat)
    requires Inv(s) && s.control.submissions == 0 && id in s.completions
    ensures !s.completions[id].lease
  {
    assert s.completions[id].lease ==> id in Leases(s.completions);
  }

  /** A drained callback runs only on a closing handle whose leases and children are all gone. */
  lemma DrainedLeavesNothing(s: State)
    requires Reachable(s) && s.calls.firing + s.calls.fired != multiset{}
    ensures s.control.closing && s.others == 0 && s.kids == 0
    ensures forall id :: id in s.completions ==> !s.completions[id].lease
  {
    InvReachable(s);
    hide Reachable;
    assert Drained(s.control);
    forall id | id in s.completions ensures !s.completions[id].lease {
      Leaseless(s, id);
    }
  }

  /** A drained callback runs only after every accepted submission has delivered. */
  lemma DrainedAfterDelivery(s: State, id: nat)
    requires Reachable(s) && s.calls.firing + s.calls.fired != multiset{} && id in s.completions && s.completions[id].covered
    ensures Drained(s.control) && |s.completions[id].results| == 1 && s.completions[id].released
  {
    InvReachable(s);
    hide Reachable;
    assert Drained(s.control);
    Leaseless(s, id);
    assert Good(s.completions[id]);
  }

  /** How often a callback has run, or is about to. */
  function Runs(s: State, callback: nat): nat {
    s.calls.firing[callback] + s.calls.fired[callback]
  }

  /** The callback of any call, of any number of them, runs at most once; and it has run, or is about to,
      exactly if the handle has drained, no later call replaced it, and begin_close() did not find it
      stored with nothing to count. */
  lemma DrainedRunsOnce(s: State, callback: nat)
    requires Reachable(s) && callback < s.calls.number
    ensures Runs(s, callback) <= 1
    ensures Runs(s, callback) == 1 <==>
      && s.control.closing && s.control.submissions == 0 && s.control.children == 0
      && callback !in s.calls.replaced && s.calls.early != Some(callback)
  {
    InvReachable(s);
    hide Reachable;
    PlacesOf(s, callback);
  }

  lemma PlacesOf(s: State, callback: nat)
    requires Inv(s) && callback < s.calls.number
    ensures Runs(s, callback) <= 1
    ensures Runs(s, callback) == 1 <==>
      Drained(s.control) && callback !in s.calls.replaced && s.calls.early != Some(callback)
  {
    hide Good, Leases;
    assert Places(s.calls, s.control.callback, callback) == 1;
  }

  // Closing over children ------------------------------------------------------

  /** A close succeeds exactly on a handle that is not closing and, unless they are deferred, has no children; it
      then changes nothing but that the handle is closing, and a refused one changes nothing at all. */
  lemma ClosesWithoutChildren(s: State, deferChildren: bool)
    requires Reachable(s)
    ensures Next(s, Close(deferChildren)).Some?
    ensures var next := Next(s, Close(deferChildren)).value;
      && next.completions == s.completions && next.others == s.others && next.kids == s.kids
      && (if !s.control.closing && (deferChildren || s.kids == 0) then
            next.control == s.control.(closing := true) && next.calls == s.calls.(early := next.calls.early)
          else next == s)
  {
    InvReachable(s);
    hide Reachable;
  }

  predicate NoneDeferred(run: seq<Step>) {
    forall i :: 0 <= i < |run| ==> run[i] != Close(true)
  }

  lemma ChildlessStays(s: State, step: Step)
    requires Inv(s) && Next(s, step).Some? && step != Close(true)
    requires s.control.closing ==> s.kids == 0
    ensures Next(s, step).value.control.closing ==> Next(s, step).value.kids == 0
  {
    hide Good, Leases, Handed, Begin, Alive, Called, Closed;
  }

  lemma {:induction false} ChildlessAfter(s: State, run: seq<Step>)
    requires Inv(s) && (s.control.closing ==> s.kids == 0) && NoneDeferred(run) && After(s, run).Some?
    ensures Inv(After(s, run).value) && (After(s, run).value.control.closing ==> After(s, run).value.kids == 0)
    decreases |run|
  {
    hide Inv, Next;
    if run != [] {
      ChildlessStays(s, run[0]);
      InvKept(s, run[0]);
      ChildlessAfter(Next(s, run[0]).value, run[1..]);
    }
  }

  /** Over any run in which no close defers children, a closing handle has none. */
  lemma ClosingIsChildless(run: seq<Step>)
    requires NoneDeferred(run) && After(INITIAL, run).Some? && After(INITIAL, run).value.control.closing
    ensures After(INITIAL, run).value.control.children == 0 == After(INITIAL, run).value.kids
  {
    InitialInv();
    hide Good, Callbacks, After;
    ChildlessAfter(INITIAL, run);
  }

  predicate NoNotify(run: seq<Step>) {
    forall i :: 0 <= i < |run| ==> !run[i].NotifyDrained?
  }

  /** The counts do not rise, and the callbacks stay where they are or are taken. */
  predicate WindsDown(s: State, next: State) {
    && next.control.closing && next.calls.early == s.calls.early
    && next.control.submissions <= s.control.submissions && next.control.children <= s.control.children
    && next.calls.replaced == s.calls.replaced && next.calls.number == s.calls.number
  }

  lemma CompletionWindsDown(s: State, step: Step)
    requires s.control.closing && Next(s, step).Some?
    requires step.Make? || step.Lease? || step.Accept? || step.Revoke? || step.DropRevoked? || step.Resolve? || step.Deliver?
             || step.ReleaseSink? || step.DropLease? || step.Destroy?
    ensures WindsDown(s, Next(s, step).value)
  {
    hide Handed, Begin, Alive;
  }

  /** No step raises a count or ends the closing of a closing handle, and only a call replaces a callback. */
  lemma ClosingStays(s: State, step: Step)
    requires s.control.closing && Next(s, step).Some?
    ensures var next := Next(s, step).value;
      && next.control.closing && next.calls.early == s.calls.early
      && next.control.submissions <= s.control.submissions && next.control.children <= s.control.children
      && (!step.NotifyDrained? ==> next.calls.replaced == s.calls.replaced && next.calls.number == s.calls.number)
  {
    if step.OtherAcquire? || step.OtherRelease? || step.RetainOne? || step.ReleaseOne? || step.Close? || step.NotifyDrained?
       || step.Fire? {
      hide Handed, Begin, Alive;
    } else {
      CompletionWindsDown(s, step);
      hide Next;
    }
  }

  /** Without another call, a closing handle replaces no callback and finds none too early. */
  lemma {:induction false} NothingLost(s: State, run: seq<Step>)
    requires Inv(s) && s.control.closing && NoNotify(run) && After(s, run).Some?
    ensures var end := After(s, run).value;
      Inv(end) && end.calls.replaced == s.calls.replaced && end.calls.early == s.calls.early && end.calls.number == s.calls.number
    decreases |run|
  {
    hide Inv, Next;
    if run != [] {
      ClosingStays(s, run[0]);
      InvKept(s, run[0]);
      NothingLost(Next(s, run[0]).value, run[1..]);
    }
  }

  /** A call that begin_close() comes before, and that no other call follows, is safe: its callback runs
      exactly once the handle has drained. */
  lemma NotifyAfterCloseRuns(s: State, run: seq<Step>)
    requires Reachable(s) && s.control.closing && NoNotify(run) && After(s, [NotifyDrained] + run).Some?
    ensures Runs(After(s, [NotifyDrained] + run).value, s.calls.number) ==
      if Drained(After(s, [NotifyDrained] + run).value.control) then 1 else 0
  {
    InvReachable(s);
    InvKept(s, NotifyDrained);
    AfterMore(s, NotifyDrained, run);
    NewCall(s);
    hide Inv, Next, Reachable, After;
    var next := Noted(s);
    NothingLost(next, run);
    PlacesOf(After(next, run).value, s.calls.number);
  }

  function Noted(s: State): State {
    Next(s, NotifyDrained).value
  }

  lemma NewCall(s: State)
    requires Inv(s)
    ensures var next := Noted(s);
      && s.calls.number !in next.calls.replaced && next.calls.early != Some(s.calls.number)
      && next.calls.number == s.calls.number + 1 && next.control.closing == s.control.closing
  {
    hide Good, Leases;
    assert Places(s.calls, s.control.callback, s.calls.number) == 0;
  }

  lemma AfterMore(s: State, step: Step, rest: seq<Step>)
    ensures After(s, [step] + rest) == if Next(s, step).None? then None else After(Next(s, step).value, rest)
    ensures rest == [] ==> After(s, [step] + rest) == Next(s, step)
  {
    assert ([step] + rest)[1..] == rest;
  }

  /** One loss: a call, and then begin_close() on a handle with nothing to count. */
  lemma NotifyBeforeCloseIsLost()
    ensures var s := After(INITIAL, [NotifyDrained] + ([Close(false)] + []));
      s.Some? && s.value.calls.early == Some(0) && Drained(s.value.control) && Runs(s.value, 0) == 0
  {
    hide After;
    var called := Next(INITIAL, NotifyDrained).value;
    AfterMore(INITIAL, NotifyDrained, [Close(false)] + []);
    AfterMore(called, Close(false), []);
  }

  /** The other loss: a second call before the handle has drained writes over the first one's callback. */
  lemma SecondNotifyReplaces()
    ensures Reachable(Busy())
    ensures var s := After(Busy(), [NotifyDrained] + ([NotifyDrained] + ([OtherRelease] + [])));
      s.Some? && Drained(s.value.control) && s.value.calls.early.None? && Runs(s.value, 0) == 0 && Runs(s.value, 1) == 1
  {
    hide After;
    BusyIsReached();
    var first := Next(Busy(), NotifyDrained).value;
    var second := Next(first, NotifyDrained).value;
    AfterMore(Busy(), NotifyDrained, [NotifyDrained] + ([OtherRelease] + []));
    AfterMore(first, NotifyDrained, [OtherRelease] + []);
    AfterMore(second, OtherRelease, []);
  }

  lemma BusyIsReached()
    ensures After(INITIAL, [OtherAcquire] + ([Close(false)] + [])) == Some(Busy())
  {
    hide After;
    AfterMore(INITIAL, OtherAcquire, [Close(false)] + []);
    AfterMore(Next(INITIAL, OtherAcquire).value, Close(false), []);
  }

  /** A closing handle with one lease. */
  function Busy(): State {
    INITIAL.(control := Control(1, 0, true, None), others := 1)
  }

  // What a resolve or the destructor gives -------------------------------------

  /** The steps of the thread that owes the result, from the exchange on. */
  function Finish(id: nat, ending: Ending): seq<Step> {
    [Deliver(id, ending), ReleaseSink(id), DropLease(id)]
  }

  /** A resolve of an accepted completion always goes through: the host gets what the delivery function hands over, or
      a native error if that throws first, and user_data and lease are given back. */
  lemma ResolveGives(s: State, id: nat, ending: Ending)
    requires Reachable(s) && Alive(s, id) && s.completions[id].phase.Accepted?
    ensures After(s, [Resolve(id)] + Finish(id, ending)).Some?
    ensures var end := After(s, [Resolve(id)] + Finish(id, ending)).value;
      && id in end.completions && end.completions[id].phase.Resolved? && end.completions[id].work.Done?
      && end.completions[id].results == [if ending.Throws? then Undelivered else Given]
      && end.completions[id].released && !end.completions[id].lease
  {
    InvReachable(s);
    hide Reachable, Inv;
    Finishes(Next(s, Resolve(id)).value, id, ending);
    AfterFirst(s, Resolve(id), Finish(id, ending));
  }

  /** The destructor of an accepted completion gives its cancellation. */
  lemma DestroyGives(s: State, id: nat, ending: Ending)
    requires Reachable(s) && Alive(s, id) && s.completions[id].phase.Accepted? && !s.completions[id].revoking
    ensures After(s, [Destroy(id)] + Finish(id, ending)).Some?
    ensures var end := After(s, [Destroy(id)] + Finish(id, ending)).value;
      && id in end.completions && end.completions[id].work.Destroyed?
      && end.completions[id].results == [Cancelled]
      && end.completions[id].released && !end.completions[id].lease
  {
    InvReachable(s);
    hide Reachable, Inv;
    Finishes(Next(s, Destroy(id)).value, id, ending);
    AfterFirst(s, Destroy(id), Finish(id, ending));
  }

  lemma AfterFirst(s: State, step: Step, rest: seq<Step>)
    requires Next(s, step).Some?
    ensures After(s, [step] + rest) == After(Next(s, step).value, rest)
  {
    hide Next;
    assert ([step] + rest)[1..] == rest;
  }

  lemma Finishes(s: State, id: nat, ending: Ending)
    requires id in s.completions && s.completions[id].work.Delivering?
    requires s.completions[id].results == [] && !s.completions[id].delivered
    ensures After(s, Finish(id, ending)).Some?
    ensures var end := After(s, Finish(id, ending)).value; var c := s.completions[id];
      && id in end.completions && end.completions[id].phase == c.phase
      && end.completions[id].work == (if c.dying then Destroyed else Done)
      && end.completions[id].results == [if c.dying then Cancelled else if ending.Throws? then Undelivered else Given]
      && end.completions[id].released && !end.completions[id].lease
  {
    hide Next, Handed;
    DeliverIs(s, id, ending);
    var handed := Next(s, Deliver(id, ending)).value;
    ReleaseIs(handed, id);
    var released := Next(handed, ReleaseSink(id)).value;
    DropIs(released, id);
    assert [DropLease(id)] + [] == [DropLease(id)];
    AfterFirst(released, DropLease(id), []);
    assert [ReleaseSink(id)] + [DropLease(id)] == [ReleaseSink(id), DropLease(id)];
    AfterFirst(handed, ReleaseSink(id), [DropLease(id)]);
    assert [Deliver(id, ending)] + [ReleaseSink(id), DropLease(id)] == Finish(id, ending);
    AfterFirst(s, Deliver(id, ending), [ReleaseSink(id), DropLease(id)]);
  }

  lemma DeliverIs(s: State, id: nat, ending: Ending)
    requires id in s.completions && s.completions[id].work.Delivering?
    requires s.completions[id].results == [] && !s.completions[id].delivered
    ensures Next(s, Deliver(id, ending)).Some?
    ensures var next := Next(s, Deliver(id, ending)).value; var c := s.completions[id];
      id in next.completions && next.completions[id] ==
        c.(delivered := true, work := Delivered,
           results := [if c.dying then Cancelled else if ending.Throws? then Undelivered else Given])
  {
  }

  lemma ReleaseIs(s: State, id: nat)
    requires id in s.completions && s.completions[id].work.Delivered?
    ensures Next(s, ReleaseSink(id)).Some?
    ensures var next := Next(s, ReleaseSink(id)).value;
      id in next.completions && next.completions[id] == s.completions[id].(released := true, work := Released)
  {
  }

  lemma DropIs(s: State, id: nat)
    requires id in s.completions && s.completions[id].work.Released?
    ensures Next(s, DropLease(id)).Some?
    ensures var next := Next(s, DropLease(id)).value; var c := s.completions[id];
      id in next.completions && next.completions[id] == c.(lease := false, work := if c.dying then Destroyed else Done)
  {
  }
}
