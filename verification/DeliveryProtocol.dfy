/** Any number of threads on one delivery queue. Each locked block and each
    atomic operation is one step. A call that a running host callback makes is a
    step of another thread, which can only add interleavings. */
module DeliveryProtocol {
  import opened Wrappers
  import opened DeliveryModel

  /** What a thread is about to do. */
  datatype Pc =
    | Idle
    // dispatch
    | Request
    | Acquire
    | Check
    | Enter
    | TakeCalls
    | NextCall
    | InCall(item: Item)
    | Release
    | Recheck
    // push, with the hold that a last call settles
    | PushEnter(call: Item, settled: Option<Hold>)
    | PushLock(call: Item, settled: Option<Hold>)
    | Notify
    | EventEnter(user: nat, callback: nat, event: nat)
    | EventLock(user: nat, callback: nat, event: nat)
    // holds
    | HoldLock(owner: nat)
    | DropLock(node: Hold)
    // close
    | CloseLock
    | CloseWake(items: seq<Item>, nodes: seq<Hold>)
    | Abandon(items: seq<Item>, nodes: seq<Hold>, report: bool)

  /** What has happened so far, for stating properties; no step reads it. */
  datatype Log = Log(
    pushed: seq<HostCall>, ran: seq<HostCall>, abandoned: seq<HostCall>,
    issued: multiset<Hold>, finished: multiset<Hold>, reported: multiset<Hold>, withdrawn: multiset<Hold>,
    freed: multiset<Hold>,
    edges: nat, notified: nat,  // empty-to-nonempty changes, and wakes
    owed: bool,                 // a wake that no dispatch has followed yet
    demanded: nat,              // the calls pushed when the last dispatch began
    owner: Option<nat>,         // the thread between its two dispatching_ exchanges
    closer: Option<nat>,        // the thread whose close() took the lists
    owing: set<nat>             // the threads between unlock and notify
  )

  /** `handles` are the unsettled AbandonHold objects. */
  datatype State = State(
    q: Queue, dispatching: bool, requested: bool, exiting: bool, hook: bool,
    pcs: map<nat, Pc>, handles: set<Hold>, nextId: nat, log: Log
  )

  datatype Op =
    | Dispatch
    | Push(call: Item)
    | PushLast(call: Item, hold: Hold)
    | PushEvent(user: nat, callback: nat, event: nat)
    | TakeHold(user: nat)
    | DropHold(hold: Hold)
    | CloseQueue

  datatype Move = Begin(op: Op) | Go | FailEvent | Exit

  function Initial(threads: set<nat>, hook: bool): State {
    State(EMPTY, false, false, false, hook, map t | t in threads :: Idle, {}, 0,
          Log([], [], [], multiset{}, multiset{}, multiset{}, multiset{}, multiset{}, 0, 0, false, 0, None, None, {}))
  }

  function At(s: State, t: nat, pc: Pc): State {
    s.(pcs := s.pcs[t := pc])
  }

  function Start(s: State, t: nat, op: Op): Option<State>
    requires t in s.pcs
  {
    match op
    case Dispatch => Some(At(s, t, Request))
    case Push(call) =>
      if call.Call? && call.last.None? then Some(At(s, t, PushEnter(call, None))) else None
    case PushLast(call, hold) =>
      if call.Call? && call.last.None? && call.user == hold.user && hold in s.handles then
        Some(At(s, t, PushEnter(call, Some(hold))).(handles := s.handles - {hold}))
      else None
    case PushEvent(user, callback, event) => Some(At(s, t, EventEnter(user, callback, event)))
    case TakeHold(user) => if s.hook then Some(At(s, t, HoldLock(user))) else None
    case DropHold(hold) =>
      if hold in s.handles then Some(At(s, t, DropLock(hold)).(handles := s.handles - {hold})) else None
    case CloseQueue => Some(At(s, t, CloseLock))
  }

  // dispatch -----------------------------------------------------------------

  function StepRequest(s: State, t: nat): State {
    At(s, t, Acquire).(requested := true, log := s.log.(owed := false, demanded := |s.log.pushed|))
  }

  function StepAcquire(s: State, t: nat): State {
    if s.dispatching then At(s, t, Idle)
    else At(s, t, Check).(dispatching := true, log := s.log.(owner := Some(t)))
  }

  function StepCheck(s: State, t: nat): State {
    if s.requested then At(s, t, Enter).(requested := false) else At(s, t, Release)
  }

  function StepEnter(s: State, t: nat): State {
    At(s, t, if s.exiting then Check else TakeCalls)
  }

  function StepTakeCalls(s: State, t: nat): State {
    At(s, t, if s.q.closed then Check else NextCall).(q := Take(s.q))
  }

  function StepNextCall(s: State, t: nat): State {
    if s.q.closed || s.q.running == [] then At(s, t, Check)
    else if s.exiting then At(s, t, Check).(q := s.q.(running := []))
    else At(s, t, InCall(s.q.running[0])).(q := Next(s.q))
  }

  function StepInCall(s: State, t: nat, item: Item): State {
    At(s, t, NextCall).(log := s.log.(ran := s.log.ran + Calls(item), finished := s.log.finished + Last(item)))
  }

  function StepRelease(s: State, t: nat): State {
    At(s, t, Recheck).(dispatching := false, log := s.log.(owner := None))
  }

  function StepRecheck(s: State, t: nat): State {
    At(s, t, if s.requested then Acquire else Idle)
  }

  // push ---------------------------------------------------------------------

  function StepPushEnter(s: State, t: nat, call: Item, settled: Option<Hold>): State {
    if s.exiting then At(s, t, if settled.Some? then DropLock(settled.value) else Idle)
    else At(s, t, PushLock(call, settled))
  }

  /** The log of an accepted push, which owes a wake if the list was empty. */
  function Logged(s: State, t: nat, calls: seq<HostCall>): Log {
    if s.q.head == [] then
      s.log.(pushed := s.log.pushed + calls, edges := s.log.edges + 1, owing := s.log.owing + {t})
    else s.log.(pushed := s.log.pushed + calls)
  }

  /** The settled node is deleted outside the lock, where only this thread can reach it. */
  function StepPushLock(s: State, t: nat, call: Item, settled: Option<Hold>): State {
    if s.q.closed then At(s, t, Idle)
    else
      var log := Logged(s, t, Calls(call));
      At(s, t, if s.q.head == [] then Notify else Idle)
        .(q := Append(s.q, call, settled),
          log := if settled.Some? then log.(freed := log.freed + multiset{settled.value}) else log)
  }

  function StepNotify(s: State, t: nat): State {
    At(s, t, Idle).(log := s.log.(notified := s.log.notified + 1, owed := true, owing := s.log.owing - {t}))
  }

  function StepEventEnter(s: State, t: nat, user: nat, callback: nat, event: nat): State {
    At(s, t, if s.exiting then Idle else EventLock(user, callback, event))
  }

  function StepEventLock(s: State, t: nat, user: nat, callback: nat, event: nat): State {
    if s.q.closed then At(s, t, Idle)
    else
      At(s, t, if s.q.head == [] then Notify else Idle)
        .(q := AppendEvent(s.q, user, callback, event), log := Logged(s, t, [Event(user, callback, event)]))
  }

  // holds --------------------------------------------------------------------

  function StepHoldLock(s: State, t: nat, user: nat): State {
    if s.q.closed then At(s, t, Idle)
    else
      var hold := Hold(s.nextId, user);
      At(s, t, Idle).(q := AddHold(s.q, hold), handles := s.handles + {hold}, nextId := s.nextId + 1,
                      log := s.log.(issued := s.log.issued + multiset{hold}))
  }

  function StepDropLock(s: State, t: nat, node: Hold): State {
    if s.q.closed then At(s, t, Idle)
    else
      At(s, t, Idle).(q := Withdraw(s.q, node),
        log := s.log.(withdrawn := s.log.withdrawn + multiset{node}, freed := s.log.freed + multiset{node}))
  }

  // close --------------------------------------------------------------------

  function StepCloseLock(s: State, t: nat): State {
    var items := s.q.running + s.q.head;
    At(s, t, CloseWake(items, s.q.held)).(q := Close(s.q),
      log := s.log.(abandoned := s.log.abandoned + Flat(items), closer := if s.q.closed then s.log.closer else Some(t)))
  }

  function StepCloseWake(s: State, t: nat, items: seq<Item>, nodes: seq<Hold>): State {
    At(s, t, Abandon(items, nodes, s.hook && !s.exiting))
  }

  /** Destroys the next item or frees the next node, and reports its user_data. */
  function StepAbandon(s: State, t: nat, items: seq<Item>, nodes: seq<Hold>, report: bool): State {
    if items != [] then
      At(s, t, Abandon(items[1..], nodes, report))
        .(log := s.log.(reported := s.log.reported + if report && !s.exiting then Last(items[0]) else multiset{}))
    else if nodes != [] then
      At(s, t, Abandon([], nodes[1..], report))
        .(log := s.log.(reported := s.log.reported + if report then multiset{nodes[0]} else multiset{},
                        freed := s.log.freed + multiset{nodes[0]}))
    else At(s, t, Idle)
  }

  function Advance(s: State, t: nat): State
    requires t in s.pcs && !s.pcs[t].Idle?
  {
    match s.pcs[t]
    case Request => StepRequest(s, t)
    case Acquire => StepAcquire(s, t)
    case Check => StepCheck(s, t)
    case Enter => StepEnter(s, t)
    case TakeCalls => StepTakeCalls(s, t)
    case NextCall => StepNextCall(s, t)
    case InCall(item) => StepInCall(s, t, item)
    case Release => StepRelease(s, t)
    case Recheck => StepRecheck(s, t)
    case PushEnter(call, settled) => StepPushEnter(s, t, call, settled)
    case PushLock(call, settled) => StepPushLock(s, t, call, settled)
    case Notify => StepNotify(s, t)
    case EventEnter(user, callback, event) => StepEventEnter(s, t, user, callback, event)
    case EventLock(user, callback, event) => StepEventLock(s, t, user, callback, event)
    case HoldLock(owner) => StepHoldLock(s, t, owner)
    case DropLock(node) => StepDropLock(s, t, node)
    case CloseLock => StepCloseLock(s, t)
    case CloseWake(items, nodes) => StepCloseWake(s, t, items, nodes)
    case Abandon(items, nodes, report) => StepAbandon(s, t, items, nodes, report)
  }

  /** One step of thread `t`. An event append that throws moves its thread alone,
      and the process can begin to exit at any time. */
  function Step(s: State, t: nat, move: Move): Option<State> {
    if move.Exit? then Some(s.(exiting := true))
    else if t !in s.pcs then None
    else if s.pcs[t].Idle? then if move.Begin? then Start(s, t, move.op) else None
    else if move.Go? then Some(Advance(s, t))
    else if move.FailEvent? && s.pcs[t].EventLock? then Some(At(s, t, Idle))
    else None
  }

  // Invariants ---------------------------------------------------------------

  /** Between winning the exchange of `dispatching_` and giving it back. */
  predicate Owns(pc: Pc) {
    pc.Check? || pc.Enter? || pc.TakeCalls? || pc.NextCall? || pc.InCall? || pc.Release?
  }

  predicate InDispatch(pc: Pc) {
    Owns(pc) || pc.Request? || pc.Acquire? || pc.Recheck?
  }

  predicate Decides(pc: Pc) {
    pc.Acquire? || pc.Recheck?
  }

  function OwnerPc(s: State): Pc {
    if s.log.owner.Some? && s.log.owner.value in s.pcs then s.pcs[s.log.owner.value] else Idle
  }

  /** The owner has consumed a request and will take the pending list. */
  predicate WillTake(s: State) {
    OwnerPc(s).Enter? || OwnerPc(s).TakeCalls?
  }

  /** The call that runs now. */
  function Flight(s: State): seq<Item> {
    if OwnerPc(s).InCall? then [OwnerPc(s).item] else []
  }

  function CloserPc(s: State): Pc {
    if s.log.closer.Some? && s.log.closer.value in s.pcs then s.pcs[s.log.closer.value] else Idle
  }

  /** The items that the closing thread still has to destroy. */
  function DoomedItems(s: State): seq<Item> {
    var pc := CloserPc(s);
    if pc.CloseWake? || pc.Abandon? then pc.items else []
  }

  function DoomedNodes(s: State): seq<Hold> {
    var pc := CloserPc(s);
    if pc.CloseWake? || pc.Abandon? then pc.nodes else []
  }

  /** One thread at a time runs calls, and `running_` is its own. */
  predicate OneOwner(s: State) {
    && s.dispatching == s.log.owner.Some?
    && (s.log.owner.Some? ==> s.log.owner.value in s.pcs)
    && (forall t :: t in s.pcs ==> (Owns(s.pcs[t]) <==> s.log.owner == Some(t)))
    && (s.q.running != [] ==> OwnerPc(s).NextCall? || OwnerPc(s).InCall?)
  }

  /** A request outlives its dispatch only while someone is bound to see it. */
  predicate RequestSeen(s: State) {
    s.requested ==> s.dispatching || exists d :: d in s.pcs && Decides(s.pcs[d])
  }

  predicate Closing(s: State) {
    && s.q.closed == s.log.closer.Some?
    && (s.log.closer.Some? ==> s.log.closer.value in s.pcs)
    && (s.q.closed ==> s.q.head == [] && s.q.running == [] && s.q.held == [])
    && (forall t :: t in s.pcs && (s.pcs[t].CloseWake? || s.pcs[t].Abandon?) && s.log.closer != Some(t) ==>
          s.pcs[t].items == [] && s.pcs[t].nodes == [])
  }

  /** The push history is the concatenation of everything a call can be in, oldest first. */
  predicate Fifo(s: State) {
    && (!s.q.closed ==> s.log.abandoned == [])
    && (!s.exiting ==>
          s.log.pushed == s.log.ran + Flat(Flight(s)) + s.log.abandoned + Flat(s.q.running) + Flat(s.q.head))
  }

  /** Calls pushed before the last dispatch began are taken, or bound to be. */
  predicate Demand(s: State) {
    && s.log.demanded <= |s.log.pushed|
    && (!s.exiting ==> s.log.demanded + |Flat(s.q.head)| <= |s.log.pushed| || s.requested || WillTake(s))
  }

  predicate Wakes(s: State) {
    && (forall t :: t in s.pcs ==> (s.pcs[t].Notify? <==> t in s.log.owing))
    && s.log.owing <= s.pcs.Keys
    && |s.log.owing| + s.log.notified == s.log.edges
  }

  /** A nonempty open queue has a wake on its way, or a dispatch that will take it. */
  predicate Wakeful(s: State) {
    !s.exiting && !s.q.closed && s.q.head != [] ==> s.log.owing != {} || s.log.owed || s.requested || WillTake(s)
  }

  /** The claim that a thread has moved out of its handle and not yet settled or withdrawn. */
  function Claim(pc: Pc): Option<Hold> {
    match pc
    case PushEnter(call, settled) => settled
    case PushLock(call, settled) => settled
    case DropLock(node) => Some(node)
    case _ => None
  }

  predicate Claims(s: State) {
    && (forall h :: h in s.handles ==> h.id < s.nextId && (!s.q.closed ==> h in s.q.held))
    && (forall t :: t in s.pcs && Claim(s.pcs[t]).Some? ==>
          var h := Claim(s.pcs[t]).value;
          h !in s.handles && h.id < s.nextId && (!s.q.closed ==> h in s.q.held))
    && (forall t, u :: t in s.pcs && u in s.pcs && t != u && Claim(s.pcs[t]).Some? ==> Claim(s.pcs[t]) != Claim(s.pcs[u]))
    && (forall t :: t in s.pcs && (s.pcs[t].PushEnter? || s.pcs[t].PushLock?) ==>
          && s.pcs[t].call.Call? && s.pcs[t].call.last.None?
          && (s.pcs[t].settled.Some? ==> s.pcs[t].call.user == s.pcs[t].settled.value.user))
    && (forall h :: h in s.log.issued ==> h.id < s.nextId && s.log.issued[h] == 1)
    && (forall t :: t in s.pcs && s.pcs[t].HoldLock? ==> s.hook)
  }

  /** Every node is linked, about to be freed by close(), or freed once. */
  predicate Nodes(s: State) {
    s.log.issued == multiset(s.q.held) + multiset(DoomedNodes(s)) + s.log.freed
  }

  /** Every claim is held, in a queued or running last call, waiting in close(),
      or has ended in exactly one way. */
  predicate Account(s: State) {
    && (!s.exiting && CloserPc(s).Abandon? ==> CloserPc(s).report == s.hook)
    && (!s.exiting && s.hook ==>
          s.log.issued == multiset(s.q.held) + Lasts(s.q.head) + Lasts(s.q.running) + Lasts(Flight(s))
                          + Lasts(DoomedItems(s)) + multiset(DoomedNodes(s))
                          + s.log.finished + s.log.reported + s.log.withdrawn)
  }

  predicate Inv(s: State) {
    && OneOwner(s) && RequestSeen(s) && Closing(s) && Fifo(s) && Demand(s)
    && Wakes(s) && Wakeful(s) && Claims(s) && Nodes(s) && Account(s)
  }

  lemma InitialInv(threads: set<nat>, hook: bool)
    ensures Inv(Initial(threads, hook))
  {
  }

  // Steps --------------------------------------------------------------------

  /** Only thread `t` moves. */
  predicate Moves(s: State, s': State, t: nat) {
    t in s.pcs && t in s'.pcs && s'.pcs == s.pcs[t := s'.pcs[t]] && s'.hook == s.hook
  }

  lemma OwnerStays(s: State, s': State, t: nat)
    requires Moves(s, s', t) && OneOwner(s) && s'.log.owner == s.log.owner
    ensures if Owns(s.pcs[t]) then OwnerPc(s) == s.pcs[t] && OwnerPc(s') == s'.pcs[t] else OwnerPc(s') == OwnerPc(s)
  {
    assert Owns(s.pcs[t]) <==> s.log.owner == Some(t);
  }

  lemma CloserStays(s: State, s': State, t: nat)
    requires Moves(s, s', t) && Closing(s) && s'.log.closer == s.log.closer
    ensures if s.log.closer == Some(t) then CloserPc(s) == s.pcs[t] && CloserPc(s') == s'.pcs[t] else CloserPc(s') == CloserPc(s)
  {
  }

  /** What a closing thread holds stays its own. */
  predicate SameDoom(s: State, s': State) {
    && DoomedItems(s') == DoomedItems(s) && DoomedNodes(s') == DoomedNodes(s)
    && (CloserPc(s').Abandon? ==> CloserPc(s') == CloserPc(s))
  }

  lemma DoomStays(s: State, s': State, t: nat)
    requires Moves(s, s', t) && Closing(s) && s'.log.closer == s.log.closer
    requires !ClosePc(s.pcs[t]) && !ClosePc(s'.pcs[t])
    ensures SameDoom(s, s')
  {
    CloserStays(s, s', t);
    hide Closing, Moves;
  }

  lemma OneOwnerStays(s: State, s': State, t: nat)
    requires Moves(s, s', t) && OneOwner(s)
    requires s'.dispatching == s.dispatching && s'.log.owner == s.log.owner && Owns(s'.pcs[t]) == Owns(s.pcs[t])
    requires s'.q.running != [] ==>
      (s'.q.running == s.q.running && OwnerPc(s') == OwnerPc(s)) || OwnerPc(s').NextCall? || OwnerPc(s').InCall?
    ensures OneOwner(s')
  {
    forall u | u in s'.pcs ensures Owns(s'.pcs[u]) <==> s'.log.owner == Some(u) {
      assert u in s.pcs;
    }
  }

  lemma RequestSeenStays(s: State, s': State, t: nat)
    requires Moves(s, s', t) && RequestSeen(s)
    requires s'.requested ==>
      s'.dispatching || Decides(s'.pcs[t]) || (s.requested && s'.dispatching == s.dispatching && !Decides(s.pcs[t]))
    ensures RequestSeen(s')
  {
    if s'.requested && !s'.dispatching {
      if Decides(s'.pcs[t]) {
      } else {
        var d :| d in s.pcs && Decides(s.pcs[d]);
        assert d in s'.pcs && Decides(s'.pcs[d]);
      }
    }
  }

  predicate ClosePc(pc: Pc) {
    pc.CloseWake? || pc.Abandon?
  }

  lemma ClosingStays(s: State, s': State, t: nat)
    requires Moves(s, s', t) && Closing(s)
    requires s'.q.closed == s.q.closed && s'.log.closer == s.log.closer
    requires s.q.closed ==> s'.q == s.q
    requires ClosePc(s'.pcs[t]) && s.log.closer != Some(t) ==> s'.pcs[t].items == [] && s'.pcs[t].nodes == []
    ensures Closing(s')
  {
  }

  lemma WakesStay(s: State, s': State, t: nat)
    requires Moves(s, s', t) && Wakes(s)
    requires s'.pcs[t].Notify? ==> !s.pcs[t].Notify?
    requires s'.log.owing ==
      if s'.pcs[t].Notify? then s.log.owing + {t} else if s.pcs[t].Notify? then s.log.owing - {t} else s.log.owing
    requires s'.log.edges == s.log.edges + if s'.pcs[t].Notify? then 1 else 0
    requires s'.log.notified == s.log.notified + if s.pcs[t].Notify? then 1 else 0
    ensures Wakes(s')
  {
    forall u | u in s'.pcs ensures s'.pcs[u].Notify? <==> u in s'.log.owing {
      assert u in s.pcs;
    }
  }

  lemma ClaimsStay(s: State, s': State, t: nat)
    requires Moves(s, s', t) && Claims(s)
    requires s'.handles == s.handles && s'.nextId == s.nextId && s'.log.issued == s.log.issued
    requires s'.q.held == s.q.held || s'.q.closed
    requires s.q.closed ==> s'.q.closed
    requires Claim(s'.pcs[t]) == None || Claim(s'.pcs[t]) == Claim(s.pcs[t])
    requires s'.pcs[t].HoldLock? ==> s.pcs[t].HoldLock?
    requires s'.pcs[t].PushEnter? ==> s.pcs[t].PushEnter? && s'.pcs[t] == s.pcs[t]
    requires s'.pcs[t].PushLock? ==> s.pcs[t].PushEnter? && s'.pcs[t].call == s.pcs[t].call && s'.pcs[t].settled == s.pcs[t].settled
    ensures Claims(s')
  {
  }

  lemma LedgerStays(s: State, s': State)
    requires Fifo(s) && Nodes(s) && Account(s)
    requires s'.q == s.q && s'.hook == s.hook && (s.exiting ==> s'.exiting)
    requires s'.log.pushed == s.log.pushed && s'.log.ran == s.log.ran && s'.log.abandoned == s.log.abandoned
    requires s'.log.issued == s.log.issued && s'.log.finished == s.log.finished && s'.log.reported == s.log.reported
    requires s'.log.withdrawn == s.log.withdrawn && s'.log.freed == s.log.freed
    requires Flight(s') == Flight(s) && DoomedItems(s') == DoomedItems(s) && DoomedNodes(s') == DoomedNodes(s)
    requires !s'.exiting && CloserPc(s').Abandon? ==> CloserPc(s') == CloserPc(s) || CloserPc(s').report == s.hook
    ensures Fifo(s') && Nodes(s') && Account(s')
  {
    hide Flat, Lasts, Flight, CloserPc, DoomedItems, DoomedNodes;
  }

  lemma LedgerApart(s: State, s': State)
    requires Fifo(s) && Nodes(s) && Account(s) && SameLedger(s, s')
    requires s'.q == s.q && s'.hook == s.hook && s'.exiting == s.exiting && Flight(s') == Flight(s) && SameDoom(s, s')
    ensures Fifo(s') && Nodes(s') && Account(s')
  {
    hide Fifo, Nodes, Account, Flight, CloserPc, DoomedItems, DoomedNodes;
    LedgerStays(s, s');
  }

  lemma DemandStays(s: State, s': State)
    requires Demand(s) && (s.exiting ==> s'.exiting)
    requires s'.log.demanded == s.log.demanded && s'.log.pushed == s.log.pushed && s'.q.head == s.q.head
    requires s.requested || WillTake(s) ==> s'.requested || WillTake(s')
    ensures Demand(s')
  {
  }

  lemma WakefulStays(s: State, s': State)
    requires Wakeful(s) && (s.exiting ==> s'.exiting) && s'.q.head == s.q.head && s'.q.closed == s.q.closed
    requires s.log.owing != {} || s.log.owed || s.requested || WillTake(s) ==>
      s'.log.owing != {} || s'.log.owed || s'.requested || WillTake(s')
    ensures Wakeful(s')
  {
  }

  /** The log of contents: everything but wakes, requests and the two roles. */
  predicate SameLedger(s: State, s': State) {
    && s'.log.pushed == s.log.pushed && s'.log.ran == s.log.ran && s'.log.abandoned == s.log.abandoned
    && s'.log.issued == s.log.issued && s'.log.finished == s.log.finished && s'.log.reported == s.log.reported
    && s'.log.withdrawn == s.log.withdrawn && s'.log.freed == s.log.freed
  }

  /** A step outside the queue by a thread that neither dispatches nor closes. */
  lemma BystanderKept(s: State, s': State, t: nat)
    requires Inv(s) && Moves(s, s', t) && SameLedger(s, s') && s'.q == s.q && s'.exiting == s.exiting
    requires s'.dispatching == s.dispatching && s'.log.owner == s.log.owner && s'.log.closer == s.log.closer
    requires !Owns(s.pcs[t]) && !Owns(s'.pcs[t]) && !ClosePc(s.pcs[t]) && !ClosePc(s'.pcs[t])
    requires s'.requested ==> s'.dispatching || Decides(s'.pcs[t]) || (s.requested && !Decides(s.pcs[t]))
    requires s.requested ==> s'.requested
    requires s'.log.demanded == s.log.demanded || (s'.requested && s'.log.demanded == |s.log.pushed|)
    requires s'.pcs[t].Notify? == false
    requires s'.log.owing == if s.pcs[t].Notify? then s.log.owing - {t} else s.log.owing
    requires s'.log.edges == s.log.edges && s'.log.notified == s.log.notified + if s.pcs[t].Notify? then 1 else 0
    requires s.log.owing != {} || s.log.owed ==> s'.log.owing != {} || s'.log.owed || s'.requested
    requires Claims(s')
    ensures Inv(s')
  {
    hide OneOwner, RequestSeen, Closing, Fifo, Wakes, Claims, Nodes, Account, SameLedger, SameDoom, Flat, Lasts;
    OwnerStays(s, s', t);
    DoomStays(s, s', t);
    OneOwnerStays(s, s', t);
    RequestSeenStays(s, s', t);
    ClosingStays(s, s', t);
    WakesStay(s, s', t);
    LedgerApart(s, s');
    SamePushed(s, s');
  }

  lemma SamePushed(s: State, s': State)
    requires SameLedger(s, s')
    ensures s'.log.pushed == s.log.pushed && s'.log.issued == s.log.issued
  {
  }

  lemma ClaimsOf(s: State)
    requires Inv(s)
    ensures Claims(s)
  {
  }

  /** A thread with no part in dispatching, waking or closing. */
  predicate Quiet(pc: Pc) {
    !Owns(pc) && !Decides(pc) && !ClosePc(pc) && !pc.Notify?
  }

  lemma QuietKept(s: State, t: nat, pc: Pc)
    requires Inv(s) && t in s.pcs && Quiet(s.pcs[t]) && Quiet(pc) && Claims(At(s, t, pc))
    ensures Inv(At(s, t, pc))
  {
    hide Inv, Claims;
    BystanderKept(s, At(s, t, pc), t);
  }

  /** A quiet thread's next place carries the claim on, or none. */
  lemma OnwardKept(s: State, t: nat, pc: Pc)
    requires Inv(s) && t in s.pcs && Quiet(s.pcs[t]) && Quiet(pc)
    requires Claim(pc) == None || Claim(pc) == Claim(s.pcs[t])
    requires !pc.HoldLock? && !pc.PushEnter?
    requires pc.PushLock? ==> s.pcs[t].PushEnter? && pc.call == s.pcs[t].call && pc.settled == s.pcs[t].settled
    ensures Inv(At(s, t, pc))
  {
    hide Inv, Claims, Claim, Quiet;
    ClaimsOf(s);
    ClaimsStay(s, At(s, t, pc), t);
    QuietKept(s, t, pc);
  }

  // Starting an operation, and the steps that leave the queue alone ----------

  lemma ClaimTaken(s: State, s': State, t: nat, hold: Hold)
    requires Moves(s, s', t) && Claims(s) && hold in s.handles
    requires s'.handles == s.handles - {hold} && s'.nextId == s.nextId && s'.log == s.log && s'.q == s.q
    requires Claim(s.pcs[t]) == None && Claim(s'.pcs[t]) == Some(hold) && !s'.pcs[t].PushLock?
    requires s'.pcs[t].PushEnter? ==> s'.pcs[t].call.Call? && s'.pcs[t].call.last.None? && s'.pcs[t].call.user == hold.user
    ensures Claims(s')
  {
  }

  lemma PlainClaims(s: State, s': State, t: nat)
    requires Moves(s, s', t) && Claims(s)
    requires s'.handles == s.handles && s'.nextId == s.nextId && s'.log == s.log && s'.q == s.q
    requires Claim(s'.pcs[t]) == None && !s'.pcs[t].PushLock? && (s'.pcs[t].HoldLock? ==> s.hook)
    requires s'.pcs[t].PushEnter? ==> s'.pcs[t].call.Call? && s'.pcs[t].call.last.None?
    ensures Claims(s')
  {
  }

  /** What an operation begins with. */
  predicate Begins(pc: Pc) {
    && Quiet(pc) && !pc.PushLock?
    && (pc.PushEnter? ==> pc.call.Call? && pc.call.last.None?)
  }

  lemma KeptBegin(s: State, t: nat, pc: Pc)
    requires Inv(s) && t in s.pcs && s.pcs[t].Idle? && Begins(pc) && Claim(pc) == None && (pc.HoldLock? ==> s.hook)
    ensures Inv(At(s, t, pc))
  {
    hide Inv, Claims;
    ClaimsOf(s);
    PlainClaims(s, At(s, t, pc), t);
    QuietKept(s, t, pc);
  }

  lemma KeptClaim(s: State, t: nat, pc: Pc, hold: Hold)
    requires Inv(s) && t in s.pcs && s.pcs[t].Idle? && Begins(pc) && Claim(pc) == Some(hold) && hold in s.handles
    requires pc.PushEnter? ==> pc.call.user == hold.user
    ensures Inv(At(s, t, pc).(handles := s.handles - {hold}))
  {
    hide Inv, Claims;
    ClaimsOf(s);
    ClaimTaken(s, At(s, t, pc).(handles := s.handles - {hold}), t, hold);
    BystanderKept(s, At(s, t, pc).(handles := s.handles - {hold}), t);
  }

  lemma KeptStart(s: State, t: nat, op: Op)
    requires Inv(s) && t in s.pcs && s.pcs[t].Idle? && Start(s, t, op).Some?
    ensures Inv(Start(s, t, op).value)
  {
    hide Inv;
    match op
    case Dispatch => KeptBegin(s, t, Request);
    case Push(call) => KeptBegin(s, t, PushEnter(call, None));
    case PushLast(call, hold) => KeptClaim(s, t, PushEnter(call, Some(hold)), hold);
    case PushEvent(user, callback, event) => KeptBegin(s, t, EventEnter(user, callback, event));
    case TakeHold(user) => KeptBegin(s, t, HoldLock(user));
    case DropHold(hold) => KeptClaim(s, t, DropLock(hold), hold);
    case CloseQueue => KeptBegin(s, t, CloseLock);
  }

  lemma KeptRequest(s: State, t: nat)
    requires Inv(s) && t in s.pcs && s.pcs[t].Request?
    ensures Inv(StepRequest(s, t))
  {
    hide Inv, Claims;
    ClaimsOf(s);
    ClaimsStay(s, StepRequest(s, t), t);
    BystanderKept(s, StepRequest(s, t), t);
  }

  lemma KeptRecheck(s: State, t: nat)
    requires Inv(s) && t in s.pcs && s.pcs[t].Recheck?
    ensures Inv(StepRecheck(s, t))
  {
    hide Inv, Claims;
    ClaimsOf(s);
    ClaimsStay(s, StepRecheck(s, t), t);
    BystanderKept(s, StepRecheck(s, t), t);
  }

  lemma KeptPushEnter(s: State, t: nat, call: Item, settled: Option<Hold>)
    requires Inv(s) && t in s.pcs && s.pcs[t] == PushEnter(call, settled)
    ensures Inv(StepPushEnter(s, t, call, settled))
  {
    hide Inv, At;
    if !s.exiting {
      OnwardKept(s, t, PushLock(call, settled));
    } else if settled.Some? {
      OnwardKept(s, t, DropLock(settled.value));
    } else {
      OnwardKept(s, t, Idle);
    }
  }

  lemma KeptEventEnter(s: State, t: nat, user: nat, callback: nat, event: nat)
    requires Inv(s) && t in s.pcs && s.pcs[t] == EventEnter(user, callback, event)
    ensures Inv(StepEventEnter(s, t, user, callback, event))
  {
    hide Inv, At;
    OnwardKept(s, t, if s.exiting then Idle else EventLock(user, callback, event));
  }

  lemma KeptNotify(s: State, t: nat)
    requires Inv(s) && t in s.pcs && s.pcs[t].Notify?
    ensures Inv(StepNotify(s, t))
  {
    hide Inv, Claims;
    ClaimsOf(s);
    ClaimsStay(s, StepNotify(s, t), t);
    BystanderKept(s, StepNotify(s, t), t);
  }

  /** A locked block that finds the queue closed, or a failed event append. */
  lemma KeptRefused(s: State, t: nat)
    requires Inv(s) && t in s.pcs
    requires s.pcs[t].PushLock? || s.pcs[t].EventLock? || s.pcs[t].HoldLock? || s.pcs[t].DropLock?
    ensures Inv(At(s, t, Idle))
  {
    hide Inv, At;
    OnwardKept(s, t, Idle);
  }

  // The dispatch loop --------------------------------------------------------

  /** A dispatcher's step that leaves the queue and the log of contents alone. */
  predicate Dispatches(s: State, s': State, t: nat) {
    && Moves(s, s', t) && SameLedger(s, s') && s'.q == s.q && s'.exiting == s.exiting
    && s'.log.closer == s.log.closer && s'.log.demanded == s.log.demanded
    && InDispatch(s.pcs[t]) && InDispatch(s'.pcs[t])
    && s'.log.owing == s.log.owing && s'.log.owed == s.log.owed
    && s'.log.edges == s.log.edges && s'.log.notified == s.log.notified
    && s'.handles == s.handles && s'.nextId == s.nextId
  }

  lemma DispatcherKept(s: State, s': State, t: nat)
    requires Inv(s) && Dispatches(s, s', t) && OneOwner(s')
    requires s'.requested ==> s'.dispatching || Decides(s'.pcs[t])
    requires Flight(s') == Flight(s)
    requires !s.exiting && (s.requested || WillTake(s)) ==> s'.requested || WillTake(s')
    ensures Inv(s')
  {
    hide OneOwner, RequestSeen, Closing, Fifo, Demand, Wakes, Wakeful, Claims, Nodes, Account, Dispatches, Flight, WillTake;
    DispatcherRoles(s, s', t);
    DispatcherContent(s, s', t);
  }

  lemma DispatcherRoles(s: State, s': State, t: nat)
    requires Inv(s) && Dispatches(s, s', t) && (s'.requested ==> s'.dispatching || Decides(s'.pcs[t]))
    ensures RequestSeen(s') && Closing(s') && Wakes(s') && Claims(s')
  {
    hide OneOwner, RequestSeen, Closing, Fifo, Demand, Wakes, Wakeful, Claims, Nodes, Account, SameLedger;
    RequestSeenStays(s, s', t);
    ClosingStays(s, s', t);
    WakesStay(s, s', t);
    SamePushed(s, s');
    ClaimsStay(s, s', t);
  }

  lemma DispatcherContent(s: State, s': State, t: nat)
    requires Inv(s) && Dispatches(s, s', t) && Flight(s') == Flight(s)
    requires !s.exiting && (s.requested || WillTake(s)) ==> s'.requested || WillTake(s')
    ensures Fifo(s') && Nodes(s') && Account(s') && Demand(s') && Wakeful(s')
  {
    hide OneOwner, RequestSeen, Closing, Fifo, Demand, Wakes, Wakeful, Claims, Nodes, Account, SameLedger, SameDoom,
      Flight, WillTake;
    DoomStays(s, s', t);
    LedgerApart(s, s');
    SamePushed(s, s');
    if s.exiting {
      ExitingDemand(s, s');
    } else {
      DemandStays(s, s');
      WakefulStays(s, s');
    }
  }

  lemma ExitingDemand(s: State, s': State)
    requires Demand(s) && s'.exiting && s'.log.demanded == s.log.demanded && s'.log.pushed == s.log.pushed
    ensures Demand(s') && Wakeful(s')
  {
  }

  lemma OneOwnerOf(s: State, t: nat)
    requires Inv(s) && t in s.pcs
    ensures OneOwner(s) && (Owns(s.pcs[t]) ==> OwnerPc(s) == s.pcs[t] && s.dispatching)
    ensures s.log.owner == None ==> !Owns(s.pcs[t]) && OwnerPc(s) == Idle
  {
    assert Owns(s.pcs[t]) <==> s.log.owner == Some(t);
  }

  lemma OwnerAcquires(s: State, s': State, t: nat)
    requires Moves(s, s', t) && OneOwner(s) && !s.dispatching && Owns(s'.pcs[t]) && s'.q.running == s.q.running
    requires s'.dispatching && s'.log.owner == Some(t)
    ensures OneOwner(s') && OwnerPc(s') == s'.pcs[t]
  {
    forall u | u in s'.pcs ensures Owns(s'.pcs[u]) <==> s'.log.owner == Some(u) {
      assert u in s.pcs;
    }
  }

  lemma OwnerReleases(s: State, s': State, t: nat)
    requires Moves(s, s', t) && OneOwner(s) && s.pcs[t].Release? && !Owns(s'.pcs[t]) && s'.q.running == s.q.running
    requires !s'.dispatching && s'.log.owner == None
    ensures OneOwner(s') && OwnerPc(s') == Idle
  {
    assert Owns(s.pcs[t]);
    forall u | u in s'.pcs ensures Owns(s'.pcs[u]) <==> s'.log.owner == Some(u) {
      assert u in s.pcs;
    }
  }

  lemma KeptAcquire(s: State, t: nat)
    requires Inv(s) && t in s.pcs && s.pcs[t].Acquire?
    ensures Inv(StepAcquire(s, t))
  {
    hide Inv, At;
    if s.dispatching {
      KeptBusy(s, t);
    } else {
      KeptWin(s, t);
    }
  }

  lemma KeptBusy(s: State, t: nat)
    requires Inv(s) && t in s.pcs && s.pcs[t].Acquire? && s.dispatching
    ensures Inv(At(s, t, Idle))
  {
    hide Inv, Claims;
    ClaimsOf(s);
    ClaimsStay(s, At(s, t, Idle), t);
    BystanderKept(s, At(s, t, Idle), t);
  }

  lemma KeptWin(s: State, t: nat)
    requires Inv(s) && t in s.pcs && s.pcs[t].Acquire? && !s.dispatching
    ensures Inv(StepAcquire(s, t))
  {
    hide Inv, Claims, OneOwner;
    var s' := StepAcquire(s, t);
    OneOwnerOf(s, t);
    NoOwner(s);
    OwnerAcquires(s, s', t);
    DispatcherKept(s, s', t);
  }

  lemma NoOwner(s: State)
    requires OneOwner(s) && !s.dispatching
    ensures OwnerPc(s) == Idle && s.log.owner == None
  {
  }

  lemma KeptCheck(s: State, t: nat)
    requires Inv(s) && t in s.pcs && s.pcs[t].Check?
    ensures Inv(StepCheck(s, t))
  {
    hide Inv, Claims, OneOwner;
    var s' := StepCheck(s, t);
    OneOwnerOf(s, t);
    OwnerStays(s, s', t);
    NotRunning(s);
    OneOwnerStays(s, s', t);
    DispatcherKept(s, s', t);
  }

  lemma NotRunning(s: State)
    requires OneOwner(s) && !OwnerPc(s).NextCall? && !OwnerPc(s).InCall?
    ensures s.q.running == []
  {
  }

  lemma KeptEnter(s: State, t: nat)
    requires Inv(s) && t in s.pcs && s.pcs[t].Enter?
    ensures Inv(StepEnter(s, t))
  {
    hide Inv, Claims, OneOwner;
    var s' := StepEnter(s, t);
    OneOwnerOf(s, t);
    OwnerStays(s, s', t);
    NotRunning(s);
    OneOwnerStays(s, s', t);
    DispatcherKept(s, s', t);
  }

  lemma KeptRelease(s: State, t: nat)
    requires Inv(s) && t in s.pcs && s.pcs[t].Release?
    ensures Inv(StepRelease(s, t))
  {
    hide Inv, Claims, OneOwner;
    var s' := StepRelease(s, t);
    OneOwnerOf(s, t);
    OwnerReleases(s, s', t);
    DispatcherKept(s, s', t);
  }

  // Steps on the queue -------------------------------------------------------

  /** What a thread other than the dispatcher and the closer leaves alone. */
  predicate RolesStay(s: State, s': State) {
    && s'.dispatching == s.dispatching && s'.requested == s.requested && s'.exiting == s.exiting
    && s'.log.owner == s.log.owner && s'.log.closer == s.log.closer && s'.log.demanded == s.log.demanded
  }

  lemma RegroupCalls(a: seq<HostCall>, b: seq<HostCall>, c: seq<HostCall>, d: seq<HostCall>, e: seq<HostCall>, x: seq<HostCall>)
    ensures a + b + c + d + e + x == a + b + c + d + (e + x)
  {
  }

  /** A push: the pending list and the push history both grow by the same calls. */
  lemma PushedContent(s: State, s': State, calls: seq<HostCall>)
    requires Fifo(s) && Demand(s) && !s.q.closed && !s'.q.closed
    requires s'.exiting == s.exiting && s'.log.ran == s.log.ran && s'.log.abandoned == s.log.abandoned
    requires s'.q.running == s.q.running && Flight(s') == Flight(s)
    requires s'.log.pushed == s.log.pushed + calls && Flat(s'.q.head) == Flat(s.q.head) + calls
    requires s'.log.demanded == s.log.demanded
    requires s.requested || WillTake(s) ==> s'.requested || WillTake(s')
    ensures Fifo(s') && Demand(s')
  {
    hide Flat;
    RegroupCalls(s.log.ran, Flat(Flight(s)), s.log.abandoned, Flat(s.q.running), Flat(s.q.head), calls);
  }

  /** Only the threads' other affairs: a locked push by a thread with no role. */
  lemma PusherKept(s: State, s': State, t: nat)
    requires Inv(s) && Moves(s, s', t) && RolesStay(s, s') && !s.q.closed && !s'.q.closed
    requires s.pcs[t].PushLock? || s.pcs[t].EventLock?
    requires s'.pcs[t] == if s.q.head == [] then Notify else Idle
    requires s'.q.running == s.q.running && s'.q.head != []
    requires s'.log.owing == if s.q.head == [] then s.log.owing + {t} else s.log.owing
    requires s'.log.edges == s.log.edges + if s.q.head == [] then 1 else 0
    requires s'.log.notified == s.log.notified && s'.log.owed == s.log.owed
    requires Fifo(s') && Demand(s') && Claims(s') && Nodes(s') && Account(s')
    ensures Inv(s')
  {
    hide OneOwner, RequestSeen, Closing, Fifo, Demand, Wakes, Claims, Nodes, Account, Flat, Lasts;
    OwnerStays(s, s', t);
    OneOwnerStays(s, s', t);
    RequestSeenStays(s, s', t);
    OpenClosing(s, s', t);
    WakesStay(s, s', t);
  }

  lemma OpenClosing(s: State, s': State, t: nat)
    requires Moves(s, s', t) && Closing(s) && !s.q.closed && !s'.q.closed && s'.log.closer == s.log.closer
    requires !ClosePc(s'.pcs[t])
    ensures Closing(s') && CloserPc(s') == Idle && CloserPc(s) == Idle
  {
  }

  /** Settling a claim moves it from the held list into the pending last call. */
  lemma SettledAccount(s: State, s': State, call: Item, settled: Option<Hold>)
    requires Account(s) && Nodes(s) && call.Call? && call.last.None? && s'.exiting == s.exiting && s'.hook == s.hook
    requires settled.Some? ==> settled.value in s.q.held && call.user == settled.value.user
    requires s'.q == Append(s.q, call, settled)
    requires Flight(s') == Flight(s) && DoomedItems(s') == DoomedItems(s) && DoomedNodes(s') == DoomedNodes(s)
    requires CloserPc(s') == CloserPc(s)
    requires s'.log.issued == s.log.issued && s'.log.finished == s.log.finished
    requires s'.log.reported == s.log.reported && s'.log.withdrawn == s.log.withdrawn
    requires s'.log.freed == s.log.freed + if settled.Some? then multiset{settled.value} else multiset{}
    ensures Account(s') && Nodes(s')
  {
    hide Lasts, Flat, Unlink, Last, Settled, Flight, CloserPc, DoomedItems, DoomedNodes;
    AppendFlat(s.q, call, settled);
    LastOf(call, settled);
    if settled.Some? {
      UnlinkRemoves(s.q.held, settled.value);
      var held, one := multiset(Unlink(s.q.held, settled.value)), multiset{settled.value};
      MoveSum(held, one, multiset(DoomedNodes(s)), s.log.freed);
      SettleSum(held, one, Lasts(s.q.head), Lasts(s.q.running), Lasts(Flight(s)), Lasts(DoomedItems(s)),
        multiset(DoomedNodes(s)), s.log.finished, s.log.reported, s.log.withdrawn);
    }
  }

  lemma LastOf(call: Item, settled: Option<Hold>)
    requires call.Call? && call.last.None? && (settled.Some? ==> call.user == settled.value.user)
    ensures Last(Settled(call, settled)) == if settled.Some? then multiset{settled.value} else multiset{}
  {
  }

  lemma SettledClaims(s: State, s': State, t: nat, hold: Hold)
    requires Moves(s, s', t) && Claims(s) && !s.q.closed && Claim(s.pcs[t]) == Some(hold) && Claim(s'.pcs[t]) == None
    requires s'.handles == s.handles && s'.nextId == s.nextId && s'.log.issued == s.log.issued
    requires s'.q.held == Unlink(s.q.held, hold)
    requires !s'.pcs[t].PushEnter? && !s'.pcs[t].PushLock? && !s'.pcs[t].HoldLock?
    ensures Claims(s')
  {
    hide Unlink;
    forall h | h in s.q.held && h != hold ensures h in s'.q.held {
      UnlinkKeeps(s.q.held, hold, h);
    }
  }

  lemma HeldClaim(s: State, t: nat)
    requires Claims(s) && t in s.pcs && !s.q.closed
    ensures Claim(s.pcs[t]).Some? ==> Claim(s.pcs[t]).value in s.q.held
    ensures s.pcs[t].PushLock? ==>
      && s.pcs[t].call.Call? && s.pcs[t].call.last.None?
      && (s.pcs[t].settled.Some? ==> s.pcs[t].call.user == s.pcs[t].settled.value.user)
  {
  }

  lemma ContentOf(s: State)
    requires Inv(s)
    ensures OneOwner(s) && Closing(s) && Fifo(s) && Demand(s) && Claims(s) && Nodes(s) && Account(s)
  {
  }

  /** What an accepted push changes. */
  predicate Pushes(s: State, s': State, t: nat, calls: seq<HostCall>) {
    && Moves(s, s', t) && RolesStay(s, s') && !s.q.closed && !s'.q.closed
    && s'.handles == s.handles && s'.nextId == s.nextId
    && s'.pcs[t] == (if s.q.head == [] then Notify else Idle)
    && s'.q.running == s.q.running && s'.q.head != []
    && s'.log.pushed == s.log.pushed + calls
    && s'.log.owing == (if s.q.head == [] then s.log.owing + {t} else s.log.owing)
    && s'.log.edges == s.log.edges + (if s.q.head == [] then 1 else 0)
    && s'.log.notified == s.log.notified && s'.log.owed == s.log.owed
    && s'.log.ran == s.log.ran && s'.log.abandoned == s.log.abandoned
    && s'.log.issued == s.log.issued && s'.log.finished == s.log.finished
    && s'.log.reported == s.log.reported && s'.log.withdrawn == s.log.withdrawn
  }

  lemma PushesKeptContent(s: State, s': State, t: nat, calls: seq<HostCall>)
    requires Inv(s) && Pushes(s, s', t, calls) && !Owns(s.pcs[t])
    requires Flat(s'.q.head) == Flat(s.q.head) + calls
    ensures Fifo(s') && Demand(s')
    ensures Flight(s') == Flight(s) && CloserPc(s') == Idle && CloserPc(s) == Idle
  {
    hide OneOwner, Closing, Fifo, Demand, Claims, Nodes, Account, Flat;
    ContentOf(s);
    OwnerStays(s, s', t);
    OpenClosing(s, s', t);
    PushedContent(s, s', calls);
  }

  lemma PushLockPushes(s: State, t: nat, call: Item, settled: Option<Hold>)
    requires t in s.pcs && !s.q.closed
    ensures var s' := StepPushLock(s, t, call, settled);
      && Pushes(s, s', t, Calls(call)) && s'.q == Append(s.q, call, settled)
      && s'.log.freed == s.log.freed + if settled.Some? then multiset{settled.value} else multiset{}
  {
    hide Calls, Unlink;
  }

  lemma KeptPushLock(s: State, t: nat, call: Item, settled: Option<Hold>)
    requires Inv(s) && t in s.pcs && s.pcs[t] == PushLock(call, settled)
    ensures Inv(StepPushLock(s, t, call, settled))
  {
    hide Inv, OneOwner, Closing, Fifo, Demand, Claims, Nodes, Account, Flat, Lasts, Last, Calls, Unlink;
    if s.q.closed {
      KeptRefused(s, t);
    } else {
      PushLockPushes(s, t, call, settled);
      KeptPush(s, StepPushLock(s, t, call, settled), t, call, settled);
    }
  }

  lemma KeptPush(s: State, s': State, t: nat, call: Item, settled: Option<Hold>)
    requires Inv(s) && t in s.pcs && s.pcs[t] == PushLock(call, settled)
    requires Pushes(s, s', t, Calls(call)) && s'.q == Append(s.q, call, settled)
    requires s'.log.freed == s.log.freed + if settled.Some? then multiset{settled.value} else multiset{}
    ensures Inv(s')
  {
    hide Inv, OneOwner, Closing, Fifo, Demand, Claims, Nodes, Account, Flat, Lasts, Last, Calls, Unlink;
    ContentOf(s);
    HeldClaim(s, t);
    AppendFlat(s.q, call, settled);
    CallsSettled(call, settled);
    PushesKeptContent(s, s', t, Calls(call));
    SettledAccount(s, s', call, settled);
    if settled.Some? {
      SettledClaims(s, s', t, settled.value);
    } else {
      ClaimsStay(s, s', t);
    }
    PusherKept(s, s', t);
  }

  lemma CallsSettled(call: Item, settled: Option<Hold>)
    ensures Calls(Settled(call, settled)) == Calls(call)
  {
  }

  lemma EventLockPushes(s: State, t: nat, user: nat, callback: nat, event: nat)
    requires t in s.pcs && !s.q.closed
    ensures var s' := StepEventLock(s, t, user, callback, event);
      && Pushes(s, s', t, [Event(user, callback, event)]) && s'.q == AppendEvent(s.q, user, callback, event)
      && s'.log.freed == s.log.freed
  {
  }

  lemma KeptEventLock(s: State, t: nat, user: nat, callback: nat, event: nat)
    requires Inv(s) && t in s.pcs && s.pcs[t] == EventLock(user, callback, event)
    ensures Inv(StepEventLock(s, t, user, callback, event))
  {
    hide Inv;
    if s.q.closed {
      KeptRefused(s, t);
    } else {
      EventLockPushes(s, t, user, callback, event);
      KeptEvent(s, StepEventLock(s, t, user, callback, event), t, user, callback, event);
    }
  }

  lemma KeptEvent(s: State, s': State, t: nat, user: nat, callback: nat, event: nat)
    requires Inv(s) && t in s.pcs && s.pcs[t] == EventLock(user, callback, event)
    requires Pushes(s, s', t, [Event(user, callback, event)]) && s'.q == AppendEvent(s.q, user, callback, event)
    requires s'.log.freed == s.log.freed
    ensures Inv(s')
  {
    hide Inv, OneOwner, Closing, Fifo, Demand, Claims, Flat, Lasts;
    ContentOf(s);
    AppendEventFlat(s.q, user, callback, event);
    PushesKeptContent(s, s', t, [Event(user, callback, event)]);
    ClaimsStay(s, s', t);
    PusherKept(s, s', t);
  }

  // Taking and running calls -------------------------------------------------

  lemma RunnerFacts(s: State, s': State, t: nat)
    requires Inv(s) && Moves(s, s', t) && Owns(s.pcs[t]) && Owns(s'.pcs[t])
    requires s'.log.owner == s.log.owner && s'.log.closer == s.log.closer
    ensures OwnerPc(s) == s.pcs[t] && OwnerPc(s') == s'.pcs[t] && SameDoom(s, s')
  {
    hide RequestSeen, Fifo, Demand, Wakeful, Wakes, Claims, Account, Nodes;
    OneOwnerOf(s, t);
    OwnerStays(s, s', t);
    CloserStays(s, s', t);
  }

  /** What a dispatcher's step on `running_` and the call in flight leaves alone. */
  predicate Runs(s: State, s': State, t: nat) {
    && Moves(s, s', t) && Owns(s.pcs[t]) && Owns(s'.pcs[t])
    && s'.dispatching == s.dispatching && s'.requested == s.requested && s'.exiting == s.exiting
    && s'.log.owner == s.log.owner && s'.log.closer == s.log.closer
    && (s'.q.running != [] ==> s'.pcs[t].NextCall? || s'.pcs[t].InCall?)
    && s'.q.held == s.q.held && s'.q.closed == s.q.closed && (s.q.closed ==> s'.q == s.q)
    && s'.handles == s.handles && s'.nextId == s.nextId
    && s'.log == s.log.(ran := s'.log.ran, finished := s'.log.finished)
  }

  lemma RunnerKept(s: State, s': State, t: nat)
    requires Inv(s) && Runs(s, s', t)
    requires Fifo(s') && Demand(s') && Wakeful(s') && Account(s')
    ensures Inv(s')
  {
    hide OneOwner, RequestSeen, Closing, Fifo, Demand, Wakeful, Wakes, Claims, Account, Flat, Lasts;
    RunnerFacts(s, s', t);
    OneOwnerStays(s, s', t);
    RequestSeenStays(s, s', t);
    ClosingStays(s, s', t);
    WakesStay(s, s', t);
    ClaimsStay(s, s', t);
  }

  lemma KeptTakeCalls(s: State, t: nat)
    requires Inv(s) && t in s.pcs && s.pcs[t].TakeCalls?
    ensures Inv(StepTakeCalls(s, t))
  {
    hide Inv, OneOwner, Closing, Claims, Flat, Lasts;
    var s' := StepTakeCalls(s, t);
    ContentOf(s);
    OneOwnerOf(s, t);
    NotRunning(s);
    RunnerFacts(s, s', t);
    FlatNone();
    TakenContent(s, s');
    RunnerKept(s, s', t);
  }

  lemma TakenContent(s: State, s': State)
    requires Fifo(s) && Demand(s) && Account(s) && SameDoom(s, s') && s.q.running == []
    requires s'.q == Take(s.q) && s'.exiting == s.exiting && s'.hook == s.hook && s'.log == s.log
    requires Flight(s') == Flight(s) == []
    requires s.q.closed ==> s.q.head == []
    ensures Fifo(s') && Demand(s') && Wakeful(s') && Account(s')
  {
    FlatNone();
    hide Flat, Lasts;
  }

  lemma FlatHead(items: seq<Item>)
    requires items != []
    ensures Flat(items) == Flat([items[0]]) + Flat(items[1..]) && Lasts(items) == Lasts([items[0]]) + Lasts(items[1..])
  {
    assert items == [items[0]] + items[1..];
    FlatConcat([items[0]], items[1..]);
    LastsConcat([items[0]], items[1..]);
  }

  /** The next call goes from the taken list into flight. */
  lemma NextContent(s: State, s': State)
    requires Fifo(s) && Demand(s) && Wakeful(s) && Account(s) && SameDoom(s, s') && !s.q.closed && s.q.running != []
    requires s'.q == Next(s.q) && s'.exiting == s.exiting && s'.hook == s.hook && s'.log == s.log
    requires Flight(s) == [] && Flight(s') == [s.q.running[0]] && !WillTake(s)
    requires s'.requested == s.requested
    ensures Fifo(s') && Demand(s') && Wakeful(s') && Account(s')
  {
    FlatNone();
    FlatHead(s.q.running);
    hide Flat, Lasts, Flight, CloserPc, DoomedItems, DoomedNodes;
    RegroupNext(s.log.ran, Flat([s.q.running[0]]), Flat(s.q.running[1..]), Flat(s.q.head));
    RunningSum(multiset(s.q.held) + Lasts(s.q.head), Lasts([s.q.running[0]]), Lasts(s.q.running[1..]));
  }

  lemma RunningSum(m: multiset<Hold>, next: multiset<Hold>, later: multiset<Hold>)
    ensures m + (next + later) + multiset{} == m + later + next
  {
  }

  lemma RegroupNext(a: seq<HostCall>, b: seq<HostCall>, c: seq<HostCall>, d: seq<HostCall>)
    ensures a + [] + [] + (b + c) + d == a + b + [] + c + d
  {
  }

  lemma KeptNextCall(s: State, t: nat)
    requires Inv(s) && t in s.pcs && s.pcs[t].NextCall?
    ensures Inv(StepNextCall(s, t))
  {
    hide Inv, StepNextCall, Fifo, Demand, Wakeful, Account, Runs;
    NextCallRuns(s, t);
    NextCallContent(s, t);
    RunnerKept(s, StepNextCall(s, t), t);
  }

  lemma NextCallContent(s: State, t: nat)
    requires Inv(s) && t in s.pcs && s.pcs[t].NextCall?
    ensures var s' := StepNextCall(s, t); Fifo(s') && Demand(s') && Wakeful(s') && Account(s')
  {
    hide Inv, StepNextCall, Fifo, Demand, Wakeful, Account, Runs, SameDoom, Flight, WillTake, OwnerPc;
    var s' := StepNextCall(s, t);
    ContentOf(s);
    WakefulOf(s);
    NextCallRuns(s, t);
    NextCallIs(s, t);
    FlightOf(s, t);
    FlightOf(s', t);
    if s.q.closed || s.q.running == [] {
      QuietContent(s, s');
    } else if s.exiting {
      ExitingContent(s, s');
    } else {
      NextContent(s, s');
    }
  }

  lemma FlightOf(s: State, t: nat)
    requires t in s.pcs && OwnerPc(s) == s.pcs[t]
    ensures Flight(s) == if s.pcs[t].InCall? then [s.pcs[t].item] else []
    ensures WillTake(s) == (s.pcs[t].Enter? || s.pcs[t].TakeCalls?)
  {
  }

  lemma NextCallIs(s: State, t: nat)
    requires t in s.pcs
    ensures var s', over := StepNextCall(s, t), s.q.closed || s.q.running == [];
      && t in s'.pcs && s'.exiting == s.exiting && s'.hook == s.hook && s'.log == s.log && s'.requested == s.requested
      && s'.pcs[t] == (if over || s.exiting then Check else InCall(s.q.running[0]))
      && s'.q == (if over then s.q else if s.exiting then s.q.(running := []) else Next(s.q))
  {
    hide Next;
  }

  lemma NextCallRuns(s: State, t: nat)
    requires Inv(s) && t in s.pcs && s.pcs[t].NextCall?
    ensures Runs(s, StepNextCall(s, t), t) && SameDoom(s, StepNextCall(s, t))
    ensures OwnerPc(s) == s.pcs[t] && OwnerPc(StepNextCall(s, t)) == StepNextCall(s, t).pcs[t]
  {
    hide Inv, StepNextCall, Closing, OwnerPc, SameDoom;
    ContentOf(s);
    NextCallChanges(s, t);
    RunnerFacts(s, StepNextCall(s, t), t);
  }

  lemma NextCallChanges(s: State, t: nat)
    requires Closing(s) && t in s.pcs && s.pcs[t].NextCall?
    ensures Runs(s, StepNextCall(s, t), t)
  {
    hide Closing;
    ClosedIsEmpty(s);
  }

  lemma WakefulOf(s: State)
    requires Inv(s)
    ensures Wakeful(s)
  {
  }

  lemma ClosedIsEmpty(s: State)
    requires Closing(s)
    ensures s.q.closed ==> s.q.head == [] && s.q.running == [] && s.q.held == []
  {
  }

  lemma QuietContent(s: State, s': State)
    requires Fifo(s) && Demand(s) && Wakeful(s) && Account(s) && SameDoom(s, s')
    requires s'.q == s.q && s'.exiting == s.exiting && s'.hook == s.hook && s'.log == s.log && s'.requested == s.requested
    requires Flight(s) == [] && Flight(s') == [] && !WillTake(s)
    ensures Fifo(s') && Demand(s') && Wakeful(s') && Account(s')
  {
    hide Flat, Lasts;
  }

  lemma ExitingContent(s: State, s': State)
    requires Fifo(s) && Demand(s) && s.exiting && s'.exiting && s'.log == s.log && s'.q.closed == s.q.closed
    ensures Fifo(s') && Demand(s') && Wakeful(s') && Account(s')
  {
  }

  /** A call that has run leaves flight and joins the calls that ran. */
  lemma RanContent(s: State, s': State, item: Item)
    requires Fifo(s) && Demand(s) && Wakeful(s) && Account(s) && SameDoom(s, s')
    requires s'.q == s.q && s'.exiting == s.exiting && s'.hook == s.hook && s'.requested == s.requested
    requires s'.log == s.log.(ran := s.log.ran + Calls(item), finished := s.log.finished + Last(item))
    requires Flight(s) == [item] && Flight(s') == [] && !WillTake(s)
    ensures Fifo(s') && Demand(s') && Wakeful(s') && Account(s')
  {
    FlatNone();
    FlatOne(item);
    hide Flat, Lasts, Calls, Last;
    RegroupRan(s.log.ran, Calls(item), s.log.abandoned);
  }

  lemma RegroupRan(a: seq<HostCall>, b: seq<HostCall>, c: seq<HostCall>)
    ensures a + b + c == (a + b) + [] + c
  {
  }

  lemma KeptInCall(s: State, t: nat, item: Item)
    requires Inv(s) && t in s.pcs && s.pcs[t] == InCall(item)
    ensures Inv(StepInCall(s, t, item))
  {
    hide Inv, OneOwner, Closing, Claims, Fifo, Demand, Wakeful, Account, Flat, Lasts, Calls, Last;
    var s' := StepInCall(s, t, item);
    ContentOf(s);
    OneOwnerOf(s, t);
    RunnerFacts(s, s', t);
    WakefulOf(s);
    RanContent(s, s', item);
    RunnerKept(s, s', t);
  }

  // Holds --------------------------------------------------------------------

  /** A locked step on the held list alone. */
  predicate Holds(s: State, s': State, t: nat) {
    && Moves(s, s', t) && RolesStay(s, s') && !s.q.closed
    && (s.pcs[t].HoldLock? || s.pcs[t].DropLock?) && s'.pcs[t].Idle?
    && s'.q == s.q.(held := s'.q.held)
    && s'.log == s.log.(issued := s'.log.issued, withdrawn := s'.log.withdrawn, freed := s'.log.freed)
  }

  lemma HolderKept(s: State, s': State, t: nat)
    requires Inv(s) && Holds(s, s', t) && Claims(s') && Nodes(s') && Account(s')
    ensures Inv(s')
  {
    hide OneOwner, RequestSeen, Closing, Wakes, Claims, Nodes, Account, Flat, Lasts;
    OwnerStays(s, s', t);
    OneOwnerStays(s, s', t);
    RequestSeenStays(s, s', t);
    OpenClosing(s, s', t);
    WakesStay(s, s', t);
  }

  lemma HolderRoles(s: State, s': State, t: nat)
    requires Inv(s) && Holds(s, s', t)
    ensures Flight(s') == Flight(s) && CloserPc(s') == Idle && CloserPc(s) == Idle
  {
    hide RequestSeen, Wakes, Claims, Nodes, Account, Fifo, Demand, Flat, Lasts;
    OwnerStays(s, s', t);
    OpenClosing(s, s', t);
  }

  lemma FreshClaims(s: State, s': State, t: nat, hold: Hold)
    requires Moves(s, s', t) && Claims(s) && Claim(s'.pcs[t]) == None
    requires !s'.pcs[t].PushEnter? && !s'.pcs[t].PushLock? && !s'.pcs[t].HoldLock?
    requires hold.id == s.nextId && s'.nextId == s.nextId + 1 && s'.handles == s.handles + {hold}
    requires s'.q.held == [hold] + s.q.held && s'.q.closed == s.q.closed
    requires s'.log.issued == s.log.issued + multiset{hold}
    ensures Claims(s')
  {
    assert hold !in s.log.issued;
  }

  lemma KeptHoldLock(s: State, t: nat, user: nat)
    requires Inv(s) && t in s.pcs && s.pcs[t] == HoldLock(user)
    ensures Inv(StepHoldLock(s, t, user))
  {
    hide Inv, OneOwner, Closing, Claims, Fifo, Demand, Wakeful, Account, Nodes, Flat, Lasts;
    if s.q.closed {
      KeptRefused(s, t);
    } else {
      var s' := StepHoldLock(s, t, user);
      ContentOf(s);
      HolderRoles(s, s', t);
      FreshClaims(s, s', t, Hold(s.nextId, user));
      FreshAccount(s, s', Hold(s.nextId, user));
      HolderKept(s, s', t);
    }
  }

  lemma FreshAccount(s: State, s': State, hold: Hold)
    requires Account(s) && Nodes(s) && s'.q == s.q.(held := [hold] + s.q.held) && s'.exiting == s.exiting && s'.hook == s.hook
    requires s'.log == s.log.(issued := s.log.issued + multiset{hold})
    requires Flight(s') == Flight(s) && CloserPc(s') == CloserPc(s) == Idle
    ensures Account(s') && Nodes(s')
  {
    hide Lasts;
    assert multiset(s'.q.held) == multiset{hold} + multiset(s.q.held);
  }

  lemma WithdrawnAccount(s: State, s': State, hold: Hold)
    requires Account(s) && Nodes(s) && hold in s.q.held && s'.q == s.q.(held := Unlink(s.q.held, hold))
    requires s'.exiting == s.exiting && s'.hook == s.hook
    requires s'.log == s.log.(withdrawn := s.log.withdrawn + multiset{hold}, freed := s.log.freed + multiset{hold})
    requires Flight(s') == Flight(s) && CloserPc(s') == CloserPc(s) == Idle
    ensures Account(s') && Nodes(s')
  {
    hide Lasts, Unlink;
    UnlinkRemoves(s.q.held, hold);
    var held := multiset(Unlink(s.q.held, hold));
    MoveSum(held, multiset{hold}, multiset(DoomedNodes(s)), s.log.freed);
    WithdrawSum(held, multiset{hold}, Lasts(s.q.head), Lasts(s.q.running), Lasts(Flight(s)), Lasts(DoomedItems(s)),
      multiset(DoomedNodes(s)), s.log.finished, s.log.reported, s.log.withdrawn);
  }

  lemma MoveSum(h: multiset<Hold>, one: multiset<Hold>, a: multiset<Hold>, f: multiset<Hold>)
    ensures h + one + a + f == h + a + (f + one)
  {
  }

  lemma WithdrawSum(h: multiset<Hold>, one: multiset<Hold>, a: multiset<Hold>, b: multiset<Hold>, c: multiset<Hold>,
                    d: multiset<Hold>, n: multiset<Hold>, f: multiset<Hold>, r: multiset<Hold>, w: multiset<Hold>)
    ensures h + one + a + b + c + d + n + f + r + w == h + a + b + c + d + n + f + r + (w + one)
  {
  }

  lemma SettleSum(h: multiset<Hold>, one: multiset<Hold>, a: multiset<Hold>, b: multiset<Hold>, c: multiset<Hold>,
                  d: multiset<Hold>, n: multiset<Hold>, f: multiset<Hold>, r: multiset<Hold>, w: multiset<Hold>)
    ensures h + one + a + b + c + d + n + f + r + w == h + (a + one) + b + c + d + n + f + r + w
  {
  }

  lemma KeptDropLock(s: State, t: nat, node: Hold)
    requires Inv(s) && t in s.pcs && s.pcs[t] == DropLock(node)
    ensures Inv(StepDropLock(s, t, node))
  {
    hide Inv, OneOwner, Closing, Claims, Fifo, Demand, Wakeful, Account, Nodes, Flat, Lasts, Unlink;
    if s.q.closed {
      KeptRefused(s, t);
    } else {
      var s' := StepDropLock(s, t, node);
      ContentOf(s);
      HeldClaim(s, t);
      HolderRoles(s, s', t);
      SettledClaims(s, s', t, node);
      WithdrawnAccount(s, s', node);
      HolderKept(s, s', t);
    }
  }

  // Closing ------------------------------------------------------------------

  lemma CloseClaims(s: State, s': State, t: nat)
    requires Moves(s, s', t) && Claims(s) && ClosePc(s'.pcs[t]) && s'.q.closed
    requires s'.handles == s.handles && s'.nextId == s.nextId && s'.log.issued == s.log.issued
    ensures Claims(s')
  {
    assert Claim(s'.pcs[t]) == None && !s'.pcs[t].HoldLock?;
  }

  /** The first close() becomes the closer; its lists are the queue's. */
  lemma CloserTakes(s: State, s': State, t: nat, items: seq<Item>)
    requires Moves(s, s', t) && Closing(s) && !s.q.closed
    requires s'.log.closer == Some(t) && s'.q == Close(s.q) && s'.pcs[t] == CloseWake(items, s.q.held)
    ensures Closing(s') && DoomedItems(s') == items && DoomedNodes(s') == s.q.held
    ensures DoomedItems(s) == [] && DoomedNodes(s) == [] && CloserPc(s').CloseWake?
  {
  }

  lemma ClosedContent(s: State, s': State)
    requires Fifo(s) && Demand(s) && Account(s) && Nodes(s) && !s.q.closed
    requires s'.q == Close(s.q) && s'.exiting == s.exiting && s'.hook == s.hook
    requires s'.log == s.log.(abandoned := s.log.abandoned + Flat(s.q.running + s.q.head), closer := s'.log.closer)
    requires Flight(s') == Flight(s) && CloserPc(s').CloseWake?
    requires DoomedItems(s) == [] && DoomedNodes(s) == []
    requires DoomedItems(s') == s.q.running + s.q.head && DoomedNodes(s') == s.q.held
    ensures Fifo(s') && Demand(s') && Account(s') && Nodes(s') && Wakeful(s')
  {
    FlatNone();
    FlatConcat(s.q.running, s.q.head);
    LastsConcat(s.q.running, s.q.head);
    hide Flat, Lasts;
    RegroupClosed(s.log.ran, Flat(Flight(s)), Flat(s.q.running), Flat(s.q.head));
  }

  lemma RegroupClosed(a: seq<HostCall>, b: seq<HostCall>, c: seq<HostCall>, d: seq<HostCall>)
    ensures a + b + [] + c + d == a + b + ([] + (c + d)) + [] + []
  {
  }

  /** A step of a closing thread, whose role among dispatchers is none. */
  lemma CloserKept(s: State, s': State, t: nat)
    requires Inv(s) && Moves(s, s', t) && (s.pcs[t].CloseLock? || ClosePc(s.pcs[t])) && (s'.pcs[t].Idle? || ClosePc(s'.pcs[t]))
    requires s'.dispatching == s.dispatching && s'.requested == s.requested && s'.exiting == s.exiting
    requires s'.log.owner == s.log.owner && s'.log.owing == s.log.owing
    requires s'.log.edges == s.log.edges && s'.log.notified == s.log.notified
    requires s'.q.running == s.q.running || s'.q.running == []
    requires Closing(s') && Fifo(s') && Demand(s') && Wakeful(s') && Claims(s') && Nodes(s') && Account(s')
    ensures Inv(s')
  {
    hide OneOwner, RequestSeen, Closing, Fifo, Demand, Wakeful, Wakes, Claims, Nodes, Account, Flat, Lasts;
    OwnerStays(s, s', t);
    OneOwnerStays(s, s', t);
    RequestSeenStays(s, s', t);
    WakesStay(s, s', t);
  }

  lemma FlightStays(s: State, s': State, t: nat)
    requires Inv(s) && Moves(s, s', t) && s'.log.owner == s.log.owner && !Owns(s.pcs[t])
    ensures Flight(s') == Flight(s) && WillTake(s') == WillTake(s)
  {
    hide RequestSeen, Closing, Fifo, Demand, Wakeful, Wakes, Claims, Nodes, Account, Flat, Lasts;
    OwnerStays(s, s', t);
  }

  lemma KeptCloseLock(s: State, t: nat)
    requires Inv(s) && t in s.pcs && s.pcs[t].CloseLock?
    ensures Inv(StepCloseLock(s, t))
  {
    hide Inv, OneOwner, Closing, Claims, Fifo, Demand, Wakeful, Account, Nodes, Flat, Lasts;
    var s' := StepCloseLock(s, t);
    ContentOf(s);
    WakefulOf(s);
    FlightStays(s, s', t);
    CloseClaims(s, s', t);
    if s.q.closed {
      ClosedAgain(s, s', t);
    } else {
      CloserTakes(s, s', t, s.q.running + s.q.head);
      ClosedContent(s, s');
    }
    CloserKept(s, s', t);
  }

  lemma ClosedAgain(s: State, s': State, t: nat)
    requires Closing(s) && Fifo(s) && Demand(s) && Nodes(s) && Account(s) && s.q.closed && Moves(s, s', t)
    requires s.pcs[t].CloseLock?
    requires s' == StepCloseLock(s, t) && Flight(s') == Flight(s) && WillTake(s') == WillTake(s)
    ensures Closing(s') && Fifo(s') && Demand(s') && Nodes(s') && Account(s') && Wakeful(s')
  {
    FlatNone();
    hide Flat, Lasts;
    assert s.q.running + s.q.head == [];
    assert s'.q == s.q;
    assert s.log.abandoned + [] == s.log.abandoned;
    assert s'.log == s.log;
    ClosingStays(s, s', t);
    CloserStays(s, s', t);
    LedgerStays(s, s');
  }

  lemma KeptCloseWake(s: State, t: nat, items: seq<Item>, nodes: seq<Hold>)
    requires Inv(s) && t in s.pcs && s.pcs[t] == CloseWake(items, nodes)
    ensures Inv(StepCloseWake(s, t, items, nodes))
  {
    hide Inv, OneOwner, Closing, Claims, Fifo, Demand, Wakeful, Account, Nodes, Flat, Lasts;
    var s' := StepCloseWake(s, t, items, nodes);
    ContentOf(s);
    ClaimsStay(s, s', t);
    IdleCloser(s, t);
    ClosingStays(s, s', t);
    CloseWakeContent(s, t, items, nodes);
    CloserKept(s, s', t);
  }

  lemma CloseWakeContent(s: State, t: nat, items: seq<Item>, nodes: seq<Hold>)
    requires Inv(s) && t in s.pcs && s.pcs[t] == CloseWake(items, nodes)
    ensures var s' := StepCloseWake(s, t, items, nodes); Fifo(s') && Nodes(s') && Account(s') && Demand(s') && Wakeful(s')
  {
    hide Inv, OneOwner, Closing, Claims, Fifo, Demand, Wakeful, Account, Nodes, Flat, Lasts;
    var s' := StepCloseWake(s, t, items, nodes);
    ContentOf(s);
    WakefulOf(s);
    FlightStays(s, s', t);
    hide Flight, WillTake;
    IdleCloser(s, t);
    CloserStays(s, s', t);
    LedgerStays(s, s');
    DemandStays(s, s');
    WakefulStays(s, s');
  }

  /** Only the first close() has anything to destroy. */
  lemma IdleCloser(s: State, t: nat)
    requires Closing(s) && t in s.pcs && ClosePc(s.pcs[t])
    ensures s.log.closer != Some(t) ==> s.pcs[t].items == [] && s.pcs[t].nodes == []
    ensures s.log.closer == Some(t) ==> CloserPc(s) == s.pcs[t]
  {
  }

  /** One item or node fewer to destroy, and reported when the queue has a hook. */
  lemma AbandonedContent(s: State, s': State, items: seq<Item>, nodes: seq<Hold>, report: bool, told: multiset<Hold>)
    requires Fifo(s) && Nodes(s) && Account(s) && CloserPc(s) == Abandon(items, nodes, report)
    requires s'.q == s.q && s'.exiting == s.exiting && s'.hook == s.hook && Flight(s') == Flight(s)
    requires s'.log == s.log.(reported := s.log.reported + told, freed := s'.log.freed)
    requires CloserPc(s').Abandon? && CloserPc(s').report == report
    requires multiset(nodes) + s.log.freed == multiset(CloserPc(s').nodes) + s'.log.freed
    requires !s.exiting && report ==>
      Lasts(items) + multiset(nodes) == Lasts(CloserPc(s').items) + multiset(CloserPc(s').nodes) + told
    ensures Fifo(s') && Nodes(s') && Account(s')
  {
    hide Flat, Lasts, Last;
    MoveNodes(multiset(s.q.held), multiset(nodes), s.log.freed, multiset(CloserPc(s').nodes), s'.log.freed);
    if !s.exiting && report {
      MoveClaims(multiset(s.q.held) + Lasts(s.q.head) + Lasts(s.q.running) + Lasts(Flight(s)),
        Lasts(items), multiset(nodes), Lasts(CloserPc(s').items), multiset(CloserPc(s').nodes),
        s.log.finished, s.log.reported, s.log.withdrawn, told);
    }
  }

  lemma MoveNodes(h: multiset<Hold>, n: multiset<Hold>, f: multiset<Hold>, n': multiset<Hold>, f': multiset<Hold>)
    requires n + f == n' + f'
    ensures h + n + f == h + n' + f'
  {
    assert h + n + f == h + (n + f);
    assert h + n' + f' == h + (n' + f');
  }

  lemma MoveClaims(h: multiset<Hold>, i: multiset<Hold>, n: multiset<Hold>, i': multiset<Hold>, n': multiset<Hold>,
                   f: multiset<Hold>, r: multiset<Hold>, w: multiset<Hold>, told: multiset<Hold>)
    requires i + n == i' + n' + told
    ensures h + i + n + f + r + w == h + i' + n' + f + (r + told) + w
  {
    assert h + i + n + f + r + w == h + (i + n) + f + r + w;
    assert h + i' + n' + f + (r + told) + w == h + (i' + n' + told) + f + r + w;
  }

  /** A closing thread's step on what it took. */
  lemma AbandonKept(s: State, s': State, t: nat)
    requires Inv(s) && Moves(s, s', t) && s.pcs[t].Abandon? && (s'.pcs[t].Abandon? || s'.pcs[t].Idle?)
    requires RolesStay(s, s') && s'.q == s.q && s'.handles == s.handles && s'.nextId == s.nextId
    requires s'.log == s.log.(reported := s'.log.reported, freed := s'.log.freed)
    requires s.log.closer != Some(t) ==> s'.pcs[t].Idle?
    requires Fifo(s') && Nodes(s') && Account(s')
    ensures Inv(s')
  {
    hide Inv, OneOwner, Closing, Claims, Fifo, Demand, Wakeful, Account, Nodes, Flat, Lasts;
    ContentOf(s);
    WakefulOf(s);
    FlightStays(s, s', t);
    ClaimsStay(s, s', t);
    ClosingStays(s, s', t);
    DemandStays(s, s');
    WakefulStays(s, s');
    CloserKept(s, s', t);
  }

  lemma KeptAbandonItem(s: State, t: nat, items: seq<Item>, nodes: seq<Hold>, report: bool)
    requires Inv(s) && t in s.pcs && s.pcs[t] == Abandon(items, nodes, report) && items != []
    ensures Inv(StepAbandon(s, t, items, nodes, report))
  {
    hide Inv, OneOwner, Closing, Claims, Fifo, Demand, Wakeful, Account, Nodes, Flat, Lasts, Last;
    var s' := StepAbandon(s, t, items, nodes, report);
    ContentOf(s);
    IdleCloser(s, t);
    FlightStays(s, s', t);
    CloserStays(s, s', t);
    FlatHead(items);
    FlatOne(items[0]);
    AbandonedContent(s, s', items, nodes, report, if report && !s.exiting then Last(items[0]) else multiset{});
    AbandonKept(s, s', t);
  }

  lemma KeptAbandonNode(s: State, t: nat, nodes: seq<Hold>, report: bool)
    requires Inv(s) && t in s.pcs && s.pcs[t] == Abandon([], nodes, report) && nodes != []
    ensures Inv(StepAbandon(s, t, [], nodes, report))
  {
    hide Inv, OneOwner, Closing, Claims, Fifo, Demand, Wakeful, Account, Nodes, Flat, Lasts, Last;
    var s' := StepAbandon(s, t, [], nodes, report);
    ContentOf(s);
    IdleCloser(s, t);
    FlightStays(s, s', t);
    CloserStays(s, s', t);
    assert nodes == [nodes[0]] + nodes[1..];
    assert multiset(nodes) == multiset{nodes[0]} + multiset(nodes[1..]);
    AbandonedContent(s, s', [], nodes, report, if report then multiset{nodes[0]} else multiset{});
    AbandonKept(s, s', t);
  }

  lemma KeptAbandonDone(s: State, t: nat, report: bool)
    requires Inv(s) && t in s.pcs && s.pcs[t] == Abandon([], [], report)
    ensures Inv(StepAbandon(s, t, [], [], report))
  {
    hide Inv, OneOwner, Closing, Claims, Fifo, Demand, Wakeful, Account, Nodes, Flat, Lasts, Last;
    var s' := StepAbandon(s, t, [], [], report);
    ContentOf(s);
    IdleCloser(s, t);
    FlightStays(s, s', t);
    CloserStays(s, s', t);
    LedgerStays(s, s');
    AbandonKept(s, s', t);
  }

  lemma KeptAbandon(s: State, t: nat, items: seq<Item>, nodes: seq<Hold>, report: bool)
    requires Inv(s) && t in s.pcs && s.pcs[t] == Abandon(items, nodes, report)
    ensures Inv(StepAbandon(s, t, items, nodes, report))
  {
    hide Inv, StepAbandon;
    if items != [] {
      KeptAbandonItem(s, t, items, nodes, report);
    } else if nodes != [] {
      KeptAbandonNode(s, t, nodes, report);
    } else {
      KeptAbandonDone(s, t, report);
    }
  }

  lemma ExitRoles(s: State)
    requires OneOwner(s) && RequestSeen(s) && Closing(s)
    ensures var s' := s.(exiting := true); OneOwner(s') && RequestSeen(s') && Closing(s')
  {
    if s.requested && !s.dispatching {
      var d :| d in s.pcs && Decides(s.pcs[d]);
      assert d in s.(exiting := true).pcs;
    }
  }

  lemma ExitClaims(s: State)
    requires Wakes(s) && Claims(s) && Nodes(s)
    ensures var s' := s.(exiting := true); Wakes(s') && Claims(s') && Nodes(s')
  {
  }

  lemma ExitContent(s: State)
    requires Fifo(s) && Demand(s)
    ensures var s' := s.(exiting := true); Fifo(s') && Demand(s') && Wakeful(s') && Account(s')
  {
    hide Flat, Lasts;
  }

  lemma KeptExit(s: State)
    requires Inv(s)
    ensures Inv(s.(exiting := true))
  {
    hide OneOwner, RequestSeen, Closing, Claims, Fifo, Demand, Wakes, Wakeful, Account, Nodes;
    ExitRoles(s);
    ExitClaims(s);
    ExitContent(s);
  }

  /** Every step of every thread keeps the invariant. */
  lemma InvKept(s: State, t: nat, move: Move)
    requires Inv(s) && Step(s, t, move).Some?
    ensures Inv(Step(s, t, move).value)
  {
    hide Inv, StepRequest, StepAcquire, StepCheck, StepEnter, StepTakeCalls, StepNextCall, StepInCall, StepRelease,
      StepRecheck, StepPushEnter, StepPushLock, StepNotify, StepEventEnter, StepEventLock, StepHoldLock, StepDropLock,
      StepCloseLock, StepCloseWake, StepAbandon, Start;
    if move.Exit? {
      KeptExit(s);
    } else if move.Begin? {
      KeptStart(s, t, move.op);
    } else if move.FailEvent? {
      KeptRefused(s, t);
    } else {
      match s.pcs[t]
      case Request => KeptRequest(s, t);
      case Acquire => KeptAcquire(s, t);
      case Check => KeptCheck(s, t);
      case Enter => KeptEnter(s, t);
      case TakeCalls => KeptTakeCalls(s, t);
      case NextCall => KeptNextCall(s, t);
      case InCall(item) => KeptInCall(s, t, item);
      case Release => KeptRelease(s, t);
      case Recheck => KeptRecheck(s, t);
      case PushEnter(call, settled) => KeptPushEnter(s, t, call, settled);
      case PushLock(call, settled) => KeptPushLock(s, t, call, settled);
      case Notify => KeptNotify(s, t);
      case EventEnter(user, callback, event) => KeptEventEnter(s, t, user, callback, event);
      case EventLock(user, callback, event) => KeptEventLock(s, t, user, callback, event);
      case HoldLock(owner) => KeptHoldLock(s, t, owner);
      case DropLock(node) => KeptDropLock(s, t, node);
      case CloseLock => KeptCloseLock(s, t);
      case CloseWake(items, nodes) => KeptCloseWake(s, t, items, nodes);
      case Abandon(items, nodes, report) => KeptAbandon(s, t, items, nodes, report);
    }
  }

  // Runs ---------------------------------------------------------------------

  /** The state after a run, if every move of it can be made. */
  function After(s: State, run: seq<(nat, Move)>): Option<State>
    decreases |run|
  {
    if run == [] then Some(s)
    else
      match Step(s, run[0].0, run[0].1)
      case None => None
      case Some(next) => After(next, run[1..])
  }

  ghost predicate Reachable(s: State) {
    exists threads, hook, run :: After(Initial(threads, hook), run) == Some(s)
  }

  lemma {:induction false} InvAfter(s: State, run: seq<(nat, Move)>)
    requires Inv(s) && After(s, run).Some?
    ensures Inv(After(s, run).value)
    decreases |run|
  {
    hide Inv, Step;
    if run != [] {
      InvKept(s, run[0].0, run[0].1);
      InvAfter(Step(s, run[0].0, run[0].1).value, run[1..]);
    }
  }

  lemma InvReachable(s: State)
    requires Reachable(s)
    ensures Inv(s)
  {
    hide Inv, After, Initial;
    var threads, hook, run :| After(Initial(threads, hook), run) == Some(s);
    InitialInv(threads, hook);
    InvAfter(Initial(threads, hook), run);
  }

  predicate NoneInDispatch(s: State) {
    forall t :: t in s.pcs ==> !InDispatch(s.pcs[t])
  }

  predicate AllIdle(s: State) {
    forall t :: t in s.pcs ==> s.pcs[t].Idle?
  }

  /** In every reachable state at most one thread runs calls. */
  lemma AtMostOneRunner(s: State, t: nat, u: nat)
    requires Reachable(s) && t in s.pcs && u in s.pcs && Owns(s.pcs[t]) && Owns(s.pcs[u])
    ensures t == u
  {
    hide Reachable;
    InvReachable(s);
    OneOwnerOf(s, t);
    hide Inv;
    assert s.log.owner == Some(t) && s.log.owner == Some(u);
  }

  /** The push history is the run calls, the one in flight, and then either the abandoned or the waiting ones. */
  lemma RunsInPushOrder(s: State)
    requires Reachable(s) && !s.exiting
    ensures s.log.pushed == s.log.ran + Flat(Flight(s)) + s.log.abandoned + Flat(s.q.running) + Flat(s.q.head)
    ensures if s.q.closed then s.log.pushed == s.log.ran + Flat(Flight(s)) + s.log.abandoned else s.log.abandoned == []
  {
    hide Reachable;
    InvReachable(s);
    FlatNone();
    hide Flat, OneOwner, RequestSeen, Demand, Wakes, Wakeful, Claims, Nodes, Account;
    if s.q.closed {
      assert s.log.pushed == s.log.ran + Flat(Flight(s)) + s.log.abandoned + [] + [];
    }
  }

  /** No request is lost, even one that a BUSY dispatch left: once no dispatch runs, every call
      pushed before the last dispatch began has run or was taken by close(). */
  lemma NoRequestLost(s: State)
    requires Reachable(s) && !s.exiting && NoneInDispatch(s)
    ensures !s.requested && !s.dispatching && s.q.running == []
    ensures s.log.demanded <= |s.log.pushed|
    ensures s.log.pushed[..s.log.demanded] <= s.log.ran + s.log.abandoned
  {
    hide Reachable;
    InvReachable(s);
    NobodyOwns(s);
    RunsInPushOrder(s);
    FlatNone();
    hide Inv, Flat;
    DemandOf(s);
    assert s.log.pushed == (s.log.ran + s.log.abandoned) + Flat(s.q.head) by {
      EmptyMiddle(s.log.ran, s.log.abandoned, Flat(s.q.head));
    }
  }

  lemma EmptyMiddle(a: seq<HostCall>, b: seq<HostCall>, c: seq<HostCall>)
    ensures a + [] + b + [] + c == a + b + c
  {
  }

  lemma DemandOf(s: State)
    requires Inv(s)
    ensures Demand(s) && Wakeful(s)
  {
  }

  lemma NobodyOwns(s: State)
    requires Inv(s) && NoneInDispatch(s)
    ensures !s.requested && !s.dispatching && s.q.running == [] && OwnerPc(s) == Idle
  {
    if s.log.owner.Some? {
      OneOwnerOf(s, s.log.owner.value);
    }
  }

  /** Each empty-to-nonempty change of the pending list owes or has issued exactly one wake. */
  lemma OneWakePerEdge(s: State)
    requires Reachable(s)
    ensures s.log.edges == s.log.notified + |set t | t in s.pcs && s.pcs[t].Notify?|
  {
    hide Reachable;
    InvReachable(s);
    assert (set t | t in s.pcs && s.pcs[t].Notify?) == s.log.owing by { WakesOf(s); }
    WakesOf(s);
  }

  lemma WakesOf(s: State)
    requires Inv(s)
    ensures forall t :: t in s.pcs ==> (s.pcs[t].Notify? <==> t in s.log.owing)
    ensures s.log.owing <= s.pcs.Keys && |s.log.owing| + s.log.notified == s.log.edges
  {
  }

  /** The step that links an item, or grows the tail, of an open queue. */
  predicate Pushing(s: State, t: nat, move: Move)
    requires t in s.pcs
  {
    move.Go? && (s.pcs[t].PushLock? || s.pcs[t].EventLock?) && !s.q.closed
  }

  /** How a step of a thread goes with waking. It is about to notify after a push that found the list empty,
      and only then; and the number of wakes rises with its next step, and only then. */
  predicate WakePaired(s: State, next: State, t: nat, move: Move)
    requires t in s.pcs
  {
    && t in next.pcs && next.pcs == s.pcs[t := next.pcs[t]]
    && (next.pcs[t].Notify? <==> (Pushing(s, t, move) && s.q.head == []) || (s.pcs[t].Notify? && !move.Go?))
    && (s.q.head == [] ==> (next.q.head != [] <==> Pushing(s, t, move)))
    && next.log.edges == s.log.edges + (if Pushing(s, t, move) && s.q.head == [] then 1 else 0)
    && next.log.notified == s.log.notified + (if move.Go? && s.pcs[t].Notify? then 1 else 0)
  }

  /** Each push that finds the list empty is followed by one wake of its own thread; no other push owes one. */
  lemma WakePerPush(s: State, t: nat, move: Move)
    requires t in s.pcs && Step(s, t, move).Some?
    ensures WakePaired(s, Step(s, t, move).value, t, move)
  {
    hide WakePaired, Start, Advance;
    if move.Go? {
      if InDispatch(s.pcs[t]) {
        DispatchWakes(s, t);
      } else {
        OtherWakes(s, t);
      }
    } else {
      StartWakes(s, t, move);
    }
  }

  /** A step that neither links an item nor notifies. */
  predicate Silent(s: State, next: State, t: nat) {
    && t in next.pcs && next.pcs == s.pcs[t := next.pcs[t]] && !next.pcs[t].Notify?
    && (s.q.head == [] ==> next.q.head == [])
    && next.log.edges == s.log.edges && next.log.notified == s.log.notified
  }

  lemma SilentWakes(s: State, next: State, t: nat)
    requires t in s.pcs && Silent(s, next, t) && !s.pcs[t].PushLock? && !s.pcs[t].EventLock? && !s.pcs[t].Notify?
    ensures WakePaired(s, next, t, Go)
  {
  }

  lemma SilentRequests(s: State, t: nat)
    ensures Silent(s, StepRequest(s, t), t) && Silent(s, StepRelease(s, t), t) && Silent(s, StepRecheck(s, t), t)
  {
  }

  lemma SilentChecks(s: State, t: nat)
    ensures Silent(s, StepAcquire(s, t), t) && Silent(s, StepCheck(s, t), t) && Silent(s, StepEnter(s, t), t)
  {
  }

  lemma SilentTakeCalls(s: State, t: nat)
    ensures Silent(s, StepTakeCalls(s, t), t)
  {
  }

  lemma SilentNextCall(s: State, t: nat)
    ensures Silent(s, StepNextCall(s, t), t)
  {
    hide Next;
    if s.q.running != [] {
      NextHead(s.q);
    }
  }

  lemma NextHead(q: Queue)
    requires q.running != []
    ensures Next(q).head == q.head
  {
  }

  lemma SilentCall(s: State, t: nat, item: Item)
    ensures Silent(s, StepInCall(s, t, item), t)
  {
    hide Calls, Last;
  }

  lemma DispatchWakes(s: State, t: nat)
    requires t in s.pcs && InDispatch(s.pcs[t])
    ensures WakePaired(s, Advance(s, t), t, Go)
  {
    hide WakePaired, Silent, StepRequest, StepAcquire, StepCheck, StepEnter, StepTakeCalls, StepNextCall, StepInCall,
      StepRelease, StepRecheck;
    SilentRequests(s, t);
    SilentChecks(s, t);
    SilentTakeCalls(s, t);
    SilentNextCall(s, t);
    if s.pcs[t].InCall? {
      SilentCall(s, t, s.pcs[t].item);
    }
    SilentWakes(s, Advance(s, t), t);
  }

  lemma SilentEnters(s: State, t: nat, call: Item, settled: Option<Hold>, user: nat, callback: nat, event: nat)
    ensures Silent(s, StepPushEnter(s, t, call, settled), t) && Silent(s, StepEventEnter(s, t, user, callback, event), t)
  {
  }

  lemma SilentHolds(s: State, t: nat, user: nat, node: Hold)
    ensures Silent(s, StepHoldLock(s, t, user), t) && Silent(s, StepDropLock(s, t, node), t)
  {
    hide Unlink;
  }

  lemma SilentCloses(s: State, t: nat, items: seq<Item>, nodes: seq<Hold>)
    ensures Silent(s, StepCloseLock(s, t), t) && Silent(s, StepCloseWake(s, t, items, nodes), t)
  {
    hide Flat;
  }

  lemma SilentAbandons(s: State, t: nat, items: seq<Item>, nodes: seq<Hold>, report: bool)
    ensures Silent(s, StepAbandon(s, t, items, nodes, report), t)
  {
    hide Last;
    if items != [] {
      SilentMove(s, t, Abandon(items[1..], nodes, report));
    } else if nodes != [] {
      SilentMove(s, t, Abandon([], nodes[1..], report));
    } else {
      SilentMove(s, t, Idle);
    }
  }

  lemma SilentMove(s: State, t: nat, pc: Pc)
    requires !pc.Notify?
    ensures Silent(s, At(s, t, pc), t)
  {
  }

  lemma PushWakes(s: State, t: nat, call: Item, settled: Option<Hold>)
    requires t in s.pcs && s.pcs[t] == PushLock(call, settled)
    ensures WakePaired(s, StepPushLock(s, t, call, settled), t, Go)
  {
    hide WakePaired, StepPushLock, Pushes, At;
    if s.q.closed {
      RefusedPush(s, t, call, settled, 0, 0, 0);
      RefusedWakes(s, t);
    } else {
      PushLockPushes(s, t, call, settled);
      PushesWake(s, StepPushLock(s, t, call, settled), t, Calls(call));
    }
  }

  lemma RefusedPush(s: State, t: nat, call: Item, settled: Option<Hold>, user: nat, callback: nat, event: nat)
    requires s.q.closed
    ensures StepPushLock(s, t, call, settled) == StepEventLock(s, t, user, callback, event) == At(s, t, Idle)
  {
  }

  lemma RefusedWakes(s: State, t: nat)
    requires t in s.pcs && (s.pcs[t].PushLock? || s.pcs[t].EventLock?) && s.q.closed
    ensures WakePaired(s, At(s, t, Idle), t, Go)
  {
  }

  lemma PushesWake(s: State, s': State, t: nat, calls: seq<HostCall>)
    requires t in s.pcs && (s.pcs[t].PushLock? || s.pcs[t].EventLock?) && Pushes(s, s', t, calls)
    ensures WakePaired(s, s', t, Go)
  {
  }

  lemma EventWakes(s: State, t: nat, user: nat, callback: nat, event: nat)
    requires t in s.pcs && s.pcs[t] == EventLock(user, callback, event)
    ensures WakePaired(s, StepEventLock(s, t, user, callback, event), t, Go)
  {
    hide WakePaired, StepEventLock, Pushes, At;
    if s.q.closed {
      RefusedPush(s, t, Batch(user, callback, []), None, user, callback, event);
      RefusedWakes(s, t);
    } else {
      EventLockPushes(s, t, user, callback, event);
      PushesWake(s, StepEventLock(s, t, user, callback, event), t, [Event(user, callback, event)]);
    }
  }

  lemma NotifyWakes(s: State, t: nat)
    requires t in s.pcs && s.pcs[t].Notify?
    ensures WakePaired(s, StepNotify(s, t), t, Go)
  {
  }

  lemma OtherWakes(s: State, t: nat)
    requires t in s.pcs && !s.pcs[t].Idle? && !InDispatch(s.pcs[t])
    ensures WakePaired(s, Advance(s, t), t, Go)
  {
    hide WakePaired, Silent, StepPushEnter, StepPushLock, StepNotify, StepEventEnter, StepEventLock, StepHoldLock,
      StepDropLock, StepCloseLock, StepCloseWake, StepAbandon;
    match s.pcs[t]
    case PushEnter(call, settled) =>
      SilentEnters(s, t, call, settled, 0, 0, 0);
      SilentWakes(s, Advance(s, t), t);
    case EventEnter(user, callback, event) =>
      SilentEnters(s, t, Batch(user, callback, []), None, user, callback, event);
      SilentWakes(s, Advance(s, t), t);
    case PushLock(call, settled) => PushWakes(s, t, call, settled);
    case EventLock(user, callback, event) => EventWakes(s, t, user, callback, event);
    case Notify => NotifyWakes(s, t);
    case HoldLock(owner) =>
      SilentHolds(s, t, owner, Hold(0, 0));
      SilentWakes(s, Advance(s, t), t);
    case DropLock(node) =>
      SilentHolds(s, t, 0, node);
      SilentWakes(s, Advance(s, t), t);
    case CloseLock =>
      SilentCloses(s, t, [], []);
      SilentWakes(s, Advance(s, t), t);
    case CloseWake(items, nodes) =>
      SilentCloses(s, t, items, nodes);
      SilentWakes(s, Advance(s, t), t);
    case Abandon(items, nodes, report) =>
      SilentAbandons(s, t, items, nodes, report);
      SilentWakes(s, Advance(s, t), t);
  }

  lemma StartWakes(s: State, t: nat, move: Move)
    requires t in s.pcs && !move.Go? && Step(s, t, move).Some?
    ensures WakePaired(s, Step(s, t, move).value, t, move)
  {
    hide Advance, WakePaired, At, Start, Silent;
    if move.Begin? {
      SilentStart(s, t, move.op);
      SilentBegins(s, Step(s, t, move).value, t, move);
    } else if move.FailEvent? {
      SilentIdle(s, t);
      SilentBegins(s, At(s, t, Idle), t, move);
    } else {
      ExitWakes(s, t);
    }
  }

  lemma SilentStart(s: State, t: nat, op: Op)
    requires t in s.pcs
    ensures Start(s, t, op).Some? ==> Silent(s, Start(s, t, op).value, t)
  {
  }

  lemma SilentIdle(s: State, t: nat)
    ensures Silent(s, At(s, t, Idle), t)
  {
  }

  lemma SilentBegins(s: State, next: State, t: nat, move: Move)
    requires t in s.pcs && Silent(s, next, t) && !s.pcs[t].Notify? && !move.Go?
    ensures WakePaired(s, next, t, move)
  {
  }

  lemma ExitWakes(s: State, t: nat)
    requires t in s.pcs
    ensures WakePaired(s, s.(exiting := true), t, Exit)
  {
  }

  /** A host that dispatches after every wake leaves an open queue empty. */
  lemma WokenHostEmptiesQueue(s: State)
    requires Reachable(s) && !s.exiting && !s.q.closed && !s.log.owed
    requires forall t :: t in s.pcs ==> !InDispatch(s.pcs[t]) && !s.pcs[t].Notify?
    ensures s.q.head == [] && s.q.running == []
  {
    hide Reachable;
    InvReachable(s);
    NobodyOwns(s);
    DemandOf(s);
    WakesOf(s);
    assert s.log.owing == {};
  }

  /** Once the queue is closed and every thread is done, each registration that held its user_data on
      a queue with a hook ended in exactly one way, and its node was freed once: its last call ran, or
      the hook was told of its user_data, or it was withdrawn while the queue was open. */
  lemma EachHoldEndsOnce(s: State, hold: Hold)
    requires Reachable(s) && !s.exiting && s.hook && s.q.closed && AllIdle(s) && hold in s.log.issued
    ensures s.log.finished[hold] + s.log.reported[hold] + s.log.withdrawn[hold] == 1
    ensures s.log.freed[hold] == 1
  {
    hide Reachable;
    InvReachable(s);
    hide Inv;
    EndsOnce(s, hold);
  }

  lemma EndsOnce(s: State, hold: Hold)
    requires Inv(s) && !s.exiting && s.hook && s.q.closed && AllIdle(s) && hold in s.log.issued
    ensures s.log.finished[hold] + s.log.reported[hold] + s.log.withdrawn[hold] == 1
    ensures s.log.freed[hold] == 1
  {
    IdleRoles(s);
    FlatNone();
    hide Inv, Lasts;
    ContentOf(s);
    ClosedIsEmpty(s);
    AccountClosed(s);
    assert s.log.issued[hold] == 1;
  }

  lemma IdleRoles(s: State)
    requires Inv(s) && AllIdle(s)
    ensures Flight(s) == [] && DoomedItems(s) == [] && DoomedNodes(s) == []
  {
  }

  lemma AccountClosed(s: State)
    requires Account(s) && Nodes(s) && !s.exiting && s.hook && s.q.head == [] && s.q.running == [] && s.q.held == []
    requires Flight(s) == [] && DoomedItems(s) == [] && DoomedNodes(s) == []
    ensures s.log.issued == s.log.finished + s.log.reported + s.log.withdrawn && s.log.issued == s.log.freed
  {
  }

  /** One thread takes a hold on a queue with a hook, and closes the queue before the last call. */
  function HeldAndClosed(i: nat): State {
    var hold := Hold(0, 5);
    var start := Initial({0}, true);
    var held := start.(q := start.q.(held := [hold]), handles := {hold}, nextId := 1,
                       log := start.log.(issued := multiset{hold}));
    var closed := held.(q := start.q.(closed := true), log := held.log.(closer := Some(0)));
    var told := closed.(log := closed.log.(reported := multiset{hold}, freed := multiset{hold}));
    match i
    case 0 => start
    case 1 => At(start, 0, HoldLock(5))
    case 2 => At(held, 0, Idle)
    case 3 => At(held, 0, CloseLock)
    case 4 => At(closed, 0, CloseWake([], [hold]))
    case 5 => At(closed, 0, Abandon([], [hold], true))
    case 6 => At(told, 0, Abandon([], [], true))
    case _ => At(told, 0, Idle)
  }

  function HeldAndClosedMove(i: nat): Move {
    if i == 0 then Begin(TakeHold(5)) else if i == 2 then Begin(CloseQueue) else Go
  }

  lemma SamePcs(m: map<nat, Pc>, a: Pc, b: Pc)
    ensures m[0 := a][0 := b] == m[0 := b]
  {
  }

  lemma HoldTaken()
    ensures Step(HeldAndClosed(1), 0, Go) == Some(HeldAndClosed(2))
  {
    var hold := Hold(0, 5);
    SamePcs(Initial({0}, true).pcs, HoldLock(5), Idle);
    assert [hold] + [] == [hold] && {} + {hold} == {hold} && multiset{} + multiset{hold} == multiset{hold};
  }

  lemma HoldLeft()
    ensures Step(HeldAndClosed(3), 0, Go) == Some(HeldAndClosed(4))
  {
    SamePcs(Initial({0}, true).pcs, CloseLock, CloseWake([], [Hold(0, 5)]));
    assert Flat([] + []) == [];
  }

  lemma HoldTold()
    ensures Step(HeldAndClosed(4), 0, Go) == Some(HeldAndClosed(5))
  {
    SamePcs(Initial({0}, true).pcs, CloseWake([], [Hold(0, 5)]), Abandon([], [Hold(0, 5)], true));
  }

  lemma HoldFreed()
    ensures Step(HeldAndClosed(5), 0, Go) == Some(HeldAndClosed(6))
  {
    var hold := Hold(0, 5);
    SamePcs(Initial({0}, true).pcs, Abandon([], [hold], true), Abandon([], [], true));
    assert [hold][1..] == [] && multiset{} + multiset{hold} == multiset{hold};
  }

  lemma HoldDone()
    ensures Step(HeldAndClosed(6), 0, Go) == Some(HeldAndClosed(7))
  {
    SamePcs(Initial({0}, true).pcs, Abandon([], [], true), Idle);
  }

  lemma HeldAndClosedStep(i: nat)
    requires i < 7
    ensures Step(HeldAndClosed(i), 0, HeldAndClosedMove(i)) == Some(HeldAndClosed(i + 1))
  {
    hide Step, HeldAndClosed;
    HeldAndClosedBegins();
    HoldTaken();
    HoldLeft();
    HoldTold();
    HoldFreed();
    HoldDone();
  }

  lemma HeldAndClosedBegins()
    ensures Step(HeldAndClosed(0), 0, Begin(TakeHold(5))) == Some(HeldAndClosed(1))
    ensures Step(HeldAndClosed(2), 0, Begin(CloseQueue)) == Some(HeldAndClosed(3))
  {
    SamePcs(Initial({0}, true).pcs, Idle, CloseLock);
  }

  lemma {:induction false} HeldAndClosedRun(i: nat) returns (run: seq<(nat, Move)>)
    requires i <= 7
    ensures After(HeldAndClosed(i), run) == Some(HeldAndClosed(7))
    decreases 7 - i
  {
    hide HeldAndClosed, Step;
    if i == 7 {
      run := [];
    } else {
      HeldAndClosedStep(i);
      var rest := HeldAndClosedRun(i + 1);
      run := [(0, HeldAndClosedMove(i))] + rest;
      assert run[1..] == rest;
    }
  }

  /** Such a run exists, and the hook is told once. */
  lemma HoldCanBeReported()
    ensures exists s :: Reachable(s) && !s.exiting && s.hook && s.q.closed && AllIdle(s) && s.log.reported[Hold(0, 5)] == 1
  {
    hide After;
    var run := HeldAndClosedRun(0);
    var s := HeldAndClosed(7);
    assert After(Initial({0}, true), run) == Some(s);
    assert Reachable(s);
  }

  // A dispatcher left alone ----------------------------------------------------

  /** The requests that the thread has still to answer. */
  function Rounds(s: State, t: nat): nat
    requires t in s.pcs
  {
    if s.pcs[t].Request? then 2 else if s.requested then 1 else 0
  }

  function Rank(s: State, t: nat): nat
    requires t in s.pcs
  {
    match s.pcs[t]
    case Enter => 9
    case TakeCalls => 8
    case InCall(_) => 8
    case NextCall => 7
    case Release => if s.requested then 5 else 2
    case Recheck => if s.requested then 4 else 1
    case Acquire => if s.requested then 3 else 4
    case Check => if s.requested then 2 else 3
    case _ => 0
  }

  /** The pending list is empty, or the thread is bound to take it. */
  predicate Emptying(s: State, t: nat)
    requires t in s.pcs
  {
    s.q.head == [] || s.requested || s.pcs[t].Request? || s.pcs[t].Enter? || s.pcs[t].TakeCalls?
  }

  predicate OthersAway(s: State, t: nat) {
    forall u :: u in s.pcs && u != t ==> !Owns(s.pcs[u])
  }

  /** What the thread's own steps leave alone. */
  predicate Alone(s: State, next: State, t: nat)
    requires t in s.pcs
  {
    && t in next.pcs && next.pcs == s.pcs[t := next.pcs[t]] && next.exiting == s.exiting && next.q.closed == s.q.closed
    && next.log.pushed == s.log.pushed && next.log.abandoned == s.log.abandoned
    && next.log.demanded == if s.pcs[t].Request? then |s.log.pushed| else s.log.demanded
  }

  /** The request count, the lists and the place in the loop go down together, in this order. */
  predicate Lighter(s: State, next: State, t: nat)
    requires t in s.pcs && t in next.pcs
  {
    || Rounds(next, t) < Rounds(s, t)
    || (Rounds(next, t) == Rounds(s, t) && |next.q.head| < |s.q.head|)
    || (Rounds(next, t) == Rounds(s, t) && |next.q.head| == |s.q.head| && |next.q.running| < |s.q.running|)
    || (Rounds(next, t) == Rounds(s, t) && |next.q.head| == |s.q.head| && |next.q.running| == |s.q.running|
        && Rank(next, t) < Rank(s, t))
  }

  predicate Advances(s: State, next: State, t: nat)
    requires t in s.pcs
  {
    && Alone(s, next, t) && !next.pcs[t].Request? && (InDispatch(next.pcs[t]) || next.pcs[t].Idle?)
    && Lighter(s, next, t)
    && (OthersAway(s, t) && !s.exiting && !s.q.closed && Emptying(s, t) ==>
          Emptying(next, t) && (next.pcs[t].Idle? ==> next.q.head == [] && next.q.running == []))
  }

  lemma RequestAdvances(s: State, t: nat)
    requires Inv(s) && t in s.pcs && s.pcs[t].Request?
    ensures Advances(s, StepRequest(s, t), t)
  {
    hide Inv, OthersAway;
    DispatcherFacts(s, t);
  }

  lemma AcquireAdvances(s: State, t: nat)
    requires Inv(s) && t in s.pcs && s.pcs[t].Acquire?
    ensures Advances(s, StepAcquire(s, t), t)
  {
    hide Inv, OthersAway;
    DispatcherFacts(s, t);
  }

  lemma CheckAdvances(s: State, t: nat)
    requires Inv(s) && t in s.pcs && s.pcs[t].Check?
    ensures Advances(s, StepCheck(s, t), t)
  {
    hide Inv, OthersAway;
    DispatcherFacts(s, t);
  }

  lemma EnterAdvances(s: State, t: nat)
    requires Inv(s) && t in s.pcs && s.pcs[t].Enter?
    ensures Advances(s, StepEnter(s, t), t)
  {
    hide Inv, OthersAway;
    DispatcherFacts(s, t);
  }

  lemma TakeCallsAdvances(s: State, t: nat)
    requires Inv(s) && t in s.pcs && s.pcs[t].TakeCalls?
    ensures Advances(s, StepTakeCalls(s, t), t)
  {
    hide Inv, OthersAway;
    DispatcherFacts(s, t);
  }

  lemma NextCallAdvances(s: State, t: nat)
    requires Inv(s) && t in s.pcs && s.pcs[t].NextCall?
    ensures Advances(s, StepNextCall(s, t), t)
  {
    hide Inv, OthersAway;
    DispatcherFacts(s, t);
  }

  lemma ReleaseAdvances(s: State, t: nat)
    requires Inv(s) && t in s.pcs && s.pcs[t].Release?
    ensures Advances(s, StepRelease(s, t), t)
  {
    hide Inv, OthersAway;
    DispatcherFacts(s, t);
  }

  lemma RecheckAdvances(s: State, t: nat)
    requires Inv(s) && t in s.pcs && s.pcs[t].Recheck?
    ensures Advances(s, StepRecheck(s, t), t)
  {
    hide Inv, OthersAway;
    DispatcherFacts(s, t);
  }

  lemma CallAdvances(s: State, t: nat, item: Item)
    requires Inv(s) && t in s.pcs && s.pcs[t] == InCall(item)
    ensures Advances(s, StepInCall(s, t, item), t)
  {
    hide Inv, Calls, Last;
  }

  lemma DispatchAdvances(s: State, t: nat)
    requires Inv(s) && t in s.pcs && InDispatch(s.pcs[t])
    ensures Advances(s, Advance(s, t), t)
  {
    hide Inv, Advances, StepRequest, StepAcquire, StepCheck, StepEnter, StepTakeCalls, StepNextCall, StepInCall,
      StepRelease, StepRecheck;
    match s.pcs[t]
    case Request => RequestAdvances(s, t);
    case Acquire => AcquireAdvances(s, t);
    case Check => CheckAdvances(s, t);
    case Enter => EnterAdvances(s, t);
    case TakeCalls => TakeCallsAdvances(s, t);
    case NextCall => NextCallAdvances(s, t);
    case InCall(item) => CallAdvances(s, t, item);
    case Release => ReleaseAdvances(s, t);
    case Recheck => RecheckAdvances(s, t);
  }

  lemma DispatcherFacts(s: State, t: nat)
    requires Inv(s) && t in s.pcs
    ensures OthersAway(s, t) && s.dispatching ==> Owns(s.pcs[t])
    ensures s.q.closed ==> s.q.head == [] && s.q.running == []
    ensures s.q.running != [] && OthersAway(s, t) ==> s.pcs[t].NextCall? || s.pcs[t].InCall?
    ensures Owns(s.pcs[t]) && !s.pcs[t].NextCall? && !s.pcs[t].InCall? ==> s.q.running == []
  {
  }

  /** Left alone, a thread in dispatch returns; and if no other thread runs calls, and this one has just
      begun, it leaves an open queue empty. */
  lemma {:induction false} DispatchReturns(s: State, t: nat) returns (run: seq<(nat, Move)>, end: State)
    requires Inv(s) && t in s.pcs && InDispatch(s.pcs[t])
    ensures After(s, run) == Some(end) && (forall i :: 0 <= i < |run| ==> run[i] == (t, Go))
    ensures Inv(end) && Alone(s, end, t) && end.pcs[t].Idle?
    ensures OthersAway(s, t) && !s.exiting && !s.q.closed && Emptying(s, t) ==> end.q.head == [] && end.q.running == []
    decreases Rounds(s, t), |s.q.head|, |s.q.running|, Rank(s, t)
  {
    hide Inv, Emptying, Rounds, Rank;
    var next := Advance(s, t);
    DispatchAdvances(s, t);
    assert Step(s, t, Go) == Some(next) by { hide Advance; }
    InvKept(s, t, Go);
    hide Advance, Step;
    if next.pcs[t].Idle? {
      run, end := [(t, Go)], next;
      AfterOne(s, t, next);
    } else {
      var rest;
      rest, end := DispatchReturns(next, t);
      run := [(t, Go)] + rest;
      AfterMore(s, t, next, rest);
    }
  }

  lemma AfterMore(s: State, t: nat, next: State, rest: seq<(nat, Move)>)
    requires Step(s, t, Go) == Some(next)
    ensures After(s, [(t, Go)] + rest) == After(next, rest)
  {
    hide Step;
    assert ([(t, Go)] + rest)[1..] == rest;
  }

  lemma AfterOne(s: State, t: nat, next: State)
    requires Step(s, t, Go) == Some(next)
    ensures After(s, [(t, Go)]) == Some(next)
  {
    hide Step;
    assert [(t, Go)][1..] == [];
  }

  /** A dispatch that begins while no other thread is in dispatch, and is left alone, returns with every
      accepted push run or abandoned, and an open queue empty. */
  lemma DispatchRunsAll(s: State, t: nat) returns (run: seq<(nat, Move)>, end: State)
    requires Reachable(s) && !s.exiting && t in s.pcs && s.pcs[t].Request?
    requires forall u :: u in s.pcs && u != t ==> !InDispatch(s.pcs[u])
    ensures After(s, run) == Some(end) && (forall i :: 0 <= i < |run| ==> run[i] == (t, Go))
    ensures t in end.pcs && end.pcs[t].Idle?
    ensures end.log.pushed == s.log.pushed == end.log.ran + end.log.abandoned
    ensures end.q.head == [] && end.q.running == []
  {
    hide Reachable;
    InvReachable(s);
    hide Inv;
    run, end := DispatchReturns(s, t);
    NobodyOwns(end);
    hide Emptying, After;
    EmptyEnd(end);
  }

  lemma EmptyEnd(s: State)
    requires Inv(s) && !s.exiting && OwnerPc(s) == Idle && s.q.running == [] && (!s.q.closed ==> s.q.head == [])
    ensures s.log.pushed == s.log.ran + s.log.abandoned && s.q.head == []
  {
    ContentOf(s);
    ClosedIsEmpty(s);
    hide Inv, Closing, OneOwner, Claims, Account, Demand, Nodes;
    FlatNone();
    hide Flat;
    EmptyEnds(s.log.ran, s.log.abandoned);
  }

  lemma EmptyEnds(a: seq<HostCall>, b: seq<HostCall>)
    ensures a + [] + b + [] + [] == a + b
  {
  }

  // Refinement of a plain queue ----------------------------------------------

  /** A queue with one item for each host call. */
  datatype Plain = Plain(queue: seq<HostCall>, started: seq<HostCall>, dropped: seq<HostCall>, open: bool)

  function Abstract(s: State): Plain {
    Plain(Flat(s.q.running) + Flat(s.q.head), s.log.ran + Flat(Flight(s)), s.log.abandoned, !s.q.closed)
  }

  /** Nothing, one push, starting some calls from the front, or dropping the rest. */
  ghost predicate PlainStep(a: Plain, b: Plain) {
    || a == b
    || (a.open && exists call :: b == a.(queue := a.queue + [call]))
    || (a.open && exists n: nat :: n <= |a.queue| && b == a.(queue := a.queue[n..], started := a.started + a.queue[..n]))
    || (a.open && b == Plain([], a.started, a.dropped + a.queue, false))
  }

  lemma Cancel(a: seq<HostCall>, b: seq<HostCall>, b': seq<HostCall>, c: seq<HostCall>)
    requires a + b + c == a + b' + c
    ensures b == b'
  {
    assert |b| == |b'|;
    assert b == (a + b + c)[|a|..|a| + |b|];
    assert b' == (a + b' + c)[|a|..|a| + |b'|];
  }

  /** A step that changes neither the lists nor the histories is no step of the plain queue. */
  lemma Stutters(s: State, s': State)
    requires Fifo(s) && Fifo(s') && !s.exiting && !s'.exiting && s'.q == s.q
    requires s'.log.pushed == s.log.pushed && s'.log.ran == s.log.ran && s'.log.abandoned == s.log.abandoned
    ensures Abstract(s') == Abstract(s)
  {
    hide Flat;
    var rest := s.log.abandoned + Flat(s.q.running) + Flat(s.q.head);
    assert s.log.pushed == s.log.ran + Flat(Flight(s)) + rest;
    assert s'.log.pushed == s.log.ran + Flat(Flight(s')) + rest;
    Cancel(s.log.ran, Flat(Flight(s)), Flat(Flight(s')), rest);
  }

  predicate SameLists(s: State, s': State) {
    s'.q == s.q && s'.log.pushed == s.log.pushed && s'.log.ran == s.log.ran && s'.log.abandoned == s.log.abandoned
  }

  /** The steps that touch the lists or the histories. */
  predicate Touches(s: State, pc: Pc) {
    match pc
    case PushLock(_, _) => !s.q.closed
    case EventLock(_, _, _) => !s.q.closed
    case TakeCalls => !s.q.closed
    case NextCall => !s.q.closed && s.q.running != []
    case InCall(_) => true
    case HoldLock(_) => !s.q.closed
    case DropLock(_) => !s.q.closed
    case CloseLock => true
    case _ => false
  }

  lemma UntouchedLists(s: State, t: nat, move: Move)
    requires Step(s, t, move).Some? && t in s.pcs && (move.Go? ==> !Touches(s, s.pcs[t]))
    ensures SameLists(s, Step(s, t, move).value)
  {
    hide Touches, Start, Advance, SameLists;
    if move.Go? {
      if InDispatch(s.pcs[t]) {
        UntouchedDispatch(s, t);
      } else {
        UntouchedOther(s, t);
      }
    } else {
      StartLists(s, t, move);
    }
  }

  lemma StartLists(s: State, t: nat, move: Move)
    requires Step(s, t, move).Some? && t in s.pcs && !move.Go?
    ensures SameLists(s, Step(s, t, move).value)
  {
    hide Advance, At, SameLists, Start;
    if move.Begin? {
      StartSame(s, t, move.op);
    } else if move.FailEvent? {
      AtSame(s, t, Idle);
    } else {
      ExitSame(s);
    }
  }

  lemma AtSame(s: State, t: nat, pc: Pc)
    ensures SameLists(s, At(s, t, pc))
  {
  }

  lemma ExitSame(s: State)
    ensures SameLists(s, s.(exiting := true))
  {
  }

  lemma StartSame(s: State, t: nat, op: Op)
    requires t in s.pcs && Start(s, t, op).Some?
    ensures SameLists(s, Start(s, t, op).value)
  {
  }

  lemma RequestSame(s: State, t: nat)
    ensures SameLists(s, StepRequest(s, t)) && SameLists(s, StepRelease(s, t)) && SameLists(s, StepRecheck(s, t))
  {
  }

  lemma CheckSame(s: State, t: nat)
    ensures SameLists(s, StepAcquire(s, t)) && SameLists(s, StepCheck(s, t)) && SameLists(s, StepEnter(s, t))
  {
  }

  lemma NothingTaken(s: State, t: nat)
    ensures s.q.closed ==> SameLists(s, StepTakeCalls(s, t))
    ensures s.q.closed || s.q.running == [] ==> SameLists(s, StepNextCall(s, t))
  {
    hide Next;
  }

  lemma UntouchedDispatch(s: State, t: nat)
    requires t in s.pcs && InDispatch(s.pcs[t]) && !Touches(s, s.pcs[t])
    ensures SameLists(s, Advance(s, t))
  {
    hide SameLists, StepRequest, StepAcquire, StepCheck, StepEnter, StepTakeCalls, StepNextCall, StepInCall, StepRelease,
      StepRecheck;
    RequestSame(s, t);
    CheckSame(s, t);
    NothingTaken(s, t);
  }

  lemma UntouchedOther(s: State, t: nat)
    requires t in s.pcs && !s.pcs[t].Idle? && !InDispatch(s.pcs[t]) && !Touches(s, s.pcs[t])
    ensures SameLists(s, Advance(s, t))
  {
    hide SameLists, StepPushEnter, StepPushLock, StepNotify, StepEventEnter, StepEventLock, StepHoldLock, StepDropLock,
      StepCloseWake, StepAbandon;
    match s.pcs[t]
    case PushEnter(call, settled) => EnterSame(s, t, call, settled, 0, 0, 0);
    case EventEnter(user, callback, event) => EnterSame(s, t, Batch(user, callback, []), None, user, callback, event);
    case PushLock(call, settled) => RefusedSame(s, t, call, settled, 0, 0, 0, Hold(0, 0));
    case EventLock(user, callback, event) =>
      RefusedSame(s, t, Batch(user, callback, []), None, user, callback, event, Hold(0, 0));
    case HoldLock(user) => RefusedSame(s, t, Batch(user, 0, []), None, user, 0, 0, Hold(0, 0));
    case DropLock(node) => RefusedSame(s, t, Batch(0, 0, []), None, 0, 0, 0, node);
    case Notify => NotifySame(s, t);
    case CloseWake(items, nodes) => CloseWakeSame(s, t, items, nodes);
    case Abandon(items, nodes, report) => AbandonSame(s, t, items, nodes, report);
  }

  lemma EnterSame(s: State, t: nat, call: Item, settled: Option<Hold>, user: nat, callback: nat, event: nat)
    ensures SameLists(s, StepPushEnter(s, t, call, settled)) && SameLists(s, StepEventEnter(s, t, user, callback, event))
  {
  }

  lemma RefusedSame(s: State, t: nat, call: Item, settled: Option<Hold>, user: nat, callback: nat, event: nat, node: Hold)
    requires s.q.closed
    ensures SameLists(s, StepPushLock(s, t, call, settled)) && SameLists(s, StepEventLock(s, t, user, callback, event))
    ensures SameLists(s, StepHoldLock(s, t, user)) && SameLists(s, StepDropLock(s, t, node))
  {
    hide Append, AppendEvent, Calls, Logged;
  }

  lemma NotifySame(s: State, t: nat)
    ensures SameLists(s, StepNotify(s, t))
  {
  }

  lemma CloseWakeSame(s: State, t: nat, items: seq<Item>, nodes: seq<Hold>)
    ensures SameLists(s, StepCloseWake(s, t, items, nodes))
  {
  }

  lemma AbandonSame(s: State, t: nat, items: seq<Item>, nodes: seq<Hold>, report: bool)
    ensures SameLists(s, StepAbandon(s, t, items, nodes, report))
  {
    hide Last;
  }

  lemma PushRefines(s: State, s': State, t: nat, call: HostCall)
    requires Inv(s) && Pushes(s, s', t, [call]) && !Owns(s.pcs[t]) && Flat(s'.q.head) == Flat(s.q.head) + [call]
    ensures PlainStep(Abstract(s), Abstract(s'))
  {
    hide Inv, Flat;
    PushesKeptContent(s, s', t, [call]);
    var a := Abstract(s);
    assert Abstract(s').queue == a.queue + [call];
    assert Abstract(s') == a.(queue := a.queue + [call]);
  }

  lemma TakeRefines(s: State, t: nat)
    requires Inv(s) && t in s.pcs && s.pcs[t].TakeCalls? && !s.q.closed
    ensures Abstract(StepTakeCalls(s, t)) == Abstract(s)
  {
    hide Inv, OneOwner, Flat;
    OneOwnerOf(s, t);
    NotRunning(s);
    RunnerFacts(s, StepTakeCalls(s, t), t);
    NoCalls(Flat(s.q.head));
    FlatNone();
  }

  lemma NoCalls(a: seq<HostCall>)
    ensures a + [] == a == [] + a
  {
  }

  lemma NextRefines(s: State, t: nat)
    requires Inv(s) && t in s.pcs && s.pcs[t].NextCall? && !s.q.closed && s.q.running != [] && !s.exiting
    ensures PlainStep(Abstract(s), Abstract(StepNextCall(s, t)))
  {
    hide Inv, OneOwner, Flat, Calls;
    var s', calls := StepNextCall(s, t), Flat([s.q.running[0]]);
    OneOwnerOf(s, t);
    RunnerFacts(s, s', t);
    FlatHead(s.q.running);
    FlatNone();
    StartsPlain(Abstract(s), Abstract(s'), calls, Flat(s.q.running[1..]), Flat(s.q.head), s.log.ran);
  }

  lemma StartsPlain(a: Plain, b: Plain, calls: seq<HostCall>, later: seq<HostCall>, pending: seq<HostCall>, ran: seq<HostCall>)
    requires a == Plain(calls + later + pending, ran + [], a.dropped, true)
    requires b == Plain(later + pending, ran + calls, a.dropped, true)
    ensures PlainStep(a, b)
  {
    assert a.queue[..|calls|] == calls && a.queue[|calls|..] == later + pending;
    assert b == a.(queue := a.queue[|calls|..], started := a.started + a.queue[..|calls|]);
  }

  lemma InCallRefines(s: State, t: nat, item: Item)
    requires Inv(s) && t in s.pcs && s.pcs[t] == InCall(item)
    ensures Abstract(StepInCall(s, t, item)) == Abstract(s)
  {
    hide Inv, OneOwner, Flat, Calls, Last;
    OneOwnerOf(s, t);
    RunnerFacts(s, StepInCall(s, t, item), t);
    FlatOne(item);
    FlatNone();
    NoCalls(s.log.ran + Calls(item));
  }

  lemma HoldLockHolds(s: State, t: nat, user: nat)
    requires t in s.pcs && s.pcs[t].HoldLock? && !s.q.closed
    ensures Holds(s, StepHoldLock(s, t, user), t)
  {
  }

  lemma DropLockHolds(s: State, t: nat, node: Hold)
    requires t in s.pcs && s.pcs[t].DropLock? && !s.q.closed
    ensures Holds(s, StepDropLock(s, t, node), t)
  {
    hide Unlink;
  }

  lemma HolderRefines(s: State, s': State, t: nat)
    requires Inv(s) && Holds(s, s', t)
    ensures Abstract(s') == Abstract(s)
  {
    hide Inv, Flat;
    HolderRoles(s, s', t);
  }

  lemma CloseRefines(s: State, t: nat)
    requires Inv(s) && t in s.pcs && s.pcs[t].CloseLock?
    ensures PlainStep(Abstract(s), Abstract(StepCloseLock(s, t)))
  {
    hide Inv, Flat, Closing;
    var s' := StepCloseLock(s, t);
    ContentOf(s);
    ClosedIsEmpty(s);
    FlightStays(s, s', t);
    hide Flight;
    if s.q.closed {
      assert s.q.running + s.q.head == [];
      FlatNone();
      NoCalls(s.log.abandoned);
      assert Abstract(s') == Abstract(s);
    } else {
      FlatConcat(s.q.running, s.q.head);
      FlatNone();
      NoCalls([]);
      assert Abstract(s') == Plain([], Abstract(s).started, Abstract(s).dropped + Abstract(s).queue, false);
    }
  }

  /** Merging events into the tail refines a queue with one item for each event: every step before
      process exit is a step of that queue. */
  lemma RefinesPlainQueue(s: State, t: nat, move: Move)
    requires Inv(s) && Step(s, t, move).Some? && !Step(s, t, move).value.exiting
    ensures PlainStep(Abstract(s), Abstract(Step(s, t, move).value))
  {
    hide Inv, Flat, PlainStep, Abstract, StepTakeCalls, StepNextCall, StepInCall, StepPushLock, StepEventLock, StepCloseLock,
      StepHoldLock, StepDropLock, Holds;
    StillRunning(s, t, move);
    if !move.Go? || !Touches(s, s.pcs[t]) {
      UntouchedRefines(s, t, move);
    } else {
      match s.pcs[t]
      case PushLock(call, settled) => PushLockRefines(s, t, call, settled);
      case EventLock(user, callback, event) => EventLockRefines(s, t, user, callback, event);
      case TakeCalls => TakeRefines(s, t); PlainStutter(s, StepTakeCalls(s, t));
      case NextCall => NextRefines(s, t);
      case InCall(item) => InCallRefines(s, t, item); PlainStutter(s, StepInCall(s, t, item));
      case HoldLock(user) => HoldLockHolds(s, t, user); HolderRefines(s, StepHoldLock(s, t, user), t); PlainStutter(s, StepHoldLock(s, t, user));
      case DropLock(node) => DropLockHolds(s, t, node); HolderRefines(s, StepDropLock(s, t, node), t); PlainStutter(s, StepDropLock(s, t, node));
      case CloseLock => CloseRefines(s, t);
    }
  }

  lemma PlainStutter(s: State, s': State)
    requires Abstract(s') == Abstract(s)
    ensures PlainStep(Abstract(s), Abstract(s'))
  {
  }

  lemma UntouchedRefines(s: State, t: nat, move: Move)
    requires Inv(s) && Step(s, t, move).Some? && !Step(s, t, move).value.exiting
    requires move.Go? ==> !Touches(s, s.pcs[t])
    ensures PlainStep(Abstract(s), Abstract(Step(s, t, move).value))
  {
    hide Inv, Flat, Abstract, Touches, PlainStep;
    var s' := Step(s, t, move).value;
    StillRunning(s, t, move);
    InvKept(s, t, move);
    ContentOf(s);
    ContentOf(s');
    UntouchedLists(s, t, move);
    hide Step, Fifo;
    Stutters(s, s');
    PlainStutter(s, s');
  }

  lemma StillRunning(s: State, t: nat, move: Move)
    requires Step(s, t, move).Some? && !Step(s, t, move).value.exiting
    ensures !s.exiting && t in s.pcs
  {
    hide Start, At, StepRequest, StepAcquire, StepCheck, StepEnter, StepTakeCalls, StepNextCall, StepInCall, StepRelease,
      StepRecheck, StepPushEnter, StepPushLock, StepNotify, StepEventEnter, StepEventLock, StepHoldLock, StepDropLock,
      StepCloseLock, StepCloseWake, StepAbandon;
    if move.Begin? {
      StartRuns(s, t, move.op);
    } else if move.FailEvent? {
      AtRuns(s, t, Idle);
    } else {
      match s.pcs[t]
      case InCall(item) => CallRuns(s, t, item);
      case PushEnter(call, settled) => PushRuns(s, t, call, settled);
      case PushLock(call, settled) => PushRuns(s, t, call, settled);
      case EventEnter(user, callback, event) => EventRuns(s, t, user, callback, event);
      case EventLock(user, callback, event) => EventRuns(s, t, user, callback, event);
      case HoldLock(owner) => HoldRuns(s, t, owner, Hold(0, 0));
      case DropLock(node) => HoldRuns(s, t, 0, node);
      case CloseWake(items, nodes) => CloseRuns(s, t, items, nodes, false);
      case Abandon(items, nodes, report) => CloseRuns(s, t, items, nodes, report);
      case CloseLock => CloseRuns(s, t, [], [], false);
      case Notify => NotifyRuns(s, t);
      case _ => DispatchRuns(s, t);
    }
  }

  // No step but `Exit` begins the process's exit.

  lemma AtRuns(s: State, t: nat, pc: Pc)
    ensures At(s, t, pc).exiting == s.exiting
  {
  }

  lemma StartRuns(s: State, t: nat, op: Op)
    requires t in s.pcs && Start(s, t, op).Some?
    ensures Start(s, t, op).value.exiting == s.exiting
  {
  }

  lemma DispatchRuns(s: State, t: nat)
    ensures StepRequest(s, t).exiting == StepAcquire(s, t).exiting == StepCheck(s, t).exiting == s.exiting
    ensures StepEnter(s, t).exiting == StepTakeCalls(s, t).exiting == StepNextCall(s, t).exiting == s.exiting
    ensures StepRelease(s, t).exiting == StepRecheck(s, t).exiting == s.exiting
  {
    hide Take, Next;
  }

  lemma CallRuns(s: State, t: nat, item: Item)
    ensures StepInCall(s, t, item).exiting == s.exiting
  {
    hide Calls, Last;
  }

  lemma PushRuns(s: State, t: nat, call: Item, settled: Option<Hold>)
    ensures StepPushEnter(s, t, call, settled).exiting == StepPushLock(s, t, call, settled).exiting == s.exiting
  {
    hide Calls, Append, Logged;
  }

  lemma NotifyRuns(s: State, t: nat)
    ensures StepNotify(s, t).exiting == s.exiting
  {
  }

  lemma EventRuns(s: State, t: nat, user: nat, callback: nat, event: nat)
    ensures StepEventEnter(s, t, user, callback, event).exiting == StepEventLock(s, t, user, callback, event).exiting == s.exiting
  {
    hide AppendEvent, Logged;
  }

  lemma HoldRuns(s: State, t: nat, user: nat, node: Hold)
    ensures StepHoldLock(s, t, user).exiting == StepDropLock(s, t, node).exiting == s.exiting
  {
    hide AddHold, Withdraw;
  }

  lemma CloseRuns(s: State, t: nat, items: seq<Item>, nodes: seq<Hold>, report: bool)
    ensures StepCloseLock(s, t).exiting == StepCloseWake(s, t, items, nodes).exiting == s.exiting
    ensures StepAbandon(s, t, items, nodes, report).exiting == s.exiting
  {
    hide Flat, Last, Close;
  }

  lemma PushLockRefines(s: State, t: nat, call: Item, settled: Option<Hold>)
    requires Inv(s) && t in s.pcs && s.pcs[t] == PushLock(call, settled) && !s.q.closed
    ensures PlainStep(Abstract(s), Abstract(StepPushLock(s, t, call, settled)))
  {
    hide Inv, Flat, PlainStep, Abstract, Claims, StepPushLock;
    ContentOf(s);
    HeldClaim(s, t);
    PushLockPushes(s, t, call, settled);
    AppendFlat(s.q, call, settled);
    CallsSettled(call, settled);
    PushRefines(s, StepPushLock(s, t, call, settled), t, Ran(call.user, call.tag));
  }

  lemma EventLockRefines(s: State, t: nat, user: nat, callback: nat, event: nat)
    requires Inv(s) && t in s.pcs && s.pcs[t] == EventLock(user, callback, event) && !s.q.closed
    ensures PlainStep(Abstract(s), Abstract(StepEventLock(s, t, user, callback, event)))
  {
    hide Inv, Flat, PlainStep, Abstract, StepEventLock;
    EventLockPushes(s, t, user, callback, event);
    AppendEventFlat(s.q, user, callback, event);
    PushRefines(s, StepEventLock(s, t, user, callback, event), t, Event(user, callback, event));
  }

  // What is accepted -----------------------------------------------------------

  /** A push up to the end of its locked block, with no other thread in between. */
  function PushAlone(s: State, t: nat, op: Op): Option<State> {
    match Step(s, t, Begin(op))
    case None => None
    case Some(begun) =>
      match Step(begun, t, Go)
      case None => None
      case Some(entered) => Step(entered, t, Go)
  }

  lemma AloneIs(s: State, t: nat, op: Op, begun: State, entered: State, end: State)
    requires Step(s, t, Begin(op)) == Some(begun) && Step(begun, t, Go) == Some(entered) && Step(entered, t, Go) == Some(end)
    ensures PushAlone(s, t, op) == Some(end)
  {
    hide Step;
  }

  lemma StartsIdle(s: State, t: nat, op: Op)
    requires t in s.pcs && s.pcs[t].Idle?
    ensures Step(s, t, Begin(op)) == Start(s, t, op)
  {
    hide Start;
  }

  lemma PushGoes(s: State, t: nat, call: Item, settled: Option<Hold>)
    requires t in s.pcs
    ensures s.pcs[t] == PushEnter(call, settled) && !s.exiting ==> Step(s, t, Go) == Some(At(s, t, PushLock(call, settled)))
    ensures s.pcs[t] == PushLock(call, settled) ==> Step(s, t, Go) == Some(StepPushLock(s, t, call, settled))
  {
    hide Append, Logged, StepPushLock;
  }

  lemma EventGoes(s: State, t: nat, user: nat, callback: nat, event: nat)
    requires t in s.pcs
    ensures s.pcs[t] == EventEnter(user, callback, event) && !s.exiting ==>
      Step(s, t, Go) == Some(At(s, t, EventLock(user, callback, event)))
    ensures s.pcs[t] == EventLock(user, callback, event) ==> Step(s, t, Go) == Some(StepEventLock(s, t, user, callback, event))
  {
    hide AppendEvent, Logged, StepEventLock;
  }

  lemma OnlyHead(q: Queue, user: nat, callback: nat, event: nat)
    ensures AppendEvent(q, user, callback, event) == q.(head := AppendEvent(q, user, callback, event).head)
  {
  }

  lemma EventLockIs(s: State, t: nat, user: nat, callback: nat, event: nat)
    ensures var end := StepEventLock(s, t, user, callback, event);
      if s.q.closed then end == At(s, t, Idle)
      else
        && end.q == AppendEvent(s.q, user, callback, event) && end.log.pushed == s.log.pushed + [Event(user, callback, event)]
        && end.pcs == s.pcs[t := if s.q.head == [] then Notify else Idle]
  {
    hide AppendEvent;
  }

  /** Outside process exit a call is accepted exactly by an open queue, whatever its other threads do, and is then the
      last pending one; its thread notifies next exactly if the list was empty. A refused call changes nothing. */
  lemma CallAccepted(s: State, t: nat, call: Item)
    requires t in s.pcs && s.pcs[t].Idle? && !s.exiting && call.Call? && call.last.None?
    ensures PushAlone(s, t, Push(call)).Some?
    ensures var end := PushAlone(s, t, Push(call)).value;
      if s.q.closed then end == s
      else
        && end.log.pushed == s.log.pushed + [Ran(call.user, call.tag)] && end.q == s.q.(head := s.q.head + [call])
        && end.pcs == s.pcs[t := if s.q.head == [] then Notify else Idle]
  {
    hide PushAlone, Step;
    StartsIdle(s, t, Push(call));
    var begun := At(s, t, PushEnter(call, None));
    var entered := At(begun, t, PushLock(call, None));
    PushGoes(begun, t, call, None);
    PushGoes(entered, t, call, None);
    AloneIs(s, t, Push(call), begun, entered, StepPushLock(entered, t, call, None));
    forall pc ensures At(entered, t, pc).pcs == s.pcs[t := pc] {}
    assert s.pcs[t := Idle] == s.pcs;
  }

  /** So is an event, which may share the last pending item. */
  lemma EventAccepted(s: State, t: nat, user: nat, callback: nat, event: nat)
    requires t in s.pcs && s.pcs[t].Idle? && !s.exiting
    ensures PushAlone(s, t, PushEvent(user, callback, event)).Some?
    ensures var end := PushAlone(s, t, PushEvent(user, callback, event)).value;
      if s.q.closed then end == s
      else
        && end.log.pushed == s.log.pushed + [Event(user, callback, event)]
        && end.q == s.q.(head := end.q.head) && Flat(end.q.head) == Flat(s.q.head) + [Event(user, callback, event)]
        && end.pcs == s.pcs[t := if s.q.head == [] then Notify else Idle]
  {
    hide *;
    AppendEventFlat(s.q, user, callback, event);
    OnlyHead(s.q, user, callback, event);
    EventStarts(s, t, user, callback, event);
    var begun := At(s, t, EventEnter(user, callback, event));
    var entered := At(begun, t, EventLock(user, callback, event));
    Ats(s, t, EventEnter(user, callback, event), EventLock(user, callback, event));
    Ats(s, t, EventLock(user, callback, event), Idle);
    EventGoes(begun, t, user, callback, event);
    EventGoes(entered, t, user, callback, event);
    AloneIs(s, t, PushEvent(user, callback, event), begun, entered, StepEventLock(entered, t, user, callback, event));
    EventLockIs(entered, t, user, callback, event);
  }

  lemma EventStarts(s: State, t: nat, user: nat, callback: nat, event: nat)
    requires t in s.pcs && s.pcs[t].Idle?
    ensures Step(s, t, Begin(PushEvent(user, callback, event))) == Some(At(s, t, EventEnter(user, callback, event)))
  {
  }

  lemma Ats(s: State, t: nat, first: Pc, second: Pc)
    requires t in s.pcs && s.pcs[t].Idle?
    ensures At(s, t, first) == s.(pcs := s.pcs[t := first])
    ensures At(At(s, t, first), t, second) == At(s, t, second)
    ensures At(s, t, Idle) == s
    ensures s.pcs[t := first][t := Notify] == s.pcs[t := Notify] && s.pcs[t := Idle] == s.pcs
  {
    assert s.pcs[t := Idle] == s.pcs;
    assert s.pcs[t := first][t := second] == s.pcs[t := second];
  }

  /** And a last call, which then stands for its hold; refused by a closed queue, its hold is gone all the same. */
  lemma LastAccepted(s: State, t: nat, call: Item, hold: Hold)
    requires t in s.pcs && s.pcs[t].Idle? && !s.exiting
    requires call.Call? && call.last.None? && call.user == hold.user && hold in s.handles
    ensures PushAlone(s, t, PushLast(call, hold)).Some?
    ensures var end := PushAlone(s, t, PushLast(call, hold)).value;
      if s.q.closed then end == s.(handles := s.handles - {hold})
      else
        && end.log.pushed == s.log.pushed + [Ran(call.user, call.tag)] && end.handles == s.handles - {hold}
        && end.q == s.q.(head := s.q.head + [call.(last := Some(hold.id))], held := Unlink(s.q.held, hold))
        && end.pcs == s.pcs[t := if s.q.head == [] then Notify else Idle]
  {
    hide Unlink;
    hide PushAlone, Step;
    StartsIdle(s, t, PushLast(call, hold));
    var begun := At(s, t, PushEnter(call, Some(hold))).(handles := s.handles - {hold});
    var entered := At(begun, t, PushLock(call, Some(hold)));
    PushGoes(begun, t, call, Some(hold));
    PushGoes(entered, t, call, Some(hold));
    AloneIs(s, t, PushLast(call, hold), begun, entered, StepPushLock(entered, t, call, Some(hold)));
    forall pc ensures At(entered, t, pc).pcs == s.pcs[t := pc] {}
    assert s.pcs[t := Idle] == s.pcs;
  }

  /** A hold is taken exactly on an open queue with a hook, and is then the first of the held list. */
  lemma HoldAccepted(s: State, t: nat, user: nat)
    requires t in s.pcs && s.pcs[t].Idle?
    ensures Step(s, t, Begin(TakeHold(user))).Some? <==> s.hook
    ensures s.hook ==>
      var begun := Step(s, t, Begin(TakeHold(user))).value;
      && Step(begun, t, Go).Some?
      && var end := Step(begun, t, Go).value;
         if s.q.closed then end == s
         else
           var hold := Hold(s.nextId, user);
           end.q == s.q.(held := [hold] + s.q.held) && end.handles == s.handles + {hold} && end.pcs == s.pcs[t := Idle]
  {
    if s.q.closed {
      assert s.pcs[t := HoldLock(user)][t := Idle] == s.pcs;
    }
  }
}
