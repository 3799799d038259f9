/** Completions whose results go through a delivery queue: the two protocols run side by side, and meet where
    a completion takes its hold, hands its one result to the queue, or is let go of without a result. */
module QueuedCompletions {
  import opened Wrappers
  import opened DeliveryModel
  import opened DeliveryProtocol
  import C = CompletionProtocol

  // What becomes of one hold -------------------------------------------------

  /** Nothing has withdrawn the hold, or is about to. */
  predicate Undropped(s: State, h: Hold) {
    h !in s.log.withdrawn && forall t :: t in s.pcs ==> s.pcs[t] != DropLock(h)
  }

  predicate Clean(pc: Pc, h: Hold) {
    match pc
    case PushEnter(_, settled) => settled != Some(h)
    case PushLock(_, settled) => settled != Some(h)
    case InCall(item) => h !in Last(item)
    case _ => true
  }

  /** No last call carries the hold, has run with it, or is about to be pushed with it. */
  predicate Unsent(s: State, h: Hold) {
    && h !in s.log.finished && h !in Lasts(s.q.head) && h !in Lasts(s.q.running)
    && forall t :: t in s.pcs ==> Clean(s.pcs[t], h)
  }

  /** A step that does nothing to a hold. */
  predicate Keeps(s: State, next: State, h: Hold) {
    && (h in next.handles <==> h in s.handles) && (h in s.log.issued ==> h in next.log.issued)
    && (Undropped(s, h) ==> Undropped(next, h)) && (Unsent(s, h) ==> Unsent(next, h))
  }

  /** A step that has nothing to do with holds or calls. */
  predicate Apart(s: State, next: State, t: nat) {
    && t in next.pcs && next.pcs == s.pcs[t := next.pcs[t]] && Claim(next.pcs[t]) == None && !next.pcs[t].InCall?
    && next.handles == s.handles && next.log.issued == s.log.issued
    && next.q.head == s.q.head && next.q.running == s.q.running
    && next.log.withdrawn == s.log.withdrawn && next.log.finished == s.log.finished
  }

  lemma ApartKeeps(s: State, next: State, t: nat, h: Hold)
    requires Apart(s, next, t)
    ensures Keeps(s, next, h)
  {
    hide Lasts, Last;
  }

  lemma RequestApart(s: State, t: nat)
    ensures Apart(s, StepRequest(s, t), t) && Apart(s, StepRelease(s, t), t) && Apart(s, StepRecheck(s, t), t)
  {
  }

  lemma CheckApart(s: State, t: nat)
    ensures Apart(s, StepAcquire(s, t), t) && Apart(s, StepCheck(s, t), t) && Apart(s, StepEnter(s, t), t)
  {
  }

  lemma NotifyApart(s: State, t: nat, user: nat, callback: nat, event: nat)
    ensures Apart(s, StepNotify(s, t), t) && Apart(s, StepEventEnter(s, t, user, callback, event), t)
  {
  }

  lemma WakeApart(s: State, t: nat, items: seq<Item>, nodes: seq<Hold>)
    ensures Apart(s, StepCloseWake(s, t, items, nodes), t)
  {
  }

  lemma AbandonApart(s: State, t: nat, items: seq<Item>, nodes: seq<Hold>, report: bool)
    ensures Apart(s, StepAbandon(s, t, items, nodes, report), t)
  {
    hide Last;
    if items != [] {
      AtApart(s, t, Abandon(items[1..], nodes, report));
    } else if nodes != [] {
      AtApart(s, t, Abandon([], nodes[1..], report));
    } else {
      AtApart(s, t, Idle);
    }
  }

  lemma AtApart(s: State, t: nat, pc: Pc)
    requires Claim(pc) == None && !pc.InCall?
    ensures Apart(s, At(s, t, pc), t)
  {
  }

  /** The fields of a step's result that the hold's fate depends on. */
  lemma HoldFrame(s: State, next: State, t: nat, h: Hold)
    requires t in next.pcs && next.pcs == s.pcs[t := next.pcs[t]]
    requires (h in next.handles <==> h in s.handles) && (h in s.log.issued ==> h in next.log.issued)
    requires Undropped(s, h) ==> h !in next.log.withdrawn && next.pcs[t] != DropLock(h)
    requires Unsent(s, h) ==>
      h !in next.log.finished && h !in Lasts(next.q.head) && h !in Lasts(next.q.running) && Clean(next.pcs[t], h)
    ensures Keeps(s, next, h)
  {
    hide Lasts, Clean;
  }

  lemma TakeCallsKeeps(s: State, t: nat, h: Hold)
    ensures Keeps(s, StepTakeCalls(s, t), h)
  {
    FlatNone();
    hide Lasts;
    HoldFrame(s, StepTakeCalls(s, t), t, h);
  }

  lemma NextCallKeeps(s: State, t: nat, h: Hold)
    requires t in s.pcs
    ensures Keeps(s, StepNextCall(s, t), h)
  {
    hide StepNextCall, Keeps, Lasts, Last;
    FlatNone();
    NextCallIs(s, t);
    NextCallLog(s, t);
    if s.q.running != [] {
      FirstOf(s.q.running);
    }
    HoldFrame(s, StepNextCall(s, t), t, h);
  }

  lemma NextCallLog(s: State, t: nat)
    ensures var next := StepNextCall(s, t);
      t in next.pcs && next.pcs == s.pcs[t := next.pcs[t]] && next.handles == s.handles
  {
    hide Next;
  }

  lemma InCallKeeps(s: State, t: nat, item: Item, h: Hold)
    requires t in s.pcs && s.pcs[t] == InCall(item)
    ensures Keeps(s, StepInCall(s, t, item), h)
  {
    hide Keeps, Lasts, Last, Calls;
    assert Clean(s.pcs[t], h) ==> h !in Last(item);
    HoldFrame(s, StepInCall(s, t, item), t, h);
  }

  lemma PushEnterKeeps(s: State, t: nat, call: Item, settled: Option<Hold>, h: Hold)
    requires t in s.pcs && s.pcs[t] == PushEnter(call, settled) && !s.exiting
    ensures Keeps(s, StepPushEnter(s, t, call, settled), h)
  {
    hide Keeps, Lasts, Last;
    assert Clean(s.pcs[t], h) == Clean(PushLock(call, settled), h);
    HoldFrame(s, StepPushEnter(s, t, call, settled), t, h);
  }

  lemma PushLockKeeps(s: State, t: nat, call: Item, settled: Option<Hold>, h: Hold)
    requires Claims(s) && t in s.pcs && s.pcs[t] == PushLock(call, settled)
    ensures Keeps(s, StepPushLock(s, t, call, settled), h)
  {
    if s.q.closed {
      RefusedPush(s, t, call, settled, 0, 0, 0);
      AtApart(s, t, Idle);
      ApartKeeps(s, At(s, t, Idle), t, h);
    } else {
      hide Claims, StepPushLock, Keeps, Lasts, Last, Calls, Unlink, Settled, Undropped, Unsent;
      PushLockPushes(s, t, call, settled);
      HeldClaim(s, t);
      AppendFlat(s.q, call, settled);
      LastOf(call, settled);
      PushLockFinished(s, t, call, settled);
      PushedKeeps(s, StepPushLock(s, t, call, settled), t, call, settled, h);
    }
  }

  lemma PushedKeeps(s: State, next: State, t: nat, call: Item, settled: Option<Hold>, h: Hold)
    requires t in s.pcs && s.pcs[t] == PushLock(call, settled) && Pushes(s, next, t, Calls(call))
    requires next.log.finished == s.log.finished && next.log.withdrawn == s.log.withdrawn && next.log.issued == s.log.issued
    requires Lasts(next.q.head) == Lasts(s.q.head) + if settled.Some? then multiset{settled.value} else multiset{}
    ensures Keeps(s, next, h)
  {
    hide Keeps, Lasts, Calls, Undropped, Unsent;
    LogOf(s, h);
    SettledOther(s, t, call, settled, h);
    HoldFrame(s, next, t, h);
  }

  lemma SettledOther(s: State, t: nat, call: Item, settled: Option<Hold>, h: Hold)
    requires t in s.pcs && s.pcs[t] == PushLock(call, settled)
    ensures Unsent(s, h) ==> settled != Some(h)
    ensures settled != Some(h) && h !in Lasts(s.q.head) ==>
      h !in Lasts(s.q.head) + if settled.Some? then multiset{settled.value} else multiset{}
  {
    hide Lasts, Last;
    assert Unsent(s, h) ==> Clean(s.pcs[t], h);
    if settled.Some? {
      OneMore(Lasts(s.q.head), settled.value, h);
    }
  }

  lemma PushLockFinished(s: State, t: nat, call: Item, settled: Option<Hold>)
    requires t in s.pcs && Pushes(s, StepPushLock(s, t, call, settled), t, Calls(call))
    ensures var next := StepPushLock(s, t, call, settled);
      next.log.finished == s.log.finished && next.log.withdrawn == s.log.withdrawn && next.log.issued == s.log.issued
  {
    hide StepPushLock;
  }

  lemma EventLockKeeps(s: State, t: nat, user: nat, callback: nat, event: nat, h: Hold)
    requires t in s.pcs
    ensures Keeps(s, StepEventLock(s, t, user, callback, event), h)
  {
    if s.q.closed {
      RefusedPush(s, t, Batch(user, callback, []), None, user, callback, event);
      AtApart(s, t, Idle);
      ApartKeeps(s, At(s, t, Idle), t, h);
    } else {
      hide StepEventLock, Keeps, Lasts, Last;
      EventLockPushes(s, t, user, callback, event);
      AppendEventFlat(s.q, user, callback, event);
      HoldFrame(s, StepEventLock(s, t, user, callback, event), t, h);
    }
  }

  lemma DropLockKeeps(s: State, t: nat, node: Hold, h: Hold)
    requires t in s.pcs && s.pcs[t] == DropLock(node)
    ensures Keeps(s, StepDropLock(s, t, node), h)
  {
    if s.q.closed {
      AtApart(s, t, Idle);
      ApartKeeps(s, At(s, t, Idle), t, h);
    } else {
      hide Keeps, Lasts, Unlink;
      assert Undropped(s, h) ==> node != h;
      OneMore(s.log.withdrawn, node, h);
      DropLockIs(s, t, node);
      hide StepDropLock, Undropped;
      HoldFrame(s, StepDropLock(s, t, node), t, h);
    }
  }

  lemma OneMore(m: multiset<Hold>, node: Hold, h: Hold)
    ensures node != h && h !in m ==> h !in m + multiset{node}
  {
  }

  lemma DropLockIs(s: State, t: nat, node: Hold)
    requires t in s.pcs && !s.q.closed
    ensures var next := StepDropLock(s, t, node);
      && t in next.pcs && next.pcs == s.pcs[t := Idle] && next.handles == s.handles && next.log.issued == s.log.issued
      && next.q.head == s.q.head && next.q.running == s.q.running
      && next.log.withdrawn == s.log.withdrawn + multiset{node} && next.log.finished == s.log.finished
  {
    hide Unlink;
  }

  lemma CloseLockKeeps(s: State, t: nat, h: Hold)
    ensures Keeps(s, StepCloseLock(s, t), h)
  {
    FlatNone();
    hide Keeps, Lasts, Flat;
    HoldFrame(s, StepCloseLock(s, t), t, h);
  }

  /** A hold that is not fresh. */
  lemma HoldLockKeeps(s: State, t: nat, user: nat, h: Hold)
    requires t in s.pcs && h.id < s.nextId
    ensures Keeps(s, StepHoldLock(s, t, user), h)
  {
    hide Keeps, Lasts, StepHoldLock;
    HoldLockIs(s, t, user);
    HoldFrame(s, StepHoldLock(s, t, user), t, h);
  }

  lemma HoldLockIs(s: State, t: nat, user: nat)
    requires t in s.pcs
    ensures var next := StepHoldLock(s, t, user);
      && t in next.pcs && next.pcs == s.pcs[t := Idle]
      && next.handles == (if s.q.closed then s.handles else s.handles + {Hold(s.nextId, user)})
      && next.log.issued == (if s.q.closed then s.log.issued else s.log.issued + multiset{Hold(s.nextId, user)})
      && next.q.head == s.q.head && next.q.running == s.q.running
      && next.log.withdrawn == s.log.withdrawn && next.log.finished == s.log.finished
  {
  }

  lemma DispatchKeeps(s: State, t: nat, h: Hold)
    requires t in s.pcs && InDispatch(s.pcs[t])
    ensures Keeps(s, Advance(s, t), h)
  {
    hide Keeps, Apart, StepRequest, StepAcquire, StepCheck, StepEnter, StepTakeCalls, StepNextCall, StepInCall,
      StepRelease, StepRecheck;
    if s.pcs[t].TakeCalls? {
      TakeCallsKeeps(s, t, h);
    } else if s.pcs[t].NextCall? {
      NextCallKeeps(s, t, h);
    } else if s.pcs[t].InCall? {
      InCallKeeps(s, t, s.pcs[t].item, h);
    } else {
      RequestApart(s, t);
      CheckApart(s, t);
      ApartKeeps(s, Advance(s, t), t, h);
    }
  }

  lemma OtherKeeps(s: State, t: nat, h: Hold)
    requires Claims(s) && t in s.pcs && !InDispatch(s.pcs[t]) && !s.pcs[t].Idle? && !s.pcs[t].HoldLock? && !s.exiting
    ensures Keeps(s, Advance(s, t), h)
  {
    hide Claims, Keeps, Apart, StepPushEnter, StepPushLock, StepNotify, StepEventEnter, StepEventLock, StepDropLock,
      StepCloseLock, StepCloseWake, StepAbandon;
    match s.pcs[t]
    case PushEnter(call, settled) => PushEnterKeeps(s, t, call, settled, h);
    case PushLock(call, settled) => PushLockKeeps(s, t, call, settled, h);
    case EventLock(user, callback, event) => EventLockKeeps(s, t, user, callback, event, h);
    case DropLock(node) => DropLockKeeps(s, t, node, h);
    case CloseLock => CloseLockKeeps(s, t, h);
    case Notify =>
      NotifyApart(s, t, 0, 0, 0);
      ApartKeeps(s, Advance(s, t), t, h);
    case EventEnter(user, callback, event) =>
      NotifyApart(s, t, user, callback, event);
      ApartKeeps(s, Advance(s, t), t, h);
    case CloseWake(items, nodes) =>
      WakeApart(s, t, items, nodes);
      ApartKeeps(s, Advance(s, t), t, h);
    case Abandon(items, nodes, report) =>
      AbandonApart(s, t, items, nodes, report);
      ApartKeeps(s, Advance(s, t), t, h);
  }

  /** Whether the operation takes the hold out of its handle. */
  predicate Spends(op: Op, h: Hold) {
    (op.PushLast? || op.DropHold?) && op.hold == h
  }

  lemma StartKeeps(s: State, t: nat, op: Op, h: Hold)
    requires t in s.pcs && Start(s, t, op).Some? && !Spends(op, h)
    ensures Keeps(s, Start(s, t, op).value, h)
  {
    hide Keeps, Lasts, Last, Start, Undropped, Unsent, Clean;
    StartIs(s, t, op);
    LogOf(s, h);
    StartClean(op, h);
    HoldFrame(s, Start(s, t, op).value, t, h);
  }

  lemma StartClean(op: Op, h: Hold)
    ensures !Spends(op, h) ==> Clean(StartPc(op), h) && StartPc(op) != DropLock(h)
    ensures op.PushLast? ==> StartPc(op) != DropLock(h)
    ensures op.DropHold? ==> Clean(StartPc(op), h)
  {
  }

  lemma LogOf(s: State, h: Hold)
    ensures Undropped(s, h) ==> h !in s.log.withdrawn
    ensures Unsent(s, h) ==> h !in s.log.finished && h !in Lasts(s.q.head) && h !in Lasts(s.q.running)
  {
  }

  /** What an operation begins with, and the handles that it leaves. */
  function StartPc(op: Op): Pc {
    match op
    case Dispatch => Request
    case Push(call) => PushEnter(call, None)
    case PushLast(call, hold) => PushEnter(call, Some(hold))
    case PushEvent(user, callback, event) => EventEnter(user, callback, event)
    case TakeHold(user) => HoldLock(user)
    case DropHold(hold) => DropLock(hold)
    case CloseQueue => CloseLock
  }

  function Spent(op: Op): set<Hold> {
    if op.PushLast? || op.DropHold? then {op.hold} else {}
  }

  lemma StartIs(s: State, t: nat, op: Op)
    requires t in s.pcs && Start(s, t, op).Some?
    ensures Start(s, t, op).value == At(s, t, StartPc(op)).(handles := s.handles - Spent(op))
  {
    hide At;
    assert s.handles - {} == s.handles;
    AtHandles(s, t, StartPc(op));
  }

  lemma AtHandles(s: State, t: nat, pc: Pc)
    ensures At(s, t, pc).(handles := s.handles) == At(s, t, pc)
  {
  }

  /** Pushing the hold's last call withdraws nothing, and withdrawing the hold pushes nothing. */
  lemma SpendKeeps(s: State, t: nat, op: Op, h: Hold)
    requires t in s.pcs && Start(s, t, op).Some? && Spends(op, h)
    ensures var next := Start(s, t, op).value;
      && h !in next.handles && (h in s.log.issued ==> h in next.log.issued)
      && (op.PushLast? && Undropped(s, h) ==> Undropped(next, h)) && (op.DropHold? && Unsent(s, h) ==> Unsent(next, h))
  {
    hide Lasts, Last, Start, Clean;
    StartIs(s, t, op);
    StartClean(op, h);
  }

  /** A step before exit that does not spend the hold keeps its fate open, or as it was. */
  lemma StepKeeps(s: State, t: nat, move: Move, h: Hold)
    requires Claims(s) && Step(s, t, move).Some? && !s.exiting && !move.Exit?
    requires move.Begin? ==> !Spends(move.op, h)
    requires h.id < s.nextId || move.Begin? || !s.pcs[t].HoldLock?
    ensures Keeps(s, Step(s, t, move).value, h)
  {
    hide Claims, Keeps, Start, Advance, At;
    if move.Begin? {
      StartKeeps(s, t, move.op, h);
    } else if move.FailEvent? {
      AtApart(s, t, Idle);
      ApartKeeps(s, At(s, t, Idle), t, h);
    } else if InDispatch(s.pcs[t]) {
      DispatchKeeps(s, t, h);
    } else if s.pcs[t].HoldLock? {
      HoldLockKeeps(s, t, s.pcs[t].owner, h);
      AdvanceHold(s, t);
    } else {
      OtherKeeps(s, t, h);
    }
  }

  lemma AdvanceHold(s: State, t: nat)
    requires t in s.pcs && s.pcs[t].HoldLock?
    ensures Advance(s, t) == StepHoldLock(s, t, s.pcs[t].owner)
  {
  }

  // Holds that are still in their handles ------------------------------------

  /** A hold in its handle was issued, and is neither withdrawn nor sent. */
  predicate InHand(s: State, h: Hold) {
    h in s.log.issued && Undropped(s, h) && Unsent(s, h)
  }

  predicate HandsClean(s: State) {
    forall h :: h in s.handles ==> InHand(s, h)
  }

  /** A fresh hold has no history: its node is not among those issued. */
  lemma FreshIsClean(s: State, t: nat)
    requires Inv(s) && !s.exiting && t in s.pcs && s.pcs[t].HoldLock? && !s.q.closed
    ensures var h := Hold(s.nextId, s.pcs[t].owner); Undropped(s, h) && Unsent(s, h)
  {
    var h := Hold(s.nextId, s.pcs[t].owner);
    ContentOf(s);
    NewId(s, t, h);
    NotIssued(s, h);
    NobodyHas(s, h);
    hide Inv, OneOwner, Closing, Fifo, Demand, Nodes, Account, Claims, Lasts, Clean, Flight;
  }

  lemma NobodyHas(s: State, h: Hold)
    requires OneOwner(s) && Claims(s) && h.id == s.nextId && h !in Lasts(Flight(s))
    ensures forall u :: u in s.pcs ==> s.pcs[u] != DropLock(h) && Clean(s.pcs[u], h)
  {
    hide OneOwner, Claims, Lasts, Flight, Clean;
    forall u | u in s.pcs ensures s.pcs[u] != DropLock(h) && Clean(s.pcs[u], h) {
      NewId(s, u, h);
      FlightClean(s, u, h);
    }
  }

  /** A hold with the next id is nobody's yet. */
  lemma NewId(s: State, t: nat, h: Hold)
    requires Claims(s) && t in s.pcs && h.id == s.nextId
    ensures h !in s.log.issued && Claim(s.pcs[t]) != Some(h) && (s.pcs[t].HoldLock? ==> s.hook)
  {
  }

  lemma FlightClean(s: State, u: nat, h: Hold)
    requires OneOwner(s) && u in s.pcs && h !in Lasts(Flight(s)) && Claim(s.pcs[u]) != Some(h)
    ensures Clean(s.pcs[u], h)
  {
    if s.pcs[u].InCall? {
      assert Owns(s.pcs[u]);
      FlatOne(s.pcs[u].item);
    }
  }

  lemma NotIssued(s: State, h: Hold)
    requires Account(s) && !s.exiting && s.hook && h !in s.log.issued
    ensures h !in s.log.withdrawn && h !in s.log.finished && h !in Lasts(s.q.head) && h !in Lasts(s.q.running)
    ensures h !in Lasts(Flight(s))
  {
    hide Lasts, Flight, DoomedItems, DoomedNodes;
  }

  lemma HandsCleanKept(s: State, t: nat, move: Move)
    requires Inv(s) && HandsClean(s) && Step(s, t, move).Some? && !s.exiting && !move.Exit?
    ensures HandsClean(Step(s, t, move).value)
  {
    hide Inv, Step, InHand;
    var next := Step(s, t, move).value;
    forall h | h in next.handles ensures InHand(next, h) {
      HandClean(s, t, move, h);
    }
  }

  lemma HandClean(s: State, t: nat, move: Move, h: Hold)
    requires Inv(s) && HandsClean(s) && Step(s, t, move).Some? && !s.exiting && !move.Exit?
    requires h in Step(s, t, move).value.handles
    ensures InHand(Step(s, t, move).value, h)
  {
    ClaimsOf(s);
    hide Inv, Undropped, Unsent, Claims, Start, Advance;
    if move.Begin? && Spends(move.op, h) {
      SpendKeeps(s, t, move.op, h);
      assert false;
    } else if move.Go? && s.pcs[t].HoldLock? {
      HoldTakenClean(s, t, h);
    } else {
      hide Step;
      StepKeeps(s, t, move, h);
    }
  }

  lemma HoldTakenClean(s: State, t: nat, h: Hold)
    requires Inv(s) && HandsClean(s) && !s.exiting && t in s.pcs && s.pcs[t].HoldLock? && h in Advance(s, t).handles
    ensures InHand(Advance(s, t), h)
  {
    hide Inv, Advance, StepHoldLock, Undropped, Unsent;
    AdvanceHold(s, t);
    HoldLockIs(s, t, s.pcs[t].owner);
    if h !in s.handles {
      FreshIsClean(s, t);
    }
    HoldLockPasses(s, t, s.pcs[t].owner, h);
  }

  lemma HoldLockPasses(s: State, t: nat, user: nat, h: Hold)
    requires t in s.pcs && Undropped(s, h) && Unsent(s, h)
    ensures Undropped(StepHoldLock(s, t, user), h) && Unsent(StepHoldLock(s, t, user), h)
  {
    hide StepHoldLock, Lasts;
    HoldLockIs(s, t, user);
  }

  // The two protocols together -----------------------------------------------

  /** `hold` gives the completions that have a hold on the queue theirs. */
  datatype Both = Both(c: C.State, d: State, hold: map<nat, Hold>)

  datatype Joint =
    | Own(step: C.Step)                                        // a completion's or its handle's own step
    | Host(t: nat, move: Move)                                 // a step on the queue for anything else
    | Bind(id: nat, h: Hold)                                   // makes a completion around a hold
    | Give(id: nat, ending: C.Ending, t: nat, call: Item)      // hands over the result as a last call
    | Discard(id: nat, t: nat)                                 // destroys a completion that gave no result

  predicate Discards(c: C.State, id: nat) {
    id in c.completions && !c.completions[id].phase.Accepted? && c.completions[id].work.Idle?
  }

  /** Before the process exits, a completion with a hold gives its result, or withdraws its hold, on the queue. */
  predicate Solo(b: Both, step: C.Step) {
    match step
    case Deliver(id, _) => id !in b.hold || b.d.exiting
    case Destroy(id) => id !in b.hold || b.d.exiting || !Discards(b.c, id)
    case _ => true
  }

  /** The holds of completions are spent by the completions alone. */
  predicate Foreign(b: Both, move: Move) {
    move.Begin? ==> forall id :: id in b.hold ==> !Spends(move.op, b.hold[id])
  }

  function Met(c: Option<C.State>, d: Option<State>, hold: map<nat, Hold>): Option<Both> {
    if c.Some? && d.Some? then Some(Both(c.value, d.value, hold)) else None
  }

  function JointNext(b: Both, j: Joint): Option<Both> {
    match j
    case Own(step) => if Solo(b, step) then Met(C.Next(b.c, step), Some(b.d), b.hold) else None
    case Host(t, move) => if Foreign(b, move) then Met(Some(b.c), Step(b.d, t, move), b.hold) else None
    case Bind(id, h) =>
      if h in b.d.handles && h !in b.hold.Values then Met(C.Next(b.c, C.Make(id)), Some(b.d), b.hold[id := h]) else None
    case Give(id, ending, t, call) =>
      if id in b.hold && !b.d.exiting then
        Met(C.Next(b.c, C.Deliver(id, ending)), Step(b.d, t, Begin(PushLast(call, b.hold[id]))), b.hold)
      else None
    case Discard(id, t) =>
      if id in b.hold && !b.d.exiting && Discards(b.c, id) then
        Met(C.Next(b.c, C.Destroy(id)), Step(b.d, t, Begin(DropHold(b.hold[id]))), b.hold)
      else None
  }

  /** Where a completion's hold is, by how far the completion has come. */
  predicate Bound(c: C.Completion, d: State, h: Hold) {
    && h in d.log.issued
    && if c.results != [] then h !in d.handles && Undropped(d, h)
       else if c.work.Destroyed? then h !in d.handles && Unsent(d, h)
       else h in d.handles
  }

  ghost predicate JointInv(b: Both) {
    && C.Inv(b.c) && Inv(b.d)
    && (forall id :: id in b.hold ==> id in b.c.completions)
    && (forall i, j :: i in b.hold && j in b.hold && i != j ==> b.hold[i] != b.hold[j])
    && (!b.d.exiting ==> HandsClean(b.d) && forall id :: id in b.hold ==> Bound(b.c.completions[id], b.d, b.hold[id]))
  }

  lemma BoundKeeps(c: C.Completion, d: State, next: State, h: Hold)
    requires Bound(c, d, h) && Keeps(d, next, h)
    ensures Bound(c, next, h)
  {
    hide Undropped, Unsent;
  }

  /** Only its own delivery and its own end change what a completion has given. */
  lemma ResultsStay(s: C.State, step: C.Step, id: nat)
    requires C.Inv(s) && C.Next(s, step).Some? && id in s.completions
    requires step.Deliver? ==> step.id != id
    requires step.Destroy? && step.id == id ==> !Discards(s, id)
    ensures var next := C.Next(s, step).value;
      && id in next.completions && next.completions[id].results == s.completions[id].results
      && (s.completions[id].results == [] ==> (next.completions[id].work.Destroyed? <==> s.completions[id].work.Destroyed?))
  {
    C.GoodOf(s, id);
    hide C.Inv, C.Next;
    if OfHandle(step) || step.id != id {
      OthersStay(s, step, id);
    } else {
      OwnStays(s, step);
    }
  }

  /** The steps that are no completion's. */
  predicate OfHandle(step: C.Step) {
    || step.OtherAcquire? || step.OtherRelease? || step.RetainOne? || step.ReleaseOne? || step.Close?
    || step.NotifyDrained? || step.Fire?
  }

  lemma OthersStay(s: C.State, step: C.Step, id: nat)
    requires C.Next(s, step).Some? && id in s.completions && (OfHandle(step) || step.id != id)
    ensures var next := C.Next(s, step).value; id in next.completions && next.completions[id] == s.completions[id]
  {
    hide C.Handed, C.Begin, C.Take, C.Called, C.Closed, C.Alive;
  }

  lemma OwnStays(s: C.State, step: C.Step)
    requires C.Next(s, step).Some? && !OfHandle(step) && step.id in s.completions && C.Good(s.completions[step.id])
    requires !step.Deliver? && (step.Destroy? ==> !Discards(s, step.id))
    ensures var id, next := step.id, C.Next(s, step).value;
      && id in next.completions && next.completions[id].results == s.completions[id].results
      && (s.completions[id].results == [] ==> (next.completions[id].work.Destroyed? <==> s.completions[id].work.Destroyed?))
  {
    hide C.Take;
  }

  lemma GivenOnce(s: C.State, id: nat, ending: C.Ending)
    requires C.Inv(s) && C.Next(s, C.Deliver(id, ending)).Some?
    ensures id in s.completions && s.completions[id].results == [] && !s.completions[id].work.Destroyed?
    ensures var next := C.Next(s, C.Deliver(id, ending)).value; id in next.completions && next.completions[id].results != []
  {
    C.GoodOf(s, id);
    hide C.Inv;
  }

  lemma DiscardedEmpty(s: C.State, id: nat)
    requires C.Inv(s) && Discards(s, id) && C.Next(s, C.Destroy(id)).Some?
    ensures s.completions[id].results == [] && !s.completions[id].work.Destroyed?
    ensures var next := C.Next(s, C.Destroy(id)).value;
      id in next.completions && next.completions[id].results == [] && next.completions[id].work.Destroyed?
  {
    C.GoodOf(s, id);
    hide C.Inv;
  }

  lemma OwnKept(b: Both, step: C.Step)
    requires JointInv(b) && JointNext(b, Own(step)).Some?
    ensures JointInv(JointNext(b, Own(step)).value)
  {
    hide C.Inv, C.Next, Inv, HandsClean, Undropped, Unsent, Discards;
    C.InvKept(b.c, step);
    var next := C.Next(b.c, step).value;
    forall id | id in b.hold
      ensures id in next.completions
      ensures !b.d.exiting ==> Bound(next.completions[id], b.d, b.hold[id])
    {
      if b.d.exiting {
        CompletionsRemain(b.c, step, id);
      } else {
        ResultsStay(b.c, step, id);
      }
    }
  }

  lemma CompletionsRemain(s: C.State, step: C.Step, id: nat)
    requires C.Next(s, step).Some? && id in s.completions
    ensures id in C.Next(s, step).value.completions
  {
    hide C.Handed, C.Begin, C.Take, C.Called, C.Closed, C.Alive;
  }

  /** Any step on the queue that leaves the completions' holds to them. */
  lemma HostKept(b: Both, t: nat, move: Move)
    requires JointInv(b) && JointNext(b, Host(t, move)).Some?
    ensures JointInv(JointNext(b, Host(t, move)).value)
  {
    hide C.Inv, Inv, Step, HandsClean, Bound;
    InvKept(b.d, t, move);
    var next := Step(b.d, t, move).value;
    ExitStays(b.d, t, move);
    if !next.exiting {
      HandsCleanKept(b.d, t, move);
      forall id | id in b.hold ensures Bound(b.c.completions[id], next, b.hold[id]) {
        BoundStep(b.d, t, move, b.c.completions[id], b.hold[id]);
      }
    }
  }

  lemma ExitStays(s: State, t: nat, move: Move)
    requires Step(s, t, move).Some?
    ensures !Step(s, t, move).value.exiting ==> !s.exiting && !move.Exit?
  {
    if !Step(s, t, move).value.exiting {
      StillRunning(s, t, move);
    }
    hide Start, Advance, At;
  }

  lemma BoundStep(s: State, t: nat, move: Move, c: C.Completion, h: Hold)
    requires Inv(s) && HandsClean(s) && Bound(c, s, h) && Step(s, t, move).Some? && !s.exiting && !move.Exit?
    requires move.Begin? ==> !Spends(move.op, h)
    ensures Bound(c, Step(s, t, move).value, h)
  {
    ContentOf(s);
    IssuedId(s, h);
    hide Inv, Step, Bound, Keeps, HandsClean, Claims;
    StepKeeps(s, t, move, h);
    BoundKeeps(c, s, Step(s, t, move).value, h);
  }

  lemma IssuedId(s: State, h: Hold)
    requires Claims(s) && h in s.log.issued
    ensures h.id < s.nextId
  {
  }

  lemma BindKept(b: Both, id: nat, h: Hold)
    requires JointInv(b) && JointNext(b, Bind(id, h)).Some?
    ensures JointInv(JointNext(b, Bind(id, h)).value)
  {
    hide C.Inv, C.Next, Inv, Undropped, Unsent;
    C.InvKept(b.c, C.Make(id));
    MadeFresh(b.c, id);
  }

  lemma MadeFresh(s: C.State, id: nat)
    requires C.Next(s, C.Make(id)).Some?
    ensures id !in s.completions && C.Next(s, C.Make(id)).value.completions == s.completions[id := C.FRESH]
  {
  }

  lemma GiveKept(b: Both, id: nat, ending: C.Ending, t: nat, call: Item)
    requires JointInv(b) && JointNext(b, Give(id, ending, t, call)).Some?
    ensures JointInv(JointNext(b, Give(id, ending, t, call)).value)
  {
    hide C.Inv, C.Next, Inv, Step, HandsClean, Bound;
    var step, move := C.Deliver(id, ending), Begin(PushLast(call, b.hold[id]));
    var c, d := C.Next(b.c, step).value, Step(b.d, t, move).value;
    C.InvKept(b.c, step);
    InvKept(b.d, t, move);
    HandsCleanKept(b.d, t, move);
    GivenOnce(b.c, id, ending);
    forall i | i in b.hold ensures i in c.completions && Bound(c.completions[i], d, b.hold[i]) {
      if i == id {
        SpentBound(b.d, t, move.op, b.c.completions[id], c.completions[id], b.hold[id]);
      } else {
        ResultsStay(b.c, step, i);
        BoundStep(b.d, t, move, b.c.completions[i], b.hold[i]);
        SameBound(b.c.completions[i], c.completions[i], d, b.hold[i]);
      }
    }
  }

  lemma DiscardKept(b: Both, id: nat, t: nat)
    requires JointInv(b) && JointNext(b, Discard(id, t)).Some?
    ensures JointInv(JointNext(b, Discard(id, t)).value)
  {
    hide C.Inv, C.Next, Inv, Step, HandsClean, Bound, Discards;
    var step, move := C.Destroy(id), Begin(DropHold(b.hold[id]));
    var c, d := C.Next(b.c, step).value, Step(b.d, t, move).value;
    C.InvKept(b.c, step);
    InvKept(b.d, t, move);
    HandsCleanKept(b.d, t, move);
    DiscardedEmpty(b.c, id);
    forall i | i in b.hold ensures i in c.completions && Bound(c.completions[i], d, b.hold[i]) {
      if i == id {
        SpentBound(b.d, t, move.op, b.c.completions[id], c.completions[id], b.hold[id]);
      } else {
        ResultsStay(b.c, step, i);
        BoundStep(b.d, t, move, b.c.completions[i], b.hold[i]);
        SameBound(b.c.completions[i], c.completions[i], d, b.hold[i]);
      }
    }
  }

  lemma SameBound(c: C.Completion, c': C.Completion, d: State, h: Hold)
    requires Bound(c, d, h) && c'.results == c.results && (c.results == [] ==> (c'.work.Destroyed? <==> c.work.Destroyed?))
    ensures Bound(c', d, h)
  {
    hide Undropped, Unsent;
  }

  /** Taking the hold out of its handle fits what the completion has given. */
  lemma SpentBound(s: State, t: nat, op: Op, c: C.Completion, c': C.Completion, h: Hold)
    requires HandsClean(s) && Bound(c, s, h) && c.results == [] && !c.work.Destroyed?
    requires Step(s, t, Begin(op)).Some? && Spends(op, h)
    requires if op.PushLast? then c'.results != [] else c'.results == [] && c'.work.Destroyed?
    ensures Bound(c', Step(s, t, Begin(op)).value, h)
  {
    hide Undropped, Unsent, Start;
    SpendKeeps(s, t, op, h);
  }

  /** Every joint step keeps both invariants and the tie between them. */
  lemma JointKept(b: Both, j: Joint)
    requires JointInv(b) && JointNext(b, j).Some?
    ensures JointInv(JointNext(b, j).value)
  {
    hide JointInv, JointNext;
    match j
    case Own(step) => OwnKept(b, step);
    case Host(t, move) => HostKept(b, t, move);
    case Bind(id, h) => BindKept(b, id, h);
    case Give(id, ending, t, call) => GiveKept(b, id, ending, t, call);
    case Discard(id, t) => DiscardKept(b, id, t);
  }

  function JointAfter(b: Both, run: seq<Joint>): Option<Both>
    decreases |run|
  {
    if run == [] then Some(b)
    else
      match JointNext(b, run[0])
      case None => None
      case Some(next) => JointAfter(next, run[1..])
  }

  function JointInitial(threads: set<nat>, hook: bool): Both {
    Both(C.INITIAL, Initial(threads, hook), map[])
  }

  ghost predicate JointReachable(b: Both) {
    exists threads, hook, run :: JointAfter(JointInitial(threads, hook), run) == Some(b)
  }

  lemma {:induction false} JointInvAfter(b: Both, run: seq<Joint>)
    requires JointInv(b) && JointAfter(b, run).Some?
    ensures JointInv(JointAfter(b, run).value)
    decreases |run|
  {
    hide JointInv, JointNext;
    if run != [] {
      JointKept(b, run[0]);
      JointInvAfter(JointNext(b, run[0]).value, run[1..]);
    }
  }

  lemma JointInvReachable(b: Both)
    requires JointReachable(b)
    ensures JointInv(b)
  {
    hide JointAfter, Inv, Initial, C.Inv;
    var threads, hook, run :| JointAfter(JointInitial(threads, hook), run) == Some(b);
    InitialInv(threads, hook);
    C.InitialInv();
    NoHands(threads, hook);
    JointInvAfter(JointInitial(threads, hook), run);
  }

  lemma NoHands(threads: set<nat>, hook: bool)
    ensures Initial(threads, hook).handles == {}
  {
  }

  /** A completion with a hold on a hooked queue that is closed, with every thread done, before process exit. */
  predicate Ended(b: Both, id: nat) {
    !b.d.exiting && b.d.hook && b.d.q.closed && AllIdle(b.d) && id in b.hold && id in b.c.completions
  }

  /** Once the queue is closed and every thread is done, a completion's hold has ended in exactly one way:
      with a result given, its last call has run or the hook was told of its user_data; without one, it was
      withdrawn or the hook was told. */
  lemma CompletionEndsOnce(b: Both, id: nat)
    requires JointReachable(b) && Ended(b, id)
    ensures b.hold[id] in b.d.log.issued
    ensures var c, h, log := b.c.completions[id], b.hold[id], b.d.log;
      && log.finished[h] + log.reported[h] + log.withdrawn[h] == 1
      && (|c.results| == 1 ==> log.withdrawn[h] == 0 && log.finished[h] + log.reported[h] == 1)
      && (c.results == [] && c.work.Destroyed? ==> log.finished[h] == 0 && log.reported[h] + log.withdrawn[h] == 1)
      && (c.results == [] && !c.work.Destroyed? ==> log.reported[h] == 1)
  {
    hide JointReachable;
    JointInvReachable(b);
    hide Inv, C.Inv, Clean;
    EndsOnce(b.d, b.hold[id]);
  }

  /** What became of the result and the user_data of an accepted completion that is gone: one result was given,
      and the last call that carries it has run or the hook was told, once. */
  lemma AcceptedEndsOnce(b: Both, id: nat)
    requires JointReachable(b) && Ended(b, id)
    requires b.c.completions[id].work.Destroyed? && !b.c.completions[id].phase.Created?
    ensures |b.c.completions[id].results| == 1
    ensures b.d.log.finished[b.hold[id]] + b.d.log.reported[b.hold[id]] == 1 && b.d.log.withdrawn[b.hold[id]] == 0
  {
    CompletionEndsOnce(b, id);
    hide JointReachable;
    JointInvReachable(b);
    C.GoodOf(b.c, id);
    hide JointInv;
  }

  // A run --------------------------------------------------------------------

  const HOLD := Hold(0, 5)
  const CALL := Call(5, 0, None)

  /** The queue's side: a hold is taken and the queue closed, and then the hold's last call is refused. */
  function QueueAt(i: nat): State {
    if i < 3 then HeldAndClosed(i)
    else if i < 9 then HeldAndClosed(i - 1)
    else if i < 11 then HeldAndClosed(7)
    else
      var spent := HeldAndClosed(7).(handles := HeldAndClosed(7).handles - {HOLD});
      At(spent, 0, if i == 11 then PushEnter(CALL, Some(HOLD)) else if i == 12 then PushLock(CALL, Some(HOLD)) else Idle)
  }

  function OneCompletion(i: nat): C.Completion {
    if i < 9 then C.FRESH
    else if i == 9 then C.FRESH.(phase := C.Accepted, everAccepted := true)
    else if i == 10 then C.Begin(OneCompletion(9), false)
    else C.Handed(OneCompletion(10), C.Delivers)
  }

  /** One completion is made around the hold, and resolved after the close has reported its user_data. */
  function Ending(i: nat): Both {
    if i < 3 then Both(C.INITIAL, QueueAt(i), map[])
    else Both(C.Put(C.INITIAL, 0, OneCompletion(i)), QueueAt(i), map[0 := HOLD])
  }

  function EndingMove(i: nat): Joint {
    if i < 2 then Host(0, HeldAndClosedMove(i))
    else if i == 2 then Bind(0, HOLD)
    else if i < 8 then Host(0, HeldAndClosedMove(i - 1))
    else if i == 8 then Own(C.Accept(0))
    else if i == 9 then Own(C.Resolve(0))
    else if i == 10 then Give(0, C.Delivers, 0, CALL)
    else Host(0, Go)
  }

  lemma CompletionPut(c: C.Completion, c': C.Completion)
    ensures C.Put(C.Put(C.INITIAL, 0, c), 0, c') == C.Put(C.INITIAL, 0, c')
  {
    assert map[0 := c][0 := c'] == map[0 := c'];
  }

  lemma CompletionAccepted()
    ensures C.Next(C.INITIAL, C.Make(0)) == Some(Ending(3).c)
    ensures C.Next(Ending(8).c, C.Accept(0)) == Some(Ending(9).c)
  {
    hide QueueAt;
    CompletionPut(OneCompletion(8), OneCompletion(9));
  }

  lemma CompletionResolved()
    ensures C.Next(Ending(9).c, C.Resolve(0)) == Some(Ending(10).c)
  {
    hide QueueAt;
    CompletionPut(OneCompletion(9), OneCompletion(10));
  }

  lemma CompletionGiven()
    ensures C.Next(Ending(10).c, C.Deliver(0, C.Delivers)) == Some(Ending(11).c)
  {
    hide QueueAt;
    CompletionPut(OneCompletion(10), OneCompletion(11));
  }

  lemma CompletionRests(i: nat)
    ensures i < 8 || i > 10 ==> OneCompletion(i) == OneCompletion(i + 1)
  {
  }

  lemma PushBegins()
    ensures Step(QueueAt(10), 0, Begin(PushLast(CALL, HOLD))) == Some(QueueAt(11))
  {
    hide Start, Advance;
    QueueRests();
    PushStarts();
    StartIs(QueueAt(10), 0, PushLast(CALL, HOLD));
  }

  lemma QueueRests()
    ensures QueueAt(2).handles == {HOLD}
    ensures QueueAt(10).pcs == map[0 := Idle] && QueueAt(10).handles == {HOLD} && QueueAt(10).q.closed && !QueueAt(10).exiting
  {
    SamePcs(Initial({0}, true).pcs, Idle, Idle);
  }

  lemma PushStarts()
    requires QueueAt(10).pcs == map[0 := Idle] && QueueAt(10).handles == {HOLD}
    ensures Start(QueueAt(10), 0, PushLast(CALL, HOLD)).Some?
  {
    hide QueueAt, HeldAndClosed;
  }

  lemma PushRefused()
    ensures Step(QueueAt(11), 0, Go) == Some(QueueAt(12)) && Step(QueueAt(12), 0, Go) == Some(QueueAt(13))
  {
    QueueRests();
    var spent := HeldAndClosed(7).(handles := HeldAndClosed(7).handles - {HOLD});
    assert spent.q == QueueAt(10).q && spent.exiting == QueueAt(10).exiting;
    hide HeldAndClosed;
    RefusedSteps(spent);
  }

  lemma RefusedSteps(s: State)
    requires s.q.closed && !s.exiting
    ensures Step(At(s, 0, PushEnter(CALL, Some(HOLD))), 0, Go) == Some(At(s, 0, PushLock(CALL, Some(HOLD))))
    ensures Step(At(s, 0, PushLock(CALL, Some(HOLD))), 0, Go) == Some(At(s, 0, Idle))
  {
    SamePcs(s.pcs, PushEnter(CALL, Some(HOLD)), PushLock(CALL, Some(HOLD)));
    SamePcs(s.pcs, PushLock(CALL, Some(HOLD)), Idle);
    assert s.pcs[0 := PushEnter(CALL, Some(HOLD))][0 := PushLock(CALL, Some(HOLD))] == s.pcs[0 := PushLock(CALL, Some(HOLD))];
    assert s.pcs[0 := PushLock(CALL, Some(HOLD))][0 := Idle] == s.pcs[0 := Idle];
  }

  lemma EndingStep(i: nat)
    requires i < 13
    ensures JointNext(Ending(i), EndingMove(i)) == Some(Ending(i + 1))
  {
    hide Step, C.Next, HeldAndClosed, C.Put, OneCompletion;
    CompletionAccepted();
    CompletionResolved();
    CompletionGiven();
    CompletionRests(i);
    QueueRests();
    if i < 2 {
      HeldAndClosedStep(i);
    } else if 2 < i < 8 {
      HeldAndClosedStep(i - 1);
    } else if i == 10 {
      PushBegins();
    } else if i > 10 {
      PushRefused();
    }
  }

  lemma {:induction false} EndingRun(i: nat) returns (run: seq<Joint>)
    requires i <= 13
    ensures JointAfter(Ending(i), run) == Some(Ending(13))
    decreases 13 - i
  {
    hide Ending, JointNext;
    if i == 13 {
      run := [];
    } else {
      EndingStep(i);
      var rest := EndingRun(i + 1);
      run := [EndingMove(i)] + rest;
      assert run[1..] == rest;
    }
  }

  /** Such runs exist: here the hook is told at the close, and the result that comes later is refused. */
  lemma ResultCanComeLate()
    ensures exists b :: JointReachable(b) && Ended(b, 0) && |b.c.completions[0].results| == 1 && b.d.log.reported[b.hold[0]] == 1
  {
    hide JointAfter;
    var run := EndingRun(0);
    assert Ending(0) == JointInitial({0}, true);
    QueueRests();
    assert JointReachable(Ending(13));
  }
}
