/** The executor: work and notices from any thread, drained by thunks of the worker's run loop. */
module Executor {
  import opened Wrappers

  datatype Task = Task(id: nat, command: bool)

  /** What the run loop can be asked to run: a drain, the drain that stops the loop, or the engine's own. */
  datatype Thunk = Drain | StopDrain | Other

  /** What the mutex guards, and the run loop's queue. */
  datatype Shared = Shared(
    alive: bool, stopping: bool, scheduled: bool, draining: bool,
    work: seq<Task>, notices: seq<Task>, loop: seq<Thunk>
  )

  // The locked blocks --------------------------------------------------------

  function Enqueue(q: Shared, task: Task, notice: bool): Option<Shared> {
    if !q.alive || q.stopping then None
    else
      var p := if !q.scheduled && (!notice || !q.draining) then q.(loop := q.loop + [Drain], scheduled := true) else q;
      Some(if notice then p.(notices := p.notices + [task]) else p.(work := p.work + [task]))
  }

  function TakeWork(q: Shared): Shared {
    q.(work := [], scheduled := false, draining := true)
  }

  function PopNotice(q: Shared): Shared {
    if q.notices == [] then q else q.(notices := q.notices[1..])
  }

  function EndDrain(q: Shared): Shared {
    q.(draining := false)
  }

  function Stop(q: Shared): Shared {
    if q.alive && !q.stopping then q.(stopping := true, loop := q.loop + [StopDrain]) else q
  }

  // The threads --------------------------------------------------------------

  /** Where the worker is. `last` marks the drain that stops the loop. */
  datatype Pc =
    | Parked
    | InOther
    | Taking(last: bool)
    | Bursting(burst: seq<Task>, last: bool)
    | Flushing(task: Task, burst: seq<Task>, last: bool)
    | Looked(task: Task, burst: seq<Task>, last: bool)
    | InNotice(notice: Task, before: Option<Task>, burst: seq<Task>, last: bool)
    | InTask(task: Task, burst: seq<Task>, last: bool)
    | FinalFlush(last: bool)
    | Ending(last: bool)
    | StoppingLoop
    | Returned
    | Exited

  /** A look that found no notice, before a task, and how many had been accepted and had finished by then. */
  datatype Look = Look(task: Task, accepted: nat, finished: nat)

  datatype Log = Log(
    accepted: seq<Task>, ran: seq<Task>, notices: seq<Task>, noticesRan: seq<Task>,
    looks: seq<Look>, starts: seq<Task>,
    missed: bool  // a notice came between the last look at the queue and the end of the drain
  )

  datatype State = State(q: Shared, pc: Pc, log: Log)

  datatype Move = Submit(task: Task, notice: bool) | InvokeOther | CallStop | Worker

  function Initial(): State {
    State(Shared(true, false, false, false, [], [], []), Parked, Log([], [], [], [], [], [], false))
  }

  function Started(s: State, task: Task): Log {
    s.log.(starts := s.log.starts + [task])
  }

  function SeenEmpty(s: State, task: Task): Log {
    s.log.(looks := s.log.looks + [Look(task, |s.log.notices|, |s.log.noticesRan|)])
  }

  /** The worker's next step, if it has one. */
  function WorkerStep(s: State): Option<State> {
    match s.pc
    case Parked =>
      if s.q.loop == [] then None
      else
        var q := s.q.(loop := s.q.loop[1..]);
        Some(s.(q := q, pc := match s.q.loop[0] case Drain => Taking(false) case StopDrain => Taking(true) case Other => InOther))
    case InOther => Some(s.(pc := Parked))
    case Taking(last) => Some(s.(q := TakeWork(s.q), pc := Bursting(s.q.work, last)))
    case Bursting(burst, last) =>
      if burst == [] then Some(s.(pc := FinalFlush(last)))
      else if burst[0].command then Some(s.(pc := InTask(burst[0], burst[1..], last), log := Started(s, burst[0])))
      else Some(s.(pc := Flushing(burst[0], burst[1..], last)))
    case Flushing(task, burst, last) =>
      if s.q.notices == [] then Some(s.(pc := Looked(task, burst, last), log := SeenEmpty(s, task)))
      else Some(s.(q := PopNotice(s.q), pc := InNotice(s.q.notices[0], Some(task), burst, last)))
    case Looked(task, burst, last) => Some(s.(pc := InTask(task, burst, last), log := Started(s, task)))
    case InNotice(notice, before, burst, last) =>
      Some(s.(pc := if before.Some? then Flushing(before.value, burst, last) else FinalFlush(last),
              log := s.log.(noticesRan := s.log.noticesRan + [notice])))
    case InTask(task, burst, last) => Some(s.(pc := Bursting(burst, last), log := s.log.(ran := s.log.ran + [task])))
    case FinalFlush(last) =>
      if s.q.notices == [] then Some(s.(pc := Ending(last)))
      else Some(s.(q := PopNotice(s.q), pc := InNotice(s.q.notices[0], None, [], last)))
    case Ending(last) => Some(s.(q := EndDrain(s.q), pc := if last then StoppingLoop else Parked))
    case StoppingLoop => Some(s.(pc := Returned))
    case Returned => Some(s.(q := s.q.(alive := false), pc := Exited))
    case Exited => None
  }

  /** A submission of any thread; a refused one throws and changes nothing. */
  function SubmitStep(s: State, task: Task, notice: bool): Option<State> {
    match Enqueue(s.q, task, notice)
    case None => None
    case Some(q) =>
      Some(s.(q := q, log :=
        if notice then
          s.log.(notices := s.log.notices + [task],
                 missed := !q.scheduled && (s.log.missed || s.pc.Ending?))
        else s.log.(accepted := s.log.accepted + [task], missed := false)))
  }

  function Step(s: State, move: Move): Option<State> {
    match move
    case Submit(task, notice) => SubmitStep(s, task, notice)
    case InvokeOther => if s.q.alive then Some(s.(q := s.q.(loop := s.q.loop + [Other]))) else None
    case CallStop =>
      var q := Stop(s.q);
      Some(s.(q := q, log := s.log.(missed := s.log.missed && q == s.q)))
    case Worker => WorkerStep(s)
  }

  /** The states of any run: submissions, stops and the engine's thunks come at any point. */
  ghost predicate Reachable(s: State) {
    exists moves :: Follows(Initial(), moves, s)
  }

  ghost predicate Follows(from: State, moves: seq<Move>, to: State)
    decreases |moves|
  {
    if moves == [] then from == to
    else Step(from, moves[0]).Some? && Follows(Step(from, moves[0]).value, moves[1..], to)
  }

  // The invariant ------------------------------------------------------------

  function CountOf(loop: seq<Thunk>, thunk: Thunk): nat {
    if loop == [] then 0 else CountOf(loop[1..], thunk) + if loop[0] == thunk then 1 else 0
  }

  /** Nothing that a drain has to do is queued behind the drain that stops the loop. */
  predicate StopsLast(loop: seq<Thunk>) {
    loop != [] ==>
      && StopsLast(loop[1..])
      && (loop[0] == StopDrain ==> CountOf(loop[1..], Drain) == 0 && CountOf(loop[1..], StopDrain) == 0)
  }

  function InFlight(pc: Pc): seq<Task> {
    match pc
    case Bursting(burst, _) => burst
    case Flushing(task, burst, _) => [task] + burst
    case Looked(task, burst, _) => [task] + burst
    case InNotice(_, before, burst, _) => (if before.Some? then [before.value] else []) + burst
    case InTask(task, burst, _) => [task] + burst
    case _ => []
  }

  function NoticeInFlight(pc: Pc): seq<Task> {
    if pc.InNotice? then [pc.notice] else []
  }

  /** The worker still looks at the notices before this drain ends. */
  predicate WillFlush(pc: Pc) {
    pc.Bursting? || pc.Flushing? || pc.Looked? || pc.InNotice? || pc.InTask? || pc.FinalFlush?
  }

  predicate Stops(pc: Pc) {
    match pc
    case Taking(last) => last
    case Bursting(_, last) => last
    case Flushing(_, _, last) => last
    case Looked(_, _, last) => last
    case InNotice(_, _, _, last) => last
    case InTask(_, _, last) => last
    case FinalFlush(last) => last
    case Ending(last) => last
    case StoppingLoop => true
    case Returned => true
    case Exited => true
    case _ => false
  }

  predicate WorkKept(s: State) {
    s.log.accepted == s.log.ran + InFlight(s.pc) + s.q.work
  }

  predicate NoticesKept(s: State) {
    s.log.notices == s.log.noticesRan + NoticeInFlight(s.pc) + s.q.notices
  }

  predicate OneDrain(s: State) {
    && CountOf(s.q.loop, Drain) + (if s.pc == Taking(false) then 1 else 0) == (if s.q.scheduled then 1 else 0)
    && (s.q.work != [] ==> s.q.scheduled)
    && (s.q.draining <==> WillFlush(s.pc) || s.pc.Ending?)
  }

  predicate OneStop(s: State) {
    && CountOf(s.q.loop, StopDrain) + (if Stops(s.pc) then 1 else 0) == (if s.q.stopping then 1 else 0)
    && StopsLast(s.q.loop)
    && (Stops(s.pc) ==> CountOf(s.q.loop, Drain) == 0)
    && (s.q.alive <==> s.pc != Exited)
    && ((s.pc.StoppingLoop? || s.pc.Returned? || s.pc.Exited?) ==> s.q.notices == [])
  }

  /** A drain that will look at the notices is on its way. */
  predicate Covered(s: State) {
    s.q.scheduled || WillFlush(s.pc) || s.pc.Taking? || CountOf(s.q.loop, StopDrain) > 0
  }

  predicate NoticesCovered(s: State) {
    && (s.q.notices != [] && !s.log.missed ==> Covered(s))
    && (s.log.missed ==> s.q.notices != [] && !Covered(s))
    && (s.pc.InNotice? && s.pc.before.None? ==> s.pc.burst == [])
    && (s.pc == Ending(true) ==> s.q.notices == [])
  }

  function Looks(looks: seq<Look>): seq<Task> {
    if looks == [] then [] else Looks(looks[..|looks| - 1]) + [looks[|looks| - 1].task]
  }

  /** The tasks that need a look first. */
  function Plain(tasks: seq<Task>): seq<Task> {
    if tasks == [] then []
    else
      var last := tasks[|tasks| - 1];
      Plain(tasks[..|tasks| - 1]) + if last.command then [] else [last]
  }

  /** Every task that is not a command started after a look of its own, and every look found all accepted
      notices finished. */
  predicate FlushedFirst(s: State) {
    && Looks(s.log.looks) == Plain(s.log.starts) + (if s.pc.Looked? then [s.pc.task] else [])
    && (s.pc.Looked? || s.pc.Flushing? ==> !s.pc.task.command)
    && (s.pc.InNotice? && s.pc.before.Some? ==> !s.pc.before.value.command)
    && forall i :: 0 <= i < |s.log.looks| ==> s.log.looks[i].accepted == s.log.looks[i].finished
  }

  predicate Inv(s: State) {
    WorkKept(s) && NoticesKept(s) && OneDrain(s) && OneStop(s) && NoticesCovered(s) && FlushedFirst(s)
  }

  lemma {:induction false} CountAppend(loop: seq<Thunk>, last: Thunk, thunk: Thunk)
    ensures CountOf(loop + [last], thunk) == CountOf(loop, thunk) + if last == thunk then 1 else 0
  {
    if loop == [] {
      assert (loop + [last])[1..] == [];
    } else {
      assert (loop + [last])[1..] == loop[1..] + [last];
      CountAppend(loop[1..], last, thunk);
    }
  }

  lemma {:induction false} StopsLastAppend(loop: seq<Thunk>, last: Thunk)
    requires StopsLast(loop) && (last != Other ==> CountOf(loop, StopDrain) == 0)
    ensures StopsLast(loop + [last])
  {
    if loop == [] {
      assert (loop + [last])[1..] == [];
    } else {
      assert (loop + [last])[1..] == loop[1..] + [last];
      StopsLastAppend(loop[1..], last);
      CountAppend(loop[1..], last, Drain);
      CountAppend(loop[1..], last, StopDrain);
    }
  }

  lemma SubmitKept(s: State, task: Task, notice: bool)
    requires Inv(s) && SubmitStep(s, task, notice).Some?
    ensures Inv(SubmitStep(s, task, notice).value)
  {
    CountAppend(s.q.loop, Drain, Drain);
    CountAppend(s.q.loop, Drain, StopDrain);
    StopsLastAppend(s.q.loop, Drain);
    Shift(s.log.ran + InFlight(s.pc), s.q.work, task);
    Shift(s.log.noticesRan + NoticeInFlight(s.pc), s.q.notices, task);
  }

  lemma Shift(a: seq<Task>, b: seq<Task>, task: Task)
    ensures a + b + [task] == a + (b + [task])
  {
  }

  lemma OtherKept(s: State)
    requires Inv(s) && Step(s, InvokeOther).Some?
    ensures Inv(Step(s, InvokeOther).value)
  {
    CountAppend(s.q.loop, Other, Drain);
    CountAppend(s.q.loop, Other, StopDrain);
    StopsLastAppend(s.q.loop, Other);
  }

  lemma StopKept(s: State)
    requires Inv(s)
    ensures Inv(Step(s, CallStop).value)
  {
    if s.q.alive && !s.q.stopping {
      CountAppend(s.q.loop, StopDrain, Drain);
      CountAppend(s.q.loop, StopDrain, StopDrain);
      StopsLastAppend(s.q.loop, StopDrain);
      assert s.q.loop + [StopDrain] != s.q.loop;
    }
  }

  lemma HeadAndTail(s: seq<Task>)
    requires s != []
    ensures [s[0]] + s[1..] == s
  {
  }

  lemma TaskDone(ran: seq<Task>, task: Task, burst: seq<Task>, work: seq<Task>)
    ensures ran + ([task] + burst) + work == ran + [task] + burst + work
    ensures ran + [] + burst == ran + burst + []
  {
  }

  lemma LoopKeepsWork(s: State)
    requires WorkKept(s) && WorkerStep(s).Some? && !WillFlush(s.pc)
    ensures WorkKept(WorkerStep(s).value)
  {
    if s.pc.Taking? {
      TaskDone(s.log.ran, WORK, s.q.work, []);
    }
  }

  lemma DrainKeepsWork(s: State)
    requires WorkKept(s) && WorkerStep(s).Some? && WillFlush(s.pc)
    requires s.pc.InNotice? && s.pc.before.None? ==> s.pc.burst == []
    ensures WorkKept(WorkerStep(s).value)
  {
    if s.pc.Bursting? && s.pc.burst != [] {
      HeadAndTail(s.pc.burst);
    } else if s.pc.InTask? {
      TaskDone(s.log.ran, s.pc.task, s.pc.burst, s.q.work);
    }
  }

  lemma WorkerKeepsWork(s: State)
    requires WorkKept(s) && WorkerStep(s).Some?
    requires s.pc.InNotice? && s.pc.before.None? ==> s.pc.burst == []
    ensures WorkKept(WorkerStep(s).value)
  {
    hide WorkKept, WorkerStep;
    if WillFlush(s.pc) {
      DrainKeepsWork(s);
    } else {
      LoopKeepsWork(s);
    }
  }

  lemma WorkerKeepsNotices(s: State)
    requires NoticesKept(s) && WorkerStep(s).Some?
    ensures NoticesKept(WorkerStep(s).value)
  {
    if (s.pc.Flushing? || s.pc.FinalFlush?) && s.q.notices != [] {
      NoticeTaken(s.log.noticesRan, s.q.notices);
    }
  }

  lemma NoticeTaken(ran: seq<Task>, notices: seq<Task>)
    requires notices != []
    ensures ran + [] + notices == ran + [notices[0]] + notices[1..]
  {
  }

  lemma LoopKeepsDrain(s: State)
    requires OneDrain(s) && OneStop(s) && WorkerStep(s).Some? && !WillFlush(s.pc)
    ensures OneDrain(WorkerStep(s).value)
  {
  }

  lemma DrainKeepsDrain(s: State)
    requires OneDrain(s) && OneStop(s) && WorkerStep(s).Some? && WillFlush(s.pc)
    ensures OneDrain(WorkerStep(s).value)
  {
    hide OneStop, CountOf;
  }

  lemma WorkerKeepsDrain(s: State)
    requires OneDrain(s) && OneStop(s) && WorkerStep(s).Some?
    ensures OneDrain(WorkerStep(s).value)
  {
    hide WorkerStep, OneStop, OneDrain, NoticesCovered;
    if WillFlush(s.pc) {
      DrainKeepsDrain(s);
    } else {
      LoopKeepsDrain(s);
    }
  }

  lemma LoopKeepsStop(s: State)
    requires OneDrain(s) && OneStop(s) && NoticesCovered(s) && WorkerStep(s).Some? && !WillFlush(s.pc)
    ensures OneStop(WorkerStep(s).value)
  {
  }

  lemma DrainKeepsStop(s: State)
    requires OneStop(s) && WorkerStep(s).Some? && WillFlush(s.pc)
    ensures OneStop(WorkerStep(s).value)
  {
    hide CountOf, StopsLast;
  }

  lemma WorkerKeepsStop(s: State)
    requires OneDrain(s) && OneStop(s) && NoticesCovered(s) && WorkerStep(s).Some?
    ensures OneStop(WorkerStep(s).value)
  {
    hide WorkerStep, OneStop, OneDrain, NoticesCovered;
    if WillFlush(s.pc) {
      DrainKeepsStop(s);
    } else {
      LoopKeepsStop(s);
    }
  }

  lemma LoopKeepsCover(s: State)
    requires OneDrain(s) && OneStop(s) && NoticesCovered(s) && WorkerStep(s).Some? && !WillFlush(s.pc)
    ensures NoticesCovered(WorkerStep(s).value)
  {
  }

  lemma DrainKeepsCover(s: State)
    requires OneDrain(s) && OneStop(s) && NoticesCovered(s) && WorkerStep(s).Some? && WillFlush(s.pc)
    ensures NoticesCovered(WorkerStep(s).value)
  {
    hide CountOf, StopsLast;
  }

  lemma WorkerKeepsCover(s: State)
    requires OneDrain(s) && OneStop(s) && NoticesCovered(s) && WorkerStep(s).Some?
    ensures NoticesCovered(WorkerStep(s).value)
  {
    hide WorkerStep, OneStop, OneDrain, NoticesCovered;
    if WillFlush(s.pc) {
      DrainKeepsCover(s);
    } else {
      LoopKeepsCover(s);
    }
  }

  lemma LastAdded(looks: seq<Look>, look: Look, tasks: seq<Task>, task: Task)
    ensures Looks(looks + [look]) == Looks(looks) + [look.task]
    ensures Plain(tasks + [task]) == Plain(tasks) + if task.command then [] else [task]
  {
    assert (looks + [look])[..|looks|] == looks;
    assert (tasks + [task])[..|tasks|] == tasks;
  }

  lemma WorkerKeepsFlushed(s: State)
    requires FlushedFirst(s) && NoticesKept(s) && WorkerStep(s).Some?
    ensures FlushedFirst(WorkerStep(s).value)
  {
    hide Looks, Plain;
    if s.pc.Flushing? {
      LastAdded(s.log.looks, Look(s.pc.task, |s.log.notices|, |s.log.noticesRan|), [], WORK);
    } else if s.pc.Looked? {
      LastAdded([], Look(WORK, 0, 0), s.log.starts, s.pc.task);
    } else if s.pc.Bursting? && s.pc.burst != [] {
      LastAdded([], Look(WORK, 0, 0), s.log.starts, s.pc.burst[0]);
    }
  }

  lemma WorkerKept(s: State)
    requires Inv(s) && WorkerStep(s).Some?
    ensures Inv(WorkerStep(s).value)
  {
    hide WorkKept, NoticesKept, OneDrain, OneStop, FlushedFirst, WorkerStep;
    WorkerKeepsWork(s);
    WorkerKeepsNotices(s);
    WorkerKeepsDrain(s);
    WorkerKeepsStop(s);
    WorkerKeepsCover(s);
    WorkerKeepsFlushed(s);
  }

  lemma StepKept(s: State, move: Move)
    requires Inv(s) && Step(s, move).Some?
    ensures Inv(Step(s, move).value)
  {
    match move
    case Submit(task, notice) => SubmitKept(s, task, notice);
    case InvokeOther => OtherKept(s);
    case CallStop => StopKept(s);
    case Worker => WorkerKept(s);
  }

  lemma {:induction false} RunKept(from: State, moves: seq<Move>, to: State)
    requires Inv(from) && Follows(from, moves, to)
    ensures Inv(to)
    decreases |moves|
  {
    if moves != [] {
      StepKept(from, moves[0]);
      RunKept(Step(from, moves[0]).value, moves[1..], to);
    }
  }

  lemma ReachableInv(s: State)
    requires Reachable(s)
    ensures Inv(s)
  {
    var moves :| Follows(Initial(), moves, s);
    RunKept(Initial(), moves, s);
  }

  // What every run keeps -----------------------------------------------------

  /** A submission to a live executor that is not stopping is accepted, whatever the worker does, and is then last
      in its queue and in the history; any other is refused. Nothing else of either changes. */
  lemma AcceptedWhenLive(s: State, task: Task, notice: bool)
    ensures Step(s, Submit(task, notice)).Some? <==> s.q.alive && !s.q.stopping
    ensures Step(s, Submit(task, notice)).Some? ==>
      var next := Step(s, Submit(task, notice)).value;
      && next.pc == s.pc && next.log.ran == s.log.ran && next.log.noticesRan == s.log.noticesRan
      && next.q.alive && !next.q.stopping
      && (if notice then
            && next.q.notices == s.q.notices + [task] && next.log.notices == s.log.notices + [task]
            && next.q.work == s.q.work && next.log.accepted == s.log.accepted
          else
            && next.q.work == s.q.work + [task] && next.log.accepted == s.log.accepted + [task]
            && next.q.notices == s.q.notices && next.log.notices == s.log.notices)
  {
  }

  /** An executor is stopping exactly once a stop has come, and no other step ends or begins it. */
  lemma {:induction false} StoppingSince(from: State, moves: seq<Move>, to: State)
    requires Inv(from) && Follows(from, moves, to)
    ensures to.q.stopping <==> from.q.stopping || CallStop in moves
    decreases |moves|
  {
    hide Inv, Step;
    if moves != [] {
      var next := Step(from, moves[0]).value;
      StepKept(from, moves[0]);
      StopsOnce(from, moves[0]);
      StoppingSince(next, moves[1..], to);
    }
  }

  lemma StopsOnce(s: State, move: Move)
    requires Inv(s) && Step(s, move).Some?
    ensures Step(s, move).value.q.stopping <==> s.q.stopping || move.CallStop?
  {
    AliveUntilStop(s);
    hide Inv;
  }

  lemma AliveUntilStop(s: State)
    requires Inv(s)
    ensures !s.q.alive ==> s.q.stopping
  {
  }

  /** Over any run from the start, a submission is refused exactly if stop was called before it. */
  lemma RefusedAfterStop(moves: seq<Move>, s: State, task: Task, notice: bool)
    requires Follows(Initial(), moves, s)
    ensures Step(s, Submit(task, notice)).None? <==> CallStop in moves
  {
    RunKept(Initial(), moves, s);
    StoppingSince(Initial(), moves, s);
    AliveUntilStop(s);
    AcceptedWhenLive(s, task, notice);
  }

  /** Accepted work is run in the order it was accepted in, each task once. */
  lemma WorkInOrder(s: State)
    requires Reachable(s)
    ensures s.log.accepted == s.log.ran + InFlight(s.pc) + s.q.work
    ensures s.log.notices == s.log.noticesRan + NoticeInFlight(s.pc) + s.q.notices
  {
    ReachableInv(s);
  }

  /** Pending work always has exactly one drain on its way. */
  lemma DrainScheduled(s: State)
    requires Reachable(s) && s.q.work != []
    ensures CountOf(s.q.loop, Drain) + (if s.pc == Taking(false) then 1 else 0) == 1
  {
    ReachableInv(s);
  }

  /** The tasks that are not commands start one by one after looks of their own, each of which found every
      notice accepted until then finished. A notice accepted after the look runs after the task. */
  lemma NoticesRunFirst(s: State)
    requires Reachable(s)
    ensures Looks(s.log.looks) == Plain(s.log.starts) + (if s.pc.Looked? then [s.pc.task] else [])
    ensures forall i :: 0 <= i < |s.log.looks| ==> s.log.looks[i].accepted == s.log.looks[i].finished
  {
    ReachableInv(s);
  }

  /** Once the worker has exited, nothing that was accepted is left. */
  lemma StopLosesNothing(s: State)
    requires Reachable(s) && s.pc == Exited
    ensures s.log.ran == s.log.accepted && s.log.noticesRan == s.log.notices
    ensures s.q.work == [] && s.q.notices == []
  {
    ReachableInv(s);
    assert s.log.ran + [] + [] == s.log.ran;
    assert s.log.noticesRan + [] + [] == s.log.noticesRan;
  }

  /** A worker with nothing to do has run all work, and all notices unless one was missed. */
  lemma WhenParked(s: State)
    requires Reachable(s) && s.pc == Parked && s.q.loop == []
    ensures s.log.ran == s.log.accepted && s.q.work == []
    ensures s.q.notices != [] <==> s.log.missed
  {
    ReachableInv(s);
    assert s.log.ran + [] + [] == s.log.ran;
  }

  /** The worker's own submissions come while it runs something, and so are never missed. */
  predicate OnWorker(s: State) {
    s.pc.InTask? || s.pc.InNotice? || s.pc.InOther?
  }

  /** A submission leaves notices with no drain to run them exactly when it is a notice, and the worker
      has looked for the last time but not ended its drain, and no further drain is scheduled. */
  lemma MissedWhen(s: State, task: Task, notice: bool)
    requires Reachable(s) && Step(s, Submit(task, notice)).Some?
    ensures var next := Step(s, Submit(task, notice)).value;
      && (next.q.notices != [] && !Covered(next) <==> notice && !s.q.scheduled && s.pc.Ending?)
      && (OnWorker(s) ==> next.q.notices == [] || Covered(next))
  {
    ReachableInv(s);
    SubmitKept(s, task, notice);
  }

  const WORK: Task := Task(0, true)
  const LATE: Task := Task(1, false)

  /** A run of one command, and of a notice that comes at the end of its drain. */
  function Strand(i: nat): State {
    var open := Shared(true, false, false, true, [], [], []);
    var begun := Log([WORK], [], [], [], [], [WORK], false);
    var done := begun.(ran := [WORK]);
    match i
    case 0 => Initial()
    case 1 => State(Shared(true, false, true, false, [WORK], [], [Drain]), Parked, begun.(starts := []))
    case 2 => State(Shared(true, false, true, false, [WORK], [], []), Taking(false), begun.(starts := []))
    case 3 => State(open, Bursting([WORK], false), begun.(starts := []))
    case 4 => State(open, InTask(WORK, [], false), begun)
    case 5 => State(open, Bursting([], false), done)
    case 6 => State(open, FinalFlush(false), done)
    case 7 => State(open, Ending(false), done)
    case 8 => State(open.(notices := [LATE]), Ending(false), done.(notices := [LATE], missed := true))
    case _ => State(open.(notices := [LATE], draining := false), Parked, done.(notices := [LATE], missed := true))
  }

  function StrandMove(i: nat): Move {
    if i == 0 then Submit(WORK, false) else if i == 7 then Submit(LATE, true) else Worker
  }

  lemma StrandStep(i: nat)
    requires i < 9
    ensures Step(Strand(i), StrandMove(i)) == Some(Strand(i + 1))
  {
    if i == 0 {
      StrandAccepts(i);
    } else if i == 7 {
      StrandAccepts(i);
    } else if i < 4 {
      assert [WORK][1..] == [] && [Drain][1..] == [] && [] + [WORK] == [WORK];
    } else {
      assert [] + [WORK] == [WORK];
    }
  }

  lemma StrandAccepts(i: nat)
    requires i == 0 || i == 7
    ensures Step(Strand(i), StrandMove(i)) == Some(Strand(i + 1))
  {
    assert [] + [WORK] == [WORK] && [] + [LATE] == [LATE] && [] + [Drain] == [Drain];
  }

  lemma {:induction false} StrandFollows(i: nat) returns (moves: seq<Move>)
    requires i <= 9
    ensures Follows(Strand(i), moves, Strand(9))
    decreases 9 - i
  {
    hide Strand, Step;
    if i == 9 {
      moves := [];
    } else {
      StrandStep(i);
      var rest := StrandFollows(i + 1);
      FollowsOne(Strand(i), StrandMove(i), rest, Strand(9));
      moves := [StrandMove(i)] + rest;
    }
  }

  /** Another thread's notice between the last look and the end of the drain stays behind. */
  lemma NoticeLeftBehind()
    ensures exists s :: Reachable(s) && s.pc == Parked && s.q.loop == [] && s.q.notices != []
  {
    var moves := StrandFollows(0);
    assert Reachable(Strand(9));
  }

  lemma FollowsOne(s: State, move: Move, rest: seq<Move>, to: State)
    requires Step(s, move).Some? && Follows(Step(s, move).value, rest, to)
    ensures Follows(s, [move] + rest, to)
  {
  }

  // Left alone, the worker finishes --------------------------------------------

  function Rank(pc: Pc): nat {
    match pc
    case Taking(_) => 7
    case Bursting(_, _) => 6
    case Flushing(_, _, _) => 5
    case Looked(_, _, _) => 4
    case InNotice(_, _, _, _) => 7
    case InTask(_, _, _) => 3
    case FinalFlush(_) => 5
    case Ending(_) => 4
    case StoppingLoop => 3
    case Returned => 2
    case InOther => 1
    case _ => 0
  }

  /** What is left to do, so that every step of the worker does some of it. */
  function Load(s: State): nat {
    8 * |s.q.loop| + 4 * (|s.q.work| + |InFlight(s.pc)|) + 3 * |s.q.notices| + Rank(s.pc)
  }

  lemma LoopStepsLighten(s: State)
    requires WorkerStep(s).Some? && !WillFlush(s.pc)
    ensures Load(WorkerStep(s).value) < Load(s)
  {
  }

  lemma DrainStepsLighten(s: State)
    requires WorkerStep(s).Some? && WillFlush(s.pc)
    requires s.pc.InNotice? && s.pc.before.None? ==> s.pc.burst == []
    ensures Load(WorkerStep(s).value) < Load(s)
  {
  }

  lemma StepsLighten(s: State)
    requires WorkerStep(s).Some?
    requires s.pc.InNotice? && s.pc.before.None? ==> s.pc.burst == []
    ensures Load(WorkerStep(s).value) < Load(s)
  {
    hide WorkerStep, Load;
    if WillFlush(s.pc) {
      DrainStepsLighten(s);
    } else {
      LoopStepsLighten(s);
    }
  }

  /** Where the worker's steps alone lead. */
  function Settled(s: State): State
    requires Inv(s)
    decreases Load(s)
  {
    match WorkerStep(s)
    case None => s
    case Some(next) =>
      StepsLighten(s);
      WorkerKept(s);
      Settled(next)
  }

  lemma StepAccepts(s: State)
    requires WorkerStep(s).Some?
    ensures WorkerStep(s).value.log.accepted == s.log.accepted && WorkerStep(s).value.log.notices == s.log.notices
    ensures WorkerStep(s).value.log.missed == s.log.missed && WorkerStep(s).value.q.stopping == s.q.stopping
  {
  }

  lemma {:induction false} SettledIs(s: State)
    requires Inv(s)
    ensures Inv(Settled(s)) && WorkerStep(Settled(s)).None?
    ensures Settled(s).log.accepted == s.log.accepted && Settled(s).log.notices == s.log.notices
    ensures Settled(s).log.missed == s.log.missed && Settled(s).q.stopping == s.q.stopping
    decreases Load(s)
  {
    hide Inv, WorkerStep, Load;
    if WorkerStep(s).Some? {
      WorkerKept(s);
      StepAccepts(s);
      LightensInv(s);
      SettledIs(WorkerStep(s).value);
    }
  }

  lemma LightensInv(s: State)
    requires Inv(s) && WorkerStep(s).Some?
    ensures Load(WorkerStep(s).value) < Load(s)
  {
    StepsLighten(s);
  }

  /** From any state of any run, the worker's own steps run all accepted work in order, and all notices
      unless one was missed. */
  lemma EverythingRuns(s: State)
    requires Reachable(s)
    ensures Inv(s) && Settled(s).log.ran == s.log.accepted
    ensures Settled(s).q.notices != [] <==> s.log.missed && Settled(s).pc == Parked
    ensures Settled(s).q.notices == [] ==> Settled(s).log.noticesRan == s.log.notices
  {
    ReachableInv(s);
    hide Inv, Settled;
    AllRuns(s);
  }

  lemma AllRuns(s: State)
    requires Inv(s)
    ensures Settled(s).log.ran == s.log.accepted
    ensures Settled(s).q.notices != [] <==> s.log.missed && Settled(s).pc == Parked
    ensures Settled(s).q.notices == [] ==> Settled(s).log.noticesRan == s.log.notices
  {
    hide Settled;
    SettledIs(s);
    var end := Settled(s);
    EndsIdle(end);
    assert end.log.ran + [] + [] == end.log.ran;
    assert end.log.noticesRan + [] + [] == end.log.noticesRan;
  }

  /** Every work task that any thread submits to an executor that was not stopped runs, after all work accepted
      before it, and every notice does unless it is missed. */
  lemma SubmittedRuns(s: State, task: Task, notice: bool)
    requires Reachable(s) && !s.q.stopping
    ensures Step(s, Submit(task, notice)).Some?
    ensures var next := Step(s, Submit(task, notice)).value;
      && Inv(next)
      && (!notice ==> Settled(next).log.ran == s.log.accepted + [task])
      && (notice && !next.log.missed ==> Settled(next).log.noticesRan == s.log.notices + [task])
  {
    hide Settled;
    ReachableInv(s);
    AliveUntilStop(s);
    AcceptedWhenLive(s, task, notice);
    SubmitKept(s, task, notice);
    hide Inv, Step;
    AllRuns(Step(s, Submit(task, notice)).value);
  }

  /** A stop ends the worker: left alone it runs everything and exits. */
  lemma StopEnds(s: State)
    requires Reachable(s) && s.q.stopping
    ensures Inv(s) && Settled(s).pc == Exited && !Settled(s).q.alive
    ensures Settled(s).log.ran == s.log.accepted && Settled(s).log.noticesRan == s.log.notices
  {
    hide Settled;
    ReachableInv(s);
    SettledIs(s);
    StoppedExits(Settled(s));
    hide Inv;
    AllRuns(s);
  }

  lemma StoppedExits(s: State)
    requires Inv(s) && WorkerStep(s).None? && s.q.stopping
    ensures s.pc == Exited && !s.q.alive && s.q.notices == []
  {
  }

  lemma EndsIdle(s: State)
    requires Inv(s) && WorkerStep(s).None?
    ensures InFlight(s.pc) == [] && NoticeInFlight(s.pc) == [] && s.q.work == []
    ensures s.q.notices != [] <==> s.log.missed && s.pc == Parked
  {
  }
}
