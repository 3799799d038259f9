/** The executor's intrusive lists and the blocks under its mutex, each proved against its function. */
module ExecutorQueue {
  import opened Wrappers
  import Model = Executor
  import opened Executor

  class ExecutorTask {
    var next: ExecutorTask?
    const task: Task

    constructor (task: Task)
      ensures this.task == task && next == null
    {
      this.task, next := task, null;
    }
  }

  ghost function TasksOf(nodes: seq<ExecutorTask>): (tasks: seq<Task>)
    ensures |tasks| == |nodes| && forall i :: 0 <= i < |nodes| ==> tasks[i] == nodes[i].task
  {
    seq(|nodes|, i requires 0 <= i < |nodes| => nodes[i].task)
  }

  /** A list of exactly these tasks, from `first` to `last`. */
  ghost predicate Links(first: ExecutorTask?, last: ExecutorTask?, nodes: seq<ExecutorTask>)
    reads nodes
  {
    && first == (if nodes == [] then null else nodes[0])
    && last == (if nodes == [] then null else nodes[|nodes| - 1])
    && (forall i, j :: 0 <= i < j < |nodes| ==> nodes[i] != nodes[j])
    && (forall i {:trigger nodes[i].next} :: 0 <= i < |nodes| ==> nodes[i].next == if i + 1 < |nodes| then nodes[i + 1] else null)
  }

  class TaskQueue {
    var first: ExecutorTask?
    var last: ExecutorTask?
    ghost var nodes: seq<ExecutorTask>

    ghost predicate Valid()
      reads this, nodes
    {
      Links(first, last, nodes)
    }

    constructor ()
      ensures Valid() && nodes == []
    {
      first, last, nodes := null, null, [];
    }

    method Push(node: ExecutorTask)
      requires Valid() && node !in nodes && node.next == null
      modifies this, nodes, node
      ensures Valid() && nodes == old(nodes) + [node]
    {
      assert forall i :: 0 <= i < |nodes| ==> nodes[i] != node;
      if last != null {
        last.next := node;
      } else {
        first := node;
      }
      last := node;
      nodes := nodes + [node];
      forall i | 0 <= i < |nodes| ensures nodes[i].next == if i + 1 < |nodes| then nodes[i + 1] else null {
        assert i < |old(nodes)| ==> nodes[i] == old(nodes)[i];
        assert i < |old(nodes)| ==> old(nodes[i].next) == if i + 1 < |old(nodes)| then old(nodes)[i + 1] else null;
        assert 0 <= i < |old(nodes)| - 1 ==> nodes[i] != old(last);
      }
    }

    method Pop() returns (node: ExecutorTask?)
      requires Valid()
      modifies this, nodes
      ensures Valid()
      ensures old(nodes) == [] ==> node == null && nodes == []
      ensures old(nodes) != [] ==> node == old(nodes)[0] && nodes == old(nodes)[1..] && node.next == null
    {
      node := first;
      if node != null {
        assert node.next == if |nodes| > 1 then nodes[1] else null;
        first := node.next;
        if first == null {
          last := null;
        }
        node.next := null;
        ghost var rest := nodes[1..];
        forall i | 0 <= i < |rest| ensures rest[i].next == if i + 1 < |rest| then rest[i + 1] else null {
          assert rest[i] == nodes[i + 1] && nodes[i + 1] != nodes[0];
          assert old(nodes[i + 1].next) == if i + 2 < |nodes| then nodes[i + 2] else null;
        }
        nodes := rest;
      }
    }

    /** Moves the whole list out, as std::exchange does. */
    method Exchange() returns (taken: TaskQueue)
      requires Valid()
      modifies this
      ensures Valid() && nodes == []
      ensures fresh(taken) && taken.Valid() && taken.nodes == old(nodes)
    {
      ghost var was := nodes;
      taken := new TaskQueue();
      taken.first, taken.last, taken.nodes := first, last, nodes;
      first, last, nodes := null, null, [];
      assert forall i {:trigger was[i].next} :: 0 <= i < |was| ==> was[i].next == old(was[i].next);
    }
  }

  lemma NoTasks()
    ensures TasksOf([]) == []
  {
  }

  lemma RestOfTasks(nodes: seq<ExecutorTask>)
    ensures nodes != [] ==> TasksOf(nodes) != [] && TasksOf(nodes)[0] == nodes[0].task && TasksOf(nodes[1..]) == TasksOf(nodes)[1..]
  {
  }

  lemma ApartFromRest(a: seq<ExecutorTask>, b: seq<ExecutorTask>)
    requires forall i :: 0 <= i < |a| ==> a[i] !in b
    ensures b != [] ==> forall i :: 0 <= i < |a| ==> a[i] !in b[1..]
  {
  }

  class RuntimeExecutor {
    var alive: bool
    var stopping: bool
    var scheduled: bool
    var draining: bool
    const work: TaskQueue
    const notices: TaskQueue
    var loop: seq<Thunk>

    /** Work is never queued without a drain to come, and only a stop has queued the final drain, once. */
    ghost predicate Valid()
      reads this, work, notices, work.nodes, notices.nodes
    {
      && work != notices && work.Valid() && notices.Valid()
      && (work.nodes != [] ==> scheduled)
      && CountOf(loop, StopDrain) <= (if stopping then 1 else 0)
      && forall i :: 0 <= i < |work.nodes| ==> work.nodes[i] !in notices.nodes
    }

    /** What the mutex guards, as a value. */
    ghost function View(): Shared
      reads this, work, notices
    {
      Shared(alive, stopping, scheduled, draining, TasksOf(work.nodes), TasksOf(notices.nodes), loop)
    }

    constructor ()
      ensures Valid() && View() == Initial().q
    {
      work := new TaskQueue();
      notices := new TaskQueue();
      alive, stopping, scheduled, draining, loop := true, false, false, false, [];
    }

    method Enqueue(node: ExecutorTask, notice: bool) returns (accepted: bool)
      requires Valid() && node.next == null && node !in work.nodes && node !in notices.nodes
      modifies this, work, notices, work.nodes, notices.nodes, node
      ensures Valid()
      ensures accepted <==> old(alive) && !old(stopping)
      ensures accepted <==> Model.Enqueue(old(View()), node.task, notice).Some?
      ensures accepted && notice ==> notices.nodes == old(notices.nodes) + [node] && work.nodes == old(work.nodes)
      ensures accepted && !notice ==> work.nodes == old(work.nodes) + [node] && notices.nodes == old(notices.nodes)
      ensures !accepted ==> work.nodes == old(work.nodes) && notices.nodes == old(notices.nodes) && loop == old(loop)
      ensures View() == if accepted then Model.Enqueue(old(View()), node.task, notice).value else old(View())
    {
      hide Links, TasksOf;
      if !alive || stopping {
        return false;
      }
      if !scheduled && (!notice || !draining) {
        CountAppend(loop, Drain, StopDrain);
        loop := loop + [Drain];
        scheduled := true;
      }
      if notice {
        PushApart(notices, work, node);
      } else {
        PushApart(work, notices, node);
      }
      accepted := true;
    }

    static method PushApart(queue: TaskQueue, other: TaskQueue, node: ExecutorTask)
      requires queue != other && queue.Valid() && other.Valid()
      requires forall i :: 0 <= i < |queue.nodes| ==> queue.nodes[i] !in other.nodes
      requires node.next == null && node !in queue.nodes && node !in other.nodes
      modifies queue, queue.nodes, node
      ensures queue.Valid() && other.Valid() && queue.nodes == old(queue.nodes) + [node]
      ensures TasksOf(queue.nodes) == TasksOf(old(queue.nodes)) + [node.task]
      ensures forall i :: 0 <= i < |queue.nodes| ==> queue.nodes[i] !in other.nodes
      ensures forall i :: 0 <= i < |other.nodes| ==> other.nodes[i] !in queue.nodes
    {
      queue.Push(node);
    }

    /** The first block of a drain. */
    method TakeBurst() returns (burst: TaskQueue)
      requires Valid()
      modifies this, work
      ensures Valid() && View() == TakeWork(old(View()))
      ensures fresh(burst) && burst.Valid() && TasksOf(burst.nodes) == old(View()).work
    {
      hide Links, CountOf, TasksOf;
      NoTasks();
      burst := work.Exchange();
      scheduled := false;
      draining := true;
    }

    /** The block of each look at the notices. */
    method PopOneNotice() returns (node: ExecutorTask?)
      requires Valid()
      modifies notices, notices.nodes
      ensures Valid() && View() == PopNotice(old(View()))
      ensures node == null <==> old(View()).notices == []
      ensures node != null ==> node.task == old(View()).notices[0] && node.next == null
    {
      hide Links, CountOf, TasksOf;
      NoTasks();
      RestOfTasks(notices.nodes);
      ApartFromRest(work.nodes, notices.nodes);
      node := notices.Pop();
    }

    /** The last block of a drain. */
    method FinishDrain()
      requires Valid()
      modifies `draining
      ensures Valid() && View() == EndDrain(old(View()))
    {
      draining := false;
    }

    method RequestStop()
      requires Valid()
      modifies `stopping, `loop
      ensures Valid() && View() == Model.Stop(old(View()))
      ensures stopping <==> old(stopping) || old(alive)
      ensures loop == old(loop) + if old(alive) && !old(stopping) then [StopDrain] else []
    {
      if alive && !stopping {
        CountAppend(loop, StopDrain, StopDrain);
        stopping := true;
        loop := loop + [StopDrain];
      }
    }
  }
}
