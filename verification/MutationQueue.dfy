/** The storefront's promise-chain queue (apps/storefront/lib/mutation-queue.ts): each task is chained on
    the tail promise of its moment, and the tail then follows the task with its rejection swallowed. */
module MutationQueue {
  import opened Options

  datatype TaskState = Waiting | Running | Done(ok: bool)

  /** `after` is the task whose tail promise this one is chained on (None for the initial resolved
      promise); `tailSettled` says that this task's own tail promise has resolved. */
  datatype Task = Task(after: Option<nat>, state: TaskState, tailSettled: bool)

  function LastOf(tasks: seq<Task>): Option<nat> { if tasks == [] then None else Some(|tasks| - 1) }

  /** The promise a task is chained on has settled, so one of `then`'s two handlers runs it. */
  predicate Startable(tasks: seq<Task>, i: nat) {
    i < |tasks| && tasks[i].state == Waiting
    && (tasks[i].after.Some? ==> tasks[i].after.value < |tasks| && tasks[tasks[i].after.value].tailSettled)
  }

  function Enqueued(tasks: seq<Task>): seq<Task> { tasks + [Task(LastOf(tasks), Waiting, false)] }

  function WithState(tasks: seq<Task>, i: nat, state: TaskState): seq<Task>
    requires i < |tasks|
  {
    tasks[i := tasks[i].(state := state)]
  }

  function WithTailSettled(tasks: seq<Task>, i: nat): seq<Task>
    requires i < |tasks|
  {
    tasks[i := tasks[i].(tailSettled := true)]
  }

  /** Every task is chained on the one enqueued just before it, and nothing overtakes the chain. */
  ghost predicate Chained(tasks: seq<Task>) {
    && (forall i :: 0 <= i < |tasks| ==> tasks[i].after == if i == 0 then None else Some(i - 1))
    && (forall i :: 0 <= i < |tasks| && tasks[i].tailSettled ==> tasks[i].state.Done?)
    && (forall i :: 0 < i < |tasks| && tasks[i].state != Waiting ==> tasks[i - 1].tailSettled)
  }

  class Queue {
    var tasks: seq<Task>
    var tail: Option<nat>

    ghost predicate Valid() reads this { Chained(tasks) && tail == LastOf(tasks) }

    constructor ()
      ensures Valid() && tasks == []
    {
      tasks, tail := [], None;
    }

    /** `enqueue`: chains the task on the current tail and makes its own settlement the new tail. */
    method Enqueue() returns (id: nat)
      requires Valid()
      modifies this
      ensures Valid() && id == |old(tasks)| && tasks == Enqueued(old(tasks))
    {
      id := |tasks|;
      tasks := tasks + [Task(tail, Waiting, false)];
      tail := Some(id);
    }

    /** The settled promise in front runs the task. */
    method Start(id: nat)
      requires Valid() && Startable(tasks, id)
      modifies this`tasks
      ensures Valid() && tasks == WithState(old(tasks), id, Running)
    {
      tasks := tasks[id := tasks[id].(state := Running)];
    }

    /** The task fulfils or rejects: its own caller learns the outcome, and nobody else's changes. */
    method Settle(id: nat, ok: bool)
      requires Valid() && id < |tasks| && tasks[id].state == Running
      modifies this`tasks
      ensures Valid() && tasks == WithState(old(tasks), id, Done(ok))
      ensures forall i :: 0 <= i < |tasks| && i != id ==> tasks[i] == old(tasks)[i]
    {
      tasks := tasks[id := tasks[id].(state := Done(ok))];
    }

    /** `result.catch(() => undefined)`: the tail resolves after the task settled either way. */
    method Swallow(id: nat)
      requires Valid() && id < |tasks| && tasks[id].state.Done?
      modifies this`tasks
      ensures Valid() && tasks == WithTailSettled(old(tasks), id)
    {
      tasks := tasks[id := tasks[id].(tailSettled := true)];
    }
  }

  /** If a task has started, every task enqueued before it is over. */
  lemma {:induction false} EarlierAreDone(tasks: seq<Task>, i: nat, j: nat)
    requires Chained(tasks) && i < j < |tasks| && tasks[j].state != Waiting
    ensures tasks[i].state.Done? && tasks[i].tailSettled
    decreases j
  {
    if i < j - 1 {
      EarlierAreDone(tasks, i, j - 1);
    }
  }

  /** Tasks start in the order they were enqueued, and at most one runs at a time. */
  lemma AtMostOneRunning(tasks: seq<Task>, i: nat, j: nat)
    requires Chained(tasks) && i < |tasks| && j < |tasks| && tasks[i].state == Running && tasks[j].state == Running
    ensures i == j
  {
    if i < j {
      EarlierAreDone(tasks, i, j);
    } else if j < i {
      EarlierAreDone(tasks, j, i);
    }
  }

  /** The task is running, can be started, or has settled and is about to release the next one. */
  predicate Busy(tasks: seq<Task>, i: nat)
    requires i < |tasks|
  {
    tasks[i].state == Running || Startable(tasks, i) || (tasks[i].state.Done? && !tasks[i].tailSettled)
  }

  /** A rejected task never blocks a later one: while any task is not over, it or one before
      it can make progress. */
  lemma {:induction false} NeverStuck(tasks: seq<Task>, n: nat)
    requires Chained(tasks) && n < |tasks| && !tasks[n].state.Done?
    ensures exists i :: 0 <= i <= n && Busy(tasks, i)
    decreases n
  {
    if tasks[n].state == Waiting && n > 0 && !tasks[n - 1].tailSettled {
      if tasks[n - 1].state.Done? {
        assert Busy(tasks, n - 1);
      } else {
        NeverStuck(tasks, n - 1);
      }
    } else {
      assert Busy(tasks, n);
    }
  }
}
