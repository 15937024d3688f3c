/** The task queue of corlib/scheduler.cpp and scheduler.h: the regions under m_mutex. */
module TaskQueue {

  datatype Option<T> = None | Some(value: T)

  // What a task runs: a fiber, or a callback for which the worker makes a fiber.
  datatype Job = FiberJob(fiber: nat) | CbJob(cb: nat)

  // A ticket is a position in the history of all pushes; the code does not have it.
  datatype Task = Task(ticket: nat, job: Job, thread: int)

  const ANY_THREAD := -1

  predicate Eligible(x: Task, tid: int) {
    x.thread == ANY_THREAD || x.thread == tid
  }

  // ---- What a pick means -------------------------------------------------------------------

  // The position of the first eligible task, or the length of the queue.
  function FirstEligible(tasks: seq<Task>, tid: int): (k: nat)
    ensures k <= |tasks| && (k < |tasks| ==> Eligible(tasks[k], tid))
    ensures forall j | 0 <= j < k :: !Eligible(tasks[j], tid)
  {
    if tasks == [] || Eligible(tasks[0], tid) then 0
    else
      var k := FirstEligible(tasks[1..], tid);
      assert forall j | 1 <= j < k + 1 :: tasks[j] == tasks[1..][j - 1];
      k + 1
  }

  // It leaves the queue and the rest keeps its order.
  function Pick(tasks: seq<Task>, tid: int): (Option<Task>, seq<Task>) {
    var k := FirstEligible(tasks, tid);
    if k == |tasks| then (None, tasks) else (Some(tasks[k]), tasks[..k] + tasks[k + 1..])
  }

  // Of the tasks that a thread may run, the one pushed first is picked, and none is lost.
  lemma PickIsFair(tasks: seq<Task>, tid: int)
    requires forall i, j | 0 <= i < j < |tasks| :: tasks[i].ticket < tasks[j].ticket
    ensures var (x, rest) := Pick(tasks, tid);
            if x.None? then rest == tasks && forall y | y in tasks :: !Eligible(y, tid)
            else Eligible(x.value, tid) && multiset(tasks) == multiset(rest) + multiset{x.value}
                 && forall y | y in rest && Eligible(y, tid) :: x.value.ticket < y.ticket
  {
    var k := FirstEligible(tasks, tid);
    if k < |tasks| {
      assert tasks == tasks[..k] + [tasks[k]] + tasks[k + 1..];
    }
  }

  // The tasks that stay keep their order.
  lemma PickKeepsOrder(tasks: seq<Task>, tid: int)
    requires forall i, j | 0 <= i < j < |tasks| :: tasks[i].ticket < tasks[j].ticket
    ensures var rest := Pick(tasks, tid).1;
            && (forall y | y in rest :: y in tasks)
            && forall i, j | 0 <= i < j < |rest| :: rest[i].ticket < rest[j].ticket
  {
    var k := FirstEligible(tasks, tid);
    if k < |tasks| {
      var rest := tasks[..k] + tasks[k + 1..];
      forall i | 0 <= i < |rest| ensures rest[i] == tasks[if i < k then i else i + 1] {
      }
    }
  }

  // ---- The code ------------------------------------------------------------------------------

  class Scheduler {
    var tasks: seq<Task>           // m_tasks
    var activeThreadCount: nat     // m_activeThreadCount
    var stopping: bool             // m_stopping
    var next: nat                  // tickets given out; only the history needs it

    constructor ()
      ensures tasks == [] && activeThreadCount == 0 && !stopping && next == 0
    {
      tasks, activeThreadCount, stopping, next := [], 0, false, 0;
    }

    // The locked region of run. An erased iterator denotes the element that followed.
    method PickTask(tid: int) returns (task: Option<Task>, tickleMe: bool)
      modifies this`tasks, this`activeThreadCount
      ensures (task, tasks) == Pick(old(tasks), tid)
      ensures task.Some? ==> task.value.thread == ANY_THREAD || task.value.thread == tid
      ensures task.None? ==> forall x | x in old(tasks) :: x.thread != ANY_THREAD && x.thread != tid
      ensures tickleMe <==> tasks != []
      ensures activeThreadCount == old(activeThreadCount) + if task.Some? then 1 else 0
    {
      task, tickleMe := None, false;
      var it := 0;
      while it < |tasks|
        invariant 0 <= it <= |tasks| && tasks == old(tasks) && task.None?
        invariant activeThreadCount == old(activeThreadCount)
        invariant forall j | 0 <= j < it :: !Eligible(tasks[j], tid)
        invariant tickleMe <==> it > 0
      {
        if tasks[it].thread != ANY_THREAD && tasks[it].thread != tid {
          it := it + 1;
          tickleMe := true;
          continue;
        }
        task := Some(tasks[it]);
        tasks := tasks[..it] + tasks[it + 1..];
        activeThreadCount := activeThreadCount + 1;
        break;
      }
      tickleMe := tickleMe || it != |tasks|;
    }

    // Null tasks are not queued, but the queue is looked at all the same.
    method ScheduleLock(job: Option<Job>, thread: int) returns (needTickle: bool)
      modifies this`tasks, this`next
      ensures needTickle <==> old(tasks) == []
      ensures job.None? ==> tasks == old(tasks) && next == old(next)
      ensures job.Some? ==> tasks == old(tasks) + [Task(old(next), job.value, thread)] && next == old(next) + 1
    {
      needTickle := tasks == [];
      if job.Some? {
        tasks := tasks + [Task(next, job.value, thread)];
        next := next + 1;
      }
    }

    method Stopping() returns (r: bool)
      ensures r <==> stopping && tasks == [] && activeThreadCount == 0
    {
      r := stopping && tasks == [] && activeThreadCount == 0;
    }
  }
}
