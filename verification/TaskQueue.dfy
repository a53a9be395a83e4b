// The shared task list of the scheduler and the critical sections that touch it.
//
// A task is a fiber or a callback, optionally pinned to one thread. The list is
// scanned from the front; a run loop skips tasks pinned to another thread and
// fibers that are still RUNNING. Whatever another thread could still take makes
// the loop raise `tickleMe`.
module TaskQueue {
  import opened Common

  datatype Work = FiberWork(fiber: Fid) | CallbackWork(cb: CbId) | NoWork

  // `id` is the acceptance number of the task. The program does not store it;
  // it lets the statements below speak about one task rather than equal tasks.
  datatype Task = Task(id: nat, work: Work, pin: Option<Tid>)

  predicate PinnedElsewhere(x: Task, me: Tid) {
    x.pin.Some? && x.pin.value != me
  }

  predicate StillRunning(x: Task, running: set<Fid>) {
    x.work.FiberWork? && x.work.fiber in running
  }

  predicate Eligible(x: Task, me: Tid, running: set<Fid>) {
    !PinnedElsewhere(x, me) && !StillRunning(x, running)
  }

  // Position of the task a scan by thread `me` takes, or |q| if it takes none.
  function FirstEligible(q: seq<Task>, me: Tid, running: set<Fid>): (k: nat)
    ensures k <= |q|
    ensures forall i :: 0 <= i < k ==> !Eligible(q[i], me, running)
    ensures k < |q| ==> Eligible(q[k], me, running)
  {
    if q == [] then 0
    else if Eligible(q[0], me, running) then 0
    else
      var k := FirstEligible(q[1..], me, running);
      assert forall i :: 1 <= i < k + 1 ==> q[i] == q[1..][i - 1];
      k + 1
  }

  ghost predicate IncreasingIds(q: seq<Task>) {
    forall i, j :: 0 <= i < j < |q| ==> q[i].id < q[j].id
  }

  // Whether the scan raises `tickleMe`: for a task pinned elsewhere that it passed
  // over, or for tasks behind the one it took.
  ghost predicate Tickles(q: seq<Task>, me: Tid, running: set<Fid>) {
    var k := FirstEligible(q, me, running);
    (exists i :: 0 <= i < k && PinnedElsewhere(q[i], me)) || k + 1 < |q|
  }

  // A scan is silent iff every task it leaves stands before the one it took and is
  // a RUNNING fiber that this thread may take once it is not.
  lemma SilentIff(q: seq<Task>, me: Tid, running: set<Fid>)
    ensures var k := FirstEligible(q, me, running);
      !Tickles(q, me, running) <==> forall i :: 0 <= i < |q| && i != k ==>
        i < k && StillRunning(q[i], running) && !PinnedElsewhere(q[i], me)
  {
    var k := FirstEligible(q, me, running);
    hide FirstEligible;
    if !Tickles(q, me, running) {
      forall i: nat | i < |q| && i != k ensures i < k && StillRunning(q[i], running) && !PinnedElsewhere(q[i], me) {
        assert !Eligible(q[i], me, running);
      }
    } else if k + 1 < |q| {
      assert !PinnedElsewhere(q[k + 1], me) ==> !(k + 1 < k);
    }
  }

  // A list of accepted tasks in acceptance order.
  ghost predicate QueueOf(q: seq<Task>, accepted: seq<Task>) {
    && IncreasingIds(q)
    && forall i :: 0 <= i < |q| ==> q[i].id < |accepted| && q[i] == accepted[q[i].id]
  }

  lemma QueueOfRemove(q: seq<Task>, accepted: seq<Task>, k: nat)
    requires QueueOf(q, accepted) && k < |q|
    ensures QueueOf(RemoveAt(q, k), accepted)
  {
    var r := RemoveAt(q, k);
    forall i, j | 0 <= i < j < |r| ensures r[i].id < r[j].id {
      assert r[i] == q[if i < k then i else i + 1];
      assert r[j] == q[if j < k then j else j + 1];
    }
  }

  // The tasks that schedule(cb) makes of a list of callbacks. Empty ones are dropped.
  function Posted(cbs: seq<Option<CbId>>, id: nat): seq<Task> {
    if cbs == [] then []
    else
      var before := Posted(cbs[..|cbs| - 1], id);
      var last := cbs[|cbs| - 1];
      if last.None? then before else before + [Task(id + |before|, CallbackWork(last.value), None)]
  }

  // With no empty callback among them: one task each, in the same order.
  lemma {:induction false} PostedInOrder(cbs: seq<Option<CbId>>, id: nat)
    requires forall i :: 0 <= i < |cbs| ==> cbs[i].Some?
    ensures |Posted(cbs, id)| == |cbs|
    ensures forall i :: 0 <= i < |cbs| ==> Posted(cbs, id)[i] == Task(id + i, CallbackWork(cbs[i].value), None)
  {
    if cbs != [] {
      PostedInOrder(cbs[..|cbs| - 1], id);
    }
  }

  class Scheduler {
    var tasks: seq<Task>
    var activeThreadCount: nat
    var idleThreadCount: nat
    var stopFlag: bool
    var nextId: nat               // acceptance number of the next task
    ghost var accepted: seq<Task> // every task ever pushed, in order

    ghost predicate Valid()
      reads this
    {
      && nextId == |accepted|
      && (forall i :: 0 <= i < |accepted| ==> accepted[i].id == i)
      && QueueOf(tasks, accepted)
    }

    constructor ()
      ensures Valid()
      ensures tasks == [] && accepted == [] && activeThreadCount == 0 && !stopFlag
    {
      tasks, activeThreadCount, idleThreadCount, stopFlag := [], 0, 0, false;
      nextId, accepted := 0, [];
    }

    // An empty fiber pointer or std::function is dropped, but the answer still
    // says whether the list was empty before the call.
    method ScheduleNoLock(work: Work, thread: Option<Tid>) returns (needTickle: bool)
      requires Valid()
      modifies this
      ensures Valid()
      ensures needTickle <==> old(tasks) == []
      ensures work.NoWork? ==> tasks == old(tasks) && accepted == old(accepted)
      ensures !work.NoWork? ==>
        var x := Task(|old(accepted)|, work, thread);
        tasks == old(tasks) + [x] && accepted == old(accepted) + [x]
      ensures stopFlag == old(stopFlag) && activeThreadCount == old(activeThreadCount)
      ensures idleThreadCount == old(idleThreadCount)
    {
      needTickle := tasks == [];
      var x := Task(nextId, work, thread);
      if !x.work.NoWork? {
        tasks := tasks + [x];
        nextId := nextId + 1;
        accepted := accepted + [x];
      }
    }

    // The locked scan at the top of the run loop. `running` holds the fibers
    // whose state reads RUNNING while the lock is held.
    method TakeTask(me: Tid, running: set<Fid>) returns (task: Option<Task>, tickleMe: bool)
      requires Valid()
      modifies this
      ensures Valid()
      ensures accepted == old(accepted) && stopFlag == old(stopFlag)
      ensures idleThreadCount == old(idleThreadCount)
      ensures task.Some? <==> exists i :: 0 <= i < |old(tasks)| && Eligible(old(tasks)[i], me, running)
      // A task pinned to a thread is taken by that thread only, and a RUNNING fiber by none.
      ensures task.Some? ==> task.value.pin == None || task.value.pin == Some(me)
      ensures task.Some? && task.value.work.FiberWork? ==> task.value.work.fiber !in running
      // What stands first and is neither of these is taken, and only these are ever left by an empty scan.
      ensures
        && old(tasks) != [] && (old(tasks)[0].pin == None || old(tasks)[0].pin == Some(me))
        && !(old(tasks)[0].work.FiberWork? && old(tasks)[0].work.fiber in running)
        ==> task == Some(old(tasks)[0])
      ensures task.None? ==> forall x :: x in tasks ==>
        (x.pin.Some? && x.pin != Some(me)) || (x.work.FiberWork? && x.work.fiber in running)
      ensures var k := FirstEligible(old(tasks), me, running);
        if k < |old(tasks)| then
          && task == Some(old(tasks)[k])
          && tasks == RemoveAt(old(tasks), k)
          && activeThreadCount == old(activeThreadCount) + 1
        else
          && task == None
          && tasks == old(tasks)
          && activeThreadCount == old(activeThreadCount)
      // Without a tickle everything left behind is a fiber this thread may run
      // later, once it stops being RUNNING.
      ensures !tickleMe ==> forall x :: x in tasks ==> StillRunning(x, running) && !PinnedElsewhere(x, me)
      ensures tickleMe ==> tasks != []
      ensures tickleMe <==> Tickles(old(tasks), me, running)
    {
      hide QueueOf, IncreasingIds, FirstEligible;
      task, tickleMe := None, false;
      var it := 0;
      while it < |tasks| && task.None?
        invariant 0 <= it <= |tasks|
        invariant accepted == old(accepted) && stopFlag == old(stopFlag) && nextId == old(nextId)
        invariant idleThreadCount == old(idleThreadCount)
        invariant QueueOf(tasks, accepted)
        invariant task.None? ==>
          && tasks == old(tasks)
          && activeThreadCount == old(activeThreadCount)
          && (forall i :: 0 <= i < it ==> !Eligible(tasks[i], me, running))
          && (tickleMe <==> exists i :: 0 <= i < it && PinnedElsewhere(tasks[i], me))
        invariant task.Some? ==>
          && it < |old(tasks)|
          && Eligible(old(tasks)[it], me, running)
          && task == Some(old(tasks)[it])
          && tasks == RemoveAt(old(tasks), it)
          && activeThreadCount == old(activeThreadCount) + 1
          && (forall i :: 0 <= i < it ==> !Eligible(old(tasks)[i], me, running))
          && (tickleMe <==> exists i :: 0 <= i < it && PinnedElsewhere(old(tasks)[i], me))
        decreases if task.None? then |tasks| - it else -1
      {
        if tasks[it].pin.Some? && tasks[it].pin.value != me {
          it := it + 1;
          tickleMe := true;
        } else if tasks[it].work.FiberWork? && tasks[it].work.fiber in running {
          it := it + 1;
        } else {
          task := Some(tasks[it]);
          QueueOfRemove(tasks, accepted, it);
          tasks := RemoveAt(tasks, it);
          activeThreadCount := activeThreadCount + 1;
        }
      }
      tickleMe := tickleMe || it < |tasks|;
    }

    // The loop of idle that schedules the expired callbacks.
    method ScheduleAll(cbs: seq<Option<CbId>>)
      requires Valid()
      modifies this
      ensures Valid()
      ensures tasks == old(tasks) + Posted(cbs, |old(accepted)|)
      ensures accepted == old(accepted) + Posted(cbs, |old(accepted)|)
      ensures stopFlag == old(stopFlag) && activeThreadCount == old(activeThreadCount)
    {
      hide QueueOf;
      for i := 0 to |cbs|
        invariant Valid()
        invariant tasks == old(tasks) + Posted(cbs[..i], |old(accepted)|)
        invariant accepted == old(accepted) + Posted(cbs[..i], |old(accepted)|)
        invariant stopFlag == old(stopFlag) && activeThreadCount == old(activeThreadCount)
      {
        assert cbs[..i + 1][..i] == cbs[..i];
        var needTickle := ScheduleNoLock(if cbs[i].Some? then CallbackWork(cbs[i].value) else NoWork, None);
      }
      assert cbs[..|cbs|] == cbs;
    }

    // One locked read of the three conditions.
    method Stopping() returns (b: bool)
      ensures b <==> stopFlag && tasks == [] && activeThreadCount == 0
    {
      b := stopFlag && tasks == [] && activeThreadCount == 0;
    }
  }
}
