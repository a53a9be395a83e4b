// Any number of run loops over one task list, as an interleaved step machine.
//
// Every step is one critical section, one atomic counter update or one context
// switch. A step names the thread that takes it, so a run is a sequence of
// steps and every interleaving is some run.
module SchedulerRuns {
  import opened Common
  import opened TaskQueue

  // Where one run loop stands.
  datatype Phase =
    | Scanning                       // about to lock and scan the list
    | Holding(task: Task)            // dequeued and counted active, not yet resumed
    | Executing(task: Task, fiber: Fid)
    | Finishing(task: Task)          // resume returned, still counted active
    | Empty                          // the scan found nothing
    | Idling                         // inside the idle fiber, before its stop check
    | Exited

  // `idleEnded`: the idle fiber of this loop is TERM.
  datatype Loop = Loop(phase: Phase, idleEnded: bool)

  // `fault` records a failed assertion in resume; nothing moves after it.
  datatype State = State(
    queue: seq<Task>,
    loops: map<Tid, Loop>,
    fibers: map<Fid, FiberState>,
    active: nat,
    stopping: bool,
    fault: bool,
    accepted: seq<Task>,
    executed: seq<Task>)

  datatype Step =
    | NewFiber(f: Fid)
    | Schedule(caller: Option<Tid>, work: Work, pin: Option<Tid>)
    | Scan(t: Tid)
    | Resume(t: Tid, spare: Fid)     // `spare` becomes the fiber of a callback task
    | Yield(t: Tid)
    | Finish(t: Tid)                 // the fiber's function returned
    | Complete(t: Tid)               // --m_activeThreadCount
    | PickIdle(t: Tid)               // break if the idle fiber is TERM, else resume it
    | IdleCheck(t: Tid)              // while(!stopping()) yield();
    | SetStopping

  ghost predicate Init(s: State) {
    && s.queue == [] && s.accepted == [] && s.executed == []
    && s.active == 0 && !s.stopping && !s.fault
    && (forall f :: f in s.fibers ==> s.fibers[f] == READY)
    && (forall t :: t in s.loops ==> s.loops[t] == Loop(Scanning, false))
  }

  function RunningFibers(s: State): set<Fid> {
    set f | f in s.fibers && s.fibers[f] == RUNNING
  }

  predicate At(s: State, t: Tid, p: Phase) {
    t in s.loops && s.loops[t].phase == p
  }

  predicate Runs(s: State, t: Tid) {
    t in s.loops && s.loops[t].phase.Executing?
  }

  predicate Busy(p: Phase) {
    p.Holding? || p.Executing? || p.Finishing?
  }

  // Once stop has begun, only a running task may schedule.
  predicate Enabled(s: State, step: Step) {
    !s.fault &&
    match step
    case NewFiber(f) => f !in s.fibers
    case Schedule(caller, work, pin) =>
      && (if caller.None? then !s.stopping else Runs(s, caller.value))
      && (work.FiberWork? ==> work.fiber in s.fibers)
    case Scan(t) => At(s, t, Scanning)
    case Resume(t, spare) => t in s.loops && s.loops[t].phase.Holding? && spare !in s.fibers
    case Yield(t) => Runs(s, t)
    case Finish(t) => Runs(s, t)
    case Complete(t) => t in s.loops && s.loops[t].phase.Finishing? && s.active > 0
    case PickIdle(t) => At(s, t, Empty)
    case IdleCheck(t) => At(s, t, Idling)
    case SetStopping => true
  }

  function Move(s: State, t: Tid, p: Phase): State
    requires t in s.loops
  {
    s.(loops := s.loops[t := s.loops[t].(phase := p)])
  }

  predicate StopHolds(s: State) {
    s.stopping && s.queue == [] && s.active == 0
  }

  function DoSchedule(s: State, work: Work, pin: Option<Tid>): State {
    if work.NoWork? then s
    else
      var x := Task(|s.accepted|, work, pin);
      s.(queue := s.queue + [x], accepted := s.accepted + [x])
  }

  function DoScan(s: State, t: Tid): State
    requires t in s.loops
  {
    var k := FirstEligible(s.queue, t, RunningFibers(s));
    if k < |s.queue| then
      Move(s, t, Holding(s.queue[k])).(queue := RemoveAt(s.queue, k), active := s.active + 1)
    else
      Move(s, t, Empty)
  }

  function DoResume(s: State, t: Tid, spare: Fid): State
    requires t in s.loops && s.loops[t].phase.Holding?
  {
    var x := s.loops[t].phase.task;
    match x.work
    case FiberWork(f) =>
      if f !in s.fibers || s.fibers[f] != READY then s.(fault := true)
      else Move(s, t, Executing(x, f)).(fibers := s.fibers[f := RUNNING])
    case CallbackWork(_) =>
      Move(s, t, Executing(x, spare)).(fibers := s.fibers[spare := RUNNING])
    case NoWork => s
  }

  function Do(s: State, step: Step): State
    requires Enabled(s, step)
  {
    match step
    case NewFiber(f) => s.(fibers := s.fibers[f := READY])
    case Schedule(_, work, pin) => DoSchedule(s, work, pin)
    case Scan(t) => DoScan(s, t)
    case Resume(t, spare) => DoResume(s, t, spare)
    case Yield(t) =>
      var p := s.loops[t].phase;
      Move(s, t, Finishing(p.task)).(fibers := s.fibers[p.fiber := READY])
    case Finish(t) =>
      var p := s.loops[t].phase;
      Move(s, t, Finishing(p.task)).(fibers := s.fibers[p.fiber := TERM])
    case Complete(t) =>
      Move(s, t, Scanning).(active := s.active - 1, executed := s.executed + [s.loops[t].phase.task])
    case PickIdle(t) => Move(s, t, if s.loops[t].idleEnded then Exited else Idling)
    case IdleCheck(t) =>
      if StopHolds(s) then s.(loops := s.loops[t := Loop(Scanning, true)])
      else Move(s, t, Scanning)
    case SetStopping => s.(stopping := true)
  }

  // States reached by a sequence of enabled steps.
  ghost predicate Run(s: State, steps: seq<Step>)
    decreases |steps|, 0
  {
    steps == [] || (Run(s, steps[..|steps| - 1]) && Enabled(After(s, steps[..|steps| - 1]), steps[|steps| - 1]))
  }

  ghost function After(s: State, steps: seq<Step>): State
    requires Run(s, steps)
    decreases |steps|, 1
  {
    if steps == [] then s
    else Do(After(s, steps[..|steps| - 1]), steps[|steps| - 1])
  }

  // ---------------------------------------------------------------------------
  // Conservation, the active count and shutdown
  // ---------------------------------------------------------------------------

  ghost predicate Held(s: State, t: Tid, x: Task) {
    t in s.loops && Busy(s.loops[t].phase) && s.loops[t].phase.task == x
  }

  function BusyLoops(s: State): set<Tid> {
    set t | t in s.loops && Busy(s.loops[t].phase)
  }

  // Every accepted task is in exactly one place: the list, one thread, or done.
  ghost predicate Conserved(s: State) {
    && (forall i :: 0 <= i < |s.accepted| ==> s.accepted[i].id == i)
    && QueueOf(s.queue, s.accepted)
    && (forall t, x :: Held(s, t, x) ==> x in s.accepted && x !in s.queue && x !in s.executed)
    && (forall t, u, x :: Held(s, t, x) && Held(s, u, x) ==> t == u)
    && (forall i :: 0 <= i < |s.executed| ==> s.executed[i] in s.accepted && s.executed[i] !in s.queue)
    && (forall i, j :: 0 <= i < j < |s.executed| ==> s.executed[i] != s.executed[j])
    && (forall x :: x in s.accepted ==> x in s.queue || x in s.executed || exists t :: Held(s, t, x))
  }

  // m_activeThreadCount counts the threads between dequeue and completion.
  ghost predicate CountsActive(s: State) {
    s.active == |BusyLoops(s)|
  }

  // One idle fiber has ended only if the scheduler has drained.
  ghost predicate DrainedOnceIdleEnded(s: State) {
    forall t :: t in s.loops && (s.loops[t].idleEnded || s.loops[t].phase.Exited?) ==>
      s.loops[t].idleEnded && StopHolds(s)
  }

  ghost predicate Inv(s: State) {
    Conserved(s) && CountsActive(s) && DrainedOnceIdleEnded(s)
  }

  lemma ConservedSchedule(s: State, work: Work, pin: Option<Tid>)
    requires Conserved(s)
    ensures Conserved(DoSchedule(s, work, pin))
  {
    var s' := DoSchedule(s, work, pin);
    if !work.NoWork? {
      var x := s'.accepted[|s.accepted|];
      assert x !in s.accepted;
      forall y | y in s'.accepted
        ensures y in s'.queue || y in s'.executed || exists t :: Held(s', t, y)
      {
        if y != x {
          assert y in s.accepted;
          if y !in s.queue && y !in s.executed {
            var t :| Held(s, t, y);
            assert Held(s', t, y);
          }
        } else {
          assert s'.queue[|s.queue|] == x;
        }
      }
      forall t, y | Held(s', t, y) ensures y in s'.accepted && y !in s'.queue && y !in s'.executed {
        assert Held(s, t, y);
      }
      forall t, u, y | Held(s', t, y) && Held(s', u, y) ensures t == u {
        assert Held(s, t, y) && Held(s, u, y);
      }
    }
  }

  lemma ConservedScan(s: State, t: Tid)
    requires Conserved(s) && At(s, t, Scanning)
    ensures Conserved(DoScan(s, t))
  {
    hide RemoveAt, FirstEligible, RunningFibers;
    var s' := DoScan(s, t);
    var k := FirstEligible(s.queue, t, RunningFibers(s));
    forall u, y | Held(s', u, y) && u != t ensures Held(s, u, y) {}
    forall u, y | Held(s, u, y) ensures Held(s', u, y) && u != t {}
    if k < |s.queue| {
      QueueOfRemove(s.queue, s.accepted, k);
      var x := s.queue[k];
      assert Held(s', t, x);
      assert x !in s'.queue;
      forall y ensures y in s'.queue ==> y in s.queue
        ensures y in s.queue && y != x ==> y in s'.queue
      {
        RemoveAtMembers(s.queue, k, y);
      }
      forall y | y in s'.accepted
        ensures y in s'.queue || y in s'.executed || exists u :: Held(s', u, y)
      {
        if y != x && y !in s.queue && y !in s.executed {
          var u :| Held(s, u, y);
          assert Held(s', u, y);
        }
      }
    }
  }

  // A step that leaves the list alone and hands every held task on.
  lemma ConservedSameTasks(s: State, s': State)
    requires Conserved(s)
    requires s'.queue == s.queue && s'.accepted == s.accepted && s'.executed == s.executed
    requires forall t, x :: Held(s, t, x) <==> Held(s', t, x)
    ensures Conserved(s')
  {
  }

  lemma ConservedComplete(s: State, t: Tid)
    requires Conserved(s) && Enabled(s, Complete(t))
    ensures Conserved(Do(s, Complete(t)))
  {
    var s' := Do(s, Complete(t));
    var x := s.loops[t].phase.task;
    assert Held(s, t, x);
    forall u, y | Held(s', u, y) ensures Held(s, u, y) && u != t && y != x {
      assert Held(s, u, y);
    }
    forall y | y in s'.accepted
      ensures y in s'.queue || y in s'.executed || exists u :: Held(s', u, y)
    {
      if y == x {
        assert s'.executed[|s.executed|] == x;
      } else if y in s.executed {
        var i :| 0 <= i < |s.executed| && s.executed[i] == y;
        assert s'.executed[i] == y;
      } else if y !in s.queue {
        var u :| Held(s, u, y);
        assert Held(s', u, y);
      }
    }
  }

  lemma ConservedStep(s: State, step: Step)
    requires Conserved(s) && Enabled(s, step)
    ensures Conserved(Do(s, step))
  {
    hide Conserved;
    match step
    case Schedule(_, work, pin) => ConservedSchedule(s, work, pin);
    case Scan(t) => ConservedScan(s, t);
    case Complete(t) => ConservedComplete(s, t);
    case _ => ConservedSameTasks(s, Do(s, step));
  }

  // Only a scan and a completion change which loops are busy.
  lemma BusyUnchanged(s: State, step: Step)
    requires Enabled(s, step) && !step.Scan? && !step.Complete?
    ensures BusyLoops(Do(s, step)) == BusyLoops(s)
  {
    var s' := Do(s, step);
    assert s'.loops.Keys == s.loops.Keys;
    forall t | t in s.loops ensures Busy(s'.loops[t].phase) == Busy(s.loops[t].phase) {
    }
  }

  lemma CountsActiveStep(s: State, step: Step)
    requires CountsActive(s) && Enabled(s, step)
    ensures CountsActive(Do(s, step))
  {
    if step.Scan? {
      CountsActiveScan(s, step.t);
    } else if step.Complete? {
      CountsActiveComplete(s, step.t);
    } else {
      BusyUnchanged(s, step);
      assert Do(s, step).active == s.active;
    }
  }

  lemma CountsActiveScan(s: State, t: Tid)
    requires CountsActive(s) && At(s, t, Scanning)
    ensures CountsActive(DoScan(s, t))
  {
    hide RemoveAt, FirstEligible, RunningFibers;
    var s' := DoScan(s, t);
    assert t in s.loops && t !in BusyLoops(s);
    OneLoopBusy(s, s', t);
    hide BusyLoops;
  }

  lemma OneLoopBusy(s: State, s': State, t: Tid)
    requires t in s.loops && t in s'.loops && s'.loops == s.loops[t := s'.loops[t]]
    ensures BusyLoops(s') == if Busy(s'.loops[t].phase) then BusyLoops(s) + {t} else BusyLoops(s) - {t}
  {
  }

  lemma CountsActiveComplete(s: State, t: Tid)
    requires CountsActive(s) && Enabled(s, Complete(t))
    ensures CountsActive(Do(s, Complete(t)))
  {
    var s' := Do(s, Complete(t));
    assert t in BusyLoops(s) && BusyLoops(s') == BusyLoops(s) - {t};
  }

  // While the drained condition holds no thread is busy, so nothing can create work.
  lemma NoLoopIsBusyWhenDrained(s: State, t: Tid)
    requires CountsActive(s) && s.active == 0 && t in s.loops
    ensures !Busy(s.loops[t].phase)
  {
    assert BusyLoops(s) == {};
    assert t !in BusyLoops(s);
  }

  ghost predicate SomeIdleEnded(s: State) {
    exists t :: t in s.loops && (s.loops[t].idleEnded || s.loops[t].phase.Exited?)
  }

  lemma DrainedStep(s: State, step: Step)
    requires CountsActive(s) && DrainedOnceIdleEnded(s) && Enabled(s, step)
    ensures DrainedOnceIdleEnded(Do(s, step))
  {
    if SomeIdleEnded(s) {
      DrainedStays(s, step);
    } else {
      DrainedBegins(s, step);
    }
  }

  lemma DrainedStays(s: State, step: Step)
    requires CountsActive(s) && DrainedOnceIdleEnded(s) && SomeIdleEnded(s) && Enabled(s, step)
    ensures DrainedOnceIdleEnded(Do(s, step)) && StopHolds(Do(s, step))
    ensures Do(s, step).accepted == s.accepted
  {
    assert StopHolds(s);
    forall t | t in s.loops ensures !Busy(s.loops[t].phase) {
      NoLoopIsBusyWhenDrained(s, t);
    }
  }

  lemma DrainedBegins(s: State, step: Step)
    requires !SomeIdleEnded(s) && Enabled(s, step)
    ensures DrainedOnceIdleEnded(Do(s, step))
  {
    var s' := Do(s, step);
    forall t | t in s'.loops && (s'.loops[t].idleEnded || s'.loops[t].phase.Exited?)
      ensures s'.loops[t].idleEnded && StopHolds(s')
    {
      assert t in s.loops && !s.loops[t].idleEnded && !s.loops[t].phase.Exited?;
      assert step == IdleCheck(t);
    }
  }

  lemma InvStep(s: State, step: Step)
    requires Inv(s) && Enabled(s, step)
    ensures Inv(Do(s, step))
  {
    ConservedStep(s, step);
    CountsActiveStep(s, step);
    DrainedStep(s, step);
  }

  lemma InitInv(s: State)
    requires Init(s)
    ensures Inv(s)
  {
    assert BusyLoops(s) == {};
  }

  // Over every interleaving: tasks are conserved, the active count is exact, and
  // an ended idle fiber means the scheduler has drained.
  lemma {:induction false} InvAlways(s: State, steps: seq<Step>)
    requires Init(s) && Run(s, steps)
    ensures Inv(After(s, steps))
    decreases |steps|
  {
    if steps == [] {
      InitInv(s);
    } else {
      var before := steps[..|steps| - 1];
      InvAlways(s, before);
      InvStep(After(s, before), steps[|steps| - 1]);
    }
  }

  // Once one idle fiber has ended the drained condition holds in every later state.
  lemma {:induction false} DrainedForever(s: State, steps: seq<Step>, more: seq<Step>, t: Tid)
    requires Init(s) && Run(s, steps)
    requires t in After(s, steps).loops && After(s, steps).loops[t].idleEnded
    requires Run(After(s, steps), more)
    ensures StopHolds(After(s, steps))
    ensures StopHolds(After(After(s, steps), more))
    ensures After(After(s, steps), more).accepted == After(s, steps).accepted
    decreases |more|
  {
    InvAlways(s, steps);
    DrainedFrom(After(s, steps), more, t);
  }

  lemma {:induction false} DrainedFrom(s: State, more: seq<Step>, t: Tid)
    requires Inv(s) && Run(s, more) && t in s.loops && s.loops[t].idleEnded
    ensures var s' := After(s, more);
      Inv(s') && t in s'.loops && s'.loops[t].idleEnded && StopHolds(s') && s'.accepted == s.accepted
    decreases |more|
  {
    if more != [] {
      var before := more[..|more| - 1];
      DrainedFrom(s, before, t);
      var m := After(s, before);
      InvStep(m, more[|more| - 1]);
      DrainedStays(m, more[|more| - 1]);
    }
  }

  // No run loop has a task that is pinned to another thread.
  ghost predicate OnItsThread(s: State) {
    forall t: Tid, x :: Held(s, t, x) ==> x.pin == None || x.pin == Some(t)
  }

  lemma OnItsThreadStep(s: State, step: Step)
    requires OnItsThread(s) && Enabled(s, step)
    ensures OnItsThread(Do(s, step))
  {
    hide RemoveAt;
    var s' := Do(s, step);
    forall t: Tid, x | Held(s', t, x) ensures x.pin == None || x.pin == Some(t) {
      if !Held(s, t, x) {
        assert step == Scan(t) && Eligible(x, t, RunningFibers(s));
      }
    }
  }

  lemma {:induction false} OnItsThreadAlways(s: State, steps: seq<Step>)
    requires Init(s) && Run(s, steps)
    ensures OnItsThread(After(s, steps))
    decreases |steps|
  {
    if steps != [] {
      var before := steps[..|steps| - 1];
      OnItsThreadAlways(s, before);
      OnItsThreadStep(After(s, before), steps[|steps| - 1]);
    }
  }

  // Over every interleaving: a task pinned to a thread is dequeued, executed and
  // completed by that thread and no other.
  lemma {:induction false} PinnedTasksStay(s: State, steps: seq<Step>, t: Tid)
    requires Init(s) && Run(s, steps) && t in After(s, steps).loops
    ensures var p := After(s, steps).loops[t].phase;
      p.Holding? || p.Executing? || p.Finishing? ==> p.task.pin == None || p.task.pin == Some(t)
  {
    OnItsThreadAlways(s, steps);
    var p := After(s, steps).loops[t].phase;
    assert Busy(p) ==> Held(After(s, steps), t, p.task);
  }

  ghost predicate AllExited(s: State) {
    s.loops != map[] && forall t :: t in s.loops ==> s.loops[t].phase.Exited?
  }

  lemma {:induction false} DistinctCount(q: seq<Task>, x: Task)
    requires forall i, j :: 0 <= i < j < |q| ==> q[i] != q[j]
    ensures multiset(q)[x] == if x in q then 1 else 0
  {
    if q != [] {
      var n := |q| - 1;
      assert q == q[..n] + [q[n]];
      DistinctCount(q[..n], x);
    }
  }

  // When all loops of a started scheduler have exited, exactly the accepted
  // tasks were executed, each once.
  lemma AllExitedMeansAllExecuted(s: State, steps: seq<Step>)
    requires Init(s) && Run(s, steps) && AllExited(After(s, steps))
    ensures var e := After(s, steps);
      multiset(e.executed) == multiset(e.accepted) && e.queue == [] && e.active == 0 && e.stopping
  {
    InvAlways(s, steps);
    var e := After(s, steps);
    var t :| t in e.loops;
    assert StopHolds(e);
    forall x ensures multiset(e.executed)[x] == multiset(e.accepted)[x] {
      DistinctCount(e.executed, x);
      DistinctCount(e.accepted, x);
      if x in e.accepted {
        assert x !in e.queue;
        assert forall u :: !Held(e, u, x);
      }
    }
  }
}
