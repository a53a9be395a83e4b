// The locked operations of the scheduler object are the steps of the run loops,
// and those steps are steps of the I/O manager's machine.
module SchedulerSteps {
  import opened Common
  import opened TaskQueue
  import opened SchedulerRuns
  import Io = IoShutdown

  // The object's fields are the shared part of the machine's state.
  ghost predicate Shows(sched: Scheduler, s: State)
    reads sched
  {
    && sched.Valid() && sched.tasks == s.queue && sched.accepted == s.accepted
    && sched.activeThreadCount == s.active && sched.stopFlag == s.stopping
  }

  method Schedule(sched: Scheduler, caller: Option<Tid>, work: Work, pin: Option<Tid>, ghost s: State)
    requires Shows(sched, s) && Enabled(s, Step.Schedule(caller, work, pin))
    modifies sched
    ensures Shows(sched, Do(s, Step.Schedule(caller, work, pin)))
  {
    var needTickle := sched.ScheduleNoLock(work, pin);
  }

  // The scan of loop t. `running` is what the states of the fibers read under the lock.
  method Scan(sched: Scheduler, t: Tid, running: set<Fid>, ghost s: State) returns (task: Option<Task>)
    requires Shows(sched, s) && Enabled(s, Step.Scan(t)) && running == RunningFibers(s)
    modifies sched
    ensures Shows(sched, Do(s, Step.Scan(t)))
    ensures Do(s, Step.Scan(t)).loops[t].phase == if task.Some? then Holding(task.value) else Empty
  {
    var tickleMe;
    task, tickleMe := sched.TakeTask(t, running);
  }

  // The stop check of idle. If it answers true the scheduler has drained for
  // good: however the loops go on, the condition stays and nothing is accepted.
  method Check(sched: Scheduler, t: Tid, ghost s: State) returns (ended: bool)
    requires Shows(sched, s) && Inv(s) && Enabled(s, IdleCheck(t))
    ensures Shows(sched, Do(s, IdleCheck(t)))
    ensures ended ==> Do(s, IdleCheck(t)).loops[t].idleEnded
    ensures ended ==> forall more :: Run(Do(s, IdleCheck(t)), more) ==>
      var e := After(Do(s, IdleCheck(t)), more); StopHolds(e) && e.accepted == s.accepted
    ensures !ended ==> Do(s, IdleCheck(t)).loops[t] == Loop(Scanning, s.loops[t].idleEnded)
  {
    ended := sched.Stopping();
    if ended {
      ghost var s' := Do(s, IdleCheck(t));
      InvStep(s, IdleCheck(t));
      forall more | Run(s', more) ensures StopHolds(After(s', more)) && After(s', more).accepted == s.accepted {
        DrainedFrom(s', more, t);
      }
    }
  }

  // ---------------------------------------------------------------------------
  // The machine of the I/O manager contains these steps
  // ---------------------------------------------------------------------------

  // A loop of the scheduler as a loop of the I/O manager.
  predicate SameLoop(l: Loop, r: Io.Loop) {
    && r.idleEnded == l.idleEnded && !r.owing
    && match l.phase
       case Scanning => r.phase == Io.Scanning
       case Holding(x) => r.phase == Io.Running(x.id)
       case Executing(x, _) => r.phase == Io.Running(x.id)
       case Finishing(x) => r.phase == Io.Running(x.id)
       case Empty => r.phase == Io.Empty
       case Idling => r.phase == Io.IdleTop
       case Exited => r.phase == Io.Exited
  }

  // The same loops and counters, and the numbers of the same tasks.
  ghost predicate Same(s: State, r: Io.State) {
    && |r.queue| == |s.queue| && (forall i :: 0 <= i < |s.queue| ==> r.queue[i] == s.queue[i].id)
    && (forall t: Tid :: t in s.loops <==> t < |r.loops|)
    && (forall t: Tid :: t < |r.loops| ==> SameLoop(s.loops[t], r.loops[t]))
    && r.active == s.active && r.stopping == s.stopping && r.made == |s.accepted|
    && |r.executed| == |s.executed| && (forall i :: 0 <= i < |s.executed| ==> r.executed[i] == s.executed[i].id)
  }

  // The step of the other machine; a resume, a yield and the end of a fiber are
  // inside its Running.
  function StepOf(s: State, step: Step): Option<Io.Step> {
    match step
    case Schedule(caller, work, _) => if work.NoWork? then None else Some(Io.Step.Schedule(caller))
    case Scan(t) => Some(Io.Step.Scan(t, FirstEligible(s.queue, t, RunningFibers(s))))
    case Complete(t) => Some(Io.Step.Complete(t))
    case PickIdle(t) => Some(Io.Step.PickIdle(t))
    case SetStopping => Some(Io.Step.SetStopping)
    case _ => None
  }

  lemma ScanIsAllowed(s: State, r: Io.State, t: Tid)
    requires Same(s, r) && Enabled(s, Step.Scan(t))
    ensures var k := FirstEligible(s.queue, t, RunningFibers(s));
      Io.Enabled(r, Io.Step.Scan(t, k)) && Same(Do(s, Step.Scan(t)), Io.Do(r, Io.Step.Scan(t, k)))
  {
    hide FirstEligible, RemoveAt;
  }

  ghost predicate Allowed(s: State, r: Io.State, step: Step)
    requires Enabled(s, step)
  {
    var o := StepOf(s, step);
    if o.Some? then Io.Enabled(r, o.value) && Same(Do(s, step), Io.Do(r, o.value))
    else Same(Do(s, step), r)
  }

  // Loop t moves and nothing else that the other machine sees.
  lemma MovedLoop(s: State, s': State, r: Io.State, r': Io.State, t: Tid)
    requires Same(s, r) && t in s.loops && t < |r.loops|
    requires s'.queue == s.queue && s'.accepted == s.accepted && s'.stopping == s.stopping
    requires r'.queue == r.queue && r'.made == r.made && r'.stopping == r.stopping
    requires r'.active - s'.active == r.active - s.active
    requires (s'.executed == s.executed && r'.executed == r.executed) ||
      (exists x, id :: s'.executed == s.executed + [x] && r'.executed == r.executed + [id] && x.id == id)
    requires t in s'.loops && s'.loops == s.loops[t := s'.loops[t]]
    requires |r'.loops| == |r.loops| && r'.loops == r.loops[t := r'.loops[t]]
    requires SameLoop(s'.loops[t], r'.loops[t])
    ensures Same(s', r')
  {
  }

  lemma CompleteIsAllowed(s: State, r: Io.State, t: Tid)
    requires Same(s, r) && Enabled(s, Step.Complete(t))
    ensures Allowed(s, r, Step.Complete(t))
  {
    assert SameLoop(s.loops[t], r.loops[t]);
    hide Same;
    MovedLoop(s, Do(s, Step.Complete(t)), r, Io.Do(r, Io.Step.Complete(t)), t);
  }

  lemma PickIdleIsAllowed(s: State, r: Io.State, t: Tid)
    requires Same(s, r) && Enabled(s, Step.PickIdle(t))
    ensures Allowed(s, r, Step.PickIdle(t))
  {
    assert SameLoop(s.loops[t], r.loops[t]);
    hide Same;
    MovedLoop(s, Do(s, Step.PickIdle(t)), r, Io.Do(r, Io.Step.PickIdle(t)), t);
  }

  // Resume, yield and the end of a fiber stay inside Running.
  lemma InnerStepIsAllowed(s: State, r: Io.State, step: Step)
    requires Same(s, r) && Enabled(s, step) && (step.Resume? || step.Yield? || step.Finish?)
    ensures Allowed(s, r, step)
  {
    var t := step.t;
    assert SameLoop(s.loops[t], r.loops[t]) && t < |r.loops|;
    var s' := Do(s, step);
    if s'.loops == s.loops {
      UnmovedLoops(s, s', r);
    } else {
      assert s'.loops == s.loops[t := s'.loops[t]] && r.loops == r.loops[t := r.loops[t]];
      hide Same;
      MovedLoop(s, s', r, r, t);
    }
  }

  lemma UnmovedLoops(s: State, s': State, r: Io.State)
    requires Same(s, r) && s'.queue == s.queue && s'.loops == s.loops && s'.active == s.active
    requires s'.accepted == s.accepted && s'.stopping == s.stopping && s'.executed == s.executed
    ensures Same(s', r)
  {
  }

  lemma OuterStepIsAllowed(s: State, r: Io.State, step: Step)
    requires Same(s, r) && Enabled(s, step) && (step.Schedule? || step.SetStopping?)
    ensures Allowed(s, r, step)
  {
  }

  // Every step but the stop check, which is stricter there, is such a step or
  // changes nothing that machine sees.
  lemma StepIsAllowed(s: State, r: Io.State, step: Step)
    requires Same(s, r) && Enabled(s, step) && !step.IdleCheck?
    ensures Allowed(s, r, step)
  {
    match step
    case Scan(t) => ScanIsAllowed(s, r, t);
    case Complete(t) => CompleteIsAllowed(s, r, t);
    case PickIdle(t) => PickIdleIsAllowed(s, r, t);
    case NewFiber(_) => UnmovedLoops(s, Do(s, step), r);
    case Schedule(_, _, _) => OuterStepIsAllowed(s, r, step);
    case SetStopping => OuterStepIsAllowed(s, r, step);
    case _ => InnerStepIsAllowed(s, r, step);
    hide Same, Do, Io.Do, Enabled, Io.Enabled;
  }
}
