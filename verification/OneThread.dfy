// No fiber is ever carried by two threads, and resume's assertion never fails,
// provided each fiber has at most one outstanding task and does not end while
// one exists.
module OneThread {
  import opened Common
  import opened TaskQueue
  import opened SchedulerRuns

  predicate Wakes(x: Task, f: Fid) {
    x.work == FiberWork(f)
  }

  ghost predicate Holds(s: State, t: Tid, f: Fid) {
    t in s.loops && s.loops[t].phase.Holding? && Wakes(s.loops[t].phase.task, f)
  }

  ghost predicate Executes(s: State, t: Tid, f: Fid) {
    t in s.loops && s.loops[t].phase.Executing? && s.loops[t].phase.fiber == f
  }

  ghost predicate Queued(s: State, f: Fid) {
    exists i :: 0 <= i < |s.queue| && Wakes(s.queue[i], f)
  }

  // A task for f was accepted and its resume has not happened yet.
  ghost predicate Outstanding(s: State, f: Fid) {
    Queued(s, f) || exists t :: Holds(s, t, f)
  }

  // What the callers of schedule must respect. A fiber may schedule itself
  // while RUNNING, before it yields.
  ghost predicate Disciplined(s: State, step: Step)
    requires Enabled(s, step)
  {
    match step
    case Schedule(_, work, _) =>
      work.FiberWork? ==> s.fibers[work.fiber] != TERM && !Outstanding(s, work.fiber)
    case Finish(t) => !Outstanding(s, s.loops[t].phase.fiber)
    case _ => true
  }

  ghost predicate DisciplinedRun(s: State, steps: seq<Step>)
    requires Run(s, steps)
    decreases |steps|
  {
    steps == [] ||
    var before := steps[..|steps| - 1];
    DisciplinedRun(s, before) && Disciplined(After(s, before), steps[|steps| - 1])
  }

  ghost predicate OneCarrier(s: State) {
    && !s.fault
    // one outstanding task per fiber
    && (forall i, j, f :: 0 <= i < j < |s.queue| && Wakes(s.queue[i], f) ==> !Wakes(s.queue[j], f))
    && (forall t, f :: Holds(s, t, f) ==> !Queued(s, f))
    && (forall t, u, f :: Holds(s, t, f) && Holds(s, u, f) ==> t == u)
    // tasks wake fibers that exist and have not ended
    && (forall i, f :: 0 <= i < |s.queue| && Wakes(s.queue[i], f) ==> f in s.fibers && s.fibers[f] != TERM)
    && (forall t, f :: Holds(s, t, f) ==> f in s.fibers && s.fibers[f] == READY)
    // RUNNING fibers are exactly the executing ones, one thread each
    && (forall t, f :: Executes(s, t, f) ==> f in s.fibers && s.fibers[f] == RUNNING)
    && (forall t, u, f :: Executes(s, t, f) && Executes(s, u, f) ==> t == u)
    && (forall f :: f in s.fibers && s.fibers[f] == RUNNING ==> exists t :: Executes(s, t, f))
  }

  lemma InitOneCarrier(s: State)
    requires Init(s)
    ensures OneCarrier(s)
  {
  }

  lemma OneCarrierSchedule(s: State, step: Step)
    requires OneCarrier(s) && step.Schedule? && Enabled(s, step) && Disciplined(s, step)
    ensures OneCarrier(Do(s, step))
  {
    var s' := Do(s, step);
    forall t, f ensures Holds(s', t, f) <==> Holds(s, t, f) {}
    forall t, f ensures Executes(s', t, f) <==> Executes(s, t, f) {}
    if !step.work.NoWork? {
      var n := |s.queue|;
      forall f | Queued(s', f) ensures Queued(s, f) || step.work == FiberWork(f) {
        var i :| 0 <= i < |s'.queue| && Wakes(s'.queue[i], f);
        assert i < n ==> Wakes(s.queue[i], f);
      }
      forall i, j, f | 0 <= i < j < |s'.queue| && Wakes(s'.queue[i], f) ensures !Wakes(s'.queue[j], f) {
        assert Wakes(s.queue[i], f);
        assert j < n ==> s'.queue[j] == s.queue[j];
      }
    }
  }

  lemma OneCarrierScan(s: State, t: Tid)
    requires OneCarrier(s) && Enabled(s, Scan(t))
    ensures OneCarrier(Do(s, Scan(t)))
  {
    var s' := Do(s, Scan(t));
    var k := FirstEligible(s.queue, t, RunningFibers(s));
    if k < |s.queue| {
      OneCarrierTake(s, t, k, s');
    } else {
      OneCarrierSame(s, s');
    }
  }

  lemma OneCarrierTake(s: State, t: Tid, k: nat, s': State)
    requires OneCarrier(s) && At(s, t, Scanning)
    requires k < |s.queue| && Eligible(s.queue[k], t, RunningFibers(s))
    requires s' == Move(s, t, Holding(s.queue[k])).(queue := RemoveAt(s.queue, k), active := s.active + 1)
    ensures OneCarrier(s')
  {
    hide RemoveAt, FirstEligible;
    var x := s.queue[k];
    forall u, f ensures Executes(s', u, f) <==> Executes(s, u, f) {}
    forall u, f ensures Holds(s', u, f) <==> Holds(s, u, f) || (u == t && Wakes(x, f)) {}
    forall i | 0 <= i < |s'.queue|
      ensures var j := if i < k then i else i + 1; s'.queue[i] == s.queue[j]
    {
    }
    forall f | Queued(s', f) ensures Queued(s, f) && !Wakes(x, f) {
      var i :| 0 <= i < |s'.queue| && Wakes(s'.queue[i], f);
      var j := if i < k then i else i + 1;
      assert Wakes(s.queue[j], f);
    }
    forall f | Wakes(x, f) ensures Queued(s, f) && f in s.fibers && s.fibers[f] == READY {
      assert f in s.fibers && s.fibers[f] != TERM;
      assert f !in RunningFibers(s);
    }
    forall f | f in s'.fibers && s'.fibers[f] == RUNNING ensures exists u :: Executes(s', u, f) {
      var u :| Executes(s, u, f);
      assert Executes(s', u, f);
    }
  }

  lemma OneCarrierResume(s: State, t: Tid, spare: Fid)
    requires OneCarrier(s) && Enabled(s, Resume(t, spare))
    ensures OneCarrier(Do(s, Resume(t, spare)))
  {
    var s' := Do(s, Resume(t, spare));
    var x := s.loops[t].phase.task;
    if x.work.FiberWork? {
      assert Holds(s, t, x.work.fiber);
    }
    if !x.work.NoWork? {
      var g := if x.work.FiberWork? then x.work.fiber else spare;
      forall u, f ensures Holds(s', u, f) <==> Holds(s, u, f) && u != t {}
      forall u, f ensures Executes(s', u, f) <==> Executes(s, u, f) || (u == t && f == g) {}
      forall f ensures Queued(s', f) <==> Queued(s, f) {}
      forall f | f in s'.fibers && s'.fibers[f] == RUNNING ensures exists u :: Executes(s', u, f) {
        if f == g {
          assert Executes(s', t, g);
        } else {
          var u :| Executes(s, u, f);
          assert Executes(s', u, f);
        }
      }
    }
  }

  lemma OneCarrierReturn(s: State, step: Step)
    requires OneCarrier(s) && (step.Yield? || step.Finish?) && Enabled(s, step) && Disciplined(s, step)
    ensures OneCarrier(Do(s, step))
  {
    var s' := Do(s, step);
    var t := step.t;
    var g := s.loops[t].phase.fiber;
    assert Executes(s, t, g);
    forall u, f ensures Holds(s', u, f) <==> Holds(s, u, f) {}
    forall u, f ensures Executes(s', u, f) <==> Executes(s, u, f) && u != t {}
    forall f ensures Queued(s', f) <==> Queued(s, f) {}
    forall f | f in s'.fibers && s'.fibers[f] == RUNNING ensures exists u :: Executes(s', u, f) {
      var u :| Executes(s, u, f);
      assert Executes(s', u, f);
    }
  }

  lemma OneCarrierStep(s: State, step: Step)
    requires OneCarrier(s) && Enabled(s, step) && Disciplined(s, step)
    ensures OneCarrier(Do(s, step))
  {
    match step
    case Schedule(_, _, _) => OneCarrierSchedule(s, step);
    case Scan(t) => OneCarrierScan(s, t);
    case Resume(t, spare) => OneCarrierResume(s, t, spare);
    case Yield(_) => OneCarrierReturn(s, step);
    case Finish(_) => OneCarrierReturn(s, step);
    case _ => OneCarrierUnmoved(s, step);
  }

  lemma OneCarrierUnmoved(s: State, step: Step)
    requires OneCarrier(s) && Enabled(s, step)
    requires step.NewFiber? || step.Complete? || step.PickIdle? || step.IdleCheck? || step.SetStopping?
    ensures OneCarrier(Do(s, step))
  {
    var s' := Do(s, step);
    OneCarrierSame(s, s');
  }

  // A step that moves no task and no fiber, except that a READY fiber may appear.
  lemma OneCarrierSame(s: State, s': State)
    requires OneCarrier(s) && !s'.fault && s'.queue == s.queue
    requires forall t, f :: Holds(s', t, f) <==> Holds(s, t, f)
    requires forall t, f :: Executes(s', t, f) <==> Executes(s, t, f)
    requires forall f :: f in s.fibers ==> f in s'.fibers && s'.fibers[f] == s.fibers[f]
    requires forall f :: f in s'.fibers && f !in s.fibers ==> s'.fibers[f] == READY
    ensures OneCarrier(s')
  {
    forall f ensures Queued(s', f) <==> Queued(s, f) {}
    forall f | f in s'.fibers && s'.fibers[f] == RUNNING ensures exists u :: Executes(s', u, f) {
      var u :| Executes(s, u, f);
      assert Executes(s', u, f);
    }
  }

  // Every disciplined run keeps one carrier per fiber and never fails resume's assertion.
  lemma {:induction false} OneCarrierAlways(s: State, steps: seq<Step>)
    requires Init(s) && Run(s, steps) && DisciplinedRun(s, steps)
    ensures OneCarrier(After(s, steps))
    decreases |steps|
  {
    if steps == [] {
      InitOneCarrier(s);
    } else {
      var before := steps[..|steps| - 1];
      OneCarrierAlways(s, before);
      OneCarrierStep(After(s, before), steps[|steps| - 1]);
    }
  }

  // ---------------------------------------------------------------------------
  // The discipline is exact
  // ---------------------------------------------------------------------------

  // A schedule keeps one carrier per fiber iff it respects the discipline.
  lemma ScheduleKeepsIff(s: State, caller: Option<Tid>, work: Work, pin: Option<Tid>)
    requires OneCarrier(s) && Enabled(s, Schedule(caller, work, pin))
    ensures OneCarrier(Do(s, Schedule(caller, work, pin))) <==> Disciplined(s, Schedule(caller, work, pin))
  {
    var step := Schedule(caller, work, pin);
    if Disciplined(s, step) {
      OneCarrierSchedule(s, step);
    } else {
      var f, s', n := work.fiber, Do(s, step), |s.queue|;
      assert Wakes(s'.queue[n], f);
      if Queued(s, f) {
        var i :| 0 <= i < n && Wakes(s.queue[i], f);
        assert Wakes(s'.queue[i], f);
      } else if s.fibers[f] != TERM {
        var t :| Holds(s, t, f);
        assert Holds(s', t, f) && Queued(s', f);
      }
    }
  }

  // The end of a fiber's function does so iff no task of the fiber is outstanding.
  lemma FinishKeepsIff(s: State, t: Tid)
    requires OneCarrier(s) && Enabled(s, Finish(t))
    ensures OneCarrier(Do(s, Finish(t))) <==> Disciplined(s, Finish(t))
  {
    if Disciplined(s, Finish(t)) {
      OneCarrierReturn(s, Finish(t));
    } else {
      var f, s' := s.loops[t].phase.fiber, Do(s, Finish(t));
      assert Executes(s, t, f);
      forall u ensures !Holds(s, u, f) {}
      var i :| 0 <= i < |s.queue| && Wakes(s.queue[i], f);
      assert Wakes(s'.queue[i], f) && s'.fibers[f] == TERM;
    }
  }

  // The outstanding task of a fiber that has ended faults when its turn comes.
  lemma EndedFiberFaults(s: State, u: Tid, x: Task, f: Fid, spare: Fid)
    requires !s.fault && At(s, u, Scanning) && spare !in s.fibers
    requires Wakes(x, f) && f in s.fibers && s.fibers[f] == TERM
    requires FirstEligible(s.queue, u, RunningFibers(s)) < |s.queue|
    requires s.queue[FirstEligible(s.queue, u, RunningFibers(s))] == x
    ensures Enabled(s, Scan(u))
    ensures var s' := Do(s, Scan(u)); Enabled(s', Resume(u, spare)) && Do(s', Resume(u, spare)).fault
  {
    hide RemoveAt, FirstEligible;
  }

  // In plain words: two threads never hold or execute the same fiber.
  lemma NeverOnTwoThreads(s: State, steps: seq<Step>, t: Tid, u: Tid, f: Fid)
    requires Init(s) && Run(s, steps) && DisciplinedRun(s, steps)
    requires var e := After(s, steps); (Holds(e, t, f) || Executes(e, t, f)) && (Holds(e, u, f) || Executes(e, u, f))
    ensures t == u && !After(s, steps).fault
  {
    OneCarrierAlways(s, steps);
  }

  // The discipline is needed. From any one-carrier state, if f is READY, its one
  // task sits in the hands of t, and another idle-handed loop u may scan an empty
  // list, then scheduling f again leads to a failed assertion in resume.
  lemma DoubleScheduleFaults(s: State, f: Fid, t: Tid, u: Tid, spare: Fid)
    requires OneCarrier(s) && Holds(s, t, f) && u != t && At(s, u, Scanning)
    requires s.queue == [] && !s.stopping && spare !in s.fibers
    ensures var steps := [Schedule(None, FiberWork(f), None), Scan(u), Resume(t, spare), Resume(u, spare)];
      Run(s, steps) && After(s, steps).fault
  {
    var a := Schedule(None, FiberWork(f), None);
    assert Enabled(s, a);
    var s1 := Do(s, a);
    var x := s1.queue[0];
    assert s1 == s.(queue := [x], accepted := s.accepted + [x]) && x.work == FiberWork(f);
    ScanTakesOnly(s1, u, x);
    var s2 := Do(s1, Scan(u));
    TwoResumesFault(s2, t, u, f, spare);
    hide Do, Enabled, OneCarrier;
    RunOfFour(s, a, Scan(u), Resume(t, spare), Resume(u, spare));
  }

  lemma ScanTakesOnly(s: State, u: Tid, x: Task)
    requires At(s, u, Scanning) && !s.fault && s.queue == [x] && Eligible(x, u, RunningFibers(s))
    ensures var s' := Do(s, Scan(u));
      && s'.loops == s.loops[u := s.loops[u].(phase := Holding(x))]
      && s'.fibers == s.fibers && !s'.fault
  {
  }

  lemma TwoResumesFault(s: State, t: Tid, u: Tid, f: Fid, spare: Fid)
    requires !s.fault && t != u && spare !in s.fibers && f in s.fibers && s.fibers[f] == READY
    requires Holds(s, t, f) && Holds(s, u, f)
    ensures Enabled(s, Resume(t, spare))
    ensures var s' := Do(s, Resume(t, spare)); Enabled(s', Resume(u, spare)) && Do(s', Resume(u, spare)).fault
  {
  }

  lemma RunOfFour(s: State, a: Step, b: Step, c: Step, d: Step)
    requires Enabled(s, a)
    requires Enabled(Do(s, a), b)
    requires Enabled(Do(Do(s, a), b), c)
    requires Enabled(Do(Do(Do(s, a), b), c), d)
    ensures Run(s, [a, b, c, d])
    ensures After(s, [a, b, c, d]) == Do(Do(Do(Do(s, a), b), c), d)
  {
    assert [] + [a] == [a] && [a] + [b] == [a, b];
    assert [a, b] + [c] == [a, b, c] && [a, b, c] + [d] == [a, b, c, d];
    RunSnoc(s, [], a);
    RunSnoc(s, [a], b);
    RunSnoc(s, [a, b], c);
    RunSnoc(s, [a, b, c], d);
  }

  lemma RunSnoc(s: State, steps: seq<Step>, step: Step)
    requires Run(s, steps) && Enabled(After(s, steps), step)
    ensures Run(s, steps + [step]) && After(s, steps + [step]) == Do(After(s, steps), step)
  {
    var all := steps + [step];
    assert all[..|all| - 1] == steps && all[|all| - 1] == step;
  }
}
