// Control transfer is well nested on every thread.
module FiberNesting {
  import opened Common
  import opened FiberSwitch

  // f is the main fiber or the scheduler fiber of t, or on its cpu.
  ghost predicate Member(s: State, t: Tid, f: Fid) {
    t < |s.threads| && (f == s.threads[t].mainFiber || f == s.threads[t].schedulerFiber || f == s.threads[t].cpu)
  }

  // The chain main / scheduler / task-or-idle, as far as the thread has descended.
  ghost predicate InChain(s: State, t: Tid, f: Fid) {
    && t < |s.threads|
    && var l := s.threads[t];
    f == l.mainFiber || f == l.cpu || (f == l.schedulerFiber && l.cpu != l.mainFiber)
  }

  ghost predicate OnCpu(s: State, t: Tid, f: Fid) {
    t < |s.threads| && s.threads[t].cpu == f
  }

  ghost predicate Anchors(s: State, t: Tid, f: Fid) {
    t < |s.threads| && (f == s.threads[t].mainFiber || f == s.threads[t].schedulerFiber)
  }

  // f was left here, has not gone on since, and its context says so.
  ghost predicate Saved(r: FiberRec, f: Fid) {
    r.ctx == Left(f, r.saves)
  }

  // Loading f's context enters f for the first time or goes on exactly where f
  // was last left.
  ghost predicate Loadable(r: FiberRec, f: Fid) {
    (r.ctx == Entry && !r.started) || Saved(r, f)
  }

  // Such a load is sound if f runs nowhere.
  ghost predicate FreshFor(s: State, f: Fid) {
    f < |s.fibers| && Loadable(s.fibers[f], f) && forall t :: !OnCpu(s, t, f)
  }

  ghost predicate ThreadOk(s: State, t: Tid)
    requires t < |s.threads| && LocalsExist(s, t)
  {
    var l := s.threads[t];
    var m, c, r := s.fibers[l.mainFiber], s.fibers[l.cpu], s.fibers[l.schedulerFiber];
    && m.state == RUNNING && !m.inScheduler && !m.hasStack && !r.inScheduler
    && (l.schedulerFiber != l.mainFiber ==> r.hasStack)
    && (if l.cpu == l.mainFiber then
          && l.current == l.mainFiber
          && (l.schedulerFiber != l.mainFiber ==>
                r.state == TERM || (r.state == READY && r.ctx == Entry && !r.started))
        else if l.cpu == l.schedulerFiber then
          && r.state == RUNNING
          && (l.current == l.schedulerFiber || l.current == l.mainFiber)
          && Saved(m, l.mainFiber) && r.home == Some((t, m.ctx))
        else
          && c.inScheduler && c.state == RUNNING && l.current == l.cpu
          && r.state == RUNNING
          && Saved(r, l.schedulerFiber) && c.home == Some((t, r.ctx))
          && (l.schedulerFiber != l.mainFiber ==> Saved(m, l.mainFiber) && r.home == Some((t, m.ctx))))
  }

  ghost predicate FiberOk(s: State, f: Fid)
    requires f < |s.fibers|
  {
    if s.fibers[f].inScheduler then
      && s.fibers[f].hasStack
      && (s.fibers[f].state == READY ==> Loadable(s.fibers[f], f))
      && (s.fibers[f].state == RUNNING ==> exists t :: OnCpu(s, t, f))
    else
      exists t :: Anchors(s, t, f)
  }

  ghost predicate Nested(s: State) {
    && (forall t :: 0 <= t < |s.threads| ==> LocalsExist(s, t) && ThreadOk(s, t))
    && (forall t, u, f {:trigger Member(s, t, f), Member(s, u, f)} :: Member(s, t, f) && Member(s, u, f) ==> t == u)
    && (forall f {:trigger FiberOk(s, f)} :: 0 <= f < |s.fibers| ==> FiberOk(s, f))
  }

  predicate Switches(step: Step) {
    step.ResumeBy? || step.YieldBy? || step.EndBy?
  }

  // The fiber whose context the step loads.
  ghost function Loaded(s: State, step: Step): Fid
    requires Switches(step) && Asserts(s, step)
  {
    if step.ResumeBy? then step.f else SwapPartner(s, step.t, s.threads[step.t].cpu)
  }

  // A task or idle fiber that is not RUNNING belongs to no thread.
  lemma ReadyIsNowhere(s: State, f: Fid, u: Tid)
    requires Nested(s) && f < |s.fibers| && s.fibers[f].inScheduler && s.fibers[f].state != RUNNING
    ensures !Member(s, u, f)
  {
    if u < |s.threads| {
      assert ThreadOk(s, u);
    }
  }

  // The fiber has not ended and belongs to no thread: it is nowhere on a chain
  // main / scheduler / task-or-idle.
  ghost predicate Free(s: State, f: Fid)
    requires f < |s.fibers|
  {
    s.fibers[f].state != TERM && forall t :: !InChain(s, t, f)
  }

  // The assertions of yield always hold, that of resume holds iff the fiber is
  // free, and those of reset iff the fiber has ended.
  lemma AssertsIff(s: State, step: Step)
    requires Nested(s) && Designed(s, step)
    ensures Asserts(s, step) <==>
      && (step.ResumeBy? ==> Free(s, step.f))
      && (step.ResetFiber? ==> s.fibers[step.f].state == TERM)
    ensures step.YieldBy? ==> s.threads[step.t].current == s.threads[step.t].cpu
  {
    if Switches(step) {
      assert ThreadOk(s, step.t);
    } else if step.ResetFiber? {
      assert FiberOk(s, step.f);
    }
    if step.ResumeBy? {
      RunningIsChain(s, step.f);
    }
  }

  lemma LoadedIsFresh(s: State, step: Step)
    requires Nested(s) && Designed(s, step) && Switches(step) && Asserts(s, step)
    ensures FreshFor(s, Loaded(s, step))
    ensures step.ResumeBy? || s.fibers[Loaded(s, step)].ctx == Left(Loaded(s, step), s.fibers[Loaded(s, step)].saves)
  {
    assert ThreadOk(s, step.t);
    var p := Loaded(s, step);
    assert FiberOk(s, p);
    forall t ensures !OnCpu(s, t, p) {
      if OnCpu(s, t, p) {
        assert Member(s, t, p);
        if s.fibers[p].inScheduler {
          ReadyIsNowhere(s, p, t);
        } else {
          assert Member(s, step.t, p);
        }
      }
    }
  }

  // Every loaded context is a fresh save or a fresh entry point, and control
  // arrives at the fiber meant.
  lemma TransferSound(s: State, step: Step)
    requires Nested(s) && Designed(s, step) && Switches(step) && Asserts(s, step)
    ensures FreshFor(s, Loaded(s, step))
    ensures Do(s, step).threads[step.t].cpu == Loaded(s, step)
  {
    LoadedIsFresh(s, step);
    assert ThreadOk(s, step.t);
    assert !OnCpu(s, step.t, Loaded(s, step));
    hide Nested, FiberOk;
  }

  // A yield goes to the thread and to the very context of the resume that began
  // the stint; after a migration that is the scheduler fiber of the new thread.
  lemma YieldReturnsToResumer(s: State, step: Step)
    requires Nested(s) && Designed(s, step) && (step.YieldBy? || step.EndBy?)
    ensures Asserts(s, step)
    ensures var f := s.fibers[s.threads[step.t].cpu];
      && f.home == Some((step.t, s.fibers[Loaded(s, step)].ctx))
      && (f.inScheduler ==> Loaded(s, step) == s.threads[step.t].schedulerFiber)
      && (!f.inScheduler ==> Loaded(s, step) == s.threads[step.t].mainFiber)
  {
    AssertsIff(s, step);
    assert ThreadOk(s, step.t);
  }

  // RUNNING fibers are exactly the chains of the threads, and chains are disjoint.
  lemma RunningIsChain(s: State, f: Fid)
    requires Nested(s) && f < |s.fibers|
    ensures s.fibers[f].state == RUNNING <==> exists t :: InChain(s, t, f)
    ensures forall t, u :: InChain(s, t, f) && InChain(s, u, f) ==> t == u
  {
    assert FiberOk(s, f);
    forall t | InChain(s, t, f) ensures s.fibers[f].state == RUNNING && Member(s, t, f) {
      assert ThreadOk(s, t);
    }
    if s.fibers[f].state == RUNNING {
      if s.fibers[f].inScheduler {
        var t :| OnCpu(s, t, f);
        assert InChain(s, t, f);
      } else {
        var t :| Anchors(s, t, f);
        assert ThreadOk(s, t);
        assert InChain(s, t, f);
      }
    }
  }

  // ---------------------------------------------------------------------------
  // Preservation
  // ---------------------------------------------------------------------------

  ghost predicate OnlyOf(s: State, t: Tid, f: Fid) {
    forall u {:trigger Member(s, u, f)} :: Member(s, u, f) ==> u == t
  }

  lemma MembersAreOwn(s: State, t: Tid, f: Fid)
    requires Nested(s) && Member(s, t, f)
    ensures OnlyOf(s, t, f)
  {
  }

  // Thread t hands its cpu from f to g; all other fibers and threads are untouched.
  ghost predicate HandsOver(s: State, s': State, t: Tid, f: Fid, g: Fid) {
    && |s'.fibers| == |s.fibers| && |s'.threads| == |s.threads|
    && t < |s.threads| && f < |s.fibers| && g < |s.fibers| && f != g
    && s.threads[t].cpu == f
    && s'.threads[t] == s.threads[t].(current := s'.threads[t].current, cpu := g)
    && (forall u :: 0 <= u < |s.threads| && u != t ==> s'.threads[u] == s.threads[u])
    && (forall h :: 0 <= h < |s.fibers| && h != f && h != g ==>
          s'.fibers[h] == s.fibers[h])
  }

  lemma HandOverThread(s: State, s': State, t: Tid, f: Fid, g: Fid, u: Tid)
    requires Nested(s) && HandsOver(s, s', t, f, g) && OnlyOf(s, t, f) && OnlyOf(s, t, g)
    requires u < |s.threads| && u != t
    ensures LocalsExist(s', u) && ThreadOk(s', u)
  {
    assert ThreadOk(s, u);
    var l := s.threads[u];
    assert Member(s, u, l.mainFiber) && Member(s, u, l.schedulerFiber) && Member(s, u, l.cpu);
  }

  lemma HandOverMember(s: State, s': State, t: Tid, f: Fid, g: Fid, u: Tid, h: Fid)
    requires HandsOver(s, s', t, f, g) && Member(s', u, h)
    ensures Member(s, u, h) || (u == t && h == g)
  {
  }

  lemma HandOverFiber(s: State, s': State, t: Tid, f: Fid, g: Fid, h: Fid)
    requires HandsOver(s, s', t, f, g) && h < |s.fibers| && FiberOk(s, h) && h != f && h != g
    ensures FiberOk(s', h)
  {
    if s.fibers[h].inScheduler {
      if s.fibers[h].state == RUNNING {
        var u :| OnCpu(s, u, h);
        assert OnCpu(s', u, h);
      }
    } else {
      var u :| Anchors(s, u, h);
      assert Anchors(s', u, h);
    }
  }

  lemma NestedHandOver(s: State, s': State, t: Tid, f: Fid, g: Fid)
    requires Nested(s) && HandsOver(s, s', t, f, g)
    requires LocalsExist(s', t) && ThreadOk(s', t) && FiberOk(s', f) && FiberOk(s', g)
    requires OnlyOf(s, t, f) && OnlyOf(s, t, g)
    ensures Nested(s')
  {
    forall u: Tid | u < |s'.threads| ensures LocalsExist(s', u) && ThreadOk(s', u) {
      if u != t {
        HandOverThread(s, s', t, f, g, u);
      }
    }
    forall u: Tid, v: Tid, h: Fid | Member(s', u, h) && Member(s', v, h) ensures u == v {
      HandOverMember(s, s', t, f, g, u, h);
      HandOverMember(s, s', t, f, g, v, h);
    }
    forall h: Fid | h < |s'.fibers| ensures FiberOk(s', h) {
      if h != f && h != g {
        assert FiberOk(s, h);
        HandOverFiber(s, s', t, f, g, h);
      }
    }
  }

  lemma ResumeHandsOver(s: State, t: Tid, f: Fid)
    requires Nested(s) && Designed(s, ResumeBy(t, f)) && Asserts(s, ResumeBy(t, f))
    ensures var s' := Do(s, ResumeBy(t, f)); var back := s.threads[t].cpu;
      && HandsOver(s, s', t, back, f) && LocalsExist(s', t) && ThreadOk(s', t)
  {
    TransferSound(s, ResumeBy(t, f));
    assert ThreadOk(s, t) && FiberOk(s, f);
    hide FreshFor;
  }

  lemma ResumeFibersOk(s: State, t: Tid, f: Fid)
    requires Nested(s) && Designed(s, ResumeBy(t, f)) && Asserts(s, ResumeBy(t, f))
    ensures var s' := Do(s, ResumeBy(t, f)); var back := s.threads[t].cpu;
      back < |s'.fibers| && f < |s'.fibers| && FiberOk(s', back) && FiberOk(s', f)
    ensures OnlyOf(s, t, s.threads[t].cpu) && OnlyOf(s, t, f)
  {
    TransferSound(s, ResumeBy(t, f));
    var s' := Do(s, ResumeBy(t, f));
    var back := s.threads[t].cpu;
    assert ThreadOk(s, t) && FiberOk(s, f) && FiberOk(s, back);
    assert Member(s, t, back) && Anchors(s', t, back);
    assert !s.fibers[f].inScheduler ==> Member(s, t, f) && Anchors(s', t, f);
    assert OnCpu(s', t, f);
    forall u | Member(s, u, f) ensures u == t {
      if s.fibers[f].inScheduler {
        ReadyIsNowhere(s, f, u);
      }
    }
  }

  lemma NestedResume(s: State, t: Tid, f: Fid)
    requires Nested(s) && Designed(s, ResumeBy(t, f)) && Asserts(s, ResumeBy(t, f))
    ensures Nested(Do(s, ResumeBy(t, f)))
  {
    ResumeHandsOver(s, t, f);
    ResumeFibersOk(s, t, f);
    hide ThreadOk, FiberOk, Do, HandsOver, Nested, OnlyOf;
    NestedHandOver(s, Do(s, ResumeBy(t, f)), t, s.threads[t].cpu, f);
  }

  // f was on the cpu of t, its execution is saved, and g goes on there.
  ghost predicate LeavesFor(s: State, s': State, t: Tid, f: Fid, g: Fid, state: FiberState) {
    && HandsOver(s, s', t, f, g)
    && s'.fibers[f] == s.fibers[f].(
          state := state, saves := s.fibers[f].saves + 1, ctx := Left(f, s.fibers[f].saves + 1))
    && s'.fibers[g] == s.fibers[g]
    && s'.threads[t] == s.threads[t].(current := s.threads[t].mainFiber, cpu := g)
  }

  lemma LeaveEffect(s: State, step: Step)
    requires Nested(s) && Designed(s, step) && (step.YieldBy? || step.EndBy?) && Asserts(s, step)
    ensures var t := step.t; var f := s.threads[t].cpu;
      && f < |s.fibers| && s.fibers[f].state == RUNNING
      && Loaded(s, step) == SwapPartner(s, t, f)
      && LeavesFor(s, Do(s, step), t, f, Loaded(s, step), if step.YieldBy? then READY else TERM)
  {
    AssertsIff(s, step);
    assert ThreadOk(s, step.t);
    var t, f := step.t, s.threads[step.t].cpu;
    if step.YieldBy? {
      YieldLeaves(s, t, f, SwapPartner(s, t, f));
    } else {
      var s0 := SetState(s, f, TERM);
      YieldLeaves(s0, t, f, SwapPartner(s, t, f));
    }
    hide Yield, Nested, FiberOk;
  }

  // What a yield of the fiber on the cpu does, if its partner was left before.
  lemma YieldLeaves(s: State, t: Tid, f: Fid, g: Fid)
    requires t < |s.threads| && LocalsExist(s, t) && YieldAsserts(s, f) && f == s.threads[t].cpu
    requires g == SwapPartner(s, t, f) && g != f && Saved(s.fibers[g], g)
    ensures LeavesFor(s, Yield(s, t, f), t, f, g, if s.fibers[f].state == TERM then TERM else READY)
  {
  }

  lemma LeaveHandsOver(s: State, s': State, t: Tid, f: Fid, g: Fid, state: FiberState)
    requires Nested(s) && LeavesFor(s, s', t, f, g, state) && g == SwapPartner(s, t, f)
    requires state == READY || state == TERM
    requires f != s.threads[t].mainFiber && (state == READY ==> s.fibers[f].inScheduler)
    ensures LocalsExist(s', t) && ThreadOk(s', t)
    ensures Member(s, t, f) && Member(s, t, g)
  {
    assert ThreadOk(s, t) && FiberOk(s, f) && FiberOk(s, g);
  }

  lemma LeaveFibersOk(s: State, s': State, t: Tid, f: Fid, g: Fid, state: FiberState)
    requires Nested(s) && LeavesFor(s, s', t, f, g, state) && g == SwapPartner(s, t, f)
    requires state == READY || state == TERM
    ensures FiberOk(s', f) && FiberOk(s', g)
  {
    assert ThreadOk(s, t) && FiberOk(s, f) && FiberOk(s, g);
    assert Anchors(s', t, g);
    if !s.fibers[f].inScheduler {
      var u :| Anchors(s, u, f);
      assert Anchors(s', u, f);
    }
  }

  // The fiber on the cpu of t leaves it for its swap partner.
  lemma NestedLeave(s: State, step: Step)
    requires Nested(s) && Designed(s, step) && (step.YieldBy? || step.EndBy?) && Asserts(s, step)
    ensures Nested(Do(s, step))
  {
    LeaveEffect(s, step);
    AssertsIff(s, step);
    var t, f, g, s' := step.t, s.threads[step.t].cpu, Loaded(s, step), Do(s, step);
    assert f != s.threads[t].mainFiber by {
      assert ThreadOk(s, t);
    }
    hide ThreadOk, FiberOk, Do, Loaded, HandsOver, Nested;
    LeaveHandsOver(s, s', t, f, g, if step.YieldBy? then READY else TERM);
    LeaveFibersOk(s, s', t, f, g, if step.YieldBy? then READY else TERM);
    MembersAreOwn(s, t, f);
    MembersAreOwn(s, t, g);
    NestedHandOver(s, s', t, f, g);
  }

  // Creating fibers, with or without a new thread.
  lemma NestedGrow(s: State, step: Step)
    requires Nested(s) && (step.StartWorker? || step.StartCaller? || step.NewFiber?)
    ensures Nested(Do(s, step))
  {
    var s' := Do(s, step);
    var t := |s.threads|;
    forall u: Tid | u < |s'.threads| ensures LocalsExist(s', u) && ThreadOk(s', u) {
      if u < t {
        assert ThreadOk(s, u) && s'.threads[u] == s.threads[u];
      }
    }
    forall u: Tid, h: Fid | Member(s', u, h)
      ensures if u < t then Member(s, u, h) && h < |s.fibers| else u == t && h >= |s.fibers|
    {
      if u < t {
        assert s'.threads[u] == s.threads[u] && LocalsExist(s, u);
      }
    }
    forall u: Tid, v: Tid, h: Fid | Member(s', u, h) && Member(s', v, h) ensures u == v {
      assert u < t <==> h < |s.fibers|;
      assert v < t <==> h < |s.fibers|;
    }
    forall g: Fid | g < |s'.fibers| ensures FiberOk(s', g) {
      if g < |s.fibers| {
        assert FiberOk(s, g);
        forall u | OnCpu(s, u, g) ensures OnCpu(s', u, g) {}
        forall u | Anchors(s, u, g) ensures Anchors(s', u, g) {}
      } else if !step.NewFiber? {
        assert Anchors(s', t, g);
      }
    }
  }

  lemma NestedReset(s: State, f: Fid)
    requires Nested(s) && Designed(s, ResetFiber(f)) && Asserts(s, ResetFiber(f))
    ensures Nested(Do(s, ResetFiber(f)))
  {
    var s' := Do(s, ResetFiber(f));
    forall u: Tid | u < |s'.threads| ensures LocalsExist(s', u) && ThreadOk(s', u) {
      ReadyIsNowhere(s, f, u);
      assert ThreadOk(s, u);
      var l := s.threads[u];
      assert Member(s, u, l.mainFiber) && Member(s, u, l.schedulerFiber) && Member(s, u, l.cpu);
    }
    forall u, h ensures Member(s', u, h) <==> Member(s, u, h) {}
    forall g: Fid | g < |s'.fibers| ensures FiberOk(s', g) {
      if g != f {
        assert FiberOk(s, g);
        forall u | OnCpu(s, u, g) ensures OnCpu(s', u, g) {}
        forall u | Anchors(s, u, g) ensures Anchors(s', u, g) {}
      }
    }
  }

  lemma NestedStep(s: State, step: Step)
    requires Nested(s) && Designed(s, step) && Asserts(s, step)
    ensures Nested(Do(s, step))
  {
    match step
    case ResumeBy(t, f) => NestedResume(s, t, f);
    case YieldBy(_) => NestedLeave(s, step);
    case EndBy(_) => NestedLeave(s, step);
    case ResetFiber(f) => NestedReset(s, f);
    case _ => NestedGrow(s, step);
  }

  // ---------------------------------------------------------------------------
  // Whole runs
  // ---------------------------------------------------------------------------

  ghost predicate Init(s: State) {
    s == State([], [])
  }

  // s' follows s by a step the design allows. A failed assertion ends the run.
  ghost predicate Next(s: State, step: Step, s': State) {
    Designed(s, step) && Asserts(s, step) && s' == Do(s, step)
  }

  ghost predicate Execution(states: seq<State>, steps: seq<Step>) {
    && |states| == |steps| + 1 && Init(states[0])
    && forall i :: 0 <= i < |steps| ==> Next(states[i], steps[i], states[i + 1])
  }

  // In every execution that respects the design, control transfer is nested in
  // every state. So no assertion of yield ever fails, that of resume fails exactly
  // for a fiber that has ended or is on the chain of some thread, and that of reset
  // exactly for a fiber that has not ended.
  lemma {:induction false} NestedAlways(states: seq<State>, steps: seq<Step>, k: nat)
    requires Execution(states, steps) && k <= |steps|
    ensures Nested(states[k])
    ensures forall step :: Designed(states[k], step) ==>
      (Asserts(states[k], step) <==>
        && (step.ResumeBy? ==> Free(states[k], step.f))
        && (step.ResetFiber? ==> states[k].fibers[step.f].state == TERM))
    decreases k
  {
    if k > 0 {
      NestedAlways(states, steps, k - 1);
      assert Next(states[k - 1], steps[k - 1], states[k]);
      NestedStep(states[k - 1], steps[k - 1]);
    }
    forall step | Designed(states[k], step)
      ensures Asserts(states[k], step) <==>
        && (step.ResumeBy? ==> Free(states[k], step.f))
        && (step.ResetFiber? ==> states[k].fibers[step.f].state == TERM)
    {
      AssertsIff(states[k], step);
    }
  }

  // A resume followed by a yield of the resumed fiber comes back to the caller,
  // whoever called. The scheduler's own saved execution survives this exactly
  // if the caller was the scheduler fiber: a task that resumes another task
  // overwrites it, and no later yield on this thread can reach the scheduler.
  lemma ResumeKeepsSchedulerIff(s: State, t: Tid, f: Fid)
    requires Nested(s) && t < |s.threads| && f < |s.fibers|
    requires s.fibers[f].inScheduler && s.fibers[f].state == READY
    requires s.threads[t].cpu != s.threads[t].mainFiber || s.threads[t].mainFiber == s.threads[t].schedulerFiber
    ensures LocalsExist(s, t)
    ensures LocalsExist(Resume(s, t, f), t) && YieldAsserts(Resume(s, t, f), f)
    ensures var s1 := Resume(s, t, f);
      var s2 := Yield(s1, t, f);
      var sched := s.threads[t].schedulerFiber;
      && s1.threads[t].cpu == f
      && s2.threads[t].cpu == s.threads[t].cpu
      && (Saved(s1.fibers[sched], sched) <==> s.threads[t].cpu == sched)
  {
    assert ThreadOk(s, t) && FiberOk(s, f);
  }
}
