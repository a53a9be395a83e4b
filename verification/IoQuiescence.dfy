// When the I/O manager has shut down, nothing is left and nothing was dropped.
module IoQuiescence {
  import opened Common
  import opened IoShutdown

  ghost predicate AllEnded(s: State) {
    s.loops != [] && forall t :: 0 <= t < |s.loops| ==> s.loops[t].idleEnded
  }

  ghost predicate AllExited(s: State) {
    s.loops != [] && forall t :: 0 <= t < |s.loops| ==> s.loops[t].phase.Exited?
  }

  // No idle loop has callbacks in hand that it has not scheduled.
  predicate HoldsCallbacks(l: Loop) {
    (l.phase.Collecting? || l.phase.Posting?) && l.phase.cbs != []
  }

  ghost predicate NobodyHolds(s: State) {
    forall t :: 0 <= t < |s.loops| ==> !HoldsCallbacks(s.loops[t])
  }

  ghost predicate Still(s: State) {
    Quiescent(s) && NobodyHolds(s)
  }

  ghost predicate Inv(s: State) {
    Phases(s) && Counts(s) && Conserved(s) && (AllEnded(s) ==> Quiescent(s))
  }

  lemma QuiescentIsIdle(s: State)
    requires Counts(s) && Quiescent(s)
    ensures s.regs == {} && s.owedOutside == 0
    ensures forall t :: 0 <= t < |s.loops| ==> !s.loops[t].phase.Running? && !s.loops[t].owing
  {
    assert |s.regs| == 0 && BusyLoops(s) == {} && OwingLoops(s) == {};
    forall t: Tid | t < |s.loops| ensures !s.loops[t].phase.Running? && !s.loops[t].owing {
      assert t !in BusyLoops(s) && t !in OwingLoops(s);
    }
  }

  // In a still state every step keeps it still and creates nothing.
  lemma StillStep(s: State, step: Step)
    requires Counts(s) && Still(s) && Enabled(s, step)
    ensures Still(Do(s, step))
    ensures var s' := Do(s, step); s'.made == s.made && s'.executed == s.executed && s'.removed == s.removed
  {
    QuiescentIsIdle(s);
  }

  lemma AllEndedIsStill(s: State)
    requires Phases(s) && AllEnded(s) && Quiescent(s)
    ensures Still(s)
  {
  }

  lemma AllEndedStep(s: State, step: Step)
    requires Inv(s) && Enabled(s, step) && AllEnded(Do(s, step))
    ensures Quiescent(Do(s, step))
  {
    if AllEnded(s) {
      AllEndedIsStill(s);
      StillStep(s, step);
    } else {
      LastToEnd(s, step);
    }
  }

  // Only a successful check ends an idle fiber.
  lemma LastToEnd(s: State, step: Step)
    requires Enabled(s, step) && !AllEnded(s) && AllEnded(Do(s, step))
    ensures step.IdleCheck? && Quiescent(s) && Quiescent(Do(s, step))
  {
    hide RemoveAt;
    var s' := Do(s, step);
    assert |s'.loops| == |s.loops|;
    var t :| 0 <= t < |s.loops| && !s.loops[t].idleEnded;
    assert s'.loops[t].idleEnded;
  }

  lemma NewIsUnregistered(s: State)
    requires Conserved(s)
    ensures s.made !in s.regs
  {
    assert Places(s, s.made) == 0;
  }

  lemma InvStep(s: State, step: Step)
    requires Inv(s) && Enabled(s, step)
    ensures Inv(Do(s, step))
  {
    hide RemoveAt;
    NewIsUnregistered(s);
    PhasesStep(s, step);
    CountsStep(s, step);
    ConservedStep(s, step);
    if AllEnded(Do(s, step)) {
      AllEndedStep(s, step);
    }
    hide Phases, Counts, Conserved, AllEnded, Quiescent, Do;
  }

  lemma InLoopsNothing(loops: seq<Loop>, x: Id)
    requires forall t :: 0 <= t < |loops| ==> Holds(loops[t].phase, x) == 0
    ensures InLoops(loops, x) == 0
  {
    TotalNothing(loops, HoldsOf(x));
  }

  lemma InitInv(s: State)
    requires Init(s)
    ensures Inv(s)
  {
    assert BusyLoops(s) == {} && OwingLoops(s) == {};
    assert s.loops != [] ==> !s.loops[0].idleEnded;
    forall x: Id ensures Places(s, x) == 0 {
      InLoopsNothing(s.loops, x);
    }
  }

  lemma {:induction false} InvAlways(states: seq<State>, steps: seq<Step>, n: nat)
    requires Execution(states, steps) && n <= |steps|
    ensures Inv(states[n])
  {
    if n == 0 {
      InitInv(states[0]);
    } else {
      InvAlways(states, steps, n - 1);
      InvStep(states[n - 1], steps[n - 1]);
    }
  }

  lemma {:induction false} StillStays(states: seq<State>, steps: seq<Step>, k: nat, n: nat)
    requires Steps(states, steps) && k <= n <= |steps| && Inv(states[k]) && Still(states[k])
    ensures Inv(states[n]) && Still(states[n]) && states[n].made == states[k].made
    ensures states[n].executed == states[k].executed && states[n].removed == states[k].removed
    decreases n
  {
    if k < n {
      StillStays(states, steps, k, n - 1);
      InvStep(states[n - 1], steps[n - 1]);
      StillStep(states[n - 1], steps[n - 1]);
      hide Inv, Still;
    }
  }

  // From the check by which the last idle fiber ended there is no timer, no
  // registration, no queued task, no active thread and no callback in hand, and
  // nothing is created any more.
  lemma LastCheckIsFinal(states: seq<State>, steps: seq<Step>, k: nat, n: nat)
    requires Execution(states, steps) && k <= n <= |steps| && AllEnded(states[k])
    ensures Still(states[n]) && states[n].regs == {} && states[n].made == states[k].made
    ensures states[n].executed == states[k].executed && states[n].removed == states[k].removed
  {
    InvAlways(states, steps, k);
    AllEndedIsStill(states[k]);
    StillStays(states, steps, k, n);
    QuiescentIsIdle(states[n]);
  }

  // When all loops have exited, every piece of work ever created was executed or
  // was cancelled or deleted on purpose, and once.
  lemma NothingDropped(states: seq<State>, steps: seq<Step>, n: nat, x: Id)
    requires Execution(states, steps) && n <= |steps| && AllExited(states[n]) && x < states[n].made
    ensures Occurs(states[n].executed, x) + Occurs(states[n].removed, x) == 1
  {
    InvAlways(states, steps, n);
    ExitedDropsNothing(states[n], x);
  }

  lemma ExitedDropsNothing(s: State, x: Id)
    requires Inv(s) && AllExited(s) && x < s.made
    ensures Occurs(s.executed, x) + Occurs(s.removed, x) == 1
  {
    assert forall t: Tid :: t < |s.loops| ==> PhaseOk(s.loops[t]);
    assert AllEnded(s);
    QuiescentIsIdle(s);
    InLoopsNothing(s.loops, x);
    assert Places(s, x) == 1;
  }

  // ---------------------------------------------------------------------------
  // One successful check is not enough
  // ---------------------------------------------------------------------------

  ghost predicate QuiescentForever(s: State) {
    forall states, steps :: Steps(states, steps) && states[0] == s ==> Quiescent(states[|steps|])
  }

  lemma HolderPosts(s: State, u: Tid)
    requires Quiescent(s) && u < |s.loops| && HoldsCallbacks(s.loops[u])
    ensures !QuiescentForever(s)
  {
    if s.loops[u].phase.Posting? {
      var s1 := Do(s, Post(u));
      assert Steps([s, s1], [Post(u)]) && !Quiescent([s, s1][1]);
    } else {
      var s1 := Do(s, EndCollect(u));
      var s2 := Do(s1, Post(u));
      assert Steps([s, s1, s2], [EndCollect(u), Post(u)]) && !Quiescent([s, s1, s2][2]);
    }
  }

  // After a successful check everything stays quiescent if and only if no other
  // idle loop has callbacks in hand.
  lemma CheckIsFinalIff(s: State, t: Tid)
    requires Inv(s) && At(s, t, IdleTop) && Quiescent(s)
    ensures QuiescentForever(Do(s, IdleCheck(t))) <==> NobodyHolds(s)
  {
    var s' := Do(s, IdleCheck(t));
    InvStep(s, IdleCheck(t));
    assert forall u: Tid :: u < |s.loops| && u != t ==> s'.loops[u] == s.loops[u];
    if NobodyHolds(s) {
      assert Still(s');
      forall states, steps | Steps(states, steps) && states[0] == s' ensures Quiescent(states[|steps|]) {
        StillStays(states, steps, 0, |steps|);
      }
    } else {
      var u: Tid :| u < |s.loops| && HoldsCallbacks(s.loops[u]);
      assert u != t && HoldsCallbacks(s'.loops[u]);
      HolderPosts(s', u);
    }
  }

  // Two loops and a timer that has expired: loop 1 collects its callback, then
  // the check of loop 0 succeeds, then loop 1 schedules the callback.
  function TwoLoops(p0: Phase, ended: bool, p1: Phase, timers: set<Id>, queue: seq<Id>): State {
    State(queue, [Loop(p0, ended, false), Loop(p1, false, false)], timers, {}, 0, 0, 0, true, 1, [], [])
  }

  function EarlyStep(i: nat): Step {
    match i
    case 0 => AddTimer(None)
    case 1 => SetStopping
    case 2 => Scan(0, 0)
    case 3 => PickIdle(0)
    case 4 => Scan(1, 0)
    case 5 => PickIdle(1)
    case 6 => IdleCheck(1)
    case 7 => Wake(1)
    case 8 => TakeExpired(1, 0, false)
    case 9 => IdleCheck(0)
    case 10 => EndCollect(1)
    case _ => Post(1)
  }

  function EarlyState(i: nat): State {
    match i
    case 0 => TwoLoops(Scanning, false, Scanning, {}, []).(stopping := false, made := 0)
    case 1 => TwoLoops(Scanning, false, Scanning, {0}, []).(stopping := false)
    case 2 => TwoLoops(Scanning, false, Scanning, {0}, [])
    case 3 => TwoLoops(Empty, false, Scanning, {0}, [])
    case 4 => TwoLoops(IdleTop, false, Scanning, {0}, [])
    case 5 => TwoLoops(IdleTop, false, Empty, {0}, [])
    case 6 => TwoLoops(IdleTop, false, IdleTop, {0}, [])
    case 7 => TwoLoops(IdleTop, false, Sleeping, {0}, [])
    case 8 => TwoLoops(IdleTop, false, Collecting([]), {0}, [])
    case 9 => TwoLoops(IdleTop, false, Collecting([0]), {}, [])
    case 10 => TwoLoops(Scanning, true, Collecting([0]), {}, [])
    case 11 => TwoLoops(Scanning, true, Posting([0]), {}, [])
    case _ => TwoLoops(Scanning, true, Posting([]), {}, [0])
  }

  lemma EarlyRunGoesIdle(i: nat)
    requires i < 6
    ensures Enabled(EarlyState(i), EarlyStep(i)) && Do(EarlyState(i), EarlyStep(i)) == EarlyState(i + 1)
  {
  }

  lemma EarlyRunCollects(i: nat)
    requires 6 <= i < 9
    ensures Enabled(EarlyState(i), EarlyStep(i)) && Do(EarlyState(i), EarlyStep(i)) == EarlyState(i + 1)
  {
    assert {0} - {0} == {} && [] + [0] == [0];
  }

  lemma EarlyRunPosts(i: nat)
    requires 9 <= i < 12
    ensures Enabled(EarlyState(i), EarlyStep(i)) && Do(EarlyState(i), EarlyStep(i)) == EarlyState(i + 1)
  {
    assert [0][1..] == [];
  }

  lemma EarlySuccessHappens() returns (states: seq<State>, steps: seq<Step>)
    ensures Execution(states, steps) && |steps| == 12
    ensures steps[9] == IdleCheck(0) && Quiescent(states[9]) && states[10].loops[0].idleEnded
    ensures !Quiescent(states[12]) && states[12].queue != []
  {
    states, steps := seq(13, i requires 0 <= i => EarlyState(i)), seq(12, i requires 0 <= i => EarlyStep(i));
    assert Init(EarlyState(0)) && Quiescent(EarlyState(9)) && EarlyState(12).queue == [0];
    hide EarlyStep, Enabled, Do;
    forall i | 0 <= i < 12 ensures Enabled(states[i], steps[i]) && states[i + 1] == Do(states[i], steps[i]) {
      if i < 6 {
        EarlyRunGoesIdle(i);
      } else if i < 9 {
        EarlyRunCollects(i);
      } else {
        EarlyRunPosts(i);
      }
    }
  }
}
