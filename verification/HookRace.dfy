// With several run loops the timeout callback can run before the call has
// registered: between addConditionTimer and addEvent of the same round.
//
// Here that round is taken apart. A call that has armed its timer and not yet
// registered is executed by one thread; the steps of all other threads and of
// the timer manager come between. Its status is then Woken: it is in nobody's
// list and is not resumed.
module HookRace {
  import opened Common
  import opened HookWait
  import opened HookRounds

  function Arm(w: World, c: Cid): World
    requires c < |w.calls| && w.calls[c].timeout.Some?
  {
    SetStatus(w, c, Woken(Some(|w.timers|))).(
      timers := w.timers + [TimerRec(c, w.now + w.calls[c].timeout.value, true)])
  }

  function Register(w: World, c: Cid): World
    requires c < |w.calls| && w.calls[c].status.Woken? && w.calls[c].slot < |w.slots|
  {
    SetStatus(w, c, Waiting(w.calls[c].status.timer)).(slots := w.slots[w.calls[c].slot := Some(c)])
  }

  // With nothing in between the two are the round of HookWait.
  lemma ArmThenRegister(w: World, c: Cid, late: int)
    requires c < |w.calls| && w.calls[c].timeout.Some? && w.calls[c].slot < |w.slots|
    ensures Register(Arm(w, c), c) == Wait(w, c, true, late)
  {
    var x := w.calls[c];
    assert w.calls[c := x.(status := Woken(Some(|w.timers|)))][c := x.(status := Waiting(Some(|w.timers|)))]
      == w.calls[c := x.(status := Waiting(Some(|w.timers|)))];
  }

  lemma ArmKeeps(w: World, c: Cid)
    requires Protocol(w) && Reached(w) && Disarmed(w, c) && w.calls[c].timeout.Some?
    ensures Protocol(Arm(w, c)) && Reached(Arm(w, c))
  {
    var w' := Arm(w, c);
    assert CallOk(w, c);
    forall d: Cid | d < |w'.calls| ensures CallOk(w', d) {
      assert CallOk(w, d);
      if d != c {
        CallKept(w, w', d);
      }
    }
    forall k: nat | k < |w'.slots| ensures SlotOk(w', k) {
      assert SlotOk(w, k);
    }
    forall t: TimerId | t < |w'.timers| ensures LiveOk(w', t) {
      assert t < |w.timers| ==> LiveOk(w, t);
    }
    forall d: Cid | Open(w', d) && w'.calls[d].status.Woken? && w'.calls[d].status.timer.Some?
      ensures OnItsWay(w', w'.calls[d].status.timer.value)
    {
      assert d != c ==> Open(w, d);
    }
  }

  // A registration keeps the protocol iff the call has not been cancelled by then.
  lemma RegisterKeepsIff(w: World, c: Cid)
    requires Protocol(w) && Reached(w) && c < |w.calls| && w.calls[c].status.Woken?
    requires w.calls[c].timeout.Some? == w.calls[c].status.timer.Some?
    requires w.calls[c].slot < |w.slots| && w.slots[w.calls[c].slot] == None
    ensures Protocol(Register(w, c)) <==> w.calls[c].cancelledBy.None?
  {
    var w' := Register(w, c);
    assert CallOk(w, c);
    if w.calls[c].cancelledBy.Some? {
      assert !CallOk(w', c);
    } else {
      assert Open(w, c);
      forall d: Cid | d < |w'.calls| ensures CallOk(w', d) {
        assert CallOk(w, d);
        if d != c {
          CallKept(w, w', d);
        }
      }
      forall k: nat | k < |w'.slots| ensures SlotOk(w', k) {
        assert SlotOk(w, k);
      }
      forall t: TimerId | t < |w'.timers| ensures LiveOk(w', t) {
        assert LiveOk(w, t);
      }
    }
  }

  // Step k is a timeout callback of c that acts.
  ghost predicate TimesOutAt(worlds: seq<World>, steps: seq<Step>, c: Cid, k: nat) {
    && k < |steps| && k < |worlds| && steps[k].RunCallback? && Enabled(worlds[k], steps[k])
    && Acts(worlds[k], worlds[k].callbacks[steps[k].i])
    && worlds[k].timers[worlds[k].callbacks[steps[k].i]].call == c
  }

  ghost predicate TimesOutBefore(worlds: seq<World>, steps: seq<Step>, c: Cid, n: nat) {
    exists k: nat :: k < n && TimesOutAt(worlds, steps, c, k)
  }

  lemma TimesOutSplit(worlds: seq<World>, steps: seq<Step>, c: Cid, n: nat)
    requires n > 0
    ensures TimesOutBefore(worlds, steps, c, n) <==>
      TimesOutBefore(worlds, steps, c, n - 1) || TimesOutAt(worlds, steps, c, n - 1)
  {
    if k: nat :| k < n && TimesOutAt(worlds, steps, c, k) {
      assert k < n - 1 || k == n - 1;
    }
  }

  // What the steps in between do to the arming call.
  lemma {:induction false} BetweenKeeps(w: World, c: Cid, worlds: seq<World>, steps: seq<Step>, n: nat)
    requires Protocol(w) && Reached(w) && Round(w, c, worlds, steps) && n <= |steps|
    requires c < |w.calls| && w.calls[c].status.Woken? && w.calls[c].cancelledBy.None?
    ensures Protocol(worlds[n]) && Reached(worlds[n])
    ensures c < |worlds[n].calls| && worlds[n].calls[c].status == w.calls[c].status
    ensures worlds[n].calls[c].slot == w.calls[c].slot && worlds[n].calls[c].timeout == w.calls[c].timeout
    ensures worlds[n].calls[c].cancelledBy.Some? <==> TimesOutBefore(worlds, steps, c, n)
  {
    if n > 0 {
      BetweenKeeps(w, c, worlds, steps, n - 1);
      var v, step := worlds[n - 1], steps[n - 1];
      ProtocolStep(v, step);
      ReachedStep(v, step);
      WokenStays(v, step, c);
      CancelledNow(v, step, c);
      TimesOutSplit(worlds, steps, c, n);
      hide Do, Protocol, Reached;
    }
  }

  lemma WokenStays(w: World, step: Step, c: Cid)
    requires Protocol(w) && Enabled(w, step) && !ResumesCall(step, c) && c < |w.calls| && w.calls[c].status.Woken?
    ensures c < |Do(w, step).calls| && Do(w, step).calls[c].status == w.calls[c].status
    ensures Do(w, step).calls[c].slot == w.calls[c].slot && Do(w, step).calls[c].timeout == w.calls[c].timeout
  {
    match step
    case Begin(_, _, _, _, _, _) =>
      BeginFrame(w, step);
      hide Do;
    case Resume(_, _, _, _) =>
      ResumeFrame(w, step);
      hide Do;
    case RunCallback(i, willing) =>
      CallbackFrame(w, i, willing);
      CallbackSlots(w, i, willing, c);
      hide Do;
    case _ =>
  }

  lemma CallbackSlots(w: World, i: nat, willing: bool, c: Cid)
    requires Enabled(w, RunCallback(i, willing)) && c < |w.calls|
    ensures var w' := Do(w, RunCallback(i, willing));
      c < |w'.calls| && w'.calls[c].slot == w.calls[c].slot && w'.calls[c].timeout == w.calls[c].timeout
  {
    hide RemoveAt;
  }

  // A timed call parks with its flag set iff a timeout callback of it acts between
  // the arming and the registration; else it parks as the protocol says.
  lemma ParksCancelledIff(w: World, c: Cid, worlds: seq<World>, steps: seq<Step>)
    requires Protocol(w) && Reached(w) && Disarmed(w, c)
    requires w.calls[c].timeout.Some? && w.calls[c].cancelledBy.None?
    requires Round(Arm(w, c), c, worlds, steps)
    requires var e := worlds[|steps|]; w.calls[c].slot < |e.slots| && e.slots[w.calls[c].slot] == None
    ensures var e := worlds[|steps|];
      && c < |e.calls| && e.calls[c].status.Woken? && e.calls[c].slot == w.calls[c].slot
      && (Protocol(Register(e, c)) <==> !TimesOutBefore(worlds, steps, c, |steps|))
      && (Register(e, c).calls[c].cancelledBy.Some? <==> TimesOutBefore(worlds, steps, c, |steps|))
  {
    ArmKeeps(w, c);
    BetweenKeeps(Arm(w, c), c, worlds, steps, |steps|);
    RegisterKeepsIff(worlds[|steps|], c);
  }

  lemma {:induction false} RoundTimers(w: World, c: Cid, worlds: seq<World>, steps: seq<Step>, n: nat)
    requires Round(w, c, worlds, steps) && n <= |steps| && c < |w.calls|
    ensures TimersKept(w, worlds[n]) && c < |worlds[n].calls|
  {
    if n > 0 {
      RoundTimers(w, c, worlds, steps, n - 1);
      RoundKept(worlds[n - 1], steps[n - 1], c);
    }
    hide Do, Enabled;
  }

  // How long the gap must be: with no callback of an earlier round on its way, the
  // call can be timed out in a gap of that length iff the timeout is not longer.
  lemma GapIff(w: World, c: Cid, ms: nat)
    requires Protocol(w) && Reached(w) && Disarmed(w, c)
    requires w.calls[c].timeout.Some? && w.calls[c].cancelledBy.None? && !Stale(Arm(w, c), c)
    ensures (exists worlds, steps :: TimesOutIn(w, c, ms, worlds, steps)) <==> w.calls[c].timeout.value <= ms
  {
    assert CallOk(w, c);
    if w.calls[c].timeout.value <= ms {
      ItCanHappen(w, c, ms);
    } else {
      forall worlds, steps ensures !TimesOutIn(w, c, ms, worlds, steps) {
        if Round(Arm(w, c), c, worlds, steps) && TimesOutBefore(worlds, steps, c, |steps|) {
          TimesOutLate(w, c, worlds, steps);
        }
      }
    }
  }

  // The timeout acts in a gap of ms.
  ghost predicate TimesOutIn(w: World, c: Cid, ms: nat, worlds: seq<World>, steps: seq<Step>)
    requires c < |w.calls| && w.calls[c].timeout.Some?
  {
    && Round(Arm(w, c), c, worlds, steps) && TimesOutBefore(worlds, steps, c, |steps|)
    && worlds[|steps|].now == w.now + ms
  }

  lemma TimesOutLate(w: World, c: Cid, worlds: seq<World>, steps: seq<Step>)
    requires Protocol(w) && Reached(w) && Disarmed(w, c)
    requires w.calls[c].timeout.Some? && w.calls[c].cancelledBy.None? && !Stale(Arm(w, c), c)
    requires Round(Arm(w, c), c, worlds, steps) && TimesOutBefore(worlds, steps, c, |steps|)
    ensures worlds[|steps|].now >= w.now + w.calls[c].timeout.value
  {
    var w0, e := Arm(w, c), worlds[|steps|];
    ArmKeeps(w, c);
    BetweenKeeps(w0, c, worlds, steps, |steps|);
    OwnRoundStays(w0, c, worlds, steps, |steps|);
    RoundTimers(w0, c, worlds, steps, |steps|);
    assert CallOk(e, c);
    hide Protocol, Reached, Round;
  }

  // A call parked with its flag set has no timeout any more: its callbacks do
  // nothing, and only a trigger of its slot wakes it, its own event or what
  // another call on the slot does.
  lemma OnlyATriggerWakes(w: World, c: Cid, step: Step)
    requires c < |w.calls| && w.calls[c].status.Waiting? && w.calls[c].cancelledBy.Some?
    requires Enabled(w, step)
    ensures forall t: TimerId :: t < |w.timers| && w.timers[t].call == c ==> !Acts(w, t)
    ensures c < |Do(w, step).calls|
    ensures Do(w, step).calls[c].status != w.calls[c].status ==>
      || (step.Fire? && w.slots[step.slot] == Some(c))
      || (step.RunCallback? && w.timers[w.callbacks[step.i]].call != c)
  {
    match step
    case Begin(_, _, _, _, _, _) =>
      BeginFrame(w, step);
      hide Do;
    case Resume(_, _, _, _) =>
      ResumeFrame(w, step);
      hide Do;
    case RunCallback(i, willing) =>
      hide RemoveAt;
    case _ =>
  }

  // It then reports a timeout, whatever woke it.
  lemma WokenCancelledTimesOut(w: World, c: Cid, step: Step)
    requires Enabled(w, step) && ResumesCall(step, c) && w.calls[c].cancelledBy.Some?
    ensures Do(w, step).calls[c].status == Returned(TimedOut(w.now))
  {
  }

  // The case occurs: with a deadline that has passed by then, the timer is
  // collected and its callback run before the registration.
  lemma ItCanHappen(w: World, c: Cid, ms: nat)
    requires c < |w.calls| && w.calls[c].timeout.Some? && w.calls[c].cancelledBy.None?
    requires w.calls[c].timeout.value <= ms && w.calls[c].slot < |w.slots|
    ensures exists worlds, steps :: TimesOutIn(w, c, ms, worlds, steps)
  {
    hide FireSlot, RemoveAt;
    var t, i := |w.timers|, |w.callbacks|;
    var w0 := Arm(w, c);
    var w1 := Do(w0, Tick(ms));
    var w2 := Do(w1, Expire(t));
    assert w2.callbacks[i] == t && Acts(w2, t) && w2.timers[t].call == c;
    var w3 := Do(w2, RunCallback(i, true));
    CallbackFrame(w2, i, true);
    assert w3.now == w.now + ms;
    hide Do, Acts, Arm;
    var worlds, steps := [w0, w1, w2, w3], [Tick(ms), Expire(t), RunCallback(i, true)];
    assert TimesOutAt(worlds, steps, c, 2);
    assert Round(w0, c, worlds, steps);
    assert TimesOutIn(w, c, ms, worlds, steps);
  }
}
