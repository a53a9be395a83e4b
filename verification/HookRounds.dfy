// When the timeout of one round of a hooked call ends a later round.
//
// The timers of all rounds share the flag of the call. A callback that was
// collected before its round disarmed the timer stays on its way, and it ends
// whatever round the call has reached when it runs.
module HookRounds {
  import opened Common
  import opened HookWait

  // The call has not returned and is not cancelled.
  predicate Open(w: World, c: Cid) {
    c < |w.calls| && !w.calls[c].status.Returned? && w.calls[c].cancelledBy.None?
  }

  // Callback i belongs to an earlier round of c.
  predicate StaleAt(w: World, c: Cid, i: nat) {
    && c < |w.calls| && !w.calls[c].status.Returned?
    && i < |w.callbacks| && w.callbacks[i] < |w.timers|
    && w.timers[w.callbacks[i]].call == c && w.calls[c].status.timer != Some(w.callbacks[i])
  }

  ghost predicate Stale(w: World, c: Cid) {
    exists i: nat :: StaleAt(w, c, i)
  }

  // timer->cancel() of the round that ends would answer false.
  predicate CancelFails(w: World, c: Cid) {
    && c < |w.calls| && w.calls[c].status.Woken? && w.calls[c].status.timer.Some?
    && w.calls[c].status.timer.value < |w.timers| && !w.timers[w.calls[c].status.timer.value].live
  }

  // The timer is live or its callback is on its way.
  predicate OnItsWay(w: World, t: TimerId) {
    t < |w.timers| && (w.timers[t].live || t in w.callbacks)
  }

  // The timer of a woken call that is not cancelled is live or its callback is
  // on its way.
  ghost predicate Reached(w: World) {
    forall c: Cid {:trigger Open(w, c)} :: Open(w, c) && w.calls[c].status.Woken? && w.calls[c].status.timer.Some? ==>
      OnItsWay(w, w.calls[c].status.timer.value)
  }

  predicate ResumesCall(step: Step, c: Cid) {
    step.Resume? && step.c == c
  }

  // What a round of call d leaves alone.
  lemma AttemptFrame(w: World, d: Cid, outcome: Outcome, willing: bool, late: int)
    requires d < |w.calls| && w.calls[d].slot < |w.slots|
    ensures var w' := Attempt(w, d, outcome, willing, late);
      && w'.callbacks == w.callbacks && |w'.calls| == |w.calls|
      && (forall c :: 0 <= c < |w.calls| && c != d ==> w'.calls[c] == w.calls[c])
      && w'.calls[d].cancelledBy == w.calls[d].cancelledBy && !w'.calls[d].status.Woken?
      && (w'.calls[d].status.Waiting? ==>
            w'.calls[d].status.timer == if w.calls[d].timeout.Some? then Some(|w.timers|) else None)
      && |w.timers| <= |w'.timers| && (forall t :: 0 <= t < |w.timers| ==> w'.timers[t] == w.timers[t])
  {
  }

  lemma BeginFrame(w: World, step: Step)
    requires Enabled(w, step) && step.Begin?
    ensures var w' := Do(w, step);
      && w'.callbacks == w.callbacks && |w'.calls| == |w.calls| + 1
      && (forall c :: 0 <= c < |w.calls| ==> w'.calls[c] == w.calls[c])
      && w'.calls[|w.calls|].cancelledBy == None && !w'.calls[|w.calls|].status.Woken?
      && |w.timers| <= |w'.timers| && (forall t :: 0 <= t < |w.timers| ==> w'.timers[t] == w.timers[t])
  {
    var w1 := w.(calls := w.calls + [Call(step.kind, step.slot, step.timeout, w.now, None, Woken(None))]);
    AttemptFrame(w1, |w.calls|, step.outcome, step.willing, step.late);
    hide Attempt;
  }

  lemma ResumeFrame(w: World, step: Step)
    requires Enabled(w, step) && step.Resume?
    ensures var w' := Do(w, step);
      && w'.callbacks == w.callbacks && |w'.calls| == |w.calls| && TimersKept(w, w')
      && (forall c :: 0 <= c < |w.calls| && c != step.c ==> w'.calls[c] == w.calls[c])
      && w'.calls[step.c].cancelledBy == w.calls[step.c].cancelledBy && !w'.calls[step.c].status.Woken?
      && (w'.calls[step.c].status.Waiting? ==>
            w'.calls[step.c].status.timer == if w.calls[step.c].timeout.Some? then Some(|w.timers|) else None)
      && (w'.calls[step.c].status.Waiting? ==> w.calls[step.c].cancelledBy.None?)
      && (forall t :: 0 <= t < |w.timers| && Some(t) != w.calls[step.c].status.timer ==> w'.timers[t] == w.timers[t])
  {
    var w1 := CancelTimer(w, w.calls[step.c].status.timer);
    if w.calls[step.c].cancelledBy.None? {
      AttemptFrame(w1, step.c, step.outcome, step.willing, step.late);
    }
    hide Attempt;
  }

  lemma FireFrame(w: World, k: nat)
    requires k < |w.slots|
    ensures var w' := FireSlot(w, k);
      && w'.callbacks == w.callbacks && |w'.calls| == |w.calls| && w'.timers == w.timers && w'.now == w.now
      && forall c :: 0 <= c < |w.calls| ==>
          && w'.calls[c].cancelledBy == w.calls[c].cancelledBy
          && (if w.calls[c].status.Waiting? && w'.calls[c] != w.calls[c] then
                w'.calls[c].status == Woken(w.calls[c].status.timer)
              else w'.calls[c].status == w.calls[c].status)
  {
  }

  lemma CallbackFrame(w: World, i: nat, willing: bool)
    requires Enabled(w, RunCallback(i, willing))
    ensures var w' := Do(w, RunCallback(i, willing));
      var d := w.timers[w.callbacks[i]].call;
      && w'.callbacks == RemoveAt(w.callbacks, i) && |w'.calls| == |w.calls| && w'.timers == w.timers
      && w'.now == w.now
      && (forall c :: 0 <= c < |w.calls| ==>
            && w'.calls[c].cancelledBy ==
              (if c == d && Acts(w, w.callbacks[i]) then Some(w.callbacks[i]) else w.calls[c].cancelledBy)
            && w'.calls[c].status.Returned? == w.calls[c].status.Returned?
            && (!w.calls[c].status.Returned? ==> w'.calls[c].status.timer == w.calls[c].status.timer)
            && (w'.calls[c].status == w.calls[c].status || w.calls[c].status.Waiting?))
  {
    var t := w.callbacks[i];
    var d := w.timers[t].call;
    var w1 := w.(callbacks := RemoveAt(w.callbacks, i));
    if Acts(w, t) && willing {
      FireFrame(w1.(calls := w.calls[d := w.calls[d].(cancelledBy := Some(t))]), w.calls[d].slot);
    }
    hide FireSlot, RemoveAt;
  }

  // A call that is open after a step was open before it.
  lemma OpenBefore(w: World, step: Step, c: Cid)
    requires Enabled(w, step) && c < |w.calls| && Open(Do(w, step), c)
    ensures Open(w, c)
  {
    match step
    case Begin(_, _, _, _, _, _) => BeginFrame(w, step);
    case Resume(_, _, _, _) => ResumeFrame(w, step);
    case Fire(k) => FireFrame(w, k);
    case RunCallback(i, willing) => CallbackFrame(w, i, willing);
    case _ =>
    hide Do, Enabled;
  }

  // Only the call's own resume changes its timer.
  lemma RoundKept(w: World, step: Step, c: Cid)
    requires Enabled(w, step) && c < |w.calls| && !ResumesCall(step, c)
    ensures TimersKept(w, Do(w, step)) && c < |Do(w, step).calls|
    ensures w.calls[c].status.Returned? == Do(w, step).calls[c].status.Returned?
    ensures !w.calls[c].status.Returned? ==> Do(w, step).calls[c].status.timer == w.calls[c].status.timer
  {
    match step
    case Begin(_, _, _, _, _, _) =>
      BeginFrame(w, step);
      hide Do;
    case Resume(_, _, _, _) =>
      ResumeFrame(w, step);
      hide Do;
    case Fire(k) =>
      FireFrame(w, k);
      hide FireSlot;
    case RunCallback(i, willing) =>
      CallbackFrame(w, i, willing);
      hide Do;
    case _ =>
  }

  lemma ReachedKept(w: World, step: Step, c: Cid)
    requires Protocol(w) && Enabled(w, step) && !ResumesCall(step, c) && Open(w, c) && Open(Do(w, step), c)
    requires w.calls[c].status.timer.Some? && OnItsWay(w, w.calls[c].status.timer.value)
    ensures OnItsWay(Do(w, step), w.calls[c].status.timer.value)
  {
    var t := w.calls[c].status.timer.value;
    assert CallOk(w, c);
    match step
    case Begin(_, _, _, _, _, _) =>
      BeginFrame(w, step);
      hide Do;
    case Resume(d, _, _, _) =>
      assert CallOk(w, d);
      ResumeFrame(w, step);
      hide Do;
    case Fire(k) =>
      FireFrame(w, k);
      hide FireSlot;
    case RunCallback(i, willing) =>
      CallbackFrame(w, i, willing);
      RemoveAtMembers(w.callbacks, i, t);
      hide Do;
    case _ =>
  }

  lemma ReachedStep(w: World, step: Step)
    requires Protocol(w) && Reached(w) && Enabled(w, step)
    ensures Reached(Do(w, step))
  {
    var w' := Do(w, step);
    forall c: Cid | Open(w', c) && w'.calls[c].status.Woken? && w'.calls[c].status.timer.Some?
      ensures OnItsWay(w', w'.calls[c].status.timer.value)
    {
      if step.Begin? {
        BeginFrame(w, step);
      } else if step.Resume? {
        ResumeFrame(w, step);
      }
      hide Do;
      assert c < |w.calls| && !ResumesCall(step, c) by {
        if !step.Begin? && !step.Resume? {
          CallsKept(w, step);
        }
      }
      OpenBefore(w, step, c);
      RoundKept(w, step, c);
      assert CallOk(w, c);
      ReachedKept(w, step, c);
    }
  }

  lemma CallsKept(w: World, step: Step)
    requires Enabled(w, step)
    ensures |Do(w, step).calls| == |w.calls| + if step.Begin? then 1 else 0
  {
    match step
    case Begin(_, _, _, _, _, _) =>
      BeginFrame(w, step);
      hide Do;
    case Resume(_, _, _, _) =>
      ResumeFrame(w, step);
      hide Do;
    case Fire(k) =>
      FireFrame(w, k);
      hide FireSlot;
    case RunCallback(i, willing) =>
      CallbackFrame(w, i, willing);
      hide Do;
    case _ =>
  }

  // No step but the call's own resume makes a callback stale or removes a stale
  // one from a call that stays open.
  lemma StaleKept(w: World, step: Step, c: Cid)
    requires Protocol(w) && Enabled(w, step) && c < |w.calls| && !ResumesCall(step, c) && Open(Do(w, step), c)
    ensures Stale(Do(w, step), c) <==> Stale(w, c)
  {
    OpenBefore(w, step, c);
    RoundKept(w, step, c);
    match step
    case RunCallback(j, willing) => StaleKeptByCallback(w, j, willing, c);
    case Expire(t) => StaleKeptByExpire(w, t, c);
    case _ =>
      SameCallbacks(w, step);
      assert forall i :: 0 <= i < |w.callbacks| ==> w.callbacks[i] < |w.timers|;
      hide Do, Protocol, Enabled;
      forall i: nat ensures StaleAt(Do(w, step), c, i) <==> StaleAt(w, c, i) {}
  }

  lemma StaleKeptByCallback(w: World, j: nat, willing: bool, c: Cid)
    requires Enabled(w, RunCallback(j, willing)) && Open(w, c) && Open(Do(w, RunCallback(j, willing)), c)
    ensures Stale(Do(w, RunCallback(j, willing)), c) <==> Stale(w, c)
  {
    var w' := Do(w, RunCallback(j, willing));
    CallbackFrame(w, j, willing);
    hide Do;
    forall i: nat | StaleAt(w', c, i) ensures Stale(w, c) {
      assert StaleAt(w, c, if i < j then i else i + 1);
    }
    forall i: nat | StaleAt(w, c, i) ensures Stale(w', c) {
      assert i != j;
      assert StaleAt(w', c, if i < j then i else i - 1);
    }
  }

  lemma StaleKeptByExpire(w: World, t: TimerId, c: Cid)
    requires Protocol(w) && Enabled(w, Expire(t)) && Open(w, c)
    ensures Stale(Do(w, Expire(t)), c) <==> Stale(w, c)
  {
    var w' := Do(w, Expire(t));
    assert LiveOk(w, t);
    hide Protocol;
    forall i: nat | StaleAt(w', c, i) ensures Stale(w, c) {
      assert i < |w.callbacks|;
      assert StaleAt(w, c, i);
    }
    forall i: nat | StaleAt(w, c, i) ensures Stale(w', c) {
      assert StaleAt(w', c, i);
    }
  }

  lemma SameCallbacks(w: World, step: Step)
    requires Enabled(w, step) && !step.RunCallback? && !step.Expire?
    ensures Do(w, step).callbacks == w.callbacks
  {
    match step
    case Begin(_, _, _, _, _, _) =>
      BeginFrame(w, step);
      hide Do;
    case Resume(_, _, _, _) =>
      ResumeFrame(w, step);
      hide Do;
    case Fire(k) =>
      FireFrame(w, k);
      hide FireSlot;
    case _ =>
  }

  // A resume that goes into another round has a stale callback after it iff it
  // had one before, or the cancel of the round that ended came too late.
  lemma ResumeMakesStaleIff(w: World, step: Step, c: Cid)
    requires Protocol(w) && Reached(w) && Enabled(w, step) && ResumesCall(step, c) && Open(Do(w, step), c)
    ensures Stale(Do(w, step), c) <==> Stale(w, c) || CancelFails(w, c)
  {
    var w' := Do(w, step);
    ResumeFrame(w, step);
    assert Open(w, c) && CallOk(w, c);
    assert forall i :: 0 <= i < |w.callbacks| ==> w.callbacks[i] < |w.timers| && !w.timers[w.callbacks[i]].live;
    hide Do, Protocol;
    forall i: nat | StaleAt(w', c, i) ensures Stale(w, c) || CancelFails(w, c) {
      assert StaleAt(w, c, i) || w.calls[c].status.timer == Some(w.callbacks[i]);
    }
    forall i: nat | StaleAt(w, c, i) ensures Stale(w', c) {
      assert StaleAt(w', c, i);
    }
    if CancelFails(w, c) {
      var t := w.calls[c].status.timer.value;
      var i: nat :| i < |w.callbacks| && w.callbacks[i] == t;
      assert StaleAt(w', c, i);
    }
  }

  // ---------------------------------------------------------------------------
  // Whole runs
  // ---------------------------------------------------------------------------

  ghost predicate Accepted(steps: seq<Step>) {
    forall i :: 0 <= i < |steps| ==> Accepting(steps[i])
  }

  // Step k is a resume of c whose timer->cancel() answered false.
  ghost predicate LateCancelAt(worlds: seq<World>, steps: seq<Step>, c: Cid, k: nat) {
    k < |steps| && k < |worlds| && ResumesCall(steps[k], c) && CancelFails(worlds[k], c)
  }

  ghost predicate LateCancelBefore(worlds: seq<World>, steps: seq<Step>, c: Cid, n: nat) {
    exists k: nat :: k < n && LateCancelAt(worlds, steps, c, k)
  }

  lemma {:induction false} ReachedAlways(worlds: seq<World>, steps: seq<Step>, n: nat)
    requires Execution(worlds, steps) && Accepted(steps) && n <= |steps|
    ensures Protocol(worlds[n]) && Reached(worlds[n])
  {
    ProtocolAlways(worlds, steps, n);
    if n > 0 {
      ReachedAlways(worlds, steps, n - 1);
      ReachedStep(worlds[n - 1], steps[n - 1]);
    }
  }

  lemma {:induction false} CallsGrow(worlds: seq<World>, steps: seq<Step>, k: nat, n: nat)
    requires Execution(worlds, steps) && k <= n <= |steps|
    ensures |worlds[k].calls| <= |worlds[n].calls|
    decreases n
  {
    if k < n {
      CallsGrow(worlds, steps, k, n - 1);
      CallsKept(worlds[n - 1], steps[n - 1]);
    }
  }

  // A call has a callback of an earlier round on its way iff the cancel of some
  // earlier round answered false.
  lemma {:induction false} StaleIff(worlds: seq<World>, steps: seq<Step>, n: nat, c: Cid)
    requires Execution(worlds, steps) && Accepted(steps) && n <= |steps| && Open(worlds[n], c)
    ensures Stale(worlds[n], c) <==> LateCancelBefore(worlds, steps, c, n)
  {
    if n > 0 {
      var w, step := worlds[n - 1], steps[n - 1];
      ReachedAlways(worlds, steps, n - 1);
      hide Reached;
      if c >= |w.calls| {
        NewCallIsClean(worlds, steps, n, c);
      } else {
        OpenBefore(w, step, c);
        StaleIff(worlds, steps, n - 1, c);
        LateCancelSplit(worlds, steps, c, n);
        if ResumesCall(step, c) {
          ResumeMakesStaleIff(w, step, c);
        } else {
          StaleKept(w, step, c);
        }
      }
    }
  }

  lemma LateCancelSplit(worlds: seq<World>, steps: seq<Step>, c: Cid, n: nat)
    requires n > 0
    ensures LateCancelBefore(worlds, steps, c, n) <==>
      LateCancelBefore(worlds, steps, c, n - 1) || LateCancelAt(worlds, steps, c, n - 1)
  {
    if k: nat :| k < n && LateCancelAt(worlds, steps, c, k) {
      assert k < n - 1 || k == n - 1;
    }
  }

  lemma NewCallIsClean(worlds: seq<World>, steps: seq<Step>, n: nat, c: Cid)
    requires Execution(worlds, steps) && 0 < n <= |steps| && Protocol(worlds[n - 1])
    requires c >= |worlds[n - 1].calls| && Open(worlds[n], c)
    ensures !Stale(worlds[n], c) && !LateCancelBefore(worlds, steps, c, n)
  {
    var w, step := worlds[n - 1], steps[n - 1];
    CallsKept(w, step);
    BeginFrame(w, step);
    forall i: nat ensures !StaleAt(worlds[n], c, i) {
      if i < |w.callbacks| {
        assert LiveOk(w, w.callbacks[i]);
      }
    }
    forall k: nat | k < n ensures !LateCancelAt(worlds, steps, c, k) {
      CallsGrow(worlds, steps, k, n - 1);
    }
  }

  // ---------------------------------------------------------------------------
  // The rest of a round
  // ---------------------------------------------------------------------------

  // From a parked call on, up to its next resume.
  ghost predicate Round(w: World, c: Cid, worlds: seq<World>, steps: seq<Step>) {
    && |worlds| == |steps| + 1 && worlds[0] == w && Accepted(steps)
    && forall i :: 0 <= i < |steps| ==>
        Enabled(worlds[i], steps[i]) && !ResumesCall(steps[i], c) && worlds[i + 1] == Do(worlds[i], steps[i])
  }

  // The call is cancelled, and not by the timer of its round.
  predicate CancelledByEarlier(w: World, c: Cid) {
    && c < |w.calls| && !w.calls[c].status.Returned?
    && w.calls[c].cancelledBy.Some? && w.calls[c].cancelledBy != w.calls[c].status.timer
  }

  ghost predicate EarlierRoundMayEnd(w: World, c: Cid) {
    exists worlds, steps :: Round(w, c, worlds, steps) && CancelledByEarlier(worlds[|steps|], c)
  }

  // Without a stale callback the round stays open or is ended by its own timer.
  ghost predicate OwnRound(w: World, c: Cid) {
    && c < |w.calls| && !w.calls[c].status.Returned?
    && (if w.calls[c].cancelledBy.None? then !Stale(w, c) else w.calls[c].cancelledBy == w.calls[c].status.timer)
  }

  lemma OwnRoundStep(w: World, step: Step, c: Cid)
    requires Protocol(w) && OwnRound(w, c) && Enabled(w, step) && !ResumesCall(step, c)
    ensures OwnRound(Do(w, step), c)
  {
    RoundKept(w, step, c);
    var w' := Do(w, step);
    if Open(w', c) {
      OpenBefore(w, step, c);
      StaleKept(w, step, c);
    } else {
      CancelledNow(w, step, c);
    }
    hide Do, Protocol, Stale;
  }

  // Only a callback of the call cancels it, and the flag keeps the first one.
  lemma CancelledNow(w: World, step: Step, c: Cid)
    requires Enabled(w, step) && c < |w.calls|
    ensures c < |Do(w, step).calls|
    ensures Do(w, step).calls[c].cancelledBy ==
      if step.RunCallback? && Acts(w, w.callbacks[step.i]) && w.timers[w.callbacks[step.i]].call == c
      then Some(w.callbacks[step.i]) else w.calls[c].cancelledBy
    ensures step.RunCallback? && Open(w, c) && !Stale(w, c) && Do(w, step).calls[c].cancelledBy.Some? ==>
      Do(w, step).calls[c].cancelledBy == w.calls[c].status.timer
  {
    match step
    case Begin(_, _, _, _, _, _) =>
      BeginFrame(w, step);
      hide Do;
    case Resume(_, _, _, _) =>
      ResumeFrame(w, step);
      hide Do;
    case Fire(k) =>
      FireFrame(w, k);
      hide FireSlot;
    case RunCallback(i, willing) =>
      CallbackFrame(w, i, willing);
      hide Do;
      assert Open(w, c) && w.timers[w.callbacks[i]].call == c && !Stale(w, c) ==> !StaleAt(w, c, i);
    case _ =>
  }

  lemma {:induction false} OwnRoundStays(w: World, c: Cid, worlds: seq<World>, steps: seq<Step>, n: nat)
    requires Protocol(w) && OwnRound(w, c) && Round(w, c, worlds, steps) && n <= |steps|
    ensures Protocol(worlds[n]) && OwnRound(worlds[n], c)
  {
    if n > 0 {
      OwnRoundStays(w, c, worlds, steps, n - 1);
      ProtocolStep(worlds[n - 1], steps[n - 1]);
      OwnRoundStep(worlds[n - 1], steps[n - 1], c);
    }
  }

  // The timeout of an earlier round can end the round a call is parked in iff a
  // callback of an earlier round is on its way when it parks.
  lemma EarlierRoundIff(w: World, c: Cid)
    requires Protocol(w) && c < |w.calls| && w.calls[c].status.Waiting?
    ensures EarlierRoundMayEnd(w, c) <==> Stale(w, c)
  {
    assert CallOk(w, c);
    if Stale(w, c) {
      var i: nat :| StaleAt(w, c, i);
      StaleCallbackEnds(w, c, i);
    } else {
      forall worlds, steps | Round(w, c, worlds, steps) ensures !CancelledByEarlier(worlds[|steps|], c) {
        OwnRoundStays(w, c, worlds, steps, |steps|);
      }
    }
  }

  lemma StaleCallbackEnds(w: World, c: Cid, i: nat)
    requires Protocol(w) && Open(w, c) && StaleAt(w, c, i)
    ensures EarlierRoundMayEnd(w, c)
  {
    var step := RunCallback(i, true);
    assert CallOk(w, c);
    assert Enabled(w, step);
    CallbackFrame(w, i, true);
    assert Round(w, c, [w, Do(w, step)], [step]);
    hide Do;
    assert CancelledByEarlier([w, Do(w, step)][1], c);
  }

  // In terms of the code, over whole runs: the round in which c is parked can be
  // ended by an earlier timeout iff timer->cancel() answered false in one of the
  // earlier rounds.
  lemma EarlierRoundIffLateCancel(worlds: seq<World>, steps: seq<Step>, n: nat, c: Cid)
    requires Execution(worlds, steps) && Accepted(steps) && n <= |steps|
    requires c < |worlds[n].calls| && worlds[n].calls[c].status.Waiting?
    ensures EarlierRoundMayEnd(worlds[n], c) <==> LateCancelBefore(worlds, steps, c, n)
  {
    ReachedAlways(worlds, steps, n);
    assert CallOk(worlds[n], c);
    StaleIff(worlds, steps, n, c);
    EarlierRoundIff(worlds[n], c);
  }

  // A round that no earlier timeout can end does not time out before the deadline
  // of its own timer.
  lemma OwnRoundNotEarly(w: World, c: Cid, worlds: seq<World>, steps: seq<Step>, last: Step)
    requires Protocol(w) && c < |w.calls| && w.calls[c].status.Waiting? && !Stale(w, c)
    requires Round(w, c, worlds, steps)
    requires var e := worlds[|steps|]; Enabled(e, last) && ResumesCall(last, c) && e.calls[c].cancelledBy.Some?
    ensures var e := worlds[|steps|]; var r := Do(e, last).calls[c].status;
      && r == Returned(TimedOut(e.now))
      && e.calls[c].status.timer.Some? && e.calls[c].status.timer.value < |e.timers|
      && e.now >= e.timers[e.calls[c].status.timer.value].deadline
  {
    assert CallOk(w, c);
    OwnRoundStays(w, c, worlds, steps, |steps|);
    assert CallOk(worlds[|steps|], c);
  }
}
