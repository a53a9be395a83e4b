// What the hooked calls return, and when their timers are due, over whole runs of the
// wait protocol.
module HookResults {
  import opened Common
  import opened HookWait

  // The step ends call c with result r: a value is what the wrapped function answered
  // in this very step (connect asks getsockopt after a refused registration).
  ghost predicate Ends(w: World, step: Step, c: Cid, r: Result) {
    match step
    case Begin(kind, _, _, outcome, willing, late) => c == |w.calls| && EndsWith(kind, outcome, willing, late, r)
    case Resume(d, outcome, willing, late) =>
      && c == d && c < |w.calls|
      && if w.calls[c].cancelledBy.Some? then r == TimedOut(w.now)
         else EndsWith(w.calls[c].kind, outcome, willing, late, r)
    case _ => false
  }

  predicate EndsWith(kind: Kind, outcome: Outcome, willing: bool, late: int, r: Result) {
    match outcome
    case Done(v) => r == Value(v)
    case Again => !willing && r == if kind.Io? then AddFailed else Value(late)
  }

  predicate HasReturned(w: World, c: Cid, r: Result) {
    c < |w.calls| && w.calls[c].status == Returned(r)
  }

  lemma AttemptReturns(w: World, c: Cid, outcome: Outcome, willing: bool, late: int, d: Cid, r: Result)
    requires c < |w.calls| && w.calls[c].slot < |w.slots| && !w.calls[c].status.Returned?
    ensures HasReturned(Attempt(w, c, outcome, willing, late), d, r) <==>
      if d == c then EndsWith(w.calls[c].kind, outcome, willing, late, r) else HasReturned(w, d, r)
  {
  }

  // Events and callbacks end no call.
  lemma OthersReturnNothing(w: World, step: Step, c: Cid, r: Result)
    requires Enabled(w, step) && !step.Begin? && !step.Resume?
    ensures HasReturned(Do(w, step), c, r) <==> HasReturned(w, c, r)
  {
    hide RemoveAt;
  }

  lemma ReturnStep(w: World, step: Step, c: Cid, r: Result)
    requires Enabled(w, step)
    ensures HasReturned(Do(w, step), c, r) <==> HasReturned(w, c, r) || Ends(w, step, c, r)
  {
    match step
    case Begin(kind, k, timeout, outcome, willing, late) =>
      var w1 := w.(calls := w.calls + [Call(kind, k, timeout, w.now, None, Woken(None))]);
      AttemptReturns(w1, |w.calls|, outcome, willing, late, c, r);
      hide Attempt, EndsWith;
    case Resume(d, outcome, willing, late) =>
      var w1 := CancelTimer(w, w.calls[d].status.timer);
      assert w1.calls == w.calls && w1.slots == w.slots;
      hide CancelTimer;
      if w.calls[d].cancelledBy.None? {
        AttemptReturns(w1, d, outcome, willing, late, c, r);
      }
      hide Attempt, EndsWith;
    case _ => OthersReturnNothing(w, step, c, r);
  }

  lemma NothingReturned(w: World, c: Cid, r: Result)
    requires Init(w)
    ensures !HasReturned(w, c, r)
  {
  }

  // Over every run: a call has returned r iff one of its steps ended it with r. So a
  // value is what the wrapped function answered, and ETIMEDOUT is reported by exactly
  // the calls that wake up cancelled.
  lemma {:induction false} ReturnedIff(worlds: seq<World>, steps: seq<Step>, n: nat, c: Cid, r: Result)
    requires Execution(worlds, steps) && n <= |steps|
    ensures HasReturned(worlds[n], c, r) <==> exists i :: 0 <= i < n && Ends(worlds[i], steps[i], c, r)
  {
    hide Ends, HasReturned, Do, Enabled;
    if n == 0 {
      NothingReturned(worlds[0], c, r);
    } else {
      assert Enabled(worlds[n - 1], steps[n - 1]) && worlds[n] == Do(worlds[n - 1], steps[n - 1]);
      ReturnedIff(worlds, steps, n - 1, c, r);
      ReturnStep(worlds[n - 1], steps[n - 1], c, r);
    }
  }

  // And that was its last round: no later step tries the operation again.
  lemma LastRoundAnswers(worlds: seq<World>, steps: seq<Step>, n: nat, c: Cid, r: Result) returns (i: nat)
    requires Execution(worlds, steps) && n <= |steps|
    requires c < |worlds[n].calls| && worlds[n].calls[c].status == Returned(r)
    ensures i < n && Ends(worlds[i], steps[i], c, r)
    ensures forall j :: i < j < n ==> !(steps[j].Resume? && steps[j].c == c)
  {
    hide Do, Ends;
    ReturnedIff(worlds, steps, n, c, r);
    i :| 0 <= i < n && Ends(worlds[i], steps[i], c, r);
    forall j | i < j < n ensures !(steps[j].Resume? && steps[j].c == c) {
      ReturnedIff(worlds, steps, j, c, r);
      assert HasReturned(worlds[j], c, r) && Enabled(worlds[j], steps[j]);
    }
  }

  // The step makes the timer r: due its call's timeout from now.
  ghost predicate Arms(w: World, step: Step, r: TimerRec) {
    match step
    case Begin(_, _, timeout, _, _, _) =>
      r.call == |w.calls| && timeout.Some? && r.deadline == w.now + timeout.value
    case Resume(c, _, _, _) =>
      && r.call == c && c < |w.calls| && w.calls[c].timeout.Some?
      && r.deadline == w.now + w.calls[c].timeout.value
    case _ => false
  }

  lemma AttemptArms(w: World, c: Cid, outcome: Outcome, willing: bool, late: int)
    requires c < |w.calls| && w.calls[c].slot < |w.slots|
    ensures var ts := Attempt(w, c, outcome, willing, late).timers;
      || ts == w.timers
      || (w.calls[c].timeout.Some? &&
            ts == w.timers + [TimerRec(c, w.now + w.calls[c].timeout.value, willing)])
  {
    var x := w.calls[c];
    if outcome.Again? && x.timeout.Some? {
      var deadline := w.now + x.timeout.value;
      assert Attempt(w, c, outcome, willing, late).timers == w.timers + [TimerRec(c, deadline, willing)];
    }
  }

  lemma TimerStep(w: World, step: Step, t: TimerId)
    requires Enabled(w, step) && t < |Do(w, step).timers|
    ensures var r := Do(w, step).timers[t];
      if t < |w.timers| then r.call == w.timers[t].call && r.deadline == w.timers[t].deadline
      else t == |w.timers| && Arms(w, step, r)
  {
    hide RemoveAt, Attempt;
    match step
    case Begin(kind, k, timeout, outcome, willing, late) =>
      var w1 := w.(calls := w.calls + [Call(kind, k, timeout, w.now, None, Woken(None))]);
      AttemptArms(w1, |w.calls|, outcome, willing, late);
    case Resume(c, outcome, willing, late) =>
      var w1 := CancelTimer(w, w.calls[c].status.timer);
      AttemptArms(w1, c, outcome, willing, late);
    case _ =>
  }

  // Every timer was armed by a round of its own call, one at most by each round.
  lemma {:induction false} TimerArmedBy(worlds: seq<World>, steps: seq<Step>, n: nat, t: TimerId) returns (i: nat)
    requires Execution(worlds, steps) && n <= |steps| && t < |worlds[n].timers|
    ensures i < n && |worlds[i].timers| == t && Arms(worlds[i], steps[i], worlds[n].timers[t])
  {
    hide Do, Enabled;
    assert n > 0 && Enabled(worlds[n - 1], steps[n - 1]) && worlds[n] == Do(worlds[n - 1], steps[n - 1]);
    TimerStep(worlds[n - 1], steps[n - 1], t);
    if t < |worlds[n - 1].timers| {
      i := TimerArmedBy(worlds, steps, n - 1, t);
    } else {
      i := n - 1;
    }
  }
}
