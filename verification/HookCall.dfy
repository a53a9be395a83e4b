// The hooked calls as code: each method is one stretch of do_io or
// connect_with_timeout between two yields, or the timeout callback, proved
// against the steps of HookWait.
module HookCall {
  import opened Common
  import H = HookWait

  datatype Errno = EINTR | EAGAIN | EINPROGRESS | OtherErrno(code: int)

  // What one call of the wrapped function returned.
  datatype Answer = Answer(n: int, errno: Errno)

  predicate Interrupted(a: Answer) {
    a.n == -1 && a.errno == EINTR
  }

  ghost predicate SomeFinal(answers: seq<Answer>) {
    exists i :: 0 <= i < |answers| && !Interrupted(answers[i])
  }

  ghost predicate FinalAt(answers: seq<Answer>, i: nat, a: Answer) {
    && i < |answers| && answers[i] == a && !Interrupted(a)
    && forall j :: 0 <= j < i ==> Interrupted(answers[j])
  }

  // The first answer that is not an interruption.
  ghost predicate IsFinal(answers: seq<Answer>, a: Answer) {
    exists i :: 0 <= i < |answers| && FinalAt(answers, i, a)
  }

  lemma FinalIsUnique(answers: seq<Answer>, a: Answer, b: Answer)
    requires IsFinal(answers, a) && IsFinal(answers, b)
    ensures a == b
  {
  }

  // The EINTR loop. `answers` is what the wrapped function returns call by call.
  method CallOrigin(answers: seq<Answer>) returns (a: Answer)
    requires SomeFinal(answers)
    ensures IsFinal(answers, a)
    ensures a.n != -1 || a.errno != EINTR
    ensures exists i ::
      && 0 <= i < |answers| && answers[i] == a
      && forall j :: 0 <= j < i ==> answers[j].n == -1 && answers[j].errno == EINTR
  {
    a := answers[0];
    var i := 1;
    while a.n == -1 && a.errno == EINTR
      invariant 1 <= i <= |answers| && a == answers[i - 1]
      invariant forall j :: 0 <= j < i - 1 ==> Interrupted(answers[j])
      decreases |answers| - i
    {
      assert forall j :: 0 <= j < i ==> Interrupted(answers[j]);
      a := answers[i];
      i := i + 1;
    }
    assert FinalAt(answers, i - 1, a);
  }

  function OutcomeOf(kind: H.Kind, a: Answer): H.Outcome {
    if a.n == -1 && a.errno == (if kind == H.Io then EAGAIN else EINPROGRESS) then H.Again else H.Done(a.n)
  }

  // What the wrapped function tells do_io, its interruptions retried.
  ghost predicate Tells(answers: seq<Answer>, outcome: H.Outcome) {
    exists a :: IsFinal(answers, a) && outcome == OutcomeOf(H.Io, a)
  }

  class Hooks {
    var calls: seq<H.Call>
    var slots: seq<Option<H.Cid>>
    var timers: seq<H.TimerRec>
    var callbacks: seq<H.TimerId>
    var now: int

    constructor (size: nat)
      ensures H.Init(W()) && |slots| == size
    {
      calls, timers, callbacks, now := [], [], [], 0;
      slots := seq(size, _ => None);
    }

    ghost function W(): H.World
      reads this
    {
      H.World(calls, slots, timers, callbacks, now)
    }

    // addConditionTimer
    method AddConditionTimer(c: H.Cid, ms: int) returns (t: H.TimerId)
      modifies this`timers
      ensures t == |old(timers)|
      ensures timers == old(timers) + [H.TimerRec(c, now + ms, true)]
    {
      t := |timers|;
      timers := timers + [H.TimerRec(c, now + ms, true)];
    }

    // False if there is no timer, or it was collected or cancelled before.
    method CancelTimer(timer: Option<H.TimerId>) returns (ok: bool)
      modifies this`timers
      ensures W() == H.CancelTimer(old(W()), timer)
      ensures ok <==> exists t :: timer == Some(t) && 0 <= t < |old(timers)| && old(timers)[t].live
      ensures |timers| == |old(timers)| && (forall t :: timer == Some(t) && 0 <= t < |timers| ==> !timers[t].live)
      ensures !ok ==> forall t :: 0 <= t < |timers| ==> timers[t] == old(timers)[t]
    {
      ok := timer.Some? && timer.value < |timers| && timers[timer.value].live;
      if timer.Some? && timer.value < |timers| {
        timers := timers[timer.value := timers[timer.value].(live := false)];
      }
    }

    // addEvent with the current fiber, that of call c.
    method AddEvent(c: H.Cid, slot: nat, willing: bool) returns (rt: int)
      requires slot < |slots| && slots[slot] == None
      modifies this`slots
      ensures rt == if willing then 0 else -1
      ensures slots == if willing then old(slots)[slot := Some(c)] else old(slots)
    {
      if !willing {
        return -1;
      }
      slots := slots[slot := Some(c)];
      rt := 0;
    }

    // Where the call stands: parked at the yield, or returned.
    method Set(c: H.Cid, status: H.Status)
      requires c < |calls|
      modifies this`calls
      ensures W() == H.SetStatus(old(W()), c, status)
    {
      calls := calls[c := calls[c].(status := status)];
    }

    // The call is parked: its fiber is in its slot, and if it is timed the timer armed
    // for this round is due its timeout from now.
    ghost predicate IsWaiting(c: H.Cid, armed: nat)
      reads this
    {
      && c < |calls| && calls[c].slot < |slots| && slots[calls[c].slot] == Some(c)
      && (calls[c].timeout.None? ==> calls[c].status == H.Waiting(None) && |timers| == armed)
      && (calls[c].timeout.Some? ==>
            && calls[c].status == H.Waiting(Some(armed)) && |timers| == armed + 1
            && timers[armed] == H.TimerRec(c, now + calls[c].timeout.value, true))
    }

    // From an EAGAIN to the yield, or to the return if addEvent fails.
    method Block(c: H.Cid, willing: bool, late: int)
      requires c < |calls| && calls[c].slot < |slots| && slots[calls[c].slot] == None
      modifies this
      ensures W() == H.Wait(old(W()), c, willing, late)
      ensures |calls| == |old(calls)|
      ensures calls[c].slot == old(calls)[c].slot && calls[c].timeout == old(calls)[c].timeout
      ensures willing ==> IsWaiting(c, |old(timers)|)
      ensures !willing ==> slots == old(slots)
      ensures !willing ==> calls[c].status == H.Returned(if calls[c].kind.Io? then H.AddFailed else H.Value(late))
    {
      var x := calls[c];
      var timer: Option<H.TimerId> := None;
      if x.timeout.Some? {
        var t := AddConditionTimer(c, x.timeout.value);
        timer := Some(t);
      }
      var rt := AddEvent(c, x.slot, willing);
      if rt == -1 {
        var _ := CancelTimer(timer);
        Set(c, H.Returned(if x.kind.Io? then H.AddFailed else H.Value(late)));
      } else {
        Set(c, H.Waiting(timer));
      }
    }

    // From the label `retry`.
    method Retry(c: H.Cid, answers: seq<Answer>, willing: bool, late: int) returns (outcome: H.Outcome)
      requires SomeFinal(answers)
      requires c < |calls| && calls[c].kind == H.Io && calls[c].slot < |slots|
      requires Tells(answers, H.Again) ==> slots[calls[c].slot] == None
      modifies this
      ensures Tells(answers, outcome)
      ensures W() == H.Attempt(old(W()), c, outcome, willing, late)
      ensures |calls| == |old(calls)|
      ensures calls[c].slot == old(calls)[c].slot && calls[c].timeout == old(calls)[c].timeout
      // What the wrapped function answered is returned, unless it would block.
      ensures forall a :: IsFinal(answers, a) && (a.n != -1 || a.errno != EAGAIN) ==>
        calls[c].status == H.Returned(H.Value(a.n))
      ensures forall a :: IsFinal(answers, a) && a.n == -1 && a.errno == EAGAIN ==>
        if willing then IsWaiting(c, |old(timers)|) else calls[c].status == H.Returned(H.AddFailed)
    {
      var a := CallOrigin(answers);
      forall b | IsFinal(answers, b) ensures b == a {
        FinalIsUnique(answers, a, b);
      }
      hide IsFinal;
      outcome := OutcomeOf(H.Io, a);
      if a.n == -1 && a.errno == EAGAIN {
        Block(c, willing, late);
      } else {
        Set(c, H.Returned(H.Value(a.n)));
      }
    }

    method Enter(kind: H.Kind, slot: nat, timeout: Option<int>) returns (c: H.Cid)
      modifies this`calls
      ensures c == |old(calls)|
      ensures calls == old(calls) + [H.Call(kind, slot, timeout, now, None, H.Woken(None))]
    {
      c := |calls|;
      calls := calls + [H.Call(kind, slot, timeout, now, None, H.Woken(None))];
    }

    // do_io up to its first yield or its return.
    method DoIo(slot: nat, timeout: Option<int>, answers: seq<Answer>, willing: bool)
      returns (c: H.Cid, outcome: H.Outcome)
      requires SomeFinal(answers) && slot < |slots|
      requires Tells(answers, H.Again) ==> slots[slot] == None
      modifies this
      ensures c == |old(calls)| && Tells(answers, outcome)
      ensures var step := H.Begin(H.Io, slot, timeout, outcome, willing, 0);
        H.Enabled(old(W()), step) && W() == H.Do(old(W()), step)
      ensures c < |calls| && calls[c].slot == slot && calls[c].timeout == timeout
      ensures forall a :: IsFinal(answers, a) && (a.n != -1 || a.errno != EAGAIN) ==>
        calls[c].status == H.Returned(H.Value(a.n))
      ensures forall a :: IsFinal(answers, a) && a.n == -1 && a.errno == EAGAIN ==>
        if willing then IsWaiting(c, |old(timers)|) else calls[c].status == H.Returned(H.AddFailed)
    {
      c := Enter(H.Io, slot, timeout);
      outcome := Retry(c, answers, willing, 0);
    }

    // do_io after a yield, up to the next yield or its return. The wrapped function is
    // not called again by a cancelled call.
    method DoIoResumed(c: H.Cid, answers: seq<Answer>, willing: bool) returns (outcome: H.Outcome)
      requires c < |calls| && calls[c].kind == H.Io && calls[c].status.Woken? && calls[c].slot < |slots|
      requires calls[c].cancelledBy.None? ==>
        SomeFinal(answers) && (Tells(answers, H.Again) ==> slots[calls[c].slot] == None)
      modifies this
      ensures old(calls)[c].cancelledBy.None? ==> Tells(answers, outcome)
      ensures var step := H.Resume(c, outcome, willing, 0);
        H.Enabled(old(W()), step) && W() == H.Do(old(W()), step)
      ensures |calls| == |old(calls)|
      ensures calls[c].slot == old(calls)[c].slot && calls[c].timeout == old(calls)[c].timeout
      ensures old(calls)[c].cancelledBy.Some? ==> calls[c].status == H.Returned(H.TimedOut(now))
      ensures old(calls)[c].cancelledBy.None? ==>
        forall a :: IsFinal(answers, a) && (a.n != -1 || a.errno != EAGAIN) ==>
          calls[c].status == H.Returned(H.Value(a.n))
      ensures old(calls)[c].cancelledBy.None? ==>
        forall a :: IsFinal(answers, a) && a.n == -1 && a.errno == EAGAIN ==>
          if willing then IsWaiting(c, |old(timers)|) else calls[c].status == H.Returned(H.AddFailed)
    {
      var cancelled := CancelTimer(calls[c].status.timer);
      if calls[c].cancelledBy.Some? {
        Set(c, H.Returned(H.TimedOut(now)));
        return H.Done(-1);
      }
      outcome := Retry(c, answers, willing, 0);
    }

    // connect_with_timeout up to its yield or its return. `late` is what
    // getsockopt answers if the registration fails.
    method Connect(slot: nat, timeout: Option<int>, a: Answer, willing: bool, late: int) returns (c: H.Cid)
      requires slot < |slots| && (OutcomeOf(H.Connect, a).Again? ==> slots[slot] == None)
      modifies this
      ensures c == |old(calls)|
      ensures var step := H.Begin(H.Connect, slot, timeout, OutcomeOf(H.Connect, a), willing, late);
        H.Enabled(old(W()), step) && W() == H.Do(old(W()), step)
      ensures c < |calls| && calls[c].slot == slot && calls[c].timeout == timeout
      ensures a.n != -1 || a.errno != EINPROGRESS ==> calls[c].status == H.Returned(H.Value(a.n))
      ensures a.n == -1 && a.errno == EINPROGRESS ==>
        if willing then IsWaiting(c, |old(timers)|) else calls[c].status == H.Returned(H.Value(late))
    {
      c := Enter(H.Connect, slot, timeout);
      if a.n == 0 {
        Set(c, H.Returned(H.Value(0)));
      } else if a.n != -1 || a.errno != EINPROGRESS {
        Set(c, H.Returned(H.Value(a.n)));
      } else {
        Block(c, willing, late);
      }
    }

    method ConnectResumed(c: H.Cid, late: int)
      requires c < |calls| && calls[c].kind == H.Connect && calls[c].status.Woken? && calls[c].slot < |slots|
      modifies this
      ensures var step := H.Resume(c, H.Done(late), true, late);
        H.Enabled(old(W()), step) && W() == H.Do(old(W()), step)
      ensures |calls| == |old(calls)|
      ensures calls[c].status ==
        H.Returned(if old(calls)[c].cancelledBy.Some? then H.TimedOut(now) else H.Value(late))
    {
      var cancelled := CancelTimer(calls[c].status.timer);
      if calls[c].cancelledBy.Some? {
        Set(c, H.Returned(H.TimedOut(now)));
      } else {
        Set(c, H.Returned(H.Value(late)));
      }
    }

    // cancelEvent and the dispatch, as far as this slot is concerned.
    method Trigger(slot: nat)
      requires slot < |slots|
      modifies this`calls, this`slots
      ensures W() == H.FireSlot(old(W()), slot)
      // The call parked there is woken and the slot is free.
      ensures forall d :: old(slots)[slot] == Some(d) && 0 <= d < |old(calls)| && old(calls)[d].status.Waiting? ==>
        |calls| == |old(calls)| && calls[d].status == H.Woken(old(calls)[d].status.timer) && slots[slot] == None
    {
      if slots[slot].Some? && slots[slot].value < |calls| {
        var d := slots[slot].value;
        slots := slots[slot := None];
        if calls[d].status.Waiting? {
          Set(d, H.Woken(calls[d].status.timer));
        } else {
          Set(d, calls[d].status);
        }
      }
    }

    // The lambda given to addConditionTimer. The weak pointer is dead once the
    // call has returned.
    method TimeoutCallback(i: nat, willing: bool)
      requires H.Enabled(W(), H.RunCallback(i, willing))
      modifies this
      ensures W() == H.Do(old(W()), H.RunCallback(i, willing))
      ensures callbacks == RemoveAt(old(callbacks), i) && timers == old(timers) && |calls| == |old(calls)|
      ensures var c := timers[old(callbacks)[i]].call;
        if old(calls)[c].status.Returned? || old(calls)[c].cancelledBy.Some? then
          calls == old(calls) && slots == old(slots)
        else
          calls[c].cancelledBy == Some(old(callbacks)[i]) &&
          (willing && old(slots)[calls[c].slot] == Some(c) && old(calls)[c].status.Waiting? ==>
             calls[c].status.Woken? && slots[calls[c].slot] == None)
    {
      var t := callbacks[i];
      callbacks := RemoveAt(callbacks, i);
      var c := timers[t].call;
      if calls[c].status.Returned? || calls[c].cancelledBy.Some? {
        return;
      }
      var slot := calls[c].slot;
      calls := calls[c := calls[c].(cancelledBy := Some(t))];
      if willing {
        Trigger(slot);
      }
    }
  }
}
