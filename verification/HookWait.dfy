// The wait protocol of the hooked calls.
//
// A hooked call tries its operation; if that would block it arms a timeout,
// registers its fiber in an fd slot and yields. What one thread runs between two
// yields is one step here, as with one run loop (HookRace takes a round apart).
// In which order callbacks and woken fibers run is left open (HookLoop has the
// order of one loop). `cancelled` lives as long as the call, so it is shared
// by all rounds of one call, and a callback of an earlier round can still meet it.
module HookWait {
  import opened Common

  type Cid = nat   // a call of do_io or connect_with_timeout
  type TimerId = nat

  datatype Kind = Io | Connect

  // What the wrapped function answers, EINTR already retried: a final value, or
  // EAGAIN (EINPROGRESS for connect).
  datatype Outcome = Done(value: int) | Again

  datatype Result = Value(value: int) | AddFailed | TimedOut(at: int)

  datatype Status =
    | Waiting(timer: Option<TimerId>)  // yielded, and nobody has scheduled the fiber
    | Woken(timer: Option<TimerId>)    // the fiber is in the task list
    | Returned(result: Result)

  // `cancelledBy` is tinfo->cancelled == ETIMEDOUT, with the timer whose callback
  // set it. `first` is the time of the first arming.
  datatype Call = Call(
    kind: Kind, slot: nat, timeout: Option<int>, first: int, cancelledBy: Option<TimerId>, status: Status)

  datatype TimerRec = TimerRec(call: Cid, deadline: int, live: bool)

  // `callbacks`: timeout callbacks collected from the timer set and not run yet.
  datatype World = World(
    calls: seq<Call>, slots: seq<Option<Cid>>, timers: seq<TimerRec>, callbacks: seq<TimerId>, now: int)

  // `willing`: the kernel accepts the epoll_ctl of the step. `late` is what
  // getsockopt tells connect.
  datatype Step =
    | Begin(kind: Kind, slot: nat, timeout: Option<int>, outcome: Outcome, willing: bool, late: int)
    | Resume(c: Cid, outcome: Outcome, willing: bool, late: int)
    | Fire(slot: nat)
    | Expire(timer: TimerId)
    | RunCallback(i: nat, willing: bool)
    | Tick(ms: nat)

  ghost predicate Init(w: World) {
    w.calls == [] && w.timers == [] && w.callbacks == [] && forall k :: 0 <= k < |w.slots| ==> w.slots[k] == None
  }

  // A slot that is in use when a call registers trips the assertion in addEvent.
  predicate Enabled(w: World, step: Step) {
    match step
    case Begin(_, k, _, outcome, _, _) => k < |w.slots| && (outcome.Again? ==> w.slots[k] == None)
    case Resume(c, outcome, _, _) =>
      && c < |w.calls| && w.calls[c].status.Woken?
      && (w.calls[c].kind.Connect? ==> outcome.Done?)
      && w.calls[c].slot < |w.slots|
      && (w.calls[c].cancelledBy.None? && outcome.Again? ==> w.slots[w.calls[c].slot] == None)
    case Fire(k) => k < |w.slots| && w.slots[k].Some? && w.slots[k].value < |w.calls|
    case Expire(t) => t < |w.timers| && w.timers[t].live && w.timers[t].deadline <= w.now
    case RunCallback(i, _) =>
      && i < |w.callbacks| && w.callbacks[i] < |w.timers|
      && w.timers[w.callbacks[i]].call < |w.calls|
      && w.calls[w.timers[w.callbacks[i]].call].slot < |w.slots|
    case Tick(_) => true
  }

  function SetStatus(w: World, c: Cid, status: Status): World
    requires c < |w.calls|
  {
    w.(calls := w.calls[c := w.calls[c].(status := status)])
  }

  // timer->cancel(): without effect on a timer that was collected.
  function CancelTimer(w: World, timer: Option<TimerId>): World {
    if timer.Some? && timer.value < |w.timers| then
      w.(timers := w.timers[timer.value := w.timers[timer.value].(live := false)])
    else w
  }

  // Arm, register and yield; if the registration is refused, disarm and return.
  function Wait(w: World, c: Cid, willing: bool, late: int): World
    requires c < |w.calls| && w.calls[c].slot < |w.slots|
  {
    var x := w.calls[c];
    var timer := if x.timeout.Some? then Some(|w.timers|) else None;
    var armed := if x.timeout.Some? then w.(timers := w.timers + [TimerRec(c, w.now + x.timeout.value, true)]) else w;
    if willing then SetStatus(armed, c, Waiting(timer)).(slots := w.slots[x.slot := Some(c)])
    else SetStatus(CancelTimer(armed, timer), c, Returned(if x.kind.Io? then AddFailed else Value(late)))
  }

  function Attempt(w: World, c: Cid, outcome: Outcome, willing: bool, late: int): World
    requires c < |w.calls| && w.calls[c].slot < |w.slots|
  {
    match outcome
    case Done(v) => SetStatus(w, c, Returned(Value(v)))
    case Again => Wait(w, c, willing, late)
  }

  // A trigger on slot k schedules the fiber of the call registered there.
  function FireSlot(w: World, k: nat): World
    requires k < |w.slots|
  {
    if w.slots[k].None? || w.slots[k].value >= |w.calls| then w
    else
      var d := w.slots[k].value;
      var x := w.calls[d].status;
      SetStatus(w, d, if x.Waiting? then Woken(x.timer) else x).(slots := w.slots[k := None])
  }

  // The timeout callback acts if its call has not returned and was not cancelled.
  predicate Acts(w: World, t: TimerId) {
    && t < |w.timers| && w.timers[t].call < |w.calls|
    && var x := w.calls[w.timers[t].call];
    !x.status.Returned? && x.cancelledBy.None?
  }

  function Do(w: World, step: Step): World
    requires Enabled(w, step)
  {
    match step
    case Begin(kind, k, timeout, outcome, willing, late) =>
      var c := |w.calls|;
      var w1 := w.(calls := w.calls + [Call(kind, k, timeout, w.now, None, Woken(None))]);
      Attempt(w1, c, outcome, willing, late)
    case Resume(c, outcome, willing, late) =>
      var w1 := CancelTimer(w, w.calls[c].status.timer);
      if w.calls[c].cancelledBy.Some? then SetStatus(w1, c, Returned(TimedOut(w.now)))
      else Attempt(w1, c, outcome, willing, late)
    case Fire(k) => FireSlot(w, k)
    case Expire(t) => w.(timers := w.timers[t := w.timers[t].(live := false)], callbacks := w.callbacks + [t])
    case RunCallback(i, willing) =>
      var t := w.callbacks[i];
      var c := w.timers[t].call;
      var w1 := w.(callbacks := RemoveAt(w.callbacks, i));
      if !Acts(w, t) then w1
      else
        var w2 := w1.(calls := w.calls[c := w.calls[c].(cancelledBy := Some(t))]);
        if willing then FireSlot(w2, w.calls[c].slot) else w2
    case Tick(ms) => w.(now := w.now + ms)
  }

  // ---------------------------------------------------------------------------
  // The protocol
  // ---------------------------------------------------------------------------

  // A timer of this call, not due before its first arming plus its timeout.
  ghost predicate OwnTimer(w: World, c: Cid, t: TimerId) {
    && c < |w.calls| && t < |w.timers| && w.timers[t].call == c
    && w.calls[c].timeout.Some? && w.timers[t].deadline >= w.calls[c].first + w.calls[c].timeout.value
  }

  ghost predicate TimerFits(w: World, c: Cid, timer: Option<TimerId>) {
    timer.Some? ==> OwnTimer(w, c, timer.value)
  }

  // A parked call is not cancelled, holds its slot, and if it is timed its timer
  // is live or the callback is on its way.
  ghost predicate Parked(w: World, c: Cid)
    requires c < |w.calls| && w.calls[c].status.Waiting?
  {
    var x := w.calls[c];
    && x.cancelledBy.None? && x.slot < |w.slots| && w.slots[x.slot] == Some(c)
    && x.timeout.Some? == x.status.timer.Some?
    && (x.status.timer.Some? ==>
          OwnTimer(w, c, x.status.timer.value) &&
          (w.timers[x.status.timer.value].live || x.status.timer.value in w.callbacks))
  }

  ghost predicate CallOk(w: World, c: Cid)
    requires c < |w.calls|
  {
    var x := w.calls[c];
    && x.slot < |w.slots| && x.first <= w.now
    && (x.status.Waiting? ==> Parked(w, c))
    && (x.status.Woken? ==> TimerFits(w, c, x.status.timer))
    && (x.cancelledBy.Some? ==> OwnTimer(w, c, x.cancelledBy.value) && w.timers[x.cancelledBy.value].deadline <= w.now)
    && (x.status.Returned? && x.status.result.TimedOut? ==>
          x.cancelledBy.Some? && x.status.result.at >= w.timers[x.cancelledBy.value].deadline)
  }

  // A filled slot belongs to a parked call; a live timer is the current timer of
  // a call that has not returned; a callback on its way is of a collected timer.
  ghost predicate SlotOk(w: World, k: nat)
    requires k < |w.slots|
  {
    w.slots[k].Some? ==>
      && w.slots[k].value < |w.calls|
      && w.calls[w.slots[k].value].slot == k && w.calls[w.slots[k].value].status.Waiting?
  }

  ghost predicate LiveOk(w: World, t: TimerId)
    requires t < |w.timers|
  {
    && OwnTimer(w, w.timers[t].call, t)
    && (w.timers[t].live ==>
          var x := w.calls[w.timers[t].call].status;
          !x.Returned? && x.timer == Some(t))
  }

  ghost predicate Protocol(w: World) {
    && (forall c: Cid {:trigger CallOk(w, c)} :: c < |w.calls| ==> CallOk(w, c))
    && (forall k: nat {:trigger SlotOk(w, k)} :: k < |w.slots| ==> SlotOk(w, k))
    && (forall t: TimerId {:trigger LiveOk(w, t)} :: t < |w.timers| ==> LiveOk(w, t))
    && (forall i :: 0 <= i < |w.callbacks| ==>
          w.callbacks[i] < |w.timers| && !w.timers[w.callbacks[i]].live && w.timers[w.callbacks[i]].deadline <= w.now)
  }

  // The kernel does not refuse to take a parked call out of its interest set.
  predicate Accepting(step: Step) {
    step.RunCallback? ==> step.willing
  }

  // Timers keep their call and deadline, and none comes back to life.
  ghost predicate TimersKept(w: World, w': World) {
    && |w.timers| <= |w'.timers|
    && forall t :: 0 <= t < |w.timers| ==>
        && w'.timers[t].call == w.timers[t].call && w'.timers[t].deadline == w.timers[t].deadline
        && (w'.timers[t].live ==> w.timers[t].live)
  }

  // A call a step does not touch.
  lemma CallKept(w: World, w': World, d: Cid)
    requires d < |w.calls| && d < |w'.calls| && w'.calls[d] == w.calls[d] && CallOk(w, d)
    requires TimersKept(w, w') && |w'.slots| == |w.slots| && w'.now >= w.now
    requires w.calls[d].status.Waiting? ==> w'.slots[w.calls[d].slot] == Some(d)
    requires w.calls[d].status.Waiting? && w.calls[d].status.timer.Some? ==>
      var t := w.calls[d].status.timer.value;
      t < |w.timers| && ((w.timers[t].live || t in w.callbacks) ==> (w'.timers[t].live || t in w'.callbacks))
    ensures CallOk(w', d)
  {
  }

  // A Woken call whose timer, if any, is disarmed: it has no live timer at all.
  ghost predicate Disarmed(w: World, c: Cid) {
    && c < |w.calls| && w.calls[c].status.Woken?
    && forall t :: 0 <= t < |w.timers| && w.timers[t].live ==> w.timers[t].call != c
  }

  lemma CancelKeeps(w: World, c: Cid)
    requires Protocol(w) && c < |w.calls| && w.calls[c].status.Woken?
    ensures var w' := CancelTimer(w, w.calls[c].status.timer);
      Protocol(w') && Disarmed(w', c) && w' == w.(timers := w'.timers)
  {
    var timer := w.calls[c].status.timer;
    var w' := CancelTimer(w, timer);
    assert CallOk(w, c);
    forall t: TimerId | t < |w'.timers| ensures LiveOk(w', t) && (w'.timers[t].live ==> w'.timers[t].call != c) {
      assert LiveOk(w, t);
    }
    forall d: Cid | d < |w'.calls| ensures CallOk(w', d) {
      assert CallOk(w, d);
      if w.calls[d].status.Waiting? && w.calls[d].status.timer.Some? {
        assert w.timers[w.calls[d].status.timer.value].call == d;
      }
      CallKept(w, w', d);
    }
    forall k: nat | k < |w'.slots| ensures SlotOk(w', k) {
      assert SlotOk(w, k);
    }
  }

  // Returning from a call that is disarmed.
  lemma ReturnKeeps(w: World, c: Cid, r: Result)
    requires Protocol(w) && Disarmed(w, c)
    requires r.TimedOut? ==> w.calls[c].cancelledBy.Some? && r.at == w.now
    ensures Protocol(SetStatus(w, c, Returned(r)))
  {
    var w' := SetStatus(w, c, Returned(r));
    assert CallOk(w, c);
    forall d: Cid | d < |w'.calls| ensures CallOk(w', d) {
      assert CallOk(w, d);
      if d != c {
        CallKept(w, w', d);
      }
    }
    forall k: nat | k < |w'.slots| ensures SlotOk(w', k) {
      assert SlotOk(w, k);
    }
    forall t: TimerId | t < |w'.timers| ensures LiveOk(w', t) {
      assert LiveOk(w, t);
    }
  }

  // A dead timer of c appears.
  lemma DeadTimerKeeps(w: World, c: Cid, deadline: int)
    requires Protocol(w) && Disarmed(w, c) && w.calls[c].timeout.Some?
    requires deadline == w.now + w.calls[c].timeout.value
    ensures var w' := w.(timers := w.timers + [TimerRec(c, deadline, false)]); Protocol(w') && Disarmed(w', c)
  {
    var w' := w.(timers := w.timers + [TimerRec(c, deadline, false)]);
    assert CallOk(w, c);
    forall d: Cid | d < |w'.calls| ensures CallOk(w', d) {
      assert CallOk(w, d);
      CallKept(w, w', d);
    }
    forall k: nat | k < |w'.slots| ensures SlotOk(w', k) {
      assert SlotOk(w, k);
    }
    forall t: TimerId | t < |w'.timers| ensures LiveOk(w', t) {
      assert t < |w.timers| ==> LiveOk(w, t);
    }
  }

  lemma ParkKeeps(w: World, c: Cid, late: int)
    requires Protocol(w) && Disarmed(w, c) && w.calls[c].cancelledBy.None?
    requires w.calls[c].slot < |w.slots| && w.slots[w.calls[c].slot] == None
    ensures Protocol(Wait(w, c, true, late))
  {
    var w' := Wait(w, c, true, late);
    assert CallOk(w, c);
    forall d: Cid | d < |w'.calls| ensures CallOk(w', d) {
      assert CallOk(w, d);
      if d != c {
        CallKept(w, w', d);
      }
    }
    forall k: nat | k < |w'.slots| ensures SlotOk(w', k) {
      assert SlotOk(w, k);
    }
    forall t: TimerId | t < |w'.timers| ensures LiveOk(w', t) {
      assert t < |w.timers| ==> LiveOk(w, t);
    }
  }

  lemma RefusedKeeps(w: World, c: Cid, late: int)
    requires Protocol(w) && Disarmed(w, c) && w.calls[c].slot < |w.slots|
    ensures Protocol(Wait(w, c, false, late))
  {
    var x := w.calls[c];
    var r := if x.kind.Io? then AddFailed else Value(late);
    if x.timeout.Some? {
      var deadline := w.now + x.timeout.value;
      DeadTimerKeeps(w, c, deadline);
      var w1 := w.(timers := w.timers + [TimerRec(c, deadline, false)]);
      ReturnKeeps(w1, c, r);
      assert CancelTimer(w.(timers := w.timers + [TimerRec(c, deadline, true)]), Some(|w.timers|)) == w1;
    } else {
      ReturnKeeps(w, c, r);
    }
  }

  lemma AttemptKeeps(w: World, c: Cid, outcome: Outcome, willing: bool, late: int)
    requires Protocol(w) && Disarmed(w, c) && w.calls[c].cancelledBy.None? && w.calls[c].slot < |w.slots|
    requires outcome.Again? ==> w.slots[w.calls[c].slot] == None
    ensures Protocol(Attempt(w, c, outcome, willing, late))
  {
    hide Protocol, Disarmed, Wait;
    match outcome
    case Done(v) => ReturnKeeps(w, c, Value(v));
    case Again =>
      if willing {
        ParkKeeps(w, c, late);
      } else {
        RefusedKeeps(w, c, late);
      }
  }

  lemma BeginKeeps(w: World, step: Step)
    requires Protocol(w) && Enabled(w, step) && step.Begin?
    ensures Protocol(Do(w, step))
  {
    var c := |w.calls|;
    var w1 := w.(calls := w.calls + [Call(step.kind, step.slot, step.timeout, w.now, None, Woken(None))]);
    forall d: Cid | d < |w1.calls| ensures CallOk(w1, d) {
      if d < c {
        assert CallOk(w, d);
        CallKept(w, w1, d);
      }
    }
    forall k: nat | k < |w1.slots| ensures SlotOk(w1, k) {
      assert SlotOk(w, k);
    }
    forall t: TimerId | t < |w1.timers| ensures LiveOk(w1, t) && w1.timers[t].call != c {
      assert LiveOk(w, t);
    }
    AttemptKeeps(w1, c, step.outcome, step.willing, step.late);
  }

  lemma ResumeKeeps(w: World, step: Step)
    requires Protocol(w) && Enabled(w, step) && step.Resume?
    ensures Protocol(Do(w, step))
  {
    var c := step.c;
    var w1 := CancelTimer(w, w.calls[c].status.timer);
    CancelKeeps(w, c);
    hide Protocol, Disarmed, Attempt, CancelTimer;
    if w.calls[c].cancelledBy.Some? {
      ReturnKeeps(w1, c, TimedOut(w.now));
    } else {
      AttemptKeeps(w1, c, step.outcome, step.willing, step.late);
    }
  }

  lemma ExpireKeeps(w: World, t: TimerId)
    requires Protocol(w) && Enabled(w, Expire(t))
    ensures Protocol(Do(w, Expire(t)))
  {
    var w' := Do(w, Expire(t));
    forall d: Cid | d < |w'.calls| ensures CallOk(w', d) {
      assert CallOk(w, d);
      assert t in w'.callbacks && forall u :: u in w.callbacks ==> u in w'.callbacks;
      CallKept(w, w', d);
    }
    forall k: nat | k < |w'.slots| ensures SlotOk(w', k) {
      assert SlotOk(w, k);
    }
    forall u: TimerId | u < |w'.timers| ensures LiveOk(w', u) {
      assert LiveOk(w, u);
    }
  }

  // The registered call is woken.
  lemma FireKeeps(w: World, k: nat)
    requires Protocol(w) && k < |w.slots|
    ensures Protocol(FireSlot(w, k))
  {
    var w' := FireSlot(w, k);
    assert SlotOk(w, k);
    forall d: Cid | d < |w'.calls| ensures CallOk(w', d) {
      assert CallOk(w, d);
      if w'.calls[d] == w.calls[d] {
        CallKept(w, w', d);
      }
    }
    forall l: nat | l < |w'.slots| ensures SlotOk(w', l) {
      assert SlotOk(w, l);
    }
    forall t: TimerId | t < |w'.timers| ensures LiveOk(w', t) {
      assert LiveOk(w, t);
    }
  }

  // A callback that does nothing leaves the list. The call it belongs to is not
  // parked on it, or it would act.
  lemma NoopKeeps(w: World, i: nat)
    requires Protocol(w) && i < |w.callbacks| && w.callbacks[i] < |w.timers| && !Acts(w, w.callbacks[i])
    ensures Protocol(w.(callbacks := RemoveAt(w.callbacks, i)))
  {
    var w' := w.(callbacks := RemoveAt(w.callbacks, i));
    var t := w.callbacks[i];
    assert LiveOk(w, t);
    forall d: Cid | d < |w'.calls| ensures CallOk(w', d) {
      assert CallOk(w, d);
      forall u ensures u in w.callbacks && u != t ==> u in w'.callbacks {
        RemoveAtMembers(w.callbacks, i, u);
      }
      CallKept(w, w', d);
    }
    forall k: nat | k < |w'.slots| ensures SlotOk(w', k) {
      assert SlotOk(w, k);
    }
    forall u: TimerId | u < |w'.timers| ensures LiveOk(w', u) {
      assert LiveOk(w, u);
    }
  }

  // What such a callback leaves of call d.
  ghost predicate ActFrame(w: World, w': World, t: TimerId, d: Cid)
    requires t < |w.timers| && d < |w.calls| && w.calls[d].slot < |w.slots|
  {
    var x := w.calls[d];
    && w'.timers == w.timers && w'.now == w.now && |w'.slots| == |w.slots| && d < |w'.calls|
    && (d == w.timers[t].call ==>
          w'.calls[d] == x.(cancelledBy := Some(t),
                            status := if x.status.Waiting? then Woken(x.status.timer) else x.status))
    && (d != w.timers[t].call ==>
          || (x.status.Waiting? && w'.calls[d] == x.(status := Woken(x.status.timer)))
          || (w'.calls[d] == x && (x.status.Waiting? ==> w'.slots[x.slot] == Some(d))))
  }

  lemma ActFrames(w: World, i: nat, d: Cid)
    requires Protocol(w) && Enabled(w, RunCallback(i, true)) && Acts(w, w.callbacks[i])
    requires d < |w.calls| && w.calls[d].slot < |w.slots|
    ensures ActFrame(w, Do(w, RunCallback(i, true)), w.callbacks[i], d)
  {
    hide RemoveAt, OwnTimer;
    var c := w.timers[w.callbacks[i]].call;
    assert CallOk(w, c) && SlotOk(w, w.calls[c].slot) && CallOk(w, d);
    hide Protocol;
  }

  // A callback that acts cancels its call; the slot is given up with it.
  lemma ActCallOk(w: World, i: nat, d: Cid)
    requires Protocol(w) && Enabled(w, RunCallback(i, true)) && Acts(w, w.callbacks[i]) && d < |w.calls|
    ensures CallOk(Do(w, RunCallback(i, true)), d)
  {
    var t := w.callbacks[i];
    var w' := Do(w, RunCallback(i, true));
    assert w'.callbacks == RemoveAt(w.callbacks, i);
    assert LiveOk(w, t) && w.timers[t].deadline <= w.now && CallOk(w, d);
    ActFrames(w, i, d);
    hide Protocol, Do, RemoveAt, Acts;
    forall u ensures u in w.callbacks && u != t ==> u in w'.callbacks {
      RemoveAtMembers(w.callbacks, i, u);
    }
    if w'.calls[d] == w.calls[d] {
      CallKept(w, w', d);
    }
  }

  lemma ActKeeps(w: World, i: nat)
    requires Protocol(w) && Enabled(w, RunCallback(i, true)) && Acts(w, w.callbacks[i])
    ensures Protocol(Do(w, RunCallback(i, true)))
  {
    hide RemoveAt;
    var t := w.callbacks[i];
    var k := w.calls[w.timers[t].call].slot;
    var w' := Do(w, RunCallback(i, true));
    assert LiveOk(w, t) && SlotOk(w, k);
    forall d: Cid | d < |w'.calls| ensures CallOk(w', d) {
      hide CallOk;
      ActCallOk(w, i, d);
    }
    forall u ensures u in w'.callbacks ==> u in w.callbacks {
      RemoveAtMembers(w.callbacks, i, u);
    }
    hide CallOk, OwnTimer;
    forall l: nat | l < |w'.slots| ensures SlotOk(w', l) {
      assert SlotOk(w, l);
    }
    forall u: TimerId | u < |w'.timers| ensures LiveOk(w', u) {
      assert LiveOk(w, u) && (OwnTimer(w, w.timers[u].call, u) ==> OwnTimer(w', w.timers[u].call, u)) by {
        assert w'.timers == w.timers;
      }
    }
  }

  lemma TickKeeps(w: World, ms: nat)
    requires Protocol(w)
    ensures Protocol(w.(now := w.now + ms))
  {
    var w' := w.(now := w.now + ms);
    forall d: Cid | d < |w'.calls| ensures CallOk(w', d) {
      assert CallOk(w, d);
    }
    forall k: nat | k < |w'.slots| ensures SlotOk(w', k) {
      assert SlotOk(w, k);
    }
    forall u: TimerId | u < |w'.timers| ensures LiveOk(w', u) {
      assert LiveOk(w, u);
    }
  }

  lemma ProtocolStep(w: World, step: Step)
    requires Protocol(w) && Enabled(w, step) && Accepting(step)
    ensures Protocol(Do(w, step))
  {
    hide Protocol;
    match step
    case Begin(_, _, _, _, _, _) => BeginKeeps(w, step);
    case Resume(_, _, _, _) => ResumeKeeps(w, step);
    case Fire(k) => FireKeeps(w, k);
    case Expire(t) => ExpireKeeps(w, t);
    case RunCallback(i, _) =>
      if Acts(w, w.callbacks[i]) {
        ActKeeps(w, i);
      } else {
        NoopKeeps(w, i);
      }
    case Tick(ms) => TickKeeps(w, ms);
  }

  ghost predicate Execution(worlds: seq<World>, steps: seq<Step>) {
    && |worlds| == |steps| + 1 && Init(worlds[0])
    && forall i :: 0 <= i < |steps| ==> Enabled(worlds[i], steps[i]) && worlds[i + 1] == Do(worlds[i], steps[i])
  }

  // Over every sequence of call results, events, expirations and callbacks.
  lemma {:induction false} ProtocolAlways(worlds: seq<World>, steps: seq<Step>, n: nat)
    requires Execution(worlds, steps) && n <= |steps|
    requires forall i :: 0 <= i < |steps| ==> Accepting(steps[i])
    ensures Protocol(worlds[n])
  {
    if n == 0 {
      InitProtocol(worlds[0]);
    } else {
      ProtocolAlways(worlds, steps, n - 1);
      ProtocolStep(worlds[n - 1], steps[n - 1]);
    }
    hide Protocol, Do, Enabled;
  }

  lemma InitProtocol(w: World)
    requires Init(w)
    ensures Protocol(w)
  {
  }

  // A parked call is not cancelled, its slot is filled with it, and if it is
  // timed a live timer or a callback on its way will reach it.
  lemma ParkedIsServed(w: World, c: Cid)
    requires Protocol(w) && c < |w.calls| && w.calls[c].status.Waiting?
    ensures w.calls[c].cancelledBy == None
    ensures w.calls[c].slot < |w.slots| && w.slots[w.calls[c].slot] == Some(c)
    ensures w.calls[c].timeout.Some? ==>
      exists t :: 0 <= t < |w.timers| && w.timers[t].call == c && (w.timers[t].live || t in w.callbacks)
  {
    assert CallOk(w, c) && Parked(w, c);
  }

  // Once a call has returned no slot and no live timer refers to it, and a
  // callback of it that is still on its way changes nothing.
  lemma ReturnedLeavesNothing(w: World, c: Cid)
    requires Protocol(w) && c < |w.calls| && w.calls[c].status.Returned?
    ensures Some(c) !in w.slots
    ensures forall t :: 0 <= t < |w.timers| && w.timers[t].call == c ==> !w.timers[t].live
    ensures forall i: nat, willing :: Enabled(w, RunCallback(i, willing)) && w.timers[w.callbacks[i]].call == c ==>
      Do(w, RunCallback(i, willing)) == w.(callbacks := RemoveAt(w.callbacks, i))
  {
    forall k: nat | k < |w.slots| ensures w.slots[k] != Some(c) {
      assert SlotOk(w, k);
    }
    forall t: TimerId | t < |w.timers| && w.timers[t].call == c ensures !w.timers[t].live {
      assert LiveOk(w, t);
    }
  }

  // ETIMEDOUT comes from the callback of a timer that this very call armed, and
  // not before the first arming plus the timeout.
  lemma TimedOutByItself(w: World, c: Cid)
    requires Protocol(w) && c < |w.calls| && w.calls[c].status.Returned? && w.calls[c].status.result.TimedOut?
    ensures w.calls[c].timeout.Some?
    ensures w.calls[c].status.result.at >= w.calls[c].first + w.calls[c].timeout.value
    ensures exists t :: 0 <= t < |w.timers| && w.calls[c].cancelledBy == Some(t) && w.timers[t].call == c
  {
    assert CallOk(w, c) && OwnTimer(w, c, w.calls[c].cancelledBy.value);
  }

  // ---------------------------------------------------------------------------
  // A callback of an earlier round
  // ---------------------------------------------------------------------------

  function Alone(x: Call, slot: Option<Cid>, timers: seq<TimerRec>, callbacks: seq<TimerId>, now: int): World {
    World([x], [slot], timers, callbacks, now)
  }

  function RoundStep(i: nat): Step {
    match i
    case 0 => Begin(Io, 0, Some(5), Again, true, 0)
    case 1 => Fire(0)
    case 2 => Tick(5)
    case 3 => Expire(0)
    case 4 => Resume(0, Again, true, 0)
    case 5 => RunCallback(0, true)
    case _ => Resume(0, Again, true, 0)
  }

  function RoundState(i: nat): World {
    var x := Call(Io, 0, Some(5), 0, None, Waiting(Some(0)));
    var t0, t1 := TimerRec(0, 5, false), TimerRec(0, 10, true);
    match i
    case 0 => World([], [None], [], [], 0)
    case 1 => Alone(x, Some(0), [t0.(live := true)], [], 0)
    case 2 => Alone(x.(status := Woken(Some(0))), None, [t0.(live := true)], [], 0)
    case 3 => Alone(x.(status := Woken(Some(0))), None, [t0.(live := true)], [], 5)
    case 4 => Alone(x.(status := Woken(Some(0))), None, [t0], [0], 5)
    case 5 => Alone(x.(status := Waiting(Some(1))), Some(0), [t0, t1], [0], 5)
    case 6 => Alone(x.(status := Woken(Some(1)), cancelledBy := Some(0)), None, [t0, t1], [], 5)
    case _ => Alone(x.(status := Returned(TimedOut(5)), cancelledBy := Some(0)), None, [t0, t1.(live := false)], [], 5)
  }

  lemma FirstRoundRuns(i: nat)
    requires i < 4
    ensures Enabled(RoundState(i), RoundStep(i)) && Do(RoundState(i), RoundStep(i)) == RoundState(i + 1)
  {
  }

  lemma SecondRoundRuns()
    ensures Enabled(RoundState(4), RoundStep(4)) && Do(RoundState(4), RoundStep(4)) == RoundState(5)
  {
  }

  lemma CallbackRuns()
    ensures Enabled(RoundState(5), RoundStep(5)) && Do(RoundState(5), RoundStep(5)) == RoundState(6)
  {
  }

  lemma LastResumeRuns()
    ensures Enabled(RoundState(6), RoundStep(6)) && Do(RoundState(6), RoundStep(6)) == RoundState(7)
  {
  }

  // The call is woken by an event, then its timer is collected; it tries again,
  // arms the next timer and parks; then the first callback runs. The call ends
  // with ETIMEDOUT at 5 although the timer of its last round was due at 10. This
  // order takes a second run loop, or a thread outside that triggers the slot:
  // see HookLoop. The exact condition is in HookRounds.
  lemma EarlierRoundTimesOut() returns (worlds: seq<World>, steps: seq<Step>)
    ensures Execution(worlds, steps) && (forall i :: 0 <= i < |steps| ==> Accepting(steps[i]))
    ensures var e := worlds[|steps|];
      && |e.calls| == 1 && e.calls[0].status == Returned(TimedOut(5))
      && |e.timers| == 2 && e.timers[1] == TimerRec(0, 10, false)
  {
    worlds := seq(8, i requires 0 <= i => RoundState(i));
    steps := seq(7, i requires 0 <= i => RoundStep(i));
    assert Init(RoundState(0)) && forall i: nat :: i < 7 ==> Accepting(RoundStep(i));
    hide Enabled, Do, RoundStep;
    forall i | 0 <= i < 7 ensures Enabled(worlds[i], steps[i]) && worlds[i + 1] == Do(worlds[i], steps[i]) {
      if i < 4 {
        FirstRoundRuns(i);
      } else if i == 4 {
        SecondRoundRuns();
      } else if i == 5 {
        CallbackRuns();
      } else {
        LastResumeRuns();
      }
    }
  }

  // ---------------------------------------------------------------------------
  // A refused epoll_ctl inside the callback
  // ---------------------------------------------------------------------------

  predicate IsParked(w: World, c: Cid) {
    c < |w.calls| && w.calls[c].status.Waiting?
  }

  lemma MarkWokenKeeps(w: World, i: nat)
    requires Protocol(w) && Enabled(w, RunCallback(i, false)) && Acts(w, w.callbacks[i])
    requires !IsParked(w, w.timers[w.callbacks[i]].call)
    ensures Protocol(Do(w, RunCallback(i, false)))
  {
    hide RemoveAt;
    var t := w.callbacks[i];
    var c := w.timers[t].call;
    var w' := Do(w, RunCallback(i, false));
    assert LiveOk(w, t) && CallOk(w, c);
    forall u ensures u in w.callbacks && u != t ==> u in w'.callbacks {
      RemoveAtMembers(w.callbacks, i, u);
    }
    forall d: Cid | d < |w'.calls| ensures CallOk(w', d) {
      assert CallOk(w, d);
      if d != c {
        CallKept(w, w', d);
      }
    }
    forall l: nat | l < |w'.slots| ensures SlotOk(w', l) {
      assert SlotOk(w, l);
    }
    forall u: TimerId | u < |w'.timers| ensures LiveOk(w', u) {
      assert LiveOk(w, u);
    }
  }

  // The protocol survives a callback exactly unless it acts on a parked call and
  // the kernel refuses the change.
  lemma CallbackKeepsIff(w: World, i: nat, willing: bool)
    requires Protocol(w) && Enabled(w, RunCallback(i, willing))
    ensures Protocol(Do(w, RunCallback(i, willing))) <==>
      willing || !Acts(w, w.callbacks[i]) || !IsParked(w, w.timers[w.callbacks[i]].call)
  {
    var c := w.timers[w.callbacks[i]].call;
    if !Acts(w, w.callbacks[i]) {
      NoopKeeps(w, i);
    } else if willing {
      ActKeeps(w, i);
    } else if !IsParked(w, c) {
      MarkWokenKeeps(w, i);
    } else {
      var w' := Do(w, RunCallback(i, false));
      assert w'.calls[c].status.Waiting? && w'.calls[c].cancelledBy.Some?;
      assert !CallOk(w', c);
    }
  }

  // What follows then: the call stays registered, and when its event comes it
  // reports a timeout instead of trying again.
  lemma RefusedCallbackSpoilsTheEvent(w: World, i: nat, outcome: Outcome, willing: bool, late: int)
    requires Protocol(w) && Enabled(w, RunCallback(i, false)) && Acts(w, w.callbacks[i])
    requires IsParked(w, w.timers[w.callbacks[i]].call)
    requires var x := w.calls[w.timers[w.callbacks[i]].call]; x.kind.Connect? ==> outcome.Done?
    ensures var c := w.timers[w.callbacks[i]].call;
      var w1 := Do(w, RunCallback(i, false));
      Enabled(w1, Fire(w.calls[c].slot)) &&
      var w2 := Do(w1, Fire(w.calls[c].slot));
      Enabled(w2, Resume(c, outcome, willing, late)) &&
      Do(w2, Resume(c, outcome, willing, late)).calls[c].status == Returned(TimedOut(w.now))
  {
    var c := w.timers[w.callbacks[i]].call;
    assert CallOk(w, c) && Parked(w, c);
    hide RemoveAt;
  }
}
