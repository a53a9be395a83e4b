// One run loop alone: the order of its task list keeps every timeout in its round.
//
// The loop runs its tasks first come, first served and enters idle only when none
// is left. One idle pass collects expired timers first and dispatches events
// after that. So a callback stands in the list before any wake of its call that
// comes later, and a fiber that was woken earlier has run before the timers are
// looked at. Only timeout callbacks and wakes of parked calls are kept in the
// list here; whatever else a task does is a TaskBegins or a TaskTriggers.
module HookLoop {
  import opened Common
  import opened HookWait
  import opened HookRounds

  datatype Entry = Cb(t: TimerId) | Wake(c: Cid)

  datatype Phase = Draining | Collecting | Dispatching

  datatype Loop = Loop(w: World, queue: seq<Entry>, phase: Phase)

  datatype Turn =
    | RunFirst(outcome: Outcome, willing: bool, late: int)
    | TaskBegins(kind: Kind, slot: nat, timeout: Option<int>, outcome: Outcome, willing: bool, late: int)
    | TaskTriggers(slot: nat)
    | EnterIdle
    | Collect(t: TimerId)
    | EndCollect
    | Dispatch(slot: nat)
    | LeaveIdle
    | Pass(ms: nat)

  ghost predicate Start(l: Loop) {
    Init(l.w) && l.queue == [] && l.phase == Draining
  }

  // What the turn does to the calls.
  function StepOf(l: Loop, turn: Turn): Option<Step> {
    match turn
    case RunFirst(outcome, willing, late) =>
      if l.queue == [] then None
      else if l.queue[0].Cb? then Some(Step.RunCallback(0, willing))
      else Some(Step.Resume(l.queue[0].c, outcome, willing, late))
    case TaskBegins(kind, slot, timeout, outcome, willing, late) =>
      Some(Step.Begin(kind, slot, timeout, outcome, willing, late))
    case TaskTriggers(slot) => Some(Step.Fire(slot))
    case Collect(t) => Some(Step.Expire(t))
    case Dispatch(slot) => Some(Step.Fire(slot))
    case Pass(ms) => Some(Step.Tick(ms))
    case _ => None
  }

  predicate Can(l: Loop, turn: Turn) {
    && (StepOf(l, turn).Some? ==> Enabled(l.w, StepOf(l, turn).value) && Accepting(StepOf(l, turn).value))
    && match turn
       case RunFirst(_, _, _) =>
         l.phase == Draining && l.queue != [] && (l.queue[0].Cb? ==> l.w.callbacks[0] == l.queue[0].t)
       case TaskBegins(_, _, _, _, _, _) => l.phase == Draining
       case TaskTriggers(_) => l.phase == Draining
       case EnterIdle => l.phase == Draining && l.queue == []
       case Collect(_) => l.phase == Collecting
       case EndCollect => l.phase == Collecting
       case Dispatch(_) => l.phase == Dispatching
       case LeaveIdle => l.phase == Dispatching
       case Pass(_) => true
  }

  // The task that a trigger of slot k appends.
  function Fired(w: World, k: nat): seq<Entry> {
    if k < |w.slots| && w.slots[k].Some? && w.slots[k].value < |w.calls| && w.calls[w.slots[k].value].status.Waiting?
    then [Wake(w.slots[k].value)] else []
  }

  function Queue(l: Loop, turn: Turn): seq<Entry>
    requires Can(l, turn)
  {
    match turn
    case RunFirst(_, _, _) =>
      var e := l.queue[0];
      l.queue[1..] +
      (if e.Cb? && Acts(l.w, e.t) then Fired(l.w, l.w.calls[l.w.timers[e.t].call].slot) else [])
    case TaskTriggers(k) => l.queue + Fired(l.w, k)
    case Collect(t) => l.queue + [Cb(t)]
    case Dispatch(k) => l.queue + Fired(l.w, k)
    case _ => l.queue
  }

  function Next(l: Loop, turn: Turn): Loop
    requires Can(l, turn)
  {
    Loop(if StepOf(l, turn).Some? then Do(l.w, StepOf(l, turn).value) else l.w,
         Queue(l, turn),
         match turn
         case EnterIdle => Collecting
         case EndCollect => Dispatching
         case LeaveIdle => Draining
         case _ => l.phase)
  }

  ghost predicate Run(loops: seq<Loop>, turns: seq<Turn>) {
    && |loops| == |turns| + 1 && Start(loops[0])
    && forall i :: 0 <= i < |turns| ==> Can(loops[i], turns[i]) && loops[i + 1] == Next(loops[i], turns[i])
  }

  // ---------------------------------------------------------------------------
  // The order of the list
  // ---------------------------------------------------------------------------

  function CbsOf(q: seq<Entry>): seq<TimerId> {
    if q == [] then []
    else if q[0].Cb? then [q[0].t] + CbsOf(q[1..]) else CbsOf(q[1..])
  }

  lemma {:induction false} CbsOfSnoc(q: seq<Entry>, e: Entry)
    ensures CbsOf(q + [e]) == CbsOf(q) + if e.Cb? then [e.t] else []
  {
    if q == [] {
      assert q + [e] == [e];
    } else {
      CbsOfSnoc(q[1..], e);
      assert (q + [e])[1..] == q[1..] + [e];
    }
  }

  lemma {:induction false} CbsOfMember(q: seq<Entry>, t: TimerId)
    ensures t in CbsOf(q) <==> Cb(t) in q
  {
    if q != [] {
      CbsOfMember(q[1..], t);
      assert q == [q[0]] + q[1..];
    }
  }

  // The wakes in the list are those of the woken calls, once each.
  ghost predicate WakesFit(w: World, q: seq<Entry>) {
    && (forall i :: 0 <= i < |q| && q[i].Wake? ==> q[i].c < |w.calls| && w.calls[q[i].c].status.Woken?)
    && (forall i, j :: 0 <= i < j < |q| && q[i].Wake? ==> q[j] != q[i])
    && (forall c: Cid :: c < |w.calls| && w.calls[c].status.Woken? ==> Wake(c) in q)
  }

  // A callback in the list is of the round its call is in, and stands before the
  // wake of that call.
  ghost predicate InRound(w: World, q: seq<Entry>, i: nat)
    requires i < |q|
  {
    q[i].Cb? ==>
      && q[i].t < |w.timers|
      && var c := w.timers[q[i].t].call;
         Open(w, c) ==>
           w.calls[c].status.timer == Some(q[i].t) && forall j :: 0 <= j < |q| && q[j] == Wake(c) ==> i < j
  }

  ghost predicate Ordered(w: World, q: seq<Entry>) {
    forall i: nat {:trigger InRound(w, q, i)} :: i < |q| ==> InRound(w, q, i)
  }

  // A cancelled call was cancelled by the timer of its round.
  ghost predicate ByOwnTimer(w: World) {
    forall c: Cid :: c < |w.calls| && !w.calls[c].status.Returned? && w.calls[c].cancelledBy.Some? ==>
      w.calls[c].cancelledBy == w.calls[c].status.timer
  }

  ghost predicate LoopInv(l: Loop) {
    && Protocol(l.w) && l.w.callbacks == CbsOf(l.queue)
    && WakesFit(l.w, l.queue) && Ordered(l.w, l.queue) && ByOwnTimer(l.w)
    && (l.phase == Collecting ==> forall i :: 0 <= i < |l.queue| ==> l.queue[i].Cb?)
  }

  // A trigger wakes the call parked in the slot and puts it at the end.
  lemma TriggerKeeps(w: World, q: seq<Entry>, k: nat)
    requires WakesFit(w, q) && Ordered(w, q) && ByOwnTimer(w) && k < |w.slots|
    ensures var w' := FireSlot(w, k); var q' := q + Fired(w, k);
      && WakesFit(w', q') && Ordered(w', q') && ByOwnTimer(w') && CbsOf(q') == CbsOf(q)
  {
    FireFrame(w, k);
    if Fired(w, k) == [] {
      assert q + Fired(w, k) == q;
      assert FireSlot(w, k).calls == w.calls;
      SameCallsKeep(w, FireSlot(w, k), q);
    } else {
      var d := w.slots[k].value;
      CbsOfSnoc(q, Wake(d));
      WakeAppended(w, FireSlot(w, k), q, d);
    }
    hide WakesFit, Ordered, ByOwnTimer, CbsOf, FireSlot;
  }

  lemma SameCallsKeep(w: World, w': World, q: seq<Entry>)
    requires WakesFit(w, q) && Ordered(w, q) && ByOwnTimer(w) && w'.calls == w.calls && w'.timers == w.timers
    ensures WakesFit(w', q) && Ordered(w', q) && ByOwnTimer(w')
  {
    forall i: nat | i < |q| ensures InRound(w', q, i) {
      assert InRound(w, q, i);
    }
  }

  // Call d, parked before, is woken and its wake stands at the end.
  lemma WakeAppended(w: World, w': World, q: seq<Entry>, d: Cid)
    requires WakesFit(w, q) && Ordered(w, q) && ByOwnTimer(w) && w'.timers == w.timers
    requires d < |w.calls| && w.calls[d].status.Waiting? && |w'.calls| == |w.calls|
    requires w'.calls[d].status == Woken(w.calls[d].status.timer) && w'.calls[d].cancelledBy == w.calls[d].cancelledBy
    requires forall c :: 0 <= c < |w.calls| && c != d ==> w'.calls[c] == w.calls[c]
    ensures WakesFit(w', q + [Wake(d)]) && Ordered(w', q + [Wake(d)]) && ByOwnTimer(w')
  {
    var q' := q + [Wake(d)];
    assert q'[|q|] == Wake(d);
    forall c: Cid | c < |w'.calls| && w'.calls[c].status.Woken? ensures Wake(c) in q' {
      if w.calls[c].status.Woken? {
        assert Wake(c) in q;
      }
    }
    forall i: nat | i < |q'| ensures InRound(w', q', i) {
      if i < |q| {
        assert InRound(w, q, i);
      }
    }
  }

  lemma ResumeTurn(l: Loop, turn: Turn)
    requires LoopInv(l) && Can(l, turn) && turn.RunFirst? && l.queue[0].Wake?
    ensures LoopInv(Next(l, turn))
  {
    var step := StepOf(l, turn).value;
    var w, w' := l.w, Do(l.w, step);
    ProtocolStep(w, step);
    ResumeFrame(w, step);
    assert Next(l, turn) == Loop(w', l.queue[1..], l.phase) by {
      assert l.queue[1..] + [] == l.queue[1..];
    }
    assert !w.calls[step.c].status.Returned? && CallOk(w, step.c);
    hide Do, Protocol, Enabled;
    PopWake(w, w', l.queue);
  }

  // The wake at the head leaves the list: its call parks again or returns.
  lemma PopWake(w: World, w': World, q: seq<Entry>)
    requires WakesFit(w, q) && Ordered(w, q) && ByOwnTimer(w) && q != [] && q[0].Wake? && q[0].c < |w.calls|
    requires TimersKept(w, w') && |w'.calls| == |w.calls|
    requires forall d :: 0 <= d < |w.calls| && d != q[0].c ==> w'.calls[d] == w.calls[d]
    requires w'.calls[q[0].c].cancelledBy == w.calls[q[0].c].cancelledBy
    requires !w'.calls[q[0].c].status.Woken? && !w.calls[q[0].c].status.Returned?
    requires w'.calls[q[0].c].status.Waiting? ==> w.calls[q[0].c].cancelledBy.None?
    ensures WakesFit(w', q[1..]) && Ordered(w', q[1..]) && ByOwnTimer(w') && CbsOf(q[1..]) == CbsOf(q)
  {
    var c, q' := q[0].c, q[1..];
    forall i: nat | i < |q'| ensures InRound(w', q', i) {
      assert InRound(w, q, i + 1) && q'[i] == q[i + 1];
      if q'[i].Cb? && Open(w', w.timers[q'[i].t].call) {
        WakeInFront(w, q, i + 1);
        forall j | 0 <= j < |q'| && q'[j] == Wake(w.timers[q'[i].t].call) ensures i < j {
          assert q[j + 1] == q'[j];
        }
      }
    }
    forall d: Cid | d < |w'.calls| && w'.calls[d].status.Woken? ensures Wake(d) in q' {
      assert Wake(d) in q && d != c;
      var i: nat :| i < |q| && q[i] == Wake(d);
      assert q'[i - 1] == Wake(d);
    }
    forall i | 0 <= i < |q'| && q'[i].Wake? ensures w'.calls[q'[i].c].status.Woken? {
      assert q[i + 1] != q[0];
    }
  }

  // A callback behind the wake of its own call finds that call closed.
  lemma WakeInFront(w: World, q: seq<Entry>, i: nat)
    requires Ordered(w, q) && 0 < i < |q| && q[0].Wake? && q[i].Cb?
    ensures q[i].t < |w.timers|
    ensures w.timers[q[i].t].call == q[0].c ==> !Open(w, q[0].c)
  {
    assert InRound(w, q, i);
  }

  lemma CallbackTurn(l: Loop, turn: Turn)
    requires LoopInv(l) && Can(l, turn) && turn.RunFirst? && l.queue[0].Cb?
    ensures LoopInv(Next(l, turn))
  {
    ProtocolStep(l.w, RunCallback(0, turn.willing));
    CallbackOrder(l.w, l.queue);
    hide Protocol, WakesFit, Ordered, ByOwnTimer, CbsOf, Acts, FireSlot;
  }

  // Running the callback at the head, whether it acts or not.
  lemma CallbackOrder(w: World, q: seq<Entry>)
    requires Protocol(w) && WakesFit(w, q) && Ordered(w, q) && ByOwnTimer(w) && w.callbacks == CbsOf(q)
    requires q != [] && q[0].Cb? && Enabled(w, RunCallback(0, true))
    ensures w.callbacks[0] == q[0].t
    ensures var w' := Do(w, RunCallback(0, true));
      var q' := q[1..] + if Acts(w, q[0].t) then Fired(w, w.calls[w.timers[q[0].t].call].slot) else [];
      WakesFit(w', q') && Ordered(w', q') && ByOwnTimer(w') && w'.callbacks == CbsOf(q')
  {
    var t := q[0].t;
    assert InRound(w, q, 0);
    if Acts(w, t) {
      ActingOrder(w, q);
    } else {
      var rest := w.(callbacks := RemoveAt(w.callbacks, 0));
      assert rest.callbacks == CbsOf(q[1..]);
      PopCallback(w, rest, q);
      assert q[1..] + [] == q[1..];
      hide Protocol, WakesFit, Ordered, ByOwnTimer, CbsOf;
    }
  }

  lemma CbsOfHead(q: seq<Entry>)
    requires q != [] && q[0].Cb?
    ensures CbsOf(q) != [] && CbsOf(q)[0] == q[0].t && RemoveAt(CbsOf(q), 0) == CbsOf(q[1..])
  {
  }

  lemma FiredAgrees(w: World, w': World, k: nat)
    requires w'.slots == w.slots && |w'.calls| == |w.calls|
    requires forall d :: 0 <= d < |w.calls| ==> w'.calls[d].status == w.calls[d].status
    ensures Fired(w', k) == Fired(w, k)
  {
  }

  lemma ActingOrder(w: World, q: seq<Entry>)
    requires Protocol(w) && WakesFit(w, q) && Ordered(w, q) && ByOwnTimer(w) && w.callbacks == CbsOf(q)
    requires q != [] && q[0].Cb? && Enabled(w, RunCallback(0, true)) && Acts(w, q[0].t) && w.callbacks[0] == q[0].t
    ensures var w' := Do(w, RunCallback(0, true));
      var q' := q[1..] + Fired(w, w.calls[w.timers[q[0].t].call].slot);
      WakesFit(w', q') && Ordered(w', q') && ByOwnTimer(w') && w'.callbacks == CbsOf(q')
  {
    hide Protocol, WakesFit, Ordered, ByOwnTimer, Fired, FireSlot;
    CbsOfHead(q);
    hide CbsOf, RemoveAt;
    var t := q[0].t;
    var c := w.timers[t].call;
    var rest := w.(callbacks := RemoveAt(w.callbacks, 0));
    var marked := rest.(calls := w.calls[c := w.calls[c].(cancelledBy := Some(t))]);
    assert Do(w, RunCallback(0, true)) == FireSlot(marked, w.calls[c].slot);
    hide Do, Enabled;
    PopCallback(w, marked, q);
    FireFrame(marked, w.calls[c].slot);
    FiredAgrees(w, marked, w.calls[c].slot);
    TriggerKeeps(marked, q[1..], w.calls[c].slot);
  }

  // The callback at the head leaves the list and has or has not cancelled its call.
  lemma PopCallback(w: World, w': World, q: seq<Entry>)
    requires WakesFit(w, q) && Ordered(w, q) && ByOwnTimer(w) && q != [] && q[0].Cb? && q[0].t < |w.timers|
    requires w'.timers == w.timers && |w'.calls| == |w.calls|
    requires forall d :: 0 <= d < |w.calls| ==>
      && w'.calls[d].status == w.calls[d].status
      && (w'.calls[d].cancelledBy == w.calls[d].cancelledBy ||
          (d == w.timers[q[0].t].call && w.calls[d].cancelledBy.None? && w'.calls[d].cancelledBy == Some(q[0].t)))
    ensures WakesFit(w', q[1..]) && Ordered(w', q[1..]) && ByOwnTimer(w')
  {
    var q' := q[1..];
    assert InRound(w, q, 0);
    forall d: Cid | d < |w'.calls| && w'.calls[d].status.Woken? ensures Wake(d) in q' {
      var i: nat :| i < |q| && q[i] == Wake(d);
      assert q'[i - 1] == Wake(d);
    }
    forall i: nat | i < |q'| ensures InRound(w', q', i) {
      assert InRound(w, q, i + 1) && q'[i] == q[i + 1];
      if q'[i].Cb? && Open(w', w.timers[q'[i].t].call) {
        var d := w.timers[q'[i].t].call;
        assert Open(w, d);
        forall j | 0 <= j < |q'| && q'[j] == Wake(d) ensures i < j {
          assert q[j + 1] == Wake(d);
        }
      }
    }
  }

  // Timers are collected while no fiber is in the list, so the call is parked.
  lemma CollectTurn(l: Loop, t: TimerId)
    requires LoopInv(l) && Can(l, Collect(t))
    ensures LoopInv(Next(l, Collect(t)))
  {
    ProtocolStep(l.w, Expire(t));
    CbsOfSnoc(l.queue, Cb(t));
    assert LiveOk(l.w, t);
    CollectOrder(l.w, l.queue, t);
    hide Protocol, WakesFit, Ordered, ByOwnTimer, CbsOf;
  }

  lemma CollectOrder(w: World, q: seq<Entry>, t: TimerId)
    requires WakesFit(w, q) && Ordered(w, q) && ByOwnTimer(w) && Enabled(w, Expire(t)) && LiveOk(w, t)
    requires forall i :: 0 <= i < |q| ==> q[i].Cb?
    ensures var w' := Do(w, Expire(t)); var q' := q + [Cb(t)];
      WakesFit(w', q') && Ordered(w', q') && ByOwnTimer(w') && forall i :: 0 <= i < |q'| ==> q'[i].Cb?
  {
    var w', q' := Do(w, Expire(t)), q + [Cb(t)];
    forall c: Cid | c < |w.calls| ensures !w.calls[c].status.Woken? {
      assert Wake(c) !in q;
    }
    forall i: nat | i < |q'| ensures InRound(w', q', i) {
      assert i < |q| ==> InRound(w, q, i);
    }
  }

  lemma BeginTurn(l: Loop, turn: Turn)
    requires LoopInv(l) && Can(l, turn) && turn.TaskBegins?
    ensures LoopInv(Next(l, turn))
  {
    var step := StepOf(l, turn).value;
    var w, q, w' := l.w, l.queue, Do(l.w, step);
    ProtocolStep(w, step);
    BeginFrame(w, step);
    forall i: nat | i < |q| ensures InRound(w', q, i) {
      assert InRound(w, q, i);
      if q[i].Cb? {
        assert LiveOk(w, q[i].t);
      }
    }
    hide Do, Protocol, Enabled;
  }

  lemma PassTurn(l: Loop, ms: nat)
    requires LoopInv(l)
    ensures LoopInv(Next(l, Pass(ms)))
  {
    var w, q, w' := l.w, l.queue, l.w.(now := l.w.now + ms);
    TickKeeps(w, ms);
    forall i: nat | i < |q| ensures InRound(w', q, i) {
      assert InRound(w, q, i);
    }
    hide Protocol;
  }

  // A running task or the dispatch triggers slot k.
  lemma TriggerTurn(l: Loop, turn: Turn, k: nat)
    requires LoopInv(l) && Can(l, turn) && (turn == TaskTriggers(k) || turn == Dispatch(k))
    ensures LoopInv(Next(l, turn))
  {
    ProtocolStep(l.w, Fire(k));
    TriggerKeeps(l.w, l.queue, k);
    FireFrame(l.w, k);
    hide Protocol, WakesFit, Ordered, ByOwnTimer, CbsOf, FireSlot, Fired;
  }

  lemma IdleTurn(l: Loop, turn: Turn)
    requires LoopInv(l) && Can(l, turn) && (turn.EnterIdle? || turn.EndCollect? || turn.LeaveIdle?)
    ensures LoopInv(Next(l, turn))
  {
    hide Protocol, WakesFit, Ordered, ByOwnTimer, CbsOf;
  }

  lemma LoopStep(l: Loop, turn: Turn)
    requires LoopInv(l) && Can(l, turn)
    ensures LoopInv(Next(l, turn))
  {
    hide LoopInv, Next;
    match turn
    case RunFirst(_, _, _) =>
      if l.queue[0].Cb? {
        CallbackTurn(l, turn);
      } else {
        ResumeTurn(l, turn);
      }
    case TaskBegins(_, _, _, _, _, _) => BeginTurn(l, turn);
    case TaskTriggers(k) => TriggerTurn(l, turn, k);
    case Collect(t) => CollectTurn(l, t);
    case Dispatch(k) => TriggerTurn(l, turn, k);
    case Pass(ms) => PassTurn(l, ms);
    case _ => IdleTurn(l, turn);
  }

  lemma {:induction false} LoopAlways(loops: seq<Loop>, turns: seq<Turn>, n: nat)
    requires Run(loops, turns) && n <= |turns|
    ensures LoopInv(loops[n])
  {
    if n > 0 {
      LoopAlways(loops, turns, n - 1);
      LoopStep(loops[n - 1], turns[n - 1]);
    }
  }

  // With one run loop alone no callback of an earlier round is ever on its way.
  lemma OneLoopIsNeverStale(loops: seq<Loop>, turns: seq<Turn>, n: nat, c: Cid)
    requires Run(loops, turns) && n <= |turns| && Open(loops[n].w, c)
    ensures !Stale(loops[n].w, c)
  {
    LoopAlways(loops, turns, n);
    var w, q := loops[n].w, loops[n].queue;
    forall i: nat ensures !StaleAt(w, c, i) {
      if i < |w.callbacks| {
        CbsOfMember(q, w.callbacks[i]);
        var j: nat :| j < |q| && q[j] == Cb(w.callbacks[i]);
        assert InRound(w, q, j);
      }
    }
  }

  // A timeout there is always that of the round it ends, and not before its deadline.
  lemma OneLoopTimesOutOwnRound(loops: seq<Loop>, turns: seq<Turn>, n: nat, c: Cid)
    requires Run(loops, turns) && n <= |turns| && c < |loops[n].w.calls|
    requires loops[n].w.calls[c].status.Woken? && loops[n].w.calls[c].cancelledBy.Some?
    ensures var w := loops[n].w; var timer := w.calls[c].status.timer;
      w.calls[c].cancelledBy == timer && timer.value < |w.timers| && w.now >= w.timers[timer.value].deadline
  {
    LoopAlways(loops, turns, n);
    assert CallOk(loops[n].w, c);
  }
}
