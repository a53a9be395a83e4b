// Shutdown of the I/O manager: any number of run loops, each with its idle
// fiber, as an interleaved step machine.
//
// The stop check of idle is one step: no timer, no pending event, and the base
// check. Everything else is as fine as the code: an idle loop holds the callbacks
// it collected until it has scheduled them one by one, and a trigger queues its
// task before the pending counter drops. Which queued task a scan takes, and
// whether a collected timer is armed again, is left open.
module IoShutdown {
  import opened Common

  // A piece of work: a scheduled task, a timer or an I/O registration. Its number
  // stays with it on its way to being executed.
  type Id = nat

  datatype Phase =
    | Scanning
    | Running(item: Id)          // dequeued, counted active
    | Empty                      // the scan found nothing
    | IdleTop                    // inside idle, before the stop check
    | Sleeping                   // the check failed: epoll_wait
    | Collecting(cbs: seq<Id>)   // listExpiredCb
    | Posting(cbs: seq<Id>)      // scheduling the callbacks
    | Dispatching                // working off the reports
    | Exited

  // `idleEnded`: the idle fiber is TERM. `owing`: a task was queued by a trigger
  // and the counter has not dropped yet.
  datatype Loop = Loop(phase: Phase, idleEnded: bool, owing: bool)

  datatype State = State(
    queue: seq<Id>,
    loops: seq<Loop>,
    timers: set<Id>,
    regs: set<Id>,
    pending: int,
    owedOutside: int,
    active: int,
    stopping: bool,
    made: nat,
    executed: seq<Id>,
    removed: seq<Id>)

  // `who` is the run loop whose task acts, or None for code outside the loops.
  datatype Step =
    | Schedule(who: Option<Tid>)
    | AddTimer(who: Option<Tid>)
    | AddEvent(who: Option<Tid>)
    | CancelTimer(id: Id)
    | DelEvent(id: Id)
    | Push(who: Option<Tid>, id: Id)  // triggerEvent
    | Drop(who: Option<Tid>)          // --m_pendingEventCount
    | Scan(t: Tid, k: nat)
    | Complete(t: Tid)
    | PickIdle(t: Tid)
    | IdleCheck(t: Tid)
    | Wake(t: Tid)
    | TakeExpired(t: Tid, id: Id, rearmed: bool)
    | EndCollect(t: Tid)
    | Post(t: Tid)
    | EndPost(t: Tid)
    | EndDispatch(t: Tid)
    | SetStopping

  ghost predicate Init(s: State) {
    && s.queue == [] && s.timers == {} && s.regs == {} && s.pending == 0 && s.owedOutside == 0
    && s.active == 0 && !s.stopping && s.made == 0 && s.executed == [] && s.removed == []
    && forall t :: 0 <= t < |s.loops| ==> s.loops[t] == Loop(Scanning, false, false)
  }

  predicate At(s: State, t: Tid, p: Phase) {
    t < |s.loops| && s.loops[t].phase == p && !s.loops[t].owing
  }

  predicate Busy(s: State, t: Tid) {
    t < |s.loops| && s.loops[t].phase.Running?
  }

  // Once stop has begun, only tasks and idle loops create work. A registration may
  // still be triggered, cancelled or deleted by anybody.
  predicate MayCreate(s: State, who: Option<Tid>) {
    if who.None? then !s.stopping else Busy(s, who.value) && !s.loops[who.value].owing
  }

  predicate Enabled(s: State, step: Step) {
    match step
    case Schedule(who) => MayCreate(s, who)
    case AddTimer(who) => MayCreate(s, who)
    case AddEvent(who) => MayCreate(s, who)
    case CancelTimer(id) => id in s.timers
    case DelEvent(id) => id in s.regs
    case Push(who, id) => id in s.regs && (who.None? || MayCreate(s, who) || At(s, who.value, Dispatching))
    case Drop(who) => if who.None? then s.owedOutside > 0 else who.value < |s.loops| && s.loops[who.value].owing
    case Scan(t, k) => At(s, t, Scanning) && k <= |s.queue|
    case Complete(t) => Busy(s, t) && !s.loops[t].owing
    case PickIdle(t) => At(s, t, Empty)
    case IdleCheck(t) => At(s, t, IdleTop)
    case Wake(t) => At(s, t, Sleeping)
    case TakeExpired(t, id, _) => t < |s.loops| && s.loops[t].phase.Collecting? && id in s.timers
    case EndCollect(t) => t < |s.loops| && s.loops[t].phase.Collecting?
    case Post(t) => t < |s.loops| && s.loops[t].phase.Posting? && s.loops[t].phase.cbs != []
    case EndPost(t) => At(s, t, Posting([]))
    case EndDispatch(t) => At(s, t, Dispatching)
    case SetStopping => true
  }

  function Go(s: State, t: Tid, p: Phase): State
    requires t < |s.loops|
  {
    s.(loops := s.loops[t := s.loops[t].(phase := p)])
  }

  function Owe(s: State, who: Option<Tid>, owing: bool): State
    requires who.Some? ==> who.value < |s.loops|
  {
    if who.None? then s.(owedOutside := s.owedOutside + if owing then 1 else -1)
    else s.(loops := s.loops[who.value := s.loops[who.value].(owing := owing)])
  }

  // The composite stop check.
  predicate Quiescent(s: State) {
    s.timers == {} && s.pending == 0 && s.stopping && s.queue == [] && s.active == 0
  }

  function Do(s: State, step: Step): State
    requires Enabled(s, step)
  {
    match step
    case Schedule(_) => s.(queue := s.queue + [s.made], made := s.made + 1)
    case AddTimer(_) => s.(timers := s.timers + {s.made}, made := s.made + 1)
    case AddEvent(_) => s.(regs := s.regs + {s.made}, pending := s.pending + 1, made := s.made + 1)
    case CancelTimer(id) => s.(timers := s.timers - {id}, removed := s.removed + [id])
    case DelEvent(id) => s.(regs := s.regs - {id}, pending := s.pending - 1, removed := s.removed + [id])
    case Push(who, id) => Owe(s, who, true).(regs := s.regs - {id}, queue := s.queue + [id])
    case Drop(who) => Owe(s, who, false).(pending := s.pending - 1)
    case Scan(t, k) =>
      if k < |s.queue| then
        Go(s, t, Running(s.queue[k])).(queue := RemoveAt(s.queue, k), active := s.active + 1)
      else Go(s, t, Empty)
    case Complete(t) =>
      Go(s, t, Scanning).(active := s.active - 1, executed := s.executed + [s.loops[t].phase.item])
    case PickIdle(t) => Go(s, t, if s.loops[t].idleEnded then Exited else IdleTop)
    case IdleCheck(t) =>
      if Quiescent(s) then s.(loops := s.loops[t := Loop(Scanning, true, false)])
      else Go(s, t, Sleeping)
    case Wake(t) => Go(s, t, Collecting([]))
    case TakeExpired(t, id, rearmed) =>
      var cbs := s.loops[t].phase.cbs;
      if rearmed then Go(s, t, Collecting(cbs + [s.made])).(made := s.made + 1)
      else Go(s, t, Collecting(cbs + [id])).(timers := s.timers - {id})
    case EndCollect(t) => Go(s, t, Posting(s.loops[t].phase.cbs))
    case Post(t) =>
      var cbs := s.loops[t].phase.cbs;
      Go(s, t, Posting(cbs[1..])).(queue := s.queue + [cbs[0]])
    case EndPost(t) => Go(s, t, Dispatching)
    case EndDispatch(t) => Go(s, t, Scanning)
    case SetStopping => s.(stopping := true)
  }

  ghost predicate Steps(states: seq<State>, steps: seq<Step>) {
    && |states| == |steps| + 1
    && forall i :: 0 <= i < |steps| ==> Enabled(states[i], steps[i]) && states[i + 1] == Do(states[i], steps[i])
  }

  ghost predicate Execution(states: seq<State>, steps: seq<Step>) {
    Steps(states, steps) && Init(states[0])
  }

  // ---------------------------------------------------------------------------
  // The counters and the phases
  // ---------------------------------------------------------------------------

  function BusyLoops(s: State): set<Tid> {
    set t: Tid | t < |s.loops| && s.loops[t].phase.Running?
  }

  function OwingLoops(s: State): set<Tid> {
    set t: Tid | t < |s.loops| && s.loops[t].owing
  }

  ghost predicate PhaseOk(l: Loop) {
    && (l.idleEnded ==> l.phase.Scanning? || l.phase.Running? || l.phase.Empty? || l.phase.Exited?)
    && (l.phase.Exited? ==> l.idleEnded)
    && (l.owing ==> l.phase.Running? || l.phase.Dispatching?)
  }

  ghost predicate Phases(s: State) {
    forall t :: 0 <= t < |s.loops| ==> PhaseOk(s.loops[t])
  }

  // m_activeThreadCount counts the loops between dequeue and completion, and
  // m_pendingEventCount the registrations and the triggers under way.
  ghost predicate Counts(s: State) {
    && s.active == |BusyLoops(s)|
    && s.pending == |s.regs| + |OwingLoops(s)| + s.owedOutside
    && s.owedOutside >= 0
  }

  lemma PhasesStep(s: State, step: Step)
    requires Phases(s) && Enabled(s, step)
    ensures Phases(Do(s, step))
  {
  }

  // One loop changes.
  lemma LoopSets(s: State, s': State, t: Tid)
    requires t < |s.loops| && |s'.loops| == |s.loops| && s'.loops == s.loops[t := s'.loops[t]]
    ensures BusyLoops(s') == if s'.loops[t].phase.Running? then BusyLoops(s) + {t} else BusyLoops(s) - {t}
    ensures OwingLoops(s') == if s'.loops[t].owing then OwingLoops(s) + {t} else OwingLoops(s) - {t}
    ensures t in BusyLoops(s) <==> s.loops[t].phase.Running?
    ensures t in OwingLoops(s) <==> s.loops[t].owing
  {
    assert forall u: Tid :: u < |s.loops| && u != t ==> s'.loops[u] == s.loops[u];
  }

  // No loop changes. The registrations may, with the counter.
  lemma CountsSameLoops(s: State, s': State)
    requires Counts(s) && s'.loops == s.loops && s'.active == s.active && s'.owedOutside == s.owedOutside
    requires s'.pending - |s'.regs| == s.pending - |s.regs|
    ensures Counts(s')
  {
    assert BusyLoops(s') == BusyLoops(s) && OwingLoops(s') == OwingLoops(s);
  }

  lemma SameLoopSets(s: State, s': State)
    requires s'.loops == s.loops
    ensures BusyLoops(s') == BusyLoops(s) && OwingLoops(s') == OwingLoops(s)
  {
  }

  // The loop sets after queueing, or counting down, by loop t.
  lemma OweSets(s: State, s': State, t: Tid, owing: bool)
    requires t < |s.loops| && s'.loops == s.loops[t := s.loops[t].(owing := owing)]
    ensures BusyLoops(s') == BusyLoops(s)
    ensures OwingLoops(s') == if owing then OwingLoops(s) + {t} else OwingLoops(s) - {t}
    ensures t in OwingLoops(s) <==> s.loops[t].owing
  {
    LoopSets(s, s', t);
    assert s.loops[t].phase.Running? <==> t in BusyLoops(s);
  }

  lemma CountsPush(s: State, who: Option<Tid>, id: Id)
    requires Counts(s) && Enabled(s, Push(who, id))
    ensures Counts(Do(s, Push(who, id)))
  {
    hide BusyLoops, OwingLoops;
    var s' := Do(s, Push(who, id));
    OneLess(s.regs, id);
    if who.Some? {
      OweSets(s, s', who.value, true);
      OneLess(OwingLoops(s) + {who.value}, who.value);
      assert OwingLoops(s) + {who.value} - {who.value} == OwingLoops(s);
      hide Enabled, Do;
    } else {
      SameLoopSets(s, s');
      hide Enabled;
    }
  }

  lemma OneLess(q: set<nat>, x: nat)
    requires x in q
    ensures |q - {x}| == |q| - 1
  {
  }

  lemma CountsDrop(s: State, who: Option<Tid>)
    requires Counts(s) && Enabled(s, Drop(who))
    ensures Counts(Do(s, Drop(who)))
  {
    hide BusyLoops, OwingLoops;
    var s' := Do(s, Drop(who));
    if who.Some? {
      OweSets(s, s', who.value, false);
    } else {
      SameLoopSets(s, s');
    }
  }

  lemma CountsScan(s: State, t: Tid, k: nat)
    requires Counts(s) && Enabled(s, Scan(t, k))
    ensures Counts(Do(s, Scan(t, k)))
  {
    hide RemoveAt;
    LoopSets(s, Do(s, Scan(t, k)), t);
  }

  lemma CountsComplete(s: State, t: Tid)
    requires Counts(s) && Enabled(s, Complete(t))
    ensures Counts(Do(s, Complete(t)))
  {
    LoopSets(s, Do(s, Complete(t)), t);
  }

  // A loop goes on in its idle fiber.
  lemma CountsIdle(s: State, s': State, t: Tid)
    requires Counts(s) && t < |s.loops| && |s'.loops| == |s.loops| && s'.loops == s.loops[t := s'.loops[t]]
    requires !s.loops[t].phase.Running? && !s'.loops[t].phase.Running? && s'.loops[t].owing == s.loops[t].owing
    requires s'.active == s.active && s'.pending == s.pending && s'.owedOutside == s.owedOutside && s'.regs == s.regs
    ensures Counts(s')
  {
    LoopSets(s, s', t);
  }

  predicate GoesOnIdle(step: Step) {
    step.PickIdle? || step.IdleCheck? || step.Wake? || step.EndCollect? || step.EndPost? || step.EndDispatch?
  }

  lemma CountsIdleStep(s: State, step: Step)
    requires Counts(s) && Phases(s) && Enabled(s, step)
    requires GoesOnIdle(step) || step.TakeExpired? || step.Post?
    ensures Counts(Do(s, step))
  {
    hide Counts;
    CountsIdle(s, Do(s, step), step.t);
  }

  lemma CountsMake(s: State, step: Step)
    requires Counts(s) && s.made !in s.regs && Enabled(s, step)
    requires step.Schedule? || step.AddTimer? || step.AddEvent? || step.CancelTimer? || step.DelEvent? ||
      step.SetStopping?
    ensures Counts(Do(s, step))
  {
    CountsSameLoops(s, Do(s, step));
    hide Counts;
  }

  lemma CountsStep(s: State, step: Step)
    requires Counts(s) && Phases(s) && s.made !in s.regs && Enabled(s, step)
    ensures Counts(Do(s, step))
  {
    hide Counts, Do, Enabled, Phases;
    match step
    case Push(who, id) => CountsPush(s, who, id);
    case Drop(who) => CountsDrop(s, who);
    case Scan(t, k) => CountsScan(s, t, k);
    case Complete(t) => CountsComplete(s, t);
    case PickIdle(_) => CountsIdleStep(s, step);
    case IdleCheck(_) => CountsIdleStep(s, step);
    case Wake(_) => CountsIdleStep(s, step);
    case TakeExpired(_, _, _) => CountsIdleStep(s, step);
    case EndCollect(_) => CountsIdleStep(s, step);
    case Post(_) => CountsIdleStep(s, step);
    case EndPost(_) => CountsIdleStep(s, step);
    case EndDispatch(_) => CountsIdleStep(s, step);
    case _ => CountsMake(s, step);
  }

  // ---------------------------------------------------------------------------
  // Conservation: every piece of work is in exactly one place
  // ---------------------------------------------------------------------------

  function Is(x: Id): Id -> nat {
    y => if y == x then 1 else 0
  }

  function Occurs(q: seq<Id>, x: Id): nat {
    Total(q, Is(x))
  }

  // What a loop holds: the item it runs, or the callbacks it has collected and
  // not scheduled yet.
  function Holds(p: Phase, x: Id): nat {
    match p
    case Running(item) => if item == x then 1 else 0
    case Collecting(cbs) => Occurs(cbs, x)
    case Posting(cbs) => Occurs(cbs, x)
    case _ => 0
  }

  function HoldsOf(x: Id): Loop -> nat {
    (l: Loop) => Holds(l.phase, x)
  }

  function InLoops(loops: seq<Loop>, x: Id): nat {
    Total(loops, HoldsOf(x))
  }

  // The number of places x is in.
  function Places(s: State, x: Id): nat {
    Occurs(s.queue, x) + (if x in s.timers then 1 else 0) + (if x in s.regs then 1 else 0)
    + InLoops(s.loops, x) + Occurs(s.executed, x) + Occurs(s.removed, x)
  }

  ghost predicate Conserved(s: State) {
    forall x: Id :: Places(s, x) == if x < s.made then 1 else 0
  }

  lemma InLoopsUpdate(loops: seq<Loop>, t: Tid, l: Loop, x: Id)
    requires t < |loops|
    ensures InLoops(loops[t := l], x) + Holds(loops[t].phase, x) == InLoops(loops, x) + Holds(l.phase, x)
  {
    TotalUpdate(loops, t, l, HoldsOf(x));
  }

  lemma OccursSnoc(q: seq<Id>, y: Id, x: Id)
    ensures Occurs(q + [y], x) == Occurs(q, x) + if x == y then 1 else 0
  {
    TotalSnoc(q, y, Is(x));
  }

  lemma OccursRemoveAt(q: seq<Id>, k: nat, x: Id)
    requires k < |q|
    ensures Occurs(q, x) == Occurs(RemoveAt(q, k), x) + if x == q[k] then 1 else 0
  {
    TotalRemoveAt(q, k, Is(x));
  }

  predicate Makes(step: Step) {
    step.Schedule? || step.AddTimer? || step.AddEvent? || (step.TakeExpired? && step.rearmed)
  }

  // The item a step creates gets one place, every other item keeps its number of
  // places.
  lemma PlacesMake(s: State, step: Step, x: Id)
    requires Enabled(s, step) && (step.Schedule? || step.AddTimer? || step.AddEvent?)
    requires Places(s, s.made) == 0
    ensures Places(Do(s, step), x) == Places(s, x) + if x == s.made then 1 else 0
  {
    hide Occurs, InLoops, RemoveAt;
    OccursSnoc(s.queue, s.made, x);
  }

  lemma PlacesRemove(s: State, step: Step, x: Id)
    requires Enabled(s, step) && (step.CancelTimer? || step.DelEvent?)
    ensures Places(Do(s, step), x) == Places(s, x)
  {
    hide Occurs, InLoops, RemoveAt;
    OccursSnoc(s.removed, step.id, x);
  }

  // A loop changes and what it holds does not.
  lemma PlacesSame(s: State, s': State, t: Tid, l: Loop, x: Id)
    requires t < |s.loops| && s'.loops == s.loops[t := l] && Holds(l.phase, x) == Holds(s.loops[t].phase, x)
    requires s'.queue == s.queue && s'.timers == s.timers && s'.regs == s.regs
    requires s'.executed == s.executed && s'.removed == s.removed
    ensures Places(s', x) == Places(s, x)
  {
    InLoopsUpdate(s.loops, t, l, x);
  }

  lemma PlacesTrigger(s: State, who: Option<Tid>, id: Id, x: Id)
    requires Enabled(s, Push(who, id))
    ensures Places(Do(s, Push(who, id)), x) == Places(s, x)
  {
    hide Occurs, InLoops, RemoveAt;
    var s' := Do(s, Push(who, id));
    assert s'.queue == s.queue + [id] && s'.regs == s.regs - {id};
    OccursSnoc(s.queue, id, x);
    if who.Some? {
      assert s'.loops == s.loops[who.value := s.loops[who.value].(owing := true)];
      InLoopsUpdate(s.loops, who.value, s.loops[who.value].(owing := true), x);
    }
  }

  lemma PlacesDrop(s: State, who: Option<Tid>, x: Id)
    requires Enabled(s, Drop(who))
    ensures Places(Do(s, Drop(who)), x) == Places(s, x)
  {
    hide Occurs, InLoops, RemoveAt;
    if who.Some? {
      InLoopsUpdate(s.loops, who.value, s.loops[who.value].(owing := false), x);
    }
  }

  lemma PlacesScan(s: State, t: Tid, k: nat, x: Id)
    requires Enabled(s, Scan(t, k))
    ensures Places(Do(s, Scan(t, k)), x) == Places(s, x)
  {
    hide Occurs, InLoops, RemoveAt;
    var s' := Do(s, Scan(t, k));
    InLoopsUpdate(s.loops, t, s'.loops[t], x);
    if k < |s.queue| {
      OccursRemoveAt(s.queue, k, x);
    }
  }

  lemma PlacesComplete(s: State, t: Tid, x: Id)
    requires Enabled(s, Complete(t))
    ensures Places(Do(s, Complete(t)), x) == Places(s, x)
  {
    hide Occurs, InLoops, RemoveAt;
    InLoopsUpdate(s.loops, t, s.loops[t].(phase := Scanning), x);
    OccursSnoc(s.executed, s.loops[t].phase.item, x);
  }

  lemma PlacesCollect(s: State, t: Tid, id: Id, rearmed: bool, x: Id)
    requires Enabled(s, TakeExpired(t, id, rearmed))
    ensures Places(Do(s, TakeExpired(t, id, rearmed)), x) == Places(s, x) + if rearmed && x == s.made then 1 else 0
  {
    hide Occurs, InLoops, RemoveAt;
    var s' := Do(s, TakeExpired(t, id, rearmed));
    var cbs := s.loops[t].phase.cbs;
    assert s'.loops == s.loops[t := s'.loops[t]];
    InLoopsUpdate(s.loops, t, s'.loops[t], x);
    OccursSnoc(cbs, if rearmed then s.made else id, x);
  }

  lemma PlacesPost(s: State, t: Tid, x: Id)
    requires Enabled(s, Post(t))
    ensures Places(Do(s, Post(t)), x) == Places(s, x)
  {
    hide Occurs, InLoops, RemoveAt;
    var cbs := s.loops[t].phase.cbs;
    InLoopsUpdate(s.loops, t, s.loops[t].(phase := Posting(cbs[1..])), x);
    OccursRemoveAt(cbs, 0, x);
    assert RemoveAt(cbs, 0) == cbs[1..];
    OccursSnoc(s.queue, cbs[0], x);
  }

  lemma PlacesIdleStep(s: State, step: Step, x: Id)
    requires Enabled(s, step) && GoesOnIdle(step)
    ensures Places(Do(s, step), x) == Places(s, x)
  {
    hide Places;
    PlacesSame(s, Do(s, step), step.t, Do(s, step).loops[step.t], x);
  }

  lemma PlacesStep(s: State, step: Step, x: Id)
    requires Places(s, s.made) == 0 && Enabled(s, step)
    ensures Places(Do(s, step), x) == Places(s, x) + if Makes(step) && x == s.made then 1 else 0
  {
    hide Places, Do, Enabled;
    match step
    case CancelTimer(_) => PlacesRemove(s, step, x);
    case DelEvent(_) => PlacesRemove(s, step, x);
    case Push(who, id) => PlacesTrigger(s, who, id, x);
    case Drop(who) => PlacesDrop(s, who, x);
    case Scan(t, k) => PlacesScan(s, t, k, x);
    case Complete(t) => PlacesComplete(s, t, x);
    case TakeExpired(t, id, rearmed) => PlacesCollect(s, t, id, rearmed, x);
    case Post(t) => PlacesPost(s, t, x);
    case PickIdle(_) => PlacesIdleStep(s, step, x);
    case IdleCheck(_) => PlacesIdleStep(s, step, x);
    case Wake(_) => PlacesIdleStep(s, step, x);
    case EndCollect(_) => PlacesIdleStep(s, step, x);
    case EndPost(_) => PlacesIdleStep(s, step, x);
    case EndDispatch(_) => PlacesIdleStep(s, step, x);
    case SetStopping => StoppingMovesNothing(s, x);
    case _ => PlacesMake(s, step, x);
  }

  lemma StoppingMovesNothing(s: State, x: Id)
    ensures Places(Do(s, SetStopping), x) == Places(s, x)
  {
  }

  lemma MadeStep(s: State, step: Step)
    requires Enabled(s, step)
    ensures Do(s, step).made == s.made + if Makes(step) then 1 else 0
  {
  }

  lemma ConservedStep(s: State, step: Step)
    requires Conserved(s) && Enabled(s, step)
    ensures Conserved(Do(s, step))
  {
    MadeStep(s, step);
    hide Places, Do;
    forall x: Id ensures Places(Do(s, step), x) == if x < Do(s, step).made then 1 else 0 {
      PlacesStep(s, step, x);
    }
  }
}
