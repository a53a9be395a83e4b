// No lost and no double wake, for any number of threads.
//
// A fiber parks after it has arranged its wake: do_io registers it in an fd slot,
// sleep puts it into a timer's callback, and a fiber may schedule itself. The
// registration and the yield are separate steps, so the wake may come between
// them. Tasks that refer to no fiber are left out; a timeout callback acts on a
// parked fiber only through its slot (Trigger).
module WakeSources {
  import opened Common

  // A task of the scheduler: a fiber to resume, or the callback of a sleep timer,
  // which will schedule the fiber.
  datatype Entry = Wake(fiber: Fid) | SleepDone(fiber: Fid)

  datatype Thread =
    | Scans
    | Holds(entry: Entry)       // dequeued, not started
    | Executes(fiber: Fid)
    | Calls(fiber: Fid)         // inside the callback, before it schedules the fiber
    | Idles(cbs: seq<Fid>)      // in idle, with the callbacks collected and not scheduled

  // `parking`: the fiber has arranged its wake and has not been resumed since.
  datatype FiberRec = FiberRec(state: FiberState, parking: bool)

  datatype World = World(
    fibers: seq<FiberRec>,
    threads: seq<Thread>,
    slots: seq<Option<Fid>>,    // per fd and direction
    timers: seq<Option<Fid>>,   // live sleep timers
    queue: seq<Entry>,
    fault: bool)                // an assertion in resume failed

  datatype Move =
    | Spawn
    | WaitIo(t: Tid, k: nat)
    | WaitSleep(t: Tid, k: nat)
    | WaitQueue(t: Tid)
    | Park(t: Tid)
    | End(t: Tid)
    | Trigger(k: nat)           // dispatch, cancelEvent or cancalAll, by anyone
    | Take(t: Tid, i: nat)
    | Start(t: Tid)             // resume, or enter the callback
    | CallSchedule(t: Tid)
    | EnterIdle(t: Tid)
    | Expire(t: Tid, k: nat)
    | Post(t: Tid)
    | LeaveIdle(t: Tid)

  ghost predicate Beginning(w: World) {
    && w.fibers == [] && w.queue == [] && !w.fault
    && (forall k :: 0 <= k < |w.slots| ==> w.slots[k] == None)
    && (forall k :: 0 <= k < |w.timers| ==> w.timers[k] == None)
    && (forall t :: 0 <= t < |w.threads| ==> w.threads[t] == Scans)
  }

  // What thread t executes may arrange its wake.
  predicate CanWait(w: World, t: Tid) {
    && t < |w.threads| && w.threads[t].Executes?
    && w.threads[t].fiber < |w.fibers| && !w.fibers[w.threads[t].fiber].parking
  }

  predicate StillRuns(w: World, e: Entry) {
    e.Wake? && e.fiber < |w.fibers| && w.fibers[e.fiber].state == RUNNING
  }

  // A fiber yields only after arranging its wake and ends only without one.
  predicate Can(w: World, m: Move) {
    !w.fault &&
    match m
    case Spawn => true
    case WaitIo(t, k) => CanWait(w, t) && k < |w.slots| && w.slots[k] == None
    case WaitSleep(t, k) => CanWait(w, t) && k < |w.timers| && w.timers[k] == None
    case WaitQueue(t) => CanWait(w, t)
    case Park(t) =>
      && t < |w.threads| && w.threads[t].Executes?
      && w.threads[t].fiber < |w.fibers| && w.fibers[w.threads[t].fiber].parking
    case End(t) => CanWait(w, t)
    case Trigger(k) => k < |w.slots| && w.slots[k].Some?
    case Take(t, i) =>
      t < |w.threads| && w.threads[t] == Scans && i < |w.queue| && !StillRuns(w, w.queue[i])
    case Start(t) => t < |w.threads| && w.threads[t].Holds? && w.threads[t].entry.fiber < |w.fibers|
    case CallSchedule(t) => t < |w.threads| && w.threads[t].Calls?
    case EnterIdle(t) => t < |w.threads| && w.threads[t] == Scans
    case Expire(t, k) => t < |w.threads| && w.threads[t].Idles? && k < |w.timers| && w.timers[k].Some?
    case Post(t) => t < |w.threads| && w.threads[t].Idles? && w.threads[t].cbs != []
    case LeaveIdle(t) => t < |w.threads| && w.threads[t] == Idles([])
  }

  function SetThread(w: World, t: Tid, x: Thread): World
    requires t < |w.threads|
  {
    w.(threads := w.threads[t := x])
  }

  function SetFiber(w: World, f: Fid, state: FiberState, parking: bool): World
    requires f < |w.fibers|
  {
    w.(fibers := w.fibers[f := FiberRec(state, parking)])
  }

  function Push(w: World, e: Entry): World {
    w.(queue := w.queue + [e])
  }

  function Make(w: World, m: Move): World
    requires Can(w, m)
  {
    match m
    case Spawn => Push(w, Wake(|w.fibers|)).(fibers := w.fibers + [FiberRec(READY, true)])
    case WaitIo(t, k) =>
      var f := w.threads[t].fiber;
      SetFiber(w, f, w.fibers[f].state, true).(slots := w.slots[k := Some(f)])
    case WaitSleep(t, k) =>
      var f := w.threads[t].fiber;
      SetFiber(w, f, w.fibers[f].state, true).(timers := w.timers[k := Some(f)])
    case WaitQueue(t) =>
      var f := w.threads[t].fiber;
      Push(SetFiber(w, f, w.fibers[f].state, true), Wake(f))
    case Park(t) => SetThread(SetFiber(w, w.threads[t].fiber, READY, true), t, Scans)
    case End(t) => SetThread(SetFiber(w, w.threads[t].fiber, TERM, false), t, Scans)
    case Trigger(k) => Push(w, Wake(w.slots[k].value)).(slots := w.slots[k := None])
    case Take(t, i) => SetThread(w, t, Holds(w.queue[i])).(queue := RemoveAt(w.queue, i))
    case Start(t) =>
      var e := w.threads[t].entry;
      if e.SleepDone? then SetThread(w, t, Calls(e.fiber))
      else if w.fibers[e.fiber].state != READY then w.(fault := true)
      else SetThread(SetFiber(w, e.fiber, RUNNING, false), t, Executes(e.fiber))
    case CallSchedule(t) => Push(SetThread(w, t, Scans), Wake(w.threads[t].fiber))
    case EnterIdle(t) => SetThread(w, t, Idles([]))
    case Expire(t, k) =>
      SetThread(w, t, Idles(w.threads[t].cbs + [w.timers[k].value])).(timers := w.timers[k := None])
    case Post(t) =>
      var cbs := w.threads[t].cbs;
      Push(SetThread(w, t, Idles(RemoveAt(cbs, 0))), SleepDone(cbs[0]))
    case LeaveIdle(t) => SetThread(w, t, Scans)
  }

  ghost predicate Moves(worlds: seq<World>, moves: seq<Move>) {
    && |worlds| == |moves| + 1
    && forall i :: 0 <= i < |moves| ==> Can(worlds[i], moves[i]) && worlds[i + 1] == Make(worlds[i], moves[i])
  }

  // ---------------------------------------------------------------------------
  // Wake sources
  // ---------------------------------------------------------------------------

  function IsFiber(f: Fid): Fid -> nat {
    (g: Fid) => if g == f then 1 else 0
  }

  function InSlot(f: Fid): Option<Fid> -> nat {
    (o: Option<Fid>) => if o == Some(f) then 1 else 0
  }

  function OfEntry(f: Fid): Entry -> nat {
    (e: Entry) => if e.fiber == f then 1 else 0
  }

  function InHand(x: Thread, f: Fid): nat {
    match x
    case Holds(e) => OfEntry(f)(e)
    case Calls(g) => IsFiber(f)(g)
    case Idles(cbs) => Total(cbs, IsFiber(f))
    case _ => 0
  }

  function OfThread(f: Fid): Thread -> nat {
    (x: Thread) => InHand(x, f)
  }

  function ExecutesIt(f: Fid): Thread -> nat {
    (x: Thread) => if x == Executes(f) then 1 else 0
  }

  // How many fd slots, live timers, queued tasks and tasks or callbacks in some
  // thread's hands refer to f.
  function Sources(w: World, f: Fid): nat {
    Total(w.slots, InSlot(f)) + Total(w.timers, InSlot(f)) + Total(w.queue, OfEntry(f)) + Total(w.threads, OfThread(f))
  }

  // How many threads execute f.
  function Carriers(w: World, f: Fid): nat {
    Total(w.threads, ExecutesIt(f))
  }

  function Parking(w: World, f: Fid): bool {
    f < |w.fibers| && w.fibers[f].parking
  }

  function Running(w: World, f: Fid): bool {
    f < |w.fibers| && w.fibers[f].state == RUNNING
  }

  // A READY fiber is parking, an ended one is not.
  ghost predicate StateFits(r: FiberRec) {
    (r.state == READY ==> r.parking) && (r.state == TERM ==> !r.parking)
  }

  ghost predicate HeldIsReady(w: World) {
    forall t :: 0 <= t < |w.threads| && w.threads[t].Holds? && w.threads[t].entry.Wake? ==>
      w.threads[t].entry.fiber < |w.fibers| && w.fibers[w.threads[t].entry.fiber].state == READY
  }

  // One wake source for every fiber that waits, none for any other; one carrier
  // for every RUNNING fiber, none for any other.
  ghost predicate OneSource(w: World) {
    && !w.fault
    && (forall f: Fid {:trigger Sources(w, f)} :: Sources(w, f) == if Parking(w, f) then 1 else 0)
    && (forall f: Fid {:trigger Carriers(w, f)} :: Carriers(w, f) == if Running(w, f) then 1 else 0)
    && (forall f: Fid :: f < |w.fibers| ==> StateFits(w.fibers[f]))
    && HeldIsReady(w)
  }

  // What a move adds to the sources and carriers of f.
  function Gain(w: World, m: Move, f: Fid): int
    requires Can(w, m)
  {
    match m
    case Spawn => if f == |w.fibers| then 1 else 0
    case WaitIo(t, _) => if w.threads[t].fiber == f then 1 else 0
    case WaitSleep(t, _) => if w.threads[t].fiber == f then 1 else 0
    case WaitQueue(t) => if w.threads[t].fiber == f then 1 else 0
    case Start(t) =>
      if w.threads[t].entry == Wake(f) && w.fibers[f].state == READY then -1 else 0
    case _ => 0
  }

  function CarrierGain(w: World, m: Move, f: Fid): int
    requires Can(w, m)
  {
    match m
    case Park(t) => if w.threads[t].fiber == f then -1 else 0
    case End(t) => if w.threads[t].fiber == f then -1 else 0
    case Start(t) =>
      if w.threads[t].entry == Wake(f) && w.fibers[f].state == READY then 1 else 0
    case _ => 0
  }

  lemma ThreadSources(w: World, t: Tid, x: Thread, f: Fid)
    requires t < |w.threads|
    ensures Total(w.threads[t := x], OfThread(f)) + InHand(w.threads[t], f)
      == Total(w.threads, OfThread(f)) + InHand(x, f)
    ensures Total(w.threads[t := x], ExecutesIt(f)) + (if w.threads[t] == Executes(f) then 1 else 0)
      == Total(w.threads, ExecutesIt(f)) + (if x == Executes(f) then 1 else 0)
  {
    TotalUpdate(w.threads, t, x, OfThread(f));
    TotalUpdate(w.threads, t, x, ExecutesIt(f));
  }

  lemma PushSources(q: seq<Entry>, e: Entry, f: Fid)
    ensures Total(q + [e], OfEntry(f)) == Total(q, OfEntry(f)) + if e.fiber == f then 1 else 0
  {
    TotalSnoc(q, e, OfEntry(f));
  }

  lemma SlotSources(q: seq<Option<Fid>>, k: nat, o: Option<Fid>, f: Fid)
    requires k < |q|
    ensures Total(q[k := o], InSlot(f)) + (if q[k] == Some(f) then 1 else 0)
      == Total(q, InSlot(f)) + (if o == Some(f) then 1 else 0)
  {
    TotalUpdate(q, k, o, InSlot(f));
  }

  // Registrations: WaitIo, WaitSleep, WaitQueue, Spawn.
  lemma WaitGains(w: World, m: Move, f: Fid)
    requires Can(w, m) && (m.Spawn? || m.WaitIo? || m.WaitSleep? || m.WaitQueue?)
    ensures Sources(Make(w, m), f) == Sources(w, f) + Gain(w, m, f)
    ensures Carriers(Make(w, m), f) == Carriers(w, f) + CarrierGain(w, m, f)
  {
    hide Total;
    match m
    case Spawn => PushSources(w.queue, Wake(|w.fibers|), f);
    case WaitIo(t, k) => SlotSources(w.slots, k, Some(w.threads[t].fiber), f);
    case WaitSleep(t, k) => SlotSources(w.timers, k, Some(w.threads[t].fiber), f);
    case WaitQueue(t) => PushSources(w.queue, Wake(w.threads[t].fiber), f);
  }

  lemma LeaveGains(w: World, m: Move, f: Fid)
    requires Can(w, m) && (m.Park? || m.End? || m.EnterIdle? || m.LeaveIdle?)
    ensures Sources(Make(w, m), f) == Sources(w, f) + Gain(w, m, f)
    ensures Carriers(Make(w, m), f) == Carriers(w, f) + CarrierGain(w, m, f)
  {
    assert Total<Fid>([], IsFiber(f)) == 0;
    hide Total;
    ThreadSources(w, m.t, if m.EnterIdle? then Idles([]) else Scans, f);
  }

  lemma TaskGains(w: World, m: Move, f: Fid)
    requires Can(w, m) && (m.Trigger? || m.Take? || m.Start? || m.CallSchedule?)
    ensures Sources(Make(w, m), f) == Sources(w, f) + Gain(w, m, f)
    ensures Carriers(Make(w, m), f) == Carriers(w, f) + CarrierGain(w, m, f)
  {
    hide Total, RemoveAt;
    match m
    case Trigger(k) =>
      SlotSources(w.slots, k, None, f);
      PushSources(w.queue, Wake(w.slots[k].value), f);
    case Take(t, i) =>
      ThreadSources(w, t, Holds(w.queue[i]), f);
      TotalRemoveAt(w.queue, i, OfEntry(f));
    case Start(t) =>
      var e := w.threads[t].entry;
      ThreadSources(w, t, if e.SleepDone? then Calls(e.fiber) else Executes(e.fiber), f);
    case CallSchedule(t) =>
      ThreadSources(w, t, Scans, f);
      PushSources(w.queue, Wake(w.threads[t].fiber), f);
  }

  lemma IdleGains(w: World, m: Move, f: Fid)
    requires Can(w, m) && (m.Expire? || m.Post?)
    ensures Sources(Make(w, m), f) == Sources(w, f) + Gain(w, m, f)
    ensures Carriers(Make(w, m), f) == Carriers(w, f) + CarrierGain(w, m, f)
  {
    hide Total, RemoveAt;
    var cbs := w.threads[m.t].cbs;
    if m.Expire? {
      var g := w.timers[m.k].value;
      SlotSources(w.timers, m.k, None, f);
      TotalSnoc(cbs, g, IsFiber(f));
      ThreadSources(w, m.t, Idles(cbs + [g]), f);
    } else {
      TotalRemoveAt(cbs, 0, IsFiber(f));
      ThreadSources(w, m.t, Idles(RemoveAt(cbs, 0)), f);
      PushSources(w.queue, SleepDone(cbs[0]), f);
    }
  }

  lemma MoveGains(w: World, m: Move, f: Fid)
    requires Can(w, m)
    ensures Sources(Make(w, m), f) == Sources(w, f) + Gain(w, m, f)
    ensures Carriers(Make(w, m), f) == Carriers(w, f) + CarrierGain(w, m, f)
  {
    hide Sources, Carriers, Gain, CarrierGain, Make, Can;
    match m
    case Spawn => WaitGains(w, m, f);
    case WaitIo(_, _) => WaitGains(w, m, f);
    case WaitSleep(_, _) => WaitGains(w, m, f);
    case WaitQueue(_) => WaitGains(w, m, f);
    case Park(_) => LeaveGains(w, m, f);
    case End(_) => LeaveGains(w, m, f);
    case EnterIdle(_) => LeaveGains(w, m, f);
    case LeaveIdle(_) => LeaveGains(w, m, f);
    case Expire(_, _) => IdleGains(w, m, f);
    case Post(_) => IdleGains(w, m, f);
    case _ => TaskGains(w, m, f);
  }

  lemma GainFits(w: World, m: Move, f: Fid)
    requires OneSource(w) && Can(w, m)
    ensures !Make(w, m).fault
    ensures (if Parking(Make(w, m), f) then 1 else 0) == (if Parking(w, f) then 1 else 0) + Gain(w, m, f)
    ensures (if Running(Make(w, m), f) then 1 else 0) == (if Running(w, f) then 1 else 0) + CarrierGain(w, m, f)
    ensures f < |Make(w, m).fibers| ==> StateFits(Make(w, m).fibers[f])
  {
    hide Sources, RemoveAt;
    if ByExecuted(m) {
      ExecutedRuns(w, m.t);
    }
    assert f < |w.fibers| ==> StateFits(w.fibers[f]);
  }

  predicate ByExecuted(m: Move) {
    m.WaitIo? || m.WaitSleep? || m.WaitQueue? || m.Park? || m.End?
  }

  lemma ExecutedRuns(w: World, t: Tid)
    requires OneSource(w) && t < |w.threads| && w.threads[t].Executes?
    ensures Running(w, w.threads[t].fiber)
  {
    var f := w.threads[t].fiber;
    TotalAtLeast(w.threads, t, ExecutesIt(f));
    assert Carriers(w, f) >= 1;
  }

  // What t has just taken is READY, and nobody else has it.
  lemma TakenIsReady(w: World, t: Tid, i: nat)
    requires OneSource(w) && Can(w, Take(t, i)) && w.queue[i].Wake?
    ensures w.queue[i].fiber < |w.fibers| && w.fibers[w.queue[i].fiber].state == READY
  {
    var f := w.queue[i].fiber;
    TotalAtLeast(w.queue, i, OfEntry(f));
    assert Sources(w, f) >= 1;
    assert Parking(w, f) && StateFits(w.fibers[f]);
  }

  lemma TwoHoldersTwoSources(w: World, t: Tid, u: Tid, f: Fid)
    requires t < |w.threads| && u < |w.threads| && t != u
    requires w.threads[t].Holds? && w.threads[u].Holds?
    requires w.threads[t].entry.fiber == f && w.threads[u].entry.fiber == f
    ensures Sources(w, f) >= 2
  {
    TotalUpdate(w.threads, t, Scans, OfThread(f));
    TotalAtLeast(w.threads[t := Scans], u, OfThread(f));
  }

  lemma HolderIsOnly(w: World, t: Tid, u: Tid)
    requires OneSource(w) && t < |w.threads| && u < |w.threads| && t != u
    requires w.threads[t].Holds? && w.threads[u].Holds?
    ensures w.threads[t].entry.fiber != w.threads[u].entry.fiber
  {
    var f := w.threads[t].entry.fiber;
    if w.threads[u].entry.fiber == f {
      TwoHoldersTwoSources(w, t, u, f);
    }
  }

  // The fiber of a held task stays READY until its holder resumes it.
  lemma HeldStaysReady(w: World, m: Move)
    requires OneSource(w) && Can(w, m)
    ensures HeldIsReady(Make(w, m))
  {
    hide Sources, Carriers, RemoveAt;
    var w' := Make(w, m);
    if ByExecuted(m) {
      ExecutedRuns(w, m.t);
    } else if m.Take? && w.queue[m.i].Wake? {
      TakenIsReady(w, m.t, m.i);
    } else if m.Start? {
      forall u: Tid | u < |w.threads| && u != m.t && w.threads[u].Holds?
        ensures w.threads[u].entry.fiber != w.threads[m.t].entry.fiber
      {
        HolderIsOnly(w, m.t, u);
      }
    }
  }

  lemma OneSourceStep(w: World, m: Move)
    requires OneSource(w) && Can(w, m)
    ensures OneSource(Make(w, m))
  {
    var w' := Make(w, m);
    HeldStaysReady(w, m);
    GainFits(w, m, 0);
    hide Sources, Carriers, Make, Gain, CarrierGain, Can, Parking, Running, HeldIsReady, StateFits;
    forall f: Fid
      ensures Sources(w', f) == if Parking(w', f) then 1 else 0
      ensures Carriers(w', f) == if Running(w', f) then 1 else 0
      ensures f < |w'.fibers| ==> StateFits(w'.fibers[f])
    {
      MoveGains(w, m, f);
      GainFits(w, m, f);
    }
  }

  lemma BeginningHasOne(w: World)
    requires Beginning(w)
    ensures OneSource(w)
  {
    forall f: Fid ensures Sources(w, f) == 0 && Carriers(w, f) == 0 {
      TotalNothing(w.slots, InSlot(f));
      TotalNothing(w.timers, InSlot(f));
      TotalNothing(w.threads, OfThread(f));
      TotalNothing(w.threads, ExecutesIt(f));
    }
  }

  // In every reachable state: a fiber that waits, parked or about to yield, has
  // exactly one wake source; any other fiber has none; a RUNNING fiber is
  // executed by exactly one thread; and no assertion of resume has failed.
  lemma {:induction false} ExactlyOneWakeSource(worlds: seq<World>, moves: seq<Move>, n: nat)
    requires Moves(worlds, moves) && Beginning(worlds[0]) && n <= |moves|
    ensures OneSource(worlds[n])
  {
    if n == 0 {
      BeginningHasOne(worlds[0]);
    } else {
      ExactlyOneWakeSource(worlds, moves, n - 1);
      OneSourceStep(worlds[n - 1], moves[n - 1]);
    }
  }

  // In plain words, for a parked fiber.
  lemma NoLostWakeNoDoubleWake(worlds: seq<World>, moves: seq<Move>, n: nat, f: Fid)
    requires Moves(worlds, moves) && Beginning(worlds[0]) && n <= |moves|
    requires f < |worlds[n].fibers| && worlds[n].fibers[f].state == READY
    ensures Sources(worlds[n], f) == 1 && Carriers(worlds[n], f) == 0
  {
    ExactlyOneWakeSource(worlds, moves, n);
    assert StateFits(worlds[n].fibers[f]);
  }

  // A wake that comes between the registration and the yield waits in the queue:
  // no thread takes it, or holds it, before the fiber is READY.
  lemma EarlyWakeWaits(worlds: seq<World>, moves: seq<Move>, n: nat, t: Tid, f: Fid)
    requires Moves(worlds, moves) && Beginning(worlds[0]) && n <= |moves|
    requires t < |worlds[n].threads| && Running(worlds[n], f)
    ensures worlds[n].threads[t] != Holds(Wake(f))
    ensures forall i :: 0 <= i < |worlds[n].queue| && worlds[n].queue[i] == Wake(f) ==> !Can(worlds[n], Take(t, i))
  {
    ExactlyOneWakeSource(worlds, moves, n);
  }

  // ---------------------------------------------------------------------------
  // What the callers must respect
  // ---------------------------------------------------------------------------

  // Nothing refers to f, and f waits or is about to.
  ghost predicate Lost(w: World, f: Fid) {
    && f < |w.fibers| && Sources(w, f) == 0
    && (if w.fibers[f].state == RUNNING then w.fibers[f].parking && Carriers(w, f) == 1
        else w.fibers[f].state == READY && Carriers(w, f) == 0)
  }

  // No thread has a task of a lost fiber, so none can resume it.
  lemma LostIsInNoHand(w: World, f: Fid, t: Tid)
    requires Lost(w, f) && t < |w.threads|
    ensures w.threads[t] != Holds(Wake(f))
    ensures w.fibers[f].state == READY ==> w.threads[t] != Executes(f)
  {
    TotalAtLeast(w.threads, t, OfThread(f));
    TotalAtLeast(w.threads, t, ExecutesIt(f));
  }

  lemma LostStep(w: World, m: Move, f: Fid)
    requires Lost(w, f) && Can(w, m)
    ensures Lost(Make(w, m), f)
  {
    MoveGains(w, m, f);
    if m.Park? || m.End? || m.WaitIo? || m.WaitSleep? || m.WaitQueue? {
      LostIsInNoHand(w, f, m.t);
      LostWhileExecuting(w, m, f);
    } else {
      LostElsewhere(w, m, f);
    }
    hide Sources, Carriers, Make, Can, Gain, CarrierGain;
  }

  // Only the thread that executes a fiber changes it before it is resumed.
  lemma LostWhileExecuting(w: World, m: Move, f: Fid)
    requires Lost(w, f) && Can(w, m) && (m.Park? || m.End? || m.WaitIo? || m.WaitSleep? || m.WaitQueue?)
    requires w.fibers[f].state == READY ==> w.threads[m.t] != Executes(f)
    ensures var w' := Make(w, m);
      && Gain(w, m, f) == 0 && f < |w'.fibers|
      && (if w'.fibers[f].state == RUNNING then w'.fibers[f].parking && Carriers(w, f) + CarrierGain(w, m, f) == 1
          else w'.fibers[f].state == READY && Carriers(w, f) + CarrierGain(w, m, f) == 0)
  {
    hide Sources, Carriers, RemoveAt;
  }

  lemma LostElsewhere(w: World, m: Move, f: Fid)
    requires Lost(w, f) && Can(w, m) && !(m.Park? || m.End? || m.WaitIo? || m.WaitSleep? || m.WaitQueue?)
    ensures f < |Make(w, m).fibers| && Make(w, m).fibers[f] == w.fibers[f]
    ensures Gain(w, m, f) == 0 && CarrierGain(w, m, f) == 0
  {
    if m.Start? {
      LostIsInNoHand(w, f, m.t);
    }
    hide Sources, Carriers, RemoveAt;
  }

  // A lost fiber is never resumed in any continuation.
  lemma {:induction false} LostForever(worlds: seq<World>, moves: seq<Move>, n: nat, f: Fid)
    requires Moves(worlds, moves) && n <= |moves| && Lost(worlds[0], f)
    ensures Lost(worlds[n], f)
    ensures forall t: Tid :: t < |worlds[n].threads| ==> worlds[n].threads[t] != Holds(Wake(f))
  {
    if n > 0 {
      LostForever(worlds, moves, n - 1, f);
      LostStep(worlds[n - 1], moves[n - 1], f);
    }
    forall t: Tid | t < |worlds[n].threads| ensures worlds[n].threads[t] != Holds(Wake(f)) {
      LostIsInNoHand(worlds[n], f, t);
    }
  }

  function DelEvent(w: World, k: nat): World
    requires k < |w.slots|
  {
    w.(slots := w.slots[k := None])
  }

  // Deleting the event of a fiber loses it, parked or about to yield.
  lemma DelEventLoses(w: World, k: nat, f: Fid)
    requires OneSource(w) && k < |w.slots| && w.slots[k] == Some(f)
    ensures Lost(DelEvent(w, k), f)
  {
    TotalAtLeast(w.slots, k, InSlot(f));
    SlotSources(w.slots, k, None, f);
    assert Sources(w, f) == 1 && Carriers(w, f) == if Running(w, f) then 1 else 0;
    assert StateFits(w.fibers[f]);
  }

  // delEvent keeps one source per waiting fiber iff no fiber waits in the slot.
  lemma DelEventKeepsIff(w: World, k: nat)
    requires OneSource(w) && k < |w.slots|
    ensures OneSource(DelEvent(w, k)) <==> w.slots[k] == None
  {
    if w.slots[k].Some? {
      DelEventLoses(w, k, w.slots[k].value);
      assert Parking(DelEvent(w, k), w.slots[k].value) by {
        var f := w.slots[k].value;
        assert StateFits(w.fibers[f]);
      }
    } else {
      assert DelEvent(w, k).slots == w.slots;
    }
  }

  // The fiber that waits in the slot is never resumed, whatever happens next.
  lemma DelEventLosesTheFiber(w: World, k: nat, f: Fid, worlds: seq<World>, moves: seq<Move>)
    requires OneSource(w) && k < |w.slots| && w.slots[k] == Some(f)
    requires Moves(worlds, moves) && worlds[0] == DelEvent(w, k)
    ensures Lost(worlds[|moves|], f)
    ensures forall t: Tid :: t < |worlds[|moves|].threads| ==> worlds[|moves|].threads[t] != Holds(Wake(f))
  {
    DelEventLoses(w, k, f);
    LostForever(worlds, moves, |moves|, f);
  }

  // A yield, and the end of a fiber, with nothing required of `parking`.
  function Leave(w: World, t: Tid, state: FiberState): World
    requires t < |w.threads| && w.threads[t].Executes? && w.threads[t].fiber < |w.fibers|
  {
    var f := w.threads[t].fiber;
    SetThread(SetFiber(w, f, state, w.fibers[f].parking), t, Scans)
  }

  // A yield keeps one source per waiting fiber iff the fiber has arranged its
  // wake; otherwise the fiber is lost.
  lemma YieldKeepsIff(w: World, t: Tid)
    requires OneSource(w) && t < |w.threads| && w.threads[t].Executes? && w.threads[t].fiber < |w.fibers|
    ensures OneSource(Leave(w, t, READY)) <==> w.fibers[w.threads[t].fiber].parking
    ensures !w.fibers[w.threads[t].fiber].parking ==> Lost(Leave(w, t, READY), w.threads[t].fiber)
  {
    var f := w.threads[t].fiber;
    if w.fibers[f].parking {
      assert Leave(w, t, READY) == Make(w, Park(t));
      OneSourceStep(w, Park(t));
    } else {
      ExecutedRuns(w, t);
      ThreadSources(w, t, Scans, f);
      assert Sources(w, f) == 0 && Carriers(w, f) == 1;
      assert !StateFits(Leave(w, t, READY).fibers[f]);
    }
  }

  // The end of a fiber does so iff it has not arranged a wake.
  lemma EndKeepsIff(w: World, t: Tid)
    requires OneSource(w) && t < |w.threads| && w.threads[t].Executes? && w.threads[t].fiber < |w.fibers|
    ensures OneSource(Leave(w, t, TERM)) <==> !w.fibers[w.threads[t].fiber].parking
  {
    var f := w.threads[t].fiber;
    if w.fibers[f].parking {
      assert !StateFits(Leave(w, t, TERM).fibers[f]);
    } else {
      assert Leave(w, t, TERM) == Make(w, End(t));
      OneSourceStep(w, End(t));
    }
  }
}
