// Control transfer between fibers: resume, yield, the end of a fiber's function
// and reset, over saved contexts.
//
// A context is what swapcontext stores: an entry point, or the point where one
// fiber's execution was left. A context is not cleared when it is loaded, so an
// old one can be loaded again by mistake; `saves` counts how often a fiber has
// been left and tells a fresh save from an old one.
module FiberSwitch {
  import opened Common

  datatype Context = Entry | Left(owner: Fid, serial: nat) | Blank

  // The first four fields are the program's. `saves`, `started` (the entry point
  // was loaded since makecontext) and `home` (the thread and the context to
  // which the current stint must return) only record history.
  datatype FiberRec = FiberRec(
    state: FiberState, ctx: Context, inScheduler: bool, hasStack: bool,
    saves: nat, started: bool, home: Option<(Tid, Context)>)

  // Thread locals, plus `cpu`: the fiber whose code the thread is executing.
  datatype Locals = Locals(current: Fid, mainFiber: Fid, schedulerFiber: Fid, cpu: Fid)

  // Fibers and threads are numbered in order of creation.
  datatype State = State(fibers: seq<FiberRec>, threads: seq<Locals>)

  predicate LocalsExist(s: State, t: Tid)
    requires t < |s.threads|
  {
    var l := s.threads[t];
    l.current < |s.fibers| && l.mainFiber < |s.fibers| && l.schedulerFiber < |s.fibers| && l.cpu < |s.fibers|
  }

  function SetFiber(s: State, f: Fid, r: FiberRec): State
    requires f < |s.fibers|
  {
    s.(fibers := s.fibers[f := r])
  }

  function SetState(s: State, f: Fid, st: FiberState): State
    requires f < |s.fibers|
  {
    SetFiber(s, f, s.fibers[f].(state := st))
  }

  function SetThis(s: State, t: Tid, f: Fid): State
    requires t < |s.threads|
  {
    s.(threads := s.threads[t := s.threads[t].(current := f)])
  }

  // swapcontext(&saveTo->m_ctx, &loadFrom->m_ctx) executed by thread t. What is
  // stored is the execution of the fiber on the cpu, whoever `saveTo` is; what
  // runs next is whatever `loadFrom` holds.
  function Swap(s: State, t: Tid, saveTo: Fid, loadFrom: Fid): State
    requires t < |s.threads| && LocalsExist(s, t) && saveTo < |s.fibers| && loadFrom < |s.fibers|
  {
    var me := s.threads[t].cpu;
    var n := s.fibers[me].saves + 1;
    var s1 := SetFiber(s, me, s.fibers[me].(saves := n));
    var s2 := SetFiber(s1, saveTo, s1.fibers[saveTo].(ctx := Left(me, n)));
    var target := s2.fibers[loadFrom];
    var s3 := if target.ctx == Entry then SetFiber(s2, loadFrom, target.(started := true)) else s2;
    s3.(threads := s3.threads[t := s3.threads[t].(cpu := if target.ctx.Left? then target.ctx.owner else loadFrom)])
  }

  // Tasks and idle fibers swap with the thread's scheduler fiber, all others
  // with its main fiber.
  function SwapPartner(s: State, t: Tid, f: Fid): Fid
    requires t < |s.threads| && f < |s.fibers|
  {
    if s.fibers[f].inScheduler then s.threads[t].schedulerFiber else s.threads[t].mainFiber
  }

  // The assertion at the top of resume.
  predicate ResumeAsserts(s: State, f: Fid) {
    f < |s.fibers| && s.fibers[f].state != TERM && s.fibers[f].state != RUNNING
  }

  function Resume(s: State, t: Tid, f: Fid): State
    requires t < |s.threads| && LocalsExist(s, t) && ResumeAsserts(s, f)
  {
    var s1 := SetState(SetThis(s, t, f), f, RUNNING);
    var back := SwapPartner(s, t, f);
    var s2 := Swap(s1, t, back, f);
    SetFiber(s2, f, s2.fibers[f].(home := Some((t, s2.fibers[back].ctx))))
  }

  // The assertion at the top of yield.
  predicate YieldAsserts(s: State, f: Fid) {
    f < |s.fibers| && (s.fibers[f].state == RUNNING || s.fibers[f].state == TERM)
  }

  function Yield(s: State, t: Tid, f: Fid): State
    requires t < |s.threads| && LocalsExist(s, t) && YieldAsserts(s, f)
  {
    var s1 := SetThis(s, t, s.threads[t].mainFiber);
    var s2 := if s.fibers[f].state != TERM then SetState(s1, f, READY) else s1;
    Swap(s2, t, f, SwapPartner(s, t, f))
  }

  // The tail of MainFunc: m_state = TERM, then a last yield.
  function EndMain(s: State, t: Tid, f: Fid): State
    requires t < |s.threads| && LocalsExist(s, t) && f < |s.fibers|
  {
    Yield(SetState(s, f, TERM), t, f)
  }

  // The assertions at the top of reset.
  predicate ResetAsserts(s: State, f: Fid) {
    f < |s.fibers| && s.fibers[f].hasStack && s.fibers[f].state == TERM
  }

  function Reset(s: State, f: Fid): State
    requires ResetAsserts(s, f)
  {
    SetFiber(s, f, s.fibers[f].(ctx := Entry, state := READY, started := false))
  }

  function MainRec(): FiberRec { FiberRec(RUNNING, Blank, false, false, 0, true, None) }
  function FreshRec(inScheduler: bool): FiberRec { FiberRec(READY, Entry, inScheduler, true, 0, false, None) }

  datatype Step =
    | StartWorker               // run loop on a new thread: scheduler fiber == main fiber
    | StartCaller               // use_caller: a root fiber is the scheduler fiber
    | NewFiber                  // task or idle fiber
    | ResumeBy(t: Tid, f: Fid)
    | YieldBy(t: Tid)           // Fiber::GetThis()->yield()
    | EndBy(t: Tid)             // the executing fiber's function returns
    | ResetFiber(f: Fid)

  // Who may call what. Resume of a task or idle fiber is called by the thread's
  // scheduler fiber, resume of the root fiber by the thread's main fiber; the
  // scheduler fiber never yields by itself; main fibers do not end. Nothing is
  // said about the state of a fiber that is resumed or reset.
  ghost predicate Designed(s: State, step: Step) {
    match step
    case ResumeBy(t, f) =>
      && t < |s.threads| && f < |s.fibers|
      && s.threads[t].cpu == SwapPartner(s, t, f)
      && (!s.fibers[f].inScheduler ==> f == s.threads[t].schedulerFiber)
    case YieldBy(t) =>
      t < |s.threads| && s.threads[t].cpu < |s.fibers| && s.fibers[s.threads[t].cpu].inScheduler
    case EndBy(t) => t < |s.threads| && s.threads[t].cpu != s.threads[t].mainFiber
    case ResetFiber(f) => f < |s.fibers| && s.fibers[f].inScheduler
    case _ => true
  }

  // The assertions the program evaluates in the step.
  ghost predicate Asserts(s: State, step: Step) {
    match step
    case ResumeBy(t, f) => t < |s.threads| && LocalsExist(s, t) && ResumeAsserts(s, f)
    case YieldBy(t) => t < |s.threads| && LocalsExist(s, t) && YieldAsserts(s, s.threads[t].current)
    case EndBy(t) => t < |s.threads| && LocalsExist(s, t)
    case ResetFiber(f) => ResetAsserts(s, f)
    case _ => true
  }

  ghost function Do(s: State, step: Step): State
    requires Asserts(s, step)
  {
    match step
    case StartWorker =>
      var m := |s.fibers|;
      State(s.fibers + [MainRec()], s.threads + [Locals(m, m, m, m)])
    case StartCaller =>
      var m := |s.fibers|;
      State(s.fibers + [MainRec(), FreshRec(false)], s.threads + [Locals(m, m, m + 1, m)])
    case NewFiber => s.(fibers := s.fibers + [FreshRec(true)])
    case ResumeBy(t, f) => Resume(s, t, f)
    case YieldBy(t) => Yield(s, t, s.threads[t].current)
    case EndBy(t) => EndMain(s, t, s.threads[t].cpu)
    case ResetFiber(f) => Reset(s, f)
  }
}
