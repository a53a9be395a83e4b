// The stop check of the I/O manager as the three reads it is: the timers, the
// pending counter, and the locked check of the base scheduler.
//
// Between the reads the other loops go on, so a check can succeed although a
// timer was added after the first read. Everything else is as in IoShutdown.
module IoThreeReads {
  import opened Common
  import opened IoShutdown
  import opened IoQuiescence

  // How far a loop has come in its stop check.
  datatype Progress = NothingRead | NoTimer | NoPending

  datatype Split = Split(s: State, seen: seq<Progress>)

  datatype Micro =
    | Other(step: Step)
    | ReadTimers(t: Tid)
    | ReadPending(t: Tid)
    | ReadBase(t: Tid)

  // Scheduler::stopping
  predicate BaseStops(s: State) {
    s.stopping && s.queue == [] && s.active == 0
  }

  predicate Reads(x: Split, t: Tid, p: Progress) {
    At(x.s, t, IdleTop) && t < |x.seen| && x.seen[t] == p
  }

  predicate Can(x: Split, m: Micro) {
    match m
    case Other(step) => !step.IdleCheck? && Enabled(x.s, step)
    case ReadTimers(t) => Reads(x, t, NothingRead)
    case ReadPending(t) => Reads(x, t, NoTimer)
    case ReadBase(t) => Reads(x, t, NoPending)
  }

  function Next(x: Split, m: Micro): Split
    requires Can(x, m)
  {
    match m
    case Other(step) => x.(s := Do(x.s, step))
    case ReadTimers(t) =>
      if x.s.timers == {} then x.(seen := x.seen[t := NoTimer])
      else x.(s := Go(x.s, t, Sleeping))
    case ReadPending(t) =>
      if x.s.pending == 0 then x.(seen := x.seen[t := NoPending])
      else Split(Go(x.s, t, Sleeping), x.seen[t := NothingRead])
    case ReadBase(t) =>
      Split(if BaseStops(x.s) then x.s.(loops := x.s.loops[t := Loop(Scanning, true, false)])
            else Go(x.s, t, Sleeping),
            x.seen[t := NothingRead])
  }

  ghost predicate Micros(xs: seq<Split>, ms: seq<Micro>) {
    && |xs| == |ms| + 1
    && forall i :: 0 <= i < |ms| ==> Can(xs[i], ms[i]) && xs[i + 1] == Next(xs[i], ms[i])
  }

  ghost predicate Run(xs: seq<Split>, ms: seq<Micro>) {
    && Micros(xs, ms) && Init(xs[0].s)
    && |xs[0].seen| == |xs[0].s.loops| && forall t :: 0 <= t < |xs[0].seen| ==> xs[0].seen[t] == NothingRead
  }

  // What was read is still so at the base check, if that succeeds.
  predicate Timely(x: Split, m: Micro) {
    m.ReadBase? && BaseStops(x.s) ==> x.s.timers == {} && x.s.pending == 0
  }

  // A timely step is a step of the machine with the check in one step, or none.
  function Whole(x: Split, m: Micro): Option<Step> {
    match m
    case Other(step) => Some(step)
    case ReadTimers(t) => if x.s.timers == {} then None else Some(IdleCheck(t))
    case ReadPending(t) => if x.s.pending == 0 then None else Some(IdleCheck(t))
    case ReadBase(t) => Some(IdleCheck(t))
  }

  lemma TimelyIsWhole(x: Split, m: Micro)
    requires Can(x, m) && Timely(x, m)
    ensures var o := Whole(x, m);
      if o.Some? then Enabled(x.s, o.value) && Next(x, m).s == Do(x.s, o.value) else Next(x, m).s == x.s
  {
  }

  lemma TimelyKeeps(x: Split, m: Micro)
    requires Inv(x.s) && Can(x, m) && Timely(x, m)
    ensures Inv(Next(x, m).s)
  {
    TimelyIsWhole(x, m);
    if Whole(x, m).Some? {
      InvStep(x.s, Whole(x, m).value);
    }
    hide Inv, Do, Next;
  }

  lemma {:induction false} TimelyAlways(xs: seq<Split>, ms: seq<Micro>, n: nat)
    requires Run(xs, ms) && n <= |ms| && forall i :: 0 <= i < n ==> Timely(xs[i], ms[i])
    ensures Inv(xs[n].s)
  {
    if n == 0 {
      InitInv(xs[0].s);
    } else {
      TimelyAlways(xs, ms, n - 1);
      TimelyKeeps(xs[n - 1], ms[n - 1]);
    }
  }

  // With three reads shutdown is as with one, in every run whose successful checks
  // are timely: when all loops have exited nothing was dropped.
  lemma TimelyDropsNothing(xs: seq<Split>, ms: seq<Micro>, n: nat, id: Id)
    requires Run(xs, ms) && n <= |ms| && forall i :: 0 <= i < n ==> Timely(xs[i], ms[i])
    requires AllExited(xs[n].s) && id < xs[n].s.made
    ensures Occurs(xs[n].s.executed, id) + Occurs(xs[n].s.removed, id) == 1
  {
    TimelyAlways(xs, ms, n);
    ExitedDropsNothing(xs[n].s, id);
  }

  // The check by which the last idle fiber ends leaves everything still iff it is
  // timely.
  lemma LastCheckSoundIff(x: Split, t: Tid)
    requires Inv(x.s) && Can(x, ReadBase(t)) && BaseStops(x.s) && AllEnded(Next(x, ReadBase(t)).s)
    ensures Still(Next(x, ReadBase(t)).s) <==> x.s.timers == {} && x.s.pending == 0
  {
    var s' := Next(x, ReadBase(t)).s;
    assert s'.timers == x.s.timers && s'.pending == x.s.pending;
    if Timely(x, ReadBase(t)) {
      TimelyKeeps(x, ReadBase(t));
      AllEndedIsStill(s');
    }
  }

  // ---------------------------------------------------------------------------
  // What an untimely last check loses
  // ---------------------------------------------------------------------------

  // All idle fibers have ended and a timer is left.
  ghost predicate Forgotten(s: State, id: Id) {
    Phases(s) && AllEnded(s) && Conserved(s) && (id in s.timers || Occurs(s.removed, id) == 1)
  }

  lemma ForgottenStep(x: Split, m: Micro, id: Id)
    requires Forgotten(x.s, id) && Can(x, m)
    ensures Forgotten(Next(x, m).s, id)
  {
    assert forall t: Tid :: t < |x.s.loops| ==> PhaseOk(x.s.loops[t]) && x.s.loops[t].idleEnded;
    var step := m.step;
    PhasesStep(x.s, step);
    ConservedStep(x.s, step);
    EndedStays(x.s, step);
    RemovedStays(x.s, step, id);
    hide Do, Conserved, Phases, Occurs;
  }

  lemma EndedStays(s: State, step: Step)
    requires AllEnded(s) && Phases(s) && Enabled(s, step)
    ensures AllEnded(Do(s, step))
  {
    hide RemoveAt;
  }

  lemma RemovedStays(s: State, step: Step, id: Id)
    requires AllEnded(s) && Phases(s) && Enabled(s, step) && Conserved(s)
    requires id in s.timers || Occurs(s.removed, id) == 1
    ensures id in Do(s, step).timers || Occurs(Do(s, step).removed, id) == 1
  {
    if step.CancelTimer? || step.DelEvent? {
      OccursSnoc(s.removed, step.id, id);
      OnePlace(s, id);
      OnePlace(s, step.id);
      hide Occurs, Conserved;
    } else {
      NobodyCollects(s, step);
      TimersStay(s, step);
      hide Do, Enabled, Occurs, Conserved;
    }
  }

  lemma NobodyCollects(s: State, step: Step)
    requires AllEnded(s) && Phases(s) && Enabled(s, step)
    ensures !step.TakeExpired?
  {
    forall t: Tid | t < |s.loops| ensures !s.loops[t].phase.Collecting? {
      assert PhaseOk(s.loops[t]);
    }
  }

  lemma TimersStay(s: State, step: Step)
    requires Enabled(s, step) && !step.TakeExpired? && !step.CancelTimer? && !step.DelEvent?
    ensures s.timers <= Do(s, step).timers && Do(s, step).removed == s.removed
  {
    hide RemoveAt;
  }

  lemma OnePlace(s: State, id: Id)
    requires Conserved(s)
    ensures Occurs(s.removed, id) + (if id in s.timers then 1 else 0) + (if id in s.regs then 1 else 0) <= 1
    ensures Occurs(s.removed, id) + Occurs(s.executed, id) + (if id in s.timers then 1 else 0) <= 1
  {
    assert Places(s, id) <= 1;
  }

  // A timer left behind by the last check is never executed in any continuation.
  lemma {:induction false} LeftTimerIsDropped(xs: seq<Split>, ms: seq<Micro>, n: nat, id: Id)
    requires Micros(xs, ms) && n <= |ms|
    requires Phases(xs[0].s) && AllEnded(xs[0].s) && Conserved(xs[0].s) && id in xs[0].s.timers
    ensures Forgotten(xs[n].s, id) && Occurs(xs[n].s.executed, id) == 0
  {
    if n > 0 {
      LeftTimerIsDropped(xs, ms, n - 1, id);
      ForgottenStep(xs[n - 1], ms[n - 1], id);
    }
    OnePlace(xs[n].s, id);
  }

  // ---------------------------------------------------------------------------
  // A run that drops a timer
  // ---------------------------------------------------------------------------

  function Both(p0: Phase, e0: bool, p1: Phase, e1: bool, timers: set<Id>): State {
    State([], [Loop(p0, e0, false), Loop(p1, e1, false)], timers, {}, 0, 0, 0, true, 1, [], [])
  }

  // Loop 1 has collected a callback when the check of loop 0 succeeds. Loop 0 then
  // runs that callback; loop 1 reads the timers and the counter, the callback adds
  // a timer and completes, and the base check of loop 1 succeeds too.
  function LateMicro(i: nat): Micro {
    match i
    case 0 => Other(AddTimer(None))
    case 1 => Other(SetStopping)
    case 2 => Other(Scan(0, 0))
    case 3 => Other(PickIdle(0))
    case 4 => Other(Scan(1, 0))
    case 5 => Other(PickIdle(1))
    case 6 => ReadTimers(1)
    case 7 => Other(Wake(1))
    case 8 => Other(TakeExpired(1, 0, false))
    case 9 => ReadTimers(0)
    case 10 => ReadPending(0)
    case 11 => ReadBase(0)
    case 12 => Other(EndCollect(1))
    case 13 => Other(Post(1))
    case 14 => Other(EndPost(1))
    case 15 => Other(EndDispatch(1))
    case 16 => Other(Scan(0, 0))
    case 17 => Other(Scan(1, 0))
    case 18 => Other(PickIdle(1))
    case 19 => ReadTimers(1)
    case 20 => ReadPending(1)
    case 21 => Other(AddTimer(Some(0)))
    case 22 => Other(Complete(0))
    case 23 => ReadBase(1)
    case 24 => Other(Scan(0, 0))
    case 25 => Other(PickIdle(0))
    case 26 => Other(Scan(1, 0))
    case _ => Other(PickIdle(1))
  }

  function LateSplit(i: nat): Split {
    var none := [NothingRead, NothingRead];
    match i
    case 0 => Split(Both(Scanning, false, Scanning, false, {}).(stopping := false, made := 0), none)
    case 1 => Split(Both(Scanning, false, Scanning, false, {0}).(stopping := false), none)
    case 2 => Split(Both(Scanning, false, Scanning, false, {0}), none)
    case 3 => Split(Both(Empty, false, Scanning, false, {0}), none)
    case 4 => Split(Both(IdleTop, false, Scanning, false, {0}), none)
    case 5 => Split(Both(IdleTop, false, Empty, false, {0}), none)
    case 6 => Split(Both(IdleTop, false, IdleTop, false, {0}), none)
    case 7 => Split(Both(IdleTop, false, Sleeping, false, {0}), none)
    case 8 => Split(Both(IdleTop, false, Collecting([]), false, {0}), none)
    case 9 => Split(Both(IdleTop, false, Collecting([0]), false, {}), none)
    case 10 => Split(Both(IdleTop, false, Collecting([0]), false, {}), [NoTimer, NothingRead])
    case 11 => Split(Both(IdleTop, false, Collecting([0]), false, {}), [NoPending, NothingRead])
    case 12 => Split(Both(Scanning, true, Collecting([0]), false, {}), none)
    case 13 => Split(Both(Scanning, true, Posting([0]), false, {}), none)
    case 14 => Split(Both(Scanning, true, Posting([]), false, {}).(queue := [0]), none)
    case 15 => Split(Both(Scanning, true, Dispatching, false, {}).(queue := [0]), none)
    case 16 => Split(Both(Scanning, true, Scanning, false, {}).(queue := [0]), none)
    case 17 => Split(Both(Running(0), true, Scanning, false, {}).(active := 1), none)
    case 18 => Split(Both(Running(0), true, Empty, false, {}).(active := 1), none)
    case 19 => Split(Both(Running(0), true, IdleTop, false, {}).(active := 1), none)
    case 20 => Split(Both(Running(0), true, IdleTop, false, {}).(active := 1), [NothingRead, NoTimer])
    case 21 => Split(Both(Running(0), true, IdleTop, false, {}).(active := 1), [NothingRead, NoPending])
    case 22 => Split(Both(Running(0), true, IdleTop, false, {1}).(active := 1, made := 2), [NothingRead, NoPending])
    case 23 => Split(Both(Scanning, true, IdleTop, false, {1}).(made := 2, executed := [0]), [NothingRead, NoPending])
    case 24 => Split(Both(Scanning, true, Scanning, true, {1}).(made := 2, executed := [0]), none)
    case 25 => Split(Both(Empty, true, Scanning, true, {1}).(made := 2, executed := [0]), none)
    case 26 => Split(Both(Exited, true, Scanning, true, {1}).(made := 2, executed := [0]), none)
    case 27 => Split(Both(Exited, true, Empty, true, {1}).(made := 2, executed := [0]), none)
    case _ => Split(Both(Exited, true, Exited, true, {1}).(made := 2, executed := [0]), none)
  }

  ghost predicate LateGoesOn(i: nat) {
    Can(LateSplit(i), LateMicro(i)) && Next(LateSplit(i), LateMicro(i)) == LateSplit(i + 1)
  }

  lemma LateGoesIdle(i: nat)
    requires i < 4
    ensures LateGoesOn(i)
  {
  }

  lemma LateSleeps(i: nat)
    requires 4 <= i < 8
    ensures LateGoesOn(i)
  {
  }

  lemma LateCollects(i: nat)
    requires 8 <= i < 12
    ensures LateGoesOn(i)
  {
    assert {0} - {0} == {} && [] + [0] == [0];
  }

  lemma LatePosts(i: nat)
    requires 12 <= i < 14
    ensures LateGoesOn(i)
  {
    assert [0][1..] == [] && [] + [0] == [0];
  }

  lemma LateDispatches(i: nat)
    requires 14 <= i < 16
    ensures LateGoesOn(i)
  {
  }

  lemma LateTakes()
    ensures LateGoesOn(16)
  {
    assert RemoveAt([0], 0) == [];
  }

  lemma LateReads(i: nat)
    requires 17 <= i < 21
    ensures LateGoesOn(i)
  {
  }

  lemma LateEnds(i: nat)
    requires 21 <= i < 24
    ensures LateGoesOn(i)
  {
    assert {} + {1} == {1} && [] + [0] == [0];
  }

  lemma LateExits(i: nat)
    requires 24 <= i < 28
    ensures LateGoesOn(i)
  {
  }

  // Every loop has exited, and the timer with number 1 was neither executed nor
  // cancelled.
  lemma UntimelyCheckDrops() returns (xs: seq<Split>, ms: seq<Micro>)
    ensures Run(xs, ms) && |ms| == 28 && AllExited(xs[28].s) && xs[28].s.made == 2
    ensures Occurs(xs[28].s.executed, 1) == 0 && Occurs(xs[28].s.removed, 1) == 0
  {
    xs, ms := seq(29, i requires 0 <= i => LateSplit(i)), seq(28, i requires 0 <= i => LateMicro(i));
    assert Init(LateSplit(0).s) && AllExited(LateSplit(28).s);
    assert Occurs([0], 1) == Occurs([0][..0], 1) + 0;
    hide Can, Next, LateMicro;
    forall i | 0 <= i < 28 ensures Can(xs[i], ms[i]) && xs[i + 1] == Next(xs[i], ms[i]) {
      if i < 4 {
        LateGoesIdle(i);
      } else if i < 8 {
        LateSleeps(i);
      } else if i < 12 {
        LateCollects(i);
      } else if i < 14 {
        LatePosts(i);
      } else if i < 16 {
        LateDispatches(i);
      } else if i == 16 {
        LateTakes();
      } else if i < 21 {
        LateReads(i);
      } else if i < 24 {
        LateEnds(i);
      } else {
        LateExits(i);
      }
    }
  }
}
