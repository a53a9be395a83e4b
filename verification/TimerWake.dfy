// Waking idle threads for an earlier deadline.
//
// An idle thread reads the least deadline (getNextTimer clears `tickled`) and
// sleeps until then. A timer that goes in first while `tickled` is clear sets it
// and, after the lock is released, notifies. One flag serves any number of
// sleepers.
module TimerWake {
  import opened Common
  import opened TimerModel

  // `read`: the least deadline seen, None if there was no timer. `notified`: the
  // pipe was written since that read.
  datatype Sleeper = Sleeper(read: Option<int>, notified: bool)

  // `inFlight`: notifications decided under the lock and not yet issued.
  datatype World = World(ts: State, idle: set<Tid>, sleepers: map<Tid, Sleeper>, inFlight: nat)

  datatype Step =
    | EnterIdle(t: Tid)
    | LeaveIdle(t: Tid)
    | Sleep(t: Tid, least: Option<int>)  // getNextTimer, then epoll_wait
    | Read                               // getNextTimer by a thread that does not sleep on it
    | Wake(t: Tid)
    | Issue                              // onTimerInsertedAtFront -> tickle
    | AddTimer(a: Address, now: int, ms: int, recurring: bool, cb: Option<CbId>)
    | CancelTimer(a: Address)
    | RefreshTimer(a: Address, now: int)
    | ResetTimer(a: Address, ms: int, fromNow: bool, now: int)
    | Collect(now: int)

  ghost predicate IsLeast(s: State, least: Option<int>) {
    match least
    case None => NothingArmed(s)
    case Some(d) =>
      && (exists a :: Armed(s, a) && s.timers[a].next == d)
      && (forall a :: Armed(s, a) ==> s.timers[a].next >= d)
  }

  ghost predicate Enabled(w: World, step: Step) {
    match step
    case EnterIdle(t) => t !in w.idle
    case LeaveIdle(t) => t in w.idle && t !in w.sleepers
    case Sleep(t, least) => t in w.idle && t !in w.sleepers && IsLeast(w.ts, least)
    case Read => true
    case Wake(t) => t in w.sleepers
    case Issue => w.inFlight > 0
    case AddTimer(a, _, _, _, _) => a !in w.ts.timers
    case CancelTimer(a) => a in w.ts.timers
    case RefreshTimer(a, _) => a in w.ts.timers
    case ResetTimer(a, _, _, _) => a in w.ts.timers
    case Collect(_) => true
  }

  // A refresh, which notifies nobody, does not need to: a notification is already
  // remembered, or some deadline is not after the new one.
  ghost predicate QuietRefresh(s: State, a: Address, now: int)
    requires a in s.timers
  {
    Live(s, a) ==> s.tickled || exists b :: Armed(s, b) && s.timers[b].next <= now + s.timers[a].period
  }

  // Assumed of the clock and the callers: no rollover, no negative period on a
  // recurring timer that expires, and only quiet refreshes.
  ghost predicate Forward(w: World, step: Step)
    requires Enabled(w, step)
  {
    match step
    case RefreshTimer(a, now) => QuietRefresh(w.ts, a, now)
    case Collect(now) =>
      && !Rollover(w.ts, now)
      && forall a :: Expired(w.ts, now, a) && w.ts.timers[a].recurring ==> w.ts.timers[a].period >= 0
    case _ => true
  }

  function Plus(w: World, p: (State, bool)): World {
    w.(ts := p.0, inFlight := w.inFlight + if p.1 then 1 else 0)
  }

  // tickle() writes to the pipe unless no thread is idle.
  ghost function Tickle(w: World): World {
    if w.idle == {} then w
    else w.(sleepers := map t | t in w.sleepers :: w.sleepers[t].(notified := true))
  }

  ghost function Do(w: World, step: Step): World
    requires Enabled(w, step)
  {
    match step
    case EnterIdle(t) => w.(idle := w.idle + {t})
    case LeaveIdle(t) => w.(idle := w.idle - {t})
    case Sleep(t, least) =>
      w.(ts := w.ts.(tickled := false), sleepers := w.sleepers[t := Sleeper(least, false)])
    case Read => w.(ts := w.ts.(tickled := false))
    case Wake(t) => w.(sleepers := w.sleepers - {t})
    case Issue => Tickle(w).(inFlight := w.inFlight - 1)
    case AddTimer(a, now, ms, recurring, cb) => Plus(w, Add(w.ts, a, now, ms, recurring, cb))
    case CancelTimer(a) => w.(ts := Cancel(w.ts, a).0)
    case RefreshTimer(a, now) => w.(ts := Refresh(w.ts, a, now).0)
    case ResetTimer(a, ms, fromNow, now) =>
      var r := Reset(w.ts, a, ms, fromNow, now);
      Plus(w, (r.0, r.2))
    case Collect(now) => w.(ts := Expire(w.ts, now))
  }

  // No armed timer is due before the deadline this sleeper waits for.
  ghost predicate Covered(s: State, p: Sleeper) {
    forall a :: Armed(s, a) ==> p.read.Some? && p.read.value <= s.timers[a].next
  }

  ghost predicate Served(w: World, t: Tid)
    requires t in w.sleepers
  {
    w.sleepers[t].notified || w.inFlight > 0
  }

  // The claim: a sleeper whose deadline is not the least any more has been
  // notified since its read, or a notification is on its way.
  ghost predicate NoLostWake(w: World) {
    forall t :: t in w.sleepers ==> Served(w, t) || Covered(w.ts, w.sleepers[t])
  }

  ghost predicate Inv(w: World) {
    && WellFormed(w.ts)
    && (forall t :: t in w.sleepers ==> t in w.idle)
    && NoLostWake(w)
    && (w.ts.tickled ==> forall t :: t in w.sleepers ==> Served(w, t))
  }

  // Operations with new timer state ts keep every live callback in the set.
  lemma WellFormedStep(w: World, step: Step)
    requires WellFormed(w.ts) && Enabled(w, step)
    ensures WellFormed(Do(w, step).ts)
  {
    var s' := Do(w, step).ts;
    forall a | Live(s', a) ensures Armed(s', a) {
      assert Live(w.ts, a) ==> Armed(w.ts, a);
    }
  }

  lemma SameTimersServe(w: World, w': World, t: Tid)
    requires t in w.sleepers && t in w'.sleepers && w'.sleepers[t] == w.sleepers[t] && w'.inFlight == w.inFlight
    requires w'.ts.timers == w.ts.timers
    ensures Served(w', t) == Served(w, t)
    ensures Covered(w.ts, w.sleepers[t]) ==> Covered(w'.ts, w'.sleepers[t])
  {
    if Covered(w.ts, w.sleepers[t]) {
      forall a | Armed(w'.ts, a)
        ensures w'.sleepers[t].read.Some? && w'.sleepers[t].read.value <= w'.ts.timers[a].next
      {
        assert Armed(w.ts, a);
      }
    }
  }

  // A timer that goes in without a notification leaves every uncovered sleeper served.
  lemma InsertKeeps(w: World, a: Address, r: TimerRec)
    requires Inv(w)
    ensures Inv(Plus(w, Insert(w.ts, a, r)))
  {
    var p := Insert(w.ts, a, r);
    var w' := Plus(w, p);
    forall b | Live(w'.ts, b) ensures Armed(w'.ts, b) {
      assert Live(w.ts, b) ==> Armed(w.ts, b);
    }
    if !p.1 && !w.ts.tickled {
      var s1 := w.ts.(timers := w.ts.timers[a := r.(armed := true)]);
      var b :| Armed(s1, b) && b != a && !Before(KeyOf(s1, a), KeyOf(s1, b));
      assert Armed(w.ts, b);
      forall t | t in w'.sleepers && !Served(w', t) ensures Covered(w'.ts, w'.sleepers[t]) {
        assert !Served(w, t);
        forall c | Armed(w'.ts, c)
          ensures w'.sleepers[t].read.Some? && w'.sleepers[t].read.value <= w'.ts.timers[c].next
        {
          assert c != a ==> Armed(w.ts, c);
        }
      }
    }
    forall t | t in w'.sleepers ensures Served(w, t) ==> Served(w', t) {}
  }

  lemma CollectKeeps(w: World, now: int)
    requires Inv(w) && Forward(w, Collect(now))
    ensures Inv(Do(w, Collect(now)))
  {
    var w' := Do(w, Collect(now));
    WellFormedStep(w, Collect(now));
    forall b | Armed(w'.ts, b) ensures Armed(w.ts, b) && w'.ts.timers[b].next >= w.ts.timers[b].next {
      assert Armed(w.ts, b);
    }
    FewerOrLater(w, w');
  }

  lemma InvStep(w: World, step: Step)
    requires Inv(w) && Enabled(w, step) && Forward(w, step)
    ensures Inv(Do(w, step))
  {
    var w' := Do(w, step);
    WellFormedStep(w, step);
    match step
    case AddTimer(a, now, ms, recurring, cb) =>
      InsertKeeps(w, a, TimerRec(now + ms, ms, recurring, cb, false));
    case ResetTimer(a, ms, fromNow, now) =>
      var r := w.ts.timers[a];
      if (r.period != ms || fromNow) && r.cb.Some? {
        InsertKeeps(w, a, r.(period := ms, next := (if fromNow then now else r.next - ms) + ms));
      } else {
        assert w' == w;
      }
    case Collect(now) => CollectKeeps(w, now);
    case Issue => IssueKeeps(w);
    case CancelTimer(a) => CancelKeeps(w, a);
    case RefreshTimer(a, now) => RefreshKeeps(w, a, now);
    case Sleep(t, least) => SleepKeeps(w, t, least);
    case _ =>
      forall u | u in w'.sleepers ensures Served(w', u) || Covered(w'.ts, w'.sleepers[u]) {
        SameTimersServe(w, w', u);
      }
      forall u | u in w'.sleepers ensures Served(w', u) == Served(w, u) {}
  }

  lemma IssueKeeps(w: World)
    requires Inv(w) && w.inFlight > 0
    ensures Inv(Do(w, Issue))
  {
    var w' := Do(w, Issue);
    WellFormedStep(w, Issue);
    forall t | t in w'.sleepers ensures t in w.idle && w'.sleepers[t].notified {}
  }

  lemma SleepKeeps(w: World, t: Tid, least: Option<int>)
    requires Inv(w) && Enabled(w, Sleep(t, least))
    ensures Inv(Do(w, Sleep(t, least)))
  {
    var w' := Do(w, Sleep(t, least));
    WellFormedStep(w, Sleep(t, least));
    forall u | u in w'.sleepers ensures Served(w', u) || Covered(w'.ts, w'.sleepers[u]) {
      if u != t {
        SameTimersServe(w, w', u);
      } else {
        forall a | Armed(w'.ts, a) ensures least.Some? && least.value <= w'.ts.timers[a].next {
          assert Armed(w.ts, a);
        }
      }
    }
  }

  lemma CancelKeeps(w: World, a: Address)
    requires Inv(w) && a in w.ts.timers
    ensures Inv(Do(w, CancelTimer(a)))
  {
    var w' := Do(w, CancelTimer(a));
    WellFormedStep(w, CancelTimer(a));
    forall b | Armed(w'.ts, b) ensures Armed(w.ts, b) && w'.ts.timers[b].next >= w.ts.timers[b].next {
      assert Armed(w.ts, b);
    }
    FewerOrLater(w, w');
  }

  lemma RefreshKeeps(w: World, a: Address, now: int)
    requires Inv(w) && a in w.ts.timers && Forward(w, RefreshTimer(a, now))
    ensures Inv(Do(w, RefreshTimer(a, now)))
  {
    var w' := Do(w, RefreshTimer(a, now));
    WellFormedStep(w, RefreshTimer(a, now));
    forall t | t in w'.sleepers ensures Served(w', t) == Served(w, t) {}
    if Live(w.ts, a) && !w.ts.tickled {
      var due := now + w.ts.timers[a].period;
      var b :| Armed(w.ts, b) && w.ts.timers[b].next <= due;
      forall t | t in w'.sleepers && !Served(w', t) ensures Covered(w'.ts, w'.sleepers[t]) {
        assert !Served(w, t);
        forall x | Armed(w'.ts, x)
          ensures w'.sleepers[t].read.Some? && w'.sleepers[t].read.value <= w'.ts.timers[x].next
        {
          assert Armed(w.ts, x);
        }
      }
    }
  }

  // Timers that only leave the set or move later cover everybody they covered.
  lemma FewerOrLater(w: World, w': World)
    requires Inv(w) && WellFormed(w'.ts) && w' == w.(ts := w'.ts) && w'.ts.tickled == w.ts.tickled
    requires forall a :: Armed(w'.ts, a) ==> Armed(w.ts, a) && w'.ts.timers[a].next >= w.ts.timers[a].next
    ensures Inv(w')
  {
    forall t | t in w'.sleepers ensures Served(w, t) == Served(w', t) {}
    forall t | t in w'.sleepers && Covered(w.ts, w.sleepers[t]) ensures Covered(w'.ts, w'.sleepers[t]) {
      forall a | Armed(w'.ts, a)
        ensures w'.sleepers[t].read.Some? && w'.sleepers[t].read.value <= w'.ts.timers[a].next
      {
        assert Armed(w.ts, a);
      }
    }
  }

  ghost predicate Init(w: World) {
    w.ts.timers == map[] && !w.ts.tickled && w.idle == {} && w.sleepers == map[] && w.inFlight == 0
  }

  ghost predicate Execution(worlds: seq<World>, steps: seq<Step>) {
    && |worlds| == |steps| + 1 && Init(worlds[0])
    && forall i :: 0 <= i < |steps| ==>
        Enabled(worlds[i], steps[i]) && Forward(worlds[i], steps[i]) && worlds[i + 1] == Do(worlds[i], steps[i])
  }

  // Over every run with any number of sleepers no wake-up is lost.
  lemma {:induction false} NoWakeIsLost(worlds: seq<World>, steps: seq<Step>, k: nat)
    requires Execution(worlds, steps) && k <= |steps|
    ensures Inv(worlds[k]) && NoLostWake(worlds[k])
  {
    if k > 0 {
      NoWakeIsLost(worlds, steps, k - 1);
      InvStep(worlds[k - 1], steps[k - 1]);
    }
  }

  // refresh notifies nobody. It is safe for every possible set of sleepers
  // exactly if `tickled` is set or the new deadline is not below all present ones.
  lemma RefreshSafeIff(s: State, a: Address, now: int)
    requires WellFormed(s) && Live(s, a)
    ensures (forall w :: Inv(w) && w.ts == s ==> NoLostWake(Do(w, RefreshTimer(a, now))))
      <==> QuietRefresh(s, a, now)
  {
    var due := now + s.timers[a].period;
    if s.tickled || exists b :: Armed(s, b) && s.timers[b].next <= due {
      forall w | Inv(w) && w.ts == s ensures NoLostWake(Do(w, RefreshTimer(a, now))) {
        var w' := Do(w, RefreshTimer(a, now));
        forall t | t in w'.sleepers && !Served(w', t) ensures Covered(w'.ts, w'.sleepers[t]) {
          assert !Served(w, t);
        }
      }
    } else {
      var w := World(s, {0}, map[0 := Sleeper(Some(due + 1), false)], 0);
      assert Covered(s, w.sleepers[0]);
      assert Inv(w);
      var w' := Do(w, RefreshTimer(a, now));
      assert Armed(w'.ts, a) && 0 in w'.sleepers && !Served(w', 0);
      assert !NoLostWake(w');
    }
  }
}
