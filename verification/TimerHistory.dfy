// What happens to one timer over a whole history of the timer manager.
module TimerHistory {
  import opened Common
  import opened TimerModel

  datatype Event =
    | AddTimer(a: Address, now: int, ms: int, recurring: bool, cb: Option<CbId>)
    | CancelTimer(a: Address)
    | RefreshTimer(a: Address, now: int)
    | ResetTimer(a: Address, ms: int, fromNow: bool, now: int)
    | ReadNext
    | Collect(now: int)

  predicate Legal(s: State, e: Event) {
    match e
    case AddTimer(a, _, _, _, _) => a !in s.timers
    case CancelTimer(a) => a in s.timers
    case RefreshTimer(a, _) => a in s.timers
    case ResetTimer(a, _, _, _) => a in s.timers
    case _ => true
  }

  ghost function Apply(s: State, e: Event): State
    requires Legal(s, e)
  {
    match e
    case AddTimer(a, now, ms, recurring, cb) => Add(s, a, now, ms, recurring, cb).0
    case CancelTimer(a) => Cancel(s, a).0
    case RefreshTimer(a, now) => Refresh(s, a, now).0
    case ResetTimer(a, ms, fromNow, now) => Reset(s, a, ms, fromNow, now).0
    case ReadNext => s.(tickled := false)
    case Collect(now) => Expire(s, now)
  }

  ghost predicate History(states: seq<State>, events: seq<Event>) {
    && |states| == |events| + 1
    && states[0].timers == map[]
    && forall i :: 0 <= i < |events| ==> Legal(states[i], events[i]) && states[i + 1] == Apply(states[i], events[i])
  }

  // Event i hands out the callback of a.
  ghost predicate CollectedAt(states: seq<State>, events: seq<Event>, i: nat, a: Address) {
    i < |events| && i < |states| && events[i].Collect? && Expired(states[i], events[i].now, a)
  }

  // The event gives a the deadline `due`.
  ghost predicate SetsDeadline(s: State, e: Event, a: Address, due: int) {
    match e
    case AddTimer(b, now, ms, _, _) => b == a && due == now + ms
    case RefreshTimer(b, now) => b == a && Live(s, a) && due == now + s.timers[a].period
    case ResetTimer(b, ms, fromNow, now) => b == a && Live(s, a) && fromNow && due == now + ms
    case Collect(now) => Expired(s, now, a) && s.timers[a].recurring && due == now + s.timers[a].period
    case _ => false
  }

  ghost predicate Untouched(states: seq<State>, events: seq<Event>, a: Address, i: nat, j: nat) {
    j <= |events| <= |states| &&
    forall k, due :: i <= k < j ==> !SetsDeadline(states[k], events[k], a, due)
  }

  // In no state is a timer with a live callback outside the set.
  lemma {:induction false} AlwaysWellFormed(states: seq<State>, events: seq<Event>, k: nat)
    requires History(states, events) && k <= |events|
    ensures WellFormed(states[k])
  {
    if k > 0 {
      AlwaysWellFormed(states, events, k - 1);
      assert states[k] == Apply(states[k - 1], events[k - 1]);
      forall a | Live(states[k], a) ensures Armed(states[k], a) {
        assert Live(states[k - 1], a) ==> Armed(states[k - 1], a);
      }
    }
  }

  lemma DeadlineAfterSet(s: State, e: Event, a: Address, due: int)
    requires Legal(s, e) && SetsDeadline(s, e, a, due)
    ensures a in Apply(s, e).timers && Apply(s, e).timers[a].next == due
  {
  }

  lemma DeadlineKept(s: State, e: Event, a: Address)
    requires Legal(s, e) && a in s.timers && WellFormed(s) && forall due :: !SetsDeadline(s, e, a, due)
    ensures a in Apply(s, e).timers && Apply(s, e).timers[a].next == s.timers[a].next
  {
    match e
    case AddTimer(b, now, ms, _, _) =>
      assert !SetsDeadline(s, e, a, now + ms);
    case RefreshTimer(b, now) =>
      assert !SetsDeadline(s, e, a, now + s.timers[a].period);
    case ResetTimer(b, ms, fromNow, now) =>
      assert !SetsDeadline(s, e, a, now + ms);
    case Collect(now) =>
      assert !SetsDeadline(s, e, a, now + s.timers[a].period);
    case _ =>
  }

  lemma {:induction false} DeadlineHolds(states: seq<State>, events: seq<Event>, a: Address, i: nat, due: int, j: nat)
    requires History(states, events) && i < j <= |events|
    requires SetsDeadline(states[i], events[i], a, due) && Untouched(states, events, a, i + 1, j)
    ensures a in states[j].timers && states[j].timers[a].next == due
    decreases j
  {
    if j == i + 1 {
      DeadlineAfterSet(states[i], events[i], a, due);
    } else {
      DeadlineHolds(states, events, a, i, due, j - 1);
      AlwaysWellFormed(states, events, j - 1);
      DeadlineKept(states[j - 1], events[j - 1], a);
    }
  }

  // A callback is never collected before its latest deadline, however that was
  // set, unless the clock was found to have gone back.
  lemma NeverBeforeDeadline(states: seq<State>, events: seq<Event>, a: Address, i: nat, due: int, j: nat)
    requires History(states, events) && i < j < |events|
    requires SetsDeadline(states[i], events[i], a, due) && Untouched(states, events, a, i + 1, j)
    requires CollectedAt(states, events, j, a)
    ensures events[j].now >= due || Rollover(states[j], events[j].now)
  {
    DeadlineHolds(states, events, a, i, due, j);
  }

  // Two collections of a recurring timer with no refresh, reset from now or
  // collection between are at least its period apart.
  lemma RecurringSpacing(states: seq<State>, events: seq<Event>, a: Address, i: nat, j: nat)
    requires History(states, events) && i < j < |events|
    requires CollectedAt(states, events, i, a) && states[i].timers[a].recurring
    requires CollectedAt(states, events, j, a) && Untouched(states, events, a, i + 1, j)
    requires !Rollover(states[j], events[j].now)
    ensures events[j].now - events[i].now >= states[i].timers[a].period
  {
    NeverBeforeDeadline(states, events, a, i, events[i].now + states[i].timers[a].period, j);
  }

  ghost predicate Gone(s: State, a: Address) {
    a in s.timers && !s.timers[a].armed && s.timers[a].cb.None?
  }

  lemma {:induction false} GoneStays(states: seq<State>, events: seq<Event>, a: Address, i: nat, j: nat)
    requires History(states, events) && i <= j <= |events| && Gone(states[i], a)
    ensures Gone(states[j], a)
    decreases j
  {
    if i < j {
      GoneStays(states, events, a, i, j - 1);
      assert Legal(states[j - 1], events[j - 1]) && states[j] == Apply(states[j - 1], events[j - 1]);
    }
  }

  // A one-shot timer is collected at most once, rollover or not.
  lemma OneShotAtMostOnce(states: seq<State>, events: seq<Event>, a: Address, i: nat, j: nat)
    requires History(states, events) && i < j
    requires CollectedAt(states, events, i, a) && !states[i].timers[a].recurring
    ensures !CollectedAt(states, events, j, a)
  {
    if j < |events| {
      assert Gone(Apply(states[i], events[i]), a);
      GoneStays(states, events, a, i + 1, j);
    }
  }

  // After a cancel that succeeded the timer is never collected again.
  lemma CancelledNeverCollected(states: seq<State>, events: seq<Event>, a: Address, i: nat, j: nat)
    requires History(states, events) && i < j && i < |events|
    requires events[i] == CancelTimer(a) && Cancel(states[i], a).1
    ensures !CollectedAt(states, events, j, a)
  {
    if j < |events| {
      assert Gone(Apply(states[i], events[i]), a);
      GoneStays(states, events, a, i + 1, j);
    }
  }

  // A cancel of a timer that was added with a callback, or the collection of a one-shot timer.
  ghost predicate Ends(s: State, e: Event, given: Event)
    requires given.AddTimer?
  {
    || (e == CancelTimer(given.a) && given.cb.Some?)
    || (e.Collect? && Expired(s, e.now, given.a) && !given.recurring)
  }

  ghost predicate EndedBetween(states: seq<State>, events: seq<Event>, k: nat, i: nat)
    requires k < i <= |events| <= |states| && events[k].AddTimer?
  {
    exists j :: k < j < i && Ends(states[j], events[j], events[k])
  }

  // In the set with the flag and the callback addTimer was given, or outside it with
  // no callback.
  ghost predicate Stands(s: State, given: Event, ended: bool)
    requires given.AddTimer?
  {
    && given.a in s.timers && s.timers[given.a].recurring == given.recurring
    && s.timers[given.a].armed == !ended
    && s.timers[given.a].cb == if ended then None else given.cb
  }

  lemma StandsAfter(s: State, e: Event, given: Event, ended: bool)
    requires given.AddTimer? && Legal(s, e) && Stands(s, given, ended)
    ensures Stands(Apply(s, e), given, ended || Ends(s, e, given))
  {
  }

  lemma StandsFirst(s: State, e: Event)
    requires e.AddTimer? && Legal(s, e)
    ensures Stands(Apply(s, e), e, false)
  {
  }

  lemma EndedGrows(states: seq<State>, events: seq<Event>, k: nat, i: nat)
    requires k + 1 < i <= |events| <= |states| && events[k].AddTimer?
    ensures EndedBetween(states, events, k, i) <==>
      EndedBetween(states, events, k, i - 1) || Ends(states[i - 1], events[i - 1], events[k])
  {
    hide Ends;
  }

  lemma {:induction false} StandsAlways(states: seq<State>, events: seq<Event>, k: nat, i: nat)
    requires History(states, events) && k < i <= |events| && events[k].AddTimer?
    ensures Stands(states[i], events[k], EndedBetween(states, events, k, i))
    decreases i
  {
    hide Apply, Ends, Stands, Legal;
    assert Legal(states[i - 1], events[i - 1]) && states[i] == Apply(states[i - 1], events[i - 1]);
    if i == k + 1 {
      StandsFirst(states[k], events[k]);
    } else {
      StandsAlways(states, events, k, i - 1);
      StandsAfter(states[i - 1], events[i - 1], events[k], EndedBetween(states, events, k, i - 1));
      EndedGrows(states, events, k, i);
    }
  }

  // A timer is in the set, with the flag and the callback addTimer was given, until
  // one of these happens, and from then on outside.
  lemma LifeOfATimer(states: seq<State>, events: seq<Event>, k: nat, i: nat)
    requires History(states, events) && k < i <= |events| && events[k].AddTimer?
    ensures events[k].a in states[i].timers
    ensures states[i].timers[events[k].a].recurring == events[k].recurring
    ensures var r := states[i].timers[events[k].a];
      if EndedBetween(states, events, k, i) then !r.armed && r.cb == None else r.armed && r.cb == events[k].cb
  {
    StandsAlways(states, events, k, i);
  }

  // A collection hands out the callback that addTimer was given, however often.
  lemma CollectsWhatWasGiven(states: seq<State>, events: seq<Event>, k: nat, i: nat)
    requires History(states, events) && k < i < |events| && events[k].AddTimer?
    requires CollectedAt(states, events, i, events[k].a)
    ensures states[i].timers[events[k].a].cb == events[k].cb
    ensures states[i].timers[events[k].a].recurring == events[k].recurring
  {
    LifeOfATimer(states, events, k, i);
  }

  // The event gives a the period ms.
  ghost predicate SetsPeriod(s: State, e: Event, a: Address, ms: int) {
    || (e.AddTimer? && e.a == a && e.ms == ms)
    || (e.ResetTimer? && e.a == a && e.ms == ms && Live(s, a))
  }

  // A timer keeps its period until it is reset to another.
  lemma {:induction false} PeriodHolds(states: seq<State>, events: seq<Event>, a: Address, k: nat, ms: int, i: nat)
    requires History(states, events) && k < i <= |events| && SetsPeriod(states[k], events[k], a, ms)
    requires forall j, p :: k < j < i ==> !SetsPeriod(states[j], events[j], a, p)
    ensures a in states[i].timers && states[i].timers[a].period == ms
    decreases i
  {
    assert Legal(states[i - 1], events[i - 1]) && states[i] == Apply(states[i - 1], events[i - 1]);
    if i > k + 1 {
      PeriodHolds(states, events, a, k, ms, i - 1);
      var e := events[i - 1];
      if e.AddTimer? || e.ResetTimer? {
        assert !SetsPeriod(states[i - 1], e, a, e.ms);
      }
    }
  }

  // Event i looks at the clock: an empty set is left before that.
  ghost predicate LooksAt(s: State, e: Event) {
    e.Collect? && exists a :: a in s.timers && s.timers[a].armed
  }

  lemma {:induction false} ClockKept(states: seq<State>, events: seq<Event>, k: nat, i: nat)
    requires History(states, events) && k < i <= |events| && LooksAt(states[k], events[k])
    requires forall j :: k < j < i ==> !LooksAt(states[j], events[j])
    ensures states[i].previous == events[k].now
    decreases i
  {
    var s, e := states[i - 1], events[i - 1];
    assert Legal(s, e) && states[i] == Apply(s, e);
    assert NothingArmed(s) <==> !exists a :: a in s.timers && s.timers[a].armed by {
      assert forall a :: a in s.timers ==> (Armed(s, a) <==> s.timers[a].armed);
    }
    if i > k + 1 {
      ClockKept(states, events, k, i - 1);
      assert !LooksAt(s, e);
    }
  }

  // The clock counts as gone back iff it is more than an hour behind the last
  // collection that looked at it, whatever happened in between.
  lemma RolloverIff(states: seq<State>, events: seq<Event>, k: nat, i: nat, now: int)
    requires History(states, events) && k < i <= |events| && LooksAt(states[k], events[k])
    requires forall j :: k < j < i ==> !LooksAt(states[j], events[j])
    ensures Rollover(states[i], now) <==> now < events[k].now - 3600000
  {
    ClockKept(states, events, k, i);
  }
}
