// What the timer operations mean, on values.
//
// A timer is known by its address, which is also the tie-break of the ordering.
// `armed` says that the timer is in the manager's set. Times are milliseconds.
module TimerModel {
  import opened Common

  type Address = nat

  datatype TimerRec = TimerRec(next: int, period: int, recurring: bool, cb: Option<CbId>, armed: bool)

  datatype State = State(timers: map<Address, TimerRec>, tickled: bool, previous: int)

  const NO_TIMER: int := -1
  const ROLLOVER_MS: int := 60 * 60 * 1000

  // Key of a timer in the set; None stands for a null pointer.
  datatype Key = Key(next: int, addr: Address)

  predicate Before(l: Key, r: Key) {
    l.next < r.next || (l.next == r.next && l.addr < r.addr)
  }

  predicate Less(l: Option<Key>, r: Option<Key>) {
    if l.None? && r.None? then false
    else if l.None? then true
    else if r.None? then false
    else Before(l.value, r.value)
  }

  // The comparator orders all pointers, null included, strictly and totally.
  lemma ComparatorIsStrictTotalOrder(x: Option<Key>, y: Option<Key>, z: Option<Key>)
    ensures !Less(x, x)
    ensures Less(x, y) && Less(y, z) ==> Less(x, z)
    ensures x == y || Less(x, y) || Less(y, x)
  {
  }

  function KeyOf(s: State, a: Address): Key
    requires a in s.timers
  {
    Key(s.timers[a].next, a)
  }

  predicate Armed(s: State, a: Address) {
    a in s.timers && s.timers[a].armed
  }

  predicate Live(s: State, a: Address) {
    a in s.timers && s.timers[a].cb.Some?
  }

  // A live callback implies membership in the set. The converse fails only for
  // timers added with an empty callback.
  ghost predicate WellFormed(s: State) {
    forall a :: Live(s, a) ==> Armed(s, a)
  }

  ghost predicate NothingArmed(s: State) {
    forall a :: !Armed(s, a)
  }

  // a precedes every other timer of the set.
  ghost predicate AtFront(s: State, a: Address) {
    a in s.timers && forall b :: Armed(s, b) && b != a ==> Before(KeyOf(s, a), KeyOf(s, b))
  }

  // The protected addTimer: the timer goes into the set; if it is first and no
  // notification is outstanding, one is due and `tickled` remembers it.
  ghost function Insert(s: State, a: Address, r: TimerRec): (State, bool) {
    var s1 := s.(timers := s.timers[a := r.(armed := true)]);
    var notify := AtFront(s1, a) && !s.tickled;
    (s1.(tickled := s.tickled || notify), notify)
  }

  // A notification is due iff none is outstanding and every other timer of the set
  // has a later deadline, or the same deadline and a greater address.
  lemma InsertNotifiesIff(s: State, a: Address, r: TimerRec)
    ensures Insert(s, a, r).1 <==>
      && !s.tickled
      && forall b :: b in s.timers && s.timers[b].armed && b != a ==>
          r.next < s.timers[b].next || (r.next == s.timers[b].next && a < b)
    ensures Insert(s, a, r).0.tickled == (s.tickled || Insert(s, a, r).1)
    ensures Insert(s, a, r).0.timers == s.timers[a := r.(armed := true)]
  {
    var s1 := s.(timers := s.timers[a := r.(armed := true)]);
    forall b | b in s.timers && b != a
      ensures (Armed(s1, b) <==> s.timers[b].armed) && KeyOf(s1, b) == Key(s.timers[b].next, b)
    {
    }
    if AtFront(s1, a) {
      forall b | b in s.timers && s.timers[b].armed && b != a
        ensures r.next < s.timers[b].next || (r.next == s.timers[b].next && a < b)
      {
        assert Armed(s1, b);
      }
    }
  }

  // Only the record that goes in matters, not what the map held for a before.
  lemma InsertForgets(s: State, a: Address, r: TimerRec)
    ensures Insert(s.(timers := s.timers[a := r]), a, r) == Insert(s, a, r)
  {
    UpdateTwice(s.timers, a, r, r.(armed := true));
  }

  ghost function Add(s: State, a: Address, now: int, ms: int, recurring: bool, cb: Option<CbId>): (State, bool) {
    Insert(s, a, TimerRec(now + ms, ms, recurring, cb, false))
  }

  function Cancel(s: State, a: Address): (State, bool)
    requires a in s.timers
  {
    if s.timers[a].cb.Some? then (s.(timers := s.timers[a := s.timers[a].(cb := None, armed := false)]), true)
    else (s, false)
  }

  function Refresh(s: State, a: Address, now: int): (State, bool)
    requires a in s.timers
  {
    if s.timers[a].cb.Some? then (s.(timers := s.timers[a := s.timers[a].(next := now + s.timers[a].period)]), true)
    else (s, false)
  }

  // With fromNow == false the old deadline is kept whatever ms is: the new ms
  // is taken off the deadline and added again.
  ghost function Reset(s: State, a: Address, ms: int, fromNow: bool, now: int): (State, bool, bool)
    requires a in s.timers
  {
    var r := s.timers[a];
    if r.period == ms && !fromNow then (s, true, false)
    else if r.cb.None? then (s, false, false)
    else
      var start := if fromNow then now else r.next - ms;
      var p := Insert(s, a, r.(period := ms, next := start + ms));
      (p.0, true, p.1)
  }

  // The deadline a reset of a live timer should set, counted from now or from when
  // the present deadline was counted, is the one it sets iff it counts from now or
  // the period stays. Only a reset from now changes the deadline.
  lemma ResetDeadlineIff(s: State, a: Address, ms: int, fromNow: bool, now: int)
    requires Live(s, a)
    ensures var r := s.timers[a]; var r' := Reset(s, a, ms, fromNow, now).0.timers[a];
      && (r'.next == (if fromNow then now else r.next - r.period) + ms <==> fromNow || ms == r.period)
      && (r'.next != r.next ==> fromNow)
      && r'.period == ms
  {
  }

  predicate Rollover(s: State, now: int) {
    now < s.previous && now < s.previous - ROLLOVER_MS
  }

  predicate Expired(s: State, now: int, a: Address) {
    Armed(s, a) && (Rollover(s, now) || s.timers[a].next <= now)
  }

  function AfterExpiry(r: TimerRec, now: int): TimerRec {
    if r.recurring then r.(next := now + r.period) else r.(cb := None, armed := false)
  }

  // listExpiredCb. An empty set returns before the clock is looked at.
  ghost function Expire(s: State, now: int): State {
    if NothingArmed(s) then s
    else State(map a | a in s.timers :: if Expired(s, now, a) then AfterExpiry(s.timers[a], now) else s.timers[a],
               s.tickled, now)
  }

  // The expired timers in the order of the set.
  ghost predicate Collects(s: State, now: int, order: seq<Address>) {
    && (forall a :: a in order <==> Expired(s, now, a))
    && (forall i :: 0 <= i < |order| ==> order[i] in s.timers)
    && (forall i, j :: 0 <= i < j < |order| ==> Before(KeyOf(s, order[i]), KeyOf(s, order[j])))
  }

  function Callbacks(s: State, order: seq<Address>): (cbs: seq<Option<CbId>>)
    requires forall a :: a in order ==> a in s.timers
    ensures |cbs| == |order|
    ensures forall i :: 0 <= i < |order| ==> cbs[i] == s.timers[order[i]].cb
  {
    seq(|order|, i requires 0 <= i < |order| => s.timers[order[i]].cb)
  }

  // The callbacks handed out are those of the expired timers: each of them, no
  // other, earlier deadlines first.
  lemma CallbacksOfExpired(s: State, now: int, order: seq<Address>)
    requires Collects(s, now, order)
    ensures forall c :: c in Callbacks(s, order) <==> exists a :: Expired(s, now, a) && s.timers[a].cb == c
    ensures forall i, j :: 0 <= i < j < |Callbacks(s, order)| ==>
      order[i] != order[j] && s.timers[order[i]].next <= s.timers[order[j]].next
  {
    var cbs := Callbacks(s, order);
    forall c | c in cbs ensures exists a :: Expired(s, now, a) && s.timers[a].cb == c {
      var i :| 0 <= i < |cbs| && cbs[i] == c;
      assert order[i] in order;
      assert Expired(s, now, order[i]);
    }
    forall a | Expired(s, now, a) ensures s.timers[a].cb in cbs {
      assert a in order;
      var i :| 0 <= i < |order| && order[i] == a;
      assert cbs[i] == s.timers[a].cb;
    }
    assert forall i, j :: 0 <= i < j < |cbs| ==> Before(KeyOf(s, order[i]), KeyOf(s, order[j]));
  }

  // The waiting time getNextTimer reports: the sentinel if the set is empty, 0 if
  // some deadline has passed, else the time left until the least deadline.
  ghost predicate IsNextTimer(s: State, now: int, r: int) {
    if NothingArmed(s) then r == NO_TIMER
    else
      && r >= 0
      && (r == 0 ==> exists a :: Armed(s, a) && s.timers[a].next <= now)
      && (r > 0 ==> exists a :: Armed(s, a) && s.timers[a].next == now + r)
      && (r > 0 ==> forall a :: Armed(s, a) ==> s.timers[a].next >= now + r)
  }

  lemma NextTimerIsUnique(s: State, now: int, r1: int, r2: int)
    requires IsNextTimer(s, now, r1) && IsNextTimer(s, now, r2)
    ensures r1 == r2
  {
  }

  // The order of collection is determined: deadline first, address second.
  lemma {:induction false} CollectsIsUnique(s: State, now: int, p: seq<Address>, q: seq<Address>)
    requires Collects(s, now, p) && Collects(s, now, q)
    ensures p == q
  {
    PrefixesAgree(s, now, p, q, |p|);
    PrefixesAgree(s, now, q, p, |q|);
  }

  lemma {:induction false} PrefixesAgree(s: State, now: int, p: seq<Address>, q: seq<Address>, n: nat)
    requires Collects(s, now, p) && Collects(s, now, q) && n <= |p|
    ensures n <= |q| && p[..n] == q[..n]
    decreases n
  {
    if n > 0 {
      PrefixesAgree(s, now, p, q, n - 1);
      assert p[n - 1] in q;
      var j :| 0 <= j < |q| && q[j] == p[n - 1];
      assert forall k :: 0 <= k < n - 1 ==> q[k] == p[..n - 1][k] == p[k];
      assert j >= n - 1;
      assert q[n - 1] in p;
      var i :| 0 <= i < |p| && p[i] == q[n - 1];
      assert i >= n - 1;
      assert q[n - 1] == p[n - 1];
      assert p[..n] == p[..n - 1] + [p[n - 1]] && q[..n] == q[..n - 1] + [q[n - 1]];
    }
  }

  ghost function AsSet(order: seq<Address>): set<Address> {
    set a | a in order
  }

  // While the expired timers are worked off: the first i are done, the rest are
  // outside the set.
  ghost function Progress(s: State, order: seq<Address>, i: nat, now: int): map<Address, TimerRec>
    requires i <= |order|
  {
    map a | a in s.timers ::
      if a in order[..i] then AfterExpiry(s.timers[a], now)
      else if a in order[i..] then s.timers[a].(armed := false)
      else s.timers[a]
  }

  lemma ProgressStep(s: State, order: seq<Address>, i: nat, now: int)
    requires Collects(s, now, order) && i < |order|
    ensures order[i] in order[i..] && order[i] !in order[..i] && order[i] !in order[i + 1..]
    ensures Progress(s, order, i + 1, now)
      == Progress(s, order, i, now)[order[i] := AfterExpiry(s.timers[order[i]], now)]
    ensures AsSet(order[i..]) - {order[i]} == AsSet(order[i + 1..])
  {
    var a := order[i];
    assert order[i..] == [a] + order[i + 1..];
    assert order[..i + 1] == order[..i] + [a];
  }

  // The next timer is outside the set and otherwise as it was.
  lemma ProgressNext(s: State, order: seq<Address>, i: nat, now: int)
    requires Collects(s, now, order) && i < |order|
    ensures Progress(s, order, i, now).Keys == s.timers.Keys
    ensures order[i] in s.timers
    ensures Progress(s, order, i, now)[order[i]] == s.timers[order[i]].(armed := false)
    ensures Progress(s, order, i, now)[order[i]].(armed := true) == s.timers[order[i]]
  {
    assert order[i] in order;
    assert Expired(s, now, order[i]);
    ProgressStep(s, order, i, now);
  }

  lemma ProgressEnds(s: State, order: seq<Address>, now: int)
    requires Collects(s, now, order) && !NothingArmed(s)
    ensures Progress(s, order, |order|, now) == Expire(s, now).timers
  {
    assert order[..|order|] == order && order[|order|..] == [];
  }
}
