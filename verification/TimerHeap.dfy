// The timer manager on heap objects: an ordered set of timers whose sort key is
// a mutable field of the timer. Proved against TimerModel.
module TimerHeap {
  import opened Common
  import opened TimerModel
  import opened TimerIndex

  class Timer {
    const addr: Address
    const manager: TimerManager
    const recurring: bool
    var ms: int
    var next: int
    var cb: Option<CbId>

    constructor (addr: Address, ms: int, cb: Option<CbId>, recurring: bool, manager: TimerManager, now: int)
      ensures this.addr == addr && this.ms == ms && this.cb == cb && this.recurring == recurring
      ensures this.manager == manager && this.next == now + ms
    {
      this.addr, this.ms, this.cb, this.recurring := addr, ms, cb, recurring;
      this.manager, this.next := manager, now + ms;
    }

    // True if the callback was still there; then it will never be collected.
    method Cancel() returns (ok: bool)
      requires manager.Valid() && manager.Owns(this)
      modifies manager`timers, manager`index, manager`cells, manager`abs, this
      ensures manager.Valid() && manager.Owns(this)
      ensures manager.abs == TimerModel.Cancel(old(manager.abs), addr).0
      ensures ok == TimerModel.Cancel(old(manager.abs), addr).1
      ensures ok <==> old(cb).Some?
      ensures cb == None && next == old(next) && ms == old(ms)
    {
      ok := false;
      manager.RecIsFields(this, {});
      if cb.Some? {
        ghost var was := manager.abs;
        ClearCallback();
        var it := manager.Lookup(this);
        manager.Erase(this, it);
        manager.StaysOut(this, {addr});
        ok := true;
        UpdateTwice(was.timers, addr,
                    TimerRec(next, ms, recurring, None, true), TimerRec(next, ms, recurring, None, false));
      }
    }

    // m_cb = nullptr on a timer that is in the set.
    method ClearCallback()
      requires manager.Valid() && manager.Owns(this) && cb.Some?
      modifies manager`cells, manager`abs, this`cb
      ensures manager.Valid() && manager.Owns(this) && cb == None
      ensures manager.abs == old(manager.abs).(timers := old(manager.abs).timers[addr :=
        TimerRec(next, ms, recurring, None, true)])
    {
      assert Unfold(0);
      ClearInside(manager.index, manager.cells, manager.abs.timers, addr);
      cb := None;
      manager.Record(this, Cell(next, ms, recurring, None), true);
    }

    // Assigning deadline and period of a timer that is held outside the set.
    method Assign(next: int, ms: int, ghost out: set<Address>)
      requires manager.ValidOut(out) && manager.Owns(this) && addr in out
      modifies manager`cells, manager`abs, this`next, this`ms
      ensures manager.ValidOut(out) && manager.Owns(this) && this.next == next && this.ms == ms
      ensures manager.abs == old(manager.abs).(timers := old(manager.abs).timers[addr :=
        TimerRec(next, ms, recurring, cb, false)])
    {
      assert Unfold(0);
      ghost var c := Cell(next, ms, recurring, cb);
      ChangeOutside(manager.index, manager.cells, manager.abs.timers, out, addr, c);
      this.next, this.ms := next, ms;
      manager.Record(this, c, false);
    }

    // m_cb = nullptr on a timer that is held outside the set.
    method DropCallback(ghost out: set<Address>)
      requires manager.ValidOut(out) && manager.Owns(this) && addr in out
      modifies manager`cells, manager`abs, this`cb
      ensures manager.ValidOut(out) && manager.Owns(this) && cb == None
      ensures manager.abs == old(manager.abs).(timers := old(manager.abs).timers[addr :=
        TimerRec(next, ms, recurring, None, false)])
    {
      assert Unfold(0);
      ghost var c := Cell(next, ms, recurring, None);
      ChangeOutside(manager.index, manager.cells, manager.abs.timers, out, addr, c);
      cb := None;
      manager.Record(this, c, false);
    }

    // The deadline moves to now + period; the set is put right, nobody is notified.
    method Refresh(now: int) returns (ok: bool)
      requires manager.Valid() && manager.Owns(this)
      modifies manager`timers, manager`index, manager`cells, manager`abs, this
      ensures manager.Valid() && manager.Owns(this)
      ensures manager.abs == TimerModel.Refresh(old(manager.abs), addr, now).0
      ensures ok == TimerModel.Refresh(old(manager.abs), addr, now).1
      ensures ok <==> old(cb).Some?
      ensures next == (if ok then now + ms else old(next)) && ms == old(ms) && cb == old(cb)
    {
      manager.RecIsFields(this, {});
      if cb.None? {
        return false;
      }
      var it := manager.Lookup(this);
      if it == |manager.timers| {
        return false;
      }
      ghost var was := manager.abs;
      ghost var r0 := TimerRec(next, ms, recurring, cb, false);
      ghost var r1 := r0.(next := now + ms);
      ghost var goal := TimerModel.Refresh(was, addr, now).0;
      assert goal == was.(timers := was.timers[addr := r1.(armed := true)]);
      manager.Erase(this, it);
      Assign(now + ms, ms, {addr});
      UpdateTwice(was.timers, addr, r0, r1);
      manager.Put(this, {addr});
      UpdateTwice(was.timers, addr, r1, r1.(armed := true));
      ok := true;
      assert manager.abs == goal;
    }

    // `notify`: onTimerInsertedAtFront is called at the end.
    method Reset(ms: int, fromNow: bool, now: int) returns (ok: bool, notify: bool)
      requires manager.Valid() && manager.Owns(this)
      modifies manager`timers, manager`index, manager`cells, manager`abs, manager`tickled, this
      ensures manager.Valid() && manager.Owns(this)
      ensures manager.abs == TimerModel.Reset(old(manager.abs), addr, ms, fromNow, now).0
      ensures ok == TimerModel.Reset(old(manager.abs), addr, ms, fromNow, now).1
      ensures notify == TimerModel.Reset(old(manager.abs), addr, ms, fromNow, now).2
      ensures ok <==> (old(this.ms) == ms && !fromNow) || old(cb).Some?
      // It returns early, or the timer goes in again.
      ensures !ok || (old(this.ms) == ms && !fromNow) ==>
        manager.abs == old(manager.abs) && next == old(next) && this.ms == old(this.ms) && !notify
      ensures ok ==> this.ms == ms && cb == old(cb) && next == if fromNow then now + ms else old(next)
      ensures ok && !(old(this.ms) == ms && !fromNow) ==>
        (notify <==>
          && !old(manager.tickled)
          && forall b :: b in old(manager.abs).timers && old(manager.abs).timers[b].armed && b != addr ==>
              next < old(manager.abs).timers[b].next || (next == old(manager.abs).timers[b].next && addr < b))
      ensures manager.tickled == (old(manager.tickled) || notify)
    {
      manager.RecIsFields(this, {});
      if this.ms == ms && !fromNow {
        return true, false;
      }
      if cb.None? {
        return false, false;
      }
      var it := manager.Lookup(this);
      if it == |manager.timers| {
        return false, false;
      }
      InsertNotifiesIff(manager.abs, addr,
                        TimerRec((if fromNow then now else next - ms) + ms, ms, recurring, cb, false));
      hide Insert;
      manager.FlagsAreFields({});
      notify := PutBack(ms, fromNow, now, it);
      manager.FlagsAreFields({});
      ok := true;
    }

    // The end of reset, from the erase on.
    method PutBack(ms: int, fromNow: bool, now: int, it: nat) returns (notify: bool)
      requires manager.Valid() && manager.Owns(this) && manager.abs.timers[addr].armed
      requires it == Find(manager.index, Key(next, addr)) && it < |manager.timers|
      modifies manager`timers, manager`index, manager`cells, manager`abs, manager`tickled, this`next, this`ms
      ensures manager.Valid() && manager.Owns(this)
      ensures this.ms == ms && next == (if fromNow then now else old(next) - ms) + ms
      ensures manager.abs == Insert(old(manager.abs), addr, TimerRec(next, ms, recurring, cb, false)).0
      ensures notify == Insert(old(manager.abs), addr, TimerRec(next, ms, recurring, cb, false)).1
    {
      ghost var was := manager.abs;
      ghost var r0 := TimerRec(next, this.ms, recurring, cb, false);
      ghost var r1 := TimerRec((if fromNow then now else next - ms) + ms, ms, recurring, cb, false);
      InsertForgets(was, addr, r1);
      hide Insert;
      manager.Erase(this, it);
      var start;
      if fromNow {
        start := now;
      } else {
        start := next - ms;
      }
      Assign(start + ms, ms, {addr});
      UpdateTwice(was.timers, addr, r0, r1);
      notify := manager.InsertTimer(this);
    }
  }

  // `index` names the timers of the set.
  ghost predicate Aligned(timers: seq<Timer>, index: seq<Key>, managed: map<Address, Timer>) {
    && |index| == |timers|
    && forall i :: 0 <= i < |timers| ==> index[i].addr in managed && timers[i] == managed[index[i].addr]
  }

  lemma AlignedRemove(timers: seq<Timer>, index: seq<Key>, managed: map<Address, Timer>, k: nat)
    requires Aligned(timers, index, managed) && k < |timers|
    ensures Aligned(RemoveAt(timers, k), RemoveAt(index, k), managed)
  {
  }

  lemma AlignedSplice(timers: seq<Timer>, index: seq<Key>, managed: map<Address, Timer>, n: nat, t: Timer, k: Key)
    requires Aligned(timers, index, managed) && n <= |timers| && k.addr in managed && managed[k.addr] == t
    ensures Aligned(Splice(timers, n, t), Splice(index, n, k), managed)
  {
  }

  lemma AlignedGrow(timers: seq<Timer>, index: seq<Key>, managed: map<Address, Timer>, a: Address, t: Timer)
    requires Aligned(timers, index, managed) && a !in managed
    ensures Aligned(timers, index, managed[a := t])
  {
  }

  lemma AlignedDrop(timers: seq<Timer>, index: seq<Key>, managed: map<Address, Timer>, n: nat)
    requires Aligned(timers, index, managed) && n <= |timers|
    ensures Aligned(timers[n..], index[n..], managed)
  {
  }

  // `cells` mirrors the fields of the timers of one manager.
  ghost predicate MirrorOf(managed: map<Address, Timer>, cells: map<Address, Cell>,
                           members: set<Timer>, manager: TimerManager)
    reads members
  {
    && cells.Keys == managed.Keys
    && forall a :: a in managed ==>
        && managed[a] in members && managed[a].addr == a && managed[a].manager == manager
        && cells[a].next == managed[a].next && cells[a].period == managed[a].ms
        && cells[a].recurring == managed[a].recurring && cells[a].cb == managed[a].cb
  }

  lemma MirrorGrows(managed: map<Address, Timer>, cells: map<Address, Cell>,
                    members: set<Timer>, manager: TimerManager, t: Timer, c: Cell)
    requires MirrorOf(managed, cells, members, manager) && t.addr !in managed && t.manager == manager
    requires c == Cell(t.next, t.ms, t.recurring, t.cb)
    ensures MirrorOf(managed[t.addr := t], cells[t.addr := c], members + {t}, manager)
  {
  }

  function KeyList(ts: seq<Timer>): (keys: seq<Key>)
    reads ts
    ensures |keys| == |ts|
    ensures forall i :: 0 <= i < |ts| ==> keys[i] == Key(ts[i].next, ts[i].addr)
  {
    if ts == [] then [] else [Key(ts[0].next, ts[0].addr)] + KeyList(ts[1..])
  }

  class TimerManager {
    var timers: seq<Timer>      // the set, in iteration order
    var tickled: bool
    var previousTime: int
    ghost var managed: map<Address, Timer> // every timer of this manager, by address
    ghost var members: set<Timer>          // the same timers, as a footprint
    ghost var index: seq<Key>              // the keys of the set
    ghost var cells: map<Address, Cell>    // the fields of every managed timer
    ghost var abs: State                   // what all this means

    ghost predicate Owns(t: Timer)
      reads this
    {
      t.addr in managed && managed[t.addr] == t && t.manager == this && t.addr in abs.timers
    }

    // `cells` mirrors the fields of the timers.
    ghost predicate Mirrored()
      reads this`managed, this`cells, this`members, members
    {
      MirrorOf(managed, cells, members, this)
    }

    // The set is strictly sorted by (deadline, address), holds only timers of
    // this manager, and holds every timer whose callback is live except those in
    // `out`, which an operation has taken out.
    ghost predicate Consistent(out: set<Address>)
      reads this, members
    {
      && Mirrored() && Aligned(timers, index, managed)
      && Represents(index, cells, abs.timers, out)
      && abs.tickled == tickled && abs.previous == previousTime
    }

    ghost predicate ValidOut(out: set<Address>)
      reads this, members
    {
      forall n {:trigger Unfold(n)} :: Unfold(n) ==> Consistent(out)
    }

    ghost predicate Valid()
      reads this, members
    {
      ValidOut({})
    }

    // The mirror holds for every timer but t.
    ghost predicate MirroredBut(t: Timer)
      reads this`managed, this`cells, this`members, members
    {
      && cells.Keys == managed.Keys
      && forall a :: a in managed ==>
          && managed[a] in members && managed[a].addr == a && managed[a].manager == this
          && (a != t.addr ==>
                && cells[a].next == managed[a].next && cells[a].period == managed[a].ms
                && cells[a].recurring == managed[a].recurring && cells[a].cb == managed[a].cb)
    }

    ghost method Record(t: Timer, c: Cell, armed: bool)
      requires MirroredBut(t) && Owns(t) && c == Cell(t.next, t.ms, t.recurring, t.cb)
      modifies this`cells, this`abs
      ensures Mirrored() && Owns(t) && cells == old(cells)[t.addr := c]
      ensures abs == old(abs).(timers := old(abs).timers[t.addr := RecOf(c, armed)])
    {
      cells := cells[t.addr := c];
      abs := abs.(timers := abs.timers[t.addr := RecOf(c, armed)]);
    }

    constructor (now: int)
      ensures Valid()
      ensures abs == State(map[], false, now) && managed == map[] && members == {}
    {
      timers, tickled, previousTime := [], false, now;
      managed, members, index, cells := map[], {}, [], map[];
      abs := State(map[], false, now);
    }

    // What is abstractly known of a timer is what its fields say.
    lemma RecIsFields(t: Timer, out: set<Address>)
      requires ValidOut(out) && Owns(t)
      ensures abs.timers[t.addr] == TimerRec(t.next, t.ms, t.recurring, t.cb, abs.timers[t.addr].armed)
      ensures t.cb.Some? && t.addr !in out ==> abs.timers[t.addr].armed
    {
      assert Unfold(0);
      RecordOf(index, cells, abs.timers, out, t.addr);
    }

    // A timer whose callback is empty may stay outside.
    lemma StaysOut(t: Timer, out: set<Address>)
      requires ValidOut(out) && Owns(t) && t.cb.None?
      ensures ValidOut(out - {t.addr})
      ensures out == {t.addr} ==> Valid()
    {
      assert Unfold(0);
      MayStayOutside(index, cells, abs.timers, out, t.addr);
      assert out == {t.addr} ==> out - {t.addr} == {};
    }

    lemma FlagsAreFields(out: set<Address>)
      requires ValidOut(out)
      ensures abs.tickled == tickled && abs.previous == previousTime
    {
      assert Unfold(0);
    }

    lemma KeysAreCurrent(out: set<Address>)
      requires ValidOut(out)
      ensures KeyList(timers) == index
    {
      assert Unfold(0);
      forall i: nat | i < |timers| ensures KeyList(timers)[i] == index[i] {
        KeysCurrent(index, cells, abs.timers, out, i);
      }
    }

    // m_timers.find(t), |timers| for end(): the heap is searched by current keys.
    method Lookup(t: Timer) returns (it: nat)
      requires Valid() && Owns(t)
      ensures it == Find(index, Key(t.next, t.addr)) && |timers| == |index|
      ensures it < |timers| <==> abs.timers[t.addr].armed
    {
      KeysAreCurrent({});
      assert Unfold(0);
      LookupFinds(index, cells, abs.timers, t.addr);
      it := Find(KeyList(timers), Key(t.next, t.addr));
    }

    // m_timers.erase(it), where `it` came from find and is not end().
    method Erase(t: Timer, it: nat)
      requires Valid() && Owns(t) && abs.timers[t.addr].armed
      requires it == Find(index, Key(t.next, t.addr)) && it < |timers|
      modifies this`timers, this`index, this`abs
      ensures ValidOut({t.addr}) && Owns(t)
      ensures abs == old(abs).(timers := old(abs).timers[t.addr :=
        TimerRec(t.next, t.ms, t.recurring, t.cb, false)])
    {
      assert Unfold(0);
      TakeOutIndex(index, cells, abs.timers, t.addr);
      AlignedRemove(timers, index, managed, it);
      timers := RemoveAt(timers, it);
      index := RemoveAt(index, it);
      abs := abs.(timers := abs.timers[t.addr := TimerRec(t.next, t.ms, t.recurring, t.cb, false)]);
      assert Mirrored();
    }

    // Where m_timers.insert(t) puts t.
    method InsertPosition(t: Timer, ghost out: set<Address>) returns (n: nat)
      requires ValidOut(out) && Owns(t)
      ensures n == LowerBound(index, Key(t.next, t.addr)) && n <= |timers| == |index|
    {
      KeysAreCurrent(out);
      n := LowerBound(KeyList(timers), Key(t.next, t.addr));
    }

    // m_timers.insert(t).
    method Put(t: Timer, ghost out: set<Address>)
      requires ValidOut(out) && Owns(t) && t.addr in out
      modifies this`timers, this`index, this`abs
      ensures ValidOut(out - {t.addr}) && Owns(t) && (out == {t.addr} ==> Valid())
      ensures abs == old(abs).(timers := old(abs).timers[t.addr :=
        TimerRec(t.next, t.ms, t.recurring, t.cb, true)])
    {
      var n := InsertPosition(t, out);
      assert Unfold(0);
      PutInIndex(index, cells, abs.timers, out, t.addr);
      AlignedSplice(timers, index, managed, n, t, Key(t.next, t.addr));
      timers := Splice(timers, n, t);
      index := Splice(index, n, Key(t.next, t.addr));
      abs := abs.(timers := abs.timers[t.addr := TimerRec(t.next, t.ms, t.recurring, t.cb, true)]);
      assert Mirrored();
      assert ValidOut(out - {t.addr});
      assert out == {t.addr} ==> out - {t.addr} == {};
    }

    // it == m_timers.begin()
    method IsFirst(t: Timer) returns (front: bool)
      requires Valid() && Owns(t) && abs.timers[t.addr].armed
      ensures front <==> AtFront(abs, t.addr)
    {
      assert Unfold(0);
      FrontKey(index, cells, abs, {}, t.addr);
      front := timers[0] == t;
    }

    method SetTickled(b: bool)
      requires Valid()
      modifies this`tickled, this`abs
      ensures Valid() && tickled == b && abs == old(abs).(tickled := b)
    {
      assert Unfold(0);
      tickled := b;
      abs := abs.(tickled := b);
    }

    // The protected addTimer.
    method InsertTimer(t: Timer) returns (notify: bool)
      requires ValidOut({t.addr}) && Owns(t)
      modifies this`timers, this`index, this`tickled, this`abs
      ensures Valid() && Owns(t)
      ensures abs == Insert(old(abs), t.addr, TimerRec(t.next, t.ms, t.recurring, t.cb, false)).0
      ensures notify == Insert(old(abs), t.addr, TimerRec(t.next, t.ms, t.recurring, t.cb, false)).1
      ensures notify <==>
        && !old(tickled)
        && forall b :: b in old(abs).timers && old(abs).timers[b].armed && b != t.addr ==>
            t.next < old(abs).timers[b].next || (t.next == old(abs).timers[b].next && t.addr < b)
      ensures tickled == (old(tickled) || notify)
    {
      FlagsAreFields({t.addr});
      InsertNotifiesIff(abs, t.addr, TimerRec(t.next, t.ms, t.recurring, t.cb, false));
      Put(t, {t.addr});
      var front := IsFirst(t);
      notify := front && !tickled;
      if notify {
        SetTickled(true);
      }
    }

    // The public addTimer. The allocator returns an address no timer has.
    method AddTimer(ms: int, cb: Option<CbId>, recurring: bool, now: int, addr: Address)
      returns (timer: Timer, notify: bool)
      requires Valid() && addr !in managed
      modifies this
      ensures Valid() && fresh(timer) && Owns(timer) && timer.addr == addr
      ensures managed == old(managed)[addr := timer] && members == old(members) + {timer}
      ensures abs == Add(old(abs), addr, now, ms, recurring, cb).0
      ensures notify == Add(old(abs), addr, now, ms, recurring, cb).1
      ensures timer.next == now + ms && timer.ms == ms && timer.recurring == recurring && timer.cb == cb
      ensures notify <==>
        && !old(tickled)
        && forall b :: b in old(abs).timers && old(abs).timers[b].armed && b != addr ==>
            timer.next < old(abs).timers[b].next || (timer.next == old(abs).timers[b].next && addr < b)
      ensures tickled == (old(tickled) || notify)
    {
      timer := new Timer(addr, ms, cb, recurring, this, now);
      ghost var was := abs;
      ghost var r := TimerRec(now + ms, ms, recurring, cb, false);
      FlagsAreFields({});
      InsertNotifiesIff(was, addr, r);
      InsertForgets(was, addr, r);
      hide Insert;
      Adopt(timer);
      notify := InsertTimer(timer);
      FlagsAreFields({});
    }

    ghost method Adopt(timer: Timer)
      requires Valid() && timer.manager == this && timer.addr !in managed
      modifies this`managed, this`members, this`cells, this`abs
      ensures ValidOut({timer.addr}) && Owns(timer)
      ensures managed == old(managed)[timer.addr := timer] && members == old(members) + {timer}
      ensures abs == old(abs).(timers := old(abs).timers[timer.addr :=
        TimerRec(timer.next, timer.ms, timer.recurring, timer.cb, false)])
    {
      hide Represents, Aligned;
      assert Unfold(0);
      AlignedGrow(timers, index, managed, timer.addr, timer);
      var c := Cell(timer.next, timer.ms, timer.recurring, timer.cb);
      NewOutside(index, cells, abs.timers, timer.addr, c);
      MirrorGrows(managed, cells, members, this, timer, c);
      hide MirrorOf;
      managed, members, cells := managed[timer.addr := timer], members + {timer}, cells[timer.addr := c];
      abs := abs.(timers := abs.timers[timer.addr := RecOf(c, false)]);
    }

    method GetNextTimer(now: int) returns (r: int)
      requires Valid()
      modifies this`tickled, this`abs
      ensures Valid() && abs == old(abs).(tickled := false)
      ensures IsNextTimer(old(abs), now, r)
      ensures r == -1 <==> forall a :: a in old(abs).timers ==> !old(abs).timers[a].armed
      ensures !tickled
    {
      ghost var was := abs;
      SetTickled(false);
      assert Unfold(0);
      FirstIsLeast(index, cells, was);
      assert NothingArmed(was) <==> forall a :: a in was.timers ==> !was.timers[a].armed by {
        assert forall a :: a in was.timers ==> (Armed(was, a) <==> was.timers[a].armed);
      }
      if timers == [] {
        return NO_TIMER;
      }
      KeysCurrent(index, cells, abs.timers, {}, 0);
      var first := timers[0];
      if now >= first.next {
        r := 0;
      } else {
        r := first.next - now;
      }
    }

    method DetectClockRollover(now: int) returns (rollover: bool)
      requires Valid()
      modifies this`previousTime, this`abs
      ensures Valid() && abs == old(abs).(previous := now)
      ensures rollover <==> Rollover(old(abs), now)
      ensures rollover <==> now < old(previousTime) - 3600000
      ensures previousTime == now
    {
      assert Unfold(0);
      rollover := now < previousTime && now < previousTime - ROLLOVER_MS;
      previousTime := now;
      abs := abs.(previous := now);
    }

    // lower_bound of (now, probe) and the loop behind it. The address of the
    // probe decides where the search starts, not where it ends.
    method FirstUnexpired(now: int, probe: Address, rollover: bool) returns (it: nat)
      requires Valid()
      ensures |timers| == |index| && SplitsAt(index, it, now, rollover)
    {
      KeysAreCurrent({});
      IndexIsSorted();
      hide ValidOut, LowerBound;
      if rollover {
        return |timers|;
      }
      it := LowerBound(KeyList(timers), Key(now, probe));
      ghost var start := it;
      while it < |timers| && timers[it].next == now
        invariant start <= it <= |timers|
        invariant forall i :: start <= i < it ==> index[i].next == now
      {
        assert KeyList(timers)[it] == index[it];
        it := it + 1;
      }
      assert it < |timers| ==> KeyList(timers)[it] == index[it];
      SplitFound(index, it, now, probe);
    }

    lemma IndexIsSorted()
      requires Valid()
      ensures Sorted(index) && |timers| == |index|
    {
      assert Unfold(0);
      assert UnfoldIndex(0);
    }

    // expired = [begin, it), erased from the set. `was` is the state before the
    // clock was looked at.
    method TakeExpired(it: nat, now: int, ghost was: State) returns (expired: seq<Timer>, ghost order: seq<Address>)
      requires Valid() && |timers| == |index| && was.timers == abs.timers
      requires SplitsAt(index, it, now, Rollover(was, now))
      modifies this`timers, this`index, this`abs
      ensures Collects(was, now, order) && |expired| == |order|
      ensures ValidOut(AsSet(order))
      ensures abs == old(abs).(timers := Progress(was, order, 0, now))
      ensures forall i :: 0 <= i < |order| ==> Owns(expired[i]) && expired[i].addr == order[i] && expired[i] in members
    {
      ExpiredPrefix(it, now, was);
      hide MirrorOf, Aligned, Represents, Progress, Collects;
      order := Addresses(index[..it]);
      expired := timers[..it];
      timers := timers[it..];
      index := index[it..];
      abs := abs.(timers := Progress(was, order, 0, now));
      assert Consistent(AsSet(order));
      hide Consistent, Sorted, SplitsAt, AsSet;
    }

    // The prefix is the expired timers, and without it the rest is in order.
    lemma ExpiredPrefix(it: nat, now: int, was: State)
      requires Valid() && |timers| == |index| && was.timers == abs.timers
      requires SplitsAt(index, it, now, Rollover(was, now))
      ensures var order := Addresses(index[..it]);
        && Collects(was, now, order) && it <= |timers|
        && Represents(index[it..], cells, Progress(was, order, 0, now), AsSet(order))
      ensures Aligned(timers[it..], index[it..], managed) && MirrorOf(managed, cells, members, this)
      ensures abs.tickled == tickled && abs.previous == previousTime
      ensures forall i :: 0 <= i < it ==>
        timers[i].addr in managed && managed[timers[i].addr] == timers[i] && timers[i].addr in was.timers
      ensures forall i :: 0 <= i < it ==>
        timers[i] in members && timers[i].manager == this && timers[i].addr == index[i].addr
      ensures forall a :: a in was.timers ==> a in Progress(was, Addresses(index[..it]), 0, now)
    {
      assert Unfold(0);
      PrefixCollects(index, cells, was, it, now);
      TakeOutPrefix(index, cells, was, it, now);
      AlignedDrop(timers, index, managed, it);
      forall i: nat | i < it ensures timers[i].addr in was.timers {
        RecordOf(index, cells, was.timers, {}, timers[i].addr);
      }
      hide Represents;
    }

    // One expired timer: recurring ones go back with deadline now + period,
    // others lose their callback.
    method Rearm(timer: Timer, now: int, ghost out: set<Address>)
      requires ValidOut(out) && Owns(timer) && timer.addr in out && !abs.timers[timer.addr].armed
      modifies this`timers, this`index, this`cells, this`abs, timer`next, timer`ms, timer`cb
      ensures ValidOut(out - {timer.addr})
      ensures abs == old(abs).(timers := old(abs).timers[timer.addr :=
        AfterExpiry(old(abs).timers[timer.addr].(armed := true), now)])
      ensures timer.ms == old(timer.ms)
      ensures timer.recurring ==> timer.next == now + timer.ms && timer.cb == old(timer.cb)
      ensures !timer.recurring ==> timer.next == old(timer.next) && timer.cb == None
    {
      ghost var was := abs;
      RecIsFields(timer, out);
      if timer.recurring {
        ghost var r1 := TimerRec(now + timer.ms, timer.ms, timer.recurring, timer.cb, false);
        timer.Assign(now + timer.ms, timer.ms, out);
        Put(timer, out);
        UpdateTwice(was.timers, timer.addr, r1, r1.(armed := true));
      } else {
        timer.DropCallback(out);
        StaysOut(timer, out);
      }
    }

    // The callbacks of all expired timers, appended in the order of the set.
    method ListExpiredCb(now: int, probe: Address, cbs0: seq<Option<CbId>>)
      returns (cbs: seq<Option<CbId>>, ghost order: seq<Address>)
      requires Valid()
      modifies this`timers, this`previousTime, this`index, this`cells, this`abs, members
      ensures Valid() && abs == Expire(old(abs), now)
      ensures Collects(old(abs), now, order) && cbs == cbs0 + Callbacks(old(abs), order)
      // Collected are the timers of the set that are due, all of them after a rollover.
      ensures forall a :: a in order <==>
        a in old(abs).timers && old(abs).timers[a].armed &&
        (old(abs).timers[a].next <= now || now < old(abs).previous - 3600000)
    {
      ghost var was := abs;
      var least := First();
      cbs, order := cbs0, [];
      if least == None {
        return;
      }
      var rollover := DetectClockRollover(now);
      if !rollover && least.value > now {
        assert abs.timers == Expire(was, now).timers;
        return;
      }
      var it := FirstUnexpired(now, probe, rollover);
      var expired;
      expired, order := TakeExpired(it, now, was);
      cbs := Work(expired, order, now, cbs0, was);
      ProgressEnds(was, order, now);
    }

    // Deadline of *m_timers.begin().
    method First() returns (least: Option<int>)
      requires Valid()
      ensures least == None <==> NothingArmed(abs)
      ensures least.Some? ==> forall a :: Armed(abs, a) ==> least.value <= abs.timers[a].next
    {
      KeysAreCurrent({});
      assert Unfold(0);
      FirstIsLeast(index, cells, abs);
      least := if timers == [] then None else Some(KeyList(timers)[0].next);
    }

    // The loop over the expired timers.
    method Work(expired: seq<Timer>, ghost order: seq<Address>, now: int, cbs0: seq<Option<CbId>>, ghost was: State)
      returns (cbs: seq<Option<CbId>>)
      requires Collects(was, now, order) && |expired| == |order|
      requires ValidOut(AsSet(order)) && abs.timers == Progress(was, order, 0, now)
      requires forall i :: 0 <= i < |order| ==> Owns(expired[i]) && expired[i].addr == order[i] && expired[i] in members
      modifies this`timers, this`index, this`cells, this`abs, members
      ensures Valid() && abs == old(abs).(timers := Progress(was, order, |order|, now))
      ensures cbs == cbs0 + Callbacks(was, order)
    {
      hide Progress;
      cbs := cbs0;
      assert order[0..] == order;
      for i := 0 to |expired|
        invariant ValidOut(AsSet(order[i..])) && members == old(members) && managed == old(managed)
        invariant abs == old(abs).(timers := Progress(was, order, i, now))
        invariant cbs == cbs0 + Callbacks(was, order)[..i]
      {
        ProgressStep(was, order, i, now);
        ProgressNext(was, order, i, now);
        RecIsFields(expired[i], AsSet(order[i..]));
        assert Callbacks(was, order)[..i + 1] == Callbacks(was, order)[..i] + [was.timers[order[i]].cb];
        cbs := cbs + [expired[i].cb];
        Rearm(expired[i], now, AsSet(order[i..]));
      }
      assert AsSet(order[|order|..]) == {};
    }
  }
}
