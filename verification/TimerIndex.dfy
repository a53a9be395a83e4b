// The ordered index of timers: the keys of the set in iteration order, beside
// the fields of every timer.
//
// The lookups use only keys, as std::set does. On an index whose keys were
// changed in place they could miss; the lemmas show they never do.
module TimerIndex {
  import opened Common
  import opened TimerModel

  datatype Cell = Cell(next: int, period: int, recurring: bool, cb: Option<CbId>)

  function LowerBound(keys: seq<Key>, k: Key): (n: nat)
    ensures n <= |keys|
    ensures forall i :: 0 <= i < n ==> Before(keys[i], k)
    ensures n < |keys| ==> !Before(keys[n], k)
  {
    if keys == [] || !Before(keys[0], k) then 0 else 1 + LowerBound(keys[1..], k)
  }

  // set::find; |keys| stands for end().
  function Find(keys: seq<Key>, k: Key): (n: nat)
    ensures n <= |keys|
  {
    var n := LowerBound(keys, k);
    if n < |keys| && !Before(k, keys[n]) then n else |keys|
  }

  function Splice<T>(ts: seq<T>, n: nat, t: T): (r: seq<T>)
    requires n <= |ts|
    ensures |r| == |ts| + 1
    ensures forall i :: 0 <= i < n ==> r[i] == ts[i]
    ensures r[n] == t
    ensures forall i :: n < i < |r| ==> r[i] == ts[i - 1]
  {
    ts[..n] + [t] + ts[n..]
  }

  lemma SpliceMembers<T>(ts: seq<T>, n: nat, t: T, u: T)
    requires n <= |ts|
    ensures u in Splice(ts, n, t) <==> u in ts || u == t
  {
    var r := Splice(ts, n, t);
    if u in ts {
      var i :| 0 <= i < |ts| && ts[i] == u;
      assert r[if i < n then i else i + 1] == u;
    }
    assert r[n] == t;
  }

  ghost predicate Sorted(keys: seq<Key>) {
    forall i, j :: 0 <= i < j < |keys| ==> Before(keys[i], keys[j])
  }

  // In a sorted set the lookup finds every member.
  lemma FindSorted(keys: seq<Key>, k: Key)
    requires Sorted(keys) && k in keys
    ensures Find(keys, k) < |keys| && keys[Find(keys, k)] == k
  {
    var i :| 0 <= i < |keys| && keys[i] == k;
    assert LowerBound(keys, k) >= i;
  }

  lemma RemoveSorted(keys: seq<Key>, k: nat)
    requires Sorted(keys) && k < |keys|
    ensures Without(RemoveAt(keys, k), keys, keys[k])
  {
    var r := RemoveAt(keys, k);
    forall x ensures x in r <==> x in keys && x != keys[k] {
      RemoveAtMembers(keys, k, x);
      if x in r {
        var i :| 0 <= i < |r| && r[i] == x;
        assert x == keys[if i < k then i else i + 1];
      }
    }
  }

  // Beyond the lower bound a sorted list holds no smaller key.
  lemma LowerBoundSplits(keys: seq<Key>, k: Key, i: nat)
    requires Sorted(keys) && i < |keys|
    ensures i < LowerBound(keys, k) <==> Before(keys[i], k)
  {
    var n := LowerBound(keys, k);
    assert n < i ==> Before(keys[n], keys[i]);
  }

  // set::insert of a key that is not there: no equivalent element is found, and
  // placing the key at its lower bound keeps the order.
  lemma InsertSorted(keys: seq<Key>, k: Key)
    requires Sorted(keys) && k !in keys
    ensures Find(keys, k) == |keys| && With(Splice(keys, LowerBound(keys, k), k), keys, k)
  {
    var n := LowerBound(keys, k);
    forall i: nat | i < |keys| ensures if i < n then Before(keys[i], k) else Before(k, keys[i]) {
      LowerBoundSplits(keys, k, i);
    }
    var r := Splice(keys, n, k);
    forall i, j | 0 <= i < j < |r| ensures Before(r[i], r[j]) {
      assert r[i] == if i < n then keys[i] else if i == n then k else keys[i - 1];
      assert r[j] == if j < n then keys[j] else if j == n then k else keys[j - 1];
    }
    forall x ensures x in r <==> x in keys || x == k {
      SpliceMembers(keys, n, k, x);
    }
  }

  // keys1 is the set without k, with k.
  ghost predicate Without(keys1: seq<Key>, keys: seq<Key>, k: Key) {
    Sorted(keys1) && forall x :: x in keys1 <==> x in keys && x != k
  }

  ghost predicate With(keys1: seq<Key>, keys: seq<Key>, k: Key) {
    Sorted(keys1) && forall x :: x in keys1 <==> x in keys || x == k
  }

  function CellKey(cells: map<Address, Cell>, a: Address): Key
    requires a in cells
  {
    Key(cells[a].next, a)
  }

  ghost predicate KeyIn(keys: seq<Key>, cells: map<Address, Cell>, a: Address) {
    a in cells && CellKey(cells, a) in keys
  }

  // The keys are current.
  ghost predicate Current(keys: seq<Key>, cells: map<Address, Cell>) {
    forall x :: x in keys ==> x.addr in cells && x.next == cells[x.addr].next
  }

  // Strictly sorted and current, and every live callback is in, except for the
  // timers in `out`, which are held outside the set.
  ghost predicate IndexOk(keys: seq<Key>, cells: map<Address, Cell>, out: set<Address>) {
    && Sorted(keys) && Current(keys, cells)
    && (forall a :: a in out ==> a in cells)
    && (forall x :: x in keys ==> x.addr !in out)
    && forall a {:trigger KeyIn(keys, cells, a)} ::
        a in cells && a !in out && cells[a].cb.Some? ==> KeyIn(keys, cells, a)
  }

  ghost function View(keys: seq<Key>, cells: map<Address, Cell>): map<Address, TimerRec> {
    map a | a in cells :: RecOf(cells[a], KeyIn(keys, cells, a))
  }

  function RecOf(c: Cell, armed: bool): TimerRec {
    TimerRec(c.next, c.period, c.recurring, c.cb, armed)
  }

  // What the index says about the abstract timers, kept folded.
  ghost predicate Represents(keys: seq<Key>, cells: map<Address, Cell>,
                             timers: map<Address, TimerRec>, out: set<Address>) {
    forall n {:trigger UnfoldIndex(n)} :: UnfoldIndex(n) ==> IndexOk(keys, cells, out) && timers == View(keys, cells)
  }

  lemma RecordOf(keys: seq<Key>, cells: map<Address, Cell>,
                 timers: map<Address, TimerRec>, out: set<Address>, a: Address)
    requires Represents(keys, cells, timers, out) && a in cells
    ensures a in timers && timers[a] == RecOf(cells[a], timers[a].armed)
    ensures cells[a].cb.Some? && a !in out ==> timers[a].armed
  {
    assert UnfoldIndex(0);
    assert KeyIn(keys, cells, a) || !KeyIn(keys, cells, a);
  }

  lemma KeysCurrent(keys: seq<Key>, cells: map<Address, Cell>,
                    timers: map<Address, TimerRec>, out: set<Address>, i: nat)
    requires i < |keys| && Represents(keys, cells, timers, out)
    ensures keys[i].addr in cells && keys[i].next == cells[keys[i].addr].next
  {
    assert UnfoldIndex(0);
    assert keys[i] in keys;
  }

  // The lookup succeeds exactly on members.
  lemma LookupFinds(keys: seq<Key>, cells: map<Address, Cell>, timers: map<Address, TimerRec>, a: Address)
    requires Represents(keys, cells, timers, {}) && a in cells
    ensures a in timers && (Find(keys, CellKey(cells, a)) < |keys| <==> timers[a].armed)
  {
    assert UnfoldIndex(0);
    assert KeyIn(keys, cells, a) <==> CellKey(cells, a) in keys;
    if CellKey(cells, a) in keys {
      FindSorted(keys, CellKey(cells, a));
    }
  }

  // Erasing what the lookup of a member returned takes out just that member.
  lemma TakeOutIndex(keys: seq<Key>, cells: map<Address, Cell>, timers: map<Address, TimerRec>, a: Address)
    requires Represents(keys, cells, timers, {}) && a in cells && a in timers && timers[a].armed
    ensures var k := Find(keys, CellKey(cells, a));
      && k < |keys| && keys[k].addr == a
      && Represents(RemoveAt(keys, k), cells, timers[a := RecOf(cells[a], false)], {a})
  {
    assert UnfoldIndex(0);
    assert KeyIn(keys, cells, a);
    FindSorted(keys, CellKey(cells, a));
    var k := Find(keys, CellKey(cells, a));
    RemoveSorted(keys, k);
    var keys1 := RemoveAt(keys, k);
    forall b | b in cells && b != a ensures KeyIn(keys1, cells, b) <==> KeyIn(keys, cells, b) {}
    assert View(keys1, cells) == View(keys, cells)[a := RecOf(cells[a], false)];
  }

  // Once its callback is empty, a may stay outside.
  lemma MayStayOutside(keys: seq<Key>, cells: map<Address, Cell>,
                       timers: map<Address, TimerRec>, out: set<Address>, a: Address)
    requires Represents(keys, cells, timers, out) && a in cells && cells[a].cb.None?
    ensures Represents(keys, cells, timers, out - {a})
  {
    assert UnfoldIndex(0);
  }

  // While a is outside the set, its fields may change.
  lemma ChangeOutside(keys: seq<Key>, cells: map<Address, Cell>, timers: map<Address, TimerRec>, out: set<Address>,
                      a: Address, c: Cell)
    requires Represents(keys, cells, timers, out) && a in out
    ensures Represents(keys, cells[a := c], timers[a := RecOf(c, false)], out)
  {
    assert UnfoldIndex(0);
    forall b | b in cells && b != a ensures KeyIn(keys, cells[a := c], b) <==> KeyIn(keys, cells, b) {}
    assert View(keys, cells[a := c]) == View(keys, cells)[a := RecOf(c, false)];
  }

  lemma ClearInside(keys: seq<Key>, cells: map<Address, Cell>, timers: map<Address, TimerRec>, a: Address)
    requires Represents(keys, cells, timers, {}) && a in cells && cells[a].cb.Some?
    ensures var c := cells[a].(cb := None);
      Represents(keys, cells[a := c], timers[a := RecOf(c, true)], {})
  {
    assert UnfoldIndex(0);
    var c := cells[a].(cb := None);
    assert KeyIn(keys, cells, a);
    forall b | b in cells ensures KeyIn(keys, cells[a := c], b) <==> KeyIn(keys, cells, b) {}
    assert View(keys, cells[a := c]) == View(keys, cells)[a := RecOf(c, true)];
  }

  // A new timer starts outside the set.
  lemma NewOutside(keys: seq<Key>, cells: map<Address, Cell>, timers: map<Address, TimerRec>, a: Address, c: Cell)
    requires Represents(keys, cells, timers, {}) && a !in cells
    ensures Represents(keys, cells[a := c], timers[a := RecOf(c, false)], {a})
  {
    assert UnfoldIndex(0);
    forall b | b in cells ensures KeyIn(keys, cells[a := c], b) <==> KeyIn(keys, cells, b) {}
    assert View(keys, cells[a := c]) == View(keys, cells)[a := RecOf(c, false)];
  }

  lemma PutInKeys(keys: seq<Key>, keys1: seq<Key>, cells: map<Address, Cell>, out: set<Address>, a: Address)
    requires IndexOk(keys, cells, out) && a in cells && With(keys1, keys, CellKey(cells, a))
    ensures IndexOk(keys1, cells, out - {a})
    ensures View(keys1, cells) == View(keys, cells)[a := RecOf(cells[a], true)]
  {
    forall b | b in cells && b != a ensures KeyIn(keys1, cells, b) <==> KeyIn(keys, cells, b) {}
    assert KeyIn(keys1, cells, a);
    assert Current(keys1, cells);
  }

  // Putting a in: no equivalent key is found, and the index is kept.
  lemma PutInIndex(keys: seq<Key>, cells: map<Address, Cell>,
                   timers: map<Address, TimerRec>, out: set<Address>, a: Address)
    requires Represents(keys, cells, timers, out) && a in out && a in cells
    ensures var k := CellKey(cells, a);
      && Find(keys, k) == |keys|
      && Represents(Splice(keys, LowerBound(keys, k), k), cells, timers[a := RecOf(cells[a], true)], out - {a})
  {
    var k := CellKey(cells, a);
    var keys1 := Splice(keys, LowerBound(keys, k), k);
    assert IndexOk(keys, cells, out) && timers == View(keys, cells) by {
      assert UnfoldIndex(0);
    }
    InsertSorted(keys, k);
    PutInKeys(keys, keys1, cells, out, a);
  }

  // The first element of the set is the timer that precedes all others.
  lemma FrontKey(keys: seq<Key>, cells: map<Address, Cell>, s: State, out: set<Address>, a: Address)
    requires Represents(keys, cells, s.timers, out) && Armed(s, a)
    ensures keys != [] && (keys[0].addr == a <==> AtFront(s, a))
  {
    assert UnfoldIndex(0);
    var k :| 0 <= k < |keys| && keys[k] == CellKey(cells, a);
    var f := keys[0];
    assert f in keys && KeyIn(keys, cells, f.addr) && Armed(s, f.addr) && KeyOf(s, f.addr) == f;
    if f.addr == a {
      forall b | Armed(s, b) && b != a ensures Before(KeyOf(s, a), KeyOf(s, b)) {
        var i :| 0 <= i < |keys| && keys[i] == CellKey(cells, b);
        assert i != 0;
      }
    } else {
      assert Before(keys[0], keys[k]);
    }
  }

  // The set is empty iff nothing is armed; its first element has the least deadline.
  lemma FirstIsLeast(keys: seq<Key>, cells: map<Address, Cell>, s: State)
    requires Represents(keys, cells, s.timers, {})
    ensures keys == [] <==> NothingArmed(s)
    ensures keys != [] ==> Armed(s, keys[0].addr) && s.timers[keys[0].addr].next == keys[0].next
    ensures keys != [] ==> forall a :: Armed(s, a) ==> keys[0].next <= s.timers[a].next
  {
    assert UnfoldIndex(0);
    if keys != [] {
      assert keys[0] in keys && KeyIn(keys, cells, keys[0].addr);
      assert Armed(s, keys[0].addr);
    }
    forall a | Armed(s, a) ensures keys != [] && keys[0].next <= s.timers[a].next {
      var i :| 0 <= i < |keys| && keys[i] == CellKey(cells, a);
      assert i > 0 ==> Before(keys[0], keys[i]);
    }
  }

  function Addresses(keys: seq<Key>): (order: seq<Address>)
    ensures |order| == |keys|
    ensures forall i :: 0 <= i < |keys| ==> order[i] == keys[i].addr
  {
    if keys == [] then [] else [keys[0].addr] + Addresses(keys[1..])
  }

  lemma AddressesMembers(keys: seq<Key>, a: Address)
    ensures a in Addresses(keys) <==> exists x :: x in keys && x.addr == a
  {
    var order := Addresses(keys);
    if a in order {
      var i :| 0 <= i < |keys| && order[i] == a;
      assert keys[i] in keys;
    }
    if x :| x in keys && x.addr == a {
      var i :| 0 <= i < |keys| && keys[i] == x;
      assert order[i] == a;
    }
  }

  // n splits the set at `now`, or takes everything on rollover.
  ghost predicate SplitsAt(keys: seq<Key>, n: nat, now: int, rollover: bool) {
    && n <= |keys|
    && if rollover then n == |keys|
       else (forall i :: 0 <= i < n ==> keys[i].next <= now) && (forall i :: n <= i < |keys| ==> keys[i].next > now)
  }

  // Where the loop behind the lower bound of (now, probe) ends.
  lemma SplitFound(keys: seq<Key>, it: nat, now: int, probe: Address)
    requires Sorted(keys) && LowerBound(keys, Key(now, probe)) <= it <= |keys|
    requires forall i :: LowerBound(keys, Key(now, probe)) <= i < it ==> keys[i].next == now
    requires it < |keys| ==> keys[it].next != now
    ensures SplitsAt(keys, it, now, false)
  {
    forall i: nat | i < |keys| ensures i < it <==> keys[i].next <= now {
      LowerBoundSplits(keys, Key(now, probe), i);
      if i >= it {
        LowerBoundSplits(keys, Key(now, probe), it);
        assert i == it || Before(keys[it], keys[i]);
      }
    }
  }

  // The prefix up to the split is exactly the expired timers, in order.
  lemma PrefixCollects(keys: seq<Key>, cells: map<Address, Cell>, s: State, n: nat, now: int)
    requires Represents(keys, cells, s.timers, {}) && SplitsAt(keys, n, now, Rollover(s, now))
    ensures Collects(s, now, Addresses(keys[..n]))
  {
    assert UnfoldIndex(0);
    var order := Addresses(keys[..n]);
    forall i | 0 <= i < n ensures order[i] in s.timers && KeyOf(s, order[i]) == keys[i] && Expired(s, now, order[i]) {
      assert keys[i] in keys && KeyIn(keys, cells, keys[i].addr);
    }
    forall a | Expired(s, now, a) ensures a in order {
      var i :| 0 <= i < |keys| && keys[i] == CellKey(cells, a);
      assert i < n && order[i] == a;
    }
    assert forall i :: 0 <= i < n ==> order[i] in order;
    forall a | a in order ensures Expired(s, now, a) {
      var i :| 0 <= i < n && order[i] == a;
    }
  }

  // Erasing the prefix holds its timers outside.
  lemma DropPrefix(keys: seq<Key>, cells: map<Address, Cell>, n: nat, out: set<Address>)
    requires IndexOk(keys, cells, {}) && n <= |keys|
    requires forall a :: a in out <==> exists x :: x in keys[..n] && x.addr == a
    ensures IndexOk(keys[n..], cells, out)
    ensures forall a :: KeyIn(keys[n..], cells, a) <==> KeyIn(keys, cells, a) && a !in out
    ensures forall a :: a in out ==> KeyIn(keys, cells, a)
  {
    var rest := keys[n..];
    assert keys == keys[..n] + rest;
    forall x | x in keys[..n] ensures x !in rest && x.addr in cells && CellKey(cells, x.addr) == x {
      var i :| 0 <= i < n && keys[i] == x;
    }
    forall x | x in rest ensures x in keys && x.addr !in out {
    }
    forall a ensures KeyIn(rest, cells, a) <==> KeyIn(keys, cells, a) && a !in out {
      if KeyIn(keys, cells, a) && a !in out {
        assert CellKey(cells, a) !in keys[..n];
      }
    }
  }

  lemma PrefixView(keys: seq<Key>, rest: seq<Key>, cells: map<Address, Cell>, s: State, order: seq<Address>, now: int)
    requires s.timers == View(keys, cells)
    requires forall a :: KeyIn(rest, cells, a) <==> KeyIn(keys, cells, a) && a !in order
    ensures View(rest, cells) == Progress(s, order, 0, now)
  {
    assert order[..0] == [] && order[0..] == order;
  }

  lemma TakeOutPrefix(keys: seq<Key>, cells: map<Address, Cell>, s: State, n: nat, now: int)
    requires Represents(keys, cells, s.timers, {}) && n <= |keys|
    ensures var order := Addresses(keys[..n]);
      Represents(keys[n..], cells, Progress(s, order, 0, now), AsSet(order))
  {
    assert IndexOk(keys, cells, {}) && s.timers == View(keys, cells) by {
      assert UnfoldIndex(0);
    }
    var order := Addresses(keys[..n]);
    var out := AsSet(order);
    forall a ensures a in out <==> exists x :: x in keys[..n] && x.addr == a {
      AddressesMembers(keys[..n], a);
    }
    DropPrefix(keys, cells, n, out);
    forall a ensures KeyIn(keys[n..], cells, a) <==> KeyIn(keys, cells, a) && a !in order {
      assert a in out <==> a in order;
    }
    PrefixView(keys, keys[n..], cells, s, order, now);
  }
}
