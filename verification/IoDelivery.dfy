// Exactly-once delivery of I/O registrations over every run of the table.
module IoDelivery {
  import opened Common
  import opened TaskQueue
  import opened IoModel

  // The operations that change the registry. One that fails changes nothing and
  // is no step.
  datatype Step =
    | AddEvent(key: Key, scheduler: Sid, work: Work)
    | DelEvent(key: Key)
    | CancelEvent(key: Key)
    | CancelAll(fd: nat)
    | Dispatch(report: Report)

  predicate Enabled(s: State, step: Step) {
    match step
    case AddEvent(k, _, _) => k !in s.registry
    case DelEvent(k) => k in s.registry
    case CancelEvent(k) => k in s.registry
    case _ => true
  }

  function Do(s: State, step: Step): State
    requires Enabled(s, step)
  {
    match step
    case AddEvent(k, scheduler, work) => Add(s, k, scheduler, work)
    case DelEvent(k) => Delete(s, k)
    case CancelEvent(k) => Trigger(s, k)
    case CancelAll(fd) => TriggerBoth(s, fd, true, true)
    case Dispatch(r) => Handle(s, r)
  }

  ghost predicate Execution(states: seq<State>, steps: seq<Step>) {
    && |states| == |steps| + 1 && states[0] == State(map[], [], [], [])
    && forall i :: 0 <= i < |steps| ==> Enabled(states[i], steps[i]) && states[i + 1] == Do(states[i], steps[i])
  }

  ghost predicate Waiting(s: State, id: nat) {
    exists k :: k in s.registry && s.registry[k].id == id
  }

  ghost predicate Among(q: seq<Registration>, id: nat) {
    exists i :: 0 <= i < |q| && q[i].id == id
  }

  // Every element is the registration that was added under its number, and no
  // number occurs twice.
  ghost predicate Genuine(q: seq<Registration>, added: seq<Registration>) {
    && (forall i :: 0 <= i < |q| ==> q[i].id < |added| && q[i] == added[q[i].id])
    && (forall i, j :: 0 <= i < j < |q| ==> q[i].id != q[j].id)
  }

  // Every registration made is registered, fired or deleted, exactly one of the
  // three, once, with the task it was made for.
  ghost predicate ExactlyOnce(s: State) {
    && (forall i :: 0 <= i < |s.added| ==> s.added[i].id == i)
    && Genuine(s.fired, s.added) && Genuine(s.deleted, s.added)
    && (forall k :: k in s.registry ==> s.registry[k].id < |s.added| && s.registry[k] == s.added[s.registry[k].id])
    && (forall k, l :: k in s.registry && l in s.registry && s.registry[k].id == s.registry[l].id ==> k == l)
    && (forall id: nat {:trigger Waiting(s, id)} :: Waiting(s, id) ==> !Among(s.fired, id) && !Among(s.deleted, id))
    && (forall id: nat :: Among(s.fired, id) ==> !Among(s.deleted, id))
    && (forall id: nat {:trigger Waiting(s, id)} :: id < |s.added| ==>
          Waiting(s, id) || Among(s.fired, id) || Among(s.deleted, id))
  }

  ghost predicate Balanced(s: State) {
    |s.added| == |s.fired| + |s.deleted| + |s.registry|
  }

  lemma AmongSnoc(q: seq<Registration>, r: Registration)
    ensures forall id: nat :: Among(q + [r], id) <==> Among(q, id) || id == r.id
  {
    forall id: nat ensures Among(q + [r], id) <==> Among(q, id) || id == r.id {
      assert (q + [r])[|q|] == r;
      if Among(q, id) {
        var i :| 0 <= i < |q| && q[i].id == id;
        assert (q + [r])[i].id == id;
      }
      if Among(q + [r], id) && id != r.id {
        var i :| 0 <= i < |q| + 1 && (q + [r])[i].id == id;
        assert q[i].id == id;
      }
    }
  }

  lemma GenuineSnoc(q: seq<Registration>, r: Registration, added: seq<Registration>)
    requires Genuine(q, added) && r.id < |added| && r == added[r.id] && !Among(q, r.id)
    ensures Genuine(q + [r], added)
  {
    forall i | 0 <= i < |q| ensures q[i].id != r.id {}
  }

  lemma GenuineGrows(q: seq<Registration>, added: seq<Registration>, r: Registration)
    requires Genuine(q, added)
    ensures Genuine(q, added + [r])
    ensures !Among(q, |added|)
  {
  }

  lemma WaitingWithout(s: State, s': State, k: Key)
    requires ExactlyOnce(s) && k in s.registry && s'.registry == s.registry - {k}
    ensures forall id: nat :: Waiting(s', id) <==> Waiting(s, id) && id != s.registry[k].id
  {
    forall id: nat ensures Waiting(s', id) <==> Waiting(s, id) && id != s.registry[k].id {
      if Waiting(s, id) && id != s.registry[k].id {
        var l :| l in s.registry && s.registry[l].id == id;
        assert l in s'.registry;
      }
    }
  }

  lemma AddKeeps(s: State, k: Key, scheduler: Sid, work: Work)
    requires ExactlyOnce(s) && k !in s.registry
    ensures ExactlyOnce(Add(s, k, scheduler, work))
  {
    var s' := Add(s, k, scheduler, work);
    var r := s'.registry[k];
    GenuineGrows(s.fired, s.added, r);
    GenuineGrows(s.deleted, s.added, r);
    forall id: nat ensures Waiting(s', id) <==> Waiting(s, id) || id == r.id {
      if Waiting(s, id) {
        var l :| l in s.registry && s.registry[l].id == id;
        assert l in s'.registry && s'.registry[l].id == id;
      }
      assert k in s'.registry;
    }
  }

  lemma DeleteKeeps(s: State, k: Key)
    requires ExactlyOnce(s) && k in s.registry
    ensures ExactlyOnce(Delete(s, k))
  {
    var s' := Delete(s, k);
    var r := s.registry[k];
    assert Waiting(s, r.id);
    WaitingWithout(s, s', k);
    AmongSnoc(s.deleted, r);
    GenuineSnoc(s.deleted, r, s.added);
    hide Waiting, Among, Genuine;
  }

  lemma TriggerKeeps(s: State, k: Key)
    requires ExactlyOnce(s) && k in s.registry
    ensures ExactlyOnce(Trigger(s, k))
  {
    var s' := Trigger(s, k);
    var r := s.registry[k];
    assert Waiting(s, r.id);
    WaitingWithout(s, s', k);
    AmongSnoc(s.fired, r);
    GenuineSnoc(s.fired, r, s.added);
    hide Waiting, Among, Genuine;
  }

  lemma TriggerBothKeeps(s: State, fd: nat, read: bool, write: bool)
    requires ExactlyOnce(s)
    ensures ExactlyOnce(TriggerBoth(s, fd, read, write))
  {
    hide ExactlyOnce;
    var m := TriggerIf(s, Key(fd, READ), read);
    if m != s {
      TriggerKeeps(s, Key(fd, READ));
    }
    if TriggerIf(m, Key(fd, WRITE), write) != m {
      TriggerKeeps(m, Key(fd, WRITE));
    }
  }

  lemma StepKeeps(s: State, step: Step)
    requires ExactlyOnce(s) && Enabled(s, step)
    ensures ExactlyOnce(Do(s, step))
  {
    hide ExactlyOnce;
    match step
    case AddEvent(k, scheduler, work) => AddKeeps(s, k, scheduler, work);
    case DelEvent(k) => DeleteKeeps(s, k);
    case CancelEvent(k) => TriggerKeeps(s, k);
    case CancelAll(fd) => TriggerBothKeeps(s, fd, true, true);
    case Dispatch(r) =>
      if r.Ready? {
        TriggerBothKeeps(s, r.fd, Names(r, Key(r.fd, READ)), Names(r, Key(r.fd, WRITE)));
      }
  }

  lemma RemovingOne(m: map<Key, Registration>, k: Key)
    requires k in m
    ensures |m - {k}| == |m| - 1
  {
    assert (m - {k})[k := m[k]] == m;
  }

  lemma TriggerIfBalance(s: State, k: Key, c: bool)
    requires Balanced(s)
    ensures Balanced(TriggerIf(s, k, c))
  {
    if c && k in s.registry {
      RemovingOne(s.registry, k);
    }
  }

  lemma BalanceStep(s: State, step: Step)
    requires Balanced(s) && Enabled(s, step)
    ensures Balanced(Do(s, step))
  {
    match step
    case AddEvent(k, scheduler, work) =>
    case DelEvent(k) => RemovingOne(s.registry, k);
    case CancelEvent(k) => TriggerIfBalance(s, k, true);
    case CancelAll(fd) =>
      TriggerIfBalance(s, Key(fd, READ), true);
      TriggerIfBalance(TriggerIf(s, Key(fd, READ), true), Key(fd, WRITE), true);
    case Dispatch(r) =>
      if r.Ready? {
        var c, d := Names(r, Key(r.fd, READ)), Names(r, Key(r.fd, WRITE));
        TriggerIfBalance(s, Key(r.fd, READ), c);
        TriggerIfBalance(TriggerIf(s, Key(r.fd, READ), c), Key(r.fd, WRITE), d);
      }
  }

  // Over every run: successful adds = fired + deleted + still registered, and
  // each registration ends in one of the three, once, with its own task.
  lemma {:induction false} DeliveredExactlyOnce(states: seq<State>, steps: seq<Step>, n: nat)
    requires Execution(states, steps) && n <= |steps|
    ensures ExactlyOnce(states[n]) && Balanced(states[n])
  {
    if n > 0 {
      DeliveredExactlyOnce(states, steps, n - 1);
      StepKeeps(states[n - 1], steps[n - 1]);
      BalanceStep(states[n - 1], steps[n - 1]);
    }
  }

  // Every registration was made by an addEvent for the same scheduler and task.
  lemma {:induction false} AddedByStep(states: seq<State>, steps: seq<Step>, n: nat, id: nat) returns (j: nat)
    requires Execution(states, steps) && n <= |steps| && id < |states[n].added|
    ensures j < n && steps[j].AddEvent? && |states[j].added| == id
    ensures states[n].added[id].scheduler == steps[j].scheduler && states[n].added[id].work == steps[j].work
    decreases n
  {
    assert Enabled(states[n - 1], steps[n - 1]) && states[n] == Do(states[n - 1], steps[n - 1]);
    if id < |states[n - 1].added| {
      assert states[n].added[id] == states[n - 1].added[id];
      j := AddedByStep(states, steps, n - 1, id);
    } else {
      j := n - 1;
    }
  }

  // So what is fired is a task that addEvent was given, on the scheduler it was
  // given, and no two are of the same addEvent.
  lemma FiredIsWhatWasAdded(states: seq<State>, steps: seq<Step>, n: nat, i: nat) returns (j: nat)
    requires Execution(states, steps) && n <= |steps| && i < |states[n].fired|
    ensures j < n && steps[j].AddEvent?
    ensures states[n].fired[i].scheduler == steps[j].scheduler && states[n].fired[i].work == steps[j].work
    ensures forall i' :: 0 <= i' < |states[n].fired| && i' != i ==> states[n].fired[i'].id != |states[j].added|
  {
    DeliveredExactlyOnce(states, steps, n);
    j := AddedByStep(states, steps, n, states[n].fired[i].id);
  }

  // What was fired or deleted stays so: the histories only grow at the end.
  lemma {:induction false} HistoryGrows(states: seq<State>, steps: seq<Step>, m: nat, n: nat)
    requires Execution(states, steps) && m <= n <= |steps|
    ensures states[m].fired <= states[n].fired
    ensures states[m].deleted <= states[n].deleted
    ensures states[m].added <= states[n].added
    decreases n
  {
    if m < n {
      HistoryGrows(states, steps, m, n - 1);
      assert Enabled(states[n - 1], steps[n - 1]) && states[n] == Do(states[n - 1], steps[n - 1]);
    }
  }

  // A registration deleted in some state is never fired, and one fired is fired once.
  lemma DeletedNeverFires(states: seq<State>, steps: seq<Step>, m: nat, n: nat, r: Registration)
    requires Execution(states, steps) && m <= n <= |steps|
    requires r in states[m].deleted
    ensures r !in states[n].fired
  {
    HistoryGrows(states, steps, m, n);
    DeliveredExactlyOnce(states, steps, n);
    var i :| 0 <= i < |states[m].deleted| && states[m].deleted[i] == r;
    assert states[n].deleted[i].id == r.id;
    assert Among(states[n].deleted, r.id);
  }
}
