// First come, first served, and when a later task may go first.
module TaskOrder {
  import opened Common
  import opened TaskQueue
  import opened SchedulerRuns

  // Step k of the run is the scan by thread t that takes y.
  ghost predicate TakenAt(s: State, steps: seq<Step>, k: nat, t: Tid, y: Task) {
    && k < |steps| && Run(s, steps[..k]) && steps[k] == Scan(t)
    && var m := After(s, steps[..k]);
    && Enabled(m, Scan(t))
    && var i := FirstEligible(m.queue, t, RunningFibers(m));
    && i < |m.queue| && m.queue[i] == y
  }

  ghost predicate FiberIsRunning(s: State, x: Task) {
    x.work.FiberWork? && x.work.fiber in s.fibers && s.fibers[x.work.fiber] == RUNNING
  }

  // At step k thread t takes y although the earlier x waits, because t may not
  // take x: x belongs to another thread or is a fiber that is still RUNNING.
  ghost predicate Overtakes(s: State, steps: seq<Step>, k: nat, t: Tid, x: Task, y: Task) {
    && TakenAt(s, steps, k, t, y)
    && var m := After(s, steps[..k]);
    && x in m.queue
    && (PinnedElsewhere(x, t) || FiberIsRunning(m, x))
    && (x.pin == y.pin ==> FiberIsRunning(m, x))
  }

  lemma ScanOvertakes(m: State, t: Tid, x: Task, y: Task)
    requires Conserved(m) && Enabled(m, Scan(t))
    requires x in m.queue && y in m.queue && x.id < y.id
    requires y !in Do(m, Scan(t)).queue
    ensures var i := FirstEligible(m.queue, t, RunningFibers(m)); i < |m.queue| && m.queue[i] == y
    ensures PinnedElsewhere(x, t) || FiberIsRunning(m, x)
    ensures x.pin == y.pin ==> FiberIsRunning(m, x)
  {
    hide FirstEligible, RemoveAt;
    var i: nat :| i < |m.queue| && m.queue[i] == y;
    var j: nat :| j < |m.queue| && m.queue[j] == x;
    ScanLeaves(m, t, i);
    assert j < i;
    assert !Eligible(m.queue[j], t, RunningFibers(m));
  }

  // A scan takes a task behind position i iff it may take neither the task there
  // nor any before it, and may take one behind.
  lemma ScanPassesIff(m: State, t: Tid, i: nat)
    requires i < |m.queue|
    ensures var k := FirstEligible(m.queue, t, RunningFibers(m));
      i < k < |m.queue| <==>
        && (forall h :: 0 <= h <= i ==> !Eligible(m.queue[h], t, RunningFibers(m)))
        && (exists j :: i < j < |m.queue| && Eligible(m.queue[j], t, RunningFibers(m)))
  {
    hide FirstEligible;
  }

  // First come, first served at a scan: the head of the list is the task taken
  // iff it may be taken.
  lemma HeadIsTakenIff(m: State, t: Tid)
    requires m.queue != [] && Enabled(m, Scan(t)) && Conserved(m)
    ensures m.queue[0] !in Do(m, Scan(t)).queue <==> Eligible(m.queue[0], t, RunningFibers(m))
  {
    ScanLeaves(m, t, 0);
    hide Conserved;
  }

  // The task at position k leaves the list iff the scan stops there.
  lemma ScanLeaves(m: State, t: Tid, i: nat)
    requires i < |m.queue| && Enabled(m, Scan(t)) && Conserved(m)
    ensures m.queue[i] !in Do(m, Scan(t)).queue <==> i == FirstEligible(m.queue, t, RunningFibers(m))
  {
    hide FirstEligible, RemoveAt;
    var k := FirstEligible(m.queue, t, RunningFibers(m));
    if k < |m.queue| {
      var q := RemoveAt(m.queue, k);
      RemoveAtMembers(m.queue, k, m.queue[i]);
      if i == k {
        forall j | 0 <= j < |q| ensures q[j] != m.queue[k] {
          assert q[j] == m.queue[if j < k then j else j + 1];
        }
      } else {
        assert m.queue[i].id != m.queue[k].id;
      }
    }
  }

  // A scan overtakes x, that is takes a later task y while x stays, iff it may
  // take y and may take nothing before y, x included.
  lemma ScanOvertakesIff(m: State, t: Tid, i: nat, j: nat)
    requires Conserved(m) && Enabled(m, Scan(t)) && i < j < |m.queue|
    ensures var q := Do(m, Scan(t)).queue;
      m.queue[i] in q && m.queue[j] !in q <==>
        && Eligible(m.queue[j], t, RunningFibers(m))
        && (forall h :: 0 <= h < j ==> !Eligible(m.queue[h], t, RunningFibers(m)))
  {
    ScanLeaves(m, t, i);
    ScanLeaves(m, t, j);
    hide Conserved, FirstEligible;
  }

  // What a new task behind others is announced by: schedule itself is silent then,
  // and the next scan either takes it, or tickles, or the task is a RUNNING fiber
  // that the scanning thread may take later and no other task is left to announce.
  lemma AnnouncedByScan(m: State, work: Work, pin: Option<Tid>, t: Tid)
    requires m.queue != [] && !work.NoWork? && At(m, t, Scanning) && !m.fault
    ensures var m' := DoSchedule(m, work, pin); var n := |m.queue|; var running := RunningFibers(m');
      && FirstEligible(m'.queue, t, running) != n
      && !Tickles(m'.queue, t, running)
      <==>
      && FirstEligible(m'.queue, t, running) == |m'.queue|
      && forall i :: 0 <= i <= n ==> StillRunning(m'.queue[i], running) && !PinnedElsewhere(m'.queue[i], t)
  {
    var m' := DoSchedule(m, work, pin);
    SilentIff(m'.queue, t, RunningFibers(m'));
    hide FirstEligible;
  }

  // Accepted tasks are never forgotten and their list only grows at the end.
  lemma AcceptedGrows(m: State, step: Step)
    requires Enabled(m, step)
    ensures m.accepted <= Do(m, step).accepted
    ensures forall z :: z in Do(m, step).queue && z !in m.queue ==> z.id == |m.accepted|
    ensures forall z :: z in m.queue && z !in Do(m, step).queue ==> step.Scan?
  {
    if step.Scan? {
      var k := FirstEligible(m.queue, step.t, RunningFibers(m));
      if k < |m.queue| {
        forall z ensures z in RemoveAt(m.queue, k) ==> z in m.queue {
          RemoveAtMembers(m.queue, k, z);
        }
      }
    }
  }

  lemma OvertakesLater(s: State, steps: seq<Step>, step: Step, k: nat, t: Tid, x: Task, y: Task)
    requires Overtakes(s, steps, k, t, x, y)
    ensures Overtakes(s, steps + [step], k, t, x, y)
  {
    assert TakenAt(s, steps, k, t, y);
    assert (steps + [step])[..k] == steps[..k];
  }

  lemma OrderedById(q: seq<Task>, x: Task, y: Task)
    requires IncreasingIds(q) && x in q && y in q && x.id < y.id
    ensures exists i, j :: 0 <= i < j < |q| && q[i] == x && q[j] == y
  {
    var i :| 0 <= i < |q| && q[i] == x;
    var j :| 0 <= j < |q| && q[j] == y;
    assert i < j;
  }

  lemma NothingTakenYet(s: State, x: Task, y: Task)
    requires Init(s)
    ensures x !in s.queue && y !in s.accepted
  {
  }

  lemma LastStepOvertakes(s: State, steps: seq<Step>, x: Task, y: Task)
    requires Init(s) && Run(s, steps) && steps != [] && x.id < y.id
    requires x in After(s, steps).queue && y !in After(s, steps).queue
    requires var m := After(s, steps[..|steps| - 1]); y in m.queue
    ensures exists k: nat, t: Tid :: Overtakes(s, steps, k, t, x, y)
  {
    var n := |steps| - 1;
    var m := After(s, steps[..n]);
    InvAlways(s, steps[..n]);
    AcceptedGrows(m, steps[n]);
    ScanOvertakes(m, steps[n].t, x, y);
    assert Overtakes(s, steps, n, steps[n].t, x, y);
  }

  lemma NewTaskIsQueued(m: State, step: Step, y: Task)
    requires Enabled(m, step) && y in Do(m, step).accepted && y !in m.accepted
    ensures y in Do(m, step).queue
  {
    if step.Schedule? && !step.work.NoWork? {
      assert Do(m, step).queue[|m.queue|] == y;
    }
  }

  lemma GoneBefore(s: State, steps: seq<Step>, x: Task, y: Task)
    requires Init(s) && Run(s, steps) && steps != [] && x.id < y.id
    requires x in After(s, steps).queue && y in After(s, steps).accepted && y !in After(s, steps).queue
    requires y !in After(s, steps[..|steps| - 1]).queue
    ensures var m := After(s, steps[..|steps| - 1]); y in m.accepted && x in m.queue
  {
    var n := |steps| - 1;
    var m := After(s, steps[..n]);
    InvAlways(s, steps);
    InvAlways(s, steps[..n]);
    AcceptedGrows(m, steps[n]);
    if y !in m.accepted {
      NewTaskIsQueued(m, steps[n], y);
    }
  }

  // In every run: if y left the list while the earlier x still waits in it, then
  // the scan that took y found x pinned elsewhere or RUNNING; with equal
  // affinity x was a RUNNING fiber.
  lemma {:induction false} FirstComeFirstServed(s: State, steps: seq<Step>, x: Task, y: Task)
    requires Init(s) && Run(s, steps)
    requires var e := After(s, steps);
      x in e.queue && y in e.accepted && y !in e.queue && x.id < y.id
    ensures exists k: nat, t: Tid :: Overtakes(s, steps, k, t, x, y)
    decreases |steps|
  {
    hide Overtakes, Do, Enabled;
    if steps == [] {
      NothingTakenYet(s, x, y);
    } else if y in After(s, steps[..|steps| - 1]).queue {
      LastStepOvertakes(s, steps, x, y);
    } else {
      GoneBefore(s, steps, x, y);
      FirstComeFirstServed(s, steps[..|steps| - 1], x, y);
      EarlierOvertakes(s, steps[..|steps| - 1], steps[|steps| - 1], x, y);
      assert steps == steps[..|steps| - 1] + [steps[|steps| - 1]];
    }
  }

  lemma EarlierOvertakes(s: State, before: seq<Step>, step: Step, x: Task, y: Task)
    requires exists k: nat, t: Tid :: Overtakes(s, before, k, t, x, y)
    ensures exists k: nat, t: Tid :: Overtakes(s, before + [step], k, t, x, y)
  {
    hide Overtakes;
    var k: nat, t: Tid :| Overtakes(s, before, k, t, x, y);
    OvertakesLater(s, before, step, k, t, x, y);
  }

  // A scan takes at most one task and keeps the order of the rest.
  lemma ScanKeepsOrder(m: State, t: Tid, x: Task, y: Task)
    requires Conserved(m) && Enabled(m, Scan(t))
    requires x in m.queue && y in m.queue && x.id < y.id
    ensures var q := Do(m, Scan(t)).queue;
      && (x in q || y in q)
      && (x in q && y in q ==> exists i, j :: 0 <= i < j < |q| && q[i] == x && q[j] == y)
  {
    hide FirstEligible, RemoveAt;
    var q := Do(m, Scan(t)).queue;
    ConservedScan(m, t);
    var k := FirstEligible(m.queue, t, RunningFibers(m));
    if k < |m.queue| {
      RemoveAtMembers(m.queue, k, x);
      RemoveAtMembers(m.queue, k, y);
    }
    if x in q && y in q {
      OrderedById(q, x, y);
    }
  }
}
