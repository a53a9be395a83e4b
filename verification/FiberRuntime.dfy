// The fiber operations in the program's own order of assignments, on mutable
// fiber records and thread locals, proved against the transfer functions.
module FiberRuntime {
  import opened Common
  import opened FiberSwitch
  import opened FiberNesting

  class Runtime {
    var fibers: seq<FiberRec>
    var threads: seq<Locals>

    function Snapshot(): State
      reads this
    {
      State(fibers, threads)
    }

    constructor ()
      ensures Nested(Snapshot())
    {
      fibers, threads := [], [];
    }

    method SwapContext(t: Tid, saveTo: Fid, loadFrom: Fid)
      requires t < |threads| && LocalsExist(Snapshot(), t) && saveTo < |fibers| && loadFrom < |fibers|
      modifies this
      ensures Snapshot() == Swap(old(Snapshot()), t, saveTo, loadFrom)
    {
      var me := threads[t].cpu;
      var n := fibers[me].saves + 1;
      fibers := fibers[me := fibers[me].(saves := n)];
      fibers := fibers[saveTo := fibers[saveTo].(ctx := Left(me, n))];
      match fibers[loadFrom].ctx {
        case Entry =>
          fibers := fibers[loadFrom := fibers[loadFrom].(started := true)];
          threads := threads[t := threads[t].(cpu := loadFrom)];
        case Left(owner, _) =>
          threads := threads[t := threads[t].(cpu := owner)];
        case Blank =>
          threads := threads[t := threads[t].(cpu := loadFrom)];
      }
    }

    // Called by the design on a fiber that passes the assertion: the resumed
    // fiber gets the cpu and nesting is kept.
    method Resume(t: Tid, f: Fid)
      requires Nested(Snapshot()) && Designed(Snapshot(), ResumeBy(t, f))
      requires Asserts(Snapshot(), ResumeBy(t, f))
      modifies this
      ensures Snapshot() == Do(old(Snapshot()), ResumeBy(t, f))
      ensures Nested(Snapshot()) && threads[t].cpu == threads[t].current == f && fibers[f].state == RUNNING
    {
      ghost var was := Snapshot();
      TransferSound(was, ResumeBy(t, f));
      assert fibers[f].state != TERM && fibers[f].state != RUNNING;
      threads := threads[t := threads[t].(current := f)];
      fibers := fibers[f := fibers[f].(state := RUNNING)];
      var back := SwapPartner(Snapshot(), t, f);
      SwapContext(t, back, f);
      fibers := fibers[f := fibers[f].(home := Some((t, fibers[back].ctx)))];
      NestedStep(was, ResumeBy(t, f));
    }

    // `f` is Fiber::GetThis(), which is the fiber on the cpu.
    method Yield(t: Tid) returns (f: Fid)
      requires Nested(Snapshot()) && Designed(Snapshot(), YieldBy(t))
      modifies this
      ensures old(Asserts(Snapshot(), YieldBy(t)))
      ensures f == old(threads[t].current) == old(threads[t].cpu)
      ensures Snapshot() == Do(old(Snapshot()), YieldBy(t))
      ensures Nested(Snapshot()) && f < |fibers| && fibers[f].state == READY
      ensures threads[t].cpu == threads[t].schedulerFiber
      ensures threads[t].current == threads[t].mainFiber
    {
      ghost var was := Snapshot();
      AssertsIff(was, YieldBy(t));
      TransferSound(was, YieldBy(t));
      assert ThreadOk(was, t);
      f := threads[t].current;
      threads := threads[t := threads[t].(current := threads[t].mainFiber)];
      if fibers[f].state != TERM {
        fibers := fibers[f := fibers[f].(state := READY)];
      }
      SwapContext(t, f, SwapPartner(Snapshot(), t, f));
      NestedStep(was, YieldBy(t));
    }

    // The fiber's function has returned: TERM, then the last yield.
    method MainTail(t: Tid) returns (f: Fid)
      requires Nested(Snapshot()) && Designed(Snapshot(), EndBy(t))
      modifies this
      ensures old(Asserts(Snapshot(), EndBy(t)))
      ensures f == old(threads[t].cpu)
      ensures Snapshot() == Do(old(Snapshot()), EndBy(t))
      ensures Nested(Snapshot()) && f < |fibers| && fibers[f].state == TERM
      ensures threads[t].current == threads[t].mainFiber
      ensures threads[t].cpu == if fibers[f].inScheduler then threads[t].schedulerFiber else threads[t].mainFiber
    {
      ghost var was := Snapshot();
      AssertsIff(was, EndBy(t));
      TransferSound(was, EndBy(t));
      assert ThreadOk(was, t);
      f := threads[t].cpu;
      fibers := fibers[f := fibers[f].(state := TERM)];
      threads := threads[t := threads[t].(current := threads[t].mainFiber)];
      SwapContext(t, f, SwapPartner(Snapshot(), t, f));
      NestedStep(was, EndBy(t));
    }

    method Reset(f: Fid)
      requires Nested(Snapshot()) && Designed(Snapshot(), ResetFiber(f))
      requires Asserts(Snapshot(), ResetFiber(f))
      modifies this
      ensures Snapshot() == Do(old(Snapshot()), ResetFiber(f))
      ensures Nested(Snapshot()) && f < |fibers| && fibers[f].state == READY && fibers[f].ctx == Entry
    {
      ghost var was := Snapshot();
      fibers := fibers[f := fibers[f].(ctx := Entry, started := false)];
      fibers := fibers[f := fibers[f].(state := READY)];
      NestedStep(was, ResetFiber(f));
    }
  }
}
