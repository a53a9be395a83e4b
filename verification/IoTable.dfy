// The I/O registration table: per fd a set of events and two task slots, an
// epoll interest that mirrors the events, and one counter for all of them.
//
// Every operation is proved against the map of IoModel. Event sets are bit masks
// in the program (module EventMask). An operation holds the locks it takes for
// its whole body, so each method is one step.
module IoTable {
  import opened Common
  import opened TaskQueue
  import opened IoModel

  // One task slot. The task is a fiber or a callback.
  datatype EventContext = EventContext(scheduler: Option<Sid>, fiber: Option<Fid>, cb: Option<CbId>)

  const EMPTY_SLOT := EventContext(None, None, None)

  function SlotOf(registry: map<Key, Registration>, k: Key): EventContext {
    if k !in registry then EMPTY_SLOT
    else
      var r := registry[k];
      EventContext(Some(r.scheduler),
                   if r.work.FiberWork? then Some(r.work.fiber) else None,
                   if r.work.CallbackWork? then Some(r.work.cb) else None)
  }

  datatype Call = Call(scheduler: Sid, work: Work)

  // The schedule calls made so far, on whichever scheduler.
  class Outbox {
    var calls: seq<Call>

    constructor ()
      ensures calls == []
    {
      calls := [];
    }

    method Schedule(scheduler: Sid, work: Work)
      modifies this
      ensures calls == old(calls) + [Call(scheduler, work)]
    {
      calls := calls + [Call(scheduler, work)];
    }
  }

  datatype Op = ADD | MOD | DEL

  // The kernel's side. A change is refused if it is not legal, and may be refused
  // for reasons of the kernel's own.
  class Epoll {
    var interest: map<nat, set<Event>>

    constructor (tickleFd: nat)
      ensures interest == map[tickleFd := {READ}]
    {
      interest := map[tickleFd := {READ}];
    }

    method Ctl(op: Op, fd: nat, events: set<Event>, willing: bool) returns (rt: int)
      modifies this
      ensures rt == 0 <==> willing && (op == ADD <==> fd !in old(interest))
      ensures rt == 0 && op == DEL ==> interest == old(interest) - {fd}
      ensures rt == 0 && op != DEL ==> interest == old(interest)[fd := events]
      ensures rt != 0 ==> interest == old(interest)
    {
      if !willing || (op == ADD) == (fd in interest) {
        return -1;
      }
      interest := if op == DEL then interest - {fd} else interest[fd := events];
      return 0;
    }
  }

  class FdContext {
    const fd: nat
    var events: set<Event>
    var read: EventContext
    var write: EventContext

    constructor (fd: nat)
      ensures this.fd == fd && events == {} && read == EMPTY_SLOT && write == EMPTY_SLOT
    {
      this.fd, events, read, write := fd, {}, EMPTY_SLOT, EMPTY_SLOT;
    }

    function GetEventContext(event: Event): EventContext
      reads this
    {
      match event
      case READ => read
      case WRITE => write
    }

    // The slots and the events of this fd are those of the registry.
    ghost predicate Mirrors(registry: map<Key, Registration>)
      reads this
    {
      forall n {:trigger Unfold(n)} :: Unfold(n) ==>
        && (forall e :: e in events <==> Key(fd, e) in registry)
        && (forall e :: GetEventContext(e) == SlotOf(registry, Key(fd, e)))
    }

    method SetEventContext(event: Event, ctx: EventContext)
      modifies this`read, this`write
      ensures read == if event == READ then ctx else old(read)
      ensures write == if event == WRITE then ctx else old(write)
    {
      match event
      case READ => read := ctx;
      case WRITE => write := ctx;
    }

    method ResetEventContext(event: Event)
      modifies this`read, this`write
      ensures read == if event == READ then EMPTY_SLOT else old(read)
      ensures write == if event == WRITE then EMPTY_SLOT else old(write)
    {
      SetEventContext(event, EMPTY_SLOT);
    }

    // The end of addEvent. The slot is empty, as the program asserts.
    method Fill(event: Event, scheduler: Sid, cb: Option<CbId>, current: Fid,
                ghost registry: map<Key, Registration>, ghost r: Registration, ghost after: map<Key, Registration>)
      requires Mirrors(registry) && event !in events && after == registry[Key(fd, event) := r]
      requires r.scheduler == scheduler
      requires r.work == if cb.Some? then CallbackWork(cb.value) else FiberWork(current)
      modifies this`events, this`read, this`write
      ensures Mirrors(after)
    {
      assert Unfold(0);
      assert GetEventContext(event) == SlotOf(registry, Key(fd, event));
      events := events + {event};
      var slot := GetEventContext(event);
      assert slot.scheduler.None? && slot.fiber.None? && slot.cb.None?;
      slot := slot.(scheduler := Some(scheduler));
      if cb.Some? {
        slot := slot.(cb := cb);
      } else {
        slot := slot.(fiber := Some(current));
      }
      SetEventContext(event, slot);
    }

    // The end of delEvent.
    method Clear(event: Event, newEvents: set<Event>, ghost registry: map<Key, Registration>)
      requires Mirrors(registry) && newEvents == events - {event}
      modifies this`events, this`read, this`write
      ensures Mirrors(registry - {Key(fd, event)})
    {
      assert Unfold(0);
      events := newEvents;
      ResetEventContext(event);
    }

    // The precondition on `events` is the program's assertion. The counter is not
    // in the frame: when the task is queued it has not dropped yet.
    method TriggerEvent(event: Event, ghost registry: map<Key, Registration>, out: Outbox)
      requires event in events
      requires Mirrors(registry) && Key(fd, event) in registry && !registry[Key(fd, event)].work.NoWork?
      modifies this`events, this`read, this`write, out
      ensures Mirrors(registry - {Key(fd, event)})
      ensures events == old(events) - {event}
      ensures old(GetEventContext(event)).scheduler.Some?
      ensures old(GetEventContext(event)).cb.Some? || old(GetEventContext(event)).fiber.Some?
      // The callback of the slot if it has one, else its fiber, on its scheduler.
      ensures var slot := old(GetEventContext(event));
        out.calls == old(out.calls) + [Call(slot.scheduler.value,
          if slot.cb.Some? then CallbackWork(slot.cb.value) else FiberWork(slot.fiber.value))]
      ensures var r := registry[Key(fd, event)]; out.calls == old(out.calls) + [Call(r.scheduler, r.work)]
      ensures GetEventContext(event) == EMPTY_SLOT
    {
      assert Unfold(0);
      assert Key(fd, event) in registry;
      assert GetEventContext(event) == SlotOf(registry, Key(fd, event));
      events := events - {event};
      var ctx := GetEventContext(event);
      if ctx.cb.Some? {
        out.Schedule(ctx.scheduler.value, CallbackWork(ctx.cb.value));
      } else {
        out.Schedule(ctx.scheduler.value, FiberWork(ctx.fiber.value));
      }
      ResetEventContext(event);
    }
  }

  ghost predicate SameElsewhere(r: map<Key, Registration>, r': map<Key, Registration>, fd: nat) {
    forall k: Key :: k.fd != fd ==> (k in r <==> k in r') && (k in r ==> r'[k] == r[k])
  }

  // The fd contexts but one.
  ghost function Others(contexts: seq<FdContext>, except: int): set<FdContext> {
    set i | 0 <= i < |contexts| && i != except :: contexts[i]
  }

  ghost predicate AllMirror(contexts: set<FdContext>, r: map<Key, Registration>)
    reads contexts
  {
    forall c :: c in contexts ==> c.Mirrors(r)
  }

  lemma OthersMirror(contexts: seq<FdContext>, r: map<Key, Registration>, r': map<Key, Registration>, fd: nat)
    requires forall i :: 0 <= i < |contexts| ==> contexts[i].fd == i
    requires AllMirror(Others(contexts, -1), r) && SameElsewhere(r, r', fd) && fd < |contexts|
    ensures AllMirror(Others(contexts, fd), r') && contexts[fd].Mirrors(r)
    ensures contexts[fd] !in Others(contexts, fd)
    ensures Others(contexts, -1) == Others(contexts, fd) + {contexts[fd]}
    ensures Only(r, fd, contexts[fd].events)
  {
    assert Unfold(0);
    forall c | c in Others(contexts, fd) ensures c.Mirrors(r') {
      assert c in Others(contexts, -1);
      forall e ensures SlotOf(r', Key(c.fd, e)) == SlotOf(r, Key(c.fd, e)) {}
    }
    assert contexts[fd] in Others(contexts, -1);
  }

  lemma FdMirrors(contexts: seq<FdContext>, r: map<Key, Registration>, fd: nat)
    requires fd < |contexts| && contexts[fd].fd == fd && AllMirror(Others(contexts, -1), r)
    ensures contexts[fd].Mirrors(r) && Only(r, fd, contexts[fd].events)
  {
    assert contexts[fd] in Others(contexts, -1);
    MirrorsOnly(contexts[fd], r);
  }

  lemma AllMirrorAgain(contexts: seq<FdContext>, r: map<Key, Registration>, fd: nat)
    requires fd < |contexts| && Others(contexts, -1) == Others(contexts, fd) + {contexts[fd]}
    requires AllMirror(Others(contexts, fd), r) && contexts[fd].Mirrors(r)
    ensures AllMirror(Others(contexts, -1), r)
  {
  }

  lemma MirrorsOnly(c: FdContext, r: map<Key, Registration>)
    requires c.Mirrors(r)
    ensures Only(r, c.fd, c.events)
  {
    assert Unfold(0);
  }

  lemma AddShape(s: State, fd: nat, event: Event, scheduler: Sid, work: Work, events: set<Event>)
    requires Only(s.registry, fd, events)
    ensures var s' := Add(s, Key(fd, event), scheduler, work);
      && SameElsewhere(s.registry, s'.registry, fd) && Only(s'.registry, fd, events + {event})
      && s'.registry == s.registry[Key(fd, event) := Registration(|s.added|, scheduler, work)]
      && s'.fired == s.fired
  {
  }

  // A report that passes the assertions skips, or triggers what it found.
  lemma ReportIsTriggers(s: State, r: Report, events: set<Event>)
    requires r.Ready? && AssertsHold(s, r) && Only(s.registry, r.fd, events)
    ensures var found := RealEvents(events, r);
      if events * found == {} then Handle(s, r) == s
      else
        && found <= events && Handle(s, r) == TriggerBoth(s, r.fd, READ in found, WRITE in found)
        && SameElsewhere(s.registry, Handle(s, r).registry, r.fd)
        && Only(Handle(s, r).registry, r.fd, events - found)
  {
    var found := RealEvents(events, r);
    assert READ in events <==> Key(r.fd, READ) in s.registry;
    assert WRITE in events <==> Key(r.fd, WRITE) in s.registry;
    forall e ensures e in EventsOf(s, r.fd) <==> e in events {
      assert e == READ || e == WRITE;
    }
    assert EventsOf(s, r.fd) == events;
    if events * found == {} {
      forall e ensures !(Names(r, Key(r.fd, e)) && Key(r.fd, e) in s.registry) {
        assert e !in events * found;
      }
    } else {
      forall e | e in found ensures e in events {
        assert e == READ || e == WRITE;
      }
    }
  }

  lemma RealEventsAre(registered: set<Event>, r: Report, events: set<Event>, found: set<Event>)
    requires r.Ready? && events == if r.broken then r.events + ({READ, WRITE} * registered) else r.events
    requires found == (if READ in events then {READ} else {}) + (if WRITE in events then {WRITE} else {})
    ensures found == RealEvents(registered, r)
  {
    forall e ensures e in found <==> e in RealEvents(registered, r) {
      assert e == READ || e == WRITE;
    }
  }

  // The schedule calls made are the fired registrations, in order.
  ghost predicate Matching(calls: seq<Call>, fired: seq<Registration>) {
    forall n {:trigger Unfold(n)} :: Unfold(n) ==>
      && |calls| == |fired|
      && (forall i :: 0 <= i < |fired| ==> calls[i] == Call(fired[i].scheduler, fired[i].work))
  }

  lemma MatchingSnoc(calls: seq<Call>, fired: seq<Registration>, r: Registration)
    requires Matching(calls, fired)
    ensures Matching(calls + [Call(r.scheduler, r.work)], fired + [r])
  {
    assert Unfold(0);
  }

  // The counter is the number of registrations, all of them of tasks and inside
  // the table.
  ghost predicate Counted(registry: map<Key, Registration>, pending: nat, size: nat) {
    forall n {:trigger Unfold(n)} :: Unfold(n) ==>
      && pending == |registry|
      && (forall k :: k in registry ==> k.fd < size && !registry[k].work.NoWork?)
  }

  lemma CountedAdd(registry: map<Key, Registration>, pending: nat, size: nat, k: Key, r: Registration,
                   registry': map<Key, Registration>)
    requires Counted(registry, pending, size) && k !in registry && k.fd < size && !r.work.NoWork?
    requires registry' == registry[k := r]
    ensures Counted(registry', pending + 1, size)
  {
    assert Unfold(0);
  }

  lemma CountedRemove(registry: map<Key, Registration>, pending: nat, size: nat, k: Key)
    requires Counted(registry, pending, size) && k in registry
    ensures pending > 0 && Counted(registry - {k}, pending - 1, size) && !registry[k].work.NoWork?
  {
    assert Unfold(0);
    assert (registry - {k})[k := registry[k]] == registry;
  }

  lemma CountedInside(registry: map<Key, Registration>, pending: nat, size: nat)
    requires Counted(registry, pending, size)
    ensures forall k :: k in registry ==> k.fd < size
  {
    assert Unfold(0);
  }

  // The size of the table after the lookup at the top of addEvent. The argument of
  // contextResize reads `fd + fd > 1`, which is a comparison.
  function SizeAfterLookup(size: nat, fd: int): nat {
    if size > fd then size else if fd + fd > 1 then 1 else 0
  }

  // The lookup finds a context iff the fd was inside the table before: growing
  // never makes room for it, and a negative fd passes for one inside.
  lemma LookupDefinedIff(size: nat, fd: int)
    ensures 0 <= fd < SizeAfterLookup(size, fd) <==> 0 <= fd < size
  {
  }

  // getEventContext(e) is full iff the bit of e is set: it then has a scheduler and
  // exactly one of fiber and callback, and otherwise nothing.
  lemma SlotFullIff(c: FdContext, r: map<Key, Registration>, e: Event)
    requires c.Mirrors(r) && forall k :: k in r ==> !r[k].work.NoWork?
    ensures var slot := c.GetEventContext(e);
      if e in c.events then slot.scheduler.Some? && slot.fiber.Some? != slot.cb.Some? else slot == EMPTY_SLOT
  {
    assert Unfold(0);
    assert c.GetEventContext(e) == SlotOf(r, Key(c.fd, e));
  }

  // The kernel watches exactly the fds with registrations, for exactly their
  // events, and the pipe.
  ghost predicate Watched(registry: map<Key, Registration>, interest: map<nat, set<Event>>, tickleFd: nat) {
    forall n {:trigger Unfold(n)} :: Unfold(n) ==>
      && tickleFd in interest
      && (forall k :: k in registry ==> k.fd != tickleFd && k.fd in interest && k.event in interest[k.fd])
      && (forall f, e :: f in interest && f != tickleFd && e in interest[f] ==> Key(f, e) in registry)
      && (forall f :: f in interest && f != tickleFd ==> interest[f] != {})
  }

  ghost predicate Only(registry: map<Key, Registration>, fd: nat, events: set<Event>) {
    forall e :: e in events <==> Key(fd, e) in registry
  }

  // Which epoll operation is legal follows from the event mask.
  lemma WatchedIff(registry: map<Key, Registration>, interest: map<nat, set<Event>>, tickleFd: nat,
                   fd: nat, events: set<Event>)
    requires Watched(registry, interest, tickleFd) && Only(registry, fd, events)
    ensures fd in interest <==> fd == tickleFd || events != {}
    ensures fd in interest && fd != tickleFd ==> interest[fd] == events
    ensures fd == tickleFd ==> events == {}
  {
    assert Unfold(0);
    if e :| e in events {
      assert Key(fd, e) in registry;
    }
    if fd in interest && fd != tickleFd {
      forall e | e in interest[fd] ensures e in events {
        assert Key(fd, e) in registry;
      }
      forall e | e in events ensures e in interest[fd] {
        assert Key(fd, e) in registry;
      }
    }
    if fd == tickleFd {
      forall e ensures e !in events {
        assert e in events ==> Key(fd, e) in registry;
      }
    }
  }

  // One fd changes in the registry and in the kernel.
  lemma WatchedChange(registry: map<Key, Registration>, interest: map<nat, set<Event>>, tickleFd: nat,
                      fd: nat, events: set<Event>, registry': map<Key, Registration>, interest': map<nat, set<Event>>)
    requires Watched(registry, interest, tickleFd) && Only(registry', fd, events) && fd != tickleFd
    requires SameElsewhere(registry, registry', fd)
    requires interest' == if events == {} then interest - {fd} else interest[fd := events]
    ensures Watched(registry', interest', tickleFd)
  {
    assert Unfold(0);
    forall k | k in registry' ensures k.fd != tickleFd && k.fd in interest' && k.event in interest'[k.fd] {
      if k.fd == fd {
        assert k == Key(fd, k.event);
      }
    }
  }

  class IOManager {
    const contexts: seq<FdContext>   // m_fdContexts
    const epoll: Epoll
    const out: Outbox
    const tickleFd: nat              // m_tickleFds[0], always in the interest set
    var pendingEventCount: nat
    ghost var abs: State

    ghost predicate Valid()
      reads this, Others(contexts, -1), epoll, out
    {
      && (forall i :: 0 <= i < |contexts| ==> contexts[i].fd == i)
      && AllMirror(Others(contexts, -1), abs.registry)
      && Watched(abs.registry, epoll.interest, tickleFd)
      && Counted(abs.registry, pendingEventCount, |contexts|)
      && Matching(out.calls, abs.fired)
    }

    // What has been scheduled is the tasks of the fired registrations, in order, each
    // on the scheduler it was registered with.
    lemma CallsAreFired()
      requires Valid()
      ensures |out.calls| == |abs.fired|
      ensures forall i :: 0 <= i < |abs.fired| ==>
        out.calls[i].scheduler == abs.fired[i].scheduler && out.calls[i].work == abs.fired[i].work
    {
      hide Watched, Counted, AllMirror;
      assert Unfold(0);
    }

    // The only fd context an operation on fd may change.
    ghost function At(fd: int): set<FdContext> {
      if 0 <= fd < |contexts| then {contexts[fd]} else {}
    }

    // contextResize(32) on an empty table.
    constructor (tickleFd: nat)
      ensures Valid() && abs == State(map[], [], [], []) && |contexts| == 32
      ensures this.tickleFd == tickleFd && out.calls == []
    {
      this.tickleFd := tickleFd;
      var made: seq<FdContext> := [];
      for i := 0 to 32
        invariant |made| == i
        invariant forall j :: 0 <= j < i ==>
          && made[j].fd == j && made[j].events == {}
          && made[j].read == EMPTY_SLOT && made[j].write == EMPTY_SLOT
      {
        var c := new FdContext(i);
        made := made + [c];
      }
      contexts := made;
      epoll := new Epoll(tickleFd);
      out := new Outbox();
      pendingEventCount, abs := 0, State(map[], [], [], []);
    }

    // epoll_ctl as the three operations call it. The chosen operation is legal for
    // every fd but the pipe's, so only the kernel's unwillingness makes it fail.
    method Control(op: Op, fd: nat, events: set<Event>, willing: bool,
                   ghost before: set<Event>, ghost after: map<Key, Registration>)
      returns (rt: int)
      requires Watched(abs.registry, epoll.interest, tickleFd) && Only(abs.registry, fd, before)
      requires SameElsewhere(abs.registry, after, fd) && Only(after, fd, events)
      requires op == (if events == {} then DEL else if before == {} then ADD else MOD)
      requires before == {} ==> events != {}
      modifies epoll
      ensures rt == 0 <==> willing && fd != tickleFd
      ensures before != {} ==> fd != tickleFd
      ensures rt == 0 ==> Watched(after, epoll.interest, tickleFd)
      ensures rt != 0 ==> epoll.interest == old(epoll.interest)
    {
      WatchedIff(abs.registry, epoll.interest, tickleFd, fd, before);
      rt := epoll.Ctl(op, fd, events, willing);
      if rt == 0 {
        WatchedChange(abs.registry, old(epoll.interest), tickleFd, fd, events, after, epoll.interest);
      }
    }

    // `scheduler` and `current` are what Scheduler::GetThis and Fiber::GetThis
    // return; the current fiber is RUNNING. The fd is one for which the lookup
    // finds a context (LookupDefinedIff).
    method AddEvent(fd: int, event: Event, cb: Option<CbId>, scheduler: Sid, current: Fid, willing: bool)
      returns (rt: int)
      requires Valid() && 0 <= fd < SizeAfterLookup(|contexts|, fd)
      requires Key(fd, event) !in abs.registry
      modifies this`pendingEventCount, this`abs, At(fd), epoll
      ensures Valid() && out.calls == old(out.calls)
      ensures rt == 0 || rt == -1
      ensures rt == 0 <==> willing && fd != tickleFd
      ensures rt == 0 ==>
        abs == Add(old(abs), Key(fd, event), scheduler, if cb.Some? then CallbackWork(cb.value) else FiberWork(current))
      ensures rt == 0 ==> Key(fd, event) in abs.registry && abs.registry[Key(fd, event)].scheduler == scheduler
      ensures rt == 0 ==>
        abs.registry[Key(fd, event)].work == if cb.Some? then CallbackWork(cb.value) else FiberWork(current)
      ensures rt != 0 ==> abs == old(abs) && epoll.interest == old(epoll.interest)
    {
      hide Watched, Counted, Matching, Only, SameElsewhere, FdContext.Mirrors;
      LookupDefinedIff(|contexts|, fd);
      ghost var work := if cb.Some? then CallbackWork(cb.value) else FiberWork(current);
      ghost var r := Registration(|abs.added|, scheduler, work);
      ghost var after := Add(abs, Key(fd, event), scheduler, work);
      var ctx := contexts[fd];
      hide AllMirror;
      FdMirrors(contexts, abs.registry, fd);
      AddShape(abs, fd, event, scheduler, work, ctx.events);
      hide Add;
      OthersMirror(contexts, abs.registry, after.registry, fd);
      var op := if ctx.events != {} then MOD else ADD;
      rt := Control(op, fd, ctx.events + {event}, willing, ctx.events, after.registry);
      if rt != 0 {
        return -1;
      }
      FillContext(ctx, event, cb, scheduler, current, r, after);
    }

    // The end of addEvent, after the kernel has accepted.
    method FillContext(ctx: FdContext, event: Event, cb: Option<CbId>, scheduler: Sid, current: Fid,
                       ghost r: Registration, ghost after: State)
      requires forall i :: 0 <= i < |contexts| ==> contexts[i].fd == i
      requires ctx.fd < |contexts| && contexts[ctx.fd] == ctx && ctx !in Others(contexts, ctx.fd)
      requires Others(contexts, -1) == Others(contexts, ctx.fd) + {ctx}
      requires ctx.Mirrors(abs.registry) && AllMirror(Others(contexts, ctx.fd), after.registry)
      requires event !in ctx.events && Key(ctx.fd, event) !in abs.registry
      requires r.scheduler == scheduler
      requires r.work == if cb.Some? then CallbackWork(cb.value) else FiberWork(current)
      requires after.registry == abs.registry[Key(ctx.fd, event) := r] && after.fired == abs.fired
      requires Watched(after.registry, epoll.interest, tickleFd)
      requires Counted(abs.registry, pendingEventCount, |contexts|) && Matching(out.calls, abs.fired)
      modifies this`pendingEventCount, this`abs, ctx`events, ctx`read, ctx`write
      ensures Valid() && abs == after
    {
      hide Watched, Counted, Matching, FdContext.Mirrors, AllMirror;
      CountedAdd(abs.registry, pendingEventCount, |contexts|, Key(ctx.fd, event), r, after.registry);
      pendingEventCount := pendingEventCount + 1;
      ctx.Fill(event, scheduler, cb, current, abs.registry, r, after.registry);
      abs := after;
      AllMirrorAgain(contexts, abs.registry, ctx.fd);
    }

    // A negative fd is compared as a large unsigned number.
    method DelEvent(fd: int, event: Event, willing: bool) returns (ok: bool)
      requires Valid()
      modifies this`pendingEventCount, this`abs, At(fd), epoll
      ensures Valid() && out.calls == old(out.calls)
      ensures ok <==> willing && Registered(old(abs), fd, event)
      ensures ok ==> abs == Delete(old(abs), Key(fd, event))
      ensures !ok ==> abs == old(abs) && epoll.interest == old(epoll.interest)
    {
      hide Watched, Counted, Matching, Only, SameElsewhere, FdContext.Mirrors;
      CountedInside(abs.registry, pendingEventCount, |contexts|);
      if fd < 0 || |contexts| <= fd {
        return false;
      }
      var ctx := contexts[fd];
      ghost var after := if Key(fd, event) in abs.registry then Delete(abs, Key(fd, event)) else abs;
      OthersMirror(contexts, abs.registry, after.registry, fd);
      if event !in ctx.events {
        return false;
      }
      var newEvents := ctx.events - {event};
      var op := if newEvents != {} then MOD else DEL;
      var rt := Control(op, fd, newEvents, willing, ctx.events, after.registry);
      if rt != 0 {
        return false;
      }
      CountedRemove(abs.registry, pendingEventCount, |contexts|, Key(fd, event));
      pendingEventCount := pendingEventCount - 1;
      ctx.Clear(event, newEvents, abs.registry);
      abs := after;
      return true;
    }

    // `if(events & event) { triggerEvent(event); --m_pendingEventCount; }`
    method TriggerAsked(ctx: FdContext, event: Event, asked: bool)
      requires asked ==> event in ctx.events
      requires ctx.Mirrors(abs.registry)
      requires Counted(abs.registry, pendingEventCount, |contexts|) && Matching(out.calls, abs.fired)
      modifies this`pendingEventCount, this`abs, ctx`events, ctx`read, ctx`write, out
      ensures ctx.Mirrors(abs.registry)
      ensures ctx.events == old(ctx.events) - (if asked then {event} else {})
      ensures abs == TriggerIf(old(abs), Key(ctx.fd, event), asked)
      ensures Counted(abs.registry, pendingEventCount, |contexts|)
      ensures Matching(out.calls, abs.fired)
    {
      if asked {
        MirrorsOnly(ctx, abs.registry);
        ghost var k := Key(ctx.fd, event);
        CountedRemove(abs.registry, pendingEventCount, |contexts|, k);
        MatchingSnoc(out.calls, abs.fired, abs.registry[k]);
        ctx.TriggerEvent(event, abs.registry, out);
        pendingEventCount := pendingEventCount - 1;
        abs := Trigger(abs, k);
      }
    }

    method CancelEvent(fd: int, event: Event, willing: bool) returns (ok: bool)
      requires Valid()
      modifies this`pendingEventCount, this`abs, At(fd), epoll, out
      ensures Valid()
      ensures ok <==> willing && Registered(old(abs), fd, event)
      ensures ok ==> abs == Trigger(old(abs), Key(fd, event))
      ensures !ok ==> abs == old(abs) && epoll.interest == old(epoll.interest) && out.calls == old(out.calls)
    {
      hide Watched, Counted, Matching, Only, SameElsewhere, FdContext.Mirrors;
      CountedInside(abs.registry, pendingEventCount, |contexts|);
      if fd < 0 || |contexts| <= fd {
        return false;
      }
      var ctx := contexts[fd];
      ghost var after := TriggerIf(abs, Key(fd, event), true);
      OthersMirror(contexts, abs.registry, after.registry, fd);
      if event !in ctx.events {
        return false;
      }
      var newEvents := ctx.events - {event};
      var op := if newEvents != {} then MOD else DEL;
      var rt := Control(op, fd, newEvents, willing, ctx.events, after.registry);
      if rt != 0 {
        return false;
      }
      TriggerAsked(ctx, event, true);
      return true;
    }

    method CancelAll(fd: int, willing: bool) returns (ok: bool)
      requires Valid()
      modifies this`pendingEventCount, this`abs, At(fd), epoll, out
      ensures Valid()
      ensures ok <==> willing && (Registered(old(abs), fd, READ) || Registered(old(abs), fd, WRITE))
      ensures ok ==> abs == TriggerBoth(old(abs), fd, true, true)
      ensures !ok ==> abs == old(abs) && epoll.interest == old(epoll.interest) && out.calls == old(out.calls)
    {
      hide Watched, Counted, Matching, Only, SameElsewhere, FdContext.Mirrors;
      CountedInside(abs.registry, pendingEventCount, |contexts|);
      if fd < 0 || |contexts| <= fd {
        return false;
      }
      var ctx := contexts[fd];
      ghost var after := TriggerBoth(abs, fd, true, true);
      OthersMirror(contexts, abs.registry, after.registry, fd);
      if ctx.events == {} {
        return false;
      }
      forall e ensures Key(fd, e) !in after.registry {
        assert e == READ || e == WRITE;
      }
      var rt := Control(DEL, fd, {}, willing, ctx.events, after.registry);
      if rt != 0 {
        return false;
      }
      TriggerAsked(ctx, READ, READ in ctx.events);
      TriggerAsked(ctx, WRITE, WRITE in ctx.events);
      forall e ensures e !in ctx.events {
        assert e == READ || e == WRITE;
      }
      assert ctx.events == {};
      return true;
    }

    // The body of the dispatch loop. The program asserts that epoll_ctl succeeds.
    method HandleReport(r: Report)
      requires Valid() && (r.Ready? ==> r.fd < |contexts|) && AssertsHold(abs, r)
      modifies this`pendingEventCount, this`abs, if r.Ready? then At(r.fd) else {}, epoll, out
      ensures Valid()
      ensures abs == Handle(old(abs), r)
    {
      hide Watched, Counted, Matching, Only, SameElsewhere, FdContext.Mirrors, AllMirror;
      if r.Tickle? {
        return;
      }
      var ctx := contexts[r.fd];
      FdMirrors(contexts, abs.registry, r.fd);
      ReportIsTriggers(abs, r, ctx.events);
      hide Handle, AssertsHold;
      ghost var after := Handle(abs, r);
      OthersMirror(contexts, abs.registry, after.registry, r.fd);
      var events := r.events;
      if r.broken {
        events := events + ({READ, WRITE} * ctx.events);
      }
      var realEvents: set<Event> := {};
      if READ in events {
        realEvents := realEvents + {READ};
      }
      if WRITE in events {
        realEvents := realEvents + {WRITE};
      }
      RealEventsAre(ctx.events, r, events, realEvents);
      if ctx.events * realEvents == {} {
        return;
      }
      var leftEvents := ctx.events - realEvents;
      var op := if leftEvents != {} then MOD else DEL;
      var rt := Control(op, r.fd, leftEvents, true, ctx.events, after.registry);
      assert rt == 0;
      TriggerAsked(ctx, READ, READ in realEvents);
      TriggerAsked(ctx, WRITE, WRITE in realEvents);
      AllMirrorAgain(contexts, abs.registry, r.fd);
    }

    // The dispatch loop of idle over one batch of reports, whatever the batch, as
    // long as no trigger assertion fails in it.
    method Dispatch(reports: seq<Report>)
      requires Valid() && BatchPasses(abs, reports)
      requires forall i :: 0 <= i < |reports| && reports[i].Ready? ==> reports[i].fd < |contexts|
      modifies this`pendingEventCount, this`abs, contexts, epoll, out
      ensures Valid()
      ensures abs == HandleAll(old(abs), reports)
    {
      hide Valid;
      for i := 0 to |reports|
        invariant Valid()
        invariant abs == HandleAll(old(abs), reports[..i])
      {
        HandleReport(reports[i]);
        assert reports[..i + 1][..i] == reports[..i];
      }
      assert reports[..|reports|] == reports;
    }
  }
}
