// What the fd table means: a map from (fd, event) to a task, and the sequence of
// schedule calls it has made.
module IoModel {
  import opened Common
  import opened TaskQueue

  type Sid = nat   // a Scheduler object

  datatype Event = READ | WRITE
  datatype Key = Key(fd: nat, event: Event)

  // `id` numbers the registrations. The program does not store it; it tells two
  // registrations of equal tasks apart.
  datatype Registration = Registration(id: nat, scheduler: Sid, work: Work)

  // `added`, `fired` and `deleted` are the histories of the three operations;
  // `fired` is also the order of the schedule calls.
  datatype State = State(
    registry: map<Key, Registration>,
    added: seq<Registration>,
    fired: seq<Registration>,
    deleted: seq<Registration>)

  // What epoll_wait returned for one fd: the events it names, and whether it
  // reports an error or hang-up.
  datatype Report = Tickle | Ready(fd: nat, events: set<Event>, broken: bool)

  predicate Registered(s: State, fd: int, e: Event) {
    fd >= 0 && Key(fd, e) in s.registry
  }

  function EventsOf(s: State, fd: nat): (events: set<Event>)
    ensures READ in events <==> Key(fd, READ) in s.registry
    ensures WRITE in events <==> Key(fd, WRITE) in s.registry
  {
    (if Key(fd, READ) in s.registry then {READ} else {}) + (if Key(fd, WRITE) in s.registry then {WRITE} else {})
  }

  function Add(s: State, k: Key, scheduler: Sid, work: Work): State {
    var r := Registration(|s.added|, scheduler, work);
    s.(registry := s.registry[k := r], added := s.added + [r])
  }

  function Delete(s: State, k: Key): State
    requires k in s.registry
  {
    s.(registry := s.registry - {k}, deleted := s.deleted + [s.registry[k]])
  }

  function Trigger(s: State, k: Key): State
    requires k in s.registry
  {
    s.(registry := s.registry - {k}, fired := s.fired + [s.registry[k]])
  }

  function TriggerIf(s: State, k: Key, c: bool): State {
    if c && k in s.registry then Trigger(s, k) else s
  }

  // READ goes before WRITE.
  function TriggerBoth(s: State, fd: nat, read: bool, write: bool): State {
    TriggerIf(TriggerIf(s, Key(fd, READ), read), Key(fd, WRITE), write)
  }

  // A report fires the events it names; an error or hang-up fires both.
  predicate Names(r: Report, k: Key) {
    r.Ready? && r.fd == k.fd && (k.event in r.events || r.broken)
  }

  function Handle(s: State, r: Report): State {
    match r
    case Tickle => s
    case Ready(fd, _, _) => TriggerBoth(s, fd, Names(r, Key(fd, READ)), Names(r, Key(fd, WRITE)))
  }

  function HandleAll(s: State, reports: seq<Report>): State {
    if reports == [] then s
    else Handle(HandleAll(s, reports[..|reports| - 1]), reports[|reports| - 1])
  }

  ghost predicate DistinctFds(reports: seq<Report>) {
    forall i, j :: 0 <= i < j < |reports| && reports[i].Ready? && reports[j].Ready? ==>
      reports[i].fd != reports[j].fd
  }

  ghost predicate Named(reports: seq<Report>, k: Key) {
    exists i :: 0 <= i < |reports| && Names(reports[i], k)
  }

  // The registrations of one report in firing order.
  function Calls(s: State, r: Report): seq<Registration> {
    match r
    case Tickle => []
    case Ready(fd, _, _) =>
      (if Names(r, Key(fd, READ)) && Key(fd, READ) in s.registry then [s.registry[Key(fd, READ)]] else []) +
      (if Names(r, Key(fd, WRITE)) && Key(fd, WRITE) in s.registry then [s.registry[Key(fd, WRITE)]] else [])
  }

  function AllCalls(s: State, reports: seq<Report>): seq<Registration> {
    if reports == [] then []
    else AllCalls(s, reports[..|reports| - 1]) + Calls(s, reports[|reports| - 1])
  }

  lemma TriggerIfEffect(s: State, k: Key, c: bool)
    ensures var s' := TriggerIf(s, k, c);
      && (forall x :: x in s'.registry <==> x in s.registry && !(c && x == k))
      && (forall x :: x in s'.registry ==> s'.registry[x] == s.registry[x])
      && s'.fired == s.fired + (if c && k in s.registry then [s.registry[k]] else [])
      && s'.added == s.added && s'.deleted == s.deleted
  {
  }

  // Of two directions that are triggered READ is the first.
  lemma TriggerBothFires(s: State, fd: nat, read: bool, write: bool)
    ensures var r, w := Key(fd, READ), Key(fd, WRITE);
      TriggerBoth(s, fd, read, write).fired == s.fired +
        (if read && r in s.registry then [s.registry[r]] else []) +
        (if write && w in s.registry then [s.registry[w]] else [])
    ensures TriggerBoth(s, fd, read, write).registry ==
      s.registry - (if read then {Key(fd, READ)} else {}) - (if write then {Key(fd, WRITE)} else {})
  {
  }

  // One report fires what it names, no more and no less.
  lemma HandleFiresNamed(s: State, r: Report)
    ensures var s' := Handle(s, r);
      && (forall k :: k in s'.registry <==> k in s.registry && !Names(r, k))
      && (forall k :: k in s'.registry ==> s'.registry[k] == s.registry[k])
      && s'.fired == s.fired + Calls(s, r)
      && s'.added == s.added && s'.deleted == s.deleted
  {
    if r.Ready? {
      var k, l := Key(r.fd, READ), Key(r.fd, WRITE);
      var m := TriggerIf(s, k, Names(r, k));
      TriggerIfEffect(s, k, Names(r, k));
      TriggerIfEffect(m, l, Names(r, l));
      forall x | Names(r, x) ensures x == k || x == l {
        assert x.event == READ || x.event == WRITE;
      }
      assert Handle(s, r) == TriggerIf(m, l, Names(r, l));
      assert l in m.registry <==> l in s.registry;
    }
  }

  lemma NotNamedBefore(reports: seq<Report>, n: nat, k: Key)
    requires DistinctFds(reports) && n < |reports| && reports[n].Ready? && reports[n].fd == k.fd
    ensures !Named(reports[..n], k)
  {
    forall i | 0 <= i < n ensures !Names(reports[..n][i], k) {
      assert reports[..n][i] == reports[i];
    }
  }

  // Written out: an error or hang-up fires both directions, otherwise a direction is
  // fired iff its bit is reported.
  lemma ReportFires(s: State, fd: nat, events: set<Event>, broken: bool)
    ensures var r, w := Key(fd, READ), Key(fd, WRITE);
      Handle(s, Ready(fd, events, broken)).fired == s.fired +
        (if (READ in events || broken) && r in s.registry then [s.registry[r]] else []) +
        (if (WRITE in events || broken) && w in s.registry then [s.registry[w]] else [])
  {
    TriggerBothFires(s, fd, READ in events || broken, WRITE in events || broken);
  }

  lemma NamesFd(r: Report, k: Key)
    requires Names(r, k)
    ensures r.Ready? && r.fd == k.fd
  {
  }

  lemma CallsAgree(s: State, s': State, r: Report)
    requires forall k :: Names(r, k) ==> (k in s.registry <==> k in s'.registry)
    requires forall k :: Names(r, k) && k in s.registry ==> s.registry[k] == s'.registry[k]
    ensures Calls(s, r) == Calls(s', r)
  {
  }

  // A batch on distinct fds fires exactly the registrations it names, as they
  // were when the batch was reported, in report order and READ before WRITE.
  lemma {:induction false} BatchFiresNamed(s: State, reports: seq<Report>)
    requires DistinctFds(reports)
    ensures var s' := HandleAll(s, reports);
      && (forall k :: k in s'.registry <==> k in s.registry && !Named(reports, k))
      && (forall k :: k in s'.registry ==> s'.registry[k] == s.registry[k])
      && s'.fired == s.fired + AllCalls(s, reports)
      && s'.added == s.added && s'.deleted == s.deleted
  {
    hide Handle, Calls, Names;
    if reports != [] {
      var n := |reports| - 1;
      var before := reports[..n];
      BatchFiresNamed(s, before);
      var m := HandleAll(s, before);
      HandleFiresNamed(m, reports[n]);
      forall k ensures Named(reports, k) <==> Named(before, k) || Names(reports[n], k) {
        if Named(before, k) {
          var i :| 0 <= i < n && Names(before[i], k);
          assert Names(reports[i], k);
        }
        if Named(reports, k) && !Names(reports[n], k) {
          var i :| 0 <= i <= n && Names(reports[i], k);
          assert Names(before[i], k);
        }
      }
      forall k | Names(reports[n], k) ensures !Named(before, k) {
        NamesFd(reports[n], k);
        NotNamedBefore(reports, n, k);
      }
      CallsAgree(m, s, reports[n]);
    }
  }

  // The registrations of a report's fd are the same when its turn comes.
  lemma EventsStay(s: State, reports: seq<Report>, n: nat)
    requires DistinctFds(reports) && n < |reports| && reports[n].Ready?
    ensures EventsOf(HandleAll(s, reports[..n]), reports[n].fd) == EventsOf(s, reports[n].fd)
  {
    BatchFiresNamed(s, reports[..n]);
    forall e ensures !Named(reports[..n], Key(reports[n].fd, e)) {
      NotNamedBefore(reports, n, Key(reports[n].fd, e));
    }
  }

  // ---------------------------------------------------------------------------
  // The dispatch body on one report, with its assertions
  // ---------------------------------------------------------------------------

  // real_events, after an error or hang-up has added the registered ones.
  function RealEvents(events: set<Event>, r: Report): set<Event>
    requires r.Ready?
  {
    if r.broken then r.events + events else r.events
  }

  // Whether both `assert(events & event)` inside the two trigger calls hold.
  predicate TriggersAssertOk(events: set<Event>, r: Report)
    requires r.Ready?
  {
    var found := RealEvents(events, r);
    events * found == {} ||
    (&& (READ in found ==> READ in events)
     && (WRITE in found ==> WRITE in if READ in found then events - {READ} else events))
  }

  // The assertions hold exactly unless the report names both a registered and an
  // unregistered event (an error or hang-up names every registered one).
  lemma TriggersAssertIff(events: set<Event>, r: Report)
    requires r.Ready?
    ensures TriggersAssertOk(events, r) <==>
      !(exists d, e :: d in events && (d in r.events || r.broken) && e in r.events && e !in events)
  {
    var found := RealEvents(events, r);
    if events * found != {} {
      var d :| d in events * found;
      assert d in events && (d in r.events || r.broken);
      forall e | e in found && e !in events ensures e in r.events && (e == READ || e == WRITE) {}
    }
    forall d | d in events && (d in r.events || r.broken) ensures d in events * found {}
    forall e | e in r.events ensures e in found && (e == READ || e == WRITE) {}
  }

  predicate AssertsHold(s: State, r: Report) {
    r.Ready? ==> TriggersAssertOk(EventsOf(s, r.fd), r)
  }

  // The report is about the registrations that exist now: an event named without
  // an error or hang-up beside it is registered.
  ghost predicate Current(s: State, r: Report) {
    r.Ready? ==> forall e :: e in r.events ==> Key(r.fd, e) in s.registry
  }

  // In particular a report of nothing but registered events passes.
  lemma CurrentIsSafe(s: State, r: Report)
    requires Current(s, r)
    ensures AssertsHold(s, r)
  {
    if r.Ready? {
      TriggersAssertIff(EventsOf(s, r.fd), r);
    }
  }

  // Every report of the batch passes when its turn comes.
  ghost predicate BatchPasses(s: State, reports: seq<Report>) {
    forall i :: 0 <= i < |reports| ==> AssertsHold(HandleAll(s, reports[..i]), reports[i])
  }

  // On distinct fds it is enough that every report passes at the start.
  lemma DistinctPassIff(s: State, reports: seq<Report>)
    requires DistinctFds(reports)
    ensures BatchPasses(s, reports) <==> forall i :: 0 <= i < |reports| ==> AssertsHold(s, reports[i])
  {
    forall i | 0 <= i < |reports|
      ensures AssertsHold(HandleAll(s, reports[..i]), reports[i]) <==> AssertsHold(s, reports[i])
    {
      if reports[i].Ready? {
        EventsStay(s, reports, i);
      }
    }
  }

  // Such a report: both directions became ready, then WRITE was removed by
  // another thread before the dispatch looked.
  lemma StaleReportAborts()
    ensures !TriggersAssertOk({READ}, Ready(0, {READ, WRITE}, false))
  {
    TriggersAssertIff({READ}, Ready(0, {READ, WRITE}, false));
  }
}
