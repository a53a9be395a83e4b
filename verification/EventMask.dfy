// The bit masks of the fd table and of epoll stand for sets of events.
//
// The rest of the model works on the sets. Here the expressions the program
// writes on masks are shown to be the set operations.
module EventMask {
  import opened IoModel

  type Mask = bv32

  const NONE: Mask := 0
  const READ_BIT: Mask := 0x1
  const WRITE_BIT: Mask := 0x4
  const EPOLLIN: Mask := 0x1
  const EPOLLOUT: Mask := 0x4
  const EPOLLERR: Mask := 0x8
  const EPOLLHUP: Mask := 0x10

  function Bit(e: Event): Mask {
    if e == READ then READ_BIT else WRITE_BIT
  }

  // The events a mask stands for; other bits are ignored.
  function SetOf(m: Mask): set<Event> {
    (if m & READ_BIT != 0 then {READ} else {}) + (if m & WRITE_BIT != 0 then {WRITE} else {})
  }

  // Masks of the fd table have no other bits.
  predicate IsMask(m: Mask) {
    m & !(READ_BIT | WRITE_BIT) == 0
  }

  lemma TestIsMembership(m: Mask, e: Event)
    ensures m & Bit(e) != 0 <==> e in SetOf(m)
  {
    assert READ in SetOf(m) <==> m & READ_BIT != 0;
    assert WRITE in SetOf(m) <==> m & WRITE_BIT != 0;
  }

  lemma MaskIsItsSet(m: Mask, n: Mask)
    requires IsMask(m) && IsMask(n)
    ensures m == n <==> SetOf(m) == SetOf(n)
    ensures m == NONE <==> SetOf(m) == {}
  {
    assert READ in SetOf(m) <==> m & READ_BIT != 0;
    assert WRITE in SetOf(m) <==> m & WRITE_BIT != 0;
    assert READ in SetOf(n) <==> n & READ_BIT != 0;
    assert WRITE in SetOf(n) <==> n & WRITE_BIT != 0;
  }

  lemma OrBits(m: Mask, n: Mask, b: Mask)
    ensures (m | n) & b == 0 <==> m & b == 0 && n & b == 0
  {
    OrDistributes(m, n, b);
    OrZero(m & b, n & b);
  }

  lemma OrDistributes(m: Mask, n: Mask, b: Mask)
    ensures (m | n) & b == (m & b) | (n & b)
  {
  }

  lemma OrZero(m: Mask, n: Mask)
    ensures m | n == 0 <==> m == 0 && n == 0
  {
  }

  lemma OrIsUnion(m: Mask, n: Mask)
    ensures SetOf(m | n) == SetOf(m) + SetOf(n)
    ensures IsMask(m) && IsMask(n) ==> IsMask(m | n)
  {
    OrBits(m, n, READ_BIT);
    OrBits(m, n, WRITE_BIT);
    OrBits(m, n, !(READ_BIT | WRITE_BIT));
  }

  lemma AndIsIntersection(m: Mask, n: Mask)
    ensures SetOf(m & n) == SetOf(m) * SetOf(n)
    ensures IsMask(m) ==> IsMask(m & n)
  {
    assert (m & n) & READ_BIT != 0 <==> m & READ_BIT != 0 && n & READ_BIT != 0;
    assert (m & n) & WRITE_BIT != 0 <==> m & WRITE_BIT != 0 && n & WRITE_BIT != 0;
  }

  lemma AndNotIsDifference(m: Mask, n: Mask)
    ensures SetOf(m & !n) == SetOf(m) - SetOf(n)
    ensures IsMask(m) ==> IsMask(m & !n)
  {
    assert (m & !n) & READ_BIT != 0 <==> m & READ_BIT != 0 && n & READ_BIT == 0;
    assert (m & !n) & WRITE_BIT != 0 <==> m & WRITE_BIT != 0 && n & WRITE_BIT == 0;
  }

  // real_events as the dispatch loop computes it from the reported bits.
  function RealMask(events: Mask, bits: Mask): Mask {
    var b := if bits & (EPOLLERR | EPOLLHUP) != 0 then bits | ((EPOLLIN | EPOLLOUT) & events) else bits;
    (if b & EPOLLIN != 0 then READ_BIT else NONE) | (if b & EPOLLOUT != 0 then WRITE_BIT else NONE)
  }

  function ReportOf(fd: nat, bits: Mask): Report {
    Ready(fd, SetOf(bits), bits & (EPOLLERR | EPOLLHUP) != 0)
  }

  lemma RealMaskIsRealEvents(events: Mask, fd: nat, bits: Mask)
    ensures SetOf(RealMask(events, bits)) == RealEvents(SetOf(events), ReportOf(fd, bits))
    ensures IsMask(RealMask(events, bits))
  {
  }

  // The dispatch body up to epoll_ctl, on masks: what was found, whether to skip,
  // what is left for the kernel and whether that is nothing (EPOLL_CTL_DEL). On
  // the sets this is what IoTable does for the report.
  method Examine(events: Mask, fd: nat, bits: Mask) returns (found: Mask, skip: bool, left: Mask, del: bool)
    requires IsMask(events)
    ensures SetOf(found) == RealEvents(SetOf(events), ReportOf(fd, bits))
    ensures skip <==> SetOf(events) * SetOf(found) == {}
    ensures IsMask(left) && SetOf(left) == SetOf(events) - SetOf(found)
    ensures del <==> SetOf(left) == {}
    ensures forall e :: found & Bit(e) != 0 <==> e in SetOf(found)
  {
    var b := bits;
    if b & (EPOLLERR | EPOLLHUP) != 0 {
      b := b | ((EPOLLIN | EPOLLOUT) & events);
    }
    found := NONE;
    if b & EPOLLIN != 0 {
      found := found | READ_BIT;
    }
    if b & EPOLLOUT != 0 {
      found := found | WRITE_BIT;
    }
    RealMaskIsRealEvents(events, fd, bits);
    assert found == RealMask(events, bits) by {
      hide SetOf, IsMask;
    }
    skip := events & found == NONE;
    AndIsIntersection(events, found);
    MaskIsItsSet(events & found, NONE);
    left := events & !found;
    AndNotIsDifference(events, found);
    MaskIsItsSet(left, NONE);
    del := left == NONE;
    forall e ensures found & Bit(e) != 0 <==> e in SetOf(found) {
      TestIsMembership(found, e);
    }
    hide SetOf, RealMask, RealEvents;
  }

  // The mask after addEvent and the one after delEvent and triggerEvent.
  lemma MasksOfOneEvent(events: Mask, e: Event)
    requires IsMask(events)
    ensures IsMask(events | Bit(e)) && SetOf(events | Bit(e)) == SetOf(events) + {e}
    ensures IsMask(events & !Bit(e)) && SetOf(events & !Bit(e)) == SetOf(events) - {e}
    ensures events & Bit(e) != 0 <==> e in SetOf(events)
  {
    assert SetOf(Bit(e)) == {e} && IsMask(Bit(e));
    OrIsUnion(events, Bit(e));
    AndNotIsDifference(events, Bit(e));
    TestIsMembership(events, e);
    hide SetOf, IsMask, Bit;
  }
}
