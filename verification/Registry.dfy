/**
 An epoll table refines a map from descriptor numbers to registrations, and the one way in which the
 slot pointers betray that: a registration survives the closing of its descriptor and passes to the
 next descriptor that takes the slot.
 */
module Registry {
  import opened Basics
  import opened Connections
  import opened Descriptors
  import opened Readiness
  import opened Duplex
  import opened Scanning
  import opened Reachability
  import opened LevelTriggered
  import opened Pairing

  datatype Registration = Registration(events: EventMask, data: int, level: bool)

  function RegistrationOf(lfd: Listener): Registration {
    Registration(lfd.events, lfd.data, lfd.level)
  }

  predicate LiveFor(l: Local, lfd: Listener, num: int) {
    Live(l.fds, lfd) && l.fds[lfd.slot].num == num
  }

  /** The table as a partial map: the registration of descriptor number `num`. */
  function Registered(l: Local, lfds: seq<Listener>, num: int): (reg: Option<Registration>)
    ensures reg.None? <==> forall j | 0 <= j < |lfds| :: !LiveFor(l, lfds[j], num)
  {
    var k := FirstIndex(lfds, (lfd: Listener) => LiveFor(l, lfd, num));
    if k.None? then None else Some(RegistrationOf(lfds[k.value]))
  }

  /** `other` differs from `m` at `num` only. */
  ghost predicate SameElsewhere(l: Local, lfds: seq<Listener>, l': Local, lfds': seq<Listener>, num: int) {
    forall n | n != num :: Registered(l', lfds', n) == Registered(l, lfds, n)
  }

  /** Slots and numbers being unique, any live registration of `num` is the one the map holds. */
  lemma RegisteredIs(l: Local, lfds: seq<Listener>, j: nat)
    requires NumbersOk(l) && TableOk(lfds) && j < |lfds| && Live(l.fds, lfds[j])
    ensures Registered(l, lfds, l.fds[lfds[j].slot].num) == Some(RegistrationOf(lfds[j]))
  {
    var num := l.fds[lfds[j].slot].num;
    var k := FirstIndex(lfds, (lfd: Listener) => LiveFor(l, lfd, num));
    assert LiveFor(l, lfds[j], num);
  }

  /** The lookup finds the registration of `num` exactly when the map holds one. */
  lemma LookupExactly(l: Local, lfds: seq<Listener>, num: int)
    requires NumbersOk(l) && TableOk(lfds) && FindFd(l.fds, num).Some?
    ensures ListenerForFd(l.fds, lfds, num).lfds == lfds
    ensures ListenerForFd(l.fds, lfds, num).found.Some? <==> Registered(l, lfds, num).Some?
    ensures ListenerForFd(l.fds, lfds, num).found.Some? ==>
              LiveFor(l, lfds[ListenerForFd(l.fds, lfds, num).found.value], num) &&
              lfds[ListenerForFd(l.fds, lfds, num).found.value].slot == FindFd(l.fds, num).value
  {
    var i := FindFd(l.fds, num).value;
    assert forall k | 0 <= k < |l.fds| && l.fds[k].num == num :: k == i;
    assert forall j | 0 <= j < |lfds| :: LiveFor(l, lfds[j], num) == ListensTo(l.fds, lfds[j], num);
  }

  /** Rewriting one entry whose old and new contents concern `num` only. */
  lemma EntryRewritten(l: Local, lfds: seq<Listener>, k: nat, lfd: Listener, num: int)
    requires NumbersOk(l) && TableOk(lfds) && k < |lfds| && TableOk(lfds[k := lfd])
    requires Live(l.fds, lfds[k]) ==> l.fds[lfds[k].slot].num == num
    requires Live(l.fds, lfd) ==> l.fds[lfd.slot].num == num
    ensures SameElsewhere(l, lfds, l, lfds[k := lfd], num)
    ensures Live(l.fds, lfd) ==> Registered(l, lfds[k := lfd], num) == Some(RegistrationOf(lfd))
    ensures Live(l.fds, lfds[k]) && !Live(l.fds, lfd) ==> Registered(l, lfds[k := lfd], num).None?
  {
    hide NumbersOk, TableOk, RegistrationOf, Registered;
    var lfds' := lfds[k := lfd];
    forall n | n != num ensures Registered(l, lfds', n) == Registered(l, lfds, n) {
      SameAt(l, lfds, l, lfds', n);
    }
    if Live(l.fds, lfd) { RegisteredIs(l, lfds', k); }
    if Live(l.fds, lfds[k]) && !Live(l.fds, lfd) { OnlyOne(l, lfds, k, num); }
  }

  /** If the same positions are live for `n` and hold the same, the maps agree at `n`. */
  lemma SameAt(l: Local, lfds: seq<Listener>, l': Local, lfds': seq<Listener>, n: int)
    requires |lfds'| == |lfds|
    requires forall j | 0 <= j < |lfds| :: LiveFor(l, lfds[j], n) == LiveFor(l', lfds'[j], n)
    requires forall j | 0 <= j < |lfds| && LiveFor(l, lfds[j], n) :: lfds'[j] == lfds[j]
    ensures Registered(l', lfds', n) == Registered(l, lfds, n)
  {
  }

  lemma OnlyOne(l: Local, lfds: seq<Listener>, k: nat, num: int)
    requires NumbersOk(l) && TableOk(lfds) && k < |lfds| && LiveFor(l, lfds[k], num)
    ensures forall j | 0 <= j < |lfds| && j != k :: !LiveFor(l, lfds[j], num)
  {
  }

  /**
   epoll_ctl is an operation on the map: ADD fails with EEXIST exactly when the number is registered,
   MOD and DEL fail with ENOENT exactly when it is not, and nothing but that number is affected.
   */
  lemma CtlRefinesMap(l: Local, lfds: seq<Listener>, op: CtlOp, num: int, events: EventMask, data: int)
    requires NumbersOk(l) && TableOk(lfds) && FindFd(l.fds, num).Some?
    ensures TableOk(CtlTable(l.fds, lfds, op, num, FindFd(l.fds, num).value, events, data).0)
    ensures var before := Registered(l, lfds, num);
            var e := CtlTable(l.fds, lfds, op, num, FindFd(l.fds, num).value, events, data);
            var after := Registered(l, e.0, num);
            var reg := Some(Registration(events, data, !IsEventSet(events, EPOLLET)));
            SameElsewhere(l, lfds, l, e.0, num) &&
            match op
            case CtlAdd =>
              if before.Some? then e.1 == Fail(-1, EEXIST) && after == before
              else if EmptyListener(lfds).None? then e.1 == Fail(-1, ENOMEM) && after == before
              else e.1 == Ret(0) && after == reg
            case CtlMod => if before.Some? then e.1 == Ret(0) && after == reg
              else e.1 == Fail(-1, ENOENT) && after == before
            case CtlDel => if before.Some? then e.1 == Ret(0) && after == None
              else e.1 == Fail(-1, ENOENT) && after == before
            case CtlUnknown => e.1 == Fail(-1, EINVAL) && after == before
  {
    hide IsEventSet, NumbersOk, TableOk, Registered;
    var i := FindFd(l.fds, num).value;
    CtlKeepsTable(l, lfds, op, num, events, data);
    LookupExactly(l, lfds, num);
    var look := ListenerForFd(l.fds, lfds, num);
    var lfd := Listener(true, !IsEventSet(events, EPOLLET), events, data, i);
    match op
    case CtlAdd =>
      var k := EmptyListener(lfds);
      if look.found.None? && k.Some? { EntryRewritten(l, lfds, k.value, lfd, num); }
    case CtlMod => if look.found.Some? { EntryRewritten(l, lfds, look.found.value, lfd, num); }
    case CtlDel =>
      if look.found.Some? { EntryRewritten(l, lfds, look.found.value, lfds[look.found.value].(active := false), num); }
    case CtlUnknown =>
  }

  // ---------- closing and reusing a slot ----------

  /** Closing a descriptor removes its number from the map of every table, and nothing else. */
  lemma CloseDeregisters(l: Local, lfds: seq<Listener>, i: nat)
    requires NumbersOk(l) && i < |l.fds| && l.fds[i].active
    ensures NumbersOk(Released(l, i)) && Registered(Released(l, i), lfds, l.fds[i].num).None?
    ensures SameElsewhere(l, lfds, Released(l, i), lfds, l.fds[i].num)
  {
    forall n | n != l.fds[i].num ensures Registered(Released(l, i), lfds, n) == Registered(l, lfds, n) {
      SameAt(l, lfds, Released(l, i), lfds, n);
    }
  }

  /** A registration left behind by a closed descriptor of slot `i`. */
  predicate Stale(l: Local, lfds: seq<Listener>, i: nat) {
    i < |l.fds| && !l.fds[i].active && exists j | 0 <= j < |lfds| :: lfds[j].active && lfds[j].slot == i
  }

  /** `num` is open in slot `i`, and a table already holds a registration for it: ADD answers EEXIST. */
  predicate BornRegistered(l: Local, lfds: seq<Listener>, num: int, i: nat, events: EventMask, data: int)
    requires i < |l.fds|
  {
    && FindFd(l.fds, num) == Some(i) && Registered(l, lfds, num).Some?
    && CtlTable(l.fds, lfds, CtlAdd, num, i, events, data).1 == Fail(-1, EEXIST)
  }

  /**
   A new descriptor, whatever call makes it, takes the first free slot and the next number. It is
   registered from birth if and only if the slot has a stale registration; otherwise ADD does not answer
   EEXIST.
   */
  lemma NewSlotRegisteredExactly(l: Local, lfds: seq<Listener>, fd: Fd, events: EventMask, data: int)
    requires NumbersOk(l) && TableOk(lfds) && EmptyFd(l.fds).Some? && fd.active && fd.num == l.currentMaxFd
    ensures var i := EmptyFd(l.fds).value;
            var l' := l.WithFd(i, fd).(currentMaxFd := l.currentMaxFd + 1);
            FindFd(l'.fds, fd.num) == Some(i) &&
            if Stale(l, lfds, i) then BornRegistered(l', lfds, fd.num, i, events, data)
            else Registered(l', lfds, fd.num).None? &&
                 CtlTable(l'.fds, lfds, CtlAdd, fd.num, i, events, data).1 != Fail(-1, EEXIST)
  {
    hide IsEventSet;
    var i := EmptyFd(l.fds).value;
    var l' := l.WithFd(i, fd).(currentMaxFd := l.currentMaxFd + 1);
    NewSlotKeepsNumbers(l, i, fd);
    FoundFd(l'.fds, i, fd.num);
    CtlRefinesMap(l', lfds, CtlAdd, fd.num, events, data);
    if Stale(l, lfds, i) {
      var j :| 0 <= j < |lfds| && lfds[j].active && lfds[j].slot == i;
      RegisteredIs(l', lfds, j);
    }
  }

  /** The descriptor that socket() returns. */
  lemma NewDescriptorRegisteredExactly(l: Local, lfds: seq<Listener>, nonblock: bool, events: EventMask, data: int)
    requires NumbersOk(l) && TableOk(lfds) && EmptyFd(l.fds).Some? && l.currentMaxFd < POLLFD_START
    ensures var i := EmptyFd(l.fds).value;
            var t := DoSocket(l, true, true, nonblock);
            t.1 == Ret(l.currentMaxFd) && |t.0.fds| == |l.fds| &&
            (BornRegistered(t.0, lfds, l.currentMaxFd, i, events, data) <==> Stale(l, lfds, i)) &&
            (CtlTable(t.0.fds, lfds, CtlAdd, l.currentMaxFd, i, events, data).1 == Fail(-1, EEXIST) <==>
             Stale(l, lfds, i))
  {
    hide CtlTable, NumbersOk, TableOk, Registered, Stale;
    var t := DoSocket(l, true, true, nonblock);
    var i := EmptyFd(l.fds).value;
    NewSlotRegisteredExactly(l, lfds, t.0.fds[i], events, data);
  }

  /** The descriptor that accept4 returns. */
  lemma AcceptedRegisteredExactly(r: Role, sh: Shared, l: Local, lfds: seq<Listener>, num: int, nonblock: bool,
                                  named: bool, events: EventMask, data: int)
    requires NumbersOk(l) && TableOk(lfds) && DoAccept(r, sh, l, num, nonblock, named).out.Accepted?
    ensures EmptyFd(l.fds).Some? && DoAccept(r, sh, l, num, nonblock, named).out.num == l.currentMaxFd
    ensures var i := EmptyFd(l.fds).value;
            var l' := DoAccept(r, sh, l, num, nonblock, named).local;
            |l'.fds| == |l.fds| &&
            (BornRegistered(l', lfds, l.currentMaxFd, i, events, data) <==> Stale(l, lfds, i)) &&
            (CtlTable(l'.fds, lfds, CtlAdd, l.currentMaxFd, i, events, data).1 == Fail(-1, EEXIST) <==>
             Stale(l, lfds, i))
  {
    hide CtlTable, NumbersOk, TableOk, Registered, Stale, PickOnTable, GetPeerName;
    var e := DoAccept(r, sh, l, num, nonblock, named);
    var i := EmptyFd(l.fds).value;
    NewSlotRegisteredExactly(l, lfds, e.local.fds[i], events, data);
  }

  /**
   The damage: a registration that a closed descriptor left behind reports the connection that accept4 put
   into its slot, under the data of the closed descriptor, as soon as that connection is ready for
   anything the closed descriptor asked for. The one exception is a caller's array that is full before.
   */
  lemma AcceptInheritsRegistration(r: Role, sh: Shared, a: Local, b: Local, num: int, nonblock: bool, named: bool,
                                   epfd: int, maxevents: int, j: nat)
    requires Inv(sh, a, b) && DoAccept(r, sh, a, num, nonblock, named).out.Accepted? && EmptyFd(a.fds).Some? &&
             FindPollfd(a, epfd).Some?
    requires j < |a.pollfds[FindPollfd(a, epfd).value].lfds|
    requires var lfd := a.pollfds[FindPollfd(a, epfd).value].lfds[j];
             lfd.active && lfd.level && lfd.slot == EmptyFd(a.fds).value
    ensures Taken(r, sh, a, num).Some? &&
            Taken(r, sh, a, num).value in DoAccept(r, sh, a, num, nonblock, named).shared.conns
    ensures var p := Taken(r, sh, a, num).value;
            var e := DoAccept(r, sh, a, num, nonblock, named);
            var lfd := a.pollfds[FindPollfd(a, epfd).value].lfds[j];
            var ready := Among(LevelMask(e.shared.conns[p], r), lfd.events);
            var out := DoScan(r, e.shared, e.local, epfd, maxevents).out;
            ready != 0 ==>
              out == Undefined || (out.Events? &&
                                   (|out.log| >= maxevents || Report(j, p, false, lfd.data, ready) in out.log))
  {
    hide PickOnTable, GetPeerName, ScanFrom, LevelMask, Among, Inv;
    var e := DoAccept(r, sh, a, num, nonblock, named);
    var k := FindPollfd(a, epfd).value;
    var p := Taken(r, sh, a, num).value;
    assert FindPollfd(e.local, epfd) == Some(k);
    if Among(LevelMask(e.shared.conns[p], r), a.pollfds[k].lfds[j].events) != 0 {
      ScanReportsLevel(StartScan(e.shared, e.local, k), r, e.local.interfaces, 0, j, maxevents, p);
    }
  }

  /**
   Closing a registered descriptor and opening a new socket in the same slot is such a case: the new
   number cannot be added, although nobody registered it.
   */
  lemma CloseThenSocketIsRegistered(l: Local, lfds: seq<Listener>, i: nat, nonblock: bool, events: EventMask, data: int)
    requires NumbersOk(l) && TableOk(lfds) && i < |l.fds| && l.fds[i].active && Registered(l, lfds, l.fds[i].num).Some?
    requires (forall k | 0 <= k < i :: l.fds[k].active) && l.currentMaxFd < POLLFD_START
    ensures var t := DoSocket(Released(l, i), true, true, nonblock);
            t.1 == Ret(l.currentMaxFd) && Registered(l, lfds, l.currentMaxFd).None? &&
            CtlTable(t.0.fds, lfds, CtlAdd, l.currentMaxFd, i, events, data).1 == Fail(-1, EEXIST)
  {
    hide CtlTable, NumbersOk;
    CloseDeregisters(l, lfds, i);
    assert Registered(l, lfds, l.currentMaxFd).None? by { NumberIsNew(l, lfds); }
    assert EmptyFd(Released(l, i).fds) == Some(i);
    var j :| 0 <= j < |lfds| && LiveFor(l, lfds[j], l.fds[i].num);
    assert lfds[j].slot == i;
    NewDescriptorRegisteredExactly(Released(l, i), lfds, nonblock, events, data);
  }

  lemma NumberIsNew(l: Local, lfds: seq<Listener>)
    requires NumbersOk(l)
    ensures Registered(l, lfds, l.currentMaxFd).None?
  {
  }
}
