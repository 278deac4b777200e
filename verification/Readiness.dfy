/** The epoll tables and one readiness scan of event.c, as functions on values. */
module Readiness {
  import opened Basics
  import opened Connections
  import opened Descriptors

  datatype CtlOp = CtlAdd | CtlMod | CtlDel | CtlUnknown

  function DoEpollCreate(l: Local): (Local, Outcome) {
    if l.randomPollFd >= SYSTEM_MAX_FD then (l, Fail(-1, ENFILE))
    else match FirstIndex(l.pollfds, (e: EpollFd) => !e.active)
      case None => (l, Fail(-1, ENOMEM))
      case Some(k) =>
        (l.(pollfds := l.pollfds[k := l.pollfds[k].(active := true, num := l.randomPollFd)],
            randomPollFd := l.randomPollFd + 1), Ret(l.randomPollFd))
  }

  /** The start of poll: its one epoll table is created by the first call and remembered. */
  function DoPollOpen(l: Local): (Local, Outcome) {
    if l.pollEpfd != -1 then (l, Ret(l.pollEpfd))
    else
      var e := DoEpollCreate(l);
      if e.1.Ret? then (e.0.(pollEpfd := e.1.value), e.1) else e
  }

  /** The descriptor number a registration stands for: whatever its slot holds now. */
  predicate ListensTo(fds: seq<Fd>, lfd: Listener, num: int) {
    lfd.active && lfd.slot < |fds| && fds[lfd.slot].num == num
  }

  datatype Lookup = Lookup(lfds: seq<Listener>, found: Option<nat>)

  /** Finds the registration of `num`, and drops it instead when its descriptor has been closed. */
  function ListenerForFd(fds: seq<Fd>, lfds: seq<Listener>, num: int): (r: Lookup)
    ensures |r.lfds| == |lfds|
    ensures r.found.Some? ==> r.found.value < |lfds| && ListensTo(fds, lfds[r.found.value], num) && r.lfds == lfds
  {
    var k := FirstIndex(lfds, (lfd: Listener) => ListensTo(fds, lfd, num));
    if k.None? then Lookup(lfds, None)
    else if fds[lfds[k.value].slot].active then Lookup(lfds, k)
    else Lookup(lfds[k.value := lfds[k.value].(active := false)], None)
  }

  /**
   The lookup stops at the first registration whose slot now holds the number: it returns it if the
   descriptor is open, and drops exactly that one if it is closed. It fails without a change if there is none.
   */
  lemma ListenerForFdExactly(fds: seq<Fd>, lfds: seq<Listener>, num: int, j: nat)
    requires j <= |lfds| && forall k | 0 <= k < j :: !ListensTo(fds, lfds[k], num)
    requires j < |lfds| ==> ListensTo(fds, lfds[j], num)
    ensures ListenerForFd(fds, lfds, num) ==
            if j == |lfds| then Lookup(lfds, None)
            else if fds[lfds[j].slot].active then Lookup(lfds, Some(j))
            else Lookup(lfds[j := lfds[j].(active := false)], None)
  {
    FirstIndexExactly(lfds, (lfd: Listener) => ListensTo(fds, lfd, num), j);
  }

  function EmptyListener(lfds: seq<Listener>): (r: Option<nat>)
    ensures r.Some? ==> r.value < |lfds| && !lfds[r.value].active && forall k | 0 <= k < r.value :: lfds[k].active
    ensures r.None? ==> forall k | 0 <= k < |lfds| :: lfds[k].active
  {
    FirstIndex(lfds, (lfd: Listener) => !lfd.active)
  }

  /** epoll_ctl on a registered epoll table, for the descriptor `num` in slot `i`. */
  function CtlTable(fds: seq<Fd>, lfds: seq<Listener>, op: CtlOp, num: int, i: nat, events: EventMask,
                    data: int): (r: (seq<Listener>, Outcome))
    ensures |r.0| == |lfds|
  {
    var look := ListenerForFd(fds, lfds, num);
    match op
    case CtlAdd =>
      if look.found.Some? then (look.lfds, Fail(-1, EEXIST))
      else (match EmptyListener(look.lfds)
        case None => (look.lfds, Fail(-1, ENOMEM))
        case Some(k) => (look.lfds[k := Listener(true, !IsEventSet(events, EPOLLET), events, data, i)], Ret(0)))
    case CtlMod =>
      if look.found.None? then (look.lfds, Fail(-1, ENOENT))
      else (lfds[look.found.value :=
                 Listener(true, !IsEventSet(events, EPOLLET), events, data, lfds[look.found.value].slot)], Ret(0))
    case CtlDel =>
      if look.found.None? then (look.lfds, Fail(-1, ENOENT))
      else (lfds[look.found.value := lfds[look.found.value].(active := false)], Ret(0))
    case CtlUnknown => (lfds, Fail(-1, EINVAL))
  }

  function DoEpollCtl(l: Local, epfd: int, op: CtlOp, num: int, events: EventMask, data: int): (Local, Outcome) {
    match FindPollfd(l, epfd)
    case None => (l, Fail(-1, EBADF))
    case Some(k) =>
      if num < FD_START then (l, Foreign)
      else match FindFd(l.fds, num)
        case None => (l, Fail(-1, EBADF))
        case Some(i) =>
          var t := CtlTable(l.fds, l.pollfds[k].lfds, op, num, i, events, data);
          (l.(pollfds := l.pollfds[k := l.pollfds[k].(lfds := t.0)]), t.1)
  }

  /** The state of a scan: shared memory, descriptors, the table scanned, and the entries written so far. */
  datatype Scan = Scan(shared: Shared, fds: seq<Fd>, lfds: seq<Listener>, log: seq<Report>, undefined: bool) {
    function PutOwn(r: Role, p: Ptr, events: EventMask, ltEvents: EventMask): Scan
      requires p in shared.conns
    {
      var c := shared.conns[p];
      this.(shared := shared.Put(p, c.WithOwn(r, c.Own(r).(events := events, ltEvents := ltEvents))))
    }
  }

  /** checkAndSetEvents: listener `j` on connection `p`, against `mask`. */
  function CheckAndSetEvents(s: Scan, r: Role, j: nat, p: Ptr, special: bool, mask: EventMask): (t: Scan)
    requires j < |s.lfds| && p in s.shared.conns
    ensures t.lfds == s.lfds
  {
    var own := s.shared.conns[p].Own(r);
    var lfd := s.lfds[j];
    if lfd.level then
      var lt := if special then own.ltEvents else LevelMask(s.shared.conns[p], r);
      var s' := s.PutOwn(r, p, own.events, lt);
      if IsEventSet(lt, mask) then s'.(log := s.log + [Report(j, p, false, lfd.data, Among(lt, mask))]) else s'
    else if IsEventSet(own.events, mask) then
      s.PutOwn(r, p, ClearEvent(own.events, mask),
               own.ltEvents).(log := s.log + [Report(j, p, true, lfd.data, Among(own.events, mask))])
    else s
  }

  /** The listening and connecting branches: raise EPOLLIN, then report it whatever was asked for. */
  function RaiseInput(s: Scan, r: Role, j: nat, p: Ptr): (t: Scan)
    requires j < |s.lfds| && p in s.shared.conns
    ensures t.lfds == s.lfds
  {
    var own := s.shared.conns[p].Own(r);
    CheckAndSetEvents(s.PutOwn(r, p, SetEvent(own.events, EPOLLIN), SetEvent(own.ltEvents, EPOLLIN)), r, j, p, true,
                      EPOLLIN)
  }

  function LowerInput(s: Scan, r: Role, p: Ptr): (t: Scan)
    requires p in s.shared.conns
    ensures t.lfds == s.lfds
  {
    var own := s.shared.conns[p].Own(r);
    s.PutOwn(r, p, own.events, ClearEvent(own.ltEvents, EPOLLIN))
  }

  /** connectEx(num, NULL, 0) as called from inside a scan. */
  function CompleteConnect(s: Scan, num: int): (t: Scan)
    ensures t.lfds == s.lfds && t.shared == s.shared && t.log == s.log
  {
    match FindFd(s.fds, num)
    case None => s
    case Some(i) =>
      var fd := s.fds[i];
      if fd.state == SCreated then s.(undefined := true)
      else if fd.state != SConnecting then s
      else match Deref(s.shared, fd.pConn)
        case None => s.(undefined := true)
        case Some(c) => if c.connState == COpen then s.(fds := s.fds[i := fd.(state := SOpen)]) else s
  }

  /** One iteration of the scan loop, for listener `j`. */
  function Visit(s: Scan, r: Role, interfaces: seq<Option<nat>>, j: nat): (t: Scan)
    requires j < |s.lfds|
    ensures |t.lfds| == |s.lfds|
  {
    var lfd := s.lfds[j];
    if !lfd.active then s
    else if lfd.slot >= |s.fds| then s.(undefined := true)
    else if !s.fds[lfd.slot].active then s.(lfds := s.lfds[j := lfd.(active := false)])
    else
      var fd := s.fds[lfd.slot];
      match Deref(s.shared, fd.pConn)
      case None => s.(undefined := true)
      case Some(c) =>
        var p := fd.pConn.value;
        if fd.state == SListen then
          if SearchOnAnyIface(s.shared, r, interfaces, fd.listenAddress, fd.listenPort).Some? then
            RaiseInput(s, r, j, p)
          else LowerInput(s, r, p)
        else if fd.state == SConnecting then
          if c.connState == COpen then CompleteConnect(RaiseInput(s, r, j, p), fd.num)
          else LowerInput(s, r, p)
        else CheckAndSetEvents(s, r, j, p, false, lfd.events)
  }

  /** The scan loop from listener `j` on; it stops when `maxevents` entries have been written. */
  function ScanFrom(s: Scan, r: Role, interfaces: seq<Option<nat>>, j: nat, maxevents: int): Scan
    decreases |s.lfds| - j
  {
    if j >= |s.lfds| || |s.log| >= maxevents || s.undefined then s
    else ScanFrom(Visit(s, r, interfaces, j), r, interfaces, j + 1, maxevents)
  }

  function StartScan(sh: Shared, l: Local, k: nat): Scan
    requires k < |l.pollfds|
  {
    Scan(sh, l.fds, l.pollfds[k].lfds, [], false)
  }

  /** One pass of epoll_pwait over the whole table. */
  function DoScan(r: Role, sh: Shared, l: Local, epfd: int, maxevents: int): Effect {
    match FindPollfd(l, epfd)
    case None => Effect(sh, l, Fail(-1, EBADF))
    case Some(k) =>
      var s := ScanFrom(StartScan(sh, l, k), r, l.interfaces, 0, maxevents);
      if s.undefined then Effect(sh, l, Undefined)
      else Effect(s.shared, l.(fds := s.fds, pollfds := l.pollfds[k := l.pollfds[k].(lfds := s.lfds)]), Events(s.log))
  }
}
