/** event.c in place: the epoll tables of a process, the scan loop, epoll_pwait and poll. */
module Events {
  import opened Basics
  import opened Connections
  import opened Descriptors
  import opened Readiness
  import opened Duplex
  import opened Scanning
  import opened SharedRegion
  import opened Sockets
  import opened Waiting
  import opened Polling

  /** One entry of the caller's array. */
  datatype EpollEvent = EpollEvent(events: EventMask, data: int)

  /** What a log of reports leaves in the caller's array. */
  function Written(log: seq<Report>): (events: seq<EpollEvent>)
    ensures |events| == |log|
  {
    seq(|log|, i requires 0 <= i < |log| => EpollEvent(log[i].events, log[i].data))
  }

  lemma WrittenAppend(log: seq<Report>, e: Report)
    ensures Written(log + [e]) == Written(log) + [EpollEvent(e.events, e.data)]
  {
  }

  // ---------- tables ----------

  method EpollCreate1(p: Process) returns (out: Outcome)
    modifies p.pollfds, p`randomPollFd
    ensures (p.View(), out) == DoEpollCreate(old(p.View()))
  {
    if p.randomPollFd >= SYSTEM_MAX_FD {
      return Fail(-1, ENFILE);
    }
    var i := 0;
    while i < p.pollfds.Length
      invariant 0 <= i <= p.pollfds.Length
      invariant forall k | 0 <= k < i :: p.pollfds[..][k].active
    {
      if !p.pollfds[i].active {
        p.pollfds[i] := p.pollfds[i].(active := true);
        p.pollfds[i] := p.pollfds[i].(num := p.randomPollFd);
        p.randomPollFd := p.randomPollFd + 1;
        assert p.pollfds[..] == DoEpollCreate(old(p.View())).0.pollfds;
        return Ret(p.randomPollFd - 1);
      }
      i := i + 1;
    }
    return Fail(-1, ENOMEM);
  }

  /** Finds the registration of `num`; one whose descriptor is closed is dropped instead. */
  method GetListenerForFd(p: Process, k: nat, num: int) returns (found: Option<nat>)
    requires k < p.pollfds.Length
    requires forall j | 0 <= j < |p.pollfds[k].lfds| && p.pollfds[k].lfds[j].active ::
               p.pollfds[k].lfds[j].slot < p.fds.Length
    modifies p.pollfds
    ensures var look := ListenerForFd(p.fds[..], old(p.pollfds[k]).lfds, num);
            found == look.found && p.pollfds[..] == old(p.pollfds[..])[k := old(p.pollfds[k]).(lfds := look.lfds)]
  {
    ghost var lfds := p.pollfds[k].lfds;
    ghost var fds := p.fds[..];
    var i := 0;
    while i < |p.pollfds[k].lfds|
      invariant 0 <= i <= |lfds| && p.pollfds[..] == old(p.pollfds[..])
      invariant forall j | 0 <= j < i :: !ListensTo(fds, lfds[j], num)
    {
      var lfd := p.pollfds[k].lfds[i];
      if lfd.active && p.fds[lfd.slot].num == num {
        assert FirstIndex(lfds, (x: Listener) => ListensTo(fds, x, num)) == Some(i);
        if p.fds[lfd.slot].active {
          return Some(i);
        } else {
          p.DeleteListener(k, i);
          return None;
        }
      }
      i := i + 1;
    }
    return None;
  }

  /** Active registrations point into the descriptor table. */
  ghost predicate SlotsInRange(pollfds: seq<EpollFd>, n: nat) {
    forall k, j | 0 <= k < |pollfds| && 0 <= j < |pollfds[k].lfds| && pollfds[k].lfds[j].active ::
      pollfds[k].lfds[j].slot < n
  }

  lemma RangeAt(pollfds: seq<EpollFd>, n: nat, k: nat)
    requires SlotsInRange(pollfds, n) && k < |pollfds|
    ensures forall j | 0 <= j < |pollfds[k].lfds| && pollfds[k].lfds[j].active :: pollfds[k].lfds[j].slot < n
  {
  }

  lemma CtlKeepsRange(fds: seq<Fd>, pollfds: seq<EpollFd>, k: nat, op: CtlOp, num: int, i: nat, events: EventMask,
                      data: int)
    requires SlotsInRange(pollfds, |fds|) && k < |pollfds| && i < |fds|
    ensures SlotsInRange(pollfds[k := pollfds[k].(lfds := CtlTable(fds, pollfds[k].lfds, op, num, i, events, data).0)],
                         |fds|)
  {
    hide IsEventSet;
    var t := CtlTable(fds, pollfds[k].lfds, op, num, i, events, data).0;
    RangeAt(pollfds, |fds|, k);
    assert forall j | 0 <= j < |t| && t[j].active :: t[j].slot < |fds|;
  }

  method GetEmptyListener(p: Process, k: nat) returns (free: Option<nat>)
    requires k < p.pollfds.Length
    ensures free == EmptyListener(p.pollfds[k].lfds)
  {
    var i := 0;
    while i < |p.pollfds[k].lfds|
      invariant 0 <= i <= |p.pollfds[k].lfds|
      invariant forall j | 0 <= j < i :: p.pollfds[k].lfds[j].active
    {
      if !p.pollfds[k].lfds[i].active {
        return Some(i);
      }
      i := i + 1;
    }
    return None;
  }

  method SetListener(p: Process, k: nat, j: nat, lfd: Listener)
    requires k < p.pollfds.Length && j < |p.pollfds[k].lfds|
    modifies p.pollfds
    ensures p.pollfds[..] == old(p.pollfds[..])[k := old(p.pollfds[k]).(lfds := old(p.pollfds[k]).lfds[j := lfd])]
  {
    p.pollfds[k] := p.pollfds[k].(lfds := p.pollfds[k].lfds[j := lfd]);
  }

  /** epoll_ctl; descriptors below 700 go to the kernel. */
  method EpollCtl(p: Process, epfd: int, op: CtlOp, num: int, events: EventMask, data: int) returns (out: Outcome)
    requires SlotsInRange(p.pollfds[..], p.fds.Length)
    modifies p.pollfds
    ensures SlotsInRange(p.pollfds[..], p.fds.Length)
    ensures (p.View(), out) == DoEpollCtl(old(p.View()), epfd, op, num, events, data)
  {
    hide SlotsInRange, IsEventSet;
    ghost var l := p.View();
    var found := p.GetPollfdByNum(epfd);
    var slot := p.GetFdByNum(num);
    if found.None? {
      return Fail(-1, EBADF);
    }
    if num < FD_START {
      return Foreign;
    }
    if slot.None? {
      return Fail(-1, EBADF);
    }
    var k := found.value;
    RangeAt(p.pollfds[..], p.fds.Length, k);
    CtlKeepsRange(l.fds, l.pollfds, k, op, num, slot.value, events, data);
    if op == CtlUnknown {
      assert p.pollfds[..][k := p.pollfds[k].(lfds := p.pollfds[k].lfds)] == p.pollfds[..];
      return Fail(-1, EINVAL);
    }
    var lfd := GetListenerForFd(p, k, num);
    var level := !IsEventSet(events, EPOLLET);
    match op {
    case CtlAdd =>
      if lfd.Some? {
        out := Fail(-1, EEXIST);
      } else {
        var free := GetEmptyListener(p, k);
        if free.None? {
          out := Fail(-1, ENOMEM);
        } else {
          SetListener(p, k, free.value, Listener(true, level, events, data, slot.value));
          out := Ret(0);
        }
      }
    case CtlMod =>
      if lfd.None? {
        out := Fail(-1, ENOENT);
      } else {
        SetListener(p, k, lfd.value, Listener(true, level, events, data, p.pollfds[k].lfds[lfd.value].slot));
        out := Ret(0);
      }
    case CtlDel =>
      if lfd.None? {
        out := Fail(-1, ENOENT);
      } else {
        p.DeleteListener(k, lfd.value);
        out := Ret(0);
      }
    case CtlUnknown => assert false;
    }
    ghost var t := CtlTable(l.fds, l.pollfds[k].lfds, op, num, slot.value, events, data);
    assert out == t.1;
    assert p.pollfds[..] == l.pollfds[k := l.pollfds[k].(lfds := t.0)];
    assert p.View() == l.(pollfds := p.pollfds[..]);
  }

  // ---------- the scan ----------

  /** The scan state that the process is in, with `log` written so far. */
  ghost function Now(p: Process, k: nat, log: seq<Report>): Scan
    requires k < p.pollfds.Length
    reads p, p.mem, p.fds, p.pollfds
  {
    Scan(p.mem.View(), p.fds[..], p.pollfds[k].lfds, log, false)
  }

  /** Sets the role's own masks on a record. */
  method SetMasks(p: Process, q: Ptr, events: EventMask, ltEvents: EventMask)
    requires q in p.mem.conns
    modifies p.mem`conns
    ensures var conns := old(p.mem.conns);
            var own := conns[q].Own(p.role).(events := events, ltEvents := ltEvents);
            p.mem.conns == conns[q := conns[q].WithOwn(p.role, own)]
  {
    var c := p.mem.conns[q];
    p.mem.conns := p.mem.conns[q := c.WithOwn(p.role, c.Own(p.role).(events := events, ltEvents := ltEvents))];
  }

  /** Writes one entry to the caller's array. */
  method WriteEvent(events: array<EpollEvent>, n: nat, ghost log: seq<Report>, mask: EventMask, data: int,
                    ghost e: Report)
    requires n == |log| < events.Length && events[..n] == Written(log) && e.events == mask && e.data == data
    modifies events
    ensures events[..n + 1] == Written(log + [e])
  {
    events[n] := EpollEvent(mask, data);
    WrittenAppend(log, e);
  }

  /** checkAndSetEvents: writes an entry at position `n` of `events` if listener `j` is ready. */
  method CheckAndSet(p: Process, k: nat, j: nat, q: Ptr, special: bool, mask: EventMask,
                     events: array<EpollEvent>, n: nat, ghost log: seq<Report>)
    returns (n': nat, ghost log': seq<Report>)
    requires k < p.pollfds.Length && j < |p.pollfds[k].lfds| && q in p.mem.conns
    requires n == |log| < events.Length && events[..n] == Written(log)
    modifies p.mem`conns, events
    ensures var t := CheckAndSetEvents(old(Now(p, k, log)), p.role, j, q, special, mask);
            Now(p, k, log') == t && log' == t.log && !t.undefined
    ensures n' == |log'| <= n + 1 && events[..n'] == Written(log')
  {
    if p.pollfds[k].lfds[j].level {
      n', log' := CheckLevel(p, k, j, q, special, mask, events, n, log);
    } else {
      n', log' := CheckEdge(p, k, j, q, special, mask, events, n, log);
    }
  }

  method CheckLevel(p: Process, k: nat, j: nat, q: Ptr, special: bool, mask: EventMask,
                    events: array<EpollEvent>, n: nat, ghost log: seq<Report>)
    returns (n': nat, ghost log': seq<Report>)
    requires k < p.pollfds.Length && j < |p.pollfds[k].lfds| && q in p.mem.conns && p.pollfds[k].lfds[j].level
    requires n == |log| < events.Length && events[..n] == Written(log)
    modifies p.mem`conns, events
    ensures var t := CheckAndSetEvents(old(Now(p, k, log)), p.role, j, q, special, mask);
            Now(p, k, log') == t && log' == t.log
    ensures n' == |log'| <= n + 1 && events[..n'] == Written(log')
  {
    hide SetEvent, ClearEvent, Among, IsEventSet, LevelMask, Written;
    n', log' := n, log;
    SameRecord(p.mem.View(), p.role, q);
    if !special {
      p.mem.SetLevelTriggeredEvents(p.role, q);
    }
    ghost var own := old(p.mem.conns)[q].Own(p.role);
    assert p.mem.View() == old(Now(p, k, log)).PutOwn(p.role, q, own.events,
      if special then own.ltEvents else LevelMask(old(p.mem.conns)[q], p.role)).shared;
    var lfd := p.pollfds[k].lfds[j];
    var lt := p.mem.conns[q].Own(p.role).ltEvents;
    if IsEventSet(lt, mask) {
      ghost var e := Report(j, q, false, lfd.data, Among(lt, mask));
      WriteEvent(events, n, log, Among(lt, mask), lfd.data, e);
      n', log' := n + 1, log + [e];
    }
  }

  method CheckEdge(p: Process, k: nat, j: nat, q: Ptr, special: bool, mask: EventMask,
                   events: array<EpollEvent>, n: nat, ghost log: seq<Report>)
    returns (n': nat, ghost log': seq<Report>)
    requires k < p.pollfds.Length && j < |p.pollfds[k].lfds| && q in p.mem.conns && !p.pollfds[k].lfds[j].level
    requires n == |log| < events.Length && events[..n] == Written(log)
    modifies p.mem`conns, events
    ensures var t := CheckAndSetEvents(old(Now(p, k, log)), p.role, j, q, special, mask);
            Now(p, k, log') == t && log' == t.log
    ensures n' == |log'| <= n + 1 && events[..n'] == Written(log')
  {
    hide SetEvent, ClearEvent, Among, IsEventSet, LevelMask;
    n', log' := n, log;
    var lfd := p.pollfds[k].lfds[j];
    var own := p.mem.conns[q].Own(p.role);
    if IsEventSet(own.events, mask) {
      ghost var e := Report(j, q, true, lfd.data, Among(own.events, mask));
      WriteEvent(events, n, log, Among(own.events, mask), lfd.data, e);
      n', log' := n + 1, log + [e];
      SetMasks(p, q, ClearEvent(own.events, mask), own.ltEvents);
    }
  }

  /** Rewriting the own masks of a record with themselves changes nothing. */
  lemma SameRecord(sh: Shared, r: Role, q: Ptr)
    requires q in sh.conns
    ensures var c := sh.conns[q]; c.WithOwn(r, c.Own(r).(events := c.Own(r).events, ltEvents := c.Own(r).ltEvents)) == c
    ensures sh.Put(q, sh.conns[q]) == sh
  {
    assert sh.conns[q := sh.conns[q]] == sh.conns;
  }

  /** connectEx(num, NULL, 0) from inside the scan. */
  method Complete(p: Process, k: nat, num: int, ghost log: seq<Report>)
    requires k < p.pollfds.Length && !CompleteConnect(Now(p, k, log), num).undefined
    modifies p.fds, p.mem
    ensures Now(p, k, log) == CompleteConnect(old(Now(p, k, log)), num)
  {
    var slot := p.GetFdByNum(num);
    if slot.Some? && p.fds[slot.value].state == SConnecting {
      var out, sleeps := p.AwaitAccept(slot.value, [], Call.ConnectEx(num, 0, 0, 0));
    }
  }

  lemma VisitKeepsWiring(s: Scan, r: Role, interfaces: seq<Option<nat>>, j: nat)
    requires j < |s.lfds| && ListsPoint(s.shared) && TableInRange(s.shared, interfaces)
    ensures ListsPoint(Visit(s, r, interfaces, j).shared) && TableInRange(Visit(s, r, interfaces, j).shared, interfaces)
  {
    hide Visit;
    VisitFrame(s, r, interfaces, j);
  }

  /** RaiseInput in place, for the listening and connecting branches. */
  method RaiseAndCheck(p: Process, k: nat, j: nat, q: Ptr, events: array<EpollEvent>, n: nat, ghost log: seq<Report>)
    returns (n': nat, ghost log': seq<Report>)
    requires k < p.pollfds.Length && j < |p.pollfds[k].lfds| && q in p.mem.conns
    requires n == |log| < events.Length && events[..n] == Written(log)
    modifies p.mem`conns, events
    ensures Now(p, k, log') == RaiseInput(old(Now(p, k, log)), p.role, j, q)
    ensures n' == |log'| <= n + 1 && events[..n'] == Written(log')
  {
    hide SetEvent, CheckAndSetEvents, Written;
    var own := p.mem.conns[q].Own(p.role);
    SetMasks(p, q, SetEvent(own.events, EPOLLIN), SetEvent(own.ltEvents, EPOLLIN));
    n', log' := CheckAndSet(p, k, j, q, true, EPOLLIN, events, n, log);
  }

  method Lower(p: Process, k: nat, q: Ptr, ghost log: seq<Report>)
    requires k < p.pollfds.Length && q in p.mem.conns
    modifies p.mem`conns
    ensures Now(p, k, log) == LowerInput(old(Now(p, k, log)), p.role, q)
  {
    hide ClearEvent;
    var own := p.mem.conns[q].Own(p.role);
    SetMasks(p, q, own.events, ClearEvent(own.ltEvents, EPOLLIN));
  }

  /** One iteration of the scan loop. */
  method VisitListener(p: Process, k: nat, j: nat, events: array<EpollEvent>, n: nat, ghost log: seq<Report>)
    returns (n': nat, ghost log': seq<Report>)
    requires p.Valid() && k < p.pollfds.Length && j < |p.pollfds[k].lfds|
    requires n == |log| < events.Length && events[..n] == Written(log)
    requires !Visit(Now(p, k, log), p.role, p.interfaces[..], j).undefined
    modifies p.mem, p.fds, p.pollfds, events
    ensures Now(p, k, log') == Visit(old(Now(p, k, log)), p.role, p.interfaces[..], j)
    ensures n' == |log'| <= n + 1 && events[..n'] == Written(log')
    ensures p.View() == WithTable(old(p.View()), k, p.pollfds[k].lfds).(fds := p.fds[..])
    ensures p.Valid()
  {
    hide PickOnTable, CheckAndSetEvents, RaiseInput, LowerInput, CompleteConnect, Written;
    ghost var s := Now(p, k, log);
    VisitKeepsWiring(s, p.role, p.interfaces[..], j);
    n', log' := n, log;
    var lfd := p.pollfds[k].lfds[j];
    if lfd.active {
      if !p.fds[lfd.slot].active {
        p.DeleteListener(k, j);
      } else {
        SameTable(p.View(), k);
        var fd := p.fds[lfd.slot];
        var q := fd.pConn.value;
        if fd.state == SListen {
          var pending := p.mem.SearchNewConnectionOnAnyIface(p.role, p.interfaces, fd.listenAddress, fd.listenPort);
          if pending.Some? {
            n', log' := RaiseAndCheck(p, k, j, q, events, n, log);
          } else {
            Lower(p, k, q, log);
          }
        } else if fd.state == SConnecting {
          if p.mem.conns[q].connState == COpen {
            n', log' := RaiseAndCheck(p, k, j, q, events, n, log);
            Complete(p, k, fd.num, log');
          } else {
            Lower(p, k, q, log);
          }
        } else {
          n', log' := CheckAndSet(p, k, j, q, false, lfd.events, events, n, log);
        }
      }
    } else {
      SameTable(p.View(), k);
    }
  }

  /** The scan loop over table `k`: fills `events` up to `maxevents` entries. */
  method ScanTable(p: Process, k: nat, events: array<EpollEvent>, maxevents: int)
    returns (n: nat, ghost log: seq<Report>)
    requires p.Valid() && k < p.pollfds.Length && maxevents <= events.Length &&
             SlotsInRange(p.pollfds[..], p.fds.Length)
    requires !ScanFrom(Now(p, k, []), p.role, p.interfaces[..], 0, maxevents).undefined
    modifies p.mem, p.fds, p.pollfds, events
    ensures Now(p, k, log) == ScanFrom(old(Now(p, k, [])), p.role, p.interfaces[..], 0, maxevents)
    ensures n == |log| <= events.Length && events[..n] == Written(log)
    ensures p.View() == WithTable(old(p.View()), k, p.pollfds[k].lfds).(fds := p.fds[..])
    ensures p.Valid() && SlotsInRange(p.pollfds[..], p.fds.Length)
  {
    hide Visit;
    ghost var start := Now(p, k, []);
    n, log := 0, [];
    var j := 0;
    SameTable(p.View(), k);
    while j < |p.pollfds[k].lfds| && n < maxevents
      invariant p.Valid() && 0 <= j <= |p.pollfds[k].lfds| && n == |log| <= events.Length && events[..n] == Written(log)
      invariant ScanFrom(Now(p, k, log), p.role, p.interfaces[..], j, maxevents) ==
                  ScanFrom(start, p.role, p.interfaces[..], 0, maxevents)
      invariant p.View() == WithTable(old(p.View()), k, p.pollfds[k].lfds).(fds := p.fds[..])
      decreases |p.pollfds[k].lfds| - j
    {
      ghost var s := Now(p, k, log);
      ghost var t := Visit(s, p.role, p.interfaces[..], j);
      assert !t.undefined;
      ghost var table := p.pollfds[k].lfds;
      n, log := VisitListener(p, k, j, events, n, log);
      TableTwice(old(p.View()), k, table, p.pollfds[k].lfds);
      j := j + 1;
    }
    ScanFromFrame(start, p.role, p.interfaces[..], 0, maxevents);
    StillInRange(p, start, Now(p, k, log), old(p.pollfds[..]), k, p.role);
  }

  lemma StillInRange(p: Process, s: Scan, t: Scan, before: seq<EpollFd>, k: nat, r: Role)
    requires ScanFrame(r, s, t) && k < |before| && s.lfds == before[k].lfds
    requires p.pollfds[..] == before[k := before[k].(lfds := t.lfds)] && SlotsInRange(before, p.fds.Length)
    ensures SlotsInRange(p.pollfds[..], p.fds.Length)
  {
  }

  /** The return value of a call; `None` while it still sleeps, and for a call that goes to the kernel. */
  function Returned(out: Outcome): Option<int> {
    match out
    case Ret(v) => Some(v)
    case Fail(v, _) => Some(v)
    case Events(log) => Some(|log|)
    case _ => None
  }

  /** One pass over table `k`: the scan loop, as the pass of the specification. */
  method PassInPlace(p: Process, k: nat, epfd: int, events: array<EpollEvent>, maxevents: int) returns (n: nat)
    requires p.Valid() && FindPollfd(p.View(), epfd) == Some(k) && maxevents <= events.Length &&
             SlotsInRange(p.pollfds[..], p.fds.Length)
    requires DoScan(p.role, p.Memory(), p.View(), epfd, maxevents).out != Undefined
    modifies p.mem, p.fds, p.pollfds, events
    ensures var e := DoScan(p.role, old(p.Memory()), old(p.View()), epfd, maxevents);
            && p.Memory() == e.shared && p.View() == e.local && e.out.Events?
            && n == |e.out.log| <= events.Length && events[..n] == Written(e.out.log)
    ensures p.Valid() && FindPollfd(p.View(), epfd) == Some(k) && SlotsInRange(p.pollfds[..], p.fds.Length)
  {
    hide ScanFrom, SlotsInRange;
    ghost var log;
    n, log := ScanTable(p, k, events, maxevents);
    SamePollfd(old(p.View()), k, epfd, p.pollfds[k].lfds);
  }

  /** What is left of a call that must end like `w`, after `sleeps` sleeps. */
  ghost predicate Ends(p: Process, epfd: int, maxevents: int, timeout: int, schedule: seq<Shared>, sleeps: nat,
                       w: WaitResult)
    requires sleeps <= |schedule|
    reads p, p.mem, p.interfaces, p.fds, p.pollfds
  {
    WaitLoop(p.role, p.Memory(), p.View(), epfd, maxevents, timeout, schedule[sleeps..], sleeps) == w
  }

  /** The caller sees `w`. */
  ghost predicate Shows(p: Process, events: array<EpollEvent>, ret: Option<int>, scans: nat, sleeps: nat, w: WaitResult)
    reads p, p.mem, p.interfaces, p.fds, p.pollfds, events
  {
    && p.Memory() == w.effect.shared && p.View() == w.effect.local && ret == Returned(w.effect.out)
    && scans == w.scans && sleeps == w.sleeps
    && (w.effect.out.Events? ==>
        |w.effect.out.log| <= events.Length && events[..|w.effect.out.log|] == Written(w.effect.out.log))
  }

  /** A scan, then either the end of the call or a sleep. */
  method OneTurn(p: Process, k: nat, epfd: int, events: array<EpollEvent>, maxevents: int, timeout: int,
                 schedule: seq<Shared>,
                 sleeps: nat, elapsedSleep: nat, ghost w: WaitResult)
    returns (over: bool, ret: Option<int>, sleeps': nat)
    requires p.Valid() && FindPollfd(p.View(), epfd) == Some(k) && maxevents <= events.Length &&
             SlotsInRange(p.pollfds[..], p.fds.Length)
    requires p.WiredSchedule(schedule) && sleeps <= |schedule| && elapsedSleep == (if timeout == -1 then 0 else sleeps)
    requires Ends(p, epfd, maxevents, timeout, schedule, sleeps, w) && w.effect.out != Undefined
    modifies p.mem, p.fds, p.pollfds, events
    ensures SlotsInRange(p.pollfds[..], p.fds.Length)
    ensures over ==> Shows(p, events, ret, sleeps + 1, sleeps', w)
    ensures !over ==> p.Valid() && FindPollfd(p.View(), epfd) == Some(k) && sleeps' == sleeps + 1 <= |schedule| &&
                      Ends(p, epfd, maxevents, timeout, schedule, sleeps', w)
  {
    hide DoScan, FindPollfd, SlotsInRange, Written, WaitLoop, ListsPoint, TableInRange;
    ghost var e := DoScan(p.role, p.Memory(), p.View(), epfd, maxevents);
    if e.out == Outcome.Events([]) {
      LoopTurns(p.role, p.Memory(), p.View(), epfd, maxevents, timeout, schedule[sleeps..], sleeps);
    } else {
      LoopEnds(p.role, p.Memory(), p.View(), epfd, maxevents, timeout, schedule[sleeps..], sleeps);
    }
    var eventsReturned := PassInPlace(p, k, epfd, events, maxevents);
    if eventsReturned > 0 {
      return true, Some(eventsReturned), sleeps;
    }
    if timeout != -1 && elapsedSleep * SLEEP_DURATION > timeout * 1000 {
      return true, Some(0), sleeps;
    }
    if sleeps == |schedule| {
      return true, None, sleeps + 1;
    }
    assert schedule[sleeps..][0] == schedule[sleeps] && schedule[sleeps..][1..] == schedule[sleeps + 1..];
    SleepOn(p, schedule, sleeps);
    return false, None, sleeps + 1;
  }

  /** Sleeps; the peer leaves `schedule[i]` behind. */
  method SleepOn(p: Process, schedule: seq<Shared>, i: nat)
    requires i < |schedule| && p.WiredSchedule(schedule)
    modifies p.mem
    ensures p.Memory() == schedule[i] && p.View() == old(p.View()) && p.Valid()
  {
    p.mem.Sleep(schedule[i]);
  }

  /** epoll_pwait on a table of sockets. */
  method EpollPwaitInPlace(p: Process, epfd: int, events: array<EpollEvent>, maxevents: int, timeout: int,
                           schedule: seq<Shared>)
    returns (ret: Option<int>, scans: nat, sleeps: nat)
    requires p.Valid() && p.WiredSchedule(schedule) && maxevents <= events.Length &&
             SlotsInRange(p.pollfds[..], p.fds.Length)
    requires EpollPwait(p.role, p.Memory(), p.View(), epfd, maxevents, timeout, schedule).effect.out != Undefined
    modifies p.mem, p.fds, p.pollfds, events
    ensures Shows(p, events, ret, scans, sleeps,
                  EpollPwait(p.role, old(p.Memory()), old(p.View()), epfd, maxevents, timeout, schedule))
    ensures SlotsInRange(p.pollfds[..], p.fds.Length)
  {
    scans, sleeps := 0, 0;
    var found := p.GetPollfdByNum(epfd);
    if found.None? {
      return Some(-1), 1, 0;
    }
    hide DoScan, FindPollfd, SlotsInRange, Written, WaitLoop, ListsPoint, TableInRange, Shows;
    ghost var w := EpollPwait(p.role, p.Memory(), p.View(), epfd, maxevents, timeout, schedule);
    var k := found.value;
    var elapsedSleep := 0;
    assert schedule[0..] == schedule;
    while true
      invariant p.Valid() && 0 <= sleeps == scans <= |schedule| && elapsedSleep == (if timeout == -1 then 0 else sleeps)
      invariant FindPollfd(p.View(), epfd) == Some(k) && SlotsInRange(p.pollfds[..], p.fds.Length)
      invariant Ends(p, epfd, maxevents, timeout, schedule, sleeps, w)
      decreases |schedule| - sleeps
    {
      var over, result, slept := OneTurn(p, k, epfd, events, maxevents, timeout, schedule, sleeps, elapsedSleep, w);
      scans := scans + 1;
      sleeps := slept;
      if over {
        return result, scans, sleeps;
      }
      if timeout != -1 {
        elapsedSleep := elapsedSleep + 1;
      }
    }
  }

  // ---------- poll ----------

  datatype PollFd = PollFd(fd: int, events: bv16, revents: bv16)

  /** The requests in a caller's array. */
  function Requests(fds: seq<PollFd>): (reqs: seq<PollReq>)
    ensures |reqs| == |fds|
  {
    seq(|fds|, i requires 0 <= i < |fds| => PollReq(fds[i].fd, fds[i].events))
  }

  function Revents(fds: seq<PollFd>): (revents: seq<bv16>)
    ensures |revents| == |fds|
  {
    seq(|fds|, i requires 0 <= i < |fds| => fds[i].revents)
  }

  /** The registration loop: each descriptor is added with its index as data. */
  method AddDescriptors(p: Process, fds: array<PollFd>, epollEvents: array<EpollEvent>) returns (out: Outcome)
    requires epollEvents.Length == fds.Length && SlotsInRange(p.pollfds[..], p.fds.Length)
    modifies p.pollfds, epollEvents
    ensures (p.View(), out) == AddAll(old(p.View()), p.pollEpfd, Requests(fds[..]), 0)
    ensures SlotsInRange(p.pollfds[..], p.fds.Length)
  {
    hide SignExtend, SlotsInRange;
    ghost var reqs := Requests(fds[..]);
    var i := 0;
    while i < fds.Length
      invariant 0 <= i <= fds.Length && SlotsInRange(p.pollfds[..], p.fds.Length)
      invariant AddAll(p.View(), p.pollEpfd, reqs, i) == AddAll(old(p.View()), p.pollEpfd, reqs, 0)
    {
      epollEvents[i] := EpollEvent(SignExtend(fds[i].events), i);
      out := EpollCtl(p, p.pollEpfd, CtlAdd, fds[i].fd, epollEvents[i].events, epollEvents[i].data);
      if out != Ret(0) {
        return;
      }
      i := i + 1;
    }
    out := Ret(0);
  }

  method DeleteDescriptors(p: Process, fds: array<PollFd>) returns (out: Outcome)
    requires SlotsInRange(p.pollfds[..], p.fds.Length)
    modifies p.pollfds
    ensures (p.View(), out) == DeleteAll(old(p.View()), p.pollEpfd, Requests(fds[..]), 0)
  {
    hide SlotsInRange;
    ghost var reqs := Requests(fds[..]);
    var i := 0;
    while i < fds.Length
      invariant 0 <= i <= fds.Length && SlotsInRange(p.pollfds[..], p.fds.Length)
      invariant DeleteAll(p.View(), p.pollEpfd, reqs, i) == DeleteAll(old(p.View()), p.pollEpfd, reqs, 0)
    {
      out := EpollCtl(p, p.pollEpfd, CtlDel, fds[i].fd, 0, 0);
      if out != Ret(0) {
        return;
      }
      i := i + 1;
    }
    out := Ret(0);
  }

  /** Clears all `revents`, then copies the reported events to the entries they name. */
  method CopyEvents(fds: array<PollFd>, epollEvents: array<EpollEvent>, n: nat, ghost log: seq<Report>)
    requires n == |log| <= epollEvents.Length && epollEvents[..n] == Written(log)
    requires Assign(Zeros(fds.Length), log).Some?
    modifies fds
    ensures Requests(fds[..]) == Requests(old(fds[..])) && Assign(Zeros(fds.Length), log) == Some(Revents(fds[..]))
  {
    hide Truncate;
    var i := 0;
    while i < fds.Length
      invariant 0 <= i <= fds.Length && Requests(fds[..]) == Requests(old(fds[..]))
      invariant forall j | 0 <= j < i :: fds[j].revents == 0
    {
      fds[i] := fds[i].(revents := 0);
      i := i + 1;
    }
    assert Revents(fds[..]) == Zeros(fds.Length);
    i := 0;
    while i < n
      invariant 0 <= i <= n && Requests(fds[..]) == Requests(old(fds[..]))
      invariant Assign(Revents(fds[..]), log[i..]) == Assign(Zeros(fds.Length), log)
    {
      assert log[i..][0] == log[i] && log[i..][1..] == log[i + 1..];
      assert epollEvents[i] == epollEvents[..n][i];
      var k := epollEvents[i].data;
      ghost var before := Revents(fds[..]);
      fds[k] := fds[k].(revents := Truncate(epollEvents[i].events));
      assert Revents(fds[..]) == before[k := Truncate(log[i].events)];
      i := i + 1;
    }
    assert log[n..] == [];
  }

  /** poll, with the one internal table that all its calls share. */
  method Poll(p: Process, fds: array<PollFd>, timeout: int, schedule: seq<Shared>) returns (ret: Option<int>)
    requires p.Valid() && p.WiredSchedule(schedule) && SlotsInRange(p.pollfds[..], p.fds.Length)
    requires DoPoll(p.role, p.Memory(), p.View(), Requests(fds[..]), timeout, schedule).effect.out != Undefined
    modifies p.mem, p.fds, p.pollfds, p`randomPollFd, p`pollEpfd, fds
    ensures var res := DoPoll(p.role, old(p.Memory()), old(p.View()), Requests(old(fds[..])), timeout, schedule);
            && p.Memory() == res.effect.shared && p.View() == res.effect.local && ret == Returned(res.effect.out)
            && Requests(fds[..]) == Requests(old(fds[..]))
            && (res.revents != [] ==> Revents(fds[..]) == res.revents)
  {
    hide SlotsInRange, AddAll, DeleteAll, WaitLoop, Assign, DoEpollCreate;
    if p.pollEpfd == -1 {
      var created := EpollCreate1(p);
      CreateKeepsRange(old(p.View()), p.fds.Length);
      if !created.Ret? {
        return Some(-1);
      }
      p.pollEpfd := created.value;
    }
    ret := PollTable(p, fds, timeout, schedule);
  }

  lemma CreateKeepsRange(l: Local, n: nat)
    requires SlotsInRange(l.pollfds, n)
    ensures SlotsInRange(DoEpollCreate(l).0.pollfds, n)
    ensures var out := DoEpollCreate(l).1; out.Ret? || (out.Fail? && out.ret == -1)
  {
  }

  method PollTable(p: Process, fds: array<PollFd>, timeout: int, schedule: seq<Shared>) returns (ret: Option<int>)
    requires p.Valid() && p.WiredSchedule(schedule) && SlotsInRange(p.pollfds[..], p.fds.Length)
    requires PollOn(p.role, p.Memory(), p.View(), p.pollEpfd, Requests(fds[..]), timeout, schedule).effect.out !=
               Undefined
    modifies p.mem, p.fds, p.pollfds, fds
    ensures var res := PollOn(p.role, old(p.Memory()), old(p.View()), p.pollEpfd, Requests(old(fds[..])), timeout,
                              schedule);
            && p.Memory() == res.effect.shared && p.View() == res.effect.local && ret == Returned(res.effect.out)
            && Requests(fds[..]) == Requests(old(fds[..]))
            && (res.revents != [] ==> Revents(fds[..]) == res.revents)
  {
    hide SlotsInRange, WaitLoop, AddAll, PollEnd;
    var epollEvents := new EpollEvent[fds.Length](_ => EpollEvent(0, 0));
    ghost var reqs := Requests(fds[..]);
    ghost var before := p.View();
    var added := AddDescriptors(p, fds, epollEvents);
    AddFails(before, p.pollEpfd, reqs, 0);
    if added == Foreign {
      return None;
    }
    if added != Ret(0) {
      return Some(-1);
    }
    ghost var w := EpollPwait(p.role, p.Memory(), p.View(), p.pollEpfd, |reqs|, timeout, schedule);
    assert w.effect.out != Undefined by { EndUndefined(w, p.pollEpfd, reqs); }
    WaitOutcome(p.role, p.Memory(), p.View(), p.pollEpfd, |reqs|, timeout, schedule, 0);
    var n, scans, sleeps := EpollPwaitInPlace(p, p.pollEpfd, epollEvents, fds.Length, timeout, schedule);
    EndBlocked(w, p.pollEpfd, reqs);
    if n.None? {
      return None;
    }
    ret := FinishPoll(p, fds, epollEvents, n.value, w);
  }

  lemma EndUndefined(w: WaitResult, epfd: int, reqs: seq<PollReq>)
    ensures w.effect.out == Undefined ==> PollEnd(w, epfd, reqs).effect.out == Undefined
  {
  }

  lemma EndBlocked(w: WaitResult, epfd: int, reqs: seq<PollReq>)
    ensures w.effect.out == Blocked ==> PollEnd(w, epfd, reqs) == PollResult(w.effect, [], w.last)
  {
  }

  /** After the wait: results, then deregistration. */
  method FinishPoll(p: Process, fds: array<PollFd>, epollEvents: array<EpollEvent>, n: int, ghost w: WaitResult)
    returns (ret: Option<int>)
    requires SlotsInRange(p.pollfds[..], p.fds.Length)
    requires p.Memory() == w.effect.shared && p.View() == w.effect.local && Returned(w.effect.out) == Some(n)
    requires w.effect.out == Ret(0) || w.effect.out == Fail(-1, EBADF) || w.effect.out.Events?
    requires w.effect.out.Events? ==> n <= epollEvents.Length && epollEvents[..n] == Written(w.effect.out.log)
    requires PollEnd(w, p.pollEpfd, Requests(fds[..])).effect.out != Undefined
    modifies p.pollfds, fds
    ensures var res := PollEnd(w, p.pollEpfd, Requests(old(fds[..])));
            && p.Memory() == res.effect.shared && p.View() == res.effect.local && ret == Returned(res.effect.out)
            && Requests(fds[..]) == Requests(old(fds[..])) && Revents(fds[..]) == res.revents
  {
    hide SlotsInRange, DeleteAll, Assign, Written;
    ghost var reqs := Requests(fds[..]);
    ghost var log := if w.effect.out.Events? then w.effect.out.log else [];
    assert log == [] ==> Written(log) == epollEvents[..0];
    CopyEvents(fds, epollEvents, if n < 0 then 0 else n, log);
    var deleted := DeleteDescriptors(p, fds);
    DeleteFails(w.effect.local, p.pollEpfd, reqs, 0);
    if deleted == Foreign {
      return None;
    }
    if deleted != Ret(0) {
      return Some(-1);
    }
    return Some(n);
  }

  lemma CtlFails(l: Local, epfd: int, op: CtlOp, num: int, events: EventMask, data: int)
    ensures var out := DoEpollCtl(l, epfd, op, num, events, data).1;
            out == Ret(0) || out == Foreign || (out.Fail? && out.ret == -1)
  {
  }

  lemma {:induction false} AddFails(l: Local, epfd: int, reqs: seq<PollReq>, i: nat)
    ensures var out := AddAll(l, epfd, reqs, i).1; out == Ret(0) || out == Foreign || (out.Fail? && out.ret == -1)
    decreases |reqs| - i
  {
    hide DoEpollCtl, SignExtend;
    if i < |reqs| {
      CtlFails(l, epfd, CtlAdd, reqs[i].fd, SignExtend(reqs[i].events), i);
      AddFails(DoEpollCtl(l, epfd, CtlAdd, reqs[i].fd, SignExtend(reqs[i].events), i).0, epfd, reqs, i + 1);
    }
  }

  lemma {:induction false} DeleteFails(l: Local, epfd: int, reqs: seq<PollReq>, i: nat)
    ensures var out := DeleteAll(l, epfd, reqs, i).1; out == Ret(0) || out == Foreign || (out.Fail? && out.ret == -1)
    decreases |reqs| - i
  {
    hide DoEpollCtl;
    if i < |reqs| {
      CtlFails(l, epfd, CtlDel, reqs[i].fd, 0, 0);
      DeleteFails(DoEpollCtl(l, epfd, CtlDel, reqs[i].fd, 0, 0).0, epfd, reqs, i + 1);
    }
  }

  lemma {:induction false} WaitOutcome(r: Role, sh: Shared, l: Local, epfd: int, maxevents: int, timeout: int,
                                       schedule: seq<Shared>, k: nat)
    ensures var out := WaitLoop(r, sh, l, epfd, maxevents, timeout, schedule, k).effect.out;
            out == Ret(0) || out == Blocked || out == Undefined || out == Fail(-1, EBADF) ||
              (out.Events? && out.log != [])
    decreases |schedule|
  {
    hide DoScan;
    ScanOutcome(r, sh, l, epfd, maxevents);
    if schedule != [] {
      WaitOutcome(r, schedule[0], DoScan(r, sh, l, epfd, maxevents).local, epfd, maxevents, timeout, schedule[1..],
                  k + 1);
    }
  }
}
