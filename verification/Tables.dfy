/** The life of an epoll table: created empty, open under its number until it is closed, and then gone for good. */
module Tables {
  import opened Basics
  import opened Connections
  import opened Descriptors
  import opened Readiness
  import opened Duplex
  import opened Reachability
  import opened Waiting
  import opened Polling
  import opened Names
  import opened RegistryRuns

  /** The tables of a process by number: what the open table `epfd` holds, or `None` if there is no such table. */
  function TableAt(l: Local, epfd: int): Option<seq<Listener>> {
    var k := FindPollfd(l, epfd);
    if k.None? then None else Some(l.pollfds[k.value].lfds)
  }

  ghost predicate OnlyTable(l: Local, l': Local, epfd: int) {
    l' == l.(pollfds := l'.pollfds, randomPollFd := l'.randomPollFd) &&
    forall e | e != epfd :: TableAt(l', e) == TableAt(l, e)
  }

  // ---------- what one call does ----------

  /** Entries other than `k` being the same, and `k` being of `epfd` before or after, all other tables are the same. */
  lemma OthersKept(l: Local, l': Local, k: nat, epfd: int)
    requires PollfdsOk(l) && PollfdsOk(l') && k < |l.pollfds| && l'.pollfds == l.pollfds[k := l'.pollfds[k]]
    requires l.pollfds[k].active ==> l.pollfds[k].num == epfd
    requires l'.pollfds[k].active ==> l'.pollfds[k].num == epfd
    ensures forall e | e != epfd :: TableAt(l', e) == TableAt(l, e)
    ensures TableAt(l', epfd) == if l'.pollfds[k].active then Some(l'.pollfds[k].lfds) else TableAt(l', epfd)
  {
    hide TableOk, NoneActive, FindPollfd;
    forall e | e != epfd ensures TableAt(l', e) == TableAt(l, e) {
      SameTableAt(l, l', k, e);
    }
    if l'.pollfds[k].active { TableFound(l', k); }
  }

  lemma SameTableAt(l: Local, l': Local, k: nat, e: int)
    requires PollfdsOk(l) && PollfdsOk(l') && k < |l.pollfds| && l'.pollfds == l.pollfds[k := l'.pollfds[k]]
    requires l.pollfds[k].active ==> l.pollfds[k].num != e
    requires l'.pollfds[k].active ==> l'.pollfds[k].num != e
    ensures TableAt(l', e) == TableAt(l, e)
  {
    hide TableOk, NoneActive;
    var f := FindPollfd(l, e);
    if f.Some? {
      assert l'.pollfds[f.value] == l.pollfds[f.value];
      TableFound(l', f.value);
    }
  }

  /**
   epoll_create1: each error exactly; otherwise the next number, which no table had, now names an open table
   without registrations, and nothing else has changed.
   */
  lemma CreateExactly(l: Local)
    requires PollfdsOk(l)
    ensures var e := DoEpollCreate(l);
            && (e.1 == Fail(-1, ENFILE) <==> l.randomPollFd >= SYSTEM_MAX_FD)
            && (e.1 == Fail(-1, ENOMEM) <==>
                l.randomPollFd < SYSTEM_MAX_FD && forall k | 0 <= k < |l.pollfds| :: l.pollfds[k].active)
            && (!e.1.Ret? ==> e.0 == l)
            && (e.1.Ret? ==>
                  && e.1.value == l.randomPollFd && TableAt(l, l.randomPollFd).None?
                  && TableAt(e.0, l.randomPollFd).Some? && EmptyTable(TableAt(e.0, l.randomPollFd).value)
                  && e.0.randomPollFd == l.randomPollFd + 1 && OnlyTable(l, e.0, l.randomPollFd))
  {
    var e := DoEpollCreate(l);
    var k := FirstIndex(l.pollfds, (e: EpollFd) => !e.active);
    if e.1.Ret? {
      OthersKept(l, e.0, k.value, l.randomPollFd);
      TableFound(e.0, k.value);
    }
  }

  lemma ClosingKeepsTables(l: Local, k: nat, epfd: int)
    requires PollfdsOk(l) && FindPollfd(l, epfd) == Some(k)
    ensures var e := l.pollfds[k];
            var l' := l.(pollfds := l.pollfds[k := e.(active := false, lfds := Cleared(e.lfds))]);
            PollfdsOk(l') && FindPollfd(l', epfd).None?
  {
  }

  /**
   close of a number in the range of tables: it succeeds if and only if there is such a table, which is then
   gone; every other table, all descriptors and memory stay as they were.
   */
  lemma CloseTableExactly(r: Role, sh: Shared, l: Local, epfd: int)
    requires PollfdsOk(l) && epfd >= POLLFD_START
    ensures var e := DoClose(r, sh, l, epfd);
            && (e.out == Ret(0) <==> TableAt(l, epfd).Some?)
            && (e.out == Fail(-1, EBADF) <==> TableAt(l, epfd).None?)
            && TableAt(e.local, epfd).None? && e.shared == sh && OnlyTable(l, e.local, epfd)
  {
    hide PollfdsOk, Cleared, FindPollfd;
    var e := DoClose(r, sh, l, epfd);
    var k := FindPollfd(l, epfd);
    if k.Some? {
      ClosingKeepsTables(l, k.value, epfd);
      OthersKept(l, e.local, k.value, epfd);
    }
  }

  /**
   epoll_ctl and epoll_pwait answer EBADF if and only if there is no such table, or, for epoll_ctl, no such
   socket; then nothing changes.
   */
  lemma UnknownTableExactly(r: Role, sh: Shared, l: Local, epfd: int, op: CtlOp, num: int, events: EventMask, data: int,
                            maxevents: int)
    ensures var e := DoEpollCtl(l, epfd, op, num, events, data);
            && (e.1 == Fail(-1, EBADF) <==> TableAt(l, epfd).None? || (num >= FD_START && FindFd(l.fds, num).None?))
            && (e.1 == Fail(-1, EBADF) ==> e.0 == l)
    ensures var e := DoScan(r, sh, l, epfd, maxevents);
            && (e.out == Fail(-1, EBADF) <==> TableAt(l, epfd).None?)
            && (e.out == Fail(-1, EBADF) ==> e.shared == sh && e.local == l)
            && (e.out == Fail(-1, EBADF) || e.out.Events? || e.out == Undefined)
  {
    hide ScanFrom, ListenerForFd;
  }

  /** Exactly these calls are handed to the system: the number is below those of sockets. They change nothing here. */
  lemma ForeignExactly(r: Role, sh: Shared, l: Local, call: Call)
    ensures var e := Apply(r, sh, l, call);
            && (e.out == Foreign <==>
                (call.Close? && call.num < FD_START) ||
                (call.EpollCtl? && TableAt(l, call.epfd).Some? && call.num < FD_START))
            && (e.out == Foreign ==> e.shared == sh && e.local == l)
  {
    hide DoScan, DoEpollCtl, DoConnectEx, DoAccept, DoSend, DoRecv, RemoveConnection, MarkClosed;
    match call
    case EpollCtl(epfd, op, num, events, data) => CtlForeignExactly(l, epfd, op, num, events, data);
    case Wait(epfd, maxevents) => ScanOutcome(r, sh, l, epfd, maxevents);
    case Connect(num, addr, port, block) => ConnectNotForeign(r, sh, l, num, addr, port, block);
    case ConnectEx(num, addr, port, block) => ConnectNotForeign(r, sh, l, num, addr, port, block);
    case Accept(_, _, _) => TransferNotForeign(r, sh, l, call);
    case Send(_, _) => TransferNotForeign(r, sh, l, call);
    case Recv(_, _, _) => TransferNotForeign(r, sh, l, call);
    case _ =>
  }

  lemma ConnectNotForeign(r: Role, sh: Shared, l: Local, num: int, addr: int, port: int, block: Ptr)
    ensures DoConnectEx(r, sh, l, num, addr, port, block).out != Foreign
  {
    hide InterfaceBySockaddr, Publish;
  }

  lemma TransferNotForeign(r: Role, sh: Shared, l: Local, call: Call)
    requires call.Accept? || call.Send? || call.Recv?
    ensures Apply(r, sh, l, call).out != Foreign
  {
    hide PickOnTable, RecvConnection, SendConnection, GetPeerName;
  }

  lemma CtlForeignExactly(l: Local, epfd: int, op: CtlOp, num: int, events: EventMask, data: int)
    ensures var e := DoEpollCtl(l, epfd, op, num, events, data);
            (e.1 == Foreign <==> TableAt(l, epfd).Some? && num < FD_START) && (e.1 == Foreign ==> e.0 == l)
  {
    hide ListenerForFd, EmptyListener;
  }

  // ---------- over runs ----------

  /** The numbers of tables are not reused, and only close takes one away. */
  ghost predicate TableMoves(l: Local, l': Local, closed: bool, epfd: int) {
    && l'.randomPollFd >= l.randomPollFd
    && (l'.pollEpfd == l.pollEpfd || (l.pollEpfd == -1 && l'.pollEpfd == l.randomPollFd < l'.randomPollFd))
    && (epfd < l.randomPollFd ==> (TableAt(l', epfd).Some? <==> TableAt(l, epfd).Some? && !closed))
  }

  lemma CreateMoves(l: Local, epfd: int)
    requires PollfdsOk(l)
    ensures TableMoves(l, DoEpollCreate(l).0, false, epfd) && DoEpollCreate(l).0.pollEpfd == l.pollEpfd
  {
    hide DoEpollCreate, PollfdsOk, TableAt;
    CreateExactly(l);
  }

  lemma OpenMoves(l: Local, epfd: int)
    requires PollfdsOk(l)
    ensures TableMoves(l, DoPollOpen(l).0, false, epfd)
  {
    hide DoEpollCreate, PollfdsOk, FindPollfd;
    CreateMoves(l, epfd);
    CreateExactly(l);
    if l.pollEpfd == -1 { SamePollfds(DoEpollCreate(l).0, DoPollOpen(l).0, epfd); }
  }

  /** Rewriting registrations opens and closes no table. */
  lemma RewritingMoves(l: Local, l': Local, epfd: int)
    requires l'.randomPollFd == l.randomPollFd && l'.pollEpfd == l.pollEpfd && |l'.pollfds| == |l.pollfds|
    requires forall k | 0 <= k < |l.pollfds| ::
               l'.pollfds[k].active == l.pollfds[k].active && l'.pollfds[k].num == l.pollfds[k].num
    ensures TableMoves(l, l', false, epfd)
  {
  }

  lemma ScanMovesTables(r: Role, sh: Shared, l: Local, epfd: int, maxevents: int, e: int)
    ensures TableMoves(l, DoScan(r, sh, l, epfd, maxevents).local, false, e)
  {
    hide ScanFrom;
    RewritingMoves(l, DoScan(r, sh, l, epfd, maxevents).local, e);
  }

  lemma CtlMovesTables(l: Local, epfd: int, op: CtlOp, num: int, events: EventMask, data: int, e: int)
    ensures TableMoves(l, DoEpollCtl(l, epfd, op, num, events, data).0, false, e)
  {
    hide CtlTable;
    RewritingMoves(l, DoEpollCtl(l, epfd, op, num, events, data).0, e);
  }

  lemma CloseMovesTables(r: Role, sh: Shared, l: Local, num: int, e: int)
    requires PollfdsOk(l) && num >= POLLFD_START
    ensures TableMoves(l, DoClose(r, sh, l, num).local, num == e, e)
  {
    hide PollfdsOk, DoClose, TableAt;
    CloseTouches(r, sh, l, num);
    CloseTableExactly(r, sh, l, num);
  }

  lemma CallMovesTables(r: Role, sh: Shared, l: Local, call: Call, epfd: int)
    requires PollfdsOk(l) && epfd >= POLLFD_START
    ensures TableMoves(l, Apply(r, sh, l, call).local, call == Close(epfd), epfd)
  {
    hide PollfdsOk, DoScan, DoConnectEx, DoConnect, DoAccept, DoListen, DoSocket, DoBind, DoSend, DoRecv, DoSetNonblock,
        DoEpollCtl, DoEpollCreate, DoClose, StartsConnect;
    CallTouches(r, sh, l, call);
    match call
    case EpollCreate => CreateMoves(l, epfd);
    case PollOpen => OpenMoves(l, epfd);
    case Close(num) => if num >= POLLFD_START { CloseMovesTables(r, sh, l, num, epfd); }
    case Wait(e, maxevents) => ScanMovesTables(r, sh, l, e, maxevents, epfd);
    case EpollCtl(e, op, num, events, data) => CtlMovesTables(l, e, op, num, events, data, epfd);
    case _ =>
  }

  /**
   A table stays open, whatever both processes do, exactly until its number is closed; it never opens again,
   since the number is not given out a second time.
   */
  lemma {:induction false} TableLife(s: Sys, r: Role, moves: seq<Move>, epfd: int)
    requires SysInv(s) && Playable(s, moves) && POLLFD_START <= epfd < s.Loc(r).randomPollFd
    ensures TableAt(Run(s, moves).Loc(r), epfd).Some? <==>
            TableAt(s.Loc(r), epfd).Some? && LeavesOpen(r, epfd, moves)
    ensures epfd < Run(s, moves).Loc(r).randomPollFd
    ensures s.Loc(r).pollEpfd != -1 ==> Run(s, moves).Loc(r).pollEpfd == s.Loc(r).pollEpfd
    decreases |moves|
  {
    hide Apply, TableAt, PollfdsOk, AllocationOk, FdsOk, NumbersOk, InterfacesOk, ListsOk, CountsOk;
    if moves != [] {
      var m := moves[0];
      var t := Step(s, m).0;
      if m.role == r {
        assert PollfdsOk(s.Loc(r));
        CallMovesTables(r, s.shared, s.Loc(r), m.call, epfd);
      }
      StepKeepsInv(s, m);
      TableLife(t, r, moves[1..], epfd);
      assert LeavesOpen(r, epfd, moves) <==> !(m.role == r && m.call == Close(epfd)) && LeavesOpen(r, epfd, moves[1..])
      by {
        assert moves == [m] + moves[1..];
        LeavesFirst(r, epfd, m, moves[1..]);
      }
    }
  }

  lemma LeavesFirst(r: Role, num: int, m: Move, rest: seq<Move>)
    ensures LeavesOpen(r, num, [m] + rest) <==> !(m.role == r && m.call == Close(num)) && LeavesOpen(r, num, rest)
  {
    if LeavesOpen(r, num, [m] + rest) {
      assert ([m] + rest)[0] == m;
      forall k | 0 <= k < |rest| ensures !(rest[k].role == r && rest[k].call == Close(num)) {
        assert ([m] + rest)[k + 1] == rest[k];
      }
    }
  }

  /** The number that poll remembers for its table is one that was handed out. */
  predicate PollNumberOk(l: Local) {
    l.pollEpfd == -1 || POLLFD_START <= l.pollEpfd < l.randomPollFd
  }

  lemma {:induction false} RunKeepsPollNumber(s: Sys, r: Role, moves: seq<Move>)
    requires SysInv(s) && Playable(s, moves) && PollNumberOk(s.Loc(r))
    ensures PollNumberOk(Run(s, moves).Loc(r))
    decreases |moves|
  {
    hide Apply, TableAt, TableOk, AllocationOk, FdsOk, NumbersOk, InterfacesOk, ListsOk, CountsOk;
    if moves != [] {
      if moves[0].role == r { CallMovesTables(r, s.shared, s.Loc(r), moves[0].call, POLLFD_START); }
      StepKeepsInv(s, moves[0]);
      RunKeepsPollNumber(Step(s, moves[0]).0, r, moves[1..]);
    }
  }

  /**
   poll has one table for good: once a call has got it, every later call gets the same number, whatever both
   processes do, and changes nothing by asking.
   */
  lemma PollKeepsItsTable(s: Sys, r: Role, moves: seq<Move>)
    requires SysInv(s) && PollNumberOk(s.Loc(r)) && Step(s, Move(r, PollOpen)).1.Ret?
    requires Playable(Step(s, Move(r, PollOpen)).0, moves)
    ensures var first := Step(s, Move(r, PollOpen));
            var t := Run(first.0, moves);
            Step(t, Move(r, PollOpen)) == (t, first.1)
  {
    hide SysInv, Run, Playable, DoEpollCreate, PollfdsOk;
    var first := Step(s, Move(r, PollOpen));
    var l, l' := s.Loc(r), first.0.Loc(r);
    assert PollfdsOk(l) by { LocTables(s, r); }
    StepKeepsInv(s, Move(r, PollOpen));
    CreateExactly(l);
    assert POLLFD_START <= l'.pollEpfd < l'.randomPollFd && first.1 == Ret(l'.pollEpfd) by {
      if l.pollEpfd == -1 { NumbersInRange(l); }
    }
    TableLife(first.0, r, moves, l'.pollEpfd);
  }

  lemma LocTables(s: Sys, r: Role)
    requires SysInv(s)
    ensures PollfdsOk(s.Loc(r))
  {
    hide PollfdsOk;
  }

  lemma NumbersInRange(l: Local)
    requires PollfdsOk(l)
    ensures l.randomPollFd >= POLLFD_START
  {
  }

  /**
   After the table inside poll has been closed, which its number allows, every later poll fails: with EBADF
   if it asks for anything, and with -1 if not. No later call of either process mends it.
   */
  lemma PollAfterItsTable(s: Sys, r: Role, before: seq<Move>, moves: seq<Move>, reqs: seq<PollReq>, timeout: int,
                          schedule: seq<Shared>)
    requires Initial(s) && Playable(s, before) && Playable(Run(s, before), moves)
    requires var epfd := Run(s, before).Loc(r).pollEpfd; epfd != -1 && !LeavesOpen(r, epfd, moves)
    ensures var t := Run(Run(s, before), moves);
            DoPoll(r, t.shared, t.Loc(r), reqs, timeout, schedule).effect ==
            Effect(t.shared, t.Loc(r), if reqs == [] then Ret(-1) else Fail(-1, EBADF))
  {
    hide SysInv, Run, Playable, LeavesOpen, DoScan, CtlTable;
    InitialInv(s);
    RunKeepsInv(s, before);
    RunKeepsPollNumber(s, r, before);
    var u := Run(s, before);
    var epfd := u.Loc(r).pollEpfd;
    TableLife(u, r, moves, epfd);
    var t := Run(u, moves);
    assert FindPollfd(t.Loc(r), epfd).None?;
    UnknownTableExactly(r, t.shared, t.Loc(r), epfd, CtlAdd, 0, 0, 0, 0);
    LoopEnds(r, t.shared, t.Loc(r), epfd, 0, timeout, schedule, 0);
  }
}
