/** What descriptors are called, and what a new or changed descriptor holds. */
module Names {
  import opened Basics
  import opened Connections
  import opened Descriptors
  import opened Readiness
  import opened Duplex
  import opened Scanning
  import opened Reachability
  import opened Pairing
  import opened Waits

  // ---------- connected descriptors ----------

  /** Descriptor `num` is on a connection that both sides have and neither has closed. */
  predicate OnOpenRecord(sh: Shared, l: Local, num: int) {
    FindFd(l.fds, num).Some? &&
    var c := Deref(sh, l.fds[FindFd(l.fds, num).value].pConn);
    c.Some? && c.value.connState == COpen
  }

  /** The name of one end of the record: the address of that role on the interface, and its port. */
  function EndName(sh: Shared, p: Ptr, end: Role): Name {
    var c := Deref(sh, Some(p));
    if c.None? || c.value.iface.None? || c.value.iface.value >= |sh.ifaces| then NameUndefined
    else Name(sh.ifaces[c.value.iface.value].OwnAddress(end), c.value.Own(end).port)
  }

  /**
   getpeername, and getsockname on a socket that is not listening, answer with a name if and only if the
   connection is open, and that name is the peer's or the own end of the record; otherwise they fail with
   ENOTCONN, and with EBADF and the value 1 if and only if the number is unknown.
   */
  lemma NamesExactly(r: Role, sh: Shared, l: Local, other: Local, num: int)
    requires Inv(sh, l, other)
    ensures var peer := GetPeerName(r, sh, l, num);
            && (peer.Name? <==> OnOpenRecord(sh, l, num))
            && (peer == NoName(1, EBADF) <==> FindFd(l.fds, num).None?)
            && (peer == NoName(-1, ENOTCONN) <==> FindFd(l.fds, num).Some? && !OnOpenRecord(sh, l, num))
            && (peer.Name? ==> peer == EndName(sh, l.fds[FindFd(l.fds, num).value].pConn.value, Other(r)))
    ensures var own := GetSockName(r, sh, l, num);
            !IsListening(l, num) ==>
              && (own.Name? <==> OnOpenRecord(sh, l, num))
              && (own == NoName(1, EBADF) <==> FindFd(l.fds, num).None?)
              && (own == NoName(-1, ENOTCONN) <==> FindFd(l.fds, num).Some? && !OnOpenRecord(sh, l, num))
              && (own.Name? ==> own == EndName(sh, l.fds[FindFd(l.fds, num).value].pConn.value, r))
  {
    hide NumbersOk, PollfdsOk;
    var i := FindFd(l.fds, num);
    if i.Some? { assert FdOk(sh, l.fds[i.value]); }
  }

  // ---------- listening descriptors ----------

  /** Slot `i` is bound to `addr` and `port`, listening or not yet. */
  predicate BoundAs(l: Local, i: nat, num: int, addr: int, port: int) {
    && i < |l.fds| && l.fds[i].active && l.fds[i].num == num && (l.fds[i].state == SBound || l.fds[i].state == SListen)
    && l.fds[i].listenAddress == addr && l.fds[i].listenPort == port
  }

  /** The slot is still bound as it was, and listening if it was. */
  predicate StillBound(l: Local, l': Local, i: nat, num: int, addr: int, port: int) {
    BoundAs(l, i, num, addr, port) ==>
      BoundAs(l', i, num, addr, port) && (l.fds[i].state == SListen ==> l'.fds[i].state == SListen)
  }

  lemma AllocatorsKeepBound(r: Role, sh: Shared, l: Local, call: Call, i: nat, num: int, addr: int, port: int)
    requires call.Socket? || call.Accept? || call.Listen? || call.Bind? || call.SetNonblock?
    ensures StillBound(l, Apply(r, sh, l, call).local, i, num, addr, port)
  {
    hide PickOnTable, GetPeerName;
  }

  lemma ConnectKeepsBoundAs(r: Role, sh: Shared, l: Local, num': int, addr': int, port': int, block: Ptr, i: nat,
                            num: int, addr: int, port: int)
    ensures StillBound(l, DoConnectEx(r, sh, l, num', addr', port', block).local, i, num, addr, port)
  {
    hide Publish, InterfaceBySockaddr;
  }

  lemma TransferKeepsBoundAs(r: Role, sh: Shared, l: Local, call: Call, i: nat, num: int, addr: int, port: int)
    requires call.Send? || call.Recv?
    ensures StillBound(l, Apply(r, sh, l, call).local, i, num, addr, port)
  {
    hide RecvConnection, SendConnection;
  }

  lemma CloseKeepsBoundAs(r: Role, sh: Shared, l: Local, num': int, i: nat, num: int, addr: int, port: int)
    requires num' != num
    ensures StillBound(l, DoClose(r, sh, l, num').local, i, num, addr, port)
  {
    hide RemoveConnection, MarkClosed;
  }

  lemma ScanKeepsBoundAs(r: Role, sh: Shared, l: Local, epfd: int, maxevents: int, i: nat, num: int, addr: int,
                         port: int)
    ensures StillBound(l, DoScan(r, sh, l, epfd, maxevents).local, i, num, addr, port)
  {
    hide ScanFrom, ConnsFrame;
    var k := FindPollfd(l, epfd);
    if k.Some? && i < |l.fds| {
      var s := StartScan(sh, l, k.value);
      ScanFromFrame(s, r, l.interfaces, 0, maxevents);
      var t := ScanFrom(s, r, l.interfaces, 0, maxevents);
      assert t.fds[i] == l.fds[i] || Opened(sh, l.fds[i], t.fds[i]);
    }
  }

  lemma CallKeepsBound(r: Role, sh: Shared, l: Local, call: Call, i: nat, num: int, addr: int, port: int)
    requires call.Close? ==> call.num != num
    ensures StillBound(l, Apply(r, sh, l, call).local, i, num, addr, port)
  {
    hide DoScan, DoConnectEx, DoAccept, DoListen, DoSocket, DoBind, DoSend, DoRecv, DoClose, DoSetNonblock, CtlTable;
    match call
    case Wait(epfd, maxevents) => ScanKeepsBoundAs(r, sh, l, epfd, maxevents, i, num, addr, port);
    case Close(num') => CloseKeepsBoundAs(r, sh, l, num', i, num, addr, port);
    case Connect(num', addr', port', block) =>
      ConnectKeepsBoundAs(r, sh, l, num', addr', port', block, i, num, addr, port);
    case ConnectEx(num', addr', port', block) =>
      ConnectKeepsBoundAs(r, sh, l, num', addr', port', block, i, num, addr, port);
    case Send(_, _) => TransferKeepsBoundAs(r, sh, l, call, i, num, addr, port);
    case Recv(_, _, _) => TransferKeepsBoundAs(r, sh, l, call, i, num, addr, port);
    case EpollCreate =>
    case EpollCtl(_, _, _, _, _) =>
    case PollOpen =>
    case _ => AllocatorsKeepBound(r, sh, l, call, i, num, addr, port);
  }

  /** Process `r` does not close `num`. */
  ghost predicate LeavesOpen(r: Role, num: int, moves: seq<Move>) {
    forall k | 0 <= k < |moves| :: !(moves[k].role == r && moves[k].call == Close(num))
  }

  lemma {:induction false} RunKeepsBound(s: Sys, r: Role, moves: seq<Move>, i: nat, num: int, addr: int, port: int)
    requires LeavesOpen(r, num, moves)
    ensures StillBound(s.Loc(r), Run(s, moves).Loc(r), i, num, addr, port)
    decreases |moves|
  {
    hide Apply, BoundAs;
    if moves != [] {
      if moves[0].role == r { CallKeepsBound(r, s.shared, s.Loc(r), moves[0].call, i, num, addr, port); }
      RunKeepsBound(Step(s, moves[0]).0, r, moves[1..], i, num, addr, port);
    }
  }

  lemma BindsTo(s: Sys, r: Role, num: int, addr: int, port: int)
    requires Step(s, Move(r, Bind(num, addr, port))).1 == Ret(0)
    ensures FindFd(s.Loc(r).fds, num).Some?
    ensures BoundAs(Step(s, Move(r, Bind(num, addr, port))).0.Loc(r), FindFd(s.Loc(r).fds, num).value, num, addr, port)
  {
  }

  /** A successful listen makes the slot a listening one, without touching its name. */
  lemma ListensOn(s: Sys, r: Role, num: int, block: Ptr, i: nat, addr: int, port: int)
    requires SysInv(s) && BoundAs(s.Loc(r), i, num, addr, port) && Step(s, Move(r, Listen(num, block))).1 == Ret(0)
    ensures var l := Step(s, Move(r, Listen(num, block))).0.Loc(r);
            BoundAs(l, i, num, addr, port) && l.fds[i].state == SListen
  {
    hide FdsOk, PollfdsOk, InterfacesOk, ListsOk, CountsOk;
    FoundFd(s.Loc(r).fds, i, num);
  }

  lemma ListenerNamed(s: Sys, r: Role, i: nat, num: int, addr: int, port: int)
    requires SysInv(s) && BoundAs(s.Loc(r), i, num, addr, port) && s.Loc(r).fds[i].state == SListen
    ensures GetSockName(r, s.shared, s.Loc(r), num) == Name(addr, port)
  {
    hide FdsOk, PollfdsOk, InterfacesOk, ListsOk, CountsOk;
    FoundFd(s.Loc(r).fds, i, num);
  }

  /**
   A listening socket answers getsockname with the address and the port it was bound to: after a successful
   bind and a successful listen, in every later state until the number is closed, whatever both processes do
   before, between and after.
   */
  lemma ListenerKeepsName(s: Sys, r: Role, num: int, addr: int, port: int, between: seq<Move>, block: Ptr,
                          later: seq<Move>)
    requires SysInv(s) && Step(s, Move(r, Bind(num, addr, port))).1 == Ret(0)
    requires LeavesOpen(r, num, between) && LeavesOpen(r, num, later)
    requires Playable(s, [Move(r, Bind(num, addr, port))] + between + [Move(r, Listen(num, block))] + later)
    requires Step(Run(s, [Move(r, Bind(num, addr, port))] + between), Move(r, Listen(num, block))).1 == Ret(0)
    ensures var t := Run(s, [Move(r, Bind(num, addr, port))] + between + [Move(r, Listen(num, block))] + later);
            GetSockName(r, t.shared, t.Loc(r), num) == Name(addr, port)
  {
    hide SysInv, Step, Run, Playable, BoundAs, AllocationOk, LeavesOpen, GetSockName;
    var bind, listen := Move(r, Bind(num, addr, port)), Move(r, Listen(num, block));
    BindsTo(s, r, num, addr, port);
    var i := FindFd(s.Loc(r).fds, num).value;
    var t0 := Step(s, bind).0;
    assert Run(s, [bind] + between) == Run(t0, between) by { OneFirst(s, bind, between); }
    var t1 := Run(t0, between);
    RunKeepsBound(t0, r, between, i, num, addr, port);
    RunAppend(s, [bind] + between + [listen], later);
    RunAppend(s, [bind] + between, [listen]);
    RunKeepsInv(s, [bind] + between);
    ListensOn(t1, r, num, block, i, addr, port);
    OneFirst(t1, listen, []);
    assert [listen] + [] == [listen];
    var t2 := Step(t1, listen).0;
    assert Run(t2, []) == t2 by { PlayNothing(t2); }
    RunKeepsBound(t2, r, later, i, num, addr, port);
    RunKeepsInv(s, [bind] + between + [listen] + later);
    ListenerNamed(Run(t2, later), r, i, num, addr, port);
  }

  lemma OneFirst(s: Sys, m: Move, rest: seq<Move>)
    ensures Run(s, [m] + rest) == Run(Step(s, m).0, rest)
  {
    hide Step;
    assert ([m] + rest)[1..] == rest;
  }

  // ---------- new and changed descriptors ----------

  /** All slots of the table but `i` hold what they held. */
  ghost predicate OnlySlot(fds: seq<Fd>, fds': seq<Fd>, i: nat) {
    |fds'| == |fds| && forall j | 0 <= j < |fds| && j != i :: fds'[j] == fds[j]
  }

  /**
   socket(): each error exactly, in the order of the tests; otherwise the number is the next one, can be looked
   up, and names a fresh descriptor with the flag asked for, in a slot that was free.
   */
  lemma SocketExactly(l: Local, inet: bool, stream: bool, nonblock: bool)
    requires NumbersOk(l)
    ensures var e := DoSocket(l, inet, stream, nonblock);
            && (e.1 == Fail(-1, EAFNOSUPPORT) <==> !inet)
            && (e.1 == Fail(-1, EPROTONOSUPPORT) <==> inet && !stream)
            && (e.1 == Fail(-1, ENFILE) <==> inet && stream && l.currentMaxFd >= POLLFD_START)
            && (e.1 == Fail(-1, ENOMEM) <==>
                inet && stream && l.currentMaxFd < POLLFD_START && forall i | 0 <= i < |l.fds| :: l.fds[i].active)
            && (e.1.Ret? || e.0 == l)
            && (e.1.Ret? ==>
                  var i := FindFd(e.0.fds, l.currentMaxFd);
                  && e.1.value == l.currentMaxFd && e.0.currentMaxFd == l.currentMaxFd + 1
                  && i.Some? && i.value < |l.fds| && !l.fds[i.value].active && OnlySlot(l.fds, e.0.fds, i.value)
                  && e.0.fds[i.value].state == SCreated && e.0.fds[i.value].pConn == None
                  && e.0.fds[i.value].nonblock == nonblock)
  {
    var i := EmptyFd(l.fds);
    if i.Some? {
      var e := DoSocket(l, inet, stream, nonblock);
      if e.1.Ret? { FoundFd(e.0.fds, i.value, l.currentMaxFd); }
    }
  }

  /** The descriptor that accept4 returns: open on the connection taken, with the flag asked for. */
  lemma AcceptedExactly(r: Role, sh: Shared, l: Local, num: int, nonblock: bool, named: bool)
    requires NumbersOk(l) && DoAccept(r, sh, l, num, nonblock, named).out.Accepted?
    ensures var e := DoAccept(r, sh, l, num, nonblock, named);
            var i := FindFd(e.local.fds, l.currentMaxFd);
            var p := Taken(r, sh, l, num);
            && e.out.num == l.currentMaxFd && e.local.currentMaxFd == l.currentMaxFd + 1
            && i.Some? && i.value < |l.fds| && !l.fds[i.value].active && OnlySlot(l.fds, e.local.fds, i.value)
            && e.local.fds[i.value].state == SOpen && e.local.fds[i.value].nonblock == nonblock
            && p.Some? && e.local.fds[i.value].pConn == p && p.value in sh.conns
            && e.shared == sh.Put(p.value, sh.conns[p.value].(connState := COpen))
            && e.out.peer == GetPeerName(r, e.shared, e.local, l.currentMaxFd)
  {
    hide PickOnTable, GetPeerName;
    var e := DoAccept(r, sh, l, num, nonblock, named);
    var i := EmptyFd(l.fds).value;
    FoundFd(e.local.fds, i, l.currentMaxFd);
  }

  /** fcntl stores its argument in the flag of the descriptor, and nothing else. */
  lemma FlagExactly(l: Local, num: int, nonblock: bool)
    ensures var e := DoSetNonblock(l, num, nonblock);
            && (e.1 == Fail(1, EBADF) <==> FindFd(l.fds, num).None?) && (e.1 == Ret(0) <==> FindFd(l.fds, num).Some?)
            && NonblockOf(e.0, num) == (FindFd(l.fds, num).Some? && nonblock)
            && FindFd(e.0.fds, num) == FindFd(l.fds, num) && |e.0.fds| == |l.fds| && e.0 == l.(fds := e.0.fds)
            && (forall j | 0 <= j < |l.fds| :: e.0.fds[j].(nonblock := l.fds[j].nonblock) == l.fds[j] &&
                                                (Some(j) != FindFd(l.fds, num) ==> e.0.fds[j] == l.fds[j]))
  {
    SameNumbersFound(l.fds, DoSetNonblock(l, num, nonblock).0.fds, num);
  }
}
