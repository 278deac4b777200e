/**
 The protocol of a descriptor: which calls each state allows, what calls out of order answer, and the ways
 states can move over whole runs.
 */
module Protocol {
  import opened Basics
  import opened Connections
  import opened Descriptors
  import opened Readiness
  import opened Duplex
  import opened Scanning
  import opened Reachability
  import opened Waits

  /** The states in which a call on a socket is in order. */
  predicate Allows(state: SocketState, call: Call) {
    match call
    case Bind(_, _, _) => state == SCreated
    case Listen(_, _) => state == SBound
    case Accept(_, _, _) => state == SListen
    case Connect(_, _, _, _) => state == SCreated || state == SConnecting
    case ConnectEx(_, _, _, _) => state == SCreated || state == SConnecting
    case Send(_, _) => state == SOpen
    case Recv(_, _, _) => state == SOpen
    case _ => true
  }

  predicate OnSocket(call: Call) {
    call.Bind? || call.Listen? || call.Accept? || call.Connect? || call.ConnectEx? || call.Send? || call.Recv?
  }

  /** An open descriptor has the number, and its state allows the call. */
  predicate InOrder(l: Local, call: Call)
    requires OnSocket(call)
  {
    FindFd(l.fds, call.num).Some? && Allows(l.fds[FindFd(l.fds, call.num).value].state, call)
  }

  /** A call on a socket answers EBADF if and only if it is out of order, and then changes nothing. */
  lemma OutOfOrderExactly(r: Role, sh: Shared, l: Local, call: Call)
    requires OnSocket(call)
    ensures Apply(r, sh, l, call).out == Fail(-1, EBADF) <==> !InOrder(l, call)
    ensures !InOrder(l, call) ==> Apply(r, sh, l, call).shared == sh && Apply(r, sh, l, call).local == l
  {
    hide PickOnTable, GetPeerName, InterfaceBySockaddr, Publish, RecvConnection, SendConnection;
  }

  /** sendmsg is in order when send is. */
  lemma MessageOutOfOrder(r: Role, sh: Shared, l: Local, num: int, iov: seq<seq<Byte>>, before: seq<Shared>)
    requires |before| == |iov| && !InOrder(l, Send(num, []))
    ensures DoSendMsg(r, sh, l, num, iov, before) == Effect(sh, l, Fail(-1, EBADF))
  {
  }

  /** bind and listen in order always succeed. */
  lemma SetupSucceeds(r: Role, sh: Shared, l: Local, call: Call)
    requires (call.Bind? || call.Listen?) && InOrder(l, call)
    ensures var e := Apply(r, sh, l, call);
            var i := FindFd(l.fds, call.num).value;
            && e.out == Ret(0) && |e.local.fds| == |l.fds| && FindFd(e.local.fds, call.num) == Some(i)
            && e.local.fds[i].state == (if call.Bind? then SBound else SListen)
            && (call.Listen? ==> e.local.fds[i].pConn == Some(call.block) && Deref(e.shared, Some(call.block)).Some? &&
                                 Deref(e.shared, Some(call.block)).value.connState == CListen)
  {
    SameNumbersFound(l.fds, Apply(r, sh, l, call).local.fds, call.num);
  }

  // ---------- how states move ----------

  /** One step of the protocol: created, then bound and listening, or connecting, open and closed by the peer. */
  predicate Moves(a: SocketState, b: SocketState) {
    || b == a
    || (a == SCreated && (b == SBound || b == SConnecting))
    || (a == SBound && b == SListen)
    || (a == SConnecting && b == SOpen)
    || (a == SOpen && b == SClose)
  }

  /** What may have become of a state after any number of steps. */
  predicate MayBecome(a: SocketState, b: SocketState) {
    match a
    case SCreated => true
    case SBound => b == SBound || b == SListen
    case SListen => b == SListen
    case SConnecting => b == SConnecting || b == SOpen || b == SClose
    case SOpen => b == SOpen || b == SClose
    case SClose => b == SClose
  }

  /** A descriptor in use after a call was in use before, in a state that leads to its own, or has the next number. */
  ghost predicate SlotMoves(l: Local, l': Local, i: nat) {
    && l'.currentMaxFd >= l.currentMaxFd
    && (i < |l'.fds| && l'.fds[i].active ==>
        || l'.fds[i].num == l.currentMaxFd
        || (i < |l.fds| && l.fds[i].active && l'.fds[i].num == l.fds[i].num &&
            Moves(l.fds[i].state, l'.fds[i].state)))
  }

  lemma AllocatorsMove(r: Role, sh: Shared, l: Local, call: Call, i: nat)
    requires call.Socket? || call.Accept? || call.Listen? || call.Bind? || call.SetNonblock?
    ensures SlotMoves(l, Apply(r, sh, l, call).local, i)
  {
    hide PickOnTable, GetPeerName;
  }

  lemma ConnectMoves(r: Role, sh: Shared, l: Local, num: int, addr: int, port: int, block: Ptr, i: nat)
    ensures SlotMoves(l, DoConnectEx(r, sh, l, num, addr, port, block).local, i)
  {
    hide Publish, InterfaceBySockaddr;
    if StartsConnect(r, sh, l, num, addr) { FirstPassExactly(r, sh, l, num, addr, port, block); }
  }

  lemma TransferMoves(r: Role, sh: Shared, l: Local, call: Call, i: nat)
    requires call.Send? || call.Recv?
    ensures SlotMoves(l, Apply(r, sh, l, call).local, i)
  {
    hide RecvConnection, SendConnection;
  }

  lemma CloseMoves(r: Role, sh: Shared, l: Local, num: int, i: nat)
    ensures SlotMoves(l, DoClose(r, sh, l, num).local, i)
  {
    hide RemoveConnection, MarkClosed;
  }

  lemma ScanMoves(r: Role, sh: Shared, l: Local, epfd: int, maxevents: int, i: nat)
    ensures SlotMoves(l, DoScan(r, sh, l, epfd, maxevents).local, i)
  {
    hide ScanFrom, ConnsFrame;
    var k := FindPollfd(l, epfd);
    if k.Some? {
      var s := StartScan(sh, l, k.value);
      ScanFromFrame(s, r, l.interfaces, 0, maxevents);
      var t := ScanFrom(s, r, l.interfaces, 0, maxevents);
      assert |t.fds| == |l.fds|;
      if i < |l.fds| {
        assert t.fds[i] == l.fds[i] || Opened(sh, l.fds[i], t.fds[i]);
      }
    }
  }

  lemma CallMoves(r: Role, sh: Shared, l: Local, call: Call, i: nat)
    ensures SlotMoves(l, Apply(r, sh, l, call).local, i)
  {
    hide DoScan, DoConnectEx, DoAccept, DoListen, DoSocket, DoBind, DoSend, DoRecv, DoClose, DoSetNonblock, CtlTable;
    match call
    case Wait(epfd, maxevents) => ScanMoves(r, sh, l, epfd, maxevents, i);
    case Close(num) => CloseMoves(r, sh, l, num, i);
    case Connect(num, addr, port, block) => ConnectMoves(r, sh, l, num, addr, port, block, i);
    case ConnectEx(num, addr, port, block) => ConnectMoves(r, sh, l, num, addr, port, block, i);
    case Send(_, _) => TransferMoves(r, sh, l, call, i);
    case Recv(_, _, _) => TransferMoves(r, sh, l, call, i);
    case EpollCreate =>
    case EpollCtl(_, _, _, _, _) =>
    case PollOpen =>
    case _ => AllocatorsMove(r, sh, l, call, i);
  }

  /**
   The life of a descriptor: whatever both processes do, a descriptor whose number was already handed out is the
   one that had it, in its slot, and its state has only moved along the protocol.
   */
  lemma {:induction false} DescriptorLife(s: Sys, r: Role, moves: seq<Move>, i: nat)
    requires var fds := Run(s, moves).Loc(r).fds;
             i < |fds| && fds[i].active && fds[i].num < s.Loc(r).currentMaxFd
    ensures var fds, fds' := s.Loc(r).fds, Run(s, moves).Loc(r).fds;
            i < |fds| && fds[i].active && fds[i].num == fds'[i].num && MayBecome(fds[i].state, fds'[i].state)
    decreases |moves|
  {
    hide Apply;
    if moves != [] {
      var m := moves[0];
      var t := Step(s, m).0;
      if m.role == r { CallMoves(r, s.shared, s.Loc(r), m.call, i); }
      DescriptorLife(t, r, moves[1..], i);
    }
  }

  /** A number that no descriptor has any more stays without one. */
  lemma RunKeepsFreed(s: Sys, r: Role, moves: seq<Move>, num: int)
    requires num < s.Loc(r).currentMaxFd && FindFd(s.Loc(r).fds, num).None?
    ensures FindFd(Run(s, moves).Loc(r).fds, num).None?
  {
    hide Run, Step;
    var i := FindFd(Run(s, moves).Loc(r).fds, num);
    if i.Some? { DescriptorLife(s, r, moves, i.value); }
  }

  // ---------- close ----------

  /** Records other than `p` are untouched. */
  ghost predicate OnlyRecord(sh: Shared, sh': Shared, p: Ptr) {
    forall q | q != p :: Deref(sh', Some(q)) == Deref(sh, Some(q))
  }

  /**
   close of a socket: it succeeds if and only if a descriptor has the number, and the number is then gone for
   good. A socket without a connection leaves memory alone; the last holder of a connection, or one that nobody
   has accepted, removes it; the first of two, or a listener, marks it closed and raises EPOLLHUP for the peer.
   */
  lemma CloseExactly(s: Sys, r: Role, num: int, more: seq<Move>)
    requires SysInv(s) && FD_START <= num < POLLFD_START && Playable(Step(s, Move(r, Close(num))).0, more)
    ensures var t := Step(s, Move(r, Close(num)));
            var slot := FindFd(s.Loc(r).fds, num);
            && (t.1 == Ret(0) <==> slot.Some?) && (t.1 == Fail(1, EBADF) <==> slot.None?)
            && (slot.None? ==> t.0 == s)
            && (slot.Some? ==> FindFd(Run(t.0, more).Loc(r).fds, num).None?)
            && (slot.Some? && s.Loc(r).fds[slot.value].pConn.None? ==> t.0.shared == s.shared)
    ensures var slot := FindFd(s.Loc(r).fds, num);
            slot.Some? && s.Loc(r).fds[slot.value].pConn.Some? ==>
              var p := s.Loc(r).fds[slot.value].pConn.value;
              var sh := Step(s, Move(r, Close(num))).0.shared;
              && p in s.shared.conns && OnlyRecord(s.shared, sh, p)
              && (p !in sh.conns <==> s.shared.conns[p].connState == CCreate || s.shared.conns[p].connState == CClose)
              && (p in sh.conns ==> sh.conns[p].connState == CClose &&
                                    IsEventSet(sh.conns[p].Own(Other(r)).events, EPOLLHUP))
  {
    hide Inv, Run, Playable, RemoveFirst, SetEvent, Apply;
    if r == Client { InvSymmetric(s.shared, s.server, s.client); }
    CloseStep(r, s.shared, s.Loc(r), s.Loc(Other(r)), num);
    var t := Step(s, Move(r, Close(num))).0;
    if FindFd(s.Loc(r).fds, num).Some? {
      RunKeepsFreed(t, r, more, num);
    }
  }

  lemma HangupRaised(events: EventMask)
    ensures IsEventSet(SetEvent(events, EPOLLHUP), EPOLLHUP)
  {
  }

  lemma CloseStep(r: Role, sh: Shared, l: Local, other: Local, num: int)
    requires Inv(sh, l, other) && FD_START <= num < POLLFD_START
    ensures var e := Apply(r, sh, l, Close(num));
            var slot := FindFd(l.fds, num);
            && (slot.Some? ==> e.out == Ret(0)) && (slot.None? ==> e == Effect(sh, l, Fail(1, EBADF)))
            && (slot.Some? ==> FindFd(e.local.fds, num).None? && num < e.local.currentMaxFd)
            && (slot.Some? && l.fds[slot.value].pConn.None? ==> e.shared == sh)
            && (slot.Some? && l.fds[slot.value].pConn.Some? ==>
                  var p := l.fds[slot.value].pConn.value;
                  && p in sh.conns && OnlyRecord(sh, e.shared, p)
                  && (p !in e.shared.conns <==> sh.conns[p].connState == CCreate || sh.conns[p].connState == CClose)
                  && (p in e.shared.conns ==> e.shared.conns[p].connState == CClose)
                  && (p in e.shared.conns ==> IsEventSet(e.shared.conns[p].Own(Other(r)).events, EPOLLHUP)))
  {
    hide PollfdsOk, InterfacesOk, RemoveFirst, SetEvent, IsEventSet, CountsOk, ListsOk;
    CloseKeepsInv(r, sh, l, other, num);
    var slot := FindFd(l.fds, num);
    if slot.Some? {
      assert FdOk(sh, l.fds[slot.value]);
      if l.fds[slot.value].pConn.Some? {
        HangupRaised(sh.conns[l.fds[slot.value].pConn.value].Own(Other(r)).events);
      }
    }
  }
}
