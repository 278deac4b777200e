/**
 Bytes that can never be received. Once the peer has closed and the last descriptor on a connection is not
 open for reading, the packets in its queues stay there until the record is removed: after a false end of
 file, after a connect that is refused because the peer has already accepted, sent and closed, and after a
 send that is refused because the peer has closed.
 */
module Stranded {
  import opened Basics
  import opened Connections
  import opened Descriptors
  import opened Readiness
  import opened Duplex
  import opened Scanning
  import opened Reachability
  import opened Streams
  import opened Draining

  /** No active descriptor of the table on record `p` is open. */
  ghost predicate NoneOpen(fds: seq<Fd>, p: Ptr) {
    forall i | 0 <= i < |fds| && fds[i].active && fds[i].pConn == Some(p) :: fds[i].state != SOpen
  }

  /** The record is closed and nobody can read from it. */
  ghost predicate Unreadable(s: Sys, p: Ptr) {
    && p in s.shared.conns && s.shared.conns[p].connState == CClose
    && NoneOpen(s.server.fds, p) && NoneOpen(s.client.fds, p)
  }

  predicate SameQueues(c: Connection, d: Connection) {
    d.server.recvBuffer == c.server.recvBuffer && d.client.recvBuffer == c.client.recvBuffer
  }

  // ---------- no call opens a descriptor on a closed record ----------

  /** The slots in which a call leaves an open descriptor on `p` had one before. */
  ghost predicate NothingOpened(fds: seq<Fd>, fds': seq<Fd>, p: Ptr) {
    NoneOpen(fds, p) ==> NoneOpen(fds', p)
  }

  ghost predicate Closed(sh: Shared, p: Ptr) {
    p in sh.conns && sh.conns[p].connState == CClose
  }

  lemma AcceptOpensOther(r: Role, sh: Shared, l: Local, num: int, nonblock: bool, named: bool, p: Ptr)
    requires Closed(sh, p)
    ensures NothingOpened(l.fds, DoAccept(r, sh, l, num, nonblock, named).local.fds, p)
  {
    hide GetPeerName, PickOnTable;
  }

  lemma ConnectOpensOther(r: Role, sh: Shared, l: Local, num: int, addr: int, port: int, block: Ptr, p: Ptr)
    requires Closed(sh, p) && (StartsConnect(r, sh, l, num, addr) ==> block !in sh.conns)
    ensures NothingOpened(l.fds, DoConnectEx(r, sh, l, num, addr, port, block).local.fds, p)
  {
    hide Publish, InterfaceBySockaddr;
  }

  lemma OtherCallOpensNothing(r: Role, sh: Shared, l: Local, call: Call, p: Ptr)
    requires Closed(sh, p) && AllocationOk(r, sh, l, call)
    requires call.Socket? || call.Bind? || call.Listen? || call.Send? || call.Recv? || call.SetNonblock?
    ensures NothingOpened(l.fds, Apply(r, sh, l, call).local.fds, p)
  {
    hide RecvConnection, SendConnection, Creates;
  }

  lemma CloseOpensNothing(r: Role, sh: Shared, l: Local, num: int, p: Ptr)
    ensures NothingOpened(l.fds, DoClose(r, sh, l, num).local.fds, p)
  {
    hide RemoveConnection, MarkClosed;
  }

  lemma ScanOpensOther(r: Role, sh: Shared, l: Local, epfd: int, maxevents: int, p: Ptr)
    requires Closed(sh, p)
    ensures NothingOpened(l.fds, DoScan(r, sh, l, epfd, maxevents).local.fds, p)
  {
    hide ScanFrom, ConnsFrame;
    var k := FindPollfd(l, epfd);
    if k.Some? {
      var s := StartScan(sh, l, k.value);
      ScanFromFrame(s, r, l.interfaces, 0, maxevents);
      var t := ScanFrom(s, r, l.interfaces, 0, maxevents);
      if NoneOpen(l.fds, p) {
        forall i | 0 <= i < |t.fds| && t.fds[i].active && t.fds[i].pConn == Some(p) ensures t.fds[i].state != SOpen {
          assert t.fds[i] == l.fds[i] || Opened(sh, l.fds[i], t.fds[i]);
        }
      }
    }
  }

  lemma CallOpensOther(r: Role, sh: Shared, l: Local, call: Call, p: Ptr)
    requires Closed(sh, p) && AllocationOk(r, sh, l, call)
    ensures NothingOpened(l.fds, Apply(r, sh, l, call).local.fds, p)
  {
    hide DoScan, DoConnectEx, DoAccept, DoListen, DoSocket, DoBind, DoSend, DoRecv, DoClose, DoSetNonblock, CtlTable,
        StartsConnect, NoneOpen;
    match call
    case Wait(epfd, maxevents) => ScanOpensOther(r, sh, l, epfd, maxevents, p);
    case Close(num) => CloseOpensNothing(r, sh, l, num, p);
    case Accept(num, nonblock, named) => AcceptOpensOther(r, sh, l, num, nonblock, named, p);
    case Connect(num, addr, port, block) => ConnectOpensOther(r, sh, l, num, addr, port, block, p);
    case ConnectEx(num, addr, port, block) => ConnectOpensOther(r, sh, l, num, addr, port, block, p);
    case EpollCreate =>
    case EpollCtl(_, _, _, _, _) =>
    case PollOpen =>
    case _ => OtherCallOpensNothing(r, sh, l, call, p);
  }

  // ---------- nor touches its queues ----------

  ghost predicate QueuesKept(sh: Shared, sh': Shared, p: Ptr) {
    p in sh.conns && p in sh'.conns ==> SameQueues(sh.conns[p], sh'.conns[p])
  }

  lemma AcceptKeepsQueues(r: Role, sh: Shared, l: Local, num: int, nonblock: bool, named: bool, p: Ptr)
    ensures QueuesKept(sh, DoAccept(r, sh, l, num, nonblock, named).shared, p)
  {
    hide GetPeerName, PickOnTable;
  }

  lemma TransferKeepsQueues(r: Role, sh: Shared, l: Local, call: Call, p: Ptr)
    requires NoneOpen(l.fds, p) && (call.Send? || call.Recv?)
    ensures QueuesKept(sh, Apply(r, sh, l, call).shared, p)
  {
    hide RecvConnection, SendConnection;
  }

  lemma CloseKeepsQueues(r: Role, sh: Shared, l: Local, num: int, p: Ptr)
    ensures QueuesKept(sh, DoClose(r, sh, l, num).shared, p)
  {
    hide SetEvent, RemoveFirst;
  }

  lemma ScanKeepsQueues(r: Role, sh: Shared, l: Local, epfd: int, maxevents: int, p: Ptr)
    ensures QueuesKept(sh, DoScan(r, sh, l, epfd, maxevents).shared, p)
  {
    hide ScanFrom;
    var k := FindPollfd(l, epfd);
    if k.Some? {
      ScanFromFrame(StartScan(sh, l, k.value), r, l.interfaces, 0, maxevents);
    }
  }

  lemma ListenKeepsQueues(sh: Shared, l: Local, num: int, block: Ptr, p: Ptr)
    requires StartsListen(l, num) ==> block !in sh.conns
    ensures QueuesKept(sh, DoListen(sh, l, num, block).shared, p)
  {
  }

  /** As long as no descriptor of the process on `p` is open, its calls leave the queues of `p` alone. */
  lemma CallKeepsQueues(r: Role, sh: Shared, l: Local, call: Call, p: Ptr)
    requires NoneOpen(l.fds, p) && AllocationOk(r, sh, l, call)
    ensures QueuesKept(sh, Apply(r, sh, l, call).shared, p)
  {
    hide DoAccept, DoConnect, DoConnectEx, DoSend, DoRecv, DoClose, DoScan, DoListen, DoEpollCtl, DoBind, DoSocket,
        Creates, Created;
    match call
    case Connect(_, _, _, _) => CreationShape(r, sh, l, call);
    case ConnectEx(_, _, _, _) => CreationShape(r, sh, l, call);
    case Listen(num, block) => ListenKeepsQueues(sh, l, num, block, p);
    case Accept(num, nonblock, named) => AcceptKeepsQueues(r, sh, l, num, nonblock, named, p);
    case Send(num, data) => TransferKeepsQueues(r, sh, l, call, p);
    case Recv(num, len, dontwait) => TransferKeepsQueues(r, sh, l, call, p);
    case Close(num) => CloseKeepsQueues(r, sh, l, num, p);
    case Wait(epfd, maxevents) => ScanKeepsQueues(r, sh, l, epfd, maxevents, p);
    case _ =>
  }

  // ---------- over runs ----------

  lemma StepKeepsUnreadable(s: Sys, m: Move, p: Ptr)
    requires Unreadable(s, p) && AllocationOk(m.role, s.shared, s.Loc(m.role), m.call) && p in Step(s, m).0.shared.conns
    ensures Unreadable(Step(s, m).0, p) && SameQueues(s.shared.conns[p], Step(s, m).0.shared.conns[p])
  {
    hide Apply, AllocationOk, NoneOpen, SameQueues;
    CallOpensOther(m.role, s.shared, s.Loc(m.role), m.call, p);
    CallKeepsQueues(m.role, s.shared, s.Loc(m.role), m.call, p);
    StepMovesForward(m.role, s.shared, s.Loc(m.role), m.call);
  }

  lemma {:induction false} RunKeepsUnreadable(s: Sys, moves: seq<Move>, p: Ptr)
    requires Unreadable(s, p) && Playable(s, moves) && Survives(s, moves, p)
    ensures Unreadable(Run(s, moves), p) && SameQueues(s.shared.conns[p], Run(s, moves).shared.conns[p])
    decreases |moves|
  {
    hide Step, NoneOpen, AllocationOk;
    if moves != [] {
      StepKeepsUnreadable(s, moves[0], p);
      RunKeepsUnreadable(Step(s, moves[0]).0, moves[1..], p);
    }
  }

  lemma UnreadableFails(s: Sys, r: Role, num: int, len: nat, dontwait: bool, p: Ptr)
    requires Unreadable(s, p) && ConnOf(s.Loc(r), num) == Some(p)
    ensures Step(s, Move(r, Recv(num, len, dontwait))).1 == Fail(-1, EBADF)
  {
  }

  /**
   Whatever both processes do, as long as the record is not removed its queues keep every packet, and each
   recv of either process on it fails.
   */
  lemma StrandedForGood(s: Sys, moves: seq<Move>, p: Ptr)
    requires Unreadable(s, p) && Playable(s, moves) && Survives(s, moves, p)
    ensures var t := Run(s, moves);
            && p in t.shared.conns && SameQueues(s.shared.conns[p], t.shared.conns[p])
            && forall r, num, len: nat, dontwait | ConnOf(t.Loc(r), num) == Some(p) ::
                 Step(t, Move(r, Recv(num, len, dontwait))).1 == Fail(-1, EBADF)
  {
    hide Run, Playable, Survives, Step;
    RunKeepsUnreadable(s, moves, p);
    var t := Run(s, moves);
    forall r, num, len: nat, dontwait | ConnOf(t.Loc(r), num) == Some(p)
      ensures Step(t, Move(r, Recv(num, len, dontwait))).1 == Fail(-1, EBADF)
    {
      UnreadableFails(t, r, num, len, dontwait, p);
    }
  }

  // ---------- how it comes about ----------

  /** A closed connection has one descriptor left: the one we know. */
  lemma LastDescriptor(sh: Shared, a: Local, b: Local, i: nat, p: Ptr)
    requires Inv(sh, a, b) && Closed(sh, p) && i < |a.fds| && a.fds[i].active && a.fds[i].pConn == Some(p)
    ensures forall j | 0 <= j < |a.fds| && j != i && a.fds[j].active :: a.fds[j].pConn != Some(p)
    ensures forall j | 0 <= j < |b.fds| && b.fds[j].active :: b.fds[j].pConn != Some(p)
  {
    hide PollfdsOk, NumbersOk, ListsOk, FdsOk, InterfacesOk;
    assert References(p, a, b) <= 1;
    var mine := Slots(a.fds, p);
    assert i in mine;
    assert |mine - {i}| == |mine| - 1;
    assert mine - {i} == {} && Slots(b.fds, p) == {};
    forall j | 0 <= j < |a.fds| && j != i && a.fds[j].active ensures a.fds[j].pConn != Some(p) {
      assert j !in mine - {i};
    }
    forall j | 0 <= j < |b.fds| && b.fds[j].active ensures b.fds[j].pConn != Some(p) {
      assert j !in Slots(b.fds, p);
    }
  }

  /** So if that one is not open, the record is unreadable. */
  lemma LastIsNotOpen(s: Sys, r: Role, i: nat, p: Ptr)
    requires SysInv(s) && Closed(s.shared, p)
    requires var fds := s.Loc(r).fds; i < |fds| && fds[i].active && fds[i].pConn == Some(p) && fds[i].state != SOpen
    ensures Unreadable(s, p)
  {
    hide Inv;
    if r == Client { InvSymmetric(s.shared, s.server, s.client); }
    LastDescriptor(s.shared, s.Loc(r), s.Loc(Other(r)), i, p);
  }

  /** recv that reports end of file returns no bytes and marks its descriptor closed. */
  lemma EofStrands(s: Sys, r: Role, num: int, len: nat, dontwait: bool, p: Ptr)
    requires SysInv(s) && Step(s, Move(r, Recv(num, len, dontwait))).1 == Eof && ConnOf(s.Loc(r), num) == Some(p)
    ensures var t := Step(s, Move(r, Recv(num, len, dontwait))).0;
            && p in s.shared.conns && SysInv(t) && Unreadable(t, p) && Finished(t.Loc(r), num)
            && UnreadAll(t.shared.conns[p].Own(r).recvBuffer) == UnreadAll(s.shared.conns[p].Own(r).recvBuffer)
  {
    hide Inv, RecvConnection, UnreadAll;
    var m := Move(r, Recv(num, len, dontwait));
    StepKeepsInv(s, m);
    var c := s.shared.conns[p];
    RecvKeepsStates(c, r, len);
    ReadMovesBytes(c.Own(r).recvBuffer, c, r, len);
    var t := Step(s, m).0;
    assert t.shared.conns[p] == RecvConnection(c, r, len).conn;
    assert [] + UnreadAll(RecvConnection(c, r, len).conn.Own(r).recvBuffer) ==
             UnreadAll(RecvConnection(c, r, len).conn.Own(r).recvBuffer);
    LastIsNotOpen(t, r, FindFd(s.Loc(r).fds, num).value, p);
    ClosedIsFinished(t, r, FindFd(s.Loc(r).fds, num).value);
  }

  /**
   The same for a connect that is refused because the peer has accepted and closed in the meantime: what the
   peer sent is never received, and the descriptor never becomes open.
   */
  lemma RefusalLosesForGood(s: Sys, r: Role, num: int, addr: int, port: int, block: Ptr, p: Ptr, more: seq<Move>)
    requires SysInv(s) && Step(s, Move(r, ConnectEx(num, addr, port, block))).1 == Fail(-1, ECONNREFUSED) &&
             ConnOf(s.Loc(r), num) == Some(p)
    requires var t := Step(s, Move(r, ConnectEx(num, addr, port, block))).0; Playable(t, more) && Survives(t, more, p)
    ensures var t := Step(s, Move(r, ConnectEx(num, addr, port, block))).0;
            var u := Run(t, more);
            && t == s && p in s.shared.conns && p in u.shared.conns && Unreadable(u, p)
            && SameQueues(s.shared.conns[p], u.shared.conns[p])
  {
    hide SysInv, Run, Playable, Survives, SameQueues;
    RefusedIsClosed(s, r, num, addr, port, block, p);
    LastIsNotOpen(s, r, FindFd(s.Loc(r).fds, num).value, p);
    RunKeepsUnreadable(s, more, p);
  }

  lemma RefusedIsClosed(s: Sys, r: Role, num: int, addr: int, port: int, block: Ptr, p: Ptr)
    requires Step(s, Move(r, ConnectEx(num, addr, port, block))).1 == Fail(-1, ECONNREFUSED) &&
             ConnOf(s.Loc(r), num) == Some(p)
    ensures Step(s, Move(r, ConnectEx(num, addr, port, block))).0 == s && Closed(s.shared, p)
    ensures s.Loc(r).fds[FindFd(s.Loc(r).fds, num).value].state == SConnecting
  {
    hide InterfaceBySockaddr;
  }

  // ---------- a descriptor marked closed ----------

  /** Number `num` has been handed out, and no descriptor with it is in use, except one marked closed. */
  ghost predicate Finished(l: Local, num: int) {
    && FD_START <= num < l.currentMaxFd
    && (forall i | 0 <= i < |l.fds| && l.fds[i].active && l.fds[i].num == num :: l.fds[i].state == SClose)
  }

  lemma FinishedFails(r: Role, sh: Shared, l: Local, num: int, data: seq<Byte>, len: nat, dontwait: bool)
    requires Finished(l, num)
    ensures DoSend(r, sh, l, num, data) == Effect(sh, l, Fail(-1, EBADF))
    ensures DoRecv(r, sh, l, num, len, dontwait) == Effect(sh, l, Fail(-1, EBADF))
    ensures forall iov, before | |before| == |iov| ::
              DoSendMsg(r, sh, l, num, iov, before) == Effect(sh, l, Fail(-1, EBADF))
  {
  }

  lemma AllocatorsKeepFinished(r: Role, sh: Shared, l: Local, call: Call, num: int)
    requires Finished(l, num) && (call.Socket? || call.Accept? || call.Listen? || call.Bind? || call.SetNonblock?)
    ensures Finished(Apply(r, sh, l, call).local, num)
  {
    hide PickOnTable, GetPeerName;
  }

  lemma ConnectKeepsFinished(r: Role, sh: Shared, l: Local, num': int, addr: int, port: int, block: Ptr, num: int)
    requires Finished(l, num)
    ensures Finished(DoConnectEx(r, sh, l, num', addr, port, block).local, num)
  {
    hide Publish, InterfaceBySockaddr;
  }

  lemma TransferKeepsFinished(r: Role, sh: Shared, l: Local, call: Call, num: int)
    requires Finished(l, num) && (call.Send? || call.Recv?)
    ensures Finished(Apply(r, sh, l, call).local, num)
  {
    hide RecvConnection, SendConnection;
  }

  lemma CloseKeepsFinished(r: Role, sh: Shared, l: Local, num': int, num: int)
    requires Finished(l, num)
    ensures Finished(DoClose(r, sh, l, num').local, num)
  {
    hide RemoveConnection, MarkClosed;
  }

  lemma ScanKeepsFinished(r: Role, sh: Shared, l: Local, epfd: int, maxevents: int, num: int)
    requires Finished(l, num)
    ensures Finished(DoScan(r, sh, l, epfd, maxevents).local, num)
  {
    hide ScanFrom, ConnsFrame;
    var k := FindPollfd(l, epfd);
    if k.Some? {
      var s := StartScan(sh, l, k.value);
      ScanFromFrame(s, r, l.interfaces, 0, maxevents);
      var t := ScanFrom(s, r, l.interfaces, 0, maxevents);
      forall i | 0 <= i < |t.fds| && t.fds[i].active && t.fds[i].num == num ensures t.fds[i].state == SClose {
        assert t.fds[i] == l.fds[i] || Opened(sh, l.fds[i], t.fds[i]);
      }
    }
  }

  lemma CallKeepsFinished(r: Role, sh: Shared, l: Local, call: Call, num: int)
    requires Finished(l, num)
    ensures Finished(Apply(r, sh, l, call).local, num)
  {
    hide DoScan, DoConnectEx, DoAccept, DoListen, DoSocket, DoBind, DoSend, DoRecv, DoClose, DoSetNonblock, CtlTable;
    match call
    case Wait(epfd, maxevents) => ScanKeepsFinished(r, sh, l, epfd, maxevents, num);
    case Close(num') => CloseKeepsFinished(r, sh, l, num', num);
    case Connect(num', addr, port, block) => ConnectKeepsFinished(r, sh, l, num', addr, port, block, num);
    case ConnectEx(num', addr, port, block) => ConnectKeepsFinished(r, sh, l, num', addr, port, block, num);
    case Send(_, _) => TransferKeepsFinished(r, sh, l, call, num);
    case Recv(_, _, _) => TransferKeepsFinished(r, sh, l, call, num);
    case EpollCreate =>
    case EpollCtl(_, _, _, _, _) =>
    case PollOpen =>
    case _ => AllocatorsKeepFinished(r, sh, l, call, num);
  }

  lemma {:induction false} RunKeepsFinished(s: Sys, r: Role, moves: seq<Move>, num: int)
    requires Finished(s.Loc(r), num)
    ensures Finished(Run(s, moves).Loc(r), num)
    decreases |moves|
  {
    hide Apply, Finished;
    if moves != [] {
      if moves[0].role == r { CallKeepsFinished(r, s.shared, s.Loc(r), moves[0].call, num); }
      RunKeepsFinished(Step(s, moves[0]).0, r, moves[1..], num);
    }
  }

  /** A number once finished is finished for good: whatever both processes do, send, sendmsg and recv on it fail. */
  lemma FinishedForGood(s: Sys, r: Role, moves: seq<Move>, num: int, data: seq<Byte>, len: nat, dontwait: bool)
    requires Finished(s.Loc(r), num)
    ensures var t := Run(s, moves);
            && Step(t, Move(r, Send(num, data))).1 == Fail(-1, EBADF)
            && Step(t, Move(r, Recv(num, len, dontwait))).1 == Fail(-1, EBADF)
            && forall iov, before | |before| == |iov| ::
                 DoSendMsg(r, t.shared, t.Loc(r), num, iov, before).out == Fail(-1, EBADF)
  {
    hide Run, Finished, DoSend, DoRecv, DoSendMsg;
    RunKeepsFinished(s, r, moves, num);
    var t := Run(s, moves);
    FinishedFails(r, t.shared, t.Loc(r), num, data, len, dontwait);
  }

  // ---------- end of file ----------

  /**
   A false end of file is a loss: whatever both processes do after it, recv and send on the number fail, and
   the bytes that were unread when recv returned 0, on a closed connection and whatever the reason, stay
   unread until the record is removed.
   */
  lemma EofLosesForGood(s: Sys, r: Role, num: int, len: nat, dontwait: bool, p: Ptr, more: seq<Move>)
    requires SysInv(s) && Step(s, Move(r, Recv(num, len, dontwait))).1 == Eof && ConnOf(s.Loc(r), num) == Some(p)
    requires Playable(Step(s, Move(r, Recv(num, len, dontwait))).0, more)
    ensures var u := Run(Step(s, Move(r, Recv(num, len, dontwait))).0, more);
            && (forall d :: Step(u, Move(r, Send(num, d))).1 == Fail(-1, EBADF))
            && (forall n: nat, flag :: Step(u, Move(r, Recv(num, n, flag))).1 == Fail(-1, EBADF))
    ensures var t := Step(s, Move(r, Recv(num, len, dontwait))).0;
            var u := Run(t, more);
            Survives(t, more, p) ==>
              && p in s.shared.conns && p in u.shared.conns && Unreadable(u, p)
              && UnreadAll(u.shared.conns[p].Own(r).recvBuffer) == UnreadAll(s.shared.conns[p].Own(r).recvBuffer)
  {
    hide SysInv, Step, Run, Playable, Survives, UnreadAll, Finished, NoneOpen;
    EofStrands(s, r, num, len, dontwait, p);
    var t := Step(s, Move(r, Recv(num, len, dontwait))).0;
    AllFail(t, r, more, num);
    if Survives(t, more, p) { RunKeepsUnreadable(t, more, p); }
  }

  lemma AllFail(t: Sys, r: Role, more: seq<Move>, num: int)
    requires Finished(t.Loc(r), num)
    ensures forall d :: Step(Run(t, more), Move(r, Send(num, d))).1 == Fail(-1, EBADF)
    ensures forall len: nat, flag :: Step(Run(t, more), Move(r, Recv(num, len, flag))).1 == Fail(-1, EBADF)
  {
    hide Step, Run, Finished;
    forall d ensures Step(Run(t, more), Move(r, Send(num, d))).1 == Fail(-1, EBADF) {
      FinishedForGood(t, r, more, num, d, 0, true);
    }
    forall len: nat, flag ensures Step(Run(t, more), Move(r, Recv(num, len, flag))).1 == Fail(-1, EBADF) {
      FinishedForGood(t, r, more, num, [], len, flag);
    }
  }

  // ---------- a refused send ----------

  /**
   A send on an open descriptor: it leaves the descriptor open and takes all the bytes if the peer has not
   closed, and otherwise fails with ENOTCONN, takes none, and marks the descriptor closed.
   */
  lemma SendExactly(s: Sys, r: Role, num: int, data: seq<Byte>, i: nat, p: Ptr)
    requires SysInv(s) && FindFd(s.Loc(r).fds, num) == Some(i)
    requires s.Loc(r).fds[i].state == SOpen && s.Loc(r).fds[i].pConn == Some(p)
    ensures p in s.shared.conns
    ensures var t := Step(s, Move(r, Send(num, data)));
            var closed := s.shared.conns[p].connState == CClose;
            && |t.0.Loc(r).fds| == |s.Loc(r).fds|
            && (t.0.Loc(r).fds[i].state == SOpen <==> !closed) && (t.0.Loc(r).fds[i].state == SClose <==> closed)
            && (t.1 == Fail(-1, ENOTCONN) <==> closed) && (t.1 == Ret(|data|) <==> !closed)
            && (forall j | 0 <= j < |s.Loc(r).fds| && j != i :: t.0.Loc(r).fds[j] == s.Loc(r).fds[j])
            && (closed ==> t.0.shared == s.shared)
  {
    hide SendConnection, NumbersOk, PollfdsOk, ListsOk, CountsOk, InterfacesOk;
    assert FdOk(s.shared, s.Loc(r).fds[i]);
  }

  /** sendmsg makes the same check before its first piece, with the same effect, even if there are no pieces. */
  lemma RefusedMessageIsRefusedSend(r: Role, sh: Shared, l: Local, num: int, iov: seq<seq<Byte>>, before: seq<Shared>,
                                    data: seq<Byte>)
    requires |before| == |iov| && OpenOnClosed(sh, l, num)
    ensures DoSendMsg(r, sh, l, num, iov, before) == DoSend(r, sh, l, num, data)
    ensures DoSend(r, sh, l, num, data).out == Fail(-1, ENOTCONN)
  {
    hide DoSendPieces, SendConnection;
  }

  /** After it, the number is finished and the record unreadable. */
  lemma RefusedSendStrands(s: Sys, r: Role, num: int, data: seq<Byte>, p: Ptr)
    requires SysInv(s) && Step(s, Move(r, Send(num, data))).1 == Fail(-1, ENOTCONN) && ConnOf(s.Loc(r), num) == Some(p)
    ensures var t := Step(s, Move(r, Send(num, data))).0;
            && p in s.shared.conns && t.shared == s.shared && SysInv(t) && Unreadable(t, p) && Finished(t.Loc(r), num)
  {
    hide Inv, SendConnection;
    var m := Move(r, Send(num, data));
    StepKeepsInv(s, m);
    var t := Step(s, m).0;
    var i := FindFd(s.Loc(r).fds, num).value;
    LastIsNotOpen(t, r, i, p);
    ClosedIsFinished(t, r, i);
  }

  lemma ClosedIsFinished(s: Sys, r: Role, i: nat)
    requires SysInv(s) && i < |s.Loc(r).fds| && s.Loc(r).fds[i].active && s.Loc(r).fds[i].state == SClose
    ensures Finished(s.Loc(r), s.Loc(r).fds[i].num)
  {
    hide FdsOk, PollfdsOk, ListsOk, CountsOk, InterfacesOk;
  }

  /**
   A refused send is a loss, too: whatever both processes do after it, send, sendmsg and recv on the number
   fail, and what was unread before it, although the peer had sent it in time, stays unread until the record
   is removed.
   */
  lemma RefusedSendLosesForGood(s: Sys, r: Role, num: int, data: seq<Byte>, p: Ptr, more: seq<Move>)
    requires SysInv(s) && Step(s, Move(r, Send(num, data))).1 == Fail(-1, ENOTCONN) && ConnOf(s.Loc(r), num) == Some(p)
    requires Playable(Step(s, Move(r, Send(num, data))).0, more)
    ensures var u := Run(Step(s, Move(r, Send(num, data))).0, more);
            && (forall d :: Step(u, Move(r, Send(num, d))).1 == Fail(-1, EBADF))
            && (forall len: nat, dontwait :: Step(u, Move(r, Recv(num, len, dontwait))).1 == Fail(-1, EBADF))
    ensures var t := Step(s, Move(r, Send(num, data))).0;
            Survives(t, more, p) ==>
              && p in s.shared.conns && p in Run(t, more).shared.conns && Unreadable(Run(t, more), p)
              && SameQueues(s.shared.conns[p], Run(t, more).shared.conns[p])
  {
    hide SysInv, Step, Run, Playable, Survives, SameQueues, Finished, NoneOpen;
    RefusedSendStrands(s, r, num, data, p);
    var t := Step(s, Move(r, Send(num, data))).0;
    AllFail(t, r, more, num);
    if Survives(t, more, p) { RunKeepsUnreadable(t, more, p); }
  }
}
