/**
 The two ends are mirror images: the library compiled as server on a record does what the library
 compiled as client does on the swapped record, for every call and every run.
 */
module Mirror {
  import opened Basics
  import opened Connections
  import opened Descriptors
  import opened Readiness
  import opened Duplex

  function SwapInterface(i: Interface): Interface {
    Interface(i.clientAddress, i.serverAddress, i.connectionList)
  }

  function SwapShared(sh: Shared): Shared {
    Shared(seq(|sh.ifaces|, k requires 0 <= k < |sh.ifaces| => SwapInterface(sh.ifaces[k])),
           map p | p in sh.conns :: sh.conns[p].Swap())
  }

  function SwapEffect(e: Effect): Effect {
    e.(shared := SwapShared(e.shared))
  }

  function SwapSys(s: Sys): Sys {
    Sys(SwapShared(s.shared), s.client, s.server)
  }

  function SwapMoves(moves: seq<Move>): seq<Move> {
    seq(|moves|, i requires 0 <= i < |moves| => moves[i].(role := Other(moves[i].role)))
  }

  // ---------- records ----------

  /** Each operation of util.c on one record, in the other role on the swapped record. */
  lemma RecordMirror(c: Connection, r: Role, data: seq<Byte>, len: nat)
    ensures SendConnection(c.Swap(), Other(r), data) == SendConnection(c, r, data).Swap()
    ensures var got := RecvConnection(c, r, len);
            RecvConnection(c.Swap(), Other(r), len) == Received(got.conn.Swap(), got.data)
    ensures MarkClosed(c.Swap(), Other(r)) == MarkClosed(c, r).Swap()
    ensures LevelMask(c.Swap(), Other(r)) == LevelMask(c, r)
  {
    hide SetEvent;
  }

  lemma PutMirror(sh: Shared, p: Ptr, c: Connection)
    ensures SwapShared(sh.Put(p, c)) == SwapShared(sh).Put(p, c.Swap())
  {
  }

  lemma PublishMirror(sh: Shared, p: Ptr, c: Connection)
    requires c.iface.Some? && c.iface.value < |sh.ifaces|
    ensures SwapShared(Publish(sh, p, c)) == Publish(SwapShared(sh), p, c.Swap())
  {
    assert SwapShared(Publish(sh, p, c)).ifaces == Publish(SwapShared(sh), p, c.Swap()).ifaces;
  }

  lemma RemoveMirror(sh: Shared, p: Ptr)
    requires p in sh.conns && sh.conns[p].iface.Some? && sh.conns[p].iface.value < |sh.ifaces|
    ensures SwapShared(RemoveConnection(sh, p)) == RemoveConnection(SwapShared(sh), p)
  {
    hide RemoveFirst;
    assert SwapShared(RemoveConnection(sh, p)).ifaces == RemoveConnection(SwapShared(sh), p).ifaces;
    assert SwapShared(RemoveConnection(sh, p)).conns == RemoveConnection(SwapShared(sh), p).conns;
  }

  lemma SearchMirror(sh: Shared, r: Role, k: nat, port: int)
    requires k < |sh.ifaces|
    ensures SearchOnIface(SwapShared(sh), Other(r), k, port) == SearchOnIface(sh, r, k, port)
  {
    FirstIndexSame(sh.ifaces[k].connectionList, (p: Ptr) => Pending(SwapShared(sh), Other(r), port, p),
                   (p: Ptr) => Pending(sh, r, port, p));
  }

  lemma PickMirror(sh: Shared, r: Role, interfaces: seq<Option<nat>>, addr: int, port: int, any: bool)
    ensures PickOnTable(SwapShared(sh), Other(r), interfaces, addr, port, any) ==
              PickOnTable(sh, r, interfaces, addr, port, any)
  {
    hide SearchOnIface;
    forall k | 0 <= k < |sh.ifaces|
      ensures SearchOnIface(SwapShared(sh), Other(r), k, port) == SearchOnIface(sh, r, k, port)
    {
      SearchMirror(sh, r, k, port);
    }
    FirstIndexSame(interfaces, (e: Option<nat>) => Offers(SwapShared(sh), Other(r), e, addr, port, any),
                   (e: Option<nat>) => Offers(sh, r, e, addr, port, any));
  }

  lemma AddressMirror(r: Role, sh: Shared, l: Local, addr: int)
    ensures InterfaceBySockaddr(Other(r), SwapShared(sh), l, addr) == InterfaceBySockaddr(r, sh, l, addr)
  {
    FirstIndexSame(l.interfaces,
      (e: Option<nat>) => LeadsTo(Other(r), SwapShared(sh), e, addr), (e: Option<nat>) => LeadsTo(r, sh, e, addr));
  }

  // ---------- calls ----------

  lemma NameMirror(r: Role, sh: Shared, l: Local, num: int)
    ensures GetPeerName(Other(r), SwapShared(sh), l, num) == GetPeerName(r, sh, l, num)
    ensures GetSockName(Other(r), SwapShared(sh), l, num) == GetSockName(r, sh, l, num)
  {
  }

  lemma AcceptMirror(r: Role, sh: Shared, l: Local, num: int, nonblock: bool, named: bool)
    ensures DoAccept(Other(r), SwapShared(sh), l, num, nonblock, named) ==
              SwapEffect(DoAccept(r, sh, l, num, nonblock, named))
  {
    hide PickOnTable, GetPeerName;
    var i := FindFd(l.fds, num);
    if i.Some? {
      var fd := l.fds[i.value];
      PickMirror(sh, r, l.interfaces, fd.listenAddress, fd.listenPort, fd.listenAddress == 0);
      var e := DoAccept(r, sh, l, num, nonblock, named);
      NameMirror(r, e.shared, e.local, l.currentMaxFd);
      var p := AcceptOnAnyIface(sh, r, l.interfaces, fd.listenAddress, fd.listenPort);
      if p.Some? {
        PutMirror(sh, p.value, sh.conns[p.value].(connState := COpen));
      }
    }
  }

  lemma ConnectMirror(r: Role, sh: Shared, l: Local, num: int, addr: int, port: int, block: Ptr)
    ensures DoConnectEx(Other(r), SwapShared(sh), l, num, addr, port, block) ==
              SwapEffect(DoConnectEx(r, sh, l, num, addr, port, block))
  {
    hide InterfaceBySockaddr, Publish;
    AddressMirror(r, sh, l, addr);
    var k := InterfaceBySockaddr(r, sh, l, addr);
    if k.Some? {
      PublishMirror(sh, block, NewConnection(r, k.value, l.randomPort, port));
    }
  }

  lemma ListenMirror(sh: Shared, l: Local, num: int, block: Ptr)
    ensures DoListen(SwapShared(sh), l, num, block) == SwapEffect(DoListen(sh, l, num, block))
  {
    PutMirror(sh, block, NewListenerConnection());
  }

  lemma SendMirror(r: Role, sh: Shared, l: Local, num: int, data: seq<Byte>)
    ensures DoSend(Other(r), SwapShared(sh), l, num, data) == SwapEffect(DoSend(r, sh, l, num, data))
  {
    hide SendConnection, RecvConnection, MarkClosed, LevelMask;
    var i := FindFd(l.fds, num);
    if i.Some? && Deref(sh, l.fds[i.value].pConn).Some? {
      var p := l.fds[i.value].pConn.value;
      RecordMirror(sh.conns[p], r, data, 0);
      PutMirror(sh, p, SendConnection(sh.conns[p], r, data));
    }
  }

  lemma RecvMirror(r: Role, sh: Shared, l: Local, num: int, len: nat, dontwait: bool)
    ensures DoRecv(Other(r), SwapShared(sh), l, num, len, dontwait) == SwapEffect(DoRecv(r, sh, l, num, len, dontwait))
  {
    hide SendConnection, RecvConnection, MarkClosed, LevelMask;
    var i := FindFd(l.fds, num);
    if i.Some? && Deref(sh, l.fds[i.value].pConn).Some? {
      var p := l.fds[i.value].pConn.value;
      RecordMirror(sh.conns[p], r, [], len);
      PutMirror(sh, p, RecvConnection(sh.conns[p], r, len).conn);
    }
  }

  lemma CloseMirror(r: Role, sh: Shared, l: Local, num: int)
    ensures DoClose(Other(r), SwapShared(sh), l, num) == SwapEffect(DoClose(r, sh, l, num))
  {
    hide SendConnection, RecvConnection, MarkClosed, LevelMask, RemoveConnection;
    var i := FindFd(l.fds, num);
    if i.Some? && Deref(sh, l.fds[i.value].pConn).Some? {
      var p := l.fds[i.value].pConn.value;
      RecordMirror(sh.conns[p], r, [], 0);
      PutMirror(sh, p, MarkClosed(sh.conns[p], r));
      if sh.conns[p].iface.Some? && sh.conns[p].iface.value < |sh.ifaces| {
        RemoveMirror(sh, p);
      }
    }
  }

  // ---------- scans ----------

  function SwapScan(s: Scan): Scan {
    s.(shared := SwapShared(s.shared))
  }

  lemma PutOwnMirror(s: Scan, r: Role, p: Ptr, events: EventMask, ltEvents: EventMask)
    requires p in s.shared.conns
    ensures SwapScan(s).PutOwn(Other(r), p, events, ltEvents) == SwapScan(s.PutOwn(r, p, events, ltEvents))
  {
    var c := s.shared.conns[p];
    PutMirror(s.shared, p, c.WithOwn(r, c.Own(r).(events := events, ltEvents := ltEvents)));
  }

  lemma CheckMirror(s: Scan, r: Role, j: nat, p: Ptr, special: bool, mask: EventMask)
    requires j < |s.lfds| && p in s.shared.conns
    ensures CheckAndSetEvents(SwapScan(s), Other(r), j, p, special, mask) ==
              SwapScan(CheckAndSetEvents(s, r, j, p, special, mask))
  {
    if s.lfds[j].level {
      LevelCheckMirror(s, r, j, p, special, mask);
    } else {
      EdgeCheckMirror(s, r, j, p, special, mask);
    }
  }

  lemma LevelCheckMirror(s: Scan, r: Role, j: nat, p: Ptr, special: bool, mask: EventMask)
    requires j < |s.lfds| && p in s.shared.conns && s.lfds[j].level
    ensures CheckAndSetEvents(SwapScan(s), Other(r), j, p, special, mask) ==
              SwapScan(CheckAndSetEvents(s, r, j, p, special, mask))
  {
    hide SetEvent, Among, IsEventSet, LevelMask, SendConnection, RecvConnection, MarkClosed, SwapShared;
    var c := s.shared.conns[p];
    SwappedRecord(s.shared, p);
    RecordMirror(c, r, [], 0);
    PutOwnMirror(s, r, p, c.Own(r).events, if special then c.Own(r).ltEvents else LevelMask(c, r));
  }

  lemma EdgeCheckMirror(s: Scan, r: Role, j: nat, p: Ptr, special: bool, mask: EventMask)
    requires j < |s.lfds| && p in s.shared.conns && !s.lfds[j].level
    ensures CheckAndSetEvents(SwapScan(s), Other(r), j, p, special, mask) ==
              SwapScan(CheckAndSetEvents(s, r, j, p, special, mask))
  {
    hide ClearEvent, Among, IsEventSet, SwapShared;
    var own := s.shared.conns[p].Own(r);
    SwappedRecord(s.shared, p);
    PutOwnMirror(s, r, p, ClearEvent(own.events, mask), own.ltEvents);
  }

  lemma SwappedRecord(sh: Shared, p: Ptr)
    requires p in sh.conns
    ensures p in SwapShared(sh).conns && SwapShared(sh).conns[p] == sh.conns[p].Swap()
  {
  }

  lemma RaiseMirror(s: Scan, r: Role, j: nat, p: Ptr)
    requires j < |s.lfds| && p in s.shared.conns
    ensures RaiseInput(SwapScan(s), Other(r), j, p) == SwapScan(RaiseInput(s, r, j, p))
    ensures LowerInput(SwapScan(s), Other(r), p) == SwapScan(LowerInput(s, r, p))
  {
    hide SetEvent, ClearEvent, CheckAndSetEvents;
    var own := s.shared.conns[p].Own(r);
    PutOwnMirror(s, r, p, SetEvent(own.events, EPOLLIN), SetEvent(own.ltEvents, EPOLLIN));
    PutOwnMirror(s, r, p, own.events, ClearEvent(own.ltEvents, EPOLLIN));
    CheckMirror(s.PutOwn(r, p, SetEvent(own.events, EPOLLIN), SetEvent(own.ltEvents, EPOLLIN)), r, j, p, true, EPOLLIN);
  }

  lemma CompleteMirror(s: Scan, num: int)
    ensures CompleteConnect(SwapScan(s), num) == SwapScan(CompleteConnect(s, num))
  {
  }

  lemma VisitMirror(s: Scan, r: Role, interfaces: seq<Option<nat>>, j: nat)
    requires j < |s.lfds|
    ensures Visit(SwapScan(s), Other(r), interfaces, j) == SwapScan(Visit(s, r, interfaces, j))
  {
    hide PickOnTable, RaiseInput, LowerInput, CheckAndSetEvents, CompleteConnect;
    var lfd := s.lfds[j];
    if lfd.slot < |s.fds| && Deref(s.shared, s.fds[lfd.slot].pConn).Some? {
      var fd := s.fds[lfd.slot];
      var p := fd.pConn.value;
      PickMirror(s.shared, r, interfaces, fd.listenAddress, fd.listenPort, false);
      RaiseMirror(s, r, j, p);
      CheckMirror(s, r, j, p, false, lfd.events);
      CompleteMirror(RaiseInput(s, r, j, p), fd.num);
    }
  }

  lemma {:induction false} ScanMirror(s: Scan, r: Role, interfaces: seq<Option<nat>>, j: nat, maxevents: int)
    ensures ScanFrom(SwapScan(s), Other(r), interfaces, j, maxevents) ==
              SwapScan(ScanFrom(s, r, interfaces, j, maxevents))
    decreases |s.lfds| - j
  {
    hide Visit, SwapShared;
    if j < |s.lfds| && |s.log| < maxevents && !s.undefined {
      VisitMirror(s, r, interfaces, j);
      ScanMirror(Visit(s, r, interfaces, j), r, interfaces, j + 1, maxevents);
    }
  }

  lemma WaitMirror(r: Role, sh: Shared, l: Local, epfd: int, maxevents: int)
    ensures DoScan(Other(r), SwapShared(sh), l, epfd, maxevents) == SwapEffect(DoScan(r, sh, l, epfd, maxevents))
  {
    hide ScanFrom, SwapShared;
    var k := FindPollfd(l, epfd);
    if k.Some? {
      ScanMirror(StartScan(sh, l, k.value), r, l.interfaces, 0, maxevents);
    }
  }

  // ---------- all calls and runs ----------

  /** Every call in one role is the same call in the other role on the swapped memory. */
  lemma ApplyMirror(r: Role, sh: Shared, l: Local, call: Call)
    ensures Apply(Other(r), SwapShared(sh), l, call) == SwapEffect(Apply(r, sh, l, call))
  {
    hide SwapShared, DoAccept, DoConnectEx, DoSend, DoRecv, DoClose, DoScan, DoListen, DoEpollCtl, DoSocket, DoBind;
    match call
    case Listen(num, block) => ListenMirror(sh, l, num, block);
    case Accept(num, nonblock, named) => AcceptMirror(r, sh, l, num, nonblock, named);
    case Connect(num, addr, port, block) => ConnectMirror(r, sh, l, num, addr, port, block);
    case ConnectEx(num, addr, port, block) => ConnectMirror(r, sh, l, num, addr, port, block);
    case Send(num, data) => SendMirror(r, sh, l, num, data);
    case Recv(num, len, dontwait) => RecvMirror(r, sh, l, num, len, dontwait);
    case Close(num) => CloseMirror(r, sh, l, num);
    case Wait(epfd, maxevents) => WaitMirror(r, sh, l, epfd, maxevents);
    case _ =>
  }

  /** The system is symmetric: swapping the processes in a state and in a run swaps the result. */
  lemma {:induction false} RunMirror(s: Sys, moves: seq<Move>)
    ensures Run(SwapSys(s), SwapMoves(moves)) == SwapSys(Run(s, moves))
    decreases |moves|
  {
    hide SwapShared, Apply;
    if moves != [] {
      var m := moves[0];
      ApplyMirror(m.role, s.shared, s.Loc(m.role), m.call);
      assert SwapMoves(moves)[1..] == SwapMoves(moves[1..]);
      assert Step(SwapSys(s), SwapMoves(moves)[0]).0 == SwapSys(Step(s, m).0);
      RunMirror(Step(s, m).0, moves[1..]);
    }
  }

  /**
   On an open connection with a descriptor on each side, getpeername on one side is getsockname on the
   other, both ways, and neither fails.
   */
  lemma EndsAgree(s: Sys, r: Role, i: nat, j: nat, p: Ptr)
    requires SysInv(s) && p in s.shared.conns && s.shared.conns[p].connState == COpen
    requires i < |s.Loc(r).fds| && s.Loc(r).fds[i].active && s.Loc(r).fds[i].pConn == Some(p)
    requires j < |s.Loc(Other(r)).fds| && s.Loc(Other(r)).fds[j].active && s.Loc(Other(r)).fds[j].pConn == Some(p)
    ensures var a := s.Loc(r); var b := s.Loc(Other(r));
            var peer := GetPeerName(r, s.shared, a, a.fds[i].num);
            peer.Name? && peer == GetSockName(Other(r), s.shared, b, b.fds[j].num)
    ensures var a := s.Loc(r); var b := s.Loc(Other(r));
            var sock := GetSockName(r, s.shared, a, a.fds[i].num);
            sock.Name? && sock == GetPeerName(Other(r), s.shared, b, b.fds[j].num)
  {
    hide CountsOk, PollfdsOk, InterfacesOk;
    var a := s.Loc(r);
    var b := s.Loc(Other(r));
    assert FdOk(s.shared, a.fds[i]) && FdOk(s.shared, b.fds[j]);
    assert FindFd(a.fds, a.fds[i].num) == Some(i);
    assert FindFd(b.fds, b.fds[j].num) == Some(j);
    assert s.shared.conns[p].iface.Some? && s.shared.conns[p].iface.value < |s.shared.ifaces|;
  }
}
