/**
 The invariant holds in every reachable state, so no call follows a null or freed pointer except in
 the three places where the callers can cause it; those are characterised exactly.
 */
module Reachability {
  import opened Basics
  import opened Connections
  import opened Descriptors
  import opened Readiness
  import opened Duplex
  import opened Scanning

  lemma AcceptKeepsCounts(sh: Shared, a: Local, b: Local, sh': Shared, a': Local, i: nat, p: Ptr)
    requires CountsOk(sh, a, b) && p in sh.conns && sh.conns[p].connState == CCreate
    requires sh'.conns == sh.conns[p := sh.conns[p].(connState := COpen)]
    requires i < |a.fds| && !a.fds[i].active && |a'.fds| == |a.fds| && a'.fds == a.fds[i := a'.fds[i]]
    requires a'.fds[i].active && a'.fds[i].pConn == Some(p)
    ensures CountsOk(sh', a', b)
  {
    forall q | q in sh'.conns ensures References(q, a', b) == ReferenceCount(sh'.conns[q]) {
      ReferencesAfterUpdate(a, a', b, i, a'.fds[i], q);
    }
  }

  lemma AcceptKeepsFds(sh: Shared, l: Local, p: Ptr)
    requires FdsOk(sh, l) && p in sh.conns && sh.conns[p].connState == CCreate
    ensures FdsOk(sh.Put(p, sh.conns[p].(connState := COpen)), l)
  {
    FdsStayOk(sh, l, sh.Put(p, sh.conns[p].(connState := COpen)));
  }

  lemma AcceptKeepsLists(sh: Shared, p: Ptr)
    requires ListsOk(sh) && p in sh.conns
    ensures ListsOk(sh.Put(p, sh.conns[p].(connState := COpen)))
  {
  }

  /** Taking a free slot for a new number. */
  lemma NewSlotKeepsNumbers(a: Local, i: nat, fd: Fd)
    requires NumbersOk(a) && i < |a.fds| && fd.num == a.currentMaxFd
    ensures NumbersOk(a.WithFd(i, fd).(currentMaxFd := a.currentMaxFd + 1))
  {
  }

  lemma EstablishKeepsInv(sh: Shared, a: Local, b: Local, i: nat, fd: Fd, p: Ptr)
    requires Inv(sh, a, b) && p in sh.conns && sh.conns[p].connState == CCreate
    requires i < |a.fds| && !a.fds[i].active && fd.active && fd.num == a.currentMaxFd && fd.pConn == Some(p) &&
             fd.state == SOpen
    ensures Inv(sh.Put(p, sh.conns[p].(connState := COpen)), a.WithFd(i, fd).(currentMaxFd := a.currentMaxFd + 1), b)
  {
    hide PollfdsOk, NumbersOk, ListsOk;
    var sh' := sh.Put(p, sh.conns[p].(connState := COpen));
    var a' := a.WithFd(i, fd).(currentMaxFd := a.currentMaxFd + 1);
    AcceptKeepsCounts(sh, a, b, sh', a', i, p);
    AcceptKeepsFds(sh, a, p);
    AcceptKeepsFds(sh, b, p);
    AcceptKeepsLists(sh, p);
    NewSlotKeepsNumbers(a, i, fd);
    assert FdsOk(sh', a') by {
      hide CountsOk, InterfacesOk;
      assert FdOk(sh', fd);
    }
    PollfdsKept(a, a');
  }

  lemma AcceptKeepsInv(r: Role, sh: Shared, a: Local, b: Local, num: int, nonblock: bool, named: bool)
    requires Inv(sh, a, b)
    ensures var e := DoAccept(r, sh, a, num, nonblock, named); Inv(e.shared, e.local, b)
  {
    hide GetPeerName, PickOnTable, Inv;
    var e := DoAccept(r, sh, a, num, nonblock, named);
    if e.local != a {
      var fd := a.fds[FindFd(a.fds, num).value];
      var p := AcceptOnAnyIface(sh, r, a.interfaces, fd.listenAddress, fd.listenPort).value;
      var i := EmptyFd(a.fds).value;
      EstablishKeepsInv(sh, a, b, i, e.local.fds[i], p);
    }
  }

  lemma PollfdsKept(a: Local, a': Local)
    requires PollfdsOk(a) && a'.pollfds == a.pollfds && a'.randomPollFd == a.randomPollFd
    ensures PollfdsOk(a')
  {
  }

  lemma SendKeepsInv(r: Role, sh: Shared, a: Local, b: Local, num: int, data: seq<Byte>)
    requires Inv(sh, a, b)
    ensures var e := DoSend(r, sh, a, num, data); e.out != Undefined && Inv(e.shared, e.local, b)
  {
    hide PollfdsOk, NumbersOk, ListsOk, CountsOk, SetEvent;
    var e := DoSend(r, sh, a, num, data);
    var i := FindFd(a.fds, num);
    if i.Some? {
      assert FdOk(sh, a.fds[i.value]);
      PollfdsKept(a, e.local);
      QuietKeepsInv(sh, a, b, e.shared, e.local);
    }
  }

  lemma RecvKeepsStates(c: Connection, r: Role, len: nat)
    ensures RecvConnection(c, r, len).conn.iface == c.iface && RecvConnection(c, r, len).conn.connState == c.connState
  {
  }

  lemma RecvKeepsInv(r: Role, sh: Shared, a: Local, b: Local, num: int, len: nat, dontwait: bool)
    requires Inv(sh, a, b)
    ensures var e := DoRecv(r, sh, a, num, len, dontwait); e.out != Undefined && Inv(e.shared, e.local, b)
  {
    hide PollfdsOk, NumbersOk, ListsOk, CountsOk, RecvConnection;
    var e := DoRecv(r, sh, a, num, len, dontwait);
    var i := FindFd(a.fds, num);
    if i.Some? {
      assert FdOk(sh, a.fds[i.value]);
      if a.fds[i.value].pConn.Some? {
        RecvKeepsStates(sh.conns[a.fds[i.value].pConn.value], r, len);
      }
      PollfdsKept(a, e.local);
      QuietKeepsInv(sh, a, b, e.shared, e.local);
    }
  }

  lemma BindKeepsInv(sh: Shared, a: Local, b: Local, num: int, addr: int, port: int)
    requires Inv(sh, a, b)
    ensures Inv(sh, DoBind(a, num, addr, port).0, b)
  {
    hide PollfdsOk, NumbersOk, ListsOk, CountsOk;
    var a' := DoBind(a, num, addr, port).0;
    var i := FindFd(a.fds, num);
    if i.Some? {
      assert FdOk(sh, a.fds[i.value]);
      PollfdsKept(a, a');
      QuietKeepsInv(sh, a, b, sh, a');
    }
  }

  lemma SetNonblockKeepsInv(sh: Shared, a: Local, b: Local, num: int, nonblock: bool)
    requires Inv(sh, a, b)
    ensures Inv(sh, DoSetNonblock(a, num, nonblock).0, b)
  {
    hide PollfdsOk, NumbersOk, ListsOk, CountsOk;
    var a' := DoSetNonblock(a, num, nonblock).0;
    PollfdsKept(a, a');
    QuietKeepsInv(sh, a, b, sh, a');
  }

  /** Registration never gives a slot two active listeners. */
  lemma CtlKeepsTable(l: Local, lfds: seq<Listener>, op: CtlOp, num: int, events: EventMask, data: int)
    requires NumbersOk(l) && TableOk(lfds) && FindFd(l.fds, num).Some?
    ensures TableOk(CtlTable(l.fds, lfds, op, num, FindFd(l.fds, num).value, events, data).0)
  {
    hide IsEventSet;
    var i := FindFd(l.fds, num).value;
    assert forall k | 0 <= k < |l.fds| && l.fds[k].num == num :: k == i;
    assert forall j | 0 <= j < |lfds| && ListensTo(l.fds, lfds[j], num) :: lfds[j].slot == i;
  }

  lemma PollfdsUpdated(a: Local, k: nat, lfds: seq<Listener>)
    requires PollfdsOk(a) && k < |a.pollfds| && TableOk(lfds) &&
             (NoneActive(a.pollfds[k].lfds) ==> a.pollfds[k].active || NoneActive(lfds))
    ensures PollfdsOk(a.(pollfds := a.pollfds[k := a.pollfds[k].(lfds := lfds)]))
    ensures NoneActive(lfds) ==> PollfdsOk(a.(pollfds := a.pollfds[k := a.pollfds[k].(active := false, lfds := lfds)]))
  {
    hide TableOk, NoneActive;
  }

  lemma EpollCtlKeepsInv(sh: Shared, a: Local, b: Local, epfd: int, op: CtlOp, num: int, events: EventMask, data: int)
    requires Inv(sh, a, b)
    ensures Inv(sh, DoEpollCtl(a, epfd, op, num, events, data).0, b)
  {
    hide NumbersOk, ListsOk, CountsOk, CtlTable, TableOk;
    var a' := DoEpollCtl(a, epfd, op, num, events, data).0;
    var k := FindPollfd(a, epfd);
    if k.Some? && FindFd(a.fds, num).Some? {
      CtlKeepsTable(a, a.pollfds[k.value].lfds, op, num, events, data);
      PollfdsUpdated(a, k.value, CtlTable(a.fds, a.pollfds[k.value].lfds, op, num, FindFd(a.fds, num).value, events,
                                          data).0);
    }
    QuietKeepsInv(sh, a, b, sh, a');
  }

  lemma EpollCreateKeepsInv(sh: Shared, a: Local, b: Local)
    requires Inv(sh, a, b)
    ensures Inv(sh, DoEpollCreate(a).0, b)
  {
    hide NumbersOk, ListsOk, CountsOk, TableOk, NoneActive;
    QuietKeepsInv(sh, a, b, sh, DoEpollCreate(a).0);
  }

  lemma PollOpenKeepsInv(sh: Shared, a: Local, b: Local)
    requires Inv(sh, a, b)
    ensures Inv(sh, DoPollOpen(a).0, b)
  {
    hide NumbersOk, ListsOk, CountsOk, PollfdsOk, DoEpollCreate;
    EpollCreateKeepsInv(sh, a, b);
    var a' := DoPollOpen(a).0;
    var c := DoEpollCreate(a).0;
    if a.pollEpfd == -1 {
      PollfdsKept(c, a');
      QuietKeepsInv(sh, c, b, sh, a');
    }
  }

  lemma CloseKeepsInv(r: Role, sh: Shared, a: Local, b: Local, num: int)
    requires Inv(sh, a, b)
    ensures var e := DoClose(r, sh, a, num); e.out != Undefined && Inv(e.shared, e.local, b)
  {
    hide NumbersOk, ListsOk, CountsOk, CloseSocket;
    CloseSocketKeepsInv(r, sh, a, b, num);
    var k := FindPollfd(a, num);
    if num >= POLLFD_START && k.Some? {
      assert TableOk(Cleared(a.pollfds[k.value].lfds)) && NoneActive(Cleared(a.pollfds[k.value].lfds));
      PollfdsUpdated(a, k.value, Cleared(a.pollfds[k.value].lfds));
      QuietKeepsInv(sh, a, b, sh, DoClose(r, sh, a, num).local);
    }
  }

  lemma ScanIsQuiet(r: Role, sh: Shared, a: Local, k: nat, t: Scan)
    requires FdsOk(sh, a) && PollfdsOk(a) && k < |a.pollfds| && ScanFrame(r, StartScan(sh, a, k), t)
    ensures var a' := a.(fds := t.fds, pollfds := a.pollfds[k := a.pollfds[k].(lfds := t.lfds)]);
            Quiet(sh, a, t.shared, a') && PollfdsOk(a')
  {
    var a' := a.(fds := t.fds, pollfds := a.pollfds[k := a.pollfds[k].(lfds := t.lfds)]);
    assert TableOk(a.pollfds[k].lfds);
    assert TableOk(t.lfds);
    forall i | 0 <= i < |a.fds| && a.fds[i].active && t.fds[i].state != a.fds[i].state
      ensures FdOk(t.shared, t.fds[i])
    {
      assert Opened(sh, a.fds[i], t.fds[i]) && FdOk(sh, a.fds[i]);
    }
    forall i | 0 <= i < |a.fds|
      ensures a'.fds[i].active == a.fds[i].active && a'.fds[i].num == a.fds[i].num &&
              a'.fds[i].pConn == a.fds[i].pConn {
      assert t.fds[i] == a.fds[i] || Opened(sh, a.fds[i], t.fds[i]);
    }
  }

  lemma ScanKeepsInv(r: Role, sh: Shared, a: Local, b: Local, epfd: int, maxevents: int)
    requires Inv(sh, a, b)
    ensures var e := DoScan(r, sh, a, epfd, maxevents); Inv(e.shared, e.local, b)
  {
    hide NumbersOk, ListsOk, CountsOk, PollfdsOk, ScanFrame, ScanFrom, Quiet, FdsOk;
    var k := FindPollfd(a, epfd);
    if k.Some? {
      var s := StartScan(sh, a, k.value);
      var t := ScanFrom(s, r, a.interfaces, 0, maxevents);
      ScanFromFrame(s, r, a.interfaces, 0, maxevents);
      ScanIsQuiet(r, sh, a, k.value, t);
      QuietKeepsInv(sh, a, b, t.shared,
                    a.(fds := t.fds, pollfds := a.pollfds[k.value := a.pollfds[k.value].(lfds := t.lfds)]));
    }
  }

  lemma ApplyKeepsInv(r: Role, sh: Shared, a: Local, b: Local, call: Call)
    requires Inv(sh, a, b) && AllocationOk(r, sh, a, call)
    ensures var e := Apply(r, sh, a, call); Inv(e.shared, e.local, b)
  {
    hide Inv;
    match call
    case Socket(inet, stream, nonblock) => SocketKeepsInv(sh, a, b, inet, stream, nonblock);
    case Bind(num, addr, port) => BindKeepsInv(sh, a, b, num, addr, port);
    case Listen(num, block) => ListenKeepsInv(sh, a, b, num, block);
    case Accept(num, nonblock, named) => AcceptKeepsInv(r, sh, a, b, num, nonblock, named);
    case Connect(num, addr, port, block) => ConnectExKeepsInv(r, sh, a, b, num, addr, port, block);
    case ConnectEx(num, addr, port, block) => ConnectExKeepsInv(r, sh, a, b, num, addr, port, block);
    case Send(num, data) => SendKeepsInv(r, sh, a, b, num, data);
    case Recv(num, len, dontwait) => RecvKeepsInv(r, sh, a, b, num, len, dontwait);
    case Close(num) => CloseKeepsInv(r, sh, a, b, num);
    case SetNonblock(num, nonblock) => SetNonblockKeepsInv(sh, a, b, num, nonblock);
    case EpollCreate => EpollCreateKeepsInv(sh, a, b);
    case EpollCtl(epfd, op, num, events, userData) => EpollCtlKeepsInv(sh, a, b, epfd, op, num, events, userData);
    case Wait(epfd, maxevents) => ScanKeepsInv(r, sh, a, b, epfd, maxevents);
    case PollOpen => PollOpenKeepsInv(sh, a, b);
  }

  lemma InvSymmetric(sh: Shared, a: Local, b: Local)
    requires Inv(sh, a, b)
    ensures Inv(sh, b, a)
  {
    forall p ensures References(p, a, b) == References(p, b, a) {
    }
  }

  lemma StepKeepsInv(s: Sys, m: Move)
    requires SysInv(s) && AllocationOk(m.role, s.shared, s.Loc(m.role), m.call)
    ensures SysInv(Step(s, m).0)
  {
    hide Inv, Apply;
    if m.role == Client {
      InvSymmetric(s.shared, s.server, s.client);
    }
    ApplyKeepsInv(m.role, s.shared, s.Loc(m.role), s.Loc(Other(m.role)), m.call);
    if m.role == Client {
      InvSymmetric(Step(s, m).0.shared, Step(s, m).0.client, s.server);
    }
  }

  /** Every interleaving of the two processes keeps the invariant. */
  lemma {:induction false} RunKeepsInv(s: Sys, moves: seq<Move>)
    requires SysInv(s) && Playable(s, moves)
    ensures SysInv(Run(s, moves))
    decreases |moves|
  {
    hide SysInv, Step;
    if moves != [] {
      StepKeepsInv(s, moves[0]);
      RunKeepsInv(Step(s, moves[0]).0, moves[1..]);
    }
  }

  // ---------- reachable states ----------

  ghost predicate InitialLocal(sh: Shared, l: Local) {
    && InterfacesOk(sh, l) && |l.fds| == MAX_FDS && |l.pollfds| == MAX_POLLFDS
    && (forall i | 0 <= i < |l.fds| :: !l.fds[i].active && l.fds[i].num == 0)
    && (forall k | 0 <= k < |l.pollfds| :: !l.pollfds[k].active && |l.pollfds[k].lfds| == MAX_FDS_LISTEN &&
          forall j | 0 <= j < MAX_FDS_LISTEN :: !l.pollfds[k].lfds[j].active)
    && l.currentMaxFd == FD_START && l.randomPort == FIRST_RANDOM_PORT && l.randomPollFd == POLLFD_START
    && l.pollEpfd == -1
  }

  /** Both processes have registered their interfaces and made no call yet. */
  ghost predicate Initial(s: Sys) {
    && s.shared.conns == map[]
    && (forall k | 0 <= k < |s.shared.ifaces| :: s.shared.ifaces[k].connectionList == [])
    && InitialLocal(s.shared, s.server) && InitialLocal(s.shared, s.client)
  }

  lemma InitialInv(s: Sys)
    requires Initial(s)
    ensures SysInv(s)
  {
    forall k | 0 <= k < MAX_POLLFDS ensures TableOk(s.server.pollfds[k].lfds) && TableOk(s.client.pollfds[k].lfds) {
    }
  }

  /**
   In every reachable state `connState` is the exact number of active descriptors on a connection,
   each published connection is listed once by its interface, and no active descriptor dangles.
   */
  lemma ReferenceCounting(s: Sys, moves: seq<Move>)
    requires Initial(s) && Playable(s, moves)
    ensures var t := Run(s, moves);
            && (forall p | p in t.shared.conns ::
                References(p, t.server, t.client) == ReferenceCount(t.shared.conns[p]))
            && (forall p | p !in t.shared.conns :: References(p, t.server, t.client) == 0)
            && (forall k, p | 0 <= k < |t.shared.ifaces| && p in t.shared.ifaces[k].connectionList ::
                  p in t.shared.conns && t.shared.conns[p].iface == Some(k))
            && (forall k | 0 <= k < |t.shared.ifaces| :: NoDuplicates(t.shared.ifaces[k].connectionList))
  {
    hide Run, Playable;
    InitialInv(s);
    RunKeepsInv(s, moves);
    var t := Run(s, moves);
    forall p | p !in t.shared.conns ensures References(p, t.server, t.client) == 0 {
      UnallocatedIsUnreferenced(p, t.shared, t.server, t.client);
    }
  }

  /**
   Typing of descriptors in every reachable state: created and bound ones have no connection, a listening
   one has a private record, a connecting one a published record of any state, an open one a record that
   is open or closed, and one marked closed a closed record.
   */
  lemma DescriptorTyping(s: Sys, moves: seq<Move>, r: Role, i: nat)
    requires Initial(s) && Playable(s, moves)
    requires i < |Run(s, moves).Loc(r).fds| && Run(s, moves).Loc(r).fds[i].active
    ensures var fd := Run(s, moves).Loc(r).fds[i];
            fd.pConn == None <==> fd.state == SCreated || fd.state == SBound
    ensures var sh := Run(s, moves).shared;
            var fd := Run(s, moves).Loc(r).fds[i];
            fd.pConn.Some? ==>
              fd.pConn.value in sh.conns &&
              var c := sh.conns[fd.pConn.value];
              && (fd.state == SListen <==> c.connState == CListen)
              && (c.connState == CListen <==> c.iface == None)
              && (c.connState == CCreate ==> fd.state == SConnecting)
              && (fd.state == SClose ==> c.connState == CClose)
  {
    hide Run, Playable;
    InitialInv(s);
    RunKeepsInv(s, moves);
    assert FdOk(Run(s, moves).shared, Run(s, moves).Loc(r).fds[i]);
  }

  /** accept4 with a connection to take and no free slot. */
  predicate NoSlotForAccept(r: Role, sh: Shared, l: Local, call: Call) {
    && call.Accept? && FindFd(l.fds, call.num).Some? && EmptyFd(l.fds).None?
    && var fd := l.fds[FindFd(l.fds, call.num).value];
       fd.state == SListen && AcceptOnAnyIface(sh, r, l.interfaces, fd.listenAddress, fd.listenPort).Some?
  }

  /** accept4 with a connection to take and a null pointer for the peer's address. */
  predicate NamelessAccept(r: Role, sh: Shared, l: Local, call: Call) {
    && call.Accept? && !call.named && FindFd(l.fds, call.num).Some?
    && var fd := l.fds[FindFd(l.fds, call.num).value];
       fd.state == SListen && AcceptOnAnyIface(sh, r, l.interfaces, fd.listenAddress, fd.listenPort).Some?
  }

  /**
   epoll_pwait on a table that registers a socket which is neither listening nor connected, with fewer
   than `maxevents` reports before it.
   */
  ghost predicate ScanMeetsUnconnected(r: Role, sh: Shared, l: Local, call: Call) {
    && call.Wait? && FindPollfd(l, call.epfd).Some?
    && MeetsUnconnected(StartScan(sh, l, FindPollfd(l, call.epfd).value), r, l.interfaces, 0, call.maxevents)
  }

  /** epoll_pwait on a table that registers a socket which is neither listening nor connected. */
  predicate RegistersUnconnected(l: Local, call: Call) {
    && call.Wait? && FindPollfd(l, call.epfd).Some?
    && exists j | 0 <= j < |l.pollfds[FindPollfd(l, call.epfd).value].lfds| ::
         Unconnected(l.fds, l.pollfds[FindPollfd(l, call.epfd).value].lfds[j])
  }

  lemma ScanUndefined(r: Role, sh: Shared, l: Local, call: Call)
    requires FdsOk(sh, l) && NumbersOk(l) && PollfdsOk(l) && call.Wait?
    ensures DoScan(r, sh, l, call.epfd, call.maxevents).out == Undefined <==> ScanMeetsUnconnected(r, sh, l, call)
    ensures ScanMeetsUnconnected(r, sh, l, call) ==> RegistersUnconnected(l, call)
    ensures RegistersUnconnected(l, call) && call.maxevents >= MAX_FDS_LISTEN ==> ScanMeetsUnconnected(r, sh, l, call)
  {
    hide ScanFrom;
    var k := FindPollfd(l, call.epfd);
    if k.Some? {
      assert TableOk(l.pollfds[k.value].lfds);
      var s := StartScan(sh, l, k.value);
      assert ScanReady(s);
      ScanFromUndefined(s, r, l.interfaces, 0, call.maxevents);
      if RegistersUnconnected(l, call) && call.maxevents >= MAX_FDS_LISTEN {
        var j :| 0 <= j < |s.lfds| && Unconnected(s.fds, s.lfds[j]);
        RoomyScanMeets(s, r, l.interfaces, j, call.maxevents);
      }
    }
  }

  lemma ConnectDefined(r: Role, sh: Shared, l: Local, num: int, addr: int, port: int, block: Ptr)
    requires FdsOk(sh, l)
    ensures DoConnectEx(r, sh, l, num, addr, port, block).out != Undefined
  {
    var i := FindFd(l.fds, num);
    if i.Some? {
      assert FdOk(sh, l.fds[i.value]);
    }
  }

  /**
   Memory safety: under the invariant a call follows a null or freed pointer if and only if it is an
   accept of a connection without a free slot or without a place for the peer's name, or a scan that
   reaches an unconnected socket before its array is full.
   With room for all 20 listeners every scan of a table with an unconnected socket is such a scan.
   */
  lemma UndefinedExactly(r: Role, sh: Shared, a: Local, b: Local, call: Call)
    requires Inv(sh, a, b)
    ensures Apply(r, sh, a, call).out == Undefined <==>
            NoSlotForAccept(r, sh, a, call) || NamelessAccept(r, sh, a, call) || ScanMeetsUnconnected(r, sh, a, call)
    ensures ScanMeetsUnconnected(r, sh, a, call) ==> RegistersUnconnected(a, call)
    ensures RegistersUnconnected(a, call) && call.maxevents >= MAX_FDS_LISTEN ==> ScanMeetsUnconnected(r, sh, a, call)
  {
    hide Inv, MeetsUnconnected, DoScan, PickOnTable, DoConnectEx, DoSend, DoRecv, DoClose, GetPeerName, CtlTable;
    assert LocalOk(sh, a) by { InvGivesLocal(sh, a, b); }
    match call
    case Connect(num, addr, port, block) => ConnectDefined(r, sh, a, num, addr, port, block);
    case ConnectEx(num, addr, port, block) => ConnectDefined(r, sh, a, num, addr, port, block);
    case Send(num, data) => SendKeepsInv(r, sh, a, b, num, data);
    case Recv(num, len, dontwait) => RecvKeepsInv(r, sh, a, b, num, len, dontwait);
    case Close(num) => CloseKeepsInv(r, sh, a, b, num);
    case Wait(_, _) => ScanUndefined(r, sh, a, call);
    case EpollCtl(epfd, op, num, events, userData) => CtlDefined(a, epfd, op, num, events, userData);
    case _ =>
  }

  lemma InvGivesLocal(sh: Shared, a: Local, b: Local)
    requires Inv(sh, a, b)
    ensures LocalOk(sh, a) && LocalOk(sh, b)
  {
  }

  lemma CtlDefined(l: Local, epfd: int, op: CtlOp, num: int, events: EventMask, data: int)
    ensures DoEpollCtl(l, epfd, op, num, events, data).1 != Undefined
  {
  }

  /**
   close releases a descriptor if and only if its number is below the epoll range. socket() keeps to that
   range, but accept4 hands out the next number unchecked, and close then looks for an epoll table.
   */
  lemma CloseReleasesExactly(r: Role, sh: Shared, a: Local, b: Local, num: int)
    requires Inv(sh, a, b) && FindFd(a.fds, num).Some?
    ensures var i := FindFd(a.fds, num).value;
            var e := DoClose(r, sh, a, num);
            |e.local.fds| == |a.fds| && (e.local.fds[i].active == false <==> num < POLLFD_START)
  {
    hide ListsOk, CountsOk, PollfdsOk;
    var i := FindFd(a.fds, num).value;
    CloseKeepsInv(r, sh, a, b, num);
    assert FD_START <= num;
  }

  // ---------- connection states only move forward ----------

  /** create -> open -> close, and listen -> close. */
  predicate Forward(c: Connection, d: Connection) {
    && d.iface == c.iface
    && (d.connState == c.connState || d.connState == CClose || (c.connState == CCreate && d.connState == COpen))
  }

  ghost predicate AllForward(sh: Shared, sh': Shared) {
    forall p | p in sh.conns && p in sh'.conns :: Forward(sh.conns[p], sh'.conns[p])
  }

  lemma StepMovesForward(r: Role, sh: Shared, l: Local, call: Call)
    requires AllocationOk(r, sh, l, call)
    ensures AllForward(sh, Apply(r, sh, l, call).shared)
  {
    hide DoAccept, DoConnect, DoConnectEx, DoSend, DoRecv, DoClose, DoScan, DoListen, DoEpollCtl, DoBind, DoSocket;
    hide Creates, Created;
    match call
    case Connect(_, _, _, _) => CreationShape(r, sh, l, call);
    case ConnectEx(_, _, _, _) => CreationShape(r, sh, l, call);
    case Listen(num, block) => ListenForward(sh, l, num, block);
    case Accept(num, nonblock, named) => AcceptForward(r, sh, l, num, nonblock, named);
    case Send(num, data) => SendForward(r, sh, l, num, data);
    case Recv(num, len, dontwait) => RecvForward(r, sh, l, num, len, dontwait);
    case Close(num) => CloseForward(r, sh, l, num);
    case Wait(epfd, maxevents) => ScanForward(r, sh, l, epfd, maxevents);
    case _ =>
  }

  lemma ListenForward(sh: Shared, l: Local, num: int, block: Ptr)
    requires StartsListen(l, num) ==> block !in sh.conns
    ensures AllForward(sh, DoListen(sh, l, num, block).shared)
  {
  }

  lemma AcceptForward(r: Role, sh: Shared, l: Local, num: int, nonblock: bool, named: bool)
    ensures AllForward(sh, DoAccept(r, sh, l, num, nonblock, named).shared)
  {
    hide GetPeerName, PickOnTable;
  }

  lemma SendForward(r: Role, sh: Shared, l: Local, num: int, data: seq<Byte>)
    ensures AllForward(sh, DoSend(r, sh, l, num, data).shared)
  {
    hide SetEvent;
  }

  lemma RecvForward(r: Role, sh: Shared, l: Local, num: int, len: nat, dontwait: bool)
    ensures AllForward(sh, DoRecv(r, sh, l, num, len, dontwait).shared)
  {
  }

  lemma CloseForward(r: Role, sh: Shared, l: Local, num: int)
    ensures AllForward(sh, DoClose(r, sh, l, num).shared)
  {
    hide SetEvent;
  }

  lemma ScanForward(r: Role, sh: Shared, l: Local, epfd: int, maxevents: int)
    ensures AllForward(sh, DoScan(r, sh, l, epfd, maxevents).shared)
  {
    hide ScanFrom;
    var k := FindPollfd(l, epfd);
    if k.Some? {
      ScanFromFrame(StartScan(sh, l, k.value), r, l.interfaces, 0, maxevents);
    }
  }

  /** `p` holds a connection before every move and at the end. */
  predicate Survives(s: Sys, moves: seq<Move>, p: Ptr)
    decreases |moves|
  {
    p in s.shared.conns && (moves == [] || Survives(Step(s, moves[0]).0, moves[1..], p))
  }

  /** Over any run, as long as a record is not removed its state moves create -> open -> close. */
  lemma {:induction false} RunMovesForward(s: Sys, moves: seq<Move>, p: Ptr)
    requires Playable(s, moves) && Survives(s, moves, p)
    ensures p in Run(s, moves).shared.conns && Forward(s.shared.conns[p], Run(s, moves).shared.conns[p])
    decreases |moves|
  {
    hide Apply;
    if moves != [] {
      var m := moves[0];
      StepMovesForward(m.role, s.shared, s.Loc(m.role), m.call);
      RunMovesForward(Step(s, m).0, moves[1..], p);
    }
  }

  // ---------- descriptors keep their slots ----------

  /** Slot `i` is still in use, by the same number, and points where it pointed, if it did. */
  predicate SlotKept(l: Local, l': Local, i: nat) {
    i < |l.fds| && i < |l'.fds| && l'.fds[i].active == l.fds[i].active && l'.fds[i].num == l.fds[i].num &&
    (l.fds[i].pConn.Some? ==> l'.fds[i].pConn == l.fds[i].pConn)
  }

  lemma SlotOk(sh: Shared, l: Local, i: nat)
    requires FdsOk(sh, l) && i < |l.fds| && l.fds[i].active
    ensures FdOk(sh, l.fds[i])
  {
  }

  lemma AllocatorsKeepSlot(r: Role, sh: Shared, l: Local, call: Call, i: nat)
    requires FdsOk(sh, l) && i < |l.fds| && l.fds[i].active && (call.Socket? || call.Accept? || call.Listen?)
    ensures SlotKept(l, Apply(r, sh, l, call).local, i)
  {
    hide PickOnTable, GetPeerName, FdsOk;
    SlotOk(sh, l, i);
  }

  lemma ConnectKeepsSlot(r: Role, sh: Shared, l: Local, num: int, addr: int, port: int, block: Ptr, i: nat)
    requires FdsOk(sh, l) && i < |l.fds| && l.fds[i].active
    ensures SlotKept(l, DoConnectEx(r, sh, l, num, addr, port, block).local, i)
    ensures SlotKept(l, DoConnect(r, sh, l, num, addr, port, block).local, i)
  {
    hide Publish, InterfaceBySockaddr, FdsOk;
    SlotOk(sh, l, i);
  }

  lemma TransferKeepsSlot(r: Role, sh: Shared, l: Local, call: Call, i: nat)
    requires i < |l.fds| && l.fds[i].active && (call.Bind? || call.Send? || call.Recv? || call.SetNonblock?)
    ensures SlotKept(l, Apply(r, sh, l, call).local, i)
  {
    hide RecvConnection, SendConnection;
  }

  lemma CloseKeepsSlot(r: Role, sh: Shared, l: Local, num: int, i: nat)
    requires i < |l.fds| && l.fds[i].active && (num < POLLFD_START ==> num != l.fds[i].num)
    ensures SlotKept(l, DoClose(r, sh, l, num).local, i)
  {
    hide RemoveConnection, MarkClosed;
  }

  lemma ScanKeepsSlot(r: Role, sh: Shared, l: Local, epfd: int, maxevents: int, i: nat)
    requires i < |l.fds|
    ensures SlotKept(l, DoScan(r, sh, l, epfd, maxevents).local, i)
  {
    hide ScanFrom, ConnsFrame;
    var k := FindPollfd(l, epfd);
    if k.Some? {
      var s := StartScan(sh, l, k.value);
      ScanFromFrame(s, r, l.interfaces, 0, maxevents);
      var t := ScanFrom(s, r, l.interfaces, 0, maxevents);
      assert t.fds[i] == l.fds[i] || Opened(sh, l.fds[i], t.fds[i]);
    }
  }

  /** Only closing its number, below the epoll range, takes a descriptor out of its slot. */
  lemma CallKeepsSlot(r: Role, sh: Shared, l: Local, call: Call, i: nat)
    requires FdsOk(sh, l) && i < |l.fds| && l.fds[i].active
    requires call.Close? && call.num < POLLFD_START ==> call.num != l.fds[i].num
    ensures SlotKept(l, Apply(r, sh, l, call).local, i)
  {
    hide DoScan, DoConnect, DoConnectEx, DoAccept, DoListen, DoSocket, DoBind, DoSend, DoRecv, DoClose, CtlTable, FdsOk;
    match call
    case Wait(epfd, maxevents) => ScanKeepsSlot(r, sh, l, epfd, maxevents, i);
    case Close(num) => CloseKeepsSlot(r, sh, l, num, i);
    case EpollCreate =>
    case EpollCtl(_, _, _, _, _) =>
    case PollOpen =>
    case Bind(_, _, _) => TransferKeepsSlot(r, sh, l, call, i);
    case Send(_, _) => TransferKeepsSlot(r, sh, l, call, i);
    case Recv(_, _, _) => TransferKeepsSlot(r, sh, l, call, i);
    case SetNonblock(_, _) => TransferKeepsSlot(r, sh, l, call, i);
    case Connect(num, addr, port, block) => ConnectKeepsSlot(r, sh, l, num, addr, port, block, i);
    case ConnectEx(num, addr, port, block) => ConnectKeepsSlot(r, sh, l, num, addr, port, block, i);
    case _ => AllocatorsKeepSlot(r, sh, l, call, i);
  }

  // ---------- what calls leave alone ----------

  /** Calls on sockets, which leave the epoll tables alone. */
  predicate SocketCall(call: Call) {
    !call.EpollCreate? && !call.EpollCtl? && !call.Wait? && !call.PollOpen? && (call.Close? ==> call.num < POLLFD_START)
  }

  /** Only descriptors and their numbers change. */
  predicate OnlySockets(l: Local, l': Local) {
    l' == l.(fds := l'.fds, currentMaxFd := l'.currentMaxFd)
  }

  lemma TransferTouches(r: Role, sh: Shared, l: Local, call: Call)
    requires call.Bind? || call.Listen? || call.Send? || call.Recv? || call.SetNonblock? || call.Socket?
    ensures OnlySockets(l, Apply(r, sh, l, call).local)
  {
    hide RecvConnection, SendConnection;
  }

  lemma AcceptTouches(r: Role, sh: Shared, l: Local, num: int, nonblock: bool, named: bool)
    ensures OnlySockets(l, DoAccept(r, sh, l, num, nonblock, named).local)
  {
    hide PickOnTable, GetPeerName;
  }

  lemma CloseTouches(r: Role, sh: Shared, l: Local, num: int)
    ensures num < POLLFD_START ==> OnlySockets(l, DoClose(r, sh, l, num).local)
    ensures num >= POLLFD_START ==> DoClose(r, sh, l, num).local == l.(pollfds := DoClose(r, sh, l, num).local.pollfds)
  {
    hide RemoveConnection, MarkClosed;
  }

  lemma ConnectTouches(r: Role, sh: Shared, l: Local, num: int, addr: int, port: int, block: Ptr)
    ensures var l' := DoConnectEx(r, sh, l, num, addr, port, block).local;
            l' == l.(fds := l'.fds, randomPort := if StartsConnect(r, sh, l, num, addr) then l.randomPort + 1
                     else l.randomPort)
  {
    hide Publish, InterfaceBySockaddr;
  }

  lemma ScanTouches(r: Role, sh: Shared, l: Local, epfd: int, maxevents: int)
    ensures var l' := DoScan(r, sh, l, epfd, maxevents).local; l' == l.(fds := l'.fds, pollfds := l'.pollfds)
  {
    hide ScanFrom;
  }

  /** Interfaces never change, ephemeral ports only with a connect, the table of poll only with its first call. */
  lemma CallTouches(r: Role, sh: Shared, l: Local, call: Call)
    ensures var l' := Apply(r, sh, l, call).local;
            && l'.interfaces == l.interfaces
            && l'.randomPort == (if Creates(r, sh, l, call) then l.randomPort + 1 else l.randomPort)
            && (!call.PollOpen? || l.pollEpfd != -1 ==> l'.pollEpfd == l.pollEpfd)
            && (SocketCall(call) ==> l'.pollfds == l.pollfds && l'.randomPollFd == l.randomPollFd)
  {
    hide DoScan, DoConnectEx, DoAccept, DoListen, DoSocket, DoBind, DoSend, DoRecv, DoClose, DoSetNonblock, CtlTable;
    hide StartsConnect;
    match call
    case Wait(epfd, maxevents) => ScanTouches(r, sh, l, epfd, maxevents);
    case Close(num) => CloseTouches(r, sh, l, num);
    case EpollCreate =>
    case EpollCtl(_, _, _, _, _) =>
    case PollOpen =>
    case Accept(num, nonblock, named) => AcceptTouches(r, sh, l, num, nonblock, named);
    case Connect(num, addr, port, block) => ConnectCallTouches(r, sh, l, num, addr, port, block);
    case ConnectEx(num, addr, port, block) => ConnectTouches(r, sh, l, num, addr, port, block);
    case _ => TransferTouches(r, sh, l, call);
  }

  lemma ConnectCallTouches(r: Role, sh: Shared, l: Local, num: int, addr: int, port: int, block: Ptr)
    ensures var l' := DoConnect(r, sh, l, num, addr, port, block).local;
            l' == l.(fds := l'.fds, randomPort := if StartsConnect(r, sh, l, num, addr) then l.randomPort + 1
                     else l.randomPort)
  {
    hide DoConnectEx, InterfaceBySockaddr;
    ConnectTouches(r, sh, l, num, addr, port, block);
  }

  // ---------- moves of one process ----------

  ghost predicate PeerMoves(r: Role, moves: seq<Move>) {
    forall i | 0 <= i < |moves| :: moves[i].role == Other(r)
  }

  lemma {:induction false} PeersKeepTables(s: Sys, r: Role, moves: seq<Move>)
    requires PeerMoves(r, moves)
    ensures Run(s, moves).Loc(r) == s.Loc(r)
    decreases |moves|
  {
    hide Apply;
    if moves != [] {
      assert moves[0].role == Other(r);
      PeersKeepTables(Step(s, moves[0]).0, r, moves[1..]);
    }
  }

  // ---------- records of closed listeners ----------

  /** Private records, those of listening sockets, are never removed. */
  ghost predicate PrivateKept(sh: Shared, sh': Shared) {
    forall p | p in sh.conns && sh.conns[p].iface.None? :: p in sh'.conns
  }

  lemma CloseKeepsPrivate(r: Role, sh: Shared, l: Local, num: int)
    ensures PrivateKept(sh, DoClose(r, sh, l, num).shared)
  {
    hide SetEvent, RemoveFirst;
  }

  lemma RecvKeepsPrivate(r: Role, sh: Shared, l: Local, num: int, len: nat, dontwait: bool)
    ensures PrivateKept(sh, DoRecv(r, sh, l, num, len, dontwait).shared)
  {
    hide RecvConnection;
  }

  lemma ScanKeepsPrivate(r: Role, sh: Shared, l: Local, epfd: int, maxevents: int)
    ensures PrivateKept(sh, DoScan(r, sh, l, epfd, maxevents).shared)
  {
    hide ScanFrom, MasksOnly;
    var k := FindPollfd(l, epfd);
    if k.Some? {
      ScanFromFrame(StartScan(sh, l, k.value), r, l.interfaces, 0, maxevents);
    }
  }

  lemma StepKeepsPrivate(r: Role, sh: Shared, l: Local, call: Call)
    ensures PrivateKept(sh, Apply(r, sh, l, call).shared)
  {
    hide DoConnect, DoConnectEx, DoRecv, DoClose, DoScan, DoEpollCtl, DoBind, DoSocket, GetPeerName, PickOnTable,
        SetEvent;
    hide Creates, Created;
    match call
    case Connect(_, _, _, _) => CreationShape(r, sh, l, call);
    case ConnectEx(_, _, _, _) => CreationShape(r, sh, l, call);
    case Recv(num, len, dontwait) => RecvKeepsPrivate(r, sh, l, num, len, dontwait);
    case Close(num) => CloseKeepsPrivate(r, sh, l, num);
    case Wait(epfd, maxevents) => ScanKeepsPrivate(r, sh, l, epfd, maxevents);
    case _ =>
  }

  /** A record that nobody points at and nobody will ever remove. */
  predicate Leaked(sh: Shared, p: Ptr) {
    p in sh.conns && sh.conns[p].iface.None? && sh.conns[p].connState == CClose
  }

  lemma {:induction false} LeakedForever(s: Sys, moves: seq<Move>, p: Ptr)
    requires SysInv(s) && Playable(s, moves) && Leaked(s.shared, p)
    ensures Leaked(Run(s, moves).shared, p) && References(p, Run(s, moves).server, Run(s, moves).client) == 0
    decreases |moves|
  {
    hide Apply, FdsOk, NumbersOk, PollfdsOk, InterfacesOk, ListsOk, AllocationOk;
    if moves != [] {
      var m := moves[0];
      StepKeepsPrivate(m.role, s.shared, s.Loc(m.role), m.call);
      StepMovesForward(m.role, s.shared, s.Loc(m.role), m.call);
      StepKeepsInv(s, m);
      LeakedForever(Step(s, m).0, moves[1..], p);
    }
  }

  /**
   Closing a listening socket leaks its record: the descriptor is gone, closeConnection only marks the
   record, and in no later state does a descriptor point at it or its memory become free again.
   */
  lemma ClosedListenerLeaks(s: Sys, moves: seq<Move>, r: Role, num: int, more: seq<Move>)
    requires Initial(s) && Playable(s, moves) && num < POLLFD_START
    requires var l := Run(s, moves).Loc(r); FindFd(l.fds, num).Some? && l.fds[FindFd(l.fds, num).value].state == SListen
    requires Playable(Step(Run(s, moves), Move(r, Close(num))).0, more)
    ensures var l := Run(s, moves).Loc(r);
            var p := l.fds[FindFd(l.fds, num).value].pConn;
            var t := Run(Step(Run(s, moves), Move(r, Close(num))).0, more);
            p.Some? && Leaked(t.shared, p.value) && References(p.value, t.server, t.client) == 0
  {
    hide Run, Playable, Initial, NumbersOk, PollfdsOk, InterfacesOk, ListsOk, CountsOk, AllocationOk;
    InitialInv(s);
    RunKeepsInv(s, moves);
    var t := Run(s, moves);
    var m := Move(r, Close(num));
    var l := t.Loc(r);
    var fd := l.fds[FindFd(l.fds, num).value];
    assert FdOk(t.shared, fd);
    assert num >= FD_START by { NumberInRange(l, FindFd(l.fds, num).value); }
    assert AllocationOk(r, t.shared, l, m.call) by { NothingToAllocate(r, t.shared, l, num); }
    StepKeepsInv(t, m);
    assert Step(t, m).0.shared == t.shared.Put(fd.pConn.value, MarkClosed(t.shared.conns[fd.pConn.value], r));
    LeakedForever(Step(t, m).0, more, fd.pConn.value);
  }

  lemma NumberInRange(l: Local, i: nat)
    requires NumbersOk(l) && i < |l.fds| && l.fds[i].active
    ensures l.fds[i].num >= FD_START
  {
  }

  lemma NothingToAllocate(r: Role, sh: Shared, l: Local, num: int)
    ensures AllocationOk(r, sh, l, Close(num))
  {
  }

  lemma {:induction false} RunAppend(s: Sys, moves: seq<Move>, more: seq<Move>)
    ensures Run(s, moves + more) == Run(Run(s, moves), more)
    ensures Playable(s, moves + more) <==> Playable(s, moves) && Playable(Run(s, moves), more)
    decreases |moves|
  {
    hide Step, AllocationOk;
    if moves == [] {
      assert moves + more == more;
    } else {
      assert (moves + more)[1..] == moves[1..] + more;
      RunAppend(Step(s, moves[0]).0, moves[1..], more);
    }
  }

  lemma PlayNothing(s: Sys)
    ensures Playable(s, []) && Run(s, []) == s
  {
  }

  /** One more move at the end of a run. */
  lemma PlayMore(s: Sys, moves: seq<Move>, m: Move)
    requires Playable(s, moves) && Step(Run(s, moves), m).1 != Undefined
    requires AllocationOk(m.role, Run(s, moves).shared, Run(s, moves).Loc(m.role), m.call)
    ensures Playable(s, moves + [m]) && Run(s, moves + [m]) == Step(Run(s, moves), m).0
    ensures moves == [] ==> moves + [m] == [m]
  {
    hide Step, AllocationOk;
    RunAppend(s, moves, [m]);
    var t := Run(s, moves);
    assert [m][1..] == [];
    assert Run(t, [m]) == Run(Step(t, m).0, []) && Playable(Step(t, m).0, []);
  }
}
