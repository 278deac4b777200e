/**
 While no process binds a port between 10000 and 10198, every open connection joins the two processes:
 it has exactly one active descriptor on each side.
 */
module Sides {
  import opened Basics
  import opened Connections
  import opened Descriptors
  import opened Readiness
  import opened Duplex
  import opened Scanning
  import opened Reachability
  import opened Pairing
  import opened Ports
  import opened Mirror
  import opened LevelTriggered

  predicate SafePort(port: int) {
    port < FIRST_RANDOM_PORT || port >= PORT_LIMIT
  }

  predicate SafeCall(call: Call) {
    call.Bind? ==> SafePort(call.port)
  }

  ghost predicate ListenersSafe(l: Local) {
    forall i | 0 <= i < |l.fds| && l.fds[i].active && (l.fds[i].state == SBound || l.fds[i].state == SListen) ::
      SafePort(l.fds[i].listenPort)
  }

  /** The initiator's peer holds no descriptor while the connection is pending, and one once it is open. */
  predicate SideOk(c: Connection, birth: Birth, initiators: nat, others: nat) {
    && (c.connState == CCreate ==> others == 0)
    && (c.connState == COpen ==> initiators == 1 && others == 1)
  }

  /** `a` is the table of role `r`, `b` that of its peer. */
  ghost predicate SidesOk(r: Role, sh: Shared, a: Local, b: Local, births: Births) {
    forall p | p in sh.conns && sh.conns[p].iface.Some? && p in births.of ::
      if births.of[p].initiator == r then SideOk(sh.conns[p], births.of[p], |Slots(a.fds, p)|, |Slots(b.fds, p)|)
      else SideOk(sh.conns[p], births.of[p], |Slots(b.fds, p)|, |Slots(a.fds, p)|)
  }

  // ---------- how calls move pointers ----------

  ghost predicate PointersKept(l: Local, l': Local) {
    |l'.fds| == |l.fds| && forall i | 0 <= i < |l.fds| ::
      l'.fds[i].active == l.fds[i].active && (l.fds[i].active ==> l'.fds[i].pConn == l.fds[i].pConn)
  }

  ghost predicate StatesKept(sh: Shared, sh': Shared) {
    sh'.conns.Keys == sh.conns.Keys &&
    forall p | p in sh.conns ::
      sh'.conns[p].connState == sh.conns[p].connState && sh'.conns[p].iface == sh.conns[p].iface
  }

  lemma KeptKeepsSides(r: Role, sh: Shared, a: Local, b: Local, births: Births, sh': Shared, a': Local)
    requires SidesOk(r, sh, a, b, births) && PointersKept(a, a') && StatesKept(sh, sh')
    ensures SidesOk(r, sh', a', b, births)
  {
    forall p ensures Slots(a'.fds, p) == Slots(a.fds, p) {
    }
  }

  /** Calls that neither create, accept nor close. */
  predicate Calm(call: Call) {
    !call.Socket? && !call.Listen? && !call.Accept? && !call.Connect? && !call.ConnectEx? && !call.Close?
  }

  lemma CalmKeeps(r: Role, sh: Shared, l: Local, call: Call)
    requires Calm(call)
    ensures var e := Apply(r, sh, l, call); PointersKept(l, e.local) && StatesKept(sh, e.shared)
  {
    hide DoSend, DoRecv, DoScan, CtlTable;
    match call
    case Send(num, data) => SendKeeps(r, sh, l, num, data);
    case Recv(num, len, dontwait) => RecvKeeps(r, sh, l, num, len, dontwait);
    case Wait(epfd, maxevents) => ScanKeeps(r, sh, l, epfd, maxevents);
    case _ =>
  }

  lemma SendKeeps(r: Role, sh: Shared, l: Local, num: int, data: seq<Byte>)
    ensures var e := DoSend(r, sh, l, num, data); PointersKept(l, e.local) && StatesKept(sh, e.shared)
  {
    hide SetEvent;
  }

  lemma RecvKeeps(r: Role, sh: Shared, l: Local, num: int, len: nat, dontwait: bool)
    ensures var e := DoRecv(r, sh, l, num, len, dontwait); PointersKept(l, e.local) && StatesKept(sh, e.shared)
  {
    hide RecvConnection;
    var i := FindFd(l.fds, num);
    if i.Some? && Deref(sh, l.fds[i.value].pConn).Some? {
      RecvKeepsStates(sh.conns[l.fds[i.value].pConn.value], r, len);
    }
  }

  lemma ScanKeeps(r: Role, sh: Shared, l: Local, epfd: int, maxevents: int)
    ensures var e := DoScan(r, sh, l, epfd, maxevents); PointersKept(l, e.local) && StatesKept(sh, e.shared)
  {
    hide ScanFrom;
    var k := FindPollfd(l, epfd);
    if k.Some? {
      var s := StartScan(sh, l, k.value);
      var t := ScanFrom(s, r, l.interfaces, 0, maxevents);
      ScanFromFrame(s, r, l.interfaces, 0, maxevents);
      forall i | 0 <= i < |l.fds| ensures t.fds[i].active == l.fds[i].active && t.fds[i].pConn == l.fds[i].pConn {
        assert t.fds[i] == l.fds[i] || Opened(sh, l.fds[i], t.fds[i]);
      }
    }
  }

  lemma WaitForAcceptKeeps(sh: Shared, l: Local, i: nat)
    requires i < |l.fds|
    ensures var e := WaitForAccept(sh, l, i); PointersKept(l, e.local) && e.shared == sh
  {
  }

  // ---------- the four calls that move pointers ----------

  lemma SocketKeepsSides(r: Role, sh: Shared, a: Local, b: Local, births: Births, inet: bool, stream: bool,
                         nonblock: bool)
    requires SidesOk(r, sh, a, b, births)
    ensures SidesOk(r, sh, DoSocket(a, inet, stream, nonblock).0, b, births)
  {
    var a' := DoSocket(a, inet, stream, nonblock).0;
    if a' != a {
      var i := EmptyFd(a.fds).value;
      forall p ensures Slots(a'.fds, p) == Slots(a.fds, p) {
        SlotsAfterUpdate(a.fds, i, a'.fds[i], p);
      }
    }
  }

  lemma ListenKeepsSides(r: Role, sh: Shared, a: Local, b: Local, births: Births, num: int, block: Ptr)
    requires SidesOk(r, sh, a, b, births) && FdsOk(sh, a) && (StartsListen(a, num) ==> block !in sh.conns)
    ensures var e := DoListen(sh, a, num, block); SidesOk(r, e.shared, e.local, b, births)
  {
    var e := DoListen(sh, a, num, block);
    if e.local != a {
      var i := FindFd(a.fds, num).value;
      assert FdOk(sh, a.fds[i]);
      forall p | p in sh.conns ensures Slots(e.local.fds, p) == Slots(a.fds, p) {
        SlotsAfterUpdate(a.fds, i, e.local.fds[i], p);
      }
    }
  }

  lemma PublishKeepsSides(r: Role, sh: Shared, a: Local, b: Local, births: Births, i: nat, c: Connection, block: Ptr,
                          birth: Birth)
    requires SidesOk(r, sh, a, b, births) && FdsOk(sh, b) && block !in sh.conns
    requires i < |a.fds| && a.fds[i].pConn.None? && birth.initiator == r
    requires c.connState == CCreate && c.iface.Some? && c.iface.value < |sh.ifaces|
    ensures SidesOk(r, Publish(sh, block, c),
                    a.WithFd(i, a.fds[i].(pConn := Some(block), state := SConnecting)).(randomPort := a.randomPort + 1),
                      b,
                    Births(births.of[block := birth], births.clock + 1))
  {
    var a' := a.WithFd(i, a.fds[i].(pConn := Some(block), state := SConnecting)).(randomPort := a.randomPort + 1);
    NotReferenced(block, sh, b);
    forall p | p != block ensures Slots(a'.fds, p) == Slots(a.fds, p) {
      SlotsAfterUpdate(a.fds, i, a'.fds[i], p);
    }
  }

  lemma ConnectKeepsSides(r: Role, sh: Shared, a: Local, b: Local, births: Births, call: Call)
    requires SidesOk(r, sh, a, b, births) && FdsOk(sh, a) && FdsOk(sh, b) && AllocationOk(r, sh, a, call)
    requires call.Connect? || call.ConnectEx?
    ensures var e := Apply(r, sh, a, call); SidesOk(r, e.shared, e.local, b, ObserveBirth(r, sh, a, births, call))
  {
    hide SidesOk, Publish, InterfaceBySockaddr;
    var f := FindFd(a.fds, call.num);
    var e := Apply(r, sh, a, call);
    if f.Some? {
      var i := f.value;
      assert FdOk(sh, a.fds[i]);
      if Creates(r, sh, a, call) {
        var birth := Birth(r, call.addr, call.port, births.clock);
        var c := Created(r, sh, a, call);
        PublishKeepsSides(r, sh, a, b, births, i, c, call.block, birth);
        var a' := a.WithFd(i, a.fds[i].(pConn := Some(call.block), state := SConnecting)).(randomPort :=
                    a.randomPort + 1);
        WaitForAcceptKeeps(Publish(sh, call.block, c), a', i);
        KeptKeepsSides(r, Publish(sh, call.block, c), a', b, ObserveBirth(r, sh, a, births, call), e.shared, e.local);
      } else {
        WaitForAcceptKeeps(sh, a, i);
        assert PointersKept(a, e.local) && e.shared == sh;
        KeptKeepsSides(r, sh, a, b, births, e.shared, e.local);
      }
    }
  }

  lemma EstablishKeepsSides(r: Role, sh: Shared, a: Local, b: Local, births: Births, i: nat, fd: Fd, p: Ptr)
    requires SidesOk(r, sh, a, b, births) && CountsOk(sh, a, b) && p in sh.conns && sh.conns[p].connState == CCreate
    requires i < |a.fds| && !a.fds[i].active && fd.active && fd.pConn == Some(p)
    requires p in births.of && births.of[p].initiator == Other(r)
    ensures SidesOk(r, sh.Put(p, sh.conns[p].(connState := COpen)),
                    a.WithFd(i, fd).(currentMaxFd := a.currentMaxFd + 1), b, births)
  {
    var a' := a.WithFd(i, fd).(currentMaxFd := a.currentMaxFd + 1);
    assert References(p, a, b) == 1;
    assert i !in Slots(a.fds, p);
    forall q ensures Slots(a'.fds, q) == if q == p then Slots(a.fds, q) + {i} else Slots(a.fds, q) {
      SlotsAfterUpdate(a.fds, i, fd, q);
    }
  }

  lemma AcceptKeepsSides(r: Role, sh: Shared, a: Local, b: Local, births: Births, theirs: int, num: int, nonblock: bool,
                         named: bool)
    requires SidesOk(r, sh, a, b, births) && CountsOk(sh, a, b) && RecordsOk(r, sh, a.randomPort, theirs, births)
    requires PortBound(a) && ListenersSafe(a)
    ensures var e := DoAccept(r, sh, a, num, nonblock, named); SidesOk(r, e.shared, e.local, b, births)
  {
    hide SidesOk, PickOnTable, GetPeerName, PortBound;
    var e := DoAccept(r, sh, a, num, nonblock, named);
    if e.local != a {
      var i := FindFd(a.fds, num).value;
      var fd := a.fds[i];
      var p := AcceptOnAnyIface(sh, r, a.interfaces, fd.listenAddress, fd.listenPort).value;
      ListenerBoundsPorts(a, i);
      assert sh.conns[p].iface.Some?;
      assert births.of[p].initiator == Other(r);
      EstablishKeepsSides(r, sh, a, b, births, EmptyFd(a.fds).value, e.local.fds[EmptyFd(a.fds).value], p);
    }
  }

  /** Releasing a descriptor whose connection disappears or becomes closed. */
  lemma ReleaseKeepsSides(r: Role, sh: Shared, a: Local, b: Local, births: Births, i: nat, sh': Shared)
    requires SidesOk(r, sh, a, b, births) && i < |a.fds|
    requires forall q | q in sh'.conns && a.fds[i].pConn != Some(q) :: q in sh.conns && sh'.conns[q] == sh.conns[q]
    requires forall q | q in sh'.conns && a.fds[i].pConn == Some(q) :: sh'.conns[q].connState == CClose
    ensures SidesOk(r, sh', Released(a, i), b, births)
  {
    forall q: Ptr | a.fds[i].pConn != Some(q) ensures Slots(Released(a, i).fds, q) == Slots(a.fds, q) {
      SlotsAfterUpdate(a.fds, i, Released(a, i).fds[i], q);
    }
  }

  lemma CloseKeepsSides(r: Role, sh: Shared, a: Local, b: Local, births: Births, num: int)
    requires SidesOk(r, sh, a, b, births)
    ensures var e := DoClose(r, sh, a, num); SidesOk(r, e.shared, e.local, b, births)
  {
    hide SidesOk, RemoveFirst;
    var e := DoClose(r, sh, a, num);
    var f := FindFd(a.fds, num);
    if e.local.fds == a.fds && e.shared == sh {
      SameTablesKeepSides(r, sh, a, b, births, e.local);
    } else {
      ReleaseKeepsSides(r, sh, a, b, births, f.value, e.shared);
    }
  }

  lemma SameTablesKeepSides(r: Role, sh: Shared, a: Local, b: Local, births: Births, a': Local)
    requires SidesOk(r, sh, a, b, births) && a'.fds == a.fds
    ensures SidesOk(r, sh, a', b, births)
  {
  }

  lemma ApplyKeepsSides(r: Role, sh: Shared, a: Local, b: Local, births: Births, theirs: int, call: Call)
    requires SidesOk(r, sh, a, b, births) && Inv(sh, a, b) && AllocationOk(r, sh, a, call)
    requires RecordsOk(r, sh, a.randomPort, theirs, births) && PortBound(a) && ListenersSafe(a)
    ensures var e := Apply(r, sh, a, call); SidesOk(r, e.shared, e.local, b, ObserveBirth(r, sh, a, births, call))
  {
    hide SidesOk, DoSocket, DoListen, DoAccept, DoConnectEx, DoConnect, DoClose, DoSend, DoRecv, DoScan, DoBind,
        DoEpollCtl, RecordsOk, PortBound, ListenersSafe, CountsOk, ListsOk, PointersKept, StatesKept;
    if Calm(call) {
      CalmKeeps(r, sh, a, call);
      KeptKeepsSides(r, sh, a, b, births, Apply(r, sh, a, call).shared, Apply(r, sh, a, call).local);
    } else {
      match call
      case Socket(inet, stream, nonblock) => SocketKeepsSides(r, sh, a, b, births, inet, stream, nonblock);
      case Listen(num, block) => ListenKeepsSides(r, sh, a, b, births, num, block);
      case Accept(num, nonblock, named) => AcceptKeepsSides(r, sh, a, b, births, theirs, num, nonblock, named);
      case Connect(_, _, _, _) => ConnectKeepsSides(r, sh, a, b, births, call);
      case ConnectEx(_, _, _, _) => ConnectKeepsSides(r, sh, a, b, births, call);
      case Close(num) => CloseKeepsSides(r, sh, a, b, births, num);
    }
  }

  // ---------- listeners stay on safe ports ----------

  /** The rewritten slot is not a listener, or is one on a safe port, or keeps its port. */
  lemma SlotKeepsSafe(l: Local, l': Local, i: nat)
    requires ListenersSafe(l) && i < |l.fds| && |l'.fds| == |l.fds| && l'.fds == l.fds[i := l'.fds[i]]
    requires var fd := l'.fds[i];
             fd.active && (fd.state == SBound || fd.state == SListen) ==>
               SafePort(fd.listenPort) ||
               (l.fds[i].active && (l.fds[i].state == SBound || l.fds[i].state == SListen) &&
                fd.listenPort == l.fds[i].listenPort)
    ensures ListenersSafe(l')
  {
  }

  lemma NewDescriptorSafe(r: Role, sh: Shared, l: Local, call: Call)
    requires ListenersSafe(l) && (call.Socket? || call.Accept?)
    ensures ListenersSafe(Apply(r, sh, l, call).local)
  {
    hide ListenersSafe, GetPeerName, PickOnTable, SafePort;
    var e := Apply(r, sh, l, call);
    if e.local != l { SlotKeepsSafe(l, e.local, EmptyFd(l.fds).value); }
  }

  lemma ConnectSafe(r: Role, sh: Shared, l: Local, num: int, addr: int, port: int, block: Ptr)
    requires ListenersSafe(l)
    ensures ListenersSafe(DoConnectEx(r, sh, l, num, addr, port, block).local)
  {
    hide ListenersSafe, Publish, InterfaceBySockaddr, SafePort;
    var e := DoConnectEx(r, sh, l, num, addr, port, block);
    if e.local != l { SlotKeepsSafe(l, e.local, FindFd(l.fds, num).value); }
  }

  lemma CloseSafe(r: Role, sh: Shared, l: Local, num: int)
    requires ListenersSafe(l)
    ensures ListenersSafe(DoClose(r, sh, l, num).local)
  {
    hide ListenersSafe, RemoveConnection, MarkClosed, SafePort;
    var e := DoClose(r, sh, l, num);
    if e.local.fds == l.fds { SameFdsSafe(l, e.local); } else { SlotKeepsSafe(l, e.local, FindFd(l.fds, num).value); }
  }

  lemma SameFdsSafe(l: Local, l': Local)
    requires ListenersSafe(l) && l'.fds == l.fds
    ensures ListenersSafe(l')
  {
  }

  lemma OneSlotSafe(r: Role, sh: Shared, l: Local, call: Call)
    requires ListenersSafe(l) && SafeCall(call)
    requires call.Bind? || call.Listen? || call.Send? || call.Recv? || call.SetNonblock?
    ensures ListenersSafe(Apply(r, sh, l, call).local)
  {
    hide ListenersSafe, RecvConnection, SendConnection, SafePort;
    var e := Apply(r, sh, l, call);
    if e.local != l { SlotKeepsSafe(l, e.local, FindFd(l.fds, call.num).value); }
  }

  lemma ApplyKeepsSafe(r: Role, sh: Shared, l: Local, call: Call)
    requires ListenersSafe(l) && SafeCall(call)
    ensures ListenersSafe(Apply(r, sh, l, call).local)
  {
    hide ListenersSafe, DoSocket, DoBind, DoListen, DoAccept, DoConnectEx, DoSend, DoRecv, DoClose, DoScan, CtlTable;
    match call
    case Socket(_, _, _) => NewDescriptorSafe(r, sh, l, call);
    case Accept(_, _, _) => NewDescriptorSafe(r, sh, l, call);
    case Connect(num, addr, port, block) => ConnectSafe(r, sh, l, num, addr, port, block);
    case ConnectEx(num, addr, port, block) => ConnectSafe(r, sh, l, num, addr, port, block);
    case EpollCreate => SameFdsSafe(l, Apply(r, sh, l, call).local);
    case EpollCtl(_, _, _, _, _) => SameFdsSafe(l, Apply(r, sh, l, call).local);
    case PollOpen => SameFdsSafe(l, Apply(r, sh, l, call).local);
    case Close(num) => CloseSafe(r, sh, l, num);
    case Wait(epfd, maxevents) => ScanKeepsSafe(r, sh, l, epfd, maxevents);
    case _ => OneSlotSafe(r, sh, l, call);
  }

  lemma ScanKeepsSafe(r: Role, sh: Shared, l: Local, epfd: int, maxevents: int)
    requires ListenersSafe(l)
    ensures ListenersSafe(DoScan(r, sh, l, epfd, maxevents).local)
  {
    hide ScanFrom;
    var k := FindPollfd(l, epfd);
    if k.Some? {
      var t := ScanFrom(StartScan(sh, l, k.value), r, l.interfaces, 0, maxevents);
      ScanFromFrame(StartScan(sh, l, k.value), r, l.interfaces, 0, maxevents);
      forall i | 0 <= i < |t.fds| && t.fds[i].active && (t.fds[i].state == SBound || t.fds[i].state == SListen)
        ensures SafePort(t.fds[i].listenPort)
      {
        assert t.fds[i] == l.fds[i] || Opened(sh, l.fds[i], t.fds[i]);
      }
    }
  }

  // ---------- runs ----------

  ghost predicate AllSafe(moves: seq<Move>) {
    forall i | 0 <= i < |moves| :: SafeCall(moves[i].call)
  }

  /** Everything the argument needs of a state. */
  ghost predicate Joined(s: Sys, births: Births) {
    && SysInv(s) && SysBirthsOk(s, births)
    && PortBound(s.server) && PortBound(s.client) && ListenersSafe(s.server) && ListenersSafe(s.client)
    && SidesOk(Server, s.shared, s.server, s.client, births)
  }

  lemma SidesSymmetric(r: Role, sh: Shared, a: Local, b: Local, births: Births)
    requires SidesOk(r, sh, a, b, births)
    ensures SidesOk(Other(r), sh, b, a, births)
  {
  }

  lemma StepKeepsJoined(s: Sys, births: Births, m: Move)
    requires Joined(s, births) && AllocationOk(m.role, s.shared, s.Loc(m.role), m.call) && SafeCall(m.call)
    ensures Joined(Step(s, m).0, ObserveBirth(m.role, s.shared, s.Loc(m.role), births, m.call))
  {
    hide Inv, Apply, SidesOk, PortBound, ListenersSafe, RecordsOk, ListsNewestFirst, ObserveBirth;
    StepKeepsInv(s, m);
    assert ListsOk(s.shared) by { SysListsOk(s); }
    StepKeepsBirths(s, births, m);
    ApplyKeepsBound(m.role, s.shared, s.Loc(m.role), m.call);
    ApplyKeepsSafe(m.role, s.shared, s.Loc(m.role), m.call);
    if m.role == Server {
      ApplyKeepsSides(Server, s.shared, s.server, s.client, births, s.client.randomPort, m.call);
    } else {
      SidesSymmetric(Server, s.shared, s.server, s.client, births);
      OtherView(Server, s.shared, s.server.randomPort, s.client.randomPort, births);
      InvSymmetric(s.shared, s.server, s.client);
      ApplyKeepsSides(Client, s.shared, s.client, s.server, births, s.server.randomPort, m.call);
      var t := Step(s, m).0;
      SidesSymmetric(Client, t.shared, t.client, t.server, ObserveBirth(Client, s.shared, s.client, births, m.call));
    }
  }

  lemma {:induction false} RunKeepsJoined(s: Sys, births: Births, moves: seq<Move>)
    requires Joined(s, births) && Playable(s, moves) && AllSafe(moves)
    ensures Joined(Run(s, moves), RunBirths(s, births, moves))
    decreases |moves|
  {
    hide Joined, Step, ObserveBirth;
    if moves != [] {
      StepKeepsJoined(s, births, moves[0]);
      RunKeepsJoined(Step(s, moves[0]).0,
                     ObserveBirth(moves[0].role, s.shared, s.Loc(moves[0].role), births, moves[0].call), moves[1..]);
    }
  }

  lemma InitialJoined(s: Sys)
    requires Initial(s)
    ensures Joined(s, Births(map[], 0))
  {
    InitialInv(s);
    InitialBound(s.server);
    InitialBound(s.client);
  }

  /**
   Every open connection has exactly one active descriptor in each process, and the two ends agree on
   their names: getpeername on either side is getsockname on the other.
   */
  lemma OpenJoinsBothSides(s: Sys, moves: seq<Move>, p: Ptr, r: Role) returns (i: nat, j: nat)
    requires Initial(s) && Playable(s, moves) && AllSafe(moves)
    requires p in Run(s, moves).shared.conns && Run(s, moves).shared.conns[p].connState == COpen
    ensures var t := Run(s, moves);
            Slots(t.Loc(r).fds, p) == {i} && Slots(t.Loc(Other(r)).fds, p) == {j} &&
            i < |t.Loc(r).fds| && j < |t.Loc(Other(r)).fds| &&
            var peer := GetPeerName(r, t.shared, t.Loc(r), t.Loc(r).fds[i].num);
            peer.Name? && peer == GetSockName(Other(r), t.shared, t.Loc(Other(r)), t.Loc(Other(r)).fds[j].num)
  {
    hide Run, RunBirths, Playable, AllSafe, GetPeerName, GetSockName;
    InitialJoined(s);
    RunKeepsJoined(s, Births(map[], 0), moves);
    var t := Run(s, moves);
    var births := RunBirths(s, Births(map[], 0), moves);
    OneEach(t, births, p, r);
    i :| i in Slots(t.Loc(r).fds, p);
    j :| j in Slots(t.Loc(Other(r)).fds, p);
    Singleton(Slots(t.Loc(r).fds, p), i);
    Singleton(Slots(t.Loc(Other(r)).fds, p), j);
    EndsAgree(t, r, i, j, p);
  }

  lemma OneEach(t: Sys, births: Births, p: Ptr, r: Role)
    requires Joined(t, births) && p in t.shared.conns && t.shared.conns[p].connState == COpen
    ensures |Slots(t.Loc(r).fds, p)| == 1 && |Slots(t.Loc(Other(r)).fds, p)| == 1
  {
    hide PortBound, ListenersSafe, LocalOk, ListsOk, ListsNewestFirst;
    assert t.shared.conns[p].iface.Some?;
  }

  lemma Singleton(s: set<nat>, x: nat)
    requires |s| == 1 && x in s
    ensures s == {x}
  {
    assert |s - {x}| == 0;
  }

  lemma TwoOfOne(fds: seq<Fd>, p: Ptr, i: nat, j: nat)
    requires i < |fds| && j < |fds| && i != j && fds[i].active && fds[j].active && fds[i].pConn == Some(p) &&
             fds[j].pConn == Some(p)
    ensures |Slots(fds, p)| >= 2
  {
    assert {i, j} <= Slots(fds, p);
    assert |Slots(fds, p) - {i, j}| + |{i, j}| == |Slots(fds, p)|;
  }

  /** No process holds two descriptors of one connection. */
  lemma OneDescriptorEach(t: Sys, births: Births, r: Role, i: nat, j: nat)
    requires Joined(t, births) && i < |t.Loc(r).fds| && j < |t.Loc(r).fds| && i != j
    requires t.Loc(r).fds[i].active && t.Loc(r).fds[j].active && t.Loc(r).fds[i].pConn.Some?
    ensures t.Loc(r).fds[j].pConn != t.Loc(r).fds[i].pConn
  {
    hide PortBound, ListenersSafe, ListsOk, ListsNewestFirst, SidesOk, RecordsOk, NumbersOk, PollfdsOk, InterfacesOk;
    assert FdOk(t.shared, t.Loc(r).fds[i]);
    var p := t.Loc(r).fds[i].pConn.value;
    if t.Loc(r).fds[j].pConn == Some(p) {
      TwoOfOne(t.Loc(r).fds, p, i, j);
      assert References(p, t.server, t.client) == ReferenceCount(t.shared.conns[p]);
      assert t.shared.conns[p].connState == COpen;
      OneEach(t, births, p, r);
    }
  }

  /** So in every reachable state on safe ports a scan of any table is the filter-map of `MixedScan`. */
  lemma ReachableTablesAreMixed(s: Sys, moves: seq<Move>, r: Role, k: nat)
    requires Initial(s) && Playable(s, moves) && AllSafe(moves) && k < |Run(s, moves).Loc(r).pollfds|
    ensures MixedTable(StartScan(Run(s, moves).shared, Run(s, moves).Loc(r), k))
  {
    hide Run, RunBirths, Playable, AllSafe, PortBound, ListenersSafe, SidesOk, RecordsOk, ListsNewestFirst, ListsOk,
        CountsOk;
    InitialJoined(s);
    RunKeepsJoined(s, Births(map[], 0), moves);
    var t := Run(s, moves);
    var l := t.Loc(r);
    var births := RunBirths(s, Births(map[], 0), moves);
    var scan := StartScan(t.shared, l, k);
    assert TableOk(l.pollfds[k].lfds);
    assert ScanReady(scan);
    forall m, n | 0 <= m < n < |scan.lfds| ensures Apart(scan, m, n) {
      var i := scan.lfds[m].slot;
      var j := scan.lfds[n].slot;
      if scan.lfds[m].active && scan.lfds[n].active && i < |l.fds| && j < |l.fds| && l.fds[i].active &&
        l.fds[j].active && l.fds[i].pConn.Some? {
        OneDescriptorEach(t, births, r, i, j);
      }
    }
  }
}
