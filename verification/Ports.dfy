/**
 Ephemeral ports. A process never gets past port 10198 while it owns a listening socket, so a listener
 outside 10000..10198 never takes a connection of its own process; inside that range it can.
 */
module Ports {
  import opened Basics
  import opened Connections
  import opened Descriptors
  import opened Readiness
  import opened Duplex
  import opened Scanning
  import opened Reachability
  import opened Pairing

  /** The first port that is never ephemeral for a process with a listening socket. */
  const PORT_LIMIT := 10199

  /** A socket that has not been connected yet counts 1. */
  function NotConnected(fd: Fd): nat {
    if fd.active && (fd.state == SCreated || fd.state == SBound || fd.state == SListen) then 1 else 0
  }

  ghost function Unconnecteds(fds: seq<Fd>): set<nat> {
    set i | 0 <= i < |fds| && NotConnected(fds[i]) == 1
  }

  /** Each connect uses up a socket, and at most 200 sockets are ever created. */
  ghost predicate PortBound(l: Local) {
    && FD_START <= l.currentMaxFd
    && l.randomPort - FIRST_RANDOM_PORT + |Unconnecteds(l.fds)| <=
         (if l.currentMaxFd < POLLFD_START then l.currentMaxFd else POLLFD_START) - FD_START
  }

  lemma UnconnectedsAfterUpdate(fds: seq<Fd>, i: nat, fd: Fd)
    requires i < |fds|
    ensures |Unconnecteds(fds[i := fd])| == |Unconnecteds(fds)| + NotConnected(fd) - NotConnected(fds[i])
  {
    assert i in Unconnecteds(fds) <==> NotConnected(fds[i]) == 1;
    assert Unconnecteds(fds[i := fd]) == if NotConnected(fd) == 1 then Unconnecteds(fds) + {i}
             else Unconnecteds(fds) - {i};
  }

  /** One slot is rewritten; the other counters move as `ports` and `numbers` say. */
  lemma UpdateKeepsBound(l: Local, l': Local, i: nat)
    requires PortBound(l) && i < |l.fds| && |l'.fds| == |l.fds| && l'.fds == l.fds[i := l'.fds[i]]
    requires l'.currentMaxFd >= l.currentMaxFd
    requires NotConnected(l'.fds[i]) + l'.randomPort <= NotConnected(l.fds[i]) + l.randomPort ||
             (l.currentMaxFd < POLLFD_START && l'.currentMaxFd == l.currentMaxFd + 1 &&
              NotConnected(l'.fds[i]) + l'.randomPort <= NotConnected(l.fds[i]) + l.randomPort + 1)
    ensures PortBound(l')
  {
    UnconnectedsAfterUpdate(l.fds, i, l'.fds[i]);
  }

  lemma NewDescriptorKeepsBound(r: Role, sh: Shared, l: Local, call: Call)
    requires PortBound(l) && (call.Socket? || call.Accept?)
    ensures PortBound(Apply(r, sh, l, call).local)
  {
    hide PortBound, GetPeerName, PickOnTable;
    var e := Apply(r, sh, l, call);
    if e.local != l { UpdateKeepsBound(l, e.local, EmptyFd(l.fds).value); }
  }

  lemma ConnectKeepsBound(r: Role, sh: Shared, l: Local, num: int, addr: int, port: int, block: Ptr)
    requires PortBound(l)
    ensures PortBound(DoConnectEx(r, sh, l, num, addr, port, block).local)
  {
    hide PortBound, Publish, InterfaceBySockaddr;
    var e := DoConnectEx(r, sh, l, num, addr, port, block);
    if e.local != l { UpdateKeepsBound(l, e.local, FindFd(l.fds, num).value); }
  }

  lemma CloseKeepsBound(r: Role, sh: Shared, l: Local, num: int)
    requires PortBound(l)
    ensures PortBound(DoClose(r, sh, l, num).local)
  {
    hide PortBound, RemoveConnection, MarkClosed;
    var e := DoClose(r, sh, l, num);
    if e.local.fds == l.fds {
      SameFdsKeepsBound(l, e.local);
    } else {
      UpdateKeepsBound(l, e.local, FindFd(l.fds, num).value);
    }
  }

  lemma OneSlotKeepsBound(r: Role, sh: Shared, l: Local, call: Call)
    requires PortBound(l) && (call.Bind? || call.Listen? || call.Send? || call.Recv? || call.SetNonblock?)
    ensures PortBound(Apply(r, sh, l, call).local)
  {
    hide PortBound, RecvConnection, SendConnection;
    var e := Apply(r, sh, l, call);
    if e.local != l { UpdateKeepsBound(l, e.local, FindFd(l.fds, call.num).value); }
  }

  lemma ApplyKeepsBound(r: Role, sh: Shared, l: Local, call: Call)
    requires PortBound(l)
    ensures PortBound(Apply(r, sh, l, call).local)
  {
    hide PortBound, DoSocket, DoBind, DoListen, DoAccept, DoConnectEx, DoSend, DoRecv, DoClose, DoScan, CtlTable;
    match call
    case Socket(_, _, _) => NewDescriptorKeepsBound(r, sh, l, call);
    case Accept(_, _, _) => NewDescriptorKeepsBound(r, sh, l, call);
    case Connect(num, addr, port, block) => ConnectKeepsBound(r, sh, l, num, addr, port, block);
    case ConnectEx(num, addr, port, block) => ConnectKeepsBound(r, sh, l, num, addr, port, block);
    case EpollCreate => SameFdsKeepsBound(l, Apply(r, sh, l, call).local);
    case EpollCtl(_, _, _, _, _) => SameFdsKeepsBound(l, Apply(r, sh, l, call).local);
    case PollOpen => SameFdsKeepsBound(l, Apply(r, sh, l, call).local);
    case Close(num) => CloseKeepsBound(r, sh, l, num);
    case Wait(epfd, maxevents) => ScanKeepsBound(r, sh, l, epfd, maxevents);
    case _ => OneSlotKeepsBound(r, sh, l, call);
  }

  lemma SameFdsKeepsBound(l: Local, l': Local)
    requires PortBound(l) && l'.fds == l.fds && l'.randomPort == l.randomPort && l'.currentMaxFd == l.currentMaxFd
    ensures PortBound(l')
  {
  }

  lemma ScanKeepsBound(r: Role, sh: Shared, l: Local, epfd: int, maxevents: int)
    requires PortBound(l)
    ensures PortBound(DoScan(r, sh, l, epfd, maxevents).local)
  {
    hide ScanFrom;
    var k := FindPollfd(l, epfd);
    if k.Some? {
      var s := StartScan(sh, l, k.value);
      var t := ScanFrom(s, r, l.interfaces, 0, maxevents);
      ScanFromFrame(s, r, l.interfaces, 0, maxevents);
      assert Unconnecteds(t.fds) == Unconnecteds(l.fds) by {
        forall i | 0 <= i < |l.fds| ensures NotConnected(t.fds[i]) == NotConnected(l.fds[i]) {
          assert t.fds[i] == l.fds[i] || Opened(sh, l.fds[i], t.fds[i]);
        }
      }
    }
  }

  lemma {:induction false} RunKeepsBound(s: Sys, moves: seq<Move>)
    requires PortBound(s.server) && PortBound(s.client)
    ensures PortBound(Run(s, moves).server) && PortBound(Run(s, moves).client)
    decreases |moves|
  {
    hide PortBound, Apply;
    if moves != [] {
      ApplyKeepsBound(moves[0].role, s.shared, s.Loc(moves[0].role), moves[0].call);
      RunKeepsBound(Step(s, moves[0]).0, moves[1..]);
    }
  }

  lemma InitialBound(l: Local)
    requires |l.fds| == MAX_FDS && (forall i | 0 <= i < |l.fds| :: !l.fds[i].active)
    requires l.currentMaxFd == FD_START && l.randomPort == FIRST_RANDOM_PORT
    ensures PortBound(l)
  {
    assert Unconnecteds(l.fds) == {};
  }

  lemma ListenerBoundsPorts(l: Local, i: nat)
    requires PortBound(l) && i < |l.fds| && NotConnected(l.fds[i]) == 1
    ensures l.randomPort <= PORT_LIMIT
  {
    assert i in Unconnecteds(l.fds);
  }

  /**
   A listener on a port outside 10000..10198 only ever takes connections that the peer initiated, for
   its port and an address it covers.
   */
  lemma SafePortTakesPeer(r: Role, s: Sys, moves: seq<Move>, num: int, p: Ptr)
    requires Initial(s) && Playable(s, moves)
    requires Taken(r, Run(s, moves).shared, Run(s, moves).Loc(r), num) == Some(p)
    requires var l := Run(s, moves).Loc(r);
             var port := l.fds[FindFd(l.fds, num).value].listenPort; port < FIRST_RANDOM_PORT || port >= PORT_LIMIT
    ensures p in RunBirths(s, Births(map[], 0), moves).of
    ensures var birth := RunBirths(s, Births(map[], 0), moves).of[p];
            var l := Run(s, moves).Loc(r);
            var fd := l.fds[FindFd(l.fds, num).value];
            birth.initiator == Other(r) && birth.port == fd.listenPort &&
            (fd.listenAddress == 0 || birth.address == fd.listenAddress)
  {
    hide Run, RunBirths, Playable, PortBound;
    InitialBound(s.server);
    InitialBound(s.client);
    RunKeepsBound(s, moves);
    var l := Run(s, moves).Loc(r);
    ListenerBoundsPorts(l, FindFd(l.fds, num).value);
    AcceptTakesPeerConnect(r, s, moves, num, p);
  }

  // ---------- the bound is exact ----------

  /** No connection, no list entry, and `n` sockets of `r` have come and gone. */
  ghost predicate Idle(s: Sys, r: Role, k: nat, n: nat) {
    var l := s.Loc(r);
    && s.shared.conns == map[] && k < |s.shared.ifaces| && Some(k) in l.interfaces
    && (forall m | 0 <= m < |s.shared.ifaces| :: s.shared.ifaces[m].connectionList == [])
    && |l.fds| == MAX_FDS && (forall i | 0 <= i < |l.fds| :: !l.fds[i].active)
    && l.currentMaxFd == FD_START + n && l.randomPort == FIRST_RANDOM_PORT + n
  }

  function AddressOf(s: Sys, r: Role, k: nat): int
    requires k < |s.shared.ifaces|
  {
    s.shared.ifaces[k].RemoteAddress(r)
  }

  /** The first descriptor is in `state` with number `num` and pointer `pConn`; the others are free. */
  ghost predicate OnlyFirst(l: Local, num: int, state: SocketState, pConn: Option<Ptr>) {
    && |l.fds| == MAX_FDS && (forall i | 1 <= i < |l.fds| :: !l.fds[i].active)
    && l.fds[0].active && l.fds[0].num == num && l.fds[0].state == state && l.fds[0].pConn == pConn && l.fds[0].nonblock
  }

  ghost predicate NothingPending(s: Sys, r: Role, k: nat) {
    && s.shared.conns == map[] && k < |s.shared.ifaces| && Some(k) in s.Loc(r).interfaces
    && (forall m | 0 <= m < |s.shared.ifaces| :: s.shared.ifaces[m].connectionList == [])
  }

  ghost predicate OnePending(s: Sys, r: Role, k: nat) {
    && k < |s.shared.ifaces| && Some(k) in s.Loc(r).interfaces
    && s.shared.conns.Keys == {0} && s.shared.conns[0].connState == CCreate
    && s.shared.conns[0].iface.Some? && s.shared.conns[0].iface.value < |s.shared.ifaces|
    && (forall m | 0 <= m < |s.shared.ifaces| ::
          s.shared.ifaces[m].connectionList == if m == s.shared.conns[0].iface.value then [0] else [])
  }

  lemma SocketFirst(s: Sys, r: Role, k: nat, n: nat)
    requires Idle(s, r, k, n) && n < 200
    ensures var t := Step(s, Move(r, Socket(true, true, true))); var l := t.0.Loc(r);
            t.1 != Undefined && NothingPending(t.0, r, k) && OnlyFirst(l, FD_START + n, SCreated, None) &&
            l.currentMaxFd == FD_START + n + 1 && l.randomPort == FIRST_RANDOM_PORT + n
  {
    assert EmptyFd(s.Loc(r).fds) == Some(0);
  }

  lemma InterfaceFound(s: Sys, r: Role, k: nat)
    requires k < |s.shared.ifaces| && Some(k) in s.Loc(r).interfaces
    ensures InterfaceBySockaddr(r, s.shared, s.Loc(r), AddressOf(s, r, k)).Some?
  {
  }

  lemma ConnectFirst(s: Sys, r: Role, k: nat, num: int, port: int)
    requires NothingPending(s, r, k) && OnlyFirst(s.Loc(r), num, SCreated, None)
    ensures var t := Step(s, Move(r, Connect(num, AddressOf(s, r, k), port, 0))); var l := t.0.Loc(r);
            t.1 != Undefined && OnePending(t.0, r, k) && OnlyFirst(l, num, SConnecting, Some(0)) &&
            l.currentMaxFd == s.Loc(r).currentMaxFd && l.randomPort == s.Loc(r).randomPort + 1
  {
    hide InterfaceBySockaddr;
    InterfaceFound(s, r, k);
    assert FindFd(s.Loc(r).fds, num) == Some(0);
  }

  lemma CloseFirst(s: Sys, r: Role, k: nat, n: nat)
    requires OnePending(s, r, k) && OnlyFirst(s.Loc(r), FD_START + n, SConnecting, Some(0)) && n < 200
    requires s.Loc(r).currentMaxFd == FD_START + n + 1 && s.Loc(r).randomPort == FIRST_RANDOM_PORT + n + 1
    ensures var t := Step(s, Move(r, Close(FD_START + n))); t.1 != Undefined && Idle(t.0, r, k, n + 1)
  {
    hide RemoveFirst;
    assert FindFd(s.Loc(r).fds, FD_START + n) == Some(0);
    RemoveOnly(0);
    var t := Step(s, Move(r, Close(FD_START + n))).0;
    assert t.shared == RemoveConnection(s.shared, 0);
    assert t.shared.conns == map[];
  }

  lemma RemoveOnly(p: Ptr)
    ensures RemoveFirst([p], p) == []
  {
    assert FirstIndex([p], (q: Ptr) => q == p) == Some(0);
  }

  ghost predicate SocketMoves(r: Role, moves: seq<Move>) {
    forall i | 0 <= i < |moves| :: moves[i].role == r && SocketCall(moves[i].call)
  }

  /** Open a socket, start a connect that nobody answers, close it: only the counters have moved. */
  lemma Round(s: Sys, r: Role, k: nat, n: nat) returns (moves: seq<Move>)
    requires Idle(s, r, k, n) && n < 200
    ensures Playable(s, moves) && Idle(Run(s, moves), r, k, n + 1) && SocketMoves(r, moves)
  {
    hide Step, OnlyFirst, Run, Playable;
    var num := FD_START + n;
    var m0 := Move(r, Socket(true, true, true));
    SocketFirst(s, r, k, n);
    var s1 := Step(s, m0).0;
    var m1 := Move(r, Connect(num, AddressOf(s1, r, k), 1, 0));
    ConnectFirst(s1, r, k, num, 1);
    var s2 := Step(s1, m1).0;
    var m2 := Move(r, Close(num));
    CloseFirst(s2, r, k, n);
    PlayNothing(s);
    PlayMore(s, [], m0);
    PlayMore(s, [m0], m1);
    assert [m0] + [m1] == [m0, m1] && [m0, m1] + [m2] == [m0, m1, m2];
    PlayMore(s, [m0, m1], m2);
    moves := [m0, m1, m2];
  }

  lemma {:induction false} Rounds(s: Sys, r: Role, k: nat, n: nat) returns (moves: seq<Move>)
    requires Idle(s, r, k, 0) && n <= 200
    ensures Playable(s, moves) && Idle(Run(s, moves), r, k, n) && SocketMoves(r, moves)
  {
    hide Idle, Playable, Run;
    if n == 0 {
      PlayNothing(s);
      moves := [];
    } else {
      var before := Rounds(s, r, k, n - 1);
      var round := Round(Run(s, before), r, k, n - 1);
      RunAppend(s, before, round);
      moves := before + round;
    }
  }

  /** Record 0 is a listener's, record 1 is pending, and the only entry of any list, on interface `m`. */
  ghost predicate OneListed(sh: Shared, m: nat) {
    && sh.conns.Keys == {0, 1} && sh.conns[0].connState == CListen && sh.conns[1].connState == CCreate
    && m < |sh.ifaces| && sh.conns[1].iface == Some(m)
    && (forall k | 0 <= k < |sh.ifaces| :: sh.ifaces[k].connectionList == if k == m then [1] else [])
  }

  /** A listener in slot 0 and a connecting descriptor of the same process in slot 1. */
  ghost predicate OwnConnect(s: Sys, r: Role, num: int, q: int, p: Ptr) {
    var l := s.Loc(r);
    && FindFd(l.fds, num) == Some(0) && l.fds[0].listenPort == q && l.fds[0].listenAddress == 0
    && l.fds[0].state == SListen
    && Taken(r, s.shared, l, num) == Some(p)
    && 1 < |l.fds| && l.fds[1].active && l.fds[1].state == SConnecting && l.fds[1].pConn == Some(p)
  }

  /** Only a listener of `r`, on every interface and port `q`, in slot 0; the next socket is `next`. */
  ghost predicate Listening(s: Sys, r: Role, k: nat, next: int, q: int) {
    var l := s.Loc(r);
    && k < |s.shared.ifaces| && Some(k) in l.interfaces && s.shared.conns == map[0 := NewListenerConnection()]
    && (forall m | 0 <= m < |s.shared.ifaces| :: s.shared.ifaces[m].connectionList == [])
    && |l.fds| == MAX_FDS && (forall i | 2 <= i < |l.fds| :: !l.fds[i].active)
    && l.fds[0].active && l.fds[0].num < next && l.fds[0].state == SListen && l.fds[0].pConn == Some(0)
    && l.fds[0].listenPort == q && l.fds[0].listenAddress == 0
    && l.currentMaxFd == next
  }

  lemma BindFirst(s: Sys, r: Role, k: nat, num: int, q: int)
    requires NothingPending(s, r, k) && OnlyFirst(s.Loc(r), num, SCreated, None)
    ensures var t := Step(s, Move(r, Bind(num, 0, q))); var l := t.0.Loc(r);
            && t.1 != Undefined && NothingPending(t.0, r, k) && OnlyFirst(l, num, SBound, None)
            && l.fds[0].listenPort == q && l.fds[0].listenAddress == 0
            && l.currentMaxFd == s.Loc(r).currentMaxFd && l.randomPort == s.Loc(r).randomPort
  {
    assert FindFd(s.Loc(r).fds, num) == Some(0);
  }

  lemma ListenBound(s: Sys, r: Role, k: nat, num: int, next: int, q: int)
    requires NothingPending(s, r, k) && OnlyFirst(s.Loc(r), num, SBound, None) && num < next
    requires s.Loc(r).fds[0].listenPort == q && s.Loc(r).fds[0].listenAddress == 0 && s.Loc(r).currentMaxFd == next
    ensures var t := Step(s, Move(r, Listen(num, 0))); var l := t.0.Loc(r);
            && t.1 != Undefined && Listening(t.0, r, k, next, q) && !l.fds[1].active && l.fds[0].num == num
            && l.randomPort == s.Loc(r).randomPort
  {
    assert FindFd(s.Loc(r).fds, num) == Some(0);
  }

  lemma ListenFirst(s: Sys, r: Role, k: nat, n: nat, q: int) returns (moves: seq<Move>)
    requires Idle(s, r, k, n) && n < 200
    ensures Playable(s, moves) && SocketMoves(r, moves)
    ensures var t := Run(s, moves);
            Listening(t, r, k, FD_START + n + 1, q) && !t.Loc(r).fds[1].active &&
            t.Loc(r).randomPort == FIRST_RANDOM_PORT + n && t.Loc(r).fds[0].num == FD_START + n
  {
    hide Run, Playable, Step, OnlyFirst, NothingPending;
    var num := FD_START + n;
    var m0 := Move(r, Socket(true, true, true));
    var m1 := Move(r, Bind(num, 0, q));
    var m2 := Move(r, Listen(num, 0));
    SocketFirst(s, r, k, n);
    var s1 := Step(s, m0).0;
    BindFirst(s1, r, k, num, q);
    var s2 := Step(s1, m1).0;
    ListenBound(s2, r, k, num, num + 1, q);
    assert 0 !in s2.shared.conns by { NothingThere(s2, r, k); }
    PlayNothing(s);
    PlayMore(s, [], m0);
    PlayMore(s, [m0], m1);
    assert [m0] + [m1] == [m0, m1] && [m0, m1] + [m2] == [m0, m1, m2];
    PlayMore(s, [m0, m1], m2);
    moves := [m0, m1, m2];
  }

  lemma NothingThere(s: Sys, r: Role, k: nat)
    requires NothingPending(s, r, k)
    ensures s.shared.conns == map[]
  {
  }

  lemma SocketSecond(s: Sys, r: Role, k: nat, next: int, q: int)
    requires Listening(s, r, k, next, q) && !s.Loc(r).fds[1].active && next < POLLFD_START
    ensures var t := Step(s, Move(r, Socket(true, true, true))); var l := t.0.Loc(r);
            t.1 != Undefined && Listening(t.0, r, k, next + 1, q) && l.randomPort == s.Loc(r).randomPort &&
            l.fds[1].active && l.fds[1].num == next && l.fds[1].state == SCreated && l.fds[1].nonblock &&
              l.fds[0] == s.Loc(r).fds[0]
  {
    assert EmptyFd(s.Loc(r).fds) == Some(1);
  }

  lemma ConnectSecond(s: Sys, r: Role, k: nat, num: int, next: int, q: int)
    requires Listening(s, r, k, next, q) && s.Loc(r).randomPort == q
    requires var l := s.Loc(r);
             l.fds[1].active && l.fds[1].num == num && l.fds[1].state == SCreated && l.fds[1].nonblock &&
               l.fds[0].num != num
    ensures var t := Step(s, Move(r, Connect(num, AddressOf(s, r, k), 1, 1)));
            t.1 != Undefined && OwnConnect(t.0, r, s.Loc(r).fds[0].num, q, 1)
    ensures var m := InterfaceBySockaddr(r, s.shared, s.Loc(r), AddressOf(s, r, k));
            m.Some? && OneListed(Step(s, Move(r, Connect(num, AddressOf(s, r, k), 1, 1))).0.shared, m.value)
  {
    hide InterfaceBySockaddr;
    InterfaceFound(s, r, k);
    var l := s.Loc(r);
    assert FindFd(l.fds, num) == Some(1);
    var m := InterfaceBySockaddr(r, s.shared, l, AddressOf(s, r, k)).value;
    assert Some(m) in l.interfaces by { InterfaceRegistered(s, r, AddressOf(s, r, k)); }
    var t := Step(s, Move(r, Connect(num, AddressOf(s, r, k), 1, 1))).0;
    assert t.shared == Publish(s.shared, 1, NewConnection(r, m, q, 1));
    assert t.Loc(r).fds[0] == l.fds[0] && FindFd(t.Loc(r).fds, l.fds[0].num) == Some(0);
    assert t.shared.ifaces[m].connectionList[0] == 1;
    OwnIsTaken(t, r, l.fds[0].num, q, m);
  }

  lemma InterfaceRegistered(s: Sys, r: Role, addr: int)
    ensures var k := InterfaceBySockaddr(r, s.shared, s.Loc(r), addr); k.Some? ==> Some(k.value) in s.Loc(r).interfaces
  {
  }

  lemma OwnIsTaken(s: Sys, r: Role, num: int, q: int, m: nat)
    requires var l := s.Loc(r);
             && FindFd(l.fds, num) == Some(0) && l.fds[0].state == SListen && l.fds[0].listenPort == q
             && l.fds[0].listenAddress == 0
             && s.shared.conns.Keys == {0, 1} && Pending(s.shared, r, q, 1) && s.shared.conns[0].connState == CListen
             && m < |s.shared.ifaces| && Some(m) in l.interfaces && 1 in s.shared.ifaces[m].connectionList
    ensures Taken(r, s.shared, s.Loc(r), num) == Some(1)
  {
    assert Offers(s.shared, r, Some(m), 0, q, true);
  }

  /**
   The range is exact: for each port from 10000 to 10198, any process with an interface can reach a
   state in which its listener on that port would take a connection of its own process.
   */
  lemma UnsafePortTakesOwn(s: Sys, r: Role, k: nat, q: int) returns (moves: seq<Move>, num: int, p: Ptr)
    requires Initial(s) && Some(k) in s.Loc(r).interfaces && FIRST_RANDOM_PORT <= q < PORT_LIMIT
    ensures Playable(s, moves) && OwnConnect(Run(s, moves), r, num, q, p)
    ensures k < |s.shared.ifaces| && InterfaceBySockaddr(r, s.shared, s.Loc(r), AddressOf(s, r, k)).Some?
    ensures OneListed(Run(s, moves).shared, InterfaceBySockaddr(r, s.shared, s.Loc(r), AddressOf(s, r, k)).value)
  {
    hide Run, Playable, OwnConnect, Step, InterfaceBySockaddr, OneListed;
    var n: nat := q - FIRST_RANDOM_PORT;
    var rounds := Rounds(s, r, k, n);
    var s1 := Run(s, rounds);
    var listening := ListenFirst(s1, r, k, n, q);
    RunAppend(s, rounds, listening);
    var s2 := Run(s1, listening);
    SocketSecond(s2, r, k, FD_START + n + 1, q);
    var m0 := Move(r, Socket(true, true, true));
    var s3 := Step(s2, m0).0;
    var m1 := Move(r, Connect(FD_START + n + 1, AddressOf(s3, r, k), 1, 1));
    ConnectSecond(s3, r, k, FD_START + n + 1, FD_START + n + 2, q);
    PlayNothing(s2);
    PlayMore(s2, [], m0);
    PlayMore(s2, [m0], m1);
    assert [m0] + [m1] == [m0, m1];
    RunAppend(s, rounds + listening, [m0, m1]);
    moves, num, p := rounds + listening + [m0, m1], FD_START + n, 1;
    RunAppend(s, rounds + listening, [m0]);
    RunKeepsWiring(s, rounds + listening + [m0]);
    WiringDecides(s, s3, r, AddressOf(s, r, k));
  }

  // ---------- the peer connects ----------

  /** Connects of `o` to the address of interface `k` go over interface `k`. */
  predicate Reaches(s: Sys, o: Role, k: nat) {
    k < |s.shared.ifaces| && InterfaceBySockaddr(o, s.shared, s.Loc(o), AddressOf(s, o, k)) == Some(k)
  }

  ghost predicate Fresh(l: Local) {
    |l.fds| == MAX_FDS && (forall i | 0 <= i < |l.fds| :: !l.fds[i].active) && l.currentMaxFd == FD_START
  }

  /** With only a listener of `r` around, the peer connects to its port over interface `k`. */
  lemma PeerConnects(s: Sys, r: Role, k: nat, next: int, q: int) returns (moves: seq<Move>)
    requires Listening(s, r, k, next, q) && Fresh(s.Loc(Other(r))) && Reaches(s, Other(r), k)
    ensures Playable(s, moves)
    ensures var t := Run(s, moves);
            && t.Loc(r) == s.Loc(r) && OneListed(t.shared, k) && Pending(t.shared, r, q, 1)
            && |t.Loc(Other(r)).fds| == MAX_FDS && t.Loc(Other(r)).fds[0].active
            && t.Loc(Other(r)).fds[0].pConn == Some(1)
  {
    hide Run, Playable, InterfaceBySockaddr;
    var o := Other(r);
    var m0 := Move(o, Socket(true, true, true));
    assert EmptyFd(s.Loc(o).fds) == Some(0);
    var s1 := Step(s, m0).0;
    var a := AddressOf(s, o, k);
    var m1 := Move(o, Connect(FD_START, a, q, 1));
    StepKeepsWiring(s, m0);
    WiringDecides(s, s1, o, a);
    assert FindFd(s1.Loc(o).fds, FD_START) == Some(0);
    var s2 := Step(s1, m1).0;
    assert s2.shared == Publish(s1.shared, 1, NewConnection(o, k, s1.Loc(o).randomPort, q));
    PlayNothing(s);
    PlayMore(s, [], m0);
    PlayMore(s, [m0], m1);
    assert [m0] + [m1] == [m0, m1];
    moves := [m0, m1];
  }
}
