/** Single calls with their whole effect: what the concrete runs of the project are made of. */
module Steps {
  import opened Basics
  import opened Connections
  import opened Descriptors
  import opened Duplex
  import opened Reachability
  import opened Pairing

  /** The first `n` slots are in use, by the first `n` numbers. */
  ghost predicate FilledTo(l: Local, n: nat) {
    && |l.fds| == MAX_FDS && n <= MAX_FDS && l.currentMaxFd == FD_START + n
    && (forall i | 0 <= i < n :: l.fds[i].active && l.fds[i].num == FD_START + i)
    && (forall i | n <= i < MAX_FDS :: !l.fds[i].active)
  }

  function ListeningFd(n: nat, addr: int, port: int, block: Ptr): Fd {
    Fd(true, FD_START + n, SListen, port, addr, true, Some(block))
  }

  lemma SocketNext(s: Sys, r: Role, n: nat)
    requires FilledTo(s.Loc(r), n) && n < MAX_FDS
    ensures var m := Move(r, Socket(true, true, true));
            var l := s.Loc(r);
            var fd := l.fds[n].(active := true, num := FD_START + n, state := SCreated, nonblock := true,
                                pConn := None);
            && Step(s, m).1 == Ret(FD_START + n) && AllocationOk(r, s.shared, l, m.call)
            && FilledTo(Step(s, m).0.Loc(r), n + 1)
            && Step(s, m).0.shared == s.shared && Step(s, m).0.Loc(Other(r)) == s.Loc(Other(r))
            && Step(s, m).0.Loc(r) == l.WithFd(n, fd).(currentMaxFd := FD_START + n + 1)
  {
    assert EmptyFd(s.Loc(r).fds) == Some(n);
  }

  lemma FilledFinds(l: Local, n: nat, i: nat)
    requires FilledTo(l, n) && i < n
    ensures FindFd(l.fds, FD_START + i) == Some(i)
  {
    FoundFd(l.fds, i, FD_START + i);
  }

  lemma BindAt(s: Sys, r: Role, i: nat, num: int, addr: int, port: int)
    requires FindFd(s.Loc(r).fds, num) == Some(i) && s.Loc(r).fds[i].state == SCreated
    ensures var m := Move(r, Bind(num, addr, port));
            var l := s.Loc(r);
            && Step(s, m).1 == Ret(0) && AllocationOk(r, s.shared, l, m.call)
            && Step(s, m).0.shared == s.shared && Step(s, m).0.Loc(Other(r)) == s.Loc(Other(r))
            && Step(s, m).0.Loc(r) == l.WithFd(i, l.fds[i].(listenPort := port, listenAddress := addr, state := SBound))
  {
  }

  lemma ListenAt(s: Sys, r: Role, i: nat, num: int, block: Ptr)
    requires FindFd(s.Loc(r).fds, num) == Some(i) && s.Loc(r).fds[i].state == SBound && block !in s.shared.conns
    ensures var m := Move(r, Listen(num, block));
            var l := s.Loc(r);
            && Step(s, m).1 == Ret(0) && AllocationOk(r, s.shared, l, m.call)
            && Step(s, m).0.shared == s.shared.Put(block, NewListenerConnection())
            && Step(s, m).0.Loc(Other(r)) == s.Loc(Other(r))
            && Step(s, m).0.Loc(r) == l.WithFd(i, l.fds[i].(pConn := Some(block), state := SListen))
  {
  }

  /** Open a socket in the next slot and listen with it. */
  lemma OpenListener(s: Sys, r: Role, n: nat, addr: int, port: int, block: Ptr) returns (moves: seq<Move>)
    requires FilledTo(s.Loc(r), n) && n < MAX_FDS && block !in s.shared.conns
    ensures Playable(s, moves) && FilledTo(Run(s, moves).Loc(r), n + 1)
    ensures var t := Run(s, moves);
            && t.shared == s.shared.Put(block, NewListenerConnection()) && t.Loc(Other(r)) == s.Loc(Other(r))
            && t.Loc(r) == s.Loc(r).WithFd(n, ListeningFd(n, addr, port, block)).(currentMaxFd := FD_START + n + 1)
  {
    hide Step, Run, Playable, AllocationOk;
    var num := FD_START + n;
    var m0 := Move(r, Socket(true, true, true));
    SocketNext(s, r, n);
    var s1 := Step(s, m0).0;
    FilledFinds(s1.Loc(r), n + 1, n);
    var m1 := Move(r, Bind(num, addr, port));
    BindAt(s1, r, n, num, addr, port);
    var s2 := Step(s1, m1).0;
    FilledFinds(s2.Loc(r), n + 1, n);
    var m2 := Move(r, Listen(num, block));
    ListenAt(s2, r, n, num, block);
    PlayNothing(s);
    PlayMore(s, [], m0);
    PlayMore(s, [m0], m1);
    assert [m0] + [m1] == [m0, m1] && [m0, m1] + [m2] == [m0, m1, m2];
    PlayMore(s, [m0, m1], m2);
    moves := [m0, m1, m2];
  }

  /** A socket in whatever slot is the first free one. */
  lemma SocketAt(s: Sys, r: Role, i: nat)
    requires EmptyFd(s.Loc(r).fds) == Some(i) && s.Loc(r).currentMaxFd < POLLFD_START
    ensures var m := Move(r, Socket(true, true, true));
            var l := s.Loc(r);
            var fd := l.fds[i].(active := true, num := l.currentMaxFd, state := SCreated, nonblock := true,
                                pConn := None);
            && Step(s, m).1 == Ret(l.currentMaxFd) && AllocationOk(r, s.shared, l, m.call)
            && Step(s, m).0.shared == s.shared && Step(s, m).0.Loc(Other(r)) == s.Loc(Other(r))
            && Step(s, m).0.Loc(r) == l.WithFd(i, fd).(currentMaxFd := l.currentMaxFd + 1)
  {
  }

  /** Closing a descriptor whose record is open or listening only marks the record. */
  lemma CloseAt(s: Sys, r: Role, i: nat, num: int, p: Ptr)
    requires FindFd(s.Loc(r).fds, num) == Some(i) && s.Loc(r).fds[i].pConn == Some(p) && FD_START <= num < POLLFD_START
    requires p in s.shared.conns && !RemovedByClose(s.shared.conns[p])
    ensures var m := Move(r, Close(num));
            var l := s.Loc(r);
            && Step(s, m).1 == Ret(0) && AllocationOk(r, s.shared, l, m.call)
            && Step(s, m).0.shared == s.shared.Put(p, MarkClosed(s.shared.conns[p], r))
            && Step(s, m).0.Loc(Other(r)) == s.Loc(Other(r))
            && Step(s, m).0.Loc(r) == l.WithFd(i, l.fds[i].(active := false, state := SClose))
  {
    hide MarkClosed;
  }

  // ---------- connections ----------

  lemma ConnectAt(s: Sys, r: Role, i: nat, num: int, addr: int, port: int, block: Ptr, k: nat)
    requires FindFd(s.Loc(r).fds, num) == Some(i) && s.Loc(r).fds[i].state == SCreated && s.Loc(r).fds[i].nonblock
    requires InterfaceBySockaddr(r, s.shared, s.Loc(r), addr) == Some(k) && block !in s.shared.conns
    ensures var m := Move(r, Connect(num, addr, port, block));
            var l := s.Loc(r);
            && Step(s, m).1 == Fail(-1, EINPROGRESS) && AllocationOk(r, s.shared, l, m.call)
            && Step(s, m).0.shared == Publish(s.shared, block, NewConnection(r, k, l.randomPort, port))
            && Step(s, m).0.Loc(Other(r)) == s.Loc(Other(r))
            && Step(s, m).0.Loc(r) ==
               l.WithFd(i, l.fds[i].(pConn := Some(block), state := SConnecting)).(randomPort := l.randomPort + 1)
  {
    hide InterfaceBySockaddr;
  }

  /** A process that has done nothing opens a socket and starts to connect over interface `k`. */
  lemma FirstConnect(s: Sys, r: Role, k: nat, addr: int, port: int, block: Ptr) returns (moves: seq<Move>)
    requires FilledTo(s.Loc(r), 0) && InterfaceBySockaddr(r, s.shared, s.Loc(r), addr) == Some(k) &&
             block !in s.shared.conns
    ensures Playable(s, moves) && FilledTo(Run(s, moves).Loc(r), 1)
    ensures var t := Run(s, moves); var l := s.Loc(r); var fd := t.Loc(r).fds[0];
            && t.shared == Publish(s.shared, block, NewConnection(r, k, l.randomPort, port))
            && t.Loc(Other(r)) == s.Loc(Other(r))
            && fd.state == SConnecting && fd.pConn == Some(block) && fd.nonblock
  {
    hide Step, Run, Playable, AllocationOk, InterfaceBySockaddr, Publish;
    var m0 := Move(r, Socket(true, true, true));
    SocketNext(s, r, 0);
    var s1 := Step(s, m0).0;
    FilledFinds(s1.Loc(r), 1, 0);
    SameInterfaces(s, s1, r, addr);
    var m1 := Move(r, Connect(FD_START, addr, port, block));
    ConnectAt(s1, r, 0, FD_START, addr, port, block, k);
    PlayNothing(s);
    PlayMore(s, [], m0);
    PlayMore(s, [m0], m1);
    assert [m0] + [m1] == [m0, m1];
    moves := [m0, m1];
  }

  lemma AcceptAt(s: Sys, r: Role, i: nat, num: int, n: nat, p: Ptr)
    requires FindFd(s.Loc(r).fds, num) == Some(i) && s.Loc(r).fds[i].state == SListen &&
             EmptyFd(s.Loc(r).fds) == Some(n)
    requires Taken(r, s.shared, s.Loc(r), num) == Some(p) && p in s.shared.conns
    ensures var m := Move(r, Accept(num, true, true));
            var l := s.Loc(r);
            var fd := l.fds[n].(active := true, num := l.currentMaxFd, state := SOpen, pConn := Some(p),
                                nonblock := true);
            && Step(s, m).1.Accepted? && Step(s, m).1.num == l.currentMaxFd && AllocationOk(r, s.shared, l, m.call)
            && Step(s, m).0.shared == s.shared.Put(p, s.shared.conns[p].(connState := COpen))
            && Step(s, m).0.Loc(Other(r)) == s.Loc(Other(r))
            && Step(s, m).0.Loc(r) == l.WithFd(n, fd).(currentMaxFd := l.currentMaxFd + 1)
  {
    hide GetPeerName, PickOnTable;
  }

  lemma SendAt(s: Sys, r: Role, i: nat, num: int, data: seq<Byte>, p: Ptr)
    requires FindFd(s.Loc(r).fds, num) == Some(i) && s.Loc(r).fds[i].state == SOpen && s.Loc(r).fds[i].pConn == Some(p)
    requires p in s.shared.conns && s.shared.conns[p].connState != CClose
    ensures var m := Move(r, Send(num, data));
            && Step(s, m).1 == Ret(|data|) && AllocationOk(r, s.shared, s.Loc(r), m.call)
            && Step(s, m).0.shared == s.shared.Put(p, SendConnection(s.shared.conns[p], r, data))
            && Step(s, m).0.Loc(r) == s.Loc(r) && Step(s, m).0.Loc(Other(r)) == s.Loc(Other(r))
  {
    hide SendConnection;
  }

  /** Asking again for a connect that the peer has accepted opens the descriptor. */
  lemma ConnectedAt(s: Sys, r: Role, i: nat, num: int, p: Ptr)
    requires FindFd(s.Loc(r).fds, num) == Some(i) && s.Loc(r).fds[i].state == SConnecting &&
             s.Loc(r).fds[i].pConn == Some(p)
    requires p in s.shared.conns && s.shared.conns[p].connState == COpen
    ensures var m := Move(r, ConnectEx(num, 0, 0, 0));
            var l := s.Loc(r);
            && Step(s, m).1 == Ret(0) && AllocationOk(r, s.shared, l, m.call) && Step(s, m).0.shared == s.shared
            && Step(s, m).0.Loc(Other(r)) == s.Loc(Other(r))
            && Step(s, m).0.Loc(r) == l.WithFd(i, l.fds[i].(state := SOpen))
  {
    hide InterfaceBySockaddr;
  }

  /** The lookup of an address depends on the two tables of interfaces only. */
  lemma SameInterfaces(s: Sys, t: Sys, r: Role, addr: int)
    requires |t.shared.ifaces| == |s.shared.ifaces| && t.Loc(r).interfaces == s.Loc(r).interfaces
    requires forall k | 0 <= k < |s.shared.ifaces| ::
               t.shared.ifaces[k].RemoteAddress(r) == s.shared.ifaces[k].RemoteAddress(r)
    ensures InterfaceBySockaddr(r, t.shared, t.Loc(r), addr) == InterfaceBySockaddr(r, s.shared, s.Loc(r), addr)
  {
    FirstIndexSame(s.Loc(r).interfaces, (e: Option<nat>) => LeadsTo(r, t.shared, e, addr),
                   (e: Option<nat>) => LeadsTo(r, s.shared, e, addr));
  }
}
