/**
 accept4 hands out descriptor numbers without the range check of socket(). A server that has used up its
 numbers gets descriptors that close takes for epoll tables: they are never released.
 */
module Overrun {
  import opened Basics
  import opened Connections
  import opened Descriptors
  import opened Duplex
  import opened Reachability
  import opened Pairing
  import opened Ports

  /** `num` is an open descriptor of `r` on an open connection that a descriptor of the peer holds too. */
  predicate Connected(s: Sys, r: Role, num: int, p: Ptr) {
    var l := s.Loc(r);
    && FindFd(l.fds, num).Some? && l.fds[FindFd(l.fds, num).value].state == SOpen && ConnectedTo(l, num, p)
    && p in s.shared.conns && s.shared.conns[p].connState == COpen
    && exists j | 0 <= j < |s.Loc(Other(r)).fds| ::
         s.Loc(Other(r)).fds[j].active && s.Loc(Other(r)).fds[j].pConn == Some(p)
  }

  predicate ConnectedTo(l: Local, num: int, p: Ptr) {
    FindFd(l.fds, num).Some? && l.fds[FindFd(l.fds, num).value].pConn == Some(p)
  }

  // ---------- how a server gets there ----------

  lemma {:induction false} SocketMovesKeep(s: Sys, r: Role, moves: seq<Move>)
    requires SocketMoves(r, moves)
    ensures Run(s, moves).Loc(r).pollfds == s.Loc(r).pollfds && Run(s, moves).Loc(Other(r)) == s.Loc(Other(r))
    decreases |moves|
  {
    hide Apply, SocketCall;
    if moves != [] {
      CallTouches(r, s.shared, s.Loc(r), moves[0].call);
      SocketMovesKeep(Step(s, moves[0]).0, r, moves[1..]);
    }
  }

  /** The first epoll table gets the number 900. */
  lemma FirstTable(s: Sys, r: Role, k: nat) returns (moves: seq<Move>)
    requires Initial(s) && k < |s.shared.ifaces| && Some(k) in s.Loc(r).interfaces
    ensures Playable(s, moves) && Idle(Run(s, moves), r, k, 0) && Run(s, moves).Loc(Other(r)) == s.Loc(Other(r))
    ensures FindPollfd(Run(s, moves).Loc(r), POLLFD_START).Some?
  {
    hide Run, Playable;
    var m := Move(r, EpollCreate);
    assert FirstIndex(s.Loc(r).pollfds, (e: EpollFd) => !e.active) == Some(0);
    var t := Step(s, m).0;
    assert t.Loc(r).pollfds[0].active && t.Loc(r).pollfds[0].num == POLLFD_START;
    PlayNothing(s);
    PlayMore(s, [], m);
    moves := [m];
  }

  /** accept4 in slot 1, when only a listener and its one pending connection are around. */
  lemma AcceptNext(s: Sys, r: Role, num: int, port: int, m: nat)
    requires OneListed(s.shared, m) && Pending(s.shared, r, port, 1) && Some(m) in s.Loc(r).interfaces
    requires var l := s.Loc(r);
             && |l.fds| == MAX_FDS && FindFd(l.fds, num) == Some(0) && l.fds[0].state == SListen
             && l.fds[0].listenPort == port
             && l.fds[0].listenAddress == 0 && l.fds[0].active && l.fds[0].num != l.currentMaxFd && !l.fds[1].active
    requires |s.Loc(Other(r)).fds| == MAX_FDS && s.Loc(Other(r)).fds[0].active &&
             s.Loc(Other(r)).fds[0].pConn == Some(1)
    ensures var t := Step(s, Move(r, Accept(num, false, true)));
            t.1.Accepted? && t.1.num == s.Loc(r).currentMaxFd && Connected(t.0, r, t.1.num, 1) &&
              t.0.Loc(r).pollfds == s.Loc(r).pollfds
  {
    hide PickOnTable, GetPeerName;
    OwnIsTaken(s, r, num, port, m);
    var l := s.Loc(r);
    assert EmptyFd(l.fds) == Some(1);
    var t := Step(s, Move(r, Accept(num, false, true)));
    FoundFd(t.0.Loc(r).fds, 1, l.currentMaxFd);
    assert t.0.Loc(Other(r)).fds[0].active;
  }

  /**
   From every initial state in which the peer can reach an interface of `r`, there is a run after which
   accept4 has returned descriptor 900, connected to the peer; an epoll table with the same number may be
   open or not.
   */
  lemma AcceptBeyondRange(s: Sys, r: Role, k: nat, port: int, table: bool) returns (moves: seq<Move>)
    requires Initial(s) && Reaches(s, Other(r), k) && Some(k) in s.Loc(r).interfaces
    ensures Playable(s, moves) && Connected(Run(s, moves), r, POLLFD_START, 1)
    ensures FindPollfd(Run(s, moves).Loc(r), POLLFD_START).Some? <==> table
  {
    hide Run, Playable, InterfaceBySockaddr, OneListed, Step, Connected;
    var first := BeforeRounds(s, r, k, table);
    var s0 := Run(s, first);
    var rounds := Rounds(s0, r, k, 199);
    var s1 := Run(s0, rounds);
    var listening := ListenFirst(s1, r, k, 199, port);
    var s2 := Run(s1, listening);
    SocketMovesKeep(s0, r, rounds);
    SocketMovesKeep(s1, r, listening);
    RunAppend(s, first, rounds);
    RunAppend(s, first + rounds, listening);
    RunKeepsWiring(s, first + rounds + listening);
    WiringDecides(s, s2, Other(r), AddressOf(s, Other(r), k));
    var connecting := PeerConnects(s2, r, k, POLLFD_START, port);
    RunAppend(s, first + rounds + listening, connecting);
    var s3 := Run(s2, connecting);
    FoundFd(s3.Loc(r).fds, 0, POLLFD_START - 1);
    AcceptNext(s3, r, POLLFD_START - 1, port, k);
    var m := Move(r, Accept(POLLFD_START - 1, false, true));
    assert AllocationOk(r, s3.shared, s3.Loc(r), m.call);
    PlayMore(s, first + rounds + listening + connecting, m);
    moves := first + rounds + listening + connecting + [m];
    SamePollfds(s0.Loc(r), Run(s, moves).Loc(r), POLLFD_START);
  }

  lemma BeforeRounds(s: Sys, r: Role, k: nat, table: bool) returns (moves: seq<Move>)
    requires Initial(s) && k < |s.shared.ifaces| && Some(k) in s.Loc(r).interfaces
    ensures Playable(s, moves) && Idle(Run(s, moves), r, k, 0) && Run(s, moves).Loc(Other(r)) == s.Loc(Other(r))
    ensures FindPollfd(Run(s, moves).Loc(r), POLLFD_START).Some? <==> table
  {
    hide Run, Playable, Idle;
    if table {
      moves := FirstTable(s, r, k);
    } else {
      PlayNothing(s);
      moves := [];
      assert Idle(s, r, k, 0) by { InitialIdle(s, r, k); }
    }
  }

  lemma InitialIdle(s: Sys, r: Role, k: nat)
    requires Initial(s) && k < |s.shared.ifaces| && Some(k) in s.Loc(r).interfaces
    ensures Idle(s, r, k, 0)
  {
  }

  // ---------- the damage ----------

  /**
   close on such a number changes neither memory nor any descriptor, so the peer gets no EPOLLHUP. It
   fails with EBADF, or reports success and closes the epoll table that has the same number instead.
   */
  lemma CloseMisses(s: Sys, r: Role, num: int)
    requires SysInv(s) && num >= POLLFD_START
    ensures var t := Step(s, Move(r, Close(num)));
            && t.0.shared == s.shared && t.0.Loc(r).fds == s.Loc(r).fds
            && t.1 == (if FindPollfd(s.Loc(r), num).Some? then Ret(0) else Fail(-1, EBADF))
            && FindPollfd(t.0.Loc(r), num).None?
  {
    hide FdsOk, NumbersOk, InterfacesOk, ListsOk, CountsOk, TableOk, NoneActive;
  }

  /**
   Nothing that either process does afterwards releases the descriptor: it stays in its slot, and the
   record it points at is never removed.
   */
  lemma {:induction false} NeverReleased(s: Sys, moves: seq<Move>, r: Role, i: nat)
    requires SysInv(s) && Playable(s, moves)
    requires var l := s.Loc(r); i < |l.fds| && l.fds[i].active && l.fds[i].num >= POLLFD_START && l.fds[i].pConn.Some?
    ensures var l := Run(s, moves).Loc(r);
            && i < |l.fds| && l.fds[i].active && l.fds[i].num == s.Loc(r).fds[i].num
            && l.fds[i].pConn == s.Loc(r).fds[i].pConn
            && l.fds[i].pConn.value in Run(s, moves).shared.conns
    decreases |moves|
  {
    hide Apply, NumbersOk, PollfdsOk, InterfacesOk, ListsOk, CountsOk, AllocationOk, FdsOk;
    if moves == [] {
      assert FdsOk(s.shared, s.Loc(r));
      SlotOk(s.shared, s.Loc(r), i);
    } else {
      var m := moves[0];
      if m.role == r {
        assert FdsOk(s.shared, s.Loc(r));
        CallKeepsSlot(r, s.shared, s.Loc(r), m.call, i);
      }
      StepKeepsInv(s, m);
      NeverReleased(Step(s, m).0, moves[1..], r, i);
    }
  }
}
