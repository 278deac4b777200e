/** Short runs that reach the mishaps the exact conditions of the other modules leave room for. */
module Witnesses {
  import opened Basics
  import opened Connections
  import opened Descriptors
  import opened Readiness
  import opened Duplex
  import opened Scanning
  import opened Reachability
  import opened Registry
  import opened Pairing
  import opened Ports
  import opened Streams
  import opened Stranded
  import opened Steps

  /** Socket 700 has just been made and registered in epoll table 900; nothing else has happened. */
  ghost predicate FirstRegistered(s: Sys, r: Role, events: EventMask, data: int) {
    var l := s.Loc(r);
    && SysInv(s) && |l.fds| == MAX_FDS
    && l.fds[0] == l.fds[0].(active := true, num := FD_START, state := SCreated, pConn := None)
    && (forall i | 1 <= i < MAX_FDS :: !l.fds[i].active) && l.currentMaxFd == FD_START + 1
    && FindPollfd(l, POLLFD_START) == Some(0)
    && |l.pollfds[0].lfds| == MAX_FDS_LISTEN
    && l.pollfds[0].lfds[0] == Listener(true, !IsEventSet(events, EPOLLET), events, data, 0)
  }

  lemma CreateFirst(s: Sys, r: Role)
    requires s.Loc(r).randomPollFd == POLLFD_START && |s.Loc(r).pollfds| > 0 &&
             forall j | 0 <= j < |s.Loc(r).pollfds| :: !s.Loc(r).pollfds[j].active
    ensures var m := Move(r, EpollCreate);
            var l := s.Loc(r);
            var l' := Step(s, m).0.Loc(r);
            && Step(s, m).1 == Ret(POLLFD_START) && AllocationOk(r, s.shared, l, m.call)
            && l' == l.(pollfds := l'.pollfds, randomPollFd := l'.randomPollFd)
            && FindPollfd(l', POLLFD_START) == Some(0) && l'.pollfds[0].lfds == l.pollfds[0].lfds
  {
    assert FirstIndex(s.Loc(r).pollfds, (e: EpollFd) => !e.active) == Some(0);
  }

  lemma AddToEmpty(s: Sys, r: Role, events: EventMask, data: int)
    requires FindPollfd(s.Loc(r), POLLFD_START) == Some(0) && FindFd(s.Loc(r).fds, FD_START) == Some(0)
    requires |s.Loc(r).pollfds[0].lfds| == MAX_FDS_LISTEN && NoneActive(s.Loc(r).pollfds[0].lfds)
    ensures var m := Move(r, EpollCtl(POLLFD_START, CtlAdd, FD_START, events, data));
            var l := s.Loc(r);
            var l' := Step(s, m).0.Loc(r);
            && Step(s, m).1 == Ret(0) && AllocationOk(r, s.shared, l, m.call) && l' == l.(pollfds := l'.pollfds)
            && FindPollfd(l', POLLFD_START) == Some(0) && |l'.pollfds[0].lfds| == MAX_FDS_LISTEN
            && l'.pollfds[0].lfds[0] == Listener(true, !IsEventSet(events, EPOLLET), events, data, 0)
  {
    hide IsEventSet;
    var lfds := s.Loc(r).pollfds[0].lfds;
    assert ListenerForFd(s.Loc(r).fds, lfds, FD_START) == Lookup(lfds, None);
    assert !lfds[0].active;
    assert EmptyListener(lfds) == Some(0);
  }

  lemma NoTablesYet(s: Sys, r: Role)
    requires Initial(s)
    ensures var l := s.Loc(r);
            && FilledTo(l, 0) && l.randomPollFd == POLLFD_START && |l.pollfds| > 0
            && (forall j | 0 <= j < |l.pollfds| :: !l.pollfds[j].active)
            && |l.pollfds[0].lfds| == MAX_FDS_LISTEN && NoneActive(l.pollfds[0].lfds)
  {
  }

  lemma RegisterFirst(s: Sys, r: Role, events: EventMask, data: int) returns (moves: seq<Move>)
    requires Initial(s)
    ensures Playable(s, moves) && FirstRegistered(Run(s, moves), r, events, data)
    ensures forall m | m in moves && m.call.EpollCtl? :: m.call.num == FD_START
  {
    hide Run, Playable, IsEventSet, Inv, Step, AllocationOk, FindPollfd, Initial, NoneActive;
    var m0 := Move(r, Socket(true, true, true));
    var m1 := Move(r, EpollCreate);
    var m2 := Move(r, EpollCtl(POLLFD_START, CtlAdd, FD_START, events, data));
    NoTablesYet(s, r);
    SocketNext(s, r, 0);
    var s1 := Step(s, m0).0;
    CreateFirst(s1, r);
    var s2 := Step(s1, m1).0;
    FilledFinds(s2.Loc(r), 1, 0);
    AddToEmpty(s2, r, events, data);
    PlayNothing(s);
    PlayMore(s, [], m0);
    PlayMore(s, [m0], m1);
    assert [m0] + [m1] == [m0, m1] && [m0, m1] + [m2] == [m0, m1, m2];
    PlayMore(s, [m0, m1], m2);
    moves := [m0, m1, m2];
    InitialInv(s);
    RunKeepsInv(s, moves);
  }

  /** A scan over a socket that has only been created follows a null pointer: this happens after three calls. */
  lemma UnconnectedScanIsReached(s: Sys, r: Role, events: EventMask, data: int, maxevents: int)
    returns (moves: seq<Move>)
    requires Initial(s) && maxevents > 0
    ensures Playable(s, moves) && Step(Run(s, moves), Move(r, Wait(POLLFD_START, maxevents))).1 == Undefined
  {
    hide Run, Playable, IsEventSet, DoScan, Initial;
    moves := RegisterFirst(s, r, events, data);
    var t := Run(s, moves);
    var l := t.Loc(r);
    RoomyScanMeets(StartScan(t.shared, l, 0), r, l.interfaces, 0, maxevents);
    ScanUndefined(r, t.shared, l, Wait(POLLFD_START, maxevents));
  }

  /**
   Closing a registered socket and opening another one: no call of the run names the new number 701 to
   epoll_ctl, and yet it cannot be added.
   */
  lemma BornRegisteredIsReached(s: Sys, r: Role, events: EventMask, data: int) returns (moves: seq<Move>)
    requires Initial(s)
    ensures Playable(s, moves) && (forall m | m in moves && m.call.EpollCtl? :: m.call.num == FD_START)
    ensures FindFd(Run(s, moves).Loc(r).fds, FD_START + 1).Some?
    ensures Step(Run(s, moves), Move(r, EpollCtl(POLLFD_START, CtlAdd, FD_START + 1, events, data))).1 ==
              Fail(-1, EEXIST)
  {
    hide Run, Playable, IsEventSet, Initial, FirstRegistered, Step;
    var before := RegisterFirst(s, r, events, data);
    var t := Run(s, before);
    var m0 := Move(r, Close(FD_START));
    var m1 := Move(r, Socket(true, true, false));
    SlotReused(t, r, events, data);
    var t1 := Step(t, m0).0;
    PlayNothing(t);
    PlayMore(t, [], m0);
    PlayMore(t, [m0], m1);
    assert [m0] + [m1] == [m0, m1];
    RunAppend(s, before, [m0, m1]);
    moves := before + [m0, m1];
  }

  lemma CloseFirstSocket(s: Sys, r: Role, events: EventMask, data: int)
    requires FirstRegistered(s, r, events, data)
    ensures var m := Move(r, Close(FD_START));
            Step(s, m).1 == Ret(0) && Step(s, m).0.Loc(r) == Released(s.Loc(r), 0) &&
              AllocationOk(r, s.shared, s.Loc(r), m.call)
  {
    hide IsEventSet, Inv;
    assert FindFd(s.Loc(r).fds, FD_START) == Some(0);
  }

  lemma OpenNextSocket(s: Sys, r: Role)
    requires s.Loc(r).currentMaxFd < POLLFD_START && EmptyFd(s.Loc(r).fds) == Some(0)
    ensures var m := Move(r, Socket(true, true, false));
            Step(s, m).1 == Ret(s.Loc(r).currentMaxFd) &&
              Step(s, m).0.Loc(r) == DoSocket(s.Loc(r), true, true, false).0 &&
            AllocationOk(r, s.shared, s.Loc(r), m.call)
  {
  }

  /** The registration that `l` holds in table 0 refuses the socket that takes over its slot. */
  lemma AddRefusedThere(l: Local, lfds: seq<Listener>, events: EventMask, data: int)
    requires NumbersOk(l) && TableOk(lfds) && l.fds[0].active && l.fds[0].num == FD_START &&
             l.currentMaxFd == FD_START + 1
    requires lfds[0].active && lfds[0].slot == 0
    ensures var l' := DoSocket(Released(l, 0), true, true, false).0;
            FindFd(l'.fds, FD_START + 1) == Some(0) && l'.pollfds == l.pollfds &&
              EmptyFd(Released(l, 0).fds) == Some(0) &&
            CtlTable(l'.fds, lfds, CtlAdd, FD_START + 1, 0, events, data).1 == Fail(-1, EEXIST)
  {
    hide IsEventSet, CtlTable, Registered;
    RegisteredIs(l, lfds, 0);
    CloseThenSocketIsRegistered(l, lfds, 0, false, events, data);
    assert EmptyFd(Released(l, 0).fds) == Some(0);
    FoundFd(DoSocket(Released(l, 0), true, true, false).0.fds, 0, FD_START + 1);
  }

  lemma SlotReused(s: Sys, r: Role, events: EventMask, data: int)
    requires FirstRegistered(s, r, events, data)
    ensures var m0 := Move(r, Close(FD_START));
            var m1 := Move(r, Socket(true, true, false));
            var t := Step(s, m0);
            var u := Step(t.0, m1);
            && t.1 != Undefined && u.1 != Undefined && FindFd(u.0.Loc(r).fds, FD_START + 1).Some?
            && AllocationOk(r, s.shared, s.Loc(r), m0.call) && AllocationOk(r, t.0.shared, t.0.Loc(r), m1.call)
            && Step(u.0, Move(r, EpollCtl(POLLFD_START, CtlAdd, FD_START + 1, events, data))).1 == Fail(-1, EEXIST)
  {
    hide IsEventSet, CtlTable, Inv, DoSocket, FindFd, EmptyFd, AllocationOk, NumbersOk, TableOk, Step;
    var l := s.Loc(r);
    var lfds := l.pollfds[0].lfds;
    assert NumbersOk(l) && TableOk(lfds) by { Wellformed(s, r, events, data); }
    AddRefusedThere(l, lfds, events, data);
    CloseFirstSocket(s, r, events, data);
    var t := Step(s, Move(r, Close(FD_START))).0;
    OpenNextSocket(t, r);
    var u := Step(t, Move(r, Socket(true, true, false))).0;
    SamePollfds(l, u.Loc(r), POLLFD_START);
    AddStep(u, r, lfds, events, data);
  }

  lemma Wellformed(s: Sys, r: Role, events: EventMask, data: int)
    requires FirstRegistered(s, r, events, data)
    ensures NumbersOk(s.Loc(r)) && TableOk(s.Loc(r).pollfds[0].lfds)
  {
    hide CountsOk, ListsOk, FdsOk, IsEventSet;
  }

  lemma AddStep(s: Sys, r: Role, lfds: seq<Listener>, events: EventMask, data: int)
    requires FindPollfd(s.Loc(r), POLLFD_START) == Some(0) && s.Loc(r).pollfds[0].lfds == lfds &&
             FindFd(s.Loc(r).fds, FD_START + 1) == Some(0)
    ensures Step(s, Move(r, EpollCtl(POLLFD_START, CtlAdd, FD_START + 1, events, data))).1 ==
            CtlTable(s.Loc(r).fds, lfds, CtlAdd, FD_START + 1, 0, events, data).1
  {
    hide CtlTable, FindPollfd, FindFd;
  }

  // ---------- a connection on offer ----------

  /** `r` listens with descriptor 700 and its peer is connecting to it over record 1. */
  ghost predicate Offered(s: Sys, r: Role) {
    var l := s.Loc(r);
    var o := s.Loc(Other(r));
    && SysInv(s) && FilledTo(l, 1) && l.fds[0].state == SListen && Taken(r, s.shared, l, FD_START) == Some(1)
    && FilledTo(o, 1) && o.fds[0].state == SConnecting && o.fds[0].pConn == Some(1)
    && 1 in s.shared.conns && s.shared.conns[1].Own(Other(r)).recvBuffer == []
  }

  lemma NothingYet(s: Sys, r: Role)
    requires Initial(s)
    ensures FilledTo(s.Loc(r), 0) && s.shared.conns == map[]
    ensures forall m | 0 <= m < |s.shared.ifaces| :: s.shared.ifaces[m].connectionList == []
  {
  }

  /** A listener takes what its interface offers. */
  lemma TakesOffer(s: Sys, r: Role, k: nat, port: int)
    requires FilledTo(s.Loc(r), 1) && k < |s.shared.ifaces| && Some(k) in s.Loc(r).interfaces
    requires s.Loc(r).fds[0] == ListeningFd(0, s.shared.ifaces[k].OwnAddress(r), port, 0)
    requires Pending(s.shared, r, port, 1) && s.shared.ifaces[k].connectionList == [1]
    requires forall m | 0 <= m < |s.shared.ifaces| && m != k :: s.shared.ifaces[m].connectionList == []
    ensures Taken(r, s.shared, s.Loc(r), FD_START) == Some(1)
  {
    FilledFinds(s.Loc(r), 1, 0);
    var fd := s.Loc(r).fds[0];
    assert 1 in s.shared.ifaces[k].connectionList;
    assert Offers(s.shared, r, Some(k), fd.listenAddress, port, fd.listenAddress == 0);
  }

  lemma ReachOffered(s: Sys, r: Role, k: nat) returns (moves: seq<Move>)
    requires Initial(s) && Some(k) in s.Loc(r).interfaces && Reaches(s, Other(r), k)
    ensures Playable(s, moves) && Offered(Run(s, moves), r)
  {
    hide Initial, Run, Playable, InterfaceBySockaddr, SysInv, Taken;
    var o := Other(r);
    var addr := s.shared.ifaces[k].OwnAddress(r);
    NothingYet(s, r);
    NothingYet(s, o);
    var listening := OpenListener(s, r, 0, addr, 1, 0);
    var t := Run(s, listening);
    SameInterfaces(s, t, o, addr);
    var connecting := FirstConnect(t, o, k, addr, 1, 1);
    RunAppend(s, listening, connecting);
    moves := listening + connecting;
    InitialInv(s);
    RunKeepsInv(s, moves);
    TakesOffer(Run(s, moves), r, k, 1);
  }

  /** accept without a place for the peer's address, as its declaration allows, writes through a null pointer. */
  lemma NamelessAcceptIsReached(s: Sys, r: Role, k: nat, nonblock: bool) returns (moves: seq<Move>)
    requires Initial(s) && Some(k) in s.Loc(r).interfaces && Reaches(s, Other(r), k)
    ensures Playable(s, moves) && Step(Run(s, moves), Move(r, Accept(FD_START, nonblock, false))).1 == Undefined
  {
    hide Run, Playable, Initial, SysInv, Reaches, PickOnTable, GetPeerName;
    moves := ReachOffered(s, r, k);
    FilledFinds(Run(s, moves).Loc(r), 1, 0);
  }

  // ---------- the two ends of an open connection ----------

  /**
   `r` holds one end of record 1 with descriptor 701, and its peer the other with descriptor 700, which is in
   `state`. The connection is in `phase`, and `queue` is on its way to the peer.
   */
  ghost predicate Linked(s: Sys, r: Role, state: SocketState, phase: ConnState, queue: seq<Packet>) {
    var o := s.Loc(Other(r));
    && FindFd(o.fds, FD_START) == Some(0) && o.fds[0].state == state && o.fds[0].pConn == Some(1)
    && 1 in s.shared.conns && s.shared.conns[1].connState == phase
    && s.shared.conns[1].Own(Other(r)).recvBuffer == queue
    && (phase == COpen ==> var l := s.Loc(r);
        FindFd(l.fds, FD_START + 1) == Some(1) && l.fds[1].state == SOpen && l.fds[1].pConn == Some(1))
  }

  lemma AcceptOffer(s: Sys, r: Role)
    requires Offered(s, r)
    ensures var m := Move(r, Accept(FD_START, true, true));
            Step(s, m).1 != Undefined && AllocationOk(r, s.shared, s.Loc(r), m.call) &&
              Linked(Step(s, m).0, r, SConnecting, COpen, [])
  {
    hide SysInv, Taken, Step, AllocationOk;
    var m := Move(r, Accept(FD_START, true, true));
    FilledFinds(s.Loc(r), 1, 0);
    FilledFinds(s.Loc(Other(r)), 1, 0);
    assert EmptyFd(s.Loc(r).fds) == Some(1) by { EmptyFdExactly(s.Loc(r).fds, 1); }
    AcceptAt(s, r, 0, FD_START, 1, 1);
    FoundFd(Step(s, m).0.Loc(r).fds, 1, FD_START + 1);
  }

  lemma OpenPeer(s: Sys, r: Role)
    requires Linked(s, r, SConnecting, COpen, [])
    ensures var m := Move(Other(r), ConnectEx(FD_START, 0, 0, 0));
            Step(s, m).1 != Undefined && AllocationOk(Other(r), s.shared, s.Loc(Other(r)), m.call) &&
              Linked(Step(s, m).0, r, SOpen, COpen, [])
  {
    hide Step, AllocationOk;
    ConnectedAt(s, Other(r), 0, FD_START, 1);
    var t := Step(s, Move(Other(r), ConnectEx(FD_START, 0, 0, 0))).0;
    SameNumbersFound(s.Loc(Other(r)).fds, t.Loc(Other(r)).fds, FD_START);
  }

  lemma SendOver(s: Sys, r: Role, state: SocketState, queue: seq<Packet>, data: seq<Byte>)
    requires Linked(s, r, state, COpen, queue)
    ensures var m := Move(r, Send(FD_START + 1, data));
            && Step(s, m).1 != Undefined && AllocationOk(r, s.shared, s.Loc(r), m.call)
            && Linked(Step(s, m).0, r, state, COpen, queue + [BufferEntry(data, 0, |data|)])
  {
    hide Step, AllocationOk, SetEvent;
    SendAt(s, r, 1, FD_START + 1, data, 1);
  }

  lemma CloseOver(s: Sys, r: Role, state: SocketState, queue: seq<Packet>)
    requires Linked(s, r, state, COpen, queue)
    ensures var m := Move(r, Close(FD_START + 1));
            && Step(s, m).1 != Undefined && AllocationOk(r, s.shared, s.Loc(r), m.call)
            && Linked(Step(s, m).0, r, state, CClose, queue)
  {
    hide Step, AllocationOk, SetEvent;
    CloseAt(s, r, 1, FD_START + 1, 1);
  }

  lemma ReachLinked(s: Sys, r: Role, k: nat, isOpen: bool) returns (moves: seq<Move>)
    requires Initial(s) && Some(k) in s.Loc(r).interfaces && Reaches(s, Other(r), k)
    ensures Playable(s, moves) && Linked(Run(s, moves), r, if isOpen then SOpen else SConnecting, COpen, [])
  {
    hide Run, Playable, Initial, Reaches, Step, Linked, AllocationOk;
    moves := ReachOffered(s, r, k);
    AcceptOffer(Run(s, moves), r);
    PlayMore(s, moves, Move(r, Accept(FD_START, true, true)));
    moves := moves + [Move(r, Accept(FD_START, true, true))];
    if isOpen {
      OpenPeer(Run(s, moves), r);
      PlayMore(s, moves, Move(Other(r), ConnectEx(FD_START, 0, 0, 0)));
      moves := moves + [Move(Other(r), ConnectEx(FD_START, 0, 0, 0))];
    }
  }

  /** From there, `r` sends `pieces` one after the other. */
  lemma {:induction false} SendPieces(s: Sys, r: Role, moves: seq<Move>, state: SocketState, queue: seq<Packet>,
                                      pieces: seq<seq<Byte>>)
    returns (more: seq<Move>)
    requires Playable(s, moves) && Linked(Run(s, moves), r, state, COpen, queue)
    ensures Playable(s, more) && Linked(Run(s, more), r, state, COpen, queue + Packed(pieces))
    decreases |pieces|
  {
    hide Run, Playable, Step, Linked, AllocationOk, Packed;
    if pieces == [] {
      assert queue + Packed(pieces) == queue by { PackedInTurn(queue, pieces); }
      more := moves;
    } else {
      var m := Move(r, Send(FD_START + 1, pieces[0]));
      SendOver(Run(s, moves), r, state, queue, pieces[0]);
      PlayMore(s, moves, m);
      PackedInTurn(queue, pieces);
      more := SendPieces(s, r, moves + [m], state, queue + [BufferEntry(pieces[0], 0, |pieces[0]|)], pieces[1..]);
    }
  }

  lemma PackedInTurn(queue: seq<Packet>, pieces: seq<seq<Byte>>)
    ensures queue + Packed(pieces) ==
            if pieces == [] then queue
            else queue + [BufferEntry(pieces[0], 0, |pieces[0]|)] + Packed(pieces[1..])
  {
    if pieces != [] {
      var first: seq<Packet> := [BufferEntry(pieces[0], 0, |pieces[0]|)];
      assert queue + (first + Packed(pieces[1..])) == (queue + first) + Packed(pieces[1..]);
    }
  }

  function Packed(pieces: seq<seq<Byte>>): seq<Packet> {
    if pieces == [] then [] else [BufferEntry(pieces[0], 0, |pieces[0]|)] + Packed(pieces[1..])
  }

  /** The peer connects, is accepted and, if `isOpen`, open; then `r` sends `pieces` and, if `closed`, closes. */
  lemma ReachQueue(s: Sys, r: Role, k: nat, isOpen: bool, pieces: seq<seq<Byte>>, closed: bool)
    returns (moves: seq<Move>)
    requires Initial(s) && Some(k) in s.Loc(r).interfaces && Reaches(s, Other(r), k)
    ensures Playable(s, moves) && SysInv(Run(s, moves))
    ensures Linked(Run(s, moves), r, if isOpen then SOpen else SConnecting, if closed then CClose
                   else COpen, Packed(pieces))
  {
    hide Run, Playable, Reaches, Step, Linked, AllocationOk, InitialLocal;
    var state := if isOpen then SOpen else SConnecting;
    moves := ReachLinked(s, r, k, isOpen);
    moves := SendPieces(s, r, moves, state, [], pieces);
    assert [] + Packed(pieces) == Packed(pieces);
    if closed {
      CloseOver(Run(s, moves), r, state, Packed(pieces));
      PlayMore(s, moves, Move(r, Close(FD_START + 1)));
      moves := moves + [Move(r, Close(FD_START + 1))];
    }
    InitialInv(s);
    RunKeepsInv(s, moves);
  }

  /** The record between the two, with a byte on its way to the peer. */
  predicate ByteUnread(s: Sys, r: Role) {
    ConnOf(s.Loc(Other(r)), FD_START) == Some(1) && 1 in s.shared.conns &&
      UnreadAll(s.shared.conns[1].Own(Other(r)).recvBuffer) == [7]
  }

  lemma UnreadBytes()
    ensures UnreadAll(Packed([[7]])) == [7] && UnreadAll(Packed([[], [7]])) == [7]
    ensures Packed([[7]]) == [BufferEntry([7], 0, 1)] &&
            Packed([[], [7]]) == [BufferEntry([], 0, 0), BufferEntry([7], 0, 1)]
  {
    assert [[], [7]][1..] == [[7]] && [[7]][1..] == [];
  }

  /** End of file with a byte unread: the caller offers no room. */
  lemma RoomlessEofIsReached(s: Sys, r: Role, k: nat) returns (moves: seq<Move>)
    requires Initial(s) && Some(k) in s.Loc(r).interfaces && Reaches(s, Other(r), k)
    ensures Playable(s, moves) && ByteUnread(Run(s, moves), r)
    ensures Step(Run(s, moves), Move(Other(r), Recv(FD_START, 0, true))).1 == Eof
  {
    hide Run, Playable, Initial, Reaches, SysInv, UnreadAll, Packed;
    UnreadBytes();
    moves := ReachQueue(s, r, k, true, [[7]], true);
  }

  /** End of file with a byte unread: an empty packet is in front, however much room there is. */
  lemma EmptyPacketEofIsReached(s: Sys, r: Role, k: nat, len: nat) returns (moves: seq<Move>)
    requires Initial(s) && Some(k) in s.Loc(r).interfaces && Reaches(s, Other(r), k)
    ensures Playable(s, moves) && ByteUnread(Run(s, moves), r)
    ensures Step(Run(s, moves), Move(Other(r), Recv(FD_START, len, true))).1 == Eof
  {
    hide Run, Playable, Initial, Reaches, SysInv, UnreadAll, Packed;
    UnreadBytes();
    moves := ReachQueue(s, r, k, true, [[], [7]], true);
  }

  /** EAGAIN with a byte waiting: an empty packet is in front. */
  lemma EmptyPacketEagainIsReached(s: Sys, r: Role, k: nat, len: nat) returns (moves: seq<Move>)
    requires Initial(s) && Some(k) in s.Loc(r).interfaces && Reaches(s, Other(r), k)
    ensures Playable(s, moves) && ByteUnread(Run(s, moves), r)
    ensures Step(Run(s, moves), Move(Other(r), Recv(FD_START, len, true))).1 == Fail(-1, EAGAIN)
  {
    hide Run, Playable, Initial, Reaches, SysInv, UnreadAll, Packed;
    UnreadBytes();
    moves := ReachQueue(s, r, k, true, [[], [7]], false);
  }

  /** A refused connect with a byte unread: the peer has accepted, sent and closed in the meantime. */
  lemma RefusalIsReached(s: Sys, r: Role, k: nat) returns (moves: seq<Move>)
    requires Initial(s) && Some(k) in s.Loc(r).interfaces && Reaches(s, Other(r), k)
    ensures Playable(s, moves) && ByteUnread(Run(s, moves), r)
    ensures Step(Run(s, moves), Move(Other(r), ConnectEx(FD_START, 0, 0, 0))).1 == Fail(-1, ECONNREFUSED)
    ensures Unreadable(Run(s, moves), 1)
  {
    hide Run, Playable, Initial, Reaches, SysInv, UnreadAll, Packed, InterfaceBySockaddr, NoneOpen;
    UnreadBytes();
    moves := ReachQueue(s, r, k, false, [[7]], true);
    LastIsNotOpen(Run(s, moves), Other(r), 0, 1);
  }

  /** A refused send with a byte unread: the peer has sent and closed, and we send before we read. */
  lemma RefusedSendIsReached(s: Sys, r: Role, k: nat, data: seq<Byte>) returns (moves: seq<Move>)
    requires Initial(s) && Some(k) in s.Loc(r).interfaces && Reaches(s, Other(r), k)
    ensures Playable(s, moves) && ByteUnread(Run(s, moves), r)
    ensures Step(Run(s, moves), Move(Other(r), Send(FD_START, data))).1 == Fail(-1, ENOTCONN)
  {
    hide Run, Playable, Initial, Reaches, SysInv, UnreadAll, Packed, SendConnection;
    UnreadBytes();
    moves := ReachQueue(s, r, k, true, [[7]], true);
  }
}
