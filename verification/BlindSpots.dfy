/**
 The 0.0.0.0 wildcard exists for accept but not for readiness: when a listener on every interface misses
 a connection that it could accept, over all runs.
 */
module BlindSpots {
  import opened Basics
  import opened Connections
  import opened Descriptors
  import opened Duplex
  import opened Reachability
  import opened Pairing
  import opened Ports
  import opened ListenerReadiness

  /** `num` listens on `addr` and `port`; accept would take a connection, and readiness does not see any. */
  predicate Missed(s: Sys, r: Role, num: int, addr: int, port: int) {
    var l := s.Loc(r);
    var i := FindFd(l.fds, num);
    && i.Some? && l.fds[i.value].state == SListen && l.fds[i.value].listenAddress == addr
    && l.fds[i.value].listenPort == port
    && Taken(r, s.shared, l, num).Some? && SearchOnAnyIface(s.shared, r, l.interfaces, addr, port).None?
  }

  /** Connects of `o` can go over interface `k`, which `r` has registered with an own address other than 0. */
  predicate Hides(s: Sys, r: Role, o: Role, k: nat) {
    Reaches(s, o, k) && Some(k) in s.Loc(r).interfaces && s.shared.ifaces[k].OwnAddress(r) != 0
  }

  /** The peer's connects can come over such an interface, or the port can be ephemeral and the own ones can. */
  predicate BlindSpot(s: Sys, r: Role, port: int, k: nat) {
    Hides(s, r, Other(r), k) || (FIRST_RANDOM_PORT <= port < PORT_LIMIT && Hides(s, r, r, k))
  }

  /** What hides the one pending connection of an interface with a proper address. */
  lemma OneListedIsMissed(s: Sys, r: Role, num: int, port: int, m: nat)
    requires OneListed(s.shared, m) && Pending(s.shared, r, port, 1) && Some(m) in s.Loc(r).interfaces
    requires s.shared.ifaces[m].OwnAddress(r) != 0
    requires var l := s.Loc(r);
             FindFd(l.fds, num) == Some(0) && l.fds[0].state == SListen && l.fds[0].listenPort == port &&
               l.fds[0].listenAddress == 0
    ensures Missed(s, r, num, 0, port)
  {
    OwnIsTaken(s, r, num, port, m);
    forall e | e in s.Loc(r).interfaces ensures !Offers(s.shared, r, e, 0, port, false) {
    }
  }

  /** A run that ends with a missed connection of the peer. */
  lemma PeerIsMissed(s: Sys, r: Role, port: int, k: nat) returns (moves: seq<Move>, num: int)
    requires Initial(s) && Hides(s, r, Other(r), k)
    ensures Playable(s, moves) && Missed(Run(s, moves), r, num, 0, port)
  {
    hide Run, Playable, Missed, InterfaceBySockaddr, OneListed;
    assert Idle(s, r, k, 0);
    var listening := ListenFirst(s, r, k, 0, port);
    var t := Run(s, listening);
    assert PeerMoves(Other(r), listening);
    PeersKeepTables(s, Other(r), listening);
    RunKeepsWiring(s, listening);
    WiringDecides(s, t, Other(r), AddressOf(s, Other(r), k));
    var connecting := PeerConnects(t, r, k, FD_START + 1, port);
    RunAppend(s, listening, connecting);
    moves, num := listening + connecting, FD_START;
    var u := Run(s, moves);
    RunKeepsWiring(s, moves);
    FoundFd(u.Loc(r).fds, 0, num);
    OneListedIsMissed(u, r, num, port, k);
  }

  /** A run that ends with a missed connection of the process's own. */
  lemma OwnIsMissed(s: Sys, r: Role, port: int, k: nat) returns (moves: seq<Move>, num: int)
    requires Initial(s) && Hides(s, r, r, k) && FIRST_RANDOM_PORT <= port < PORT_LIMIT
    ensures Playable(s, moves) && Missed(Run(s, moves), r, num, 0, port)
  {
    hide Run, Playable, Missed, InterfaceBySockaddr;
    var p;
    moves, num, p := UnsafePortTakesOwn(s, r, k, port);
    var u := Run(s, moves);
    RunKeepsWiring(s, moves);
    OwnIsPending(u, r, num, port, p, k);
    OneListedIsMissed(u, r, num, port, k);
  }

  lemma OwnIsPending(s: Sys, r: Role, num: int, port: int, p: Ptr, m: nat)
    requires OwnConnect(s, r, num, port, p) && OneListed(s.shared, m)
    ensures Pending(s.shared, r, port, 1)
  {
    assert Pending(s.shared, r, port, p);
  }

  /** The interface of a missed connection has a proper own address. */
  lemma MissedIsHidden(s: Sys, r: Role, num: int, port: int) returns (p: Ptr)
    requires Missed(s, r, num, 0, port) && ListsOk(s.shared)
    ensures Taken(r, s.shared, s.Loc(r), num) == Some(p) && p in s.shared.conns
    ensures s.shared.conns[p].iface.Some? && s.shared.conns[p].iface.value < |s.shared.ifaces|
    ensures var k := s.shared.conns[p].iface.value;
            Some(k) in s.Loc(r).interfaces && s.shared.ifaces[k].OwnAddress(r) != 0
  {
    hide SearchOnIface, NoDuplicates;
    var l := s.Loc(r);
    p := Taken(r, s.shared, l, num).value;
    var m := FirstIndex(l.interfaces, (e: Option<nat>) => Offers(s.shared, r, e, 0, port, true)).value;
    assert p in s.shared.ifaces[l.interfaces[m].value].connectionList;
    assert !Offers(s.shared, r, l.interfaces[m], 0, port, false);
  }

  lemma MissedHasBlindSpot(s: Sys, r: Role, moves: seq<Move>, num: int, port: int) returns (k: nat)
    requires Initial(s) && Playable(s, moves) && Missed(Run(s, moves), r, num, 0, port)
    ensures BlindSpot(s, r, port, k)
  {
    hide Run, RunBirths, Playable, InterfaceBySockaddr, PickOnTable, Inv, RecordsOk, ListsNewestFirst;
    var start := Births(map[], 0);
    assert SysInv(s) by { InitialInv(s); }
    RunKeepsInv(s, moves);
    var t := Run(s, moves);
    assert ListsOk(t.shared) by { SysListsOk(t); }
    var p := MissedIsHidden(t, r, num, port);
    k := t.shared.conns[p].iface.value;
    RunKeepsWiring(s, moves);
    RunKeepsFound(s, s, start, moves);
    InitialBirths(s);
    RunKeepsBirths(s, start, moves);
    AcceptTakesPeerConnect(r, s, moves, num, p);
    var birth := RunBirths(s, start, moves).of[p];
    AddressFound(birth.initiator, s.shared, s.Loc(birth.initiator), birth.address, k);
    if birth.initiator == r {
      OwnPortBound(s, r, moves, num);
    }
  }

  lemma AddressFound(r: Role, sh: Shared, l: Local, addr: int, k: nat)
    requires InterfaceBySockaddr(r, sh, l, addr) == Some(k)
    ensures k < |sh.ifaces| && sh.ifaces[k].RemoteAddress(r) == addr
  {
  }

  lemma OwnPortBound(s: Sys, r: Role, moves: seq<Move>, num: int)
    requires Initial(s)
    requires var l := Run(s, moves).Loc(r); FindFd(l.fds, num).Some? && l.fds[FindFd(l.fds, num).value].state == SListen
    ensures Run(s, moves).Loc(r).randomPort <= PORT_LIMIT
  {
    hide Run, PortBound;
    InitialBound(s.server);
    InitialBound(s.client);
    RunKeepsBound(s, moves);
    var l := Run(s, moves).Loc(r);
    ListenerBoundsPorts(l, FindFd(l.fds, num).value);
  }

  /**
   Some run of the two processes ends with an acceptable connection that readiness does not see, if and
   only if the listener uses the wildcard and connections can reach it over an interface whose own
   address is not 0: from the peer, or, on an ephemeral port, from its own process.
   */
  lemma WildcardExactly(s: Sys, r: Role, addr: int, port: int)
    requires Initial(s)
    ensures (exists moves, num :: Playable(s, moves) && Missed(Run(s, moves), r, num, addr, port))
            <==> addr == 0 && exists k :: BlindSpot(s, r, port, k)
  {
    hide Run, Playable, Missed, BlindSpot, Initial;
    if addr == 0 && exists k :: BlindSpot(s, r, port, k) {
      var k :| BlindSpot(s, r, port, k);
      var moves, num := BlindSpotIsReached(s, r, port, k);
    }
    forall moves, num | Playable(s, moves) && Missed(Run(s, moves), r, num, addr, port)
      ensures addr == 0 && exists k :: BlindSpot(s, r, port, k)
    {
      assert addr == 0 by { AddressIsSeen(Run(s, moves), r, num, addr, port); }
      var k := MissedHasBlindSpot(s, r, moves, num, port);
    }
  }

  lemma BlindSpotIsReached(s: Sys, r: Role, port: int, k: nat) returns (moves: seq<Move>, num: int)
    requires Initial(s) && BlindSpot(s, r, port, k)
    ensures Playable(s, moves) && Missed(Run(s, moves), r, num, 0, port)
  {
    hide Run, Playable, Missed, Hides, Initial;
    if Hides(s, r, Other(r), k) {
      moves, num := PeerIsMissed(s, r, port, k);
    } else {
      moves, num := OwnIsMissed(s, r, port, k);
    }
  }

  lemma AddressIsSeen(s: Sys, r: Role, num: int, addr: int, port: int)
    requires Missed(s, r, num, addr, port)
    ensures addr == 0
  {
    hide PickOnTable;
    SearchFoundAccepts(s.shared, r, s.Loc(r).interfaces, addr, port);
  }
}
