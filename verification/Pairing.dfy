/**
 Which connection an accept takes: one that a connect call created for this listener, the most
 recent pending one, on the first matching interface, and never twice.
 */
module Pairing {
  import opened Basics
  import opened Connections
  import opened Descriptors
  import opened Readiness
  import opened Duplex
  import opened Scanning
  import opened Reachability

  /** The connect call that created a connection; `serial` orders these calls in time. */
  datatype Birth = Birth(initiator: Role, address: int, port: int, serial: nat)

  datatype Births = Births(of: map<Ptr, Birth>, clock: nat)

  function ObserveBirth(r: Role, sh: Shared, l: Local, b: Births, call: Call): Births {
    if Creates(r, sh, l, call) then
      Births(b.of[call.block := Birth(r, call.addr, call.port, b.clock)], b.clock + 1)
    else b
  }

  /** The record agrees with the connect call that made it. */
  predicate BirthOk(sh: Shared, c: Connection, birth: Birth, randomPort: int) {
    && c.iface.Some? && c.iface.value < |sh.ifaces|
    && sh.ifaces[c.iface.value].RemoteAddress(birth.initiator) == birth.address
    && c.Own(Other(birth.initiator)).port == birth.port
    && FIRST_RANDOM_PORT <= c.Own(birth.initiator).port < randomPort
  }

  ghost predicate NewestFirst(list: seq<Ptr>, b: Births) {
    (forall i | 0 <= i < |list| :: list[i] in b.of && b.of[list[i]].serial < b.clock) &&
    (forall i, j | 0 <= i < j < |list| :: b.of[list[i]].serial > b.of[list[j]].serial)
  }

  ghost predicate ListsNewestFirst(sh: Shared, b: Births) {
    forall k | 0 <= k < |sh.ifaces| :: NewestFirst(sh.ifaces[k].connectionList, b)
  }

  /** `mine` and `theirs` are the next ephemeral ports of `r` and of its peer. */
  ghost predicate RecordsOk(r: Role, sh: Shared, mine: int, theirs: int, b: Births) {
    forall p | p in sh.conns && sh.conns[p].iface.Some? ::
      p in b.of && BirthOk(sh, sh.conns[p], b.of[p], if b.of[p].initiator == r then mine else theirs)
  }

  ghost predicate BirthsOk(r: Role, sh: Shared, mine: int, theirs: int, b: Births) {
    RecordsOk(r, sh, mine, theirs, b) && ListsNewestFirst(sh, b)
  }

  // ---------- preservation ----------

  /** No new record, no change of port or interface, and lists only lose entries. */
  ghost predicate PortsKept(sh: Shared, sh': Shared) {
    && |sh'.ifaces| == |sh.ifaces|
    && (forall k | 0 <= k < |sh.ifaces| ::
          && sh'.ifaces[k].serverAddress == sh.ifaces[k].serverAddress
          && sh'.ifaces[k].clientAddress == sh.ifaces[k].clientAddress
          && (sh'.ifaces[k].connectionList == sh.ifaces[k].connectionList ||
              exists p :: sh'.ifaces[k].connectionList == RemoveFirst(sh.ifaces[k].connectionList, p)))
    && (forall p | p in sh'.conns && sh'.conns[p].iface.Some? ::
          && p in sh.conns && sh'.conns[p].iface == sh.conns[p].iface
          && sh'.conns[p].server.port == sh.conns[p].server.port && sh'.conns[p].client.port == sh.conns[p].client.port)
  }

  lemma RemoveKeepsOrder(list: seq<Ptr>, p: Ptr, b: Births)
    requires NewestFirst(list, b)
    ensures NewestFirst(RemoveFirst(list, p), b)
  {
  }

  lemma PortsKeptKeepsBirths(r: Role, sh: Shared, sh': Shared, mine: int, theirs: int, b: Births)
    requires BirthsOk(r, sh, mine, theirs, b) && PortsKept(sh, sh')
    ensures BirthsOk(r, sh', mine, theirs, b)
  {
    forall k | 0 <= k < |sh'.ifaces| ensures NewestFirst(sh'.ifaces[k].connectionList, b) {
      if sh'.ifaces[k].connectionList != sh.ifaces[k].connectionList {
        var p :| sh'.ifaces[k].connectionList == RemoveFirst(sh.ifaces[k].connectionList, p);
        RemoveKeepsOrder(sh.ifaces[k].connectionList, p, b);
      }
    }
  }

  lemma AcceptKeepsPorts(r: Role, sh: Shared, l: Local, num: int, nonblock: bool, named: bool)
    ensures PortsKept(sh, DoAccept(r, sh, l, num, nonblock, named).shared)
  {
    hide GetPeerName, PickOnTable;
  }

  lemma SendKeepsPorts(r: Role, sh: Shared, l: Local, num: int, data: seq<Byte>)
    ensures PortsKept(sh, DoSend(r, sh, l, num, data).shared)
  {
    hide SetEvent;
  }

  lemma RecvKeepsPorts(r: Role, sh: Shared, l: Local, num: int, len: nat, dontwait: bool)
    ensures PortsKept(sh, DoRecv(r, sh, l, num, len, dontwait).shared)
  {
    hide RecvConnection;
    var i := FindFd(l.fds, num);
    if i.Some? && Deref(sh, l.fds[i.value].pConn).Some? {
      ReadKeepsPorts(sh.conns[l.fds[i.value].pConn.value], r, len);
    }
  }

  lemma ReadKeepsPorts(c: Connection, r: Role, len: nat)
    ensures var d := RecvConnection(c, r, len).conn;
            d.iface == c.iface && d.server.port == c.server.port && d.client.port == c.client.port
  {
  }

  lemma CloseKeepsPorts(r: Role, sh: Shared, l: Local, num: int)
    ensures PortsKept(sh, DoClose(r, sh, l, num).shared)
  {
    hide SetEvent, RemoveFirst;
  }

  lemma ScanKeepsPorts(r: Role, sh: Shared, l: Local, epfd: int, maxevents: int)
    ensures PortsKept(sh, DoScan(r, sh, l, epfd, maxevents).shared)
  {
    hide ScanFrom;
    var k := FindPollfd(l, epfd);
    if k.Some? {
      ScanFromFrame(StartScan(sh, l, k.value), r, l.interfaces, 0, maxevents);
    }
  }

  lemma ListenKeepsPorts(sh: Shared, l: Local, num: int, block: Ptr)
    requires StartsListen(l, num) ==> block !in sh.conns
    ensures PortsKept(sh, DoListen(sh, l, num, block).shared)
  {
  }

  lemma PublishKeepsOrder(sh: Shared, p: Ptr, c: Connection, b: Births, birth: Birth)
    requires ListsNewestFirst(sh, b) && ListsOk(sh) && p !in sh.conns && birth.serial == b.clock
    requires c.iface.Some? && c.iface.value < |sh.ifaces|
    ensures ListsNewestFirst(Publish(sh, p, c), Births(b.of[p := birth], b.clock + 1))
  {
    hide NoDuplicates;
    var sh' := Publish(sh, p, c);
    var b' := Births(b.of[p := birth], b.clock + 1);
    forall k | 0 <= k < |sh'.ifaces| ensures NewestFirst(sh'.ifaces[k].connectionList, b') {
      assert NewestFirst(sh.ifaces[k].connectionList, b);
      assert forall i | 0 <= i < |sh.ifaces[k].connectionList| :: sh.ifaces[k].connectionList[i] in sh.conns;
    }
  }

  lemma PublishKeepsRecords(r: Role, sh: Shared, p: Ptr, c: Connection, mine: int, theirs: int, b: Births, birth: Birth)
    requires RecordsOk(r, sh, mine, theirs, b) && c.iface.Some? && c.iface.value < |sh.ifaces|
    requires birth.initiator == r && BirthOk(sh, c, birth, mine + 1)
    ensures RecordsOk(r, Publish(sh, p, c), mine + 1, theirs, Births(b.of[p := birth], b.clock + 1))
  {
  }

  lemma CreationKeepsBirths(r: Role, sh: Shared, l: Local, theirs: int, b: Births, call: Call)
    requires Creates(r, sh, l, call) && AllocationOk(r, sh, l, call) && BirthsOk(r, sh, l.randomPort, theirs, b)
    requires ListsOk(sh) && l.randomPort >= FIRST_RANDOM_PORT
    ensures BirthsOk(r, Publish(sh, call.block, Created(r, sh, l, call)), l.randomPort + 1, theirs,
                     ObserveBirth(r, sh, l, b, call))
  {
    hide ListsOk, RecordsOk, ListsNewestFirst, Publish;
    var birth := Birth(r, call.addr, call.port, b.clock);
    PublishKeepsOrder(sh, call.block, Created(r, sh, l, call), b, birth);
    PublishKeepsRecords(r, sh, call.block, Created(r, sh, l, call), l.randomPort, theirs, b, birth);
  }

  lemma ApplyKeepsPorts(r: Role, sh: Shared, l: Local, call: Call)
    requires AllocationOk(r, sh, l, call) && !Creates(r, sh, l, call)
    ensures PortsKept(sh, Apply(r, sh, l, call).shared)
  {
    hide DoAccept, DoConnect, DoConnectEx, DoSend, DoRecv, DoClose, DoScan, DoListen, DoEpollCtl, DoBind, DoSocket,
        Creates;
    match call
    case Connect(_, _, _, _) => CreationShape(r, sh, l, call);
    case ConnectEx(_, _, _, _) => CreationShape(r, sh, l, call);
    case Listen(num, block) => ListenKeepsPorts(sh, l, num, block);
    case Accept(num, nonblock, named) => AcceptKeepsPorts(r, sh, l, num, nonblock, named);
    case Send(num, data) => SendKeepsPorts(r, sh, l, num, data);
    case Recv(num, len, dontwait) => RecvKeepsPorts(r, sh, l, num, len, dontwait);
    case Close(num) => CloseKeepsPorts(r, sh, l, num);
    case Wait(epfd, maxevents) => ScanKeepsPorts(r, sh, l, epfd, maxevents);
    case _ =>
  }

  lemma ApplyKeepsBirths(r: Role, sh: Shared, l: Local, theirs: int, b: Births, call: Call)
    requires AllocationOk(r, sh, l, call) && BirthsOk(r, sh, l.randomPort, theirs, b) && ListsOk(sh)
    requires l.randomPort >= FIRST_RANDOM_PORT
    ensures var e := Apply(r, sh, l, call);
            BirthsOk(r, e.shared, e.local.randomPort, theirs, ObserveBirth(r, sh, l, b, call)) &&
            e.local.randomPort >= FIRST_RANDOM_PORT
  {
    hide Apply, BirthsOk, ListsOk, PortsKept, Creates, Created, Publish;
    CallTouches(r, sh, l, call);
    if Creates(r, sh, l, call) {
      assert call.Connect? || call.ConnectEx? by { CreatesConnects(r, sh, l, call); }
      CreationShape(r, sh, l, call);
      CreationKeepsBirths(r, sh, l, theirs, b, call);
    } else {
      ApplyKeepsPorts(r, sh, l, call);
      PortsKeptKeepsBirths(r, sh, Apply(r, sh, l, call).shared, l.randomPort, theirs, b);
    }
  }

  lemma CreatesConnects(r: Role, sh: Shared, l: Local, call: Call)
    requires Creates(r, sh, l, call)
    ensures call.Connect? || call.ConnectEx?
  {
  }

  ghost predicate SysBirthsOk(s: Sys, b: Births) {
    BirthsOk(Server, s.shared, s.server.randomPort, s.client.randomPort, b) &&
    s.server.randomPort >= FIRST_RANDOM_PORT && s.client.randomPort >= FIRST_RANDOM_PORT
  }

  lemma OtherView(r: Role, sh: Shared, mine: int, theirs: int, b: Births)
    requires BirthsOk(r, sh, mine, theirs, b)
    ensures BirthsOk(Other(r), sh, theirs, mine, b)
  {
  }

  lemma StepKeepsBirths(s: Sys, b: Births, m: Move)
    requires SysBirthsOk(s, b) && ListsOk(s.shared) && AllocationOk(m.role, s.shared, s.Loc(m.role), m.call)
    ensures SysBirthsOk(Step(s, m).0, ObserveBirth(m.role, s.shared, s.Loc(m.role), b, m.call))
  {
    hide Apply, BirthsOk, ListsOk, ObserveBirth;
    if m.role == Server {
      ApplyKeepsBirths(Server, s.shared, s.server, s.client.randomPort, b, m.call);
    } else {
      OtherView(Server, s.shared, s.server.randomPort, s.client.randomPort, b);
      ApplyKeepsBirths(Client, s.shared, s.client, s.server.randomPort, b, m.call);
      var t := Step(s, m).0;
      OtherView(Client, t.shared, t.client.randomPort, s.server.randomPort,
                ObserveBirth(Client, s.shared, s.client, b, m.call));
    }
  }

  function RunBirths(s: Sys, b: Births, moves: seq<Move>): Births
    decreases |moves|
  {
    if moves == [] then b
    else
      var m := moves[0];
      RunBirths(Step(s, m).0, ObserveBirth(m.role, s.shared, s.Loc(m.role), b, m.call), moves[1..])
  }

  lemma {:induction false} RunKeepsBirths(s: Sys, b: Births, moves: seq<Move>)
    requires SysInv(s) && SysBirthsOk(s, b) && Playable(s, moves)
    ensures SysBirthsOk(Run(s, moves), RunBirths(s, b, moves))
    decreases |moves|
  {
    hide LocalOk, ListsOk, CountsOk, SysBirthsOk, Apply, ObserveBirth;
    if moves != [] {
      var m := moves[0];
      StepKeepsInv(s, m);
      StepKeepsBirths(s, b, m);
      RunKeepsBirths(Step(s, m).0, ObserveBirth(m.role, s.shared, s.Loc(m.role), b, m.call), moves[1..]);
    }
  }

  lemma InitialBirths(s: Sys)
    requires Initial(s)
    ensures SysBirthsOk(s, Births(map[], 0))
  {
  }

  // ---------- the network never changes ----------

  /** The same interfaces and addresses, with any connections on them. */
  ghost predicate SameNetwork(sh: Shared, sh': Shared) {
    |sh'.ifaces| == |sh.ifaces| && forall k | 0 <= k < |sh.ifaces| ::
      sh'.ifaces[k].serverAddress == sh.ifaces[k].serverAddress &&
        sh'.ifaces[k].clientAddress == sh.ifaces[k].clientAddress
  }

  /** The same network and the same interface tables. */
  ghost predicate SameWiring(s: Sys, t: Sys) {
    SameNetwork(s.shared, t.shared) && t.server.interfaces == s.server.interfaces &&
      t.client.interfaces == s.client.interfaces
  }

  lemma ApplyKeepsNetwork(r: Role, sh: Shared, l: Local, call: Call)
    requires AllocationOk(r, sh, l, call)
    ensures SameNetwork(sh, Apply(r, sh, l, call).shared)
  {
    hide Apply, InterfaceBySockaddr;
    if Creates(r, sh, l, call) {
      CreationShape(r, sh, l, call);
    } else {
      ApplyKeepsPorts(r, sh, l, call);
    }
  }

  lemma StepKeepsWiring(s: Sys, m: Move)
    requires AllocationOk(m.role, s.shared, s.Loc(m.role), m.call)
    ensures SameWiring(s, Step(s, m).0)
  {
    hide Apply, AllocationOk;
    ApplyKeepsNetwork(m.role, s.shared, s.Loc(m.role), m.call);
    CallTouches(m.role, s.shared, s.Loc(m.role), m.call);
  }

  lemma {:induction false} RunKeepsWiring(s: Sys, moves: seq<Move>)
    requires Playable(s, moves)
    ensures SameWiring(s, Run(s, moves))
    decreases |moves|
  {
    hide Step, AllocationOk;
    if moves != [] {
      StepKeepsWiring(s, moves[0]);
      RunKeepsWiring(Step(s, moves[0]).0, moves[1..]);
    }
  }

  /** Which interface an address leads to is settled by the wiring. */
  lemma WiringDecides(s: Sys, t: Sys, r: Role, addr: int)
    requires SameWiring(s, t)
    ensures InterfaceBySockaddr(r, t.shared, t.Loc(r), addr) == InterfaceBySockaddr(r, s.shared, s.Loc(r), addr)
  {
    FirstIndexSame(s.Loc(r).interfaces,
      (e: Option<nat>) => LeadsTo(r, t.shared, e, addr), (e: Option<nat>) => LeadsTo(r, s.shared, e, addr));
  }

  /** Every record is on the interface that its connect call found, in the wiring of `s`. */
  ghost predicate OnInterfaceFound(s: Sys, sh: Shared, b: Births) {
    forall p | p in sh.conns && sh.conns[p].iface.Some? ::
      p in b.of && sh.conns[p].iface ==
        InterfaceBySockaddr(b.of[p].initiator, s.shared, s.Loc(b.of[p].initiator), b.of[p].address)
  }

  lemma StepKeepsFound(s: Sys, t: Sys, b: Births, m: Move)
    requires SameWiring(s, t) && OnInterfaceFound(s, t.shared, b) &&
             AllocationOk(m.role, t.shared, t.Loc(m.role), m.call)
    ensures OnInterfaceFound(s, Step(t, m).0.shared, ObserveBirth(m.role, t.shared, t.Loc(m.role), b, m.call))
  {
    hide Apply, InterfaceBySockaddr;
    if Creates(m.role, t.shared, t.Loc(m.role), m.call) {
      CreationShape(m.role, t.shared, t.Loc(m.role), m.call);
      WiringDecides(s, t, m.role, m.call.addr);
    } else {
      ApplyKeepsPorts(m.role, t.shared, t.Loc(m.role), m.call);
    }
  }

  lemma WiringTransitive(s: Sys, t: Sys, u: Sys)
    requires SameWiring(s, t) && SameWiring(t, u)
    ensures SameWiring(s, u)
  {
  }

  lemma {:induction false} RunKeepsFound(s: Sys, t: Sys, b: Births, moves: seq<Move>)
    requires SameWiring(s, t) && OnInterfaceFound(s, t.shared, b) && Playable(t, moves)
    ensures OnInterfaceFound(s, Run(t, moves).shared, RunBirths(t, b, moves))
    decreases |moves|
  {
    hide Step, AllocationOk, OnInterfaceFound, ObserveBirth, SameWiring;
    if moves != [] {
      var m := moves[0];
      StepKeepsFound(s, t, b, m);
      StepKeepsWiring(t, m);
      WiringTransitive(s, t, Step(t, m).0);
      RunKeepsFound(s, Step(t, m).0, ObserveBirth(m.role, t.shared, t.Loc(m.role), b, m.call), moves[1..]);
    }
  }

  // ---------- what accept takes ----------

  /** The connection an accept call takes, if any. */
  function Taken(r: Role, sh: Shared, l: Local, num: int): Option<Ptr> {
    var i := FindFd(l.fds, num);
    if i.None? || l.fds[i.value].state != SListen then None
    else AcceptOnAnyIface(sh, r, l.interfaces, l.fds[i.value].listenAddress, l.fds[i.value].listenPort)
  }

  predicate Matches(r: Role, sh: Shared, e: Option<nat>, addr: int) {
    e.Some? && e.value < |sh.ifaces| && (addr == 0 || sh.ifaces[e.value].OwnAddress(r) == addr)
  }

  /**
   `p` is the newest pending connection for `port` on table entry `m`, the first entry that matches `addr`
   and has one.
   */
  ghost predicate NewestOn(r: Role, sh: Shared, interfaces: seq<Option<nat>>, addr: int, port: int, b: Births, p: Ptr,
                           m: nat) {
    && m < |interfaces| && Matches(r, sh, interfaces[m], addr)
    && p in sh.ifaces[interfaces[m].value].connectionList && Pending(sh, r, port, p) && p in b.of
    && (forall q | q in sh.ifaces[interfaces[m].value].connectionList && Pending(sh, r, port, q) ::
          q in b.of && b.of[q].serial <= b.of[p].serial)
    && (forall n, q | 0 <= n < m && Matches(r, sh, interfaces[n], addr) &&
        q in sh.ifaces[interfaces[n].value].connectionList ::
          !Pending(sh, r, port, q))
  }

  /**
   accept takes the most recently initiated pending connection for its port on the matching interface
   of lowest index, for every listener and every reachable state.
   */
  lemma AcceptTakesNewest(s: Sys, moves: seq<Move>, r: Role, num: int, p: Ptr) returns (m: nat)
    requires Initial(s) && Playable(s, moves) && Taken(r, Run(s, moves).shared, Run(s, moves).Loc(r), num) == Some(p)
    ensures var t := Run(s, moves); var l := t.Loc(r);
            var fd := l.fds[FindFd(l.fds, num).value];
            NewestOn(r, t.shared, l.interfaces, fd.listenAddress, fd.listenPort, RunBirths(s, Births(map[], 0), moves),
                     p, m)
  {
    hide Run, RunBirths, Playable, Inv, Taken, NewestOn, ListsNewestFirst, RecordsOk;
    assert SysInv(s) by { InitialInv(s); }
    InitialBirths(s);
    RunKeepsBirths(s, Births(map[], 0), moves);
    var t := Run(s, moves);
    m := NewestTaken(r, t.shared, t.Loc(r), num, RunBirths(s, Births(map[], 0), moves), p);
  }

  lemma NewestTaken(r: Role, sh: Shared, l: Local, num: int, b: Births, p: Ptr) returns (m: nat)
    requires ListsNewestFirst(sh, b) && Taken(r, sh, l, num) == Some(p)
    ensures FindFd(l.fds, num).Some?
    ensures var fd := l.fds[FindFd(l.fds, num).value];
            NewestOn(r, sh, l.interfaces, fd.listenAddress, fd.listenPort, b, p, m)
  {
    var fd := l.fds[FindFd(l.fds, num).value];
    var addr := fd.listenAddress;
    var port := fd.listenPort;
    m := FirstIndex(l.interfaces, (e: Option<nat>) => Offers(sh, r, e, addr, port, addr == 0)).value;
    var list := sh.ifaces[l.interfaces[m].value].connectionList;
    assert NewestFirst(list, b);
    assert Matches(r, sh, l.interfaces[m], addr);
    forall n, q | 0 <= n < m && Matches(r, sh, l.interfaces[n], addr) &&
      q in sh.ifaces[l.interfaces[n].value].connectionList
      ensures !Pending(sh, r, port, q)
    {
      assert !Offers(sh, r, l.interfaces[n], addr, port, addr == 0);
    }
    var i := FirstIndex(list, (q: Ptr) => Pending(sh, r, port, q)).value;
    forall q | q in list && Pending(sh, r, port, q) ensures b.of[q].serial <= b.of[p].serial {
      var j :| 0 <= j < |list| && list[j] == q;
      assert i <= j;
    }
  }

  /**
   Pairing: unless the listening port is one of the acceptor's own ephemeral ports, the connection was
   initiated by the peer, naming this listener's port and an address of the acceptor that the listener
   covers.
   */
  lemma AcceptTakesPeerConnect(r: Role, s: Sys, moves: seq<Move>, num: int, p: Ptr)
    requires Initial(s) && Playable(s, moves)
    requires Taken(r, Run(s, moves).shared, Run(s, moves).Loc(r), num) == Some(p)
    ensures p in RunBirths(s, Births(map[], 0), moves).of
    ensures var birth := RunBirths(s, Births(map[], 0), moves).of[p];
            var l := Run(s, moves).Loc(r);
            var fd := l.fds[FindFd(l.fds, num).value];
            if birth.initiator == r then FIRST_RANDOM_PORT <= fd.listenPort < l.randomPort
            else birth.port == fd.listenPort && (fd.listenAddress == 0 || birth.address == fd.listenAddress)
  {
    hide Run, RunBirths, Playable, Inv, FindFd;
    InitialInv(s);
    InitialBirths(s);
    RunKeepsInv(s, moves);
    RunKeepsBirths(s, Births(map[], 0), moves);
    var t := Run(s, moves);
    SysListsOk(t);
    TakenIsListed(r, t.shared, t.Loc(r), num, p);
  }

  lemma SysListsOk(s: Sys)
    requires SysInv(s)
    ensures ListsOk(s.shared)
  {
  }

  lemma TakenIsListed(r: Role, sh: Shared, l: Local, num: int, p: Ptr)
    requires ListsOk(sh) && Taken(r, sh, l, num) == Some(p)
    ensures FindFd(l.fds, num).Some? && p in sh.conns && sh.conns[p].connState == CCreate
    ensures var fd := l.fds[FindFd(l.fds, num).value];
            var c := sh.conns[p];
            c.iface.Some? && c.iface.value < |sh.ifaces| && c.Own(r).port == fd.listenPort &&
            (fd.listenAddress == 0 || sh.ifaces[c.iface.value].OwnAddress(r) == fd.listenAddress)
  {
    var fd := l.fds[FindFd(l.fds, num).value];
    var addr := fd.listenAddress;
    var m := FirstIndex(l.interfaces, (e: Option<nat>) => Offers(sh, r, e, addr, fd.listenPort, addr == 0)).value;
    assert p in sh.ifaces[l.interfaces[m].value].connectionList;
  }

  /** Once taken, a connection is never pending again while its record lives. */
  lemma AcceptedOnce(r: Role, s: Sys, num: int, nonblock: bool, named: bool, moves: seq<Move>, p: Ptr, r': Role,
                     port: int)
    requires Taken(r, s.shared, s.Loc(r), num) == Some(p)
    requires Step(s, Move(r, Accept(num, nonblock, named))).1 != Undefined
    requires var t := Step(s, Move(r, Accept(num, nonblock, named))).0; Playable(t, moves) && Survives(t, moves, p)
    ensures !Pending(Run(Step(s, Move(r, Accept(num, nonblock, named))).0, moves).shared, r', port, p)
  {
    hide GetPeerName, PickOnTable, Playable, Survives, Run;
    RunMovesForward(Step(s, Move(r, Accept(num, nonblock, named))).0, moves, p);
  }

  /** On the initiating side, getpeername gives back the address and port named in the connect call. */
  lemma PeerNameIsTarget(s: Sys, moves: seq<Move>, r: Role, i: nat, p: Ptr)
    requires Initial(s) && Playable(s, moves)
    requires var t := Run(s, moves); i < |t.Loc(r).fds| && t.Loc(r).fds[i].active && t.Loc(r).fds[i].pConn == Some(p)
    requires p in Run(s, moves).shared.conns && Run(s, moves).shared.conns[p].connState == COpen
    ensures p in RunBirths(s, Births(map[], 0), moves).of
    ensures var t := Run(s, moves);
            var birth := RunBirths(s, Births(map[], 0), moves).of[p];
            birth.initiator == r ==>
              GetPeerName(r, t.shared, t.Loc(r), t.Loc(r).fds[i].num) == Name(birth.address, birth.port)
  {
    hide Run, RunBirths, Playable, ListsNewestFirst, PollfdsOk, InterfacesOk, ListsOk;
    InitialInv(s);
    InitialBirths(s);
    RunKeepsInv(s, moves);
    RunKeepsBirths(s, Births(map[], 0), moves);
    var t := Run(s, moves);
    NumbersFind(t, r, i);
    assert t.shared.conns[p].iface.Some?;
  }

  lemma NumbersFind(s: Sys, r: Role, i: nat)
    requires NumbersOk(s.Loc(r)) && i < |s.Loc(r).fds| && s.Loc(r).fds[i].active
    ensures FindFd(s.Loc(r).fds, s.Loc(r).fds[i].num) == Some(i)
  {
    FoundFd(s.Loc(r).fds, i, s.Loc(r).fds[i].num);
  }
}
