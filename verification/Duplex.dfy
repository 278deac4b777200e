/**
 The two-process system: one step is one call (or one pass of a waiting call) by one process.
 The invariant says that `connState` counts the active descriptors that point at a connection.
 It holds in every reachable state, and it is why no call ever follows a freed pointer.
 */
module Duplex {
  import opened Basics
  import opened Connections
  import opened Descriptors
  import opened Readiness

  /**
   `block` is the address malloc returns, if the call allocates a connection. `named` says that the caller
   of accept4 wants the peer's address, that is, passes a pointer that is not null.
   */
  datatype Call =
    | Socket(inet: bool, stream: bool, nonblock: bool)
    | Bind(num: int, addr: int, port: int)
    | Listen(num: int, block: Ptr)
    | Accept(num: int, nonblock: bool, named: bool)
    | Connect(num: int, addr: int, port: int, block: Ptr)
    | ConnectEx(num: int, addr: int, port: int, block: Ptr)
    | Send(num: int, data: seq<Byte>)
    | Recv(num: int, len: nat, dontwait: bool)
    | Close(num: int)
    | SetNonblock(num: int, nonblock: bool)
    | EpollCreate
    | EpollCtl(epfd: int, op: CtlOp, num: int, events: EventMask, userData: int)
    | Wait(epfd: int, maxevents: int)
    | PollOpen

  function Apply(r: Role, sh: Shared, l: Local, call: Call): Effect {
    match call
    case Socket(inet, stream, nonblock) => var e := DoSocket(l, inet, stream, nonblock); Effect(sh, e.0, e.1)
    case Bind(num, addr, port) => var e := DoBind(l, num, addr, port); Effect(sh, e.0, e.1)
    case Listen(num, block) => DoListen(sh, l, num, block)
    case Accept(num, nonblock, named) => DoAccept(r, sh, l, num, nonblock, named)
    case Connect(num, addr, port, block) => DoConnect(r, sh, l, num, addr, port, block)
    case ConnectEx(num, addr, port, block) => DoConnectEx(r, sh, l, num, addr, port, block)
    case Send(num, data) => DoSend(r, sh, l, num, data)
    case Recv(num, len, dontwait) => DoRecv(r, sh, l, num, len, dontwait)
    case Close(num) => DoClose(r, sh, l, num)
    case SetNonblock(num, nonblock) => var e := DoSetNonblock(l, num, nonblock); Effect(sh, e.0, e.1)
    case EpollCreate => var e := DoEpollCreate(l); Effect(sh, e.0, e.1)
    case EpollCtl(epfd, op, num, events, userData) =>
      var e := DoEpollCtl(l, epfd, op, num, events, userData); Effect(sh, e.0, e.1)
    case Wait(epfd, maxevents) => DoScan(r, sh, l, epfd, maxevents)
    case PollOpen => var e := DoPollOpen(l); Effect(sh, e.0, e.1)
  }

  /**
   A call that sleeps and looks again: `schedule[k]` is what shared memory holds after the k-th sleep,
   whatever the peer did to it. `Blocked` means that the schedule ends while the process still waits.
   */
  function Repeat(r: Role, sh: Shared, l: Local, call: Call, schedule: seq<Shared>): Effect
    decreases |schedule|
  {
    var e := Apply(r, sh, l, call);
    if e.out != Blocked || schedule == [] then e else Repeat(r, schedule[0], e.local, call, schedule[1..])
  }

  /**
   connect: refused on a connecting descriptor, which no later pass of connectEx is, so a blocking connect
   is one pass of its own and then passes of connectEx.
   */
  function ConnectCall(r: Role, sh: Shared, l: Local, num: int, addr: int, port: int, block: Ptr,
                       schedule: seq<Shared>): Effect {
    var e := DoConnect(r, sh, l, num, addr, port, block);
    if e.out != Blocked || schedule == [] then e
    else Repeat(r, schedule[0], e.local, ConnectEx(num, addr, port, block), schedule[1..])
  }

  /** A connect on a fresh socket, to an address that one of the interfaces reaches. */
  predicate StartsConnect(r: Role, sh: Shared, l: Local, num: int, addr: int) {
    FindFd(l.fds, num).Some? && l.fds[FindFd(l.fds, num).value].state == SCreated &&
      InterfaceBySockaddr(r, sh, l, addr).Some?
  }

  predicate StartsListen(l: Local, num: int) {
    FindFd(l.fds, num).Some? && l.fds[FindFd(l.fds, num).value].state == SBound
  }

  /** Does this call create a connection? */
  predicate Creates(r: Role, sh: Shared, l: Local, call: Call) {
    (call.Connect? || call.ConnectEx?) && StartsConnect(r, sh, l, call.num, call.addr)
  }

  /**
   When a call allocates, malloc returns an address that is not in use; addresses may be used again
   after a removal.
   */
  predicate AllocationOk(r: Role, sh: Shared, l: Local, call: Call) {
    Creates(r, sh, l, call) || (call.Listen? && StartsListen(l, call.num)) ==> call.block !in sh.conns
  }

  datatype Sys = Sys(shared: Shared, server: Local, client: Local) {
    function Loc(r: Role): Local {
      if r == Server then server else client
    }
  }

  datatype Move = Move(role: Role, call: Call)

  function Step(s: Sys, m: Move): (Sys, Outcome) {
    var e := Apply(m.role, s.shared, s.Loc(m.role), m.call);
    (if m.role == Server then Sys(e.shared, e.local, s.client) else Sys(e.shared, s.server, e.local), e.out)
  }

  /** `moves` can be played from `s`: malloc behaves, and no step is undefined in C. */
  predicate Playable(s: Sys, moves: seq<Move>)
    decreases |moves|
  {
    moves == [] ||
    (AllocationOk(moves[0].role, s.shared, s.Loc(moves[0].role), moves[0].call) &&
     Step(s, moves[0]).1 != Undefined &&
     Playable(Step(s, moves[0]).0, moves[1..]))
  }

  function Run(s: Sys, moves: seq<Move>): Sys
    decreases |moves|
  {
    if moves == [] then s else Run(Step(s, moves[0]).0, moves[1..])
  }

  /** The record a creating call publishes. */
  function Created(r: Role, sh: Shared, l: Local, call: Call): Connection
    requires Creates(r, sh, l, call)
  {
    NewConnection(r, InterfaceBySockaddr(r, sh, l, call.addr).value, l.randomPort, call.port)
  }

  /** A connect call touches shared memory exactly when it creates a connection. */
  lemma CreationShape(r: Role, sh: Shared, l: Local, call: Call)
    requires call.Connect? || call.ConnectEx?
    ensures Apply(r, sh, l, call).shared ==
            if Creates(r, sh, l, call) then Publish(sh, call.block, Created(r, sh, l, call)) else sh
  {
    hide InterfaceBySockaddr, Publish;
  }

  // ---------- the invariant ----------

  /** The slots of active descriptors that point at `p`. */
  ghost function Slots(fds: seq<Fd>, p: Ptr): set<nat> {
    set i | 0 <= i < |fds| && fds[i].active && fds[i].pConn == Some(p)
  }

  ghost function References(p: Ptr, a: Local, b: Local): nat {
    |Slots(a.fds, p)| + |Slots(b.fds, p)|
  }

  /** What `connState` promises about the number of active descriptors. */
  function ReferenceCount(c: Connection): nat {
    match c.connState
    case CCreate => 1
    case COpen => 2
    case CClose => if c.iface.Some? then 1 else 0
    case CListen => 1
  }

  /** The typing of descriptor states by connection states. */
  predicate StateOk(state: SocketState, c: Connection) {
    match state
    case SCreated => false
    case SBound => false
    case SListen => c.connState == CListen && c.iface.None?
    case SConnecting => c.connState != CListen && c.iface.Some?
    case SOpen => (c.connState == COpen || c.connState == CClose) && c.iface.Some?
    case SClose => c.connState == CClose && c.iface.Some?
  }

  predicate FdOk(sh: Shared, fd: Fd) {
    if fd.pConn.None? then fd.state == SCreated || fd.state == SBound
    else fd.pConn.value in sh.conns && StateOk(fd.state, sh.conns[fd.pConn.value])
  }

  ghost predicate FdsOk(sh: Shared, l: Local) {
    forall i | 0 <= i < |l.fds| && l.fds[i].active :: FdOk(sh, l.fds[i])
  }

  /** Numbers are handed out once: no two slots, in use or not, ever hold the same one. */
  ghost predicate NumbersOk(l: Local) {
    && |l.fds| == MAX_FDS
    && FD_START <= l.currentMaxFd
    && (forall i | 0 <= i < |l.fds| ::
        (l.fds[i].num == 0 && !l.fds[i].active) || FD_START <= l.fds[i].num < l.currentMaxFd)
    && (forall i, j | 0 <= i < j < |l.fds| && l.fds[i].num == l.fds[j].num :: l.fds[i].num == 0)
  }

  /** An epoll table has at most one active registration per slot. */
  ghost predicate TableOk(lfds: seq<Listener>) {
    && |lfds| == MAX_FDS_LISTEN
    && (forall j | 0 <= j < |lfds| && lfds[j].active :: lfds[j].slot < MAX_FDS)
    && (forall j, k | 0 <= j < k < |lfds| && lfds[j].active && lfds[k].active :: lfds[j].slot != lfds[k].slot)
  }

  predicate NoneActive(lfds: seq<Listener>) {
    forall j | 0 <= j < |lfds| :: !lfds[j].active
  }

  /** Tables not in use are empty, and those in use have numbers of their own. */
  ghost predicate PollfdsOk(l: Local) {
    && |l.pollfds| == MAX_POLLFDS && POLLFD_START <= l.randomPollFd
    && (forall k | 0 <= k < |l.pollfds| :: TableOk(l.pollfds[k].lfds))
    && (forall k | 0 <= k < |l.pollfds| && !l.pollfds[k].active :: NoneActive(l.pollfds[k].lfds))
    && (forall k | 0 <= k < |l.pollfds| && l.pollfds[k].active :: POLLFD_START <= l.pollfds[k].num < l.randomPollFd)
    && (forall j, k | 0 <= j < k < |l.pollfds| && l.pollfds[j].active && l.pollfds[k].active ::
        l.pollfds[j].num != l.pollfds[k].num)
  }

  ghost predicate InterfacesOk(sh: Shared, l: Local) {
    |l.interfaces| == MAX_INTERFACES &&
    forall k | 0 <= k < |l.interfaces| && l.interfaces[k].Some? :: l.interfaces[k].value < |sh.ifaces|
  }

  ghost predicate NoDuplicates(list: seq<Ptr>) {
    forall i, j | 0 <= i < j < |list| :: list[i] != list[j]
  }

  /** Each published connection is listed once, by its own interface. */
  ghost predicate ListsOk(sh: Shared) {
    && (forall k | 0 <= k < |sh.ifaces| :: NoDuplicates(sh.ifaces[k].connectionList))
    && (forall k, p | 0 <= k < |sh.ifaces| && p in sh.ifaces[k].connectionList ::
          p in sh.conns && sh.conns[p].iface == Some(k))
    && (forall p | p in sh.conns && sh.conns[p].iface.Some? ::
          sh.conns[p].iface.value < |sh.ifaces| && p in sh.ifaces[sh.conns[p].iface.value].connectionList)
  }

  ghost predicate CountsOk(sh: Shared, a: Local, b: Local) {
    forall p | p in sh.conns ::
      && References(p, a, b) == ReferenceCount(sh.conns[p])
      && (sh.conns[p].connState == CListen ==> sh.conns[p].iface.None?)
      && (sh.conns[p].connState == CCreate || sh.conns[p].connState == COpen ==> sh.conns[p].iface.Some?)
  }

  ghost predicate LocalOk(sh: Shared, l: Local) {
    FdsOk(sh, l) && NumbersOk(l) && PollfdsOk(l) && InterfacesOk(sh, l)
  }

  ghost predicate Inv(sh: Shared, a: Local, b: Local) {
    LocalOk(sh, a) && LocalOk(sh, b) && ListsOk(sh) && CountsOk(sh, a, b)
  }

  ghost predicate SysInv(s: Sys) {
    Inv(s.shared, s.server, s.client)
  }

  // ---------- preservation ----------

  lemma SlotsAfterUpdate(fds: seq<Fd>, i: nat, fd: Fd, p: Ptr)
    requires i < |fds|
    ensures Slots(fds[i := fd], p) == if fd.active && fd.pConn == Some(p) then Slots(fds, p) + {i}
              else Slots(fds, p) - {i}
  {
  }

  /** A step that leaves protocol states, lists and pointers alone. */
  ghost predicate Quiet(sh: Shared, l: Local, sh': Shared, l': Local) {
    && sh'.ifaces == sh.ifaces
    && sh'.conns.Keys == sh.conns.Keys
    && (forall p | p in sh.conns ::
        sh'.conns[p].connState == sh.conns[p].connState && sh'.conns[p].iface == sh.conns[p].iface)
    && |l'.fds| == |l.fds|
    && (forall i | 0 <= i < |l.fds| :: l'.fds[i].active == l.fds[i].active && l'.fds[i].num == l.fds[i].num
                                        && l'.fds[i].pConn == l.fds[i].pConn)
    && (forall i | 0 <= i < |l.fds| && l.fds[i].active && l'.fds[i].state != l.fds[i].state :: FdOk(sh', l'.fds[i]))
    && l'.currentMaxFd == l.currentMaxFd && l'.interfaces == l.interfaces
  }

  /** Protocol states may only move in ways every descriptor typing tolerates. */
  lemma FdsStayOk(sh: Shared, l: Local, sh': Shared)
    requires FdsOk(sh, l)
    requires forall i, p | 0 <= i < |l.fds| && l.fds[i].active && l.fds[i].pConn == Some(p) && p in sh.conns ::
               p in sh'.conns && (StateOk(l.fds[i].state, sh.conns[p]) ==> StateOk(l.fds[i].state, sh'.conns[p]))
    ensures FdsOk(sh', l)
  {
  }

  lemma QuietKeepsCounts(sh: Shared, a: Local, b: Local, sh': Shared, a': Local)
    requires CountsOk(sh, a, b) && Quiet(sh, a, sh', a')
    ensures CountsOk(sh', a', b)
  {
    forall p | p in sh'.conns ensures References(p, a', b) == References(p, a, b) {
      assert Slots(a'.fds, p) == Slots(a.fds, p);
    }
  }

  lemma QuietKeepsFds(sh: Shared, a: Local, sh': Shared, a': Local)
    requires FdsOk(sh, a) && Quiet(sh, a, sh', a')
    ensures FdsOk(sh', a')
  {
  }

  lemma QuietKeepsInv(sh: Shared, a: Local, b: Local, sh': Shared, a': Local)
    requires Inv(sh, a, b) && Quiet(sh, a, sh', a') && PollfdsOk(a')
    ensures Inv(sh', a', b)
  {
    hide CountsOk, PollfdsOk, NumbersOk, ListsOk;
    QuietKeepsFds(sh, a, sh', a');
    FdsStayOk(sh, b, sh');
    QuietKeepsCounts(sh, a, b, sh', a');
    QuietKeepsNumbers(sh, a, sh', a');
    QuietKeepsLists(sh, a, sh', a');
  }

  lemma QuietKeepsNumbers(sh: Shared, a: Local, sh': Shared, a': Local)
    requires NumbersOk(a) && Quiet(sh, a, sh', a')
    ensures NumbersOk(a')
  {
  }

  lemma QuietKeepsLists(sh: Shared, a: Local, sh': Shared, a': Local)
    requires ListsOk(sh) && Quiet(sh, a, sh', a')
    ensures ListsOk(sh')
  {
  }

  function Refers(fd: Fd, p: Ptr): nat {
    if fd.active && fd.pConn == Some(p) then 1 else 0
  }

  /** Rewriting one slot moves one reference at most. */
  lemma ReferencesAfterUpdate(a: Local, a': Local, b: Local, i: nat, fd: Fd, p: Ptr)
    requires i < |a.fds| && a'.fds == a.fds[i := fd]
    ensures References(p, a', b) == References(p, a, b) + Refers(fd, p) - Refers(a.fds[i], p)
  {
    SlotsAfterUpdate(a.fds, i, fd, p);
    assert i in Slots(a.fds, p) <==> Refers(a.fds[i], p) == 1;
  }

  /** A descriptor with no reference left is not pointed at. */
  lemma UnreferencedIsUnused(p: Ptr, a: Local, b: Local)
    requires References(p, a, b) == 0
    ensures forall i | 0 <= i < |a.fds| && a.fds[i].active :: a.fds[i].pConn != Some(p)
    ensures forall i | 0 <= i < |b.fds| && b.fds[i].active :: b.fds[i].pConn != Some(p)
  {
    assert Slots(a.fds, p) == {} && Slots(b.fds, p) == {};
    forall i | 0 <= i < |a.fds| && a.fds[i].active ensures a.fds[i].pConn != Some(p) {
      assert i !in Slots(a.fds, p);
    }
    forall i | 0 <= i < |b.fds| && b.fds[i].active ensures b.fds[i].pConn != Some(p) {
      assert i !in Slots(b.fds, p);
    }
  }

  /** No active descriptor points at an address that holds no connection. */
  lemma UnallocatedIsUnreferenced(p: Ptr, sh: Shared, a: Local, b: Local)
    requires FdsOk(sh, a) && FdsOk(sh, b) && p !in sh.conns
    ensures References(p, a, b) == 0
  {
    NotReferenced(p, sh, a);
    NotReferenced(p, sh, b);
  }

  lemma NotReferenced(p: Ptr, sh: Shared, a: Local)
    requires FdsOk(sh, a) && p !in sh.conns
    ensures Slots(a.fds, p) == {}
  {
  }

  lemma SocketKeepsInv(sh: Shared, a: Local, b: Local, inet: bool, stream: bool, nonblock: bool)
    requires Inv(sh, a, b)
    ensures Inv(sh, DoSocket(a, inet, stream, nonblock).0, b)
  {
    var a' := DoSocket(a, inet, stream, nonblock).0;
    if a' != a {
      var i := EmptyFd(a.fds).value;
      forall p | p in sh.conns ensures References(p, a', b) == References(p, a, b) {
        ReferencesAfterUpdate(a, a', b, i, a'.fds[i], p);
      }
      assert NumbersOk(a');
      assert FdsOk(sh, a');
    }
  }

  /** Allocating a connection and pointing one unconnected descriptor at it. */
  lemma AttachKeepsCounts(sh: Shared, a: Local, b: Local, sh': Shared, a': Local, i: nat, block: Ptr)
    requires FdsOk(sh, a) && FdsOk(sh, b) && CountsOk(sh, a, b) && block !in sh.conns && block in sh'.conns
    requires sh'.conns == sh.conns[block := sh'.conns[block]] && ReferenceCount(sh'.conns[block]) == 1
    requires i < |a.fds| && |a'.fds| == |a.fds| && a'.fds == a.fds[i := a'.fds[i]]
    requires a.fds[i].pConn.None? && a'.fds[i].active && a'.fds[i].pConn == Some(block)
    requires StateOk(a'.fds[i].state, sh'.conns[block]) && a'.fds[i].state != SClose && a'.fds[i].state != SOpen
    ensures CountsOk(sh', a', b)
  {
    UnallocatedIsUnreferenced(block, sh, a, b);
    forall p | p in sh'.conns ensures References(p, a', b) == ReferenceCount(sh'.conns[p]) {
      ReferencesAfterUpdate(a, a', b, i, a'.fds[i], p);
    }
  }

  lemma AttachKeepsFds(sh: Shared, a: Local, b: Local, sh': Shared, a': Local, i: nat, block: Ptr)
    requires FdsOk(sh, a) && FdsOk(sh, b) && block !in sh.conns && block in sh'.conns
    requires sh'.conns == sh.conns[block := sh'.conns[block]]
    requires i < |a.fds| && |a'.fds| == |a.fds| && a'.fds == a.fds[i := a'.fds[i]] && FdOk(sh', a'.fds[i])
    ensures FdsOk(sh', a') && FdsOk(sh', b)
  {
  }

  lemma ListenKeepsInv(sh: Shared, a: Local, b: Local, num: int, block: Ptr)
    requires Inv(sh, a, b) && (StartsListen(a, num) ==> block !in sh.conns)
    ensures var e := DoListen(sh, a, num, block); Inv(e.shared, e.local, b)
  {
    var e := DoListen(sh, a, num, block);
    if e.local != a {
      var i := FindFd(a.fds, num).value;
      assert FdOk(sh, a.fds[i]);
      AttachKeepsCounts(sh, a, b, e.shared, e.local, i, block);
      AttachKeepsFds(sh, a, b, e.shared, e.local, i, block);
    }
  }

  lemma PublishKeepsLists(sh: Shared, p: Ptr, c: Connection)
    requires ListsOk(sh) && p !in sh.conns && c.iface.Some? && c.iface.value < |sh.ifaces|
    ensures ListsOk(Publish(sh, p, c))
  {
  }

  lemma WaitForAcceptKeepsInv(sh: Shared, a: Local, b: Local, i: nat)
    requires Inv(sh, a, b) && i < |a.fds| && a.fds[i].active && a.fds[i].state == SConnecting
    ensures var e := WaitForAccept(sh, a, i); Inv(e.shared, e.local, b)
  {
    hide ListsOk, CountsOk, NumbersOk, TableOk;
    var e := WaitForAccept(sh, a, i);
    assert FdOk(sh, a.fds[i]);
    QuietKeepsInv(sh, a, b, e.shared, e.local);
  }

  lemma StartConnectKeepsInv(sh: Shared, a: Local, b: Local, i: nat, c: Connection, block: Ptr)
    requires Inv(sh, a, b) && block !in sh.conns
    requires i < |a.fds| && a.fds[i].active && a.fds[i].pConn.None?
    requires c.connState == CCreate && c.iface.Some? && c.iface.value < |sh.ifaces|
    ensures Inv(Publish(sh, block, c),
                a.WithFd(i, a.fds[i].(pConn := Some(block), state := SConnecting)).(randomPort := a.randomPort + 1), b)
  {
    var sh' := Publish(sh, block, c);
    var a' := a.WithFd(i, a.fds[i].(pConn := Some(block), state := SConnecting)).(randomPort := a.randomPort + 1);
    PublishKeepsLists(sh, block, c);
    AttachKeepsCounts(sh, a, b, sh', a', i, block);
    AttachKeepsFds(sh, a, b, sh', a', i, block);
    assert NumbersOk(a');
  }

  lemma ConnectExKeepsInv(r: Role, sh: Shared, a: Local, b: Local, num: int, addr: int, port: int, block: Ptr)
    requires Inv(sh, a, b) && (StartsConnect(r, sh, a, num, addr) ==> block !in sh.conns)
    ensures var e := DoConnectEx(r, sh, a, num, addr, port, block); Inv(e.shared, e.local, b)
  {
    hide ListsOk;
    hide CountsOk;
    hide PollfdsOk;
    hide NumbersOk;
    hide InterfacesOk;
    var f := FindFd(a.fds, num);
    if f.Some? {
      var i := f.value;
      assert FdOk(sh, a.fds[i]);
      if a.fds[i].state == SConnecting {
        WaitForAcceptKeepsInv(sh, a, b, i);
      } else if a.fds[i].state == SCreated {
        var k := InterfaceBySockaddr(r, sh, a, addr);
        if k.Some? {
          var c := NewConnection(r, k.value, a.randomPort, port);
          StartConnectKeepsInv(sh, a, b, i, c, block);
          var a' := a.WithFd(i, a.fds[i].(pConn := Some(block), state := SConnecting)).(randomPort := a.randomPort + 1);
          WaitForAcceptKeepsInv(Publish(sh, block, c), a', b, i);
        }
      }
    }
  }

  /** The second closer, or the closer of a connection nobody accepted, holds its only reference. */
  lemma RemoveFirstRemoves(list: seq<Ptr>, p: Ptr)
    requires NoDuplicates(list)
    ensures NoDuplicates(RemoveFirst(list, p)) && forall q :: q in RemoveFirst(list, p) <==> q in list && q != p
  {
    var k := FirstIndex(list, (q: Ptr) => q == p);
    if k.Some? {
      var rest := RemoveFirst(list, p);
      assert forall i | 0 <= i < |rest| :: rest[i] == list[if i < k.value then i else i + 1];
      forall q ensures q in rest <==> q in list && q != p {
        RemovedElement(list, k.value, q);
      }
    }
  }

  lemma RemovedElement(list: seq<Ptr>, k: nat, q: Ptr)
    requires NoDuplicates(list) && k < |list|
    ensures q in list[..k] + list[k + 1..] <==> q in list && q != list[k]
  {
    assert list == list[..k] + [list[k]] + list[k + 1..];
  }

  lemma RemoveKeepsLists(sh: Shared, p: Ptr)
    requires ListsOk(sh) && p in sh.conns && sh.conns[p].iface.Some? && sh.conns[p].iface.value < |sh.ifaces|
    ensures ListsOk(RemoveConnection(sh, p))
  {
    hide RemoveFirst, NoDuplicates;
    RemoveFirstRemoves(sh.ifaces[sh.conns[p].iface.value].connectionList, p);
  }

  lemma CloseKeepsCounts(sh: Shared, a: Local, b: Local, sh': Shared, a': Local, i: nat, p: Ptr)
    requires CountsOk(sh, a, b) && i < |a.fds| && a.fds[i].active && a.fds[i].pConn == Some(p) && p in sh.conns
    requires |a'.fds| == |a.fds| && a'.fds == a.fds[i := a'.fds[i]] && !a'.fds[i].active
    requires sh'.conns == sh.conns - {p} ||
             (!RemovedByClose(sh.conns[p]) && exists r :: sh'.conns == sh.conns[p := MarkClosed(sh.conns[p], r)])
    ensures CountsOk(sh', a', b)
  {
    forall q | q in sh'.conns ensures References(q, a', b) == ReferenceCount(sh'.conns[q]) {
      ReferencesAfterUpdate(a, a', b, i, a'.fds[i], q);
    }
  }

  lemma RemoveKeepsFds(sh: Shared, a: Local, b: Local, a': Local, i: nat, p: Ptr)
    requires FdsOk(sh, a) && FdsOk(sh, b) && p in sh.conns && sh.conns[p].iface.Some? &&
             sh.conns[p].iface.value < |sh.ifaces|
    requires References(p, a, b) == 1 && i < |a.fds| && a.fds[i].active && a.fds[i].pConn == Some(p)
    requires |a'.fds| == |a.fds| && a'.fds == a.fds[i := a'.fds[i]] && !a'.fds[i].active
    ensures FdsOk(RemoveConnection(sh, p), a') && FdsOk(RemoveConnection(sh, p), b)
  {
    ReferencesAfterUpdate(a, a', b, i, a'.fds[i], p);
    UnreferencedIsUnused(p, a', b);
    assert FdsOk(sh, a');
    FdsStayOk(sh, a', RemoveConnection(sh, p));
    FdsStayOk(sh, b, RemoveConnection(sh, p));
  }

  lemma CloseSocketKeepsInv(r: Role, sh: Shared, a: Local, b: Local, num: int)
    requires Inv(sh, a, b)
    ensures var e := CloseSocket(r, sh, a, num); e.out != Undefined && Inv(e.shared, e.local, b)
  {
    hide PollfdsOk;
    hide InterfacesOk;
    hide ListsOk;
    var f := FindFd(a.fds, num);
    if f.Some? {
      var i := f.value;
      var fd := a.fds[i];
      assert FdOk(sh, fd);
      RestKept(sh, a, b, i, sh);
      if fd.pConn.None? {
        forall p | p in sh.conns ensures References(p, Released(a, i), b) == References(p, a, b) {
          ReferencesAfterUpdate(a, Released(a, i), b, i, Released(a, i).fds[i], p);
        }
        assert FdsOk(sh, Released(a, i));
      } else if RemovedByClose(sh.conns[fd.pConn.value]) {
        RemovalKeepsInv(sh, a, b, i, fd.pConn.value);
      } else {
        MarkingKeepsInv(r, sh, a, b, i, fd.pConn.value);
      }
    }
  }

  function Released(a: Local, i: nat): Local
    requires i < |a.fds|
  {
    a.WithFd(i, a.fds[i].(active := false, state := SClose))
  }

  lemma RemovalKeepsInv(sh: Shared, a: Local, b: Local, i: nat, p: Ptr)
    requires Inv(sh, a, b) && i < |a.fds| && a.fds[i].active && a.fds[i].pConn == Some(p)
    requires p in sh.conns && RemovedByClose(sh.conns[p])
    ensures sh.conns[p].iface.Some? && sh.conns[p].iface.value < |sh.ifaces|
    ensures Inv(RemoveConnection(sh, p), Released(a, i), b)
  {
    hide PollfdsOk;
    hide InterfacesOk;
    hide NoDuplicates;
    assert FdOk(sh, a.fds[i]) && i in Slots(a.fds, p);
    assert References(p, a, b) == 1;
    RemoveKeepsLists(sh, p);
    RemoveKeepsFds(sh, a, b, Released(a, i), i, p);
    CloseKeepsCounts(sh, a, b, RemoveConnection(sh, p), Released(a, i), i, p);
    RestKept(sh, a, b, i, RemoveConnection(sh, p));
  }

  lemma RestKept(sh: Shared, a: Local, b: Local, i: nat, sh': Shared)
    requires Inv(sh, a, b) && i < |a.fds| && |sh'.ifaces| == |sh.ifaces|
    ensures NumbersOk(Released(a, i)) && PollfdsOk(Released(a, i)) && InterfacesOk(sh', Released(a, i))
    ensures NumbersOk(b) && PollfdsOk(b) && InterfacesOk(sh', b)
  {
    hide ListsOk;
    hide CountsOk;
    hide FdsOk;
    hide TableOk;
  }

  lemma MarkingKeepsFds(r: Role, sh: Shared, l: Local, p: Ptr)
    requires FdsOk(sh, l) && p in sh.conns && !RemovedByClose(sh.conns[p])
    requires sh.conns[p].connState == CListen ==>
               forall i | 0 <= i < |l.fds| && l.fds[i].active :: l.fds[i].pConn != Some(p)
    ensures FdsOk(sh.Put(p, MarkClosed(sh.conns[p], r)), l)
  {
    FdsStayOk(sh, l, sh.Put(p, MarkClosed(sh.conns[p], r)));
  }

  lemma MarkingKeepsLists(r: Role, sh: Shared, p: Ptr)
    requires ListsOk(sh) && p in sh.conns
    ensures ListsOk(sh.Put(p, MarkClosed(sh.conns[p], r)))
  {
  }

  lemma MarkingKeepsInv(r: Role, sh: Shared, a: Local, b: Local, i: nat, p: Ptr)
    requires Inv(sh, a, b) && i < |a.fds| && a.fds[i].active && a.fds[i].pConn == Some(p)
    requires p in sh.conns && !RemovedByClose(sh.conns[p])
    ensures Inv(sh.Put(p, MarkClosed(sh.conns[p], r)), Released(a, i), b)
  {
    hide PollfdsOk;
    hide InterfacesOk;
    hide NumbersOk;
    hide ListsOk;
    var a' := Released(a, i);
    var sh' := sh.Put(p, MarkClosed(sh.conns[p], r));
    CloseKeepsCounts(sh, a, b, sh', a', i, p);
    ReferencesAfterUpdate(a, a', b, i, a'.fds[i], p);
    if sh.conns[p].connState == CListen {
      UnreferencedIsUnused(p, a', b);
    }
    MarkingKeepsFds(r, sh, a', p);
    MarkingKeepsFds(r, sh, b, p);
    MarkingKeepsLists(r, sh, p);
    RestKept(sh, a, b, i, sh');
  }
}
