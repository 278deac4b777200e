/**
 The descriptor table of one process and the socket calls of socket.c, as functions on values.

 A call that waits is described by one pass of its waiting loop: `Blocked` means the pass found
 nothing and the process sleeps. `Undefined` marks the places where the C code has no meaning
 (a null or freed pointer is followed), so that their absence can be proved.
 */
module Descriptors {
  import opened Basics
  import opened Connections

  const FD_START := 700
  const POLLFD_START := 900
  const SYSTEM_MAX_FD := 1024
  const MAX_FDS: nat := 50
  const MAX_POLLFDS: nat := 50
  const MAX_FDS_LISTEN: nat := 20
  const MAX_INTERFACES: nat := 10
  const FIRST_RANDOM_PORT := 10000

  datatype SocketState = SCreated | SBound | SListen | SOpen | SClose | SConnecting

  datatype Fd = Fd(active: bool, num: int, state: SocketState, listenPort: int, listenAddress: int,
                   nonblock: bool, pConn: Option<Ptr>)

  /** A registration in an epoll table; `slot` is the pointer into the descriptor table. */
  datatype Listener = Listener(active: bool, level: bool, events: EventMask, data: int, slot: nat)

  datatype EpollFd = EpollFd(active: bool, num: int, lfds: seq<Listener>)

  /** The private state of one process. `pollEpfd` is the static descriptor inside `poll`. */
  datatype Local = Local(interfaces: seq<Option<nat>>, fds: seq<Fd>, currentMaxFd: int, randomPort: int,
                         pollfds: seq<EpollFd>, randomPollFd: int, pollEpfd: int)
  {
    function WithFd(i: nat, fd: Fd): Local
      requires i < |fds|
    {
      this.(fds := fds[i := fd])
    }
  }

  datatype Errno =
    | EBADF | ENOMEM | ENFILE | EAGAIN | ECONNREFUSED | EINPROGRESS | ENETUNREACH | EALREADY | ENOTCONN
    | EEXIST | ENOENT | EINVAL | EAFNOSUPPORT | EPROTONOSUPPORT

  datatype Name = Name(address: int, port: int) | NoName(ret: int, errno: Errno) | NameUndefined

  /** One entry written by a readiness scan; `edge` tells an edge-triggered report. */
  datatype Report = Report(listener: nat, conn: Ptr, edge: bool, data: int, events: EventMask)

  datatype Outcome =
    | Ret(value: int)
    | Accepted(num: int, peer: Name)
    | Data(bytes: seq<Byte>)
    | Eof
    | Fail(ret: int, errno: Errno)
    | Blocked
    | Events(log: seq<Report>)
    | Foreign
    | Undefined

  datatype Effect = Effect(shared: Shared, local: Local, out: Outcome)

  function FindFd(fds: seq<Fd>, num: int): (r: Option<nat>)
    ensures r.Some? ==> r.value < |fds| && fds[r.value].active && fds[r.value].num == num
    ensures r.None? ==> forall k | 0 <= k < |fds| :: !(fds[k].active && fds[k].num == num)
  {
    FirstIndex(fds, (fd: Fd) => fd.active && fd.num == num)
  }

  /** A number is looked up in slot order; `None` means that no active slot has it. */
  lemma FindFdExactly(fds: seq<Fd>, num: int, i: nat)
    ensures FindFd(fds, num) == Some(i) <==>
            i < |fds| && fds[i].active && fds[i].num == num &&
              forall k | 0 <= k < i :: !(fds[k].active && fds[k].num == num)
    ensures FindFd(fds, num) == None <==> forall k | 0 <= k < |fds| :: !(fds[k].active && fds[k].num == num)
  {
    FirstIndexExactly(fds, (fd: Fd) => fd.active && fd.num == num, i);
  }

  /** The slot taken for a new descriptor is the first free one. */
  lemma EmptyFdExactly(fds: seq<Fd>, i: nat)
    ensures EmptyFd(fds) == Some(i) <==> i < |fds| && !fds[i].active && forall k | 0 <= k < i :: fds[k].active
    ensures EmptyFd(fds) == None <==> forall k | 0 <= k < |fds| :: fds[k].active
  {
    FirstIndexExactly(fds, (fd: Fd) => !fd.active, i);
  }

  lemma FoundFd(fds: seq<Fd>, i: nat, num: int)
    requires i < |fds| && fds[i].active && fds[i].num == num
    requires forall k | 0 <= k < i :: !(fds[k].active && fds[k].num == num)
    ensures FindFd(fds, num) == Some(i)
  {
  }

  /** The lookup depends only on which slots are in use and on their numbers. */
  lemma SameNumbersFound(fds: seq<Fd>, fds': seq<Fd>, num: int)
    requires |fds'| == |fds| &&
             forall i | 0 <= i < |fds| :: fds'[i].active == fds[i].active && fds'[i].num == fds[i].num
    ensures FindFd(fds', num) == FindFd(fds, num)
  {
  }

  function EmptyFd(fds: seq<Fd>): (r: Option<nat>)
    ensures r.Some? ==> r.value < |fds| && !fds[r.value].active
    ensures r.None? ==> forall k | 0 <= k < |fds| :: fds[k].active
  {
    FirstIndex(fds, (fd: Fd) => !fd.active)
  }

  function DoSocket(l: Local, inet: bool, stream: bool, nonblock: bool): (Local, Outcome) {
    if !inet then (l, Fail(-1, EAFNOSUPPORT))
    else if !stream then (l, Fail(-1, EPROTONOSUPPORT))
    else if l.currentMaxFd >= POLLFD_START then (l, Fail(-1, ENFILE))
    else match EmptyFd(l.fds)
      case None => (l, Fail(-1, ENOMEM))
      case Some(i) =>
        var fd := l.fds[i].(active := true, num := l.currentMaxFd, state := SCreated, nonblock := nonblock,
                            pConn := None);
        (l.WithFd(i, fd).(currentMaxFd := l.currentMaxFd + 1), Ret(l.currentMaxFd))
  }

  function DoBind(l: Local, num: int, addr: int, port: int): (Local, Outcome) {
    match FindFd(l.fds, num)
    case None => (l, Fail(-1, EBADF))
    case Some(i) =>
      if l.fds[i].state != SCreated then (l, Fail(-1, EBADF))
      else (l.WithFd(i, l.fds[i].(listenPort := port, listenAddress := addr, state := SBound)), Ret(0))
  }

  function DoListen(sh: Shared, l: Local, num: int, block: Ptr): Effect {
    match FindFd(l.fds, num)
    case None => Effect(sh, l, Fail(-1, EBADF))
    case Some(i) =>
      if l.fds[i].state != SBound then Effect(sh, l, Fail(-1, EBADF))
      else Effect(sh.Put(block, NewListenerConnection()),
                  l.WithFd(i, l.fds[i].(pConn := Some(block), state := SListen)), Ret(0))
  }

  function GetPeerName(r: Role, sh: Shared, l: Local, num: int): Name {
    match FindFd(l.fds, num)
    case None => NoName(1, EBADF)
    case Some(i) =>
      var fd := l.fds[i];
      if fd.pConn.None? then NoName(-1, ENOTCONN)
      else match Deref(sh, fd.pConn)
        case None => NameUndefined
        case Some(c) =>
          if c.connState != COpen then NoName(-1, ENOTCONN)
          else if c.iface.None? || c.iface.value >= |sh.ifaces| then NameUndefined
          else Name(sh.ifaces[c.iface.value].RemoteAddress(r), c.Own(Other(r)).port)
  }

  function GetSockName(r: Role, sh: Shared, l: Local, num: int): Name {
    match FindFd(l.fds, num)
    case None => NoName(1, EBADF)
    case Some(i) =>
      var fd := l.fds[i];
      if fd.state == SListen then Name(fd.listenAddress, fd.listenPort)
      else if fd.pConn.None? then NoName(-1, ENOTCONN)
      else match Deref(sh, fd.pConn)
        case None => NameUndefined
        case Some(c) =>
          if c.connState != COpen then NoName(-1, ENOTCONN)
          else if c.iface.None? || c.iface.value >= |sh.ifaces| then NameUndefined
          else Name(sh.ifaces[c.iface.value].OwnAddress(r), c.Own(r).port)
  }

  /**
   One pass of accept4. A missing slot is not detected before the slot is used, and the peer's name is
   written through the caller's pointer even if that is null, which the declaration allows.
   */
  function DoAccept(r: Role, sh: Shared, l: Local, num: int, nonblock: bool, named: bool): Effect {
    match FindFd(l.fds, num)
    case None => Effect(sh, l, Fail(-1, EBADF))
    case Some(i) =>
      var fd := l.fds[i];
      if fd.state != SListen then Effect(sh, l, Fail(-1, EBADF))
      else match AcceptOnAnyIface(sh, r, l.interfaces, fd.listenAddress, fd.listenPort)
        case None => Effect(sh, l, if fd.nonblock then Fail(-1, EAGAIN) else Blocked)
        case Some(p) =>
          var free := EmptyFd(l.fds);
          if p !in sh.conns || free.None? || !named then Effect(sh, l, Undefined)
          else
            var sh' := sh.Put(p, sh.conns[p].(connState := COpen));
            var newFd := l.fds[free.value].(active := true, num := l.currentMaxFd, state := SOpen,
                                            pConn := Some(p), nonblock := nonblock);
            var l' := l.WithFd(free.value, newFd).(currentMaxFd := l.currentMaxFd + 1);
            Effect(sh', l', Accepted(newFd.num, GetPeerName(r, sh', l', newFd.num)))
  }

  /** The waiting part of connectEx, one pass, for the descriptor in slot `i`. */
  function WaitForAccept(sh: Shared, l: Local, i: nat): Effect
    requires i < |l.fds|
  {
    var fd := l.fds[i];
    match Deref(sh, fd.pConn)
    case None => Effect(sh, l, Undefined)
    case Some(c) =>
      if c.connState == COpen then Effect(sh, l.WithFd(i, fd.(state := SOpen)), Ret(0))
      else if c.connState == CClose then Effect(sh, l, Fail(-1, ECONNREFUSED))
      else if fd.nonblock then Effect(sh, l, Fail(-1, EINPROGRESS))
      else Effect(sh, l, Blocked)
  }

  /** A table entry whose interface has the remote address. */
  predicate LeadsTo(r: Role, sh: Shared, e: Option<nat>, addr: int) {
    e.Some? && e.value < |sh.ifaces| && sh.ifaces[e.value].RemoteAddress(r) == addr
  }

  function InterfaceBySockaddr(r: Role, sh: Shared, l: Local, addr: int): (k: Option<nat>)
    ensures k.Some? ==> k.value < |sh.ifaces| && sh.ifaces[k.value].RemoteAddress(r) == addr
  {
    var e := FirstIndex(l.interfaces, (e: Option<nat>) => LeadsTo(r, sh, e, addr));
    if e.None? then None else l.interfaces[e.value]
  }

  /** An address is looked up in table order: the first interface with it, or ENETUNREACH if none has it. */
  lemma InterfaceExactly(r: Role, sh: Shared, l: Local, addr: int)
    ensures match InterfaceBySockaddr(r, sh, l, addr)
            case Some(k) =>
              exists i | 0 <= i < |l.interfaces| ::
                l.interfaces[i] == Some(k) && LeadsTo(r, sh, Some(k), addr) &&
                  forall m | 0 <= m < i :: !LeadsTo(r, sh, l.interfaces[m], addr)
            case None => forall i | 0 <= i < |l.interfaces| :: !LeadsTo(r, sh, l.interfaces[i], addr)
  {
    var i := FirstIndex(l.interfaces, (e: Option<nat>) => LeadsTo(r, sh, e, addr));
    if i.Some? {
      assert l.interfaces[i.value] == Some(l.interfaces[i.value].value);
    }
  }

  /** One pass of connectEx; calling it again on a connecting descriptor continues the wait. */
  function DoConnectEx(r: Role, sh: Shared, l: Local, num: int, addr: int, port: int, block: Ptr): Effect {
    match FindFd(l.fds, num)
    case None => Effect(sh, l, Fail(-1, EBADF))
    case Some(i) =>
      var fd := l.fds[i];
      if fd.state == SConnecting then WaitForAccept(sh, l, i)
      else if fd.state != SCreated then Effect(sh, l, Fail(-1, EBADF))
      else match InterfaceBySockaddr(r, sh, l, addr)
        case None => Effect(sh, l, Fail(-1, ENETUNREACH))
        case Some(k) =>
          var sh' := Publish(sh, block, NewConnection(r, k, l.randomPort, port));
          var l' := l.WithFd(i, fd.(pConn := Some(block), state := SConnecting)).(randomPort := l.randomPort + 1);
          WaitForAccept(sh', l', i)
  }

  function DoConnect(r: Role, sh: Shared, l: Local, num: int, addr: int, port: int, block: Ptr): Effect {
    match FindFd(l.fds, num)
    case None => Effect(sh, l, Fail(-1, EBADF))
    case Some(i) =>
      if l.fds[i].state == SConnecting then Effect(sh, l, Fail(-1, EALREADY))
      else DoConnectEx(r, sh, l, num, addr, port, block)
  }

  function DoSend(r: Role, sh: Shared, l: Local, num: int, data: seq<Byte>): Effect {
    match FindFd(l.fds, num)
    case None => Effect(sh, l, Fail(-1, EBADF))
    case Some(i) =>
      var fd := l.fds[i];
      if fd.state != SOpen then Effect(sh, l, Fail(-1, EBADF))
      else match Deref(sh, fd.pConn)
        case None => Effect(sh, l, Undefined)
        case Some(c) =>
          if c.connState == CClose then Effect(sh, l.WithFd(i, fd.(state := SClose)), Fail(-1, ENOTCONN))
          else Effect(sh.Put(fd.pConn.value, SendConnection(c, r, data)), l, Ret(|data|))
  }

  /**
   The loop of sendmsg from piece `i` on: `before[i]` is what memory holds when piece `i` is sent, and
   `sum` the bytes sent so far.
   */
  function DoSendPieces(r: Role, sh: Shared, l: Local, num: int, iov: seq<seq<Byte>>, before: seq<Shared>, i: nat,
                        sum: int): Effect
    requires |before| == |iov| && i <= |iov|
    decreases |iov| - i
  {
    if i == |iov| then Effect(sh, l, Ret(sum))
    else
      var e := DoSend(r, before[i], l, num, iov[i]);
      if e.out.Ret? then DoSendPieces(r, e.shared, e.local, num, iov, before, i + 1, sum + e.out.value) else e
  }

  /** sendmsg makes the checks of send once more before its loop. */
  function DoSendMsg(r: Role, sh: Shared, l: Local, num: int, iov: seq<seq<Byte>>, before: seq<Shared>): Effect
    requires |before| == |iov|
  {
    match FindFd(l.fds, num)
    case None => Effect(sh, l, Fail(-1, EBADF))
    case Some(i) =>
      var fd := l.fds[i];
      if fd.state != SOpen then Effect(sh, l, Fail(-1, EBADF))
      else match Deref(sh, fd.pConn)
        case None => Effect(sh, l, Undefined)
        case Some(c) =>
          if c.connState == CClose then Effect(sh, l.WithFd(i, fd.(state := SClose)), Fail(-1, ENOTCONN))
          else DoSendPieces(r, sh, l, num, iov, before, 0, 0)
  }

  /** One pass of recv: an empty result of recvConnection means "no data", whatever is behind it. */
  function DoRecv(r: Role, sh: Shared, l: Local, num: int, len: nat, dontwait: bool): Effect {
    match FindFd(l.fds, num)
    case None => Effect(sh, l, Fail(-1, EBADF))
    case Some(i) =>
      var fd := l.fds[i];
      if fd.state != SOpen then Effect(sh, l, Fail(-1, EBADF))
      else match Deref(sh, fd.pConn)
        case None => Effect(sh, l, Undefined)
        case Some(c) =>
          var got := RecvConnection(c, r, len);
          var sh' := sh.Put(fd.pConn.value, got.conn);
          if got.data != [] then Effect(sh', l, Data(got.data))
          else if c.connState == CClose then Effect(sh', l.WithFd(i, fd.(state := SClose)), Eof)
          else if fd.nonblock || dontwait then Effect(sh', l, Fail(-1, EAGAIN))
          else Effect(sh', l, Blocked)
  }

  function FindPollfd(l: Local, num: int): (r: Option<nat>)
    ensures r.Some? ==> r.value < |l.pollfds| && l.pollfds[r.value].active && l.pollfds[r.value].num == num
  {
    FirstIndex(l.pollfds, (e: EpollFd) => e.active && e.num == num)
  }

  lemma SamePollfds(l: Local, l': Local, epfd: int)
    requires l'.pollfds == l.pollfds
    ensures FindPollfd(l', epfd) == FindPollfd(l, epfd)
  {
  }

  function DoClose(r: Role, sh: Shared, l: Local, num: int): Effect {
    if num < FD_START then Effect(sh, l, Foreign)
    else if num < POLLFD_START then CloseSocket(r, sh, l, num)
    else
      match FindPollfd(l, num)
      case None => Effect(sh, l, Fail(-1, EBADF))
      case Some(k) =>
        var e := l.pollfds[k];
        Effect(sh, l.(pollfds := l.pollfds[k := e.(active := false, lfds := Cleared(e.lfds))]), Ret(0))
  }

  function Cleared(lfds: seq<Listener>): seq<Listener> {
    seq(|lfds|, i requires 0 <= i < |lfds| => lfds[i].(active := false))
  }

  function CloseSocket(r: Role, sh: Shared, l: Local, num: int): Effect {
    match FindFd(l.fds, num)
    case None => Effect(sh, l, Fail(1, EBADF))
    case Some(i) =>
      var fd := l.fds[i];
      var l' := l.WithFd(i, fd.(active := false, state := SClose));
      if fd.pConn.None? then Effect(sh, l', Ret(0))
      else match Deref(sh, fd.pConn)
        case None => Effect(sh, l, Undefined)
        case Some(c) =>
          if !RemovedByClose(c) then Effect(sh.Put(fd.pConn.value, MarkClosed(c, r)), l', Ret(0))
          else if c.iface.None? || c.iface.value >= |sh.ifaces| then Effect(sh, l, Undefined)
          else Effect(RemoveConnection(sh, fd.pConn.value), l', Ret(0))
  }

  /** fcntl with F_SETFL or F_SETFD. */
  function DoSetNonblock(l: Local, num: int, nonblock: bool): (Local, Outcome) {
    match FindFd(l.fds, num)
    case None => (l, Fail(1, EBADF))
    case Some(i) => (l.WithFd(i, l.fds[i].(nonblock := nonblock)), Ret(0))
  }
}
