/** socket.c and event.c in place: one process, its descriptor table and its epoll tables. */
module Sockets {
  import opened Basics
  import opened Connections
  import opened Descriptors
  import opened Duplex
  import opened Waits
  import opened SharedRegion

  class Process {
    const role: Role
    const mem: SharedMemory
    const interfaces: array<Option<nat>>
    const fds: array<Fd>
    const pollfds: array<EpollFd>
    var currentMaxFd: int
    var randomPort: int
    var randomPollFd: int
    var pollEpfd: int

    function View(): Local
      reads this, interfaces, fds, pollfds
    {
      Local(interfaces[..], fds[..], currentMaxFd, randomPort, pollfds[..], randomPollFd, pollEpfd)
    }

    function Memory(): Shared
      reads mem
    {
      mem.View()
    }

    /** The interface table is wired, and so are the lists of the shared region. */
    ghost predicate Valid()
      reads this, mem, interfaces
    {
      mem.Valid() && TableInRange(mem.View(), interfaces[..])
    }

    /** What the peer may leave in memory while this process sleeps. */
    ghost predicate WiredSchedule(schedule: seq<Shared>)
      reads this, interfaces
    {
      forall x | x in schedule :: ListsPoint(x) && TableInRange(x, interfaces[..])
    }

    constructor (role: Role, mem: SharedMemory, interfaces: array<Option<nat>>)
      ensures this.role == role && this.mem == mem && this.interfaces == interfaces && fresh(fds) && fresh(pollfds)
      ensures View() == Local(interfaces[..], seq(MAX_FDS, _ => Fd(false, 0, SCreated, 0, 0, false, None)), FD_START,
                              FIRST_RANDOM_PORT,
                              seq(MAX_POLLFDS, _ => EpollFd(false, 0,
                                                            seq(MAX_FDS_LISTEN, _ => Listener(false, false, 0, 0, 0)))),
                              POLLFD_START, -1)
    {
      this.role, this.mem, this.interfaces := role, mem, interfaces;
      fds := new Fd[MAX_FDS](_ => Fd(false, 0, SCreated, 0, 0, false, None));
      var table := seq(MAX_FDS_LISTEN, _ => Listener(false, false, 0, 0, 0));
      pollfds := new EpollFd[MAX_POLLFDS](_ => EpollFd(false, 0, table));
      currentMaxFd, randomPort, randomPollFd, pollEpfd := FD_START, FIRST_RANDOM_PORT, POLLFD_START, -1;
    }

    // ---------- tables ----------

    method GetFdByNum(num: int) returns (slot: Option<nat>)
      ensures slot == FindFd(fds[..], num)
    {
      var i := 0;
      while i < fds.Length
        invariant 0 <= i <= fds.Length
        invariant forall k | 0 <= k < i :: !(fds[..][k].active && fds[..][k].num == num)
      {
        if fds[i].active && fds[i].num == num {
          return Some(i);
        }
        i := i + 1;
      }
      return None;
    }

    /** Finds a free slot and takes it. */
    method GetEmptyFd() returns (slot: Option<nat>)
      modifies fds
      ensures slot == EmptyFd(old(fds[..]))
      ensures fds[..] == if slot.Some? then old(fds[..])[slot.value := old(fds[..])[slot.value].(active := true)]
                else old(fds[..])
    {
      var i := 0;
      while i < fds.Length
        invariant 0 <= i <= fds.Length
        invariant fds[..] == old(fds[..])
        invariant forall k | 0 <= k < i :: fds[..][k].active
      {
        if !fds[i].active {
          fds[i] := fds[i].(active := true);
          assert EmptyFd(old(fds[..])) == Some(i);
          return Some(i);
        }
        i := i + 1;
      }
      return None;
    }

    method GetPollfdByNum(num: int) returns (k: Option<nat>)
      ensures k == FindPollfd(View(), num)
    {
      var i := 0;
      while i < pollfds.Length
        invariant 0 <= i <= pollfds.Length
        invariant forall j | 0 <= j < i :: !(pollfds[..][j].active && pollfds[..][j].num == num)
      {
        if pollfds[i].active && pollfds[i].num == num {
          return Some(i);
        }
        i := i + 1;
      }
      return None;
    }

    method GetInterfaceBySockaddr(addr: int) returns (k: Option<nat>)
      requires Valid()
      ensures k == InterfaceBySockaddr(role, Memory(), View(), addr)
    {
      var i := 0;
      while i < interfaces.Length
        invariant 0 <= i <= interfaces.Length
        invariant forall j | 0 <= j < i :: !LeadsTo(role, Memory(), interfaces[..][j], addr)
      {
        var e := interfaces[i];
        if e.Some? && mem.ifaces[e.value].RemoteAddress(role) == addr {
          return e;
        }
        i := i + 1;
      }
      return None;
    }

    // ---------- socket calls ----------

    method Socket(inet: bool, stream: bool, nonblock: bool) returns (out: Outcome)
      modifies this`currentMaxFd, fds
      ensures (View(), out) == DoSocket(old(View()), inet, stream, nonblock)
    {
      if !inet {
        return Fail(-1, EAFNOSUPPORT);
      }
      if !stream {
        return Fail(-1, EPROTONOSUPPORT);
      }
      if currentMaxFd >= POLLFD_START {
        return Fail(-1, ENFILE);
      }
      var slot := GetEmptyFd();
      if slot.None? {
        return Fail(-1, ENOMEM);
      }
      var i := slot.value;
      fds[i] := fds[i].(num := currentMaxFd, state := SCreated, pConn := None, nonblock := nonblock);
      currentMaxFd := currentMaxFd + 1;
      out := Ret(currentMaxFd - 1);
      assert fds[..] == DoSocket(old(View()), inet, stream, nonblock).0.fds;
    }

    method Bind(num: int, addr: int, port: int) returns (out: Outcome)
      modifies fds
      ensures (View(), out) == DoBind(old(View()), num, addr, port)
    {
      var slot := GetFdByNum(num);
      if slot.None? || fds[slot.value].state != SCreated {
        return Fail(-1, EBADF);
      }
      var i := slot.value;
      fds[i] := fds[i].(listenPort := port);
      fds[i] := fds[i].(listenAddress := addr);
      fds[i] := fds[i].(state := SBound);
      out := Ret(0);
      assert fds[..] == DoBind(old(View()), num, addr, port).0.fds;
    }

    method Listen(num: int, block: Ptr) returns (out: Outcome)
      requires StartsListen(View(), num) ==> block !in mem.conns
      modifies fds, mem`conns
      ensures Effect(Memory(), View(), out) == DoListen(old(Memory()), old(View()), num, block)
    {
      var slot := GetFdByNum(num);
      if slot.None? || fds[slot.value].state != SBound {
        return Fail(-1, EBADF);
      }
      var i := slot.value;
      mem.conns := mem.conns[block := NewListenerConnection()];
      fds[i] := fds[i].(pConn := Some(block));
      fds[i] := fds[i].(state := SListen);
      out := Ret(0);
      assert fds[..] == DoListen(old(Memory()), old(View()), num, block).local.fds;
    }

    method SockName(num: int) returns (name: Name)
      requires GetSockName(role, Memory(), View(), num) != NameUndefined
      ensures name == GetSockName(role, Memory(), View(), num)
    {
      var slot := GetFdByNum(num);
      if slot.None? {
        return NoName(1, EBADF);
      }
      var fd := fds[slot.value];
      if fd.state == SListen {
        return Name(fd.listenAddress, fd.listenPort);
      }
      if fd.pConn.None? || mem.conns[fd.pConn.value].connState != COpen {
        return NoName(-1, ENOTCONN);
      }
      var c := mem.conns[fd.pConn.value];
      return Name(mem.ifaces[c.iface.value].OwnAddress(role), c.Own(role).port);
    }

    method PeerName(num: int) returns (name: Name)
      requires GetPeerName(role, Memory(), View(), num) != NameUndefined
      ensures name == GetPeerName(role, Memory(), View(), num)
    {
      var slot := GetFdByNum(num);
      if slot.None? {
        return NoName(1, EBADF);
      }
      var fd := fds[slot.value];
      if fd.pConn.None? || mem.conns[fd.pConn.value].connState != COpen {
        return NoName(-1, ENOTCONN);
      }
      var c := mem.conns[fd.pConn.value];
      return Name(mem.ifaces[c.iface.value].RemoteAddress(role), c.Own(Other(role)).port);
    }

    method Send(num: int, data: seq<Byte>) returns (out: Outcome)
      requires DoSend(role, Memory(), View(), num, data).out != Undefined
      modifies fds, mem`conns
      ensures Effect(Memory(), View(), out) == DoSend(role, old(Memory()), old(View()), num, data)
    {
      var slot := GetFdByNum(num);
      if slot.None? || fds[slot.value].state != SOpen {
        return Fail(-1, EBADF);
      }
      var i := slot.value;
      var p := fds[i].pConn.value;
      if mem.conns[p].connState == CClose {
        fds[i] := fds[i].(state := SClose);
        out := Fail(-1, ENOTCONN);
      } else {
        var sent := mem.SendOn(role, p, data);
        out := Ret(sent);
      }
      assert fds[..] == DoSend(role, old(Memory()), old(View()), num, data).local.fds;
    }

    /** sendmsg: one send per piece; the peer may write `before[i]` just before piece `i`. */
    method SendMsg(num: int, iov: seq<seq<Byte>>, before: seq<Shared>) returns (out: Outcome)
      requires |before| == |iov|
      requires DoSendMsg(role, Memory(), View(), num, iov, before).out != Undefined
      modifies fds, mem
      ensures Effect(Memory(), View(), out) == DoSendMsg(role, old(Memory()), old(View()), num, iov, before)
    {
      hide DoSend;
      var slot := GetFdByNum(num);
      if slot.None? || fds[slot.value].state != SOpen {
        return Fail(-1, EBADF);
      }
      var j := slot.value;
      if mem.conns[fds[j].pConn.value].connState == CClose {
        fds[j] := fds[j].(state := SClose);
        assert fds[..] == old(fds[..])[j := fds[j]];
        return Fail(-1, ENOTCONN);
      }
      var bytesSent := 0;
      var i := 0;
      while i < |iov|
        invariant 0 <= i <= |iov|
        invariant DoSendPieces(role, Memory(), View(), num, iov, before, i, bytesSent) ==
                  DoSendMsg(role, old(Memory()), old(View()), num, iov, before)
      {
        mem.Sleep(before[i]);
        SendOutcome(role, Memory(), View(), num, iov[i]);
        out := Send(num, iov[i]);
        if out.Fail? {
          return;
        }
        bytesSent := bytesSent + out.value;
        i := i + 1;
      }
      return Ret(bytesSent);
    }

    /** recv waits in passes; `schedule[k]` is what memory holds after the k-th sleep. */
    method Recv(num: int, len: nat, dontwait: bool, schedule: seq<Shared>) returns (out: Outcome, sleeps: nat)
      requires Repeat(role, Memory(), View(), Call.Recv(num, len, dontwait), schedule).out != Undefined
      modifies fds, mem
      ensures Effect(Memory(), View(), out) ==
                Repeat(role, old(Memory()), old(View()), Call.Recv(num, len, dontwait), schedule)
      ensures sleeps <= |schedule|
    {
      ghost var call := Call.Recv(num, len, dontwait);
      sleeps := 0;
      var slot := GetFdByNum(num);
      if slot.None? || fds[slot.value].state != SOpen {
        return Fail(-1, EBADF), 0;
      }
      var i := slot.value;
      hide DoRecv;
      while true
        invariant 0 <= sleeps <= |schedule| && View() == old(View())
        invariant Repeat(role, Memory(), View(), call, schedule[sleeps..]) ==
                    Repeat(role, old(Memory()), old(View()), call, schedule)
        decreases |schedule| - sleeps
      {
        out := RecvOnce(i, num, len, dontwait);
        if out != Blocked || sleeps == |schedule| {
          return;
        }
        assert schedule[sleeps..][0] == schedule[sleeps] && schedule[sleeps..][1..] == schedule[sleeps + 1..];
        mem.Sleep(schedule[sleeps]);
        sleeps := sleeps + 1;
      }
    }

    /** One pass of recv, for the open descriptor in slot `i`. */
    method RecvOnce(i: nat, num: int, len: nat, dontwait: bool) returns (out: Outcome)
      requires FindFd(fds[..], num) == Some(i) && fds[i].state == SOpen
      requires DoRecv(role, Memory(), View(), num, len, dontwait).out != Undefined
      modifies fds, mem
      ensures Effect(Memory(), View(), out) == DoRecv(role, old(Memory()), old(View()), num, len, dontwait)
      ensures out == Blocked ==> View() == old(View())
    {
      hide RecvConnection;
      ghost var e := DoRecv(role, Memory(), View(), num, len, dontwait);
      var p := fds[i].pConn.value;
      var closed := mem.conns[p].connState == CClose;
      var data := mem.RecvOn(role, p, len);
      if data != [] {
        out := Data(data);
      } else if closed {
        fds[i] := fds[i].(state := SClose);
        assert fds[..] == e.local.fds;
        out := Eof;
      } else if fds[i].nonblock || dontwait {
        out := Fail(-1, EAGAIN);
      } else {
        out := Blocked;
      }
    }

    /** accept4; a successful call also reports the peer's name. */
    method Accept4(num: int, nonblock: bool, named: bool, schedule: seq<Shared>) returns (out: Outcome, sleeps: nat)
      requires Valid() && WiredSchedule(schedule)
      requires forall i | 0 <= i < fds.Length && fds[i].active :: fds[i].num < currentMaxFd
      requires Repeat(role, Memory(), View(), Call.Accept(num, nonblock, named), schedule).out != Undefined
      modifies fds, mem, this`currentMaxFd
      ensures Effect(Memory(), View(), out) ==
                Repeat(role, old(Memory()), old(View()), Call.Accept(num, nonblock, named), schedule)
      ensures sleeps <= |schedule|
    {
      hide DoAccept;
      ghost var call := Call.Accept(num, nonblock, named);
      sleeps := 0;
      while true
        invariant 0 <= sleeps <= |schedule| && View() == old(View()) && Valid()
        invariant Repeat(role, Memory(), View(), call, schedule[sleeps..]) ==
                    Repeat(role, old(Memory()), old(View()), call, schedule)
        decreases |schedule| - sleeps
      {
        out := AcceptOnce(num, nonblock, named);
        if out != Blocked || sleeps == |schedule| {
          return;
        }
        assert schedule[sleeps..][0] == schedule[sleeps] && schedule[sleeps..][1..] == schedule[sleeps + 1..];
        mem.Sleep(schedule[sleeps]);
        sleeps := sleeps + 1;
      }
    }

    /** One pass of accept4. */
    method AcceptOnce(num: int, nonblock: bool, named: bool) returns (out: Outcome)
      requires Valid() && DoAccept(role, Memory(), View(), num, nonblock, named).out != Undefined
      requires forall i | 0 <= i < fds.Length && fds[i].active :: fds[i].num < currentMaxFd
      modifies fds, mem, this`currentMaxFd
      ensures Effect(Memory(), View(), out) == DoAccept(role, old(Memory()), old(View()), num, nonblock, named)
      ensures out == Blocked ==> View() == old(View())
    {
      hide PickOnTable, GetPeerName;
      var slot := GetFdByNum(num);
      if slot.None? || fds[slot.value].state != SListen {
        return Fail(-1, EBADF);
      }
      var i := slot.value;
      ghost var e := DoAccept(role, Memory(), View(), num, nonblock, named);
      var p := mem.AcceptNewConnectionOnAnyIface(role, interfaces, fds[i].listenAddress, fds[i].listenPort);
      if p.Some? {
        TakeSlot(p.value, nonblock);
        assert View() == e.local && Memory() == e.shared;
        AcceptedIsNamed(role, old(Memory()), old(View()), num, nonblock, named);
        assert named;
        var name := PeerName(currentMaxFd - 1);
        out := Accepted(currentMaxFd - 1, name);
      } else if fds[i].nonblock {
        return Fail(-1, EAGAIN);
      } else if fds[i].state == SClose {
        return Fail(-1, EBADF);
      } else {
        return Blocked;
      }
    }

    /** The end of accept4: a free slot gets the next number and the accepted connection. */
    method TakeSlot(p: Ptr, nonblock: bool)
      requires EmptyFd(fds[..]).Some?
      modifies fds, this`currentMaxFd
      ensures var l := old(View()); var i := EmptyFd(l.fds).value;
              View() == l.WithFd(i, l.fds[i].(active := true, num := l.currentMaxFd, state := SOpen, pConn := Some(p),
                                              nonblock := nonblock))
                         .(currentMaxFd := l.currentMaxFd + 1)
    {
      var free := GetEmptyFd();
      var j := free.value;
      fds[j] := fds[j].(num := currentMaxFd, state := SOpen, pConn := Some(p), nonblock := nonblock);
      currentMaxFd := currentMaxFd + 1;
      assert fds[..] == old(fds[..])[j := fds[j]];
    }

    /** The first half of connectEx: allocate, publish, and point the descriptor at the new record. */
    method StartConnect(i: nat, k: nat, port: int, block: Ptr)
      requires i < fds.Length && k < |mem.ifaces| && block !in mem.conns
      modifies fds, mem, this`randomPort
      ensures Memory() == Publish(old(Memory()), block, NewConnection(role, k, old(randomPort), port))
      ensures View() == old(View()).WithFd(i,
                                           old(fds[i]).(pConn := Some(block),
                                                        state := SConnecting)).(randomPort := old(randomPort) + 1)
    {
      mem.CreateNewConnection(role, k, randomPort, port, block);
      randomPort := randomPort + 1;
      fds[i] := fds[i].(pConn := Some(block));
      mem.InitiateNewConnection(block);
      fds[i] := fds[i].(state := SConnecting);
      assert fds[..] == old(fds[..])[i := fds[i]];
    }

    /** connectEx, with the wait for acceptance; `block` is the address malloc returns. */
    method ConnectEx(num: int, addr: int, port: int, block: Ptr, schedule: seq<Shared>)
      returns (out: Outcome, sleeps: nat)
      requires Valid() && (StartsConnect(role, Memory(), View(), num, addr) ==> block !in mem.conns)
      requires Repeat(role, Memory(), View(), Call.ConnectEx(num, addr, port, block), schedule).out != Undefined
      modifies fds, mem, this`randomPort
      ensures Effect(Memory(), View(), out) ==
                Repeat(role, old(Memory()), old(View()), Call.ConnectEx(num, addr, port, block), schedule)
      ensures sleeps <= |schedule|
    {
      hide Publish, InterfaceBySockaddr, ListsPoint, TableInRange, DoConnectEx, Repeat;
      ghost var call := Call.ConnectEx(num, addr, port, block);
      sleeps := 0;
      RefusedRepeat(role, Memory(), View(), num, addr, port, block, schedule);
      var slot := GetFdByNum(num);
      if slot.None? || (fds[slot.value].state != SCreated && fds[slot.value].state != SConnecting) {
        return Fail(-1, EBADF), 0;
      }
      var i := slot.value;
      if fds[i].state != SConnecting {
        var k := GetInterfaceBySockaddr(addr);
        if k.None? {
          return Fail(-1, ENETUNREACH), 0;
        }
        ghost var before := View();
        StartConnect(i, k.value, port, block);
        StartedRepeat(role, old(Memory()), before, num, addr, port, block, schedule);
      }
      out, sleeps := AwaitAccept(i, schedule, call);
    }

    /** connect: connectEx, except that a second connect on a connecting socket fails. */
    method Connect(num: int, addr: int, port: int, block: Ptr, schedule: seq<Shared>)
      returns (out: Outcome, sleeps: nat)
      requires Valid() && (StartsConnect(role, Memory(), View(), num, addr) ==> block !in mem.conns)
      requires ConnectCall(role, Memory(), View(), num, addr, port, block, schedule).out != Undefined
      modifies fds, mem, this`randomPort
      ensures Effect(Memory(), View(), out) ==
                ConnectCall(role, old(Memory()), old(View()), num, addr, port, block, schedule)
      ensures sleeps <= |schedule|
    {
      hide DoConnectEx, ConnectCall, Repeat, StartsConnect;
      ConnectContinues(role, Memory(), View(), num, addr, port, block, schedule);
      var slot := GetFdByNum(num);
      if slot.Some? && fds[slot.value].state == SConnecting {
        return Fail(-1, EALREADY), 0;
      }
      out, sleeps := ConnectEx(num, addr, port, block, schedule);
    }

    /** fcntl with F_SETFL or F_SETFD. */
    method SetNonblock(num: int, nonblock: bool) returns (out: Outcome)
      modifies fds
      ensures (View(), out) == DoSetNonblock(old(View()), num, nonblock)
    {
      var slot := GetFdByNum(num);
      if slot.None? {
        return Fail(1, EBADF);
      }
      fds[slot.value] := fds[slot.value].(nonblock := nonblock);
      out := Ret(0);
      assert fds[..] == old(fds[..])[slot.value := fds[slot.value]];
    }

    /** wait_for_accept, for the connecting descriptor in slot `i`. */
    method AwaitAccept(i: nat, schedule: seq<Shared>, ghost call: Call) returns (out: Outcome, sleeps: nat)
      requires call.ConnectEx? && i < fds.Length && fds[i].state == SConnecting && FindFd(fds[..], call.num) == Some(i)
      requires Repeat(role, Memory(), View(), call, schedule).out != Undefined
      modifies fds, mem
      ensures Effect(Memory(), View(), out) == Repeat(role, old(Memory()), old(View()), call, schedule)
      ensures sleeps <= |schedule|
    {
      sleeps := 0;
      while true
        invariant 0 <= sleeps <= |schedule| && View() == old(View())
        invariant Repeat(role, Memory(), View(), call, schedule[sleeps..]) ==
                    Repeat(role, old(Memory()), old(View()), call, schedule)
        decreases |schedule| - sleeps
      {
        ghost var e := Apply(role, Memory(), View(), call);
        var p := fds[i].pConn.value;
        if mem.conns[p].connState == COpen {
          fds[i] := fds[i].(state := SOpen);
          assert fds[..] == e.local.fds;
          return Ret(0), sleeps;
        } else if mem.conns[p].connState == CClose {
          return Fail(-1, ECONNREFUSED), sleeps;
        } else if fds[i].nonblock {
          return Fail(-1, EINPROGRESS), sleeps;
        } else if sleeps == |schedule| {
          return Blocked, sleeps;
        }
        assert schedule[sleeps..][0] == schedule[sleeps] && schedule[sleeps..][1..] == schedule[sleeps + 1..];
        mem.Sleep(schedule[sleeps]);
        sleeps := sleeps + 1;
      }
    }

    /** close: the number decides between foreign descriptors, sockets and epoll tables. */
    method Close(num: int) returns (out: Outcome)
      requires DoClose(role, Memory(), View(), num).out != Undefined
      modifies fds, pollfds, mem
      ensures Effect(Memory(), View(), out) == DoClose(role, old(Memory()), old(View()), num)
    {
      if num < FD_START {
        return Foreign;
      } else if num < POLLFD_START {
        out := HandleSockfdClose(num);
      } else {
        out := HandleEpfdClose(num);
      }
    }

    method HandleSockfdClose(num: int) returns (out: Outcome)
      requires CloseSocket(role, Memory(), View(), num).out != Undefined
      modifies fds, mem
      ensures Effect(Memory(), View(), out) == CloseSocket(role, old(Memory()), old(View()), num)
    {
      var slot := GetFdByNum(num);
      if slot.None? {
        return Fail(1, EBADF);
      }
      var i := slot.value;
      if fds[i].pConn.Some? {
        mem.CloseConnection(role, fds[i].pConn.value);
      }
      fds[i] := fds[i].(state := SClose);
      fds[i] := fds[i].(active := false);
      assert fds[..] == CloseSocket(role, old(Memory()), old(View()), num).local.fds;
      out := Ret(0);
    }

    method HandleEpfdClose(num: int) returns (out: Outcome)
      requires num >= POLLFD_START
      modifies pollfds
      ensures Effect(Memory(), View(), out) == DoClose(role, old(Memory()), old(View()), num)
    {
      var found := GetPollfdByNum(num);
      if found.None? {
        return Fail(-1, EBADF);
      }
      var k := found.value;
      pollfds[k] := pollfds[k].(active := false);
      var i := 0;
      ghost var lfds := pollfds[k].lfds;
      while i < |pollfds[k].lfds|
        invariant 0 <= i <= |lfds| && |pollfds[k].lfds| == |lfds|
        invariant pollfds[..] == old(pollfds[..])[k := pollfds[k]]
        invariant pollfds[k] == old(pollfds[k]).(active := false, lfds := pollfds[k].lfds)
        invariant forall j | 0 <= j < |lfds| :: pollfds[k].lfds[j] == if j < i then lfds[j].(active := false)
                    else lfds[j]
      {
        DeleteListener(k, i);
        i := i + 1;
      }
      assert pollfds[k].lfds == Cleared(lfds);
      out := Ret(0);
    }

    method DeleteListener(k: nat, j: nat)
      requires k < pollfds.Length && j < |pollfds[k].lfds|
      modifies pollfds
      ensures pollfds[..] == old(pollfds[..])[k :=
                                              old(pollfds[k]).(lfds := old(pollfds[k]).lfds[j :=
                                                old(pollfds[k]).lfds[j].(active := false)])]
    {
      pollfds[k] := pollfds[k].(lfds := pollfds[k].lfds[j := pollfds[k].lfds[j].(active := false)]);
    }
  }

  lemma SendOutcome(r: Role, sh: Shared, l: Local, num: int, data: seq<Byte>)
    ensures var out := DoSend(r, sh, l, num, data).out; out.Ret? || out.Fail? || out == Undefined
  {
    hide SendConnection;
  }

  /** Every connection accept takes is on an interface, so its peer has a name. */
  lemma AcceptedIsNamed(r: Role, sh: Shared, l: Local, num: int, nonblock: bool, named: bool)
    requires ListsPoint(sh) && forall i | 0 <= i < |l.fds| && l.fds[i].active :: l.fds[i].num < l.currentMaxFd
    ensures var e := DoAccept(r, sh, l, num, nonblock, named);
            e.out.Accepted? ==>
              e.out.peer != NameUndefined && e.out.peer == GetPeerName(r, e.shared, e.local, l.currentMaxFd)
  {
    hide PickOnTable;
    var e := DoAccept(r, sh, l, num, nonblock, named);
    if e.out.Accepted? {
      var i := EmptyFd(l.fds).value;
      FoundFd(e.local.fds, i, l.currentMaxFd);
    }
  }

  /** connect on a descriptor that is not connecting is connectEx. */
  lemma ConnectContinues(r: Role, sh: Shared, l: Local, num: int, addr: int, port: int, block: Ptr,
                         schedule: seq<Shared>)
    ensures var slot := FindFd(l.fds, num);
            ConnectCall(r, sh, l, num, addr, port, block, schedule) ==
            if slot.Some? && l.fds[slot.value].state == SConnecting then Effect(sh, l, Fail(-1, EALREADY))
            else Repeat(r, sh, l, Call.ConnectEx(num, addr, port, block), schedule)
  {
    hide DoConnectEx;
    ConnectIsOnce(r, sh, l, num, addr, port, block);
    var call := Call.ConnectEx(num, addr, port, block);
    var e := Apply(r, sh, l, call);
    assert e == DoConnectEx(r, sh, l, num, addr, port, block);
    assert Repeat(r, sh, l, call, schedule) ==
           if e.out != Blocked || schedule == [] then e else Repeat(r, schedule[0], e.local, call, schedule[1..]);
  }

  /** Starting a connect and then waiting is one pass of connectEx, and so is every later pass. */
  lemma StartedConnect(r: Role, sh: Shared, l: Local, num: int, addr: int, port: int, block: Ptr)
    requires Creates(r, sh, l, Call.ConnectEx(num, addr, port, block))
    ensures var i := FindFd(l.fds, num).value;
            var k := InterfaceBySockaddr(r, sh, l, addr).value;
            var sh' := Publish(sh, block, NewConnection(r, k, l.randomPort, port));
            var l' := l.WithFd(i, l.fds[i].(pConn := Some(block), state := SConnecting)).(randomPort :=
                        l.randomPort + 1);
            FindFd(l'.fds, num) == Some(i) &&
            DoConnectEx(r, sh', l', num, addr, port, block) == DoConnectEx(r, sh, l, num, addr, port, block)
  {
    hide InterfaceBySockaddr, Publish;
    var i := FindFd(l.fds, num).value;
    var l' := l.WithFd(i, l.fds[i].(pConn := Some(block), state := SConnecting)).(randomPort := l.randomPort + 1);
    FirstFound(l.fds, num);
    FoundFd(l'.fds, i, num);
  }

  lemma StartedRepeat(r: Role, sh: Shared, l: Local, num: int, addr: int, port: int, block: Ptr, schedule: seq<Shared>)
    requires Creates(r, sh, l, Call.ConnectEx(num, addr, port, block))
    ensures var i := FindFd(l.fds, num).value;
            var k := InterfaceBySockaddr(r, sh, l, addr).value;
            var sh' := Publish(sh, block, NewConnection(r, k, l.randomPort, port));
            var l' := l.WithFd(i, l.fds[i].(pConn := Some(block), state := SConnecting)).(randomPort :=
                        l.randomPort + 1);
            var call := Call.ConnectEx(num, addr, port, block);
            FindFd(l'.fds, num) == Some(i) && Repeat(r, sh', l', call, schedule) == Repeat(r, sh, l, call, schedule)
  {
    hide InterfaceBySockaddr, Publish, DoConnectEx;
    StartedConnect(r, sh, l, num, addr, port, block);
  }

  /** The calls that end before anything is started. */
  lemma RefusedRepeat(r: Role, sh: Shared, l: Local, num: int, addr: int, port: int, block: Ptr, schedule: seq<Shared>)
    ensures var i := FindFd(l.fds, num);
            var e := Repeat(r, sh, l, Call.ConnectEx(num, addr, port, block), schedule);
            && (i.None? || (l.fds[i.value].state != SCreated && l.fds[i.value].state != SConnecting) ==>
                  e == Effect(sh, l, Fail(-1, EBADF)))
            && (i.Some? && l.fds[i.value].state == SCreated && InterfaceBySockaddr(r, sh, l, addr).None? ==>
                  e == Effect(sh, l, Fail(-1, ENETUNREACH)))
  {
    hide InterfaceBySockaddr, Publish;
  }

  lemma FirstFound(fds: seq<Fd>, num: int)
    requires FindFd(fds, num).Some?
    ensures forall k | 0 <= k < FindFd(fds, num).value :: !(fds[k].active && fds[k].num == num)
  {
  }
}
