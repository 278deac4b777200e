/** When accept and connect wait, when they fail instead, and which memory ends the wait. */
module Waits {
  import opened Basics
  import opened Connections
  import opened Descriptors
  import opened Duplex

  // ---------- accept ----------

  /** Through table entry `e` a listener on `addr` and `port` reaches connection `p`, which nobody has accepted. */
  predicate OfferedBy(r: Role, sh: Shared, e: Option<nat>, addr: int, port: int, p: Ptr) {
    && e.Some? && e.value < |sh.ifaces| && (addr == 0 || sh.ifaces[e.value].OwnAddress(r) == addr)
    && p in sh.ifaces[e.value].connectionList && p in sh.conns
    && sh.conns[p].connState == CCreate && sh.conns[p].Own(r).port == port
  }

  ghost predicate AnyOffered(r: Role, sh: Shared, interfaces: seq<Option<nat>>, addr: int, port: int) {
    exists m, p | 0 <= m < |interfaces| :: OfferedBy(r, sh, interfaces[m], addr, port, p)
  }

  lemma ListOffers(r: Role, sh: Shared, k: nat, port: int)
    requires k < |sh.ifaces|
    ensures SearchOnIface(sh, r, k, port).Some? <==>
            exists p | p in sh.ifaces[k].connectionList :: Pending(sh, r, port, p)
  {
    var list := sh.ifaces[k].connectionList;
    if p :| p in list && Pending(sh, r, port, p) {
      var i :| 0 <= i < |list| && list[i] == p;
      SearchOnIfaceExactly(sh, r, k, port);
    }
  }

  /** The search of accept finds something exactly when something is offered. */
  lemma FoundIfOffered(r: Role, sh: Shared, interfaces: seq<Option<nat>>, addr: int, port: int)
    ensures AcceptOnAnyIface(sh, r, interfaces, addr, port).Some? <==> AnyOffered(r, sh, interfaces, addr, port)
  {
    hide SearchOnIface;
    if m, p :| 0 <= m < |interfaces| && OfferedBy(r, sh, interfaces[m], addr, port, p) {
      ListOffers(r, sh, interfaces[m].value, port);
      assert Pending(sh, r, port, p);
      assert Offers(sh, r, interfaces[m], addr, port, addr == 0);
    }
    if AcceptOnAnyIface(sh, r, interfaces, addr, port).Some? {
      PickExactly(sh, r, interfaces, addr, port, addr == 0);
      var m :| 0 <= m < |interfaces| && Offers(sh, r, interfaces[m], addr, port, addr == 0);
      ListOffers(r, sh, interfaces[m].value, port);
      var p :| p in sh.ifaces[interfaces[m].value].connectionList && Pending(sh, r, port, p);
      assert OfferedBy(r, sh, interfaces[m], addr, port, p);
    }
  }

  predicate IsListening(l: Local, num: int) {
    FindFd(l.fds, num).Some? && l.fds[FindFd(l.fds, num).value].state == SListen
  }

  /** A connection is on offer to the listener `num` in memory `sh`. */
  ghost predicate OfferTo(r: Role, sh: Shared, l: Local, num: int) {
    IsListening(l, num) &&
    var fd := l.fds[FindFd(l.fds, num).value];
    AnyOffered(r, sh, l.interfaces, fd.listenAddress, fd.listenPort)
  }

  predicate NonblockOf(l: Local, num: int) {
    FindFd(l.fds, num).Some? && l.fds[FindFd(l.fds, num).value].nonblock
  }

  /**
   Each outcome of one pass of accept4, exactly: it finds nothing if and only if nothing is on offer, and
   then fails with EAGAIN or waits as the descriptor's flag says, without a change.
   */
  lemma AcceptExactly(r: Role, sh: Shared, l: Local, num: int, nonblock: bool, named: bool)
    ensures var e := DoAccept(r, sh, l, num, nonblock, named);
            && (e.out == Fail(-1, EBADF) <==> !IsListening(l, num))
            && (e.out == Fail(-1, EAGAIN) <==> IsListening(l, num) && NonblockOf(l, num) && !OfferTo(r, sh, l, num))
            && (e.out == Blocked <==> IsListening(l, num) && !NonblockOf(l, num) && !OfferTo(r, sh, l, num))
            && (e.out.Accepted? <==> OfferTo(r, sh, l, num) && EmptyFd(l.fds).Some? && named)
            && (!e.out.Accepted? ==> e.shared == sh && e.local == l)
  {
    hide PickOnTable, GetPeerName;
    if IsListening(l, num) {
      var fd := l.fds[FindFd(l.fds, num).value];
      FoundIfOffered(r, sh, l.interfaces, fd.listenAddress, fd.listenPort);
    }
  }

  /** The memories a waiting call sees: the one it starts in, and the one after each sleep. */
  function Memories(sh: Shared, schedule: seq<Shared>): seq<Shared> {
    [sh] + schedule
  }

  /**
   A blocking accept sleeps until a connection is on offer: it never fails with EAGAIN, it waits to the end
   of a schedule without one, and otherwise ends with the first memory that has one.
   */
  lemma {:induction false} AcceptWaits(r: Role, sh: Shared, l: Local, num: int, nonblock: bool, named: bool,
                                       schedule: seq<Shared>, m: nat)
    requires IsListening(l, num) && !NonblockOf(l, num) && m <= |schedule|
    requires forall k | 0 <= k < m :: !OfferTo(r, Memories(sh, schedule)[k], l, num)
    ensures var seen := Memories(sh, schedule);
            var e := Repeat(r, sh, l, Call.Accept(num, nonblock, named), schedule);
            && e.out != Fail(-1, EAGAIN)
            && (OfferTo(r, seen[m], l, num) ==> e == DoAccept(r, seen[m], l, num, nonblock, named) && e.out != Blocked)
            && (m == |schedule| && !OfferTo(r, seen[m], l, num) ==> e == Effect(seen[m], l, Blocked))
    decreases |schedule|
  {
    hide DoAccept, OfferTo, NonblockOf, IsListening, Apply, Repeat;
    var seen := Memories(sh, schedule);
    assert seen[0] == sh;
    AcceptExactly(r, sh, l, num, nonblock, named);
    AcceptTurns(r, sh, l, num, nonblock, named, schedule);
    if !OfferTo(r, sh, l, num) && schedule != [] {
      var rest := Memories(schedule[0], schedule[1..]);
      assert rest == seen[1..];
      assert forall k | 0 <= k <= |schedule| - 1 :: rest[k] == seen[k + 1];
      AcceptWaits(r, schedule[0], l, num, nonblock, named, schedule[1..], if m == 0 then 0 else m - 1);
    }
  }

  /** One turn of the waiting loop. */
  lemma AcceptTurns(r: Role, sh: Shared, l: Local, num: int, nonblock: bool, named: bool, schedule: seq<Shared>)
    ensures var e := DoAccept(r, sh, l, num, nonblock, named);
            var call := Call.Accept(num, nonblock, named);
            Repeat(r, sh, l, call, schedule) ==
            if e.out != Blocked || schedule == [] then e else Repeat(r, schedule[0], e.local, call, schedule[1..])
  {
    hide DoAccept;
  }

  // ---------- connect ----------

  /** Descriptor `num` is connecting over record `p`. */
  predicate ConnectingOver(l: Local, num: int, p: Ptr) {
    FindFd(l.fds, num).Some? &&
    var fd := l.fds[FindFd(l.fds, num).value];
    fd.state == SConnecting && fd.pConn == Some(p)
  }

  /** What the typing of descriptors says of the record. */
  predicate StillThere(sh: Shared, p: Ptr) {
    p in sh.conns && sh.conns[p].connState != CListen
  }

  predicate StillPending(sh: Shared, p: Ptr) {
    p in sh.conns && sh.conns[p].connState == CCreate
  }

  predicate IsAccepted(sh: Shared, p: Ptr) {
    p in sh.conns && sh.conns[p].connState == COpen
  }

  /**
   Each outcome of one pass of connectEx on a connecting descriptor, exactly: it depends on the state of the
   record, and while nobody has accepted on the descriptor's flag. Only success changes something: the
   descriptor is open.
   */
  lemma ConnectExactly(r: Role, sh: Shared, l: Local, num: int, addr: int, port: int, block: Ptr, p: Ptr)
    requires ConnectingOver(l, num, p) && StillThere(sh, p)
    ensures var e := DoConnectEx(r, sh, l, num, addr, port, block);
            var i := FindFd(l.fds, num).value;
            var state := sh.conns[p].connState;
            && (e.out == Ret(0) <==> state == COpen)
            && (e.out == Fail(-1, ECONNREFUSED) <==> state == CClose)
            && (e.out == Fail(-1, EINPROGRESS) <==> state == CCreate && NonblockOf(l, num))
            && (e.out == Blocked <==> state == CCreate && !NonblockOf(l, num))
            && e.shared == sh && |e.local.fds| == |l.fds|
            && (e.local.fds[i].state == SOpen <==> state == COpen)
            && (state != COpen ==> e.local == l)
            && (forall j | 0 <= j < |l.fds| && j != i :: e.local.fds[j] == l.fds[j])
  {
    hide InterfaceBySockaddr;
  }

  /** A first pass publishes a record that nobody has accepted, and so never succeeds at once. */
  lemma FirstPassExactly(r: Role, sh: Shared, l: Local, num: int, addr: int, port: int, block: Ptr)
    requires StartsConnect(r, sh, l, num, addr)
    ensures var e := DoConnectEx(r, sh, l, num, addr, port, block);
            && e.out == (if NonblockOf(l, num) then Fail(-1, EINPROGRESS) else Blocked)
            && ConnectingOver(e.local, num, block) && NonblockOf(e.local, num) == NonblockOf(l, num)
            && block in e.shared.conns && e.shared.conns[block].connState == CCreate
  {
    hide InterfaceBySockaddr;
    var e := DoConnectEx(r, sh, l, num, addr, port, block);
    SameNumbersFound(l.fds, e.local.fds, num);
  }

  /** When connectEx starts nothing: the descriptor is unknown or not fresh, or no interface has the address. */
  lemma ConnectFailsExactly(r: Role, sh: Shared, l: Local, num: int, addr: int, port: int, block: Ptr)
    requires FindFd(l.fds, num).Some? ==> l.fds[FindFd(l.fds, num).value].state != SConnecting
    ensures var e := DoConnectEx(r, sh, l, num, addr, port, block);
            var created := FindFd(l.fds, num).Some? && l.fds[FindFd(l.fds, num).value].state == SCreated;
            && (e.out == Fail(-1, EBADF) <==> !created)
            && (e.out == Fail(-1, ENETUNREACH) <==>
                created && forall m | 0 <= m < |l.interfaces| :: !LeadsTo(r, sh, l.interfaces[m], addr))
            && (!StartsConnect(r, sh, l, num, addr) ==> e.shared == sh && e.local == l)
  {
    InterfaceExactly(r, sh, l, addr);
    hide InterfaceBySockaddr;
  }

  /**
   A blocking connect sleeps until the peer has accepted or closed: it never answers EINPROGRESS, it waits
   to the end of a schedule in which the record is still pending, and otherwise ends with the first memory
   in which it is not.
   */
  lemma {:induction false} ConnectWaits(r: Role, sh: Shared, l: Local, num: int, addr: int, port: int, block: Ptr,
                                        p: Ptr, schedule: seq<Shared>, m: nat)
    requires ConnectingOver(l, num, p) && !NonblockOf(l, num) && m <= |schedule|
    requires forall k | 0 <= k <= |schedule| :: StillThere(Memories(sh, schedule)[k], p)
    requires forall k | 0 <= k < m :: StillPending(Memories(sh, schedule)[k], p)
    ensures var seen := Memories(sh, schedule);
            var e := Repeat(r, sh, l, Call.ConnectEx(num, addr, port, block), schedule);
            && e.out != Fail(-1, EINPROGRESS)
            && (!StillPending(seen[m], p) ==>
                e == DoConnectEx(r, seen[m], l, num, addr, port, block) && e.out != Blocked)
            && (m == |schedule| && StillPending(seen[m], p) ==> e == Effect(seen[m], l, Blocked))
    decreases |schedule|
  {
    hide DoConnectEx, NonblockOf, ConnectingOver;
    var seen := Memories(sh, schedule);
    assert seen[0] == sh;
    ConnectExactly(r, sh, l, num, addr, port, block, p);
    var call := Call.ConnectEx(num, addr, port, block);
    assert Apply(r, sh, l, call) == DoConnectEx(r, sh, l, num, addr, port, block);
    if StillPending(sh, p) && schedule != [] {
      var rest := Memories(schedule[0], schedule[1..]);
      assert rest == seen[1..];
      assert forall k | 0 <= k <= |schedule| - 1 :: rest[k] == seen[k + 1];
      ConnectWaits(r, schedule[0], l, num, addr, port, block, p, schedule[1..], if m == 0 then 0 else m - 1);
    }
  }

  /** connect refuses a descriptor that is connecting already, and is connectEx on all others. */
  lemma ConnectIsOnce(r: Role, sh: Shared, l: Local, num: int, addr: int, port: int, block: Ptr)
    ensures var e := DoConnect(r, sh, l, num, addr, port, block);
            var connecting := FindFd(l.fds, num).Some? && l.fds[FindFd(l.fds, num).value].state == SConnecting;
            && (e.out == Fail(-1, EALREADY) <==> connecting)
            && (connecting ==> e.shared == sh && e.local == l)
            && (!connecting ==> e == DoConnectEx(r, sh, l, num, addr, port, block))
  {
    hide InterfaceBySockaddr, Publish;
  }

  /**
   A blocking connect on a fresh socket, from its start: it publishes its record and sleeps; it never answers
   EINPROGRESS, waits to the end of a schedule in which the record is pending throughout, and otherwise ends
   with the first memory in which it is not: with 0 if the peer has accepted, with ECONNREFUSED if it has
   closed.
   */
  lemma BlockingConnect(r: Role, sh: Shared, l: Local, num: int, addr: int, port: int, block: Ptr,
                        schedule: seq<Shared>, m: nat)
    requires StartsConnect(r, sh, l, num, addr) && !NonblockOf(l, num)
    requires forall k | 0 <= k < |schedule| :: StillThere(schedule[k], block)
    requires m <= |schedule| && forall k | 0 <= k < m :: StillPending(schedule[k], block)
    ensures var e := ConnectCall(r, sh, l, num, addr, port, block, schedule);
            && e.out != Fail(-1, EINPROGRESS) && (m == |schedule| ==> e.out == Blocked)
            && (m < |schedule| && !StillPending(schedule[m], block) ==>
                e.shared == schedule[m] &&
                e.out == if IsAccepted(schedule[m], block) then Ret(0) else Fail(-1, ECONNREFUSED))
  {
    hide DoConnectEx, NonblockOf, ConnectingOver, StartsConnect, Repeat;
    ConnectIsOnce(r, sh, l, num, addr, port, block);
    StartsFresh(r, sh, l, num, addr);
    FirstPassExactly(r, sh, l, num, addr, port, block);
    var e := DoConnect(r, sh, l, num, addr, port, block);
    if schedule != [] {
      var seen := Memories(schedule[0], schedule[1..]);
      assert seen == schedule;
      var n := if m == |schedule| then m - 1 else m;
      ConnectWaits(r, schedule[0], e.local, num, addr, port, block, block, schedule[1..], n);
      if !StillPending(schedule[n], block) {
        ConnectExactly(r, schedule[n], e.local, num, addr, port, block, block);
      }
    }
  }

  lemma StartsFresh(r: Role, sh: Shared, l: Local, num: int, addr: int)
    requires StartsConnect(r, sh, l, num, addr)
    ensures FindFd(l.fds, num).Some? && l.fds[FindFd(l.fds, num).value].state == SCreated
  {
  }
}
