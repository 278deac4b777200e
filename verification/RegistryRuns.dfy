/**
 Over whole runs every epoll table of a process is the map that its calls and their results say it is,
 as long as no new descriptor takes a slot that still has a registration; and each time one does, the
 map is wrong about exactly that descriptor.
 */
module RegistryRuns {
  import opened Basics
  import opened Connections
  import opened Descriptors
  import opened Readiness
  import opened Duplex
  import opened Scanning
  import opened Reachability
  import opened Pairing
  import opened Registry

  /** What a process believes it has registered: per epoll descriptor, descriptor number to registration. */
  type Book = map<int, map<int, Registration>>

  function At(m: map<int, Registration>, num: int): Option<Registration> {
    if num in m then Some(m[num]) else None
  }

  /** The belief after a call, from what the call was given and what it returned. */
  function Note(l: Local, b: Book, call: Call, out: Outcome): Book {
    match call
    case EpollCreate => if out.Ret? then b[out.value := map[]] else b
    case PollOpen => if out.Ret? && l.pollEpfd == -1 then b[out.value := map[]] else b
    case EpollCtl(epfd, op, num, events, userData) =>
      if out != Ret(0) || epfd !in b then b
      else if op == CtlDel then b[epfd := b[epfd] - {num}]
      else b[epfd := b[epfd][num := Registration(events, userData, !IsEventSet(events, EPOLLET))]]
    case Close(num) =>
      if out != Ret(0) then b
      else if num >= POLLFD_START then b - {num}
      else map epfd | epfd in b :: b[epfd] - {num}
    case _ => b
  }

  ghost predicate Reflects(l: Local, lfds: seq<Listener>, m: map<int, Registration>) {
    forall num :: Registered(l, lfds, num) == At(m, num)
  }

  /** The open tables are those in the book, and each holds what the book says. */
  ghost predicate Agrees(l: Local, b: Book) {
    && (forall epfd :: epfd in b <==> FindPollfd(l, epfd).Some?)
    && (forall epfd | epfd in b && FindPollfd(l, epfd).Some? ::
        Reflects(l, l.pollfds[FindPollfd(l, epfd).value].lfds, b[epfd]))
  }

  /** Does this call hand out a descriptor number? */
  predicate TakesSlot(r: Role, sh: Shared, l: Local, call: Call) {
    EmptyFd(l.fds).Some? &&
    ((call.Socket? && call.inet && call.stream && l.currentMaxFd < POLLFD_START) ||
     (call.Accept? && call.named && Taken(r, sh, l, call.num).Some?))
  }

  /** The next slot to be taken has a registration left in some open table. */
  ghost predicate NextSlotStale(l: Local) {
    EmptyFd(l.fds).Some? &&
    exists k | 0 <= k < |l.pollfds| :: l.pollfds[k].active && Stale(l, l.pollfds[k].lfds, EmptyFd(l.fds).value)
  }

  // ---------- tables and their numbers ----------

  /** Open tables have numbers of their own, so each is found by its number. */
  lemma TableFound(l: Local, k: nat)
    requires PollfdsOk(l) && k < |l.pollfds| && l.pollfds[k].active
    ensures FindPollfd(l, l.pollfds[k].num) == Some(k)
  {
    hide TableOk, NoneActive;
    var f := FindPollfd(l, l.pollfds[k].num);
    assert f.Some?;
  }

  lemma FoundTable(l: Local, epfd: int)
    requires PollfdsOk(l) && FindPollfd(l, epfd).Some?
    ensures var k := FindPollfd(l, epfd).value;
            TableOk(l.pollfds[k].lfds) && l.pollfds[k].active && l.pollfds[k].num == epfd
  {
  }

  /** With the same tables, equal maps mean equal agreement. */
  lemma SameMapsAgree(l: Local, b: Book, l': Local, b': Book)
    requires Agrees(l, b) && l'.pollfds == l.pollfds && b'.Keys == b.Keys
    requires forall epfd, num | FindPollfd(l, epfd).Some? && epfd in b ::
               var lfds := l.pollfds[FindPollfd(l, epfd).value].lfds;
               Registered(l, lfds, num) == At(b[epfd], num) ==> Registered(l', lfds, num) == At(b'[epfd], num)
    ensures Agrees(l', b')
  {
    hide Registered, At;
    forall epfd ensures FindPollfd(l', epfd) == FindPollfd(l, epfd) {
    }
    forall epfd | epfd in b' && FindPollfd(l', epfd).Some?
      ensures Reflects(l', l'.pollfds[FindPollfd(l', epfd).value].lfds, b'[epfd])
    {
      assert Reflects(l, l.pollfds[FindPollfd(l, epfd).value].lfds, b[epfd]);
    }
  }

  // ---------- one call ----------

  /** Calls that keep numbers and tables keep the maps. */
  lemma QuietCallAgrees(l: Local, b: Book, l': Local)
    requires Agrees(l, b) && l'.pollfds == l.pollfds && |l'.fds| == |l.fds|
    requires forall i | 0 <= i < |l.fds| :: l'.fds[i].active == l.fds[i].active && l'.fds[i].num == l.fds[i].num
    ensures Agrees(l', b)
  {
    hide FindPollfd, Agrees;
    forall epfd, num | FindPollfd(l, epfd).Some? && epfd in b
      ensures var lfds := l.pollfds[FindPollfd(l, epfd).value].lfds;
              Registered(l', lfds, num) == Registered(l, lfds, num)
    {
      SameAt(l, l.pollfds[FindPollfd(l, epfd).value].lfds, l', l.pollfds[FindPollfd(l, epfd).value].lfds, num);
    }
    SameMapsAgree(l, b, l', b);
  }

  /** A new descriptor in slot `i` keeps the maps if and only if nothing is left of the slot's past. */
  lemma NewSlotAgrees(l: Local, b: Book, fd: Fd)
    requires NumbersOk(l) && PollfdsOk(l) && Agrees(l, b) && EmptyFd(l.fds).Some? && fd.active &&
             fd.num == l.currentMaxFd
    ensures Agrees(l.WithFd(EmptyFd(l.fds).value, fd).(currentMaxFd := l.currentMaxFd + 1), b) <==> !NextSlotStale(l)
  {
    hide PollfdsOk, Agrees, Registered;
    var i := EmptyFd(l.fds).value;
    var l' := l.WithFd(i, fd).(currentMaxFd := l.currentMaxFd + 1);
    if NextSlotStale(l) {
      var k :| 0 <= k < |l.pollfds| && l.pollfds[k].active && Stale(l, l.pollfds[k].lfds, i);
      StaleBreaksMap(l, b, fd, k);
    } else {
      forall epfd, num | FindPollfd(l, epfd).Some? && epfd in b
        ensures var lfds := l.pollfds[FindPollfd(l, epfd).value].lfds;
                Registered(l', lfds, num) == Registered(l, lfds, num)
      {
        var lfds := l.pollfds[FindPollfd(l, epfd).value].lfds;
        assert !Stale(l, lfds, i);
        SameAt(l, lfds, l', lfds, num);
      }
      SameMapsAgree(l, b, l', b);
    }
  }

  lemma StaleBreaksMap(l: Local, b: Book, fd: Fd, k: nat)
    requires NumbersOk(l) && PollfdsOk(l) && Agrees(l, b) && EmptyFd(l.fds).Some? && fd.active &&
             fd.num == l.currentMaxFd
    requires k < |l.pollfds| && l.pollfds[k].active && Stale(l, l.pollfds[k].lfds, EmptyFd(l.fds).value)
    ensures !Agrees(l.WithFd(EmptyFd(l.fds).value, fd).(currentMaxFd := l.currentMaxFd + 1), b)
  {
    hide PollfdsOk, Registered, FindPollfd;
    var i := EmptyFd(l.fds).value;
    var l' := l.WithFd(i, fd).(currentMaxFd := l.currentMaxFd + 1);
    var lfds := l.pollfds[k].lfds;
    var num := l.currentMaxFd;
    var epfd := l.pollfds[k].num;
    TableFound(l, k);
    FoundTable(l, epfd);
    SamePollfds(l, l', epfd);
    NewSlotKeepsNumbers(l, i, fd);
    var j :| 0 <= j < |lfds| && lfds[j].active && lfds[j].slot == i;
    RegisteredIs(l', lfds, j);
    assert Registered(l, lfds, num).None? by { NeverRegistered(l, lfds, num); }
    assert Reflects(l, lfds, b[epfd]);
  }

  lemma NeverRegistered(l: Local, lfds: seq<Listener>, num: int)
    requires forall i | 0 <= i < |l.fds| :: l.fds[i].num != num || !l.fds[i].active
    ensures Registered(l, lfds, num).None?
  {
  }

  /** Closing a descriptor takes its number out of every map. */
  lemma CloseSocketAgrees(l: Local, b: Book, i: nat)
    requires NumbersOk(l) && Agrees(l, b) && i < |l.fds| && l.fds[i].active
    ensures Agrees(Released(l, i), map epfd | epfd in b :: b[epfd] - {l.fds[i].num})
  {
    hide FindPollfd, Agrees, Registered;
    var num := l.fds[i].num;
    var b' := map epfd | epfd in b :: b[epfd] - {num};
    forall epfd, n | FindPollfd(l, epfd).Some? && epfd in b
      ensures var lfds := l.pollfds[FindPollfd(l, epfd).value].lfds;
              Registered(l, lfds, n) == At(b[epfd], n) ==> Registered(Released(l, i), lfds, n) == At(b'[epfd], n)
    {
      CloseDeregisters(l, l.pollfds[FindPollfd(l, epfd).value].lfds, i);
    }
    SameMapsAgree(l, b, Released(l, i), b');
  }

  /** Rewriting table `k` leaves the search for the others alone. */
  lemma OtherTables(l: Local, l': Local, k: nat, epfd: int)
    requires k < |l.pollfds| && |l'.pollfds| == |l.pollfds| && l'.pollfds == l.pollfds[k := l'.pollfds[k]]
    requires !(l.pollfds[k].active && l.pollfds[k].num == epfd) && !(l'.pollfds[k].active && l'.pollfds[k].num == epfd)
    ensures FindPollfd(l', epfd) == FindPollfd(l, epfd) && FindPollfd(l, epfd) != Some(k)
  {
    var f := FindPollfd(l, epfd);
    if f.Some? {
      assert l'.pollfds[f.value].active && l'.pollfds[f.value].num == epfd;
    }
    var f' := FindPollfd(l', epfd);
    if f'.Some? {
      assert l.pollfds[f'.value].active && l.pollfds[f'.value].num == epfd;
    }
  }

  lemma SameFdsReflect(l: Local, l': Local, lfds: seq<Listener>, m: map<int, Registration>)
    requires Reflects(l, lfds, m) && l'.fds == l.fds
    ensures Reflects(l', lfds, m)
  {
    forall num ensures Registered(l', lfds, num) == Registered(l, lfds, num) {
      SameAt(l, lfds, l', lfds, num);
    }
  }

  /** Table `k`, with number `epfd`, now holds `m`; all others are as before. */
  lemma TableRewrittenAgrees(l: Local, b: Book, l': Local, k: nat, epfd: int, m: map<int, Registration>)
    requires Agrees(l, b) && PollfdsOk(l) && PollfdsOk(l') && l'.fds == l.fds
    requires k < |l.pollfds| && l'.pollfds == l.pollfds[k := l'.pollfds[k]] && l'.pollfds[k].active &&
             l'.pollfds[k].num == epfd
    requires l.pollfds[k].active ==> l.pollfds[k].num == epfd
    requires Reflects(l', l'.pollfds[k].lfds, m)
    ensures Agrees(l', b[epfd := m])
  {
    hide FindPollfd, PollfdsOk, Reflects;
    TableFound(l', k);
    forall e | e != epfd ensures FindPollfd(l', e) == FindPollfd(l, e) && FindPollfd(l, e) != Some(k) {
      OtherTables(l, l', k, e);
    }
    forall e | e != epfd && e in b && FindPollfd(l, e).Some?
      ensures Reflects(l', l'.pollfds[FindPollfd(l, e).value].lfds, b[e])
    {
      SameFdsReflect(l, l', l.pollfds[FindPollfd(l, e).value].lfds, b[e]);
    }
  }

  lemma CreateAgrees(l: Local, b: Book)
    requires Agrees(l, b) && PollfdsOk(l) && PollfdsOk(DoEpollCreate(l).0)
    ensures var e := DoEpollCreate(l); Agrees(e.0, if e.1.Ret? then b[e.1.value := map[]] else b)
  {
    hide PollfdsOk, Agrees, Reflects;
    var e := DoEpollCreate(l);
    if e.1.Ret? {
      var k := FirstIndex(l.pollfds, (e: EpollFd) => !e.active).value;
      assert NoneActive(l.pollfds[k].lfds) by { UnusedIsEmpty(l, k); }
      assert Reflects(e.0, e.0.pollfds[k].lfds, map[]) by { EmptyReflects(e.0, e.0.pollfds[k].lfds); }
      TableRewrittenAgrees(l, b, e.0, k, l.randomPollFd, map[]);
    }
  }

  lemma UnusedIsEmpty(l: Local, k: nat)
    requires PollfdsOk(l) && k < |l.pollfds| && !l.pollfds[k].active
    ensures NoneActive(l.pollfds[k].lfds)
  {
  }

  lemma EmptyReflects(l: Local, lfds: seq<Listener>)
    requires NoneActive(lfds)
    ensures Reflects(l, lfds, map[])
  {
  }

  lemma PollOpenAgrees(l: Local, b: Book)
    requires Agrees(l, b) && PollfdsOk(l) && PollfdsOk(DoEpollCreate(l).0)
    ensures var e := DoPollOpen(l); Agrees(e.0, Note(l, b, PollOpen, e.1))
  {
    hide PollfdsOk, Agrees, DoEpollCreate;
    CreateAgrees(l, b);
    var e := DoEpollCreate(l);
    if l.pollEpfd == -1 && e.1.Ret? {
      QuietCallAgrees(e.0, b[e.1.value := map[]], e.0.(pollEpfd := e.1.value));
    }
  }

  /** Closing a table takes it out of the book. */
  lemma CloseTableAgrees(r: Role, sh: Shared, l: Local, b: Book, num: int)
    requires Agrees(l, b) && PollfdsOk(l) && num >= POLLFD_START && PollfdsOk(DoClose(r, sh, l, num).local)
    ensures var e := DoClose(r, sh, l, num); Agrees(e.local, Note(l, b, Close(num), e.out))
  {
    hide FindPollfd, PollfdsOk, Reflects;
    var f := FindPollfd(l, num);
    if f.Some? {
      var k := f.value;
      var l' := DoClose(r, sh, l, num).local;
      assert l.pollfds[k].num == num;
      forall e | e != num ensures FindPollfd(l', e) == FindPollfd(l, e) && FindPollfd(l, e) != Some(k) {
        OtherTables(l, l', k, e);
      }
      assert FindPollfd(l', num).None? by { ClosedIsGone(l, k, l', num); }
      forall e | e != num && e in b && FindPollfd(l, e).Some?
        ensures Reflects(l', l'.pollfds[FindPollfd(l, e).value].lfds, b[e])
      {
        SameFdsReflect(l, l', l.pollfds[FindPollfd(l, e).value].lfds, b[e]);
      }
    }
  }

  lemma ClosedIsGone(l: Local, k: nat, l': Local, num: int)
    requires PollfdsOk(l) && k < |l.pollfds| && l.pollfds[k].active && l.pollfds[k].num == num
    requires |l'.pollfds| == |l.pollfds| && l'.pollfds == l.pollfds[k := l'.pollfds[k]] && !l'.pollfds[k].active
    ensures FindPollfd(l', num).None?
  {
    hide TableOk, NoneActive;
  }

  lemma CtlAgrees(l: Local, b: Book, epfd: int, op: CtlOp, num: int, events: EventMask, data: int)
    requires NumbersOk(l) && PollfdsOk(l) && Agrees(l, b) && PollfdsOk(DoEpollCtl(l, epfd, op, num, events, data).0)
    ensures var e := DoEpollCtl(l, epfd, op, num, events, data);
            Agrees(e.0, Note(l, b, EpollCtl(epfd, op, num, events, data), e.1))
  {
    hide NumbersOk, FindPollfd, CtlTable, Reflects, IsEventSet, PollfdsOk, FindFd;
    var f := FindPollfd(l, epfd);
    var e := DoEpollCtl(l, epfd, op, num, events, data);
    if f.Some? && num >= FD_START && FindFd(l.fds, num).Some? {
      var k := f.value;
      FoundTable(l, epfd);
      var m := Note(l, b, EpollCtl(epfd, op, num, events, data), e.1)[epfd];
      assert Reflects(l, l.pollfds[k].lfds, b[epfd]);
      CtlReflects(l, l.pollfds[k].lfds, b[epfd], op, num, events, data, m);
      SameFdsReflect(l, e.0, e.0.pollfds[k].lfds, m);
      TableRewrittenAgrees(l, b, e.0, k, epfd, m);
      assert b[epfd := b[epfd]] == b;
    }
  }

  lemma CtlReflects(l: Local, lfds: seq<Listener>, m: map<int, Registration>, op: CtlOp, num: int, events: EventMask,
                    data: int, m': map<int, Registration>)
    requires NumbersOk(l) && TableOk(lfds) && FindFd(l.fds, num).Some? && Reflects(l, lfds, m)
    requires var out := CtlTable(l.fds, lfds, op, num, FindFd(l.fds, num).value, events, data).1;
             m' == if out != Ret(0) then m else if op == CtlDel then m - {num}
                   else m[num := Registration(events, data, !IsEventSet(events, EPOLLET))]
    ensures Reflects(l, CtlTable(l.fds, lfds, op, num, FindFd(l.fds, num).value, events, data).0, m')
  {
    hide NumbersOk, TableOk, CtlTable, IsEventSet, FindFd, Registered;
    CtlRefinesMap(l, lfds, op, num, events, data);
    assert Registered(l, lfds, num) == At(m, num);
  }

  /** A scan drops registrations of closed descriptors only, which no map knows. */
  lemma ScanAgrees(r: Role, sh: Shared, l: Local, b: Book, epfd: int, maxevents: int)
    requires PollfdsOk(l) && Agrees(l, b) && PollfdsOk(DoScan(r, sh, l, epfd, maxevents).local)
    ensures Agrees(DoScan(r, sh, l, epfd, maxevents).local, b)
  {
    hide FindPollfd, ScanFrom, Reflects, PollfdsOk, ConnsFrame, Agrees;
    var f := FindPollfd(l, epfd);
    var l' := DoScan(r, sh, l, epfd, maxevents).local;
    if f.Some? && l' != l {
      var k := f.value;
      var s := StartScan(sh, l, k);
      ScanFromFrame(s, r, l.interfaces, 0, maxevents);
      var t := ScanFrom(s, r, l.interfaces, 0, maxevents);
      var mid := l.(fds := t.fds);
      forall i | 0 <= i < |l.fds| ensures t.fds[i].active == l.fds[i].active && t.fds[i].num == l.fds[i].num {
        assert t.fds[i] == l.fds[i] || Opened(sh, l.fds[i], t.fds[i]);
      }
      QuietCallAgrees(l, b, mid);
      assert PollfdsOk(mid) by { PollfdsKept(l, mid); }
      SamePollfds(l, mid, epfd);
      assert epfd in b && Reflects(mid, l.pollfds[k].lfds, b[epfd]) by { InBook(mid, b, epfd); }
      DroppedReflects(mid, l.pollfds[k].lfds, l', t.lfds, b[epfd]);
      TableRewrittenAgrees(mid, b, l', k, epfd, b[epfd]);
      assert b[epfd := b[epfd]] == b;
    }
  }

  lemma InBook(l: Local, b: Book, epfd: int)
    requires Agrees(l, b) && FindPollfd(l, epfd).Some?
    ensures epfd in b && Reflects(l, l.pollfds[FindPollfd(l, epfd).value].lfds, b[epfd])
  {
  }

  lemma DroppedReflects(l: Local, lfds: seq<Listener>, l': Local, lfds': seq<Listener>, m: map<int, Registration>)
    requires Reflects(l, lfds, m) && l'.fds == l.fds && |lfds'| == |lfds|
    requires forall j | 0 <= j < |lfds| :: lfds'[j] == lfds[j] ||
               (lfds'[j] == lfds[j].(active := false) && lfds[j].slot < |l.fds| && !l.fds[lfds[j].slot].active)
    ensures Reflects(l', lfds', m)
  {
    hide At;
    forall num ensures Registered(l', lfds', num) == Registered(l, lfds, num) {
      SameAt(l, lfds, l', lfds', num);
    }
  }

  // ---------- every call ----------

  /** Calls that hand out no number, close nothing and leave the tables alone. */
  predicate Calm(r: Role, sh: Shared, l: Local, call: Call) {
    || call.Bind? || call.Listen? || call.Connect? || call.ConnectEx? || call.Send? || call.Recv? || call.SetNonblock?
    || ((call.Socket? || call.Accept?) && !TakesSlot(r, sh, l, call))
    || (call.Close? && call.num < POLLFD_START && FindFd(l.fds, call.num).None?)
  }

  lemma CalmKeepsNumbers(r: Role, sh: Shared, l: Local, call: Call)
    requires Calm(r, sh, l, call)
    ensures NumbersKept(l, Apply(r, sh, l, call).local)
  {
    hide NumbersKept, DoBind, DoListen, DoAccept, DoConnectEx, DoSend, DoRecv, DoClose, DoSocket, DoSetNonblock;
    match call
    case Bind(_, _, _) => OneSlotKeepsNumbers(r, sh, l, call);
    case Listen(_, _) => OneSlotKeepsNumbers(r, sh, l, call);
    case SetNonblock(_, _) => OneSlotKeepsNumbers(r, sh, l, call);
    case Send(num, data) => SendKeepsNumbers(r, sh, l, num, data);
    case Recv(num, len, dontwait) => RecvKeepsNumbers(r, sh, l, num, len, dontwait);
    case Connect(num, addr, port, block) => ConnectKeepsNumbers(r, sh, l, num, addr, port, block);
    case ConnectEx(num, addr, port, block) => ConnectKeepsNumbers(r, sh, l, num, addr, port, block);
    case _ => IdleCallKeepsNumbers(r, sh, l, call);
  }

  ghost predicate NumbersKept(l: Local, l': Local) {
    && l'.pollfds == l.pollfds && |l'.fds| == |l.fds|
    && forall i | 0 <= i < |l.fds| :: l'.fds[i].active == l.fds[i].active && l'.fds[i].num == l.fds[i].num
  }

  lemma OneSlotKeepsNumbers(r: Role, sh: Shared, l: Local, call: Call)
    requires call.Bind? || call.Listen? || call.SetNonblock?
    ensures NumbersKept(l, Apply(r, sh, l, call).local)
  {
  }

  lemma SendKeepsNumbers(r: Role, sh: Shared, l: Local, num: int, data: seq<Byte>)
    ensures NumbersKept(l, DoSend(r, sh, l, num, data).local)
  {
    hide SendConnection;
  }

  lemma RecvKeepsNumbers(r: Role, sh: Shared, l: Local, num: int, len: nat, dontwait: bool)
    ensures NumbersKept(l, DoRecv(r, sh, l, num, len, dontwait).local)
  {
    hide RecvConnection;
  }

  lemma ConnectKeepsNumbers(r: Role, sh: Shared, l: Local, num: int, addr: int, port: int, block: Ptr)
    ensures NumbersKept(l, DoConnectEx(r, sh, l, num, addr, port, block).local) && NumbersKept(l, l)
  {
    hide Publish, InterfaceBySockaddr;
  }

  lemma IdleCallKeepsNumbers(r: Role, sh: Shared, l: Local, call: Call)
    requires ((call.Socket? || call.Accept?) && !TakesSlot(r, sh, l, call)) ||
             (call.Close? && call.num < POLLFD_START && FindFd(l.fds, call.num).None?)
    ensures NumbersKept(l, Apply(r, sh, l, call).local)
  {
    hide PickOnTable, GetPeerName;
  }

  lemma TakenSlot(r: Role, sh: Shared, l: Local, call: Call)
    requires TakesSlot(r, sh, l, call)
    ensures var i := EmptyFd(l.fds).value;
            var l' := Apply(r, sh, l, call).local;
            |l'.fds| == |l.fds| && l'.fds[i].active && l'.fds[i].num == l.currentMaxFd &&
            l' == l.WithFd(i, l'.fds[i]).(currentMaxFd := l.currentMaxFd + 1)
  {
    hide PickOnTable, GetPeerName, Publish, InterfaceBySockaddr, RecvConnection, SendConnection, CtlTable, ScanFrom;
  }

  /** Only these calls are noted, and only when they succeed. */
  lemma NotNoted(l: Local, b: Book, call: Call, out: Outcome)
    requires !call.EpollCreate? && !call.PollOpen? && !call.EpollCtl? && (call.Close? ==> out != Ret(0))
    ensures Note(l, b, call, out) == b
  {
  }

  /**
   After any call the tables are what the book says, if and only if the call did not take a slot that
   still has a registration in an open table.
   */
  lemma CallAgreesExactly(r: Role, sh: Shared, l: Local, other: Local, b: Book, call: Call)
    requires Inv(sh, l, other) && AllocationOk(r, sh, l, call) && Agrees(l, b)
    ensures var e := Apply(r, sh, l, call);
            Agrees(e.local, Note(l, b, call, e.out)) <==> !(TakesSlot(r, sh, l, call) && NextSlotStale(l))
  {
    hide Inv, Apply, Agrees, TakesSlot, Note, NumbersOk, PollfdsOk, NextSlotStale;
    var e := Apply(r, sh, l, call);
    ApplyKeepsInv(r, sh, l, other, call);
    LocalParts(sh, l, other);
    LocalParts(e.shared, e.local, other);
    if TakesSlot(r, sh, l, call) {
      assert EmptyFd(l.fds).Some? by { SlotTakers(r, sh, l, call); }
      TakenSlot(r, sh, l, call);
      NewSlotAgrees(l, b, e.local.fds[EmptyFd(l.fds).value]);
      NotNoted(l, b, call, e.out) by { SlotTakers(r, sh, l, call); }
      SlotTakers(r, sh, l, call);
    } else if Calm(r, sh, l, call) {
      CalmKeepsNumbers(r, sh, l, call);
      QuietCallAgrees(l, b, e.local);
      NotNoted(l, b, call, e.out) by { CalmClose(r, sh, l, call); }
      CalmClose(r, sh, l, call);
    } else {
      LoudCallAgrees(r, sh, l, other, b, call);
    }
  }

  lemma LocalParts(sh: Shared, l: Local, other: Local)
    requires Inv(sh, l, other)
    ensures NumbersOk(l) && PollfdsOk(l) && FdsOk(sh, l)
  {
  }

  lemma SlotTakers(r: Role, sh: Shared, l: Local, call: Call)
    requires TakesSlot(r, sh, l, call)
    ensures (call.Socket? || call.Accept?) && EmptyFd(l.fds).Some?
  {
  }

  lemma CalmClose(r: Role, sh: Shared, l: Local, call: Call)
    requires Calm(r, sh, l, call)
    ensures !call.EpollCreate? && !call.PollOpen? && !call.EpollCtl? &&
            (call.Close? ==> Apply(r, sh, l, call).out != Ret(0))
  {
  }

  lemma LoudCallAgrees(r: Role, sh: Shared, l: Local, other: Local, b: Book, call: Call)
    requires Inv(sh, l, other) && Agrees(l, b) && !TakesSlot(r, sh, l, call) && !Calm(r, sh, l, call)
    requires PollfdsOk(Apply(r, sh, l, call).local)
    ensures var e := Apply(r, sh, l, call); Agrees(e.local, Note(l, b, call, e.out))
  {
    hide Inv, Agrees, TakesSlot, NumbersOk, PollfdsOk, DoScan, DoEpollCtl, DoEpollCreate, DoPollOpen, DoClose;
    LocalParts(sh, l, other);
    match call
    case EpollCreate => CreateAgrees(l, b);
    case PollOpen =>
      assert PollfdsOk(DoEpollCreate(l).0) by {
        EpollCreateKeepsInv(sh, l, other); LocalParts(sh, DoEpollCreate(l).0, other);
      }
      PollOpenAgrees(l, b);
    case EpollCtl(epfd, op, num, events, data) => CtlAgrees(l, b, epfd, op, num, events, data);
    case Wait(epfd, maxevents) => ScanAgrees(r, sh, l, b, epfd, maxevents);
    case Close(num) =>
      if num >= POLLFD_START {
        CloseTableAgrees(r, sh, l, b, num);
      } else {
        CloseSocketCallAgrees(r, sh, l, other, b, num);
      }
    case _ =>
  }

  lemma CloseSocketCallAgrees(r: Role, sh: Shared, l: Local, other: Local, b: Book, num: int)
    requires Inv(sh, l, other) && Agrees(l, b) && num < POLLFD_START && FindFd(l.fds, num).Some?
    ensures var e := DoClose(r, sh, l, num); Agrees(e.local, Note(l, b, Close(num), e.out))
  {
    hide Inv, Agrees, NumbersOk;
    LocalParts(sh, l, other);
    var i := FindFd(l.fds, num).value;
    NumberInRange(l, i);
    CloseSocketKeepsInv(r, sh, l, other, num);
    CloseSocketAgrees(l, b, i);
    assert DoClose(r, sh, l, num).local == Released(l, i);
  }

  // ---------- runs ----------

  function RunBook(s: Sys, r: Role, b: Book, moves: seq<Move>): Book
    decreases |moves|
  {
    if moves == [] then b
    else
      var m := moves[0];
      var t := Step(s, m);
      RunBook(t.0, r, if m.role == r then Note(s.Loc(r), b, m.call, t.1) else b, moves[1..])
  }

  /** No call of `r` takes a slot that still has a registration in one of its open tables. */
  ghost predicate NoStaleSlotTaken(s: Sys, r: Role, moves: seq<Move>)
    decreases |moves|
  {
    moves == [] ||
    ((moves[0].role == r ==> !(TakesSlot(r, s.shared, s.Loc(r), moves[0].call) && NextSlotStale(s.Loc(r)))) &&
     NoStaleSlotTaken(Step(s, moves[0]).0, r, moves[1..]))
  }

  lemma StepAgrees(s: Sys, r: Role, b: Book, m: Move)
    requires SysInv(s) && AllocationOk(m.role, s.shared, s.Loc(m.role), m.call) && Agrees(s.Loc(r), b)
    requires m.role == r ==> !(TakesSlot(r, s.shared, s.Loc(r), m.call) && NextSlotStale(s.Loc(r)))
    ensures Agrees(Step(s, m).0.Loc(r), if m.role == r then Note(s.Loc(r), b, m.call, Step(s, m).1) else b)
  {
    hide Inv, Apply, Agrees, TakesSlot, Note, NextSlotStale, AllocationOk;
    if m.role == r {
      if r == Client { InvSymmetric(s.shared, s.server, s.client); }
      CallAgreesExactly(r, s.shared, s.Loc(r), s.Loc(Other(r)), b, m.call);
    }
  }

  lemma {:induction false} RunAgrees(s: Sys, r: Role, b: Book, moves: seq<Move>)
    requires SysInv(s) && Agrees(s.Loc(r), b) && Playable(s, moves) && NoStaleSlotTaken(s, r, moves)
    ensures Agrees(Run(s, moves).Loc(r), RunBook(s, r, b, moves))
    decreases |moves|
  {
    hide SysInv, Step, Agrees, TakesSlot, Note, NextSlotStale, AllocationOk;
    if moves != [] {
      var m := moves[0];
      var t := Step(s, m);
      StepAgrees(s, r, b, m);
      StepKeepsInv(s, m);
      RunAgrees(t.0, r, if m.role == r then Note(s.Loc(r), b, m.call, t.1) else b, moves[1..]);
    }
  }

  lemma InitialAgrees(s: Sys, r: Role)
    requires Initial(s)
    ensures Agrees(s.Loc(r), map[])
  {
    hide NoneActive;
  }

  /**
   After every run in which no call takes a slot with a registration left, the open epoll tables are
   those that were created and not closed, and what each has registered for each number is what the
   epoll_ctl and close calls, by their results, make it.
   */
  lemma RegistryRefinesMap(s: Sys, r: Role, moves: seq<Move>, epfd: int, num: int)
    requires Initial(s) && Playable(s, moves) && NoStaleSlotTaken(s, r, moves)
    ensures var l := Run(s, moves).Loc(r);
            var b := RunBook(s, r, map[], moves);
            && (epfd in b <==> FindPollfd(l, epfd).Some?)
            && (epfd in b ==> Registered(l, l.pollfds[FindPollfd(l, epfd).value].lfds, num) == At(b[epfd], num))
  {
    hide Run, RunBook, Playable, NoStaleSlotTaken, Initial, Registered, At, FindPollfd;
    assert SysInv(s) by { InitialInv(s); }
    InitialAgrees(s, r);
    RunAgrees(s, r, map[], moves);
    var l := Run(s, moves).Loc(r);
    var b := RunBook(s, r, map[], moves);
    if epfd in b {
      assert Reflects(l, l.pollfds[FindPollfd(l, epfd).value].lfds, b[epfd]);
    }
  }

  // ---------- a discipline that is enough ----------

  /** Every socket that `r` closes is registered in none of its open tables. */
  predicate DeletesBeforeClose(s: Sys, r: Role, b: Book, moves: seq<Move>)
    decreases |moves|
  {
    moves == [] ||
    (var m := moves[0];
     var t := Step(s, m);
     (m.role == r && m.call.Close? && m.call.num < POLLFD_START ==>
      forall epfd | epfd in b :: m.call.num !in b[epfd]) &&
     DeletesBeforeClose(t.0, r, if m.role == r then Note(s.Loc(r), b, m.call, t.1) else b, moves[1..]))
  }

  /** Every registration in an open table is of an open descriptor. */
  ghost predicate NothingStale(l: Local) {
    forall k, j | 0 <= k < |l.pollfds| && l.pollfds[k].active && 0 <= j < |l.pollfds[k].lfds| &&
      l.pollfds[k].lfds[j].active ::
      l.pollfds[k].lfds[j].slot < |l.fds| && l.fds[l.pollfds[k].lfds[j].slot].active
  }

  lemma NothingStaleIsFine(l: Local)
    requires NothingStale(l)
    ensures !NextSlotStale(l)
  {
  }

  /** A closed number that no map knows has no registration to leave behind. */
  lemma CloseLeavesNothing(l: Local, b: Book, i: nat)
    requires NumbersOk(l) && PollfdsOk(l) && Agrees(l, b) && NothingStale(l) && i < |l.fds| && l.fds[i].active
    requires forall epfd | epfd in b :: l.fds[i].num !in b[epfd]
    ensures NothingStale(Released(l, i))
  {
    hide FindPollfd, PollfdsOk;
    forall k, j | 0 <= k < |l.pollfds| && l.pollfds[k].active && 0 <= j < |l.pollfds[k].lfds| &&
      l.pollfds[k].lfds[j].active
      ensures l.pollfds[k].lfds[j].slot != i
    {
      if l.pollfds[k].lfds[j].slot == i {
        LiveIsKnown(l, b, k, j);
      }
    }
  }

  lemma LiveIsKnown(l: Local, b: Book, k: nat, j: nat)
    requires NumbersOk(l) && PollfdsOk(l) && Agrees(l, b) && k < |l.pollfds| && l.pollfds[k].active
    requires j < |l.pollfds[k].lfds| && Live(l.fds, l.pollfds[k].lfds[j])
    ensures l.pollfds[k].num in b && l.fds[l.pollfds[k].lfds[j].slot].num in b[l.pollfds[k].num]
  {
    hide FindPollfd, PollfdsOk, NumbersOk, Registered;
    TableFound(l, k);
    FoundTable(l, l.pollfds[k].num);
    RegisteredIs(l, l.pollfds[k].lfds, j);
    assert Reflects(l, l.pollfds[k].lfds, b[l.pollfds[k].num]);
  }

  /** Rewriting one table, with nothing stale in the new one. */
  lemma TableKeepsNothingStale(l: Local, l': Local, k: nat)
    requires NothingStale(l) && k < |l.pollfds| && |l'.pollfds| == |l.pollfds| &&
             l'.pollfds == l.pollfds[k := l'.pollfds[k]]
    requires |l'.fds| == |l.fds| && forall i | 0 <= i < |l.fds| :: l'.fds[i].active == l.fds[i].active
    requires l'.pollfds[k].active ==> forall j | 0 <= j < |l'.pollfds[k].lfds| && l'.pollfds[k].lfds[j].active ::
               l'.pollfds[k].lfds[j].slot < |l.fds| && l.fds[l'.pollfds[k].lfds[j].slot].active
    ensures NothingStale(l')
  {
  }

  lemma CtlKeepsNothingStale(l: Local, epfd: int, op: CtlOp, num: int, events: EventMask, data: int)
    requires NothingStale(l)
    ensures NothingStale(DoEpollCtl(l, epfd, op, num, events, data).0)
  {
    hide NothingStale, IsEventSet;
    var f := FindPollfd(l, epfd);
    var l' := DoEpollCtl(l, epfd, op, num, events, data).0;
    if f.Some? && num >= FD_START && FindFd(l.fds, num).Some? {
      TableNotStale(l, f.value);
      TableKeepsNothingStale(l, l', f.value);
    }
  }

  lemma TableNotStale(l: Local, k: nat)
    requires NothingStale(l) && k < |l.pollfds| && l.pollfds[k].active
    ensures forall j | 0 <= j < |l.pollfds[k].lfds| && l.pollfds[k].lfds[j].active ::
              l.pollfds[k].lfds[j].slot < |l.fds| && l.fds[l.pollfds[k].lfds[j].slot].active
  {
  }

  lemma ScanKeepsNothingStale(r: Role, sh: Shared, l: Local, epfd: int, maxevents: int)
    requires NothingStale(l)
    ensures NothingStale(DoScan(r, sh, l, epfd, maxevents).local)
  {
    hide NothingStale, ScanFrom, ConnsFrame;
    var f := FindPollfd(l, epfd);
    var l' := DoScan(r, sh, l, epfd, maxevents).local;
    if f.Some? && l' != l {
      var s := StartScan(sh, l, f.value);
      var t := ScanFrom(s, r, l.interfaces, 0, maxevents);
      ScanFromFrame(s, r, l.interfaces, 0, maxevents);
      TableNotStale(l, f.value);
      forall i | 0 <= i < |l.fds| ensures l'.fds[i].active == l.fds[i].active {
        assert t.fds[i] == l.fds[i] || Opened(sh, l.fds[i], t.fds[i]);
      }
      TableKeepsNothingStale(l, l', f.value);
    }
  }

  lemma CreateKeepsNothingStale(l: Local)
    requires NothingStale(l) && PollfdsOk(l)
    ensures NothingStale(DoEpollCreate(l).0) && NothingStale(DoPollOpen(l).0)
  {
    hide TableOk;
  }

  lemma MoreActiveKeepsNothingStale(l: Local, l': Local)
    requires NothingStale(l) && l'.pollfds == l.pollfds && |l'.fds| == |l.fds|
    requires forall i | 0 <= i < |l.fds| && l.fds[i].active :: l'.fds[i].active
    ensures NothingStale(l')
  {
  }

  lemma CallKeepsNothingStale(r: Role, sh: Shared, l: Local, other: Local, b: Book, call: Call)
    requires Inv(sh, l, other) && Agrees(l, b) && NothingStale(l)
    requires call.Close? && call.num < POLLFD_START ==> forall epfd | epfd in b :: call.num !in b[epfd]
    ensures NothingStale(Apply(r, sh, l, call).local)
  {
    hide Inv, Agrees, TakesSlot, NumbersOk, PollfdsOk, NothingStale, Calm, DoScan, DoEpollCtl, DoEpollCreate,
        DoPollOpen, CloseSocket;
    LocalParts(sh, l, other);
    if TakesSlot(r, sh, l, call) {
      assert EmptyFd(l.fds).Some? by { SlotTakers(r, sh, l, call); }
      TakenSlot(r, sh, l, call);
      MoreActiveKeepsNothingStale(l, Apply(r, sh, l, call).local);
    } else if Calm(r, sh, l, call) {
      CalmKeepsNumbers(r, sh, l, call);
      MoreActiveKeepsNothingStale(l, Apply(r, sh, l, call).local);
    } else {
      LoudCallKeepsNothingStale(r, sh, l, other, b, call);
    }
  }

  lemma LoudCallKeepsNothingStale(r: Role, sh: Shared, l: Local, other: Local, b: Book, call: Call)
    requires Inv(sh, l, other) && Agrees(l, b) && NothingStale(l) && !TakesSlot(r, sh, l, call) && !Calm(r, sh, l, call)
    requires call.Close? && call.num < POLLFD_START ==> forall epfd | epfd in b :: call.num !in b[epfd]
    ensures NothingStale(Apply(r, sh, l, call).local)
  {
    hide Inv, Agrees, TakesSlot, NumbersOk, PollfdsOk, NothingStale, DoScan, DoEpollCtl, DoEpollCreate, DoPollOpen,
        CloseSocket;
    LocalParts(sh, l, other);
    match call
    case EpollCreate => CreateKeepsNothingStale(l);
    case PollOpen => CreateKeepsNothingStale(l);
    case EpollCtl(epfd, op, num, events, data) => CtlKeepsNothingStale(l, epfd, op, num, events, data);
    case Wait(epfd, maxevents) => ScanKeepsNothingStale(r, sh, l, epfd, maxevents);
    case Close(num) =>
      if num >= POLLFD_START {
        var f := FindPollfd(l, num);
        if f.Some? { TableKeepsNothingStale(l, DoClose(r, sh, l, num).local, f.value); }
      } else {
        CloseCallLeavesNothing(r, sh, l, other, b, num);
      }
    case _ =>
  }

  lemma CloseCallLeavesNothing(r: Role, sh: Shared, l: Local, other: Local, b: Book, num: int)
    requires Inv(sh, l, other) && Agrees(l, b) && NothingStale(l) && FindFd(l.fds, num).Some? && num < POLLFD_START
    requires forall epfd | epfd in b :: num !in b[epfd]
    ensures NothingStale(DoClose(r, sh, l, num).local)
  {
    hide Inv, Agrees, NumbersOk, PollfdsOk, NothingStale;
    LocalParts(sh, l, other);
    var i := FindFd(l.fds, num).value;
    NumberInRange(l, i);
    CloseSocketKeepsInv(r, sh, l, other, num);
    CloseLeavesNothing(l, b, i);
    assert DoClose(r, sh, l, num).local == Released(l, i);
  }

  lemma {:induction false} DisciplineIsEnough(s: Sys, r: Role, b: Book, moves: seq<Move>)
    requires SysInv(s) && Agrees(s.Loc(r), b) && NothingStale(s.Loc(r)) && Playable(s, moves) &&
             DeletesBeforeClose(s, r, b, moves)
    ensures NoStaleSlotTaken(s, r, moves)
    decreases |moves|
  {
    hide Inv, Apply, Agrees, TakesSlot, Note, NextSlotStale, AllocationOk, NothingStale;
    if moves != [] {
      var m := moves[0];
      var t := Step(s, m);
      NothingStaleIsFine(s.Loc(r));
      StepAgrees(s, r, b, m);
      StepKeepsInv(s, m);
      if m.role == r {
        if r == Client { InvSymmetric(s.shared, s.server, s.client); }
        CallKeepsNothingStale(r, s.shared, s.Loc(r), s.Loc(Other(r)), b, m.call);
      }
      DisciplineIsEnough(t.0, r, if m.role == r then Note(s.Loc(r), b, m.call, t.1) else b, moves[1..]);
    }
  }

  /** A process that removes every registration of a socket before it closes it never meets the exception. */
  lemma DeleteBeforeCloseIsEnough(s: Sys, r: Role, moves: seq<Move>)
    requires Initial(s) && Playable(s, moves) && DeletesBeforeClose(s, r, map[], moves)
    ensures NoStaleSlotTaken(s, r, moves)
  {
    hide Run, Playable, DeletesBeforeClose, NoStaleSlotTaken, Agrees;
    assert SysInv(s) by { InitialInv(s); }
    InitialAgrees(s, r);
    DisciplineIsEnough(s, r, map[], moves);
  }
}
