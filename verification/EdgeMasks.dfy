/**
 Edge-triggered event bits over whole runs, exactly: a bit is set if and only if it has been raised since it was
 last reported. Together with the delivery of pending bits this means that no wakeup is lost and none is spurious.
 */
module EdgeMasks {
  import opened Basics
  import opened Connections
  import opened Descriptors
  import opened Readiness
  import opened Duplex
  import opened Scanning
  import opened Reachability
  import opened Streams
  import opened ConnectReadiness

  /** Is the entry of a descriptor that was listening or connecting when the scan began? */
  predicate Raising(fds: seq<Fd>, lfds: seq<Listener>, e: Report) {
    && e.listener < |lfds| && lfds[e.listener].slot < |fds|
    && var state := fds[lfds[e.listener].slot].state; (state == SListen || state == SConnecting)
  }

  /**
   The mask of `p` after an entry: an edge-triggered entry takes the bits it reports, and a level-triggered one
   of a listening or connecting descriptor leaves EPOLLIN raised.
   */
  function AfterEntry(fds: seq<Fd>, lfds: seq<Listener>, mask: EventMask, e: Report, p: Ptr): EventMask {
    if e.conn != p then mask
    else if e.edge then ClearEvent(mask, e.events)
    else if Raising(fds, lfds, e) then SetEvent(mask, EPOLLIN)
    else mask
  }

  function AfterEntries(fds: seq<Fd>, lfds: seq<Listener>, mask: EventMask, log: seq<Report>, p: Ptr): EventMask
    decreases |log|
  {
    if log == [] then mask else AfterEntries(fds, lfds, AfterEntry(fds, lfds, mask, log[0], p), log[1..], p)
  }

  /** Does the call create the record `p`? */
  predicate MakesRecord(r: Role, sh: Shared, l: Local, call: Call, p: Ptr) {
    (Creates(r, sh, l, call) || (call.Listen? && StartsListen(l, call.num))) && call.block == p
  }

  /**
   What a call of role `r` makes of the mask that role `q` has in record `p`, from its arguments and its result:
   a send raises EPOLLIN and a close EPOLLHUP on the other side, and entries of epoll_pwait act on the own side.
   */
  function MaskAfter(r: Role, sh: Shared, l: Local, call: Call, out: Outcome, p: Ptr, q: Role,
                     mask: EventMask): EventMask
  {
    if MakesRecord(r, sh, l, call, p) then 0
    else match call
      case Send(num, _) =>
        if r != q && out.Ret? && ConnOf(l, num) == Some(p) then SetEvent(mask, EPOLLIN) else mask
      case Close(num) =>
        if r != q && out == Ret(0) && num < POLLFD_START && ConnOf(l, num) == Some(p) then SetEvent(mask, EPOLLHUP)
        else mask
      case Wait(epfd, _) =>
        if r == q && out.Events? && FindPollfd(l, epfd).Some? then
          AfterEntries(l.fds, l.pollfds[FindPollfd(l, epfd).value].lfds, mask, out.log, p)
        else mask
      case _ => mask
  }

  // ---------- one iteration of a scan ----------

  /** Clearing what is reported, and clearing the mask asked for, come to the same. */
  lemma ClearReported(events: EventMask, mask: EventMask)
    ensures ClearEvent(events, Among(events, mask)) == ClearEvent(events, mask)
  {
    assert !(events & mask) == !events | !mask;
    assert events & (!events | !mask) == (events & !events) | (events & !mask);
    assert events & !events == 0;
  }

  lemma RaisedIsReported(events: EventMask)
    ensures Among(SetEvent(events, EPOLLIN), EPOLLIN) == EPOLLIN
    ensures ClearEvent(SetEvent(events, EPOLLIN), EPOLLIN) == ClearEvent(events, EPOLLIN)
  {
  }

  /** The new entry of an iteration, if any, accounts for the mask of every record. */
  predicate Accounts(r: Role, fds: seq<Fd>, s: Scan, t: Scan, p: Ptr) {
    && p in s.shared.conns && p in t.shared.conns
    && t.shared.conns[p].Own(Other(r)).events == s.shared.conns[p].Own(Other(r)).events
    && var mask, mask' := s.shared.conns[p].Own(r).events, t.shared.conns[p].Own(r).events;
       (t.log == s.log && mask' == mask) ||
       (|t.log| == |s.log| + 1 && s.log <= t.log && mask' == AfterEntry(fds, s.lfds, mask, t.log[|s.log|], p))
  }

  /** checkAndSetEvents takes the edge bits it reports, and leaves them alone when it looks at levels. */
  lemma CheckTakes(s: Scan, r: Role, j: nat, q: Ptr, special: bool, mask: EventMask, p: Ptr)
    requires j < |s.lfds| && q in s.shared.conns && p in s.shared.conns
    ensures var t := CheckAndSetEvents(s, r, j, q, special, mask);
            && p in t.shared.conns
            && t.shared.conns[p].Own(Other(r)).events == s.shared.conns[p].Own(Other(r)).events
            && if t.log == s.log then t.shared.conns[p].Own(r).events == s.shared.conns[p].Own(r).events
               else
                 && |t.log| == |s.log| + 1 && s.log <= t.log
                 && var e := t.log[|s.log|];
                    && e.listener == j && e.conn == q && e.edge == !s.lfds[j].level
                    && (e.edge ==> e.events == Among(s.shared.conns[q].Own(r).events, mask))
                    && t.shared.conns[p].Own(r).events ==
                       if e.edge && p == q then ClearEvent(s.shared.conns[p].Own(r).events, mask)
                       else s.shared.conns[p].Own(r).events
    ensures IsEventSet(if s.lfds[j].level then s.shared.conns[q].Own(r).ltEvents
                       else s.shared.conns[q].Own(r).events, mask) && special ==>
              CheckAndSetEvents(s, r, j, q, special, mask).log != s.log
  {
    hide SetEvent, ClearEvent, Among, IsEventSet, LevelMask;
  }

  lemma CheckAccounts(s: Scan, r: Role, j: nat, q: Ptr, p: Ptr)
    requires j < |s.lfds| && q in s.shared.conns && p in s.shared.conns && s.lfds[j].slot < |s.fds|
    requires s.fds[s.lfds[j].slot].state != SListen && s.fds[s.lfds[j].slot].state != SConnecting
    ensures Accounts(r, s.fds, s, CheckAndSetEvents(s, r, j, q, false, s.lfds[j].events), p)
  {
    hide ClearEvent, Among, IsEventSet, CheckAndSetEvents;
    CheckTakes(s, r, j, q, false, s.lfds[j].events, p);
    ClearReported(s.shared.conns[q].Own(r).events, s.lfds[j].events);
  }

  /** EPOLLIN raised for a listening or connecting descriptor is always reported. */
  lemma RaiseAccounts(s: Scan, r: Role, j: nat, q: Ptr, p: Ptr)
    requires j < |s.lfds| && q in s.shared.conns && p in s.shared.conns && s.lfds[j].slot < |s.fds|
    requires s.fds[s.lfds[j].slot].state == SListen || s.fds[s.lfds[j].slot].state == SConnecting
    ensures Accounts(r, s.fds, s, RaiseInput(s, r, j, q), p)
  {
    hide SetEvent, ClearEvent, Among, IsEventSet, CheckAndSetEvents;
    var own := s.shared.conns[q].Own(r);
    var t := s.PutOwn(r, q, SetEvent(own.events, EPOLLIN), SetEvent(own.ltEvents, EPOLLIN));
    CheckTakes(t, r, j, q, true, EPOLLIN, p);
    RaisedIsReported(own.events);
    SetEventSets(own.events, EPOLLIN);
    SetEventSets(own.ltEvents, EPOLLIN);
  }

  lemma VisitAccounts(s: Scan, r: Role, interfaces: seq<Option<nat>>, j: nat, p: Ptr)
    requires j < |s.lfds| && p in s.shared.conns
    ensures Accounts(r, s.fds, s, Visit(s, r, interfaces, j), p)
  {
    hide RaiseInput, CheckAndSetEvents, PickOnTable, AfterEntry, ClearEvent;
    var lfd := s.lfds[j];
    if Live(s.fds, lfd) && Deref(s.shared, s.fds[lfd.slot].pConn).Some? {
      var q := s.fds[lfd.slot].pConn.value;
      if s.fds[lfd.slot].state == SListen || s.fds[lfd.slot].state == SConnecting {
        RaiseAccounts(s, r, j, q, p);
      } else {
        CheckAccounts(s, r, j, q, p);
      }
    }
  }

  // ---------- a whole scan ----------

  /** From registration `j` on, the scan still sees what it saw at its beginning. */
  ghost predicate AsAtStart(s: Scan, fds: seq<Fd>, lfds: seq<Listener>, j: nat) {
    && |s.fds| == |fds| && |s.lfds| == |lfds|
    && (forall n | 0 <= n < |lfds| :: s.lfds[n].slot == lfds[n].slot)
    && (forall n | j <= n < |lfds| && Live(s.fds, s.lfds[n]) :: s.fds[lfds[n].slot] == fds[lfds[n].slot])
  }

  /** Active registrations have slots of their own. */
  ghost predicate SlotsApart(lfds: seq<Listener>) {
    forall a, b | 0 <= a < b < |lfds| && lfds[a].active && lfds[b].active :: lfds[a].slot != lfds[b].slot
  }

  lemma VisitStaysAsAtStart(s: Scan, r: Role, interfaces: seq<Option<nat>>, j: nat, fds: seq<Fd>, lfds: seq<Listener>)
    requires ScanReady(s) && SlotsApart(s.lfds) && j < |s.lfds| && AsAtStart(s, fds, lfds, j)
    ensures var t := Visit(s, r, interfaces, j);
            ScanReady(t) && SlotsApart(t.lfds) && AsAtStart(t, fds, lfds, j + 1)
  {
    hide Visit, ScanReady, ConnsFrame;
    var t := Visit(s, r, interfaces, j);
    VisitFrame(s, r, interfaces, j);
    FramePreservesReady(r, s, t);
    SameSlots(r, s, t);
    if Live(s.fds, s.lfds[j]) && s.fds[s.lfds[j].slot].state == SConnecting {
      VisitConnecting(s, r, interfaces, j);
    } else {
      VisitOther(s, r, interfaces, j);
    }
  }

  lemma SameRaising(s: Scan, fds: seq<Fd>, lfds: seq<Listener>, j: nat, e: Report)
    requires AsAtStart(s, fds, lfds, j) && j < |lfds| && Live(s.fds, s.lfds[j]) && e.listener == j
    ensures Raising(fds, lfds, e) == Raising(s.fds, s.lfds, e)
  {
  }

  lemma VisitEntry(s: Scan, r: Role, interfaces: seq<Option<nat>>, j: nat, p: Ptr, fds: seq<Fd>, lfds: seq<Listener>)
    requires ScanReady(s) && AsAtStart(s, fds, lfds, j) && j < |s.lfds| && p in s.shared.conns
    ensures var t := Visit(s, r, interfaces, j);
            && s.log <= t.log && p in t.shared.conns
            && t.shared.conns[p].Own(Other(r)).events == s.shared.conns[p].Own(Other(r)).events
            && t.shared.conns[p].Own(r).events ==
               AfterEntries(fds, lfds, s.shared.conns[p].Own(r).events, t.log[|s.log|..], p)
  {
    hide Visit, ScanReady, Raising, ClearEvent, SetEvent;
    var t := Visit(s, r, interfaces, j);
    VisitAccounts(s, r, interfaces, j, p);
    if !Live(s.fds, s.lfds[j]) {
      VisitUnreported(s, r, interfaces, j);
      assert t.log[|s.log|..] == [];
    } else if t.log == s.log {
      assert t.log[|s.log|..] == [];
    } else {
      var e := t.log[|s.log|];
      assert e.listener == j by { NewEntryIsOwn(s, r, interfaces, j); }
      SameRaising(s, fds, lfds, j, e);
      assert t.log[|s.log|..] == [e];
      OneEntry(fds, lfds, s.shared.conns[p].Own(r).events, e, p);
    }
  }

  lemma NewEntryIsOwn(s: Scan, r: Role, interfaces: seq<Option<nat>>, j: nat)
    requires ScanReady(s) && j < |s.lfds| && Live(s.fds, s.lfds[j])
    ensures var t := Visit(s, r, interfaces, j);
            s.log <= t.log && forall a | |s.log| <= a < |t.log| :: t.log[a].listener == j
  {
    VisitOpens(s, r, interfaces, j, s.lfds[j].slot);
  }

  lemma OneEntry(fds: seq<Fd>, lfds: seq<Listener>, mask: EventMask, e: Report, p: Ptr)
    ensures AfterEntries(fds, lfds, mask, [e], p) == AfterEntry(fds, lfds, mask, e, p)
  {
    hide AfterEntry;
    assert [e][1..] == [];
  }

  lemma {:induction false} EntriesInTurn(fds: seq<Fd>, lfds: seq<Listener>, mask: EventMask, a: seq<Report>,
                                         b: seq<Report>,
                                         p: Ptr)
    ensures AfterEntries(fds, lfds, mask, a + b, p) ==
              AfterEntries(fds, lfds, AfterEntries(fds, lfds, mask, a, p), b, p)
    decreases |a|
  {
    hide AfterEntry;
    if a == [] {
      assert a + b == b;
    } else {
      assert (a + b)[1..] == a[1..] + b;
      EntriesInTurn(fds, lfds, AfterEntry(fds, lfds, mask, a[0], p), a[1..], b, p);
    }
  }

  /** After a scan the mask of each record is what the entries of the scan make of it; the other side's is untouched. */
  lemma {:induction false} ScanAccounts(s: Scan, r: Role, interfaces: seq<Option<nat>>, j: nat, maxevents: int, p: Ptr,
                                        fds: seq<Fd>, lfds: seq<Listener>)
    requires ScanReady(s) && SlotsApart(s.lfds) && AsAtStart(s, fds, lfds, j) && p in s.shared.conns
    ensures var t := ScanFrom(s, r, interfaces, j, maxevents);
            && s.log <= t.log && p in t.shared.conns
            && t.shared.conns[p].Own(Other(r)).events == s.shared.conns[p].Own(Other(r)).events
            && t.shared.conns[p].Own(r).events ==
               AfterEntries(fds, lfds, s.shared.conns[p].Own(r).events, t.log[|s.log|..], p)
    decreases |s.lfds| - j
  {
    hide Visit, ScanReady, SlotsApart, AsAtStart, AfterEntry;
    var t := ScanFrom(s, r, interfaces, j, maxevents);
    if j < |s.lfds| && |s.log| < maxevents && !s.undefined {
      var u := Visit(s, r, interfaces, j);
      VisitEntry(s, r, interfaces, j, p, fds, lfds);
      VisitStaysAsAtStart(s, r, interfaces, j, fds, lfds);
      ScanAccounts(u, r, interfaces, j + 1, maxevents, p, fds, lfds);
      var mask := s.shared.conns[p].Own(r).events;
      assert t.log[|s.log|..] == u.log[|s.log|..] + t.log[|u.log|..];
      EntriesInTurn(fds, lfds, mask, u.log[|s.log|..], t.log[|u.log|..], p);
    } else {
      assert t.log[|s.log|..] == [];
    }
  }

  // ---------- one call ----------

  /** The mask of `p` for `q` after a call is what the arguments and the result of the call make of it. */
  ghost predicate StepAccounts(r: Role, sh: Shared, l: Local, call: Call, p: Ptr, q: Role) {
    var e := Apply(r, sh, l, call);
    p in e.shared.conns ==>
      (p in sh.conns || MakesRecord(r, sh, l, call, p)) &&
      e.shared.conns[p].Own(q).events ==
      MaskAfter(r, sh, l, call, e.out, p, q, if p in sh.conns then sh.conns[p].Own(q).events else 0)
  }

  lemma ScanCallAccounts(r: Role, sh: Shared, l: Local, other: Local, epfd: int, maxevents: int, p: Ptr, q: Role)
    requires Inv(sh, l, other)
    ensures StepAccounts(r, sh, l, Wait(epfd, maxevents), p, q)
  {
    hide Inv, ScanFrom, ScanReady, FdsOk, NumbersOk, ConnsFrame, AfterEntries;
    InvGivesLocal(sh, l, other);
    var k := FindPollfd(l, epfd);
    if k.Some? {
      var s := StartScan(sh, l, k.value);
      TableIsReady(sh, l, k.value);
      assert SlotsApart(s.lfds) by { assert TableOk(l.pollfds[k.value].lfds); }
      var t := ScanFrom(s, r, l.interfaces, 0, maxevents);
      ScanKeepsKeys(r, s, l.interfaces, maxevents);
      if p in sh.conns {
        ScanAccounts(s, r, l.interfaces, 0, maxevents, p, l.fds, s.lfds);
        assert t.log[0..] == t.log;
      }
    }
  }

  lemma SendAccounts(r: Role, sh: Shared, l: Local, num: int, data: seq<Byte>, p: Ptr, q: Role)
    ensures StepAccounts(r, sh, l, Send(num, data), p, q)
  {
    hide SetEvent;
  }

  lemma RecvAccounts(r: Role, sh: Shared, l: Local, num: int, len: nat, dontwait: bool, p: Ptr, q: Role)
    ensures StepAccounts(r, sh, l, Recv(num, len, dontwait), p, q)
  {
    hide RecvConnection;
    var c := Deref(sh, ConnOf(l, num));
    if c.Some? { RecvKeepsRest(c.value, r, len); }
  }

  lemma AcceptAccounts(r: Role, sh: Shared, l: Local, num: int, nonblock: bool, named: bool, p: Ptr, q: Role)
    ensures StepAccounts(r, sh, l, Accept(num, nonblock, named), p, q)
  {
    hide PickOnTable, GetPeerName;
  }

  lemma CloseAccounts(r: Role, sh: Shared, l: Local, other: Local, num: int, p: Ptr, q: Role)
    requires Inv(sh, l, other)
    ensures StepAccounts(r, sh, l, Close(num), p, q)
  {
    hide SetEvent, RemoveFirst, NumbersOk, PollfdsOk, CountsOk, ListsOk;
    var i := FindFd(l.fds, num);
    if i.Some? { assert FdOk(sh, l.fds[i.value]); }
  }

  lemma CreationAccounts(r: Role, sh: Shared, l: Local, call: Call, p: Ptr, q: Role)
    requires call.Listen? || call.Connect? || call.ConnectEx?
    ensures StepAccounts(r, sh, l, call, p, q)
  {
    hide InterfaceBySockaddr, DoConnect, DoConnectEx, StartsConnect;
    if !call.Listen? { CreationShape(r, sh, l, call); }
  }

  lemma CallAccounts(r: Role, sh: Shared, l: Local, other: Local, call: Call, p: Ptr, q: Role)
    requires Inv(sh, l, other)
    ensures StepAccounts(r, sh, l, call, p, q)
  {
    hide DoSend, DoRecv, DoAccept, DoClose, DoScan, DoConnect, DoConnectEx, DoListen, Inv, CtlTable;
    match call
    case Wait(epfd, maxevents) => ScanCallAccounts(r, sh, l, other, epfd, maxevents, p, q);
    case Close(num) => CloseAccounts(r, sh, l, other, num, p, q);
    case Send(num, data) => SendAccounts(r, sh, l, num, data, p, q);
    case Recv(num, len, dontwait) => RecvAccounts(r, sh, l, num, len, dontwait, p, q);
    case Accept(num, nonblock, named) => AcceptAccounts(r, sh, l, num, nonblock, named, p, q);
    case Listen(_, _) => CreationAccounts(r, sh, l, call, p, q);
    case Connect(_, _, _, _) => CreationAccounts(r, sh, l, call, p, q);
    case ConnectEx(_, _, _, _) => CreationAccounts(r, sh, l, call, p, q);
    case _ =>
  }

  // ---------- whole runs ----------

  /** The mask of record `p` for `q` after a run, computed from the calls and their results only. */
  function MaskSince(s: Sys, moves: seq<Move>, p: Ptr, q: Role, mask: EventMask): EventMask
    decreases |moves|
  {
    if moves == [] then mask
    else
      var m := moves[0];
      var t := Step(s, m);
      MaskSince(t.0, moves[1..], p, q, MaskAfter(m.role, s.shared, s.Loc(m.role), m.call, t.1, p, q, mask))
  }

  lemma StepMask(s: Sys, m: Move, p: Ptr, q: Role, mask: EventMask)
    requires SysInv(s) && (p in s.shared.conns ==> mask == s.shared.conns[p].Own(q).events)
    ensures var t := Step(s, m);
            p in t.0.shared.conns ==>
              t.0.shared.conns[p].Own(q).events ==
              MaskAfter(m.role, s.shared, s.Loc(m.role), m.call, t.1, p, q, mask)
  {
    hide Inv, Apply, AfterEntries, MakesRecord;
    if m.role == Client { InvSymmetric(s.shared, s.server, s.client); }
    CallAccounts(m.role, s.shared, s.Loc(m.role), s.Loc(Other(m.role)), m.call, p, q);
  }

  /**
   In every reachable state, and after any further moves, each edge-triggered mask is exactly what the calls and
   their results make of it: a bit is set if and only if it was raised after it was last reported.
   */
  lemma {:induction false} MaskIsHistory(s: Sys, moves: seq<Move>, p: Ptr, q: Role, mask: EventMask)
    requires SysInv(s) && Playable(s, moves) && p in Run(s, moves).shared.conns
    requires p in s.shared.conns ==> mask == s.shared.conns[p].Own(q).events
    ensures Run(s, moves).shared.conns[p].Own(q).events == MaskSince(s, moves, p, q, mask)
    decreases |moves|
  {
    hide Inv, Apply, MaskAfter, AllocationOk;
    if moves != [] {
      var m := moves[0];
      var t := Step(s, m);
      StepMask(s, m, p, q, mask);
      StepKeepsInv(s, m);
      MaskIsHistory(t.0, moves[1..], p, q, MaskAfter(m.role, s.shared, s.Loc(m.role), m.call, t.1, p, q, mask));
    }
  }

  // ---------- no spurious wakeup ----------

  /** A level-triggered entry of a listening or connecting descriptor on `p`: it leaves EPOLLIN raised. */
  predicate LevelRaises(fds: seq<Fd>, lfds: seq<Listener>, e: Report, p: Ptr) {
    !e.edge && e.conn == p && Raising(fds, lfds, e)
  }

  ghost predicate NoneRaises(fds: seq<Fd>, lfds: seq<Listener>, log: seq<Report>, from: nat, p: Ptr) {
    forall a | from <= a < |log| :: !LevelRaises(fds, lfds, log[a], p)
  }

  lemma BitOfSet(mask: EventMask, bits: EventMask, event: EventMask)
    requires !IsEventSet(mask, event) && !IsEventSet(bits, event)
    ensures !IsEventSet(SetEvent(mask, bits), event)
  {
    assert (mask | bits) & event == (mask & event) | (bits & event);
  }

  lemma BitOfPart(mask: EventMask, wanted: EventMask, event: EventMask)
    requires !IsEventSet(mask, event)
    ensures !IsEventSet(ClearEvent(mask, wanted), event) && !IsEventSet(Among(mask, wanted), event)
  {
  }

  /** Entries that raise nothing keep a clear bit clear. */
  lemma {:induction false} EntriesKeepClear(fds: seq<Fd>, lfds: seq<Listener>, mask: EventMask, log: seq<Report>,
                                            p: Ptr,
                                            event: EventMask)
    requires NoneRaises(fds, lfds, log, 0, p) && !IsEventSet(mask, event)
    ensures !IsEventSet(AfterEntries(fds, lfds, mask, log, p), event)
    decreases |log|
  {
    hide IsEventSet, ClearEvent, SetEvent, Raising;
    if log != [] {
      assert !LevelRaises(fds, lfds, log[0], p);
      BitOfPart(mask, log[0].events, event);
      forall a | 0 <= a < |log[1..]| ensures !LevelRaises(fds, lfds, log[1..][a], p) {
        assert log[1..][a] == log[a + 1];
      }
      EntriesKeepClear(fds, lfds, AfterEntry(fds, lfds, mask, log[0], p), log[1..], p, event);
    }
  }

  /** An edge-triggered entry of any other descriptor reports only bits that were set. */
  lemma EntryWasSet(s: Scan, r: Role, interfaces: seq<Option<nat>>, j: nat, p: Ptr, event: EventMask, a: nat)
    requires j < |s.lfds| && p in s.shared.conns && !IsEventSet(s.shared.conns[p].Own(r).events, event)
    requires var t := Visit(s, r, interfaces, j);
             |s.log| <= a < |t.log| && t.log[a].edge && t.log[a].conn == p && !Raising(s.fds, s.lfds, t.log[a])
    ensures !IsEventSet(Visit(s, r, interfaces, j).log[a].events, event)
  {
    hide RaiseInput, CheckAndSetEvents, PickOnTable, ClearEvent, IsEventSet, SetEvent, Among;
    var lfd := s.lfds[j];
    if Live(s.fds, lfd) && Deref(s.shared, s.fds[lfd.slot].pConn).Some? {
      var q := s.fds[lfd.slot].pConn.value;
      if s.fds[lfd.slot].state == SListen || s.fds[lfd.slot].state == SConnecting {
        RaiseEntry(s, r, j, q);
      } else {
        CheckTakes(s, r, j, q, false, lfd.events, p);
        BitOfPart(s.shared.conns[p].Own(r).events, lfd.events, event);
      }
    }
  }

  lemma RaiseEntry(s: Scan, r: Role, j: nat, q: Ptr)
    requires j < |s.lfds| && q in s.shared.conns
    ensures var t := RaiseInput(s, r, j, q);
            s.log <= t.log && forall a | |s.log| <= a < |t.log| :: t.log[a].listener == j
  {
    hide ClearEvent, IsEventSet, SetEvent, Among, CheckAndSetEvents;
    var own := s.shared.conns[q].Own(r);
    var t := s.PutOwn(r, q, SetEvent(own.events, EPOLLIN), SetEvent(own.ltEvents, EPOLLIN));
    CheckTakes(t, r, j, q, true, EPOLLIN, q);
  }

  lemma {:induction false} ScanReportsSet(s: Scan, r: Role, interfaces: seq<Option<nat>>, j: nat, maxevents: int,
                                          p: Ptr,
                                          fds: seq<Fd>, lfds: seq<Listener>, event: EventMask, a: nat)
    requires ScanReady(s) && SlotsApart(s.lfds) && AsAtStart(s, fds, lfds, j) && p in s.shared.conns
    requires !IsEventSet(s.shared.conns[p].Own(r).events, event)
    requires var t := ScanFrom(s, r, interfaces, j, maxevents);
             && NoneRaises(fds, lfds, t.log, |s.log|, p) && |s.log| <= a < |t.log|
             && t.log[a].edge && t.log[a].conn == p && !Raising(fds, lfds, t.log[a])
    ensures !IsEventSet(ScanFrom(s, r, interfaces, j, maxevents).log[a].events, event)
    decreases |s.lfds| - j
  {
    hide Visit, ScanReady, SlotsApart, AsAtStart, Raising, IsEventSet, AfterEntries, LevelRaises;
    var t := ScanFrom(s, r, interfaces, j, maxevents);
    var u := Visit(s, r, interfaces, j);
    VisitEntry(s, r, interfaces, j, p, fds, lfds);
    VisitStaysAsAtStart(s, r, interfaces, j, fds, lfds);
    ScanAccounts(u, r, interfaces, j + 1, maxevents, p, fds, lfds);
    if a < |u.log| {
      assert u.log[a] == t.log[a];
      if Live(s.fds, s.lfds[j]) {
        NewEntryIsOwn(s, r, interfaces, j);
        SameRaising(s, fds, lfds, j, u.log[a]) by { SameLengths(s, fds, lfds, j); }
      } else {
        VisitUnreported(s, r, interfaces, j);
      }
      EntryWasSet(s, r, interfaces, j, p, event, a);
    } else {
      forall b | 0 <= b < |u.log[|s.log|..]| ensures !LevelRaises(fds, lfds, u.log[|s.log|..][b], p) {
        assert u.log[|s.log|..][b] == t.log[|s.log| + b];
      }
      EntriesKeepClear(fds, lfds, s.shared.conns[p].Own(r).events, u.log[|s.log|..], p, event);
      ScanReportsSet(u, r, interfaces, j + 1, maxevents, p, fds, lfds, event, a);
    }
  }

  lemma SameLengths(s: Scan, fds: seq<Fd>, lfds: seq<Listener>, j: nat)
    requires AsAtStart(s, fds, lfds, j)
    ensures |s.lfds| == |lfds| && |s.fds| == |fds|
  {
  }

  /** The table that a call of epoll_pwait scans. */
  function TableOf(l: Local, epfd: int): seq<Listener> {
    if FindPollfd(l, epfd).Some? then l.pollfds[FindPollfd(l, epfd).value].lfds else []
  }

  /** The move raises `event` in the mask of `q` on record `p`. */
  ghost predicate RaisesBit(s: Sys, m: Move, p: Ptr, q: Role, event: EventMask) {
    var l, out := s.Loc(m.role), Step(s, m).1;
    match m.call
    case Send(num, _) => m.role != q && out.Ret? && ConnOf(l, num) == Some(p) && IsEventSet(EPOLLIN, event)
    case Close(num) => m.role != q && out == Ret(0) && ConnOf(l, num) == Some(p) && IsEventSet(EPOLLHUP, event)
    case Wait(epfd, _) =>
      m.role == q && out.Events? && IsEventSet(EPOLLIN, event) && !NoneRaises(l.fds, TableOf(l, epfd), out.log, 0, p)
    case _ => false
  }

  ghost predicate NeverRaised(s: Sys, moves: seq<Move>, p: Ptr, q: Role, event: EventMask)
    decreases |moves|
  {
    moves == [] || (!RaisesBit(s, moves[0], p, q, event) && NeverRaised(Step(s, moves[0]).0, moves[1..], p, q, event))
  }

  /** A move that does not raise a bit does not set it. */
  lemma UnraisedStaysClear(s: Sys, m: Move, p: Ptr, q: Role, event: EventMask)
    requires SysInv(s) && !RaisesBit(s, m, p, q, event)
    requires p in s.shared.conns ==> !IsEventSet(s.shared.conns[p].Own(q).events, event)
    ensures var t := Step(s, m).0; p in t.shared.conns ==> !IsEventSet(t.shared.conns[p].Own(q).events, event)
  {
    hide Inv, Apply, AfterEntries, IsEventSet, SetEvent, Creates, NoneRaises;
    var mask := if p in s.shared.conns then s.shared.conns[p].Own(q).events else 0;
    NothingIsClear(event);
    StepMask(s, m, p, q, mask);
    var l, out := s.Loc(m.role), Step(s, m).1;
    match m.call
    case Send(_, _) => if !IsEventSet(EPOLLIN, event) { BitOfSet(mask, EPOLLIN, event); }
    case Close(_) => if !IsEventSet(EPOLLHUP, event) { BitOfSet(mask, EPOLLHUP, event); }
    case Wait(epfd, _) =>
      if m.role == q && out.Events? && FindPollfd(l, epfd).Some? {
        EntriesLeaveClear(l.fds, TableOf(l, epfd), mask, out.log, p, event);
      }
    case _ =>
  }

  lemma NothingIsClear(event: EventMask)
    ensures !IsEventSet(0, event)
  {
  }

  /** A bit stays clear through entries that raise nothing, and any but EPOLLIN through all entries. */
  lemma {:induction false} EntriesLeaveClear(fds: seq<Fd>, lfds: seq<Listener>, mask: EventMask, log: seq<Report>,
                                             p: Ptr,
                                             event: EventMask)
    requires !IsEventSet(mask, event) && (IsEventSet(EPOLLIN, event) ==> NoneRaises(fds, lfds, log, 0, p))
    ensures !IsEventSet(AfterEntries(fds, lfds, mask, log, p), event)
    decreases |log|
  {
    hide IsEventSet, ClearEvent, SetEvent, Raising;
    if IsEventSet(EPOLLIN, event) {
      EntriesKeepClear(fds, lfds, mask, log, p, event);
    } else if log != [] {
      BitOfPart(mask, log[0].events, event);
      BitOfSet(mask, EPOLLIN, event);
      EntriesLeaveClear(fds, lfds, AfterEntry(fds, lfds, mask, log[0], p), log[1..], p, event);
    }
  }

  lemma {:induction false} RunStaysClear(s: Sys, moves: seq<Move>, p: Ptr, q: Role, event: EventMask)
    requires SysInv(s) && Playable(s, moves) && NeverRaised(s, moves, p, q, event)
    requires p in s.shared.conns ==> !IsEventSet(s.shared.conns[p].Own(q).events, event)
    ensures var t := Run(s, moves); p in t.shared.conns ==> !IsEventSet(t.shared.conns[p].Own(q).events, event)
    decreases |moves|
  {
    hide Inv, Apply, IsEventSet, RaisesBit, AllocationOk;
    if moves != [] {
      UnraisedStaysClear(s, moves[0], p, q, event);
      StepKeepsInv(s, moves[0]);
      RunStaysClear(Step(s, moves[0]).0, moves[1..], p, q, event);
    }
  }

  /** Entry `a` of `log` is an edge-triggered report of `event` on `p`, by a descriptor that did not raise it itself. */
  predicate ReportsBit(fds: seq<Fd>, lfds: seq<Listener>, log: seq<Report>, a: nat, p: Ptr, event: EventMask) {
    a < |log| && log[a].edge && log[a].conn == p && IsEventSet(log[a].events, event) && !Raising(fds, lfds, log[a])
  }

  /**
   No spurious wakeup. Let a bit be clear, as it is once it has been reported, and let nobody raise it: the peer
   sends nothing (EPOLLIN) or does not close (EPOLLHUP), and no level-triggered entry of a connecting descriptor
   raises EPOLLIN. Then, whatever else both processes do, the bit stays clear, and no edge-triggered entry reports
   it, except EPOLLIN for a descriptor that is listening or connecting itself.
   */
  lemma NoSpuriousWakeup(s: Sys, moves: seq<Move>, p: Ptr, q: Role, event: EventMask, epfd: int, maxevents: int, a: nat)
    requires SysInv(s) && Playable(s, moves) && NeverRaised(s, moves, p, q, event)
    requires p in s.shared.conns ==> !IsEventSet(s.shared.conns[p].Own(q).events, event)
    requires p in Run(s, moves).shared.conns
    ensures !IsEventSet(Run(s, moves).shared.conns[p].Own(q).events, event)
    ensures var u := Run(s, moves);
            var out := DoScan(q, u.shared, u.Loc(q), epfd, maxevents).out;
            var fds, lfds := u.Loc(q).fds, TableOf(u.Loc(q), epfd);
            out.Events? && NoneRaises(fds, lfds, out.log, 0, p) ==>
              !ReportsBit(fds, lfds, out.log, a, p, event)
  {
    hide SysInv, Inv, Run, Playable, NeverRaised, IsEventSet, Raising, NoneRaises, ScanFrom, ScanReady, FdsOk,
        NumbersOk, AsAtStart, SlotsApart;
    RunStaysClear(s, moves, p, q, event);
    RunKeepsInv(s, moves);
    var u := Run(s, moves);
    var l := u.Loc(q);
    var k := FindPollfd(l, epfd);
    if k.Some? {
      assert LocalOk(u.shared, l) by { LocIsOk(u, q); }
      var start := StartScan(u.shared, l, k.value);
      TableIsReady(u.shared, l, k.value);
      assert SlotsApart(start.lfds) by { TableIsApart(l, k.value); }
      assert AsAtStart(start, l.fds, start.lfds, 0) by { StartIsAsAtStart(start); }
      var t := ScanFrom(start, q, l.interfaces, 0, maxevents);
      if NoneRaises(l.fds, start.lfds, t.log, 0, p) && a < |t.log| && t.log[a].edge && t.log[a].conn == p &&
        !Raising(l.fds, start.lfds, t.log[a])
      {
        ScanReportsSet(start, q, l.interfaces, 0, maxevents, p, l.fds, start.lfds, event, a);
      }
    }
  }

  lemma LocIsOk(s: Sys, r: Role)
    requires SysInv(s)
    ensures LocalOk(s.shared, s.Loc(r))
  {
    hide LocalOk;
  }

  lemma TableIsApart(l: Local, k: nat)
    requires PollfdsOk(l) && k < |l.pollfds|
    ensures SlotsApart(l.pollfds[k].lfds)
  {
    assert TableOk(l.pollfds[k].lfds);
  }

  lemma StartIsAsAtStart(s: Scan)
    ensures AsAtStart(s, s.fds, s.lfds, 0)
  {
  }
}
