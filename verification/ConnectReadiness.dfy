/** What a scan does to connecting descriptors: it opens exactly those it reports, so that they can be used. */
module ConnectReadiness {
  import opened Basics
  import opened Connections
  import opened Descriptors
  import opened Readiness
  import opened Duplex
  import opened Scanning
  import opened Reachability
  import opened LevelTriggered

  /** Some entry of `log` from the `from`-th on is of a registration with slot `i`. */
  ghost predicate ReportsSlot(lfds: seq<Listener>, log: seq<Report>, from: nat, i: nat) {
    exists a | from <= a < |log| :: log[a].listener < |lfds| && lfds[log[a].listener].slot == i
  }

  predicate Connecting(fd: Fd) {
    fd.active && fd.state == SConnecting
  }

  /** The descriptor in a slot after a scan, given whether an entry of the slot was reported. */
  function AfterScan(fd: Fd, reported: bool): Fd {
    if Connecting(fd) && reported then fd.(state := SOpen) else fd
  }

  lemma CheckEntry(s: Scan, r: Role, j: nat, p: Ptr, mask: EventMask)
    requires j < |s.lfds| && p in s.shared.conns
    ensures var t := CheckAndSetEvents(s, r, j, p, false, mask);
            t.log == s.log || (|t.log| == |s.log| + 1 && s.log <= t.log && t.log[|s.log|].listener == j)
  {
    hide SetEvent, ClearEvent, Among, IsEventSet, LevelMask;
  }

  /** The iteration of a connecting descriptor: accepted ones are reported and opened, the others neither. */
  lemma VisitConnecting(s: Scan, r: Role, interfaces: seq<Option<nat>>, j: nat)
    requires ScanReady(s) && j < |s.lfds| && Live(s.fds, s.lfds[j]) && s.fds[s.lfds[j].slot].state == SConnecting
    ensures var slot := s.lfds[j].slot;
            var fd := s.fds[slot];
            var t := Visit(s, r, interfaces, j);
            && Deref(s.shared, fd.pConn).Some?
            && if Deref(s.shared, fd.pConn).value.connState == COpen
               then t.fds == s.fds[slot := fd.(state := SOpen)] && |t.log| == |s.log| + 1 && s.log <= t.log &&
                    t.log[|s.log|].listener == j
               else t.fds == s.fds && t.log == s.log
  {
    hide PickOnTable, RaiseInput, LowerInput, CheckAndSetEvents;
    var slot := s.lfds[j].slot;
    var fd := s.fds[slot];
    assert FdOk(s.shared, fd);
    var p := fd.pConn.value;
    RaiseInputFrame(s, r, j, p);
    RaiseReports(s, r, j, p);
    LowerInputFrame(s, r, p);
    LowerKeepsFds(s, r, p);
    FoundFd(s.fds, slot, fd.num);
    RaiseKeepsOpen(s, r, j, p);
  }

  lemma RaiseKeepsOpen(s: Scan, r: Role, j: nat, p: Ptr)
    requires j < |s.lfds| && p in s.shared.conns
    ensures var t := RaiseInput(s, r, j, p);
            p in t.shared.conns && t.shared.conns[p].connState == s.shared.conns[p].connState
  {
    RaiseInputFrame(s, r, j, p);
  }

  /** The iteration of any other registration changes no descriptor. */
  lemma VisitOther(s: Scan, r: Role, interfaces: seq<Option<nat>>, j: nat)
    requires j < |s.lfds| && (Live(s.fds, s.lfds[j]) ==> s.fds[s.lfds[j].slot].state != SConnecting)
    ensures var t := Visit(s, r, interfaces, j);
            && t.fds == s.fds
            && (t.log == s.log || (|t.log| == |s.log| + 1 && s.log <= t.log && t.log[|s.log|].listener == j))
  {
    hide PickOnTable, RaiseInput, LowerInput, CheckAndSetEvents, CompleteConnect, ConnsFrame, FdsFrame, ListenersFrame;
    var lfd := s.lfds[j];
    if Live(s.fds, lfd) && Deref(s.shared, s.fds[lfd.slot].pConn).Some? {
      var p := s.fds[lfd.slot].pConn.value;
      RaiseInputFrame(s, r, j, p);
      RaiseReports(s, r, j, p);
      LowerInputFrame(s, r, p);
      LowerKeepsFds(s, r, p);
      CheckFrame(s, r, j, p, false, lfd.events);
      CheckEntry(s, r, j, p, lfd.events);
    }
  }

  /** One iteration: a connecting descriptor is opened if and only if it is reported, and nothing else changes. */
  lemma VisitOpens(s: Scan, r: Role, interfaces: seq<Option<nat>>, j: nat, i: nat)
    requires ScanReady(s) && j < |s.lfds| && i < |s.fds|
    ensures var t := Visit(s, r, interfaces, j);
            && s.log <= t.log && (forall a | |s.log| <= a < |t.log| :: t.log[a].listener == j)
            && |t.fds| == |s.fds| && t.fds[i] == AfterScan(s.fds[i], t.log != s.log && s.lfds[j].slot == i)
  {
    hide Visit, ScanReady;
    if Live(s.fds, s.lfds[j]) && s.fds[s.lfds[j].slot].state == SConnecting {
      VisitConnecting(s, r, interfaces, j);
    } else {
      VisitOther(s, r, interfaces, j);
      if !Live(s.fds, s.lfds[j]) { VisitUnreported(s, r, interfaces, j); }
    }
  }

  lemma VisitUnreported(s: Scan, r: Role, interfaces: seq<Option<nat>>, j: nat)
    requires j < |s.lfds| && !Live(s.fds, s.lfds[j])
    ensures Visit(s, r, interfaces, j).log == s.log
  {
  }

  // ---------- a whole scan ----------

  /** What the first iteration and the rest report of slot `i`, together. */
  lemma ReportsJoin(s: Scan, u: Scan, log: seq<Report>, j: nat, i: nat)
    requires j < |s.lfds| && |u.lfds| == |s.lfds| && (forall n | 0 <= n < |s.lfds| :: u.lfds[n].slot == s.lfds[n].slot)
    requires |s.log| <= |u.log| && u.log <= log && forall a | |s.log| <= a < |u.log| :: u.log[a].listener == j
    ensures ReportsSlot(s.lfds, log, |s.log|, i) <==>
            (|u.log| > |s.log| && s.lfds[j].slot == i) || ReportsSlot(u.lfds, log, |u.log|, i)
  {
    forall a | |s.log| <= a < |u.log| ensures log[a] == u.log[a] {
    }
    if |u.log| > |s.log| && s.lfds[j].slot == i {
      assert log[|s.log|].listener == j;
    }
  }

  lemma SameSlots(r: Role, s: Scan, t: Scan)
    requires ScanFrame(r, s, t)
    ensures |t.lfds| == |s.lfds| && (forall n | 0 <= n < |s.lfds| :: t.lfds[n].slot == s.lfds[n].slot) && s.log <= t.log
  {
    hide ConnsFrame, FdsFrame;
  }

  /** A scan opens a connecting descriptor if and only if it reports a registration of its slot. */
  lemma {:induction false} ScanFromOpens(s: Scan, r: Role, interfaces: seq<Option<nat>>, j: nat, maxevents: int, i: nat)
    requires ScanReady(s) && i < |s.fds| && !ScanFrom(s, r, interfaces, j, maxevents).undefined
    ensures var t := ScanFrom(s, r, interfaces, j, maxevents);
            |t.fds| == |s.fds| && t.fds[i] == AfterScan(s.fds[i], ReportsSlot(s.lfds, t.log, |s.log|, i))
    decreases |s.lfds| - j
  {
    hide Visit, ScanReady, ScanFrame, ReportsSlot;
    var t := ScanFrom(s, r, interfaces, j, maxevents);
    if j < |s.lfds| && |s.log| < maxevents && !s.undefined {
      var u := Visit(s, r, interfaces, j);
      VisitFrame(s, r, interfaces, j);
      FramePreservesReady(r, s, u);
      SameSlots(r, s, u);
      VisitOpens(s, r, interfaces, j, i);
      ScanFromFrame(u, r, interfaces, j + 1, maxevents);
      SameSlots(r, u, t);
      ReportsJoin(s, u, t.log, j, i);
      ScanFromOpens(u, r, interfaces, j + 1, maxevents, i);
    } else {
      assert !ReportsSlot(s.lfds, s.log, |s.log|, i) by { NothingReported(s.lfds, s.log, i); }
    }
  }

  lemma NothingReported(lfds: seq<Listener>, log: seq<Report>, i: nat)
    ensures !ReportsSlot(lfds, log, |log|, i)
  {
  }

  /**
   epoll_pwait opens exactly the connecting descriptors it reports: after a pass over any table, of either
   trigger mode and for any size of the array, a descriptor that was connecting is open if and only if some
   entry is of a registration of its slot, and all other descriptors are as they were.
   */
  lemma ScanOpensReported(r: Role, sh: Shared, a: Local, b: Local, epfd: int, maxevents: int, i: nat)
    requires Inv(sh, a, b) && DoScan(r, sh, a, epfd, maxevents).out.Events? && i < |a.fds|
    ensures FindPollfd(a, epfd).Some?
    ensures var e := DoScan(r, sh, a, epfd, maxevents);
            var lfds := a.pollfds[FindPollfd(a, epfd).value].lfds;
            && |e.local.fds| == |a.fds|
            && (a.fds[i].active && a.fds[i].state == SConnecting ==>
                (e.local.fds[i].state == SOpen <==> ReportsSlot(lfds, e.out.log, 0, i)))
            && (e.local.fds[i] == a.fds[i] ||
                (a.fds[i].active && a.fds[i].state == SConnecting && e.local.fds[i] == a.fds[i].(state := SOpen)))
  {
    hide Inv, ScanFrom, ScanReady, ReportsSlot, FdsOk, NumbersOk, PollfdsOk;
    InvGivesLocal(sh, a, b);
    var s := StartScan(sh, a, FindPollfd(a, epfd).value);
    TableIsReady(sh, a, FindPollfd(a, epfd).value);
    ScanFromOpens(s, r, a.interfaces, 0, maxevents, i);
  }

  lemma TableIsReady(sh: Shared, l: Local, k: nat)
    requires LocalOk(sh, l) && k < |l.pollfds|
    ensures ScanReady(StartScan(sh, l, k))
  {
    hide FdOk;
    assert TableOk(l.pollfds[k].lfds);
  }

  /**
   And a connecting descriptor that is reported can be used: the peer has accepted, and a send in the state
   that the scan leaves goes through in full.
   */
  lemma ReportedConnectSends(r: Role, sh: Shared, a: Local, b: Local, epfd: int, maxevents: int, i: nat,
                             data: seq<Byte>)
    requires Inv(sh, a, b) && DoScan(r, sh, a, epfd, maxevents).out.Events? && FindPollfd(a, epfd).Some?
    requires i < |a.fds| && Connecting(a.fds[i])
    requires ReportsSlot(a.pollfds[FindPollfd(a, epfd).value].lfds, DoScan(r, sh, a, epfd, maxevents).out.log, 0, i)
    ensures Deref(sh, a.fds[i].pConn).Some? && Deref(sh, a.fds[i].pConn).value.connState == COpen
    ensures var e := DoScan(r, sh, a, epfd, maxevents);
            DoSend(r, e.shared, e.local, a.fds[i].num, data).out == Ret(|data|)
  {
    hide Inv, ScanFrom, ScanReady, FdsOk, NumbersOk, PollfdsOk, DoSend, ConnsFrame, ReportsSlot;
    InvGivesLocal(sh, a, b);
    var e := DoScan(r, sh, a, epfd, maxevents);
    ScanOpensReported(r, sh, a, b, epfd, maxevents, i);
    ScanFromFrame(StartScan(sh, a, FindPollfd(a, epfd).value), r, a.interfaces, 0, maxevents);
    assert Opened(sh, a.fds[i], e.local.fds[i]);
    ScanKeepsInv(r, sh, a, b, epfd, maxevents);
    InvGivesLocal(e.shared, e.local, b);
    ScanKeepsRecord(r, sh, a, epfd, maxevents, a.fds[i].pConn.value);
    OpenSends(r, e.shared, e.local, i, data);
  }

  lemma ScanKeepsRecord(r: Role, sh: Shared, l: Local, epfd: int, maxevents: int, p: Ptr)
    requires p in sh.conns
    ensures var sh' := DoScan(r, sh, l, epfd, maxevents).shared;
            p in sh'.conns && sh'.conns[p].connState == sh.conns[p].connState
  {
    hide ScanFrom;
    var k := FindPollfd(l, epfd);
    if k.Some? { ScanFromFrame(StartScan(sh, l, k.value), r, l.interfaces, 0, maxevents); }
  }

  lemma OpenSends(r: Role, sh: Shared, l: Local, i: nat, data: seq<Byte>)
    requires NumbersOk(l) && i < |l.fds| && l.fds[i].active && l.fds[i].state == SOpen
    requires Deref(sh, l.fds[i].pConn).Some? && Deref(sh, l.fds[i].pConn).value.connState == COpen
    ensures DoSend(r, sh, l, l.fds[i].num, data).out == Ret(|data|)
  {
    hide SendConnection;
    FoundFd(l.fds, i, l.fds[i].num);
  }
}
