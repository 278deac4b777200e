/** Readiness of a listening socket against what accept would find. */
module ListenerReadiness {
  import opened Basics
  import opened Connections
  import opened Descriptors
  import opened Readiness
  import opened Duplex
  import opened Scanning
  import opened LevelTriggered
  import opened Pairing

  /** What readiness finds, accept finds; on a proper address both take the same connection. */
  lemma SearchFoundAccepts(sh: Shared, r: Role, interfaces: seq<Option<nat>>, addr: int, port: int)
    ensures SearchOnAnyIface(sh, r, interfaces, addr, port).Some? ==>
              AcceptOnAnyIface(sh, r, interfaces, addr, port).Some?
    ensures addr != 0 ==>
              SearchOnAnyIface(sh, r, interfaces, addr, port) == AcceptOnAnyIface(sh, r, interfaces, addr, port)
  {
    hide SearchOnIface;
    if addr == 0 && SearchOnAnyIface(sh, r, interfaces, addr, port).Some? {
      var k := FirstIndex(interfaces, (e: Option<nat>) => Offers(sh, r, e, addr, port, false)).value;
      assert Offers(sh, r, interfaces[k], addr, port, true);
    }
  }

  // ---------- reports on listening sockets ----------

  /** A listening registration is reported, in either trigger mode and for any mask, iff the search finds something. */
  lemma ListeningReportedExactly(s: Scan, r: Role, interfaces: seq<Option<nat>>, j: nat)
    requires j < |s.lfds| && s.lfds[j].active && s.lfds[j].slot < |s.fds|
    requires var fd := s.fds[s.lfds[j].slot]; fd.active && fd.state == SListen && Deref(s.shared, fd.pConn).Some?
    ensures var fd := s.fds[s.lfds[j].slot];
            var t := Visit(s, r, interfaces, j);
            if SearchOnAnyIface(s.shared, r, interfaces, fd.listenAddress, fd.listenPort).Some?
            then t.log == s.log + [Report(j, fd.pConn.value, !s.lfds[j].level, s.lfds[j].data, EPOLLIN)]
            else t.log == s.log
  {
    hide PickOnTable, SetEvent, ClearEvent, Among, IsEventSet;
    var own := s.shared.conns[s.fds[s.lfds[j].slot].pConn.value].Own(r);
    RaisedInput(own.events);
    RaisedInput(own.ltEvents);
  }

  ghost predicate Justified(r: Role, s: Scan, interfaces: seq<Option<nat>>, n: nat) {
    forall m | n <= m < |s.log| :: s.log[m].listener < |s.lfds| && s.lfds[s.log[m].listener].slot < |s.fds| &&
      var fd := s.fds[s.lfds[s.log[m].listener].slot];
      fd.active && (fd.state == SListen ==>
        SearchOnAnyIface(s.shared, r, interfaces, fd.listenAddress, fd.listenPort).Some?)
  }

  /** At most one entry, for registration `j`. */
  predicate OneEntry(s: Scan, t: Scan, j: nat) {
    t.log == s.log || (|t.log| == |s.log| + 1 && t.log[..|s.log|] == s.log && t.log[|s.log|].listener == j)
  }

  lemma CheckOneEntry(s: Scan, r: Role, j: nat, p: Ptr, special: bool, mask: EventMask)
    requires j < |s.lfds| && p in s.shared.conns
    ensures OneEntry(s, CheckAndSetEvents(s, r, j, p, special, mask), j)
  {
    hide SetEvent, ClearEvent, Among, IsEventSet, LevelMask;
  }

  lemma RaiseOneEntry(s: Scan, r: Role, j: nat, p: Ptr)
    requires j < |s.lfds| && p in s.shared.conns
    ensures OneEntry(s, RaiseInput(s, r, j, p), j)
  {
    hide SetEvent, CheckAndSetEvents;
    var own := s.shared.conns[p].Own(r);
    CheckOneEntry(s.PutOwn(r, p, SetEvent(own.events, EPOLLIN), SetEvent(own.ltEvents, EPOLLIN)), r, j, p, true,
                  EPOLLIN);
  }

  lemma VisitListener(s: Scan, r: Role, interfaces: seq<Option<nat>>, j: nat)
    requires j < |s.lfds|
    ensures var t := Visit(s, r, interfaces, j);
            OneEntry(s, t, j) && (t.log == s.log ||
            (s.lfds[j].active && s.lfds[j].slot < |s.fds| && s.fds[s.lfds[j].slot].active &&
             Deref(s.shared, s.fds[s.lfds[j].slot].pConn).Some?))
  {
    hide PickOnTable, RaiseInput, LowerInput, CheckAndSetEvents, CompleteConnect;
    if s.lfds[j].slot < |s.fds| && Deref(s.shared, s.fds[s.lfds[j].slot].pConn).Some? {
      var p := s.fds[s.lfds[j].slot].pConn.value;
      RaiseOneEntry(s, r, j, p);
      CheckOneEntry(s, r, j, p, false, s.lfds[j].events);
      LowerInputFrame(s, r, p);
    }
  }

  lemma JustifiedStable(r: Role, s: Scan, t: Scan, interfaces: seq<Option<nat>>, n: nat)
    requires Justified(r, s, interfaces, n) && ScanFrame(r, s, t) && t.log == s.log
    ensures Justified(r, t, interfaces, n)
  {
    hide PickOnTable;
    forall m | n <= m < |t.log|
      ensures var fd := t.fds[t.lfds[t.log[m].listener].slot];
              fd.active && (fd.state == SListen ==>
                            SearchOnAnyIface(t.shared, r, interfaces, fd.listenAddress, fd.listenPort).Some?)
    {
      var i := s.lfds[s.log[m].listener].slot;
      assert t.fds[i] == s.fds[i] || Opened(s.shared, s.fds[i], t.fds[i]);
      PickIgnoresMasks(r, s, t, r, interfaces, s.fds[i].listenAddress, s.fds[i].listenPort, false);
    }
  }

  lemma {:induction false} ScanJustified(s: Scan, r: Role, interfaces: seq<Option<nat>>, j: nat, maxevents: int, n: nat)
    requires Justified(r, s, interfaces, n) && n <= |s.log|
    ensures Justified(r, ScanFrom(s, r, interfaces, j, maxevents), interfaces, n)
    decreases |s.lfds| - j
  {
    hide Visit, Justified, ScanFrame;
    if j < |s.lfds| && |s.log| < maxevents && !s.undefined {
      VisitJustified(s, r, interfaces, j, n);
      var t := Visit(s, r, interfaces, j);
      VisitFrame(s, r, interfaces, j);
      assert n <= |t.log| by { VisitListener(s, r, interfaces, j); }
      ScanJustified(t, r, interfaces, j + 1, maxevents, n);
    }
  }

  lemma VisitJustified(s: Scan, r: Role, interfaces: seq<Option<nat>>, j: nat, n: nat)
    requires Justified(r, s, interfaces, n) && n <= |s.log| && j < |s.lfds|
    ensures Justified(r, Visit(s, r, interfaces, j), interfaces, n)
  {
    hide PickOnTable, Visit, MasksOnly;
    var t := Visit(s, r, interfaces, j);
    VisitFrame(s, r, interfaces, j);
    VisitListener(s, r, interfaces, j);
    JustifiedStable(r, s, t.(log := s.log), interfaces, n);
    if t.log != s.log {
      var i := s.lfds[j].slot;
      var fd := s.fds[i];
      assert t.fds[i] == fd || Opened(s.shared, fd, t.fds[i]);
      if fd.state == SListen {
        ListeningReportedExactly(s, r, interfaces, j);
        PickIgnoresMasks(r, s, t, r, interfaces, fd.listenAddress, fd.listenPort, false);
      }
    }
  }

  /**
   If a scan reports a listening descriptor, accept on that descriptor finds a connection in the state
   the scan leaves behind.
   */
  lemma ReportedListenerAccepts(r: Role, sh: Shared, l: Local, epfd: int, maxevents: int, m: nat)
    requires NumbersOk(l) && DoScan(r, sh, l, epfd, maxevents).out.Events? &&
             m < |DoScan(r, sh, l, epfd, maxevents).out.log|
    ensures var e := DoScan(r, sh, l, epfd, maxevents);
            var lfd := e.local.pollfds[FindPollfd(l, epfd).value].lfds;
            var n := e.out.log[m].listener;
            n < |lfd| && lfd[n].slot < |e.local.fds| &&
            var fd := e.local.fds[lfd[n].slot];
            fd.active && (fd.state == SListen ==> Taken(r, e.shared, e.local, fd.num).Some?)
  {
    hide ScanFrom, PickOnTable;
    var k := FindPollfd(l, epfd).value;
    var s := StartScan(sh, l, k);
    var t := ScanFrom(s, r, l.interfaces, 0, maxevents);
    ScanJustified(s, r, l.interfaces, 0, maxevents, 0);
    ScanFromFrame(s, r, l.interfaces, 0, maxevents);
    var i := t.lfds[t.log[m].listener].slot;
    var fd := t.fds[i];
    SearchFoundAccepts(t.shared, r, l.interfaces, fd.listenAddress, fd.listenPort);
    assert FindFd(t.fds, fd.num) == Some(i) by {
      forall a | 0 <= a < |t.fds| && a != i ensures t.fds[a].num != fd.num || !t.fds[a].active {
        assert t.fds[a] == l.fds[a] || Opened(sh, l.fds[a], t.fds[a]);
        assert t.fds[i] == l.fds[i] || Opened(sh, l.fds[i], t.fds[i]);
      }
    }
  }
}
