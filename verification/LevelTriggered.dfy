/**
 A scan is a filter and a map: in slot order, the first `maxevents` registrations that are ready, with
 the readiness of level-triggered ones recomputed from queues and connection states, and that of
 edge-triggered ones read from the event bits.
 */
module LevelTriggered {
  import opened Basics
  import opened Connections
  import opened Descriptors
  import opened Readiness
  import opened Duplex
  import opened Scanning

  /** What a descriptor is ready for, among the events asked for; listening and connecting ignore the request. */
  function Ready(r: Role, sh: Shared, interfaces: seq<Option<nat>>, fd: Fd, wanted: EventMask): EventMask {
    match Deref(sh, fd.pConn)
    case None => 0
    case Some(c) =>
      if fd.state == SListen then
        if SearchOnAnyIface(sh, r, interfaces, fd.listenAddress, fd.listenPort).Some? then EPOLLIN else 0
      else if fd.state == SConnecting then
        if c.connState == COpen then EPOLLIN else 0
      else Among(LevelMask(c, r), wanted)
  }

  /** The level mask says exactly: data waiting, always writable, closed; and nothing else. */
  lemma LevelMaskExactly(c: Connection, r: Role, event: EventMask)
    ensures IsEventSet(LevelMask(c, r), EPOLLIN) <==> c.Own(r).recvBuffer != []
    ensures IsEventSet(LevelMask(c, r), EPOLLOUT)
    ensures IsEventSet(LevelMask(c, r), EPOLLHUP) <==> c.connState == CClose
    ensures Among(event, 0x15) == 0 ==> !IsEventSet(LevelMask(c, r), event)
  {
    var data := c.Own(r).recvBuffer != [];
    var closed := c.connState == CClose;
    assert LevelMask(c, r) == if data then (if closed then 0x15 else 0x5) else (if closed then 0x14 else 0x4);
  }

  /** The same for an edge-triggered registration: a connected descriptor is ready for the bits that are set. */
  function EdgeReady(r: Role, sh: Shared, interfaces: seq<Option<nat>>, fd: Fd, wanted: EventMask): EventMask {
    if fd.state == SListen || fd.state == SConnecting || Deref(sh, fd.pConn).None? then
      Ready(r, sh, interfaces, fd, wanted)
    else Among(Deref(sh, fd.pConn).value.Own(r).events, wanted)
  }

  /** The entry for registration `j`, if it is ready. */
  function Entry(r: Role, s: Scan, interfaces: seq<Option<nat>>, j: nat): seq<Report>
    requires j < |s.lfds|
  {
    var lfd := s.lfds[j];
    if !lfd.active || lfd.slot >= |s.fds| || !s.fds[lfd.slot].active ||
      Deref(s.shared, s.fds[lfd.slot].pConn).None? then []
    else
      var fd := s.fds[lfd.slot];
      var ready := if lfd.level then Ready(r, s.shared, interfaces, fd, lfd.events)
        else EdgeReady(r, s.shared, interfaces, fd, lfd.events);
      if ready == 0 then [] else [Report(j, fd.pConn.value, !lfd.level, lfd.data, ready)]
  }

  function Entries(r: Role, s: Scan, interfaces: seq<Option<nat>>, j: nat): seq<Report>
    decreases |s.lfds| - j
  {
    if j >= |s.lfds| then [] else Entry(r, s, interfaces, j) + Entries(r, s, interfaces, j + 1)
  }

  function Take(log: seq<Report>, n: int): seq<Report> {
    if n <= 0 then [] else if n >= |log| then log else log[..n]
  }

  ghost predicate LevelTable(s: Scan) {
    && ScanReady(s)
    && (forall j | 0 <= j < |s.lfds| && s.lfds[j].active :: s.lfds[j].level)
    && (forall j, k | 0 <= j < k < |s.lfds| && s.lfds[j].active && s.lfds[k].active :: s.lfds[j].slot != s.lfds[k].slot)
  }

  /** Two active registrations never share a slot, nor a connection whose event bits one of them consumes. */
  predicate Apart(s: Scan, j: nat, k: nat)
    requires j < |s.lfds| && k < |s.lfds|
  {
    s.lfds[j].active && s.lfds[k].active && s.lfds[j].slot < |s.fds| && s.lfds[k].slot < |s.fds| ==>
      s.lfds[j].slot != s.lfds[k].slot &&
      (var a := s.fds[s.lfds[j].slot]; var b := s.fds[s.lfds[k].slot];
       a.active && b.active && a.pConn.Some? && a.pConn == b.pConn ==> s.lfds[j].level && s.lfds[k].level)
  }

  /** A table of either trigger modes, with at most one registration per descriptor and per event mask. */
  ghost predicate MixedTable(s: Scan) {
    ScanReady(s) && forall j, k | 0 <= j < k < |s.lfds| :: Apart(s, j, k)
  }

  lemma LevelIsMixed(s: Scan)
    requires LevelTable(s)
    ensures MixedTable(s)
  {
    hide FdOk;
  }

  // ---------- searches ignore event masks ----------

  lemma SearchIgnoresMasks(r: Role, s: Scan, t: Scan, r': Role, k: nat, port: int)
    requires ConnsFrame(r, s, t) && k < |s.shared.ifaces|
    ensures SearchOnIface(t.shared, r', k, port) == SearchOnIface(s.shared, r', k, port)
  {
    var list := s.shared.ifaces[k].connectionList;
    FirstIndexSame(list, (p: Ptr) => Pending(t.shared, r', port, p), (p: Ptr) => Pending(s.shared, r', port, p));
  }

  lemma PickIgnoresMasks(r: Role, s: Scan, t: Scan, r': Role, interfaces: seq<Option<nat>>, addr: int, port: int,
                         any: bool)
    requires ConnsFrame(r, s, t)
    ensures PickOnTable(t.shared, r', interfaces, addr, port, any) ==
              PickOnTable(s.shared, r', interfaces, addr, port, any)
  {
    hide SearchOnIface, MasksOnly;
    forall k | 0 <= k < |s.shared.ifaces|
      ensures SearchOnIface(t.shared, r', k, port) == SearchOnIface(s.shared, r', k, port)
    {
      SearchIgnoresMasks(r, s, t, r', k, port);
    }
    FirstIndexSame(interfaces, (e: Option<nat>) => Offers(t.shared, r', e, addr, port, any),
                   (e: Option<nat>) => Offers(s.shared, r', e, addr, port, any));
  }

  lemma LevelMaskIgnoresMasks(r: Role, c: Connection, d: Connection)
    requires MasksOnly(r, c, d)
    ensures LevelMask(d, r) == LevelMask(c, r) && d.connState == c.connState
  {
    hide SetEvent;
  }

  lemma ReadyIgnoresMasks(r: Role, s: Scan, t: Scan, interfaces: seq<Option<nat>>, fd: Fd, wanted: EventMask)
    requires ConnsFrame(r, s, t)
    ensures Ready(r, t.shared, interfaces, fd, wanted) == Ready(r, s.shared, interfaces, fd, wanted)
  {
    hide PickOnTable, Among, LevelMask, MasksOnly;
    PickIgnoresMasks(r, s, t, r, interfaces, fd.listenAddress, fd.listenPort, false);
    if fd.pConn.Some? && fd.pConn.value in s.shared.conns {
      LevelMaskIgnoresMasks(r, s.shared.conns[fd.pConn.value], t.shared.conns[fd.pConn.value]);
    }
  }

  /** The event bits that an edge-triggered registration `k` would report from. */
  predicate BitsKept(s: Scan, t: Scan, k: nat)
    requires k < |s.lfds|
  {
    s.lfds[k].active && !s.lfds[k].level && s.lfds[k].slot < |s.fds| && s.fds[s.lfds[k].slot].active ==>
      Deref(t.shared, s.fds[s.lfds[k].slot].pConn) == Deref(s.shared, s.fds[s.lfds[k].slot].pConn)
  }

  lemma EntryStable(r: Role, s: Scan, t: Scan, interfaces: seq<Option<nat>>, k: nat)
    requires ScanFrame(r, s, t) && k < |s.lfds| && t.lfds[k] == s.lfds[k] && BitsKept(s, t, k)
    requires s.lfds[k].active && s.lfds[k].slot < |s.fds| ==> t.fds[s.lfds[k].slot] == s.fds[s.lfds[k].slot]
    ensures Entry(r, t, interfaces, k) == Entry(r, s, interfaces, k)
  {
    hide Ready, MasksOnly;
    if s.lfds[k].active && s.lfds[k].slot < |s.fds| {
      ReadyIgnoresMasks(r, s, t, interfaces, s.fds[s.lfds[k].slot], s.lfds[k].events);
    }
  }

  lemma {:induction false} EntriesStable(r: Role, s: Scan, t: Scan, interfaces: seq<Option<nat>>, k: nat)
    requires ScanFrame(r, s, t)
    requires forall n | k <= n < |s.lfds| :: t.lfds[n] == s.lfds[n] && BitsKept(s, t, n) &&
               (s.lfds[n].active && s.lfds[n].slot < |s.fds| ==> t.fds[s.lfds[n].slot] == s.fds[s.lfds[n].slot])
    ensures Entries(r, t, interfaces, k) == Entries(r, s, interfaces, k)
    decreases |s.lfds| - k
  {
    hide Entry, BitsKept, ConnsFrame, FdsFrame;
    if k < |s.lfds| {
      EntryStable(r, s, t, interfaces, k);
      EntriesStable(r, s, t, interfaces, k + 1);
    }
  }

  // ---------- one visit ----------

  lemma RaisedInput(events: EventMask)
    ensures IsEventSet(SetEvent(events, EPOLLIN), EPOLLIN)
    ensures Among(SetEvent(events, EPOLLIN), EPOLLIN) == EPOLLIN
    ensures EPOLLIN != 0
  {
  }

  lemma RaiseReports(s: Scan, r: Role, j: nat, p: Ptr)
    requires j < |s.lfds| && p in s.shared.conns
    ensures RaiseInput(s, r, j, p).log == s.log + [Report(j, p, !s.lfds[j].level, s.lfds[j].data, EPOLLIN)]
  {
    hide SetEvent, Among, IsEventSet, ClearEvent;
    RaisedInput(s.shared.conns[p].Own(r).ltEvents);
    RaisedInput(s.shared.conns[p].Own(r).events);
  }

  lemma CheckReports(s: Scan, r: Role, j: nat, p: Ptr, mask: EventMask)
    requires j < |s.lfds| && p in s.shared.conns && s.lfds[j].level
    ensures var ready := Among(LevelMask(s.shared.conns[p], r), mask);
            CheckAndSetEvents(s, r, j, p, false, mask).log ==
            s.log + if ready == 0 then [] else [Report(j, p, false, s.lfds[j].data, ready)]
  {
    hide LevelMask;
  }

  lemma CheckReportsEdge(s: Scan, r: Role, j: nat, p: Ptr, mask: EventMask)
    requires j < |s.lfds| && p in s.shared.conns && !s.lfds[j].level
    ensures var ready := Among(s.shared.conns[p].Own(r).events, mask);
            CheckAndSetEvents(s, r, j, p, false, mask).log ==
            s.log + if ready == 0 then [] else [Report(j, p, true, s.lfds[j].data, ready)]
  {
    hide LevelMask, ClearEvent;
  }

  lemma VisitLog(s: Scan, r: Role, interfaces: seq<Option<nat>>, j: nat)
    requires ScanReady(s) && j < |s.lfds|
    ensures var t := Visit(s, r, interfaces, j); t.undefined || t.log == s.log + Entry(r, s, interfaces, j)
  {
    hide PickOnTable, RaiseInput, LowerInput, LevelMask, CheckAndSetEvents, Among, ScanReady, ScanFrame,
        CompleteConnect;
    var lfd := s.lfds[j];
    if lfd.active && lfd.slot < |s.fds| && s.fds[lfd.slot].active && Deref(s.shared, s.fds[lfd.slot].pConn).Some? {
      var p := s.fds[lfd.slot].pConn.value;
      RaiseReports(s, r, j, p);
      LowerInputFrame(s, r, p);
      if lfd.level {
        CheckReports(s, r, j, p, lfd.events);
      } else {
        CheckReportsEdge(s, r, j, p, lfd.events);
      }
    }
  }

  /** A visit touches its own registration and its own slot only. */
  lemma VisitIsLocal(s: Scan, r: Role, interfaces: seq<Option<nat>>, j: nat)
    requires ScanReady(s) && j < |s.lfds|
    ensures var t := Visit(s, r, interfaces, j);
            && (forall n | 0 <= n < |s.lfds| && n != j :: t.lfds[n] == s.lfds[n])
            && |t.fds| == |s.fds| && (forall i | 0 <= i < |s.fds| && (s.lfds[j].active ==> i != s.lfds[j].slot) ::
                                      t.fds[i] == s.fds[i])
  {
    hide PickOnTable, RaiseInput, LowerInput, CheckAndSetEvents, FdOk, ScanFrame;
    var lfd := s.lfds[j];
    if lfd.active && s.fds[lfd.slot].active && Deref(s.shared, s.fds[lfd.slot].pConn).Some? {
      var p := s.fds[lfd.slot].pConn.value;
      RaiseInputFrame(s, r, j, p);
      CheckFrame(s, r, j, p, false, lfd.events);
      LowerKeepsFds(s, r, p);
      assert FindFd(s.fds, s.fds[lfd.slot].num) == Some(lfd.slot);
    }
  }

  lemma LowerKeepsFds(s: Scan, r: Role, p: Ptr)
    requires p in s.shared.conns
    ensures LowerInput(s, r, p).fds == s.fds
  {
  }

  lemma PiecesTouchOne(s: Scan, r: Role, j: nat, p: Ptr, mask: EventMask, q: Ptr)
    requires j < |s.lfds| && p in s.shared.conns && p != q
    ensures Deref(CheckAndSetEvents(s, r, j, p, false, mask).shared, Some(q)) == Deref(s.shared, Some(q))
    ensures Deref(RaiseInput(s, r, j, p).shared, Some(q)) == Deref(s.shared, Some(q))
    ensures Deref(LowerInput(s, r, p).shared, Some(q)) == Deref(s.shared, Some(q))
  {
    hide SetEvent, ClearEvent, Among, IsEventSet, LevelMask;
  }

  /** A visit rewrites at most the record of its own descriptor. */
  lemma VisitTouchesOne(s: Scan, r: Role, interfaces: seq<Option<nat>>, j: nat, q: Ptr)
    requires j < |s.lfds| && (Live(s.fds, s.lfds[j]) ==> s.fds[s.lfds[j].slot].pConn != Some(q))
    ensures Deref(Visit(s, r, interfaces, j).shared, Some(q)) == Deref(s.shared, Some(q))
  {
    hide PickOnTable, CheckAndSetEvents, RaiseInput, LowerInput, CompleteConnect;
    var lfd := s.lfds[j];
    if Live(s.fds, s.lfds[j]) && Deref(s.shared, s.fds[lfd.slot].pConn).Some? {
      PiecesTouchOne(s, r, j, s.fds[lfd.slot].pConn.value, lfd.events, q);
    }
  }

  lemma FrameKeepsMixed(r: Role, s: Scan, t: Scan)
    requires MixedTable(s) && ScanFrame(r, s, t)
    ensures MixedTable(t)
  {
    hide ScanReady, ConnsFrame;
    FramePreservesReady(r, s, t);
    forall i | 0 <= i < |s.fds| ensures t.fds[i].pConn == s.fds[i].pConn {
      assert t.fds[i] == s.fds[i] || Opened(s.shared, s.fds[i], t.fds[i]);
    }
    forall j, k | 0 <= j < k < |t.lfds| ensures Apart(t, j, k) {
      assert Apart(s, j, k);
    }
  }

  /**
   A scan over registrations of either trigger mode writes exactly the first `maxevents` entries of the
   ready ones, in slot order, each computed from the state before the scan.
   */
  lemma {:induction false} MixedScan(s: Scan, r: Role, interfaces: seq<Option<nat>>, j: nat, maxevents: int)
    requires MixedTable(s) && !ScanFrom(s, r, interfaces, j, maxevents).undefined
    ensures ScanFrom(s, r, interfaces, j, maxevents).log ==
              s.log + Take(Entries(r, s, interfaces, j), maxevents - |s.log|)
    decreases |s.lfds| - j
  {
    hide Visit, Entry, ScanFrame, MixedTable;
    if j < |s.lfds| && |s.log| < maxevents && !s.undefined {
      var t := Visit(s, r, interfaces, j);
      VisitStep(s, r, interfaces, j);
      MixedScan(t, r, interfaces, j + 1, maxevents);
      var rest := Entries(r, s, interfaces, j + 1);
      assert !t.undefined;
      assert |Entry(r, s, interfaces, j)| <= 1 by { EntryShort(r, s, interfaces, j); }
      TakeAppend(Entry(r, s, interfaces, j), rest, maxevents - |s.log|);
      assert s.log + (Entry(r, s, interfaces, j) + Take(rest, maxevents - |t.log|)) ==
               t.log + Take(rest, maxevents - |t.log|);
    }
  }

  lemma EntryShort(r: Role, s: Scan, interfaces: seq<Option<nat>>, j: nat)
    requires j < |s.lfds|
    ensures |Entry(r, s, interfaces, j)| <= 1
  {
    hide Ready;
  }

  lemma TakeAppend(e: seq<Report>, rest: seq<Report>, n: int)
    requires |e| <= 1 && n >= 1
    ensures Take(e + rest, n) == e + Take(rest, n - |e|)
  {
  }

  lemma VisitStep(s: Scan, r: Role, interfaces: seq<Option<nat>>, j: nat)
    requires MixedTable(s) && j < |s.lfds|
    ensures var t := Visit(s, r, interfaces, j);
            MixedTable(t) && |t.lfds| == |s.lfds| &&
            (t.undefined || t.log == s.log + Entry(r, s, interfaces, j)) &&
            Entries(r, t, interfaces, j + 1) == Entries(r, s, interfaces, j + 1)
  {
    hide Visit, Entry, Entries, ConnsFrame, BitsKept, FdOk;
    var t := Visit(s, r, interfaces, j);
    VisitFrame(s, r, interfaces, j);
    VisitLog(s, r, interfaces, j);
    VisitIsLocal(s, r, interfaces, j);
    FrameKeepsMixed(r, s, t);
    forall n | j < n < |s.lfds| ensures BitsKept(s, t, n) {
      OthersKeepBits(s, r, interfaces, j, n);
    }
    forall n | j < n < |s.lfds| && s.lfds[n].active && s.lfds[n].slot < |s.fds|
      ensures t.fds[s.lfds[n].slot] == s.fds[s.lfds[n].slot]
    {
      assert Apart(s, j, n);
    }
    EntriesStable(r, s, t, interfaces, j + 1);
  }

  lemma OthersKeepBits(s: Scan, r: Role, interfaces: seq<Option<nat>>, j: nat, n: nat)
    requires MixedTable(s) && j < n < |s.lfds|
    ensures BitsKept(s, Visit(s, r, interfaces, j), n)
  {
    hide Visit, FdOk;
    assert Apart(s, j, n);
    if Live(s.fds, s.lfds[n]) && !s.lfds[n].level && s.fds[s.lfds[n].slot].pConn.Some? {
      VisitTouchesOne(s, r, interfaces, j, s.fds[s.lfds[n].slot].pConn.value);
    }
  }

  /** A level-triggered scan, on which no connection is an obstacle. */
  lemma LevelScan(s: Scan, r: Role, interfaces: seq<Option<nat>>, j: nat, maxevents: int)
    requires LevelTable(s) && !ScanFrom(s, r, interfaces, j, maxevents).undefined
    ensures ScanFrom(s, r, interfaces, j, maxevents).log ==
              s.log + Take(Entries(r, s, interfaces, j), maxevents - |s.log|)
  {
    hide LevelTable, MixedTable, ScanFrom, Entries;
    LevelIsMixed(s);
    MixedScan(s, r, interfaces, j, maxevents);
  }

  /**
   A scan with room to spare deregisters every listener of a closed descriptor: the registrations left
   are those of open descriptors.
   */
  lemma {:induction false} ScanDropsClosed(s: Scan, r: Role, interfaces: seq<Option<nat>>, j: nat, maxevents: int)
    requires ScanFrom(s, r, interfaces, j, maxevents).undefined == false &&
             |ScanFrom(s, r, interfaces, j, maxevents).log| < maxevents
    ensures var t := ScanFrom(s, r, interfaces, j, maxevents);
            |t.lfds| == |s.lfds| && forall n | j <= n < |t.lfds| && t.lfds[n].active ::
              t.lfds[n].slot < |t.fds| && t.fds[t.lfds[n].slot].active
    decreases |s.lfds| - j
  {
    hide Visit, ConnsFrame;
    var t := ScanFrom(s, r, interfaces, j, maxevents);
    ScanFromFrame(s, r, interfaces, j, maxevents);
    if j < |s.lfds| {
      var u := Visit(s, r, interfaces, j);
      VisitFrame(s, r, interfaces, j);
      ScanFromFrame(u, r, interfaces, j + 1, maxevents);
      ScanDropsClosed(u, r, interfaces, j + 1, maxevents);
      VisitDropsClosed(s, r, interfaces, j);
      if u.lfds[j].active {
        var i := u.lfds[j].slot;
        assert !u.undefined;
        assert t.fds[i] == u.fds[i] || Opened(u.shared, u.fds[i], t.fds[i]);
      }
    }
  }

  lemma VisitDropsClosed(s: Scan, r: Role, interfaces: seq<Option<nat>>, j: nat)
    requires j < |s.lfds|
    ensures var u := Visit(s, r, interfaces, j);
            !u.undefined && u.lfds[j].active ==> u.lfds[j].slot < |u.fds| && u.fds[u.lfds[j].slot].active
  {
    hide PickOnTable, RaiseInput, LowerInput, CheckAndSetEvents, CompleteConnect;
    var u := Visit(s, r, interfaces, j);
    VisitFrame(s, r, interfaces, j);
    var i := s.lfds[j].slot;
    if i < |s.fds| {
      assert u.fds[i] == s.fds[i] || Opened(s.shared, s.fds[i], u.fds[i]);
    }
  }

  // ---------- one registration of a connected socket ----------

  /** Registration `j` watches connection `p`, level-triggered, and `p` is ready for something it asks for. */
  predicate WatchesReady(s: Scan, r: Role, j: nat, p: Ptr) {
    && j < |s.lfds| && s.lfds[j].active && s.lfds[j].level && s.lfds[j].slot < |s.fds|
    && p in s.shared.conns && Among(LevelMask(s.shared.conns[p], r), s.lfds[j].events) != 0
    && var fd := s.fds[s.lfds[j].slot];
       fd.active && (fd.state == SOpen || fd.state == SClose) && fd.pConn == Some(p)
  }

  lemma WatchSurvives(s: Scan, r: Role, t: Scan, j: nat, p: Ptr)
    requires WatchesReady(s, r, j, p) && ScanFrame(r, s, t)
    ensures WatchesReady(t, r, j, p) && t.lfds[j] == s.lfds[j] &&
            LevelMask(t.shared.conns[p], r) == LevelMask(s.shared.conns[p], r)
  {
    hide Among, LevelMask, MasksOnly;
    var i := s.lfds[j].slot;
    assert t.fds[i] == s.fds[i] || Opened(s.shared, s.fds[i], t.fds[i]);
    LevelMaskIgnoresMasks(r, s.shared.conns[p], t.shared.conns[p]);
  }

  lemma VisitReportsLevel(s: Scan, r: Role, interfaces: seq<Option<nat>>, j: nat, p: Ptr)
    requires WatchesReady(s, r, j, p)
    ensures Visit(s, r, interfaces, j).log ==
            s.log + [Report(j, p, false, s.lfds[j].data, Among(LevelMask(s.shared.conns[p], r), s.lfds[j].events))]
  {
    hide LevelMask, Among, PickOnTable, CheckAndSetEvents, RaiseInput, LowerInput;
    CheckReports(s, r, j, p, s.lfds[j].events);
  }

  /** Such a registration is written by the scan, unless the budget is used up first. */
  lemma {:induction false} ScanReportsLevel(s: Scan, r: Role, interfaces: seq<Option<nat>>, k: nat, j: nat,
                                            maxevents: int, p: Ptr)
    requires k <= j && WatchesReady(s, r, j, p)
    ensures var t := ScanFrom(s, r, interfaces, k, maxevents);
            t.undefined || |t.log| >= maxevents ||
            Report(j, p, false, s.lfds[j].data, Among(LevelMask(s.shared.conns[p], r), s.lfds[j].events)) in t.log
    decreases |s.lfds| - k
  {
    hide Visit, Among, LevelMask, ScanFrame;
    if |s.log| < maxevents && !s.undefined {
      var t := Visit(s, r, interfaces, k);
      VisitFrame(s, r, interfaces, k);
      WatchSurvives(s, r, t, j, p);
      if k == j {
        VisitReportsLevel(s, r, interfaces, j, p);
        var u := ScanFrom(t, r, interfaces, k + 1, maxevents);
        ScanFromFrame(t, r, interfaces, k + 1, maxevents);
        assert t.log <= u.log by { FrameGrows(r, t, u); }
        assert t.log[|s.log|] == u.log[|s.log|];
      } else {
        ScanReportsLevel(t, r, interfaces, k + 1, j, maxevents, p);
      }
    }
  }

  lemma FrameGrows(r: Role, s: Scan, t: Scan)
    requires ScanFrame(r, s, t)
    ensures s.log <= t.log
  {
  }
}
