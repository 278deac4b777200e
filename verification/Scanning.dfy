/** What a readiness scan may change, and when it is undefined in C. */
module Scanning {
  import opened Basics
  import opened Connections
  import opened Descriptors
  import opened Readiness
  import opened Duplex

  /** `c` and `c'` differ at most in the event masks of role `r`. */
  predicate MasksOnly(r: Role, c: Connection, c': Connection) {
    c' == c.WithOwn(r, c.Own(r).(events := c'.Own(r).events, ltEvents := c'.Own(r).ltEvents))
  }

  ghost predicate ConnsFrame(r: Role, s: Scan, t: Scan) {
    && t.shared.ifaces == s.shared.ifaces
    && t.shared.conns.Keys == s.shared.conns.Keys
    && (forall p | p in s.shared.conns :: MasksOnly(r, s.shared.conns[p], t.shared.conns[p]))
  }

  /** A scan opens connecting descriptors whose connection has been accepted, and changes no other. */
  predicate Opened(sh: Shared, fd: Fd, fd': Fd) {
    fd.active && fd.state == SConnecting && Deref(sh, fd.pConn).Some? &&
    Deref(sh, fd.pConn).value.connState == COpen && fd' == fd.(state := SOpen)
  }

  ghost predicate FdsFrame(s: Scan, t: Scan) {
    && |t.fds| == |s.fds|
    && (forall i | 0 <= i < |s.fds| :: t.fds[i] == s.fds[i] || Opened(s.shared, s.fds[i], t.fds[i]))
  }

  /** A scan deregisters listeners of closed descriptors only. */
  ghost predicate ListenersFrame(s: Scan, t: Scan) {
    && |t.lfds| == |s.lfds|
    && (forall j | 0 <= j < |s.lfds| :: t.lfds[j] == s.lfds[j] ||
          (t.lfds[j] == s.lfds[j].(active := false) && s.lfds[j].slot < |s.fds| && !s.fds[s.lfds[j].slot].active))
  }

  ghost predicate ScanFrame(r: Role, s: Scan, t: Scan) {
    ConnsFrame(r, s, t) && FdsFrame(s, t) && ListenersFrame(s, t) && s.log <= t.log
  }

  lemma ScanFrameTransitive(r: Role, s: Scan, t: Scan, u: Scan)
    requires ScanFrame(r, s, t) && ScanFrame(r, t, u)
    ensures ScanFrame(r, s, u)
  {
    assert ConnsFrame(r, s, u);
    forall i | 0 <= i < |s.fds| ensures u.fds[i] == s.fds[i] || Opened(s.shared, s.fds[i], u.fds[i]) {
      assert t.fds[i] == s.fds[i] || Opened(s.shared, s.fds[i], t.fds[i]);
      assert u.fds[i] == t.fds[i] || Opened(t.shared, t.fds[i], u.fds[i]);
    }
  }

  lemma ScanFrameReflexive(r: Role, s: Scan)
    ensures ScanFrame(r, s, s) && ScanFrame(r, s, s.(undefined := true))
  {
  }

  lemma DeregisterFrame(s: Scan, r: Role, j: nat)
    requires j < |s.lfds| && s.lfds[j].slot < |s.fds| && !s.fds[s.lfds[j].slot].active
    ensures ScanFrame(r, s, s.(lfds := s.lfds[j := s.lfds[j].(active := false)]))
  {
  }

  lemma PutOwnFrame(s: Scan, r: Role, p: Ptr, events: EventMask, ltEvents: EventMask)
    requires p in s.shared.conns
    ensures ScanFrame(r, s, s.PutOwn(r, p, events, ltEvents))
    ensures forall e: Report :: ScanFrame(r, s, s.PutOwn(r, p, events, ltEvents).(log := s.log + [e]))
  {
  }

  lemma CheckFrame(s: Scan, r: Role, j: nat, p: Ptr, special: bool, mask: EventMask)
    requires j < |s.lfds| && p in s.shared.conns
    ensures ScanFrame(r, s, CheckAndSetEvents(s, r, j, p, special, mask))
    ensures CheckAndSetEvents(s, r, j, p, special, mask).fds == s.fds
    ensures CheckAndSetEvents(s, r, j, p, special, mask).undefined == s.undefined
    ensures |CheckAndSetEvents(s, r, j, p, special, mask).log| <= |s.log| + 1
  {
    hide SetEvent, ClearEvent, Among, IsEventSet;
    hide ScanFrame;
    var own := s.shared.conns[p].Own(r);
    ScanFrameReflexive(r, s);
    PutOwnFrame(s, r, p, own.events, if special then own.ltEvents else LevelMask(s.shared.conns[p], r));
    PutOwnFrame(s, r, p, ClearEvent(own.events, mask), own.ltEvents);
  }

  lemma RaiseInputFrame(s: Scan, r: Role, j: nat, p: Ptr)
    requires j < |s.lfds| && p in s.shared.conns
    ensures ScanFrame(r, s, RaiseInput(s, r, j, p))
    ensures RaiseInput(s, r, j, p).fds == s.fds && RaiseInput(s, r, j, p).undefined == s.undefined
    ensures |RaiseInput(s, r, j, p).log| <= |s.log| + 1
  {
    hide SetEvent, ClearEvent, Among, IsEventSet;
    hide ScanFrame, CheckAndSetEvents;
    var own := s.shared.conns[p].Own(r);
    var t := s.PutOwn(r, p, SetEvent(own.events, EPOLLIN), SetEvent(own.ltEvents, EPOLLIN));
    PutOwnFrame(s, r, p, SetEvent(own.events, EPOLLIN), SetEvent(own.ltEvents, EPOLLIN));
    CheckFrame(t, r, j, p, true, EPOLLIN);
    ScanFrameTransitive(r, s, t, RaiseInput(s, r, j, p));
  }

  lemma CompleteConnectFrame(s: Scan, r: Role, num: int)
    ensures ScanFrame(r, s, CompleteConnect(s, num))
    ensures CompleteConnect(s, num).log == s.log
  {
  }

  lemma LowerInputFrame(s: Scan, r: Role, p: Ptr)
    requires p in s.shared.conns
    ensures ScanFrame(r, s, LowerInput(s, r, p))
    ensures LowerInput(s, r, p).log == s.log && LowerInput(s, r, p).undefined == s.undefined
  {
    hide ScanFrame;
    var own := s.shared.conns[p].Own(r);
    PutOwnFrame(s, r, p, own.events, ClearEvent(own.ltEvents, EPOLLIN));
  }

  lemma VisitFrame(s: Scan, r: Role, interfaces: seq<Option<nat>>, j: nat)
    requires j < |s.lfds|
    ensures ScanFrame(r, s, Visit(s, r, interfaces, j))
    ensures |Visit(s, r, interfaces, j).log| <= |s.log| + 1
  {
    hide ScanFrame, RaiseInput, LowerInput, CompleteConnect, CheckAndSetEvents, SearchOnAnyIface;
    var lfd := s.lfds[j];
    ScanFrameReflexive(r, s);
    if lfd.active && lfd.slot < |s.fds| {
      var fd := s.fds[lfd.slot];
      if !fd.active {
        DeregisterFrame(s, r, j);
      } else if Deref(s.shared, fd.pConn).Some? {
        var p := fd.pConn.value;
        RaiseInputFrame(s, r, j, p);
        LowerInputFrame(s, r, p);
        CheckFrame(s, r, j, p, false, lfd.events);
        var t := RaiseInput(s, r, j, p);
        CompleteConnectFrame(t, r, fd.num);
        ScanFrameTransitive(r, s, t, CompleteConnect(t, fd.num));
      }
    }
  }

  lemma {:induction false} ScanFromFrame(s: Scan, r: Role, interfaces: seq<Option<nat>>, j: nat, maxevents: int)
    ensures ScanFrame(r, s, ScanFrom(s, r, interfaces, j, maxevents))
    decreases |s.lfds| - j
  {
    if j < |s.lfds| && |s.log| < maxevents && !s.undefined {
      var t := Visit(s, r, interfaces, j);
      VisitFrame(s, r, interfaces, j);
      ScanFromFrame(t, r, interfaces, j + 1, maxevents);
      ScanFrameTransitive(r, s, t, ScanFrom(t, r, interfaces, j + 1, maxevents));
    }
  }

  // ---------- when a scan is undefined ----------

  /** An active registration of an open descriptor. */
  predicate Live(fds: seq<Fd>, lfd: Listener) {
    lfd.active && lfd.slot < |fds| && fds[lfd.slot].active
  }

  /** A registration of an open descriptor that has no connection. */
  predicate Unconnected(fds: seq<Fd>, lfd: Listener) {
    lfd.active && lfd.slot < |fds| && fds[lfd.slot].active && fds[lfd.slot].pConn.None?
  }

  ghost predicate ScanReady(s: Scan) {
    && (forall i | 0 <= i < |s.fds| && s.fds[i].active :: FdOk(s.shared, s.fds[i]))
    && (forall i, j | 0 <= i < j < |s.fds| && s.fds[i].active && s.fds[j].active :: s.fds[i].num != s.fds[j].num)
    && (forall j | 0 <= j < |s.lfds| && s.lfds[j].active :: s.lfds[j].slot < |s.fds|)
  }

  lemma FramePreservesReady(r: Role, s: Scan, t: Scan)
    requires ScanReady(s) && ScanFrame(r, s, t)
    ensures ScanReady(t)
    ensures forall j | 0 <= j < |s.lfds| :: Unconnected(t.fds, t.lfds[j]) == Unconnected(s.fds, s.lfds[j])
  {
    forall i | 0 <= i < |t.fds| && t.fds[i].active ensures FdOk(t.shared, t.fds[i]) {
      assert FdOk(s.shared, s.fds[i]);
      assert t.fds[i] == s.fds[i] || Opened(s.shared, s.fds[i], t.fds[i]);
    }
    forall i, j | 0 <= i < j < |t.fds| && t.fds[i].active && t.fds[j].active ensures t.fds[i].num != t.fds[j].num {
      assert t.fds[i] == s.fds[i] || Opened(s.shared, s.fds[i], t.fds[i]);
      assert t.fds[j] == s.fds[j] || Opened(s.shared, s.fds[j], t.fds[j]);
    }
  }

  lemma VisitUndefined(s: Scan, r: Role, interfaces: seq<Option<nat>>, j: nat)
    requires ScanReady(s) && j < |s.lfds| && !s.undefined
    ensures Visit(s, r, interfaces, j).undefined <==> Unconnected(s.fds, s.lfds[j])
  {
    hide RaiseInput, LowerInput, CheckAndSetEvents, PickOnTable, ScanFrame;
    var lfd := s.lfds[j];
    if lfd.active && s.fds[lfd.slot].active {
      var fd := s.fds[lfd.slot];
      assert FdOk(s.shared, fd);
      if fd.pConn.Some? {
        var p := fd.pConn.value;
        RaiseInputFrame(s, r, j, p);
        LowerInputFrame(s, r, p);
        CheckFrame(s, r, j, p, false, lfd.events);
        RaiseKeepsKeys(s, r, j, p);
        FoundFd(s.fds, lfd.slot, fd.num);
      }
    }
  }

  lemma RaiseKeepsKeys(s: Scan, r: Role, j: nat, p: Ptr)
    requires j < |s.lfds| && p in s.shared.conns
    ensures p in RaiseInput(s, r, j, p).shared.conns
  {
    RaiseInputFrame(s, r, j, p);
  }

  /** The iterations from `j` up to `n`, with a caller's array that never fills. */
  function VisitTo(s: Scan, r: Role, interfaces: seq<Option<nat>>, j: nat, n: nat): Scan
    requires n <= |s.lfds|
    decreases n - j
  {
    if j >= n then s else VisitTo(Visit(s, r, interfaces, j), r, interfaces, j + 1, n)
  }

  /** Registration `k` is the first unconnected one from `j` on, and those before it leave room in the array. */
  predicate MeetsAt(s: Scan, r: Role, interfaces: seq<Option<nat>>, j: nat, maxevents: int, k: nat) {
    && j <= k < |s.lfds| && Unconnected(s.fds, s.lfds[k]) && (forall i | j <= i < k :: !Unconnected(s.fds, s.lfds[i]))
    && |VisitTo(s, r, interfaces, j, k).log| < maxevents
  }

  ghost predicate MeetsUnconnected(s: Scan, r: Role, interfaces: seq<Option<nat>>, j: nat, maxevents: int) {
    exists k :: MeetsAt(s, r, interfaces, j, maxevents, k)
  }

  lemma {:induction false} VisitToGrows(s: Scan, r: Role, interfaces: seq<Option<nat>>, j: nat, n: nat)
    requires n <= |s.lfds|
    ensures |s.log| <= |VisitTo(s, r, interfaces, j, n).log| <= |s.log| + if j < n then n - j else 0
    decreases n - j
  {
    hide Visit;
    if j < n {
      VisitFrame(s, r, interfaces, j);
      VisitToGrows(Visit(s, r, interfaces, j), r, interfaces, j + 1, n);
    }
  }

  lemma MeetsHere(s: Scan, r: Role, interfaces: seq<Option<nat>>, j: nat, maxevents: int)
    requires j < |s.lfds| && Unconnected(s.fds, s.lfds[j]) && |s.log| < maxevents
    ensures MeetsUnconnected(s, r, interfaces, j, maxevents)
  {
    assert VisitTo(s, r, interfaces, j, j) == s;
    assert MeetsAt(s, r, interfaces, j, maxevents, j);
  }

  lemma NoRoomMeetsNothing(s: Scan, r: Role, interfaces: seq<Option<nat>>, j: nat, maxevents: int)
    requires |s.log| >= maxevents
    ensures !MeetsUnconnected(s, r, interfaces, j, maxevents)
  {
    hide Unconnected;
    forall k: nat ensures !MeetsAt(s, r, interfaces, j, maxevents, k) {
      if k < |s.lfds| { VisitToGrows(s, r, interfaces, j, k); }
    }
  }

  /** Past a connected registration, the rest of the scan meets the same one. */
  lemma MeetsAtLater(s: Scan, r: Role, interfaces: seq<Option<nat>>, j: nat, maxevents: int, k: nat)
    requires ScanReady(s) && j < |s.lfds| && !Unconnected(s.fds, s.lfds[j])
    ensures MeetsAt(s, r, interfaces, j, maxevents, k) <==>
            MeetsAt(Visit(s, r, interfaces, j), r, interfaces, j + 1, maxevents, k)
  {
    hide Visit, Unconnected, ScanReady;
    hide ConnsFrame, FdsFrame;
    var t := Visit(s, r, interfaces, j);
    VisitFrame(s, r, interfaces, j);
    FramePreservesReady(r, s, t);
    if j < k < |s.lfds| {
      assert VisitTo(s, r, interfaces, j, k) == VisitTo(t, r, interfaces, j + 1, k);
    }
  }

  lemma MeetsLater(s: Scan, r: Role, interfaces: seq<Option<nat>>, j: nat, maxevents: int)
    requires ScanReady(s) && j < |s.lfds| && !Unconnected(s.fds, s.lfds[j])
    ensures MeetsUnconnected(s, r, interfaces, j, maxevents) <==>
            MeetsUnconnected(Visit(s, r, interfaces, j), r, interfaces, j + 1, maxevents)
  {
    hide Visit, Unconnected, ScanReady, MeetsAt;
    var t := Visit(s, r, interfaces, j);
    var next := j + 1;
    if k :| MeetsAt(s, r, interfaces, j, maxevents, k) {
      MeetsAtLater(s, r, interfaces, j, maxevents, k);
    }
    if k :| MeetsAt(t, r, interfaces, next, maxevents, k) {
      MeetsAtLater(s, r, interfaces, j, maxevents, k);
    }
  }

  /**
   A scan is undefined if and only if it reaches an unconnected registration: fewer than `maxevents` of
   the registrations before the first such one are reported.
   */
  lemma {:induction false} ScanFromUndefined(s: Scan, r: Role, interfaces: seq<Option<nat>>, j: nat, maxevents: int)
    requires ScanReady(s) && !s.undefined
    ensures ScanFrom(s, r, interfaces, j, maxevents).undefined <==> MeetsUnconnected(s, r, interfaces, j, maxevents)
    decreases |s.lfds| - j
  {
    hide MeetsUnconnected, Visit, ScanReady, Unconnected;
    if j >= |s.lfds| {
      assert !MeetsUnconnected(s, r, interfaces, j, maxevents) by { NothingLeft(s, r, interfaces, j, maxevents); }
    } else if |s.log| >= maxevents {
      NoRoomMeetsNothing(s, r, interfaces, j, maxevents);
    } else {
      var t := Visit(s, r, interfaces, j);
      VisitFrame(s, r, interfaces, j);
      VisitUndefined(s, r, interfaces, j);
      FramePreservesReady(r, s, t);
      if t.undefined {
        MeetsHere(s, r, interfaces, j, maxevents);
      } else {
        MeetsLater(s, r, interfaces, j, maxevents);
        ScanFromUndefined(t, r, interfaces, j + 1, maxevents);
      }
    }
  }

  lemma NothingLeft(s: Scan, r: Role, interfaces: seq<Option<nat>>, j: nat, maxevents: int)
    requires j >= |s.lfds|
    ensures !MeetsUnconnected(s, r, interfaces, j, maxevents)
  {
  }

  /** With room for one entry per registration up to the unconnected one, a scan always reaches it. */
  lemma RoomyScanMeets(s: Scan, r: Role, interfaces: seq<Option<nat>>, k: nat, maxevents: int)
    requires k < |s.lfds| && Unconnected(s.fds, s.lfds[k]) && |s.log| + k < maxevents
    ensures MeetsUnconnected(s, r, interfaces, 0, maxevents)
    decreases k
  {
    hide Unconnected;
    if first :| 0 <= first < k && Unconnected(s.fds, s.lfds[first]) {
      RoomyScanMeets(s, r, interfaces, first, maxevents);
    } else {
      VisitToGrows(s, r, interfaces, 0, k);
      assert MeetsAt(s, r, interfaces, 0, maxevents, k);
    }
  }

  lemma MetIsUnconnected(s: Scan, r: Role, interfaces: seq<Option<nat>>, j: nat, maxevents: int)
    requires MeetsUnconnected(s, r, interfaces, j, maxevents)
    ensures exists k | j <= k < |s.lfds| :: Unconnected(s.fds, s.lfds[k])
  {
    hide VisitTo, Unconnected;
    var k: nat :| MeetsAt(s, r, interfaces, j, maxevents, k);
    MetAt(s, r, interfaces, j, maxevents, k);
  }

  lemma MetAt(s: Scan, r: Role, interfaces: seq<Option<nat>>, j: nat, maxevents: int, k: nat)
    requires MeetsAt(s, r, interfaces, j, maxevents, k)
    ensures j <= k < |s.lfds| && Unconnected(s.fds, s.lfds[k])
  {
  }
}
