/** A pending edge event is delivered by the next scan that reaches a subscribed listener. */
module Wakeups {
  import opened Basics
  import opened Connections
  import opened Descriptors
  import opened Readiness
  import opened Duplex
  import opened Scanning
  import opened Reachability
  import opened Streams

  /** Listener `j` watches connection `p`, edge-triggered, and asks for all of `event`. */
  predicate Subscribed(s: Scan, j: nat, p: Ptr, event: EventMask) {
    && j < |s.lfds| && s.lfds[j].active && !s.lfds[j].level && s.lfds[j].slot < |s.fds|
    && Among(s.lfds[j].events, event) == event
    && var fd := s.fds[s.lfds[j].slot];
       fd.active && (fd.state == SOpen || fd.state == SClose) && fd.pConn == Some(p) && p in s.shared.conns
  }

  lemma SubscribedEventMatches(events: EventMask, mask: EventMask, event: EventMask)
    requires Among(mask, event) == event && IsEventSet(events, event)
    ensures IsEventSet(events, mask) && IsEventSet(Among(events, mask), event)
  {
  }

  lemma VisitReports(s: Scan, r: Role, interfaces: seq<Option<nat>>, j: nat, p: Ptr, event: EventMask)
    requires Subscribed(s, j, p, event) && IsEventSet(s.shared.conns[p].Own(r).events, event)
    ensures ReportedSince(|s.log|, Visit(s, r, interfaces, j).log, p, event)
  {
    hide Among, IsEventSet, SearchOnAnyIface;
    var own := s.shared.conns[p].Own(r);
    SubscribedEventMatches(own.events, s.lfds[j].events, event);
    var t := Visit(s, r, interfaces, j);
    assert t.log == s.log + [Report(j, p, true, s.lfds[j].data, Among(own.events, s.lfds[j].events))];
    assert t.log[|s.log|].edge;
  }

  lemma SubscriptionSurvives(s: Scan, r: Role, t: Scan, j: nat, p: Ptr, event: EventMask)
    requires Subscribed(s, j, p, event) && ScanFrame(r, s, t)
    ensures Subscribed(t, j, p, event)
  {
    hide Among, MasksOnly;
    var i := s.lfds[j].slot;
    assert t.fds[i] == s.fds[i] || Opened(s.shared, s.fds[i], t.fds[i]);
  }

  lemma SubscribedBasics(s: Scan, j: nat, p: Ptr, event: EventMask)
    requires Subscribed(s, j, p, event)
    ensures j < |s.lfds| && p in s.shared.conns
  {
  }

  lemma LogGrows(s: Scan, r: Role, t: Scan)
    requires ScanFrame(r, s, t)
    ensures |s.log| <= |t.log| && forall n | 0 <= n < |s.log| :: t.log[n] == s.log[n]
  {
  }

  /** Either the scan reports `event` on `p`, or it stops because its budget is used up. */
  lemma {:induction false} ScanReports(s: Scan, r: Role, interfaces: seq<Option<nat>>, k: nat, j: nat, maxevents: int,
                                       p: Ptr, event: EventMask)
    requires k <= j && Subscribed(s, j, p, event) && IsEventSet(s.shared.conns[p].Own(r).events, event)
    ensures var t := ScanFrom(s, r, interfaces, k, maxevents);
            t.undefined || |t.log| >= maxevents || ReportedSince(|s.log|, t.log, p, event)
    decreases |s.lfds| - k
  {
    hide IsEventSet, Visit, Among, ScanFrame, Subscribed;
    assert j < |s.lfds| && p in s.shared.conns by { SubscribedBasics(s, j, p, event); }
    if |s.log| < maxevents && !s.undefined {
      var t := Visit(s, r, interfaces, k);
      var u := ScanFrom(t, r, interfaces, k + 1, maxevents);
      VisitFrame(s, r, interfaces, k);
      ScanFromFrame(t, r, interfaces, k + 1, maxevents);
      LogGrows(s, r, t);
      LogGrows(t, r, u);
      SubscriptionSurvives(s, r, t, j, p, event);
      if k == j {
        VisitReports(s, r, interfaces, j, p, event);
      } else {
        VisitKeepsEvent(s, r, interfaces, k, p, event);
        if IsEventSet(t.shared.conns[p].Own(r).events, event) {
          ScanReports(t, r, interfaces, k + 1, j, maxevents, p, event);
        }
      }
    }
  }

  /**
   After any run, if a packet has arrived for `r` since EPOLLIN was last reported, or the peer has
   closed since EPOLLHUP was, the next scan over a table with a subscribed listener reports it,
   unless the caller's array is full.
   */
  lemma WakeupDelivered(s: Sys, moves: seq<Move>, r: Role, epfd: int, maxevents: int, j: nat, p: Ptr, event: EventMask)
    requires Initial(s) && Playable(s, moves)
    requires FindPollfd(Run(s, moves).Loc(r), epfd).Some?
    requires var t := Run(s, moves);
             Subscribed(StartScan(t.shared, t.Loc(r), FindPollfd(t.Loc(r), epfd).value), j, p, event)
    requires Run(s, moves).shared.conns[p].iface.Some? && p in RunHistory(s, map[], moves)
    requires var f := RunHistory(s, map[], moves)[p].To(r);
             (event == EPOLLIN && f.packet) || (event == EPOLLHUP && f.hangup)
    ensures var out := Step(Run(s, moves), Move(r, Wait(epfd, maxevents))).1;
            out == Undefined || (out.Events? && (|out.log| >= maxevents || Reported(out.log, p, event)))
  {
    hide Run, RunHistory, Playable, Initial, ScanFrom, IsEventSet;
    var t := Run(s, moves);
    NoLostWakeup(s, moves, p, r);
    ScanReports(StartScan(t.shared, t.Loc(r), FindPollfd(t.Loc(r), epfd).value), r, t.Loc(r).interfaces, 0, j,
                maxevents, p, event);
  }

  // ---------- conservation ----------

  /** The bits a visit starts from: listening and connecting descriptors have EPOLLIN raised first. */
  function EdgeBits(s: Scan, r: Role, interfaces: seq<Option<nat>>, j: nat): EventMask
    requires j < |s.lfds| && s.lfds[j].slot < |s.fds| && Deref(s.shared, s.fds[s.lfds[j].slot].pConn).Some?
  {
    var fd := s.fds[s.lfds[j].slot];
    var c := Deref(s.shared, fd.pConn).value;
    if (fd.state == SListen && SearchOnAnyIface(s.shared, r, interfaces, fd.listenAddress, fd.listenPort).Some?) ||
       (fd.state == SConnecting && c.connState == COpen)
    then SetEvent(c.Own(r).events, EPOLLIN) else c.Own(r).events
  }

  /**
   `bits` is the disjoint union of the bits written to the caller and the bits left on `p`; at most one
   entry is written and no other record changes.
   */
  ghost predicate Conserved(r: Role, s: Scan, sh: Shared, log: seq<Report>, p: Ptr, bits: EventMask) {
    var written := if |log| <= |s.log| then 0 else log[|log| - 1].events;
    && p in sh.conns && |s.log| <= |log| <= |s.log| + 1 && (|log| == |s.log| ==> log == s.log)
    && SetEvent(written, sh.conns[p].Own(r).events) == bits
    && Among(written, sh.conns[p].Own(r).events) == 0
    && (forall q | q in s.shared.conns && q != p :: q in sh.conns && sh.conns[q] == s.shared.conns[q])
  }

  lemma CheckConserves(s: Scan, r: Role, j: nat, p: Ptr, special: bool, mask: EventMask)
    requires j < |s.lfds| && p in s.shared.conns && !s.lfds[j].level
    ensures var t := CheckAndSetEvents(s, r, j, p, special, mask);
            Conserved(r, s, t.shared, t.log, p, s.shared.conns[p].Own(r).events)
  {
    hide SetEvent, ClearEvent, Among, IsEventSet;
    EdgeSplit(s.shared.conns[p].Own(r).events, mask);
  }

  lemma RaiseConserves(s: Scan, r: Role, j: nat, p: Ptr)
    requires j < |s.lfds| && p in s.shared.conns && !s.lfds[j].level
    ensures var t := RaiseInput(s, r, j, p);
            Conserved(r, s, t.shared, t.log, p, SetEvent(s.shared.conns[p].Own(r).events, EPOLLIN))
  {
    hide SetEvent, Among, CheckAndSetEvents, Conserved;
    var own := s.shared.conns[p].Own(r);
    var t := s.PutOwn(r, p, SetEvent(own.events, EPOLLIN), SetEvent(own.ltEvents, EPOLLIN));
    CheckConserves(t, r, j, p, true, EPOLLIN);
    OthersKept(r, s, t, RaiseInput(s, r, j, p).shared, RaiseInput(s, r, j, p).log, p, SetEvent(own.events, EPOLLIN));
  }

  /** Conservation from a state that differs on `p` only. */
  lemma OthersKept(r: Role, s: Scan, t: Scan, sh: Shared, log: seq<Report>, p: Ptr, bits: EventMask)
    requires Conserved(r, t, sh, log, p, bits) && t.log == s.log
    requires forall q | q in s.shared.conns && q != p :: q in t.shared.conns && t.shared.conns[q] == s.shared.conns[q]
    ensures Conserved(r, s, sh, log, p, bits)
  {
    hide SetEvent, Among;
  }

  lemma LowerConserves(s: Scan, r: Role, p: Ptr)
    requires p in s.shared.conns
    ensures var t := LowerInput(s, r, p); Conserved(r, s, t.shared, t.log, p, s.shared.conns[p].Own(r).events)
  {
    hide SetEvent, ClearEvent, Among, IsEventSet;
    EdgeSplit(s.shared.conns[p].Own(r).events, 0);
  }

  /** Conservation of edge bits, for every edge-triggered registration a scan visits. */
  lemma EdgeBitsConserved(s: Scan, r: Role, interfaces: seq<Option<nat>>, j: nat)
    requires j < |s.lfds| && s.lfds[j].active && !s.lfds[j].level && s.lfds[j].slot < |s.fds|
    requires s.fds[s.lfds[j].slot].active && Deref(s.shared, s.fds[s.lfds[j].slot].pConn).Some?
    ensures var t := Visit(s, r, interfaces, j);
            Conserved(r, s, t.shared, t.log, s.fds[s.lfds[j].slot].pConn.value, EdgeBits(s, r, interfaces, j))
  {
    hide Conserved, PickOnTable, SetEvent, CheckAndSetEvents, RaiseInput, LowerInput, CompleteConnect;
    var p := s.fds[s.lfds[j].slot].pConn.value;
    CheckConserves(s, r, j, p, false, s.lfds[j].events);
    RaiseConserves(s, r, j, p);
    LowerConserves(s, r, p);
  }

  lemma EdgeSplit(events: EventMask, mask: EventMask)
    ensures SetEvent(Among(events, mask), ClearEvent(events, mask)) == events
    ensures Among(Among(events, mask), ClearEvent(events, mask)) == 0
    ensures SetEvent(0, events) == events && Among(0, events) == 0
    ensures IsEventSet(events, mask) <==> Among(events, mask) != 0
  {
    ReportSplitsMask(events, mask);
  }

  /** A scan never writes more entries than the caller's array holds. */
  lemma {:induction false} ScanWithinBudget(s: Scan, r: Role, interfaces: seq<Option<nat>>, j: nat, maxevents: int)
    requires |s.log| <= maxevents
    ensures |ScanFrom(s, r, interfaces, j, maxevents).log| <= maxevents
    decreases |s.lfds| - j
  {
    hide Visit;
    if j < |s.lfds| && |s.log| < maxevents && !s.undefined {
      VisitFrame(s, r, interfaces, j);
      ScanWithinBudget(Visit(s, r, interfaces, j), r, interfaces, j + 1, maxevents);
    }
  }
}
