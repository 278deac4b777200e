/**
 Edge-triggered bits over a whole scan: each registration the scan reaches has its bits split between its
 entry in the caller's array and what stays set, and each one it does not reach keeps all of them.
 */
module Conservation {
  import opened Basics
  import opened Connections
  import opened Descriptors
  import opened Readiness
  import opened Duplex
  import opened Scanning
  import opened LevelTriggered
  import opened Wakeups

  /** The registration at which the loop of a scan from `j` stops. */
  function StopAt(s: Scan, r: Role, interfaces: seq<Option<nat>>, j: nat, maxevents: int): (n: nat)
    ensures n >= j && (j <= |s.lfds| ==> n <= |s.lfds|)
    decreases |s.lfds| - j
  {
    if j >= |s.lfds| || |s.log| >= maxevents || s.undefined then j
    else StopAt(Visit(s, r, interfaces, j), r, interfaces, j + 1, maxevents)
  }

  /** The scan is the iterations up to there. */
  lemma {:induction false} ScanIsVisits(s: Scan, r: Role, interfaces: seq<Option<nat>>, j: nat, maxevents: int)
    requires j <= |s.lfds|
    ensures ScanFrom(s, r, interfaces, j, maxevents) ==
              VisitTo(s, r, interfaces, j, StopAt(s, r, interfaces, j, maxevents))
    decreases |s.lfds| - j
  {
    hide Visit;
    if j < |s.lfds| && |s.log| < maxevents && !s.undefined {
      ScanIsVisits(Visit(s, r, interfaces, j), r, interfaces, j + 1, maxevents);
    }
  }

  /** A scan reaches exactly the registrations with fewer than `maxevents` entries before them. */
  lemma {:induction false} ReachedExactly(s: Scan, r: Role, interfaces: seq<Option<nat>>, j: nat, maxevents: int,
                                          n: nat)
    requires j <= n < |s.lfds| && !ScanFrom(s, r, interfaces, j, maxevents).undefined
    ensures n < StopAt(s, r, interfaces, j, maxevents) <==> |VisitTo(s, r, interfaces, j, n).log| < maxevents
    decreases n - j
  {
    hide Visit;
    if |s.log| >= maxevents {
      VisitToGrows(s, r, interfaces, j, n);
    } else if j < n {
      ReachedExactly(Visit(s, r, interfaces, j), r, interfaces, j + 1, maxevents, n);
    }
  }

  /** No active registration of an open descriptor from `j` up to `n` points at record `q`. */
  ghost predicate Unwatched(s: Scan, j: nat, n: nat, q: Ptr)
    requires n <= |s.lfds|
  {
    forall i | j <= i < n :: Live(s.fds, s.lfds[i]) ==> s.fds[s.lfds[i].slot].pConn != Some(q)
  }

  lemma FrameKeepsUnwatched(r: Role, s: Scan, t: Scan, j: nat, n: nat, q: Ptr)
    requires n <= |s.lfds| && ScanFrame(r, s, t) && Unwatched(s, j, n, q)
    ensures |t.lfds| == |s.lfds| && Unwatched(t, j, n, q)
  {
    hide ConnsFrame;
    forall i | j <= i < n && Live(t.fds, t.lfds[i]) ensures t.fds[t.lfds[i].slot].pConn != Some(q) {
      var slot := s.lfds[i].slot;
      assert t.fds[slot] == s.fds[slot] || Opened(s.shared, s.fds[slot], t.fds[slot]);
    }
  }

  /** The iterations leave a record alone that none of their registrations points at. */
  lemma {:induction false} UnwatchedIsKept(s: Scan, r: Role, interfaces: seq<Option<nat>>, j: nat, n: nat, q: Ptr)
    requires n <= |s.lfds| && Unwatched(s, j, n, q)
    ensures Deref(VisitTo(s, r, interfaces, j, n).shared, Some(q)) == Deref(s.shared, Some(q))
    decreases n - j
  {
    hide Visit, ScanFrame;
    if j < n {
      var t := Visit(s, r, interfaces, j);
      VisitTouchesOne(s, r, interfaces, j, q);
      VisitFrame(s, r, interfaces, j);
      FrameKeepsUnwatched(r, s, t, j, n, q);
      UnwatchedIsKept(t, r, interfaces, j + 1, n, q);
    }
  }

  /** Registration `n` is edge-triggered, on an open descriptor with connection `p`. */
  predicate EdgeOn(s: Scan, n: nat, p: Ptr) {
    && n < |s.lfds| && Live(s.fds, s.lfds[n]) && !s.lfds[n].level
    && s.fds[s.lfds[n].slot].pConn == Some(p) && p in s.shared.conns
  }

  lemma OthersDoNotWatch(s: Scan, n: nat, p: Ptr)
    requires MixedTable(s) && EdgeOn(s, n, p)
    ensures Unwatched(s, 0, n, p) && Unwatched(s, n + 1, |s.lfds|, p)
  {
    hide FdOk;
    forall i | 0 <= i < |s.lfds| && i != n && Live(s.fds, s.lfds[i]) ensures s.fds[s.lfds[i].slot].pConn != Some(p) {
      assert if i < n then Apart(s, i, n) else Apart(s, n, i);
    }
  }

  lemma EdgeOnParts(s: Scan, n: nat, p: Ptr)
    requires EdgeOn(s, n, p)
    ensures n < |s.lfds| && s.lfds[n].active && s.lfds[n].slot < |s.fds| && s.fds[s.lfds[n].slot].active
    ensures p in s.shared.conns && s.fds[s.lfds[n].slot].pConn == Some(p)
  {
  }

  /** Visiting another registration changes nothing that registration `n` reports from. */
  lemma VisitKeepsOther(s: Scan, r: Role, interfaces: seq<Option<nat>>, j: nat, n: nat, p: Ptr)
    requires MixedTable(s) && EdgeOn(s, n, p) && j < n
    ensures var t := Visit(s, r, interfaces, j);
            && MixedTable(t) && EdgeOn(t, n, p) && t.shared.conns[p] == s.shared.conns[p]
            && t.lfds[n] == s.lfds[n] && t.fds[s.lfds[n].slot] == s.fds[s.lfds[n].slot] && ScanFrame(r, s, t)
  {
    hide Visit, FdOk, ConnsFrame;
    var t := Visit(s, r, interfaces, j);
    VisitFrame(s, r, interfaces, j);
    VisitIsLocal(s, r, interfaces, j);
    FrameKeepsMixed(r, s, t);
    assert Apart(s, j, n);
    VisitTouchesOne(s, r, interfaces, j, p);
    assert Deref(t.shared, Some(p)).Some?;
  }

  lemma OtherKeepsBits(s: Scan, r: Role, interfaces: seq<Option<nat>>, j: nat, n: nat, p: Ptr)
    requires MixedTable(s) && EdgeOn(s, n, p) && j < n && EdgeOn(Visit(s, r, interfaces, j), n, p)
    ensures var t := Visit(s, r, interfaces, j);
            EdgeBits(t, r, interfaces, n) == EdgeBits(s, r, interfaces, n) &&
              Entry(r, t, interfaces, n) == Entry(r, s, interfaces, n)
  {
    hide Visit, MixedTable, PickOnTable, SetEvent, Ready, ScanFrame, Entry;
    var t := Visit(s, r, interfaces, j);
    VisitKeepsOther(s, r, interfaces, j, n, p);
    var fd := s.fds[s.lfds[n].slot];
    assert ConnsFrame(r, s, t) by { FrameOfConns(r, s, t); }
    PickIgnoresMasks(r, s, t, r, interfaces, fd.listenAddress, fd.listenPort, false);
    EntryStable(r, s, t, interfaces, n);
  }

  lemma FrameOfConns(r: Role, s: Scan, t: Scan)
    requires ScanFrame(r, s, t)
    ensures ConnsFrame(r, s, t) && |t.lfds| == |s.lfds| && s.log <= t.log
  {
  }

  /** `bits` is the disjoint union of what `entry` writes and of `left`. */
  predicate Splits(bits: EventMask, entry: seq<Report>, left: EventMask) {
    var written := if entry == [] then 0 else entry[0].events;
    SetEvent(written, left) == bits && Among(written, left) == 0
  }

  /** The iteration of an edge-triggered registration splits its bits. */
  lemma VisitSplits(s: Scan, r: Role, interfaces: seq<Option<nat>>, n: nat, p: Ptr)
    requires MixedTable(s) && EdgeOn(s, n, p) && !Visit(s, r, interfaces, n).undefined
    ensures var t := Visit(s, r, interfaces, n);
            && t.log == s.log + Entry(r, s, interfaces, n) && p in t.shared.conns
            && Splits(EdgeBits(s, r, interfaces, n), Entry(r, s, interfaces, n), t.shared.conns[p].Own(r).events)
  {
    hide Visit, FdOk, Entry, EdgeBits, SetEvent, Among;
    VisitLog(s, r, interfaces, n);
    EdgeBitsConserved(s, r, interfaces, n);
    EntryShort(r, s, interfaces, n);
    var entry := Entry(r, s, interfaces, n);
    if entry == [] {
      assert s.log + entry == s.log;
    }
  }

  /** The iterations after it leave its bits alone. */
  lemma RestKeeps(s: Scan, r: Role, interfaces: seq<Option<nat>>, n: nat, maxevents: int, p: Ptr)
    requires MixedTable(s) && EdgeOn(s, n, p)
    ensures var t := Visit(s, r, interfaces, n);
            Deref(ScanFrom(t, r, interfaces, n + 1, maxevents).shared, Some(p)) == Deref(t.shared, Some(p))
  {
    hide Visit, MixedTable, EdgeOn, VisitTo, ScanFrame;
    EdgeOnParts(s, n, p);
    var t := Visit(s, r, interfaces, n);
    OthersDoNotWatch(s, n, p);
    VisitFrame(s, r, interfaces, n);
    FrameKeepsUnwatched(r, s, t, n + 1, |s.lfds|, p);
    ScanIsVisits(t, r, interfaces, n + 1, maxevents);
    UnwatchedIsKept(t, r, interfaces, n + 1, StopAt(t, r, interfaces, n + 1, maxevents), p);
  }

  /** A scan that stops before registration `n` leaves its bits alone. */
  lemma UnreachedKeeps(s: Scan, r: Role, interfaces: seq<Option<nat>>, j: nat, maxevents: int, n: nat, p: Ptr)
    requires MixedTable(s) && EdgeOn(s, n, p) && j <= n && StopAt(s, r, interfaces, j, maxevents) <= n
    ensures Deref(ScanFrom(s, r, interfaces, j, maxevents).shared, Some(p)) == Deref(s.shared, Some(p))
  {
    hide MixedTable, EdgeOn, VisitTo;
    EdgeOnParts(s, n, p);
    OthersDoNotWatch(s, n, p);
    ScanIsVisits(s, r, interfaces, j, maxevents);
    UnwatchedIsKept(s, r, interfaces, j, StopAt(s, r, interfaces, j, maxevents), p);
  }

  /**
   Conservation over a whole scan. For each edge-triggered registration of an open descriptor: if the scan
   reaches it, then the bits before, with EPOLLIN where the scan raises it, are the disjoint union of those
   written in its entry and those left; if the scan stops before, its record is untouched.
   */
  lemma {:induction false} ScanConserves(s: Scan, r: Role, interfaces: seq<Option<nat>>, j: nat, maxevents: int, n: nat,
                                         p: Ptr)
    requires MixedTable(s) && EdgeOn(s, n, p) && j <= n && !ScanFrom(s, r, interfaces, j, maxevents).undefined
    ensures var t := ScanFrom(s, r, interfaces, j, maxevents);
            && p in t.shared.conns
            && if n < StopAt(s, r, interfaces, j, maxevents) then
                 Splits(EdgeBits(s, r, interfaces, n), Entry(r, s, interfaces, n), t.shared.conns[p].Own(r).events) &&
                 (Entry(r, s, interfaces, n) != [] ==> Entry(r, s, interfaces, n)[0] in t.log)
               else t.shared.conns[p] == s.shared.conns[p]
    decreases n - j
  {
    hide Visit, MixedTable, EdgeOn, Entry, EdgeBits, Splits, ScanFrame;
    EdgeOnParts(s, n, p);
    if StopAt(s, r, interfaces, j, maxevents) <= n {
      UnreachedKeeps(s, r, interfaces, j, maxevents, n, p);
      assert Deref(s.shared, Some(p)).Some?;
    } else {
      var t := Visit(s, r, interfaces, j);
      if j < n {
        VisitKeepsOther(s, r, interfaces, j, n, p);
        OtherKeepsBits(s, r, interfaces, j, n, p);
        ScanConserves(t, r, interfaces, j + 1, maxevents, n, p);
      } else {
        VisitSplits(s, r, interfaces, n, p);
        RestKeeps(s, r, interfaces, n, maxevents, p);
        assert Deref(t.shared, Some(p)).Some?;
        ScanFromFrame(t, r, interfaces, n + 1, maxevents);
        FrameOfConns(r, t, ScanFrom(t, r, interfaces, n + 1, maxevents));
        if Entry(r, s, interfaces, n) != [] {
          assert t.log[|s.log|] == Entry(r, s, interfaces, n)[0];
          assert ScanFrom(t, r, interfaces, n + 1, maxevents).log[|s.log|] == t.log[|s.log|];
        }
      }
    }
  }
}
