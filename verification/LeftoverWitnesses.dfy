/**
 Runs in which a failed poll spoils a later poll on another descriptor that is in use: a write outside the
 caller's array, a wrong answer, and a null pointer.
 */
module LeftoverWitnesses {
  import opened Basics
  import opened Connections
  import opened Descriptors
  import opened Readiness
  import opened Duplex
  import opened Scanning
  import opened Reachability
  import opened LevelTriggered
  import opened Ports
  import opened Waiting
  import opened Polling
  import opened PollRuns
  import opened PollSafety
  import opened Leftovers
  import opened Steps

  // ---------- three listeners and a peer ----------

  /** `r` listens on ports 1, 2 and 3 of its address on interface `k`, and its peer is connecting to port 1. */
  ghost predicate ThreeListeners(s: Sys, r: Role, k: nat) {
    var l := s.Loc(r);
    && SysInv(s) && FilledTo(l, 3) && k < |s.shared.ifaces| && Some(k) in l.interfaces
    && (forall i | 0 <= i < 3 :: l.fds[i] == ListeningFd(i, s.shared.ifaces[k].OwnAddress(r), i + 1, i))
    && s.shared.conns.Keys == {0, 1, 2, 3} && (forall p | 0 <= p < 3 :: s.shared.conns[p] == NewListenerConnection())
    && s.shared.conns[3].connState == CCreate && s.shared.conns[3].Own(r).port == 1
    && (forall m | 0 <= m < |s.shared.ifaces| :: s.shared.ifaces[m].connectionList == if m == k then [3] else [])
    && l.pollEpfd == -1 && l.randomPollFd == POLLFD_START && (forall j | 0 <= j < |l.pollfds| :: !l.pollfds[j].active)
  }

  lemma InitialFilled(s: Sys, r: Role)
    requires Initial(s)
    ensures FilledTo(s.Loc(r), 0) && s.shared.conns == map[] && SysInv(s)
    ensures var l := s.Loc(r);
            l.pollEpfd == -1 && l.randomPollFd == POLLFD_START &&
              forall j | 0 <= j < |l.pollfds| :: !l.pollfds[j].active
  {
    InitialInv(s);
  }

  /** The three listeners, before the peer connects. */
  lemma ListenThrice(s: Sys, r: Role, addr: int) returns (moves: seq<Move>)
    requires Initial(s)
    ensures Playable(s, moves) && FilledTo(Run(s, moves).Loc(r), 3)
    ensures var t := Run(s, moves); var l := s.Loc(r); var l' := t.Loc(r);
            && t.shared.ifaces == s.shared.ifaces && t.Loc(Other(r)) == s.Loc(Other(r))
            && t.shared.conns.Keys == {0, 1, 2}
            && (forall p | 0 <= p < 3 :: t.shared.conns[p] == NewListenerConnection())
            && (forall i | 0 <= i < 3 :: l'.fds[i] == ListeningFd(i, addr, i + 1, i))
            && l' == l.(fds := l'.fds, currentMaxFd := l'.currentMaxFd)
  {
    hide Initial, Run, Playable;
    InitialFilled(s, r);
    var first := OpenListener(s, r, 0, addr, 1, 0);
    var s1 := Run(s, first);
    var second := OpenListener(s1, r, 1, addr, 2, 1);
    var s2 := Run(s1, second);
    var third := OpenListener(s2, r, 2, addr, 3, 2);
    RunAppend(s, first, second);
    RunAppend(s, first + second, third);
    moves := first + second + third;
  }

  lemma ReachThreeListeners(s: Sys, r: Role, k: nat) returns (moves: seq<Move>)
    requires Initial(s) && Some(k) in s.Loc(r).interfaces && Reaches(s, Other(r), k)
    ensures Playable(s, moves) && ThreeListeners(Run(s, moves), r, k)
  {
    hide Initial, Run, Playable, InterfaceBySockaddr, SysInv;
    var o := Other(r);
    var addr := s.shared.ifaces[k].OwnAddress(r);
    InitialFilled(s, r);
    InitialFilled(s, o);
    NothingListed(s);
    var listening := ListenThrice(s, r, addr);
    var t := Run(s, listening);
    SameInterfaces(s, t, o, addr);
    var connecting := FirstConnect(t, o, k, addr, 1, 3);
    RunAppend(s, listening, connecting);
    moves := listening + connecting;
    RunKeepsInv(s, moves);
  }

  lemma NothingListed(s: Sys)
    requires Initial(s)
    ensures forall m | 0 <= m < |s.shared.ifaces| :: s.shared.ifaces[m].connectionList == []
  {
  }

  /** Only the first listener is ready. */
  lemma FirstIsReady(s: Sys, r: Role, k: nat, i: nat, wanted: EventMask)
    requires ThreeListeners(s, r, k) && i < 3
    ensures Ready(r, s.shared, s.Loc(r).interfaces, s.Loc(r).fds[i], wanted) == if i == 0 then EPOLLIN else 0
  {
    hide SysInv;
    var l := s.Loc(r);
    var fd := l.fds[i];
    assert fd == ListeningFd(i, s.shared.ifaces[k].OwnAddress(r), i + 1, i);
    if i == 0 {
      assert 3 in s.shared.ifaces[k].connectionList;
      assert Pending(s.shared, r, 1, 3);
      assert Offers(s.shared, r, Some(k), fd.listenAddress, 1, false);
    }
  }

  // ---------- a poll that fails at its last request ----------

  /** `t` is such a state after a failed poll that has left the first `n` of `failing` registered. */
  ghost predicate Spoilt(s: Sys, r: Role, k: nat, t: Sys, failing: seq<PollReq>, n: nat) {
    var l := t.Loc(r);
    && ThreeListeners(s, r, k) && SysInv(t) && t.shared == s.shared
    && l.fds == s.Loc(r).fds && l.interfaces == s.Loc(r).interfaces && l.currentMaxFd == s.Loc(r).currentMaxFd
    && l.pollEpfd == POLLFD_START && FindPollfd(l, POLLFD_START) == Some(0)
    && Holds(l, l.pollfds[0].lfds, failing, 0, n)
  }

  lemma OpenFirst(l: Local)
    requires l.pollEpfd == -1 && l.randomPollFd == POLLFD_START && |l.pollfds| == MAX_POLLFDS &&
             forall j | 0 <= j < |l.pollfds| :: !l.pollfds[j].active
    ensures var e := DoPollOpen(l);
            && e.1 == Ret(POLLFD_START) && e.0.pollEpfd == POLLFD_START && FindPollfd(e.0, POLLFD_START) == Some(0)
            && e.0.pollfds[0].lfds == l.pollfds[0].lfds
            && e.0 == l.(pollfds := e.0.pollfds, randomPollFd := e.0.randomPollFd, pollEpfd := POLLFD_START)
  {
    assert FirstIndex(l.pollfds, (e: EpollFd) => !e.active) == Some(0);
  }

  lemma StopsThere(l: Local, l': Local, reqs: seq<PollReq>, n: nat)
    requires l'.fds == l.fds && n < |reqs| && RegistrableTo(l, reqs, n) && FindFd(l.fds, reqs[n].fd).None?
    ensures RegistrableTo(l', reqs, n) && !RegistrableTo(l', reqs, n + 1) && !Registrable(l', reqs)
  {
    assert FindFd(l'.fds, reqs[n].fd).None?;
  }

  /** The first poll ever, over requests of which the first `n` can be registered and the next is not open. */
  lemma FailingPoll(r: Role, sh: Shared, l: Local, failing: seq<PollReq>, n: nat)
    requires NumbersOk(l) && l.pollEpfd == -1 && l.randomPollFd == POLLFD_START && |l.pollfds| == MAX_POLLFDS
    requires (forall j | 0 <= j < |l.pollfds| :: !l.pollfds[j].active) && EmptyTable(l.pollfds[0].lfds)
    requires n < |failing| && RegistrableTo(l, failing, n) && failing[n].fd >= FD_START &&
             FindFd(l.fds, failing[n].fd).None?
    ensures var e := DoPollOpen(l); e.1 == Ret(POLLFD_START) && AddAll(e.0, POLLFD_START, failing, 0).1 != Ret(0)
    ensures var res := DoPoll(r, sh, l, failing, 0, []);
            var l' := res.effect.local;
            && res.effect.out == Fail(-1, EBADF) && res.effect.shared == sh
            && l'.fds == l.fds && l'.interfaces == l.interfaces && l'.currentMaxFd == l.currentMaxFd
            && l'.pollEpfd == POLLFD_START
            && FindPollfd(l', POLLFD_START) == Some(0) && Holds(l', l'.pollfds[0].lfds, failing, 0, n)
  {
    hide AddAll, DoPollOpen, Holds, FindPollfd, EmptyTable, NumbersOk, RegistrableTo, Registrable, PollOn, Refusal;
    OpenFirst(l);
    var e := DoPollOpen(l);
    NumbersLocal(l, e.0);
    StopsThere(l, e.0, failing, n);
    NotOpen(e.0, failing, n);
    var c, table := RegistersExactly(e.0, 0, POLLFD_START, failing);
    var m := FailedPollLeaksExactly(r, sh, e.0, 0, POLLFD_START, failing, 0, []);
    OnlyOneLimit(e.0, failing, n, m);
    var l' := PollOn(r, sh, e.0, POLLFD_START, failing, 0, []).effect.local;
    HoldsLocally(e.0, l', l'.pollfds[0].lfds, failing, 0, n);
  }

  lemma NotOpen(l: Local, reqs: seq<PollReq>, n: nat)
    requires n < |reqs| && reqs[n].fd >= FD_START && FindFd(l.fds, reqs[n].fd).None?
    ensures Refusal(l, reqs, n) == Fail(-1, EBADF)
  {
  }

  lemma FailFirstPoll(s: Sys, r: Role, k: nat, failing: seq<PollReq>, n: nat)
    requires ThreeListeners(s, r, k) && n < |failing| && RegistrableTo(s.Loc(r), failing, n)
    requires failing[n].fd >= FD_START && FindFd(s.Loc(r).fds, failing[n].fd).None?
    ensures Playable(s, PollMoves(s, r, failing, 0, []))
    ensures DoPoll(r, s.shared, s.Loc(r), failing, 0, []).effect.out == Fail(-1, EBADF)
    ensures Spoilt(s, r, k, Run(s, PollMoves(s, r, failing, 0, [])), failing, n)
  {
    hide SysInv, FilledTo, Run, Playable, AddAll, AddMoves, PollMoves, DoPollOpen, Holds, FindPollfd, EmptyTable,
        NumbersOk, DoPoll, RegistrableTo;
    LocTables(s, r);
    FailingPoll(r, s.shared, s.Loc(r), failing, n);
    OpenStep(s, r);
    assert PollSnapshots(s, r, failing, 0, []) == [];
    PollIsRun(s, r, failing, 0, []);
    RunKeepsInv(s, PollMoves(s, r, failing, 0, []));
  }

  lemma LocTables(s: Sys, r: Role)
    requires SysInv(s)
    ensures |s.Loc(r).pollfds| == MAX_POLLFDS && NumbersOk(s.Loc(r)) && PollfdsOk(s.Loc(r)) && FdsOk(s.shared, s.Loc(r))
    ensures forall j | 0 <= j < |s.Loc(r).pollfds| && !s.Loc(r).pollfds[j].active ::
              EmptyTable(s.Loc(r).pollfds[j].lfds)
  {
    hide ListsOk, CountsOk, FdsOk, NumbersOk, InterfacesOk;
  }

  lemma OnlyOneLimit(l: Local, reqs: seq<PollReq>, n: nat, m: nat)
    requires n < |reqs| && m < |reqs| && RegistrableTo(l, reqs, n) && !RegistrableTo(l, reqs, n + 1)
    requires RegistrableTo(l, reqs, m) && !RegistrableTo(l, reqs, m + 1)
    ensures n == m
  {
  }

  // ---------- the poll after it ----------

  /** A request whose slot has no registration finds the first free entry, after `n` others. */
  lemma LoadOne(l: Local, n: nat, num: int, slot: nat)
    requires NumbersOk(l) && FindPollfd(l, POLLFD_START) == Some(0) && FindFd(l.fds, num) == Some(slot) &&
             num >= FD_START
    requires n < |l.pollfds[0].lfds| && forall j | 0 <= j < |l.pollfds[0].lfds| :: l.pollfds[0].lfds[j].active <==>
             j < n
    requires forall j | 0 <= j < n :: l.pollfds[0].lfds[j].slot != slot
    ensures var reqs := [PollReq(num, 1)];
            AddAll(l, POLLFD_START, reqs, 0) ==
            (WithTable(l, 0, l.pollfds[0].lfds[n := RequestListener(l, reqs, 0)]), Ret(0))
  {
    hide SignExtend, IsEventSet;
    var lfds := l.pollfds[0].lfds;
    assert !lfds[n].active;
    assert EmptyListener(lfds) == Some(n);
  }

  /** What a level-triggered registration of one of the three listeners reports. */
  lemma ListenerEntry(s: Sys, r: Role, k: nat, lfds: seq<Listener>, j: nat)
    requires ThreeListeners(s, r, k) && j < |lfds| && lfds[j].active && lfds[j].level && lfds[j].slot < 3
    ensures Entry(r, PassStart(s.shared, s.Loc(r), lfds), s.Loc(r).interfaces, j) ==
            if lfds[j].slot == 0 then [Report(j, 0, false, lfds[j].data, EPOLLIN)] else []
  {
    hide SysInv, Ready;
    FirstIsReady(s, r, k, lfds[j].slot, lfds[j].events);
    var fd := s.Loc(r).fds[lfds[j].slot];
    assert fd == ListeningFd(lfds[j].slot, s.shared.ifaces[k].OwnAddress(r), lfds[j].slot + 1, lfds[j].slot);
  }

  /** A pass with room for one entry over a level-triggered table of connected descriptors. */
  lemma OneEntryPass(r: Role, sh: Shared, l: Local, k: nat, epfd: int, x: nat)
    requires TablesOk(sh, l) && FindPollfd(l, epfd) == Some(k) && x < |l.pollfds[k].lfds|
    requires forall j | 0 <= j < |l.pollfds[k].lfds| && l.pollfds[k].lfds[j].active ::
               l.pollfds[k].lfds[j].level && !Unconnected(l.fds, l.pollfds[k].lfds[j])
    requires forall j | 0 <= j < x :: Entry(r, StartScan(sh, l, k), l.interfaces, j) == []
    requires |Entry(r, StartScan(sh, l, k), l.interfaces, x)| == 1
    ensures DoScan(r, sh, l, epfd, 1).out == Events(Entry(r, StartScan(sh, l, k), l.interfaces, x))
    ensures MixedTable(StartScan(sh, l, k))
  {
    hide ScanFrom, Entry, MeetsUnconnected, FdOk, Entries, MixedTable;
    var s := StartScan(sh, l, k);
    LevelHere(sh, l, k);
    if MeetsUnconnected(s, r, l.interfaces, 0, 1) {
      MetIsUnconnected(s, r, l.interfaces, 0, 1);
    }
    ScanFromUndefined(s, r, l.interfaces, 0, 1);
    LevelIsMixed(s);
    LevelScan(s, r, l.interfaces, 0, 1);
    FirstEntry(r, s, l.interfaces, 0, x);
    assert [] + Entry(r, s, l.interfaces, x) == Entry(r, s, l.interfaces, x);
  }

  lemma LevelHere(sh: Shared, l: Local, k: nat)
    requires TablesOk(sh, l) && k < |l.pollfds|
    requires forall j | 0 <= j < |l.pollfds[k].lfds| && l.pollfds[k].lfds[j].active :: l.pollfds[k].lfds[j].level
    ensures LevelTable(StartScan(sh, l, k)) && ScanReady(StartScan(sh, l, k))
  {
    hide FdOk;
    assert TableOk(l.pollfds[k].lfds);
  }

  lemma {:induction false} FirstEntry(r: Role, s: Scan, interfaces: seq<Option<nat>>, j: nat, x: nat)
    requires j <= x < |s.lfds| &&
             (forall i | j <= i < x :: Entry(r, s, interfaces, i) == []) && |Entry(r, s, interfaces, x)| == 1
    ensures Take(Entries(r, s, interfaces, j), 1) == Entry(r, s, interfaces, x)
    decreases x - j
  {
    hide Entry;
    EntriesSplit(r, s, interfaces, j);
    if j < x { FirstEntry(r, s, interfaces, j + 1, x); }
  }

  /** The table entry of a level-triggered request for input on listener `i`. */
  function InputListener(i: nat, data: int): Listener {
    Listener(true, true, 1, data, i)
  }

  lemma RequestIsInput(l: Local, reqs: seq<PollReq>, j: nat, i: nat)
    requires j < |reqs| && reqs[j] == PollReq(FD_START + i, 1) && FindFd(l.fds, FD_START + i) == Some(i)
    ensures RequestListener(l, reqs, j) == InputListener(i, j)
  {
    assert SignExtend(1) == 1;
    assert !IsEventSet(1, EPOLLET);
  }

  /** A pass over such entries reports the first one of the first listener. */
  lemma PassReports(s: Sys, r: Role, k: nat, l: Local, x: nat)
    requires ThreeListeners(s, r, k) && TablesOk(s.shared, l) && l.fds == s.Loc(r).fds &&
             l.interfaces == s.Loc(r).interfaces
    requires FindPollfd(l, POLLFD_START) == Some(0) && x < |l.pollfds[0].lfds|
    requires forall j | 0 <= j < |l.pollfds[0].lfds| && l.pollfds[0].lfds[j].active ::
               l.pollfds[0].lfds[j].level && l.pollfds[0].lfds[j].slot < 3
    requires l.pollfds[0].lfds[x].active && l.pollfds[0].lfds[x].slot == 0
    requires forall j | 0 <= j < x :: l.pollfds[0].lfds[j].active && l.pollfds[0].lfds[j].slot != 0
    ensures DoScan(r, s.shared, l, POLLFD_START, 1).out ==
              Events([Report(x, 0, false, l.pollfds[0].lfds[x].data, EPOLLIN)])
  {
    hide SysInv, FilledTo, TablesOk, FindPollfd, DoScan, Entry, MixedTable;
    var lfds := l.pollfds[0].lfds;
    forall j | 0 <= j <= x ensures Entry(r, StartScan(s.shared, l, 0), l.interfaces, j) ==
                                   if j == x then [Report(x, 0, false, lfds[x].data, EPOLLIN)] else []
    {
      ListenerEntry(s, r, k, lfds, j);
    }
    OneEntryPass(r, s.shared, l, 0, POLLFD_START, x);
  }

  /** Entry `j` of `failing` asks for input on listener `slots[j]`. */
  predicate AsksFor(failing: seq<PollReq>, slots: seq<nat>) {
    |slots| <= |failing| && forall j | 0 <= j < |slots| :: slots[j] < 2 && failing[j] == PollReq(FD_START + slots[j], 1)
  }

  lemma ListenersFound(s: Sys, r: Role, k: nat, i: nat)
    requires ThreeListeners(s, r, k) && i < 3
    ensures FindFd(s.Loc(r).fds, FD_START + i) == Some(i) && s.Loc(r).fds[i].state == SListen &&
            s.Loc(r).fds[i].pConn == Some(i)
  {
    hide SysInv;
    FilledFinds(s.Loc(r), 3, i);
  }

  /** What the failed poll has left. */
  lemma TableLeft(s: Sys, r: Role, k: nat, t: Sys, failing: seq<PollReq>, slots: seq<nat>)
    requires Spoilt(s, r, k, t, failing, |slots|) && AsksFor(failing, slots)
    ensures |t.Loc(r).pollfds| > 0
    ensures var lfds := t.Loc(r).pollfds[0].lfds;
            && |lfds| == MAX_FDS_LISTEN
            && (forall j | 0 <= j < |slots| :: j < |lfds| && lfds[j] == InputListener(slots[j], j))
            && (forall j | |slots| <= j < |lfds| :: !lfds[j].active)
  {
    hide SysInv, ThreeListeners, FindPollfd, RequestListener, RegistrableTo;
    HeldAreRegistrable(t.Loc(r), t.Loc(r).pollfds[0].lfds, failing, |slots|);
    assert |slots| <= MAX_FDS_LISTEN by { AtMostAll(t.Loc(r), failing, |slots|); }
    forall j | 0 <= j < |slots| ensures t.Loc(r).pollfds[0].lfds[j] == InputListener(slots[j], j) {
      ListenersFound(s, r, k, slots[j]);
      RequestIsInput(t.Loc(r), failing, j, slots[j]);
    }
  }

  lemma AtMostAll(l: Local, reqs: seq<PollReq>, n: nat)
    requires n <= |reqs| && RegistrableTo(l, reqs, n)
    ensures n <= MAX_FDS_LISTEN
  {
  }

  /** The state in which the poll of the third listener waits, after the failed one. */
  lemma LoadLast(s: Sys, r: Role, k: nat, t: Sys, failing: seq<PollReq>, slots: seq<nat>)
    requires Spoilt(s, r, k, t, failing, |slots|) && AsksFor(failing, slots) && |slots| <= 2
    ensures |t.Loc(r).pollfds| > 0 && |t.Loc(r).pollfds[0].lfds| == MAX_FDS_LISTEN
    ensures var l := t.Loc(r);
            var l' := WithTable(l, 0, l.pollfds[0].lfds[|slots| := InputListener(2, 0)]);
            && AddAll(l, POLLFD_START, [PollReq(FD_START + 2, 1)], 0) == (l', Ret(0)) && TablesOk(t.shared, l')
            && FindPollfd(l', POLLFD_START) == Some(0)
  {
    hide SysInv, ThreeListeners, FindPollfd, RequestListener, AddAll, NumbersOk, PollfdsOk, FdsOk;
    var l := t.Loc(r);
    TableLeft(s, r, k, t, failing, slots);
    LocTables(t, r);
    ListenersFound(s, r, k, 2);
    LoadOne(l, |slots|, FD_START + 2, 2);
    RequestIsInput(l, [PollReq(FD_START + 2, 1)], 0, 2);
    var at, table := AddAllPlaces(l, 0, POLLFD_START, l.pollfds[0].lfds, [PollReq(FD_START + 2, 1)], []);
    LoadedTableOk(l, 0, POLLFD_START, l.pollfds[0].lfds[|slots| := InputListener(2, 0)]);
    SameFdsOk(t.shared, l, WithTable(l, 0, table));
  }

  /** Its only pass reports the first listener, under the data that the failed poll gave it. */
  lemma LastPollReports(s: Sys, r: Role, k: nat, t: Sys, failing: seq<PollReq>, slots: seq<nat>, x: nat)
    requires Spoilt(s, r, k, t, failing, |slots|) && AsksFor(failing, slots) && |slots| <= 2
    requires x < |slots| && slots[x] == 0 && forall j | 0 <= j < x :: slots[j] != 0
    ensures var reqs := [PollReq(FD_START + 2, 1)];
            var l := t.Loc(r);
            && Registers(l, reqs) && DoPollOpen(l) == (l, Ret(POLLFD_START))
            && (var w := Waited(r, t.shared, l, reqs, 0, []);
                && w.effect.out == Events([Report(x, 0, false, x, EPOLLIN)])
                && w == WaitResult(DoScan(r, t.shared, Loaded(l, reqs), POLLFD_START, 1), 1, 0, t.shared,
                                   Loaded(l, reqs)))
  {
    hide SysInv, ThreeListeners, FindPollfd, RequestListener, AddAll, DoScan, TablesOk;
    var l := t.Loc(r);
    var reqs := [PollReq(FD_START + 2, 1)];
    TableLeft(s, r, k, t, failing, slots);
    LoadLast(s, r, k, t, failing, slots);
    var l' := Loaded(l, reqs);
    PassReports(s, r, k, l', x);
    LoopEnds(r, t.shared, l', POLLFD_START, 1, 0, [], 0);
  }

  /** The poll of the third listener writes outside its array. */
  lemma LastPollStrays(s: Sys, r: Role, k: nat, t: Sys, failing: seq<PollReq>)
    requires Spoilt(s, r, k, t, failing, 2) && AsksFor(failing, [1, 0])
    ensures var reqs := [PollReq(FD_START + 2, 1)];
            && Registers(t.Loc(r), reqs) && Strays(LogOf(Waited(r, t.shared, t.Loc(r), reqs, 0, [])), 1)
            && DoPoll(r, t.shared, t.Loc(r), reqs, 0, []).effect.out == Undefined
  {
    hide Spoilt, FindPollfd, AddAll, DoScan, WaitLoop, DeleteAll, DoPollOpen;
    var reqs := [PollReq(FD_START + 2, 1)];
    LastPollReports(s, r, k, t, failing, [1, 0], 1);
    var e := Report(1, 0, false, 1, EPOLLIN);
    assert e in [e];
    AssignedExactly(Zeros(1), [e]);
  }

  /** The clean-up of that poll. */
  lemma LastPollCleansUp(s: Sys, r: Role, k: nat, t: Sys, failing: seq<PollReq>, slots: seq<nat>)
    requires Spoilt(s, r, k, t, failing, |slots|) && AsksFor(failing, slots) && |slots| <= 2
    requires Registers(t.Loc(r), [PollReq(FD_START + 2, 1)])
    ensures var reqs := [PollReq(FD_START + 2, 1)];
            DeleteAll(DoScan(r, t.shared, Loaded(t.Loc(r), reqs), POLLFD_START, 1).local, POLLFD_START, reqs, 0).1 ==
              Ret(0)
  {
    hide SysInv, ThreeListeners, FindPollfd, RequestListener, AddAll, DeleteAll, DoScan, NumbersOk, PollfdsOk, FdsOk,
        DoEpollCreate, Placed;
    var l := t.Loc(r);
    var reqs := [PollReq(FD_START + 2, 1)];
    TableLeft(s, r, k, t, failing, slots);
    LoadLast(s, r, k, t, failing, slots);
    LocTables(t, r);
    var left := l.pollfds[0].lfds;
    assert Placed(l, left, left, reqs, []) by { NothingPlaced(l, left, reqs); }
    assert TableOk(left);
    var at, table := AddAllPlaces(l, 0, POLLFD_START, left, reqs, []);
    var l' := Loaded(l, reqs);
    PlacedInPlace(l, left, table, reqs, at);
    PlacedLocally(l, l', left, table, reqs, at);
    InPlaceLocally(l, l', table, reqs, at, 0);
    PollCleansUp(r, t.shared, l', 0, POLLFD_START, 1, left, table, reqs, at);
  }

  /** The poll of the third listener returns 1 and reports input, which is that of the first. */
  lemma LastPollIsWrong(s: Sys, r: Role, k: nat, t: Sys, failing: seq<PollReq>)
    requires Spoilt(s, r, k, t, failing, 1) && AsksFor(failing, [0])
    ensures var reqs := [PollReq(FD_START + 2, 1)];
            var res := DoPoll(r, t.shared, t.Loc(r), reqs, 0, []);
            && res.effect.out == Ret(1) && res.revents == [1] && res.last == t.shared
            && FindFd(t.Loc(r).fds, FD_START + 2).Some? && ReadyFor(r, t.shared, t.Loc(r), reqs[0]) == 0
  {
    hide SysInv, ThreeListeners, FindPollfd, AddAll, DoScan, WaitLoop, DeleteAll, DoPollOpen, Ready;
    var reqs := [PollReq(FD_START + 2, 1)];
    LastPollReports(s, r, k, t, failing, [0], 0);
    LastPollCleansUp(s, r, k, t, failing, [0]);
    ListenersFound(s, r, k, 2);
    FirstIsReady(s, r, k, 2, SignExtend(1));
    assert Truncate(EPOLLIN) == 1 && Truncate(0) == 0;
    var e := Report(0, 0, false, 0, EPOLLIN);
    assert [e] == [e] + [];
    AssignOne(Zeros(1), e, []);
    AssignNothing([1]);
    assert Zeros(1)[0 := 1] == [1];
  }

  // ---------- the runs ----------

  /**
   A write outside the array: three listeners, a poll that names the second, the first and a number that is
   not open, and then a poll of the third, which is in use, is not poisoned, and gets registered.
   */
  lemma StrayWriteIsReached(s: Sys, r: Role, k: nat) returns (moves: seq<Move>, failing: seq<PollReq>)
    requires Initial(s) && Some(k) in s.Loc(r).interfaces && Reaches(s, Other(r), k)
    ensures Playable(s, moves) && Playable(Run(s, moves), PollMoves(Run(s, moves), r, failing, 0, []))
    ensures var t := Run(s, moves);
            var u := Run(t, PollMoves(t, r, failing, 0, []));
            var reqs := [PollReq(FD_START + 2, 1)];
            && DoPoll(r, t.shared, t.Loc(r), failing, 0, []).effect.out == Fail(-1, EBADF)
            && AllInUse(u.Loc(r), reqs) && Registers(u.Loc(r), reqs)
            && Strays(LogOf(Waited(r, u.shared, u.Loc(r), reqs, 0, [])), |reqs|)
            && DoPoll(r, u.shared, u.Loc(r), reqs, 0, []).effect.out == Undefined
  {
    hide Initial, Run, Playable, PollMoves, DoPoll, Strays, Waited, ThreeListeners, Registers, Reaches, Holds;
    moves := ReachThreeListeners(s, r, k);
    var t := Run(s, moves);
    failing := [PollReq(FD_START + 1, 1), PollReq(FD_START, 1), PollReq(FD_START + 299, 1)];
    assert RegistrableTo(t.Loc(r), failing, 2) && FindFd(t.Loc(r).fds, FD_START + 299).None? by {
      NotAll(t, r, k, failing);
    }
    FailFirstPoll(t, r, k, failing, 2);
    var u := Run(t, PollMoves(t, r, failing, 0, []));
    LastPollStrays(t, r, k, u, failing);
    ListenersFound(t, r, k, 2);
  }

  /** The numbers 700 and 701 are open and 999 is not. */
  lemma NotAll(s: Sys, r: Role, k: nat, failing: seq<PollReq>)
    requires ThreeListeners(s, r, k)
    ensures FindFd(s.Loc(r).fds, FD_START).Some? && FindFd(s.Loc(r).fds, FD_START + 1).Some? &&
            FindFd(s.Loc(r).fds, FD_START + 299).None?
    ensures |failing| >= 2 && failing[0].fd == FD_START + 1 && failing[1].fd == FD_START ==>
              RegistrableTo(s.Loc(r), failing, 2)
    ensures |failing| >= 1 && failing[0].fd == FD_START ==> RegistrableTo(s.Loc(r), failing, 1)
    ensures |failing| >= 1 && failing[0].fd == FD_START + 1 ==> RegistrableTo(s.Loc(r), failing, 1)
  {
    hide SysInv;
    ListenersFound(s, r, k, 0);
    ListenersFound(s, r, k, 1);
  }

  /** A wrong answer: after a failed poll that names the first, a poll of the third returns the input of the first. */
  lemma WrongAnswerIsReached(s: Sys, r: Role, k: nat) returns (moves: seq<Move>, failing: seq<PollReq>)
    requires Initial(s) && Some(k) in s.Loc(r).interfaces && Reaches(s, Other(r), k)
    ensures Playable(s, moves) && Playable(Run(s, moves), PollMoves(Run(s, moves), r, failing, 0, []))
    ensures var t := Run(s, moves);
            var u := Run(t, PollMoves(t, r, failing, 0, []));
            var reqs := [PollReq(FD_START + 2, 1)];
            var res := DoPoll(r, u.shared, u.Loc(r), reqs, 0, []);
            && DoPoll(r, t.shared, t.Loc(r), failing, 0, []).effect.out == Fail(-1, EBADF)
            && res.effect.out == Ret(1) && res.revents == [1]
            && FindFd(u.Loc(r).fds, FD_START + 2).Some? && ReadyFor(r, res.last, u.Loc(r), reqs[0]) == 0
  {
    hide Initial, Run, Playable, PollMoves, DoPoll, ThreeListeners, Reaches, Spoilt, ReadyFor;
    moves := ReachThreeListeners(s, r, k);
    var t := Run(s, moves);
    failing := [PollReq(FD_START, 1), PollReq(FD_START + 299, 1)];
    NotAll(t, r, k, failing);
    FailFirstPoll(t, r, k, failing, 1);
    LastPollIsWrong(t, r, k, Run(t, PollMoves(t, r, failing, 0, [])), failing);
  }

  // ---------- a leftover whose slot has been taken ----------

  /** With slot 1 rewritten, it is the first free one or the third listener is where it was. */
  lemma SecondRewritten(l: Local, fd: Fd)
    requires FilledTo(l, 3)
    ensures !fd.active ==> EmptyFd(l.fds[1 := fd]) == Some(1)
    ensures fd.num != FD_START + 2 ==> FindFd(l.fds[1 := fd], FD_START + 2) == Some(2)
  {
    var fds := l.fds[1 := fd];
    assert fds[0] == l.fds[0] && fds[2] == l.fds[2] && fds[1] == fd;
    EmptyFdExactly(fds, 1);
    FindFdExactly(fds, FD_START + 2, 2);
  }

  lemma AreFilled(s: Sys, r: Role, k: nat)
    requires ThreeListeners(s, r, k)
    ensures FilledTo(s.Loc(r), 3) && {0, 1, 2, 3} == s.shared.conns.Keys && s.shared.conns[1] == NewListenerConnection()
  {
  }

  lemma NextNumber(l: Local, n: nat)
    requires FilledTo(l, n)
    ensures l.currentMaxFd == FD_START + n && |l.fds| == MAX_FDS
  {
  }

  /** The second listener closed and a socket opened in its slot. */
  lemma TakeSecondSlot(s: Sys, r: Role, k: nat, t: Sys, failing: seq<PollReq>) returns (moves: seq<Move>)
    requires Spoilt(s, r, k, t, failing, 1)
    ensures Playable(t, moves) && SysInv(Run(t, moves))
    ensures var u := Run(t, moves); var l := u.Loc(r);
            && |l.fds| == MAX_FDS && l.fds[2] == t.Loc(r).fds[2] && l.pollfds == t.Loc(r).pollfds
            && l.pollEpfd == POLLFD_START
            && FindFd(l.fds, FD_START + 2) == Some(2) && l.fds[1].active && l.fds[1].pConn.None?
  {
    hide SysInv, Run, Playable, Step, Holds, FindPollfd, ThreeListeners, FilledTo;
    AreFilled(s, r, k);
    ListenersFound(s, r, k, 1);
    ListenersFound(s, r, k, 2);
    var m0 := Move(r, Close(FD_START + 1));
    CloseAt(t, r, 1, FD_START + 1, 1);
    var t1 := Step(t, m0).0;
    SecondRewritten(s.Loc(r), t1.Loc(r).fds[1]);
    assert s.Loc(r).currentMaxFd == FD_START + 3 by { NextNumber(s.Loc(r), 3); }
    var m1 := Move(r, Socket(true, true, true));
    SocketAt(t1, r, 1);
    PlayNothing(t);
    PlayMore(t, [], m0);
    PlayMore(t, [m0], m1);
    assert [m0] + [m1] == [m0, m1];
    moves := [m0, m1];
    RunKeepsInv(t, moves);
    SecondRewritten(s.Loc(r), Run(t, moves).Loc(r).fds[1]);
    assert Run(t, moves).Loc(r).fds == s.Loc(r).fds[1 := Run(t, moves).Loc(r).fds[1]];
  }

  /** A poll of the third listener then follows the null pointer of that socket. */
  lemma LeftSocketIsFatal(u: Sys, r: Role, data: int)
    requires SysInv(u) && u.Loc(r).pollEpfd == POLLFD_START && FindPollfd(u.Loc(r), POLLFD_START) == Some(0)
    requires FindFd(u.Loc(r).fds, FD_START + 2) == Some(2) && u.Loc(r).fds[1].active && u.Loc(r).fds[1].pConn.None?
    requires var lfds := u.Loc(r).pollfds[0].lfds;
             |lfds| == MAX_FDS_LISTEN && lfds[0] == InputListener(1, data) &&
               forall j | 1 <= j < |lfds| :: !lfds[j].active
    ensures Registers(u.Loc(r), [PollReq(FD_START + 2, 1)])
    ensures DoPoll(r, u.shared, u.Loc(r), [PollReq(FD_START + 2, 1)], 0, []).effect.out == Undefined
  {
    hide Inv, FindPollfd, RequestListener, AddAll, NumbersOk, PollfdsOk, FdsOk, ScanFrom, MeetsUnconnected,
        DoEpollCreate;
    var l := u.Loc(r);
    var reqs := [PollReq(FD_START + 2, 1)];
    LocTables(u, r);
    LoadOne(l, 1, FD_START + 2, 2);
    var table := l.pollfds[0].lfds[1 := RequestListener(l, reqs, 0)];
    var l' := WithTable(l, 0, table);
    if r == Client { InvSymmetric(u.shared, u.server, u.client); }
    LoadedOk(u.shared, l, u.Loc(Other(r)), reqs);
    SamePollfd(l, 0, POLLFD_START, table);
    MeetsHere(StartScan(u.shared, l', 0), r, l'.interfaces, 0, 1);
    ScanUndefined(r, u.shared, l', Wait(POLLFD_START, 1));
    LoopEnds(r, u.shared, l', POLLFD_START, 1, 0, [], 0);
  }

  /**
   A null pointer: the poll that fails names the second listener, which is then closed, and a new socket
   takes its slot; the poll of the third listener meets that socket.
   */
  lemma NullPollIsReached(s: Sys, r: Role, k: nat) returns (moves: seq<Move>, failing: seq<PollReq>, more: seq<Move>)
    requires Initial(s) && Some(k) in s.Loc(r).interfaces && Reaches(s, Other(r), k)
    ensures Playable(s, moves) && Playable(Run(s, moves), PollMoves(Run(s, moves), r, failing, 0, []))
    ensures var t := Run(s, moves);
            var t' := Run(t, PollMoves(t, r, failing, 0, []));
            var u := Run(t', more);
            var reqs := [PollReq(FD_START + 2, 1)];
            && DoPoll(r, t.shared, t.Loc(r), failing, 0, []).effect.out == Fail(-1, EBADF) && Playable(t', more)
            && AllInUse(u.Loc(r), reqs) && Registers(u.Loc(r), reqs)
            && DoPoll(r, u.shared, u.Loc(r), reqs, 0, []).effect.out == Undefined
  {
    hide Initial, Run, Playable, PollMoves, DoPoll, ThreeListeners, Registers, Reaches, Holds, SysInv, FindPollfd;
    moves := ReachThreeListeners(s, r, k);
    var t := Run(s, moves);
    failing := [PollReq(FD_START + 1, 1), PollReq(FD_START + 299, 1)];
    NotAll(t, r, k, failing);
    FailFirstPoll(t, r, k, failing, 1);
    var t' := Run(t, PollMoves(t, r, failing, 0, []));
    TableLeft(t, r, k, t', failing, [1]);
    more := TakeSecondSlot(t, r, k, t', failing);
    var u := Run(t', more);
    ListenersFound(t, r, k, 2);
    SamePollfds(t'.Loc(r), u.Loc(r), POLLFD_START);
    LeftSocketIsFatal(u, r, 0);
  }
}
