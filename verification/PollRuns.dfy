/**
 poll over whole runs. A poll is a run of simpler calls, so every result about runs covers processes that
 poll; and while no poll leaves registrations behind, the internal table is empty before each of them, so
 each is a direct readiness test.
 */
module PollRuns {
  import opened Basics
  import opened Connections
  import opened Descriptors
  import opened Readiness
  import opened Duplex
  import opened Scanning
  import opened Reachability
  import opened LevelTriggered
  import opened Waiting
  import opened RegistryRuns
  import opened Polling
  import opened BlockingCalls

  // ---------- a poll is a run ----------

  /** The registrations from request `i` on, up to the first that fails. */
  function AddMoves(s: Sys, r: Role, epfd: int, reqs: seq<PollReq>, i: nat): seq<Move>
    decreases |reqs| - i
  {
    if i >= |reqs| then []
    else
      var m := Move(r, EpollCtl(epfd, CtlAdd, reqs[i].fd, SignExtend(reqs[i].events), i));
      var t := Step(s, m);
      if t.1 == Ret(0) then [m] + AddMoves(t.0, r, epfd, reqs, i + 1) else [m]
  }

  function DeleteMoves(s: Sys, r: Role, epfd: int, reqs: seq<PollReq>, i: nat): seq<Move>
    decreases |reqs| - i
  {
    if i >= |reqs| then []
    else
      var m := Move(r, EpollCtl(epfd, CtlDel, reqs[i].fd, 0, 0));
      var t := Step(s, m);
      if t.1 == Ret(0) then [m] + DeleteMoves(t.0, r, epfd, reqs, i + 1) else [m]
  }

  /** Does poll get as far as its clean-up? */
  predicate Finishes(w: WaitResult, reqs: seq<PollReq>) {
    w.effect.out != Blocked && w.effect.out != Undefined &&
    Assign(Zeros(|reqs|), if w.effect.out.Events? then w.effect.out.log else []).Some?
  }

  /** The part of poll after its table exists: register, wait, deregister. */
  function TableMoves(s: Sys, r: Role, epfd: int, reqs: seq<PollReq>, timeout: int, gaps: seq<seq<Move>>): seq<Move> {
    var adds := AddMoves(s, r, epfd, reqs, 0);
    if AddAll(s.Loc(r), epfd, reqs, 0).1 != Ret(0) then adds
    else
      var t := Run(s, adds);
      var waits := PwaitMoves(t, r, epfd, |reqs|, timeout, gaps, 0);
      var w := EpollPwait(r, t.shared, t.Loc(r), epfd, |reqs|, timeout,
                          PwaitSnapshots(t, r, epfd, |reqs|, timeout, gaps, 0));
      adds + waits + if Finishes(w, reqs) then DeleteMoves(Run(t, waits), r, epfd, reqs, 0) else []
  }

  function PollMoves(s: Sys, r: Role, reqs: seq<PollReq>, timeout: int, gaps: seq<seq<Move>>): seq<Move> {
    var t := Step(s, Move(r, PollOpen));
    [Move(r, PollOpen)] + if t.1.Ret? then TableMoves(t.0, r, t.1.value, reqs, timeout, gaps) else []
  }

  /** What memory holds after each sleep of that poll. */
  function PollSnapshots(s: Sys, r: Role, reqs: seq<PollReq>, timeout: int, gaps: seq<seq<Move>>): seq<Shared> {
    var t := Step(s, Move(r, PollOpen));
    if !t.1.Ret? || AddAll(t.0.Loc(r), t.1.value, reqs, 0).1 != Ret(0) then []
    else PwaitSnapshots(Run(t.0, AddMoves(t.0, r, t.1.value, reqs, 0)), r, t.1.value, |reqs|, timeout, gaps, 0)
  }

  /** The peer's moves can be played when their turn comes, and no pass of the wait is undefined. */
  predicate PollGapsPlayable(s: Sys, r: Role, reqs: seq<PollReq>, timeout: int, gaps: seq<seq<Move>>) {
    var t := Step(s, Move(r, PollOpen));
    t.1.Ret? && AddAll(t.0.Loc(r), t.1.value, reqs, 0).1 == Ret(0) ==>
      PwaitPlayable(Run(t.0, AddMoves(t.0, r, t.1.value, reqs, 0)), r, t.1.value, |reqs|, timeout, gaps, 0)
  }

  lemma CtlStep(s: Sys, r: Role, epfd: int, op: CtlOp, num: int, events: EventMask, data: int)
    ensures var m := Move(r, EpollCtl(epfd, op, num, events, data));
            var e := DoEpollCtl(s.Loc(r), epfd, op, num, events, data);
            && Step(s, m).1 == e.1 != Undefined && AllocationOk(r, s.shared, s.Loc(r), m.call)
            && Step(s, m).0.Loc(r) == e.0 && Step(s, m).0.shared == s.shared
            && Step(s, m).0.Loc(Other(r)) == s.Loc(Other(r))
  {
    hide DoEpollCtl;
    CtlDefined(s.Loc(r), epfd, op, num, events, data);
  }

  lemma PlayFirst(s: Sys, m: Move, rest: seq<Move>)
    requires AllocationOk(m.role, s.shared, s.Loc(m.role), m.call) && Step(s, m).1 != Undefined
    ensures Run(s, [m] + rest) == Run(Step(s, m).0, rest)
    ensures Playable(s, [m] + rest) <==> Playable(Step(s, m).0, rest)
  {
    hide Step, AllocationOk;
    assert ([m] + rest)[1..] == rest;
  }

  lemma {:induction false} AddMovesRun(s: Sys, r: Role, epfd: int, reqs: seq<PollReq>, i: nat)
    ensures var t := Run(s, AddMoves(s, r, epfd, reqs, i));
            && t.Loc(r) == AddAll(s.Loc(r), epfd, reqs, i).0 && t.shared == s.shared
            && t.Loc(Other(r)) == s.Loc(Other(r))
    ensures Playable(s, AddMoves(s, r, epfd, reqs, i))
    decreases |reqs| - i
  {
    hide Step, DoEpollCtl, SignExtend, AllocationOk;
    if i < |reqs| {
      var m := Move(r, EpollCtl(epfd, CtlAdd, reqs[i].fd, SignExtend(reqs[i].events), i));
      CtlStep(s, r, epfd, CtlAdd, reqs[i].fd, SignExtend(reqs[i].events), i);
      var t := Step(s, m);
      if t.1 == Ret(0) {
        AddMovesRun(t.0, r, epfd, reqs, i + 1);
        PlayFirst(s, m, AddMoves(t.0, r, epfd, reqs, i + 1));
      } else {
        OneMove(s, m);
      }
    }
  }

  lemma {:induction false} DeleteMovesRun(s: Sys, r: Role, epfd: int, reqs: seq<PollReq>, i: nat)
    ensures var t := Run(s, DeleteMoves(s, r, epfd, reqs, i));
            && t.Loc(r) == DeleteAll(s.Loc(r), epfd, reqs, i).0 && t.shared == s.shared
            && t.Loc(Other(r)) == s.Loc(Other(r))
    ensures Playable(s, DeleteMoves(s, r, epfd, reqs, i))
    decreases |reqs| - i
  {
    hide Step, DoEpollCtl, AllocationOk;
    if i < |reqs| {
      var m := Move(r, EpollCtl(epfd, CtlDel, reqs[i].fd, 0, 0));
      CtlStep(s, r, epfd, CtlDel, reqs[i].fd, 0, 0);
      var t := Step(s, m);
      if t.1 == Ret(0) {
        DeleteMovesRun(t.0, r, epfd, reqs, i + 1);
        PlayFirst(s, m, DeleteMoves(t.0, r, epfd, reqs, i + 1));
      } else {
        OneMove(s, m);
      }
    }
  }

  lemma EndKeepsMemory(w: WaitResult, epfd: int, reqs: seq<PollReq>)
    ensures PollEnd(w, epfd, reqs).effect.shared == w.effect.shared
    ensures PollEnd(w, epfd, reqs).effect.local == if Finishes(w, reqs) then DeleteAll(w.effect.local, epfd, reqs, 0).0
              else w.effect.local
  {
    hide DeleteAll, Assign;
  }

  lemma TableMovesRun(s: Sys, r: Role, epfd: int, reqs: seq<PollReq>, timeout: int, gaps: seq<seq<Move>>)
    requires forall n | 0 <= n < |gaps| :: PeerMoves(r, gaps[n])
    ensures var t := Run(s, TableMoves(s, r, epfd, reqs, timeout, gaps));
            var adds := AddMoves(s, r, epfd, reqs, 0);
            var snapshots := if AddAll(s.Loc(r), epfd, reqs, 0).1 != Ret(0) then []
                             else PwaitSnapshots(Run(s, adds), r, epfd, |reqs|, timeout, gaps, 0);
            var res := PollOn(r, s.shared, s.Loc(r), epfd, reqs, timeout, snapshots);
            t.shared == res.effect.shared && t.Loc(r) == res.effect.local
    ensures Playable(s, TableMoves(s, r, epfd, reqs, timeout, gaps)) <==>
            (AddAll(s.Loc(r), epfd, reqs, 0).1 == Ret(0) ==>
               PwaitPlayable(Run(s, AddMoves(s, r, epfd, reqs, 0)), r, epfd, |reqs|, timeout, gaps, 0))
  {
    hide Run, Playable, AddAll, DeleteAll, AddMoves, DeleteMoves, PwaitMoves, PwaitSnapshots, PwaitPlayable, WaitLoop,
        PeerMoves, PollEnd, Finishes;
    var adds := AddMoves(s, r, epfd, reqs, 0);
    AddMovesRun(s, r, epfd, reqs, 0);
    if AddAll(s.Loc(r), epfd, reqs, 0).1 == Ret(0) {
      var t := Run(s, adds);
      var waits := PwaitMoves(t, r, epfd, |reqs|, timeout, gaps, 0);
      var w := EpollPwait(r, t.shared, t.Loc(r), epfd, |reqs|, timeout,
                          PwaitSnapshots(t, r, epfd, |reqs|, timeout, gaps, 0));
      EpollPwaitIsRun(t, r, epfd, |reqs|, timeout, gaps, 0);
      EndKeepsMemory(w, epfd, reqs);
      var u := Run(t, waits);
      DeleteMovesRun(u, r, epfd, reqs, 0);
      RunAppend(s, adds, waits);
      var deletes := if Finishes(w, reqs) then DeleteMoves(u, r, epfd, reqs, 0) else [];
      RunAppend(s, adds + waits, deletes);
      PlayNothing(u);
    }
  }

  /**
   poll is a run of the calls of the two-process system: creating the table if it is the first poll, the
   registrations, the passes of the wait with the peer's moves between them, and the clean-up.
   */
  lemma PollIsRun(s: Sys, r: Role, reqs: seq<PollReq>, timeout: int, gaps: seq<seq<Move>>)
    requires forall n | 0 <= n < |gaps| :: PeerMoves(r, gaps[n])
    ensures var t := Run(s, PollMoves(s, r, reqs, timeout, gaps));
            var res := DoPoll(r, s.shared, s.Loc(r), reqs, timeout, PollSnapshots(s, r, reqs, timeout, gaps));
            t.shared == res.effect.shared && t.Loc(r) == res.effect.local
    ensures Playable(s, PollMoves(s, r, reqs, timeout, gaps)) <==> PollGapsPlayable(s, r, reqs, timeout, gaps)
  {
    hide Run, Playable, AddAll, AddMoves, PwaitSnapshots, PwaitPlayable, PeerMoves, PollOn, TableMoves, DoEpollCreate;
    var m := Move(r, PollOpen);
    var t := Step(s, m);
    OpenStep(s, r);
    if t.1.Ret? {
      TableMovesRun(t.0, r, t.1.value, reqs, timeout, gaps);
      PlayFirst(s, m, TableMoves(t.0, r, t.1.value, reqs, timeout, gaps));
    } else {
      OneMove(s, m);
      assert [m] + [] == [m];
    }
  }

  lemma OpenStep(s: Sys, r: Role)
    ensures var t := Step(s, Move(r, PollOpen));
            && t.1 == DoPollOpen(s.Loc(r)).1 != Undefined && AllocationOk(r, s.shared, s.Loc(r), PollOpen)
            && t.0.Loc(r) == DoPollOpen(s.Loc(r)).0 && t.0.shared == s.shared && t.0.Loc(Other(r)) == s.Loc(Other(r))
  {
  }

  // ---------- the internal table between polls ----------

  /** The table of poll does not exist yet, or it is open and empty. */
  predicate PollReady(l: Local) {
    l.pollEpfd == -1 || (FindPollfd(l, l.pollEpfd).Some? && EmptyTable(l.pollfds[FindPollfd(l, l.pollEpfd).value].lfds))
  }

  /** A call of the application on the epoll table that poll uses. */
  predicate Touches(epfd: int, call: Call) {
    epfd != -1 && ((call.EpollCtl? && call.epfd == epfd) || (call.Close? && call.num == epfd))
  }

  /** `after` is `before`, except that registrations of closed descriptors may have been dropped. */
  predicate Dropped(fds: seq<Fd>, before: seq<Listener>, after: seq<Listener>) {
    |after| == |before| && forall j | 0 <= j < |before| ::
      after[j] == before[j] || (after[j] == before[j].(active := false) && !Live(fds, before[j]))
  }

  lemma NothingDropped(l: Local, l': Local, epfd: int, k: nat)
    requires FindPollfd(l, epfd) == Some(k) && l'.pollfds == l.pollfds
    ensures FindPollfd(l', epfd) == Some(k) && Dropped(l.fds, l.pollfds[k].lfds, l'.pollfds[k].lfds)
  {
  }

  /** Another table than `k` is rewritten. */
  lemma OtherTableRewritten(l: Local, l': Local, k2: nat, epfd: int, k: nat)
    requires PollfdsOk(l) && FindPollfd(l, epfd) == Some(k) && k2 < |l.pollfds| && k2 != k
    requires |l'.pollfds| == |l.pollfds| && l'.pollfds == l.pollfds[k2 := l'.pollfds[k2]]
    requires l'.pollfds[k2].active ==> l'.pollfds[k2].num != epfd
    ensures FindPollfd(l', epfd) == Some(k) && Dropped(l.fds, l.pollfds[k].lfds, l'.pollfds[k].lfds)
  {
    hide TableOk, NoneActive, FindPollfd;
    FoundTable(l, epfd);
    OtherTables(l, l', k2, epfd);
  }

  lemma CreateKeepsTable(l: Local, epfd: int, k: nat)
    requires PollfdsOk(l) && FindPollfd(l, epfd) == Some(k)
    ensures var l' := DoEpollCreate(l).0;
            FindPollfd(l', epfd) == Some(k) && Dropped(l.fds, l.pollfds[k].lfds, l'.pollfds[k].lfds)
  {
    hide FindPollfd, Dropped, TableOk, NoneActive;
    var l' := DoEpollCreate(l).0;
    FoundTable(l, epfd);
    if l' == l {
      NothingDropped(l, l', epfd, k);
    } else {
      OtherTableRewritten(l, l', FirstIndex(l.pollfds, (e: EpollFd) => !e.active).value, epfd, k);
    }
  }

  lemma OpenKeepsTable(l: Local, epfd: int, k: nat)
    requires PollfdsOk(l) && FindPollfd(l, epfd) == Some(k)
    ensures var l' := DoPollOpen(l).0;
            FindPollfd(l', epfd) == Some(k) && Dropped(l.fds, l.pollfds[k].lfds, l'.pollfds[k].lfds)
  {
    hide PollfdsOk, DoEpollCreate;
    CreateKeepsTable(l, epfd, k);
    NothingDropped(l, l, epfd, k);
    var c := DoEpollCreate(l).0;
    if l.pollEpfd == -1 {
      SamePollfds(c, DoPollOpen(l).0, epfd);
    }
  }

  lemma CtlKeepsOther(l: Local, e: int, op: CtlOp, num: int, events: EventMask, data: int, epfd: int, k: nat)
    requires PollfdsOk(l) && FindPollfd(l, epfd) == Some(k) && e != epfd
    ensures var l' := DoEpollCtl(l, e, op, num, events, data).0;
            FindPollfd(l', epfd) == Some(k) && Dropped(l.fds, l.pollfds[k].lfds, l'.pollfds[k].lfds)
  {
    hide FindPollfd, Dropped, PollfdsOk, CtlTable;
    var l' := DoEpollCtl(l, e, op, num, events, data).0;
    FoundTable(l, epfd);
    if FindPollfd(l, e).Some? {
      FoundTable(l, e);
      if l' == l {
        NothingDropped(l, l', epfd, k);
      } else {
        OtherTableRewritten(l, l', FindPollfd(l, e).value, epfd, k);
      }
    } else {
      NothingDropped(l, l', epfd, k);
    }
  }

  lemma CloseKeepsOther(r: Role, sh: Shared, l: Local, num: int, epfd: int, k: nat)
    requires PollfdsOk(l) && FindPollfd(l, epfd) == Some(k) && num != epfd
    ensures var l' := DoClose(r, sh, l, num).local;
            FindPollfd(l', epfd) == Some(k) && Dropped(l.fds, l.pollfds[k].lfds, l'.pollfds[k].lfds)
  {
    hide FindPollfd, Dropped, PollfdsOk, RemoveConnection, MarkClosed;
    var l' := DoClose(r, sh, l, num).local;
    FoundTable(l, epfd);
    if num >= POLLFD_START && FindPollfd(l, num).Some? {
      FoundTable(l, num);
      OtherTableRewritten(l, l', FindPollfd(l, num).value, epfd, k);
    } else {
      NothingDropped(l, l', epfd, k);
    }
  }

  lemma ScanKeepsTable(r: Role, sh: Shared, l: Local, e: int, maxevents: int, epfd: int, k: nat)
    requires PollfdsOk(l) && FindPollfd(l, epfd) == Some(k)
    ensures var l' := DoScan(r, sh, l, e, maxevents).local;
            FindPollfd(l', epfd) == Some(k) && Dropped(l.fds, l.pollfds[k].lfds, l'.pollfds[k].lfds)
  {
    hide PollfdsOk, ScanFrom, ConnsFrame, FdsFrame;
    var l' := DoScan(r, sh, l, e, maxevents).local;
    FoundTable(l, epfd);
    if l' == l {
      NothingDropped(l, l, epfd, k);
    } else {
      FoundTable(l, e);
      var k2 := FindPollfd(l, e).value;
      var s := StartScan(sh, l, k2);
      ScanFromFrame(s, r, l.interfaces, 0, maxevents);
      if k2 == k {
        SamePollfd(l, k, epfd, l'.pollfds[k].lfds);
        SamePollfds(WithTable(l, k, l'.pollfds[k].lfds), l', epfd);
      } else {
        OtherTableRewritten(l, l', k2, epfd, k);
      }
    }
  }

  /** A call that does not touch table `k` leaves it where it is and drops at most dead registrations. */
  lemma CallKeepsTable(r: Role, sh: Shared, l: Local, call: Call, epfd: int, k: nat)
    requires PollfdsOk(l) && FindPollfd(l, epfd) == Some(k) && !Touches(epfd, call)
    ensures var l' := Apply(r, sh, l, call).local;
            FindPollfd(l', epfd) == Some(k) && Dropped(l.fds, l.pollfds[k].lfds, l'.pollfds[k].lfds)
  {
    hide DoScan, DoConnect, DoConnectEx, DoAccept, DoListen, DoSocket, DoBind, DoSend, DoRecv, DoClose, DoEpollCreate,
        DoPollOpen, DoEpollCtl;
    hide FindPollfd, PollfdsOk, Dropped;
    assert epfd >= POLLFD_START by { TableNumber(l, epfd); }
    match call
    case EpollCreate => CreateKeepsTable(l, epfd, k);
    case PollOpen => OpenKeepsTable(l, epfd, k);
    case EpollCtl(e, op, num, events, data) => CtlKeepsOther(l, e, op, num, events, data, epfd, k);
    case Wait(e, maxevents) => ScanKeepsTable(r, sh, l, e, maxevents, epfd, k);
    case Close(num) => CloseKeepsOther(r, sh, l, num, epfd, k);
    case _ =>
      CallTouches(r, sh, l, call);
      NothingDropped(l, Apply(r, sh, l, call).local, epfd, k);
  }

  lemma TableNumber(l: Local, epfd: int)
    requires PollfdsOk(l) && FindPollfd(l, epfd).Some?
    ensures epfd >= POLLFD_START
  {
  }

  /** The first step of poll leads to an open, empty table. */
  lemma OpenedIsReady(l: Local)
    requires PollfdsOk(l) && PollfdsOk(DoEpollCreate(l).0) && PollReady(l)
    ensures var e := DoPollOpen(l);
            PollReady(e.0) && e.0.fds == l.fds && e.0.interfaces == l.interfaces &&
              e.0.currentMaxFd == l.currentMaxFd &&
            if e.1.Ret? then e.0.pollEpfd == e.1.value && e.1.value != -1 else l.pollEpfd == -1 && e == DoEpollCreate(l)
  {
    hide PollfdsOk, EmptyTable;
    if l.pollEpfd == -1 && DoEpollCreate(l).1.Ret? {
      var k := FirstIndex(l.pollfds, (e: EpollFd) => !e.active).value;
      var c := DoEpollCreate(l).0;
      assert EmptyTable(l.pollfds[k].lfds) by { FreeTable(l, k); }
      TableFound(c, k);
      FoundTable(c, l.randomPollFd);
      TableNumber(c, l.randomPollFd);
      SamePollfds(c, DoPollOpen(l).0, l.randomPollFd);
    }
  }

  lemma FreeTable(l: Local, k: nat)
    requires PollfdsOk(l) && k < |l.pollfds| && !l.pollfds[k].active
    ensures EmptyTable(l.pollfds[k].lfds)
  {
  }

  lemma CreatedOk(sh: Shared, l: Local, other: Local)
    requires Inv(sh, l, other)
    ensures PollfdsOk(l) && PollfdsOk(DoEpollCreate(l).0) && NumbersOk(l)
  {
    hide Inv, DoEpollCreate;
    EpollCreateKeepsInv(sh, l, other);
    LocalParts(sh, l, other);
    LocalParts(sh, DoEpollCreate(l).0, other);
  }

  lemma CallKeepsReady(r: Role, sh: Shared, l: Local, other: Local, call: Call)
    requires Inv(sh, l, other) && PollReady(l) && !Touches(l.pollEpfd, call)
    ensures PollReady(Apply(r, sh, l, call).local)
  {
    hide Inv, Apply, FindPollfd, DoEpollCreate;
    CreatedOk(sh, l, other);
    if l.pollEpfd == -1 {
      if call.PollOpen? {
        OpenedIsReady(l);
        assert Apply(r, sh, l, call).local == DoPollOpen(l).0 by { OpenCall(r, sh, l); }
      } else {
        CallTouches(r, sh, l, call);
      }
    } else {
      CallTouches(r, sh, l, call);
      CallKeepsTable(r, sh, l, call, l.pollEpfd, FindPollfd(l, l.pollEpfd).value);
    }
  }

  lemma OpenCall(r: Role, sh: Shared, l: Local)
    ensures Apply(r, sh, l, PollOpen).local == DoPollOpen(l).0
  {
  }

  // ---------- polls among other calls ----------

  /** What process `r` and its peer do: one call by either, or a poll by `r` with the peer's moves in its sleeps. */
  datatype Act = Do(move: Move) | Poll(reqs: seq<PollReq>, timeout: int, gaps: seq<seq<Move>>)

  function ActMoves(s: Sys, r: Role, a: Act): seq<Move> {
    match a
    case Do(m) => [m]
    case Poll(reqs, timeout, gaps) => PollMoves(s, r, reqs, timeout, gaps)
  }

  function MovesOf(s: Sys, r: Role, acts: seq<Act>): seq<Move>
    decreases |acts|
  {
    if acts == [] then []
    else
      var first := ActMoves(s, r, acts[0]);
      first + MovesOf(Run(s, first), r, acts[1..])
  }

  function Outcomes(s: Sys, r: Role, a: Act): Outcome {
    match a
    case Do(m) => Step(s, m).1
    case Poll(reqs, timeout, gaps) => DoPoll(r, s.shared, s.Loc(r), reqs, timeout,
                                             PollSnapshots(s, r, reqs, timeout, gaps)).effect.out
  }

  /** Only the peer moves while `r` sleeps in a poll. */
  ghost predicate GapsOfPeer(r: Role, a: Act) {
    a.Poll? ==> forall n | 0 <= n < |a.gaps| :: PeerMoves(r, a.gaps[n])
  }

  /**
   A poll that registers nothing for long: it returns a count, or fails before its first registration, for
   want of a table or because its first descriptor is not open.
   */
  predicate LeavesNothing(l: Local, reqs: seq<PollReq>, out: Outcome) {
    out.Ret? || (out.Fail? && (!DoPollOpen(l).1.Ret? || (reqs != [] && FindFd(l.fds, reqs[0].fd).None?)))
  }

  /** Every poll leaves nothing behind, and no other call of `r` is on the table of poll. */
  ghost predicate PollsLeaveNothing(s: Sys, r: Role, acts: seq<Act>)
    decreases |acts|
  {
    acts == [] ||
    (GapsOfPeer(r, acts[0])
     && (acts[0].Do? && acts[0].move.role == r ==> !Touches(s.Loc(r).pollEpfd, acts[0].move.call))
     && (acts[0].Poll? ==> LeavesNothing(s.Loc(r), acts[0].reqs, Outcomes(s, r, acts[0])))
     && PollsLeaveNothing(Run(s, ActMoves(s, r, acts[0])), r, acts[1..]))
  }

  /** Such a poll leaves the table as it found it: open and empty, or not there. */
  lemma HarmlessPollIsReady(r: Role, sh: Shared, l: Local, other: Local, reqs: seq<PollReq>, timeout: int,
                            schedule: seq<Shared>)
    requires Inv(sh, l, other) && PollReady(l) &&
             LeavesNothing(l, reqs, DoPoll(r, sh, l, reqs, timeout, schedule).effect.out)
    ensures PollReady(DoPoll(r, sh, l, reqs, timeout, schedule).effect.local)
  {
    hide Inv, DoPollOpen, DoEpollCreate, FindPollfd, AddAll, WaitLoop, DeleteAll, Assign, Registrable, NumbersOk,
        EmptyTable;
    CreatedOk(sh, l, other);
    OpenedIsReady(l);
    var e := DoPollOpen(l);
    if e.1.Ret? {
      var epfd := e.1.value;
      NumbersLocal(l, e.0);
      var k := FindPollfd(e.0, epfd).value;
      var n, table := RegistersExactly(e.0, k, epfd, reqs);
      PollLeavesEmptyExactly(r, sh, e.0, k, epfd, reqs, timeout, schedule);
    }
  }

  lemma {:induction false} ActsKeepReady(s: Sys, r: Role, acts: seq<Act>)
    requires SysInv(s) && PollReady(s.Loc(r)) && Playable(s, MovesOf(s, r, acts)) && PollsLeaveNothing(s, r, acts)
    ensures var t := Run(s, MovesOf(s, r, acts)); SysInv(t) && PollReady(t.Loc(r))
    decreases |acts|
  {
    hide SysInv, PollReady, Run, Playable, Touches, Step, PollMoves, DoPoll, PollSnapshots, PeerMoves, LeavesNothing;
    if acts == [] {
      PlayNothing(s);
    } else {
      var first := ActMoves(s, r, acts[0]);
      var t := Run(s, first);
      RunAppend(s, first, MovesOf(t, r, acts[1..]));
      RunKeepsInv(s, first);
      match acts[0] {
      case Do(m) => OneCallKeepsReady(s, r, m);
      case Poll(reqs, timeout, gaps) => OnePollKeepsReady(s, r, reqs, timeout, gaps);
      }
      ActsKeepReady(t, r, acts[1..]);
    }
  }

  lemma OneCallKeepsReady(s: Sys, r: Role, m: Move)
    requires SysInv(s) && PollReady(s.Loc(r)) && Playable(s, [m]) &&
             (m.role == r ==> !Touches(s.Loc(r).pollEpfd, m.call))
    ensures PollReady(Run(s, [m]).Loc(r))
  {
    hide Inv, PollReady, Touches, Apply, Run, Playable;
    OneMove(s, m);
    if m.role == r {
      if r == Client { InvSymmetric(s.shared, s.server, s.client); }
      CallKeepsReady(r, s.shared, s.Loc(r), s.Loc(Other(r)), m.call);
    }
  }

  lemma OnePollKeepsReady(s: Sys, r: Role, reqs: seq<PollReq>, timeout: int, gaps: seq<seq<Move>>)
    requires SysInv(s) && PollReady(s.Loc(r)) && forall n | 0 <= n < |gaps| :: PeerMoves(r, gaps[n])
    requires LeavesNothing(s.Loc(r), reqs,
                           DoPoll(r, s.shared, s.Loc(r), reqs, timeout,
                                  PollSnapshots(s, r, reqs, timeout, gaps)).effect.out)
    ensures PollReady(Run(s, PollMoves(s, r, reqs, timeout, gaps)).Loc(r))
  {
    hide Inv, PollReady, Run, Playable, PollMoves, DoPoll, PollSnapshots, PeerMoves, LeavesNothing;
    if r == Client { InvSymmetric(s.shared, s.server, s.client); }
    PollIsRun(s, r, reqs, timeout, gaps);
    HarmlessPollIsReady(r, s.shared, s.Loc(r), s.Loc(Other(r)), reqs, timeout,
                        PollSnapshots(s, r, reqs, timeout, gaps));
  }

  // ---------- readiness over runs ----------

  /** Every requested socket is connected, connecting or listening. */
  predicate AllInUse(l: Local, reqs: seq<PollReq>) {
    forall i | 0 <= i < |reqs| && FindFd(l.fds, reqs[i].fd).Some? ::
      var state := l.fds[FindFd(l.fds, reqs[i].fd).value].state; state != SCreated && state != SBound
  }

  lemma InUseIsReachable(s: Sys, r: Role, reqs: seq<PollReq>)
    requires SysInv(s) && AllInUse(s.Loc(r), reqs)
    ensures Reachable(s.shared, s.Loc(r), reqs)
  {
    hide NumbersOk, PollfdsOk, InterfacesOk, ListsOk, CountsOk;
    var l := s.Loc(r);
    forall i | 0 <= i < |reqs| && FindFd(l.fds, reqs[i].fd).Some?
      ensures l.fds[FindFd(l.fds, reqs[i].fd).value].pConn.Some?
    {
      assert FdOk(s.shared, l.fds[FindFd(l.fds, reqs[i].fd).value]);
    }
  }

  /** What the peer does during the sleeps of a poll leaves the requested sockets reachable. */
  lemma {:induction false} SnapshotsAreReachable(s: Sys, r: Role, k: nat, epfd: int, reqs: seq<PollReq>, timeout: int,
                                                 gaps: seq<seq<Move>>, n: nat)
    requires SysInv(s) && AllInUse(s.Loc(r), reqs) && FindPollfd(s.Loc(r), epfd) == Some(k)
    requires RequestsOk(s.Loc(r), reqs) && Holds(s.Loc(r), s.Loc(r).pollfds[k].lfds, reqs, 0, |reqs|)
    requires (forall m | 0 <= m < |gaps| :: PeerMoves(r, gaps[m])) &&
             PwaitPlayable(s, r, epfd, |reqs|, timeout, gaps, n)
    ensures AlwaysReachable(s.shared, PwaitSnapshots(s, r, epfd, |reqs|, timeout, gaps, n), s.Loc(r), reqs)
    decreases |gaps|
  {
    hide SysInv, AllInUse, RequestsOk, Holds, Reachable, DoScan, PeerMoves, FindPollfd, Playable, Run, Entries,
        ScanFrame;
    InUseIsReachable(s, r, reqs);
    var l := s.Loc(r);
    var m := Move(r, Wait(epfd, |reqs|));
    var t := Step(s, m);
    if !Stops(t.1, timeout, gaps, n) {
      assert NumbersOk(l) by { SysNumbers(s, r); }
      PollPass(r, s.shared, l, k, epfd, reqs);
      var u := Run(t.0, gaps[0]);
      StepKeepsInv(s, m);
      RunKeepsInv(t.0, gaps[0]);
      PeersKeepTables(t.0, r, gaps[0]);
      SnapshotsAreReachable(u, r, k, epfd, reqs, timeout, gaps[1..], n + 1);
    }
  }

  lemma SysNumbers(s: Sys, r: Role)
    requires SysInv(s)
    ensures NumbersOk(s.Loc(r)) && PollfdsOk(s.Loc(r)) && PollfdsOk(DoEpollCreate(s.Loc(r)).0)
  {
    hide Inv, DoEpollCreate;
    if r == Client { InvSymmetric(s.shared, s.server, s.client); }
    CreatedOk(s.shared, s.Loc(r), s.Loc(Other(r)));
  }

  /** The three ways a poll can end, when all is as it should be. */
  ghost predicate PollAnswers(r: Role, l: Local, reqs: seq<PollReq>, res: PollResult, seen: seq<Shared>) {
    || (l.pollEpfd == -1 && !DoEpollCreate(l).1.Ret? && res.effect.out == DoEpollCreate(l).1)
    || res.effect.out == Blocked
    || (&& res.last in seen && |res.revents| == |reqs| && Registrable(l, reqs)
        && (forall i | 0 <= i < |reqs| ::
            FindFd(l.fds, reqs[i].fd).Some? && res.revents[i] == ReadyFor(r, res.last, l, reqs[i]))
        && res.effect.out == Ret(NonZero(res.revents)) && PollReady(res.effect.local))
  }

  /**
   poll refines a direct readiness test over whole runs. If every earlier poll of the process left nothing
   behind and no other call used the internal table, then a poll on at most 20 distinct sockets in use,
   with non-negative masks, cannot get its table at all (only the first poll), or still waits, or returns
   each descriptor's readiness in a memory it has seen and the number of ready ones, with the table empty.
   */
  lemma PollIsReadinessOverRuns(s: Sys, r: Role, acts: seq<Act>, reqs: seq<PollReq>, timeout: int, gaps: seq<seq<Move>>)
    requires Initial(s) && Playable(s, MovesOf(s, r, acts)) && PollsLeaveNothing(s, r, acts)
    requires RequestsOk(Run(s, MovesOf(s, r, acts)).Loc(r), reqs) && AllInUse(Run(s, MovesOf(s, r, acts)).Loc(r), reqs)
    requires forall n | 0 <= n < |gaps| :: PeerMoves(r, gaps[n])
    requires Playable(Run(s, MovesOf(s, r, acts)), PollMoves(Run(s, MovesOf(s, r, acts)), r, reqs, timeout, gaps))
    ensures var t := Run(s, MovesOf(s, r, acts));
            var snapshots := PollSnapshots(t, r, reqs, timeout, gaps);
            PollAnswers(r, t.Loc(r), reqs, DoPoll(r, t.shared, t.Loc(r), reqs, timeout, snapshots),
                        [t.shared] + snapshots)
  {
    hide SysInv, PollReady, Run, Playable, MovesOf, PollMoves, PollSnapshots, PollsLeaveNothing, RequestsOk, AllInUse,
        DoPoll, PeerMoves, Initial;
    assert SysInv(s) && PollReady(s.Loc(r)) by { InitialReady(s, r); }
    ActsKeepReady(s, r, acts);
    PollAnswersFrom(Run(s, MovesOf(s, r, acts)), r, reqs, timeout, gaps);
  }

  lemma InitialReady(s: Sys, r: Role)
    requires Initial(s)
    ensures SysInv(s) && PollReady(s.Loc(r))
  {
    InitialInv(s);
  }

  lemma PollAnswersFrom(s: Sys, r: Role, reqs: seq<PollReq>, timeout: int, gaps: seq<seq<Move>>)
    requires SysInv(s) && PollReady(s.Loc(r)) && RequestsOk(s.Loc(r), reqs) && AllInUse(s.Loc(r), reqs)
    requires forall n | 0 <= n < |gaps| :: PeerMoves(r, gaps[n])
    requires Playable(s, PollMoves(s, r, reqs, timeout, gaps))
    ensures var snapshots := PollSnapshots(s, r, reqs, timeout, gaps);
            PollAnswers(r, s.Loc(r), reqs, DoPoll(r, s.shared, s.Loc(r), reqs, timeout, snapshots),
                        [s.shared] + snapshots)
  {
    hide SysInv, Playable, Run, PollMoves, AllInUse, RequestsOk, AddMoves, AddAll, DoPollOpen, DoEpollCreate, PollOn,
        PwaitPlayable, PwaitSnapshots, PeerMoves, ReadyFor, NumbersOk, PollfdsOk, FindPollfd, EmptyTable,
          AlwaysReachable, NonZero, Step, Registrable;
    PollIsRun(s, r, reqs, timeout, gaps);
    var l := s.Loc(r);
    var e := DoPollOpen(l);
    OpenStep(s, r);
    SysNumbers(s, r);
    OpenedIsReady(l);
    if e.1.Ret? {
      var t := Step(s, Move(r, PollOpen)).0;
      var epfd := e.1.value;
      var k := FindPollfd(e.0, epfd).value;
      assert SysInv(t) by { StepKeepsInv(s, Move(r, PollOpen)); }
      RequestsLocally(l, e.0, reqs);
      NumbersLocal(l, e.0);
      var u, table := RegistrationRun(t, r, k, epfd, reqs);
      InUseLocally(l, u.Loc(r), reqs);
      SnapshotsAreReachable(u, r, k, epfd, reqs, timeout, gaps, 0);
      var snapshots := PollSnapshots(s, r, reqs, timeout, gaps);
      LocallyReachable(s.shared, snapshots, u.Loc(r), e.0, reqs);
      PollIsReadiness(r, s.shared, e.0, k, epfd, reqs, timeout, snapshots);
      ReadyForLocal(r, PollOn(r, s.shared, e.0, epfd, reqs, timeout, snapshots).last, l, e.0, reqs);
      AllOpen(l, reqs);
    }
  }

  lemma AllOpen(l: Local, reqs: seq<PollReq>)
    requires RequestsOk(l, reqs)
    ensures Registrable(l, reqs) && forall i | 0 <= i < |reqs| :: FindFd(l.fds, reqs[i].fd).Some?
  {
  }

  lemma InUseLocally(l: Local, l': Local, reqs: seq<PollReq>)
    requires AllInUse(l, reqs) && l'.fds == l.fds
    ensures AllInUse(l', reqs)
  {
  }

  /** The state after the registrations of a poll, from an empty table. */
  lemma RegistrationRun(s: Sys, r: Role, k: nat, epfd: int, reqs: seq<PollReq>) returns (t: Sys, table: seq<Listener>)
    requires SysInv(s) && FindPollfd(s.Loc(r), epfd) == Some(k) && EmptyTable(s.Loc(r).pollfds[k].lfds) &&
             RequestsOk(s.Loc(r), reqs)
    ensures t == Run(s, AddMoves(s, r, epfd, reqs, 0)) && AddAll(s.Loc(r), epfd, reqs, 0).1 == Ret(0)
    ensures SysInv(t) && t.shared == s.shared && t.Loc(r) == WithTable(s.Loc(r), k, table) && RequestsOk(t.Loc(r), reqs)
    ensures FindPollfd(t.Loc(r), epfd) == Some(k) && t.Loc(r).pollfds[k].lfds == table &&
            Holds(t.Loc(r), table, reqs, 0, |reqs|)
  {
    hide SysInv, Run, Playable, AddMoves, AddAll, RequestsOk, Holds, EmptyTable, FindPollfd, Registrable, NumbersOk,
        PollfdsOk;
    AllOpen(s.Loc(r), reqs);
    assert NumbersOk(s.Loc(r)) by { SysNumbers(s, r); }
    var n;
    n, table := RegistersExactly(s.Loc(r), k, epfd, reqs);
    AddMovesRun(s, r, epfd, reqs, 0);
    RunKeepsInv(s, AddMoves(s, r, epfd, reqs, 0));
    t := Run(s, AddMoves(s, r, epfd, reqs, 0));
    RequestsLocally(s.Loc(r), t.Loc(r), reqs);
    SamePollfd(s.Loc(r), k, epfd, table);
    HoldsLocally(s.Loc(r), t.Loc(r), table, reqs, 0, |reqs|);
  }
}
