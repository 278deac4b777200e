/**
 A waiting call is a run: its passes are moves of the two-process system, with whatever the peer does
 during the sleeps between them. So the results about runs hold for accept, connect, recv and
 epoll_pwait when they block, and the snapshots that their loops take from a schedule are the memory such a run leaves.
 */
module BlockingCalls {
  import opened Connections
  import opened Descriptors
  import opened Readiness
  import opened Duplex
  import opened Reachability
  import opened Waiting
  import opened Polling
  import opened SharedRegion
  import opened Events

  /** The moves of a waiting call: a pass, and while it is blocked the peer's moves and another pass. */
  function WaitMoves(s: Sys, r: Role, call: Call, gaps: seq<seq<Move>>): seq<Move>
    decreases |gaps|
  {
    var t := Step(s, Move(r, call));
    if t.1 != Blocked || gaps == [] then [Move(r, call)]
    else [Move(r, call)] + gaps[0] + WaitMoves(Run(t.0, gaps[0]), r, call, gaps[1..])
  }

  /** What memory holds after each sleep of that call. */
  function Snapshots(s: Sys, r: Role, call: Call, gaps: seq<seq<Move>>): seq<Shared>
    decreases |gaps|
  {
    var t := Step(s, Move(r, call));
    if t.1 != Blocked || gaps == [] then []
    else [Run(t.0, gaps[0]).shared] + Snapshots(Run(t.0, gaps[0]), r, call, gaps[1..])
  }

  /** The peer's moves can be played when their turn comes, and no pass is undefined. */
  predicate GapsPlayable(s: Sys, r: Role, call: Call, gaps: seq<seq<Move>>)
    decreases |gaps|
  {
    var t := Step(s, Move(r, call));
    t.1 != Undefined &&
    (t.1 == Blocked && gaps != [] ==> Playable(t.0, gaps[0]) && GapsPlayable(Run(t.0, gaps[0]), r, call, gaps[1..]))
  }

  /** A call that waits has done its allocation: its next pass does not need a fresh block. */
  lemma BlockedHasAllocated(r: Role, sh: Shared, l: Local, call: Call, sh': Shared)
    requires Apply(r, sh, l, call).out == Blocked
    ensures AllocationOk(r, sh', Apply(r, sh, l, call).local, call)
  {
    hide DoConnectEx, DoAccept, DoSend, DoRecv, DoClose, DoScan, CtlTable;
    if call.Connect? || call.ConnectEx? {
      BlockedIsConnecting(r, sh, l, call.num, call.addr, call.port, call.block);
    }
  }

  /** A connect that waits has left its descriptor connecting. */
  lemma BlockedIsConnecting(r: Role, sh: Shared, l: Local, num: int, addr: int, port: int, block: Ptr)
    requires DoConnectEx(r, sh, l, num, addr, port, block).out == Blocked
    ensures var fds := DoConnectEx(r, sh, l, num, addr, port, block).local.fds;
            FindFd(fds, num).Some? && fds[FindFd(fds, num).value].state == SConnecting
  {
    hide Publish, InterfaceBySockaddr;
    SameNumbersFound(l.fds, DoConnectEx(r, sh, l, num, addr, port, block).local.fds, num);
  }

  /**
   A waiting call with its schedule ends like the run of its passes and of the peer's moves between them,
   and that run can be played: the one allocation of a connect happens in its first pass.
   */
  lemma {:induction false} WaitingCallIsRun(s: Sys, r: Role, call: Call, gaps: seq<seq<Move>>)
    requires forall k | 0 <= k < |gaps| :: PeerMoves(r, gaps[k])
    ensures var t := Run(s, WaitMoves(s, r, call, gaps));
            var e := Repeat(r, s.shared, s.Loc(r), call, Snapshots(s, r, call, gaps));
            t.shared == e.shared && t.Loc(r) == e.local
    ensures AllocationOk(r, s.shared, s.Loc(r), call) ==>
              (Playable(s, WaitMoves(s, r, call, gaps)) <==> GapsPlayable(s, r, call, gaps))
    decreases |gaps|
  {
    hide Apply, PeerMoves, AllocationOk;
    var m := Move(r, call);
    var t := Step(s, m);
    if t.1 != Blocked || gaps == [] {
      OneMove(s, m);
    } else {
      var u := Run(t.0, gaps[0]);
      PeersKeepTables(t.0, r, gaps[0]);
      BlockedHasAllocated(r, s.shared, s.Loc(r), call, u.shared);
      WaitingCallIsRun(u, r, call, gaps[1..]);
      var rest := WaitMoves(u, r, call, gaps[1..]);
      MoveThenGap(s, m, gaps[0], rest);
      assert Snapshots(s, r, call, gaps)[1..] == Snapshots(u, r, call, gaps[1..]);
    }
  }

  lemma OneMove(s: Sys, m: Move)
    ensures Run(s, [m]) == Step(s, m).0
    ensures Playable(s, [m]) <==> AllocationOk(m.role, s.shared, s.Loc(m.role), m.call) && Step(s, m).1 != Undefined
  {
    hide Step, AllocationOk;
    assert [m][1..] == [];
    assert Run(s, [m]) == Run(Step(s, m).0, []);
    assert Playable(Step(s, m).0, []);
  }

  lemma MoveThenGap(s: Sys, m: Move, gap: seq<Move>, rest: seq<Move>)
    ensures Run(s, [m] + gap + rest) == Run(Run(Step(s, m).0, gap), rest)
    ensures Playable(s, [m] + gap + rest) <==>
              AllocationOk(m.role, s.shared, s.Loc(m.role), m.call) && Step(s, m).1 != Undefined &&
              Playable(Step(s, m).0, gap) && Playable(Run(Step(s, m).0, gap), rest)
  {
    hide Step, AllocationOk;
    RunAppend(Step(s, m).0, gap, rest);
    assert ([m] + gap + rest)[1..] == gap + rest;
  }

  /** The moves of connect: its own pass, and while it is blocked passes of connectEx. */
  function ConnectMoves(s: Sys, r: Role, num: int, addr: int, port: int, block: Ptr, gaps: seq<seq<Move>>): seq<Move> {
    var m := Move(r, Connect(num, addr, port, block));
    var t := Step(s, m);
    if t.1 != Blocked || gaps == [] then [m]
    else [m] + gaps[0] + WaitMoves(Run(t.0, gaps[0]), r, ConnectEx(num, addr, port, block), gaps[1..])
  }

  function ConnectSnapshots(s: Sys, r: Role, num: int, addr: int, port: int, block: Ptr,
                            gaps: seq<seq<Move>>): seq<Shared> {
    var t := Step(s, Move(r, Connect(num, addr, port, block)));
    if t.1 != Blocked || gaps == [] then []
    else [Run(t.0, gaps[0]).shared] + Snapshots(Run(t.0, gaps[0]), r, ConnectEx(num, addr, port, block), gaps[1..])
  }

  predicate ConnectPlayable(s: Sys, r: Role, num: int, addr: int, port: int, block: Ptr, gaps: seq<seq<Move>>) {
    var t := Step(s, Move(r, Connect(num, addr, port, block)));
    t.1 != Undefined &&
    (t.1 == Blocked && gaps != [] ==>
       Playable(t.0, gaps[0]) && GapsPlayable(Run(t.0, gaps[0]), r, ConnectEx(num, addr, port, block), gaps[1..]))
  }

  lemma ConnectHasAllocated(r: Role, sh: Shared, l: Local, num: int, addr: int, port: int, block: Ptr, sh': Shared)
    requires DoConnect(r, sh, l, num, addr, port, block).out == Blocked
    ensures AllocationOk(r, sh', DoConnect(r, sh, l, num, addr, port, block).local, ConnectEx(num, addr, port, block))
  {
    hide DoConnectEx;
    BlockedIsConnecting(r, sh, l, num, addr, port, block);
  }

  lemma ConnectStep(s: Sys, r: Role, num: int, addr: int, port: int, block: Ptr)
    ensures var t := Step(s, Move(r, Connect(num, addr, port, block)));
            var e := DoConnect(r, s.shared, s.Loc(r), num, addr, port, block);
            t.1 == e.out && t.0.Loc(r) == e.local && t.0.shared == e.shared
  {
    hide DoConnect;
  }

  /** connect is the run of these moves, which can be played when the peer's moves can and no pass is undefined. */
  lemma ConnectIsRun(s: Sys, r: Role, num: int, addr: int, port: int, block: Ptr, gaps: seq<seq<Move>>)
    requires forall k | 0 <= k < |gaps| :: PeerMoves(r, gaps[k])
    ensures var t := Run(s, ConnectMoves(s, r, num, addr, port, block, gaps));
            var e := ConnectCall(r, s.shared, s.Loc(r), num, addr, port, block,
                                 ConnectSnapshots(s, r, num, addr, port, block, gaps));
            t.shared == e.shared && t.Loc(r) == e.local
    ensures AllocationOk(r, s.shared, s.Loc(r), Connect(num, addr, port, block)) ==>
              (Playable(s, ConnectMoves(s, r, num, addr, port, block, gaps)) <==>
               ConnectPlayable(s, r, num, addr, port, block, gaps))
  {
    hide Step, Run, Playable, PeerMoves, AllocationOk, DoConnect, Repeat, WaitMoves, Snapshots, GapsPlayable;
    var m := Move(r, Connect(num, addr, port, block));
    var t := Step(s, m);
    ConnectStep(s, r, num, addr, port, block);
    if t.1 != Blocked || gaps == [] {
      OneMove(s, m);
    } else {
      var call := ConnectEx(num, addr, port, block);
      var u := Run(t.0, gaps[0]);
      PeersKeepTables(t.0, r, gaps[0]);
      ConnectHasAllocated(r, s.shared, s.Loc(r), num, addr, port, block, u.shared);
      WaitingCallIsRun(u, r, call, gaps[1..]);
      MoveThenGap(s, m, gaps[0], WaitMoves(u, r, call, gaps[1..]));
      var snapshots := ConnectSnapshots(s, r, num, addr, port, block, gaps);
      assert snapshots[1..] == Snapshots(u, r, call, gaps[1..]);
    }
  }

  // ---------- epoll_pwait ----------

  /** Does the loop of epoll_pwait stop after a pass with outcome `out`, `k` sleeps and `gaps` left? */
  predicate Stops(out: Outcome, timeout: int, gaps: seq<seq<Move>>, k: nat) {
    out != Outcome.Events([]) || (timeout != -1 && k * SLEEP_DURATION > timeout * 1000) || gaps == []
  }

  function PwaitMoves(s: Sys, r: Role, epfd: int, maxevents: int, timeout: int, gaps: seq<seq<Move>>, k: nat): seq<Move>
    decreases |gaps|
  {
    var m := Move(r, Wait(epfd, maxevents));
    var t := Step(s, m);
    if Stops(t.1, timeout, gaps, k) then [m]
    else [m] + gaps[0] + PwaitMoves(Run(t.0, gaps[0]), r, epfd, maxevents, timeout, gaps[1..], k + 1)
  }

  function PwaitSnapshots(s: Sys, r: Role, epfd: int, maxevents: int, timeout: int, gaps: seq<seq<Move>>,
                          k: nat): seq<Shared>
    decreases |gaps|
  {
    var t := Step(s, Move(r, Wait(epfd, maxevents)));
    if Stops(t.1, timeout, gaps, k) then []
    else [Run(t.0, gaps[0]).shared] + PwaitSnapshots(Run(t.0, gaps[0]), r, epfd, maxevents, timeout, gaps[1..], k + 1)
  }

  predicate PwaitPlayable(s: Sys, r: Role, epfd: int, maxevents: int, timeout: int, gaps: seq<seq<Move>>, k: nat)
    decreases |gaps|
  {
    var t := Step(s, Move(r, Wait(epfd, maxevents)));
    t.1 != Undefined &&
    (!Stops(t.1, timeout, gaps, k) ==>
       Playable(t.0, gaps[0]) && PwaitPlayable(Run(t.0, gaps[0]), r, epfd, maxevents, timeout, gaps[1..], k + 1))
  }

  /** The same for epoll_pwait; no pass of it allocates. */
  lemma {:induction false} EpollPwaitIsRun(s: Sys, r: Role, epfd: int, maxevents: int, timeout: int,
                                           gaps: seq<seq<Move>>, k: nat)
    requires forall n | 0 <= n < |gaps| :: PeerMoves(r, gaps[n])
    ensures Playable(s, PwaitMoves(s, r, epfd, maxevents, timeout, gaps, k)) <==>
            PwaitPlayable(s, r, epfd, maxevents, timeout, gaps, k)
    ensures var t := Run(s, PwaitMoves(s, r, epfd, maxevents, timeout, gaps, k));
            var w := WaitLoop(r, s.shared, s.Loc(r), epfd, maxevents, timeout,
                              PwaitSnapshots(s, r, epfd, maxevents, timeout, gaps, k), k);
            t.shared == w.effect.shared && t.Loc(r) == w.effect.local
    decreases |gaps|
  {
    hide DoScan, PeerMoves;
    var m := Move(r, Wait(epfd, maxevents));
    var t := Step(s, m);
    assert AllocationOk(r, s.shared, s.Loc(r), m.call);
    if Stops(t.1, timeout, gaps, k) {
      OneMove(s, m);
    } else {
      var u := Run(t.0, gaps[0]);
      PeersKeepTables(t.0, r, gaps[0]);
      EpollPwaitIsRun(u, r, epfd, maxevents, timeout, gaps[1..], k + 1);
      var rest := PwaitMoves(u, r, epfd, maxevents, timeout, gaps[1..], k + 1);
      MoveThenGap(s, m, gaps[0], rest);
      var snapshots := PwaitSnapshots(s, r, epfd, maxevents, timeout, gaps, k);
      assert snapshots[1..] == PwaitSnapshots(u, r, epfd, maxevents, timeout, gaps[1..], k + 1);
    }
  }

  // ---------- reachable states meet the requirements of the calls ----------

  /** getsockname and getpeername follow no null or freed pointer. */
  lemma NamesAreDefined(r: Role, sh: Shared, l: Local, other: Local, num: int)
    requires Inv(sh, l, other)
    ensures GetPeerName(r, sh, l, num) != NameUndefined && GetSockName(r, sh, l, num) != NameUndefined
  {
    hide NumbersOk, PollfdsOk;
    var i := FindFd(l.fds, num);
    if i.Some? { assert FdOk(sh, l.fds[i.value]); }
  }

  lemma LocNames(s: Sys, r: Role, num: int)
    requires SysInv(s)
    ensures GetPeerName(r, s.shared, s.Loc(r), num) != NameUndefined &&
            GetSockName(r, s.shared, s.Loc(r), num) != NameUndefined
  {
    hide Inv, GetPeerName, GetSockName;
    if r == Client { InvSymmetric(s.shared, s.server, s.client); }
    NamesAreDefined(r, s.shared, s.Loc(r), s.Loc(Other(r)), num);
  }

  /**
   What the methods in place require of memory and tables, and what `PollIsReadiness` requires of every
   snapshot, holds in all reachable states, whatever the peer does next; and all names are defined there.
   */
  lemma ReachableStatesAreWired(s: Sys, moves: seq<Move>, r: Role, later: seq<Move>, reqs: seq<PollReq>)
    requires Initial(s) && Playable(s, moves) && PeerMoves(r, later) && Playable(Run(s, moves), later)
    requires forall i | 0 <= i < |reqs| :: var l := Run(s, moves).Loc(r);
               FindFd(l.fds, reqs[i].fd).Some? &&
               l.fds[FindFd(l.fds, reqs[i].fd).value].state != SCreated &&
                 l.fds[FindFd(l.fds, reqs[i].fd).value].state != SBound
    ensures var l := Run(s, moves).Loc(r);
            var sh := Run(Run(s, moves), later).shared;
            && NumbersOk(l) && SlotsInRange(l.pollfds, |l.fds|)
            && (forall i | 0 <= i < |l.fds| && l.fds[i].active :: l.fds[i].num < l.currentMaxFd)
            && ListsPoint(sh) && TableInRange(sh, l.interfaces) && Reachable(sh, l, reqs)
            && forall num :: GetPeerName(r, sh, l, num) != NameUndefined && GetSockName(r, sh, l, num) != NameUndefined
  {
    hide Run, Playable, PeerMoves, Initial, CountsOk, GetPeerName, GetSockName;
    InitialInv(s);
    RunKeepsInv(s, moves);
    var t := Run(s, moves);
    RunKeepsInv(t, later);
    PeersKeepTables(t, r, later);
    var l := t.Loc(r);
    var sh := Run(t, later).shared;
    assert LocalOk(sh, l);
    forall num ensures GetPeerName(r, sh, l, num) != NameUndefined && GetSockName(r, sh, l, num) != NameUndefined {
      LocNames(Run(t, later), r, num);
    }
    forall i | 0 <= i < |reqs| ensures l.fds[FindFd(l.fds, reqs[i].fd).value].pConn.Some? {
      assert FdOk(sh, l.fds[FindFd(l.fds, reqs[i].fd).value]);
    }
    assert SlotsInRange(l.pollfds, |l.fds|) by {
      forall k | 0 <= k < |l.pollfds| ensures TableOk(l.pollfds[k].lfds) {
      }
    }
  }
}
