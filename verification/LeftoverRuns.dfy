/**
 Leftovers over whole runs: the results about one poll hold for every poll of every run, and concrete runs
 show what a failed poll can do to a later one on other descriptors.
 */
module LeftoverRuns {
  import opened Basics
  import opened Connections
  import opened Descriptors
  import opened Readiness
  import opened Duplex
  import opened Reachability
  import opened LevelTriggered
  import opened Sides
  import opened Waiting
  import opened Polling
  import opened BlockingCalls
  import opened PollRuns
  import opened PollSafety
  import opened Leftovers

  // ---------- the last pass of a poll in a run ----------

  /** The peer's moves can be played when their turn comes; a pass may be undefined, and is then the last. */
  predicate GapsInTurn(s: Sys, r: Role, epfd: int, maxevents: int, timeout: int, gaps: seq<seq<Move>>, k: nat)
    decreases |gaps|
  {
    var t := Step(s, Move(r, Wait(epfd, maxevents)));
    Stops(t.1, timeout, gaps, k) ||
    (Playable(t.0, gaps[0]) && GapsInTurn(Run(t.0, gaps[0]), r, epfd, maxevents, timeout, gaps[1..], k + 1))
  }

  /** Only the peer moves, and no process binds a port in the ephemeral range. */
  ghost predicate SafePeers(r: Role, gaps: seq<seq<Move>>) {
    forall n | 0 <= n < |gaps| :: PeerMoves(r, gaps[n]) && AllSafe(gaps[n])
  }

  ghost predicate Peers(r: Role, gaps: seq<seq<Move>>) {
    forall n | 0 <= n < |gaps| :: PeerMoves(r, gaps[n])
  }

  lemma FirstGap(r: Role, gaps: seq<seq<Move>>)
    requires Peers(r, gaps) && gaps != []
    ensures PeerMoves(r, gaps[0]) && Peers(r, gaps[1..])
    ensures SafePeers(r, gaps) ==> AllSafe(gaps[0]) && SafePeers(r, gaps[1..])
  {
    hide PeerMoves, AllSafe;
  }

  /** A pass that finds nothing, and the peer's moves after it. */
  lemma GapStep(s: Sys, r: Role, epfd: int, maxevents: int, gap: seq<Move>)
    requires SysInv(s) && Step(s, Move(r, Wait(epfd, maxevents))).1 == Outcome.Events([]) && PeerMoves(r, gap)
    requires Playable(Step(s, Move(r, Wait(epfd, maxevents))).0, gap)
    ensures var t := Run(Step(s, Move(r, Wait(epfd, maxevents))).0, gap);
            && SysInv(t) && t.Loc(r) == DoScan(r, s.shared, s.Loc(r), epfd, maxevents).local
            && t.Loc(r).fds == s.Loc(r).fds
  {
    hide SysInv, DoScan, Run, Playable, PeerMoves, FindPollfd, FdsOk, NumbersOk, PollfdsOk;
    var m := Move(r, Wait(epfd, maxevents));
    var t := Step(s, m).0;
    StepKeepsInv(s, m);
    RunKeepsInv(t, gap);
    PeersKeepTables(t, r, gap);
    LocTablesOk(s, r);
    WaitStep(s, r, epfd, maxevents);
    if FindPollfd(s.Loc(r), epfd).Some? {
      PassTouches(r, s.shared, s.Loc(r), FindPollfd(s.Loc(r), epfd).value, epfd, maxevents);
    } else {
      NoTable(r, s.shared, s.Loc(r), epfd, maxevents);
    }
  }

  lemma LocTablesOk(s: Sys, r: Role)
    requires SysInv(s)
    ensures TablesOk(s.shared, s.Loc(r))
  {
    hide ListsOk, CountsOk, NumbersOk, PollfdsOk, FdsOk;
  }

  lemma WaitStep(s: Sys, r: Role, epfd: int, maxevents: int)
    ensures var t := Step(s, Move(r, Wait(epfd, maxevents))); var e := DoScan(r, s.shared, s.Loc(r), epfd, maxevents);
            t.1 == e.out && t.0.Loc(r) == e.local && t.0.shared == e.shared &&
              AllocationOk(r, s.shared, s.Loc(r), Wait(epfd, maxevents))
  {
    hide DoScan;
  }

  lemma NoTable(r: Role, sh: Shared, l: Local, epfd: int, maxevents: int)
    requires FindPollfd(l, epfd).None?
    ensures DoScan(r, sh, l, epfd, maxevents) == Effect(sh, l, Fail(-1, EBADF))
  {
  }

  /** Every memory that the wait sees fits the descriptors. */
  lemma {:induction false} SnapshotsFit(s: Sys, r: Role, epfd: int, maxevents: int, timeout: int, gaps: seq<seq<Move>>,
                                        k: nat)
    requires SysInv(s) && Peers(r, gaps) && GapsInTurn(s, r, epfd, maxevents, timeout, gaps, k)
    ensures forall x | x in PwaitSnapshots(s, r, epfd, maxevents, timeout, gaps, k) :: FdsOk(x, s.Loc(r))
    decreases |gaps|
  {
    hide SysInv, Step, Run, Playable, Peers, FdsOk;
    var t := Step(s, Move(r, Wait(epfd, maxevents)));
    if !Stops(t.1, timeout, gaps, k) {
      FirstGap(r, gaps);
      GapStep(s, r, epfd, maxevents, gaps[0]);
      var u := Run(t.0, gaps[0]);
      SnapshotsFit(u, r, epfd, maxevents, timeout, gaps[1..], k + 1);
      LocTablesOk(u, r);
      SameFdsOk(u.shared, u.Loc(r), s.Loc(r));
      forall x | x in PwaitSnapshots(u, r, epfd, maxevents, timeout, gaps[1..], k + 1) ensures FdsOk(x, s.Loc(r)) {
        SameFdsOk(x, u.Loc(r), s.Loc(r));
      }
    }
  }

  /** The last pass starts from a state of the run. */
  lemma {:induction false} LastPassIsReached(s: Sys, r: Role, epfd: int, maxevents: int, timeout: int,
                                             gaps: seq<seq<Move>>, k: nat)
    returns (moves: seq<Move>)
    requires SysInv(s) && Peers(r, gaps) && GapsInTurn(s, r, epfd, maxevents, timeout, gaps, k)
    ensures Playable(s, moves) && (SafePeers(r, gaps) ==> AllSafe(moves))
    ensures var w := WaitLoop(r, s.shared, s.Loc(r), epfd, maxevents, timeout,
                              PwaitSnapshots(s, r, epfd, maxevents, timeout, gaps, k), k);
            Run(s, moves).shared == w.last && Run(s, moves).Loc(r) == w.before
    decreases |gaps|
  {
    hide SysInv, Run, Playable, Peers, SafePeers, DoScan, AllSafe, AllocationOk, PeerMoves;
    var m := Move(r, Wait(epfd, maxevents));
    var t := Step(s, m);
    WaitStep(s, r, epfd, maxevents);
    if Stops(t.1, timeout, gaps, k) {
      PlayNothing(s);
      NothingUnsafe();
      moves := [];
    } else {
      FirstGap(r, gaps);
      GapStep(s, r, epfd, maxevents, gaps[0]);
      var u := Run(t.0, gaps[0]);
      var rest := LastPassIsReached(u, r, epfd, maxevents, timeout, gaps[1..], k + 1);
      MoveThenGap(s, m, gaps[0], rest);
      moves := [m] + gaps[0] + rest;
      if SafePeers(r, gaps) { SafeThree(m, gaps[0], rest); }
      var snapshots := PwaitSnapshots(s, r, epfd, maxevents, timeout, gaps, k);
      assert snapshots[1..] == PwaitSnapshots(u, r, epfd, maxevents, timeout, gaps[1..], k + 1);
    }
  }

  lemma NothingUnsafe()
    ensures AllSafe([])
  {
  }

  lemma SafeThree(m: Move, gap: seq<Move>, rest: seq<Move>)
    requires m.call.Wait? && AllSafe(gap) && AllSafe(rest)
    ensures AllSafe([m] + gap + rest)
  {
  }

  // ---------- any poll of any run ----------

  /** The same for the wait of a poll, if it gets that far. */
  predicate PollGapsInTurn(s: Sys, r: Role, reqs: seq<PollReq>, timeout: int, gaps: seq<seq<Move>>) {
    var t := Step(s, Move(r, PollOpen));
    t.1.Ret? && AddAll(t.0.Loc(r), t.1.value, reqs, 0).1 == Ret(0) ==>
      GapsInTurn(Run(t.0, AddMoves(t.0, r, t.1.value, reqs, 0)), r, t.1.value, |reqs|, timeout, gaps, 0)
  }

  lemma {:induction false} AddMovesSafe(s: Sys, r: Role, epfd: int, reqs: seq<PollReq>, i: nat)
    ensures AllSafe(AddMoves(s, r, epfd, reqs, i))
    decreases |reqs| - i
  {
    hide Step, SignExtend;
    if i < |reqs| {
      AddMovesSafe(Step(s, Move(r, EpollCtl(epfd, CtlAdd, reqs[i].fd, SignExtend(reqs[i].events), i))).0, r, epfd, reqs,
                   i + 1);
    }
  }

  /** The state in which a poll starts to wait. */
  lemma LoadedRun(s: Sys, r: Role, reqs: seq<PollReq>) returns (moves: seq<Move>)
    requires SysInv(s) && Registers(s.Loc(r), reqs)
    ensures Playable(s, moves) && AllSafe(moves) && SysInv(Run(s, moves))
    ensures Run(s, moves).shared == s.shared && Run(s, moves).Loc(r) == Loaded(s.Loc(r), reqs)
    ensures var t := Step(s, Move(r, PollOpen));
            && t.1 == DoPollOpen(s.Loc(r)).1 && t.1.Ret? && AddAll(t.0.Loc(r), t.1.value, reqs, 0).1 == Ret(0)
            && Run(s, moves) == Run(t.0, AddMoves(t.0, r, t.1.value, reqs, 0))
  {
    hide SysInv, Run, Playable, AddAll, AddMoves, AllSafe, DoPollOpen;
    var m := Move(r, PollOpen);
    OpenStep(s, r);
    var t := Step(s, m);
    AddMovesRun(t.0, r, t.1.value, reqs, 0);
    var adds := AddMoves(t.0, r, t.1.value, reqs, 0);
    PlayFirst(s, m, adds);
    moves := [m] + adds;
    RunKeepsInv(s, moves);
    AddMovesSafe(t.0, r, t.1.value, reqs, 0);
    SafeFirst(m, adds);
  }

  lemma SafeFirst(m: Move, rest: seq<Move>)
    requires m.call.PollOpen? && AllSafe(rest)
    ensures AllSafe([m] + rest)
  {
  }

  lemma SafeBoth(a: seq<Move>, b: seq<Move>)
    requires AllSafe(a) && AllSafe(b)
    ensures AllSafe(a + b)
  {
  }

  /**
   Memory safety of poll over whole runs: in every reachable state, whatever earlier polls have left and
   whatever the peer does in its sleeps, a poll is undefined in C if and only if all its requests are
   registered and its last pass reaches an unconnected registration or reports one that names no request.
   */
  lemma PollUndefinedOverRuns(s: Sys, moves: seq<Move>, r: Role, reqs: seq<PollReq>, timeout: int, gaps: seq<seq<Move>>)
    requires Initial(s) && Playable(s, moves) && Peers(r, gaps) && PollGapsInTurn(Run(s, moves), r, reqs, timeout, gaps)
    ensures var t := Run(s, moves);
            var l := t.Loc(r);
            var snapshots := PollSnapshots(t, r, reqs, timeout, gaps);
            DoPoll(r, t.shared, l, reqs, timeout, snapshots).effect.out == Undefined <==>
            Registers(l, reqs) &&
            (var w := Waited(r, t.shared, l, reqs, timeout, snapshots);
             || ScanMeetsUnconnected(r, w.last, w.before, Wait(DoPollOpen(l).1.value, |reqs|))
             || Strays(LogOf(w), |reqs|))
  {
    hide Initial, Inv, Run, Playable, Peers, GapsInTurn, AddAll, AddMoves, PwaitSnapshots, DoPoll, Waited,
        ScanMeetsUnconnected, Strays, DoPollOpen, FdsOk;
    InitialInv(s);
    RunKeepsInv(s, moves);
    var t := Run(s, moves);
    var l := t.Loc(r);
    OpenStep(t, r);
    if Registers(l, reqs) {
      var adds := LoadedRun(t, r, reqs);
      var u := Run(t, adds);
      SnapshotsFit(u, r, DoPollOpen(l).1.value, |reqs|, timeout, gaps, 0);
      if r == Client { InvSymmetric(t.shared, t.server, t.client); }
      LoadedOk(t.shared, l, t.Loc(Other(r)), reqs);
      forall x | x in PollSnapshots(t, r, reqs, timeout, gaps) ensures FdsOk(x, l) {
        SameFdsOk(x, u.Loc(r), l);
      }
    } else {
      assert PollSnapshots(t, r, reqs, timeout, gaps) == [];
    }
    if r == Client { InvSymmetric(t.shared, t.server, t.client); }
    PollUndefinedExactly(r, t.shared, l, t.Loc(Other(r)), reqs, timeout, PollSnapshots(t, r, reqs, timeout, gaps));
  }

  lemma InUseIsProper(s: Sys, r: Role, l: Local, reqs: seq<PollReq>)
    requires SysInv(s) && l.fds == s.Loc(r).fds && AllInUse(s.Loc(r), reqs) &&
             forall i | 0 <= i < |reqs| :: reqs[i].events & 0x8000 == 0
    ensures Proper(l, reqs)
  {
    hide SysInv;
    InUseIsReachable(s, r, reqs);
  }

  /** In a run on safe ports the last pass of a wait is over a table whose registrations share no connection. */
  lemma WaitEndsMixed(s: Sys, moves: seq<Move>, r: Role, k: nat, epfd: int, maxevents: int, timeout: int,
                      gaps: seq<seq<Move>>)
    requires Initial(s) && Playable(s, moves) && AllSafe(moves) && Peers(r, gaps) && SafePeers(r, gaps)
    requires GapsInTurn(Run(s, moves), r, epfd, maxevents, timeout, gaps, 0) && k < MAX_POLLFDS
    ensures var t := Run(s, moves);
            var w := EpollPwait(r, t.shared, t.Loc(r), epfd, maxevents, timeout,
                                PwaitSnapshots(t, r, epfd, maxevents, timeout, gaps, 0));
            k < |w.before.pollfds| && MixedTable(StartScan(w.last, w.before, k))
  {
    hide Initial, SysInv, Run, Playable, Peers, SafePeers, AllSafe, GapsInTurn, WaitLoop, PwaitSnapshots, MixedTable;
    InitialInv(s);
    RunKeepsInv(s, moves);
    var t := Run(s, moves);
    var rest := LastPassIsReached(t, r, epfd, maxevents, timeout, gaps, 0);
    RunAppend(s, moves, rest);
    SafeBoth(moves, rest);
    RunKeepsInv(t, rest);
    assert |Run(t, rest).Loc(r).pollfds| == MAX_POLLFDS by { AllTables(Run(t, rest), r); }
    ReachableTablesAreMixed(s, moves + rest, r, k);
  }

  lemma AllTables(s: Sys, r: Role)
    requires SysInv(s)
    ensures |s.Loc(r).pollfds| == MAX_POLLFDS
  {
    hide FdsOk, NumbersOk, ListsOk, CountsOk, InterfacesOk;
  }

  /**
   The same over whole runs on safe ports: whatever earlier polls have left, a poll that registers all its
   requests, asks for sockets in use and non-negative masks, and whose wait has ended, is the readiness test
   of its requests if its last pass hears no leftover; and only then is the count right, unless the array is
   too short for all that is ready.
   */
  lemma LeftoversOverRuns(s: Sys, moves: seq<Move>, r: Role, k: nat, reqs: seq<PollReq>, timeout: int,
                          gaps: seq<seq<Move>>)
    returns (at: seq<nat>)
    requires Initial(s) && Playable(s, moves) && AllSafe(moves) && Peers(r, gaps) && SafePeers(r, gaps)
    requires PollGapsInTurn(Run(s, moves), r, reqs, timeout, gaps)
    requires var l := Run(s, moves).Loc(r);
             && AllInUse(l, reqs) && (forall i | 0 <= i < |reqs| :: reqs[i].events & 0x8000 == 0)
             && Registers(l, reqs) && FindPollfd(DoPollOpen(l).0, DoPollOpen(l).1.value) == Some(k)
    requires var t := Run(s, moves);
             var w := Waited(r, t.shared, t.Loc(r), reqs, timeout, PollSnapshots(t, r, reqs, timeout, gaps));
             w.effect.out != Blocked && w.effect.out != Undefined
    ensures var l := DoPollOpen(Run(s, moves).Loc(r)).0;
            var table := Loaded(Run(s, moves).Loc(r), reqs).pollfds;
            k < |table| && k < |l.pollfds| && Placed(l, l.pollfds[k].lfds, table[k].lfds, reqs, at) && |at| == |reqs|
    ensures var t := Run(s, moves);
            var l := DoPollOpen(t.Loc(r)).0;
            var snapshots := PollSnapshots(t, r, reqs, timeout, gaps);
            var w := Waited(r, t.shared, t.Loc(r), reqs, timeout, snapshots);
            var res := DoPoll(r, t.shared, t.Loc(r), reqs, timeout, snapshots);
            && w.last in [t.shared] + snapshots && res.last == w.last && k < |w.before.pollfds|
            && (forall i | 0 <= i < |reqs| :: FindFd(l.fds, reqs[i].fd).Some?)
            && (Unheard(r, StartScan(w.last, w.before, k), l.interfaces, at, |reqs|) ==>
                  IsReadiness(r, l, k, DoPollOpen(t.Loc(r)).1.value, reqs, w, res))
            && (|Entries(r, StartScan(w.last, w.before, k), l.interfaces, 0)| <= |reqs| ==>
                  (res.effect.out == Ret(NonZero(Wanted(r, w.last, l, reqs))) <==>
                   Unheard(r, StartScan(w.last, w.before, k), l.interfaces, at, |reqs|)))
  {
    hide Initial, Inv, Run, Playable, Peers, SafePeers, AllSafe, GapsInTurn, AddAll, AddMoves, PwaitSnapshots, PollOn,
        DoPollOpen, AllInUse, FdsOk, NumbersOk, PollfdsOk, WaitLoop, Unheard, Wanted, Entries, Placed, NonZero,
          MixedTable, FindPollfd;
    InitialInv(s);
    RunKeepsInv(s, moves);
    var t := Run(s, moves);
    var l := t.Loc(r);
    var e := DoPollOpen(l);
    OpenKeepsFds(l);
    OpenStep(t, r);
    var adds := LoadedRun(t, r, reqs);
    var u := Run(t, adds);
    SnapshotsFit(u, r, e.1.value, |reqs|, timeout, gaps, 0);
    var snapshots := PollSnapshots(t, r, reqs, timeout, gaps);
    OpenedTables(t, r);
    LocTablesOk(u, r);
    LoadedFds(t, r, reqs);
    forall x | x in [t.shared] + snapshots ensures FdsOk(x, e.0) { SameFdsOk(x, u.Loc(r), e.0); }
    InUseIsProper(t, r, e.0, reqs);
    RunAppend(s, moves, adds);
    SafeBoth(moves, adds);
    WaitEndsMixed(s, moves + adds, r, k, e.1.value, |reqs|, timeout, gaps);
    at := PollOverLeftovers(r, t.shared, e.0, k, e.1.value, reqs, timeout, snapshots);
  }

  lemma OpenedTables(s: Sys, r: Role)
    requires SysInv(s)
    ensures NumbersOk(DoPollOpen(s.Loc(r)).0) && PollfdsOk(DoPollOpen(s.Loc(r)).0) &&
            |DoPollOpen(s.Loc(r)).0.pollfds| == MAX_POLLFDS
  {
    hide SysInv, NumbersOk, TableOk, NoneActive, DoPollOpen, FdsOk;
    StepKeepsInv(s, Move(r, PollOpen));
    OpenStep(s, r);
    LocTablesOk(Step(s, Move(r, PollOpen)).0, r);
  }

  lemma LoadedFds(s: Sys, r: Role, reqs: seq<PollReq>)
    requires SysInv(s) && Registers(s.Loc(r), reqs)
    ensures Loaded(s.Loc(r), reqs).fds == s.Loc(r).fds
  {
    hide Inv, AddAll, DoPollOpen;
    if r == Client { InvSymmetric(s.shared, s.server, s.client); }
    LoadedOk(s.shared, s.Loc(r), s.Loc(Other(r)), reqs);
  }
}
