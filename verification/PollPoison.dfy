/**
 What a poll that fails half-way leaves behind: the descriptors before the refused one stay registered in
 the table that all polls share, so no later poll that names one of them succeeds, until the descriptor is
 deregistered by hand, or closed; in the latter case the next descriptor in its slot inherits the registration.
 */
module PollPoison {
  import opened Basics
  import opened Connections
  import opened Descriptors
  import opened Readiness
  import opened Duplex
  import opened Reachability
  import opened Registry
  import opened RegistryRuns
  import opened Waiting
  import opened Polling
  import opened BlockingCalls
  import opened PollRuns

  /** Descriptor `num` is open and registered in table `k`. */
  predicate RegisteredIn(l: Local, k: nat, num: int) {
    k < |l.pollfds| && Registered(l, l.pollfds[k].lfds, num).Some?
  }

  /** Descriptor `num` is registered in the table of poll, between polls. */
  predicate Poisoned(l: Local, num: int) {
    l.pollEpfd != -1 && FindPollfd(l, l.pollEpfd).Some? && RegisteredIn(l, FindPollfd(l, l.pollEpfd).value, num)
  }

  /** The calls of the application that end it: closing the descriptor or the table, or EPOLL_CTL_DEL on it. */
  predicate Cures(epfd: int, num: int, call: Call) {
    || (call.Close? && (call.num == epfd || (call.num == num && num < POLLFD_START)))
    || (call.EpollCtl? && call.epfd == epfd && call.op == CtlDel && call.num == num)
  }

  // ---------- how it starts ----------

  lemma HeldIsRegistered(l: Local, lfds: seq<Listener>, reqs: seq<PollReq>, n: nat, i: nat)
    requires Holds(l, lfds, reqs, 0, n) && i < n
    ensures Registered(l, lfds, reqs[i].fd).Some?
  {
    hide SignExtend, IsEventSet;
    assert lfds[i] == RequestListener(l, reqs, i);
    assert LiveFor(l, lfds[i], reqs[i].fd);
  }

  /**
   From an empty table, a poll whose requests cannot all be registered fails at the first that cannot,
   with the reason, and poisons exactly the descriptors named before it; so the first one, if it is open.
   */
  lemma FailedPollPoisons(r: Role, sh: Shared, l: Local, other: Local, reqs: seq<PollReq>, timeout: int,
                          schedule: seq<Shared>)
    returns (n: nat)
    requires Inv(sh, l, other) && PollReady(l) && DoPollOpen(l).1.Ret? && !Registrable(l, reqs)
    ensures n < |reqs| && RegistrableTo(l, reqs, n) && !RegistrableTo(l, reqs, n + 1) &&
            (FindFd(l.fds, reqs[0].fd).Some? ==> n > 0)
    ensures var res := DoPoll(r, sh, l, reqs, timeout, schedule);
            && res.effect.out == Refusal(l, reqs, n) && res.effect.shared == sh && res.effect.local.fds == l.fds
            && (forall i | 0 <= i < n :: Poisoned(res.effect.local, reqs[i].fd))
            && (forall num | Poisoned(res.effect.local, num) :: exists i | 0 <= i < n :: reqs[i].fd == num)
  {
    hide Inv, DoPollOpen, DoEpollCreate, FindPollfd, AddAll, PollOn, Holds, NumbersOk, EmptyTable, Registered;
    CreatedOk(sh, l, other);
    OpenedIsReady(l);
    var e := DoPollOpen(l);
    var k := FindPollfd(e.0, e.1.value).value;
    NumbersLocal(l, e.0);
    assert RegistrableTo(e.0, reqs, |reqs|) == RegistrableTo(l, reqs, |reqs|);
    n := FailedPollLeaksExactly(r, sh, e.0, k, e.1.value, reqs, timeout, schedule);
    var l' := PollOn(r, sh, e.0, e.1.value, reqs, timeout, schedule).effect.local;
    forall i | 0 <= i < n ensures Poisoned(l', reqs[i].fd) {
      HeldIsRegistered(e.0, l'.pollfds[k].lfds, reqs, n, i);
      SameFdsRegistered(e.0, l', l'.pollfds[k].lfds, reqs[i].fd);
    }
    forall num | Poisoned(l', num) ensures exists i | 0 <= i < n :: reqs[i].fd == num {
      SameFdsRegistered(e.0, l', l'.pollfds[k].lfds, num);
      RegisteredIsHeld(e.0, l'.pollfds[k].lfds, reqs, n, num);
    }
  }

  lemma RegisteredIsHeld(l: Local, lfds: seq<Listener>, reqs: seq<PollReq>, n: nat, num: int)
    requires Holds(l, lfds, reqs, 0, n) && Registered(l, lfds, num).Some?
    ensures exists i | 0 <= i < n :: reqs[i].fd == num
  {
    hide SignExtend, IsEventSet;
    var j :| 0 <= j < |lfds| && LiveFor(l, lfds[j], num);
    assert lfds[j] == RequestListener(l, reqs, j);
  }

  lemma SameFdsRegistered(l: Local, l': Local, lfds: seq<Listener>, num: int)
    requires l'.fds == l.fds
    ensures Registered(l', lfds, num) == Registered(l, lfds, num)
  {
    SameAt(l, lfds, l', lfds, num);
  }

  lemma {:induction false} AddAllKeepsRegistered(l: Local, k: nat, epfd: int, reqs: seq<PollReq>, i: nat, num: int)
    requires NumbersOk(l) && FindPollfd(l, epfd) == Some(k) && TableOk(l.pollfds[k].lfds) && RegisteredIn(l, k, num)
    ensures var l' := AddAll(l, epfd, reqs, i).0;
            FindPollfd(l', epfd) == Some(k) && RegisteredIn(l', k, num) && l'.pollEpfd == l.pollEpfd
    decreases |reqs| - i
  {
    hide CtlTable, SignExtend, NumbersOk, TableOk, Registered;
    if i < |reqs| && reqs[i].fd >= FD_START && FindFd(l.fds, reqs[i].fd).Some? {
      var lfds := l.pollfds[k].lfds;
      CtlRefinesMap(l, lfds, CtlAdd, reqs[i].fd, SignExtend(reqs[i].events), i);
      var t := CtlTable(l.fds, lfds, CtlAdd, reqs[i].fd, FindFd(l.fds, reqs[i].fd).value, SignExtend(reqs[i].events),
                        i).0;
      var l' := WithTable(l, k, t);
      SamePollfd(l, k, epfd, t);
      NumbersLocal(l, l');
      SameFdsRegistered(l, l', t, num);
      AddAllKeepsRegistered(l', k, epfd, reqs, i + 1, num);
    }
  }

  /**
   From any table, empty or not: a poll whose first descriptor is open and whose registration fails leaves
   that descriptor poisoned, unless it was not registered before and the table was full.
   */
  lemma AnyFailedPollPoisonsFirst(r: Role, sh: Shared, l: Local, other: Local, reqs: seq<PollReq>, timeout: int,
                                  schedule: seq<Shared>)
    requires Inv(sh, l, other) && l.pollEpfd != -1 && FindPollfd(l, l.pollEpfd).Some?
    requires reqs != [] && FindFd(l.fds, reqs[0].fd).Some? && AddAll(l, l.pollEpfd, reqs, 0).1 != Ret(0)
    ensures var lfds := l.pollfds[FindPollfd(l, l.pollEpfd).value].lfds;
            Poisoned(DoPoll(r, sh, l, reqs, timeout, schedule).effect.local, reqs[0].fd) <==>
            Registered(l, lfds, reqs[0].fd).Some? || EmptyListener(lfds).Some?
  {
    hide Inv, CtlTable, SignExtend, NumbersOk, TableOk, PollfdsOk, Registered, FindPollfd, EmptyListener;
    LocalParts(sh, l, other);
    var epfd := l.pollEpfd;
    FoundTable(l, epfd);
    var k := FindPollfd(l, epfd).value;
    var num := reqs[0].fd;
    assert num >= FD_START by { NumberInRange(l, FindFd(l.fds, num).value); }
    var e := CtlTable(l.fds, l.pollfds[k].lfds, CtlAdd, num, FindFd(l.fds, num).value, SignExtend(reqs[0].events), 0);
    CtlRefinesMap(l, l.pollfds[k].lfds, CtlAdd, num, SignExtend(reqs[0].events), 0);
    var l' := WithTable(l, k, e.0);
    SamePollfd(l, k, epfd, e.0);
    NumbersLocal(l, l');
    SameFdsRegistered(l, l', e.0, num);
    if e.1 == Ret(0) {
      AddAllKeepsRegistered(l', k, epfd, reqs, 1, num);
    }
  }

  // ---------- what it does to later polls ----------

  lemma {:induction false} AddAllMeets(l: Local, k: nat, epfd: int, reqs: seq<PollReq>, i: nat, m: nat)
    requires NumbersOk(l) && FindPollfd(l, epfd) == Some(k) && TableOk(l.pollfds[k].lfds)
    requires i <= m < |reqs| && FindFd(l.fds, reqs[m].fd).Some? && RegisteredIn(l, k, reqs[m].fd)
    ensures var e := AddAll(l, epfd, reqs, i);
            e.1 != Ret(0) && (e.1.Fail? || e.1 == Foreign) && (i == m ==> e.1 == Fail(-1, EEXIST))
    decreases m - i
  {
    hide CtlTable, SignExtend, NumbersOk, TableOk, Registered;
    var num := reqs[i].fd;
    if num >= FD_START && FindFd(l.fds, num).Some? {
      var f := FindFd(l.fds, num).value;
      var lfds := l.pollfds[k].lfds;
      CtlRefinesMap(l, lfds, CtlAdd, num, SignExtend(reqs[i].events), i);
      var t := CtlTable(l.fds, lfds, CtlAdd, num, f, SignExtend(reqs[i].events), i);
      if i < m && t.1 == Ret(0) {
        var l' := WithTable(l, k, t.0);
        SamePollfd(l, k, epfd, t.0);
        NumbersLocal(l, l');
        SameFdsRegistered(l, l', t.0, reqs[m].fd);
        AddAllMeets(l', k, epfd, reqs, i + 1, m);
      }
    }
    if i == m {
      assert num >= FD_START by { NumberInRange(l, FindFd(l.fds, num).value); }
    }
  }

  /** A poll that names a poisoned descriptor fails, and if it names it first, with EEXIST. */
  lemma PoisonedPollFails(r: Role, sh: Shared, l: Local, other: Local, reqs: seq<PollReq>, timeout: int,
                          schedule: seq<Shared>, num: int, m: nat)
    requires Inv(sh, l, other) && Poisoned(l, num) && m < |reqs| && reqs[m].fd == num
    ensures var out := DoPoll(r, sh, l, reqs, timeout, schedule).effect.out;
            (out.Fail? || out == Foreign) && (m == 0 ==> out == Fail(-1, EEXIST))
    ensures AddAll(l, l.pollEpfd, reqs, 0).1 != Ret(0)
  {
    hide Inv, AddAll, FindPollfd, NumbersOk, PollfdsOk;
    LocalParts(sh, l, other);
    FoundTable(l, l.pollEpfd);
    var k := FindPollfd(l, l.pollEpfd).value;
    RegisteredIsOpen(l, l.pollfds[k].lfds, num);
    AddAllMeets(l, k, l.pollEpfd, reqs, 0, m);
  }

  lemma RegisteredIsOpen(l: Local, lfds: seq<Listener>, num: int)
    requires Registered(l, lfds, num).Some?
    ensures FindFd(l.fds, num).Some?
  {
    var j :| 0 <= j < |lfds| && LiveFor(l, lfds[j], num);
    assert l.fds[lfds[j].slot].active && l.fds[lfds[j].slot].num == num;
  }

  // ---------- how long it lasts ----------

  /** A call that neither touches the table nor closes the descriptor keeps the registration. */
  lemma OtherCallKeepsPoison(r: Role, sh: Shared, l: Local, other: Local, call: Call, num: int)
    requires Inv(sh, l, other) && Poisoned(l, num) && !Touches(l.pollEpfd, call)
    requires !(call.Close? && call.num == num && num < POLLFD_START)
    ensures var l' := Apply(r, sh, l, call).local; Poisoned(l', num) && l'.pollEpfd == l.pollEpfd
  {
    hide Inv, Apply, FindPollfd, NumbersOk, PollfdsOk, FdsOk;
    LocalParts(sh, l, other);
    var epfd := l.pollEpfd;
    var k := FindPollfd(l, epfd).value;
    var lfds := l.pollfds[k].lfds;
    var l' := Apply(r, sh, l, call).local;
    CallTouches(r, sh, l, call);
    CallKeepsTable(r, sh, l, call, epfd, k);
    var j :| 0 <= j < |lfds| && LiveFor(l, lfds[j], num);
    CallKeepsSlot(r, sh, l, call, lfds[j].slot);
    assert LiveFor(l', l'.pollfds[k].lfds[j], num);
  }

  /** Nor does any epoll_ctl on the table, except EPOLL_CTL_DEL of the descriptor. */
  lemma CtlKeepsPoison(l: Local, op: CtlOp, num': int, events: EventMask, data: int, num: int)
    requires NumbersOk(l) && PollfdsOk(l) && Poisoned(l, num) && !(op == CtlDel && num' == num)
    ensures var l' := DoEpollCtl(l, l.pollEpfd, op, num', events, data).0;
            Poisoned(l', num) && l'.pollEpfd == l.pollEpfd
  {
    hide NumbersOk, PollfdsOk, FindPollfd, CtlTable, Registered, IsEventSet;
    var epfd := l.pollEpfd;
    var k := FindPollfd(l, epfd).value;
    FoundTable(l, epfd);
    if num' >= FD_START && FindFd(l.fds, num').Some? {
      var t := CtlTable(l.fds, l.pollfds[k].lfds, op, num', FindFd(l.fds, num').value, events, data).0;
      CtlRefinesMap(l, l.pollfds[k].lfds, op, num', events, data);
      SamePollfd(l, k, epfd, t);
      SameFdsRegistered(l, WithTable(l, k, t), t, num);
    }
  }

  lemma StepKeepsPoison(s: Sys, r: Role, m: Move, num: int)
    requires SysInv(s) && Poisoned(s.Loc(r), num) && (m.role == r ==> !Cures(s.Loc(r).pollEpfd, num, m.call))
    ensures Poisoned(Step(s, m).0.Loc(r), num) && Step(s, m).0.Loc(r).pollEpfd == s.Loc(r).pollEpfd
  {
    hide Inv, Apply, Poisoned, DoEpollCtl;
    if m.role == r {
      if r == Client { InvSymmetric(s.shared, s.server, s.client); }
      if m.call.EpollCtl? && m.call.epfd == s.Loc(r).pollEpfd {
        LocalParts(s.shared, s.Loc(r), s.Loc(Other(r)));
        CtlKeepsPoison(s.Loc(r), m.call.op, m.call.num, m.call.events, m.call.userData, num);
        CtlCall(r, s.shared, s.Loc(r), m.call);
      } else {
        OtherCallKeepsPoison(r, s.shared, s.Loc(r), s.Loc(Other(r)), m.call, num);
      }
    }
  }

  lemma CtlCall(r: Role, sh: Shared, l: Local, call: Call)
    requires call.EpollCtl?
    ensures Apply(r, sh, l, call).local == DoEpollCtl(l, call.epfd, call.op, call.num, call.events, call.userData).0
  {
  }

  ghost predicate NoCure(r: Role, epfd: int, num: int, moves: seq<Move>) {
    forall i | 0 <= i < |moves| && moves[i].role == r :: !Cures(epfd, num, moves[i].call)
  }

  lemma {:induction false} RunKeepsPoison(s: Sys, r: Role, moves: seq<Move>, num: int)
    requires SysInv(s) && Poisoned(s.Loc(r), num) && Playable(s, moves) && NoCure(r, s.Loc(r).pollEpfd, num, moves)
    ensures Poisoned(Run(s, moves).Loc(r), num) && Run(s, moves).Loc(r).pollEpfd == s.Loc(r).pollEpfd
    decreases |moves|
  {
    hide SysInv, Step, Poisoned, Cures, AllocationOk;
    if moves != [] {
      StepKeepsPoison(s, r, moves[0], num);
      StepKeepsInv(s, moves[0]);
      RunKeepsPoison(Step(s, moves[0]).0, r, moves[1..], num);
    }
  }

  // ---------- no poll is a cure ----------

  lemma {:induction false} AddMovesCalls(s: Sys, r: Role, epfd: int, reqs: seq<PollReq>, i: nat)
    ensures forall m | m in AddMoves(s, r, epfd, reqs, i) :: m.call.EpollCtl? && m.call.op == CtlAdd
    decreases |reqs| - i
  {
    hide Step, SignExtend;
    if i < |reqs| {
      AddMovesCalls(Step(s, Move(r, EpollCtl(epfd, CtlAdd, reqs[i].fd, SignExtend(reqs[i].events), i))).0, r, epfd,
                    reqs, i + 1);
    }
  }

  lemma {:induction false} DeleteMovesCalls(s: Sys, r: Role, epfd: int, reqs: seq<PollReq>, i: nat)
    ensures forall m | m in DeleteMoves(s, r, epfd, reqs, i) ::
              m.call.EpollCtl? && m.call.op == CtlDel && exists n | 0 <= n < |reqs| :: reqs[n].fd == m.call.num
    decreases |reqs| - i
  {
    hide Step;
    if i < |reqs| {
      DeleteMovesCalls(Step(s, Move(r, EpollCtl(epfd, CtlDel, reqs[i].fd, 0, 0))).0, r, epfd, reqs, i + 1);
    }
  }

  lemma {:induction false} PwaitMovesCalls(s: Sys, r: Role, epfd: int, maxevents: int, timeout: int,
                                           gaps: seq<seq<Move>>, k: nat)
    requires forall n | 0 <= n < |gaps| :: PeerMoves(r, gaps[n])
    ensures forall m | m in PwaitMoves(s, r, epfd, maxevents, timeout, gaps, k) :: m.role == r ==> m.call.Wait?
    decreases |gaps|
  {
    hide Step, Run;
    var m := Move(r, Wait(epfd, maxevents));
    var t := Step(s, m);
    if !Stops(t.1, timeout, gaps, k) {
      PwaitMovesCalls(Run(t.0, gaps[0]), r, epfd, maxevents, timeout, gaps[1..], k + 1);
      forall x | x in gaps[0] ensures x.role != r {
        assert PeerMoves(r, gaps[0]);
      }
    }
  }

  /** If the poll names the descriptor it never reaches its clean-up, and otherwise it cleans up others only. */
  lemma PollIsNoCure(s: Sys, r: Role, reqs: seq<PollReq>, timeout: int, gaps: seq<seq<Move>>, num: int)
    requires SysInv(s) && Poisoned(s.Loc(r), num) && forall n | 0 <= n < |gaps| :: PeerMoves(r, gaps[n])
    ensures NoCure(r, s.Loc(r).pollEpfd, num, PollMoves(s, r, reqs, timeout, gaps))
  {
    hide Inv, Run, PeerMoves, AddMoves, DeleteMoves, PwaitMoves, PwaitSnapshots, AddAll, WaitLoop, Finishes,
        RegisteredIn, FindPollfd, DoPoll;
    var epfd := s.Loc(r).pollEpfd;
    var t := Step(s, Move(r, PollOpen));
    OpenStep(s, r);
    assert t.1 == Ret(epfd) && t.0.Loc(r) == s.Loc(r);
    var adds := AddMoves(t.0, r, epfd, reqs, 0);
    AddMovesCalls(t.0, r, epfd, reqs, 0);
    if AddAll(s.Loc(r), epfd, reqs, 0).1 == Ret(0) {
      forall m | 0 <= m < |reqs| ensures reqs[m].fd != num {
        if reqs[m].fd == num { NamedPollStops(s, r, reqs, num, m); }
      }
      var u := Run(t.0, adds);
      var waits := PwaitMoves(u, r, epfd, |reqs|, timeout, gaps, 0);
      PwaitMovesCalls(u, r, epfd, |reqs|, timeout, gaps, 0);
      DeleteMovesCalls(Run(u, waits), r, epfd, reqs, 0);
    }
    assert forall m | m in PollMoves(s, r, reqs, timeout, gaps) && m.role == r :: !Cures(epfd, num, m.call);
  }

  lemma NamedPollStops(s: Sys, r: Role, reqs: seq<PollReq>, num: int, m: nat)
    requires SysInv(s) && Poisoned(s.Loc(r), num) && m < |reqs| && reqs[m].fd == num
    ensures AddAll(s.Loc(r), s.Loc(r).pollEpfd, reqs, 0).1 != Ret(0)
  {
    hide Inv, Poisoned, AddAll, DoPoll;
    if r == Client { InvSymmetric(s.shared, s.server, s.client); }
    PoisonedPollFails(r, s.shared, s.Loc(r), s.Loc(Other(r)), reqs, 0, [], num, m);
  }

  /** Whatever comes back from them, no call of the application cures the descriptor; polls are free. */
  ghost predicate NeverCured(s: Sys, r: Role, acts: seq<Act>, num: int)
    decreases |acts|
  {
    acts == [] ||
    (GapsOfPeer(r, acts[0])
     && (acts[0].Do? && acts[0].move.role == r ==> !Cures(s.Loc(r).pollEpfd, num, acts[0].move.call))
     && NeverCured(Run(s, ActMoves(s, r, acts[0])), r, acts[1..], num))
  }

  lemma {:induction false} ActsKeepPoison(s: Sys, r: Role, acts: seq<Act>, num: int)
    requires SysInv(s) && Poisoned(s.Loc(r), num) && Playable(s, MovesOf(s, r, acts)) && NeverCured(s, r, acts, num)
    ensures var t := Run(s, MovesOf(s, r, acts)); SysInv(t) && Poisoned(t.Loc(r), num)
    decreases |acts|
  {
    hide SysInv, Poisoned, Run, Playable, Cures, Step, PollMoves, PeerMoves;
    if acts == [] {
      PlayNothing(s);
    } else {
      var first := ActMoves(s, r, acts[0]);
      var t := Run(s, first);
      RunAppend(s, first, MovesOf(t, r, acts[1..]));
      RunKeepsInv(s, first);
      match acts[0] {
      case Do(m) => assert NoCure(r, s.Loc(r).pollEpfd, num, [m]);
      case Poll(reqs, timeout, gaps) => PollIsNoCure(s, r, reqs, timeout, gaps, num);
      }
      RunKeepsPoison(s, r, first, num);
      ActsKeepPoison(t, r, acts[1..], num);
    }
  }

  /**
   Once poisoned, for good: after any further calls and polls by both processes, as long as the application
   does not close the descriptor or deregister it by hand, every poll that names it fails, with EEXIST if
   it names it first. (A poll in between that writes outside its array ends the run in C; here it counts as
   the moves it makes.)
   */
  lemma PoisonedForGood(s: Sys, r: Role, acts: seq<Act>, num: int, reqs: seq<PollReq>, timeout: int,
                        schedule: seq<Shared>, m: nat)
    requires SysInv(s) && Poisoned(s.Loc(r), num) && Playable(s, MovesOf(s, r, acts)) && NeverCured(s, r, acts, num)
    requires m < |reqs| && reqs[m].fd == num
    ensures var t := Run(s, MovesOf(s, r, acts));
            var out := DoPoll(r, t.shared, t.Loc(r), reqs, timeout, schedule).effect.out;
            (out.Fail? || out == Foreign) && (m == 0 ==> out == Fail(-1, EEXIST))
  {
    hide Inv, Poisoned, Run, Playable, MovesOf, NeverCured, DoPoll, AddAll;
    ActsKeepPoison(s, r, acts, num);
    var t := Run(s, MovesOf(s, r, acts));
    if r == Client { InvSymmetric(t.shared, t.server, t.client); }
    PoisonedPollFails(r, t.shared, t.Loc(r), t.Loc(Other(r)), reqs, timeout, schedule, num, m);
  }

  // ---------- what closing the descriptor cures ----------

  /** The registration goes over to the slot: it is stale once the descriptor is closed. */
  lemma ClosedLeavesStale(r: Role, sh: Shared, l: Local, other: Local, num: int)
    requires Inv(sh, l, other) && Poisoned(l, num) && num < POLLFD_START
    ensures var i := FindFd(l.fds, num);
            var l' := DoClose(r, sh, l, num).local;
            var k := FindPollfd(l, l.pollEpfd).value;
            && i.Some? && l' == Released(l, i.value) && FindPollfd(l', l'.pollEpfd) == Some(k)
            && Stale(l', l'.pollfds[k].lfds, i.value) && !Poisoned(l', num)
  {
    hide Inv, FindPollfd, NumbersOk, PollfdsOk, RemoveConnection, MarkClosed, FdsOk, Registered;
    LocalParts(sh, l, other);
    var k := FindPollfd(l, l.pollEpfd).value;
    var lfds := l.pollfds[k].lfds;
    RegisteredIsOpen(l, lfds, num);
    var i := FindFd(l.fds, num).value;
    assert num >= FD_START by { NumberInRange(l, i); }
    CloseKeepsInv(r, sh, l, other, num);
    var l' := DoClose(r, sh, l, num).local;
    assert l' == Released(l, i);
    SamePollfds(l, l', l.pollEpfd);
    CloseDeregisters(l, lfds, i);
    assert exists j | 0 <= j < |lfds| :: lfds[j].active && lfds[j].slot == i by { RegisteredInSlot(l, lfds, i); }
  }

  lemma RegisteredInSlot(l: Local, lfds: seq<Listener>, i: nat)
    requires NumbersOk(l) && i < |l.fds| && l.fds[i].active && Registered(l, lfds, l.fds[i].num).Some?
    ensures exists j | 0 <= j < |lfds| :: lfds[j].active && lfds[j].slot == i
  {
    var j :| 0 <= j < |lfds| && LiveFor(l, lfds[j], l.fds[i].num);
  }

  /**
   A new descriptor, whatever call makes it, is poisoned from birth if and only if the slot it takes has such
   a registration in the table of poll.
   */
  lemma BornPoisonedExactly(sh: Shared, l: Local, other: Local, fd: Fd)
    requires Inv(sh, l, other) && l.pollEpfd != -1 && FindPollfd(l, l.pollEpfd).Some?
    requires EmptyFd(l.fds).Some? && fd.active && fd.num == l.currentMaxFd
    ensures var i := EmptyFd(l.fds).value;
            var l' := l.WithFd(i, fd).(currentMaxFd := l.currentMaxFd + 1);
            Poisoned(l', fd.num) <==> Stale(l, l.pollfds[FindPollfd(l, l.pollEpfd).value].lfds, i)
  {
    hide Inv, FindPollfd, NumbersOk, TableOk, NoneActive, FdsOk, Registered, Stale, CtlTable;
    LocalParts(sh, l, other);
    var i := EmptyFd(l.fds).value;
    var l' := l.WithFd(i, fd).(currentMaxFd := l.currentMaxFd + 1);
    var k := FindPollfd(l, l.pollEpfd).value;
    SamePollfds(l, l', l.pollEpfd);
    assert TableOk(l.pollfds[k].lfds);
    NewSlotRegisteredExactly(l, l.pollfds[k].lfds, fd, 0, 0);
  }

  /** So closing a poisoned descriptor passes the poison on, to the socket opened next in its slot. */
  lemma SuccessorIsPoisoned(r: Role, sh: Shared, l: Local, other: Local, num: int, nonblock: bool)
    requires Inv(sh, l, other) && Poisoned(l, num) && num < POLLFD_START && l.currentMaxFd < POLLFD_START
    requires FindFd(l.fds, num).Some? ==> forall j | 0 <= j < FindFd(l.fds, num).value :: l.fds[j].active
    ensures var t := DoSocket(DoClose(r, sh, l, num).local, true, true, nonblock);
            t.1 == Ret(l.currentMaxFd) && Poisoned(t.0, l.currentMaxFd)
  {
    hide Inv, FindPollfd, Poisoned, Stale, DoClose;
    ClosedLeavesStale(r, sh, l, other, num);
    var i := FindFd(l.fds, num).value;
    var l' := DoClose(r, sh, l, num).local;
    assert EmptyFd(l'.fds) == Some(i) by { EmptyFdExactly(l'.fds, i); }
    CloseKeepsInv(r, sh, l, other, num);
    assert l.pollEpfd != -1 && FindPollfd(l, l.pollEpfd).Some? by { PoisonHasTable(l, num); }
    BornPoisonedExactly(DoClose(r, sh, l, num).shared, l', other, DoSocket(l', true, true, nonblock).0.fds[i]);
  }

  lemma PoisonHasTable(l: Local, num: int)
    requires Poisoned(l, num)
    ensures l.pollEpfd != -1 && FindPollfd(l, l.pollEpfd).Some?
  {
  }
}
