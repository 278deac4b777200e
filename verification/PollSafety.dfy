/**
 When poll is undefined in C, whatever its table holds when it starts: a failed poll leaves registrations
 there, and the next one waits for them as well.
 */
module PollSafety {
  import opened Basics
  import opened Connections
  import opened Descriptors
  import opened Readiness
  import opened Duplex
  import opened Scanning
  import opened Reachability
  import opened RegistryRuns
  import opened Waiting
  import opened Polling
  import opened PollRuns

  /** poll gets its table and registers all its requests. */
  predicate Registers(l: Local, reqs: seq<PollReq>) {
    var e := DoPollOpen(l);
    e.1.Ret? && AddAll(e.0, e.1.value, reqs, 0).1 == Ret(0)
  }

  /** The tables when all requests are registered. */
  function Loaded(l: Local, reqs: seq<PollReq>): Local
    requires Registers(l, reqs)
  {
    var e := DoPollOpen(l);
    AddAll(e.0, e.1.value, reqs, 0).0
  }

  /** The wait of such a poll. */
  function Waited(r: Role, sh: Shared, l: Local, reqs: seq<PollReq>, timeout: int, schedule: seq<Shared>): WaitResult
    requires Registers(l, reqs)
  {
    EpollPwait(r, sh, Loaded(l, reqs), DoPollOpen(l).1.value, |reqs|, timeout, schedule)
  }

  function LogOf(w: WaitResult): seq<Report> {
    if w.effect.out.Events? then w.effect.out.log else []
  }

  // ---------- passes that find nothing ----------

  ghost predicate TablesOk(sh: Shared, l: Local) {
    FdsOk(sh, l) && NumbersOk(l) && PollfdsOk(l)
  }

  lemma DroppedTwice(fds: seq<Fd>, a: seq<Listener>, b: seq<Listener>, c: seq<Listener>)
    requires Dropped(fds, a, b) && Dropped(fds, b, c)
    ensures Dropped(fds, a, c)
  {
  }

  /** What any pass over table `k` does to the private tables. */
  lemma PassTouches(r: Role, sh: Shared, l: Local, k: nat, epfd: int, maxevents: int)
    requires TablesOk(sh, l) && FindPollfd(l, epfd) == Some(k)
    ensures var l' := DoScan(r, sh, l, epfd, maxevents).local;
            && NumbersOk(l') && PollfdsOk(l') && FindPollfd(l', epfd) == Some(k)
            && l' == WithTable(l, k, l'.pollfds[k].lfds).(fds := l'.fds)
            && OnlyStates(WithTable(l, k, l'.pollfds[k].lfds), l')
            && Dropped(l.fds, l.pollfds[k].lfds, l'.pollfds[k].lfds)
            && (DoScan(r, sh, l, epfd, maxevents).out == Events([]) ==> l'.fds == l.fds)
  {
    hide ScanFrom, ConnsFrame, FdOk, TableOk, NoneActive, FindPollfd;
    var s := StartScan(sh, l, k);
    var t := ScanFrom(s, r, l.interfaces, 0, maxevents);
    ScanFromFrame(s, r, l.interfaces, 0, maxevents);
    ScanIsQuiet(r, sh, l, k, t);
    SameTable(l, k);
    ScanKeepsTable(r, sh, l, epfd, maxevents, epfd, k);
    if t.log == [] { ScanQuietly(s, r, l.interfaces, 0, maxevents); }
    forall i | 0 <= i < |l.fds| ensures t.fds[i].active == l.fds[i].active && t.fds[i].num == l.fds[i].num {
      assert t.fds[i] == l.fds[i] || Opened(sh, l.fds[i], t.fds[i]);
    }
  }

  /**
   The wait from table `k`: the passes before the last one change no descriptor and drop dead registrations
   only, and the last one decides the outcome.
   */
  lemma {:induction false} WaitEnds(r: Role, sh: Shared, l: Local, k: nat, epfd: int, maxevents: int, timeout: int,
                                    schedule: seq<Shared>, n: nat)
    requires NumbersOk(l) && PollfdsOk(l) && FindPollfd(l, epfd) == Some(k)
    requires forall x | x in [sh] + schedule :: FdsOk(x, l)
    ensures var w := WaitLoop(r, sh, l, epfd, maxevents, timeout, schedule, n);
            && w.last in [sh] + schedule && TablesOk(w.last, w.before)
            && FindPollfd(w.before, epfd) == Some(k) && w.before == WithTable(l, k, w.before.pollfds[k].lfds)
            && Dropped(l.fds, l.pollfds[k].lfds, w.before.pollfds[k].lfds)
            && (var e := DoScan(r, w.last, w.before, epfd, maxevents);
                w.effect == e || (e.out == Events([]) &&
                                  (w.effect == e.(out := Ret(0)) || w.effect == e.(out := Blocked))))
    decreases |schedule|
  {
    hide DoScan, NumbersOk, PollfdsOk, FindPollfd, FdsOk;
    assert sh in [sh] + schedule;
    SameTable(l, k);
    PassTouches(r, sh, l, k, epfd, maxevents);
    var e := DoScan(r, sh, l, epfd, maxevents);
    if e.out != Events([]) {
      LoopEnds(r, sh, l, epfd, maxevents, timeout, schedule, n);
    } else {
      LoopTurns(r, sh, l, epfd, maxevents, timeout, schedule, n);
      if !(timeout != -1 && n * SLEEP_DURATION > timeout * 1000) && schedule != [] {
        var lfds := e.local.pollfds[k].lfds;
        assert [schedule[0]] + schedule[1..] == schedule;
        forall x | x in schedule ensures FdsOk(x, e.local) {
          assert x in [sh] + schedule;
          SameFdsOk(x, l, e.local);
        }
        WaitEnds(r, schedule[0], e.local, k, epfd, maxevents, timeout, schedule[1..], n + 1);
        var w := WaitLoop(r, schedule[0], e.local, epfd, maxevents, timeout, schedule[1..], n + 1);
        DroppedTwice(l.fds, l.pollfds[k].lfds, lfds, w.before.pollfds[k].lfds);
        TableTwice(l, k, lfds, w.before.pollfds[k].lfds);
      }
    }
  }

  lemma SameFdsOk(sh: Shared, l: Local, l': Local)
    requires FdsOk(sh, l) && l'.fds == l.fds
    ensures FdsOk(sh, l')
  {
  }

  // ---------- when poll is undefined ----------

  lemma {:induction false} AddAllKeepsInv(sh: Shared, l: Local, other: Local, epfd: int, reqs: seq<PollReq>, i: nat)
    requires Inv(sh, l, other)
    ensures var l' := AddAll(l, epfd, reqs, i).0; Inv(sh, l', other) && l'.fds == l.fds && l'.interfaces == l.interfaces
    ensures AddAll(l, epfd, reqs, i).1 != Undefined
    decreases |reqs| - i
  {
    hide Inv, CtlTable, SignExtend;
    if i < |reqs| {
      EpollCtlKeepsInv(sh, l, other, epfd, CtlAdd, reqs[i].fd, SignExtend(reqs[i].events), i);
      CtlDefined(l, epfd, CtlAdd, reqs[i].fd, SignExtend(reqs[i].events), i);
      AddAllKeepsInv(sh, DoEpollCtl(l, epfd, CtlAdd, reqs[i].fd, SignExtend(reqs[i].events), i).0, other, epfd, reqs,
                     i + 1);
    }
  }

  lemma LoadedOk(sh: Shared, l: Local, other: Local, reqs: seq<PollReq>)
    requires Inv(sh, l, other) && Registers(l, reqs)
    ensures var l' := Loaded(l, reqs);
            Inv(sh, l', other) && TablesOk(sh, l') && l'.fds == l.fds && l'.interfaces == l.interfaces
  {
    hide Inv, AddAll, FdsOk, NumbersOk, PollfdsOk, DoEpollCreate;
    PollOpenKeepsInv(sh, l, other);
    AddAllKeepsInv(sh, DoPollOpen(l).0, other, DoPollOpen(l).1.value, reqs, 0);
    LocalParts(sh, Loaded(l, reqs), other);
    OpenKeepsFds(l);
  }

  lemma OpenKeepsFds(l: Local)
    ensures DoPollOpen(l).0.fds == l.fds && DoPollOpen(l).0.interfaces == l.interfaces
  {
  }

  /** Writing the reported events stays inside the array if and only if every entry names a request. */
  lemma {:induction false} AssignedExactly(revents: seq<bv16>, log: seq<Report>)
    ensures Assign(revents, log).Some? <==> forall e | e in log :: 0 <= e.data < |revents|
    decreases |log|
  {
    hide Truncate;
    if log != [] {
      assert log == [log[0]] + log[1..];
      if 0 <= log[0].data < |revents| {
        AssignedExactly(revents[log[0].data := Truncate(log[0].events)], log[1..]);
      }
    }
  }

  /** An entry that names no request of the poll, but one of an earlier poll. */
  predicate Strays(log: seq<Report>, n: nat) {
    exists e | e in log :: !(0 <= e.data < n)
  }

  /**
   poll on any table, empty or not: it is undefined in C if and only if all its requests are registered and
   either its last pass reaches an unconnected registration, of this poll or left by another one, or an
   entry it reports writes outside the caller's array.
   */
  lemma PollUndefinedExactly(r: Role, sh: Shared, l: Local, other: Local, reqs: seq<PollReq>, timeout: int,
                             schedule: seq<Shared>)
    requires Inv(sh, l, other) && forall x | x in schedule :: FdsOk(x, l)
    ensures DoPoll(r, sh, l, reqs, timeout, schedule).effect.out == Undefined <==>
            Registers(l, reqs) &&
            (var w := Waited(r, sh, l, reqs, timeout, schedule);
             || ScanMeetsUnconnected(r, w.last, w.before, Wait(DoPollOpen(l).1.value, |reqs|))
             || Strays(LogOf(w), |reqs|))
  {
    hide Inv, AddAll, DeleteAll, WaitLoop, Assign, ScanMeetsUnconnected, DoEpollCreate, FdsOk, NumbersOk, PollfdsOk;
    var e := DoPollOpen(l);
    OpenDefined(l);
    if e.1.Ret? {
      PollOpenKeepsInv(sh, l, other);
      AddAllKeepsInv(sh, e.0, other, e.1.value, reqs, 0);
      if Registers(l, reqs) {
        LoadedOk(sh, l, other, reqs);
        var w := Waited(r, sh, l, reqs, timeout, schedule);
        forall x | x in schedule ensures FdsOk(x, Loaded(l, reqs)) {
          SameFdsOk(x, l, Loaded(l, reqs));
        }
        WaitUndefined(r, sh, Loaded(l, reqs), e.1.value, |reqs|, timeout, schedule);
        AssignedExactly(Zeros(|reqs|), LogOf(w));
        DeleteAllDefined(w.effect.local, e.1.value, reqs, 0);
      }
    }
  }

  lemma OpenDefined(l: Local)
    ensures DoPollOpen(l).1 != Undefined && DoPollOpen(l).1 != Blocked
  {
  }

  lemma {:induction false} DeleteAllDefined(l: Local, epfd: int, reqs: seq<PollReq>, i: nat)
    ensures DeleteAll(l, epfd, reqs, i).1 != Undefined
    decreases |reqs| - i
  {
    hide DoEpollCtl;
    if i < |reqs| {
      CtlDefined(l, epfd, CtlDel, reqs[i].fd, 0, 0);
      DeleteAllDefined(DoEpollCtl(l, epfd, CtlDel, reqs[i].fd, 0, 0).0, epfd, reqs, i + 1);
    }
  }

  lemma WaitUndefined(r: Role, sh: Shared, l: Local, epfd: int, maxevents: int, timeout: int, schedule: seq<Shared>)
    requires TablesOk(sh, l) && forall x | x in schedule :: FdsOk(x, l)
    ensures var w := EpollPwait(r, sh, l, epfd, maxevents, timeout, schedule);
            w.effect.out == Undefined <==> ScanMeetsUnconnected(r, w.last, w.before, Wait(epfd, maxevents))
  {
    hide ScanFrom, MeetsUnconnected, FdsOk, NumbersOk, PollfdsOk, FindPollfd, WaitLoop;
    var w := EpollPwait(r, sh, l, epfd, maxevents, timeout, schedule);
    if FindPollfd(l, epfd).Some? {
      WaitEnds(r, sh, l, FindPollfd(l, epfd).value, epfd, maxevents, timeout, schedule, 0);
      ScanUndefined(r, w.last, w.before, Wait(epfd, maxevents));
    } else {
      LoopEnds(r, sh, l, epfd, maxevents, timeout, schedule, 0);
    }
  }
}
