/** poll, built on one internal epoll table, refines a direct readiness test of its descriptors. */
module Polling {
  import opened Basics
  import opened Connections
  import opened Descriptors
  import opened Readiness
  import opened Duplex
  import opened Scanning
  import opened Reachability
  import opened LevelTriggered
  import opened Waiting

  datatype PollReq = PollReq(fd: int, events: bv16)

  /** A `short` mask stored into an unsigned 32-bit mask. */
  function SignExtend(x: bv16): EventMask {
    if x & 0x8000 != 0 then (x as bv32) | 0xFFFF_0000 else x as bv32
  }

  /** A 32-bit mask stored into a `short`. */
  function Truncate(x: EventMask): bv16 {
    (x & 0xFFFF) as bv16
  }

  /** The first loop of poll: register the descriptors from `i` on, each with its index as data. */
  function AddAll(l: Local, epfd: int, reqs: seq<PollReq>, i: nat): (Local, Outcome)
    decreases |reqs| - i
  {
    if i >= |reqs| then (l, Ret(0))
    else
      var e := DoEpollCtl(l, epfd, CtlAdd, reqs[i].fd, SignExtend(reqs[i].events), i);
      if e.1 == Ret(0) then AddAll(e.0, epfd, reqs, i + 1) else e
  }

  function DeleteAll(l: Local, epfd: int, reqs: seq<PollReq>, i: nat): (Local, Outcome)
    decreases |reqs| - i
  {
    if i >= |reqs| then (l, Ret(0))
    else
      var e := DoEpollCtl(l, epfd, CtlDel, reqs[i].fd, 0, 0);
      if e.1 == Ret(0) then DeleteAll(e.0, epfd, reqs, i + 1) else e
  }

  /** Writes the reported events to the entries they name; `None` is a write outside the array. */
  function Assign(revents: seq<bv16>, log: seq<Report>): Option<seq<bv16>>
    decreases |log|
  {
    if log == [] then Some(revents)
    else if !(0 <= log[0].data < |revents|) then None
    else Assign(revents[log[0].data := Truncate(log[0].events)], log[1..])
  }

  datatype PollResult = PollResult(effect: Effect, revents: seq<bv16>, last: Shared)

  function Zeros(n: nat): seq<bv16> {
    seq(n, _ => 0)
  }

  /** The end of poll, after the wait: write `revents`, deregister, return. */
  function PollEnd(w: WaitResult, epfd: int, reqs: seq<PollReq>): PollResult {
    if w.effect.out == Blocked || w.effect.out == Undefined then PollResult(w.effect, [], w.last)
    else
      var log := if w.effect.out.Events? then w.effect.out.log else [];
      var revents := Assign(Zeros(|reqs|), log);
      if revents.None? then PollResult(w.effect.(out := Undefined), [], w.last)
      else
        var deleted := DeleteAll(w.effect.local, epfd, reqs, 0);
        var out := if deleted.1 != Ret(0) then deleted.1 else if w.effect.out.Fail? then Ret(-1) else Ret(|log|);
        PollResult(Effect(w.effect.shared, deleted.0, out), revents.value, w.last)
  }

  /** poll after its internal table exists. */
  function PollOn(r: Role, sh: Shared, l: Local, epfd: int, reqs: seq<PollReq>, timeout: int,
                  schedule: seq<Shared>): PollResult {
    var added := AddAll(l, epfd, reqs, 0);
    if added.1 != Ret(0) then PollResult(Effect(sh, added.0, added.1), [], sh)
    else PollEnd(EpollPwait(r, sh, added.0, epfd, |reqs|, timeout, schedule), epfd, reqs)
  }

  function DoPoll(r: Role, sh: Shared, l: Local, reqs: seq<PollReq>, timeout: int, schedule: seq<Shared>): PollResult {
    var e := DoPollOpen(l);
    if !e.1.Ret? then PollResult(Effect(sh, e.0, e.1), [], sh)
    else PollOn(r, sh, e.0, e.1.value, reqs, timeout, schedule)
  }

  // ---------- the premises ----------

  /** The first `n` requests name distinct open sockets, at most as many as a table holds. */
  predicate RegistrableTo(l: Local, reqs: seq<PollReq>, n: nat)
    requires n <= |reqs|
  {
    && n <= MAX_FDS_LISTEN
    && (forall i | 0 <= i < n :: FindFd(l.fds, reqs[i].fd).Some?)
    && (forall i, j | 0 <= i < j < n :: reqs[i].fd != reqs[j].fd)
  }

  /** All requests can be registered, whatever they ask for. */
  predicate Registrable(l: Local, reqs: seq<PollReq>) {
    RegistrableTo(l, reqs, |reqs|)
  }

  /** And their masks are not negative, so that all registrations are level-triggered. */
  predicate RequestsOk(l: Local, reqs: seq<PollReq>) {
    Registrable(l, reqs) && forall i | 0 <= i < |reqs| :: reqs[i].events & 0x8000 == 0
  }

  /** Every requested socket is connected, connecting or listening, in memory `sh`. */
  ghost predicate Reachable(sh: Shared, l: Local, reqs: seq<PollReq>) {
    && FdsOk(sh, l)
    && (forall i | 0 <= i < |reqs| && FindFd(l.fds, reqs[i].fd).Some? ::
        l.fds[FindFd(l.fds, reqs[i].fd).value].pConn.Some?)
  }

  predicate EmptyTable(lfds: seq<Listener>) {
    |lfds| == MAX_FDS_LISTEN && forall j | 0 <= j < |lfds| :: !lfds[j].active
  }

  function WithTable(l: Local, k: nat, lfds: seq<Listener>): Local
    requires k < |l.pollfds|
  {
    l.(pollfds := l.pollfds[k := l.pollfds[k].(lfds := lfds)])
  }

  function RequestListener(l: Local, reqs: seq<PollReq>, j: nat): Listener
    requires j < |reqs| && FindFd(l.fds, reqs[j].fd).Some?
  {
    Listener(true, !IsEventSet(SignExtend(reqs[j].events), EPOLLET), SignExtend(reqs[j].events), j,
             FindFd(l.fds, reqs[j].fd).value)
  }

  /** The table while requests `from` to `to` are registered, each in its own entry. */
  ghost predicate Holds(l: Local, lfds: seq<Listener>, reqs: seq<PollReq>, from: nat, to: nat) {
    && |lfds| == MAX_FDS_LISTEN && from <= to <= |reqs| && RegistrableTo(l, reqs, to)
    && (forall j | from <= j < to :: lfds[j] == RequestListener(l, reqs, j))
    && (forall j | 0 <= j < |lfds| && !(from <= j < to) :: !lfds[j].active)
  }

  // ---------- registering and deregistering ----------

  /** A mask survives the way to 32 bits and back, and has the edge-triggered flag if and only if it is negative. */
  lemma MaskExtends(x: bv16)
    ensures Truncate(SignExtend(x)) == x && (IsEventSet(SignExtend(x), EPOLLET) <==> x & 0x8000 != 0)
  {
  }

  lemma SlotsDiffer(l: Local, reqs: seq<PollReq>, n: nat, i: nat, j: nat)
    requires n <= |reqs| && RegistrableTo(l, reqs, n) && i < n && j < n && i != j
    ensures l.fds[FindFd(l.fds, reqs[i].fd).value].num == reqs[i].fd
    ensures FindFd(l.fds, reqs[i].fd) != FindFd(l.fds, reqs[j].fd)
  {
  }

  lemma AddNext(l: Local, lfds: seq<Listener>, reqs: seq<PollReq>, i: nat)
    requires i < |reqs| && RegistrableTo(l, reqs, i + 1) && Holds(l, lfds, reqs, 0, i)
    ensures var e := CtlTable(l.fds, lfds, CtlAdd, reqs[i].fd, FindFd(l.fds, reqs[i].fd).value,
                              SignExtend(reqs[i].events), i);
            e.1 == Ret(0) && Holds(l, e.0, reqs, 0, i + 1)
  {
    hide SignExtend, IsEventSet;
    forall j | 0 <= j < |lfds| ensures !ListensTo(l.fds, lfds[j], reqs[i].fd) {
      if j < i { SlotsDiffer(l, reqs, i + 1, j, i); }
    }
    assert forall j | 0 <= j < i :: lfds[j] == RequestListener(l, reqs, j);
    assert !lfds[i].active;
    assert EmptyListener(lfds) == Some(i);
  }

  /** Why request `n` is refused when the `n` before it are registered. */
  function Refusal(l: Local, reqs: seq<PollReq>, n: nat): Outcome
    requires n < |reqs|
  {
    if reqs[n].fd < FD_START then Foreign
    else if FindFd(l.fds, reqs[n].fd).None? then Fail(-1, EBADF)
    else if exists j | 0 <= j < n :: reqs[j].fd == reqs[n].fd then Fail(-1, EEXIST)
    else Fail(-1, ENOMEM)
  }

  lemma AddRefused(l: Local, lfds: seq<Listener>, reqs: seq<PollReq>, i: nat)
    requires NumbersOk(l) && i < |reqs| && !RegistrableTo(l, reqs, i + 1) && Holds(l, lfds, reqs, 0, i) &&
             FindFd(l.fds, reqs[i].fd).Some?
    ensures CtlTable(l.fds, lfds, CtlAdd, reqs[i].fd, FindFd(l.fds, reqs[i].fd).value, SignExtend(reqs[i].events), i) ==
            (lfds, if exists j | 0 <= j < i :: reqs[j].fd == reqs[i].fd then Fail(-1, EEXIST) else Fail(-1, ENOMEM))
  {
    hide SignExtend, IsEventSet, NumbersOk;
    var num := reqs[i].fd;
    LookupFound(l, lfds, reqs, i);
    if j :| 0 <= j < i && reqs[j].fd == num {
      assert lfds[j] == RequestListener(l, reqs, j);
      assert ListensTo(l.fds, lfds[j], num);
      assert ListenerForFd(l.fds, lfds, num).found.Some?;
    } else {
      forall j | 0 <= j < |lfds| ensures !ListensTo(l.fds, lfds[j], num) {
        if j < i { assert lfds[j] == RequestListener(l, reqs, j); }
      }
      assert i == MAX_FDS_LISTEN;
      forall j | 0 <= j < |lfds| ensures lfds[j].active {
        assert lfds[j] == RequestListener(l, reqs, j);
      }
      assert EmptyListener(lfds).None?;
    }
  }

  /** Every registration found in a table of requests is of an open descriptor. */
  lemma LookupFound(l: Local, lfds: seq<Listener>, reqs: seq<PollReq>, i: nat)
    requires Holds(l, lfds, reqs, 0, i) && i < |reqs|
    ensures var look := ListenerForFd(l.fds, lfds, reqs[i].fd);
            look.lfds == lfds && (look.found.None? ==>
                                  forall j | 0 <= j < |lfds| :: !ListensTo(l.fds, lfds[j], reqs[i].fd))
  {
    hide SignExtend, IsEventSet;
    forall j | 0 <= j < |lfds| && lfds[j].active ensures lfds[j].slot < |l.fds| && l.fds[lfds[j].slot].active {
      assert lfds[j] == RequestListener(l, reqs, j);
    }
  }

  /**
   Registering requests one after the other, from a table that holds the first `i`: it stops at the
   first request that cannot be registered, and the table then holds exactly those before it.
   */
  lemma {:induction false} AddAllExactly(l: Local, k: nat, epfd: int, lfds: seq<Listener>, reqs: seq<PollReq>, i: nat)
    returns (n: nat, table: seq<Listener>)
    requires NumbersOk(l) && FindPollfd(l, epfd) == Some(k) && l.pollfds[k].lfds == lfds
    requires i <= |reqs| && Holds(l, lfds, reqs, 0, i)
    ensures i <= n <= |reqs| && Holds(l, table, reqs, 0, n) && (n < |reqs| ==> !RegistrableTo(l, reqs, n + 1))
    ensures AddAll(l, epfd, reqs, i) == (WithTable(l, k, table), if n == |reqs| then Ret(0) else Refusal(l, reqs, n))
    decreases |reqs| - i
  {
    hide Holds, CtlTable, SignExtend, NumbersOk, RegistrableTo;
    if i == |reqs| {
      n, table := i, lfds;
      SameTable(l, k);
    } else if RegistrableTo(l, reqs, i + 1) {
      AddNext(l, lfds, reqs, i);
      assert reqs[i].fd >= FD_START && FindFd(l.fds, reqs[i].fd).Some? by { OpenNumber(l, reqs, i); }
      var t := CtlTable(l.fds, lfds, CtlAdd, reqs[i].fd, FindFd(l.fds, reqs[i].fd).value, SignExtend(reqs[i].events),
                        i).0;
      var l' := WithTable(l, k, t);
      SamePollfd(l, k, epfd, t);
      HoldsLocally(l, l', t, reqs, 0, i + 1);
      NumbersLocal(l, l');
      n, table := AddAllExactly(l', k, epfd, t, reqs, i + 1);
      HoldsLocally(l', l, table, reqs, 0, n);
      if n < |reqs| { RegistrableLocally(l', l, reqs, n + 1); }
      TableTwice(l, k, t, table);
    } else {
      n, table := i, lfds;
      SameTable(l, k);
      if reqs[i].fd >= FD_START && FindFd(l.fds, reqs[i].fd).Some? {
        AddRefused(l, lfds, reqs, i);
      }
    }
  }

  lemma OpenNumber(l: Local, reqs: seq<PollReq>, i: nat)
    requires NumbersOk(l) && i < |reqs| && RegistrableTo(l, reqs, i + 1)
    ensures FindFd(l.fds, reqs[i].fd).Some? && reqs[i].fd >= FD_START
  {
  }

  lemma RegistrableLocally(l: Local, l': Local, reqs: seq<PollReq>, n: nat)
    requires l'.fds == l.fds && n <= |reqs|
    ensures RegistrableTo(l', reqs, n) == RegistrableTo(l, reqs, n)
  {
  }

  lemma RegistrablePrefix(l: Local, reqs: seq<PollReq>, n: nat)
    requires n <= |reqs| && Registrable(l, reqs)
    ensures RegistrableTo(l, reqs, n)
  {
  }

  /** From an empty table, for any masks, registration succeeds if and only if the requests are registrable. */
  lemma RegistersExactly(l: Local, k: nat, epfd: int, reqs: seq<PollReq>) returns (n: nat, table: seq<Listener>)
    requires NumbersOk(l) && FindPollfd(l, epfd) == Some(k) && EmptyTable(l.pollfds[k].lfds)
    ensures n <= |reqs| && Holds(l, table, reqs, 0, n) && (n < |reqs| ==> !RegistrableTo(l, reqs, n + 1))
    ensures AddAll(l, epfd, reqs, 0) == (WithTable(l, k, table), if n == |reqs| then Ret(0) else Refusal(l, reqs, n))
    ensures n == |reqs| <==> Registrable(l, reqs)
    ensures AddAll(l, epfd, reqs, 0).1 == Ret(0) <==> Registrable(l, reqs)
  {
    hide NumbersOk, Holds, EmptyTable;
    assert Holds(l, l.pollfds[k].lfds, reqs, 0, 0) by { EmptyHolds(l, l.pollfds[k].lfds, reqs); }
    n, table := AddAllExactly(l, k, epfd, l.pollfds[k].lfds, reqs, 0);
    assert RegistrableTo(l, reqs, n) by { HeldAreRegistrable(l, table, reqs, n); }
    if n < |reqs| && Registrable(l, reqs) {
      RegistrablePrefix(l, reqs, n + 1);
    }
  }

  /**
   What a registered request asks for: its own mask, under its index, for the descriptor it names; edge-triggered
   if and only if the mask is negative.
   */
  lemma RequestRegisteredExactly(l: Local, lfds: seq<Listener>, reqs: seq<PollReq>, n: nat, j: nat)
    requires Holds(l, lfds, reqs, 0, n) && j < n
    ensures var lfd := lfds[j];
            && lfd.active && lfd.data == j && Truncate(lfd.events) == reqs[j].events
            && (!lfd.level <==> reqs[j].events & 0x8000 != 0)
            && lfd.slot < |l.fds| && l.fds[lfd.slot].active && l.fds[lfd.slot].num == reqs[j].fd
  {
    hide Truncate, SignExtend, IsEventSet;
    MaskExtends(reqs[j].events);
    assert lfds[j] == RequestListener(l, reqs, j);
  }

  lemma HeldAreRegistrable(l: Local, lfds: seq<Listener>, reqs: seq<PollReq>, n: nat)
    requires Holds(l, lfds, reqs, 0, n)
    ensures n <= |reqs| && RegistrableTo(l, reqs, n)
  {
  }

  lemma SameTable(l: Local, k: nat)
    requires k < |l.pollfds|
    ensures WithTable(l, k, l.pollfds[k].lfds) == l
  {
    assert l.pollfds[k := l.pollfds[k]] == l.pollfds;
  }

  lemma TableTwice(l: Local, k: nat, t: seq<Listener>, u: seq<Listener>)
    requires k < |l.pollfds|
    ensures WithTable(WithTable(l, k, t), k, u) == WithTable(l, k, u)
  {
    assert WithTable(WithTable(l, k, t), k, u).pollfds == WithTable(l, k, u).pollfds;
  }

  lemma SamePollfd(l: Local, k: nat, epfd: int, t: seq<Listener>)
    requires FindPollfd(l, epfd) == Some(k)
    ensures FindPollfd(WithTable(l, k, t), epfd) == Some(k)
  {
    var l' := WithTable(l, k, t);
    assert l'.pollfds[k].active && l'.pollfds[k].num == epfd;
    assert forall j | 0 <= j < k :: l'.pollfds[j] == l.pollfds[j];
  }

  lemma HoldsLocally(l: Local, l': Local, lfds: seq<Listener>, reqs: seq<PollReq>, from: nat, to: nat)
    requires l'.fds == l.fds && Holds(l, lfds, reqs, from, to)
    ensures Holds(l', lfds, reqs, from, to)
  {
  }

  lemma DeleteNext(l: Local, lfds: seq<Listener>, reqs: seq<PollReq>, i: nat)
    requires i < |reqs| && Holds(l, lfds, reqs, i, |reqs|)
    ensures FindFd(l.fds, reqs[i].fd).Some?
    ensures var e := CtlTable(l.fds, lfds, CtlDel, reqs[i].fd, FindFd(l.fds, reqs[i].fd).value, 0, 0);
            e.1 == Ret(0) && Holds(l, e.0, reqs, i + 1, |reqs|)
  {
    hide SignExtend, IsEventSet;
    assert ListensTo(l.fds, lfds[i], reqs[i].fd);
    forall j | 0 <= j < |lfds| && j != i ensures !ListensTo(l.fds, lfds[j], reqs[i].fd) {
      if i < j < |reqs| { SlotsDiffer(l, reqs, |reqs|, j, i); }
    }
  }

  lemma {:induction false} DeleteAllEmpties(l: Local, k: nat, epfd: int, lfds: seq<Listener>, reqs: seq<PollReq>,
                                            i: nat)
    requires NumbersOk(l) && FindPollfd(l, epfd) == Some(k) && l.pollfds[k].lfds == lfds
    requires i <= |reqs| && Holds(l, lfds, reqs, i, |reqs|)
    ensures var e := DeleteAll(l, epfd, reqs, i);
            e.1 == Ret(0) && FindPollfd(e.0, epfd) == Some(k) && EmptyTable(e.0.pollfds[k].lfds) &&
              e.0.pollEpfd == l.pollEpfd
    decreases |reqs| - i
  {
    if i < |reqs| {
      hide Holds, CtlTable, NumbersOk;
      DeleteNext(l, lfds, reqs, i);
      assert reqs[i].fd >= FD_START by { NumberInRange(l, FindFd(l.fds, reqs[i].fd).value); }
      var t := CtlTable(l.fds, lfds, CtlDel, reqs[i].fd, FindFd(l.fds, reqs[i].fd).value, 0, 0).0;
      SamePollfd(l, k, epfd, t);
      HoldsLocally(l, WithTable(l, k, t), t, reqs, i + 1, |reqs|);
      NumbersLocal(l, WithTable(l, k, t));
      DeleteAllEmpties(WithTable(l, k, t), k, epfd, t, reqs, i + 1);
    }
  }

  // ---------- one pass over the table ----------

  /** A scan that writes nothing opens no descriptor. */
  lemma VisitQuietly(s: Scan, r: Role, interfaces: seq<Option<nat>>, j: nat)
    requires j < |s.lfds| && Visit(s, r, interfaces, j).log == s.log
    ensures Visit(s, r, interfaces, j).fds == s.fds
  {
    hide PickOnTable, RaiseInput, LowerInput, CheckAndSetEvents, CompleteConnect;
    if s.lfds[j].slot < |s.fds| && Deref(s.shared, s.fds[s.lfds[j].slot].pConn).Some? {
      var p := s.fds[s.lfds[j].slot].pConn.value;
      CheckFrame(s, r, j, p, false, s.lfds[j].events);
      LowerKeepsFds(s, r, p);
      RaiseWrites(s, r, j, p);
    }
  }

  lemma RaiseWrites(s: Scan, r: Role, j: nat, p: Ptr)
    requires j < |s.lfds| && p in s.shared.conns
    ensures |RaiseInput(s, r, j, p).log| == |s.log| + 1
  {
    var own := s.shared.conns[p].Own(r);
    RaisedInput(own.events);
    RaisedInput(own.ltEvents);
    hide SetEvent, Among, IsEventSet, ClearEvent;
  }

  lemma {:induction false} ScanQuietly(s: Scan, r: Role, interfaces: seq<Option<nat>>, j: nat, maxevents: int)
    requires ScanFrom(s, r, interfaces, j, maxevents).log == s.log
    ensures ScanFrom(s, r, interfaces, j, maxevents).fds == s.fds
    decreases |s.lfds| - j
  {
    hide Visit;
    if j < |s.lfds| && |s.log| < maxevents && !s.undefined {
      var t := Visit(s, r, interfaces, j);
      VisitFrame(s, r, interfaces, j);
      ScanFromFrame(t, r, interfaces, j + 1, maxevents);
      assert t.log == s.log;
      VisitQuietly(s, r, interfaces, j);
      ScanQuietly(t, r, interfaces, j + 1, maxevents);
    }
  }

  /** The state of a pass that starts on a table holding all requests. */
  function PassStart(sh: Shared, l: Local, lfds: seq<Listener>): Scan {
    Scan(sh, l.fds, lfds, [], false)
  }

  lemma HeldTableIsLevel(sh: Shared, l: Local, lfds: seq<Listener>, reqs: seq<PollReq>)
    requires RequestsOk(l, reqs) && NumbersOk(l) && Reachable(sh, l, reqs) && Holds(l, lfds, reqs, 0, |reqs|)
    ensures LevelTable(PassStart(sh, l, lfds))
    ensures forall j | 0 <= j < |lfds| :: !Unconnected(l.fds, lfds[j])
    ensures forall j | 0 <= j < |lfds| && lfds[j].active :: lfds[j].slot < |l.fds| && l.fds[lfds[j].slot].active
  {
    hide SignExtend, IsEventSet, FdOk;
    forall j, k | 0 <= j < k < |lfds| && lfds[j].active && lfds[k].active ensures lfds[j].slot != lfds[k].slot {
      assert lfds[j] == RequestListener(l, reqs, j) && lfds[k] == RequestListener(l, reqs, k);
      SlotsDiffer(l, reqs, |reqs|, j, k);
    }
    forall j | 0 <= j < |lfds| && lfds[j].active ensures lfds[j].level {
      MaskExtends(reqs[j].events);
    }
  }

  lemma {:induction false} EntriesBound(r: Role, s: Scan, interfaces: seq<Option<nat>>, j: nat, n: nat)
    requires forall k | n <= k < |s.lfds| :: !s.lfds[k].active
    ensures |Entries(r, s, interfaces, j)| <= if j < n then n - j else 0
    decreases |s.lfds| - j
  {
    hide Ready;
    if j < |s.lfds| {
      EntriesBound(r, s, interfaces, j + 1, n);
    }
  }

  /**
   One pass writes the entry of every ready request, whatever was reported before; and if nothing is
   ready, it leaves descriptors and registrations as they are.
   */
  lemma PollPass(r: Role, sh: Shared, l: Local, k: nat, epfd: int, reqs: seq<PollReq>)
    requires FindPollfd(l, epfd) == Some(k) && RequestsOk(l, reqs) && NumbersOk(l) && Reachable(sh, l, reqs)
    requires Holds(l, l.pollfds[k].lfds, reqs, 0, |reqs|)
    ensures var e := DoScan(r, sh, l, epfd, |reqs|);
            var log := Entries(r, PassStart(sh, l, l.pollfds[k].lfds), l.interfaces, 0);
            && e.out == Events(log)
            && (log == [] ==> e.local == l)
            && ScanFrame(r, PassStart(sh, l, l.pollfds[k].lfds),
                         ScanFrom(PassStart(sh, l, l.pollfds[k].lfds), r, l.interfaces, 0, |reqs|))
            && e.local == WithTable(l, k, l.pollfds[k].lfds).(fds := e.local.fds)
            && |e.local.fds| == |l.fds|
            && (forall i | 0 <= i < |l.fds| :: e.local.fds[i] == l.fds[i] || Opened(sh, l.fds[i], e.local.fds[i]))
  {
    hide ScanFrom, Holds, RequestsOk, NumbersOk, Reachable, LevelTable, MasksOnly, Entries, ConnsFrame;
    var s := PassStart(sh, l, l.pollfds[k].lfds);
    var t := ScanFrom(s, r, l.interfaces, 0, |reqs|);
    HeldTableIsLevel(sh, l, l.pollfds[k].lfds, reqs);
    assert ScanReady(s) by { LevelTableReady(s); }
    ScanFromUndefined(s, r, l.interfaces, 0, |reqs|);
    LevelScan(s, r, l.interfaces, 0, |reqs|);
    EntriesWithin(r, sh, l, l.pollfds[k].lfds, reqs);
    ScanFromFrame(s, r, l.interfaces, 0, |reqs|);
    assert t.log == Entries(r, s, l.interfaces, 0);
    assert t.lfds == s.lfds;
    SameTable(l, k);
    if t.log == [] {
      ScanQuietly(s, r, l.interfaces, 0, |reqs|);
    }
  }

  lemma LevelTableReady(s: Scan)
    requires LevelTable(s)
    ensures ScanReady(s)
  {
  }

  lemma EntriesWithin(r: Role, sh: Shared, l: Local, lfds: seq<Listener>, reqs: seq<PollReq>)
    requires RequestsOk(l, reqs) && Holds(l, lfds, reqs, 0, |reqs|)
    ensures |Entries(r, PassStart(sh, l, lfds), l.interfaces, 0)| <= |reqs|
  {
    hide Entries;
    EntriesBound(r, PassStart(sh, l, lfds), l.interfaces, 0, |reqs|);
  }

  /**
   A pass of poll over a table that holds its requests and nothing else follows a null pointer if and only
   if it is asked about a socket that is neither listening nor connected, whatever the masks: there is always
   room for the entries before it.
   */
  lemma PollPassUndefinedExactly(r: Role, sh: Shared, l: Local, k: nat, epfd: int, reqs: seq<PollReq>)
    requires FindPollfd(l, epfd) == Some(k) && NumbersOk(l) && FdsOk(sh, l) &&
             Holds(l, l.pollfds[k].lfds, reqs, 0, |reqs|)
    ensures DoScan(r, sh, l, epfd, |reqs|).out == Undefined <==>
            exists i | 0 <= i < |reqs| ::
              FindFd(l.fds, reqs[i].fd).Some? && l.fds[FindFd(l.fds, reqs[i].fd).value].pConn.None?
  {
    hide ScanFrom, SignExtend, IsEventSet, FdOk, MeetsUnconnected;
    var s := StartScan(sh, l, k);
    assert ScanReady(s) by { HeldIsReady(sh, l, l.pollfds[k].lfds, reqs); }
    ScanFromUndefined(s, r, l.interfaces, 0, |reqs|);
    if i :| 0 <= i < |reqs| && FindFd(l.fds, reqs[i].fd).Some? && l.fds[FindFd(l.fds, reqs[i].fd).value].pConn.None? {
      assert s.lfds[i] == RequestListener(l, reqs, i);
      RoomyScanMeets(s, r, l.interfaces, i, |reqs|);
    }
    if MeetsUnconnected(s, r, l.interfaces, 0, |reqs|) {
      MetIsUnconnected(s, r, l.interfaces, 0, |reqs|);
      var j :| 0 <= j < |s.lfds| && Unconnected(s.fds, s.lfds[j]);
      assert s.lfds[j] == RequestListener(l, reqs, j);
    }
  }

  lemma HeldIsReady(sh: Shared, l: Local, lfds: seq<Listener>, reqs: seq<PollReq>)
    requires NumbersOk(l) && FdsOk(sh, l) && Holds(l, lfds, reqs, 0, |reqs|)
    ensures ScanReady(PassStart(sh, l, lfds))
  {
    hide FdOk, SignExtend, IsEventSet;
    forall j | 0 <= j < |lfds| && lfds[j].active ensures lfds[j].slot < |l.fds| {
      assert lfds[j] == RequestListener(l, reqs, j);
    }
  }

  // ---------- waiting, results, cleaning up ----------

  /** Readiness holds at every state of memory the call may see. */
  ghost predicate AlwaysReachable(sh: Shared, schedule: seq<Shared>, l: Local, reqs: seq<PollReq>) {
    Reachable(sh, l, reqs) && forall x | x in schedule :: Reachable(x, l, reqs)
  }

  /** `l'` is `l` with some connecting descriptors opened. */
  ghost predicate SomeOpened(sh: Shared, l: Local, l': Local) {
    && l' == l.(fds := l'.fds) && |l'.fds| == |l.fds|
    && (forall i | 0 <= i < |l.fds| :: l'.fds[i] == l.fds[i] || Opened(sh, l.fds[i], l'.fds[i]))
  }

  lemma {:induction false} PollWaits(r: Role, sh: Shared, l: Local, k: nat, epfd: int, reqs: seq<PollReq>, timeout: int,
                                     schedule: seq<Shared>, n: nat)
    requires FindPollfd(l, epfd) == Some(k) && RequestsOk(l, reqs) && NumbersOk(l)
    requires AlwaysReachable(sh, schedule, l, reqs) && Holds(l, l.pollfds[k].lfds, reqs, 0, |reqs|)
    ensures var w := WaitLoop(r, sh, l, epfd, |reqs|, timeout, schedule, n);
            var log := Entries(r, PassStart(w.last, l, l.pollfds[k].lfds), l.interfaces, 0);
            && (w.last == sh || w.last in schedule)
            && (w.effect.out == Blocked || w.effect.out == if log == [] then Ret(0) else Events(log))
            && SomeOpened(w.last, l, w.effect.local)
    decreases |schedule|
  {
    hide Holds, RequestsOk, NumbersOk, Reachable, Entries, DoScan, ScanFrame, ScanFrom;
    PollPass(r, sh, l, k, epfd, reqs);
    SameTable(l, k);
    var e := DoScan(r, sh, l, epfd, |reqs|);
    assert SomeOpened(sh, l, e.local);
    if e.out == Events([]) && schedule != [] {
      PollWaits(r, schedule[0], l, k, epfd, reqs, timeout, schedule[1..], n + 1);
    }
  }

  /** `l'` is `l` but for the states of some descriptors. */
  ghost predicate OnlyStates(l: Local, l': Local) {
    && l' == l.(fds := l'.fds) && |l'.fds| == |l.fds|
    && (forall i | 0 <= i < |l.fds| :: l'.fds[i].active == l.fds[i].active && l'.fds[i].num == l.fds[i].num)
  }

  lemma OpenedOnlyStates(sh: Shared, l: Local, l': Local)
    requires SomeOpened(sh, l, l')
    ensures OnlyStates(l, l')
  {
    forall i | 0 <= i < |l.fds| ensures l'.fds[i].active == l.fds[i].active && l'.fds[i].num == l.fds[i].num {
      assert l'.fds[i] == l.fds[i] || Opened(sh, l.fds[i], l'.fds[i]);
    }
  }

  lemma StatesKeepRequests(l: Local, l': Local, lfds: seq<Listener>, reqs: seq<PollReq>)
    requires NumbersOk(l) && OnlyStates(l, l') && Holds(l, lfds, reqs, 0, |reqs|)
    ensures NumbersOk(l') && Holds(l', lfds, reqs, 0, |reqs|)
  {
    hide SignExtend, IsEventSet;
    forall num ensures FindFd(l'.fds, num) == FindFd(l.fds, num) {
      SameNumbersFound(l.fds, l'.fds, num);
    }
  }

  /** The direct readiness test of one request. */
  function ReadyFor(r: Role, sh: Shared, l: Local, req: PollReq): bv16
    requires FindFd(l.fds, req.fd).Some?
  {
    Truncate(Ready(r, sh, l.interfaces, l.fds[FindFd(l.fds, req.fd).value], SignExtend(req.events)))
  }

  function NonZero(revents: seq<bv16>): nat {
    if revents == [] then 0 else (if revents[0] != 0 then 1 else 0) + NonZero(revents[1..])
  }

  /** Readiness fits in the low 16 bits. */
  lemma TruncateKeepsEvents(mask: EventMask, wanted: EventMask)
    requires mask & 0xFFFF == mask
    ensures Truncate(Among(mask, wanted)) == 0 <==> Among(mask, wanted) == 0
  {
  }

  lemma LevelMaskFits(c: Connection, r: Role)
    ensures LevelMask(c, r) & 0xFFFF == LevelMask(c, r)
  {
  }

  lemma ReadyFits(r: Role, sh: Shared, interfaces: seq<Option<nat>>, fd: Fd, wanted: EventMask)
    ensures Truncate(Ready(r, sh, interfaces, fd, wanted)) == 0 <==> Ready(r, sh, interfaces, fd, wanted) == 0
  {
    hide PickOnTable, LevelMask;
    if Deref(sh, fd.pConn).Some? {
      LevelMaskFits(Deref(sh, fd.pConn).value, r);
      TruncateKeepsEvents(LevelMask(Deref(sh, fd.pConn).value, r), wanted);
    }
  }

  /** What the entries from request `j` on write into an array that is zero there. */
  lemma {:induction false} AssignEntries(r: Role, sh: Shared, l: Local, lfds: seq<Listener>, reqs: seq<PollReq>, j: nat,
                                         base: seq<bv16>) returns (revents: seq<bv16>)
    requires RequestsOk(l, reqs) && NumbersOk(l) && Reachable(sh, l, reqs) && Holds(l, lfds, reqs, 0, |reqs|)
    requires |base| == |reqs| && j <= |reqs| && forall i | j <= i < |base| :: base[i] == 0
    ensures Assign(base, Entries(r, PassStart(sh, l, lfds), l.interfaces, j)) == Some(revents) && |revents| == |reqs|
    ensures forall i | 0 <= i < j :: revents[i] == base[i]
    ensures forall i | j <= i < |reqs| :: revents[i] == ReadyFor(r, sh, l, reqs[i])
    ensures NonZero(revents[j..]) == |Entries(r, PassStart(sh, l, lfds), l.interfaces, j)|
    decreases |reqs| - j
  {
    hide Ready, SignExtend, Truncate, RequestsOk, NumbersOk, Reachable, Holds, Entry, Entries, Assign, NonZero,
        ReadyFor;
    var s := PassStart(sh, l, lfds);
    HoldsShape(l, lfds, reqs);
    if j == |reqs| {
      NoEntries(r, s, l.interfaces, j);
      AssignNothing(base);
      revents := base;
    } else {
      EntryOfRequest(r, sh, l, lfds, reqs, j);
      EntriesSplit(r, s, l.interfaces, j);
      var value := ReadyFor(r, sh, l, reqs[j]);
      revents := AssignEntries(r, sh, l, lfds, reqs, j + 1, base[j := value]);
      NonZeroSplit(revents, j);
      if value == 0 {
        assert base[j := value] == base;
      } else {
        AssignOne(base, Entry(r, s, l.interfaces, j)[0], Entries(r, s, l.interfaces, j + 1));
        assert Entry(r, s, l.interfaces, j) == [Entry(r, s, l.interfaces, j)[0]];
      }
    }
  }

  lemma EntriesSplit(r: Role, s: Scan, interfaces: seq<Option<nat>>, j: nat)
    requires j < |s.lfds|
    ensures Entries(r, s, interfaces, j) == Entry(r, s, interfaces, j) + Entries(r, s, interfaces, j + 1)
    ensures Entry(r, s, interfaces, j) == [] ==> Entries(r, s, interfaces, j) == Entries(r, s, interfaces, j + 1)
  {
    hide Entry;
  }

  lemma AssignNothing(base: seq<bv16>)
    ensures Assign(base, []) == Some(base) && NonZero(base[|base|..]) == 0
  {
  }

  lemma AssignOne(base: seq<bv16>, e: Report, rest: seq<Report>)
    requires 0 <= e.data < |base|
    ensures Assign(base, [e] + rest) == Assign(base[e.data := Truncate(e.events)], rest)
  {
    hide Truncate;
    assert ([e] + rest)[1..] == rest;
  }

  lemma NonZeroSplit(revents: seq<bv16>, j: nat)
    requires j < |revents|
    ensures NonZero(revents[j..]) == (if revents[j] != 0 then 1 else 0) + NonZero(revents[j + 1..])
  {
    assert revents[j..][1..] == revents[j + 1..];
  }

  lemma HoldsShape(l: Local, lfds: seq<Listener>, reqs: seq<PollReq>)
    requires RequestsOk(l, reqs) && Holds(l, lfds, reqs, 0, |reqs|)
    ensures |lfds| == MAX_FDS_LISTEN && |reqs| <= |lfds| && forall k | |reqs| <= k < |lfds| :: !lfds[k].active
    ensures forall k | 0 <= k < |reqs| :: FindFd(l.fds, reqs[k].fd).Some?
  {
  }

  lemma {:induction false} NoEntries(r: Role, s: Scan, interfaces: seq<Option<nat>>, j: nat)
    requires forall k | j <= k < |s.lfds| :: !s.lfds[k].active
    ensures Entries(r, s, interfaces, j) == []
    decreases |s.lfds| - j
  {
    if j < |s.lfds| { NoEntries(r, s, interfaces, j + 1); }
  }

  /** The entry of a request registered anywhere in a table. */
  lemma EntryAt(r: Role, sh: Shared, l: Local, lfds: seq<Listener>, reqs: seq<PollReq>, i: nat, j: nat)
    requires FdsOk(sh, l) && i < |reqs| && FindFd(l.fds, reqs[i].fd).Some? && reqs[i].events & 0x8000 == 0
    requires l.fds[FindFd(l.fds, reqs[i].fd).value].pConn.Some?
    requires j < |lfds| && lfds[j] == RequestListener(l, reqs, i)
    ensures var entry := Entry(r, PassStart(sh, l, lfds), l.interfaces, j);
            var value := ReadyFor(r, sh, l, reqs[i]);
            if value == 0 then entry == []
            else |entry| == 1 && entry[0].listener == j && entry[0].data == i && Truncate(entry[0].events) == value
  {
    hide Ready, SignExtend, Truncate, IsEventSet;
    MaskExtends(reqs[i].events);
    var slot := FindFd(l.fds, reqs[i].fd).value;
    assert FdOk(sh, l.fds[slot]);
    ReadyFits(r, sh, l.interfaces, l.fds[slot], SignExtend(reqs[i].events));
  }

  lemma EntryOfRequest(r: Role, sh: Shared, l: Local, lfds: seq<Listener>, reqs: seq<PollReq>, j: nat)
    requires RequestsOk(l, reqs) && Reachable(sh, l, reqs) && Holds(l, lfds, reqs, 0, |reqs|) && j < |reqs|
    ensures var entry := Entry(r, PassStart(sh, l, lfds), l.interfaces, j);
            var value := ReadyFor(r, sh, l, reqs[j]);
            if value == 0 then entry == []
            else |entry| == 1 && entry[0].data == j && Truncate(entry[0].events) == value
  {
    hide RequestListener, Entry, ReadyFor;
    EntryAt(r, sh, l, lfds, reqs, j, j);
  }

  /**
   poll refines a direct readiness test. On at most 20 distinct sockets with non-negative masks it
   either still waits or returns with each `revents[i]` equal to the readiness of descriptor i in the
   memory of the final scan, the result counting the non-zero entries, and the internal table empty.
   */
  lemma PollIsReadiness(r: Role, sh: Shared, l: Local, k: nat, epfd: int, reqs: seq<PollReq>, timeout: int,
                        schedule: seq<Shared>)
    requires FindPollfd(l, epfd) == Some(k) && EmptyTable(l.pollfds[k].lfds)
    requires RequestsOk(l, reqs) && NumbersOk(l) && AlwaysReachable(sh, schedule, l, reqs)
    ensures var res := PollOn(r, sh, l, epfd, reqs, timeout, schedule);
            res.effect.out == Blocked ||
            (&& |res.revents| == |reqs|
             && (forall i | 0 <= i < |reqs| :: res.revents[i] == ReadyFor(r, res.last, l, reqs[i]))
             && res.effect.out == Ret(NonZero(res.revents))
             && FindPollfd(res.effect.local, epfd) == Some(k) && EmptyTable(res.effect.local.pollfds[k].lfds)
             && res.effect.local.pollEpfd == l.pollEpfd
             && (res.last == sh || res.last in schedule))
  {
    hide WaitLoop, AddAll, DeleteAll, Assign, Entries, ReadyFor, EmptyTable, NumbersOk, NonZero, RequestListener;
    assert Registrable(l, reqs);
    hide Holds, RequestsOk, Reachable, Registrable;
    var n, table := RegistersExactly(l, k, epfd, reqs);
    var l1 := WithTable(l, k, table);
    SamePollfd(l, k, epfd, table);
    HoldsLocally(l, l1, table, reqs, 0, |reqs|);
    RequestsLocally(l, l1, reqs);
    LocallyReachable(sh, schedule, l, l1, reqs);
    NumbersLocal(l, l1);
    PollWaits(r, sh, l1, k, epfd, reqs, timeout, schedule, 0);
    var w := EpollPwait(r, sh, l1, epfd, |reqs|, timeout, schedule);
    if w.effect.out != Blocked {
      assert Reachable(w.last, l1, reqs);
      var revents := AssignEntries(r, w.last, l1, table, reqs, 0, Zeros(|reqs|));
      assert revents[0..] == revents;
      ReadyForLocal(r, w.last, l, l1, reqs);
      OpenedOnlyStates(w.last, l1, w.effect.local);
      StatesKeepRequests(l1, w.effect.local, table, reqs);
      assert FindPollfd(w.effect.local, epfd) == Some(k);
      DeleteAllEmpties(w.effect.local, k, epfd, table, reqs, 0);
      var log := Entries(r, PassStart(w.last, l1, table), l1.interfaces, 0);
      assert log == if w.effect.out.Events? then w.effect.out.log else [];
    }
  }

  lemma RequestsLocally(l: Local, l': Local, reqs: seq<PollReq>)
    requires l'.fds == l.fds && RequestsOk(l, reqs)
    ensures RequestsOk(l', reqs)
  {
  }

  lemma EmptyHolds(l: Local, lfds: seq<Listener>, reqs: seq<PollReq>)
    requires EmptyTable(lfds)
    ensures Holds(l, lfds, reqs, 0, 0)
  {
  }

  lemma NumbersLocal(l: Local, l': Local)
    requires NumbersOk(l) && l'.fds == l.fds && l'.currentMaxFd == l.currentMaxFd
    ensures NumbersOk(l')
  {
  }

  lemma LocallyReachable(sh: Shared, schedule: seq<Shared>, l: Local, l': Local, reqs: seq<PollReq>)
    requires AlwaysReachable(sh, schedule, l, reqs) && l'.fds == l.fds
    ensures AlwaysReachable(sh, schedule, l', reqs)
  {
    hide FdOk;
    forall x | x == sh || x in schedule ensures Reachable(x, l', reqs) {
      assert Reachable(x, l, reqs);
    }
  }

  lemma ReadyForLocal(r: Role, sh: Shared, l: Local, l': Local, reqs: seq<PollReq>)
    requires l'.fds == l.fds && l'.interfaces == l.interfaces && RequestsOk(l, reqs) && RequestsOk(l', reqs)
    ensures forall i | 0 <= i < |reqs| :: ReadyFor(r, sh, l', reqs[i]) == ReadyFor(r, sh, l, reqs[i])
  {
    hide Ready, Truncate, SignExtend;
  }

  // ---------- when registration fails ----------

  /** Whatever the masks and the memory, a pass keeps the registrations: all their descriptors are open. */
  lemma PassKeepsTable(r: Role, sh: Shared, l: Local, k: nat, epfd: int, maxevents: int, reqs: seq<PollReq>)
    requires FindPollfd(l, epfd) == Some(k) && Holds(l, l.pollfds[k].lfds, reqs, 0, |reqs|)
    ensures OnlyStates(l, DoScan(r, sh, l, epfd, maxevents).local)
  {
    hide ScanFrom, SignExtend, IsEventSet, ConnsFrame;
    var s := StartScan(sh, l, k);
    var t := ScanFrom(s, r, l.interfaces, 0, maxevents);
    ScanFromFrame(s, r, l.interfaces, 0, maxevents);
    forall j | 0 <= j < |s.lfds| ensures t.lfds[j] == s.lfds[j] {
      if s.lfds[j].active { assert s.lfds[j] == RequestListener(l, reqs, j); }
    }
    assert t.lfds == l.pollfds[k].lfds;
    SameTable(l, k);
    forall i | 0 <= i < |l.fds| ensures t.fds[i].active == l.fds[i].active && t.fds[i].num == l.fds[i].num {
      assert t.fds[i] == l.fds[i] || Opened(sh, l.fds[i], t.fds[i]);
    }
  }

  lemma {:induction false} WaitKeepsTable(r: Role, sh: Shared, l: Local, k: nat, epfd: int, reqs: seq<PollReq>,
                                          timeout: int, schedule: seq<Shared>, n: nat)
    requires NumbersOk(l) && FindPollfd(l, epfd) == Some(k) && Holds(l, l.pollfds[k].lfds, reqs, 0, |reqs|)
    ensures OnlyStates(l, WaitLoop(r, sh, l, epfd, |reqs|, timeout, schedule, n).effect.local)
    decreases |schedule|
  {
    hide DoScan, Holds, NumbersOk;
    PassKeepsTable(r, sh, l, k, epfd, |reqs|, reqs);
    var e := DoScan(r, sh, l, epfd, |reqs|);
    if schedule != [] {
      StatesKeepRequests(l, e.local, l.pollfds[k].lfds, reqs);
      SamePollfds(l, e.local, epfd);
      WaitKeepsTable(r, schedule[0], e.local, k, epfd, reqs, timeout, schedule[1..], n + 1);
    }
  }

  /**
   From an empty table, whatever the requests ask for: a poll that returns leaves the table empty if and
   only if the requests name at most 20 distinct open sockets, or the first one is not open. In all other
   cases registrations stay behind, in the table that all later polls share.
   */
  lemma PollLeavesEmptyExactly(r: Role, sh: Shared, l: Local, k: nat, epfd: int, reqs: seq<PollReq>, timeout: int,
                               schedule: seq<Shared>)
    requires NumbersOk(l) && FindPollfd(l, epfd) == Some(k) && EmptyTable(l.pollfds[k].lfds)
    ensures var res := PollOn(r, sh, l, epfd, reqs, timeout, schedule);
            res.effect.out.Ret? || res.effect.out.Fail? ==>
              && FindPollfd(res.effect.local, epfd) == Some(k) && res.effect.local.pollEpfd == l.pollEpfd
              && (EmptyTable(res.effect.local.pollfds[k].lfds) <==>
                  Registrable(l, reqs) || FindFd(l.fds, reqs[0].fd).None?)
  {
    hide NumbersOk, Holds, EmptyTable, AddAll, DeleteAll, WaitLoop, Assign, Registrable, RegistrableTo;
    var n, table := RegistersExactly(l, k, epfd, reqs);
    var l1 := WithTable(l, k, table);
    SamePollfd(l, k, epfd, table);
    var res := PollOn(r, sh, l, epfd, reqs, timeout, schedule);
    if n < |reqs| {
      RefusalFails(l, reqs, n);
      FirstHeld(l, table, reqs, n);
    } else {
      HoldsLocally(l, l1, table, reqs, 0, |reqs|);
      NumbersLocal(l, l1);
      WaitKeepsTable(r, sh, l1, k, epfd, reqs, timeout, schedule, 0);
      var w := EpollPwait(r, sh, l1, epfd, |reqs|, timeout, schedule);
      StatesKeepRequests(l1, w.effect.local, table, reqs);
      SamePollfds(l1, w.effect.local, epfd);
      DeleteAllEmpties(w.effect.local, k, epfd, table, reqs, 0);
    }
  }

  lemma RefusalFails(l: Local, reqs: seq<PollReq>, n: nat)
    requires n < |reqs|
    ensures Refusal(l, reqs, n) == Foreign || (Refusal(l, reqs, n).Fail? && Refusal(l, reqs, n).ret == -1)
  {
  }

  /** A table that holds the requests before the first refused one is empty exactly when that is the first of all. */
  lemma FirstHeld(l: Local, table: seq<Listener>, reqs: seq<PollReq>, n: nat)
    requires n < |reqs| && Holds(l, table, reqs, 0, n) && !RegistrableTo(l, reqs, n + 1)
    ensures EmptyTable(table) <==> n == 0
    ensures n == 0 <==> FindFd(l.fds, reqs[0].fd).None?
  {
    hide SignExtend, IsEventSet;
    if n > 0 {
      assert table[0] == RequestListener(l, reqs, 0);
    }
  }

  /**
   When a registration fails, poll returns at once with the reason, and the table holds exactly the
   requests before the refused one.
   */
  lemma FailedPollLeaksExactly(r: Role, sh: Shared, l: Local, k: nat, epfd: int, reqs: seq<PollReq>, timeout: int,
                               schedule: seq<Shared>)
    returns (n: nat)
    requires NumbersOk(l) && FindPollfd(l, epfd) == Some(k) && EmptyTable(l.pollfds[k].lfds) && !Registrable(l, reqs)
    ensures n < |reqs| && RegistrableTo(l, reqs, n) && !RegistrableTo(l, reqs, n + 1)
    ensures var res := PollOn(r, sh, l, epfd, reqs, timeout, schedule);
            && res.effect.shared == sh && res.effect.out == Refusal(l, reqs, n)
            && FindPollfd(res.effect.local, epfd) == Some(k)
            && res.effect.local == WithTable(l, k, res.effect.local.pollfds[k].lfds)
            && Holds(l, res.effect.local.pollfds[k].lfds, reqs, 0, n)
  {
    hide NumbersOk, Holds, EmptyTable, AddAll, DeleteAll, WaitLoop, Assign, Registrable, RegistrableTo;
    var table;
    n, table := RegistersExactly(l, k, epfd, reqs);
    SamePollfd(l, k, epfd, table);
    RefusalFails(l, reqs, n);
    HeldAreRegistrable(l, table, reqs, n);
  }
}
