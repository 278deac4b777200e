/**
 poll on a table that is not empty, as a failed poll leaves it: exactly when the leftovers are not heard,
 and that poll is then still the readiness test of its own requests.
 */
module Leftovers {
  import opened Basics
  import opened Connections
  import opened Descriptors
  import opened Readiness
  import opened Duplex
  import opened Scanning
  import opened Reachability
  import opened LevelTriggered
  import opened Registry
  import opened Waiting
  import opened Polling
  import opened PollRuns
  import opened PollSafety

  // ---------- registering into a table with leftovers ----------

  /** `table` is `left` with request `i` in entry `at[i]`, which was free, for the first `|at|` requests. */
  ghost predicate Placed(l: Local, left: seq<Listener>, table: seq<Listener>, reqs: seq<PollReq>, at: seq<nat>) {
    && |at| <= |reqs| && |table| == |left|
    && (forall i | 0 <= i < |at| ::
          FindFd(l.fds, reqs[i].fd).Some? && at[i] < |left| && !left[at[i]].active &&
            table[at[i]] == RequestListener(l, reqs, i))
    && (forall j | 0 <= j < |left| && j !in at :: table[j] == left[j])
  }

  lemma PlaceNext(l: Local, left: seq<Listener>, lfds: seq<Listener>, reqs: seq<PollReq>, at: seq<nat>)
    requires NumbersOk(l) && TableOk(lfds) && Placed(l, left, lfds, reqs, at) && |at| < |reqs| &&
             FindFd(l.fds, reqs[|at|].fd).Some?
    requires CtlTable(l.fds, lfds, CtlAdd, reqs[|at|].fd, FindFd(l.fds, reqs[|at|].fd).value,
                      SignExtend(reqs[|at|].events), |at|).1 == Ret(0)
    ensures var i := |at|;
            var table := CtlTable(l.fds, lfds, CtlAdd, reqs[i].fd, FindFd(l.fds, reqs[i].fd).value,
                                  SignExtend(reqs[i].events), i).0;
            EmptyListener(lfds).Some? && TableOk(table) &&
              Placed(l, left, table, reqs, at + [EmptyListener(lfds).value])
  {
    hide SignExtend, IsEventSet, TableOk, NumbersOk;
    var i := |at|;
    LookupExactly(l, lfds, reqs[i].fd);
    CtlKeepsTable(l, lfds, CtlAdd, reqs[i].fd, SignExtend(reqs[i].events), i);
    var n := EmptyListener(lfds).value;
    assert n !in at by {
      assert forall m | 0 <= m < |at| :: lfds[at[m]].active;
    }
    var next := at + [n];
    assert forall j | 0 <= j < |left| && j !in next :: j !in at && j != n;
  }

  /** Registering all remaining requests, when it succeeds, puts each into a free entry of its own. */
  lemma {:induction false} AddAllPlaces(l: Local, k: nat, epfd: int, left: seq<Listener>, reqs: seq<PollReq>,
                                        at: seq<nat>)
    returns (full: seq<nat>, table: seq<Listener>)
    requires NumbersOk(l) && FindPollfd(l, epfd) == Some(k) && TableOk(l.pollfds[k].lfds)
    requires Placed(l, left, l.pollfds[k].lfds, reqs, at) && AddAll(l, epfd, reqs, |at|).1 == Ret(0)
    ensures |full| == |reqs| && Placed(l, left, table, reqs, full) && TableOk(table)
    ensures AddAll(l, epfd, reqs, |at|).0 == WithTable(l, k, table)
    decreases |reqs| - |at|
  {
    hide CtlTable, SignExtend, NumbersOk, TableOk, EmptyListener, Placed;
    var i := |at|;
    assert i <= |reqs| by { PlacedLength(l, left, l.pollfds[k].lfds, reqs, at); }
    if i == |reqs| {
      SameTable(l, k);
      full, table := at, l.pollfds[k].lfds;
    } else {
      var lfds := l.pollfds[k].lfds;
      PlaceNext(l, left, lfds, reqs, at);
      var t := CtlTable(l.fds, lfds, CtlAdd, reqs[i].fd, FindFd(l.fds, reqs[i].fd).value, SignExtend(reqs[i].events),
                        i).0;
      var l' := WithTable(l, k, t);
      SamePollfd(l, k, epfd, t);
      NumbersLocal(l, l');
      PlacedLocally(l, l', left, t, reqs, at + [EmptyListener(lfds).value]);
      full, table := AddAllPlaces(l', k, epfd, left, reqs, at + [EmptyListener(lfds).value]);
      PlacedLocally(l', l, left, table, reqs, full);
      TableTwice(l, k, t, table);
    }
  }

  lemma PlacedLength(l: Local, left: seq<Listener>, table: seq<Listener>, reqs: seq<PollReq>, at: seq<nat>)
    requires Placed(l, left, table, reqs, at)
    ensures |at| <= |reqs|
  {
  }

  lemma PlacedLocally(l: Local, l': Local, left: seq<Listener>, table: seq<Listener>, reqs: seq<PollReq>, at: seq<nat>)
    requires Placed(l, left, table, reqs, at) && l'.fds == l.fds
    ensures Placed(l', left, table, reqs, at)
  {
    hide SignExtend, IsEventSet;
  }

  // ---------- where entries come from ----------

  /** The entries of `log` are in the order of their registrations, from `j` on, and each is that of its own. */
  ghost predicate InOrder(r: Role, s: Scan, interfaces: seq<Option<nat>>, j: nat, log: seq<Report>) {
    && (forall a | 0 <= a < |log| ::
        j <= log[a].listener < |s.lfds| && Entry(r, s, interfaces, log[a].listener) == [log[a]])
    && (forall a, b | 0 <= a < b < |log| :: log[a].listener < log[b].listener)
  }

  lemma OneMoreInOrder(r: Role, s: Scan, interfaces: seq<Option<nat>>, j: nat, rest: seq<Report>)
    requires j < |s.lfds| && InOrder(r, s, interfaces, j + 1, rest)
    ensures InOrder(r, s, interfaces, j, Entry(r, s, interfaces, j) + rest)
  {
    hide Entry;
    EntryNamesItself(r, s, interfaces, j);
    var e := Entry(r, s, interfaces, j);
    if e != [] { assert e == [e[0]]; }
  }

  lemma {:induction false} EntriesOrdered(r: Role, s: Scan, interfaces: seq<Option<nat>>, j: nat)
    ensures InOrder(r, s, interfaces, j, Entries(r, s, interfaces, j))
    decreases |s.lfds| - j
  {
    hide Entry, InOrder;
    if j < |s.lfds| {
      EntriesOrdered(r, s, interfaces, j + 1);
      OneMoreInOrder(r, s, interfaces, j, Entries(r, s, interfaces, j + 1));
    } else {
      NothingInOrder(r, s, interfaces, j);
    }
  }

  lemma NothingInOrder(r: Role, s: Scan, interfaces: seq<Option<nat>>, j: nat)
    ensures InOrder(r, s, interfaces, j, [])
  {
  }

  lemma EntryNamesItself(r: Role, s: Scan, interfaces: seq<Option<nat>>, j: nat)
    requires j < |s.lfds|
    ensures var e := Entry(r, s, interfaces, j); |e| <= 1 && (e != [] ==> e[0].listener == j)
  {
    hide Ready;
  }

  /** The entry of registration `n`, if it is ready, comes after those of the registrations before it. */
  lemma {:induction false} EntryIndex(r: Role, s: Scan, interfaces: seq<Option<nat>>, j: nat, n: nat)
    requires j <= n < |s.lfds|
    ensures var log := Entries(r, s, interfaces, j); var rest := Entries(r, s, interfaces, n);
            |rest| <= |log| && log[|log| - |rest|..] == rest
    decreases n - j
  {
    hide Entry;
    if j < n {
      EntryIndex(r, s, interfaces, j + 1, n);
      var log := Entries(r, s, interfaces, j + 1);
      var rest := Entries(r, s, interfaces, n);
      var e := Entry(r, s, interfaces, j);
      assert (e + log)[|e| + |log| - |rest|..] == log[|log| - |rest|..];
    }
  }

  /** How many ready registrations come before registration `n`. */
  function ReadyBefore(r: Role, s: Scan, interfaces: seq<Option<nat>>, n: nat): int {
    |Entries(r, s, interfaces, 0)| - |Entries(r, s, interfaces, n)|
  }

  lemma EntryFound(r: Role, s: Scan, interfaces: seq<Option<nat>>, n: nat)
    requires n < |s.lfds| && Entry(r, s, interfaces, n) != []
    ensures var log := Entries(r, s, interfaces, 0); var x := ReadyBefore(r, s, interfaces, n);
            0 <= x < |log| && [log[x]] == Entry(r, s, interfaces, n) && log[x].listener == n
  {
    hide Entry;
    EntryIndex(r, s, interfaces, 0, n);
    EntryNamesItself(r, s, interfaces, n);
    EntriesSplit(r, s, interfaces, n);
    var log := Entries(r, s, interfaces, 0);
    assert log[ReadyBefore(r, s, interfaces, n)..][0] == Entries(r, s, interfaces, n)[0];
  }

  /** A pass over a mixed table reports a registration exactly if it is ready with room left for it. */
  lemma ReportedExactly(r: Role, s: Scan, interfaces: seq<Option<nat>>, maxevents: nat, e: Report)
    ensures e in Take(Entries(r, s, interfaces, 0), maxevents) <==>
            e.listener < |s.lfds| && Entry(r, s, interfaces, e.listener) == [e] &&
              ReadyBefore(r, s, interfaces, e.listener) < maxevents
  {
    hide Entry, Entries;
    var log := Entries(r, s, interfaces, 0);
    var head := Take(log, maxevents);
    EntriesOrdered(r, s, interfaces, 0);
    if e in head {
      var a :| 0 <= a < |head| && head[a] == e;
      assert log[a] == e;
      EntryFound(r, s, interfaces, e.listener);
      assert ReadyBefore(r, s, interfaces, e.listener) == a;
    }
    if e.listener < |s.lfds| && Entry(r, s, interfaces, e.listener) == [e] &&
       ReadyBefore(r, s, interfaces, e.listener) < maxevents
    {
      EntryFound(r, s, interfaces, e.listener);
      assert [e][0] == e;
      assert head[ReadyBefore(r, s, interfaces, e.listener)] == e;
    }
  }

  /** No registration outside `at` that is ready has fewer than `maxevents` ready ones before it. */
  ghost predicate Unheard(r: Role, s: Scan, interfaces: seq<Option<nat>>, at: seq<nat>, maxevents: nat) {
    forall j | 0 <= j < |s.lfds| && j !in at && Entry(r, s, interfaces, j) != [] ::
      ReadyBefore(r, s, interfaces, j) >= maxevents
  }

  /** The first `maxevents` entries all belong to `at` exactly when the others are not heard. */
  lemma UnheardExactly(r: Role, s: Scan, interfaces: seq<Option<nat>>, at: seq<nat>, maxevents: nat)
    ensures Unheard(r, s, interfaces, at, maxevents) <==>
            forall e | e in Take(Entries(r, s, interfaces, 0), maxevents) :: e.listener in at
  {
    hide Entry, Entries;
    var head := Take(Entries(r, s, interfaces, 0), maxevents);
    forall e ensures e in head <==> e.listener < |s.lfds| && Entry(r, s, interfaces, e.listener) == [e] &&
                                    ReadyBefore(r, s, interfaces, e.listener) < maxevents {
      ReportedExactly(r, s, interfaces, maxevents, e);
    }
    forall n | 0 <= n < |s.lfds| && Entry(r, s, interfaces, n) != []
      ensures exists e: Report :: Entry(r, s, interfaces, n) == [e] && e.listener == n
    {
      EntryNamesItself(r, s, interfaces, n);
      assert Entry(r, s, interfaces, n) == [Entry(r, s, interfaces, n)[0]];
    }
  }

  // ---------- what the entries of the requests write ----------

  lemma {:induction false} NonZeroBound(revents: seq<bv16>)
    ensures NonZero(revents) <= |revents|
    ensures NonZero(revents) == |revents| ==> forall d | 0 <= d < |revents| :: revents[d] != 0
  {
    if revents != [] {
      NonZeroBound(revents[1..]);
      assert forall d | 1 <= d < |revents| :: revents[d] == revents[1..][d - 1];
    }
  }

  lemma {:induction false} NonZeroUpdate(revents: seq<bv16>, d: nat, value: bv16)
    requires d < |revents| && revents[d] == 0 && value != 0
    ensures NonZero(revents[d := value]) == NonZero(revents) + 1
  {
    if d > 0 {
      NonZeroUpdate(revents[1..], d - 1, value);
      assert revents[d := value][1..] == revents[1..][d - 1 := value];
    } else {
      assert revents[d := value][1..] == revents[1..];
    }
  }

  lemma {:induction false} NoneNonZero(n: nat)
    ensures NonZero(Zeros(n)) == 0
  {
    if n > 0 {
      NoneNonZero(n - 1);
      assert Zeros(n)[1..] == Zeros(n - 1);
    }
  }

  /** Entries with different data write to different places, where nothing was written before. */
  ghost predicate Separate(base: seq<bv16>, log: seq<Report>) {
    && (forall a | 0 <= a < |log| ::
        0 <= log[a].data < |base| && base[log[a].data] == 0 && Truncate(log[a].events) != 0)
    && (forall a, b | 0 <= a < b < |log| :: log[a].data != log[b].data)
  }

  /** Each entry is written where its data says, and nothing else. */
  ghost predicate Writes(base: seq<bv16>, log: seq<Report>, revents: seq<bv16>) {
    && |revents| == |base|
    && (forall a | 0 <= a < |log| ::
        0 <= log[a].data < |revents| && revents[log[a].data] == Truncate(log[a].events))
    && (forall d | 0 <= d < |base| && (forall a | 0 <= a < |log| :: log[a].data != d) :: revents[d] == base[d])
  }

  lemma {:induction false} AssignSeparate(base: seq<bv16>, log: seq<Report>) returns (revents: seq<bv16>)
    requires Separate(base, log)
    ensures Assign(base, log) == Some(revents) && Writes(base, log, revents)
    ensures NonZero(revents) == NonZero(base) + |log|
    decreases |log|
  {
    hide Truncate, NonZero;
    if log == [] {
      revents := base;
    } else {
      var d, value := log[0].data, Truncate(log[0].events);
      var rest := log[1..];
      assert forall a | 0 <= a < |rest| :: rest[a] == log[a + 1];
      revents := AssignSeparate(base[d := value], rest);
      NonZeroUpdate(base, d, value);
      forall a | 0 <= a < |log| ensures revents[log[a].data] == Truncate(log[a].events) {
        if a > 0 { assert log[a] == rest[a - 1]; }
      }
      forall x | 0 <= x < |base| && (forall a | 0 <= a < |log| :: log[a].data != x) ensures revents[x] == base[x] {
        assert log[0].data != x;
        assert forall a | 0 <= a < |rest| :: rest[a].data != x;
      }
    }
  }

  lemma WrittenIsNamed(base: seq<bv16>, log: seq<Report>, revents: seq<bv16>, i: nat)
    requires Writes(base, log, revents) && i < |base| && revents[i] != base[i]
    ensures exists a | 0 <= a < |log| :: log[a].data == i
  {
    hide Truncate;
  }

  /** Request `i` is registered in entry `at[i]`, level-triggered and on a socket in use. */
  ghost predicate Asked(sh: Shared, l: Local, lfds: seq<Listener>, reqs: seq<PollReq>, at: seq<nat>) {
    && |at| == |reqs| && FdsOk(sh, l)
    && (forall i | 0 <= i < |reqs| ::
          && FindFd(l.fds, reqs[i].fd).Some? && l.fds[FindFd(l.fds, reqs[i].fd).value].pConn.Some?
          && reqs[i].events & 0x8000 == 0
          && at[i] < |lfds| && lfds[at[i]] == RequestListener(l, reqs, i))
  }

  /** The direct readiness test of all requests. */
  function Wanted(r: Role, sh: Shared, l: Local, reqs: seq<PollReq>): seq<bv16>
    requires forall i | 0 <= i < |reqs| :: FindFd(l.fds, reqs[i].fd).Some?
  {
    seq(|reqs|, i requires 0 <= i < |reqs| => ReadyFor(r, sh, l, reqs[i]))
  }

  /** An entry of one of the requests names that request and carries its readiness. */
  lemma OwnEntry(r: Role, sh: Shared, l: Local, lfds: seq<Listener>, reqs: seq<PollReq>, at: seq<nat>, e: Report)
    requires Asked(sh, l, lfds, reqs, at) && e.listener in at && e.listener < |lfds|
    requires Entry(r, PassStart(sh, l, lfds), l.interfaces, e.listener) == [e]
    ensures 0 <= e.data < |reqs| && at[e.data] == e.listener
    ensures Truncate(e.events) == ReadyFor(r, sh, l, reqs[e.data]) != 0
  {
    hide Entry, ReadyFor, Truncate, FdsOk;
    var i :| 0 <= i < |at| && at[i] == e.listener;
    EntryAt(r, sh, l, lfds, reqs, i, at[i]);
    assert [e][0] == e;
  }

  /** A log of such entries only, each of another request. */
  ghost predicate OwnLog(r: Role, s: Scan, interfaces: seq<Option<nat>>, at: seq<nat>, log: seq<Report>) {
    InOrder(r, s, interfaces, 0, log) && forall a | 0 <= a < |log| :: log[a].listener in at
  }

  lemma OwnLogSeparate(r: Role, sh: Shared, l: Local, lfds: seq<Listener>, reqs: seq<PollReq>, at: seq<nat>,
                       log: seq<Report>)
    requires Asked(sh, l, lfds, reqs, at) && OwnLog(r, PassStart(sh, l, lfds), l.interfaces, at, log)
    ensures Separate(Zeros(|reqs|), log)
    ensures forall a | 0 <= a < |log| ::
              0 <= log[a].data < |reqs| && at[log[a].data] == log[a].listener &&
                Truncate(log[a].events) == ReadyFor(r, sh, l, reqs[log[a].data])
  {
    hide Entry, ReadyFor, Truncate, FdsOk, RequestListener;
    forall a | 0 <= a < |log|
      ensures 0 <= log[a].data < |reqs| && at[log[a].data] == log[a].listener
      ensures Truncate(log[a].events) == ReadyFor(r, sh, l, reqs[log[a].data]) != 0
    {
      OwnEntry(r, sh, l, lfds, reqs, at, log[a]);
    }
  }

  /** The log misses a request that is ready. */
  ghost predicate Misses(r: Role, s: Scan, interfaces: seq<Option<nat>>, at: seq<nat>, log: seq<Report>)
    requires forall i | 0 <= i < |at| :: at[i] < |s.lfds|
  {
    exists i, e | 0 <= i < |at| && Entry(r, s, interfaces, at[i]) == [e] :: e !in log
  }

  lemma OneAnswer(r: Role, sh: Shared, l: Local, lfds: seq<Listener>, reqs: seq<PollReq>, at: seq<nat>,
                  log: seq<Report>, revents: seq<bv16>, i: nat)
    requires Asked(sh, l, lfds, reqs, at) && OwnLog(r, PassStart(sh, l, lfds), l.interfaces, at, log) && i < |reqs|
    requires Writes(Zeros(|reqs|), log, revents)
    requires revents[i] != 0 || !Misses(r, PassStart(sh, l, lfds), l.interfaces, at, log)
    ensures revents[i] == ReadyFor(r, sh, l, reqs[i])
  {
    hide Entry, ReadyFor, Truncate, FdsOk, RequestListener, InOrder;
    OwnLogSeparate(r, sh, l, lfds, reqs, at, log);
    if revents[i] != 0 {
      WrittenIsNamed(Zeros(|reqs|), log, revents, i);
      var a :| 0 <= a < |log| && log[a].data == i;
      assert revents[log[a].data] == Truncate(log[a].events);
    } else {
      EntryAt(r, sh, l, lfds, reqs, i, at[i]);
      NotMissed(r, PassStart(sh, l, lfds), l.interfaces, at, log, i);
      forall a | 0 <= a < |log| ensures log[a].data != i {
        assert revents[log[a].data] == Truncate(log[a].events) != 0;
      }
    }
  }

  lemma NotMissed(r: Role, s: Scan, interfaces: seq<Option<nat>>, at: seq<nat>, log: seq<Report>, i: nat)
    requires (forall n | 0 <= n < |at| :: at[n] < |s.lfds|) && !Misses(r, s, interfaces, at, log) && i < |at|
    ensures var entry := Entry(r, s, interfaces, at[i]); |entry| == 1 ==> entry[0] in log
  {
    hide Entry;
    var entry := Entry(r, s, interfaces, at[i]);
    if |entry| == 1 { assert entry == [entry[0]]; }
  }

  /** Such a log gives the readiness of all requests if it misses none that is ready, or is as long as the array. */
  lemma OwnLogAnswers(r: Role, sh: Shared, l: Local, lfds: seq<Listener>, reqs: seq<PollReq>, at: seq<nat>,
                      log: seq<Report>)
    requires Asked(sh, l, lfds, reqs, at) && OwnLog(r, PassStart(sh, l, lfds), l.interfaces, at, log)
    requires |log| >= |reqs| || !Misses(r, PassStart(sh, l, lfds), l.interfaces, at, log)
    ensures Assign(Zeros(|reqs|), log) == Some(Wanted(r, sh, l, reqs)) && NonZero(Wanted(r, sh, l, reqs)) == |log|
  {
    hide ReadyFor, FdsOk, RequestListener, NonZero, Assign, OwnLog, Writes, Misses;
    OwnLogSeparate(r, sh, l, lfds, reqs, at, log);
    var revents := AssignSeparate(Zeros(|reqs|), log);
    assert |revents| == |reqs| by { WrittenLength(Zeros(|reqs|), log, revents); }
    NoneNonZero(|reqs|);
    NonZeroBound(revents);
    forall i | 0 <= i < |reqs| ensures revents[i] == ReadyFor(r, sh, l, reqs[i]) {
      OneAnswer(r, sh, l, lfds, reqs, at, log, revents, i);
    }
    assert revents == Wanted(r, sh, l, reqs);
  }

  lemma WrittenLength(base: seq<bv16>, log: seq<Report>, revents: seq<bv16>)
    requires Writes(base, log, revents)
    ensures |revents| == |base|
  {
  }

  // ---------- cleaning up between leftovers ----------

  /** Requests `from` on are registered, each in its own entry. */
  ghost predicate InPlace(l: Local, lfds: seq<Listener>, reqs: seq<PollReq>, at: seq<nat>, from: nat) {
    |at| == |reqs| && forall i | from <= i < |reqs| ::
      FindFd(l.fds, reqs[i].fd).Some? && at[i] < |lfds| && lfds[at[i]] == RequestListener(l, reqs, i)
  }

  lemma DeleteAt(l: Local, lfds: seq<Listener>, reqs: seq<PollReq>, at: seq<nat>, i: nat)
    requires NumbersOk(l) && TableOk(lfds) && InPlace(l, lfds, reqs, at, i) && i < |reqs|
    ensures CtlTable(l.fds, lfds, CtlDel, reqs[i].fd, FindFd(l.fds, reqs[i].fd).value, 0, 0) ==
            (lfds[at[i] := lfds[at[i]].(active := false)], Ret(0))
    ensures TableOk(lfds[at[i] := lfds[at[i]].(active := false)])
    ensures InPlace(l, lfds[at[i] := lfds[at[i]].(active := false)], reqs, at, i + 1)
  {
    hide SignExtend, IsEventSet, NumbersOk;
    var num := reqs[i].fd;
    LookupExactly(l, lfds, num);
    assert lfds[at[i]] == RequestListener(l, reqs, i);
    assert LiveFor(l, lfds[at[i]], num);
    assert ListenerForFd(l.fds, lfds, num).found == Some(at[i]);
    forall n | i < n < |reqs| ensures at[n] != at[i] {
      assert lfds[at[n]] == RequestListener(l, reqs, n);
    }
  }

  /** The clean-up succeeds and takes out exactly the requests. */
  lemma {:induction false} DeleteAllRemoves(l: Local, k: nat, epfd: int, reqs: seq<PollReq>, at: seq<nat>, i: nat)
    returns (after: seq<Listener>)
    requires NumbersOk(l) && FindPollfd(l, epfd) == Some(k) && TableOk(l.pollfds[k].lfds) && i <= |reqs|
    requires InPlace(l, l.pollfds[k].lfds, reqs, at, i)
    ensures DeleteAll(l, epfd, reqs, i) == (WithTable(l, k, after), Ret(0)) && |after| == |l.pollfds[k].lfds|
    ensures forall n | i <= n < |reqs| :: at[n] < |after| && !after[at[n]].active
    ensures forall j | 0 <= j < |after| && j !in at[i..] :: after[j] == l.pollfds[k].lfds[j]
    decreases |reqs| - i
  {
    hide CtlTable, NumbersOk, TableOk, InPlace;
    var lfds := l.pollfds[k].lfds;
    if i == |reqs| {
      SameTable(l, k);
      after := lfds;
    } else {
      DeleteAt(l, lfds, reqs, at, i);
      assert |at| == |reqs| && FindFd(l.fds, reqs[i].fd).Some? && at[i] < |lfds| by { PlaceOf(l, lfds, reqs, at, i); }
      assert reqs[i].fd >= FD_START by { NumberInRange(l, FindFd(l.fds, reqs[i].fd).value); }
      var t := lfds[at[i] := lfds[at[i]].(active := false)];
      var l' := WithTable(l, k, t);
      SamePollfd(l, k, epfd, t);
      NumbersLocal(l, l');
      InPlaceLocally(l, l', t, reqs, at, i + 1);
      after := DeleteAllRemoves(l', k, epfd, reqs, at, i + 1);
      TableTwice(l, k, t, after);
      assert at[i..] == [at[i]] + at[i + 1..];
      forall n | i <= n < |reqs| ensures at[n] < |after| && !after[at[n]].active {
        if n == i && at[i] in at[i + 1..] {
          var m :| i + 1 <= m < |at| && at[m] == at[i];
          assert !after[at[m]].active;
        }
      }
    }
  }

  lemma PlaceOf(l: Local, lfds: seq<Listener>, reqs: seq<PollReq>, at: seq<nat>, i: nat)
    requires InPlace(l, lfds, reqs, at, i) && i < |reqs|
    ensures |at| == |reqs| && FindFd(l.fds, reqs[i].fd).Some? && at[i] < |lfds|
  {
  }

  lemma InPlaceLocally(l: Local, l': Local, lfds: seq<Listener>, reqs: seq<PollReq>, at: seq<nat>, from: nat)
    requires InPlace(l, lfds, reqs, at, from) && l'.fds == l.fds
    ensures InPlace(l', lfds, reqs, at, from)
  {
    hide SignExtend, IsEventSet;
  }

  /** Passes keep the requests in place: their descriptors are open. */
  lemma StillInPlace(l: Local, table: seq<Listener>, l': Local, table': seq<Listener>, reqs: seq<PollReq>, at: seq<nat>)
    requires InPlace(l, table, reqs, at, 0) && Dropped(l.fds, table, table') && |l'.fds| == |l.fds|
    requires forall i | 0 <= i < |l.fds| :: l'.fds[i].active == l.fds[i].active && l'.fds[i].num == l.fds[i].num
    ensures InPlace(l', table', reqs, at, 0)
  {
    hide SignExtend, IsEventSet;
    forall i | 0 <= i < |reqs|
      ensures FindFd(l'.fds, reqs[i].fd).Some? && table'[at[i]] == RequestListener(l', reqs, i)
    {
      SameNumbersFound(l.fds, l'.fds, reqs[i].fd);
      assert Live(l.fds, table[at[i]]);
    }
  }

  /** `after` is `left`, except that registrations of closed descriptors may have been dropped. */
  predicate LeftAsTheyWere(fds: seq<Fd>, left: seq<Listener>, after: seq<Listener>) {
    |after| == |left| && forall j | 0 <= j < |left| ::
      (after[j].active ==> after[j] == left[j]) && (Live(fds, left[j]) ==> after[j] == left[j])
  }

  lemma CleanedUp(l: Local, left: seq<Listener>, table: seq<Listener>, reqs: seq<PollReq>, at: seq<nat>,
                  last: seq<Listener>, after: seq<Listener>)
    requires Placed(l, left, table, reqs, at) && |at| == |reqs| && Dropped(l.fds, table, last) && |after| == |last|
    requires forall n | 0 <= n < |reqs| :: at[n] < |after| && !after[at[n]].active
    requires forall j | 0 <= j < |after| && j !in at :: after[j] == last[j]
    ensures LeftAsTheyWere(l.fds, left, after)
  {
    hide SignExtend, IsEventSet;
    forall j | 0 <= j < |left|
      ensures (after[j].active ==> after[j] == left[j]) && (Live(l.fds, left[j]) ==> after[j] == left[j])
    {
      if j in at {
        var n :| 0 <= n < |at| && at[n] == j;
        assert !after[at[n]].active && !left[at[n]].active;
      }
    }
  }

  // ---------- poll between leftovers ----------

  /** All requests ask for level-triggered reports on sockets in use. */
  predicate Proper(l: Local, reqs: seq<PollReq>) {
    forall i | 0 <= i < |reqs| ::
      reqs[i].events & 0x8000 == 0 &&
        (FindFd(l.fds, reqs[i].fd).Some? ==> l.fds[FindFd(l.fds, reqs[i].fd).value].pConn.Some?)
  }

  /** The wait of a poll has ended with a pass that is defined, over a table whose registrations share no connection. */
  ghost predicate EndsMixed(w: WaitResult, k: nat) {
    w.effect.out != Blocked && w.effect.out != Undefined && k < |w.before.pollfds| &&
      MixedTable(StartScan(w.last, w.before, k))
  }

  /** The last pass reports the first |reqs| ready registrations, whoever made them. */
  lemma LastPassReports(r: Role, sh: Shared, l: Local, k: nat, epfd: int, maxevents: nat, timeout: int,
                        schedule: seq<Shared>)
    requires NumbersOk(l) && PollfdsOk(l) && FindPollfd(l, epfd) == Some(k) &&
             forall x | x in [sh] + schedule :: FdsOk(x, l)
    requires EndsMixed(EpollPwait(r, sh, l, epfd, maxevents, timeout, schedule), k)
    ensures var w := EpollPwait(r, sh, l, epfd, maxevents, timeout, schedule);
            && LogOf(w) == Take(Entries(r, StartScan(w.last, w.before, k), l.interfaces, 0), maxevents)
            && w.effect.out == (if LogOf(w) == [] then Ret(0) else Events(LogOf(w)))
            && w.effect.shared == DoScan(r, w.last, w.before, epfd, maxevents).shared
            && w.effect.local == DoScan(r, w.last, w.before, epfd, maxevents).local
  {
    hide ScanFrom, Entries, MixedTable, NumbersOk, PollfdsOk, FdsOk, FindPollfd, WaitLoop;
    var w := EpollPwait(r, sh, l, epfd, maxevents, timeout, schedule);
    WaitEnds(r, sh, l, k, epfd, maxevents, timeout, schedule, 0);
    MixedScan(StartScan(w.last, w.before, k), r, l.interfaces, 0, maxevents);
    FoundOrTimedOut(r, sh, l, epfd, maxevents, timeout, schedule, 0);
  }

  lemma {:induction false} FoundOrTimedOut(r: Role, sh: Shared, l: Local, epfd: int, maxevents: int, timeout: int,
                                           schedule: seq<Shared>, n: nat)
    ensures WaitLoop(r, sh, l, epfd, maxevents, timeout, schedule, n).effect.out != Events([])
    decreases |schedule|
  {
    hide DoScan;
    if schedule != [] {
      FoundOrTimedOut(r, schedule[0], DoScan(r, sh, l, epfd, maxevents).local, epfd, maxevents, timeout, schedule[1..],
                      n + 1);
    }
  }

  lemma TakeInOrder(r: Role, s: Scan, interfaces: seq<Option<nat>>, n: nat)
    ensures InOrder(r, s, interfaces, 0, Take(Entries(r, s, interfaces, 0), n))
  {
    hide Entry, Entries;
    EntriesOrdered(r, s, interfaces, 0);
  }

  lemma ReadyIsListed(r: Role, s: Scan, interfaces: seq<Option<nat>>, n: nat, e: Report)
    requires n < |s.lfds| && Entry(r, s, interfaces, n) == [e]
    ensures e in Entries(r, s, interfaces, 0)
  {
    hide Entry, Entries;
    EntryFound(r, s, interfaces, n);
    assert [e][0] == e;
  }

  lemma NothingPlaced(l: Local, left: seq<Listener>, reqs: seq<PollReq>)
    ensures Placed(l, left, left, reqs, [])
  {
  }

  lemma PlacedInPlace(l: Local, left: seq<Listener>, table: seq<Listener>, reqs: seq<PollReq>, at: seq<nat>)
    requires Placed(l, left, table, reqs, at) && |at| == |reqs|
    ensures InPlace(l, table, reqs, at, 0)
  {
    hide SignExtend, IsEventSet;
  }

  /** The requests as the last pass finds them. */
  lemma AskedAtTheEnd(sh: Shared, l: Local, left: seq<Listener>, table: seq<Listener>, last: seq<Listener>,
                      reqs: seq<PollReq>, at: seq<nat>)
    requires FdsOk(sh, l) && Placed(l, left, table, reqs, at) && |at| == |reqs| && Proper(l, reqs) &&
             Dropped(l.fds, table, last)
    ensures InPlace(l, table, reqs, at, 0) && Asked(sh, l, last, reqs, at)
  {
    hide SignExtend, IsEventSet, FdOk;
    StillInPlace(l, table, l, last, reqs, at);
  }

  /** If the leftovers are not heard, what the last pass writes is the readiness of the requests. */
  lemma UnheardAnswers(r: Role, sh: Shared, l: Local, last: seq<Listener>, reqs: seq<PollReq>, at: seq<nat>)
    requires Asked(sh, l, last, reqs, at) && Unheard(r, PassStart(sh, l, last), l.interfaces, at, |reqs|)
    ensures var log := Take(Entries(r, PassStart(sh, l, last), l.interfaces, 0), |reqs|);
            Assign(Zeros(|reqs|), log) == Some(Wanted(r, sh, l, reqs)) && NonZero(Wanted(r, sh, l, reqs)) == |log|
  {
    hide Entry, Entries, InOrder, Unheard, Assign, Wanted, RequestListener, FdsOk;
    var s := PassStart(sh, l, last);
    var log := Take(Entries(r, s, l.interfaces, 0), |reqs|);
    UnheardExactly(r, s, l.interfaces, at, |reqs|);
    TakeInOrder(r, s, l.interfaces, |reqs|);
    if |log| < |reqs| {
      forall i, e | 0 <= i < |at| && Entry(r, s, l.interfaces, at[i]) == [e] ensures e in log {
        ReadyIsListed(r, s, l.interfaces, at[i], e);
      }
    }
    OwnLogAnswers(r, sh, l, last, reqs, at, log);
  }

  /** The entries of a log that belong to `at`. */
  function OwnOf(log: seq<Report>, at: seq<nat>): seq<Report> {
    if log == [] then [] else (if log[0].listener in at then [log[0]] else []) + OwnOf(log[1..], at)
  }

  lemma {:induction false} OwnOfExactly(log: seq<Report>, at: seq<nat>)
    ensures forall e :: e in OwnOf(log, at) <==> e in log && e.listener in at
    ensures |OwnOf(log, at)| <= |log| && (|OwnOf(log, at)| == |log| ==> forall e | e in log :: e.listener in at)
    decreases |log|
  {
    if log != [] {
      assert log == [log[0]] + log[1..];
      OwnOfExactly(log[1..], at);
    }
  }

  lemma {:induction false} OwnOfInOrder(r: Role, s: Scan, interfaces: seq<Option<nat>>, j: nat, log: seq<Report>,
                                        at: seq<nat>)
    requires InOrder(r, s, interfaces, j, log)
    ensures InOrder(r, s, interfaces, j, OwnOf(log, at))
    decreases |log|
  {
    hide InOrder;
    if log != [] {
      RestInOrder(r, s, interfaces, j, log);
      OwnOfInOrder(r, s, interfaces, j, log[1..], at);
      if log[0].listener in at {
        OwnOfExactly(log[1..], at);
        OneBefore(r, s, interfaces, j, log, OwnOf(log[1..], at));
      } else {
        assert OwnOf(log, at) == OwnOf(log[1..], at);
      }
    }
  }

  lemma RestInOrder(r: Role, s: Scan, interfaces: seq<Option<nat>>, j: nat, log: seq<Report>)
    requires log != [] && InOrder(r, s, interfaces, j, log)
    ensures InOrder(r, s, interfaces, j, log[1..])
  {
    hide Entry;
  }

  lemma OneBefore(r: Role, s: Scan, interfaces: seq<Option<nat>>, j: nat, log: seq<Report>, own: seq<Report>)
    requires log != [] && InOrder(r, s, interfaces, j, log) && InOrder(r, s, interfaces, j, own)
    requires forall e | e in own :: e in log[1..]
    ensures InOrder(r, s, interfaces, j, [log[0]] + own)
  {
    hide Entry;
    forall b | 0 <= b < |own| ensures log[0].listener < own[b].listener {
      assert own[b] in log[1..];
    }
  }

  /** If a leftover is heard and nothing is cut off, the poll reports more than there are ready requests. */
  lemma HeardIsCounted(r: Role, sh: Shared, l: Local, last: seq<Listener>, reqs: seq<PollReq>, at: seq<nat>)
    requires Asked(sh, l, last, reqs, at) && !Unheard(r, PassStart(sh, l, last), l.interfaces, at, |reqs|)
    requires |Entries(r, PassStart(sh, l, last), l.interfaces, 0)| <= |reqs|
    ensures |Take(Entries(r, PassStart(sh, l, last), l.interfaces, 0), |reqs|)| > NonZero(Wanted(r, sh, l, reqs))
  {
    hide Entry, Entries, InOrder, Unheard, Assign, Wanted, RequestListener, FdsOk, NonZero;
    var s := PassStart(sh, l, last);
    var log := Take(Entries(r, s, l.interfaces, 0), |reqs|);
    UnheardExactly(r, s, l.interfaces, at, |reqs|);
    TakeInOrder(r, s, l.interfaces, |reqs|);
    OwnOfExactly(log, at);
    OwnOfInOrder(r, s, l.interfaces, 0, log, at);
    forall i, e | 0 <= i < |at| && Entry(r, s, l.interfaces, at[i]) == [e] ensures e in OwnOf(log, at) {
      ReadyIsListed(r, s, l.interfaces, at[i], e);
      EntryNamesItself(r, s, l.interfaces, at[i]);
      assert [e][0] == e;
    }
    OwnLogAnswers(r, sh, l, last, reqs, at, OwnOf(log, at));
  }

  /** The clean-up after the last pass. */
  lemma PollCleansUp(r: Role, sh: Shared, l: Local, k: nat, epfd: int, maxevents: int, left: seq<Listener>,
                     table: seq<Listener>,
                     reqs: seq<PollReq>, at: seq<nat>)
    requires TablesOk(sh, l) && FindPollfd(l, epfd) == Some(k)
    requires Placed(l, left, table, reqs, at) && InPlace(l, table, reqs, at, 0) &&
             Dropped(l.fds, table, l.pollfds[k].lfds)
    ensures var e := DeleteAll(DoScan(r, sh, l, epfd, maxevents).local, epfd, reqs, 0);
            e.1 == Ret(0) && FindPollfd(e.0, epfd) == Some(k) && LeftAsTheyWere(l.fds, left, e.0.pollfds[k].lfds)
  {
    hide DoScan, Placed, InPlace, NumbersOk, TableOk, NoneActive, FindPollfd, FdsOk;
    PassTouches(r, sh, l, k, epfd, maxevents);
    var l' := DoScan(r, sh, l, epfd, maxevents).local;
    var last := l'.pollfds[k].lfds;
    DroppedTwice(l.fds, table, l.pollfds[k].lfds, last);
    StillInPlace(l, table, l', last, reqs, at);
    assert TableOk(last);
    var after := DeleteAllRemoves(l', k, epfd, reqs, at, 0);
    SamePollfd(l', k, epfd, after);
    assert at[0..] == at;
    InPlaceLength(l, table, reqs, at);
    CleanedUp(l, left, table, reqs, at, last, after);
  }

  lemma InPlaceLength(l: Local, lfds: seq<Listener>, reqs: seq<PollReq>, at: seq<nat>)
    requires InPlace(l, lfds, reqs, at, 0)
    ensures |at| == |reqs|
  {
  }

  /**
   The poll is the readiness test of its requests in the memory of its last pass, and leaves the leftovers as
   they were.
   */
  ghost predicate IsReadiness(r: Role, l: Local, k: nat, epfd: int, reqs: seq<PollReq>, w: WaitResult, res: PollResult)
    requires k < |l.pollfds| && forall i | 0 <= i < |reqs| :: FindFd(l.fds, reqs[i].fd).Some?
  {
    && res.revents == Wanted(r, w.last, l, reqs) && res.effect.out == Ret(NonZero(res.revents))
    && FindPollfd(res.effect.local, epfd) == Some(k)
    && LeftAsTheyWere(l.fds, l.pollfds[k].lfds, res.effect.local.pollfds[k].lfds)
  }

  /**
   A poll that registers all its requests between leftovers, and whose last pass hears none of these, is
   still the readiness test: each `revents[i]` is the readiness of request i in the memory of that pass, the
   result counts the ready requests, and the leftovers stay as they were. Unless the array is too short for
   all that is ready, this is exactly when the count is right.
   */
  lemma PollOverLeftovers(r: Role, sh: Shared, l: Local, k: nat, epfd: int, reqs: seq<PollReq>, timeout: int,
                          schedule: seq<Shared>)
    returns (at: seq<nat>)
    requires NumbersOk(l) && PollfdsOk(l) && FindPollfd(l, epfd) == Some(k) &&
             forall x | x in [sh] + schedule :: FdsOk(x, l)
    requires AddAll(l, epfd, reqs, 0).1 == Ret(0) && Proper(l, reqs)
    requires EndsMixed(EpollPwait(r, sh, AddAll(l, epfd, reqs, 0).0, epfd, |reqs|, timeout, schedule), k)
    ensures k < |AddAll(l, epfd, reqs, 0).0.pollfds|
    ensures Placed(l, l.pollfds[k].lfds, AddAll(l, epfd, reqs, 0).0.pollfds[k].lfds, reqs, at) && |at| == |reqs|
    ensures var w := EpollPwait(r, sh, AddAll(l, epfd, reqs, 0).0, epfd, |reqs|, timeout, schedule);
            var res := PollOn(r, sh, l, epfd, reqs, timeout, schedule);
            && w.last in [sh] + schedule && res.last == w.last
            && (forall i | 0 <= i < |reqs| :: FindFd(l.fds, reqs[i].fd).Some?)
            && (Unheard(r, StartScan(w.last, w.before, k), l.interfaces, at, |reqs|) ==>
                IsReadiness(r, l, k, epfd, reqs, w, res))
            && (|Entries(r, StartScan(w.last, w.before, k), l.interfaces, 0)| <= |reqs| ==>
                  (res.effect.out == Ret(NonZero(Wanted(r, w.last, l, reqs))) <==>
                   Unheard(r, StartScan(w.last, w.before, k), l.interfaces, at, |reqs|)))
  {
    hide NumbersOk, TableOk, NoneActive, FindPollfd, FdsOk, AddAll, DeleteAll, WaitLoop, Assign, Unheard, MixedTable,
        Entries, Proper, DoScan;
    var left := l.pollfds[k].lfds;
    hide Placed;
    NothingPlaced(l, left, reqs);
    var table;
    at, table := AddAllPlaces(l, k, epfd, left, reqs, []);
    var l1 := WithTable(l, k, table);
    LoadedTableOk(l, k, epfd, table);
    forall x | x in [sh] + schedule ensures FdsOk(x, l1) { SameFdsOk(x, l, l1); }
    var w := EpollPwait(r, sh, l1, epfd, |reqs|, timeout, schedule);
    WaitEnds(r, sh, l1, k, epfd, |reqs|, timeout, schedule, 0);
    LastPassReports(r, sh, l1, k, epfd, |reqs|, timeout, schedule);
    var last := w.before.pollfds[k].lfds;
    AskedAtTheEnd(w.last, l, left, table, last, reqs, at);
    PlacedLocally(l, w.before, left, table, reqs, at);
    InPlaceLocally(l, w.before, table, reqs, at, 0);
    PollCleansUp(r, w.last, w.before, k, epfd, |reqs|, left, table, reqs, at);
    if Unheard(r, StartScan(w.last, w.before, k), l.interfaces, at, |reqs|) {
      UnheardAnswers(r, w.last, l, last, reqs, at);
    } else if |Entries(r, StartScan(w.last, w.before, k), l.interfaces, 0)| <= |reqs| {
      HeardIsCounted(r, w.last, l, last, reqs, at);
    }
  }

  lemma LoadedTableOk(l: Local, k: nat, epfd: int, table: seq<Listener>)
    requires NumbersOk(l) && PollfdsOk(l) && FindPollfd(l, epfd) == Some(k) && TableOk(table)
    ensures var l' := WithTable(l, k, table); NumbersOk(l') && PollfdsOk(l') && FindPollfd(l', epfd) == Some(k)
  {
    hide NumbersOk, PollfdsOk, TableOk, NoneActive;
    NumbersLocal(l, WithTable(l, k, table));
    SamePollfd(l, k, epfd, table);
    PollfdsUpdated(l, k, table);
  }

  // ---------- when poll is safe ----------

  /** What poll can make of a table without harm: its registrations are connected and name one of `n` requests. */
  ghost predicate SafeTable(fds: seq<Fd>, lfds: seq<Listener>, n: nat) {
    forall j | 0 <= j < |lfds| && Live(fds, lfds[j]) :: !Unconnected(fds, lfds[j]) && 0 <= lfds[j].data < n
  }

  ghost predicate AllNamed(log: seq<Report>, n: nat) {
    forall e | e in log :: 0 <= e.data < n
  }

  lemma EntryIsNamed(r: Role, s: Scan, interfaces: seq<Option<nat>>, j: nat, n: nat)
    requires SafeTable(s.fds, s.lfds, n) && j < |s.lfds|
    ensures AllNamed(Entry(r, s, interfaces, j), n)
  {
    hide Ready, EdgeReady;
  }

  lemma FrameKeepsSafe(r: Role, s: Scan, t: Scan, n: nat)
    requires SafeTable(s.fds, s.lfds, n) && ScanFrame(r, s, t)
    ensures SafeTable(t.fds, t.lfds, n)
  {
    hide ConnsFrame;
    forall j | 0 <= j < |t.lfds| && Live(t.fds, t.lfds[j])
      ensures !Unconnected(t.fds, t.lfds[j]) && 0 <= t.lfds[j].data < n
    {
      var i := t.lfds[j].slot;
      assert t.fds[i] == s.fds[i] || Opened(s.shared, s.fds[i], t.fds[i]);
      assert Live(s.fds, s.lfds[j]);
    }
  }

  lemma {:induction false} SafeScan(s: Scan, r: Role, interfaces: seq<Option<nat>>, j: nat, maxevents: int, n: nat)
    requires ScanReady(s) && SafeTable(s.fds, s.lfds, n) && AllNamed(s.log, n) && !s.undefined
    ensures var t := ScanFrom(s, r, interfaces, j, maxevents); !t.undefined && AllNamed(t.log, n)
    decreases |s.lfds| - j
  {
    hide Visit, Entry, SafeTable, ScanReady, ScanFrame;
    if j < |s.lfds| && |s.log| < maxevents {
      var t := Visit(s, r, interfaces, j);
      VisitFrame(s, r, interfaces, j);
      FramePreservesReady(r, s, t);
      FrameKeepsSafe(r, s, t, n);
      VisitUndefined(s, r, interfaces, j);
      assert !Unconnected(s.fds, s.lfds[j]) by { SafeIsConnected(s.fds, s.lfds, n, j); }
      VisitLog(s, r, interfaces, j);
      EntryIsNamed(r, s, interfaces, j, n);
      SafeScan(t, r, interfaces, j + 1, maxevents, n);
    }
  }

  lemma SafeIsConnected(fds: seq<Fd>, lfds: seq<Listener>, n: nat, j: nat)
    requires SafeTable(fds, lfds, n) && j < |lfds|
    ensures !Unconnected(fds, lfds[j])
  {
  }

  lemma DropKeepsSafe(fds: seq<Fd>, before: seq<Listener>, after: seq<Listener>, n: nat)
    requires SafeTable(fds, before, n) && Dropped(fds, before, after)
    ensures SafeTable(fds, after, n)
  {
    forall j | 0 <= j < |after| && Live(fds, after[j]) ensures !Unconnected(fds, after[j]) && 0 <= after[j].data < n {
      assert after[j] == before[j];
    }
  }

  /** All requests that name open sockets name sockets in use. */
  predicate InUse(l: Local, reqs: seq<PollReq>) {
    forall i | 0 <= i < |reqs| && FindFd(l.fds, reqs[i].fd).Some? :: l.fds[FindFd(l.fds, reqs[i].fd).value].pConn.Some?
  }

  lemma PlacedIsSafe(l: Local, left: seq<Listener>, table: seq<Listener>, reqs: seq<PollReq>, at: seq<nat>)
    requires Placed(l, left, table, reqs, at) && SafeTable(l.fds, left, |reqs|) && InUse(l, reqs)
    ensures SafeTable(l.fds, table, |reqs|)
  {
    hide SignExtend, IsEventSet;
    forall j | 0 <= j < |table| && Live(l.fds, table[j])
      ensures !Unconnected(l.fds, table[j]) && 0 <= table[j].data < |reqs|
    {
      if j in at {
        var i :| 0 <= i < |at| && at[i] == j;
        assert table[at[i]] == RequestListener(l, reqs, i);
      } else {
        assert table[j] == left[j];
      }
    }
  }

  /**
   What a caller can see to: poll is defined, whatever the peer does, if the requests are in use and every
   leftover of an open descriptor is connected and has as its data one of the indices of this poll.
   */
  lemma PollIsDefined(r: Role, sh: Shared, l: Local, k: nat, epfd: int, reqs: seq<PollReq>, timeout: int,
                      schedule: seq<Shared>)
    requires NumbersOk(l) && PollfdsOk(l) && FindPollfd(l, epfd) == Some(k)
    requires forall x | x in [sh] + schedule :: FdsOk(x, l)
    requires InUse(l, reqs) && SafeTable(l.fds, l.pollfds[k].lfds, |reqs|)
    ensures PollOn(r, sh, l, epfd, reqs, timeout, schedule).effect.out != Undefined
  {
    hide NumbersOk, TableOk, NoneActive, FindPollfd, FdsOk, AddAll, DeleteAll, WaitLoop, Assign, SafeTable, InUse,
        ScanFrom;
    var left := l.pollfds[k].lfds;
    if AddAll(l, epfd, reqs, 0).1 == Ret(0) {
      NothingPlaced(l, left, reqs);
      var at, table := AddAllPlaces(l, k, epfd, left, reqs, []);
      PlacedIsSafe(l, left, table, reqs, at);
      var l1 := WithTable(l, k, table);
      LoadedTableOk(l, k, epfd, table);
      forall x | x in [sh] + schedule ensures FdsOk(x, l1) { SameFdsOk(x, l, l1); }
      var w := EpollPwait(r, sh, l1, epfd, |reqs|, timeout, schedule);
      WaitEnds(r, sh, l1, k, epfd, |reqs|, timeout, schedule, 0);
      DropKeepsSafe(l.fds, table, w.before.pollfds[k].lfds, |reqs|);
      var s := StartScan(w.last, w.before, k);
      StartIsReady(w.last, w.before, k);
      SafeScan(s, r, l.interfaces, 0, |reqs|, |reqs|);
      AssignedExactly(Zeros(|reqs|), LogOf(w));
      DeleteAllDefined(w.effect.local, epfd, reqs, 0);
    } else {
      AddAllDefined(l, epfd, reqs, 0);
    }
  }

  lemma StartIsReady(sh: Shared, l: Local, k: nat)
    requires TablesOk(sh, l) && k < |l.pollfds|
    ensures ScanReady(StartScan(sh, l, k))
  {
    hide FdOk;
    assert TableOk(l.pollfds[k].lfds);
  }

  lemma {:induction false} AddAllDefined(l: Local, epfd: int, reqs: seq<PollReq>, i: nat)
    ensures AddAll(l, epfd, reqs, i).1 != Undefined
    decreases |reqs| - i
  {
    hide DoEpollCtl, SignExtend;
    if i < |reqs| {
      CtlDefined(l, epfd, CtlAdd, reqs[i].fd, SignExtend(reqs[i].events), i);
      AddAllDefined(DoEpollCtl(l, epfd, CtlAdd, reqs[i].fd, SignExtend(reqs[i].events), i).0, epfd, reqs, i + 1);
    }
  }
}
