/**
 The waiting loop of epoll_pwait: scan, and while nothing is found, sleep and scan again until the
 timeout has passed. What the other process does to shared memory during the k-th sleep is the k-th
 element of a schedule, so the results hold for every behaviour of the peer.
 */
module Waiting {
  import opened Connections
  import opened Descriptors
  import opened Readiness

  const SLEEP_DURATION := 100

  /** `effect` is that of the last pass; `last` and `before` are the memory and tables it started from. */
  datatype WaitResult = WaitResult(effect: Effect, scans: nat, sleeps: nat, last: Shared, before: Local)

  /** The loop after `k` sleeps. `Blocked` means that the schedule ends while the process sleeps. */
  function WaitLoop(r: Role, sh: Shared, l: Local, epfd: int, maxevents: int, timeout: int, schedule: seq<Shared>,
                    k: nat): WaitResult
    decreases |schedule|
  {
    var e := DoScan(r, sh, l, epfd, maxevents);
    if !e.out.Events? || e.out.log != [] then WaitResult(e, k + 1, k, sh, l)
    else if timeout != -1 && k * SLEEP_DURATION > timeout * 1000 then WaitResult(e.(out := Ret(0)), k + 1, k, sh, l)
    else if schedule == [] then WaitResult(e.(out := Blocked), k + 1, k + 1, sh, l)
    else WaitLoop(r, schedule[0], e.local, epfd, maxevents, timeout, schedule[1..], k + 1)
  }

  /** One turn of the loop, when the pass finds nothing and the process goes to sleep. */
  lemma LoopTurns(r: Role, sh: Shared, l: Local, epfd: int, maxevents: int, timeout: int, schedule: seq<Shared>, k: nat)
    requires DoScan(r, sh, l, epfd, maxevents).out == Events([])
    ensures var e := DoScan(r, sh, l, epfd, maxevents);
            var w := WaitLoop(r, sh, l, epfd, maxevents, timeout, schedule, k);
            if timeout != -1 && k * SLEEP_DURATION > timeout * 1000 then
              w == WaitResult(e.(out := Ret(0)), k + 1, k, sh, l)
            else if schedule == [] then w == WaitResult(e.(out := Blocked), k + 1, k + 1, sh, l)
            else w == WaitLoop(r, schedule[0], e.local, epfd, maxevents, timeout, schedule[1..], k + 1)
  {
    hide DoScan;
  }

  /** The loop ends with a pass that finds something or fails. */
  lemma LoopEnds(r: Role, sh: Shared, l: Local, epfd: int, maxevents: int, timeout: int, schedule: seq<Shared>, k: nat)
    requires DoScan(r, sh, l, epfd, maxevents).out != Events([])
    ensures WaitLoop(r, sh, l, epfd, maxevents, timeout, schedule, k) ==
            WaitResult(DoScan(r, sh, l, epfd, maxevents), k + 1, k, sh, l)
  {
    hide DoScan;
  }

  /** epoll_pwait on a table of sockets. */
  function EpollPwait(r: Role, sh: Shared, l: Local, epfd: int, maxevents: int, timeout: int,
                      schedule: seq<Shared>): WaitResult {
    WaitLoop(r, sh, l, epfd, maxevents, timeout, schedule, 0)
  }

  /** The number of sleeps that a timeout allows. */
  function SleepBudget(timeout: int): nat {
    if timeout < 0 then 0 else 10 * timeout + 1
  }

  /** The n-th pass of a process that never gives up. */
  function Pass(r: Role, sh: Shared, l: Local, epfd: int, maxevents: int, schedule: seq<Shared>, n: nat): Effect
    requires n <= |schedule|
    decreases n
  {
    if n == 0 then DoScan(r, sh, l, epfd, maxevents)
    else Pass(r, schedule[0], DoScan(r, sh, l, epfd, maxevents).local, epfd, maxevents, schedule[1..], n - 1)
  }

  ghost predicate FindNothing(r: Role, sh: Shared, l: Local, epfd: int, maxevents: int, schedule: seq<Shared>, n: nat)
    requires n <= |schedule|
  {
    forall i | 0 <= i <= n :: Pass(r, sh, l, epfd, maxevents, schedule, i).out == Events([])
  }

  lemma {:induction false} LoopTimesOut(r: Role, sh: Shared, l: Local, epfd: int, maxevents: int, timeout: int,
                                        schedule: seq<Shared>, k: nat)
    requires timeout != -1 && k <= SleepBudget(timeout)
    ensures var w := WaitLoop(r, sh, l, epfd, maxevents, timeout, schedule, k);
            var left := SleepBudget(timeout) - k;
            && (w.effect.out == Ret(0) ==> w.scans == SleepBudget(timeout) + 1 && w.sleeps == SleepBudget(timeout))
            && (w.effect.out == Ret(0) <==>
                left <= |schedule| && FindNothing(r, sh, l, epfd, maxevents, schedule, left))
            && (w.effect.out == Blocked ==> |schedule| < left)
            && w.scans <= SleepBudget(timeout) + 1 && w.sleeps <= SleepBudget(timeout)
    decreases |schedule|
  {
    hide DoScan;
    var e := DoScan(r, sh, l, epfd, maxevents);
    assert e == Pass(r, sh, l, epfd, maxevents, schedule, 0);
    var left := SleepBudget(timeout) - k;
    assert e.out != Ret(0) && e.out != Blocked by { ScanOutcome(r, sh, l, epfd, maxevents); }
    if e.out == Events([]) && left > 0 && schedule != [] {
      LoopTimesOut(r, schedule[0], e.local, epfd, maxevents, timeout, schedule[1..], k + 1);
      assert forall i | 1 <= i <= |schedule| ::
        Pass(r, sh, l, epfd, maxevents, schedule, i) ==
          Pass(r, schedule[0], e.local, epfd, maxevents, schedule[1..], i - 1);
      if left <= |schedule| && FindNothing(r, schedule[0], e.local, epfd, maxevents, schedule[1..], left - 1) {
        forall i | 0 <= i <= left ensures Pass(r, sh, l, epfd, maxevents, schedule, i).out == Events([]) {
          assert i > 0 ==> Pass(r, schedule[0], e.local, epfd, maxevents, schedule[1..], i - 1).out == Events([]);
        }
      }
      if left <= |schedule| && FindNothing(r, sh, l, epfd, maxevents, schedule, left) {
        forall i | 0 <= i <= left - 1
          ensures Pass(r, schedule[0], e.local, epfd, maxevents, schedule[1..], i).out == Events([])
        {
          assert Pass(r, sh, l, epfd, maxevents, schedule, i + 1).out == Events([]);
        }
      }
    }
  }

  lemma ScanOutcome(r: Role, sh: Shared, l: Local, epfd: int, maxevents: int)
    ensures var out := DoScan(r, sh, l, epfd, maxevents).out; out.Events? || out == Undefined || out == Fail(-1, EBADF)
  {
    hide ScanFrom;
  }

  /**
   With a timeout of T >= 0 milliseconds the call ends after at most 10T + 2 scans and 10T + 1 sleeps.
   It returns 0 exactly when that many scans find nothing, and has then asked for 1000T + 100
   microseconds of sleep in all.
   */
  lemma TimeoutExactly(r: Role, sh: Shared, l: Local, epfd: int, maxevents: int, timeout: int, schedule: seq<Shared>)
    requires timeout >= 0
    ensures var w := EpollPwait(r, sh, l, epfd, maxevents, timeout, schedule);
            && w.scans <= 10 * timeout + 2 && w.sleeps <= 10 * timeout + 1
            && (|schedule| >= 10 * timeout + 1 ==> w.effect.out != Blocked)
            && (w.effect.out == Ret(0) ==> w.sleeps * SLEEP_DURATION == 1000 * timeout + 100)
            && (w.effect.out == Ret(0) <==>
                (10 * timeout + 1 <= |schedule| && FindNothing(r, sh, l, epfd, maxevents, schedule, 10 * timeout + 1)))
  {
    hide FindNothing, WaitLoop;
    LoopTimesOut(r, sh, l, epfd, maxevents, timeout, schedule, 0);
  }

  /** Timeout -1 waits for ever; any other negative timeout gives up after one scan. */
  lemma {:induction false} NegativeTimeout(r: Role, sh: Shared, l: Local, epfd: int, maxevents: int, timeout: int,
                                           schedule: seq<Shared>, k: nat)
    requires timeout < 0
    ensures timeout == -1 ==> WaitLoop(r, sh, l, epfd, maxevents, timeout, schedule, k).effect.out != Ret(0)
    ensures timeout < -1 && k == 0 ==>
              var w := WaitLoop(r, sh, l, epfd, maxevents, timeout, schedule, k); w.scans == 1 && w.sleeps == 0
    decreases |schedule|
  {
    hide DoScan;
    ScanOutcome(r, sh, l, epfd, maxevents);
    if timeout == -1 && schedule != [] {
      NegativeTimeout(r, schedule[0], DoScan(r, sh, l, epfd, maxevents).local, epfd, maxevents, timeout, schedule[1..],
                      k + 1);
    }
  }
}
