/**
 Packets over whole runs: a packet block is freed once, when its last byte has been delivered, and the
 packets behind it wait untouched. And what this means for a reader that relies on edge-triggered events.
 */
module Packets {
  import opened Connections
  import opened Descriptors
  import opened Readiness
  import opened Duplex
  import opened Scanning
  import opened Reachability
  import opened Streams
  import opened Wakeups

  /** How many of the packets sent towards `r` on `p` have been freed: those that are not queued any more. */
  function Freed(sh: Shared, h: History, p: Ptr, r: Role): int
    requires p in sh.conns && p in h
  {
    |h[p].To(r).packets| - |sh.conns[p].Own(r).recvBuffer|
  }

  lemma {:induction false} ConcatGrows(packets: seq<seq<Byte>>, i: nat, j: nat)
    requires i <= j <= |packets|
    ensures |Concat(packets[..i])| <= |Concat(packets[..j])|
    decreases j - i
  {
    if i < j {
      ConcatGrows(packets, i, j - 1);
      assert packets[..j] == packets[..j - 1] + [packets[j - 1]];
      ConcatAppend(packets[..j - 1], packets[j - 1]);
    }
  }

  lemma ConcatNext(packets: seq<seq<Byte>>, i: nat)
    requires i < |packets|
    ensures |Concat(packets[..i + 1])| == |Concat(packets[..i])| + |packets[i]|
  {
    assert packets[..i + 1] == packets[..i] + [packets[i]];
    ConcatAppend(packets[..i], packets[i]);
  }

  /** A packet with bytes in it is gone from the queue exactly when its last byte has been delivered. */
  lemma GoneExactly(queue: seq<Packet>, packets: seq<seq<Byte>>, received: seq<Byte>, i: nat)
    requires PacketsOk(queue, packets, received) && i < |packets| && packets[i] != []
    ensures i < |packets| - |queue| <==> |received| >= |Concat(packets[..i + 1])|
  {
    hide Concat;
    var freed := |packets| - |queue|;
    if i < freed {
      ConcatGrows(packets, i + 1, freed);
    } else {
      ConcatNext(packets, freed);
      ConcatNext(packets, i);
      if i > freed {
        ConcatGrows(packets, freed + 1, i);
      }
    }
  }

  /** The bytes not delivered are those of the packets still queued. */
  lemma {:induction false} QueueIsTail(queue: seq<Packet>, tail: seq<seq<Byte>>)
    requires |queue| == |tail| && (forall i | 0 <= i < |queue| :: queue[i].data == tail[i]) &&
             (forall i | 1 <= i < |queue| :: queue[i].offset == 0)
    ensures Delivered(queue) + UnreadAll(queue) == Concat(tail)
  {
    if queue != [] {
      QueueIsTail(queue[1..], tail[1..]);
      var b := queue[0];
      assert b.data == b.data[..b.offset] + Unread(b);
      assert Delivered(queue[1..]) == [];
      assert UnreadAll(queue[1..]) == Concat(tail[1..]);
      Reassociate(b.data[..b.offset], Unread(b), UnreadAll(queue[1..]));
    }
  }

  lemma SentIsConcat(half: Half, f: Flow)
    requires FlowOk(half, f)
    ensures f.sent == Concat(f.packets)
  {
    hide Concat, UnreadAll, IsEventSet, NoEmptyPacket;
    var queue := half.recvBuffer;
    var freed := |f.packets| - |queue|;
    var done := Concat(f.packets[..freed]);
    QueueIsTail(queue, f.packets[freed..]);
    assert f.packets == f.packets[..freed] + f.packets[freed..];
    ConcatSplit(f.packets[..freed], f.packets[freed..]);
    Reassociate(done, Delivered(queue), UnreadAll(queue));
  }

  /**
   In every reachable state the queue holds the last packets sent, whole except for the one in front; the
   bytes received are those of the freed packets and the delivered part of that one; and a packet that is
   not empty has been freed if and only if its last byte has been delivered.
   */
  lemma PacketsFreedExactly(s: Sys, moves: seq<Move>, p: Ptr, r: Role)
    requires Initial(s) && Playable(s, moves)
    requires p in Run(s, moves).shared.conns && Run(s, moves).shared.conns[p].iface.Some?
    ensures p in RunHistory(s, map[], moves)
    ensures var sh := Run(s, moves).shared; var h := RunHistory(s, map[], moves);
            var f := h[p].To(r);
            var queue := sh.conns[p].Own(r).recvBuffer;
            var freed := Freed(sh, h, p, r);
            && 0 <= freed && f.sent == Concat(f.packets) && f.received == Concat(f.packets[..freed]) + Delivered(queue)
            && (forall i | 0 <= i < |queue| ::
                queue[i].data == f.packets[freed + i] && (i > 0 ==> queue[i].offset == 0))
            && (forall i | 0 <= i < |f.packets| && f.packets[i] != [] ::
                  i < freed <==> |f.received| >= |Concat(f.packets[..i + 1])|)
  {
    hide Run, RunHistory, Playable, Concat, UnreadAll, Initial;
    assert SysInv(s) && HistoryOk(s.shared, map[]) by { InitialInv(s); EmptyHistoryOk(s); }
    RunKeepsHistory(s, map[], moves);
    var sh := Run(s, moves).shared;
    var f := RunHistory(s, map[], moves)[p].To(r);
    var queue := sh.conns[p].Own(r).recvBuffer;
    assert FlowOk(sh.conns[p].Own(r), f);
    SentIsConcat(sh.conns[p].Own(r), f);
    forall i | 0 <= i < |f.packets| && f.packets[i] != []
      ensures i < |f.packets| - |queue| <==> |f.received| >= |Concat(f.packets[..i + 1])|
    {
      GoneExactly(queue, f.packets, f.received, i);
    }
  }

  // ---------- freed at most once ----------

  ghost predicate QueuesKept(sh: Shared, sh': Shared) {
    forall p, r: Role | p in sh.conns && p in sh'.conns ::
      sh'.conns[p].Own(r).recvBuffer == sh.conns[p].Own(r).recvBuffer
  }

  lemma AcceptKeepsQueues(r: Role, sh: Shared, l: Local, num: int, nonblock: bool, named: bool)
    ensures QueuesKept(sh, DoAccept(r, sh, l, num, nonblock, named).shared)
  {
    hide GetPeerName, PickOnTable;
  }

  lemma CloseKeepsQueues(r: Role, sh: Shared, l: Local, num: int)
    ensures QueuesKept(sh, DoClose(r, sh, l, num).shared)
  {
    hide SetEvent, RemoveFirst;
  }

  lemma ScanKeepsQueues(r: Role, sh: Shared, l: Local, epfd: int, maxevents: int)
    ensures QueuesKept(sh, DoScan(r, sh, l, epfd, maxevents).shared)
  {
    hide ScanFrom, FdsFrame, ListenersFrame;
    var k := FindPollfd(l, epfd);
    if k.Some? {
      var s := StartScan(sh, l, k.value);
      var t := ScanFrom(s, r, l.interfaces, 0, maxevents);
      ScanFromFrame(s, r, l.interfaces, 0, maxevents);
      forall p, r': Role | p in sh.conns && p in t.shared.conns
        ensures t.shared.conns[p].Own(r').recvBuffer == sh.conns[p].Own(r').recvBuffer
      {
        assert MasksOnly(r, sh.conns[p], t.shared.conns[p]);
      }
    }
  }

  lemma CreationKeepsQueues(r: Role, sh: Shared, l: Local, call: Call)
    requires (call.Connect? || call.ConnectEx?) && AllocationOk(r, sh, l, call)
    ensures QueuesKept(sh, Apply(r, sh, l, call).shared)
  {
    hide Apply, Creates, Created;
    CreationShape(r, sh, l, call);
  }

  lemma ListenKeepsQueues(sh: Shared, l: Local, num: int, block: Ptr)
    requires StartsListen(l, num) ==> block !in sh.conns
    ensures QueuesKept(sh, DoListen(sh, l, num, block).shared)
  {
  }

  lemma ApplyKeepsQueues(r: Role, sh: Shared, l: Local, call: Call)
    requires AllocationOk(r, sh, l, call) && !call.Send? && !call.Recv?
    ensures QueuesKept(sh, Apply(r, sh, l, call).shared)
  {
    hide DoAccept, DoConnect, DoConnectEx, DoClose, DoScan, DoListen, DoEpollCtl, DoBind, DoSocket;
    match call
    case Connect(_, _, _, _) => CreationKeepsQueues(r, sh, l, call);
    case ConnectEx(_, _, _, _) => CreationKeepsQueues(r, sh, l, call);
    case Listen(num, block) => ListenKeepsQueues(sh, l, num, block);
    case Accept(num, nonblock, named) => AcceptKeepsQueues(r, sh, l, num, nonblock, named);
    case Close(num) => CloseKeepsQueues(r, sh, l, num);
    case Wait(epfd, maxevents) => ScanKeepsQueues(r, sh, l, epfd, maxevents);
    case _ =>
  }

  /** Other calls send nothing: the packets on record stay as they are. */
  lemma PacketsKept(r: Role, sh: Shared, l: Local, h: History, call: Call, out: Outcome, p: Ptr, r': Role)
    requires p in sh.conns && p in h && AllocationOk(r, sh, l, call) && !call.Send? && !call.Recv?
    ensures p in Observe(r, sh, l, h, call, out) &&
            Observe(r, sh, l, h, call, out)[p].To(r').packets == h[p].To(r').packets
  {
    hide Reported;
  }

  lemma SendFrees(r: Role, sh: Shared, l: Local, h: History, num: int, data: seq<Byte>, p: Ptr, r': Role)
    requires p in sh.conns && p in h
    ensures var e := DoSend(r, sh, l, num, data); var h' := Observe(r, sh, l, h, Send(num, data), e.out);
            p in e.shared.conns && p in h' && h[p].To(r').packets <= h'[p].To(r').packets &&
              Freed(e.shared, h', p, r') == Freed(sh, h, p, r')
  {
    hide SetEvent;
  }

  lemma RecvFrees(r: Role, sh: Shared, l: Local, h: History, num: int, len: nat, dontwait: bool, p: Ptr, r': Role)
    requires p in sh.conns && p in h
    ensures var e := DoRecv(r, sh, l, num, len, dontwait);
            var h' := Observe(r, sh, l, h, Recv(num, len, dontwait), e.out);
            p in e.shared.conns && p in h' && h[p].To(r').packets == h'[p].To(r').packets &&
            Freed(sh, h, p, r') <= Freed(e.shared, h', p, r') <= Freed(sh, h, p, r') + 1
  {
    hide RecvConnection;
    ReadFrees(sh.conns[p], r, len, r');
  }

  lemma ReadFrees(c: Connection, r: Role, len: nat, r': Role)
    ensures var d := RecvConnection(c, r, len).conn;
            |c.Own(r').recvBuffer| - 1 <= |d.Own(r').recvBuffer| <= |c.Own(r').recvBuffer|
  {
  }

  /** One move frees at most one packet of a flow, and never takes one back. */
  lemma StepFrees(s: Sys, h: History, m: Move, p: Ptr, r: Role)
    requires AllocationOk(m.role, s.shared, s.Loc(m.role), m.call) && p in s.shared.conns && p in h &&
             p in Step(s, m).0.shared.conns
    ensures var h' := Observe(m.role, s.shared, s.Loc(m.role), h, m.call, Step(s, m).1);
            p in h' && h[p].To(r).packets <= h'[p].To(r).packets &&
            Freed(s.shared, h, p, r) <= Freed(Step(s, m).0.shared, h', p, r) <= Freed(s.shared, h, p, r) + 1
  {
    hide DoAccept, DoConnect, DoConnectEx, DoClose, DoScan, DoListen, DoEpollCtl, DoBind, DoSocket, DoSend, DoRecv,
        Observe, AllocationOk;
    match m.call
    case Send(num, data) => SendFrees(m.role, s.shared, s.Loc(m.role), h, num, data, p, r);
    case Recv(num, len, dontwait) => RecvFrees(m.role, s.shared, s.Loc(m.role), h, num, len, dontwait, p, r);
    case _ =>
      hide Apply;
      ApplyKeepsQueues(m.role, s.shared, s.Loc(m.role), m.call);
      PacketsKept(m.role, s.shared, s.Loc(m.role), h, m.call, Step(s, m).1, p, r);
  }

  /**
   Over any run that does not remove the record, packets only get added to what was sent, and freed
   packets stay freed: with `PacketsFreedExactly`, each block is freed at most once.
   */
  lemma {:induction false} FreedOnce(s: Sys, h: History, moves: seq<Move>, p: Ptr, r: Role)
    requires Playable(s, moves) && Survives(s, moves, p) && p in h
    ensures p in Run(s, moves).shared.conns && p in RunHistory(s, h, moves)
    ensures h[p].To(r).packets <= RunHistory(s, h, moves)[p].To(r).packets
    ensures Freed(s.shared, h, p, r) <= Freed(Run(s, moves).shared, RunHistory(s, h, moves), p, r)
    decreases |moves|
  {
    hide Step, Observe, Freed;
    if moves != [] {
      var m := moves[0];
      SurvivesStep(s, moves, p);
      StepFrees(s, h, m, p, r);
      FreedOnce(Step(s, m).0, Observe(m.role, s.shared, s.Loc(m.role), h, m.call, Step(s, m).1), moves[1..], p, r);
    }
  }

  lemma SurvivesStep(s: Sys, moves: seq<Move>, p: Ptr)
    requires Survives(s, moves, p) && moves != []
    ensures p in s.shared.conns && p in Step(s, moves[0]).0.shared.conns
  {
    hide Step;
    assert Survives(Step(s, moves[0]).0, moves[1..], p);
  }

  // ---------- edge-triggered readers ----------

  /**
   A reader that calls recv until it finds nothing, and then waits for an edge-triggered event, is never
   left with data: in every reachable state in which nobody has sent it an empty packet, if bytes are
   unread then its EPOLLIN bit is set, or recv has not yet failed since the last report.
   */
  lemma DrainedIsSignalled(s: Sys, moves: seq<Move>, p: Ptr, r: Role)
    requires Initial(s) && Playable(s, moves)
    requires p in Run(s, moves).shared.conns && Run(s, moves).shared.conns[p].iface.Some?
    ensures p in RunHistory(s, map[], moves)
    ensures var own := Run(s, moves).shared.conns[p].Own(r);
            var f := RunHistory(s, map[], moves)[p].To(r);
            f.solid && UnreadAll(own.recvBuffer) != [] ==> IsEventSet(own.events, EPOLLIN) || !f.drained
  {
    hide Run, RunHistory, Playable, Initial, PacketsOk, IsEventSet;
    assert SysInv(s) && HistoryOk(s.shared, map[]) by { InitialInv(s); EmptyHistoryOk(s); }
    RunKeepsHistory(s, map[], moves);
    assert FlowOk(Run(s, moves).shared.conns[p].Own(r), RunHistory(s, map[], moves)[p].To(r));
  }

  /** And then the next scan over a table with a subscribed listener reports EPOLLIN, unless the array is full. */
  lemma DrainedIsWoken(s: Sys, moves: seq<Move>, r: Role, epfd: int, maxevents: int, j: nat, p: Ptr)
    requires Initial(s) && Playable(s, moves) && FindPollfd(Run(s, moves).Loc(r), epfd).Some?
    requires var t := Run(s, moves);
             Subscribed(StartScan(t.shared, t.Loc(r), FindPollfd(t.Loc(r), epfd).value), j, p, EPOLLIN)
    requires Run(s, moves).shared.conns[p].iface.Some? && p in RunHistory(s, map[], moves)
    requires var f := RunHistory(s, map[], moves)[p].To(r);
             f.solid && f.drained && UnreadAll(Run(s, moves).shared.conns[p].Own(r).recvBuffer) != []
    ensures var out := Step(Run(s, moves), Move(r, Wait(epfd, maxevents))).1;
            out == Undefined || (out.Events? && (|out.log| >= maxevents || Reported(out.log, p, EPOLLIN)))
  {
    hide Run, RunHistory, Playable, Initial, ScanFrom, IsEventSet, Reported;
    var t := Run(s, moves);
    DrainedIsSignalled(s, moves, p, r);
    ScanReports(StartScan(t.shared, t.Loc(r), FindPollfd(t.Loc(r), epfd).value), r, t.Loc(r).interfaces, 0, j,
                maxevents, p, EPOLLIN);
    var out := Step(t, Move(r, Wait(epfd, maxevents))).1;
    if out.Events? {
      ReportedFromStart(out.log, p, EPOLLIN);
    }
  }

  lemma ReportedFromStart(log: seq<Report>, p: Ptr, event: EventMask)
    ensures ReportedSince(0, log, p, event) <==> Reported(log, p, event)
  {
    hide IsEventSet;
  }
}
