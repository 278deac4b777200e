/**
 Every run of the two processes refines a pair of byte pipes per connection, and no edge-triggered
 wakeup is lost. The history below is built from what the calls are given and what they return;
 the invariant ties it to the packets and the event masks in shared memory.
 */
module Streams {
  import opened Basics
  import opened Connections
  import opened Descriptors
  import opened Readiness
  import opened Duplex
  import opened Scanning
  import opened Reachability

  /**
   The traffic towards one role: the packets the peer sent, all their bytes, the bytes received, and
   whether a packet (a hangup) has arrived since EPOLLIN (EPOLLHUP) was last reported edge-triggered.
   `solid` says that nobody sent an empty packet, `drained` that recv has found nothing since EPOLLIN was
   last reported.
   */
  datatype Flow = Flow(packets: seq<seq<Byte>>, sent: seq<Byte>, received: seq<Byte>, packet: bool, hangup: bool,
                       solid: bool, drained: bool) {
    function Sending(data: seq<Byte>): Flow {
      this.(packets := packets + [data], sent := sent + data, packet := true, solid := solid && data != [])
    }
  }

  datatype Flows = Flows(toServer: Flow, toClient: Flow) {
    function To(r: Role): Flow {
      if r == Server then toServer else toClient
    }

    function WithTo(r: Role, f: Flow): Flows {
      if r == Server then this.(toServer := f) else this.(toClient := f)
    }
  }

  type History = map<Ptr, Flows>

  const EMPTY_FLOW := Flow([], [], [], false, false, true, false)

  function Concat(pieces: seq<seq<Byte>>): seq<Byte> {
    if pieces == [] then [] else pieces[0] + Concat(pieces[1..])
  }

  /** The connection behind descriptor `num`. */
  function ConnOf(l: Local, num: int): Option<Ptr> {
    var i := FindFd(l.fds, num);
    if i.None? then None else l.fds[i.value].pConn
  }

  function UpdateFlow(h: History, p: Option<Ptr>, r: Role, f: Flow -> Flow): History {
    if p.None? || p.value !in h then h else h[p.value := h[p.value].WithTo(r, f(h[p.value].To(r)))]
  }

  /** Does `log` report `event` on `p`, edge-triggered? */
  ghost predicate Reported(log: seq<Report>, p: Ptr, event: EventMask) {
    exists k | 0 <= k < |log| :: log[k].edge && log[k].conn == p && IsEventSet(log[k].events, event)
  }

  ghost function AfterReports(f: Flow, log: seq<Report>, p: Ptr): Flow {
    f.(packet := f.packet && !Reported(log, p, EPOLLIN), drained := f.drained && !Reported(log, p, EPOLLIN),
       hangup := f.hangup && !Reported(log, p, EPOLLHUP))
  }

  ghost function Observe(r: Role, sh: Shared, l: Local, h: History, call: Call, out: Outcome): History {
    if Creates(r, sh, l, call) then h[call.block := Flows(EMPTY_FLOW, EMPTY_FLOW)]
    else match call
      case Send(num, data) =>
        if !out.Ret? then h
        else UpdateFlow(h, ConnOf(l, num), Other(r), (f: Flow) => f.Sending(data))
      case Recv(num, len, dontwait) =>
        if out.Data? then UpdateFlow(h, ConnOf(l, num), r, (f: Flow) => f.(received := f.received + out.bytes))
        else if (out == Fail(-1, EAGAIN) || out == Blocked) && len > 0 then
               UpdateFlow(h, ConnOf(l, num), r, (f: Flow) => f.(drained := true))
        else h
      case Close(num) =>
        if !out.Ret? || num >= POLLFD_START || Deref(sh, ConnOf(l, num)).None? ||
          Deref(sh, ConnOf(l, num)).value.connState != COpen then h
        else UpdateFlow(h, ConnOf(l, num), Other(r), (f: Flow) => f.(hangup := true))
      case Wait(epfd, maxevents) =>
        if !out.Events? then h
        else map p | p in h :: h[p].WithTo(r, AfterReports(h[p].To(r), out.log, p))
      case _ => h
  }

  // ---------- the invariant ----------

  /** All bytes waiting in a queue, in order. */
  function UnreadAll(queue: seq<Packet>): seq<Byte> {
    if queue == [] then [] else Unread(queue[0]) + UnreadAll(queue[1..])
  }

  predicate NoEmptyPacket(queue: seq<Packet>) {
    forall i | 0 <= i < |queue| :: queue[i].datasize > 0
  }

  /** The bytes delivered of the packet in front. */
  function Delivered(queue: seq<Packet>): seq<Byte> {
    if queue == [] then [] else queue[0].data[..queue[0].offset]
  }

  /**
   The queue holds the last packets sent, and the packets before it have been delivered in full. Only
   the packet in front can be read in part, and it stays until its last byte is delivered.
   */
  ghost predicate PacketsOk(queue: seq<Packet>, packets: seq<seq<Byte>>, received: seq<Byte>) {
    && |queue| <= |packets|
    && var freed := |packets| - |queue|;
       && received == Concat(packets[..freed]) + Delivered(queue)
       && (forall i | 0 <= i < |queue| ::
           queue[i].data == packets[freed + i] && (queue[i].datasize > 0 || queue[i].data == []))
       && (forall i | 1 <= i < |queue| :: queue[i].offset == 0)
  }

  ghost predicate FlowOk(half: Half, f: Flow) {
    && PacketsOk(half.recvBuffer, f.packets, f.received)
    && (f.solid && f.drained && half.recvBuffer != [] ==> f.packet)
    && f.sent == f.received + UnreadAll(half.recvBuffer)
    && (f.packet ==> IsEventSet(half.events, EPOLLIN))
    && (f.hangup ==> IsEventSet(half.events, EPOLLHUP))
    && (f.solid ==> NoEmptyPacket(half.recvBuffer))
  }

  ghost predicate HistoryOk(sh: Shared, h: History) {
    forall p | p in sh.conns && sh.conns[p].iface.Some? ::
      p in h && FlowOk(sh.conns[p].server, h[p].toServer) && FlowOk(sh.conns[p].client, h[p].toClient)
  }

  lemma {:induction false} UnreadAllAppend(q: seq<Packet>, b: Packet)
    ensures UnreadAll(q + [b]) == UnreadAll(q) + Unread(b)
  {
    if q == [] {
      assert q + [b] == [b];
      assert UnreadAll([b]) == Unread(b) + UnreadAll([]);
    } else {
      assert (q + [b])[1..] == q[1..] + [b];
      UnreadAllAppend(q[1..], b);
    }
  }

  lemma Reassociate(a: seq<Byte>, b: seq<Byte>, c: seq<Byte>)
    ensures a + (b + c) == (a + b) + c
  {
  }

  /** A partial read takes its bytes off the front of the unread ones. */
  lemma PartialUnread(q: seq<Packet>, rest: seq<Packet>, len: nat)
    requires q != [] && len < q[0].datasize
    requires rest == [BufferEntry(q[0].data, q[0].offset + len, q[0].datasize - len)] + q[1..]
    ensures UnreadAll(q) == Unread(q[0])[..len] + UnreadAll(rest)
  {
    var front := Unread(q[0]);
    assert rest[1..] == q[1..];
    assert Unread(rest[0]) == front[len..];
    assert front == front[..len] + front[len..];
    Reassociate(front[..len], front[len..], UnreadAll(q[1..]));
  }

  /** One read moves bytes from the queue to the reader. */
  lemma ReadMovesBytes(q: seq<Packet>, c: Connection, r: Role, len: nat)
    requires q == c.Own(r).recvBuffer
    ensures var got := RecvConnection(c, r, len); UnreadAll(q) == got.data + UnreadAll(got.conn.Own(r).recvBuffer)
  {
    hide UnreadAll;
    if q == [] {
      assert UnreadAll(q) == [] + UnreadAll(q);
    } else if len < q[0].datasize {
      PartialUnread(q, RecvConnection(c, r, len).conn.Own(r).recvBuffer, len);
    } else {
      UnreadFirst(q);
    }
  }

  lemma UnreadFirst(q: seq<Packet>)
    requires q != []
    ensures UnreadAll(q) == Unread(q[0]) + UnreadAll(q[1..])
  {
  }

  lemma ReadKeepsSolid(c: Connection, r: Role, len: nat)
    requires NoEmptyPacket(c.Own(r).recvBuffer)
    ensures NoEmptyPacket(RecvConnection(c, r, len).conn.Own(r).recvBuffer)
  {
  }

  lemma SetEventSets(mask: EventMask, event: EventMask)
    requires event == EPOLLIN || event == EPOLLHUP
    ensures IsEventSet(SetEvent(mask, event), event)
  {
  }

  lemma SetEventKeeps(mask: EventMask, event: EventMask, other: EventMask)
    requires IsEventSet(mask, other)
    ensures IsEventSet(SetEvent(mask, event), other)
  {
  }

  lemma {:induction false} ConcatAppend(pieces: seq<seq<Byte>>, last: seq<Byte>)
    ensures Concat(pieces + [last]) == Concat(pieces) + last
  {
    if pieces == [] {
      assert pieces + [last] == [last];
      assert Concat([last]) == last + Concat([]);
    } else {
      assert (pieces + [last])[1..] == pieces[1..] + [last];
      ConcatAppend(pieces[1..], last);
      Reassociate(pieces[0], Concat(pieces[1..]), last);
    }
  }

  lemma {:induction false} ConcatSplit(a: seq<seq<Byte>>, b: seq<seq<Byte>>)
    ensures Concat(a + b) == Concat(a) + Concat(b)
  {
    if a == [] {
      assert a + b == b;
    } else {
      assert (a + b)[1..] == a[1..] + b;
      ConcatSplit(a[1..], b);
      Reassociate(a[0], Concat(a[1..]), Concat(b));
    }
  }

  lemma SendKeepsPackets(queue: seq<Packet>, packets: seq<seq<Byte>>, received: seq<Byte>, data: seq<Byte>)
    requires PacketsOk(queue, packets, received)
    ensures PacketsOk(queue + [BufferEntry(data, 0, |data|)], packets + [data], received)
  {
    hide Concat;
    var freed := |packets| - |queue|;
    assert (packets + [data])[..freed] == packets[..freed];
    assert queue == [] ==> received == Concat(packets[..freed]);
  }

  lemma FullReadKeepsPackets(queue: seq<Packet>, packets: seq<seq<Byte>>, received: seq<Byte>)
    requires PacketsOk(queue, packets, received) && queue != []
    ensures PacketsOk(queue[1..], packets, received + Unread(queue[0]))
  {
    hide Concat;
    var freed := |packets| - |queue|;
    var b := queue[0];
    assert packets[..freed + 1] == packets[..freed] + [packets[freed]];
    ConcatAppend(packets[..freed], packets[freed]);
    assert b.data == b.data[..b.offset] + Unread(b);
    Reassociate(Concat(packets[..freed]), b.data[..b.offset], Unread(b));
    assert Delivered(queue[1..]) == [];
  }

  lemma DeliveredGrows(b: Packet, len: nat)
    requires len < b.datasize
    ensures len < |Unread(b)| && b.data[..b.offset + len] == b.data[..b.offset] + Unread(b)[..len]
  {
  }

  lemma PartialReadKeepsPackets(queue: seq<Packet>, packets: seq<seq<Byte>>, received: seq<Byte>, len: nat,
                                rest: seq<Packet>)
    requires PacketsOk(queue, packets, received) && queue != [] && len < queue[0].datasize
    requires rest == [BufferEntry(queue[0].data, queue[0].offset + len, queue[0].datasize - len)] + queue[1..]
    ensures PacketsOk(rest, packets, received + Unread(queue[0])[..len])
  {
    hide Concat, Unread;
    var freed := |packets| - |queue|;
    var b := queue[0];
    assert |rest| == |queue| && rest[0].data == b.data;
    DeliveredGrows(b, len);
    Reassociate(Concat(packets[..freed]), b.data[..b.offset], Unread(b)[..len]);
    assert Delivered(rest) == Delivered(queue) + Unread(b)[..len];
    assert forall i | 1 <= i < |rest| :: rest[i] == queue[i];
  }

  lemma ReadKeepsPackets(c: Connection, r: Role, len: nat, packets: seq<seq<Byte>>, received: seq<Byte>)
    requires PacketsOk(c.Own(r).recvBuffer, packets, received)
    ensures var got := RecvConnection(c, r, len); PacketsOk(got.conn.Own(r).recvBuffer, packets, received + got.data)
  {
    hide PacketsOk;
    var queue := c.Own(r).recvBuffer;
    if queue == [] {
      assert received + [] == received;
    } else if len >= queue[0].datasize {
      FullReadKeepsPackets(queue, packets, received);
    } else {
      PartialReadKeepsPackets(queue, packets, received, len, RecvConnection(c, r, len).conn.Own(r).recvBuffer);
    }
  }

  lemma SendKeepsFlow(c: Connection, r: Role, data: seq<Byte>, f: Flow)
    requires FlowOk(c.Own(Other(r)), f)
    ensures FlowOk(SendConnection(c, r, data).Own(Other(r)), f.Sending(data))
  {
    hide SetEvent, IsEventSet, UnreadAll, PacketsOk;
    var peer := c.Own(Other(r));
    SendKeepsPackets(peer.recvBuffer, f.packets, f.received, data);
    Reassociate(f.received, UnreadAll(peer.recvBuffer), data);
    UnreadAllAppend(peer.recvBuffer, BufferEntry(data, 0, |data|));
    SetEventSets(peer.events, EPOLLIN);
    if f.hangup { SetEventKeeps(peer.events, EPOLLIN, EPOLLHUP); }
  }

  lemma RecvKeepsRest(c: Connection, r: Role, len: nat)
    ensures var d := RecvConnection(c, r, len).conn;
            d.Own(r).events == c.Own(r).events && d.Own(Other(r)) == c.Own(Other(r))
  {
  }

  lemma ReadShrinks(c: Connection, r: Role, len: nat)
    ensures c.Own(r).recvBuffer == [] ==> RecvConnection(c, r, len).conn.Own(r).recvBuffer == []
    ensures len > 0 && NoEmptyPacket(c.Own(r).recvBuffer) && RecvConnection(c, r, len).data == [] ==>
              c.Own(r).recvBuffer == []
  {
    var queue := c.Own(r).recvBuffer;
    if queue != [] {
      assert |Unread(queue[0])| == queue[0].datasize;
    }
  }

  lemma RecvKeepsFlow(c: Connection, r: Role, len: nat, f: Flow)
    requires FlowOk(c.Own(r), f)
    ensures var got := RecvConnection(c, r, len);
            FlowOk(got.conn.Own(r), f.(received := f.received + got.data)) && got.conn.Own(Other(r)) == c.Own(Other(r))
    ensures var got := RecvConnection(c, r, len);
            got.data == [] && len > 0 ==> FlowOk(got.conn.Own(r), f.(drained := true))
  {
    hide IsEventSet, UnreadAll, RecvConnection, NoEmptyPacket, PacketsOk;
    ReadKeepsPackets(c, r, len, f.packets, f.received);
    ReadShrinks(c, r, len);
    assert f.received + [] == f.received;
    var got := RecvConnection(c, r, len);
    RecvKeepsRest(c, r, len);
    ReadMovesBytes(c.Own(r).recvBuffer, c, r, len);
    Reassociate(f.received, got.data, UnreadAll(got.conn.Own(r).recvBuffer));
    if f.solid { ReadKeepsSolid(c, r, len); }
  }

  // ---------- edge events during a scan ----------

  ghost predicate ReportedSince(n: nat, log: seq<Report>, p: Ptr, event: EventMask) {
    exists k | n <= k < |log| :: log[k].edge && log[k].conn == p && IsEventSet(log[k].events, event)
  }

  /** An event bit of `p` is still set, or it has been written to the caller's array. */
  ghost predicate EventKept(r: Role, s: Scan, t: Scan, p: Ptr, event: EventMask)
    requires p in s.shared.conns && p in t.shared.conns
  {
    IsEventSet(s.shared.conns[p].Own(r).events, event) ==>
      IsEventSet(t.shared.conns[p].Own(r).events, event) || ReportedSince(|s.log|, t.log, p, event)
  }

  /** Reporting splits a mask: what is reported and what stays are disjoint and make up the whole. */
  lemma ReportSplitsMask(events: EventMask, mask: EventMask)
    ensures SetEvent(Among(events, mask), ClearEvent(events, mask)) == events
    ensures Among(Among(events, mask), ClearEvent(events, mask)) == 0
  {
  }

  lemma SplitKeepsEvent(events: EventMask, mask: EventMask, event: EventMask)
    requires IsEventSet(events, event)
    ensures IsEventSet(Among(events, mask), event) || IsEventSet(ClearEvent(events, mask), event)
  {
  }

  lemma CheckKeepsEvent(s: Scan, r: Role, j: nat, q: Ptr, special: bool, mask: EventMask, p: Ptr, event: EventMask)
    requires j < |s.lfds| && q in s.shared.conns && p in s.shared.conns
    ensures p in CheckAndSetEvents(s, r, j, q, special, mask).shared.conns
    ensures EventKept(r, s, CheckAndSetEvents(s, r, j, q, special, mask), p, event)
  {
    hide SetEvent, ClearEvent, Among, IsEventSet, LevelMask;
    var t := CheckAndSetEvents(s, r, j, q, special, mask);
    var own := s.shared.conns[q].Own(r);
    if p == q && !s.lfds[j].level && IsEventSet(own.events, mask) && IsEventSet(own.events, event) {
      SplitKeepsEvent(own.events, mask, event);
      var k := |s.log|;
      assert t.log[k].edge && t.log[k].conn == p && t.log[k].events == Among(own.events, mask);
    }
  }

  lemma RaiseKeepsEvent(s: Scan, r: Role, j: nat, q: Ptr, p: Ptr, event: EventMask)
    requires j < |s.lfds| && q in s.shared.conns && p in s.shared.conns
    ensures p in RaiseInput(s, r, j, q).shared.conns && EventKept(r, s, RaiseInput(s, r, j, q), p, event)
  {
    hide SetEvent, ClearEvent, Among, IsEventSet, LevelMask, CheckAndSetEvents;
    var own := s.shared.conns[q].Own(r);
    var t := s.PutOwn(r, q, SetEvent(own.events, EPOLLIN), SetEvent(own.ltEvents, EPOLLIN));
    CheckKeepsEvent(t, r, j, q, true, EPOLLIN, p, event);
    if IsEventSet(own.events, event) {
      SetEventKeeps(own.events, EPOLLIN, event);
    }
  }

  lemma LowerKeepsEvent(s: Scan, r: Role, q: Ptr, p: Ptr, event: EventMask)
    requires q in s.shared.conns && p in s.shared.conns
    ensures p in LowerInput(s, r, q).shared.conns && EventKept(r, s, LowerInput(s, r, q), p, event)
  {
    hide ClearEvent, IsEventSet;
  }

  lemma VisitKeepsEvent(s: Scan, r: Role, interfaces: seq<Option<nat>>, j: nat, p: Ptr, event: EventMask)
    requires j < |s.lfds| && p in s.shared.conns
    ensures p in Visit(s, r, interfaces, j).shared.conns && EventKept(r, s, Visit(s, r, interfaces, j), p, event)
  {
    hide RaiseInput, LowerInput, CompleteConnect, CheckAndSetEvents, SearchOnAnyIface, IsEventSet;
    var lfd := s.lfds[j];
    if lfd.active && lfd.slot < |s.fds| && s.fds[lfd.slot].active && Deref(s.shared, s.fds[lfd.slot].pConn).Some? {
      var q := s.fds[lfd.slot].pConn.value;
      RaiseKeepsEvent(s, r, j, q, p, event);
      LowerKeepsEvent(s, r, q, p, event);
      CheckKeepsEvent(s, r, j, q, false, lfd.events, p, event);
    }
  }

  /** No bit is cleared by a scan without being written to `events`. */
  lemma {:induction false} ScanKeepsEvent(s: Scan, r: Role, interfaces: seq<Option<nat>>, j: nat, maxevents: int,
                                          p: Ptr, event: EventMask)
    requires p in s.shared.conns
    ensures var t := ScanFrom(s, r, interfaces, j, maxevents);
            s.log <= t.log && p in t.shared.conns && EventKept(r, s, t, p, event)
    decreases |s.lfds| - j
  {
    if j < |s.lfds| && |s.log| < maxevents && !s.undefined {
      hide Visit, IsEventSet;
      var t := Visit(s, r, interfaces, j);
      VisitKeepsEvent(s, r, interfaces, j, p, event);
      VisitFrame(s, r, interfaces, j);
      ScanKeepsEvent(t, r, interfaces, j + 1, maxevents, p, event);
      var u := ScanFrom(t, r, interfaces, j + 1, maxevents);
      assert forall k | 0 <= k < |t.log| :: u.log[k] == t.log[k];
    }
  }

  // ---------- one step ----------

  lemma CreationKeepsHistory(r: Role, sh: Shared, l: Local, h: History, call: Call)
    requires HistoryOk(sh, h) && AllocationOk(r, sh, l, call) && (call.Connect? || call.ConnectEx?)
    ensures var e := Apply(r, sh, l, call);
            HistoryOk(e.shared, Observe(r, sh, l, h, call, e.out))
  {
    hide Apply, Creates, IsEventSet;
    CreationShape(r, sh, l, call);
  }

  lemma SendKeepsHistory(r: Role, sh: Shared, l: Local, h: History, num: int, data: seq<Byte>)
    requires HistoryOk(sh, h) && FdsOk(sh, l)
    ensures var e := DoSend(r, sh, l, num, data);
            HistoryOk(e.shared, Observe(r, sh, l, h, Send(num, data), e.out))
  {
    hide SetEvent, IsEventSet, FlowOk;
    var e := DoSend(r, sh, l, num, data);
    if e.out.Ret? {
      var i := FindFd(l.fds, num).value;
      var p := l.fds[i].pConn.value;
      assert FdOk(sh, l.fds[i]);
      SendKeepsFlow(sh.conns[p], r, data, h[p].To(Other(r)));
    }
  }

  /** One record and one of its flows are rewritten together. */
  lemma FlowRewritten(sh: Shared, h: History, p: Ptr, r: Role, c: Connection, f: Flow)
    requires HistoryOk(sh, h) && p in sh.conns && p in h && c.iface == sh.conns[p].iface
    requires FlowOk(c.Own(r), f) && c.Own(Other(r)) == sh.conns[p].Own(Other(r))
    ensures HistoryOk(sh.Put(p, c), h[p := h[p].WithTo(r, f)])
  {
    hide FlowOk;
  }

  lemma RecvKeepsHistory(r: Role, sh: Shared, l: Local, h: History, num: int, len: nat, dontwait: bool)
    requires HistoryOk(sh, h) && FdsOk(sh, l)
    ensures var e := DoRecv(r, sh, l, num, len, dontwait);
            HistoryOk(e.shared, Observe(r, sh, l, h, Recv(num, len, dontwait), e.out))
  {
    hide IsEventSet, FlowOk, RecvConnection, HistoryOk, FdsOk;
    var i := FindFd(l.fds, num);
    if i.Some? && l.fds[i.value].state == SOpen {
      assert FdOk(sh, l.fds[i.value]) by { SlotOk(sh, l, i.value); }
      var p := l.fds[i.value].pConn.value;
      assert p in h && FlowOk(sh.conns[p].Own(r), h[p].To(r)) by { FlowHere(sh, h, p, r); }
      var f := h[p].To(r);
      var got := RecvConnection(sh.conns[p], r, len);
      RecvKeepsFlow(sh.conns[p], r, len, f);
      RecvKeepsStates(sh.conns[p], r, len);
      FlowRewritten(sh, h, p, r, got.conn, f.(received := f.received + got.data));
      if got.data == [] {
        assert f.(received := f.received + got.data) == f && h[p := h[p].WithTo(r, f)] == h;
        if len > 0 { FlowRewritten(sh, h, p, r, got.conn, f.(drained := true)); }
      }
    }
  }

  lemma FlowHere(sh: Shared, h: History, p: Ptr, r: Role)
    requires HistoryOk(sh, h) && p in sh.conns && sh.conns[p].iface.Some?
    ensures p in h && FlowOk(sh.conns[p].Own(r), h[p].To(r))
  {
    hide FlowOk;
  }

  lemma MarkClosedKeepsFlows(c: Connection, r: Role, own: Flow, peer: Flow)
    requires FlowOk(c.Own(r), own) && FlowOk(c.Own(Other(r)), peer)
    ensures FlowOk(MarkClosed(c, r).Own(r), own) && FlowOk(MarkClosed(c, r).Own(Other(r)), peer.(hangup := true))
  {
    hide SetEvent, IsEventSet;
    SetEventSets(c.Own(Other(r)).events, EPOLLHUP);
    if peer.packet { SetEventKeeps(c.Own(Other(r)).events, EPOLLHUP, EPOLLIN); }
  }

  lemma CloseKeepsHistory(r: Role, sh: Shared, l: Local, h: History, num: int)
    requires HistoryOk(sh, h) && FdsOk(sh, l)
    ensures var e := DoClose(r, sh, l, num);
            HistoryOk(e.shared, Observe(r, sh, l, h, Close(num), e.out))
  {
    hide IsEventSet, FlowOk, MarkClosed;
    var i := FindFd(l.fds, num);
    if i.Some? && Deref(sh, l.fds[i.value].pConn).Some? {
      assert FdOk(sh, l.fds[i.value]);
      var p := l.fds[i.value].pConn.value;
      if sh.conns[p].connState == COpen {
        MarkClosedKeepsFlows(sh.conns[p], r, h[p].To(r), h[p].To(Other(r)));
      }
    }
  }

  /** A scan leaves the packets of a flow alone and reports every event bit it clears. */
  lemma ScanKeepsFlow(r: Role, s: Scan, interfaces: seq<Option<nat>>, maxevents: int, p: Ptr, f: Flow)
    requires p in s.shared.conns && FlowOk(s.shared.conns[p].Own(r), f) && s.log == []
    ensures var t := ScanFrom(s, r, interfaces, 0, maxevents);
            && p in t.shared.conns && t.shared.conns[p].iface == s.shared.conns[p].iface
            && FlowOk(t.shared.conns[p].Own(r), AfterReports(f, t.log, p))
            && t.shared.conns[p].Own(Other(r)) == s.shared.conns[p].Own(Other(r))
  {
    hide ScanFrom, IsEventSet, NoEmptyPacket, UnreadAll;
    ScanFromFrame(s, r, interfaces, 0, maxevents);
    ScanKeepsEvent(s, r, interfaces, 0, maxevents, p, EPOLLIN);
    ScanKeepsEvent(s, r, interfaces, 0, maxevents, p, EPOLLHUP);
  }

  lemma ScanKeepsKeys(r: Role, s: Scan, interfaces: seq<Option<nat>>, maxevents: int)
    ensures ScanFrom(s, r, interfaces, 0, maxevents).shared.conns.Keys == s.shared.conns.Keys
  {
    hide ScanFrom;
    ScanFromFrame(s, r, interfaces, 0, maxevents);
  }

  lemma ScanKeepsHistory(r: Role, sh: Shared, l: Local, h: History, epfd: int, maxevents: int)
    requires HistoryOk(sh, h)
    ensures var e := DoScan(r, sh, l, epfd, maxevents);
            HistoryOk(e.shared, Observe(r, sh, l, h, Wait(epfd, maxevents), e.out))
  {
    hide ScanFrom, FlowOk, AfterReports;
    var e := DoScan(r, sh, l, epfd, maxevents);
    if e.out.Events? {
      var s := StartScan(sh, l, FindPollfd(l, epfd).value);
      ScanKeepsKeys(r, s, l.interfaces, maxevents);
      forall p | p in sh.conns && sh.conns[p].iface.Some?
        ensures FlowOk(e.shared.conns[p].Own(r), AfterReports(h[p].To(r), e.out.log, p))
        ensures e.shared.conns[p].Own(Other(r)) == sh.conns[p].Own(Other(r))
      {
        ScanKeepsFlow(r, s, l.interfaces, maxevents, p, h[p].To(r));
      }
      forall p | p in sh.conns ensures e.shared.conns[p].iface == sh.conns[p].iface {
        ScanKeepsInterface(r, s, l.interfaces, maxevents, p);
      }
    }
  }

  lemma ScanKeepsInterface(r: Role, s: Scan, interfaces: seq<Option<nat>>, maxevents: int, p: Ptr)
    requires p in s.shared.conns
    ensures var t := ScanFrom(s, r, interfaces, 0, maxevents);
            p in t.shared.conns && t.shared.conns[p].iface == s.shared.conns[p].iface
  {
    hide ScanFrom;
    ScanFromFrame(s, r, interfaces, 0, maxevents);
  }

  lemma ApplyKeepsHistory(r: Role, sh: Shared, l: Local, h: History, call: Call)
    requires HistoryOk(sh, h) && FdsOk(sh, l) && AllocationOk(r, sh, l, call)
    ensures var e := Apply(r, sh, l, call); HistoryOk(e.shared, Observe(r, sh, l, h, call, e.out))
  {
    hide DoSend, DoRecv, DoClose, DoScan, DoConnect, DoConnectEx;
    match call
    case Connect(_, _, _, _) => CreationKeepsHistory(r, sh, l, h, call);
    case ConnectEx(_, _, _, _) => CreationKeepsHistory(r, sh, l, h, call);
    case Send(num, data) => SendKeepsHistory(r, sh, l, h, num, data);
    case Recv(num, len, dontwait) => RecvKeepsHistory(r, sh, l, h, num, len, dontwait);
    case Close(num) => CloseKeepsHistory(r, sh, l, h, num);
    case Wait(epfd, maxevents) => ScanKeepsHistory(r, sh, l, h, epfd, maxevents);
    case _ =>
  }

  // ---------- whole runs ----------

  /** The history of a run that starts with history `h`. */
  ghost function RunHistory(s: Sys, h: History, moves: seq<Move>): History
    decreases |moves|
  {
    if moves == [] then h
    else
      var m := moves[0];
      RunHistory(Step(s, m).0, Observe(m.role, s.shared, s.Loc(m.role), h, m.call, Step(s, m).1), moves[1..])
  }

  lemma {:induction false} RunKeepsHistory(s: Sys, h: History, moves: seq<Move>)
    requires SysInv(s) && HistoryOk(s.shared, h) && Playable(s, moves)
    ensures HistoryOk(Run(s, moves).shared, RunHistory(s, h, moves))
    decreases |moves|
  {
    hide Inv, HistoryOk, Apply, Observe;
    if moves != [] {
      var m := moves[0];
      StepKeepsInv(s, m);
      LocFdsOk(s, m.role);
      ApplyKeepsHistory(m.role, s.shared, s.Loc(m.role), h, m.call);
      RunKeepsHistory(Step(s, m).0, Observe(m.role, s.shared, s.Loc(m.role), h, m.call, Step(s, m).1), moves[1..]);
    }
  }

  lemma EmptyHistoryOk(s: Sys)
    requires Initial(s)
    ensures HistoryOk(s.shared, map[])
  {
  }

  lemma LocFdsOk(s: Sys, r: Role)
    requires SysInv(s)
    ensures FdsOk(s.shared, s.Loc(r))
  {
  }

  /**
   Byte pipes: for every interleaving and any buffer sizes, what was sent towards a role is what it
   has received followed by what is still queued for it.
   */
  lemma BytePipes(s: Sys, moves: seq<Move>, p: Ptr, r: Role)
    requires Initial(s) && Playable(s, moves)
    requires p in Run(s, moves).shared.conns && Run(s, moves).shared.conns[p].iface.Some?
    ensures var h := RunHistory(s, map[], moves);
            p in h && h[p].To(r).sent ==
              h[p].To(r).received + UnreadAll(Run(s, moves).shared.conns[p].Own(r).recvBuffer)
  {
    hide Run, RunHistory, Playable;
    InitialInv(s);
    RunKeepsHistory(s, map[], moves);
  }

  /**
   No lost wakeup: a packet (a hangup) that arrived after the last edge-triggered report of EPOLLIN
   (EPOLLHUP) leaves that bit set on the receiving end, whatever both processes did since.
   */
  lemma NoLostWakeup(s: Sys, moves: seq<Move>, p: Ptr, r: Role)
    requires Initial(s) && Playable(s, moves)
    requires p in Run(s, moves).shared.conns && Run(s, moves).shared.conns[p].iface.Some?
    ensures p in RunHistory(s, map[], moves)
    ensures var f := RunHistory(s, map[], moves)[p].To(r);
            var own := Run(s, moves).shared.conns[p].Own(r);
            (f.packet ==> IsEventSet(own.events, EPOLLIN)) && (f.hangup ==> IsEventSet(own.events, EPOLLHUP))
  {
    hide Run, RunHistory, Playable;
    InitialInv(s);
    RunKeepsHistory(s, map[], moves);
  }
}
