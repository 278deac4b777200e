/** End of file is exact, and reading a queue takes a known number of calls. */
module Draining {
  import opened Basics
  import opened Connections
  import opened Descriptors
  import opened Duplex
  import opened Reachability
  import opened Streams

  /** recvConnection returns nothing: no packet, no room, or an empty packet in front. */
  predicate NothingRead(c: Connection, r: Role, len: nat) {
    var q := c.Own(r).recvBuffer;
    q == [] || len == 0 || q[0].datasize == 0
  }

  lemma NothingReadExactly(c: Connection, r: Role, len: nat)
    ensures RecvConnection(c, r, len).data == [] <==> NothingRead(c, r, len)
  {
    var q := c.Own(r).recvBuffer;
    if q != [] {
      assert |Unread(q[0])| == q[0].datasize;
    }
  }

  /** The descriptor is open and its connection has been closed by the peer. */
  predicate OpenOnClosed(sh: Shared, l: Local, num: int) {
    && FindFd(l.fds, num).Some? && l.fds[FindFd(l.fds, num).value].state == SOpen
    && Deref(sh, ConnOf(l, num)).Some? && Deref(sh, ConnOf(l, num)).value.connState == CClose
  }

  /** Exactly when recv reports end of file, for all lengths and packets. */
  lemma EofExactly(r: Role, sh: Shared, l: Local, num: int, len: nat, dontwait: bool)
    ensures DoRecv(r, sh, l, num, len, dontwait).out == Eof <==>
            OpenOnClosed(sh, l, num) && NothingRead(sh.conns[ConnOf(l, num).value], r, len)
  {
    if Deref(sh, ConnOf(l, num)).Some? {
      NothingReadExactly(sh.conns[ConnOf(l, num).value], r, len);
    }
  }

  /**
   "recv returned 0" means "everything was read" on a closed connection if and only if the caller
   offers room and the packet in front is not empty (or nothing is left anyway).
   */
  lemma EofHonestExactly(r: Role, sh: Shared, l: Local, num: int, len: nat, dontwait: bool)
    requires OpenOnClosed(sh, l, num)
    ensures var q := sh.conns[ConnOf(l, num).value].Own(r).recvBuffer;
            (DoRecv(r, sh, l, num, len, dontwait).out == Eof ==> UnreadAll(q) == []) <==>
            UnreadAll(q) == [] || (len > 0 && q[0].datasize > 0)
  {
    EofExactly(r, sh, l, num, len, dontwait);
  }

  /**
   The failing case is a loss, not a delay: a read with no room on a closed connection marks the
   descriptor closed, so that the unread bytes can never be fetched.
   */
  lemma EmptyReadLosesBytes(r: Role, sh: Shared, l: Local, num: int, dontwait: bool, len: nat)
    requires OpenOnClosed(sh, l, num) && UnreadAll(sh.conns[ConnOf(l, num).value].Own(r).recvBuffer) != []
    ensures var e := DoRecv(r, sh, l, num, 0, dontwait);
            e.out == Eof && DoRecv(r, e.shared, e.local, num, len, dontwait).out == Fail(-1, EBADF)
  {
    EofExactly(r, sh, l, num, 0, dontwait);
    var i := FindFd(l.fds, num).value;
    var l' := l.WithFd(i, l.fds[i].(state := SClose));
    SameNumbersFound(l.fds, l'.fds, num);
  }

  /** The descriptor is open and so is its connection. */
  predicate OpenOnOpen(sh: Shared, l: Local, num: int) {
    && FindFd(l.fds, num).Some? && l.fds[FindFd(l.fds, num).value].state == SOpen
    && Deref(sh, ConnOf(l, num)).Some? && Deref(sh, ConnOf(l, num)).value.connState != CClose
  }

  /** Exactly when recv finds nothing on an open connection: it fails with EAGAIN or waits. */
  lemma EmptyHandedExactly(r: Role, sh: Shared, l: Local, num: int, len: nat, dontwait: bool)
    ensures var nonblock := dontwait || (FindFd(l.fds, num).Some? && l.fds[FindFd(l.fds, num).value].nonblock);
            DoRecv(r, sh, l, num, len, dontwait).out == (if nonblock then Fail(-1, EAGAIN) else Blocked) <==>
            OpenOnOpen(sh, l, num) && NothingRead(sh.conns[ConnOf(l, num).value], r, len)
  {
    hide RecvConnection, NothingRead;
    if Deref(sh, ConnOf(l, num)).Some? {
      NothingReadExactly(sh.conns[ConnOf(l, num).value], r, len);
    }
  }

  /**
   "recv found nothing" means "nothing is unread" if and only if the caller offers room and the packet in
   front is not empty (or nothing is unread anyway): an empty packet in front hides the data behind it.
   */
  lemma EmptyHandedHonestExactly(r: Role, sh: Shared, l: Local, num: int, len: nat, dontwait: bool)
    requires OpenOnOpen(sh, l, num)
    ensures var q := sh.conns[ConnOf(l, num).value].Own(r).recvBuffer;
            var out := DoRecv(r, sh, l, num, len, dontwait).out;
            (out == Fail(-1, EAGAIN) || out == Blocked ==> UnreadAll(q) == []) <==>
            UnreadAll(q) == [] || (len > 0 && q[0].datasize > 0)
  {
    EmptyHandedExactly(r, sh, l, num, len, dontwait);
  }

  lemma {:induction false} NonEmptyPacketsHaveBytes(q: seq<Packet>)
    requires NoEmptyPacket(q)
    ensures |q| <= |UnreadAll(q)|
  {
    if q != [] {
      NonEmptyPacketsHaveBytes(q[1..]);
    }
  }

  lemma EofExactInState(r: Role, sh: Shared, l: Local, h: History, num: int, len: nat, dontwait: bool, p: Ptr)
    requires FdsOk(sh, l) && HistoryOk(sh, h) && len > 0
    requires FindFd(l.fds, num).Some? && l.fds[FindFd(l.fds, num).value].state == SOpen && ConnOf(l, num) == Some(p)
    requires p in h && h[p].To(r).solid
    ensures p in sh.conns
    ensures DoRecv(r, sh, l, num, len, dontwait).out == Eof <==>
            sh.conns[p].connState == CClose && h[p].To(r).received == h[p].To(r).sent
  {
    hide DoRecv, IsEventSet;
    assert FdOk(sh, l.fds[FindFd(l.fds, num).value]);
    EofExactly(r, sh, l, num, len, dontwait);
    var q := sh.conns[p].Own(r).recvBuffer;
    var f := h[p].To(r);
    assert FlowOk(sh.conns[p].Own(r), f);
    NonEmptyPacketsHaveBytes(q);
    assert |f.sent| == |f.received| + |UnreadAll(q)|;
    if q == [] {
      assert f.received + UnreadAll(q) == f.received;
    }
  }

  /**
   End of file is exact over whole runs: if nobody sent this role an empty packet and the caller
   offers room, recv returns 0 if and only if the peer has closed and everything it ever sent on the
   connection has been returned.
   */
  lemma EofMeansAllReceived(s: Sys, moves: seq<Move>, r: Role, num: int, len: nat, dontwait: bool, p: Ptr)
    requires Initial(s) && Playable(s, moves) && len > 0
    requires var l := Run(s, moves).Loc(r);
             FindFd(l.fds, num).Some? && l.fds[FindFd(l.fds, num).value].state == SOpen && ConnOf(l, num) == Some(p)
    requires p in RunHistory(s, map[], moves) && RunHistory(s, map[], moves)[p].To(r).solid
    ensures p in Run(s, moves).shared.conns
    ensures var t := Run(s, moves); var f := RunHistory(s, map[], moves)[p].To(r);
            Step(t, Move(r, Recv(num, len, dontwait))).1 == Eof <==>
            t.shared.conns[p].connState == CClose && f.received == f.sent
  {
    hide Run, RunHistory, Playable, Initial, DoRecv, HistoryOk, FdsOk;
    var t := Run(s, moves);
    InitialInv(s);
    assert HistoryOk(s.shared, map[]) by { EmptyHistoryOk(s); }
    RunKeepsInv(s, moves);
    RunKeepsHistory(s, map[], moves);
    LocFdsOk(t, r);
    EofExactInState(r, t.shared, t.Loc(r), RunHistory(s, map[], moves), num, len, dontwait, p);
  }

  // ---------- counting calls ----------

  /** How many reads of length `len` a packet of `size` bytes takes. */
  function Pieces(size: nat, len: nat): nat
    requires len > 0
  {
    if size <= len then 1 else 1 + Pieces(size - len, len)
  }

  lemma QuotientIs(x: int, len: nat, k: int, rest: nat)
    requires len > 0 && rest < len && x == k * len + rest
    ensures x / len == k
  {
    var d := x / len - k;
    assert d * len == rest - x % len;
    assert d >= 1 ==> d * len >= len;
    assert d <= -1 ==> d * len <= -1 * len;
  }

  lemma QuotientStep(x: nat, len: nat)
    requires len > 0
    ensures (x + len) / len == x / len + 1
  {
    assert x + len == (x / len + 1) * len + x % len;
    QuotientIs(x + len, len, x / len + 1, x % len);
  }

  /** That number is the size divided by the length, rounded up. */
  lemma {:induction false} PiecesIsCeiling(size: nat, len: nat)
    requires len > 0 && size > 0
    ensures Pieces(size, len) == (size + len - 1) / len
  {
    if size <= len {
      QuotientIs(size + len - 1, len, 1, size - 1);
    } else {
      PiecesIsCeiling(size - len, len);
      QuotientStep(size - 1, len);
    }
  }

  function Reads(queue: seq<Packet>, len: nat): nat
    requires len > 0
  {
    if queue == [] then 0 else Pieces(queue[0].datasize, len) + Reads(queue[1..], len)
  }

  /** `n` reads in a row, with all the bytes they return. */
  function ReadTimes(c: Connection, r: Role, len: nat, n: nat): Received
    decreases n
  {
    if n == 0 then Received(c, [])
    else
      var first := RecvConnection(c, r, len);
      var rest := ReadTimes(first.conn, r, len, n - 1);
      Received(rest.conn, first.data + rest.data)
  }

  /** A read never crosses a packet boundary: it takes exactly one piece off the count. */
  lemma ReadTakesOnePiece(c: Connection, r: Role, len: nat)
    requires len > 0 && c.Own(r).recvBuffer != [] && NoEmptyPacket(c.Own(r).recvBuffer)
    ensures var got := RecvConnection(c, r, len);
            && NoEmptyPacket(got.conn.Own(r).recvBuffer)
            && got.data != [] && |got.data| <= len
            && Reads(got.conn.Own(r).recvBuffer, len) == Reads(c.Own(r).recvBuffer, len) - 1
            && UnreadAll(c.Own(r).recvBuffer) == got.data + UnreadAll(got.conn.Own(r).recvBuffer)
  {
    hide UnreadAll;
    var q := c.Own(r).recvBuffer;
    var rest := RecvConnection(c, r, len).conn.Own(r).recvBuffer;
    ReadMovesBytes(q, c, r, len);
    NothingReadExactly(c, r, len);
    if len < q[0].datasize {
      PartialRead(q, rest, len);
    }
  }

  lemma PiecesStep(size: nat, len: nat)
    requires 0 < len < size
    ensures Pieces(size, len) == 1 + Pieces(size - len, len)
  {
  }

  lemma ReadsFirst(q: seq<Packet>, len: nat)
    requires len > 0 && q != []
    ensures Reads(q, len) == Pieces(q[0].datasize, len) + Reads(q[1..], len)
  {
  }

  lemma PartialRead(q: seq<Packet>, rest: seq<Packet>, len: nat)
    requires q != [] && 0 < len < q[0].datasize && NoEmptyPacket(q)
    requires rest == [BufferEntry(q[0].data, q[0].offset + len, q[0].datasize - len)] + q[1..]
    ensures NoEmptyPacket(rest) && Reads(rest, len) == Reads(q, len) - 1
  {
    hide Pieces, Reads;
    assert rest[1..] == q[1..] && rest[0].datasize == q[0].datasize - len;
    PiecesStep(q[0].datasize, len);
    ReadsFirst(q, len);
    ReadsFirst(rest, len);
  }

  lemma ReadEmpty(c: Connection, r: Role, len: nat)
    requires c.Own(r).recvBuffer == []
    ensures RecvConnection(c, r, len) == Received(c, [])
  {
  }

  /**
   Draining packets of sizes s1..sk with a fixed buffer of L bytes takes exactly the sum of
   ceil(si / L) reads, and they return the queued bytes in order.
   */
  lemma {:induction false} DrainCount(c: Connection, r: Role, len: nat, n: nat)
    requires len > 0 && NoEmptyPacket(c.Own(r).recvBuffer)
    ensures ReadTimes(c, r, len, n).conn.Own(r).recvBuffer == [] <==> n >= Reads(c.Own(r).recvBuffer, len)
    ensures UnreadAll(c.Own(r).recvBuffer) ==
            ReadTimes(c, r, len, n).data + UnreadAll(ReadTimes(c, r, len, n).conn.Own(r).recvBuffer)
    decreases n
  {
    hide RecvConnection, NoEmptyPacket, UnreadAll;
    var q := c.Own(r).recvBuffer;
    if n > 0 {
      var first := RecvConnection(c, r, len);
      if q != [] {
        ReadTakesOnePiece(c, r, len);
      } else {
        ReadEmpty(c, r, len);
      }
      DrainCount(first.conn, r, len, n - 1);
      var rest := ReadTimes(first.conn, r, len, n - 1);
      assert first.data + (rest.data + UnreadAll(rest.conn.Own(r).recvBuffer)) ==
             (first.data + rest.data) + UnreadAll(rest.conn.Own(r).recvBuffer);
    }
  }

  lemma {:induction false} ReadsBound(q: seq<Packet>, len: nat)
    requires len > 0 && NoEmptyPacket(q)
    ensures Reads(q, len) <= |UnreadAll(q)|
  {
    if q != [] {
      PiecesBound(q[0].datasize, len);
      ReadsBound(q[1..], len);
    }
  }

  lemma {:induction false} PiecesBound(size: nat, len: nat)
    requires len > 0 && size > 0
    ensures Pieces(size, len) <= size
  {
    if size > len {
      PiecesBound(size - len, len);
    }
  }

  /** What calling recv until it returns no data yields: the bytes, the number of calls, the last outcome. */
  datatype Drained = Drained(bytes: seq<Byte>, calls: nat, last: Outcome)

  function RecvUntilEnd(r: Role, sh: Shared, l: Local, num: int, len: nat, fuel: nat): Drained
    decreases fuel
  {
    var e := DoRecv(r, sh, l, num, len, true);
    if fuel == 0 || !e.out.Data? then Drained([], 1, e.out)
    else
      var rest := RecvUntilEnd(r, e.shared, e.local, num, len, fuel - 1);
      Drained(e.out.bytes + rest.bytes, rest.calls + 1, rest.last)
  }

  /**
   On a closed connection with n unread bytes in non-empty packets, calling recv returns exactly
   those bytes and then end of file, after ceil-many plus one calls and at most n + 1.
   */
  lemma {:induction false} DrainReachesEof(r: Role, sh: Shared, l: Local, num: int, len: nat, fuel: nat)
    requires len > 0 && OpenOnClosed(sh, l, num)
    requires NoEmptyPacket(sh.conns[ConnOf(l, num).value].Own(r).recvBuffer)
    requires fuel >= Reads(sh.conns[ConnOf(l, num).value].Own(r).recvBuffer, len)
    ensures var q := sh.conns[ConnOf(l, num).value].Own(r).recvBuffer;
            var d := RecvUntilEnd(r, sh, l, num, len, fuel);
            d.last == Eof && d.bytes == UnreadAll(q) && d.calls == Reads(q, len) + 1 && d.calls <= |UnreadAll(q)| + 1
    decreases fuel
  {
    var p := ConnOf(l, num).value;
    var c := sh.conns[p];
    var q := c.Own(r).recvBuffer;
    EofExactly(r, sh, l, num, len, true);
    ReadsBound(q, len);
    if q != [] {
      ReadTakesOnePiece(c, r, len);
      RecvKeepsStates(c, r, len);
      var e := DoRecv(r, sh, l, num, len, true);
      assert e.local == l && e.shared == sh.Put(p, RecvConnection(c, r, len).conn);
      DrainReachesEof(r, e.shared, l, num, len, fuel - 1);
    }
  }
}
