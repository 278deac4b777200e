/** sendmsg, with the peer free to act before every piece. */
module Messages {
  import opened Basics
  import opened Connections
  import opened Descriptors
  import opened Duplex
  import opened Reachability
  import opened Streams

  /**
   The state from which piece `i` on are sent, one after the other, with `gaps[i]` as the moves of the
   peer before piece `i`.
   */
  function SendPieces(s: Sys, r: Role, num: int, iov: seq<seq<Byte>>, gaps: seq<seq<Move>>, i: nat, sum: int): (Sys,
          Outcome)
    requires |gaps| == |iov| && i <= |iov|
    decreases |iov| - i
  {
    if i == |iov| then (s, Ret(sum))
    else
      var t := Step(Run(s, gaps[i]), Move(r, Send(num, iov[i])));
      if t.1.Ret? then SendPieces(t.0, r, num, iov, gaps, i + 1, sum + t.1.value) else t
  }

  /** What memory holds before each piece from `i` on. */
  function Before(s: Sys, r: Role, num: int, iov: seq<seq<Byte>>, gaps: seq<seq<Move>>,
                  i: nat): (snapshots: seq<Shared>)
    requires |gaps| == |iov| && i <= |iov|
    ensures |snapshots| == |iov| - i
    decreases |iov| - i
  {
    if i == |iov| then []
    else
      var s' := Run(s, gaps[i]);
      [s'.shared] + Before(Step(s', Move(r, Send(num, iov[i]))).0, r, num, iov, gaps, i + 1)
  }

  /** All gaps are moves of the peer that can be played when their turn comes. */
  ghost predicate GapsOk(s: Sys, r: Role, num: int, iov: seq<seq<Byte>>, gaps: seq<seq<Move>>, i: nat)
    requires |gaps| == |iov| && i <= |iov|
    decreases |iov| - i
  {
    i < |iov| ==>
      PeerMoves(r, gaps[i]) && Playable(s, gaps[i]) &&
      GapsOk(Step(Run(s, gaps[i]), Move(r, Send(num, iov[i]))).0, r, num, iov, gaps, i + 1)
  }

  /** The history after the pieces from `i` on. */
  ghost function PiecesHistory(s: Sys, h: History, r: Role, num: int, iov: seq<seq<Byte>>, gaps: seq<seq<Move>>,
                               i: nat): History
    requires |gaps| == |iov| && i <= |iov|
    decreases |iov| - i
  {
    if i == |iov| then h
    else
      var s' := Run(s, gaps[i]);
      var h' := RunHistory(s, h, gaps[i]);
      var t := Step(s', Move(r, Send(num, iov[i])));
      var h'' := Observe(r, s'.shared, s'.Loc(r), h', Send(num, iov[i]), t.1);
      if t.1.Ret? then PiecesHistory(t.0, h'', r, num, iov, gaps, i + 1) else h''
  }

  /** A move of the peer leaves our tables alone and sends nothing in our name. */
  lemma PeerStepKeepsSent(s: Sys, h: History, r: Role, m: Move, p: Ptr)
    requires m.role == Other(r) && AllocationOk(m.role, s.shared, s.Loc(m.role), m.call) && p in s.shared.conns &&
             p in h
    ensures Step(s, m).0.Loc(r) == s.Loc(r)
    ensures var h' := Observe(m.role, s.shared, s.Loc(m.role), h, m.call, Step(s, m).1);
            p in h' && SentMore(h[p].To(Other(r)), h'[p].To(Other(r)), [])
  {
    hide Apply, Reported, Concat, InterfaceBySockaddr, FindFd;
    assert Concat([]) == [] by { ConcatNothing(); }
  }

  lemma ConcatNothing()
    ensures Concat([]) == []
  {
  }

  /** The packets in `more` have been sent from `f` to `g`, and nothing else. */
  predicate SentMore(f: Flow, g: Flow, more: seq<seq<Byte>>) {
    g.packets == f.packets + more && g.sent == f.sent + Concat(more)
  }

  lemma SentTwice(f: Flow, g: Flow, k: Flow, some: seq<seq<Byte>>, more: seq<seq<Byte>>, all: seq<seq<Byte>>)
    requires SentMore(f, g, some) && SentMore(g, k, more) && all == some + more
    ensures SentMore(f, k, all)
  {
    hide Concat;
    ConcatSplit(some, more);
    assert (f.packets + some) + more == f.packets + (some + more);
    assert (f.sent + Concat(some)) + Concat(more) == f.sent + (Concat(some) + Concat(more));
  }

  lemma SentNothing(f: Flow)
    ensures SentMore(f, f, [])
  {
  }

  lemma {:induction false} PeerRunKeepsSent(s: Sys, h: History, r: Role, moves: seq<Move>, p: Ptr, i: nat)
    requires SysInv(s) && PeerMoves(r, moves) && Playable(s, moves) && p in h
    requires i < |s.Loc(r).fds| && s.Loc(r).fds[i].active && s.Loc(r).fds[i].pConn == Some(p)
    ensures Run(s, moves).Loc(r) == s.Loc(r)
    ensures p in RunHistory(s, h, moves) && SentMore(h[p].To(Other(r)), RunHistory(s, h, moves)[p].To(Other(r)), [])
    decreases |moves|
  {
    hide Inv, Step, Observe, SentMore;
    if moves == [] {
      SentNothing(h[p].To(Other(r)));
    } else {
      var m := moves[0];
      ReferencedIsLive(s, r, i);
      PeerStepKeepsSent(s, h, r, m, p);
      StepKeepsInv(s, m);
      var h' := Observe(m.role, s.shared, s.Loc(m.role), h, m.call, Step(s, m).1);
      PeerRunKeepsSent(Step(s, m).0, h', r, moves[1..], p, i);
      SentTwice(h[p].To(Other(r)), h'[p].To(Other(r)), RunHistory(s, h, moves)[p].To(Other(r)), [], [], []);
    }
  }

  lemma ReferencedIsLive(s: Sys, r: Role, i: nat)
    requires SysInv(s) && i < |s.Loc(r).fds| && s.Loc(r).fds[i].active && s.Loc(r).fds[i].pConn.Some?
    ensures s.Loc(r).fds[i].pConn.value in s.shared.conns
  {
    assert FdOk(s.shared, s.Loc(r).fds[i]);
  }

  /** One piece: sent in full, or refused because the peer has closed. */
  lemma SendPiece(s: Sys, h: History, r: Role, num: int, data: seq<Byte>, p: Ptr)
    requires SysInv(s) && p in h && ConnOf(s.Loc(r), num) == Some(p)
    requires FindFd(s.Loc(r).fds, num).Some? && s.Loc(r).fds[FindFd(s.Loc(r).fds, num).value].state == SOpen
    ensures var t := Step(s, Move(r, Send(num, data)));
            var h' := Observe(r, s.shared, s.Loc(r), h, Send(num, data), t.1);
            p in s.shared.conns && p in h' &&
            if s.shared.conns[p].connState == CClose
            then t.1 == Fail(-1, ENOTCONN) && SentMore(h[p].To(Other(r)), h'[p].To(Other(r)), []) &&
                 t.0.shared == s.shared
            else t.1 == Ret(|data|) && SentMore(h[p].To(Other(r)), h'[p].To(Other(r)), [data]) && t.0.Loc(r) == s.Loc(r)
  {
    hide SysInv, SendConnection;
    ReferencedIsLive(s, r, FindFd(s.Loc(r).fds, num).value);
    assert Concat([data]) == data + Concat([]);
  }

  /**
   The pieces before the first refusal become one packet each, in order; the call returns the sum of all
   lengths, or -1 when the peer closed in between.
   */
  lemma {:induction false} PiecesSent(s: Sys, h: History, r: Role, num: int, iov: seq<seq<Byte>>, gaps: seq<seq<Move>>,
                                      i: nat, sum: int, p: Ptr)
    returns (done: nat)
    requires |gaps| == |iov| && i <= |iov| && SysInv(s) && p in h && GapsOk(s, r, num, iov, gaps, i)
    requires FindFd(s.Loc(r).fds, num).Some? && s.Loc(r).fds[FindFd(s.Loc(r).fds, num).value].state == SOpen
    requires ConnOf(s.Loc(r), num) == Some(p)
    ensures i <= done <= |iov|
    ensures var t := SendPieces(s, r, num, iov, gaps, i, sum);
            var h' := PiecesHistory(s, h, r, num, iov, gaps, i);
            && p in h' && SentMore(h[p].To(Other(r)), h'[p].To(Other(r)), iov[i..done])
            && (if done == |iov| then t.1 == Ret(sum + |Concat(iov[i..])|)
                else t.1 == Fail(-1, ENOTCONN) && p in t.0.shared.conns && t.0.shared.conns[p].connState == CClose)
    decreases |iov| - i
  {
    hide SysInv, Step, Run, RunHistory, Observe, Playable, PeerMoves, FindFd, SentMore;
    var f := h[p].To(Other(r));
    if i == |iov| {
      done := i;
      assert iov[i..] == [] && iov[i..done] == [];
      SentNothing(f);
    } else {
      var s' := Run(s, gaps[i]);
      var h' := RunHistory(s, h, gaps[i]);
      SlotOf(s.Loc(r), num);
      PeerRunKeepsSent(s, h, r, gaps[i], p, FindFd(s.Loc(r).fds, num).value);
      RunKeepsInv(s, gaps[i]);
      SendPiece(s', h', r, num, iov[i], p);
      var m := Move(r, Send(num, iov[i]));
      var t := Step(s', m);
      var h'' := Observe(r, s'.shared, s'.Loc(r), h', Send(num, iov[i]), t.1);
      assert AllocationOk(r, s'.shared, s'.Loc(r), m.call);
      StepKeepsInv(s', m);
      if t.1.Ret? {
        done := PiecesSent(t.0, h'', r, num, iov, gaps, i + 1, sum + |iov[i]|, p);
        var last := PiecesHistory(t.0, h'', r, num, iov, gaps, i + 1)[p].To(Other(r));
        SentTwice(f, h'[p].To(Other(r)), h''[p].To(Other(r)), [], [iov[i]], [iov[i]]);
        SentTwice(f, h''[p].To(Other(r)), last, [iov[i]], iov[i + 1..done], iov[i..done]);
        assert iov[i..][0] == iov[i] && iov[i..][1..] == iov[i + 1..];
      } else {
        done := i;
        SentTwice(f, h'[p].To(Other(r)), h''[p].To(Other(r)), [], [], iov[i..i]);
      }
    }
  }

  /** The loop in the two-process system is the loop of sendmsg on the memory each piece meets. */
  lemma {:induction false} PiecesAgree(s: Sys, r: Role, num: int, iov: seq<seq<Byte>>, gaps: seq<seq<Move>>, i: nat,
                                       sum: int, past: seq<Shared>)
    requires |gaps| == |iov| && i <= |iov| && |past| == i
    requires forall k | 0 <= k < |gaps| :: PeerMoves(r, gaps[k])
    ensures var t := SendPieces(s, r, num, iov, gaps, i, sum);
            var e := DoSendPieces(r, s.shared, s.Loc(r), num, iov, past + Before(s, r, num, iov, gaps, i), i, sum);
            t.1 == e.out && t.0.Loc(r) == e.local && t.0.shared == e.shared
    decreases |iov| - i
  {
    hide DoSend, PeerMoves;
    if i < |iov| {
      var s' := Run(s, gaps[i]);
      PeersKeepTables(s, r, gaps[i]);
      var t := Step(s', Move(r, Send(num, iov[i])));
      var all := past + Before(s, r, num, iov, gaps, i);
      assert all[i] == s'.shared;
      if t.1.Ret? {
        PiecesAgree(t.0, r, num, iov, gaps, i + 1, sum + t.1.value, past + [s'.shared]);
        assert past + [s'.shared] + Before(t.0, r, num, iov, gaps, i + 1) == all;
      }
    }
  }

  lemma SlotOf(l: Local, num: int)
    requires FindFd(l.fds, num).Some?
    ensures FindFd(l.fds, num).value < |l.fds| && l.fds[FindFd(l.fds, num).value].active
  {
  }

  /**
   sendmsg over whole runs, with the peer free to act before every piece: it sends a prefix of the pieces,
   exactly one packet each and nothing else. It returns the total length if the prefix is everything;
   otherwise it returns -1, and then the peer has closed the connection.
   */
  lemma SendMsgSendsPrefix(s: Sys, moves: seq<Move>, r: Role, num: int, iov: seq<seq<Byte>>, gaps: seq<seq<Move>>,
                           p: Ptr)
    returns (done: nat)
    requires Initial(s) && Playable(s, moves) && |gaps| == |iov| && GapsOk(Run(s, moves), r, num, iov, gaps, 0)
    requires forall k | 0 <= k < |gaps| :: PeerMoves(r, gaps[k])
    requires var l := Run(s, moves).Loc(r);
             FindFd(l.fds, num).Some? && l.fds[FindFd(l.fds, num).value].state == SOpen && ConnOf(l, num) == Some(p)
    requires p in Run(s, moves).shared.conns && Run(s, moves).shared.conns[p].connState != CClose
    requires p in RunHistory(s, map[], moves)
    ensures done <= |iov|
    ensures var t := Run(s, moves);
            var h := RunHistory(s, map[], moves);
            var h' := PiecesHistory(t, h, r, num, iov, gaps, 0);
            var e := DoSendMsg(r, t.shared, t.Loc(r), num, iov, Before(t, r, num, iov, gaps, 0));
            && p in h' && h'[p].To(Other(r)).packets == h[p].To(Other(r)).packets + iov[..done]
            && h'[p].To(Other(r)).sent == h[p].To(Other(r)).sent + Concat(iov[..done])
            && (if done == |iov| then e.out == Ret(|Concat(iov)|)
                else e.out == Fail(-1, ENOTCONN) && p in e.shared.conns && e.shared.conns[p].connState == CClose)
  {
    hide SysInv, Run, RunHistory, Playable, FindFd, SendPieces, PiecesHistory, GapsOk, PeerMoves;
    InitialInv(s);
    RunKeepsInv(s, moves);
    var t := Run(s, moves);
    done := PiecesSent(t, RunHistory(s, map[], moves), r, num, iov, gaps, 0, 0, p);
    assert iov[0..done] == iov[..done] && iov[0..] == iov;
    PiecesAgree(t, r, num, iov, gaps, 0, 0, []);
    assert [] + Before(t, r, num, iov, gaps, 0) == Before(t, r, num, iov, gaps, 0);
  }
}
