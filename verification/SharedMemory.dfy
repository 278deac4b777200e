/** util.c and list.c in place: the shared region, its interfaces and its connection records. */
module SharedRegion {
  import opened Basics
  import opened Connections

  class SharedMemory {
    var ifaces: seq<Interface>
    var conns: map<Ptr, Connection>

    function View(): Shared
      reads this
    {
      Shared(ifaces, conns)
    }

    /** Every list entry points at a record of that interface. */
    ghost predicate Valid()
      reads this
    {
      ListsPoint(View())
    }

    constructor (ifaces: seq<Interface>)
      requires forall k | 0 <= k < |ifaces| :: ifaces[k].connectionList == []
      ensures View() == Shared(ifaces, map[]) && Valid()
    {
      this.ifaces, conns := ifaces, map[];
    }

    /** While a process sleeps the peer may write anything. */
    method Sleep(after: Shared)
      modifies this
      ensures View() == after
    {
      ifaces, conns := after.ifaces, after.conns;
    }

    /** llist_remove: finds the first occurrence of `p` and removes it; false when there is none. */
    method ListRemove(iface: nat, p: Ptr) returns (found: bool)
      requires iface < |ifaces|
      modifies this`ifaces
      ensures found <==> p in old(ifaces)[iface].connectionList
      ensures ifaces == old(ifaces)[iface :=
                                    old(ifaces)[iface].(connectionList :=
                                                        RemoveFirst(old(ifaces)[iface].connectionList, p))]
    {
      var list := ifaces[iface].connectionList;
      var i := 0;
      while i < |list|
        invariant 0 <= i <= |list|
        invariant ifaces == old(ifaces)
        invariant forall k | 0 <= k < i :: list[k] != p
      {
        if list[i] == p {
          assert FirstIndex(list, (q: Ptr) => q == p) == Some(i);
          ifaces := ifaces[iface := ifaces[iface].(connectionList := list[..i] + list[i + 1..])];
          return true;
        }
        i := i + 1;
      }
      assert ifaces[iface := ifaces[iface].(connectionList := list)] == ifaces;
      return false;
    }

    method SearchNewConnectionOnIface(r: Role, iface: nat, port: int) returns (p: Option<Ptr>)
      requires Valid() && iface < |ifaces|
      ensures p == SearchOnIface(View(), r, iface, port)
    {
      var list := ifaces[iface].connectionList;
      var i := 0;
      while i < |list|
        invariant 0 <= i <= |list|
        invariant forall k | 0 <= k < i :: !Pending(View(), r, port, list[k])
      {
        var c := conns[list[i]];
        if c.connState == CCreate && c.Own(r).port == port {
          return Some(list[i]);
        }
        i := i + 1;
      }
      return None;
    }

    /** The search behind readiness: interface addresses must match exactly. */
    method SearchNewConnectionOnAnyIface(r: Role, interfaces: array<Option<nat>>, addr: int, port: int)
      returns (p: Option<Ptr>)
      requires Valid() && TableInRange(View(), interfaces[..])
      ensures p == SearchOnAnyIface(View(), r, interfaces[..], addr, port)
    {
      hide PickOnTable, SearchOnIface;
      var i := 0;
      while i < interfaces.Length
        invariant 0 <= i <= interfaces.Length
        invariant forall k | 0 <= k < i :: !Offers(View(), r, interfaces[..][k], addr, port, false)
      {
        var e := interfaces[i];
        if e.Some? && ifaces[e.value].OwnAddress(r) == addr {
          p := SearchNewConnectionOnIface(r, e.value, port);
          if p.Some? {
            PickFirst(View(), r, interfaces[..], addr, port, false, i);
            return;
          }
        }
        i := i + 1;
      }
      PickNothing(View(), r, interfaces[..], addr, port, false);
      return None;
    }

    method AcceptNewConnectionOnIface(r: Role, iface: nat, port: int) returns (p: Option<Ptr>)
      requires Valid() && iface < |ifaces|
      modifies this
      ensures p == SearchOnIface(old(View()), r, iface, port)
      ensures View() == Accepting(old(View()), p)
    {
      p := SearchNewConnectionOnIface(r, iface, port);
      if p.Some? {
        conns := conns[p.value := conns[p.value].(connState := COpen)];
      }
    }

    /** The search behind accept: address 0 matches every interface. */
    method AcceptNewConnectionOnAnyIface(r: Role, interfaces: array<Option<nat>>, addr: int, port: int)
      returns (p: Option<Ptr>)
      requires Valid() && TableInRange(View(), interfaces[..])
      modifies this
      ensures p == AcceptOnAnyIface(old(View()), r, interfaces[..], addr, port)
      ensures View() == Accepting(old(View()), p)
    {
      hide PickOnTable, SearchOnIface;
      var i := 0;
      while i < interfaces.Length
        invariant 0 <= i <= interfaces.Length
        invariant View() == old(View())
        invariant forall k | 0 <= k < i :: !Offers(View(), r, interfaces[..][k], addr, port, addr == 0)
      {
        var e := interfaces[i];
        if e.Some? && (addr == 0 || ifaces[e.value].OwnAddress(r) == addr) {
          p := AcceptNewConnectionOnIface(r, e.value, port);
          if p.Some? {
            PickFirst(old(View()), r, interfaces[..], addr, port, addr == 0, i);
            return;
          }
          assert View() == old(View());
        }
        i := i + 1;
      }
      PickNothing(View(), r, interfaces[..], addr, port, addr == 0);
      return None;
    }

    /** Allocates a record; malloc returns `block`. */
    method CreateNewConnection(r: Role, iface: nat, ownPort: int, remotePort: int, block: Ptr)
      requires block !in conns
      modifies this`conns
      ensures conns == old(conns)[block := NewConnection(r, iface, ownPort, remotePort)]
    {
      var own := Half([], 0, 0, ownPort);
      var remote := Half([], 0, 0, remotePort);
      var blank := Connection(CCreate, Some(iface), own, own);
      conns := conns[block := blank.WithOwn(r, own).WithOwn(Other(r), remote)];
    }

    method InitiateNewConnection(block: Ptr)
      requires block in conns && conns[block].iface.Some? && conns[block].iface.value < |ifaces|
      modifies this`ifaces
      ensures View() == Publish(old(View()), block, conns[block])
    {
      var k := conns[block].iface.value;
      ifaces := ifaces[k := ifaces[k].(connectionList := [block] + ifaces[k].connectionList)];
      assert conns[block := conns[block]] == conns;
    }

    method RemoveConnectionAt(p: Ptr)
      requires p in conns && conns[p].iface.Some? && conns[p].iface.value < |ifaces|
      modifies this
      ensures View() == RemoveConnection(old(View()), p)
    {
      var found := ListRemove(conns[p].iface.value, p);
      conns := conns - {p};
    }

    method CloseConnection(r: Role, p: Ptr)
      requires p in conns
      requires RemovedByClose(conns[p]) ==> conns[p].iface.Some? && conns[p].iface.value < |ifaces|
      modifies this
      ensures var c := old(conns)[p];
              View() == if RemovedByClose(c) then RemoveConnection(old(View()), p)
                else old(View()).Put(p, MarkClosed(c, r))
    {
      if conns[p].connState == CClose {
        RemoveConnectionAt(p);
      } else if conns[p].connState == CCreate {
        RemoveConnectionAt(p);
      } else {
        var c := conns[p].(connState := CClose);
        var peer := c.Own(Other(r));
        conns := conns[p := c.WithOwn(Other(r), peer.(events := SetEvent(peer.events, EPOLLHUP)))];
      }
    }

    method SendOn(r: Role, p: Ptr, data: seq<Byte>) returns (sent: nat)
      requires p in conns
      modifies this`conns
      ensures conns == old(conns)[p := SendConnection(old(conns)[p], r, data)] && sent == |data|
    {
      var b: Packet := BufferEntry(data, 0, |data|);
      var peer := conns[p].Own(Other(r));
      conns := conns[p := conns[p].WithOwn(Other(r), peer.(recvBuffer := peer.recvBuffer + [b]))];
      peer := conns[p].Own(Other(r));
      conns := conns[p := conns[p].WithOwn(Other(r), peer.(events := SetEvent(peer.events, EPOLLIN)))];
      return |data|;
    }

    method RecvOn(r: Role, p: Ptr, len: nat) returns (data: seq<Byte>)
      requires p in conns
      modifies this`conns
      ensures var got := RecvConnection(old(conns)[p], r, len); conns == old(conns)[p := got.conn] && data == got.data
    {
      var own := conns[p].Own(r);
      if own.recvBuffer == [] {
        assert conns[p := conns[p]] == conns;
        return [];
      }
      var b := own.recvBuffer[0];
      if len >= b.datasize {
        data := b.data[b.offset..b.offset + b.datasize];
        conns := conns[p := conns[p].WithOwn(r, own.(recvBuffer := own.recvBuffer[1..]))];
      } else {
        data := b.data[b.offset..b.offset + len];
        var rest: Packet := BufferEntry(b.data, b.offset + len, b.datasize - len);
        conns := conns[p := conns[p].WithOwn(r, own.(recvBuffer := own.recvBuffer[0 := rest]))];
        assert own.recvBuffer[0 := rest] == [rest] + own.recvBuffer[1..];
      }
    }

    /** setLevelTriggeredEvents: recomputes the level mask from the queue and the state. */
    method SetLevelTriggeredEvents(r: Role, p: Ptr)
      requires p in conns
      modifies this`conns
      ensures conns == old(conns)[p :=
                                  old(conns)[p].WithOwn(r, old(conns)[p].Own(r).(ltEvents :=
                                    LevelMask(old(conns)[p], r)))]
    {
      var lt: EventMask := 0;
      if conns[p].Own(r).recvBuffer != [] {
        lt := SetEvent(lt, EPOLLIN);
      }
      lt := SetEvent(lt, EPOLLOUT);
      if conns[p].connState == CClose {
        lt := SetEvent(lt, EPOLLHUP);
      }
      conns := conns[p := conns[p].WithOwn(r, conns[p].Own(r).(ltEvents := lt))];
    }
  }

  ghost predicate ListsPoint(sh: Shared) {
    forall k, p | 0 <= k < |sh.ifaces| && p in sh.ifaces[k].connectionList ::
      p in sh.conns && sh.conns[p].iface == Some(k)
  }

  predicate TableInRange(sh: Shared, interfaces: seq<Option<nat>>) {
    forall e | e in interfaces :: e.Some? ==> e.value < |sh.ifaces|
  }

  /** Shared memory after an accept that took `p`. */
  function Accepting(sh: Shared, p: Option<Ptr>): Shared {
    if p.Some? && p.value in sh.conns then sh.Put(p.value, sh.conns[p.value].(connState := COpen)) else sh
  }
}
