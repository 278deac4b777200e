/**
 The connection record and the operations of util.c on it, as functions on values.

 A connection is one record in shared memory. The server and the client compile its fields in
 opposite order, so each physical field is "own" for one role and "remote" for the other. Here the
 record holds one `Half` per role: what that role calls its own fields. The send buffer of a role
 is the receive buffer of the other role's half.
 */
module Connections {
  import opened Basics

  type Byte = bv8
  type Ptr = nat
  type EventMask = bv32

  const EPOLLIN: EventMask := 0x1
  const EPOLLOUT: EventMask := 0x4
  const EPOLLHUP: EventMask := 0x10
  const EPOLLET: EventMask := 0x8000_0000

  predicate IsEventSet(mask: EventMask, event: EventMask) {
    mask & event != 0
  }

  function SetEvent(mask: EventMask, event: EventMask): EventMask {
    mask | event
  }

  function ClearEvent(mask: EventMask, event: EventMask): EventMask {
    mask & !event
  }

  /** The events of `mask` among those in `wanted`. */
  function Among(mask: EventMask, wanted: EventMask): EventMask {
    mask & wanted
  }

  datatype Role = Server | Client

  function Other(r: Role): Role {
    if r == Server then Client else Server
  }

  datatype ConnState = CCreate | COpen | CClose | CListen

  /** A packet in flight. The constraint says that the unread part always ends where the packet ends. */
  datatype BufferEntry = BufferEntry(data: seq<Byte>, offset: nat, datasize: nat)
  type Packet = b: BufferEntry | b.offset + b.datasize == |b.data| witness BufferEntry([], 0, 0)

  function Unread(b: Packet): seq<Byte> {
    b.data[b.offset..]
  }

  /** What one role calls its own: receive buffer, edge and level events, port. */
  datatype Half = Half(recvBuffer: seq<Packet>, events: EventMask, ltEvents: EventMask, port: int)

  datatype Connection = Connection(connState: ConnState, iface: Option<nat>, server: Half, client: Half) {
    function Own(r: Role): Half {
      if r == Server then server else client
    }

    function WithOwn(r: Role, h: Half): Connection {
      if r == Server then this.(server := h) else this.(client := h)
    }

    /** The same record as the other role reads it. */
    function Swap(): Connection {
      Connection(connState, iface, client, server)
    }
  }

  datatype Interface = Interface(serverAddress: int, clientAddress: int, connectionList: seq<Ptr>) {
    function OwnAddress(r: Role): int {
      if r == Server then serverAddress else clientAddress
    }

    function RemoteAddress(r: Role): int {
      OwnAddress(Other(r))
    }
  }

  /** Everything in shared memory, plus the private records of listening sockets (`iface == None`). */
  datatype Shared = Shared(ifaces: seq<Interface>, conns: map<Ptr, Connection>) {
    function Put(p: Ptr, c: Connection): Shared {
      this.(conns := conns[p := c])
    }
  }

  /** What a pointer field reads; `None` is a null or dangling pointer. */
  function Deref(sh: Shared, pConn: Option<Ptr>): Option<Connection> {
    if pConn.Some? && pConn.value in sh.conns then Some(sh.conns[pConn.value]) else None
  }

  function NewConnection(r: Role, iface: nat, ownPort: int, remotePort: int): Connection {
    Connection(CCreate, Some(iface), Half([], 0, 0, if r == Server then ownPort else remotePort),
               Half([], 0, 0, if r == Server then remotePort else ownPort))
  }

  function NewListenerConnection(): Connection {
    Connection(CListen, None, Half([], 0, 0, -1), Half([], 0, 0, -1))
  }

  /** Allocates `c` at `p` and publishes it at the front of its interface's list. */
  function Publish(sh: Shared, p: Ptr, c: Connection): Shared
    requires c.iface.Some? && c.iface.value < |sh.ifaces|
  {
    var k := c.iface.value;
    Shared(sh.ifaces[k := sh.ifaces[k].(connectionList := [p] + sh.ifaces[k].connectionList)], sh.conns[p := c])
  }

  /** A connection that `r` may accept on `port`. */
  predicate Pending(sh: Shared, r: Role, port: int, p: Ptr) {
    p in sh.conns && sh.conns[p].connState == CCreate && sh.conns[p].Own(r).port == port
  }

  function SearchOnIface(sh: Shared, r: Role, iface: nat, port: int): (p: Option<Ptr>)
    requires iface < |sh.ifaces|
    ensures p.Some? ==> p.value in sh.ifaces[iface].connectionList && Pending(sh, r, port, p.value)
  {
    var list := sh.ifaces[iface].connectionList;
    var k := FirstIndex(list, (p: Ptr) => Pending(sh, r, port, p));
    if k.None? then None else Some(list[k.value])
  }

  /** The search of one list finds its first pending connection for the port, or nothing if there is none. */
  lemma SearchOnIfaceExactly(sh: Shared, r: Role, iface: nat, port: int)
    requires iface < |sh.ifaces|
    ensures var list := sh.ifaces[iface].connectionList;
            match SearchOnIface(sh, r, iface, port)
            case Some(p) =>
              exists i | 0 <= i < |list| ::
                && list[i] == p && Pending(sh, r, port, p)
                && forall k | 0 <= k < i :: !Pending(sh, r, port, list[k])
            case None => forall k | 0 <= k < |list| :: !Pending(sh, r, port, list[k])
  {
    var list := sh.ifaces[iface].connectionList;
    var i := FirstIndex(list, (p: Ptr) => Pending(sh, r, port, p));
  }

  /** Does table entry `e` lead to a pending connection? `anyAddress` skips the address test. */
  predicate Offers(sh: Shared, r: Role, e: Option<nat>, addr: int, port: int, anyAddress: bool) {
    e.Some? && e.value < |sh.ifaces| &&
    (anyAddress || sh.ifaces[e.value].OwnAddress(r) == addr) &&
    SearchOnIface(sh, r, e.value, port).Some?
  }

  function PickOnTable(sh: Shared, r: Role, interfaces: seq<Option<nat>>, addr: int, port: int,
                       anyAddress: bool): (p: Option<Ptr>)
    ensures p.Some? ==> Pending(sh, r, port, p.value)
    ensures p.Some? ==> exists k | 0 <= k < |sh.ifaces| :: p.value in sh.ifaces[k].connectionList
  {
    var k := FirstIndex(interfaces, (e: Option<nat>) => Offers(sh, r, e, addr, port, anyAddress));
    if k.None? then None else SearchOnIface(sh, r, interfaces[k.value].value, port)
  }

  /**
   The table search goes to the first entry that offers a connection and picks the first one there; it
   fails only if no entry offers any.
   */
  lemma PickExactly(sh: Shared, r: Role, interfaces: seq<Option<nat>>, addr: int, port: int, anyAddress: bool)
    ensures match PickOnTable(sh, r, interfaces, addr, port, anyAddress)
            case Some(p) =>
              exists i | 0 <= i < |interfaces| ::
                && Offers(sh, r, interfaces[i], addr, port, anyAddress)
                && SearchOnIface(sh, r, interfaces[i].value, port) == Some(p)
                && forall k | 0 <= k < i :: !Offers(sh, r, interfaces[k], addr, port, anyAddress)
            case None => forall k | 0 <= k < |interfaces| :: !Offers(sh, r, interfaces[k], addr, port, anyAddress)
  {
    hide SearchOnIface;
    var i := FirstIndex(interfaces, (e: Option<nat>) => Offers(sh, r, e, addr, port, anyAddress));
  }

  lemma PickFirst(sh: Shared, r: Role, interfaces: seq<Option<nat>>, addr: int, port: int, anyAddress: bool, i: nat)
    requires i < |interfaces| && Offers(sh, r, interfaces[i], addr, port, anyAddress)
    requires forall k | 0 <= k < i :: !Offers(sh, r, interfaces[k], addr, port, anyAddress)
    ensures PickOnTable(sh, r, interfaces, addr, port, anyAddress) == SearchOnIface(sh, r, interfaces[i].value, port)
  {
    hide Offers, SearchOnIface;
  }

  lemma PickNothing(sh: Shared, r: Role, interfaces: seq<Option<nat>>, addr: int, port: int, anyAddress: bool)
    requires forall k | 0 <= k < |interfaces| :: !Offers(sh, r, interfaces[k], addr, port, anyAddress)
    ensures PickOnTable(sh, r, interfaces, addr, port, anyAddress) == None
  {
    hide Offers, SearchOnIface;
  }

  /** The search behind listener readiness: the address must match exactly. */
  function SearchOnAnyIface(sh: Shared, r: Role, interfaces: seq<Option<nat>>, addr: int, port: int): Option<Ptr> {
    PickOnTable(sh, r, interfaces, addr, port, false)
  }

  /** The search behind accept: address 0 stands for every interface. */
  function AcceptOnAnyIface(sh: Shared, r: Role, interfaces: seq<Option<nat>>, addr: int, port: int): Option<Ptr> {
    PickOnTable(sh, r, interfaces, addr, port, addr == 0)
  }

  /** `list` without its first occurrence of `p`. */
  function RemoveFirst(list: seq<Ptr>, p: Ptr): seq<Ptr> {
    var k := FirstIndex(list, (q: Ptr) => q == p);
    if k.None? then list else list[..k.value] + list[k.value + 1..]
  }

  function RemoveConnection(sh: Shared, p: Ptr): Shared
    requires p in sh.conns && sh.conns[p].iface.Some? && sh.conns[p].iface.value < |sh.ifaces|
  {
    var k := sh.conns[p].iface.value;
    Shared(sh.ifaces[k := sh.ifaces[k].(connectionList := RemoveFirst(sh.ifaces[k].connectionList, p))], sh.conns - {p})
  }

  /** The first closer of an open connection only marks it, and raises EPOLLHUP on the other side. */
  function MarkClosed(c: Connection, r: Role): (d: Connection)
    ensures d.iface == c.iface && d.connState == CClose
  {
    var peer := c.Own(Other(r));
    c.(connState := CClose).WithOwn(Other(r), peer.(events := SetEvent(peer.events, EPOLLHUP)))
  }

  predicate RemovedByClose(c: Connection) {
    c.connState == CClose || c.connState == CCreate
  }

  function SendConnection(c: Connection, r: Role, data: seq<Byte>): Connection {
    var peer := c.Own(Other(r));
    c.WithOwn(Other(r), peer.(recvBuffer := peer.recvBuffer + [BufferEntry(data, 0, |data|)],
                              events := SetEvent(peer.events, EPOLLIN)))
  }

  datatype Received = Received(conn: Connection, data: seq<Byte>)

  function RecvConnection(c: Connection, r: Role, len: nat): Received {
    var own := c.Own(r);
    if own.recvBuffer == [] then Received(c, [])
    else
      var b := own.recvBuffer[0];
      if len >= b.datasize then
        Received(c.WithOwn(r, own.(recvBuffer := own.recvBuffer[1..])), Unread(b))
      else
        var rest: Packet := BufferEntry(b.data, b.offset + len, b.datasize - len);
        Received(c.WithOwn(r, own.(recvBuffer := [rest] + own.recvBuffer[1..])), Unread(b)[..len])
  }

  /** The level-triggered readiness of `r`'s end. */
  function LevelMask(c: Connection, r: Role): EventMask {
    var incoming := if c.Own(r).recvBuffer != [] then SetEvent(0, EPOLLIN) else 0;
    var out := SetEvent(incoming, EPOLLOUT);
    if c.connState == CClose then SetEvent(out, EPOLLHUP) else out
  }
}
