/**
 The physical record. util.h declares the fields of a connection in one order for the server and in the
 opposite order for the client, so that a field's name, not its place, depends on the role. Here a record
 is what lies in memory, the two declarations are two ways of naming its places, and the operations of
 util.c are written with the names; the role-indexed record of `Connections` is what they work on.
 */
module Layout {
  import opened Basics
  import opened Connections

  /** What lies in memory: each pair of fields in the order of their addresses. */
  datatype Raw = Raw(connState: ConnState, iface: Option<nat>, queue0: seq<Packet>, queue1: seq<Packet>,
                     events0: EventMask, events1: EventMask, ltEvents0: EventMask, ltEvents1: EventMask,
                     port0: int, port1: int)

  /** The names of the declaration. */
  datatype Fields = Fields(connState: ConnState, pAssociatedIface: Option<nat>,
                           recvBuffer: seq<Packet>, sendBuffer: seq<Packet>,
                           ownEvents: EventMask, remoteEvents: EventMask,
                           ownLtEvents: EventMask, remoteLtEvents: EventMask,
                           ownPort: int, remotePort: int)

  /** MODE_SERVER names the first of each pair its own, the client the second. */
  function Read(r: Role, m: Raw): Fields {
    match r
    case Server => Fields(m.connState, m.iface, m.queue0, m.queue1, m.events0, m.events1, m.ltEvents0, m.ltEvents1,
                          m.port0, m.port1)
    case Client => Fields(m.connState, m.iface, m.queue1, m.queue0, m.events1, m.events0, m.ltEvents1, m.ltEvents0,
                          m.port1, m.port0)
  }

  function Write(r: Role, f: Fields): Raw {
    match r
    case Server =>
      Raw(f.connState, f.pAssociatedIface, f.recvBuffer, f.sendBuffer, f.ownEvents, f.remoteEvents, f.ownLtEvents,
          f.remoteLtEvents, f.ownPort, f.remotePort)
    case Client =>
      Raw(f.connState, f.pAssociatedIface, f.sendBuffer, f.recvBuffer, f.remoteEvents, f.ownEvents, f.remoteLtEvents,
          f.ownLtEvents, f.remotePort, f.ownPort)
  }

  /** The record as the model has it. */
  function Meaning(m: Raw): Connection {
    Connection(m.connState, m.iface, Half(m.queue0, m.events0, m.ltEvents0, m.port0),
               Half(m.queue1, m.events1, m.ltEvents1, m.port1))
  }

  /** What one side calls its own is what the other calls remote, field by field, in the same memory. */
  lemma OneSidesOwnIsTheOthersRemote(m: Raw, r: Role)
    ensures var here := Read(r, m); var there := Read(Other(r), m);
            && there.connState == here.connState && there.pAssociatedIface == here.pAssociatedIface
            && there.recvBuffer == here.sendBuffer && there.sendBuffer == here.recvBuffer
            && there.ownEvents == here.remoteEvents && there.remoteEvents == here.ownEvents
            && there.ownLtEvents == here.remoteLtEvents && there.remoteLtEvents == here.ownLtEvents
            && there.ownPort == here.remotePort && there.remotePort == here.ownPort
    ensures Write(r, Read(r, m)) == m
  {
    match r {
    case Server =>
    case Client =>
    }
  }

  /** The role-indexed record names the same places: own fields are the role's half, remote ones the other's. */
  lemma HalvesAreNames(m: Raw, r: Role)
    ensures var f := Read(r, m); var c := Meaning(m);
            && c.connState == f.connState && c.iface == f.pAssociatedIface
            && c.Own(r) == Half(f.recvBuffer, f.ownEvents, f.ownLtEvents, f.ownPort)
            && c.Own(Other(r)) == Half(f.sendBuffer, f.remoteEvents, f.remoteLtEvents, f.remotePort)
  {
    match r {
    case Server =>
    case Client =>
    }
  }

  /** createNewConnection with the names of the declaration. */
  function RawCreate(r: Role, iface: nat, ownPort: int, remotePort: int): Raw {
    Write(r, Fields(CCreate, Some(iface), [], [], 0, 0, 0, 0, ownPort, remotePort))
  }

  function RawSend(r: Role, m: Raw, data: seq<Byte>): Raw {
    var f := Read(r, m);
    Write(r, f.(sendBuffer := f.sendBuffer + [BufferEntry(data, 0, |data|)],
                remoteEvents := SetEvent(f.remoteEvents, EPOLLIN)))
  }

  function RawRecv(r: Role, m: Raw, len: nat): (Raw, seq<Byte>) {
    var f := Read(r, m);
    if f.recvBuffer == [] then (m, [])
    else
      var b := f.recvBuffer[0];
      if len >= b.datasize then (Write(r, f.(recvBuffer := f.recvBuffer[1..])), b.data[b.offset..b.offset + b.datasize])
      else
        var rest: Packet := BufferEntry(b.data, b.offset + len, b.datasize - len);
        (Write(r, f.(recvBuffer := [rest] + f.recvBuffer[1..])), b.data[b.offset..b.offset + len])
  }

  function RawMarkClosed(r: Role, m: Raw): Raw {
    var f := Read(r, m).(connState := CClose);
    Write(r, f.(remoteEvents := SetEvent(f.remoteEvents, EPOLLHUP)))
  }

  function RawSetLevel(r: Role, m: Raw): Raw {
    var f := Read(r, m);
    var incoming := if f.recvBuffer != [] then SetEvent(0, EPOLLIN) else 0;
    var out := SetEvent(incoming, EPOLLOUT);
    Write(r, f.(ownLtEvents := if f.connState == CClose then SetEvent(out, EPOLLHUP) else out))
  }

  lemma ReadBack(r: Role, f: Fields)
    ensures Read(r, Write(r, f)) == f
  {
    match r {
    case Server =>
    case Client =>
    }
  }

  /** What is written under the names of one role is the record with these halves. */
  lemma WrittenHalves(r: Role, f: Fields)
    ensures var c := Meaning(Write(r, f));
            && c.connState == f.connState && c.iface == f.pAssociatedIface
            && c.Own(r) == Half(f.recvBuffer, f.ownEvents, f.ownLtEvents, f.ownPort)
            && c.Own(Other(r)) == Half(f.sendBuffer, f.remoteEvents, f.remoteLtEvents, f.remotePort)
  {
    ReadBack(r, f);
    HalvesAreNames(Write(r, f), r);
  }

  /** A record is its state, its interface and its two halves. */
  lemma SameRecord(c: Connection, d: Connection, r: Role)
    requires c.connState == d.connState && c.iface == d.iface && c.Own(r) == d.Own(r) &&
             c.Own(Other(r)) == d.Own(Other(r))
    ensures c == d
  {
  }

  lemma SendAgrees(m: Raw, r: Role, data: seq<Byte>)
    ensures Meaning(RawSend(r, m, data)) == SendConnection(Meaning(m), r, data)
  {
    hide SetEvent, Read, Write, Meaning;
    HalvesAreNames(m, r);
    var f := Read(r, m);
    WrittenHalves(r, f.(sendBuffer := f.sendBuffer + [BufferEntry(data, 0, |data|)],
                        remoteEvents := SetEvent(f.remoteEvents, EPOLLIN)));
    SameRecord(Meaning(RawSend(r, m, data)), SendConnection(Meaning(m), r, data), r);
  }

  lemma UnreadSlices(b: Packet, len: nat)
    ensures b.data[b.offset..b.offset + b.datasize] == Unread(b)
    ensures len < b.datasize ==> b.data[b.offset..b.offset + len] == Unread(b)[..len]
  {
  }

  lemma RecvWholeAgrees(m: Raw, r: Role, len: nat)
    requires var q := Read(r, m).recvBuffer; q != [] && len >= q[0].datasize
    ensures var got := RecvConnection(Meaning(m), r, len);
            Meaning(RawRecv(r, m, len).0) == got.conn && RawRecv(r, m, len).1 == got.data
  {
    hide Unread, Read, Write, Meaning;
    HalvesAreNames(m, r);
    var f := Read(r, m);
    UnreadSlices(f.recvBuffer[0], len);
    WrittenHalves(r, f.(recvBuffer := f.recvBuffer[1..]));
    SameRecord(Meaning(RawRecv(r, m, len).0), RecvConnection(Meaning(m), r, len).conn, r);
  }

  lemma RecvPartAgrees(m: Raw, r: Role, len: nat)
    requires var q := Read(r, m).recvBuffer; q != [] && len < q[0].datasize
    ensures var got := RecvConnection(Meaning(m), r, len);
            Meaning(RawRecv(r, m, len).0) == got.conn && RawRecv(r, m, len).1 == got.data
  {
    hide Unread, Read, Write, Meaning;
    HalvesAreNames(m, r);
    var f := Read(r, m);
    var b := f.recvBuffer[0];
    UnreadSlices(b, len);
    WrittenHalves(r, f.(recvBuffer := [BufferEntry(b.data, b.offset + len, b.datasize - len)] + f.recvBuffer[1..]));
    SameRecord(Meaning(RawRecv(r, m, len).0), RecvConnection(Meaning(m), r, len).conn, r);
  }

  lemma RecvAgrees(m: Raw, r: Role, len: nat)
    ensures var got := RecvConnection(Meaning(m), r, len);
            Meaning(RawRecv(r, m, len).0) == got.conn && RawRecv(r, m, len).1 == got.data
  {
    hide Unread, Read, Write, Meaning;
    HalvesAreNames(m, r);
    var q := Read(r, m).recvBuffer;
    if q != [] {
      if len >= q[0].datasize {
        RecvWholeAgrees(m, r, len);
      } else {
        RecvPartAgrees(m, r, len);
      }
    }
  }

  lemma MarksAgree(m: Raw, r: Role)
    ensures Meaning(RawMarkClosed(r, m)) == MarkClosed(Meaning(m), r)
    ensures var c := Meaning(m); Meaning(RawSetLevel(r, m)) == c.WithOwn(r, c.Own(r).(ltEvents := LevelMask(c, r)))
  {
    hide SetEvent, Read, Write, Meaning;
    HalvesAreNames(m, r);
    var f := Read(r, m);
    WrittenHalves(r, f.(connState := CClose, remoteEvents := SetEvent(f.remoteEvents, EPOLLHUP)));
    SameRecord(Meaning(RawMarkClosed(r, m)), MarkClosed(Meaning(m), r), r);
    var c := Meaning(m);
    WrittenHalves(r, f.(ownLtEvents := LevelMask(c, r)));
    SameRecord(Meaning(RawSetLevel(r, m)), c.WithOwn(r, c.Own(r).(ltEvents := LevelMask(c, r))), r);
  }

  /** An interface record: the two addresses in the order they lie in memory. */
  datatype RawInterface = RawInterface(address0: int, address1: int, connectionList: seq<Ptr>)

  function OwnAddressOf(r: Role, m: RawInterface): int {
    match r
    case Server => m.address0
    case Client => m.address1
  }

  function RemoteAddressOf(r: Role, m: RawInterface): int {
    match r
    case Server => m.address1
    case Client => m.address0
  }

  lemma AddressesAgree(m: RawInterface, r: Role)
    ensures var i := Interface(m.address0, m.address1, m.connectionList);
            i.OwnAddress(r) == OwnAddressOf(r, m) && i.RemoteAddress(r) == RemoteAddressOf(r, m)
    ensures OwnAddressOf(Other(r), m) == RemoteAddressOf(r, m)
  {
  }

  /**
   Every operation on what lies in memory, compiled for either role, is the operation of the model on the
   record it means, and so are the two addresses of an interface.
   */
  lemma OperationsAgree(m: Raw, i: RawInterface, r: Role, iface: nat, ownPort: int, remotePort: int, data: seq<Byte>,
                        len: nat)
    ensures Meaning(RawCreate(r, iface, ownPort, remotePort)) == NewConnection(r, iface, ownPort, remotePort)
    ensures Meaning(RawSend(r, m, data)) == SendConnection(Meaning(m), r, data)
    ensures var got := RecvConnection(Meaning(m), r, len);
            Meaning(RawRecv(r, m, len).0) == got.conn && RawRecv(r, m, len).1 == got.data
    ensures Meaning(RawMarkClosed(r, m)) == MarkClosed(Meaning(m), r)
    ensures var c := Meaning(m); Meaning(RawSetLevel(r, m)) == c.WithOwn(r, c.Own(r).(ltEvents := LevelMask(c, r)))
    ensures var j := Interface(i.address0, i.address1, i.connectionList);
            j.OwnAddress(r) == OwnAddressOf(r, i) && j.RemoteAddress(r) == RemoteAddressOf(r, i)
  {
    hide SetEvent, RawSend, RawRecv, RawMarkClosed, RawSetLevel, SendConnection, RecvConnection, MarkClosed, LevelMask;
    SendAgrees(m, r, data);
    RecvAgrees(m, r, len);
    MarksAgree(m, r);
    AddressesAgree(i, r);
  }

  /** The opposite orders are needed: a process reads nothing back that its own role has sent. */
  lemma SameRoleNeverDelivers(m: Raw, r: Role, data: seq<Byte>, len: nat)
    requires Read(r, m).recvBuffer == []
    ensures RawRecv(r, RawSend(r, m, data), len).1 == []
    ensures data != [] && len > 0 && Read(r, m).sendBuffer == [] ==> RawRecv(Other(r), RawSend(r, m, data), len).1 != []
  {
    hide SetEvent, Read, Write;
    var sent := RawSend(r, m, data);
    OneSidesOwnIsTheOthersRemote(sent, r);
    var f := Read(r, m);
    ReadBack(r, f.(sendBuffer := f.sendBuffer + [BufferEntry(data, 0, |data|)],
                   remoteEvents := SetEvent(f.remoteEvents, EPOLLIN)));
  }
}
