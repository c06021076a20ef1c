/** All devices of the host together: who owns which socket, over whole runs. */
module HostTable {
  import opened Bytes
  import opened PacketQueue
  import opened L2cap

  const FIRST_SOCKET: nat := 0x40

  /** next is the id the next socket gets. */
  datatype Host = Host(devices: seq<Device>, next: nat)

  function FindAddress(ds: seq<Device>, addr: nat): (r: Option<nat>)
    ensures r.Some? ==> r.value < |ds| && ds[r.value].addr == addr
    ensures forall i :: 0 <= i < (if r.Some? then r.value else |ds|) ==> ds[i].addr != addr
  {
    if ds == [] then None
    else if ds[0].addr == addr then Some(0)
    else match FindAddress(ds[1..], addr) case Some(i) => Some(i + 1) case None => None
  }

  function FindHandle(ds: seq<Device>, handle: int): (r: Option<nat>)
    ensures r.Some? ==> r.value < |ds| && ds[r.value].handle == handle
    ensures forall i :: 0 <= i < (if r.Some? then r.value else |ds|) ==> ds[i].handle != handle
  {
    if ds == [] then None
    else if ds[0].handle == handle then Some(0)
    else match FindHandle(ds[1..], handle) case Some(i) => Some(i + 1) case None => None
  }

  function FindSocket(ds: seq<Device>, scid: nat): (r: Option<nat>)
    ensures r.Some? ==> r.value < |ds| && scid in ds[r.value].sockets
    ensures forall i :: 0 <= i < (if r.Some? then r.value else |ds|) ==> scid !in ds[i].sockets
  {
    if ds == [] then None
    else if scid in ds[0].sockets then Some(0)
    else match FindSocket(ds[1..], scid) case Some(i) => Some(i + 1) case None => None
  }

  // ---- operations --------------------------------------------------------------------

  datatype Op =
    | AddDevice(addr: nat)
    | OpenOn(addr: nat, psm: Word16, listen: bool)
    | CloseOn(scid: nat)
    | Acl(p: Packet)
    | Dialled(addr: nat)
    | Connected(addr: nat, ok: bool, handle: nat)
    | Disconnected(handle: nat)
    | RoleChanged(addr: nat, slave: bool)

  function Replace(h: Host, i: nat, d: Device): Host
    requires i < |h.devices|
  {
    h.(devices := h.devices[i := d])
  }

  function Close(h: Host, scid: nat, thisEnd: bool): Host {
    match FindSocket(h.devices, scid)
    case None => h
    case Some(i) => Replace(h, i, CloseSocket(h.devices[i], scid, thisEnd))
  }

  function AclHandle(p: Packet): nat
    requires |p| >= 3
  {
    Word(p[1], p[2]) % 0x1000
  }

  ghost predicate OpReady(h: Host, op: Op) {
    op.Acl? ==>
      |op.p| >= 3 &&
      match FindHandle(h.devices, AclHandle(op.p))
      case None => true
      case Some(i) => DataReady(h.devices[i], op.p)
  }

  /** The socket a received packet asks the host to close: a disconnection response completed. */
  ghost function CloseAfter(d: Device, p: Packet): Option<nat>
    requires DataReady(d, p)
  {
    var c := CopyIn(Begin(d, p), Fragment(p));
    if c.pos == |c.packet| && c.cid == SIGNALLING then CloseAsked(c.packet) else None
  }

  ghost function Step(h: Host, op: Op): Host
    requires OpReady(h, op)
  {
    match op
    case AddDevice(addr) =>
      if FindAddress(h.devices, addr).Some? then h else h.(devices := h.devices + [NewDevice(addr)])
    case OpenOn(addr, psm, listen) =>
      (match FindAddress(h.devices, addr)
       case None => h
       case Some(i) => Replace(h, i, OpenSocket(h.devices[i], h.next, psm, listen)).(next := h.next + 1))
    case CloseOn(scid) => Close(h, scid, true)
    case Acl(p) =>
      (match FindHandle(h.devices, AclHandle(p))
       case None => h
       case Some(i) =>
         var g := Replace(h, i, Data(h.devices[i], p));
         match CloseAfter(h.devices[i], p)
         case None => g
         case Some(scid) => Close(g, scid, true))
    case Dialled(addr) =>
      (match FindAddress(h.devices, addr)
       case None => h
       case Some(i) => Replace(h, i, CreateConnection(h.devices[i])))
    case Connected(addr, ok, handle) =>
      (match FindAddress(h.devices, addr)
       case None => h
       case Some(i) => Replace(h, i, CompleteConnection(h.devices[i], ok, handle)))
    case Disconnected(handle) =>
      (match FindHandle(h.devices, handle)
       case None => h
       case Some(i) => Replace(h, i, DisconnectAll(h.devices[i])))
    case RoleChanged(addr, slave) =>
      (match FindAddress(h.devices, addr)
       case None => h
       case Some(i) => Replace(h, i, SetRole(h.devices[i], slave)))
  }

  ghost predicate RunReady(h: Host, ops: seq<Op>)
    decreases |ops|
  {
    ops == [] || (OpReady(h, ops[0]) && RunReady(Step(h, ops[0]), ops[1..]))
  }

  ghost function Run(h: Host, ops: seq<Op>): Host
    requires RunReady(h, ops)
    decreases |ops|
  {
    if ops == [] then h else Run(Step(h, ops[0]), ops[1..])
  }

  // ---- the invariant -------------------------------------------------------------------

  /** The sockets of one device carry ids already given out, their own id, and their owner. */
  ghost predicate SocketsOk(d: Device, next: nat) {
    forall k :: k in d.sockets ==>
      FIRST_SOCKET <= k < next && d.sockets[k].scid == k % 0x1_0000 && d.sockets[k].owner == d.addr
  }

  ghost predicate TableOk(h: Host) {
    && h.next >= FIRST_SOCKET
    && (forall i :: 0 <= i < |h.devices| ==> SocketsOk(h.devices[i], h.next))
    && (forall i, j :: 0 <= i < j < |h.devices| ==> h.devices[i].addr != h.devices[j].addr)
    && (forall i, j :: 0 <= i < j < |h.devices| ==> h.devices[i].sockets.Keys !! h.devices[j].sockets.Keys)
  }

  /** No socket appears, and those that stay keep their identity. */
  ghost predicate Conserves(d: Device, e: Device) {
    && e.addr == d.addr && e.sockets.Keys <= d.sockets.Keys
    && forall k :: k in e.sockets ==> e.sockets[k].scid == d.sockets[k].scid && e.sockets[k].owner == d.sockets[k].owner
  }

  lemma {:induction false} AcceptConserves(d: Device, ks: seq<nat>, rxid: Byte, psm: Word16, dcid: Word16)
    ensures Conserves(d, Accept(d, ks, rxid, psm, dcid))
    decreases |ks|
  {
    hide Frame, Command;
    if ks != [] {
      if ks[0] in d.sockets && d.sockets[ks[0]].psm == psm {
        AcceptConserves(AcceptOn(d, ks[0], rxid, dcid), ks[1..], rxid, psm, dcid);
      } else {
        AcceptConserves(d, ks[1..], rxid, psm, dcid);
      }
    }
  }

  lemma {:induction false} ControlConserves(d: Device, c: Packet)
    requires SignalFits(c)
    ensures Conserves(d, Control(d, c))
  {
    hide Accept, Command, Frame, Ascending, Param;
    if c[0] == CONN_REQ {
      var e := NextId(d).(flags := d.flags + {SignalBit(c[0])} + {ACTIVE});
      AcceptConserves(e, Ascending(e.sockets.Keys), c[1], Param(c, 0), Param(c, 1));
    }
  }

  lemma {:induction false} DataConserves(d: Device, p: Packet)
    requires DataReady(d, p)
    ensures Conserves(d, Data(d, p))
  {
    hide Control, SignalFits, AclFits, IsStart, Fragment;
    var c := CopyIn(Begin(d, p), Fragment(p));
    if c.pos == |c.packet| && c.cid == SIGNALLING { ControlConserves(c, c.packet); }
  }

  lemma {:induction false} CloseConserves(d: Device, scid: nat, thisEnd: bool)
    ensures Conserves(d, CloseSocket(d, scid, thisEnd))
  {
    hide Frame, Command;
  }

  lemma {:induction false} ReplaceKeepsTable(h: Host, i: nat, e: Device)
    requires TableOk(h) && i < |h.devices| && Conserves(h.devices[i], e)
    ensures TableOk(Replace(h, i, e))
  {
    assert SocketsOk(h.devices[i], h.next);
  }

  lemma {:induction false} CloseKeepsTable(h: Host, scid: nat)
    requires TableOk(h)
    ensures TableOk(Close(h, scid, true))
  {
    hide TableOk, CloseSocket, Replace, Conserves;
    var r := FindSocket(h.devices, scid);
    if r.Some? {
      CloseConserves(h.devices[r.value], scid, true);
      ReplaceKeepsTable(h, r.value, CloseSocket(h.devices[r.value], scid, true));
    }
  }

  lemma {:induction false} OpenKeepsTable(h: Host, i: nat, psm: Word16, listen: bool)
    requires TableOk(h) && i < |h.devices|
    ensures TableOk(Replace(h, i, OpenSocket(h.devices[i], h.next, psm, listen)).(next := h.next + 1))
  {
    var d := h.devices[i];
    var e := OpenSocket(d, h.next, psm, listen);
    OpenedSockets(d, h.next, psm, listen);
    hide OpenSocket;
    var g := Replace(h, i, e).(next := h.next + 1);
    forall j | 0 <= j < |g.devices| ensures SocketsOk(g.devices[j], g.next) {
      assert SocketsOk(h.devices[j], h.next);
    }
    forall j | 0 <= j < |h.devices| && j != i ensures e.sockets.Keys !! h.devices[j].sockets.Keys {
      assert SocketsOk(h.devices[j], h.next);
      assert d.sockets.Keys !! h.devices[j].sockets.Keys;
    }
  }

  lemma {:induction false} OpenedSockets(d: Device, scid: nat, psm: Word16, listen: bool)
    ensures var e := OpenSocket(d, scid, psm, listen);
            && e.addr == d.addr && e.sockets.Keys == d.sockets.Keys + {scid}
            && e.sockets[scid].scid == scid % 0x1_0000 && e.sockets[scid].owner == d.addr
            && forall k :: k in d.sockets && k != scid ==> e.sockets[k] == d.sockets[k]
  {
    hide Frame, Command;
  }

  lemma {:induction false} AddKeepsTable(h: Host, addr: nat)
    requires TableOk(h) && FindAddress(h.devices, addr) == None
    ensures TableOk(h.(devices := h.devices + [NewDevice(addr)]))
  {
    assert forall i :: 0 <= i < |h.devices| ==> SocketsOk(h.devices[i], h.next);
  }

  lemma {:induction false} AclKeepsTable(h: Host, p: Packet)
    requires TableOk(h) && OpReady(h, Acl(p))
    ensures TableOk(Step(h, Acl(p))) && Step(h, Acl(p)).next >= h.next
  {
    hide TableOk, Data, DataReady, CloseAfter, FindHandle, FindSocket, CloseSocket;
    var r := FindHandle(h.devices, AclHandle(p));
    if r.Some? {
      var i := r.value;
      var d := h.devices[i];
      DataConserves(d, p);
      ReplaceKeepsTable(h, i, Data(d, p));
      var s := CloseAfter(d, p);
      if s.Some? { CloseKeepsTable(Replace(h, i, Data(d, p)), s.value); }
    }
  }

  /** Connection events touch no socket. */
  lemma {:induction false} ConnectionConserves(d: Device, ok: bool, handle: nat, slave: bool)
    ensures Conserves(d, CreateConnection(d)) && Conserves(d, CompleteConnection(d, ok, handle))
    ensures Conserves(d, DisconnectAll(d)) && Conserves(d, SetRole(d, slave))
  {
    hide Ascending;
  }

  lemma {:induction false} ConnectionKeepsTable(h: Host, i: nat, ok: bool, handle: nat, slave: bool)
    requires TableOk(h) && i < |h.devices|
    ensures var d := h.devices[i];
            && TableOk(Replace(h, i, CreateConnection(d))) && TableOk(Replace(h, i, CompleteConnection(d, ok, handle)))
            && TableOk(Replace(h, i, DisconnectAll(d))) && TableOk(Replace(h, i, SetRole(d, slave)))
  {
    hide TableOk, CreateConnection, CompleteConnection, DisconnectAll, SetRole, Conserves, Replace;
    var d := h.devices[i];
    ConnectionConserves(d, ok, handle, slave);
    ReplaceKeepsTable(h, i, CreateConnection(d));
    ReplaceKeepsTable(h, i, CompleteConnection(d, ok, handle));
    ReplaceKeepsTable(h, i, DisconnectAll(d));
    ReplaceKeepsTable(h, i, SetRole(d, slave));
  }

  lemma {:induction false} StepKeepsTable(h: Host, op: Op)
    requires TableOk(h) && OpReady(h, op)
    ensures TableOk(Step(h, op)) && Step(h, op).next >= h.next
  {
    hide TableOk, FindAddress, FindHandle, FindSocket, CloseSocket, OpenSocket, Data, DataReady, CloseAfter;
    hide CreateConnection, CompleteConnection, DisconnectAll, SetRole;
    match op {
      case Acl(p) => AclKeepsTable(h, p);
      case CloseOn(scid) => CloseKeepsTable(h, scid);
      case AddDevice(addr) =>
        if FindAddress(h.devices, addr) == None { AddKeepsTable(h, addr); }
      case OpenOn(addr, psm, listen) =>
        var r := FindAddress(h.devices, addr);
        if r.Some? { OpenKeepsTable(h, r.value, psm, listen); }
      case Dialled(addr) =>
        var r := FindAddress(h.devices, addr);
        if r.Some? { ConnectionKeepsTable(h, r.value, false, 0, false); }
      case Connected(addr, ok, handle) =>
        var r := FindAddress(h.devices, addr);
        if r.Some? { ConnectionKeepsTable(h, r.value, ok, handle, false); }
      case Disconnected(handle) =>
        var r := FindHandle(h.devices, handle);
        if r.Some? { ConnectionKeepsTable(h, r.value, false, 0, false); }
      case RoleChanged(addr, slave) =>
        var r := FindAddress(h.devices, addr);
        if r.Some? { ConnectionKeepsTable(h, r.value, false, 0, slave); }
    }
  }

  /**
   * Over every run of the host, each socket id lies between 0x40 and the next one to give
   * out, belongs to one device at most, and its socket knows its id and its owner.
   */
  lemma {:induction false} RunKeepsTable(h: Host, ops: seq<Op>)
    requires TableOk(h) && RunReady(h, ops)
    ensures TableOk(Run(h, ops)) && Run(h, ops).next >= h.next
    decreases |ops|
  {
    hide TableOk, Step, OpReady;
    if ops != [] {
      StepKeepsTable(h, ops[0]);
      RunKeepsTable(Step(h, ops[0]), ops[1..]);
    }
  }

  /** From power-on, lookup by id finds exactly the device that has the socket. */
  lemma {:induction false} LookupFindsOwner(ops: seq<Op>, scid: nat, i: nat)
    requires RunReady(Host([], 0x40), ops)
    ensures var h := Run(Host([], 0x40), ops);
            && TableOk(h)
            && (FindSocket(h.devices, scid) == Some(i) <==> i < |h.devices| && scid in h.devices[i].sockets)
            && (i < |h.devices| && scid in h.devices[i].sockets ==>
                  h.devices[i].sockets[scid].owner == h.devices[i].addr)
  {
    hide Step, OpReady;
    var start := Host([], FIRST_SOCKET);
    RunKeepsTable(start, ops);
    var h := Run(start, ops);
    if i < |h.devices| && scid in h.devices[i].sockets {
      assert SocketsOk(h.devices[i], h.next);
    }
  }
}
