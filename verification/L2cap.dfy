/**
 * One Bluetooth device as the host sees it: sockets, the signalling that opens and closes
 * them, and reassembly of fragmented packets (Bluetooth Core Specification, Volume 3
 * Part A, sections 3.1 and 4, and Volume 4 Part E, section 5.4.2).
 */
module L2cap {
  import opened Bytes
  import opened PacketQueue

  const CONN_REQ: Byte := 2
  const CONN_RSP: Byte := 3
  const CONF_REQ: Byte := 4
  const CONF_RSP: Byte := 5
  const DISCONN_REQ: Byte := 6
  const DISCONN_RSP: Byte := 7
  const INFO_RSP: Byte := 0x0B

  const SIGNALLING: nat := 1
  const SLAVE: nat := 0
  const ACTIVE: nat := 1

  datatype State = Fresh | Listening | Opening | Open | Closed | Deleted

  /** owner is the address of the device the socket belongs to. */
  datatype Socket = Socket(state: State, psm: Word16, scid: Word16, dcid: Word16, queue: seq<Packet>, owner: nat)

  /** flags holds the numbers of the bits set; sent and events are logs. */
  datatype Device = Device(addr: nat, handle: int, packet: Packet, pos: nat, cid: Word16, txid: Byte, flags: set<nat>,
                           sockets: map<nat, Socket>, sent: seq<Packet>, events: seq<(nat, State)>)

  /** A device just heard of: no connection, in step, no signal seen. */
  function NewDevice(addr: nat): Device {
    Device(addr, -1, [], 0, 0, 1, {SLAVE}, map[], [], [])
  }

  /** The bit that records a signal. */
  function SignalBit(cmd: Byte): nat { cmd + 8 }

  // ---- frames ----------------------------------------------------------------------

  function Two(w: Word16): seq<Byte> { [Low(w), High(w)] }

  function Words(ws: seq<Word16>): (bs: seq<Byte>)
    ensures |bs| == 2 * |ws|
  {
    if ws == [] then [] else Two(ws[0]) + Words(ws[1..])
  }

  /** handle | 0x2000 in 16 bits, for the handles the stack stores (-1 is no connection). */
  function StartHandle(handle: int): Word16 {
    if handle < 0 then 0xFFFF else if handle / 0x2000 % 2 == 1 then handle % 0x1_0000 else (handle + 0x2000) % 0x1_0000
  }

  /** A whole L2CAP packet in one ACL packet: type, handle, length, then the basic header. */
  function Frame(handle: int, payload: Packet, cid: Word16): Packet {
    [0x02] + Two(StartHandle(handle)) + Two((|payload| + 4) % 0x1_0000) + Two(|payload| % 0x1_0000) + Two(cid) + payload
  }

  function Command(cmd: Byte, id: Byte, params: seq<Word16>): Packet {
    [cmd, id] + Two((2 * |params|) % 0x1_0000) + Words(params)
  }

  function Send(d: Device, payload: Packet, cid: Word16): Device {
    d.(sent := d.sent + [Frame(d.handle, payload, cid)])
  }

  function Signal(d: Device, cmd: Byte, id: Byte, params: seq<Word16>): Device {
    Send(d, Command(cmd, id, params), SIGNALLING)
  }

  function NextId(d: Device): Device { d.(txid := (d.txid + 1) % 0x100) }

  function Connect(d: Device, psm: Word16, scid: Word16): Device {
    Signal(NextId(d), CONN_REQ, d.txid, [psm, scid])
  }

  function Disconnect(d: Device, scid: Word16, dcid: Word16): Device {
    Signal(NextId(d), DISCONN_REQ, d.txid, [dcid, scid])
  }

  function ConfigureRequest(d: Device, dcid: Word16): Device {
    Signal(NextId(d), CONF_REQ, d.txid, [dcid, 0, 0x0201, 0xFFFF])
  }

  function ConfigureResponse(d: Device, rxid: Byte, dcid: Word16, mtu: Word16): Device {
    Signal(d, CONF_RSP, rxid, [dcid, 0, 0, 0x0201, mtu])
  }

  // ---- sockets -----------------------------------------------------------------------

  function SetState(d: Device, scid: nat, state: State): Device
    requires scid in d.sockets
  {
    d.(sockets := d.sockets[scid := d.sockets[scid].(state := state)], events := d.events + [(scid, state)])
  }

  /** A new socket listens, or asks the other end to connect. */
  function OpenSocket(d: Device, scid: nat, psm: Word16, listen: bool): Device {
    var e := d.(sockets := d.sockets[scid := Socket(Fresh, psm, scid % 0x1_0000, 0, [], d.addr)]);
    if listen then SetState(e, scid, Listening)
    else SetState(Connect(e, psm, scid % 0x1_0000), scid, Opening)
  }

  function CloseSocket(d: Device, scid: nat, thisEnd: bool): Device {
    if scid !in d.sockets then d
    else
      var s := d.sockets[scid];
      var e := if thisEnd && s.state == Open then Disconnect(d, s.scid, s.dcid) else d;
      e.(sockets := e.sockets - {scid})
  }

  /** The keys of a socket map in ascending order, the order the map is walked in. */
  ghost function Ascending(keys: set<nat>): (ks: seq<nat>)
    ensures |ks| == |keys| && forall k :: k in ks <==> k in keys
  {
    if keys == {} then []
    else
      var least := Least(keys);
      [least] + Ascending(keys - {least})
  }

  ghost function Least(keys: set<nat>): (k: nat)
    requires keys != {}
    ensures k in keys && forall j :: j in keys ==> k <= j
  {
    var k :| k in keys;
    LeastFrom(keys, k)
  }

  ghost function LeastFrom(keys: set<nat>, k: nat): (r: nat)
    requires k in keys
    ensures r in keys && forall j :: j in keys ==> r <= j
    decreases k
  {
    if exists j :: j in keys && j < k then
      var j :| j in keys && j < k;
      LeastFrom(keys, j)
    else k
  }

  function Deletions(ks: seq<nat>): seq<(nat, State)> {
    if ks == [] then [] else [(ks[0], Deleted)] + Deletions(ks[1..])
  }

  ghost function DisconnectAll(d: Device): Device {
    d.(sockets := map[], handle := -1, flags := {SLAVE}, events := d.events + Deletions(Ascending(d.sockets.Keys)))
  }

  /** Starting an outbound connection forgets every signal seen; one in progress is left alone. */
  function CreateConnection(d: Device): Device {
    if d.handle != -1 then d else d.(flags := {}, handle := 0)
  }

  function SetRole(d: Device, slave: bool): Device {
    d.(flags := if slave then d.flags + {SLAVE} else d.flags - {SLAVE})
  }

  /** The answer to dialling out: the handle and the master role, or no connection. */
  function CompleteConnection(d: Device, ok: bool, handle: nat): Device {
    if ok then SetRole(d.(handle := handle), false) else d.(handle := -1)
  }

  // ---- signalling ----------------------------------------------------------------------

  /** Open once the three answers were seen and the device did not connect to us. */
  predicate HandshakeDone(flags: set<nat>) {
    SignalBit(CONN_REQ) !in flags &&
    SignalBit(CONN_RSP) in flags && SignalBit(CONF_REQ) in flags && SignalBit(CONF_RSP) in flags
  }

  function CheckOpen(d: Device, scid: nat): Device {
    if scid in d.sockets && HandshakeDone(d.flags) then SetState(d, scid, Open) else d
  }

  /** Parameter i of a signalling packet. */
  function Param(c: Packet, i: nat): Word16
    requires |c| >= 6 + 2 * i
  {
    Word(c[4 + 2 * i], c[5 + 2 * i])
  }

  /** How many parameters the handler of a command looks at. */
  function ParamsRead(cmd: Byte): nat {
    match cmd
    case 2 => 2 case 3 => 3 case 4 => 4 case 5 => 1 case 6 => 2 case 7 => 2 case 10 => 1 case _ => 0
  }

  predicate SignalFits(c: Packet) { |c| >= 4 && |c| >= 4 + 2 * ParamsRead(c[0]) }

  /** One listening socket answers an inbound connection. */
  function AcceptOn(d: Device, scid: nat, rxid: Byte, dcid: Word16): Device
    requires scid in d.sockets
  {
    var e := SetState(Signal(d, CONN_RSP, rxid, [d.sockets[scid].scid, dcid, 0, 0]), scid, Opening);
    ConfigureRequest(e.(sockets := e.sockets[scid := e.sockets[scid].(dcid := dcid)], txid := (rxid + 1) % 0x100), dcid)
  }

  /** Every socket on the wanted service answers, in the order of the map. */
  function Accept(d: Device, ks: seq<nat>, rxid: Byte, psm: Word16, dcid: Word16): (e: Device)
    ensures e.sockets.Keys == d.sockets.Keys
    decreases |ks|
  {
    if ks == [] then d
    else if ks[0] in d.sockets && d.sockets[ks[0]].psm == psm
    then Accept(AcceptOn(d, ks[0], rxid, dcid), ks[1..], rxid, psm, dcid)
    else Accept(d, ks[1..], rxid, psm, dcid)
  }

  /** A signalling packet; DISCONN_RSP is finished by the host, which owns all sockets. */
  ghost function Control(d: Device, c: Packet): Device
    requires SignalFits(c)
  {
    var e := NextId(d).(flags := d.flags + {SignalBit(c[0])});
    match c[0]
    case 3 =>
      var scid, status := Param(c, 1), Param(c, 2);
      if scid !in e.sockets then e
      else if status == 0 then
        ConfigureRequest(e.(sockets := e.sockets[scid := e.sockets[scid].(dcid := Param(c, 0))]), Param(c, 0))
      else if status != 1 then SetState(e, scid, Closed)
      else e
    case 5 => CheckOpen(e, Param(c, 0))
    case 4 =>
      var scid := Param(c, 0);
      if scid !in e.sockets then e
      else CheckOpen(ConfigureResponse(e, c[1], e.sockets[scid].dcid, Param(c, 3)), scid)
    case 6 => Signal(CloseSocket(e, Param(c, 0), false), DISCONN_RSP, c[1], [Param(c, 1), Param(c, 0)])
    case 2 => Accept(e.(flags := e.flags + {ACTIVE}), Ascending(e.sockets.Keys), c[1], Param(c, 0), Param(c, 1))
    case 10 => Signal(e, INFO_RSP, c[1], [Param(c, 0), 1])
    case _ => e
  }

  /** The socket a DISCONN_RSP asks the host to close. */
  function CloseAsked(c: Packet): Option<nat>
    requires SignalFits(c)
  {
    if c[0] == DISCONN_RSP then Some(Param(c, 1)) else None
  }

  // ---- reassembly ------------------------------------------------------------------------

  /** An ACL packet: the handle word carries the boundary flag in its top bits. */
  predicate AclFits(p: Packet) {
    && |p| >= 5 && |p| >= 5 + Word(p[3], p[4])
    && (IsStart(p) ==> Word(p[3], p[4]) >= 4)
  }

  predicate IsStart(p: Packet)
    requires |p| >= 3
  {
    Word(p[1], p[2]) / 0x1000 == 2
  }

  /** The bytes an ACL packet adds to the payload. */
  function Fragment(p: Packet): Packet
    requires AclFits(p)
  {
    p[if IsStart(p) then 9 else 5..5 + Word(p[3], p[4])]
  }

  /** A vector resized: cut, or grown with zeros. */
  function Resize(v: Packet, n: nat): (w: Packet)
    ensures |w| == n
  {
    if n <= |v| then v[..n] else v + seq<Byte>(n - |v|, _ => 0)
  }

  /** A start fragment sizes the packet and names its channel; it does not move pos. */
  function Begin(d: Device, p: Packet): Device
    requires AclFits(p)
  {
    if IsStart(p) then d.(packet := Resize(d.packet, Word(p[5], p[6])), cid := Word(p[7], p[8])) else d
  }

  /** Bytes copied into the packet at pos. */
  function CopyIn(d: Device, bytes: Packet): Device
    requires d.pos + |bytes| <= |d.packet|
  {
    d.(packet := d.packet[..d.pos] + bytes + d.packet[d.pos + |bytes|..], pos := d.pos + |bytes|)
  }

  /** A whole packet goes to signalling or to its socket's queue. */
  ghost function Deliver(d: Device): Device
    requires d.cid == SIGNALLING ==> SignalFits(d.packet)
  {
    var e :=
      if d.cid == SIGNALLING then Control(d, d.packet)
      else if d.cid in d.sockets then
        var s := d.sockets[d.cid];
        d.(sockets := d.sockets[d.cid := s.(queue := Put(s.queue, d.packet))])
      else d;
    e.(pos := 0)
  }

  /** What the code takes for granted about a fragment. */
  ghost predicate DataReady(d: Device, p: Packet) {
    && AclFits(p)
    && var b := Begin(d, p);
       && b.pos + |Fragment(p)| <= |b.packet|
       && var c := CopyIn(b, Fragment(p));
          c.pos == |c.packet| && c.cid == SIGNALLING ==> SignalFits(c.packet)
  }

  /** One ACL packet. */
  ghost function Data(d: Device, p: Packet): Device
    requires DataReady(d, p)
  {
    var c := CopyIn(Begin(d, p), Fragment(p));
    if c.pos == |c.packet| then Deliver(c) else c
  }

  ghost predicate AllReady(d: Device, ps: seq<Packet>)
    decreases |ps|
  {
    ps == [] || (DataReady(d, ps[0]) && AllReady(Data(d, ps[0]), ps[1..]))
  }

  ghost function DataAll(d: Device, ps: seq<Packet>): Device
    requires AllReady(d, ps)
    decreases |ps|
  {
    if ps == [] then d else DataAll(Data(d, ps[0]), ps[1..])
  }
}
