/** The device object, changing its fields in place, proved against L2cap. */
module BtDevice {
  import opened Bytes
  import opened PacketQueue
  import opened L2cap

  class BTDevice {
    const addr: nat
    var handle: int
    var packet: Packet
    var packetPos: nat
    var packetCid: Word16
    var txid: Byte
    var flags: set<nat>
    var sockets: map<nat, Socket>
    var sent: seq<Packet>
    var events: seq<(nat, State)>

    ghost function View(): Device
      reads this
    {
      Device(addr, handle, packet, packetPos, packetCid, txid, flags, sockets, sent, events)
    }

    constructor (addr: nat)
      ensures View() == Device(addr, -1, [], 0, 0, 1, {SLAVE}, map[], [], [])
    {
      this.addr := addr;
      handle, packet, packetPos, packetCid := -1, [], 0, 0;
      txid, flags, sockets := 1, {SLAVE}, map[];
      sent, events := [], [];
    }

    // ---- sending -------------------------------------------------------------------

    /** Payload behind a type byte and three little-endian words, into the outbound log. */
    method Send(data: Packet, cid: Word16)
      modifies this`sent
      ensures View() == L2cap.Send(old(View()), data, cid)
    {
      var buf := [0x02] + Two(StartHandle(handle)) + Two((|data| + 4) % 0x1_0000) + Two(|data| % 0x1_0000) + Two(cid);
      buf := buf + data;
      sent := sent + [buf];
    }

    method SendSignal(cmd: Byte, id: Byte, params: seq<Word16>)
      modifies this`sent
      ensures View() == Signal(old(View()), cmd, id, params)
    {
      var body := Bytes16(params);
      Send([cmd, id] + Two((2 * |params|) % 0x1_0000) + body, SIGNALLING);
    }

    static method Bytes16(params: seq<Word16>) returns (body: seq<Byte>)
      ensures body == Words(params)
    {
      hide Two;
      body := [];
      var i := 0;
      assert params[0..] == params;
      while i < |params|
        invariant 0 <= i <= |params|
        invariant body + Words(params[i..]) == Words(params)
      {
        WordsStep(params, i);
        assert body + (Two(params[i]) + Words(params[i + 1..])) == body + Two(params[i]) + Words(params[i + 1..]);
        body := body + Two(params[i]);
        i := i + 1;
      }
      assert params[i..] == [];
    }

    method Connect(psm: Word16, scid: Word16)
      modifies this`sent, this`txid
      ensures View() == L2cap.Connect(old(View()), psm, scid)
    {
      var id := txid;
      txid := (txid + 1) % 0x100;
      SendSignal(CONN_REQ, id, [psm, scid]);
    }

    method Disconnect(scid: Word16, dcid: Word16)
      modifies this`sent, this`txid
      ensures View() == L2cap.Disconnect(old(View()), scid, dcid)
    {
      var id := txid;
      txid := (txid + 1) % 0x100;
      SendSignal(DISCONN_REQ, id, [dcid, scid]);
    }

    method ConfigureRequest(dcid: Word16)
      modifies this`sent, this`txid
      ensures View() == L2cap.ConfigureRequest(old(View()), dcid)
    {
      var id := txid;
      txid := (txid + 1) % 0x100;
      SendSignal(CONF_REQ, id, [dcid, 0, 0x0201, 0xFFFF]);
    }

    method ConfigureResponse(rxid: Byte, dcid: Word16, mtu: Word16)
      modifies this`sent
      ensures View() == L2cap.ConfigureResponse(old(View()), rxid, dcid, mtu)
    {
      SendSignal(CONF_RSP, rxid, [dcid, 0, 0, 0x0201, mtu]);
    }

    // ---- sockets ---------------------------------------------------------------------

    method SetState(scid: nat, state: State)
      requires scid in sockets
      modifies this`sockets, this`events
      ensures View() == L2cap.SetState(old(View()), scid, state)
    {
      sockets := sockets[scid := sockets[scid].(state := state)];
      events := events + [(scid, state)];
    }

    method L2Open(scid: nat, psm: Word16, listen: bool)
      modifies this`sockets, this`events, this`sent, this`txid
      ensures View() == OpenSocket(old(View()), scid, psm, listen)
    {
      sockets := sockets[scid := Socket(Fresh, psm, scid % 0x1_0000, 0, [], addr)];
      if !listen {
        Connect(psm, scid % 0x1_0000);
        SetState(scid, Opening);
      } else {
        SetState(scid, Listening);
      }
    }

    method L2Close(scid: nat, thisEnd: bool) returns (r: int)
      modifies this`sockets, this`sent, this`txid
      ensures View() == CloseSocket(old(View()), scid, thisEnd)
      ensures r == if scid in old(sockets) then 0 else -1
    {
      if scid !in sockets {
        return -1;
      }
      var s := sockets[scid];
      if thisEnd && s.state == Open {
        Disconnect(s.scid, s.dcid);
      }
      sockets := sockets - {scid};
      r := 0;
    }

    /** The socket ids in ascending order. */
    method Ids() returns (ks: seq<nat>)
      ensures ks == Ascending(sockets.Keys)
    {
      hide Ascending, Least;
      var rest := sockets.Keys;
      ks := [];
      while rest != {}
        invariant ks + Ascending(rest) == Ascending(sockets.Keys)
        decreases |rest|
      {
        ghost var least := Least(rest);
        var k :| k in rest && forall j :: j in rest ==> k <= j;
        AscendingStep(rest, k);
        assert ks + ([k] + Ascending(rest - {k})) == ks + [k] + Ascending(rest - {k});
        ks := ks + [k];
        rest := rest - {k};
      }
      AscendingEmpty();
    }

    method DisconnectAll()
      modifies this
      ensures View() == L2cap.DisconnectAll(old(View()))
    {
      hide Ascending;
      var ks := Ids();
      ghost var before := events;
      var i := 0;
      while i < |ks|
        invariant 0 <= i <= |ks|
        invariant events + Deletions(ks[i..]) == before + Deletions(ks)
        invariant View() == old(View()).(events := events)
      {
        assert ks[i..][1..] == ks[i + 1..];
        assert events + ([(ks[i], Deleted)] + Deletions(ks[i + 1..]))
            == events + [(ks[i], Deleted)] + Deletions(ks[i + 1..]);
        events := events + [(ks[i], Deleted)];
        i := i + 1;
      }
      assert ks[i..] == [];
      sockets := map[];
      handle := -1;
      flags := {SLAVE};
    }

    method CreateConnection()
      modifies this`flags, this`handle
      ensures View() == L2cap.CreateConnection(old(View()))
    {
      if handle != -1 {
        return;
      }
      flags := {};
      handle := 0;
    }

    method SetRole(slave: bool)
      modifies this`flags
      ensures View() == L2cap.SetRole(old(View()), slave)
    {
      flags := if slave then flags + {SLAVE} else flags - {SLAVE};
    }

    method SetHandle(h: int)
      modifies this`handle
      ensures View() == old(View()).(handle := h)
    {
      handle := h;
    }

    // ---- signalling --------------------------------------------------------------------

    method CheckOpen(scid: nat)
      modifies this`sockets, this`events
      ensures View() == L2cap.CheckOpen(old(View()), scid)
    {
      if scid !in sockets {
        return;
      }
      var mask := {SignalBit(CONN_RSP), SignalBit(CONF_REQ), SignalBit(CONF_RSP)};
      if SignalBit(CONN_REQ) !in flags {
        if mask <= flags {
          SetState(scid, Open);
        }
      }
    }

    /** An inbound connection: every socket on the service answers and asks to configure. */
    method AcceptAll(rxid: Byte, psm: Word16, dcid: Word16)
      modifies this`sockets, this`events, this`sent, this`txid
      ensures View() == Accept(old(View()), Ascending(old(sockets).Keys), rxid, psm, dcid)
    {
      hide AcceptOn, Ascending, Accept;
      var ks := Ids();
      var i := 0;
      assert ks[0..] == ks;
      while i < |ks|
        invariant 0 <= i <= |ks| && sockets.Keys == old(sockets).Keys
        invariant Accept(View(), ks[i..], rxid, psm, dcid) == Accept(old(View()), ks, rxid, psm, dcid)
      {
        AcceptStep(View(), ks, i, rxid, psm, dcid);
        if sockets[ks[i]].psm == psm {
          AcceptOne(ks[i], rxid, dcid);
        }
        i := i + 1;
      }
      AcceptEnd(View(), ks, rxid, psm, dcid);
    }

    method AcceptOne(scid: nat, rxid: Byte, dcid: Word16)
      requires scid in sockets
      modifies this`sockets, this`events, this`sent, this`txid
      ensures View() == AcceptOn(old(View()), scid, rxid, dcid) && sockets.Keys == old(sockets).Keys
    {
      hide Signal, L2cap.ConfigureRequest;
      SendSignal(CONN_RSP, rxid, [sockets[scid].scid, dcid, 0, 0]);
      SetState(scid, Opening);
      sockets := sockets[scid := sockets[scid].(dcid := dcid)];
      txid := (rxid + 1) % 0x100;
      ConfigureRequest(dcid);
    }

    /** One signalling packet; the result is the socket the host must close, if any. */
    method Control(c: Packet) returns (close: Option<nat>)
      requires SignalFits(c)
      modifies this`sockets, this`events, this`sent, this`txid, this`flags
      ensures View() == L2cap.Control(old(View()), c) && close == CloseAsked(c)
    {
      hide Signal, L2cap.ConfigureRequest, L2cap.ConfigureResponse, L2cap.CheckOpen, L2cap.SetState;
      hide Accept, Ascending, Param;
      close := None;
      txid := (txid + 1) % 0x100;
      flags := flags + {SignalBit(c[0])};
      match c[0] {
        case 3 =>
          var status := Param(c, 2);
          var scid := Param(c, 1);
          if status == 0 {
            if scid in sockets {
              sockets := sockets[scid := sockets[scid].(dcid := Param(c, 0))];
              ConfigureRequest(Param(c, 0));
            }
          } else if status != 1 {
            if scid in sockets {
              SetState(scid, Closed);
            }
          }
        case 5 => CheckOpen(Param(c, 0));
        case 4 =>
          var scid := Param(c, 0);
          if scid in sockets {
            ConfigureResponse(c[1], sockets[scid].dcid, Param(c, 3));
            CheckOpen(scid);
          }
        case 6 =>
          var r := L2Close(Param(c, 0), false);
          SendSignal(DISCONN_RSP, c[1], [Param(c, 1), Param(c, 0)]);
        case 7 => close := Some(Param(c, 1));
        case 2 =>
          flags := flags + {ACTIVE};
          AcceptAll(c[1], Param(c, 0), Param(c, 1));
        case 10 => SendSignal(INFO_RSP, c[1], [Param(c, 0), 1]);
        case _ =>
      }
    }

    // ---- reassembly ----------------------------------------------------------------------

    /** One ACL packet: copy it in, and pass the payload on once it is whole. */
    method Data(p: Packet) returns (ok: bool, close: Option<nat>)
      requires DataReady(View(), p)
      modifies this
      ensures View() == L2cap.Data(old(View()), p)
      ensures var c := CopyIn(Begin(old(View()), p), Fragment(p));
              && (ok <==> c.pos < |c.packet| || c.cid == SIGNALLING || c.cid in c.sockets)
              && close == if c.pos == |c.packet| && c.cid == SIGNALLING then CloseAsked(c.packet) else None
    {
      hide L2cap.Control, SignalFits, CloseAsked;
      ok, close := true, None;
      var at := 5;
      var len: nat := Word(p[3], p[4]);
      if Word(p[1], p[2]) / 0x1000 == 2 {
        packet := Resize(packet, Word(p[5], p[6]));
        packetCid := Word(p[7], p[8]);
        at := at + 4;
        len := len - 4;
      }
      assert p[at..at + len] == Fragment(p);
      packet := packet[..packetPos] + p[at..at + len] + packet[packetPos + len..];
      packetPos := packetPos + len;
      assert View() == CopyIn(Begin(old(View()), p), Fragment(p));
      if packetPos == |packet| {
        if packetCid == SIGNALLING {
          close := Control(packet);
        } else if packetCid in sockets {
          var s := sockets[packetCid];
          sockets := sockets[packetCid := s.(queue := Put(s.queue, packet))];
        } else {
          packetPos := 0;
          return false, None;
        }
        packetPos := 0;
      }
    }
  }

  lemma {:induction false} WordsStep(ws: seq<Word16>, i: nat)
    requires i < |ws|
    ensures Words(ws[i..]) == Two(ws[i]) + Words(ws[i + 1..])
  {
    assert ws[i..][1..] == ws[i + 1..];
  }

  lemma {:induction false} AscendingStep(keys: set<nat>, k: nat)
    requires k in keys && forall j :: j in keys ==> k <= j
    ensures Ascending(keys) == [k] + Ascending(keys - {k})
  {
    assert Least(keys) == k;
  }

  lemma {:induction false} AscendingEmpty()
    ensures Ascending({}) == []
  {
  }

  lemma {:induction false} AcceptStep(d: Device, ks: seq<nat>, i: nat, rxid: Byte, psm: Word16, dcid: Word16)
    requires i < |ks| && ks[i] in d.sockets
    ensures Accept(d, ks[i..], rxid, psm, dcid)
            == Accept(if d.sockets[ks[i]].psm == psm then AcceptOn(d, ks[i], rxid, dcid) else d,
                      ks[i + 1..], rxid, psm, dcid)
  {
    hide AcceptOn;
    assert ks[i..][0] == ks[i] && ks[i..][1..] == ks[i + 1..];
  }

  lemma {:induction false} AcceptEnd(d: Device, ks: seq<nat>, rxid: Byte, psm: Word16, dcid: Word16)
    ensures Accept(d, ks[|ks|..], rxid, psm, dcid) == d
  {
  }
}
