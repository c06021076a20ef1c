/** The signals of a device byte by byte, and what a signal it receives makes it do. */
module Signals {
  import opened Bytes
  import opened PacketQueue
  import opened L2cap

  // ---- packets as bytes ----------------------------------------------------------------------

  /** Type 2, handle with the start flag, both lengths, the channel, the payload. */
  lemma {:induction false} FrameBytes(handle: nat, payload: Packet, cid: Word16)
    requires handle < 0x1000 && |payload| + 4 < 0x1_0000
    ensures var n: nat := |payload|;
            Frame(handle, payload, cid)
            == [2, handle % 0x100, 0x20 + handle / 0x100, (n + 4) % 0x100, (n + 4) / 0x100,
                n % 0x100, n / 0x100, cid % 0x100, cid / 0x100] + payload
  {
    var n: nat := |payload|;
    StartFlag(handle);
    TwoBytes(n + 4);
    TwoBytes(n);
    TwoBytes(cid);
    hide Two, StartHandle;
    assert (n + 4) % 0x1_0000 == n + 4 && n % 0x1_0000 == n;
  }

  lemma {:induction false} StartFlag(handle: nat)
    requires handle < 0x1000
    ensures Two(StartHandle(handle)) == [handle % 0x100, 0x20 + handle / 0x100]
  {
    assert StartHandle(handle) == handle + 0x2000;
    TwoBytes(handle + 0x2000);
    var q, r := handle / 0x100, handle % 0x100;
    assert handle == 0x100 * q + r;
    assert (handle + 0x2000) / 0x100 == q + 0x20 && (handle + 0x2000) % 0x100 == r;
  }

  lemma {:induction false} TwoBytes(w: Word16)
    ensures Two(w) == [w % 0x100, w / 0x100] == [Low(w), High(w)]
  {
  }

  lemma {:induction false} WordsTwo(a: Word16, b: Word16)
    ensures Words([a, b]) == [Low(a), High(a), Low(b), High(b)]
  {
    assert [a, b][1..] == [b] && [b][1..] == [];
    assert Words([b]) == Two(b) + Words([]);
  }

  lemma {:induction false} WordsSplit(a: seq<Word16>, b: seq<Word16>)
    ensures Words(a + b) == Words(a) + Words(b)
    decreases |a|
  {
    hide Two;
    if a == [] {
      assert a + b == b;
    } else {
      assert (a + b)[0] == a[0] && (a + b)[1..] == a[1..] + b;
      WordsSplit(a[1..], b);
    }
  }

  /** Code, identifier, length, and each parameter low byte first. */
  lemma {:induction false} CommandTwo(cmd: Byte, id: Byte, a: Word16, b: Word16)
    ensures Command(cmd, id, [a, b]) == [cmd, id, 4, 0, Low(a), High(a), Low(b), High(b)]
  {
    WordsTwo(a, b);
    TwoBytes(4);
    hide Two, Words;
  }

  lemma {:induction false} CommandFour(cmd: Byte, id: Byte, a: Word16, b: Word16, c: Word16, e: Word16)
    ensures Command(cmd, id, [a, b, c, e])
            == [cmd, id, 8, 0, Low(a), High(a), Low(b), High(b), Low(c), High(c), Low(e), High(e)]
  {
    assert [a, b, c, e] == [a, b] + [c, e];
    WordsSplit([a, b], [c, e]);
    WordsTwo(a, b);
    WordsTwo(c, e);
    TwoBytes(8);
    hide Two, Words, Low, High;
  }

  lemma {:induction false} CommandFive(cmd: Byte, id: Byte, a: Word16, b: Word16, c: Word16, e: Word16, f: Word16)
    ensures Command(cmd, id, [a, b, c, e, f])
            == [cmd, id, 10, 0, Low(a), High(a), Low(b), High(b), Low(c), High(c), Low(e), High(e), Low(f), High(f)]
  {
    assert [a, b, c, e, f] == [a] + ([b, c] + [e, f]) && [a][1..] == [];
    WordsSplit([a], [b, c] + [e, f]);
    WordsSplit([b, c], [e, f]);
    WordsTwo(b, c);
    WordsTwo(e, f);
    assert Words([a]) == Two(a) + Words([]);
    TwoBytes(a);
    TwoBytes(10);
    hide Two, Words, Low, High;
  }

  /** e is d with one more packet sent, a signal with these bytes. */
  predicate Said(d: Device, e: Device, bytes: Packet) { e.sent == d.sent + [Frame(d.handle, bytes, 1)] }

  // ---- opening -------------------------------------------------------------------------------

  /**
   * A new socket has its service, its id and its owner and nothing yet from the other end.
   * Listening says nothing; the other kind asks for the service, naming the new id.
   */
  lemma {:induction false} Opened(d: Device, scid: nat, psm: Word16, listen: bool)
    ensures var e := OpenSocket(d, scid, psm, listen);
            && e.sockets == d.sockets[scid := Socket(if listen then Listening else Opening,
                                                     psm, scid % 0x1_0000, 0, [], d.addr)]
            && (listen ==> e.sent == d.sent && e.txid == d.txid)
            && (!listen ==>
                  && e.txid == (d.txid + 1) % 0x100
                  && Said(d, e, [2, d.txid, 4, 0, psm % 0x100, psm / 0x100, scid % 0x100, scid / 0x100 % 0x100]))
  {
    hide Command, Frame;
    CommandTwo(CONN_REQ, d.txid, psm, scid % 0x1_0000);
    LowOfWord(scid);
  }

  lemma {:induction false} LowOfWord(x: nat)
    ensures Low(x % 0x1_0000) == x % 0x100 && High(x % 0x1_0000) == x / 0x100 % 0x100
  {
    var q, r := x / 0x1_0000, x % 0x1_0000;
    assert x == 0x1_0000 * q + r;
    assert x / 0x100 == 0x100 * q + r / 0x100;
  }

  // ---- closing -------------------------------------------------------------------------------

  /**
   * A closed socket is gone and every other one is as it was.  The other end is told, once,
   * exactly when this end closes an open socket.
   */
  lemma {:induction false} ClosedHere(d: Device, scid: nat, thisEnd: bool)
    ensures var e := CloseSocket(d, scid, thisEnd);
            && scid !in e.sockets
            && (forall k :: k in d.sockets && k != scid ==> k in e.sockets && e.sockets[k] == d.sockets[k])
            && e.sockets.Keys <= d.sockets.Keys
            && (if thisEnd && scid in d.sockets && d.sockets[scid].state == Open
                then Said(d, e, [6, d.txid, 4, 0, Low(d.sockets[scid].dcid), High(d.sockets[scid].dcid),
                                 Low(d.sockets[scid].scid), High(d.sockets[scid].scid)])
                else e.sent == d.sent)
  {
    hide Command, Frame;
    if scid in d.sockets { CommandTwo(DISCONN_REQ, d.txid, d.sockets[scid].dcid, d.sockets[scid].scid); }
  }

  /** A disconnected device has no socket and no connection, and has forgotten every signal. */
  lemma {:induction false} AllClosed(d: Device)
    ensures var e := DisconnectAll(d);
            && e.sockets == map[] && e.handle == -1 && e.sent == d.sent && (forall k: Byte :: SignalBit(k) !in e.flags)
            && |e.events| == |d.events| + |d.sockets|
            && (forall k :: k in d.sockets ==> (k, Deleted) in e.events[|d.events|..])
  {
    var ks := Ascending(d.sockets.Keys);
    DeletionsOf(ks);
    var e := DisconnectAll(d);
    assert e.events[|d.events|..] == Deletions(ks);
    assert |d.sockets.Keys| == |d.sockets|;
  }

  lemma {:induction false} DeletionsOf(ks: seq<nat>)
    ensures |Deletions(ks)| == |ks| && forall k :: k in ks ==> (k, Deleted) in Deletions(ks)
  {
    if ks != [] { DeletionsOf(ks[1..]); }
  }

  // ---- what a received signal does --------------------------------------------------------------

  /** Connection response (3): take the channel and ask to configure it; pending (1) waits; else closed. */
  lemma {:induction false} ResponseToConnect(d: Device, c: Packet)
    requires SignalFits(c) && c[0] == 3 && Param(c, 1) in d.sockets
    ensures var k, e := Param(c, 1), Control(d, c);
            var id := (d.txid + 1) % 0x100;
            && (Param(c, 2) == 0 ==>
                  && e.sockets == d.sockets[k := d.sockets[k].(dcid := Param(c, 0))]
                  && Said(d, e, [4, id, 8, 0, c[4], c[5], 0, 0, 1, 2, 0xFF, 0xFF]))
            && (Param(c, 2) == 1 ==> e.sockets == d.sockets && e.sent == d.sent)
            && (Param(c, 2) > 1 ==> e.sockets == d.sockets[k := d.sockets[k].(state := Closed)] && e.sent == d.sent)
  {
    hide L2cap.ConfigureRequest, Param;
    var k := Param(c, 1);
    var e := NextId(d).(flags := d.flags + {SignalBit(c[0])});
    AskedToConfigure(e.(sockets := e.sockets[k := e.sockets[k].(dcid := Param(c, 0))]), Param(c, 0));
    ParamBytes(c, 0);
  }

  lemma {:induction false} AskedToConfigure(d: Device, dcid: Word16)
    ensures var e := ConfigureRequest(d, dcid);
            && e == d.(txid := e.txid, sent := e.sent)
            && Said(d, e, [4, d.txid, 8, 0, Low(dcid), High(dcid), 0, 0, 1, 2, 0xFF, 0xFF])
  {
    hide Command, Frame, Words;
    CommandFour(CONF_REQ, d.txid, dcid, 0, 0x0201, 0xFFFF);
  }

  lemma {:induction false} ParamBytes(c: Packet, i: nat)
    requires |c| >= 6 + 2 * i
    ensures Low(Param(c, i)) == c[4 + 2 * i] && High(Param(c, i)) == c[5 + 2 * i]
  {
  }

  /** Configuration request (4): accept it, on the channel of its socket, with the unit size asked for. */
  lemma {:induction false} RequestToConfigure(d: Device, c: Packet)
    requires SignalFits(c) && c[0] == 4 && Param(c, 0) in d.sockets
    ensures var dcid := d.sockets[Param(c, 0)].dcid;
            Said(d, Control(d, c), [5, c[1], 10, 0, Low(dcid), High(dcid), 0, 0, 0, 0, 1, 2, c[10], c[11]])
  {
    hide Command, Frame, Words;
    CommandFive(CONF_RSP, c[1], d.sockets[Param(c, 0)].dcid, 0, 0, 0x0201, Param(c, 3));
    ParamBytes(c, 3);
  }

  /** Disconnection request (6): the named socket goes, the others stay, and the request is answered in kind. */
  lemma {:induction false} RequestToDisconnect(d: Device, c: Packet)
    requires SignalFits(c) && c[0] == 6
    ensures var k, e := Param(c, 0), Control(d, c);
            && k !in e.sockets
            && (forall j :: j in d.sockets && j != k ==> j in e.sockets && e.sockets[j] == d.sockets[j])
            && e.sockets.Keys <= d.sockets.Keys && Said(d, e, [7, c[1], 4, 0, c[6], c[7], c[4], c[5]])
  {
    hide Command, Frame, Words;
    CommandTwo(DISCONN_RSP, c[1], Param(c, 1), Param(c, 0));
    ParamBytes(c, 0);
    ParamBytes(c, 1);
  }

  /** Information request (10): there is nothing to tell. */
  lemma {:induction false} RequestForInformation(d: Device, c: Packet, reply: Packet)
    requires SignalFits(c) && c[0] == 10 && reply == [11, c[1], 4, 0, c[4], c[5], 1, 0]
    ensures Said(d, Control(d, c), reply) && Control(d, c).sockets == d.sockets
  {
    hide Command, Frame, Words;
    CommandTwo(INFO_RSP, c[1], Param(c, 0), 1);
    ParamBytes(c, 0);
  }

  /** A configuration response (5) is taken in silence, and so is every signal not named here. */
  lemma {:induction false} OtherSignals(d: Device, c: Packet)
    requires SignalFits(c) && c[0] !in {2, 3, 4, 6, 10}
    ensures Control(d, c).sent == d.sent && (c[0] != 5 ==> Control(d, c).sockets == d.sockets)
  {
    hide Ascending;
  }

  // ---- being connected to -------------------------------------------------------------------------

  /** The two packets a listening socket answers with: accepted, and a request to configure. */
  function Answer(handle: int, scid: Word16, rxid: Byte, dcid: Word16): seq<Packet> {
    [Frame(handle, [3, rxid, 8, 0, Low(scid), High(scid), Low(dcid), High(dcid), 0, 0, 0, 0], 1),
     Frame(handle, [4, (rxid + 1) % 0x100, 8, 0, Low(dcid), High(dcid), 0, 0, 1, 2, 0xFF, 0xFF], 1)]
  }

  /** What the sockets of ks on the service answer, in that order. */
  function Answers(d: Device, ks: seq<nat>, rxid: Byte, psm: Word16, dcid: Word16): seq<Packet>
    requires forall i :: 0 <= i < |ks| ==> ks[i] in d.sockets
  {
    if ks == [] then []
    else (if d.sockets[ks[0]].psm == psm then Answer(d.handle, d.sockets[ks[0]].scid, rxid, dcid) else [])
         + Answers(d, ks[1..], rxid, psm, dcid)
  }

  lemma {:induction false} AcceptedOne(d: Device, k: nat, rxid: Byte, dcid: Word16)
    requires k in d.sockets
    ensures var e := AcceptOn(d, k, rxid, dcid);
            && e.sockets == d.sockets[k := d.sockets[k].(state := Opening, dcid := dcid)]
            && e.sent == d.sent + Answer(d.handle, d.sockets[k].scid, rxid, dcid) && e.handle == d.handle
  {
    hide Command, Frame;
    CommandFour(CONN_RSP, rxid, d.sockets[k].scid, dcid, 0, 0);
    CommandFour(CONF_REQ, (rxid + 1) % 0x100, dcid, 0, 0x0201, 0xFFFF);
  }

  ghost predicate Distinct(ks: seq<nat>) { forall i, j :: 0 <= i < j < |ks| ==> ks[i] != ks[j] }

  /** Two devices alike in the sockets of ks give the same answers. */
  lemma {:induction false} SameAnswers(d: Device, e: Device, ks: seq<nat>, rxid: Byte, psm: Word16, dcid: Word16)
    requires e.handle == d.handle
    requires forall i :: 0 <= i < |ks| ==>
               ks[i] in d.sockets && ks[i] in e.sockets && e.sockets[ks[i]] == d.sockets[ks[i]]
    ensures Answers(e, ks, rxid, psm, dcid) == Answers(d, ks, rxid, psm, dcid)
    decreases |ks|
  {
    hide Answer;
    if ks != [] {
      assert ks[0] in d.sockets && e.sockets[ks[0]] == d.sockets[ks[0]];
      forall i | 0 <= i < |ks[1..]| ensures ks[1..][i] in d.sockets && e.sockets[ks[1..][i]] == d.sockets[ks[1..][i]] {
        assert ks[1..][i] == ks[i + 1];
      }
      SameAnswers(d, e, ks[1..], rxid, psm, dcid);
    }
  }

  lemma {:induction false} NoAnswers(d: Device, rxid: Byte, psm: Word16, dcid: Word16)
    ensures d.sent + Answers(d, [], rxid, psm, dcid) == d.sent && OpenedOn(d, d, [], psm, dcid)
  {
  }

  lemma {:induction false} FirstAnswer(d: Device, ks: seq<nat>, rxid: Byte, psm: Word16, dcid: Word16)
    requires ks != [] && forall i :: 0 <= i < |ks| ==> ks[i] in d.sockets
    ensures forall i :: 0 <= i < |ks[1..]| ==> ks[1..][i] in d.sockets
    ensures ks[0] in d.sockets
    ensures Answers(d, ks, rxid, psm, dcid)
            == (if d.sockets[ks[0]].psm == psm then Answer(d.handle, d.sockets[ks[0]].scid, rxid, dcid) else [])
               + Answers(d, ks[1..], rxid, psm, dcid)
  {
    hide Answer;
  }

  /** Every socket of ks on the service opens on the caller's channel, and no other changes. */
  ghost predicate OpenedOn(d: Device, e: Device, ks: seq<nat>, psm: Word16, dcid: Word16) {
    && e.sockets.Keys == d.sockets.Keys
    && forall k :: k in d.sockets ==>
         e.sockets[k] == if k in ks && d.sockets[k].psm == psm
                         then d.sockets[k].(state := Opening, dcid := dcid) else d.sockets[k]
  }

  lemma {:induction false} OpenedOnOneMore(d: Device, c: Device, e: Device, ks: seq<nat>, psm: Word16, dcid: Word16)
    requires ks != [] && ks[0] in d.sockets && ks[0] !in ks[1..] && OpenedOn(c, e, ks[1..], psm, dcid)
    requires c.sockets == if d.sockets[ks[0]].psm == psm
                          then d.sockets[ks[0] := d.sockets[ks[0]].(state := Opening, dcid := dcid)] else d.sockets
    ensures OpenedOn(d, e, ks, psm, dcid)
  {
    forall k | k in d.sockets
      ensures e.sockets[k] == if k in ks && d.sockets[k].psm == psm
                              then d.sockets[k].(state := Opening, dcid := dcid) else d.sockets[k]
    {
      assert k in c.sockets && (k in ks <==> k == ks[0] || k in ks[1..]);
    }
  }

  lemma {:induction false} AcceptedAll(d: Device, ks: seq<nat>, rxid: Byte, psm: Word16, dcid: Word16)
    requires Distinct(ks) && forall i :: 0 <= i < |ks| ==> ks[i] in d.sockets
    ensures var e := Accept(d, ks, rxid, psm, dcid);
            e.sent == d.sent + Answers(d, ks, rxid, psm, dcid) && OpenedOn(d, e, ks, psm, dcid)
    decreases |ks|
  {
    hide Answer, AcceptOn, Answers, OpenedOn;
    if ks == [] {
      NoAnswers(d, rxid, psm, dcid);
    } else {
      var k, rest := ks[0], ks[1..];
      assert k in d.sockets;
      assert forall i :: 0 <= i < |rest| ==> rest[i] == ks[i + 1] && rest[i] != k;
      var hit := d.sockets[k].psm == psm;
      var c := if hit then AcceptOn(d, k, rxid, dcid) else d;
      if hit { AcceptedOne(d, k, rxid, dcid); }
      AcceptedAll(c, rest, rxid, psm, dcid);
      SameAnswers(d, c, rest, rxid, psm, dcid);
      var first := if hit then Answer(d.handle, d.sockets[k].scid, rxid, dcid) else [];
      FirstAnswer(d, ks, rxid, psm, dcid);
      assert d.sent + first + Answers(d, rest, rxid, psm, dcid) == d.sent + (first + Answers(d, rest, rxid, psm, dcid));
      OpenedOnOneMore(d, c, Accept(d, ks, rxid, psm, dcid), ks, psm, dcid);
    }
  }

  /** Every element is one of keys, and they ascend. */
  ghost predicate RisesIn(ks: seq<nat>, keys: set<nat>) {
    (forall i :: 0 <= i < |ks| ==> ks[i] in keys) && (forall i, j :: 0 <= i < j < |ks| ==> ks[i] < ks[j])
  }

  /** Connection request (2): the sockets on the service, in ascending order of id. */
  lemma {:induction false} RequestToConnect(d: Device, c: Packet)
    requires SignalFits(c) && c[0] == 2
    ensures var e, ks := Control(d, c), Ascending(d.sockets.Keys);
            && RisesIn(ks, d.sockets.Keys)
            && e.sent == d.sent + Answers(d, ks, c[1], Param(c, 0), Param(c, 1)) && e.sockets.Keys == d.sockets.Keys
            && (forall k :: k in d.sockets ==>
                  e.sockets[k] == if d.sockets[k].psm == Param(c, 0)
                                  then d.sockets[k].(state := Opening, dcid := Param(c, 1)) else d.sockets[k])
  {
    hide Accept, Ascending, Answer, Param;
    var ks := Ascending(d.sockets.Keys);
    AscendingRises(d.sockets.Keys);
    RisingIsDistinct(ks, d.sockets.Keys);
    var e := NextId(d).(flags := d.flags + {SignalBit(c[0])} + {ACTIVE});
    assert e.sockets == d.sockets;
    AcceptedAll(e, ks, c[1], Param(c, 0), Param(c, 1));
    SameAnswers(d, e, ks, c[1], Param(c, 0), Param(c, 1));
  }

  lemma {:induction false} RisingIsDistinct(ks: seq<nat>, keys: set<nat>)
    requires RisesIn(ks, keys)
    ensures Distinct(ks) && forall i :: 0 <= i < |ks| ==> ks[i] in keys
  {
  }

  lemma {:induction false} AscendingStarts(keys: set<nat>, least: nat)
    requires keys != {} && least == Least(keys)
    ensures Ascending(keys) == [least] + Ascending(keys - {least})
    ensures forall j :: j in keys - {least} ==> least < j
    ensures least in keys
  {
    hide Least;
  }

  lemma {:induction false} AscendingRises(keys: set<nat>)
    ensures RisesIn(Ascending(keys), keys)
    decreases |keys|
  {
    hide Ascending, Least;
    if keys == {} {
      assert |Ascending(keys)| == 0;
    } else {
      var least := Least(keys);
      AscendingStarts(keys, least);
      AscendingRises(keys - {least});
      var rest := Ascending(keys - {least});
      assert forall i :: 0 <= i < |rest| ==> rest[i] in keys - {least};
    }
  }
}
