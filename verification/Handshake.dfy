/** Who may open a socket: the signals of one device over whole runs. */
module Handshake {
  import opened Bytes
  import opened PacketQueue
  import opened L2cap
  import opened L2capLaws

  datatype Event =
    | OpenAt(scid: nat, psm: Word16, listen: bool)
    | CloseAt(scid: nat, thisEnd: bool)
    | Receive(p: Packet)
    | Dial
    | Linked(ok: bool, handle: nat)
    | Drop
    | Role(slave: bool)

  ghost predicate Allowed(d: Device, e: Event) { e.Receive? ==> DataReady(d, e.p) }

  ghost function Step(d: Device, e: Event): Device
    requires Allowed(d, e)
  {
    match e
    case OpenAt(scid, psm, listen) => OpenSocket(d, scid, psm, listen)
    case CloseAt(scid, thisEnd) => CloseSocket(d, scid, thisEnd)
    case Receive(p) => Data(d, p)
    case Dial => CreateConnection(d)
    case Linked(ok, handle) => CompleteConnection(d, ok, handle)
    case Drop => DisconnectAll(d)
    case Role(slave) => SetRole(d, slave)
  }

  ghost predicate AllAllowed(d: Device, es: seq<Event>)
    decreases |es|
  {
    es == [] || (Allowed(d, es[0]) && AllAllowed(Step(d, es[0]), es[1..]))
  }

  ghost function Run(d: Device, es: seq<Event>): Device
    requires AllAllowed(d, es)
    decreases |es|
  {
    if es == [] then d else Run(Step(d, es[0]), es[1..])
  }

  /** The signalling packet an ACL packet completes, if it completes one. */
  ghost function Heard(d: Device, p: Packet): Option<Packet>
    requires DataReady(d, p)
  {
    var c := CopyIn(Begin(d, p), Fragment(p));
    if c.pos == |c.packet| && c.cid == SIGNALLING then Some(c.packet) else None
  }

  /** The signals seen so far: dialling out and disconnecting forget them all. */
  ghost function SeenAfter(d: Device, e: Event, seen: set<Byte>): set<Byte>
    requires Allowed(d, e)
  {
    match e
    case Dial => if d.handle == -1 then {} else seen
    case Drop => {}
    case Receive(p) => if Heard(d, p).Some? then seen + {Heard(d, p).value[0]} else seen
    case _ => seen
  }

  ghost function Seen(d: Device, es: seq<Event>, seen: set<Byte>): set<Byte>
    requires AllAllowed(d, es)
    decreases |es|
  {
    if es == [] then seen else Seen(Step(d, es[0]), es[1..], SeenAfter(d, es[0], seen))
  }

  /** Bit k + 8 of the flags is set exactly when signal k has been seen. */
  ghost predicate Tracks(d: Device, seen: set<Byte>) {
    forall k: Byte :: SignalBit(k) in d.flags <==> k in seen
  }

  lemma {:induction false} AcceptKeepsFlags(d: Device, ks: seq<nat>, rxid: Byte, psm: Word16, dcid: Word16)
    ensures Accept(d, ks, rxid, psm, dcid).flags == d.flags
    ensures forall k :: k in d.sockets && d.sockets[k].state != Open ==>
              Accept(d, ks, rxid, psm, dcid).sockets[k].state != Open
    decreases |ks|
  {
    if ks != [] {
      if ks[0] in d.sockets && d.sockets[ks[0]].psm == psm {
        AcceptKeepsFlags(AcceptOn(d, ks[0], rxid, dcid), ks[1..], rxid, psm, dcid);
      } else {
        AcceptKeepsFlags(d, ks[1..], rxid, psm, dcid);
      }
    }
  }

  lemma {:induction false} ControlFlags(d: Device, c: Packet)
    requires SignalFits(c)
    ensures Control(d, c).flags == d.flags + {SignalBit(c[0])} + if c[0] == CONN_REQ then {ACTIVE} else {}
  {
    hide Accept, Command, Frame, Ascending;
    if c[0] == CONN_REQ {
      var e := NextId(d).(flags := d.flags + {SignalBit(c[0])} + {ACTIVE});
      AcceptKeepsFlags(e, Ascending(e.sockets.Keys), c[1], Param(c, 0), Param(c, 1));
    }
  }

  /** Socket k is open afterwards and was not before. */
  ghost predicate Opens(d: Device, d': Device, k: nat) {
    k in d'.sockets && d'.sockets[k].state == Open && (k !in d.sockets || d.sockets[k].state != Open)
  }

  /** Only a configuration signal opens, only the socket it names, and only on a done handshake. */
  lemma {:induction false} ControlOpens(d: Device, c: Packet, k: nat)
    requires SignalFits(c) && Opens(d, Control(d, c), k)
    ensures (c[0] == CONF_REQ || c[0] == CONF_RSP) && k == Param(c, 0) && k in d.sockets
    ensures HandshakeDone(d.flags + {SignalBit(c[0])})
  {
    hide Accept, Command, Frame, Ascending;
    if c[0] == CONN_REQ {
      var e := NextId(d).(flags := d.flags + {SignalBit(c[0])} + {ACTIVE});
      AcceptKeepsFlags(e, Ascending(e.sockets.Keys), c[1], Param(c, 0), Param(c, 1));
    }
  }

  /** The flags change by the signal heard and nothing else. */
  lemma {:induction false} DataFlags(d: Device, p: Packet)
    requires DataReady(d, p)
    ensures Heard(d, p) == None ==> Data(d, p).flags == d.flags
    ensures Heard(d, p).Some? ==>
              var c := Heard(d, p).value;
              SignalFits(c) &&
              Data(d, p).flags == d.flags + {SignalBit(c[0])} + if c[0] == CONN_REQ then {ACTIVE} else {}
  {
    hide Control, AclFits, IsStart, Fragment;
    if Heard(d, p).Some? {
      ControlFlags(CopyIn(Begin(d, p), Fragment(p)), Heard(d, p).value);
    }
  }

  lemma {:induction false} QuietFlags(d: Device, e: Event)
    requires !e.Receive?
    ensures (e.OpenAt? || e.CloseAt?) ==> Step(d, e).flags == d.flags
    ensures e.Dial? ==> Step(d, e).flags == if d.handle == -1 then {} else d.flags
    ensures e.Drop? ==> Step(d, e).flags == {SLAVE}
    ensures (e.Role? || e.Linked?) ==> Step(d, e).flags - {SLAVE} == d.flags - {SLAVE}
  {
    hide Frame, Command, Ascending;
  }

  lemma {:induction false} StepTracks(d: Device, e: Event, seen: set<Byte>)
    requires Allowed(d, e) && Tracks(d, seen)
    ensures Tracks(Step(d, e), SeenAfter(d, e, seen))
  {
    hide Data, DataReady, Heard;
    if e.Receive? {
      DataFlags(d, e.p);
    } else {
      QuietFlags(d, e);
      hide Step;
      var f, g := d.flags - {SLAVE}, Step(d, e).flags - {SLAVE};
      assert forall k: Byte :: SignalBit(k) in d.flags <==> SignalBit(k) in f;
      assert forall k: Byte :: SignalBit(k) in Step(d, e).flags <==> SignalBit(k) in g;
    }
  }

  lemma {:induction false} RunTracks(d: Device, es: seq<Event>, seen: set<Byte>)
    requires AllAllowed(d, es) && Tracks(d, seen)
    ensures Tracks(Run(d, es), Seen(d, es, seen))
    decreases |es|
  {
    hide Step, SeenAfter, Allowed, Tracks;
    if es != [] {
      StepTracks(d, es[0], seen);
      RunTracks(Step(d, es[0]), es[1..], SeenAfter(d, es[0], seen));
    }
  }

  /** Whether a configuration signal opens its socket depends on the device's flags alone. */
  lemma {:induction false} OpensOnDeviceFlags(d: Device, c: Packet)
    requires SignalFits(c) && (c[0] == CONF_REQ || c[0] == CONF_RSP) && Param(c, 0) in d.sockets
    ensures Param(c, 0) in Control(d, c).sockets
    ensures Control(d, c).sockets[Param(c, 0)].state == Open
            <==> d.sockets[Param(c, 0)].state == Open || HandshakeDone(d.flags + {SignalBit(c[0])})
  {
    hide Command, Frame;
  }

  const ANSWERS: set<Byte> := {CONN_RSP, CONF_REQ, CONF_RSP}

  /** The three answers were seen, and no request to connect to us. */
  predicate HandshakeSeen(now: set<Byte>) { ANSWERS <= now && CONN_REQ !in now }

  /** The event completes a configuration signal for socket k, which is known and not open. */
  ghost predicate Configures(d: Device, e: Event, k: nat)
    requires Allowed(d, e)
  {
    && e.Receive? && Heard(d, e.p).Some? && k in d.sockets && d.sockets[k].state != Open
    && var c := Heard(d, e.p).value;
       SignalFits(c) && (c[0] == CONF_REQ || c[0] == CONF_RSP) && k == Param(c, 0)
  }

  lemma {:induction false} StepOpens(d: Device, e: Event, seen: set<Byte>, k: nat)
    requires Allowed(d, e) && Tracks(d, seen)
    ensures Opens(d, Step(d, e), k) <==> Configures(d, e, k) && HandshakeSeen(SeenAfter(d, e, seen))
  {
    if e.Receive? {
      if Heard(d, e.p).Some? {
        SignalOpens(d, e.p, seen, k);
      } else {
        QuietPacketOpensNothing(d, e.p, k);
      }
    } else {
      QuietOpensNothing(d, e, k);
    }
  }

  lemma {:induction false} SignalOpens(d: Device, p: Packet, seen: set<Byte>, k: nat)
    requires DataReady(d, p) && Tracks(d, seen) && Heard(d, p).Some?
    ensures Opens(d, Data(d, p), k)
            <==> Configures(d, Receive(p), k) && HandshakeSeen(SeenAfter(d, Receive(p), seen))
  {
    hide Control, Accept, Param, AclFits, IsStart, Fragment, SignalFits;
    HeardFits(d, p);
    var x, c := CopyIn(Begin(d, p), Fragment(p)), Heard(d, p).value;
    assert Data(d, p) == Control(x, c).(pos := 0);
    assert HandshakeDone(d.flags + {SignalBit(c[0])}) <==> HandshakeSeen(seen + {c[0]});
    if Opens(x, Control(x, c), k) {
      ControlOpens(x, c, k);
    }
    if Configures(d, Receive(p), k) {
      OpensOnDeviceFlags(x, c);
    }
  }

  lemma {:induction false} QuietPacketOpensNothing(d: Device, p: Packet, k: nat)
    requires DataReady(d, p) && Heard(d, p) == None
    ensures !Opens(d, Data(d, p), k)
  {
    hide Control, AclFits, IsStart, Fragment;
  }

  lemma {:induction false} QuietOpensNothing(d: Device, e: Event, k: nat)
    requires !e.Receive?
    ensures !Opens(d, Step(d, e), k)
  {
    hide Frame, Command, Ascending;
  }

  /** A device that has seen no signal yet. */
  ghost predicate Unsignalled(d: Device) { forall k: Byte :: SignalBit(k) !in d.flags }

  /**
   * In every run of a device, a socket becomes open exactly when a configuration signal
   * names it and, since the last dialling out or disconnection, the device has seen a
   * connection response, a configuration request and a configuration response, and no
   * connection request.
   */
  lemma {:induction false} HandshakeHistory(d: Device, es: seq<Event>, e: Event, k: nat)
    requires Unsignalled(d) && AllAllowed(d, es) && Allowed(Run(d, es), e)
    ensures Opens(Run(d, es), Step(Run(d, es), e), k)
            <==> Configures(Run(d, es), e, k) && HandshakeSeen(SeenAfter(Run(d, es), e, Seen(d, es, {})))
  {
    hide Step, SeenAfter, Allowed, Opens, Configures, HandshakeSeen;
    RunTracks(d, es, {});
    StepOpens(Run(d, es), e, Seen(d, es, {}), k);
  }

  // ---- per device, not per socket ----------------------------------------------------------

  /** The signal is one of the three answers and is about socket s. */
  predicate Answers(c: Packet) { SignalFits(c) && c[0] in {CONN_RSP, CONF_REQ, CONF_RSP} }

  function Named(c: Packet): nat
    requires Answers(c)
  {
    if c[0] == CONN_RSP then Param(c, 1) else Param(c, 0)
  }

  /**
   * The answers seen since the last dialling out or disconnection that are about socket s,
   * or, when mine is false, about any other socket.
   */
  ghost function AnsweredAfter(d: Device, e: Event, s: nat, mine: bool, got: set<Byte>): set<Byte>
    requires Allowed(d, e)
  {
    match e
    case Dial => if d.handle == -1 then {} else got
    case Drop => {}
    case Receive(p) =>
      if Heard(d, p).Some? && Answers(Heard(d, p).value) && (Named(Heard(d, p).value) == s) == mine
      then got + {Heard(d, p).value[0]} else got
    case _ => got
  }

  ghost function Answered(d: Device, es: seq<Event>, s: nat, mine: bool, got: set<Byte>): set<Byte>
    requires AllAllowed(d, es)
    decreases |es|
  {
    if es == [] then got else Answered(Step(d, es[0]), es[1..], s, mine, AnsweredAfter(d, es[0], s, mine, got))
  }

  lemma {:induction false} HeardFits(d: Device, p: Packet)
    requires DataReady(d, p) && Heard(d, p).Some?
    ensures SignalFits(Heard(d, p).value)
  {
  }

  lemma {:induction false} SeenSplitsAfter(d: Device, e: Event, s: nat,
                                           seen: set<Byte>, own: set<Byte>, others: set<Byte>)
    requires Allowed(d, e) && seen * ANSWERS == own + others
    ensures SeenAfter(d, e, seen) * ANSWERS
            == AnsweredAfter(d, e, s, true, own) + AnsweredAfter(d, e, s, false, others)
  {
    hide Heard, DataReady, SignalFits;
    if e.Receive? && Heard(d, e.p).Some? {
      HeardFits(d, e.p);
      AddSignal(seen, Heard(d, e.p).value[0]);
    }
  }

  lemma {:induction false} AddSignal(seen: set<Byte>, x: Byte)
    ensures (seen + {x}) * ANSWERS == seen * ANSWERS + if x in ANSWERS then {x} else {}
  {
  }

  /** Every answer seen is about socket s or about another one. */
  lemma {:induction false} SeenSplits(d: Device, es: seq<Event>, s: nat,
                                      seen: set<Byte>, own: set<Byte>, others: set<Byte>)
    requires AllAllowed(d, es) && seen * ANSWERS == own + others
    ensures Seen(d, es, seen) * ANSWERS == Answered(d, es, s, true, own) + Answered(d, es, s, false, others)
    decreases |es|
  {
    hide Step, Allowed, SeenAfter, AnsweredAfter;
    if es != [] {
      var e := es[0];
      SeenSplitsAfter(d, e, s, seen, own, others);
      SeenSplits(Step(d, e), es[1..], s, SeenAfter(d, e, seen),
                 AnsweredAfter(d, e, s, true, own), AnsweredAfter(d, e, s, false, others));
    }
  }

  lemma {:induction false} SeenIsOwnAndOthers(d: Device, es: seq<Event>, e: Event, k: nat)
    requires AllAllowed(d, es) && Allowed(Run(d, es), e)
    ensures var now := SeenAfter(Run(d, es), e, Seen(d, es, {}));
            var own := AnsweredAfter(Run(d, es), e, k, true, Answered(d, es, k, true, {}));
            var others := AnsweredAfter(Run(d, es), e, k, false, Answered(d, es, k, false, {}));
            now * ANSWERS == own + others && (ANSWERS <= now <==> own + others == ANSWERS)
  {
    hide Step, SeenAfter, AnsweredAfter, Allowed;
    assert {} * ANSWERS == {} + {};
    SeenSplits(d, es, k, {}, {}, {});
    SeenSplitsAfter(Run(d, es), e, k, Seen(d, es, {}), Answered(d, es, k, true, {}), Answered(d, es, k, false, {}));
    Covered(SeenAfter(Run(d, es), e, Seen(d, es, {})));
  }

  lemma {:induction false} Covered(now: set<Byte>)
    ensures ANSWERS <= now <==> now * ANSWERS == ANSWERS
  {
  }

  /**
   * A socket that opens has had its own three answers exactly when every answer heard about
   * another socket since the last dialling out or disconnection was heard about it as well.
   */
  lemma {:induction false} OpensOnOwnAnswers(d: Device, es: seq<Event>, e: Event, k: nat)
    requires Unsignalled(d) && AllAllowed(d, es) && Allowed(Run(d, es), e)
    requires Opens(Run(d, es), Step(Run(d, es), e), k)
    ensures var own := AnsweredAfter(Run(d, es), e, k, true, Answered(d, es, k, true, {}));
            var others := AnsweredAfter(Run(d, es), e, k, false, Answered(d, es, k, false, {}));
            ANSWERS <= own <==> others <= own
  {
    hide Step, Opens, SeenAfter, AnsweredAfter, Allowed, Configures;
    HandshakeHistory(d, es, e, k);
    SeenIsOwnAndOthers(d, es, e, k);
  }

  /** With one socket at a time, since the last reset, the handshake is the socket's own. */
  lemma {:induction false} SingleSocketHandshake(d: Device, es: seq<Event>, e: Event, k: nat)
    requires Unsignalled(d) && AllAllowed(d, es) && Allowed(Run(d, es), e)
    requires AnsweredAfter(Run(d, es), e, k, false, Answered(d, es, k, false, {})) == {}
    ensures var own := AnsweredAfter(Run(d, es), e, k, true, Answered(d, es, k, true, {}));
            Opens(Run(d, es), Step(Run(d, es), e), k)
            <==> Configures(Run(d, es), e, k) && ANSWERS <= own
                 && CONN_REQ !in SeenAfter(Run(d, es), e, Seen(d, es, {}))
  {
    hide Step, Opens, SeenAfter, AnsweredAfter, Allowed, Configures;
    HandshakeHistory(d, es, e, k);
    SeenIsOwnAndOthers(d, es, e, k);
  }

  /** An answer about one socket leaves every other one alone. */
  lemma {:induction false} AnswerElsewhere(d: Device, c: Packet, k: nat)
    requires Answers(c) && k in d.sockets && k != Named(c)
    ensures k in Control(d, c).sockets && Control(d, c).sockets[k] == d.sockets[k]
  {
    hide Frame, Command;
  }

  lemma {:induction false} ResponseKeepsChannel(d: Device, c: Packet)
    requires SignalFits(c) && c[0] == CONF_RSP && Param(c, 0) in d.sockets
    ensures Param(c, 0) in Control(d, c).sockets
    ensures Control(d, c).sockets[Param(c, 0)].dcid == d.sockets[Param(c, 0)].dcid
  {
    hide Frame, Command;
  }

  /** An answer about a socket keeps it, and only an accepting connection response names its channel. */
  lemma {:induction false} AnswerKeepsSocket(d: Device, c: Packet)
    requires Answers(c) && Named(c) in d.sockets
    ensures Named(c) in Control(d, c).sockets
    ensures Control(d, c).sockets[Named(c)].dcid
            == if c[0] == CONN_RSP && Param(c, 2) == 0 then Param(c, 0) else d.sockets[Named(c)].dcid
  {
    hide Frame, Command;
  }

  /**
   * The handshake is enough: an accepting connection response and the two configuration
   * signals, in either order, open their socket on the channel the other end named.
   */
  lemma {:induction false} OwnAnswersOpen(d: Device, c1: Packet, c2: Packet, c3: Packet)
    requires Unsignalled(d) && Answers(c1) && Answers(c2) && Answers(c3)
    requires c1[0] == CONN_RSP && Param(c1, 2) == 0
    requires (c2[0] == CONF_REQ && c3[0] == CONF_RSP) || (c2[0] == CONF_RSP && c3[0] == CONF_REQ)
    requires Named(c1) == Named(c2) == Named(c3) && Named(c1) in d.sockets
    ensures var k := Named(c1);
            var e := Control(Control(Control(d, c1), c2), c3);
            k in e.sockets && e.sockets[k].state == Open && e.sockets[k].dcid == Param(c1, 0)
  {
    hide Param, Control, SignalFits;
    var d1 := Control(d, c1);
    ControlFlags(d, c1);
    AnswerKeepsSocket(d, c1);
    var d2 := Control(d1, c2);
    ControlFlags(d1, c2);
    AnswerKeepsSocket(d1, c2);
    assert SignalBit(CONN_REQ) !in d.flags;
    OpensOnDeviceFlags(d2, c3);
    AnswerKeepsSocket(d2, c3);
  }

  // ---- two sockets at once --------------------------------------------------------------

  ghost predicate Signals(cs: seq<Packet>) {
    forall i :: 0 <= i < |cs| ==> SignalFits(cs[i]) && |cs[i]| + 4 < 0x1_0000
  }

  /** The events of signals arriving, each in one ACL packet. */
  function Arrivals(handle: nat, cs: seq<Packet>): seq<Event> {
    if cs == [] then [] else [Receive(Frame(handle, cs[0], SIGNALLING))] + Arrivals(handle, cs[1..])
  }

  /** The device with the packet in place, and after it was handled. */
  function Holding(d: Device, c: Packet): Device { d.(packet := c, cid := SIGNALLING, pos := |c|) }

  ghost function Take(d: Device, c: Packet): Device
    requires SignalFits(c)
  {
    Control(Holding(d, c), c).(pos := 0)
  }

  ghost function TakeAll(d: Device, cs: seq<Packet>): Device
    requires Signals(cs)
    decreases |cs|
  {
    if cs == [] then d else TakeAll(Take(d, cs[0]), cs[1..])
  }

  function AnswersIn(cs: seq<Packet>, s: nat, mine: bool): set<Byte> {
    if cs == [] then {}
    else (if Answers(cs[0]) && (Named(cs[0]) == s) == mine then {cs[0][0]} else {}) + AnswersIn(cs[1..], s, mine)
  }

  lemma {:induction false} SignalArrives(d: Device, handle: nat, c: Packet)
    requires handle < 0x1000 && d.pos == 0 && SignalFits(c) && |c| + 4 < 0x1_0000
    ensures var p := Frame(handle, c, SIGNALLING); DataReady(d, p) && Heard(d, p) == Some(c) && Data(d, p) == Take(d, c)
  {
    hide Frame, StartFragment, Control, SignalFits, AclFits, IsStart, Fragment;
    FrameIsStart(handle, SIGNALLING, c);
    StartParts(handle, |c|, SIGNALLING, c);
    var p := Frame(handle, c, SIGNALLING);
    assert CopyIn(Begin(d, p), Fragment(p)) == Holding(d, c);
  }

  lemma {:induction false} SignalsArrive(d: Device, handle: nat, cs: seq<Packet>, s: nat, mine: bool, got: set<Byte>)
    requires handle < 0x1000 && d.pos == 0 && Signals(cs)
    ensures var es := Arrivals(handle, cs);
            && AllAllowed(d, es) && Run(d, es) == TakeAll(d, cs)
            && Answered(d, es, s, mine, got) == got + AnswersIn(cs, s, mine)
    decreases |cs|
  {
    hide Frame, Take, Data, DataReady, Heard;
    if cs != [] {
      SignalArrives(d, handle, cs[0]);
      var es := Arrivals(handle, cs);
      assert es[0] == Receive(Frame(handle, cs[0], SIGNALLING)) && es[1..] == Arrivals(handle, cs[1..]);
      TakeResets(d, cs[0]);
      SignalsArrive(Take(d, cs[0]), handle, cs[1..], s, mine, AnsweredAfter(d, es[0], s, mine, got));
    }
  }

  lemma {:induction false} TakeResets(d: Device, c: Packet)
    requires SignalFits(c)
    ensures Take(d, c).pos == 0
    ensures Take(d, c).flags == d.flags + {SignalBit(c[0])} + if c[0] == CONN_REQ then {ACTIVE} else {}
  {
    hide Control;
    ControlFlags(Holding(d, c), c);
  }

  lemma {:induction false} TakeKeepsKeys(d: Device, c: Packet)
    requires Answers(c)
    ensures Take(d, c).sockets.Keys == d.sockets.Keys
  {
    hide Frame, Command;
  }

  lemma {:induction false} TakeElsewhere(d: Device, c: Packet, k: nat)
    requires Answers(c) && k in d.sockets && k != Named(c)
    ensures k in Take(d, c).sockets && Take(d, c).sockets[k] == d.sockets[k]
  {
    hide Control;
    AnswerElsewhere(Holding(d, c), c, k);
  }

  /** Three answers about other sockets, then a configuration response for one that is known. */
  ghost predicate EarlyAnswers(d: Device, cs: seq<Packet>) {
    && |cs| == 4 && Signals(cs) && Answers(cs[0]) && Answers(cs[1]) && Answers(cs[2]) && Answers(cs[3])
    && cs[0][0] == CONN_RSP && cs[1][0] == CONF_REQ && cs[2][0] == cs[3][0] == CONF_RSP
    && Named(cs[3]) !in {Named(cs[0]), Named(cs[1]), Named(cs[2])} && Named(cs[3]) in d.sockets
  }

  /**
   * Once any socket has had its three answers, a single configuration response opens
   * another, whose own handshake has not begun.
   */
  lemma {:induction false} OtherSocketOpensEarly(d: Device, handle: nat, cs: seq<Packet>)
    requires handle < 0x1000 && d.pos == 0 && Unsignalled(d) && EarlyAnswers(d, cs)
    ensures AllAllowed(d, Arrivals(handle, cs))
    ensures var es := Arrivals(handle, cs);
            var k, e := Named(cs[3]), Run(d, es);
            && k in e.sockets && e.sockets[k].state == Open && e.sockets[k].dcid == d.sockets[k].dcid
            && e.sockets.Keys == d.sockets.Keys && Answered(d, es, k, true, {}) == {CONF_RSP}
  {
    hide Param, Control, SignalFits, Arrivals, Run, AllAllowed, Answered, Named;
    var c1, c2, c3, c4 := cs[0], cs[1], cs[2], cs[3];
    assert cs == [c1, c2, c3, c4];
    var k := Named(c4);
    var d1 := Take(d, c1);
    TakeResets(d, c1);
    TakeElsewhere(d, c1, k);
    TakeKeepsKeys(d, c1);
    var d2 := Take(d1, c2);
    TakeResets(d1, c2);
    TakeElsewhere(d1, c2, k);
    TakeKeepsKeys(d1, c2);
    var d3 := Take(d2, c3);
    TakeResets(d2, c3);
    TakeElsewhere(d2, c3, k);
    TakeKeepsKeys(d2, c3);
    assert SignalBit(CONN_REQ) !in d.flags;
    LastAnswerOpens(d3, c4);
    TakeKeepsKeys(d3, c4);
    TakeFour(d, cs, k);
    SignalsArrive(d, handle, cs, k, true, {});
  }

  lemma {:induction false} LastAnswerOpens(d: Device, c: Packet)
    requires Answers(c) && c[0] == CONF_RSP && Named(c) in d.sockets && HandshakeDone(d.flags)
    ensures Named(c) in Take(d, c).sockets && Take(d, c).sockets[Named(c)].state == Open
    ensures Take(d, c).sockets[Named(c)].dcid == d.sockets[Named(c)].dcid
  {
    hide Control;
    assert d.flags + {SignalBit(CONF_RSP)} == d.flags;
    OpensOnDeviceFlags(Holding(d, c), c);
    AnswerKeepsSocket(Holding(d, c), c);
  }

  lemma {:induction false} TakeFour(d: Device, cs: seq<Packet>, k: nat)
    requires EarlyAnswers(d, cs) && k == Named(cs[3])
    ensures forall i :: 0 <= i < 4 ==> SignalFits(cs[i])
    ensures TakeAll(d, cs) == Take(Take(Take(Take(d, cs[0]), cs[1]), cs[2]), cs[3])
    ensures AnswersIn(cs, k, true) == {CONF_RSP}
  {
    hide Take, Named;
    var c1, c2, c3, c4 := cs[0], cs[1], cs[2], cs[3];
    assert cs == [c1, c2, c3, c4];
    var none: seq<Packet> := [];
    assert cs[1..] == [c2, c3, c4] && [c2, c3, c4][1..] == [c3, c4] && [c3, c4][1..] == [c4] && [c4][1..] == none;
    assert AnswersIn([c4], k, true) == {c4[0]};
    assert AnswersIn([c3, c4], k, true) == {c4[0]};
    assert AnswersIn([c2, c3, c4], k, true) == {c4[0]};
    var d3 := Take(Take(Take(d, c1), c2), c3);
    assert TakeAll(d3, [c4]) == Take(d3, c4);
    assert TakeAll(Take(Take(d, c1), c2), [c3, c4]) == Take(d3, c4);
    assert TakeAll(Take(d, c1), [c2, c3, c4]) == Take(d3, c4);
  }

  lemma {:induction false} RunSplit(d: Device, a: seq<Event>, b: seq<Event>, s: nat, got: set<Byte>)
    requires AllAllowed(d, a) && AllAllowed(Run(d, a), b)
    ensures AllAllowed(d, a + b) && Run(d, a + b) == Run(Run(d, a), b)
    ensures Answered(d, a + b, s, true, got) == Answered(Run(d, a), b, s, true, Answered(d, a, s, true, got))
    decreases |a|
  {
    hide Step, Allowed, AnsweredAfter;
    if a == [] {
      assert a + b == b;
    } else {
      assert (a + b)[0] == a[0] && (a + b)[1..] == a[1..] + b;
      RunSplit(Step(d, a[0]), a[1..], b, s, AnsweredAfter(d, a[0], s, true, got));
    }
  }

  /** Dialling out, getting the connection, and opening sockets 40 and 41 on it. */
  const TWO_SOCKETS: seq<Event> := [Dial, Linked(true, 1), OpenAt(0x40, 0x11, false), OpenAt(0x41, 0x13, false)]

  lemma {:induction false} TwoSocketsOpening(addr: nat)
    ensures AllAllowed(NewDevice(addr), TWO_SOCKETS)
    ensures var d := Run(NewDevice(addr), TWO_SOCKETS);
            && d.pos == 0 && Unsignalled(d) && d.sockets.Keys == {0x40, 0x41}
            && d.sockets[0x41].state == Opening && d.sockets[0x41].dcid == 0
    ensures Answered(NewDevice(addr), TWO_SOCKETS, 0x41, true, {}) == {}
  {
    hide Frame, Command;
    var d := NewDevice(addr);
    var a, b, c, e := TWO_SOCKETS[0], TWO_SOCKETS[1], TWO_SOCKETS[2], TWO_SOCKETS[3];
    var d1 := Step(d, a);
    var d2 := Step(d1, b);
    var d3 := Step(d2, c);
    var d4 := Step(d3, e);
    assert TWO_SOCKETS[1..] == [b, c, e] && [b, c, e][1..] == [c, e] && [c, e][1..] == [e] && [e][1..] == [];
    assert AllAllowed(d4, []) && AllAllowed(d3, [e]) && AllAllowed(d2, [c, e]) && AllAllowed(d1, [b, c, e]);
    assert Run(d3, [e]) == d4;
    assert Run(d2, [c, e]) == d4;
    assert Run(d1, [b, c, e]) == d4;
    assert Run(d, TWO_SOCKETS) == d4;
    assert Answered(d3, [e], 0x41, true, {}) == {};
    assert Answered(d2, [c, e], 0x41, true, {}) == {};
    assert Answered(d1, [b, c, e], 0x41, true, {}) == {};
  }

  /**
   * Such a run from power-on: sockets 40 and 41 opening together.  After the three answers
   * about 40 and one configuration response, 41 is open with no channel id.
   */
  lemma {:induction false} SecondSocketOpensEarly(addr: nat) returns (es: seq<Event>)
    ensures AllAllowed(NewDevice(addr), es)
    ensures var d := Run(NewDevice(addr), es);
            && 0x40 in d.sockets && 0x41 in d.sockets && d.sockets[0x41].state == Open && d.sockets[0x41].dcid == 0
    ensures Answered(NewDevice(addr), es, 0x41, true, {}) == {CONF_RSP}
  {
    hide Param, SignalFits, Command, Run, AllAllowed, Answered, Arrivals;
    TwoSocketsOpening(addr);
    var d := Run(NewDevice(addr), TWO_SOCKETS);
    var c1 := AnswerPacket(CONN_RSP, [0x60, 0x40, 0, 0]);
    var c2 := AnswerPacket(CONF_REQ, [0x40, 0, 0x0201, 672]);
    var c3 := AnswerPacket(CONF_RSP, [0x40, 0, 0]);
    var c4 := AnswerPacket(CONF_RSP, [0x41, 0, 0]);
    var answers := Arrivals(1, [c1, c2, c3, c4]);
    OtherSocketOpensEarly(d, 1, [c1, c2, c3, c4]);
    RunSplit(NewDevice(addr), TWO_SOCKETS, answers, 0x41, {});
    es := TWO_SOCKETS + answers;
    assert 0x40 in d.sockets.Keys;
  }

  /** A signalling packet with the given parameters. */
  lemma {:induction false} AnswerPacket(cmd: Byte, params: seq<Word16>) returns (c: Packet)
    requires cmd in {CONN_RSP, CONF_REQ, CONF_RSP} && |params| >= ParamsRead(cmd) && |params| >= 2
    ensures c == Command(cmd, 1, params) && |c| == 4 + 2 * |params| && Answers(c) && c[0] == cmd
    ensures Named(c) == if cmd == CONN_RSP then params[1] else params[0]
  {
    c := Command(cmd, 1, params);
    CommandParams(cmd, 1, params);
  }

  lemma {:induction false} CommandParams(cmd: Byte, id: Byte, params: seq<Word16>)
    requires |params| >= ParamsRead(cmd)
    ensures var c := Command(cmd, id, params);
            && |c| == 4 + 2 * |params| && c[0] == cmd && c[1] == id && SignalFits(c)
            && forall i :: 0 <= i < |params| ==> Param(c, i) == params[i]
  {
    var c := Command(cmd, id, params);
    forall i | 0 <= i < |params| ensures Param(c, i) == params[i] {
      WordsAt(params, i);
      assert c[4 + 2 * i] == Words(params)[2 * i] && c[5 + 2 * i] == Words(params)[2 * i + 1];
      TwoRoundTrip(params[i]);
    }
  }

  lemma {:induction false} WordsAt(ws: seq<Word16>, i: nat)
    requires i < |ws|
    ensures Words(ws)[2 * i] == Low(ws[i]) && Words(ws)[2 * i + 1] == High(ws[i])
    decreases |ws|
  {
    if i > 0 { WordsAt(ws[1..], i - 1); }
  }
}
