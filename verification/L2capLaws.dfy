/** What holds over whole packets and whole runs of one device. */
module L2capLaws {
  import opened Bytes
  import opened BitList
  import opened PacketQueue
  import opened L2cap

  // ---- fragments ---------------------------------------------------------------------

  /** The first fragment of a packet of n bytes on channel cid. */
  function StartFragment(handle: nat, n: nat, cid: Word16, chunk: Packet): Packet
    requires handle < 0x1000 && n < 0x1_0000 && |chunk| + 4 < 0x1_0000
  {
    [0x02] + Two(handle + 0x2000) + Two(|chunk| + 4) + Two(n) + Two(cid) + chunk
  }

  function Continuation(handle: nat, chunk: Packet): Packet
    requires handle < 0x1000 && |chunk| < 0x1_0000
  {
    [0x02] + Two(handle + 0x1000) + Two(|chunk|) + chunk
  }

  lemma {:induction false} TwoRoundTrip(w: Word16)
    ensures Word(Low(w), High(w)) == w
  {
  }

  lemma {:induction false} StartParts(handle: nat, n: nat, cid: Word16, chunk: Packet)
    requires handle < 0x1000 && n < 0x1_0000 && |chunk| + 4 < 0x1_0000
    ensures var p := StartFragment(handle, n, cid, chunk);
            AclFits(p) && IsStart(p) && Fragment(p) == chunk && Word(p[5], p[6]) == n && Word(p[7], p[8]) == cid
  {
    var p := StartFragment(handle, n, cid, chunk);
    TwoRoundTrip(handle + 0x2000);
    TwoRoundTrip(|chunk| + 4);
    TwoRoundTrip(n);
    TwoRoundTrip(cid);
    assert p[1] == Low(handle + 0x2000) && p[2] == High(handle + 0x2000);
    assert p[3] == Low(|chunk| + 4) && p[4] == High(|chunk| + 4);
    assert p[5] == Low(n) && p[6] == High(n) && p[7] == Low(cid) && p[8] == High(cid);
  }

  lemma {:induction false} ContinuationParts(handle: nat, chunk: Packet)
    requires handle < 0x1000 && |chunk| < 0x1_0000
    ensures var p := Continuation(handle, chunk); AclFits(p) && !IsStart(p) && Fragment(p) == chunk
  {
    var p := Continuation(handle, chunk);
    TwoRoundTrip(handle + 0x1000);
    TwoRoundTrip(|chunk|);
    assert p[1] == Low(handle + 0x1000) && p[2] == High(handle + 0x1000);
    assert p[3] == Low(|chunk|) && p[4] == High(|chunk|);
  }

  function Concat(chunks: seq<Packet>): Packet {
    if chunks == [] then [] else chunks[0] + Concat(chunks[1..])
  }

  ghost predicate Chunks(chunks: seq<Packet>) {
    && chunks != [] && chunks[|chunks| - 1] != []
    && forall i :: 0 <= i < |chunks| ==> |chunks[i]| + 4 < 0x1_0000
  }

  function Continuations(handle: nat, chunks: seq<Packet>): seq<Packet>
    requires handle < 0x1000 && forall i :: 0 <= i < |chunks| ==> |chunks[i]| + 4 < 0x1_0000
  {
    if chunks == [] then [] else [Continuation(handle, chunks[0])] + Continuations(handle, chunks[1..])
  }

  /** A packet of n bytes cut into a start fragment and continuations. */
  function Fragments(handle: nat, n: nat, cid: Word16, chunks: seq<Packet>): seq<Packet>
    requires handle < 0x1000 && n < 0x1_0000 && Chunks(chunks)
  {
    [StartFragment(handle, n, cid, chunks[0])] + Continuations(handle, chunks[1..])
  }

  // ---- reassembly ------------------------------------------------------------------------

  lemma {:induction false} ConcatLast(chunks: seq<Packet>)
    requires chunks != [] && chunks[|chunks| - 1] != []
    ensures |Concat(chunks)| > 0
    decreases |chunks|
  {
    if |chunks| > 1 { ConcatLast(chunks[1..]); }
  }

  /** The continuations fill the packet from pos on; the last of them completes it. */
  lemma {:induction false} ContinuationsFill(d: Device, handle: nat, chunks: seq<Packet>)
    requires handle < 0x1000 && Chunks(chunks)
    requires d.pos + |Concat(chunks)| == |d.packet|
    requires d.cid == SIGNALLING ==> SignalFits(d.packet[..d.pos] + Concat(chunks))
    ensures AllReady(d, Continuations(handle, chunks))
    ensures DataAll(d, Continuations(handle, chunks))
            == Deliver(d.(packet := d.packet[..d.pos] + Concat(chunks), pos := |d.packet|))
    decreases |chunks|
  {
    hide Deliver, Continuation, AclFits, IsStart, Fragment, SignalFits;
    var p := Continuation(handle, chunks[0]);
    ContinuationParts(handle, chunks[0]);
    var c := CopyIn(d, chunks[0]);
    assert c.packet[..c.pos] == d.packet[..d.pos] + chunks[0];
    if |chunks| == 1 {
      assert chunks[1..] == [] && Concat(chunks) == chunks[0];
      assert c.packet == d.packet[..d.pos] + Concat(chunks);
    } else {
      ConcatLast(chunks[1..]);
      assert d.packet[..d.pos] + chunks[0] + Concat(chunks[1..]) == d.packet[..d.pos] + Concat(chunks);
      ContinuationsFill(c, handle, chunks[1..]);
    }
  }

  /** The device once a start fragment's bytes are in place. */
  function Started(d: Device, n: nat, cid: Word16, chunk: Packet): Device
    requires d.pos + |chunk| <= n
  {
    CopyIn(d.(packet := Resize(d.packet, n), cid := cid), chunk)
  }

  lemma {:induction false} StartFills(d: Device, handle: nat, n: nat, cid: Word16, chunk: Packet)
    requires handle < 0x1000 && n < 0x1_0000 && |chunk| + 4 < 0x1_0000 && d.pos + |chunk| <= n
    requires d.pos + |chunk| == n && cid == SIGNALLING ==> SignalFits(Resize(d.packet, n)[..d.pos] + chunk)
    ensures var p, c := StartFragment(handle, n, cid, chunk), Started(d, n, cid, chunk);
            && DataReady(d, p) && Data(d, p) == (if c.pos == n then Deliver(c) else c)
            && |c.packet| == n && c.pos == d.pos + |chunk| && c.cid == cid
            && c.packet[..c.pos] == Resize(d.packet, n)[..d.pos] + chunk
  {
    hide Deliver, StartFragment, AclFits, IsStart, Fragment, SignalFits, Resize;
    StartParts(handle, n, cid, chunk);
    var c := Started(d, n, cid, chunk);
    assert c.packet[..c.pos] == Resize(d.packet, n)[..d.pos] + chunk;
    assert c.pos == n ==> c.packet[..c.pos] == c.packet;
  }

  /**
   * Reassembly, whatever state it starts in: the packet delivered is whatever was already
   * copied, up to pos, followed by the fragments.
   */
  lemma {:induction false} Reassembles(d: Device, handle: nat, n: nat, cid: Word16, chunks: seq<Packet>)
    requires handle < 0x1000 && 0 < n < 0x1_0000 && Chunks(chunks) && d.pos + |Concat(chunks)| == n
    requires cid == SIGNALLING ==> SignalFits(Resize(d.packet, n)[..d.pos] + Concat(chunks))
    ensures AllReady(d, Fragments(handle, n, cid, chunks))
    ensures DataAll(d, Fragments(handle, n, cid, chunks))
            == Deliver(d.(packet := Resize(d.packet, n)[..d.pos] + Concat(chunks), cid := cid, pos := n))
  {
    hide Deliver, StartFragment, SignalFits, Resize, Data, DataReady, Continuations;
    var first, rest := chunks[0], chunks[1..];
    var head := Resize(d.packet, n)[..d.pos];
    var p, c := StartFragment(handle, n, cid, first), Started(d, n, cid, first);
    assert Concat(chunks) == first + Concat(rest);
    Rejoin(head, first, Concat(rest));
    FragmentsShape(handle, n, cid, chunks);
    if rest == [] {
      assert Concat(rest) == [] && first + [] == first;
      StartFills(d, handle, n, cid, first);
      assert c.packet == c.packet[..c.pos];
    } else {
      ConcatLast(rest);
      StartFills(d, handle, n, cid, first);
      ContinuationsFill(c, handle, rest);
    }
  }

  lemma {:induction false} Rejoin(a: Packet, b: Packet, c: Packet)
    ensures a + b + c == a + (b + c)
  {
  }

  lemma {:induction false} FragmentsShape(handle: nat, n: nat, cid: Word16, chunks: seq<Packet>)
    requires handle < 0x1000 && n < 0x1_0000 && Chunks(chunks)
    ensures var ps := Fragments(handle, n, cid, chunks);
            && ps != [] && ps[0] == StartFragment(handle, n, cid, chunks[0])
            && ps[1..] == Continuations(handle, chunks[1..])
            && (|chunks| == 1 ==> ps[1..] == [])
  {
  }

  /** The device after a packet on a data channel has been taken in whole. */
  function Received(d: Device, cid: Word16, payload: Packet): Device
    requires cid in d.sockets
  {
    var s := d.sockets[cid];
    d.(packet := payload, cid := cid, pos := 0, sockets := d.sockets[cid := s.(queue := Put(s.queue, payload))])
  }

  /**
   * In step (pos 0), every way of fragmenting a payload queues it exactly once, on the
   * socket of its channel, and leaves the device in step.  A ring that is full drops it.
   */
  lemma {:induction false} FragmentsDeliverOnce(d: Device, handle: nat, cid: Word16, chunks: seq<Packet>)
    requires handle < 0x1000 && Chunks(chunks) && 0 < |Concat(chunks)| < 0x1_0000
    requires d.pos == 0 && cid != SIGNALLING && cid in d.sockets
    ensures var ps := Fragments(handle, |Concat(chunks)|, cid, chunks);
            AllReady(d, ps) && DataAll(d, ps) == Received(d, cid, Concat(chunks))
    ensures var q, q' := d.sockets[cid].queue, Received(d, cid, Concat(chunks)).sockets[cid].queue;
            q' == if |q| == QSIZE then q else q + [Concat(chunks)]
  {
    var n := |Concat(chunks)|;
    assert Resize(d.packet, n)[..0] + Concat(chunks) == Concat(chunks);
    Reassembles(d, handle, n, cid, chunks);
  }

  /** A payload for a channel nobody has is dropped whole, and the device stays in step. */
  lemma {:induction false} UnknownChannelDrops(d: Device, handle: nat, cid: Word16,
                                               chunks: seq<Packet>, ps: seq<Packet>)
    requires handle < 0x1000 && Chunks(chunks) && 0 < |Concat(chunks)| < 0x1_0000
    requires d.pos == 0 && cid != SIGNALLING && cid !in d.sockets
    requires ps == Fragments(handle, |Concat(chunks)|, cid, chunks)
    ensures AllReady(d, ps) && DataAll(d, ps) == d.(packet := Concat(chunks), cid := cid)
  {
    hide Concat, Chunks, Fragments, AllReady, DataAll, Resize;
    var n := |Concat(chunks)|;
    assert Resize(d.packet, n)[..0] + Concat(chunks) == Concat(chunks);
    Reassembles(d, handle, n, cid, chunks);
  }

  /** Receiving undoes sending: a frame from any device arrives as its payload. */
  lemma {:induction false} FrameRoundTrip(d: Device, handle: nat, cid: Word16, payload: Packet)
    requires handle < 0x1000 && 0 < |payload| && |payload| + 4 < 0x1_0000
    requires d.pos == 0 && cid != SIGNALLING && cid in d.sockets
    ensures DataReady(d, Frame(handle, payload, cid))
    ensures Data(d, Frame(handle, payload, cid)) == Received(d, cid, payload)
  {
    hide Frame, StartFragment, Data, Received, DataReady;
    FrameIsStart(handle, cid, payload);
    var chunks := [payload];
    assert chunks[1..] == [] && Concat([]) == [] && Concat(chunks) == payload + [] == payload;
    FragmentsDeliverOnce(d, handle, cid, chunks);
    var ps := Fragments(handle, |payload|, cid, chunks);
    assert ps == [Frame(handle, payload, cid)] && ps[1..] == [];
  }

  lemma {:induction false} FrameIsStart(handle: nat, cid: Word16, payload: Packet)
    requires handle < 0x1000 && |payload| + 4 < 0x1_0000
    ensures Frame(handle, payload, cid) == StartFragment(handle, |payload|, cid, payload)
  {
    hide Two;
    assert StartHandle(handle) == handle + 0x2000;
    assert (|payload| + 4) % 0x1_0000 == |payload| + 4 && |payload| % 0x1_0000 == |payload|;
  }

  /** An unfragmented packet is within the contract exactly when the device is in step. */
  lemma {:induction false} FrameNeedsPosZero(d: Device, handle: nat, cid: Word16, payload: Packet)
    requires handle < 0x1000 && 0 < |payload| && |payload| + 4 < 0x1_0000 && cid != SIGNALLING
    ensures DataReady(d, Frame(handle, payload, cid)) <==> d.pos == 0
  {
    hide Frame, StartFragment, Deliver;
    FrameIsStart(handle, cid, payload);
    StartParts(handle, |payload|, cid, payload);
  }

  // ---- out of step -----------------------------------------------------------------------

  /** A position in a packet of n bytes that starts over when it is full. */
  function Around(a: nat, n: nat): (r: nat)
    requires n > 0
    ensures r < n
  {
    a % n
  }

  lemma {:induction false} AroundTurn(b: nat, n: nat)
    requires n > 0
    ensures Around(n + b, n) == Around(b, n) && (b < n ==> Around(b, n) == b)
  {
    var q, r := b / n, b % n;
    assert b == q * n + r && (q + 1) * n == q * n + n;
    QuotientUnique(n + b, n, q + 1, r);
    if b < n { QuotientUnique(b, n, 0, b); }
  }

  lemma {:induction false} AroundAdd(a: nat, b: nat, n: nat)
    requires 0 < n && a <= n
    ensures Around(Around(a, n) + b, n) == Around(a + b, n)
  {
    hide Around;
    AroundTurn(b, n);
    AroundTurn(0, n);
    AroundTurn(a, n);
  }

  /** Where a fragment leaves pos, in a packet of n bytes on a data channel. */
  lemma {:induction false} FragmentMovesPos(d: Device, p: Packet, n: nat)
    requires n > 0 && DataReady(d, p) && Begin(d, p).cid != SIGNALLING && |Begin(d, p).packet| == n
    ensures d.pos + |Fragment(p)| <= n
    ensures var e := Data(d, p);
            e.pos == Around(d.pos + |Fragment(p)|, n) && |e.packet| == n && e.cid == Begin(d, p).cid
  {
    hide AclFits, IsStart, Fragment, Control;
  }

  lemma {:induction false} ContinuationsMovePos(d: Device, handle: nat, chunks: seq<Packet>)
    requires handle < 0x1000 && forall i :: 0 <= i < |chunks| ==> |chunks[i]| + 4 < 0x1_0000
    requires d.cid != SIGNALLING && d.pos < |d.packet| && AllReady(d, Continuations(handle, chunks))
    ensures DataAll(d, Continuations(handle, chunks)).pos == Around(d.pos + |Concat(chunks)|, |d.packet|)
    decreases |chunks|
  {
    hide Continuation, Data, DataReady, AclFits, IsStart, Fragment, Around;
    if chunks == [] {
      AroundTurn(d.pos, |d.packet|);
    } else {
      var n := |d.packet|;
      var ps := Continuations(handle, chunks);
      var p := Continuation(handle, chunks[0]);
      assert ps[0] == p && ps[1..] == Continuations(handle, chunks[1..]);
      ContinuationParts(handle, chunks[0]);
      FragmentMovesPos(d, p, n);
      ContinuationsMovePos(Data(d, p), handle, chunks[1..]);
      AroundAdd(d.pos + |chunks[0]|, |Concat(chunks[1..])|, n);
    }
  }

  /** Over a whole packet pos comes back to where it was: a device out of step stays so. */
  lemma {:induction false} PacketKeepsPos(d: Device, handle: nat, cid: Word16, chunks: seq<Packet>)
    requires handle < 0x1000 && Chunks(chunks) && chunks[0] != [] && |Concat(chunks)| < 0x1_0000 && cid != SIGNALLING
    requires 0 < |Concat(chunks)| && AllReady(d, Fragments(handle, |Concat(chunks)|, cid, chunks))
    ensures DataAll(d, Fragments(handle, |Concat(chunks)|, cid, chunks)).pos == d.pos
  {
    hide StartFragment, Data, DataReady, AclFits, IsStart, Fragment, Continuations, Around, Resize;
    var n := |Concat(chunks)|;
    var p := StartFragment(handle, n, cid, chunks[0]);
    FragmentsShape(handle, n, cid, chunks);
    StartParts(handle, n, cid, chunks[0]);
    FragmentMovesPos(d, p, n);
    ContinuationsMovePos(Data(d, p), handle, chunks[1..]);
    AroundAdd(d.pos + |chunks[0]|, |Concat(chunks[1..])|, n);
    AroundTurn(d.pos, n);
  }

  /**
   * Exactly when a packet is safe: however it is fragmented, with a start fragment that
   * carries something, it is taken in whole on its socket if and only if the device was in
   * step.  Out of step it either overruns the buffer or leaves the device as far out as it was.
   */
  lemma {:induction false} FragmentsNeedPosZero(d: Device, handle: nat, cid: Word16,
                                                chunks: seq<Packet>, ps: seq<Packet>)
    requires handle < 0x1000 && Chunks(chunks) && chunks[0] != [] && 0 < |Concat(chunks)| < 0x1_0000
    requires cid != SIGNALLING && cid in d.sockets && ps == Fragments(handle, |Concat(chunks)|, cid, chunks)
    ensures AllReady(d, ps) && DataAll(d, ps) == Received(d, cid, Concat(chunks)) <==> d.pos == 0
  {
    hide Fragments, DataAll, AllReady;
    if d.pos == 0 {
      FragmentsDeliverOnce(d, handle, cid, chunks);
    } else if AllReady(d, ps) {
      PacketKeepsPos(d, handle, cid, chunks);
    }
  }

  /**
   * A start fragment does not restart an interrupted packet.  A device in step loses the
   * second half of 9 9 8 8; the next packet, 1 2 3 4 in two halves, is delivered as 9 9 1 2,
   * and its second half is left over in turn.
   */
  lemma {:induction false} StaleStart(d: Device, cid: Word16, lost: Packet, first: Packet, second: Packet)
    requires d.pos == 0 && cid != SIGNALLING && cid in d.sockets
    requires lost == StartFragment(1, 4, cid, [9, 9])
    requires first == StartFragment(1, 4, cid, [1, 2]) && second == Continuation(1, [3, 4])
    ensures DataReady(d, lost) && DataReady(Data(d, lost), first) && DataReady(Data(Data(d, lost), first), second)
    ensures Data(Data(d, lost), first) == Received(d, cid, [9, 9, 1, 2])
    ensures Data(Data(Data(d, lost), first), second).pos == 2
  {
    hide StartFragment, Continuation, AclFits, IsStart, Fragment, Control, Resize;
    StartParts(1, 4, cid, [9, 9]);
    StartParts(1, 4, cid, [1, 2]);
    ContinuationParts(1, [3, 4]);
    var half := Data(d, lost);
    assert half.pos == 2 && |half.packet| == 4 && half.packet[..2] == [9, 9];
    assert Resize(half.packet, 4) == half.packet by { ResizeSame(half.packet); }
    assert half.packet[..2] + [1, 2] + half.packet[4..] == [9, 9, 1, 2];
  }

  lemma {:induction false} ResizeSame(v: Packet)
    ensures Resize(v, |v|) == v
  {
  }

  // ---- many packets ----------------------------------------------------------------------

  /** A payload on a channel, in the chunks it is cut into. */
  datatype Message = Message(handle: nat, cid: Word16, chunks: seq<Packet>)

  ghost predicate Sendable(d: Device, m: Message) {
    && m.handle < 0x1000 && Chunks(m.chunks) && 0 < |Concat(m.chunks)| < 0x1_0000
    && m.cid != SIGNALLING && m.cid in d.sockets
  }

  ghost predicate AllSendable(d: Device, ms: seq<Message>) {
    forall i :: 0 <= i < |ms| ==> Sendable(d, ms[i])
  }

  /** The fragments of all messages, one message after the other. */
  ghost function Stream(d: Device, ms: seq<Message>): seq<Packet>
    requires AllSendable(d, ms)
  {
    if ms == [] then []
    else
      assert Sendable(d, ms[0]);
      Fragments(ms[0].handle, |Concat(ms[0].chunks)|, ms[0].cid, ms[0].chunks) + Stream(d, ms[1..])
  }

  /** The payloads of channel k, in order. */
  function PayloadsOf(ms: seq<Message>, k: nat): seq<Packet> {
    if ms == [] then []
    else (if ms[0].cid == k then [Concat(ms[0].chunks)] else []) + PayloadsOf(ms[1..], k)
  }

  function PutAll(q: seq<Packet>, ps: seq<Packet>): seq<Packet>
    decreases |ps|
  {
    if ps == [] then q else PutAll(Put(q, ps[0]), ps[1..])
  }

  lemma {:induction false} PutAllFits(q: seq<Packet>, ps: seq<Packet>)
    requires |q| + |ps| <= QSIZE
    ensures PutAll(q, ps) == q + ps
    decreases |ps|
  {
    if ps != [] {
      PutAllFits(Put(q, ps[0]), ps[1..]);
      assert q + [ps[0]] + ps[1..] == q + ps;
    }
  }

  lemma {:induction false} DataSplit(d: Device, a: seq<Packet>, b: seq<Packet>)
    requires AllReady(d, a) && AllReady(DataAll(d, a), b)
    ensures AllReady(d, a + b) && DataAll(d, a + b) == DataAll(DataAll(d, a), b)
    decreases |a|
  {
    hide Data, DataReady;
    if a == [] {
      assert a + b == b;
    } else {
      assert (a + b)[0] == a[0] && (a + b)[1..] == a[1..] + b;
      DataSplit(Data(d, a[0]), a[1..], b);
    }
  }

  /** After the stream, socket k has its own payloads behind what it had, and no others. */
  ghost predicate Delivered(d: Device, e: Device, ms: seq<Message>) {
    && e.pos == 0 && e.sockets.Keys == d.sockets.Keys
    && forall k :: k in d.sockets ==>
         e.sockets[k] == d.sockets[k].(queue := PutAll(d.sockets[k].queue, PayloadsOf(ms, k)))
  }

  lemma {:induction false} DeliveredOne(d: Device, e: Device, ms: seq<Message>)
    requires ms != [] && d.pos == 0 && Sendable(d, ms[0])
    requires Delivered(Received(d, ms[0].cid, Concat(ms[0].chunks)), e, ms[1..])
    ensures Delivered(d, e, ms)
  {
    hide Concat, Put;
    var c := Received(d, ms[0].cid, Concat(ms[0].chunks));
    forall k | k in d.sockets
      ensures e.sockets[k] == d.sockets[k].(queue := PutAll(d.sockets[k].queue, PayloadsOf(ms, k)))
    {
      var own, rest := PayloadsOf(ms, k), PayloadsOf(ms[1..], k);
      assert k in c.sockets;
      if ms[0].cid == k {
        assert own == [Concat(ms[0].chunks)] + rest && own[1..] == rest;
      } else {
        assert own == rest;
      }
    }
  }

  /**
   * Any number of packets on any channels, each fragmented anyhow: the device takes them all,
   * and every socket ends with its own payloads, whole and in order, as far as its ring has room.
   */
  lemma {:induction false} MessagesInOrder(d: Device, ms: seq<Message>, ps: seq<Packet>)
    requires d.pos == 0 && AllSendable(d, ms) && ps == Stream(d, ms)
    ensures AllReady(d, ps) && Delivered(d, DataAll(d, ps), ms)
    ensures forall k :: k in d.sockets && |d.sockets[k].queue| + |PayloadsOf(ms, k)| <= 32 ==>
              DataAll(d, ps).sockets[k].queue == d.sockets[k].queue + PayloadsOf(ms, k)
    decreases |ms|
  {
    hide Data, DataReady, Concat, Chunks, Fragments, Delivered;
    if ms == [] {
      NothingDelivered(d);
    } else {
      var m, rest := ms[0], ms[1..];
      assert Sendable(d, m);
      var own := Fragments(m.handle, |Concat(m.chunks)|, m.cid, m.chunks);
      FragmentsDeliverOnce(d, m.handle, m.cid, m.chunks);
      var c := Received(d, m.cid, Concat(m.chunks));
      StreamOf(d, c, rest);
      MessagesInOrder(c, rest, Stream(c, rest));
      DataSplit(d, own, Stream(c, rest));
      DeliveredOne(d, DataAll(d, ps), ms);
    }
    DeliveredFits(d, DataAll(d, ps), ms);
  }

  lemma {:induction false} NothingDelivered(d: Device)
    requires d.pos == 0
    ensures AllReady(d, []) && Delivered(d, DataAll(d, []), [])
  {
  }

  lemma {:induction false} DeliveredFits(d: Device, e: Device, ms: seq<Message>)
    requires Delivered(d, e, ms)
    ensures forall k :: k in d.sockets && |d.sockets[k].queue| + |PayloadsOf(ms, k)| <= 32 ==>
              k in e.sockets && e.sockets[k].queue == d.sockets[k].queue + PayloadsOf(ms, k)
  {
    forall k | k in d.sockets && |d.sockets[k].queue| + |PayloadsOf(ms, k)| <= QSIZE
      ensures k in e.sockets && e.sockets[k].queue == d.sockets[k].queue + PayloadsOf(ms, k)
    {
      PutAllFits(d.sockets[k].queue, PayloadsOf(ms, k));
    }
  }

  /** The stream depends on which sockets there are, not on what they hold. */
  lemma {:induction false} StreamOf(d: Device, e: Device, ms: seq<Message>)
    requires AllSendable(d, ms) && d.sockets.Keys == e.sockets.Keys
    ensures AllSendable(e, ms) && Stream(d, ms) == Stream(e, ms)
    decreases |ms|
  {
    hide Concat, Chunks, Fragments;
    assert AllSendable(e, ms) by {
      forall i | 0 <= i < |ms| ensures Sendable(e, ms[i]) {
        assert Sendable(d, ms[i]) && ms[i].cid in e.sockets.Keys;
      }
    }
    if ms != [] {
      assert AllSendable(d, ms[1..]);
      StreamOf(d, e, ms[1..]);
    }
  }
}
