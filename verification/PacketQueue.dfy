/** The bounded packet queue: a ring of 32 slots behind two counters that only grow. */
module PacketQueue {
  import opened Bytes

  const QSIZE: nat := 32
  const COUNTER_LIMIT: nat := 0x1_0000_0000

  type Packet = seq<Byte>

  /** A packet behind the ones waiting; a full queue drops it. */
  function Put(q: seq<Packet>, d: Packet): seq<Packet> { if |q| == QSIZE then q else q + [d] }

  // ---- the ring ----------------------------------------------------------------------

  datatype Ring = Ring(slots: seq<Packet>, read: nat, write: nat)

  predicate RingOk(r: Ring) { |r.slots| == QSIZE && r.read <= r.write <= r.read + QSIZE }

  /** The packets waiting, oldest first. */
  function Waiting(r: Ring): (q: seq<Packet>)
    requires RingOk(r)
    ensures |q| == r.write - r.read
  {
    seq<Packet>(r.write - r.read, k requires 0 <= k < r.write - r.read => r.slots[(r.read + k) % QSIZE])
  }

  function RingRead(r: Ring): (Ring, Option<Packet>)
    requires RingOk(r)
  {
    if r.read == r.write then (r, None) else (r.(read := r.read + 1), Some(r.slots[r.read % QSIZE]))
  }

  function RingWrite(r: Ring, d: Packet): (Ring, bool)
    requires RingOk(r)
  {
    if r.write - r.read == QSIZE then (r, false)
    else (r.(slots := r.slots[r.write % QSIZE := d], write := r.write + 1), true)
  }

  lemma {:induction false} SlotsDiffer(k: nat, w: nat)
    requires k < w < k + QSIZE
    ensures k % QSIZE != w % QSIZE
  {
  }

  /** Writing through the counters is putting a packet last. */
  lemma {:induction false} WriteIsPut(r: Ring, d: Packet)
    requires RingOk(r)
    ensures var (s, ok) := RingWrite(r, d);
            RingOk(s) && Waiting(s) == Put(Waiting(r), d) && (ok <==> |Waiting(r)| < 32)
  {
    var (s, ok) := RingWrite(r, d);
    if ok {
      forall k | 0 <= k < |Waiting(r)| ensures Waiting(s)[k] == Waiting(r)[k] {
        SlotsDiffer(r.read + k, r.write);
      }
      assert Waiting(s) == Waiting(r) + [d];
    }
  }

  /** Reading through the counters is taking the first packet. */
  lemma {:induction false} ReadIsTake(r: Ring)
    requires RingOk(r)
    ensures var (s, d) := RingRead(r);
            && RingOk(s) && (d == None <==> Waiting(r) == [])
            && (d == None ==> Waiting(s) == Waiting(r))
            && (d.Some? ==> Waiting(r) == [d.value] + Waiting(s))
  {
  }

  class PacketQ {
    const data: array<Packet>
    var read: nat
    var write: nat

    ghost predicate Valid()
      reads this, data
    {
      data.Length == QSIZE && RingOk(View()) && write < COUNTER_LIMIT
    }

    ghost function View(): Ring
      reads this, data
    {
      Ring(data[..], read, write)
    }

    constructor ()
      ensures Valid() && View() == Ring(seq<Packet>(QSIZE, _ => []), 0, 0) && fresh(data)
    {
      data := new Packet[QSIZE](_ => []);
      read, write := 0, 0;
    }

    method Empty() returns (r: bool)
      requires Valid()
      ensures r <==> Waiting(View()) == []
    {
      r := read == write;
    }

    method Read() returns (d: Option<Packet>)
      requires Valid()
      modifies this`read
      ensures Valid() && View() == RingRead(old(View())).0 && d == RingRead(old(View())).1
      ensures d == None <==> old(Waiting(View())) == []
      ensures old(Waiting(View())) == (if d.Some? then [d.value] else []) + Waiting(View())
    {
      ReadIsTake(View());
      if read == write {
        return None;
      }
      d := Some(data[read % QSIZE]);
      read := read + 1;
    }

    /** A full queue refuses the packet and keeps what it has. */
    method Write(d: Packet) returns (ok: bool)
      requires Valid() && write + 1 < COUNTER_LIMIT
      modifies this`write, data
      ensures Valid() && View() == RingWrite(old(View()), d).0 && ok == RingWrite(old(View()), d).1
      ensures Waiting(View()) == Put(old(Waiting(View())), d) && (ok <==> |old(Waiting(View()))| < 32)
    {
      WriteIsPut(View(), d);
      if write - read == QSIZE {
        return false;
      }
      data[write % QSIZE] := d;
      write := write + 1;
      ok := true;
    }
  }

  // ---- runs --------------------------------------------------------------------------

  datatype Op = Write(d: Packet) | Read

  /** The ring, the packets it accepted and the packets it handed out, over a run. */
  datatype Log = Log(ring: Ring, accepted: seq<Packet>, handed: seq<Packet>)

  function Step(l: Log, op: Op): Log
    requires RingOk(l.ring)
  {
    match op
    case Write(d) =>
      var (r, ok) := RingWrite(l.ring, d);
      Log(r, if ok then l.accepted + [d] else l.accepted, l.handed)
    case Read =>
      var (r, d) := RingRead(l.ring);
      Log(r, l.accepted, if d.Some? then l.handed + [d.value] else l.handed)
  }

  /** What goes in has come out or is waiting, in order. */
  predicate InOrder(l: Log) { RingOk(l.ring) && l.accepted == l.handed + Waiting(l.ring) }

  lemma {:induction false} StepKeepsOrder(l: Log, op: Op)
    requires InOrder(l)
    ensures InOrder(Step(l, op)) && Step(l, op).ring.write <= l.ring.write + 1
    ensures l.accepted <= Step(l, op).accepted && l.handed <= Step(l, op).handed
  {
    hide Waiting, RingOk;
    match op {
      case Write(d) =>
        WriteIsPut(l.ring, d);
        assert l.handed + (Waiting(l.ring) + [d]) == l.handed + Waiting(l.ring) + [d];
      case Read =>
        ReadIsTake(l.ring);
        var (r, d) := RingRead(l.ring);
        if d.Some? {
          assert l.handed + ([d.value] + Waiting(r)) == l.handed + [d.value] + Waiting(r);
        }
    }
  }

  ghost predicate CanRun(l: Log, ops: seq<Op>)
    decreases |ops|
  {
    ops == [] || (RingOk(l.ring) && CanRun(Step(l, ops[0]), ops[1..]))
  }

  ghost function Run(l: Log, ops: seq<Op>): Log
    requires CanRun(l, ops)
    decreases |ops|
  {
    if ops == [] then l else Run(Step(l, ops[0]), ops[1..])
  }

  /**
   * First in, first out: over every interleaving of reads and writes of the ring, what went
   * in has come out or is waiting, in order, nothing lost and nothing doubled, and never more
   * than 32 are waiting.
   */
  lemma {:induction false} FirstInFirstOut(l: Log, ops: seq<Op>)
    requires InOrder(l)
    ensures CanRun(l, ops) && InOrder(Run(l, ops))
    ensures |Waiting(Run(l, ops).ring)| <= 32 && Run(l, ops).ring.write <= l.ring.write + |ops|
    ensures l.accepted <= Run(l, ops).accepted && l.handed <= Run(l, ops).handed
    decreases |ops|
  {
    if ops != [] {
      StepKeepsOrder(l, ops[0]);
      FirstInFirstOut(Step(l, ops[0]), ops[1..]);
    }
  }
}
