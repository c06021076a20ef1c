/**
 * Reading the tape: the motor and play bookkeeping behind the port, the sliding window
 * over the tape image, and the simple machine that both together refine.
 */
module TapePager {
  import opened Bytes
  import opened TapeFormat

  const PAGE: nat := 400

  // ---- the sliding window ------------------------------------------------------

  datatype Window = Window(data: Word32, pre: nat, read: nat, start: nat, buf: seq<Word32>)

  ghost predicate Faithful(w: Window, tape: seq<Word32>) {
    && |w.buf| == PAGE
    && w.start <= w.read <= |tape| && w.read - w.start <= PAGE
    && w.buf[..w.read - w.start] == tape[w.start..w.read]
    && (if w.read == 0 then w.pre == 0 else w.start <= w.pre < w.read)
    && w.data == BlankFirst(tape, w.pre)
  }

  /** The word a reader sees at position i: word 0 is never loaded, so it reads as zero. */
  function BlankFirst(tape: seq<Word32>, i: nat): Word32
    requires i == 0 || i < |tape|
  {
    if i == 0 then 0 else tape[i]
  }

  function Rewound(w: Window): Window { w.(data := 0, pre := 0, read := 0, start := 0) }

  function Load(w: Window, tape: seq<Word32>): (v: Window)
    requires |w.buf| == PAGE && w.read <= |tape|
    ensures |v.buf| == PAGE
  {
    var n := if |tape| - w.read < PAGE then |tape| - w.read else PAGE;
    w.(start := w.read, read := w.read + n, buf := tape[w.read..w.read + n] + w.buf[n..])
  }

  function PageIn(w: Window, tape: seq<Word32>, tword: nat): (v: Window)
    requires |w.buf| == PAGE && w.read <= |tape|
    ensures |v.buf| == PAGE
  {
    if w.read <= tword then Load(w, tape) else w
  }

  predicate InBuffer(w: Window, tword: nat) { w.start <= tword < w.start + PAGE }

  function Seek(w: Window, tape: seq<Word32>, tword: nat): Window
    requires |w.buf| == PAGE && w.read <= |tape|
    requires w.pre != tword ==> InBuffer(PageIn(w, tape, tword), tword)
  {
    if w.pre == tword then w
    else
      var v := PageIn(w, tape, tword);
      v.(pre := tword, data := v.buf[tword - v.start])
  }

  /** One page load reaches exactly the words below read + PAGE. */
  lemma {:induction false} PageReach(w: Window, tape: seq<Word32>, tword: nat)
    requires Faithful(w, tape) && w.pre <= tword < |tape|
    ensures InBuffer(PageIn(w, tape, tword), tword) <==> tword < w.read + 400
    ensures tword < w.read + PAGE ==> PageIn(w, tape, tword).start <= tword < PageIn(w, tape, tword).read
  {
  }

  /** A reachable seek keeps the window faithful and lands on the asked word. */
  lemma {:induction false} SeekIsFaithful(w: Window, tape: seq<Word32>, tword: nat)
    requires Faithful(w, tape) && w.pre <= tword < |tape| && tword < w.read + PAGE
    ensures w.pre != tword ==> InBuffer(PageIn(w, tape, tword), tword)
    ensures Faithful(Seek(w, tape, tword), tape) && Seek(w, tape, tword).pre == tword
    ensures Seek(w, tape, tword).data == BlankFirst(tape, tword)
  {
    hide PageIn, Load;
    PageInIsFaithful(w, tape, tword);
    var v := PageIn(w, tape, tword);
    if w.pre != tword {
      var i := tword - v.start;
      assert v.buf[i] == v.buf[..v.read - v.start][i] == tape[v.start..v.read][i] == tape[tword];
    }
  }

  lemma {:induction false} PageInIsFaithful(w: Window, tape: seq<Word32>, tword: nat)
    requires Faithful(w, tape) && w.pre <= tword < |tape| && tword < w.read + PAGE
    ensures var v := PageIn(w, tape, tword);
            && v.read <= |tape| && v.read - v.start <= PAGE
            && v.buf[..v.read - v.start] == tape[v.start..v.read]
            && (w.pre != tword ==> v.start <= tword < v.read)
  {
    if w.read <= tword {
      var n := if |tape| - w.read < PAGE then |tape| - w.read else PAGE;
      FrontOf(tape[w.read..w.read + n], w.buf[n..]);
    }
  }

  lemma {:induction false} FrontOf(front: seq<Word32>, back: seq<Word32>)
    ensures (front + back)[..|front|] == front
  {
  }

  // ---- the motor line ----------------------------------------------------------

  /** started is the T-state at which playing began; elapsed the time played before it. */
  datatype Transport = Transport(motor: bool, playing: bool, armed: bool, started: int, elapsed: int)

  function Position(t: Transport, now: int): int {
    t.elapsed + if t.playing then now - t.started else 0
  }

  /** A rising edge starts an armed tape and pauses a playing one. */
  function RisingEdge(t: Transport, now: int): Transport {
    if !t.playing then
      if t.armed then t.(started := now, playing := true) else t
    else t.(playing := false, elapsed := t.elapsed + (now - t.started))
  }

  function MotorLine(t: Transport, now: int, on: bool): Transport {
    (if !t.motor && on then RisingEdge(t, now) else t).(motor := on)
  }

  datatype Port = Port(vgate: bool, wdata: bool, led: bool, transport: Transport)

  /** The four low bits of the port as one number. */
  function PortValue(p: Port): nat {
    (if p.vgate then 1 else 0) + (if p.wdata then 2 else 0)
    + (if p.led then 4 else 0) + (if p.transport.motor then 8 else 0)
  }

  /** E002: the whole port is written. */
  function WriteAll(p: Port, now: int, val: Byte): Port {
    Port(Bit(val, 1), Bit(val, 2), Bit(val, 4), MotorLine(p.transport, now, Bit(val, 8)))
  }

  /** E003: bit 0 is the new value, bits 1-3 pick the port bit. */
  function WriteBit(p: Port, now: int, val: Byte): Port {
    var on := Bit(val, 1);
    match val / 2 % 8
    case 0 => p.(vgate := on)
    case 1 => p.(wdata := on)
    case 2 => p.(led := on)
    case 3 => p.(transport := MotorLine(p.transport, now, on))
    case _ => p
  }

  function Weight(i: nat): nat { if i == 0 then 1 else if i == 1 then 2 else if i == 2 then 4 else 8 }

  /** v with port bit i set or cleared. */
  function WithBit(v: nat, i: nat, on: bool): nat
    requires v < 16 && i < 4
  {
    v - (if Bit(v, Weight(i)) then Weight(i) else 0) + (if on then Weight(i) else 0)
  }

  /** Bit set/reset equals writing the whole port with just that bit changed. */
  lemma {:induction false} BitWriteIsWholeWrite(p: Port, now: int, val: Byte)
    ensures var i := val / 2 % 8;
            WriteBit(p, now, val)
            == WriteAll(p, now, if i < 4 then WithBit(PortValue(p), i, Bit(val, 1)) else PortValue(p))
  {
    var on := Bit(val, 1);
    PortBits(p);
    match val / 2 % 8 {
      case 0 => WholeWriteOf(p, p.(vgate := on), now);
      case 1 => WholeWriteOf(p, p.(wdata := on), now);
      case 2 => WholeWriteOf(p, p.(led := on), now);
      case 3 => WholeWriteOf(p, p.(transport := p.transport.(motor := on)), now);
      case _ => WholeWriteOf(p, p, now);
    }
  }

  lemma {:induction false} WholeWriteOf(p: Port, q: Port, now: int)
    ensures WriteAll(p, now, PortValue(q))
            == Port(q.vgate, q.wdata, q.led, MotorLine(p.transport, now, q.transport.motor))
    ensures MotorLine(p.transport, now, p.transport.motor) == p.transport
  {
    PortBits(q);
  }

  lemma {:induction false} PortBits(p: Port)
    ensures var v := PortValue(p);
            && Bit(v, 1) == p.vgate && Bit(v, 2) == p.wdata && Bit(v, 4) == p.led && Bit(v, 8) == p.transport.motor
            && v < 16
  {
  }

  /** Which bit of E002 drives which line. */
  lemma {:induction false} LineBits(p: Port, now: int, val: Byte)
    ensures var q := WriteAll(p, now, val);
            && q.vgate == (val % 2 == 1) && q.wdata == (val / 2 % 2 == 1) && q.led == (val / 4 % 2 == 1)
            && q.transport.motor == (val / 8 % 2 == 1)
  {
    hide RisingEdge;
  }

  /** Which byte to E003 sets (odd) or resets (even) which line; 8 and up do nothing. */
  lemma {:induction false} LineBytes(p: Port, now: int, val: Byte)
    ensures WriteBit(p, now, 1) == p.(vgate := true) && WriteBit(p, now, 0) == p.(vgate := false)
    ensures WriteBit(p, now, 3) == p.(wdata := true) && WriteBit(p, now, 2) == p.(wdata := false)
    ensures WriteBit(p, now, 5) == p.(led := true) && WriteBit(p, now, 4) == p.(led := false)
    ensures WriteBit(p, now, 6) == p.(transport := p.transport.(motor := false))
    ensures val % 16 >= 8 ==> WriteBit(p, now, val) == p
  {
    hide RisingEdge;
    HighHalf(val);
  }

  lemma {:induction false} HighHalf(val: Byte)
    ensures val % 16 >= 8 ==> val / 2 % 8 >= 4
  {
  }

  /** The motor switched on and off through E003. */
  function OnAt(p: Port, now: int): Port { WriteBit(p, now, 7) }

  function OffAt(p: Port, now: int): Port { WriteBit(p, now, 6) }

  /**
   * An armed deck with its motor off: switching on plays, switching off goes on playing,
   * switching on again pauses where the tape is, and a third time plays on from there.
   */
  lemma {:induction false} EveryOtherStartPauses(p: Port, t0: int, t1: int, t2: int, t3: int, t4: int, now: int)
    requires var t := p.transport; !t.motor && !t.playing && t.armed
    ensures var from := p.transport.elapsed;
            var a := OnAt(p, t0);
            var b := OffAt(a, t1);
            var c := OnAt(b, t2);
            var d := OffAt(c, t3);
            var e := OnAt(d, t4);
            && a.transport.playing && Position(a.transport, now) == from + (now - t0)
            && b.transport.playing && Position(b.transport, now) == from + (now - t0)
            && !c.transport.playing && Position(c.transport, now) == from + (t2 - t0)
            && !d.transport.playing && Position(d.transport, now) == from + (t2 - t0)
            && e.transport.playing && Position(e.transport, now) == from + (t2 - t0) + (now - t4)
  {
    var from := p.transport.elapsed;
    var a := OnAt(p, t0);
    assert a.transport == Transport(true, true, true, t0, from);
    var b := OffAt(a, t1);
    assert b.transport == Transport(false, true, true, t0, from);
    var c := OnAt(b, t2);
    assert c.transport == Transport(true, false, true, t0, from + (t2 - t0));
    assert OffAt(c, t3).transport == Transport(false, false, true, t0, from + (t2 - t0));
  }

  /** Without a tape inserted the motor line starts nothing. */
  lemma {:induction false} NothingToPlay(p: Port, now: int)
    requires !p.transport.playing && !p.transport.armed
    ensures !OnAt(p, now).transport.playing && !OffAt(p, now).transport.playing
  {
  }

  // ---- the reader as the code has it -------------------------------------------

  datatype Medium = Medium(tape: seq<Word32>, cellTime: nat)

  datatype Deck = Deck(port: Port, window: Window)

  datatype Event = Poll(now: int) | Whole(now: int, val: Byte) | Single(now: int, val: Byte)

  ghost predicate Legal(m: Medium) { m.cellTime > 0 }

  function WordAt(m: Medium, pos: nat): nat
    requires m.cellTime > 0
  {
    pos / (CELLS * m.cellTime)
  }

  function CellAt(m: Medium, pos: nat): (c: nat)
    requires m.cellTime > 0
    ensures c < CELLS
  {
    CellInRange(pos % (CELLS * m.cellTime), m.cellTime);
    pos % (CELLS * m.cellTime) / m.cellTime
  }

  lemma {:induction false} CellInRange(r: nat, d: nat)
    requires d > 0 && r < CELLS * d
    ensures r / d < CELLS
  {
    ProductMonotone(CELLS, r / d, d);
  }

  lemma {:induction false} ProductMonotone(a: nat, b: nat, d: nat)
    ensures a <= b ==> a * d <= b * d
  {
  }

  /** What the code demands of a poll: time runs forward and the word is within one page. */
  ghost predicate PollReady(d: Deck, m: Medium, now: int) {
    && m.cellTime > 0 && |d.window.buf| == PAGE
    && (d.port.transport.playing ==>
          var pos := Position(d.port.transport, now);
          && pos >= 0
          && (WordAt(m, pos) < |m.tape| ==>
                && d.window.read <= |m.tape|
                && (d.window.pre != WordAt(m, pos) ==>
                      InBuffer(PageIn(d.window, m.tape, WordAt(m, pos)), WordAt(m, pos)))))
  }

  function PollDeck(d: Deck, m: Medium, now: int): (r: (Deck, bool))
    requires PollReady(d, m, now)
  {
    var t := d.port.transport;
    if !t.playing then (d, false)
    else
      var pos := Position(t, now);
      var tword := WordAt(m, pos);
      if tword >= |m.tape| then
        (Deck(d.port.(transport := t.(playing := false, armed := false)), Rewound(d.window)), false)
      else
        var w := Seek(d.window, m.tape, tword);
        (d.(window := w), Cell(w.data, CellAt(m, pos)))
  }

  function WriteDeck(d: Deck, e: Event): Deck
    requires !e.Poll?
  {
    d.(port := if e.Whole? then WriteAll(d.port, e.now, e.val) else WriteBit(d.port, e.now, e.val))
  }

  ghost predicate RunReady(d: Deck, m: Medium, es: seq<Event>)
    decreases |es|
  {
    es == [] ||
    (if es[0].Poll?
     then PollReady(d, m, es[0].now) && RunReady(PollDeck(d, m, es[0].now).0, m, es[1..])
     else RunReady(WriteDeck(d, es[0]), m, es[1..]))
  }

  /** The bits a run of polls and port writes returns, in order. */
  ghost function RunDeck(d: Deck, m: Medium, es: seq<Event>): seq<bool>
    requires RunReady(d, m, es)
    decreases |es|
  {
    if es == [] then []
    else if es[0].Poll? then
      var (d', bit) := PollDeck(d, m, es[0].now);
      [bit] + RunDeck(d', m, es[1..])
    else RunDeck(WriteDeck(d, es[0]), m, es[1..])
  }

  ghost function DeckAfter(d: Deck, m: Medium, es: seq<Event>): Deck
    requires RunReady(d, m, es)
    decreases |es|
  {
    if es == [] then d
    else DeckAfter(if es[0].Poll? then PollDeck(d, m, es[0].now).0 else WriteDeck(d, es[0]), m, es[1..])
  }

  // ---- the position over runs ----------------------------------------------------

  /** The time between events, from `from` on, during which the tape was playing. */
  ghost function PlayingTime(d: Deck, m: Medium, from: int, es: seq<Event>): int
    requires RunReady(d, m, es)
    decreases |es|
  {
    if es == [] then 0
    else
      (if d.port.transport.playing then es[0].now - from else 0)
      + PlayingTime(if es[0].Poll? then PollDeck(d, m, es[0].now).0 else WriteDeck(d, es[0]), m, es[0].now, es[1..])
  }

  function LastTime(from: int, es: seq<Event>): int { if es == [] then from else es[|es| - 1].now }

  /** One event keeps the position but for the time played; only a poll past the end disarms. */
  lemma {:induction false} EventKeepsPosition(d: Deck, m: Medium, from: int, e: Event)
    requires RunReady(d, m, [e])
    ensures var d' := DeckAfter(d, m, [e]);
            var t, t' := d.port.transport, d'.port.transport;
            && (t'.armed ==> t.armed)
            && (t'.armed ==> Position(t', e.now) == Position(t, from) + if t.playing then e.now - from else 0)
  {
    hide Seek, Cell, WordAt, CellAt, Bit, PageIn, InBuffer;
    assert [e][1..] == [];
    assert DeckAfter(d, m, [e]) == if e.Poll? then PollDeck(d, m, e.now).0 else WriteDeck(d, e);
  }

  lemma {:induction false} RunKeepsArmed(d: Deck, m: Medium, es: seq<Event>)
    requires RunReady(d, m, es) && DeckAfter(d, m, es).port.transport.armed
    ensures d.port.transport.armed
    decreases |es|
  {
    hide PollDeck, WriteDeck, PollReady;
    if es != [] {
      FirstEvent(d, m, es);
      RunKeepsArmed(DeckAfter(d, m, [es[0]]), m, es[1..]);
      EventKeepsPosition(d, m, 0, es[0]);
    }
  }

  lemma {:induction false} FirstEvent(d: Deck, m: Medium, es: seq<Event>)
    requires RunReady(d, m, es) && es != []
    ensures RunReady(d, m, [es[0]]) && RunReady(DeckAfter(d, m, [es[0]]), m, es[1..])
    ensures DeckAfter(d, m, es) == DeckAfter(DeckAfter(d, m, [es[0]]), m, es[1..])
    ensures forall from :: PlayingTime(d, m, from, es)
                           == (if d.port.transport.playing then es[0].now - from else 0)
                              + PlayingTime(DeckAfter(d, m, [es[0]]), m, es[0].now, es[1..])
  {
    hide PollDeck, WriteDeck, PollReady;
    var e := es[0];
    assert [e][1..] == [];
    var d' := if e.Poll? then PollDeck(d, m, e.now).0 else WriteDeck(d, e);
    assert RunReady(d', m, []);
    assert DeckAfter(d, m, [e]) == DeckAfter(d', m, []) == d';
  }

  /**
   * Pausing and resuming lose nothing: over any run of polls and port writes that does not
   * reach the end of the tape, the position moves on by exactly the time spent playing.
   */
  lemma {:induction false} PositionIsPlayingTime(d: Deck, m: Medium, from: int, es: seq<Event>)
    requires RunReady(d, m, es) && DeckAfter(d, m, es).port.transport.armed
    ensures Position(DeckAfter(d, m, es).port.transport, LastTime(from, es))
            == Position(d.port.transport, from) + PlayingTime(d, m, from, es)
    decreases |es|
  {
    hide PollDeck, WriteDeck, PollReady, Position;
    if es != [] {
      FirstEvent(d, m, es);
      var d' := DeckAfter(d, m, [es[0]]);
      RunKeepsArmed(d', m, es[1..]);
      EventKeepsPosition(d, m, from, es[0]);
      PositionIsPlayingTime(d', m, es[0].now, es[1..]);
      assert LastTime(from, es) == LastTime(es[0].now, es[1..]);
    }
  }

  // ---- the simple machine --------------------------------------------------------

  /** A tape that moves while it plays, an array of words, and nothing cached. */
  datatype Flat = Flat(motor: bool, playing: bool, armed: bool, pos: int, time: int, last: nat)

  function Wait(f: Flat, now: int): Flat {
    f.(pos := f.pos + (if f.playing then now - f.time else 0), time := now)
  }

  function FlatMotor(f: Flat, on: bool): Flat {
    f.(motor := on, playing := if !f.motor && on then f.armed && !f.playing else f.playing)
  }

  /** The motor bit an event leaves on the line. */
  function MotorBit(f: Flat, e: Event): bool
    requires !e.Poll?
  {
    if e.Whole? then Bit(e.val, 8) else if e.val / 2 % 8 == 3 then Bit(e.val, 1) else f.motor
  }

  function FlatStep(f: Flat, m: Medium, e: Event): Flat
    requires Legal(m)
    requires e.Poll? && f.playing ==> Wait(f, e.now).pos >= 0
  {
    var g := Wait(f, e.now);
    if !e.Poll? then FlatMotor(g, MotorBit(g, e))
    else if !g.playing then g
    else if WordAt(m, g.pos) >= |m.tape| then g.(playing := false, armed := false, last := 0)
    else g.(last := WordAt(m, g.pos))
  }

  /** A poll reads the cell under the head, straight from the array. */
  function FlatBit(f: Flat, m: Medium, now: int): bool
    requires Legal(m)
    requires f.playing ==> Wait(f, now).pos >= 0
  {
    var pos := Wait(f, now).pos;
    f.playing && WordAt(m, pos) < |m.tape| && Cell(BlankFirst(m.tape, WordAt(m, pos)), CellAt(m, pos))
  }

  /** Time never runs backwards and no two polls are a page or more apart. */
  ghost predicate Paced(f: Flat, m: Medium, es: seq<Event>)
    requires Legal(m)
    decreases |es|
  {
    es == [] ||
    (&& f.time <= es[0].now
     && (f.playing ==> f.pos >= 0)
     && (es[0].Poll? && f.playing && WordAt(m, Wait(f, es[0].now).pos) < |m.tape| ==>
           WordAt(m, Wait(f, es[0].now).pos) < f.last + PAGE)
     && Paced(FlatStep(f, m, es[0]), m, es[1..]))
  }

  ghost function RunFlat(f: Flat, m: Medium, es: seq<Event>): seq<bool>
    requires Legal(m) && Paced(f, m, es)
    decreases |es|
  {
    if es == [] then []
    else if es[0].Poll? then [FlatBit(f, m, es[0].now)] + RunFlat(FlatStep(f, m, es[0]), m, es[1..])
    else RunFlat(FlatStep(f, m, es[0]), m, es[1..])
  }

  ghost function FlatAfter(f: Flat, m: Medium, es: seq<Event>): Flat
    requires Legal(m) && Paced(f, m, es)
    decreases |es|
  {
    if es == [] then f else FlatAfter(FlatStep(f, m, es[0]), m, es[1..])
  }

  // ---- refinement ----------------------------------------------------------------

  ghost predicate Refines(d: Deck, f: Flat, m: Medium) {
    var t := d.port.transport;
    && Legal(m)
    && t.motor == f.motor && t.playing == f.playing && t.armed == f.armed
    && (t.playing ==> t.armed)
    && Faithful(d.window, m.tape) && d.window.pre == f.last
    && (t.armed ==> Position(t, f.time) == f.pos >= 0 && f.last <= WordAt(m, f.pos))
  }

  lemma {:induction false} WordAtMonotone(m: Medium, p: nat, q: nat)
    requires Legal(m) && p <= q
    ensures WordAt(m, p) <= WordAt(m, q)
  {
    var k := CELLS * m.cellTime;
    ProductMonotone(q / k + 1, p / k, k);
  }

  lemma {:induction false} PollRefines(d: Deck, f: Flat, m: Medium, now: int)
    requires Refines(d, f, m) && Paced(f, m, [Poll(now)])
    ensures PollReady(d, m, now)
    ensures Refines(PollDeck(d, m, now).0, FlatStep(f, m, Poll(now)), m)
    ensures PollDeck(d, m, now).1 == FlatBit(f, m, now)
  {
    if f.playing {
      var pos := Wait(f, now).pos;
      WordAtMonotone(m, f.pos, pos);
      var tword := WordAt(m, pos);
      if tword < |m.tape| { SeekIsFaithful(d.window, m.tape, tword); }
    }
  }

  lemma {:induction false} WriteRefines(d: Deck, f: Flat, m: Medium, e: Event)
    requires Refines(d, f, m) && !e.Poll? && f.time <= e.now
    ensures Refines(WriteDeck(d, e), FlatStep(f, m, e), m)
  {
    if f.playing { WordAtMonotone(m, f.pos, Wait(f, e.now).pos); }
  }

  /**
   * Every paced run of polls and port writes returns what the flat machine returns, and
   * leaves a window that is still that slice of the tape.
   */
  lemma {:induction false} RunRefines(d: Deck, f: Flat, m: Medium, es: seq<Event>)
    requires Refines(d, f, m) && Paced(f, m, es)
    ensures RunReady(d, m, es) && RunDeck(d, m, es) == RunFlat(f, m, es)
    ensures Refines(DeckAfter(d, m, es), FlatAfter(f, m, es), m)
    decreases |es|
  {
    if es != [] {
      var e := es[0];
      if e.Poll? {
        assert Paced(f, m, [e]);
        PollRefines(d, f, m, e.now);
        RunRefines(PollDeck(d, m, e.now).0, FlatStep(f, m, e), m, es[1..]);
      } else {
        WriteRefines(d, f, m, e);
        RunRefines(WriteDeck(d, e), FlatStep(f, m, e), m, es[1..]);
      }
    }
  }
}
