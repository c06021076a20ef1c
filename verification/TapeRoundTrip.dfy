/**
 * The tape as its listener hears it: a decoder that sees only the cells polled from the
 * port, and the theorem that it recovers every record of the file that was inserted.
 */
module TapeRoundTrip {
  import opened Bytes
  import opened BitList
  import opened MztRecord
  import opened TapeFormat
  import opened TapePager
  import opened TapeWave

  // ---- a loader: from pulses to records ---------------------------------------------------

  /** What is left after the short pulses in front. */
  function SkipShorts(p: seq<nat>): (q: seq<nat>)
    ensures |q| <= |p|
  {
    if p == [] || p[0] != SHORT then p else SkipShorts(p[1..])
  }

  /** n longs, n shorts and one long, after any number of shorts. */
  function FindMark(p: seq<nat>, n: nat): (r: Option<seq<nat>>)
    ensures r.Some? ==> |r.value| < |p|
  {
    var q := SkipShorts(p);
    if |q| > 2 * n && q[..n] == Rep(n, LONG) && q[n..2 * n] == Rep(n, SHORT) && q[2 * n] == LONG
    then Some(q[2 * n + 1..]) else None
  }

  /** The byte at pulse i: eight bits behind a start pulse, long for one. */
  function ByteAt(p: seq<nat>, i: nat): Byte
    requires i + 9 <= |p|
  {
    var bits := seq(8, j requires 0 <= j < 8 => p[i + 1 + j] == LONG);
    ValueBound(bits);
    Pow2Table();
    Value(bits)
  }

  function BytesAt(p: seq<nat>, n: nat): (bs: seq<Byte>)
    requires 9 * n <= |p|
    ensures |bs| == n
  {
    seq<Byte>(n, i requires 0 <= i < n => ByteAt(p, 9 * i))
  }

  /** Every byte begins with a long pulse and has nothing but shorts and longs. */
  predicate Framed(p: seq<nat>, n: nat)
    requires 9 * n <= |p|
  {
    (forall i :: 0 <= i < n ==> p[9 * i] == LONG) && (forall k :: 0 <= k < 9 * n ==> p[k] == SHORT || p[k] == LONG)
  }

  /** n bytes, two checksum bytes that agree with them, a stop pulse, and what follows. */
  function TakeBlock(p: seq<nat>, n: nat): (r: Option<(seq<Byte>, seq<nat>)>)
    ensures r.Some? ==> |r.value.0| == n && |r.value.1| < |p|
  {
    var end := 9 * (n + 2);
    if end >= |p| || !Framed(p, n + 2) || p[end] != LONG then None
    else
      var data := BytesAt(p, n);
      if 0x100 * ByteAt(p, 9 * n) + ByteAt(p, 9 * n + 9) == Checksum(data) % 0x1_0000
      then Some((data, p[end + 1..])) else None
  }

  /** Mark of 40, header block, mark of 20, body block, over and over; a mark with nothing behind it ends the tape. */
  function DecodePulses(p: seq<nat>): Option<seq<Record>>
    decreases |p|
  {
    match FindMark(p, 40)
    case None => None
    case Some(q) =>
      if q == [] then Some([])
      else
        match TakeBlock(q, HEADER)
        case None => None
        case Some((header, r)) =>
          match FindMark(r, 20)
          case None => None
          case Some(t) =>
            match TakeBlock(t, SizeOf(header))
            case None => None
            case Some((body, rest)) =>
              match DecodePulses(rest)
              case None => None
              case Some(rs) => Some([Record(header, body)] + rs)
  }

  /** What a loader makes of the cells it polled: it knows pulses, and nothing of words. */
  function Decode(cells: seq<bool>): Option<seq<Record>> { DecodePulses(Feed(Wave([], 0), cells).runs) }

  // ---- the pulses of a tape are its records -------------------------------------------------

  lemma {:induction false} SkipsShorts(k: nat, q: seq<nat>)
    requires q != [] ==> q[0] != SHORT
    ensures SkipShorts(Rep(k, SHORT) + q) == q
    decreases k
  {
    var p := Rep(k, SHORT) + q;
    if k == 0 {
      assert p == q;
    } else {
      assert p[1..] == Rep(k - 1, SHORT) + q;
      SkipsShorts(k - 1, q);
    }
  }

  lemma {:induction false} MarkIsFound(shorts: nat, n: nat, rest: seq<nat>)
    requires n > 0
    ensures FindMark(Mark(shorts, n) + rest, n) == Some(rest)
  {
    var q := Rep(n, LONG) + Rep(n, SHORT) + [LONG] + rest;
    assert Mark(shorts, n) + rest == Rep(shorts, SHORT) + q;
    assert q[0] == Rep(n, LONG)[0] == LONG;
    SkipsShorts(shorts, q);
    assert q[..n] == Rep(n, LONG) && q[n..2 * n] == Rep(n, SHORT) && q[2 * n] == LONG && q[2 * n + 1..] == rest;
  }

  lemma {:induction false} ByteIsRead(p: seq<nat>, i: nat, b: Byte)
    requires i + 9 <= |p| && p[i..i + 9] == BytePulses(b)
    ensures ByteAt(p, i) == b && p[i] == LONG
    ensures forall k :: i <= k < i + 9 ==> p[k] == SHORT || p[k] == LONG
  {
    hide BitsOf, Value;
    var t := p[i..i + 9];
    assert forall k :: 0 <= k < 9 ==> p[i + k] == t[k];
    assert forall k :: i <= k < i + 9 ==> p[k] == t[k - i];
    var bits := seq(8, j requires 0 <= j < 8 => p[i + 1 + j] == LONG);
    forall j | 0 <= j < 8 ensures bits[j] == ByteBits(b)[j] {
      assert t[1 + j] == Lengths(ByteBits(b))[j];
    }
    assert bits == ByteBits(b);
    Pow2Table();
    BitsOfValue(b, BYTE_BITS);
  }

  lemma {:induction false} PulsesOfByte(bs: seq<Byte>, i: nat)
    requires i < |bs|
    ensures BytesPulses(bs)[9 * i..9 * i + 9] == BytePulses(bs[i])
    decreases |bs|
  {
    hide BytePulses;
    var n := |bs| - 1;
    if i < n { PulsesOfByte(bs[..n], i); }
  }

  lemma {:induction false} BytesAreRead(bs: seq<Byte>, tail: seq<nat>)
    ensures var p := BytesPulses(bs) + tail;
            && Framed(p, |bs|) && forall i :: 0 <= i < |bs| ==> ByteAt(p, 9 * i) == bs[i]
  {
    hide BytePulses, BytesPulses, ByteAt;
    var p := BytesPulses(bs) + tail;
    forall i | 0 <= i < |bs|
      ensures ByteAt(p, 9 * i) == bs[i] && p[9 * i] == LONG
      ensures forall k :: 9 * i <= k < 9 * i + 9 ==> p[k] == SHORT || p[k] == LONG
    {
      PulsesOfByte(bs, i);
      assert p[9 * i..9 * i + 9] == BytesPulses(bs)[9 * i..9 * i + 9];
      ByteIsRead(p, 9 * i, bs[i]);
    }
    forall k | 0 <= k < 9 * |bs| ensures p[k] == SHORT || p[k] == LONG {
      var i := k / 9;
      assert 9 * i <= k < 9 * i + 9;
    }
  }

  lemma {:induction false} BlockIsTaken(bs: seq<Byte>, rest: seq<nat>)
    ensures TakeBlock(BlockPulses(bs) + rest, |bs|) == Some((bs, rest))
  {
    hide BytesPulses, ByteAt, Framed, Checksum;
    var n := |bs|;
    var all := bs + [High(Checksum(bs)), Low(Checksum(bs))];
    var p := BlockPulses(bs) + rest;
    assert p == BytesPulses(all) + ([LONG] + rest);
    BytesAreRead(all, [LONG] + rest);
    assert all[n] == High(Checksum(bs)) && all[n + 1] == Low(Checksum(bs));
    assert ByteAt(p, 9 * n) == all[n] && ByteAt(p, 9 * (n + 1)) == all[n + 1];
    assert forall i :: 0 <= i < n ==> ByteAt(p, 9 * i) == all[i];
    assert BytesAt(p, n) == bs;
    assert p[9 * (n + 2)] == LONG && p[9 * (n + 2) + 1..] == rest;
    SumOfBytes(Checksum(bs));
  }

  lemma {:induction false} SumOfBytes(sum: nat)
    ensures 0x100 * (High(sum) as int) + Low(sum) == sum % 0x1_0000
  {
  }

  lemma {:induction false} NotNothing(bs: seq<Byte>, rest: seq<nat>)
    ensures |BlockPulses(bs) + rest| > 0
  {
  }

  /** Decoding inverts the pulses of every complete file, however many shorts come first. */
  lemma {:induction false} DecodeInverts(file: seq<Byte>, shorts: nat)
    requires Complete(file)
    ensures DecodePulses(TapePulses(file, shorts)) == Some(Records(file))
    decreases |file|
  {
    hide FindMark, TakeBlock, BlockPulses, Mark;
    if |file| < HEADER {
      MarkIsFound(shorts, 40, []);
      assert Mark(shorts, 40) + [] == Mark(shorts, 40);
    } else {
      var end := HEADER + SizeOf(file);
      var header, body := file[..HEADER], file[HEADER..end];
      var rest := TapePulses(file[end..], 5973);
      var t := BlockPulses(body) + rest;
      var r := Mark(5848, 20) + t;
      var q := BlockPulses(header) + r;
      assert TapePulses(file, shorts) == Mark(shorts, 40) + q;
      MarkIsFound(shorts, 40, q);
      BlockIsTaken(header, r);
      assert |q| > 0 by { NotNothing(header, r); }
      MarkIsFound(5848, 20, t);
      BlockIsTaken(body, rest);
      DecodeInverts(file[end..], 5973);
    }
  }

  /** Heard cell for cell, the tape is its words with the first one blank. */
  lemma {:induction false} HeardIsWords(cells: seq<bool>, tape: seq<Word32>)
    requires HeardFrom(cells, tape, 0) && |cells| == CELLS * |tape| && tape != []
    ensures cells == AllCells(tape[0 := 0])
  {
    hide Cell, AllCells;
    var ws := tape[0 := 0];
    forall k | 0 <= k < |cells| ensures cells[k] == AllCells(ws)[k] {
      AllCellsAt(ws, k);
    }
  }

  // ---- polling once per cell ---------------------------------------------------------

  predicate InCell(elapsed: int, k: nat, cellTime: nat) {
    k * cellTime <= elapsed < (k + 1) * cellTime
  }

  lemma {:induction false} CellPosition(m: Medium, pos: nat, k: nat)
    requires m.cellTime > 0 && InCell(pos, k, m.cellTime)
    ensures WordAt(m, pos) == k / CELLS && CellAt(m, pos) == k % CELLS
  {
    var d := m.cellTime;
    var q, c := k / CELLS, k % CELLS;
    assert k * d == q * (CELLS * d) + c * d by {
      assert k == q * CELLS + c;
      assert (q * CELLS + c) * d == q * (CELLS * d) + c * d;
    }
    var r := pos - q * (CELLS * d);
    assert c * d <= r < c * d + d by { assert (k + 1) * d == k * d + d; }
    assert (c + 1) * d == c * d + d;
    ProductMonotone(c + 1, CELLS, d);
    QuotientUnique(pos, CELLS * d, q, r);
    QuotientUnique(r, d, c, r - c * d);
  }

  function PollCount(es: seq<Event>): nat {
    if es == [] then 0 else (if es[0].Poll? then 1 else 0) + PollCount(es[1..])
  }

  /**
   * A listener in cell `first` of the tape: time runs forward, polls come only while the tape
   * plays, and each falls inside the next cell by playing time.  Any port writes may come
   * between, pausing and resuming the tape.
   */
  ghost predicate Listens(f: Flat, m: Medium, es: seq<Event>, first: nat)
    requires Legal(m)
    decreases |es|
  {
    es == [] ||
    (&& f.time <= es[0].now
     && (es[0].Poll? ==> f.playing && InCell(Wait(f, es[0].now).pos, first, m.cellTime))
     && Listens(FlatStep(f, m, es[0]), m, es[1..], if es[0].Poll? then first + 1 else first))
  }

  /** The first poll of a listener: within reach, and the cell it is in. */
  lemma {:induction false} PollHearsCell(f: Flat, m: Medium, now: int, first: nat)
    requires Legal(m) && f.playing && f.pos >= 0 && f.time <= now && first < CELLS * |m.tape|
    requires InCell(Wait(f, now).pos, first, m.cellTime) && f.last == (if first == 0 then 0 else (first - 1) / CELLS)
    ensures Paced(f, m, [Poll(now)])
    ensures FlatBit(f, m, now) == Cell(BlankFirst(m.tape, first / CELLS), first % CELLS)
    ensures FlatStep(f, m, Poll(now)) == Wait(f, now).(last := first / CELLS)
  {
    hide Cell, WordAt, CellAt, InCell;
    CellPosition(m, Wait(f, now).pos, first);
    assert first / CELLS < |m.tape|;
  }

  /** Between polls the position only grows while the tape plays. */
  lemma {:induction false} WriteMovesOn(f: Flat, m: Medium, e: Event)
    requires Legal(m) && f.pos >= 0 && f.time <= e.now && !e.Poll?
    ensures FlatStep(f, m, e).pos >= 0 && FlatStep(f, m, e).last == f.last
    ensures Paced(f, m, [e])
  {
    hide MotorBit;
  }

  /** Cells of the tape from `first` on, word 0 blank. */
  ghost predicate HeardFrom(cells: seq<bool>, tape: seq<Word32>, first: nat) {
    first + |cells| <= CELLS * |tape| &&
    forall k :: 0 <= k < |cells| ==> cells[k] == Cell(BlankFirst(tape, (first + k) / CELLS), (first + k) % CELLS)
  }

  lemma {:induction false} HeardOneMore(bit: bool, cells: seq<bool>, tape: seq<Word32>, first: nat)
    requires HeardFrom(cells, tape, first + 1)
    requires bit == Cell(BlankFirst(tape, first / CELLS), first % CELLS)
    ensures HeardFrom([bit] + cells, tape, first)
  {
    hide Cell;
    var all := [bit] + cells;
    forall k | 0 <= k < |all|
      ensures all[k] == Cell(BlankFirst(tape, (first + k) / CELLS), (first + k) % CELLS)
    {
      if k > 0 {
        assert first + k == (first + 1) + (k - 1);
        assert all[k] == cells[k - 1];
      }
    }
  }

  lemma {:induction false} PacedFirst(f: Flat, m: Medium, es: seq<Event>)
    requires Legal(m) && es != [] && Paced(f, m, [es[0]]) && Paced(FlatStep(f, m, es[0]), m, es[1..])
    ensures Paced(f, m, es)
  {
    hide WordAt;
  }

  /** The bits a listener hears from cell `first` on, one poll per cell. */
  lemma {:induction false} PollsHearCells(f: Flat, m: Medium, es: seq<Event>, first: nat)
    requires Legal(m) && f.pos >= 0 && Listens(f, m, es, first) && first + PollCount(es) <= CELLS * |m.tape|
    requires f.last == (if first == 0 then 0 else (first - 1) / CELLS)
    ensures Paced(f, m, es) && |RunFlat(f, m, es)| == PollCount(es)
    ensures HeardFrom(RunFlat(f, m, es), m.tape, first)
    decreases |es|
  {
    hide FlatStep, FlatBit, InCell, HeardFrom, Paced;
    if es == [] {
      NothingHeard(f, m, first);
    } else {
      var e := es[0];
      var g := FlatStep(f, m, e);
      if e.Poll? {
        PollHearsCell(f, m, e.now, first);
        assert e == Poll(e.now);
        PollsHearCells(g, m, es[1..], first + 1);
        HeardOneMore(FlatBit(f, m, e.now), RunFlat(g, m, es[1..]), m.tape, first);
      } else {
        WriteMovesOn(f, m, e);
        PollsHearCells(g, m, es[1..], first);
      }
      PacedFirst(f, m, es);
    }
  }

  lemma {:induction false} NothingHeard(f: Flat, m: Medium, first: nat)
    requires Legal(m) && first <= CELLS * |m.tape|
    ensures Paced(f, m, []) && HeardFrom([], m.tape, first)
  {
  }

  /** A tape just inserted and started, before any poll. */
  ghost predicate FreshlyStarted(d: Deck, start: int) {
    && d.port.transport.playing && d.port.transport.armed
    && d.port.transport.elapsed == 0 && d.port.transport.started == start
    && |d.window.buf| == PAGE && d.window == Rewound(d.window)
  }

  /** The simple machine of such a tape. */
  function FreshFlat(d: Deck, start: int): Flat { Flat(d.port.transport.motor, true, true, 0, start, 0) }

  /**
   * End to end: insert a tape file, start it, poll the port once per cell at any moment
   * inside the cell, with any port writes and pauses between, and the decoder returns
   * exactly the records of the file.
   */
  lemma {:induction false} TapeRoundTrip(file: seq<Byte>, d: Deck, cellTime: nat, start: int, es: seq<Event>)
    requires Complete(file) && cellTime > 0 && FreshlyStarted(d, start)
    requires PollCount(es) == CELLS * |TapeWords(file)|
    requires Listens(FreshFlat(d, start), Medium(TapeWords(file), cellTime), es, 0)
    ensures var m := Medium(TapeWords(file), cellTime);
            && RunReady(d, m, es)
            && Decode(RunDeck(d, m, es)) == Some(Records(file))
  {
    hide TapeWords, Complete, Records, DecodePulses, Cell, Listens, Feed, FeedWords, AllCells, TapePulses;
    var m := Medium(TapeWords(file), cellTime);
    var f := FreshFlat(d, start);
    PollsHearCells(f, m, es, 0);
    RunRefines(d, f, m, es);
    var cells := RunDeck(d, m, es);
    HeardIsWords(cells, m.tape);
    FeedAllCells(Wave([], 0), m.tape[0 := 0]);
    FeedHeardTape(file);
    DecodeInverts(file, 5959);
  }

  // ---- the same, for an uninterrupted tape and for any list of records ----------------

  function Polls(times: seq<int>): (es: seq<Event>)
    ensures |es| == |times|
  {
    seq(|times|, k requires 0 <= k < |times| => Poll(times[k]))
  }

  /** Poll k falls inside cell first + k of a tape that started playing at start. */
  ghost predicate OncePerCell(times: seq<int>, first: nat, start: int, cellTime: nat) {
    forall k :: 0 <= k < |times| ==> InCell(times[k] - start, first + k, cellTime)
  }

  lemma {:induction false} SteadyListens(f: Flat, m: Medium, times: seq<int>, first: nat, start: int)
    requires Legal(m) && f.playing && f.pos == f.time - start && OncePerCell(times, first, start, m.cellTime)
    requires first + |times| <= CELLS * |m.tape| && f.pos <= first * m.cellTime
    ensures Listens(f, m, Polls(times), first) && PollCount(Polls(times)) == |times|
    decreases |times|
  {
    hide WordAt;
    if times != [] {
      var es := Polls(times);
      assert InCell(times[0] - start, first, m.cellTime);
      CellPosition(m, Wait(f, times[0]).pos, first);
      assert es[1..] == Polls(times[1..]);
      forall k | 0 <= k < |times| - 1 ensures InCell(times[1..][k] - start, first + 1 + k, m.cellTime) {
        assert InCell(times[k + 1] - start, first + (k + 1), m.cellTime);
      }
      SteadyListens(FlatStep(f, m, es[0]), m, times[1..], first + 1, start);
    }
  }

  /** A tape left to play from the start, polled once per cell of clock time. */
  lemma {:induction false} SteadyRoundTrip(file: seq<Byte>, d: Deck, cellTime: nat, start: int, times: seq<int>)
    requires Complete(file) && cellTime > 0 && FreshlyStarted(d, start)
    requires |times| == CELLS * |TapeWords(file)| && OncePerCell(times, 0, start, cellTime)
    ensures var m := Medium(TapeWords(file), cellTime);
            && RunReady(d, m, Polls(times))
            && Decode(RunDeck(d, m, Polls(times))) == Some(Records(file))
  {
    hide TapeWords, Complete, Records, Decode, Listens;
    SteadyListens(FreshFlat(d, start), Medium(TapeWords(file), cellTime), times, 0, start);
    TapeRoundTrip(file, d, cellTime, start, Polls(times));
  }

  /** For any list of records written out as a file: what is heard decodes to that list. */
  lemma {:induction false} RecordsRoundTrip(rs: seq<Record>, tail: seq<Byte>, file: seq<Byte>, d: Deck, cellTime: nat,
                                            start: int, es: seq<Event>)
    requires |tail| < HEADER && (forall i :: 0 <= i < |rs| ==> ValidRecord(rs[i])) && file == FileOf(rs, tail)
    requires cellTime > 0 && FreshlyStarted(d, start)
    requires Complete(file) && PollCount(es) == CELLS * |TapeWords(file)|
    requires Listens(FreshFlat(d, start), Medium(TapeWords(file), cellTime), es, 0)
    ensures var m := Medium(TapeWords(file), cellTime);
            RunReady(d, m, es) && Decode(RunDeck(d, m, es)) == Some(rs)
  {
    hide TapeWords, Complete, Records, Decode, Listens;
    FileOfIsComplete(rs, tail);
    TapeRoundTrip(file, d, cellTime, start, es);
  }
}
