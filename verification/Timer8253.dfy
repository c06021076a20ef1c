/** The 8253 interval timer: three counters, a latch and byte protocol, and the tick cascade. */
module Timer8253 {
  import opened Bytes
  import opened BitList

  /** rl is the read/load mode, second the byte flip-flop shared by reads and writes. */
  datatype Counter = Counter(mode: nat, rl: nat, bcd: bool, latched: bool, running: bool,
                             counter: int, base: Word16, out: bool, lat: Word16, second: bool)

  type Pit = p: seq<Counter> | |p| == 3 witness seq(3, _ => Counter(0, 0, false, false, false, 0, 0, false, 0, false))

  type Index = i: int | 0 <= i < 3

  const CLEARED: Counter := Counter(0, 0, false, false, false, 0, 0, false, 0, false)

  // ---- one counter ---------------------------------------------------------------

  /** One count pulse of cou steps; the result is the output pulse. */
  function Job(c: Counter, cou: nat): (Counter, bool) {
    if !c.running then (c, false)
    else
      match c.mode
      case 0 =>
        if c.counter <= 0 then (c.(counter := 0, out := true), true)
        else (c.(counter := c.counter - cou, out := false), false)
      case 2 =>
        if c.counter - cou <= 0 then (c.(counter := c.base, out := true), true)
        else (c.(counter := c.counter - cou, out := false), false)
      case 4 =>
        if c.counter - cou <= 0 then (c.(counter := -1, out := true), true)
        else (c.(counter := c.counter - cou, out := false), false)
      case _ => (c.(out := false), false)
  }

  /** A new base reaches the counter at once, except in modes 2 and 3 while running. */
  function Loaded(c: Counter, base: Word16): Counter {
    c.(base := base, counter := if c.running && (c.mode == 2 || c.mode == 3) then c.counter else base)
  }

  function StoreByte(c: Counter, val: Byte): Counter {
    var d := c.(out := if c.mode == 0 then false else c.out, latched := false);
    match d.rl
    case 1 => Loaded(d, val).(second := false, running := true)
    case 2 => Loaded(d, 0x100 * val).(second := false, running := true)
    case 3 =>
      if d.second then Loaded(d, Word(Low(d.base), val)).(second := false, running := true)
      else Loaded(d, val).(second := true)
    case _ => d
  }

  /** A read takes the latched count if there is one; the flip-flop picks the byte. */
  function FetchByte(c: Counter): (Counter, int) {
    if c.latched then
      match c.rl
      case 1 => (c.(latched := false), c.lat % 0x100)
      case 2 => (c.(latched := false), c.lat / 0x100)
      case 3 =>
        if !c.second then (c.(second := true), c.lat % 0x100)
        else (c.(second := false, latched := false), c.lat / 0x100)
      case _ => (c, 0x7F)
    else
      match c.rl
      case 1 => (c, c.counter % 0x100)
      case 2 => (c, c.counter / 0x100)
      case 3 =>
        if !c.second then (c.(second := true), c.counter % 0x100)
        else (c.(second := false), c.counter / 0x100)
      case _ => (c, 0xFF)
  }

  /** The counter a control word selects; 3 is no counter. */
  function Selected(cw: Byte): nat { cw / 0x40 % 4 }

  /** Control word: rl 0 latches the count, anything else programs the counter. */
  function Command(c: Counter, cw: Byte): Counter {
    var d := c.(out := false);
    if cw / 0x10 % 4 == 0 then d.(lat := c.counter % 0x1_0000, latched := true)
    else d.(second := false, latched := false, running := false,
            rl := cw / 0x10 % 4, bcd := Bit(cw, 1), mode := cw / 2 % 8)
  }

  // ---- the three together --------------------------------------------------------

  datatype Op = Tick | Store(i: Index, val: Byte) | Fetch(i: Index) | Control(cw: Byte)

  ghost predicate Legal(op: Op) { op.Control? ==> Selected(op.cw) < 3 }

  /** Counter 1 counts every tick and counter 2 counts its pulses. */
  function TickPit(p: Pit): (Pit, bool) {
    var (c1, pulse) := Job(p[1], 1);
    if pulse then var (c2, ret) := Job(p[2], 1); ([p[0], c1, c2], ret)
    else ([p[0], c1, p[2]], false)
  }

  function Apply(p: Pit, op: Op): Pit
    requires Legal(op)
  {
    match op
    case Tick => TickPit(p).0
    case Store(i, val) => p[i := StoreByte(p[i], val)]
    case Fetch(i) => p[i := FetchByte(p[i]).0]
    case Control(cw) => p[Selected(cw) := Command(p[Selected(cw)], cw)]
  }

  function Run(p: Pit, ops: seq<Op>): Pit
    requires forall k :: 0 <= k < |ops| ==> Legal(ops[k])
    decreases |ops|
  {
    if ops == [] then p else Run(Apply(p, ops[0]), ops[1..])
  }

  // ---- the cascade law -------------------------------------------------------------

  function Ticks(p: Pit, j: nat): Pit {
    if j == 0 then p else TickPit(Ticks(p, j - 1)).0
  }

  /** Whether the j-th tick from p on raises the interrupt, j >= 1. */
  predicate Raises(p: Pit, j: nat)
    requires j >= 1
  {
    TickPit(Ticks(p, j - 1)).1
  }

  predicate FreshRate(c: Counter, n: nat) { c.mode == 2 && c.running && c.base == c.counter == n }

  predicate FreshOneShot(c: Counter, m: nat) { c.mode == 0 && c.running && c.counter == m }

  function Period(n: nat): (d: nat)
    ensures d >= 1
  {
    if n == 0 then 1 else n
  }

  function Floor(m: int): nat { if m < 0 then 0 else m }

  /** Where the cascade stands after q whole periods and r ticks of the next one. */
  predicate Stands(p: Pit, n: nat, m: nat, q: nat, r: nat) {
    && p[1].mode == 2 && p[1].running && p[1].base == n
    && (n == 0 ==> p[1].counter == 0) && (n > 0 ==> p[1].counter == n - r)
    && p[2].mode == 0 && p[2].running && p[2].counter == Floor(m - q)
  }

  lemma {:induction false} CascadeTick(p: Pit, n: nat, m: nat, q: nat, r: nat)
    requires Stands(p, n, m, q, r) && r < Period(n)
    ensures r + 1 < Period(n) ==> Stands(TickPit(p).0, n, m, q, r + 1) && !TickPit(p).1
    ensures r + 1 == Period(n) ==> Stands(TickPit(p).0, n, m, q + 1, 0) && (TickPit(p).1 <==> q >= m)
  {
  }

  lemma {:induction false} CascadeStands(p: Pit, n: nat, m: nat, j: nat)
    requires FreshRate(p[1], n) && FreshOneShot(p[2], m)
    ensures Stands(Ticks(p, j), n, m, j / Period(n), j % Period(n))
    decreases j
  {
    hide TickPit, Period, Stands;
    var d := Period(n);
    if j == 0 {
      StandsFresh(p, n, m);
      QuotientUnique(0, d, 0, 0);
    } else {
      CascadeStands(p, n, m, j - 1);
      NextTick(j, d);
      CascadeTick(Ticks(p, j - 1), n, m, (j - 1) / d, (j - 1) % d);
    }
  }

  lemma {:induction false} StandsFresh(p: Pit, n: nat, m: nat)
    requires FreshRate(p[1], n) && FreshOneShot(p[2], m)
    ensures Stands(p, n, m, 0, 0)
  {
  }

  /** Counting j in periods of d: the remainder grows until it wraps. */
  lemma {:induction false} NextTick(j: nat, d: nat)
    requires j >= 1 && d >= 1
    ensures (j - 1) % d + 1 < d ==> j / d == (j - 1) / d && j % d == (j - 1) % d + 1
    ensures (j - 1) % d + 1 == d ==> j / d == (j - 1) / d + 1 && j % d == 0
  {
    var q, r := (j - 1) / d, (j - 1) % d;
    assert j - 1 == q * d + r;
    if r + 1 < d {
      QuotientUnique(j, d, q, r + 1);
    } else {
      assert (q + 1) * d == q * d + d;
      QuotientUnique(j, d, q + 1, 0);
    }
  }

  /** Tick j ends a period of counter 1, and counter 2 has run out by then. */
  predicate Due(n: nat, m: nat, j: nat) { j % Period(n) == 0 && j / Period(n) >= m + 1 }

  /** Before tick j the cascade stands r ticks into period q, which says whether j is due. */
  lemma {:induction false} BeforeTick(p: Pit, n: nat, m: nat, j: nat) returns (q: nat, r: nat)
    requires FreshRate(p[1], n) && FreshOneShot(p[2], m) && j >= 1
    ensures Stands(Ticks(p, j - 1), n, m, q, r) && r < Period(n)
    ensures Due(n, m, j) <==> r + 1 == Period(n) && q >= m
  {
    hide Stands, Ticks;
    var d := Period(n);
    q, r := (j - 1) / d, (j - 1) % d;
    CascadeStands(p, n, m, j - 1);
    NextTick(j, d);
  }

  lemma {:induction false} StandsInRange(p: Pit, n: nat, m: nat, q: nat, r: nat)
    requires Stands(p, n, m, q, r) && r < Period(n)
    ensures n > 0 ==> 1 <= p[1].counter <= n
  {
  }

  /**
   * Rate generator into one-shot: counter 1 stays within 1..N, and tick j raises the
   * interrupt exactly when N divides j and j / N is at least M + 1 (a base of 0 counts as 1).
   */
  lemma {:induction false} CascadeLaw(p: Pit, n: nat, m: nat, j: nat)
    requires FreshRate(p[1], n) && FreshOneShot(p[2], m) && j >= 1
    ensures Raises(p, j) <==> Due(n, m, j)
    ensures n > 0 ==> 1 <= Ticks(p, j)[1].counter <= n
  {
    hide TickPit, Due, Period, Stands;
    var q, r := BeforeTick(p, n, m, j);
    CascadeTick(Ticks(p, j - 1), n, m, q, r);
    if r + 1 < Period(n) {
      StandsInRange(Ticks(p, j), n, m, q, r + 1);
    } else {
      StandsInRange(Ticks(p, j), n, m, q + 1, 0);
    }
  }

  /** Programming a counter through the port: control word, low byte, high byte. */
  function Program(i: Index, cw: Byte, w: Word16): seq<Op> {
    [Control(cw), Store(i, Low(w)), Store(i, High(w))]
  }

  lemma {:induction false} WordOfBytes(w: Word16)
    ensures Word(Low(Low(w)), High(w)) == w
  {
  }

  lemma {:induction false} RunThree(p: Pit, a: Op, b: Op, c: Op)
    requires Legal(a) && Legal(b) && Legal(c)
    ensures Run(p, [a, b, c]) == Apply(Apply(Apply(p, a), b), c)
  {
    hide Apply;
    var q := Apply(p, a);
    var r := Apply(q, b);
    assert [a, b, c][1..] == [b, c] && [b, c][1..] == [c] && [c][1..] == [];
    assert Run(Apply(r, c), [c][1..]) == Apply(r, c);
    assert Run(r, [c]) == Apply(r, c);
    assert Run(q, [b, c]) == Run(r, [b, c][1..]);
    assert Run(p, [a, b, c]) == Run(q, [a, b, c][1..]);
  }

  /** Whatever state it was in, a counter programmed with rl 3 runs from exactly that word. */
  lemma {:induction false} ProgramIsFresh(p: Pit, i: Index, cw: Byte, w: Word16)
    requires Selected(cw) == i && cw / 0x10 % 4 == 3
    ensures var q := Run(p, Program(i, cw, w));
            && q[i].mode == cw / 2 % 8 && q[i].running && q[i].base == q[i].counter == w
            && forall k: Index :: k != i ==> q[k] == p[k]
  {
    WordOfBytes(w);
    RunThree(p, Control(cw), Store(i, Low(w)), Store(i, High(w)));
    var c := Command(p[i], cw);
    var d := StoreByte(c, Low(w));
    assert d.second && !d.running && d.base == Low(w) && d.rl == 3;
    assert StoreByte(d, High(w)).base == w;
  }

  /** From any state: program counter 2 one-shot with m, counter 1 rate with n, and the law holds. */
  lemma {:induction false} ProgrammedCascade(p: Pit, n: Word16, m: Word16, j: nat)
    requires j >= 1
    ensures var q := Run(Run(p, Program(2, 0xB0, m)), Program(1, 0x74, n));
            Raises(q, j) <==> Due(n, m, j)
  {
    hide Due, Run, Raises;
    var p2 := Run(p, Program(2, 0xB0, m));
    ProgramIsFresh(p, 2, 0xB0, m);
    ProgramIsFresh(p2, 1, 0x74, n);
    var q := Run(p2, Program(1, 0x74, n));
    var two: Index := 2;
    assert q[two] == p2[two];
    CascadeLaw(q, n, m, j);
  }

  /** Mode 4 is commented as a single pulse; as coded it pulses on every tick from then on. */
  function Jobs(c: Counter, j: nat): Counter {
    if j == 0 then c else Job(Jobs(c, j - 1), 1).0
  }

  lemma {:induction false} ModeFourKeepsPulsing(c: Counter, n: nat, j: nat)
    requires c.mode == 4 && c.running && c.counter == n && j >= 1
    ensures Job(Jobs(c, j - 1), 1).1 <==> j >= n
    ensures Jobs(c, j).mode == 4 && Jobs(c, j).running
    ensures Jobs(c, j).counter == if j >= n then -1 else n - j
    decreases j
  {
    if j > 1 { ModeFourKeepsPulsing(c, n, j - 1); }
  }

  // ---- latching and loading --------------------------------------------------------

  predicate Touches(op: Op, i: Index) {
    match op
    case Tick => false
    case Store(k, _) => k == i
    case Fetch(k) => k == i
    case Control(cw) => Selected(cw) == i
  }

  ghost predicate Elsewhere(ops: seq<Op>, i: Index) {
    forall k :: 0 <= k < |ops| ==> Legal(ops[k]) && !Touches(ops[k], i)
  }

  /** The part of a counter that only its own commands, loads and reads change. */
  predicate SameProtocol(c: Counter, d: Counter) {
    d.lat == c.lat && d.latched == c.latched && d.rl == c.rl && d.second == c.second &&
    d.base == c.base && d.mode == c.mode && d.running == c.running
  }

  lemma {:induction false} JobKeepsProtocol(c: Counter)
    ensures SameProtocol(c, Job(c, 1).0)
  {
  }

  lemma {:induction false} ApplyElsewhere(p: Pit, op: Op, i: Index)
    requires Legal(op) && !Touches(op, i)
    ensures SameProtocol(p[i], Apply(p, op)[i])
  {
    hide Job, StoreByte, FetchByte, Command;
    if op.Tick? {
      JobKeepsProtocol(p[1]);
      JobKeepsProtocol(p[2]);
    }
  }

  /** Ticks and traffic on other counters leave latch, flip-flop and read mode alone. */
  lemma {:induction false} ElsewhereKeeps(p: Pit, ops: seq<Op>, i: Index)
    requires Elsewhere(ops, i)
    ensures SameProtocol(p[i], Run(p, ops)[i])
    decreases |ops|
  {
    hide Apply;
    if ops != [] {
      assert Legal(ops[0]) && !Touches(ops[0], i);
      ApplyElsewhere(p, ops[0], i);
      ElsewhereKeeps(Apply(p, ops[0]), ops[1..], i);
    }
  }

  /**
   * A latched count is read whole: whatever ticks and other-counter traffic come before,
   * between and after, the next two reads are the low and the high byte of the count at
   * latch time, and the latch is then off.
   */
  lemma {:induction false} LatchIsAtomic(p: Pit, i: Index, cw: Byte, before: seq<Op>, between: seq<Op>)
    requires p[i].rl == 3 && !p[i].second
    requires Selected(cw) == i && cw / 0x10 % 4 == 0 && Elsewhere(before, i) && Elsewhere(between, i)
    ensures var q := Run(Apply(p, Control(cw)), before);
            var r := Run(Apply(q, Fetch(i)), between);
            && FetchByte(q[i]).1 == Low(p[i].counter) && FetchByte(r[i]).1 == High(p[i].counter)
            && !Apply(r, Fetch(i))[i].latched && !Apply(r, Fetch(i))[i].second
  {
    var l := Apply(p, Control(cw));
    ElsewhereKeeps(l, before, i);
    var q := Run(l, before);
    ElsewhereKeeps(Apply(q, Fetch(i)), between, i);
    assert p[i].counter % 0x1_0000 % 0x100 == p[i].counter % 0x100;
    assert p[i].counter % 0x1_0000 / 0x100 == p[i].counter / 0x100 % 0x100;
  }

  /**
   * Exactly when two reads give the latched count: the flip-flop was clear, or the two bytes of
   * the count and the live low byte at the second read are all the same.
   */
  lemma {:induction false} LatchNeedsFlipFlop(p: Pit, i: Index, cw: Byte, before: seq<Op>, between: seq<Op>)
    requires p[i].rl == 3
    requires Selected(cw) == i && cw / 0x10 % 4 == 0 && Elsewhere(before, i) && Elsewhere(between, i)
    ensures var q := Run(Apply(p, Control(cw)), before);
            var r := Run(Apply(q, Fetch(i)), between);
            var low, high := Low(p[i].counter), High(p[i].counter);
            FetchByte(q[i]).1 == low && FetchByte(r[i]).1 == high
            <==> !p[i].second || (low == high && r[i].counter % 0x100 == low)
  {
    var l := Apply(p, Control(cw));
    ElsewhereKeeps(l, before, i);
    var q := Run(l, before);
    ElsewhereKeeps(Apply(q, Fetch(i)), between, i);
    assert p[i].counter % 0x1_0000 % 0x100 == p[i].counter % 0x100;
    assert p[i].counter % 0x1_0000 / 0x100 == p[i].counter / 0x100 % 0x100;
    hide Run, Apply;
  }

  /** With the flip-flop set the first read of the latch is already its high byte, and ends it. */
  lemma {:induction false} LatchOutOfStep(c: Counter)
    requires c.rl == 3 && c.latched && c.second
    ensures FetchByte(c).1 == c.lat / 0x100 && !FetchByte(c).0.latched
  {
  }

  /** Low-then-high writes load that base, whatever comes between, when the flip-flop is clear. */
  lemma {:induction false} LoadIsExact(p: Pit, i: Index, w: Word16, between: seq<Op>)
    requires p[i].rl == 3 && !p[i].second && Elsewhere(between, i)
    ensures var q := Run(Apply(p, Store(i, Low(w))), between);
            var r := Apply(q, Store(i, High(w)))[i];
            && r.base == w && r.running && !r.second
            && (!(p[i].running && (p[i].mode == 2 || p[i].mode == 3)) ==> r.counter == w)
  {
    ElsewhereKeeps(Apply(p, Store(i, Low(w))), between, i);
    WordOfBytes(w);
  }

  /**
   * When two writes in a row load their word: exactly if the flip-flop was clear, or the
   * word is zero.  Reads flip it too, so one stray read between two loads breaks the next.
   */
  lemma {:induction false} LoadNeedsFlipFlop(c: Counter, w: Word16)
    requires c.rl == 3
    ensures StoreByte(StoreByte(c, Low(w)), High(w)).base == w <==> !c.second || w == 0
  {
    WordOfBytes(w);
    assert w == Low(w) + 0x100 * High(w);
  }

  /** The stray read: a fetch between the two halves turns the high byte into a low byte. */
  lemma {:induction false} StrayRead(c: Counter, w: Word16)
    requires c.rl == 3 && !c.second && !c.latched
    ensures StoreByte(FetchByte(StoreByte(c, Low(w))).0, High(w)).base == High(w)
  {
  }

  /**
   * The one-byte modes: a write loads the low byte alone (rl 1) or the high byte alone (rl 2),
   * a read gives that byte, of the latched count when there is one, and ends the latch.
   */
  lemma {:induction false} OneByteModes(c: Counter, val: Byte)
    requires c.rl == 1 || c.rl == 2
    ensures StoreByte(c, val).base == (if c.rl == 1 then val else 0x100 * val)
    ensures StoreByte(c, val).running && !StoreByte(c, val).latched && !StoreByte(c, val).second
    ensures var count := if c.latched then c.lat as int else c.counter;
            FetchByte(c).1 == if c.rl == 1 then count % 0x100 else count / 0x100
    ensures FetchByte(c).0 == c.(latched := false)
  {
  }

  /** Two unlatched reads in the two-byte mode: the flip-flop says which half is first, and is left as it was. */
  lemma {:induction false} LiveReads(c: Counter)
    requires c.rl == 3 && !c.latched
    ensures var (d, first) := FetchByte(c);
            var (e, other) := FetchByte(d);
            && first == (if c.second then c.counter / 0x100 else c.counter % 0x100)
            && other == (if c.second then c.counter % 0x100 else c.counter / 0x100)
            && d == c.(second := !c.second) && e == c
  {
  }

  /** A counter without a read/load mode loads nothing and reads 7F latched, FF otherwise. */
  lemma {:induction false} NoMode(c: Counter, val: Byte)
    requires c.rl == 0
    ensures FetchByte(c) == (c, if c.latched then 0x7F else 0xFF)
    ensures StoreByte(c, val) == c.(out := c.out && c.mode != 0, latched := false)
  {
  }

  /** The counter a load leaves: the new base, unless a rate or square-wave counter is running. */
  lemma {:induction false} LoadWhileRunning(c: Counter, val: Byte)
    requires c.rl == 1 || c.rl == 2 || (c.rl == 3 && c.second)
    ensures var d := StoreByte(c, val);
            d.counter == if c.running && (c.mode == 2 || c.mode == 3) then c.counter else d.base
  {
  }

  /** A rate generator loaded in mid-period ends that period first, then follows the new base. */
  lemma {:induction false} NewRateNextPeriod(c: Counter, base: Word16, j: nat)
    requires c.mode == 2 && c.running && 1 <= j <= c.counter
    ensures var d := Loaded(c, base);
            Jobs(d, j).counter == (if j < c.counter then c.counter - j else base)
            && (Job(Jobs(d, j - 1), 1).1 <==> j == c.counter)
    ensures var e := Jobs(Loaded(c, base), j); e.mode == 2 && e.running && e.base == base
    decreases j
  {
    if j > 1 { NewRateNextPeriod(c, base, j - 1); }
  }

  /** A control word stops the counter and ends its latch: it counts again only when loaded. */
  lemma {:induction false} ProgrammedIsSilent(c: Counter, cw: Byte, j: nat)
    requires cw / 0x10 % 4 != 0
    ensures var d := Command(c, cw);
            && d.rl == cw / 0x10 % 4 && d.mode == cw / 2 % 8 && d.bcd == (cw % 2 == 1)
            && !d.latched && !d.second && !d.out && Jobs(d, j) == d && !Job(d, 1).1
    decreases j
  {
    if j > 0 { ProgrammedIsSilent(c, cw, j - 1); }
  }

  /** Only modes 0, 2 and 4 ever pulse. */
  lemma {:induction false} OtherModesAreSilent(c: Counter, cou: nat)
    requires c.mode != 0 && c.mode != 2 && c.mode != 4
    ensures !Job(c, cou).1 && Job(c, cou).0.counter == c.counter
  {
  }

  // ---- driving it from the CPU clock -------------------------------------------------

  /** T-states per timer tick: the CPU clock over the timer clock, in integers. */
  const TICK_TSTATES: nat := 114

  lemma {:induction false} TickIsClockRatio()
    ensures TICK_TSTATES == 3580000 / 31250
  {
  }

  datatype Clock = Clock(cpu: int, pit: int, timer: Pit)

  /** Called once per instruction: at most one tick, whatever the backlog. */
  function Poll(k: Clock): (Clock, bool) {
    if k.cpu - k.pit >= TICK_TSTATES then
      var (t, ret) := TickPit(k.timer);
      (Clock(k.cpu, k.pit + TICK_TSTATES, t), ret && t[2].out)
    else (k, false)
  }

  /** One instruction of so many T-states, then the poll. */
  function Turn(k: Clock, charge: nat): (Clock, bool) { Poll(k.(cpu := k.cpu + charge)) }

  function Turns(k: Clock, charges: seq<nat>): Clock
    decreases |charges|
  {
    if charges == [] then k else Turn(Turns(k, charges[..|charges| - 1]), charges[|charges| - 1]).0
  }

  function Sum(charges: seq<nat>): nat
    decreases |charges|
  {
    if charges == [] then 0 else Sum(charges[..|charges| - 1]) + charges[|charges| - 1]
  }

  /** The pulse a tick returns is the output the counter keeps. */
  lemma {:induction false} RaisedIsKept(p: Pit)
    ensures TickPit(p).1 ==> TickPit(p).0[2].out
  {
  }

  /**
   * The ticks of a run that starts with the given backlog: one at most per instruction, when
   * the time not ticked yet is a tick or more.
   */
  function TickCount(backlog: int, charges: seq<nat>): nat
    decreases |charges|
  {
    if charges == [] then 0
    else
      var t := TickCount(backlog, charges[..|charges| - 1]);
      if backlog + Sum(charges) - TICK_TSTATES * t >= TICK_TSTATES then t + 1 else t
  }

  /** No T-state is lost: what has not been ticked yet stands in the backlog, however long it grows. */
  lemma {:induction false} BacklogIsKept(k: Clock, charges: seq<nat>)
    ensures var t := TickCount(k.cpu - k.pit, charges);
            Turns(k, charges) == Clock(k.cpu + Sum(charges), k.pit + TICK_TSTATES * t, Ticks(k.timer, t))
    decreases |charges|
  {
    hide TickPit;
    if charges != [] { BacklogIsKept(k, charges[..|charges| - 1]); }
  }

  /**
   * Instructions no longer than a tick never let the timer fall behind: after any run of
   * them it has ticked once per 114 T-states, and the backlog is the remainder.
   */
  lemma {:induction false} TimerKeepsUp(k: Clock, charges: seq<nat>)
    requires 0 <= k.cpu - k.pit < 114
    requires forall i :: 0 <= i < |charges| ==> charges[i] <= 114
    ensures var total := k.cpu - k.pit + Sum(charges);
            var u := Turns(k, charges);
            && TickCount(k.cpu - k.pit, charges) == total / 114
            && u.timer == Ticks(k.timer, total / 114) && u.cpu - u.pit == total % 114
    decreases |charges|
  {
    hide TickPit, Turns, Ticks;
    BacklogIsKept(k, charges);
    if charges != [] { TimerKeepsUp(k, charges[..|charges| - 1]); }
  }

  /**
   * When the last instruction of a run raises the interrupt, for instructions of any length
   * and whatever backlog there was when the counters were loaded: exactly when it ticks the
   * timer, and the tick is due.
   */
  lemma {:induction false} InterruptLaw(k: Clock, charges: seq<nat>, n: nat, m: nat)
    requires charges != [] && FreshRate(k.timer[1], n) && FreshOneShot(k.timer[2], m)
    ensures var before := TickCount(k.cpu - k.pit, charges[..|charges| - 1]);
            var j := TickCount(k.cpu - k.pit, charges);
            Turn(Turns(k, charges[..|charges| - 1]), charges[|charges| - 1]).1 <==> j > before && Due(n, m, j)
  {
    hide TickPit, Due, Turns, Ticks;
    BacklogIsKept(k, charges[..|charges| - 1]);
    var before, j := TickCount(k.cpu - k.pit, charges[..|charges| - 1]), TickCount(k.cpu - k.pit, charges);
    if j > before {
      RaisedIsKept(Ticks(k.timer, j - 1));
      CascadeLaw(k.timer, n, m, j);
    }
  }

  // ---- the code, in place --------------------------------------------------------------

  class Timer {
    const stat: array<Counter>
    var datRl: nat
    var datSc: nat
    var datM: nat
    var datBcd: bool
    var cpuTstates: int
    var pitTstates: int
    var intFlag: bool

    ghost predicate Valid() { stat.Length == 3 }

    ghost function View(): Pit
      requires Valid()
      reads stat
    {
      stat[..]
    }

    constructor ()
      ensures Valid() && fresh(stat) && cpuTstates == pitTstates == 0 && !intFlag
    {
      stat := new Counter[3](_ => CLEARED);
      datRl, datSc, datM, datBcd := 0, 0, 0, false;
      cpuTstates, pitTstates, intFlag := 0, 0, false;
    }

    /** Start-up sets up counters 0 and 1 only; counter 2 keeps what it had. */
    method PitInit()
      requires Valid()
      modifies this, stat
      ensures forall i :: 0 <= i < 2 ==>
                stat[i] == old(stat[i]).(rl := 3, base := 0, counter := 0, lat := 0, out := false, latched := false)
      ensures stat[2] == old(stat[2])
    {
      var i := 0;
      while i < 2
        invariant 0 <= i <= 2
        invariant forall k :: 0 <= k < i ==>
                    stat[k] == old(stat[k]).(rl := 3, base := 0, counter := 0, lat := 0, out := false, latched := false)
        invariant forall k :: i <= k < 3 ==> stat[k] == old(stat[k])
      {
        stat[i] := stat[i].(rl := 3, base := 0, counter := 0, lat := 0, out := false, latched := false);
        i := i + 1;
      }
      datBcd, datM, datRl, datSc := false, 0, 3, 0;
    }

    /** Machine reset clears all three counters first, so counter 2 is left with no read/load mode. */
    method Reset()
      requires Valid()
      modifies this, stat
      ensures View() == [CLEARED.(rl := 3), CLEARED.(rl := 3), CLEARED]
    {
      var i := 0;
      while i < 3
        invariant 0 <= i <= 3 && forall k :: 0 <= k < i ==> stat[k] == CLEARED
      {
        stat[i] := CLEARED;
        i := i + 1;
      }
      PitInit();
    }

    method WriteControl(cw: Byte)
      requires Valid() && Selected(cw) < 3
      modifies this`datBcd, this`datM, this`datRl, this`datSc, stat
      ensures View() == Apply(old(View()), Control(cw))
    {
      datBcd := Bit(cw, 1);
      datM := cw / 2 % 8;
      datRl := cw / 0x10 % 4;
      datSc := cw / 0x40 % 4;
      stat[datSc] := stat[datSc].(out := false);
      if datRl == 0 {
        stat[datSc] := stat[datSc].(lat := stat[datSc].counter % 0x1_0000, latched := true);
        return;
      }
      stat[datSc] := stat[datSc].(second := false, latched := false, running := false);
      stat[datSc] := stat[datSc].(rl := datRl, bcd := datBcd, mode := datM);
    }

    method PitcountJob(no: Index, cou: nat) returns (out: bool)
      requires Valid()
      modifies stat
      ensures stat[no] == Job(old(stat[no]), cou).0 && out == Job(old(stat[no]), cou).1
      ensures forall k :: 0 <= k < 3 && k != no ==> stat[k] == old(stat[k])
    {
      out := false;
      if !stat[no].running {
        return false;
      }
      match stat[no].mode {
        case 0 =>
          if stat[no].counter <= 0 {
            out := true;
            stat[no] := stat[no].(counter := 0);
          } else {
            stat[no] := stat[no].(counter := stat[no].counter - cou);
          }
        case 2 =>
          stat[no] := stat[no].(counter := stat[no].counter - cou);
          if stat[no].counter <= 0 {
            stat[no] := stat[no].(counter := stat[no].base);
            out := true;
          }
        case 4 =>
          stat[no] := stat[no].(counter := stat[no].counter - cou);
          if stat[no].counter <= 0 {
            stat[no] := stat[no].(counter := -1);
            out := true;
          }
        case _ =>
      }
      stat[no] := stat[no].(out := out);
    }

    method PitCount() returns (ret: bool)
      requires Valid()
      modifies stat
      ensures View() == TickPit(old(View())).0 && ret == TickPit(old(View())).1
    {
      hide Job;
      ret := false;
      var pulse := PitcountJob(1, 1);
      if pulse {
        ret := PitcountJob(2, 1);
      }
    }

    /** A read of E004-E006. */
    method ReadCounter(i: Index) returns (val: int)
      requires Valid()
      modifies stat
      ensures View() == Apply(old(View()), Fetch(i)) && val == FetchByte(old(View())[i]).1
    {
      if stat[i].latched {
        match stat[i].rl {
          case 1 =>
            stat[i] := stat[i].(latched := false);
            return stat[i].lat % 0x100;
          case 2 =>
            stat[i] := stat[i].(latched := false);
            return stat[i].lat / 0x100;
          case 3 =>
            stat[i] := stat[i].(second := !stat[i].second);
            if stat[i].second {
              return stat[i].lat % 0x100;
            }
            stat[i] := stat[i].(latched := false);
            return stat[i].lat / 0x100;
          case _ => return 0x7F;
        }
      }
      match stat[i].rl {
        case 1 => return stat[i].counter % 0x100;
        case 2 => return stat[i].counter / 0x100;
        case 3 =>
          stat[i] := stat[i].(second := !stat[i].second);
          return if stat[i].second then stat[i].counter % 0x100 else stat[i].counter / 0x100;
        case _ => return 0xFF;
      }
    }

    method Reload(i: Index, base: Word16)
      requires Valid()
      modifies stat
      ensures View() == old(View())[i := Loaded(old(View())[i], base)]
    {
      stat[i] := stat[i].(base := base);
      if !stat[i].running || (stat[i].mode != 2 && stat[i].mode != 3) {
        stat[i] := stat[i].(counter := stat[i].base);
      }
    }

    /** A write of E004-E006. */
    method WriteCounter(i: Index, val: Byte)
      requires Valid()
      modifies stat
      ensures View() == Apply(old(View()), Store(i, val))
    {
      if stat[i].mode == 0 {
        stat[i] := stat[i].(out := false);
      }
      stat[i] := stat[i].(latched := false);
      match stat[i].rl {
        case 1 =>
          Reload(i, val);
          stat[i] := stat[i].(second := false, running := true);
        case 2 =>
          Reload(i, 0x100 * val);
          stat[i] := stat[i].(second := false, running := true);
        case 3 =>
          if stat[i].second {
            Reload(i, stat[i].base % 0x100 + 0x100 * val);
            stat[i] := stat[i].(running := true);
          } else {
            Reload(i, val);
          }
          stat[i] := stat[i].(second := !stat[i].second);
        case _ =>
      }
    }

    /** The per-instruction poll: at most one tick, and the interrupt line when it pulses. */
    method Interrupt() returns (raised: bool)
      requires Valid()
      modifies this`pitTstates, this`intFlag, stat
      ensures var (k, r) := Poll(Clock(cpuTstates, old(pitTstates), old(View())));
              k == Clock(cpuTstates, pitTstates, View()) && raised == r && intFlag == (old(intFlag) || r)
    {
      hide TickPit;
      raised := false;
      if cpuTstates - pitTstates >= TICK_TSTATES {
        pitTstates := pitTstates + TICK_TSTATES;
        var ret := PitCount();
        if ret {
          if stat[2].out {
            intFlag := true;
            raised := true;
          }
        }
      }
    }
  }
}
