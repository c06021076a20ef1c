/**
 * The Z80 block instructions.  A repeating instruction is one CPU step that moves PC back
 * onto itself, so what LDIR or CPIR means is a statement about a run of steps.
 */
module BlockInstructions {
  import opened Bytes
  import opened BitList
  import opened MemoryBanks

  /** S Z 5 H 3 V N C, the eight bits of F. */
  datatype Flags = Flags(s: bool, z: bool, b5: bool, h: bool, b3: bool, v: bool, n: bool, c: bool)

  datatype Cpu = Cpu(a: Byte, f: Flags, bc: Word16, de: Word16, hl: Word16, pc: Word16, r: nat, bus: Machine)

  /** 16-bit register arithmetic. */
  function Wrap(x: int): Word16 { x % 0x1_0000 }

  function Read(s: Cpu, x: Address): Byte
    requires Sized(s.bus) && Locate(s.bus.map', x) != Mmio
  {
    ReadByte(s.bus, x, 0)
  }

  // ---- one instruction ------------------------------------------------------------

  datatype Kind = Load | Compare

  /** dir is +1 or -1; repeat re-executes. */
  datatype Instruction = Instruction(kind: Kind, dir: int, repeating: bool)

  /** The eight ED opcodes of the two-by-four corner of the dispatch table. */
  function Decode(opcode: Byte): Option<Instruction> {
    match opcode
    case 0xA0 => Some(Instruction(Load, 1, false))
    case 0xA1 => Some(Instruction(Compare, 1, false))
    case 0xA8 => Some(Instruction(Load, -1, false))
    case 0xA9 => Some(Instruction(Compare, -1, false))
    case 0xB0 => Some(Instruction(Load, 1, true))
    case 0xB1 => Some(Instruction(Compare, 1, true))
    case 0xB8 => Some(Instruction(Load, -1, true))
    case 0xB9 => Some(Instruction(Compare, -1, true))
    case _ => None
  }

  /** The bytes under PC are this instruction, on pages that are not devices. */
  ghost predicate Fetches(s: Cpu, i: Instruction) {
    && Sized(s.bus)
    && Locate(s.bus.map', s.pc) != Mmio && Locate(s.bus.map', Wrap(s.pc + 1)) != Mmio
    && Read(s, s.pc) == 0xED && Decode(Read(s, Wrap(s.pc + 1))) == Some(i)
  }

  /** The instruction reads memory and not a device. */
  ghost predicate Ready(s: Cpu, i: Instruction) { Fetches(s, i) && Locate(s.bus.map', s.hl) != Mmio }

  /** LDI and LDD, PC not yet moved; io is what a device under HL answers. */
  function Move(s: Cpu, dir: int, io: Byte): Cpu
    requires Sized(s.bus)
  {
    var bc := Wrap(s.bc - 1);
    s.(bus := WriteByte(s.bus, s.de, ReadByte(s.bus, s.hl, io)), de := Wrap(s.de + dir), hl := Wrap(s.hl + dir),
       bc := bc, f := s.f.(h := false, n := false, v := bc != 0))
  }

  /** Bit 4 of the exclusive or of three bytes. */
  function HalfBit(x: Byte, y: Byte, z: Byte): bool {
    (Bit(x, 0x10) != Bit(y, 0x10)) != Bit(z, 0x10)
  }

  /** CPI and CPD. */
  function Search(s: Cpu, dir: int, io: Byte): Cpu
    requires Sized(s.bus)
  {
    var i := ReadByte(s.bus, s.hl, io);
    var j := (s.a - i) % 0x100;
    var bc := Wrap(s.bc - 1);
    s.(hl := Wrap(s.hl + dir), bc := bc,
       f := Flags(j >= 0x80, j == 0, false, HalfBit(s.a, i, j), false, bc != 0, true, s.f.c))
  }

  /** One turn of the execute loop on a block instruction, interrupts disabled. */
  function StepWith(s: Cpu, i: Instruction, io: Byte): Cpu
    requires Fetches(s, i)
  {
    var t := s.(r := s.r + 2, pc := Wrap(s.pc + 2));
    var u := if i.kind.Load? then Move(t, i.dir, io) else Search(t, i.dir, io);
    if i.repeating && u.bc != 0 && (i.kind.Compare? ==> !u.f.z) then u.(pc := Wrap(u.pc - 2)) else u
  }

  /** The same when no device answers. */
  function Step(s: Cpu, i: Instruction): Cpu
    requires Ready(s, i)
  {
    StepWith(s, i, 0)
  }

  ghost predicate CanRun(s: Cpu, i: Instruction, n: nat)
    decreases n
  {
    n == 0 || (Ready(s, i) && CanRun(Step(s, i), i, n - 1))
  }

  ghost function Run(s: Cpu, i: Instruction, n: nat): Cpu
    requires CanRun(s, i, n)
    decreases n
  {
    if n == 0 then s else Run(Step(s, i), i, n - 1)
  }

  /** How often BC lets a repeating instruction turn: zero counts as 65536. */
  function Turns(bc: Word16): (n: nat)
    ensures 1 <= n <= 0x1_0000
  {
    if bc == 0 then 0x1_0000 else bc
  }

  // ---- LDIR and LDDR ----------------------------------------------------------------

  /** n bytes copied one after the other, in the order of the addresses. */
  function Copy(m: Machine, src: int, dst: int, dir: int, n: nat): (m': Machine)
    requires Sized(m)
    ensures Sized(m') && m'.map' == m.map' && m'.rom == m.rom
    decreases n
  {
    if n == 0 then m
    else Copy(WriteByte(m, Wrap(dst), ReadByte(m, Wrap(src), 0)), src + dir, dst + dir, dir, n - 1)
  }

  /** The k-th address of a block. */
  function Nth(x: int, dir: int, k: int): Address { Wrap(x + dir * k) }

  /** The block of n addresses from x on, in direction dir, avoids the devices. */
  ghost predicate Plain(map': Map, x: int, dir: int, n: nat) {
    forall k :: 0 <= k < n ==> Locate(map', Nth(x, dir, k)) != Mmio
  }

  /** No store of the block changes the instruction: it is elsewhere or on a ROM page. */
  ghost predicate KeepsCode(map': Map, dst: int, dir: int, n: nat, pc: Word16) {
    forall k :: 0 <= k < n ==>
      Locate(map', Nth(dst, dir, k)).InRom? || (Nth(dst, dir, k) != pc && Nth(dst, dir, k) != Wrap(pc + 1))
  }

  /**
   * The source is memory; the destination may be anything.  Only the last store of the block
   * may hit the instruction: it is not fetched again.
   */
  ghost predicate BlockMoveReady(s: Cpu, i: Instruction) {
    && i.kind.Load? && i.repeating && Fetches(s, i)
    && Plain(s.bus.map', s.hl, i.dir, Turns(s.bc))
    && KeepsCode(s.bus.map', s.de, i.dir, Turns(s.bc) - 1, s.pc)
  }

  /** A store outside an address, or to ROM, does not change what is read there. */
  lemma {:induction false} StoreElsewhere(m: Machine, x: Address, y: Byte, at: Address)
    requires Sized(m) && Locate(m.map', at) != Mmio
    requires Locate(m.map', x).InRom? || x != at
    ensures ReadByte(WriteByte(m, x, y), at, 0) == ReadByte(m, at, 0)
  {
  }

  lemma {:induction false} Shift(map': Map, x: Word16, dir: int, n: nat)
    requires Plain(map', x, dir, n) && n > 0
    ensures Plain(map', Wrap(x + dir), dir, n - 1)
  {
    var y := Wrap(x + dir);
    forall k | 0 <= k < n - 1 ensures Locate(map', Nth(y, dir, k)) != Mmio {
      WrapStep(x, dir, k);
    }
  }

  lemma {:induction false} WrapStep(x: int, dir: int, k: int)
    ensures Nth(Wrap(x + dir), dir, k) == Nth(x + dir, dir, k) == Nth(x, dir, k + 1)
  {
    assert x + dir + dir * k == x + dir * (k + 1);
    WrapAdd(x + dir, dir * k);
  }

  lemma {:induction false} NthZero(x: Word16, dir: int)
    ensures Nth(x, dir, 0) == x == Wrap(x) && Nth(x, dir, 1) == Wrap(x + dir)
  {
  }

  lemma {:induction false} WrapAdd(x: int, y: int)
    ensures Wrap(Wrap(x) + y) == Wrap(x + y)
  {
  }

  /** What one repeating move does to the registers and to memory. */
  lemma {:induction false} MoveStep(s: Cpu, i: Instruction)
    requires Ready(s, i) && i.kind.Load? && i.repeating
    ensures var u := Step(s, i);
            && u.bus == WriteByte(s.bus, s.de, Read(s, s.hl))
            && u.bc == Wrap(s.bc - 1) && u.hl == Wrap(s.hl + i.dir) && u.de == Wrap(s.de + i.dir)
            && u.r == s.r + 2 && u.a == s.a && u.f == s.f.(h := false, n := false, v := u.bc != 0)
            && u.pc == if u.bc != 0 then s.pc else Wrap(s.pc + 2)
  {
    hide Decode, Locate, ReadByte, WriteByte;
  }

  /** A move of the block leaves the instruction bytes as they are. */
  lemma {:induction false} MoveKeepsCode(s: Cpu, i: Instruction, y: Byte)
    requires BlockMoveReady(s, i) && Turns(s.bc) > 1
    ensures Fetches(s.(bus := WriteByte(s.bus, s.de, y)), i)
  {
    hide Decode;
    NthZero(s.de, i.dir);
    StoreElsewhere(s.bus, s.de, y, s.pc);
    StoreElsewhere(s.bus, s.de, y, Wrap(s.pc + 1));
  }

  lemma {:induction false} CodeShift(map': Map, x: Word16, dir: int, n: nat, pc: Word16)
    requires KeepsCode(map', x, dir, n, pc) && n > 0
    ensures KeepsCode(map', Wrap(x + dir), dir, n - 1, pc)
  {
    hide Locate;
    var y := Wrap(x + dir);
    forall k | 0 <= k < n - 1
      ensures Locate(map', Nth(y, dir, k)).InRom? || (Nth(y, dir, k) != pc && Nth(y, dir, k) != Wrap(pc + 1))
    {
      WrapStep(x, dir, k);
    }
  }

  lemma {:induction false} TurnsDown(bc: Word16)
    ensures Turns(bc) == 1 ==> Wrap(bc - 1) == 0
    ensures Turns(bc) > 1 ==> Wrap(bc - 1) != 0 && Turns(Wrap(bc - 1)) == Turns(bc) - 1
  {
  }

  /** Fetching looks at PC and memory only. */
  lemma {:induction false} FetchesAgain(s: Cpu, u: Cpu, i: Instruction)
    requires Fetches(s, i) && u.bus == s.bus && u.pc == s.pc
    ensures Fetches(u, i)
  {
  }

  /** One turn keeps the instruction running while BC lasts. */
  lemma {:induction false} MoveTurn(s: Cpu, i: Instruction)
    requires BlockMoveReady(s, i)
    ensures Ready(s, i)
    ensures var u := Step(s, i);
            && (Turns(s.bc) == 1 ==> u.bc == 0)
            && (Turns(s.bc) > 1 ==> u.bc != 0 && Turns(u.bc) == Turns(s.bc) - 1 && BlockMoveReady(u, i))
  {
    hide Locate, Decode, Step;
    var n := Turns(s.bc);
    NthZero(s.hl, i.dir);
    NthZero(s.de, i.dir);
    assert Ready(s, i);
    MoveStep(s, i);
    TurnsDown(s.bc);
    hide Plain, KeepsCode, Nth, Read, ReadByte, WriteByte, Wrap, Turns, Fetches;
    if n > 1 {
      MoveKeepsCode(s, i, Read(s, s.hl));
      FetchesAgain(s.(bus := WriteByte(s.bus, s.de, Read(s, s.hl))), Step(s, i), i);
      Shift(s.bus.map', s.hl, i.dir, n);
      CodeShift(s.bus.map', s.de, i.dir, n - 1, s.pc);
    }
  }

  /** The instruction is fetched again and again, PC back on it, until BC runs out. */
  lemma {:induction false} BlockMoveLoops(s: Cpu, i: Instruction, k: nat)
    requires BlockMoveReady(s, i) && k < Turns(s.bc)
    ensures CanRun(s, i, k) && Run(s, i, k).pc == s.pc && Ready(Run(s, i, k), i)
    decreases k
  {
    hide Step, Fetches, Plain, KeepsCode, Ready;
    MoveTurn(s, i);
    MoveStep(s, i);
    if k > 0 { BlockMoveLoops(Step(s, i), i, k - 1); }
  }

  /**
   * A whole LDIR (dir 1) or LDDR (dir -1): after exactly Turns(bc) steps PC is past the
   * instruction, memory is the byte-by-byte copy, BC is zero, HL and DE are past the block.
   */
  lemma {:induction false} BlockMoveRun(s: Cpu, i: Instruction)
    requires BlockMoveReady(s, i)
    ensures CanRun(s, i, Turns(s.bc))
    ensures var n := Turns(s.bc);
            Run(s, i, n) == s.(
              bus := Copy(s.bus, s.hl, s.de, i.dir, n), bc := 0, hl := Nth(s.hl, i.dir, n), de := Nth(s.de, i.dir, n),
              pc := Wrap(s.pc + 2), r := s.r + 2 * n, f := s.f.(h := false, n := false, v := false))
    decreases Turns(s.bc)
  {
    hide Step, Fetches, Plain, KeepsCode, WriteByte, ReadByte, Ready, Wrap, Nth;
    var n := Turns(s.bc);
    NthZero(s.hl, i.dir);
    NthZero(s.de, i.dir);
    MoveTurn(s, i);
    MoveStep(s, i);
    var u := Step(s, i);
    if n == 1 {
      assert Copy(u.bus, s.hl + i.dir, s.de + i.dir, i.dir, 0) == u.bus;
    } else {
      BlockMoveRun(u, i);
      CopyWraps(u.bus, s.hl + i.dir, s.de + i.dir, i.dir, n - 1);
      WrapStep(s.hl, i.dir, n - 1);
      WrapStep(s.de, i.dir, n - 1);
    }
  }

  lemma {:induction false} CopyWraps(m: Machine, src: int, dst: int, dir: int, n: nat)
    requires Sized(m)
    ensures Copy(m, Wrap(src), Wrap(dst), dir, n) == Copy(m, src, dst, dir, n)
    decreases n
  {
    hide WriteByte, ReadByte;
    if n > 0 {
      var w := WriteByte(m, Wrap(dst), ReadByte(m, Wrap(src), 0));
      CopyWraps(w, src + dir, dst + dir, dir, n - 1);
      CopyWraps(w, Wrap(src) + dir, Wrap(dst) + dir, dir, n - 1);
      WrapAdd(src, dir);
      WrapAdd(dst, dir);
    }
  }

  // ---- what a copy leaves in memory ------------------------------------------------

  predicate Direction(dir: int) { dir == 1 || dir == -1 }

  lemma {:induction false} CopyLast(m: Machine, src: int, dst: int, dir: int, n: nat)
    requires Sized(m) && n > 0
    ensures var c := Copy(m, src, dst, dir, n - 1);
            Copy(m, src, dst, dir, n) == WriteByte(c, Nth(dst, dir, n - 1), ReadByte(c, Nth(src, dir, n - 1), 0))
    decreases n
  {
    hide WriteByte, ReadByte;
    if n > 1 {
      CopyLast(WriteByte(m, Wrap(dst), ReadByte(m, Wrap(src), 0)), src + dir, dst + dir, dir, n - 1);
      WrapStep(src, dir, n - 2);
      WrapStep(dst, dir, n - 2);
    }
  }

  /** Blocks of up to 65536 bytes do not bite their own tail. */
  lemma {:induction false} NthDistinct(x: int, dir: int, j: int, k: int)
    requires Direction(dir) && j != k && -0x1_0000 < j - k < 0x1_0000
    ensures Nth(x, dir, j) != Nth(x, dir, k)
  {
    if dir == 1 { assert dir * j == j && dir * k == k; } else { assert dir * j == -j && dir * k == -k; }
  }

  /** How far the destination runs ahead of the source, in the direction of the copy. */
  function Lead(src: int, dst: int, dir: int): Word16 { Wrap((dst - src) * dir) }

  /** The source of turn k is the destination of turn k - lead. */
  lemma {:induction false} SourceIsDestination(src: int, dst: int, dir: int, k: int)
    requires Direction(dir)
    ensures Nth(src, dir, k) == Nth(dst, dir, k - Lead(src, dst, dir))
  {
    if dir == 1 {
      assert dir * k == k && dir * (k - Lead(src, dst, dir)) == k - Lead(src, dst, dir);
    } else {
      assert dir * k == -k && dir * (k - Lead(src, dst, dir)) == Lead(src, dst, dir) - k;
    }
  }

  /** Addresses outside the destination block keep their bytes. */
  lemma {:induction false} CopyOutside(m: Machine, src: int, dst: int, dir: int, n: nat, x: Address)
    requires Sized(m) && Locate(m.map', x) != Mmio
    requires forall k :: 0 <= k < n ==> Locate(m.map', Nth(dst, dir, k)).InRom? || Nth(dst, dir, k) != x
    ensures ReadByte(Copy(m, src, dst, dir, n), x, 0) == ReadByte(m, x, 0)
    decreases n
  {
    hide Nth;
    if n > 0 {
      CopyLast(m, src, dst, dir, n);
      CopyOutside(m, src, dst, dir, n - 1, x);
      var c := Copy(m, src, dst, dir, n - 1);
      StoreElsewhere(c, Nth(dst, dir, n - 1), ReadByte(c, Nth(src, dir, n - 1), 0), x);
    }
  }

  /**
   * Which source byte ends up at destination i.  A copy that runs into its own output repeats
   * the byte written `lead` turns ago, unless that store went to ROM and was dropped.
   */
  function Origin(map': Map, dst: int, dir: int, lead: nat, i: nat): (k: nat)
    ensures k <= i
    decreases i
  {
    if lead == 0 || i < lead || Locate(map', Nth(dst, dir, i - lead)).InRom? then i
    else Origin(map', dst, dir, lead, i - lead)
  }

  /** Clear of ROM, an overlapping copy repeats its first `lead` bytes. */
  lemma {:induction false} OriginRepeats(map': Map, dst: int, dir: int, lead: nat, i: nat)
    requires forall k :: 0 <= k < i ==> !Locate(map', Nth(dst, dir, k)).InRom?
    ensures Origin(map', dst, dir, lead, i) == if lead == 0 then i else i % lead
    decreases i
  {
    hide Locate, Nth;
    if 0 < lead <= i {
      OriginRepeats(map', dst, dir, lead, i - lead);
      ModuloStep(i, lead);
    }
  }

  /**
   * The closed form of a copy, overlapping or not and across ROM pages or not: a destination
   * byte that is RAM or VRAM holds the old source byte of its origin.
   */
  lemma {:induction false} CopyMeaning(m: Machine, src: int, dst: int, dir: int, n: nat, i: nat)
    requires Sized(m) && Direction(dir) && i < n <= 0x1_0000
    requires Plain(m.map', src, dir, n)
    requires !Locate(m.map', Nth(dst, dir, i)).InRom? && Locate(m.map', Nth(dst, dir, i)) != Mmio
    ensures ReadByte(Copy(m, src, dst, dir, n), Nth(dst, dir, i), 0)
            == ReadByte(m, Nth(src, dir, Origin(m.map', dst, dir, Lead(src, dst, dir), i)), 0)
    decreases n
  {
    hide Nth, Origin, Lead;
    var c := Copy(m, src, dst, dir, n - 1);
    CopyLast(m, src, dst, dir, n);
    if i < n - 1 {
      CopyMeaning(m, src, dst, dir, n - 1, i);
      NthDistinct(dst, dir, i, n - 1);
      StoreElsewhere(c, Nth(dst, dir, n - 1), ReadByte(c, Nth(src, dir, n - 1), 0), Nth(dst, dir, i));
    } else {
      LastSource(m, src, dst, dir, n);
    }
  }

  /** What the last turn reads: a byte copied `lead` turns ago, or one not yet overwritten. */
  lemma {:induction false} LastSource(m: Machine, src: int, dst: int, dir: int, n: nat)
    requires Sized(m) && Direction(dir) && 0 < n <= 0x1_0000
    requires Plain(m.map', src, dir, n)
    ensures ReadByte(Copy(m, src, dst, dir, n - 1), Nth(src, dir, n - 1), 0)
            == ReadByte(m, Nth(src, dir, Origin(m.map', dst, dir, Lead(src, dst, dir), n - 1)), 0)
    decreases n, 0
  {
    hide Nth, Lead, Locate, ReadByte;
    var lead := Lead(src, dst, dir);
    SourceIsDestination(src, dst, dir, n - 1);
    if 0 < lead <= n - 1 {
      if Locate(m.map', Nth(dst, dir, n - 1 - lead)).InRom? {
        CopyOutside(m, src, dst, dir, n - 1, Nth(src, dir, n - 1));
      } else {
        CopyMeaning(m, src, dst, dir, n - 1, n - 1 - lead);
      }
    } else {
      forall k | 0 <= k < n - 1 ensures Nth(dst, dir, k) != Nth(src, dir, n - 1) {
        NthDistinct(dst, dir, k, n - 1 - lead);
      }
      CopyOutside(m, src, dst, dir, n - 1, Nth(src, dir, n - 1));
    }
  }

  lemma {:induction false} ModuloStep(a: nat, d: nat)
    requires 0 < d <= a
    ensures (a - d) % d == a % d
  {
    var q, r := a / d, a % d;
    assert a == q * d + r;
    MultipleIsFar(q, d);
    assert (q - 1) * d == q * d - d;
    QuotientUnique(a - d, d, q - 1, r);
  }

  // ---- CPIR and CPDR -----------------------------------------------------------------

  /** The first of n bytes from x on that equals a; n when none does. */
  function FirstMatch(m: Machine, x: int, dir: int, n: nat, a: Byte): (k: nat)
    requires Sized(m)
    ensures k <= n
    ensures forall j :: 0 <= j < k ==> ReadByte(m, Nth(x, dir, j), 0) != a
    ensures k < n ==> ReadByte(m, Nth(x, dir, k), 0) == a
    decreases n
  {
    if n == 0 then 0
    else
      var k := FirstMatch(m, x, dir, n - 1, a);
      if k < n - 1 then k
      else if ReadByte(m, Nth(x, dir, n - 1), 0) == a then n - 1 else n
  }

  /** FirstMatch is the only number its contract allows. */
  lemma {:induction false} FirstMatchUnique(m: Machine, x: int, dir: int, n: nat, a: Byte, k: nat)
    requires Sized(m) && k <= n
    requires forall j :: 0 <= j < k ==> ReadByte(m, Nth(x, dir, j), 0) != a
    requires k < n ==> ReadByte(m, Nth(x, dir, k), 0) == a
    ensures FirstMatch(m, x, dir, n, a) == k
  {
    hide ReadByte, Nth, FirstMatch;
    var f := FirstMatch(m, x, dir, n, a);
    assert f < n ==> ReadByte(m, Nth(x, dir, f), 0) == a;
  }

  lemma {:induction false} FirstMatchStep(m: Machine, x: Word16, dir: int, n: nat, a: Byte)
    requires Sized(m) && n > 0
    ensures ReadByte(m, x, 0) == a ==> FirstMatch(m, x, dir, n, a) == 0
    ensures ReadByte(m, x, 0) != a ==> FirstMatch(m, x, dir, n, a) == FirstMatch(m, Wrap(x + dir), dir, n - 1, a) + 1
  {
    hide ReadByte, FirstMatch;
    NthZero(x, dir);
    if ReadByte(m, x, 0) == a {
      FirstMatchUnique(m, x, dir, n, a, 0);
    } else {
      var y := Wrap(x + dir);
      var k := FirstMatch(m, y, dir, n - 1, a);
      forall j | 0 <= j < k + 1 ensures ReadByte(m, Nth(x, dir, j), 0) != a {
        if j > 0 { WrapStep(x, dir, j - 1); assert ReadByte(m, Nth(y, dir, j - 1), 0) != a; }
      }
      WrapStep(x, dir, k);
      FirstMatchUnique(m, x, dir, n, a, k + 1);
    }
  }

  /** How many turns a repeating search takes. */
  ghost function SearchTurns(s: Cpu, i: Instruction): (n: nat)
    requires Sized(s.bus)
    ensures 1 <= n <= Turns(s.bc)
  {
    var k := FirstMatch(s.bus, s.hl, i.dir, Turns(s.bc), s.a);
    if k < Turns(s.bc) then k + 1 else k
  }

  /** The bytes the search looks at, and no others, must be memory. */
  ghost predicate BlockSearchReady(s: Cpu, i: Instruction) {
    && i.kind.Compare? && i.repeating && Fetches(s, i)
    && Sized(s.bus) && Plain(s.bus.map', s.hl, i.dir, SearchTurns(s, i))
  }

  lemma {:induction false} SearchLooksAtMemory(s: Cpu, i: Instruction)
    requires BlockSearchReady(s, i)
    ensures Ready(s, i) && Locate(s.bus.map', s.hl) != Mmio
  {
    hide Fetches, SearchTurns;
    NthZero(s.hl, i.dir);
    assert SearchTurns(s, i) >= 1 && Locate(s.bus.map', Nth(s.hl, i.dir, 0)) != Mmio;
  }

  /** One turn of a repeating search. */
  lemma {:induction false} SearchStep(s: Cpu, i: Instruction)
    requires Ready(s, i) && i.kind.Compare? && i.repeating
    ensures var u := Step(s, i);
            && u.bus == s.bus && u.a == s.a && u.de == s.de && u.r == s.r + 2
            && u.bc == Wrap(s.bc - 1) && u.hl == Wrap(s.hl + i.dir)
            && u.f.z == (Read(s, s.hl) == s.a) && u.f.v == (u.bc != 0) && u.f.n && u.f.c == s.f.c
            && u.pc == if u.bc != 0 && !u.f.z then s.pc else Wrap(s.pc + 2)
  {
    hide Decode, ReadByte, HalfBit, Locate;
  }

  lemma {:induction false} SearchGoesOn(s: Cpu, i: Instruction)
    requires BlockSearchReady(s, i) && Ready(s, i) && Turns(s.bc) > 1 && Read(s, s.hl) != s.a
    ensures BlockSearchReady(Step(s, i), i) && Turns(Step(s, i).bc) == Turns(s.bc) - 1
    ensures SearchTurns(s, i) == SearchTurns(Step(s, i), i) + 1
  {
    hide Step, Locate, Decode, FirstMatch, Nth, ReadByte, Plain;
    SearchStep(s, i);
    FirstMatchStep(s.bus, s.hl, i.dir, Turns(s.bc), s.a);
    Shift(s.bus.map', s.hl, i.dir, SearchTurns(s, i));
  }

  lemma {:induction false} SearchStops(s: Cpu, i: Instruction)
    requires Ready(s, i) && (Turns(s.bc) == 1 || Read(s, s.hl) == s.a)
    ensures SearchTurns(s, i) == 1
    ensures FirstMatch(s.bus, s.hl, i.dir, Turns(s.bc), s.a) < Turns(s.bc) <==> Read(s, s.hl) == s.a
  {
    hide Step, Locate, Decode, FirstMatch;
    FirstMatchStep(s.bus, s.hl, i.dir, Turns(s.bc), s.a);
  }

  /**
   * A whole CPIR (dir 1) or CPDR (dir -1): it stops on the first byte, in wrap-around
   * order, that equals A, or when BC runs out.  Z tells which, HL is one past the last
   * byte looked at, V is set exactly when BC is not yet zero, and memory is untouched.
   */
  lemma {:induction false} BlockSearchRun(s: Cpu, i: Instruction)
    requires BlockSearchReady(s, i)
    ensures CanRun(s, i, SearchTurns(s, i))
    ensures var n := SearchTurns(s, i);
            var u := Run(s, i, n);
            && u.pc == Wrap(s.pc + 2) && u.hl == Nth(s.hl, i.dir, n) && u.bc == Wrap(s.bc - n)
            && (u.f.z <==> FirstMatch(s.bus, s.hl, i.dir, Turns(s.bc), s.a) < Turns(s.bc))
            && (u.f.v <==> u.bc != 0) && u.f.n && u.f.c == s.f.c
            && u.bus == s.bus && u.a == s.a && u.de == s.de && u.r == s.r + 2 * n
    decreases Turns(s.bc)
  {
    hide Step, Fetches, Plain, Ready, Nth, FirstMatch, SearchTurns, ReadByte;
    SearchLooksAtMemory(s, i);
    SearchStep(s, i);
    var u := Step(s, i);
    if Turns(s.bc) > 1 && Read(s, s.hl) != s.a {
      SearchGoesOn(s, i);
      BlockSearchRun(u, i);
      FirstMatchStep(s.bus, s.hl, i.dir, Turns(s.bc), s.a);
      WrapStep(s.hl, i.dir, SearchTurns(u, i));
      var rest: int := SearchTurns(u, i);
      WrapAdd(s.bc - 1, 0 - rest);
    } else {
      SearchStops(s, i);
      NthZero(s.hl, i.dir);
      assert CanRun(u, i, 0);
    }
  }

  /** Until the last turn PC stays on the instruction. */
  lemma {:induction false} BlockSearchLoops(s: Cpu, i: Instruction, k: nat)
    requires BlockSearchReady(s, i) && k < SearchTurns(s, i)
    ensures CanRun(s, i, k) && Run(s, i, k).pc == s.pc
    decreases k
  {
    hide Step, Fetches, Plain, Ready, FirstMatch, ReadByte;
    SearchLooksAtMemory(s, i);
    SearchStep(s, i);
    if k > 0 {
      if Turns(s.bc) == 1 || Read(s, s.hl) == s.a {
        SearchStops(s, i);
      } else {
        SearchGoesOn(s, i);
        BlockSearchLoops(Step(s, i), i, k - 1);
      }
    }
  }

  /** The H flag of a search is the borrow out of the low nibble. */
  lemma {:induction false} HalfBorrow(a: Byte, i: Byte)
    ensures HalfBit(a, i, (a - i) % 0x100) <==> a % 0x10 < i % 0x10
  {
    var borrow := if a % 0x10 < i % 0x10 then 1 else 0;
    HighNibble(a / 0x10, a % 0x10, i / 0x10, i % 0x10, borrow);
    Parity(a / 0x10, i / 0x10, borrow);
  }

  lemma {:induction false} HighNibble(ah: int, al: int, ih: int, il: int, borrow: int)
    requires 0 <= ah < 16 && 0 <= al < 16 && 0 <= ih < 16 && 0 <= il < 16
    requires borrow == if al < il then 1 else 0
    ensures (0x10 * ah + al - (0x10 * ih + il)) % 0x100 / 0x10 == (ah - ih - borrow) % 0x10
  {
    var h, l := ah - ih - borrow, al - il + 0x10 * borrow;
    if h >= 0 {
      assert (0x10 * h + l) % 0x100 == 0x10 * h + l;
    } else {
      assert (0x10 * h + l) % 0x100 == 0x10 * (h + 0x10) + l;
    }
  }

  lemma {:induction false} Parity(x: int, y: int, b: int)
    requires b == 0 || b == 1
    ensures ((x % 2 == 1) != (y % 2 == 1)) != ((x - y - b) % 0x10 % 2 == 1) <==> b == 1
  {
    assert (x - y - b) % 0x10 % 2 == (x - y - b) % 2;
  }

  /**
   * LDIR and LDDR in one statement: every byte the CPU can see afterwards, from memory
   * before.  A destination holds the byte of its origin; ROM and the rest are as they were.
   */
  lemma {:induction false} BlockMoveMeaning(s: Cpu, i: Instruction, x: Address)
    requires BlockMoveReady(s, i) && Locate(s.bus.map', x) != Mmio
    ensures var n := Turns(s.bc);
            && CanRun(s, i, n) && Sized(Run(s, i, n).bus)
            && (forall k :: 0 <= k < n && x == Nth(s.de, i.dir, k) && !Locate(s.bus.map', x).InRom? ==>
                  ReadByte(Run(s, i, n).bus, x, 0)
                  == ReadByte(s.bus, Nth(s.hl, i.dir, Origin(s.bus.map', s.de, i.dir, Lead(s.hl, s.de, i.dir), k)), 0))
            && (Locate(s.bus.map', x).InRom? || (forall k :: 0 <= k < n ==> x != Nth(s.de, i.dir, k)) ==>
                  ReadByte(Run(s, i, n).bus, x, 0) == ReadByte(s.bus, x, 0))
  {
    hide ReadByte, Nth, Origin, Lead, Plain, KeepsCode, Locate;
    var n := Turns(s.bc);
    BlockMoveRun(s, i);
    forall k | 0 <= k < n && x == Nth(s.de, i.dir, k) && !Locate(s.bus.map', x).InRom?
      ensures ReadByte(Copy(s.bus, s.hl, s.de, i.dir, n), x, 0)
              == ReadByte(s.bus, Nth(s.hl, i.dir, Origin(s.bus.map', s.de, i.dir, Lead(s.hl, s.de, i.dir), k)), 0)
    {
      CopyMeaning(s.bus, s.hl, s.de, i.dir, n, k);
    }
    if Locate(s.bus.map', x).InRom? || forall k :: 0 <= k < n ==> x != Nth(s.de, i.dir, k) {
      CopyOutside(s.bus, s.hl, s.de, i.dir, n, x);
    }
  }

  // ---- the instructions by their bytes -----------------------------------------------------

  /** Bit 3 of the opcode is the direction, bit 4 repeats, bit 0 compares; no other opcode is one. */
  lemma {:induction false} OpcodeBits(op: Byte)
    ensures Decode(op).Some? <==> op in {0xA0, 0xA1, 0xA8, 0xA9, 0xB0, 0xB1, 0xB8, 0xB9}
    ensures Decode(op).Some? ==>
              var i := Decode(op).value;
              && i.dir == (if op / 8 % 2 == 1 then -1 else 1)
              && (i.repeating <==> op / 0x10 % 2 == 1) && (i.kind.Compare? <==> op % 2 == 1)
  {
  }

  /** The two bytes under PC, on memory. */
  ghost predicate CodeIs(s: Cpu, first: Byte, second: Byte) {
    && Sized(s.bus) && Locate(s.bus.map', s.pc) != Mmio && Locate(s.bus.map', Wrap(s.pc + 1)) != Mmio
    && Read(s, s.pc) == first && Read(s, Wrap(s.pc + 1)) == second
  }

  /** What is left when a block move has run: the copy, BC 0, and PC behind the two bytes. */
  ghost predicate Moved(s: Cpu, u: Cpu, dir: int) {
    var n := Turns(s.bc);
    && Sized(s.bus) && u.bus == Copy(s.bus, s.hl, s.de, dir, n)
    && u.hl == (s.hl + dir * n) % 0x1_0000 && u.de == (s.de + dir * n) % 0x1_0000
    && u.bc == 0 && u.pc == (s.pc + 2) % 0x1_0000 && u.a == s.a && !u.f.v && !u.f.h && !u.f.n
    && u.f.s == s.f.s && u.f.z == s.f.z && u.f.c == s.f.c && u.f.b5 == s.f.b5 && u.f.b3 == s.f.b3
  }

  /** ED B0 is LDIR, going up; ED B8 is LDDR, going down. */
  lemma {:induction false} RunMoveBytes(s: Cpu, op: Byte, i: Instruction)
    requires op == 0xB0 || op == 0xB8
    requires i == Instruction(Load, if op == 0xB0 then 1 else -1, true)
    requires CodeIs(s, 0xED, op) && Plain(s.bus.map', s.hl, i.dir, Turns(s.bc))
    requires KeepsCode(s.bus.map', s.de, i.dir, Turns(s.bc) - 1, s.pc)
    ensures BlockMoveReady(s, i) && CanRun(s, i, Turns(s.bc)) && Moved(s, Run(s, i, Turns(s.bc)), i.dir)
  {
    hide Locate, Plain, KeepsCode, ReadByte, Copy, Run, CanRun;
    BlockMoveRun(s, i);
  }

  /** What is left when a block search has run for n turns. */
  ghost predicate Searched(s: Cpu, u: Cpu, dir: int, n: nat) {
    && 1 <= n <= Turns(s.bc) && Sized(s.bus)
    && (forall k :: 0 <= k < n - 1 ==> ReadByte(s.bus, Nth(s.hl, dir, k), 0) != s.a)
    && (u.f.z <==> ReadByte(s.bus, Nth(s.hl, dir, n - 1), 0) == s.a) && (!u.f.z ==> n == Turns(s.bc))
    && u.hl == (s.hl + dir * n) % 0x1_0000 && u.bc == (s.bc - n) % 0x1_0000
    && u.pc == (s.pc + 2) % 0x1_0000 && u.bus == s.bus && u.a == s.a && u.de == s.de
    && (u.f.v <==> u.bc != 0) && u.f.n && u.f.c == s.f.c
  }

  /** Where a search stops: on the first byte equal to A, or after the last. */
  lemma {:induction false} SearchStopsAt(s: Cpu, i: Instruction)
    requires Sized(s.bus)
    ensures var n := SearchTurns(s, i);
            && (forall k :: 0 <= k < n - 1 ==> ReadByte(s.bus, Nth(s.hl, i.dir, k), 0) != s.a)
            && (FirstMatch(s.bus, s.hl, i.dir, Turns(s.bc), s.a) < Turns(s.bc)
                <==> ReadByte(s.bus, Nth(s.hl, i.dir, n - 1), 0) == s.a)
            && (ReadByte(s.bus, Nth(s.hl, i.dir, n - 1), 0) != s.a ==> n == Turns(s.bc))
  {
    hide ReadByte, Nth, FirstMatch, Turns;
  }

  lemma {:induction false} SearchedRun(s: Cpu, i: Instruction)
    requires BlockSearchReady(s, i)
    ensures CanRun(s, i, SearchTurns(s, i)) && Searched(s, Run(s, i, SearchTurns(s, i)), i.dir, SearchTurns(s, i))
  {
    hide ReadByte, FirstMatch, SearchTurns, Run, CanRun, Fetches, Plain, Turns;
    BlockSearchRun(s, i);
    SearchStopsAt(s, i);
  }

  /** ED B1 is CPIR, going up; ED B9 is CPDR, going down. */
  lemma {:induction false} RunSearchBytes(s: Cpu, op: Byte, i: Instruction)
    requires op == 0xB1 || op == 0xB9
    requires i == Instruction(Compare, if op == 0xB1 then 1 else -1, true)
    requires CodeIs(s, 0xED, op) && Plain(s.bus.map', s.hl, i.dir, SearchTurns(s, i))
    ensures BlockSearchReady(s, i) && CanRun(s, i, SearchTurns(s, i))
    ensures Searched(s, Run(s, i, SearchTurns(s, i)), i.dir, SearchTurns(s, i))
  {
    hide Locate, Plain, ReadByte, FirstMatch, SearchTurns, Searched, Run, CanRun;
    SearchedRun(s, i);
  }

  /** The sign and half-carry flags are those of the last comparison. */
  lemma {:induction false} SearchFlags(s: Cpu, dir: int, io: Byte)
    requires Sized(s.bus)
    ensures var y := ReadByte(s.bus, s.hl, io);
            var f := Search(s, dir, io).f;
            && (f.s <==> (s.a - y) % 0x100 >= 0x80) && (f.h <==> s.a % 0x10 < y % 0x10) && !f.b5 && !f.b3
  {
    HalfBorrow(s.a, ReadByte(s.bus, s.hl, io));
  }

  /** ED A0, A1, A8 and A9 are LDI, CPI, LDD and CPD: one turn, and PC goes on whatever is left. */
  lemma {:induction false} SingleBytes(s: Cpu, op: Byte, io: Byte)
    requires op in {0xA0, 0xA1, 0xA8, 0xA9} && CodeIs(s, 0xED, op)
    ensures var dir := if op < 0xA8 then 1 else -1;
            var i := Instruction(if op % 2 == 0 then Load else Compare, dir, false);
            && Fetches(s, i)
            && var u, y := StepWith(s, i, io), ReadByte(s.bus, s.hl, io);
               && u.pc == (s.pc + 2) % 0x1_0000 && u.hl == (s.hl + dir) % 0x1_0000 && u.bc == (s.bc - 1) % 0x1_0000
               && (u.f.v <==> u.bc != 0) && u.a == s.a
               && (op % 2 == 0 ==> u.bus == WriteByte(s.bus, s.de, y) && u.de == (s.de + dir) % 0x1_0000 && !u.f.n)
               && (op % 2 == 1 ==> u.bus == s.bus && u.de == s.de && u.f.n && (u.f.z <==> y == s.a))
  {
    hide Locate, ReadByte, WriteByte, HalfBit;
  }
}
