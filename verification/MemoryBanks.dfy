/**
 * Banked memory.  Machine is the simple picture: two switches and three blocks.  Memory is
 * the code: a bank table, its cached translation into pointers, and one flat allocation.
 */
module MemoryBanks {
  import opened Bytes

  const PAGE: nat := 0x800
  const ROM_BYTES: nat := 0x2800
  const VRAM_BYTES: nat := 0x1000
  const RAM_BYTES: nat := 0x1_0000
  const ROM_START: nat := 0
  const ROM2_START: nat := 0x1000
  const VID_START: nat := 0x2800
  const RAM_START: nat := 0x3800
  const MEM_BYTES: nat := 0x1_3800

  type Address = Word16

  // ---- the simple picture ------------------------------------------------------

  /** Which of the two switchable regions shows RAM. */
  datatype Map = Map(lowRam: bool, highRam: bool)

  datatype Place = InRom(at: nat) | InRam(at: nat) | InVram(at: nat) | Mmio

  function Locate(map': Map, x: Address): Place {
    if x < 0x1000 then if map'.lowRam then InRam(x) else InRom(x)
    else if x < 0xD000 || map'.highRam then InRam(x)
    else if x < 0xE000 then InVram(x - 0xD000)
    else Mmio
  }

  datatype Machine = Machine(map': Map, rom: seq<Byte>, vram: seq<Byte>, ram: seq<Byte>)

  predicate Sized(m: Machine) {
    |m.rom| == ROM_BYTES && |m.vram| == VRAM_BYTES && |m.ram| == RAM_BYTES
  }

  /** What the CPU reads; io is what the device answers on a memory-mapped address. */
  function ReadByte(m: Machine, x: Address, io: Byte): Byte
    requires Sized(m)
  {
    match Locate(m.map', x)
    case InRom(a) => m.rom[a]
    case InRam(a) => m.ram[a]
    case InVram(a) => m.vram[a]
    case Mmio => io
  }

  /** ROM and device addresses leave memory alone. */
  function WriteByte(m: Machine, x: Address, y: Byte): (m': Machine)
    requires Sized(m)
    ensures Sized(m') && m'.map' == m.map'
  {
    match Locate(m.map', x)
    case InRam(a) => m.(ram := m.ram[a := y])
    case InVram(a) => m.(vram := m.vram[a := y])
    case _ => m
  }

  /** E0/E1 show RAM low/high, E2/E3 hide it, E4 hides both. */
  function Switch(map': Map, port: Byte): Map {
    match port
    case 0xE0 => map'.(lowRam := true)
    case 0xE1 => map'.(highRam := true)
    case 0xE2 => map'.(lowRam := false)
    case 0xE3 => map'.(highRam := false)
    case 0xE4 => Map(false, false)
    case _ => map'
  }

  // ---- the bank table and its translation --------------------------------------

  datatype Base = Rom1 | Rom2 | Ram | Vram | Dummy | Font | Pcg

  datatype Bank = Bank(ofs: Word16, base: Base, attr: Byte)

  datatype Pointer = Mem(at: nat) | Junk(at: nat) | FontRom(at: nat)

  function AttrOf(base: Base): Byte {
    match base case Ram => 1 case Vram => 5 case Dummy => 2 case _ => 0
  }

  function PointerOf(base: Base, ofs: Word16): Pointer {
    match base
    case Rom1 => Mem(ROM_START + ofs)
    case Rom2 => Mem(ROM2_START + ofs)
    case Ram => Mem(RAM_START + ofs)
    case Vram => Mem(VID_START + ofs)
    case Font => FontRom(ofs)
    case _ => Junk(ofs)
  }

  /** The bank of page i under a map, attribute aside. */
  function BankOf(map': Map, i: nat): (Base, Word16)
    requires i < 32
  {
    if i < 2 then if map'.lowRam then (Ram, PAGE * i) else (Rom1, PAGE * i)
    else if i < 26 || map'.highRam then (Ram, PAGE * i)
    else if i < 28 then (Vram, PAGE * (i - 26))
    else (Dummy, PAGE * (i % 2))
  }

  /** Where a mapped page points is where the simple picture locates its addresses. */
  lemma {:induction false} BankLocates(map': Map, x: Address)
    ensures var (base, ofs) := BankOf(map', x / PAGE);
            match Locate(map', x)
            case InRom(a) => AttrOf(base) == 0 && PointerOf(base, ofs) == Mem(a - x % PAGE) && a < ROM_BYTES
            case InRam(a) => AttrOf(base) == 1 && PointerOf(base, ofs) == Mem(RAM_START + a - x % PAGE) && a < RAM_BYTES
            case InVram(a) =>
              AttrOf(base) == 5 && PointerOf(base, ofs) == Mem(VID_START + a - x % PAGE) && a < VRAM_BYTES
            case Mmio => AttrOf(base) == 2
  {
    assert x == PAGE * (x / PAGE) + x % PAGE;
  }

  class Memory {
    const mem: array<Byte>
    const memctrl: array<Bank>
    const memptr: array<Pointer>
    ghost var map': Map

    /** Every cached attribute and pointer is the translation of its bank. */
    ghost predicate Translated()
      reads memctrl, memptr
    {
      memctrl.Length == memptr.Length == 32 &&
      forall i :: 0 <= i < 32 ==>
        memctrl[i].attr == AttrOf(memctrl[i].base) &&
        memptr[i] == PointerOf(memctrl[i].base, memctrl[i].ofs)
    }

    ghost predicate Mapped()
      reads this, memctrl
    {
      memctrl.Length == 32 &&
      forall i :: 0 <= i < 32 ==> (memctrl[i].base, memctrl[i].ofs) == BankOf(map', i)
    }

    ghost predicate Valid()
      reads this, memctrl, memptr
    {
      mem.Length == MEM_BYTES && Translated() && Mapped()
    }

    ghost function View(): Machine
      requires mem.Length == MEM_BYTES
      reads this, mem
    {
      Machine(map', mem[..ROM_BYTES], mem[VID_START..RAM_START], mem[RAM_START..])
    }

    /** The allocation; reset fills in the banks. */
    constructor ()
      ensures mem.Length == MEM_BYTES && memctrl.Length == memptr.Length == 32
      ensures fresh(mem) && fresh(memctrl) && fresh(memptr)
    {
      mem := new Byte[MEM_BYTES](_ => 0);
      memctrl := new Bank[32](_ => Bank(0, Rom1, 0));
      memptr := new Pointer[32](_ => Mem(0));
    }

    /** Recomputing the cache from the whole table. */
    method UpdateMembank()
      requires memctrl.Length == memptr.Length == 32
      modifies memctrl, memptr
      ensures Translated()
      ensures forall i :: 0 <= i < 32 ==> memctrl[i] == old(memctrl[i]).(attr := AttrOf(old(memctrl[i]).base))
    {
      var i := 0;
      while i < 32
        invariant 0 <= i <= 32
        invariant forall k :: 0 <= k < i ==> memctrl[k] == old(memctrl[k]).(attr := AttrOf(old(memctrl[k]).base))
        invariant forall k :: 0 <= k < i ==> memptr[k] == PointerOf(memctrl[k].base, memctrl[k].ofs)
        invariant forall k :: i <= k < 32 ==> memctrl[k] == old(memctrl[k])
      {
        var at := 0;
        var baseptr;
        match memctrl[i].base {
          case Rom1 => baseptr := Mem(ROM_START);
          case Rom2 => baseptr := Mem(ROM2_START);
          case Ram => baseptr := Mem(RAM_START); at := 1;
          case Vram => baseptr := Mem(VID_START); at := 5;
          case Dummy => baseptr := Junk(0); at := 2;
          case Font => baseptr := FontRom(0);
          case Pcg => baseptr := Junk(0);
        }
        memctrl[i] := memctrl[i].(attr := at);
        memptr[i] := baseptr.(at := baseptr.at + memctrl[i].ofs);
        i := i + 1;
      }
    }

    method SetBank(i: nat, base: Base, ofs: Word16)
      requires memctrl.Length == 32 && i < 32
      modifies memctrl
      ensures memctrl[i].base == base && memctrl[i].ofs == ofs
      ensures forall k :: 0 <= k < 32 && k != i ==> memctrl[k] == old(memctrl[k])
    {
      memctrl[i] := memctrl[i].(base := base, ofs := ofs);
    }

    method SetLow(base: Base)
      requires memctrl.Length == 32
      modifies memctrl
      ensures forall k :: 0 <= k < 2 ==> memctrl[k].base == base && memctrl[k].ofs == PAGE * k
      ensures forall k :: 2 <= k < 32 ==> memctrl[k] == old(memctrl[k])
    {
      SetBank(0, base, 0x000);
      SetBank(1, base, 0x800);
    }

    method SetHigh(ram: bool)
      requires memctrl.Length == 32
      modifies memctrl
      ensures forall k :: 26 <= k < 32 ==> (memctrl[k].base, memctrl[k].ofs) == BankOf(Map(false, ram), k)
      ensures forall k :: 0 <= k < 26 ==> memctrl[k] == old(memctrl[k])
    {
      if ram {
        SetBank(26, Ram, 0xD000);
        SetBank(27, Ram, 0xD800);
        SetBank(28, Ram, 0xE000);
        SetBank(29, Ram, 0xE800);
        SetBank(30, Ram, 0xF000);
        SetBank(31, Ram, 0xF800);
      } else {
        SetBank(26, Vram, 0x0000);
        SetBank(27, Vram, 0x0800);
        SetBank(28, Dummy, 0x0000);
        SetBank(29, Dummy, 0x0800);
        SetBank(30, Dummy, 0x0000);
        SetBank(31, Dummy, 0x0800);
      }
    }

    /** A port write; every port but E0-E4 leaves the banks alone. */
    method Out(port: Word16)
      requires Valid()
      modifies this, memctrl, memptr
      ensures Valid() && View() == old(View()).(map' := Switch(old(map'), Low(port)))
    {
      match port % 0x100 {
        case 0xE0 => SetLow(Ram); map' := map'.(lowRam := true); UpdateMembank();
        case 0xE1 => SetHigh(true); map' := map'.(highRam := true); UpdateMembank();
        case 0xE2 => SetLow(Rom1); map' := map'.(lowRam := false); UpdateMembank();
        case 0xE3 => SetHigh(false); map' := map'.(highRam := false); UpdateMembank();
        case 0xE4 => Out(0xE2); Out(0xE3);
        case _ =>
      }
    }

    /** A CPU read; the devices answer io on a memory-mapped address. */
    method ReadMem(x: Address, io: Byte) returns (y: Byte)
      requires Valid()
      ensures y == ReadByte(View(), x, io)
    {
      var page := x / PAGE;
      BankLocates(map', x);
      if Bit(memctrl[page].attr, 2) {
        y := io;
      } else {
        y := mem[memptr[page].at + x % PAGE];
      }
    }

    method WriteMem(x: Address, y: Byte)
      requires Valid()
      modifies mem
      ensures View() == WriteByte(old(View()), x, y)
    {
      var page := x / PAGE;
      BankLocates(map', x);
      var attr := memctrl[page].attr;
      if Bit(attr, 2) {
        // the write goes to a device
      } else if attr != 0 {
        mem[memptr[page].at + x % PAGE] := y;
      }
    }

    method Fill(at: nat, n: nat, y: Byte)
      requires mem.Length == MEM_BYTES && at + n <= MEM_BYTES
      modifies mem
      ensures forall k :: 0 <= k < MEM_BYTES ==> mem[k] == if at <= k < at + n then y else old(mem[k])
    {
      forall k | at <= k < at + n { mem[k] := y; }
    }

    /** Power-on banks: RAM everywhere below D000, then port E4. */
    method ResetBanks()
      requires mem.Length == MEM_BYTES && memctrl.Length == memptr.Length == 32
      modifies this, memctrl, memptr
      ensures Valid() && map' == Map(false, false)
    {
      var i := 0;
      while i < 32
        invariant 0 <= i <= 32
        invariant forall k :: 0 <= k < i ==> memctrl[k] == Bank(0, Rom1, 0)
      {
        memctrl[i] := Bank(0, Rom1, 0);
        i := i + 1;
      }
      i := 0;
      while i < 26
        invariant 0 <= i <= 26
        invariant forall k :: 0 <= k < i ==> memctrl[k].base == Ram && memctrl[k].ofs == PAGE * k
      {
        SetBank(i, Ram, PAGE * i);
        i := i + 1;
      }
      map' := Map(false, false);
      SetLow(Rom1);
      UpdateMembank();
      SetHigh(false);
      UpdateMembank();
    }

    /** Reset clears the monitor work area and the screen and keeps every other byte. */
    method Reset(mz700: bool)
      requires mem.Length == MEM_BYTES && memctrl.Length == memptr.Length == 32
      modifies this, mem, memctrl, memptr
      ensures Valid()
      ensures View() == AfterReset(old(View()), mz700)
    {
      ResetBanks();
      Fill(RAM_START + 0x1000, 0x200, 0);
      Fill(VID_START, 0x400, 0);
      Fill(VID_START + 0x800, 0x400, if mz700 then 0x71 else 0);
      assert mem[..ROM_BYTES] == old(mem[..ROM_BYTES]);
      assert mem[VID_START..RAM_START] == Cleared(old(mem[VID_START..RAM_START]), mz700);
      assert mem[RAM_START..] == Zeroed(old(mem[RAM_START..]));
    }
  }

  function Zeroed(ram: seq<Byte>): seq<Byte> {
    seq<Byte>(|ram|, i requires 0 <= i < |ram| => if 0x1000 <= i < 0x1200 then 0 else ram[i])
  }

  /** Text cleared, attributes set to white on blue in MZ-700 mode. */
  function Cleared(vram: seq<Byte>, mz700: bool): seq<Byte> {
    seq<Byte>(|vram|, i requires 0 <= i < |vram| =>
        if i < 0x400 then 0 else if 0x800 <= i < 0xC00 then (if mz700 then 0x71 else 0) else vram[i])
  }

  /** Power-on map, screen and work area cleared, every other byte kept. */
  function AfterReset(m: Machine, mz700: bool): (m': Machine)
    requires Sized(m)
    ensures Sized(m')
  {
    m.(map' := Map(false, false), vram := Cleared(m.vram, mz700), ram := Zeroed(m.ram))
  }

  /** What the CPU sees after reset, address by address. */
  lemma {:induction false} SeenAfterReset(m: Machine, mz700: bool, x: Address, io: Byte)
    requires Sized(m)
    ensures ReadByte(AfterReset(m, mz700), x, io)
            == if x < 0x1000 then m.rom[x]
               else if x < 0x1200 then 0
               else if x < 0xD000 then m.ram[x]
               else if x < 0xD400 then 0
               else if x < 0xD800 then m.vram[x - 0xD000]
               else if x < 0xDC00 then if mz700 then 0x71 else 0
               else if x < 0xE000 then m.vram[x - 0xD000]
               else io
  {
  }

  /** What the CPU sees under each of the four maps. */
  lemma {:induction false} SeenUnderMap(m: Machine, low: bool, high: bool, x: Address, io: Byte)
    requires Sized(m) && m.map' == Map(low, high)
    ensures x < 0x1000 ==> ReadByte(m, x, io) == if low then m.ram[x] else m.rom[x]
    ensures 0x1000 <= x < 0xD000 ==> ReadByte(m, x, io) == m.ram[x]
    ensures x >= 0xD000 && high ==> ReadByte(m, x, io) == m.ram[x]
    ensures 0xD000 <= x < 0xE000 && !high ==> ReadByte(m, x, io) == m.vram[x - 0xD000]
    ensures x >= 0xE000 && !high ==> ReadByte(m, x, io) == io
  {
  }

  /** A store changes the byte the CPU sees there, if it is RAM or VRAM, and no other byte at all. */
  lemma {:induction false} StoreIsSeen(m: Machine, x: Address, y: Byte, at: Address, io: Byte)
    requires Sized(m)
    ensures var w := WriteByte(m, x, y);
            var open := (0x1000 <= x < 0xD000) || (x < 0x1000 && m.map'.lowRam) || (x >= 0xD000 && m.map'.highRam)
                        || 0xD000 <= x < 0xE000;
            ReadByte(w, at, io) == if at == x && open then y else ReadByte(m, at, io)
  {
  }

  // ---- runs ------------------------------------------------------------------------

  datatype Op = Port(port: Byte) | Store(x: Address, y: Byte)

  function Step(m: Machine, op: Op): (m': Machine)
    requires Sized(m)
    ensures Sized(m')
  {
    match op
    case Port(p) => m.(map' := Switch(m.map', p))
    case Store(x, y) => WriteByte(m, x, y)
  }

  function Run(m: Machine, ops: seq<Op>): (m': Machine)
    requires Sized(m)
    ensures Sized(m')
    decreases |ops|
  {
    if ops == [] then m else Run(Step(m, ops[0]), ops[1..])
  }

  /** Two CPU addresses never share a byte of memory. */
  lemma {:induction false} NoAlias(map': Map, x: Address, y: Address)
    requires x != y && Locate(map', x) != Mmio
    ensures Locate(map', x) != Locate(map', y)
  {
  }

  /** The byte a place holds, whether or not the CPU can see it now. */
  function Contents(m: Machine, p: Place): Option<Byte>
    requires Sized(m)
  {
    match p
    case InRom(a) => if a < ROM_BYTES then Some(m.rom[a]) else None
    case InRam(a) => if a < RAM_BYTES then Some(m.ram[a]) else None
    case InVram(a) => if a < VRAM_BYTES then Some(m.vram[a]) else None
    case Mmio => None
  }

  predicate Hits(m: Machine, op: Op, p: Place) {
    op.Store? && !p.InRom? && Locate(m.map', op.x) == p
  }

  /** No store of the run lands on place p. */
  ghost predicate Spares(m: Machine, ops: seq<Op>, p: Place)
    requires Sized(m)
    decreases |ops|
  {
    ops == [] || (!Hits(m, ops[0], p) && Spares(Step(m, ops[0]), ops[1..], p))
  }

  /** A byte changes only by a store the CPU makes while it can see it. */
  lemma {:induction false} SparedByteSurvives(m: Machine, ops: seq<Op>, p: Place)
    requires Sized(m) && Spares(m, ops, p)
    ensures Contents(Run(m, ops), p) == Contents(m, p)
    decreases |ops|
  {
    if ops != [] { SparedByteSurvives(Step(m, ops[0]), ops[1..], p); }
  }

  lemma {:induction false} RomIsConstant(m: Machine, ops: seq<Op>)
    requires Sized(m)
    ensures Run(m, ops).rom == m.rom
    decreases |ops|
  {
    if ops != [] { RomIsConstant(Step(m, ops[0]), ops[1..]); }
  }

  predicate IsLow(op: Op) { op.Port? && op.port in {0xE0, 0xE2, 0xE4} }

  predicate IsHigh(op: Op) { op.Port? && op.port in {0xE1, 0xE3, 0xE4} }

  /** What the last low-bank command of a run says; init when there is none. */
  function LastLow(init: bool, ops: seq<Op>): bool
    decreases |ops|
  {
    if ops == [] then init
    else if IsLow(ops[|ops| - 1]) then ops[|ops| - 1].port == 0xE0
    else LastLow(init, ops[..|ops| - 1])
  }

  function LastHigh(init: bool, ops: seq<Op>): bool
    decreases |ops|
  {
    if ops == [] then init
    else if IsHigh(ops[|ops| - 1]) then ops[|ops| - 1].port == 0xE1
    else LastHigh(init, ops[..|ops| - 1])
  }

  lemma {:induction false} RunLast(m: Machine, ops: seq<Op>)
    requires Sized(m) && ops != []
    ensures Run(m, ops) == Step(Run(m, ops[..|ops| - 1]), ops[|ops| - 1])
    decreases |ops|
  {
    if |ops| > 1 {
      RunLast(Step(m, ops[0]), ops[1..]);
      assert ops[1..][..|ops| - 2] == ops[..|ops| - 1][1..];
    }
  }

  /** The map is decided by the last low-bank and the last high-bank command alone. */
  lemma {:induction false} LastCommandDecides(m: Machine, ops: seq<Op>)
    requires Sized(m)
    ensures Run(m, ops).map' == Map(LastLow(m.map'.lowRam, ops), LastHigh(m.map'.highRam, ops))
    decreases |ops|
  {
    if ops != [] {
      RunLast(m, ops);
      LastCommandDecides(m, ops[..|ops| - 1]);
    }
  }

  /** The port that hides RAM at x, and the one that shows it again. */
  function HidePort(x: Address): Byte { if x < 0x1000 then 0xE2 else 0xE3 }

  function ShowPort(x: Address): Byte { if x < 0x1000 then 0xE0 else 0xE1 }

  predicate Switchable(x: Address) { x < 0x1000 || x >= 0xD000 }

  lemma {:induction false} HiddenStaysHidden(m: Machine, ops: seq<Op>, x: Address)
    requires Sized(m) && Switchable(x) && Locate(m.map', x) != InRam(x)
    requires forall i :: 0 <= i < |ops| ==> ops[i] != Port(ShowPort(x))
    ensures Spares(m, ops, InRam(x))
    decreases |ops|
  {
    if ops != [] {
      assert ops[0] != Port(ShowPort(x));
      HiddenStaysHidden(Step(m, ops[0]), ops[1..], x);
    }
  }

  /**
   * Hidden RAM is conserved: store y at a switchable address while RAM shows there, hide
   * it, run any stores and bank switches that do not show it, show it: y reads back.
   */
  lemma {:induction false} HiddenRamIsConserved(m: Machine, x: Address, y: Byte, ops: seq<Op>, io: Byte)
    requires Sized(m) && Switchable(x) && Locate(m.map', x) == InRam(x)
    requires forall i :: 0 <= i < |ops| ==> ops[i] != Port(ShowPort(x))
    ensures var hidden := Step(Step(m, Store(x, y)), Port(HidePort(x)));
            ReadByte(Step(Run(hidden, ops), Port(ShowPort(x))), x, io) == y
  {
    var hidden := Step(Step(m, Store(x, y)), Port(HidePort(x)));
    HiddenStaysHidden(hidden, ops, x);
    SparedByteSurvives(hidden, ops, InRam(x));
    assert Contents(hidden, InRam(x)) == Some(y);
  }
}
