/** The register file and the opcode functions, changing it in place. */
module Z80 {
  import opened Bytes
  import opened MemoryBanks
  import opened BlockInstructions

  class Processor {
    const memory: Memory
    var a: Byte
    var f: Flags
    var bc: Word16
    var de: Word16
    var hl: Word16
    var pc: Word16
    var r: nat

    ghost predicate Valid()
      reads memory, memory.memctrl, memory.memptr
    {
      memory.Valid()
    }

    ghost function View(): Cpu
      requires memory.mem.Length == MEM_BYTES
      reads this, memory, memory.mem
    {
      Cpu(a, f, bc, de, hl, pc, r, memory.View())
    }

    constructor (memory: Memory)
      requires memory.Valid()
      ensures this.memory == memory && Valid()
    {
      this.memory := memory;
      a, bc, de, hl, pc, r := 0, 0, 0, 0, 0, 0;
      f := Flags(false, false, false, false, false, false, false, false);
    }

    /** The byte move LDI and LDD share; io is what a device under HL answers. */
    method Transfer(io: Byte)
      requires Valid()
      modifies memory.mem
      ensures View() == old(View()).(bus := WriteByte(old(View()).bus, de, ReadByte(old(View()).bus, hl, io)))
    {
      var y := memory.ReadMem(hl, io);
      memory.WriteMem(de, y);
    }

    method Ldi(io: Byte)
      requires Valid()
      modifies this, memory.mem
      ensures View() == Move(old(View()), 1, io)
    {
      Transfer(io);
      de := (de + 1) % 0x1_0000;
      hl := (hl + 1) % 0x1_0000;
      bc := (bc - 1) % 0x1_0000;
      f := f.(h := false, n := false, v := bc != 0);
    }

    method Ldd(io: Byte)
      requires Valid()
      modifies this, memory.mem
      ensures View() == Move(old(View()), -1, io)
    {
      Transfer(io);
      de := (de - 1) % 0x1_0000;
      hl := (hl - 1) % 0x1_0000;
      bc := (bc - 1) % 0x1_0000;
      f := f.(h := false, n := false, v := bc != 0);
    }

    method Ldir(io: Byte)
      requires Valid()
      modifies this, memory.mem
      ensures View() == Repeat(Move(old(View()), 1, io), Move(old(View()), 1, io).bc != 0)
    {
      Ldi(io);
      if bc != 0 {
        pc := (pc - 2) % 0x1_0000;
      }
    }

    method Lddr(io: Byte)
      requires Valid()
      modifies this, memory.mem
      ensures View() == Repeat(Move(old(View()), -1, io), Move(old(View()), -1, io).bc != 0)
    {
      Ldd(io);
      if bc != 0 {
        pc := (pc - 2) % 0x1_0000;
      }
    }

    /** Comparing A with the byte at HL; the registers move afterwards. */
    method Compare(dir: int, io: Byte)
      requires Valid() && (dir == 1 || dir == -1)
      modifies this`hl, this`bc, this`f
      ensures View() == Search(old(View()), dir, io)
    {
      var i := memory.ReadMem(hl, io);
      var j := (a - i) % 0x100;
      hl := (hl + dir) % 0x1_0000;
      bc := (bc - 1) % 0x1_0000;
      f := Flags(j >= 0x80, j == 0, false, HalfBit(a, i, j), false, bc != 0, true, f.c);
    }

    method Cpir(io: Byte)
      requires Valid()
      modifies this`hl, this`bc, this`f, this`pc
      ensures var u := Search(old(View()), 1, io); View() == Repeat(u, u.bc != 0 && !u.f.z)
    {
      Compare(1, io);
      if bc != 0 && !f.z {
        pc := (pc - 2) % 0x1_0000;
      }
    }

    method Cpdr(io: Byte)
      requires Valid()
      modifies this`hl, this`bc, this`f, this`pc
      ensures var u := Search(old(View()), -1, io); View() == Repeat(u, u.bc != 0 && !u.f.z)
    {
      Compare(-1, io);
      if bc != 0 && !f.z {
        pc := (pc - 2) % 0x1_0000;
      }
    }

    /** The second half of the fetch, and the dispatch on it. */
    method Ed(ghost i: Instruction, io: Byte)
      requires Valid() && Locate(memory.map', pc) != Mmio
      requires Decode(Read(View(), pc)) == Some(i)
      modifies this, memory.mem
      ensures View() == Dispatch(old(View()).(r := old(r) + 1, pc := Wrap(old(pc) + 1)), i, io)
    {
      r := r + 1;
      var opcode := memory.ReadMem(pc, 0);
      pc := (pc + 1) % 0x1_0000;
      match opcode {
        case 0xA0 => Ldi(io);
        case 0xA1 => Compare(1, io);
        case 0xA8 => Ldd(io);
        case 0xA9 => Compare(-1, io);
        case 0xB0 => Ldir(io);
        case 0xB1 => Cpir(io);
        case 0xB8 => Lddr(io);
        case 0xB9 => Cpdr(io);
      }
    }

    /** One turn of the execute loop on an instruction of this family, interrupts disabled. */
    method Execute(ghost i: Instruction, io: Byte)
      requires Valid() && Fetches(View(), i)
      modifies this, memory.mem
      ensures View() == StepWith(old(View()), i, io)
    {
      hide Decode, Dispatch, StepWith, ReadByte;
      StepIsDispatch(View(), i, io);
      r := r + 1;
      var opcode := memory.ReadMem(pc, 0);
      pc := (pc + 1) % 0x1_0000;
      assert opcode == 0xED;
      Ed(i, io);
    }
  }

  lemma {:induction false} StepIsDispatch(s: Cpu, i: Instruction, io: Byte)
    requires Fetches(s, i)
    ensures StepWith(s, i, io) == Dispatch(s.(r := s.r + 2, pc := Wrap(Wrap(s.pc + 1) + 1)), i, io)
  {
    hide Decode, ReadByte, WriteByte;
    WrapAdd(s.pc + 1, 1);
  }

  /** PC goes back onto the instruction when it is to run again. */
  function Repeat(s: Cpu, again: bool): Cpu {
    if again then s.(pc := Wrap(s.pc - 2)) else s
  }

  /** What an instruction does once both its bytes are fetched. */
  function Dispatch(t: Cpu, i: Instruction, io: Byte): Cpu
    requires Sized(t.bus)
  {
    var u := if i.kind.Load? then Move(t, i.dir, io) else Search(t, i.dir, io);
    Repeat(u, i.repeating && u.bc != 0 && (i.kind.Compare? ==> !u.f.z))
  }
}
