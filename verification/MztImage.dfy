/** Loading an MZT file straight into memory, and saving memory as an MZT file. */
module MztImage {
  import opened Bytes
  import opened MemoryBanks
  import opened MztRecord
  import opened Z80

  const SAVE_FROM: nat := 0x1200
  const SAVE_TO: nat := 0xD000

  // ---- records -------------------------------------------------------------------------

  /** A machine-code record with the body its header announces. */
  predicate WellFormed(r: Record) {
    ValidRecord(r) && r.header[0] == 1
  }

  /** The body stays inside the 64K of RAM. */
  predicate InRange(r: Record)
    requires WellFormed(r)
  {
    OffsOf(r.header) + |r.body| <= RAM_BYTES
  }

  ghost predicate AllWellFormed(rs: seq<Record>) {
    forall i :: 0 <= i < |rs| ==> WellFormed(rs[i])
  }

  /** A whole machine-code record stands at the front of f. */
  predicate StartsRecord(f: seq<Byte>) {
    |f| >= HEADER && f[0] == 1 && |f| - HEADER >= SizeOf(f)
  }

  function FirstRecord(f: seq<Byte>): (r: Record)
    requires StartsRecord(f)
    ensures WellFormed(r)
  {
    Record(f[..HEADER], f[HEADER..HEADER + SizeOf(f)])
  }

  function AfterRecord(f: seq<Byte>): (rest: seq<Byte>)
    requires StartsRecord(f)
    ensures |rest| < |f| && f == FirstRecord(f).header + FirstRecord(f).body + rest
  {
    f[HEADER + SizeOf(f)..]
  }

  /** The machine-code records a file begins with. */
  function RecordsOf(f: seq<Byte>): (rs: seq<Record>)
    decreases |f|
  {
    if !StartsRecord(f) then [] else [FirstRecord(f)] + RecordsOf(AfterRecord(f))
  }

  /** What follows them: too short for a header, another kind of record, or a cut-off body. */
  function RestOf(f: seq<Byte>): (rest: seq<Byte>)
    ensures !StartsRecord(rest)
    decreases |f|
  {
    if !StartsRecord(f) then f else RestOf(AfterRecord(f))
  }

  /** Every file is its machine-code records and a rest, exactly. */
  lemma {:induction false} FileSplits(f: seq<Byte>)
    ensures AllWellFormed(RecordsOf(f)) && f == FileOf(RecordsOf(f), RestOf(f))
    decreases |f|
  {
    hide WellFormed, StartsRecord, FirstRecord, AfterRecord;
    if StartsRecord(f) {
      var t := AfterRecord(f);
      FileSplits(t);
      assert ([FirstRecord(f)] + RecordsOf(t))[1..] == RecordsOf(t);
    }
  }

  /** Records laid end to end before any rest are found again. */
  lemma {:induction false} RecordsRoundTrip(rs: seq<Record>, rest: seq<Byte>)
    requires AllWellFormed(rs) && !StartsRecord(rest)
    ensures RecordsOf(FileOf(rs, rest)) == rs && RestOf(FileOf(rs, rest)) == rest
    decreases |rs|
  {
    if rs != [] {
      assert rs == [rs[0]] + rs[1..] && WellFormed(rs[0]);
      FirstIsFound(rs[0], FileOf(rs[1..], rest));
      RecordsRoundTrip(rs[1..], rest);
    }
  }

  lemma {:induction false} FirstIsFound(r: Record, t: seq<Byte>)
    requires WellFormed(r)
    ensures var f := r.header + r.body + t; StartsRecord(f) && FirstRecord(f) == r && AfterRecord(f) == t
  {
    var f := r.header + r.body + t;
    assert f[..HEADER] == r.header;
  }

  /** What one turn of the loading loop finds at pos. */
  lemma {:induction false} NextRecord(file: seq<Byte>, pos: nat)
    requires pos + HEADER <= |file| && file[pos] == 1 && pos + HEADER + SizeOf(file[pos..]) <= |file|
    ensures var end := pos + HEADER + SizeOf(file[pos..]);
            var r := Record(file[pos..pos + HEADER], file[pos + HEADER..end]);
            WellFormed(r) &&
            RecordsOf(file[pos..]) == [r] + RecordsOf(file[end..]) && RestOf(file[pos..]) == RestOf(file[end..])
  {
    var f := file[pos..];
    assert StartsRecord(f);
    assert AfterRecord(f) == file[pos + HEADER + SizeOf(f)..];
    assert FirstRecord(f) == Record(file[pos..pos + HEADER], file[pos + HEADER..pos + HEADER + SizeOf(f)]);
  }

  // ---- what loading means --------------------------------------------------------------

  predicate Covers(r: Record, x: nat)
    requires WellFormed(r)
  {
    OffsOf(r.header) <= x < OffsOf(r.header) + |r.body|
  }

  /** Record i of rs writes address x, and no later record does. */
  ghost predicate LastOver(rs: seq<Record>, i: nat, x: nat)
    requires i < |rs| && AllWellFormed(rs)
  {
    Covers(rs[i], x) && forall k :: i < k < |rs| ==> !Covers(rs[k], x)
  }

  /** No record of rs writes address x. */
  ghost predicate Bare(rs: seq<Record>, x: nat)
    requires AllWellFormed(rs)
  {
    forall i :: 0 <= i < |rs| ==> !Covers(rs[i], x)
  }

  /** RAM is the bodies laid over it in file order; every byte no body covers is kept. */
  ghost predicate LaidOver(before: seq<Byte>, rs: seq<Record>, after: seq<Byte>)
    requires AllWellFormed(rs)
  {
    |before| == |after| == RAM_BYTES &&
    (forall i, x :: 0 <= i < |rs| && 0 <= x < RAM_BYTES && LastOver(rs, i, x) ==>
      after[x] == rs[i].body[x - OffsOf(rs[i].header)]) &&
    (forall x :: 0 <= x < RAM_BYTES && Bare(rs, x) ==> after[x] == before[x])
  }

  /** The start address of the last record, complete or cut off; pc when there is none. */
  ghost function StartAddress(rs: seq<Record>, rest: seq<Byte>, pc: Word16): Word16
    requires AllWellFormed(rs)
  {
    if |rest| >= HEADER && rest[0] == 1 then AddrOf(rest)
    else if rs == [] then pc
    else AddrOf(rs[|rs| - 1].header)
  }

  /** The rest is a record of another kind: the file belongs on the tape deck. */
  predicate ForTapeDeck(rest: seq<Byte>) {
    |rest| >= HEADER && rest[0] != 1
  }

  /** Every address is bare or has a last record over it. */
  lemma {:induction false} BareOrLast(rs: seq<Record>, x: nat)
    requires AllWellFormed(rs)
    ensures Bare(rs, x) || exists i :: 0 <= i < |rs| && LastOver(rs, i, x)
  {
    var n := |rs| - 1;
    if n >= 0 && !Covers(rs[n], x) {
      BareOrLast(rs[..n], x);
      if i :| 0 <= i < n && LastOver(rs[..n], i, x) {
        assert LastOver(rs, i, x);
      } else {
        assert forall i :: 0 <= i < n ==> rs[..n][i] == rs[i];
        assert Bare(rs, x);
      }
    } else if n >= 0 {
      assert LastOver(rs, n, x);
    }
  }

  /** The records and the old contents decide every byte of RAM. */
  lemma {:induction false} LaidOverDecides(before: seq<Byte>, rs: seq<Record>, after: seq<Byte>, other: seq<Byte>)
    requires AllWellFormed(rs) && LaidOver(before, rs, after) && LaidOver(before, rs, other)
    ensures after == other
  {
    hide LastOver, Bare;
    forall x | 0 <= x < RAM_BYTES ensures after[x] == other[x] {
      BareOrLast(rs, x);
    }
  }

  function Overlay(ram: seq<Byte>, offs: nat, body: seq<Byte>): (r: seq<Byte>)
    requires offs + |body| <= |ram|
    ensures |r| == |ram|
  {
    ram[..offs] + body + ram[offs + |body|..]
  }

  lemma {:induction false} OneMoreOverlay(before: seq<Byte>, rs: seq<Record>, now: seq<Byte>, r: Record)
    requires AllWellFormed(rs) && LaidOver(before, rs, now) && WellFormed(r) && InRange(r)
    ensures LaidOver(before, rs + [r], Overlay(now, OffsOf(r.header), r.body))
  {
    var all := rs + [r];
    var after := Overlay(now, OffsOf(r.header), r.body);
    forall i, x | 0 <= i < |all| && 0 <= x < RAM_BYTES && LastOver(all, i, x)
      ensures after[x] == all[i].body[x - OffsOf(all[i].header)]
    {
      if i < |rs| {
        assert all[|rs|] == r;
        assert forall k :: 0 <= k < |rs| ==> all[k] == rs[k];
        assert LastOver(rs, i, x);
      }
    }
    forall x | 0 <= x < RAM_BYTES && Bare(all, x) ensures after[x] == before[x] {
      assert all[|rs|] == r;
      assert forall k :: 0 <= k < |rs| ==> all[k] == rs[k];
      assert Bare(rs, x);
    }
  }

  // ---- loading -------------------------------------------------------------------------

  /** Every body of the file lands inside RAM. */
  ghost predicate Loadable(f: seq<Byte>) {
    forall i :: 0 <= i < |RecordsOf(f)| ==> WellFormed(RecordsOf(f)[i]) && InRange(RecordsOf(f)[i])
  }

  method ReadBody(memory: Memory, offs: nat, body: seq<Byte>)
    requires memory.mem.Length == MEM_BYTES && offs + |body| <= RAM_BYTES
    modifies memory.mem
    ensures memory.View() == old(memory.View()).(ram := Overlay(old(memory.View()).ram, offs, body))
  {
    forall k | 0 <= k < |body| { memory.mem[RAM_START + offs + k] := body[k]; }
    assert memory.mem[..ROM_BYTES] == old(memory.mem[..ROM_BYTES]);
    assert memory.mem[VID_START..RAM_START] == old(memory.mem[VID_START..RAM_START]);
    assert memory.mem[RAM_START..] == Overlay(old(memory.mem[RAM_START..]), offs, body);
  }

  /**
   * What loading a file does to RAM and PC: the bodies of its machine-code records laid over
   * RAM in file order, and the last start address.  A record of another kind hands the whole
   * file to the tape deck, with the records before it already loaded; a cut-off body loads
   * nothing, but its start address is taken.
   */
  ghost predicate Loaded(file: seq<Byte>, before: seq<Byte>, ram: seq<Byte>, pc0: Word16, pc: Word16, tape: bool) {
    AllWellFormed(RecordsOf(file)) &&
    LaidOver(before, RecordsOf(file), ram) &&
    pc == StartAddress(RecordsOf(file), RestOf(file), pc0) &&
    tape == ForTapeDeck(RestOf(file))
  }

  /** Where the fields of a header are: one record alone in a file, whatever short rest follows. */
  lemma {:induction false} OneRecordLoads(h: seq<Byte>, body: seq<Byte>, rest: seq<Byte>, before: seq<Byte>,
                                          after: seq<Byte>, pc0: Word16, pc: Word16, tape: bool)
    requires |h| == 128 && h[0] == 1 && |body| == Word(h[0x12], h[0x13]) && |rest| < 128
    requires Word(h[0x14], h[0x15]) + |body| <= 0x1_0000 && |before| == |after| == 0x1_0000
    requires Loaded(h + body + rest, before, after, pc0, pc, tape)
    ensures var at := Word(h[0x14], h[0x15]);
            after == before[..at] + body + before[at + |body|..]
    ensures pc == Word(h[0x16], h[0x17]) && !tape
  {
    var r := Record(h, body);
    assert FileOf([r], rest) == h + body + rest;
    RecordsRoundTrip([r], rest);
    var at := OffsOf(h);
    forall x | 0 <= x < RAM_BYTES
      ensures after[x] == if at <= x < at + |body| then body[x - at] else before[x]
    {
      assert at <= x < at + |body| ==> LastOver([r], 0, x);
      assert !(at <= x < at + |body|) ==> Bare([r], x);
    }
  }

  /** A file of another kind loads nothing and goes to the tape deck. */
  lemma {:induction false} OtherKindGoesToDeck(f: seq<Byte>, before: seq<Byte>, after: seq<Byte>,
                                               pc0: Word16, pc: Word16, tape: bool)
    requires |f| >= 128 && f[0] != 1 && Loaded(f, before, after, pc0, pc, tape)
    ensures after == before && pc == pc0 && tape
  {
    assert RecordsOf(f) == [] && RestOf(f) == f;
    forall x | 0 <= x < RAM_BYTES ensures after[x] == before[x] {
      assert Bare([], x);
    }
  }

  /** The same, up to pos: the records of done are loaded and the others still follow. */
  ghost predicate Underway(file: seq<Byte>, pos: nat, done: seq<Record>,
                           before: seq<Byte>, ram: seq<Byte>, pc0: Word16, pc: Word16) {
    AllWellFormed(done) && LaidOver(before, done, ram) && pc == StartAddress(done, [], pc0) &&
    pos <= |file| && RecordsOf(file) == done + RecordsOf(file[pos..]) && RestOf(file) == RestOf(file[pos..])
  }

  lemma {:induction false} StartLoading(file: seq<Byte>, ram: seq<Byte>, pc: Word16)
    requires |ram| == RAM_BYTES
    ensures Underway(file, 0, [], ram, ram, pc, pc)
  {
    assert file[0..] == file && [] + RecordsOf(file) == RecordsOf(file);
    forall x | 0 <= x < RAM_BYTES ensures Bare([], x) {}
  }

  lemma {:induction false} StepOver(file: seq<Byte>, pos: nat, done: seq<Record>,
                                    before: seq<Byte>, ram: seq<Byte>, pc0: Word16, pc: Word16)
    requires Loadable(file) && Underway(file, pos, done, before, ram, pc0, pc)
    requires pos + HEADER <= |file| && file[pos] == 1 && pos + HEADER + SizeOf(file[pos..]) <= |file|
    ensures var end := pos + HEADER + SizeOf(file[pos..]);
            var r := Record(file[pos..pos + HEADER], file[pos + HEADER..end]);
            WellFormed(r) && InRange(r) && Underway(file, end, done + [r], before,
                Overlay(ram, OffsOf(r.header), r.body), pc0, AddrOf(r.header))
  {
    hide LaidOver, InRange, WellFormed, RecordsOf, RestOf;
    var end := pos + HEADER + SizeOf(file[pos..]);
    var r := Record(file[pos..pos + HEADER], file[pos + HEADER..end]);
    NextRecord(file, pos);
    var all := RecordsOf(file);
    assert all == done + [r] + RecordsOf(file[end..]);
    assert all[|done|] == r;
    OneMoreOverlay(before, done, ram, r);
  }

  lemma {:induction false} StopAt(file: seq<Byte>, pos: nat, done: seq<Record>,
                                  before: seq<Byte>, ram: seq<Byte>, pc0: Word16, pc: Word16)
    requires Underway(file, pos, done, before, ram, pc0, pc) && !StartsRecord(file[pos..])
    ensures var f := file[pos..];
            Loaded(file, before, ram, pc0, if |f| >= HEADER && f[0] == 1 then AddrOf(f) else pc, ForTapeDeck(f))
  {
    hide LaidOver, WellFormed;
    assert done + [] == done;
  }

  method SetMztToMemory(cpu: Processor, file: seq<Byte>) returns (tape: bool)
    requires cpu.memory.mem.Length == MEM_BYTES && Loadable(file)
    modifies cpu`pc, cpu.memory.mem
    ensures Loaded(file, old(cpu.memory.View()).ram, cpu.memory.View().ram, old(cpu.pc), cpu.pc, tape)
    ensures cpu.memory.View() == old(cpu.memory.View()).(ram := cpu.memory.View().ram)
  {
    hide Loadable, Loaded, Underway, WellFormed, RecordsOf, RestOf;
    ghost var before, pc0 := cpu.memory.View(), cpu.pc;
    ghost var done: seq<Record> := [];
    var pos := 0;
    var remain: int := |file|;
    StartLoading(file, before.ram, pc0);
    while remain >= HEADER
      invariant 0 <= pos <= |file|
      invariant cpu.memory.View() == before.(ram := cpu.memory.View().ram)
      invariant remain >= 0 ==> remain == |file| - pos
      invariant remain >= 0 ==> Underway(file, pos, done, before.ram, cpu.memory.View().ram, pc0, cpu.pc)
      invariant remain < 0 ==> Loaded(file, before.ram, cpu.memory.View().ram, pc0, cpu.pc, false)
      decreases remain
    {
      ghost var from, ram := pos, cpu.memory.View().ram;
      var header := file[pos..pos + HEADER];
      pos := pos + HEADER;
      remain := remain - HEADER;
      var mode := header[0];
      var size: nat := Word(header[0x12], header[0x13]);
      var offs := Word(header[0x14], header[0x15]);
      var addr := Word(header[0x16], header[0x17]);
      if mode != 1 {
        StopAt(file, from, done, before.ram, ram, pc0, cpu.pc);
        return true;
      }
      if remain >= size {
        StepOver(file, from, done, before.ram, ram, pc0, cpu.pc);
        done := done + [Record(header, file[pos..pos + size])];
        ReadBody(cpu.memory, offs, file[pos..pos + size]);
        pos := pos + size;
      } else {
        StopAt(file, from, done, before.ram, ram, pc0, cpu.pc);
      }
      remain := remain - size;
      cpu.pc := addr;
    }
    if remain >= 0 {
      StopAt(file, pos, done, before.ram, cpu.memory.View().ram, pc0, cpu.pc);
    }
    return false;
  }

  // ---- saving --------------------------------------------------------------------------

  /** Kind 1, the name M5ZMEM, size BDFF, load address 1200 and the PC, high byte first. */
  function SavedHeader(pc: Word16): (h: seq<Byte>)
    ensures |h| == HEADER
  {
    [0x01, 0x4D, 0x35, 0x5A, 0x4D, 0x45, 0x4D] + seq<Byte>(11, _ => 0x0D)
    + [0xFF, 0xBD, 0x00, 0x12, High(pc), Low(pc)] + seq<Byte>(0x68, _ => 0)
  }

  function SavedImage(ram: seq<Byte>, pc: Word16): seq<Byte>
    requires |ram| == RAM_BYTES
  {
    SavedHeader(pc) + ram[SAVE_FROM..SAVE_TO]
  }

  method SaveMztImage(cpu: Processor) returns (file: seq<Byte>)
    requires cpu.memory.mem.Length == MEM_BYTES
    ensures file == SavedImage(cpu.memory.View().ram, cpu.pc)
    ensures |file| == 0x80 + 0xBE00 && file[..7] == [0x01, 0x4D, 0x35, 0x5A, 0x4D, 0x45, 0x4D]
    ensures file[0x12..0x18] == [0xFF, 0xBD, 0x00, 0x12, cpu.pc / 0x100, cpu.pc % 0x100]
    ensures file[0x80..] == cpu.memory.View().ram[0x1200..0xD000]
  {
    file := [0x01, 0x4D, 0x35, 0x5A, 0x4D, 0x45, 0x4D];
    ghost var name := file;
    var i := 0;
    while i < 11
      invariant 0 <= i <= 11 && file == name + seq<Byte>(i, _ => 0x0D)
    {
      file := file + [0x0D];
      i := i + 1;
    }
    file := file + [0xFF, 0xBD, 0x00, 0x12, High(cpu.pc), Low(cpu.pc)];
    ghost var front := file;
    i := 0x18;
    while i <= 0x7F
      invariant 0x18 <= i <= 0x80 && file == front + seq<Byte>(i - 0x18, _ => 0)
    {
      file := file + [0];
      i := i + 1;
    }
    ghost var ram := cpu.memory.View().ram;
    var index := SAVE_FROM;
    while index < SAVE_TO
      invariant SAVE_FROM <= index <= SAVE_TO
      invariant file == SavedHeader(cpu.pc) + ram[SAVE_FROM..index]
    {
      file := file + [cpu.memory.mem[RAM_START + index]];
      assert ram[index] == cpu.memory.mem[RAM_START + index];
      index := index + 1;
    }
  }

  /** A saved image is one record of BDFF bytes and one byte left over. */
  lemma {:induction false} SavedIsOneRecord(ram: seq<Byte>, pc: Word16)
    requires |ram| == RAM_BYTES
    ensures var f := SavedImage(ram, pc);
            RecordsOf(f) == [Record(SavedHeader(pc), ram[SAVE_FROM..SAVE_TO - 1])] && RestOf(f) == [ram[SAVE_TO - 1]]
    ensures Loadable(SavedImage(ram, pc))
  {
    var r := Record(SavedHeader(pc), ram[SAVE_FROM..SAVE_TO - 1]);
    var rest := [ram[SAVE_TO - 1]];
    assert SizeOf(r.header) == 0xBDFF && OffsOf(r.header) == SAVE_FROM;
    assert FileOf([r], rest) == r.header + r.body + rest;
    assert SavedImage(ram, pc) == FileOf([r], rest);
    RecordsRoundTrip([r], rest);
  }

  /**
   * Loading a saved image restores 1200-CFFE, keeps every other byte as it was, CFFF
   * included, and starts at the saved PC with its two bytes exchanged.
   */
  lemma {:induction false} SaveThenLoad(ram: seq<Byte>, pc: Word16, before: seq<Byte>, after: seq<Byte>,
                                        pc0: Word16, pc1: Word16, tape: bool)
    requires |ram| == RAM_BYTES && Loaded(SavedImage(ram, pc), before, after, pc0, pc1, tape)
    ensures after == before[..SAVE_FROM] + ram[SAVE_FROM..SAVE_TO - 1] + before[SAVE_TO - 1..]
    ensures pc1 == Word(High(pc), Low(pc)) && !tape
    ensures pc1 == pc <==> Low(pc) == High(pc)
  {
    SavedIsOneRecord(ram, pc);
    var r := Record(SavedHeader(pc), ram[SAVE_FROM..SAVE_TO - 1]);
    assert OffsOf(r.header) == SAVE_FROM && AddrOf(r.header) == Word(High(pc), Low(pc));
    forall x | 0 <= x < RAM_BYTES
      ensures after[x] == if SAVE_FROM <= x < SAVE_TO - 1 then ram[x] else before[x]
    {
      assert SAVE_FROM <= x < SAVE_TO - 1 ==> LastOver([r], 0, x);
      assert !(SAVE_FROM <= x < SAVE_TO - 1) ==> Bare([r], x);
    }
    assert pc == Low(pc) + 0x100 * High(pc);
  }
}
