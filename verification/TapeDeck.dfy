/** The cassette globals, updated in place, proved against TapeFormat and TapePager. */
module TapeDeck {
  import opened Bytes
  import opened MztRecord
  import opened TapeFormat
  import opened TapePager
  import opened PwmTables

  const SAVE_BYTES: nat := 1600

  lemma {:induction false} ImageAppend(file: seq<Byte>, stored: seq<Byte>, words: seq<Word32>, data: Word32)
    requires file + stored == Le32All(words)
    ensures file + (stored + Le32(data)) == Le32All(words + [data])
  {
    Le32AllAppend(words, data);
    assert file + (stored + Le32(data)) == file + stored + Le32(data);
  }

  lemma {:induction false} Concat4<T>(w: seq<T>, a: seq<T>, b: seq<T>, c: seq<T>)
    ensures w + a + b + c == w + (a + b + c)
  {
  }

  lemma {:induction false} Append3<T>(w: seq<T>, a: seq<T>, x: T, y: T, z: T)
    ensures w + a + [x] + [y] + [z] == w + (a + [x, y, z])
  {
  }

  lemma {:induction false} SliceAt<T>(part: seq<T>, whole: seq<T>, at: nat, i: nat)
    requires at + |part| <= |whole| && part == whole[at..at + |part|] && i + 4 <= |part|
    ensures part[i] == whole[at + i] && part[i + 1] == whole[at + i + 1]
    ensures part[i + 2] == whole[at + i + 2] && part[i + 3] == whole[at + i + 3]
  {
  }

  lemma {:induction false} EmptyChecksum()
    ensures Checksum([]) == 0
  {
  }

  lemma {:induction false} ChecksumAppend(block: seq<Byte>, i: nat)
    requires i < |block|
    ensures Checksum(block[..i + 1]) == Checksum(block[..i]) + Ones(block[i])
  {
    assert block[..i + 1][..i] == block[..i];
  }

  class Cassette {
    const leader1: seq<Word32>
    const leader2: seq<Word32>
    const pwm: seq<Word32>
    const ones: seq<nat>
    const saveBuf: array<Byte>
    const dataBuf: array<Word32>
    var saveCount: nat
    var tapeFile: seq<Byte>
    ghost var words: seq<Word32>

    var tapeData: Word32
    var preTword: nat
    var readTword: nat
    var bufStartTword: nat

    var cpuTstates: int
    var cmtTstates: nat
    var cmtPlay: nat
    var mztStart: int
    var mztElapse: int
    var mztBsize: nat
    var mztSettape: nat
    var mz700Mode: bool

    var vgate: nat
    var wdata: nat
    var led: nat
    var motor: nat

    /** The tables as start-up left them; nothing writes them again. */
    ghost predicate Built() {
      && leader1 == Leader1() && leader2 == Leader2() && |pwm| == |ones| == 256
      && forall b: Byte :: pwm[b] == PwmWord(b) && ones[b] == Ones(b)
    }

    /** What is in the file and the write buffer together is the words written so far. */
    ghost predicate Valid()
      reads this`tapeFile, this`saveCount, this`words, saveBuf
    {
      && saveBuf.Length == SAVE_BYTES && dataBuf.Length == PAGE
      && saveCount < SAVE_BYTES && saveCount % 4 == 0
      && tapeFile + saveBuf[..saveCount] == Le32All(words)
    }

    /** The port variables hold only their own bit. */
    ghost predicate PortOk()
      reads this`cmtTstates, this`vgate, this`wdata, this`led, this`motor
    {
      cmtTstates in {0, 1} && vgate in {0, 1} && wdata in {0, 2} && led in {0, 4} && motor in {0, 8}
    }

    ghost function PortView(): Port
      reads this`cmtTstates, this`cmtPlay, this`mztStart, this`mztElapse, this`vgate, this`wdata, this`led, this`motor
    {
      Port(vgate != 0, wdata != 0, led != 0,
           Transport(motor != 0, cmtTstates != 0, cmtPlay != 0, mztStart, mztElapse))
    }

    ghost function WindowView(): Window
      reads this`tapeData, this`preTword, this`readTword, this`bufStartTword, dataBuf
    {
      Window(tapeData, preTword, readTword, bufStartTword, dataBuf[..])
    }

    ghost function View(): Deck
      reads this, dataBuf
    {
      Deck(PortView(), WindowView())
    }

    ghost function Tape(): Medium
      reads this
    {
      Medium(words, CellTime())
    }

    function CellTime(): nat
      reads this
    {
      if mz700Mode then 766 else 428
    }

    /** Power-on: cleared state, the pulse tables built. */
    constructor (mz700: bool)
      ensures Valid() && PortOk() && Built() && words == [] && cmtTstates == 0 && cmtPlay == 0 && mz700Mode == mz700
    {
      var tables := new Tables();
      tables.MakePwm();
      leader1, leader2 := tables.leader1[..], tables.leader2[..];
      var patterns := seq(256, i requires 0 <= i < 256 && tables.Shape() reads tables.pwmTable =>
                            tables.pwmTable[i, 1]);
      var counts := seq(256, i requires 0 <= i < 256 && tables.Shape() reads tables.pwmTable =>
                          tables.pwmTable[i, 2]);
      forall b: Byte ensures patterns[b] == PwmWord(b) && counts[b] == Ones(b) {
        assert tables.RowBuilt(b);
      }
      pwm, ones := patterns, counts;
      saveBuf := new Byte[SAVE_BYTES](_ => 0);
      dataBuf := new Word32[PAGE](_ => 0);
      saveCount, tapeFile, words := 0, [], [];
      tapeData, preTword, readTword, bufStartTword := 0, 0, 0, 0;
      cpuTstates, cmtTstates, cmtPlay, mztStart, mztElapse := 0, 0, 0, 0, 0;
      mztBsize, mztSettape, mz700Mode := 0, 0, mz700;
      vgate, wdata, led, motor := 1, 0, 0, 0;
    }

    // ---- writing the tape image ------------------------------------------------

    method FlushTapeBuf()
      requires saveCount <= saveBuf.Length
      modifies this`tapeFile, this`saveCount
      ensures tapeFile == old(tapeFile + saveBuf[..saveCount]) && saveCount == 0
    {
      if saveCount > 0 {
        tapeFile := tapeFile + saveBuf[..saveCount];
        saveCount := 0;
      }
    }

    /** The four byte stores of a word, low byte first. */
    method StoreWord(data: Word32)
      requires saveCount + 4 <= saveBuf.Length
      modifies this`saveCount, saveBuf
      ensures saveCount == old(saveCount) + 4
      ensures saveBuf[..saveCount] == old(saveBuf[..saveCount]) + Le32(data)
    {
      saveBuf[saveCount] := data % 0x100;
      saveBuf[saveCount + 1] := data / 0x100 % 0x100;
      saveBuf[saveCount + 2] := data / 0x1_0000 % 0x100;
      saveBuf[saveCount + 3] := data / 0x100_0000 % 0x100;
      saveCount := saveCount + 4;
    }

    method WriteUint32(data: Word32)
      requires Valid()
      modifies this`tapeFile, this`saveCount, this`words, saveBuf
      ensures Valid() && words == old(words) + [data]
    {
      ghost var stored := saveBuf[..saveCount];
      StoreWord(data);
      ImageAppend(tapeFile, stored, words, data);
      words := words + [data];
      if saveCount >= SAVE_BYTES {
        FlushTapeBuf();
        assert saveBuf[..saveCount] == [];
      }
    }

    method WriteLeader1()
      requires Valid() && Built()
      modifies this`tapeFile, this`saveCount, this`words, saveBuf
      ensures Valid() && words == old(words) + Leader1()
    {
      for i := 0 to LEADER1
        invariant Valid() && words == old(words) + Leader1()[..i]
      {
        WriteUint32(leader1[i]);
      }
    }

    method WriteLeader2()
      requires Valid() && Built()
      modifies this`tapeFile, this`saveCount, this`words, saveBuf
      ensures Valid() && words == old(words) + Leader2()
    {
      for i := 0 to LEADER2
        invariant Valid() && words == old(words) + Leader2()[..i]
      {
        WriteUint32(leader2[i]);
      }
    }

    method WritePwm(b: Byte)
      requires Valid() && Built()
      modifies this`tapeFile, this`saveCount, this`words, saveBuf
      ensures Valid() && words == old(words) + [PwmWord(b)]
    {
      WriteUint32(pwm[b]);
    }

    method WriteData(block: seq<Byte>) returns (sum: nat)
      requires Valid() && Built()
      modifies this`tapeFile, this`saveCount, this`words, saveBuf
      ensures Valid() && words == old(words) + PwmWords(block)
      ensures sum == Checksum(block)
    {
      hide PwmWord, Checksum, Le32All, Ones;
      sum := 0;
      assert block[..0] == [] && Checksum([]) == 0 by { EmptyChecksum(); }
      for i := 0 to |block|
        invariant Valid() && words == old(words) + PwmWords(block)[..i]
        invariant sum == Checksum(block[..i])
      {
        WritePwm(block[i]);
        sum := sum + ones[block[i]];
        ChecksumAppend(block, i);
      }
      assert block[..|block|] == block && PwmWords(block)[..|block|] == PwmWords(block);
    }

    /** The data words of a header or a body, its two checksum words and the stop mark. */
    method WriteBlock(block: seq<Byte>)
      requires Valid() && Built()
      modifies this`tapeFile, this`saveCount, this`words, saveBuf
      ensures Valid() && words == old(words) + BlockWords(block)
    {
      ghost var w := words;
      var sum := WriteData(block);
      WritePwm(sum / 0x100 % 0x100);
      WritePwm(sum % 0x100);
      WriteUint32(STOP);
      Append3(w, PwmWords(block), PwmWord(High(sum)), PwmWord(Low(sum)), STOP);
    }

    method WriteRecord(header: seq<Byte>, body: seq<Byte>)
      requires Valid() && Built()
      modifies this`tapeFile, this`saveCount, this`words, saveBuf
      ensures Valid() && words == old(words) + RecordWords(header, body)
    {
      ghost var w := words;
      WriteBlock(header);
      WriteLeader2();
      WriteBlock(body);
      Concat4(w, BlockWords(header), Leader2(), BlockWords(body));
    }

    /** The conversion loop: it ends when the file has no whole header left. */
    method CopyTape(file: seq<Byte>) returns (count: nat)
      requires Valid() && Built() && Complete(file) && words == []
      modifies this`tapeFile, this`saveCount, this`words, saveBuf
      ensures Valid() && words == TapeWords(file) && count == |words|
    {
      hide Built, Leader1, Leader2, RecordWords, BlockWords, Le32All;
      var fd := file;
      count := 0;
      while true
        invariant Valid() && count == |words|
        invariant Complete(fd) && words + TapeWords(fd) == TapeWords(file)
        decreases |fd|
      {
        ghost var before := words;
        WriteLeader1();
        count := count + LEADER1;
        var header := ReadHeader(fd);
        if |header| < HEADER {
          break;
        }
        var bsize := SizeOf(header);
        var body := fd[HEADER..HEADER + bsize];
        WriteRecord(header, body);
        fd := fd[HEADER + bsize..];
        count := count + HEADER + 3 + LEADER2 + bsize + 3;
        Concat4(before, Leader1(), RecordWords(header, body), TapeWords(fd));
      }
    }

    /** Reader variables as they stand before the first poll. */
    method ResetReader()
      modifies this`tapeData, this`preTword, this`readTword, this`bufStartTword
      ensures WindowView() == Rewound(old(WindowView()))
    {
      tapeData := 0;
      preTword := 0;
      readTword := 0;
      bufStartTword := 0;
    }

    /** The temporary file is truncated before the tape file is known to open. */
    method OpenTape()
      requires Valid()
      modifies this`tapeFile, this`saveCount, this`words
      ensures Valid() && words == [] && saveCount == 0
    {
      saveCount := 0;
      tapeFile := [];
      words := [];
      assert tapeFile + saveBuf[..saveCount] == [];
    }

    method Inserted(count: nat)
      modifies this`mztBsize, this`mztElapse, this`mztSettape
      modifies this`tapeData, this`preTword, this`readTword, this`bufStartTword
      ensures mztBsize == count && mztSettape == 1
      ensures PortView() == old(PortView()).(transport := old(PortView().transport).(elapsed := 0))
      ensures WindowView() == Rewound(old(WindowView()))
    {
      mztBsize := count;
      mztElapse := 0;
      mztSettape := 1;
      ResetReader();
    }

    /** Turning an MZT file into the tape image; None is a file that does not open. */
    method SetMztData(file: Option<seq<Byte>>) returns (ok: bool)
      requires Valid() && Built() && (file.Some? ==> Complete(file.value))
      modifies this`tapeFile, this`saveCount, this`words, saveBuf
      modifies this`mztBsize, this`mztElapse, this`mztSettape
      modifies this`tapeData, this`preTword, this`readTword, this`bufStartTword
      ensures Valid() && ok == file.Some? && saveCount == 0
      ensures ok ==> words == TapeWords(file.value) && mztBsize == |words| && mztSettape == 1
      ensures ok ==> WindowView() == Rewound(old(WindowView()))
      ensures ok ==> PortView() == old(PortView()).(transport := old(PortView().transport).(elapsed := 0))
      ensures !ok ==> words == [] && mztSettape == 0 && View() == old(View()) && mztBsize == old(mztBsize)
    {
      hide Built, TapeWords, Complete, Le32All, Rewound;
      OpenTape();
      if file == None {
        mztSettape := 0;
        return false;
      }
      var count := CopyTape(file.value);
      CloseTape();
      Inserted(count);
      ok := true;
    }

    method CloseTape()
      requires Valid()
      modifies this`tapeFile, this`saveCount
      ensures Valid() && saveCount == 0
    {
      FlushTapeBuf();
      assert saveBuf[..0] == [];
    }

    /** Inserting a tape ends in the play state (the menu action after set_mztData). */
    method StartTape()
      requires PortOk()
      modifies this`cmtPlay, this`mztStart, this`cmtTstates
      ensures PortOk()
      ensures PortView() == old(PortView()).(transport :=
                              old(PortView().transport).(playing := true, armed := true, started := cpuTstates))
    {
      cmtPlay := 1;
      mztStart := cpuTstates;
      cmtTstates := 1;
    }

    // ---- reading ---------------------------------------------------------------

    /** One page from the file: bytes into the shared buffer, then words out of it. */
    method LoadPage()
      requires Valid() && saveCount == 0 && readTword <= |words|
      modifies this`bufStartTword, this`readTword, saveBuf, dataBuf
      ensures Valid() && WindowView() == Load(old(WindowView()), words)
    {
      hide Le32All, FromLe32, PwmWord;
      assert tapeFile == Le32All(words);
      var rest := |tapeFile| - 4 * readTword;
      var count := if rest < SAVE_BYTES then rest else SAVE_BYTES;
      ReadBytes(4 * readTword, count);
      AssembleWords(readTword, count / 4);
      bufStartTword := readTword;
      readTword := readTword + count / 4;
    }

    method ReadBytes(at: nat, count: nat)
      requires Valid() && saveCount == 0 && at + count <= |tapeFile| && count <= SAVE_BYTES
      modifies saveBuf
      ensures Valid() && saveBuf[..count] == tapeFile[at..at + count]
    {
      forall k | 0 <= k < count { saveBuf[k] := tapeFile[at + k]; }
      assert saveBuf[..0] == [];
    }

    method AssembleWords(first: nat, count: nat)
      requires saveBuf.Length == SAVE_BYTES && dataBuf.Length == PAGE && count <= PAGE
      requires first + count <= |words| && tapeFile == Le32All(words)
      requires saveBuf[..4 * count] == tapeFile[4 * first..4 * first + 4 * count]
      modifies dataBuf
      ensures dataBuf[..] == words[first..first + count] + old(dataBuf[..])[count..]
    {
      hide Le32All;
      var i := 0;
      while i < 4 * count
        invariant 0 <= i <= 4 * count && i % 4 == 0
        invariant forall k :: 0 <= k < i / 4 ==> dataBuf[k] == words[first + k]
        invariant forall k :: i / 4 <= k < PAGE ==> dataBuf[k] == old(dataBuf[k])
      {
        StoredWord(words, first + i / 4);
        SliceAt(saveBuf[..4 * count], tapeFile, 4 * first, i);
        dataBuf[i / 4] := FromLe32(saveBuf[i], saveBuf[i + 1], saveBuf[i + 2], saveBuf[i + 3]);
        i := i + 4;
      }
    }

    /** Mark the word as the one being read, and load a page if it is past the window. */
    method PageFor(tword: nat)
      requires Valid() && saveCount == 0 && readTword <= |words|
      modifies this`preTword, this`readTword, this`bufStartTword, saveBuf, dataBuf
      ensures Valid() && WindowView() == PageIn(old(WindowView()), words, tword).(pre := tword)
    {
      hide Le32All;
      preTword := tword;
      if readTword <= tword {
        LoadPage();
      }
    }

    method PickWord(tword: nat)
      requires dataBuf.Length == PAGE && InBuffer(WindowView(), tword)
      modifies this`tapeData
      ensures WindowView() == old(WindowView()).(data := old(WindowView()).buf[tword - bufStartTword])
    {
      tapeData := dataBuf[tword - bufStartTword];
    }

    /** Fetch the word under the head when it is not the last one fetched. */
    method SeekWord(tword: nat)
      requires Valid() && saveCount == 0 && readTword <= |words|
      requires preTword != tword ==> InBuffer(PageIn(WindowView(), words, tword), tword)
      modifies this`tapeData, this`preTword, this`readTword, this`bufStartTword, saveBuf, dataBuf
      ensures Valid() && WindowView() == Seek(old(WindowView()), words, tword)
    {
      hide Le32All, Load;
      if preTword != tword {
        PageFor(tword);
        PickWord(tword);
      }
    }

    /** Where the head stands: the word and the cell in it. */
    method Head() returns (tword: nat, tbit: nat)
      requires Position(PortView().transport, cpuTstates) >= 0 && cmtTstates != 0
      ensures var cell := if mz700Mode then 766 else 428;
              tword == (cpuTstates - PortView().transport.started + PortView().transport.elapsed) / (27 * cell)
      ensures tword == WordAt(Tape(), Position(PortView().transport, cpuTstates))
      ensures tbit == CellAt(Tape(), Position(PortView().transport, cpuTstates))
    {
      var elapsed := cpuTstates - mztStart;
      elapsed := elapsed + mztElapse;
      tword := elapsed / (CELLS * CellTime());
      tbit := elapsed % (CELLS * CellTime()) / CellTime();
      assert tbit == CellAt(Tape(), elapsed);
    }

    method StopTape()
      requires PortOk()
      modifies this`cmtPlay, this`cmtTstates, this`tapeData, this`preTword, this`readTword, this`bufStartTword
      ensures PortOk() && WindowView() == Rewound(old(WindowView()))
      ensures PortView() == old(PortView()).(transport := old(PortView().transport).(playing := false, armed := false))
    {
      cmtPlay := 0;
      cmtTstates := 0;
      ResetReader();
    }

    method CmtRead() returns (signal: nat)
      requires Valid() && PortOk() && saveCount == 0 && mztBsize == |words|
      requires PollReady(View(), Tape(), cpuTstates)
      modifies this`cmtPlay, this`cmtTstates
      modifies this`tapeData, this`preTword, this`readTword, this`bufStartTword, saveBuf, dataBuf
      ensures Valid() && PortOk()
      ensures View() == PollDeck(old(View()), Tape(), cpuTstates).0
      ensures signal == if PollDeck(old(View()), Tape(), cpuTstates).1 then 0x20 else 0
    {
      hide Le32All, WordAt, CellAt, Cell, Seek, PageIn, InBuffer;
      if cmtTstates == 0 {
        return 0;
      }
      var tword, tbit := Head();
      if tword >= mztBsize {
        StopTape();
        return 0;
      }
      SeekWord(tword);
      if Cell(tapeData, tbit) { return 0x20; } else { return 0; }
    }

    // ---- the port --------------------------------------------------------------

    method MotorOn()
      requires PortOk()
      modifies this`mztStart, this`cmtTstates, this`mztElapse
      ensures PortOk()
      ensures PortView() == old(PortView()).(transport := RisingEdge(old(PortView().transport), cpuTstates))
    {
      if cmtTstates == 0 {
        if cmtPlay != 0 {
          mztStart := cpuTstates;
          cmtTstates := 1;
        }
      } else {
        cmtTstates := 0;
        mztElapse := mztElapse + (cpuTstates - mztStart);
      }
    }

    /** Only a rising edge of the motor bit acts; the bit itself is always stored. */
    method DriveMotor(on: bool)
      requires PortOk()
      modifies this`motor, this`mztStart, this`cmtTstates, this`mztElapse
      ensures PortOk()
      ensures PortView() == old(PortView()).(transport := MotorLine(old(PortView().transport), cpuTstates, on))
    {
      if motor == 0 && on {
        MotorOn();
      }
      motor := if on then 8 else 0;
    }

    method StoreLines(v: bool, w: bool, l: bool)
      requires PortOk()
      modifies this`vgate, this`wdata, this`led
      ensures PortOk() && PortView() == Port(v, w, l, old(PortView()).transport)
    {
      vgate := if v then 1 else 0;
      wdata := if w then 2 else 0;
      led := if l then 4 else 0;
    }

    /** E002: V-gate, write data, LED and motor in one byte. */
    method WriteE002(val: Byte)
      requires PortOk()
      modifies this`vgate, this`wdata, this`led, this`motor, this`mztStart, this`cmtTstates, this`mztElapse
      ensures PortOk() && PortView() == WriteAll(old(PortView()), cpuTstates, val)
    {
      hide Bit, MotorLine;
      StoreLines(Bit(val, 1), Bit(val, 2), Bit(val, 4));
      DriveMotor(Bit(val, 8));
    }

    /** E003: set or reset one bit of the port. */
    method WriteE003(val: Byte)
      requires PortOk()
      modifies this`vgate, this`wdata, this`led, this`motor, this`mztStart, this`cmtTstates, this`mztElapse
      ensures PortOk() && PortView() == WriteBit(old(PortView()), cpuTstates, val)
    {
      hide MotorLine;
      var on := Bit(val, 1);
      match val / 2 % 8
      case 0 => vgate := if on then 1 else 0;
      case 1 => wdata := if on then 2 else 0;
      case 2 => led := if on then 4 else 0;
      case 3 => DriveMotor(on);
      case _ =>
    }

    static method ReadHeader(fd: seq<Byte>) returns (header: seq<Byte>)
      ensures header == if |fd| < HEADER then fd else fd[..HEADER]
    {
      header := [];
      var offset := 0;
      while offset < |fd| && offset < HEADER
        invariant 0 <= offset <= HEADER && offset <= |fd| && header == fd[..offset]
      {
        header := header + [fd[offset]];
        offset := offset + 1;
      }
    }
  }
}
