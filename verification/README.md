# Verified model of the MZ-700 emulator

This project models the five stateful cores of the emulator in Dafny and proves what they are for.

- **Tape.** Start-up builds a pulse word for each byte; inserting a tape file turns its records into a stream of
  32-bit words (leaders, pulse words, checksums) written through a 1600-byte buffer; the read signal turns elapsed
  T-states into a word and a cell, through a 400-word window over the stored stream. `TapeSession.Listen` puts the three
  together: whoever polls once per cell of playing time, measures the pulses and looks for the tape marks decodes
  exactly the records inserted. `TapePager.RunRefines` is the core of it: window, motor edges and clock arithmetic
  together behave like a plain array on a tape that moves while it plays.
- **Timer.** The 8253 counters, their latch and byte flip-flop, and the cascade of counter 1 into counter 2 that
  raises the interrupt.
- **Memory and block instructions.** The bank table with its cached translation, against two switches and three
  blocks; and LDIR, LDDR, CPIR, CPDR as runs of CPU steps over that memory, since each is one step that moves PC back.
- **Bluetooth host.** Reassembly of ACL fragments, the signalling that opens and closes sockets, the table of devices
  and sockets, and the packet ring (Bluetooth Core Specification, Volume 3 Part A, sections 3.1 and 4, and Volume 4
  Part E, section 5.4.2).
- **Service discovery reader.** The recursive cursor parser and the continuation loop (Bluetooth Core Specification,
  Volume 3 Part B, sections 3.1-3.3, 4.3 and 4.7).

Two smaller parts of the menu code come with them: loading and saving MZT files straight from and to memory, and the
name sort of the file list.

Each core has the same shape: a class whose methods change fields and arrays as the code does, a state datatype with
a step function the methods are proved equal to, and lemmas about runs of those steps. The files are

| file | holds |
|---|---|
| Bytes.dfy | bytes, words, bit lists |
| TapeFormat.dfy, PwmTables.dfy | the pulse format; the tables start-up fills |
| MztRecord.dfy | the tape file layout |
| TapePager.dfy, TapeDeck.dfy | window and transport; the cassette code |
| TapeWave.dfy | leaders, bytes and whole tapes as pulses |
| TapeRoundTrip.dfy, TapeSession.dfy | a loader that knows only pulses, and the end-to-end theorem; the code run from insertion to the last cell |
| Timer8253.dfy | the timer |
| MemoryBanks.dfy, BlockInstructions.dfy, Z80.dfy | memory; block instructions over runs; the opcode code |
| L2cap.dfy, BtDevice.dfy | one Bluetooth device; its code |
| L2capLaws.dfy, Handshake.dfy | reassembly over whole packets; the handshake over whole runs |
| Signals.dfy | what each signal says and does, byte by byte |
| HostTable.dfy, HostLaws.dfy | all devices over runs; what closing, connecting and routing do to them |
| HciServer.dfy, PacketQueue.dfy | the host code; the packet ring |
| SdpRecord.dfy, SdpParse.dfy | service records and their bytes; the reader |
| MztImage.dfy, NameSort.dfy | MZT files; the name sort |

## Choices

- Bytes and words are integers with a range. The shifts and masks of the code are written as multiplication, division
  and remainder; `char` is unsigned. `TapeFormat.CellIsBit` and `PwmTables.ShiftedPattern` relate the two forms where
  it matters.
- The two operands of `u8() << 8 | u8()` have no fixed order in C++; the intended order, first byte first, is modelled.
- The flag word of a device is the set of its bit numbers.
- `map<int, L2CAPSocket*>` is a map from ids to socket values; it is walked in ascending order of id. A socket carries
  the address of its device where the code has a back reference, and its packet ring is the list of packets waiting.
- A disconnection response closes its socket through the host, which owns all devices: the device returns the id and
  the host closes it.
- Files are byte sequences, the HCI output and socket events are logs, time is a T-state counter.
- The opcode fetch macro (its header is not part of this model) reads memory like any other access.

## What the proofs found

Where code and comments or intent differ, the code is what is modelled.

- Word 0 of the tape is never fetched, so its 27 cells read as zero. They are part of the leader: fourteen of its 5973
  short pulses go unheard (`TapeWave.BlankLeaderPulses`), and the loader does not need them.
- Counter mode 4 is commented as pulsing once; it pulses on every tick (`Timer8253.ModeFourKeepsPulsing`).
- A timer base of 0 acts as a period of 1 (`Timer8253.CascadeLaw`).
- Reads and writes of a counter share one flip-flop, so a stray read spoils the next load
  (`Timer8253.LoadNeedsFlipFlop` says exactly when).
- A start fragment does not reset the copy position, so after a lost fragment the next packet is misassembled
  (`L2capLaws.StaleStart`). Every packet, however fragmented, is safe exactly when the device was in step, and a device
  out of step stays so (`L2capLaws.FragmentsNeedPosZero`, `L2capLaws.PacketKeepsPos`).
- The handshake is recorded per device, so of two sockets opening together one can open on the answers of the other
  (`Handshake.SecondSocketOpensEarly` is such a run; `Handshake.OpensOnOwnAnswers` says exactly when it does not happen).
- The saver announces one byte less than it writes and stores PC high byte first while the loader reads it low byte
  first (`MztImage.SaveThenLoad`).
- Machine reset leaves counter 2 without a read/load mode, where counters 0 and 1 have low byte then high byte
  (`Timer8253.Timer.Reset`).

## Model

| member | source | states |
|---|---|---|
| TapeRoundTrip.TapeRoundTrip | m5z700AtomHDMI/src/MZhw.cpp:825-912 | end to end over every complete tape file and every run at the port: one poll anywhere inside each cell of playing time, with any port writes, pauses and resumptions between, and a loader that sees only those cells (it measures pulses, finds each block by its tape mark, and compares the checksum bytes) returns exactly the records of the file; the blank first word does no harm |
| TapeRoundTrip.SteadyRoundTrip | m5z700AtomHDMI/src/MZhw.cpp:834-847 | the same for a tape left to play, polled once per cell of clock time |
| TapeSession.Listen | m5z700AtomHDMI/src/MZhw.cpp:126-296 | the code run in sequence: insert the file, start the tape, answer the port events; what the CPU read decodes to the records of the file |
| TapeSession.Answer | m5z700AtomHDMI/src/MZhw.cpp:825-912 | a run of reads and writes at the port returns the bits of the deck model |
| TapeSession.PortEvent | m5z700AtomHDMI/src/MZhw.cpp:1097-1243 | one read or write at the port at a given T-state, with its bit and the new deck |
| TapeRoundTrip.RecordsRoundTrip | m5z700AtomHDMI/src/MZhw.cpp:167-268 | the same for any list of records whose size fields agree with their bodies, whatever short tail follows them in the file |
| TapeRoundTrip.PollsHearCells | m5z700AtomHDMI/src/MZhw.cpp:834-847 | a listener that polls once per cell of playing time hears cell k of the stream at poll k, whatever it writes to the port between, and always stays within the reach of one page |
| TapeRoundTrip.CellPosition | m5z700AtomHDMI/src/MZhw.cpp:834-847 | a moment inside cell k is word k / 27 and cell k % 27, for either clock |
| TapeRoundTrip.DecodeInverts | m5z700AtomHDMI/src/MZhw.cpp:167-268 | from the pulses of any complete file, however many shorts come first, the loader recovers all its records and stops on the lone last leader |
| TapeRoundTrip.MarkIsFound | m5z700AtomHDMI/src/MZhw.cpp:764-788 | a loader that skips short pulses and looks for n longs, n shorts and a long finds a mark behind any number of shorts, and nothing of what follows is lost |
| TapeRoundTrip.BlockIsTaken | m5z700AtomHDMI/src/MZhw.cpp:187-233 | the pulses of a block give its bytes back, with checksum bytes that agree and the stop pulse behind them |
| TapeRoundTrip.HeardIsWords | m5z700AtomHDMI/src/MZhw.cpp:834-847 | one poll per cell of playing time hears, all together, the cells of the whole word stream with its first word blank |
| TapeWave.FirstLeaderPulses | m5z700AtomHDMI/src/MZhw.cpp:764-777 | the first leader as pulses: 5973 shorts, then the mark of 40 longs, 40 shorts and one long |
| TapeWave.BlankLeaderPulses | m5z700AtomHDMI/src/MZhw.cpp:764-777 | with its first word blank it has 5959 shorts and the same mark |
| TapeWave.SecondLeaderPulses | m5z700AtomHDMI/src/MZhw.cpp:778-788 | the second leader: 5848 shorts, then the mark of 20 longs, 20 shorts and one long |
| TapeWave.ByteWordPulses | m5z700AtomHDMI/src/MZhw.cpp:790-818 | the word of a byte is nine pulses: a long, then its bits from the top, long for one and short for zero |
| TapeWave.StopPulse | m5z700AtomHDMI/src/MZhw.cpp:232-233 | the word behind a block is one long pulse |
| TapeWave.FeedBlock | m5z700AtomHDMI/src/MZhw.cpp:187-233 | a block is the pulses of its bytes, of the two checksum bytes, and one long |
| TapeWave.FeedTape | m5z700AtomHDMI/src/MZhw.cpp:167-268 | the stream of a file is, as pulses, a first leader before each record and one more at the end, with the second leader between header and body |
| TapeWave.FeedHeardTape | m5z700AtomHDMI/src/MZhw.cpp:167-268 | the same for the stream as it is heard, with its first word blank |
| TapeFormat.FileOfIsComplete | m5z700AtomHDMI/src/MZhw.cpp:179-256 | a file written from records is complete, and cutting it up again gives the same records |
| TapeFormat.CellIsBit | m5z700AtomHDMI/src/MZhw.cpp:904 | the shift-and-test of the read signal looks at bit 31 - c of the word |
| TapeFormat.CellOfValue | m5z700AtomHDMI/src/MZhw.cpp:904 | a left-aligned 27-cell pattern is read back cell for cell |
| TapeFormat.PwmMiddle | m5z700AtomHDMI/src/MZhw.cpp:790-818 | the middle cells of the eight data triples of a byte word are the bits of the byte, most significant first |
| PwmTables.Tables.MakePwm | m5z700AtomHDMI/src/MZhw.cpp:760-819 | start-up fills both leaders and all 256 rows: length 27, the pulse word of the byte, and its number of 1 bits |
| PwmTables.Tables.MakeLeader1 | m5z700AtomHDMI/src/MZhw.cpp:764-777 | the first leader: 442 alternating words and the mark, the words that FirstLeaderPulses measures |
| PwmTables.Tables.MakeLeader2 | m5z700AtomHDMI/src/MZhw.cpp:778-788 | the second leader: 432 alternating words and the mark, the words that SecondLeaderPulses measures |
| PwmTables.Tables.MakeRow | m5z700AtomHDMI/src/MZhw.cpp:791-818 | one row is right for its byte and no other row changes |
| PwmTables.RowStep | m5z700AtomHDMI/src/MZhw.cpp:803-816 | one turn of the bit loop appends the triple of the next bit and counts it |
| PwmTables.ShiftedPattern | m5z700AtomHDMI/src/MZhw.cpp:799-815 | testing 80h after j left shifts reads bit j from the top |
| PwmTables.BitsByWeight | m5z700AtomHDMI/src/MZhw.cpp:799-815 | bit 8 - i of the pattern of a byte is the bit of that weight |
| PwmTables.OnesAreBits | m5z700AtomHDMI/src/MZhw.cpp:803-816 | the count in a row is the number of one bits of the byte |
| Bytes.Le32RoundTrip | m5z700AtomHDMI/src/MZhw.cpp:894 | a word survives being stored as four bytes |
| Bytes.StoredWord | m5z700AtomHDMI/src/MZhw.cpp:108-118 | word i of a stored word list is put together again from bytes 4i to 4i+3 |
| TapeDeck.Cassette.FlushTapeBuf | m5z700AtomHDMI/src/MZhw.cpp:101-106 | the buffered bytes move to the end of the file, in order |
| TapeDeck.Cassette.WriteUint32 | m5z700AtomHDMI/src/MZhw.cpp:108-123 | file and buffer together are always exactly the words written so far, whenever the flush happens |
| TapeDeck.Cassette.WriteData | m5z700AtomHDMI/src/MZhw.cpp:187-195 | a block of bytes becomes its pulse words and its count of 1 bits |
| TapeDeck.Cassette.WriteBlock | m5z700AtomHDMI/src/MZhw.cpp:187-233 | data, checksum high byte, checksum low byte, stop word |
| TapeDeck.Cassette.ReadHeader | m5z700AtomHDMI/src/MZhw.cpp:178-186 | a header is the next 128 bytes, or whatever is left of the file |
| TapeDeck.Cassette.CopyTape | m5z700AtomHDMI/src/MZhw.cpp:167-268 | the conversion loop ends and has written the word stream of the whole file |
| TapeDeck.Cassette.SetMztData | m5z700AtomHDMI/src/MZhw.cpp:126-296 | insertion: the stored image is the word stream, the word count is its length, position and window start afresh; a file that does not open leaves an empty image and the reader as it was |
| TapeDeck.Cassette.StartTape | m5z700AtomHDMI/src/Mzmain.cpp:1983-1989 | inserting from the menu ends armed and playing from now |
| TapeDeck.Cassette.LoadPage | m5z700AtomHDMI/src/MZhw.cpp:881-899 | one page: the next 400 words of the image, or as many as there are, in front of the old window contents |
| TapeDeck.Cassette.AssembleWords | m5z700AtomHDMI/src/MZhw.cpp:893-896 | the bytes of a page become its words |
| TapeDeck.Cassette.SeekWord | m5z700AtomHDMI/src/MZhw.cpp:879-901 | fetching a word the way the window model does, with image and words kept in agreement |
| TapeDeck.Cassette.Head | m5z700AtomHDMI/src/MZhw.cpp:834-847 | word and cell under the head from the elapsed T-states |
| TapeDeck.Cassette.StopTape | m5z700AtomHDMI/src/MZhw.cpp:851-864 | reaching the end disarms the deck and rewinds the window |
| TapeDeck.Cassette.CmtRead | m5z700AtomHDMI/src/MZhw.cpp:825-912 | the whole poll: stopped, past the end, or the cell of the word under the head, with the new state of deck and window |
| TapePager.PageReach | m5z700AtomHDMI/src/MZhw.cpp:881-900 | one page load reaches the asked word exactly when it is fewer than 400 words past the words read |
| TapePager.SeekIsFaithful | m5z700AtomHDMI/src/MZhw.cpp:879-901 | within that reach the window stays that slice of the tape and the fetched word is the tape word (zero for word 0) |
| TapePager.PollRefines | m5z700AtomHDMI/src/MZhw.cpp:825-912 | a poll through the window returns what the plain array would and keeps the two machines together |
| TapePager.WriteRefines | m5z700AtomHDMI/src/MZhw.cpp:1097-1243 | a port write keeps the two machines together |
| TapePager.RunRefines | m5z700AtomHDMI/src/MZhw.cpp:825-912 | over every paced run of polls and port writes the paged, clock-driven deck answers like a flat array on a tape that moves while it plays, and the window is still a slice of the tape afterwards |
| TapePager.PositionIsPlayingTime | m5z700AtomHDMI/src/MZhw.cpp:1111-1135 | over every run short of the tape end the position moves on by exactly the time spent playing; pauses and resumptions lose nothing |
| TapePager.BitWriteIsWholeWrite | m5z700AtomHDMI/src/MZhw.cpp:1143-1243 | setting or clearing one bit through E003 is the E002 write of the port value with that bit changed |
| TapePager.LineBits | m5z700AtomHDMI/src/MZhw.cpp:1097-1135 | bits 0 to 3 of E002 are V-gate, write data, LED and motor |
| TapePager.LineBytes | m5z700AtomHDMI/src/MZhw.cpp:1143-1243 | bytes 0 to 7 at E003 reset (even) and set (odd) those lines, and a higher line number does nothing |
| TapePager.EveryOtherStartPauses | m5z700AtomHDMI/src/MZhw.cpp:1111-1135 | an armed deck switched on, off, on, off, on: it plays through the first off, stands still from the second on, and plays on from there at the third, with the position given at every moment |
| TapeDeck.Cassette.WriteE002 | m5z700AtomHDMI/src/MZhw.cpp:1097-1141 | the whole port is written, and a rising motor edge starts or pauses the tape |
| TapeDeck.Cassette.WriteE003 | m5z700AtomHDMI/src/MZhw.cpp:1143-1243 | one port bit is set or cleared, with the same motor edge |
| TapeDeck.Cassette.MotorOn | m5z700AtomHDMI/src/MZhw.cpp:1111-1134 | an edge starts an armed deck at now, or pauses a playing one and banks the time played |
| TapeDeck.Cassette.DriveMotor | m5z700AtomHDMI/src/MZhw.cpp:1111-1135 | only a change from off to on acts |
| Timer8253.CascadeLaw | m5z700AtomHDMI/src/MZhw.cpp:583-657 | rate generator of base N into one-shot of count M, freshly loaded: tick j interrupts exactly when N divides j and j / N is at least M + 1, and counter 1 stays in 1..N; a base of 0 acts as 1, not as 65536 |
| Timer8253.CascadeStands | m5z700AtomHDMI/src/MZhw.cpp:583-657 | where both counters stand after any number of ticks |
| Timer8253.ProgramIsFresh | m5z700AtomHDMI/src/MZhw.cpp:543-580 | from any state, control word and two byte writes leave a counter running from exactly that word and the others untouched |
| Timer8253.ProgrammedCascade | m5z700AtomHDMI/src/MZhw.cpp:543-657 | from any timer state, programming counters 2 and 1 through the port gives the cascade law |
| Timer8253.ModeFourKeepsPulsing | m5z700AtomHDMI/src/MZhw.cpp:625-634 | mode 4 pulses on every tick from the n-th on, although its comment says once |
| Timer8253.ElsewhereKeeps | m5z700AtomHDMI/src/MZhw.cpp:1013-1062 | ticks and traffic on other counters leave latch, flip-flop, read mode and base of a counter alone |
| Timer8253.LatchIsAtomic | m5z700AtomHDMI/src/MZhw.cpp:1018-1044 | after a latch the next two reads are the low and the high byte of the count at latch time, whatever ticks and other traffic fall before and between |
| Timer8253.LatchOutOfStep | m5z700AtomHDMI/src/MZhw.cpp:1031-1038 | with the flip-flop set the first latched read is the high byte and ends the latch |
| Timer8253.LatchNeedsFlipFlop | m5z700AtomHDMI/src/MZhw.cpp:1018-1058 | two reads after a latch give its low and high byte if and only if the flip-flop was clear, or both bytes and the live low byte coincide |
| Timer8253.LoadIsExact | m5z700AtomHDMI/src/MZhw.cpp:1283-1306 | low then high write load that word, whatever falls between |
| Timer8253.LoadNeedsFlipFlop | m5z700AtomHDMI/src/MZhw.cpp:1283-1306 | two writes in a row load their word if and only if the flip-flop was clear or the word is 0 |
| Timer8253.StrayRead | m5z700AtomHDMI/src/MZhw.cpp:1057-1058 | a read between the two halves of a load spoils it: the flip-flop is shared |
| Timer8253.OneByteModes | m5z700AtomHDMI/src/MZhw.cpp:1255-1282 | mode 1 loads the low byte alone, mode 2 the high byte alone; a read gives that byte, of the latched count when there is one, and ends the latch |
| Timer8253.LiveReads | m5z700AtomHDMI/src/MZhw.cpp:1045-1062 | two unlatched reads in the two-byte mode give low then high byte, or high then low when the flip-flop is set, and leave the counter as it was |
| Timer8253.LoadWhileRunning | m5z700AtomHDMI/src/MZhw.cpp:1255-1306 | a load that completes reaches the count at once, except in a running mode 2 or 3 counter, which keeps its count |
| Timer8253.NewRateNextPeriod | m5z700AtomHDMI/src/MZhw.cpp:607-617 | a rate generator loaded in mid-period ends that period with its pulse and counts the next from the new base |
| Timer8253.ProgrammedIsSilent | m5z700AtomHDMI/src/MZhw.cpp:543-580 | a control word sets mode, read/load mode and BCD, and the counter stands still, without a pulse, over any number of counts until it is loaded |
| Timer8253.OtherModesAreSilent | m5z700AtomHDMI/src/MZhw.cpp:583-642 | modes 1, 3 and 5 to 7 never pulse and never count |
| Timer8253.BacklogIsKept | m5z700AtomHDMI/src/MZhw.cpp:1513-1535 | for instructions of any length and any backlog at the start: one tick at most per instruction, and the time not ticked yet stands in the backlog, so none is lost |
| Timer8253.TimerKeepsUp | m5z700AtomHDMI/src/MZhw.cpp:1513-1535 | when no instruction is longer than a tick, the timer has ticked once per 114 T-states and the backlog is the remainder |
| Timer8253.InterruptLaw | m5z700AtomHDMI/src/MZhw.cpp:1513-1535 | when the last instruction of a run raises the interrupt, for instructions of any length and any backlog when the counters were loaded: exactly when it ticks the timer and that tick is due by the cascade law |
| Timer8253.Timer.PitInit | m5z700AtomHDMI/src/MZhw.cpp:518-538 | counters 0 and 1 get read/load mode 3 and zero counts, counter 2 is not touched |
| Timer8253.Timer.Reset | m5z700AtomHDMI/src/MZhw.cpp:448-457 | after machine reset all three counters are clear, with read/load mode 3 on counters 0 and 1 and none on counter 2 |
| Timer8253.Timer.WriteControl | m5z700AtomHDMI/src/MZhw.cpp:543-580 | latch, or stop and reprogram, the selected counter only |
| Timer8253.Timer.PitcountJob | m5z700AtomHDMI/src/MZhw.cpp:583-642 | one count in place, the other counters untouched |
| Timer8253.Timer.PitCount | m5z700AtomHDMI/src/MZhw.cpp:645-657 | counter 2 counts the pulses of counter 1 |
| Timer8253.Timer.ReadCounter | m5z700AtomHDMI/src/MZhw.cpp:1013-1063 | a byte read with its effect on latch and flip-flop |
| Timer8253.Timer.WriteCounter | m5z700AtomHDMI/src/MZhw.cpp:1245-1307 | a byte write with its effect on base, count, latch and flip-flop |
| Timer8253.Timer.Interrupt | m5z700AtomHDMI/src/MZhw.cpp:1513-1535 | at most one tick per instruction; the line is raised when the cascade pulses |
| MemoryBanks.BankLocates | m5z700AtomHDMI/src/MZhw.cpp:315-364 | a page translated through the bank table lands where the two-switch picture locates its addresses, inside its block |
| MemoryBanks.Memory.UpdateMembank | m5z700AtomHDMI/src/MZhw.cpp:301-367 | every cached attribute and address is the translation of its bank |
| MemoryBanks.Memory.Out | m5z700AtomHDMI/src/MZhw.cpp:1421-1498 | ports E0-E4 move the two switches, every other port none; cache and table stay in agreement |
| MemoryBanks.Memory.ResetBanks | m5z700AtomHDMI/src/MZhw.cpp:462-472 | reset maps ROM low, VRAM and devices high, RAM between, from any table |
| MemoryBanks.Memory.Reset | m5z700AtomHDMI/src/MZhw.cpp:442-494 | reset clears the monitor work area and the screen and keeps every other byte |
| MemoryBanks.Memory.ReadMem | m5z700AtomHDMI/src/MZhw.cpp:918-953 | a read through the cache is the read of the simple picture |
| MemoryBanks.Memory.WriteMem | m5z700AtomHDMI/src/MZhw.cpp:956-978 | a write through the cache is the write of the simple picture; ROM and device writes leave memory alone |
| MemoryBanks.SeenAfterReset | m5z700AtomHDMI/src/MZhw.cpp:462-494 | what the CPU reads after machine reset at every address: ROM below 1000, zeros at 1000-11FF and D000-D3FF, the attribute byte at D800-DBFF, everything else as it was |
| MemoryBanks.SeenUnderMap | m5z700AtomHDMI/src/MZhw.cpp:1437-1495 | what the CPU reads at every address under each of the four maps |
| MemoryBanks.StoreIsSeen | m5z700AtomHDMI/src/MZhw.cpp:956-978 | after a store the CPU reads the new byte at that address if it is RAM or VRAM, and every other address reads as before |
| MemoryBanks.NoAlias | m5z700AtomHDMI/src/MZhw.cpp:918-978 | two addresses never share a byte of memory |
| MemoryBanks.LastCommandDecides | m5z700AtomHDMI/src/MZhw.cpp:1442-1495 | after any run the map depends on the last low-bank and the last high-bank command alone |
| MemoryBanks.RomIsConstant | m5z700AtomHDMI/src/MZhw.cpp:956-978 | no run of stores and switches changes ROM |
| MemoryBanks.SparedByteSurvives | m5z700AtomHDMI/src/MZhw.cpp:956-978 | a byte changes only by a store that lands on it while it is mapped |
| MemoryBanks.HiddenStaysHidden | m5z700AtomHDMI/src/MZhw.cpp:956-978 | no store reaches RAM that ROM or VRAM covers |
| MemoryBanks.HiddenRamIsConserved | m5z700AtomHDMI/src/MZhw.cpp:1442-1495 | a byte stored at 0000-0FFF or D000-FFFF, hidden, and shown again after any stores and switches, reads back |
| BlockInstructions.BlockMoveRun | m5z700AtomHDMI/src/z80.c:798-823 | a whole LDIR or LDDR ends after BC steps (65536 for 0), PC past the instruction, registers past the block, memory the byte-by-byte copy |
| BlockInstructions.BlockMoveLoops | m5z700AtomHDMI/src/z80.c:806-823 | until then PC is back on the instruction after every step |
| BlockInstructions.CopyMeaning | m5z700AtomHDMI/src/z80.c:798-823 | the closed form of that copy, overlap and ROM pages included: a destination byte that is RAM or VRAM holds the old byte of its origin, found by stepping back by the distance as long as the copy ran into its own output and that store was not dropped by ROM |
| BlockInstructions.OriginRepeats | m5z700AtomHDMI/src/z80.c:798-823 | clear of ROM an overlapping copy repeats its first bytes: the origin of byte i is i modulo the distance |
| BlockInstructions.CopyOutside | m5z700AtomHDMI/src/MZhw.cpp:956-978 | addresses outside the destination, and ROM, keep their bytes |
| BlockInstructions.BlockMoveMeaning | m5z700AtomHDMI/src/z80.c:798-823 | every byte the CPU can see after the instruction, from memory before it: RAM and VRAM in the destination hold the byte of their origin, ROM and everything else is as it was |
| BlockInstructions.BlockSearchRun | m5z700AtomHDMI/src/z80.c:323-356 | a whole CPIR or CPDR over any memory as far as it looks stops at the first byte equal to A in wrap-around order or when BC runs out; Z tells which, HL is one past the last byte looked at, V is set exactly when BC is not 0 |
| BlockInstructions.BlockSearchLoops | m5z700AtomHDMI/src/z80.c:334-356 | until then PC is back on the instruction after every step |
| BlockInstructions.FirstMatchUnique | m5z700AtomHDMI/src/z80.c:341-356 | the stopping place is the only index its description allows |
| BlockInstructions.HalfBorrow | m5z700AtomHDMI/src/z80.c:330-331 | the H flag is the borrow out of the low nibble |
| BlockInstructions.OpcodeBits | m5z700AtomHDMI/src/z80.c:2170-2173 | the block instructions are exactly A0, A1, A8, A9, B0, B1, B8 and B9; bit 3 is the direction, bit 4 repeats, bit 0 compares |
| BlockInstructions.RunMoveBytes | m5z700AtomHDMI/src/z80.c:2170-2173 | the bytes ED B0 run as LDIR, going up, and ED B8 as LDDR, going down, to the copy, final registers, PC and flags |
| BlockInstructions.RunSearchBytes | m5z700AtomHDMI/src/z80.c:2170-2173 | the bytes ED B1 run as CPIR, going up, and ED B9 as CPDR, going down, to the first byte equal to A or to BC 0 |
| BlockInstructions.SingleBytes | m5z700AtomHDMI/src/z80.c:2170-2173 | the bytes ED A0, A1, A8 and A9: one turn of LDI, CPI, LDD and CPD |
| BlockInstructions.SearchFlags | m5z700AtomHDMI/src/z80.c:323-332 | sign and half carry of a comparison are those of A minus the byte |
| Z80.Processor.Ldi | m5z700AtomHDMI/src/z80.c:811-818 | byte moved from memory or from what the device under HL answers, HL and DE forward, BC down, H and N cleared, V from BC |
| Z80.Processor.Ldd | m5z700AtomHDMI/src/z80.c:798-805 | the same, backward |
| Z80.Processor.Ldir | m5z700AtomHDMI/src/z80.c:819-823 | PC back by two exactly while BC is not 0 |
| Z80.Processor.Lddr | m5z700AtomHDMI/src/z80.c:806-810 | the same, backward |
| Z80.Processor.Compare | m5z700AtomHDMI/src/z80.c:323-350 | A compared with the byte at HL, memory or device, carry kept, memory untouched |
| Z80.Processor.Cpir | m5z700AtomHDMI/src/z80.c:352-356 | PC back by two exactly while BC is not 0 and there was no match |
| Z80.Processor.Cpdr | m5z700AtomHDMI/src/z80.c:334-339 | the same, backward |
| Z80.Processor.Ed | m5z700AtomHDMI/src/z80.c:2240-2248 | second fetch and dispatch of the eight block opcodes, whose bits OpcodeBits reads |
| Z80.Processor.Execute | m5z700AtomHDMI/src/z80.c:2516-2526 | one turn of the execute loop on a block instruction, fetched from memory, is one step of the run theorems; a device under HL answers what it is given |
| L2capLaws.FragmentsDeliverOnce | m5z700AtomHDMI/src/hid_server/hci_server.cpp:531-561 | in step, every way of cutting a payload into a start fragment and continuations puts it once, whole, behind the packets of the socket of its channel, and leaves the device in step; a socket with 32 packets waiting drops it |
| L2capLaws.FragmentsNeedPosZero | m5z700AtomHDMI/src/hid_server/hci_server.cpp:531-561 | exactly when a packet is safe: however it is fragmented, with a start fragment that carries something, it is taken in whole if and only if the device was in step |
| L2capLaws.PacketKeepsPos | m5z700AtomHDMI/src/hid_server/hci_server.cpp:542-558 | over a whole packet the copy position comes back to where it was, so a device out of step stays out of step |
| L2capLaws.UnknownChannelDrops | m5z700AtomHDMI/src/hid_server/hci_server.cpp:545-558 | a whole packet for a channel no socket has changes no socket and sends nothing |
| Signals.FrameBytes | m5z700AtomHDMI/src/hid_server/hci_server.cpp:671-684 | the nine header bytes of a sent frame, in order, for every handle and payload |
| Signals.Opened | m5z700AtomHDMI/src/hid_server/hci_server.cpp:472-488 | a new socket listens and says nothing, or sends the bytes of a connection request: service first, own id second |
| Signals.ClosedHere | m5z700AtomHDMI/src/hid_server/hci_server.cpp:490-499 | a close takes out that socket and no other, and sends one disconnection request, other end first, exactly when this end closes an open socket |
| Signals.AllClosed | m5z700AtomHDMI/src/hid_server/hci_server.cpp:521-528 | a disconnection leaves no sockets, no handle and no signal seen, and announces every socket deleted |
| Signals.ResponseToConnect | m5z700AtomHDMI/src/hid_server/hci_server.cpp:586-603 | status 0 stores the channel and sends a configuration request for it, 1 waits, anything else closes the socket |
| Signals.RequestToConfigure | m5z700AtomHDMI/src/hid_server/hci_server.cpp:610-616 | the answer to a configuration request, byte by byte, on the channel of the socket and with the unit size asked for |
| Signals.RequestToDisconnect | m5z700AtomHDMI/src/hid_server/hci_server.cpp:618-624 | the socket named goes, the others stay, and the answer repeats both ids in their order |
| Signals.RequestForInformation | m5z700AtomHDMI/src/hid_server/hci_server.cpp:658-663 | the answer to an information request, byte by byte |
| Signals.OtherSignals | m5z700AtomHDMI/src/hid_server/hci_server.cpp:576-668 | a configuration response and every signal not handled send nothing; but for the first no socket changes |
| Signals.AcceptedAll | m5z700AtomHDMI/src/hid_server/hci_server.cpp:638-653 | every socket on the service gets the channel and answers with two packets, in the order given |
| Signals.RequestToConnect | m5z700AtomHDMI/src/hid_server/hci_server.cpp:630-656 | the whole of a connection request: answers and sockets, in ascending order of id |
| HostLaws.CloseForgets | m5z700AtomHDMI/src/hid_server/hci_server.cpp:803-809 | wherever the socket is, lookup no longer finds it, every other socket of every device is as it was, and one packet is sent exactly when this end closed it open |
| HostLaws.CloseTwice | m5z700AtomHDMI/src/hid_server/hci_server.cpp:803-809 | a second close changes nothing |
| HostLaws.DisconnectEmpties | m5z700AtomHDMI/src/hid_server/hci_server.cpp:1217-1225 | after a disconnection lookup finds none of its sockets, and every other device is as it was |
| HostLaws.ConnectedIsFound | m5z700AtomHDMI/src/hid_server/hci_server.cpp:1121-1140 | a device whose connection completed is found on its handle, as master and with its sockets, and every other device is as it was |
| HostLaws.FailedDialsAgain | m5z700AtomHDMI/src/hid_server/hci_server.cpp:1121-1140 | after a failed connection the device can dial again, with no signal seen; one in progress is left alone |
| HostLaws.FragmentsCarryHandle | m5z700AtomHDMI/src/hid_server/hci_server.cpp:1375-1384 | the handle is read back from start fragments and continuations alike |
| HostLaws.PacketReachesOne | m5z700AtomHDMI/src/hid_server/hci_server.cpp:1375-1384 | a packet changes the device on its handle and no other |
| HostLaws.ResponseCloses | m5z700AtomHDMI/src/hid_server/hci_server.cpp:626-628 | a completed disconnection response closes the socket it names second, whichever device has it |
| L2capLaws.FrameRoundTrip | m5z700AtomHDMI/src/hid_server/hci_server.cpp:671-684 | receiving undoes the framing of a sent packet |
| L2capLaws.Reassembles | m5z700AtomHDMI/src/hid_server/hci_server.cpp:531-561 | from any position the packet delivered is what was already copied, then the fragments |
| L2capLaws.FrameNeedsPosZero | m5z700AtomHDMI/src/hid_server/hci_server.cpp:531-561 | an unfragmented packet fits its buffer if and only if the device is in step |
| L2capLaws.StaleStart | m5z700AtomHDMI/src/hid_server/hci_server.cpp:536-541 | a start fragment does not restart an interrupted packet: a device in step that loses the second half of 9 9 8 8 delivers the next packet, 1 2 3 4, as 9 9 1 2 |
| L2capLaws.MessagesInOrder | m5z700AtomHDMI/src/hid_server/hci_server.cpp:531-561 | any number of packets on any channels, each fragmented anyhow: every socket ends with its own payloads, whole and in order behind what it had, as far as its ring has room |
| Handshake.HandshakeHistory | m5z700AtomHDMI/src/hid_server/hci_server.cpp:563-616 | in every run of a device, dialling and connection events included, a socket becomes open if and only if a configuration signal names it, known and not open, and since the last dialling out or disconnection the device has seen a connection response, a configuration request and a configuration response, and no connection request |
| Handshake.RunTracks | m5z700AtomHDMI/src/hid_server/hci_server.cpp:584 | over every run flag bit k + 8 is set exactly when signal k has been seen since then |
| Handshake.StepOpens | m5z700AtomHDMI/src/hid_server/hci_server.cpp:564-574 | one event opens a socket exactly when it is a configuration signal for it and the handshake was seen |
| Handshake.OpensOnDeviceFlags | m5z700AtomHDMI/src/hid_server/hci_server.cpp:605-616 | a configuration signal leaves its socket open if and only if it was open or the flags of the device complete the handshake |
| Handshake.OpensOnOwnAnswers | m5z700AtomHDMI/src/hid_server/hci_server.cpp:563-616 | a socket that opens has had its own three answers if and only if every answer heard about another socket since the last reset was heard about it as well |
| Handshake.SingleSocketHandshake | m5z700AtomHDMI/src/hid_server/hci_server.cpp:563-616 | when no answer since the last reset was about another socket, a socket opens if and only if a configuration signal names it after its own three answers and no connection request |
| Handshake.SeenSplits | m5z700AtomHDMI/src/hid_server/hci_server.cpp:584-616 | over every run each answer seen was about the socket or about another one |
| Handshake.OwnAnswersOpen | m5z700AtomHDMI/src/hid_server/hci_server.cpp:586-616 | the handshake is enough: an accepting connection response and the two configuration signals, in either order, open their socket on the channel the other end named |
| Handshake.OtherSocketOpensEarly | m5z700AtomHDMI/src/hid_server/hci_server.cpp:563-616 | with two sockets it is not so: after one has had its answers, one configuration response opens another that has had no answer of its own but that |
| Handshake.SecondSocketOpensEarly | m5z700AtomHDMI/src/hid_server/hci_server.cpp:563-616 | such a run from power-on: dial, connect, open sockets 40 and 41, four signals; 41 is open with no channel id and one answer of its own |
| BtDevice.BTDevice.Send | m5z700AtomHDMI/src/hid_server/hci_server.cpp:671-684 | the bytes of an outbound packet: type, handle, lengths, channel, payload |
| BtDevice.BTDevice.SendSignal | m5z700AtomHDMI/src/hid_server/hci_server.cpp:686-696 | a signalling command with its parameters little-endian |
| BtDevice.BTDevice.L2Open | m5z700AtomHDMI/src/hid_server/hci_server.cpp:472-488 | a new socket with its id and owner listens, or asks to connect |
| BtDevice.BTDevice.L2Close | m5z700AtomHDMI/src/hid_server/hci_server.cpp:490-499 | the other end is told only when this end closes an open socket |
| BtDevice.BTDevice.DisconnectAll | m5z700AtomHDMI/src/hid_server/hci_server.cpp:521-528 | every socket is announced deleted in id order and forgotten, and so are the signals seen |
| BtDevice.BTDevice.CreateConnection | m5z700AtomHDMI/src/hid_server/hci_server.cpp:1031-1036 | dialling out forgets the signals seen, unless a connection is there or in progress |
| BtDevice.BTDevice.CheckOpen | m5z700AtomHDMI/src/hid_server/hci_server.cpp:565-574 | open on all three answers and no inbound connection |
| BtDevice.BTDevice.AcceptAll | m5z700AtomHDMI/src/hid_server/hci_server.cpp:638-653 | every socket on the service answers, in id order, and the rest are left alone |
| BtDevice.BTDevice.Control | m5z700AtomHDMI/src/hid_server/hci_server.cpp:576-668 | every signal, with the socket the host is asked to close |
| BtDevice.BTDevice.Data | m5z700AtomHDMI/src/hid_server/hci_server.cpp:531-561 | one fragment copied in, and the packet passed on when it is whole |
| HostTable.RunKeepsTable | m5z700AtomHDMI/src/hid_server/hci_server.cpp:472-528 | over every run of the host each socket id lies between 40h and the next one to give out, belongs to one device at most, and its socket knows its id and its owner |
| HostTable.LookupFindsOwner | m5z700AtomHDMI/src/hid_server/hci_server.cpp:749-756 | from power-on, after any run, lookup by id finds exactly the device that has the socket |
| HciServer.HCI.GetDevice | m5z700AtomHDMI/src/hid_server/hci_server.cpp:732-738 | the first device with the address |
| HciServer.HCI.GetDeviceByHandle | m5z700AtomHDMI/src/hid_server/hci_server.cpp:740-747 | the first device on the handle |
| HciServer.HCI.GetDeviceBySocket | m5z700AtomHDMI/src/hid_server/hci_server.cpp:749-756 | the first device with the socket |
| HciServer.HCI.AddNewDevice | m5z700AtomHDMI/src/hid_server/hci_server.cpp:975-989 | a known address is not added again |
| HciServer.HCI.L2Open | m5z700AtomHDMI/src/hid_server/hci_server.cpp:795-801 | socket ids are given out once, in order, and none for an unknown device |
| HciServer.HCI.L2Close | m5z700AtomHDMI/src/hid_server/hci_server.cpp:803-809 | the owner closes the socket, the others are untouched |
| HciServer.HCI.AclPacket | m5z700AtomHDMI/src/hid_server/hci_server.cpp:1375-1384 | the device on the handle takes the packet; a disconnection answer it completes closes a socket wherever it is |
| HciServer.HCI.CreateConnection | m5z700AtomHDMI/src/hid_server/hci_server.cpp:1031-1036 | dialling, on the device with the address |
| HciServer.HCI.ConnectionComplete | m5z700AtomHDMI/src/hid_server/hci_server.cpp:1121-1140 | the answer to dialling: handle and master role, or no connection |
| HciServer.HCI.RoleChange | m5z700AtomHDMI/src/hid_server/hci_server.cpp:1238-1245 | the role bit of that device and nothing else |
| HciServer.HCI.DisconnectionComplete | m5z700AtomHDMI/src/hid_server/hci_server.cpp:1217-1225 | the device on the handle loses its sockets, the others are untouched |
| PacketQueue.FirstInFirstOut | m5z700AtomHDMI/src/hid_server/hci_server.cpp:330-370 | over every interleaving of reads and writes of the ring: what was accepted has been handed out or is waiting in its slots, in order, none lost, none doubled, never more than 32 waiting |
| PacketQueue.WriteIsPut | m5z700AtomHDMI/src/hid_server/hci_server.cpp:354-362 | a write through the counters puts the packet behind the others, and is refused exactly when 32 are waiting |
| PacketQueue.ReadIsTake | m5z700AtomHDMI/src/hid_server/hci_server.cpp:344-352 | a read through the counters takes the oldest packet, and fails exactly when none is waiting |
| PacketQueue.PacketQ.Read | m5z700AtomHDMI/src/hid_server/hci_server.cpp:344-352 | the oldest packet, or none when empty |
| PacketQueue.PacketQ.Write | m5z700AtomHDMI/src/hid_server/hci_server.cpp:354-362 | the packet goes last; a full queue refuses it and keeps what it has |
| PacketQueue.PacketQ.Empty | m5z700AtomHDMI/src/hid_server/hci_server.cpp:340-343 | no packet waiting |
| SdpParse.Parser.Parse | m5z700AtomHDMI/src/hid_server/hid_server.cpp:444-456 | for every list of records of any nesting depth, laid out as bytes, the reader consumes exactly those bytes, ends, and has visited every element in order |
| SdpParse.Parser.Descriptor | m5z700AtomHDMI/src/hid_server/hid_server.cpp:459-463 | the descriptor returned is the last string, in pre-order, under attribute 0206 |
| SdpRecord.FieldsAreLastStrings | m5z700AtomHDMI/src/hid_server/hid_server.cpp:325-333 | each field the reader keeps is the last string under its attribute id, 0206 for the descriptor; alternatives are skipped whole |
| SdpRecord.FixedSizes | m5z700AtomHDMI/src/hid_server/hid_server.cpp:291-297 | a size index below 5 stands for two to that power bytes |
| SdpRecord.LeafBytes | m5z700AtomHDMI/src/hid_server/hid_server.cpp:275-301 | the bytes of strings, attribute ids, truth values and nulls |
| SdpRecord.ListBytes | m5z700AtomHDMI/src/hid_server/hid_server.cpp:275-301 | the bytes of short sequences and alternatives: type, length, elements |
| SdpParse.Parser.Item | m5z700AtomHDMI/src/hid_server/hid_server.cpp:335-418 | a list consumes exactly its bytes; nested lists do not touch the current attribute |
| SdpParse.Parser.Value | m5z700AtomHDMI/src/hid_server/hid_server.cpp:348-413 | one value of any type consumes exactly its bytes, and only strings are kept |
| SdpParse.Parser.List | m5z700AtomHDMI/src/hid_server/hid_server.cpp:420-432 | a list of attribute lists, to its end |
| SdpParse.Parser.Header | m5z700AtomHDMI/src/hid_server/hid_server.cpp:285-301 | type and length of an element, as encoded |
| SdpParse.Parser.GetId16 | m5z700AtomHDMI/src/hid_server/hid_server.cpp:309-318 | the attribute id in front of a value |
| SdpParse.Parser.OnString | m5z700AtomHDMI/src/hid_server/hid_server.cpp:325-333 | the string goes to the field of the current attribute |
| SdpParse.Parser.U16 | m5z700AtomHDMI/src/hid_server/hid_server.cpp:266-269 | two bytes, the first more significant |
| SdpParse.Parser.U32 | m5z700AtomHDMI/src/hid_server/hid_server.cpp:270-273 | four bytes, the first most significant |
| SdpParse.Parser.ServiceSearch | m5z700AtomHDMI/src/hid_server/hid_server.cpp:232-250 | one request is sent, carrying the continuation |
| SdpParse.Parser.Add | m5z700AtomHDMI/src/hid_server/hid_server.cpp:466-487 | a response adds its chunk and asks for more unless it is the last |
| SdpParse.ContinuationCollects | m5z700AtomHDMI/src/hid_server/hid_server.cpp:466-487 | however a record is cut into responses, the buffer ends as the whole of it |
| SdpParse.OneRequestPerResponse | m5z700AtomHDMI/src/hid_server/hid_server.cpp:474-483 | one follow-up for each response but the last, echoing the continuation it answers |
| SdpParse.Query | m5z700AtomHDMI/src/hid_server/hid_server.cpp:252-260 | the whole reader: however the records are cut into responses, receiving them and then parsing gives the last string under attribute 0206, with one request sent per response but the last |
| SdpParse.RequestIsWellFormed | m5z700AtomHDMI/src/hid_server/hid_server.cpp:235-249 | the length field of a request counts the bytes after its 5-byte header, whatever the continuation |
| MztImage.SetMztToMemory | m5z700AtomHDMI/src/Mzmain.cpp:2110-2232 | loading ends; RAM is the bodies of the machine-code records laid over it in file order with every other byte kept, PC is the last start address (a cut-off body loads nothing but its address counts), and a record of another kind sends the file to the tape deck |
| MztImage.FileSplits | m5z700AtomHDMI/src/Mzmain.cpp:2113-2120 | every file is its machine-code records and a rest, exactly |
| MztImage.RecordsRoundTrip | m5z700AtomHDMI/src/Mzmain.cpp:2113-2120 | records laid end to end before any rest are found again |
| MztImage.LaidOverDecides | m5z700AtomHDMI/src/Mzmain.cpp:2142-2201 | records and old contents decide every byte of RAM |
| MztImage.BareOrLast | m5z700AtomHDMI/src/Mzmain.cpp:2142-2201 | every address is written by no record or has a last record over it |
| MztImage.OneRecordLoads | m5z700AtomHDMI/src/Mzmain.cpp:2113-2205 | where the header has its fields: size at 12, load address at 14 and start at 16, low byte first, for a file of one record and any short rest |
| MztImage.OtherKindGoesToDeck | m5z700AtomHDMI/src/Mzmain.cpp:2121-2136 | a file whose first record is of another kind loads nothing and goes to the tape deck |
| MztImage.ReadBody | m5z700AtomHDMI/src/Mzmain.cpp:2198 | a body replaces its stretch of RAM and nothing else |
| MztImage.SaveMztImage | m5z700AtomHDMI/src/Mzmain.cpp:2665-2703 | the saved file: header and RAM 1200-CFFF |
| MztImage.SavedIsOneRecord | m5z700AtomHDMI/src/Mzmain.cpp:2675-2697 | a saved file is one record of BDFF bytes and one byte left over |
| MztImage.SaveThenLoad | m5z700AtomHDMI/src/Mzmain.cpp:2675-2703 | loading a saved file restores 1200-CFFE and keeps every other byte, CFFF included; PC comes back with its bytes exchanged, so it comes back right if and only if they are equal |
| NameSort.SortList | m5z700AtomHDMI/src/Mzmain.cpp:2537-2556 | the passes end, and the list is the same names sorted by upper-cased name with equal names in their old order |
| NameSort.CompareIsBefore | m5z700AtomHDMI/src/Mzmain.cpp:2548 | the comparison is negative exactly when, at the first place where the names differ, the first has the smaller byte or ends |
| NameSort.UpperCaseLetters | m5z700AtomHDMI/src/Mzmain.cpp:2545-2547 | 61-7A become 41-5A and every other byte stays |
| NameSort.Pass | m5z700AtomHDMI/src/Mzmain.cpp:2541-2554 | a pass that swaps leaves fewer inversions; one that does not finds every pair of neighbours in order |
| NameSort.Exchange | m5z700AtomHDMI/src/Mzmain.cpp:2548-2552 | the two names trade places and the rest stay |
| NameSort.SwapRemovesInversion | m5z700AtomHDMI/src/Mzmain.cpp:2548-2552 | exchanging two neighbours in the wrong order removes exactly one inversion |
| NameSort.SwapKeepsKeys | m5z700AtomHDMI/src/Mzmain.cpp:2548-2552 | such an exchange keeps the order of names that read alike in upper case |
| NameSort.AdjacentSuffices | m5z700AtomHDMI/src/Mzmain.cpp:2541-2555 | neighbours in order make the whole list sorted |

## Left out

- Interrupts taken between the steps of a block instruction: the run theorems are about interrupts disabled.
- BlockInstructions.BlockMoveRun: asks that the instruction and the source block lie on memory and not on device pages, and that no store but the last hits the instruction itself; stores to devices leave memory alone and their other effects are not modelled. BlockMoveLoops and BlockMoveMeaning ask the same.
- BlockInstructions.BlockSearchRun: asks that the instruction and the bytes the search looks at lie on memory and not on device pages.
- Z80.Processor.Execute: asks that the two opcode bytes lie on memory and not on a device page; so does Z80.Processor.Ed for the second.
- T-state charges and memory waits, and wrap-around of the 32-bit T-state and packet counters; the charge of an instruction is a parameter of `Timer8253.InterruptLaw`.
- L2capLaws.FragmentsNeedPosZero: asks for a start fragment that carries at least one byte; an empty one can complete a stale packet that was already full.
- TapePager.RunRefines: asks that time does not run backwards and that no two polls are 400 words or more apart, as the reader does; `TapePager.PageReach` says exactly what one load reaches.
- TapeRoundTrip.TapeRoundTrip: asks for complete files; a body cut off by the end of the file is outside the contract of the conversion loop.
- SdpParse.Parser.Parse: asks for well-formed records; malformed or cut-off records are outside the contract of the reader.
- SdpParse.Parser.Add: the chunk is taken from the packet as received; the 512-byte limit of the receive call is not modelled.
- BtDevice.BTDevice.Data: fragments that overrun the packet, and signalling packets shorter than the parameters their handler looks at, are outside its contract.
- Handshake.RunTracks: signals 24 and above would shift past the 32-bit flag word; the model gives each signal its own bit.
- Timer8253.Timer.WriteControl: counter select 3 is outside its contract.
- MztImage.SetMztToMemory: bodies that would run past the end of RAM are outside its contract; the older "mz20" layout is not modelled.
- PacketQueue.PacketQ.Write: asks that the 32-bit write counter has not wrapped.
- Sockets as objects of their own: two references to one socket, and a packet ring shared with a reader in another thread.
- Order of packets sent by different devices, a full outbound queue, callbacks that call back into the host, and the packet kept for a device whose connection is not complete yet.
- Polling the port after a tape failed to open, when the image is already empty and the old word count still stands.
- Progress display, status text, sound, character generator, keyboard and the other memory-mapped ports.
- The remaining opcodes, inquiry, pairing, link keys and the Wiimote.
- Menus, file selection and storage devices.
