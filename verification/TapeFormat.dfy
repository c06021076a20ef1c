/**
 * The pulse-width tape image: what each 32-bit word carries, and the word stream a
 * tape file turns into.  A word holds 27 cells, most significant bit first, so a byte
 * is a start triple followed by eight triples, 110 for a one and 100 for a zero.
 */
module TapeFormat {
  import opened Bytes
  import opened BitList
  import opened MztRecord

  const CELLS: nat := 27
  const LEADER1: nat := 450
  const LEADER2: nat := 437
  const BYTE_BITS: nat := 8
  const STOP: Word32 := 0xC000_0000

  function Triple(one: bool): (t: seq<bool>)
    ensures |t| == 3 && t[1] == one
  {
    [true, one, false]
  }

  function Triples(bits: seq<bool>): (cells: seq<bool>)
    ensures |cells| == 3 * |bits|
  {
    if bits == [] then [] else Triples(bits[..|bits| - 1]) + Triple(bits[|bits| - 1])
  }

  function ByteBits(b: Byte): (bits: seq<bool>)
    ensures |bits| == 8
  {
    BitsOf(b, BYTE_BITS)
  }

  function PwmCells(b: Byte): (cells: seq<bool>)
    ensures |cells| == CELLS
  {
    Triples([true] + ByteBits(b))
  }

  /** The word of a byte: its 27 cells left-aligned in 32 bits. */
  function PwmWord(b: Byte): Word32 {
    ValueBound(PwmCells(b));
    Pow2Table();
    32 * Value(PwmCells(b))
  }

  function Ones(b: Byte): nat { Count(ByteBits(b)) }

  /** Cell c of a word: the test (w << c) & 0x80000000 in 32-bit arithmetic. */
  predicate Cell(w: Word32, c: nat)
    requires c < CELLS
  {
    w * Pow2(c) % 0x1_0000_0000 / 0x8000_0000 == 1
  }

  lemma {:induction false} Pow2Product(c: nat, n: nat)
    requires c <= n
    ensures Pow2(c) * Pow2(n - c) == Pow2(n)
  {
    if c > 0 {
      Pow2Product(c - 1, n - 1);
      var p, q := Pow2(c - 1), Pow2(n - c);
      assert Pow2(c) == 2 * p && Pow2(n) == 2 * Pow2(n - 1) && p * q == Pow2(n - 1);
      hide Pow2;
      DoubleFactor(p, q);
    }
  }

  lemma {:induction false} DoubleFactor(p: nat, q: nat)
    ensures 2 * p * q == 2 * (p * q)
  {
  }

  /** Shifting left by c and testing the top bit reads bit 31-c. */
  lemma {:induction false} CellIsBit(w: Word32, c: nat)
    requires c < CELLS
    ensures Cell(w, c) <==> w / Pow2(31 - c) % 2 == 1
  {
    var p, q := Pow2(c), Pow2(31 - c);
    Pow2Product(c, 31);
    Pow2Table();
    ShiftedTopBit(w, p, q);
  }

  lemma {:induction false} ShiftedTopBit(w: nat, p: nat, q: nat)
    requires q >= 1 && p * q == 0x8000_0000
    ensures w * p % 0x1_0000_0000 / 0x8000_0000 == w / q % 2
  {
    var h, r := w / q, w % q;
    assert w == h * q + r;
    ShiftedWord(h, q, r, p, 0x8000_0000);
    TopBit(w * p, h / 2, h % 2, r * p);
  }

  lemma {:induction false} ShiftedWord(h: nat, q: nat, r: nat, p: nat, k: nat)
    requires p * q == k && r < q && k > 0
    ensures (h * q + r) * p == h * k + r * p
    ensures r * p < k
  {
    Distribute(h * q, r, p);
    Associate(h, q, p);
    Distribute(q - r, r, p);
    MultipleGrows(q - r, p);
  }

  lemma {:induction false} Distribute(a: int, b: int, p: int)
    ensures (a + b) * p == a * p + b * p
  {
  }

  lemma {:induction false} Associate(a: int, b: int, c: int)
    ensures a * b * c == a * (c * b)
  {
  }

  lemma {:induction false} MultipleGrows(k: nat, p: nat)
    requires k >= 1
    ensures k * p >= p
  {
    assert (k - 1) * p + p == k * p;
  }

  lemma {:induction false} TopBit(x: nat, a: nat, bit: nat, r: nat)
    requires bit < 2 && r < 0x8000_0000 && x == a * 0x1_0000_0000 + bit * 0x8000_0000 + r
    ensures x % 0x1_0000_0000 / 0x8000_0000 == bit
  {
  }

  /** A left-aligned cell list is read back cell by cell. */
  lemma {:induction false} CellOfValue(cells: seq<bool>, c: nat)
    requires |cells| == CELLS && c < CELLS
    ensures Value(cells) < 0x800_0000
    ensures Cell(32 * Value(cells), c) <==> cells[c]
  {
    ValueBound(cells);
    Pow2Table();
    CellIsBit(32 * Value(cells), c);
    ValueBit(cells, c);
    Pow2Product(5, 31 - c);
    LeftAligned(Value(cells), Pow2(26 - c));
  }

  lemma {:induction false} LeftAligned(v: nat, q: nat)
    requires q >= 1
    ensures 32 * v / (32 * q) == v / q
  {
    var h, r := v / q, v % q;
    assert v == h * q + r;
    assert h * (32 * q) == 32 * (h * q);
    QuotientUnique(32 * v, 32 * q, h, 32 * r);
  }

  lemma {:induction false} TriplesAt(bits: seq<bool>, j: nat)
    requires j < |bits|
    ensures Triples(bits)[3 * j..3 * j + 3] == Triple(bits[j])
  {
    var n := |bits| - 1;
    if j < n { TriplesAt(bits[..n], j); }
  }

  /** The middle cells of the eight data triples are the bits of the byte. */
  lemma {:induction false} PwmMiddle(b: Byte, j: nat)
    requires j < 8
    ensures Cell(PwmWord(b), 3 * j + 4) == ByteBits(b)[j]
  {
    CellOfValue(PwmCells(b), 3 * j + 4);
    var bits := [true] + ByteBits(b);
    TriplesAt(bits, j + 1);
    assert Triples(bits)[3 * (j + 1)..3 * (j + 1) + 3][1] == Triples(bits)[3 * j + 4];
  }

  // ---- leaders -----------------------------------------------------------------

  function Alternate(n: nat): (ws: seq<Word32>)
    ensures |ws| == n
  {
    seq(n, i => if i % 2 == 0 then 0xAAAA_AAA0 else 0x5555_5540)
  }

  function FirstMark(): (ws: seq<Word32>)
    ensures |ws| == 8
  {
    [0xAAAD_B6C0, 0xDB6D_B6C0, 0xDB6D_B6C0, 0xDB6D_B6C0, 0x6DB6_DB40, 0xAAAA_AAA0, 0x5555_5540, 0xAAAA_AAC0]
  }

  function SecondMark(): (ws: seq<Word32>)
    ensures |ws| == 5
  {
    [0xAAAA_AAA0, 0x56DB_6DA0, 0xB6DB_6DA0, 0xB6D5_5540, 0xAAAA_AAC0]
  }

  function Leader1(): (ws: seq<Word32>)
    ensures |ws| == LEADER1
  {
    Alternate(442) + FirstMark()
  }

  function Leader2(): (ws: seq<Word32>)
    ensures |ws| == LEADER2
  {
    Alternate(432) + SecondMark()
  }

  // ---- blocks and tapes --------------------------------------------------------

  function Checksum(bs: seq<Byte>): nat {
    if bs == [] then 0 else Checksum(bs[..|bs| - 1]) + Ones(bs[|bs| - 1])
  }

  function PwmWords(bs: seq<Byte>): (ws: seq<Word32>)
    ensures |ws| == |bs|
  {
    seq(|bs|, i requires 0 <= i < |bs| => PwmWord(bs[i]))
  }

  /** Data words, the checksum high byte first, and the stop mark. */
  function BlockWords(bs: seq<Byte>): (ws: seq<Word32>)
    ensures |ws| == |bs| + 3
  {
    PwmWords(bs) + [PwmWord(High(Checksum(bs))), PwmWord(Low(Checksum(bs))), STOP]
  }

  /** Every header in the file is followed by the whole body it announces. */
  ghost predicate Complete(file: seq<Byte>)
    decreases |file|
  {
    |file| < HEADER ||
    (HEADER + SizeOf(file) <= |file| && Complete(file[HEADER + SizeOf(file)..]))
  }

  /** What follows the first leader of a record. */
  function RecordWords(header: seq<Byte>, body: seq<Byte>): (ws: seq<Word32>)
    ensures |ws| == |header| + 3 + LEADER2 + |body| + 3
  {
    BlockWords(header) + Leader2() + BlockWords(body)
  }

  /** The word stream of a tape file: one more leader is written before the end is noticed. */
  ghost function TapeWords(file: seq<Byte>): (ws: seq<Word32>)
    requires Complete(file)
    ensures |ws| >= LEADER1
    decreases |file|
  {
    if |file| < HEADER then Leader1()
    else
      var end := HEADER + SizeOf(file);
      Leader1() + RecordWords(file[..HEADER], file[HEADER..end]) + TapeWords(file[end..])
  }

  ghost function Records(file: seq<Byte>): seq<Record>
    requires Complete(file)
    decreases |file|
  {
    if |file| < HEADER then []
    else
      var end := HEADER + SizeOf(file);
      [Record(file[..HEADER], file[HEADER..end])] + Records(file[end..])
  }

  lemma {:induction false} FileOfIsComplete(rs: seq<Record>, tail: seq<Byte>)
    requires |tail| < HEADER && forall i :: 0 <= i < |rs| ==> ValidRecord(rs[i])
    ensures Complete(FileOf(rs, tail)) && Records(FileOf(rs, tail)) == rs
  {
    if rs != [] {
      FileOfIsComplete(rs[1..], tail);
      var file := FileOf(rs, tail);
      var end := HEADER + SizeOf(file);
      assert file[..HEADER] == rs[0].header && file[HEADER..end] == rs[0].body;
      assert file[end..] == FileOf(rs[1..], tail);
    }
  }
}
