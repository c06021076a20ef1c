/** The pulse tables that start-up fills in place. */
module PwmTables {
  import opened Bytes
  import opened BitList
  import opened TapeFormat

  lemma {:induction false} ValueAppendTriple(bits: seq<bool>, one: bool)
    ensures Value(Triples(bits + [one])) == 8 * Value(Triples(bits)) + (if one then 6 else 4)
  {
    var cells := Triples(bits);
    assert (bits + [one])[..|bits|] == bits;
    assert cells + Triple(one) == cells + [true] + [one] + [false];
    ValueAppend(cells, true);
    ValueAppend(cells + [true], one);
    ValueAppend(cells + [true] + [one], false);
  }

  lemma {:induction false} ValuePrefixFits(bits: seq<bool>)
    requires |bits| <= 9
    ensures Value(Triples(bits)) < 0x800_0000
  {
    ValueBound(Triples(bits));
    Pow2Monotone(3 * |bits|, 27);
    Pow2Table();
  }

  lemma {:induction false} BitsOfAt(x: nat, n: nat, j: nat)
    requires j < n
    ensures BitsOf(x, n)[j] == (x / Pow2(n - 1 - j) % 2 == 1)
  {
    if j < n - 1 {
      BitsOfAt(x / 2, n - 1, j);
      HalveTwice(x, Pow2(n - 2 - j));
    } else {
      assert Pow2(0) == 1;
    }
  }

  lemma {:induction false} HalveTwice(x: nat, p: nat)
    requires p >= 1
    ensures x / 2 / p == x / (2 * p)
  {
    Halve(x / 2, p, x % 2);
  }

  /** pat & 0x80 after j left shifts reads bit j of the byte, most significant first. */
  lemma {:induction false} ShiftedPattern(b: Byte, j: nat)
    requires j < 8
    ensures b * Pow2(j) / 0x80 % 2 == b / Pow2(7 - j) % 2
  {
    Pow2Product(j, 7);
    assert Pow2(7) == 0x80;
    ShiftedBit(b, Pow2(j), Pow2(7 - j));
  }

  lemma {:induction false} ShiftedBit(b: nat, p: nat, q: nat)
    requires q >= 1 && p * q == 0x80
    ensures b * p / 0x80 == b / q
  {
    var h, r := b / q, b % q;
    assert b == h * q + r;
    ShiftedWord(h, q, r, p, 0x80);
    QuotientUnique(b * p, 0x80, h, r * p);
  }

  /** The start triple and the first j data triples of a byte, as a number. */
  ghost function WordSoFar(b: Byte, j: nat): nat
    requires j <= 8
  {
    Value(Triples([true] + ByteBits(b)[..j]))
  }

  ghost function OnesSoFar(b: Byte, j: nat): nat
    requires j <= 8
  {
    Count(ByteBits(b)[..j])
  }

  lemma {:induction false} RowStart(b: Byte)
    ensures WordSoFar(b, 0) == 6 && OnesSoFar(b, 0) == 0 && b * Pow2(0) == b
  {
    ValueAppendTriple([], true);
    assert [true] + ByteBits(b)[..0] == [true];
  }

  lemma {:induction false} RowEnd(b: Byte)
    ensures PwmWord(b) == WordSoFar(b, 8) * Pow2(5) && Ones(b) == OnesSoFar(b, 8)
  {
    assert ByteBits(b)[..8] == ByteBits(b);
    Pow2Table();
  }

  /** One turn of the row loop, as arithmetic. */
  lemma {:induction false} RowStep(b: Byte, j: nat)
    requires j < 8
    ensures var one := b * Pow2(j) / 0x80 % 2 == 1;
            && WordSoFar(b, j + 1) == 8 * WordSoFar(b, j) + (if one then 6 else 4) < 0x800_0000
            && OnesSoFar(b, j + 1) == OnesSoFar(b, j) + Unit(one)
            && b * Pow2(j) * 2 == b * Pow2(j + 1)
  {
    ShiftedPattern(b, j);
    BitsOfAt(b, BYTE_BITS, j);
    RowAppend(b, j);
    DoubleProduct(b, Pow2(j));
  }

  lemma {:induction false} DoubleProduct(b: nat, p: nat)
    ensures b * p * 2 == b * (2 * p)
  {
  }

  lemma {:induction false} RowAppend(b: Byte, j: nat)
    requires j < 8
    ensures WordSoFar(b, j + 1) == 8 * WordSoFar(b, j) + (if ByteBits(b)[j] then 6 else 4) < 0x800_0000
    ensures OnesSoFar(b, j + 1) == OnesSoFar(b, j) + Unit(ByteBits(b)[j])
  {
    var bits := ByteBits(b);
    ValueAppendTriple([true] + bits[..j], bits[j]);
    ValuePrefixFits([true] + bits[..j + 1]);
    assert [true] + bits[..j + 1] == [true] + bits[..j] + [bits[j]];
    assert bits[..j + 1][..j] == bits[..j];
  }

  /** The bits of a byte by weight, the heaviest first. */
  lemma {:induction false} BitsByWeight(b: Byte)
    ensures var bits := ByteBits(b);
            && bits[0] == (b / 0x80 % 2 == 1) && bits[1] == (b / 0x40 % 2 == 1)
            && bits[2] == (b / 0x20 % 2 == 1) && bits[3] == (b / 0x10 % 2 == 1)
            && bits[4] == (b / 8 % 2 == 1) && bits[5] == (b / 4 % 2 == 1)
            && bits[6] == (b / 2 % 2 == 1) && bits[7] == (b % 2 == 1)
  {
    hide BitsOf;
    assert Pow2(0) == 1 && Pow2(1) == 2 && Pow2(2) == 4 && Pow2(3) == 8;
    assert Pow2(4) == 0x10 && Pow2(5) == 0x20 && Pow2(6) == 0x40 && Pow2(7) == 0x80;
    BitsOfAt(b, 8, 0);
    BitsOfAt(b, 8, 1);
    BitsOfAt(b, 8, 2);
    BitsOfAt(b, 8, 3);
    BitsOfAt(b, 8, 4);
    BitsOfAt(b, 8, 5);
    BitsOfAt(b, 8, 6);
    BitsOfAt(b, 8, 7);
  }

  /** A byte counts for the checksum what its eight bits add up to. */
  lemma {:induction false} OnesAreBits(b: Byte)
    ensures var bits := ByteBits(b);
            Ones(b) == Unit(bits[0]) + Unit(bits[1]) + Unit(bits[2]) + Unit(bits[3])
                       + Unit(bits[4]) + Unit(bits[5]) + Unit(bits[6]) + Unit(bits[7])
  {
    hide ByteBits, OnesSoFar, Ones, PwmWord, WordSoFar, Unit, Pow2;
    RowStart(b);
    RowAppend(b, 0);
    RowAppend(b, 1);
    RowAppend(b, 2);
    RowAppend(b, 3);
    RowAppend(b, 4);
    RowAppend(b, 5);
    RowAppend(b, 6);
    RowAppend(b, 7);
    RowEnd(b);
  }

  class Tables {
    const leader1: array<Word32>
    const leader2: array<Word32>
    const pwmTable: array2<Word32>

    ghost predicate Shape() {
      leader1.Length == LEADER1 && leader2.Length == LEADER2 && leader1 != leader2 &&
      pwmTable.Length0 == 256 && pwmTable.Length1 == 3
    }

    ghost predicate RowBuilt(i: Byte)
      requires Shape()
      reads pwmTable
    {
      pwmTable[i, 0] == CELLS && pwmTable[i, 1] == PwmWord(i) && pwmTable[i, 2] == Ones(i)
    }

    ghost predicate Built()
      reads leader1, leader2, pwmTable
    {
      && Shape()
      && (forall i :: 0 <= i < LEADER1 ==> leader1[i] == Leader1()[i])
      && (forall i :: 0 <= i < LEADER2 ==> leader2[i] == Leader2()[i])
      && (forall i: Byte :: RowBuilt(i))
    }

    constructor ()
      ensures Shape() && fresh(leader1) && fresh(leader2) && fresh(pwmTable)
    {
      leader1 := new Word32[LEADER1];
      leader2 := new Word32[LEADER2];
      pwmTable := new Word32[256, 3];
    }

    method MakePwm()
      requires Shape()
      modifies leader1, leader2, pwmTable
      ensures Built()
    {
      MakeLeader1();
      MakeLeader2();
      var i := 0;
      while i < 256
        invariant 0 <= i <= 256
        invariant leader1[..] == Leader1() && leader2[..] == Leader2()
        invariant forall k: Byte :: k < i ==> RowBuilt(k)
      {
        label Row:
        ghost var before := i;
        MakeRow(i);
        i := i + 1;
        assert forall k: Byte :: k < before ==> old@Row(RowBuilt(k)) ==> RowBuilt(k);
      }
    }

    method MakeLeader1()
      requires Shape()
      modifies leader1
      ensures leader1[..] == Leader1()
    {
      var i := 0;
      while i < 441
        invariant 0 <= i <= 442 && i % 2 == 0
        invariant leader1[..i] == Alternate(i)
      {
        leader1[i] := 0xAAAA_AAA0;
        leader1[i + 1] := 0x5555_5540;
        i := i + 2;
      }
      leader1[442] := 0xAAAD_B6C0;
      leader1[443] := 0xDB6D_B6C0;
      leader1[444] := 0xDB6D_B6C0;
      leader1[445] := 0xDB6D_B6C0;
      leader1[446] := 0x6DB6_DB40;
      leader1[447] := 0xAAAA_AAA0;
      leader1[448] := 0x5555_5540;
      leader1[449] := 0xAAAA_AAC0;
      assert leader1[..442] == Alternate(442);
    }

    method MakeLeader2()
      requires Shape()
      modifies leader2
      ensures leader2[..] == Leader2()
    {
      var i := 0;
      while i < 432
        invariant 0 <= i <= 432 && i % 2 == 0
        invariant leader2[..i] == Alternate(i)
      {
        leader2[i] := 0xAAAA_AAA0;
        leader2[i + 1] := 0x5555_5540;
        i := i + 2;
      }
      leader2[432] := 0xAAAA_AAA0;
      leader2[433] := 0x56DB_6DA0;
      leader2[434] := 0xB6DB_6DA0;
      leader2[435] := 0xB6D5_5540;
      leader2[436] := 0xAAAA_AAC0;
      assert leader2[..432] == Alternate(432);
    }

    /** One byte: shift its bits out from the top, gluing a triple for each. */
    method MakeRow(i: Byte)
      requires Shape()
      modifies pwmTable
      ensures RowBuilt(i)
      ensures forall k, c :: 0 <= k < 256 && 0 <= c < 3 && k != i ==> pwmTable[k, c] == old(pwmTable[k, c])
    {
      hide Pow2, WordSoFar, OnesSoFar, PwmWord, Ones;
      var pat: nat := i;
      pwmTable[i, 0] := 3;
      pwmTable[i, 1] := 6;
      pwmTable[i, 2] := 0;
      RowStart(i);
      var j := 0;
      while j < 8
        invariant 0 <= j <= 8 && pat == i * Pow2(j) && pwmTable[i, 0] == 3 + 3 * j
        invariant pwmTable[i, 1] == WordSoFar(i, j) && pwmTable[i, 2] == OnesSoFar(i, j) <= j
        invariant forall k, c :: 0 <= k < 256 && 0 <= c < 3 && k != i ==> pwmTable[k, c] == old(pwmTable[k, c])
      {
        RowStep(i, j);
        if pat / 0x80 % 2 == 1 {
          pwmTable[i, 1] := 6 + pwmTable[i, 1] * 8;
          pwmTable[i, 2] := pwmTable[i, 2] + 1;
        } else {
          pwmTable[i, 1] := 4 + pwmTable[i, 1] * 8;
        }
        pwmTable[i, 0] := pwmTable[i, 0] + 3;
        pat := pat * 2;
        j := j + 1;
      }
      RowEnd(i);
      pwmTable[i, 1] := pwmTable[i, 1] * Pow2(32 - pwmTable[i, 0]);
    }
  }
}
