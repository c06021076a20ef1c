/** Machine integers and the little-endian layout shared by the whole model. */
module Bytes {
  type Byte = b: int | 0 <= b < 0x100
  type Word16 = w: int | 0 <= w < 0x1_0000
  type Word32 = w: int | 0 <= w < 0x1_0000_0000

  datatype Option<+T> = None | Some(value: T)

  function Low(w: int): Byte { w % 0x100 }

  function High(w: int): Byte { w / 0x100 % 0x100 }

  function Word(low: Byte, high: Byte): Word16 { low + 0x100 * high }

  /** Bit k of x, the C expression (x >> k) & 1, for the bits the model needs. */
  predicate Bit(x: nat, weight: nat)
    requires weight > 0
  {
    x / weight % 2 == 1
  }

  /** Four bytes of a 32-bit word, least significant first. */
  function Le32(w: Word32): (s: seq<Byte>)
    ensures |s| == 4
  {
    [w % 0x100, w / 0x100 % 0x100, w / 0x1_0000 % 0x100, w / 0x100_0000 % 0x100]
  }

  function FromLe32(b0: Byte, b1: Byte, b2: Byte, b3: Byte): Word32 {
    b0 + 0x100 * b1 + 0x1_0000 * b2 + 0x100_0000 * b3
  }

  lemma {:induction false} Le32RoundTrip(w: Word32)
    ensures var s := Le32(w); FromLe32(s[0], s[1], s[2], s[3]) == w
  {
    var q1 := w / 0x100;
    var q2 := q1 / 0x100;
    ShiftTwice(w);
    ShiftTwice(q1);
    assert w / 0x100_0000 == w / 0x1_0000 / 0x100;
    assert w == w % 0x100 + 0x100 * (q1 % 0x100 + 0x100 * (q2 % 0x100 + 0x100 * (q2 / 0x100)));
  }

  lemma {:induction false} ShiftTwice(x: nat)
    ensures x / 0x100 / 0x100 == x / 0x1_0000
  {
  }

  /** A word sequence as the file stores it. */
  function Le32All(ws: seq<Word32>): (s: seq<Byte>)
    ensures |s| == 4 * |ws|
  {
    if ws == [] then [] else Le32All(ws[..|ws| - 1]) + Le32(ws[|ws| - 1])
  }

  lemma {:induction false} Le32AllAppend(ws: seq<Word32>, w: Word32)
    ensures Le32All(ws + [w]) == Le32All(ws) + Le32(w)
  {
    assert (ws + [w])[..|ws|] == ws;
  }

  lemma {:induction false} Le32AllAt(ws: seq<Word32>, i: nat)
    requires i < |ws|
    ensures Le32All(ws)[4 * i..4 * i + 4] == Le32(ws[i])
  {
    var n := |ws| - 1;
    if i < n {
      Le32AllAt(ws[..n], i);
    }
  }

  /** Reading four stored bytes gives the word back. */
  lemma {:induction false} StoredWord(ws: seq<Word32>, i: nat)
    requires i < |ws|
    ensures var s := Le32All(ws);
            FromLe32(s[4 * i], s[4 * i + 1], s[4 * i + 2], s[4 * i + 3]) == ws[i]
  {
    hide Le32All, Le32, FromLe32;
    Le32AllAt(ws, i);
    Le32RoundTrip(ws[i]);
    var s := Le32All(ws);
    var t := s[4 * i..4 * i + 4];
    assert t[0] == s[4 * i] && t[1] == s[4 * i + 1] && t[2] == s[4 * i + 2] && t[3] == s[4 * i + 3];
  }
}

/** Bit lists, most significant bit first, and the numbers they write. */
module BitList {
  import opened Bytes

  function Pow2(n: nat): (p: nat)
    ensures p >= 1
  {
    if n == 0 then 1 else 2 * Pow2(n - 1)
  }

  lemma {:induction false} Pow2Table()
    ensures Pow2(5) == 0x20 && Pow2(8) == 0x100 && Pow2(27) == 0x800_0000 && Pow2(31) == 0x8000_0000
  {
    assert Pow2(8) == 0x100;
    assert Pow2(16) == 0x1_0000;
    assert Pow2(24) == 0x100_0000;
  }

  lemma {:induction false} Pow2Monotone(m: nat, n: nat)
    requires m <= n
    ensures Pow2(m) <= Pow2(n)
  {
    if m < n { Pow2Monotone(m, n - 1); }
  }

  function Unit(b: bool): nat { if b then 1 else 0 }

  function Value(bs: seq<bool>): nat {
    if bs == [] then 0 else 2 * Value(bs[..|bs| - 1]) + Unit(bs[|bs| - 1])
  }

  lemma {:induction false} ValueAppend(bs: seq<bool>, b: bool)
    ensures Value(bs + [b]) == 2 * Value(bs) + Unit(b)
  {
    assert (bs + [b])[..|bs|] == bs;
  }

  lemma {:induction false} ValueBound(bs: seq<bool>)
    ensures Value(bs) < Pow2(|bs|)
  {
    if bs != [] { ValueBound(bs[..|bs| - 1]); }
  }

  lemma {:induction false} Halve(v: nat, p: nat, bit: nat)
    requires p >= 1 && bit < 2
    ensures (2 * v + bit) / (2 * p) == v / p
  {
    var q, r := v / p, v % p;
    assert v == q * p + r;
    assert 2 * v + bit == q * (2 * p) + (2 * r + bit);
    QuotientUnique(2 * v + bit, 2 * p, q, 2 * r + bit);
  }

  lemma {:induction false} QuotientUnique(a: nat, d: nat, q: nat, r: nat)
    requires d >= 1 && r < d && a == q * d + r
    ensures a / d == q && a % d == r
  {
    var e := a / d - q;
    assert e * d == r - a % d;
    MultipleIsFar(e, d);
  }

  lemma {:induction false} MultipleIsFar(e: int, d: nat)
    ensures e >= 1 ==> e * d >= d
    ensures e <= -1 ==> e * d + d <= 0
  {
    assert (e - 1) * d == e * d - d && (e + 1) * d == e * d + d;
  }

  /** Bit k of a written list is its k-th entry. */
  lemma {:induction false} ValueBit(bs: seq<bool>, k: nat)
    requires k < |bs|
    ensures Value(bs) / Pow2(|bs| - 1 - k) % 2 == Unit(bs[k])
  {
    var n := |bs| - 1;
    if k < n {
      ValueBit(bs[..n], k);
      var v, p := Value(bs[..n]), Pow2(n - 1 - k);
      var whole, weight := Value(bs), Pow2(n - k);
      assert whole == 2 * v + Unit(bs[n]) && weight == 2 * p && bs[..n][k] == bs[k];
      hide Value, Pow2;
      Halve(v, p, Unit(bs[n]));
    } else {
      assert Pow2(0) == 1;
    }
  }

  /** The n low bits of x, most significant first. */
  function BitsOf(x: nat, n: nat): (bs: seq<bool>)
    ensures |bs| == n
  {
    if n == 0 then [] else BitsOf(x / 2, n - 1) + [x % 2 == 1]
  }

  lemma {:induction false} BitsOfValue(x: nat, n: nat)
    requires x < Pow2(n)
    ensures Value(BitsOf(x, n)) == x
  {
    if n > 0 {
      BitsOfValue(x / 2, n - 1);
      assert BitsOf(x, n)[..n - 1] == BitsOf(x / 2, n - 1);
    }
  }

  function Count(bs: seq<bool>): nat {
    if bs == [] then 0 else Count(bs[..|bs| - 1]) + Unit(bs[|bs| - 1])
  }
}
