/**
 * The tape as a wave: runs of high cells are pulses, one cell high is short and two are long.
 * What the words of the leaders, of a byte and of a whole tape are as pulses.
 */
module TapeWave {
  import opened Bytes
  import opened BitList
  import opened MztRecord
  import opened TapeFormat
  import opened PwmTables

  const SHORT: nat := 1
  const LONG: nat := 2

  // ---- from cells to pulses ------------------------------------------------------------

  /** The pulses that have ended, and how many cells the line has been high. */
  datatype Wave = Wave(runs: seq<nat>, open: nat)

  function Tick(s: Wave, high: bool): Wave {
    if high then s.(open := s.open + 1)
    else if s.open > 0 then Wave(s.runs + [s.open], 0)
    else s
  }

  function Feed(s: Wave, cells: seq<bool>): Wave {
    if cells == [] then s else Tick(Feed(s, cells[..|cells| - 1]), cells[|cells| - 1])
  }

  lemma {:induction false} FeedAppend(s: Wave, a: seq<bool>, b: seq<bool>)
    ensures Feed(s, a + b) == Feed(Feed(s, a), b)
    decreases |b|
  {
    hide Tick;
    if b == [] {
      assert a + b == a;
    } else {
      var n := |b| - 1;
      assert (a + b)[..|a| + n] == a + b[..n];
      FeedAppend(s, a, b[..n]);
    }
  }

  lemma {:induction false} FeedThree(s: Wave, x: bool, y: bool, z: bool)
    ensures Feed(s, [x, y, z]) == Tick(Tick(Tick(s, x), y), z)
  {
    hide Tick;
    assert [x, y, z][..2] == [x, y] && [x, y][..1] == [x] && [x][..0] == [];
    assert Feed(s, [x]) == Tick(s, x);
    assert Feed(s, [x, y]) == Tick(Feed(s, [x]), y);
  }

  // ---- the cells of words ---------------------------------------------------------------

  function CellsOf(w: Word32): (cells: seq<bool>)
    ensures |cells| == CELLS
  {
    seq(CELLS, c requires 0 <= c < CELLS => Cell(w, c))
  }

  function FeedWords(s: Wave, ws: seq<Word32>): Wave {
    if ws == [] then s else Feed(FeedWords(s, ws[..|ws| - 1]), CellsOf(ws[|ws| - 1]))
  }

  function AllCells(ws: seq<Word32>): (cells: seq<bool>)
    ensures |cells| == CELLS * |ws|
  {
    if ws == [] then [] else AllCells(ws[..|ws| - 1]) + CellsOf(ws[|ws| - 1])
  }

  lemma {:induction false} AllCellsAt(ws: seq<Word32>, k: nat)
    requires k < CELLS * |ws|
    ensures AllCells(ws)[k] == Cell(ws[k / CELLS], k % CELLS)
    decreases |ws|
  {
    hide Cell;
    var n := |ws| - 1;
    if k < CELLS * n { AllCellsAt(ws[..n], k); }
  }

  lemma {:induction false} FeedAllCells(s: Wave, ws: seq<Word32>)
    ensures Feed(s, AllCells(ws)) == FeedWords(s, ws)
    decreases |ws|
  {
    hide CellsOf, Feed;
    if ws == [] {
      assert Feed(s, []) == s by { FeedNothing(s); }
    } else {
      FeedAllCells(s, ws[..|ws| - 1]);
      FeedAppend(s, AllCells(ws[..|ws| - 1]), CellsOf(ws[|ws| - 1]));
    }
  }

  lemma {:induction false} FeedNothing(s: Wave)
    ensures Feed(s, []) == s
  {
  }

  lemma {:induction false} FeedWordsAppend(s: Wave, a: seq<Word32>, b: seq<Word32>)
    ensures FeedWords(s, a + b) == FeedWords(FeedWords(s, a), b)
    decreases |b|
  {
    hide CellsOf, Feed;
    if b == [] {
      assert a + b == a;
    } else {
      var n := |b| - 1;
      assert (a + b)[..|a| + n] == a + b[..n];
      FeedWordsAppend(s, a, b[..n]);
    }
  }

  lemma {:induction false} FeedOneWord(s: Wave, w: Word32)
    ensures FeedWords(s, [w]) == Feed(s, CellsOf(w)) && FeedWords(s, []) == s
  {
    hide CellsOf, Feed;
    assert [w][..0] == [];
    assert FeedWords(s, []) == s;
  }

  // ---- words written in octal: three cells to a digit --------------------------------------

  function Digit(s: Wave, d: nat): Wave {
    Tick(Tick(Tick(s, d / 4 % 2 == 1), d / 2 % 2 == 1), d % 2 == 1)
  }

  lemma {:induction false} CellsAreBits(w: Word32)
    ensures CellsOf(w) == BitsOf(w / 32, CELLS)
  {
    hide Cell, BitsOf;
    forall c | 0 <= c < CELLS ensures CellsOf(w)[c] == BitsOf(w / 32, CELLS)[c] {
      CellIsBit(w, c);
      BitsOfAt(w / 32, CELLS, c);
      Pow2Product(5, 31 - c);
      Pow2Table();
      DivideTwice(w, Pow2(26 - c));
    }
  }

  lemma {:induction false} DivideTwice(w: nat, p: nat)
    requires p >= 1
    ensures w / 32 / p == w / (32 * p)
  {
    var a, b := w / 32, w % 32;
    var q, r := a / p, a % p;
    assert a == q * p + r && w == 32 * a + b;
    assert w == q * (32 * p) + (32 * r + b) by { assert q * (32 * p) == 32 * (q * p); }
    QuotientUnique(w, 32 * p, q, 32 * r + b);
  }

  lemma {:induction false} OctalStep(s: Wave, x: nat, d: nat, n: nat)
    requires d < 8
    ensures Feed(s, BitsOf(8 * x + d, n + 3)) == Digit(Feed(s, BitsOf(x, n)), d)
  {
    hide Tick;
    var y := 8 * x + d;
    assert y / 2 / 2 / 2 == x && y % 2 == d % 2 && y / 2 % 2 == d / 2 % 2 && y / 2 / 2 % 2 == d / 4 % 2;
    var b2, b1, b0 := d / 4 % 2 == 1, d / 2 % 2 == 1, d % 2 == 1;
    assert BitsOf(y / 2 / 2, n + 1) == BitsOf(x, n) + [b2];
    assert BitsOf(y / 2, n + 2) == BitsOf(x, n) + [b2] + [b1];
    assert BitsOf(y, n + 3) == BitsOf(x, n) + [b2, b1, b0];
    FeedAppend(s, BitsOf(x, n), [b2, b1, b0]);
    FeedThree(Feed(s, BitsOf(x, n)), b2, b1, b0);
  }

  /** A word given by its nine octal digits. */
  ghost predicate Octal(w: Word32, ds: seq<nat>) {
    && |ds| == 9 && (forall i :: 0 <= i < 9 ==> ds[i] < 8)
    && w / 32 == 0x100_0000 * ds[0] + 0x20_0000 * ds[1] + 0x4_0000 * ds[2] + 0x8000 * ds[3] + 0x1000 * ds[4]
                 + 0x200 * ds[5] + 0x40 * ds[6] + 8 * ds[7] + ds[8]
  }

  function Digits(s: Wave, ds: seq<nat>): Wave
    decreases |ds|
  {
    if ds == [] then s else Digits(Digit(s, ds[0]), ds[1..])
  }

  function Horner(x: nat, ds: seq<nat>): nat
    decreases |ds|
  {
    if ds == [] then x else Horner(8 * x + ds[0], ds[1..])
  }

  lemma {:induction false} DigitsFeed(s: Wave, x: nat, n: nat, ds: seq<nat>)
    requires forall i :: 0 <= i < |ds| ==> ds[i] < 8
    ensures Feed(s, BitsOf(Horner(x, ds), n + 3 * |ds|)) == Digits(Feed(s, BitsOf(x, n)), ds)
    decreases |ds|
  {
    hide Digit, Feed, BitsOf;
    if ds != [] {
      OctalStep(s, x, ds[0], n);
      DigitsFeed(s, 8 * x + ds[0], n + 3, ds[1..]);
    }
  }

  lemma {:induction false} FeedOctal(s: Wave, w: Word32, ds: seq<nat>)
    requires Octal(w, ds)
    ensures Feed(s, CellsOf(w)) == Digits(s, ds)
  {
    hide Feed, CellsOf, Digit, Digits;
    CellsAreBits(w);
    HornerNine(ds);
    DigitsFeed(s, 0, 0, ds);
    FeedNothing(s);
    assert BitsOf(0, 0) == [];
  }

  lemma {:induction false} HornerNine(ds: seq<nat>)
    requires |ds| == 9
    ensures Horner(0, ds) == 0x100_0000 * ds[0] + 0x20_0000 * ds[1] + 0x4_0000 * ds[2] + 0x8000 * ds[3] + 0x1000 * ds[4]
                             + 0x200 * ds[5] + 0x40 * ds[6] + 8 * ds[7] + ds[8]
  {
    HornerThree(0, ds);
    var x := Horner3(0, ds);
    HornerThree(x, ds[3..]);
    var y := Horner3(x, ds[3..]);
    assert ds[3..][3..] == ds[6..];
    HornerThree(y, ds[6..]);
    assert ds[6..][3..] == [];
    assert ds[3..][0] == ds[3] && ds[3..][1] == ds[4] && ds[3..][2] == ds[5];
    assert ds[6..][0] == ds[6] && ds[6..][1] == ds[7] && ds[6..][2] == ds[8];
  }

  function Horner3(x: nat, ds: seq<nat>): nat
    requires |ds| >= 3
  {
    0x200 * x + 0x40 * ds[0] + 8 * ds[1] + ds[2]
  }

  lemma {:induction false} HornerThree(x: nat, ds: seq<nat>)
    requires |ds| >= 3
    ensures Horner(x, ds) == Horner(Horner3(x, ds), ds[3..])
  {
    var a := 8 * x + ds[0];
    var b := 8 * a + ds[1];
    assert ds[1..][1..] == ds[2..] && ds[2..][1..] == ds[3..];
    assert Horner(x, ds) == Horner(a, ds[1..]);
    assert Horner(a, ds[1..]) == Horner(b, ds[2..]);
    assert Horner(b, ds[2..]) == Horner(8 * b + ds[2], ds[3..]);
  }

  // ---- the words of the leaders -------------------------------------------------------------

  function Rep(n: nat, v: nat): (r: seq<nat>)
    ensures |r| == n
  {
    seq(n, _ => v)
  }

  /** k more pulses of length v. */
  function More(r: seq<nat>, k: nat, v: nat): seq<nat> { r + Rep(k, v) }

  lemma {:induction false} MoreMore(r: seq<nat>, a: nat, b: nat, v: nat)
    ensures More(More(r, a, v), b, v) == More(r, a + b, v)
  {
  }

  /** What a digit adds, for the digits and the states the leaders have. */
  lemma {:induction false} DigitTable(r: seq<nat>)
    ensures Digit(Wave(r, 0), 5) == Wave(More(r, 1, SHORT), 1) && Digit(Wave(r, 1), 5) == Wave(More(r, 1, LONG), 1)
    ensures Digit(Wave(r, 0), 2) == Wave(More(r, 1, SHORT), 0) && Digit(Wave(r, 1), 2) == Wave(More(r, 2, SHORT), 0)
    ensures Digit(Wave(r, 2), 2) == Wave(More(More(r, 1, LONG), 1, SHORT), 0)
    ensures Digit(Wave(r, 0), 6) == Wave(More(r, 1, LONG), 0)
    ensures Digit(Wave(r, 0), 3) == Wave(r, 2) && Digit(Wave(r, 2), 3) == Wave(More(r, 1, LONG), 2)
  {
    assert Rep(1, SHORT) == [SHORT] && Rep(1, LONG) == [LONG] && Rep(2, SHORT) == [SHORT] + [SHORT];
    assert r + [SHORT] + [SHORT] == r + ([SHORT] + [SHORT]);
  }

  lemma {:induction false} DigitsCons(s: Wave, d: nat, ds: seq<nat>)
    ensures Digits(s, [d] + ds) == Digits(Digit(s, d), ds) && Digits(s, []) == s
  {
    hide Digit;
    assert ([d] + ds)[1..] == ds;
  }

  /** Shorts come in threes from the digits 5 2. */
  lemma {:induction false} FiveTwo(r: seq<nat>, k: nat, ds: seq<nat>)
    ensures Digits(Wave(r, 0), FiveTwos(k) + ds) == Digits(Wave(More(r, 3 * k, SHORT), 0), ds)
    decreases k
  {
    hide Digit, Digits;
    if k == 0 {
      assert FiveTwos(0) + ds == ds && More(r, 0, SHORT) == r;
    } else {
      var rest := FiveTwos(k - 1) + ds;
      assert FiveTwos(k) + ds == [5] + ([2] + rest);
      DigitsCons(Wave(r, 0), 5, [2] + rest);
      DigitTable(r);
      DigitsCons(Wave(More(r, 1, SHORT), 1), 2, rest);
      DigitTable(More(r, 1, SHORT));
      MoreMore(r, 1, 2, SHORT);
      FiveTwo(More(r, 3, SHORT), k - 1, ds);
      MoreMore(r, 3, 3 * (k - 1), SHORT);
    }
  }

  function FiveTwos(k: nat): (ds: seq<nat>)
    ensures |ds| == 2 * k && forall i :: 0 <= i < |ds| ==> ds[i] < 8
  {
    if k == 0 then [] else [5, 2] + FiveTwos(k - 1)
  }

  /** The same digit n times, adding one long each and keeping the line as it is. */
  lemma {:induction false} Longs(r: seq<nat>, open: nat, d: nat, n: nat, ds: seq<nat>)
    requires (open == 1 && d == 5) || (open == 0 && d == 6) || (open == 2 && d == 3)
    ensures Digits(Wave(r, open), Rep(n, d) + ds) == Digits(Wave(More(r, n, LONG), open), ds)
    decreases n
  {
    hide Digit, Digits;
    if n == 0 {
      assert Rep(0, d) + ds == ds && More(r, 0, LONG) == r;
    } else {
      assert Rep(n, d) + ds == [d] + (Rep(n - 1, d) + ds);
      DigitsCons(Wave(r, open), d, Rep(n - 1, d) + ds);
      DigitTable(r);
      Longs(More(r, 1, LONG), open, d, n - 1, ds);
      MoreMore(r, 1, n - 1, LONG);
    }
  }

  /** The alternating words: 13 shorts and one begun, then the 14th and 13 more. */
  lemma {:induction false} AlternatingWords(r: seq<nat>)
    ensures Feed(Wave(r, 0), CellsOf(0xAAAA_AAA0)) == Wave(More(r, 13, SHORT), 1)
    ensures Feed(Wave(r, 1), CellsOf(0x5555_5540)) == Wave(More(r, 14, SHORT), 0)
    ensures Feed(Wave(r, 0), CellsOf(0x5555_5540)) == Wave(More(r, 13, SHORT), 0)
  {
    hide Digit, Digits, Feed, CellsOf;
    var a := FiveTwos(4) + [5];
    assert FiveTwos(2) == [5, 2, 5, 2] && a == [5, 2, 5, 2, 5, 2, 5, 2, 5];
    FeedOctal(Wave(r, 0), 0xAAAA_AAA0, a);
    FiveTwo(r, 4, [5]);
    DigitsCons(Wave(More(r, 12, SHORT), 0), 5, []);
    assert [5] + [] == [5];
    DigitTable(More(r, 12, SHORT));
    MoreMore(r, 12, 1, SHORT);
    DigitsCons(Wave(More(r, 13, SHORT), 1), 5, []);
    var b := [2] + (FiveTwos(4) + []);
    assert b == [2, 5, 2, 5, 2, 5, 2, 5, 2];
    FeedOctal(Wave(r, 1), 0x5555_5540, b);
    FeedOctal(Wave(r, 0), 0x5555_5540, b);
    DigitTable(r);
    DigitsCons(Wave(r, 1), 2, FiveTwos(4) + []);
    DigitsCons(Wave(r, 0), 2, FiveTwos(4) + []);
    FiveTwo(More(r, 2, SHORT), 4, []);
    FiveTwo(More(r, 1, SHORT), 4, []);
    MoreMore(r, 2, 12, SHORT);
    MoreMore(r, 1, 12, SHORT);
    DigitsCons(Wave(More(r, 14, SHORT), 0), 5, []);
    DigitsCons(Wave(More(r, 13, SHORT), 0), 5, []);
  }

  /** The end of both leaders: twelve shorts and the long pulse in front of the data. */
  lemma {:induction false} EndOfMark(r: seq<nat>)
    ensures Feed(Wave(r, 0), CellsOf(0xAAAA_AAC0)) == Wave(More(More(r, 12, SHORT), 1, LONG), 0)
  {
    hide Digit, Digits, Feed, CellsOf;
    var ds := FiveTwos(4) + [6];
    assert FiveTwos(2) == [5, 2, 5, 2] && ds == [5, 2, 5, 2, 5, 2, 5, 2, 6];
    FeedOctal(Wave(r, 0), 0xAAAA_AAC0, ds);
    FiveTwo(r, 4, [6]);
    assert [6] + [] == [6];
    DigitsCons(Wave(More(r, 12, SHORT), 0), 6, []);
    DigitTable(More(r, 12, SHORT));
    DigitsCons(Wave(More(More(r, 12, SHORT), 1, LONG), 0), 6, []);
  }

  /** The mark of the first leader: shorts turn to longs, and back. */
  lemma {:induction false} FirstMarkWords(r: seq<nat>)
    ensures Feed(Wave(r, 0), CellsOf(0xAAAD_B6C0)) == Wave(More(More(r, 6, SHORT), 5, LONG), 0)
    ensures Feed(Wave(r, 0), CellsOf(0xDB6D_B6C0)) == Wave(More(r, 9, LONG), 0)
    ensures Feed(Wave(r, 0), CellsOf(0x6DB6_DB40)) == Wave(More(More(r, 8, LONG), 1, SHORT), 0)
  {
    hide Digit, Digits, Feed, CellsOf;
    var a := FiveTwos(2) + (Rep(5, 6) + []);
    assert a == [5, 2, 5, 2, 6, 6, 6, 6, 6];
    FeedOctal(Wave(r, 0), 0xAAAD_B6C0, a);
    FiveTwo(r, 2, Rep(5, 6) + []);
    Longs(More(r, 6, SHORT), 0, 6, 5, []);
    DigitsCons(Wave(More(More(r, 6, SHORT), 5, LONG), 0), 6, []);
    var b := Rep(9, 6) + [];
    FeedOctal(Wave(r, 0), 0xDB6D_B6C0, b);
    Longs(r, 0, 6, 9, []);
    DigitsCons(Wave(More(r, 9, LONG), 0), 6, []);
    var c := [3] + (Rep(7, 3) + [2]);
    assert c == [3, 3, 3, 3, 3, 3, 3, 3, 2];
    FeedOctal(Wave(r, 0), 0x6DB6_DB40, c);
    DigitTable(r);
    DigitsCons(Wave(r, 0), 3, Rep(7, 3) + [2]);
    Longs(r, 2, 3, 7, [2]);
    assert [2] + [] == [2];
    DigitsCons(Wave(More(r, 7, LONG), 2), 2, []);
    DigitTable(More(r, 7, LONG));
    MoreMore(r, 7, 1, LONG);
    DigitsCons(Wave(More(More(r, 8, LONG), 1, SHORT), 0), 2, []);
  }

  /** The mark of the second leader. */
  lemma {:induction false} SecondMarkWords(r: seq<nat>)
    ensures Feed(Wave(r, 1), CellsOf(0x56DB_6DA0)) == Wave(More(More(r, 3, SHORT), 7, LONG), 1)
    ensures Feed(Wave(r, 1), CellsOf(0xB6DB_6DA0)) == Wave(More(r, 9, LONG), 1)
    ensures Feed(Wave(r, 1), CellsOf(0xB6D5_5540)) == Wave(More(More(r, 4, LONG), 8, SHORT), 0)
  {
    hide Digit, Digits, Feed, CellsOf;
    var a := [2] + ([5] + (Rep(7, 5) + []));
    assert a == [2, 5, 5, 5, 5, 5, 5, 5, 5];
    FeedOctal(Wave(r, 1), 0x56DB_6DA0, a);
    DigitTable(r);
    DigitsCons(Wave(r, 1), 2, [5] + (Rep(7, 5) + []));
    DigitTable(More(r, 2, SHORT));
    DigitsCons(Wave(More(r, 2, SHORT), 0), 5, Rep(7, 5) + []);
    MoreMore(r, 2, 1, SHORT);
    Longs(More(r, 3, SHORT), 1, 5, 7, []);
    DigitsCons(Wave(More(More(r, 3, SHORT), 7, LONG), 1), 5, []);
    var b := Rep(9, 5) + [];
    FeedOctal(Wave(r, 1), 0xB6DB_6DA0, b);
    Longs(r, 1, 5, 9, []);
    DigitsCons(Wave(More(r, 9, LONG), 1), 5, []);
    var c := Rep(4, 5) + ([2] + (FiveTwos(2) + []));
    assert c == [5, 5, 5, 5, 2, 5, 2, 5, 2];
    FeedOctal(Wave(r, 1), 0xB6D5_5540, c);
    Longs(r, 1, 5, 4, [2] + (FiveTwos(2) + []));
    var q := More(r, 4, LONG);
    DigitTable(q);
    DigitsCons(Wave(q, 1), 2, FiveTwos(2) + []);
    FiveTwo(More(q, 2, SHORT), 2, []);
    MoreMore(q, 2, 6, SHORT);
    DigitsCons(Wave(More(q, 8, SHORT), 0), 5, []);
  }

  // ---- leaders, bytes and blocks as pulses ---------------------------------------------------

  /** Shorts, then n longs, n shorts and one long: what a loader looks for. */
  function Mark(shorts: nat, n: nat): seq<nat> { Rep(shorts, SHORT) + Rep(n, LONG) + Rep(n, SHORT) + [LONG] }

  lemma {:induction false} MarkIsMore(r: seq<nat>, shorts: nat, n: nat)
    ensures More(More(More(More(r, shorts, SHORT), n, LONG), n, SHORT), 1, LONG) == r + Mark(shorts, n)
  {
    assert Rep(1, LONG) == [LONG];
  }

  lemma {:induction false} NoMore(r: seq<nat>)
    ensures More(r, 0, SHORT) == r && Alternate(0) == []
  {
  }

  lemma {:induction false} TwoMoreWords(k: nat)
    requires k > 0
    ensures Alternate(2 * k) == Alternate(2 * (k - 1)) + [0xAAAA_AAA0] + [0x5555_5540]
  {
  }

  lemma {:induction false} FeedAlternate(r: seq<nat>, k: nat)
    ensures FeedWords(Wave(r, 0), Alternate(2 * k)) == Wave(More(r, 27 * k, SHORT), 0)
    decreases k
  {
    hide Feed, FeedWords, CellsOf, More, Alternate;
    var s := Wave(r, 0);
    if k == 0 {
      FeedOneWord(s, 0);
      NoMore(r);
    } else {
      var n := 27 * (k - 1);
      TwoMoreWords(k);
      FeedAlternate(r, k - 1);
      FeedWordsAppend(s, Alternate(2 * (k - 1)), [0xAAAA_AAA0]);
      FeedWordsAppend(s, Alternate(2 * (k - 1)) + [0xAAAA_AAA0], [0x5555_5540]);
      FeedOneWord(Wave(More(r, n, SHORT), 0), 0xAAAA_AAA0);
      AlternatingWords(More(r, n, SHORT));
      MoreMore(r, n, 13, SHORT);
      FeedOneWord(Wave(More(r, n + 13, SHORT), 1), 0x5555_5540);
      AlternatingWords(More(r, n + 13, SHORT));
      MoreMore(r, n + 13, 14, SHORT);
    }
  }

  lemma {:induction false} FeedNext(s: Wave, w: Word32, ws: seq<Word32>)
    ensures FeedWords(s, [w] + ws) == FeedWords(Feed(s, CellsOf(w)), ws)
  {
    hide Feed, CellsOf, FeedWords;
    FeedWordsAppend(s, [w], ws);
    FeedOneWord(s, w);
  }

  /** The eight words that end the first leader. */
  lemma {:induction false} FeedFirstMark(r: seq<nat>)
    ensures FeedWords(Wave(r, 0), FirstMark())
            == Wave(More(More(More(More(r, 6, SHORT), 40, LONG), 40, SHORT), 1, LONG), 0)
  {
    hide Feed, CellsOf, FeedWords, More;
    var ws := FirstMark();
    var s0 := Wave(r, 0);
    FeedNext(s0, ws[0], ws[1..]);
    FirstMarkWords(r);
    var a := More(r, 6, SHORT);
    FeedNext(Wave(More(a, 5, LONG), 0), ws[1], ws[2..]);
    FirstMarkWords(More(a, 5, LONG));
    MoreMore(a, 5, 9, LONG);
    FeedNext(Wave(More(a, 14, LONG), 0), ws[2], ws[3..]);
    FirstMarkWords(More(a, 14, LONG));
    MoreMore(a, 14, 9, LONG);
    FeedNext(Wave(More(a, 23, LONG), 0), ws[3], ws[4..]);
    FirstMarkWords(More(a, 23, LONG));
    MoreMore(a, 23, 9, LONG);
    FeedNext(Wave(More(a, 32, LONG), 0), ws[4], ws[5..]);
    FirstMarkWords(More(a, 32, LONG));
    MoreMore(a, 32, 8, LONG);
    var b := More(a, 40, LONG);
    FeedNext(Wave(More(b, 1, SHORT), 0), ws[5], ws[6..]);
    AlternatingWords(More(b, 1, SHORT));
    MoreMore(b, 1, 13, SHORT);
    FeedNext(Wave(More(b, 14, SHORT), 1), ws[6], ws[7..]);
    AlternatingWords(More(b, 14, SHORT));
    MoreMore(b, 14, 14, SHORT);
    assert ws[7..] == [ws[7]];
    FeedOneWord(Wave(More(b, 28, SHORT), 0), ws[7]);
    EndOfMark(More(b, 28, SHORT));
    MoreMore(b, 28, 12, SHORT);
    assert ws[0..] == [ws[0]] + ws[1..] && ws[1..] == [ws[1]] + ws[2..] && ws[2..] == [ws[2]] + ws[3..];
    assert ws[3..] == [ws[3]] + ws[4..] && ws[4..] == [ws[4]] + ws[5..] && ws[5..] == [ws[5]] + ws[6..];
    assert ws[6..] == [ws[6]] + ws[7..] && ws[0..] == ws;
  }

  /** The five words that end the second leader. */
  lemma {:induction false} FeedSecondMark(r: seq<nat>)
    ensures FeedWords(Wave(r, 0), SecondMark())
            == Wave(More(More(More(More(r, 16, SHORT), 20, LONG), 20, SHORT), 1, LONG), 0)
  {
    hide Feed, CellsOf, FeedWords, More;
    var ws := SecondMark();
    FeedNext(Wave(r, 0), ws[0], ws[1..]);
    AlternatingWords(r);
    FeedNext(Wave(More(r, 13, SHORT), 1), ws[1], ws[2..]);
    SecondMarkWords(More(r, 13, SHORT));
    MoreMore(r, 13, 3, SHORT);
    var a := More(r, 16, SHORT);
    FeedNext(Wave(More(a, 7, LONG), 1), ws[2], ws[3..]);
    SecondMarkWords(More(a, 7, LONG));
    MoreMore(a, 7, 9, LONG);
    FeedNext(Wave(More(a, 16, LONG), 1), ws[3], ws[4..]);
    SecondMarkWords(More(a, 16, LONG));
    MoreMore(a, 16, 4, LONG);
    var b := More(a, 20, LONG);
    assert ws[4..] == [ws[4]];
    FeedOneWord(Wave(More(b, 8, SHORT), 0), ws[4]);
    EndOfMark(More(b, 8, SHORT));
    MoreMore(b, 8, 12, SHORT);
    assert ws[0..] == [ws[0]] + ws[1..] && ws[1..] == [ws[1]] + ws[2..] && ws[2..] == [ws[2]] + ws[3..];
    assert ws[3..] == [ws[3]] + ws[4..] && ws[0..] == ws;
  }

  /** The first leader is 5973 short pulses and the mark of 40. */
  lemma {:induction false} FirstLeaderPulses(r: seq<nat>)
    ensures FeedWords(Wave(r, 0), Leader1()) == Wave(r + Mark(5973, 40), 0)
  {
    hide Feed, FeedWords, More, Mark;
    FeedWordsAppend(Wave(r, 0), Alternate(442), FirstMark());
    FeedAlternate(r, 221);
    FeedFirstMark(More(r, 5967, SHORT));
    MoreMore(r, 5967, 6, SHORT);
    MarkIsMore(r, 5973, 40);
  }

  /** With its first word blank it loses fourteen shorts and nothing else. */
  lemma {:induction false} BlankLeaderPulses(r: seq<nat>)
    ensures FeedWords(Wave(r, 0), Leader1()[0 := 0]) == Wave(r + Mark(5959, 40), 0)
  {
    hide Feed, FeedWords, More, Mark, CellsOf;
    var rest := Alternate(440) + FirstMark();
    assert Leader1()[0 := 0] == [0] + ([0x5555_5540] + rest);
    FeedNext(Wave(r, 0), 0, [0x5555_5540] + rest);
    BlankWord(r);
    FeedNext(Wave(r, 0), 0x5555_5540, rest);
    AlternatingWords(r);
    FeedWordsAppend(Wave(More(r, 13, SHORT), 0), Alternate(440), FirstMark());
    FeedAlternate(More(r, 13, SHORT), 220);
    MoreMore(r, 13, 5940, SHORT);
    FeedFirstMark(More(r, 5953, SHORT));
    MoreMore(r, 5953, 6, SHORT);
    MarkIsMore(r, 5959, 40);
  }

  /** The second leader is 5848 short pulses and the mark of 20. */
  lemma {:induction false} SecondLeaderPulses(r: seq<nat>)
    ensures FeedWords(Wave(r, 0), Leader2()) == Wave(r + Mark(5848, 20), 0)
  {
    hide Feed, FeedWords, More, Mark;
    FeedWordsAppend(Wave(r, 0), Alternate(432), SecondMark());
    FeedAlternate(r, 216);
    FeedSecondMark(More(r, 5832, SHORT));
    MoreMore(r, 5832, 16, SHORT);
    MarkIsMore(r, 5848, 20);
  }

  /** Low digits on a low line are silence. */
  lemma {:induction false} Silence(r: seq<nat>, n: nat)
    ensures Digits(Wave(r, 0), Rep(n, 0)) == Wave(r, 0)
    decreases n
  {
    hide Digits;
    if n == 0 {
      DigitsCons(Wave(r, 0), 0, []);
      assert Rep(0, 0) == [];
    } else {
      assert Rep(n, 0) == [0] + Rep(n - 1, 0);
      DigitsCons(Wave(r, 0), 0, Rep(n - 1, 0));
      assert Digit(Wave(r, 0), 0) == Wave(r, 0);
      Silence(r, n - 1);
    }
  }

  lemma {:induction false} BlankWord(r: seq<nat>)
    ensures Feed(Wave(r, 0), CellsOf(0)) == Wave(r, 0)
  {
    hide Feed, CellsOf, Digits;
    FeedOctal(Wave(r, 0), 0, Rep(9, 0));
    Silence(r, 9);
  }

  /** The stop word is one long pulse. */
  lemma {:induction false} StopPulse(r: seq<nat>)
    ensures Feed(Wave(r, 0), CellsOf(STOP)) == Wave(r + [LONG], 0)
  {
    hide Feed, CellsOf, Digits, Digit;
    var ds := [6] + Rep(8, 0);
    FeedOctal(Wave(r, 0), STOP, ds);
    DigitsCons(Wave(r, 0), 6, Rep(8, 0));
    DigitTable(r);
    Silence(More(r, 1, LONG), 8);
    assert Rep(1, LONG) == [LONG];
  }

  /** A one is a long pulse, a zero a short one. */
  function Lengths(bits: seq<bool>): (p: seq<nat>)
    ensures |p| == |bits|
  {
    seq(|bits|, i requires 0 <= i < |bits| => if bits[i] then LONG else SHORT)
  }

  /** A byte is a long start pulse and eight bits, most significant first. */
  function BytePulses(b: Byte): (p: seq<nat>)
    ensures |p| == 9
  {
    [LONG] + Lengths(ByteBits(b))
  }

  lemma {:induction false} TriplesPulses(r: seq<nat>, bits: seq<bool>)
    ensures Feed(Wave(r, 0), Triples(bits)) == Wave(r + Lengths(bits), 0)
    decreases |bits|
  {
    if bits == [] {
      FeedNothing(Wave(r, 0));
      assert r + Lengths(bits) == r;
    } else {
      var n := |bits| - 1;
      TriplesPulses(r, bits[..n]);
      FeedAppend(Wave(r, 0), Triples(bits[..n]), Triple(bits[n]));
      FeedThree(Wave(r + Lengths(bits[..n]), 0), true, bits[n], false);
      assert Lengths(bits) == Lengths(bits[..n]) + [if bits[n] then LONG else SHORT];
      assert r + Lengths(bits) == r + Lengths(bits[..n]) + [if bits[n] then LONG else SHORT];
    }
  }

  lemma {:induction false} ByteWordPulses(r: seq<nat>, b: Byte)
    ensures Feed(Wave(r, 0), CellsOf(PwmWord(b))) == Wave(r + BytePulses(b), 0)
  {
    hide Feed, Cell, Triples;
    forall c | 0 <= c < CELLS ensures CellsOf(PwmWord(b))[c] == PwmCells(b)[c] {
      CellOfValue(PwmCells(b), c);
    }
    assert CellsOf(PwmWord(b)) == Triples([true] + ByteBits(b));
    TriplesPulses(r, [true] + ByteBits(b));
    assert Lengths([true] + ByteBits(b)) == BytePulses(b);
  }

  function BytesPulses(bs: seq<Byte>): (p: seq<nat>)
    ensures |p| == 9 * |bs|
  {
    if bs == [] then [] else BytesPulses(bs[..|bs| - 1]) + BytePulses(bs[|bs| - 1])
  }

  lemma {:induction false} FeedBytes(r: seq<nat>, bs: seq<Byte>)
    ensures FeedWords(Wave(r, 0), PwmWords(bs)) == Wave(r + BytesPulses(bs), 0)
    decreases |bs|
  {
    hide Feed, CellsOf, PwmWord, BytePulses;
    var s := Wave(r, 0);
    if bs == [] {
      FeedOneWord(s, 0);
      assert PwmWords(bs) == [] && r + BytesPulses(bs) == r;
    } else {
      var n := |bs| - 1;
      FeedBytes(r, bs[..n]);
      assert PwmWords(bs) == PwmWords(bs[..n]) + [PwmWord(bs[n])];
      FeedWordsAppend(s, PwmWords(bs[..n]), [PwmWord(bs[n])]);
      FeedOneWord(Wave(r + BytesPulses(bs[..n]), 0), PwmWord(bs[n]));
      ByteWordPulses(r + BytesPulses(bs[..n]), bs[n]);
      assert r + BytesPulses(bs) == r + BytesPulses(bs[..n]) + BytePulses(bs[n]);
    }
  }

  /** Data and checksum bytes, then the stop pulse. */
  function BlockPulses(bs: seq<Byte>): seq<nat> {
    BytesPulses(bs + [High(Checksum(bs)), Low(Checksum(bs))]) + [LONG]
  }

  lemma {:induction false} FeedBlock(r: seq<nat>, bs: seq<Byte>)
    ensures FeedWords(Wave(r, 0), BlockWords(bs)) == Wave(r + BlockPulses(bs), 0)
  {
    hide Feed, CellsOf, PwmWord, FeedWords, BytesPulses, Checksum;
    var all := bs + [High(Checksum(bs)), Low(Checksum(bs))];
    assert BlockWords(bs) == PwmWords(all) + [STOP];
    FeedWordsAppend(Wave(r, 0), PwmWords(all), [STOP]);
    FeedBytes(r, all);
    FeedOneWord(Wave(r + BytesPulses(all), 0), STOP);
    StopPulse(r + BytesPulses(all));
    assert r + BytesPulses(all) + [LONG] == r + BlockPulses(bs);
  }

  /** The pulses of a tape file; the first leader has the given number of shorts. */
  ghost function TapePulses(file: seq<Byte>, shorts: nat): seq<nat>
    requires Complete(file)
    decreases |file|
  {
    if |file| < HEADER then Mark(shorts, 40)
    else
      var end := HEADER + SizeOf(file);
      Mark(shorts, 40) + RecordPulses(file[..HEADER], file[HEADER..end]) + TapePulses(file[end..], 5973)
  }

  function RecordPulses(header: seq<Byte>, body: seq<Byte>): seq<nat> {
    BlockPulses(header) + Mark(5848, 20) + BlockPulses(body)
  }

  lemma {:induction false} FeedRecord(r: seq<nat>, header: seq<Byte>, body: seq<Byte>)
    ensures FeedWords(Wave(r, 0), RecordWords(header, body)) == Wave(r + RecordPulses(header, body), 0)
  {
    hide Feed, FeedWords, BlockPulses, Mark, BlockWords, Leader2;
    var s := Wave(r, 0);
    FeedWordsAppend(s, BlockWords(header) + Leader2(), BlockWords(body));
    FeedWordsAppend(s, BlockWords(header), Leader2());
    FeedBlock(r, header);
    SecondLeaderPulses(r + BlockPulses(header));
    FeedBlock(r + BlockPulses(header) + Mark(5848, 20), body);
    Join(r, BlockPulses(header), Mark(5848, 20), BlockPulses(body));
  }

  lemma {:induction false} Join(r: seq<nat>, a: seq<nat>, b: seq<nat>, c: seq<nat>)
    ensures r + a + b + c == r + (a + b + c)
  {
  }

  /** The whole word stream, behind a first leader that is as it should be. */
  lemma {:induction false} FeedTape(r: seq<nat>, file: seq<Byte>)
    requires Complete(file)
    ensures FeedWords(Wave(r, 0), TapeWords(file)) == Wave(r + TapePulses(file, 5973), 0)
    decreases |file|
  {
    hide Feed, FeedWords, Mark, Leader1, RecordWords, RecordPulses;
    FirstLeaderPulses(r);
    if |file| >= HEADER {
      FeedAfterLeader(Wave(r, 0), Leader1(), r + Mark(5973, 40), file);
      Join(r, Mark(5973, 40), RecordPulses(file[..HEADER], file[HEADER..HEADER + SizeOf(file)]),
           TapePulses(file[HEADER + SizeOf(file)..], 5973));
    }
  }

  /** What follows the first leader of a file, whatever the leader was. */
  lemma {:induction false} FeedAfterLeader(s: Wave, leader: seq<Word32>, r: seq<nat>, file: seq<Byte>)
    requires Complete(file) && |file| >= HEADER && FeedWords(s, leader) == Wave(r, 0)
    ensures var end := HEADER + SizeOf(file);
            FeedWords(s, leader + RecordWords(file[..HEADER], file[HEADER..end]) + TapeWords(file[end..]))
            == Wave(r + RecordPulses(file[..HEADER], file[HEADER..end]) + TapePulses(file[end..], 5973), 0)
    decreases |file|, 0
  {
    hide Feed, FeedWords, RecordWords, RecordPulses, TapePulses, TapeWords;
    var end := HEADER + SizeOf(file);
    var header, body := file[..HEADER], file[HEADER..end];
    FeedWordsAppend(s, leader + RecordWords(header, body), TapeWords(file[end..]));
    FeedWordsAppend(s, leader, RecordWords(header, body));
    FeedRecord(r, header, body);
    FeedTape(r + RecordPulses(header, body), file[end..]);
  }

  /** The tape as it is heard, its first word blank. */
  lemma {:induction false} FeedHeardTape(file: seq<Byte>)
    requires Complete(file)
    ensures FeedWords(Wave([], 0), TapeWords(file)[0 := 0]) == Wave(TapePulses(file, 5959), 0)
  {
    hide Feed, FeedWords, Mark, Leader1, RecordWords, RecordPulses;
    var leader := Leader1()[0 := 0];
    BlankLeaderPulses([]);
    assert [] + Mark(5959, 40) == Mark(5959, 40);
    if |file| >= HEADER {
      var end := HEADER + SizeOf(file);
      var header, body := file[..HEADER], file[HEADER..end];
      assert TapeWords(file)[0 := 0] == leader + RecordWords(header, body) + TapeWords(file[end..]);
      FeedAfterLeader(Wave([], 0), leader, Mark(5959, 40), file);
    } else {
      assert TapeWords(file)[0 := 0] == leader;
    }
  }
}
