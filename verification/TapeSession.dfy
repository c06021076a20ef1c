/** A whole session with the deck: insert a file, start it, and listen at the port. */
module TapeSession {
  import opened Bytes
  import opened TapeFormat
  import opened TapePager
  import opened TapeDeck
  import opened TapeRoundTrip

  /** The deck after the first event of a run, and the bits still to come. */
  lemma {:induction false} RunUnfolds(d: Deck, m: Medium, es: seq<Event>, i: nat)
    requires i < |es| && RunReady(d, m, es[i..])
    ensures es[i].Poll? ==>
              && PollReady(d, m, es[i].now) && RunReady(PollDeck(d, m, es[i].now).0, m, es[i + 1..])
              && RunDeck(d, m, es[i..])
                 == [PollDeck(d, m, es[i].now).1] + RunDeck(PollDeck(d, m, es[i].now).0, m, es[i + 1..])
    ensures !es[i].Poll? ==>
              && RunReady(WriteDeck(d, es[i]), m, es[i + 1..])
              && RunDeck(d, m, es[i..]) == RunDeck(WriteDeck(d, es[i]), m, es[i + 1..])
  {
    hide PollReady, PollDeck, WriteDeck;
    assert es[i..][0] == es[i] && es[i..][1..] == es[i + 1..];
  }

  lemma {:induction false} Rejoin(bits: seq<bool>, bit: bool, rest: seq<bool>)
    ensures bits + ([bit] + rest) == bits + [bit] + rest
  {
  }

  /** One event at the port: the clock moves on, then the CPU reads or writes. */
  method PortEvent(deck: Cassette, e: Event) returns (bits: seq<bool>)
    requires deck.Valid() && deck.PortOk() && deck.saveCount == 0 && deck.mztBsize == |deck.words|
    requires e.Poll? ==> PollReady(deck.View(), deck.Tape(), e.now)
    modifies deck, deck.saveBuf, deck.dataBuf
    ensures deck.Valid() && deck.PortOk() && deck.saveCount == 0 && deck.mztBsize == |deck.words|
    ensures deck.Tape() == old(deck.Tape())
    ensures e.Poll? ==>
              var (d, bit) := PollDeck(old(deck.View()), old(deck.Tape()), e.now);
              deck.View() == d && bits == [bit]
    ensures !e.Poll? ==> deck.View() == WriteDeck(old(deck.View()), e) && bits == []
  {
    hide PollDeck, PollReady, WriteAll, WriteBit, Le32All;
    deck.cpuTstates := e.now;
    match e {
      case Poll(_) =>
        var signal := deck.CmtRead();
        bits := [signal != 0];
      case Whole(_, val) =>
        deck.WriteE002(val);
        bits := [];
      case Single(_, val) =>
        deck.WriteE003(val);
        bits := [];
    }
  }

  /** A run of events at the port of a deck with a tape in it. */
  method Answer(deck: Cassette, es: seq<Event>) returns (bits: seq<bool>)
    requires deck.Valid() && deck.PortOk() && deck.saveCount == 0 && deck.mztBsize == |deck.words|
    requires RunReady(deck.View(), deck.Tape(), es)
    modifies deck, deck.saveBuf, deck.dataBuf
    ensures bits == RunDeck(old(deck.View()), old(deck.Tape()), es)
  {
    hide PollDeck, PollReady, WriteDeck, RunDeck, RunReady;
    hide Cassette.Valid, Cassette.PortOk, Cassette.View, Cassette.Tape;
    ghost var d, m := deck.View(), deck.Tape();
    bits := [];
    assert es[0..] == es;
    var i := 0;
    while i < |es|
      invariant 0 <= i <= |es|
      invariant deck.Valid() && deck.PortOk() && deck.saveCount == 0 && deck.mztBsize == |deck.words|
      invariant deck.Tape() == m && RunReady(deck.View(), m, es[i..])
      invariant bits + RunDeck(deck.View(), m, es[i..]) == RunDeck(d, m, es)
    {
      RunUnfolds(deck.View(), m, es, i);
      var more := PortEvent(deck, es[i]);
      if es[i].Poll? {
        Rejoin(bits, more[0], RunDeck(deck.View(), m, es[i + 1..]));
      }
      bits := bits + more;
      i := i + 1;
    }
    RunEnds(deck.View(), m, es);
  }

  /**
   * Insert a tape file, start it now, and answer the CPU at the port: whoever polls once per
   * cell of playing time, whatever it writes between, can decode the records of the file.
   */
  method Listen(deck: Cassette, file: seq<Byte>, es: seq<Event>) returns (cells: seq<bool>)
    requires deck.Valid() && deck.PortOk() && deck.Built() && Complete(file)
    requires PollCount(es) == CELLS * |TapeWords(file)|
    requires var cell := if deck.mz700Mode then 766 else 428;
             Listens(FreshFlat(deck.View(), deck.cpuTstates), Medium(TapeWords(file), cell), es, 0)
    modifies deck, deck.saveBuf, deck.dataBuf
    ensures Decode(cells) == Some(Records(file))
  {
    hide TapeWords, Complete, Decode, Records, Listens, PollCount, RunDeck, RunReady;
    ghost var start, cellTime := deck.cpuTstates, deck.CellTime();
    ghost var flat := FreshFlat(deck.View(), start);
    var ok := deck.SetMztData(Some(file));
    deck.StartTape();
    assert FreshFlat(deck.View(), start) == flat && deck.Tape() == Medium(TapeWords(file), cellTime);
    TapeRoundTrip.TapeRoundTrip(file, deck.View(), cellTime, start, es);
    cells := Answer(deck, es);
  }

  lemma {:induction false} RunEnds(d: Deck, m: Medium, es: seq<Event>)
    ensures RunReady(d, m, es[|es|..]) && RunDeck(d, m, es[|es|..]) == []
  {
  }
}
