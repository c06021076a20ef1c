/** The cursor parser and the continuation loop of the service discovery reader. */
module SdpParse {
  import opened Bytes
  import opened SdpRecord

  /** The fixed part of SDP_ServiceSearchAttributeRequest: search 1124, attributes 0000-FFFF. */
  const INQUIRY: seq<Byte> := [
    0x06, 0x00, 0x01, 0x00, 0x0F,
    0x35, 0x03, 0x19, 0x11, 0x24,
    0xFF, 0xFF,
    0x35, 0x05, 0x0A, 0x00, 0x00, 0xFF, 0xFF]

  const MAX_CONTINUATION: nat := 16

  class Parser {
    var data: seq<Byte>
    var pos: nat
    var currentId: int
    var srvName: seq<Byte>
    var srvDesc: seq<Byte>
    var providerName: seq<Byte>
    var hidDescriptor: seq<Byte>
    var buf: seq<Byte>
    var sent: seq<seq<Byte>>

    /** What has been collected, under the attribute being read. */
    ghost function View(): Reader
      reads this`currentId, this`srvName, this`srvDesc, this`providerName, this`hidDescriptor
    {
      Reader(currentId % 0x1_0000, srvName, srvDesc, providerName, hidDescriptor)
    }

    constructor ()
      ensures buf == [] && sent == [] && hidDescriptor == []
    {
      data, pos, currentId := [], 0, 0;
      srvName, srvDesc, providerName, hidDescriptor := [], [], [], [];
      buf, sent := [], [];
    }

    method U8() returns (v: Byte)
      requires pos < |data|
      modifies this`pos
      ensures v == data[old(pos)] && pos == old(pos) + 1
    {
      v := data[pos];
      pos := pos + 1;
    }

    method U16() returns (v: Word16)
      requires pos + 2 <= |data|
      modifies this`pos
      ensures v == Word(data[old(pos) + 1], data[old(pos)]) && pos == old(pos) + 2
    {
      var hi := U8();
      var lo := U8();
      v := Word(lo, hi);
    }

    method U32() returns (v: Word32)
      requires pos + 4 <= |data|
      modifies this`pos
      ensures v == FromLe32(data[old(pos) + 3], data[old(pos) + 2], data[old(pos) + 1], data[old(pos)])
      ensures pos == old(pos) + 4
    {
      var hi := U16();
      var lo := U16();
      v := 0x1_0000 * (hi as int) + lo;
    }

    /** Reading an element header back: the type, and how many bytes of payload follow. */
    method Header(ghost kind: nat, ghost size: nat, ghost count: nat) returns (t: nat, n: nat)
      requires Fits(kind, size, count) && At(data, pos, Head(kind, size, count))
      modifies this`pos
      ensures t == kind && n == count && pos == old(pos) + |Head(kind, size, count)|
    {
      hide Head, At, FromLe32;
      HeadAt(data, pos, kind, size, count);
      var hdr := U8();
      t := hdr / 8;
      var i := hdr % 8;
      match i {
        case 5 => n := U8();
        case 6 => n := U16();
        case 7 => n := U32();
        case _ => n := if i == 0 then 1 else if i == 1 then 2 else if i == 2 then 4 else if i == 3 then 8 else 16;
      }
      if t == 0 {
        n := 0;
      }
    }

    /** The attribute id in front of a value. */
    method GetId16(ghost id: Word16) returns (r: int)
      requires At(data, pos, Head(UINT, 1, 2) + [High(id), Low(id)])
      modifies this`pos
      ensures r == id && pos == old(pos) + |Head(UINT, 1, 2)| + 2
    {
      Cut(data, pos, Head(UINT, 1, 2), [High(id), Low(id)]);
      var t, n := Header(UINT, 1, 2);
      if t != UINT || n != 2 {
        return -1;
      }
      ByteAt(data, pos, [High(id), Low(id)], 0);
      ByteAt(data, pos, [High(id), Low(id)], 1);
      r := U16();
    }

    method OnString(s: seq<Byte>)
      requires 0 <= currentId < 0x1_0000
      modifies this`srvName, this`srvDesc, this`providerName, this`hidDescriptor
      ensures View() == SdpRecord.OnString(old(View()), s)
    {
      match currentId {
        case 0x0100 => srvName := s;
        case 0x0101 => srvDesc := s;
        case 0x0102 => providerName := s;
        case 0x0206 => hidDescriptor := s;
        case _ =>
      }
    }

    /** One value: strings are kept, sequences entered, everything else passed over. */
    method Value(ghost e: Elem)
      requires ValidElem(e) && At(data, pos, Encode(e)) && 0 <= currentId < 0x1_0000
      modifies this`pos, this`currentId, this`srvName, this`srvDesc, this`providerName, this`hidDescriptor
      ensures pos == old(pos) + |Encode(e)| && currentId == old(currentId) && View() == Visit(old(View()), e)
      decreases |Encode(e)|, 0
    {
      hide Encode, EncodeAll, ValidElem, ValidAll, Head, Fits, SdpRecord.OnString, VisitAll, VisitEntries, FromLe32;
      hide ValidEntries, EncodeEntries, Parser.View;
      ElemShape(e);
      Cut(data, pos, Head(KindOf(e), e.size, |PayloadOf(e)|), PayloadOf(e));
      var t, n := Header(KindOf(e), e.size, |PayloadOf(e)|);
      match t {
        case 0 =>
        case 6 =>
          BareEntries(View(), e.items);
          var r := Item(n, false, Bare(e.items));
        case 1 => SkipNumber(n);
        case 2 => SkipNumber(n);
        case 4 =>
          var s := data[pos..pos + n];
          pos := pos + n;
          OnString(s);
        case 3 =>
          match n {
            case 2 => var id := U16();
            case 4 => var id := U32();
            case _ => pos := pos + n;
          }
        case 5 => pos := pos + 1;
        case 8 => pos := pos + n;
        case _ => pos := pos + n;
      }
    }

    method SkipNumber(n: nat)
      requires pos + n <= |data|
      modifies this`pos
      ensures pos == old(pos) + n
    {
      match n {
        case 1 => var v := U8();
        case 2 => var v := U16();
        case 4 => var v := U32();
        case _ => pos := pos + n;
      }
    }

    /** One entry of a list: its id when wanted, then its value. */
    method Entry(wantId: bool, ghost t: SdpRecord.Entry) returns (ok: bool)
      requires ValidElem(t.value) && t.id.Some? == wantId && At(data, pos, EncodeEntry(t))
      requires wantId || 0 <= currentId < 0x1_0000
      modifies this`pos, this`currentId, this`srvName, this`srvDesc, this`providerName, this`hidDescriptor
      ensures ok && pos == old(pos) + |EncodeEntry(t)| && View() == VisitEntry(old(View()), t)
      ensures !wantId ==> currentId == old(currentId)
      decreases |EncodeEntry(t)|, 1
    {
      hide Encode, ValidElem, Visit, Head;
      Cut(data, pos, IdBytes(t.id), Encode(t.value));
      if wantId {
        currentId := GetId16(t.id.value);
        if currentId == -1 {
          return false;
        }
      }
      Value(t.value);
      ok := true;
    }

    /** The values of a list, each after its id when wantId. */
    method Item(len: nat, wantId: bool, ghost ts: seq<SdpRecord.Entry>) returns (r: int)
      requires ValidEntries(ts, wantId) && At(data, pos, EncodeEntries(ts)) && len == |EncodeEntries(ts)|
      requires wantId || 0 <= currentId < 0x1_0000
      modifies this`pos, this`currentId, this`srvName, this`srvDesc, this`providerName, this`hidDescriptor
      ensures pos == old(pos) + len && r == 0 && View() == VisitEntries(old(View()), ts)
      ensures !wantId ==> currentId == old(currentId)
      decreases len, 2
    {
      hide ValidElem, VisitEntry, EncodeEntry;
      var end := pos + len;
      ghost var rest := ts;
      while pos < end
        invariant ValidEntries(rest, wantId) && At(data, pos, EncodeEntries(rest)) && end == pos + |EncodeEntries(rest)|
        invariant |EncodeEntries(rest)| <= len
        invariant VisitEntries(View(), rest) == VisitEntries(old(View()), ts)
        invariant wantId || (currentId == old(currentId) && 0 <= currentId < 0x1_0000)
        decreases end - pos
      {
        Cut(data, pos, EncodeEntry(rest[0]), EncodeEntries(rest[1..]));
        var ok := Entry(wantId, rest[0]);
        if !ok {
          return -1;
        }
        rest := rest[1..];
      }
      r := 0;
    }

    /** A list of attribute lists. */
    method List(len: nat, ghost ls: seq<AttributeList>) returns (r: int)
      requires forall i :: 0 <= i < |ls| ==> ValidList(ls[i])
      requires At(data, pos, EncodeLists(ls)) && len == |EncodeLists(ls)|
      modifies this`pos, this`currentId, this`srvName, this`srvDesc, this`providerName, this`hidDescriptor
      ensures pos == old(pos) + len && r == 0 && View() == VisitLists(old(View()), ls)
    {
      hide Head, EncodeEntries, VisitEntries, ValidEntries, Fits;
      var end := pos + len;
      ghost var rest := ls;
      while pos < end
        invariant forall i :: 0 <= i < |rest| ==> ValidList(rest[i])
        invariant At(data, pos, EncodeLists(rest)) && end == pos + |EncodeLists(rest)|
        invariant VisitLists(View(), rest) == VisitLists(old(View()), ls)
        decreases end - pos
      {
        ghost var l := rest[0];
        ghost var body := EncodeEntries(l.entries);
        assert ValidList(l);
        Cut(data, pos, EncodeList(l), EncodeLists(rest[1..]));
        Cut(data, pos, Head(SEQ, l.size, |body|), body);
        var t, n := Header(SEQ, l.size, |body|);
        if t != SEQ {
          break;
        }
        var bad := Item(n, true, l.entries);
        if bad == -1 {
          return -1;
        }
        rest := rest[1..];
      }
      r := 0;
    }

    /** Reading whole records from the front of d. */
    method Parse(d: seq<Byte>, ghost rs: seq<Record>)
      requires (forall i :: 0 <= i < |rs| ==> ValidRecord(rs[i])) && d == EncodeRecords(rs)
      modifies this`data, this`pos, this`currentId, this`srvName, this`srvDesc, this`providerName, this`hidDescriptor
      ensures data == d && pos == |d| && View() == VisitRecords(old(View()), rs)
    {
      hide Head, EncodeLists, VisitLists, ValidList, Fits;
      data := d;
      pos := 0;
      var end := |d|;
      ghost var rest := rs;
      assert d[0..|d|] == d;
      assert At(data, pos, EncodeRecords(rest));
      hide At, ValidRecord, EncodeRecords, VisitRecords, Parser.View;
      while pos < end
        invariant forall i :: 0 <= i < |rest| ==> ValidRecord(rest[i])
        invariant data == d && At(data, pos, EncodeRecords(rest)) && end == pos + |EncodeRecords(rest)|
        invariant VisitRecords(View(), rest) == VisitRecords(old(View()), rs)
        decreases end - pos
      {
        ghost var r := rest[0];
        ghost var body := EncodeLists(r.lists);
        RecordFirst(data, pos, rest, View());
        var t, n := Header(SEQ, r.size, |body|);
        if t != SEQ {
          break;
        }
        var bad := List(n, r.lists);
        if bad == -1 {
          break;
        }
        rest := rest[1..];
      }
      RecordLast(rest, View());
    }

    /** The descriptor of the accumulated record: the last string under its attribute. */
    method Descriptor(ghost rs: seq<Record>) returns (hid: seq<Byte>)
      requires (forall i :: 0 <= i < |rs| ==> ValidRecord(rs[i])) && buf == EncodeRecords(rs)
      modifies this`data, this`pos, this`currentId, this`srvName, this`srvDesc, this`providerName, this`hidDescriptor
      ensures pos == |buf| && hid == LastOr(RecordStrings(0x0206, rs), old(hidDescriptor))
    {
      FieldsAreLastStrings(View(), rs, 0x0206);
      Parse(buf, rs);
      hid := hidDescriptor;
    }

    // ---- the continuation loop -----------------------------------------------------

    /** Ask for the record, or for the rest of it. */
    method ServiceSearch(cont: seq<Byte>)
      requires |cont| <= MAX_CONTINUATION
      modifies this`sent
      ensures sent == old(sent) + [Request(cont)]
    {
      var pdu := INQUIRY[4 := INQUIRY[4] + |cont|] + [|cont|];
      if |cont| > 0 {
        pdu := pdu + cont;
      }
      assert cont == [] ==> pdu == pdu + cont;
      sent := sent + [pdu];
    }

    /** One response: keep its bytes, and ask for more while it carries a continuation. */
    method Add(packet: seq<Byte>) returns (more: int)
      requires WellFormed(packet)
      modifies this`data, this`pos, this`buf, this`sent
      ensures Session(buf, sent) == Receive(Session(old(buf), old(sent)), packet)
      ensures more == 0 <==> IsLast(packet)
    {
      data := packet;
      pos := 0;
      var pid := U8();
      var tid := U16();
      var total := U16();
      if pid == 7 {
        var count: nat := U16();
        buf := buf + data[pos..pos + count];
        var cont := data[pos + count..];
        assert cont[1..1 + cont[0]] == packet[8 + count..8 + count + cont[0]];
        if cont[0] == 0 {
          return 0;
        }
        ServiceSearch(cont[1..1 + cont[0]]);
      }
      more := 1;
    }
  }

  // ---- requests and responses as bytes -------------------------------------------------

  /** The request PDU: the inquiry with its length adjusted, then the continuation state. */
  function Request(cont: seq<Byte>): seq<Byte>
    requires |cont| <= MAX_CONTINUATION
  {
    INQUIRY[4 := 0x0F + |cont|] + [|cont|] + cont
  }

  /** A response PDU: seven header bytes, the chunk, and the continuation state. */
  function Response(tid: Word16, total: Word16, chunk: seq<Byte>, cont: seq<Byte>): seq<Byte>
    requires |chunk| < 0x1_0000 && |cont| <= MAX_CONTINUATION
  {
    [7, High(tid), Low(tid), High(total), Low(total), High(|chunk|), Low(|chunk|)] + chunk + [|cont|] + cont
  }

  function ChunkLength(packet: seq<Byte>): nat
    requires |packet| >= 7
  {
    Word(packet[6], packet[5])
  }

  /** What the reader takes for granted about a packet on its socket. */
  predicate WellFormed(packet: seq<Byte>) {
    |packet| >= 5 &&
    (packet[0] == 7 ==>
       && |packet| >= 7 && |packet| > 7 + ChunkLength(packet)
       && packet[7 + ChunkLength(packet)] <= MAX_CONTINUATION
       && |packet| >= 8 + ChunkLength(packet) + packet[7 + ChunkLength(packet)])
  }

  predicate IsLast(packet: seq<Byte>)
    requires WellFormed(packet)
  {
    packet[0] == 7 && packet[7 + ChunkLength(packet)] == 0
  }

  datatype Session = Session(buf: seq<Byte>, sent: seq<seq<Byte>>)

  function Receive(s: Session, packet: seq<Byte>): Session
    requires WellFormed(packet)
  {
    if packet[0] != 7 then s
    else
      var n := ChunkLength(packet);
      var cont := packet[8 + n..8 + n + packet[7 + n]];
      Session(s.buf + packet[7..7 + n], if cont == [] then s.sent else s.sent + [Request(cont)])
  }

  lemma {:induction false} ResponseParts(tid: Word16, total: Word16, chunk: seq<Byte>, cont: seq<Byte>)
    requires |chunk| < 0x1_0000 && |cont| <= MAX_CONTINUATION
    ensures var p := Response(tid, total, chunk, cont);
            && p[0] == 7 && WellFormed(p) && ChunkLength(p) == |chunk| && (IsLast(p) <==> cont == [])
            && p[7..7 + |chunk|] == chunk && p[8 + |chunk|..8 + |chunk| + p[7 + |chunk|]] == cont
  {
    var n := |chunk|;
    assert Word(Low(n), High(n)) == n;
    var head := [7, High(tid), Low(tid), High(total), Low(total), High(n), Low(n)];
    Pieces(head, chunk, |cont|, cont);
    assert head[5] == High(n) && head[6] == Low(n);
    hide Low, High, Word;
    var p := head + chunk + [|cont|] + cont;
    assert p == Response(tid, total, chunk, cont);
    assert p[5] == head[5] && p[6] == head[6];
    assert ChunkLength(p) == n;
  }

  lemma {:induction false} Pieces(h: seq<Byte>, c: seq<Byte>, x: Byte, t: seq<Byte>)
    ensures var p := h + c + [x] + t;
            && |p| == |h| + |c| + 1 + |t| && (forall i :: 0 <= i < |h| ==> p[i] == h[i])
            && p[|h|..|h| + |c|] == c && p[|h| + |c|] == x && p[|h| + |c| + 1..|h| + |c| + 1 + |t|] == t
  {
  }

  /** One chunk of a record with the continuation state that follows it. */
  datatype Part = Part(tid: Word16, total: Word16, chunk: seq<Byte>, cont: seq<Byte>)

  predicate Sized(part: Part) { |part.chunk| < 0x1_0000 && |part.cont| <= MAX_CONTINUATION }

  function ResponseOf(part: Part): seq<Byte>
    requires Sized(part)
  {
    Response(part.tid, part.total, part.chunk, part.cont)
  }

  ghost predicate Chunking(parts: seq<Part>) {
    && parts != []
    && (forall i :: 0 <= i < |parts| ==> Sized(parts[i]))
    && (forall i :: 0 <= i < |parts| ==> (parts[i].cont == [] <==> i == |parts| - 1))
  }

  function Joined(parts: seq<Part>): seq<Byte> {
    if parts == [] then [] else parts[0].chunk + Joined(parts[1..])
  }

  ghost function ReceiveAll(s: Session, parts: seq<Part>): Session
    requires forall i :: 0 <= i < |parts| ==> Sized(parts[i])
    decreases |parts|
  {
    if parts == [] then s
    else
      assert Sized(parts[0]);
      var p := ResponseOf(parts[0]);
      ResponseParts(parts[0].tid, parts[0].total, parts[0].chunk, parts[0].cont);
      ReceiveAll(Receive(s, p), parts[1..])
  }

  /** The follow-up requests, one per response that is not the last. */
  function FollowUps(parts: seq<Part>): seq<seq<Byte>>
    requires forall i :: 0 <= i < |parts| ==> Sized(parts[i])
    decreases |parts|
  {
    if parts == [] then []
    else
      assert Sized(parts[0]);
      (if parts[0].cont == [] then [] else [Request(parts[0].cont)]) + FollowUps(parts[1..])
  }

  /** However the record is chunked, the buffer ends as the whole of it. */
  lemma {:induction false} ContinuationCollects(s: Session, parts: seq<Part>)
    requires forall i :: 0 <= i < |parts| ==> Sized(parts[i])
    ensures ReceiveAll(s, parts) == Session(s.buf + Joined(parts), s.sent + FollowUps(parts))
    decreases |parts|
  {
    hide Response, Request;
    if parts != [] {
      var p := parts[0];
      assert Sized(p);
      ResponseParts(p.tid, p.total, p.chunk, p.cont);
      var r := Receive(s, Response(p.tid, p.total, p.chunk, p.cont));
      assert r.buf == s.buf + p.chunk;
      ContinuationCollects(r, parts[1..]);
      assert s.buf + p.chunk + Joined(parts[1..]) == s.buf + (p.chunk + Joined(parts[1..]));
      var ask := if p.cont == [] then [] else [Request(p.cont)];
      assert r.sent == s.sent + ask;
      assert s.sent + ask + FollowUps(parts[1..]) == s.sent + (ask + FollowUps(parts[1..]));
    } else {
      assert s.buf + [] == s.buf && s.sent + [] == s.sent;
    }
  }

  /** One request per non-final response, each echoing the continuation it answers. */
  lemma {:induction false} OneRequestPerResponse(parts: seq<Part>)
    requires Chunking(parts)
    ensures |FollowUps(parts)| == |parts| - 1
    ensures forall i :: 0 <= i < |parts| - 1 ==> Sized(parts[i]) && FollowUps(parts)[i] == Request(parts[i].cont)
    decreases |parts|
  {
    hide Request;
    if |parts| > 1 {
      assert parts[0].cont != [] && Sized(parts[0]);
      var rest := parts[1..];
      forall i | 0 <= i < |rest| ensures rest[i].cont == [] <==> i == |rest| - 1 {
        assert rest[i] == parts[i + 1];
      }
      OneRequestPerResponse(rest);
    } else {
      assert parts[1..] == [];
    }
  }

  lemma {:induction false} OneItem(e: Elem)
    ensures EncodeAll([e]) == Encode(e)
  {
    hide Encode;
    assert [e][1..] == [];
    assert EncodeAll([e][1..]) == [];
  }

  /**
   * A request is well formed: its length field counts the bytes after the header, and it asks
   * for every attribute of the service with the 16-bit identifier 1124.
   */
  lemma {:induction false} RequestIsWellFormed(cont: seq<Byte>)
    requires |cont| <= MAX_CONTINUATION
    ensures var q := Request(cont);
            && q[0] == 0x06 && Word(q[4], q[3]) == |q| - 5
            && q[19] == |cont| && q[20..] == cont
            && q[5..10] == Encode(Sequence(5, [Leaf(3, 1, [0x11, 0x24])])) && q[10..12] == [0xFF, 0xFF]
            && q[12..19] == Encode(Sequence(5, [Leaf(UINT, 2, [0, 0, 0xFF, 0xFF])]))
  {
    var q := Request(cont);
    assert q[..19] == INQUIRY[4 := 0x0F + |cont|];
    var service, range := Leaf(3, 1, [0x11, 0x24]), Leaf(UINT, 2, [0, 0, 0xFF, 0xFF]);
    OneItem(service);
    OneItem(range);
    assert Encode(service) == [0x19, 0x11, 0x24] && Encode(range) == [0x0A, 0, 0, 0xFF, 0xFF];
    assert Encode(Sequence(5, [service])) == [0x35, 3] + [0x19, 0x11, 0x24];
    assert Encode(Sequence(5, [range])) == [0x35, 5] + [0x0A, 0, 0, 0xFF, 0xFF];
  }

  // ---- a whole query ---------------------------------------------------------------------

  lemma {:induction false} ReceiveNext(s: Session, parts: seq<Part>, i: nat)
    requires (forall k :: 0 <= k < |parts| ==> Sized(parts[k])) && i < |parts|
    ensures Sized(parts[i])
    ensures var p := ResponseOf(parts[i]);
            && WellFormed(p) && (IsLast(p) <==> parts[i].cont == [])
            && ReceiveAll(s, parts[i..]) == ReceiveAll(Receive(s, p), parts[i + 1..])
  {
    hide Response, WellFormed, Receive;
    assert Sized(parts[i]);
    ResponseParts(parts[i].tid, parts[i].total, parts[i].chunk, parts[i].cont);
    assert parts[i..][0] == parts[i] && parts[i..][1..] == parts[i + 1..];
  }

  /**
   * The responses to one query, however the records are cut up, and then the parse: the
   * descriptor is the last string under its attribute, and one well-formed request went out
   * for each response but the last.
   */
  method Query(parser: Parser, parts: seq<Part>, ghost rs: seq<Record>) returns (hid: seq<Byte>)
    requires Chunking(parts) && Joined(parts) == EncodeRecords(rs) && parser.buf == []
    requires forall i :: 0 <= i < |rs| ==> ValidRecord(rs[i])
    modifies parser
    ensures hid == LastOr(RecordStrings(0x0206, rs), old(parser.hidDescriptor))
    ensures parser.buf == EncodeRecords(rs) && parser.sent == old(parser.sent) + FollowUps(parts)
  {
    hide Response, WellFormed, Receive, ReceiveAll, Request, Joined, FollowUps;
    hide EncodeRecords, RecordStrings, ValidRecord;
    ghost var start := Session(parser.buf, parser.sent);
    var i, more := 0, 1;
    assert parts[0..] == parts;
    while more != 0
      invariant 0 <= i <= |parts| && (more == 0 <==> i == |parts|)
      invariant parser.hidDescriptor == old(parser.hidDescriptor)
      invariant ReceiveAll(Session(parser.buf, parser.sent), parts[i..]) == ReceiveAll(start, parts)
      decreases |parts| - i
    {
      assert Sized(parts[i]);
      ReceiveNext(Session(parser.buf, parser.sent), parts, i);
      more := parser.Add(ResponseOf(parts[i]));
      i := i + 1;
    }
    ContinuationCollects(start, parts);
    AllReceived(Session(parser.buf, parser.sent), parts);
    assert [] + Joined(parts) == Joined(parts);
    hid := parser.Descriptor(rs);
  }

  lemma {:induction false} AllReceived(s: Session, parts: seq<Part>)
    ensures ReceiveAll(s, parts[|parts|..]) == s
  {
  }

  /** The first of some records: its header, its lists, the records after it. */
  lemma {:induction false} RecordFirst(data: seq<Byte>, pos: nat, rs: seq<Record>, v: Reader)
    requires At(data, pos, EncodeRecords(rs)) && |EncodeRecords(rs)| > 0
    requires forall i :: 0 <= i < |rs| ==> ValidRecord(rs[i])
    ensures rs != []
    ensures var body := EncodeLists(rs[0].lists);
            var head := Head(SEQ, rs[0].size, |body|);
            && Fits(SEQ, rs[0].size, |body|) && (forall i :: 0 <= i < |rs[0].lists| ==> ValidList(rs[0].lists[i]))
            && At(data, pos, head) && At(data, pos + |head|, body)
            && At(data, pos + |head| + |body|, EncodeRecords(rs[1..]))
            && |EncodeRecords(rs)| == |head| + |body| + |EncodeRecords(rs[1..])|
    ensures VisitRecords(v, rs) == VisitRecords(VisitLists(v, rs[0].lists), rs[1..])
  {
    hide At, Head, Fits, EncodeLists, VisitLists;
    var body := EncodeLists(rs[0].lists);
    assert ValidRecord(rs[0]);
    Cut(data, pos, EncodeRecord(rs[0]), EncodeRecords(rs[1..]));
    Cut(data, pos, Head(SEQ, rs[0].size, |body|), body);
  }

  /** No bytes, no records. */
  lemma {:induction false} RecordLast(rs: seq<Record>, v: Reader)
    ensures |EncodeRecords(rs)| == 0 ==> VisitRecords(v, rs) == v
  {
  }

  /** What the header bytes of an element say, byte by byte. */
  lemma {:induction false} HeadAt(data: seq<Byte>, pos: nat, kind: nat, size: nat, n: nat)
    requires Fits(kind, size, n) && At(data, pos, Head(kind, size, n))
    ensures |Head(kind, size, n)| == if size < 5 then 1 else if size == 5 then 2 else if size == 6 then 3 else 5
    ensures pos + |Head(kind, size, n)| <= |data|
    ensures data[pos] / 8 == kind && data[pos] % 8 == size
    ensures size == 5 ==> data[pos + 1] == n
    ensures size == 6 ==> Word(data[pos + 2], data[pos + 1]) == n
    ensures size == 7 ==> FromLe32(data[pos + 4], data[pos + 3], data[pos + 2], data[pos + 1]) == n
  {
    hide FromLe32;
    var h := Head(kind, size, n);
    ByteAt(data, pos, h, 0);
    if size >= 5 { ByteAt(data, pos, h, 1); }
    if size >= 6 { ByteAt(data, pos, h, 2); }
    if size == 7 {
      ByteAt(data, pos, h, 3);
      ByteAt(data, pos, h, 4);
      Le32RoundTrip(n);
    }
  }
}
