/**
 * Service discovery records as trees, their bytes (Bluetooth Core Specification, Volume 3
 * Part B, sections 3.2 and 3.3), and what a reader of strings should take from them.
 */
module SdpRecord {
  import opened Bytes
  import opened BitList

  const NULL: nat := 0
  const UINT: nat := 1
  const STRING: nat := 4
  const BOOL: nat := 5
  const SEQ: nat := 6
  const ALT: nat := 7

  /** size is the size index: 0-4 fixed, 5-7 a length of one, two or four bytes. */
  datatype Elem =
    | Leaf(kind: nat, size: nat, payload: seq<Byte>)
    | Sequence(size: nat, items: seq<Elem>)
    | Alternative(size: nat, items: seq<Elem>)

  /** An element of a list, with its attribute id where the list pairs values with ids. */
  datatype Entry = Entry(id: Option<Word16>, value: Elem)

  datatype AttributeList = AttributeList(size: nat, entries: seq<Entry>)

  datatype Record = Record(size: nat, lists: seq<AttributeList>)

  // ---- bytes -----------------------------------------------------------------------

  /** The header of an element: type and size index, then the length where it is explicit. */
  function Head(kind: nat, size: nat, n: nat): (h: seq<Byte>)
    ensures |h| >= 1
  {
    [(8 * kind + size) % 0x100] +
    if size == 5 then [n % 0x100]
    else if size == 6 then [n / 0x100 % 0x100, n % 0x100]
    else if size == 7 then [n / 0x100_0000 % 0x100, n / 0x1_0000 % 0x100, n / 0x100 % 0x100, n % 0x100]
    else []
  }

  function FixedSize(size: nat): nat {
    if size == 0 then 1 else if size == 1 then 2 else if size == 2 then 4 else if size == 3 then 8 else 16
  }

  /** The size index can say n; NULL has no payload and BOOL has one byte. */
  predicate Fits(kind: nat, size: nat, n: nat) {
    && kind < 32 && size < 8
    && (kind == NULL ==> size == 0 && n == 0)
    && (kind == BOOL ==> size == 0)
    && (kind != NULL ==>
          if size == 5 then n < 0x100 else if size == 6 then n < 0x1_0000
          else if size == 7 then n < 0x8000_0000 else n == FixedSize(size))
  }

  ghost predicate ValidElem(e: Elem)
    decreases e
  {
    match e
    case Leaf(kind, size, payload) => kind != SEQ && kind != ALT && Fits(kind, size, |payload|)
    case Sequence(size, items) => ValidAll(items) && Fits(SEQ, size, |EncodeAll(items)|)
    case Alternative(size, items) => ValidAll(items) && Fits(ALT, size, |EncodeAll(items)|)
  }

  ghost predicate ValidAll(items: seq<Elem>)
    decreases items
  {
    items == [] || (ValidElem(items[0]) && ValidAll(items[1..]))
  }

  function Encode(e: Elem): (bs: seq<Byte>)
    ensures |bs| >= 1
    decreases e
  {
    match e
    case Leaf(kind, size, payload) => Head(kind, size, |payload|) + payload
    case Sequence(size, items) => var body := EncodeAll(items); Head(SEQ, size, |body|) + body
    case Alternative(size, items) => var body := EncodeAll(items); Head(ALT, size, |body|) + body
  }

  function EncodeAll(items: seq<Elem>): seq<Byte>
    decreases items
  {
    if items == [] then [] else Encode(items[0]) + EncodeAll(items[1..])
  }

  /** In a list with ids every value follows its id, a two-byte unsigned integer. */
  function EncodeEntry(t: Entry): (bs: seq<Byte>)
    ensures |bs| >= 1
  {
    IdBytes(t.id) + Encode(t.value)
  }

  function EncodeEntries(ts: seq<Entry>): seq<Byte> {
    if ts == [] then [] else EncodeEntry(ts[0]) + EncodeEntries(ts[1..])
  }

  function EncodeList(l: AttributeList): (bs: seq<Byte>)
    ensures |bs| >= 1
  {
    var body := EncodeEntries(l.entries); Head(SEQ, l.size, |body|) + body
  }

  function EncodeLists(ls: seq<AttributeList>): seq<Byte> {
    if ls == [] then [] else EncodeList(ls[0]) + EncodeLists(ls[1..])
  }

  function EncodeRecord(r: Record): (bs: seq<Byte>)
    ensures |bs| >= 1
  {
    var body := EncodeLists(r.lists); Head(SEQ, r.size, |body|) + body
  }

  function EncodeRecords(rs: seq<Record>): seq<Byte> {
    if rs == [] then [] else EncodeRecord(rs[0]) + EncodeRecords(rs[1..])
  }

  ghost predicate ValidEntries(ts: seq<Entry>, withIds: bool) {
    forall i :: 0 <= i < |ts| ==> ValidElem(ts[i].value) && ts[i].id.Some? == withIds
  }

  ghost predicate ValidList(l: AttributeList) {
    ValidEntries(l.entries, true) && Fits(SEQ, l.size, |EncodeEntries(l.entries)|)
  }

  ghost predicate ValidRecord(r: Record) {
    (forall i :: 0 <= i < |r.lists| ==> ValidList(r.lists[i])) && Fits(SEQ, r.size, |EncodeLists(r.lists)|)
  }

  function KindOf(e: Elem): nat {
    if e.Leaf? then e.kind else if e.Sequence? then SEQ else ALT
  }

  function PayloadOf(e: Elem): seq<Byte> {
    if e.Leaf? then e.payload else EncodeAll(e.items)
  }

  lemma {:induction false} ElemShape(e: Elem)
    requires ValidElem(e)
    ensures Encode(e) == Head(KindOf(e), e.size, |PayloadOf(e)|) + PayloadOf(e)
    ensures Fits(KindOf(e), e.size, |PayloadOf(e)|)
    ensures KindOf(e) == SEQ <==> e.Sequence?
    ensures e.Sequence? ==> ValidAll(e.items)
    ensures KindOf(e) == BOOL ==> |PayloadOf(e)| == 1
    ensures KindOf(e) == NULL ==> |PayloadOf(e)| == 0
  {
  }

  /** The id in front of a value, when the list has ids. */
  function IdBytes(id: Option<Word16>): seq<Byte> {
    if id.Some? then Head(UINT, 1, 2) + [High(id.value), Low(id.value)] else []
  }

  // ---- what a reader keeps -----------------------------------------------------------

  /** The four strings a reader collects, and the attribute it is in. */
  datatype Reader = Reader(id: Word16, srvName: seq<Byte>, srvDesc: seq<Byte>, provider: seq<Byte>, hid: seq<Byte>)

  function OnString(r: Reader, s: seq<Byte>): Reader {
    match r.id
    case 0x0100 => r.(srvName := s)
    case 0x0101 => r.(srvDesc := s)
    case 0x0102 => r.(provider := s)
    case 0x0206 => r.(hid := s)
    case _ => r
  }

  /** Strings are taken where they stand, sequences are entered, alternatives are skipped. */
  function Visit(r: Reader, e: Elem): (r': Reader)
    ensures r'.id == r.id
    decreases e
  {
    match e
    case Leaf(kind, _, payload) => if kind == STRING then OnString(r, payload) else r
    case Sequence(_, items) => VisitAll(r, items)
    case Alternative(_, _) => r
  }

  function VisitAll(r: Reader, items: seq<Elem>): (r': Reader)
    ensures r'.id == r.id
    decreases items
  {
    if items == [] then r else VisitAll(Visit(r, items[0]), items[1..])
  }

  /** A value is read under its own id, or under the attribute the reader is in. */
  function VisitEntry(r: Reader, t: Entry): Reader {
    Visit(if t.id.Some? then r.(id := t.id.value) else r, t.value)
  }

  function VisitEntries(r: Reader, ts: seq<Entry>): Reader
    decreases |ts|
  {
    if ts == [] then r
    else VisitEntries(VisitEntry(r, ts[0]), ts[1..])
  }

  function VisitLists(r: Reader, ls: seq<AttributeList>): Reader
    decreases |ls|
  {
    if ls == [] then r else VisitLists(VisitEntries(r, ls[0].entries), ls[1..])
  }

  function VisitRecords(r: Reader, rs: seq<Record>): Reader
    decreases |rs|
  {
    if rs == [] then r else VisitRecords(VisitLists(r, rs[0].lists), rs[1..])
  }

  // ---- the same, as the last string of a pre-order listing -----------------------------

  /** Every string of an element outside alternatives, in pre-order. */
  function Strings(e: Elem): seq<seq<Byte>>
    decreases e
  {
    match e
    case Leaf(kind, _, payload) => if kind == STRING then [payload] else []
    case Sequence(_, items) => StringsAll(items)
    case Alternative(_, _) => []
  }

  function StringsAll(items: seq<Elem>): seq<seq<Byte>>
    decreases items
  {
    if items == [] then [] else Strings(items[0]) + StringsAll(items[1..])
  }

  /** The strings standing under attribute id anywhere in the records, in order. */
  function StringsUnder(id: Word16, ts: seq<Entry>): seq<seq<Byte>>
    decreases |ts|
  {
    if ts == [] then []
    else (if ts[0].id == Some(id) then Strings(ts[0].value) else []) + StringsUnder(id, ts[1..])
  }

  function ListStrings(id: Word16, ls: seq<AttributeList>): seq<seq<Byte>>
    decreases |ls|
  {
    if ls == [] then [] else StringsUnder(id, ls[0].entries) + ListStrings(id, ls[1..])
  }

  function RecordStrings(id: Word16, rs: seq<Record>): seq<seq<Byte>>
    decreases |rs|
  {
    if rs == [] then [] else ListStrings(id, rs[0].lists) + RecordStrings(id, rs[1..])
  }

  function LastOr(ss: seq<seq<Byte>>, default': seq<Byte>): seq<Byte> {
    if ss == [] then default' else ss[|ss| - 1]
  }

  lemma {:induction false} LastOrConcat(a: seq<seq<Byte>>, b: seq<seq<Byte>>, d: seq<Byte>)
    ensures LastOr(a + b, d) == LastOr(b, LastOr(a, d))
  {
  }

  /** The field a string under attribute id goes to. */
  function Field(r: Reader, id: Word16): seq<Byte>
    requires Kept(id)
  {
    if id == 0x0100 then r.srvName else if id == 0x0101 then r.srvDesc else if id == 0x0102 then r.provider else r.hid
  }

  /** Name, description, provider and descriptor list are kept, and nothing else. */
  predicate Kept(id: Word16) { id in {0x0100, 0x0101, 0x0102, 0x0206} }

  /** Visiting an element keeps the last of its strings in the field of its attribute, and no other field. */
  lemma {:induction false} VisitKeepsLast(r: Reader, e: Elem, id: Word16)
    requires Kept(id)
    ensures Field(Visit(r, e), id) == if r.id == id then LastOr(Strings(e), Field(r, id)) else Field(r, id)
    decreases e
  {
    if e.Sequence? { VisitAllKeepsLast(r, e.items, id); }
  }

  lemma {:induction false} VisitAllKeepsLast(r: Reader, items: seq<Elem>, id: Word16)
    requires Kept(id)
    ensures Field(VisitAll(r, items), id)
            == if r.id == id then LastOr(StringsAll(items), Field(r, id)) else Field(r, id)
    decreases items
  {
    hide Field;
    if items != [] {
      VisitKeepsLast(r, items[0], id);
      VisitAllKeepsLast(Visit(r, items[0]), items[1..], id);
      LastOrConcat(Strings(items[0]), StringsAll(items[1..]), Field(r, id));
    }
  }

  lemma {:induction false} VisitEntriesKeepsLast(r: Reader, ts: seq<Entry>, id: Word16)
    requires Kept(id) && forall i :: 0 <= i < |ts| ==> ts[i].id.Some?
    ensures Field(VisitEntries(r, ts), id) == LastOr(StringsUnder(id, ts), Field(r, id))
    decreases |ts|
  {
    if ts != [] {
      var u := r.(id := ts[0].id.value);
      VisitKeepsLast(u, ts[0].value, id);
      VisitEntriesKeepsLast(Visit(u, ts[0].value), ts[1..], id);
      LastOrConcat(if ts[0].id == Some(id) then Strings(ts[0].value) else [], StringsUnder(id, ts[1..]), Field(r, id));
    }
  }

  lemma {:induction false} VisitListsKeepsLast(r: Reader, ls: seq<AttributeList>, id: Word16)
    requires Kept(id) && forall i :: 0 <= i < |ls| ==> ValidList(ls[i])
    ensures Field(VisitLists(r, ls), id) == LastOr(ListStrings(id, ls), Field(r, id))
    decreases |ls|
  {
    hide Field;
    if ls != [] {
      assert ValidList(ls[0]);
      VisitEntriesKeepsLast(r, ls[0].entries, id);
      VisitListsKeepsLast(VisitEntries(r, ls[0].entries), ls[1..], id);
      LastOrConcat(StringsUnder(id, ls[0].entries), ListStrings(id, ls[1..]), Field(r, id));
    }
  }

  /** Over whole records each field ends with the last string listed under its attribute. */
  lemma {:induction false} FieldsAreLastStrings(r: Reader, rs: seq<Record>, id: Word16)
    requires Kept(id) && forall i :: 0 <= i < |rs| ==> ValidRecord(rs[i])
    ensures Field(VisitRecords(r, rs), id) == LastOr(RecordStrings(id, rs), Field(r, id))
    decreases |rs|
  {
    hide Field;
    if rs != [] {
      assert ValidRecord(rs[0]);
      VisitListsKeepsLast(r, rs[0].lists, id);
      FieldsAreLastStrings(VisitLists(r, rs[0].lists), rs[1..], id);
      LastOrConcat(ListStrings(id, rs[0].lists), RecordStrings(id, rs[1..]), Field(r, id));
    }
  }

  /** The element sizes without a length are the powers of two up to 16. */
  lemma {:induction false} FixedSizes(size: nat)
    requires size < 5
    ensures FixedSize(size) == Pow2(size)
  {
    assert Pow2(0) == 1 && Pow2(1) == 2 && Pow2(2) == 4 && Pow2(3) == 8 && Pow2(4) == 16;
  }

  /** Strings, identifiers and small values as a stack sends them. */
  lemma {:induction false} LeafBytes(s: seq<Byte>, w: Word16)
    requires |s| < 0x100
    ensures Encode(Leaf(STRING, 5, s)) == [0x25, |s|] + s
    ensures Encode(Leaf(UINT, 1, [High(w), Low(w)])) == [0x09, w / 0x100, w % 0x100] == IdBytes(Some(w))
    ensures Encode(Leaf(BOOL, 0, [1])) == [0x28, 1] && Encode(Leaf(NULL, 0, [])) == [0]
  {
    hide EncodeAll;
  }

  /** A list of fewer than 256 bytes: its type, its length and its elements. */
  lemma {:induction false} ListBytes(items: seq<Elem>)
    requires |EncodeAll(items)| < 0x100
    ensures Encode(Sequence(5, items)) == [0x35, |EncodeAll(items)|] + EncodeAll(items)
    ensures Encode(Alternative(5, items)) == [0x3D, |EncodeAll(items)|] + EncodeAll(items)
  {
    hide EncodeAll;
  }

  // ---- the children of a sequence as entries without ids ---------------------------------

  function Bare(items: seq<Elem>): (ts: seq<Entry>)
    ensures |ts| == |items|
  {
    if items == [] then [] else [Entry(None, items[0])] + Bare(items[1..])
  }

  lemma {:induction false} BareEntries(r: Reader, items: seq<Elem>)
    requires ValidAll(items)
    ensures ValidEntries(Bare(items), false)
    ensures EncodeEntries(Bare(items)) == EncodeAll(items)
    ensures VisitEntries(r, Bare(items)) == VisitAll(r, items)
    decreases |items|
  {
    if items != [] {
      BareEntries(Visit(r, items[0]), items[1..]);
      assert Bare(items)[1..] == Bare(items[1..]);
      assert [] + Encode(items[0]) == Encode(items[0]);
    }
  }

  // ---- cutting a stream --------------------------------------------------------------

  /** The bytes bs stand at position pos. */
  ghost predicate At(data: seq<Byte>, pos: nat, bs: seq<Byte>) {
    pos + |bs| <= |data| && data[pos..pos + |bs|] == bs
  }

  lemma {:induction false} Cut(data: seq<Byte>, pos: nat, a: seq<Byte>, b: seq<Byte>)
    requires At(data, pos, a + b)
    ensures At(data, pos, a) && At(data, pos + |a|, b)
  {
    var whole := data[pos..pos + |a + b|];
    assert whole[..|a|] == a && whole[|a|..] == b;
    assert data[pos..pos + |a|] == whole[..|a|];
    assert data[pos + |a|..pos + |a| + |b|] == whole[|a|..];
  }

  lemma {:induction false} ByteAt(data: seq<Byte>, pos: nat, bs: seq<Byte>, i: nat)
    requires At(data, pos, bs) && i < |bs|
    ensures data[pos + i] == bs[i]
  {
    assert data[pos..pos + |bs|][i] == data[pos + i];
  }
}
