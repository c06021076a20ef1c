/** The MZT file layout: records of a 128-byte header and the body it announces. */
module MztRecord {
  import opened Bytes

  const HEADER: nat := 128

  /** A header and the body that follows it in the file. */
  datatype Record = Record(header: seq<Byte>, body: seq<Byte>)

  function SizeOf(header: seq<Byte>): Word16
    requires |header| >= HEADER
  {
    Word(header[0x12], header[0x13])
  }

  function OffsOf(header: seq<Byte>): Word16
    requires |header| >= HEADER
  {
    Word(header[0x14], header[0x15])
  }

  function AddrOf(header: seq<Byte>): Word16
    requires |header| >= HEADER
  {
    Word(header[0x16], header[0x17])
  }

  /** The body is as long as the header says. */
  predicate ValidRecord(r: Record) {
    |r.header| == HEADER && |r.body| == SizeOf(r.header)
  }

  /** Records laid end to end, and what follows the last of them. */
  function FileOf(rs: seq<Record>, tail: seq<Byte>): seq<Byte> {
    if rs == [] then tail else rs[0].header + rs[0].body + FileOf(rs[1..], tail)
  }
}
