/** The wire format both sides of the FastCGI client share: bytes, record headers and records, and the
    reference parser of section 3.3 of the FastCGI Specification 1.0 that the client's own incremental
    decoder and encoder are measured against. */
module FcgiProtocol {

  newtype byte = b: int | 0 <= b < 256

  const HEADER_LEN := 8
  const MAX_LENGTH := 0xFFFF
  const VERSION_1: byte := 1

  const BEGIN_REQUEST: byte := 1
  const END_REQUEST: byte := 3
  const PARAMS: byte := 4
  const STDIN: byte := 5
  const STDOUT: byte := 6
  const STDERR: byte := 7

  const RESPONDER: byte := 1
  const KEEP_CONN: byte := 1

  /** FCGI_Header, field by field in wire order. */
  datatype Header = Header(
    version: byte, kind: byte,
    requestIdB1: byte, requestIdB0: byte,
    contentLengthB1: byte, contentLengthB0: byte,
    paddingLength: byte, reserved: byte)
  {
    function Bytes(): seq<byte> {
      [version, kind, requestIdB1, requestIdB0, contentLengthB1, contentLengthB0, paddingLength, reserved]
    }

    function ContentLength(): nat {
      contentLengthB1 as nat * 256 + contentLengthB0 as nat
    }

    function BodyLength(): nat {
      ContentLength() + paddingLength as nat
    }
  }

  function HeaderOf(bs: seq<byte>): Header
    requires |bs| == HEADER_LEN
  {
    Header(bs[0], bs[1], bs[2], bs[3], bs[4], bs[5], bs[6], bs[7])
  }

  datatype Record = Record(header: Header, content: seq<byte>)

  /** The bytes of a record whose padding is `padding`. */
  function RecordBytes(r: Record, padding: seq<byte>): seq<byte> {
    r.header.Bytes() + r.content + padding
  }

  ghost predicate WellFormed(r: Record, padding: seq<byte>) {
    |r.content| == r.header.ContentLength() && |padding| == r.header.paddingLength as nat
  }

  // ---- The reference parser -------------------------------------------------------------------------

  /** Does a complete record stand at the front of `bs`? */
  predicate HasRecord(bs: seq<byte>) {
    |bs| >= HEADER_LEN && |bs| >= HEADER_LEN + HeaderOf(bs[..HEADER_LEN]).BodyLength()
  }

  function FirstLength(bs: seq<byte>): (n: nat)
    requires HasRecord(bs)
    ensures HEADER_LEN <= n <= |bs|
  {
    HEADER_LEN + HeaderOf(bs[..HEADER_LEN]).BodyLength()
  }

  function FirstRecord(bs: seq<byte>): Record
    requires HasRecord(bs)
  {
    var h := HeaderOf(bs[..HEADER_LEN]);
    Record(h, bs[HEADER_LEN..HEADER_LEN + h.ContentLength()])
  }

  /** Every complete record of `bs`, in order; what follows the last one is an unfinished record. */
  function Records(bs: seq<byte>): seq<Record> {
    if HasRecord(bs) then [FirstRecord(bs)] + Records(bs[FirstLength(bs)..]) else []
  }

  lemma FirstOfRecordBytes(r: Record, padding: seq<byte>, tail: seq<byte>)
    requires WellFormed(r, padding)
    ensures var bs := RecordBytes(r, padding) + tail;
            HasRecord(bs) && FirstRecord(bs) == r && FirstLength(bs) == |RecordBytes(r, padding)| && bs[FirstLength(bs)..] == tail
  {
    var bs := RecordBytes(r, padding) + tail;
    assert bs[..HEADER_LEN] == r.header.Bytes();
    assert HeaderOf(bs[..HEADER_LEN]) == r.header;
    assert bs[HEADER_LEN..HEADER_LEN + |r.content|] == r.content;
  }

  /** Reading undoes writing, one record at a time. */
  lemma RecordsOfRecordBytes(r: Record, padding: seq<byte>, tail: seq<byte>)
    requires WellFormed(r, padding)
    ensures Records(RecordBytes(r, padding) + tail) == [r] + Records(tail)
  {
    FirstOfRecordBytes(r, padding, tail);
  }
}
