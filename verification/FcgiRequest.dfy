/** The bytes of a FastCGI request: name-value pairs, the records around them, and what a reader of the
    FastCGI Specification 1.0 (sections 3.3, 3.4, 5.1-5.3) finds in them. */
module FcgiRequest {
  import opened Wrappers
  import opened FcgiProtocol
  import opened FcgiStream
  import opened FcgiResponse

  function Byte0(x: nat): byte { (x % 256) as byte }
  function Byte1(x: nat): byte { (x / 0x100 % 256) as byte }
  function Byte2(x: nat): byte { (x / 0x1_0000 % 256) as byte }

  /** The top byte of a 32-bit number with its high bit set. */
  function Byte3(x: nat): byte {
    var top := x / 0x100_0000 % 256;
    if top < 128 then (top + 128) as byte else top as byte
  }

  datatype Param = Param(name: seq<byte>, value: seq<byte>)

  /** The source keeps string lengths in 32 bits. */
  function Uint32(n: nat): nat {
    n % 0x1_0000_0000
  }

  function LengthBytes(n: nat): (bs: seq<byte>) {
    if n < 128 then [Byte0(n)] else [Byte3(n), Byte2(n), Byte1(n), Byte0(n)]
  }

  function ParamBytes(p: Param): seq<byte> {
    var nl, vl := Uint32(|p.name|), Uint32(|p.value|);
    LengthBytes(nl) + LengthBytes(vl) + p.name[..nl] + p.value[..vl]
  }

  function ParamsBytes(ps: seq<Param>): seq<byte> {
    if ps == [] then [] else ParamBytes(ps[0]) + ParamsBytes(ps[1..])
  }

  lemma {:induction false} ParamsBytesSnoc(ps: seq<Param>, i: nat)
    requires i < |ps|
    ensures ParamsBytes(ps[..i + 1]) == ParamsBytes(ps[..i]) + ParamBytes(ps[i])
    ensures |ParamsBytes(ps[..i])| + |ParamBytes(ps[i])| <= |ParamsBytes(ps)|
    decreases i
  {
    if i == 0 {
      assert ps[..1][1..] == [] == ps[..0];
    } else {
      ParamsBytesSnoc(ps[1..], i - 1);
      assert ps[..i + 1][1..] == ps[1..][..i];
      assert ps[..i][1..] == ps[1..][..i - 1];
    }
  }

  // ---- The section 3.4 reader -------------------------------------------------------------------------

  const LONG := 0x8000_0000

  /** A length and the number of bytes it takes. */
  function ReadLength(bs: seq<byte>): (r: Option<(nat, nat)>)
    ensures r.Some? ==> r.value.0 < LONG && 0 < r.value.1 <= |bs|
  {
    if bs == [] then None
    else if bs[0] < 128 then Some((bs[0] as nat, 1))
    else if |bs| < 4 then None
    else Some(((bs[0] - 128) as nat * 0x100_0000 + bs[1] as nat * 0x1_0000 + bs[2] as nat * 0x100 + bs[3] as nat, 4))
  }

  function ReadParam(bs: seq<byte>): (r: Option<(Param, seq<byte>)>)
    ensures r.Some? ==> |r.value.0.name| < LONG && |r.value.0.value| < LONG && |r.value.1| < |bs|
  {
    var n := ReadLength(bs);
    if n.None? then None
    else
      var v := ReadLength(bs[n.value.1..]);
      if v.None? then None
      else
        var body := bs[n.value.1 + v.value.1..];
        var nl, vl := n.value.0, v.value.0;
        if |body| < nl + vl then None
        else Some((Param(body[..nl], body[nl..nl + vl]), body[nl + vl..]))
  }

  function ReadParams(bs: seq<byte>): (r: Option<seq<Param>>)
    ensures r.Some? ==> forall p :: p in r.value ==> Readable(p)
    decreases |bs|
  {
    if bs == [] then Some([])
    else
      var first := ReadParam(bs);
      if first.None? then None
      else
        var rest := ReadParams(first.value.1);
        if rest.None? then None else Some([first.value.0] + rest.value)
  }

  /** The section 3.4 format has 31 bits for a length. */
  predicate Readable(p: Param) {
    |p.name| < LONG && |p.value| < LONG
  }

  lemma LengthRoundTrip(n: nat, tail: seq<byte>)
    requires n < LONG
    ensures ReadLength(LengthBytes(n) + tail) == Some((n, |LengthBytes(n)|))
  {
    hide Byte1, Byte2;
    BytesMean(n);
    var bs := LengthBytes(n) + tail;
    assert bs[0] == LengthBytes(n)[0];
    if n >= 128 { assert bs[..4] == [Byte3(n), Byte2(n), Byte1(n), Byte0(n)]; }
  }

  /** Four bytes, the first with its high bit set, hold 31 bits. */
  lemma BytesMean(n: nat)
    requires n < LONG
    ensures Byte3(n) >= 128
    ensures (Byte3(n) - 128) as nat * 0x100_0000 + Byte2(n) as nat * 0x1_0000 + Byte1(n) as nat * 0x100 + Byte0(n) as nat == n
  {
    var a, b, c := n / 0x100, n / 0x1_0000, n / 0x100_0000;
    assert n == 0x100 * a + n % 0x100;
    assert a == 0x100 * b + a % 0x100;
    assert b == 0x100 * c + b % 0x100;
    assert c < 128;
  }

  lemma ParamRoundTrip(p: Param, tail: seq<byte>)
    requires Readable(p)
    ensures ReadParam(ParamBytes(p) + tail) == Some((p, tail))
  {
    hide LengthBytes, ReadLength;
    var nl, vl := |p.name|, |p.value|;
    assert p.name[..nl] == p.name && p.value[..vl] == p.value;
    var a, b := LengthBytes(nl), LengthBytes(vl);
    Cut(a, b, p.name, p.value, tail);
    LengthRoundTrip(nl, b + (p.name + p.value + tail));
    LengthRoundTrip(vl, p.name + p.value + tail);
  }

  /** Taking four pieces off the front. */
  lemma Cut(a: seq<byte>, b: seq<byte>, x: seq<byte>, y: seq<byte>, tail: seq<byte>)
    ensures var bs := a + b + x + y + tail;
            && bs == a + (b + (x + y + tail))
            && bs[|a|..] == b + (x + y + tail)
            && bs[|a| + |b|..] == x + y + tail
    ensures var body := x + y + tail; body[..|x|] == x && body[|x|..|x| + |y|] == y && body[|x| + |y|..] == tail
  {
  }

  /** A parameter stream reads back as the parameters it was written from, exactly when no name or value
      is too long for the format. */
  lemma {:induction false} ParamsRoundTrip(ps: seq<Param>)
    ensures ReadParams(ParamsBytes(ps)) == Some(ps) <==> forall p :: p in ps ==> Readable(p)
    decreases |ps|
  {
    hide ParamBytes, ReadParam, Readable;
    if (forall p :: p in ps ==> Readable(p)) && ps != [] {
      assert ps[0] in ps;
      ParamRoundTrip(ps[0], ParamsBytes(ps[1..]));
      ParamsRoundTrip(ps[1..]);
      assert [ps[0]] + ps[1..] == ps;
    }
  }

  /** Two parameter lists with the same bytes are the same list. */
  lemma ParamsBytesInjective(ps: seq<Param>, qs: seq<Param>)
    requires (forall p :: p in ps ==> Readable(p)) && (forall q :: q in qs ==> Readable(q))
    requires ParamsBytes(ps) == ParamsBytes(qs)
    ensures ps == qs
  {
    ParamsRoundTrip(ps);
    ParamsRoundTrip(qs);
  }

  // ---- Records of a request -----------------------------------------------------------------------------

  function MakeHeader(id: nat, kind: byte): Header {
    Header(VERSION_1, kind, Byte1(id), Byte0(id), 0, 0, 0, 0)
  }

  /** Sets the two length bytes, which hold the length modulo 2^16. */
  function WithLength(h: Header, n: nat): (h': Header)
    ensures h'.ContentLength() == n % 0x1_0000
  {
    h.(contentLengthB0 := Byte0(n), contentLengthB1 := Byte1(n))
  }

  const BEGIN_BODY: seq<byte> := [0, RESPONDER, KEEP_CONN, 0, 0, 0, 0, 0]

  function Framed(id: nat, kind: byte, content: seq<byte>): seq<byte> {
    WithLength(MakeHeader(id, kind), |content|).Bytes() + content
  }

  function FramedRecord(id: nat, kind: byte, content: seq<byte>): Record {
    Record(WithLength(MakeHeader(id, kind), |content|), content)
  }

  /** writeRequestHeader. */
  function HeaderPart(id: nat, params: seq<Param>): seq<byte> {
    Framed(id, BEGIN_REQUEST, BEGIN_BODY) + Framed(id, PARAMS, ParamsBytes(params)) + Framed(id, PARAMS, [])
  }

  /** writeRequestBody: every chunk of the body is followed by an empty STDIN record. */
  function BodyPart(id: nat, data: seq<byte>): seq<byte> {
    Framed(id, STDIN, data) + Framed(id, STDIN, [])
  }

  /** writeRequestBodyComplete: the empty STDIN record is written only for other methods than POST. */
  function CompletePart(id: nat, post: bool): seq<byte> {
    if post then [] else Framed(id, STDIN, [])
  }

  function BodyParts(id: nat, chunks: seq<seq<byte>>): seq<byte> {
    if chunks == [] then [] else BodyPart(id, chunks[0]) + BodyParts(id, chunks[1..])
  }

  const REQUEST_METHOD: seq<byte> := Ascii("REQUEST_METHOD")
  const POST: seq<byte> := Ascii("POST")

  predicate IsPost(params: seq<Param>) {
    exists i :: 0 <= i < |params| && params[i].name == REQUEST_METHOD && params[i].value == POST
  }

  /** All that is written for one request whose body arrives in `chunks`. */
  function RequestBytes(id: nat, params: seq<Param>, chunks: seq<seq<byte>>): seq<byte> {
    HeaderPart(id, params) + BodyParts(id, chunks) + CompletePart(id, IsPost(params))
  }

  function BodyRecords(id: nat, chunks: seq<seq<byte>>): seq<Record> {
    if chunks == [] then [] else [FramedRecord(id, STDIN, chunks[0]), FramedRecord(id, STDIN, [])] + BodyRecords(id, chunks[1..])
  }

  function HeadRecords(id: nat, params: seq<Param>): seq<Record> {
    [FramedRecord(id, BEGIN_REQUEST, BEGIN_BODY), FramedRecord(id, PARAMS, ParamsBytes(params)), FramedRecord(id, PARAMS, [])]
  }

  /** The records the request is meant to consist of. */
  function RequestRecords(id: nat, params: seq<Param>, chunks: seq<seq<byte>>): seq<Record> {
    HeadRecords(id, params)
    + BodyRecords(id, chunks)
    + (if IsPost(params) then [] else [FramedRecord(id, STDIN, [])])
  }

  lemma FramedReads(id: nat, kind: byte, content: seq<byte>, tail: seq<byte>)
    requires |content| <= MAX_LENGTH
    ensures Records(Framed(id, kind, content) + tail) == [FramedRecord(id, kind, content)] + Records(tail)
    ensures Unread(Framed(id, kind, content) + tail) == Unread(tail)
  {
    var r := FramedRecord(id, kind, content);
    assert RecordBytes(r, []) == Framed(id, kind, content);
    RecordsOfRecordBytes(r, [], tail);
    FirstOfRecordBytes(r, [], tail);
  }

  lemma {:induction false} BodyPartsRead(id: nat, chunks: seq<seq<byte>>, tail: seq<byte>)
    requires forall c :: c in chunks ==> |c| <= MAX_LENGTH
    ensures Records(BodyParts(id, chunks) + tail) == BodyRecords(id, chunks) + Records(tail)
    ensures Unread(BodyParts(id, chunks) + tail) == Unread(tail)
    decreases |chunks|
  {
    hide Framed, FramedRecord, Records, Unread;
    if chunks == [] {
      assert [] + tail == tail;
    } else {
      var rest := BodyParts(id, chunks[1..]) + tail;
      assert chunks[0] in chunks;
      BodyPartsRead(id, chunks[1..], tail);
      FramedReads(id, STDIN, [], rest);
      FramedReads(id, STDIN, chunks[0], Framed(id, STDIN, []) + rest);
      assert BodyParts(id, chunks) + tail == Framed(id, STDIN, chunks[0]) + (Framed(id, STDIN, []) + rest);
    }
  }

  lemma TailReads(id: nat, post: bool)
    ensures Records(CompletePart(id, post)) == if post then [] else [FramedRecord(id, STDIN, [])]
    ensures Unread(CompletePart(id, post)) == []
  {
    if !post {
      FramedReads(id, STDIN, [], []);
      assert CompletePart(id, post) + [] == CompletePart(id, post);
    }
  }

  /** No record holds more than the two length bytes can say. */
  lemma {:induction false} RecordsAreShort(bs: seq<byte>)
    ensures forall r :: r in Records(bs) ==> |r.content| <= MAX_LENGTH
    decreases |bs|
  {
    if HasRecord(bs) { RecordsAreShort(bs[FirstLength(bs)..]); }
  }

  /** The reference parser reads a request back, record by record, exactly when the parameters and every
      body chunk fit the length field of one record. */
  lemma RequestRoundTrip(id: nat, params: seq<Param>, chunks: seq<seq<byte>>)
    ensures Records(RequestBytes(id, params, chunks)) == RequestRecords(id, params, chunks) <==>
            |ParamsBytes(params)| <= MAX_LENGTH && forall c :: c in chunks ==> |c| <= MAX_LENGTH
  {
    if |ParamsBytes(params)| <= MAX_LENGTH && forall c :: c in chunks ==> |c| <= MAX_LENGTH {
      RequestReads(id, params, chunks);
    } else {
      RecordsAreShort(RequestBytes(id, params, chunks));
      var rs := RequestRecords(id, params, chunks);
      if |ParamsBytes(params)| > MAX_LENGTH {
        assert rs[1] in rs;
      } else {
        var c :| c in chunks && |c| > MAX_LENGTH;
        BodyRecordsHold(id, chunks, c);
        assert FramedRecord(id, STDIN, c) in rs;
      }
    }
  }

  lemma {:induction false} BodyRecordsHold(id: nat, chunks: seq<seq<byte>>, c: seq<byte>)
    requires c in chunks
    ensures FramedRecord(id, STDIN, c) in BodyRecords(id, chunks)
    decreases |chunks|
  {
    if chunks[0] != c { BodyRecordsHold(id, chunks[1..], c); }
  }

  lemma RequestReads(id: nat, params: seq<Param>, chunks: seq<seq<byte>>)
    requires |ParamsBytes(params)| <= MAX_LENGTH && forall c :: c in chunks ==> |c| <= MAX_LENGTH
    ensures Records(RequestBytes(id, params, chunks)) == RequestRecords(id, params, chunks)
    ensures Unread(RequestBytes(id, params, chunks)) == []
  {
    hide Framed, FramedRecord, Records, Unread, IsPost, ParamsBytes, BodyParts, BodyRecords;
    var end := CompletePart(id, IsPost(params));
    var body := BodyParts(id, chunks) + end;
    var p := Framed(id, PARAMS, ParamsBytes(params));
    TailReads(id, IsPost(params));
    BodyPartsRead(id, chunks, end);
    FramedReads(id, PARAMS, [], body);
    FramedReads(id, PARAMS, ParamsBytes(params), Framed(id, PARAMS, []) + body);
    FramedReads(id, BEGIN_REQUEST, BEGIN_BODY, p + (Framed(id, PARAMS, []) + body));
    assert RequestBytes(id, params, chunks) == Framed(id, BEGIN_REQUEST, BEGIN_BODY) + (p + (Framed(id, PARAMS, []) + body));
  }

  /** The client's own decoder, too, hands on every record of the request, however it is cut, except a
      closing empty record that no further byte follows; and it keeps asking for more. */
  lemma RequestDecodes(id: nat, params: seq<Param>, chunks: seq<seq<byte>>)
    requires |ParamsBytes(params)| <= MAX_LENGTH && forall c :: c in chunks ==> |c| <= MAX_LENGTH
    ensures var rs := RequestRecords(id, params, chunks);
            var f := FeedBytes(FRESH, RequestBytes(id, params, chunks));
            f.records == rs[..|rs| - 1] && !f.finished
  {
    var bs, rs := RequestBytes(id, params, chunks), RequestRecords(id, params, chunks);
    RequestReads(id, params, chunks);
    FeedRefinesRecords(bs);
    RequestEndsBare(id, params, chunks);
    RequestKinds(id, params, chunks);
    NotTerminal(rs[..|rs| - 1]);
  }

  lemma {:induction false} NotTerminal(rs: seq<Record>)
    requires forall r :: r in rs ==> !Terminal(r)
    ensures UpToTerminal(rs) == rs && !HasTerminal(rs)
    decreases |rs|
  {
    if rs != [] { NotTerminal(rs[1..]); }
  }

  lemma {:induction false} RequestKinds(id: nat, params: seq<Param>, chunks: seq<seq<byte>>)
    ensures forall r :: r in RequestRecords(id, params, chunks) ==> r.header.kind in {BEGIN_REQUEST, PARAMS, STDIN}
  {
    BodyKinds(id, chunks);
  }

  lemma {:induction false} BodyKinds(id: nat, chunks: seq<seq<byte>>)
    ensures forall r :: r in BodyRecords(id, chunks) ==> r.header.kind == STDIN
    decreases |chunks|
  {
    if chunks != [] { BodyKinds(id, chunks[1..]); }
  }

  /** The last record of a request is an empty one, and its bytes are used up. */
  lemma RequestEndsBare(id: nat, params: seq<Param>, chunks: seq<seq<byte>>)
    requires |ParamsBytes(params)| <= MAX_LENGTH && forall c :: c in chunks ==> |c| <= MAX_LENGTH
    ensures EndsInBareHeader(RequestBytes(id, params, chunks))
  {
    RequestReads(id, params, chunks);
    BodyRecordsEnd(id, chunks);
  }

  lemma {:induction false} BodyRecordsEnd(id: nat, chunks: seq<seq<byte>>)
    ensures var rs := BodyRecords(id, chunks); chunks != [] ==> rs != [] && rs[|rs| - 1] == FramedRecord(id, STDIN, [])
    decreases |chunks|
  {
    if |chunks| > 1 { BodyRecordsEnd(id, chunks[1..]); }
  }

  // ---- Is it a well-formed request? ---------------------------------------------------------------------

  /** The contents of the records of one kind, in order. */
  function Stream(rs: seq<Record>, kind: byte): seq<seq<byte>> {
    if rs == [] then [] else (if rs[0].header.kind == kind then [rs[0].content] else []) + Stream(rs[1..], kind)
  }

  /** Section 3.3: a stream is sent in records that are not empty, followed by exactly one that is. */
  predicate Closed(stream: seq<seq<byte>>) {
    && stream != []
    && stream[|stream| - 1] == []
    && forall i :: 0 <= i < |stream| - 1 ==> stream[i] != []
  }

  /** A BEGIN_REQUEST record, then the two streams of a responder, each closed. */
  predicate WellFormedRequest(rs: seq<Record>) {
    && rs != [] && rs[0].header.kind == BEGIN_REQUEST
    && Closed(Stream(rs, PARAMS))
    && Closed(Stream(rs, STDIN))
  }

  lemma {:induction false} StreamConcat(a: seq<Record>, b: seq<Record>, kind: byte)
    ensures Stream(a + b, kind) == Stream(a, kind) + Stream(b, kind)
    decreases |a|
  {
    if a == [] {
      assert a + b == b;
    } else {
      StreamConcat(a[1..], b, kind);
      assert (a + b)[1..] == a[1..] + b;
    }
  }

  lemma {:induction false} BodyStreams(id: nat, chunks: seq<seq<byte>>)
    ensures Stream(BodyRecords(id, chunks), PARAMS) == []
    ensures var s := Stream(BodyRecords(id, chunks), STDIN);
            |s| == 2 * |chunks| && (chunks != [] ==> s[0] == chunks[0] && s[1] == [])
    decreases |chunks|
  {
    if chunks != [] {
      BodyStreams(id, chunks[1..]);
      var two := [FramedRecord(id, STDIN, chunks[0]), FramedRecord(id, STDIN, [])];
      StreamConcat(two, BodyRecords(id, chunks[1..]), PARAMS);
      StreamConcat(two, BodyRecords(id, chunks[1..]), STDIN);
      assert two[1..][1..] == [];
      assert Stream(two, STDIN) == [chunks[0], []];
      assert Stream(two, PARAMS) == [];
    }
  }

  /** What is written for one request is a well-formed FastCGI request exactly when a POST body arrives in
      one chunk, and any other request has none: every chunk is written with its own end of stream, and
      the end of stream of a POST is written with a chunk only. */
  lemma RequestWellFormed(id: nat, params: seq<Param>, chunks: seq<seq<byte>>)
    requires params != [] && |ParamsBytes(params)| <= MAX_LENGTH && forall c :: c in chunks ==> 0 < |c| <= MAX_LENGTH
    ensures WellFormedRequest(Records(RequestBytes(id, params, chunks))) <==> |chunks| == if IsPost(params) then 1 else 0
  {
    hide Records, RequestBytes, BodyRecords, Stream, IsPost, ParamsBytes;
    RequestReads(id, params, chunks);
    RequestStreams(id, params, chunks);
    HeadStreams(id, params);
    BodyStreams(id, chunks);
    var s := Stream(RequestRecords(id, params, chunks), STDIN);
    if chunks != [] { assert s[0] == chunks[0] && s[1] == []; assert chunks[0] in chunks; }
  }

  lemma RequestStreams(id: nat, params: seq<Param>, chunks: seq<seq<byte>>)
    ensures var rs := RequestRecords(id, params, chunks);
            && Stream(rs, PARAMS) == Stream(HeadRecords(id, params), PARAMS)
            && Stream(rs, STDIN) == Stream(HeadRecords(id, params), STDIN) + Stream(BodyRecords(id, chunks), STDIN) + (if IsPost(params) then [] else [[]])
  {
    hide Stream, IsPost, BodyRecords, HeadRecords;
    var head, body := HeadRecords(id, params), BodyRecords(id, chunks);
    var end := if IsPost(params) then [] else [FramedRecord(id, STDIN, [])];
    forall kind: byte ensures Stream(head + body + end, kind) == Stream(head, kind) + Stream(body, kind) + Stream(end, kind) {
      StreamConcat(head + body, end, kind);
      StreamConcat(head, body, kind);
    }
    BodyStreams(id, chunks);
    EndStreams(id);
  }

  lemma EndStreams(id: nat)
    ensures Stream([], STDIN) == Stream([], PARAMS) == []
    ensures Stream([FramedRecord(id, STDIN, [])], STDIN) == [[]]
    ensures Stream([FramedRecord(id, STDIN, [])], PARAMS) == []
  {
    assert [FramedRecord(id, STDIN, [])][1..] == [];
  }

  lemma HeadStreams(id: nat, params: seq<Param>)
    requires params != []
    ensures Stream(HeadRecords(id, params), STDIN) == [] && Stream(HeadRecords(id, params), PARAMS) == [ParamsBytes(params), []]
    ensures ParamsBytes(params) != []
  {
    hide FramedRecord, ParamsBytes;
    var a, b, c := FramedRecord(id, BEGIN_REQUEST, BEGIN_BODY), FramedRecord(id, PARAMS, ParamsBytes(params)), FramedRecord(id, PARAMS, []);
    assert [a, b, c][1..] == [b, c] && [b, c][1..] == [c] && [c][1..] == [];
    FramedFields(id, BEGIN_REQUEST, BEGIN_BODY);
    FramedFields(id, PARAMS, ParamsBytes(params));
    FramedFields(id, PARAMS, []);
    assert Stream([c], PARAMS) == [[]] && Stream([c], STDIN) == [];
    assert Stream([b, c], PARAMS) == [ParamsBytes(params), []] && Stream([b, c], STDIN) == [];
    ParamsNonempty(params);
  }

  lemma FramedFields(id: nat, kind: byte, content: seq<byte>)
    ensures FramedRecord(id, kind, content).header.kind == kind && FramedRecord(id, kind, content).content == content
  {
  }

  lemma ParamsNonempty(params: seq<Param>)
    requires params != []
    ensures ParamsBytes(params) != []
  {
    assert |ParamBytes(params[0])| > 0;
  }
}
