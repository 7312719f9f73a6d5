/** A request as the backend finds it on the wire. The reader below is written from the byte positions of
    sections 3.3 and 5.1 of the FastCGI Specification 1.0 and shares nothing with the encoder or the decoder. */
module FcgiWire {
  import opened Wrappers
  import opened FcgiProtocol
  import opened FcgiResponse
  import opened FcgiRequest

  datatype Frame = Frame(version: int, kind: int, id: int, content: seq<byte>)

  /** Section 3.3: a version, a type, two bytes of request id and two of content length, high byte first, the padding
      length, a reserved byte, the content, the padding. */
  function FirstFrame(bs: seq<byte>): (r: Option<(Frame, seq<byte>)>)
    ensures r.Some? ==> |r.value.1| < |bs|
  {
    if |bs| < 8 then None
    else
      var n, padding := bs[4] as int * 256 + bs[5] as int, bs[6] as int;
      if |bs| < 8 + n + padding then None
      else Some((Frame(bs[0] as int, bs[1] as int, bs[2] as int * 256 + bs[3] as int, bs[8..8 + n]), bs[8 + n + padding..]))
  }

  /** All complete records, and what stands behind the last one. */
  function Frames(bs: seq<byte>): (seq<Frame>, seq<byte>)
    decreases |bs|
  {
    var first := FirstFrame(bs);
    if first.None? then ([], bs)
    else
      var rest := Frames(first.value.1);
      ([first.value.0] + rest.0, rest.1)
  }

  // ---- The records of the client's own types are the records on the wire --------------------------------

  predicate SameRecord(r: Record, f: Frame) {
    && f.version == r.header.version as int
    && f.kind == r.header.kind as int
    && f.id == r.header.requestIdB1 as int * 256 + r.header.requestIdB0 as int
    && f.content == r.content
  }

  /** On any bytes, the parser the decoder is measured against finds the records that are there. */
  lemma {:induction false} RecordsAreFrames(bs: seq<byte>)
    ensures |Records(bs)| == |Frames(bs).0| && Unread(bs) == Frames(bs).1
    ensures forall i :: 0 <= i < |Records(bs)| ==> SameRecord(Records(bs)[i], Frames(bs).0[i])
    decreases |bs|
  {
    FirstIs(bs);
    if HasRecord(bs) { RecordsAreFrames(bs[FirstLength(bs)..]); }
  }

  lemma FirstIs(bs: seq<byte>)
    ensures HasRecord(bs) <==> FirstFrame(bs).Some?
    ensures HasRecord(bs) ==> SameRecord(FirstRecord(bs), FirstFrame(bs).value.0) && FirstFrame(bs).value.1 == bs[FirstLength(bs)..]
  {
    if |bs| >= 8 { assert forall i :: 0 <= i < 8 ==> bs[..HEADER_LEN][i] == bs[i]; }
  }

  // ---- The records of a request ---------------------------------------------------------------------------

  lemma TwoBytes(n: nat)
    ensures Byte1(n) as int * 256 + Byte0(n) as int == n % 0x1_0000
  {
    var a := n / 256;
    LowBytes(n, a / 256, a % 256, n % 256);
  }

  lemma LowBytes(n: nat, c: nat, b: nat, a: nat)
    requires n == 0x1_0000 * c + 256 * b + a && a < 256 && b < 256
    ensures n % 0x1_0000 == b * 256 + a
  {
  }

  lemma FramedOnWire(id: nat, kind: byte, content: seq<byte>, tail: seq<byte>)
    requires |content| <= 0xFFFF
    ensures Frames(Framed(id, kind, content) + tail) == ([Frame(1, kind as int, id % 0x1_0000, content)] + Frames(tail).0, Frames(tail).1)
  {
    hide Byte0, Byte1, Frames, FirstFrame;
    TwoBytes(id);
    TwoBytes(|content|);
    var h: seq<byte> := [1, kind, Byte1(id), Byte0(id), Byte1(|content|), Byte0(|content|), 0, 0];
    assert Framed(id, kind, content) == h + content;
    FrameAt(h, content, tail);
    FramesStep(h + content + tail);
  }

  lemma FramesStep(bs: seq<byte>)
    requires FirstFrame(bs).Some?
    ensures var first := FirstFrame(bs).value; Frames(bs) == ([first.0] + Frames(first.1).0, Frames(first.1).1)
  {
    hide FirstFrame;
  }

  lemma FrameAt(h: seq<byte>, content: seq<byte>, tail: seq<byte>)
    requires |h| == 8 && h[4] as int * 256 + h[5] as int == |content| && h[6] == 0
    ensures FirstFrame(h + content + tail) == Some((Frame(h[0] as int, h[1] as int, h[2] as int * 256 + h[3] as int, content), tail))
  {
    var bs := h + content + tail;
    assert forall i :: 0 <= i < 8 ==> bs[i] == h[i];
    assert bs[8..8 + |content|] == content && bs[8 + |content|..] == tail;
  }

  /** Every piece of the body is a record of type 5 followed by an empty one. */
  function BodyFrames(id: int, chunks: seq<seq<byte>>): seq<Frame> {
    if chunks == [] then [] else [Frame(1, 5, id, chunks[0]), Frame(1, 5, id, [])] + BodyFrames(id, chunks[1..])
  }

  /** The parameter named REQUEST_METHOD is POST. */
  predicate Posts(params: seq<Param>) {
    exists i :: 0 <= i < |params|
      && params[i].name == [82, 69, 81, 85, 69, 83, 84, 95, 77, 69, 84, 72, 79, 68]
      && params[i].value == [80, 79, 83, 84]
  }

  lemma PostIs(params: seq<Param>)
    ensures IsPost(params) <==> Posts(params)
  {
    assert REQUEST_METHOD == [82, 69, 81, 85, 69, 83, 84, 95, 77, 69, 84, 72, 79, 68];
    assert POST == [80, 79, 83, 84];
  }

  /** BEGIN_REQUEST for a responder that keeps the connection, the parameters, their end, the body, and the end
      of the body unless the request is a POST. */
  function WireRequest(id: int, params: seq<Param>, chunks: seq<seq<byte>>): seq<Frame> {
    [Frame(1, 1, id, [0, 1, 1, 0, 0, 0, 0, 0]), Frame(1, 4, id, ParamsBytes(params)), Frame(1, 4, id, [])]
    + BodyFrames(id, chunks)
    + (if Posts(params) then [] else [Frame(1, 5, id, [])])
  }

  lemma {:induction false} BodyOnWire(id: nat, chunks: seq<seq<byte>>, tail: seq<byte>)
    requires forall c :: c in chunks ==> |c| <= 0xFFFF
    ensures Frames(BodyParts(id, chunks) + tail) == (BodyFrames(id % 0x1_0000, chunks) + Frames(tail).0, Frames(tail).1)
    decreases |chunks|
  {
    hide Framed, Frames;
    if chunks == [] {
      assert [] + tail == tail && [] + Frames(tail).0 == Frames(tail).0;
    } else {
      var rest := BodyParts(id, chunks[1..]) + tail;
      assert chunks[0] in chunks;
      BodyOnWire(id, chunks[1..], tail);
      FramedOnWire(id, 5, [], rest);
      FramedOnWire(id, 5, chunks[0], Framed(id, 5, []) + rest);
      assert BodyParts(id, chunks) + tail == Framed(id, 5, chunks[0]) + (Framed(id, 5, []) + rest);
      var a, b := Frame(1, 5, id % 0x1_0000, chunks[0]), Frame(1, 5, id % 0x1_0000, []);
      Behind(a, b, BodyFrames(id % 0x1_0000, chunks[1..]), Frames(tail).0);
      assert Frames(BodyParts(id, chunks) + tail).0 == [a] + ([b] + (BodyFrames(id % 0x1_0000, chunks[1..]) + Frames(tail).0));
    }
  }

  lemma Behind(a: Frame, b: Frame, c: seq<Frame>, d: seq<Frame>)
    ensures [a] + ([b] + (c + d)) == ([a, b] + c) + d
  {
  }

  lemma EndOnWire(id: nat, params: seq<Param>)
    ensures Frames(CompletePart(id, IsPost(params))) == (if Posts(params) then [] else [Frame(1, 5, id % 0x1_0000, [])], [])
  {
    hide Framed;
    PostIs(params);
    assert Frames([]) == ([], []);
    if !Posts(params) {
      FramedOnWire(id, 5, [], []);
      var last := [Frame(1, 5, id % 0x1_0000, [])];
      assert last + [] == last;
      assert Framed(id, 5, []) + [] == CompletePart(id, false);
    }
  }

  lemma FirstIsShort(bs: seq<byte>)
    requires FirstFrame(bs).Some?
    ensures |FirstFrame(bs).value.0.content| <= 0xFFFF
  {
  }

  lemma {:induction false} FramesAreShort(bs: seq<byte>)
    ensures forall i :: 0 <= i < |Frames(bs).0| ==> |Frames(bs).0[i].content| <= 0xFFFF
    decreases |bs|
  {
    if FirstFrame(bs).Some? {
      FirstIsShort(bs);
      FramesAreShort(FirstFrame(bs).value.1);
    }
  }

  lemma {:induction false} BodyFramesHold(id: int, chunks: seq<seq<byte>>, c: seq<byte>)
    requires c in chunks
    ensures Frame(1, 5, id, c) in BodyFrames(id, chunks)
    decreases |chunks|
  {
    if chunks[0] != c { BodyFramesHold(id, chunks[1..], c); }
  }

  /** Exactly these records are on the wire, each with version 1 and the 16 low bits of the request id, and
      nothing behind them, if and only if the parameters and every piece of the body fit a record. */
  lemma RequestOnWire(id: nat, params: seq<Param>, chunks: seq<seq<byte>>)
    ensures Frames(RequestBytes(id, params, chunks)) == (WireRequest(id % 0x1_0000, params, chunks), []) <==>
            |ParamsBytes(params)| <= 0xFFFF && forall c :: c in chunks ==> |c| <= 0xFFFF
  {
    hide Frames, ParamsBytes, Posts, RequestBytes;
    if |ParamsBytes(params)| <= 0xFFFF && forall c :: c in chunks ==> |c| <= 0xFFFF {
      WireOfRequest(id, params, chunks);
    } else {
      FramesAreShort(RequestBytes(id, params, chunks));
      var fs := WireRequest(id % 0x1_0000, params, chunks);
      if |ParamsBytes(params)| > 0xFFFF {
        assert fs[1] in fs;
      } else {
        var c :| c in chunks && |c| > 0xFFFF;
        BodyFramesHold(id % 0x1_0000, chunks, c);
        assert Frame(1, 5, id % 0x1_0000, c) in fs;
      }
    }
  }

  lemma WireOfRequest(id: nat, params: seq<Param>, chunks: seq<seq<byte>>)
    requires |ParamsBytes(params)| <= 0xFFFF && forall c :: c in chunks ==> |c| <= 0xFFFF
    ensures Frames(RequestBytes(id, params, chunks)) == (WireRequest(id % 0x1_0000, params, chunks), [])
  {
    hide Framed, Frames, IsPost, Posts, ParamsBytes, BodyParts, BodyFrames, CompletePart;
    var end := CompletePart(id, IsPost(params));
    var body := BodyParts(id, chunks) + end;
    var p, last := Framed(id, 4, ParamsBytes(params)), Framed(id, 4, []);
    EndOnWire(id, params);
    BodyOnWire(id, chunks, end);
    FramedOnWire(id, 4, [], body);
    FramedOnWire(id, 4, ParamsBytes(params), last + body);
    FramedOnWire(id, 1, [0, 1, 1, 0, 0, 0, 0, 0], p + (last + body));
    assert BEGIN_BODY == [0, 1, 1, 0, 0, 0, 0, 0];
    var a, b, c := Frame(1, 1, id % 0x1_0000, [0, 1, 1, 0, 0, 0, 0, 0]), Frame(1, 4, id % 0x1_0000, ParamsBytes(params)), Frame(1, 4, id % 0x1_0000, []);
    var bodies := BodyFrames(id % 0x1_0000, chunks);
    assert [a] + ([b] + ([c] + (bodies + Frames(end).0))) == [a, b, c] + bodies + Frames(end).0;
    assert RequestBytes(id, params, chunks) == Framed(id, 1, [0, 1, 1, 0, 0, 0, 0, 0]) + (p + (last + body));
  }

  // ---- What the backend makes of it -----------------------------------------------------------------------

  datatype Request = Request(id: int, role: int, keepsConnection: bool, params: seq<Param>, body: seq<byte>)

  /** The contents of the records of one type, one behind the other. */
  function StreamOf(fs: seq<Frame>, kind: int): seq<byte> {
    if fs == [] then [] else (if fs[0].kind == kind then fs[0].content else []) + StreamOf(fs[1..], kind)
  }

  /** Section 5.1: the first record has type 1 and eight bytes, a role of two bytes, high byte first, and flags
      with FCGI_KEEP_CONN in their lowest bit; records of type 4 carry the parameters, those of type 5 the body. */
  function ReadRequest(bs: seq<byte>): Option<Request> {
    var fs := Frames(bs).0;
    if Frames(bs).1 != [] || fs == [] || fs[0].kind != 1 || |fs[0].content| != 8 then None
    else if exists i :: 0 <= i < |fs| && (fs[i].version != 1 || fs[i].id != fs[0].id) then None
    else
      var begin, params := fs[0].content, ReadParams(StreamOf(fs, 4));
      if params.None? then None
      else Some(Request(fs[0].id, begin[0] as int * 256 + begin[1] as int, begin[2] % 2 == 1, params.value, StreamOf(fs, 5)))
  }

  lemma {:induction false} StreamConcat(a: seq<Frame>, b: seq<Frame>, kind: int)
    ensures StreamOf(a + b, kind) == StreamOf(a, kind) + StreamOf(b, kind)
    decreases |a|
  {
    if a == [] {
      assert a + b == b;
    } else {
      StreamConcat(a[1..], b, kind);
      assert (a + b)[1..] == a[1..] + b && (a + b)[0] == a[0];
      var now, more, rest := if a[0].kind == kind then a[0].content else [], StreamOf(a[1..], kind), StreamOf(b, kind);
      assert now + (more + rest) == now + more + rest;
    }
  }

  lemma {:induction false} BodyStream(id: int, chunks: seq<seq<byte>>)
    ensures StreamOf(BodyFrames(id, chunks), 5) == Joined(chunks) && StreamOf(BodyFrames(id, chunks), 4) == []
    ensures forall f :: f in BodyFrames(id, chunks) ==> f.version == 1 && f.id == id
    decreases |chunks|
  {
    if chunks != [] {
      BodyStream(id, chunks[1..]);
      var a, b := Frame(1, 5, id, chunks[0]), Frame(1, 5, id, []);
      Streams2(a, b);
      StreamConcat([a, b], BodyFrames(id, chunks[1..]), 4);
      StreamConcat([a, b], BodyFrames(id, chunks[1..]), 5);
    }
  }

  lemma Streams2(a: Frame, b: Frame)
    ensures forall kind :: StreamOf([a, b], kind) == (if a.kind == kind then a.content else []) + (if b.kind == kind then b.content else [])
    ensures forall kind :: StreamOf([a], kind) == if a.kind == kind then a.content else []
  {
    assert [a, b][1..] == [b] && [b][1..] == [] && [a][1..] == [];
    forall kind ensures StreamOf([a], kind) == (if a.kind == kind then a.content else []) + StreamOf([], kind) {}
    forall kind ensures StreamOf([a, b], kind) == (if a.kind == kind then a.content else []) + StreamOf([b], kind) {}
    forall kind ensures StreamOf([b], kind) == (if b.kind == kind then b.content else []) + StreamOf([], kind) {}
  }

  /** The backend reads a request whose records fit as the one that was asked for, whatever pieces its body came in. */
  lemma BackendReads(id: nat, params: seq<Param>, chunks: seq<seq<byte>>)
    requires |ParamsBytes(params)| <= 0xFFFF && (forall c :: c in chunks ==> |c| <= 0xFFFF) && forall p :: p in params ==> Readable(p)
    ensures ReadRequest(RequestBytes(id, params, chunks)) == Some(Request(id % 0x1_0000, 1, true, params, Joined(chunks)))
  {
    hide Frames, StreamOf, ReadParams, Posts, BodyFrames, Readable, RequestBytes, ParamsBytes;
    WireOfRequest(id, params, chunks);
    WireStreams(id % 0x1_0000, params, chunks);
    ParamsRoundTrip(params);
    WireSame(id % 0x1_0000, params, chunks);
  }

  lemma WireSame(id: int, params: seq<Param>, chunks: seq<seq<byte>>)
    ensures var fs := WireRequest(id, params, chunks); forall i :: 0 <= i < |fs| ==> fs[i].version == 1 && fs[i].id == id
  {
    hide ParamsBytes, Posts, BodyFrames;
    BodyStream(id, chunks);
    var bodies := BodyFrames(id, chunks);
    forall i | 0 <= i < |bodies| ensures bodies[i].version == 1 && bodies[i].id == id { assert bodies[i] in bodies; }
  }

  lemma WireStreams(id: int, params: seq<Param>, chunks: seq<seq<byte>>)
    ensures StreamOf(WireRequest(id, params, chunks), 4) == ParamsBytes(params)
    ensures StreamOf(WireRequest(id, params, chunks), 5) == Joined(chunks)
  {
    hide StreamOf, ParamsBytes, Posts, BodyFrames;
    var a, b, c := Frame(1, 1, id, [0, 1, 1, 0, 0, 0, 0, 0]), Frame(1, 4, id, ParamsBytes(params)), Frame(1, 4, id, []);
    var body, last := BodyFrames(id, chunks), if Posts(params) then [] else [Frame(1, 5, id, [])];
    BodyStream(id, chunks);
    Streams2(a, b);
    Streams2(c, c);
    Streams2(Frame(1, 5, id, []), c);
    assert [a, b, c] == [a, b] + [c];
    forall kind ensures StreamOf([a, b, c] + body + last, kind) == StreamOf([a, b], kind) + StreamOf([c], kind) + StreamOf(body, kind) + StreamOf(last, kind) {
      StreamConcat([a, b, c] + body, last, kind);
      StreamConcat([a, b, c], body, kind);
      StreamConcat([a, b], [c], kind);
    }
    NoFrames();
  }

  lemma NoFrames()
    ensures forall kind :: StreamOf([], kind) == []
  {
  }

  // ---- The bytes of a parameter ---------------------------------------------------------------------------

  /** Section 3.4: one byte below 128, or four, high byte first, the first with its high bit set. */
  predicate SpellsLength(bs: seq<byte>, n: nat) {
    if n < 128 then bs == [n as byte]
    else |bs| == 4 && bs[0] >= 128 && (bs[0] as int - 128) * 16777216 + bs[1] as int * 65536 + bs[2] as int * 256 + bs[3] as int == n
  }

  lemma LengthOnWire(n: nat)
    requires n < 0x8000_0000
    ensures SpellsLength(LengthBytes(n), n)
  {
    hide Byte1, Byte2;
    BytesMean(n);
  }

  /** A parameter is its two lengths, its name and its value. */
  lemma ParamOnWire(p: Param)
    requires Readable(p)
    ensures SpellsLength(LengthBytes(|p.name|), |p.name|) && SpellsLength(LengthBytes(|p.value|), |p.value|)
    ensures ParamBytes(p) == LengthBytes(|p.name|) + LengthBytes(|p.value|) + p.name + p.value
  {
    hide LengthBytes;
    LengthOnWire(|p.name|);
    LengthOnWire(|p.value|);
    assert p.name[..|p.name|] == p.name && p.value[..|p.value|] == p.value;
  }

  /** The reader of parameters takes lengths in that form, whatever follows. */
  lemma LengthsAreRead(bs: seq<byte>, n: nat, tail: seq<byte>)
    requires n < 0x8000_0000 && SpellsLength(bs, n)
    ensures ReadLength(bs + tail) == Some((n, |bs|))
  {
    assert forall i :: 0 <= i < |bs| ==> (bs + tail)[i] == bs[i];
  }
}
