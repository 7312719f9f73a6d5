/** The request encoder of ats_fcgi_client.cc: one buffer, written through an advancing position, with the
    parameters serialized twice. */
module FcgiEncoder {
  import opened FcgiProtocol
  import opened FcgiRequest

  const BUF_SIZE := 5000

  /** `s` with `x` written over it from `at` on. */
  function Overwrite(s: seq<byte>, at: nat, x: seq<byte>): (r: seq<byte>)
    requires at + |x| <= |s|
    ensures |r| == |s|
  {
    s[..at] + x + s[at + |x|..]
  }

  lemma OverwriteNext(s: seq<byte>, at: nat, x: seq<byte>, y: seq<byte>)
    requires at + |x| + |y| <= |s|
    ensures Overwrite(Overwrite(s, at, x), at + |x|, y) == Overwrite(s, at, x + y)
  {
  }

  lemma OverwriteNothing(s: seq<byte>, at: nat, params: seq<Param>)
    requires at <= |s|
    ensures ParamsBytes(params[..0]) == [] && Overwrite(s, at, []) == s
  {
  }

  /** Bytes that will be written over do not show. */
  lemma OverwriteCovers(s: seq<byte>, t: seq<byte>, at: nat, x: seq<byte>, y: seq<byte>)
    requires |s| == |t| && at + |x| + |y| <= |s|
    requires s[..at + |x|] == Overwrite(t, at, x)[..at + |x|]
    requires s[at + |x| + |y|..] == t[at + |x| + |y|..]
    ensures Overwrite(s, at + |x|, y) == Overwrite(t, at, x + y)
  {
    assert Overwrite(t, at, x)[..at + |x|] == t[..at] + x;
  }

  /** FCGIClientRequest and its FCGIClientState, as far as they build requests. */
  class RequestEncoder {
    const requestId: nat
    /** requestHeaders, in the order the map is walked. */
    const params: seq<Param>
    const buff: array<byte>
    /** pBuffInc - buff. */
    var inc: nat

    /** `contentLength` is what the client announced; only a POST request gets room for it. */
    constructor (requestId: nat, params: seq<Param>, contentLength: nat)
      ensures this.requestId == requestId && this.params == params && Valid() && inc == 0 && fresh(buff)
      ensures buff.Length == 5000 + if IsPost(params) then contentLength else 0
    {
      this.requestId, this.params, inc := requestId, params, 0;
      buff := new byte[BUF_SIZE + if IsPost(params) then contentLength else 0];
    }

    ghost predicate Valid()
      reads this
    {
      inc <= buff.Length
    }

    /** serialize: memcpy into the buffer. */
    method Serialize(at: nat, bytes: seq<byte>)
      requires at + |bytes| <= buff.Length
      modifies buff
      ensures buff[..] == Overwrite(old(buff[..]), at, bytes)
    {
      forall i | 0 <= i < |bytes| {
        buff[at + i] := bytes[i];
      }
    }

    method WriteLength(at: nat, n: nat) returns (at': nat)
      requires at + |LengthBytes(n)| <= buff.Length
      modifies buff
      ensures at' == at + |LengthBytes(n)|
      ensures buff[..] == Overwrite(old(buff[..]), at, LengthBytes(n))
    {
      at' := at;
      if n < 128 {
        buff[at'] := Byte0(n); at' := at' + 1;
      } else {
        buff[at'] := Byte3(n); at' := at' + 1;
        buff[at'] := Byte2(n); at' := at' + 1;
        buff[at'] := Byte1(n); at' := at' + 1;
        buff[at'] := Byte0(n); at' := at' + 1;
      }
    }

    /** Writes one parameter at `at`, without moving the position; returns its size. */
    method SerializeNameValue(at: nat, p: Param) returns (nb: nat)
      requires at + |ParamBytes(p)| <= buff.Length
      modifies buff
      ensures nb == |ParamBytes(p)|
      ensures buff[..] == Overwrite(old(buff[..]), at, ParamBytes(p))
    {
      hide LengthBytes, Overwrite;
      var nl, vl := Uint32(|p.name|), Uint32(|p.value|);
      ghost var s, a, b := buff[..], LengthBytes(nl), LengthBytes(vl);
      var q := WriteLength(at, nl);
      q := WriteLength(q, vl);
      OverwriteNext(s, at, a, b);
      Serialize(q, p.name[..nl]);
      OverwriteNext(s, at, a + b, p.name[..nl]);
      q := q + nl;
      Serialize(q, p.value[..vl]);
      OverwriteNext(s, at, a + b + p.name[..nl], p.value[..vl]);
      q := q + vl;
      nb := q - at;
    }

    /** serialize at the position, then move it. */
    method Append(bytes: seq<byte>)
      requires Valid() && inc + |bytes| <= buff.Length
      modifies this, buff
      ensures Valid() && inc == old(inc) + |bytes|
      ensures buff[..] == Overwrite(old(buff[..]), old(inc), bytes)
    {
      Serialize(inc, bytes);
      inc := inc + |bytes|;
    }

    /** The sizing pass: the total is exact, and the scratch bytes stay within that many of the position. */
    method SizeParams() returns (len: nat)
      requires Valid() && inc + |ParamsBytes(params)| <= buff.Length
      modifies buff
      ensures len == |ParamsBytes(params)|
      ensures buff[..inc] == old(buff[..inc]) && buff[inc + len..] == old(buff[inc + len..])
    {
      hide ParamBytes;
      len := 0;
      for i := 0 to |params|
        invariant len == |ParamsBytes(params[..i])|
        invariant buff[..inc] == old(buff[..inc]) && buff[inc + |ParamsBytes(params)|..] == old(buff[inc + |ParamsBytes(params)|..])
      {
        ParamsBytesSnoc(params, i);
        var nb := SerializeNameValue(inc, params[i]);
        len := len + nb;
      }
      assert params[..|params|] == params;
    }

    /** The second pass. */
    method AppendParams()
      requires Valid() && inc + |ParamsBytes(params)| <= buff.Length
      modifies this, buff
      ensures Valid() && inc == old(inc) + |ParamsBytes(params)|
      ensures buff[..] == Overwrite(old(buff[..]), old(inc), ParamsBytes(params))
    {
      hide Overwrite, ParamBytes, ParamsBytes;
      ghost var s := buff[..];
      OverwriteNothing(s, inc, params);
      for i := 0 to |params|
        invariant Valid() && inc == old(inc) + |ParamsBytes(params[..i])| <= old(inc) + |ParamsBytes(params)|
        invariant buff[..] == Overwrite(s, old(inc), ParamsBytes(params[..i]))
      {
        ParamsBytesSnoc(params, i);
        var nb := SerializeNameValue(inc, params[i]);
        OverwriteNext(s, old(inc), ParamsBytes(params[..i]), ParamBytes(params[i]));
        inc := inc + nb;
      }
      assert params[..|params|] == params;
    }

    /** createBeginRequest: BEGIN_REQUEST, the parameters in one PARAMS record, and an empty PARAMS record.
        The sizing pass writes every parameter over the place of the PARAMS header; none of that is left. */
    method CreateBeginRequest()
      requires Valid() && inc + |HeaderPart(requestId, params)| <= buff.Length
      modifies this, buff
      ensures Valid() && inc == old(inc) + |HeaderPart(requestId, params)| == old(inc) + 32 + |ParamsBytes(params)|
      ensures buff[..] == Overwrite(old(buff[..]), old(inc), HeaderPart(requestId, params))
    {
      hide Overwrite, ParamsBytes;
      ghost var s, at := buff[..], inc;
      ghost var begin, sized := Framed(requestId, BEGIN_REQUEST, BEGIN_BODY), Framed(requestId, PARAMS, ParamsBytes(params));
      var header := WithLength(MakeHeader(requestId, BEGIN_REQUEST), 8);
      Append(header.Bytes());
      Append(BEGIN_BODY);
      OverwriteNext(s, at, header.Bytes(), BEGIN_BODY);
      ghost var t := buff[..];

      var len := SizeParams();
      header := WithLength(MakeHeader(requestId, PARAMS), len);
      ghost var u := buff[..];
      Append(header.Bytes());
      AppendParams();
      OverwriteNext(u, at + |begin|, header.Bytes(), ParamsBytes(params));
      Cover(u, t, s, at, begin, sized);
      header := header.(contentLengthB0 := 0, contentLengthB1 := 0);
      Append(header.Bytes());
      OverwriteNext(s, at, begin + sized, header.Bytes());
      assert Framed(requestId, PARAMS, []) == header.Bytes();
      HeaderSize(requestId, params);
    }

    lemma Cover(u: seq<byte>, t: seq<byte>, s: seq<byte>, at: nat, x: seq<byte>, y: seq<byte>)
      requires at + |x| + |y| <= |s| == |t| == |u| && t == Overwrite(s, at, x)
      requires |y| >= 8 && u[..at + |x|] == t[..at + |x|] && u[at + |x| + |y| - 8..] == t[at + |x| + |y| - 8..]
      ensures Overwrite(u, at + |x|, y) == Overwrite(s, at, x + y)
    {
      assert u[at + |x| + |y|..] == u[at + |x| + |y| - 8..][8..];
      assert t[at + |x| + |y|..] == t[at + |x| + |y| - 8..][8..];
      OverwriteCovers(u, s, at, x, y);
    }

    /** postBodyChunk: the chunk in a STDIN record and an empty STDIN record, from the start of the buffer. */
    method PostBodyChunk(data: seq<byte>)
      requires |BodyPart(requestId, data)| <= buff.Length
      modifies this, buff
      ensures Valid() && buff[..inc] == BodyPart(requestId, data)
    {
      hide Overwrite;
      inc := 0;
      ghost var s := buff[..];
      var header := WithLength(MakeHeader(requestId, STDIN), |data|);
      Append(header.Bytes());
      Append(data);
      OverwriteNext(s, 0, header.Bytes(), data);
      ghost var framed := Framed(requestId, STDIN, data);
      header := header.(contentLengthB0 := 0, contentLengthB1 := 0);
      Append(header.Bytes());
      OverwriteNext(s, 0, framed, header.Bytes());
      assert Framed(requestId, STDIN, []) == header.Bytes();
      assert buff[..inc] == buff[..][..inc];
      StartOf(s, BodyPart(requestId, data));
    }

    lemma StartOf(s: seq<byte>, x: seq<byte>)
      requires |x| <= |s|
      ensures Overwrite(s, 0, x)[..|x|] == x
    {
    }

    /** emptyParam: closes STDIN, except for POST. */
    method EmptyParam()
      requires |CompletePart(requestId, IsPost(params))| <= buff.Length
      modifies this, buff
      ensures Valid() && buff[..inc] == CompletePart(requestId, IsPost(params))
    {
      inc := 0;
      if !IsPost(params) {
        var header := MakeHeader(requestId, STDIN);
        Append(header.Bytes());
        assert Framed(requestId, STDIN, []) == header.Bytes();
      }
    }

    /** addClientRequest. */
    method AddClientRequest() returns (bytes: seq<byte>)
      requires Valid()
      ensures bytes == buff[..inc]
    {
      bytes := buff[..inc];
    }
  }

  /** Does every part of the request fit a buffer of this size? */
  predicate Fits(size: nat, id: nat, params: seq<Param>, chunks: seq<seq<byte>>) {
    |HeaderPart(id, params)| <= size && forall c :: c in chunks ==> |BodyPart(id, c)| <= size
  }

  /** The buffer the constructor allocates holds a request exactly if the parameters leave 32 bytes of it free
      and every chunk 16; the latter is given for a POST whose chunks stay within the announced length. */
  lemma RequestFits(id: nat, params: seq<Param>, chunks: seq<seq<byte>>, contentLength: nat)
    ensures var size := 5000 + if IsPost(params) then contentLength else 0;
            && (Fits(size, id, params, chunks) <==> |ParamsBytes(params)| + 32 <= size && forall c :: c in chunks ==> |c| + 16 <= size)
            && (IsPost(params) && (forall c :: c in chunks ==> |c| <= contentLength) ==>
                 (Fits(size, id, params, chunks) <==> |ParamsBytes(params)| + 32 <= size))
  {
    hide HeaderPart;
    HeaderSize(id, params);
    forall c | c in chunks ensures |BodyPart(id, c)| == |c| + 16 { BodySize(id, c); }
  }

  lemma BodySize(id: nat, data: seq<byte>)
    ensures |BodyPart(id, data)| == |data| + 16
  {
  }

  /** writeRequestHeader, writeRequestBody for every chunk, and writeRequestBodyComplete, on a fresh
      encoder: together they hand out the bytes of the request. */
  method WriteRequest(encoder: RequestEncoder, chunks: seq<seq<byte>>) returns (written: seq<byte>)
    requires encoder.inc == 0 && Fits(encoder.buff.Length, encoder.requestId, encoder.params, chunks)
    modifies encoder, encoder.buff
    ensures written == RequestBytes(encoder.requestId, encoder.params, chunks)
  {
    hide HeaderPart, BodyPart, BodyParts, CompletePart, IsPost, Overwrite;
    ghost var id, params := encoder.requestId, encoder.params;
    ghost var s := encoder.buff[..];
    HeaderSize(id, params);
    encoder.CreateBeginRequest();
    encoder.StartOf(s, HeaderPart(id, params));
    written := encoder.AddClientRequest();
    assert encoder.buff[..encoder.inc] == encoder.buff[..][..encoder.inc];
    assert chunks[0..] == chunks;
    for i := 0 to |chunks|
      invariant encoder.Valid()
      invariant written + BodyParts(id, chunks[i..]) == HeaderPart(id, params) + BodyParts(id, chunks)
    {
      assert chunks[i] in chunks;
      encoder.PostBodyChunk(chunks[i]);
      var part := encoder.AddClientRequest();
      BodyPartsNext(id, chunks, i, written);
      written := written + part;
    }
    BodyPartsEnd(id, chunks, written);
    EndFits(id, params);
    encoder.EmptyParam();
    var end := encoder.AddClientRequest();
    written := written + end;
  }

  lemma BodyPartsNext(id: nat, chunks: seq<seq<byte>>, i: nat, written: seq<byte>)
    requires i < |chunks|
    ensures written + BodyParts(id, chunks[i..]) == written + BodyPart(id, chunks[i]) + BodyParts(id, chunks[i + 1..])
  {
    hide BodyPart;
    assert chunks[i..][1..] == chunks[i + 1..];
  }

  lemma BodyPartsEnd(id: nat, chunks: seq<seq<byte>>, written: seq<byte>)
    ensures written + BodyParts(id, chunks[|chunks|..]) == written
  {
    assert chunks[|chunks|..] == [];
  }

  lemma EndFits(id: nat, params: seq<Param>)
    ensures |CompletePart(id, IsPost(params))| <= |HeaderPart(id, params)|
  {
    HeaderSize(id, params);
  }

  lemma HeaderSize(id: nat, params: seq<Param>)
    ensures |HeaderPart(id, params)| == 32 + |ParamsBytes(params)|
  {
  }
}
