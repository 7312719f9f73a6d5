/** The incremental decoder of ats_fcgi_client.cc, field by field and loop by loop, against the byte-driven
    machine of FcgiStream. */
module FcgiDecoder {
  import opened FcgiProtocol
  import opened FcgiStream
  import opened FcgiResponse

  datatype Answer = Again | Done

  datatype FcgiState =
    | Version | Type | RequestIdHi | RequestIdLo | ContentLenHi | ContentLenLo | PaddingLen | Reserved
    | ContentBegin | ContentProc | Padding | RecordDone
  {
    /** How many header bytes have arrived in this state. */
    function HeaderBytes(): nat {
      match this
      case Version => 0
      case Type => 1
      case RequestIdHi => 2
      case RequestIdLo => 3
      case ContentLenHi => 4
      case ContentLenLo => 5
      case PaddingLen => 6
      case Reserved => 7
      case _ => 8
    }

    predicate BeforeContent() {
      HeaderBytes() < 8
    }
  }

  class FCGIRecordList {
    var header: Header
    var content: array<byte>
    var state: FcgiState
    var length: nat
    var offset: nat

    constructor ()
      ensures Valid() && state.Version? && Phase() == FRESH && fresh(content)
    {
      header := Header(0, 0, 0, 0, 0, 0, 0, 0);
      content := new byte[0];
      state, length, offset := Version, 0, 0;
    }

    ghost predicate Valid()
      reads this
    {
      && (state.BeforeContent() || state.ContentBegin? ==> length == offset == 0)
      && (state.ContentProc? || state.Padding? || state.RecordDone? ==> length == header.ContentLength() == content.Length)
      && (state.ContentProc? ==> offset == 0 || offset < length)
      && (state.Padding? ==> length <= offset < header.BodyLength() && 0 < offset)
    }

    /** Where the record stands; a record that is done stands where the next one begins. */
    ghost function Phase(): (p: Phase)
      requires Valid()
      reads this, content
      ensures ValidPhase(p)
    {
      if state.BeforeContent() then InHeader(header.Bytes()[..state.HeaderBytes()])
      else if state.ContentBegin? then InBody(header, [], 0)
      else if state.ContentProc? then InBody(header, content[..offset], 0)
      else if state.Padding? then InBody(header, content[..length], offset - length)
      else FRESH
    }

    ghost function AsRecord(): Record
      reads this, content
    {
      Record(header, content[..])
    }
  }

  /** A header with its byte number `n` replaced. */
  function WithByte(h: Header, n: nat, ch: byte): Header {
    if n == 0 then h.(version := ch) else if n == 1 then h.(kind := ch) else if n == 2 then h.(requestIdB1 := ch)
    else if n == 3 then h.(requestIdB0 := ch) else if n == 4 then h.(contentLengthB1 := ch) else if n == 5 then h.(contentLengthB0 := ch)
    else if n == 6 then h.(paddingLength := ch) else h.(reserved := ch)
  }

  lemma WithByteIs(h: Header, n: nat, ch: byte)
    requires n < HEADER_LEN
    ensures WithByte(h, n, ch).Bytes() == h.Bytes()[..n] + [ch] + h.Bytes()[n + 1..]
    ensures WithByte(h, n, ch).Bytes()[..n + 1] == h.Bytes()[..n] + [ch]
  {
    WithByteBytes(h, n, ch);
    hide Header.Bytes;
    var bs := h.Bytes();
    assert (bs[..n] + [ch] + bs[n + 1..])[..n + 1] == bs[..n] + [ch];
  }

  lemma WithByteBytes(h: Header, n: nat, ch: byte)
    requires n < HEADER_LEN
    ensures |h.Bytes()| == HEADER_LEN && WithByte(h, n, ch).Bytes() == h.Bytes()[..n] + [ch] + h.Bytes()[n + 1..]
  {
    assert WithByte(h, n, ch).Bytes() == h.Bytes()[n := ch];
  }

  lemma HeaderOfBytes(h: Header)
    ensures |h.Bytes()| == HEADER_LEN && h.Bytes()[..HEADER_LEN] == h.Bytes() && HeaderOf(h.Bytes()) == h
  {
  }

  /** FCGIClientRequest, as far as it decodes responses. */
  class ResponseDecoder {
    const status: StatusLine
    var firstChunk: bool
    var headerRecord: FCGIRecordList

    constructor (status: StatusLine)
      ensures Valid() && Phase() == FRESH && firstChunk && this.status == status
      ensures fresh(headerRecord) && fresh(headerRecord.content)
    {
      this.status := status;
      firstChunk := true;
      headerRecord := new FCGIRecordList();
    }

    ghost predicate Valid()
      reads this, headerRecord
    {
      headerRecord.Valid()
    }

    ghost function Phase(): (p: Phase)
      requires Valid()
      reads this, headerRecord, headerRecord.content
      ensures ValidPhase(p)
    {
      headerRecord.Phase()
    }

    /** Takes one header byte. Outside the header there is nothing to take. */
    static method ProcessHeader(ch: byte, rec: FCGIRecordList) returns (rv: Answer)
      requires rec.Valid()
      modifies rec
      ensures rec.Valid() && rec.content == old(rec.content)
      ensures rv == if old(rec.state).BeforeContent() then Again else Done
      ensures rv == Done ==> unchanged(rec)
      ensures rv == Again ==> TookHeaderByte(rec, old(rec.Phase()), ch)
    {
      hide Header.Bytes, HeaderOf;
      ghost var h, n := rec.header, rec.state.HeaderBytes();
      match rec.state {
        case Version => rec.header, rec.state := rec.header.(version := ch), Type;
        case Type => rec.header, rec.state := rec.header.(kind := ch), RequestIdHi;
        case RequestIdHi => rec.header, rec.state := rec.header.(requestIdB1 := ch), RequestIdLo;
        case RequestIdLo => rec.header, rec.state := rec.header.(requestIdB0 := ch), ContentLenHi;
        case ContentLenHi => rec.header, rec.state := rec.header.(contentLengthB1 := ch), ContentLenLo;
        case ContentLenLo => rec.header, rec.state := rec.header.(contentLengthB0 := ch), PaddingLen;
        case PaddingLen => rec.header, rec.state := rec.header.(paddingLength := ch), Reserved;
        case Reserved => rec.header, rec.state := rec.header.(reserved := ch), ContentBegin;
        case _ => return Done;
      }
      assert rec.header == WithByte(h, n, ch);
      WithByteIs(h, n, ch);
      HeaderOfBytes(rec.header);
      return Again;
    }

    /** The header has grown by one byte, the eighth of which completes it. */
    static ghost predicate TookHeaderByte(rec: FCGIRecordList, p: Phase, ch: byte)
      requires rec.Valid()
      reads rec, rec.content
    {
      && p.InHeader?
      && (if |p.got| + 1 < HEADER_LEN then rec.state.BeforeContent() && rec.Phase() == InHeader(p.got + [ch])
          else |p.got| + 1 == HEADER_LEN && rec.state.ContentBegin? && rec.header == HeaderOf(p.got + [ch]))
    }

    /** memcpy of the next content bytes. */
    static method CopyContent(chunk: seq<byte>, pos: nat, n: nat, content: array<byte>, offset: nat)
      requires pos + n <= |chunk| && offset + n <= content.Length
      modifies content
      ensures content[..offset + n] == old(content[..offset]) + chunk[pos..pos + n]
    {
      forall i | 0 <= i < n {
        content[offset + i] := chunk[pos + i];
      }
    }

    /** Takes content and padding from `chunk[pos..]`; the new position can lie behind the chunk. */
    static method ProcessContent(chunk: seq<byte>, pos: nat, rec: FCGIRecordList) returns (rv: Answer, pos': nat)
      requires rec.Valid() && (rec.state.ContentProc? || rec.state.Padding?) && pos < |chunk|
      modifies rec`state, rec`offset, rec.content
      ensures rec.Valid()
      ensures Took(rec, rv, pos' - pos, BodyStep(old(rec.Phase()), chunk[pos..], 0), |chunk| - pos)
    {
      if rec.state.Padding? {
        rec.state := RecordDone;
        assert rec.content[..] == rec.content[..rec.length];
        return Done, pos + (rec.length - rec.offset + rec.header.paddingLength as nat);
      }
      ghost var p, bs := rec.Phase(), chunk[pos..];
      var nb := |chunk| - pos;
      var conLen := rec.length - rec.offset;
      var cpyLen := if conLen <= nb then conLen else nb;
      CopyContent(chunk, pos, cpyLen, rec.content, rec.offset);
      assert chunk[pos..pos + cpyLen] == bs[..cpyLen];
      var used: nat;
      rv, used := AfterCopy(rec, nb, p, bs);
      pos' := pos + used;
    }

    /** Moves the record on once the content bytes at hand are copied. */
    static method AfterCopy(rec: FCGIRecordList, nb: nat, ghost p: Phase, ghost bs: seq<byte>) returns (rv: Answer, used: nat)
      requires rec.Valid() && rec.state.ContentProc? && nb == |bs| > 0
      requires p.InBody? && p.header == rec.header && |p.content| == rec.offset && p.skipped == 0
      requires var n := Min(rec.length - rec.offset, nb); rec.content[..rec.offset + n] == p.content + bs[..n]
      modifies rec`state, rec`offset
      ensures rec.Valid()
      ensures Took(rec, rv, used, BodyStep(p, bs, 0), nb)
    {
      var conLen := rec.length - rec.offset;
      var totLen := conLen + rec.header.paddingLength as nat;
      if totLen <= nb {
        rec.offset := rec.offset + totLen;
        rec.state := RecordDone;
        assert rec.content[..] == rec.content[..rec.length];
        return Done, totLen;
      }
      if conLen <= nb {
        rec.state := Padding;
      } else {
        assert bs[..nb] == bs;
      }
      rec.offset := rec.offset + nb;
      return Again, nb;
    }

    /** A pass over a record ended as `step` says, having moved on by `used` of `available` bytes. */
    static ghost predicate Took(rec: FCGIRecordList, rv: Answer, used: int, step: Step, available: nat)
      requires rec.Valid()
      reads rec, rec.content
    {
      match step
      case NeedMore(p) => rv == Again && used == available && !rec.state.RecordDone? && rec.Phase() == p
      case Complete(r, n) => rv == Done && used == n && rec.state.RecordDone? && rec.AsRecord() == r
    }

    /** The header loop: stops behind the header, or at the end of the chunk. */
    static method ReadHeader(chunk: seq<byte>, pos: nat, rec: FCGIRecordList) returns (pos': nat)
      requires rec.Valid() && rec.state.BeforeContent() && pos < |chunk|
      modifies rec
      ensures rec.Valid() && rec.content == old(rec.content)
      ensures pos < pos' <= |chunk|
      ensures var got, bs := old(rec.Phase()).got, chunk[pos..];
              if |got| + |bs| < HEADER_LEN then pos' == |chunk| && rec.state.BeforeContent() && rec.Phase() == InHeader(got + bs)
              else
                var n := HEADER_LEN - |got|;
                pos' == pos + n && rec.state.ContentBegin? && rec.header == HeaderOf(got + bs[..n])
    {
      ghost var got, bs := rec.Phase().got, chunk[pos..];
      pos' := pos;
      assert got + bs[..0] == got;
      while rec.state.BeforeContent()
        invariant pos <= pos' < |chunk| && rec.Valid() && rec.content == old(rec.content)
        invariant if rec.state.BeforeContent() then rec.Phase() == InHeader(got + bs[..pos' - pos]) && |got| + (pos' - pos) < HEADER_LEN
                  else |got| + (pos' - pos) == HEADER_LEN && rec.state.ContentBegin? && rec.header == HeaderOf(got + bs[..pos' - pos])
        decreases |chunk| - pos'
      {
        var rv := ProcessHeader(chunk[pos'], rec);
        assert got + bs[..pos' + 1 - pos] == got + bs[..pos' - pos] + [chunk[pos']];
        pos' := pos' + 1;
        if pos' == |chunk| {
          assert bs[..pos' - pos] == bs;
          return;
        }
      }
    }

    /** Takes what `chunk[pos..]` holds of the current record. */
    static method ProcessRecord(chunk: seq<byte>, pos: nat, rec: FCGIRecordList) returns (rv: Answer, pos': nat)
      requires rec.Valid() && !rec.state.RecordDone? && pos < |chunk|
      modifies rec, rec.content
      ensures rec.Valid() && (rec.content == old(rec.content) || fresh(rec.content))
      ensures pos <= pos'
      ensures Took(rec, rv, pos' - pos, StepOn(old(rec.Phase()), chunk[pos..]), |chunk| - pos)
    {
      hide HeaderOf, Header.Bytes, AbsorbAll;
      pos' := pos;
      if rec.state.BeforeContent() {
        pos' := ReadHeader(chunk, pos, rec);
        if pos' == |chunk| {
          return Again, pos';
        }
      }
      assert chunk[pos..][pos' - pos..] == chunk[pos'..];
      rv, pos' := ProcessBody(chunk, pos', rec);
    }

    static method ProcessBody(chunk: seq<byte>, pos: nat, rec: FCGIRecordList) returns (rv: Answer, pos': nat)
      requires rec.Valid() && (rec.state.ContentBegin? || rec.state.ContentProc? || rec.state.Padding?) && pos < |chunk|
      modifies rec, rec.content
      ensures rec.Valid() && (rec.content == old(rec.content) || fresh(rec.content))
      ensures Took(rec, rv, pos' - pos, BodyStep(old(rec.Phase()), chunk[pos..], 0), |chunk| - pos)
    {
      if rec.state.ContentBegin? {
        BeginContent(rec);
      }
      rv, pos' := ProcessContent(chunk, pos, rec);
    }

    static method BeginContent(rec: FCGIRecordList)
      requires rec.Valid() && rec.state.ContentBegin?
      modifies rec
      ensures rec.Valid() && rec.state.ContentProc? && fresh(rec.content)
      ensures rec.Phase() == old(rec.Phase())
    {
      rec.length := rec.header.ContentLength();
      rec.content := new byte[rec.length];
      rec.state := ContentProc;
      assert rec.content[..0] == [];
    }

    /** Renders a record that is done, the first one with a status line; says whether it ends the reading. */
    method HandOn(output: seq<byte>) returns (finished: bool, output': seq<byte>)
      modifies this`firstChunk
      ensures !firstChunk
      ensures finished == Terminal(headerRecord.AsRecord())
      ensures output' == output + RenderOne(status, old(firstChunk), headerRecord.AsRecord())
    {
      var content := headerRecord.content[..];
      output' := output;
      if firstChunk {
        output' := output' + status(HeaderBlock(content));
        firstChunk := false;
      }
      if headerRecord.header.kind == STDOUT {
        output' := output' + content;
      }
      if headerRecord.header.kind == STDERR {
        output' := output' + SERVER_ERROR;
        output' := output' + content;
        return true, output';
      }
      return headerRecord.header.kind == END_REQUEST, output';
    }

    ghost function Seen(output: seq<byte>): (v: View)
      requires Valid()
      reads this, headerRecord, headerRecord.content
      ensures ValidPhase(v.phase)
    {
      View(Phase(), firstChunk, output)
    }

    /** One round of the loop of fcgiProcessBuffer. */
    method DecodeNext(chunk: seq<byte>, pos: nat, output: seq<byte>) returns (finished: bool, pos': nat, output': seq<byte>)
      requires Valid() && pos < |chunk|
      modifies this, headerRecord, headerRecord.content
      ensures Valid()
      ensures headerRecord == old(headerRecord) || fresh(headerRecord)
      ensures headerRecord.content == old(headerRecord.content) || fresh(headerRecord.content)
      ensures var step := StepOn(old(Phase()), chunk[pos..]);
              && Seen(output') == AfterStep(status, old(Seen(output)), step)
              && if step.NeedMore? then !finished && pos' == |chunk| else finished == Terminal(step.record) && pos' == pos + step.used
    {
      hide StepOn, RenderOne;
      if headerRecord.state.RecordDone? {
        headerRecord := new FCGIRecordList();
      }
      var rv: Answer;
      rv, pos' := ProcessRecord(chunk, pos, headerRecord);
      finished, output' := false, output;
      if rv == Done {
        finished, output' := HandOn(output);
      }
    }

    /** fcgiDecodeRecordChunk: decodes one chunk, appending what it renders to `output`. */
    method DecodeRecordChunk(chunk: seq<byte>, output: seq<byte>) returns (outcome: Outcome, output': seq<byte>)
      requires Valid() && chunk != []
      modifies this, headerRecord, headerRecord.content
      ensures Valid()
      ensures headerRecord == old(headerRecord) || fresh(headerRecord)
      ensures headerRecord.content == old(headerRecord.content) || fresh(headerRecord.content)
      ensures (outcome, Seen(output')) == CallView(status, old(Seen(output)), chunk)
    {
      ghost var v0 := Seen(output);
      var pos := 0;
      output' := output;
      assert chunk[0..] == chunk;
      while true
        invariant pos < |chunk| && Valid()
        invariant headerRecord == old(headerRecord) || fresh(headerRecord)
        invariant headerRecord.content == old(headerRecord.content) || fresh(headerRecord.content)
        invariant CallView(status, v0, chunk) == CallView(status, Seen(output'), chunk[pos..])
        invariant pos > 0 ==> Phase() == FRESH
        decreases |chunk| - pos, Phase() != FRESH
      {
        ghost var step := StepOn(Phase(), chunk[pos..]);
        CallViewSteps(status, Seen(output'), chunk[pos..]);
        var finished: bool;
        finished, pos, output' := DecodeNext(chunk, pos, output');
        if finished {
          return Finished, output';
        }
        if pos == |chunk| {
          return More, output';
        }
        if pos > |chunk| {
          return Overrun, output';
        }
        assert chunk[pos - step.used..][step.used..] == chunk[pos..];
      }
    }
  }

  /** A whole response, chunk by chunk, until a call does not ask for more. */
  method DecodeResponse(status: StatusLine, chunks: seq<seq<byte>>) returns (finished: bool, text: seq<byte>)
    requires PaddingFits(FRESH, chunks) && forall c :: c in chunks ==> c != []
    ensures var d := Deliverable(Joined(chunks)); text == Meant(status, d) && (finished <==> FirstEnd(d) < |d|)
  {
    hide CallView, Meant, Deliverable, PaddingFits, Joined, FirstEnd;
    ResponseText(status, chunks);
    var decoder := new ResponseDecoder(status);
    finished, text := false, [];
    assert chunks[0..] == chunks;
    for i := 0 to |chunks|
      invariant decoder.Valid() && decoder.status == status && fresh(decoder) && fresh(decoder.headerRecord) && fresh(decoder.headerRecord.content)
      invariant ViewCalls(status, View(FRESH, true, []), chunks) == ViewCalls(status, decoder.Seen(text), chunks[i..])
    {
      assert chunks[i..][0] == chunks[i] && chunks[i..][1..] == chunks[i + 1..] && chunks[i] in chunks;
      var outcome;
      outcome, text := decoder.DecodeRecordChunk(chunks[i], text);
      if outcome != More { return outcome == Finished, text; }
    }
  }
}
