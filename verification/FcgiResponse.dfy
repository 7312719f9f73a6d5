/** What a whole response means: which records the client hands on, the text it renders for them, and how
    the calls of fcgiDecodeRecordChunk on successive chunks add up. */
module FcgiResponse {
  import opened FcgiProtocol
  import opened FcgiStream

  // ---- Refinement of the reference parser -------------------------------------------------------------

  /** The bytes behind the last complete record. */
  function Unread(bs: seq<byte>): seq<byte> {
    if HasRecord(bs) then Unread(bs[FirstLength(bs)..]) else bs
  }

  /** The bytes end exactly with the header of a record that has neither content nor padding. */
  predicate EndsInBareHeader(bs: seq<byte>) {
    var rs := Records(bs);
    rs != [] && rs[|rs| - 1].header.BodyLength() == 0 && Unread(bs) == []
  }

  /** The decoder looks at a record's body only when a further byte is there, so it leaves such a final
      record for the next chunk. Every other complete record is handed on. */
  function Deliverable(bs: seq<byte>): seq<Record> {
    var rs := Records(bs);
    if EndsInBareHeader(bs) then rs[..|rs| - 1] else rs
  }

  function UpToTerminal(rs: seq<Record>): seq<Record> {
    if rs == [] then [] else if Terminal(rs[0]) then [rs[0]] else [rs[0]] + UpToTerminal(rs[1..])
  }

  predicate HasTerminal(rs: seq<Record>) {
    exists i :: 0 <= i < |rs| && Terminal(rs[i])
  }

  lemma {:induction false} DeliverableStep(bs: seq<byte>)
    requires HasRecord(bs)
    ensures var rest := bs[FirstLength(bs)..];
            Deliverable(bs) == if FirstLength(bs) == HEADER_LEN && rest == [] then [] else [FirstRecord(bs)] + Deliverable(rest)
  {
    var rest := bs[FirstLength(bs)..];
    var rs, tail := Records(bs), Records(rest);
    assert rs == [FirstRecord(bs)] + tail;
    if tail == [] {
      assert Unread(bs) == rest;
      assert FirstRecord(bs).header.BodyLength() == FirstLength(bs) - HEADER_LEN;
      assert EndsInBareHeader(bs) <==> FirstLength(bs) == HEADER_LEN && rest == [];
      if FirstLength(bs) == HEADER_LEN && rest == [] { assert rs[..|rs| - 1] == []; }
    } else {
      assert rs[|rs| - 1] == tail[|tail| - 1];
      assert rs[..|rs| - 1] == [FirstRecord(bs)] + tail[..|tail| - 1];
    }
  }

  /** Feeding a record that is complete, and not a bare header at the very end, delivers it. */
  lemma FeedRecord(bs: seq<byte>)
    requires HasRecord(bs) && (FirstLength(bs) > HEADER_LEN || |bs| > HEADER_LEN)
    ensures FeedBytes(FRESH, bs) == Deliver(FirstRecord(bs), bs[FirstLength(bs)..])
  {
    hide FeedBytes, Deliver;
    var h := HeaderOf(bs[..HEADER_LEN]);
    var body := bs[HEADER_LEN..];
    FeedWholeHeader([], bs);
    assert [] + bs[..HEADER_LEN] == bs[..HEADER_LEN];
    FeedWholeBody(InBody(h, [], 0), body);
    assert [] + body[..h.ContentLength()] == FirstRecord(bs).content;
    assert body[h.BodyLength()..] == bs[FirstLength(bs)..];
  }

  /** Feeding anything less delivers nothing. */
  lemma FeedNoRecord(bs: seq<byte>)
    requires !HasRecord(bs) || (FirstLength(bs) == HEADER_LEN == |bs|)
    ensures FeedBytes(FRESH, bs).records == [] && !FeedBytes(FRESH, bs).finished
  {
    if |bs| < HEADER_LEN {
      FeedPartialHeader([], bs);
    } else {
      FeedWholeHeader([], bs);
      assert [] + bs[..HEADER_LEN] == bs[..HEADER_LEN];
      var p := InBody(HeaderOf(bs[..HEADER_LEN]), [], 0);
      if bs[HEADER_LEN..] != [] { FeedPartialBody(p, bs[HEADER_LEN..]); }
    }
  }

  lemma TerminalStep(r: Record, rs: seq<Record>)
    ensures HasTerminal([r] + rs) <==> Terminal(r) || HasTerminal(rs)
    ensures UpToTerminal([r] + rs) == if Terminal(r) then [r] else [r] + UpToTerminal(rs)
  {
    var all := [r] + rs;
    assert all[1..] == rs;
    if HasTerminal(rs) { var i :| 0 <= i < |rs| && Terminal(rs[i]); assert Terminal(all[i + 1]); }
    if Terminal(r) { assert Terminal(all[0]); }
  }

  /** The incremental decoder, fed from the start, hands on exactly the records the reference parser
      finds, up to the first terminal one. */
  lemma {:induction false} FeedRefinesRecords(bs: seq<byte>)
    ensures var f := FeedBytes(FRESH, bs);
            f.records == UpToTerminal(Deliverable(bs)) && f.finished == HasTerminal(Deliverable(bs))
    decreases |bs|
  {
    if HasRecord(bs) {
      DeliverableStep(bs);
      var r, rest := FirstRecord(bs), bs[FirstLength(bs)..];
      if FirstLength(bs) == HEADER_LEN && rest == [] {
        FeedNoRecord(bs);
      } else {
        FeedRecord(bs);
        FeedRefinesRecords(rest);
        TerminalStep(r, Deliverable(rest));
      }
    } else {
      assert Records(bs) == [];
      FeedNoRecord(bs);
    }
  }

  // ---- Rendering --------------------------------------------------------------------------------------

  function Ascii(s: string): (bs: seq<byte>)
    ensures |bs| == |s|
  {
    seq(|s|, i requires 0 <= i < |s| => (s[i] as int % 256) as byte)
  }

  const CRLF_CRLF: seq<byte> := [13, 10, 13, 10]
  const SERVER_ERROR: seq<byte> := Ascii("HTTP/1.0 500 Server Error\r\n\r\n")

  /** The first record's content through its first empty line; nothing if there is none. */
  function HeaderBlock(content: seq<byte>): (block: seq<byte>)
    ensures block <= content
    decreases |content|
  {
    if |content| < 4 then []
    else if content[..4] == CRLF_CRLF then content[..4]
    else
      var tail := HeaderBlock(content[1..]);
      if tail == [] then [] else [content[0]] + tail
  }

  /** `status` stands for the MIME parsing of the header block into a status line. */
  type StatusLine = seq<byte> -> seq<byte>

  function RenderOne(status: StatusLine, first: bool, r: Record): seq<byte> {
    (if first then status(HeaderBlock(r.content)) else []) +
    (if r.header.kind == STDOUT then r.content
     else if r.header.kind == STDERR then SERVER_ERROR + r.content
     else [])
  }

  function Render(status: StatusLine, first: bool, rs: seq<Record>): seq<byte> {
    if rs == [] then [] else RenderOne(status, first, rs[0]) + Render(status, false, rs[1..])
  }

  lemma {:induction false} RenderConcat(status: StatusLine, first: bool, a: seq<Record>, b: seq<Record>)
    ensures Render(status, first, a + b) == Render(status, first, a) + Render(status, first && a == [], b)
    decreases |a|
  {
    if a == [] {
      assert a + b == b;
    } else {
      RenderConcat(status, false, a[1..], b);
      assert (a + b)[1..] == a[1..] + b;
    }
  }

  /** The contents of the records of type 6, in order. */
  function Stdout(rs: seq<Record>): seq<byte> {
    if rs == [] then [] else (if rs[0].header.kind == 6 then rs[0].content else []) + Stdout(rs[1..])
  }

  /** Where the first record of type 3 or 7 stands, if there is one; their number otherwise. */
  function FirstEnd(rs: seq<Record>): (k: nat)
    ensures k <= |rs| && forall i :: 0 <= i < k ==> rs[i].header.kind != 3 && rs[i].header.kind != 7
    ensures k < |rs| ==> rs[k].header.kind == 3 || rs[k].header.kind == 7
  {
    if rs == [] || rs[0].header.kind == 3 || rs[0].header.kind == 7 then 0 else 1 + FirstEnd(rs[1..])
  }

  /** What is sent for a STDERR record, if that is the first end: an error response and the record's content. */
  function ErrorText(rs: seq<Record>): seq<byte> {
    var k := FirstEnd(rs);
    if k < |rs| && rs[k].header.kind == 7 then Ascii("HTTP/1.0 500 Server Error\r\n\r\n") + rs[k].content else []
  }

  /** What records mean to the client: a status text from the first, the contents of the STDOUT records, and if
      a STDERR record ends them, an error response and its content. */
  function Meant(status: StatusLine, rs: seq<Record>): seq<byte> {
    (if rs == [] then [] else status(HeaderBlock(rs[0].content))) + (Stdout(rs[..FirstEnd(rs)]) + ErrorText(rs))
  }

  lemma RenderFirst(status: StatusLine, rs: seq<Record>)
    ensures Render(status, true, rs) == (if rs == [] then [] else status(HeaderBlock(rs[0].content))) + Render(status, false, rs)
  {
    hide Ascii, HeaderBlock;
    if rs != [] {
      var text, one, more := status(HeaderBlock(rs[0].content)), RenderOne(status, false, rs[0]), Render(status, false, rs[1..]);
      assert RenderOne(status, true, rs[0]) == text + one;
      assert (text + one) + more == text + (one + more);
    }
  }

  lemma RenderCons(status: StatusLine, r: Record, rs: seq<Record>)
    ensures Render(status, false, [r] + rs) == RenderOne(status, false, r) + Render(status, false, rs)
  {
    hide RenderOne, Ascii, HeaderBlock;
    assert ([r] + rs)[1..] == rs;
  }

  /** A record's text: the status text if it is the first, the content of a STDOUT record, or the error response
      and the content of a STDERR record. */
  lemma RenderOneIs(status: StatusLine, first: bool, r: Record)
    ensures Terminal(r) <==> r.header.kind == 3 || r.header.kind == 7
    ensures RenderOne(status, first, r) ==
            (if first then status(HeaderBlock(r.content)) else []) +
            (if r.header.kind == 6 then r.content else []) +
            (if r.header.kind == 7 then Ascii("HTTP/1.0 500 Server Error\r\n\r\n") + r.content else [])
  {
    hide Ascii, HeaderBlock;
  }

  lemma BodyNext(r: Record, rs: seq<Record>)
    requires r.header.kind != 3 && r.header.kind != 7
    ensures var all := [r] + rs;
            && Stdout(all[..FirstEnd(all)]) == (if r.header.kind == 6 then r.content else []) + Stdout(rs[..FirstEnd(rs)])
            && ErrorText(all) == ErrorText(rs)
  {
    hide Ascii;
    var all := [r] + rs;
    assert all[1..] == rs;
    assert all[..FirstEnd(all)][1..] == rs[..FirstEnd(rs)];
  }

  lemma BodyEnd(r: Record, rs: seq<Record>)
    requires r.header.kind == 3 || r.header.kind == 7
    ensures var all := [r] + rs;
            && Stdout(all[..FirstEnd(all)]) == []
            && ErrorText(all) == if r.header.kind == 7 then Ascii("HTTP/1.0 500 Server Error\r\n\r\n") + r.content else []
  {
    hide Ascii;
    var all := [r] + rs;
    assert FirstEnd(all) == 0 && all[..0] == [];
  }

  lemma {:induction false} RenderBody(status: StatusLine, rs: seq<Record>)
    ensures Render(status, false, UpToTerminal(rs)) == Stdout(rs[..FirstEnd(rs)]) + ErrorText(rs)
    decreases |rs|
  {
    hide Render, RenderOne, UpToTerminal, Stdout, FirstEnd, ErrorText, Ascii;
    if rs == [] {
      RenderNone(status, rs);
    } else {
      var r, rest := rs[0], rs[1..];
      assert rs == [r] + rest;
      TerminalStep(r, rest);
      RenderOneIs(status, false, r);
      if r.header.kind == 3 || r.header.kind == 7 {
        RenderCons(status, r, []);
        RenderNone(status, []);
        assert [r] + [] == [r];
        BodyEnd(r, rest);
      } else {
        RenderBody(status, rest);
        RenderCons(status, r, UpToTerminal(rest));
        BodyNext(r, rest);
      }
    }
  }

  lemma RenderNone(status: StatusLine, rs: seq<Record>)
    requires rs == []
    ensures Render(status, false, UpToTerminal(rs)) == [] == Stdout(rs[..FirstEnd(rs)]) + ErrorText(rs) && Render(status, false, []) == []
  {
  }

  /** What the client is sent for the records up to the first terminal one is what they mean. */
  lemma RenderIsMeant(status: StatusLine, rs: seq<Record>)
    ensures Render(status, true, UpToTerminal(rs)) == Meant(status, rs)
  {
    hide Stdout, ErrorText, Render;
    RenderFirst(status, UpToTerminal(rs));
    RenderBody(status, rs);
  }

  predicate EmptyLineAt(content: seq<byte>, k: nat) {
    k + 4 <= |content| && content[k..k + 4] == [13, 10, 13, 10]
  }

  lemma EmptyLineBehind(content: seq<byte>, k: nat)
    requires content != []
    ensures EmptyLineAt(content, k + 1) <==> EmptyLineAt(content[1..], k)
  {
    if k + 5 <= |content| { assert content[1..][k..k + 4] == content[k + 1..k + 5]; }
  }

  ghost predicate EndsFirstLine(content: seq<byte>, n: nat) {
    (n > 0 ==> n >= 4 && EmptyLineAt(content, n - 4)) && (forall k: nat :: EmptyLineAt(content, k) ==> 0 < n <= k + 4)
  }

  lemma LaterLine(content: seq<byte>, n: nat)
    requires content != [] && !EmptyLineAt(content, 0) && EndsFirstLine(content[1..], n)
    ensures EndsFirstLine(content, if n == 0 then 0 else n + 1)
  {
    hide EmptyLineAt;
    if n > 0 { EmptyLineBehind(content, n - 4); }
    forall k: nat | EmptyLineAt(content, k) ensures k > 0 && EmptyLineAt(content[1..], k - 1) {
      if k > 0 { EmptyLineBehind(content, k - 1); }
    }
  }

  lemma BlockHere(content: seq<byte>)
    ensures EmptyLineAt(content, 0) ==> |HeaderBlock(content)| == 4
    ensures |content| >= 4 && !EmptyLineAt(content, 0) ==>
              var m := |HeaderBlock(content[1..])|; |HeaderBlock(content)| == if m == 0 then 0 else m + 1
    ensures |content| < 4 ==> HeaderBlock(content) == []
  {
    if |content| >= 4 { assert content[0..4] == content[..4]; }
  }

  /** The block is what stands in front of the end of the first empty line, or nothing if there is none. */
  lemma {:induction false} HeaderBlockMeans(content: seq<byte>)
    ensures HeaderBlock(content) <= content && EndsFirstLine(content, |HeaderBlock(content)|)
    decreases |content|
  {
    hide HeaderBlock;
    BlockHere(content);
    if |content| >= 4 && !EmptyLineAt(content, 0) {
      HeaderBlockMeans(content[1..]);
      LaterLine(content, |HeaderBlock(content[1..])|);
    }
  }

  // ---- One call on one chunk --------------------------------------------------------------------------

  /** More and Finished are the two return values of the call. Overrun is the case with no defined
      result: the padding skip moved the read position past the end of the chunk, and the next record
      would be read from there. */
  datatype Outcome = More | Finished | Overrun

  datatype Call = Call(outcome: Outcome, phase: Phase, records: seq<Record>)

  /** Padding still open when the decoder is inside a record's padding. A header that has just ended
      leaves none: its body has not been looked at yet. */
  function PaddingOpen(p: Phase): nat
    requires ValidPhase(p)
  {
    if p.InBody? && |p.content| == p.header.ContentLength() && (p.skipped > 0 || |p.content| > 0)
    then p.header.paddingLength as nat - p.skipped else 0
  }

  /** The padding state skips all that is left of the padding at once, whatever the chunk holds. */
  function CallOn(p: Phase, chunk: seq<byte>): (c: Call)
    requires ValidPhase(p)
    ensures ValidPhase(c.phase)
  {
    if PaddingOpen(p) > |chunk| then
      var r := Record(p.header, p.content);
      Call(if Terminal(r) then Finished else Overrun, FRESH, [r])
    else
      var f := FeedBytes(p, chunk);
      Call(if f.finished then Finished else More, f.phase, f.records)
  }

  /** One pass of fcgiProcessRecord: either the bytes run out first, or the record is complete after
      `used` of them (more than there are, when a padding skip leaves the chunk). */
  datatype Step = NeedMore(phase: Phase) | Complete(record: Record, used: nat)

  function StepOn(p: Phase, bs: seq<byte>): Step
    requires ValidPhase(p)
  {
    match p
    case InHeader(got) =>
      var n := HEADER_LEN - |got|;
      if |bs| < n then NeedMore(InHeader(got + bs))
      else
        var body := InBody(HeaderOf(got + bs[..n]), [], 0);
        if |bs| == n then NeedMore(body) else BodyStep(body, bs[n..], n)
    case InBody(_, _, _) => BodyStep(p, bs, 0)
  }

  function BodyStep(p: Phase, bs: seq<byte>, before: nat): Step
    requires ValidPhase(p) && p.InBody?
  {
    var n := p.header.ContentLength() - |p.content|;
    if PaddingOpen(p) > 0 then Complete(Record(p.header, p.content), before + Remaining(p))
    else if Remaining(p) <= |bs| then Complete(Record(p.header, p.content + bs[..n]), before + Remaining(p))
    else NeedMore(AbsorbAll(p, bs))
  }

  /** What a pass means for the byte-driven machine. */
  ghost predicate StepMeans(p: Phase, bs: seq<byte>, step: Step)
    requires ValidPhase(p)
  {
    if step.NeedMore? then
      ValidPhase(step.phase) && FeedBytes(p, bs) == Progress(step.phase, [], false) && PaddingOpen(p) <= |bs|
    else if step.used <= |bs| then
      PaddingOpen(p) <= |bs| && FeedBytes(p, bs) == Deliver(step.record, bs[step.used..])
    else
      PaddingOpen(p) > |bs| && step.record == Record(p.header, p.content)
  }

  lemma StepFeeds(p: Phase, bs: seq<byte>)
    requires ValidPhase(p) && bs != []
    ensures StepMeans(p, bs, StepOn(p, bs))
  {
    if p.InBody? {
      BodyFeeds(p, bs);
    } else if |p.got| + |bs| < HEADER_LEN {
      FeedPartialHeader(p.got, bs);
    } else {
      FeedWholeHeader(p.got, bs);
      var n := HEADER_LEN - |p.got|;
      if |bs| > n { HeaderFeeds(p, bs, InBody(HeaderOf(p.got + bs[..n]), [], 0), n); }
    }
  }

  lemma HeaderFeeds(p: Phase, bs: seq<byte>, body: Phase, n: nat)
    requires ValidPhase(p) && p.InHeader? && ValidPhase(body) && body.InBody? && PaddingOpen(body) == 0 && n < |bs|
    requires FeedBytes(p, bs) == FeedBytes(body, bs[n..])
    ensures StepMeans(p, bs, BodyStep(body, bs[n..], n))
  {
    hide FeedBytes, Deliver;
    BodyFeeds(body, bs[n..]);
    if Remaining(body) <= |bs| - n { assert bs[n..][Remaining(body)..] == bs[n + Remaining(body)..]; }
  }

  lemma BodyFeeds(p: Phase, bs: seq<byte>)
    requires ValidPhase(p) && p.InBody? && bs != []
    ensures StepMeans(p, bs, BodyStep(p, bs, 0))
  {
    var n := p.header.ContentLength() - |p.content|;
    if Remaining(p) <= |bs| {
      FeedWholeBody(p, bs);
      if PaddingOpen(p) > 0 { assert p.content + bs[..n] == p.content; }
    } else {
      FeedPartialBody(p, bs);
    }
  }

  /** A call is passes until the chunk is used up, the response ends, or a skip leaves the chunk. */
  lemma CallSteps(p: Phase, chunk: seq<byte>)
    requires ValidPhase(p) && chunk != []
    ensures CallOn(p, chunk) ==
            match StepOn(p, chunk)
            case NeedMore(p') => Call(More, p', [])
            case Complete(r, used) =>
              if Terminal(r) then Call(Finished, FRESH, [r])
              else if used > |chunk| then Call(Overrun, FRESH, [r])
              else if used == |chunk| then Call(More, FRESH, [r])
              else Onto([r], CallOn(FRESH, chunk[used..]))
  {
    StepFeeds(p, chunk);
    if StepOn(p, chunk).Complete? && StepOn(p, chunk).used == |chunk| {
      assert chunk[|chunk|..] == [];
      assert [StepOn(p, chunk).record] + [] == [StepOn(p, chunk).record];
    }
  }

  function Onto(rs: seq<Record>, c: Call): Call {
    c.(records := rs + c.records)
  }

  /** What a caller sees of the decoder: its phase, whether the status line is still to come, and the text
      rendered so far. */
  datatype View = View(phase: Phase, first: bool, output: seq<byte>)

  function AfterRecords(status: StatusLine, v: View, p: Phase, rs: seq<Record>): View {
    View(p, v.first && rs == [], v.output + Render(status, v.first, rs))
  }

  function AfterStep(status: StatusLine, v: View, step: Step): View {
    match step
    case NeedMore(p) => v.(phase := p)
    case Complete(r, _) => View(FRESH, false, v.output + RenderOne(status, v.first, r))
  }

  /** One call of fcgiDecodeRecordChunk. */
  function CallView(status: StatusLine, v: View, chunk: seq<byte>): (Outcome, View)
    requires ValidPhase(v.phase)
  {
    var c := CallOn(v.phase, chunk);
    (c.outcome, AfterRecords(status, v, c.phase, c.records))
  }

  lemma CallViewSteps(status: StatusLine, v: View, chunk: seq<byte>)
    requires ValidPhase(v.phase) && chunk != []
    ensures var step := StepOn(v.phase, chunk);
            var w := AfterStep(status, v, step);
            CallView(status, v, chunk) ==
            if step.NeedMore? then (More, w)
            else if Terminal(step.record) then (Finished, w)
            else if step.used > |chunk| then (Overrun, w)
            else if step.used == |chunk| then (More, w)
            else CallView(status, w, chunk[step.used..])
  {
    CallSteps(v.phase, chunk);
    var step := StepOn(v.phase, chunk);
    if step.NeedMore? {
      assert v.output + [] == v.output;
    } else {
      RenderSingle(status, v.first, step.record);
      if !Terminal(step.record) && step.used < |chunk| {
        var rest := CallOn(FRESH, chunk[step.used..]);
        RenderConcat(status, v.first, [step.record], rest.records);
        var one := RenderOne(status, v.first, step.record);
        assert v.output + (one + Render(status, false, rest.records)) == v.output + one + Render(status, false, rest.records);
      }
    }
  }

  lemma RenderSingle(status: StatusLine, first: bool, r: Record)
    ensures Render(status, first, [r]) == RenderOne(status, first, r)
  {
    assert [r][1..] == [];
  }

  /** Calls on successive chunks until one does not ask for more. */
  function Calls(p: Phase, chunks: seq<seq<byte>>): Call
    requires ValidPhase(p)
    decreases |chunks|
  {
    if chunks == [] then Call(More, p, [])
    else
      var c := CallOn(p, chunks[0]);
      if c.outcome != More then c
      else
        var rest := Calls(c.phase, chunks[1..]);
        rest.(records := c.records + rest.records)
  }

  /** No chunk is shorter than the padding open when it arrives. */
  predicate PaddingFits(p: Phase, chunks: seq<seq<byte>>)
    requires ValidPhase(p)
    decreases |chunks|
  {
    chunks == [] ||
    (PaddingOpen(p) <= |chunks[0]| &&
     var c := CallOn(p, chunks[0]);
     c.outcome == More ==> PaddingFits(c.phase, chunks[1..]))
  }

  function Joined(chunks: seq<seq<byte>>): seq<byte> {
    if chunks == [] then [] else chunks[0] + Joined(chunks[1..])
  }

  lemma CallsOnOne(p: Phase, chunk: seq<byte>)
    requires ValidPhase(p)
    ensures Calls(p, [chunk]) == CallOn(p, chunk)
  {
    var c := CallOn(p, chunk);
    assert [chunk][1..] == [];
    assert Calls(c.phase, []) == Call(More, c.phase, []);
    assert c.records + [] == c.records;
  }

  /** Two chunks give what their concatenation gives exactly when the padding the first one leaves open
      fits into the second. */
  lemma TwoChunks(p: Phase, a: seq<byte>, b: seq<byte>)
    requires ValidPhase(p) && a != [] && b != [] && PaddingOpen(p) <= |a|
    requires CallOn(p, a).outcome == More
    ensures Calls(p, [a, b]) == CallOn(p, a + b) <==> PaddingOpen(CallOn(p, a).phase) <= |b|
  {
    FeedSplit(p, a, b);
    var f := FeedBytes(p, a);
    var c := CallOn(f.phase, b);
    assert [a, b][1..] == [b];
    CallsOnOne(f.phase, b);
    assert Calls(p, [a, b]) == c.(records := f.records + c.records);
    if PaddingOpen(f.phase) > |b| {
      FeedPartialBody(f.phase, b);
      assert CallOn(p, a + b).outcome == More;
      assert c.outcome != More;
    }
  }

  /** Any cutting into chunks gives the records, the final phase and the result of the whole. */
  lemma {:induction false} ChunksAreFeeding(p: Phase, chunks: seq<seq<byte>>)
    requires ValidPhase(p) && PaddingFits(p, chunks)
    ensures var f := FeedBytes(p, Joined(chunks));
            Calls(p, chunks) == Call(if f.finished then Finished else More, f.phase, f.records)
    decreases |chunks|
  {
    if chunks != [] {
      FeedSplit(p, chunks[0], Joined(chunks[1..]));
      var c := CallOn(p, chunks[0]);
      if c.outcome == More { ChunksAreFeeding(c.phase, chunks[1..]); }
    }
  }

  /** Two ways of cutting the same bytes cannot be told apart. */
  lemma ChunkingDoesNotMatter(p: Phase, chunks: seq<seq<byte>>, chunks': seq<seq<byte>>)
    requires ValidPhase(p) && PaddingFits(p, chunks) && PaddingFits(p, chunks')
    requires Joined(chunks) == Joined(chunks')
    ensures Calls(p, chunks) == Calls(p, chunks')
  {
    ChunksAreFeeding(p, chunks);
    ChunksAreFeeding(p, chunks');
  }

  /** The whole response, from the first byte on: rendered from the reference parser's records. */
  lemma ResponseRefinesRecords(status: StatusLine, chunks: seq<seq<byte>>)
    requires PaddingFits(FRESH, chunks)
    ensures var c := Calls(FRESH, chunks);
            var d := Deliverable(Joined(chunks));
            && Render(status, true, c.records) == Render(status, true, UpToTerminal(d))
            && (c.outcome == Finished <==> HasTerminal(d))
            && (c.outcome == More <==> !HasTerminal(d))
  {
    ChunksAreFeeding(FRESH, chunks);
    FeedRefinesRecords(Joined(chunks));
  }

  // ---- The text of a response -------------------------------------------------------------------------

  /** Successive calls with the text they produce, until one does not ask for more. */
  function ViewCalls(status: StatusLine, v: View, chunks: seq<seq<byte>>): (Outcome, View)
    requires ValidPhase(v.phase)
    decreases |chunks|
  {
    if chunks == [] then (More, v)
    else
      var (outcome, w) := CallView(status, v, chunks[0]);
      if outcome != More then (outcome, w) else ViewCalls(status, w, chunks[1..])
  }

  lemma {:induction false} ViewCallsAre(status: StatusLine, v: View, chunks: seq<seq<byte>>)
    requires ValidPhase(v.phase)
    ensures var c := Calls(v.phase, chunks); ViewCalls(status, v, chunks) == (c.outcome, AfterRecords(status, v, c.phase, c.records))
    decreases |chunks|
  {
    if chunks == [] {
      assert v.output + [] == v.output;
    } else {
      var c := CallOn(v.phase, chunks[0]);
      if c.outcome == More {
        var w := CallView(status, v, chunks[0]).1;
        var rest := Calls(c.phase, chunks[1..]);
        ViewCallsAre(status, w, chunks[1..]);
        RenderConcat(status, v.first, c.records, rest.records);
        assert v.output + Render(status, v.first, c.records) + Render(status, w.first, rest.records) ==
               v.output + (Render(status, v.first, c.records) + Render(status, w.first, rest.records));
      }
    }
  }

  /** However a response is cut, the text produced for it is the status text of its first record, the STDOUT
      contents in order up to the first END_REQUEST or STDERR record, and for STDERR the error response and its
      content; and the end is reported exactly if there is such a record. */
  lemma ResponseText(status: StatusLine, chunks: seq<seq<byte>>)
    requires PaddingFits(FRESH, chunks)
    ensures var d, r := Deliverable(Joined(chunks)), ViewCalls(status, View(FRESH, true, []), chunks);
            r.1.output == Meant(status, d) && r.0 == if FirstEnd(d) < |d| then Finished else More
  {
    var d := Deliverable(Joined(chunks));
    ViewCallsAre(status, View(FRESH, true, []), chunks);
    ResponseRefinesRecords(status, chunks);
    RenderIsMeant(status, d);
    EndIsTerminal(d);
    assert [] + Render(status, true, UpToTerminal(d)) == Render(status, true, UpToTerminal(d));
  }

  lemma EndIsTerminal(rs: seq<Record>)
    ensures HasTerminal(rs) <==> FirstEnd(rs) < |rs|
  {
    if FirstEnd(rs) < |rs| { assert Terminal(rs[FirstEnd(rs)]); }
  }

  /** A stream without padding can be cut anywhere. */
  lemma {:induction false} NoPaddingAlwaysFits(p: Phase, chunks: seq<seq<byte>>)
    requires ValidPhase(p) && PaddingOpen(p) == 0
    requires forall i :: 0 <= i < |FeedBytes(p, Joined(chunks)).records| ==> FeedBytes(p, Joined(chunks)).records[i].header.paddingLength == 0
    requires FeedBytes(p, Joined(chunks)).phase.InBody? ==> FeedBytes(p, Joined(chunks)).phase.header.paddingLength == 0
    ensures PaddingFits(p, chunks)
    decreases |chunks|
  {
    if chunks != [] {
      var rest := Joined(chunks[1..]);
      FeedSplit(p, chunks[0], rest);
      var f := FeedBytes(p, chunks[0]);
      if !f.finished {
        var g := FeedBytes(f.phase, rest);
        if f.phase.InBody? { OpenRecordComesOut(f.phase, rest); }
        forall i | 0 <= i < |g.records| ensures g.records[i].header.paddingLength == 0 {
          assert g.records[i] == (f.records + g.records)[|f.records| + i];
        }
        NoPaddingAlwaysFits(f.phase, chunks[1..]);
      }
    }
  }

  /** A record open now is either the first to be delivered or still open at the end. */
  lemma OpenRecordComesOut(p: Phase, bs: seq<byte>)
    requires ValidPhase(p) && p.InBody?
    ensures var f := FeedBytes(p, bs);
            (f.records != [] && f.records[0].header == p.header) || (f.records == [] && f.phase.InBody? && f.phase.header == p.header)
  {
    if bs != [] {
      if Remaining(p) <= |bs| { FeedWholeBody(p, bs); } else { FeedPartialBody(p, bs); }
    }
  }

  /** Every cut inside the padding of a record with content goes wrong when the second chunk is shorter
      than what is left: the call runs past the chunk, or ends the response before its last bytes. */
  lemma PaddingCutFails(r: Record, pad: seq<byte>, cut: seq<byte>)
    requires |r.content| == r.header.ContentLength() > 0 && |pad| + |cut| < r.header.paddingLength as nat && cut != []
    ensures var a := r.header.Bytes() + r.content + pad;
            CallOn(FRESH, a).outcome == More &&
            CallOn(CallOn(FRESH, a).phase, cut) == Call(if Terminal(r) then Finished else Overrun, FRESH, [r])
  {
    var a := r.header.Bytes() + r.content + pad;
    FeedWholeHeader([], a);
    assert [] + a[..HEADER_LEN] == r.header.Bytes();
    assert HeaderOf(r.header.Bytes()) == r.header;
    var body := r.content + pad;
    assert a[HEADER_LEN..] == body;
    FeedPartialBody(InBody(r.header, [], 0), body);
    if pad == [] { assert [] + body == r.content; } else { assert [] + body[..|r.content|] == r.content; }
  }

  // ---- interceptTransferData ----------------------------------------------------------------------------

  /** The transfer loop feeds every block that holds something and keeps only the last call's answer. `blocks`
      lists those blocks. */
  function Transfer(p: Phase, blocks: seq<seq<byte>>, status: bool): (bool, Phase, seq<Record>)
    requires ValidPhase(p) && Uncut(p, blocks)
    decreases |blocks|
  {
    if blocks == [] then (status, p, [])
    else
      var c := CallOn(p, blocks[0]);
      var rest := Transfer(c.phase, blocks[1..], c.outcome == Finished);
      (rest.0, rest.1, c.records + rest.2)
  }

  /** No block, not even one behind a terminal record, is shorter than the padding open when it arrives. */
  predicate Uncut(p: Phase, blocks: seq<seq<byte>>)
    requires ValidPhase(p)
    decreases |blocks|
  {
    blocks == [] || (blocks[0] != [] && PaddingOpen(p) <= |blocks[0]| && Uncut(CallOn(p, blocks[0]).phase, blocks[1..]))
  }

  /** Is some block before the last one answered with Finished? */
  predicate FinishesEarly(p: Phase, blocks: seq<seq<byte>>)
    requires ValidPhase(p)
    decreases |blocks|
  {
    |blocks| > 1 && (CallOn(p, blocks[0]).outcome == Finished || FinishesEarly(CallOn(p, blocks[0]).phase, blocks[1..]))
  }

  /** What the last of the blocks is answered with. */
  function LastOutcome(p: Phase, blocks: seq<seq<byte>>): Outcome
    requires ValidPhase(p) && blocks != []
    decreases |blocks|
  {
    var c := CallOn(p, blocks[0]);
    if |blocks| == 1 then c.outcome else LastOutcome(c.phase, blocks[1..])
  }

  /** The blocks behind the first one answered with Finished. */
  function BlocksBehind(p: Phase, blocks: seq<seq<byte>>): seq<seq<byte>>
    requires ValidPhase(p)
    decreases |blocks|
  {
    if blocks == [] then []
    else
      var c := CallOn(p, blocks[0]);
      if c.outcome == Finished then blocks[1..] else BlocksBehind(c.phase, blocks[1..])
  }

  lemma {:induction false} TransferReports(p: Phase, blocks: seq<seq<byte>>, status: bool)
    requires ValidPhase(p) && Uncut(p, blocks) && blocks != []
    ensures Transfer(p, blocks, status).0 == (LastOutcome(p, blocks) == Finished)
    decreases |blocks|
  {
    var c := CallOn(p, blocks[0]);
    if |blocks| > 1 { TransferReports(c.phase, blocks[1..], c.outcome == Finished); }
  }

  /** The joined blocks end the response exactly if some block does. */
  lemma {:induction false} JoinedFinishes(p: Phase, blocks: seq<seq<byte>>)
    requires ValidPhase(p) && Uncut(p, blocks) && blocks != []
    ensures FeedBytes(p, Joined(blocks)).finished <==> FinishesEarly(p, blocks) || LastOutcome(p, blocks) == Finished
    decreases |blocks|
  {
    FeedSplit(p, blocks[0], Joined(blocks[1..]));
    var c := CallOn(p, blocks[0]);
    if |blocks| == 1 {
      assert Joined(blocks) == blocks[0] by { assert blocks[1..] == []; }
    } else if c.outcome != Finished {
      JoinedFinishes(c.phase, blocks[1..]);
    }
  }

  /** The loop reports what the joined blocks say exactly if the end of the response, should it come before
      the last block, comes again with the last. */
  lemma TransferIsFeeding(p: Phase, blocks: seq<seq<byte>>)
    requires ValidPhase(p) && Uncut(p, blocks) && blocks != []
    ensures Transfer(p, blocks, false).0 == FeedBytes(p, Joined(blocks)).finished <==>
            (FinishesEarly(p, blocks) ==> LastOutcome(p, blocks) == Finished)
  {
    TransferReports(p, blocks, false);
    JoinedFinishes(p, blocks);
  }

  /** The loop hands on the records of the response, and then those it finds behind its end, where the decoder
      starts over. */
  lemma {:induction false} TransferHandsOn(p: Phase, blocks: seq<seq<byte>>, status: bool)
    requires ValidPhase(p) && Uncut(p, blocks)
    ensures var behind, f := BlocksBehind(p, blocks), FeedBytes(p, Joined(blocks));
            && Uncut(FRESH, behind)
            && Transfer(p, blocks, status).2 == f.records + Transfer(FRESH, behind, true).2
            && Transfer(p, blocks, status).1 == if behind == [] then f.phase else Transfer(FRESH, behind, true).1
    decreases |blocks|
  {
    if blocks != [] {
      FeedSplit(p, blocks[0], Joined(blocks[1..]));
      var c := CallOn(p, blocks[0]);
      if c.outcome == Finished {
        FinishedIsFresh(p, blocks[0]);
        TransferStatus(FRESH, blocks[1..], true, true);
      } else {
        TransferHandsOn(c.phase, blocks[1..], false);
        var g := FeedBytes(c.phase, Joined(blocks[1..]));
        assert c.records + (g.records + Transfer(FRESH, BlocksBehind(p, blocks), true).2) == (c.records + g.records) + Transfer(FRESH, BlocksBehind(p, blocks), true).2;
      }
    }
  }

  lemma {:induction false} TransferStatus(p: Phase, blocks: seq<seq<byte>>, status: bool, other: bool)
    requires ValidPhase(p) && Uncut(p, blocks)
    ensures Transfer(p, blocks, status).1 == Transfer(p, blocks, other).1 && Transfer(p, blocks, status).2 == Transfer(p, blocks, other).2
  {
  }

  /** So the client is sent the text of the response and, behind it, that of all records that follow its end;
      the two texts are the same exactly if those records have none. */
  lemma TransferRenders(status: StatusLine, first: bool, p: Phase, blocks: seq<seq<byte>>)
    requires ValidPhase(p) && Uncut(p, blocks)
    ensures var f, behind := FeedBytes(p, Joined(blocks)), BlocksBehind(p, blocks);
            Uncut(FRESH, behind) &&
            var more := Render(status, first && f.records == [], Transfer(FRESH, behind, true).2);
            Render(status, first, Transfer(p, blocks, false).2) == Render(status, first, f.records) + more &&
            (Render(status, first, Transfer(p, blocks, false).2) == Render(status, first, f.records) <==> more == [])
  {
    TransferHandsOn(p, blocks, false);
    var f, behind := FeedBytes(p, Joined(blocks)), BlocksBehind(p, blocks);
    var rest := Transfer(FRESH, behind, true).2;
    RenderConcat(status, first, f.records, rest);
    SameLength(Render(status, first, f.records), Render(status, first && f.records == [], rest));
  }

  lemma SameLength(a: seq<byte>, b: seq<byte>)
    ensures a + b == a <==> b == []
  {
    if b == [] { assert a + b == a; } else { assert |a + b| != |a|; }
  }

  /** In particular the end is lost whenever a block behind it holds less than a header. */
  lemma TransferLosesTheEnd(p: Phase, a: seq<byte>, b: seq<byte>)
    requires ValidPhase(p) && Uncut(p, [a, b]) && FeedBytes(p, a).finished && 0 < |b| < HEADER_LEN
    ensures FeedBytes(p, Joined([a, b])).finished && !Transfer(p, [a, b], false).0
  {
    assert [a, b][1..] == [b] && [b][1..] == [];
    JoinedFinishes(p, [a, b]);
    TransferReports(p, [a, b], false);
    FinishedIsFresh(p, a);
    FeedPartialHeader([], b);
  }

  /** After a terminal record the decoder starts over. */
  lemma {:induction false} FinishedIsFresh(p: Phase, bs: seq<byte>)
    requires ValidPhase(p) && FeedBytes(p, bs).finished
    ensures FeedBytes(p, bs).phase == FRESH
    decreases |bs|, if p.InBody? then 1 else 0
  {
    if p.InHeader? {
      if |p.got| + |bs| < HEADER_LEN { FeedPartialHeader(p.got, bs); } else {
        FeedWholeHeader(p.got, bs);
        var n := HEADER_LEN - |p.got|;
        FinishedIsFresh(InBody(HeaderOf(p.got + bs[..n]), [], 0), bs[n..]);
      }
    } else if Remaining(p) > |bs| {
      FeedPartialBody(p, bs);
    } else {
      FeedWholeBody(p, bs);
      var n := p.header.ContentLength() - |p.content|;
      if !Terminal(Record(p.header, p.content + bs[..n])) { FinishedIsFresh(FRESH, bs[Remaining(p)..]); }
    }
  }
}
