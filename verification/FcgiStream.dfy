/** The response stream as a byte-driven machine: what the incremental decoder of ats_fcgi_client.cc has
    understood after any number of bytes, independently of how the bytes were cut into chunks. */
module FcgiStream {
  import opened FcgiProtocol

  /** Where the decoder stands between two bytes. `content` and `skipped` are the content and padding
      bytes of the current record that have already arrived. */
  datatype Phase =
    | InHeader(got: seq<byte>)
    | InBody(header: Header, content: seq<byte>, skipped: nat)

  const FRESH := InHeader([])

  ghost predicate ValidPhase(p: Phase) {
    match p
    case InHeader(got) => |got| < HEADER_LEN
    case InBody(h, content, skipped) =>
      && |content| <= h.ContentLength()
      && skipped <= h.paddingLength as nat
      && (skipped > 0 ==> |content| == h.ContentLength())
      && (h.BodyLength() > 0 ==> |content| + skipped < h.BodyLength())
  }

  /** Records after which the client stops reading: END_REQUEST, and STDERR once reported. */
  predicate Terminal(r: Record) {
    r.header.kind == END_REQUEST || r.header.kind == STDERR
  }

  /** What feeding some bytes did: the records completed, the phase reached, and whether a terminal
      record ended the reading (the bytes behind it are then ignored). */
  datatype Progress = Progress(phase: Phase, records: seq<Record>, finished: bool)

  function Remaining(p: Phase): nat
    requires ValidPhase(p) && p.InBody?
  {
    p.header.BodyLength() - |p.content| - p.skipped
  }

  function Prepend(rs: seq<Record>, f: Progress): Progress {
    f.(records := rs + f.records)
  }

  /** Hands over a complete record and goes on with `rest`. */
  function Deliver(r: Record, rest: seq<byte>): Progress
    decreases |rest|, 1
  {
    if Terminal(r) then Progress(FRESH, [r], true) else Prepend([r], FeedBytes(FRESH, rest))
  }

  function FeedBytes(p: Phase, bs: seq<byte>): (f: Progress)
    requires ValidPhase(p)
    ensures ValidPhase(f.phase)
    decreases |bs|, if p.InBody? then 2 else 0
  {
    if bs == [] then Progress(p, [], false)
    else match p
      case InHeader(got) =>
        var got' := got + [bs[0]];
        if |got'| == HEADER_LEN then FeedBytes(InBody(HeaderOf(got'), [], 0), bs[1..])
        else FeedBytes(InHeader(got'), bs[1..])
      case InBody(h, content, skipped) =>
        if h.BodyLength() == 0 then Deliver(Record(h, content), bs)
        else
          var p' := Absorb(p, bs[0]);
          if |p'.content| + p'.skipped == h.BodyLength() then Deliver(Record(h, p'.content), bs[1..])
          else FeedBytes(p', bs[1..])
  }

  /** One more byte of a body: content first, then padding. */
  function Absorb(p: Phase, b: byte): (p': Phase)
    requires p.InBody?
    ensures p'.InBody? && p'.header == p.header
  {
    if |p.content| < p.header.ContentLength() then p.(content := p.content + [b]) else p.(skipped := p.skipped + 1)
  }

  // ---- Feeding in bulk ------------------------------------------------------------------------------

  /** Bytes that do not complete the header only extend it. */
  lemma {:induction false} FeedPartialHeader(got: seq<byte>, bs: seq<byte>)
    requires |got| + |bs| < HEADER_LEN
    ensures FeedBytes(InHeader(got), bs) == Progress(InHeader(got + bs), [], false)
    decreases |bs|
  {
    if bs == [] {
      assert got + bs == got;
    } else {
      FeedPartialHeader(got + [bs[0]], bs[1..]);
      assert got + [bs[0]] + bs[1..] == got + bs;
    }
  }

  /** The header's last byte opens the body. */
  lemma {:induction false} FeedWholeHeader(got: seq<byte>, bs: seq<byte>)
    requires |got| < HEADER_LEN <= |got| + |bs|
    ensures var n := HEADER_LEN - |got|;
            FeedBytes(InHeader(got), bs) == FeedBytes(InBody(HeaderOf(got + bs[..n]), [], 0), bs[n..])
    decreases |bs|
  {
    var n := HEADER_LEN - |got|;
    if n == 1 {
      assert bs[..1] == [bs[0]];
    } else {
      FeedWholeHeader(got + [bs[0]], bs[1..]);
      assert got + [bs[0]] + bs[1..][..n - 1] == got + bs[..n];
      assert bs[1..][n - 1..] == bs[n..];
    }
  }

  function Min(a: nat, b: nat): nat {
    if a <= b then a else b
  }

  /** Absorbing `bs` in one go. */
  function AbsorbAll(p: Phase, bs: seq<byte>): Phase
    requires ValidPhase(p) && p.InBody?
  {
    var n := p.header.ContentLength() - |p.content|;
    if |bs| <= n then p.(content := p.content + bs)
    else p.(content := p.content + bs[..n], skipped := p.skipped + (|bs| - n))
  }

  /** Bytes that do not complete the body are all absorbed. */
  lemma {:induction false} FeedPartialBody(p: Phase, bs: seq<byte>)
    requires ValidPhase(p) && p.InBody? && |bs| < Remaining(p)
    ensures FeedBytes(p, bs) == Progress(AbsorbAll(p, bs), [], false)
    decreases |bs|
  {
    if bs == [] {
      assert p.content + bs == p.content;
    } else {
      var p' := Absorb(p, bs[0]);
      FeedPartialBody(p', bs[1..]);
      AbsorbStep(p, bs);
    }
  }

  lemma AbsorbStep(p: Phase, bs: seq<byte>)
    requires ValidPhase(p) && p.InBody? && bs != [] && Remaining(p) > 1
    ensures ValidPhase(Absorb(p, bs[0]))
    ensures AbsorbAll(Absorb(p, bs[0]), bs[1..]) == AbsorbAll(p, bs)
  {
    var n := p.header.ContentLength() - |p.content|;
    if n > 0 {
      assert p.content + [bs[0]] + bs[1..] == p.content + bs;
      if |bs| > n {
        assert p.content + [bs[0]] + bs[1..][..n - 1] == p.content + bs[..n];
      }
    } else {
      assert p.content + bs[..n] == p.content;
      assert p.content + bs[1..][..n] == p.content;
      if |bs| == 1 { assert p.content + bs[1..] == p.content; }
    }
  }

  /** The body's last byte delivers the record. */
  lemma {:induction false} FeedWholeBody(p: Phase, bs: seq<byte>)
    requires ValidPhase(p) && p.InBody? && Remaining(p) <= |bs| && bs != []
    ensures var n := p.header.ContentLength() - |p.content|;
            FeedBytes(p, bs) == Deliver(Record(p.header, p.content + bs[..n]), bs[Remaining(p)..])
    decreases |bs|
  {
    var n := p.header.ContentLength() - |p.content|;
    var p' := Absorb(p, bs[0]);
    if Remaining(p) == 0 {
      assert p.content + bs[..n] == p.content;
    } else if Remaining(p) == 1 {
      if n == 1 { assert bs[..n] == [bs[0]]; } else { assert p.content + bs[..n] == p.content; }
    } else {
      FeedWholeBody(p', bs[1..]);
      assert bs[1..][Remaining(p')..] == bs[Remaining(p)..];
      if n > 0 { assert p.content + [bs[0]] + bs[1..][..n - 1] == p.content + bs[..n]; }
      else { assert p.content + bs[..n] == p.content == p'.content + bs[1..][..n]; }
    }
  }

  // ---- Splitting ------------------------------------------------------------------------------------

  /** Goes on with more bytes unless a terminal record already ended the reading. */
  function Resume(f: Progress, bs: seq<byte>): Progress
    requires ValidPhase(f.phase)
  {
    if f.finished then f else Prepend(f.records, FeedBytes(f.phase, bs))
  }

  /** Feeding is a fold: where the stream is cut does not matter. */
  lemma {:induction false} FeedSplit(p: Phase, a: seq<byte>, b: seq<byte>)
    requires ValidPhase(p)
    ensures FeedBytes(p, a + b) == Resume(FeedBytes(p, a), b)
    decreases |a|, if p.InBody? then 2 else 0
  {
    if a == [] {
      assert a + b == b;
      assert [] + FeedBytes(p, b).records == FeedBytes(p, b).records;
    } else {
      assert (a + b)[1..] == a[1..] + b;
      assert (a + b)[0] == a[0];
      match p
      case InHeader(got) =>
        var got' := got + [a[0]];
        if |got'| == HEADER_LEN { FeedSplit(InBody(HeaderOf(got'), [], 0), a[1..], b); }
        else { FeedSplit(InHeader(got'), a[1..], b); }
      case InBody(h, content, skipped) =>
        if h.BodyLength() == 0 { DeliverSplit(Record(h, content), a, b); }
        else {
          var p' := Absorb(p, a[0]);
          if |p'.content| + p'.skipped == h.BodyLength() { DeliverSplit(Record(h, p'.content), a[1..], b); }
          else { FeedSplit(p', a[1..], b); }
        }
    }
  }

  lemma {:induction false} DeliverSplit(r: Record, a: seq<byte>, b: seq<byte>)
    ensures ValidPhase(Deliver(r, a).phase)
    ensures Deliver(r, a + b) == Resume(Deliver(r, a), b)
    decreases |a|, 1
  {
    if !Terminal(r) {
      FeedSplit(FRESH, a, b);
      var f := FeedBytes(FRESH, a);
      if !f.finished {
        var g := FeedBytes(f.phase, b);
        assert [r] + (f.records + g.records) == ([r] + f.records) + g.records;
      }
    }
  }
}
