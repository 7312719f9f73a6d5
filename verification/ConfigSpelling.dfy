/** Every spelling of a JSON string is read as that string. What a spelling means is said here by the tables of
    section 7 of RFC 8259 and section 3 of RFC 3629 and shares nothing with the parser. */
module ConfigSpelling {
  import opened ConfigText
  import opened ConfigUtf8
  import opened ConfigGrammar

  // ---- Spellings ------------------------------------------------------------------------------------------

  type Nibble = n: nat | n < 16

  /** A hexadecimal digit in either case. */
  datatype Hex = Hex(value: Nibble, upper: bool)
  {
    function Char(): char {
      if upper then "0123456789ABCDEF"[value] else "0123456789abcdef"[value]
    }
  }

  /** The sixteen bits that four digits write. */
  datatype Quad = Quad(a: Hex, b: Hex, c: Hex, d: Hex)
  {
    function Text(): (s: string)
      ensures |s| == 4
    {
      [a.Char(), b.Char(), c.Char(), d.Char()]
    }

    function Value(): nat {
      4096 * a.value + 256 * b.value + 16 * c.value + d.value
    }
  }

  /** One character of a string as it can be spelled: as it is, as a backslash and one more character, or as one or
      two escapes of sixteen bits. */
  datatype Piece =
    | Plain(c: char)
    | Short(c: char)
    | Unit(u: Quad)
    | Pair(high: Quad, low: Quad)

  /** Section 7 of RFC 8259, except that a character above 0x1F is all a string asks for: the parser stops at NUL and at
      newlines, and at tabs if the options say so. */
  predicate Allowed(o: Options, p: Piece) {
    match p
    case Plain(c) => c != '"' && c != '\\' && c != '\0' && c != '\n' && (c != '\t' || o.strAllowTab)
    case Short(c) => c in {'"', '\\', '/', 'b', 'f', 'n', 'r', 't'}
    case Unit(u) => !(0xD800 <= u.Value() <= 0xDBFF)
    case Pair(high, low) => 0xD800 <= high.Value() <= 0xDBFF && 0xDC00 <= low.Value() <= 0xDFFF
  }

  function PieceText(p: Piece): (s: string)
  {
    match p
    case Plain(c) => [c]
    case Short(c) => ['\\', c]
    case Unit(u) => "\\u" + u.Text()
    case Pair(high, low) => "\\u" + high.Text() + "\\u" + low.Text()
  }

  /** Is this the UTF-8 form of `u`? Beyond 0x10FFFF there are none in RFC 3629; the longer ones are those of RFC 2279. */
  predicate IsUtf8(s: string, u: nat) {
    if u < 0x80 then |s| == 1 && s[0] as int == u
    else if u < 0x800 then
      |s| == 2 && 0xC0 <= s[0] as int < 0xE0 && 0x80 <= s[1] as int < 0xC0 &&
      (s[0] as int - 0xC0) * 64 + (s[1] as int - 0x80) == u
    else if u < 0x1_0000 then
      |s| == 3 && 0xE0 <= s[0] as int < 0xF0 && 0x80 <= s[1] as int < 0xC0 && 0x80 <= s[2] as int < 0xC0 &&
      (s[0] as int - 0xE0) * 4096 + (s[1] as int - 0x80) * 64 + (s[2] as int - 0x80) == u
    else if u < 0x20_0000 then
      |s| == 4 && 0xF0 <= s[0] as int < 0xF8 && 0x80 <= s[1] as int < 0xC0 && 0x80 <= s[2] as int < 0xC0 && 0x80 <= s[3] as int < 0xC0 &&
      (s[0] as int - 0xF0) * 262144 + (s[1] as int - 0x80) * 4096 + (s[2] as int - 0x80) * 64 + (s[3] as int - 0x80) == u
    else if u < 0x400_0000 then
      |s| == 5 && 0xF8 <= s[0] as int < 0xFC && 0x80 <= s[1] as int < 0xC0 && 0x80 <= s[2] as int < 0xC0 && 0x80 <= s[3] as int < 0xC0 &&
      0x80 <= s[4] as int < 0xC0 &&
      (s[0] as int - 0xF8) * 16777216 + (s[1] as int - 0x80) * 262144 + (s[2] as int - 0x80) * 4096 + (s[3] as int - 0x80) * 64 + (s[4] as int - 0x80) == u
    else
      |s| == 6 && 0xFC <= s[0] as int < 0xFE && 0x80 <= s[1] as int < 0xC0 && 0x80 <= s[2] as int < 0xC0 && 0x80 <= s[3] as int < 0xC0 &&
      0x80 <= s[4] as int < 0xC0 && 0x80 <= s[5] as int < 0xC0 &&
      (s[0] as int - 0xFC) * 1073741824 + (s[1] as int - 0x80) * 16777216 + (s[2] as int - 0x80) * 262144 + (s[3] as int - 0x80) * 4096 +
      (s[4] as int - 0x80) * 64 + (s[5] as int - 0x80) == u
  }

  /** The bytes that a piece of a string stands for. */
  predicate Stands(p: Piece, bytes: string) {
    match p
    case Plain(c) => bytes == [c]
    case Short(c) =>
      && (c == '"' ==> bytes == ['"']) && (c == '\\' ==> bytes == ['\\']) && (c == '/' ==> bytes == ['/'])
      && (c == 'b' ==> bytes == [8 as char]) && (c == 'f' ==> bytes == [12 as char])
      && (c == 'n' ==> bytes == [10 as char]) && (c == 'r' ==> bytes == [13 as char]) && (c == 't' ==> bytes == [9 as char])
    case Unit(u) => IsUtf8(bytes, u.Value())
    case Pair(high, low) =>
      high.Value() >= 0xD800 && low.Value() >= 0xDC00 &&
      IsUtf8(bytes, 0x1_0000 + (high.Value() - 0xD800) * 1024 + (low.Value() - 0xDC00))
  }

  predicate AllAllowed(o: Options, ps: seq<Piece>) {
    forall i :: 0 <= i < |ps| ==> Allowed(o, ps[i])
  }

  function Text(ps: seq<Piece>): string {
    if ps == [] then [] else PieceText(ps[0]) + Text(ps[1..])
  }

  /** `x` is what the pieces stand for, one after the other. */
  predicate Spells(ps: seq<Piece>, x: string)
    decreases |ps|
  {
    if ps == [] then x == [] else exists k :: 0 <= k <= |x| && Stands(ps[0], x[..k]) && Spells(ps[1..], x[k..])
  }

  // ---- Digits and bytes -----------------------------------------------------------------------------------

  lemma HexIs(h: Hex)
    ensures HexDigit(h.Char()) == h.value
  {
    var lower, upper := "0123456789abcdef", "0123456789ABCDEF";
    if h.value < 10 {
      assert lower[h.value] as int == '0' as int + h.value && upper[h.value] as int == '0' as int + h.value;
    } else {
      assert lower[h.value] as int == 'a' as int + h.value - 10 && upper[h.value] as int == 'A' as int + h.value - 10;
    }
  }

  lemma FourDigits(q: Quad, tail: string, more: nat, acc: nat)
    ensures HexValue(q.Text() + tail, 4 + more, acc) == HexValue(tail, more, acc * 65536 + q.Value())
  {
    var a, b, c, d := q.a.Char(), q.b.Char(), q.c.Char(), q.d.Char();
    HexIs(q.a);
    HexIs(q.b);
    HexIs(q.c);
    HexIs(q.d);
    var t0, t1, t2, t3 := [a, b, c, d] + tail, [b, c, d] + tail, [c, d] + tail, [d] + tail;
    assert t0[1..] == t1 && t1[1..] == t2 && t2[1..] == t3 && t3[1..] == tail;
    hide Hex.Char, HexDigit;
    assert HexValue(t0, 4 + more, acc) == HexValue(t1, 3 + more, acc * 16 + q.a.value);
    assert HexValue(t1, 3 + more, acc * 16 + q.a.value) == HexValue(t2, 2 + more, (acc * 16 + q.a.value) * 16 + q.b.value);
    assert HexValue(t2, 2 + more, (acc * 16 + q.a.value) * 16 + q.b.value) == HexValue(t3, 1 + more, ((acc * 16 + q.a.value) * 16 + q.b.value) * 16 + q.c.value);
  }

  lemma NoDigits(tail: string, n: nat)
    ensures HexValue(tail, 0, n) == n
  {
  }

  lemma QuadIs(q: Quad, tail: string)
    ensures ParseHex(q.Text() + tail, 4) == Ok(q.Value(), tail)
  {
    hide HexValue, Quad.Text, Quad.Value;
    FourDigits(q, tail, 0, 0);
    NoDigits(tail, q.Value());
    assert (q.Text() + tail)[4..] == tail;
  }

  lemma ByteIs(n: nat)
    requires n < 256
    ensures Byte(n) as int == n
  {
  }

  lemma Six(u: nat)
    ensures u == 64 * (u / 64) + u % 64 && u / 64 == 64 * (u / 4096) + u / 64 % 64 && u / 4096 == 64 * (u / 262144) + u / 4096 % 64
    ensures u / 262144 == 64 * (u / 16777216) + u / 262144 % 64 && u / 16777216 == 64 * (u / 1073741824) + u / 16777216 % 64
  {
    var a, b, c, d := u / 64, u / 4096, u / 262144, u / 16777216;
    assert a / 64 == b;
    assert b / 64 == c;
    assert c / 64 == d;
    assert d / 64 == u / 1073741824;
  }

  lemma OneByteIs(u: nat)
    requires u < 0x80
    ensures IsUtf8([Byte(u)], u)
  {
  }

  lemma TwoBytesAre(u: nat)
    requires 0x80 <= u < 0x800
    ensures IsUtf8([Byte(0xC0 + u / 0x40), Byte(0x80 + u % 0x40)], u)
  {
    hide Byte;
    ByteIs(0xC0 + u / 0x40);
    ByteIs(0x80 + u % 0x40);
  }

  lemma ThreeBytesAre(u: nat)
    requires 0x800 <= u < 0x1_0000
    ensures IsUtf8([Byte(0xE0 + u / 0x1000), Byte(0x80 + u / 0x40 % 0x40), Byte(0x80 + u % 0x40)], u)
  {
    hide Byte;
    Six(u);
    ByteIs(0xE0 + u / 0x1000);
    ByteIs(0x80 + u / 0x40 % 0x40);
    ByteIs(0x80 + u % 0x40);
  }

  lemma FourBytesAre(u: nat)
    requires 0x1_0000 <= u < 0x20_0000
    ensures IsUtf8([Byte(0xF0 + u / 0x4_0000), Byte(0x80 + u / 0x1000 % 0x40), Byte(0x80 + u / 0x40 % 0x40), Byte(0x80 + u % 0x40)], u)
  {
    hide Byte;
    Six(u);
    ByteIs(0xF0 + u / 0x4_0000);
    ByteIs(0x80 + u / 0x1000 % 0x40);
    ByteIs(0x80 + u / 0x40 % 0x40);
    ByteIs(0x80 + u % 0x40);
  }

  /** The second byte of the five-byte form: right exactly if bit 24 is not set. */
  lemma SecondOfFive(n: nat)
    requires n < 256
    ensures Continue(n) < 256 && (0x80 <= Continue(n) < 0xC0 <==> n / 64 % 2 == 0) && (n / 64 % 2 == 0 ==> Continue(n) == 0x80 + n % 64)
  {
  }

  lemma FiveBytesAre(u: nat)
    requires 0x20_0000 <= u < 0x400_0000
    ensures IsUtf8([Byte(0xF8 + u / 0x100_0000), Byte(Continue(u / 0x4_0000)), Byte(0x80 + u / 0x1000 % 0x40), Byte(0x80 + u / 0x40 % 0x40), Byte(0x80 + u % 0x40)], u)
            <==> u / 0x100_0000 % 2 == 0
  {
    hide Byte, Continue;
    Six(u);
    SecondOfFive(u / 0x4_0000);
    ByteIs(0xF8 + u / 0x100_0000);
    ByteIs(Continue(u / 0x4_0000));
    ByteIs(0x80 + u / 0x1000 % 0x40);
    ByteIs(0x80 + u / 0x40 % 0x40);
    ByteIs(0x80 + u % 0x40);
    assert u / 0x4_0000 / 64 == u / 0x100_0000;
  }

  lemma SixBytesAre(u: nat)
    requires 0x400_0000 <= u < 0x8000_0000
    ensures IsUtf8([Byte(0xFC + u / 0x4000_0000), Byte(0x80 + u / 0x100_0000 % 0x40), Byte(0x80 + u / 0x4_0000 % 0x40), Byte(0x80 + u / 0x1000 % 0x40),
                    Byte(0x80 + u / 0x40 % 0x40), Byte(0x80 + u % 0x40)], u)
  {
    hide Byte;
    Six(u);
    ByteIs(0xFC + u / 0x4000_0000);
    ByteIs(0x80 + u / 0x100_0000 % 0x40);
    ByteIs(0x80 + u / 0x4_0000 % 0x40);
    ByteIs(0x80 + u / 0x1000 % 0x40);
    ByteIs(0x80 + u / 0x40 % 0x40);
    ByteIs(0x80 + u % 0x40);
  }

  /** The encoder's bytes are the UTF-8 form, exactly unless it takes five bytes and bit 24 is set. */
  lemma EncodedIsUtf8(u: nat)
    requires u < 0x8000_0000
    ensures IsUtf8(EncodeUtf8(u), u) <==> !(0x20_0000 <= u < 0x400_0000 && u / 0x100_0000 % 2 == 1)
    ensures EncodeUtf8(u) != ""
  {
    hide IsUtf8, Byte, Continue;
    if u < 0x80 { OneByteIs(u); }
    else if u < 0x800 { TwoBytesAre(u); }
    else if u < 0x1_0000 { ThreeBytesAre(u); }
    else if u < 0x20_0000 { FourBytesAre(u); }
    else if u < 0x400_0000 { FiveBytesAre(u); }
    else { SixBytesAre(u); }
  }

  lemma LastDigit(x: int, d: int, y: int, e: int)
    requires 64 * x + d == 64 * y + e && 0 <= d < 64 && 0 <= e < 64
    ensures x == y && d == e
  {
  }

  /** A code point has one UTF-8 form. */
  lemma OneForm(s: string, t: string, u: nat)
    requires IsUtf8(s, u) && IsUtf8(t, u) && u < 0x20_0000
    ensures s == t
  {
    var a, b := seq(|s|, i requires 0 <= i < |s| => s[i] as int), seq(|t|, i requires 0 <= i < |t| => t[i] as int);
    if 0x80 <= u < 0x800 {
      LastDigit(a[0], a[1] - 0x80, b[0], b[1] - 0x80);
    } else if 0x800 <= u < 0x1_0000 {
      LastDigit(64 * a[0] + (a[1] - 0x80), a[2] - 0x80, 64 * b[0] + (b[1] - 0x80), b[2] - 0x80);
      LastDigit(a[0], a[1] - 0x80, b[0], b[1] - 0x80);
    } else if 0x1_0000 <= u {
      LastDigit(4096 * a[0] + 64 * (a[1] - 0x80) + (a[2] - 0x80), a[3] - 0x80, 4096 * b[0] + 64 * (b[1] - 0x80) + (b[2] - 0x80), b[3] - 0x80);
      LastDigit(64 * a[0] + (a[1] - 0x80), a[2] - 0x80, 64 * b[0] + (b[1] - 0x80), b[2] - 0x80);
      LastDigit(a[0], a[1] - 0x80, b[0], b[1] - 0x80);
    }
    assert forall i :: 0 <= i < |s| ==> a[i] == b[i];
  }

  // ---- What the parser makes of one piece -----------------------------------------------------------------

  /** A piece stands for one string of bytes. */
  lemma OneMeaning(o: Options, p: Piece, s: string, t: string)
    requires Allowed(o, p) && Stands(p, s) && Stands(p, t)
    ensures s == t
  {
    hide IsUtf8;
    match p
    case Unit(u) => OneForm(s, t, u.Value());
    case Pair(high, low) => OneForm(s, t, 0x1_0000 + (high.Value() - 0xD800) * 1024 + (low.Value() - 0xDC00));
    case _ =>
  }

  lemma ShortReads(o: Options, c: char, tail: string)
    requires c in {'"', '\\', '/', 'b', 'f', 'n', 'r', 't'}
    ensures var r := ParseEscape(o, [c] + tail); r.Ok? && r.rest == tail && Stands(Short(c), r.value)
  {
    hide ParseHex, EncodeUtf8;
    assert ([c] + tail)[1..] == tail;
  }

  lemma UnitEscape(o: Options, u: Quad, tail: string)
    requires Allowed(o, Unit(u))
    ensures var r := ParseEscape(o, "u" + u.Text() + tail); r.Ok? && r.rest == tail && Stands(Unit(u), r.value)
  {
    hide ParseHex, EncodeUtf8, IsUtf8;
    var s := "u" + u.Text() + tail;
    QuadIs(u, tail);
    EncodedIsUtf8(u.Value());
    assert s[1..] == u.Text() + tail;
  }

  lemma PairEscape(o: Options, high: Quad, low: Quad, tail: string)
    requires Allowed(o, Pair(high, low))
    ensures var r := ParseEscape(o, "u" + high.Text() + "\\u" + low.Text() + tail); r.Ok? && r.rest == tail && Stands(Pair(high, low), r.value)
  {
    hide ParseHex, EncodeUtf8, IsUtf8;
    var rest := "\\u" + low.Text() + tail;
    var s := "u" + high.Text() + "\\u" + low.Text() + tail;
    assert s[1..] == high.Text() + rest;
    QuadIs(high, rest);
    QuadIs(low, tail);
    assert rest[2..] == low.Text() + tail && rest[0] == '\\' && rest[1] == 'u';
    EncodedIsUtf8(0x1_0000 + (high.Value() - 0xD800) * 1024 + (low.Value() - 0xDC00));
  }

  /** Where the options have it, `U` and eight digits stand for any number of 31 bits, and larger ones are refused
      behind the digits. */
  lemma LongEscape(o: Options, high: Quad, low: Quad, tail: string)
    requires o.str32bitUnicode
    ensures var u := high.Value() * 65536 + low.Value();
            ParseEscape(o, "U" + high.Text() + low.Text() + tail) == if u < 0x8000_0000 then Ok(EncodeUtf8(u), tail) else Err(tail)
  {
    hide ParseHex, EncodeUtf8;
    var u := high.Value() * 65536 + low.Value();
    EightDigits(high, low, tail);
    NoBytes(u);
    assert ("U" + high.Text() + low.Text() + tail)[1..] == high.Text() + (low.Text() + tail);
  }

  lemma NoBytes(u: nat)
    ensures EncodeUtf8(u) == "" <==> u >= 0x8000_0000
  {
    hide Byte;
  }

  lemma EightDigits(high: Quad, low: Quad, tail: string)
    ensures ParseHex(high.Text() + (low.Text() + tail), 8) == Ok(high.Value() * 65536 + low.Value(), tail)
  {
    hide HexValue, Quad.Text, Quad.Value;
    var digits, u := high.Text() + (low.Text() + tail), high.Value() * 65536 + low.Value();
    assert digits[8..] == tail;
    FourDigits(high, low.Text() + tail, 4, 0);
    FourDigits(low, tail, 0, high.Value());
    NoDigits(tail, u);
  }

  /** Behind a backslash everything but the tabled characters, `u`, and `U` where the options have it, is an error
      there. */
  lemma OtherEscapesFail(o: Options, s: string)
    requires Peek(s, 0) !in {'"', '\\', '/', 'b', 'f', 'n', 'r', 't', 'u', 'U'} || (Peek(s, 0) == 'U' && !o.str32bitUnicode)
    ensures ParseEscape(o, s) == Err(s)
  {
    hide ParseHex, EncodeUtf8;
  }

  // ---- Whole strings --------------------------------------------------------------------------------------

  lemma BehindBackslash(o: Options, s: string, start: string, acc: string)
    requires Peek(s, 0) == '\\'
    ensures var r := ParseEscape(o, s[1..]);
            ParseChars(o, s, start, acc) == if r.Ok? then ParseChars(o, r.rest, start, acc + r.value) else Err(r.at)
  {
    hide ParseEscape;
  }

  lemma EscapeReads(o: Options, p: Piece, tail: string)
    requires Allowed(o, p) && !p.Plain?
    ensures var r := ParseEscape(o, PieceText(p)[1..] + tail); r.Ok? && r.rest == tail && Stands(p, r.value)
  {
    hide ParseEscape, Stands;
    match p
    case Short(c) => assert PieceText(p)[1..] == [c]; ShortReads(o, c, tail);
    case Unit(u) => assert PieceText(p)[1..] == "u" + u.Text(); UnitEscape(o, u, tail);
    case Pair(high, low) => assert PieceText(p)[1..] == "u" + high.Text() + "\\u" + low.Text(); PairEscape(o, high, low, tail);
  }

  lemma PieceReads(o: Options, p: Piece, tail: string, start: string, acc: string) returns (x: string)
    requires Allowed(o, p)
    ensures Stands(p, x) && ParseChars(o, PieceText(p) + tail, start, acc) == ParseChars(o, tail, start, acc + x)
  {
    var s := PieceText(p) + tail;
    if p.Plain? {
      x := [p.c];
      assert s[1..] == tail;
    } else {
      hide ParseChars, ParseEscape, Stands;
      assert s[0] == PieceText(p)[0] == '\\' && s[1..] == PieceText(p)[1..] + tail;
      hide PieceText;
      BehindBackslash(o, s, start, acc);
      EscapeReads(o, p, tail);
      x := ParseEscape(o, s[1..]).value;
    }
  }

  lemma SpellsMore(p: Piece, ps: seq<Piece>, a: string, b: string)
    requires Stands(p, a) && Spells(ps, b)
    ensures Spells([p] + ps, a + b)
  {
    hide Stands;
    var all, x := [p] + ps, a + b;
    assert all[1..] == ps && x[..|a|] == a && x[|a|..] == b;
  }

  /** However far a string is spelled, the parser has read what is spelled, and goes on with the rest. */
  lemma {:induction false} PiecesRead(o: Options, ps: seq<Piece>, tail: string, start: string, acc: string) returns (x: string)
    requires AllAllowed(o, ps)
    ensures Spells(ps, x) && ParseChars(o, Text(ps) + tail, start, acc) == ParseChars(o, tail, start, acc + x)
    decreases |ps|
  {
    hide ParseChars, Stands, Allowed, PieceText;
    if ps == [] {
      x := "";
      assert Text(ps) + tail == tail && acc + x == acc;
    } else {
      var rest := Text(ps[1..]) + tail;
      assert Text(ps) + tail == PieceText(ps[0]) + rest;
      var a := PieceReads(o, ps[0], rest, start, acc);
      var b := PiecesRead(o, ps[1..], tail, start, acc + a);
      SpellsMore(ps[0], ps[1..], a, b);
      assert [ps[0]] + ps[1..] == ps;
      x := a + b;
      assert acc + a + b == acc + x;
    }
  }

  lemma {:induction false} OneReading(o: Options, ps: seq<Piece>, x: string, y: string)
    requires AllAllowed(o, ps) && Spells(ps, x) && Spells(ps, y)
    ensures x == y
    decreases |ps|
  {
    hide Stands, Allowed;
    if ps != [] {
      var k :| 0 <= k <= |x| && Stands(ps[0], x[..k]) && Spells(ps[1..], x[k..]);
      var l :| 0 <= l <= |y| && Stands(ps[0], y[..l]) && Spells(ps[1..], y[l..]);
      OneMeaning(o, ps[0], x[..k], y[..l]);
      OneReading(o, ps[1..], x[k..], y[l..]);
      assert x == x[..k] + x[k..] && y == y[..l] + y[l..];
    }
  }

  /** Every spelling of a string, in quotes, is read as the string it spells and nothing more. */
  lemma SpelledStringReads(o: Options, ps: seq<Piece>, x: string, suf: string)
    requires AllAllowed(o, ps) && Spells(ps, x) && (ps != [] || Peek(suf, 0) != '"')
    ensures ParseString(o, "\"" + Text(ps) + "\"" + suf) == Ok(x, suf)
  {
    hide ParseChars, ParseString, Spells, Text, AllAllowed;
    var body := Text(ps) + ("\"" + suf);
    assert "\"" + Text(ps) + "\"" + suf == "\"" + body;
    FirstIsNoQuote(o, ps, suf);
    GoesOn(o, body);
    var y := PiecesRead(o, ps, "\"" + suf, "\"" + body, "");
    OneReading(o, ps, x, y);
    Closes(o, suf, "\"" + body, x);
    assert "" + x == x;
  }

  lemma GoesOn(o: Options, body: string)
    requires Peek(body, 0) != '"' || Peek(body, 1) != '"'
    ensures ParseString(o, "\"" + body) == ParseChars(o, body, "\"" + body, "")
  {
    hide ParseChars, ParseMultiline;
    var s := "\"" + body;
    assert s[1..] == body && Peek(s, 1) == Peek(body, 0) && Peek(s, 2) == Peek(body, 1);
  }

  lemma Closes(o: Options, suf: string, start: string, acc: string)
    ensures ParseChars(o, "\"" + suf, start, acc) == Ok(acc, suf)
  {
    hide ParseEscape;
    assert ("\"" + suf)[1..] == suf;
  }

  lemma FirstIsNoQuote(o: Options, ps: seq<Piece>, suf: string)
    requires AllAllowed(o, ps) && (ps != [] || Peek(suf, 0) != '"')
    ensures var body := Text(ps) + ("\"" + suf); Peek(body, 0) != '"' || Peek(body, 1) != '"'
  {
    var body := Text(ps) + ("\"" + suf);
    if ps == [] {
      assert body == "\"" + suf && Peek(body, 1) == Peek(suf, 0);
    } else {
      assert Allowed(o, ps[0]);
      assert body[0] == PieceText(ps[0])[0];
    }
  }

  // ---- And only those -------------------------------------------------------------------------------------

  lemma HexOf(c: char) returns (h: Hex)
    requires HexDigit(c) >= 0
    ensures h.Char() == c && h.value == HexDigit(c)
  {
    h := Hex(HexDigit(c), 'A' <= c <= 'F');
    HexIs(h);
    var lower, upper := "0123456789abcdef", "0123456789ABCDEF";
    if h.value < 10 {
      assert lower[h.value] as int == '0' as int + h.value;
    } else {
      assert lower[h.value] as int == 'a' as int + h.value - 10 && upper[h.value] as int == 'A' as int + h.value - 10;
    }
  }

  lemma QuadOf(s: string) returns (q: Quad)
    requires ParseHex(s, 4).Ok?
    ensures ParseHex(s, 4) == Ok(q.Value(), s[4..]) && s == q.Text() + s[4..]
  {
    hide ParseHex;
    HexMeans(s, 4);
    var a := HexOf(s[0]);
    var b := HexOf(s[1]);
    var c := HexOf(s[2]);
    var d := HexOf(s[3]);
    q := Quad(a, b, c, d);
    assert s == q.Text() + s[4..];
    QuadIs(q, s[4..]);
  }

  /** What is read behind a backslash is a piece that stands for what was read. */
  lemma EscapeIsPiece(o: Options, s: string) returns (p: Piece)
    requires !o.str32bitUnicode && ParseEscape(o, s).Ok?
    ensures var r := ParseEscape(o, s);
            Allowed(o, p) && !p.Plain? && "\\" + s == PieceText(p) + r.rest && Stands(p, r.value)
  {
    var r := ParseEscape(o, s);
    if s[0] != 'u' {
      hide IsUtf8, ParseHex, EncodeUtf8;
      p := Short(s[0]);
      ShortReads(o, s[0], s[1..]);
      assert s == [s[0]] + s[1..];
    } else {
      hide ParseEscape, Stands;
      p := UnicodeIsPiece(o, s);
    }
  }

  lemma UnicodeIsPiece(o: Options, s: string) returns (p: Piece)
    requires !o.str32bitUnicode && ParseEscape(o, s).Ok? && s[0] == 'u'
    ensures var r := ParseEscape(o, s);
            Allowed(o, p) && !p.Plain? && "\\" + s == PieceText(p) + r.rest && Stands(p, r.value)
  {
    hide Stands, ParseHex, EncodeUtf8, Quad.Text, Quad.Value;
    var r := ParseEscape(o, s);
    var high := QuadOf(s[1..]);
    var rest := ParseHex(s[1..], 4).rest;
    assert s == "u" + high.Text() + rest;
    if HighSurrogate(high.Value()) {
      var low := QuadOf(rest[2..]);
      p := Pair(high, low);
      assert rest == "\\u" + low.Text() + r.rest;
      assert s == "u" + high.Text() + "\\u" + low.Text() + r.rest;
      PairEscape(o, high, low, r.rest);
    } else {
      p := Unit(high);
      UnitEscape(o, high, rest);
    }
  }

  lemma FirstPiece(o: Options, s: string, start: string, acc: string) returns (p: Piece, a: string, rest: string)
    requires !o.str32bitUnicode && ParseChars(o, s, start, acc).Ok? && s[0] != '"'
    ensures Allowed(o, p) && Stands(p, a) && s == PieceText(p) + rest && |rest| < |s|
    ensures ParseChars(o, s, start, acc) == ParseChars(o, rest, start, acc + a)
  {
    if s[0] == '\\' {
      hide ParseEscape, Stands, PieceText, ParseChars;
      BehindBackslash(o, s, start, acc);
      p := EscapeIsPiece(o, s[1..]);
      a, rest := ParseEscape(o, s[1..]).value, ParseEscape(o, s[1..]).rest;
      assert s == "\\" + s[1..];
    } else {
      p, a, rest := Plain(s[0]), [s[0]], s[1..];
    }
  }

  lemma {:induction false} CharsAreSpelled(o: Options, s: string, start: string, acc: string) returns (ps: seq<Piece>, x: string)
    requires !o.str32bitUnicode && ParseChars(o, s, start, acc).Ok?
    ensures var r := ParseChars(o, s, start, acc);
            AllAllowed(o, ps) && Spells(ps, x) && r.value == acc + x && s == Text(ps) + ("\"" + r.rest)
    decreases |s|
  {
    hide ParseChars, Stands, PieceText, Allowed, AllAllowed, Text, Spells;
    if s[0] == '"' {
      ps, x := [], "";
      NothingSpelled(o, s, start, acc);
    } else {
      var p, a, rest := FirstPiece(o, s, start, acc);
      var more, b := CharsAreSpelled(o, rest, start, acc + a);
      ps, x := [p] + more, a + b;
      SpellsMore(p, more, a, b);
      OnePieceMore(o, p, more, "\"" + ParseChars(o, s, start, acc).rest);
      assert acc + a + b == acc + x;
    }
  }

  lemma NothingSpelled(o: Options, s: string, start: string, acc: string)
    requires s != "" && s[0] == '"'
    ensures AllAllowed(o, []) && Spells([], "") && acc + "" == acc
    ensures var r := ParseChars(o, s, start, acc); r == Ok(acc, s[1..]) && s == Text([]) + ("\"" + r.rest)
  {
    hide ParseEscape;
    assert s == "\"" + s[1..] && "" + s == s;
  }

  lemma OnePieceMore(o: Options, p: Piece, ps: seq<Piece>, end: string)
    requires Allowed(o, p) && AllAllowed(o, ps)
    ensures AllAllowed(o, [p] + ps) && Text([p] + ps) + end == PieceText(p) + (Text(ps) + end)
  {
    hide Allowed, PieceText;
    assert ([p] + ps)[1..] == ps;
  }

  lemma EmptyText()
    ensures Text([]) == ""
  {
  }

  /** A quoted string is read as `x` exactly if some spelling of `x` stands in the quotes: nothing else passes, and
      nothing passes as anything else. */
  lemma ReadExactlyIfSpelled(o: Options, s: string, x: string, suf: string)
    requires !o.str32bitUnicode && LooksAt(s, "\"") && !(Peek(s, 1) == '"' && Peek(s, 2) == '"')
    ensures ParseString(o, s) == Ok(x, suf) <==>
            exists ps :: AllAllowed(o, ps) && Spells(ps, x) && s == "\"" + Text(ps) + "\"" + suf
  {
    hide ParseChars, Spells, Text;
    if ParseString(o, s) == Ok(x, suf) {
      var ps, y := CharsAreSpelled(o, s[1..], s, "");
      assert "" + y == y;
      assert s == "\"" + s[1..] == "\"" + (Text(ps) + ("\"" + suf)) == "\"" + Text(ps) + "\"" + suf;
    }
    if ps :| AllAllowed(o, ps) && Spells(ps, x) && s == "\"" + Text(ps) + "\"" + suf {
      EmptyText();
      if ps == [] { assert s == "\"\"" + suf; }
      SpelledStringReads(o, ps, x, suf);
    }
  }
}
