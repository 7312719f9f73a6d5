/** What follows from the round trip: layout carries no meaning, texts are reproduced, trees are told apart.
    And where the parser is more lenient than its options say. */
module ConfigMeaning {
  import opened ConfigText
  import opened ConfigUtf8
  import opened ConfigGrammar
  import opened ConfigLayout
  import opened ConfigStrings
  import opened ConfigRoundTrip
  import opened ConfigReader
  import ConfigParser
  import ConfigWriter

  // ---- Layout -----------------------------------------------------------------------------------------

  /** A tree dumped in one layout is read back with the options of any other: pretty or compact, whatever
      the indentation and alignment. It fails exactly if the tree holds something the writer makes
      unreadable. */
  lemma LayoutHasNoMeaning(writer: Options, reader: Options, v: Value)
    requires writer.Valid() && reader.Valid() && Reader(writer) == Reader(reader) && WellFormed(v)
    ensures if Readable(writer, v) then ParseText(reader, Dump(writer, v)) == Ok(v, "") else ParseText(reader, Dump(writer, v)).Err?
  {
    hide ParseText, Dump, Readable, WellFormed, Reader;
    DumpRoundTrip(writer, v);
    ReadersAgree(reader, writer, Dump(writer, v));
  }

  /** Dumping what was parsed reproduces the text; and different trees have different texts. */
  lemma TextIsReproduced(o: Options, v: Value, w: Value)
    requires o.Valid() && WellFormed(v) && WellFormed(w) && Readable(o, v)
    ensures ParseText(o, Dump(o, v)).Ok? && Dump(o, ParseText(o, Dump(o, v)).value) == Dump(o, v)
    ensures Dump(o, v) == Dump(o, w) ==> v == w
  {
    hide ParseText, Dump, Readable, WellFormed;
    DumpRoundTrip(o, v);
    DumpRoundTrip(o, w);
  }

  // ---- JSON -------------------------------------------------------------------------------------------

  /** No string and no key in the tree holds a NUL. */
  predicate NulFreeTree(v: Value) {
    match v
    case Str(s) => NulFree(s)
    case Array(items) => forall x :: x in items ==> NulFreeTree(x)
    case Object(entries) => forall e :: e in entries ==> NulFree(e.key) && NulFreeTree(e.value)
    case _ => true
  }

  /** make_json_options, or any other indentation of it; compact if there is none. */
  function Json(indentation: string): Options {
    JSON.(indentation := indentation)
  }

  lemma {:induction false} JsonReadable(indentation: string, v: Value)
    ensures Readable(Json(indentation), v) <==> NulFreeTree(v)
    decreases v
  {
    match v
    case Array(items) => forall x | x in items ensures Readable(Json(indentation), x) <==> NulFreeTree(x) { JsonReadable(indentation, x); }
    case Object(entries) =>
      forall e | e in entries ensures Readable(Json(indentation), e.value) <==> NulFreeTree(e.value) { JsonReadable(indentation, e.value); }
    case _ =>
  }

  /** The JSON dump of a tree in any layout is parsed by the JSON reader as the same tree, to the end of the
      text and with the entries in the same order, exactly if no string or key holds a NUL. */
  lemma JsonRoundTrip(indentation: string, v: Value)
    requires Json(indentation).Valid() && WellFormed(v)
    ensures if NulFreeTree(v) then ParseText(JSON, Dump(Json(indentation), v)) == Ok(v, "")
            else ParseText(JSON, Dump(Json(indentation), v)).Err?
  {
    hide ParseText, Dump, Readable, WellFormed, NulFreeTree;
    JsonReadable(indentation, v);
    LayoutHasNoMeaning(Json(indentation), JSON, v);
  }

  /** The two loops together: writer and parser give the tree back, or the parser refuses the text. */
  method DumpAndParse(v: Value, indentation: string) returns (r: ConfigParser.Result<Value>)
    requires Json(indentation).Valid() && WellFormed(v)
    ensures if NulFreeTree(v) then r == ConfigParser.Success(v) else r.Failure?
  {
    hide ParseText, Dump, WellFormed, NulFreeTree, ConfigParser.ErrorAt;
    var text := ConfigWriter.DumpString(v, Json(indentation));
    r := ConfigParser.Parse(text, JSON);
    JsonRoundTrip(indentation, v);
  }

  // ---- Unicode escapes --------------------------------------------------------------------------------

  predicate CodePoint(u: nat) {
    u <= 0x10_FFFF && !HighSurrogate(u) && !LowSurrogate(u)
  }

  /** Section 7 of RFC 8259: six characters for a code point of the basic plane, twelve for the others. */
  function UnicodeEscape(u: nat): string
    requires CodePoint(u)
  {
    if u < 0x1_0000 then Unicode16(u) else Unicode16(SplitHigh(u)) + Unicode16(SplitLow(u))
  }

  lemma UnitReads(n: nat, tail: string)
    requires n < 0x1_0000
    ensures var s := Unicode16(n) + tail;
            Peek(s, 0) == '\\' && Peek(s, 1) == 'u' && ParseHex(s[2..], 4) == Ok(n, tail)
  {
    var a, b, c, d := HexChar(n / 0x1000), HexChar(n / 0x100 % 16), HexChar(n / 0x10 % 16), HexChar(n % 16);
    assert Unicode16(n) + tail == "\\u" + ([a, b, c, d] + tail);
    assert (Unicode16(n) + tail)[2..] == [a, b, c, d] + tail;
    HexFour(a, b, c, d, tail);
    HexChars(n);
    assert ([a, b, c, d] + tail)[4..] == tail;
  }

  lemma HexChars(n: nat)
    requires n < 0x1_0000
    ensures HexDigit(HexChar(n / 0x1000)) == n / 0x1000 && HexDigit(HexChar(n / 0x100 % 16)) == n / 0x100 % 16
    ensures HexDigit(HexChar(n / 0x10 % 16)) == n / 0x10 % 16 && HexDigit(HexChar(n % 16)) == n % 16
    ensures n == n / 0x1000 * 0x1000 + n / 0x100 % 16 * 0x100 + n / 0x10 % 16 * 0x10 + n % 16
  {
    hide HexChar, HexDigit;
    HexCharReads(n / 0x1000);
    HexCharReads(n / 0x100 % 16);
    HexCharReads(n / 0x10 % 16);
    HexCharReads(n % 16);
    HexDigitsMean(n);
  }

  lemma HexDigitsMean(n: nat)
    ensures n == n / 0x1000 * 0x1000 + n / 0x100 % 16 * 0x100 + n / 0x10 % 16 * 0x10 + n % 16
  {
    var a, b, c := n / 0x10, n / 0x100, n / 0x1000;
    assert n == 16 * a + n % 16;
    assert a == 16 * b + a % 16;
    assert b == 16 * c + b % 16;
  }

  lemma HexCharReads(n: nat)
    requires n < 16
    ensures HexDigit(HexChar(n)) == n
  {
  }

  /** The escape of every code point is read as the bytes that encode it in UTF-8. */
  lemma UnicodeEscapeReads(o: Options, u: nat, tail: string)
    requires CodePoint(u)
    ensures var r := ParseEscape(o, UnicodeEscape(u)[1..] + tail);
            r == Ok(EncodeUtf8(u), tail) && DecodeUtf8(r.value) == u
  {
    hide Unicode16, ParseHex, EncodeUtf8, DecodeUtf8;
    var t := UnicodeEscape(u) + tail;
    SixLong(u);
    assert UnicodeEscape(u)[1..] + tail == t[1..];
    assert t[1..][1..] == t[2..];
    Utf8RoundTrip(u);
    Encoded(u);
    if u < 0x1_0000 {
      UnitReads(u, tail);
    } else {
      var second := Unicode16(SplitLow(u)) + tail;
      assert t == Unicode16(SplitHigh(u)) + second;
      SurrogatesCombine(u, 0, 0);
      UnitReads(SplitHigh(u), second);
      UnitReads(SplitLow(u), tail);
    }
  }

  lemma SixLong(u: nat)
    requires CodePoint(u)
    ensures |UnicodeEscape(u)| >= 6
  {
  }

  lemma UnitLength(n: nat)
    requires n < 0x1_0000
    ensures |Unicode16(n)| == 6
  {
  }

  lemma Encoded(u: nat)
    requires u <= 0x10_FFFF
    ensures EncodeUtf8(u) != ""
  {
  }

  /** A high surrogate must be followed by the escape of a low one. */
  lemma LoneSurrogate(o: Options, high: nat, s: string)
    requires HighSurrogate(high)
    ensures ParseEscape(o, Unicode16(high)[1..] + s).Ok? <==>
            Peek(s, 0) == '\\' && Peek(s, 1) == 'u' && ParseHex(s[2..], 4).Ok? && LowSurrogate(ParseHex(s[2..], 4).value)
  {
    hide ParseHex, EncodeUtf8;
    var t := Unicode16(high) + s;
    UnitReads(high, s);
    UnitLength(high);
    assert Unicode16(high)[1..] + s == t[1..];
    assert t[1..][1..] == t[2..];
  }

  // ---- Trailing commas --------------------------------------------------------------------------------

  /** What is left of white space behind its first newline. */
  function BehindNewline(ws: string): string {
    if ws == [] then [] else if ws[0] == '\n' then ws[1..] else BehindNewline(ws[1..])
  }

  lemma {:induction false} BehindSkipped(ws: string, n: nat)
    requires n <= |ws| && forall i :: 0 <= i < n ==> ws[i] != '\n'
    ensures BehindNewline(ws) == BehindNewline(ws[n..])
    decreases n
  {
    if n == 0 {
      assert ws[0..] == ws;
    } else {
      BehindSkipped(ws[1..], n - 1);
      assert ws[1..][n - 1..] == ws[n..];
    }
  }

  /** Where newlines stop the skipping, just what is behind the first of them is left. */
  lemma {:induction false} SkipToNewline(o: Options, ws: string, s: string)
    requires o.Valid() && White(ws) && !MaybeWhite(Peek(s, 0))
    ensures SkipWhite(o, ws + s, true) == Ok(ws != [], BehindNewline(ws) + s)
    decreases |ws|
  {
    if ws == [] {
      assert ws + s == s;
      assert BehindNewline(ws) + s == s;
    } else {
      hide SkipWhite, RoundLength;
      SkipRound(o, ws, s, true);
      var n := RoundLength(o, ws + s);
      if EndsLine(ws[0]) {
        LineTaken(o, ws, s);
      } else {
        NoNewlineTaken(o, ws, s);
        BehindSkipped(ws, n);
        SkipToNewline(o, ws[n..], s);
      }
    }
  }

  lemma NoNewlineTaken(o: Options, ws: string, s: string)
    requires o.Valid() && ws != [] && !EndsLine(ws[0]) && RoundLength(o, ws + s) <= |ws|
    ensures forall i :: 0 <= i < RoundLength(o, ws + s) ==> ws[i] != '\n'
  {
    var n, t := RoundLength(o, ws + s), ws + s;
    forall i | 0 <= i < n ensures ws[i] != '\n' {
      assert ws[i] == t[i];
      if i > 0 { assert t[i] == o.indentation[i]; }
    }
  }

  lemma LineTaken(o: Options, ws: string, s: string)
    requires White(ws) && ws != [] && EndsLine(ws[0])
    ensures RoundLength(o, ws + s) <= |ws| && BehindNewline(ws) == ws[RoundLength(o, ws + s)..]
  {
    assert (ws + s)[0] == ws[0];
    if ws[0] == '\r' { assert ws[1..][0] == '\n' && ws[1..][1..] == ws[2..]; }
  }

  lemma {:induction false} BehindIsWhite(ws: string)
    requires White(ws)
    ensures White(BehindNewline(ws))
    decreases |ws|
  {
    if ws != [] {
      WhiteTail(ws, 1);
      BehindIsWhite(ws[1..]);
    }
  }

  /** Behind an element or entry, white space, and a comma with white space up to the bracket. */
  lemma AfterTrailing(o: Options, last: string, ws: string, end: string, closer: char, omitComma: bool, trailingComma: bool)
    requires o.Valid() && White(last) && White(ws) && Peek(end, 0) == closer && (closer == ']' || closer == '}')
    ensures AfterValue(o, last + ("," + (ws + end)), closer, omitComma, trailingComma) ==
            if !trailingComma && BehindNewline(ws) == "" then Err("," + (ws + end)) else Ok((), BehindNewline(ws) + end)
  {
    hide SkipWhite;
    var s := "," + (ws + end);
    assert s[1..] == ws + end;
    NothingToSkip(o, s, true);
    NothingToSkip(o, s, false);
    var before := SkipLine(o, last, s);
    SkipRun(o, before, s);
    SkipToNewline(o, ws, end);
    BehindIsWhite(ws);
    var left := BehindNewline(ws);
    assert Peek(left + end, 0) == if left == "" then closer else left[0];
    if left == "" { assert left + end == end; }
  }

  /** A comma behind the last element of an array, in any layout, where the options forbid it: it is refused
      only if no white space follows the first newline between it and the bracket. The parser looks for the
      bracket on the line of the comma and at the start of the next, and does not remember the comma after
      that. */
  lemma TrailingCommaInArray(o: Options, indent: nat, items: seq<Value>, ws: string, suf: string)
    requires o.Valid() && WellFormed(Array(items)) && items != [] && White(ws)
    ensures var text := ItemsText(o, indent + 1, items, ArraySpacing(o, indent, items));
            var r := ParseCore(o, ArrayOpen(o, items) + (text + ("," + (ws + ("]" + suf)))));
            if Readable(o, Array(items)) && (o.arrayTrailingComma || BehindNewline(ws) != "") then r == Ok(Array(items), suf) else r.Err?
  {
    hide ParseCore, ParseElements, AfterValue, ValueText, Readable, WellFormed, ItemsText, ItemsRun, SimpleArray, BehindNewline;
    var sp, end := ArraySpacing(o, indent, items), "]" + suf;
    var tail := "," + (ws + end);
    var pre := ArrayLead(o, items) + sp.lead;
    ArraySpaced(o, indent, items);
    ItemsTextRuns(o, indent + 1, items, sp, tail);
    var run := ItemsRun(o, indent + 1, items, sp, tail);
    assert ArrayOpen(o, items) == "[" + ArrayLead(o, items);
    assert ArrayOpen(o, items) + (sp.lead + run) == "[" + (pre + run);
    WhiteFollows(sp.last, tail);
    WellFormedItems(items);
    ReadableItems(o, items);
    ItemsReadTo(o, indent + 1, items, sp, o.Compact() || !o.arrayOmitComma, ArrayGap(o, items), pre, tail, []);
    assert [] + items == items;
    AfterTrailing(o, sp.last, ws, end, ']', o.arrayOmitComma, o.arrayTrailingComma);
    BehindIsWhite(ws);
    NoMoreElements(o, BehindNewline(ws), end, items);
    BracketReads(o, pre + run, items, suf);
  }

  /** The same for objects. */
  lemma TrailingCommaInObject(o: Options, indent: nat, es: seq<Entry>, ws: string, suf: string)
    requires o.Valid() && WellFormed(Object(es)) && es != [] && White(ws)
    ensures var text := EntriesText(o, indent + 1, es, LongestKey(es));
            var r := ParseCore(o, (if o.Compact() then "{" else "{\n") + (text + ("," + (ws + ("}" + suf)))));
            if Readable(o, Object(es)) && (o.objectTrailingComma || BehindNewline(ws) != "") then r == Ok(Object(es), suf) else r.Err?
  {
    hide ParseCore, ParseMembers, AfterValue, ValueText, Readable, EntriesReadable, WellFormed, EntriesText, EntriesRun, EntryEnd, Indent, LongestKey, BehindNewline;
    var end := "}" + suf;
    var tail, longest, pre := "," + (ws + end), LongestKey(es), ObjectLead(o, indent);
    LeadIsWhite(o, indent);
    EntriesTextRuns(o, indent + 1, es, longest, tail);
    var run := EntriesRun(o, indent + 1, es, longest, tail);
    assert (if o.Compact() then "{" else "{\n") + (Indent(o, indent + 1) + run) == "{" + (pre + run);
    EntryEndIs(o, true);
    WhiteFollows(EntryEnd(o, true), tail);
    WellFormedEntries(es);
    ReadableEntries(o, es);
    assert [] + es == es;
    EntriesReadTo(o, indent + 1, es, longest, pre, tail, []);
    AfterTrailing(o, EntryEnd(o, true), ws, end, '}', o.objectOmitComma, o.objectTrailingComma);
    BehindIsWhite(ws);
    NoMoreEntries(o, BehindNewline(ws), end, es);
    BraceReads(o, pre + run, es, suf);
  }
}
