/** What the writer prints, the parser reads: for every tree and every layout, exactly when a few things
    that can be seen in the tree and the options hold. */
module ConfigRoundTrip {
  import opened ConfigText
  import opened ConfigGrammar
  import opened ConfigLayout
  import opened ConfigNumbers
  import opened ConfigStrings

  // ---- White space ----------------------------------------------------------------------------------------

  /** Blanks and ends of lines, in either form. */
  predicate White(ws: string) {
    forall i :: 0 <= i < |ws| ==> ws[i] == ' ' || ws[i] == '\t' || ws[i] == '\n' || (ws[i] == '\r' && Peek(ws, i + 1) == '\n')
  }

  lemma NothingIsWhite()
    ensures White("")
  {
  }

  predicate EndsLine(c: char) {
    c == '\n' || c == '\r'
  }

  lemma WhiteJoins(a: string, b: string)
    requires White(a) && White(b)
    ensures White(a + b)
  {
    var ws := a + b;
    forall i | 0 <= i < |ws| ensures ws[i] == ' ' || ws[i] == '\t' || ws[i] == '\n' || (ws[i] == '\r' && Peek(ws, i + 1) == '\n') {
      if i < |a| { assert ws[i] == a[i]; } else { assert ws[i] == b[i - |a|] && Peek(ws, i + 1) == Peek(b, i - |a| + 1); }
    }
  }

  lemma WhiteTail(ws: string, n: nat)
    requires White(ws) && n <= |ws|
    ensures White(ws[n..])
  {
    forall i | n <= i < |ws| ensures ws[i] == ' ' || ws[i] == '\t' || ws[i] == '\n' || (ws[i] == '\r' && Peek(ws[n..], i - n + 1) == '\n') {
      assert Peek(ws[n..], i - n + 1) == Peek(ws, i + 1);
    }
  }

  /** An indentation found at the front of white space lies within it. */
  lemma IndentationInside(o: Options, ws: string, s: string)
    requires o.Valid() && Peek(s, 0) != ' ' && Peek(s, 0) != '\t' && LooksAt(ws + s, o.indentation)
    ensures |o.indentation| <= |ws| && (ws + s)[|o.indentation|..] == ws[|o.indentation|..] + s
  {
    if |o.indentation| > |ws| { CharAt(ws + s, o.indentation, |ws|); }
  }

  /** How many characters of a run of white space one round of the loop takes. */
  function RoundLength(o: Options, t: string): (n: nat)
    ensures n > 0
  {
    if t != [] && t[0] == '\r' then 2
    else if t != [] && t[0] != '\n' && o.indentation != "" && LooksAt(t, o.indentation) then |o.indentation|
    else 1
  }

  /** One round of the loop within a run of white space. */
  lemma SkipRound(o: Options, ws: string, s: string, breakOnNewline: bool)
    requires o.Valid() && White(ws) && ws != [] && Peek(s, 0) != ' ' && Peek(s, 0) != '\t'
    ensures var n := RoundLength(o, ws + s);
            && n <= |ws| && White(ws[n..])
            && (EndsLine(ws[0]) && breakOnNewline ==> SkipWhite(o, ws + s, breakOnNewline) == Ok(true, ws[n..] + s))
            && (!(EndsLine(ws[0]) && breakOnNewline) ==>
                 SkipWhite(o, ws + s, breakOnNewline) == Skipped(SkipWhite(o, ws[n..] + s, breakOnNewline)))
  {
    var t, n := ws + s, RoundLength(o, ws + s);
    assert t[0] == ws[0];
    if ws[0] == '\r' { assert |ws| >= 2 && t[1] == ws[1]; } else if n != 1 { IndentationInside(o, ws, s); }
    assert t[n..] == ws[n..] + s;
    WhiteTail(ws, n);
  }

  /** A run of white space is skipped as a whole. */
  lemma {:induction false} SkipRun(o: Options, ws: string, s: string)
    requires o.Valid() && White(ws) && !MaybeWhite(Peek(s, 0))
    ensures SkipWhite(o, ws + s, false) == Ok(ws != [], s)
    decreases |ws|
  {
    if ws == [] {
      assert ws + s == s;
    } else {
      hide SkipWhite, RoundLength;
      SkipRound(o, ws, s, false);
      SkipRun(o, ws[RoundLength(o, ws + s)..], s);
    }
  }

  /** When newlines stop the skipping, some white space may be left. */
  lemma {:induction false} SkipLine(o: Options, ws: string, s: string) returns (left: string)
    requires o.Valid() && White(ws) && !MaybeWhite(Peek(s, 0))
    ensures White(left) && SkipWhite(o, ws + s, true) == Ok(ws != [], left + s)
    decreases |ws|
  {
    left := [];
    if ws == [] {
      assert ws + s == s == left + s;
    } else {
      hide SkipWhite, RoundLength;
      SkipRound(o, ws, s, true);
      var rest := ws[RoundLength(o, ws + s)..];
      if EndsLine(ws[0]) { left := rest; } else { left := SkipLine(o, rest, s); }
    }
  }

  // ---- Behind a value -------------------------------------------------------------------------------------

  /** What both loops do behind a value: parse_value's own skipping, then the separator. */
  function AfterValue(o: Options, s: string, closer: char, omitComma: bool, trailingComma: bool): Parsed<()> {
    var (separated, s1) :- SkipWhite(o, s, true);
    ParseSeparator(o, s1, closer, omitComma, trailingComma, separated)
  }

  lemma AfterLast(o: Options, ws: string, s: string, closer: char, omitComma: bool, trailingComma: bool)
    requires o.Valid() && White(ws) && !MaybeWhite(Peek(s, 0)) && (Peek(s, 0) == closer || Peek(s, 0) == NUL) && Peek(s, 0) != ','
    ensures AfterValue(o, ws + s, closer, omitComma, trailingComma) == Ok((), s)
  {
    hide SkipWhite;
    var left := SkipLine(o, ws, s);
    SkipRun(o, left, s);
  }

  function Comma(comma: bool): string {
    if comma then "," else ""
  }

  /** A separator between two values: a comma, white space, or both. */
  lemma AfterBetween(o: Options, comma: bool, ws: string, next: string, closer: char, omitComma: bool, trailingComma: bool) returns (left: string)
    requires o.Valid() && White(ws) && (comma || ws != []) && !MaybeWhite(Peek(next, 0)) && Peek(next, 0) !in {closer, NUL, ','}
    requires !MaybeWhite(closer)
    ensures White(left)
    ensures var r := AfterValue(o, Comma(comma) + ws + next, closer, omitComma, trailingComma);
            if comma || omitComma then r == Ok((), left + next) else r.Err?
  {
    hide SkipWhite;
    left := SkipLine(o, ws, next);
    if comma {
      var s := Comma(comma) + ws + next;
      assert s[1..] == ws + next && s[0] == ',';
      NothingToSkip(o, s, true);
      NothingToSkip(o, s, false);
      assert Peek(left + next, 0) == if left == [] then Peek(next, 0) else left[0];
    } else {
      assert Comma(comma) + ws + next == ws + next;
      SkipRun(o, left, next);
      left := [];
      assert left + next == next;
    }
  }

  lemma NothingToSkip(o: Options, s: string, breakOnNewline: bool)
    requires !MaybeWhite(Peek(s, 0))
    ensures SkipWhite(o, s, breakOnNewline) == Ok(false, s)
  {
  }

  /** Does a value or a key start here? */
  predicate Starts(s: string) {
    !MaybeWhite(Peek(s, 0)) && Peek(s, 0) !in {NUL, ',', ']', '}', ':'}
  }

  /** One round of the loop over array elements. */
  lemma ElementStep(o: Options, pre: string, s: string, acc: seq<Value>)
    requires o.Valid() && White(pre) && Starts(s) && (IdentStarter(Peek(s, 0)) ==> Reserved(s))
    ensures var core := ParseCore(o, s);
            ParseElements(o, pre + s, acc) ==
            if core.Err? then Err(core.at)
            else
              var after := AfterValue(o, core.rest, ']', o.arrayOmitComma, o.arrayTrailingComma);
              if after.Err? then Err(after.at) else ParseElements(o, after.rest, acc + [core.value])
  {
    hide SkipWhite, ParseCore, ParseSeparator;
    SkipRun(o, pre, s);
    NothingToSkip(o, s, false);
  }

  /** One round of the loop over object entries. */
  lemma EntryStep(o: Options, pre: string, s: string, acc: seq<Entry>, key: string, s2: string, s3: string)
    requires o.Valid() && White(pre) && Starts(s)
    requires ParseKey(o, s) == Ok(key, s2) && !HasKey(acc, key) && ParseColon(o, s2) == Ok((), s3) && Starts(s3)
    ensures var core := ParseCore(o, s3);
            ParseMembers(o, pre + s, acc) ==
            if core.Err? then Err(core.at)
            else
              var after := AfterValue(o, core.rest, '}', o.objectOmitComma, o.objectTrailingComma);
              if after.Err? then Err(after.at) else ParseMembers(o, after.rest, acc + [Entry(key, core.value)])
  {
    hide SkipWhite, ParseCore, ParseSeparator, ParseKey, ParseColon;
    SkipRun(o, pre, s);
    NothingToSkip(o, s3, false);
  }

  lemma EntryFails(o: Options, pre: string, s: string, acc: seq<Entry>)
    requires o.Valid() && White(pre) && Starts(s)
    requires ParseKey(o, s).Err? || Peek(ParseKey(o, s).rest, 0) == NUL
    ensures ParseMembers(o, pre + s, acc).Err?
  {
    hide SkipWhite, ParseCore, ParseSeparator, ParseKey;
    SkipRun(o, pre, s);
    if ParseKey(o, s).Ok? { NothingToSkip(o, ParseKey(o, s).rest, false); }
  }

  lemma NoMoreElements(o: Options, ws: string, s: string, acc: seq<Value>)
    requires o.Valid() && White(ws) && (Peek(s, 0) == ']' || Peek(s, 0) == NUL)
    ensures ParseElements(o, ws + s, acc) == Ok(acc, s)
  {
    hide SkipWhite;
    SkipRun(o, ws, s);
  }

  lemma NoMoreEntries(o: Options, ws: string, s: string, acc: seq<Entry>)
    requires o.Valid() && White(ws) && (Peek(s, 0) == '}' || Peek(s, 0) == NUL)
    ensures ParseMembers(o, ws + s, acc) == Ok(acc, s)
  {
    hide SkipWhite;
    SkipRun(o, ws, s);
  }

  // ---- Trees ----------------------------------------------------------------------------------------------

  /** A tree the library can hold, without floats: integers have 64 bits, the keys of an object differ. */
  predicate WellFormed(v: Value) {
    match v
    case Int(i) => InInt64(i)
    case Float(_) => false
    case Array(items) => forall x :: x in items ==> WellFormed(x)
    case Object(entries) => UniqueKeys(entries) && forall e :: e in entries ==> WellFormed(e.value)
    case _ => true
  }

  /** The writer asks the array option for the commas of objects, too. */
  predicate CommasMatch(o: Options) {
    o.Compact() || !o.arrayOmitComma || o.objectOmitComma
  }

  /** Nothing in the tree is written so that it cannot be read. */
  predicate Readable(o: Options, v: Value) {
    match v
    case Str(s) => NulFree(s)
    case Array(items) => forall x :: x in items ==> Readable(o, x)
    case Object(entries) => (CommasMatch(o) || |entries| <= 1) && forall e :: e in entries ==> ReadableKey(o, e.key) && Readable(o, e.value)
    case _ => true
  }

  /** What can stand behind a value. */
  predicate Follows(suf: string) {
    Peek(suf, 0) in {NUL, ',', ']', '}', ' ', '\t', '\n', '\r'}
  }

  /** A value's text begins with a character that tells it apart from what can stand around it. */
  lemma ValueStarts(o: Options, indent: nat, v: Value, suf: string)
    requires WellFormed(v) && Follows(suf)
    ensures var s := ValueText(o, indent, v) + suf; Starts(s) && (IdentStarter(Peek(s, 0)) ==> Reserved(s))
    ensures v.Object? ==> Peek(ValueText(o, indent, v) + suf, 0) == '{'
  {
    hide Escaped, EscapeChar, ItemsText, EntriesText, Indent, SimpleArray, Decimal;
    var x := ValueText(o, indent, v);
    var s := x + suf;
    match v
    case Null => assert Peek(s, 4) == Peek(suf, 0);
    case Bool(b) => assert Peek(s, 4) == if b then Peek(suf, 0) else 'e'; assert !b ==> Peek(s, 5) == Peek(suf, 0);
    case Int(i) => assert s[0] == IntText(i)[0];
    case Str(t) => assert s[0] == StringText(o, t)[0];
    case Array(items) => assert x[0] == '[';
    case Object(entries) => assert x[0] == '{';
  }

  // ---- The round trip -------------------------------------------------------------------------------------

  lemma IntCore(o: Options, i: int, suf: string)
    requires InInt64(i) && NumberEnd(suf)
    ensures ParseCore(o, IntText(i) + suf) == Ok(Int(i), suf)
  {
    hide ParseFiniteNumber, Decimal;
    var s := IntText(i) + suf;
    IntRoundTrip(o, i, suf);
    assert s[0] == '-' || IsDigit(s[0]);
    if i < 0 { assert s[1] == Decimal(-i)[0]; }
    assert s[0] == '-' ==> IsDigit(Peek(s, 1));
  }

  lemma WordCore(o: Options, v: Value, word: string, suf: string)
    requires Follows(suf)
    requires (v == Null && word == "null") || (v == Bool(true) && word == "true") || (v == Bool(false) && word == "false")
    ensures ParseCore(o, word + suf) == Ok(v, suf)
  {
    var s := word + suf;
    assert s[0] == word[0] && s[..|word|] == word && s[|word|..] == suf && Peek(s, |word|) == Peek(suf, 0);
  }

  lemma StringCore(o: Options, x: string, suf: string)
    requires Follows(suf)
    ensures var s := StringText(o, x) + suf;
            if NulFree(x) then ParseCore(o, s) == Ok(Str(x), suf) else ParseCore(o, s).Err?
  {
    hide ParseString, Escaped, WrittenQuoted;
    StringRoundTrip(o, x, suf);
    assert (StringText(o, x) + suf)[0] == StringText(o, x)[0] == '"';
  }

  /** A value's text, whatever it is followed by, is read as the value, or not at all. */
  lemma {:induction false} CoreReads(o: Options, indent: nat, v: Value, suf: string)
    requires o.Valid() && WellFormed(v) && Follows(suf)
    ensures var r := ParseCore(o, ValueText(o, indent, v) + suf);
            if Readable(o, v) then r == Ok(v, suf) else r.Err?
    decreases v, 0
  {
    hide ParseCore, StringText, IntText;
    match v
    case Null => WordCore(o, v, "null", suf);
    case Bool(b) => WordCore(o, v, if b then "true" else "false", suf);
    case Int(i) => IntCore(o, i, suf);
    case Str(x) => StringCore(o, x, suf);
    case Array(items) => ArrayReads(o, indent, v, suf);
    case Object(entries) => ObjectReads(o, indent, v, suf);
  }

  lemma IndentIsWhite(o: Options, n: nat)
    requires o.Valid()
    ensures White(Indent(o, n))
  {
  }

  // ---- Arrays ---------------------------------------------------------------------------------------------

  /** The text from the first element on, with `tail` behind the last. */
  function ItemsRun(o: Options, indent: nat, items: seq<Value>, sp: Spacing, tail: string): string
    requires items != []
    decreases |items|
  {
    ValueText(o, indent, items[0]) + BehindItem(o, indent, items, sp, tail)
  }

  function BehindItem(o: Options, indent: nat, items: seq<Value>, sp: Spacing, tail: string): string
    requires items != []
    decreases |items|, -1
  {
    if |items| == 1 then sp.last + tail else sp.between + (sp.lead + ItemsRun(o, indent, items[1..], sp, tail))
  }

  lemma {:induction false} ItemsTextRuns(o: Options, indent: nat, items: seq<Value>, sp: Spacing, tail: string)
    requires items != []
    ensures ItemsText(o, indent, items, sp) + tail == sp.lead + ItemsRun(o, indent, items, sp, tail)
    decreases |items|
  {
    hide ValueText;
    var x, after, rest := ValueText(o, indent, items[0]), if |items| == 1 then sp.last else sp.between, ItemsText(o, indent, items[1..], sp);
    if |items| > 1 {
      ItemsTextRuns(o, indent, items[1..], sp, tail);
    } else {
      assert rest == [] && rest + tail == tail;
    }
    assert BehindItem(o, indent, items, sp, tail) == after + (rest + tail);
    RegroupItem(sp.lead, x, after, rest, tail);
  }

  lemma RegroupItem(a: string, b: string, c: string, d: string, tail: string)
    ensures a + b + c + d + tail == a + (b + (c + (d + tail)))
  {
  }

  lemma Regroup(a: string, b: string, c: string, d: string, e: string, f: string, tail: string)
    ensures a + b + c + d + e + f + tail == a + (b + (c + (d + (e + (f + tail)))))
  {
  }

  /** A bracketed text, regrouped. */
  lemma Bracketed(open: string, pre: string, it: string, lead: string, run: string, post: string, close: string, suf: string)
    requires it + (post + (close + suf)) == lead + run
    ensures open + pre + it + (post + close) + suf == open + (pre + lead + run)
  {
    assert open + pre + it + (post + close) + suf == open + (pre + (it + (post + (close + suf))));
    assert pre + (lead + run) == pre + lead + run;
  }

  /** Between two elements there is a comma, white space, or both. */
  ghost predicate Spaced(sp: Spacing, comma: bool, gap: string) {
    White(sp.lead) && White(sp.last) && White(gap) && (comma || gap != "") && sp.between == Comma(comma) + gap
  }

  lemma BehindItemFollows(o: Options, indent: nat, items: seq<Value>, sp: Spacing, comma: bool, gap: string, tail: string)
    requires items != [] && Spaced(sp, comma, gap) && Follows(sp.last + tail)
    ensures Follows(BehindItem(o, indent, items, sp, tail))
  {
    hide ItemsRun;
    var b := BehindItem(o, indent, items, sp, tail);
    if |items| > 1 { assert b[0] == sp.between[0]; }
  }

  /** The loop over elements goes on behind a separator. */
  function MoreElements(o: Options, after: Parsed<()>, acc: seq<Value>): Parsed<seq<Value>> {
    if after.Err? then Err(after.at) else ParseElements(o, after.rest, acc)
  }

  /** The elements of an array, behind those read already, whatever stands behind them. */
  lemma {:induction false} ItemsReadTo(o: Options, indent: nat, items: seq<Value>, sp: Spacing, comma: bool, gap: string, pre: string, tail: string, acc: seq<Value>)
    requires o.Valid() && White(pre) && Follows(sp.last + tail) && (forall x :: x in items ==> WellFormed(x)) && items != []
    requires Spaced(sp, comma, gap) && (comma || o.arrayOmitComma)
    ensures var r := ParseElements(o, pre + ItemsRun(o, indent, items, sp, tail), acc);
            if forall x :: x in items ==> Readable(o, x)
            then r == MoreElements(o, AfterValue(o, sp.last + tail, ']', o.arrayOmitComma, o.arrayTrailingComma), acc + items)
            else r.Err?
    decreases items, 1
  {
    hide ParseElements, ParseCore, ValueText, AfterValue, Readable, WellFormed, Follows;
    var v := items[0];
    var behind := BehindItem(o, indent, items, sp, tail);
    assert v in items;
    BehindItemFollows(o, indent, items, sp, comma, gap, tail);
    ValueStarts(o, indent, v, behind);
    CoreReads(o, indent, v, behind);
    ElementStep(o, pre, ItemsRun(o, indent, items, sp, tail), acc);
    assert acc + [v] + items[1..] == acc + items;
    if |items| == 1 {
      assert items == [v];
    } else {
      var rest := ItemsRun(o, indent, items[1..], sp, tail);
      ItemsRunStarts(o, indent, items[1..], sp, comma, gap, tail);
      assert sp.between + (sp.lead + rest) == Comma(comma) + (gap + sp.lead) + rest;
      var left := AfterBetween(o, comma, gap + sp.lead, rest, ']', o.arrayOmitComma, o.arrayTrailingComma);
      ItemsReadTo(o, indent, items[1..], sp, comma, gap, left, tail, acc + [v]);
      assert forall x :: x in items <==> x == v || x in items[1..];
    }
  }

  /** And up to the closing bracket. */
  lemma {:induction false} ItemsRead(o: Options, indent: nat, items: seq<Value>, sp: Spacing, comma: bool, gap: string, pre: string, post: string, suf: string, acc: seq<Value>)
    requires o.Valid() && White(pre) && White(post) && (forall x :: x in items ==> WellFormed(x)) && items != []
    requires Spaced(sp, comma, gap) && (comma || o.arrayOmitComma)
    ensures var r := ParseElements(o, pre + ItemsRun(o, indent, items, sp, post + ("]" + suf)), acc);
            if forall x :: x in items ==> Readable(o, x) then r == Ok(acc + items, "]" + suf) else r.Err?
    decreases items, 2
  {
    hide ParseElements, ParseCore, ValueText, AfterValue, Readable, WellFormed, ItemsRun;
    var end := "]" + suf;
    WhiteFollows(sp.last + post, end);
    assert sp.last + (post + end) == (sp.last + post) + end;
    ItemsReadTo(o, indent, items, sp, comma, gap, pre, post + end, acc);
    AfterLast(o, sp.last + post, end, ']', o.arrayOmitComma, o.arrayTrailingComma);
    NoMoreElements(o, "", end, acc + items);
    assert "" + end == end;
  }

  lemma WhiteFollows(ws: string, end: string)
    requires White(ws) && (Peek(end, 0) == ']' || Peek(end, 0) == '}' || Peek(end, 0) == ',')
    ensures Follows(ws + end)
  {
    assert Peek(ws + end, 0) == if ws == "" then Peek(end, 0) else ws[0];
  }

  lemma ItemsRunStarts(o: Options, indent: nat, items: seq<Value>, sp: Spacing, comma: bool, gap: string, tail: string)
    requires items != [] && WellFormed(items[0]) && Spaced(sp, comma, gap) && Follows(sp.last + tail)
    ensures Starts(ItemsRun(o, indent, items, sp, tail))
  {
    hide BehindItem;
    BehindItemFollows(o, indent, items, sp, comma, gap, tail);
    ValueStarts(o, indent, items[0], BehindItem(o, indent, items, sp, tail));
  }

  function ArrayLead(o: Options, items: seq<Value>): string {
    if o.Compact() then "" else if SimpleArray(items) then " " else "\n"
  }

  function ArrayTail(o: Options, indent: nat, items: seq<Value>): string {
    if !o.Compact() && !SimpleArray(items) then Indent(o, indent) else ""
  }

  function ArrayGap(o: Options, items: seq<Value>): string {
    if o.Compact() then "" else if SimpleArray(items) then " " else "\n"
  }

  lemma ArraySpaced(o: Options, indent: nat, items: seq<Value>)
    requires o.Valid()
    ensures Spaced(ArraySpacing(o, indent, items), o.Compact() || !o.arrayOmitComma, ArrayGap(o, items))
    ensures White(ArrayLead(o, items)) && White(ArrayTail(o, indent, items))
  {
    IndentIsWhite(o, indent);
    IndentIsWhite(o, indent + 1);
  }

  lemma ArrayTextIs(o: Options, indent: nat, items: seq<Value>, suf: string)
    requires items != []
    ensures var sp, post := ArraySpacing(o, indent, items), ArrayTail(o, indent, items);
            ValueText(o, indent, Array(items)) + suf ==
            "[" + (ArrayLead(o, items) + sp.lead + ItemsRun(o, indent + 1, items, sp, post + ("]" + suf)))
  {
    var sp, post := ArraySpacing(o, indent, items), ArrayTail(o, indent, items);
    ItemsTextRuns(o, indent + 1, items, sp, post + ("]" + suf));
    hide ItemsRun, ItemsText, ArraySpacing, SimpleArray, Indent;
    assert ArrayOpen(o, items) == "[" + ArrayLead(o, items);
    assert ArrayClose(o, indent, items) == post + "]";
    Bracketed("[", ArrayLead(o, items), ItemsText(o, indent + 1, items, sp), sp.lead, ItemsRun(o, indent + 1, items, sp, post + ("]" + suf)), post, "]", suf);
  }

  lemma {:induction false} ArrayReads(o: Options, indent: nat, v: Value, suf: string)
    requires o.Valid() && WellFormed(v) && v.Array? && Follows(suf)
    ensures var r := ParseCore(o, ValueText(o, indent, v) + suf);
            if Readable(o, v) then r == Ok(v, suf) else r.Err?
    decreases v, -1
  {
    var items := v.items;
    if items == [] { EmptyArrayReads(o, indent, suf); } else {
      var sp, post := ArraySpacing(o, indent, items), ArrayTail(o, indent, items);
      var pre := ArrayLead(o, items) + sp.lead;
      ArraySpaced(o, indent, items);
      WellFormedItems(items);
      hide ValueText, ArraySpacing, ArrayTail, ArrayLead, ItemsRun, WellFormed, ParseElements, ParseCore, Readable;
      ArrayTextIs(o, indent, items, suf);
      ItemsRead(o, indent + 1, items, sp, o.Compact() || !o.arrayOmitComma, ArrayGap(o, items), pre, post, suf, []);
      assert [] + items == items;
      ReadableItems(o, items);
      BracketReads(o, pre + ItemsRun(o, indent + 1, items, sp, post + ("]" + suf)), items, suf);
    }
  }

  lemma WellFormedItems(items: seq<Value>)
    ensures WellFormed(Array(items)) ==> forall x :: x in items ==> WellFormed(x)
  {
  }

  lemma ReadableItems(o: Options, items: seq<Value>)
    ensures Readable(o, Array(items)) <==> forall x :: x in items ==> Readable(o, x)
  {
  }

  lemma BracketReads(o: Options, body: string, items: seq<Value>, suf: string)
    ensures ParseElements(o, body, []) == Ok(items, "]" + suf) ==> ParseCore(o, "[" + body) == Ok(Array(items), suf)
    ensures ParseElements(o, body, []).Err? ==> ParseCore(o, "[" + body).Err?
  {
    hide ParseMembers, ParseElements, ParseString, ParseFiniteNumber, ParseWord;
    assert ("[" + body)[1..] == body;
    assert ("]" + suf)[1..] == suf;
  }

  lemma EmptyArrayReads(o: Options, indent: nat, suf: string)
    requires o.Valid()
    ensures ParseCore(o, ValueText(o, indent, Array([])) + suf) == Ok(Array([]), suf)
  {
    var ws := if o.Compact() then "" else " ";
    assert ValueText(o, indent, Array([])) + suf == "[" + (ws + ("]" + suf));
    hide ValueText, ParseElements, ParseCore;
    NoMoreElements(o, ws, "]" + suf, []);
    BracketReads(o, ws + ("]" + suf), [], suf);
  }

  // ---- Objects --------------------------------------------------------------------------------------------

  /** The text from the first key on, with `tail` behind the last entry. */
  function EntriesRun(o: Options, indent: nat, es: seq<Entry>, longest: nat, tail: string): string
    requires es != []
    decreases |es|, 2
  {
    KeyText(o, es[0].key) + BehindKey(o, indent, es, longest, tail)
  }

  function BehindKey(o: Options, indent: nat, es: seq<Entry>, longest: nat, tail: string): string
    requires es != []
    decreases |es|, 1
  {
    ColonText(o, es[0], longest) + (ValueText(o, indent, es[0].value) + BehindEntry(o, indent, es, longest, tail))
  }

  function BehindEntry(o: Options, indent: nat, es: seq<Entry>, longest: nat, tail: string): string
    requires es != []
    decreases |es|, 0
  {
    EntryEnd(o, |es| == 1) + if |es| == 1 then tail else Indent(o, indent) + EntriesRun(o, indent, es[1..], longest, tail)
  }

  lemma {:induction false} EntriesTextRuns(o: Options, indent: nat, es: seq<Entry>, longest: nat, tail: string)
    requires es != []
    ensures EntriesText(o, indent, es, longest) + tail == Indent(o, indent) + EntriesRun(o, indent, es, longest, tail)
    decreases |es|
  {
    hide ValueText, KeyText, ColonText, EntryEnd, Indent;
    if |es| > 1 { EntriesTextRuns(o, indent, es[1..], longest, tail); } else { assert es[1..] == []; assert [] + tail == tail; }
    var rest := EntriesText(o, indent, es[1..], longest);
    assert BehindEntry(o, indent, es, longest, tail) == EntryEnd(o, |es| == 1) + (rest + tail);
    assert BehindKey(o, indent, es, longest, tail) == ColonText(o, es[0], longest) + (ValueText(o, indent, es[0].value) + BehindEntry(o, indent, es, longest, tail));
    Regroup(Indent(o, indent), KeyText(o, es[0].key), ColonText(o, es[0], longest), ValueText(o, indent, es[0].value), EntryEnd(o, |es| == 1), rest, tail);
  }

  lemma EntryEndIs(o: Options, last: bool)
    ensures last ==> White(EntryEnd(o, true))
    ensures !last ==> EntryEnd(o, false) == Comma(o.Compact() || !o.arrayOmitComma) + if o.Compact() then "" else "\n"
  {
  }

  lemma BehindEntryFollows(o: Options, indent: nat, es: seq<Entry>, longest: nat, tail: string)
    requires es != [] && Follows(EntryEnd(o, true) + tail)
    ensures Follows(BehindEntry(o, indent, es, longest, tail))
  {
    hide EntriesRun;
    var b := BehindEntry(o, indent, es, longest, tail);
    if |es| > 1 { assert b[0] == EntryEnd(o, false)[0]; }
  }

  lemma {:induction false} SpacesAreWhite(n: int)
    ensures White(Spaces(n))
    decreases if n > 0 then n else 0
  {
    if n > 0 { SpacesAreWhite(n - 1); }
  }

  /** Key and value are told apart by a colon, or by nothing where the value is an object and the options
      allow it. */
  lemma ColonReads(o: Options, e: Entry, longest: nat, s: string)
    requires o.Valid() && Starts(s) && (e.value.Object? ==> Peek(s, 0) == '{')
    ensures ParseColon(o, ColonText(o, e, longest) + s) == Ok((), s)
    ensures Peek(ColonText(o, e, longest) + s, 0) == ':' || Peek(ColonText(o, e, longest) + s, 0) == ' '
  {
    hide SkipWhite;
    var c := ColonText(o, e, longest);
    var t := c + s;
    if c == " " {
      SkipRun(o, " ", s);
    } else {
      var spaces := c[1..];
      assert White(spaces) by { SpacesAreWhite(longest - |e.key|); }
      assert t[0] == ':' && t[1..] == spaces + s;
      NothingToSkip(o, t, false);
      SkipRun(o, spaces, s);
    }
  }

  lemma KeyStarts(o: Options, key: string, s: string)
    requires Peek(s, 0) == ':' || Peek(s, 0) == ' '
    ensures Starts(KeyText(o, key) + s)
  {
    hide Escaped, WrittenQuoted;
    assert KeyText(o, key) != "" && (KeyText(o, key) + s)[0] == KeyText(o, key)[0];
    assert IdentStarter(KeyText(o, key)[0]) || KeyText(o, key)[0] == '"';
  }

  ghost predicate EntriesReadable(o: Options, es: seq<Entry>) {
    (CommasMatch(o) || |es| <= 1) && forall e :: e in es ==> ReadableKey(o, e.key) && Readable(o, e.value)
  }

  /** The loop over entries goes on behind a separator. */
  function MoreEntries(o: Options, after: Parsed<()>, acc: seq<Entry>): Parsed<seq<Entry>> {
    if after.Err? then Err(after.at) else ParseMembers(o, after.rest, acc)
  }

  /** The entries of an object, behind those read already, whatever stands behind them. */
  lemma {:induction false} EntriesReadTo(o: Options, indent: nat, es: seq<Entry>, longest: nat, pre: string, tail: string, acc: seq<Entry>)
    requires o.Valid() && White(pre) && Follows(EntryEnd(o, true) + tail) && es != []
    requires (forall e :: e in es ==> WellFormed(e.value)) && UniqueKeys(acc + es)
    ensures var r := ParseMembers(o, pre + EntriesRun(o, indent, es, longest, tail), acc);
            if EntriesReadable(o, es)
            then r == MoreEntries(o, AfterValue(o, EntryEnd(o, true) + tail, '}', o.objectOmitComma, o.objectTrailingComma), acc + es)
            else r.Err?
    decreases es, 1
  {
    hide ParseMembers, ParseCore, ParseKey, ParseColon, ValueText, ColonText, KeyText, AfterValue, Readable, ReadableKey, WellFormed, EntryEnd, Indent, Follows;
    var e := es[0];
    assert e in es;
    var behind := BehindEntry(o, indent, es, longest, tail);
    var value := ValueText(o, indent, e.value) + behind;
    var colon := ColonText(o, e, longest) + value;
    var s := KeyText(o, e.key) + colon;
    assert s == EntriesRun(o, indent, es, longest, tail);
    BehindEntryFollows(o, indent, es, longest, tail);
    ValueStarts(o, indent, e.value, behind);
    ColonReads(o, e, longest, value);
    KeyStarts(o, e.key, colon);
    KeyRoundTrip(o, e.key, colon);
    if !ReadableKey(o, e.key) {
      EntryFails(o, pre, s, acc);
    } else {
      FreshKey(acc, es);
      CoreReads(o, indent, e.value, behind);
      EntryStep(o, pre, s, acc, e.key, colon, value);
      if Readable(o, e.value) { EntriesReadNext(o, indent, es, longest, tail, acc); }
    }
  }

  lemma FreshKey(acc: seq<Entry>, es: seq<Entry>)
    requires es != [] && UniqueKeys(acc + es)
    ensures !HasKey(acc, es[0].key)
  {
    forall i | 0 <= i < |acc| ensures acc[i].key != es[0].key {
      assert (acc + es)[i] == acc[i] && (acc + es)[|acc|] == es[0];
    }
  }

  /** The entries behind a first one that has been read. */
  lemma {:induction false} EntriesReadNext(o: Options, indent: nat, es: seq<Entry>, longest: nat, tail: string, acc: seq<Entry>)
    requires o.Valid() && Follows(EntryEnd(o, true) + tail) && es != []
    requires (forall e :: e in es ==> WellFormed(e.value)) && UniqueKeys(acc + es)
    requires ReadableKey(o, es[0].key) && Readable(o, es[0].value)
    ensures var r := MoreEntries(o, AfterValue(o, BehindEntry(o, indent, es, longest, tail), '}', o.objectOmitComma, o.objectTrailingComma), acc + [Entry(es[0].key, es[0].value)]);
            if EntriesReadable(o, es)
            then r == MoreEntries(o, AfterValue(o, EntryEnd(o, true) + tail, '}', o.objectOmitComma, o.objectTrailingComma), acc + es)
            else r.Err?
    decreases es, 0
  {
    hide ParseMembers, ValueText, ColonText, KeyText, AfterValue, Readable, ReadableKey, WellFormed, EntryEnd, Follows;
    var e := es[0];
    var acc' := acc + [e];
    assert acc' + es[1..] == acc + es;
    EntryEndIs(o, |es| == 1);
    if |es| == 1 {
      assert acc' == acc + es;
    } else {
      var rest := EntriesRun(o, indent, es[1..], longest, tail);
      var comma, gap := o.Compact() || !o.arrayOmitComma, if o.Compact() then "" else "\n";
      IndentIsWhite(o, indent);
      EntriesRunStarts(o, indent, es[1..], longest, tail);
      assert EntryEnd(o, false) + (Indent(o, indent) + rest) == Comma(comma) + (gap + Indent(o, indent)) + rest;
      var left := AfterBetween(o, comma, gap + Indent(o, indent), rest, '}', o.objectOmitComma, o.objectTrailingComma);
      if comma || o.objectOmitComma {
        EntriesReadTo(o, indent, es[1..], longest, left, tail, acc');
        assert forall x :: x in es <==> x == e || x in es[1..];
      }
    }
  }

  lemma EntriesRunStarts(o: Options, indent: nat, es: seq<Entry>, longest: nat, tail: string)
    requires o.Valid() && es != [] && WellFormed(es[0].value) && Follows(EntryEnd(o, true) + tail)
    ensures Starts(EntriesRun(o, indent, es, longest, tail))
  {
    hide KeyText, ColonText, ValueText, BehindEntry;
    var behind := BehindEntry(o, indent, es, longest, tail);
    BehindEntryFollows(o, indent, es, longest, tail);
    ValueStarts(o, indent, es[0].value, behind);
    ColonReads(o, es[0], longest, ValueText(o, indent, es[0].value) + behind);
    KeyStarts(o, es[0].key, BehindKey(o, indent, es, longest, tail));
  }

  /** And up to the closing brace. */
  lemma {:induction false} EntriesRead(o: Options, indent: nat, es: seq<Entry>, longest: nat, pre: string, post: string, suf: string, acc: seq<Entry>)
    requires o.Valid() && White(pre) && White(post) && es != []
    requires (forall e :: e in es ==> WellFormed(e.value)) && UniqueKeys(acc + es)
    ensures var r := ParseMembers(o, pre + EntriesRun(o, indent, es, longest, post + ("}" + suf)), acc);
            if EntriesReadable(o, es) then r == Ok(acc + es, "}" + suf) else r.Err?
    decreases es, 2
  {
    hide ParseMembers, ParseCore, ValueText, AfterValue, Readable, WellFormed, EntriesRun, EntryEnd, EntriesReadable;
    var end := "}" + suf;
    EntryEndIs(o, true);
    WhiteFollows(EntryEnd(o, true) + post, end);
    assert EntryEnd(o, true) + (post + end) == (EntryEnd(o, true) + post) + end;
    EntriesReadTo(o, indent, es, longest, pre, post + end, acc);
    AfterLast(o, EntryEnd(o, true) + post, end, '}', o.objectOmitComma, o.objectTrailingComma);
    NoMoreEntries(o, "", end, acc + es);
    assert "" + end == end;
  }

  lemma ObjectTextIs(o: Options, indent: nat, es: seq<Entry>, suf: string)
    requires es != []
    ensures ValueText(o, indent, Object(es)) + suf ==
            "{" + (ObjectLead(o, indent) + EntriesRun(o, indent + 1, es, LongestKey(es), Indent(o, indent) + ("}" + suf)))
  {
    hide EntriesRun, EntriesText, Indent, LongestKey, ValueText;
    var post, longest := Indent(o, indent), LongestKey(es);
    EntriesTextRuns(o, indent + 1, es, longest, post + ("}" + suf));
    var it, pre := EntriesText(o, indent + 1, es, longest), if o.Compact() then "" else "\n";
    ObjectOpen(o, indent, es);
    Bracketed("{", pre, it, Indent(o, indent + 1), EntriesRun(o, indent + 1, es, longest, post + ("}" + suf)), post, "}", suf);
  }

  lemma ObjectOpen(o: Options, indent: nat, es: seq<Entry>)
    requires es != []
    ensures ValueText(o, indent, Object(es)) ==
            "{" + (if o.Compact() then "" else "\n") + EntriesText(o, indent + 1, es, LongestKey(es)) + (Indent(o, indent) + "}")
  {
    hide EntriesText, Indent, LongestKey;
    var it, post := EntriesText(o, indent + 1, es, LongestKey(es)), Indent(o, indent);
    assert "{" + it + post + "}" == "{" + "" + it + (post + "}");
    assert "{\n" + it + post + "}" == "{" + "\n" + it + (post + "}");
  }

  lemma WellFormedEntries(es: seq<Entry>)
    ensures WellFormed(Object(es)) ==> UniqueKeys(es) && forall e :: e in es ==> WellFormed(e.value)
  {
  }

  lemma {:induction false} ObjectReads(o: Options, indent: nat, v: Value, suf: string)
    requires o.Valid() && WellFormed(v) && v.Object? && Follows(suf)
    ensures var r := ParseCore(o, ValueText(o, indent, v) + suf);
            if Readable(o, v) then r == Ok(v, suf) else r.Err?
    decreases v, -1
  {
    hide ValueText, EntriesRun, Indent, LongestKey, WellFormed, ParseMembers, ParseCore, Readable, EntriesReadable, White;
    var es := v.entries;
    assert v == Object(es);
    ReadableEntries(o, es);
    if es == [] {
      EmptyObjectReads(o, indent, suf);
      NoEntriesReadable(o);
    } else {
      var pre := ObjectLead(o, indent);
      LeadIsWhite(o, indent);
      WellFormedEntries(es);
      ObjectTextIs(o, indent, es, suf);
      assert [] + es == es;
      EntriesRead(o, indent + 1, es, LongestKey(es), pre, Indent(o, indent), suf, []);
      BraceReads(o, pre + EntriesRun(o, indent + 1, es, LongestKey(es), Indent(o, indent) + ("}" + suf)), es, suf);
    }
  }

  lemma NoEntriesReadable(o: Options)
    ensures EntriesReadable(o, [])
  {
  }

  function ObjectLead(o: Options, indent: nat): string {
    (if o.Compact() then "" else "\n") + Indent(o, indent + 1)
  }

  lemma LeadIsWhite(o: Options, indent: nat)
    requires o.Valid()
    ensures White(ObjectLead(o, indent)) && White(Indent(o, indent))
  {
    IndentIsWhite(o, indent);
    IndentIsWhite(o, indent + 1);
  }

  lemma ReadableEntries(o: Options, es: seq<Entry>)
    ensures Readable(o, Object(es)) <==> EntriesReadable(o, es)
  {
  }

  lemma BraceReads(o: Options, body: string, es: seq<Entry>, suf: string)
    ensures ParseMembers(o, body, []) == Ok(es, "}" + suf) ==> ParseCore(o, "{" + body) == Ok(Object(es), suf)
    ensures ParseMembers(o, body, []).Err? ==> ParseCore(o, "{" + body).Err?
  {
    hide ParseMembers, ParseElements, ParseString, ParseFiniteNumber, ParseWord;
    assert ("{" + body)[1..] == body;
    assert ("}" + suf)[1..] == suf;
  }

  lemma EmptyObjectReads(o: Options, indent: nat, suf: string)
    requires o.Valid()
    ensures ParseCore(o, ValueText(o, indent, Object([])) + suf) == Ok(Object([]), suf)
  {
    var ws := if o.Compact() then "" else " ";
    assert ValueText(o, indent, Object([])) + suf == "{" + (ws + ("}" + suf));
    hide ValueText, ParseMembers, ParseCore;
    NoMoreEntries(o, ws, "}" + suf, []);
    BraceReads(o, ws + ("}" + suf), [], suf);
  }

  // ---- Whole texts ----------------------------------------------------------------------------------------

  /** Whatever the layout, a dumped tree is parsed as the same tree, to the end of the text; and exactly if
      it holds nothing unreadable. */
  lemma DumpRoundTrip(o: Options, v: Value)
    requires o.Valid() && WellFormed(v)
    ensures if Readable(o, v) then ParseText(o, Dump(o, v)) == Ok(v, "") else ParseText(o, Dump(o, v)).Err?
  {
    hide ParseElements, ParseCore, ValueText, AfterValue, Readable, WellFormed;
    var end := if o.endWithNewline && !o.Compact() then "\n" else "";
    var s := ValueText(o, 0, v) + end;
    ValueStarts(o, 0, v, end);
    CoreReads(o, 0, v, end);
    assert "" + s == s;
    ElementStep(o, "", s, []);
    assert end + "" == end;
    AfterLast(o, end, "", ']', o.arrayOmitComma, o.arrayTrailingComma);
    NoMoreElements(o, "", "", [v]);
    assert [] + [v] == [v];
  }
}
