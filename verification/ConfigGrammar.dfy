/** What the parser of configuru.hpp accepts, as functions on the text that is left. A result is the value
    and the text behind it, or the text at which the error is reported. */
module ConfigGrammar {
  import opened ConfigText
  import opened ConfigUtf8

  // ---- White space ------------------------------------------------------------------------------------

  /** skip_white: was anything skipped? With `breakOnNewline` the first newline ends the skipping. */
  function SkipWhite(o: Options, s: string, breakOnNewline: bool): (r: Parsed<bool>)
    ensures r.Ok? ==> |r.rest| <= |s| && (r.value <==> r.rest != s) && (r.value <==> |r.rest| < |s|)
    decreases |s|, 0
  {
    if !MaybeWhite(Peek(s, 0)) then Ok(false, s)
    else if s[0] == '\n' then AfterNewline(o, s[1..], breakOnNewline)
    else if s[0] == '\r' then
      if Peek(s, 1) == '\n' then AfterNewline(o, s[2..], breakOnNewline) else Err(s)
    else if o.indentation != "" && LooksAt(s, o.indentation) then
      var (_, rest) :- SkipWhite(o, s[|o.indentation|..], breakOnNewline);
      Ok(true, rest)
    else if s[0] == '\t' || s[0] == ' ' then
      var (_, rest) :- SkipWhite(o, s[1..], breakOnNewline);
      Ok(true, rest)
    else if Peek(s, 1) == '/' then Err(s)
    else if Peek(s, 1) == '*' then Err(s)
    else Ok(false, s)
  }

  function AfterNewline(o: Options, s: string, breakOnNewline: bool): (r: Parsed<bool>)
    ensures r.Ok? ==> |r.rest| <= |s| && r.value
    decreases |s|, 1
  {
    if breakOnNewline then Ok(true, s)
    else
      var (_, rest) :- SkipWhite(o, s, false);
      Ok(true, rest)
  }

  /** The outcome of a skipping that goes on behind something skipped already. */
  function Skipped(r: Parsed<bool>): Parsed<bool> {
    if r.Ok? then Ok(true, r.rest) else r
  }

  // ---- Strings ----------------------------------------------------------------------------------------

  /** One escape sequence, behind its backslash: the bytes it stands for. */
  function ParseEscape(o: Options, s: string): (r: Parsed<string>)
    ensures r.Ok? ==> |r.rest| < |s|
  {
    var c := Peek(s, 0);
    if c == '"' || c == '\\' || c == '/' then Ok([c], s[1..])
    else if c == 'b' then Ok([BACKSPACE], s[1..])
    else if c == 'f' then Ok([FORM_FEED], s[1..])
    else if c == 'n' then Ok("\n", s[1..])
    else if c == 'r' then Ok("\r", s[1..])
    else if c == 't' then Ok("\t", s[1..])
    else if c == 'u' then
      var (unit, rest) :- ParseHex(s[1..], 4);
      if HighSurrogate(unit) then
        if !(Peek(rest, 0) == '\\' && Peek(rest, 1) == 'u') then Err(rest)
        else
          var (low, rest2) :- ParseHex(rest[2..], 4);
          if !LowSurrogate(low) then Err(rest2) else Ok(EncodeUtf8(Combine(unit, low)), rest2)
      else if EncodeUtf8(unit) == "" then Err(rest)
      else Ok(EncodeUtf8(unit), rest)
    else if c == 'U' then
      if !o.str32bitUnicode then Err(s)
      else
        var (code, rest) :- ParseHex(s[1..], 8);
        if EncodeUtf8(code) == "" then Err(rest) else Ok(EncodeUtf8(code), rest)
    else Err(s)
  }

  /** The characters of a quoted string up to the closing quote. An unterminated string is reported at its
      start. */
  function ParseChars(o: Options, s: string, start: string, acc: string): (r: Parsed<string>)
    ensures r.Ok? ==> |r.rest| < |s|
    decreases |s|
  {
    var c := Peek(s, 0);
    if c == NUL then Err(start)
    else if c == '"' then Ok(acc, s[1..])
    else if c == '\n' then Err(s)
    else if c == '\t' && !o.strAllowTab then Err(s)
    else if c == '\\' then
      var (x, rest) :- ParseEscape(o, s[1..]);
      ParseChars(o, rest, start, acc + x)
    else ParseChars(o, s[1..], start, acc + [c])
  }

  /** The characters of a triple-quoted string, up to three quotes that no fourth follows. */
  function ParseMultiline(s: string, start: string, acc: string): (r: Parsed<string>)
    ensures r.Ok? ==> |r.rest| < |s|
    decreases |s|
  {
    if Peek(s, 0) == NUL || Peek(s, 1) == NUL || Peek(s, 2) == NUL then Err(start)
    else if LooksAt(s, "\"\"\"") && Peek(s, 3) != '"' then Ok(acc, s[3..])
    else ParseMultiline(s[1..], start, acc + [s[0]])
  }

  function ParseString(o: Options, s: string): (r: Parsed<string>)
    ensures r.Ok? ==> |r.rest| < |s|
  {
    if Peek(s, 0) != '"' then Err(s)
    else if Peek(s, 1) == '"' && Peek(s, 2) == '"' then
      if !o.strPythonMultiline then Err(s) else ParseMultiline(s[3..], s, "")
    else ParseChars(o, s[1..], s, "")
  }

  // ---- Numbers ----------------------------------------------------------------------------------------

  const MIN_INT := -0x8000_0000_0000_0000
  const MAX_INT := 0x7FFF_FFFF_FFFF_FFFF

  /** The digits at the front of `s`. */
  function Digits(s: string): (ds: string)
    ensures ds <= s && forall i :: 0 <= i < |ds| ==> IsDigit(ds[i])
    ensures !IsDigit(Peek(s, |ds|))
  {
    if s != [] && IsDigit(s[0]) then [s[0]] + Digits(s[1..]) else []
  }

  function Pow10(n: nat): (p: nat)
    ensures p > 0
  {
    if n == 0 then 1 else 10 * Pow10(n - 1)
  }

  function DigitOf(c: char): (d: nat)
    requires IsDigit(c)
    ensures d < 10
  {
    c as int - '0' as int
  }

  /** The number a string of decimal digits denotes. */
  function Denotes(ds: string): nat
    requires forall i :: 0 <= i < |ds| ==> IsDigit(ds[i])
  {
    if ds == [] then 0 else DigitOf(ds[0]) * Pow10(|ds| - 1) + Denotes(ds[1..])
  }

  predicate IsSign(c: char) {
    c == '+' || c == '-'
  }

  /** strtoll in base 10, for text that does not start with white space: what it returns and how many
      characters it takes. */
  function Strtoll(s: string): (r: (int, nat))
    ensures r.1 <= |s|
  {
    var signed := if IsSign(Peek(s, 0)) then 1 else 0;
    var ds := Digits(s[signed..]);
    if ds == [] then (0, 0)
    else
      var n: int := if Peek(s, 0) == '-' then 0 - Denotes(ds) else Denotes(ds);
      (if n < MIN_INT then MIN_INT else if n > MAX_INT then MAX_INT else n, signed + |ds|)
  }

  /** How many characters strtod takes of a decimal literal. */
  function StrtodLength(s: string): (n: nat)
    ensures n <= |s|
  {
    var signed := if IsSign(Peek(s, 0)) then 1 else 0;
    var whole := Digits(s[signed..]);
    var p := signed + |whole|;
    var (q, frac) := if Peek(s, p) == '.' then (p + 1 + |Digits(s[p + 1..])|, |Digits(s[p + 1..])|) else (p, 0);
    if |whole| + frac == 0 then 0
    else if Peek(s, q) != 'e' && Peek(s, q) != 'E' then q
    else
      var x := if IsSign(Peek(s, q + 1)) then q + 2 else q + 1;
      var ex := Digits(s[x..]);
      if ex == [] then q else x + |ex|
  }

  function ParseInt(s: string): (r: Parsed<Value>)
    ensures r.Ok? ==> |r.rest| < |s|
  {
    var (n, used) := Strtoll(s);
    if used == 0 then Err(s)
    else if s[0] == '0' && n != 0 then Err(s[used..])
    else Ok(Int(n), s[used..])
  }

  function ParseFloat(s: string): (r: Parsed<Value>)
    ensures r.Ok? ==> |r.rest| < |s|
  {
    var n := StrtodLength(s);
    if n == 0 then Err(s) else Ok(Float(s[..n]), s[n..])
  }

  /** The first place where two strings of digits differ decides. */
  function CompareDigits(a: string, b: string): int
    requires |a| == |b|
  {
    if a == [] then 0 else if a[0] > b[0] then 1 else if a[0] < b[0] then -1 else CompareDigits(a[1..], b[1..])
  }

  function MaxIntDigits(negative: bool): (ds: string)
    ensures |ds| == 19
  {
    if negative then "9223372036854775808" else "9223372036854775807"
  }

  /** parse_finite_number: an integer if it has no fraction or exponent and fits 64 bits. */
  function ParseFiniteNumber(o: Options, s: string): (r: Parsed<Value>)
    ensures r.Ok? ==> |r.rest| < |s|
  {
    if Peek(s, 0) == '+' && !o.unaryPlus then Err(s)
    else
      var s1 := if Peek(s, 0) == '+' then s[1..] else s;
      var negative := Peek(s1, 0) == '-';
      var s2 := if negative then s1[1..] else s1;
      if IsSign(Peek(s2, 0)) then Err(s2)
      else if LooksAt(s2, "0x") || LooksAt(s2, "0b") then Err(s2)
      else
        var ds := Digits(s2);
        var next := Peek(s2, |ds|);
        if next == '.' || next == 'e' || next == 'E' then ParseFloat(s)
        else if |ds| < 19 then ParseInt(s)
        else if |ds| > 19 then ParseFloat(s)
        else if CompareDigits(ds, MaxIntDigits(negative)) > 0 then ParseFloat(s)
        else ParseInt(s)
  }

  // ---- Values -----------------------------------------------------------------------------------------

  function HasKey(entries: seq<Entry>, key: string): bool {
    exists i :: 0 <= i < |entries| && entries[i].key == key
  }

  /** Config::emplace: a key that is there already keeps its value. */
  function Emplace(entries: seq<Entry>, key: string, value: Value): seq<Entry> {
    if HasKey(entries, key) then entries else entries + [Entry(key, value)]
  }

  /** One of the words null, true and false. */
  function ParseWord(s: string, word: string, v: Value): (r: Parsed<Value>)
    requires word != ""
    ensures r.Ok? ==> |r.rest| < |s|
  {
    if LooksAt(s, word) && !IdentChar(Peek(s, |word|)) then Ok(v, s[|word|..]) else Err(s)
  }

  /** What follows an element or an entry: an optional comma, if none is left out that must be there. */
  function ParseSeparator(o: Options, s: string, closer: char, omitComma: bool, trailingComma: bool, separated: bool): (r: Parsed<()>)
    ensures r.Ok? ==> |r.rest| <= |s|
  {
    var (_, s1) :- SkipWhite(o, s, false);
    var comma := Peek(s1, 0) == ',';
    var (_, s2) :- if comma then SkipWhite(o, s1[1..], true) else Ok(false, s1);
    if Peek(s2, 0) == NUL || Peek(s2, 0) == closer then
      if comma && !trailingComma then Err(s1) else Ok((), s2)
    else if if omitComma then comma || separated else comma then Ok((), s2)
    else Err(s2)
  }

  function IdentPrefix(s: string): (w: string)
    ensures w <= s
  {
    if s != [] && IdentChar(s[0]) then [s[0]] + IdentPrefix(s[1..]) else []
  }

  function ParseKey(o: Options, s: string): (r: Parsed<string>)
    ensures r.Ok? ==> |r.rest| < |s|
  {
    if IdentStarter(Peek(s, 0)) && !Reserved(s) then
      if !o.identifiersKeys then Err(s) else Ok(IdentPrefix(s), s[|IdentPrefix(s)|..])
    else ParseString(o, s)
  }

  /** The sign between key and value. */
  function ParseColon(o: Options, s: string): (r: Parsed<()>)
    ensures r.Ok? ==> |r.rest| <= |s|
  {
    var (spaceAfterKey, s1) :- SkipWhite(o, s, false);
    if Peek(s1, 0) == ':' || (o.objectSeparatorEqual && Peek(s1, 0) == '=') then
      if !(o.allowSpaceBeforeColon || Peek(s1, 0) != ':' || !spaceAfterKey) then Err(s1)
      else
        var (_, s2) :- SkipWhite(o, s1[1..], false);
        Ok((), s2)
    else if o.omitColonBeforeObject && (Peek(s1, 0) == '{' || Peek(s1, 0) == '#') then Ok((), s1)
    else Err(s1)
  }

  /** A value without the white space around it. */
  function ParseCore(o: Options, s: string): (r: Parsed<Value>)
    ensures r.Ok? ==> |r.rest| < |s|
    decreases |s|, 1
  {
    var c := Peek(s, 0);
    if c == '"' || c == '@' then
      var (x, rest) :- ParseString(o, s);
      Ok(Str(x), rest)
    else if c == 'n' then ParseWord(s, "null", Null)
    else if c == 't' then ParseWord(s, "true", Bool(true))
    else if c == 'f' then ParseWord(s, "false", Bool(false))
    else if c == '{' then
      var (entries, rest) :- ParseMembers(o, s[1..], []);
      if Peek(rest, 0) == '}' then Ok(Object(entries), rest[1..]) else Err(s)
    else if c == '[' then
      var (items, rest) :- ParseElements(o, s[1..], []);
      if Peek(rest, 0) == ']' then Ok(Array(items), rest[1..]) else Err(s)
    else if c == '#' then Err(s)
    else if c == '+' || c == '-' || c == '.' || IsDigit(c) then
      if LooksAt(s, "-inf") || LooksAt(s, "+inf") || LooksAt(s, "+NaN") then Err(s) else ParseFiniteNumber(o, s)
    else Err(s)
  }

  /** parse_value: the value, and whether white space followed it on the line. */
  function ParseValue(o: Options, s: string): (r: Parsed<(Value, bool)>)
    ensures r.Ok? ==> |r.rest| < |s|
    decreases |s|, 2
  {
    var (_, s1) :- SkipWhite(o, s, false);
    var (v, s2) :- ParseCore(o, s1);
    var (separated, s3) :- SkipWhite(o, s2, true);
    Ok((v, separated), s3)
  }

  /** parse_array_contents. */
  function ParseElements(o: Options, s: string, acc: seq<Value>): (r: Parsed<seq<Value>>)
    ensures r.Ok? ==> |r.rest| <= |s|
    decreases |s|, 3
  {
    var (_, s1) :- SkipWhite(o, s, false);
    if Peek(s1, 0) == ']' || Peek(s1, 0) == NUL then Ok(acc, s1)
    else if IdentStarter(Peek(s1, 0)) && !Reserved(s1) then Err(s1)
    else
      var (v, s2) :- ParseValue(o, s1);
      var (_, s3) :- ParseSeparator(o, s2, ']', o.arrayOmitComma, o.arrayTrailingComma, v.1);
      ParseElements(o, s3, acc + [v.0])
  }

  /** parse_object_contents. */
  function ParseMembers(o: Options, s: string, acc: seq<Entry>): (r: Parsed<seq<Entry>>)
    ensures r.Ok? ==> |r.rest| <= |s|
    decreases |s|, 3
  {
    var (_, s1) :- SkipWhite(o, s, false);
    if Peek(s1, 0) == '}' || Peek(s1, 0) == NUL then Ok(acc, s1)
    else
      var (key, s2) :- ParseKey(o, s1);
      if !o.objectDuplicateKeys && HasKey(acc, key) then Err(s1)
      else
        var (_, s3) :- ParseColon(o, s2);
        var (v, s4) :- ParseValue(o, s3);
        var (_, s5) :- ParseSeparator(o, s4, '}', o.objectOmitComma, o.objectTrailingComma, v.1);
        ParseMembers(o, s5, Emplace(acc, key, v.0))
  }

  /** top_level, for a text that is a value or, if several are allowed, several. */
  function ParseText(o: Options, s: string): Parsed<Value> {
    var (items, s1) :- ParseElements(o, s, []);
    if |items| > 1 && !o.implicitTopArray then Err(s1)
    else
      var (_, s2) :- SkipWhite(o, s1, true);
      if Peek(s2, 0) != NUL then Err(s2)
      else if items == [] then if o.emptyFile then Ok(Object([]), s2) else Err(s2)
      else if |items| == 1 then Ok(items[0], s2)
      else Ok(Array(items), s2)
  }

  // ---- Single rounds of the loops ---------------------------------------------------------------------

  /** One round of the loop over elements. */
  lemma ElementsRound(o: Options, s: string, acc: seq<Value>)
    ensures ParseElements(o, s, acc) ==
            (var (_, s1) :- SkipWhite(o, s, false);
             if Peek(s1, 0) == ']' || Peek(s1, 0) == NUL then Ok(acc, s1)
             else if IdentStarter(Peek(s1, 0)) && !Reserved(s1) then Err(s1)
             else
               var (v, s2) :- ParseValue(o, s1);
               var (_, s3) :- ParseSeparator(o, s2, ']', o.arrayOmitComma, o.arrayTrailingComma, v.1);
               ParseElements(o, s3, acc + [v.0]))
  {
    hide SkipWhite, ParseValue, ParseSeparator, Reserved;
  }

  /** What the loop over entries does behind a key. */
  function AfterKey(o: Options, s: string): (r: Parsed<Value>)
    ensures r.Ok? ==> |r.rest| < |s|
  {
    var (_, s3) :- ParseColon(o, s);
    var (v, s4) :- ParseValue(o, s3);
    var (_, s5) :- ParseSeparator(o, s4, '}', o.objectOmitComma, o.objectTrailingComma, v.1);
    Ok(v.0, s5)
  }

  /** One round of the loop over entries. */
  lemma MembersRound(o: Options, s: string, acc: seq<Entry>)
    ensures ParseMembers(o, s, acc) ==
            (var (_, s1) :- SkipWhite(o, s, false);
             if Peek(s1, 0) == '}' || Peek(s1, 0) == NUL then Ok(acc, s1)
             else
               var (key, s2) :- ParseKey(o, s1);
               if !o.objectDuplicateKeys && HasKey(acc, key) then Err(s1)
               else
                 var (v, s5) :- AfterKey(o, s2);
                 ParseMembers(o, s5, Emplace(acc, key, v)))
  {
    hide SkipWhite, ParseKey, ParseColon, ParseValue, ParseSeparator, Emplace, HasKey;
  }
}
