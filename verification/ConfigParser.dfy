/** The parser of configuru.hpp as it is written: a pointer that moves over the text in loops, with the line
    number and the start of the line kept beside it. Every method is proved against ConfigGrammar. */
module ConfigParser {
  import opened ConfigText
  import U = ConfigUtf8
  import G = ConfigGrammar

  datatype ParseError = ParseError(line: nat, column: nat)

  datatype Result<+T> = Success(value: T) | Failure(error: ParseError)
  {
    predicate IsFailure() { Failure? }
    function PropagateFailure<U>(): Result<U> requires Failure? { Failure(error) }
    function Extract(): T requires Success? { value }
  }

  // ---- Lines ------------------------------------------------------------------------------------------

  /** The number of the line that position `p` is on. */
  function LineOf(text: string, p: nat): nat
    requires p <= |text|
  {
    if p == 0 then 1 else LineOf(text, p - 1) + if text[p - 1] == '\n' then 1 else 0
  }

  /** Where that line starts. */
  function LineStart(text: string, p: nat): (start: nat)
    requires p <= |text|
    ensures start <= p
  {
    if p == 0 then 0 else if text[p - 1] == '\n' then p else LineStart(text, p - 1)
  }

  /** It is just behind the last newline. */
  lemma {:induction false} LineStartMeans(text: string, p: nat)
    requires p <= |text|
    ensures var start := LineStart(text, p);
            (start == 0 || text[start - 1] == '\n') && forall i :: start <= i < p ==> text[i] != '\n'
    decreases p
  {
    if p > 0 && text[p - 1] != '\n' { LineStartMeans(text, p - 1); }
  }

  /** Lines are counted from one. */
  lemma {:induction false} LineOfCounts(text: string, p: nat)
    requires p <= |text|
    ensures LineOf(text, p) == 1 + |set i | 0 <= i < p && text[i] == '\n'|
    decreases p
  {
    var before := set i | 0 <= i < p && text[i] == '\n';
    if p == 0 {
      assert before == {};
    } else {
      LineOfCounts(text, p - 1);
      var shorter := set i | 0 <= i < p - 1 && text[i] == '\n';
      assert before == if text[p - 1] == '\n' then shorter + {p - 1} else shorter;
    }
  }

  lemma {:induction false} SameLine(text: string, p: nat, q: nat)
    requires p <= q <= |text| && forall i :: p <= i < q ==> text[i] != '\n'
    ensures LineOf(text, q) == LineOf(text, p) && LineStart(text, q) == LineStart(text, p)
    decreases q
  {
    if p < q { SameLine(text, p, q - 1); }
  }

  /** Line and column, both counted from one. */
  function ErrorAt(text: string, p: nat): ParseError
    requires p <= |text|
  {
    ParseError(LineOf(text, p), p - LineStart(text, p) + 1)
  }

  // ---- Single rounds of the loops ---------------------------------------------------------------------

  lemma WhiteRound(o: Options, s: string, breakOnNewline: bool)
    ensures G.SkipWhite(o, s, breakOnNewline) ==
            if !MaybeWhite(Peek(s, 0)) then Ok(false, s)
            else if s[0] == '\n' then if breakOnNewline then Ok(true, s[1..]) else G.Skipped(G.SkipWhite(o, s[1..], false))
            else if s[0] == '\r' && Peek(s, 1) != '\n' then Err(s)
            else if s[0] == '\r' then if breakOnNewline then Ok(true, s[2..]) else G.Skipped(G.SkipWhite(o, s[2..], false))
            else if o.indentation != "" && LooksAt(s, o.indentation) then G.Skipped(G.SkipWhite(o, s[|o.indentation|..], breakOnNewline))
            else if s[0] == '\t' || s[0] == ' ' then G.Skipped(G.SkipWhite(o, s[1..], breakOnNewline))
            else if Peek(s, 1) == '/' || Peek(s, 1) == '*' then Err(s)
            else Ok(false, s)
  {
  }

  lemma HexRound(s: string, count: nat, acc: nat)
    requires count > 0
    ensures var d := U.HexDigit(Peek(s, 0));
            U.HexValue(s, count, acc) == if d < 0 then -1 else U.HexValue(s[1..], count - 1, acc * 16 + d)
    ensures U.HexDigit(Peek(s, 0)) >= 0 ==> s != [] && s[0] != '\n'
  {
  }

  lemma HexDone(s: string, n: nat)
    ensures U.HexValue(s, 0, n) == n
  {
  }

  /** The character a simple escape sequence stands for. */
  function Meaning(c: char): char {
    if c == 'b' then BACKSPACE else if c == 'f' then FORM_FEED else if c == 'n' then '\n' else if c == 'r' then '\r' else if c == 't' then '\t' else c
  }

  /** The part of an escape sequence behind its u. */
  function UnitSpec(o: Options, s: string): Parsed<string> {
    var (unit, rest) :- U.ParseHex(s, 4);
    if U.HighSurrogate(unit) then
      if !(Peek(rest, 0) == '\\' && Peek(rest, 1) == 'u') then Err(rest)
      else
        var (low, rest2) :- U.ParseHex(rest[2..], 4);
        if !U.LowSurrogate(low) then Err(rest2) else Ok(U.EncodeUtf8(U.Combine(unit, low)), rest2)
    else if U.EncodeUtf8(unit) == "" then Err(rest)
    else Ok(U.EncodeUtf8(unit), rest)
  }

  lemma PairEncodes(high: nat, low: nat)
    requires U.HighSurrogate(high) && U.LowSurrogate(low)
    ensures U.Combine(high, low) >= 0 && U.EncodeUtf8(U.Combine(high, low)) != ""
  {
  }

  lemma CharsRound(o: Options, s: string, start: string, acc: string)
    ensures G.ParseChars(o, s, start, acc) ==
            if Peek(s, 0) == NUL then Err(start)
            else if s[0] == '"' then Ok(acc, s[1..])
            else if s[0] == '\n' || (s[0] == '\t' && !o.strAllowTab) then Err(s)
            else if s[0] == '\\' then
              var e := G.ParseEscape(o, s[1..]);
              if e.Err? then e else G.ParseChars(o, e.rest, start, acc + e.value)
            else G.ParseChars(o, s[1..], start, acc + [s[0]])
  {
    hide G.ParseEscape;
  }

  lemma MultilineRound(s: string, start: string, acc: string)
    ensures G.ParseMultiline(s, start, acc) ==
            if Peek(s, 0) == NUL || Peek(s, 1) == NUL || Peek(s, 2) == NUL then Err(start)
            else if Peek(s, 0) == '"' && Peek(s, 1) == '"' && Peek(s, 2) == '"' && Peek(s, 3) != '"' then Ok(acc, s[3..])
            else G.ParseMultiline(s[1..], start, acc + [s[0]])
  {
    assert LooksAt(s, "\"\"\"") <==> Peek(s, 0) == '"' && Peek(s, 1) == '"' && Peek(s, 2) == '"';
  }

  lemma DigitsRound(s: string)
    ensures |G.Digits(s)| == if s != [] && IsDigit(s[0]) then 1 + |G.Digits(s[1..])| else 0
  {
  }

  lemma CompareRound(a: string, b: string)
    requires |a| == |b|
    ensures G.CompareDigits(a, b) ==
            if a == [] then 0 else if a[0] > b[0] then 1 else if a[0] < b[0] then -1 else G.CompareDigits(a[1..], b[1..])
  {
  }

  lemma PrefixRound(s: string)
    ensures G.IdentPrefix(s) == if s != [] && IdentChar(s[0]) then [s[0]] + G.IdentPrefix(s[1..]) else []
  {
  }

  /** A number does not reach beyond its line. */
  lemma StrtollTakes(s: string)
    ensures forall i :: 0 <= i < G.Strtoll(s).1 ==> s[i] != '\n'
  {
    hide G.Digits;
    var signed := if G.IsSign(Peek(s, 0)) then 1 else 0;
    var ds := G.Digits(s[signed..]);
    forall i | 0 <= i < G.Strtoll(s).1 ensures s[i] != '\n' {
      if i >= signed { assert s[i] == ds[i - signed]; }
    }
  }

  lemma NoNewline(s: string, from: nat)
    requires from <= |s|
    ensures forall i :: from <= i < from + |G.Digits(s[from..])| ==> s[i] != '\n'
  {
    forall i | from <= i < from + |G.Digits(s[from..])| ensures s[i] != '\n' { assert s[i] == G.Digits(s[from..])[i - from]; }
  }

  lemma StrtodTakes(s: string)
    ensures forall i :: 0 <= i < G.StrtodLength(s) ==> s[i] != '\n'
  {
    hide G.Digits;
    var signed := if G.IsSign(Peek(s, 0)) then 1 else 0;
    NoNewline(s, signed);
    var p := signed + |G.Digits(s[signed..])|;
    if Peek(s, p) == '.' { NoNewline(s, p + 1); }
    var q := if Peek(s, p) == '.' then p + 1 + |G.Digits(s[p + 1..])| else p;
    if Peek(s, q) == 'e' || Peek(s, q) == 'E' {
      var x := if G.IsSign(Peek(s, q + 1)) then q + 2 else q + 1;
      NoNewline(s, x);
    }
  }

  predicate FloatLiteral(s: string, negative: bool) {
    var ds := G.Digits(s);
    Peek(s, |ds|) in {'.', 'e', 'E'} || |ds| > 19 || (|ds| == 19 && G.CompareDigits(ds, G.MaxIntDigits(negative)) > 0)
  }

  lemma FiniteNumberIs(o: Options, s: string)
    ensures var s1 := if Peek(s, 0) == '+' then s[1..] else s;
            var negative := Peek(s1, 0) == '-';
            var s2 := if negative then s1[1..] else s1;
            G.ParseFiniteNumber(o, s) ==
            if Peek(s, 0) == '+' && !o.unaryPlus then Err(s)
            else if Peek(s2, 0) == '+' || Peek(s2, 0) == '-' || LooksAt(s2, "0x") || LooksAt(s2, "0b") then Err(s2)
            else if FloatLiteral(s2, negative) then G.ParseFloat(s) else G.ParseInt(s)
  {
    hide G.ParseInt, G.ParseFloat, G.Digits, G.CompareDigits, G.MaxIntDigits, LooksAt;
  }

  predicate Special(c: char) {
    c == NUL || c == '\\' || c == '"' || c == '\n' || c == '\t'
  }

  function Appended(str: string, r: Parsed<string>): Parsed<string> {
    if r.Ok? then Ok(str + r.value, r.rest) else r
  }

  /** encode_utf8 appends to a string and tells how many bytes it wrote. */
  method AppendUtf8(dst: string, c: nat) returns (out: string, written: nat)
    ensures out == dst + U.EncodeUtf8(c) && written == |U.EncodeUtf8(c)|
  {
    hide U.Byte, U.Continue;
    if c <= 0x7F {
      out := dst + [U.Byte(c)];
      written := 1;
    } else if c <= 0x7FF {
      out := dst + [U.Byte(0xC0 + c / 0x40)];
      out := out + [U.Byte(0x80 + c % 0x40)];
      written := 2;
    } else if c <= 0xFFFF {
      out := dst + [U.Byte(0xE0 + c / 0x1000)];
      out := out + [U.Byte(0x80 + c / 0x40 % 0x40)];
      out := out + [U.Byte(0x80 + c % 0x40)];
      written := 3;
    } else if c <= 0x1F_FFFF {
      out := dst + [U.Byte(0xF0 + c / 0x4_0000)];
      out := out + [U.Byte(0x80 + c / 0x1000 % 0x40)];
      out := out + [U.Byte(0x80 + c / 0x40 % 0x40)];
      out := out + [U.Byte(0x80 + c % 0x40)];
      written := 4;
    } else if c <= 0x3FF_FFFF {
      out := dst + [U.Byte(0xF8 + c / 0x100_0000)];
      out := out + [U.Byte(U.Continue(c / 0x4_0000))];
      out := out + [U.Byte(0x80 + c / 0x1000 % 0x40)];
      out := out + [U.Byte(0x80 + c / 0x40 % 0x40)];
      out := out + [U.Byte(0x80 + c % 0x40)];
      written := 5;
    } else if c <= 0x7FFF_FFFF {
      out := dst + [U.Byte(0xFC + c / 0x4000_0000)];
      out := out + [U.Byte(0x80 + c / 0x100_0000 % 0x40)];
      out := out + [U.Byte(0x80 + c / 0x4_0000 % 0x40)];
      out := out + [U.Byte(0x80 + c / 0x1000 % 0x40)];
      out := out + [U.Byte(0x80 + c / 0x40 % 0x40)];
      out := out + [U.Byte(0x80 + c % 0x40)];
      written := 6;
    } else {
      out := dst;
      written := 0;
    }
  }

  datatype State = State(ptr: nat, lineNr: nat, lineStart: nat)

  class Parser {
    const text: string
    const options: Options
    var ptr: nat
    var lineNr: nat
    var lineStart: nat

    constructor (text: string, options: Options)
      requires options.Valid()
      ensures Valid() && this.text == text && this.options == options && ptr == 0
    {
      this.text, this.options := text, options;
      ptr, lineNr, lineStart := 0, 1, 0;
    }

    /** The line number and the start of the line are always those of the pointer. */
    ghost predicate Valid()
      reads this
    {
      && ptr <= |text|
      && options.Valid()
      && lineNr == LineOf(text, ptr)
      && lineStart == LineStart(text, ptr)
    }

    ghost function Rest(): string
      reads this
      requires ptr <= |text|
    {
      text[ptr..]
    }

    function At(i: nat): (c: char)
      reads this
      requires ptr <= |text|
      ensures c == Peek(Rest(), i)
    {
      if ptr + i < |text| then text[ptr + i] else NUL
    }

    /** The outcome is the one specified, the pointer is where it should be, and an error names its place. */
    ghost predicate Agrees<T>(spec: Parsed<T>, r: Result<T>)
      reads this
    {
      Valid() && if spec.Ok? then r == Success(spec.value) && Rest() == spec.rest else r == Failure(ErrorAt(text, ptr)) && Rest() == spec.at
    }

    // ---- Moving -------------------------------------------------------------------------------------

    method Advance(n: nat)
      requires Valid() && n <= |Rest()| && forall i :: 0 <= i < n ==> Rest()[i] != '\n'
      modifies `ptr
      ensures Valid() && ptr == old(ptr) + n && Rest() == old(Rest())[n..]
    {
      SameLine(text, ptr, ptr + n);
      ptr := ptr + n;
    }

    /** Behind a newline, which `n - 1` other characters may precede. */
    method NextLine(n: nat)
      requires Valid() && 0 < n <= |Rest()| && Rest()[n - 1] == '\n' && forall i :: 0 <= i < n - 1 ==> Rest()[i] != '\n'
      modifies `ptr, `lineNr, `lineStart
      ensures Valid() && ptr == old(ptr) + n && Rest() == old(Rest())[n..]
    {
      SameLine(text, ptr, ptr + n - 1);
      ptr := ptr + n;
      lineNr := lineNr + 1;
      lineStart := ptr;
    }

    /** One character, which may be a newline. */
    method Step()
      requires Valid() && Rest() != []
      modifies `ptr, `lineNr, `lineStart
      ensures Valid() && ptr == old(ptr) + 1 && Rest() == old(Rest())[1..]
    {
      if At(0) == '\n' { NextLine(1); } else { Advance(1); }
    }

    function GetState(): State
      reads this
    {
      State(ptr, lineNr, lineStart)
    }

    method SetState(s: State)
      requires s.ptr <= |text| && options.Valid() && s.lineNr == LineOf(text, s.ptr) && s.lineStart == LineStart(text, s.ptr)
      modifies `ptr, `lineNr, `lineStart
      ensures Valid() && ptr == s.ptr
    {
      ptr, lineNr, lineStart := s.ptr, s.lineNr, s.lineStart;
    }

    function Error(): (e: ParseError)
      reads this
      requires Valid()
      ensures e == ErrorAt(text, ptr)
    {
      ParseError(lineNr, ptr - lineStart + 1)
    }

    // ---- White space --------------------------------------------------------------------------------

    method SkipWhite(breakOnNewline: bool) returns (r: Result<bool>)
      requires Valid()
      modifies `ptr, `lineNr, `lineStart
      ensures Agrees(G.SkipWhite(options, old(Rest()), breakOnNewline), r)
    {
      hide G.SkipWhite, LineOf, LineStart;
      ghost var first := Rest();
      var start := ptr;
      while MaybeWhite(At(0))
        invariant Valid() && start <= ptr
        invariant if ptr == start then Rest() == first
                  else G.SkipWhite(options, first, breakOnNewline) == G.Skipped(G.SkipWhite(options, Rest(), breakOnNewline))
        decreases |text| - ptr
      {
        WhiteRound(options, Rest(), breakOnNewline);
        if At(0) == '\n' {
          NextLine(1);
          if breakOnNewline { return Success(true); }
        } else if At(0) == '\r' {
          if At(1) != '\n' { return Failure(Error()); }
          NextLine(2);
          if breakOnNewline { return Success(true); }
        } else if options.indentation != "" && LooksAt(text[ptr..], options.indentation) {
          Advance(|options.indentation|);
        } else if At(0) == '\t' || At(0) == ' ' {
          Advance(1);
        } else if At(1) == '/' || At(1) == '*' {
          return Failure(Error());
        } else {
          break;
        }
      }
      WhiteRound(options, Rest(), breakOnNewline);
      return Success(ptr != start);
    }

    // ---- Strings ------------------------------------------------------------------------------------

    method ParseHex(count: nat) returns (r: Result<nat>)
      requires Valid()
      modifies `ptr
      ensures Agrees(U.ParseHex(old(Rest()), count), r)
    {
      hide U.HexValue, U.HexDigit, LineOf, LineStart;
      var n: nat, i: nat := 0, 0;
      assert Rest()[0..] == Rest();
      while i < count
        invariant Valid() && Rest() == old(Rest())
        invariant i <= count && i <= |Rest()| && forall j :: 0 <= j < i ==> Rest()[j] != '\n'
        invariant U.HexValue(Rest(), count, 0) == U.HexValue(Rest()[i..], count - i, n)
      {
        HexRound(Rest()[i..], count - i, n);
        assert At(i) == Peek(Rest()[i..], 0);
        var d := U.HexDigit(At(i));
        if d < 0 { return Failure(Error()); }
        n, i := n * 16 + d, i + 1;
      }
      assert U.HexValue(Rest()[count..], 0, n) == n by { HexDone(Rest()[count..], n); }
      Advance(count);
      return Success(n);
    }

    /** Behind the backslash of an escape sequence. */
    method ParseEscape(str: string) returns (r: Result<string>)
      requires Valid()
      modifies `ptr
      ensures Agrees(Appended(str, G.ParseEscape(options, old(Rest()))), r)
    {
      hide U.ParseHex, U.EncodeUtf8, LineOf, LineStart;
      var c := At(0);
      if c == '"' || c == '\\' || c == '/' || c == 'b' || c == 'f' || c == 'n' || c == 'r' || c == 't' {
        Advance(1);
        return Success(str + [Meaning(c)]);
      } else if c == 'u' {
        Advance(1);
        r := ParseUnit(str);
      } else if c == 'U' {
        if !options.str32bitUnicode { return Failure(Error()); }
        Advance(1);
        var code :- ParseHex(8);
        var out, written := AppendUtf8(str, code);
        if written == 0 { return Failure(Error()); }
        return Success(out);
      } else {
        return Failure(Error());
      }
    }

    /** Behind the u. */
    method ParseUnit(str: string) returns (r: Result<string>)
      requires Valid()
      modifies `ptr
      ensures Agrees(Appended(str, UnitSpec(options, old(Rest()))), r)
    {
      hide U.ParseHex, U.EncodeUtf8, LineOf, LineStart;
      var codepoint :- ParseHex(4);
      if U.HighSurrogate(codepoint) {
        if !(At(0) == '\\' && At(1) == 'u') { return Failure(Error()); }
        Advance(2);
        var codepoint2 :- ParseHex(4);
        if !U.LowSurrogate(codepoint2) { return Failure(Error()); }
        PairEncodes(codepoint, codepoint2);
        codepoint := U.Combine(codepoint, codepoint2);
      }
      var out, written := AppendUtf8(str, codepoint);
      if written == 0 { return Failure(Error()); }
      return Success(out);
    }

    /** A triple-quoted string, at its first quote. */
    method ParseMultiline(state: State) returns (r: Result<string>)
      requires Valid() && state == GetState() && |Rest()| >= 3 && Rest()[..3] == "\"\"\""
      modifies `ptr, `lineNr, `lineStart
      ensures Agrees(G.ParseMultiline(old(Rest())[3..], old(Rest()), ""), r)
    {
      hide G.ParseMultiline, LineOf, LineStart;
      ghost var quote, first := Rest(), Rest()[3..];
      assert forall i :: 0 <= i < 3 ==> Rest()[i] == Rest()[..3][i];
      Advance(3);
      var start := ptr;
      assert text[start..ptr] == "";
      while true
        invariant Valid() && start <= ptr
        invariant G.ParseMultiline(first, quote, "") == G.ParseMultiline(Rest(), quote, text[start..ptr])
        decreases |text| - ptr
      {
        MultilineRound(Rest(), quote, text[start..ptr]);
        if At(0) == NUL || At(1) == NUL || At(2) == NUL {
          SetState(state);
          return Failure(Error());
        }
        if At(0) == '"' && At(1) == '"' && At(2) == '"' && At(3) != '"' {
          var str := text[start..ptr];
          Advance(3);
          return Success(str);
        }
        assert text[start..ptr + 1] == text[start..ptr] + [text[ptr]];
        Step();
      }
    }

    /** Appends a run of characters that mean nothing special. */
    method TakeSafe(str: string, ghost start: string) returns (longer: string)
      requires Valid()
      modifies `ptr
      ensures Valid() && old(ptr) <= ptr && Special(At(0))
      ensures G.ParseChars(options, old(Rest()), start, str) == G.ParseChars(options, Rest(), start, longer)
    {
      hide G.ParseChars, LineOf, LineStart;
      var safeEnd := ptr;
      assert str + text[ptr..safeEnd] == str;
      while safeEnd < |text| && !Special(text[safeEnd])
        invariant ptr <= safeEnd <= |text| && forall i :: ptr <= i < safeEnd ==> text[i] != '\n'
        invariant G.ParseChars(options, Rest(), start, str) == G.ParseChars(options, text[safeEnd..], start, str + text[ptr..safeEnd])
        invariant Valid() && ptr == old(ptr)
      {
        CharsRound(options, text[safeEnd..], start, str + text[ptr..safeEnd]);
        assert str + text[ptr..safeEnd] + [text[safeEnd]] == str + text[ptr..safeEnd + 1];
        safeEnd := safeEnd + 1;
      }
      longer := str + text[ptr..safeEnd];
      Advance(safeEnd - ptr);
    }

    /** A string in quotes, at the first of them. */
    method ParseQuoted(state: State) returns (r: Result<string>)
      requires Valid() && state == GetState() && At(0) == '"'
      modifies `ptr, `lineNr, `lineStart
      ensures Agrees(G.ParseChars(options, old(Rest())[1..], old(Rest()), ""), r)
    {
      hide G.ParseChars, G.ParseEscape, LineOf, LineStart;
      ghost var quote, first := Rest(), Rest()[1..];
      Advance(1);
      var str := "";
      while true
        invariant Valid()
        invariant G.ParseChars(options, first, quote, "") == G.ParseChars(options, Rest(), quote, str)
        decreases |text| - ptr
      {
        str := TakeSafe(str, quote);
        CharsRound(options, Rest(), quote, str);
        if At(0) == NUL {
          SetState(state);
          return Failure(Error());
        }
        if At(0) == '"' {
          Advance(1);
          return Success(str);
        }
        if At(0) == '\n' || (At(0) == '\t' && !options.strAllowTab) { return Failure(Error()); }
        if At(0) == '\\' {
          Advance(1);
          str :- ParseEscape(str);
        } else {
          str := str + [At(0)];
          Advance(1);
        }
      }
    }

    method ParseString() returns (r: Result<string>)
      requires Valid()
      modifies `ptr, `lineNr, `lineStart
      ensures Agrees(G.ParseString(options, old(Rest())), r)
    {
      hide G.ParseChars, G.ParseMultiline, LineOf, LineStart;
      var state := GetState();
      if At(0) != '"' { return Failure(Error()); }
      if At(1) == '"' && At(2) == '"' {
        if !options.strPythonMultiline { return Failure(Error()); }
        assert Rest()[..3] == "\"\"\"";
        r := ParseMultiline(state);
      } else {
        r := ParseQuoted(state);
      }
    }

    // ---- Numbers ------------------------------------------------------------------------------------

    method ParseInt() returns (r: Result<Value>)
      requires Valid()
      modifies `ptr
      ensures Agrees(G.ParseInt(old(Rest())), r)
    {
      hide G.Strtoll, LineOf, LineStart;
      var start := ptr;
      var (result, used) := G.Strtoll(text[ptr..]);
      StrtollTakes(Rest());
      Advance(used);
      if start == ptr { return Failure(Error()); }
      if text[start] == '0' && result != 0 { return Failure(Error()); }
      return Success(Int(result));
    }

    method ParseFloat() returns (r: Result<Value>)
      requires Valid()
      modifies `ptr
      ensures Agrees(G.ParseFloat(old(Rest())), r)
    {
      hide G.StrtodLength, LineOf, LineStart;
      var start := ptr;
      StrtodTakes(Rest());
      ghost var first := Rest();
      Advance(G.StrtodLength(text[ptr..]));
      if start == ptr { return Failure(Error()); }
      assert text[start..ptr] == first[..ptr - start];
      return Success(Float(text[start..ptr]));
    }

    method DigitsEnd() returns (p: nat)
      requires Valid()
      ensures p == ptr + |G.Digits(Rest())|
    {
      hide G.Digits, LineOf, LineStart;
      p := ptr;
      while p < |text| && IsDigit(text[p])
        invariant ptr <= p <= |text| && |G.Digits(Rest())| == p - ptr + |G.Digits(text[p..])|
      {
        DigitsRound(text[p..]);
        p := p + 1;
      }
      DigitsRound(text[p..]);
    }

    /** Do the digits at the pointer exceed the limit? The first difference decides. */
    method Exceeds(limit: string) returns (b: bool)
      requires Valid() && |limit| <= |Rest()|
      ensures b <==> G.CompareDigits(Rest()[..|limit|], limit) > 0
    {
      hide G.CompareDigits, LineOf, LineStart;
      ghost var ds := Rest()[..|limit|];
      assert ds[0..] == ds && limit[0..] == limit;
      for i := 0 to |limit|
        invariant G.CompareDigits(ds, limit) == G.CompareDigits(ds[i..], limit[i..])
      {
        CompareRound(ds[i..], limit[i..]);
        if text[ptr + i] > limit[i] { return true; }
        if text[ptr + i] < limit[i] { return false; }
      }
      CompareRound(ds[|limit|..], limit[|limit|..]);
      return false;
    }

    /** At the first digit: is the number too long, or not an integer at all? */
    method LooksLikeFloat(negative: bool) returns (isFloat: bool)
      requires Valid()
      ensures isFloat <==> FloatLiteral(Rest(), negative)
    {
      hide G.Digits, G.CompareDigits, G.MaxIntDigits, LineOf, LineStart;
      var p := DigitsEnd();
      var next := At(p - ptr);
      if next == '.' || next == 'e' || next == 'E' { return true; }
      var length := p - ptr;
      if length < 19 { return false; }
      if length > 19 { return true; }
      assert Rest()[..19] == G.Digits(Rest());
      isFloat := Exceeds(G.MaxIntDigits(negative));
    }

    method ParseFiniteNumber() returns (r: Result<Value>)
      requires Valid()
      modifies `ptr, `lineNr, `lineStart
      ensures Agrees(G.ParseFiniteNumber(options, old(Rest())), r)
    {
      hide G.ParseFiniteNumber, G.ParseInt, G.ParseFloat, FloatLiteral, LineOf, LineStart;
      FiniteNumberIs(options, Rest());
      var preSign := GetState();
      var negative := false;
      if At(0) == '+' {
        if !options.unaryPlus { return Failure(Error()); }
        Advance(1);
      }
      if At(0) == '-' {
        Advance(1);
        negative := true;
      }
      if At(0) == '+' || At(0) == '-' { return Failure(Error()); }
      if LooksAt(text[ptr..], "0x") { return Failure(Error()); }
      if LooksAt(text[ptr..], "0b") { return Failure(Error()); }
      var isFloat := LooksLikeFloat(negative);
      SetState(preSign);
      if isFloat { r := ParseFloat(); } else { r := ParseInt(); }
    }

    // ---- Values -------------------------------------------------------------------------------------

    method ParseWord(word: string, v: Value) returns (r: Result<Value>)
      requires Valid() && word != "" && forall i :: 0 <= i < |word| ==> word[i] != '\n'
      modifies `ptr
      ensures Agrees(G.ParseWord(old(Rest()), word, v), r)
    {
      hide LineOf, LineStart;
      if !LooksAt(text[ptr..], word) || IdentChar(At(|word|)) { return Failure(Error()); }
      assert forall i :: 0 <= i < |word| ==> Rest()[i] == word[i];
      Advance(|word|);
      return Success(v);
    }

    /** What follows an element or an entry. */
    method ParseSeparator(closer: char, omitComma: bool, trailingComma: bool, separated: bool) returns (r: Result<()>)
      requires Valid()
      modifies `ptr, `lineNr, `lineStart
      ensures Agrees(G.ParseSeparator(options, old(Rest()), closer, omitComma, trailingComma, separated), r)
    {
      hide G.SkipWhite, LineOf, LineStart;
      var _ :- SkipWhite(false);
      var commaState := GetState();
      var hasComma := At(0) == ',';
      var hasSeparator := separated;
      if hasComma {
        Advance(1);
        var _ :- SkipWhite(true);
        hasSeparator := true;
      }
      if At(0) == NUL || At(0) == closer {
        if hasComma && !trailingComma {
          SetState(commaState);
          return Failure(Error());
        }
      } else if omitComma {
        if !hasSeparator { return Failure(Error()); }
      } else {
        if !hasComma { return Failure(Error()); }
      }
      return Success(());
    }

    method TakeIdentifier() returns (key: string)
      requires Valid()
      modifies `ptr
      ensures Valid() && key == G.IdentPrefix(old(Rest())) && Rest() == old(Rest())[|key|..]
    {
      hide G.IdentPrefix, LineOf, LineStart;
      key := "";
      while IdentChar(At(0))
        invariant Valid() && |key| <= |old(Rest())| && Rest() == old(Rest())[|key|..]
        invariant G.IdentPrefix(old(Rest())) == key + G.IdentPrefix(Rest())
        decreases |text| - ptr
      {
        PrefixRound(Rest());
        assert key + [At(0)] + G.IdentPrefix(Rest()[1..]) == key + ([At(0)] + G.IdentPrefix(Rest()[1..]));
        key := key + [At(0)];
        Advance(1);
      }
      PrefixRound(Rest());
      assert key + "" == key;
    }

    method ParseKey() returns (r: Result<string>)
      requires Valid()
      modifies `ptr, `lineNr, `lineStart
      ensures Agrees(G.ParseKey(options, old(Rest())), r)
    {
      hide G.ParseString, G.IdentPrefix, Reserved, LineOf, LineStart;
      if IdentStarter(At(0)) && !Reserved(text[ptr..]) {
        if !options.identifiersKeys { return Failure(Error()); }
        var key := TakeIdentifier();
        return Success(key);
      } else {
        r := ParseString();
      }
    }

    method ParseColon() returns (r: Result<()>)
      requires Valid()
      modifies `ptr, `lineNr, `lineStart
      ensures Agrees(G.ParseColon(options, old(Rest())), r)
    {
      hide G.SkipWhite, LineOf, LineStart;
      var spaceAfterKey :- SkipWhite(false);
      if At(0) == ':' || (options.objectSeparatorEqual && At(0) == '=') {
        if !(options.allowSpaceBeforeColon || At(0) != ':' || !spaceAfterKey) { return Failure(Error()); }
        Advance(1);
        var _ :- SkipWhite(false);
      } else if options.omitColonBeforeObject && (At(0) == '{' || At(0) == '#') {
        // The colon may be left out here.
      } else {
        return Failure(Error());
      }
      return Success(());
    }

    method ParseArray() returns (r: Result<Value>)
      requires Valid() && At(0) == '['
      modifies `ptr, `lineNr, `lineStart
      ensures Agrees(G.ParseCore(options, old(Rest())), r)
      decreases |text| - ptr, 0
    {
      hide G.ParseElements, LineOf, LineStart;
      var state := GetState();
      Advance(1);
      var items :- ParseArrayContents();
      if At(0) == ']' {
        Advance(1);
        return Success(Array(items));
      } else {
        SetState(state);
        return Failure(Error());
      }
    }

    method ParseArrayContents() returns (r: Result<seq<Value>>)
      requires Valid()
      modifies `ptr, `lineNr, `lineStart
      ensures Agrees(G.ParseElements(options, old(Rest()), []), r)
      decreases |text| - ptr, 3
    {
      hide G.ParseElements, G.ParseValue, G.ParseSeparator, G.SkipWhite, Reserved, LineOf, LineStart;
      ghost var first := Rest();
      var items: seq<Value> := [];
      while true
        invariant Valid() && old(ptr) <= ptr
        invariant G.ParseElements(options, first, []) == G.ParseElements(options, Rest(), items)
        decreases |text| - ptr
      {
        G.ElementsRound(options, Rest(), items);
        var _ :- SkipWhite(false);
        if At(0) == ']' || At(0) == NUL { return Success(items); }
        if IdentStarter(At(0)) && !Reserved(text[ptr..]) { return Failure(Error()); }
        var v :- ParseValue();
        var _ :- ParseSeparator(']', options.arrayOmitComma, options.arrayTrailingComma, v.1);
        items := items + [v.0];
      }
    }

    method ParseObject() returns (r: Result<Value>)
      requires Valid() && At(0) == '{'
      modifies `ptr, `lineNr, `lineStart
      ensures Agrees(G.ParseCore(options, old(Rest())), r)
      decreases |text| - ptr, 0
    {
      hide G.ParseMembers, LineOf, LineStart;
      var state := GetState();
      Advance(1);
      var entries :- ParseObjectContents();
      if At(0) == '}' {
        Advance(1);
        return Success(Object(entries));
      } else {
        SetState(state);
        return Failure(Error());
      }
    }

    method ParseObjectContents() returns (r: Result<seq<Entry>>)
      requires Valid()
      modifies `ptr, `lineNr, `lineStart
      ensures Agrees(G.ParseMembers(options, old(Rest()), []), r)
      decreases |text| - ptr, 3
    {
      hide G.ParseMembers, G.ParseKey, G.AfterKey, G.SkipWhite, G.Emplace, G.HasKey, LineOf, LineStart;
      ghost var first := Rest();
      var entries: seq<Entry> := [];
      while true
        invariant Valid() && old(ptr) <= ptr
        invariant G.ParseMembers(options, first, []) == G.ParseMembers(options, Rest(), entries)
        decreases |text| - ptr
      {
        G.MembersRound(options, Rest(), entries);
        var _ :- SkipWhite(false);
        if At(0) == '}' || At(0) == NUL { return Success(entries); }
        var preKeyState := GetState();
        var key :- ParseKey();
        if !options.objectDuplicateKeys && G.HasKey(entries, key) {
          SetState(preKeyState);
          return Failure(Error());
        }
        var value :- ParseEntry();
        entries := G.Emplace(entries, key, value);
      }
    }

    /** The rest of an entry, behind its key. */
    method ParseEntry() returns (r: Result<Value>)
      requires Valid()
      modifies `ptr, `lineNr, `lineStart
      ensures Agrees(G.AfterKey(options, old(Rest())), r)
      decreases |text| - ptr, 3
    {
      hide G.ParseColon, G.ParseValue, G.ParseSeparator, LineOf, LineStart;
      var _ :- ParseColon();
      var v :- ParseValue();
      var _ :- ParseSeparator('}', options.objectOmitComma, options.objectTrailingComma, v.1);
      return Success(v.0);
    }

    method ParseCore() returns (r: Result<Value>)
      requires Valid()
      modifies `ptr, `lineNr, `lineStart
      ensures Agrees(G.ParseCore(options, old(Rest())), r)
      decreases |text| - ptr, 1
    {
      hide G.ParseString, G.ParseWord, G.ParseElements, G.ParseMembers, G.ParseFiniteNumber, LineOf, LineStart;
      var c := At(0);
      if c == '"' || c == '@' {
        var str :- ParseString();
        return Success(Str(str));
      } else if c == 'n' {
        r := ParseWord("null", Null);
      } else if c == 't' {
        r := ParseWord("true", Bool(true));
      } else if c == 'f' {
        r := ParseWord("false", Bool(false));
      } else if c == '{' {
        r := ParseObject();
      } else if c == '[' {
        r := ParseArray();
      } else if c == '+' || c == '-' || c == '.' || IsDigit(c) {
        if LooksAt(text[ptr..], "-inf") || LooksAt(text[ptr..], "+inf") || LooksAt(text[ptr..], "+NaN") { return Failure(Error()); }
        r := ParseFiniteNumber();
      } else {
        return Failure(Error());
      }
    }

    /** A value, and whether white space followed it on its line. */
    method ParseValue() returns (r: Result<(Value, bool)>)
      requires Valid()
      modifies `ptr, `lineNr, `lineStart
      ensures Agrees(G.ParseValue(options, old(Rest())), r)
      decreases |text| - ptr, 2
    {
      hide G.SkipWhite, G.ParseCore, LineOf, LineStart;
      var _ :- SkipWhite(false);
      var v :- ParseCore();
      var separated :- SkipWhite(true);
      return Success((v, separated));
    }

    method TopLevel() returns (r: Result<Value>)
      requires Valid()
      modifies `ptr, `lineNr, `lineStart
      ensures Agrees(G.ParseText(options, old(Rest())), r)
    {
      hide G.SkipWhite, G.ParseElements, LineOf, LineStart;
      var items :- ParseArrayContents();
      if |items| > 1 && !options.implicitTopArray { return Failure(Error()); }
      var _ :- SkipWhite(true);
      if At(0) != NUL { return Failure(Error()); }
      if items == [] {
        if options.emptyFile { return Success(Object([])); }
        return Failure(Error());
      }
      if |items| == 1 { return Success(items[0]); }
      return Success(Array(items));
    }
  }

  /** A whole text: its value, or the line and the column at which it goes wrong. */
  method Parse(text: string, options: Options) returns (r: Result<Value>)
    requires options.Valid()
    ensures var spec := G.ParseText(options, text);
            if spec.Ok? then r == Success(spec.value)
            else |spec.at| <= |text| && text[|text| - |spec.at|..] == spec.at && r == Failure(ErrorAt(text, |text| - |spec.at|))
  {
    hide G.ParseText, LineOf, LineStart;
    var parser := new Parser(text, options);
    assert text[0..] == text;
    r := parser.TopLevel();
  }
}
