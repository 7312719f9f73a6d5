/** What the parser makes of a text does not depend on the options that only concern the layout. */
module ConfigReader {
  import opened ConfigText
  import opened ConfigUtf8
  import opened ConfigGrammar

  /** The options without indentation, final newline and alignment. */
  function Reader(o: Options): (r: Options)
    ensures r.Valid()
  {
    o.(indentation := "", endWithNewline := false, objectAlignValues := false)
  }

  // ---- White space ------------------------------------------------------------------------------------

  predicate Blank(c: char) {
    c == ' ' || c == '\t'
  }

  /** Taking a whole indentation at once comes to the same as taking its characters one by one. */
  lemma {:induction false} OneBlank(o: Options, s: string, breakOnNewline: bool)
    requires o.Valid() && s != [] && Blank(s[0])
    ensures SkipWhite(o, s, breakOnNewline) == Skipped(SkipWhite(o, s[1..], breakOnNewline))
    decreases |s|, 0
  {
    var k := |o.indentation|;
    if o.indentation != "" && LooksAt(s, o.indentation) {
      assert SkipWhite(o, s, breakOnNewline) == Skipped(SkipWhite(o, s[k..], breakOnNewline));
      hide SkipWhite;
      forall i | 0 <= i < k - 1 ensures Blank(s[1..][i]) { assert s[1..][i] == o.indentation[i + 1]; }
      Blanks(o, s[1..], k - 1, breakOnNewline);
      assert s[1..][k - 1..] == s[k..];
    }
  }

  lemma {:induction false} Blanks(o: Options, s: string, k: nat, breakOnNewline: bool)
    requires o.Valid() && k <= |s| && forall i :: 0 <= i < k ==> Blank(s[i])
    ensures Skipped(SkipWhite(o, s, breakOnNewline)) == Skipped(SkipWhite(o, s[k..], breakOnNewline))
    decreases |s|, 1
  {
    hide SkipWhite;
    if k == 0 {
      assert s[0..] == s;
    } else {
      OneBlank(o, s, breakOnNewline);
      Blanks(o, s[1..], k - 1, breakOnNewline);
      assert s[1..][k - 1..] == s[k..];
    }
  }

  /** Where no blank stands, the indentation does not matter. */
  lemma NoBlank(o: Options, s: string, breakOnNewline: bool)
    requires o.Valid() && (s == [] || !Blank(s[0]))
    ensures SkipWhite(o, s, breakOnNewline) ==
            if Peek(s, 0) == '\n' then AfterNewline(o, s[1..], breakOnNewline)
            else if Peek(s, 0) == '\r' && Peek(s, 1) == '\n' then AfterNewline(o, s[2..], breakOnNewline)
            else if Peek(s, 0) == '\r' || (Peek(s, 0) == '/' && (Peek(s, 1) == '/' || Peek(s, 1) == '*')) then Err(s)
            else Ok(false, s)
  {
    hide AfterNewline;
    assert o.indentation == "" || Blank(o.indentation[0]);
  }

  lemma {:induction false} SkipWhiteSame(o: Options, s: string, breakOnNewline: bool)
    requires o.Valid()
    ensures SkipWhite(o, s, breakOnNewline) == SkipWhite(Reader(o), s, breakOnNewline)
    decreases |s|, 0
  {
    if s != [] && Blank(s[0]) {
      hide SkipWhite;
      OneBlank(o, s, breakOnNewline);
      OneBlank(Reader(o), s, breakOnNewline);
      SkipWhiteSame(o, s[1..], breakOnNewline);
    } else {
      hide SkipWhite, AfterNewline;
      NoBlank(o, s, breakOnNewline);
      NoBlank(Reader(o), s, breakOnNewline);
      if s != [] { NewlineSame(o, s[1..], breakOnNewline); }
      if |s| > 1 { NewlineSame(o, s[2..], breakOnNewline); }
    }
  }

  lemma {:induction false} NewlineSame(o: Options, s: string, breakOnNewline: bool)
    requires o.Valid()
    ensures AfterNewline(o, s, breakOnNewline) == AfterNewline(Reader(o), s, breakOnNewline)
    decreases |s|, 1
  {
    hide SkipWhite;
    SkipWhiteSame(o, s, false);
  }

  // ---- Strings, keys, separators ----------------------------------------------------------------------

  lemma {:induction false} CharsSame(o: Options, s: string, start: string, acc: string)
    ensures ParseChars(o, s, start, acc) == ParseChars(Reader(o), s, start, acc)
    decreases |s|
  {
    hide ParseEscape;
    if s != [] {
      EscapeSame(o, s[1..]);
      var e := ParseEscape(o, s[1..]);
      if s[0] == '\\' {
        if e.Ok? { CharsSame(o, e.rest, start, acc + e.value); }
      } else {
        CharsSame(o, s[1..], start, acc + [s[0]]);
      }
    }
  }

  lemma EscapeSame(o: Options, s: string)
    ensures ParseEscape(o, s) == ParseEscape(Reader(o), s)
  {
    hide ParseHex, EncodeUtf8, Combine;
  }

  lemma StringSame(o: Options, s: string)
    ensures ParseString(o, s) == ParseString(Reader(o), s)
  {
    hide ParseChars, ParseMultiline;
    if s != [] { CharsSame(o, s[1..], s, ""); }
  }

  lemma KeySame(o: Options, s: string)
    ensures ParseKey(o, s) == ParseKey(Reader(o), s)
  {
    hide ParseString;
    StringSame(o, s);
  }

  lemma ColonSame(o: Options, s: string)
    requires o.Valid()
    ensures ParseColon(o, s) == ParseColon(Reader(o), s)
  {
    hide SkipWhite;
    SkipWhiteSame(o, s, false);
    var r := SkipWhite(o, s, false);
    if r.Ok? && r.rest != [] { SkipWhiteSame(o, r.rest[1..], false); }
  }

  lemma SeparatorSame(o: Options, s: string, closer: char, omitComma: bool, trailingComma: bool, separated: bool)
    requires o.Valid()
    ensures ParseSeparator(o, s, closer, omitComma, trailingComma, separated) == ParseSeparator(Reader(o), s, closer, omitComma, trailingComma, separated)
  {
    hide SkipWhite;
    SkipWhiteSame(o, s, false);
    var r := SkipWhite(o, s, false);
    if r.Ok? && r.rest != [] { SkipWhiteSame(o, r.rest[1..], true); }
  }

  // ---- Values -----------------------------------------------------------------------------------------

  lemma {:induction false} CoreSame(o: Options, s: string)
    requires o.Valid()
    ensures ParseCore(o, s) == ParseCore(Reader(o), s)
    decreases |s|, 1
  {
    hide ParseString, ParseWord, ParseMembers, ParseElements, ParseFiniteNumber;
    StringSame(o, s);
    NumberSame(o, s);
    if s != [] {
      MembersSame(o, s[1..], []);
      ElementsSame(o, s[1..], []);
    }
  }

  lemma NumberSame(o: Options, s: string)
    ensures ParseFiniteNumber(o, s) == ParseFiniteNumber(Reader(o), s)
  {
    hide ParseInt, ParseFloat, Digits, CompareDigits;
  }

  lemma {:induction false} ValueSame(o: Options, s: string)
    requires o.Valid()
    ensures ParseValue(o, s) == ParseValue(Reader(o), s)
    decreases |s|, 2
  {
    hide SkipWhite, ParseCore;
    SkipWhiteSame(o, s, false);
    var r1 := SkipWhite(o, s, false);
    if r1.Ok? {
      CoreSame(o, r1.rest);
      var r2 := ParseCore(o, r1.rest);
      if r2.Ok? { SkipWhiteSame(o, r2.rest, true); }
    }
  }

  lemma {:induction false} ElementsSame(o: Options, s: string, acc: seq<Value>)
    requires o.Valid()
    ensures ParseElements(o, s, acc) == ParseElements(Reader(o), s, acc)
    decreases |s|, 3
  {
    hide SkipWhite, ParseValue, ParseSeparator;
    SkipWhiteSame(o, s, false);
    var r1 := SkipWhite(o, s, false);
    if r1.Ok? {
      ValueSame(o, r1.rest);
      var r2 := ParseValue(o, r1.rest);
      if r2.Ok? {
        SeparatorSame(o, r2.rest, ']', o.arrayOmitComma, o.arrayTrailingComma, r2.value.1);
        var r3 := ParseSeparator(o, r2.rest, ']', o.arrayOmitComma, o.arrayTrailingComma, r2.value.1);
        if r3.Ok? { ElementsSame(o, r3.rest, acc + [r2.value.0]); }
      }
    }
  }

  lemma {:induction false} AfterKeySame(o: Options, s: string)
    requires o.Valid()
    ensures AfterKey(o, s) == AfterKey(Reader(o), s)
    decreases |s|, 3
  {
    hide ParseColon, ParseValue, ParseSeparator;
    ColonSame(o, s);
    var r3 := ParseColon(o, s);
    if r3.Ok? {
      ValueSame(o, r3.rest);
      var r4 := ParseValue(o, r3.rest);
      if r4.Ok? { SeparatorSame(o, r4.rest, '}', o.objectOmitComma, o.objectTrailingComma, r4.value.1); }
    }
  }

  lemma {:induction false} MembersSame(o: Options, s: string, acc: seq<Entry>)
    requires o.Valid()
    ensures ParseMembers(o, s, acc) == ParseMembers(Reader(o), s, acc)
    decreases |s|, 3
  {
    hide SkipWhite, ParseKey, AfterKey, ParseMembers, Emplace, HasKey;
    MembersRound(o, s, acc);
    MembersRound(Reader(o), s, acc);
    SkipWhiteSame(o, s, false);
    var r1 := SkipWhite(o, s, false);
    if r1.Ok? {
      KeySame(o, r1.rest);
      var r2 := ParseKey(o, r1.rest);
      if r2.Ok? {
        AfterKeySame(o, r2.rest);
        var r3 := AfterKey(o, r2.rest);
        if r3.Ok? { MembersSame(o, r3.rest, Emplace(acc, r2.value, r3.value)); }
      }
    }
  }

  /** Options that differ in their layout only read every text alike. */
  lemma ReadersAgree(o: Options, p: Options, s: string)
    requires o.Valid() && p.Valid() && Reader(o) == Reader(p)
    ensures ParseText(o, s) == ParseText(p, s)
  {
    hide SkipWhite, ParseElements;
    ElementsSame(o, s, []);
    ElementsSame(p, s, []);
    var r := ParseElements(o, s, []);
    if r.Ok? {
      SkipWhiteSame(o, r.rest, true);
      SkipWhiteSame(p, r.rest, true);
    }
  }
}
