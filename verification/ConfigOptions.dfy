/** What each option of the parser lets through, and where its text is refused without it. */
module ConfigOptions {
  import opened ConfigText
  import opened ConfigGrammar
  import opened ConfigLayout
  import opened ConfigColumns
  import opened ConfigNumbers
  import opened ConfigStrings
  import opened ConfigRoundTrip
  import opened ConfigSpelling
  import opened ConfigDocuments
  import opened ConfigErrors

  // ---- Between key and value ------------------------------------------------------------------------------

  /** An equals sign may stand for the colon, with or without white space, exactly if the options say so. */
  lemma EqualSign(o: Options, ws: string, behind: string, next: string)
    requires o.Valid() && White(ws) && White(behind) && Starts(next)
    ensures var s := ws + ("=" + (behind + next));
            ParseColon(o, s) == if o.objectSeparatorEqual then Ok((), next) else Err("=" + (behind + next))
  {
    hide SkipWhite;
    var sign := "=" + (behind + next);
    SkipRun(o, ws, sign);
    assert sign[1..] == behind + next;
    SkipRun(o, behind, next);
  }

  /** White space in front of a colon is refused at the colon, unless the options allow it. */
  lemma SpaceBeforeColon(o: Options, ws: string, behind: string, next: string)
    requires o.Valid() && White(ws) && White(behind) && Starts(next)
    ensures var s := ws + (":" + (behind + next));
            ParseColon(o, s) == if ws == "" || o.allowSpaceBeforeColon then Ok((), next) else Err(":" + (behind + next))
  {
    hide SkipWhite;
    var sign := ":" + (behind + next);
    SkipRun(o, ws, sign);
    assert sign[1..] == behind + next;
    SkipRun(o, behind, next);
  }

  /** The colon may be missing in front of an object exactly if the options say so. */
  lemma ObjectWithoutColon(o: Options, ws: string, next: string)
    requires o.Valid() && White(ws) && Peek(next, 0) == '{'
    ensures ParseColon(o, ws + next) == if o.omitColonBeforeObject then Ok((), next) else Err(next)
  {
    hide SkipWhite;
    SkipRun(o, ws, next);
  }

  // ---- Keys -----------------------------------------------------------------------------------------------

  /** A bare name is a key exactly if the options say so; the three words that are values never are. */
  lemma BareKey(o: Options, key: string, suf: string)
    requires Identifier(key) && Peek(suf, 0) in {':', '=', ' ', '\t', '\n', '{'}
    ensures ParseKey(o, key + suf) == if o.identifiersKeys && key !in {"true", "false", "null"} then Ok(key, suf) else Err(key + suf)
  {
    hide ParseString;
    var s := key + suf;
    assert s[0] == key[0];
    WholeName(key, suf);
    NameIsIdentifier(key);
    BareKeyReserved(key, suf);
    assert s[|key|..] == suf;
    NoString(o, s);
  }

  lemma NoString(o: Options, s: string)
    requires Peek(s, 0) != '"'
    ensures ParseString(o, s) == Err(s)
  {
  }

  lemma NameIsIdentifier(key: string)
    requires Identifier(key)
    ensures NulFree(key) && IsIdentifier(key)
  {
    assert forall i :: 0 <= i < |key[1..]| ==> key[1..][i] == key[i + 1];
    IdentifierTail(key[1..]);
  }

  lemma {:induction false} WholeName(key: string, suf: string)
    requires (forall i :: 0 <= i < |key| ==> IdentChar(key[i])) && !IdentChar(Peek(suf, 0))
    ensures IdentPrefix(key + suf) == key
    decreases |key|
  {
    if key == "" {
      assert key + suf == suf;
    } else {
      assert (key + suf)[1..] == key[1..] + suf;
      WholeName(key[1..], suf);
    }
  }

  /** A key that is there already keeps its first value, where the options allow it to come again. */
  lemma KeyComesAgain(o: Options, pre: string, key: seq<Piece>, x: string, d: Doc, v: Value, after: string, es: seq<Entry>, end: string)
    requires o.Valid() && o.objectDuplicateKeys && White(pre) && White(after) && AllAllowed(o, key) && Spells(key, x) && HasKey(es, x)
    requires Proper(o, d) && Means(d, v) && Ends(end, '}')
    ensures ParseMembers(o, pre + KeyThen(key, "", "", DocText(d, after + end)), es) == Ok(es, end)
  {
    hide ParseMembers, ParseCore, ParseKey, ParseColon, AfterValue, DocText, Proper, Means, Spells, AllAllowed, HasKey, White;
    NothingIsWhite();
    var value := DocText(d, after + end);
    EndFollows(after, end);
    DocStarts(o, d, after + end);
    KeyDocReads(o, Member("", key, "", "", d, ""), x, value);
    DocReads(o, d, v, after + end);
    AgainStep(o, pre, KeyThen(key, "", "", value), es, x, "" + (":" + ("" + value)), value);
    AfterLast(o, after, end, '}', o.objectOmitComma, o.objectTrailingComma);
    NoMoreEntries(o, "", end, es);
    assert "" + end == end;
  }

  lemma EndFollows(after: string, end: string)
    requires White(after) && Ends(end, '}')
    ensures Follows(after + end)
  {
    assert Peek(after + end, 0) == if after == "" then Peek(end, 0) else after[0];
  }

  lemma AgainStep(o: Options, pre: string, s: string, acc: seq<Entry>, key: string, s2: string, s3: string)
    requires o.Valid() && White(pre) && Starts(s) && o.objectDuplicateKeys
    requires ParseKey(o, s) == Ok(key, s2) && HasKey(acc, key) && ParseColon(o, s2) == Ok((), s3) && Starts(s3)
    ensures var core := ParseCore(o, s3);
            ParseMembers(o, pre + s, acc) ==
            if core.Err? then Err(core.at)
            else
              var behind := AfterValue(o, core.rest, '}', o.objectOmitComma, o.objectTrailingComma);
              if behind.Err? then Err(behind.at) else ParseMembers(o, behind.rest, acc)
  {
    hide SkipWhite, ParseCore, ParseSeparator, ParseKey, ParseColon, HasKey;
    SkipRun(o, pre, s);
    NothingToSkip(o, s3, false);
  }

  // ---- Numbers and strings --------------------------------------------------------------------------------

  /** A plus sign in front of a number is refused where it stands, unless the options allow it; then it stays with the
      literal of a float and does not matter to an integer. */
  lemma PlusSign(o: Options, n: Numeral, suf: string)
    requires n.Valid() && !n.negative && Follows(suf)
    ensures var s := "+" + n.Text() + suf;
            ParseFiniteNumber(o, s) ==
            if !o.unaryPlus then Err(s)
            else if n.fraction == [] && n.exponent.NoExponent? && Number(n.digits) <= 9223372036854775807 then Ok(Int(Number(n.digits)), suf)
            else Ok(Float("+" + n.Text()), suf)
  {
    hide ParseFiniteNumber, ParseInt, ParseFloat, DigitsText, Number, Denotes, Follows, FractionText, ExponentText, CompareDigits, MaxIntDigits, Numeral.Text;
    var ds, tail := DigitsText(n.digits), FractionText(n.fraction) + (ExponentText(n.exponent) + suf);
    NumberIs(n.digits);
    DigitsAre(n.digits);
    TailFront(n, suf);
    TailIsNoPrefix(n, suf);
    PlusText(n, suf);
    if o.unaryPlus {
      PlusGoes(o, ds, tail);
      ZeroAlone(n.digits);
      FitsByDigits(false, ds);
      PlusFloat(n, suf);
      if n.fraction == [] && n.exponent.NoExponent? && Number(n.digits) <= 9223372036854775807 {
        FollowsEnds(suf);
        PlusRead(ds, suf);
      }
    } else {
      NoPlus(o, "+" + n.Text() + suf);
    }
  }

  lemma PlusText(n: Numeral, suf: string)
    requires !n.negative
    ensures "+" + n.Text() + suf == "+" + DigitsText(n.digits) + (FractionText(n.fraction) + (ExponentText(n.exponent) + suf))
    ensures |n.Text()| == |DigitsText(n.digits)| + |FractionText(n.fraction)| + |ExponentText(n.exponent)|
  {
    hide DigitsText, FractionText, ExponentText, Numeral.Text;
    NumeralText(n, suf);
    var ds, tail := DigitsText(n.digits), FractionText(n.fraction) + (ExponentText(n.exponent) + suf);
    assert "" + ds == ds;
    assert "+" + n.Text() + suf == "+" + (n.Text() + suf);
    assert "+" + ds + tail == "+" + (ds + tail);
  }

  lemma NoPlus(o: Options, s: string)
    requires Peek(s, 0) == '+' && !o.unaryPlus
    ensures ParseFiniteNumber(o, s) == Err(s)
  {
    hide ParseInt, ParseFloat;
  }

  lemma PlusGoes(o: Options, ds: string, tail: string)
    requires o.unaryPlus && AllDigits(ds) && ds != "" && !IsDigit(Peek(tail, 0)) && Peek(tail, 0) !in {'x', 'b'}
    ensures var s := "+" + ds + tail;
            ParseFiniteNumber(o, s) ==
            if !FractionOrExponent(tail) && (|ds| < 19 || (|ds| == 19 && CompareDigits(ds, MaxIntDigits(false)) <= 0)) then ParseInt(s)
            else ParseFloat(s)
  {
    hide ParseInt, ParseFloat, Digits, CompareDigits, MaxIntDigits;
    var s, t := "+" + ds + tail, ds + tail;
    SignedDigits("+", ds, tail);
    SecondOf(ds, tail);
    assert s[1..] == t && t[0] == ds[0];
  }

  lemma SecondOf(ds: string, tail: string)
    requires AllDigits(ds) && ds != "" && Peek(tail, 0) !in {'x', 'b'}
    ensures !LooksAt(ds + tail, "0x") && !LooksAt(ds + tail, "0b")
  {
    var t := ds + tail;
    assert |t| >= 2 ==> t[1] == if |ds| >= 2 then ds[1] else Peek(tail, 0);
  }

  lemma TailIsNoPrefix(n: Numeral, suf: string)
    requires n.Valid() && Follows(suf)
    ensures Peek(FractionText(n.fraction) + (ExponentText(n.exponent) + suf), 0) !in {'x', 'b'}
  {
    hide DigitsText;
    var tail := FractionText(n.fraction) + (ExponentText(n.exponent) + suf);
    if n.fraction != [] { assert tail[0] == '.'; }
    else if n.exponent.Exponent? { assert tail[0] == n.exponent.letter; }
    else { assert tail == suf; }
  }

  lemma PlusRead(ds: string, suf: string)
    requires AllDigits(ds) && ds != "" && NumberEnd(suf) && Denotes(ds) <= MAX_INT
    ensures ParseInt("+" + ds + suf) == Ok(Int(Denotes(ds)), suf)
  {
    hide Digits, Denotes;
    SignedDigits("+", ds, suf);
    assert ("+" + ds + suf)[1 + |ds|..] == suf;
  }

  lemma PlusFloat(n: Numeral, suf: string)
    requires n.Valid() && !n.negative && Follows(suf)
    ensures ParseFloat("+" + n.Text() + suf) == Ok(Float("+" + n.Text()), suf)
  {
    hide ParseFloat, StrtodLength, Digits, DigitsText, Number, Denotes, FractionText, ExponentText, Follows, Numeral.Text;
    var ds, tail := DigitsText(n.digits), FractionText(n.fraction) + (ExponentText(n.exponent) + suf);
    NumberIs(n.digits);
    DigitsAre(n.digits);
    TailFront(n, suf);
    PlusText(n, suf);
    SignedDigits("+", ds, tail);
    Tailed("+" + ds, tail);
    PartsTaken("+" + ds + tail, 1, ds, n.fraction, n.exponent, suf);
    FloatIs("+" + n.Text(), suf);
  }

  lemma FloatIs(text: string, suf: string)
    requires text != "" && StrtodLength(text + suf) == |text|
    ensures ParseFloat(text + suf) == Ok(Float(text), suf)
  {
    hide StrtodLength;
    CutOff(text, suf);
  }

  lemma CutOff(a: string, suf: string)
    ensures (a + suf)[..|a|] == a && (a + suf)[|a|..] == suf
  {
  }

  /** Three quotes open a string exactly if the options say so. */
  lemma ThreeQuotes(o: Options, s: string)
    requires LooksAt(s, "\"\"\"") && !o.strPythonMultiline
    ensures ParseString(o, s) == Err(s)
  {
    hide ParseChars, ParseMultiline;
    assert s[0] == "\"\"\""[0] && s[1] == "\"\"\""[1] && s[2] == "\"\"\""[2];
  }

  // ---- Several values in one text -------------------------------------------------------------------------

  /** Several values, each but the last with a comma behind it, are one array if the options say so; otherwise the
      error is at the end of the text. */
  lemma SeveralValues(o: Options, before: string, items: seq<Item>, vs: seq<Value>)
    requires o.Valid() && White(before) && ItemsProper(o, items) && ItemsMean(items, vs) && |items| > 1
    ensures ParseText(o, before + ItemsOf(items, "")) == if o.implicitTopArray then Ok(Array(vs), "") else Err("")
  {
    hide ParseElements, ItemsOf, ItemsProper, White;
    ElementsAreRead(o, before, items, vs, "");
    NothingToSkip(o, "", true);
  }
}
