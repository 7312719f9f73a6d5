/** Strings and keys are read back from what the writer makes of them. */
module ConfigStrings {
  import opened ConfigText
  import opened ConfigUtf8
  import opened ConfigGrammar
  import opened ConfigLayout

  // ---- Quoted strings -------------------------------------------------------------------------------------

  /** The four digits of a control character. */
  lemma Unicode16Reads(o: Options, n: nat, tail: string)
    requires n < 0x20
    ensures ParseEscape(o, Unicode16(n)[1..] + tail) == Ok([n as char], tail)
  {
    var a, b, c, d := HexChar(0), HexChar(0), HexChar(n / 16), HexChar(n % 16);
    assert Unicode16(n) == "\\u" + [a, b, c, d];
    var t := [a, b, c, d] + tail;
    assert Unicode16(n)[1..] + tail == "u" + t;
    assert ("u" + t)[1..] == t;
    HexFour(a, b, c, d, tail);
    assert HexDigit(a) == 0 && HexDigit(c) == n / 16 && HexDigit(d) == n % 16;
    assert t[4..] == tail;
  }

  lemma HexFour(a: char, b: char, c: char, d: char, tail: string)
    requires HexDigit(a) >= 0 && HexDigit(b) >= 0 && HexDigit(c) >= 0 && HexDigit(d) >= 0
    ensures HexValue([a, b, c, d] + tail, 4, 0) == HexDigit(a) * 0x1000 + HexDigit(b) * 0x100 + HexDigit(c) * 0x10 + HexDigit(d)
  {
    var t0, t1, t2, t3 := [a, b, c, d] + tail, [b, c, d] + tail, [c, d] + tail, [d] + tail;
    assert t0[1..] == t1 && t1[1..] == t2 && t2[1..] == t3 && t3[1..] == tail;
    assert HexValue(t0, 4, 0) == HexValue(t1, 3, HexDigit(a));
    assert HexValue(t1, 3, HexDigit(a)) == HexValue(t2, 2, HexDigit(a) * 16 + HexDigit(b));
    assert HexValue(t2, 2, HexDigit(a) * 16 + HexDigit(b)) == HexValue(t3, 1, (HexDigit(a) * 16 + HexDigit(b)) * 16 + HexDigit(c));
  }

  /** One character, escaped or not; NUL has an escape that the parser does not know. */
  lemma CharReads(o: Options, c: char, tail: string, start: string, acc: string)
    ensures c != NUL ==> ParseChars(o, EscapeChar(c) + tail, start, acc) == ParseChars(o, tail, start, acc + [c])
    ensures c == NUL ==> ParseChars(o, EscapeChar(c) + tail, start, acc).Err?
  {
    var x := EscapeChar(c);
    var s := x + tail;
    assert s[1..] == x[1..] + tail;
    if |x| == 2 {
      assert s[1..][1..] == tail;
      assert s[1..][0] == x[1];
    } else if |x| == 1 {
      assert s[1..] == tail;
    } else {
      Unicode16Reads(o, c as int, tail);
      assert s[0] == '\\';
    }
  }

  lemma NulFreeStep(x: string)
    requires x != []
    ensures NulFree(x) <==> x[0] != NUL && NulFree(x[1..])
  {
    if x[0] != NUL && NulFree(x[1..]) {
      forall i | 0 <= i < |x| ensures x[i] != NUL { if i > 0 { assert x[i] == x[1..][i - 1]; } }
    }
  }

  lemma CharsEnd(o: Options, suf: string, start: string, acc: string)
    ensures ParseChars(o, "\"" + suf, start, acc) == Ok(acc, suf)
  {
    assert ("\"" + suf)[1..] == suf;
  }

  lemma {:induction false} CharsRead(o: Options, x: string, suf: string, start: string, acc: string)
    ensures NulFree(x) ==> ParseChars(o, Escaped(x) + "\"" + suf, start, acc) == Ok(acc + x, suf)
    ensures !NulFree(x) ==> ParseChars(o, Escaped(x) + "\"" + suf, start, acc).Err?
    decreases |x|
  {
    hide ParseChars, EscapeChar;
    if x == [] {
      CharsEnd(o, suf, start, acc);
      assert Escaped(x) + "\"" + suf == "\"" + suf;
      assert acc + x == acc;
    } else {
      var tail := Escaped(x[1..]) + "\"" + suf;
      assert Escaped(x) + "\"" + suf == EscapeChar(x[0]) + tail;
      CharReads(o, x[0], tail, start, acc);
      NulFreeStep(x);
      if x[0] != NUL {
        CharsRead(o, x[1..], suf, start, acc + [x[0]]);
        assert acc + [x[0]] + x[1..] == acc + x;
      }
    }
  }

  /** A quoted string is read back exactly when it holds no NUL. */
  lemma QuotedRoundTrip(o: Options, x: string, suf: string)
    requires Peek(suf, 0) != '"'
    ensures if NulFree(x) then ParseString(o, QuotedText(x) + suf) == Ok(x, suf) else ParseString(o, QuotedText(x) + suf).Err?
  {
    var s := QuotedText(x) + suf;
    var body := Escaped(x) + "\"" + suf;
    assert s == "\"" + body;
    assert s[1..] == body;
    CharsRead(o, x, suf, s, "");
    assert "" + x == x;
    if x != [] {
      assert Escaped(x)[0] == EscapeChar(x[0])[0];
      assert s[1] == EscapeChar(x[0])[0] != '"';
    } else {
      assert s[1] == '"' && Peek(s, 2) == Peek(suf, 0);
    }
  }

  // ---- Triple-quoted strings ------------------------------------------------------------------------------

  const QUOTES := "\"\"\""

  lemma ContainsTail(s: string, part: string)
    requires s != []
    ensures Contains(s[1..], part) || LooksAt(s, part) ==> Contains(s, part)
  {
    if Contains(s[1..], part) {
      var i :| 0 <= i <= |s[1..]| && LooksAt(s[1..][i..], part);
      assert s[1..][i..] == s[i + 1..];
    }
    assert s[0..] == s;
  }

  lemma QuotesInside(x: string, suf: string)
    requires |x| >= 3
    ensures LooksAt(x + QUOTES + suf, QUOTES) ==> LooksAt(x, QUOTES)
  {
    assert (x + QUOTES + suf)[..3] == x[..3];
  }

  /** No place inside the string can be taken for its end: three quotes there are followed by a fourth. */
  lemma NotTheEnd(x: string, suf: string)
    requires x != [] && !LooksAt(x, QUOTES)
    ensures LooksAt(x + QUOTES + suf, QUOTES) ==> Peek(x + QUOTES + suf, 3) == '"'
  {
    if |x| >= 3 { QuotesInside(x, suf); }
  }

  lemma {:induction false} MultilineReads(x: string, suf: string, start: string, acc: string)
    requires !Contains(x, QUOTES) && Peek(suf, 0) != '"'
    ensures ParseMultiline(x + QUOTES + suf, start, acc) == if NulFree(x) then Ok(acc + x, suf) else Err(start)
    decreases |x|
  {
    var t := x + QUOTES + suf;
    if x == [] {
      assert t == QUOTES + suf;
      assert t[3..] == suf && Peek(t, 3) == Peek(suf, 0);
      assert acc + x == acc;
    } else {
      ContainsTail(x, QUOTES);
      NotTheEnd(x, suf);
      assert t[1..] == x[1..] + QUOTES + suf;
      MultilineReads(x[1..], suf, start, acc + [x[0]]);
      assert acc + [x[0]] + x[1..] == acc + x;
      FirstThree(x, suf);
    }
  }

  lemma FirstThree(x: string, suf: string)
    requires x != []
    ensures var t := x + QUOTES + suf;
            && (NulFree(x) ==> Peek(t, 0) != NUL && Peek(t, 1) != NUL && Peek(t, 2) != NUL && NulFree(x[1..]))
            && (!NulFree(x) && Peek(t, 0) != NUL ==> !NulFree(x[1..]))
            && t[0] == x[0]
  {
    var t := x + QUOTES + suf;
    assert forall i :: 0 <= i < |x| ==> t[i] == x[i];
    assert forall i :: |x| <= i < |x| + 3 ==> t[i] == QUOTES[i - |x|];
    if !NulFree(x) && x[0] != NUL {
      var i :| 0 <= i < |x| && x[i] == NUL;
      assert x[1..][i - 1] == NUL;
    }
  }

  /** A triple-quoted string is read back exactly when it holds no NUL, also if it begins or ends with
      quotes, as long as it does not hold three of them in a row. */
  lemma VerbatimRoundTrip(o: Options, x: string, suf: string)
    requires o.strPythonMultiline && !Contains(x, QUOTES) && Peek(suf, 0) != '"'
    ensures if NulFree(x) then ParseString(o, VerbatimText(x) + suf) == Ok(x, suf) else ParseString(o, VerbatimText(x) + suf).Err?
  {
    var s := VerbatimText(x) + suf;
    assert s == QUOTES + (x + QUOTES + suf);
    assert s[3..] == x + QUOTES + suf;
    assert s[0] == QUOTES[0] && s[1] == QUOTES[1] && s[2] == QUOTES[2];
    MultilineReads(x, suf, s, "");
    assert "" + x == x;
  }

  /** write_string chooses one of the two forms; either is read back. */
  lemma StringRoundTrip(o: Options, x: string, suf: string)
    requires Peek(suf, 0) != '"'
    ensures if NulFree(x) then ParseString(o, StringText(o, x) + suf) == Ok(x, suf) else ParseString(o, StringText(o, x) + suf).Err?
  {
    if WrittenQuoted(o, x) { QuotedRoundTrip(o, x, suf); } else { VerbatimRoundTrip(o, x, suf); }
  }

  // ---- Keys -----------------------------------------------------------------------------------------------

  predicate ReservedWord(key: string) {
    key == "true" || key == "false" || key == "null"
  }

  /** Is the key written so that it can be read? A reserved word without quotes cannot. */
  predicate ReadableKey(o: Options, key: string) {
    NulFree(key) && !(o.identifiersKeys && ReservedWord(key))
  }

  lemma {:induction false} PrefixOfKey(key: string, suf: string)
    requires AllIdentChars(key) && !IdentChar(Peek(suf, 0))
    ensures NulFree(key) ==> IdentPrefix(key + suf) == key
    ensures !NulFree(key) ==> Peek((key + suf)[|IdentPrefix(key + suf)|..], 0) == NUL
    decreases |key|
  {
    var t := key + suf;
    if key == [] {
      assert t == suf;
    } else if key[0] == NUL {
      assert IdentPrefix(t) == [];
    } else {
      assert t[1..] == key[1..] + suf;
      PrefixOfKey(key[1..], suf);
      NulFreeStep(key);
      assert t[|IdentPrefix(t)|..] == t[1..][|IdentPrefix(t[1..])|..];
    }
  }

  /** A bare key is taken for a reserved word only if it is one. */
  lemma BareKeyReserved(key: string, suf: string)
    requires NulFree(key) && IsIdentifier(key) && !IdentChar(Peek(suf, 0))
    ensures Reserved(key + suf) <==> ReservedWord(key)
  {
    var t := key + suf;
    WordAt(key, suf, "true");
    WordAt(key, suf, "null");
    WordAt(key, suf, "false");
  }

  lemma {:induction false} AllCharsIdent(key: string)
    requires NulFree(key) && AllIdentChars(key)
    ensures forall i :: 0 <= i < |key| ==> IdentChar(key[i])
    decreases |key|
  {
    if key != [] {
      AllCharsIdent(key[1..]);
      forall i | 0 <= i < |key| ensures IdentChar(key[i]) { if i > 0 { assert key[i] == key[1..][i - 1]; } }
    }
  }

  lemma WordAt(key: string, suf: string, word: string)
    requires NulFree(key) && IsIdentifier(key) && !IdentChar(Peek(suf, 0))
    requires word != [] && forall i :: 0 <= i < |word| ==> IdentChar(word[i])
    ensures LooksAt(key + suf, word) && !IdentChar(Peek(key + suf, |word|)) <==> key == word
    ensures LooksAt(key + suf, word) ==> |word| <= |key| && key[..|word|] == word
  {
    var t := key + suf;
    AllCharsIdent(key[1..]);
    assert forall i :: 0 < i < |key| ==> key[i] == key[1..][i - 1];
    assert Peek(t, |key|) == Peek(suf, 0);
    if LooksAt(t, word) {
      if |key| < |word| { CharAt(t, word, |key|); }
      assert t[..|word|] == key[..|word|];
      if |word| < |key| { assert t[|word|] == key[|word|]; }
    }
    if key == word { assert t[..|word|] == word; }
  }

  lemma CharAt(t: string, word: string, n: nat)
    requires LooksAt(t, word) && n < |word|
    ensures Peek(t, n) == word[n]
  {
  }

  /** A key is read back exactly when it is readable; otherwise there is an error in it, or a NUL behind
      what was read of it. */
  lemma KeyRoundTrip(o: Options, key: string, suf: string)
    requires Peek(suf, 0) == ':' || Peek(suf, 0) == ' '
    ensures var r := ParseKey(o, KeyText(o, key) + suf);
            if ReadableKey(o, key) then r == Ok(key, suf) else r.Err? || Peek(r.rest, 0) == NUL
  {
    var t := KeyText(o, key) + suf;
    if o.identifiersKeys && IsIdentifier(key) {
      assert t[0] == key[0];
      WholeKey(key);
      PrefixOfKey(key, suf);
      if NulFree(key) {
        BareKeyReserved(key, suf);
        assert t[|key|..] == suf;
      }
    } else {
      StringRoundTrip(o, key, suf);
      assert StringText(o, key)[0] == '"';
      assert t[0] == '"';
      if o.identifiersKeys && ReservedWord(key) { ReservedWordsAreIdentifiers(key); }
    }
  }

  lemma WholeKey(key: string)
    requires IsIdentifier(key)
    ensures AllIdentChars(key)
  {
  }

  lemma ReservedWordsAreIdentifiers(key: string)
    requires ReservedWord(key)
    ensures IsIdentifier(key)
  {
    var rest := key[1..];
    assert rest == "rue" || rest == "alse" || rest == "ull";
    assert "rue"[1..] == "ue" && "ue"[1..] == "e" && "e"[1..] == "";
    assert "ull"[1..] == "ll" && "ll"[1..] == "l" && "l"[1..] == "";
    assert "alse"[1..] == "lse" && "lse"[1..] == "se" && "se"[1..] == "e";
    assert AllIdentChars("") && AllIdentChars("e") && AllIdentChars("ue") && AllIdentChars("se") && AllIdentChars("lse");
    assert AllIdentChars("l") && AllIdentChars("ll");
  }
}
